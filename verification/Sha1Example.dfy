/** The digest of the three bytes "abc", the first example of the standard, worked out word by word and round by
    round. */
module Sha1Example {
  import opened Sha1
  import opened Words

  ghost const ABC: seq<bv8> := [0x61, 0x62, 0x63]

  /** The message and its padding: one block. */
  ghost function Block(): (b: seq<bv8>)
    ensures |b| == 64
  {
    [0x61, 0x62, 0x63, 0x80] + Zeros(59) + [24]
  }

  /** The words of the block. */
  function Word(t: nat): bv32 {
    if t == 0 then 0x61626380
    else if t == 15 then 0x00000018
    else if t == 16 then 0xC2C4C700
    else if t == 17 then 0x00000000
    else if t == 18 then 0x00000030
    else if t == 19 then 0x85898E01
    else if t == 20 then 0x00000000
    else if t == 21 then 0x00000060
    else if t == 22 then 0x0B131C03
    else if t == 23 then 0x00000030
    else if t == 24 then 0x85898EC1
    else if t == 25 then 0x16263806
    else if t == 26 then 0x00000000
    else if t == 27 then 0x00000180
    else if t == 28 then 0x2C4C700C
    else if t == 29 then 0x000000F0
    else if t == 30 then 0x93AFB507
    else if t == 31 then 0x5898E048
    else if t == 32 then 0x8E9A9202
    else if t == 33 then 0x00000600
    else if t == 34 then 0xB131C0F0
    else if t == 35 then 0x16263BC6
    else if t == 36 then 0x4EBED41E
    else if t == 37 then 0x626380A1
    else if t == 38 then 0x16263806
    else if t == 39 then 0x000018C0
    else if t == 40 then 0xD2E138C4
    else if t == 41 then 0x00000F00
    else if t == 42 then 0x3AFB5079
    else if t == 43 then 0x898E04E5
    else if t == 44 then 0xE2BA3C2B
    else if t == 45 then 0x000060C0
    else if t == 46 then 0x053A37CD
    else if t == 47 then 0x74458547
    else if t == 48 then 0xDA9415ED
    else if t == 49 then 0x26380A16
    else if t == 50 then 0x626383A1
    else if t == 51 then 0x4EBF54DE
    else if t == 52 then 0x3835B44B
    else if t == 53 then 0x0000F600
    else if t == 54 then 0x1E84C7A3
    else if t == 55 then 0x98E04D98
    else if t == 56 then 0x651D16A0
    else if t == 57 then 0x62658CA1
    else if t == 58 then 0x458544D6
    else if t == 59 then 0x44584CB7
    else if t == 60 then 0x7BA06619
    else if t == 61 then 0x6380AEA2
    else if t == 62 then 0x0AE55269
    else if t == 63 then 0x627B49A1
    else if t == 64 then 0x7CD45C9D
    else if t == 65 then 0x000F0000
    else if t == 66 then 0xFB50753A
    else if t == 67 then 0xEC6765E8
    else if t == 68 then 0xBA3C2BE2
    else if t == 69 then 0x0060C000
    else if t == 70 then 0x3A37CD05
    else if t == 71 then 0x458546F4
    else if t == 72 then 0xB8599DD6
    else if t == 73 then 0x380A1A26
    else if t == 74 then 0x01E02203
    else if t == 75 then 0xE7CC3456
    else if t == 76 then 0xE6E60B69
    else if t == 77 then 0x00F60A00
    else if t == 78 then 0x5795EF4F
    else if t == 79 then 0x822E0879
    else 0
  }

  /** The five words after t rounds. */
  function After(t: nat): Hash {
    if t == 0 then INITIAL
    else if t == 1 then Hash(0x0116FC33, 0x67452301, 0x7BF36AE2, 0x98BADCFE, 0x10325476)
    else if t == 2 then Hash(0x8990536D, 0x0116FC33, 0x59D148C0, 0x7BF36AE2, 0x98BADCFE)
    else if t == 3 then Hash(0xA1390F08, 0x8990536D, 0xC045BF0C, 0x59D148C0, 0x7BF36AE2)
    else if t == 4 then Hash(0xCDD8E11B, 0xA1390F08, 0x626414DB, 0xC045BF0C, 0x59D148C0)
    else if t == 5 then Hash(0xCFD499DE, 0xCDD8E11B, 0x284E43C2, 0x626414DB, 0xC045BF0C)
    else if t == 6 then Hash(0x3FC7CA40, 0xCFD499DE, 0xF3763846, 0x284E43C2, 0x626414DB)
    else if t == 7 then Hash(0x993E30C1, 0x3FC7CA40, 0xB3F52677, 0xF3763846, 0x284E43C2)
    else if t == 8 then Hash(0x9E8C07D4, 0x993E30C1, 0x0FF1F290, 0xB3F52677, 0xF3763846)
    else if t == 9 then Hash(0x4B6AE328, 0x9E8C07D4, 0x664F8C30, 0x0FF1F290, 0xB3F52677)
    else if t == 10 then Hash(0x8351F929, 0x4B6AE328, 0x27A301F5, 0x664F8C30, 0x0FF1F290)
    else if t == 11 then Hash(0xFBDA9E89, 0x8351F929, 0x12DAB8CA, 0x27A301F5, 0x664F8C30)
    else if t == 12 then Hash(0x63188FE4, 0xFBDA9E89, 0x60D47E4A, 0x12DAB8CA, 0x27A301F5)
    else if t == 13 then Hash(0x4607B664, 0x63188FE4, 0x7EF6A7A2, 0x60D47E4A, 0x12DAB8CA)
    else if t == 14 then Hash(0x9128F695, 0x4607B664, 0x18C623F9, 0x7EF6A7A2, 0x60D47E4A)
    else if t == 15 then Hash(0x196BEE77, 0x9128F695, 0x1181ED99, 0x18C623F9, 0x7EF6A7A2)
    else if t == 16 then Hash(0x20BDD62F, 0x196BEE77, 0x644A3DA5, 0x1181ED99, 0x18C623F9)
    else if t == 17 then Hash(0x4E925823, 0x20BDD62F, 0xC65AFB9D, 0x644A3DA5, 0x1181ED99)
    else if t == 18 then Hash(0x82AA6728, 0x4E925823, 0xC82F758B, 0xC65AFB9D, 0x644A3DA5)
    else if t == 19 then Hash(0xDC64901D, 0x82AA6728, 0xD3A49608, 0xC82F758B, 0xC65AFB9D)
    else if t == 20 then Hash(0xFD9E1D7D, 0xDC64901D, 0x20AA99CA, 0xD3A49608, 0xC82F758B)
    else if t == 21 then Hash(0x1A37B0CA, 0xFD9E1D7D, 0x77192407, 0x20AA99CA, 0xD3A49608)
    else if t == 22 then Hash(0x33A23BFC, 0x1A37B0CA, 0x7F67875F, 0x77192407, 0x20AA99CA)
    else if t == 23 then Hash(0x21283486, 0x33A23BFC, 0x868DEC32, 0x7F67875F, 0x77192407)
    else if t == 24 then Hash(0xD541F12D, 0x21283486, 0x0CE88EFF, 0x868DEC32, 0x7F67875F)
    else if t == 25 then Hash(0xC7567DC6, 0xD541F12D, 0x884A0D21, 0x0CE88EFF, 0x868DEC32)
    else if t == 26 then Hash(0x48413BA4, 0xC7567DC6, 0x75507C4B, 0x884A0D21, 0x0CE88EFF)
    else if t == 27 then Hash(0xBE35FBD5, 0x48413BA4, 0xB1D59F71, 0x75507C4B, 0x884A0D21)
    else if t == 28 then Hash(0x4AA84D97, 0xBE35FBD5, 0x12104EE9, 0xB1D59F71, 0x75507C4B)
    else if t == 29 then Hash(0x8370B52E, 0x4AA84D97, 0x6F8D7EF5, 0x12104EE9, 0xB1D59F71)
    else if t == 30 then Hash(0xC5FBAF5D, 0x8370B52E, 0xD2AA1365, 0x6F8D7EF5, 0x12104EE9)
    else if t == 31 then Hash(0x1267B407, 0xC5FBAF5D, 0xA0DC2D4B, 0xD2AA1365, 0x6F8D7EF5)
    else if t == 32 then Hash(0x3B845D33, 0x1267B407, 0x717EEBD7, 0xA0DC2D4B, 0xD2AA1365)
    else if t == 33 then Hash(0x046FAA0A, 0x3B845D33, 0xC499ED01, 0x717EEBD7, 0xA0DC2D4B)
    else if t == 34 then Hash(0x2C0EBC11, 0x046FAA0A, 0xCEE1174C, 0xC499ED01, 0x717EEBD7)
    else if t == 35 then Hash(0x21796AD4, 0x2C0EBC11, 0x811BEA82, 0xCEE1174C, 0xC499ED01)
    else if t == 36 then Hash(0xDCBBB0CB, 0x21796AD4, 0x4B03AF04, 0x811BEA82, 0xCEE1174C)
    else if t == 37 then Hash(0x0F511FD8, 0xDCBBB0CB, 0x085E5AB5, 0x4B03AF04, 0x811BEA82)
    else if t == 38 then Hash(0xDC63973F, 0x0F511FD8, 0xF72EEC32, 0x085E5AB5, 0x4B03AF04)
    else if t == 39 then Hash(0x4C986405, 0xDC63973F, 0x03D447F6, 0xF72EEC32, 0x085E5AB5)
    else if t == 40 then Hash(0x32DE1CBA, 0x4C986405, 0xF718E5CF, 0x03D447F6, 0xF72EEC32)
    else if t == 41 then Hash(0xFC87DEDF, 0x32DE1CBA, 0x53261901, 0xF718E5CF, 0x03D447F6)
    else if t == 42 then Hash(0x970A0D5C, 0xFC87DEDF, 0x8CB7872E, 0x53261901, 0xF718E5CF)
    else if t == 43 then Hash(0x7F193DC5, 0x970A0D5C, 0xFF21F7B7, 0x8CB7872E, 0x53261901)
    else if t == 44 then Hash(0xEE1B1AAF, 0x7F193DC5, 0x25C28357, 0xFF21F7B7, 0x8CB7872E)
    else if t == 45 then Hash(0x40F28E09, 0xEE1B1AAF, 0x5FC64F71, 0x25C28357, 0xFF21F7B7)
    else if t == 46 then Hash(0x1C51E1F2, 0x40F28E09, 0xFB86C6AB, 0x5FC64F71, 0x25C28357)
    else if t == 47 then Hash(0xA01B846C, 0x1C51E1F2, 0x503CA382, 0xFB86C6AB, 0x5FC64F71)
    else if t == 48 then Hash(0xBEAD02CA, 0xA01B846C, 0x8714787C, 0x503CA382, 0xFB86C6AB)
    else if t == 49 then Hash(0xBAF39337, 0xBEAD02CA, 0x2806E11B, 0x8714787C, 0x503CA382)
    else if t == 50 then Hash(0x120731C5, 0xBAF39337, 0xAFAB40B2, 0x2806E11B, 0x8714787C)
    else if t == 51 then Hash(0x641DB2CE, 0x120731C5, 0xEEBCE4CD, 0xAFAB40B2, 0x2806E11B)
    else if t == 52 then Hash(0x3847AD66, 0x641DB2CE, 0x4481CC71, 0xEEBCE4CD, 0xAFAB40B2)
    else if t == 53 then Hash(0xE490436D, 0x3847AD66, 0x99076CB3, 0x4481CC71, 0xEEBCE4CD)
    else if t == 54 then Hash(0x27E9F1D8, 0xE490436D, 0x8E11EB59, 0x99076CB3, 0x4481CC71)
    else if t == 55 then Hash(0x7B71F76D, 0x27E9F1D8, 0x792410DB, 0x8E11EB59, 0x99076CB3)
    else if t == 56 then Hash(0x5E6456AF, 0x7B71F76D, 0x09FA7C76, 0x792410DB, 0x8E11EB59)
    else if t == 57 then Hash(0xC846093F, 0x5E6456AF, 0x5EDC7DDB, 0x09FA7C76, 0x792410DB)
    else if t == 58 then Hash(0xD262FF50, 0xC846093F, 0xD79915AB, 0x5EDC7DDB, 0x09FA7C76)
    else if t == 59 then Hash(0x09D785FD, 0xD262FF50, 0xF211824F, 0xD79915AB, 0x5EDC7DDB)
    else if t == 60 then Hash(0x3F52DE5A, 0x09D785FD, 0x3498BFD4, 0xF211824F, 0xD79915AB)
    else if t == 61 then Hash(0xD756C147, 0x3F52DE5A, 0x4275E17F, 0x3498BFD4, 0xF211824F)
    else if t == 62 then Hash(0x548C9CB2, 0xD756C147, 0x8FD4B796, 0x4275E17F, 0x3498BFD4)
    else if t == 63 then Hash(0xB66C020B, 0x548C9CB2, 0xF5D5B051, 0x8FD4B796, 0x4275E17F)
    else if t == 64 then Hash(0x6B61C9E1, 0xB66C020B, 0x9523272C, 0xF5D5B051, 0x8FD4B796)
    else if t == 65 then Hash(0x19DFA7AC, 0x6B61C9E1, 0xED9B0082, 0x9523272C, 0xF5D5B051)
    else if t == 66 then Hash(0x101655F9, 0x19DFA7AC, 0x5AD87278, 0xED9B0082, 0x9523272C)
    else if t == 67 then Hash(0x0C3DF2B4, 0x101655F9, 0x0677E9EB, 0x5AD87278, 0xED9B0082)
    else if t == 68 then Hash(0x78DD4D2B, 0x0C3DF2B4, 0x4405957E, 0x0677E9EB, 0x5AD87278)
    else if t == 69 then Hash(0x497093C0, 0x78DD4D2B, 0x030F7CAD, 0x4405957E, 0x0677E9EB)
    else if t == 70 then Hash(0x3F2588C2, 0x497093C0, 0xDE37534A, 0x030F7CAD, 0x4405957E)
    else if t == 71 then Hash(0xC199F8C7, 0x3F2588C2, 0x125C24F0, 0xDE37534A, 0x030F7CAD)
    else if t == 72 then Hash(0x39859DE7, 0xC199F8C7, 0x8FC96230, 0x125C24F0, 0xDE37534A)
    else if t == 73 then Hash(0xEDB42DE4, 0x39859DE7, 0xF0667E31, 0x8FC96230, 0x125C24F0)
    else if t == 74 then Hash(0x11793F6F, 0xEDB42DE4, 0xCE616779, 0xF0667E31, 0x8FC96230)
    else if t == 75 then Hash(0x5EE76897, 0x11793F6F, 0x3B6D0B79, 0xCE616779, 0xF0667E31)
    else if t == 76 then Hash(0x63F7DAB7, 0x5EE76897, 0xC45E4FDB, 0x3B6D0B79, 0xCE616779)
    else if t == 77 then Hash(0xA079B7D9, 0x63F7DAB7, 0xD7B9DA25, 0xC45E4FDB, 0x3B6D0B79)
    else if t == 78 then Hash(0x860D21CC, 0xA079B7D9, 0xD8FDF6AD, 0xD7B9DA25, 0xC45E4FDB)
    else if t == 79 then Hash(0x5738D5E1, 0x860D21CC, 0x681E6DF6, 0xD8FDF6AD, 0xD7B9DA25)
    else Hash(0x42541B35, 0x5738D5E1, 0x21834873, 0x681E6DF6, 0xD8FDF6AD)
  }

  lemma FirstWords(t: nat)
    requires t < 16
    ensures WordAt(Block(), t) == Word(t)
  {
    var b := Block();
    if t == 0 {
      assert b[0] == 0x61 && b[1] == 0x62 && b[2] == 0x63 && b[3] == 0x80;
    } else {
      assert b[4 * t] == 0 && b[4 * t + 1] == 0 && b[4 * t + 2] == 0 && b[4 * t + 3] == if t == 15 then 24 else 0;
    }
  }

  lemma Words16(t: nat)
    requires 16 <= t < 20
    ensures Word(t) == Rotate1(Xor4(Word(t - 3), Word(t - 8), Word(t - 14), Word(t - 16)))
  {
    assert Rotate1(Xor4(0x00000000, 0x00000000, 0x00000000, 0x61626380)) == 0xC2C4C700;
    assert Rotate1(Xor4(0x00000000, 0x00000000, 0x00000000, 0x00000000)) == 0x00000000;
    assert Rotate1(Xor4(0x00000018, 0x00000000, 0x00000000, 0x00000000)) == 0x00000030;
    assert Rotate1(Xor4(0xC2C4C700, 0x00000000, 0x00000000, 0x00000000)) == 0x85898E01;
  }

  lemma Words20(t: nat)
    requires 20 <= t < 24
    ensures Word(t) == Rotate1(Xor4(Word(t - 3), Word(t - 8), Word(t - 14), Word(t - 16)))
  {
    assert Rotate1(Xor4(0x00000000, 0x00000000, 0x00000000, 0x00000000)) == 0x00000000;
    assert Rotate1(Xor4(0x00000030, 0x00000000, 0x00000000, 0x00000000)) == 0x00000060;
    assert Rotate1(Xor4(0x85898E01, 0x00000000, 0x00000000, 0x00000000)) == 0x0B131C03;
    assert Rotate1(Xor4(0x00000000, 0x00000018, 0x00000000, 0x00000000)) == 0x00000030;
  }

  lemma Words24(t: nat)
    requires 24 <= t < 28
    ensures Word(t) == Rotate1(Xor4(Word(t - 3), Word(t - 8), Word(t - 14), Word(t - 16)))
  {
    assert Rotate1(Xor4(0x00000060, 0xC2C4C700, 0x00000000, 0x00000000)) == 0x85898EC1;
    assert Rotate1(Xor4(0x0B131C03, 0x00000000, 0x00000000, 0x00000000)) == 0x16263806;
    assert Rotate1(Xor4(0x00000030, 0x00000030, 0x00000000, 0x00000000)) == 0x00000000;
    assert Rotate1(Xor4(0x85898EC1, 0x85898E01, 0x00000000, 0x00000000)) == 0x00000180;
  }

  lemma Words28(t: nat)
    requires 28 <= t < 32
    ensures Word(t) == Rotate1(Xor4(Word(t - 3), Word(t - 8), Word(t - 14), Word(t - 16)))
  {
    assert Rotate1(Xor4(0x16263806, 0x00000000, 0x00000000, 0x00000000)) == 0x2C4C700C;
    assert Rotate1(Xor4(0x00000000, 0x00000060, 0x00000018, 0x00000000)) == 0x000000F0;
    assert Rotate1(Xor4(0x00000180, 0x0B131C03, 0xC2C4C700, 0x00000000)) == 0x93AFB507;
    assert Rotate1(Xor4(0x2C4C700C, 0x00000030, 0x00000000, 0x00000018)) == 0x5898E048;
  }

  lemma Words32(t: nat)
    requires 32 <= t < 36
    ensures Word(t) == Rotate1(Xor4(Word(t - 3), Word(t - 8), Word(t - 14), Word(t - 16)))
  {
    assert Rotate1(Xor4(0x000000F0, 0x85898EC1, 0x00000030, 0xC2C4C700)) == 0x8E9A9202;
    assert Rotate1(Xor4(0x93AFB507, 0x16263806, 0x85898E01, 0x00000000)) == 0x00000600;
    assert Rotate1(Xor4(0x5898E048, 0x00000000, 0x00000000, 0x00000030)) == 0xB131C0F0;
    assert Rotate1(Xor4(0x8E9A9202, 0x00000180, 0x00000060, 0x85898E01)) == 0x16263BC6;
  }

  lemma Words36(t: nat)
    requires 36 <= t < 40
    ensures Word(t) == Rotate1(Xor4(Word(t - 3), Word(t - 8), Word(t - 14), Word(t - 16)))
  {
    assert Rotate1(Xor4(0x00000600, 0x2C4C700C, 0x0B131C03, 0x00000000)) == 0x4EBED41E;
    assert Rotate1(Xor4(0xB131C0F0, 0x000000F0, 0x00000030, 0x00000060)) == 0x626380A1;
    assert Rotate1(Xor4(0x16263BC6, 0x93AFB507, 0x85898EC1, 0x0B131C03)) == 0x16263806;
    assert Rotate1(Xor4(0x4EBED41E, 0x5898E048, 0x16263806, 0x00000030)) == 0x000018C0;
  }

  lemma Words40(t: nat)
    requires 40 <= t < 44
    ensures Word(t) == Rotate1(Xor4(Word(t - 3), Word(t - 8), Word(t - 14), Word(t - 16)))
  {
    assert Rotate1(Xor4(0x626380A1, 0x8E9A9202, 0x00000000, 0x85898EC1)) == 0xD2E138C4;
    assert Rotate1(Xor4(0x16263806, 0x00000600, 0x00000180, 0x16263806)) == 0x00000F00;
    assert Rotate1(Xor4(0x000018C0, 0xB131C0F0, 0x2C4C700C, 0x00000000)) == 0x3AFB5079;
    assert Rotate1(Xor4(0xD2E138C4, 0x16263BC6, 0x000000F0, 0x00000180)) == 0x898E04E5;
  }

  lemma Words44(t: nat)
    requires 44 <= t < 48
    ensures Word(t) == Rotate1(Xor4(Word(t - 3), Word(t - 8), Word(t - 14), Word(t - 16)))
  {
    assert Rotate1(Xor4(0x00000F00, 0x4EBED41E, 0x93AFB507, 0x2C4C700C)) == 0xE2BA3C2B;
    assert Rotate1(Xor4(0x3AFB5079, 0x626380A1, 0x5898E048, 0x000000F0)) == 0x000060C0;
    assert Rotate1(Xor4(0x898E04E5, 0x16263806, 0x8E9A9202, 0x93AFB507)) == 0x053A37CD;
    assert Rotate1(Xor4(0xE2BA3C2B, 0x000018C0, 0x00000600, 0x5898E048)) == 0x74458547;
  }

  lemma Words48(t: nat)
    requires 48 <= t < 52
    ensures Word(t) == Rotate1(Xor4(Word(t - 3), Word(t - 8), Word(t - 14), Word(t - 16)))
  {
    assert Rotate1(Xor4(0x000060C0, 0xD2E138C4, 0xB131C0F0, 0x8E9A9202)) == 0xDA9415ED;
    assert Rotate1(Xor4(0x053A37CD, 0x00000F00, 0x16263BC6, 0x00000600)) == 0x26380A16;
    assert Rotate1(Xor4(0x74458547, 0x3AFB5079, 0x4EBED41E, 0xB131C0F0)) == 0x626383A1;
    assert Rotate1(Xor4(0xDA9415ED, 0x898E04E5, 0x626380A1, 0x16263BC6)) == 0x4EBF54DE;
  }

  lemma Words52(t: nat)
    requires 52 <= t < 56
    ensures Word(t) == Rotate1(Xor4(Word(t - 3), Word(t - 8), Word(t - 14), Word(t - 16)))
  {
    assert Rotate1(Xor4(0x26380A16, 0xE2BA3C2B, 0x16263806, 0x4EBED41E)) == 0x3835B44B;
    assert Rotate1(Xor4(0x626383A1, 0x000060C0, 0x000018C0, 0x626380A1)) == 0x0000F600;
    assert Rotate1(Xor4(0x4EBF54DE, 0x053A37CD, 0xD2E138C4, 0x16263806)) == 0x1E84C7A3;
    assert Rotate1(Xor4(0x3835B44B, 0x74458547, 0x00000F00, 0x000018C0)) == 0x98E04D98;
  }

  lemma Words56(t: nat)
    requires 56 <= t < 60
    ensures Word(t) == Rotate1(Xor4(Word(t - 3), Word(t - 8), Word(t - 14), Word(t - 16)))
  {
    assert Rotate1(Xor4(0x0000F600, 0xDA9415ED, 0x3AFB5079, 0xD2E138C4)) == 0x651D16A0;
    assert Rotate1(Xor4(0x1E84C7A3, 0x26380A16, 0x898E04E5, 0x00000F00)) == 0x62658CA1;
    assert Rotate1(Xor4(0x98E04D98, 0x626383A1, 0xE2BA3C2B, 0x3AFB5079)) == 0x458544D6;
    assert Rotate1(Xor4(0x651D16A0, 0x4EBF54DE, 0x000060C0, 0x898E04E5)) == 0x44584CB7;
  }

  lemma Words60(t: nat)
    requires 60 <= t < 64
    ensures Word(t) == Rotate1(Xor4(Word(t - 3), Word(t - 8), Word(t - 14), Word(t - 16)))
  {
    assert Rotate1(Xor4(0x62658CA1, 0x3835B44B, 0x053A37CD, 0xE2BA3C2B)) == 0x7BA06619;
    assert Rotate1(Xor4(0x458544D6, 0x0000F600, 0x74458547, 0x000060C0)) == 0x6380AEA2;
    assert Rotate1(Xor4(0x44584CB7, 0x1E84C7A3, 0xDA9415ED, 0x053A37CD)) == 0x0AE55269;
    assert Rotate1(Xor4(0x7BA06619, 0x98E04D98, 0x26380A16, 0x74458547)) == 0x627B49A1;
  }

  lemma Words64(t: nat)
    requires 64 <= t < 68
    ensures Word(t) == Rotate1(Xor4(Word(t - 3), Word(t - 8), Word(t - 14), Word(t - 16)))
  {
    assert Rotate1(Xor4(0x6380AEA2, 0x651D16A0, 0x626383A1, 0xDA9415ED)) == 0x7CD45C9D;
    assert Rotate1(Xor4(0x0AE55269, 0x62658CA1, 0x4EBF54DE, 0x26380A16)) == 0x000F0000;
    assert Rotate1(Xor4(0x627B49A1, 0x458544D6, 0x3835B44B, 0x626383A1)) == 0xFB50753A;
    assert Rotate1(Xor4(0x7CD45C9D, 0x44584CB7, 0x0000F600, 0x4EBF54DE)) == 0xEC6765E8;
  }

  lemma Words68(t: nat)
    requires 68 <= t < 72
    ensures Word(t) == Rotate1(Xor4(Word(t - 3), Word(t - 8), Word(t - 14), Word(t - 16)))
  {
    assert Rotate1(Xor4(0x000F0000, 0x7BA06619, 0x1E84C7A3, 0x3835B44B)) == 0xBA3C2BE2;
    assert Rotate1(Xor4(0xFB50753A, 0x6380AEA2, 0x98E04D98, 0x0000F600)) == 0x0060C000;
    assert Rotate1(Xor4(0xEC6765E8, 0x0AE55269, 0x651D16A0, 0x1E84C7A3)) == 0x3A37CD05;
    assert Rotate1(Xor4(0xBA3C2BE2, 0x627B49A1, 0x62658CA1, 0x98E04D98)) == 0x458546F4;
  }

  lemma Words72(t: nat)
    requires 72 <= t < 76
    ensures Word(t) == Rotate1(Xor4(Word(t - 3), Word(t - 8), Word(t - 14), Word(t - 16)))
  {
    assert Rotate1(Xor4(0x0060C000, 0x7CD45C9D, 0x458544D6, 0x651D16A0)) == 0xB8599DD6;
    assert Rotate1(Xor4(0x3A37CD05, 0x000F0000, 0x44584CB7, 0x62658CA1)) == 0x380A1A26;
    assert Rotate1(Xor4(0x458546F4, 0xFB50753A, 0x7BA06619, 0x458544D6)) == 0x01E02203;
    assert Rotate1(Xor4(0xB8599DD6, 0xEC6765E8, 0x6380AEA2, 0x44584CB7)) == 0xE7CC3456;
  }

  lemma Words76(t: nat)
    requires 76 <= t < 80
    ensures Word(t) == Rotate1(Xor4(Word(t - 3), Word(t - 8), Word(t - 14), Word(t - 16)))
  {
    assert Rotate1(Xor4(0x380A1A26, 0xBA3C2BE2, 0x0AE55269, 0x7BA06619)) == 0xE6E60B69;
    assert Rotate1(Xor4(0x01E02203, 0x0060C000, 0x627B49A1, 0x6380AEA2)) == 0x00F60A00;
    assert Rotate1(Xor4(0xE7CC3456, 0x3A37CD05, 0x7CD45C9D, 0x0AE55269)) == 0x5795EF4F;
    assert Rotate1(Xor4(0xE6E60B69, 0x458546F4, 0x000F0000, 0x627B49A1)) == 0x822E0879;
  }

  lemma {:induction false} WordIs(t: nat)
    requires t < 80
    ensures Schedule(Block(), t) == Word(t)
  {
    hide *;
    ScheduleIs(t);
    if t < 16 {
      FirstWords(t);
    } else {
      WordIs(t - 3);
      WordIs(t - 8);
      WordIs(t - 14);
      WordIs(t - 16);
      NextWord(t);
    }
  }

  lemma ScheduleIs(t: nat)
    ensures t < 16 ==> Schedule(Block(), t) == WordAt(Block(), t)
    ensures t >= 16 ==>
              Schedule(Block(), t) == Rotate1(Xor4(Schedule(Block(), t - 3), Schedule(Block(), t - 8),
                                                   Schedule(Block(), t - 14), Schedule(Block(), t - 16)))
  {
    hide WordAt, Rotate1, Block, Xor4;
  }

  lemma NextWord(t: nat)
    requires 16 <= t < 80
    ensures Word(t) == Rotate1(Xor4(Word(t - 3), Word(t - 8), Word(t - 14), Word(t - 16)))
  {
    hide *;
    if t < 20 {
      Words16(t);
    } else if t < 24 {
      Words20(t);
    } else if t < 28 {
      Words24(t);
    } else if t < 32 {
      Words28(t);
    } else if t < 36 {
      Words32(t);
    } else if t < 40 {
      Words36(t);
    } else if t < 44 {
      Words40(t);
    } else if t < 48 {
      Words44(t);
    } else if t < 52 {
      Words48(t);
    } else if t < 56 {
      Words52(t);
    } else if t < 60 {
      Words56(t);
    } else if t < 64 {
      Words60(t);
    } else if t < 68 {
      Words64(t);
    } else if t < 72 {
      Words68(t);
    } else if t < 76 {
      Words72(t);
    } else {
      Words76(t);
    }
  }

  lemma Rounds0(t: nat)
    requires 0 <= t < 2
    ensures After(t + 1) == Round(t, After(t), Word(t))
  {
  }

  lemma Rounds2(t: nat)
    requires 2 <= t < 4
    ensures After(t + 1) == Round(t, After(t), Word(t))
  {
  }

  lemma Rounds4(t: nat)
    requires 4 <= t < 6
    ensures After(t + 1) == Round(t, After(t), Word(t))
  {
  }

  lemma Rounds6(t: nat)
    requires 6 <= t < 8
    ensures After(t + 1) == Round(t, After(t), Word(t))
  {
  }

  lemma Rounds8(t: nat)
    requires 8 <= t < 10
    ensures After(t + 1) == Round(t, After(t), Word(t))
  {
  }

  lemma Rounds10(t: nat)
    requires 10 <= t < 12
    ensures After(t + 1) == Round(t, After(t), Word(t))
  {
  }

  lemma Rounds12(t: nat)
    requires 12 <= t < 14
    ensures After(t + 1) == Round(t, After(t), Word(t))
  {
  }

  lemma Rounds14(t: nat)
    requires 14 <= t < 16
    ensures After(t + 1) == Round(t, After(t), Word(t))
  {
  }

  lemma Rounds16(t: nat)
    requires 16 <= t < 18
    ensures After(t + 1) == Round(t, After(t), Word(t))
  {
  }

  lemma Rounds18(t: nat)
    requires 18 <= t < 20
    ensures After(t + 1) == Round(t, After(t), Word(t))
  {
  }

  lemma Rounds20(t: nat)
    requires 20 <= t < 22
    ensures After(t + 1) == Round(t, After(t), Word(t))
  {
  }

  lemma Rounds22(t: nat)
    requires 22 <= t < 24
    ensures After(t + 1) == Round(t, After(t), Word(t))
  {
  }

  lemma Rounds24(t: nat)
    requires 24 <= t < 26
    ensures After(t + 1) == Round(t, After(t), Word(t))
  {
  }

  lemma Rounds26(t: nat)
    requires 26 <= t < 28
    ensures After(t + 1) == Round(t, After(t), Word(t))
  {
  }

  lemma Rounds28(t: nat)
    requires 28 <= t < 30
    ensures After(t + 1) == Round(t, After(t), Word(t))
  {
  }

  lemma Rounds30(t: nat)
    requires 30 <= t < 32
    ensures After(t + 1) == Round(t, After(t), Word(t))
  {
  }

  lemma Rounds32(t: nat)
    requires 32 <= t < 34
    ensures After(t + 1) == Round(t, After(t), Word(t))
  {
  }

  lemma Rounds34(t: nat)
    requires 34 <= t < 36
    ensures After(t + 1) == Round(t, After(t), Word(t))
  {
  }

  lemma Rounds36(t: nat)
    requires 36 <= t < 38
    ensures After(t + 1) == Round(t, After(t), Word(t))
  {
  }

  lemma Rounds38(t: nat)
    requires 38 <= t < 40
    ensures After(t + 1) == Round(t, After(t), Word(t))
  {
  }

  lemma Rounds40(t: nat)
    requires 40 <= t < 42
    ensures After(t + 1) == Round(t, After(t), Word(t))
  {
  }

  lemma Rounds42(t: nat)
    requires 42 <= t < 44
    ensures After(t + 1) == Round(t, After(t), Word(t))
  {
  }

  lemma Rounds44(t: nat)
    requires 44 <= t < 46
    ensures After(t + 1) == Round(t, After(t), Word(t))
  {
  }

  lemma Rounds46(t: nat)
    requires 46 <= t < 48
    ensures After(t + 1) == Round(t, After(t), Word(t))
  {
  }

  lemma Rounds48(t: nat)
    requires 48 <= t < 50
    ensures After(t + 1) == Round(t, After(t), Word(t))
  {
  }

  lemma Rounds50(t: nat)
    requires 50 <= t < 52
    ensures After(t + 1) == Round(t, After(t), Word(t))
  {
  }

  lemma Rounds52(t: nat)
    requires 52 <= t < 54
    ensures After(t + 1) == Round(t, After(t), Word(t))
  {
  }

  lemma Rounds54(t: nat)
    requires 54 <= t < 56
    ensures After(t + 1) == Round(t, After(t), Word(t))
  {
  }

  lemma Rounds56(t: nat)
    requires 56 <= t < 58
    ensures After(t + 1) == Round(t, After(t), Word(t))
  {
  }

  lemma Rounds58(t: nat)
    requires 58 <= t < 60
    ensures After(t + 1) == Round(t, After(t), Word(t))
  {
  }

  lemma Rounds60(t: nat)
    requires 60 <= t < 62
    ensures After(t + 1) == Round(t, After(t), Word(t))
  {
  }

  lemma Rounds62(t: nat)
    requires 62 <= t < 64
    ensures After(t + 1) == Round(t, After(t), Word(t))
  {
  }

  lemma Rounds64(t: nat)
    requires 64 <= t < 66
    ensures After(t + 1) == Round(t, After(t), Word(t))
  {
  }

  lemma Rounds66(t: nat)
    requires 66 <= t < 68
    ensures After(t + 1) == Round(t, After(t), Word(t))
  {
  }

  lemma Rounds68(t: nat)
    requires 68 <= t < 70
    ensures After(t + 1) == Round(t, After(t), Word(t))
  {
  }

  lemma Rounds70(t: nat)
    requires 70 <= t < 72
    ensures After(t + 1) == Round(t, After(t), Word(t))
  {
  }

  lemma Rounds72(t: nat)
    requires 72 <= t < 74
    ensures After(t + 1) == Round(t, After(t), Word(t))
  {
  }

  lemma Rounds74(t: nat)
    requires 74 <= t < 76
    ensures After(t + 1) == Round(t, After(t), Word(t))
  {
  }

  lemma Rounds76(t: nat)
    requires 76 <= t < 78
    ensures After(t + 1) == Round(t, After(t), Word(t))
  {
  }

  lemma Rounds78(t: nat)
    requires 78 <= t < 80
    ensures After(t + 1) == Round(t, After(t), Word(t))
  {
  }

  lemma NextRound(t: nat)
    requires t < 80
    ensures After(t + 1) == Round(t, After(t), Word(t))
  {
    hide *;
    if t < 2 {
      Rounds0(t);
    } else if t < 4 {
      Rounds2(t);
    } else if t < 6 {
      Rounds4(t);
    } else if t < 8 {
      Rounds6(t);
    } else if t < 10 {
      Rounds8(t);
    } else if t < 12 {
      Rounds10(t);
    } else if t < 14 {
      Rounds12(t);
    } else if t < 16 {
      Rounds14(t);
    } else if t < 18 {
      Rounds16(t);
    } else if t < 20 {
      Rounds18(t);
    } else if t < 22 {
      Rounds20(t);
    } else if t < 24 {
      Rounds22(t);
    } else if t < 26 {
      Rounds24(t);
    } else if t < 28 {
      Rounds26(t);
    } else if t < 30 {
      Rounds28(t);
    } else if t < 32 {
      Rounds30(t);
    } else if t < 34 {
      Rounds32(t);
    } else if t < 36 {
      Rounds34(t);
    } else if t < 38 {
      Rounds36(t);
    } else if t < 40 {
      Rounds38(t);
    } else if t < 42 {
      Rounds40(t);
    } else if t < 44 {
      Rounds42(t);
    } else if t < 46 {
      Rounds44(t);
    } else if t < 48 {
      Rounds46(t);
    } else if t < 50 {
      Rounds48(t);
    } else if t < 52 {
      Rounds50(t);
    } else if t < 54 {
      Rounds52(t);
    } else if t < 56 {
      Rounds54(t);
    } else if t < 58 {
      Rounds56(t);
    } else if t < 60 {
      Rounds58(t);
    } else if t < 62 {
      Rounds60(t);
    } else if t < 64 {
      Rounds62(t);
    } else if t < 66 {
      Rounds64(t);
    } else if t < 68 {
      Rounds66(t);
    } else if t < 70 {
      Rounds68(t);
    } else if t < 72 {
      Rounds70(t);
    } else if t < 74 {
      Rounds72(t);
    } else if t < 76 {
      Rounds74(t);
    } else if t < 78 {
      Rounds76(t);
    } else {
      Rounds78(t);
    }
  }

  lemma {:induction false} RoundsAre(t: nat)
    requires t <= 80
    ensures Rounds(t, INITIAL, Block()) == After(t)
  {
    hide Round, Schedule, Word, Block, After;
    if t == 0 {
      Begins();
    } else {
      RoundsAre(t - 1);
      WordIs(t - 1);
      NextRound(t - 1);
    }
  }

  lemma Begins()
    ensures After(0) == INITIAL
  {
  }

  lemma PaddedBlock()
    ensures ABC + Padding(|ABC|) == Block()
  {
    LengthIs();
    assert Padding(3) == [0x80] + Zeros(52) + LengthField(24);
    assert Zeros(59) == Zeros(52) + [0, 0, 0, 0, 0, 0, 0];
  }

  lemma LengthIs()
    ensures LengthField(24) == [0, 0, 0, 0, 0, 0, 0, 24]
  {
    hide Byte;
    ByteIs();
  }

  lemma ByteIs()
    ensures Byte(0) == 0 && Byte(24) == 24
  {
  }

  /** The digest of "abc". */
  lemma DigestOfAbc()
    ensures Digest([0x61, 0x62, 0x63])
            == [0xA9, 0x99, 0x3E, 0x36, 0x47, 0x06, 0x81, 0x6A, 0xBA, 0x3E,
                0x25, 0x71, 0x78, 0x50, 0xC2, 0x6C, 0x9C, 0xD0, 0xD8, 0x9D]
  {
    hide Rounds, Block, Padding, Blocks, After;
    PaddedBlock();
    OneBlock(INITIAL, Block());
    RoundsAre(80);
    LastSums();
    CompressIs(INITIAL, Block(), After(80));
    assert Final([0x61, 0x62, 0x63]) == Hash(0xA9993E36, 0x4706816A, 0xBA3E2571, 0x7850C26C, 0x9CD0D89D);
    DigestBytes();
  }

  lemma LastSums()
    ensures var h, s := INITIAL, After(80);
            Hash(Plus(h.h0, s.h0), Plus(h.h1, s.h1), Plus(h.h2, s.h2), Plus(h.h3, s.h3), Plus(h.h4, s.h4))
            == Hash(0xA9993E36, 0x4706816A, 0xBA3E2571, 0x7850C26C, 0x9CD0D89D)
  {
  }

  lemma Bytes0()
    ensures WordBytes(0xA9993E36) == [0xA9, 0x99, 0x3E, 0x36]
  {
  }

  lemma Bytes1()
    ensures WordBytes(0x4706816A) == [0x47, 0x06, 0x81, 0x6A]
  {
  }

  lemma Bytes2()
    ensures WordBytes(0xBA3E2571) == [0xBA, 0x3E, 0x25, 0x71]
  {
  }

  lemma Bytes3()
    ensures WordBytes(0x7850C26C) == [0x78, 0x50, 0xC2, 0x6C]
  {
  }

  lemma Bytes4()
    ensures WordBytes(0x9CD0D89D) == [0x9C, 0xD0, 0xD8, 0x9D]
  {
  }

  lemma DigestBytes()
    ensures DigestOf(Hash(0xA9993E36, 0x4706816A, 0xBA3E2571, 0x7850C26C, 0x9CD0D89D))
            == [0xA9, 0x99, 0x3E, 0x36, 0x47, 0x06, 0x81, 0x6A, 0xBA, 0x3E,
                0x25, 0x71, 0x78, 0x50, 0xC2, 0x6C, 0x9C, 0xD0, 0xD8, 0x9D]
  {
    hide WordBytes;
    Bytes0();
    Bytes1();
    Bytes2();
    Bytes3();
    Bytes4();
  }
}
