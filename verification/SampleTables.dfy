/** The tables and the tokens of a sample frame, and the bits and bytes that they make. */
module SampleTables {
  import opened Bits
  import opened BitStream
  import opened Slots
  import opened Tokens
  import opened RepTree
  import opened Computing

  /** d and e, 40 bytes from 3 back, 4 bytes from 41 back, and twice 3 bytes with the second offset of the queue. */
  function Coded52(): Coding {
    Then(Literal(100), 0, Then(Literal(101), 0, Then(Match(40, 5), 4, Then(Match(4, 43), 10,
         Then(Match(3, 1), 1, Then(Match(3, 1), 1, Nothing))))))
  }

  // ---------- The trees ----------

  /** The main tree, its first 256 lengths and the rest, and the tree of long lengths. */
  function MainA(): Runs {
    Times(97, 0, Times(8, 4, Times(151, 0, NoMore)))
  }

  function MainB(): Runs {
    Times(9, 0, Times(1, 3, Times(29, 0, Times(1, 2, Times(42, 0, Times(1, 3, Times(189, 0, NoMore)))))))
  }

  function Main(): Runs {
    Followed(MainA(), MainB())
  }

  function Lengths(): Runs {
    Times(3, 0, Times(1, 1, Times(27, 0, Times(1, 1, Times(217, 0, NoMore)))))
  }

  /** The small trees that carry them. */
  function Small1(): Runs {
    Times(1, 3, Times(12, 0, Times(1, 2, Times(4, 0, Times(1, 1, Times(1, 3, NoMore))))))
  }

  function Small2(): Runs {
    Times(1, 2, Times(13, 0, Times(1, 3, Times(1, 4, Times(1, 0, Times(1, 4, Times(1, 1, Times(1, 0, NoMore))))))))
  }

  function Small3(): Runs {
    Times(1, 2, Times(15, 0, Times(2, 3, Times(1, 1, Times(1, 0, NoMore)))))
  }

  /** No lengths so far. */
  function Nought(n: nat): Runs {
    Times(n, 0, NoMore)
  }

  lemma Small1Size()
    ensures Size(Small1()) == 20
  {
  }

  lemma Small1Firsts()
    ensures UpTo(Small1(), 3) && HowMany(Small1(), 3) == 2
    ensures FirstIn(Small1(), 1) == 0
    ensures FirstIn(Small1(), 2) == 2
    ensures FirstIn(Small1(), 3) == 6
  {
  }

  lemma Small1Full()
    ensures FullCode(Small1(), 3)
  {
    hide FirstIn, HowMany, UpTo, Pow2;
    Small1Firsts();
    Powers();
  }

  lemma Small1Counts()
    ensures Nth(Small1(), 0) == 3 && CountIn(Small1(), 0, 3) == 0
    ensures Nth(Small1(), 13) == 2 && CountIn(Small1(), 13, 2) == 0
    ensures Nth(Small1(), 18) == 1 && CountIn(Small1(), 18, 1) == 0
    ensures Nth(Small1(), 19) == 3 && CountIn(Small1(), 19, 3) == 1
  {
  }

  lemma Small1Has()
    ensures HasCode(Small1(), 0) && HasCode(Small1(), 13) && HasCode(Small1(), 18) && HasCode(Small1(), 19)
  {
    hide Nth;
    Small1Counts();
  }

  lemma Small1Codes()
    ensures Nth(Small1(), 0) == 3 && NumberIn(Small1(), 0) == 6
    ensures Nth(Small1(), 13) == 2 && NumberIn(Small1(), 13) == 2
    ensures Nth(Small1(), 18) == 1 && NumberIn(Small1(), 18) == 0
    ensures Nth(Small1(), 19) == 3 && NumberIn(Small1(), 19) == 7
  {
    hide *;
    Small1Firsts();
    Small1Counts();
    NumberGiven(Small1(), 0, 3);
    NumberGiven(Small1(), 13, 2);
    NumberGiven(Small1(), 18, 1);
    NumberGiven(Small1(), 19, 3);
  }

  lemma Small2Size()
    ensures Size(Small2()) == 20
  {
  }

  lemma Small2Firsts()
    ensures UpTo(Small2(), 4) && HowMany(Small2(), 4) == 2
    ensures FirstIn(Small2(), 1) == 0
    ensures FirstIn(Small2(), 2) == 2
    ensures FirstIn(Small2(), 3) == 6
    ensures FirstIn(Small2(), 4) == 14
  {
  }

  lemma Small2Full()
    ensures FullCode(Small2(), 4)
  {
    hide FirstIn, HowMany, UpTo, Pow2;
    Small2Firsts();
    Powers();
  }

  lemma Small2Counts()
    ensures Nth(Small2(), 0) == 2 && CountIn(Small2(), 0, 2) == 0
    ensures Nth(Small2(), 14) == 3 && CountIn(Small2(), 14, 3) == 0
    ensures Nth(Small2(), 15) == 4 && CountIn(Small2(), 15, 4) == 0
    ensures Nth(Small2(), 17) == 4 && CountIn(Small2(), 17, 4) == 1
    ensures Nth(Small2(), 18) == 1 && CountIn(Small2(), 18, 1) == 0
  {
  }

  lemma Small2Has()
    ensures HasCode(Small2(), 0) && HasCode(Small2(), 14) && HasCode(Small2(), 15) && HasCode(Small2(), 17)
            && HasCode(Small2(), 18)
  {
    hide Nth;
    Small2Counts();
  }

  lemma Small2Codes()
    ensures Nth(Small2(), 0) == 2 && NumberIn(Small2(), 0) == 2
    ensures Nth(Small2(), 14) == 3 && NumberIn(Small2(), 14) == 6
    ensures Nth(Small2(), 15) == 4 && NumberIn(Small2(), 15) == 14
    ensures Nth(Small2(), 17) == 4 && NumberIn(Small2(), 17) == 15
    ensures Nth(Small2(), 18) == 1 && NumberIn(Small2(), 18) == 0
  {
    hide *;
    Small2Firsts();
    Small2Counts();
    NumberGiven(Small2(), 0, 2);
    NumberGiven(Small2(), 14, 3);
    NumberGiven(Small2(), 15, 4);
    NumberGiven(Small2(), 17, 4);
    NumberGiven(Small2(), 18, 1);
  }

  lemma Small3Size()
    ensures Size(Small3()) == 20
  {
  }

  lemma Small3Firsts()
    ensures UpTo(Small3(), 3) && HowMany(Small3(), 3) == 2
    ensures FirstIn(Small3(), 1) == 0
    ensures FirstIn(Small3(), 2) == 2
    ensures FirstIn(Small3(), 3) == 6
  {
  }

  lemma Small3Full()
    ensures FullCode(Small3(), 3)
  {
    hide FirstIn, HowMany, UpTo, Pow2;
    Small3Firsts();
    Powers();
  }

  lemma Small3Counts()
    ensures Nth(Small3(), 0) == 2 && CountIn(Small3(), 0, 2) == 0
    ensures Nth(Small3(), 16) == 3 && CountIn(Small3(), 16, 3) == 0
    ensures Nth(Small3(), 17) == 3 && CountIn(Small3(), 17, 3) == 1
    ensures Nth(Small3(), 18) == 1 && CountIn(Small3(), 18, 1) == 0
  {
  }

  lemma Small3Has()
    ensures HasCode(Small3(), 0) && HasCode(Small3(), 16) && HasCode(Small3(), 17) && HasCode(Small3(), 18)
  {
    hide Nth;
    Small3Counts();
  }

  lemma Small3Codes()
    ensures Nth(Small3(), 0) == 2 && NumberIn(Small3(), 0) == 2
    ensures Nth(Small3(), 16) == 3 && NumberIn(Small3(), 16) == 6
    ensures Nth(Small3(), 17) == 3 && NumberIn(Small3(), 17) == 7
    ensures Nth(Small3(), 18) == 1 && NumberIn(Small3(), 18) == 0
  {
    hide *;
    Small3Firsts();
    Small3Counts();
    NumberGiven(Small3(), 0, 2);
    NumberGiven(Small3(), 16, 3);
    NumberGiven(Small3(), 17, 3);
    NumberGiven(Small3(), 18, 1);
  }

  lemma LengthsFirsts()
    ensures UpTo(Lengths(), 1) && HowMany(Lengths(), 1) == 2
    ensures FirstIn(Lengths(), 1) == 0
  {
  }

  lemma LengthsFull()
    ensures FullCode(Lengths(), 1)
  {
    hide FirstIn, HowMany, UpTo, Pow2;
    LengthsFirsts();
    Powers();
  }

  lemma LengthsCounts()
    ensures Nth(Lengths(), 3) == 1 && CountIn(Lengths(), 3, 1) == 0
    ensures Nth(Lengths(), 31) == 1 && CountIn(Lengths(), 31, 1) == 1
  {
  }

  lemma LengthsCodes()
    ensures Nth(Lengths(), 3) == 1 && NumberIn(Lengths(), 3) == 0
    ensures Nth(Lengths(), 31) == 1 && NumberIn(Lengths(), 31) == 1
  {
    hide *;
    LengthsFirsts();
    LengthsCounts();
    NumberGiven(Lengths(), 3, 1);
    NumberGiven(Lengths(), 31, 1);
  }

  lemma MainFirsts()
    ensures UpTo(Main(), 4) && HowMany(Main(), 4) == 8
    ensures FirstIn(Main(), 2) == 0
    ensures FirstIn(Main(), 3) == 2
    ensures FirstIn(Main(), 4) == 8
  {
  }

  lemma MainFull()
    ensures FullCode(Main(), 4)
  {
    hide FirstIn, HowMany, UpTo, Pow2;
    MainFirsts();
    Powers();
  }

  lemma MainCounts()
    ensures Nth(Main(), 100) == 4 && CountIn(Main(), 100, 4) == 3
    ensures Nth(Main(), 101) == 4 && CountIn(Main(), 101, 4) == 4
    ensures Nth(Main(), 265) == 3 && CountIn(Main(), 265, 3) == 0
    ensures Nth(Main(), 295) == 2 && CountIn(Main(), 295, 2) == 0
    ensures Nth(Main(), 338) == 3 && CountIn(Main(), 338, 3) == 1
  {
  }

  lemma MainCodes()
    ensures Nth(Main(), 100) == 4 && NumberIn(Main(), 100) == 11
    ensures Nth(Main(), 101) == 4 && NumberIn(Main(), 101) == 12
    ensures Nth(Main(), 265) == 3 && NumberIn(Main(), 265) == 2
    ensures Nth(Main(), 295) == 2 && NumberIn(Main(), 295) == 0
    ensures Nth(Main(), 338) == 3 && NumberIn(Main(), 338) == 3
  {
    hide *;
    MainFirsts();
    MainCounts();
    NumberGiven(Main(), 100, 4);
    NumberGiven(Main(), 101, 4);
    NumberGiven(Main(), 265, 3);
    NumberGiven(Main(), 295, 2);
    NumberGiven(Main(), 338, 3);
  }

  lemma MainANeat()
    ensures Neat(MainA()) && Size(MainA()) == Size(Nought(256)) == 256 && UpTo(MainA(), 16) && UpTo(Nought(256), 16)
  {
  }

  lemma MainBNeat()
    ensures Neat(MainB()) && Size(MainB()) == Size(Nought(272)) == 272 && UpTo(MainB(), 16) && UpTo(Nought(272), 16)
  {
  }

  lemma LengthsNeat()
    ensures Neat(Lengths()) && Size(Lengths()) == Size(Nought(249)) == 249 && UpTo(Lengths(), 16)
            && UpTo(Nought(249), 16)
  {
  }

  // ---------- The bytes ----------

  /** The translation header, the header of the first block, and the queue. */
  function Opened(): seq<byte> {
    [0x5b, 0x80, 0x80, 0x8d, 0x00, 0x30, 0x30, 0x00] + [1, 0, 0, 0, 1, 0, 0, 0, 1, 0, 0, 0]
  }

  /** The first part of the main tree. */
  function PartA(): seq<byte> {
    [0x86, 0x06, 0x00, 0x00, 0x00, 0x00, 0x00, 0x00, 0x00, 0x40, 0x6f, 0x02, 0xbe, 0xb3, 0xf7, 0xa9]
  }

  lemma PartAIs(out: seq<byte>)
    ensures out + [0x86, 0x06, 0x00, 0x00, 0x00, 0x00] + [0x00, 0x00, 0x00, 0x40] + [0x6f, 0x02, 0xbe, 0xb3] +
                [0xf7, 0xa9] + [] == out + PartA()
  {
    assert [0x86, 0x06, 0x00, 0x00, 0x00, 0x00] + [0x00, 0x00, 0x00, 0x40] + [0x6f, 0x02, 0xbe, 0xb3] + [0xf7, 0xa9]
           + [] == PartA();
  }

  /** The rest of it. */
  function PartB(): seq<byte> {
    [0xc4, 0xdc, 0x00, 0x00, 0x00, 0x00, 0x00, 0x00, 0x80, 0x06, 0x1e, 0x82, 0x22, 0x96, 0x6c, 0xe5, 0xef, 0xfb]
  }

  lemma PartBIs(out: seq<byte>)
    ensures out + [0xc4, 0xdc, 0x00, 0x00, 0x00, 0x00] + [0x00, 0x00, 0x80, 0x06] + [0x1e, 0x82, 0x22, 0x96] +
                [0x6c, 0xe5] + [0xef, 0xfb] == out + PartB()
  {
    assert [0xc4, 0xdc, 0x00, 0x00, 0x00, 0x00] + [0x00, 0x00, 0x80, 0x06] + [0x1e, 0x82, 0x22, 0x96] + [0x6c, 0xe5]
           + [0xef, 0xfb] == PartB();
  }

  /** The tree of long lengths. */
  function PartC(): seq<byte> {
    [0x10, 0x9f, 0x00, 0x00, 0x00, 0x00, 0x00, 0x00, 0x19, 0x00, 0x55, 0x88, 0xb3, 0x86, 0xbe, 0xef]
  }

  lemma PartCIs(out: seq<byte>)
    ensures out + [0x10, 0x9f, 0x00, 0x00, 0x00, 0x00] + [0x00, 0x00, 0x19, 0x00] + [0x55, 0x88] + [0xb3, 0x86] +
                [0xbe, 0xef] == out + PartC()
  {
    assert [0x10, 0x9f, 0x00, 0x00, 0x00, 0x00] + [0x00, 0x00, 0x19, 0x00] + [0x55, 0x88] + [0xb3, 0x86] +
           [0xbe, 0xef] == PartC();
  }

  /** The tokens. */
  function PartT(): seq<byte> {
    [0x8a, 0xff, 0xdd, 0xf0]
  }

  lemma PartTIs(out: seq<byte>)
    ensures out + [0x8a, 0xff] + [0xdd, 0xf0] + [] == out + PartT()
  {
    assert [0x8a, 0xff] + [0xdd, 0xf0] + [] == PartT();
  }

  // ---------- The steps in which the tables are sent ----------

  function StepsAFrom207(): Steps {
    Step(Zeros18(48), Step(Delta(0), Done))
  }

  lemma StepsAFrom207Sends()
    ensures Sends(Small1(), MainA(), Nought(256), 207, StepsAFrom207())
  {
    hide HasCode, Small1;
    Small1Has();
  }

  function StepsAFrom104(): Steps {
    Step(Delta(13), Step(Zeros18(51), Step(Zeros18(51), StepsAFrom207())))
  }

  lemma StepsAFrom104Sends()
    ensures Sends(Small1(), MainA(), Nought(256), 104, StepsAFrom104())
  {
    hide HasCode, Small1, StepsAFrom207;
    Small1Has();
    StepsAFrom207Sends();
  }

  function StepsAFrom97(): Steps {
    Step(Same19(5, 13), Step(Delta(13), Step(Delta(13), StepsAFrom104())))
  }

  lemma StepsAFrom97Sends()
    ensures Sends(Small1(), MainA(), Nought(256), 97, StepsAFrom97())
  {
    hide HasCode, Small1, StepsAFrom104;
    Small1Has();
    StepsAFrom104Sends();
  }

  function StepsA(): Steps {
    Step(Zeros18(51), Step(Zeros18(45), Step(Delta(0), StepsAFrom97())))
  }

  lemma StepsASends()
    ensures Sends(Small1(), MainA(), Nought(256), 0, StepsA())
  {
    hide HasCode, Small1, StepsAFrom97;
    Small1Has();
    StepsAFrom97Sends();
  }

  function StepsBFrom236(): Steps {
    Step(Zeros18(35), Step(Delta(0), Done))
  }

  lemma StepsBFrom236Sends()
    ensures Sends(Small2(), MainB(), Nought(272), 236, StepsBFrom236())
  {
    hide HasCode, Small2;
    Small2Has();
  }

  function StepsBFrom83(): Steps {
    Step(Zeros18(51), Step(Zeros18(51), Step(Zeros18(51), StepsBFrom236())))
  }

  lemma StepsBFrom83Sends()
    ensures Sends(Small2(), MainB(), Nought(272), 83, StepsBFrom83())
  {
    hide HasCode, Small2, StepsBFrom236;
    Small2Has();
    StepsBFrom236Sends();
  }

  function StepsBFrom40(): Steps {
    Step(Zeros18(41), Step(Delta(0), Step(Delta(14), StepsBFrom83())))
  }

  lemma StepsBFrom40Sends()
    ensures Sends(Small2(), MainB(), Nought(272), 40, StepsBFrom40())
  {
    hide HasCode, Small2, StepsBFrom83;
    Small2Has();
    StepsBFrom83Sends();
  }

  function StepsBFrom10(): Steps {
    Step(Zeros18(28), Step(Delta(0), Step(Delta(15), StepsBFrom40())))
  }

  lemma StepsBFrom10Sends()
    ensures Sends(Small2(), MainB(), Nought(272), 10, StepsBFrom10())
  {
    hide HasCode, Small2, StepsBFrom40;
    Small2Has();
    StepsBFrom40Sends();
  }

  function StepsB(): Steps {
    Step(Zeros17(8), Step(Delta(0), Step(Delta(14), StepsBFrom10())))
  }

  lemma StepsBSends()
    ensures Sends(Small2(), MainB(), Nought(272), 0, StepsB())
  {
    hide HasCode, Small2, StepsBFrom10;
    Small2Has();
    StepsBFrom10Sends();
  }

  function StepsCFrom248(): Steps {
    Step(Delta(0), Done)
  }

  lemma StepsCFrom248Sends()
    ensures Sends(Small3(), Lengths(), Nought(249), 248, StepsCFrom248())
  {
    hide HasCode, Small3;
    Small3Has();
  }

  function StepsCFrom134(): Steps {
    Step(Zeros18(51), Step(Zeros18(51), Step(Zeros17(12), StepsCFrom248())))
  }

  lemma StepsCFrom134Sends()
    ensures Sends(Small3(), Lengths(), Nought(249), 134, StepsCFrom134())
  {
    hide HasCode, Small3, StepsCFrom248;
    Small3Has();
    StepsCFrom248Sends();
  }

  function StepsCFrom31(): Steps {
    Step(Delta(16), Step(Zeros18(51), Step(Zeros18(51), StepsCFrom134())))
  }

  lemma StepsCFrom31Sends()
    ensures Sends(Small3(), Lengths(), Nought(249), 31, StepsCFrom31())
  {
    hide HasCode, Small3, StepsCFrom134;
    Small3Has();
    StepsCFrom134Sends();
  }

  function StepsCFrom3(): Steps {
    Step(Delta(16), Step(Zeros18(26), Step(Delta(0), StepsCFrom31())))
  }

  lemma StepsCFrom3Sends()
    ensures Sends(Small3(), Lengths(), Nought(249), 3, StepsCFrom3())
  {
    hide HasCode, Small3, StepsCFrom31;
    Small3Has();
    StepsCFrom31Sends();
  }

  function StepsC(): Steps {
    Step(Delta(0), Step(Delta(0), Step(Delta(0), StepsCFrom3())))
  }

  lemma StepsCSends()
    ensures Sends(Small3(), Lengths(), Nought(249), 0, StepsC())
  {
    hide HasCode, Small3, StepsCFrom3;
    Small3Has();
    StepsCFrom3Sends();
  }

  // ---------- The words that the bits make ----------

  lemma ThreePut(w: Wire, a: seq<bool>, b: seq<bool>, c: seq<bool>)
    ensures Put(w, a + (b + c)) == Put(Put(Put(w, a), b), c)
  {
    hide Put;
    PutConcat(w, a, b + c);
    PutConcat(Put(w, a), b, c);
  }

  lemma FivePut(w: Wire, a: seq<bool>, b: seq<bool>, c: seq<bool>, d: seq<bool>, e: seq<bool>)
    ensures Put(w, a + (b + (c + (d + e)))) == Put(Put(Put(Put(Put(w, a), b), c), d), e)
  {
    hide Put;
    ThreePut(w, a, b, c + (d + e));
    ThreePut(Put(Put(w, a), b), c, d, e);
  }

  function GroupOf(): FieldList {
    Field(1, 1, Field(16, 183, Field(16, 6912, None)))
  }

  lemma GroupOfPut(out: seq<byte>)
    ensures Put(Wire(out, BitsOf(0, 0)), BitsIn(GroupOf())) == Wire(out + [0x5b, 0x80, 0x80, 0x8d], BitsOf(1, 0))
  {
    hide BitsOf, Put, BitsIn, Pow2;
    Powers();
    Segment(out, GroupOf(), 0, 0, Word16(0x805b, Word16(0x8d80, Left(1, 0))));
  }

  function HeadOf3(): FieldList {
    Field(3, 3, Field(8, 0, Field(8, 0, Field(8, 3, None))))
  }

  lemma HeadOf3Put(out: seq<byte>)
    ensures Put(Wire(out, BitsOf(1, 0)), BitsIn(HeadOf3())) == Wire(out + [0x00, 0x30], BitsOf(12, 3))
  {
    hide BitsOf, Put, BitsIn, Pow2;
    Powers();
    Segment(out, HeadOf3(), 1, 0, Word16(0x3000, Left(12, 3)));
  }

  function Pad(): FieldList {
    Field(4, 0, None)
  }

  lemma PadPut(out: seq<byte>)
    ensures Put(Wire(out, BitsOf(12, 3)), BitsIn(Pad())) == Wire(out + [0x30, 0x00], BitsOf(0, 0))
  {
    hide BitsOf, Put, BitsIn, Pow2;
    Powers();
    Segment(out, Pad(), 12, 3, Word16(0x0030, Left(0, 0)));
  }

  function HeadOf52(): FieldList {
    Field(3, 1, Field(8, 0, Field(8, 0, Field(8, 52, None))))
  }

  lemma HeadOf52Put(out: seq<byte>)
    ensures Put(Wire(out, BitsOf(0, 0)), BitsIn(HeadOf52())) == Wire(out + [0x00, 0x20], BitsOf(11, 52))
  {
    hide BitsOf, Put, BitsIn, Pow2;
    Powers();
    Segment(out, HeadOf52(), 0, 0, Word16(0x2000, Left(11, 52)));
  }

  function SmallA1(): FieldList {
    Field(16, 12288, Field(16, 0, Field(16, 0, None)))
  }

  lemma SmallA1Put(out: seq<byte>)
    ensures Put(Wire(out, BitsOf(11, 52)), BitsIn(SmallA1()))
            == Wire(out + [0x86, 0x06, 0x00, 0x00, 0x00, 0x00], BitsOf(11, 0))
  {
    hide BitsOf, Put, BitsIn, Pow2;
    Powers();
    Segment(out, SmallA1(), 11, 52, Word16(0x0686, Word16(0x0000, Word16(0x0000, Left(11, 0)))));
  }

  function SmallA2(): FieldList {
    Field(16, 512, Field(16, 19, None))
  }

  lemma SmallA2Put(out: seq<byte>)
    ensures Put(Wire(out, BitsOf(11, 0)), BitsIn(SmallA2())) == Wire(out + [0x00, 0x00, 0x00, 0x40], BitsOf(11, 19))
  {
    hide BitsOf, Put, BitsIn, Pow2;
    Powers();
    Segment(out, SmallA2(), 11, 0, Word16(0x0000, Word16(0x4000, Left(11, 19))));
  }

  function CodesA1(): FieldList {
    Field(6, 31, Field(6, 25, Field(3, 6, Field(4, 15, Field(2, 2, None)))))
  }

  lemma CodesA1Put(out: seq<byte>)
    ensures Put(Wire(out, BitsOf(11, 19)), BitsIn(CodesA1())) == Wire(out + [0x6f, 0x02, 0xbe, 0xb3], BitsOf(0, 0))
  {
    hide BitsOf, Put, BitsIn, Pow2;
    Powers();
    Segment(out, CodesA1(), 11, 19, Word16(0x026f, Word16(0xb3be, Left(0, 0))));
  }

  function CodesA2(): FieldList {
    Field(2, 2, Field(2, 2, Field(2, 2, Field(6, 31, Field(6, 31, None)))))
  }

  lemma CodesA2Put(out: seq<byte>)
    ensures Put(Wire(out, BitsOf(0, 0)), BitsIn(CodesA2())) == Wire(out + [0xf7, 0xa9], BitsOf(2, 3))
  {
    hide BitsOf, Put, BitsIn, Pow2;
    Powers();
    Segment(out, CodesA2(), 0, 0, Word16(0xa9f7, Left(2, 3)));
  }

  function CodesA3(): FieldList {
    Field(6, 28, Field(3, 6, None))
  }

  lemma CodesA3Put(out: seq<byte>)
    ensures Put(Wire(out, BitsOf(2, 3)), BitsIn(CodesA3())) == Wire(out + [], BitsOf(11, 1766))
  {
    hide BitsOf, Put, BitsIn, Pow2;
    Powers();
    Segment(out, CodesA3(), 2, 3, Left(11, 1766));
  }

  /** The bits of the table. */
  function BitsA(): seq<bool> {
    BitsIn(SmallA1()) + (BitsIn(SmallA2()) + (BitsIn(CodesA1()) + (BitsIn(CodesA2()) + BitsIn(CodesA3()))))
  }

  lemma StepsAFields()
    ensures StepFields(Small1(), StepsA(), None) == Both(CodesA1(), Both(CodesA2(), CodesA3()))
  {
    hide Nth, NumberIn, Small1;
    Small1Codes();
  }

  lemma SmallAFields()
    ensures SmallFields(Small1()) == Both(SmallA1(), SmallA2())
  {
  }

  lemma BitsAAre()
    ensures Carries(Table(Small1()), Table(MainA()), Table(Nought(256)))
    ensures TreeBits(Table(Small1()), Table(MainA()), Table(Nought(256))) == BitsA()
  {
    hide *;
    Small1Size();
    Small1Full();
    MainANeat();
    StepsASends();
    TableBits(Small1(), 3, MainA(), Nought(256), StepsA());
    SmallAFields();
    StepsAFields();
    BothAre(SmallA1(), SmallA2());
    BothAre(CodesA2(), CodesA3());
    BothAre(CodesA1(), Both(CodesA2(), CodesA3()));
    var a, b, c := BitsIn(SmallA1()), BitsIn(SmallA2()), BitsIn(CodesA1());
    var d, e := BitsIn(CodesA2()), BitsIn(CodesA3());
    assert a + b + (c + (d + e)) == a + (b + (c + (d + e)));
    assert BitsA() == a + (b + (c + (d + e))) by { BitsAIs(); }
  }

  lemma BitsAIs()
    ensures BitsA() == BitsIn(SmallA1()) + (BitsIn(SmallA2()) + (BitsIn(CodesA1())
                          + (BitsIn(CodesA2()) + BitsIn(CodesA3()))))
  {
    hide BitsIn;
  }

  lemma PutA(out: seq<byte>)
    ensures Put(Wire(out, BitsOf(11, 52)), BitsA())
            == Wire(out + PartA(), BitsOf(11, 1766))
  {
    hide *;
    PartAIs(out);
    BitsAIs();
    FivePut(Wire(out, BitsOf(11, 52)), BitsIn(SmallA1()), BitsIn(SmallA2()), BitsIn(CodesA1()),
            BitsIn(CodesA2()), BitsIn(CodesA3()));
    SmallA1Put(out);
    SmallA2Put(out + [0x86, 0x06, 0x00, 0x00, 0x00, 0x00]);
    CodesA1Put(out + [0x86, 0x06, 0x00, 0x00, 0x00, 0x00] + [0x00, 0x00, 0x00, 0x40]);
    CodesA2Put(out + [0x86, 0x06, 0x00, 0x00, 0x00, 0x00] + [0x00, 0x00, 0x00, 0x40] + [0x6f, 0x02, 0xbe, 0xb3]);
    CodesA3Put(out + [0x86, 0x06, 0x00, 0x00, 0x00, 0x00] + [0x00, 0x00, 0x00, 0x40] + [0x6f, 0x02, 0xbe, 0xb3] +
                    [0xf7, 0xa9]);
  }

  function SmallB1(): FieldList {
    Field(16, 8192, Field(16, 0, Field(16, 0, None)))
  }

  lemma SmallB1Put(out: seq<byte>)
    ensures Put(Wire(out, BitsOf(11, 1766)), BitsIn(SmallB1()))
            == Wire(out + [0xc4, 0xdc, 0x00, 0x00, 0x00, 0x00], BitsOf(11, 0))
  {
    hide BitsOf, Put, BitsIn, Pow2;
    Powers();
    Segment(out, SmallB1(), 11, 1766, Word16(0xdcc4, Word16(0x0000, Word16(0x0000, Left(11, 0)))));
  }

  function SmallB2(): FieldList {
    Field(16, 52, Field(16, 1040, None))
  }

  lemma SmallB2Put(out: seq<byte>)
    ensures Put(Wire(out, BitsOf(11, 0)), BitsIn(SmallB2())) == Wire(out + [0x00, 0x00, 0x80, 0x06], BitsOf(11, 1040))
  {
    hide BitsOf, Put, BitsIn, Pow2;
    Powers();
    Segment(out, SmallB2(), 11, 0, Word16(0x0000, Word16(0x0680, Left(11, 1040))));
  }

  function CodesB1(): FieldList {
    Field(8, 244, Field(2, 2, Field(3, 6, Field(6, 8, Field(2, 2, None)))))
  }

  lemma CodesB1Put(out: seq<byte>)
    ensures Put(Wire(out, BitsOf(11, 1040)), BitsIn(CodesB1())) == Wire(out + [0x1e, 0x82, 0x22, 0x96], BitsOf(0, 0))
  {
    hide BitsOf, Put, BitsIn, Pow2;
    Powers();
    Segment(out, CodesB1(), 11, 1040, Word16(0x821e, Word16(0x9622, Left(0, 0))));
  }

  function CodesB2(): FieldList {
    Field(4, 14, Field(6, 21, Field(2, 2, Field(3, 6, Field(6, 31, None)))))
  }

  lemma CodesB2Put(out: seq<byte>)
    ensures Put(Wire(out, BitsOf(0, 0)), BitsIn(CodesB2())) == Wire(out + [0x6c, 0xe5], BitsOf(5, 31))
  {
    hide BitsOf, Put, BitsIn, Pow2;
    Powers();
    Segment(out, CodesB2(), 0, 0, Word16(0xe56c, Left(5, 31)));
  }

  function CodesB3(): FieldList {
    Field(6, 31, Field(6, 31, Field(6, 15, Field(2, 2, None))))
  }

  lemma CodesB3Put(out: seq<byte>)
    ensures Put(Wire(out, BitsOf(5, 31)), BitsIn(CodesB3())) == Wire(out + [0xef, 0xfb], BitsOf(9, 318))
  {
    hide BitsOf, Put, BitsIn, Pow2;
    Powers();
    Segment(out, CodesB3(), 5, 31, Word16(0xfbef, Left(9, 318)));
  }

  /** The bits of the table. */
  function BitsB(): seq<bool> {
    BitsIn(SmallB1()) + (BitsIn(SmallB2()) + (BitsIn(CodesB1()) + (BitsIn(CodesB2()) + BitsIn(CodesB3()))))
  }

  lemma StepsBFields()
    ensures StepFields(Small2(), StepsB(), None) == Both(CodesB1(), Both(CodesB2(), CodesB3()))
  {
    hide Nth, NumberIn, Small2;
    Small2Codes();
  }

  lemma SmallBFields()
    ensures SmallFields(Small2()) == Both(SmallB1(), SmallB2())
  {
  }

  lemma BitsBAre()
    ensures Carries(Table(Small2()), Table(MainB()), Table(Nought(272)))
    ensures TreeBits(Table(Small2()), Table(MainB()), Table(Nought(272))) == BitsB()
  {
    hide *;
    Small2Size();
    Small2Full();
    MainBNeat();
    StepsBSends();
    TableBits(Small2(), 4, MainB(), Nought(272), StepsB());
    SmallBFields();
    StepsBFields();
    BothAre(SmallB1(), SmallB2());
    BothAre(CodesB2(), CodesB3());
    BothAre(CodesB1(), Both(CodesB2(), CodesB3()));
    var a, b, c := BitsIn(SmallB1()), BitsIn(SmallB2()), BitsIn(CodesB1());
    var d, e := BitsIn(CodesB2()), BitsIn(CodesB3());
    assert a + b + (c + (d + e)) == a + (b + (c + (d + e)));
    assert BitsB() == a + (b + (c + (d + e))) by { BitsBIs(); }
  }

  lemma BitsBIs()
    ensures BitsB() == BitsIn(SmallB1()) + (BitsIn(SmallB2()) + (BitsIn(CodesB1())
                          + (BitsIn(CodesB2()) + BitsIn(CodesB3()))))
  {
    hide BitsIn;
  }

  lemma PutB(out: seq<byte>)
    ensures Put(Wire(out, BitsOf(11, 1766)), BitsB())
            == Wire(out + PartB(), BitsOf(9, 318))
  {
    hide *;
    PartBIs(out);
    BitsBIs();
    FivePut(Wire(out, BitsOf(11, 1766)), BitsIn(SmallB1()), BitsIn(SmallB2()), BitsIn(CodesB1()),
            BitsIn(CodesB2()), BitsIn(CodesB3()));
    SmallB1Put(out);
    SmallB2Put(out + [0xc4, 0xdc, 0x00, 0x00, 0x00, 0x00]);
    CodesB1Put(out + [0xc4, 0xdc, 0x00, 0x00, 0x00, 0x00] + [0x00, 0x00, 0x80, 0x06]);
    CodesB2Put(out + [0xc4, 0xdc, 0x00, 0x00, 0x00, 0x00] + [0x00, 0x00, 0x80, 0x06] + [0x1e, 0x82, 0x22, 0x96]);
    CodesB3Put(out + [0xc4, 0xdc, 0x00, 0x00, 0x00, 0x00] + [0x00, 0x00, 0x80, 0x06] + [0x1e, 0x82, 0x22, 0x96] +
                    [0x6c, 0xe5]);
  }

  function SmallC1(): FieldList {
    Field(16, 8192, Field(16, 0, Field(16, 0, None)))
  }

  lemma SmallC1Put(out: seq<byte>)
    ensures Put(Wire(out, BitsOf(9, 318)), BitsIn(SmallC1()))
            == Wire(out + [0x10, 0x9f, 0x00, 0x00, 0x00, 0x00], BitsOf(9, 0))
  {
    hide BitsOf, Put, BitsIn, Pow2;
    Powers();
    Segment(out, SmallC1(), 9, 318, Word16(0x9f10, Word16(0x0000, Word16(0x0000, Left(9, 0)))));
  }

  function SmallC2(): FieldList {
    Field(16, 0, Field(16, 13072, None))
  }

  lemma SmallC2Put(out: seq<byte>)
    ensures Put(Wire(out, BitsOf(9, 0)), BitsIn(SmallC2())) == Wire(out + [0x00, 0x00, 0x19, 0x00], BitsOf(9, 272))
  {
    hide BitsOf, Put, BitsIn, Pow2;
    Powers();
    Segment(out, SmallC2(), 9, 0, Word16(0x0000, Word16(0x0019, Left(9, 272))));
  }

  function CodesC1(): FieldList {
    Field(2, 2, Field(2, 2, Field(2, 2, Field(3, 6, Field(6, 6, None)))))
  }

  lemma CodesC1Put(out: seq<byte>)
    ensures Put(Wire(out, BitsOf(9, 272)), BitsIn(CodesC1())) == Wire(out + [0x55, 0x88], BitsOf(8, 134))
  {
    hide BitsOf, Put, BitsIn, Pow2;
    Powers();
    Segment(out, CodesC1(), 9, 272, Word16(0x8855, Left(8, 134)));
  }

  function CodesC2(): FieldList {
    Field(2, 2, Field(3, 6, Field(6, 31, Field(6, 31, Field(6, 31, None)))))
  }

  lemma CodesC2Put(out: seq<byte>)
    ensures Put(Wire(out, BitsOf(8, 134)), BitsIn(CodesC2())) == Wire(out + [0xb3, 0x86], BitsOf(15, 30687))
  {
    hide BitsOf, Put, BitsIn, Pow2;
    Powers();
    Segment(out, CodesC2(), 8, 134, Word16(0x86b3, Left(15, 30687)));
  }

  function CodesC3(): FieldList {
    Field(6, 31, Field(7, 120, Field(2, 2, None)))
  }

  lemma CodesC3Put(out: seq<byte>)
    ensures Put(Wire(out, BitsOf(15, 30687)), BitsIn(CodesC3())) == Wire(out + [0xbe, 0xef], BitsOf(14, 16354))
  {
    hide BitsOf, Put, BitsIn, Pow2;
    Powers();
    Segment(out, CodesC3(), 15, 30687, Word16(0xefbe, Left(14, 16354)));
  }

  /** The bits of the table. */
  function BitsC(): seq<bool> {
    BitsIn(SmallC1()) + (BitsIn(SmallC2()) + (BitsIn(CodesC1()) + (BitsIn(CodesC2()) + BitsIn(CodesC3()))))
  }

  lemma StepsCFields()
    ensures StepFields(Small3(), StepsC(), None) == Both(CodesC1(), Both(CodesC2(), CodesC3()))
  {
    hide Nth, NumberIn, Small3;
    Small3Codes();
  }

  lemma SmallCFields()
    ensures SmallFields(Small3()) == Both(SmallC1(), SmallC2())
  {
  }

  lemma BitsCAre()
    ensures Carries(Table(Small3()), Table(Lengths()), Table(Nought(249)))
    ensures TreeBits(Table(Small3()), Table(Lengths()), Table(Nought(249))) == BitsC()
  {
    hide *;
    Small3Size();
    Small3Full();
    LengthsNeat();
    StepsCSends();
    TableBits(Small3(), 3, Lengths(), Nought(249), StepsC());
    SmallCFields();
    StepsCFields();
    BothAre(SmallC1(), SmallC2());
    BothAre(CodesC2(), CodesC3());
    BothAre(CodesC1(), Both(CodesC2(), CodesC3()));
    var a, b, c := BitsIn(SmallC1()), BitsIn(SmallC2()), BitsIn(CodesC1());
    var d, e := BitsIn(CodesC2()), BitsIn(CodesC3());
    assert a + b + (c + (d + e)) == a + (b + (c + (d + e)));
    assert BitsC() == a + (b + (c + (d + e))) by { BitsCIs(); }
  }

  lemma BitsCIs()
    ensures BitsC() == BitsIn(SmallC1()) + (BitsIn(SmallC2()) + (BitsIn(CodesC1())
                          + (BitsIn(CodesC2()) + BitsIn(CodesC3()))))
  {
    hide BitsIn;
  }

  lemma PutC(out: seq<byte>)
    ensures Put(Wire(out, BitsOf(9, 318)), BitsC())
            == Wire(out + PartC(), BitsOf(14, 16354))
  {
    hide *;
    PartCIs(out);
    BitsCIs();
    FivePut(Wire(out, BitsOf(9, 318)), BitsIn(SmallC1()), BitsIn(SmallC2()), BitsIn(CodesC1()),
            BitsIn(CodesC2()), BitsIn(CodesC3()));
    SmallC1Put(out);
    SmallC2Put(out + [0x10, 0x9f, 0x00, 0x00, 0x00, 0x00]);
    CodesC1Put(out + [0x10, 0x9f, 0x00, 0x00, 0x00, 0x00] + [0x00, 0x00, 0x19, 0x00]);
    CodesC2Put(out + [0x10, 0x9f, 0x00, 0x00, 0x00, 0x00] + [0x00, 0x00, 0x19, 0x00] + [0x55, 0x88]);
    CodesC3Put(out + [0x10, 0x9f, 0x00, 0x00, 0x00, 0x00] + [0x00, 0x00, 0x19, 0x00] + [0x55, 0x88] + [0xb3, 0x86]);
  }

  function Token1(): FieldList {
    Field(4, 11, Field(4, 12, Field(2, 0, Field(1, 1, None))))
  }

  lemma Token1Put(out: seq<byte>)
    ensures Put(Wire(out, BitsOf(14, 16354)), BitsIn(Token1())) == Wire(out + [0x8a, 0xff], BitsOf(9, 481))
  {
    hide BitsOf, Put, BitsIn, Pow2;
    Powers();
    Segment(out, Token1(), 14, 16354, Word16(0xff8a, Left(9, 481)));
  }

  function Token2(): FieldList {
    Field(1, 1, Field(3, 3, Field(4, 11, Field(3, 2, None))))
  }

  lemma Token2Put(out: seq<byte>)
    ensures Put(Wire(out, BitsOf(9, 481)), BitsIn(Token2())) == Wire(out + [0xdd, 0xf0], BitsOf(4, 10))
  {
    hide BitsOf, Put, BitsIn, Pow2;
    Powers();
    Segment(out, Token2(), 9, 481, Word16(0xf0dd, Left(4, 10)));
  }

  function Token3(): FieldList {
    Field(0, 0, Field(3, 2, Field(0, 0, None)))
  }

  lemma Token3Put(out: seq<byte>)
    ensures Put(Wire(out, BitsOf(4, 10)), BitsIn(Token3())) == Wire(out + [], BitsOf(7, 82))
  {
    hide BitsOf, Put, BitsIn, Pow2;
    Powers();
    Segment(out, Token3(), 4, 10, Left(7, 82));
  }

  lemma TokenFields52()
    ensures CodingFields(Main(), Lengths(), Nought(8), false, Coded52()) == Both(Token1(), Both(Token2(), Token3()))
  {
    hide Nth, NumberIn, Main, Lengths;
    MainCodes();
    LengthsCodes();
  }

  lemma PutTokens(out: seq<byte>)
    ensures Put(Wire(out, BitsOf(14, 16354)), BitsIn(CodingFields(Main(), Lengths(), Nought(8), false, Coded52())))
            == Wire(out + PartT(), BitsOf(7, 82))
  {
    hide *;
    PartTIs(out);
    TokenFields52();
    BothAre(Token2(), Token3());
    BothAre(Token1(), Both(Token2(), Token3()));
    ThreePut(Wire(out, BitsOf(14, 16354)), BitsIn(Token1()), BitsIn(Token2()), BitsIn(Token3()));
    Token1Put(out);
    Token2Put(out + [0x8a, 0xff]);
    Token3Put(out + [0x8a, 0xff] + [0xdd, 0xf0]);
  }

  function Last(): FieldList {
    Field(9, 0, None)
  }

  lemma LastPut(out: seq<byte>)
    ensures Put(Wire(out, BitsOf(7, 82)), BitsIn(Last())) == Wire(out + [0x00, 0xa4], BitsOf(0, 0))
  {
    hide BitsOf, Put, BitsIn, Pow2;
    Powers();
    Segment(out, Last(), 7, 82, Word16(0xa400, Left(0, 0)));
  }
}
