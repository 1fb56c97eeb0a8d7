/** Call translation: the operand of every 0xE8 byte is turned from a relative into an absolute address
    before compression, and back after decompression. */
module E8 {
  import opened Bits

  const CALL: byte := 0xE8

  /** Instruction positions stay below this while frames are translated. */
  const MAX_POS: nat := 0x4000_0000

  /** 32-bit sums wrap. */
  function Wrap(x: nat): (r: nat)
    ensures r < WORD32
  {
    x % WORD32
  }

  /** The encoder's operand at position ip: u is the 32-bit relative offset, all sums wrap. */
  function Encode(u: nat, ip: nat, size: nat): (v: nat)
    requires u < WORD32 && size < WORD32
    ensures v < WORD32
  {
    var absolute := Wrap(ip + u);
    if absolute < WORD32 / 2 && absolute < Wrap(size + ip) then
      if absolute >= size then Wrap(u + WORD32 - size) else absolute
    else u
  }

  /** The decoder's operand. */
  function Decode(v: nat, ip: nat, size: nat): (u: nat)
    requires v < WORD32 && ip < WORD32
    ensures u < WORD32
  {
    if v < size then Wrap(v + WORD32 - ip)
    else if Wrap(WORD32 - v) <= ip then Wrap(v + size)
    else v
  }

  /** Every operand is restored, whether it was in range, wrapped or left alone. */
  lemma OperandRestored(u: nat, ip: nat, size: nat)
    requires u < WORD32 && ip <= MAX_POS && 0 < size <= MAX_POS
    ensures Decode(Encode(u, ip, size), ip, size) == u
  {
    hide Wrap;
    WrapOnce(ip + u);
    WrapOnce(size + ip);
    WrapOnce(u + WORD32 - size);
    var v := Encode(u, ip, size);
    WrapOnce(v + WORD32 - ip);
    WrapOnce(WORD32 - v);
    WrapOnce(v + size);
  }

  lemma WrapOnce(x: nat)
    requires x < 2 * WORD32
    ensures Wrap(x) == if x < WORD32 then x else x - WORD32
  {
  }

  function Operand(encode: bool, u: nat, ip: nat, size: nat): (v: nat)
    requires u < WORD32 && ip < WORD32 && size < WORD32
    ensures v < WORD32
  {
    if encode then Encode(u, ip, size) else Decode(u, ip, size)
  }

  /** The bytes of a chunk before its last six, from a place with instruction position ip on. */
  function Body(encode: bool, x: seq<byte>, ip: nat, size: nat): (r: seq<byte>)
    requires ip + |x| < WORD32 && size < WORD32
    ensures |r| == |x|
    decreases |x|
  {
    if |x| <= 4 then x
    else if x[0] != CALL then [x[0]] + Body(encode, x[1..], ip + 1, size)
    else
      var operand := Bytes32(Operand(encode, Word32(x[1], x[2], x[3], x[4]), ip, size));
      [x[0]] + operand + Body(encode, x[5..], ip + 5, size)
  }

  /** A translated chunk: chunks of up to six bytes, and the last six bytes of any, stay as they are. */
  function Translated(encode: bool, s: seq<byte>, ip: nat, size: nat): (r: seq<byte>)
    requires ip + |s| < WORD32 && size < WORD32
    ensures |r| == |s|
  {
    if |s| <= 6 then s else Body(encode, s[..|s| - 6], ip, size) + s[|s| - 6..]
  }

  lemma {:induction false} BodyRestored(x: seq<byte>, ip: nat, size: nat)
    requires ip + |x| <= MAX_POS && 0 < size <= MAX_POS
    ensures Body(false, Body(true, x, ip, size), ip, size) == x
    decreases |x|
  {
    hide Encode, Decode, Bytes32, Word32;
    if |x| <= 4 {
    } else if x[0] != CALL {
      var r := Body(true, x, ip, size);
      assert r[1..] == Body(true, x[1..], ip + 1, size);
      BodyRestored(x[1..], ip + 1, size);
      assert x == [x[0]] + x[1..];
    } else {
      CallRestored(x, ip, size);
    }
  }

  lemma {:induction false} CallRestored(x: seq<byte>, ip: nat, size: nat)
    requires ip + |x| <= MAX_POS && 0 < size <= MAX_POS && |x| > 4 && x[0] == CALL
    ensures Body(false, Body(true, x, ip, size), ip, size) == x
    decreases |x|, 0
  {
    hide Encode, Decode, Bytes32, Word32, Body;
    var u := Word32(x[1], x[2], x[3], x[4]);
    var v := Encode(u, ip, size);
    var rest := Body(true, x[5..], ip + 5, size);
    var r := [x[0]] + Bytes32(v) + rest;
    CallStep(true, x, ip, size);
    WordOfBytes(v);
    assert Bytes32(v) == r[1..5] && r[5..] == rest;
    assert Word32(r[1], r[2], r[3], r[4]) == v;
    CallStep(false, r, ip, size);
    OperandRestored(u, ip, size);
    BytesOfWord(x[1..5]);
    BodyRestored(x[5..], ip + 5, size);
    assert x == [x[0]] + x[1..5] + x[5..];
  }

  lemma CallStep(encode: bool, x: seq<byte>, ip: nat, size: nat)
    requires ip + |x| < WORD32 && size < WORD32 && |x| > 4 && x[0] == CALL
    ensures Body(encode, x, ip, size)
            == [x[0]] + Bytes32(Operand(encode, Word32(x[1], x[2], x[3], x[4]), ip, size))
              + Body(encode, x[5..], ip + 5, size)
  {
    hide Encode, Decode, Bytes32, Word32;
  }

  lemma PlainStep(encode: bool, x: seq<byte>, ip: nat, size: nat)
    requires ip + |x| < WORD32 && size < WORD32
    ensures |x| <= 4 ==> Body(encode, x, ip, size) == x
    ensures |x| > 0 && x[0] != CALL ==> Body(encode, x, ip, size) == [x[0]] + Body(encode, x[1..], ip + 1, size)
  {
    hide Encode, Decode, Bytes32, Word32;
    if 0 < |x| <= 4 {
      assert x == [x[0]] + x[1..];
    }
  }

  /** The decoder's translation undoes the encoder's on every chunk. */
  lemma ChunkRestored(s: seq<byte>, ip: nat, size: nat)
    requires ip + |s| <= MAX_POS && 0 < size <= MAX_POS
    ensures Translated(false, Translated(true, s, ip, size), ip, size) == s
  {
    hide Body;
    if |s| > 6 {
      var x, tail := s[..|s| - 6], s[|s| - 6..];
      var r := Translated(true, s, ip, size);
      assert r[..|r| - 6] == Body(true, x, ip, size) && r[|r| - 6..] == tail;
      BodyRestored(x, ip, size);
      assert s == x + tail;
    }
  }

  // ---------- What becomes of an operand ----------

  /** The number that 32 bits stand for as a signed one. */
  function Signed(u: nat): int {
    if u < 0x8000_0000 then u else u - 0x1_0000_0000
  }

  /** A relative offset that leads into the file, from position ip, becomes the absolute address; one that leads
      up to ip bytes past its end wraps, to less than zero; any other stays. */
  lemma EncodeIs(u: nat, ip: nat, size: nat)
    requires u < 0x1_0000_0000 && ip <= MAX_POS && 0 < size <= MAX_POS
    ensures var rel := Signed(u);
            && (0 <= ip + rel < size ==> Encode(u, ip, size) == ip + rel)
            && (size <= ip + rel && rel < size ==> Encode(u, ip, size) == (rel - size) % 0x1_0000_0000)
            && (ip + rel < 0 || size <= rel ==> Encode(u, ip, size) == u)
  {
    hide Wrap;
    WrapOnce(ip + u);
    WrapOnce(size + ip);
    WrapOnce(u + WORD32 - size);
  }

  /** An absolute address inside the file becomes the offset from ip; one of the ip numbers below zero wraps back;
      any other stays. */
  lemma DecodeIs(v: nat, ip: nat, size: nat)
    requires v < 0x1_0000_0000 && ip <= MAX_POS && 0 < size <= MAX_POS
    ensures var to := Signed(v);
            && (0 <= to < size ==> Decode(v, ip, size) == (to - ip) % 0x1_0000_0000)
            && (to < 0 <= ip + to ==> Decode(v, ip, size) == (to + size) % 0x1_0000_0000)
            && (ip + to < 0 || size <= to ==> Decode(v, ip, size) == v)
  {
    hide Wrap;
    WrapOnce(v + WORD32 - ip);
    WrapOnce(WORD32 - v);
    WrapOnce(v + size);
  }

  /** The scan comes to place p: it passes one byte, or a call with its operand. */
  predicate Visits(s: seq<byte>, p: nat)
    decreases |s|
  {
    p == 0
    || (s != [] && if s[0] != 0xE8 then p >= 1 && Visits(s[1..], p - 1)
                   else p >= 5 && |s| >= 5 && Visits(s[5..], p - 5))
  }

  /** The number in four bytes, the lowest first. */
  function Number(s: seq<byte>, p: nat): nat
    requires p + 4 <= |s|
  {
    s[p] as nat + 0x100 * (s[p + 1] as nat) + 0x1_0000 * (s[p + 2] as nat) + 0x100_0000 * (s[p + 3] as nat)
  }

  /** What is at place p of r, made of x: the byte as it was, behind a call with its operand in reach the operand
      translated at its own position, and all the rest as it was where none is in reach any more. */
  ghost predicate PlaceIs(encode: bool, x: seq<byte>, r: seq<byte>, ip: nat, size: nat, p: nat)
    requires ip + |x| < WORD32 && size < WORD32
  {
    && |r| == |x| && p < |x| && r[p] == x[p]
    && (x[p] == 0xE8 && p + 4 < |x| ==> Number(r, p + 1) == Operand(encode, Number(x, p + 1), ip + p, size))
    && (p + 4 >= |x| ==> r[p..] == x[p..])
  }

  lemma PlaceBehind(encode: bool, x: seq<byte>, r: seq<byte>, ip: nat, size: nat, p: nat, k: nat)
    requires ip + |x| < WORD32 && size < WORD32 && k <= p < |x| == |r|
    requires PlaceIs(encode, x[k..], r[k..], ip + k, size, p - k)
    ensures PlaceIs(encode, x, r, ip, size, p)
  {
    hide Operand, Number;
    SameNumber(r, r[k..], p, k);
    SameNumber(x, x[k..], p, k);
    assert r[p..] == r[k..][p - k..] && x[p..] == x[k..][p - k..];
  }

  lemma PlaceAtFront(encode: bool, x: seq<byte>, r: seq<byte>, ip: nat, size: nat)
    requires ip + |x| < WORD32 && size < WORD32 && 0 < |x| == |r| && r[0] == x[0]
    requires |x| <= 4 ==> r == x
    requires x[0] == CALL && |x| > 4 ==> Number(r, 1) == Operand(encode, Number(x, 1), ip, size)
    ensures PlaceIs(encode, x, r, ip, size, 0)
  {
    hide Operand, Number;
  }

  /** So it is at every place that the scan comes to. */
  lemma {:induction false} BodyAt(encode: bool, x: seq<byte>, ip: nat, size: nat, p: nat)
    requires ip + |x| < WORD32 && size < WORD32 && Visits(x, p) && p < |x|
    ensures PlaceIs(encode, x, Body(encode, x, ip, size), ip, size, p)
    decreases |x|
  {
    hide Operand, Number, PlaceIs, Body;
    var r := Body(encode, x, ip, size);
    PlainStep(encode, x, ip, size);
    if |x| > 4 && x[0] == CALL {
      BodyCall(encode, x, ip, size);
    }
    if p == 0 {
      PlaceAtFront(encode, x, r, ip, size);
    } else if |x| <= 4 {
      ShortPlace(encode, x, r, ip, size, p);
    } else if x[0] != CALL {
      BodyAt(encode, x[1..], ip + 1, size, p - 1);
      assert r[1..] == Body(encode, x[1..], ip + 1, size);
      PlaceBehind(encode, x, r, ip, size, p, 1);
    } else {
      BodyAt(encode, x[5..], ip + 5, size, p - 5);
      PlaceBehind(encode, x, r, ip, size, p, 5);
    }
  }

  lemma ShortPlace(encode: bool, x: seq<byte>, r: seq<byte>, ip: nat, size: nat, p: nat)
    requires ip + |x| < WORD32 && size < WORD32 && r == x && p < |x| <= 4
    ensures PlaceIs(encode, x, r, ip, size, p)
  {
  }

  lemma SameNumber(a: seq<byte>, b: seq<byte>, p: nat, k: nat)
    requires k <= p && |a| == |b| + k && a[k..] == b
    ensures p + 4 < |a| ==> Number(a, p + 1) == Number(b, p - k + 1)
  {
    if p + 4 < |a| {
      assert forall i :: p <= i < p + 5 ==> a[i] == a[k..][i - k] == b[i - k];
    }
  }

  lemma BodyCall(encode: bool, x: seq<byte>, ip: nat, size: nat)
    requires ip + |x| < WORD32 && size < WORD32 && |x| > 4 && x[0] == CALL
    ensures var r := Body(encode, x, ip, size);
            r[0] == x[0] && Number(r, 1) == Operand(encode, Number(x, 1), ip, size)
            && r[5..] == Body(encode, x[5..], ip + 5, size)
  {
    hide Operand, Body, Bytes32, Word32, Number;
    CallStep(encode, x, ip, size);
    var u := Word32(x[1], x[2], x[3], x[4]);
    var r, four := Body(encode, x, ip, size), Bytes32(Operand(encode, u, ip, size));
    WordOfBytes(Operand(encode, u, ip, size));
    assert r[1] == four[0] && r[2] == four[1] && r[3] == four[2] && r[4] == four[3];
    assert r[5..] == Body(encode, x[5..], ip + 5, size);
    NumberIsWord(x, 1);
    NumberIsWord(r, 1);
  }

  lemma NumberIsWord(s: seq<byte>, p: nat)
    requires p + 4 <= |s|
    ensures Number(s, p) == Word32(s[p], s[p + 1], s[p + 2], s[p + 3])
  {
  }

  /** What translation makes of a chunk of more than six bytes, at a place that the scan comes to. */
  lemma CallTranslated(encode: bool, s: seq<byte>, ip: nat, size: nat, p: nat)
    requires ip + |s| <= MAX_POS && 0 < size <= MAX_POS && 6 < |s| && p + 6 < |s| && Visits(s[..|s| - 6], p)
    ensures var r := Translated(encode, s, ip, size);
            && |r| == |s| && r[p] == s[p] && r[|s| - 6..] == s[|s| - 6..]
            && (p + 10 >= |s| ==> r[p..] == s[p..])
            && (s[p] == 0xE8 && p + 10 < |s| ==>
                  var u, at := Number(s, p + 1), ip + p;
                  var rel := Signed(u);
                  Number(r, p + 1) as int
                  == if encode then
                       if 0 <= at + rel < size then at + rel
                       else if size <= at + rel && rel < size then (rel - size) % 0x1_0000_0000
                       else u
                     else
                       if 0 <= rel < size then (rel - at) % 0x1_0000_0000
                       else if rel < 0 <= at + rel then (rel + size) % 0x1_0000_0000
                       else u)
  {
    hide Body, Visits, Encode, Decode;
    var x := s[..|s| - 6];
    BodyAt(encode, x, ip, size, p);
    var b, r := Body(encode, x, ip, size), Translated(encode, s, ip, size);
    assert r == b + s[|s| - 6..];
    assert p + 10 >= |s| ==> r[p..] == b[p..] + s[|s| - 6..] && s[p..] == x[p..] + s[|s| - 6..];
    if s[p] == 0xE8 && p + 10 < |s| {
      EncodeIs(Number(s, p + 1), ip + p, size);
      DecodeIs(Number(s, p + 1), ip + p, size);
    }
  }

  /** A call at place 4 of a first chunk of 32 bytes, to 16 bytes behind. */
  lemma CallOfChunk(s: seq<byte>)
    requires |s| == 32 && s[4] == 0xE8 && s[5] == 0x10 && forall i :: 0 <= i < 32 && i != 4 && i != 5 ==> s[i] == 0
    ensures Translated(true, s, 0, 12000000) == s[5 := 0x14] && Translated(false, s[5 := 0x14], 0, 12000000) == s
  {
    hide Body, Translated;
    var x, r := s[..26], Translated(true, s, 0, 12000000);
    forall p: nat | p < 26 && (p <= 4 || 9 <= p) ensures Visits(x, p) {
      ComesTo(x, 4, p);
    }
    forall p: nat | p < 26 && (p <= 4 || 9 <= p) ensures r[p] == s[p] && (p == 4 ==> Number(r, 5) == 0x14) {
      CallTranslated(true, s, 0, 12000000, p);
    }
    CallTranslated(true, s, 0, 12000000, 0);
    assert forall i :: 26 <= i < 32 ==> r[i] == r[26..][i - 26] == s[26..][i - 26];
    assert r[5] as nat + 0x100 * (r[6] as nat) + 0x1_0000 * (r[7] as nat) + 0x100_0000 * (r[8] as nat) == 0x14;
    assert r == s[5 := 0x14];
    ChunkRestored(s, 0, 12000000);
  }

  /** With a single call, at place c, the scan comes to every place but those of its operand. */
  lemma {:induction false} ComesTo(x: seq<byte>, c: nat, p: nat)
    requires c + 5 <= |x| && p < |x| && (p <= c || c + 5 <= p)
    requires forall i :: 0 <= i < |x| ==> (x[i] == 0xE8 <==> i == c)
    ensures Visits(x, p)
    decreases |x|
  {
    if p > 0 {
      if c > 0 {
        ComesTo(x[1..], c - 1, p - 1);
      } else {
        ComesPlain(x[5..], p - 5);
      }
    }
  }

  lemma {:induction false} ComesPlain(x: seq<byte>, p: nat)
    requires p < |x| && forall i :: 0 <= i < |x| ==> x[i] != 0xE8
    ensures Visits(x, p)
    decreases |x|
  {
    if p > 0 {
      ComesPlain(x[1..], p - 1);
    }
  }

  // ---------- In place ----------

  /** translate_e8 of the encoder and of the decoder: the last six bytes are set aside and replaced by
      0xE8 so that the scan stops, and put back. */
  method TranslateE8(encode: bool, mem: array<byte>, at: nat, bytes: nat, instrPos: nat, size: nat)
    returns (newPos: nat)
    requires at + bytes <= mem.Length && instrPos + bytes < WORD32 && size < WORD32
    requires bytes <= 6 || instrPos + bytes >= 10
    modifies mem
    ensures newPos == instrPos + bytes
    ensures mem[..] == old(mem[..at]) + Translated(encode, old(mem[at..at + bytes]), instrPos, size)
            + old(mem[at + bytes..])
  {
    hide *;
    ghost var before, s := mem[..], mem[at..at + bytes];
    if bytes <= 6 {
      ShortChunk(encode, s, instrPos, size);
      assert before == before[..at] + s + before[at + bytes..];
      return instrPos + bytes;
    }
    var tail := at + bytes - 6;
    var temp := mem[tail..at + bytes];
    SetSix(mem, tail, [CALL, CALL, CALL, CALL, CALL, CALL]);
    ghost var x := s[..bytes - 6];
    assert x == before[at..tail] && mem[..][..tail] == before[..tail];
    assert mem[at..tail] == mem[..][..tail][at..] == before[..tail][at..] == x;
    assert mem[..at] == mem[..][..tail][..at] == before[..tail][..at] == before[..at];
    assert mem[tail + 6..] == before[tail + 6..];
    ghost var marked := mem[..];
    Scan(encode, mem, at, bytes, instrPos, size, x);
    ghost var scanned := mem[..];
    assert scanned[tail + 6..] == marked[tail..][6..] == before[tail + 6..];
    SetSix(mem, tail, temp);
    assert mem[at..tail] == scanned[at..tail] && mem[..at] == scanned[..at];
    assert mem[tail..] == temp + before[tail + 6..] == before[tail..];
    LongChunk(encode, s, instrPos, size);
    Assembled(mem[..], before, at, bytes, Body(encode, x, instrPos, size));
    newPos := instrPos + bytes;
  }

  /** Without a call byte nothing changes. */
  lemma {:induction false} NoCalls(encode: bool, x: seq<byte>, ip: nat, size: nat)
    requires ip + |x| < WORD32 && size < WORD32 && forall i :: 0 <= i < |x| ==> x[i] != CALL
    ensures Body(encode, x, ip, size) == x
    decreases |x|
  {
    hide Operand, Bytes32, Word32;
    if |x| > 4 {
      NoCalls(encode, x[1..], ip + 1, size);
    }
  }

  lemma NothingToDo(encode: bool, s: seq<byte>, ip: nat, size: nat)
    requires ip + |s| < WORD32 && size < WORD32 && forall i :: 0 <= i < |s| ==> s[i] != CALL
    ensures Translated(encode, s, ip, size) == s
  {
    hide Body;
    if |s| > 6 {
      NoCalls(encode, s[..|s| - 6], ip, size);
    }
  }

  lemma ShortChunk(encode: bool, s: seq<byte>, ip: nat, size: nat)
    requires ip + |s| < WORD32 && size < WORD32 && |s| <= 6
    ensures Translated(encode, s, ip, size) == s
  {
  }

  lemma LongChunk(encode: bool, s: seq<byte>, ip: nat, size: nat)
    requires ip + |s| < WORD32 && size < WORD32 && |s| > 6
    ensures Translated(encode, s, ip, size) == Body(encode, s[..|s| - 6], ip, size) + s[|s| - 6..]
  {
    hide Body;
  }

  lemma Assembled(after: seq<byte>, before: seq<byte>, at: nat, bytes: nat, body: seq<byte>)
    requires |after| == |before| && at + bytes <= |before| && bytes > 6 && |body| == bytes - 6
    requires after[..at] == before[..at] && after[at..at + bytes - 6] == body
             && after[at + bytes - 6..] == before[at + bytes - 6..]
    ensures after == before[..at] + (body + before[at..at + bytes][bytes - 6..]) + before[at + bytes..]
  {
    assert before[at..at + bytes][bytes - 6..] == before[at + bytes - 6..at + bytes];
    assert after == after[..at] + after[at..at + bytes - 6] + after[at + bytes - 6..];
  }

  method SetSix(mem: array<byte>, tail: nat, six: seq<byte>)
    requires |six| == 6 && tail + 6 <= mem.Length
    modifies mem
    ensures mem[..] == old(mem[..tail]) + six + old(mem[tail + 6..])
  {
    forall k | 0 <= k < 6 { mem[tail + k] := six[k]; }
  }

  /** A chunk translated up to p, with what is still to be translated. */
  ghost function Partly(encode: bool, s: seq<byte>, at: nat, p: nat, tail: nat, ip: nat, size: nat): seq<byte>
    requires at <= p <= tail <= |s| && ip + (tail - p) < WORD32 && size < WORD32
  {
    s[at..p] + Body(encode, s[p..tail], ip, size)
  }

  lemma SkipByte(encode: bool, s: seq<byte>, at: nat, p: nat, tail: nat, ip: nat, size: nat)
    requires at <= p < tail <= |s| && ip + (tail - p) < WORD32 && size < WORD32 && s[p] != CALL
    ensures Partly(encode, s, at, p, tail, ip, size) == Partly(encode, s, at, p + 1, tail, ip + 1, size)
  {
    hide Body;
    var rest := s[p..tail];
    PlainStep(encode, rest, ip, size);
    assert rest[1..] == s[p + 1..tail];
    assert s[at..p + 1] == s[at..p] + [s[p]];
  }

  lemma DoCall(encode: bool, was: seq<byte>, now: seq<byte>, at: nat, p: nat, tail: nat, ip: nat, size: nat,
               new4: seq<byte>)
    requires |now| == |was| && at <= p && p + 5 <= tail <= |was| && ip + (tail - p) < WORD32 && size < WORD32
             && was[p] == CALL
    requires new4 == Bytes32(Operand(encode, Word32(was[p + 1], was[p + 2], was[p + 3], was[p + 4]), ip, size))
    requires now == was[p + 1 := new4[0]][p + 2 := new4[1]][p + 3 := new4[2]][p + 4 := new4[3]]
    ensures now[..at] == was[..at] && now[tail..] == was[tail..]
    ensures Partly(encode, now, at, p + 5, tail, ip + 5, size) == Partly(encode, was, at, p, tail, ip, size)
  {
    hide Body, Operand, Word32, Bytes32;
    var rest := was[p..tail];
    CallStep(encode, rest, ip, size);
    assert rest[5..] == was[p + 5..tail] == now[p + 5..tail];
    assert now[at..p + 5] == was[at..p] + [was[p]] + new4;
  }

  lemma PartlyStart(encode: bool, s: seq<byte>, at: nat, tail: nat, ip: nat, size: nat)
    requires at <= tail <= |s| && ip + (tail - at) < WORD32 && size < WORD32
    ensures Partly(encode, s, at, at, tail, ip, size) == Body(encode, s[at..tail], ip, size)
  {
    hide Body;
    assert s[at..at] == [];
  }

  lemma PartlyEnd(encode: bool, s: seq<byte>, at: nat, p: nat, tail: nat, ip: nat, size: nat)
    requires at <= p <= tail <= |s| && tail - p <= 4 && ip + (tail - p) < WORD32 && size < WORD32
    ensures Partly(encode, s, at, p, tail, ip, size) == s[at..tail]
  {
    hide Body;
    PlainStep(encode, s[p..tail], ip, size);
    assert s[at..tail] == s[at..p] + s[p..tail];
  }

  /** The scan for 0xE8 bytes over a chunk that ends in six of them. */
  method Scan(encode: bool, mem: array<byte>, at: nat, bytes: nat, instrPos: nat, size: nat, ghost x: seq<byte>)
    requires at + bytes <= mem.Length && instrPos + bytes < WORD32 && size < WORD32 && bytes > 6
             && instrPos + bytes >= 10
    requires mem[at..at + bytes - 6] == x && forall k :: at + bytes - 6 <= k < at + bytes ==> mem[k] == CALL
    modifies mem
    ensures mem[at..at + bytes - 6] == Body(encode, x, instrPos, size)
    ensures mem[..at] == old(mem[..at]) && mem[at + bytes - 6..] == old(mem[at + bytes - 6..])
  {
    hide *;
    var end: int := instrPos + bytes - 10;
    var ip, p := instrPos, at;
    ghost var goal, before := Body(encode, x, instrPos, size), mem[..];
    ghost var tail := at + bytes - 6;
    PartlyStart(encode, mem[..], at, tail, ip, size);
    assert mem[..][at..tail] == x;
    while true
      invariant at <= p <= tail && ip == instrPos + (p - at)
      invariant mem[..][..at] == before[..at] && mem[..][tail..] == before[tail..]
      invariant Partly(encode, mem[..], at, p, tail, ip, size) == goal
      decreases tail - p
    {
      ghost var was := mem[..];
      SentinelsKept(before, was, tail);
      p, ip := NextCall(encode, mem, at, bytes, p, ip, instrPos, size);
      if ip >= end {
        break;
      }
      var operand := Word32(mem[p + 1], mem[p + 2], mem[p + 3], mem[p + 4]);
      var new4 := Bytes32(Operand(encode, operand, ip, size));
      mem[p + 1], mem[p + 2], mem[p + 3], mem[p + 4] := new4[0], new4[1], new4[2], new4[3];
      DoCall(encode, was, mem[..], at, p, tail, ip, size, new4);
      p, ip := p + 5, ip + 5;
    }
    PartlyEnd(encode, mem[..], at, p, tail, ip, size);
    assert mem[..][at..tail] == mem[at..tail];
  }

  lemma SentinelsKept(before: seq<byte>, s: seq<byte>, tail: nat)
    requires |s| == |before| && tail + 6 <= |s| && s[tail..] == before[tail..]
    requires forall k :: tail <= k < tail + 6 ==> before[k] == CALL
    ensures forall k :: tail <= k < tail + 6 ==> s[k] == CALL
  {
    forall k | tail <= k < tail + 6 ensures s[k] == CALL {
      assert s[tail..][k - tail] == before[tail..][k - tail];
    }
  }

  /** The inner loop: on to the next 0xE8, at the latest the first of the six at the end. */
  method NextCall(encode: bool, mem: array<byte>, at: nat, bytes: nat, from: nat, fromPos: nat, instrPos: nat,
                  size: nat)
    returns (p: nat, ip: nat)
    requires at + bytes <= mem.Length && instrPos + bytes < WORD32 && size < WORD32 && bytes > 6
    requires forall k :: at + bytes - 6 <= k < at + bytes ==> mem[..][k] == CALL
    requires at <= from <= at + bytes - 6 && fromPos == instrPos + (from - at)
    ensures from <= p <= at + bytes - 6 && ip == instrPos + (p - at) && mem[p] == CALL
    ensures Partly(encode, mem[..], at, p, at + bytes - 6, ip, size)
            == Partly(encode, mem[..], at, from, at + bytes - 6, fromPos, size)
  {
    hide *;
    ghost var s, tail := mem[..], at + bytes - 6;
    p, ip := from, fromPos;
    while mem[p] != CALL
      invariant from <= p <= tail && ip == instrPos + (p - at)
      invariant Partly(encode, s, at, p, tail, ip, size) == Partly(encode, s, at, from, tail, fromPos, size)
      decreases tail - p
    {
      assert mem[p] == s[p];
      assert p != tail;
      SkipByte(encode, s, at, p, tail, ip, size);
      p, ip := p + 1, ip + 1;
    }
  }
}
