/** Streaming SHA-1: the digest of a message is the one that sections 4 and 7 of FIPS PUB 180-1 define,
    however the message is divided into calls. */
module Sha1 {
  import opened Words

  // ---------- FIPS PUB 180-1 ----------

  datatype Hash = Hash(h0: bv32, h1: bv32, h2: bv32, h3: bv32, h4: bv32)

  const INITIAL := Hash(0x67452301, 0xEFCDAB89, 0x98BADCFE, 0x10325476, 0xC3D2E1F0)

  const BITS64: nat := 0x1_0000_0000_0000_0000
  const BITS32: nat := 0x1_0000_0000

  function Mix(t: nat, b: bv32, c: bv32, d: bv32): bv32 {
    if t < 20 then Choose(b, c, d)
    else if t < 40 then Parity(b, c, d)
    else if t < 60 then Majority(b, c, d)
    else Parity(b, c, d)
  }

  /** Section 6: the constants. */
  function Constant(t: nat): bv32 {
    if t < 20 then 0x5A827999 else if t < 40 then 0x6ED9EBA1 else if t < 60 then 0x8F1BBCDC else 0xCA62C1D6
  }

  /** Four bytes make a word. */
  function WordAt(block: seq<bv8>, t: nat): bv32
    requires |block| == 64 && t < 16
  {
    FromBytes(block[4 * t], block[4 * t + 1], block[4 * t + 2], block[4 * t + 3])
  }

  /** Section 7, steps a and b: the 80 words of a block. */
  function Schedule(block: seq<bv8>, t: nat): bv32
    requires |block| == 64
  {
    if t < 16 then WordAt(block, t)
    else Rotate1(Xor4(Schedule(block, t - 3), Schedule(block, t - 8), Schedule(block, t - 14), Schedule(block, t - 16)))
  }

  /** Step d: one of the 80 rounds. */
  function Round(t: nat, s: Hash, w: bv32): Hash {
    Hash(Plus5(Rotate5(s.h0), Mix(t, s.h1, s.h2, s.h3), s.h4, w, Constant(t)), s.h0, Rotate30(s.h1), s.h2, s.h3)
  }

  /** The first n rounds. */
  function Rounds(n: nat, s: Hash, block: seq<bv8>): Hash
    requires |block| == 64
  {
    if n == 0 then s else Round(n - 1, Rounds(n - 1, s, block), Schedule(block, n - 1))
  }

  /** Step e. */
  function Compress(h: Hash, block: seq<bv8>): Hash
    requires |block| == 64
  {
    var s := Rounds(80, h, block);
    Hash(Plus(h.h0, s.h0), Plus(h.h1, s.h1), Plus(h.h2, s.h2), Plus(h.h3, s.h3), Plus(h.h4, s.h4))
  }

  function Blocks(h: Hash, m: seq<bv8>): Hash
    decreases |m|
  {
    if |m| < 64 then h else Blocks(Compress(h, m[..64]), m[64..])
  }

  function Zeros(n: nat): (s: seq<bv8>)
    ensures |s| == n && forall i :: 0 <= i < n ==> s[i] == 0
  {
    seq(n, i => 0)
  }

  function Byte(n: nat): bv8
    requires n < 256
  {
    n as bv8
  }

  /** The length in bits, as a number of eight bytes. */
  function LengthField(bits: nat): (s: seq<bv8>)
    ensures |s| == 8
  {
    [Byte(bits / 0x100_0000_0000_0000 % 256), Byte(bits / 0x1_0000_0000_0000 % 256), Byte(bits / 0x100_0000_0000 % 256),
     Byte(bits / 0x1_0000_0000 % 256), Byte(bits / 0x100_0000 % 256), Byte(bits / 0x1_0000 % 256),
       Byte(bits / 0x100 % 256), Byte(bits % 256)]
  }

  /** Section 4: a one, zeros up to eight bytes before the end of a block, and the length. */
  function Padding(n: nat): seq<bv8> {
    [0x80] + Zeros((119 - n % 64) % 64) + LengthField(8 * n)
  }

  function Final(m: seq<bv8>): Hash {
    Blocks(INITIAL, m + Padding(|m|))
  }

  /** Byte k of a word, most significant byte first. */
  function ByteOf(w: bv32, k: nat): bv8
    requires k < 4
  {
    Low8(w >> (8 * (3 - k)))
  }

  function WordBytes(w: bv32): seq<bv8> {
    [ByteOf(w, 0), ByteOf(w, 1), ByteOf(w, 2), ByteOf(w, 3)]
  }

  function DigestOf(h: Hash): seq<bv8> {
    WordBytes(h.h0) + WordBytes(h.h1) + WordBytes(h.h2) + WordBytes(h.h3) + WordBytes(h.h4)
  }

  /** The digest of a message. */
  function Digest(m: seq<bv8>): seq<bv8> {
    DigestOf(Final(m))
  }

  lemma PaddingLength(n: nat)
    ensures |Padding(n)| == 9 + (119 - n % 64) % 64
  {
  }

  /** Padding ends on a block boundary. */
  lemma PaddedWhole(n: nat)
    ensures (n + |Padding(n)|) % 64 == 0
  {
    hide Padding;
    PaddingLength(n);
    var q, r := n / 64, n % 64;
    assert n == 64 * q + r;
    if r <= 55 {
      assert n + |Padding(n)| == 64 * (q + 1);
    } else {
      assert n + |Padding(n)| == 64 * (q + 2);
    }
  }

  lemma {:induction false} BlocksConcat(h: Hash, a: seq<bv8>, b: seq<bv8>)
    requires |a| % 64 == 0
    ensures Blocks(h, a + b) == Blocks(Blocks(h, a), b)
    decreases |a|
  {
    hide Compress;
    if a == [] {
      assert a + b == b;
    } else {
      assert |a| >= 64 && (a + b)[..64] == a[..64] && (a + b)[64..] == a[64..] + b;
      BlocksConcat(Compress(h, a[..64]), a[64..], b);
    }
  }

  lemma OneBlock(h: Hash, b: seq<bv8>)
    requires |b| == 64
    ensures Blocks(h, b) == Compress(h, b)
  {
    hide Compress;
    assert b[..64] == b && b[64..] == [];
  }

  // ---------- One block ----------

  ghost predicate Scheduled(w: seq<bv32>, block: seq<bv8>, n: nat) {
    |block| == 64 && n <= |w| && forall t: nat :: t < n ==> w[t] == Schedule(block, t)
  }

  lemma ScheduleFirst(block: seq<bv8>, t: nat)
    requires |block| == 64 && t < 16
    ensures Schedule(block, t)
            == FromBytes(block[4 * t], block[4 * t + 1], block[4 * t + 2], block[4 * t + 3])
  {
  }

  lemma ScheduleNext(w: seq<bv32>, block: seq<bv8>, t: nat)
    requires Scheduled(w, block, t) && 16 <= t
    ensures Schedule(block, t) == Rotate1(Xor4(w[t - 3], w[t - 8], w[t - 14], w[t - 16]))
  {
    hide Rotate1, Xor4;
  }

  lemma ScheduledMore(w: seq<bv32>, block: seq<bv8>, t: nat, x: bv32)
    requires Scheduled(w, block, t) && t < |w| && x == Schedule(block, t)
    ensures Scheduled(w[t := x], block, t + 1)
  {
    hide Schedule;
  }

  lemma ScheduledAt(w: seq<bv32>, block: seq<bv8>, n: nat, t: nat)
    requires Scheduled(w, block, n) && t < n
    ensures |block| == 64 && w[t] == Schedule(block, t)
  {
    hide Schedule;
  }

  /** The words of the block. */
  method Expand(block: array<bv8>) returns (w: array<bv32>)
    requires block.Length == 64
    ensures fresh(w) && w.Length == 80 && Scheduled(w[..], block[..], 80)
  {
    hide *;
    w := new bv32[80];
    ghost var b := block[..];
    NoneScheduled(w[..], b);
    var t := 0;
    while t < 16
      invariant 0 <= t <= 16 && Scheduled(w[..], b, t)
    {
      ScheduleFirst(b, t);
      ghost var was := w[..];
      w[t] := FromBytes(block[t * 4], block[t * 4 + 1], block[t * 4 + 2], block[t * 4 + 3]);
      ScheduledMore(was, b, t, w[t]);
      assert w[..] == was[t := w[t]];
      t := t + 1;
    }
    while t < 80
      invariant 16 <= t <= 80 && Scheduled(w[..], b, t)
    {
      ScheduleNext(w[..], b, t);
      ghost var was := w[..];
      w[t] := Rotate1(Xor4(w[t - 3], w[t - 8], w[t - 14], w[t - 16]));
      ScheduledMore(was, b, t, w[t]);
      assert w[..] == was[t := w[t]];
      t := t + 1;
    }
  }

  lemma NoneScheduled(w: seq<bv32>, block: seq<bv8>)
    requires |block| == 64
    ensures Scheduled(w, block, 0)
  {
  }

  lemma RoundsStep(t: nat, h: Hash, block: seq<bv8>, s: Hash, f: bv32, k: bv32)
    requires |block| == 64 && s == Rounds(t, h, block) && f == Mix(t, s.h1, s.h2, s.h3) && k == Constant(t)
    ensures Rounds(t + 1, h, block)
            == Hash(Plus5(Rotate5(s.h0), f, s.h4, Schedule(block, t), k), s.h0, Rotate30(s.h1), s.h2, s.h3)
  {
    hide Rotate5, Rotate30, Mix, Constant, Schedule, Plus5;
  }

  lemma MixIs(t: nat, b: bv32, c: bv32, d: bv32)
    ensures t < 20 ==> Mix(t, b, c, d) == Choose(b, c, d) && Constant(t) == 0x5A827999
    ensures 20 <= t < 40 ==> Mix(t, b, c, d) == Parity(b, c, d) && Constant(t) == 0x6ED9EBA1
    ensures 40 <= t < 60 ==> Mix(t, b, c, d) == Majority(b, c, d) && Constant(t) == 0x8F1BBCDC
    ensures 60 <= t ==> Mix(t, b, c, d) == Parity(b, c, d) && Constant(t) == 0xCA62C1D6
  {
    hide Choose, Parity, Majority;
  }

  lemma NoRounds(h: Hash, block: seq<bv8>)
    requires |block| == 64
    ensures Rounds(0, h, block) == h
  {
  }

  lemma CompressIs(h: Hash, block: seq<bv8>, s: Hash)
    requires |block| == 64 && s == Rounds(80, h, block)
    ensures Compress(h, block)
            == Hash(Plus(h.h0, s.h0), Plus(h.h1, s.h1), Plus(h.h2, s.h2), Plus(h.h3, s.h3), Plus(h.h4, s.h4))
  {
    hide Rounds, Plus;
  }

  /** The four loops of rounds. */
  method RunRounds(w: array<bv32>, h: Hash, ghost block: seq<bv8>) returns (a: bv32, b: bv32, c: bv32, d: bv32, e: bv32)
    requires w.Length == 80 && Scheduled(w[..], block, 80)
    ensures |block| == 64 && Hash(a, b, c, d, e) == Rounds(80, h, block)
  {
    hide *;
    ScheduledAt(w[..], block, 80, 0);
    NoRounds(h, block);
    a, b, c, d, e := h.h0, h.h1, h.h2, h.h3, h.h4;
    var t := 0;
    while t < 20
      invariant 0 <= t <= 20 && Hash(a, b, c, d, e) == Rounds(t, h, block)
    {
      ScheduledAt(w[..], block, 80, t);
      MixIs(t, b, c, d);
      RoundsStep(t, h, block, Hash(a, b, c, d, e), Choose(b, c, d), 0x5A827999);
      var temp := Plus5(Rotate5(a), Choose(b, c, d), e, w[t], 0x5A827999);
      a, b, c, d, e := temp, a, Rotate30(b), c, d;
      t := t + 1;
    }
    while t < 40
      invariant 20 <= t <= 40 && Hash(a, b, c, d, e) == Rounds(t, h, block)
    {
      ScheduledAt(w[..], block, 80, t);
      MixIs(t, b, c, d);
      RoundsStep(t, h, block, Hash(a, b, c, d, e), Parity(b, c, d), 0x6ED9EBA1);
      var temp := Plus5(Rotate5(a), Parity(b, c, d), e, w[t], 0x6ED9EBA1);
      a, b, c, d, e := temp, a, Rotate30(b), c, d;
      t := t + 1;
    }
    while t < 60
      invariant 40 <= t <= 60 && Hash(a, b, c, d, e) == Rounds(t, h, block)
    {
      ScheduledAt(w[..], block, 80, t);
      MixIs(t, b, c, d);
      RoundsStep(t, h, block, Hash(a, b, c, d, e), Majority(b, c, d), 0x8F1BBCDC);
      var temp := Plus5(Rotate5(a), Majority(b, c, d), e, w[t], 0x8F1BBCDC);
      a, b, c, d, e := temp, a, Rotate30(b), c, d;
      t := t + 1;
    }
    while t < 80
      invariant 60 <= t <= 80 && Hash(a, b, c, d, e) == Rounds(t, h, block)
    {
      ScheduledAt(w[..], block, 80, t);
      MixIs(t, b, c, d);
      RoundsStep(t, h, block, Hash(a, b, c, d, e), Parity(b, c, d), 0xCA62C1D6);
      var temp := Plus5(Rotate5(a), Parity(b, c, d), e, w[t], 0xCA62C1D6);
      a, b, c, d, e := temp, a, Rotate30(b), c, d;
      t := t + 1;
    }
  }

  // ---------- Messages that are still growing ----------

  /** Whole blocks of m have been compressed to h, the rest is at the start of the block. */
  ghost predicate Partial(m: seq<bv8>, index: nat, block: seq<bv8>, h: Hash) {
    |block| == 64 && index == |m| % 64 && block[..index] == m[|m| - index..] && h == Blocks(INITIAL, m[..|m| - index])
  }

  /** One more byte. */
  lemma PartialMore(m: seq<bv8>, index: nat, block: seq<bv8>, h: Hash, b: bv8)
    requires Partial(m, index, block, h)
    ensures index < 64
    ensures index < 63 ==> Partial(m + [b], index + 1, block[index := b], h)
    ensures index == 63 ==> Partial(m + [b], 0, block[index := b], Compress(h, block[index := b]))
  {
    hide Blocks, Compress;
    var whole := m[..|m| - index];
    var more, now := m + [b], block[index := b];
    WholeBlocks(|m|, index);
    assert more[..|m| - index] == whole && more[|m| - index..] == m[|m| - index..] + [b];
    assert now[..index + 1] == block[..index] + [b];
    if index == 63 {
      LastByte(h, whole, more, now);
    }
  }

  lemma WholeBlocks(n: nat, index: nat)
    requires index == n % 64
    ensures index <= n && (n - index) % 64 == 0
    ensures (n + 1) % 64 == if index == 63 then 0 else index + 1
  {
  }

  lemma LastByte(h: Hash, whole: seq<bv8>, more: seq<bv8>, now: seq<bv8>)
    requires |whole| % 64 == 0 && |now| == 64 && more == whole + now && h == Blocks(INITIAL, whole)
    ensures Partial(more, 0, now, Compress(h, now))
  {
    hide Blocks, Compress;
    BlocksConcat(INITIAL, whole, now);
    OneBlock(h, now);
    assert more[..|more|] == more && now[..0] == more[|more|..];
  }

  /** The two counters hold the length in bits. */
  predicate Counted(low: nat, high: nat, n: nat) {
    low < BITS32 && high < BITS32 && high * BITS32 + low == 8 * n
  }

  lemma CountedMore(low: nat, high: nat, n: nat)
    requires Counted(low, high, n)
    ensures var low' := (low + 8) % BITS32; var high' := if low' == 0 then (high + 1) % BITS32 else high;
            if low' == 0 && high' == 0 then 8 * (n + 1) == BITS64
              else Counted(low', high', n + 1) && 8 * (n + 1) < BITS64
  {
    assert low == 8 * (n - high * 536870912);
  }

  function CounterBytes(n: nat): (s: seq<bv8>)
    requires n < BITS32
    ensures |s| == 4
  {
    [Byte(n / 16777216), Byte(n / 65536 % 256), Byte(n / 256 % 256), Byte(n % 256)]
  }

  /** The bytes of the counters are the length field. */
  lemma FieldOf(low: nat, high: nat, n: nat)
    requires Counted(low, high, n)
    ensures LengthField(8 * n) == CounterBytes(high) + CounterBytes(low)
  {
    hide Byte;
    FieldBytes(low, high, 8 * n);
  }

  lemma FieldBytes(low: nat, high: nat, l: nat)
    requires low < BITS32 && high < BITS32 && l == high * BITS32 + low
    ensures l / 0x100_0000_0000_0000 % 256 == high / 16777216 < 256
            && l / 0x1_0000_0000_0000 % 256 == high / 65536 % 256
    ensures l / 0x100_0000_0000 % 256 == high / 256 % 256 && l / 0x1_0000_0000 % 256 == high % 256
    ensures l / 0x100_0000 % 256 == low / 16777216 < 256 && l / 0x1_0000 % 256 == low / 65536 % 256
    ensures l / 0x100 % 256 == low / 256 % 256 && l % 256 == low % 256
  {
    HighBytes(low, high, l);
    LowBytes(low, high, l);
  }

  lemma HighBytes(low: nat, high: nat, l: nat)
    requires low < BITS32 && high < BITS32 && l == high * BITS32 + low
    ensures l / 0x100_0000_0000_0000 % 256 == high / 16777216 < 256
            && l / 0x1_0000_0000_0000 % 256 == high / 65536 % 256
    ensures l / 0x100_0000_0000 % 256 == high / 256 % 256 && l / 0x1_0000_0000 % 256 == high % 256
  {
    assert l / 0x100_0000_0000_0000 == high / 16777216
           by { QuotientIs(l, 0x100_0000_0000_0000, high / 16777216, high % 16777216 * BITS32 + low); }
    assert l / 0x1_0000_0000_0000 == high / 65536
           by { QuotientIs(l, 0x1_0000_0000_0000, high / 65536, high % 65536 * BITS32 + low); }
    assert l / 0x100_0000_0000 == high / 256
           by { QuotientIs(l, 0x100_0000_0000, high / 256, high % 256 * BITS32 + low); }
    assert l / 0x1_0000_0000 == high by { QuotientIs(l, 0x1_0000_0000, high, low); }
  }

  lemma LowBytes(low: nat, high: nat, l: nat)
    requires low < BITS32 && high < BITS32 && l == high * BITS32 + low
    ensures l / 0x100_0000 % 256 == low / 16777216 < 256 && l / 0x1_0000 % 256 == low / 65536 % 256
    ensures l / 0x100 % 256 == low / 256 % 256 && l % 256 == low % 256
  {
    var a, b, c := low / 16777216, low / 65536, low / 256;
    assert l / 0x100_0000 == 256 * high + a by { QuotientIs(l, 0x100_0000, 256 * high + a, low % 16777216); }
    assert l / 0x1_0000 == 256 * (256 * high) + b by { QuotientIs(l, 0x1_0000, 65536 * high + b, low % 65536); }
    assert l / 0x100 == 256 * (65536 * high) + c by { QuotientIs(l, 0x100, 16777216 * high + c, low % 256); }
    LastOf(high, a);
    LastOf(256 * high, b);
    LastOf(65536 * high, c);
    LastOf(16777216 * high, low);
  }

  lemma QuotientIs(l: nat, d: nat, q: nat, r: nat)
    requires d > 0 && l == d * q + r && r < d
    ensures l / d == q
  {
    var p := l / d;
    assert l == d * p + l % d;
    ProductOrder(d, p + 1, q);
    ProductOrder(d, q + 1, p);
  }

  lemma ProductOrder(d: nat, a: nat, b: nat)
    ensures a <= b ==> d * a <= d * b
  {
  }

  lemma LastOf(k: nat, x: nat)
    ensures (256 * k + x) % 256 == x % 256
  {
  }

  /** The padding fits into the last block. */
  lemma PadShort(m: seq<bv8>, index: nat, block: seq<bv8>, h: Hash, last: seq<bv8>)
    requires Partial(m, index, block, h) && index <= 55
    requires last == block[..index] + [0x80] + Zeros(55 - index) + LengthField(8 * |m|)
    ensures |last| == 64 && Compress(h, last) == Final(m)
  {
    hide Blocks, Compress, LengthField;
    var whole := m[..|m| - index];
    assert m + Padding(|m|) == whole + last;
    BlocksConcat(INITIAL, whole, last);
    OneBlock(h, last);
  }

  /** It does not, and takes one block more. */
  lemma PadLong(m: seq<bv8>, index: nat, block: seq<bv8>, h: Hash, first: seq<bv8>, last: seq<bv8>)
    requires Partial(m, index, block, h) && index > 55
    requires first == block[..index] + [0x80] + Zeros(63 - index) && last == Zeros(56) + LengthField(8 * |m|)
    ensures |first| == |last| == 64 && Compress(Compress(h, first), last) == Final(m)
  {
    hide Blocks, Compress, LengthField;
    var whole := m[..|m| - index];
    assert Zeros((119 - |m| % 64) % 64) == Zeros(63 - index) + Zeros(56);
    assert m + Padding(|m|) == whole + (first + last);
    BlocksConcat(INITIAL, whole, first + last);
    BlocksConcat(h, first, last);
    OneBlock(h, first);
    OneBlock(Compress(h, first), last);
  }

  lemma DigestByte(h: Hash, i: nat)
    requires i < 20
    ensures |DigestOf(h)| == 20
    ensures var w := if i / 4 == 0 then h.h0 else if i / 4 == 1 then h.h1 else if i / 4 == 2 then h.h2
            else if i / 4 == 3 then h.h3 else h.h4;
            DigestOf(h)[i] == ByteOf(w, i % 4)
  {
    hide WordBytes, ByteOf;
    BytesFour(h.h0);
    BytesFour(h.h1);
    BytesFour(h.h2);
    BytesFour(h.h3);
    BytesFour(h.h4);
  }

  lemma BytesFour(w: bv32)
    ensures |WordBytes(w)| == 4 && forall k :: 0 <= k < 4 ==> WordBytes(w)[k] == ByteOf(w, k)
  {
    hide ByteOf;
  }

  // ---------- The context ----------

  datatype Status = Success | TooLong | StateError

  class Sha1Context {
    const hash: array<bv32>
    const block: array<bv8>
    var lengthLow: nat
    var lengthHigh: nat
    var blockIndex: nat
    var computed: bool
    var corrupted: Status
    ghost var message: seq<bv8>

    ghost predicate Layout() {
      hash.Length == 5 && block.Length == 64 && hash as object != block
    }

    ghost function HashNow(): Hash
      reads hash
      requires Layout()
    {
      Hash(hash[0], hash[1], hash[2], hash[3], hash[4])
    }

    /** The bytes given so far, block index and counters. */
    ghost predicate Growing()
      reads this, hash, block
    {
      Layout() && Partial(message, blockIndex, block[..], HashNow()) && Counted(lengthLow, lengthHigh, |message|)
    }

    ghost predicate Valid()
      reads this, hash, block
    {
      && Layout() && (corrupted == Success && !computed ==> Growing())
      && (corrupted == Success && computed ==> HashNow() == Final(message))
      && (corrupted == TooLong ==> 8 * |message| == BITS64)
    }

    /** SHA1Reset. */
    constructor ()
      ensures Valid() && message == [] && !computed && corrupted == Success && fresh(hash) && fresh(block)
    {
      hash := new bv32[5] [0x67452301, 0xEFCDAB89, 0x98BADCFE, 0x10325476, 0xC3D2E1F0];
      block := new bv8[64](i => 0);
      lengthLow, lengthHigh, blockIndex, computed, corrupted := 0, 0, 0, false, Success;
      message := [];
    }

    /** SHA1ProcessMessageBlock. */
    method ProcessMessageBlock()
      requires Layout()
      modifies this`blockIndex, hash
      ensures HashNow() == Compress(old(HashNow()), block[..]) && blockIndex == 0
    {
      hide *;
      LayoutParts();
      HashIs();
      var w := Expand(block);
      ghost var h, b := HashNow(), block[..];
      var a0, b0, c0, d0, e0 := RunRounds(w, Hash(hash[0], hash[1], hash[2], hash[3], hash[4]), b);
      CompressIs(h, b, Hash(a0, b0, c0, d0, e0));
      hash[0] := Plus(hash[0], a0);
      hash[1] := Plus(hash[1], b0);
      hash[2] := Plus(hash[2], c0);
      hash[3] := Plus(hash[3], d0);
      hash[4] := Plus(hash[4], e0);
      blockIndex := 0;
      HashIs();
    }

    lemma LayoutParts()
      requires Layout()
      ensures hash.Length == 5 && block.Length == 64 && hash as object != block
    {
    }

    lemma HashIs()
      requires Layout()
      ensures hash.Length == 5 && HashNow() == Hash(hash[0], hash[1], hash[2], hash[3], hash[4])
    {
    }

    lemma GrowingParts()
      requires Growing()
      ensures Layout() && Partial(message, blockIndex, block[..], HashNow())
              && Counted(lengthLow, lengthHigh, |message|)
    {
      hide Partial, Counted;
    }

    lemma GrowingMake()
      requires Layout() && Partial(message, blockIndex, block[..], HashNow())
               && Counted(lengthLow, lengthHigh, |message|)
      ensures Growing()
    {
      hide Partial, Counted;
    }

    /** One turn of the loop of SHA1Input: the block index is below 64 before and after. */
    method InputByte(b: bv8)
      requires Growing() && !computed && corrupted == Success
      modifies this`lengthLow, this`lengthHigh, this`blockIndex, this`corrupted, this`message, hash, block
      ensures Layout() && message == old(message) + [b]
      ensures corrupted == Success ==> Growing() && 8 * |message| < BITS64
      ensures corrupted != Success ==> corrupted == TooLong && 8 * |message| == BITS64
    {
      hide *;
      LayoutParts0();
      GrowingParts();
      ghost var m, i, blk, h := message, blockIndex, block[..], HashNow();
      PartialMore(m, i, blk, h, b);
      CountedMore(lengthLow, lengthHigh, |m|);
      WordSize();
      block[blockIndex] := b;
      assert block[..] == blk[i := b];
      blockIndex := blockIndex + 1;
      lengthLow := (lengthLow + 8) % 4294967296;
      if lengthLow == 0 {
        lengthHigh := (lengthHigh + 1) % 4294967296;
        if lengthHigh == 0 {
          corrupted := TooLong;
        }
      }
      if blockIndex == 64 {
        ProcessMessageBlock();
      }
      message := message + [b];
      if corrupted == Success {
        GrowingMake();
      }
    }

    lemma LayoutParts0()
      requires Growing()
      ensures Layout() && hash.Length == 5 && block.Length == 64 && hash as object != block && blockIndex < 64
    {
    }

    /** SHA1Input: the bytes are added to the message, unless that has been finished or is too long. */
    method Input(data: seq<bv8>) returns (status: Status)
      requires Valid()
      modifies this, hash, block
      ensures Valid() && computed == old(computed)
      ensures data == [] ==> status == Success && message == old(message) && corrupted == old(corrupted)
      ensures data != [] && old(computed) ==> status == StateError && corrupted == StateError
      ensures data != [] && !old(computed) && old(corrupted) != Success ==> status == corrupted == old(corrupted)
      ensures !old(computed) && old(corrupted) == Success ==>
                if 8 * (|old(message)| + |data|) < BITS64
                  then status == Success && corrupted == Success && message == old(message) + data
                else data == [] || (status == Success && corrupted == TooLong)
    {
      hide *;
      status := Success;
      if data == [] {
        assert message + data == message;
        return;
      }
      ValidParts();
      if computed {
        corrupted := StateError;
        status := StateError;
        ValidMake();
        return;
      }
      if corrupted != Success {
        status := corrupted;
        return;
      }
      ghost var m := message;
      var i := 0;
      assert m + data[..0] == m;
      while i < |data| && corrupted == Success
        invariant 0 <= i <= |data| && Layout() && message == m + data[..i] && !computed
        invariant corrupted == Success ==> Growing() && (i > 0 ==> 8 * |message| < BITS64)
        invariant corrupted != Success ==> corrupted == TooLong && 8 * |message| == BITS64
      {
        InputByte(data[i]);
        assert data[..i + 1] == data[..i] + [data[i]];
        i := i + 1;
      }
      assert corrupted == Success ==> data[..i] == data;
      ValidMake();
    }

    lemma ValidParts()
      requires Valid()
      ensures Layout() && (corrupted == Success && !computed ==> Growing())
              && (corrupted == Success && computed ==> HashNow() == Final(message))
      ensures corrupted == TooLong ==> 8 * |message| == BITS64
    {
      hide Growing, Final;
    }

    lemma ValidMake()
      requires Layout() && (corrupted == Success && !computed ==> Growing())
               && (corrupted == Success && computed ==> HashNow() == Final(message))
      requires corrupted == TooLong ==> 8 * |message| == BITS64
      ensures Valid()
    {
      hide Growing, Final;
    }

    /** Bytes at the end of the block are set to zero. */
    method FillZeros(end: nat)
      requires Layout() && blockIndex <= end <= 64
      modifies this`blockIndex, block
      ensures blockIndex == end
      ensures block[..] == old(block[..blockIndex]) + Zeros(end - old(blockIndex)) + old(block[end..])
    {
      ghost var from, blk := blockIndex, block[..];
      while blockIndex < end
        invariant from <= blockIndex <= end && block.Length == 64
        invariant forall i :: 0 <= i < 64 ==> block[i] == if from <= i < blockIndex then 0 else blk[i]
      {
        block[blockIndex] := 0;
        blockIndex := blockIndex + 1;
      }
    }

    method PutCounter(at: nat, n: nat)
      requires Layout() && at <= 60 && n < BITS32
      modifies block
      ensures block[..] == old(block[..at]) + CounterBytes(n) + old(block[at + 4..])
    {
      hide Byte;
      block[at] := Byte(n / 16777216);
      block[at + 1] := Byte(n / 65536 % 256);
      block[at + 2] := Byte(n / 256 % 256);
      block[at + 3] := Byte(n % 256);
    }

    /** The end of the block gets the length. */
    method PutLength()
      requires Layout() && Counted(lengthLow, lengthHigh, |message|)
      modifies block
      ensures block[..] == old(block[..56]) + LengthField(8 * |message|)
    {
      hide LengthField, CounterBytes;
      ghost var blk := block[..];
      FieldOf(lengthLow, lengthHigh, |message|);
      PutCounter(56, lengthHigh);
      PutCounter(60, lengthLow);
    }

    /** SHA1PadMessage: with both ways of padding the last block ends where it should. */
    method PadMessage()
      requires Growing()
      modifies this`blockIndex, hash, block
      ensures Layout() && HashNow() == Final(message)
    {
      hide *;
      GrowingParts();
      LayoutParts0();
      ghost var m, i, blk, h := message, blockIndex, block[..], HashNow();
      ghost var marked := blk[i := 0x80];
      if blockIndex > 55 {
        block[blockIndex] := 0x80;
        assert block[..] == marked;
        blockIndex := blockIndex + 1;
        FillZeros(64);
        ghost var first := block[..];
        Marked(blk, i, 64, first);
        ProcessMessageBlock();
        FillZeros(56);
        Cleared(first, block[..]);
        PutLength();
        PadLong(m, i, blk, h, first, block[..]);
        ProcessMessageBlock();
      } else {
        block[blockIndex] := 0x80;
        assert block[..] == marked;
        blockIndex := blockIndex + 1;
        FillZeros(56);
        Marked(blk, i, 56, block[..]);
        PutLength();
        PadShort(m, i, blk, h, block[..]);
        ProcessMessageBlock();
      }
    }

    /** SHA1Result: the digest of everything that was given, or the error. */
    method Result() returns (status: Status, digest: seq<bv8>)
      requires Valid()
      modifies this, hash, block
      ensures Valid() && message == old(message) && corrupted == old(corrupted) == status
      ensures status == Success ==> computed && digest == Digest(message)
    {
      hide *;
      ValidParts();
      status, digest := corrupted, [];
      if corrupted != Success {
        return;
      }
      if !computed {
        PadMessage();
        LayoutParts();
        var i := 0;
        while i < 64
          modifies block
        {
          block[i] := 0;
          i := i + 1;
        }
        HashIs();
        lengthLow, lengthHigh, computed := 0, 0, true;
      }
      HashIs();
      ValidMake();
      ghost var d := Digest(message);
      DigestIs(message, HashNow());
      var i := 0;
      while i < 20
        invariant 0 <= i <= 20 && digest == d[..i]
        modifies {}
      {
        DigestByte(HashNow(), i);
        digest := digest + [ByteOf(hash[i / 4], i % 4)];
        assert d[..i + 1] == d[..i] + [d[i]];
        i := i + 1;
      }
      assert d[..20] == d;
    }
  }

  lemma DigestIs(m: seq<bv8>, h: Hash)
    requires h == Final(m)
    ensures Digest(m) == DigestOf(h) && |DigestOf(h)| == 20
  {
    hide Final, ByteOf;
  }

  /** The block after the first padding byte and zeros up to end. */
  lemma Marked(blk: seq<bv8>, i: nat, end: nat, now: seq<bv8>)
    requires |blk| == 64 && i < end <= 64
             && var marked := blk[i := 0x80]; now == marked[..i + 1] + Zeros(end - (i + 1)) + marked[end..]
    ensures now[..end] == blk[..i] + [0x80] + Zeros(end - i - 1)
            && (end == 64 ==> now == blk[..i] + [0x80] + Zeros(63 - i))
  {
    var marked := blk[i := 0x80];
    assert marked[..i + 1] == blk[..i] + [0x80];
  }

  lemma Cleared(blk: seq<bv8>, now: seq<bv8>)
    requires |blk| == 64 && now == blk[..0] + Zeros(56) + blk[56..]
    ensures now[..56] == Zeros(56)
  {
  }

  lemma WordSize()
    ensures BITS32 == 4294967296
  {
  }

  // ---------- Any division into calls ----------

  function Joined(pieces: seq<seq<bv8>>): seq<bv8> {
    if pieces == [] then [] else Joined(pieces[..|pieces| - 1]) + pieces[|pieces| - 1]
  }

  /** A message given in pieces has the digest of the whole message, or is reported to be too long. */
  method DigestOfPieces(pieces: seq<seq<bv8>>) returns (status: Status, digest: seq<bv8>)
    ensures 8 * |Joined(pieces)| < BITS64 ==> status == Success && digest == Digest(Joined(pieces))
    ensures 8 * |Joined(pieces)| >= BITS64 ==> status == TooLong
  {
    hide *;
    var c := new Sha1Context();
    var i := 0;
    NothingJoined(pieces);
    while i < |pieces|
      invariant 0 <= i <= |pieces| && c.Valid() && !c.computed && fresh(c) && fresh(c.hash) && fresh(c.block)
      invariant 8 * |Joined(pieces[..i])| < BITS64 ==> c.corrupted == Success && c.message == Joined(pieces[..i])
      invariant 8 * |Joined(pieces[..i])| >= BITS64 ==> c.corrupted == TooLong
    {
      JoinedMore(pieces, i);
      var ignored := c.Input(pieces[i]);
      i := i + 1;
    }
    assert pieces[..|pieces|] == pieces;
    status, digest := c.Result();
  }

  lemma NothingJoined(pieces: seq<seq<bv8>>)
    ensures Joined(pieces[..0]) == [] && 0 < BITS64
  {
  }

  lemma JoinedMore(pieces: seq<seq<bv8>>, i: nat)
    requires i < |pieces|
    ensures Joined(pieces[..i + 1]) == Joined(pieces[..i]) + pieces[i]
  {
    var more := pieces[..i + 1];
    assert more[..|more| - 1] == pieces[..i] && more[|more| - 1] == pieces[i];
  }
}
