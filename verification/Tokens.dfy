/** Tokens: literals and matches over the bytes already produced, with the queue of the three most
    recent match offsets, and the bits that stand for a token under given code lengths. */
module Tokens {
  import opened Bits
  import opened Canonical
  import opened Slots

  /** A match copies len bytes. Its distance 0, 1 or 2 names an entry of the queue; any other is an
      offset plus 2. */
  datatype Token = Literal(b: byte) | Match(len: nat, dist: nat)

  datatype Queue = Queue(r0: nat, r1: nat, r2: nat)

  /** The bytes so far and the queue after them. */
  datatype Past = Past(hist: seq<byte>, queue: Queue)

  const FRAME: nat := 32768
  const FIRST_QUEUE := Queue(1, 1, 1)

  function Offset(q: Queue, dist: nat): nat {
    if dist == 0 then q.r0 else if dist == 1 then q.r1 else if dist == 2 then q.r2 else dist - 2
  }

  /** The queue after a match: a repeated offset changes places with the first, a new one pushes. */
  function Renew(q: Queue, dist: nat): Queue {
    if dist == 0 then q
    else if dist == 1 then Queue(q.r1, q.r0, q.r2)
    else if dist == 2 then Queue(q.r2, q.r1, q.r0)
    else Queue(dist - 2, q.r0, q.r1)
  }

  /** n bytes copied one at a time from off bytes back; the copy may overlap what it writes. */
  function Copy(h: seq<byte>, off: nat, n: nat): (r: seq<byte>)
    requires 1 <= off <= |h|
    ensures |r| == |h| + n
    decreases n, h
  {
    if n == 0 then h else Copy(h + [h[|h| - off]], off, n - 1)
  }

  function Width(t: Token): nat {
    if t.Literal? then 1 else t.len
  }

  /** The token stays within the current frame, and a match within the window and the past. */
  predicate Fits(p: Past, t: Token) {
    && |p.hist| % FRAME + Width(t) <= FRAME
    && (t.Match? ==> 2 <= t.len <= 257 && t.dist < WINDOW
                     && 1 <= Offset(p.queue, t.dist) <= |p.hist| && Offset(p.queue, t.dist) <= WINDOW)
  }

  function Play(p: Past, t: Token): (r: Past)
    requires Fits(p, t)
    ensures |r.hist| == |p.hist| + Width(t)
  {
    match t
    case Literal(b) => Past(p.hist + [b], p.queue)
    case Match(len, dist) => Past(Copy(p.hist, Offset(p.queue, dist), len), Renew(p.queue, dist))
  }

  predicate FitsAll(p: Past, ts: seq<Token>)
    decreases |ts|
  {
    ts == [] || (Fits(p, ts[0]) && FitsAll(Play(p, ts[0]), ts[1..]))
  }

  function PlayAll(p: Past, ts: seq<Token>): Past
    requires FitsAll(p, ts)
    decreases |ts|
  {
    if ts == [] then p else PlayAll(Play(p, ts[0]), ts[1..])
  }

  lemma {:induction false} PlayConcat(p: Past, a: seq<Token>, b: seq<Token>)
    ensures FitsAll(p, a + b) <==> FitsAll(p, a) && FitsAll(PlayAll(p, a), b)
    ensures FitsAll(p, a + b) ==> PlayAll(p, a + b) == PlayAll(PlayAll(p, a), b)
    decreases |a|
  {
    hide Fits, Play;
    if a == [] {
      assert a + b == b;
    } else {
      assert (a + b)[0] == a[0] && (a + b)[1..] == a[1..] + b;
      if Fits(p, a[0]) {
        PlayConcat(Play(p, a[0]), a[1..], b);
      }
    }
  }

  lemma PlayNone(p: Past)
    ensures FitsAll(p, []) && PlayAll(p, []) == p
  {
  }

  lemma PlayOne(p: Past, t: Token)
    ensures FitsAll(p, [t]) <==> Fits(p, t)
    ensures Fits(p, t) ==> PlayAll(p, [t]) == Play(p, t)
  {
    hide Fits, Play;
    assert [t][1..] == [];
    if Fits(p, t) {
      PlayNone(Play(p, t));
    }
  }

  /** The bytes a list of tokens stands for. */
  function TotalWidth(ts: seq<Token>): nat {
    if ts == [] then 0 else TotalWidth(ts[..|ts| - 1]) + Width(ts[|ts| - 1])
  }

  // ---------- Bits ----------

  /** The code lengths of the main tree, of the tree of long lengths, and of the tree of the low
      three distance bits. */
  datatype Codes = Codes(main: seq<nat>, sec: seq<nat>, al: seq<nat>)

  const MAIN: nat := 528
  const SECONDARY: nat := 249
  const ALIGNED: nat := 8

  /** The main tree codes a literal, or a slot together with a short length; 7 announces a longer one. */
  ghost function MainSymbol(t: Token): (s: nat)
    requires t.Match? ==> 2 <= t.len && t.dist < WINDOW
    ensures s < MAIN
  {
    match t
    case Literal(b) => b as int
    case Match(len, dist) =>
      WindowSlots(dist);
      256 + 8 * SlotOf(dist) + Min(len - 2, 7)
  }

  predicate Long(t: Token) {
    t.Match? && t.len >= 9
  }

  ghost predicate LowBitsApart(aligned: bool, dist: nat)
    requires dist < WINDOW
  {
    aligned && Extra(SlotOf(dist)) >= 3
  }

  ghost function OffsetBits(c: Codes, aligned: bool, dist: nat): seq<bool>
    requires dist < WINDOW && |c.al| == ALIGNED
  {
    var e := Extra(SlotOf(dist));
    if LowBitsApart(aligned, dist) then BitsOf(e - 3, Mask(dist / 8, e - 3)) + Code(c.al, dist % 8)
    else BitsOf(e, Mask(dist, e))
  }

  ghost function LengthBits(c: Codes, t: Token): seq<bool>
    requires t.Match? ==> 2 <= t.len <= 257
    requires |c.sec| == SECONDARY
  {
    if Long(t) then Code(c.sec, t.len - 9) else []
  }

  predicate Shaped(c: Codes) {
    |c.main| == MAIN && |c.sec| == SECONDARY && |c.al| == ALIGNED
  }

  predicate Plain(t: Token) {
    t.Match? ==> 2 <= t.len <= 257 && t.dist < WINDOW
  }

  ghost function TokenBits(c: Codes, aligned: bool, t: Token): seq<bool>
    requires Shaped(c) && Plain(t)
  {
    Code(c.main, MainSymbol(t)) + (LengthBits(c, t) + if t.Match? then OffsetBits(c, aligned, t.dist) else [])
  }

  /** The trees have the codes that a token needs. */
  ghost predicate Served(c: Codes, aligned: bool, t: Token)
    requires Shaped(c) && Plain(t)
  {
    && Used(c.main, MainSymbol(t)) && Complete(c.main)
    && (Long(t) ==> Used(c.sec, t.len - 9) && Complete(c.sec))
    && (t.Match? && LowBitsApart(aligned, t.dist) ==> Used(c.al, t.dist % 8) && Complete(c.al))
  }

  /** Base, high bits and low bits make up the distance again. */
  lemma AlignedParts(dist: nat)
    requires dist < WINDOW && Extra(SlotOf(dist)) >= 3
    ensures var m := SlotOf(dist); Base(m) + 8 * Mask(dist / 8, Extra(m) - 3) + dist % 8 == dist
  {
    hide Base, Extra, Pow2;
    var m := SlotOf(dist);
    var e := Extra(m);
    var p := Pow2(e - 3);
    PowEight(e - 3);
    SlotAligned(m);
    var k := Base(m) / (8 * p);
    Quotient(8 * p, Base(m));
    EightTimes(k, p, Base(m), dist);
    RemainderOf(p, k, dist / 8 - k * p);
  }

  /** The offset of distance 43, place 11 of the slot that starts at 32: four bits, or the highest of them and then
      the code of the other three. */
  lemma OffsetOf43(c: Codes)
    requires |c.al| == ALIGNED
    ensures OffsetBits(c, false, 43) == [true, false, true, true]
    ensures OffsetBits(c, true, 43) == [true] + Code(c.al, 3)
  {
    hide Code, Pow2, SlotOf;
    Powers();
    SlotUnique(43, 10, SlotOf(43));
    assert BitsOf(2, 2) == [true, false];
    assert BitsOf(4, 11) == BitsOf(2, 2) + [true] + [true];
    assert BitsOf(1, 1) == [true];
  }

  lemma PowEight(k: nat)
    ensures Pow2(k + 3) == 8 * Pow2(k)
  {
    PowStep(k);
    PowStep(k + 1);
    PowStep(k + 2);
  }

  lemma EightTimes(k: nat, p: nat, base: nat, dist: nat)
    requires k * (8 * p) == base && base <= dist < base + 8 * p
    ensures base == 8 * (k * p) && k * p <= dist / 8 < k * p + p
  {
    assert k * (8 * p) == 8 * (k * p);
  }

  /** What the main symbol says about a match. */
  lemma SymbolParts(t: Token)
    requires Plain(t)
    ensures t.Literal? <==> MainSymbol(t) < 256
    ensures t.Literal? ==> MainSymbol(t) == t.b as int
    ensures t.Match? ==> (MainSymbol(t) - 256) / 8 == SlotOf(t.dist)
    ensures t.Match? ==> (MainSymbol(t) - 256) % 8 == Min(t.len - 2, 7)
  {
  }
}
