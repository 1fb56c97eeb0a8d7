/** Canonical prefix codes: the code a vector of code lengths 0..16 stands for. Length 0 marks an
    unused symbol. Shorter codes come first, and within one length smaller symbols. */
module Canonical {
  import opened Bits

  ghost predicate IsLengths(lens: seq<nat>) {
    forall i :: 0 <= i < |lens| ==> lens[i] <= 16
  }

  /** How many symbols have length l. */
  function Count(lens: seq<nat>, l: nat): (c: nat)
    ensures c <= |lens|
  {
    if lens == [] then 0
    else Count(lens[..|lens| - 1], l) + (if lens[|lens| - 1] == l then 1 else 0)
  }

  /** The first code number of length l. */
  function FirstCode(lens: seq<nat>, l: nat): nat {
    if l <= 1 then 0 else 2 * (FirstCode(lens, l - 1) + Count(lens, l - 1))
  }

  /** The lengths use up the whole code space: their Kraft sum, in units of 2^-16, is 65536. */
  ghost predicate Complete(lens: seq<nat>) {
    IsLengths(lens) && FirstCode(lens, 16) + Count(lens, 16) == 65536
  }

  function CodeNumber(lens: seq<nat>, s: nat): nat
    requires s < |lens|
  {
    FirstCode(lens, lens[s]) + Count(lens[..s], lens[s])
  }

  function Code(lens: seq<nat>, s: nat): (c: seq<bool>)
    requires s < |lens|
    ensures |c| == lens[s]
  {
    BitsOf(lens[s], CodeNumber(lens, s))
  }

  predicate Used(lens: seq<nat>, s: nat) {
    s < |lens| && lens[s] > 0
  }

  lemma {:induction false} CountSplit(lens: seq<nat>, s: nat, l: nat)
    requires s <= |lens|
    ensures Count(lens[..s], l) <= Count(lens, l)
    ensures s < |lens| && lens[s] == l ==> Count(lens[..s], l) < Count(lens, l)
  {
    var n := |lens|;
    if s < n {
      var front := lens[..n - 1];
      CountSplit(front, s, l);
      assert front[..s] == lens[..s];
    } else {
      assert lens[..s] == lens;
    }
  }

  lemma CountOneMore(lens: seq<nat>, s: nat, l: nat)
    requires s < |lens|
    ensures Count(lens[..s + 1], l) == Count(lens[..s], l) + (if lens[s] == l then 1 else 0)
  {
    var t := lens[..s + 1];
    assert t[..|t| - 1] == lens[..s];
  }

  // ---------- Code numbers on a common scale of 16 bits ----------

  /** x * 2^k, by doubling. */
  function Scale(x: nat, k: nat): nat
    decreases k, x
  {
    if k == 0 then x else Scale(2 * x, k - 1)
  }

  lemma {:induction false} ScaleMonotone(x: nat, y: nat, k: nat)
    requires x <= y
    ensures Scale(x, k) <= Scale(y, k)
    ensures x < y ==> Scale(x, k) + Pow2(k) <= Scale(y, k)
    decreases k
  {
    if k > 0 {
      ScaleMonotone(2 * x, 2 * y, k - 1);
      if x < y {
        ScaleMonotone(2 * x, 2 * x + 1, k - 1);
        ScaleMonotone(2 * x + 1, 2 * y, k - 1);
      }
    }
  }

  lemma {:induction false} ScaleStep(x: nat, k: nat)
    ensures Scale(x, k + 1) == Scale(2 * x, k) == 2 * Scale(x, k)
    ensures Scale(x + 1, k) == Scale(x, k) + Pow2(k)
    decreases k
  {
    if k > 0 {
      ScaleStep(2 * x, k - 1);
      ScaleStep(2 * x + 1, k - 1);
    }
  }

  lemma {:induction false} BitsOfScale(n: nat, x: nat, k: nat)
    ensures BitsOf(n + k, Scale(x, k)) == BitsOf(n, x) + Zeros(k)
    decreases k
  {
    if k > 0 {
      BitsOfScale(n + 1, 2 * x, k - 1);
      assert BitsOf(n + 1, 2 * x) == BitsOf(n, x) + [false];
    } else {
      assert BitsOf(n, x) + Zeros(0) == BitsOf(n, x);
    }
  }

  /** The first 16-bit word that starts with the code of s. */
  function First(lens: seq<nat>, s: nat): nat
    requires s < |lens| && lens[s] <= 16
  {
    Scale(CodeNumber(lens, s), 16 - lens[s])
  }

  /** Where the codes of length l start on the 16-bit scale. */
  function Start(lens: seq<nat>, l: nat): nat
    requires l <= 16
  {
    Scale(FirstCode(lens, l), 16 - l)
  }

  lemma {:induction false} StartStep(lens: seq<nat>, l: nat)
    requires 1 <= l < 16
    ensures Start(lens, l + 1) == Scale(FirstCode(lens, l) + Count(lens, l), 16 - l)
  {
    ScaleStep(FirstCode(lens, l) + Count(lens, l), 15 - l);
  }

  lemma {:induction false} StartMonotone(lens: seq<nat>, l: nat, m: nat)
    requires 1 <= l <= m <= 16
    ensures Start(lens, l) <= Start(lens, m)
  {
    if l < m {
      StartMonotone(lens, l, m - 1);
      StartStep(lens, m - 1);
      ScaleMonotone(FirstCode(lens, m - 1), FirstCode(lens, m - 1) + Count(lens, m - 1), 17 - m);
    }
  }

  /** The words of code s end before those of any later code, and within the code space. */
  lemma CodeEnds(lens: seq<nat>, s: nat)
    requires Complete(lens) && Used(lens, s)
    ensures First(lens, s) + Pow2(16 - lens[s]) <= 65536
    ensures lens[s] < 16 ==> First(lens, s) + Pow2(16 - lens[s]) <= Start(lens, lens[s] + 1)
    ensures Start(lens, lens[s]) <= First(lens, s)
  {
    var l := lens[s];
    CountSplit(lens, s, l);
    ScaleMonotone(FirstCode(lens, l), CodeNumber(lens, s), 16 - l);
    ScaleMonotone(CodeNumber(lens, s), FirstCode(lens, l) + Count(lens, l), 16 - l);
    if l < 16 {
      StartStep(lens, l);
      StartMonotone(lens, l + 1, 16);
    }
  }

  /** Later in code order. */
  ghost predicate After(lens: seq<nat>, s: nat, t: nat)
    requires s < |lens| && t < |lens|
  {
    lens[s] < lens[t] || (lens[s] == lens[t] && s < t)
  }

  lemma CodesApart(lens: seq<nat>, s: nat, t: nat)
    requires Complete(lens) && Used(lens, s) && Used(lens, t) && After(lens, s, t)
    ensures First(lens, s) + Pow2(16 - lens[s]) <= First(lens, t)
  {
    var l := lens[s];
    if l == lens[t] {
      CountSplit(lens[..t], s, l);
      assert lens[..t][..s] == lens[..s];
      ScaleMonotone(CodeNumber(lens, s), CodeNumber(lens, t), 16 - l);
    } else {
      CodeEnds(lens, s);
      CodeEnds(lens, t);
      StartMonotone(lens, l + 1, lens[t]);
    }
  }

  lemma {:induction false} NumberFits(lens: seq<nat>, s: nat)
    requires Complete(lens) && Used(lens, s)
    ensures CodeNumber(lens, s) < Pow2(lens[s])
  {
    CodeEnds(lens, s);
    Pow2Values();
    if CodeNumber(lens, s) >= Pow2(lens[s]) {
      ScaleMonotone(Pow2(lens[s]), CodeNumber(lens, s), 16 - lens[s]);
      ScalePow2(lens[s], 16 - lens[s]);
    }
  }

  lemma {:induction false} ScalePow2(a: nat, k: nat)
    ensures Scale(Pow2(a), k) == Pow2(a + k)
    decreases k
  {
    if k > 0 {
      ScalePow2(a + 1, k - 1);
    }
  }

  // ---------- Words and codes ----------

  lemma {:induction false} ValueShift(b: seq<bool>, n: nat)
    requires n <= |b|
    ensures Scale(ValueOf(b[..n]), |b| - n) <= ValueOf(b) < Scale(ValueOf(b[..n]) + 1, |b| - n)
    decreases |b|
  {
    if n < |b| {
      var c := b[..|b| - 1];
      ValueShift(c, n);
      assert c[..n] == b[..n];
      ScaleStep(ValueOf(b[..n]), |c| - n);
      ScaleStep(ValueOf(b[..n]) + 1, |c| - n);
    } else {
      assert b[..n] == b;
    }
  }

  /** A 16-bit word starts with the code of s exactly when its value lies in the range of s. */
  lemma CodeRange(lens: seq<nat>, s: nat, b: seq<bool>)
    requires Complete(lens) && Used(lens, s) && |b| == 16
    ensures Code(lens, s) <= b <==> First(lens, s) <= ValueOf(b) < First(lens, s) + Pow2(16 - lens[s])
  {
    hide Pow2, ValueOf, BitsOf, Scale, CodeNumber, Complete;
    var l, c := lens[s], CodeNumber(lens, s);
    assert l <= 16 by { LengthsBounded(lens, s); }
    var top := ValueOf(b[..l]);
    ValueShift(b, l);
    ScaleStep(c, 16 - l);
    NumberFits(lens, s);
    ValueOfBits(l, c);
    BitsOfValue(b[..l]);
    if top < c {
      ScaleMonotone(top + 1, c, 16 - l);
    } else if top > c {
      ScaleMonotone(c + 1, top, 16 - l);
    } else {
      assert Code(lens, s) == b[..l];
    }
    assert Code(lens, s) <= b ==> Code(lens, s) == b[..l];
  }

  /** No code is the start of another. */
  lemma PrefixFree(lens: seq<nat>, s: nat, t: nat)
    requires Complete(lens) && Used(lens, s) && Used(lens, t) && Code(lens, s) <= Code(lens, t)
    ensures s == t
  {
    var b := Code(lens, t) + Zeros(16 - lens[t]);
    assert Code(lens, t) <= b;
    assert Code(lens, s) <= b;
    CodeRange(lens, s, b);
    CodeRange(lens, t, b);
    if s != t {
      if After(lens, s, t) { CodesApart(lens, s, t); } else { CodesApart(lens, t, s); }
    }
  }

  lemma {:induction false} RankedSymbol(lens: seq<nat>, l: nat, r: nat) returns (s: nat)
    requires r < Count(lens, l)
    ensures s < |lens| && lens[s] == l && Count(lens[..s], l) == r
  {
    var n := |lens| - 1;
    if lens[n] == l && Count(lens[..n], l) == r {
      s := n;
    } else {
      s := RankedSymbol(lens[..n], l, r);
      assert lens[..n][..s] == lens[..s];
    }
  }

  lemma {:induction false} LengthOfWord(lens: seq<nat>, v: nat, m: nat) returns (l: nat)
    requires IsLengths(lens) && 1 <= m <= 16 && v < Scale(FirstCode(lens, m) + Count(lens, m), 16 - m)
    ensures 1 <= l <= m && Start(lens, l) <= v < Scale(FirstCode(lens, l) + Count(lens, l), 16 - l)
    decreases m
  {
    if Start(lens, m) <= v {
      l := m;
    } else {
      if m == 1 {
        ScaleZero(15);
      } else {
        StartStep(lens, m - 1);
      }
      l := LengthOfWord(lens, v, m - 1);
    }
  }

  lemma {:induction false} ScaleZero(k: nat)
    ensures Scale(0, k) == 0
  {
    if k > 0 {
      ScaleZero(k - 1);
    }
  }

  lemma {:induction false} ScaleDivide(base: nat, n: nat, k: nat, v: nat) returns (r: nat)
    requires Scale(base, k) <= v < Scale(base + n, k)
    ensures r < n && Scale(base + r, k) <= v < Scale(base + r + 1, k)
    decreases n
  {
    if n > 0 && Scale(base + n - 1, k) <= v {
      r := n - 1;
    } else if n > 0 {
      r := ScaleDivide(base, n - 1, k, v);
    } else {
      assert false;
    }
  }

  /** Every 16-bit word starts with some code. */
  lemma EveryWordDecodes(lens: seq<nat>, b: seq<bool>) returns (s: nat)
    requires Complete(lens) && |b| == 16
    ensures Used(lens, s) && Code(lens, s) <= b
  {
    hide ValueOf, FirstCode, Count, Code, IsLengths;
    var v := ValueOf(b);
    ValueBelow(b);
    Pow2Values();
    var l := LengthOfWord(lens, v, 16);
    var r := ScaleDivide(FirstCode(lens, l), Count(lens, l), 16 - l, v);
    s := RankedSymbol(lens, l, r);
    ScaleStep(FirstCode(lens, l) + r, 16 - l);
    CodeRange(lens, s, b);
  }

  lemma {:induction false} ScaleAdd(x: nat, y: nat, k: nat)
    ensures Scale(x + y, k) == Scale(x, k) + Scale(y, k)
    decreases k
  {
    if k > 0 {
      ScaleAdd(2 * x, 2 * y, k - 1);
    }
  }

  /** Where the codes of length tb end, as a number of tb bits. */
  function LongFrom(lens: seq<nat>, tb: nat): nat {
    FirstCode(lens, tb) + Count(lens, tb)
  }

  lemma ScaleNone(x: nat)
    ensures Scale(x, 0) == x
  {
  }

  lemma FirstStart(lens: seq<nat>)
    ensures Start(lens, 1) == 0
  {
    ScaleZero(15);
  }

  lemma NextStart(lens: seq<nat>, l: nat)
    requires 1 <= l <= 16
    ensures Start(lens, l) + Scale(Count(lens, l), 16 - l)
            == (if l == 16 then LongFrom(lens, 16) else Start(lens, l + 1))
  {
    hide FirstCode, Count;
    ScaleAdd(FirstCode(lens, l), Count(lens, l), 16 - l);
    if l < 16 {
      StartStep(lens, l);
    } else {
      ScaleNone(LongFrom(lens, 16));
    }
  }

  lemma CompleteLengths(lens: seq<nat>)
    requires Complete(lens)
    ensures IsLengths(lens)
  {
  }

  lemma CompleteSum(lens: seq<nat>)
    requires IsLengths(lens)
    ensures Complete(lens) <==> LongFrom(lens, 16) == 65536
  {
  }

  /** Pigeonhole: distinct numbers below n are at most n. */
  lemma {:induction false} DistinctBelow(s: seq<nat>, n: nat)
    requires forall i :: 0 <= i < |s| ==> s[i] < n
    requires forall i, j :: 0 <= i < j < |s| ==> s[i] != s[j]
    ensures |s| <= n
  {
    if s != [] {
      assert s[0] < n;
      if i :| 0 <= i < |s| && s[i] == n - 1 {
        DistinctBelow(s[..i] + s[i + 1..], n - 1);
      } else {
        DistinctBelow(s, n - 1);
      }
    }
  }

  // ---------- The encoder's code table ----------

  /** make_code: code numbers from the counts of each length. Codes are 16-bit. */
  method MakeCode(cnt: array<nat>, len: array<nat>, n: nat, code: array<nat>)
    requires cnt.Length == 17 && len != code && cnt != code
    requires n <= len.Length && n <= code.Length && n < 65536
    requires Complete(len[..n])
    requires forall l :: 1 <= l <= 16 ==> cnt[l] == Count(len[..n], l)
    modifies code
    ensures forall i :: 0 <= i < n && len[i] > 0 ==> code[i] == CodeNumber(len[..n], i)
    ensures code[n..] == old(code[n..])
  {
    hide Pow2, Complete, Wrap16, FirstCode, Count;
    ghost var lens := len[..n];
    var start := new nat[18](i => 0);
    StartOfFirst(lens);
    for i := 1 to 17
      invariant forall l :: 1 <= l <= i ==> start[l] == Wrap16(FirstCode(lens, l))
      invariant code[..] == old(code[..])
    {
      start[i + 1] := Wrap16(2 * (start[i] + cnt[i]));
      DoubleWraps(lens, i);
    }
    CountsStartAtZero(start[..], lens);
    for i := 0 to n
      invariant StartsAre(start[..], lens, i)
      invariant forall j :: 0 <= j < i && len[j] > 0 ==> code[j] == CodeNumber(lens, j)
      invariant code[n..] == old(code[n..])
    {
      ghost var was := start[..];
      var l := len[i];
      assert l == lens[i] && l <= 16 by { LengthsBounded(lens, i); }
      code[i] := start[l];
      start[l] := Wrap16(start[l] + 1);
      OneMoreStart(was, lens, i);
      assert start[..] == was[l := Wrap16(was[l] + 1)];
    }
  }

  /** Truncation to uint16_t. */
  function Wrap16(x: nat): nat {
    x % 65536
  }

  /** The running code number of every length once the first i symbols have theirs. */
  ghost predicate StartsAre(start: seq<nat>, lens: seq<nat>, i: nat)
    requires i <= |lens|
  {
    |start| == 18
    && forall l :: 1 <= l <= 16 ==> start[l] == Wrap16(FirstCode(lens, l) + Count(lens[..i], l))
  }

  lemma LengthsBounded(lens: seq<nat>, i: nat)
    requires Complete(lens) && i < |lens|
    ensures lens[i] <= 16
  {
  }

  lemma StartOfFirst(lens: seq<nat>)
    ensures Wrap16(FirstCode(lens, 1)) == 0
  {
  }

  lemma DoubleWraps(lens: seq<nat>, l: nat)
    requires 1 <= l
    ensures Wrap16(2 * (Wrap16(FirstCode(lens, l)) + Count(lens, l))) == Wrap16(FirstCode(lens, l + 1))
  {
    hide Count;
    DoubleMod(FirstCode(lens, l), Count(lens, l));
  }

  lemma WholeMultiple(k: nat, y: nat)
    ensures Wrap16(65536 * k + y) == Wrap16(y)
  {
  }

  lemma DoubleMod(x: nat, c: nat)
    ensures Wrap16(2 * (Wrap16(x) + c)) == Wrap16(2 * (x + c))
  {
    var q := x / 65536;
    assert 2 * (x + c) == 65536 * (2 * q) + 2 * (Wrap16(x) + c);
    WholeMultiple(2 * q, 2 * (Wrap16(x) + c));
  }

  lemma CountsStartAtZero(start: seq<nat>, lens: seq<nat>)
    requires |start| == 18 && forall l :: 1 <= l <= 16 ==> start[l] == Wrap16(FirstCode(lens, l))
    ensures StartsAre(start, lens, 0)
  {
  }

  lemma OneMoreStart(start: seq<nat>, lens: seq<nat>, i: nat)
    requires Complete(lens) && i < |lens| && StartsAre(start, lens, i)
    ensures lens[i] <= 16 && StartsAre(start[lens[i] := Wrap16(start[lens[i]] + 1)], lens, i + 1)
    ensures lens[i] > 0 ==> start[lens[i]] == CodeNumber(lens, i)
  {
    CountEach(lens, i);
    if lens[i] > 0 {
      NumberIs16Bit(lens, i);
    }
  }

  lemma CountEach(lens: seq<nat>, s: nat)
    requires s < |lens|
    ensures forall l :: 0 <= l <= 16 ==>
              Count(lens[..s + 1], l) == Count(lens[..s], l) + (if lens[s] == l then 1 else 0)
  {
    forall l | 0 <= l <= 16
      ensures Count(lens[..s + 1], l) == Count(lens[..s], l) + (if lens[s] == l then 1 else 0)
    {
      CountOneMore(lens, s, l);
    }
  }

  lemma NumberIs16Bit(lens: seq<nat>, s: nat)
    requires Complete(lens) && Used(lens, s)
    ensures CodeNumber(lens, s) < 65536
  {
    NumberFits(lens, s);
    Pow2Monotone(lens[s], 16);
    Pow2Values();
  }
}
