/** The least cost of a prefix code. A code is seen as a list of (weight, length) pairs; its cost is
    the sum of weight times length. */
module Optimal {
  import opened Bags
  import opened Bits

  type Pair = (nat, nat)

  /** What a list of pairs adds up to: its cost, its Kraft sum in units of 2^-d, and its weights and
      lengths as multisets. */
  datatype Measure = Measure(cost: nat, kraft: nat, weights: multiset<nat>, lengths: multiset<nat>)

  function Plus(a: Measure, b: Measure): Measure {
    Measure(a.cost + b.cost, a.kraft + b.kraft, a.weights + b.weights, a.lengths + b.lengths)
  }

  function Product(w: nat, l: nat): nat {
    w * l
  }

  function One(p: Pair, d: nat): Measure {
    Measure(Product(p.0, p.1), if p.1 <= d then Pow2(d - p.1) else 0, multiset{p.0}, multiset{p.1})
  }

  function Sum(ps: seq<Pair>, d: nat): Measure {
    if ps == [] then Measure(0, 0, multiset{}, multiset{}) else Plus(One(ps[0], d), Sum(ps[1..], d))
  }

  ghost predicate AtMost(ps: seq<Pair>, d: nat) {
    forall i :: 0 <= i < |ps| ==> ps[i].1 <= d
  }

  function Without<T>(ps: seq<T>, i: nat): (r: seq<T>)
    requires i < |ps|
    ensures |r| == |ps| - 1
  {
    ps[..i] + ps[i + 1..]
  }

  lemma PlusSwap(a: Measure, b: Measure, c: Measure)
    ensures Plus(a, Plus(b, c)) == Plus(b, Plus(a, c))
  {
  }

  /** A sum does not depend on the order: any element may be taken out first. */
  lemma {:induction false} TakeOut(ps: seq<Pair>, i: nat, d: nat)
    requires i < |ps|
    ensures Sum(ps, d) == Plus(One(ps[i], d), Sum(Without(ps, i), d))
  {
    hide Plus, One;
    var r := Without(ps, i);
    if i == 0 {
      assert r == ps[1..];
    } else {
      TakeOut(ps[1..], i - 1, d);
      assert r[0] == ps[0] && r[1..] == Without(ps[1..], i - 1);
      PlusSwap(One(ps[0], d), One(ps[i], d), Sum(r[1..], d));
    }
  }

  lemma {:induction false} FindWeight(ps: seq<Pair>, d: nat, w: nat) returns (i: nat)
    requires w in Sum(ps, d).weights
    ensures i < |ps| && ps[i].0 == w
  {
    hide Pow2;
    if ps[0].0 == w {
      i := 0;
    } else {
      i := FindWeight(ps[1..], d, w);
      i := i + 1;
    }
  }

  lemma {:induction false} FindLength(ps: seq<Pair>, d: nat, l: nat) returns (i: nat)
    requires l in Sum(ps, d).lengths
    ensures i < |ps| && ps[i].1 == l
  {
    hide Pow2;
    if ps[0].1 == l {
      i := 0;
    } else {
      i := FindLength(ps[1..], d, l);
      i := i + 1;
    }
  }

  lemma Members(ps: seq<Pair>, i: nat, d: nat)
    requires i < |ps|
    ensures ps[i].0 in Sum(ps, d).weights && ps[i].1 in Sum(ps, d).lengths
  {
    hide Pow2, Sum;
    TakeOut(ps, i, d);
  }

  lemma {:induction false} SumSize(ps: seq<Pair>, d: nat)
    ensures |Sum(ps, d).weights| == |ps|
  {
    hide Pow2;
    if ps != [] {
      SumSize(ps[1..], d);
    }
  }

  // ---------- Exchange ----------

  /** Give the length of pair i to pair j and take out pair i. */
  function Swapped(ps: seq<Pair>, i: nat, j: nat): (r: seq<Pair>)
    requires i < |ps| && j < |ps|
    ensures |r| == |ps| - 1
  {
    Without(ps[j := (ps[j].0, ps[i].1)], i)
  }

  lemma CrossProducts(a: nat, b: nat, x: nat, y: nat)
    requires a <= b && x <= y
    ensures Product(a, y) + Product(b, x) <= Product(a, x) + Product(b, y)
  {
    assert (b - a) * (y - x) >= 0;
    assert (b - a) * (y - x) == b * y - b * x - a * y + a * x;
  }

  /** s costs no more than t, and all else is equal. */
  ghost predicate NoDearer(s: Measure, t: Measure) {
    s.cost <= t.cost && s.kraft == t.kraft && s.weights == t.weights && s.lengths == t.lengths
  }

  lemma ExchangeTwo(p: Pair, q: Pair, d: nat, r: Measure)
    requires p.0 <= q.0 && p.1 <= q.1
    ensures NoDearer(Plus(One((p.0, q.1), d), Plus(One((q.0, p.1), d), r)), Plus(One(p, d), Plus(One(q, d), r)))
  {
    hide Product, Pow2;
    CrossProducts(p.0, q.0, p.1, q.1);
  }

  /** A light pair may as well have the longest length: pair i gets the length of pair j, for no more
      cost, and all else stays. */
  lemma Exchange(ps: seq<Pair>, i: nat, j: nat, d: nat)
    requires i < |ps| && j < |ps| && ps[i].0 <= ps[j].0 && ps[i].1 <= ps[j].1 && AtMost(ps, d)
    ensures AtMost(Swapped(ps, i, j), d)
    ensures NoDearer(Plus(One((ps[i].0, ps[j].1), d), Sum(Swapped(ps, i, j), d)), Sum(ps, d))
  {
    hide Pow2, Sum, Plus, One;
    if i != j {
      var qs := ps[j := (ps[j].0, ps[i].1)];
      var j' := if j < i then j else j - 1;
      var p', q' := Without(ps, i), Without(qs, i);
      TakeOut(ps, i, d);
      TakeOut(p', j', d);
      TakeOut(q', j', d);
      assert Without(p', j') == Without(q', j');
      ExchangeTwo(ps[i], ps[j], d, Sum(Without(p', j'), d));
    } else {
      assert ps[j := (ps[j].0, ps[i].1)] == ps;
      TakeOut(ps, i, d);
    }
  }

  // ---------- Sorted assignment is the cheapest ----------

  ghost predicate Opposed(qs: seq<Pair>) {
    forall i, j :: 0 <= i < j < |qs| ==> qs[i].0 <= qs[j].0 && qs[i].1 >= qs[j].1
  }

  /** Among all ways of matching the same weights with the same lengths, lighter-is-longer is the
      cheapest. */
  lemma {:induction false} Rearrangement(ps: seq<Pair>, qs: seq<Pair>, d: nat)
    requires Opposed(qs) && AtMost(ps, d)
    requires Sum(ps, d).weights == Sum(qs, d).weights && Sum(ps, d).lengths == Sum(qs, d).lengths
    ensures Sum(qs, d).cost <= Sum(ps, d).cost
    decreases |qs|
  {
    hide Pow2, AtMost, Sum, Plus, One, Opposed;
    if qs != [] {
      Members(qs, 0, d);
      var i := FindWeight(ps, d, qs[0].0);
      var j := FindLength(ps, d, qs[0].1);
      LeastFirst(qs, d);
      Members(ps, j, d);
      Members(ps, i, d);
      Exchange(ps, i, j, d);
      var r := Swapped(ps, i, j);
      TakeOut(qs, 0, d);
      assert Without(qs, 0) == qs[1..];
      Cancel(One(qs[0], d), Sum(r, d), Sum(qs[1..], d));
      OpposedTail(qs);
      Rearrangement(r, qs[1..], d);
    } else {
      assert Sum(qs, d).cost == 0 by { EmptySum(d); }
    }
  }

  lemma EmptySum(d: nat)
    ensures Sum([], d).cost == 0
  {
  }

  lemma OpposedTail(qs: seq<Pair>)
    requires qs != [] && Opposed(qs)
    ensures Opposed(qs[1..])
  {
  }

  lemma Cancel(a: Measure, b: Measure, c: Measure)
    requires Plus(a, b).weights == Plus(a, c).weights && Plus(a, b).lengths == Plus(a, c).lengths
    ensures b.weights == c.weights && b.lengths == c.lengths
    ensures Plus(a, b).cost - b.cost == Plus(a, c).cost - c.cost
  {
    assert b.weights == Plus(a, b).weights - a.weights && c.weights == Plus(a, c).weights - a.weights;
    assert b.lengths == Plus(a, b).lengths - a.lengths && c.lengths == Plus(a, c).lengths - a.lengths;
  }

  lemma LeastFirst(qs: seq<Pair>, d: nat)
    requires qs != [] && Opposed(qs)
    ensures forall w :: w in Sum(qs, d).weights ==> qs[0].0 <= w
    ensures forall l :: l in Sum(qs, d).lengths ==> l <= qs[0].1
  {
    hide Sum;
    forall w | w in Sum(qs, d).weights
      ensures qs[0].0 <= w
    {
      var i := FindWeight(qs, d, w);
    }
    forall l | l in Sum(qs, d).lengths
      ensures l <= qs[0].1
    {
      var i := FindLength(qs, d, l);
    }
  }

  // ---------- The least cost of a set of weights ----------

  ghost predicate IsLeast(m: multiset<nat>, x: nat) {
    x in m && forall y :: y in m ==> x <= y
  }

  lemma LeastBelow(m: multiset<nat>, x: nat)
    requires x in m
    ensures exists y :: IsLeast(m, y)
  {
    if !IsLeast(m, x) {
      var y :| y in m && y < x;
      LeastBelow(m, y);
    }
  }

  ghost function Least(m: multiset<nat>): (x: nat)
    requires |m| > 0
    ensures IsLeast(m, x)
  {
    var z :| z in m;
    LeastBelow(m, z);
    var x :| IsLeast(m, x);
    x
  }

  /** The weights a and b are replaced by their sum. */
  function Join2(m: multiset<nat>, a: nat, b: nat): multiset<nat> {
    Take(Take(m, a), b) + multiset{a + b}
  }

  /** The weights after the two least have been joined. */
  ghost function Joined(m: multiset<nat>): (r: multiset<nat>)
    requires |m| >= 2
    ensures |r| == |m| - 1
  {
    var a := Least(m);
    Join2(m, a, Least(Take(m, a)))
  }

  /** The sum of the two least weights. */
  ghost function LeastTwo(m: multiset<nat>): nat
    requires |m| >= 2
  {
    var a := Least(m);
    a + Least(Take(m, a))
  }

  /** Huffman's total: join the two least weights until one is left, adding up the sums. */
  ghost function Huffman(m: multiset<nat>): nat
    decreases |m|
  {
    if |m| < 2 then 0 else LeastTwo(m) + Huffman(Joined(m))
  }

  lemma {:induction false} KraftHalves(ps: seq<Pair>, d: nat)
    requires AtMost(ps, d)
    ensures Sum(ps, d + 1).kraft == 2 * Sum(ps, d).kraft
    ensures Sum(ps, d + 1).cost == Sum(ps, d).cost && Sum(ps, d + 1).weights == Sum(ps, d).weights
  {
    if ps != [] {
      KraftHalves(ps[1..], d);
      assert Pow2(d + 1 - ps[0].1) == 2 * Pow2(d - ps[0].1);
    }
  }

  lemma {:induction false} NoneAtDepthZero(ps: seq<Pair>)
    requires AtMost(ps, 0)
    ensures Sum(ps, 0).kraft == |ps|
  {
    if ps != [] {
      NoneAtDepthZero(ps[1..]);
    }
  }

  /** No prefix code of these weights costs less than Huffman's total. */
  lemma {:induction false} LowerBound(ps: seq<Pair>, d: nat)
    requires AtMost(ps, d) && Sum(ps, d).kraft <= Pow2(d)
    ensures Huffman(Sum(ps, d).weights) <= Sum(ps, d).cost
    decreases |ps|, d, 2
  {
    hide Sum, Plus, One, Huffman, Pow2;
    SumSize(ps, d);
    if |ps| < 2 {
      HuffmanOfOne(Sum(ps, d).weights);
    } else if d > 0 && AtMost(ps, d - 1) {
      KraftHalves(ps, d - 1);
      PowStep(d - 1);
      LowerBound(ps, d - 1);
    } else if d == 0 {
      NoneAtDepthZero(ps);
      PowOfZero();
      assert false;
    } else {
      var j :| 0 <= j < |ps| && ps[j].1 == d;
      LowerBoundAtDepth(ps, d, j);
    }
  }

  lemma PowOfZero()
    ensures Pow2(0) == 1
  {
  }

  lemma HuffmanOfOne(m: multiset<nat>)
    requires |m| < 2
    ensures Huffman(m) == 0
  {
  }

  /** The case in which some pair has the greatest length d: the lightest gets it, and so does the
      second lightest unless the lightest can be shortened. */
  lemma {:induction false} LowerBoundAtDepth(ps: seq<Pair>, d: nat, j: nat)
    requires AtMost(ps, d) && Sum(ps, d).kraft <= Pow2(d) && |ps| >= 2 && d > 0
    requires j < |ps| && ps[j].1 == d
    ensures Huffman(Sum(ps, d).weights) <= Sum(ps, d).cost
    decreases |ps|, d, 1
  {
    hide Sum, Pow2, Huffman, Product, LeastTwo, Joined, Plus, One, Join2, Take;
    var m := Sum(ps, d).weights;
    SumSize(ps, d);
    var a := Least(m);
    var i := FindWeight(ps, d, a);
    Members(ps, j, d);
    Exchange(ps, i, j, d);
    var rest := Swapped(ps, i, j);
    if AtMost(rest, d - 1) {
      Shorten(a, rest, d);
      LowerBound([(a, d - 1)] + rest, d - 1);
    } else {
      var j2 :| 0 <= j2 < |rest| && rest[j2].1 == d;
      LowerBoundTwoDeepest(m, a, rest, d, j2);
    }
  }

  lemma {:induction false} LowerBoundTwoDeepest(m: multiset<nat>, a: nat, rest: seq<Pair>, d: nat, j: nat)
    requires AtMost(rest, d) && d > 0 && |m| >= 2 && a == Least(m)
    requires var s := Plus(One((a, d), d), Sum(rest, d)); s.kraft <= Pow2(d) && s.weights == m
    requires j < |rest| && rest[j].1 == d
    ensures Huffman(m) <= Plus(One((a, d), d), Sum(rest, d)).cost
    decreases |rest| + 1, d, 0
  {
    hide Sum, Pow2, Huffman, Product, LeastTwo, Joined, Plus, One, Join2, Take;
    WeightsRest(a, d, Sum(rest, d));
    var b := Least(Take(m, a));
    var i := FindWeight(rest, d, b);
    Members(rest, j, d);
    Exchange(rest, i, j, d);
    var rest2 := Swapped(rest, i, j);
    Join(a, b, rest2, d);
    PlusNoDearer(One((a, d), d), Plus(One((b, d), d), Sum(rest2, d)), Sum(rest, d));
    LowerBound([(a + b, d - 1)] + rest2, d);
    HuffmanStep(m);
    JoinedIs(m, a, b);
  }

  lemma WeightsRest(a: nat, d: nat, r: Measure)
    ensures Take(Plus(One((a, d), d), r).weights, a) == r.weights
    ensures |Plus(One((a, d), d), r).weights| == |r.weights| + 1
  {
    assert multiset{a} + r.weights - multiset{a} == r.weights;
  }

  lemma PlusNoDearer(p: Measure, s: Measure, t: Measure)
    requires NoDearer(s, t)
    ensures NoDearer(Plus(p, s), Plus(p, t))
  {
  }

  lemma JoinedIs(m: multiset<nat>, a: nat, b: nat)
    requires |m| >= 2 && a == Least(m) && b == Least(Take(m, a))
    ensures Joined(m) == Join2(m, a, b) && LeastTwo(m) == a + b
  {
  }

  lemma HuffmanStep(m: multiset<nat>)
    requires |m| >= 2
    ensures Huffman(m) == LeastTwo(m) + Huffman(Joined(m))
  {
  }

  lemma ProductStep(w: nat, d: nat)
    requires d > 0
    ensures Product(w, d) == Product(w, d - 1) + w
  {
  }

  lemma ProductSum(a: nat, b: nat, d: nat)
    ensures Product(a + b, d) == Product(a, d) + Product(b, d)
  {
  }

  lemma SumCons(p: Pair, ps: seq<Pair>, d: nat)
    ensures Sum([p] + ps, d) == Plus(One(p, d), Sum(ps, d))
  {
    assert ([p] + ps)[0] == p && ([p] + ps)[1..] == ps;
  }

  /** When only one pair has length d, its place can be shortened: the Kraft sum is odd without it. */
  lemma Shorten(a: nat, rest: seq<Pair>, d: nat)
    requires d > 0 && AtMost(rest, d - 1)
    requires Plus(One((a, d), d), Sum(rest, d)).kraft <= Pow2(d)
    ensures var qs := [(a, d - 1)] + rest;
            AtMost(qs, d - 1) && Sum(qs, d - 1).kraft <= Pow2(d - 1)
            && Sum(qs, d - 1).cost <= Plus(One((a, d), d), Sum(rest, d)).cost
            && Sum(qs, d - 1).weights == Plus(One((a, d), d), Sum(rest, d)).weights
  {
    hide Sum, Pow2, Product;
    KraftHalves(rest, d - 1);
    SumCons((a, d - 1), rest, d - 1);
    PowStep(d - 1);
    PowOfZero();
    ProductStep(a, d);
  }

  /** Two pairs of length d may be joined into one of length d - 1. */
  lemma Join(a: nat, b: nat, rest: seq<Pair>, d: nat)
    requires d > 0 && AtMost(rest, d)
    ensures var qs := [(a + b, d - 1)] + rest;
            var s := Plus(One((a, d), d), Plus(One((b, d), d), Sum(rest, d)));
            AtMost(qs, d) && Sum(qs, d).kraft == s.kraft && Sum(qs, d).cost + a + b == s.cost
            && Sum(qs, d).weights == Join2(s.weights, a, b)
  {
    hide Sum, Pow2, Product, Plus, One, Join2;
    var r := Sum(rest, d);
    SumCons((a + b, d - 1), rest, d);
    JoinMeasure(a, b, d, r);
  }

  lemma JoinMeasure(a: nat, b: nat, d: nat, r: Measure)
    requires d > 0
    ensures var q, s := Plus(One((a + b, d - 1), d), r), Plus(One((a, d), d), Plus(One((b, d), d), r));
            q.kraft == s.kraft && q.cost + a + b == s.cost
            && q.weights == Join2(s.weights, a, b)
  {
    JoinBags(a, b, r.weights);
    hide Pow2, Product, Join2;
    var p, p1, p2 := One((a + b, d - 1), d), One((a, d), d), One((b, d), d);
    assert p.kraft == p1.kraft + p2.kraft by {
      PowStep(0);
      PowOfZero();
    }
    assert p.cost + a + b == p1.cost + p2.cost by {
      ProductStep(a, d);
      ProductStep(b, d);
      ProductSum(a, b, d - 1);
    }
    assert p1.weights == multiset{a} && p2.weights == multiset{b} && p.weights == multiset{a + b};
    hide One;
    assert Plus(p1, Plus(p2, r)).weights == multiset{a} + (multiset{b} + r.weights) == With(With(r.weights, b), a);
    assert Plus(p, r).weights == With(r.weights, a + b);
  }

  lemma JoinBags(a: nat, b: nat, w: multiset<nat>)
    ensures With(w, a + b) == Join2(With(With(w, b), a), a, b)
  {
    assert Take(With(With(w, b), a), a) == With(w, b);
    assert Take(With(w, b), b) == w;
  }

  // ---------- Kraft's inequality ----------

  /** No code of the list is the start of another. */
  ghost predicate PrefixFree(cs: seq<seq<bool>>) {
    forall i, j :: 0 <= i < |cs| && 0 <= j < |cs| && i != j ==> !(cs[i] <= cs[j])
  }

  ghost function Pairs(ws: seq<nat>, cs: seq<seq<bool>>): (ps: seq<Pair>)
    requires |ws| == |cs|
    ensures |ps| == |ws| && forall i :: 0 <= i < |ps| ==> ps[i] == (ws[i], |cs[i]|)
  {
    seq(|ws|, i requires 0 <= i < |ws| => (ws[i], |cs[i]|))
  }

  /** The codes that start with bit b, without it. */
  ghost function Tails(cs: seq<seq<bool>>, b: bool): (r: seq<seq<bool>>) {
    if cs == [] then []
    else if cs[0] != [] && cs[0][0] == b then [cs[0][1..]] + Tails(cs[1..], b)
    else Tails(cs[1..], b)
  }

  /** Room taken by a list of codes, in units of 2^-d. */
  ghost function Room(cs: seq<seq<bool>>, d: nat): nat {
    if cs == [] then 0 else (if |cs[0]| <= d then Pow2(d - |cs[0]|) else 0) + Room(cs[1..], d)
  }

  ghost predicate Shallow(cs: seq<seq<bool>>, d: nat) {
    forall i :: 0 <= i < |cs| ==> |cs[i]| <= d
  }

  lemma {:induction false} RoomSplits(cs: seq<seq<bool>>, d: nat)
    requires d > 0 && Shallow(cs, d) && forall i :: 0 <= i < |cs| ==> cs[i] != []
    ensures Room(cs, d) == Room(Tails(cs, false), d - 1) + Room(Tails(cs, true), d - 1)
    ensures Shallow(Tails(cs, false), d - 1) && Shallow(Tails(cs, true), d - 1)
  {
    if cs != [] {
      RoomSplits(cs[1..], d);
      var b := cs[0][0];
      var r := Tails(cs[1..], b);
      assert ([cs[0][1..]] + r)[1..] == r;
    }
  }

  lemma {:induction false} TailOrigin(cs: seq<seq<bool>>, b: bool, i: nat) returns (k: nat)
    requires i < |Tails(cs, b)|
    ensures k < |cs| && cs[k] == [b] + Tails(cs, b)[i]
    decreases cs
  {
    if cs[0] != [] && cs[0][0] == b {
      if i == 0 {
        k := 0;
      } else {
        k := TailOrigin(cs[1..], b, i - 1);
        k := k + 1;
      }
    } else {
      k := TailOrigin(cs[1..], b, i);
      k := k + 1;
    }
  }

  lemma {:induction false} TailOriginDistinct(cs: seq<seq<bool>>, b: bool, i: nat, j: nat) returns (k: nat, m: nat)
    requires i < j < |Tails(cs, b)|
    ensures k < m < |cs| && cs[k] == [b] + Tails(cs, b)[i] && cs[m] == [b] + Tails(cs, b)[j]
    decreases cs
  {
    if cs[0] != [] && cs[0][0] == b {
      if i == 0 {
        k := 0;
        m := TailOrigin(cs[1..], b, j - 1);
      } else {
        k, m := TailOriginDistinct(cs[1..], b, i - 1, j - 1);
        k := k + 1;
      }
    } else {
      k, m := TailOriginDistinct(cs[1..], b, i, j);
      k := k + 1;
    }
    m := m + 1;
  }

  lemma TailsPrefixFree(cs: seq<seq<bool>>, b: bool)
    requires PrefixFree(cs)
    ensures PrefixFree(Tails(cs, b))
  {
    hide Tails;
    var t := Tails(cs, b);
    forall i, j | 0 <= i < |t| && 0 <= j < |t| && i != j
      ensures !(t[i] <= t[j])
    {
      if i < j {
        var k, m := TailOriginDistinct(cs, b, i, j);
      } else {
        var k, m := TailOriginDistinct(cs, b, j, i);
      }
    }
  }

  /** Kraft's inequality: a prefix-free list of codes takes no more room than there is. */
  lemma {:induction false} KraftInequality(cs: seq<seq<bool>>, d: nat)
    requires PrefixFree(cs) && Shallow(cs, d)
    ensures Room(cs, d) <= Pow2(d)
    decreases d
  {
    if i :| 0 <= i < |cs| && cs[i] == [] {
      EmptyCodeAlone(cs, i, if i == 0 then 1 else 0);
      assert Room(cs, d) == Pow2(d) + Room(cs[1..], d);
    } else if d > 0 {
      RoomSplits(cs, d);
      TailsPrefixFree(cs, false);
      TailsPrefixFree(cs, true);
      KraftInequality(Tails(cs, false), d - 1);
      KraftInequality(Tails(cs, true), d - 1);
    } else {
      OnlyEmptyCodes(cs);
    }
  }

  lemma EmptyCodeAlone(cs: seq<seq<bool>>, i: nat, j: nat)
    requires PrefixFree(cs) && i < |cs| && cs[i] == [] && i != j
    ensures j >= |cs|
  {
    assert [] <= cs[if j < |cs| then j else i];
  }

  lemma OnlyEmptyCodes(cs: seq<seq<bool>>)
    requires Shallow(cs, 0)
    ensures cs == [] || exists i :: 0 <= i < |cs| && cs[i] == []
  {
    assert cs == [] || cs[0] == [];
  }

  lemma {:induction false} RoomIsKraft(ws: seq<nat>, cs: seq<seq<bool>>, d: nat)
    requires |ws| == |cs|
    ensures Sum(Pairs(ws, cs), d).kraft == Room(cs, d)
  {
    if ws != [] {
      RoomIsKraft(ws[1..], cs[1..], d);
      assert Pairs(ws, cs)[1..] == Pairs(ws[1..], cs[1..]);
    }
  }

  /** No prefix-free assignment of codes to these weights costs less than Huffman's total. */
  lemma HuffmanIsOptimal(ws: seq<nat>, cs: seq<seq<bool>>, d: nat)
    requires |ws| == |cs| && PrefixFree(cs) && Shallow(cs, d)
    ensures Huffman(Sum(Pairs(ws, cs), d).weights) <= Sum(Pairs(ws, cs), d).cost
  {
    hide Huffman, Sum, Room, Pow2;
    KraftInequality(cs, d);
    RoomIsKraft(ws, cs, d);
    LowerBound(Pairs(ws, cs), d);
  }
}
