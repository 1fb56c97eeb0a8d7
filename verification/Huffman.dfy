/** The encoder's Huffman trees: a binary heap of frequencies, merging of the two least, length
    limiting to 16 bits and assignment of lengths in order of frequency. */
module Huffman {
  import opened Bits
  import opened Canonical
  import O = Optimal

  // ---------- Trees ----------

  datatype Tree = Leaf(w: nat) | Node(left: Tree, right: Tree)

  function Weight(t: Tree): nat {
    match t
    case Leaf(w) => w
    case Node(l, r) => Weight(l) + Weight(r)
  }

  /** Sum of the weights of the inner nodes. */
  function InnerSum(t: Tree): nat {
    match t
    case Leaf(_) => 0
    case Node(l, r) => Weight(t) + InnerSum(l) + InnerSum(r)
  }

  function Leaves(t: Tree): (n: nat)
    ensures n >= 1
  {
    match t
    case Leaf(_) => 1
    case Node(l, r) => Leaves(l) + Leaves(r)
  }

  function Height(t: Tree): nat {
    match t
    case Leaf(_) => 0
    case Node(l, r) => 1 + (if Height(l) >= Height(r) then Height(l) else Height(r))
  }

  /** The leaves with their depths, when the root has depth d. */
  function Pairs(t: Tree, d: nat): seq<O.Pair> {
    match t
    case Leaf(w) => [(w, d)]
    case Node(l, r) => Pairs(l, d + 1) + Pairs(r, d + 1)
  }

  /** How many leaves have depth i, depths beyond 16 counting as 16. */
  function DepthCount(t: Tree, d: nat, i: nat): nat {
    match t
    case Leaf(_) => if (if d < 16 then d else 16) == i then 1 else 0
    case Node(l, r) => DepthCount(l, d + 1, i) + DepthCount(r, d + 1, i)
  }

  /** By how much the tree, cut off at depth 16, overfills the code space. */
  function Excess(t: Tree, d: nat): nat {
    match t
    case Leaf(_) => 0
    case Node(l, r) => if d >= 16 then Leaves(l) + Leaves(r) - 1 else Excess(l, d + 1) + Excess(r, d + 1)
  }

  /** The Kraft sum, in units of 2^-16, of the tree cut off at depth 16. */
  function CutKraft(t: Tree, d: nat): nat {
    match t
    case Leaf(_) => if d < 16 then Pow2(16 - d) else 1
    case Node(l, r) => CutKraft(l, d + 1) + CutKraft(r, d + 1)
  }

  lemma {:induction false} DeepCounts(t: Tree, d: nat)
    requires d >= 16
    ensures CutKraft(t, d) == Leaves(t) == DepthCount(t, d, 16)
    decreases t
  {
    if t.Node? {
      DeepCounts(t.left, d + 1);
      DeepCounts(t.right, d + 1);
    }
  }

  lemma {:induction false} CutKraftIs(t: Tree, d: nat)
    requires d <= 16
    ensures CutKraft(t, d) == Pow2(16 - d) + Excess(t, d)
    ensures Excess(t, d) <= DepthCount(t, d, 16)
    ensures Excess(t, d) > 0 ==> Excess(t, d) < DepthCount(t, d, 16)
    decreases t
  {
    if t.Node? {
      if d < 16 {
        CutKraftIs(t.left, d + 1);
        CutKraftIs(t.right, d + 1);
        assert Pow2(16 - d) == 2 * Pow2(16 - (d + 1));
      } else {
        DeepCounts(t, d);
      }
    }
  }

  /** A tree no deeper than 16 does not overfill. */
  lemma {:induction false} NoExcess(t: Tree, d: nat)
    requires d + Height(t) <= 16
    ensures Excess(t, d) == 0
    decreases t
  {
    if t.Node? {
      NoExcess(t.left, d + 1);
      NoExcess(t.right, d + 1);
    }
  }

  lemma {:induction false} HeightBelowLeaves(t: Tree)
    ensures Height(t) < Leaves(t)
  {
    if t.Node? {
      HeightBelowLeaves(t.left);
      HeightBelowLeaves(t.right);
    }
  }

  /** No leaf lies deeper than the height. */
  lemma {:induction false} CountWithinHeight(t: Tree, d: nat, i: nat)
    requires i < d || i > d + Height(t)
    ensures d <= 16 ==> DepthCount(t, d, i) == 0
    decreases t
  {
    if t.Node? {
      if d < 16 {
        CountWithinHeight(t.left, d + 1, i);
        CountWithinHeight(t.right, d + 1, i);
      } else if d == 16 && i < 16 {
        NoShallow(t, d, i);
      } else if d == 16 {
        NoShallow(t, d, i);
      }
    }
  }

  lemma {:induction false} NoShallow(t: Tree, d: nat, i: nat)
    requires d >= 16 && i != 16
    ensures DepthCount(t, d, i) == 0
    decreases t
  {
    if t.Node? {
      NoShallow(t.left, d + 1, i);
      NoShallow(t.right, d + 1, i);
    }
  }

  // ---------- Counts and the Kraft sum ----------

  /** Kraft sum of the lengths 1..i, in units of 2^-16. */
  function KraftUpTo(cnt: seq<nat>, i: nat): nat
    requires i <= 16 && |cnt| == 17
  {
    if i == 0 then 0 else KraftUpTo(cnt, i - 1) + Scale(cnt[i], 16 - i)
  }

  function TotalUpTo(cnt: seq<nat>, i: nat): nat
    requires i <= 16 && |cnt| == 17
  {
    if i == 0 then 0 else TotalUpTo(cnt, i - 1) + cnt[i]
  }

  /** cnt counts the leaves of t by depth. */
  ghost predicate Counts(cnt: seq<nat>, t: Tree, d: nat) {
    |cnt| == 17 && forall i :: 0 <= i <= 16 ==> cnt[i] == DepthCount(t, d, i)
  }

  function CountSeq(t: Tree, d: nat): (s: seq<nat>)
    ensures Counts(s, t, d)
  {
    seq(17, i requires 0 <= i < 17 => DepthCount(t, d, i))
  }

  lemma {:induction false} SumsAdd(a: seq<nat>, b: seq<nat>, c: seq<nat>, i: nat)
    requires |a| == |b| == |c| == 17 && i <= 16 && forall k :: 0 <= k <= 16 ==> c[k] == a[k] + b[k]
    ensures KraftUpTo(c, i) == KraftUpTo(a, i) + KraftUpTo(b, i)
    ensures TotalUpTo(c, i) == TotalUpTo(a, i) + TotalUpTo(b, i)
  {
    hide Scale;
    if i > 0 {
      SumsAdd(a, b, c, i - 1);
      ScaleAdd(a[i], b[i], 16 - i);
    }
  }

  lemma {:induction false} SumsSingle(cnt: seq<nat>, j: nat, i: nat)
    requires |cnt| == 17 && 1 <= j <= 16 && i <= 16 && forall k :: 0 <= k <= 16 ==> cnt[k] == if k == j then 1 else 0
    ensures KraftUpTo(cnt, i) == (if i < j then 0 else Scale(1, 16 - j))
    ensures TotalUpTo(cnt, i) == (if i < j then 0 else 1)
  {
    hide Scale;
    if i > 0 {
      SumsSingle(cnt, j, i - 1);
      ScaleZero(16 - i);
    }
  }

  lemma ScaleOne(k: nat)
    ensures Scale(1, k) == Pow2(k)
  {
    ScalePow2(0, k);
  }

  lemma {:induction false} CountsSum(t: Tree, d: nat)
    requires d >= 1
    ensures KraftUpTo(CountSeq(t, d), 16) == CutKraft(t, d)
    ensures TotalUpTo(CountSeq(t, d), 16) == Leaves(t)
    decreases t
  {
    hide KraftUpTo, TotalUpTo, Scale;
    match t
    case Leaf(_) =>
      var j := if d < 16 then d else 16;
      SumsSingle(CountSeq(t, d), j, 16);
      ScaleOne(16 - j);
      assert Pow2(0) == 1;
    case Node(l, r) =>
      CountsSum(l, d + 1);
      CountsSum(r, d + 1);
      SumsAdd(CountSeq(l, d + 1), CountSeq(r, d + 1), CountSeq(t, d), 16);
  }

  /** The same at the root, for a tree with at least two leaves. */
  lemma RootCounts(t: Tree)
    requires t.Node?
    ensures KraftUpTo(CountSeq(t, 0), 16) == 65536 + Excess(t, 0)
    ensures TotalUpTo(CountSeq(t, 0), 16) == Leaves(t)
  {
    hide KraftUpTo, TotalUpTo;
    CountsSum(t.left, 1);
    CountsSum(t.right, 1);
    SumsAdd(CountSeq(t.left, 1), CountSeq(t.right, 1), CountSeq(t, 0), 16);
    CutKraftIs(t, 0);
    Pow2Values();
  }

  // ---------- The cost of a tree ----------

  lemma PlusAssoc(a: O.Measure, b: O.Measure, c: O.Measure)
    ensures O.Plus(a, O.Plus(b, c)) == O.Plus(O.Plus(a, b), c)
  {
  }

  lemma PlusZero(a: O.Measure)
    ensures O.Plus(O.Measure(0, 0, multiset{}, multiset{}), a) == a
    ensures O.Plus(a, O.Measure(0, 0, multiset{}, multiset{})) == a
  {
  }

  lemma {:induction false} SumConcat(a: seq<O.Pair>, b: seq<O.Pair>, d: nat)
    ensures O.Sum(a + b, d) == O.Plus(O.Sum(a, d), O.Sum(b, d))
  {
    hide O.One, O.Plus;
    if a == [] {
      assert a + b == b;
      PlusZero(O.Sum(b, d));
    } else {
      SumConcat(a[1..], b, d);
      assert (a + b)[0] == a[0] && (a + b)[1..] == a[1..] + b;
      PlusAssoc(O.One(a[0], d), O.Sum(a[1..], d), O.Sum(b, d));
    }
  }

  lemma SumOfOne(p: O.Pair, m: nat)
    ensures O.Sum([p], m) == O.One(p, m)
  {
    hide O.One, O.Plus;
    assert [p][1..] == [];
    PlusZero(O.One(p, m));
  }

  /** Weight times length over the leaves is the sum of the inner weights. */
  lemma {:induction false} CostIsInnerSum(t: Tree, d: nat, m: nat)
    ensures O.Sum(Pairs(t, d), m).cost == O.Product(Weight(t), d) + InnerSum(t)
    decreases t
  {
    hide O.Product, Pow2, O.Sum;
    match t
    case Leaf(w) =>
      SumOfOne((w, d), m);
    case Node(l, r) =>
      CostIsInnerSum(l, d + 1, m);
      CostIsInnerSum(r, d + 1, m);
      SumConcat(Pairs(l, d + 1), Pairs(r, d + 1), m);
      O.ProductStep(Weight(l), d + 1);
      O.ProductStep(Weight(r), d + 1);
      O.ProductSum(Weight(l), Weight(r), d);
  }

  function LeafWeights(t: Tree): (m: multiset<nat>)
    ensures |m| == Leaves(t)
  {
    match t
    case Leaf(w) => multiset{w}
    case Node(l, r) => LeafWeights(l) + LeafWeights(r)
  }

  lemma {:induction false} WeightsOfPairs(t: Tree, d: nat, m: nat)
    ensures O.Sum(Pairs(t, d), m).weights == LeafWeights(t)
    decreases t
  {
    hide O.Product, Pow2, O.Sum;
    match t
    case Leaf(w) =>
      SumOfOne((w, d), m);
    case Node(l, r) =>
      WeightsOfPairs(l, d + 1, m);
      WeightsOfPairs(r, d + 1, m);
      SumConcat(Pairs(l, d + 1), Pairs(r, d + 1), m);
  }

  /** In a tree no deeper than 16, depth counts are exact. */
  lemma {:induction false} LengthsOfPairs(t: Tree, d: nat, m: nat, i: nat)
    requires d + Height(t) <= 16
    ensures O.Sum(Pairs(t, d), m).lengths[i] == DepthCount(t, d, i)
    ensures O.AtMost(Pairs(t, d), 16)
    decreases t
  {
    hide O.Product, Pow2, O.Sum;
    match t
    case Leaf(w) =>
      SumOfOne((w, d), m);
    case Node(l, r) =>
      LengthsOfPairs(l, d + 1, m, i);
      LengthsOfPairs(r, d + 1, m, i);
      SumConcat(Pairs(l, d + 1), Pairs(r, d + 1), m);
  }

  // ---------- Depth against weight ----------

  function Fib(n: nat): nat {
    if n < 2 then n else Fib(n - 1) + Fib(n - 2)
  }

  /** A node whose children each weigh at least as much as the other child's children. */
  ghost predicate Greedy(t: Tree) {
    match t
    case Leaf(w) => w >= 1
    case Node(l, r) => Greedy(l) && Greedy(r) && NotBelow(Weight(r), l) && NotBelow(Weight(l), r)
  }

  /** x is at least the weight of either child of t. */
  ghost predicate NotBelow(x: nat, t: Tree) {
    t.Node? ==> Weight(t.left) <= x && Weight(t.right) <= x
  }

  lemma {:induction false} FibMonotone(a: nat, b: nat)
    requires a <= b
    ensures Fib(a) <= Fib(b)
  {
    if a < b {
      FibMonotone(a, b - 1);
      if b < 2 {
      } else {
        assert Fib(b) == Fib(b - 1) + Fib(b - 2);
      }
    }
  }

  lemma {:induction false} WeightPositive(t: Tree)
    requires Greedy(t)
    ensures Weight(t) >= 1
  {
    if t.Node? {
      WeightPositive(t.left);
    }
  }

  /** A greedy tree of height h weighs at least Fib(h + 2). */
  lemma {:induction false} FibonacciBound(t: Tree)
    requires Greedy(t)
    ensures Weight(t) >= Fib(Height(t) + 2)
    decreases t, 1
  {
    if t.Node? {
      hide Fib;
      WeightPositive(t.left);
      WeightPositive(t.right);
      if Height(t.left) >= Height(t.right) {
        DeeperChild(t.left, Weight(t.right));
      } else {
        DeeperChild(t.right, Weight(t.left));
      }
    }
  }

  lemma {:induction false} DeeperChild(u: Tree, x: nat)
    requires Greedy(u) && NotBelow(x, u) && x >= 1
    ensures Weight(u) + x >= Fib(Height(u) + 3)
    decreases u, 2
  {
    FibonacciBound(u);
    FibStep(Height(u) + 3);
    if u.Node? {
      hide Fib;
      FibonacciBound(u.left);
      FibonacciBound(u.right);
    }
  }

  lemma FibStep(n: nat)
    requires n >= 2
    ensures Fib(n) == Fib(n - 1) + Fib(n - 2)
  {
  }
}
