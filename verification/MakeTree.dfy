/** make_tree: Huffman code lengths for a table of frequencies. */
module MakeTree {
  import opened Bags
  import opened Bits
  import opened Canonical
  import opened Huffman
  import opened HuffmanLengths
  import opened Heap
  import O = Optimal

  // ---------- Forests ----------

  /** What a forest adds up to: its weight, the weight of its inner nodes, its leaves and its roots. */
  datatype Bag = Bag(total: nat, inner: nat, leaves: multiset<nat>, roots: multiset<nat>)

  function Add(a: Bag, b: Bag): Bag {
    Bag(a.total + b.total, a.inner + b.inner, a.leaves + b.leaves, a.roots + b.roots)
  }

  function BagOfTree(t: Tree): Bag {
    Bag(Weight(t), InnerSum(t), LeafWeights(t), multiset{Weight(t)})
  }

  ghost predicate Below(ids: seq<nat>, n: nat) {
    forall p :: 0 <= p < |ids| ==> ids[p] < n
  }

  /** Root a is one of the lightest. */
  ghost predicate Lightest(ids: seq<nat>, trees: seq<Tree>, a: nat)
    requires Below(ids, |trees|) && a < |ids|
  {
    forall p :: 0 <= p < |ids| ==> Weight(trees[ids[a]]) <= Weight(trees[ids[p]])
  }

  ghost function BagOf(ids: seq<nat>, trees: seq<Tree>): Bag
    requires Below(ids, |trees|)
  {
    if ids == [] then Bag(0, 0, multiset{}, multiset{}) else Add(BagOfTree(trees[ids[0]]), BagOf(ids[1..], trees))
  }

  lemma AddSwap(a: Bag, b: Bag, c: Bag)
    ensures Add(a, Add(b, c)) == Add(b, Add(a, c))
  {
  }

  lemma {:induction false} TakeOutTree(ids: seq<nat>, trees: seq<Tree>, i: nat)
    requires i < |ids| && Below(ids, |trees|)
    ensures BagOf(ids, trees) == Add(BagOfTree(trees[ids[i]]), BagOf(O.Without(ids, i), trees))
  {
    hide Add, BagOfTree;
    var r := O.Without(ids, i);
    if i == 0 {
      assert r == ids[1..];
    } else {
      TakeOutTree(ids[1..], trees, i - 1);
      assert r[0] == ids[0] && r[1..] == O.Without(ids[1..], i - 1);
      AddSwap(BagOfTree(trees[ids[0]]), BagOfTree(trees[ids[i]]), BagOf(r[1..], trees));
    }
  }

  lemma {:induction false} BagOfMore(ids: seq<nat>, trees: seq<Tree>, more: seq<Tree>)
    requires trees <= more && Below(ids, |trees|)
    ensures BagOf(ids, trees) == BagOf(ids, more)
  {
    hide Add, BagOfTree;
    if ids != [] {
      BagOfMore(ids[1..], trees, more);
    }
  }

  lemma {:induction false} RootsAre(ids: seq<nat>, trees: seq<Tree>)
    requires Below(ids, |trees|)
    ensures |BagOf(ids, trees).roots| == |ids|
    ensures forall w :: w in BagOf(ids, trees).roots ==> exists p :: 0 <= p < |ids| && Weight(trees[ids[p]]) == w
  {
    hide Weight, InnerSum, LeafWeights;
    if ids != [] {
      RootsAre(ids[1..], trees);
      forall w | w in BagOf(ids, trees).roots
        ensures exists p :: 0 <= p < |ids| && Weight(trees[ids[p]]) == w
      {
        if w != Weight(trees[ids[0]]) {
          var p :| 0 <= p < |ids[1..]| && Weight(trees[ids[1..][p]]) == w;
          assert ids[p + 1] == ids[1..][p];
        }
      }
    }
  }

  lemma WithoutElements(ids: seq<nat>, i: nat)
    requires i < |ids|
    ensures multiset(O.Without(ids, i)) == Take(multiset(ids), ids[i])
    ensures forall p :: 0 <= p < |ids| - 1 ==> O.Without(ids, i)[p] in ids
  {
    var r := O.Without(ids, i);
    assert ids == ids[..i] + [ids[i]] + ids[i + 1..];
    assert multiset(ids) == multiset(ids[..i]) + multiset{ids[i]} + multiset(ids[i + 1..]);
    assert multiset(r) == multiset(ids[..i]) + multiset(ids[i + 1..]);
  }

  // ---------- The merging invariant ----------

  /** The trees of the nodes made so far. */
  ghost predicate Trees(f: seq<nat>, lr: seq<nat>, n: nat, trees: seq<Tree>) {
    && n <= |trees| <= |f| && Linked(lr, n, trees)
    && (forall k :: 0 <= k < |trees| ==> Weight(trees[k]) == f[k])
  }

  /** Every root is a greedy tree at least as heavy as the last node taken, whose children are not
      heavier than that. */
  ghost predicate Roots(live: seq<nat>, trees: seq<Tree>, last: nat) {
    forall p :: 0 <= p < |live| ==>
      live[p] < |trees| && Greedy(trees[live[p]]) && last <= Weight(trees[live[p]]) && NotBelow(last, trees[live[p]])
  }

  /** Joining has added up what Huffman's total still lacks. */
  ghost predicate Totals(live: seq<nat>, trees: seq<Tree>, total: nat, leaves: multiset<nat>)
    requires Below(live, |trees|)
  {
    var b := BagOf(live, trees);
    b.total == total && b.leaves == leaves && b.inner + O.Huffman(b.roots) == O.Huffman(leaves)
  }

  /** The leaves taken so far in order of weight; every used symbol is there or still in the heap. */
  ghost predicate SortedSoFar(f: seq<nat>, n: nat, live: seq<nat>, sorted: seq<nat>, last: nat) {
    && n <= |f|
    && (forall p :: 0 <= p < |sorted| ==> sorted[p] < n && f[sorted[p]] <= last)
    && (forall p, q :: 0 <= p < q < |sorted| ==> f[sorted[p]] <= f[sorted[q]])
    && (forall s :: 0 <= s < n ==> multiset(sorted)[s] + multiset(live)[s] == if f[s] > 0 then 1 else 0)
  }

  lemma NotBelowMore(x: nat, y: nat, t: Tree)
    requires NotBelow(x, t) && x <= y
    ensures NotBelow(y, t)
  {
  }

  /** Taking the two least roots i and j and joining them as a new node k keeps the roots greedy. */
  lemma JoinRoots(live: seq<nat>, trees: seq<Tree>, last: nat, a: nat, b: nat)
    requires Roots(live, trees, last) && a < |live| && b < |live| - 1
    requires Below(live, |trees|) && Lightest(live, trees, a)
    requires Below(O.Without(live, a), |trees|) && Lightest(O.Without(live, a), trees, b)
    ensures var rest := O.Without(live, a);
            var i, j := live[a], rest[b];
            Roots(O.Without(rest, b) + [|trees|], trees + [Node(trees[i], trees[j])], Weight(trees[j]))
            && last <= Weight(trees[i]) <= Weight(trees[j])
  {
    hide Greedy, NotBelow, Weight;
    var rest := O.Without(live, a);
    var i, j := live[a], rest[b];
    var left := O.Without(rest, b);
    var last' := Weight(trees[j]);
    var more := trees + [Node(trees[i], trees[j])];
    WithoutElements(live, a);
    WithoutElements(rest, b);
    assert forall p :: 0 <= p < |rest| ==> rest[p] in live;
    forall p | 0 <= p < |left| + 1
      ensures (left + [|trees|])[p] < |more| && Greedy(more[(left + [|trees|])[p]])
      ensures last' <= Weight(more[(left + [|trees|])[p]]) && NotBelow(last', more[(left + [|trees|])[p]])
    {
      if p < |left| {
        assert left[p] in rest;
        NotBelowMore(last, last', trees[left[p]]);
      } else {
        JoinGreedy(trees[i], trees[j], last);
      }
    }
  }

  lemma JoinGreedy(u: Tree, v: Tree, last: nat)
    requires Greedy(u) && Greedy(v) && NotBelow(last, u) && NotBelow(last, v) && last <= Weight(u) <= Weight(v)
    ensures Greedy(Node(u, v)) && Weight(v) <= Weight(Node(u, v)) && NotBelow(Weight(v), Node(u, v))
  {
  }

  lemma LeastUnique(m: multiset<nat>, x: nat)
    requires O.IsLeast(m, x)
    ensures |m| > 0 && O.Least(m) == x
  {
    assert m[x] > 0;
  }

  /** The two least roots are the ones Huffman's total joins next. */
  lemma JoinTotals(live: seq<nat>, trees: seq<Tree>, total: nat, leaves: multiset<nat>, a: nat, b: nat)
    requires a < |live| && b < |live| - 1 && Below(live, |trees|)
    requires Totals(live, trees, total, leaves)
    requires Lightest(live, trees, a)
    requires Below(O.Without(live, a), |trees|) && Lightest(O.Without(live, a), trees, b)
    ensures var rest := O.Without(live, a);
            var more := trees + [Node(trees[live[a]], trees[rest[b]])];
            var live' := O.Without(rest, b) + [|trees|];
            Below(live', |more|) && Totals(live', more, total, leaves)
  {
    hide Weight, BagOf, Add, O.Huffman, O.Joined, O.LeastTwo, Lightest, BagOfTree, O.Join2;
    var rest := O.Without(live, a);
    var left, u, v := O.Without(rest, b), trees[live[a]], trees[rest[b]];
    var more := trees + [Node(u, v)];
    var m := BagOf(live, trees).roots;
    LastTree(left, trees, Node(u, v));
    TakeOutTree(live, trees, a);
    TakeOutTree(rest, trees, b);
    JoinLeast(live, trees, a, b);
    JoinBags(u, v, BagOf(left, trees));
    O.HuffmanStep(m);
  }

  lemma LastTree(ids: seq<nat>, trees: seq<Tree>, t: Tree)
    requires Below(ids, |trees|)
    ensures Below(ids + [|trees|], |trees| + 1)
    ensures BagOf(ids + [|trees|], trees + [t]) == Add(BagOfTree(t), BagOf(ids, trees))
  {
    hide Weight, BagOf, Add, BagOfTree;
    var more := trees + [t];
    assert Below(ids, |more|);
    BagOfMore(ids, trees, more);
    BagOfLast(ids, more);
    assert more[|trees|] == t;
  }

  /** The roots a and b are the two least of all roots. */
  lemma JoinLeast(live: seq<nat>, trees: seq<Tree>, a: nat, b: nat)
    requires a < |live| && b < |live| - 1 && Below(live, |trees|) && Lightest(live, trees, a)
    requires Below(O.Without(live, a), |trees|) && Lightest(O.Without(live, a), trees, b)
    ensures var m := BagOf(live, trees).roots;
            var x, y := Weight(trees[live[a]]), Weight(trees[O.Without(live, a)[b]]);
            |m| >= 2 && O.LeastTwo(m) == x + y && O.Joined(m) == O.Join2(m, x, y)
  {
    hide *;
    var rest := O.Without(live, a);
    BelowWithout(live, |trees|, a);
    BelowWithout(rest, |trees|, b);
    var u, v := trees[live[a]], trees[rest[b]];
    var m := BagOf(live, trees).roots;
    TakeOutTree(live, trees, a);
    RootsAre(live, trees);
    RootsLeast(live, trees, a);
    LeastUnique(m, Weight(u));
    RootsRest(u, BagOf(rest, trees));
    RootsLeast(rest, trees, b);
    LeastUnique(Take(m, Weight(u)), Weight(v));
    O.JoinedIs(m, Weight(u), Weight(v));
  }

  lemma RootsLeast(ids: seq<nat>, trees: seq<Tree>, a: nat)
    requires a < |ids| && Below(ids, |trees|)
    requires Lightest(ids, trees, a)
    ensures O.IsLeast(BagOf(ids, trees).roots, Weight(trees[ids[a]]))
  {
    hide Weight, BagOf;
    RootsAre(ids, trees);
    TakeOutTree(ids, trees, a);
  }

  lemma RootsRest(u: Tree, r: Bag)
    ensures Take(Add(BagOfTree(u), r).roots, Weight(u)) == r.roots
  {
    assert multiset{Weight(u)} + r.roots - multiset{Weight(u)} == r.roots;
  }

  lemma {:induction false} BagOfLast(ids: seq<nat>, trees: seq<Tree>)
    requires |trees| > 0 && Below(ids, |trees|)
    ensures Below(ids + [|trees| - 1], |trees|)
    ensures BagOf(ids + [|trees| - 1], trees) == Add(BagOfTree(trees[|trees| - 1]), BagOf(ids, trees))
  {
    hide Add, BagOfTree;
    var k := |trees| - 1;
    TakeOutTree(ids + [k], trees, |ids|);
    assert O.Without(ids + [k], |ids|) == ids;
  }

  lemma JoinBags(u: Tree, v: Tree, r: Bag)
    ensures var old', new' := Add(BagOfTree(u), Add(BagOfTree(v), r)), Add(BagOfTree(Node(u, v)), r);
            new'.total == old'.total && new'.leaves == old'.leaves
            && new'.inner == old'.inner + Weight(u) + Weight(v)
            && new'.roots == O.Join2(old'.roots, Weight(u), Weight(v))
  {
    hide *;
    O.JoinBags(Weight(u), Weight(v), r.roots);
    RootsOfJoin(u, v, r);
    SumsOfJoin(u, v, r);
  }

  lemma SumsOfJoin(u: Tree, v: Tree, r: Bag)
    ensures var old', new' := Add(BagOfTree(u), Add(BagOfTree(v), r)), Add(BagOfTree(Node(u, v)), r);
            new'.total == old'.total && new'.leaves == old'.leaves
            && new'.inner == old'.inner + Weight(u) + Weight(v)
  {
    hide InnerSum, LeafWeights, Weight;
    NodeMeasures(u, v);
    LeavesAssoc(LeafWeights(u), LeafWeights(v), r.leaves);
  }

  lemma AddRoots(t: Tree, r: Bag)
    ensures Add(BagOfTree(t), r).roots == With(r.roots, Weight(t))
  {
    hide InnerSum, LeafWeights, Weight;
  }

  lemma RootsOfJoin(u: Tree, v: Tree, r: Bag)
    ensures Add(BagOfTree(u), Add(BagOfTree(v), r)).roots == With(With(r.roots, Weight(v)), Weight(u))
    ensures Add(BagOfTree(Node(u, v)), r).roots == With(r.roots, Weight(u) + Weight(v))
  {
    NodeMeasures(u, v);
    hide *;
    AddRoots(u, Add(BagOfTree(v), r));
    AddRoots(v, r);
    AddRoots(Node(u, v), r);
  }

  lemma NodeMeasures(u: Tree, v: Tree)
    ensures InnerSum(Node(u, v)) == Weight(u) + Weight(v) + InnerSum(u) + InnerSum(v)
    ensures LeafWeights(Node(u, v)) == LeafWeights(u) + LeafWeights(v)
    ensures Weight(Node(u, v)) == Weight(u) + Weight(v)
  {
  }

  lemma LeavesAssoc(a: multiset<nat>, b: multiset<nat>, c: multiset<nat>)
    ensures a + (b + c) == a + b + c
  {
  }

  /** The sorted list after node i has been taken: longer if i is a leaf. */
  function Listed(n: nat, sorted: seq<nat>, i: nat): seq<nat> {
    if i < n then sorted + [i] else sorted
  }

  /** The sorted list grows by the leaves among i and j. */
  lemma JoinSorted(f: seq<nat>, n: nat, live: seq<nat>, sorted: seq<nat>, last: nat, a: nat, b: nat, k: nat)
    requires SortedSoFar(f, n, live, sorted, last) && a < |live| && b < |live| - 1 && k >= n
    requires live[a] < |f| && O.Without(live, a)[b] < |f|
    requires last <= f[live[a]] <= f[O.Without(live, a)[b]]
    ensures var rest := O.Without(live, a);
            SortedSoFar(f, n, O.Without(rest, b) + [k], Listed(n, Listed(n, sorted, live[a]), rest[b]), f[rest[b]])
  {
    hide SortedSoFar, Listed;
    TakeSorted(f, n, live, sorted, last, a);
    var rest, s1 := O.Without(live, a), Listed(n, sorted, live[a]);
    TakeSorted(f, n, rest, s1, f[live[a]], b);
    AddInner(f, n, O.Without(rest, b), Listed(n, s1, rest[b]), f[rest[b]], k);
  }

  lemma TakeSorted(f: seq<nat>, n: nat, live: seq<nat>, sorted: seq<nat>, last: nat, a: nat)
    requires SortedSoFar(f, n, live, sorted, last) && a < |live| && live[a] < |f| && last <= f[live[a]]
    ensures SortedSoFar(f, n, O.Without(live, a), Listed(n, sorted, live[a]), f[live[a]])
  {
    var i, rest := live[a], O.Without(live, a);
    WithoutElements(live, a);
    assert i in multiset(live);
    if i < n {
      var one: multiset<nat> := multiset{i};
      assert multiset(Listed(n, sorted, i)) == multiset(sorted) + one;
    }
  }

  lemma AddInner(f: seq<nat>, n: nat, live: seq<nat>, sorted: seq<nat>, last: nat, k: nat)
    requires SortedSoFar(f, n, live, sorted, last) && k >= n
    ensures SortedSoFar(f, n, live + [k], sorted, last)
  {
    assert multiset(live + [k]) == multiset(live) + multiset{k};
  }

  /** Everything the merging loop keeps. */
  ghost predicate Merging(f: seq<nat>, lr: seq<nat>, n: nat, trees: seq<Tree>, live: seq<nat>, sorted: seq<nat>,
                          last: nat, total: nat, leaves: multiset<nat>) {
    && Trees(f, lr, n, trees) && Below(live, |trees|) && Roots(live, trees, last)
    && Totals(live, trees, total, leaves) && SortedSoFar(f, n, live, sorted, last)
  }

  /** The roots after a and b have been joined as node k. */
  ghost function JoinedRoots(live: seq<nat>, a: nat, b: nat, k: nat): (r: seq<nat>)
    requires a < |live| && b < |live| - 1
    ensures |r| == |live| - 1
  {
    O.Without(O.Without(live, a), b) + [k]
  }

  /** The state after roots a and then b of the rest have been joined. */
  lemma MergeStep(f: seq<nat>, lr: seq<nat>, n: nat, trees: seq<Tree>, live: seq<nat>, sorted: seq<nat>,
                  last: nat, total: nat, leaves: multiset<nat>, a: nat, b: nat, f': seq<nat>, lr': seq<nat>)
    requires Merging(f, lr, n, trees, live, sorted, last, total, leaves)
    requires a < |live| && b < |live| - 1 && Lightest(live, trees, a)
    requires Below(O.Without(live, a), |trees|) && Lightest(O.Without(live, a), trees, b)
    requires var k, i, j := |trees|, live[a], O.Without(live, a)[b];
             k < |f| && k * 2 + 1 < |lr| && i < k && j < k && f' == f[k := f[i] + f[j]]
             && lr' == lr[k * 2 := i][k * 2 + 1 := j]
    ensures var k, i, j := |trees|, live[a], O.Without(live, a)[b];
            Merging(f', lr', n, trees + [Node(trees[i], trees[j])], JoinedRoots(live, a, b, k),
                    Listed(n, Listed(n, sorted, i), j), f[j], total, leaves)
  {
    hide Roots, Totals, SortedSoFar, Trees, Below, Lightest, Listed;
    var k, i, j := |trees|, live[a], O.Without(live, a)[b];
    AddTree(f, lr, n, trees, i, j, f', lr');
    JoinRoots(live, trees, last, a, b);
    JoinTotals(live, trees, total, leaves, a, b);
    WeightsOfTrees(f, lr, n, trees, i, j);
    JoinSorted(f, n, live, sorted, last, a, b, k);
    SortedKept(f, f', n, O.Without(O.Without(live, a), b) + [k], Listed(n, Listed(n, sorted, i), j), f[j]);
  }

  lemma WeightsOfTrees(f: seq<nat>, lr: seq<nat>, n: nat, trees: seq<Tree>, i: nat, j: nat)
    requires Trees(f, lr, n, trees) && i < |trees| && j < |trees|
    ensures n <= |trees| <= |f| && Weight(trees[i]) == f[i] && Weight(trees[j]) == f[j]
  {
  }

  lemma AddTree(f: seq<nat>, lr: seq<nat>, n: nat, trees: seq<Tree>, i: nat, j: nat, f': seq<nat>, lr': seq<nat>)
    requires Trees(f, lr, n, trees) && i < |trees| && j < |trees|
    requires |trees| < |f| && |trees| * 2 + 1 < |lr| && f' == f[|trees| := f[i] + f[j]]
    requires lr' == lr[|trees| * 2 := i][|trees| * 2 + 1 := j]
    ensures Trees(f', lr', n, trees + [Node(trees[i], trees[j])])
  {
    var k := |trees|;
    var more := trees + [Node(trees[i], trees[j])];
    forall m: nat | n <= m < |more|
      ensures LinkedNode(lr', more, m)
    {
      if m < k {
        assert LinkedNode(lr, trees, m);
      }
    }
  }

  lemma SortedKept(f: seq<nat>, g: seq<nat>, n: nat, live: seq<nat>, sorted: seq<nat>, last: nat)
    requires SortedSoFar(f, n, live, sorted, last) && |g| == |f| && g[..n] == f[..n]
    ensures SortedSoFar(g, n, live, sorted, last)
  {
    assert forall s :: 0 <= s < n ==> g[s] == g[..n][s] == f[..n][s] == f[s];
  }

  /** The sorted list has room for every symbol. */
  lemma SortedFits(f: seq<nat>, n: nat, live: seq<nat>, sorted: seq<nat>, last: nat)
    requires SortedSoFar(f, n, live, sorted, last)
    ensures |sorted| <= n
    ensures forall p, q :: 0 <= p < q < |sorted| ==> sorted[p] != sorted[q]
  {
    forall p, q | 0 <= p < q < |sorted|
      ensures sorted[p] != sorted[q]
    {
      assert sorted == sorted[..q] + [sorted[q]] + sorted[q + 1..];
      assert multiset(sorted) == multiset(sorted[..q]) + multiset{sorted[q]} + multiset(sorted[q + 1..]);
      assert sorted[p] == sorted[..q][p];
      assert multiset(sorted)[sorted[q]] <= 1;
    }
    DistinctBelow(sorted, n);
  }

  lemma FindIn(live: seq<nat>, x: nat) returns (a: nat)
    requires x in multiset(live)
    ensures a < |live| && live[a] == x
  {
    assert x in live;
    a :| a < |live| && live[a] == x;
  }

  /** A node no heavier than any in the heap is a lightest root. */
  lemma LightestRoot(f: seq<nat>, lr: seq<nat>, n: nat, trees: seq<Tree>, ids: seq<nat>, a: nat)
    requires Trees(f, lr, n, trees) && Below(ids, |trees|) && a < |ids|
    requires forall x :: x in multiset(ids) ==> x < |f| && f[ids[a]] <= f[x]
    ensures Lightest(ids, trees, a)
  {
    forall p | 0 <= p < |ids|
      ensures Weight(trees[ids[a]]) <= Weight(trees[ids[p]])
    {
      assert ids[p] in multiset(ids);
    }
  }

  lemma BelowWithout(ids: seq<nat>, n: nat, i: nat)
    requires Below(ids, n) && i < |ids|
    ensures Below(O.Without(ids, i), n) && ids[i] < n
  {
  }

  /** No joined weight overflows 16 bits: it is part of the total. */
  lemma NoOverflow(f: seq<nat>, lr: seq<nat>, n: nat, trees: seq<Tree>, live: seq<nat>, sorted: seq<nat>,
                   last: nat, total: nat, leaves: multiset<nat>, a: nat, b: nat)
    requires Merging(f, lr, n, trees, live, sorted, last, total, leaves)
    requires a < |live| && b < |live| - 1 && Below(O.Without(live, a), |trees|)
    ensures f[live[a]] + f[O.Without(live, a)[b]] <= total
  {
    hide Roots, SortedSoFar, BagOf;
    TakeOutTree(live, trees, a);
    TakeOutTree(O.Without(live, a), trees, b);
  }

  /** The sorted list has room for one more leaf taken out of the heap. */
  lemma TakeFits(f: seq<nat>, lr: seq<nat>, n: nat, trees: seq<Tree>, live: seq<nat>, sorted: seq<nat>,
                 last: nat, total: nat, leaves: multiset<nat>, a: nat)
    requires Merging(f, lr, n, trees, live, sorted, last, total, leaves) && a < |live|
    ensures |Listed(n, sorted, live[a])| <= n
  {
    hide Totals, SortedSoFar;
    TakeSorted(f, n, live, sorted, last, a);
    SortedFits(f, n, O.Without(live, a), Listed(n, sorted, live[a]), f[live[a]]);
  }

  lemma MergingFits(f: seq<nat>, lr: seq<nat>, n: nat, trees: seq<Tree>, live: seq<nat>, sorted: seq<nat>,
                    last: nat, total: nat, leaves: multiset<nat>)
    requires Merging(f, lr, n, trees, live, sorted, last, total, leaves)
    ensures |sorted| <= n <= |trees| <= |f| && Trees(f, lr, n, trees) && Below(live, |trees|)
  {
    hide Totals, Roots, Below;
    SortedFits(f, n, live, sorted, last);
  }

  // ---------- The merging loop ----------

  /** Lists node i if it is a leaf. */
  method ListLeaf(n: nat, sorted: array<nat>, m: nat, i: nat) returns (m': nat)
    requires |Listed(n, sorted[..if m <= sorted.Length then m else 0], i)| <= n <= sorted.Length && m <= sorted.Length
    modifies sorted
    ensures m' <= n && sorted[..m'] == Listed(n, old(sorted[..m]), i)
  {
    m' := m;
    if i < n {
      sorted[m] := i;
      m' := m + 1;
    }
  }

  /** The nodes i and j, i taken out and j at the root of the heap, become the children of node k. */
  method JoinNodes(freq: array<nat>, heap: array<nat>, size: nat, leftright: array<nat>, i: nat, j: nat, k: nat)
    requires 1 <= size < heap.Length && i < freq.Length && j < freq.Length && k < freq.Length
    requires k * 2 + 1 < leftright.Length && freq[i] + freq[j] < 65536
    requires heap != freq && heap != leftright && freq != leftright
    requires Ordered(heap[..], freq[..], 1, size) && heap[1] == j && k !in Nodes(heap[..], size)
    modifies freq, heap, leftright
    ensures freq[..] == old(freq[..])[k := old(freq[..])[i] + old(freq[..])[j]]
    ensures leftright[..] == old(leftright[..])[k * 2 := i][k * 2 + 1 := j]
    ensures Ordered(heap[..], freq[..], 1, size)
    ensures Nodes(heap[..], size) == With(Take(old(Nodes(heap[..], size)), j), k)
  {
    hide Ordered, Nodes, Wrap16;
    ghost var f := freq[..];
    NoWrap(freq[i] + freq[j]);
    freq[k] := Wrap16(freq[i] + freq[j]);
    OrderedMore(heap[..], f, freq[..], 1, size, k);
    ReplaceRoot(heap[..], freq[..], size, k);
    heap[1] := k;
    DownHeap(heap, freq, size, 1);
    leftright[k * 2], leftright[k * 2 + 1] := i, j;
  }

  lemma NoWrap(x: nat)
    requires x < 65536
    ensures Wrap16(x) == x
  {
  }

  lemma JoinedRootsAre(live: seq<nat>, a: nat, b: nat, k: nat)
    requires a < |live| && b < |live| - 1
    ensures multiset(JoinedRoots(live, a, b, k))
            == With(Take(Take(multiset(live), live[a]), O.Without(live, a)[b]), k)
    ensures k in JoinedRoots(live, a, b, k)
  {
    hide O.Without, Take;
    WithoutElements(live, a);
    WithoutElements(O.Without(live, a), b);
    assert multiset(JoinedRoots(live, a, b, k)) == With(multiset(O.Without(O.Without(live, a), b)), k);
    assert JoinedRoots(live, a, b, k)[|live| - 2] == k;
  }

  /** One round of the merging loop. */
  method MergeTwo(n: nat, freq: array<nat>, heap: array<nat>, size: nat, leftright: array<nat>, sorted: array<nat>,
                  m: nat, k: nat, ghost leaves: multiset<nat>, ghost trees: seq<Tree>, ghost live: seq<nat>,
                  ghost last: nat, ghost total: nat)
      returns (m': nat, ghost trees': seq<Tree>, ghost live': seq<nat>, ghost last': nat)
    requires 2 <= size < heap.Length && total < 65536 && k == |trees| && n <= k < freq.Length
             && k * 2 + 1 < leftright.Length
    requires n <= sorted.Length && m <= n
    requires heap != freq && heap != leftright && heap != sorted && freq != leftright && freq != sorted
             && leftright != sorted
    requires Ordered(heap[..], freq[..], 1, size) && |live| == size && multiset(live) == Nodes(heap[..], size)
    requires Merging(freq[..], leftright[..], n, trees, live, sorted[..m], last, total, leaves)
    modifies freq, heap, leftright, sorted
    ensures freq[..n] == old(freq[..n]) && m' <= n
    ensures Ordered(heap[..], freq[..], 1, size - 1) && |live'| == size - 1
            && multiset(live') == Nodes(heap[..], size - 1)
    ensures Merging(freq[..], leftright[..], n, trees', live', sorted[..m'], last', total, leaves)
    ensures |trees'| == k + 1 && trees'[k].Node? && k in live'
  {
    hide *;
    ghost var f, lr, listed := freq[..], leftright[..], sorted[..m];
    MergingFits(f, lr, n, trees, live, listed, last, total, leaves);
    var i := RemoveRoot(heap, freq, size);
    ghost var a := FindIn(live, i);
    LightestRoot(f, lr, n, trees, live, a);
    TakeFits(f, lr, n, trees, live, listed, last, total, leaves, a);
    m' := ListLeaf(n, sorted, m, i);
    ghost var rest := O.Without(live, a);
    WithoutElements(live, a);
    BelowWithout(live, |trees|, a);
    RootLeastOfAll(heap[..], freq[..], size - 1);
    RootInside(heap[..], size - 1);
    var j := heap[1];
    ghost var b := FindIn(rest, j);
    LightestRoot(f, lr, n, trees, rest, b);
    BelowWithout(rest, |trees|, b);
    NoOverflow(f, lr, n, trees, live, listed, last, total, leaves, a, b);
    MergeStep(f, lr, n, trees, live, listed, last, total, leaves, a, b,
              f[k := f[i] + f[j]], lr[k * 2 := i][k * 2 + 1 := j]);
    JoinedRootsAre(live, a, b, k);
    trees', live', last' := trees + [Node(trees[i], trees[j])], JoinedRoots(live, a, b, k), f[j];
    MergingFits(f[k := f[i] + f[j]], lr[k * 2 := i][k * 2 + 1 := j], n, trees', live',
                Listed(n, Listed(n, listed, i), j), f[j], total, leaves);
    m' := ListLeaf(n, sorted, m', j);
    NodeIsNew(rest, |trees|, k);
    JoinNodes(freq, heap, size - 1, leftright, i, j, k);
  }

  /** make_tree2 without its last line: the heap is made, the two least nodes are joined until one is
      left, and the leaves are listed as they come out. */
  method MergeAll(n: nat, freq: array<nat>, heap: array<nat>, heapsize: nat, leftright: array<nat>, sorted: array<nat>,
                  ghost leaves: multiset<nat>, ghost trees0: seq<Tree>, ghost live0: seq<nat>, ghost total: nat)
      returns (root: nat, m: nat, ghost trees: seq<Tree>, ghost last: nat)
    requires 2 <= heapsize <= n && heapsize < heap.Length && total < 65536
    requires freq.Length >= 2 * n && leftright.Length >= 4 * n && sorted.Length >= n
    requires heap != freq && heap != leftright && heap != sorted && freq != leftright && freq != sorted
             && leftright != sorted
    requires |trees0| == n && live0 == heap[1..heapsize + 1]
    requires Merging(freq[..], leftright[..], n, trees0, live0, [], 0, total, leaves)
    modifies freq, heap, leftright, sorted
    ensures freq[..n] == old(freq[..n]) && m <= n
    ensures Merging(freq[..], leftright[..], n, trees, [root], sorted[..m], last, total, leaves)
    ensures n <= root < |trees| && trees[root].Node?
  {
    hide Merging, Ordered, Trees, Below, Nodes;
    MergingFits(freq[..], leftright[..], n, trees0, live0, [], 0, total, leaves);
    AllBelow(heap[..], heapsize, live0, n);
    HeapIs(heap[..], heapsize, live0);
    BuildHeap(heap, freq, heapsize);
    ghost var live := live0;
    var size, avail: nat := heapsize, n;
    root, m, trees, last := n, 0, trees0, 0;
    assert sorted[..0] == [];
    while size > 1
      invariant 1 <= size <= heapsize && avail == |trees| && avail + size == n + heapsize && m <= n
      invariant freq[..n] == old(freq[..n]) && Ordered(heap[..], freq[..], 1, size)
      invariant |live| == size && multiset(live) == Nodes(heap[..], size)
      invariant Merging(freq[..], leftright[..], n, trees, live, sorted[..m], last, total, leaves)
      invariant size < heapsize ==> n <= root < |trees| && trees[root].Node? && root in live && root == avail - 1
    {
      m, trees, live, last :=
        MergeTwo(n, freq, heap, size, leftright, sorted, m, avail, leaves, trees, live, last, total);
      root := avail;
      avail := avail + 1;
      size := size - 1;
    }
    assert live == [root];
  }

  lemma NodeIsNew(ids: seq<nat>, n: nat, k: nat)
    requires Below(ids, n) && k >= n
    ensures k !in multiset(ids)
  {
  }

  lemma HeapIs(h: seq<nat>, size: nat, ids: seq<nat>)
    requires size < |h| && ids == h[1..size + 1]
    ensures Nodes(h, size) == multiset(ids)
  {
  }

  lemma AllBelow(h: seq<nat>, size: nat, ids: seq<nat>, n: nat)
    requires size < |h| && ids == h[1..size + 1] && Below(ids, n)
    ensures forall j :: 1 <= j <= size ==> h[j] < n
  {
    forall j | 1 <= j <= size
      ensures h[j] < n
    {
      assert ids[j - 1] == h[j];
    }
  }

  // ---------- What the lengths amount to ----------

  /** All the bits a text with these frequencies takes with these code lengths. */
  function TotalBits(f: seq<nat>, lens: seq<nat>): nat
    requires |f| == |lens|
  {
    if f == [] then 0 else TotalBits(f[..|f| - 1], lens[..|f| - 1]) + O.Product(f[|f| - 1], lens[|f| - 1])
  }

  /** A prefix-free choice of one code for every symbol that occurs. */
  ghost predicate PrefixCode(f: seq<nat>, cs: seq<seq<bool>>) {
    |cs| == |f|
    && forall s, t :: 0 <= s < |f| && 0 <= t < |f| && f[s] > 0 && f[t] > 0 && s != t ==> !(cs[s] <= cs[t])
  }

  function LengthsOf(cs: seq<seq<bool>>): (r: seq<nat>)
    ensures |r| == |cs| && forall i :: 0 <= i < |r| ==> r[i] == |cs[i]|
  {
    seq(|cs|, i requires 0 <= i < |cs| => |cs[i]|)
  }

  ghost predicate Optimal(f: seq<nat>, lens: seq<nat>) {
    |f| == |lens| && forall cs :: PrefixCode(f, cs) ==> TotalBits(f, lens) <= TotalBits(f, LengthsOf(cs))
  }

  /** Exactly the symbols that occur have a code, the codes fill the code space, and a rarer symbol
      never has a shorter code. */
  ghost predicate ProperLengths(f: seq<nat>, lens: seq<nat>) {
    && |f| == |lens| && Complete(lens)
    && (forall s :: 0 <= s < |f| ==> (lens[s] > 0 <==> f[s] > 0))
    && (forall s, t :: 0 <= s < |f| && 0 <= t < |f| && 0 < f[s] < f[t] ==> lens[s] >= lens[t])
  }

  /** sorted lists every symbol that occurs once, the rarest first. */
  ghost predicate Lists(f: seq<nat>, sorted: seq<nat>) {
    && (forall p :: 0 <= p < |sorted| ==> sorted[p] < |f|)
    && (forall p, q :: 0 <= p < q < |sorted| ==> sorted[p] != sorted[q])
    && (forall s :: 0 <= s < |f| ==> (s in sorted <==> f[s] > 0))
  }

  ghost predicate Ascending(f: seq<nat>, sorted: seq<nat>) {
    && (forall p :: 0 <= p < |sorted| ==> sorted[p] < |f|)
    && (forall p, q :: 0 <= p < q < |sorted| ==> f[sorted[p]] <= f[sorted[q]])
  }

  /** lens gives the p-th sorted symbol length ls[p], and 0 to the others. */
  ghost predicate HandedOut(lens: seq<nat>, sorted: seq<nat>, ls: seq<nat>) {
    && |ls| == |sorted|
    && (forall p :: 0 <= p < |sorted| ==> sorted[p] < |lens| && lens[sorted[p]] == ls[p])
    && (forall s :: 0 <= s < |lens| && s !in sorted ==> lens[s] == 0)
  }

  lemma {:induction false} CountUpdate(lens: seq<nat>, s: nat, v: nat, i: nat)
    requires s < |lens|
    ensures Count(lens[s := v], i) + (if lens[s] == i then 1 else 0) == Count(lens, i) + (if v == i then 1 else 0)
  {
    var n := |lens| - 1;
    if s == n {
      assert lens[s := v][..n] == lens[..n];
    } else {
      CountUpdate(lens[..n], s, v, i);
      assert lens[s := v][..n] == lens[..n][s := v];
    }
  }

  lemma {:induction false} CountZero(lens: seq<nat>, i: nat)
    requires forall s :: 0 <= s < |lens| ==> lens[s] != i
    ensures Count(lens, i) == 0
  {
    if lens != [] {
      CountZero(lens[..|lens| - 1], i);
    }
  }

  lemma {:induction false} CountHandedOut(lens: seq<nat>, sorted: seq<nat>, ls: seq<nat>, i: nat)
    requires HandedOut(lens, sorted, ls) && i > 0
    requires forall p, q :: 0 <= p < q < |sorted| ==> sorted[p] != sorted[q]
    ensures Count(lens, i) == Count(ls, i)
    decreases |sorted|
  {
    hide Count;
    if sorted == [] {
      CountZero(lens, i);
      CountLast(ls, i);
    } else {
      var m := |sorted| - 1;
      CountUpdate(lens, sorted[m], 0, i);
      HandedOutLess(lens, sorted, ls);
      CountHandedOut(lens[sorted[m] := 0], sorted[..m], ls[..m], i);
      CountLast(ls, i);
    }
  }

  lemma CountLast(ls: seq<nat>, i: nat)
    ensures ls == [] ==> Count(ls, i) == 0
    ensures ls != [] ==> Count(ls, i) == Count(ls[..|ls| - 1], i) + if ls[|ls| - 1] == i then 1 else 0
  {
  }

  /** Taking the last length back. */
  lemma HandedOutLess(lens: seq<nat>, sorted: seq<nat>, ls: seq<nat>)
    requires HandedOut(lens, sorted, ls) && sorted != []
    requires forall p, q :: 0 <= p < q < |sorted| ==> sorted[p] != sorted[q]
    ensures var m := |sorted| - 1;
            sorted[m] < |lens| && lens[sorted[m]] == ls[m] && HandedOut(lens[sorted[m] := 0], sorted[..m], ls[..m])
  {
    var m := |sorted| - 1;
    var s := sorted[m];
    forall t | 0 <= t < |lens| && t !in sorted[..m] ensures lens[s := 0][t] == 0 {
      assert t in sorted ==> t == s;
    }
  }

  lemma {:induction false} CountConcat(a: seq<nat>, b: seq<nat>, i: nat)
    ensures Count(a + b, i) == Count(a, i) + Count(b, i)
  {
    if b == [] {
      assert a + b == a;
    } else {
      var c := b[..|b| - 1];
      CountConcat(a, c, i);
      assert (a + b)[..|a + b| - 1] == a + c;
    }
  }

  lemma {:induction false} CountBlock(k: nat, v: nat, i: nat)
    ensures Count(seq(k, _ => v), i) == if i == v then k else 0
  {
    if k > 0 {
      CountBlock(k - 1, v, i);
      assert seq(k, _ => v)[..k - 1] == seq(k - 1, _ => v);
    }
  }

  lemma {:induction false} CountSpread(cnt: seq<nat>, m: nat, i: nat)
    requires |cnt| == 17 && m <= 16 && i >= 1
    ensures Count(Spread(cnt, m), i) == if i <= m then cnt[i] else 0
  {
    if m > 0 {
      CountSpread(cnt, m - 1, i);
      CountConcat(seq(cnt[m], _ => m), Spread(cnt, m - 1), i);
      CountBlock(cnt[m], m, i);
    }
  }

  lemma {:induction false} KraftIsStart(cnt: seq<nat>, lens: seq<nat>, i: nat)
    requires |cnt| == 17 && i <= 16 && forall j :: 1 <= j <= 16 ==> Count(lens, j) == cnt[j]
    ensures KraftUpTo(cnt, i) == if i == 16 then LongFrom(lens, 16) else Start(lens, i + 1)
  {
    hide Scale, Start, LongFrom;
    if i > 0 {
      KraftIsStart(cnt, lens, i - 1);
      NextStart(lens, i);
    } else {
      FirstStart(lens);
    }
  }

  /** Lengths handed out from counts with a full Kraft sum, longest to the rarest. */
  lemma LengthsProper(f: seq<nat>, lens: seq<nat>, sorted: seq<nat>, cnt: seq<nat>)
    requires |cnt| == 17 && KraftUpTo(cnt, 16) == 65536 && TotalUpTo(cnt, 16) == |sorted| && |lens| == |f|
    requires Lists(f, sorted) && Ascending(f, sorted) && HandedOut(lens, sorted, Spread(cnt, 16))
    ensures ProperLengths(f, lens)
  {
    var ls := Spread(cnt, 16);
    SpreadDescends(cnt, 16);
    hide Scale, LongFrom, Count, FirstCode, KraftUpTo, TotalUpTo, Spread, Complete;
    forall j | 1 <= j <= 16
      ensures Count(lens, j) == cnt[j]
    {
      CountHandedOut(lens, sorted, ls, j);
      CountSpread(cnt, 16, j);
    }
    KraftIsStart(cnt, lens, 16);
    assert IsLengths(lens) by {
      forall s | 0 <= s < |lens|
        ensures lens[s] <= 16
      {
        if s in sorted {
          var p :| 0 <= p < |sorted| && sorted[p] == s;
        }
      }
    }
    CompleteSum(lens);
    UsedIffListed(f, lens, sorted, ls);
    forall s, t | 0 <= s < |f| && 0 <= t < |f| && 0 < f[s] < f[t]
      ensures lens[s] >= lens[t]
    {
      assert s in sorted && t in sorted;
      var p :| 0 <= p < |sorted| && sorted[p] == s;
      var q :| 0 <= q < |sorted| && sorted[q] == t;
      assert lens[s] == ls[p] && lens[t] == ls[q];
      assert p < q;
    }
  }

  lemma UsedIffListed(f: seq<nat>, lens: seq<nat>, sorted: seq<nat>, ls: seq<nat>)
    requires Lists(f, sorted) && |lens| == |f| && HandedOut(lens, sorted, ls)
    requires forall p :: 0 <= p < |ls| ==> ls[p] >= 1
    ensures forall s :: 0 <= s < |f| ==> (lens[s] > 0 <==> f[s] > 0)
  {
    forall s | 0 <= s < |f|
      ensures lens[s] > 0 <==> f[s] > 0
    {
      if s in sorted {
        var p :| 0 <= p < |sorted| && sorted[p] == s;
      }
    }
  }

  // ---------- Optimality ----------

  /** The (frequency, length) pairs along the sorted list. */
  ghost function Along(f: seq<nat>, sorted: seq<nat>, ls: seq<nat>): (ps: seq<O.Pair>)
    requires |ls| == |sorted| && forall p :: 0 <= p < |sorted| ==> sorted[p] < |f|
    ensures |ps| == |sorted| && forall p :: 0 <= p < |ps| ==> ps[p] == (f[sorted[p]], ls[p])
  {
    seq(|sorted|, p requires 0 <= p < |sorted| => (f[sorted[p]], ls[p]))
  }

  lemma ProductZero(l: nat)
    ensures O.Product(0, l) == 0
  {
  }

  lemma {:induction false} TotalBitsUpdate(f: seq<nat>, lens: seq<nat>, s: nat)
    requires |f| == |lens| && s < |f|
    ensures TotalBits(f, lens) == TotalBits(f[s := 0], lens) + O.Product(f[s], lens[s])
  {
    hide O.Product;
    var n := |f| - 1;
    ProductZero(lens[s]);
    if s == n {
      assert f[s := 0][..n] == f[..n];
    } else {
      TotalBitsUpdate(f[..n], lens[..n], s);
      assert f[s := 0][..n] == f[..n][s := 0];
    }
  }

  lemma {:induction false} TotalBitsNone(f: seq<nat>, lens: seq<nat>)
    requires |f| == |lens| && forall s :: 0 <= s < |f| ==> f[s] == 0
    ensures TotalBits(f, lens) == 0
  {
    hide O.Product;
    if f != [] {
      TotalBitsNone(f[..|f| - 1], lens[..|f| - 1]);
      ProductZero(lens[|f| - 1]);
    }
  }

  /** The total over the symbols is the total along the sorted list. */
  lemma {:induction false} TotalAlong(f: seq<nat>, lens: seq<nat>, sorted: seq<nat>, ls: seq<nat>, d: nat)
    requires |f| == |lens| && Lists(f, sorted) && |ls| == |sorted|
    requires forall p :: 0 <= p < |sorted| ==> sorted[p] < |f| && lens[sorted[p]] == ls[p]
    ensures O.Sum(Along(f, sorted, ls), d).cost == TotalBits(f, lens)
    decreases |sorted|
  {
    hide O.Product, TotalBits, Pow2;
    if sorted == [] {
      TotalBitsNone(f, lens);
    } else {
      var s := sorted[0];
      TotalBitsUpdate(f, lens, s);
      ListsRest(f, sorted);
      TotalAlong(f[s := 0], lens, sorted[1..], ls[1..], d);
      assert Along(f, sorted, ls)[1..] == Along(f[s := 0], sorted[1..], ls[1..]);
    }
  }

  lemma ListsRest(f: seq<nat>, sorted: seq<nat>)
    requires Lists(f, sorted) && sorted != []
    ensures Lists(f[sorted[0] := 0], sorted[1..])
  {
    assert forall t :: t in sorted <==> t == sorted[0] || t in sorted[1..];
    assert sorted[0] !in sorted[1..];
  }

  ghost function WeightsOf(f: seq<nat>, ids: seq<nat>): multiset<nat>
    requires Below(ids, |f|)
  {
    if ids == [] then multiset{} else multiset{f[ids[0]]} + WeightsOf(f, ids[1..])
  }

  lemma {:induction false} WeightsAlong(f: seq<nat>, sorted: seq<nat>, ls: seq<nat>, d: nat)
    requires |ls| == |sorted| && Below(sorted, |f|)
    ensures O.Sum(Along(f, sorted, ls), d).weights == WeightsOf(f, sorted)
  {
    hide O.Product, Pow2;
    if sorted != [] {
      WeightsAlong(f, sorted[1..], ls[1..], d);
      assert Along(f, sorted, ls)[1..] == Along(f, sorted[1..], ls[1..]);
    }
  }

  lemma {:induction false} LengthsAlong(f: seq<nat>, sorted: seq<nat>, ls: seq<nat>, d: nat, i: nat)
    requires |ls| == |sorted| && Below(sorted, |f|)
    ensures O.Sum(Along(f, sorted, ls), d).lengths[i] == Count(ls, i)
  {
    hide O.Product, Pow2;
    if sorted == [] {
    } else {
      LengthsAlong(f, sorted[1..], ls[1..], d, i);
      assert Along(f, sorted, ls)[1..] == Along(f, sorted[1..], ls[1..]);
      assert ls == [ls[0]] + ls[1..];
      CountConcat([ls[0]], ls[1..], i);
      assert [ls[0]][..0] == [];
    }
  }

  /** When no leaf of the tree lies deeper than 16, no prefix code beats the lengths handed out. */
  lemma LengthsOptimal(f: seq<nat>, lens: seq<nat>, sorted: seq<nat>, t: Tree)
    requires |lens| == |f| && t.Node? && Height(t) <= 16
    requires Lists(f, sorted) && Ascending(f, sorted)
    requires TotalUpTo(CountSeq(t, 0), 16) == |sorted| && HandedOut(lens, sorted, Spread(CountSeq(t, 0), 16))
    requires Below(sorted, |f|) && WeightsOf(f, sorted) == LeafWeights(t) && InnerSum(t) == O.Huffman(LeafWeights(t))
    ensures Optimal(f, lens)
  {
    hide TotalUpTo, Spread, O.Sum, O.Huffman, TotalBits, O.Product, InnerSum, LeafWeights, Height, WeightsOf, Weight;
    var ls := Spread(CountSeq(t, 0), 16);
    var qs, ps := Along(f, sorted, ls), Pairs(t, 0);
    SpreadDescends(CountSeq(t, 0), 16);
    WeightsAlong(f, sorted, ls, 16);
    WeightsOfPairs(t, 0, 16);
    SameLengths(f, sorted, t);
    O.Rearrangement(ps, qs, 16);
    CostIsInnerSum(t, 0, 16);
    assert O.Product(Weight(t), 0) == 0 by { ProductByZero(Weight(t)); }
    TotalAlong(f, lens, sorted, ls, 16);
    forall cs | PrefixCode(f, cs)
      ensures TotalBits(f, lens) <= TotalBits(f, LengthsOf(cs))
    {
      AnyPrefixCode(f, sorted, cs);
    }
  }

  lemma ProductByZero(w: nat)
    ensures O.Product(w, 0) == 0
  {
  }

  lemma SameLengths(f: seq<nat>, sorted: seq<nat>, t: Tree)
    requires t.Node? && Height(t) <= 16 && Below(sorted, |f|) && TotalUpTo(CountSeq(t, 0), 16) == |sorted|
    ensures var qs := Along(f, sorted, Spread(CountSeq(t, 0), 16));
            O.Sum(Pairs(t, 0), 16).lengths == O.Sum(qs, 16).lengths && O.AtMost(Pairs(t, 0), 16)
  {
    hide TotalUpTo, Spread, O.Sum, Height, DepthCount;
    var ls := Spread(CountSeq(t, 0), 16);
    LengthsOfPairs(t, 0, 16, 0);
    forall i: nat
      ensures O.Sum(Pairs(t, 0), 16).lengths[i] == O.Sum(Along(f, sorted, ls), 16).lengths[i]
    {
      LengthsOfPairs(t, 0, 16, i);
      LengthsAlong(f, sorted, ls, 16, i);
      if i == 0 {
        NoZeroDepth(t);
        SpreadDescends(CountSeq(t, 0), 16);
        CountZero(ls, 0);
      } else {
        CountSpread(CountSeq(t, 0), 16, i);
        if i > 16 {
          CountWithinHeight(t, 0, i);
        }
      }
    }
  }

  lemma {:induction false} NoDepthBelow(t: Tree, d: nat)
    requires d >= 1
    ensures DepthCount(t, d, 0) == 0
    decreases t
  {
    if t.Node? {
      NoDepthBelow(t.left, d + 1);
      NoDepthBelow(t.right, d + 1);
    }
  }

  lemma NoZeroDepth(t: Tree)
    requires t.Node?
    ensures DepthCount(t, 0, 0) == 0
  {
    NoDepthBelow(t.left, 1);
    NoDepthBelow(t.right, 1);
  }

  /** Huffman's total is a lower bound for every prefix code of the symbols. */
  lemma AnyPrefixCode(f: seq<nat>, sorted: seq<nat>, cs: seq<seq<bool>>)
    requires Lists(f, sorted) && PrefixCode(f, cs) && Below(sorted, |f|)
    ensures O.Huffman(WeightsOf(f, sorted)) <= TotalBits(f, LengthsOf(cs))
  {
    hide O.Sum, O.Huffman, TotalBits, WeightsOf;
    var ds := seq(|sorted|, p requires 0 <= p < |sorted| => cs[sorted[p]]);
    var ws := seq(|sorted|, p requires 0 <= p < |sorted| => f[sorted[p]]);
    var d := Deepest(ds);
    assert O.PrefixFree(ds) by {
      forall i, j | 0 <= i < |ds| && 0 <= j < |ds| && i != j
        ensures !(ds[i] <= ds[j])
      {
        assert sorted[i] in sorted && sorted[j] in sorted;
        assert sorted[i] != sorted[j];
      }
    }
    O.HuffmanIsOptimal(ws, ds, d);
    var ls := LengthsOf(ds);
    assert O.Pairs(ws, ds) == Along(f, sorted, ls);
    WeightsAlong(f, sorted, ls, d);
    TotalAlong(f, LengthsOf(cs), sorted, ls, d);
  }

  function Deepest(cs: seq<seq<bool>>): (d: nat)
    ensures O.Shallow(cs, d)
  {
    if cs == [] then 0
    else
      var r := Deepest(cs[1..]);
      if |cs[0]| > r then |cs[0]| else r
  }

  // ---------- Before the first merge ----------

  /** The symbols below k that occur, in order. */
  function UsedList(f: seq<nat>, k: nat): (r: seq<nat>)
    requires k <= |f|
    ensures |r| <= k && forall p :: 0 <= p < |r| ==> r[p] < k
  {
    if k == 0 then [] else if f[k - 1] > 0 then UsedList(f, k - 1) + [k - 1] else UsedList(f, k - 1)
  }

  function FreqSum(f: seq<nat>): nat {
    if f == [] then 0 else FreqSum(f[..|f| - 1]) + f[|f| - 1]
  }

  function LeafTrees(f: seq<nat>): (r: seq<Tree>)
    ensures |r| == |f| && forall k :: 0 <= k < |r| ==> r[k] == Leaf(f[k])
  {
    seq(|f|, k requires 0 <= k < |f| => Leaf(f[k]))
  }

  /** How often s occurs in a list. */
  function Occurs(ids: seq<nat>, s: nat): nat {
    multiset(ids)[s]
  }

  lemma {:induction false} UsedCount(f: seq<nat>, k: nat, s: nat)
    requires k <= |f| && s < |f|
    ensures Occurs(UsedList(f, k), s) == if s < k && f[s] > 0 then 1 else 0
  {
    hide UsedList, Occurs;
    if k > 0 {
      UsedListNext(f, k - 1);
      UsedCount(f, k - 1, s);
      AppendOne(UsedList(f, k - 1), k - 1, s);
    } else {
      NoneUsed(f);
      NoOccurrence(s);
    }
  }

  lemma NoOccurrence(s: nat)
    ensures Occurs([], s) == 0
  {
  }

  lemma AppendOne(ids: seq<nat>, x: nat, s: nat)
    ensures Occurs(ids + [x], s) == Occurs(ids, s) + (if s == x then 1 else 0)
  {
    assert multiset(ids + [x]) == multiset(ids) + multiset([x]);
  }

  lemma UsedListCounts(f: seq<nat>, k: nat)
    requires k <= |f|
    ensures forall s :: 0 <= s < |f| ==> multiset(UsedList(f, k))[s] == if s < k && f[s] > 0 then 1 else 0
    ensures forall s :: s in multiset(UsedList(f, k)) ==> s < k && f[s] > 0
  {
    hide UsedList;
    forall s | 0 <= s < |f|
      ensures multiset(UsedList(f, k))[s] == if s < k && f[s] > 0 then 1 else 0
    {
      UsedCount(f, k, s);
    }
    forall s | s in multiset(UsedList(f, k))
      ensures s < k && f[s] > 0
    {
      assert s in UsedList(f, k);
    }
  }

  lemma {:induction false} FreqSumPrefix(f: seq<nat>, k: nat)
    requires k < |f|
    ensures FreqSum(f[..k + 1]) == FreqSum(f[..k]) + f[k]
  {
    assert f[..k + 1][..k] == f[..k];
  }

  lemma {:induction false} StartBag(f: seq<nat>, k: nat)
    requires k <= |f|
    ensures var b := BagOf(UsedList(f, k), LeafTrees(f));
            b.total == FreqSum(f[..k]) && b.inner == 0 && b.roots == b.leaves
            && b.leaves == WeightsOf(f, UsedList(f, k))
  {
    hide BagOf, FreqSum, WeightsOf, LeafTrees;
    if k == 0 {
      NoBag(f);
    } else {
      StartBag(f, k - 1);
      FreqSumPrefix(f, k - 1);
      if f[k - 1] > 0 {
        AnotherLeaf(f, UsedList(f, k - 1), k - 1);
      }
    }
  }

  /** One more leaf in the bag. */
  lemma AnotherLeaf(f: seq<nat>, ids: seq<nat>, s: nat)
    requires s < |f| && Below(ids, |f|)
    ensures var b, b' := BagOf(ids, LeafTrees(f)), BagOf(ids + [s], LeafTrees(f));
            b'.total == b.total + f[s] && b'.inner == b.inner && b'.roots == b.roots + multiset{f[s]}
              && b'.leaves == b.leaves + multiset{f[s]}
    ensures WeightsOf(f, ids + [s]) == WeightsOf(f, ids) + multiset{f[s]}
  {
    hide BagOf, WeightsOf;
    TakeOutTree(ids + [s], LeafTrees(f), |ids|);
    assert O.Without(ids + [s], |ids|) == ids;
    WeightsLast(f, ids, s);
  }

  lemma NoBag(f: seq<nat>)
    ensures BagOf([], LeafTrees(f)) == Bag(0, 0, multiset{}, multiset{}) && FreqSum(f[..0]) == 0
    ensures WeightsOf(f, []) == multiset{}
  {
  }

  lemma {:induction false} WeightsWithout(f: seq<nat>, ids: seq<nat>, i: nat)
    requires Below(ids, |f|) && i < |ids|
    ensures WeightsOf(f, ids) == multiset{f[ids[i]]} + WeightsOf(f, O.Without(ids, i))
  {
    var r := O.Without(ids, i);
    if i == 0 {
      assert r == ids[1..];
    } else {
      WeightsWithout(f, ids[1..], i - 1);
      assert r[0] == ids[0] && r[1..] == O.Without(ids[1..], i - 1);
    }
  }

  lemma WeightsLast(f: seq<nat>, ids: seq<nat>, x: nat)
    requires Below(ids, |f|) && x < |f|
    ensures Below(ids + [x], |f|) && WeightsOf(f, ids + [x]) == multiset{f[x]} + WeightsOf(f, ids)
  {
    hide WeightsOf;
    WeightsWithout(f, ids + [x], |ids|);
    assert O.Without(ids + [x], |ids|) == ids;
  }

  /** The weights of a list of symbols do not depend on its order. */
  lemma {:induction false} WeightsPermuted(f: seq<nat>, a: seq<nat>, b: seq<nat>)
    requires Below(a, |f|) && Below(b, |f|) && multiset(a) == multiset(b)
    ensures WeightsOf(f, a) == WeightsOf(f, b) && |WeightsOf(f, a)| == |a| == |b|
    decreases |a|
  {
    assert |a| == |multiset(a)| == |multiset(b)| == |b|;
    if a != [] {
      assert a[0] in multiset(b);
      var i := FindIn(b, a[0]);
      WithoutElements(b, i);
      assert a == [a[0]] + a[1..];
      assert multiset(a) == multiset{a[0]} + multiset(a[1..]);
      assert multiset(a[1..]) == multiset(a) - multiset{a[0]};
      WeightsPermuted(f, a[1..], O.Without(b, i));
      WeightsWithout(f, b, i);
    }
  }

  lemma StartMerging(f: seq<nat>, lr: seq<nat>, n: nat)
    requires n <= |f| && 2 * n <= |lr|
    ensures var leaves, live := LeafTrees(f[..n]), UsedList(f[..n], n);
            Merging(f, lr, n, leaves, live, [], 0, FreqSum(f[..n]), WeightsOf(f[..n], live))
  {
    hide BagOf, FreqSum, WeightsOf, O.Huffman;
    var g := f[..n];
    var trees, live := LeafTrees(g), UsedList(g, n);
    assert g[..n] == g;
    StartBag(g, n);
    UsedListCounts(g, n);
    forall p | 0 <= p < |live|
      ensures live[p] < |trees| && Greedy(trees[live[p]]) && NotBelow(0, trees[live[p]])
    {
      assert live[p] in multiset(live);
    }
    assert forall s :: 0 <= s < n ==> g[s] == f[s];
    var none: seq<nat> := [];
    assert multiset(none) == multiset{};
  }

  // ---------- After the last merge ----------

  lemma MergingDone(f: seq<nat>, lr: seq<nat>, n: nat, trees: seq<Tree>, root: nat, sorted: seq<nat>, last: nat)
    requires n <= |f| && n <= root < |trees|
    requires Merging(f, lr, n, trees, [root], sorted, last, FreqSum(f[..n]), WeightsOf(f[..n], UsedList(f[..n], n)))
    ensures var g, t := f[..n], trees[root];
            Linked(lr, n, trees) && Lists(g, sorted) && Ascending(g, sorted) && Below(sorted, n) && Greedy(t)
            && Weight(t) == FreqSum(g) && WeightsOf(g, sorted) == LeafWeights(t) && Leaves(t) == |sorted|
            && InnerSum(t) == O.Huffman(LeafWeights(t))
  {
    hide FreqSum, WeightsOf, O.Huffman, Totals, SortedSoFar, Lists, Ascending, Greedy, Weight, LeafWeights, InnerSum;
    var g, t := f[..n], trees[root];
    RootTotals(trees, root, FreqSum(g), WeightsOf(g, UsedList(g, n)));
    ListedAll(f, n, root, sorted, last);
    WeightsPermuted(g, UsedList(g, n), sorted);
    assert [root][0] == root;
  }

  lemma RootTotals(trees: seq<Tree>, root: nat, total: nat, leaves: multiset<nat>)
    requires root < |trees| && Below([root], |trees|) && Totals([root], trees, total, leaves)
    ensures var t := trees[root];
            Weight(t) == total && LeafWeights(t) == leaves && InnerSum(t) == O.Huffman(leaves)
  {
    hide O.Huffman, Weight, LeafWeights, InnerSum;
    var t := trees[root];
    var b := BagOf([root], trees);
    TakeOutTree([root], trees, 0);
    assert O.Without([root], 0) == [];
    HuffmanOfRoot(Weight(t));
    assert b.roots == multiset{Weight(t)};
  }

  lemma HuffmanOfRoot(w: nat)
    ensures O.Huffman(multiset{w}) == 0
  {
    O.HuffmanOfOne(multiset{w});
  }

  lemma ListedAll(f: seq<nat>, n: nat, root: nat, sorted: seq<nat>, last: nat)
    requires n <= |f| && root >= n && SortedSoFar(f, n, [root], sorted, last)
    ensures Lists(f[..n], sorted) && Ascending(f[..n], sorted) && Below(sorted, n)
    ensures multiset(sorted) == multiset(UsedList(f[..n], n))
  {
    var g := f[..n];
    assert forall s :: 0 <= s < n ==> g[s] == f[s];
    SortedFits(f, n, [root], sorted, last);
    UsedListCounts(g, n);
    assert multiset([root]) == multiset{root};
    forall s: nat
      ensures multiset(sorted)[s] == multiset(UsedList(g, n))[s]
    {
      if s < n {
        assert multiset([root])[s] == 0;
      } else {
        NotListed(sorted, n, s);
        assert s !in multiset(UsedList(g, n));
      }
    }
    forall s | 0 <= s < n
      ensures s in sorted <==> g[s] > 0
    {
      assert s in sorted <==> s in multiset(sorted);
    }
  }

  lemma NotListed(ids: seq<nat>, n: nat, s: nat)
    requires Below(ids, n) && s >= n
    ensures multiset(ids)[s] == 0
  {
    assert s !in ids;
  }

  // ---------- make_tree ----------

  /** The frequencies make_tree works with: a lone symbol gets a companion. */
  function Padded(f: seq<nat>): (r: seq<nat>)
    requires |f| >= 2
    ensures |r| == |f|
  {
    var used := UsedList(f, |f|);
    if |used| != 1 then f else if used[0] == 0 then f[1 := 1] else f[0 := 1]
  }

  /** What make_tree promises about the lengths of a table with frequencies f. */
  ghost predicate TreeLengths(f: seq<nat>, lens: seq<nat>, t: Tree) {
    && ProperLengths(f, lens)
    && (Height(t) <= 16 ==> Optimal(f, lens))
    && ((forall s :: 0 <= s < |lens| ==> lens[s] < 16) ==> Height(t) < 16)
    && (Height(t) <= 16 ==> forall s :: 0 <= s < |lens| ==> lens[s] <= Height(t))
    && FreqSum(f) >= Fib(Height(t) + 2) && Height(t) < |f|
  }

  /** How deep a tree can be: 22 under a 16-bit total, 11 for the lengths of at most 272 symbols sent
      through the small tree, 7 for the tree of the low distance bits. */
  lemma DepthBounds(f: seq<nat>, lens: seq<nat>, t: Tree)
    requires TreeLengths(f, lens, t)
    ensures FreqSum(f) < 65536 ==> Height(t) <= 22
    ensures FreqSum(f) <= 273 ==> Height(t) <= 11 && forall s :: 0 <= s < |lens| ==> lens[s] <= 11
    ensures |f| == 8 ==> Height(t) <= 7 && forall s :: 0 <= s < |lens| ==> lens[s] <= 7
  {
    hide FreqSum, Height, Fib, Optimal, ProperLengths;
    SomeFibonacci();
    if Height(t) > 22 {
      FibMonotone(25, Height(t) + 2);
    }
    if Height(t) > 11 {
      FibMonotone(14, Height(t) + 2);
    }
  }

  lemma SomeFibonacci()
    ensures Fib(14) == 377 && Fib(25) == 75025
  {
    assert Fib(6) == 8 && Fib(7) == 13;
    assert Fib(8) == 21 && Fib(9) == 34;
    assert Fib(10) == 55 && Fib(11) == 89;
    assert Fib(12) == 144 && Fib(13) == 233;
    assert Fib(14) == 377 && Fib(15) == 610;
    assert Fib(16) == 987 && Fib(17) == 1597;
    assert Fib(18) == 2584 && Fib(19) == 4181;
    assert Fib(20) == 6765 && Fib(21) == 10946;
    assert Fib(22) == 17711 && Fib(23) == 28657;
    assert Fib(24) == 46368;
  }

  /** The end of make_tree2: the depths of the leaves become lengths of at most 16. */
  method MakeLen(n: nat, leftright: array<nat>, root: nat, sorted: array<nat>, m: nat, len: array<nat>, cnt: array<nat>,
                 ghost f: seq<nat>, ghost trees: seq<Tree>)
    requires cnt.Length == 17 && cnt != leftright && cnt != len && cnt != sorted && sorted != len && leftright != len
    requires |f| == n <= len.Length && m <= sorted.Length && root < |trees| && trees[root].Node? && n < 65536
    requires Linked(leftright[..], n, trees) && Lists(f, sorted[..m]) && Ascending(f, sorted[..m])
    requires Leaves(trees[root]) == m && Greedy(trees[root]) && Weight(trees[root]) == FreqSum(f)
    requires WeightsOf(f, sorted[..m]) == LeafWeights(trees[root])
    requires InnerSum(trees[root]) == O.Huffman(LeafWeights(trees[root]))
    requires forall s :: 0 <= s < n ==> len[s] == 0
    modifies len, cnt
    ensures TreeLengths(f, len[..n], trees[root])
    ensures forall l :: 1 <= l <= 16 ==> cnt[l] == Count(len[..n], l)
    ensures len[n..] == old(len[n..])
  {
    hide *;
    ghost var t, order := trees[root], sorted[..m];
    CountLeaves(n, leftright, root, cnt, trees);
    CutKraftIs(t, 0);
    ListBounds(f, order);
    ghost var srt := sorted[..];
    LimitLengths(cnt, Excess(t, 0));
    ghost var c := cnt[..];
    AssignLengths(cnt, sorted, len);
    assert cnt[..] == c && sorted[..] == srt;
    ghost var lens := len[..n];
    LengthsGiven(len[..], n, srt, m, c);
    CountsGiven(f, lens, order, c);
    LengthsOfTree(f, lens, order, c, t);
    NotInOrder(order, n);
    assert forall k :: n <= k < len.Length ==> len[k] == old(len[k]);
  }

  lemma NotInOrder(sorted: seq<nat>, n: nat)
    requires Below(sorted, n)
    ensures forall s :: n <= s ==> s !in sorted
  {
  }

  /** The leaves of the tree are counted by depth. */
  method CountLeaves(n: nat, leftright: array<nat>, root: nat, cnt: array<nat>, ghost trees: seq<Tree>)
    requires Linked(leftright[..], n, trees) && root < |trees| && trees[root].Node? && cnt.Length == 17
             && cnt != leftright
    modifies cnt
    ensures cnt[..] == CountSeq(trees[root], 0) && cnt[0] == 0 && cnt[16] == DepthCount(trees[root], 0, 16)
    ensures KraftUpTo(cnt[..], 16) == 65536 + Excess(trees[root], 0) && TotalUpTo(cnt[..], 16) == Leaves(trees[root])
  {
    hide Linked, TotalUpTo, KraftUpTo, DepthCount, Excess, Leaves;
    ghost var lr := leftright[..];
    forall i | 0 <= i < 17 { cnt[i] := 0; }
    assert leftright[..] == lr;
    CountLen(leftright, n, root, 0, cnt, trees);
    assert cnt[..] == CountSeq(trees[root], 0);
    RootCounts(trees[root]);
    NoZeroDepth(trees[root]);
  }

  /** Lengths handed out from the repaired depth counts of a greedy tree. */
  lemma LengthsOfTree(f: seq<nat>, lens: seq<nat>, sorted: seq<nat>, c: seq<nat>, t: Tree)
    requires t.Node? && |lens| == |f| && |c| == 17 && KraftUpTo(c, 16) == 65536 && TotalUpTo(c, 16) == |sorted|
    requires Lists(f, sorted) && Ascending(f, sorted) && HandedOut(lens, sorted, Spread(c, 16))
    requires forall l :: 1 <= l <= 16 ==> c[l] == Count(lens, l)
    requires Excess(t, 0) == 0 ==> c == CountSeq(t, 0)
    requires Excess(t, 0) > 0 ==> c[16] > 0
    requires Leaves(t) == |sorted| <= |f| && Greedy(t) && Weight(t) == FreqSum(f) && Below(sorted, |f|)
    requires WeightsOf(f, sorted) == LeafWeights(t) && InnerSum(t) == O.Huffman(LeafWeights(t))
    ensures TreeLengths(f, lens, t)
  {
    hide *;
    LengthsProper(f, lens, sorted, c);
    ProperComplete(f, lens);
    FibonacciBound(t);
    HeightBelowLeaves(t);
    if Height(t) <= 16 {
      ShallowTree(f, lens, sorted, c, t);
    }
    if Height(t) >= 16 {
      DeepTree(lens, c, t);
    }
    TreeLengthsFrom(f, lens, t);
  }

  lemma TreeLengthsFrom(f: seq<nat>, lens: seq<nat>, t: Tree)
    requires ProperLengths(f, lens) && FreqSum(f) >= Fib(Height(t) + 2) && Height(t) < |f|
    requires Height(t) <= 16 ==> Optimal(f, lens) && forall s :: 0 <= s < |lens| ==> lens[s] <= Height(t)
    requires Height(t) >= 16 ==> exists s :: 0 <= s < |lens| && lens[s] == 16
    ensures TreeLengths(f, lens, t)
  {
    hide ProperLengths, Fib, FreqSum, Height, Optimal;
  }

  lemma ShallowTree(f: seq<nat>, lens: seq<nat>, sorted: seq<nat>, c: seq<nat>, t: Tree)
    requires t.Node? && Height(t) <= 16 && |lens| == |f| && |c| == 17 && TotalUpTo(c, 16) == |sorted|
    requires Lists(f, sorted) && Ascending(f, sorted) && HandedOut(lens, sorted, Spread(c, 16)) && IsLengths(lens)
    requires forall l :: 1 <= l <= 16 ==> c[l] == Count(lens, l)
    requires Excess(t, 0) == 0 ==> c == CountSeq(t, 0)
    requires Below(sorted, |f|) && WeightsOf(f, sorted) == LeafWeights(t) && InnerSum(t) == O.Huffman(LeafWeights(t))
    ensures Optimal(f, lens) && forall s :: 0 <= s < |lens| ==> lens[s] <= Height(t)
  {
    hide *;
    NoExcess(t, 0);
    LengthsOptimal(f, lens, sorted, t);
    WithinHeight(lens, c, t);
  }

  lemma DeepTree(lens: seq<nat>, c: seq<nat>, t: Tree)
    requires t.Node? && Height(t) >= 16 && |c| == 17 && c[16] == Count(lens, 16)
    requires Excess(t, 0) == 0 ==> c == CountSeq(t, 0)
    requires Excess(t, 0) > 0 ==> c[16] > 0
    ensures exists s :: 0 <= s < |lens| && lens[s] == 16
  {
    hide Height, DepthCount, Excess, Count;
    DeepLeaf(t, 0);
    SomeLength(lens, 16);
  }

  lemma ProperComplete(f: seq<nat>, lens: seq<nat>)
    requires ProperLengths(f, lens)
    ensures |f| == |lens| && Complete(lens) && IsLengths(lens)
  {
  }

  lemma ListBounds(f: seq<nat>, sorted: seq<nat>)
    requires Lists(f, sorted)
    ensures |sorted| <= |f| && Below(sorted, |f|)
    ensures forall p, q :: 0 <= p < q < |sorted| ==> sorted[p] != sorted[q]
  {
    DistinctBelow(sorted, |f|);
  }

  lemma LengthsGiven(len: seq<nat>, n: nat, sorted: seq<nat>, m: nat, cnt: seq<nat>)
    requires |cnt| == 17 && m == TotalUpTo(cnt, 16) && n <= |len| && m <= |sorted| && Below(sorted[..m], n)
    requires forall p :: 0 <= p < m ==> sorted[p] < |len| && len[sorted[p]] == Spread(cnt, 16)[p]
    requires forall s :: 0 <= s < n && s !in sorted[..m] ==> len[s] == 0
    ensures HandedOut(len[..n], sorted[..m], Spread(cnt, 16))
  {
    hide TotalUpTo, Spread;
    forall p | 0 <= p < m
      ensures sorted[..m][p] < n && len[..n][sorted[..m][p]] == Spread(cnt, 16)[p]
    {
      assert sorted[..m][p] == sorted[p];
    }
  }

  lemma CountsGiven(f: seq<nat>, lens: seq<nat>, sorted: seq<nat>, cnt: seq<nat>)
    requires |cnt| == 17 && Lists(f, sorted) && HandedOut(lens, sorted, Spread(cnt, 16))
    ensures forall l :: 1 <= l <= 16 ==> cnt[l] == Count(lens, l)
  {
    hide TotalUpTo, Spread, Count, HandedOut;
    forall l | 1 <= l <= 16
      ensures cnt[l] == Count(lens, l)
    {
      CountHandedOut(lens, sorted, Spread(cnt, 16), l);
      CountSpread(cnt, 16, l);
    }
  }

  lemma WithinHeight(lens: seq<nat>, cnt: seq<nat>, t: Tree)
    requires t.Node? && Height(t) <= 16 && cnt == CountSeq(t, 0) && IsLengths(lens)
    requires forall l :: 1 <= l <= 16 ==> cnt[l] == Count(lens, l)
    ensures forall s :: 0 <= s < |lens| ==> lens[s] <= Height(t)
  {
    hide Height, DepthCount, Count;
    forall s | 0 <= s < |lens|
      ensures lens[s] <= Height(t)
    {
      CountSplit(lens, s, lens[s]);
      if lens[s] > Height(t) {
        CountWithinHeight(t, 0, lens[s]);
      }
    }
  }

  lemma {:induction false} DeepLeaf(t: Tree, d: nat)
    requires d + Height(t) >= 16
    ensures DepthCount(t, d, 16) > 0
    decreases t
  {
    if t.Node? {
      if Height(t.left) >= Height(t.right) {
        DeepLeaf(t.left, d + 1);
      } else {
        DeepLeaf(t.right, d + 1);
      }
    }
  }

  lemma SomeLength(lens: seq<nat>, l: nat)
    requires Count(lens, l) > 0
    ensures exists s :: 0 <= s < |lens| && lens[s] == l
  {
    if forall s :: 0 <= s < |lens| ==> lens[s] != l {
      CountZero(lens, l);
    }
  }

  /** The loop at the top of make_tree: lengths are cleared and the symbols that occur are gathered. */
  method Gather(n: nat, freq: array<nat>, len: array<nat>, heap: array<nat>) returns (heapsize: nat)
    requires n <= freq.Length && n <= len.Length && n < heap.Length && freq != len && freq != heap && len != heap
    modifies len, heap
    ensures heapsize <= n && heap[1..heapsize + 1] == UsedList(freq[..n], n)
    ensures forall s :: 0 <= s < n ==> len[s] == 0
    ensures len[n..] == old(len[n..]) && forall j :: heapsize < j < heap.Length ==> heap[j] == old(heap[j])
  {
    hide UsedList;
    ghost var f := freq[..n];
    heapsize := 0;
    NoneUsed(f);
    for i := 0 to n
      invariant heapsize <= i && heap[1..heapsize + 1] == UsedList(f, i)
      invariant forall s :: 0 <= s < i ==> len[s] == 0
      invariant len[n..] == old(len[n..]) && freq[..n] == f
      invariant forall j :: heapsize < j < heap.Length ==> heap[j] == old(heap[j])
    {
      len[i] := 0;
      UsedListNext(f, i);
      if freq[i] > 0 {
        heapsize := heapsize + 1;
        heap[heapsize] := i;
        assert heap[1..heapsize + 1] == heap[1..heapsize] + [i];
      }
    }
  }

  lemma NoneUsed(f: seq<nat>)
    ensures UsedList(f, 0) == []
  {
  }

  lemma UsedListNext(f: seq<nat>, k: nat)
    requires k < |f|
    ensures UsedList(f, k + 1) == if f[k] > 0 then UsedList(f, k) + [k] else UsedList(f, k)
  {
  }

  /** make_tree. With fewer than two symbols in use a companion is added and the work starts again;
      with none at all every length is zero. */
  method Make(n: nat, freq: array<nat>, len: array<nat>, code: array<nat>, makeCodes: bool) returns (ghost t: Tree)
    requires 2 <= n < 65536 && freq.Length >= 2 * n && len.Length >= n && code.Length >= n
    requires freq != len && freq != code && len != code && FreqSum(freq[..n]) + 1 < 65536
    modifies freq, len, code
    ensures freq[..n] == Padded(old(freq[..n])) && len[n..] == old(len[n..])
    ensures UsedList(old(freq[..n]), n) == [] ==> forall s :: 0 <= s < n ==> len[s] == 0
    ensures UsedList(old(freq[..n]), n) != [] ==> TreeLengths(freq[..n], len[..n], t)
    ensures UsedList(old(freq[..n]), n) != [] && makeCodes ==>
              forall s :: 0 <= s < n && len[s] > 0 ==> code[s] == CodeNumber(len[..n], s)
  {
    hide UsedList, FreqSum, TreeLengths, Merging, CodeNumber, WeightsOf, Linked, Lists, Ascending, Greedy, O.Huffman,
         InnerSum, LeafWeights, Weight, LeafTrees;
    t := Leaf(0);
    var heap := new nat[n + 2](i => 0);
    var leftright := new nat[4 * n](i => 0);
    var cnt := new nat[17](i => 0);
    ghost var given := freq[..n];
    var heapsize := Gather(n, freq, len, heap);
    if heapsize < 2 {
      if heapsize == 0 {
        code[heap[1]] := 0;
        PadNothing(given);
        return;
      }
      PadOne(given);
      assert heap[1] == heap[1..2][0];
      if heap[1] == 0 {
        freq[1] := 1;
      } else {
        freq[0] := 1;
      }
      assert freq[..n] == Padded(given);
      heapsize := Gather(n, freq, len, heap);
    } else {
      PadNothing(given);
    }
    ghost var f := freq[..n];
    StartMerging(freq[..], leftright[..], n);
    TreesSize(f);
    ghost var trees, last;
    var root, m;
    root, m, trees, last := MergeAll(n, freq, heap, heapsize, leftright, code, WeightsOf(f, UsedList(f, n)),
                                     LeafTrees(f), UsedList(f, n), FreqSum(f));
    MergingDone(freq[..], leftright[..], n, trees, root, code[..m], last);
    MakeLen(n, leftright, root, code, m, len, cnt, f, trees);
    t := trees[root];
    if makeCodes {
      TreeLengthsProper(f, len[..n], t);
      ProperComplete(f, len[..n]);
      MakeCode(cnt, len, n, code);
    }
  }

  lemma TreesSize(f: seq<nat>)
    ensures |LeafTrees(f)| == |f|
  {
  }

  lemma TreeLengthsProper(f: seq<nat>, lens: seq<nat>, t: Tree)
    requires TreeLengths(f, lens, t)
    ensures ProperLengths(f, lens)
  {
  }

  lemma PadNothing(f: seq<nat>)
    requires |f| >= 2 && |UsedList(f, |f|)| != 1
    ensures Padded(f) == f
  {
  }

  /** A lone symbol and its companion make two symbols. */
  lemma PadOne(f: seq<nat>)
    requires |f| >= 2 && |UsedList(f, |f|)| == 1
    ensures Padded(f) == (if UsedList(f, |f|)[0] == 0 then f[1 := 1] else f[0 := 1])
    ensures |UsedList(Padded(f), |f|)| == 2 && FreqSum(Padded(f)) == FreqSum(f) + 1
  {
    hide UsedList, FreqSum;
    var u := UsedList(f, |f|)[0];
    var c := if u == 0 then 1 else 0;
    assert UsedList(f, |f|) == [u];
    UsedCount(f, |f|, c);
    assert f[c] == 0 by { NotInOne(u, c); }
    UsedListAdd(f, |f|, c);
    FreqSumAdd(f, c);
  }

  lemma NotInOne(u: nat, c: nat)
    requires u != c
    ensures Occurs([u], c) == 0
  {
    assert multiset([u]) == multiset{u};
  }

  lemma {:induction false} UsedListAdd(f: seq<nat>, k: nat, c: nat)
    requires k <= |f| && c < |f| && f[c] == 0
    ensures |UsedList(f[c := 1], k)| == |UsedList(f, k)| + (if c < k then 1 else 0)
  {
    if k > 0 {
      UsedListAdd(f, k - 1, c);
    }
  }

  lemma {:induction false} FreqSumAdd(f: seq<nat>, c: nat)
    requires c < |f| && f[c] == 0
    ensures FreqSum(f[c := 1]) == FreqSum(f) + 1
  {
    var n := |f| - 1;
    if c == n {
      assert f[c := 1][..n] == f[..n];
    } else {
      FreqSumAdd(f[..n], c);
      assert f[c := 1][..n] == f[..n][c := 1];
    }
  }

  // ---------- Counting symbols ----------

  lemma {:induction false} FreqSumBump(f: seq<nat>, s: nat)
    requires s < |f|
    ensures FreqSum(f[s := f[s] + 1]) == FreqSum(f) + 1
  {
    var n := |f| - 1;
    if s == n {
      assert f[s := f[s] + 1][..n] == f[..n];
    } else {
      FreqSumBump(f[..n], s);
      assert f[s := f[s] + 1][..n] == f[..n][s := f[s] + 1];
    }
  }

  lemma {:induction false} FreqSumZero(f: seq<nat>)
    requires forall s :: 0 <= s < |f| ==> f[s] == 0
    ensures FreqSum(f) == 0
  {
    if f != [] {
      FreqSumZero(f[..|f| - 1]);
    }
  }

  /** Counting one symbol among n. */
  method Tally(freq: array<nat>, n: nat, s: nat)
    requires s < n <= freq.Length
    modifies freq
    ensures freq[s] == old(freq[s]) + 1 && FreqSum(freq[..n]) == old(FreqSum(freq[..n])) + 1
    ensures forall k :: 0 <= k < freq.Length && k != s ==> freq[k] == old(freq[k])
    ensures forall k :: 0 <= k < n ==> old(freq[k]) <= freq[k]
  {
    hide FreqSum;
    FreqSumBump(freq[..n], s);
    ghost var f := freq[..n];
    freq[s] := freq[s] + 1;
    assert freq[..n] == f[s := f[s] + 1];
  }

  /** Padding only raises frequencies, by one in all. */
  lemma PaddedMore(f: seq<nat>)
    requires |f| >= 2
    ensures forall s :: 0 <= s < |f| ==> f[s] <= Padded(f)[s]
    ensures FreqSum(Padded(f)) <= FreqSum(f) + 1
  {
    hide FreqSum, UsedList;
    if |UsedList(f, |f|)| == 1 {
      PadOne(f);
      PadRaises(f);
    }
  }

  lemma PadRaises(f: seq<nat>)
    requires |f| >= 2 && |UsedList(f, |f|)| == 1
    ensures forall s :: 0 <= s < |f| ==> f[s] <= Padded(f)[s]
  {
    hide UsedList;
    var u := UsedList(f, |f|)[0];
    var c := if u == 0 then 1 else 0;
    assert UsedList(f, |f|) == [u];
    UsedCount(f, |f|, c);
    NotInOne(u, c);
  }

  /** A symbol that occurs is listed. */
  lemma UsedSome(f: seq<nat>, s: nat)
    requires s < |f| && f[s] > 0
    ensures UsedList(f, |f|) != []
  {
    hide UsedList;
    UsedCount(f, |f|, s);
    if UsedList(f, |f|) == [] {
      NoOccurrence(s);
    }
  }

  /** The lengths made for frequencies f: complete, with a code for every symbol that occurs. */
  lemma MadeLengths(f: seq<nat>, lens: seq<nat>, t: Tree)
    requires |f| >= 2 && TreeLengths(Padded(f), lens, t)
    ensures |lens| == |f| && Complete(lens) && forall s :: 0 <= s < |f| && f[s] > 0 ==> lens[s] > 0
    ensures |f| <= 16 ==> forall s :: 0 <= s < |lens| ==> lens[s] < |f|
  {
    hide FreqSum, UsedList, Complete, Padded, Height, Fib, Optimal;
    PaddedMore(f);
  }
}
