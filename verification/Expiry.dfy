/** What is lost when positions are taken out of the trees while others expire. */
module Expiry {
  import opened Bits
  import opened MatchTree
  import opened MatchFinder

  // ---------- One removal ----------

  /** What a merge keeps of its upper side: everything off the right spine from the first expired node on. */
  ghost function RightKept(t: Tree, cut: nat): Tree {
    match t
    case Empty => Empty
    case Node(l, p, r) => if p <= cut then Empty else Node(l, p, RightKept(r, cut))
  }

  ghost function LeftKept(t: Tree, cut: nat): Tree {
    match t
    case Empty => Empty
    case Node(l, p, r) => if p <= cut then Empty else Node(LeftKept(l, cut), p, r)
  }

  /** A merge keeps exactly the nodes kept on either side. */
  lemma {:induction false} MergeKeeps(a: Tree, b: Tree, cut: nat)
    ensures Nodes(MergeLive(a, b, cut)) == Nodes(RightKept(a, cut)) + Nodes(LeftKept(b, cut))
    decreases a, b
  {
    if a.Node? && (b == Empty || a.pos > b.pos) {
      if a.pos > cut {
        MergeKeeps(a.right, b, cut);
      }
    } else if b.Node? {
      if b.pos > cut {
        MergeKeeps(a, b.left, cut);
      }
    }
  }

  /** No position after end and up to cut is on the right spine. */
  predicate RightClear(t: Tree, end: nat, cut: nat) {
    match t
    case Empty => true
    case Node(l, p, r) => !(end < p <= cut) && RightClear(r, end, cut)
  }

  predicate LeftClear(t: Tree, end: nat, cut: nat) {
    match t
    case Empty => true
    case Node(l, p, r) => !(end < p <= cut) && LeftClear(l, end, cut)
  }

  /** What can be read off the links before the root is removed. */
  predicate Clear(t: Tree, end: nat, cut: nat)
    requires t.Node?
  {
    if t.pos > cut then RightClear(t.left, end, cut) && LeftClear(t.right, end, cut)
    else (t.left == Empty || t.left.pos <= end) && (t.right == Empty || t.right.pos <= end)
  }

  /** Every node of t after end is in u. */
  ghost predicate LiveIn(t: Tree, u: Tree, end: nat) {
    forall q :: q in Nodes(t) && q > end ==> q in Nodes(u)
  }

  lemma {:induction false} RightKeptNodes(m: seq<byte>, t: Tree, end: nat, cut: nat)
    requires Treap(m, t) && end <= cut
    ensures Nodes(RightKept(t, cut)) <= Nodes(t)
    ensures LiveIn(t, RightKept(t, cut), end) <==> RightClear(t, end, cut)
  {
    hide Less;
    if t.Node? {
      RightKeptNodes(m, t.right, end, cut);
      assert t.pos in Nodes(t);
      if t.pos <= end {
        NoneLive(m, t, end);
        RightOld(m, t, end, cut);
      } else if t.pos > cut {
        RightMore(m, t, end, cut);
      }
    }
  }

  lemma NoneLive(m: seq<byte>, t: Tree, end: nat)
    requires Treap(m, t) && t.Node? && t.pos <= end
    ensures forall q :: q in Nodes(t) ==> q <= end
  {
    hide Less;
  }

  /** Below an expired root everything has expired. */
  lemma {:induction false} RightOld(m: seq<byte>, t: Tree, end: nat, cut: nat)
    requires Treap(m, t) && (t.Node? ==> t.pos <= end)
    ensures RightClear(t, end, cut)
  {
    hide Less;
    if t.Node? {
      if t.right.Node? {
        assert t.right.pos in Nodes(t.right);
      }
      RightOld(m, t.right, end, cut);
    }
  }

  lemma RightMore(m: seq<byte>, t: Tree, end: nat, cut: nat)
    requires Treap(m, t) && t.Node? && t.pos > cut && Nodes(RightKept(t.right, cut)) <= Nodes(t.right)
    ensures LiveIn(t, RightKept(t, cut), end) <==> LiveIn(t.right, RightKept(t.right, cut), end)
  {
    hide Less;
    var u := RightKept(t, cut);
    assert Nodes(u) == Nodes(t.left) + {t.pos} + Nodes(RightKept(t.right, cut));
    if LiveIn(t, u, end) {
      forall q | q in Nodes(t.right) && q > end ensures q in Nodes(RightKept(t.right, cut)) {
        assert q in Nodes(t);
        if q in Nodes(t.left) {
          Trichotomy(m, q, t.pos);
        }
      }
    }
  }

  lemma {:induction false} LeftKeptNodes(m: seq<byte>, t: Tree, end: nat, cut: nat)
    requires Treap(m, t) && end <= cut
    ensures Nodes(LeftKept(t, cut)) <= Nodes(t)
    ensures LiveIn(t, LeftKept(t, cut), end) <==> LeftClear(t, end, cut)
  {
    hide Less;
    if t.Node? {
      LeftKeptNodes(m, t.left, end, cut);
      assert t.pos in Nodes(t);
      if t.pos <= end {
        NoneLive(m, t, end);
        LeftOld(m, t, end, cut);
      } else if t.pos > cut {
        LeftMore(m, t, end, cut);
      }
    }
  }

  lemma {:induction false} LeftOld(m: seq<byte>, t: Tree, end: nat, cut: nat)
    requires Treap(m, t) && (t.Node? ==> t.pos <= end)
    ensures LeftClear(t, end, cut)
  {
    hide Less;
    if t.Node? {
      if t.left.Node? {
        assert t.left.pos in Nodes(t.left);
      }
      LeftOld(m, t.left, end, cut);
    }
  }

  lemma LeftMore(m: seq<byte>, t: Tree, end: nat, cut: nat)
    requires Treap(m, t) && t.Node? && t.pos > cut && Nodes(LeftKept(t.left, cut)) <= Nodes(t.left)
    ensures LiveIn(t, LeftKept(t, cut), end) <==> LiveIn(t.left, LeftKept(t.left, cut), end)
  {
    hide Less;
    var u := LeftKept(t, cut);
    assert Nodes(u) == Nodes(LeftKept(t.left, cut)) + {t.pos} + Nodes(t.right);
    if LiveIn(t, u, end) {
      forall q | q in Nodes(t.left) && q > end ensures q in Nodes(LeftKept(t.left, cut)) {
        assert q in Nodes(t);
        if q in Nodes(t.right) {
          Trichotomy(m, q, t.pos);
        }
      }
    }
  }

  /** Every node of t after end, but for its root, is there after the root has been removed. */
  ghost predicate Lossless(t: Tree, end: nat, cut: nat)
    requires t.Node?
  {
    forall q :: q in Nodes(t) && q > end && q != t.pos ==> q in Nodes(Removed(t, cut))
  }

  /** Removing a root loses no position after end exactly when the two spines below it are clear. */
  lemma RemovalLossless(m: seq<byte>, t: Tree, end: nat, cut: nat)
    requires Treap(m, t) && t.Node? && end <= cut
    ensures Lossless(t, end, cut) <==> Clear(t, end, cut)
  {
    hide Less, RightKept, LeftKept, RightClear, LeftClear, MergeLive, Removed, Treap, Lossless;
    SubtreeNodes(m, t);
    if t.pos > cut {
      RightKeptNodes(m, t.left, end, cut);
      LeftKeptNodes(m, t.right, end, cut);
      RemovedKeeps(t, cut);
      LosslessSides(m, t, end, cut);
    } else {
      LosslessOld(m, t, end, cut);
    }
  }

  lemma RemovedKeeps(t: Tree, cut: nat)
    requires t.Node? && t.pos > cut
    ensures Nodes(Removed(t, cut)) == Nodes(RightKept(t.left, cut)) + Nodes(LeftKept(t.right, cut))
  {
    hide Nodes, MergeLive;
    MergeKeeps(t.left, t.right, cut);
  }

  lemma LosslessSides(m: seq<byte>, t: Tree, end: nat, cut: nat)
    requires Treap(m, t) && t.Node?
    requires Nodes(Removed(t, cut)) == Nodes(RightKept(t.left, cut)) + Nodes(LeftKept(t.right, cut))
    requires Nodes(RightKept(t.left, cut)) <= Nodes(t.left) && Nodes(LeftKept(t.right, cut)) <= Nodes(t.right)
    ensures Lossless(t, end, cut)
            <==> LiveIn(t.left, RightKept(t.left, cut), end) && LiveIn(t.right, LeftKept(t.right, cut), end)
  {
    hide Less, RightKept, LeftKept, Removed, Treap;
    SidesApart(m, t);
    assert Nodes(t) == Nodes(t.left) + {t.pos} + Nodes(t.right);
  }

  /** The subtrees and the root share no position. */
  lemma SidesApart(m: seq<byte>, t: Tree)
    requires Treap(m, t) && t.Node?
    ensures forall q :: q in Nodes(t.left) ==> q !in Nodes(t.right) && q != t.pos
    ensures forall q :: q in Nodes(t.right) ==> q != t.pos
  {
    hide Less;
    forall q | q in Nodes(t.left) ensures q !in Nodes(t.right) && q != t.pos {
      if q in Nodes(t.right) {
        Trichotomy(m, q, t.pos);
      }
    }
  }

  lemma LosslessOld(m: seq<byte>, t: Tree, end: nat, cut: nat)
    requires Treap(m, t) && t.Node? && t.pos <= cut
    ensures Lossless(t, end, cut) <==> Clear(t, end, cut)
  {
    hide Less;
    assert Removed(t, cut) == Empty;
    if t.left.Node? {
      assert t.left.pos in Nodes(t.left) && t.left.pos in Nodes(t);
    }
    if t.right.Node? {
      assert t.right.pos in Nodes(t.right) && t.right.pos in Nodes(t);
    }
    if (t.left == Empty || t.left.pos <= end) && (t.right == Empty || t.right.pos <= end) {
      forall q | q in Nodes(t) && q != t.pos ensures q <= end {
        if q in Nodes(t.left) {
          RootNewest(m, t.left, q);
        } else {
          RootNewest(m, t.right, q);
        }
      }
    }
  }

  // ---------- The same, by the strings ----------

  /** The newer node x stands between s and q in the order of the strings. */
  ghost predicate Shields(m: seq<byte>, t: Tree, s: nat, x: nat, q: nat) {
    && x in Nodes(t) && q < x < s
    && ((Smaller(m, s, x) && Smaller(m, x, q)) || (Smaller(m, q, x) && Smaller(m, x, s)))
  }

  ghost predicate Shielded(m: seq<byte>, t: Tree, s: nat, q: nat) {
    exists x :: Shields(m, t, s, x, q)
  }

  /** A newer node of t has a smaller string than q. */
  ghost predicate Undercut(m: seq<byte>, t: Tree, q: nat) {
    exists x :: x in Nodes(t) && q < x && Smaller(m, x, q)
  }

  ghost predicate Overtopped(m: seq<byte>, t: Tree, q: nat) {
    exists x :: x in Nodes(t) && q < x && Smaller(m, q, x)
  }

  /** A node is off the right spine when a newer one has a smaller string. */
  lemma {:induction false} RightShields(m: seq<byte>, t: Tree, end: nat, cut: nat)
    requires Treap(m, t) && end <= cut
    ensures RightClear(t, end, cut) <==> forall q :: q in Nodes(t) && end < q <= cut ==> Undercut(m, t, q)
  {
    hide *;
    if t.Node? {
      SubtreeNodes(m, t);
      RightShields(m, t.right, end, cut);
      if end < t.pos <= cut {
        RootNotUndercut(m, t);
        NotRightClear(t, end, cut);
      } else {
        RightClearIs(t, end, cut);
        forall q | q in Nodes(t) && end < q <= cut
          ensures Undercut(m, t, q) <==> (q in Nodes(t.right) ==> Undercut(m, t.right, q))
        {
          UndercutBelow(m, t, q);
        }
      }
    } else {
      NothingClear(m, t, end, cut);
    }
  }

  lemma NothingClear(m: seq<byte>, t: Tree, end: nat, cut: nat)
    requires t == Empty
    ensures RightClear(t, end, cut) && LeftClear(t, end, cut) && Nodes(t) == {}
  {
  }

  lemma NotRightClear(t: Tree, end: nat, cut: nat)
    requires t.Node? && end < t.pos <= cut
    ensures !RightClear(t, end, cut) && !LeftClear(t, end, cut)
  {
  }

  lemma RightClearIs(t: Tree, end: nat, cut: nat)
    requires t.Node? && !(end < t.pos <= cut)
    ensures RightClear(t, end, cut) == RightClear(t.right, end, cut)
            && LeftClear(t, end, cut) == LeftClear(t.left, end, cut)
  {
  }

  lemma RootNotUndercut(m: seq<byte>, t: Tree)
    requires Treap(m, t) && t.Node?
    ensures t.pos in Nodes(t) && !Undercut(m, t, t.pos) && !Overtopped(m, t, t.pos)
  {
    hide Smaller;
    forall x | x in Nodes(t) ensures x <= t.pos {
      RootNewest(m, t, x);
    }
  }

  /** Left of the root every node is undercut by the root, and right of it none is but from the right. */
  lemma UndercutBelow(m: seq<byte>, t: Tree, q: nat)
    requires Treap(m, t) && t.Node? && q in Nodes(t) && q != t.pos
    ensures Undercut(m, t, q) <==> (q in Nodes(t.right) ==> Undercut(m, t.right, q))
  {
    hide Less;
    SidesApart(m, t);
    if q in Nodes(t.left) {
      assert t.pos in Nodes(t) && Smaller(m, t.pos, q);
    } else {
      assert q in Nodes(t.right);
      forall x | x in Nodes(t) && q < x && Smaller(m, x, q) ensures x in Nodes(t.right) {
        Trichotomy(m, q, t.pos);
        Trichotomy(m, x, q);
        if x in Nodes(t.left) {
          Between(m, q, t.pos, x);
        }
      }
    }
  }

  lemma {:induction false} LeftShields(m: seq<byte>, t: Tree, end: nat, cut: nat)
    requires Treap(m, t) && end <= cut
    ensures LeftClear(t, end, cut) <==> forall q :: q in Nodes(t) && end < q <= cut ==> Overtopped(m, t, q)
  {
    hide *;
    if t.Node? {
      SubtreeNodes(m, t);
      LeftShields(m, t.left, end, cut);
      if end < t.pos <= cut {
        RootNotUndercut(m, t);
        NotRightClear(t, end, cut);
      } else {
        RightClearIs(t, end, cut);
        forall q | q in Nodes(t) && end < q <= cut
          ensures Overtopped(m, t, q) <==> (q in Nodes(t.left) ==> Overtopped(m, t.left, q))
        {
          OvertoppedBelow(m, t, q);
        }
      }
    } else {
      NothingClear(m, t, end, cut);
    }
  }

  lemma OvertoppedBelow(m: seq<byte>, t: Tree, q: nat)
    requires Treap(m, t) && t.Node? && q in Nodes(t) && q != t.pos
    ensures Overtopped(m, t, q) <==> (q in Nodes(t.left) ==> Overtopped(m, t.left, q))
  {
    hide Less;
    SidesApart(m, t);
    if q in Nodes(t.left) {
      forall x | x in Nodes(t) && q < x && Smaller(m, q, x) ensures x in Nodes(t.left) {
        Trichotomy(m, q, t.pos);
        Trichotomy(m, x, q);
        if x in Nodes(t.right) {
          Between(m, x, t.pos, q);
        }
      }
    } else {
      assert q in Nodes(t.right) && t.pos in Nodes(t) && Smaller(m, q, t.pos);
    }
  }

  /** Where a node is shielded: on its own side of the root. */
  lemma ShieldedSide(m: seq<byte>, t: Tree, q: nat)
    requires Treap(m, t) && t.Node? && q in Nodes(t) && q != t.pos
    ensures Shielded(m, t, t.pos, q)
            <==> if q in Nodes(t.left) then Undercut(m, t.left, q) else Overtopped(m, t.right, q)
    ensures q !in Nodes(t.left) ==> q in Nodes(t.right)
  {
    hide Less;
    SidesApart(m, t);
    Trichotomy(m, q, t.pos);
    if q in Nodes(t.left) {
      forall x | x in Nodes(t.left) && q < x && Smaller(m, x, q) ensures Shields(m, t, t.pos, x, q) {
      }
      forall x | Shields(m, t, t.pos, x, q) ensures x in Nodes(t.left) && q < x && Smaller(m, x, q) {
        ShieldsAbove(m, t, x, q);
      }
    } else {
      forall x | x in Nodes(t.right) && q < x && Smaller(m, q, x) ensures Shields(m, t, t.pos, x, q) {
      }
      forall x | Shields(m, t, t.pos, x, q) ensures x in Nodes(t.right) && q < x && Smaller(m, q, x) {
        ShieldsBelow(m, t, x, q);
      }
    }
  }

  lemma ShieldsAbove(m: seq<byte>, t: Tree, x: nat, q: nat)
    requires Treap(m, t) && t.Node? && q in Nodes(t.left) && Shields(m, t, t.pos, x, q)
    ensures x in Nodes(t.left) && Smaller(m, x, q)
  {
    hide Less;
    Trichotomy(m, q, t.pos);
    if Smaller(m, q, x) && Smaller(m, x, t.pos) {
      Between(m, q, x, t.pos);
    }
    Trichotomy(m, x, t.pos);
  }

  lemma ShieldsBelow(m: seq<byte>, t: Tree, x: nat, q: nat)
    requires Treap(m, t) && t.Node? && q in Nodes(t.right) && Shields(m, t, t.pos, x, q)
    ensures x in Nodes(t.right) && Smaller(m, q, x)
  {
    hide Less;
    Trichotomy(m, q, t.pos);
    if Smaller(m, t.pos, x) && Smaller(m, x, q) {
      Between(m, t.pos, x, q);
    }
    Trichotomy(m, x, t.pos);
  }

  /** A root can be removed without loss exactly when a newer node shields every position between the bounds from it. */
  lemma ClearIsShielded(m: seq<byte>, t: Tree, end: nat, cut: nat)
    requires Treap(m, t) && t.Node? && end <= cut < t.pos
    ensures Clear(t, end, cut) <==> forall q :: q in Nodes(t) && end < q <= cut ==> Shielded(m, t, t.pos, q)
  {
    hide Less, Smaller, Shielded, Undercut, Overtopped, RightClear, LeftClear;
    RightShields(m, t.left, end, cut);
    LeftShields(m, t.right, end, cut);
    SidesApart(m, t);
    forall q | q in Nodes(t) && end < q <= cut
      ensures Shielded(m, t, t.pos, q)
              <==> if q in Nodes(t.left) then Undercut(m, t.left, q) else Overtopped(m, t.right, q)
      ensures q !in Nodes(t.left) ==> q in Nodes(t.right)
    {
      ShieldedSide(m, t, q);
    }
  }

  // ---------- All trees ----------

  /** The trees after position s has been removed, if it is a root. */
  ghost function Withdrawn(m: seq<byte>, trees: seq<Tree>, s: nat, cut: nat): seq<Tree>
    requires |trees| == NUM_TREES && s + 2 <= |m|
  {
    var k := Key(m, s);
    if trees[k].Node? && trees[k].pos == s then trees[k := Removed(trees[k], cut)] else trees
  }

  lemma WithdrawnIs(m: seq<byte>, trees: seq<Tree>, s: nat, cut: nat)
    requires |trees| == NUM_TREES && s + 2 <= |m|
    ensures var k := Key(m, s);
            Withdrawn(m, trees, s, cut)
            == if trees[k].Node? && trees[k].pos == s then trees[k := Removed(trees[k], cut)] else trees
  {
    hide Removed, Key;
  }

  /** Positions after lo and before hi that were in a tree still are. */
  ghost predicate Keeps(before: seq<Tree>, after: seq<Tree>, lo: nat, hi: nat) {
    |after| == |before| && forall k: nat, q: nat :: k < |before| && q in Nodes(before[k]) && lo < q < hi ==>
      q in Nodes(after[k])
  }

  lemma KeepsAll(trees: seq<Tree>, lo: nat, hi: nat)
    ensures Keeps(trees, trees, lo, hi)
  {
  }

  lemma WithdrawnKeeps(m: seq<byte>, before: seq<Tree>, trees: seq<Tree>, s: nat, cut: nat)
    requires |trees| == NUM_TREES && s + 2 <= |m| && Keeps(before, trees, cut, s + 1) && Treap(m, trees[Key(m, s)])
    ensures Keeps(before, Withdrawn(m, trees, s, cut), cut, s)
  {
    hide Removed, Key, Treap, Nodes;
    RemoveTreap(m, trees[Key(m, s)], cut);
  }

  /** The trees after the last n positions have been taken out, newest first. */
  ghost function TakenOut(m: seq<byte>, trees: seq<Tree>, bufPos: nat, n: nat, cut: nat): (r: seq<Tree>)
    requires |trees| == NUM_TREES && n <= bufPos && bufPos + 1 <= |m|
    ensures |r| == NUM_TREES
  {
    if n == 0 then trees else Withdrawn(m, TakenOut(m, trees, bufPos, n - 1, cut), bufPos - n, cut)
  }

  /** Each tree is ordered, of its own key, and older than next. */
  ghost predicate Ordered(m: seq<byte>, trees: seq<Tree>, next: nat) {
    |trees| == NUM_TREES && forall k: nat :: k < NUM_TREES ==>
      Treap(m, trees[k]) && Keyed(m, k, trees[k]) && Newer(next, trees[k])
  }

  lemma OrderedAt(m: seq<byte>, trees: seq<Tree>, next: nat, k: nat)
    requires Ordered(m, trees, next) && k < NUM_TREES
    ensures |trees| == NUM_TREES && Treap(m, trees[k]) && Keyed(m, k, trees[k]) && Newer(next, trees[k])
  {
    hide Treap, Keyed, Newer;
  }

  lemma OrderedSize(m: seq<byte>, trees: seq<Tree>, next: nat)
    requires Ordered(m, trees, next)
    ensures |trees| == NUM_TREES
  {
    hide Treap, Keyed, Newer;
  }

  lemma OrderedMake(m: seq<byte>, trees: seq<Tree>, next: nat)
    requires |trees| == NUM_TREES
    requires forall k: nat :: k < NUM_TREES ==> Treap(m, trees[k]) && Keyed(m, k, trees[k]) && Newer(next, trees[k])
    ensures Ordered(m, trees, next)
  {
    hide Treap, Keyed, Newer;
  }

  /** One tree after a position that may be its root has been taken out. */
  ghost function Without(t: Tree, s: nat, cut: nat): Tree {
    if t.Node? && t.pos == s then Removed(t, cut) else t
  }

  lemma WithoutRoot(t: Tree, s: nat, cut: nat)
    ensures t.Node? && t.pos == s ==> Without(t, s, cut) == Removed(t, cut)
    ensures !(t.Node? && t.pos == s) ==> Without(t, s, cut) == t
  {
  }

  lemma WithoutTreap(m: seq<byte>, t: Tree, s: nat, cut: nat, k: nat)
    requires Treap(m, t) && Keyed(m, k, t) && Newer(s + 1, t)
    ensures Treap(m, Without(t, s, cut)) && Keyed(m, k, Without(t, s, cut)) && Newer(s, Without(t, s, cut))
    ensures Nodes(Without(t, s, cut)) <= Nodes(t)
  {
    hide Less, Removed, Nodes, Key, Treap;
    RemoveTreap(m, t, cut);
    forall q | q in Nodes(t) ensures t.Node? && q <= t.pos && t.pos in Nodes(t) {
      HasRoot(m, t, q);
    }
  }

  lemma HasRoot(m: seq<byte>, t: Tree, q: nat)
    requires Treap(m, t) && q in Nodes(t)
    ensures t.Node? && q <= t.pos && t.pos in Nodes(t)
  {
    hide Less;
  }

  /** The tree of a position is the only one it can be in. */
  lemma WithdrawnAt(m: seq<byte>, trees: seq<Tree>, s: nat, cut: nat, k: nat)
    requires Ordered(m, trees, s + 1) && s + 2 <= |m| && k < NUM_TREES
    ensures |trees| == NUM_TREES && Withdrawn(m, trees, s, cut)[k] == Without(trees[k], s, cut)
  {
    hide *;
    OrderedAt(m, trees, s + 1, k);
    WithdrawnIs(m, trees, s, cut);
    WithoutRoot(trees[k], s, cut);
    KeyOfRoot(m, trees[k], k, s);
  }

  lemma KeyOfRoot(m: seq<byte>, t: Tree, k: nat, s: nat)
    requires Keyed(m, k, t) && s + 2 <= |m|
    ensures t.Node? && t.pos == s ==> Key(m, s) == k
  {
    hide Key;
    if t.Node? {
      assert t.pos in Nodes(t);
    }
  }

  /** No tree has got a node. */
  ghost predicate NoneAdded(before: seq<Tree>, after: seq<Tree>) {
    |after| == |before| && forall k: nat :: k < |before| ==> Nodes(after[k]) <= Nodes(before[k])
  }

  lemma NoneAddedAt(before: seq<Tree>, after: seq<Tree>, k: nat)
    requires NoneAdded(before, after) && k < |before|
    ensures |after| == |before| && Nodes(after[k]) <= Nodes(before[k])
  {
    hide Nodes;
  }

  /** Taking out the newest position keeps all trees ordered. */
  lemma WithdrawnOrdered(m: seq<byte>, trees: seq<Tree>, s: nat, cut: nat)
    requires Ordered(m, trees, s + 1) && s + 2 <= |m|
    ensures |trees| == NUM_TREES && Ordered(m, Withdrawn(m, trees, s, cut), s)
    ensures NoneAdded(trees, Withdrawn(m, trees, s, cut))
  {
    hide Without, Withdrawn, Treap, Keyed, Newer, Nodes, Ordered;
    OrderedSize(m, trees, s + 1);
    WithdrawnIs(m, trees, s, cut);
    forall k: nat | k < NUM_TREES
      ensures var u := Withdrawn(m, trees, s, cut)[k];
              Treap(m, u) && Keyed(m, k, u) && Newer(s, u) && Nodes(u) <= Nodes(trees[k])
    {
      OrderedAt(m, trees, s + 1, k);
      WithdrawnAt(m, trees, s, cut, k);
      WithoutTreap(m, trees[k], s, cut, k);
    }
    OrderedMake(m, Withdrawn(m, trees, s, cut), s);
  }

  lemma TakenIs(m: seq<byte>, trees: seq<Tree>, bufPos: nat, n: nat, cut: nat)
    requires |trees| == NUM_TREES && n <= bufPos && bufPos + 1 <= |m|
    ensures n == 0 ==> TakenOut(m, trees, bufPos, n, cut) == trees
    ensures n > 0 ==> TakenOut(m, trees, bufPos, n, cut)
                      == Withdrawn(m, TakenOut(m, trees, bufPos, n - 1, cut), bufPos - n, cut)
  {
    hide Withdrawn;
  }

  /** What n removals keep in any case: the order, and every position after cut. */
  lemma {:induction false} TakenOrdered(m: seq<byte>, trees: seq<Tree>, bufPos: nat, n: nat, cut: nat)
    requires Ordered(m, trees, bufPos) && n <= bufPos && bufPos + 1 <= |m|
    ensures |trees| == NUM_TREES && Ordered(m, TakenOut(m, trees, bufPos, n, cut), bufPos - n)
    ensures NoneAdded(trees, TakenOut(m, trees, bufPos, n, cut))
            && Keeps(trees, TakenOut(m, trees, bufPos, n, cut), cut, bufPos - n)
  {
    hide *;
    OrderedSize(m, trees, bufPos);
    TakenIs(m, trees, bufPos, n, cut);
    if n == 0 {
      NoneAddedSelf(trees);
      KeepsAll(trees, cut, bufPos);
    } else {
      TakenOrdered(m, trees, bufPos, n - 1, cut);
      var was, s: nat := TakenOut(m, trees, bufPos, n - 1, cut), bufPos - n;
      WithdrawnOrdered(m, was, s, cut);
      NoneAddedOn(trees, was, Withdrawn(m, was, s, cut));
      KeyBelow(m, s);
      OrderedAt(m, was, s + 1, Key(m, s));
      WithdrawnKeeps(m, trees, was, s, cut);
    }
  }

  lemma KeyBelow(m: seq<byte>, s: nat)
    requires s + 2 <= |m|
    ensures Key(m, s) < NUM_TREES
  {
  }

  lemma NoneAddedSelf(trees: seq<Tree>)
    ensures NoneAdded(trees, trees)
  {
    hide Nodes;
  }

  lemma NoneAddedOn(a: seq<Tree>, b: seq<Tree>, c: seq<Tree>)
    requires NoneAdded(a, b) && NoneAdded(b, c)
    ensures NoneAdded(a, c)
  {
    hide Nodes;
  }

  /** Every position after end and up to cut is shielded from each of the last n positions that is in its tree. */
  ghost predicate Shielding(m: seq<byte>, trees: seq<Tree>, bufPos: nat, n: nat, end: nat, cut: nat) {
    && |trees| == NUM_TREES
    && forall k: nat, s: nat :: k < NUM_TREES && bufPos <= s + n && s < bufPos && s in Nodes(trees[k])
         ==> ShieldingOne(m, trees[k], s, end, cut)
  }

  ghost predicate ShieldingOne(m: seq<byte>, t: Tree, s: nat, end: nat, cut: nat) {
    forall q :: q in Nodes(t) && end < q <= cut ==> Shielded(m, t, s, q)
  }

  /** The live nodes of t, but for s, are in u. */
  ghost predicate LiveBut(t: Tree, u: Tree, s: nat, end: nat) {
    forall q :: q in Nodes(t) && q > end && q != s ==> q in Nodes(u)
  }

  /** One removal: if s is in the tree it is the root. */
  lemma WithoutLossless(m: seq<byte>, t: Tree, s: nat, end: nat, cut: nat)
    requires Treap(m, t) && Newer(s + 1, t) && end <= cut < s
    ensures s in Nodes(t) ==> (LiveBut(t, Without(t, s, cut), s, end) <==> ShieldingOne(m, t, s, end, cut))
    ensures s !in Nodes(t) ==> Without(t, s, cut) == t
  {
    hide Less, Removed, Nodes, Treap, Shielded, Clear;
    if s in Nodes(t) {
      HasRoot(m, t, s);
      assert t.pos == s;
      RemovalLossless(m, t, end, cut);
      ClearIsShielded(m, t, end, cut);
    } else if t.Node? {
      RootIn(t);
    }
  }

  lemma RootIn(t: Tree)
    requires t.Node?
    ensures t.pos in Nodes(t)
  {
  }

  /** Whether a node is shielded does not depend on expired nodes, nor on newer ones. */
  lemma ShieldedSame(m: seq<byte>, t: Tree, u: Tree, s: nat, end: nat, cut: nat)
    requires Nodes(u) <= Nodes(t) && end <= cut < s && s in Nodes(t)
    requires forall q :: q in Nodes(t) && end < q <= s ==> q in Nodes(u)
    ensures ShieldingOne(m, t, s, end, cut) <==> ShieldingOne(m, u, s, end, cut)
  {
    hide Nodes, Smaller;
    forall q | q in Nodes(t) && end < q <= cut ensures Shielded(m, t, s, q) <==> Shielded(m, u, s, q) {
      forall x ensures Shields(m, t, s, x, q) <==> Shields(m, u, s, x, q) {
      }
    }
  }

  lemma KeepsAt(before: seq<Tree>, after: seq<Tree>, lo: nat, hi: nat, k: nat, q: nat)
    requires Keeps(before, after, lo, hi) && k < |before| && q in Nodes(before[k]) && lo < q < hi
    ensures |after| == |before| && q in Nodes(after[k])
  {
    hide Nodes;
  }

  /** What one tree looks like when n positions have been taken out. */
  lemma TakenTree(m: seq<byte>, trees: seq<Tree>, bufPos: nat, n: nat, end: nat, cut: nat, k: nat)
    requires Ordered(m, trees, bufPos) && n <= bufPos && bufPos + 1 <= |m| && k < NUM_TREES
    requires Keeps(trees, TakenOut(m, trees, bufPos, n, cut), end, bufPos - n)
    ensures |trees| == NUM_TREES
    ensures var u := TakenOut(m, trees, bufPos, n, cut)[k];
            Treap(m, u) && Newer(bufPos - n, u) && Nodes(u) <= Nodes(trees[k])
            && forall q :: q in Nodes(trees[k]) && end < q < bufPos - n ==> q in Nodes(u)
  {
    hide *;
    TakenOrdered(m, trees, bufPos, n, cut);
    OrderedAt(m, TakenOut(m, trees, bufPos, n, cut), bufPos - n, k);
    NoneAddedAt(trees, TakenOut(m, trees, bufPos, n, cut), k);
    forall q | q in Nodes(trees[k]) && end < q < bufPos - n ensures q in Nodes(TakenOut(m, trees, bufPos, n, cut)[k]) {
      KeepsAt(trees, TakenOut(m, trees, bufPos, n, cut), end, bufPos - n, k, q);
    }
  }

  /** One more removal in one tree loses nothing live exactly when the position taken out is shielded from. */
  lemma OneMoreTaken(m: seq<byte>, trees: seq<Tree>, bufPos: nat, n: nat, end: nat, cut: nat, k: nat)
    requires Ordered(m, trees, bufPos) && 0 < n <= bufPos && bufPos + 1 <= |m| && k < NUM_TREES
             && end <= cut < bufPos - n
    requires Keeps(trees, TakenOut(m, trees, bufPos, n - 1, cut), end, bufPos - (n - 1))
    ensures |trees| == NUM_TREES
    ensures LiveBetween(trees[k], TakenOut(m, trees, bufPos, n, cut)[k], end, bufPos - n)
            <==> (bufPos - n in Nodes(trees[k]) ==> ShieldingOne(m, trees[k], bufPos - n, end, cut))
  {
    hide *;
    var s: nat := bufPos - n;
    TakenTree(m, trees, bufPos, n - 1, end, cut, k);
    TakenOrdered(m, trees, bufPos, n - 1, cut);
    TakenIs(m, trees, bufPos, n, cut);
    var was := TakenOut(m, trees, bufPos, n - 1, cut);
    WithdrawnAt(m, was, s, cut, k);
    WithoutLossless(m, was[k], s, end, cut);
    LiveButSame(trees[k], was[k], Without(was[k], s, cut), s, end);
    if s in Nodes(trees[k]) {
      ShieldedSame(m, trees[k], was[k], s, end, cut);
    }
  }

  /** The nodes of t between two bounds are in u. */
  ghost predicate LiveBetween(t: Tree, u: Tree, lo: nat, hi: nat) {
    forall q :: q in Nodes(t) && lo < q < hi ==> q in Nodes(u)
  }

  lemma LiveButSame(t: Tree, u: Tree, v: Tree, s: nat, end: nat)
    requires Nodes(u) <= Nodes(t) && Newer(s + 1, u) && forall q :: q in Nodes(t) && end < q < s + 1 ==> q in Nodes(u)
    ensures LiveBut(u, v, s, end) <==> LiveBetween(t, v, end, s)
    ensures s in Nodes(t) && s > end ==> s in Nodes(u)
    ensures s !in Nodes(t) ==> s !in Nodes(u)
    ensures u == v ==> LiveBetween(t, v, end, s)
  {
    hide Nodes;
  }

  /** The last n positions are taken out, while positions up to cut count as expired, although the next search goes
      back to end: no position after end is lost if and only if each between the bounds was shielded from every one
      of those taken out of its tree, that is, a newer node stood between the two. */
  lemma {:induction false} TakenLossless(m: seq<byte>, trees: seq<Tree>, bufPos: nat, n: nat, end: nat, cut: nat)
    requires Ordered(m, trees, bufPos) && bufPos + 1 <= |m| && end <= cut && cut + n < bufPos
    ensures |trees| == NUM_TREES
    ensures Keeps(trees, TakenOut(m, trees, bufPos, n, cut), end, bufPos - n)
            <==> Shielding(m, trees, bufPos, n, end, cut)
  {
    hide *;
    OrderedSize(m, trees, bufPos);
    TakenIs(m, trees, bufPos, n, cut);
    if n == 0 {
      KeepsAll(trees, end, bufPos);
      NoneToShield(m, trees, bufPos, end, cut);
    } else {
      TakenLossless(m, trees, bufPos, n - 1, end, cut);
      KeptBefore(m, trees, bufPos, n, end, cut);
      if Keeps(trees, TakenOut(m, trees, bufPos, n - 1, cut), end, bufPos - (n - 1)) {
        forall k: nat | k < NUM_TREES
          ensures LiveBetween(trees[k], TakenOut(m, trees, bufPos, n, cut)[k], end, bufPos - n)
                  <==> (bufPos - n in Nodes(trees[k]) ==> ShieldingOne(m, trees[k], bufPos - n, end, cut))
        {
          OneMoreTaken(m, trees, bufPos, n, end, cut, k);
        }
        KeepsTrees(trees, TakenOut(m, trees, bufPos, n, cut), end, bufPos - n);
      }
      ShieldingMore(m, trees, bufPos, n, end, cut);
    }
  }

  lemma NoneToShield(m: seq<byte>, trees: seq<Tree>, bufPos: nat, end: nat, cut: nat)
    requires |trees| == NUM_TREES
    ensures Shielding(m, trees, bufPos, 0, end, cut)
  {
    hide Nodes, ShieldingOne;
  }

  lemma ShieldingMore(m: seq<byte>, trees: seq<Tree>, bufPos: nat, n: nat, end: nat, cut: nat)
    requires |trees| == NUM_TREES && 0 < n <= bufPos
    ensures Shielding(m, trees, bufPos, n, end, cut)
            <==> Shielding(m, trees, bufPos, n - 1, end, cut)
                 && forall k: nat :: k < NUM_TREES && bufPos - n in Nodes(trees[k]) ==>
                    ShieldingOne(m, trees[k], bufPos - n, end, cut)
  {
    hide Nodes, ShieldingOne;
  }

  lemma KeepsTrees(before: seq<Tree>, after: seq<Tree>, lo: nat, hi: nat)
    requires |before| == |after| == NUM_TREES
    ensures Keeps(before, after, lo, hi)
            <==> forall k: nat :: k < NUM_TREES ==> LiveBetween(before[k], after[k], lo, hi)
  {
    hide Nodes;
    if forall k: nat :: k < NUM_TREES ==> LiveBetween(before[k], after[k], lo, hi) {
      forall k: nat, q: nat | k < |before| && q in Nodes(before[k]) && lo < q < hi ensures q in Nodes(after[k]) {
        assert LiveBetween(before[k], after[k], lo, hi);
      }
    }
  }

  /** What is there after a removal was there before. */
  lemma KeptBefore(m: seq<byte>, trees: seq<Tree>, bufPos: nat, n: nat, end: nat, cut: nat)
    requires Ordered(m, trees, bufPos) && 0 < n <= bufPos && bufPos + 1 <= |m| && end <= cut < bufPos - n
    requires |trees| == NUM_TREES
    ensures Keeps(trees, TakenOut(m, trees, bufPos, n, cut), end, bufPos - n)
            ==> Keeps(trees, TakenOut(m, trees, bufPos, n - 1, cut), end, bufPos - (n - 1))
  {
    hide *;
    var s: nat := bufPos - n;
    var was := TakenOut(m, trees, bufPos, n - 1, cut);
    TakenIs(m, trees, bufPos, n, cut);
    TakenOrdered(m, trees, bufPos, n - 1, cut);
    WithdrawnOrdered(m, was, s, cut);
    KeptBack(trees, was, Withdrawn(m, was, s, cut), end, cut, s);
  }

  lemma KeptBack(trees: seq<Tree>, was: seq<Tree>, after: seq<Tree>, end: nat, cut: nat, s: nat)
    requires Keeps(trees, was, cut, s + 1) && NoneAdded(was, after) && cut < s
    ensures Keeps(trees, after, end, s) ==> Keeps(trees, was, end, s + 1)
  {
    hide Nodes;
  }
}
