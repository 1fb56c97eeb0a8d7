/** Merging two linked search trees in place: the newer of the two roots is linked in, and the merge
    goes on at the link it leaves open. */
module TreeMerge {
  import opened Bits
  import opened MatchTree
  import opened LinkedTrees

  /** A node of the merged path: it keeps its left subtree and leaves its right link open, or the
      other way round. */
  datatype Turn = Right(side: Tree, pos: nat) | Left(pos: nat, side: Tree)

  /** The tree a path makes when t is put at its open end. */
  ghost function Join(sp: seq<Turn>, t: Tree): Tree
    decreases |sp|
  {
    if sp == [] then t
    else if sp[0].Right? then Node(sp[0].side, sp[0].pos, Join(sp[1..], t))
    else Node(Join(sp[1..], t), sp[0].pos, sp[0].side)
  }

  ghost predicate Path(l: seq<nat>, r: seq<nat>, link: nat, end: nat, sp: seq<Turn>)
    decreases |sp|
  {
    sp == [] ||
    (link == sp[0].pos > end && link < |l| && link < |r|
     && (if sp[0].Right? then Linked(l, r, l[link], end, sp[0].side) && Path(l, r, r[link], end, sp[1..])
         else Linked(l, r, r[link], end, sp[0].side) && Path(l, r, l[link], end, sp[1..])))
  }

  lemma {:induction false} JoinMore(sp: seq<Turn>, e: Turn, t: Tree)
    ensures Join(sp + [e], t) == Join(sp, Join([e], t))
    decreases |sp|
  {
    if sp == [] {
      assert sp + [e] == [e];
    } else {
      JoinMore(sp[1..], e, t);
      assert (sp + [e])[0] == sp[0] && (sp + [e])[1..] == sp[1..] + [e];
    }
  }

  lemma JoinOne(e: Turn, t: Tree)
    ensures Join([e], t) == if e.Right? then Node(e.side, e.pos, t) else Node(t, e.pos, e.side)
  {
    assert [e][1..] == [];
  }

  lemma {:induction false} JoinNodes(sp: seq<Turn>, t: Tree)
    ensures Nodes(Join(sp, t)) == Nodes(Join(sp, Empty)) + Nodes(t)
    ensures sp != [] ==> sp[|sp| - 1].pos in Nodes(Join(sp, Empty))
    decreases |sp|
  {
    if sp != [] {
      JoinNodes(sp[1..], t);
      assert |sp| > 1 ==> sp[1..][|sp| - 2] == sp[|sp| - 1];
    }
  }

  lemma {:induction false} JoinShrink(sp: seq<Turn>, t: Tree, u: Tree)
    requires Proper(Join(sp, t)) && Proper(u) && Nodes(u) <= Nodes(t)
    ensures Proper(Join(sp, u))
    decreases |sp|
  {
    if sp != [] {
      JoinShrink(sp[1..], t, u);
      JoinNodes(sp[1..], t);
      JoinNodes(sp[1..], u);
    }
  }

  lemma {:induction false} JoinApart(sp: seq<Turn>, t: Tree)
    requires Proper(Join(sp, t))
    ensures Proper(t) && Nodes(Join(sp, Empty)) !! Nodes(t)
    decreases |sp|
  {
    if sp != [] {
      JoinApart(sp[1..], t);
      JoinNodes(sp[1..], t);
    }
  }

  /** The links when v is stored at the open end. */
  ghost function Store(l: seq<nat>, r: seq<nat>, sp: seq<Turn>, v: nat): (seq<nat>, seq<nat>)
    requires sp != [] && sp[|sp| - 1].pos < |l| && sp[|sp| - 1].pos < |r|
  {
    var e := sp[|sp| - 1];
    if e.Right? then (l, r[e.pos := v]) else (l[e.pos := v], r)
  }

  /** The first node of a path is none of the others, nor in the tree at the open end. */
  lemma JoinHead(sp: seq<Turn>, t: Tree)
    requires sp != [] && Proper(Join(sp, t))
    ensures var e := sp[0]; var h := sp[|sp| - 1].pos;
            && Proper(Join(sp[1..], t)) && h !in Nodes(e.side)
               && (|sp| > 1 ==> h != e.pos && sp[1..][|sp| - 2] == sp[|sp| - 1])
            && (|sp| == 1 ==> sp[1..] == [] && e.pos !in Nodes(t) && Join(sp[1..], t) == t)
  {
    JoinNodes(sp[1..], t);
    assert |sp| > 1 ==> sp[1..][|sp| - 2] == sp[|sp| - 1];
  }

  ghost predicate Kept(l: seq<nat>, r: seq<nat>, end: nat, e: Turn) {
    e.pos > end && e.pos < |l| && e.pos < |r| && Linked(l, r, if e.Right? then l[e.pos] else r[e.pos], end, e.side)
  }

  /** The link that a node leaves open. */
  ghost function Onward(l: seq<nat>, r: seq<nat>, e: Turn): nat
    requires e.pos < |l| && e.pos < |r|
  {
    if e.Right? then r[e.pos] else l[e.pos]
  }

  lemma PathHead(l: seq<nat>, r: seq<nat>, link: nat, end: nat, sp: seq<Turn>)
    requires sp != []
    ensures Path(l, r, link, end, sp) <==>
              link == sp[0].pos && Kept(l, r, end, sp[0]) && Path(l, r, Onward(l, r, sp[0]), end, sp[1..])
  {
    hide Linked;
  }

  lemma JoinCons(l: seq<nat>, r: seq<nat>, end: nat, sp: seq<Turn>, t: Tree)
    requires sp != [] && Kept(l, r, end, sp[0]) && Linked(l, r, Onward(l, r, sp[0]), end, Join(sp[1..], t))
    ensures Linked(l, r, sp[0].pos, end, Join(sp, t))
  {
    hide Linked;
    var e := sp[0];
    if e.Right? {
      LinkedMake(l, r, e.pos, end, e.side, Join(sp[1..], t));
    } else {
      LinkedMake(l, r, e.pos, end, Join(sp[1..], t), e.side);
    }
  }

  lemma PathOne(l: seq<nat>, r: seq<nat>, end: nat, e: Turn)
    requires Kept(l, r, end, e)
    ensures Path(l, r, e.pos, end, [e])
  {
    hide Linked;
    assert [e][1..] == [];
    assert Path(l, r, r[e.pos], end, []) && Path(l, r, l[e.pos], end, []);
  }

  /** A node whose kept side does not hold the end of the path keeps it. */
  lemma KeptStore(l: seq<nat>, r: seq<nat>, sp: seq<Turn>, v: nat, end: nat, e: Turn)
    requires sp != [] && Kept(l, r, end, e) && sp[|sp| - 1].pos < |l| && sp[|sp| - 1].pos < |r|
             && sp[|sp| - 1].pos !in Nodes(e.side)
    requires e.pos != sp[|sp| - 1].pos || e == sp[|sp| - 1]
    ensures var (l', r') := Store(l, r, sp, v);
            && |l'| == |l| && |r'| == |r| && Kept(l', r', end, e)
            && Onward(l', r', e) == if e.pos == sp[|sp| - 1].pos then v else Onward(l, r, e)
  {
    hide Linked;
    var (l', r') := Store(l, r, sp, v);
    LinkedFrame(l, r, l', r', if e.Right? then l[e.pos] else r[e.pos], end, e.side);
  }

  lemma StoreSame(l: seq<nat>, r: seq<nat>, sp: seq<Turn>, v: nat)
    requires |sp| > 1 && sp[|sp| - 1].pos < |l| && sp[|sp| - 1].pos < |r|
    ensures sp[1..][|sp| - 2] == sp[|sp| - 1] && Store(l, r, sp, v) == Store(l, r, sp[1..], v)
  {
  }

  /** Closing the open end with a tree. */
  lemma {:induction false} PathClose(l: seq<nat>, r: seq<nat>, link: nat, end: nat, sp: seq<Turn>, v: nat, t: Tree)
    requires sp != [] && Path(l, r, link, end, sp) && Linked(l, r, v, end, t) && Proper(Join(sp, t))
    ensures sp[|sp| - 1].pos < |l| && sp[|sp| - 1].pos < |r|
    ensures var (l', r') := Store(l, r, sp, v); Linked(l', r', link, end, Join(sp, t))
    decreases |sp|
  {
    hide Linked, Path, Join, Proper, Nodes, Store;
    JoinHead(sp, t);
    PathHead(l, r, link, end, sp);
    KeptInside(l, r, end, sp[0]);
    if |sp| == 1 {
      StoreKeeps(l, r, sp, v, v, end, t);
    } else {
      PathClose(l, r, Onward(l, r, sp[0]), end, sp[1..], v, t);
      StoreSame(l, r, sp, v);
    }
    KeptStore(l, r, sp, v, end, sp[0]);
    var (l', r') := Store(l, r, sp, v);
    JoinCons(l', r', end, sp, t);
  }

  lemma KeptInside(l: seq<nat>, r: seq<nat>, end: nat, e: Turn)
    requires Kept(l, r, end, e)
    ensures e.pos < |l| && e.pos < |r|
  {
  }

  /** Linking a node in at the open end lengthens the path. */
  lemma {:induction false} PathMore(l: seq<nat>, r: seq<nat>, link: nat, end: nat, sp: seq<Turn>, e: Turn)
    requires sp != [] && Path(l, r, link, end, sp) && Kept(l, r, end, e) && Proper(Join(sp, Join([e], Empty)))
    ensures sp[|sp| - 1].pos < |l| && sp[|sp| - 1].pos < |r|
    ensures var (l', r') := Store(l, r, sp, e.pos); Path(l', r', link, end, sp + [e])
    decreases |sp|
  {
    hide Linked, Path, Join, Proper, Nodes, Store, Kept;
    var f, more := sp[0], sp + [e];
    assert more[0] == f && more[1..] == sp[1..] + [e];
    JoinHead(sp, Join([e], Empty));
    PathHead(l, r, link, end, sp);
    KeptInside(l, r, end, f);
    if |sp| == 1 {
      assert more[1..] == [e];
      OneNodes(e);
      KeptStore(l, r, sp, e.pos, end, e);
      var (l', r') := Store(l, r, sp, e.pos);
      PathOne(l', r', end, e);
    } else {
      PathMore(l, r, Onward(l, r, f), end, sp[1..], e);
      StoreSame(l, r, sp, e.pos);
    }
    KeptStore(l, r, sp, e.pos, end, f);
    var (l', r') := Store(l, r, sp, e.pos);
    PathHead(l', r', link, end, more);
  }

  lemma OneNodes(e: Turn)
    ensures Nodes(Join([e], Empty)) == Nodes(e.side) + {e.pos}
  {
    JoinOne(e, Empty);
  }

  // ---------- The merge loop ----------

  /** The merge of t has come as far as the trees a and b. */
  ghost predicate Merging(l: seq<nat>, r: seq<nat>, root: nat, end: nat, t: Tree, sp: seq<Turn>, a: Tree, pa: nat,
                          b: Tree, pb: nat) {
    && |l| == |r| && Linked(l, r, pa, end, a) && Linked(l, r, pb, end, b) && Path(l, r, root, end, sp)
    && Join(sp, Merge(a, b)) == t && Proper(t)
  }

  lemma MergeSplit(a: Tree, b: Tree)
    ensures a.Node? && (b == Empty || a.pos > b.pos) ==> Merge(a, b) == Node(a.left, a.pos, Merge(a.right, b))
    ensures b.Node? && (a == Empty || a.pos <= b.pos) ==> Merge(a, b) == Node(Merge(a, b.left), b.pos, b.right)
    ensures Merge(Empty, Empty) == Empty
  {
  }

  lemma NodeApart(e: Turn, t: Tree)
    requires Proper(Join([e], t))
    ensures e.pos !in Nodes(t) && Nodes(e.side) !! Nodes(t) && Proper(Join([e], Empty))
    ensures Nodes(Join([e], Empty)) <= Nodes(Join([e], t))
  {
    JoinOne(e, t);
    JoinOne(e, Empty);
  }

  /** The first step: the newer root e.pos becomes the root, keeping one side; the other two trees are
      still to be merged. */
  lemma MergeFirst(l: seq<nat>, r: seq<nat>, root: nat, end: nat, t: Tree, a: Tree, pa: nat, b: Tree, pb: nat,
                   e: Turn, a': Tree, pa': nat, b': Tree, pb': nat)
    requires Merging(l, r, root, end, t, [], a, pa, b, pb) && Kept(l, r, end, e)
    requires Merge(a, b) == Join([e], Merge(a', b')) && Linked(l, r, pa', end, a') && Linked(l, r, pb', end, b')
    ensures Merging(l, r, e.pos, end, t, [e], a', pa', b', pb')
  {
    hide Linked, Path, Merge, Proper, Kept, Join;
    JoinNone([], Join([e], Merge(a', b')));
    PathOne(l, r, end, e);
  }

  /** The open end is none of the nodes still to be merged. */
  lemma MergeOpen(sp: seq<Turn>, t: Tree, e: Turn, a: Tree, b: Tree)
    requires sp != [] && t == Join(sp, Join([e], Merge(a, b))) && Proper(t)
    ensures var h := sp[|sp| - 1].pos; h in Nodes(t) && h != e.pos && h !in Nodes(a) && h !in Nodes(b)
    ensures Proper(Join(sp, Join([e], Empty)))
  {
    hide Merge, Proper, Join, Nodes;
    var rest := Merge(a, b);
    JoinApart(sp, Join([e], rest));
    NodeApart(e, rest);
    MergeNodes(a, b);
    JoinNodes(sp, Join([e], rest));
    HeadNode(e, rest);
    JoinShrink(sp, Join([e], rest), Join([e], Empty));
  }

  /** Every later step: the newer root is stored at the open end. */
  lemma MergeStep(l: seq<nat>, r: seq<nat>, root: nat, end: nat, t: Tree, sp: seq<Turn>, a: Tree, pa: nat, b: Tree,
                  pb: nat,
                  e: Turn, a': Tree, pa': nat, b': Tree, pb': nat)
    requires sp != [] && Merging(l, r, root, end, t, sp, a, pa, b, pb) && Kept(l, r, end, e)
    requires Merge(a, b) == Join([e], Merge(a', b')) && Linked(l, r, pa', end, a') && Linked(l, r, pb', end, b')
    ensures var h := sp[|sp| - 1].pos; h < |l| && h != e.pos && h in Nodes(t)
    ensures var (l', r') := Store(l, r, sp, e.pos); Merging(l', r', root, end, t, sp + [e], a', pa', b', pb')
  {
    hide Linked, Path, Merge, Proper, Kept, Join, Nodes, Store;
    JoinMore(sp, e, Merge(a', b'));
    MergeOpen(sp, t, e, a', b');
    PathMore(l, r, root, end, sp, e);
    StoreKeeps(l, r, sp, e.pos, pa', end, a');
    StoreKeeps(l, r, sp, e.pos, pb', end, b');
  }

  lemma JoinNone(sp: seq<Turn>, t: Tree)
    requires sp == []
    ensures Join(sp, t) == t
  {
  }

  lemma HeadNode(e: Turn, t: Tree)
    ensures e.pos in Nodes(Join([e], t)) && Nodes(t) <= Nodes(Join([e], t))
  {
    JoinOne(e, t);
  }

  /** A tree without the last node of the path is as linked as before. */
  lemma StoreKeeps(l: seq<nat>, r: seq<nat>, sp: seq<Turn>, v: nat, ptr: nat, end: nat, t: Tree)
    requires sp != [] && sp[|sp| - 1].pos < |l| && sp[|sp| - 1].pos < |r| && sp[|sp| - 1].pos !in Nodes(t)
             && Linked(l, r, ptr, end, t)
    ensures var (l', r') := Store(l, r, sp, v); |l'| == |l| && |r'| == |r| && Linked(l', r', ptr, end, t)
  {
    hide Linked;
    var (l', r') := Store(l, r, sp, v);
    LinkedFrame(l, r, l', r', ptr, end, t);
  }

  /** Both trees have run out: the path is closed as it is. */
  lemma MergeDone(l: seq<nat>, r: seq<nat>, root: nat, end: nat, t: Tree, sp: seq<Turn>, a: Tree, pa: nat, b: Tree,
                  pb: nat)
    requires Merging(l, r, root, end, t, sp, a, pa, b, pb)
    ensures sp != [] ==> sp[|sp| - 1].pos < |l| && sp[|sp| - 1].pos in Nodes(t)
                         && var (l', r') := Store(l, r, sp, 0); Linked(l', r', root, end, Join(sp, Empty))
  {
    hide Linked, Path, Proper, Merge;
    EmptyLinked(l, r, end);
    if sp != [] {
      JoinNodes(sp, Merge(a, b));
      JoinShrink(sp, Merge(a, b), Empty) by { ProperEmpty(); }
      PathClose(l, r, root, end, sp, 0, Empty) by { ProperEmpty(); }
    }
  }

  lemma ProperEmpty()
    ensures Proper(Empty) && Nodes(Empty) == {}
  {
  }

  lemma EmptyLinked(l: seq<nat>, r: seq<nat>, end: nat)
    ensures Linked(l, r, 0, end, Empty)
  {
  }

  // ---------- Expired roots ----------

  /** What the merge loop still has to do, when it gives up at expired roots. */
  ghost predicate Cutting(goal: Tree, sp: seq<Turn>, a: Tree, b: Tree, cut: nat) {
    Join(sp, MergeLive(a, b, cut)) == goal
  }

  lemma CuttingStart(a: Tree, b: Tree, cut: nat)
    ensures Cutting(MergeLive(a, b, cut), [], a, b, cut)
  {
    hide MergeLive;
  }

  lemma CutLeft(goal: Tree, sp: seq<Turn>, a: Tree, b: Tree, cut: nat)
    requires Cutting(goal, sp, a, b, cut) && a.Node? && (b == Empty || a.pos > b.pos)
    ensures a.pos <= cut ==> goal == Join(sp, Empty)
    ensures a.pos > cut ==> Cutting(goal, sp + [Right(a.left, a.pos)], a.right, b, cut)
  {
    hide Join;
    if a.pos > cut {
      JoinMore(sp, Right(a.left, a.pos), MergeLive(a.right, b, cut));
      JoinOne(Right(a.left, a.pos), MergeLive(a.right, b, cut));
    }
  }

  lemma CutRight(goal: Tree, sp: seq<Turn>, a: Tree, b: Tree, cut: nat)
    requires Cutting(goal, sp, a, b, cut) && b.Node? && (a == Empty || a.pos <= b.pos)
    ensures b.pos <= cut ==> goal == Join(sp, Empty)
    ensures b.pos > cut ==> Cutting(goal, sp + [Left(b.pos, b.right)], a, b.left, cut)
  {
    hide Join;
    if b.pos > cut {
      JoinMore(sp, Left(b.pos, b.right), MergeLive(a, b.left, cut));
      JoinOne(Left(b.pos, b.right), MergeLive(a, b.left, cut));
    }
  }

}
