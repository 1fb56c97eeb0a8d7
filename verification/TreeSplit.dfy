/** Splitting a linked search tree in place at a new string: two chains with open ends grow while the
    search goes down, the one with the larger strings from the new node's left link, the one with the
    smaller strings from its right link. */
module TreeSplit {
  import opened Bits
  import opened MatchTree
  import opened LinkedTrees

  /** The chains of larger and of smaller strings, the latter seen in a mirror. */
  datatype Chains = Chains(above: seq<Step>, below: seq<Step>)

  ghost predicate AllAbove(m: seq<byte>, t: Tree, u: Tree, s: nat) {
    forall q :: q in Nodes(u) ==> q in Nodes(t) && Smaller(m, s, q)
  }

  ghost predicate AllBelow(m: seq<byte>, t: Tree, u: Tree, s: nat) {
    forall q :: q in Nodes(u) ==> q in Nodes(t) && Smaller(m, q, s)
  }

  /** The tree t has been split at s as far as the subtree u, in which the search goes on. */
  ghost predicate Split(m: seq<byte>, s: nat, t: Tree, u: Tree, c: Chains) {
    && InRange(m, s) && Treap(m, t) && Newer(s, t) && Treap(m, u) && Nodes(u) <= Nodes(t)
    && Proper(Plug(c.above, u)) && Proper(Plug(c.below, Mirror(u)))
    && AllAbove(m, t, Plug(c.above, Empty), s) && AllBelow(m, t, Plug(c.below, Empty), s)
    && Plug(c.above, Above(m, u, s)) == Above(m, t, s)
    && Plug(c.below, Mirror(Below(m, u, s))) == Mirror(Below(m, t, s))
  }

  /** The links show the split. */
  ghost predicate Stored(l: seq<nat>, r: seq<nat>, s: nat, end: nat, u: Tree, ptr: nat, c: Chains) {
    && |l| == |r| && s < |l| && Linked(l, r, ptr, end, u)
    && Chained(l, r, l[s], end, c.above) && Chained(r, l, r[s], end, c.below)
  }

  lemma SplitStart(m: seq<byte>, s: nat, t: Tree)
    requires InRange(m, s) && Treap(m, t) && Newer(s, t)
    ensures Split(m, s, t, t, Chains([], []))
  {
    hide Treap, Above, Below;
    TreapProper(m, t);
    MirrorProper(t);
  }

  // ---------- One step down ----------

  lemma StepBelow(m: seq<byte>, s: nat, t: Tree, u: Tree, c: Chains)
    requires Split(m, s, t, u, c) && u.Node? && Smaller(m, u.pos, s)
    ensures Split(m, s, t, u.left, Chains(c.above, c.below + [Step(Mirror(u.right), u.pos)]))
  {
    hide Match, Less, Plug;
    var a, p, b := u.left, u.pos, u.right;
    var e := Step(Mirror(b), p);
    Trichotomy(m, p, s);
    PlugApart(c.above, u);
    PlugShrink(c.above, u, a);
    PlugMore(c.below, e, Mirror(a));
    PlugMore(c.below, e, Mirror(Below(m, a, s)));
    PlugMore(c.below, e, Empty);
    PlugNodes(c.below, Node(Mirror(b), p, Empty));
    MirrorNodes(b);
    forall q | q in Nodes(b) ensures Smaller(m, q, s) {
      Position(m, p, q, s);
    }
  }

  lemma StepAbove(m: seq<byte>, s: nat, t: Tree, u: Tree, c: Chains)
    requires Split(m, s, t, u, c) && u.Node? && Smaller(m, s, u.pos)
    ensures Split(m, s, t, u.right, Chains(c.above + [Step(u.left, u.pos)], c.below))
  {
    hide Match, Less, Plug;
    var a, p, b := u.left, u.pos, u.right;
    var e := Step(a, p);
    Trichotomy(m, p, s);
    MatchSymmetric(m, p, s);
    PlugApart(c.below, Mirror(u));
    MirrorNodes(b);
    MirrorNodes(u);
    PlugShrink(c.below, Mirror(u), Mirror(b));
    PlugMore(c.above, e, b);
    PlugMore(c.above, e, Above(m, b, s));
    PlugMore(c.above, e, Empty);
    PlugNodes(c.above, Node(a, p, Empty));
    forall q | q in Nodes(a) ensures Smaller(m, s, q) {
      Position(m, p, q, s);
    }
  }

  // ---------- The open ends ----------

  /** The new left links when v is stored at the open end of the larger strings. */
  ghost function OpenAbove(l: seq<nat>, r: seq<nat>, s: nat, c: Chains, v: nat): (seq<nat>, seq<nat>)
    requires s < |l|
    requires c.above != [] ==> Last(c.above) < |r|
  {
    if c.above == [] then (l[s := v], r) else (l, r[Last(c.above) := v])
  }

  ghost function OpenBelow(l: seq<nat>, r: seq<nat>, s: nat, c: Chains, v: nat): (seq<nat>, seq<nat>)
    requires s < |r|
    requires c.below != [] ==> Last(c.below) < |l|
  {
    if c.below == [] then (l, r[s := v]) else (l[Last(c.below) := v], r)
  }

  lemma OpenEnds(m: seq<byte>, s: nat, t: Tree, u: Tree, c: Chains)
    requires Split(m, s, t, u, c)
    ensures c.above != [] ==> var h := Last(c.above);
                              h in Nodes(Plug(c.above, Empty)) && h < s && h !in Nodes(u)
                                && h !in Nodes(Plug(c.below, Empty))
    ensures c.below != [] ==> var h := Last(c.below);
                              h in Nodes(Plug(c.below, Empty)) && h < s && h !in Nodes(u)
                                && h !in Nodes(Plug(c.above, Empty))
    ensures s !in Nodes(u) && s !in Nodes(Plug(c.above, Empty)) && s !in Nodes(Plug(c.below, Empty))
  {
    hide Match, Less, Plug, Treap, Above, Below;
    PlugNodes(c.above, Empty);
    PlugNodes(c.below, Empty);
    PlugApart(c.above, u);
    PlugApart(c.below, Mirror(u));
    MirrorNodes(u);
    if c.above != [] {
      assert c.above[|c.above| - 1].pos in Nodes(Plug(c.above, Empty));
      if Last(c.above) in Nodes(Plug(c.below, Empty)) {
        Trichotomy(m, s, Last(c.above));
      }
    }
    if c.below != [] {
      assert c.below[|c.below| - 1].pos in Nodes(Plug(c.below, Empty));
      if Last(c.below) in Nodes(Plug(c.above, Empty)) {
        Trichotomy(m, s, Last(c.below));
      }
    }
  }

  /** The stored ends are inside the arrays. */
  lemma {:induction false} EndInside(x: seq<nat>, y: seq<nat>, link: nat, end: nat, sp: seq<Step>)
    requires Chained(x, y, link, end, sp) && sp != []
    ensures end < Last(sp) < |x| && Last(sp) < |y|
    decreases |sp|
  {
    hide Linked;
    if |sp| > 1 {
      EndInside(x, y, y[link], end, sp[1..]);
      assert Last(sp[1..]) == Last(sp);
    }
  }

  lemma StoreBelow(m: seq<byte>, l: seq<nat>, r: seq<nat>, s: nat, end: nat, t: Tree, u: Tree, ptr: nat, c: Chains)
    requires Split(m, s, t, u, c) && Stored(l, r, s, end, u, ptr, c) && u.Node?
    ensures c.below != [] ==> Last(c.below) < |l|
    ensures var (l', r') := OpenBelow(l, r, s, c, ptr);
            && |l'| == |l| && |r'| == |r| && ptr == u.pos < |l| && l'[ptr] == l[ptr]
            && Stored(l', r', s, end, u.left, l[ptr], Chains(c.above, c.below + [Step(Mirror(u.right), u.pos)]))
  {
    hide Linked, Chained, Plug, Match, Less, Treap, Above, Below, Newer;
    var p, e := u.pos, Step(Mirror(u.right), u.pos);
    NodeParts(l, r, ptr, end, u);
    OpenEnds(m, s, t, u, c);
    MirrorLinked(l, r, r[p], end, u.right);
    PlugApart(c.above, u);
    MirrorNodes(u.right);
    if c.below == [] {
      var r' := r[s := p];
      LinkedFrame(l, r, l, r', l[p], end, u.left);
      LinkedFrame(r, l, r', l, r[p], end, Mirror(u.right));
      ChainOne(r', l, p, end, e);
      ChainedFrame(l, r, l, r', l[s], end, c.above);
      assert c.below + [e] == [e];
    } else {
      EndInside(r, l, r[s], end, c.below);
      var h := Last(c.below);
      var l' := l[h := p];
      LinkedFrame(l, r, l', r, l[p], end, u.left);
      ChainedFrame(l, r, l', r, l[s], end, c.above);
      PlugApart(c.below, Mirror(u));
      PlugShrink(c.below, Mirror(u), Node(e.side, e.pos, Empty));
      ChainMore(r, l, r[s], end, c.below, e);
    }
  }

  lemma StoreAbove(m: seq<byte>, l: seq<nat>, r: seq<nat>, s: nat, end: nat, t: Tree, u: Tree, ptr: nat, c: Chains)
    requires Split(m, s, t, u, c) && Stored(l, r, s, end, u, ptr, c) && u.Node?
    ensures c.above != [] ==> Last(c.above) < |r|
    ensures var (l', r') := OpenAbove(l, r, s, c, ptr);
            && |l'| == |l| && |r'| == |r| && ptr == u.pos < |l| && r'[ptr] == r[ptr]
            && Stored(l', r', s, end, u.right, r[ptr], Chains(c.above + [Step(u.left, u.pos)], c.below))
  {
    hide Linked, Chained, Plug, Match, Less, Treap, Above, Below, Newer;
    var p, e := u.pos, Step(u.left, u.pos);
    NodeParts(l, r, ptr, end, u);
    OpenEnds(m, s, t, u, c);
    PlugApart(c.above, u);
    if c.above == [] {
      var l' := l[s := p];
      LinkedFrame(l, r, l', r, r[p], end, u.right);
      LinkedFrame(l, r, l', r, l[p], end, u.left);
      ChainOne(l', r, p, end, e);
      ChainedFrame(r, l, r, l', r[s], end, c.below);
      assert c.above + [e] == [e];
    } else {
      EndInside(l, r, l[s], end, c.above);
      var h := Last(c.above);
      var r' := r[h := p];
      LinkedFrame(l, r, l, r', r[p], end, u.right);
      ChainedFrame(r, l, r', l, r[s], end, c.below);
      PlugShrink(c.above, u, Node(e.side, e.pos, Empty));
      ChainMore(l, r, l[s], end, c.above, e);
    }
  }

  lemma NodeParts(l: seq<nat>, r: seq<nat>, ptr: nat, end: nat, u: Tree)
    requires Linked(l, r, ptr, end, u) && u.Node?
    ensures ptr == u.pos > end && ptr < |l| && ptr < |r|
    ensures Linked(l, r, l[ptr], end, u.left) && Linked(l, r, r[ptr], end, u.right)
    ensures u.pos in Nodes(u) && Nodes(u.left) <= Nodes(u) && Nodes(u.right) <= Nodes(u)
  {
  }

  lemma ChainOne(x: seq<nat>, y: seq<nat>, p: nat, end: nat, e: Step)
    requires p == e.pos > end && p < |x| && p < |y| && Linked(x, y, x[p], end, e.side)
    ensures Chained(x, y, p, end, [e])
  {
    hide Linked;
    assert Chained(x, y, y[p], end, [e][1..]);
  }

  // ---------- Closing both ends ----------

  lemma CloseAbove(l: seq<nat>, r: seq<nat>, s: nat, end: nat, c: Chains, v: nat, t: Tree)
    requires |l| == |r| && s < |l| && Chained(l, r, l[s], end, c.above) && Linked(l, r, v, end, t)
    requires Proper(Plug(c.above, t)) && s !in Nodes(t)
    ensures c.above != [] ==> Last(c.above) < |r|
    ensures var (l1, r1) := OpenAbove(l, r, s, c, v);
            |l1| == |l| && |r1| == |r| && Linked(l1, r1, if c.above == [] then v else l[s], end, Plug(c.above, t))
    ensures var (l1, r1) := OpenAbove(l, r, s, c, v); l1[s] == if c.above == [] then v else l[s]
  {
    hide Linked, Chained;
    if c.above == [] {
      LinkedFrame(l, r, l[s := v], r, v, end, t);
    } else {
      EndInside(l, r, l[s], end, c.above);
      ChainClose(l, r, l[s], end, c.above, v, t);
    }
  }

  lemma CloseBelow(l: seq<nat>, r: seq<nat>, s: nat, end: nat, c: Chains, v: nat, t: Tree)
    requires |l| == |r| && s < |l| && Chained(r, l, r[s], end, c.below) && Linked(r, l, v, end, t)
    requires Proper(Plug(c.below, t)) && s !in Nodes(t)
    ensures c.below != [] ==> Last(c.below) < |l|
    ensures var (l1, r1) := OpenBelow(l, r, s, c, v);
            |l1| == |l| && |r1| == |r| && Linked(r1, l1, if c.below == [] then v else r[s], end, Plug(c.below, t))
    ensures var (l1, r1) := OpenBelow(l, r, s, c, v); r1[s] == if c.below == [] then v else r[s]
  {
    hide Linked, Chained;
    if c.below == [] {
      LinkedFrame(r, l, r[s := v], l, v, end, t);
    } else {
      EndInside(r, l, r[s], end, c.below);
      ChainClose(r, l, r[s], end, c.below, v, t);
    }
  }

  /** Closing the end of the larger strings leaves the other chain, and the tree to close it with, alone. */
  lemma KeepBelow(l: seq<nat>, r: seq<nat>, s: nat, end: nat, c: Chains, va: nat, vb: nat, tb: Tree)
    requires |l| == |r| && s < |l| && Chained(r, l, r[s], end, c.below) && Linked(l, r, vb, end, tb)
    requires s !in Nodes(tb) && s !in Nodes(Plug(c.below, Empty))
    requires c.above != [] ==>
               var h := Last(c.above); h < |r| && h != s && h !in Nodes(tb) && h !in Nodes(Plug(c.below, Empty))
    ensures var (l1, r1) := OpenAbove(l, r, s, c, va);
            |l1| == |l| && |r1| == |r| && Chained(r1, l1, r1[s], end, c.below) && Linked(r1, l1, vb, end, Mirror(tb))
  {
    hide Linked, Chained, Plug;
    var (l1, r1) := OpenAbove(l, r, s, c, va);
    ChainedFrame(r, l, r1, l1, r[s], end, c.below);
    LinkedFrame(l, r, l1, r1, vb, end, tb);
    MirrorLinked(l1, r1, vb, end, tb);
  }

  lemma KeepAbove(l: seq<nat>, r: seq<nat>, s: nat, end: nat, c: Chains, v: nat, t: Tree)
    requires |l| == |r| && s < |l| && Linked(l, r, l[s], end, t) && s !in Nodes(t)
    requires c.below != [] ==> var h := Last(c.below); h < |l| && h != s && h !in Nodes(t)
    ensures var (l1, r1) := OpenBelow(l, r, s, c, v);
            |l1| == |l| && |r1| == |r| && Linked(l1, r1, l1[s], end, t)
  {
    hide Linked;
    var (l1, r1) := OpenBelow(l, r, s, c, v);
    LinkedFrame(l, r, l1, r1, l[s], end, t);
  }

  /** The trees that close the chains fit them. */
  lemma FitEnds(m: seq<byte>, s: nat, t: Tree, u: Tree, c: Chains)
    requires Split(m, s, t, u, c)
    ensures var ta, tb := Above(m, u, s), Mirror(Below(m, u, s));
            && Proper(Plug(c.above, ta)) && Proper(Plug(c.below, tb)) && Nodes(ta) <= Nodes(u) && Nodes(tb) <= Nodes(u)
            && Nodes(Plug(c.above, ta)) == Nodes(Plug(c.above, Empty)) + Nodes(ta) && Nodes(tb) == Nodes(Below(m, u, s))
  {
    hide Plug, Match, Less, Treap, Above, Below;
    var ta, tb := Above(m, u, s), Below(m, u, s);
    AboveNodes(m, u, s);
    BelowNodes(m, u, s);
    AboveTreap(m, u, s);
    BelowTreap(m, u, s);
    TreapProper(m, ta);
    TreapProper(m, tb);
    MirrorProper(tb);
    MirrorNodes(tb);
    MirrorNodes(u);
    PlugShrink(c.above, u, ta);
    PlugShrink(c.below, Mirror(u), Mirror(tb));
    PlugNodes(c.above, ta);
  }

  /** With both ends closed the new node is the root of the tree with it inserted. */
  lemma CloseBoth(m: seq<byte>, l: seq<nat>, r: seq<nat>, s: nat, end: nat, t: Tree, u: Tree, ptr: nat, c: Chains,
                  va: nat, vb: nat)
    requires Split(m, s, t, u, c) && Stored(l, r, s, end, u, ptr, c) && end < s
    requires Linked(l, r, va, end, Above(m, u, s)) && Linked(l, r, vb, end, Below(m, u, s))
    ensures c.above != [] ==> Last(c.above) < |r|
    ensures c.below != [] ==> Last(c.below) < |l|
    ensures var (l1, r1) := OpenAbove(l, r, s, c, va);
            |l1| == |l| && |r1| == |r| &&
            var (l2, r2) := OpenBelow(l1, r1, s, c, vb);
            |l2| == |l| && |r2| == |r| && Linked(l2, r2, s, end, Insert(m, t, s))
  {
    hide Linked, Chained, Plug, Match, Less, Treap, Above, Below, Newer, Nodes, OpenAbove, OpenBelow, Mirror, Proper,
         AllAbove, AllBelow;
    var ta, tb := Above(m, u, s), Below(m, u, s);
    OpenEnds(m, s, t, u, c);
    FitEnds(m, s, t, u, c);
    CloseAbove(l, r, s, end, c, va, ta);
    var (l1, r1) := OpenAbove(l, r, s, c, va);
    KeepBelow(l, r, s, end, c, va, vb, tb);
    CloseBelow(l1, r1, s, end, c, vb, Mirror(tb));
    var (l2, r2) := OpenBelow(l1, r1, s, c, vb);
    KeepAbove(l1, r1, s, end, c, vb, Plug(c.above, ta));
    MirrorNodes(Below(m, t, s));
    MirrorLinked(r2, l2, r2[s], end, Plug(c.below, Mirror(tb)));
    LinkedMake(l2, r2, s, end, Above(m, t, s), Below(m, t, s));
  }
}
