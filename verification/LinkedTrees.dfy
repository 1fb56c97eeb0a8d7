/** Search trees in two arrays of links, and the split of a tree into two chains with open ends. A link
    to an expired position is an empty tree. */
module LinkedTrees {
  import opened Bits
  import opened MatchTree

  /** The links from ptr on make up the tree t. */
  ghost predicate Linked(l: seq<nat>, r: seq<nat>, ptr: nat, end: nat, t: Tree)
    decreases t
  {
    match t
    case Empty => ptr <= end
    case Node(a, p, b) =>
      ptr == p > end && p < |l| && p < |r| && Linked(l, r, l[p], end, a) && Linked(l, r, r[p], end, b)
  }

  lemma {:induction false} LinkedFrame(l: seq<nat>, r: seq<nat>, l': seq<nat>, r': seq<nat>, ptr: nat, end: nat,
                                       t: Tree)
    requires Linked(l, r, ptr, end, t) && |l'| == |l| && |r'| == |r|
    requires forall q :: q in Nodes(t) && q < |l| ==> l'[q] == l[q]
    requires forall q :: q in Nodes(t) && q < |r| ==> r'[q] == r[q]
    ensures Linked(l', r', ptr, end, t)
    decreases t
  {
    if t.Node? {
      LinkedFrame(l, r, l', r', l[t.pos], end, t.left);
      LinkedFrame(l, r, l', r', r[t.pos], end, t.right);
    }
  }

  lemma {:induction false} LinkedNodes(l: seq<nat>, r: seq<nat>, ptr: nat, end: nat, t: Tree)
    requires Linked(l, r, ptr, end, t)
    ensures forall q :: q in Nodes(t) ==> end < q < |l| && q < |r|
    decreases t
  {
    if t.Node? {
      LinkedNodes(l, r, l[t.pos], end, t.left);
      LinkedNodes(l, r, r[t.pos], end, t.right);
    }
  }

  /** As positions expire the links show what is left of the tree. */
  lemma {:induction false} LinkedLive(l: seq<nat>, r: seq<nat>, ptr: nat, end: nat, t: Tree, end': nat)
    requires Linked(l, r, ptr, end, t) && end <= end'
    ensures Linked(l, r, ptr, end', Live(t, end'))
    decreases t
  {
    if t.Node? && t.pos > end' {
      LinkedLive(l, r, l[t.pos], end, t.left, end');
      LinkedLive(l, r, r[t.pos], end, t.right, end');
    }
  }

  // ---------- Mirror images ----------

  ghost function Mirror(t: Tree): Tree {
    match t
    case Empty => Empty
    case Node(a, p, b) => Node(Mirror(b), p, Mirror(a))
  }

  lemma {:induction false} MirrorNodes(t: Tree)
    ensures Nodes(Mirror(t)) == Nodes(t) && Mirror(Mirror(t)) == t
  {
    if t.Node? {
      MirrorNodes(t.left);
      MirrorNodes(t.right);
    }
  }

  lemma {:induction false} MirrorLinked(l: seq<nat>, r: seq<nat>, ptr: nat, end: nat, t: Tree)
    requires Linked(l, r, ptr, end, t)
    ensures Linked(r, l, ptr, end, Mirror(t))
    decreases t
  {
    if t.Node? {
      MirrorLinked(l, r, l[t.pos], end, t.left);
      MirrorLinked(l, r, r[t.pos], end, t.right);
    }
  }

  // ---------- Every position once ----------

  ghost predicate Proper(t: Tree) {
    match t
    case Empty => true
    case Node(a, p, b) => p !in Nodes(a) && p !in Nodes(b) && Nodes(a) !! Nodes(b) && Proper(a) && Proper(b)
  }

  lemma {:induction false} TreapProper(m: seq<byte>, t: Tree)
    requires Treap(m, t)
    ensures Proper(t)
  {
    hide Less;
    if t.Node? {
      TreapProper(m, t.left);
      TreapProper(m, t.right);
      forall q | q in Nodes(t.left) ensures q !in Nodes(t.right) {
        Trichotomy(m, t.pos, q);
      }
    }
  }

  lemma {:induction false} MirrorProper(t: Tree)
    requires Proper(t)
    ensures Proper(Mirror(t))
  {
    if t.Node? {
      MirrorProper(t.left);
      MirrorProper(t.right);
      MirrorNodes(t.left);
      MirrorNodes(t.right);
    }
  }

  // ---------- Chains with an open end ----------

  /** A node of the chain with the subtree it keeps; the chain goes on at its other link. */
  datatype Step = Step(side: Tree, pos: nat)

  /** The tree a chain makes when t is put at its open end. */
  ghost function Plug(sp: seq<Step>, t: Tree): Tree
    decreases |sp|
  {
    if sp == [] then t else Node(sp[0].side, sp[0].pos, Plug(sp[1..], t))
  }

  /** The chain from link on: kept subtrees hang on x links, the chain runs along y links, the last of
      which is open. */
  ghost predicate Chained(x: seq<nat>, y: seq<nat>, link: nat, end: nat, sp: seq<Step>)
    decreases |sp|
  {
    sp == [] ||
    (link == sp[0].pos > end && link < |x| && link < |y| && Linked(x, y, x[link], end, sp[0].side)
     && Chained(x, y, y[link], end, sp[1..]))
  }

  lemma {:induction false} PlugMore(sp: seq<Step>, e: Step, t: Tree)
    ensures Plug(sp + [e], t) == Plug(sp, Node(e.side, e.pos, t))
    decreases |sp|
  {
    if sp == [] {
      assert [e][1..] == [];
      assert sp + [e] == [e];
    } else {
      PlugMore(sp[1..], e, t);
      assert (sp + [e])[0] == sp[0] && (sp + [e])[1..] == sp[1..] + [e];
    }
  }

  lemma {:induction false} PlugNodes(sp: seq<Step>, t: Tree)
    ensures Nodes(Plug(sp, t)) == Nodes(Plug(sp, Empty)) + Nodes(t)
    ensures forall i :: 0 <= i < |sp| ==> sp[i].pos in Nodes(Plug(sp, Empty))
    decreases |sp|
  {
    if sp != [] {
      PlugNodes(sp[1..], t);
      assert forall i :: 1 <= i < |sp| ==> sp[i] == sp[1..][i - 1];
    }
  }

  /** A smaller tree at the open end. */
  lemma {:induction false} PlugShrink(sp: seq<Step>, t: Tree, u: Tree)
    requires Proper(Plug(sp, t)) && Proper(u) && Nodes(u) <= Nodes(t)
    ensures Proper(Plug(sp, u))
    decreases |sp|
  {
    if sp != [] {
      PlugShrink(sp[1..], t, u);
      PlugNodes(sp[1..], t);
      PlugNodes(sp[1..], u);
    }
  }

  /** The tree at the open end has none of the chain's nodes. */
  lemma {:induction false} PlugApart(sp: seq<Step>, t: Tree)
    requires Proper(Plug(sp, t))
    ensures Proper(t) && Nodes(Plug(sp, Empty)) !! Nodes(t)
    decreases |sp|
  {
    if sp != [] {
      PlugApart(sp[1..], t);
      PlugNodes(sp[1..], t);
    }
  }

  lemma {:induction false} ChainedFrame(x: seq<nat>, y: seq<nat>, x': seq<nat>, y': seq<nat>, link: nat, end: nat,
                                        sp: seq<Step>)
    requires Chained(x, y, link, end, sp) && |x'| == |x| && |y'| == |y|
    requires forall q :: q in Nodes(Plug(sp, Empty)) && q < |x| ==> x'[q] == x[q]
    requires forall q :: q in Nodes(Plug(sp, Empty)) && q < |y| ==> y'[q] == y[q]
    ensures Chained(x', y', link, end, sp)
    decreases |sp|
  {
    hide Linked;
    if sp != [] {
      LinkedFrame(x, y, x', y', x[link], end, sp[0].side);
      ChainedFrame(x, y, x', y', y[link], end, sp[1..]);
    }
  }

  ghost function Last(sp: seq<Step>): nat
    requires sp != []
  {
    sp[|sp| - 1].pos
  }

  /** Putting a node at the open end lengthens the chain. */
  lemma {:induction false} ChainMore(x: seq<nat>, y: seq<nat>, link: nat, end: nat, sp: seq<Step>, e: Step)
    requires sp != [] && Chained(x, y, link, end, sp) && end < e.pos < |x| && e.pos < |y|
             && Linked(x, y, x[e.pos], end, e.side)
    requires Proper(Plug(sp, Node(e.side, e.pos, Empty)))
    ensures Last(sp) < |y| && Chained(x, y[Last(sp) := e.pos], link, end, sp + [e])
    decreases |sp|
  {
    hide Linked;
    var more := sp + [e];
    assert more[0] == sp[0] && more[1..] == sp[1..] + [e];
    PlugNodes(sp[1..], Node(e.side, e.pos, Empty));
    if |sp| == 1 {
      var y' := y[Last(sp) := e.pos];
      LinkedFrame(x, y, x, y', x[link], end, sp[0].side);
      LinkedFrame(x, y, x, y', x[e.pos], end, e.side);
      assert sp[1..] + [e] == [e] && [e][1..] == [];
      assert Chained(x, y', y'[e.pos], end, [e][1..]);
      assert Chained(x, y', e.pos, end, [e]);
      assert Chained(x, y', y'[link], end, more[1..]);
    } else {
      assert Last(sp) == Last(sp[1..]);
      ChainMore(x, y, y[link], end, sp[1..], e);
      var y' := y[Last(sp) := e.pos];
      assert sp[1..][|sp| - 2] == sp[|sp| - 1];
      LinkedFrame(x, y, x, y', x[link], end, sp[0].side);
    }
  }

  /** Putting a tree at the open end closes the chain. */
  lemma {:induction false} ChainClose(x: seq<nat>, y: seq<nat>, link: nat, end: nat, sp: seq<Step>, v: nat, t: Tree)
    requires sp != [] && Chained(x, y, link, end, sp) && Linked(x, y, v, end, t) && Proper(Plug(sp, t))
    ensures Last(sp) < |y| && Linked(x, y[Last(sp) := v], link, end, Plug(sp, t))
    decreases |sp|
  {
    hide Linked;
    PlugNodes(sp[1..], t);
    if |sp| == 1 {
      var y' := y[Last(sp) := v];
      LinkedFrame(x, y, x, y', x[link], end, sp[0].side);
      LinkedFrame(x, y, x, y', v, end, t);
      assert Plug(sp[1..], t) == t;
      LinkedMake(x, y', link, end, sp[0].side, t);
    } else {
      assert Last(sp) == Last(sp[1..]);
      ChainClose(x, y, y[link], end, sp[1..], v, t);
      var y' := y[Last(sp) := v];
      assert sp[1..][|sp| - 2] == sp[|sp| - 1];
      LinkedFrame(x, y, x, y', x[link], end, sp[0].side);
      LinkedMake(x, y', link, end, sp[0].side, Plug(sp[1..], t));
    }
  }

  lemma LinkedMake(l: seq<nat>, r: seq<nat>, p: nat, end: nat, a: Tree, b: Tree)
    requires end < p < |l| && p < |r| && Linked(l, r, l[p], end, a) && Linked(l, r, r[p], end, b)
    ensures Linked(l, r, p, end, Node(a, p, b))
  {
  }
}
