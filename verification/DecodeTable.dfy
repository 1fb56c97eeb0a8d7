/** The decoder's two-level lookup table. A table of 2^tb entries is indexed by the next tb bits;
    codes longer than tb bits continue in a tree of two-way nodes, whose links are stored as
    negative node numbers. The entry 0 is both symbol 0 and "nothing here yet". */
module DecodeTable {
  import opened Bits
  import opened Canonical

  // ---------- Looking a symbol up ----------

  /** Following links from entry e along the bits ends at symbol s, inside the tree and the bits. */
  ghost predicate Leads(lr: seq<int>, e: int, bits: seq<bool>, s: nat)
    decreases |bits|
  {
    if e >= 0 then e == s
    else
      bits != [] && 2 * -e + 1 < |lr| && Leads(lr, lr[2 * -e + Bit(bits[0])], bits[1..], s)
  }

  /** The table finds every code of lens at the front of any 16 bits. */
  ghost predicate Finds(table: seq<int>, lr: seq<int>, tb: nat, lens: seq<nat>) {
    tb <= 16 && |table| == Pow2(tb)
    && forall s: nat, b :: Used(lens, s) && |b| == 16 && Code(lens, s) <= b ==>
                        ValueOf(b[..tb]) < |table| && Leads(lr, table[ValueOf(b[..tb])], b[tb..], s)
  }

  // ---------- The state of a table under construction ----------

  /** A place that holds an entry. */
  datatype Slot = InTable(i: nat) | InTree(i: nat)

  /** The arrays, and the bits that lead to each node. Node numbers start at base. */
  datatype State = State(table: seq<int>, lr: seq<int>, base: nat, nodes: seq<seq<bool>>) {
    /** Slots used by long codes: table entries from lo on, and the links of every node. */
    ghost predicate Valid(lo: nat, slot: Slot) {
      match slot
      case InTable(i) => lo <= i < |table|
      case InTree(i) => 2 * base <= i < 2 * (base + |nodes|) && i < |lr|
    }

    ghost function Get(lo: nat, slot: Slot): int
      requires Valid(lo, slot)
    {
      match slot
      case InTable(i) => table[i]
      case InTree(i) => lr[i]
    }

    ghost function Set(lo: nat, slot: Slot, v: int): State
      requires Valid(lo, slot)
    {
      match slot
      case InTable(i) => this.(table := table[i := v])
      case InTree(i) => this.(lr := lr[i := v])
    }

    /** The bits that lead to a slot. */
    ghost function Path(tb: nat, lo: nat, slot: Slot): seq<bool>
      requires Valid(lo, slot)
    {
      match slot
      case InTable(i) => BitsOf(tb, i)
      case InTree(i) => nodes[i / 2 - base] + [i % 2 == 1]
    }
  }

  /** No code of a symbol below ch starts with p. */
  ghost predicate NoneUnder(lens: seq<nat>, ch: nat, p: seq<bool>) {
    forall s: nat | s < ch && Used(lens, s) :: !(p <= Code(lens, s))
  }

  /** What entry v under path p means once the symbols below ch are in. */
  ghost predicate Means(lens: seq<nat>, ch: nat, st: State, v: int, p: seq<bool>) {
    if v < 0 then st.base <= -v < st.base + |st.nodes| && st.nodes[-v - st.base] == p
    else (v < ch && Used(lens, v) && Code(lens, v) == p) || (v == 0 && NoneUnder(lens, ch, p))
  }

  ghost predicate ProperPrefix(p: seq<bool>, c: seq<bool>) {
    p <= c && |p| < |c|
  }

  /** p is the path of an inner node: some code goes through it. */
  ghost predicate Inner(lens: seq<nat>, n: nat, p: seq<bool>) {
    exists s: nat :: s < n && Used(lens, s) && ProperPrefix(p, Code(lens, s))
  }

  /** The nodes are inner, distinct, and hang together: the node above a node is a node. */
  ghost predicate Nodes(lens: seq<nat>, tb: nat, nodes: seq<seq<bool>>) {
    && (forall k :: 0 <= k < |nodes| ==> tb <= |nodes[k]| && Inner(lens, |lens|, nodes[k]))
    && (forall j, k :: 0 <= j < k < |nodes| ==> nodes[j] != nodes[k])
    && (forall k :: 0 <= k < |nodes| && |nodes[k]| > tb ==> nodes[k][..|nodes[k]| - 1] in nodes)
  }

  /** Every slot means what it says; a slot on the path of a node is a link. */
  ghost predicate Slots(lens: seq<nat>, ch: nat, tb: nat, lo: nat, st: State) {
    forall slot :: st.Valid(lo, slot) ==>
      Means(lens, ch, st, st.Get(lo, slot), st.Path(tb, lo, slot))
      && (st.Path(tb, lo, slot) in st.nodes ==> st.Get(lo, slot) < 0)
  }

  ghost predicate Consistent(lens: seq<nat>, ch: nat, tb: nat, lo: nat, st: State) {
    && |st.table| == Pow2(tb) && st.base == |lens| && 2 * (st.base + |st.nodes|) <= |st.lr|
    && Nodes(lens, tb, st.nodes) && Slots(lens, ch, tb, lo, st)
  }

  /** On the way to placing code c: slots above depth d on its path are all links. */
  ghost predicate LinkedTo(tb: nat, lo: nat, st: State, c: seq<bool>, d: nat) {
    forall slot :: st.Valid(lo, slot) && st.Path(tb, lo, slot) <= c && |st.Path(tb, lo, slot)| < d
                   ==> st.Get(lo, slot) < 0
  }

  lemma BitsInjective(n: nat, x: nat, y: nat)
    requires x < Pow2(n) && y < Pow2(n) && BitsOf(n, x) == BitsOf(n, y)
    ensures x == y
  {
    ValueOfBits(n, x);
    ValueOfBits(n, y);
  }

  /** Different slots have different paths. */
  lemma OnePlace(lens: seq<nat>, ch: nat, tb: nat, lo: nat, st: State, a: Slot, b: Slot)
    requires Consistent(lens, ch, tb, lo, st)
    requires st.Valid(lo, a) && st.Valid(lo, b) && st.Path(tb, lo, a) == st.Path(tb, lo, b)
    ensures a == b
  {
    hide Pow2, BitsOf, Means, Inner, NoneUnder, Slots;
    if a.InTable? && b.InTable? {
      assert |st.table| == Pow2(tb);
      BitsInjective(tb, a.i, b.i);
    } else if a.InTree? && b.InTree? {
      var ka, kb := a.i / 2 - st.base, b.i / 2 - st.base;
      var p, q := st.Path(tb, lo, a), st.Path(tb, lo, b);
      assert p[..|p| - 1] == st.nodes[ka] && q[..|q| - 1] == st.nodes[kb];
      assert p[|p| - 1] == (a.i % 2 == 1) && q[|q| - 1] == (b.i % 2 == 1);
    }
  }

  // ---------- Steps ----------

  /** A code ends nowhere on the way to another code. */
  lemma NothingOnTheWay(lens: seq<nat>, ch: nat, p: seq<bool>, v: nat)
    requires Complete(lens) && Used(lens, ch) && ProperPrefix(p, Code(lens, ch)) && Used(lens, v)
    ensures Code(lens, v) != p
  {
    hide Code, Complete;
    if Code(lens, v) == p {
      PrefixFree(lens, v, ch);
    }
  }

  /** The state after an empty slot has become a link to a new, empty node. */
  ghost function Grow(tb: nat, lo: nat, st: State, slot: Slot): State
    requires st.Valid(lo, slot) && 2 * (st.base + |st.nodes|) + 1 < |st.lr|
  {
    var a := st.base + |st.nodes|;
    var wider := State(st.table, st.lr[2 * a := 0][2 * a + 1 := 0], st.base, st.nodes + [st.Path(tb, lo, slot)]);
    wider.Set(lo, slot, -a)
  }

  /** What Grow changes: one slot becomes a link, two empty slots appear under it. */
  lemma GrowEffect(tb: nat, lo: nat, st: State, slot: Slot, other: Slot)
    requires st.Valid(lo, slot) && 2 * (st.base + |st.nodes|) + 1 < |st.lr|
    requires Grow(tb, lo, st, slot).Valid(lo, other)
    ensures var st', p := Grow(tb, lo, st, slot), st.Path(tb, lo, slot);
            if st.Valid(lo, other) then
              st'.Path(tb, lo, other) == st.Path(tb, lo, other)
              && st'.Get(lo, other) == (if other == slot then -(st.base + |st.nodes|) else st.Get(lo, other))
            else
              st'.Get(lo, other) == 0
              && (st'.Path(tb, lo, other) == p + [true] || st'.Path(tb, lo, other) == p + [false])
  {
    hide BitsOf;
  }

  lemma NewNodeIsNode(lens: seq<nat>, ch: nat, tb: nat, lo: nat, st: State, slot: Slot)
    requires Consistent(lens, ch, tb, lo, st) && st.Valid(lo, slot) && st.Get(lo, slot) >= 0
    requires Inner(lens, |lens|, st.Path(tb, lo, slot))
    ensures Nodes(lens, tb, st.nodes + [st.Path(tb, lo, slot)])
    ensures forall b :: st.Path(tb, lo, slot) + [b] !in st.nodes
  {
    hide BitsOf, Inner, Means, Pow2, Nodes;
    var p := st.Path(tb, lo, slot);
    assert p !in st.nodes;
    assert |p| > tb ==> p[..|p| - 1] in st.nodes by {
      if slot.InTree? {
        assert p[..|p| - 1] == st.nodes[slot.i / 2 - st.base];
      }
    }
    LongPath(lens, tb, lo, st, slot);
    MoreNodes(lens, tb, st.nodes, p);
  }

  lemma MoreNodes(lens: seq<nat>, tb: nat, nodes: seq<seq<bool>>, p: seq<bool>)
    requires Nodes(lens, tb, nodes) && Inner(lens, |lens|, p) && tb <= |p| && p !in nodes
    requires |p| > tb ==> p[..|p| - 1] in nodes
    ensures Nodes(lens, tb, nodes + [p])
    ensures forall b :: p + [b] !in nodes
  {
    hide *;
    NoChildYet(lens, tb, nodes, p);
    StillInner(lens, tb, nodes, p);
    StillDistinct(lens, tb, nodes, p);
    NodesFrom(lens, tb, nodes + [p]);
  }

  lemma NodesFrom(lens: seq<nat>, tb: nat, nodes: seq<seq<bool>>)
    requires forall k :: 0 <= k < |nodes| ==> tb <= |nodes[k]| && Inner(lens, |lens|, nodes[k])
    requires forall k :: 0 <= k < |nodes| && |nodes[k]| > tb ==> nodes[k][..|nodes[k]| - 1] in nodes
    requires forall j, k :: 0 <= j < k < |nodes| ==> nodes[j] != nodes[k]
    ensures Nodes(lens, tb, nodes)
  {
    hide Inner;
  }

  lemma NoChildYet(lens: seq<nat>, tb: nat, nodes: seq<seq<bool>>, p: seq<bool>)
    requires Nodes(lens, tb, nodes) && p !in nodes && tb <= |p|
    ensures forall b :: p + [b] !in nodes
  {
    hide Inner;
    forall b
      ensures p + [b] !in nodes
    {
      assert (p + [b])[..|p + [b]| - 1] == p;
    }
  }

  lemma StillInner(lens: seq<nat>, tb: nat, nodes: seq<seq<bool>>, p: seq<bool>)
    requires Nodes(lens, tb, nodes) && Inner(lens, |lens|, p) && tb <= |p|
    requires |p| > tb ==> p[..|p| - 1] in nodes
    ensures var more := nodes + [p];
            (forall k :: 0 <= k < |more| ==> tb <= |more[k]| && Inner(lens, |lens|, more[k]))
            && (forall k :: 0 <= k < |more| && |more[k]| > tb ==> more[k][..|more[k]| - 1] in more)
  {
    hide *;
    var more := nodes + [p];
    forall k | 0 <= k < |more|
      ensures tb <= |more[k]| && Inner(lens, |lens|, more[k])
      ensures |more[k]| > tb ==> more[k][..|more[k]| - 1] in more
    {
      if k < |nodes| {
        NodeOf(lens, tb, nodes, k);
      }
      InMore(nodes, p, more[k], tb);
    }
  }

  lemma NodeOf(lens: seq<nat>, tb: nat, nodes: seq<seq<bool>>, k: nat)
    requires Nodes(lens, tb, nodes) && k < |nodes|
    ensures tb <= |nodes[k]| && Inner(lens, |lens|, nodes[k])
    ensures |nodes[k]| > tb ==> nodes[k][..|nodes[k]| - 1] in nodes
  {
    hide Inner;
  }

  lemma StillDistinct(lens: seq<nat>, tb: nat, nodes: seq<seq<bool>>, p: seq<bool>)
    requires Nodes(lens, tb, nodes) && p !in nodes
    ensures var more := nodes + [p]; forall j, k :: 0 <= j < k < |more| ==> more[j] != more[k]
  {
    hide Inner;
  }

  lemma InMore(nodes: seq<seq<bool>>, p: seq<bool>, q: seq<bool>, tb: nat)
    requires |q| > tb ==> q[..|q| - 1] in nodes
    ensures |q| > tb ==> q[..|q| - 1] in nodes + [p]
  {
  }

  lemma MeansMore(lens: seq<nat>, ch: nat, st: State, st': State, v: int, p: seq<bool>)
    requires Means(lens, ch, st, v, p) && st'.base == st.base && st.nodes <= st'.nodes
    ensures Means(lens, ch, st', v, p)
  {
    hide NoneUnder, Used, Code;
  }

  lemma NoneUnderMore(lens: seq<nat>, ch: nat, p: seq<bool>, q: seq<bool>)
    requires NoneUnder(lens, ch, p) && p <= q
    ensures NoneUnder(lens, ch, q)
  {
    hide Used, Code;
  }

  /** Growing a node below an empty slot on the way to the code of ch keeps the table consistent. */
  lemma NewNode(lens: seq<nat>, ch: nat, tb: nat, lo: nat, st: State, slot: Slot)
    requires Complete(lens) && ch < |lens| && Used(lens, ch) && Consistent(lens, ch, tb, lo, st)
    requires st.Valid(lo, slot) && st.Get(lo, slot) == 0 && 2 * (st.base + |st.nodes|) + 1 < |st.lr|
    requires ProperPrefix(st.Path(tb, lo, slot), Code(lens, ch))
    requires LinkedTo(tb, lo, st, Code(lens, ch), |st.Path(tb, lo, slot)|)
    ensures Consistent(lens, ch, tb, lo, Grow(tb, lo, st, slot))
    ensures LinkedTo(tb, lo, Grow(tb, lo, st, slot), Code(lens, ch), |st.Path(tb, lo, slot)| + 1)
  {
    hide Pow2, BitsOf, Complete, Inner, Used, NoneUnder, Means, Nodes;
    var st', p, c := Grow(tb, lo, st, slot), st.Path(tb, lo, slot), Code(lens, ch);
    SomeInner(lens, ch, p);
    NewNodeIsNode(lens, ch, tb, lo, st, slot);
    EmptyMeansNone(lens, ch, st, p);
    assert st.nodes <= st'.nodes;
    forall other | st'.Valid(lo, other)
      ensures Means(lens, ch, st', st'.Get(lo, other), st'.Path(tb, lo, other))
      ensures st'.Path(tb, lo, other) in st'.nodes ==> st'.Get(lo, other) < 0
      ensures st'.Path(tb, lo, other) <= c && |st'.Path(tb, lo, other)| < |p| + 1 ==> st'.Get(lo, other) < 0
    {
      GrowEffect(tb, lo, st, slot, other);
      var q := st'.Path(tb, lo, other);
      if !st.Valid(lo, other) {
        NoneUnderMore(lens, ch, p, q);
        ZeroMeans(lens, ch, st', q);
        assert q != p && q !in st.nodes;
      } else if other == slot {
        LinkMeans(lens, ch, st', |st.nodes|, p);
      } else {
        MeansMore(lens, ch, st, st', st.Get(lo, other), q);
        if q == p {
          OnePlace(lens, ch, tb, lo, st, other, slot);
        }
        PrefixOfSameLength(q, p, c);
      }
    }
  }

  lemma ZeroMeans(lens: seq<nat>, ch: nat, st: State, p: seq<bool>)
    requires NoneUnder(lens, ch, p)
    ensures Means(lens, ch, st, 0, p)
  {
  }

  lemma LinkMeans(lens: seq<nat>, ch: nat, st: State, k: nat, p: seq<bool>)
    requires k < |st.nodes| && st.nodes[k] == p && st.base + k > 0
    ensures Means(lens, ch, st, -(st.base + k), p)
  {
  }

  /** An empty slot on the way to the code of ch is not symbol 0: nothing lies under it. */
  lemma EmptyMeansNone(lens: seq<nat>, ch: nat, st: State, p: seq<bool>)
    requires Complete(lens) && Used(lens, ch) && Means(lens, ch, st, 0, p) && ProperPrefix(p, Code(lens, ch))
    ensures NoneUnder(lens, ch, p)
  {
    hide Complete, Code, NoneUnder;
    if Used(lens, 0) && Code(lens, 0) == p {
      NothingOnTheWay(lens, ch, p, 0);
    }
  }

  lemma SomeInner(lens: seq<nat>, ch: nat, p: seq<bool>)
    requires Used(lens, ch) && ProperPrefix(p, Code(lens, ch))
    ensures Inner(lens, |lens|, p)
  {
  }

  lemma PrefixOfSameLength(p: seq<bool>, q: seq<bool>, c: seq<bool>)
    requires q <= c
    ensures p <= c && |p| == |q| ==> p == q
  {
  }

  /** The path of a whole code is no node, and no earlier symbol has that code. */
  lemma NoNodeAtCode(lens: seq<nat>, ch: nat, tb: nat, st: State)
    requires Complete(lens) && Used(lens, ch) && Nodes(lens, tb, st.nodes)
    ensures Code(lens, ch) !in st.nodes
  {
    hide Complete, Code;
    if Code(lens, ch) in st.nodes {
      var k :| 0 <= k < |st.nodes| && st.nodes[k] == Code(lens, ch);
      var s: nat :| s < |lens| && Used(lens, s) && ProperPrefix(st.nodes[k], Code(lens, s));
      PrefixFree(lens, ch, s);
    }
  }

  /** Adding a symbol whose code starts with none of the empty paths. */
  lemma MeansNext(lens: seq<nat>, ch: nat, st: State, v: int, p: seq<bool>)
    requires ch < |lens| && Means(lens, ch, st, v, p)
    requires v == 0 && Used(lens, ch) ==> !(p <= Code(lens, ch))
    ensures Means(lens, ch + 1, st, v, p)
  {
    hide Code, Used;
  }

  /** Writing symbol ch into the slot its code leads to. */
  lemma PlaceLeaf(lens: seq<nat>, ch: nat, tb: nat, lo: nat, st: State, slot: Slot)
    requires Complete(lens) && ch < |lens| && Used(lens, ch) && Consistent(lens, ch, tb, lo, st)
    requires st.Valid(lo, slot) && st.Path(tb, lo, slot) == Code(lens, ch)
    requires LinkedTo(tb, lo, st, Code(lens, ch), lens[ch])
    ensures Consistent(lens, ch + 1, tb, lo, st.Set(lo, slot, ch))
  {
    hide Pow2, BitsOf, Complete, Inner, Used, Nodes, Code, Means;
    var st', c := st.Set(lo, slot, ch), Code(lens, ch);
    NoNodeAtCode(lens, ch, tb, st);
    forall other | st'.Valid(lo, other)
      ensures Means(lens, ch + 1, st', st'.Get(lo, other), st'.Path(tb, lo, other))
      ensures st'.Path(tb, lo, other) in st'.nodes ==> st'.Get(lo, other) < 0
    {
      var q := st.Path(tb, lo, other);
      assert st'.Path(tb, lo, other) == q;
      if other == slot {
        SymbolMeans(lens, ch, st');
      } else {
        assert st'.Get(lo, other) == st.Get(lo, other);
        MeansMore(lens, ch, st, st', st.Get(lo, other), q);
        if q == c {
          OnePlace(lens, ch, tb, lo, st, other, slot);
        }
        FullOrShorter(q, c);
        MeansNext(lens, ch, st', st.Get(lo, other), q);
      }
    }
  }

  lemma FullOrShorter(q: seq<bool>, c: seq<bool>)
    ensures q <= c ==> q == c || |q| < |c|
  {
  }

  lemma SymbolMeans(lens: seq<nat>, ch: nat, st: State)
    requires Used(lens, ch)
    ensures Means(lens, ch + 1, st, ch, Code(lens, ch))
  {
  }

  /** A symbol outside the tree changes only table entries below lo. */
  lemma PlaceElsewhere(lens: seq<nat>, ch: nat, tb: nat, lo: nat, st: State, table: seq<int>)
    requires ch < |lens| && Consistent(lens, ch, tb, lo, st)
    requires |table| == |st.table| && forall i :: lo <= i < |table| ==> table[i] == st.table[i]
    requires Used(lens, ch) ==> lens[ch] <= tb && forall i :: lo <= i < |table| ==> BitsOf(tb, i) != Code(lens, ch)
    ensures Consistent(lens, ch + 1, tb, lo, st.(table := table))
  {
    hide Pow2, BitsOf, Code, Nodes, Inner, Means;
    var st' := st.(table := table);
    assert Nodes(lens, tb, st.nodes);
    forall other | st'.Valid(lo, other)
      ensures Means(lens, ch + 1, st', st'.Get(lo, other), st'.Path(tb, lo, other))
      ensures st'.Path(tb, lo, other) in st'.nodes ==> st'.Get(lo, other) < 0
    {
      assert st.Valid(lo, other) && st'.Get(lo, other) == st.Get(lo, other);
      var q := st.Path(tb, lo, other);
      MeansMore(lens, ch, st, st', st.Get(lo, other), q);
      if Used(lens, ch) {
        LongPath(lens, tb, lo, st, other);
        FullOrShorter(q, Code(lens, ch));
      }
      MeansNext(lens, ch, st', st.Get(lo, other), q);
    }
  }

  lemma LongPath(lens: seq<nat>, tb: nat, lo: nat, st: State, slot: Slot)
    requires Nodes(lens, tb, st.nodes) && st.Valid(lo, slot)
    ensures |st.Path(tb, lo, slot)| >= tb && (slot.InTree? ==> |st.Path(tb, lo, slot)| > tb)
  {
    hide Inner, BitsOf;
  }

  // ---------- The tree has room ----------

  /** s is the first symbol on the right-hand side below the inner node p. */
  ghost predicate Neighbour(lens: seq<nat>, p: seq<bool>, s: nat) {
    Used(lens, s) && |p| < 16 && lens[s] <= 16
    && Code(lens, s) + Zeros(16 - lens[s]) == p + [true] + Zeros(15 - |p|)
  }

  lemma RightNeighbour(lens: seq<nat>, p: seq<bool>) returns (s: nat)
    requires Complete(lens) && Inner(lens, |lens|, p)
    ensures s < |lens| && Neighbour(lens, p, s)
  {
    hide Code, Complete;
    var t: nat :| t < |lens| && Used(lens, t) && ProperPrefix(p, Code(lens, t));
    LengthsBounded(lens, t);
    assert |p| < 16;
    var b := p + [true] + Zeros(15 - |p|);
    s := EveryWordDecodes(lens, b);
    LengthsBounded(lens, s);
    var c := Code(lens, s);
    if |c| <= |p| {
      assert c == b[..|c|] == p[..|c|];
      PrefixFree(lens, s, t);
      assert false;
    }
    assert c == b[..|c|];
    assert b == b[..|c|] + b[|c|..];
    assert b[|c|..] == Zeros(16 - |c|);
  }

  /** The place of the last one bit tells apart p 1 0.. and q 1 0... */
  lemma LastOne(p: seq<bool>, q: seq<bool>)
    requires |p| < |q| < 16
    ensures p + [true] + Zeros(15 - |p|) != q + [true] + Zeros(15 - |q|)
  {
    var a, b := p + [true] + Zeros(15 - |p|), q + [true] + Zeros(15 - |q|);
    assert !a[|q|] && b[|q|];
  }

  lemma NeighboursDiffer(lens: seq<nat>, p: seq<bool>, q: seq<bool>, s: nat)
    requires p != q && Neighbour(lens, p, s)
    ensures !Neighbour(lens, q, s)
  {
    hide Code;
    if |q| < 16 {
      if |p| < |q| {
        LastOne(p, q);
      } else if |q| < |p| {
        LastOne(q, p);
      } else {
        var a, b := p + [true] + Zeros(15 - |p|), q + [true] + Zeros(15 - |q|);
        assert a[..|p|] == p && b[..|p|] == q;
      }
    }
  }

  /** There are no more nodes than symbols: each has its own right neighbour. */
  lemma NodeBound(lens: seq<nat>, tb: nat, nodes: seq<seq<bool>>)
    requires Complete(lens) && Nodes(lens, tb, nodes)
    ensures |nodes| <= |lens|
  {
    hide Complete, Code, Inner, Neighbour;
    var syms: seq<nat> := [];
    while |syms| < |nodes|
      invariant |syms| <= |nodes|
      invariant forall i :: 0 <= i < |syms| ==> syms[i] < |lens| && Neighbour(lens, nodes[i], syms[i])
    {
      var s := RightNeighbour(lens, nodes[|syms|]);
      syms := syms + [s];
    }
    forall i, j | 0 <= i < j < |syms|
      ensures syms[i] != syms[j]
    {
      NeighboursDiffer(lens, nodes[i], nodes[j], syms[i]);
    }
    DistinctBelow(syms, |lens|);
  }

  // ---------- A finished table finds every code ----------

  lemma {:induction false} WalkFinds(lens: seq<nat>, tb: nat, lo: nat, st: State, slot: Slot, b: seq<bool>, s: nat)
    requires Complete(lens) && Consistent(lens, |lens|, tb, lo, st) && st.Valid(lo, slot)
    requires Used(lens, s) && |b| == 16 && Code(lens, s) <= b
    requires st.Path(tb, lo, slot) <= b && |st.Path(tb, lo, slot)| <= lens[s]
    ensures Leads(st.lr, st.Get(lo, slot), b[|st.Path(tb, lo, slot)|..], s)
    decreases 16 - |st.Path(tb, lo, slot)|
  {
    hide *;
    var v, p := st.Get(lo, slot), st.Path(tb, lo, slot);
    SlotMeans(lens, tb, lo, st, slot);
    if v < 0 {
      LinkIsNode(lens, tb, lo, st, v, p);
      InnerIsShort(lens, tb, st, -v - st.base, b, s);
      var next := InTree(2 * -v + Bit(b[|p|]));
      FollowLink(lens, |lens|, tb, lo, st, slot, b[|p|]);
      assert p + [b[|p|]] <= b;
      WalkFinds(lens, tb, lo, st, next, b, s);
      LeadsOn(lens, tb, lo, st, v, b, |p|, s);
    } else {
      SymbolMet(lens, st, v, p, b, s);
      LeadsHere(st.lr, v, b[|p|..], s);
    }
  }

  lemma LinkIsNode(lens: seq<nat>, tb: nat, lo: nat, st: State, v: int, p: seq<bool>)
    requires Consistent(lens, |lens|, tb, lo, st) && v < 0 && Means(lens, |lens|, st, v, p)
    ensures 0 <= -v - st.base < |st.nodes| && st.nodes[-v - st.base] == p && Nodes(lens, tb, st.nodes)
    ensures 2 * (st.base + |st.nodes|) <= |st.lr|
  {
    hide Nodes, Slots, Pow2;
  }

  /** Following a link. */
  lemma LeadsOn(lens: seq<nat>, tb: nat, lo: nat, st: State, v: int, b: seq<bool>, n: nat, s: nat)
    requires v < 0 && n < |b| && st.Valid(lo, InTree(2 * -v + Bit(b[n])))
    requires 2 * -v + 1 < |st.lr|
    requires Leads(st.lr, st.Get(lo, InTree(2 * -v + Bit(b[n]))), b[n + 1..], s)
    ensures Leads(st.lr, v, b[n..], s)
  {
    assert b[n..][0] == b[n] && b[n..][1..] == b[n + 1..];
  }

  lemma LeadsHere(lr: seq<int>, v: int, bits: seq<bool>, s: nat)
    requires v == s
    ensures Leads(lr, v, bits, s)
  {
  }

  /** A symbol met on the way of code s is s. */
  lemma SymbolMet(lens: seq<nat>, st: State, v: int, p: seq<bool>, b: seq<bool>, s: nat)
    requires Complete(lens) && v >= 0 && Means(lens, |lens|, st, v, p)
    requires Used(lens, s) && Code(lens, s) <= b && p <= b && |p| <= lens[s]
    ensures v == s
  {
    hide Complete, Code;
    PrefixOfPrefix(p, Code(lens, s), b);
    if Used(lens, v) && Code(lens, v) == p {
      PrefixFree(lens, v, s);
    }
  }

  lemma PrefixOfPrefix(p: seq<bool>, c: seq<bool>, b: seq<bool>)
    requires p <= b && c <= b && |p| <= |c|
    ensures p <= c
  {
    assert p == b[..|p|] && c == b[..|c|];
  }

  lemma SlotMeans(lens: seq<nat>, tb: nat, lo: nat, st: State, slot: Slot)
    requires Consistent(lens, |lens|, tb, lo, st) && st.Valid(lo, slot)
    ensures Means(lens, |lens|, st, st.Get(lo, slot), st.Path(tb, lo, slot))
  {
    hide Means, Nodes;
  }

  /** A code that agrees with the path of a node goes on below it. */
  lemma InnerIsShort(lens: seq<nat>, tb: nat, st: State, k: nat, b: seq<bool>, s: nat)
    requires Complete(lens) && Nodes(lens, tb, st.nodes) && k < |st.nodes|
    requires Used(lens, s) && |b| == 16 && Code(lens, s) <= b && st.nodes[k] <= b
    ensures |st.nodes[k]| < lens[s] <= 16
  {
    hide Complete, Code;
    LengthsBounded(lens, s);
    var p, c := st.nodes[k], Code(lens, s);
    var t: nat :| t < |lens| && Used(lens, t) && ProperPrefix(p, Code(lens, t));
    if |c| <= |p| {
      PrefixOfPrefix(c, p, b);
      PrefixFree(lens, s, t);
    }
  }

  // ---------- Building the table ----------

  /** The unit of the running start of length l: table entries for short codes, 16-bit words for
      long ones. */
  function Unit(tb: nat, l: nat): nat {
    if l <= tb then tb - l else if l <= 16 then 16 - l else 0
  }

  /** start[] once the symbols below ch are in. */
  ghost predicate Starts(start: seq<nat>, lens: seq<nat>, tb: nat, ch: nat)
    requires ch <= |lens|
  {
    |start| == 18
    && forall l :: 1 <= l <= 16 ==> start[l] == Scale(FirstCode(lens, l) + Count(lens[..ch], l), Unit(tb, l))
  }

  /** Short codes below ch fill their whole range of the table. */
  ghost predicate Short(table: seq<int>, lens: seq<nat>, tb: nat, ch: nat) {
    forall s: nat, i :: s < ch && Used(lens, s) && lens[s] <= tb && InRange(lens, tb, s, i) && i < |table|
                        ==> table[i] == s
  }

  /** Table entry i belongs to the short code s. */
  ghost predicate InRange(lens: seq<nat>, tb: nat, s: nat, i: int)
    requires s < |lens| && lens[s] <= tb
  {
    var from := Scale(CodeNumber(lens, s), tb - lens[s]);
    from <= i < from + Pow2(tb - lens[s])
  }

  lemma {:induction false} ScaleScale(x: nat, a: nat, b: nat)
    ensures Scale(Scale(x, a), b) == Scale(x, a + b)
    decreases a
  {
    if a > 0 {
      ScaleScale(2 * x, a - 1, b);
    }
  }

  lemma {:induction false} ShrScale(x: nat, k: nat)
    ensures Shr(Scale(x, k), k) == x
  {
    if k > 0 {
      ScaleStep(x, k - 1);
      ShrScale(x, k - 1);
    }
  }

  /** Comparing on the 16-bit scale is comparing table entries. */
  lemma ScaleDown(x: nat, y: nat, k: nat)
    requires Scale(x, k) <= Scale(y, k)
    ensures x <= y
  {
    if y < x {
      ScaleMonotone(y, x, k);
    }
  }

  /** The table range of a short code ends before LongFrom, and before the range of a later code. */
  lemma ShortRange(lens: seq<nat>, tb: nat, s: nat)
    requires Complete(lens) && Used(lens, s) && lens[s] <= tb < 16
    ensures Scale(CodeNumber(lens, s), tb - lens[s]) + Pow2(tb - lens[s]) <= LongFrom(lens, tb) <= Pow2(tb)
  {
    hide Scale, FirstCode, Count, Pow2, Complete;
    var l, c := lens[s], CodeNumber(lens, s);
    var q := Scale(c + 1, tb - l);
    ScaleStep(c, tb - l);
    ScaleScale(c + 1, tb - l, 16 - tb);
    CountSplit(lens, s, l);
    ScaleMonotone(c + 1, LongFrom(lens, l), 16 - l);
    LongFromGrows(lens, l, tb);
    ScaleDown(q, LongFrom(lens, tb), 16 - tb);
    LongFromBound(lens, tb);
  }

  /** On the 16-bit scale the end of the codes of length l only grows with l. */
  lemma {:induction false} LongFromGrows(lens: seq<nat>, l: nat, m: nat)
    requires 1 <= l <= m <= 16
    ensures Scale(LongFrom(lens, l), 16 - l) <= Scale(LongFrom(lens, m), 16 - m)
  {
    if l < m {
      hide Scale, Count;
      LongFromGrows(lens, l, m - 1);
      StartStep(lens, m - 1);
      ScaleMonotone(FirstCode(lens, m), LongFrom(lens, m), 16 - m);
    }
  }

  lemma LongFromBound(lens: seq<nat>, tb: nat)
    requires Complete(lens) && 1 <= tb < 16
    ensures LongFrom(lens, tb) <= Pow2(tb)
    ensures Shr(Start(lens, tb + 1), 16 - tb) == LongFrom(lens, tb)
  {
    hide Scale, FirstCode, Count, Pow2, Shr;
    var n := LongFrom(lens, tb);
    StartStep(lens, tb);
    ShrScale(n, 16 - tb);
    LongFromGrows(lens, tb, 16);
    ScaleScale(LongFrom(lens, 16), 0, 0);
    assert Scale(LongFrom(lens, 16), 0) == 65536 by { ScaleNone(LongFrom(lens, 16)); }
    ScalePow2(tb, 16 - tb);
    Pow2Values();
    ScaleDown(n, Pow2(tb), 16 - tb);
  }

  lemma ShortApart(lens: seq<nat>, tb: nat, s: nat, t: nat, i: int)
    requires Complete(lens) && Used(lens, s) && Used(lens, t) && s != t && lens[s] <= tb && lens[t] <= tb < 16
    requires InRange(lens, tb, s, i)
    ensures !InRange(lens, tb, t, i)
  {
    if After(lens, s, t) {
      RangesFollow(lens, tb, s, t);
    } else {
      RangesFollow(lens, tb, t, s);
    }
  }

  lemma RangesFollow(lens: seq<nat>, tb: nat, s: nat, t: nat)
    requires Complete(lens) && Used(lens, s) && Used(lens, t) && lens[s] <= tb && lens[t] <= tb < 16
    requires After(lens, s, t)
    ensures Scale(CodeNumber(lens, s), tb - lens[s]) + Pow2(tb - lens[s]) <= Scale(CodeNumber(lens, t), tb - lens[t])
  {
    var c, d := CodeNumber(lens, s), CodeNumber(lens, t);
    CodesApart(lens, s, t);
    ScaleStep(c, tb - lens[s]);
    ScaleStep(c, 16 - lens[s]);
    ScaleScale(c + 1, tb - lens[s], 16 - tb);
    ScaleScale(d, tb - lens[t], 16 - tb);
    ScaleDown(Scale(c + 1, tb - lens[s]), Scale(d, tb - lens[t]), 16 - tb);
  }

  /** A word that starts with a short code is looked up in the range of that code. */
  lemma ShortLookup(lens: seq<nat>, tb: nat, s: nat, b: seq<bool>)
    requires Complete(lens) && Used(lens, s) && lens[s] <= tb <= |b| && Code(lens, s) <= b
    ensures InRange(lens, tb, s, ValueOf(b[..tb]))
  {
    var l := lens[s];
    assert b[..tb][..l] == Code(lens, s);
    NumberFits(lens, s);
    ValueOfBits(l, CodeNumber(lens, s));
    ValueShift(b[..tb], l);
    ScaleStep(CodeNumber(lens, s), tb - l);
  }

  /** A long code starts in the long part of the table, at the top bits of its first word. */
  lemma LongLookup(lens: seq<nat>, tb: nat, s: nat)
    requires Complete(lens) && Used(lens, s) && 1 <= tb < lens[s]
    ensures lens[s] <= 16 && LongFrom(lens, tb) <= Shr(First(lens, s), 16 - tb) < Pow2(tb)
    ensures BitsOf(tb, Shr(First(lens, s), 16 - tb)) == Code(lens, s)[..tb]
    ensures BitsOf(16, First(lens, s)) == Code(lens, s) + Zeros(16 - lens[s])
    ensures First(lens, s) < 65536
  {
    hide Scale, FirstCode, Count, Pow2, Shr, BitsOf, Complete, CodeNumber, Start;
    LengthsBounded(lens, s);
    var l, k := lens[s], First(lens, s);
    CodeEnds(lens, s);
    BitsOfScale(l, CodeNumber(lens, s), 16 - l);
    BitsOfShr(tb, k, 16 - tb);
    StartMonotone(lens, tb + 1, l);
    Pow2Values();
    ShrBelow(k, 16 - tb, tb);
    ShrMonotone(Start(lens, tb + 1), k, 16 - tb);
    LongFromBound(lens, tb);
  }

  lemma {:induction false} ShrMonotone(x: nat, y: nat, k: nat)
    requires x <= y
    ensures Shr(x, k) <= Shr(y, k)
  {
    if k > 0 {
      ShrMonotone(x / 2, y / 2, k - 1);
    }
  }

  /** A finished table finds every code. */
  lemma TableFinds(lens: seq<nat>, tb: nat, st: State)
    requires Complete(lens) && 1 <= tb < 16 && Consistent(lens, |lens|, tb, LongFrom(lens, tb), st)
    requires Short(st.table, lens, tb, |lens|)
    ensures Finds(st.table, st.lr, tb, lens)
  {
    hide Complete, Consistent, Code, LongFrom, BitsOf, ValueOf, Shr, First;
    assert |st.table| == Pow2(tb) by { TableSize(lens, tb, st); }
    forall s: nat, b | Used(lens, s) && |b| == 16 && Code(lens, s) <= b
      ensures ValueOf(b[..tb]) < |st.table| && Leads(st.lr, st.table[ValueOf(b[..tb])], b[tb..], s)
    {
      var i := ValueOf(b[..tb]);
      ValueBelow(b[..tb]);
      if lens[s] <= tb {
        ShortLookup(lens, tb, s, b);
      } else {
        LongLookup(lens, tb, s);
        var j := Shr(First(lens, s), 16 - tb);
        assert b[..tb] == Code(lens, s)[..tb];
        ValueOfBits(tb, j);
        BitsOfValue(b[..tb]);
        var slot := InTable(i);
        WalkFinds(lens, tb, LongFrom(lens, tb), st, slot, b, s);
        assert st.Path(tb, LongFrom(lens, tb), slot) == b[..tb];
      }
    }
  }

  lemma TableSize(lens: seq<nat>, tb: nat, st: State)
    requires Consistent(lens, |lens|, tb, LongFrom(lens, tb), st)
    ensures |st.table| == Pow2(tb)
  {
  }

  /** The first loops of make_table: how many codes there are of each length, and where each length
      starts on the 16-bit scale; start[17] is the Kraft sum. */
  method CountLengths(bitlen: array<nat>, nchar: nat) returns (count: array<nat>, start: array<nat>)
    requires nchar <= bitlen.Length && IsLengths(bitlen[..nchar])
    ensures fresh(count) && fresh(start) && count != start && count.Length == 17 && start.Length == 18
    ensures forall l :: 1 <= l <= 16 ==> start[l] == Start(bitlen[..nchar], l)
    ensures start[17] == LongFrom(bitlen[..nchar], 16)
  {
    hide Scale, FirstCode, Count;
    ghost var lens := bitlen[..nchar];
    count := new nat[17](i => 0);
    NoneCounted(lens);
    for i := 0 to nchar
      invariant fresh(count) && count.Length == 17
      invariant forall l :: 0 <= l <= 16 ==> count[l] == Count(lens[..i], l)
    {
      CountEach(lens, i);
      count[bitlen[i]] := count[bitlen[i]] + 1;
    }
    assert lens[..nchar] == lens;
    start := new nat[18](i => 0);
    FirstStart(lens);
    for i := 1 to 17
      invariant forall l :: 0 <= l <= 16 ==> count[l] == Count(lens, l)
      invariant forall l :: 1 <= l <= i && l <= 16 ==> start[l] == Start(lens, l)
      invariant i == 17 ==> start[17] == LongFrom(lens, 16)
    {
      NextStart(lens, i);
      start[i + 1] := start[i] + Scale(count[i], 16 - i);
    }
  }

  lemma NoneCounted(lens: seq<nat>)
    ensures forall l :: Count(lens[..0], l) == 0
  {
  }

  /** The short branch: entries from..to of the table become ch. */
  method FillShort(table: array<int>, from: nat, to: nat, ch: nat)
    requires from <= to <= table.Length
    modifies table
    ensures forall i :: 0 <= i < table.Length ==> table[i] == (if from <= i < to then ch else old(table[i]))
  {
    for i := from to to
      invariant forall j :: 0 <= j < table.Length ==> table[j] == (if from <= j < i then ch else old(table[j]))
    {
      table[i] := ch;
    }
  }

  /** Bit 15 of k. */
  function Sign16(k: nat): bool {
    Shr(k, 15) % 2 == 1
  }

  /** What is left of word k after d shifts: its sign bit is the next bit of the code c. */
  ghost predicate Shifted(k: nat, c: seq<bool>, d: nat) {
    k < WORD32 && d <= |c| <= 16 && BitsOf(16, k) == c[d..] + Zeros(16 - |c| + d)
  }

  lemma SignIsNext(k: nat, c: seq<bool>, d: nat)
    requires Shifted(k, c, d) && d < |c|
    ensures Sign16(k) == c[d]
    ensures Shifted(Shl32(k, 1), c, d + 1)
  {
    hide Pow2, Shr, Shl32;
    BitsOfShr(1, k, 15);
    assert BitsOf(1, Shr(k, 15)) == [Shr(k, 15) % 2 == 1];
    assert BitsOf(16, k)[..1][0] == BitsOf(16, k)[0] == c[d];
    BitsOfShl(k, 1);
    LowBits(16, 16, Shl32(k, 1));
    LowBits(16, 16, k);
    assert BitsOf(32, k)[1..] + Zeros(1) == BitsOf(32, k)[1..] + [false];
    assert BitsOf(16, Shl32(k, 1)) == BitsOf(32, k)[17..] + [false];
    assert BitsOf(32, k)[17..] == BitsOf(16, k)[1..];
    assert (c[d..] + Zeros(16 - |c| + d))[1..] + [false] == c[d + 1..] + Zeros(16 - |c| + d + 1);
  }

  lemma ShiftedStart(k: nat, c: seq<bool>, tb: nat)
    requires k < 65536 && |c| <= 16 && tb <= |c| && BitsOf(16, k) == c + Zeros(16 - |c|)
    ensures Shifted(Shl32(k, tb), c, tb)
  {
    hide Pow2, Shl32, BitsOf;
    BitsOfShl(k, tb);
    LowBits(16, 16, Shl32(k, tb));
    LowBits(16, 16, k);
    assert BitsOf(16, Shl32(k, tb)) == BitsOf(32, k)[16 + tb..] + Zeros(tb);
    assert BitsOf(32, k)[16 + tb..] == BitsOf(16, k)[tb..];
  }

  /** A slot on the way to code c that is not empty is a link. */
  lemma OnTheWayIsLink(lens: seq<nat>, ch: nat, tb: nat, lo: nat, st: State, slot: Slot)
    requires Complete(lens) && ch < |lens| && Used(lens, ch) && Consistent(lens, ch, tb, lo, st)
    requires st.Valid(lo, slot) && st.Get(lo, slot) != 0 && ProperPrefix(st.Path(tb, lo, slot), Code(lens, ch))
    requires LinkedTo(tb, lo, st, Code(lens, ch), |st.Path(tb, lo, slot)|)
    ensures st.Get(lo, slot) < 0
    ensures LinkedTo(tb, lo, st, Code(lens, ch), |st.Path(tb, lo, slot)| + 1)
  {
    hide Pow2, BitsOf, Complete, Inner, Used, NoneUnder, Nodes, Code;
    var p, c := st.Path(tb, lo, slot), Code(lens, ch);
    assert Means(lens, ch, st, st.Get(lo, slot), p);
    if st.Get(lo, slot) > 0 {
      NothingOnTheWay(lens, ch, p, st.Get(lo, slot));
    }
    forall other | st.Valid(lo, other) && st.Path(tb, lo, other) <= c && |st.Path(tb, lo, other)| < |p| + 1
      ensures st.Get(lo, other) < 0
    {
      var q := st.Path(tb, lo, other);
      if |q| == |p| {
        PrefixOfSameLength(p, q, c);
        OnePlace(lens, ch, tb, lo, st, other, slot);
      }
    }
  }

  /** Below a link the path goes on with either bit. */
  lemma FollowLink(lens: seq<nat>, ch: nat, tb: nat, lo: nat, st: State, slot: Slot, bit: bool)
    requires Consistent(lens, ch, tb, lo, st) && st.Valid(lo, slot) && st.Get(lo, slot) < 0
    ensures var next := InTree(2 * -st.Get(lo, slot) + Bit(bit));
            st.Valid(lo, next) && st.Path(tb, lo, next) == st.Path(tb, lo, slot) + [bit]
  {
    hide Pow2, BitsOf, Inner, Used, NoneUnder, Nodes, Code;
    assert Means(lens, ch, st, st.Get(lo, slot), st.Path(tb, lo, slot));
  }

  lemma RoomForNode(lens: seq<nat>, ch: nat, tb: nat, lo: nat, st: State, slot: Slot)
    requires Complete(lens) && ch < |lens| && Used(lens, ch) && Consistent(lens, ch, tb, lo, st)
    requires st.Valid(lo, slot) && st.Get(lo, slot) == 0 && ProperPrefix(st.Path(tb, lo, slot), Code(lens, ch))
    ensures |st.nodes| < |lens|
  {
    hide Pow2, BitsOf, Complete, Inner, Used, Nodes, Code, Slots;
    SomeInner(lens, ch, st.Path(tb, lo, slot));
    NewNodeIsNode(lens, ch, tb, lo, st, slot);
    NodeBound(lens, tb, st.nodes + [st.Path(tb, lo, slot)]);
  }

  /** One slot of the walk: if it is empty, a new node with two empty links is hung there. */
  method OpenNode(table: array<int>, leftright: array<int>, avail: nat, inTree: bool, at: nat,
                  ghost lens: seq<nat>, ghost ch: nat, ghost tb: nat, ghost lo: nat, ghost st: State)
      returns (avail': nat, ghost st': State)
    requires Complete(lens) && ch < |lens| && Used(lens, ch)
    requires table != leftright && leftright.Length >= 4 * |lens| && avail == |lens| + |st.nodes|
    requires st == State(table[..], leftright[..], |lens|, st.nodes) && Consistent(lens, ch, tb, lo, st)
    requires st.Valid(lo, SlotAt(inTree, at)) && ProperPrefix(st.Path(tb, lo, SlotAt(inTree, at)), Code(lens, ch))
    requires LinkedTo(tb, lo, st, Code(lens, ch), |st.Path(tb, lo, SlotAt(inTree, at))|)
    modifies table, leftright
    ensures st' == State(table[..], leftright[..], |lens|, st'.nodes) && Consistent(lens, ch, tb, lo, st')
    ensures avail' == |lens| + |st'.nodes|
    ensures st'.Valid(lo, SlotAt(inTree, at)) && st'.Get(lo, SlotAt(inTree, at)) < 0
    ensures st'.Path(tb, lo, SlotAt(inTree, at)) == st.Path(tb, lo, SlotAt(inTree, at))
    ensures LinkedTo(tb, lo, st', Code(lens, ch), |st.Path(tb, lo, SlotAt(inTree, at))| + 1)
    ensures forall i :: 0 <= i < lo && i < table.Length ==> table[i] == old(table[i])
  {
    hide Pow2, BitsOf, Complete, Code, Consistent, LinkedTo, ProperPrefix;
    ghost var slot := SlotAt(inTree, at);
    avail', st' := avail, st;
    if (if inTree then leftright[at] else table[at]) == 0 {
      RoomForNode(lens, ch, tb, lo, st, slot);
      NewNode(lens, ch, tb, lo, st, slot);
      GrowEffect(tb, lo, st, slot, slot);
      leftright[avail * 2], leftright[avail * 2 + 1] := 0, 0;
      if inTree {
        leftright[at] := 0 - avail;
      } else {
        table[at] := 0 - avail;
      }
      avail' := avail + 1;
      st' := Grow(tb, lo, st, slot);
    } else {
      OnTheWayIsLink(lens, ch, tb, lo, st, slot);
    }
  }

  function SlotAt(inTree: bool, at: nat): Slot {
    if inTree then InTree(at) else InTable(at)
  }

  /** The long branch: walk down from table entry start >> (16 - tb), adding nodes where none are,
      and leave ch at the end of its code. avail is the next free node. */
  method PlaceLong(table: array<int>, leftright: array<int>, avail: nat, start: nat, ch: nat, len: nat, tb: nat,
                   ghost lens: seq<nat>, ghost nodes: seq<seq<bool>>)
      returns (avail': nat, ghost nodes': seq<seq<bool>>)
    requires Complete(lens) && Used(lens, ch) && len == lens[ch] && 1 <= tb < len && start == First(lens, ch)
    requires table != leftright && leftright.Length >= 4 * |lens| && avail == |lens| + |nodes|
    requires Consistent(lens, ch, tb, LongFrom(lens, tb), State(table[..], leftright[..], |lens|, nodes))
    modifies table, leftright
    ensures avail' == |lens| + |nodes'|
    ensures Consistent(lens, ch + 1, tb, LongFrom(lens, tb), State(table[..], leftright[..], |lens|, nodes'))
    ensures forall i :: 0 <= i < LongFrom(lens, tb) && i < table.Length ==> table[i] == old(table[i])
  {
    hide Pow2, BitsOf, Complete, Code, LongFrom, First, Consistent, LinkedTo, Shl32, Shr, ProperPrefix;
    ghost var lo, c := LongFrom(lens, tb), Code(lens, ch);
    LongLookup(lens, tb, ch);
    ShiftedStart(start, c, tb);
    ghost var st := State(table[..], leftright[..], |lens|, nodes);
    SizesOf(lens, ch, tb, lo, st);
    NothingAbove(lens, tb, lo, st, c);
    var k := Shl32(start, tb);
    var inTree := false;
    var at: nat := Shr(start, 16 - tb);
    avail' := avail;
    var i := len - tb;
    while i > 0
      invariant 0 <= i <= len - tb && avail' == |lens| + |st.nodes| && (i < len - tb ==> inTree)
      invariant st == State(table[..], leftright[..], |lens|, st.nodes) && Consistent(lens, ch, tb, lo, st)
      invariant st.Valid(lo, SlotAt(inTree, at)) && st.Path(tb, lo, SlotAt(inTree, at)) == c[..len - i]
      invariant LinkedTo(tb, lo, st, c, len - i) && Shifted(k, c, len - i)
      invariant forall j :: 0 <= j < lo && j < table.Length ==> table[j] == old(table[j])
    {
      ghost var d := len - i;
      assert ProperPrefix(c[..d], c) by { Cut(c, d); }
      avail', st := OpenNode(table, leftright, avail', inTree, at, lens, ch, tb, lo, st);
      SignIsNext(k, c, d);
      FollowLink(lens, ch, tb, lo, st, SlotAt(inTree, at), c[d]);
      assert c[..d] + [c[d]] == c[..d + 1];
      at := 2 * -(if inTree then leftright[at] else table[at]) + (if Sign16(k) then 1 else 0);
      inTree := true;
      k := Shl32(k, 1);
      i := i - 1;
    }
    assert c[..len] == c;
    PlaceLeaf(lens, ch, tb, lo, st, InTree(at));
    leftright[at] := ch;
    nodes' := st.nodes;
    assert State(table[..], leftright[..], |lens|, nodes') == st.Set(lo, InTree(at), ch);
  }

  lemma Cut(c: seq<bool>, d: nat)
    requires d < |c|
    ensures ProperPrefix(c[..d], c)
  {
  }

  lemma SizesOf(lens: seq<nat>, ch: nat, tb: nat, lo: nat, st: State)
    requires Consistent(lens, ch, tb, lo, st)
    ensures |st.table| == Pow2(tb) && 2 * (st.base + |st.nodes|) <= |st.lr| && st.base == |lens|
    ensures Nodes(lens, tb, st.nodes)
  {
  }

  lemma NothingAbove(lens: seq<nat>, tb: nat, lo: nat, st: State, c: seq<bool>)
    requires Nodes(lens, tb, st.nodes)
    ensures LinkedTo(tb, lo, st, c, tb)
  {
    hide Inner, BitsOf;
    forall slot | st.Valid(lo, slot)
      ensures |st.Path(tb, lo, slot)| >= tb
    {
      LongPath(lens, tb, lo, st, slot);
    }
  }

  lemma FreshTable(lens: seq<nat>, tb: nat, table: seq<int>, lr: seq<int>)
    requires Complete(lens) && 1 <= tb < 16 && |table| == Pow2(tb) && |lr| >= 4 * |lens|
    requires forall i :: LongFrom(lens, tb) <= i < |table| ==> table[i] == 0
    ensures Consistent(lens, 0, tb, LongFrom(lens, tb), State(table, lr, |lens|, []))
    ensures Short(table, lens, tb, 0)
  {
    hide Pow2, BitsOf, Code;
  }

  /** start[] when the short lengths have been scaled down to table entries. */
  lemma ScaledStart(lens: seq<nat>, tb: nat, l: nat)
    requires 1 <= l <= tb < 16
    ensures Shr(Start(lens, l), 16 - tb) == Scale(FirstCode(lens, l), tb - l)
  {
    ScaleScale(FirstCode(lens, l), tb - l, 16 - tb);
    ShrScale(Scale(FirstCode(lens, l), tb - l), 16 - tb);
  }

  lemma StartsBegin(start: seq<nat>, lens: seq<nat>, tb: nat)
    requires |start| == 18
    requires forall l :: 1 <= l <= 16 ==> start[l] == Scale(FirstCode(lens, l), Unit(tb, l))
    ensures Starts(start, lens, tb, 0)
  {
  }

  lemma StartsNext(start: seq<nat>, lens: seq<nat>, tb: nat, ch: nat)
    requires IsLengths(lens) && ch < |lens| && Starts(start, lens, tb, ch)
    ensures var l := lens[ch];
            Starts(if l == 0 then start else start[l := start[l] + Pow2(Unit(tb, l))], lens, tb, ch + 1)
    ensures lens[ch] > 0 ==> start[lens[ch]] == Scale(CodeNumber(lens, ch), Unit(tb, lens[ch]))
  {
    hide Pow2, Scale, FirstCode, Count;
    CountEach(lens, ch);
    if lens[ch] > 0 {
      ScaleStep(CodeNumber(lens, ch), Unit(tb, lens[ch]));
    }
  }

  /** A short code is in: its range holds it, and the entries of the others have not moved. */
  lemma ShortNext(lens: seq<nat>, tb: nat, ch: nat, was: seq<int>, table: seq<int>)
    requires Complete(lens) && Used(lens, ch) && 1 <= lens[ch] <= tb < 16 && Short(was, lens, tb, ch)
    requires |table| == |was|
    requires forall i :: 0 <= i < |table| ==> table[i] == (if InRange(lens, tb, ch, i) then ch else was[i])
    ensures Short(table, lens, tb, ch + 1)
  {
    hide Complete, Pow2, Scale, InRange, CodeNumber;
    forall s: nat, i | s < ch + 1 && Used(lens, s) && lens[s] <= tb && InRange(lens, tb, s, i) && i < |table|
      ensures i >= 0 && table[i] == s
    {
      RangeIsNat(lens, tb, s, i);
      if s != ch {
        ShortApart(lens, tb, s, ch, i);
      }
    }
  }

  lemma RangeIsNat(lens: seq<nat>, tb: nat, s: nat, i: int)
    requires s < |lens| && lens[s] <= tb && InRange(lens, tb, s, i)
    ensures i >= 0
  {
  }

  lemma ShortKept(lens: seq<nat>, tb: nat, ch: nat, was: seq<int>, table: seq<int>)
    requires Complete(lens) && ch < |lens| && 1 <= tb < 16 && (lens[ch] == 0 || lens[ch] > tb)
             && Short(was, lens, tb, ch)
    requires |table| == |was| && forall i :: 0 <= i < LongFrom(lens, tb) && i < |was| ==> table[i] == was[i]
    ensures Short(table, lens, tb, ch + 1)
  {
    hide Complete, Pow2, Scale, CodeNumber, LongFrom;
    forall s: nat, i | s < ch + 1 && Used(lens, s) && lens[s] <= tb && InRange(lens, tb, s, i) && i < |table|
      ensures table[i] == s
    {
      ShortRange(lens, tb, s);
    }
  }

  /** No path of the tree is a short code. */
  lemma ShortNotLong(lens: seq<nat>, tb: nat, ch: nat, i: nat)
    requires Complete(lens) && Used(lens, ch) && lens[ch] <= tb < 16 && LongFrom(lens, tb) <= i < Pow2(tb)
    ensures BitsOf(tb, i) != Code(lens, ch)
  {
    hide Complete, Pow2, Scale, CodeNumber, LongFrom, BitsOf;
    ShortRange(lens, tb, ch);
    if BitsOf(tb, i) == Code(lens, ch) {
      var b := BitsOf(tb, i);
      ShortLookup(lens, tb, ch, b);
      assert b[..tb] == b;
      ValueOfBits(tb, i);
    }
  }

  /** The start numbers of the short lengths, scaled down to table entries. */
  method ScaleStarts(start: array<nat>, tb: nat, ghost lens: seq<nat>)
    requires start.Length == 18 && 1 <= tb < 16
    requires forall l :: 1 <= l <= 16 ==> start[l] == Start(lens, l)
    modifies start
    ensures Starts(start[..], lens, tb, 0)
  {
    hide Scale, FirstCode, Count, Start, Shr, Starts;
    for i := 1 to tb + 1
      invariant forall l :: 1 <= l < i ==> start[l] == Scale(FirstCode(lens, l), tb - l)
      invariant forall l :: i <= l <= 16 ==> start[l] == Start(lens, l)
    {
      ScaledStart(lens, tb, i);
      start[i] := Shr(start[i], 16 - tb);
    }
    StartsBegin(start[..], lens, tb) by {
      forall l | 1 <= l <= 16
        ensures start[l] == Scale(FirstCode(lens, l), Unit(tb, l))
      {
        if l > tb {
          StartIs(lens, l);
        }
      }
    }
  }

  lemma StartIs(lens: seq<nat>, l: nat)
    requires l <= 16
    ensures Start(lens, l) == Scale(FirstCode(lens, l), 16 - l)
  {
  }

  /** The main loop of make_table: every symbol gets its table range or its place in the tree. */
  method PlaceSymbols(nchar: nat, bitlen: array<nat>, tb: nat, table: array<int>, leftright: array<int>,
                      start: array<nat>)
    requires nchar <= bitlen.Length && Complete(bitlen[..nchar]) && 1 <= tb < 16
    requires table.Length == Pow2(tb) && leftright.Length >= 4 * nchar && table != leftright
    requires bitlen as object != table && bitlen as object != leftright && bitlen != start
    requires start as object != table && start as object != leftright
    requires start.Length == 18 && Starts(start[..], bitlen[..nchar], tb, 0)
    requires forall i :: LongFrom(bitlen[..nchar], tb) <= i < table.Length ==> table[i] == 0
    modifies table, leftright, start
    ensures Finds(table[..], leftright[..], tb, bitlen[..nchar])
  {
    hide Pow2, Finds, Consistent, Short, Starts, LongFrom, Scale, FirstCode, Count, Code, First, CodeNumber, Complete;
    ghost var lens := bitlen[..nchar];
    var avail := nchar;
    ghost var nodes: seq<seq<bool>> := [];
    FreshTable(lens, tb, table[..], leftright[..]);
    for ch := 0 to nchar
      invariant avail == nchar + |nodes| && start.Length == 18 && bitlen[..nchar] == lens
      invariant Starts(start[..], lens, tb, ch)
      invariant Consistent(lens, ch, tb, LongFrom(lens, tb), State(table[..], leftright[..], nchar, nodes))
      invariant Short(table[..], lens, tb, ch)
    {
      var len := bitlen[ch];
      assert len == lens[ch] && len <= 16 && IsLengths(lens) by { LengthsBounded(lens, ch); CompleteLengths(lens); }
      StartsNext(start[..], lens, tb, ch);
      StartsSize(start[..], lens, tb, ch);
      ghost var st := State(table[..], leftright[..], nchar, nodes);
      if len == 0 {
        PlaceElsewhere(lens, ch, tb, LongFrom(lens, tb), st, table[..]);
        ShortKept(lens, tb, ch, st.table, table[..]);
        continue;
      }
      var from: nat := start[len];
      var nextcode: nat := from + Pow2(if len <= tb then tb - len else 16 - len);
      ghost var was := start[..];
      if len <= tb {
        RangeOf(lens, tb, ch, from);
        ShortRange(lens, tb, ch);
        FillShort(table, from, nextcode, ch);
        ShortNext(lens, tb, ch, st.table, table[..]);
        forall i: nat | LongFrom(lens, tb) <= i < table.Length
          ensures BitsOf(tb, i) != Code(lens, ch)
        {
          ShortNotLong(lens, tb, ch, i);
        }
        PlaceElsewhere(lens, ch, tb, LongFrom(lens, tb), st, table[..]);
      } else {
        FirstOf(lens, ch);
        avail, nodes := PlaceLong(table, leftright, avail, from, ch, len, tb, lens, nodes);
        ShortKept(lens, tb, ch, st.table, table[..]);
      }
      start[len] := nextcode;
      assert start[..] == was[len := nextcode];
    }
    TableFinds(lens, tb, State(table[..], leftright[..], nchar, nodes));
  }

  lemma StartsSize(start: seq<nat>, lens: seq<nat>, tb: nat, ch: nat)
    requires ch <= |lens| && Starts(start, lens, tb, ch)
    ensures |start| == 18
  {
  }

  lemma RangeOf(lens: seq<nat>, tb: nat, s: nat, from: nat)
    requires s < |lens| && lens[s] <= tb && from == Scale(CodeNumber(lens, s), tb - lens[s])
    ensures forall i :: InRange(lens, tb, s, i) <==> from <= i < from + Pow2(tb - lens[s])
  {
  }

  lemma FirstOf(lens: seq<nat>, s: nat)
    requires s < |lens| && lens[s] <= 16
    ensures First(lens, s) == Scale(CodeNumber(lens, s), 16 - lens[s])
  {
  }

  /** make_table. It succeeds on no codes at all and on complete codes, and then finds every code. */
  method MakeTable(nchar: nat, bitlen: array<nat>, tb: nat, table: array<int>, leftright: array<int>) returns (ok: bool)
    requires nchar <= bitlen.Length && IsLengths(bitlen[..nchar]) && 1 <= tb < 16
    requires table.Length == Pow2(tb) && leftright.Length >= 4 * nchar && table != leftright
    requires bitlen as object != table && bitlen as object != leftright
    modifies table, leftright
    ensures ok <==> LongFrom(bitlen[..nchar], 16) == 0 || Complete(bitlen[..nchar])
    ensures Complete(bitlen[..nchar]) ==> Finds(table[..], leftright[..], tb, bitlen[..nchar])
  {
    hide Pow2, Finds, Starts, LongFrom, Scale, FirstCode, Count, Shr, Start;
    ghost var lens := bitlen[..nchar];
    var count, start := CountLengths(bitlen, nchar);
    CompleteSum(lens);
    if start[17] != 65536 {
      if start[17] == 0 {
        forall i | 0 <= i < table.Length { table[i] := 0; }
        assert bitlen[..nchar] == lens;
        return true;
      }
      return false;
    }
    LongFromBound(lens, tb);
    var longFrom := Shr(start[tb + 1], 16 - tb);
    forall i | longFrom <= i < table.Length { table[i] := 0; }
    ScaleStarts(start, tb, lens);
    assert bitlen[..nchar] == lens;
    PlaceSymbols(nchar, bitlen, tb, table, leftright, start);
    ok := true;
  }

  // ---------- The aligned table ----------

  /** Where the codes of length l begin in the table: the sums before them are kept in 16 bits. */
  ghost function From8(lens: seq<nat>, l: nat): nat
    requires 1 <= l <= 7
  {
    Scale(FirstCode(lens, l), 7 - l) % 128
  }

  /** The codes of each length end inside the table. */
  ghost predicate Inside8(lens: seq<nat>) {
    forall l :: 1 <= l <= 7 && Count(lens, l) > 0 ==> From8(lens, l) + Scale(Count(lens, l), 7 - l) <= 128
  }

  ghost predicate Starts8(start: seq<nat>, lens: seq<nat>, ch: nat)
    requires ch <= |lens|
  {
    |start| == 18 && forall l :: 1 <= l <= 7 ==> start[l] == From8(lens, l) + Scale(Count(lens[..ch], l), 7 - l)
  }

  /** The codes seen so far end inside the table. */
  ghost predicate Inside8Upto(lens: seq<nat>, ch: nat)
    requires ch <= |lens|
  {
    forall l :: 1 <= l <= 7 && Count(lens[..ch], l) > 0 ==> From8(lens, l) + Scale(Count(lens[..ch], l), 7 - l) <= 128
  }

  lemma ScaleNine(x: nat)
    ensures Scale(x, 9) == 512 * x
  {
    hide Scale;
    ScaleNone(x);
    forall k: nat | k < 9 ensures Scale(x, k + 1) == 2 * Scale(x, k) {
      ScaleStep(x, k);
    }
    assert Scale(x, 0) == x && Scale(x, 0 + 1) == 2 * x && Scale(x, 1 + 1) == 4 * x && Scale(x, 2 + 1) == 8 * x;
    assert Scale(x, 3 + 1) == 16 * x && Scale(x, 4 + 1) == 32 * x && Scale(x, 5 + 1) == 64 * x;
    assert Scale(x, 6 + 1) == 128 * x && Scale(x, 7 + 1) == 256 * x && Scale(x, 8 + 1) == 512 * x;
  }

  /** A 16-bit sum, shifted down to the seven bits of the table. */
  lemma Wrapped8(lens: seq<nat>, l: nat)
    requires 1 <= l <= 7
    ensures Start(lens, l) % 65536 / 512 == From8(lens, l)
  {
    hide Scale, FirstCode;
    ScaleScale(FirstCode(lens, l), 7 - l, 9);
    ScaleNine(Scale(FirstCode(lens, l), 7 - l));
    SevenOfSixteen(Scale(FirstCode(lens, l), 7 - l));
  }

  lemma SevenOfSixteen(x: nat)
    ensures 512 * x % 65536 / 512 == x % 128
  {
  }

  /** The 16-bit sums are shifted down. */
  method ScaleStarts8(start: array<nat>, ghost lens: seq<nat>)
    requires start.Length == 18 && forall l :: 1 <= l <= 16 ==> start[l] == Start(lens, l)
    modifies start
    ensures Starts8(start[..], lens, 0) && Inside8Upto(lens, 0)
  {
    hide Start, From8, Count, Scale;
    for i := 1 to 8
      invariant forall l :: 1 <= l < i ==> start[l] == From8(lens, l)
      invariant forall l :: i <= l <= 16 ==> start[l] == Start(lens, l)
    {
      Wrapped8(lens, i);
      start[i] := start[i] % 65536 / 512;
    }
    forall l | 1 <= l <= 7 ensures Count(lens[..0], l) == 0 && Scale(Count(lens[..0], l), 7 - l) == 0 {
      CountNone(lens[..0], l);
      ScaleZero(7 - l);
    }
  }

  lemma CountNone(lens: seq<nat>, l: nat)
    requires lens == []
    ensures Count(lens, l) == 0
  {
  }

  lemma Start8At(start: seq<nat>, lens: seq<nat>, ch: nat)
    requires ch < |lens| && 1 <= lens[ch] <= 7 && Starts8(start, lens, ch)
    ensures |start| == 18
    ensures start[lens[ch]] == From8(lens, lens[ch]) + Scale(Count(lens[..ch], lens[ch]), 7 - lens[ch])
  {
    hide From8, Scale, Count;
  }

  /** One more code. */
  lemma Starts8Next(start: seq<nat>, lens: seq<nat>, ch: nat)
    requires ch < |lens| && lens[ch] <= 7 && Starts8(start, lens, ch)
    ensures var l := lens[ch];
            Starts8(if l == 0 then start else start[l := start[l] + Pow2(7 - l)], lens, ch + 1)
    ensures lens[ch] > 0 ==> start[lens[ch]] + Pow2(7 - lens[ch])
                             == From8(lens, lens[ch]) + Scale(Count(lens[..ch + 1], lens[ch]), 7 - lens[ch])
  {
    hide Pow2, Scale, From8, Count;
    CountEach(lens, ch);
    if lens[ch] > 0 {
      ScaleStep(Count(lens[..ch], lens[ch]), 7 - lens[ch]);
    }
  }

  lemma Inside8Next(lens: seq<nat>, ch: nat)
    requires ch < |lens| && lens[ch] <= 7 && Inside8Upto(lens, ch)
    requires lens[ch] > 0 ==> From8(lens, lens[ch]) + Scale(Count(lens[..ch + 1], lens[ch]), 7 - lens[ch]) <= 128
    ensures Inside8Upto(lens, ch + 1)
  {
    hide Scale, From8, Count;
    CountEach(lens, ch);
  }

  /** A code that ends outside the table is one of those that Inside8 forbids. */
  lemma Outside8(lens: seq<nat>, ch: nat)
    requires ch < |lens| && 1 <= lens[ch] <= 7
    requires From8(lens, lens[ch]) + Scale(Count(lens[..ch + 1], lens[ch]), 7 - lens[ch]) > 128
    ensures !Inside8(lens)
  {
    hide Scale, From8;
    var l := lens[ch];
    CountEach(lens, ch);
    CountGrows(lens, ch + 1, l);
    ScaleMonotone(Count(lens[..ch + 1], l), Count(lens, l), 7 - l);
    assert Count(lens[..ch + 1], l) >= 1 && Count(lens, l) > 0;
    assert From8(lens, l) + Scale(Count(lens, l), 7 - l) > 128;
  }

  lemma {:induction false} CountGrows(lens: seq<nat>, n: nat, l: nat)
    requires n <= |lens|
    ensures Count(lens[..n], l) <= Count(lens, l)
  {
    if n < |lens| {
      CountGrows(lens[..|lens| - 1], n, l);
      assert lens[..|lens| - 1][..n] == lens[..n];
    } else {
      assert lens[..n] == lens;
    }
  }

  lemma Inside8All(lens: seq<nat>)
    requires Inside8Upto(lens, |lens|)
    ensures Inside8(lens)
  {
    hide Scale, From8, Count;
    assert lens[..|lens|] == lens;
  }

  /** For complete lengths the 16-bit sums are the sums. */
  lemma Complete8(lens: seq<nat>, ch: nat)
    requires Complete(lens) && Used(lens, ch) && lens[ch] <= 7
    ensures From8(lens, lens[ch]) + Scale(Count(lens[..ch], lens[ch]), 7 - lens[ch])
            == Scale(CodeNumber(lens, ch), 7 - lens[ch])
    ensures Scale(CodeNumber(lens, ch), 7 - lens[ch]) + Pow2(7 - lens[ch]) <= 128
  {
    hide Scale, FirstCode, Count, Pow2, Complete, LongFrom;
    var l := lens[ch];
    ShortRange(lens, 7, ch);
    ScaleAdd(FirstCode(lens, l), Count(lens[..ch], l), 7 - l);
    Pow2Values();
    Pow2Monotone(0, 7 - l);
  }

  /** Four and more codes too many can go unnoticed: the sum of these lengths is 131072, twice what a code may use. */
  lemma TwiceTooMany()
    ensures var lens := [1, 1, 2, 2, 2, 2, 0, 0]; LongFrom(lens, 16) == 131072 && Inside8(lens) && !Complete(lens)
  {
    hide Inside8, From8;
    var lens := [1, 1, 2, 2, 2, 2, 0, 0];
    CountsOfEight(lens);
    TwiceSum(lens);
    forall l | 1 <= l <= 7 && Count(lens, l) > 0 ensures From8(lens, l) + Scale(Count(lens, l), 7 - l) <= 128 {
      TwiceInside(lens, l);
    }
    Inside8Make(lens);
    CompleteSum(lens);
  }

  /** make_table_8bit: eight codes of at most seven bits, looked up in one step. The sums are kept in 16
      bits: lengths are accepted when their sum is a multiple of 65536 and no length's codes pass the end of
      the table. */
  method MakeTable8(bitlen: array<nat>, table: array<int>) returns (ok: bool)
    requires bitlen.Length == 8 && table.Length == 128 && bitlen as object != table
    requires forall i :: 0 <= i < 8 ==> bitlen[i] <= 7
    modifies table
    ensures ok <==> LongFrom(bitlen[..], 16) % 65536 == 0 && Inside8(bitlen[..])
    ensures Complete(bitlen[..]) ==> ok && Finds(table[..], [], 7, bitlen[..])
  {
    hide *;
    ghost var lens := bitlen[..];
    assert bitlen[..8] == lens;
    AreLengths(lens);
    var count, start := CountLengths(bitlen, 8);
    CompleteSum(lens);
    if start[17] % 65536 != 0 {
      return false;
    }
    forall i | 0 <= i < table.Length { table[i] := 0; }
    ScaleStarts8(start, lens);
    NothingShort(table[..], lens);
    for ch := 0 to 8
      invariant bitlen[..] == lens && start.Length == 18 && Starts8(start[..], lens, ch) && Inside8Upto(lens, ch)
      invariant Complete(lens) ==> Short(table[..], lens, 7, ch)
    {
      var len := bitlen[ch];
      assert len == lens[ch];
      Starts8Next(start[..], lens, ch);
      if len == 0 {
        Inside8Next(lens, ch);
        if Complete(lens) {
          ShortKept(lens, 7, ch, table[..], table[..]);
        }
        continue;
      }
      Start8At(start[..], lens, ch);
      var from: nat := start[len];
      var nextcode: nat := from + Pow2(7 - len);
      IsUsed(lens, ch);
      if Complete(lens) {
        Complete8(lens, ch);
      }
      if nextcode > 128 {
        Outside8(lens, ch);
        return false;
      }
      ghost var was, starts := table[..], start[..];
      FillShort(table, from, nextcode, ch);
      if Complete(lens) {
        RangeOf(lens, 7, ch, from);
        ShortNext(lens, 7, ch, was, table[..]);
      }
      Inside8Next(lens, ch);
      start[len] := nextcode;
      assert start[..] == starts[len := nextcode];
    }
    Inside8All(lens);
    if Complete(lens) {
      ShortTableFinds(lens, table[..]);
    }
    ok := true;
  }

  lemma AreLengths(lens: seq<nat>)
    requires forall i :: 0 <= i < |lens| ==> lens[i] <= 7
    ensures IsLengths(lens)
  {
  }

  lemma IsUsed(lens: seq<nat>, ch: nat)
    requires ch < |lens| && lens[ch] > 0
    ensures Used(lens, ch)
  {
  }

  lemma Inside8Make(lens: seq<nat>)
    requires forall l :: 1 <= l <= 7 && Count(lens, l) > 0 ==> From8(lens, l) + Scale(Count(lens, l), 7 - l) <= 128
    ensures Inside8(lens)
  {
    hide Scale, From8, Count;
  }

  lemma CountsOfEight(lens: seq<nat>)
    requires lens == [1, 1, 2, 2, 2, 2, 0, 0]
    ensures forall l :: 1 <= l <= 16 ==> Count(lens, l) == if l == 1 then 2 else if l == 2 then 4 else 0
  {
    forall l | 1 <= l <= 16 ensures Count(lens, l) == if l == 1 then 2 else if l == 2 then 4 else 0 {
      CountsInTurn(l);
    }
  }

  lemma CountsInTurn(l: nat)
    ensures Count([1, 1, 2, 2, 2, 2, 0, 0], l) == (if l == 0 then 2 else if l == 1 then 2 else if l == 2 then 4 else 0)
  {
    var s: seq<nat> := [];
    CountNone(s, l);
    s := CountPut(s, 1, l);
    s := CountPut(s, 1, l);
    s := CountPut(s, 2, l);
    s := CountPut(s, 2, l);
    s := CountPut(s, 2, l);
    s := CountPut(s, 2, l);
    s := CountPut(s, 0, l);
    s := CountPut(s, 0, l);
    assert s == [1, 1, 2, 2, 2, 2, 0, 0];
  }

  lemma CountPut(s: seq<nat>, x: nat, l: nat) returns (t: seq<nat>)
    ensures t == s + [x] && Count(t, l) == Count(s, l) + if x == l then 1 else 0
  {
    t := s + [x];
    assert t[..|t| - 1] == s;
  }

  lemma TwiceSum(lens: seq<nat>)
    requires forall l :: 1 <= l <= 16 ==> Count(lens, l) == if l == 1 then 2 else if l == 2 then 4 else 0
    ensures LongFrom(lens, 16) == 131072
  {
    hide Count;
    TwiceFirst(lens, 16);
    assert Pow2(17) == 131072 by { Pow2Values(); }
  }

  lemma {:induction false} TwiceFirst(lens: seq<nat>, l: nat)
    requires forall k :: 1 <= k <= 16 ==> Count(lens, k) == if k == 1 then 2 else if k == 2 then 4 else 0
    requires 1 <= l <= 16
    ensures FirstCode(lens, l) == if l == 1 then 0 else if l == 2 then 4 else Pow2(l + 1)
  {
    hide Count;
    if l > 1 {
      TwiceFirst(lens, l - 1);
      assert Pow2(4) == 16;
    }
  }

  lemma TwiceInside(lens: seq<nat>, l: nat)
    requires forall k :: 1 <= k <= 16 ==> Count(lens, k) == if k == 1 then 2 else if k == 2 then 4 else 0
    requires 1 <= l <= 7 && Count(lens, l) > 0
    ensures From8(lens, l) + Scale(Count(lens, l), 7 - l) <= 128
  {
    hide Count;
    TwiceFirst(lens, l);
    ScaleThirtyTwo();
  }

  lemma ScaleThirtyTwo()
    ensures Scale(0, 6) == 0 && Scale(2, 6) == 128 && Scale(4, 5) == 128
  {
    assert Scale(2, 6) == Scale(16, 3) && Scale(4, 5) == Scale(16, 3);
    ScaleZero(6);
  }

  lemma NothingShort(table: seq<int>, lens: seq<nat>)
    ensures Short(table, lens, 7, 0)
  {
  }

  /** When every code is short the table alone finds it. */
  lemma ShortTableFinds(lens: seq<nat>, table: seq<int>)
    requires Complete(lens) && |table| == 128 && (forall i :: 0 <= i < |lens| ==> lens[i] <= 7)
    requires Short(table, lens, 7, |lens|)
    ensures Finds(table, [], 7, lens)
  {
    hide Complete, Code, BitsOf, ValueOf, InRange;
    Pow2Values();
    forall s: nat, b | Used(lens, s) && |b| == 16 && Code(lens, s) <= b
      ensures ValueOf(b[..7]) < |table| && Leads([], table[ValueOf(b[..7])], b[7..], s)
    {
      ValueBelow(b[..7]);
      ShortLookup(lens, 7, s, b);
    }
  }
}
