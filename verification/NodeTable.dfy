/** The table of decision nodes is filled in place, and walked back and forth. */
module NodeTable {
  import opened Bits
  import opened Tokens
  import opened RepeatedOffsets
  import opened Lookahead
  import opened Ways
  import S = Slots

  const NODES: nat := 4110

  // ---------- Setting up ----------

  /** The ways that start at the first node. */
  predicate FirstWays(v: View, ns: seq<DecisionNode>, len: nat, i: nat) {
    len < |ns| && forall k: nat :: 1 <= k <= len && (k == 1 || k < i) ==>
      ns[k].path == v.at && ns[k].numbits <= 765 && Way(v, v.at, v.at + k, v.queue, ns[k].link)
  }

  lemma FirstWay(v: View, len: nat, table: seq<nat>, k: nat)
    requires InChunk(v) && v.at + len <= v.limit && TableUsable(v.m, v.at, v.start, v.queue, len, table)
             && 2 <= k <= len
    ensures Way(v, v.at, v.at + k, v.queue, table[k])
  {
    hide Usable;
  }

  lemma LiteralWay(v: View, a: nat, q: Queue, link: nat)
    requires InChunk(v) && v.at <= a < v.limit
    ensures Way(v, a, a + 1, q, link)
  {
  }

  lemma FirstAhead(v: View, ns: seq<DecisionNode>, len: nat)
    requires FirstWays(v, ns, len, len + 1) && ns[0].queue == v.queue && ns[0].numbits == 0
    ensures Settled(v, ns, 0) && Open(v, ns, 0, len) && Cheap(ns, 0)
  {
    hide Way;
    forall k: nat | 0 < k <= len ensures Ahead(v, ns, 0, k) {
      AheadMade(v, ns, 0, k, v.queue);
    }
  }

  /** What the first ways cost. */
  predicate FirstCosts(v: View, costs: Costs, ns: seq<DecisionNode>, len: nat, table: seq<nat>, i: nat) {
    && len < |ns| && |table| == 258 && len <= 257 && v.at < |v.m|
    && forall k: nat ::
         1 <= k <= len && (k == 1 || k < i) ==>
           ns[k].path == v.at && (k > 1 ==> ns[k].link == table[k])
           && ns[k].numbits == (if k == 1 then costs.literal(v.m[v.at]) as nat else costs.pair(k, table[k]) as nat)
  }

  lemma FirstLeast(v: View, costs: Costs, ns: seq<DecisionNode>, len: nat, table: seq<nat>)
    requires FirstWays(v, ns, len, len + 1) && FirstCosts(v, costs, ns, len, table, len + 1)
    requires 2 <= len && v.at + len <= |v.m| && ns[0].numbits == 0
    ensures Least(v, costs, ns, [Look(len, table, len)], len)
  {
    hide Way, Least;
    LeastFirst(v, costs, ns, len, table);
  }

  method SetUp(nodes: array<DecisionNode>, mem: array<byte>, table: array<nat>, len: nat, at: nat, q: Queue,
               costs: Costs, ghost v: View)
    requires nodes.Length == NODES && table.Length == 258 && at < mem.Length && table as object != nodes
             && mem as object != nodes
    requires InChunk(v) && v.at == at && v.queue == q && 2 <= len <= 257 && at + len <= v.limit && v.m == mem[..]
    requires TableUsable(v.m, at, v.start, q, len, table[..])
    modifies nodes
    ensures Settled(v, nodes[..], 0) && Open(v, nodes[..], 0, len) && Cheap(nodes[..], 0) && nodes[0].queue == q
    ensures Least(v, costs, nodes[..], [Look(len, table[..], len)], len)
  {
    hide InChunk, TableUsable, Way, Least, Settled, Open;
    InLimit(v);
    nodes[1] := nodes[1].(numbits := costs.literal(mem[at]), path := at);
    LiteralWay(v, at, q, nodes[1].link);
    var i := 2;
    while i <= len
      invariant 2 <= i <= len + 1 && FirstWays(v, nodes[..], len, i)
      invariant FirstCosts(v, costs, nodes[..], len, table[..], i)
    {
      FirstWay(v, len, table[..], i);
      nodes[i] := nodes[i].(numbits := costs.pair(i, table[i]), path := at, link := table[i]);
      i := i + 1;
    }
    nodes[0] := nodes[0].(numbits := 0, queue := q);
    FirstAhead(v, nodes[..], len);
    FirstLeast(v, costs, nodes[..], len, table[..]);
  }

  lemma InLimit(v: View)
    requires InChunk(v)
    ensures v.at < v.limit <= |v.m| && v.start <= v.at
  {
  }

  // ---------- Visiting ----------

  lemma OpenAt(v: View, ns: seq<DecisionNode>, c: nat, span: nat)
    requires Open(v, ns, c, span) && c < span
    ensures Ahead(v, ns, c, c + 1) && c + 1 < |ns| && v.at <= ns[c + 1].path <= v.at + c
  {
    hide Way;
  }

  /** The queue that goes with the best way to the next node. */
  method Visit(nodes: array<DecisionNode>, at: nat, c: nat, q: Queue, ghost span: nat, ghost v: View)
    returns (newQ: Queue)
    requires v.at == at && Settled(v, nodes[..], c) && Open(v, nodes[..], c, span) && c < span && nodes[c].queue == q
    modifies nodes
    ensures Settled(v, nodes[..], c + 1) && Open(v, nodes[..], c + 1, span) && Cheap(nodes[..], c + 1)
    ensures c + 1 < nodes.Length && newQ == nodes[c + 1].queue
    ensures nodes[..] == old(nodes[..])[c + 1 := old(nodes[c + 1]).(queue := newQ)]
  {
    hide Settled, Open, Ahead, Cheap;
    ghost var ns := nodes[..];
    OpenAt(v, ns, c, span);
    newQ := q;
    if nodes[c + 1].path != at + c {
      var last := nodes[nodes[c + 1].path - at].queue;
      var link := nodes[c + 1].link;
      if link >= 3 {
        newQ := Queue(link - 2, last.r0, last.r1);
      } else if link == 0 {
        newQ := last;
      } else if link == 1 {
        newQ := Queue(last.r1, last.r0, last.r2);
      } else {
        newQ := Queue(last.r2, last.r1, last.r0);
      }
    }
    SettleNext(v, ns, c, span, newQ);
    nodes[c + 1] := nodes[c + 1].(queue := newQ);
    assert nodes[..] == ns[c + 1 := ns[c + 1].(queue := newQ)];
  }

  // ---------- Widening the span and relaxing ----------

  /** Nodes after c have a way, or no cost yet. */
  predicate Relaxed(v: View, ns: seq<DecisionNode>, c: nat, old0: nat, span: nat, i: nat) {
    span < |ns| && forall k: nat :: c < k <= span ==>
      if k <= old0 || k < i then Ahead(v, ns, c, k) else ns[k].numbits == NO_COST
  }

  /** Nothing up to c has changed. */
  predicate Same(ns: seq<DecisionNode>, ns': seq<DecisionNode>, c: nat) {
    |ns'| == |ns| && c < |ns| && forall j: nat :: j <= c ==> ns'[j] == ns[j]
  }

  method Widen(nodes: array<DecisionNode>, c: nat, span: nat, newSpan: nat, ghost v: View)
    requires Open(v, nodes[..], c, span) && c < span < newSpan < nodes.Length
    modifies nodes
    ensures Same(old(nodes[..]), nodes[..], c) && Relaxed(v, nodes[..], c, span, newSpan, 0)
    ensures forall k: nat :: k < nodes.Length ==>
              nodes[k] == if span < k <= newSpan then old(nodes[k]).(numbits := NO_COST) else old(nodes[k])
  {
    ghost var ns := nodes[..];
    var j := span + 1;
    while j <= newSpan
      invariant span < j <= newSpan + 1
      invariant forall k: nat :: k < nodes.Length ==>
                  nodes[k] == if span < k < j then ns[k].(numbits := NO_COST) else ns[k]
    {
      nodes[j] := nodes[j].(numbits := 4294967295);
      j := j + 1;
    }
    WidenedRelaxed(v, ns, nodes[..], c, span, newSpan);
  }

  lemma WidenedRelaxed(v: View, ns: seq<DecisionNode>, ns': seq<DecisionNode>, c: nat, span: nat, newSpan: nat)
    requires Open(v, ns, c, span) && c < span < newSpan < |ns| == |ns'|
    requires forall k: nat :: k < |ns| ==> ns'[k] == if span < k <= newSpan then ns[k].(numbits := NO_COST) else ns[k]
    ensures Relaxed(v, ns', c, span, newSpan, 0)
  {
    hide Ahead;
    forall k: nat | c < k <= newSpan ensures if k <= span then Ahead(v, ns', c, k) else ns'[k].numbits == NO_COST {
      if k <= span {
        AheadKept(v, ns, ns', c, k);
      }
    }
  }

  lemma OpenRelaxed(v: View, ns: seq<DecisionNode>, c: nat, span: nat)
    requires Open(v, ns, c, span)
    ensures Relaxed(v, ns, c, span, span, 0)
  {
    hide Ahead;
  }

  /** A way over node c is taken if it is cheaper than the way known so far. */
  method Improve(nodes: array<DecisionNode>, at: nat, c: nat, k: nat, est: nat, link: nat, ghost q: Queue,
                 ghost v: View, ghost old0: nat, ghost span: nat, ghost i: nat)
    requires v.at == at && c < k < nodes.Length && nodes[c].queue == q && est <= 765 * c + 765 && est < NO_COST
    requires Way(v, at + c, at + k, q, link) && Relaxed(v, nodes[..], c, old0, span, i) && (k <= old0 || k == i)
    modifies nodes
    ensures Same(old(nodes[..]), nodes[..], c)
    ensures Relaxed(v, nodes[..], c, old0, span, if k == i then i + 1 else i)
    ensures nodes[..] == old(nodes[..])[k := Better(old(nodes[k]), est, at + c, link)]
  {
    hide *;
    ghost var ns := nodes[..];
    SameAll(ns, c);
    BetterIs(ns[k], est, at + c, link);
    if est < nodes[k].numbits {
      nodes[k] := nodes[k].(numbits := est, path := at + c, link := link);
      SameUpdate(ns, nodes[..], c, k);
      AheadMade(v, nodes[..], c, k, q);
    }
    RelaxedOne(v, ns, nodes[..], c, old0, span, i, k);
  }

  lemma BetterIs(n: DecisionNode, est: nat, path: nat, link: nat)
    ensures Better(n, est, path, link) == if est < n.numbits then n.(numbits := est, path := path, link := link) else n
  {
  }

  lemma SameAll(ns: seq<DecisionNode>, c: nat)
    requires c < |ns|
    ensures Same(ns, ns, c)
  {
  }

  lemma SameUpdate(ns: seq<DecisionNode>, ns': seq<DecisionNode>, c: nat, k: nat)
    requires c < k < |ns| == |ns'| && ns' == ns[k := ns'[k]]
    ensures Same(ns, ns', c)
  {
  }

  lemma RelaxedOne(v: View, ns: seq<DecisionNode>, ns': seq<DecisionNode>, c: nat, old0: nat, span: nat, i: nat, k: nat)
    requires Relaxed(v, ns, c, old0, span, i) && Same(ns, ns', c) && c < k < |ns| && (k <= old0 || k == i)
    requires ns' == ns || (ns' == ns[k := ns'[k]] && Ahead(v, ns', c, k))
    requires ns' == ns ==> ns[k].numbits < NO_COST
    ensures Relaxed(v, ns', c, old0, span, if k == i then i + 1 else i)
  {
    hide Ahead;
    var i' := if k == i then i + 1 else i;
    forall j: nat | c < j <= span ensures if j <= old0
      || j < i' then Ahead(v, ns', c, j) else ns'[j].numbits == NO_COST {
      if (j <= old0 || j < i) && j != k {
        AheadKept(v, ns, ns', c, j);
      }
    }
  }

  lemma RelaxedOpen(v: View, ns: seq<DecisionNode>, c: nat, old0: nat, span: nat, i: nat)
    requires Relaxed(v, ns, c, old0, span, i) && (span <= old0 || span < i)
    ensures Open(v, ns, c, span)
  {
    hide Ahead;
  }

  /** The span is widened if the match found leads past it. */
  method Reach(nodes: array<DecisionNode>, table: array<nat>, len: nat, c: nat, span: nat, costs: Costs, ghost v: View,
               ghost looks: seq<Look>)
    returns (newSpan: nat)
    requires nodes.Length == NODES && table.Length == 258 && table as object != nodes
    requires Open(v, nodes[..], c, span) && c < span < 3837 && c + len < 3837
    requires |looks| == c && Chain(looks, span) && Least(v, costs, nodes[..], looks, span)
    modifies nodes
    ensures Same(old(nodes[..]), nodes[..], c) && Relaxed(v, nodes[..], c, span, newSpan, 0)
    ensures newSpan == Wider(span, c, len, table[..]) && (newSpan == span || newSpan == c + len) && span <= newSpan
    ensures Trying(v, costs, nodes[..], looks + [Look(len, table[..], newSpan)], newSpan, c + 1)
  {
    hide *;
    ghost var ns := nodes[..];
    NodeSizes();
    SameAll(ns, c);
    newSpan := span;
    OpenRelaxed(v, ns, c, span);
    if len > 2 || (len == 2 && table[2] < 2048) {
      if span < c + len {
        newSpan := c + len;
        var last := if newSpan < 3836 then newSpan else 3836;
        Widen(nodes, c, span, last, v);
      }
    }
    WiderIs(span, c, len, table[..]);
    TryingNone(v, costs, ns, nodes[..], looks, Look(len, table[..], newSpan), span);
  }

  /** One way over node c. */
  method TryWay(nodes: array<DecisionNode>, at: nat, c: nat, k: nat, est: nat, link: nat, ghost q: Queue, ghost v: View,
                ghost old0: nat, ghost span: nat, ghost i: nat, ghost costs: Costs, ghost looks: seq<Look>)
    requires v.at == at && c < k < nodes.Length && nodes[c].queue == q && est <= 765 * c + 765 && est < NO_COST
    requires Way(v, at + c, at + k, q, link) && Relaxed(v, nodes[..], c, old0, span, i) && (k <= old0 || k == i)
    requires |looks| == c + 1 && Trying(v, costs, nodes[..], looks, span, k)
    requires k <= span ==>
               Tried(v, looks, c, k) && est == nodes[c].numbits + WayCost(v, costs, looks, c, k)
               && (k > c + 1 ==> link == looks[c].table[k - c])
    modifies nodes
    ensures Same(old(nodes[..]), nodes[..], c)
    ensures Relaxed(v, nodes[..], c, old0, span, if k == i then i + 1 else i)
    ensures Trying(v, costs, nodes[..], looks, span, k + 1)
  {
    hide *;
    ghost var ns := nodes[..];
    Improve(nodes, at, c, k, est, link, q, v, old0, span, i);
    TryingMore(v, costs, ns, nodes[..], looks, span, k, est, link);
  }

  /** The rest of the loop body at node c: the span is widened if the matches found lead past it, and
      every way over c is tried. */
  method Relax(nodes: array<DecisionNode>, mem: array<byte>, table: array<nat>, len: nat, at: nat, c: nat, span: nat,
               q: Queue, costs: Costs, ghost v: View, ghost looks: seq<Look>)
    returns (newSpan: nat)
    requires nodes.Length == NODES && table.Length == 258 && at + c < mem.Length && table as object != nodes
             && mem as object != nodes
    requires InChunk(v) && v.at == at && Settled(v, nodes[..], c) && Open(v, nodes[..], c, span) && Cheap(nodes[..], c)
             && nodes[c].queue == q
    requires c < span && len <= 257 && c + len < 3837 && at + c + len <= v.limit
             && TableUsable(v.m, at + c, v.start, q, len, table[..])
    requires at + span <= v.limit && span < 3837
    requires v.m == mem[..] && |looks| == c && Chain(looks, span) && Least(v, costs, nodes[..], looks, span)
    modifies nodes
    ensures span <= newSpan < 3837 && at + newSpan <= v.limit
    ensures Settled(v, nodes[..], c) && Open(v, nodes[..], c, newSpan) && Cheap(nodes[..], c) && nodes[c].queue == q
    ensures Same(old(nodes[..]), nodes[..], c) && newSpan == Wider(span, c, len, table[..])
    ensures Least(v, costs, nodes[..], looks + [Look(len, table[..], newSpan)], newSpan)
  {
    hide *;
    ghost var ns := nodes[..];
    NodeSizes();
    CheapAt(ns, c);
    InLimit(v);
    newSpan := Reach(nodes, table, len, c, span, costs, v, looks);
    ghost var l, wide := Look(len, table[..], newSpan), nodes[..];
    SameAt(ns, wide, c);
    var cum := nodes[c].numbits;
    LiteralWay(v, at + c, q, nodes[c + 1].link);
    LiteralTried(v, costs, looks, l);
    TryWay(nodes, at, c, c + 1, cum + costs.literal(mem[at + c]), nodes[c + 1].link, q, v, span, newSpan, 0, costs,
           looks + [l]);
    SameTrans(ns, wide, nodes[..], c);
    RelaxedFirst(v, nodes[..], c, span, newSpan);
    var i := 2;
    while i <= len
      invariant 2 <= i && (i <= len + 1 || i == 2)
      invariant Same(ns, nodes[..], c) && Relaxed(v, nodes[..], c, span, newSpan, c + i)
      invariant Trying(v, costs, nodes[..], looks + [l], newSpan, c + i)
    {
      ghost var before := nodes[..];
      SameAt(ns, before, c);
      TableWay(v, at + c, q, len, table[..], i);
      PairTried(v, costs, looks, l, i);
      TryWay(nodes, at, c, c + i, costs.pair(i, table[i]) + cum, table[i], q, v, span, newSpan, c + i, costs,
             looks + [l]);
      SameTrans(ns, before, nodes[..], c);
      i := i + 1;
    }
    RelaxedOpen(v, nodes[..], c, span, newSpan, c + i);
    SettledSame(v, ns, nodes[..], c);
    SameAt(ns, nodes[..], c);
    SameCheap(ns, nodes[..], c);
    AllReached(v, costs, ns, nodes[..], looks, c, span, newSpan);
    TryingAll(v, costs, nodes[..], looks + [l], c + i);
  }

  lemma WiderIs(span: nat, c: nat, len: nat, table: seq<nat>)
    requires |table| == 258
    ensures Wider(span, c, len, table)
            == if (len > 2 || (len == 2 && table[2] < 2048)) && span < c + len then c + len else span
  {
  }

  lemma LiteralTried(v: View, costs: Costs, looks: seq<Look>, l: Look)
    requires |l.table| == 258 && l.len <= 257 && |looks| < l.span && v.at + l.span <= |v.m|
    ensures var c := |looks|;
            Tried(v, looks + [l], c, c + 1) && WayCost(v, costs, looks + [l], c, c + 1) == costs.literal(v.m[v.at + c])
  {
  }

  lemma PairTried(v: View, costs: Costs, looks: seq<Look>, l: Look, i: nat)
    requires |l.table| == 258 && 2 <= i <= l.len <= 257 && v.at + l.span <= |v.m|
    ensures var c := |looks|;
            (looks + [l])[c] == l && (c + i <= l.span ==> Tried(v, looks + [l], c, c + i))
    ensures var c := |looks|;
            c + i <= l.span ==> WayCost(v, costs, looks + [l], c, c + i) == costs.pair(i, l.table[i])
  {
  }

  /** All nodes have been reached. */
  lemma AllReached(v: View, costs: Costs, ns: seq<DecisionNode>, ns': seq<DecisionNode>, looks: seq<Look>, c: nat,
                   span: nat, newSpan: nat)
    requires Least(v, costs, ns, looks, span) && Same(ns, ns', c) && c <= span
    requires Open(v, ns', c, newSpan) && newSpan < 3837
    ensures forall k: nat :: 1 <= k <= newSpan ==> k < |ns'| && ns'[k].numbits < NO_COST
  {
    hide Arc, Best;
    forall k: nat | 1 <= k <= newSpan ensures k < |ns'| && ns'[k].numbits < NO_COST {
      if k > c {
        assert Ahead(v, ns', c, k);
      } else {
        assert ns'[k] == ns[k];
      }
    }
  }

  lemma NodeSizes()
    ensures NODES == 4110 && NO_COST == 4294967295
  {
  }

  lemma CheapAt(ns: seq<DecisionNode>, c: nat)
    requires Cheap(ns, c) && c < 4000
    ensures ns[c].numbits <= 765 * c && 765 * c + 765 < NO_COST
  {
  }

  lemma SameAt(ns: seq<DecisionNode>, ns': seq<DecisionNode>, c: nat)
    requires Same(ns, ns', c)
    ensures |ns'| == |ns| && c < |ns| && ns'[c] == ns[c]
  {
  }

  lemma SameCheap(ns: seq<DecisionNode>, ns': seq<DecisionNode>, c: nat)
    requires Same(ns, ns', c) && Cheap(ns, c)
    ensures Cheap(ns', c)
  {
  }

  lemma SameQueues(ns: seq<DecisionNode>, ns': seq<DecisionNode>, c: nat)
    requires Same(ns, ns', c)
    ensures |ns'| == |ns| && forall a: nat :: a <= c ==> a < |ns| && ns'[a].queue == ns[a].queue
  {
  }

  lemma SameTrans(ns: seq<DecisionNode>, ns': seq<DecisionNode>, ns'': seq<DecisionNode>, c: nat)
    requires Same(ns, ns', c) && Same(ns', ns'', c)
    ensures Same(ns, ns'', c)
  {
  }

  lemma RelaxedFirst(v: View, ns: seq<DecisionNode>, c: nat, span: nat, newSpan: nat)
    requires Relaxed(v, ns, c, span, newSpan, 0) && c < span
    ensures Relaxed(v, ns, c, span, newSpan, c + 2)
  {
    hide Ahead;
  }

  lemma TableWay(v: View, a: nat, q: Queue, len: nat, table: seq<nat>, k: nat)
    requires InChunk(v) && v.at <= a && a + len <= v.limit && TableUsable(v.m, a, v.start, q, len, table)
             && 2 <= k <= len
    ensures |table| == 258 && Way(v, a, a + k, q, table[k])
  {
    hide Usable;
  }

  lemma SettledSame(v: View, ns: seq<DecisionNode>, ns': seq<DecisionNode>, c: nat)
    requires Settled(v, ns, c) && Same(ns, ns', c)
    ensures Settled(v, ns', c)
  {
    hide Arc;
    SettledKept(v, ns, ns', c);
  }

  // ---------- A long match ends the look ahead ----------

  /** The match of length len at node c leads to the last node. */
  method Jump(nodes: array<DecisionNode>, at: nat, c: nat, len: nat, link: nat, q: Queue, ghost v: View)
    requires nodes.Length == NODES && v.at == at && Settled(v, nodes[..], c) && c < 3837 && 2 <= len <= 257
             && nodes[c].queue == q
    requires Way(v, at + c, at + c + len, q, link)
    modifies nodes
    ensures Reached(v, nodes[..], c + len, Renew(q, link)) && Settled(v, nodes[..], c)
    ensures nodes[..] == old(nodes[..])[c + len := old(nodes[c + len]).(link := link, path := at + c)]
  {
    hide *;
    NodeSizes();
    ghost var ns := nodes[..];
    nodes[c + len] := nodes[c + len].(link := link, path := at + c);
    SettledKept(v, ns, nodes[..], c);
    JumpReached(v, nodes[..], c, len, link, q);
  }

  lemma JumpReached(v: View, ns: seq<DecisionNode>, c: nat, len: nat, link: nat, q: Queue)
    requires Settled(v, ns, c) && 2 <= len && c + len < |ns| && ns[c].queue == q
             && Way(v, v.at + c, v.at + c + len, q, link)
    requires ns[c + len].path == v.at + c && ns[c + len].link == link
    ensures Reached(v, ns, c + len, Renew(q, link))
  {
    hide Usable;
  }

  // ---------- Walking back and forth ----------

  /** The nodes on the way to e, each the one before of the next. */
  predicate IsRoute(ns: seq<DecisionNode>, at: nat, route: seq<nat>, e: nat) {
    && route != [] && route[0] == 0 && route[|route| - 1] == e < |ns|
    && forall k: nat :: 0 < k < |route| ==> Hop(ns, at, route, k)
  }

  predicate Hop(ns: seq<DecisionNode>, at: nat, route: seq<nat>, k: nat) {
    0 < k < |route| && route[k - 1] < route[k] < |ns| && ns[route[k]].path == at + route[k - 1]
  }

  lemma {:induction false} RouteTo(v: View, ns: seq<DecisionNode>, e: nat, q: Queue) returns (route: seq<nat>)
    requires Reached(v, ns, e, q)
    ensures IsRoute(ns, v.at, route, e) && |route| >= 2
    decreases e
  {
    hide Way, After, Settled;
    var j := ns[e].path - v.at;
    if j == 0 {
      route := [0, e];
    } else {
      SettledReached(v, ns, j, j);
      var before := RouteTo(v, ns, j, ns[j].queue);
      route := before + [e];
      forall k: nat | 0 < k < |route| ensures Hop(ns, v.at, route, k) {
        if k < |before| {
          assert Hop(ns, v.at, before, k);
        }
      }
    }
  }

  /** Routes climb. */
  lemma {:induction false} RouteClimbs(ns: seq<DecisionNode>, at: nat, route: seq<nat>, e: nat, i: nat, j: nat)
    requires IsRoute(ns, at, route, e) && i < j < |route|
    ensures route[i] < route[j] < |ns|
    decreases j
  {
    assert Hop(ns, at, route, j);
    if i < j - 1 {
      RouteClimbs(ns, at, route, e, i, j - 1);
    }
  }

  /** From node k of the route on, the paths have been turned round; links are as they were. */
  predicate Turned(ns: seq<DecisionNode>, ns': seq<DecisionNode>, at: nat, route: seq<nat>, k: nat) {
    && |ns'| == |ns| && (forall i: nat :: i < |ns| ==> ns'[i].link == ns[i].link)
    && (forall i: nat :: k <= i < |route| - 1 ==> route[i] < |ns'| && ns'[route[i]].path == at + route[i + 1])
    && (k < |route| ==> forall i: nat :: i < route[k] && i < |ns| ==> ns'[i] == ns[i])
  }

  lemma TurnOne(ns: seq<DecisionNode>, ns': seq<DecisionNode>, at: nat, route: seq<nat>, e: nat, k: nat)
    requires IsRoute(ns, at, route, e) && Turned(ns, ns', at, route, k) && 0 < k < |route|
    ensures route[k - 1] < |ns| && ns'[route[k - 1]] == ns[route[k - 1]]
    ensures Turned(ns, ns'[route[k - 1] := ns'[route[k - 1]].(path := at + route[k])], at, route, k - 1)
    ensures k > 1 ==> ns[route[k - 1]].path == at + route[k - 2]
    ensures (route[k - 1] == 0 <==> k == 1) && route[k - 1] < route[k]
  {
    assert Hop(ns, at, route, k);
    var p := route[k - 1];
    var now := ns'[p := ns'[p].(path := at + route[k])];
    forall i: nat | k - 1 <= i < |route| - 1 ensures route[i] < |now| && now[route[i]].path == at + route[i + 1] {
      if i > k - 1 {
        RouteClimbs(ns, at, route, e, k - 1, i);
      }
    }
    if k > 1 {
      assert Hop(ns, at, route, k - 1);
    }
  }

  /** The loop that turns the paths round, from the last node to the first; iterations counts them. */
  method TurnRound(nodes: array<DecisionNode>, at: nat, last: nat, ghost route: seq<nat>) returns (iterations: nat)
    requires last < nodes.Length && IsRoute(nodes[..], at, route, last) && |route| >= 2
    modifies nodes
    ensures iterations == |route| - 1 && Turned(old(nodes[..]), nodes[..], at, route, 0)
  {
    hide *;
    ghost var ns, k := nodes[..], |route| - 1;
    RouteEnd(ns, at, route, last);
    var pos: nat := at + last;
    iterations := 0;
    var next: nat := nodes[last].path;
    while true
      invariant 0 < k < |route| && pos == at + route[k] && next == at + route[k - 1]
      invariant Turned(ns, nodes[..], at, route, k) && iterations + k + 1 == |route|
      decreases k
    {
      TurnOne(ns, nodes[..], at, route, last, k);
      var prev := next;
      next := nodes[prev - at].path;
      ghost var before := nodes[..];
      nodes[prev - at] := nodes[prev - at].(path := pos);
      assert nodes[..] == before[route[k - 1] := before[route[k - 1]].(path := at + route[k])];
      pos := prev;
      iterations := iterations + 1;
      k := k - 1;
      if pos == at {
        break;
      }
    }
  }

  lemma RouteEnd(ns: seq<DecisionNode>, at: nat, route: seq<nat>, e: nat)
    requires IsRoute(ns, at, route, e) && |route| >= 2
    ensures var k := |route| - 1;
            e < |ns| && route[k] == e && ns[e].path == at + route[k - 1] && Turned(ns, ns, at, route, k)
  {
    assert Hop(ns, at, route, |route| - 1);
  }

  /** What the loop that goes forward finds at node k of the route. */
  lemma NextHop(v: View, ns: seq<DecisionNode>, ns': seq<DecisionNode>, route: seq<nat>, e: nat, k: nat, q: Queue)
    requires Reached(v, ns, e, q) && IsRoute(ns, v.at, route, e) && Turned(ns, ns', v.at, route, 0) && k + 1 < |route|
    ensures route[k] < route[k + 1] < |ns'| == |ns| && ns'[route[k]].path == v.at + route[k + 1] <= v.limit <= |v.m|
            && ns'[route[k + 1]].link == ns[route[k + 1]].link
    ensures TokensTo(v, ns, route[k + 1]) == TokensTo(v, ns, route[k])
            + [TokenOf(v.m, v.at + route[k], v.at + route[k + 1], ns[route[k + 1]].link)]
  {
    hide Way, After, TokensTo, TokenOf, Settled;
    assert Hop(ns, v.at, route, k + 1);
    RouteSettled(v, ns, route, e, k + 1, q);
    ArcInside(v, ns, route[k + 1]);
    TokensStep(v, ns, route[k + 1]);
  }

  lemma ArcInside(v: View, ns: seq<DecisionNode>, i: nat)
    requires Arc(v, ns, i)
    ensures v.at + i <= v.limit <= |v.m|
  {
    hide Usable;
  }

  /** All nodes of the route have arcs. */
  lemma RouteSettled(v: View, ns: seq<DecisionNode>, route: seq<nat>, e: nat, k: nat, q: Queue)
    requires Reached(v, ns, e, q) && IsRoute(ns, v.at, route, e) && 0 < k < |route|
    ensures Arc(v, ns, route[k])
  {
    hide Way, After;
    if k < |route| - 1 {
      assert Hop(ns, v.at, route, k);
      assert Hop(ns, v.at, route, |route| - 1);
      if k < |route| - 2 {
        RouteClimbs(ns, v.at, route, e, k, |route| - 2);
      }
    }
  }
}
