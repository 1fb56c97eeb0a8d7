/** What a look ahead has tried: at every node the match that the search found there, and how far the look ahead
    then reaches. The numbers of bits in the table are the least that any path over the ways tried costs. */
module Ways {
  import opened Bits
  import opened Tokens
  import opened Lookahead
  import F = Searching
  import MT = MatchTree
  import MF = MatchFinder
  import S = Slots

  /** At one node: the length found, the distance code for every length, and the last node reached from here or
      from an earlier node. */
  datatype Look = Look(len: nat, table: seq<nat>, span: nat)

  // ---------- What was found ----------

  /** A match that does not go on past the limit. */
  function CutOff(len: nat, pos: nat, limit: nat): nat
    requires pos <= limit
  {
    if pos + len <= limit then len else if limit - pos < 2 then 0 else limit - pos
  }

  lemma CutOffIs(len: nat, pos: nat, limit: nat)
    requires pos <= limit
    ensures CutOff(len, pos, limit)
            == if pos + len <= limit then len else if limit - pos < 2 then 0 else limit - pos
  {
  }

  /** The search at pos gave this length and these codes. */
  ghost predicate Searched(m: seq<byte>, trees: seq<MT.Tree>, limit: nat, pos: nat, q: Queue, len: nat,
                           table: seq<nat>) {
    && |trees| == MF.NUM_TREES && pos + 2 <= |m| && pos <= limit
    && exists all, full, found ::
         F.Found(m, MT.Live(trees[MF.Key(m, pos)], F.Bound(pos)), pos, q, all, table, full, found)
         && len == CutOff(all, pos, limit)
  }

  lemma SearchedMake(m: seq<byte>, trees: seq<MT.Tree>, limit: nat, pos: nat, q: Queue, all: nat, table: seq<nat>,
                     full: nat, found: seq<nat>)
    requires |trees| == MF.NUM_TREES && pos + 2 <= |m| && pos <= limit
    requires F.Found(m, MT.Live(trees[MF.Key(m, pos)], F.Bound(pos)), pos, q, all, table, full, found)
    ensures Searched(m, trees, limit, pos, q, CutOff(all, pos, limit), table)
  {
    hide F.Found, MT.Live, MF.Key, F.Bound, CutOff;
  }

  /** The look at node a is the search there, after the positions before it have been inserted. */
  ghost predicate Hunted(v: View, trees: seq<MT.Tree>, ns: seq<DecisionNode>, looks: seq<Look>, a: nat) {
    && a < |ns| && a < |looks| && |trees| == MF.NUM_TREES && v.at + a + 1 <= |v.m|
    && Searched(v.m, F.InTurn(v.m, trees, v.at, a), v.limit, v.at + a, ns[a].queue, looks[a].len, looks[a].table)
  }

  ghost predicate AllHunted(v: View, trees: seq<MT.Tree>, ns: seq<DecisionNode>, looks: seq<Look>) {
    forall a: nat :: a < |looks| ==> Hunted(v, trees, ns, looks, a)
  }

  lemma HuntedMore(v: View, trees: seq<MT.Tree>, ns: seq<DecisionNode>, ns': seq<DecisionNode>, looks: seq<Look>,
                   l: Look)
    requires AllHunted(v, trees, ns, looks) && |ns'| == |ns|
    requires forall a: nat :: a < |ns| && a < |looks| ==> ns'[a].queue == ns[a].queue
    requires Hunted(v, trees, ns', looks + [l], |looks|)
    ensures AllHunted(v, trees, ns', looks + [l])
  {
    hide Searched;
    forall a: nat | a < |looks + [l]| ensures Hunted(v, trees, ns', looks + [l], a) {
      if a < |looks| {
        assert Hunted(v, trees, ns, looks, a);
      }
    }
  }

  lemma HuntedKept(v: View, trees: seq<MT.Tree>, ns: seq<DecisionNode>, ns': seq<DecisionNode>, looks: seq<Look>)
    requires AllHunted(v, trees, ns, looks) && |ns'| == |ns|
    requires forall a: nat :: a < |ns| && a < |looks| ==> ns'[a].queue == ns[a].queue
    ensures AllHunted(v, trees, ns', looks)
  {
    hide Searched;
    forall a: nat | a < |looks| ensures Hunted(v, trees, ns', looks, a) {
      assert Hunted(v, trees, ns, looks, a);
    }
  }

  /** The search at the next node. */
  lemma HuntedLast(v: View, trees: seq<MT.Tree>, ns: seq<DecisionNode>, looks: seq<Look>, l: Look)
    requires AllHunted(v, trees, ns, looks) && |looks| < |ns| && |trees| == MF.NUM_TREES
             && v.at + |looks| + 1 <= |v.m|
    requires Searched(v.m, F.InTurn(v.m, trees, v.at, |looks|), v.limit, v.at + |looks|, ns[|looks|].queue, l.len,
                      l.table)
    ensures AllHunted(v, trees, ns, looks + [l])
  {
    hide Searched, F.InTurn;
    HuntedMore(v, trees, ns, ns, looks, l);
  }

  lemma HuntedFirst(v: View, trees: seq<MT.Tree>, ns: seq<DecisionNode>, l: Look)
    requires ns != [] && |trees| == MF.NUM_TREES && v.at + 1 <= |v.m| && ns[0].queue == v.queue
    requires Searched(v.m, trees, v.limit, v.at, v.queue, l.len, l.table)
    ensures AllHunted(v, trees, ns, [l])
  {
    hide Searched;
    F.InTurnIs(v.m, trees, v.at, 0);
  }

  /** Only the queue of node c has changed. */
  lemma OneQueue(ns: seq<DecisionNode>, ns': seq<DecisionNode>, c: nat, q: Queue, span: nat)
    requires c < |ns| && ns' == ns[c := ns[c].(queue := q)]
    ensures SameWays(ns, ns', span) && forall a: nat :: a < c ==> ns'[a].queue == ns[a].queue
  {
  }

  /** Only a node after c has changed. */
  lemma OneJump(ns: seq<DecisionNode>, ns': seq<DecisionNode>, c: nat, len: nat)
    requires len > 0 && c + len < |ns| == |ns'| && ns' == ns[c + len := ns'[c + len]]
    ensures SameWays(ns, ns', c) && forall a: nat :: a <= c ==> ns'[a].queue == ns[a].queue
  {
  }

  lemma TooLongIs(c: nat, len: nat)
    ensures TooLong(c, len) <==> len > 50 || c + len >= 3837
  {
  }

  // ---------- How far it reaches ----------

  /** Matches of two bytes from far away do not widen the span. */
  function Wider(span: nat, c: nat, len: nat, table: seq<nat>): nat
    requires |table| == 258
  {
    if span < c + len && (len > 2 || (len == 2 && table[2] < 2048)) then c + len else span
  }

  /** The match at node c is long, or leads out of the table: the look ahead ends with it. */
  predicate TooLong(c: nat, len: nat) {
    len > 50 || c + len >= 3837
  }

  /** The look at node a, where there was something left to look at and the match was not too long. */
  predicate Onward(looks: seq<Look>, a: nat) {
    && 1 <= a < |looks| && a < looks[a - 1].span && |looks[a].table| == 258 && !TooLong(a, looks[a].len)
    && looks[a].span == Wider(looks[a - 1].span, a, looks[a].len, looks[a].table)
  }

  /** The looks so far, and the span after them. */
  predicate Chain(looks: seq<Look>, span: nat) {
    && looks != [] && 2 <= looks[0].len < 50 && |looks[0].table| == 258 && looks[0].span == looks[0].len
    && looks[|looks| - 1].span == span && forall a: nat :: 1 <= a < |looks| ==> Onward(looks, a)
  }

  lemma ChainFirst(len: nat, table: seq<nat>)
    requires 2 <= len < 50 && |table| == 258
    ensures Chain([Look(len, table, len)], len)
  {
  }

  lemma ChainMore(looks: seq<Look>, span: nat, l: Look)
    requires Chain(looks, span) && |looks| < span && |l.table| == 258 && !TooLong(|looks|, l.len)
    requires l.span == Wider(span, |looks|, l.len, l.table)
    ensures Chain(looks + [l], l.span)
  {
    hide TooLong, Wider;
    var more := looks + [l];
    forall a: nat | 1 <= a < |more| ensures Onward(more, a) {
      if a < |looks| {
        assert Onward(looks, a);
      }
    }
  }

  lemma {:induction false} SpansGrow(looks: seq<Look>, span: nat, a: nat)
    requires Chain(looks, span) && a < |looks|
    ensures looks[a].span <= span && |looks[a].table| == 258 && looks[a].len <= 50
    decreases |looks| - a
  {
    if 1 <= a {
      assert Onward(looks, a);
    }
    if a + 1 < |looks| {
      assert Onward(looks, a + 1);
      SpansGrow(looks, span, a + 1);
    }
  }

  // ---------- Ways and their costs ----------

  /** The way from a to b has been tried. */
  predicate Tried(v: View, looks: seq<Look>, a: nat, b: nat) {
    && a < |looks| && a < b <= looks[a].span && v.at + looks[a].span <= |v.m| && |looks[a].table| == 258
    && looks[a].len <= 257 && (b == a + 1 || b - a <= looks[a].len)
  }

  function WayCost(v: View, costs: Costs, looks: seq<Look>, a: nat, b: nat): nat
    requires Tried(v, looks, a, b)
  {
    if b == a + 1 then costs.literal(v.m[v.at + a]) else costs.pair(b - a, looks[a].table[b - a])
  }

  function WayToken(v: View, looks: seq<Look>, a: nat, b: nat): Token
    requires Tried(v, looks, a, b)
  {
    if b == a + 1 then Literal(v.m[v.at + a]) else Match(b - a, looks[a].table[b - a])
  }

  lemma TriedMore(v: View, looks: seq<Look>, l: Look, a: nat, b: nat, costs: Costs)
    requires a < |looks|
    ensures Tried(v, looks + [l], a, b) <==> Tried(v, looks, a, b)
    ensures Tried(v, looks, a, b) ==> WayCost(v, costs, looks + [l], a, b) == WayCost(v, costs, looks, a, b)
    ensures (looks + [l])[a] == looks[a]
  {
  }

  // ---------- The least number of bits ----------

  /** Node k is reached by a way tried from one of the first n nodes, and its bits are those of that way. */
  predicate Via(v: View, costs: Costs, ns: seq<DecisionNode>, looks: seq<Look>, n: nat, k: nat)
    requires k < |ns|
  {
    && v.at <= ns[k].path < v.at + n && Tried(v, looks, ns[k].path - v.at, k)
    && var a := ns[k].path - v.at;
       ns[k].numbits == ns[a].numbits + WayCost(v, costs, looks, a, k)
       && (k > a + 1 ==> ns[k].link == looks[a].table[k - a])
  }

  /** No way tried from one of the first n nodes leads to node k with fewer bits. */
  predicate AtMost(v: View, costs: Costs, ns: seq<DecisionNode>, looks: seq<Look>, n: nat, k: nat)
    requires k < |ns|
  {
    forall a: nat :: a < n && Tried(v, looks, a, k) ==>
      ns[k].numbits <= ns[a].numbits + WayCost(v, costs, looks, a, k)
  }

  /** Both, unless node k has not been reached. */
  predicate Best(v: View, costs: Costs, ns: seq<DecisionNode>, looks: seq<Look>, n: nat, k: nat) {
    && k < |ns| && AtMost(v, costs, ns, looks, n, k) && (ns[k].numbits == NO_COST || Via(v, costs, ns, looks, n, k))
  }

  /** All nodes up to e have the least number of bits. */
  predicate Least(v: View, costs: Costs, ns: seq<DecisionNode>, looks: seq<Look>, e: nat) {
    && ns != [] && ns[0].numbits == 0
    && forall k: nat :: 1 <= k <= e ==> Best(v, costs, ns, looks, |looks|, k) && ns[k].numbits < NO_COST
  }

  lemma LeastLess(v: View, costs: Costs, ns: seq<DecisionNode>, looks: seq<Look>, e: nat, e': nat)
    requires Least(v, costs, ns, looks, e) && e' <= e
    ensures Least(v, costs, ns, looks, e')
  {
    hide Best;
  }

  /** Nodes that agree but for their queues. */
  predicate SameWays(ns: seq<DecisionNode>, ns': seq<DecisionNode>, e: nat) {
    |ns'| == |ns| && forall k: nat :: k <= e && k < |ns| ==>
      ns'[k].numbits == ns[k].numbits && ns'[k].path == ns[k].path && ns'[k].link == ns[k].link
  }

  lemma LeastKept(v: View, costs: Costs, ns: seq<DecisionNode>, ns': seq<DecisionNode>, looks: seq<Look>, e: nat)
    requires Least(v, costs, ns, looks, e) && SameWays(ns, ns', e)
    ensures Least(v, costs, ns', looks, e)
  {
    hide WayCost, Tried;
    forall k: nat | 1 <= k <= e ensures Best(v, costs, ns', looks, |looks|, k) && ns'[k].numbits < NO_COST {
      assert Best(v, costs, ns, looks, |looks|, k);
      BestKept(v, costs, ns, ns', looks, |looks|, k, e);
    }
  }

  lemma BestKept(v: View, costs: Costs, ns: seq<DecisionNode>, ns': seq<DecisionNode>, looks: seq<Look>, n: nat, k: nat,
                 e: nat)
    requires Best(v, costs, ns, looks, n, k) && SameWays(ns, ns', e) && k <= e
    ensures Best(v, costs, ns', looks, n, k)
  {
    hide WayCost;
  }

  // ---------- Paths ----------

  /** A path over ways tried, from node 0 to node e. */
  ghost predicate Path(v: View, looks: seq<Look>, p: seq<nat>, e: nat) {
    if |p| <= 1 then p == [0] && e == 0
    else
      var b := p[|p| - 2];
      p[|p| - 1] == e && Tried(v, looks, b, e) && Path(v, looks, p[..|p| - 1], b)
  }

  ghost function PathCost(v: View, costs: Costs, looks: seq<Look>, p: seq<nat>, e: nat): nat
    requires Path(v, looks, p, e)
  {
    if |p| <= 1 then 0
    else
      var b := p[|p| - 2];
      PathCost(v, costs, looks, p[..|p| - 1], b) + WayCost(v, costs, looks, b, e)
  }

  ghost function PathTokens(v: View, looks: seq<Look>, p: seq<nat>, e: nat): seq<Token>
    requires Path(v, looks, p, e)
  {
    if |p| <= 1 then []
    else
      var b := p[|p| - 2];
      PathTokens(v, looks, p[..|p| - 1], b) + [WayToken(v, looks, b, e)]
  }

  /** No path costs less than the number in the table. */
  lemma {:induction false} NoneCheaper(v: View, costs: Costs, ns: seq<DecisionNode>, looks: seq<Look>, p: seq<nat>,
                                       e: nat)
    requires Least(v, costs, ns, looks, e) && Path(v, looks, p, e)
    ensures e < |ns| && ns[e].numbits <= PathCost(v, costs, looks, p, e)
    decreases |p|
  {
    hide WayCost, Best, Via;
    if |p| > 1 {
      var b := p[|p| - 2];
      LeastLess(v, costs, ns, looks, e, b);
      NoneCheaper(v, costs, ns, looks, p[..|p| - 1], b);
      WayAtMost(v, costs, ns, looks, b, e);
    }
  }

  lemma WayAtMost(v: View, costs: Costs, ns: seq<DecisionNode>, looks: seq<Look>, b: nat, e: nat)
    requires Least(v, costs, ns, looks, e) && Tried(v, looks, b, e)
    ensures e < |ns| && ns[e].numbits <= ns[b].numbits + WayCost(v, costs, looks, b, e)
  {
    hide WayCost, Via;
    assert Best(v, costs, ns, looks, |looks|, e);
  }

  /** One path costs just that, and its tokens are those of the table. */
  lemma {:induction false} PathOf(v: View, costs: Costs, ns: seq<DecisionNode>, looks: seq<Look>, e: nat)
    returns (p: seq<nat>)
    requires Least(v, costs, ns, looks, e) && Settled(v, ns, e)
    ensures Path(v, looks, p, e) && e < |ns| && PathCost(v, costs, looks, p, e) == ns[e].numbits
    ensures PathTokens(v, looks, p, e) == TokensTo(v, ns, e)
    decreases e
  {
    hide *;
    if e == 0 {
      p := [0];
      OnlyStart(v, costs, looks);
      NoWay(v, ns);
      LeastStart(v, costs, ns, looks, e);
    } else {
      var b := LastWay(v, costs, ns, looks, e);
      LeastLess(v, costs, ns, looks, e, b);
      SettledLess(v, ns, e, b);
      var q := PathOf(v, costs, ns, looks, b);
      p := q + [e];
      PathLonger(v, costs, looks, q, b, e);
      TokensStep(v, ns, e);
      LastToken(v, costs, ns, looks, e, b);
    }
  }

  lemma OnlyStart(v: View, costs: Costs, looks: seq<Look>)
    ensures Path(v, looks, [0], 0) && PathCost(v, costs, looks, [0], 0) == 0 && PathTokens(v, looks, [0], 0) == []
  {
  }

  lemma LeastStart(v: View, costs: Costs, ns: seq<DecisionNode>, looks: seq<Look>, e: nat)
    requires Least(v, costs, ns, looks, e)
    ensures ns != [] && ns[0].numbits == 0
  {
  }

  lemma LastWay(v: View, costs: Costs, ns: seq<DecisionNode>, looks: seq<Look>, e: nat) returns (b: nat)
    requires Least(v, costs, ns, looks, e) && Settled(v, ns, e) && e > 0
    ensures e < |ns| && ns[e].path == v.at + b && b < e && Tried(v, looks, b, e) && Arc(v, ns, e)
    ensures ns[e].numbits == ns[b].numbits + WayCost(v, costs, looks, b, e)
  {
    hide WayCost, AtMost, Arc, Way;
    assert Arc(v, ns, e) && Best(v, costs, ns, looks, |looks|, e);
    b := ns[e].path - v.at;
  }

  lemma PathLonger(v: View, costs: Costs, looks: seq<Look>, q: seq<nat>, b: nat, e: nat)
    requires Path(v, looks, q, b) && Tried(v, looks, b, e)
    ensures Path(v, looks, q + [e], e)
    ensures PathCost(v, costs, looks, q + [e], e)
            == PathCost(v, costs, looks, q, b) + WayCost(v, costs, looks, b, e)
    ensures PathTokens(v, looks, q + [e], e) == PathTokens(v, looks, q, b) + [WayToken(v, looks, b, e)]
  {
    hide WayCost, WayToken, Tried;
    assert (q + [e])[..|q|] == q && q[|q| - 1] == b;
  }

  lemma LastToken(v: View, costs: Costs, ns: seq<DecisionNode>, looks: seq<Look>, e: nat, b: nat)
    requires Least(v, costs, ns, looks, e) && 0 < e < |ns| && ns[e].path == v.at + b && Tried(v, looks, b, e)
    ensures v.at + b < |v.m| && TokenOf(v.m, v.at + b, v.at + e, ns[e].link) == WayToken(v, looks, b, e)
  {
    hide WayCost, AtMost;
    assert Best(v, costs, ns, looks, |looks|, e);
  }

  /** At the first node every way is tried. */
  lemma LeastFirst(v: View, costs: Costs, ns: seq<DecisionNode>, len: nat, table: seq<nat>)
    requires len < |ns| && 2 <= len <= 257 && |table| == 258 && v.at + len <= |v.m| && ns[0].numbits == 0
    requires forall k: nat :: 1 <= k <= len ==>
               ns[k].path == v.at && ns[k].numbits < NO_COST
               && ns[k].numbits == (if k == 1 then costs.literal(v.m[v.at]) as nat else costs.pair(k, table[k]) as nat)
               && (k > 1 ==> ns[k].link == table[k])
    ensures Least(v, costs, ns, [Look(len, table, len)], len)
  {
    var looks := [Look(len, table, len)];
    forall k: nat | 1 <= k <= len ensures Best(v, costs, ns, looks, |looks|, k) {
      assert Tried(v, looks, 0, k);
    }
  }

  // ---------- Trying the ways over one node ----------

  /** A node after a way with est bits over node path has been tried. */
  function Better(n: DecisionNode, est: nat, path: nat, link: nat): DecisionNode {
    if n.numbits <= est then n else DecisionNode(link, path, n.queue, est)
  }

  /** The ways from the last node to nodes before j have been tried, those to k and later ones not yet. */
  predicate SoFar(v: View, costs: Costs, ns: seq<DecisionNode>, looks: seq<Look>, j: nat, k: nat)
    requires looks != []
  {
    Best(v, costs, ns, looks, if k < j then |looks| else |looks| - 1, k)
  }

  predicate Trying(v: View, costs: Costs, ns: seq<DecisionNode>, looks: seq<Look>, span: nat, j: nat)
    requires looks != []
  {
    ns != [] && ns[0].numbits == 0 && forall k: nat :: 1 <= k <= span ==> SoFar(v, costs, ns, looks, j, k)
  }

  /** At first nothing has been tried, and nodes the span has been widened to are not reached. */
  lemma TryingNone(v: View, costs: Costs, ns: seq<DecisionNode>, ns': seq<DecisionNode>, looks: seq<Look>, l: Look,
                   span: nat)
    requires Chain(looks, span) && Least(v, costs, ns, looks, span) && |looks| < span <= l.span < |ns|
    requires |ns'| == |ns| && forall k: nat :: k < |ns| ==>
               ns'[k] == if span < k <= l.span then ns[k].(numbits := NO_COST) else ns[k]
    ensures Trying(v, costs, ns', looks + [l], l.span, |looks| + 1)
  {
    hide Best, Chain;
    var more := looks + [l];
    forall k: nat | 1 <= k <= l.span ensures SoFar(v, costs, ns', more, |more|, k) {
      if k <= span {
        assert SameWays(ns, ns', span);
        BestKept(v, costs, ns, ns', looks, |looks|, k, span);
        BestMore(v, costs, ns', looks, l, k);
      } else {
        BestNone(v, costs, ns', looks, l, span, k);
      }
    }
  }

  /** A further look does not matter to the nodes up to it, nor to ways from earlier ones. */
  lemma BestMore(v: View, costs: Costs, ns: seq<DecisionNode>, looks: seq<Look>, l: Look, k: nat)
    requires Best(v, costs, ns, looks, |looks|, k)
    ensures Best(v, costs, ns, looks + [l], |looks|, k)
    ensures k <= |looks| ==> Best(v, costs, ns, looks + [l], |looks| + 1, k)
  {
    hide WayCost, Tried;
    forall a: nat | a < |looks|
      ensures Tried(v, looks + [l], a, k) <==> Tried(v, looks, a, k)
      ensures Tried(v, looks, a, k) ==> WayCost(v, costs, looks + [l], a, k) == WayCost(v, costs, looks, a, k)
      ensures (looks + [l])[a] == looks[a] {
      TriedMore(v, looks, l, a, k, costs);
    }
    NotBack(v, looks + [l], |looks|, k);
  }

  lemma NotBack(v: View, looks: seq<Look>, a: nat, b: nat)
    ensures b <= a ==> !Tried(v, looks, a, b)
  {
  }

  lemma BestNone(v: View, costs: Costs, ns: seq<DecisionNode>, looks: seq<Look>, l: Look, span: nat, k: nat)
    requires Chain(looks, span) && span < k < |ns| && ns[k].numbits == NO_COST
    ensures Best(v, costs, ns, looks + [l], |looks|, k)
  {
    hide WayCost, Chain;
    forall a: nat | a < |looks| ensures !Tried(v, looks + [l], a, k) {
      SpansGrow(looks, span, a);
    }
  }

  /** One more way is tried. */
  lemma TryingMore(v: View, costs: Costs, ns: seq<DecisionNode>, ns': seq<DecisionNode>, looks: seq<Look>, span: nat,
                   j: nat, est: nat, link: nat)
    requires looks != [] && Trying(v, costs, ns, looks, span, j) && |looks| <= j < |ns| && est < NO_COST
    requires ns' == ns[j := Better(ns[j], est, v.at + |looks| - 1, link)]
    requires j <= span ==>
               var c := |looks| - 1;
               Tried(v, looks, c, j) && est == ns[c].numbits + WayCost(v, costs, looks, c, j)
               && (j > c + 1 ==> link == looks[c].table[j - c])
    ensures Trying(v, costs, ns', looks, span, j + 1)
  {
    hide Best, Better;
    var j' := j + 1;
    forall k: nat | 1 <= k <= span ensures SoFar(v, costs, ns', looks, j', k) {
      if k == j {
        assert SoFar(v, costs, ns, looks, j, k);
        BestTried(v, costs, ns, ns', looks, j, est, link);
      } else {
        assert SoFar(v, costs, ns, looks, j, k);
        BestElse(v, costs, ns, ns', looks, j, k, if k < j then |looks| else |looks| - 1);
      }
    }
  }

  lemma BestTried(v: View, costs: Costs, ns: seq<DecisionNode>, ns': seq<DecisionNode>, looks: seq<Look>,
                  j: nat, est: nat, link: nat)
    requires looks != [] && Best(v, costs, ns, looks, |looks| - 1, j) && |looks| <= j < |ns| && est < NO_COST
    requires ns' == ns[j := Better(ns[j], est, v.at + |looks| - 1, link)]
    requires var c := |looks| - 1;
             Tried(v, looks, c, j) && est == ns[c].numbits + WayCost(v, costs, looks, c, j)
             && (j > c + 1 ==> link == looks[c].table[j - c])
    ensures Best(v, costs, ns', looks, |looks|, j)
  {
    hide WayCost, Tried;
    forall a: nat | a < |looks| && Tried(v, looks, a, j)
      ensures ns'[j].numbits <= ns'[a].numbits + WayCost(v, costs, looks, a, j) {
      NotBack(v, looks, j, j);
      assert a != j && ns'[a] == ns[a];
    }
    if ns'[j] == ns[j] && ns[j].numbits != NO_COST {
      NotBack(v, looks, ns[j].path - v.at, j);
    }
  }

  lemma BestElse(v: View, costs: Costs, ns: seq<DecisionNode>, ns': seq<DecisionNode>, looks: seq<Look>, j: nat, k: nat,
                 n: nat)
    requires Best(v, costs, ns, looks, n, k) && n <= |looks| <= j < |ns| && |ns'| == |ns| && k != j
             && ns' == ns[j := ns'[j]]
    ensures Best(v, costs, ns', looks, n, k)
  {
    hide WayCost, Tried;
  }

  /** All have been tried. */
  lemma TryingAll(v: View, costs: Costs, ns: seq<DecisionNode>, looks: seq<Look>, j: nat)
    requires looks != []
    requires var l := looks[|looks| - 1];
             Trying(v, costs, ns, looks, l.span, j) && j > |looks| && j >= |looks| + l.len
             && forall k: nat :: 1 <= k <= l.span ==> k < |ns| && ns[k].numbits < NO_COST
    ensures Least(v, costs, ns, looks, looks[|looks| - 1].span)
  {
    hide Best;
    var span := looks[|looks| - 1].span;
    forall k: nat | 1 <= k <= span ensures Best(v, costs, ns, looks, |looks|, k) {
      assert SoFar(v, costs, ns, looks, j, k);
      if k >= j {
        BestBeyond(v, costs, ns, looks, k);
      }
    }
  }

  lemma BestBeyond(v: View, costs: Costs, ns: seq<DecisionNode>, looks: seq<Look>, k: nat)
    requires looks != [] && Best(v, costs, ns, looks, |looks| - 1, k)
    requires k > |looks| && k >= |looks| + looks[|looks| - 1].len
    ensures Best(v, costs, ns, looks, |looks|, k)
  {
    hide WayCost;
  }

  // ---------- A whole look ahead ----------

  /** It has come to its span: every node up to there has been looked at. */
  ghost predicate EndsAtSpan(v: View, costs: Costs, trees: seq<MT.Tree>, ns: seq<DecisionNode>, looks: seq<Look>,
                             e: nat) {
    && e == |looks| && Chain(looks, e) && AllHunted(v, trees, ns, looks) && Settled(v, ns, e)
    && Least(v, costs, ns, looks, e)
  }

  /** It has come to a match that is too long, at the last node looked at. */
  ghost predicate EndsLong(v: View, costs: Costs, trees: seq<MT.Tree>, ns: seq<DecisionNode>, looks: seq<Look>,
                           e: nat) {
    && |looks| >= 2
    && var c := |looks| - 1;
       Chain(looks[..c], looks[c - 1].span) && c < looks[c - 1].span && AllHunted(v, trees, ns, looks)
       && Settled(v, ns, c) && Least(v, costs, ns, looks[..c], c)
       && |looks[c].table| == 258 && TooLong(c, looks[c].len) && 2 <= looks[c].len <= 257
       && e == c + looks[c].len < |ns| && Arc(v, ns, e) && ns[e].path == v.at + c
       && ns[e].link == looks[c].table[looks[c].len]
  }

  ghost predicate Explored(v: View, costs: Costs, trees: seq<MT.Tree>, ns: seq<DecisionNode>, looks: seq<Look>,
                           e: nat) {
    EndsAtSpan(v, costs, trees, ns, looks, e) || EndsLong(v, costs, trees, ns, looks, e)
  }

  lemma SpanEnd(v: View, costs: Costs, trees: seq<MT.Tree>, ns: seq<DecisionNode>, looks: seq<Look>, e: nat)
    requires e == |looks| && Chain(looks, e) && AllHunted(v, trees, ns, looks) && Settled(v, ns, e)
    requires Least(v, costs, ns, looks, e)
    ensures Explored(v, costs, trees, ns, looks, e)
  {
    hide Chain, AllHunted, Settled, Least;
  }

  lemma LongEnd(v: View, costs: Costs, trees: seq<MT.Tree>, ns: seq<DecisionNode>, looks: seq<Look>, l: Look, e: nat,
                span: nat)
    requires looks != [] && Chain(looks, span) && |looks| < span && AllHunted(v, trees, ns, looks + [l])
    requires var c := |looks|;
             && Settled(v, ns, c) && Least(v, costs, ns, looks, c) && |l.table| == 258 && TooLong(c, l.len)
             && 2 <= l.len <= 257 && e == c + l.len < |ns| && Arc(v, ns, e) && ns[e].path == v.at + c
             && ns[e].link == l.table[l.len]
    ensures Explored(v, costs, trees, ns, looks + [l], e)
  {
    hide AllHunted, Settled, Least, Arc, TooLong;
    assert (looks + [l])[..|looks|] == looks;
  }

  /** The trees when it has ended: every position up to its end has been inserted, but for a long run of one byte
      behind the last match. */
  ghost predicate LeftBehind(v: View, trees: seq<MT.Tree>, looks: seq<Look>, e: nat, after: seq<MT.Tree>) {
    && |trees| == MF.NUM_TREES && looks != [] && v.at + e + 1 <= |v.m|
    && if e == |looks| then after == F.InTurn(v.m, trees, v.at, e)
       else
         var c, l := |looks| - 1, looks[|looks| - 1];
         && |l.table| == 258 && 2 <= l.len <= 257 && e == c + l.len
         && after == Skipped(v.m, F.InTurn(v.m, trees, v.at, c + 1), v.at + c, l.len, l.table[l.len])
  }

  /** The positions that a match of length len at position at passes over. */
  ghost function Skipped(m: seq<byte>, trees: seq<MT.Tree>, at: nat, len: nat, link: nat): seq<MT.Tree>
    requires |trees| == MF.NUM_TREES && 2 <= len && at + len + 1 <= |m|
  {
    F.InTurn(m, trees, at + 1, if link == 3 && len > 16 then 1 else len - 1)
  }

  lemma SkippedIs(m: seq<byte>, trees: seq<MT.Tree>, at: nat, len: nat, link: nat)
    requires |trees| == MF.NUM_TREES && 2 <= len && at + len + 1 <= |m|
    ensures Skipped(m, trees, at, len, link)
            == F.InTurn(m, trees, at + 1, if link == 3 && len > 16 then 1 else len - 1)
  {
    hide F.InTurn;
  }

  lemma SpanLeft(v: View, trees: seq<MT.Tree>, looks: seq<Look>, e: nat)
    requires |trees| == MF.NUM_TREES && looks != [] && v.at + e + 1 <= |v.m| && e == |looks|
    ensures LeftBehind(v, trees, looks, e, F.InTurn(v.m, trees, v.at, e))
  {
    hide F.InTurn;
  }

  lemma LongLeft(v: View, trees: seq<MT.Tree>, looks: seq<Look>, l: Look, e: nat, after: seq<MT.Tree>)
    requires |trees| == MF.NUM_TREES && v.at + e + 1 <= |v.m| && |l.table| == 258 && 2 <= l.len <= 257
             && e == |looks| + l.len
    requires after == Skipped(v.m, F.InTurn(v.m, trees, v.at, |looks| + 1), v.at + |looks|, l.len, l.table[l.len])
    ensures LeftBehind(v, trees, looks + [l], e, after)
  {
    hide F.InTurn, Skipped;
  }

  /** p costs no more than any other path to the same node. */
  ghost predicate Cheapest(v: View, costs: Costs, looks: seq<Look>, p: seq<nat>, e: nat) {
    && Path(v, looks, p, e)
    && forall p' :: Path(v, looks, p', e) ==> PathCost(v, costs, looks, p, e) <= PathCost(v, costs, looks, p', e)
  }

  /** At its span, the tokens of the look ahead are those of a cheapest path over all ways tried. */
  lemma SpanCheapest(v: View, costs: Costs, trees: seq<MT.Tree>, ns: seq<DecisionNode>, looks: seq<Look>, e: nat)
    returns (p: seq<nat>)
    requires EndsAtSpan(v, costs, trees, ns, looks, e)
    ensures Cheapest(v, costs, looks, p, e) && TokensTo(v, ns, e) == PathTokens(v, looks, p, e)
  {
    hide Path, PathCost, Chain, AllHunted, Settled, Least, TokensTo, PathTokens;
    p := PathOf(v, costs, ns, looks, e);
    AllDearer(v, costs, ns, looks, p, e);
  }

  /** Before a match that is too long, they are those of a cheapest path to the place where it was found. */
  lemma LongCheapest(v: View, costs: Costs, trees: seq<MT.Tree>, ns: seq<DecisionNode>, looks: seq<Look>, e: nat)
    returns (p: seq<nat>)
    requires EndsLong(v, costs, trees, ns, looks, e)
    ensures var c := |looks| - 1;
            && Cheapest(v, costs, looks[..c], p, c) && |looks[c].table| == 258 && looks[c].len <= 257
            && TokensTo(v, ns, e) == PathTokens(v, looks[..c], p, c)
               + [Match(looks[c].len, looks[c].table[looks[c].len])]
  {
    hide Path, PathCost, Chain, AllHunted, Settled, Least, TokensTo, PathTokens, Arc, TooLong;
    var c := |looks| - 1;
    p := PathOf(v, costs, ns, looks[..c], c);
    AllDearer(v, costs, ns, looks[..c], p, c);
    TokensStep(v, ns, e);
  }

  lemma AllDearer(v: View, costs: Costs, ns: seq<DecisionNode>, looks: seq<Look>, p: seq<nat>, e: nat)
    requires Least(v, costs, ns, looks, e) && Path(v, looks, p, e) && e < |ns|
    requires PathCost(v, costs, looks, p, e) == ns[e].numbits
    ensures Cheapest(v, costs, looks, p, e)
  {
    hide Path, PathCost, Least;
    forall p' | Path(v, looks, p', e)
      ensures PathCost(v, costs, looks, p, e) <= PathCost(v, costs, looks, p', e) {
      NoneCheaper(v, costs, ns, looks, p', e);
    }
  }
}
