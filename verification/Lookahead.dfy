/** The decision nodes of the parser: a table of shortest ways through the next positions, each with
    the repeated offsets that go with it. */
module Lookahead {
  import opened Bits
  import opened Tokens
  import opened RepeatedOffsets
  import S = Slots

  /** A cost estimate is a sum of at most three bytes. */
  type Cost = c: nat | c <= 765

  /** The estimates: any functions of a byte, and of a length and a distance code. */
  datatype Costs = Costs(literal: byte -> Cost, pair: (nat, nat) -> Cost)

  const NO_COST: nat := 0xFFFF_FFFF

  datatype DecisionNode = DecisionNode(link: nat, path: nat, queue: Queue, numbits: nat)

  /** The bytes, where the data starts, where the look ahead starts, the end of the chunk, and the queue there. */
  datatype View = View(m: seq<byte>, start: nat, at: nat, limit: nat, queue: Queue)

  // ---------- Queues along the data ----------

  /** Queue offsets stay inside the data before a position. */
  predicate QueueOk(q: Queue, start: nat, pos: nat) {
    start <= pos && if pos == start then q == FIRST_QUEUE else QueueInside(q, pos - start)
  }

  lemma QueueOn(q: Queue, start: nat, pos: nat, pos': nat)
    requires QueueOk(q, start, pos) && pos <= pos'
    ensures QueueOk(q, start, pos')
  {
  }

  lemma QueueAfter(m: seq<byte>, q: Queue, start: nat, pos: nat, l: nat, d: nat)
    requires QueueOk(q, start, pos) && Usable(m, pos, start, q, l, d)
    ensures QueueOk(Renew(q, d), start, pos + l)
  {
    hide Repeats;
    RepeatsOffset(m, pos, Offset(q, d), l);
  }

  lemma RepeatsOffset(m: seq<byte>, s: nat, off: nat, l: nat)
    requires Repeats(m, s, off, l)
    ensures 1 <= off <= s && s + l <= |m|
  {
  }

  // ---------- Arcs ----------

  /** The queue after the way from a to b. */
  function After(q: Queue, a: nat, b: nat, link: nat): Queue {
    if b == a + 1 then q else Renew(q, link)
  }

  function TokenOf(m: seq<byte>, a: nat, b: nat, link: nat): Token
    requires a < |m| && a < b
  {
    if b == a + 1 then Literal(m[a]) else Match(b - a, link)
  }

  /** One can go from a to b: by a literal, or by a match that is usable at a. */
  predicate Way(v: View, a: nat, b: nat, q: Queue, link: nat) {
    v.at <= a < b <= v.limit <= |v.m| && (b == a + 1 || Usable(v.m, a, v.start, q, b - a, link))
  }

  predicate InChunk(v: View) {
    v.start <= v.at && v.start % FRAME == 0 && v.at < v.limit <= |v.m| && v.limit <= v.at - v.at % FRAME + FRAME
  }

  /** A way is a token that stands for the bytes it passes. */
  lemma WayPlays(v: View, a: nat, b: nat, q: Queue, link: nat)
    requires InChunk(v) && Way(v, a, b, q, link) && v.start <= a
    ensures var p := Past(v.m[v.start..a], q); var t := TokenOf(v.m, a, b, link);
            Fits(p, t) && Play(p, t) == Past(v.m[v.start..b], After(q, a, b, link))
  {
    hide Repeats, Copy;
    ChunkRoom(v, a, b);
    if b == a + 1 {
      assert v.m[v.start..a] + [v.m[a]] == v.m[v.start..b];
    } else {
      var off := Offset(q, link);
      RepeatsOffset(v.m, a, off, b - a);
      CopyRepeats(v.m, v.start, a, off, b - a);
    }
  }

  lemma ChunkRoom(v: View, a: nat, b: nat)
    requires InChunk(v) && v.at <= a < b <= v.limit
    ensures (a - v.start) % FRAME + (b - a) <= FRAME
  {
    var i, j := v.start / 32768, v.at / 32768;
    assert v.start == 32768 * i && v.at == 32768 * j + v.at % 32768;
    assert a - v.start == 32768 * (j - i) + (a - 32768 * j);
  }

  // ---------- The table ----------

  /** The node i is reached from an earlier node. */
  predicate Arc(v: View, ns: seq<DecisionNode>, i: nat) {
    && 1 <= i < |ns| && v.at <= ns[i].path < v.at + i
    && Way(v, ns[i].path, v.at + i, ns[ns[i].path - v.at].queue, ns[i].link)
  }

  /** Nodes up to c have been visited: their ways and their queues are final. */
  predicate Settled(v: View, ns: seq<DecisionNode>, c: nat) {
    && c < |ns| && ns[0].queue == v.queue
    && forall i: nat :: 1 <= i <= c ==>
       Arc(v, ns, i) && ns[i].queue == After(ns[ns[i].path - v.at].queue, ns[i].path, v.at + i, ns[i].link)
  }

  predicate Cheap(ns: seq<DecisionNode>, i: nat) {
    i < |ns| && ns[i].numbits <= 765 * i
  }

  /** A node after c is reached from one of the visited ones. */
  predicate Ahead(v: View, ns: seq<DecisionNode>, c: nat, i: nat) {
    Arc(v, ns, i) && ns[i].path <= v.at + c && Cheap(ns, i)
  }

  /** So are all nodes after c up to the span. */
  predicate Open(v: View, ns: seq<DecisionNode>, c: nat, span: nat) {
    span < |ns| && forall i: nat :: c < i <= span ==> Ahead(v, ns, c, i)
  }

  lemma SettledLess(v: View, ns: seq<DecisionNode>, c: nat, c': nat)
    requires Settled(v, ns, c) && c' <= c
    ensures Settled(v, ns, c')
  {
    hide Arc;
  }

  /** Changing nodes after c does not matter to the visited ones. */
  lemma SettledKept(v: View, ns: seq<DecisionNode>, ns': seq<DecisionNode>, c: nat)
    requires Settled(v, ns, c) && |ns'| == |ns| && forall i :: 0 <= i <= c ==> ns'[i] == ns[i]
    ensures Settled(v, ns', c)
  {
    hide Way, After;
    forall i: nat | 1 <= i <= c
      ensures Arc(v, ns', i)
              && ns'[i].queue == After(ns'[ns'[i].path - v.at].queue, ns'[i].path, v.at + i, ns'[i].link) {
      assert Arc(v, ns, i);
    }
  }

  lemma AheadKept(v: View, ns: seq<DecisionNode>, ns': seq<DecisionNode>, c: nat, i: nat)
    requires Ahead(v, ns, c, i) && |ns'| == |ns| && ns'[i] == ns[i] && forall j :: 0 <= j <= c && j < |ns| ==>
               ns'[j] == ns[j]
    ensures Ahead(v, ns', c, i)
  {
    hide Way;
  }

  /** A node whose way has just been found. */
  lemma AheadMade(v: View, ns: seq<DecisionNode>, c: nat, i: nat, q: Queue)
    requires c < i < |ns| && ns[i].path == v.at + c && ns[c].queue == q && Way(v, v.at + c, v.at + i, q, ns[i].link)
    requires ns[i].numbits <= 765 * c + 765
    ensures Ahead(v, ns, c, i)
  {
    hide Way;
    assert 765 * c + 765 <= 765 * i;
  }

  /** Visiting the next node makes its queue final. */
  lemma SettleNext(v: View, ns: seq<DecisionNode>, c: nat, span: nat, q: Queue)
    requires Settled(v, ns, c) && Open(v, ns, c, span) && c < span && Ahead(v, ns, c, c + 1)
    requires q == After(ns[ns[c + 1].path - v.at].queue, ns[c + 1].path, v.at + (c + 1), ns[c + 1].link)
    ensures var ns' := ns[c + 1 := ns[c + 1].(queue := q)];
            Settled(v, ns', c + 1) && Open(v, ns', c + 1, span) && Cheap(ns', c + 1)
  {
    hide Way, After;
    var ns' := ns[c + 1 := ns[c + 1].(queue := q)];
    var c' := c + 1;
    forall i: nat | 1 <= i <= c + 1
      ensures Arc(v, ns', i)
              && ns'[i].queue == After(ns'[ns'[i].path - v.at].queue, ns'[i].path, v.at + i, ns'[i].link) {
      assert i <= c ==> Arc(v, ns, i);
    }
    forall i: nat | c' < i <= span ensures Ahead(v, ns', c', i) {
      assert Ahead(v, ns, c, i);
    }
  }

  /** The queue of every visited node has offsets inside the data. */
  lemma {:induction false} SettledQueue(v: View, ns: seq<DecisionNode>, c: nat, i: nat)
    requires Settled(v, ns, c) && i <= c && QueueOk(v.queue, v.start, v.at)
    ensures i < |ns| && QueueOk(ns[i].queue, v.start, v.at + i)
    decreases i
  {
    hide Usable, QueueOk;
    if i > 0 {
      assert Arc(v, ns, i);
      var j := ns[i].path - v.at;
      SettledQueue(v, ns, c, j);
      if i == j + 1 {
        QueueOn(ns[j].queue, v.start, v.at + j, v.at + i);
      } else {
        QueueAfter(v.m, ns[j].queue, v.start, v.at + j, i - j, ns[i].link);
      }
    }
  }

  // ---------- Routes ----------

  /** The last node e has been reached, and q is the queue there. */
  predicate Reached(v: View, ns: seq<DecisionNode>, e: nat, q: Queue) {
    Arc(v, ns, e) && Settled(v, ns, ns[e].path - v.at)
      && q == After(ns[ns[e].path - v.at].queue, ns[e].path, v.at + e, ns[e].link)
  }

  lemma SettledReached(v: View, ns: seq<DecisionNode>, c: nat, i: nat)
    requires Settled(v, ns, c) && 1 <= i <= c
    ensures Reached(v, ns, i, ns[i].queue)
  {
    hide Way, After;
    assert Arc(v, ns, i);
    SettledLess(v, ns, c, ns[i].path - v.at);
  }

  /** The tokens on the way to node i. */
  ghost function TokensTo(v: View, ns: seq<DecisionNode>, i: nat): seq<Token>
    decreases i
  {
    if !Arc(v, ns, i) then []
    else TokensTo(v, ns, ns[i].path - v.at) + [TokenOf(v.m, ns[i].path, v.at + i, ns[i].link)]
  }

  /** They stand for the bytes up to there, and leave the queue of the node. */
  lemma {:induction false} TokensPlay(v: View, ns: seq<DecisionNode>, i: nat, q: Queue)
    requires InChunk(v) && Reached(v, ns, i, q)
    ensures v.at + i <= |v.m|
    ensures var p := Past(v.m[v.start..v.at], v.queue);
            FitsAll(p, TokensTo(v, ns, i)) && PlayAll(p, TokensTo(v, ns, i)) == Past(v.m[v.start..v.at + i], q)
    decreases i
  {
    hide Way, After, Fits, Play, FitsAll, PlayAll, TokenOf, Settled, TokensTo, InChunk;
    StartBefore(v);
    TokensStep(v, ns, i);
    var p := Past(v.m[v.start..v.at], v.queue);
    var j := ns[i].path - v.at;
    var before := TokensTo(v, ns, j);
    var t := TokenOf(v.m, ns[i].path, v.at + i, ns[i].link);
    if j == 0 {
      NoWay(v, ns);
      PlayNone(p);
    } else {
      SettledReached(v, ns, j, j);
      TokensPlay(v, ns, j, ns[j].queue);
    }
    WayPlays(v, ns[i].path, v.at + i, ns[j].queue, ns[i].link);
    PlayConcat(p, before, [t]);
    PlayOne(PlayAll(p, before), t);
  }

  lemma StartBefore(v: View)
    requires InChunk(v)
    ensures v.start <= v.at <= |v.m|
  {
  }

  lemma TokensStep(v: View, ns: seq<DecisionNode>, i: nat)
    requires Arc(v, ns, i)
    ensures ns[i].path < |v.m| && v.at + i <= |v.m|
            && TokensTo(v, ns, i) == TokensTo(v, ns, ns[i].path - v.at)
               + [TokenOf(v.m, ns[i].path, v.at + i, ns[i].link)]
  {
  }

  lemma NoWay(v: View, ns: seq<DecisionNode>)
    ensures TokensTo(v, ns, 0) == []
    ensures Settled(v, ns, 0) ==> ns[0].queue == v.queue
  {
  }
}
