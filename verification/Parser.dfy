/** The parser: it finds matches position by position, looks ahead for the cheapest way through them, and
    emits tokens that stand for exactly the bytes passed. */
module Parser {
  import opened Bits
  import opened Tokens
  import opened RepeatedOffsets
  import opened Lookahead
  import opened NodeTable
  import opened Ways
  import F = Searching
  import MatchTree
  import MF = MatchFinder
  import X = Expiry
  import S = Slots
  import ST = SearchTrees

  /** What the result does not depend on: the cost estimates, as they are after a number of steps and chunks, and
      whether the first block is then parsed again. Counting goes on when it is. */
  datatype Heuristics = Heuristics(costs: nat -> Costs, redo: nat -> bool)

  /** Tokens stand for the data up to a position, and leave this queue. */
  ghost predicate Stands(m: seq<byte>, start: nat, pos: nat, q: Queue, ts: seq<Token>) {
    && start <= pos <= |m| && QueueOk(q, start, pos)
    && FitsAll(Past([], FIRST_QUEUE), ts) && PlayAll(Past([], FIRST_QUEUE), ts) == Past(m[start..pos], q)
  }

  lemma StandsFirst(m: seq<byte>, start: nat)
    requires start <= |m|
    ensures Stands(m, start, start, FIRST_QUEUE, [])
  {
  }

  lemma StandsMore(m: seq<byte>, start: nat, pos: nat, q: Queue, ts: seq<Token>, pos': nat, q': Queue, more: seq<Token>)
    requires Stands(m, start, pos, q, ts) && pos <= pos' <= |m| && QueueOk(q', start, pos')
    requires FitsAll(Past(m[start..pos], q), more) && PlayAll(Past(m[start..pos], q), more) == Past(m[start..pos'], q')
    ensures Stands(m, start, pos', q', ts + more)
  {
    hide QueueOk, FitsAll, PlayAll;
    PlayConcat(Past([], FIRST_QUEUE), ts, more);
  }

  lemma StandsParts(m: seq<byte>, start: nat, pos: nat, q: Queue, ts: seq<Token>)
    requires Stands(m, start, pos, q, ts)
    ensures start <= pos <= |m| && QueueOk(q, start, pos)
    ensures pos > start ==> QueueInside(q, pos - start)
  {
    hide FitsAll, PlayAll;
  }

  /** Bytes read later do not matter. */
  lemma StandsReads(m: seq<byte>, m': seq<byte>, start: nat, pos: nat, q: Queue, ts: seq<Token>)
    requires Stands(m, start, pos, q, ts) && |m'| == |m| && m[..pos] == m'[..pos]
    ensures Stands(m', start, pos, q, ts)
  {
    hide FitsAll, PlayAll;
    assert m[start..pos] == m[..pos][start..] == m'[..pos][start..] == m'[start..pos];
  }

  /** One way, as a token. */
  lemma StandsWay(v: View, pos: nat, q: Queue, ts: seq<Token>, link: nat)
    requires Stands(v.m, v.start, v.at, v.queue, ts) && InChunk(v) && q == v.queue && Way(v, v.at, pos, q, link)
    ensures v.at < |v.m| && v.at < pos
            && Stands(v.m, v.start, pos, After(q, v.at, pos, link), ts + [TokenOf(v.m, v.at, pos, link)])
  {
    hide FitsAll, PlayAll, Fits, Play, Usable;
    WayPlays(v, v.at, pos, q, link);
    if pos == v.at + 1 {
      QueueOn(q, v.start, v.at, pos);
    } else {
      QueueAfter(v.m, q, v.start, v.at, pos - v.at, link);
    }
    PlayOne(Past(v.m[v.start..v.at], q), TokenOf(v.m, v.at, pos, link));
    StandsMore(v.m, v.start, v.at, q, ts, pos, After(q, v.at, pos, link), [TokenOf(v.m, v.at, pos, link)]);
  }

  /** A whole route. */
  lemma StandsRoute(v: View, ns: seq<DecisionNode>, e: nat, q: Queue, ts: seq<Token>)
    requires Stands(v.m, v.start, v.at, v.queue, ts) && InChunk(v) && Reached(v, ns, e, q)
    ensures Stands(v.m, v.start, v.at + e, q, ts + TokensTo(v, ns, e))
  {
    hide FitsAll, PlayAll, Way, TokensTo, After, QueueOk;
    TokensPlay(v, ns, e, q);
    StandsParts(v.m, v.start, v.at, v.queue, ts);
    ReachedQueue(v, ns, e, q);
    StandsMore(v.m, v.start, v.at, v.queue, ts, v.at + e, q, TokensTo(v, ns, e));
  }

  lemma ReachedQueue(v: View, ns: seq<DecisionNode>, e: nat, q: Queue)
    requires Reached(v, ns, e, q) && QueueOk(v.queue, v.start, v.at)
    ensures QueueOk(q, v.start, v.at + e)
  {
    hide QueueOk, Usable;
    var j := ns[e].path - v.at;
    SettledQueue(v, ns, j, j);
    if e == j + 1 {
      QueueOn(ns[j].queue, v.start, v.at + j, v.at + e);
    } else {
      QueueAfter(v.m, ns[j].queue, v.start, v.at + j, e - j, ns[e].link);
    }
  }

  lemma TableLess(m: seq<byte>, s: nat, start: nat, q: Queue, len: nat, table: seq<nat>, len': nat)
    requires TableUsable(m, s, start, q, len, table) && len' <= len
    ensures TableUsable(m, s, start, q, len', table)
  {
    hide Usable;
  }

  // ---------- What passing over bytes does to the trees ----------

  /** The positions from a to b have been passed, or everything up to b again from the beginning. */
  ghost predicate Grew(m: seq<byte>, before: seq<MatchTree.Tree>, a: nat, b: nat, after: seq<MatchTree.Tree>) {
    (a <= b && F.Passes(m, before, a, b, after)) || F.Passes(m, F.NoTrees(), S.WINDOW, b, after)
  }

  lemma GrewNone(m: seq<byte>, trees: seq<MatchTree.Tree>, a: nat)
    requires |trees| == MF.NUM_TREES
    ensures Grew(m, trees, a, a, trees)
  {
    hide F.Passes;
    F.PassesNone(m, trees, a);
  }

  lemma GrewAnew(m: seq<byte>, before: seq<MatchTree.Tree>, a: nat)
    ensures Grew(m, before, a, S.WINDOW, F.NoTrees()) && S.WINDOW == 131072
  {
    hide F.Passes;
    F.PassesNone(m, F.NoTrees(), S.WINDOW);
  }

  lemma GrewOn(m: seq<byte>, t: seq<MatchTree.Tree>, a: nat, b: nat, c: nat, u: seq<MatchTree.Tree>,
               v: seq<MatchTree.Tree>)
    requires Grew(m, t, a, b, u) && F.Passes(m, u, b, c, v) && S.WINDOW <= b <= c
    ensures Grew(m, t, a, c, v)
  {
    hide F.Passes;
    if F.Passes(m, F.NoTrees(), S.WINDOW, b, u) {
      F.PassesOn(m, S.WINDOW, b, c, F.NoTrees(), u, v);
    } else {
      F.PassesOn(m, a, b, c, t, u, v);
    }
  }

  lemma GrewMore(m: seq<byte>, t: seq<MatchTree.Tree>, a: nat, b: nat, c: nat, u: seq<MatchTree.Tree>,
                 v: seq<MatchTree.Tree>)
    requires Grew(m, t, a, b, u) && Grew(m, u, b, c, v) && S.WINDOW <= b
    ensures Grew(m, t, a, c, v)
  {
    hide F.Passes;
    if b <= c && F.Passes(m, u, b, c, v) {
      GrewOn(m, t, a, b, c, u, v);
    }
  }

  /** The trees a chunk starts with: none, or those left with the positions taken out put back. */
  ghost predicate Begun(m: seq<byte>, first: bool, before: seq<MatchTree.Tree>, at: nat, after: seq<MatchTree.Tree>) {
    if first then after == F.NoTrees()
    else
      && |before| == MF.NUM_TREES && S.WINDOW <= at && at + 1 <= |m|
      && after == F.PutIn(m, before, at - 50, 50, at + 4 - S.WINDOW)
  }

  lemma BegunFirst(m: seq<byte>, before: seq<MatchTree.Tree>, at: nat)
    ensures Begun(m, true, before, at, F.NoTrees())
  {
  }

  lemma BegunAgain(m: seq<byte>, before: seq<MatchTree.Tree>, at: nat, after: seq<MatchTree.Tree>)
    requires |before| == MF.NUM_TREES && S.WINDOW <= at && at + 1 <= |m|
             && after == F.PutIn(m, before, at - 50, 50, at + 4 - S.WINDOW)
    ensures Begun(m, false, before, at, after)
  {
  }

  /** The trees a whole chunk leaves: what it starts with, grown by the positions passed, the last 50 taken out. */
  ghost predicate Leaves(m: seq<byte>, first: bool, before: seq<MatchTree.Tree>, a: nat, b: nat,
                         after: seq<MatchTree.Tree>) {
    exists begun, grown :: Chunk(m, first, before, a, b, begun, grown, after)
  }

  ghost predicate Chunk(m: seq<byte>, first: bool, before: seq<MatchTree.Tree>, a: nat, b: nat,
                        begun: seq<MatchTree.Tree>, grown: seq<MatchTree.Tree>, after: seq<MatchTree.Tree>) {
    && Begun(m, first, before, a, begun) && Grew(m, begun, a, b, grown)
    && |grown| == MF.NUM_TREES && S.WINDOW <= b && b + 1 <= |m|
       && after == X.TakenOut(m, grown, b, 50, b + 54 - S.WINDOW)
  }

  lemma LeavesMake(m: seq<byte>, first: bool, before: seq<MatchTree.Tree>, a: nat, b: nat,
                   begun: seq<MatchTree.Tree>, grown: seq<MatchTree.Tree>, after: seq<MatchTree.Tree>)
    requires Begun(m, first, before, a, begun) && Grew(m, begun, a, b, grown)
    requires |grown| == MF.NUM_TREES && S.WINDOW <= b && b + 1 <= |m|
             && after == X.TakenOut(m, grown, b, 50, b + 54 - S.WINDOW)
    ensures Leaves(m, first, before, a, b, after)
  {
    hide Begun, Grew, X.TakenOut;
    assert Chunk(m, first, before, a, b, begun, grown, after);
  }

  class Parser {
    const mem: array<byte>
    const finder: F.Finder
    const nodes: array<DecisionNode>
    var bufPos: nat
    var queue: Queue
    var tokens: seq<Token>
    var firstBlock: bool
    var firstTime: bool
    var steps: nat

    ghost predicate Wired() {
      && finder.Layout() && finder.mem == mem && finder.start == S.WINDOW && nodes.Length == NODES
      && nodes as object != mem && nodes as object !in {finder.root, finder.left, finder.right, finder.table}
    }

    lemma WiredParts()
      requires Wired()
      ensures finder.Layout() && finder.mem == mem && finder.start == S.WINDOW == 131072
              && nodes.Length == NODES == 4110 && finder.table.Length == 258
      ensures nodes as object != mem && nodes as object !in {finder.root, finder.left, finder.right, finder.table}
      ensures finder.root != finder.left && finder.root != finder.right && finder.left != finder.right
              && finder.table !in {finder.root, finder.left, finder.right}
      ensures mem as object !in {finder.root, finder.left, finder.right, finder.table}
              && finder.left.Length + 257 <= mem.Length
    {
    }

    /** The match finder has seen the positions before next. */
    ghost predicate Seen(next: nat)
      reads finder, mem, finder.root, finder.left, finder.right
    {
      Wired() && finder.Valid(next) && S.WINDOW <= next <= finder.left.Length && finder.end + S.WINDOW <= next + 4
    }

    lemma SeenParts(next: nat)
      requires Seen(next)
      ensures Wired() && finder.Valid(next) && S.WINDOW <= next <= finder.left.Length
              && finder.end + S.WINDOW <= next + 4
    {
      hide finder.Valid;
    }

    lemma SeenMake(next: nat, next': nat)
      requires Wired() && finder.Valid(next) && next <= next' && S.WINDOW <= next' <= finder.left.Length
               && finder.end + S.WINDOW <= next' + 4
      ensures Seen(next')
    {
      hide ST.Forest;
      finder.ValidLater(next, next');
    }

    /** The positions a match passes over are inserted; of a run of one byte only the first. */
    method InsertSkipped(at: nat, len: nat, link: nat)
      requires Seen(at + 1) && 2 <= len && at + len <= finder.left.Length
      requires link == 3 ==> RunOn(mem[..], at, len)
      modifies finder, finder.root, finder.left, finder.right
      ensures Seen(at + len) && F.Passes(mem[..], old(finder.trees), at + 1, at + len, finder.trees)
      ensures |old(finder.trees)| == MF.NUM_TREES && at + len + 1 <= |mem[..]|
      ensures finder.trees == Skipped(mem[..], old(finder.trees), at, len, link)
    {
      hide *;
      F.WindowSize();
      SeenParts(at + 1);
      WiredParts();
      ghost var m, before := mem[..], finder.trees;
      SeenTrees(at + 1);
      PassesFirst(m, before, at + 1);
      SkippedIs(m, before, at, len, link);
      F.InTurnIs(m, before, at + 1, 1);
      if link == 3 && len > 16 {
        finder.QuickInsert(at + 1, at - 131072 + 5, at + 1);
        SeenMake(at + 2, at + len);
        RunPassed(m, at, len, before, finder.trees);
      } else {
        var i: nat := 1;
        F.PassesNone(m, before, at + 1);
        while i < len
          invariant 1 <= i <= len && Seen(at + i) && mem[..] == m
          invariant F.Passes(m, before, at + 1, at + i, finder.trees)
          invariant finder.trees == F.InTurn(m, before, at + 1, i - 1)
        {
          F.InTurnIs(m, before, at + 1, i);
          SeenParts(at + i);
          SeenTrees(at + i);
          PassesFirst(m, finder.trees, at + i);
          ghost var was := finder.trees;
          finder.QuickInsert(at + i, at + i - 131072 + 4, at + i);
          F.PassesOn(m, at + 1, at + i, at + i + 1, before, was, finder.trees);
          i := i + 1;
          SeenMake(at + i, at + i);
        }
      }
    }

    lemma SeenTrees(next: nat)
      requires Seen(next)
      ensures |finder.trees| == MF.NUM_TREES == 65536 && next + 257 <= |mem[..]|
    {
      hide ST.Rooted;
    }

    // ---------- Single tokens ----------

    /** All is well between two tokens. */
    ghost predicate Ready()
      reads `bufPos, `queue, `tokens, mem, finder, finder.root, finder.left, finder.right
    {
      Seen(bufPos) && Stands(mem[..], S.WINDOW, bufPos, queue, tokens)
    }

    lemma ReadyParts()
      requires Ready()
      ensures Seen(bufPos) && Stands(mem[..], S.WINDOW, bufPos, queue, tokens)
    {
      hide Stands;
    }

    lemma ReadyMake()
      requires Seen(bufPos) && Stands(mem[..], S.WINDOW, bufPos, queue, tokens)
      ensures Ready()
    {
      hide Stands;
    }

    /** What can be seen from here to the end of the chunk. */
    ghost predicate InView(v: View, limit: nat)
      reads this, mem
    {
      v == View(mem[..], S.WINDOW, bufPos, limit, queue) && InChunk(v)
    }

    lemma ViewOf(limit: nat) returns (v: View)
      requires S.WINDOW <= bufPos < limit <= mem.Length && limit <= bufPos - bufPos % FRAME + FRAME
      ensures InView(v, limit) && v == View(mem[..], S.WINDOW, bufPos, limit, queue)
    {
      v := View(mem[..], S.WINDOW, bufPos, limit, queue);
    }

    lemma ViewParts(v: View, limit: nat)
      requires InView(v, limit)
      ensures v == View(mem[..], S.WINDOW, bufPos, limit, queue) && InChunk(v)
              && S.WINDOW <= bufPos < limit <= mem.Length
    {
    }

    /** output_literal. */
    method EmitLiteral(ghost v: View, limit: nat)
      requires InView(v, limit) && Seen(bufPos + 1) && Stands(mem[..], S.WINDOW, bufPos, queue, tokens)
      modifies this`bufPos, this`tokens
      ensures Ready() && bufPos == old(bufPos) + 1
      ensures tokens == old(tokens) + [Literal(mem[old(bufPos)])]
    {
      hide *;
      ViewParts(v, limit);
      LiteralWay(v, bufPos, queue, 0);
      StandsWay(v, bufPos + 1, queue, tokens, 0);
      LiteralToken(v.m, bufPos, 0, queue);
      tokens := tokens + [Literal(mem[bufPos])];
      bufPos := bufPos + 1;
      ReadyMake();
    }

    /** The queue after a match: a new offset is pushed, a repeated one changes places with the first. */
    method Push(link: nat)
      modifies this`queue
      ensures queue == Renew(old(queue), link)
    {
      if link >= 3 {
        queue := Queue(link - 2, queue.r0, queue.r1);
      } else if link == 1 {
        queue := Queue(queue.r1, queue.r0, queue.r2);
      } else if link == 2 {
        queue := Queue(queue.r2, queue.r1, queue.r0);
      }
    }

    /** A match found to be long is taken at once. */
    method EmitLong(len: nat, ghost v: View, limit: nat)
      requires InView(v, limit) && Seen(bufPos + 1) && Stands(mem[..], S.WINDOW, bufPos, queue, tokens)
               && 2 <= len <= 257 && bufPos + len <= limit <= finder.left.Length
      requires TableUsable(mem[..], bufPos, S.WINDOW, queue, len, finder.table[..])
      modifies this`bufPos, this`tokens, this`queue, finder, finder.root, finder.left, finder.right
      ensures Ready() && bufPos == old(bufPos) + len
      ensures tokens == old(tokens) + [Match(len, old(finder.table[len]))]
      ensures |old(finder.trees)| == MF.NUM_TREES && bufPos + 1 <= |mem[..]|
      ensures finder.trees == Skipped(mem[..], old(finder.trees), old(bufPos), len, old(finder.table[len]))
      ensures F.Passes(mem[..], old(finder.trees), old(bufPos) + 1, bufPos, finder.trees)
    {
      hide *;
      ViewParts(v, limit);
      SeenParts(bufPos + 1);
      WiredParts();
      var link := finder.table[len];
      TableWay(v, bufPos, queue, len, finder.table[..], len);
      StandsWay(v, bufPos + len, queue, tokens, link);
      MatchToken(v.m, bufPos, len, link, queue);
      LinkRun(mem[..], bufPos, S.WINDOW, queue, len, finder.table[..], len);
      InsertSkipped(bufPos, len, link);
      tokens := tokens + [Match(len, link)];
      bufPos := bufPos + len;
      Push(link);
      ReadyMake();
    }

    // ---------- Looking ahead ----------

    /** The look ahead has visited node c. */
    ghost predicate Looking(v: View, c: nat, span: nat, limit: nat)
      reads this, nodes
    {
      && v.at == bufPos && v.start == S.WINDOW && v.limit == limit && InChunk(v) && QueueOk(v.queue, v.start, v.at)
      && Settled(v, nodes[..], c) && Open(v, nodes[..], c, span) && Cheap(nodes[..], c) && nodes[c].queue == queue
      && c < span < 3837 && bufPos + span <= limit
    }

    lemma LookingParts(v: View, c: nat, span: nat, limit: nat)
      requires Looking(v, c, span, limit)
      ensures v.at == bufPos && v.start == S.WINDOW && v.limit == limit && InChunk(v) && QueueOk(v.queue, v.start, v.at)
      ensures Settled(v, nodes[..], c) && Open(v, nodes[..], c, span) && Cheap(nodes[..], c) && c < nodes.Length
              && nodes[c].queue == queue
      ensures c < span < 3837 && bufPos + span <= limit <= |v.m|
    {
      hide Settled, Open, QueueOk;
    }

    lemma LookingMake(v: View, c: nat, span: nat, limit: nat)
      requires v.at == bufPos && v.start == S.WINDOW && v.limit == limit && InChunk(v)
               && QueueOk(v.queue, v.start, v.at)
      requires Settled(v, nodes[..], c) && Open(v, nodes[..], c, span) && Cheap(nodes[..], c) && c < nodes.Length
               && nodes[c].queue == queue
      requires c < span < 3837 && bufPos + span <= limit
      ensures Looking(v, c, span, limit)
    {
      hide Settled, Open, QueueOk;
    }

    /** The match at a node, cut off at the end of the chunk. */
    method FindAhead(pos: nat, limit: nat) returns (len: nat)
      requires Seen(pos) && pos < limit <= finder.left.Length && QueueOk(queue, S.WINDOW, pos)
      modifies finder, finder.root, finder.left, finder.right, finder.table
      ensures Seen(pos + 1) && TableUsable(mem[..], pos, S.WINDOW, queue, len, finder.table[..])
      ensures len <= 257 && pos + len <= limit && (len == 0 || len >= 2)
      ensures F.Passes(mem[..], old(finder.trees), pos, pos + 1, finder.trees)
      ensures Searched(mem[..], old(finder.trees), limit, pos, queue, len, finder.table[..])
      ensures finder.trees == F.Inserted(mem[..], old(finder.trees), pos, F.Bound(pos))
    {
      hide *;
      F.WindowSize();
      SeenParts(pos);
      SeenTrees(pos);
      PassesFirst(mem[..], finder.trees, pos);
      WiredParts();
      QueueInsideAt(queue, S.WINDOW, pos);
      ghost var full, found;
      len, full, found := finder.Find(pos, queue, pos);
      SearchedMake(mem[..], old(finder.trees), limit, pos, queue, len, finder.table[..], full, found);
      CutOffIs(len, pos, limit);
      SeenMake(pos + 1, pos + 1);
      SizeFacts();
      if len + pos > limit {
        ghost var all := len;
        len := limit - pos;
        if len < 2 {
          len := 0;
        }
        TableLess(mem[..], pos, S.WINDOW, queue, all, finder.table[..], len);
      }
    }

    /** What has been tried so far, with the trees that the look ahead started from. */
    ghost predicate Weighed(v: View, costs: Costs, trees: seq<MatchTree.Tree>, c: nat, span: nat, looks: seq<Look>)
      reads this`bufPos, nodes, finder`trees
    {
      && |looks| == c + 1 && Chain(looks, span) && Least(v, costs, nodes[..], looks, span)
      && AllHunted(v, trees, nodes[..], looks) && |trees| == MF.NUM_TREES && v.at + c + 2 <= |v.m|
         && finder.trees == F.InTurn(v.m, trees, v.at, c + 1)
    }

    lemma WeighedParts(v: View, costs: Costs, trees: seq<MatchTree.Tree>, c: nat, span: nat, looks: seq<Look>)
      requires Weighed(v, costs, trees, c, span, looks)
      ensures |looks| == c + 1 && Chain(looks, span) && Least(v, costs, nodes[..], looks, span)
              && AllHunted(v, trees, nodes[..], looks) && |trees| == MF.NUM_TREES == 65536 && v.at + c + 2 <= |v.m|
              && finder.trees == F.InTurn(v.m, trees, v.at, c + 1)
    {
      hide Chain, Least, AllHunted, F.InTurn;
    }

    lemma WeighedMake(v: View, costs: Costs, trees: seq<MatchTree.Tree>, c: nat, span: nat, looks: seq<Look>)
      requires |looks| == c + 1 && Chain(looks, span) && Least(v, costs, nodes[..], looks, span)
               && AllHunted(v, trees, nodes[..], looks) && |trees| == MF.NUM_TREES && v.at + c + 2 <= |v.m|
               && finder.trees == F.InTurn(v.m, trees, v.at, c + 1)
      ensures Weighed(v, costs, trees, c, span, looks)
    {
      hide Chain, Least, AllHunted, F.InTurn;
    }

    /** The next node is visited: nothing tried changes. */
    method VisitNode(costs: Costs, c0: nat, span: nat, limit: nat, ghost v: View, ghost trees: seq<MatchTree.Tree>,
                     ghost looks: seq<Look>)
      requires Looking(v, c0, span, limit) && Weighed(v, costs, trees, c0, span, looks) && Wired()
      modifies this`queue, nodes
      ensures Settled(v, nodes[..], c0 + 1) && Open(v, nodes[..], c0 + 1, span) && Cheap(nodes[..], c0 + 1)
      ensures c0 + 1 < nodes.Length && queue == nodes[c0 + 1].queue
      ensures Least(v, costs, nodes[..], looks, span) && AllHunted(v, trees, nodes[..], looks)
    {
      hide *;
      LookingParts(v, c0, span, limit);
      WeighedParts(v, costs, trees, c0, span, looks);
      WiredParts();
      ghost var ns := nodes[..];
      queue := Visit(nodes, bufPos, c0, queue, span, v);
      OneQueue(ns, nodes[..], c0 + 1, queue, span);
      LeastKept(v, costs, ns, nodes[..], looks, span);
      HuntedKept(v, trees, ns, nodes[..], looks);
    }

    /** The search at the next node. */
    method HuntAt(c: nat, limit: nat, span: nat, ghost v: View, ghost trees: seq<MatchTree.Tree>,
                  ghost looks: seq<Look>) returns (len: nat)
      requires v.at == bufPos && v.start == S.WINDOW && v.limit == limit && v.m == mem[..]
      requires |looks| == c < nodes.Length && nodes[c].queue == queue && AllHunted(v, trees, nodes[..], looks)
      requires |trees| == MF.NUM_TREES && v.at + c + 2 <= |v.m| && finder.trees == F.InTurn(v.m, trees, v.at, c)
      requires Seen(bufPos + c) && bufPos + c < limit <= finder.left.Length && QueueOk(queue, S.WINDOW, bufPos + c)
      modifies finder, finder.root, finder.left, finder.right, finder.table
      ensures Seen(bufPos + c + 1) && TableUsable(mem[..], bufPos + c, S.WINDOW, queue, len, finder.table[..])
      ensures len <= 257 && bufPos + c + len <= limit && (len == 0 || len >= 2)
      ensures F.Passes(mem[..], old(finder.trees), bufPos + c, bufPos + c + 1, finder.trees)
      ensures finder.trees == F.InTurn(v.m, trees, v.at, c + 1)
      ensures forall s: nat :: AllHunted(v, trees, nodes[..], looks + [Look(len, finder.table[..], s)])
    {
      hide *;
      SeenParts(bufPos + c);
      WiredParts();
      F.InTurnIs(v.m, trees, v.at, c + 1);
      len := FindAhead(bufPos + c, limit);
      forall s: nat ensures AllHunted(v, trees, nodes[..], looks + [Look(len, finder.table[..], s)]) {
        HuntedLast(v, trees, nodes[..], looks, Look(len, finder.table[..], s));
      }
    }

    /** One more node: it is visited, and then the look ahead ends there, or ends with a long match, or
        goes on. */
    method LookNode(costs: Costs, c0: nat, span0: nat, limit: nat, ghost v: View, ghost trees: seq<MatchTree.Tree>,
                    ghost looks: seq<Look>)
      returns (c: nat, span: nat, last: nat, ghost more: seq<Look>)
      requires Looking(v, c0, span0, limit) && Seen(bufPos + c0 + 1) && limit <= finder.left.Length && v.m == mem[..]
      requires Weighed(v, costs, trees, c0, span0, looks)
      modifies this`queue, nodes, finder, finder.root, finder.left, finder.right, finder.table
      ensures last == 0 ==> c == c0 + 1 && Looking(v, c, span, limit) && Seen(bufPos + c + 1)
      ensures last > 0 ==> Reached(v, nodes[..], last, queue) && Seen(bufPos + last)
      ensures last == 0 ==> F.Passes(mem[..], old(finder.trees), bufPos + c0 + 1, bufPos + c + 1, finder.trees)
      ensures last > 0 ==>
                c0 < last && F.Passes(mem[..], old(finder.trees), bufPos + c0 + 1, bufPos + last, finder.trees)
      ensures last == 0 ==> Weighed(v, costs, trees, c, span, more)
      ensures last > 0 ==> Explored(v, costs, trees, nodes[..], more, last)
                           && LeftBehind(v, trees, more, last, finder.trees)
      ensures looks <= more
    {
      hide *;
      LookingParts(v, c0, span0, limit);
      WeighedParts(v, costs, trees, c0, span0, looks);
      SeenParts(bufPos + c0 + 1);
      WiredParts();
      VisitNode(costs, c0, span0, limit, v, trees, looks);
      c, span, last, more := c0 + 1, span0, 0, looks;
      ghost var before := finder.trees;
      if span == c {
        SettledReached(v, nodes[..], c, c);
        SpanEnd(v, costs, trees, nodes[..], looks, c);
        last := c;
        SeenTrees(bufPos + c);
        F.PassesNone(mem[..], before, bufPos + c);
        SpanLeft(v, trees, looks, c);
        return;
      }
      SettledQueue(v, nodes[..], c, c);
      var len := HuntAt(c, limit, span, v, trees, looks);
      SeenParts(bufPos + c + 1);
      TooLongIs(c, len);
      if len > 50 || c + len >= 3837 {
        ghost var found := finder.trees;
        more := looks + [Look(len, finder.table[..], span)];
        ghost var l := Look(len, finder.table[..], span);
        last := TakeLong(costs, c, len, span, limit, v, trees, looks);
        LongLeft(v, trees, looks, l, last, finder.trees);
        F.PassesOn(mem[..], bufPos + c, bufPos + c + 1, bufPos + last, before, found, finder.trees);
        return;
      }
      ghost var ns := nodes[..];
      span := Relax(nodes, mem, finder.table, len, bufPos, c, span0, queue, costs, v, looks);
      ghost var l := Look(len, finder.table[..], span);
      more := looks + [l];
      ChainMore(looks, span0, l);
      SameQueues(ns, nodes[..], c);
      HuntedKept(v, trees, ns, nodes[..], more);
      OpenCheap(v, nodes[..], c, span);
      LookingMake(v, c, span, limit);
      WeighedMake(v, costs, trees, c, span, more);
    }

    /** A match that is too long: it leads to the last node, and the positions it passes are inserted. */
    method TakeLong(costs: Costs, c: nat, len: nat, span: nat, limit: nat, ghost v: View,
                    ghost trees: seq<MatchTree.Tree>, ghost looks: seq<Look>)
      returns (last: nat)
      requires Wired() && Seen(bufPos + c + 1) && limit <= finder.left.Length && v.m == mem[..] && v.at == bufPos
               && v.start == S.WINDOW && v.limit == limit && InChunk(v)
      requires Settled(v, nodes[..], c) && |looks| == c < span < 3837 && c > 0 && nodes[c].queue == queue
      requires Chain(looks, span) && Least(v, costs, nodes[..], looks, span)
               && AllHunted(v, trees, nodes[..], looks + [Look(len, finder.table[..], span)])
      requires 2 <= len <= 257 && TooLong(c, len) && bufPos + c + len <= limit
               && TableUsable(mem[..], bufPos + c, S.WINDOW, queue, len, finder.table[..])
      modifies this`queue, nodes, finder, finder.root, finder.left, finder.right
      ensures last == c + len && Reached(v, nodes[..], last, queue) && Seen(bufPos + last)
      ensures F.Passes(mem[..], old(finder.trees), bufPos + c + 1, bufPos + last, finder.trees)
      ensures Explored(v, costs, trees, nodes[..], looks + [Look(len, old(finder.table[..]), span)], last)
      ensures |old(finder.trees)| == MF.NUM_TREES && bufPos + last + 1 <= |mem[..]|
      ensures finder.trees == Skipped(mem[..], old(finder.trees), bufPos + c, len, old(finder.table[len]))
    {
      hide *;
      WiredParts();
      var link := finder.table[len];
      ghost var ns, l := nodes[..], Look(len, finder.table[..], span);
      TableWay(v, bufPos + c, queue, len, finder.table[..], len);
      Jump(nodes, bufPos, c, len, link, queue, v);
      OneJump(ns, nodes[..], c, len);
      LeastLess(v, costs, ns, looks, span, c);
      LeastKept(v, costs, ns, nodes[..], looks, c);
      HuntedKept(v, trees, ns, nodes[..], looks + [l]);
      ReachedArc(v, nodes[..], c + len, Renew(queue, link));
      LongEnd(v, costs, trees, nodes[..], looks, l, c + len, span);
      LinkRun(mem[..], bufPos + c, S.WINDOW, queue, len, finder.table[..], len);
      InsertSkipped(bufPos + c, len, link);
      last := c + len;
      Push(link);
    }

    /** The best way through the next positions, as far as it pays to look. */
    method LookAhead(costs: Costs, len: nat, limit: nat, ghost v: View, ghost trees: seq<MatchTree.Tree>)
      returns (last: nat, ghost looks: seq<Look>)
      requires InView(v, limit) && Seen(bufPos + 1) && limit <= finder.left.Length && QueueOk(queue, S.WINDOW, bufPos)
      requires 2 <= len < 50 && bufPos + len <= limit
               && TableUsable(mem[..], bufPos, S.WINDOW, queue, len, finder.table[..])
      requires Searched(mem[..], trees, limit, bufPos, queue, len, finder.table[..])
      requires |trees| == MF.NUM_TREES && finder.trees == F.Inserted(mem[..], trees, bufPos, F.Bound(bufPos))
      modifies this`queue, nodes, finder, finder.root, finder.left, finder.right, finder.table
      ensures Reached(v, nodes[..], last, queue) && Seen(bufPos + last)
      ensures F.Passes(mem[..], old(finder.trees), bufPos + 1, bufPos + last, finder.trees)
      ensures Explored(v, costs, trees, nodes[..], looks, last) && LeftBehind(v, trees, looks, last, finder.trees)
      ensures looks != [] && looks[0].len == len && looks[0].table == old(finder.table[..])
    {
      hide *;
      ViewParts(v, limit);
      SeenParts(bufPos + 1);
      WiredParts();
      ghost var before, first := finder.trees, Look(len, finder.table[..], len);
      SeenTrees(bufPos + 1);
      F.PassesNone(mem[..], before, bufPos + 1);
      SetUp(nodes, mem, finder.table, len, bufPos, queue, costs, v);
      var c: nat, span: nat := 0, len;
      LookingMake(v, c, span, limit);
      looks := [first];
      ChainFirst(len, first.table);
      HuntedFirst(v, trees, nodes[..], first);
      F.InTurnIs(v.m, trees, v.at, 1);
      WeighedMake(v, costs, trees, c, span, looks);
      last := 0;
      while last == 0
        invariant last == 0 ==> Looking(v, c, span, limit) && Seen(bufPos + c + 1)
        invariant last > 0 ==> Reached(v, nodes[..], last, queue) && Seen(bufPos + last)
        invariant mem[..] == v.m && looks != [] && looks[0] == first
        invariant last == 0 ==> F.Passes(v.m, before, bufPos + 1, bufPos + c + 1, finder.trees)
        invariant last > 0 ==> F.Passes(v.m, before, bufPos + 1, bufPos + last, finder.trees)
        invariant last == 0 ==> Weighed(v, costs, trees, c, span, looks)
        invariant last > 0 ==> Explored(v, costs, trees, nodes[..], looks, last)
                               && LeftBehind(v, trees, looks, last, finder.trees)
        decreases last == 0, 3837 - c
      {
        LookingParts(v, c, span, limit);
        ghost var was, c0 := finder.trees, c;
        c, span, last, looks := LookNode(costs, c, span, limit, v, trees, looks);
        if last == 0 {
          LookingParts(v, c, span, limit);
          F.PassesOn(v.m, bufPos + 1, bufPos + c0 + 1, bufPos + c + 1, before, was, finder.trees);
        } else {
          F.PassesOn(v.m, bufPos + 1, bufPos + c0 + 1, bufPos + last, before, was, finder.trees);
        }
      }
    }

    /** The tokens of the best way: the paths are turned round and then followed. */
    method EmitRoute(last: nat, ghost v: View, ghost ts: seq<Token>)
      requires Wired() && v.m == mem[..] && v.at == bufPos && InChunk(v) && Reached(v, nodes[..], last, queue)
               && tokens == ts
      modifies this`bufPos, this`tokens, nodes
      ensures tokens == ts + TokensTo(v, old(nodes[..]), last) && bufPos == v.at + last
    {
      hide *;
      WiredParts();
      ghost var ns := nodes[..];
      ghost var route := RouteTo(v, ns, last, queue);
      RouteEnd(ns, v.at, route, last);
      var at := bufPos;
      var iterations := TurnRound(nodes, at, last, route);
      ghost var k, turned := 0, nodes[..];
      RouteStart(v, ns, route, last);
      assert ts + [] == ts;
      while iterations != 0
        invariant 0 <= k < |route| && iterations + k + 1 == |route| && bufPos == at + route[k]
        invariant tokens == ts + TokensTo(v, ns, route[k]) && nodes[..] == turned
        modifies this`bufPos, this`tokens
      {
        NextHop(v, ns, turned, route, last, k, queue);
        HopToken(v.m, bufPos, at + route[k + 1], ns[route[k + 1]].link);
        var next := nodes[bufPos - at].path;
        if next > bufPos + 1 {
          tokens := tokens + [Match(next - bufPos, nodes[next - at].link)];
          bufPos := next;
        } else {
          tokens := tokens + [Literal(mem[bufPos])];
          bufPos := bufPos + 1;
        }
        iterations, k := iterations - 1, k + 1;
      }
    }

    // ---------- One step of the main loop ----------

    /** A literal where no match was found, a long match at once, or the tokens of a look ahead: at least one byte
        is passed, and all tokens so far stand for the bytes passed. */
    method Step(limit: nat, costs: Costs)
      returns (ghost len: nat, ghost table: seq<nat>, ghost ns: seq<DecisionNode>, ghost looks: seq<Look>)
      requires Ready() && bufPos < limit <= finder.left.Length && limit <= bufPos - bufPos % FRAME + FRAME
      modifies this`bufPos, this`tokens, this`queue, nodes, finder, finder.root, finder.left, finder.right, finder.table
      ensures Ready() && old(bufPos) < bufPos <= limit
      ensures F.Passes(mem[..], old(finder.trees), old(bufPos), bufPos, finder.trees)
      ensures Searched(mem[..], old(finder.trees), limit, old(bufPos), old(queue), len, table) && |table| == 258
      ensures |old(finder.trees)| == MF.NUM_TREES && bufPos + 1 <= |mem[..]|
      ensures len < 2 ==> tokens == old(tokens) + [Literal(mem[old(bufPos)])]
                          && finder.trees == F.InTurn(mem[..], old(finder.trees), old(bufPos), 1)
      ensures len >= 50 ==>
                && len <= 257 && bufPos == old(bufPos) + len && tokens == old(tokens) + [Match(len, table[len])]
                && finder.trees == Skipped(mem[..], F.InTurn(mem[..], old(finder.trees), old(bufPos), 1), old(bufPos),
                                           len, table[len])
      ensures 2 <= len < 50 ==>
                var v, e := View(mem[..], S.WINDOW, old(bufPos), limit, old(queue)), bufPos - old(bufPos);
                looks != [] && looks[0].len == len && looks[0].table == table
                && Explored(v, costs, old(finder.trees), ns, looks, e) && tokens == old(tokens) + TokensTo(v, ns, e)
                && LeftBehind(v, old(finder.trees), looks, e, finder.trees)
    {
      hide *;
      ReadyParts();
      SeenParts(bufPos);
      WiredParts();
      StandsParts(mem[..], S.WINDOW, bufPos, queue, tokens);
      ghost var v := ViewOf(limit);
      ghost var before, at := finder.trees, bufPos;
      SeenTrees(bufPos);
      var length := FindAhead(bufPos, limit);
      F.InTurnIs(mem[..], before, at, 1);
      len, table, ns, looks := length, finder.table[..], [], [];
      ghost var found := finder.trees;
      if length < 2 {
        EmitLiteral(v, limit);
      } else if length < 50 {
        ghost var ts := tokens;
        ViewParts(v, limit);
        var last;
        last, looks := LookAhead(costs, length, limit, v, before);
        ns := nodes[..];
        StandsRoute(v, nodes[..], last, queue, ts);
        ReachedLast(v, nodes[..], last, queue);
        EmitRoute(last, v, ts);
        ReadyMake();
        F.PassesOn(mem[..], at, at + 1, bufPos, before, found, finder.trees);
      } else {
        EmitLong(length, v, limit);
        F.PassesOn(mem[..], at, at + 1, bufPos, before, found, finder.trees);
      }
    }

    // ---------- A chunk ----------

    /** Before the first chunk. */
    ghost predicate Fresh()
      reads this, finder, finder.root
    {
      && Wired() && finder.Blank() && firstTime && S.WINDOW == bufPos <= finder.left.Length && queue == FIRST_QUEUE
         && tokens == []
    }

    /** After a full chunk: its last positions are in no tree, so that reading on does not disturb the trees. */
    ghost predicate Rested()
      reads this, mem, finder, finder.root, finder.left, finder.right
    {
      && Wired() && !firstTime && S.WINDOW + 50 <= bufPos <= finder.left.Length && finder.end + S.WINDOW <= bufPos + 4
      && finder.Valid(bufPos - 50) && Stands(mem[..], S.WINDOW, bufPos, queue, tokens)
    }

    lemma RestedParts()
      requires Rested()
      ensures Wired() && !firstTime && S.WINDOW + 50 <= bufPos <= finder.left.Length
              && finder.end + S.WINDOW <= bufPos + 4
      ensures finder.Valid(bufPos - 50) && Stands(mem[..], S.WINDOW, bufPos, queue, tokens)
    {
      hide Stands, ST.Forest;
    }

    lemma RestedMake()
      requires Wired() && !firstTime && S.WINDOW + 50 <= bufPos <= finder.left.Length
               && finder.end + S.WINDOW <= bufPos + 4
      requires finder.Valid(bufPos - 50) && Stands(mem[..], S.WINDOW, bufPos, queue, tokens)
      ensures Rested()
    {
      hide Stands, ST.Forest;
    }

    /** The same when the window held m. */
    ghost predicate RestedOver(m: seq<byte>)
      reads this, finder, finder.root, finder.left, finder.right
    {
      && Wired() && !firstTime && S.WINDOW + 50 <= bufPos <= finder.left.Length && finder.end + S.WINDOW <= bufPos + 4
         && |m| == mem.Length
      && ST.Forest(m, finder.root[..], finder.left[..], finder.right[..], finder.end, finder.trees, finder.start,
                   bufPos - 50)
      && Stands(m, S.WINDOW, bufPos, queue, tokens)
    }

    lemma RestedNow()
      requires Rested()
      ensures RestedOver(mem[..])
    {
      hide Stands, ST.Forest;
    }

    /** The window has got more input, and nothing before the current position has changed. */
    lemma RestedReads(m: seq<byte>)
      requires RestedOver(m) && |m| == mem.Length && bufPos <= |m| && m[..bufPos] == mem[..][..bufPos]
      ensures Rested()
    {
      hide Stands, ST.Forest, ST.Rooted;
      assert mem[..][..bufPos] == mem[..bufPos];
      StandsParts(m, S.WINDOW, bufPos, queue, tokens);
      finder.StillValid(m, bufPos - 50, bufPos);
      StandsReads(m, mem[..], S.WINDOW, bufPos, queue, tokens);
    }

    /** redo_first_block: everything parsed so far is dropped. */
    method Restart()
      requires Wired() && S.WINDOW <= finder.left.Length
      modifies this`bufPos, this`tokens, this`queue, this`firstBlock, finder, finder.root
      ensures Ready() && bufPos == S.WINDOW && !firstBlock && finder.trees == F.NoTrees()
    {
      hide *;
      WiredParts();
      finder.Forget();
      bufPos, queue, tokens, firstBlock := 131072, Queue(1, 1, 1), [], false;
      FirstQueueIs();
      StandsFirst(mem[..], S.WINDOW);
      SeenMake(bufPos, bufPos);
      ReadyMake();
    }

    /** The main loop over a chunk, and over everything before it again if the first block is redone. */
    method ParseTo(end: nat, h: Heuristics)
      requires Ready() && bufPos <= end <= finder.left.Length
      modifies this`bufPos, this`tokens, this`queue, this`firstBlock, this`steps
      modifies nodes, finder, finder.root, finder.left, finder.right, finder.table
      ensures Ready() && bufPos == end && (firstBlock ==> old(firstBlock))
      ensures Grew(mem[..], old(finder.trees), old(bufPos), end, finder.trees)
    {
      hide *;
      F.WindowSize();
      ReadyParts();
      SeenTrees(bufPos);
      SeenParts(bufPos);
      WiredParts();
      ghost var m, before, at := mem[..], finder.trees, bufPos;
      GrewNone(m, before, at);
      while bufPos < end
        invariant Ready() && bufPos <= end && (firstBlock ==> old(firstBlock))
        invariant mem[..] == m && Grew(m, before, at, bufPos, finder.trees)
        decreases firstBlock, end - bufPos
      {
        ReadyParts();
        SeenParts(bufPos);
        ghost var was, pos := finder.trees, bufPos;
        var limit: nat := Min(bufPos - bufPos % 32768 + 32768, end);
        ChunkEnd(bufPos, end, limit);
        ghost var len, table, ns, looks := Step(limit, h.costs(steps));
        GrewOn(m, before, at, pos, bufPos, was, finder.trees);
        steps := steps + 1;
        if firstBlock && h.redo(steps) {
          Restart();
          GrewAnew(m, before, at);
        }
      }
    }

    /** opt_encode_top, for a chunk that has been read into the window. */
    method EncodeTop(bytes: nat, h: Heuristics)
      requires Fresh() || Rested()
      requires 0 < bytes <= FRAME && bufPos % FRAME == 0 && bufPos + bytes <= finder.left.Length
      modifies this`bufPos, this`tokens, this`queue, this`firstBlock, this`firstTime, this`steps
      modifies nodes, finder, finder.root, finder.left, finder.right, finder.table
      ensures Stands(mem[..], S.WINDOW, bufPos, queue, tokens) && bufPos == old(bufPos) + bytes
      ensures Wired() && !firstTime && (bytes == FRAME ==> Rested())
      ensures bytes == FRAME ==> Leaves(mem[..], old(firstTime), old(finder.trees), old(bufPos), bufPos, finder.trees)
    {
      hide *;
      F.WindowSize();
      var end := bufPos + bytes;
      ghost var m, before, at := mem[..], finder.trees, bufPos;
      StartChunk();
      ReadyParts();
      SeenParts(bufPos);
      SeenTrees(bufPos);
      WiredParts();
      ghost var begun := finder.trees;
      GrewNone(m, begun, at);
      while true
        invariant Ready() && bufPos <= end && !firstTime
        invariant mem[..] == m && Grew(m, begun, at, bufPos, finder.trees)
        decreases firstBlock
      {
        ghost var was, pos := finder.trees, bufPos;
        ReadyParts();
        SeenParts(bufPos);
        WiredParts();
        ParseTo(end, h);
        GrewMore(m, begun, at, pos, end, was, finder.trees);
        steps := steps + 1;
        ReadyParts();
        SeenParts(bufPos);
        WiredParts();
        if bytes < 32768 {
          if !firstBlock || !h.redo(steps) {
            break;
          }
        } else {
          ghost var grown := finder.trees;
          finder.CutBack(bufPos);
          LeavesMake(m, old(firstTime), before, at, bufPos, begun, grown, finder.trees);
          if !firstBlock || !h.redo(steps) {
            RestedMake();
            break;
          }
        }
        Restart();
        GrewAnew(m, begun, at);
      }
    }

    /** The first time nothing is in the trees; later the positions taken out are put back. */
    method StartChunk()
      requires Fresh() || Rested()
      modifies this`firstTime, finder, finder.root, finder.left, finder.right
      ensures Ready() && !firstTime
      ensures Begun(mem[..], old(firstTime), old(finder.trees), bufPos, finder.trees)
    {
      hide *;
      F.WindowSize();
      if firstTime {
        FreshParts();
        WiredParts();
        FirstQueueIs();
        finder.BlankValid();
        finder.BlankTrees();
        BegunFirst(mem[..], finder.trees, bufPos);
        StandsFirst(mem[..], S.WINDOW);
        firstTime := false;
        SeenMake(bufPos, bufPos);
      } else {
        OnlyRested();
        RestedParts();
        WiredParts();
        finder.PutBack(bufPos);
        BegunAgain(mem[..], old(finder.trees), bufPos, finder.trees);
        SeenMake(bufPos, bufPos);
      }
      ReadyMake();
    }

    lemma FreshParts()
      requires Fresh() || Rested()
      requires firstTime
      ensures Wired() && finder.Blank() && S.WINDOW == bufPos <= finder.left.Length && queue == FIRST_QUEUE
              && tokens == []
    {
      hide Stands, ST.Forest;
    }

    lemma OnlyRested()
      requires Fresh() || Rested()
      requires !firstTime
      ensures Rested()
    {
      hide Stands, ST.Forest;
    }

    constructor (mem: array<byte>, size: nat)
      requires size + 257 <= mem.Length && S.WINDOW <= size
      ensures Fresh() && this.mem == mem && finder.left.Length == size
      ensures fresh(finder) && fresh(finder.root) && fresh(finder.left) && fresh(finder.right) && fresh(finder.table)
              && fresh(nodes)
    {
      this.mem := mem;
      finder := new F.Finder(mem, 131072, size);
      nodes := new DecisionNode[4110](i => DecisionNode(0, 0, Queue(1, 1, 1), 0));
      bufPos, queue, tokens, firstBlock, firstTime, steps := 131072, Queue(1, 1, 1), [], true, true, 0;
    }
  }

  /** From at on every byte is the one before. */
  ghost predicate RunOn(m: seq<byte>, at: nat, len: nat) {
    forall p :: at <= p < at + len ==> Repeated(m, p)
  }

  predicate Repeated(m: seq<byte>, p: int) {
    1 <= p < |m| && m[p] == m[p - 1]
  }

  /** A match one byte back is a run. */
  lemma LinkRun(m: seq<byte>, s: nat, start: nat, q: Queue, len: nat, table: seq<nat>, l: nat)
    requires TableUsable(m, s, start, q, len, table) && 2 <= l <= len
    ensures |table| == 258 && len <= 257 && (table[l] == 3 ==> RunOn(m, s, l))
  {
    if table[l] == 3 {
      assert Usable(m, s, start, q, l, 3);
      forall p | s <= p < s + l ensures Repeated(m, p) {
        assert SameBack(m, s, 1, p - s);
      }
    }
  }

  lemma PassesFirst(m: seq<byte>, trees: seq<MatchTree.Tree>, s: nat)
    requires |trees| == 65536 && s + 2 <= |m| && s >= S.WINDOW
    ensures F.Bound(s) == s - 131068 && F.Passes(m, trees, s, s + 1, F.Inserted(m, trees, s, s - 131068))
  {
    hide F.Inserted, F.Passes;
    F.PassesOne(m, trees, s);
  }

  lemma RunPassed(m: seq<byte>, at: nat, len: nat, before: seq<MatchTree.Tree>, after: seq<MatchTree.Tree>)
    requires RunOn(m, at, len) && 2 <= len && F.Passes(m, before, at + 1, at + 2, after)
    ensures F.Passes(m, before, at + 1, at + len, after)
  {
    hide F.Passes;
    forall p | at + 2 <= p < at + len ensures F.InRun(m, p) {
      assert Repeated(m, p) && Repeated(m, p - 1);
    }
    F.PassesRun(m, before, at + 1, at + 2, at + len, after);
  }

  lemma FirstQueueIs()
    ensures FIRST_QUEUE == Queue(1, 1, 1)
  {
  }

  /** The end of the chunk at a position. */
  lemma ChunkEnd(pos: nat, end: nat, limit: nat)
    requires pos < end && limit == Min(pos - pos % 32768 + 32768, end)
    ensures pos < limit <= end && limit <= pos - pos % FRAME + FRAME
  {
  }

  lemma LiteralToken(m: seq<byte>, pos: nat, link: nat, q: Queue)
    requires pos < |m|
    ensures TokenOf(m, pos, pos + 1, link) == Literal(m[pos]) && After(q, pos, pos + 1, link) == q
  {
  }

  lemma MatchToken(m: seq<byte>, pos: nat, len: nat, link: nat, q: Queue)
    requires pos < |m| && 2 <= len
    ensures TokenOf(m, pos, pos + len, link) == Match(len, link) && After(q, pos, pos + len, link) == Renew(q, link)
  {
  }

  lemma HopToken(m: seq<byte>, a: nat, b: nat, link: nat)
    requires a < b <= |m|
    ensures TokenOf(m, a, b, link) == if b > a + 1 then Match(b - a, link) else Literal(m[a])
  {
  }

  lemma QueueInsideAt(q: Queue, start: nat, pos: nat)
    requires QueueOk(q, start, pos)
    ensures pos > start ==> QueueInside(q, pos - start)
  {
  }

  lemma SizeFacts()
    ensures MatchTree.MAX_MATCH == 257
  {
  }

  lemma OpenCheap(v: View, ns: seq<DecisionNode>, c: nat, span: nat)
    requires Open(v, ns, c, span)
    ensures span < |ns|
  {
  }

  lemma RouteStart(v: View, ns: seq<DecisionNode>, route: seq<nat>, e: nat)
    requires IsRoute(ns, v.at, route, e)
    ensures route[0] == 0 && route[|route| - 1] == e && TokensTo(v, ns, 0) == []
  {
    NoWay(v, ns);
  }

  lemma ReachedArc(v: View, ns: seq<DecisionNode>, e: nat, q: Queue)
    requires Reached(v, ns, e, q)
    ensures Arc(v, ns, e)
  {
  }

  lemma ReachedLast(v: View, ns: seq<DecisionNode>, e: nat, q: Queue)
    requires Reached(v, ns, e, q)
    ensures 0 < e && v.at + e <= v.limit
  {
    hide Usable, Settled;
  }
}
