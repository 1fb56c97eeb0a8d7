/** Data on which every run of the parser loses a position that the next search would have accepted. */
module LostPosition {
  import opened Bits
  import opened MatchTree
  import opened MatchFinder
  import opened Searching
  import opened Expiry
  import P = Parser
  import S = Slots

  /** Two positions with the same first two bytes, which no other position has: the later one is among the last of
      the fourth chunk, and the earlier one between the bounds of the next search and of the removal then. */
  const EARLY: nat := 131100
  const LATE: nat := 262100
  const KEY: nat := 7 + 256 * 9

  function ByteAt(p: nat): byte {
    if p == EARLY || p == LATE then 7
    else if p == EARLY + 1 || p == LATE + 1 then 9
    else if p == LATE + 2 then 1
    else 0
  }

  /** The window when the data have been read up to n: nothing is said of the bytes after that. */
  ghost predicate Holds(m: seq<byte>, n: nat) {
    |m| >= 262144 + MAX_MATCH && S.WINDOW <= n <= 262144 && forall p: nat :: S.WINDOW <= p < n ==> m[p] == ByteAt(p)
  }

  const EARLY_ONLY := Node(Empty, EARLY, Empty)

  const BOTH := Node(Empty, LATE, EARLY_ONLY)

  /** The tree of the two positions when those before n have been passed. */
  ghost function Expected(n: nat): Tree {
    if n <= EARLY then Empty else if n <= LATE then EARLY_ONLY else BOTH
  }

  /** The two positions are not passed over as parts of a run, and no other has their key. */
  lemma Placed(m: seq<byte>, n: nat, p: nat)
    requires Holds(m, n) && S.WINDOW <= p < n && n % 32768 == 0
    ensures p + 2 <= |m| && (Key(m, p) == KEY <==> p == EARLY || p == LATE)
    ensures p == EARLY || p == LATE ==> !InRun(m, p)
  {
    assert m[p] == ByteAt(p);
    if p == EARLY || p == LATE {
      assert m[p + 1] == ByteAt(p + 1) && m[p - 1] == ByteAt(p - 1);
    }
  }

  lemma ExpectedOn(m: seq<byte>, n: nat, a: nat, b: nat)
    requires Holds(m, n) && n % 32768 == 0 && S.WINDOW <= a <= b <= n && forall p :: a <= p < b ==> InRun(m, p)
    ensures Expected(a) == Expected(b)
  {
    hide InRun, Holds;
    if a <= EARLY < b {
      Placed(m, n, EARLY);
    }
    if a <= LATE < b {
      Placed(m, n, LATE);
    }
  }

  lemma ExpectedLive(p: nat, end: nat)
    requires end < EARLY
    ensures Live(Expected(p), end) == Expected(p)
  {
  }

  /** The later string is the larger one. */
  lemma EarlyBelow(m: seq<byte>)
    requires Holds(m, 262144)
    ensures Insert(m, EARLY_ONLY, LATE) == BOTH
  {
    hide Common;
    assert m[EARLY] == ByteAt(EARLY) && m[EARLY + 1] == ByteAt(EARLY + 1) && m[EARLY + 2] == ByteAt(EARLY + 2);
    assert m[LATE] == ByteAt(LATE) && m[LATE + 1] == ByteAt(LATE + 1) && m[LATE + 2] == ByteAt(LATE + 2);
    forall i: nat | i < 2 ensures EqualAt(m, EARLY, LATE, i) {
    }
    CommonIs(m, EARLY, LATE, MAX_MATCH, 2);
    assert Match(m, EARLY, LATE) == 2 && Less(m, EARLY, LATE);
    SplitOne(m, EARLY, LATE);
  }

  /** Inserting above a single node. */
  lemma SplitOne(m: seq<byte>, p: nat, s: nat)
    requires InRange(m, p) && InRange(m, s) && Less(m, p, s) && Match(m, p, s) < BREAK_LENGTH
    ensures Insert(m, Node(Empty, p, Empty), s) == Node(Empty, s, Node(Empty, p, Empty))
  {
    hide Match, Less;
    assert Smaller(m, p, s) && !Same(m, p, s);
    assert Above(m, Empty, s) == Empty && Below(m, Empty, s) == Empty;
  }

  /** One insertion. */
  lemma InsertedSlot(m: seq<byte>, n: nat, trees: seq<Tree>, at: nat, s: nat, end: nat)
    requires Holds(m, n) && n % 32768 == 0 && S.WINDOW <= s < n && end < EARLY && |trees| == NUM_TREES
    requires trees[KEY] == Expected(at) && (s == EARLY || s == LATE ==> at == s)
    ensures s + 2 <= |m|
    ensures Inserted(m, trees, s, end)[KEY] == if s == EARLY || s == LATE then Expected(s + 1) else Expected(at)
  {
    hide Holds, Live, Insert, Expected, Key;
    Placed(m, n, s);
    ExpectedLive(at, end);
    InsertedIs(m, trees, s, end, SearchTrees.AllLive(trees, end));
    if s == EARLY || s == LATE {
      InsertedTwo(m, n, s);
    }
  }

  lemma InsertedTwo(m: seq<byte>, n: nat, s: nat)
    requires Holds(m, n) && n % 32768 == 0 && S.WINDOW <= s < n && (s == EARLY || s == LATE)
    ensures Insert(m, Expected(s), s) == Expected(s + 1)
  {
    if s == LATE {
      assert n == 262144;
      EarlyBelow(m);
    }
  }

  /** Positions in order up to b, without the last. */
  lemma PassedLess(m: seq<byte>, a: nat, b: nat, ss: seq<nat>)
    requires Passed(m, a, b, ss) && Readable(m, ss) && ss != []
    ensures var s := ss[|ss| - 1];
            a <= s < b && Passed(m, a, s, ss[..|ss| - 1]) && Readable(m, ss[..|ss| - 1])
            && s + 2 <= |m| && forall p :: s + 1 <= p < b ==> InRun(m, p)
  {
    hide InRun;
    var s, init := ss[|ss| - 1], ss[..|ss| - 1];
    assert ss == init + [s];
    assert Passed(m, a, s, init);
  }

  /** The tree of the two positions, whatever positions inside runs have been passed over. */
  lemma {:induction false} GrownSlot(m: seq<byte>, n: nat, trees: seq<Tree>, a: nat, b: nat, ss: seq<nat>)
    requires Holds(m, n) && n % 32768 == 0 && S.WINDOW <= a <= b <= n && |trees| == NUM_TREES
             && trees[KEY] == Expected(a)
    requires Passed(m, a, b, ss) && Readable(m, ss)
    ensures Grown(m, trees, ss)[KEY] == Expected(b)
    decreases |ss|
  {
    hide *;
    if ss == [] {
      GrownNone(m, trees, a, b, ss);
      ExpectedOn(m, n, a, b);
    } else {
      var s, init := ss[|ss| - 1], ss[..|ss| - 1];
      PassedLess(m, a, b, ss);
      GrownSlot(m, n, trees, a, s, init);
      GrownLast(m, trees, ss);
      BoundBelow(m, n, s);
      InsertedSlot(m, n, Grown(m, trees, init), s, s, Bound(s));
      ExpectedOn(m, n, s + 1, b);
      ExpectedSame(s);
    }
  }

  lemma GrownNone(m: seq<byte>, trees: seq<Tree>, a: nat, b: nat, ss: seq<nat>)
    requires |trees| == NUM_TREES && ss == [] && Passed(m, a, b, ss) && Readable(m, ss)
    ensures Grown(m, trees, ss) == trees && forall p :: a <= p < b ==> InRun(m, p)
  {
    hide InRun;
  }

  lemma GrownLast(m: seq<byte>, trees: seq<Tree>, ss: seq<nat>)
    requires |trees| == NUM_TREES && ss != [] && Readable(m, ss)
    ensures Readable(m, ss[..|ss| - 1])
    ensures Grown(m, trees, ss) == Inserted(m, Grown(m, trees, ss[..|ss| - 1]), ss[|ss| - 1], Bound(ss[|ss| - 1]))
  {
    hide Inserted;
  }

  lemma BoundBelow(m: seq<byte>, n: nat, s: nat)
    requires Holds(m, n) && s < n
    ensures Bound(s) < EARLY
  {
  }

  lemma ExpectedSame(s: nat)
    ensures s != EARLY && s != LATE ==> Expected(s + 1) == Expected(s)
  {
  }

  /** Between chunks the tree is left alone: other positions are put back. */
  lemma {:induction false} PutInSlot(m: seq<byte>, n: nat, trees: seq<Tree>, a: nat, k: nat, end: nat)
    requires Holds(m, n) && n % 32768 == 0 && EARLY < a && a + k <= LATE && a + k + 1 <= n && end < EARLY
    requires |trees| == NUM_TREES && trees[KEY] == EARLY_ONLY && a + k + 1 <= |m|
    ensures PutIn(m, trees, a, k, end)[KEY] == EARLY_ONLY
  {
    hide *;
    Sizes();
    PutInIs(m, trees, a, k, end);
    if k > 0 {
      PutInSlot(m, n, trees, a, k - 1, end);
      InsertedSlot(m, n, PutIn(m, trees, a, k - 1, end), LATE, a + k - 1, end);
    }
  }

  lemma Sizes()
    ensures EARLY == 131100 && LATE == 262100 && S.WINDOW == 131072 && KEY < NUM_TREES == 65536
    ensures Expected(LATE) == EARLY_ONLY && Expected(EARLY + 1) == EARLY_ONLY && Expected(S.WINDOW) == Empty
    ensures forall n: nat :: EARLY < n <= LATE ==> Expected(n) == EARLY_ONLY
    ensures Expected(262144) == BOTH
  {
  }

  /** One removal of a position that is not the root of the tree. */
  lemma WithdrawnSlot(m: seq<byte>, n: nat, trees: seq<Tree>, s: nat, cut: nat)
    requires Holds(m, n) && n % 32768 == 0 && S.WINDOW <= s < n && |trees| == NUM_TREES
    ensures s + 2 <= |m|
    ensures Withdrawn(m, trees, s, cut)[KEY]
            == if (s == EARLY || s == LATE) && trees[KEY].Node? && trees[KEY].pos == s then Removed(trees[KEY], cut)
              else trees[KEY]
  {
    hide Holds, Removed, Key;
    Placed(m, n, s);
  }

  /** At the end of the first three chunks none of the positions taken out is in the tree. */
  lemma {:induction false} TakenSlot(m: seq<byte>, n: nat, trees: seq<Tree>, k: nat, cut: nat)
    requires Holds(m, n) && n % 32768 == 0 && S.WINDOW < n && k <= 50 && |trees| == NUM_TREES && n + 1 <= |m|
    requires n < 262144 ==> trees[KEY] == EARLY_ONLY
    requires n == 262144 ==> trees[KEY] == BOTH && cut == n + 54 - S.WINDOW
    ensures TakenOut(m, trees, n, k, cut)[KEY]
            == if n < 262144 then EARLY_ONLY else if k < 44 then BOTH else Empty
  {
    hide *;
    Sizes();
    ChunkEnds(m, n);
    TakenIs(m, trees, n, k, cut);
    if k > 0 {
      TakenSlot(m, n, trees, k - 1, cut);
      var was := TakenOut(m, trees, n, k - 1, cut);
      WithdrawnSlot(m, n, was, n - k, cut);
      Roots();
      BothLost(cut);
    }
  }

  lemma ChunkEnds(m: seq<byte>, n: nat)
    requires Holds(m, n) && n % 32768 == 0 && S.WINDOW < n
    ensures EARLY + 50 < n <= 262144 && (n < 262144 ==> n < LATE)
  {
  }

  lemma Roots()
    ensures EARLY_ONLY.Node? && EARLY_ONLY.pos == EARLY && BOTH.Node? && BOTH.pos == LATE && !Empty.Node?
  {
  }

  /** The earlier position goes when the later one is taken out, although the next search would accept it. */
  lemma BothLost(cut: nat)
    ensures EARLY <= cut < LATE ==> Removed(BOTH, cut) == Empty
  {
  }

  /** One chunk: it ends with the earlier position in its tree, until the last one ends with nothing there. */
  lemma ChunkSlot(m: seq<byte>, first: bool, before: seq<Tree>, a: nat, b: nat, after: seq<Tree>)
    requires P.Leaves(m, first, before, a, b, after) && Holds(m, b) && a + 32768 == b && b % 32768 == 0
    requires if a == S.WINDOW then first
             else !first && a > S.WINDOW && |before| == NUM_TREES && before[KEY] == EARLY_ONLY
    ensures |after| == NUM_TREES && after[KEY] == if b < 262144 then EARLY_ONLY else Empty
  {
    hide *;
    Sizes();
    ChunkEnds(m, b);
    var begun, grown := LeavesParts(m, first, before, a, b, after);
    BegunSlot(m, first, before, a, b, begun);
    GrewSlot(m, begun, a, b, grown);
    TakenSlot(m, b, grown, 50, b + 54 - S.WINDOW);
  }

  lemma LeavesParts(m: seq<byte>, first: bool, before: seq<Tree>, a: nat, b: nat, after: seq<Tree>)
    returns (begun: seq<Tree>, grown: seq<Tree>)
    requires P.Leaves(m, first, before, a, b, after)
    ensures P.Begun(m, first, before, a, begun) && P.Grew(m, begun, a, b, grown)
    ensures |grown| == NUM_TREES && S.WINDOW <= b && b + 1 <= |m|
            && after == TakenOut(m, grown, b, 50, b + 54 - S.WINDOW)
    ensures |after| == NUM_TREES
  {
    hide P.Begun, P.Grew;
    begun, grown :| P.Chunk(m, first, before, a, b, begun, grown, after);
  }

  lemma BegunSlot(m: seq<byte>, first: bool, before: seq<Tree>, a: nat, b: nat, begun: seq<Tree>)
    requires P.Begun(m, first, before, a, begun) && Holds(m, b) && b % 32768 == 0 && a + 32768 == b
    requires if a == S.WINDOW then first
             else !first && a > S.WINDOW && |before| == NUM_TREES && before[KEY] == EARLY_ONLY
    ensures |begun| == NUM_TREES && begun[KEY] == Expected(a)
  {
    hide Holds, PutIn;
    ChunkEnds(m, b);
    if a > S.WINDOW {
      PutInSlot(m, b, before, a - 50, 50, a + 4 - S.WINDOW);
    }
  }

  lemma GrewSlot(m: seq<byte>, begun: seq<Tree>, a: nat, b: nat, grown: seq<Tree>)
    requires P.Grew(m, begun, a, b, grown) && Holds(m, b) && b % 32768 == 0 && S.WINDOW <= a < b
    requires |begun| == NUM_TREES && begun[KEY] == Expected(a)
    ensures |grown| == NUM_TREES && grown[KEY] == Expected(b)
  {
    hide Holds, Passes, Expected;
    Sizes();
    if a <= b && Passes(m, begun, a, b, grown) {
      PassesSlot(m, begun, a, b, grown);
    } else {
      PassesSlot(m, NoTrees(), S.WINDOW, b, grown);
    }
  }

  lemma PassesSlot(m: seq<byte>, begun: seq<Tree>, a: nat, b: nat, grown: seq<Tree>)
    requires Passes(m, begun, a, b, grown) && Holds(m, b) && b % 32768 == 0 && S.WINDOW <= a <= b
    requires |begun| == NUM_TREES && begun[KEY] == Expected(a)
    ensures |grown| == NUM_TREES && grown[KEY] == Expected(b)
  {
    hide Holds, Passed, Readable, Expected;
    var ss :| Passed(m, a, b, ss) && Readable(m, ss) && grown == Grown(m, begun, ss);
    GrownSlot(m, b, begun, a, b, ss);
  }

  /** Four whole chunks of these data, however they are parsed: at the end the earlier position is in no tree, although
      it was in its tree a chunk before and lies after the bound of the next search. */
  lemma PositionLost(m1: seq<byte>, m2: seq<byte>, m3: seq<byte>, m4: seq<byte>,
                     t0: seq<Tree>, t1: seq<Tree>, t2: seq<Tree>, t3: seq<Tree>, t4: seq<Tree>)
    requires P.Leaves(m1, true, t0, 131072, 163840, t1) && Holds(m1, 163840)
    requires P.Leaves(m2, false, t1, 163840, 196608, t2) && Holds(m2, 196608)
    requires P.Leaves(m3, false, t2, 196608, 229376, t3) && Holds(m3, 229376)
    requires P.Leaves(m4, false, t3, 229376, 262144, t4) && Holds(m4, 262144)
    ensures |t3| == |t4| == NUM_TREES && EARLY > 262144 - (S.WINDOW - 4)
    ensures EARLY in Nodes(t3[KEY]) && t4[KEY] == Empty
  {
    hide *;
    Sizes();
    ChunkSlot(m1, true, t0, 131072, 163840, t1);
    ChunkSlot(m2, false, t1, 163840, 196608, t2);
    ChunkSlot(m3, false, t2, 196608, 229376, t3);
    ChunkSlot(m4, false, t3, 229376, 262144, t4);
    EarlyIn();
  }

  lemma EarlyIn()
    ensures EARLY in Nodes(EARLY_ONLY)
  {
  }
}
