/** The match finder's arrays, and what inserting, finding and removing a position do to all trees. */
module Searching {
  import opened Bits
  import opened MatchTree
  import opened LinkedTrees
  import opened TreeMerge
  import opened MatchFinder
  import opened SearchTrees
  import opened RepeatedOffsets
  import opened Expiry
  import S = Slots
  import T = Tokens

  /** The trees after position s has been inserted, with positions up to end expired. */
  ghost function Inserted(m: seq<byte>, trees: seq<Tree>, s: nat, end: nat): seq<Tree>
    requires |trees| == NUM_TREES && s + 2 <= |m|
  {
    var live, k := AllLive(trees, end), Key(m, s);
    live[k := Insert(m, live[k], s)]
  }

  // ---------- Many insertions ----------

  /** Up to where positions have expired when s is inserted. */
  ghost function Bound(s: nat): nat {
    if s + 4 < S.WINDOW then 0 else s + 4 - S.WINDOW
  }

  ghost predicate Readable(m: seq<byte>, ss: seq<nat>) {
    forall i :: 0 <= i < |ss| ==> ss[i] + 2 <= |m|
  }

  /** The trees after the positions ss have been inserted. */
  ghost function Grown(m: seq<byte>, trees: seq<Tree>, ss: seq<nat>): (r: seq<Tree>)
    requires |trees| == NUM_TREES && Readable(m, ss)
    ensures |r| == NUM_TREES
  {
    if ss == [] then trees
    else
      var s := ss[|ss| - 1];
      Inserted(m, Grown(m, trees, ss[..|ss| - 1]), s, Bound(s))
  }

  /** Position p is inside a run of one byte, not at its first two places. */
  predicate InRun(m: seq<byte>, p: nat) {
    2 <= p < |m| && m[p - 2] == m[p - 1] == m[p]
  }

  /** Positions from a on and before b in order, all of them but for some inside runs. */
  ghost predicate Passed(m: seq<byte>, a: nat, b: nat, ss: seq<nat>) {
    && (forall i :: 0 <= i < |ss| ==> a <= ss[i] < b) && (forall i, j :: 0 <= i < j < |ss| ==> ss[i] < ss[j])
    && forall p :: a <= p < b && p !in ss ==> InRun(m, p)
  }

  /** Passing from a to b has put the positions between into the trees. */
  ghost predicate Passes(m: seq<byte>, before: seq<Tree>, a: nat, b: nat, after: seq<Tree>) {
    |before| == NUM_TREES && exists ss :: Passed(m, a, b, ss) && Readable(m, ss) && after == Grown(m, before, ss)
  }

  /** Before any insertion. */
  ghost function NoTrees(): seq<Tree> {
    seq(NUM_TREES, i => Empty)
  }

  lemma PassesNone(m: seq<byte>, trees: seq<Tree>, a: nat)
    requires |trees| == NUM_TREES
    ensures Passes(m, trees, a, a, trees)
  {
    hide Inserted, InRun;
    var ss: seq<nat> := [];
    assert Passed(m, a, a, ss) && Readable(m, ss) && trees == Grown(m, trees, ss);
  }

  lemma PassesOne(m: seq<byte>, trees: seq<Tree>, s: nat)
    requires |trees| == NUM_TREES && s + 2 <= |m|
    ensures Passes(m, trees, s, s + 1, Inserted(m, trees, s, Bound(s)))
  {
    hide Inserted, InRun;
    var ss := [s];
    assert ss[..0] == [] && Grown(m, trees, ss[..0]) == trees;
    assert Passed(m, s, s + 1, ss) && Readable(m, ss) && Inserted(m, trees, s, Bound(s)) == Grown(m, trees, ss);
  }

  lemma {:induction false} GrownMore(m: seq<byte>, trees: seq<Tree>, ss: seq<nat>, tt: seq<nat>)
    requires |trees| == NUM_TREES && Readable(m, ss) && Readable(m, tt)
    ensures Readable(m, ss + tt) && Grown(m, trees, ss + tt) == Grown(m, Grown(m, trees, ss), tt)
    decreases |tt|
  {
    hide Inserted;
    if tt == [] {
      assert ss + tt == ss;
    } else {
      GrownMore(m, trees, ss, tt[..|tt| - 1]);
      assert (ss + tt)[..|ss + tt| - 1] == ss + tt[..|tt| - 1];
    }
  }

  lemma PassesOn(m: seq<byte>, a: nat, b: nat, c: nat, t: seq<Tree>, u: seq<Tree>, v: seq<Tree>)
    requires Passes(m, t, a, b, u) && Passes(m, u, b, c, v) && a <= b <= c
    ensures Passes(m, t, a, c, v)
  {
    hide Grown, InRun, Passed;
    var ss :| Passed(m, a, b, ss) && Readable(m, ss) && u == Grown(m, t, ss);
    var tt :| Passed(m, b, c, tt) && Readable(m, tt) && v == Grown(m, u, tt);
    GrownMore(m, t, ss, tt);
    PassedOn(m, a, b, c, ss, tt);
  }

  lemma PassedOn(m: seq<byte>, a: nat, b: nat, c: nat, ss: seq<nat>, tt: seq<nat>)
    requires Passed(m, a, b, ss) && Passed(m, b, c, tt) && a <= b <= c
    ensures Passed(m, a, c, ss + tt)
  {
    hide InRun;
  }

  /** The rest of a run may be passed over. */
  lemma PassesRun(m: seq<byte>, t: seq<Tree>, a: nat, b: nat, c: nat, u: seq<Tree>)
    requires Passes(m, t, a, b, u) && b <= c && forall p :: b <= p < c ==> InRun(m, p)
    ensures Passes(m, t, a, c, u)
  {
    hide Grown, InRun;
    var ss :| Passed(m, a, b, ss) && Readable(m, ss) && u == Grown(m, t, ss);
    assert Passed(m, a, c, ss);
  }

  /** The trees after the n positions from a on have been put back, with one bound. */
  ghost function PutIn(m: seq<byte>, trees: seq<Tree>, a: nat, n: nat, end: nat): (r: seq<Tree>)
    requires |trees| == NUM_TREES && a + n + 1 <= |m|
    ensures |r| == NUM_TREES
  {
    if n == 0 then trees else Inserted(m, PutIn(m, trees, a, n - 1, end), a + n - 1, end)
  }

  lemma PutInIs(m: seq<byte>, trees: seq<Tree>, a: nat, n: nat, end: nat)
    requires |trees| == NUM_TREES && a + n + 1 <= |m|
    ensures n == 0 ==> PutIn(m, trees, a, n, end) == trees
    ensures n > 0 ==> PutIn(m, trees, a, n, end) == Inserted(m, PutIn(m, trees, a, n - 1, end), a + n - 1, end)
  {
    hide Inserted;
  }

  /** The trees after the n positions from a on have been inserted in turn. */
  ghost function InTurn(m: seq<byte>, trees: seq<Tree>, a: nat, n: nat): (r: seq<Tree>)
    requires |trees| == NUM_TREES && a + n + 1 <= |m|
    ensures |r| == NUM_TREES
  {
    if n == 0 then trees else Inserted(m, InTurn(m, trees, a, n - 1), a + n - 1, Bound(a + n - 1))
  }

  lemma InTurnIs(m: seq<byte>, trees: seq<Tree>, a: nat, n: nat)
    requires |trees| == NUM_TREES && a + n + 1 <= |m|
    ensures InTurn(m, trees, a, 0) == trees
    ensures n > 0 ==> InTurn(m, trees, a, n) == Inserted(m, InTurn(m, trees, a, n - 1), a + n - 1, Bound(a + n - 1))
  {
    hide Inserted, Bound;
  }

  /** What a search at s has found in the tree t: the longest match with any live position, the nearest
      position for every length, and then the repeated offsets. */
  ghost predicate Found(m: seq<byte>, t: Tree, s: nat, q: T.Queue, len: nat, table: seq<nat>, full: nat,
                        found: seq<nat>) {
    if t == Empty then len == 0
    else
      && 2 <= full <= MAX_MATCH && s + full <= |m| && q.r0 <= s && q.r1 <= s && q.r2 <= s && |table| == 258
      && Filled(m, t, s, full, found) && Longest(m, t, s, full) && len == Bounded(s, full)
      && forall l: nat :: 2 <= l <= full ==>
           table[l] == Preferred(Agreed(m, s, q.r0, full), Agreed(m, s, q.r1, full), Agreed(m, s, q.r2, full), l,
                                 found[l])
  }

  /** Everything found is usable. */
  lemma FoundTable(m: seq<byte>, t: Tree, start: nat, s: nat, q: T.Queue, len: nat, table: seq<nat>, full: nat,
                   found: seq<nat>, end: nat)
    requires Found(m, t, s, q, len, table, full, found) && |table| == 258 && Aged(t, start, s)
             && s - (S.WINDOW - 4) <= end
    requires forall x :: x in Nodes(t) ==> x > end
    requires t.Node? ==> start < s && QueueInside(q, s - start)
    ensures TableUsable(m, s, start, q, len, table)
  {
    hide Bounded, Preferred, Agreed, Longest, Nearest, Nodes, Key, Usable;
    if t.Node? {
      BoundedLess(s, full);
      forall l: nat | 2 <= l <= len ensures Usable(m, s, start, q, l, table[l]) {
        var p := s - (found[l] - 2);
        NearestNode(m, t, s, l, p);
        FoundUsable(m, s, start, q, l, t, p, end);
        PreferredUsable(m, s, start, q, full, l, found[l]);
      }
    } 
  }

  lemma BoundedLess(s: nat, len: nat)
    ensures Bounded(s, len) <= len
  {
  }

  lemma NearestNode(m: seq<byte>, t: Tree, s: nat, l: nat, q: nat)
    requires Nearest(m, t, s, l, q)
    ensures q in Nodes(t)
  {
  }

  class Finder {
    const mem: array<byte>
    const root: array<nat>
    const left: array<nat>
    const right: array<nat>
    const table: array<nat>
    const start: nat
    ghost var trees: seq<Tree>
    ghost var end: nat

    ghost predicate Layout() {
      && root.Length == NUM_TREES && left.Length == right.Length && left.Length + MAX_MATCH <= mem.Length
         && table.Length == 258
      && root != left && root != right && left != right && table !in {root, left, right}
         && mem as object !in {root, left, right, table}
    }

    /** Every tree is a search tree over positions from start on and before next; positions up to end
        have expired. */
    ghost predicate Valid(next: nat)
      reads this, mem, root, left, right
    {
      Layout() && Forest(mem[..], root[..], left[..], right[..], end, trees, start, next)
    }

    lemma ValidParts(next: nat)
      requires Valid(next)
      ensures Layout() && Forest(mem[..], root[..], left[..], right[..], end, trees, start, next)
      ensures |trees| == NUM_TREES
    {
      hide Rooted;
    }

    lemma ValidMake(next: nat)
      requires Layout() && Forest(mem[..], root[..], left[..], right[..], end, trees, start, next)
      ensures Valid(next)
    {
      hide Rooted;
    }

    lemma LayoutParts()
      requires Layout()
      ensures root.Length == NUM_TREES == 65536 && left.Length == right.Length && left.Length + MAX_MATCH <= mem.Length
              && table.Length == 258
      ensures root != left && root != right && left != right && table !in {root, left, right}
              && mem as object !in {root, left, right, table}
    {
    }

    /** The tree that a position at s goes into, once older positions have expired. */
    lemma TreeFor(next: nat, s: nat, e: nat)
      requires Valid(next) && next <= s && start <= s < left.Length && end <= e < s
      ensures InRange(mem[..], s) && |trees| == NUM_TREES && s + 2 <= |mem[..]|
      ensures var k := Key(mem[..], s); var t := Live(trees[k], e);
              && Forest(mem[..], root[..], left[..], right[..], e, AllLive(trees, e), start, next)
              && Linked(left[..], right[..], root[k], e, t) && Treap(mem[..], t) && Keyed(mem[..], k, t) && Newer(s, t)
                 && Aged(t, start, s)
              && (t.Node? <==> root[k] > e) && AllLive(trees, e)[k] == t
      ensures var k := Key(mem[..], s); forall x :: x in Nodes(Live(trees[k], e)) ==> x > e
    {
      hide Rooted, Linked, Treap, Keyed, Newer, Aged, Live, Key, Forest, Nodes;
      ValidParts(next);
      LayoutParts();
      ForestLive(mem[..], root[..], left[..], right[..], end, trees, start, next, e);
      var k := Key(mem[..], s);
      ForestAt(mem[..], root[..], left[..], right[..], e, AllLive(trees, e), start, next, k);
      ForestAt(mem[..], root[..], left[..], right[..], end, trees, start, next, k);
      RootedParts(mem[..], left[..], right[..], root[k], end, trees[k], k, start, next);
      RootedParts(mem[..], left[..], right[..], root[k], e, Live(trees[k], e), k, start, next);
      AgedNewer(Live(trees[k], e), start, next, s);
      LiveNodes(mem[..], trees[k], e);
    }

    /** The forest after the tree of s has got s at its root. */
    lemma InsertedForest(roots: seq<nat>, l: seq<nat>, r: seq<nat>, next: nat, s: nat, e: nat, live: seq<Tree>)
      requires Layout() && Forest(mem[..], roots, l, r, e, live, start, next) && next <= s && start <= s
               && InRange(mem[..], s)
      requires var k := Key(mem[..], s);
               && root[..] == roots[k := s] && Newer(s, live[k]) && Aged(live[k], start, s)
               && Linked(left[..], right[..], s, e, Insert(mem[..], live[k], s))
               && Outside(left[..], l, live[k], s) && Outside(right[..], r, live[k], s)
      ensures var k := Key(mem[..], s);
              Forest(mem[..], root[..], left[..], right[..], e, live[k := Insert(mem[..], live[k], s)], start, s + 1)
    {
      hide Rooted, Linked, Treap, Keyed, Newer, Aged, Live, Key, Forest, Nodes, Outside, Insert;
      var m := mem[..];
      var k := Key(m, s);
      ForestAt(m, roots, l, r, e, live, start, next, k);
      RootedParts(m, l, r, roots[k], e, live[k], k, start, next);
      InsertRooted(m, live[k], k, start, s, left[..], right[..], e);
      ForestChange(m, roots, l, r, e, live, start, next, left[..], right[..], k, s, s, Insert(m, live[k], s), s + 1);
    }

    /** quick_insert_bsearch_findmatch. */
    method QuickInsert(s: nat, e: nat, ghost next: nat)
      requires Valid(next) && next <= s && start <= s < left.Length && end <= e < s
      modifies this`trees, this`end, root, left, right
      ensures Valid(s + 1) && end == e && trees == Inserted(mem[..], old(trees), s, e)
    {
      hide *;
      TreeFor(next, s, e);
      ValidParts(next);
      LayoutParts();
      KeySum(mem[..], s);
      var k: nat := mem[s] as int + 256 * (mem[s + 1] as int);
      ghost var m, roots, l, r, live := mem[..], root[..], left[..], right[..], AllLive(trees, e);
      var ptr := root[k];
      root[k] := s;
      QuickInsertAt(mem, left, right, ptr, s, e, live[k], k);
      InsertedForest(roots, l, r, next, s, e, live);
      InsertedIs(m, trees, s, e, live);
      trees, end := Inserted(m, trees, s, e), e;
      ValidMake(s + 1);
    }

    /** The insertion of a position that starts its tree. */
    method InsertAlone(s: nat, e: nat, ghost t: Tree)
      requires Layout() && e < s < left.Length && t == Empty
      modifies left, right
      ensures Linked(left[..], right[..], s, e, MatchTree.Insert(mem[..], t, s))
      ensures Outside(left[..], old(left[..]), t, s) && Outside(right[..], old(right[..]), t, s)
    {
      hide *;
      LayoutParts();
      ghost var l, r := left[..], right[..];
      left[s], right[s] := 0, 0;
      AloneLinked(mem[..], left[..], right[..], s, e);
      OutsideAlone(left[..], l, t, s);
      OutsideAlone(right[..], r, t, s);
    }

    /** binary_search_findmatch. */
    method Find(s: nat, q: T.Queue, ghost next: nat) returns (len: nat, ghost full: nat, ghost found: seq<nat>)
      requires Valid(next) && next <= s && start <= s < left.Length && S.WINDOW <= s && end <= s - (S.WINDOW - 4)
      requires s > start ==> QueueInside(q, s - start)
      modifies this`trees, this`end, root, left, right, table
      ensures Valid(s + 1) && end == s - (S.WINDOW - 4) && trees == Inserted(mem[..], old(trees), s, end)
      ensures Found(mem[..], Live(old(trees)[Key(mem[..], s)], end), s, q, len, table[..], full, found)
      ensures TableUsable(mem[..], s, start, q, len, table[..]) && len <= MAX_MATCH
              && (len == 0 || (s % T.FRAME + len < T.FRAME && len >= 2))
    {
      hide *;
      WindowSize();
      var e: nat := s - 131068;
      TreeFor(next, s, e);
      ValidParts(next);
      LayoutParts();
      KeySum(mem[..], s);
      var k: nat := mem[s] as int + 256 * (mem[s + 1] as int);
      ghost var m, roots, l, r, live := mem[..], root[..], left[..], right[..], AllLive(trees, e);
      ghost var t := live[k];
      var ptr := root[k];
      root[k] := s;
      full, found := 0, [];
      if ptr <= e {
        InsertAlone(s, e, t);
        len := 0;
        FoundNone(m, t, s, q, table[..]);
      } else {
        TreeBefore(t, start, s, q);
        var longest := FindLongest(mem, left, right, table, ptr, s, e, t, k);
        full, found := longest, table[..];
        PreferRepeated(mem, table, s, longest, q);
        var room := 32767 - s % 32768;
        len := longest;
        if len > room {
          len := room;
          if len < 2 {
            len := 0;
          }
        }
        FoundMake(m, t, s, q, len, table[..], full, found);
      }
      InsertedForest(roots, l, r, next, s, e, live);
      InsertedIs(m, trees, s, e, live);
      FoundTable(m, t, start, s, q, len, table[..], full, found, e);
      FoundBounds(m, t, s, q, len, table[..], full, found);
      trees, end := Inserted(m, trees, s, e), e;
      ValidMake(s + 1);
    }

    /** Where the tree of s may be changed. */
    lemma TreeOf(s: nat)
      requires Valid(s + 1) && s < left.Length && start <= s
      ensures InRange(mem[..], s) && |trees| == NUM_TREES && s + 2 <= |mem[..]|
      ensures var k := Key(mem[..], s);
              Rooted(mem[..], left[..], right[..], root[k], end, trees[k], k, start, s + 1)
              && Treap(mem[..], trees[k]) && Keyed(mem[..], k, trees[k]) && Aged(trees[k], start, s + 1)
              && Linked(left[..], right[..], root[k], end, trees[k]) && (trees[k].Node? ==> trees[k].pos == root[k])
              && (trees[k].Node? <==> root[k] > end)
    {
      hide Rooted, Linked, Treap, Keyed, Newer, Aged, Live, Key, Forest, Nodes;
      ValidParts(s + 1);
      LayoutParts();
      var k := Key(mem[..], s);
      ForestAt(mem[..], root[..], left[..], right[..], end, trees, start, s + 1, k);
      RootedParts(mem[..], left[..], right[..], root[k], end, trees[k], k, start, s + 1);
    }

    /** binary_search_remove_node, for the newest position: whether or not it is in a tree, it is in none
        afterwards. */
    method Remove(s: nat, cut: nat)
      requires Valid(s + 1) && s < left.Length && start <= s && end <= cut && end < s
      modifies this`trees, root, left, right
      ensures Valid(s) && trees == Withdrawn(mem[..], old(trees), s, cut)
    {
      hide *;
      ValidParts(s + 1);
      LayoutParts();
      TreeOf(s);
      KeySum(mem[..], s);
      var k: nat := mem[s] as int + 256 * (mem[s + 1] as int);
      ghost var m, roots, l, r, t := mem[..], root[..], left[..], right[..], trees[k];
      WithdrawnIs(m, trees, s, cut);
      if root[k] != s {
        NotRoot(m, l, r, root[k], end, t, k, start, s);
        OutsideNone(l, t, s);
        OutsideNone(r, t, s);
        ForestChange(m, roots, l, r, end, trees, start, s + 1, l, r, k, s, root[k], t, s);
        assert roots[k := root[k]] == roots && trees[k := t] == trees;
        ValidMake(s);
        return;
      }
      var newRoot := RemoveRootAt(left, right, s, end, cut, m, t);
      root[k] := newRoot;
      assert root[..] == roots[k := newRoot];
      RemoveRooted(m, t, k, start, s, newRoot, left[..], right[..], end, cut);
      ForestChange(m, roots, l, r, end, trees, start, s + 1, left[..], right[..], k, s, newRoot, Removed(t, cut), s);
      trees := trees[k := Removed(t, cut)];
      ValidMake(s);
    }

    /** The last positions are taken out again, newest first: afterwards no tree holds any of them. Of the others none
        after the higher bound is lost; and none that the next search would accept is lost, if and only if each of
        those between the two bounds was shielded. */
    method CutBack(bufPos: nat)
      requires Valid(bufPos) && start + 50 <= bufPos <= left.Length && S.WINDOW <= bufPos
               && end + S.WINDOW <= bufPos + 54
      modifies this`trees, root, left, right
      ensures Valid(bufPos - 50) && end == old(end)
      ensures |old(trees)| == NUM_TREES && bufPos + 1 <= |mem[..]|
      ensures trees == TakenOut(mem[..], old(trees), bufPos, 50, bufPos + 54 - S.WINDOW)
      ensures Keeps(old(trees), trees, bufPos + 54 - S.WINDOW, bufPos - 50)
      ensures Keeps(old(trees), trees, bufPos + 4 - S.WINDOW, bufPos - 50)
              <==> Shielding(mem[..], old(trees), bufPos, 50, bufPos + 4 - S.WINDOW, bufPos + 54 - S.WINDOW)
    {
      hide *;
      WindowSize();
      ValidParts(bufPos);
      LayoutParts();
      ValidOrdered(bufPos);
      var cut: nat := bufPos - 131018;
      var i: nat := 1;
      ghost var m := mem[..];
      TakenIs(m, trees, bufPos, 0, cut);
      while i <= 50
        invariant 1 <= i <= 51 && Valid(bufPos - (i - 1)) && end == old(end) && mem[..] == m
        invariant trees == TakenOut(m, old(trees), bufPos, i - 1, cut)
      {
        TakenIs(m, old(trees), bufPos, i, cut);
        Remove(bufPos - i, cut);
        i := i + 1;
      }
      TakenOrdered(m, old(trees), bufPos, 50, cut);
      TakenLossless(m, old(trees), bufPos, 50, bufPos - 131068, cut);
    }

    lemma ValidOrdered(next: nat)
      requires Valid(next)
      ensures Ordered(mem[..], trees, next) && |trees| == NUM_TREES
    {
      hide Treap, Linked, Less, Key, Nodes;
    }

    /** The same positions are put back, oldest first. */
    method PutBack(bufPos: nat)
      requires start + 50 <= bufPos <= left.Length && S.WINDOW <= bufPos && end + S.WINDOW <= bufPos + 4
               && Valid(bufPos - 50)
      modifies this`trees, this`end, root, left, right
      ensures Valid(bufPos) && end + S.WINDOW == bufPos + 4
      ensures |old(trees)| == NUM_TREES && bufPos + 1 <= |mem[..]|
      ensures trees == PutIn(mem[..], old(trees), bufPos - 50, 50, end)
    {
      hide *;
      WindowSize();
      ValidParts(bufPos - 50);
      LayoutParts();
      var i: nat := 50;
      ghost var m := mem[..];
      PutInIs(m, trees, bufPos - 50, 0, bufPos - 131068);
      while i > 0
        invariant 0 <= i <= 50 && Valid(bufPos - i) && end + S.WINDOW <= bufPos + 4
                  && (i < 50 ==> end + S.WINDOW == bufPos + 4)
        invariant mem[..] == m && trees == PutIn(m, old(trees), bufPos - 50, 50 - i, bufPos - 131068)
      {
        PutInIs(m, old(trees), bufPos - 50, 51 - i, bufPos - 131068);
        QuickInsert(bufPos - i, bufPos - 131068, bufPos - i);
        i := i - 1;
      }
    }

    /** More input has been read into the window. */
    lemma StillValid(m: seq<byte>, next: nat, n: nat)
      requires Layout() && Forest(m, root[..], left[..], right[..], end, trees, start, next)
      requires |m| == mem.Length && n <= mem.Length && m[..n] == mem[..n] && next + BREAK_LENGTH <= n + 1
      ensures Valid(next)
    {
      hide Rooted, Forest;
      assert mem[..][..n] == mem[..n];
      ForestReads(m, mem[..], root[..], left[..], right[..], end, trees, start, next, n);
    }

    /** When the window moves on at the end of a chunk only the last window of bytes and links is kept. That is all
        that the trees need from the next insertion on, whatever the rest becomes. */
    lemma SlideKeeps(bufPos: nat, next: nat, m: seq<byte>, l: seq<nat>, r: seq<nat>)
      requires Valid(next) && S.WINDOW <= bufPos && end + S.WINDOW <= bufPos + 4
      requires SameFrom(mem[..], m, bufPos - S.WINDOW)
      requires SameFrom(left[..], l, bufPos - S.WINDOW) && SameFrom(right[..], r, bufPos - S.WINDOW)
      ensures Forest(m, root[..], l, r, bufPos + 4 - S.WINDOW, AllLive(trees, bufPos + 4 - S.WINDOW), start, next)
    {
      hide *;
      ValidParts(next);
      ForestSlid(mem[..], m, root[..], left[..], right[..], l, r, end, trees, start, next,
                 bufPos - S.WINDOW, bufPos + 4 - S.WINDOW);
    }

    lemma ValidLater(next: nat, next': nat)
      requires Valid(next) && next <= next'
      ensures Valid(next')
    {
      hide Linked, Treap, Keyed;
    }

    /** No position has been inserted. */
    ghost predicate Blank()
      reads this, root
    {
      Layout() && end == 0 && |trees| == NUM_TREES && forall k :: 0 <= k < NUM_TREES ==>
        root[k] == 0 && trees[k] == Empty
    }

    lemma BlankMake()
      requires Layout() && end == 0 && |trees| == NUM_TREES && forall k :: 0 <= k < 65536 ==>
                 root[k] == 0 && trees[k] == Empty
      ensures Blank()
    {
    }

    /** Whatever the window holds, empty trees are search trees. */
    lemma BlankValid()
      requires Blank()
      ensures Valid(start) && end == 0
    {
    }

    lemma BlankTrees()
      requires Blank()
      ensures trees == NoTrees()
    {
    }

    constructor (mem: array<byte>, start: nat, size: nat)
      requires size + MAX_MATCH <= mem.Length
      ensures Blank() && this.mem == mem && this.start == start && left.Length == size
      ensures fresh(root) && fresh(left) && fresh(right) && fresh(table)
    {
      this.mem, this.start := mem, start;
      this.root := new nat[65536](i => 0);
      this.left := new nat[size](i => 0);
      this.right := new nat[size](i => 0);
      this.table := new nat[258](i => 0);
      this.trees := seq(65536, i => Empty);
      this.end := 0;
    }

    /** All trees are emptied. */
    method Forget()
      requires Layout()
      modifies this`trees, this`end, root
      ensures Valid(start) && end == 0 && trees == NoTrees()
    {
      hide *;
      LayoutParts();
      var k: nat := 0;
      while k < 65536
        invariant 0 <= k <= 65536 && forall j :: 0 <= j < k ==> root[j] == 0
      {
        root[k] := 0;
        k := k + 1;
      }
      trees, end := seq(65536, i => Empty), 0;
      BlankMake();
      BlankValid();
      BlankTrees();
    }
  }

  lemma WindowSize()
    ensures S.WINDOW == 131072 && T.FRAME == 32768 && MAX_MATCH == 257
  {
  }

  lemma KeySum(m: seq<byte>, s: nat)
    requires s + 2 <= |m|
    ensures Key(m, s) == m[s] as int + 256 * (m[s + 1] as int) < NUM_TREES
  {
  }

  lemma InsertedIs(m: seq<byte>, trees: seq<Tree>, s: nat, e: nat, live: seq<Tree>)
    requires |trees| == NUM_TREES && s + 2 <= |m| && live == AllLive(trees, e)
    ensures Inserted(m, trees, s, e) == live[Key(m, s) := MatchTree.Insert(m, live[Key(m, s)], s)]
    ensures live[Key(m, s)] == Live(trees[Key(m, s)], e)
  {
    hide Insert, Key, Live;
  }

  lemma FoundNone(m: seq<byte>, t: Tree, s: nat, q: T.Queue, table: seq<nat>)
    requires t == Empty
    ensures Found(m, t, s, q, 0, table, 0, [])
  {
  }

  lemma TreeBefore(t: Tree, start: nat, s: nat, q: T.Queue)
    requires t.Node? && Aged(t, start, s) && (s > start ==> QueueInside(q, s - start))
    ensures start < s && QueueInside(q, s - start) && q.r0 <= s && q.r1 <= s && q.r2 <= s
  {
    assert t.pos in Nodes(t);
  }

  lemma FoundMake(m: seq<byte>, t: Tree, s: nat, q: T.Queue, len: nat, table: seq<nat>, full: nat, found: seq<nat>)
    requires t.Node? && 2 <= full <= MAX_MATCH && s + full <= |m| && q.r0 <= s && q.r1 <= s && q.r2 <= s
             && |table| == 258
    requires Filled(m, t, s, full, found) && Longest(m, t, s, full)
    requires len == if full > 32767 - s % 32768 then (if 32767 - s % 32768 < 2 then 0 else 32767 - s % 32768) else full
    requires forall l: nat :: 2 <= l <= full ==>
           table[l] == Preferred(Agreed(m, s, q.r0, full), Agreed(m, s, q.r1, full), Agreed(m, s, q.r2, full), l,
                                 found[l])
    ensures Found(m, t, s, q, len, table, full, found)
  {
    hide Preferred, Agreed, Longest, Nearest, Nodes;
  }

  lemma FoundBounds(m: seq<byte>, t: Tree, s: nat, q: T.Queue, len: nat, table: seq<nat>, full: nat, found: seq<nat>)
    requires Found(m, t, s, q, len, table, full, found)
    ensures len <= MAX_MATCH && (len == 0 || (s % T.FRAME + len < T.FRAME && len >= 2))
  {
    hide Preferred, Agreed, Longest, Nearest, Nodes, Filled;
  }

  lemma OutsideNone(l: seq<nat>, t: Tree, s: nat)
    ensures Outside(l, l, t, s)
  {
  }
}
