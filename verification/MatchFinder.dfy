/** The match finder: positions are inserted into the search tree of their first two bytes, and the
    longest matches are found on the way down. */
module MatchFinder {
  import opened Bits
  import opened MatchTree
  import opened LinkedTrees
  import opened TreeSplit
  import opened TreeMerge

  const NUM_TREES: nat := 65536

  /** The search tree of a position. */
  function Key(m: seq<byte>, p: nat): (k: nat)
    requires p + 2 <= |m|
    ensures k < NUM_TREES
  {
    m[p] as int + 256 * (m[p + 1] as int)
  }

  ghost predicate Keyed(m: seq<byte>, k: nat, t: Tree) {
    forall q :: q in Nodes(t) ==> InRange(m, q) && Key(m, q) == k
  }

  lemma KeyMatches(m: seq<byte>, a: nat, b: nat)
    requires InRange(m, a) && InRange(m, b) && Key(m, a) == Key(m, b)
    ensures Match(m, a, b) >= 2
  {
    hide Common;
    MatchAgrees(m, a, b);
    assert EqualAt(m, a, b, 0) && EqualAt(m, a, b, 1);
  }

  // ---------- Skipping bytes that are known to agree ----------

  /** Smaller strings of the subtree agree with s on big bytes, larger ones on small bytes. */
  ghost predicate Skips(m: seq<byte>, s: nat, u: Tree, small: nat, big: nat) {
    InRange(m, s) && small < BREAK_LENGTH && big < BREAK_LENGTH
    && forall x :: x in Nodes(u) ==>
       InRange(m, x) && (Less(m, x, s) ==> Match(m, x, s) >= big) && (Less(m, s, x) ==> Match(m, x, s) >= small)
  }

  /** Skipping min(small, big) bytes skips no mismatch. */
  lemma SkipAgrees(m: seq<byte>, s: nat, u: Tree, small: nat, big: nat, x: nat)
    requires Skips(m, s, u, small, big) && x in Nodes(u)
    ensures InRange(m, x) && Match(m, x, s) >= Min(small, big)
  {
    Trichotomy(m, x, s);
  }

  lemma SkipStart(m: seq<byte>, s: nat, t: Tree, k: nat)
    requires InRange(m, s) && Keyed(m, k, t) && Key(m, s) == k
    ensures Skips(m, s, t, 2, 2)
  {
    hide Match, Less;
    forall x | x in Nodes(t) ensures InRange(m, x) && Match(m, x, s) >= 2 {
      KeyMatches(m, x, s);
    }
  }

  /** Below a smaller string the smaller ones agree at least as far as it does. */
  lemma SkipBelow(m: seq<byte>, s: nat, u: Tree, small: nat, big: nat)
    requires Skips(m, s, u, small, big) && Treap(m, u) && u.Node? && Smaller(m, u.pos, s)
    ensures Match(m, u.pos, s) >= big && Skips(m, s, u.left, small, Match(m, u.pos, s))
  {
    hide Match, Less;
    var p := u.pos;
    assert p in Nodes(u);
    Trichotomy(m, p, s);
    forall x | x in Nodes(u.left) ensures x in Nodes(u) && (Less(m, x, s) ==> Match(m, x, s) >= Match(m, p, s)) {
      Position(m, p, x, s);
    }
    MatchBelow(m, p, s);
  }

  lemma SkipAbove(m: seq<byte>, s: nat, u: Tree, small: nat, big: nat)
    requires Skips(m, s, u, small, big) && Treap(m, u) && u.Node? && Smaller(m, s, u.pos)
    ensures Match(m, u.pos, s) >= small && Skips(m, s, u.right, Match(m, u.pos, s), big)
  {
    hide Match, Less;
    var p := u.pos;
    assert p in Nodes(u);
    forall x | x in Nodes(u.right) ensures x in Nodes(u) && (Less(m, s, x) ==> Match(m, x, s) >= Match(m, p, s)) {
      Position(m, p, x, s);
    }
    MatchSymmetric(m, p, s);
    MatchBelow(m, s, p);
  }

  lemma MatchBelow(m: seq<byte>, a: nat, b: nat)
    requires Smaller(m, a, b)
    ensures Match(m, a, b) < BREAK_LENGTH
  {
  }

  // ---------- The matches found ----------

  /** q is the newest node of t that agrees with s on len bytes. */
  ghost predicate Nearest(m: seq<byte>, t: Tree, s: nat, len: nat, q: nat) {
    && q in Nodes(t) && AllInRange(m, t) && InRange(m, s) && Match(m, q, s) >= len
    && forall x :: x in Nodes(t) && Match(m, x, s) >= len ==> x <= q
  }

  /** Every entry of the table up to length len gives the distance of the nearest match, plus 2. */
  ghost predicate Filled(m: seq<byte>, t: Tree, s: nat, len: nat, table: seq<nat>) {
    |table| == 258 && len <= MAX_MATCH
    && forall l: nat :: 2 <= l <= len ==> table[l] >= 2 && table[l] - 2 <= s && Nearest(m, t, s, l, s - (table[l] - 2))
  }

  /** Nodes outside the subtree still to be searched match on at most len bytes. */
  ghost predicate Searched(m: seq<byte>, t: Tree, u: Tree, s: nat, len: nat) {
    AllInRange(m, t) && InRange(m, s) && forall x :: x in Nodes(t) && x !in Nodes(u) ==> Match(m, x, s) <= len
  }

  /** No live position matches on more than len bytes. */
  ghost predicate Longest(m: seq<byte>, t: Tree, s: nat, len: nat) {
    AllInRange(m, t) && InRange(m, s) && forall x :: x in Nodes(t) ==> Match(m, x, s) <= len
  }

  /** The first node visited that matches further than any before is the nearest one for the lengths it adds. */
  lemma NewBest(m: seq<byte>, t: Tree, u: Tree, s: nat, len: nat, l: nat)
    requires Searched(m, t, u, s, len) && Treap(m, u) && u.Node? && Nodes(u) <= Nodes(t)
             && len < l <= Match(m, u.pos, s)
    ensures Nearest(m, t, s, l, u.pos)
  {
    hide Match, Less;
    assert u.pos in Nodes(u);
    forall x | x in Nodes(t) && Match(m, x, s) >= l ensures x <= u.pos {
      RootNewest(m, u, x);
    }
  }

  lemma SearchedBelow(m: seq<byte>, t: Tree, u: Tree, s: nat, len: nat, now: nat)
    requires Searched(m, t, u, s, len) && Treap(m, u) && u.Node? && Nodes(u) <= Nodes(t) && Smaller(m, u.pos, s)
    requires len <= now && Match(m, u.pos, s) <= now
    ensures Searched(m, t, u.left, s, now)
  {
    hide Match, Less;
    forall x | x in Nodes(t) && x !in Nodes(u.left) ensures Match(m, x, s) <= now {
      if x in Nodes(u.right) {
        Position(m, u.pos, x, s);
      }
    }
  }

  lemma SearchedAbove(m: seq<byte>, t: Tree, u: Tree, s: nat, len: nat, now: nat)
    requires Searched(m, t, u, s, len) && Treap(m, u) && u.Node? && Nodes(u) <= Nodes(t) && Smaller(m, s, u.pos)
    requires len <= now && Match(m, u.pos, s) <= now
    ensures Searched(m, t, u.right, s, now)
  {
    hide Match, Less;
    forall x | x in Nodes(t) && x !in Nodes(u.right) ensures Match(m, x, s) <= now {
      if x in Nodes(u.left) {
        Position(m, u.pos, x, s);
      }
    }
  }

  lemma SearchedAll(m: seq<byte>, t: Tree, s: nat, len: nat)
    requires Searched(m, t, Empty, s, len)
    ensures Longest(m, t, s, len)
  {
  }

  /** A node that agrees on 50 bytes is the longest match: all others differ from it sooner. */
  lemma SearchedSame(m: seq<byte>, t: Tree, u: Tree, s: nat, len: nat)
    requires Searched(m, t, u, s, len) && Treap(m, u) && u.Node? && Nodes(u) <= Nodes(t) && Same(m, u.pos, s)
             && len < BREAK_LENGTH
    ensures Longest(m, t, s, Match(m, u.pos, s))
  {
    hide Match, Less;
    assert u.pos in Nodes(u);
    forall x | x in Nodes(t) ensures Match(m, x, s) <= Match(m, u.pos, s) {
      if x in Nodes(u) && x != u.pos {
        NodesDiffer(m, u, x, u.pos);
        ThreeMatches(m, x, u.pos, s);
      }
    }
  }

  lemma FilledStart(m: seq<byte>, t: Tree, s: nat, k: nat, table: seq<nat>)
    requires InRange(m, s) && Keyed(m, k, t) && Key(m, s) == k && Treap(m, t) && t.Node? && Newer(s, t)
    requires |table| == 258 && table[2] == s - t.pos + 2
    ensures Filled(m, t, s, 2, table) && Searched(m, t, t, s, 2)
  {
    hide Match, Less, Treap, Key, Nodes, Keyed, Nearest;
    RootOldest(m, t, s, k);
  }

  lemma RootOldest(m: seq<byte>, t: Tree, s: nat, k: nat)
    requires InRange(m, s) && Keyed(m, k, t) && Key(m, s) == k && Treap(m, t) && t.Node? && Newer(s, t)
    ensures Nearest(m, t, s, 2, t.pos) && AllInRange(m, t) && t.pos < s
  {
    hide Match, Less, Treap, Key;
    assert t.pos in Nodes(t);
    KeyMatches(m, t.pos, s);
    forall x | x in Nodes(t) ensures x <= t.pos {
      RootNewest(m, t, x);
    }
  }

  lemma FilledNext(m: seq<byte>, t: Tree, s: nat, len: nat, table: seq<nat>, q: nat)
    requires Filled(m, t, s, len, table) && len < MAX_MATCH && Nearest(m, t, s, len + 1, q) && q <= s
    ensures Filled(m, t, s, len + 1, table[len + 1 := s - q + 2])
  {
    hide Nearest;
  }

  // ---------- Linked arrays ----------

  /** Nothing outside the tree and the new position has changed. */
  ghost predicate Outside(l: seq<nat>, l0: seq<nat>, t: Tree, s: nat) {
    |l| == |l0| && forall i :: 0 <= i < |l| && i != s && i !in Nodes(t) ==> l[i] == l0[i]
  }

  ghost function OpenAt(sp: seq<Step>, s: nat): nat {
    if sp == [] then s else Last(sp)
  }

  lemma OutsideAbove(m: seq<byte>, l: seq<nat>, r: seq<nat>, l0: seq<nat>, r0: seq<nat>, s: nat, t: Tree, u: Tree,
                     c: Chains, v: nat)
    requires Split(m, s, t, u, c) && Outside(l, l0, t, s) && Outside(r, r0, t, s) && s < |l|
             && (c.above != [] ==> Last(c.above) < |r|)
    ensures var (l1, r1) := OpenAbove(l, r, s, c, v); Outside(l1, l0, t, s) && Outside(r1, r0, t, s)
  {
    hide Match, Less, Treap, Above, Below, Plug, Mirror;
    OpenEnds(m, s, t, u, c);
  }

  lemma OutsideBelow(m: seq<byte>, l: seq<nat>, r: seq<nat>, l0: seq<nat>, r0: seq<nat>, s: nat, t: Tree, u: Tree,
                     c: Chains, v: nat)
    requires Split(m, s, t, u, c) && Outside(l, l0, t, s) && Outside(r, r0, t, s) && s < |r|
             && (c.below != [] ==> Last(c.below) < |l|)
    ensures var (l1, r1) := OpenBelow(l, r, s, c, v); Outside(l1, l0, t, s) && Outside(r1, r0, t, s)
  {
    hide Match, Less, Treap, Above, Below, Plug, Mirror;
    OpenEnds(m, s, t, u, c);
  }

  /** *small_ptr = v. */
  method StoreSmall(left: array<nat>, right: array<nat>, s: nat, at: nat, v: nat, ghost c: Chains)
    requires s < left.Length == right.Length && at == OpenAt(c.above, s) && left != right
    requires c.above != [] ==> Last(c.above) < right.Length && Last(c.above) != s
    modifies left, right
    ensures (left[..], right[..]) == OpenAbove(old(left[..]), old(right[..]), s, c, v)
  {
    if at == s {
      left[s] := v;
    } else {
      right[at] := v;
    }
  }

  /** *big_ptr = v. */
  method StoreBig(left: array<nat>, right: array<nat>, s: nat, at: nat, v: nat, ghost c: Chains)
    requires s < left.Length == right.Length && at == OpenAt(c.below, s) && left != right
    requires c.below != [] ==> Last(c.below) < left.Length && Last(c.below) != s
    modifies left, right
    ensures (left[..], right[..]) == OpenBelow(old(left[..]), old(right[..]), s, c, v)
  {
    if at == s {
      right[s] := v;
    } else {
      left[at] := v;
    }
  }

  /** The split of t at s has reached u, linked from ptr; small and big are the open ends. */
  ghost predicate Splitting(m: seq<byte>, l: seq<nat>, r: seq<nat>, l0: seq<nat>, r0: seq<nat>, s: nat, end: nat,
                            t: Tree, u: Tree, ptr: nat, c: Chains, small: nat, big: nat) {
    && Split(m, s, t, u, c) && Stored(l, r, s, end, u, ptr, c) && Outside(l, l0, t, s) && Outside(r, r0, t, s)
    && small == OpenAt(c.above, s) && big == OpenAt(c.below, s)
  }

  /** The facts needed to write at the open ends. */
  lemma OpenFacts(m: seq<byte>, l: seq<nat>, r: seq<nat>, s: nat, end: nat, t: Tree, u: Tree, ptr: nat, c: Chains)
    requires Split(m, s, t, u, c) && Stored(l, r, s, end, u, ptr, c)
    ensures |l| == |r| && s < |l|
    ensures c.above != [] ==> Last(c.above) < |r| && Last(c.above) != s
    ensures c.below != [] ==> Last(c.below) < |l| && Last(c.below) != s
    ensures u.Node? ==>
              ptr == u.pos > end && ptr < |l| && ptr in Nodes(u) && ptr in Nodes(t) && Treap(m, u)
                && Nodes(u) <= Nodes(t)
  {
    hide Match, Less, Treap, Above, Below, Plug, Mirror, Chained, Linked;
    OpenEnds(m, s, t, u, c);
    if c.above != [] {
      EndInside(l, r, l[s], end, c.above);
    }
    if c.below != [] {
      EndInside(r, l, r[s], end, c.below);
    }
    if u.Node? {
      NodeParts(l, r, ptr, end, u);
    }
  }

  /** The node at ptr is smaller: it joins the smaller strings, and the search goes on at its left link. */
  method GoBelow(left: array<nat>, right: array<nat>, s: nat, end: nat, ptr: nat, small: nat, big: nat,
                 ghost m: seq<byte>,
                 ghost l0: seq<nat>, ghost r0: seq<nat>, ghost t: Tree, ghost u: Tree, ghost c: Chains)
    returns (newPtr: nat, newBig: nat, ghost c': Chains)
    requires left != right && Splitting(m, left[..], right[..], l0, r0, s, end, t, u, ptr, c, small, big)
    requires u.Node? && Smaller(m, u.pos, s)
    modifies left, right
    ensures Splitting(m, left[..], right[..], l0, r0, s, end, t, u.left, newPtr, c', small, newBig)
  {
    hide Split, Stored, Outside, OpenAbove, OpenBelow, Smaller, OpenAt;
    ghost var l, r := left[..], right[..];
    OpenFacts(m, l, r, s, end, t, u, ptr, c);
    StoreBelow(m, l, r, s, end, t, u, ptr, c);
    OutsideBelow(m, l, r, l0, r0, s, t, u, c, ptr);
    StepBelow(m, s, t, u, c);
    c' := Chains(c.above, c.below + [Step(Mirror(u.right), u.pos)]);
    OpenMore(c.below, Step(Mirror(u.right), u.pos), s);
    StoreBig(left, right, s, big, ptr, c);
    newBig := ptr;
    assert left[..][ptr] == l[ptr];
    newPtr := left[ptr];
  }

  lemma OpenMore(sp: seq<Step>, e: Step, s: nat)
    ensures OpenAt(sp + [e], s) == e.pos
  {
  }

  method GoAbove(left: array<nat>, right: array<nat>, s: nat, end: nat, ptr: nat, small: nat, big: nat,
                 ghost m: seq<byte>,
                 ghost l0: seq<nat>, ghost r0: seq<nat>, ghost t: Tree, ghost u: Tree, ghost c: Chains)
    returns (newPtr: nat, newSmall: nat, ghost c': Chains)
    requires left != right && Splitting(m, left[..], right[..], l0, r0, s, end, t, u, ptr, c, small, big)
    requires u.Node? && Smaller(m, s, u.pos)
    modifies left, right
    ensures Splitting(m, left[..], right[..], l0, r0, s, end, t, u.right, newPtr, c', newSmall, big)
  {
    hide Split, Stored, Outside, OpenAbove, OpenBelow, Smaller, OpenAt;
    ghost var l, r := left[..], right[..];
    OpenFacts(m, l, r, s, end, t, u, ptr, c);
    StoreAbove(m, l, r, s, end, t, u, ptr, c);
    OutsideAbove(m, l, r, l0, r0, s, t, u, c, ptr);
    StepAbove(m, s, t, u, c);
    c' := Chains(c.above + [Step(u.left, u.pos)], c.below);
    OpenMore(c.above, Step(u.left, u.pos), s);
    StoreSmall(left, right, s, small, ptr, c);
    newSmall := ptr;
    assert right[..][ptr] == r[ptr];
    newPtr := right[ptr];
  }

  /** The search has ended: both open ends are closed with the given links. */
  method CloseEnds(left: array<nat>, right: array<nat>, s: nat, end: nat, ptr: nat, small: nat, big: nat, va: nat,
                   vb: nat,
                   ghost m: seq<byte>, ghost l0: seq<nat>, ghost r0: seq<nat>, ghost t: Tree, ghost u: Tree,
                     ghost c: Chains)
    requires left != right && Splitting(m, left[..], right[..], l0, r0, s, end, t, u, ptr, c, small, big) && end < s
    requires Linked(left[..], right[..], va, end, Above(m, u, s))
             && Linked(left[..], right[..], vb, end, Below(m, u, s))
    modifies left, right
    ensures Linked(left[..], right[..], s, end, Insert(m, t, s))
    ensures Outside(left[..], l0, t, s) && Outside(right[..], r0, t, s)
  {
    hide Split, Stored, Outside, OpenAbove, OpenBelow, OpenAt, Linked, Insert, Above, Below;
    ghost var l, r := left[..], right[..];
    OpenFacts(m, l, r, s, end, t, u, ptr, c);
    CloseBoth(m, l, r, s, end, t, u, ptr, c, va, vb);
    OutsideAbove(m, l, r, l0, r0, s, t, u, c, va);
    StoreSmall(left, right, s, small, va, c);
    OutsideBelow(m, left[..], right[..], l0, r0, s, t, u, c, vb);
    StoreBig(left, right, s, big, vb, c);
  }

  // ---------- The two searches ----------

  /** The byte loop: bytes from clen on are compared, up to a limit. */
  method Compare(mem: array<byte>, ptr: nat, s: nat, clen: nat, limit: nat) returns (same: nat, smaller: bool)
    requires InRange(mem[..], ptr) && InRange(mem[..], s) && clen < limit <= MAX_MATCH && clen <= Match(mem[..], ptr, s)
    ensures same == Min(Match(mem[..], ptr, s), limit)
    ensures smaller <==> same < limit && mem[..][ptr + same] < mem[..][s + same]
  {
    hide Match;
    ghost var m := mem[..];
    MatchAgrees(m, ptr, s);
    same := clen;
    while mem[ptr + same] == mem[s + same]
      invariant clen <= same < limit && same <= Match(m, ptr, s)
      decreases limit - same
    {
      assert EqualAt(m, ptr, s, same);
      same := same + 1;
      if same >= limit {
        return same, false;
      }
    }
    assert !EqualAt(m, ptr, s, same);
    smaller := mem[ptr + same] < mem[s + same];
  }

  /** What the comparison says about the order. */
  lemma Compared(m: seq<byte>, p: nat, s: nat, same: nat, limit: nat)
    requires InRange(m, p) && InRange(m, s) && BREAK_LENGTH <= limit <= MAX_MATCH && same == Min(Match(m, p, s), limit)
    ensures same >= BREAK_LENGTH <==> Same(m, p, s)
    ensures same < BREAK_LENGTH ==> same == Match(m, p, s) && (Smaller(m, p, s) <==> m[p + same] < m[s + same])
    ensures same < BREAK_LENGTH && !Smaller(m, p, s) ==> Smaller(m, s, p)
  {
    hide Common;
    MatchAgrees(m, p, s);
    MatchSymmetric(m, p, s);
    Trichotomy(m, p, s);
  }

  lemma SplitFacts(m: seq<byte>, s: nat, t: Tree, u: Tree, c: Chains, k: nat)
    requires Split(m, s, t, u, c) && Keyed(m, k, t) && Key(m, s) == k
    ensures InRange(m, s) && Treap(m, u) && Nodes(u) <= Nodes(t)
    ensures u.Node? ==> u.pos in Nodes(u) && InRange(m, u.pos)
  {
    hide Match, Less, Treap, Above, Below, Plug, Mirror, Key;
  }

  lemma SplitOf(m: seq<byte>, l: seq<nat>, r: seq<nat>, l0: seq<nat>, r0: seq<nat>, s: nat, end: nat,
                t: Tree, u: Tree, ptr: nat, c: Chains, small: nat, big: nat)
    requires Splitting(m, l, r, l0, r0, s, end, t, u, ptr, c, small, big)
    ensures Split(m, s, t, u, c) && Linked(l, r, ptr, end, u) && |l| == |r|
    ensures u.Node? ==> ptr == u.pos > end && ptr < |l| && ptr < |r|
    ensures u == Empty <==> ptr <= end
    ensures u.Node? ==> Linked(l, r, l[ptr], end, u.left) && Linked(l, r, r[ptr], end, u.right)
  {
    hide Match, Less, Treap, Above, Below, Plug, Mirror, Split;
  }

  lemma SplittingStart(m: seq<byte>, l: seq<nat>, r: seq<nat>, s: nat, end: nat, t: Tree, ptr: nat)
    requires InRange(m, s) && Treap(m, t) && Newer(s, t) && |l| == |r| && s < |l| && Linked(l, r, ptr, end, t)
    ensures Splitting(m, l, r, l, r, s, end, t, t, ptr, Chains([], []), s, s)
  {
    hide Match, Less, Treap, Split, Linked;
    SplitStart(m, s, t);
  }

  lemma EmptyEnds(m: seq<byte>, l: seq<nat>, r: seq<nat>, s: nat, end: nat)
    ensures Linked(l, r, 0, end, Above(m, Empty, s)) && Linked(l, r, 0, end, Below(m, Empty, s))
  {
  }

  lemma SameEnds(m: seq<byte>, u: Tree, s: nat)
    requires u.Node? && Same(m, u.pos, s)
    ensures Above(m, u, s) == u.left && Below(m, u, s) == u.right
  {
  }

  /** The new node alone. */
  lemma AloneLinked(m: seq<byte>, l: seq<nat>, r: seq<nat>, s: nat, end: nat)
    requires end < s < |l| == |r| && l[s] == r[s] == 0
    ensures Linked(l, r, s, end, Insert(m, Empty, s))
  {
  }

  /** quick_insert_bsearch_findmatch, below the root: the live tree t at ptr becomes the tree with s inserted. */
  method QuickInsertAt(mem: array<byte>, left: array<nat>, right: array<nat>, first: nat, s: nat, end: nat,
                       ghost t: Tree, ghost k: nat)
    requires left != right && left.Length == right.Length && end < s < left.Length && InRange(mem[..], s)
    requires Treap(mem[..], t) && Newer(s, t) && Keyed(mem[..], k, t) && Key(mem[..], s) == k
             && Linked(left[..], right[..], first, end, t)
    modifies left, right
    ensures Linked(left[..], right[..], s, end, Insert(mem[..], t, s))
    ensures Outside(left[..], old(left[..]), t, s) && Outside(right[..], old(right[..]), t, s)
  {
    hide *;
    ghost var m, l0, r0 := mem[..], left[..], right[..];
    LinkedEmpty(l0, r0, first, end, t);
    if first <= end {
      left[s], right[s] := 0, 0;
      AloneLinked(m, left[..], right[..], s, end);
      OutsideAlone(left[..], l0, t, s);
      OutsideAlone(right[..], r0, t, s);
      return;
    }
    var ptr: nat, small: nat, big: nat := first, s, s;
    var smallLen: nat, bigLen: nat, clen: nat := 2, 2, 2;
    ghost var u, c := t, Chains([], []);
    SplittingStart(m, l0, r0, s, end, t, first);
    SkipStart(m, s, t, k);
    Sizes();
    while true
      invariant mem[..] == m && Splitting(m, left[..], right[..], l0, r0, s, end, t, u, ptr, c, small, big) && u.Node?
      invariant Skips(m, s, u, smallLen, bigLen) && clen == Min(smallLen, bigLen) && smallLen < 50 && bigLen < 50
      decreases u
    {
      SplitOf(m, left[..], right[..], l0, r0, s, end, t, u, ptr, c, small, big);
      SplitFacts(m, s, t, u, c, k);
      SkipAgrees(m, s, u, smallLen, bigLen, ptr);
      MinOf(smallLen, bigLen);
      var same, smaller := Compare(mem, ptr, s, clen, 50);
      Compared(m, ptr, s, same, 50);
      if same >= 50 {
        var a, b := left[ptr], right[ptr];
        SameEnds(m, u, s);
        CloseEnds(left, right, s, end, ptr, small, big, a, b, m, l0, r0, t, u, c);
        return;
      }
      if smaller {
        SkipBelow(m, s, u, smallLen, bigLen);
        if same > bigLen {
          bigLen := same;
          clen := Min(smallLen, bigLen);
        }
        ptr, big, c := GoBelow(left, right, s, end, ptr, small, big, m, l0, r0, t, u, c);
        u := u.left;
      } else {
        SkipAbove(m, s, u, smallLen, bigLen);
        if same > smallLen {
          smallLen := same;
          clen := Min(smallLen, bigLen);
        }
        ptr, small, c := GoAbove(left, right, s, end, ptr, small, big, m, l0, r0, t, u, c);
        u := u.right;
      }
      SplitOf(m, left[..], right[..], l0, r0, s, end, t, u, ptr, c, small, big);
      if ptr <= end {
        break;
      }
    }
    EmptyEnds(m, left[..], right[..], s, end);
    CloseEnds(left, right, s, end, ptr, small, big, 0, 0, m, l0, r0, t, u, c);
  }

  lemma LinkedEmpty(l: seq<nat>, r: seq<nat>, ptr: nat, end: nat, t: Tree)
    requires Linked(l, r, ptr, end, t)
    ensures t == Empty <==> ptr <= end
  {
  }

  lemma OutsideAlone(l: seq<nat>, l0: seq<nat>, t: Tree, s: nat)
    requires |l| == |l0| && s < |l| && l == l0[s := l[s]]
    ensures Outside(l, l0, t, s)
  {
  }

  lemma Sizes()
    ensures MAX_MATCH == 257 && BREAK_LENGTH == 50 && Min(2, 2) == 2
  {
  }

  lemma MinOf(a: nat, b: nat)
    requires a < 50 && b < 50
    ensures Min(a, b) < 50 && Min(a, b) <= a && Min(a, b) <= b
  {
  }

  /** The table loop: the lengths up to same are matched at ptr. */
  method FillTable(table: array<nat>, len: nat, same: nat, s: nat, ptr: nat, ghost m: seq<byte>, ghost t: Tree,
                   ghost u: Tree)
    returns (newLen: nat)
    requires table.Length == 258 && Filled(m, t, s, len, table[..]) && Searched(m, t, u, s, len)
             && 2 <= len < same <= MAX_MATCH
    requires Treap(m, u) && u.Node? && Nodes(u) <= Nodes(t) && ptr == u.pos <= s && InRange(m, ptr) && InRange(m, s)
             && same <= Match(m, ptr, s)
    modifies table
    ensures newLen == same && Filled(m, t, s, same, table[..])
  {
    hide Filled, Searched, Treap, Match, Nearest, Nodes;
    newLen := len;
    var distance: nat := s - ptr + 2;
    while newLen < same
      invariant len <= newLen <= same && Filled(m, t, s, newLen, table[..])
    {
      NewBest(m, t, u, s, len, newLen + 1);
      FilledNext(m, t, s, newLen, table[..], ptr);
      newLen := newLen + 1;
      ghost var was := table[..];
      table[newLen] := distance;
      assert table[..] == was[newLen := distance];
    }
  }

  /** binary_search_findmatch, below the root and before repeated offsets are looked at: the longest
      match, and for every length the nearest one. The position is inserted as well. */
  method FindLongest(mem: array<byte>, left: array<nat>, right: array<nat>, table: array<nat>, first: nat, s: nat,
                     end: nat,
                     ghost t: Tree, ghost k: nat) returns (len: nat)
    requires left != right && table !in {left, right} && left.Length == right.Length && end < s < left.Length
             && InRange(mem[..], s)
    requires table.Length == 258 && first > end && Treap(mem[..], t) && Newer(s, t) && Keyed(mem[..], k, t)
             && Key(mem[..], s) == k
    requires Linked(left[..], right[..], first, end, t)
    modifies left, right, table
    ensures Linked(left[..], right[..], s, end, Insert(mem[..], t, s))
    ensures Outside(left[..], old(left[..]), t, s) && Outside(right[..], old(right[..]), t, s)
    ensures 2 <= len <= MAX_MATCH && Filled(mem[..], t, s, len, table[..]) && Longest(mem[..], t, s, len)
  {
    hide *;
    ghost var m, l0, r0 := mem[..], left[..], right[..];
    LinkedEmpty(l0, r0, first, end, t);
    SplittingStart(m, l0, r0, s, end, t, first);
    SplitOf(m, l0, r0, l0, r0, s, end, t, t, first, Chains([], []), s, s);
    SkipStart(m, s, t, k);
    Sizes();
    RootOldest(m, t, s, k);
    table[2] := s - first + 2;
    FilledStart(m, t, s, k, table[..]);
    len := 2;
    var ptr: nat, small: nat, big: nat := first, s, s;
    var smallLen: nat, bigLen: nat, clen: nat := 2, 2, 2;
    ghost var u, c := t, Chains([], []);
    while true
      invariant mem[..] == m && Splitting(m, left[..], right[..], l0, r0, s, end, t, u, ptr, c, small, big) && u.Node?
      invariant Skips(m, s, u, smallLen, bigLen) && clen == Min(smallLen, bigLen) && smallLen <= len && bigLen <= len
      invariant 2 <= len < 50 && Filled(m, t, s, len, table[..]) && Searched(m, t, u, s, len)
      decreases u
    {
      SplitOf(m, left[..], right[..], l0, r0, s, end, t, u, ptr, c, small, big);
      SplitFacts(m, s, t, u, c, k);
      SkipAgrees(m, s, u, smallLen, bigLen, ptr);
      MinOf(smallLen, bigLen);
      var same, smaller := Compare(mem, ptr, s, clen, 257);
      Compared(m, ptr, s, same, 257);
      MatchCap(m, ptr, s);
      NodeOlder(m, t, ptr, s);
      ghost var was := len;
      if same > len {
        len := FillTable(table, len, same, s, ptr, m, t, u);
      }
      if same >= 50 {
        SearchedSame(m, t, u, s, was);
        var a, b := left[ptr], right[ptr];
        SameEnds(m, u, s);
        CloseEnds(left, right, s, end, ptr, small, big, a, b, m, l0, r0, t, u, c);
        return;
      }
      if smaller {
        SkipBelow(m, s, u, smallLen, bigLen);
        SearchedBelow(m, t, u, s, was, len);
        if same > bigLen {
          bigLen := same;
          clen := Min(smallLen, bigLen);
        }
        ptr, big, c := GoBelow(left, right, s, end, ptr, small, big, m, l0, r0, t, u, c);
        u := u.left;
      } else {
        SkipAbove(m, s, u, smallLen, bigLen);
        SearchedAbove(m, t, u, s, was, len);
        if same > smallLen {
          smallLen := same;
          clen := Min(smallLen, bigLen);
        }
        ptr, small, c := GoAbove(left, right, s, end, ptr, small, big, m, l0, r0, t, u, c);
        u := u.right;
      }
      SplitOf(m, left[..], right[..], l0, r0, s, end, t, u, ptr, c, small, big);
      if ptr <= end {
        break;
      }
    }
    SearchedAll(m, t, s, len);
    EmptyEnds(m, left[..], right[..], s, end);
    CloseEnds(left, right, s, end, ptr, small, big, 0, 0, m, l0, r0, t, u, c);
  }

  lemma MatchCap(m: seq<byte>, a: nat, b: nat)
    requires InRange(m, a) && InRange(m, b)
    ensures Min(Match(m, a, b), 257) == Match(m, a, b)
  {
  }

  lemma NodeOlder(m: seq<byte>, t: Tree, q: nat, s: nat)
    requires Newer(s, t) && q in Nodes(t)
    ensures q < s
  {
  }

  // ---------- Removing the root ----------

  /** Where the next root is linked in: the tree's root, or a link of a node. */
  datatype Link = AtRoot | AtLeft(pos: nat) | AtRight(pos: nat)

  ghost function LinkOf(sp: seq<Turn>): Link {
    if sp == [] then AtRoot
    else if sp[|sp| - 1].Right? then AtRight(sp[|sp| - 1].pos)
    else AtLeft(sp[|sp| - 1].pos)
  }

  /** *link = v. */
  method SetLink(left: array<nat>, right: array<nat>, root: nat, link: Link, v: nat, ghost sp: seq<Turn>)
    returns (newRoot: nat)
    requires left != right && left.Length == right.Length && link == LinkOf(sp)
             && (sp != [] ==> sp[|sp| - 1].pos < left.Length)
    modifies left, right
    ensures sp == [] ==> newRoot == v && left[..] == old(left[..]) && right[..] == old(right[..])
    ensures sp != [] ==> newRoot == root && (left[..], right[..]) == Store(old(left[..]), old(right[..]), sp, v)
  {
    newRoot := root;
    if link.AtRoot? {
      newRoot := v;
    } else if link.AtLeft? {
      left[link.pos] := v;
    } else {
      right[link.pos] := v;
    }
  }

  /** Nothing but links of the tree has changed. */
  ghost predicate Within(l: seq<nat>, l0: seq<nat>, t: Tree) {
    |l| == |l0| && forall i :: 0 <= i < |l| && i !in Nodes(t) ==> l[i] == l0[i]
  }

  lemma WithinStore(l: seq<nat>, r: seq<nat>, l0: seq<nat>, r0: seq<nat>, t: Tree, sp: seq<Turn>, v: nat)
    requires Within(l, l0, t) && Within(r, r0, t) && |l| == |r| && sp != [] && sp[|sp| - 1].pos in Nodes(t)
             && sp[|sp| - 1].pos < |l|
    ensures var (l', r') := Store(l, r, sp, v); Within(l', l0, t) && Within(r', r0, t)
  {
    hide Nodes;
  }

  lemma StoreElsewhere(l: seq<nat>, r: seq<nat>, sp: seq<Turn>, v: nat, p: nat)
    requires |l| == |r| && sp != [] && sp[|sp| - 1].pos < |l| && p < |l| && sp[|sp| - 1].pos != p
    ensures var (l', r') := Store(l, r, sp, v); |l'| == |l| && |r'| == |r| && l'[p] == l[p] && r'[p] == r[p]
  {
  }

  lemma LinkedParts(l: seq<nat>, r: seq<nat>, pa: nat, end: nat, a: Tree)
    requires Linked(l, r, pa, end, a) && a.Node?
    ensures end < pa == a.pos < |l| && pa < |r|
    ensures Kept(l, r, end, Right(a.left, pa)) && Linked(l, r, r[pa], end, a.right)
    ensures Kept(l, r, end, Left(pa, a.right)) && Linked(l, r, l[pa], end, a.left)
  {
    hide Nodes;
  }

  /** The newer of the two roots: which tree it comes from and what is left to merge. */
  lemma Newest(a: Tree, b: Tree, fromLeft: bool)
    requires if fromLeft then a.Node? && (b == Empty || a.pos > b.pos) else b.Node? && (a == Empty || a.pos <= b.pos)
    ensures fromLeft ==> Merge(a, b) == Join([Right(a.left, a.pos)], Merge(a.right, b))
    ensures !fromLeft ==> Merge(a, b) == Join([Left(b.pos, b.right)], Merge(a, b.left))
  {
    MergeSplit(a, b);
    if fromLeft {
      JoinOne(Right(a.left, a.pos), Merge(a.right, b));
    } else {
      JoinOne(Left(b.pos, b.right), Merge(a, b.left));
    }
  }

  lemma MergingParts(l: seq<nat>, r: seq<nat>, root: nat, end: nat, goal: Tree, sp: seq<Turn>, a: Tree, pa: nat,
                     b: Tree, pb: nat)
    requires Merging(l, r, root, end, goal, sp, a, pa, b, pb)
    ensures |l| == |r| && Linked(l, r, pa, end, a) && Linked(l, r, pb, end, b)
    ensures (a == Empty <==> pa <= end) && (b == Empty <==> pb <= end)
    ensures (a.Node? ==> pa == a.pos) && (b.Node? ==> pb == b.pos)
  {
    hide Path, Join, Merge, Proper;
  }

  /** One turn of the merge loop, once the newer root e.pos has been chosen. */
  method LinkIn(left: array<nat>, right: array<nat>, root: nat, link: Link, ghost end: nat, ptr: nat, ghost goal: Tree,
                ghost sp: seq<Turn>,
                ghost a: Tree, ghost pa: nat, ghost b: Tree, ghost pb: nat, ghost e: Turn, ghost a': Tree,
                  ghost pa': nat, ghost b': Tree, ghost pb': nat,
                ghost l0: seq<nat>, ghost r0: seq<nat>)
    returns (newRoot: nat)
    requires left != right && Merging(left[..], right[..], root, end, goal, sp, a, pa, b, pb) && link == LinkOf(sp)
             && ptr == e.pos
    requires Kept(left[..], right[..], end, e) && Merge(a, b) == Join([e], Merge(a', b'))
    requires Linked(left[..], right[..], pa', end, a') && Linked(left[..], right[..], pb', end, b')
    requires Within(left[..], l0, goal) && Within(right[..], r0, goal)
    modifies left, right
    ensures Merging(left[..], right[..], newRoot, end, goal, sp + [e], a', pa', b', pb')
    ensures ptr < left.Length == right.Length && left[ptr] == old(left[..])[ptr] && right[ptr] == old(right[..])[ptr]
    ensures Within(left[..], l0, goal) && Within(right[..], r0, goal)
  {
    hide *;
    ghost var l, r := left[..], right[..];
    MergingParts(l, r, root, end, goal, sp, a, pa, b, pb);
    KeptInside(l, r, end, e);
    if sp == [] {
      MergeFirst(l, r, root, end, goal, a, pa, b, pb, e, a', pa', b', pb');
      assert sp + [e] == [e];
    } else {
      MergeStep(l, r, root, end, goal, sp, a, pa, b, pb, e, a', pa', b', pb');
      StoreElsewhere(l, r, sp, ptr, ptr);
      WithinStore(l, r, l0, r0, goal, sp, ptr);
    }
    newRoot := SetLink(left, right, root, link, ptr, sp);
    assert left[..][ptr] == l[ptr] && right[..][ptr] == r[ptr];
  }

  lemma LinkMore(sp: seq<Turn>, e: Turn)
    ensures LinkOf(sp + [e]) == if e.Right? then AtRight(e.pos) else AtLeft(e.pos)
  {
  }

  /** The last turn: what is left has expired. */
  method LinkNone(left: array<nat>, right: array<nat>, root: nat, link: Link, ghost end: nat, ghost whole: Tree,
                  ghost sp: seq<Turn>,
                  ghost a: Tree, ghost pa: nat, ghost b: Tree, ghost pb: nat, ghost l0: seq<nat>, ghost r0: seq<nat>)
    returns (newRoot: nat)
    requires left != right && Merging(left[..], right[..], root, end, whole, sp, a, pa, b, pb) && link == LinkOf(sp)
    requires Within(left[..], l0, whole) && Within(right[..], r0, whole)
    modifies left, right
    ensures Linked(left[..], right[..], newRoot, end, Join(sp, Empty))
    ensures Within(left[..], l0, whole) && Within(right[..], r0, whole)
  {
    hide *;
    MergingParts(left[..], right[..], root, end, whole, sp, a, pa, b, pb);
    MergeDone(left[..], right[..], root, end, whole, sp, a, pa, b, pb);
    EmptyLinked(left[..], right[..], end);
    if sp != [] {
      WithinStore(left[..], right[..], l0, r0, whole, sp, 0);
    } else {
      JoinNone(sp, Empty);
    }
    newRoot := SetLink(left, right, root, link, 0, sp);
  }

  /** The merge loop of binary_search_remove_node, from two links to the root of the merged tree; positions
      up to cut have expired. */
  method MergeLinked(left: array<nat>, right: array<nat>, leftPos: nat, rightPos: nat, ghost end: nat, cut: nat,
                     ghost a0: Tree, ghost b0: Tree)
    returns (root: nat)
    requires left != right && left.Length == right.Length && end <= cut
    requires Linked(left[..], right[..], leftPos, end, a0) && Linked(left[..], right[..], rightPos, end, b0)
             && Proper(Merge(a0, b0))
    modifies left, right
    ensures Linked(left[..], right[..], root, end, MergeLive(a0, b0, cut))
    ensures Within(left[..], old(left[..]), Merge(a0, b0)) && Within(right[..], old(right[..]), Merge(a0, b0))
  {
    hide *;
    ghost var l0, r0, whole, goal := left[..], right[..], Merge(a0, b0), MergeLive(a0, b0, cut);
    var lp: nat, rp: nat, link := leftPos, rightPos, AtRoot;
    ghost var a, b, sp := a0, b0, [];
    root := 0;
    MergingStart(l0, r0, end, a, lp, b, rp);
    CuttingStart(a, b, cut);
    while true
      invariant Merging(left[..], right[..], root, end, whole, sp, a, lp, b, rp) && link == LinkOf(sp)
                && Cutting(goal, sp, a, b, cut)
      invariant Within(left[..], l0, whole) && Within(right[..], r0, whole)
      decreases a, b
    {
      MergingParts(left[..], right[..], root, end, whole, sp, a, lp, b, rp);
      if lp > rp {
        if lp <= cut {
          CutDone(goal, sp, a, b, cut);
          root := LinkNone(left, right, root, link, end, whole, sp, a, lp, b, rp, l0, r0);
          return;
        }
        Newest(a, b, true);
        CutLeft(goal, sp, a, b, cut);
        LinkedParts(left[..], right[..], lp, end, a);
        ghost var e := Right(a.left, lp);
        ghost var on := right[lp];
        root := LinkIn(left, right, root, link, end, lp, whole, sp, a, lp, b, rp, e, a.right, on, b, rp, l0, r0);
        LinkMore(sp, e);
        link := AtRight(lp);
        lp, a, sp := right[lp], a.right, sp + [e];
      } else {
        if rp <= cut {
          CutDone(goal, sp, a, b, cut);
          root := LinkNone(left, right, root, link, end, whole, sp, a, lp, b, rp, l0, r0);
          return;
        }
        Newest(a, b, false);
        CutRight(goal, sp, a, b, cut);
        LinkedParts(left[..], right[..], rp, end, b);
        ghost var e := Left(rp, b.right);
        ghost var on := left[rp];
        root := LinkIn(left, right, root, link, end, rp, whole, sp, a, lp, b, rp, e, a, lp, b.left, on, l0, r0);
        LinkMore(sp, e);
        link := AtLeft(rp);
        rp, b, sp := left[rp], b.left, sp + [e];
      }
    }
  }

  lemma CutDone(goal: Tree, sp: seq<Turn>, a: Tree, b: Tree, cut: nat)
    requires Cutting(goal, sp, a, b, cut) && (a.Node? ==> a.pos <= cut) && (b.Node? ==> b.pos <= cut)
    ensures goal == Join(sp, Empty)
  {
  }

  lemma MergingStart(l: seq<nat>, r: seq<nat>, end: nat, a: Tree, pa: nat, b: Tree, pb: nat)
    requires |l| == |r| && Linked(l, r, pa, end, a) && Linked(l, r, pb, end, b) && Proper(Merge(a, b))
    ensures Merging(l, r, 0, end, Merge(a, b), [], a, pa, b, pb) && LinkOf([]) == AtRoot
    ensures Within(l, l, Merge(a, b)) && Within(r, r, Merge(a, b))
  {
    hide Linked, Merge, Proper;
  }

  /** One of the root's links, cleared if its position has expired. */
  method LiveLink(links: array<nat>, s: nat, end: nat) returns (pos: nat)
    requires s < links.Length
    modifies links
    ensures pos == if links[s] <= end then 0 else old(links[s])
    ensures links[s] == if old(links[s]) <= end then 0 else old(links[s])
    ensures forall i :: 0 <= i < links.Length && i != s ==> links[i] == old(links[i])
  {
    pos := links[s];
    if pos <= end {
      pos := 0;
      links[s] := 0;
    }
  }

  /** A subtree as it is seen once expired positions are cleared at its link. */
  ghost function Seen(t: Tree, cut: nat): Tree {
    if t.Node? && t.pos <= cut then Empty else t
  }

  lemma LinkedSeen(l: seq<nat>, r: seq<nat>, ptr: nat, end: nat, t: Tree, cut: nat)
    requires Linked(l, r, ptr, end, t) && end <= cut
    ensures Linked(l, r, if ptr <= cut then 0 else ptr, end, Seen(t, cut))
  {
  }

  lemma MergeSeen(a: Tree, b: Tree, cut: nat)
    ensures MergeLive(Seen(a, cut), Seen(b, cut), cut) == MergeLive(a, b, cut)
  {
    if Seen(a, cut) != a {
      MergeLiveExpired(a, b, cut);
    }
    if Seen(b, cut) != b {
      MergeLiveExpiredToo(Seen(a, cut), b, cut);
    }
  }

  /** Links other than those of the root are kept, so both subtrees are. */
  lemma SubtreesKept(l: seq<nat>, r: seq<nat>, l': seq<nat>, r': seq<nat>, s: nat, end: nat, t: Tree, cut: nat)
    requires Linked(l, r, s, end, t) && t.Node? && Proper(t) && |l'| == |l| && |r'| == |r| && end <= cut
    requires forall i :: 0 <= i < |l| && i != s ==> l'[i] == l[i]
    requires forall i :: 0 <= i < |r| && i != s ==> r'[i] == r[i]
    ensures s < |l| && s < |r| && Linked(l', r', if l[s] <= cut then 0 else l[s], end, Seen(t.left, cut))
    ensures Linked(l', r', if r[s] <= cut then 0 else r[s], end, Seen(t.right, cut))
  {
    hide Nodes;
    SubtreesApart(t);
    LinkedFrame(l, r, l', r', l[s], end, t.left);
    LinkedFrame(l, r, l', r', r[s], end, t.right);
    LinkedSeen(l', r', l[s], end, t.left, cut);
    LinkedSeen(l', r', r[s], end, t.right, cut);
  }

  lemma SubtreesApart(t: Tree)
    requires Proper(t) && t.Node?
    ensures t.pos !in Nodes(t.left) && t.pos !in Nodes(t.right)
  {
  }

  lemma OutsideWithin(l: seq<nat>, l1: seq<nat>, l0: seq<nat>, t: Tree, whole: Tree, s: nat)
    requires |l0| == |l1| && forall i :: 0 <= i < |l1| && i != s ==> l1[i] == l0[i]
    requires Within(l, l1, whole) && Nodes(whole) <= Nodes(t)
    ensures Outside(l, l0, t, s)
  {
    hide Nodes;
  }

  /** binary_search_remove_node, when s is the root of its tree t: positions up to cut have expired. */
  method RemoveRootAt(left: array<nat>, right: array<nat>, s: nat, ghost end: nat, cut: nat, ghost m: seq<byte>,
                      ghost t: Tree) returns (root: nat)
    requires left != right && left.Length == right.Length && s < left.Length && end <= cut
    requires Linked(left[..], right[..], s, end, t) && Treap(m, t)
    modifies left, right
    ensures Linked(left[..], right[..], root, end, Removed(t, cut))
    ensures Outside(left[..], old(left[..]), t, s) && Outside(right[..], old(right[..]), t, s)
  {
    hide *;
    ghost var l0, r0 := left[..], right[..];
    RemovedParts(m, l0, r0, s, end, t, cut);
    if s <= cut {
      root := 0;
      left[s], right[s] := 0, 0;
      EmptyLinked(left[..], right[..], end);
      OutsideAlone(left[..], l0, t, s);
      OutsideAlone(right[..], r0, t, s);
      return;
    }
    var leftPos := LiveLink(left, s, cut);
    var rightPos := LiveLink(right, s, cut);
    ghost var l1, r1, a, b := left[..], right[..], Seen(t.left, cut), Seen(t.right, cut);
    SubtreesKept(l0, r0, l1, r1, s, end, t, cut);
    root := MergeLinked(left, right, leftPos, rightPos, end, cut, a, b);
    MergeSeen(t.left, t.right, cut);
    OutsideWithin(left[..], l1, l0, t, Merge(a, b), s);
    OutsideWithin(right[..], r1, r0, t, Merge(a, b), s);
  }

  lemma RemovedParts(m: seq<byte>, l: seq<nat>, r: seq<nat>, s: nat, end: nat, t: Tree, cut: nat)
    requires Treap(m, t) && Linked(l, r, s, end, t) && end <= cut
    ensures s <= cut ==> Removed(t, cut) == Empty
    ensures s > cut ==> t.Node? && Proper(t) && Removed(t, cut) == MergeLive(t.left, t.right, cut)
                        && Proper(Merge(Seen(t.left, cut), Seen(t.right, cut)))
                           && Nodes(Merge(Seen(t.left, cut), Seen(t.right, cut))) <= Nodes(t)
  {
    hide MergeLive, Merge, Less;
    if s > cut {
      var a, b := Seen(t.left, cut), Seen(t.right, cut);
      TreapProper(m, t);
      RootSeparates(m, t);
      SeparateWithin(m, t.left, t.right, a, b);
      MergeTreap(m, a, b);
      MergeNodes(a, b);
      TreapProper(m, Merge(a, b));
    }
  }
}
