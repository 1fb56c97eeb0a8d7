/** The search trees of the match finder, as values. A node is a window position and stands for the
    string that starts there; left subtrees hold larger strings, right subtrees smaller ones, and
    every node is newer than its descendants. */
module MatchTree {
  import opened Bits

  const MAX_MATCH: nat := 257
  const BREAK_LENGTH: nat := 50

  datatype Tree = Empty | Node(left: Tree, pos: nat, right: Tree)

  // ---------- Strings ----------

  /** How many of the first n bytes at a and b agree. */
  function Common(m: seq<byte>, a: nat, b: nat, n: nat): (k: nat)
    requires a + n <= |m| && b + n <= |m|
    ensures k <= n
  {
    if n == 0 then 0
    else
      var k := Common(m, a, b, n - 1);
      if k == n - 1 && m[a + k] == m[b + k] then n else k
  }

  predicate EqualAt(m: seq<byte>, a: nat, b: nat, i: nat) {
    a + i < |m| && b + i < |m| && m[a + i] == m[b + i]
  }

  predicate InRange(m: seq<byte>, a: nat) {
    a + MAX_MATCH <= |m|
  }

  /** The length of the match between two positions. */
  function Match(m: seq<byte>, a: nat, b: nat): (k: nat)
    requires InRange(m, a) && InRange(m, b)
    ensures k <= MAX_MATCH
  {
    Common(m, a, b, MAX_MATCH)
  }

  lemma {:induction false} CommonAgrees(m: seq<byte>, a: nat, b: nat, n: nat)
    requires a + n <= |m| && b + n <= |m|
    ensures var k := Common(m, a, b, n);
            (forall i: nat :: i < k ==> EqualAt(m, a, b, i)) && (k < n ==> !EqualAt(m, a, b, k))
  {
    if n > 0 {
      CommonAgrees(m, a, b, n - 1);
    }
  }

  lemma {:induction false} CommonIs(m: seq<byte>, a: nat, b: nat, n: nat, k: nat)
    requires a + n <= |m| && b + n <= |m| && k <= n
    requires forall i: nat :: i < k ==> EqualAt(m, a, b, i)
    requires k < n ==> !EqualAt(m, a, b, k)
    ensures Common(m, a, b, n) == k
  {
    CommonAgrees(m, a, b, n);
    var c: nat := Common(m, a, b, n);
    assert c < k ==> EqualAt(m, a, b, c);
    assert k < c ==> EqualAt(m, a, b, k);
  }

  /** The order of the strings, by their first 50 bytes. */
  predicate Less(m: seq<byte>, a: nat, b: nat)
    requires InRange(m, a) && InRange(m, b)
  {
    var k := Match(m, a, b);
    k < BREAK_LENGTH && m[a + k] < m[b + k]
  }

  lemma MatchAgrees(m: seq<byte>, a: nat, b: nat)
    requires InRange(m, a) && InRange(m, b)
    ensures var k := Match(m, a, b);
            (forall i: nat :: i < k ==> EqualAt(m, a, b, i)) && (k < MAX_MATCH ==> !EqualAt(m, a, b, k))
  {
    CommonAgrees(m, a, b, MAX_MATCH);
  }

  lemma MatchSymmetric(m: seq<byte>, a: nat, b: nat)
    requires InRange(m, a) && InRange(m, b)
    ensures Match(m, a, b) == Match(m, b, a)
  {
    hide Common;
    MatchAgrees(m, b, a);
    var k := Match(m, b, a);
    forall i: nat ensures EqualAt(m, a, b, i) == EqualAt(m, b, a, i) {
    }
    CommonIs(m, a, b, MAX_MATCH, k);
  }

  /** Two positions are ordered one way, or the other, or agree on 50 bytes. */
  lemma Trichotomy(m: seq<byte>, a: nat, b: nat)
    requires InRange(m, a) && InRange(m, b)
    ensures !(Less(m, a, b) && Less(m, b, a))
    ensures Less(m, a, b) || Less(m, b, a) || Match(m, a, b) >= BREAK_LENGTH
    ensures Match(m, a, b) >= BREAK_LENGTH ==> !Less(m, a, b) && !Less(m, b, a)
  {
    hide Common;
    MatchSymmetric(m, a, b);
    MatchAgrees(m, a, b);
  }

  /** Matches between three positions: the shorter of two is the third, unless they are equal. */
  lemma ThreeMatches(m: seq<byte>, a: nat, b: nat, c: nat)
    requires InRange(m, a) && InRange(m, b) && InRange(m, c) && Match(m, a, b) < Match(m, b, c)
    ensures Match(m, a, c) == Match(m, a, b)
    ensures Less(m, a, b) <==> Less(m, a, c)
    ensures Less(m, b, a) <==> Less(m, c, a)
  {
    hide Common;
    MatchAgrees(m, a, b);
    MatchAgrees(m, b, c);
    var k := Match(m, a, b);
    forall i: nat | i <= k ensures EqualAt(m, a, c, i) == EqualAt(m, a, b, i) {
      assert EqualAt(m, b, c, i);
    }
    CommonIs(m, a, c, MAX_MATCH, k);
    assert EqualAt(m, b, c, k);
    MatchSymmetric(m, a, b);
    MatchSymmetric(m, a, c);
  }

  /** Along the order, a match is the shorter of the matches on the way. */
  lemma Between(m: seq<byte>, a: nat, b: nat, c: nat)
    requires InRange(m, a) && InRange(m, b) && InRange(m, c) && Less(m, a, b) && Less(m, b, c)
    ensures Less(m, a, c) && Match(m, a, c) == Min(Match(m, a, b), Match(m, b, c))
  {
    hide Common;
    var x, y := Match(m, a, b), Match(m, b, c);
    MatchAgrees(m, a, b);
    MatchAgrees(m, b, c);
    forall i: nat | i < Min(x, y) ensures EqualAt(m, a, c, i) {
      assert EqualAt(m, a, b, i) && EqualAt(m, b, c, i);
    }
    var k := Min(x, y);
    assert k < x ==> EqualAt(m, a, b, k);
    assert k < y ==> EqualAt(m, b, c, k);
    CommonIs(m, a, c, MAX_MATCH, k);
  }

  // ---------- Trees ----------

  ghost function Nodes(t: Tree): set<nat> {
    match t
    case Empty => {}
    case Node(l, p, r) => Nodes(l) + {p} + Nodes(r)
  }

  ghost predicate AllInRange(m: seq<byte>, t: Tree) {
    forall q :: q in Nodes(t) ==> InRange(m, q)
  }

  ghost predicate LeftOf(m: seq<byte>, p: nat, t: Tree) {
    InRange(m, p) && forall q :: q in Nodes(t) ==> InRange(m, q) && q < p && Less(m, p, q)
  }

  ghost predicate RightOf(m: seq<byte>, p: nat, t: Tree) {
    InRange(m, p) && forall q :: q in Nodes(t) ==> InRange(m, q) && q < p && Less(m, q, p)
  }

  /** Ordered by string and by age. */
  ghost predicate Treap(m: seq<byte>, t: Tree) {
    match t
    case Empty => true
    case Node(l, p, r) => LeftOf(m, p, l) && RightOf(m, p, r) && Treap(m, l) && Treap(m, r)
  }

  lemma {:induction false} TreapRange(m: seq<byte>, t: Tree)
    requires Treap(m, t)
    ensures AllInRange(m, t)
  {
    if t.Node? {
      TreapRange(m, t.left);
      TreapRange(m, t.right);
    }
  }

  /** Any two nodes differ within 50 bytes. */
  lemma {:induction false} NodesDiffer(m: seq<byte>, t: Tree, a: nat, b: nat)
    requires Treap(m, t) && a in Nodes(t) && b in Nodes(t) && a != b
    ensures InRange(m, a) && InRange(m, b) && Match(m, a, b) < BREAK_LENGTH
  {
    hide Match;
    TreapRange(m, t);
    match t
    case Node(l, p, r) =>
      if a in Nodes(l) && b in Nodes(l) {
        NodesDiffer(m, l, a, b);
      } else if a in Nodes(r) && b in Nodes(r) {
        NodesDiffer(m, r, a, b);
      } else if a == p || b == p {
        MatchSymmetric(m, a, b);
      } else if a in Nodes(l) {
        Between(m, b, p, a);
        MatchSymmetric(m, a, b);
      } else {
        Between(m, a, p, b);
      }
  }

  /** The root is the newest node. */
  lemma RootNewest(m: seq<byte>, t: Tree, q: nat)
    requires Treap(m, t) && t.Node? && q in Nodes(t)
    ensures q <= t.pos
  {
  }

  // ---------- Insertion: the tree is split at the new string ----------

  ghost predicate Same(m: seq<byte>, p: nat, s: nat) {
    InRange(m, p) && InRange(m, s) && Match(m, p, s) >= BREAK_LENGTH
  }

  ghost predicate Smaller(m: seq<byte>, p: nat, s: nat) {
    InRange(m, p) && InRange(m, s) && Less(m, p, s)
  }

  /** The part of a tree with strings above the one at s. */
  ghost function Above(m: seq<byte>, t: Tree, s: nat): Tree {
    match t
    case Empty => Empty
    case Node(l, p, r) =>
      if Same(m, p, s) then l
      else if Smaller(m, p, s) then Above(m, l, s)
      else Node(l, p, Above(m, r, s))
  }

  ghost function Below(m: seq<byte>, t: Tree, s: nat): Tree {
    match t
    case Empty => Empty
    case Node(l, p, r) =>
      if Same(m, p, s) then r
      else if Smaller(m, p, s) then Node(Below(m, l, s), p, r)
      else Below(m, r, s)
  }

  ghost function Insert(m: seq<byte>, t: Tree, s: nat): Tree {
    Node(Above(m, t, s), s, Below(m, t, s))
  }

  ghost predicate Newer(s: nat, t: Tree) {
    forall q :: q in Nodes(t) ==> q < s
  }

  lemma {:induction false} AboveNodes(m: seq<byte>, t: Tree, s: nat)
    requires Treap(m, t) && InRange(m, s)
    ensures AllInRange(m, t)
    ensures forall q :: q in Nodes(Above(m, t, s)) <==> q in Nodes(t) && Less(m, s, q)
  {
    hide Match, Less;
    TreapRange(m, t);
    if t.Node? {
      AboveNodes(m, t.left, s);
      AboveNodes(m, t.right, s);
      forall q | q in Nodes(t) ensures q in Nodes(Above(m, t, s)) <==> Less(m, s, q) {
        AboveOne(m, t, s, q);
      }
    }
  }

  lemma AboveOne(m: seq<byte>, t: Tree, s: nat, q: nat)
    requires Treap(m, t) && InRange(m, s) && AllInRange(m, t) && t.Node? && q in Nodes(t)
    requires AllInRange(m, t.left) && AllInRange(m, t.right)
    requires q in Nodes(t.left) ==> (q in Nodes(Above(m, t.left, s)) <==> Less(m, s, q))
    requires q in Nodes(t.right) ==> (q in Nodes(Above(m, t.right, s)) <==> Less(m, s, q))
    requires forall x :: x in Nodes(Above(m, t.left, s)) ==> x in Nodes(t.left)
    requires forall x :: x in Nodes(Above(m, t.right, s)) ==> x in Nodes(t.right)
    ensures q in Nodes(Above(m, t, s)) <==> Less(m, s, q)
  {
    var p := t.pos;
    Trichotomy(m, p, s);
    Trichotomy(m, q, s);
    Position(m, p, q, s);
    Trichotomy(m, p, q);
  }

  /** Where q is when p is compared with s. */
  lemma Position(m: seq<byte>, p: nat, q: nat, s: nat)
    requires InRange(m, p) && InRange(m, q) && InRange(m, s)
    ensures Same(m, p, s) && Less(m, p, q) ==> Less(m, s, q) && Match(m, q, s) < BREAK_LENGTH
    ensures Same(m, p, s) && Less(m, q, p) ==> Less(m, q, s) && Match(m, q, s) < BREAK_LENGTH
    ensures Less(m, p, s) && Less(m, q, p) ==> Less(m, q, s) && Match(m, q, s) <= Match(m, p, s)
    ensures Less(m, s, p) && Less(m, p, q) ==> Less(m, s, q) && Match(m, q, s) <= Match(m, p, s)
    ensures Less(m, p, q) && Less(m, q, s) ==> Match(m, p, s) <= Match(m, q, s)
    ensures Less(m, s, q) && Less(m, q, p) ==> Match(m, p, s) <= Match(m, q, s)
  {
    hide Common;
    MatchSymmetric(m, p, q);
    MatchSymmetric(m, q, s);
    MatchSymmetric(m, p, s);
    if Same(m, p, s) {
      if Less(m, p, q) || Less(m, q, p) {
        ThreeMatches(m, q, p, s);
      }
    }
    if Less(m, p, s) && Less(m, q, p) {
      Between(m, q, p, s);
    }
    if Less(m, s, p) && Less(m, p, q) {
      Between(m, s, p, q);
    }
    if Less(m, p, q) && Less(m, q, s) {
      Between(m, p, q, s);
    }
    if Less(m, s, q) && Less(m, q, p) {
      Between(m, s, q, p);
    }
  }

  lemma {:induction false} BelowNodes(m: seq<byte>, t: Tree, s: nat)
    requires Treap(m, t) && InRange(m, s)
    ensures AllInRange(m, t)
    ensures forall q :: q in Nodes(Below(m, t, s)) <==> q in Nodes(t) && Less(m, q, s)
  {
    hide Match, Less;
    TreapRange(m, t);
    if t.Node? {
      BelowNodes(m, t.left, s);
      BelowNodes(m, t.right, s);
      forall q | q in Nodes(t) ensures q in Nodes(Below(m, t, s)) <==> Less(m, q, s) {
        BelowOne(m, t, s, q);
      }
    }
  }

  lemma BelowOne(m: seq<byte>, t: Tree, s: nat, q: nat)
    requires Treap(m, t) && InRange(m, s) && AllInRange(m, t) && t.Node? && q in Nodes(t)
    requires AllInRange(m, t.left) && AllInRange(m, t.right)
    requires q in Nodes(t.left) ==> (q in Nodes(Below(m, t.left, s)) <==> Less(m, q, s))
    requires q in Nodes(t.right) ==> (q in Nodes(Below(m, t.right, s)) <==> Less(m, q, s))
    requires forall x :: x in Nodes(Below(m, t.left, s)) ==> x in Nodes(t.left)
    requires forall x :: x in Nodes(Below(m, t.right, s)) ==> x in Nodes(t.right)
    ensures q in Nodes(Below(m, t, s)) <==> Less(m, q, s)
  {
    var p := t.pos;
    Trichotomy(m, p, s);
    Trichotomy(m, q, s);
    Position(m, p, q, s);
    Trichotomy(m, p, q);
  }

  lemma {:induction false} AboveTreap(m: seq<byte>, t: Tree, s: nat)
    requires Treap(m, t) && InRange(m, s)
    ensures Treap(m, Above(m, t, s))
  {
    hide Match, Less, Nodes;
    if t.Node? {
      AboveTreap(m, t.left, s);
      AboveTreap(m, t.right, s);
      AboveNodes(m, t.right, s);
    }
  }

  lemma {:induction false} BelowTreap(m: seq<byte>, t: Tree, s: nat)
    requires Treap(m, t) && InRange(m, s)
    ensures Treap(m, Below(m, t, s))
  {
    hide Match, Less, Nodes;
    if t.Node? {
      BelowTreap(m, t.left, s);
      BelowTreap(m, t.right, s);
      BelowNodes(m, t.left, s);
    }
  }

  /** Inserting the newest position keeps a treap; the nodes that agree with it on 50 bytes leave. */
  lemma InsertTreap(m: seq<byte>, t: Tree, s: nat)
    requires Treap(m, t) && InRange(m, s) && Newer(s, t)
    ensures Treap(m, Insert(m, t, s)) && AllInRange(m, t)
    ensures forall q :: q in Nodes(Insert(m, t, s)) <==> q == s || (q in Nodes(t) && Match(m, q, s) < BREAK_LENGTH)
  {
    hide Common, Match, Less, Above, Below;
    AboveTreap(m, t, s);
    BelowTreap(m, t, s);
    AboveNodes(m, t, s);
    BelowNodes(m, t, s);
    forall q | q in Nodes(t) ensures Less(m, q, s) || Less(m, s, q) <==> Match(m, q, s) < BREAK_LENGTH {
      Trichotomy(m, q, s);
      MatchSymmetric(m, q, s);
    }
  }

  // ---------- Removal of the root: its subtrees are merged ----------

  /** The newer root first. */
  ghost function Merge(a: Tree, b: Tree): Tree {
    match (a, b)
    case (Empty, _) => b
    case (_, Empty) => a
    case (Node(al, p, ar), Node(bl, q, br)) =>
      if p > q then Node(al, p, Merge(ar, b)) else Node(Merge(a, bl), q, br)
  }

  /** All strings of a are above all strings of b. */
  ghost predicate Separate(m: seq<byte>, a: Tree, b: Tree) {
    forall x, y :: x in Nodes(a) && y in Nodes(b) ==> Smaller(m, y, x)
  }

  lemma {:induction false} MergeNodes(a: Tree, b: Tree)
    ensures Nodes(Merge(a, b)) == Nodes(a) + Nodes(b)
  {
    match (a, b)
    case (Empty, _) =>
    case (_, Empty) =>
    case (Node(al, p, ar), Node(bl, q, br)) =>
      if p > q {
        MergeNodes(ar, b);
      } else {
        MergeNodes(a, bl);
      }
  }

  /** Roots of separate trees are different positions. */
  lemma SeparateSame(m: seq<byte>, a: Tree, b: Tree)
    requires Separate(m, a, b) && a.Node? && b.Node?
    ensures a.pos != b.pos
  {
    assert a.pos in Nodes(a) && b.pos in Nodes(b);
    if a.pos == b.pos {
      Trichotomy(m, a.pos, b.pos);
    }
  }

  /** Lower subtrees are separate too. */
  lemma SeparateWithin(m: seq<byte>, a: Tree, b: Tree, a': Tree, b': Tree)
    requires Separate(m, a, b) && Nodes(a') <= Nodes(a) && Nodes(b') <= Nodes(b)
    ensures Separate(m, a', b')
  {
    hide Smaller, Nodes;
  }

  /** The subtrees of a root are separate. */
  lemma RootSeparates(m: seq<byte>, t: Tree)
    requires Treap(m, t) && t.Node?
    ensures Separate(m, t.left, t.right)
  {
    hide Less;
    forall x, y | x in Nodes(t.left) && y in Nodes(t.right) ensures Smaller(m, y, x) {
      Between(m, y, t.pos, x);
    }
  }

  /** What is left of the newer root a, when all the rest goes to its right. */
  lemma MergedRight(m: seq<byte>, a: Tree, b: Tree, u: Tree)
    requires Treap(m, a) && Treap(m, b) && Separate(m, a, b) && a.Node? && (b == Empty || b.pos < a.pos)
    requires Nodes(u) <= Nodes(a.right) + Nodes(b) && Treap(m, u)
    ensures Treap(m, Node(a.left, a.pos, u)) && Separate(m, a.right, b)
  {
    hide Less;
    SeparateWithin(m, a, b, a.right, b);
    assert a.pos in Nodes(a);
    forall q | q in Nodes(u) ensures q < a.pos && Smaller(m, q, a.pos) {
      if q in Nodes(b) {
        RootNewest(m, b, q);
      }
    }
    TreapRange(m, a);
  }

  lemma MergedLeft(m: seq<byte>, a: Tree, b: Tree, u: Tree)
    requires Treap(m, a) && Treap(m, b) && Separate(m, a, b) && b.Node? && (a == Empty || a.pos <= b.pos)
    requires Nodes(u) <= Nodes(a) + Nodes(b.left) && Treap(m, u)
    ensures Treap(m, Node(u, b.pos, b.right)) && Separate(m, a, b.left)
  {
    hide Less;
    SeparateWithin(m, a, b, a, b.left);
    assert b.pos in Nodes(b);
    if a.Node? {
      SeparateSame(m, a, b);
    }
    forall q | q in Nodes(u) ensures q < b.pos && Smaller(m, b.pos, q) {
      if q in Nodes(a) {
        RootNewest(m, a, q);
      }
    }
    TreapRange(m, b);
  }

  lemma SubtreeNodes(m: seq<byte>, t: Tree)
    requires t.Node?
    ensures Nodes(t.left) <= Nodes(t) && Nodes(t.right) <= Nodes(t)
    ensures Treap(m, t) ==> Treap(m, t.left) && Treap(m, t.right)
  {
  }

  lemma {:induction false} MergeTreap(m: seq<byte>, a: Tree, b: Tree)
    requires Treap(m, a) && Treap(m, b) && Separate(m, a, b)
    ensures Treap(m, Merge(a, b))
  {
    hide Treap, Separate, Nodes;
    match (a, b)
    case (Empty, _) =>
    case (_, Empty) =>
    case (Node(al, p, ar), Node(bl, q, br)) =>
      SubtreeNodes(m, a);
      SubtreeNodes(m, b);
      if p > q {
        SeparateWithin(m, a, b, ar, b);
        MergeTreap(m, ar, b);
        MergeNodes(ar, b);
        MergedRight(m, a, b, Merge(ar, b));
      } else {
        SeparateWithin(m, a, b, a, bl);
        MergeTreap(m, a, bl);
        MergeNodes(a, bl);
        MergedLeft(m, a, b, Merge(a, bl));
      }
  }

  /** The merge that gives up at the first pair of roots that have expired. */
  ghost function MergeLive(a: Tree, b: Tree, cut: nat): Tree
    decreases a, b
  {
    if a.Node? && (b == Empty || a.pos > b.pos) then
      if a.pos <= cut then Empty else Node(a.left, a.pos, MergeLive(a.right, b, cut))
    else if b.Node? then
      if b.pos <= cut then Empty else Node(MergeLive(a, b.left, cut), b.pos, b.right)
    else Empty
  }

  /** It loses expired nodes only. */
  lemma {:induction false} MergeLiveNodes(m: seq<byte>, a: Tree, b: Tree, cut: nat)
    requires Treap(m, a) && Treap(m, b)
    ensures Nodes(MergeLive(a, b, cut)) <= Nodes(a) + Nodes(b)
    ensures forall q :: q in Nodes(a) + Nodes(b) && q > cut ==> q in Nodes(MergeLive(a, b, cut))
    decreases a, b
  {
    hide Less;
    if a.Node? && (b == Empty || a.pos > b.pos) {
      if a.pos > cut {
        MergeLiveNodes(m, a.right, b, cut);
      }
    } else if b.Node? {
      if b.pos > cut {
        MergeLiveNodes(m, a, b.left, cut);
      }
    }
  }

  lemma {:induction false} MergeLiveTreap(m: seq<byte>, a: Tree, b: Tree, cut: nat)
    requires Treap(m, a) && Treap(m, b) && Separate(m, a, b)
    ensures Treap(m, MergeLive(a, b, cut))
    decreases a, b
  {
    hide Treap, Separate, Nodes;
    EmptyTreap(m);
    if a.Node? && (b == Empty || a.pos > b.pos) {
      if a.pos > cut {
        SubtreeNodes(m, a);
        SeparateWithin(m, a, b, a.right, b);
        MergeLiveTreap(m, a.right, b, cut);
        MergeLiveNodes(m, a.right, b, cut);
        MergedRight(m, a, b, MergeLive(a.right, b, cut));
      }
    } else if b.Node? {
      if b.pos > cut {
        SubtreeNodes(m, b);
        SeparateWithin(m, a, b, a, b.left);
        MergeLiveTreap(m, a, b.left, cut);
        MergeLiveNodes(m, a, b.left, cut);
        MergedLeft(m, a, b, MergeLive(a, b.left, cut));
      }
    }
  }

  lemma EmptyTreap(m: seq<byte>)
    ensures Treap(m, Empty)
  {
  }

  /** An expired tree is as good as an empty one. */
  lemma {:induction false} MergeLiveExpired(a: Tree, b: Tree, cut: nat)
    requires a.Node? && a.pos <= cut
    ensures MergeLive(a, b, cut) == MergeLive(Empty, b, cut)
    decreases b
  {
    if b.Node? {
      MergeLiveExpired(a, b.left, cut);
    }
  }

  lemma {:induction false} MergeLiveExpiredToo(a: Tree, b: Tree, cut: nat)
    requires b.Node? && b.pos <= cut
    ensures MergeLive(a, b, cut) == MergeLive(a, Empty, cut)
    decreases a
  {
    if a.Node? {
      MergeLiveExpiredToo(a.right, b, cut);
    }
  }

  /** The tree after its root is removed while positions up to cut have expired. */
  ghost function Removed(t: Tree, cut: nat): Tree {
    if t == Empty || t.pos <= cut then Empty else MergeLive(t.left, t.right, cut)
  }

  /** Removing the root keeps a treap, without the root and with every other live node. */
  lemma RemoveTreap(m: seq<byte>, t: Tree, cut: nat)
    requires Treap(m, t)
    ensures Treap(m, Removed(t, cut)) && Nodes(Removed(t, cut)) <= Nodes(t)
    ensures t.Node? ==> t.pos !in Nodes(Removed(t, cut))
    ensures forall q :: q in Nodes(t) && q > cut && q != t.pos ==> q in Nodes(Removed(t, cut))
  {
    hide Less;
    if t.Node? && t.pos > cut {
      RootSeparates(m, t);
      MergeLiveTreap(m, t.left, t.right, cut);
      MergeLiveNodes(m, t.left, t.right, cut);
    }
  }

  // ---------- Expiry ----------

  /** What is left when positions up to end have expired: a search stops at the first of them. */
  ghost function Live(t: Tree, end: nat): Tree {
    match t
    case Empty => Empty
    case Node(l, p, r) => if p <= end then Empty else Node(Live(l, end), p, Live(r, end))
  }

  /** Stopping there loses no live node. */
  lemma {:induction false} LiveNodes(m: seq<byte>, t: Tree, end: nat)
    requires Treap(m, t)
    ensures forall q :: q in Nodes(Live(t, end)) <==> q in Nodes(t) && q > end
  {
    hide Less;
    if t.Node? && t.pos > end {
      LiveNodes(m, t.left, end);
      LiveNodes(m, t.right, end);
    }
  }

  lemma {:induction false} LiveTreap(m: seq<byte>, t: Tree, end: nat)
    requires Treap(m, t)
    ensures Treap(m, Live(t, end))
  {
    hide Less;
    if t.Node? && t.pos > end {
      LiveTreap(m, t.left, end);
      LiveTreap(m, t.right, end);
      LiveNodes(m, t.left, end);
      LiveNodes(m, t.right, end);
    }
  }
}
