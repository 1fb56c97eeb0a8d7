/** All search trees together: one for each pair of first bytes, in shared arrays of links. */
module SearchTrees {
  import opened Bits
  import opened MatchTree
  import opened LinkedTrees
  import opened TreeMerge
  import opened MatchFinder
  import S = Slots
  import T = Tokens

  // ---------- The forest as values ----------

  /** The links from ptr on are a search tree of key k over positions from start on, before next. */
  ghost predicate Rooted(m: seq<byte>, l: seq<nat>, r: seq<nat>, ptr: nat, end: nat, t: Tree, k: nat, start: nat,
                         next: nat) {
    Linked(l, r, ptr, end, t) && Treap(m, t) && Keyed(m, k, t) && Aged(t, start, next)
  }

  /** All positions are from start on and before next. */
  ghost predicate Aged(t: Tree, start: nat, next: nat) {
    forall q :: q in Nodes(t) ==> start <= q < next
  }

  ghost predicate Forest(m: seq<byte>, roots: seq<nat>, l: seq<nat>, r: seq<nat>, end: nat, trees: seq<Tree>,
                         start: nat, next: nat) {
    && |roots| == NUM_TREES && |trees| == NUM_TREES && |l| == |r|
    && forall k: nat :: k < NUM_TREES ==> Rooted(m, l, r, roots[k], end, trees[k], k, start, next)
  }

  lemma ForestAt(m: seq<byte>, roots: seq<nat>, l: seq<nat>, r: seq<nat>, end: nat, trees: seq<Tree>, start: nat,
                 next: nat, k: nat)
    requires Forest(m, roots, l, r, end, trees, start, next) && k < NUM_TREES
    ensures |roots| == NUM_TREES && |trees| == NUM_TREES && |l| == |r|
            && Rooted(m, l, r, roots[k], end, trees[k], k, start, next)
  {
    hide Rooted;
  }

  lemma RootedParts(m: seq<byte>, l: seq<nat>, r: seq<nat>, ptr: nat, end: nat, t: Tree, k: nat, start: nat, next: nat)
    requires Rooted(m, l, r, ptr, end, t, k, start, next)
    ensures Linked(l, r, ptr, end, t) && Treap(m, t) && Keyed(m, k, t) && Aged(t, start, next)
    ensures t.Node? <==> ptr > end
    ensures t.Node? ==> t.pos == ptr
  {
    hide Treap, Keyed, Aged;
  }

  // ---------- Expiry ----------

  ghost function AllLive(trees: seq<Tree>, end: nat): (r: seq<Tree>)
    ensures |r| == |trees| && forall k :: 0 <= k < |trees| ==> r[k] == Live(trees[k], end)
  {
    seq(|trees|, k requires 0 <= k < |trees| => Live(trees[k], end))
  }

  lemma RootedLive(m: seq<byte>, l: seq<nat>, r: seq<nat>, ptr: nat, end: nat, t: Tree, k: nat, start: nat, next: nat,
                   end': nat)
    requires Rooted(m, l, r, ptr, end, t, k, start, next) && end <= end'
    ensures Rooted(m, l, r, ptr, end', Live(t, end'), k, start, next)
  {
    hide Live, Linked, Treap, Key, Less;
    LinkedLive(l, r, ptr, end, t, end');
    LiveTreap(m, t, end');
    LiveNodes(m, t, end');
  }

  /** As positions expire, each tree keeps its live nodes. */
  lemma ForestLive(m: seq<byte>, roots: seq<nat>, l: seq<nat>, r: seq<nat>, end: nat, trees: seq<Tree>, start: nat,
                   next: nat, end': nat)
    requires Forest(m, roots, l, r, end, trees, start, next) && end <= end'
    ensures Forest(m, roots, l, r, end', AllLive(trees, end'), start, next)
  {
    hide Rooted, Live;
    forall k: nat | k < NUM_TREES ensures Rooted(m, l, r, roots[k], end', AllLive(trees, end')[k], k, start, next) {
      RootedLive(m, l, r, roots[k], end, trees[k], k, start, next, end');
    }
  }

  // ---------- One tree changes ----------

  /** Two trees of different keys share no node. */
  lemma KeysApart(m: seq<byte>, t: Tree, u: Tree, j: nat, k: nat, s: nat)
    requires Keyed(m, j, t) && Keyed(m, k, u) && j != k && s + 2 <= |m| && Key(m, s) == k
    ensures forall q :: q in Nodes(t) ==> q !in Nodes(u) && q != s
  {
    hide Nodes, Key;
  }

  lemma RootedKept(m: seq<byte>, l: seq<nat>, r: seq<nat>, l': seq<nat>, r': seq<nat>, ptr: nat, end: nat, t: Tree,
                   j: nat, start: nat, next: nat,
                   u: Tree, k: nat, s: nat, next': nat)
    requires Rooted(m, l, r, ptr, end, t, j, start, next) && Keyed(m, k, u) && j != k && s + 2 <= |m| && Key(m, s) == k
    requires Outside(l', l, u, s) && Outside(r', r, u, s) && (next <= next' || (next == s + 1 && next' == s))
    ensures Rooted(m, l', r', ptr, end, t, j, start, next')
  {
    hide Linked, Treap, Key, Less, Nodes;
    KeysApart(m, t, u, j, k, s);
    LinkedFrame(l, r, l', r', ptr, end, t);
  }

  /** The tree of a position s is replaced; the others do not notice. */
  lemma ForestChange(m: seq<byte>, roots: seq<nat>, l: seq<nat>, r: seq<nat>, end: nat, trees: seq<Tree>, start: nat,
                     next: nat,
                     l': seq<nat>, r': seq<nat>, k: nat, s: nat, ptr: nat, t: Tree, next': nat)
    requires Forest(m, roots, l, r, end, trees, start, next) && s + 2 <= |m| && Key(m, s) == k < NUM_TREES
    requires Outside(l', l, trees[k], s) && Outside(r', r, trees[k], s)
             && (next <= next' || (next == s + 1 && next' == s))
    requires Rooted(m, l', r', ptr, end, t, k, start, next')
    ensures Forest(m, roots[k := ptr], l', r', end, trees[k := t], start, next')
  {
    hide Rooted, Outside, Key, Keyed;
    SameLengths(l, r, l', r', trees[k], s);
    ForestAt(m, roots, l, r, end, trees, start, next, k);
    RootedParts(m, l, r, roots[k], end, trees[k], k, start, next);
    var ps, ts := roots[k := ptr], trees[k := t];
    forall j: nat | j < NUM_TREES ensures Rooted(m, l', r', ps[j], end, ts[j], j, start, next') {
      if j != k {
        RootedKept(m, l, r, l', r', roots[j], end, trees[j], j, start, next, trees[k], k, s, next');
      }
    }
  }

  lemma SameLengths(l: seq<nat>, r: seq<nat>, l': seq<nat>, r': seq<nat>, t: Tree, s: nat)
    requires Outside(l', l, t, s) && Outside(r', r, t, s)
    ensures |l'| == |l| && |r'| == |r|
  {
  }

  /** A tree with s inserted. */
  lemma InsertRooted(m: seq<byte>, t: Tree, k: nat, start: nat, s: nat, l': seq<nat>, r': seq<nat>, end: nat)
    requires Treap(m, t) && Keyed(m, k, t) && Aged(t, start, s) && start <= s && InRange(m, s) && Key(m, s) == k
             && Linked(l', r', s, end, Insert(m, t, s))
    ensures Rooted(m, l', r', s, end, Insert(m, t, s), k, start, s + 1)
  {
    hide Linked, Treap, Key, Less, Match, Insert;
    InsertTreap(m, t, s);
  }

  lemma AgedNewer(t: Tree, start: nat, a: nat, b: nat)
    requires Aged(t, start, a) && a <= b
    ensures Aged(t, start, b) && Newer(b, t)
  {
    hide Nodes;
  }

  /** A tree with its root s removed. */
  lemma RemoveRooted(m: seq<byte>, t: Tree, k: nat, start: nat, s: nat, ptr: nat, l': seq<nat>, r': seq<nat>, end: nat,
                     cut: nat)
    requires Treap(m, t) && Keyed(m, k, t) && Aged(t, start, s + 1) && (t.Node? ==> t.pos == s)
             && Linked(l', r', ptr, end, Removed(t, cut))
    ensures Rooted(m, l', r', ptr, end, Removed(t, cut), k, start, s)
  {
    hide Linked, Treap, Key, Less, Removed, Nodes;
    RemoveTreap(m, t, cut);
    if t == Empty {
      NoRoot(t, cut);
    }
  }

  lemma NoRoot(t: Tree, cut: nat)
    requires t == Empty
    ensures Removed(t, cut) == Empty && Nodes(Removed(t, cut)) == {}
  {
  }

  /** If the newest position of a tree is not its root, it is not in the tree at all. */
  lemma NotRoot(m: seq<byte>, l: seq<nat>, r: seq<nat>, ptr: nat, end: nat, t: Tree, k: nat, start: nat, s: nat)
    requires Rooted(m, l, r, ptr, end, t, k, start, s + 1) && ptr != s
    ensures Rooted(m, l, r, ptr, end, t, k, start, s)
  {
    hide Treap, Key, Less, Linked;
    RootedParts(m, l, r, ptr, end, t, k, start, s + 1);
    if t.Node? {
      forall q | q in Nodes(t) ensures q < s {
        RootNewest(m, t, q);
        assert t.pos in Nodes(t);
      }
    }
  }

  // ---------- Bytes read later ----------

  /** Bytes from n on may change when no node reaches that far with its first 50 bytes. */
  ghost predicate Reaches(t: Tree, n: nat) {
    forall q :: q in Nodes(t) ==> q + BREAK_LENGTH <= n
  }

  lemma LessSame(m: seq<byte>, m': seq<byte>, a: nat, b: nat, n: nat)
    requires |m| == |m'| && n <= |m| && m[..n] == m'[..n] && InRange(m, a) && InRange(m, b) && a + BREAK_LENGTH <= n
             && b + BREAK_LENGTH <= n
    requires Less(m, a, b)
    ensures Less(m', a, b)
  {
    hide Common;
    var k := Match(m, a, b);
    MatchAgrees(m, a, b);
    forall i: nat | i < BREAK_LENGTH ensures EqualAt(m, a, b, i) == EqualAt(m', a, b, i) {
      assert m[a + i] == m[..n][a + i] == m'[..n][a + i] == m'[a + i];
      assert m[b + i] == m[..n][b + i] == m'[..n][b + i] == m'[b + i];
    }
    CommonIs(m', a, b, MAX_MATCH, k);
    assert m[a + k] == m[..n][a + k] == m'[..n][a + k] == m'[a + k];
    assert m[b + k] == m[..n][b + k] == m'[..n][b + k] == m'[b + k];
  }

  lemma ReachParts(t: Tree, n: nat)
    requires Reaches(t, n) && t.Node?
    ensures t.pos + BREAK_LENGTH <= n && Reaches(t.left, n) && Reaches(t.right, n)
  {
    assert t.pos in Nodes(t) && Nodes(t.left) <= Nodes(t) && Nodes(t.right) <= Nodes(t);
  }

  lemma SidesRead(m: seq<byte>, m': seq<byte>, p: nat, t: Tree, n: nat)
    requires |m| == |m'| && n <= |m| && m[..n] == m'[..n] && p + BREAK_LENGTH <= n && Reaches(t, n)
    ensures LeftOf(m, p, t) ==> LeftOf(m', p, t)
    ensures RightOf(m, p, t) ==> RightOf(m', p, t)
  {
    hide Less, Nodes;
    if LeftOf(m, p, t) {
      forall q | q in Nodes(t) ensures InRange(m', q) && q < p && Less(m', p, q) {
        LessSame(m, m', p, q, n);
      }
    }
    if RightOf(m, p, t) {
      forall q | q in Nodes(t) ensures InRange(m', q) && q < p && Less(m', q, p) {
        LessSame(m, m', q, p, n);
      }
    }
  }

  /** Reading more input keeps every tree that has been cut back a treap. */
  lemma {:induction false} TreapReads(m: seq<byte>, m': seq<byte>, t: Tree, n: nat)
    requires Treap(m, t) && Reaches(t, n) && |m| == |m'| && n <= |m| && m[..n] == m'[..n]
    ensures Treap(m', t)
  {
    hide Less, LeftOf, RightOf, Reaches;
    if t.Node? {
      ReachParts(t, n);
      TreapReads(m, m', t.left, n);
      TreapReads(m, m', t.right, n);
      SidesRead(m, m', t.pos, t.left, n);
      SidesRead(m, m', t.pos, t.right, n);
    }
  }

  lemma KeyedReads(m: seq<byte>, m': seq<byte>, k: nat, t: Tree, n: nat)
    requires Keyed(m, k, t) && Reaches(t, n) && |m| == |m'| && n <= |m| && m[..n] == m'[..n]
    ensures Keyed(m', k, t)
  {
    hide Nodes;
    forall q | q in Nodes(t) ensures InRange(m', q) && Key(m', q) == k {
      assert m[q] == m[..n][q] == m'[..n][q] == m'[q];
      assert m[q + 1] == m[..n][q + 1] == m'[..n][q + 1] == m'[q + 1];
    }
  }

  lemma ForestReads(m: seq<byte>, m': seq<byte>, roots: seq<nat>, l: seq<nat>, r: seq<nat>, end: nat, trees: seq<Tree>,
                    start: nat, next: nat, n: nat)
    requires Forest(m, roots, l, r, end, trees, start, next) && |m| == |m'| && next + BREAK_LENGTH <= n + 1 && n <= |m|
             && m[..n] == m'[..n]
    ensures Forest(m', roots, l, r, end, trees, start, next)
  {
    hide Treap, Keyed, Linked, Nodes;
    forall k: nat | k < NUM_TREES ensures Rooted(m', l, r, roots[k], end, trees[k], k, start, next) {
      assert Rooted(m, l, r, roots[k], end, trees[k], k, start, next);
      TreapReads(m, m', trees[k], n);
      KeyedReads(m, m', k, trees[k], n);
    }
  }

  // ---------- The window moves on ----------

  /** From base on nothing has changed. */
  ghost predicate SameFrom<T>(a: seq<T>, b: seq<T>, base: nat) {
    |a| == |b| && forall i :: base <= i < |a| ==> a[i] == b[i]
  }

  ghost predicate AllFrom(t: Tree, base: nat) {
    forall q :: q in Nodes(t) ==> q >= base
  }

  lemma AllFromParts(t: Tree, base: nat)
    requires AllFrom(t, base) && t.Node?
    ensures t.pos >= base && AllFrom(t.left, base) && AllFrom(t.right, base)
  {
    assert t.pos in Nodes(t) && Nodes(t.left) <= Nodes(t) && Nodes(t.right) <= Nodes(t);
  }

  lemma LessSlid(m: seq<byte>, m': seq<byte>, a: nat, b: nat, base: nat)
    requires SameFrom(m, m', base) && base <= a && base <= b && InRange(m, a) && InRange(m, b) && Less(m, a, b)
    ensures Less(m', a, b)
  {
    hide Common;
    MatchAgrees(m, a, b);
    forall i: nat | i < MAX_MATCH ensures EqualAt(m, a, b, i) == EqualAt(m', a, b, i) {
    }
    CommonIs(m', a, b, MAX_MATCH, Match(m, a, b));
  }

  lemma SidesSlid(m: seq<byte>, m': seq<byte>, p: nat, t: Tree, base: nat)
    requires SameFrom(m, m', base) && p >= base && AllFrom(t, base)
    ensures LeftOf(m, p, t) ==> LeftOf(m', p, t)
    ensures RightOf(m, p, t) ==> RightOf(m', p, t)
  {
    hide Less, Nodes;
    if LeftOf(m, p, t) {
      forall q | q in Nodes(t) ensures InRange(m', q) && q < p && Less(m', p, q) {
        LessSlid(m, m', p, q, base);
      }
    }
    if RightOf(m, p, t) {
      forall q | q in Nodes(t) ensures InRange(m', q) && q < p && Less(m', q, p) {
        LessSlid(m, m', q, p, base);
      }
    }
  }

  lemma {:induction false} TreapSlid(m: seq<byte>, m': seq<byte>, t: Tree, base: nat)
    requires Treap(m, t) && AllFrom(t, base) && SameFrom(m, m', base)
    ensures Treap(m', t)
  {
    hide Less, LeftOf, RightOf, AllFrom;
    if t.Node? {
      AllFromParts(t, base);
      TreapSlid(m, m', t.left, base);
      TreapSlid(m, m', t.right, base);
      SidesSlid(m, m', t.pos, t.left, base);
      SidesSlid(m, m', t.pos, t.right, base);
    }
  }

  lemma {:induction false} LinkedSlid(l: seq<nat>, r: seq<nat>, l': seq<nat>, r': seq<nat>, ptr: nat, end: nat,
                                      t: Tree, base: nat)
    requires Linked(l, r, ptr, end, t) && SameFrom(l, l', base) && SameFrom(r, r', base) && base <= end + 1
    ensures Linked(l', r', ptr, end, t)
    decreases t
  {
    if t.Node? {
      LinkedSlid(l, r, l', r', l[t.pos], end, t.left, base);
      LinkedSlid(l, r, l', r', r[t.pos], end, t.right, base);
    }
  }

  lemma RootedSlid(m: seq<byte>, m': seq<byte>, l: seq<nat>, r: seq<nat>, l': seq<nat>, r': seq<nat>, ptr: nat,
                   end: nat,
                   t: Tree, k: nat, start: nat, next: nat, base: nat)
    requires Rooted(m, l, r, ptr, end, t, k, start, next) && AllFrom(t, base) && base <= end + 1
    requires SameFrom(m, m', base) && SameFrom(l, l', base) && SameFrom(r, r', base)
    ensures Rooted(m', l', r', ptr, end, t, k, start, next)
  {
    hide Linked, Treap, Less, Nodes;
    LinkedSlid(l, r, l', r', ptr, end, t, base);
    TreapSlid(m, m', t, base);
  }

  /** Whatever becomes of the bytes and links before base, those from base on are all that the trees need once the
      positions before base have expired. */
  lemma ForestSlid(m: seq<byte>, m': seq<byte>, roots: seq<nat>, l: seq<nat>, r: seq<nat>, l': seq<nat>, r': seq<nat>,
                   end: nat, trees: seq<Tree>, start: nat, next: nat, base: nat, end': nat)
    requires Forest(m, roots, l, r, end, trees, start, next) && end <= end' && base <= end' + 1
    requires SameFrom(m, m', base) && SameFrom(l, l', base) && SameFrom(r, r', base)
    ensures Forest(m', roots, l', r', end', AllLive(trees, end'), start, next)
  {
    hide Rooted, Live, AllFrom, SameFrom;
    ForestLive(m, roots, l, r, end, trees, start, next, end');
    SameLength(l, l', base);
    SameLength(r, r', base);
    forall k: nat | k < NUM_TREES ensures Rooted(m', l', r', roots[k], end', AllLive(trees, end')[k], k, start, next) {
      ForestAt(m, roots, l, r, end, trees, start, next, k);
      RootedParts(m, l, r, roots[k], end, trees[k], k, start, next);
      LiveFrom(m, trees[k], end', base);
      RootedSlid(m, m', l, r, l', r', roots[k], end', Live(trees[k], end'), k, start, next, base);
    }
  }

  lemma SameLength(a: seq<nat>, b: seq<nat>, base: nat)
    requires SameFrom(a, b, base)
    ensures |a| == |b|
  {
  }

  lemma LiveFrom(m: seq<byte>, t: Tree, end: nat, base: nat)
    requires Treap(m, t) && base <= end + 1
    ensures AllFrom(Live(t, end), base)
  {
    hide Live, Nodes, Treap;
    LiveNodes(m, t, end);
  }
}
