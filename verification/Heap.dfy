/** The encoder's heap of tree nodes, ordered by frequency, stored from index 1. */
module Heap {
  import opened Bags

  /** Parents from index lo on are no heavier than their children. */
  ghost predicate Ordered(h: seq<nat>, f: seq<nat>, lo: nat, size: nat) {
    && lo >= 1 && size < |h|
    && (forall j :: 1 <= j <= size ==> h[j] < |f|)
    && (forall j: nat :: lo <= j / 2 && j <= size ==> InOrder(h, f, j))
  }

  ghost predicate InOrder(h: seq<nat>, f: seq<nat>, j: nat) {
    j < |h| && h[j / 2] < |f| && h[j] < |f| && f[h[j / 2]] <= f[h[j]]
  }

  /** The nodes in the heap. */
  ghost function Nodes(h: seq<nat>, size: nat): multiset<nat>
    requires size < |h|
  {
    multiset(h[1..size + 1])
  }

  lemma {:induction false} RootIsLeast(h: seq<nat>, f: seq<nat>, size: nat, j: nat)
    requires Ordered(h, f, 1, size) && 1 <= j <= size
    ensures f[h[1]] <= f[h[j]]
  {
    if j > 1 {
      RootIsLeast(h, f, size, j / 2);
      assert InOrder(h, f, j);
    }
  }

  lemma RootLeastOfAll(h: seq<nat>, f: seq<nat>, size: nat)
    requires Ordered(h, f, 1, size) && size >= 1
    ensures forall x :: x in Nodes(h, size) ==> x < |f| && f[h[1]] <= f[x]
  {
    forall x | x in Nodes(h, size)
      ensures x < |f| && f[h[1]] <= f[x]
    {
      var j :| 0 <= j < size && h[1..size + 1][j] == x;
      RootIsLeast(h, f, size, j + 1);
    }
  }

  lemma SwapKeepsNodes(h: seq<nat>, i: nat, j: nat, size: nat)
    requires 1 <= i <= size && 1 <= j <= size && size < |h|
    ensures Nodes(h[i := h[j]][j := h[i]], size) == Nodes(h, size)
  {
    var s := h[1..size + 1];
    assert h[i := h[j]][j := h[i]][1..size + 1] == s[i - 1 := s[j - 1]][j - 1 := s[i - 1]];
  }

  /** The order below a hole at i, which holds a value still to be placed. */
  ghost predicate Holed(h: seq<nat>, f: seq<nat>, lo: nat, size: nat, i: nat) {
    && 1 <= lo <= i <= size < |h|
    && (forall j :: 1 <= j <= size ==> h[j] < |f|)
    && (forall j: nat :: lo <= j / 2 && j <= size && j / 2 != i ==> InOrder(h, f, j))
    && (i > lo && lo <= i / 2 ==> forall j: nat :: j / 2 == i && j <= size ==> f[h[i / 2]] <= f[h[j]])
  }

  lemma SinkStep(h: seq<nat>, f: seq<nat>, lo: nat, size: nat, i: nat, j: nat)
    requires Holed(h, f, lo, size, i) && j / 2 == i && j <= size
    requires forall k: nat :: k / 2 == i && k <= size ==> f[h[j]] <= f[h[k]]
    requires f[h[j]] < f[h[i]]
    ensures Holed(h[i := h[j]][j := h[i]], f, lo, size, j)
  {
    var g := h[i := h[j]][j := h[i]];
    assert j > i;
    forall k: nat | lo <= k / 2 && k <= size && k / 2 != j
      ensures InOrder(g, f, k)
    {
      if k / 2 == i {
      } else if k == i {
        assert f[h[i / 2]] <= f[h[j]];
      } else {
        assert InOrder(h, f, k);
      }
    }
    forall k: nat | k / 2 == j && k <= size
      ensures f[g[j / 2]] <= f[g[k]]
    {
      assert InOrder(h, f, k);
    }
  }

  lemma HoleFilled(h: seq<nat>, f: seq<nat>, lo: nat, size: nat, i: nat)
    requires Holed(h, f, lo, size, i)
    requires forall k: nat :: k / 2 == i && k <= size ==> f[h[i]] <= f[h[k]]
    ensures Ordered(h, f, lo, size)
  {
    forall j: nat | lo <= j / 2 && j <= size
      ensures InOrder(h, f, j)
    {
    }
  }

  /** down_heap: node i sinks until neither child is lighter. */
  method DownHeap(heap: array<nat>, freq: array<nat>, size: nat, start: nat)
    requires 1 <= start <= size < heap.Length && heap != freq
    requires Ordered(heap[..], freq[..], start + 1, size)
    modifies heap
    ensures Ordered(heap[..], freq[..], start, size)
    ensures Nodes(heap[..], size) == old(Nodes(heap[..], size))
  {
    hide Ordered, Holed, Nodes;
    var k, i := heap[start], start;
    ghost var f := freq[..];
    ghost var h := heap[..];
    HoleAtStart(h, f, size, start);
    assert heap[..][i := k] == h;
    while 2 * i <= size
      invariant 1 <= i <= size && freq[..] == f
      invariant heap[..][i := k] == h && Holed(h, f, start, size, i) && Nodes(h, size) == old(Nodes(heap[..], size))
      decreases size - i
    {
      InBounds(h, f, start, size, i);
      var j := 2 * i;
      assert forall m :: 1 <= m <= size && m != i ==> heap[m] == heap[..][i := k][m];
      if j < size && freq[heap[j]] > freq[heap[j + 1]] {
        j := j + 1;
      }
      if freq[k] <= freq[heap[j]] {
        break;
      }
      SinkStep(h, f, start, size, i, j);
      SwapKeepsNodes(h, i, j, size);
      h := h[i := h[j]][j := h[i]];
      heap[i] := heap[j];
      i := j;
    }
    InBounds(h, f, start, size, i);
    heap[i] := k;
    assert heap[..] == h;
    HoleFilled(h, f, start, size, i);
  }

  lemma HoleAtStart(h: seq<nat>, f: seq<nat>, size: nat, start: nat)
    requires 1 <= start <= size && Ordered(h, f, start + 1, size)
    ensures Holed(h, f, start, size, start)
  {
    forall j: nat | start <= j / 2 && j <= size && j / 2 != start
      ensures InOrder(h, f, j)
    {
    }
  }

  lemma InBounds(h: seq<nat>, f: seq<nat>, lo: nat, size: nat, i: nat)
    requires Holed(h, f, lo, size, i)
    ensures size < |h| && forall j :: 1 <= j <= size ==> h[j] < |f|
  {
  }

  lemma ReplaceRoot(h: seq<nat>, f: seq<nat>, size: nat, x: nat)
    requires Ordered(h, f, 1, size) && size >= 1 && x < |f|
    ensures Ordered(h[1 := x], f, 2, size)
    ensures Nodes(h[1 := x], size) == With(Take(Nodes(h, size), h[1]), x)
  {
    assert Ordered(h[1 := x], f, 2, size) by {
      forall j: nat | 2 <= j / 2 && j <= size
        ensures InOrder(h[1 := x], f, j)
      {
        assert InOrder(h, f, j);
      }
    }
    var s := h[1..size + 1];
    assert s == [h[1]] + s[1..];
    assert h[1 := x][1..size + 1] == [x] + s[1..];
    assert multiset(s) == multiset{h[1]} + multiset(s[1..]);
    assert multiset([x] + s[1..]) == multiset{x} + multiset(s[1..]);
    assert multiset(s) - multiset{h[1]} == multiset(s[1..]);
  }

  lemma DropLast(h: seq<nat>, f: seq<nat>, size: nat)
    requires Ordered(h, f, 1, size) && size >= 2
    ensures Ordered(h[1 := h[size]], f, 2, size - 1)
    ensures Nodes(h[1 := h[size]], size - 1) == Take(Nodes(h, size), h[1])
  {
    LastMoved(h, size);
    hide Nodes;
    forall j: nat | 2 <= j / 2 && j <= size - 1
      ensures InOrder(h[1 := h[size]], f, j)
    {
      assert InOrder(h, f, j);
    }
  }

  lemma LastMoved(h: seq<nat>, size: nat)
    requires 2 <= size < |h|
    ensures Nodes(h[1 := h[size]], size - 1) == Take(Nodes(h, size), h[1])
  {
    var x := h[size];
    var s := h[1..size + 1];
    var mid := h[2..size];
    assert s == [h[1]] + (mid + [x]);
    assert h[1 := x][1..size] == [x] + mid;
    assert multiset(s) == multiset{h[1]} + multiset(mid + [x]);
    assert multiset(s) - multiset{h[1]} == multiset(mid + [x]);
    assert multiset(mid + [x]) == multiset([x] + mid);
  }

  /** The least node leaves the heap: the last node takes the root and sinks. */
  method RemoveRoot(heap: array<nat>, freq: array<nat>, size: nat) returns (i: nat)
    requires 2 <= size < heap.Length && heap != freq && Ordered(heap[..], freq[..], 1, size)
    modifies heap
    ensures Ordered(heap[..], freq[..], 1, size - 1)
    ensures i == old(heap[1]) && i in old(Nodes(heap[..], size))
    ensures Nodes(heap[..], size - 1) == Take(old(Nodes(heap[..], size)), i)
    ensures forall x :: x in old(Nodes(heap[..], size)) ==> x < freq.Length && freq[i] <= freq[x]
  {
    hide Ordered, Nodes, Take;
    RootLeastOfAll(heap[..], freq[..], size);
    RootInside(heap[..], size);
    DropLast(heap[..], freq[..], size);
    ghost var h := heap[..];
    i := heap[1];
    heap[1] := heap[size];
    assert heap[..] == h[1 := h[size]];
    DownHeap(heap, freq, size - 1, 1);
  }

  lemma RootInside(h: seq<nat>, size: nat)
    requires 1 <= size < |h|
    ensures h[1] in Nodes(h, size)
  {
    assert h[1..size + 1][0] == h[1];
  }

  lemma OrderedMore(h: seq<nat>, f: seq<nat>, g: seq<nat>, lo: nat, size: nat, k: nat)
    requires Ordered(h, f, lo, size) && |g| == |f| && k < |f| && g == f[k := g[k]]
    requires k !in Nodes(h, size)
    ensures Ordered(h, g, lo, size)
  {
    assert forall j :: 1 <= j <= size ==> h[j] != k by {
      forall j | 1 <= j <= size
        ensures h[j] != k
      {
        assert h[1..size + 1][j - 1] == h[j];
      }
    }
    forall j: nat | lo <= j / 2 && j <= size
      ensures InOrder(h, g, j)
    {
      assert InOrder(h, f, j);
    }
  }

  /** The loop that makes a heap of an unordered array. */
  method BuildHeap(heap: array<nat>, freq: array<nat>, size: nat)
    requires 1 <= size < heap.Length && heap != freq && forall j :: 1 <= j <= size ==> heap[j] < freq.Length
    modifies heap
    ensures Ordered(heap[..], freq[..], 1, size) && Nodes(heap[..], size) == old(Nodes(heap[..], size))
  {
    hide Nodes;
    for i := size / 2 downto 0
      invariant Ordered(heap[..], freq[..], i + 1, size) && Nodes(heap[..], size) == old(Nodes(heap[..], size))
    {
      DownHeap(heap, freq, size, i + 1);
    }
  }
}
