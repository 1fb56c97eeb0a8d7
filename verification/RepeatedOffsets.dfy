/** After the search: matches at the three most recent offsets are preferred, and no match reaches the
    end of its 32 KB chunk. */
module RepeatedOffsets {
  import opened Bits
  import opened MatchTree
  import opened MatchFinder
  import S = Slots
  import T = Tokens

  /** How far the bytes at s agree with those off bytes before. */
  function Agreed(m: seq<byte>, s: nat, off: nat, n: nat): nat
    requires off <= s && s + n <= |m|
  {
    Common(m, s, s - off, n)
  }

  predicate SameBack(m: seq<byte>, s: nat, off: nat, i: nat) {
    off <= s && EqualAt(m, s, s - off, i)
  }

  /** The bytes from s on repeat those off bytes before, for len bytes. */
  predicate Repeats(m: seq<byte>, s: nat, off: nat, len: nat) {
    1 <= off <= s && s + len <= |m| && forall i: nat :: i < len ==> SameBack(m, s, off, i)
  }

  lemma AgreedIs(m: seq<byte>, s: nat, off: nat, n: nat, i: nat)
    requires off <= s && s + n <= |m| && i <= n && (i < n ==> m[s + i] != m[s - off + i])
    requires forall j: nat :: j < i ==> SameBack(m, s, off, j)
    ensures Agreed(m, s, off, n) == i
  {
    hide Common;
    var a := s - off;
    forall j: nat | j < i ensures EqualAt(m, s, a, j) {
      assert SameBack(m, s, off, j);
    }
    CommonIs(m, s, a, n, i);
  }

  lemma AgreedRepeats(m: seq<byte>, s: nat, off: nat, n: nat, l: nat)
    requires 1 <= off <= s && s + n <= |m| && l <= Agreed(m, s, off, n)
    ensures Repeats(m, s, off, l)
  {
    hide Common;
    var a := s - off;
    CommonAgrees(m, s, a, n);
    assert forall i: nat :: i < l ==> EqualAt(m, s, a, i);
  }

  /** What a table entry for length l becomes, when the repeated offsets agree on r0, r1 and r2 bytes. */
  function Preferred(r0: nat, r1: nat, r2: nat, l: nat, found: nat): nat {
    if l <= r0 then 0
    else if r0 > BREAK_LENGTH then found
    else if l <= r1 then 1
    else if l <= r2 then 2
    else found
  }

  /** The table loop over the bytes at s and off bytes before. */
  method LookBack(mem: array<byte>, s: nat, off: nat, len: nat) returns (i: nat)
    requires off <= s && s + len <= mem.Length
    ensures i == Agreed(mem[..], s, off, len)
  {
    hide Agreed;
    i := 0;
    ghost var m := mem[..];
    while i < len
      invariant 0 <= i <= len && forall j: nat :: j < i ==> SameBack(m, s, off, j)
    {
      if mem[s + i] != mem[s - off + i] {
        break;
      }
      assert SameBack(m, s, off, i);
      i := i + 1;
    }
    AgreedIs(m, s, off, len, i);
  }

  /** Lengths after best and up to i get the given code. */
  method MarkLonger(table: array<nat>, best: nat, i: nat, code: nat) returns (newBest: nat)
    requires best <= i < table.Length
    modifies table
    ensures newBest == i
    ensures forall l: nat :: l < table.Length ==> table[l] == if best < l <= i then code else old(table[l])
  {
    newBest := best;
    while newBest < i
      invariant best <= newBest <= i
      invariant forall l: nat :: l < table.Length ==> table[l] == if best < l <= newBest then code else old(table[l])
    {
      newBest := newBest + 1;
      table[newBest] := code;
    }
  }

  /** The repeated-offset pass of binary_search_findmatch. */
  method PreferRepeated(mem: array<byte>, table: array<nat>, s: nat, len: nat, q: T.Queue)
    requires table.Length == 258 && 2 <= len <= MAX_MATCH && s + len <= mem.Length && q.r0 <= s && q.r1 <= s
             && q.r2 <= s
    modifies table
    ensures var m := mem[..];
            forall l: nat :: 2 <= l <= len ==>
              table[l] == Preferred(Agreed(m, s, q.r0, len), Agreed(m, s, q.r1, len), Agreed(m, s, q.r2, len), l,
                                    old(table[l]))
  {
    hide Agreed;
    var r0 := LookBack(mem, s, q.r0, len);
    AgreedCap(mem[..], s, q.r0, len);
    AgreedCap(mem[..], s, q.r1, len);
    AgreedCap(mem[..], s, q.r2, len);
    var best := r0;
    if r0 >= 2 {
      var i: nat := r0;
      while i >= 2
        invariant 1 <= i <= r0
        invariant forall l: nat :: l < 258 ==> table[l] == if i < l <= r0 then 0 else old(table[l])
      {
        table[i] := 0;
        i := i - 1;
      }
      if best > BREAK_LENGTH {
        return;
      }
    }
    var r1 := LookBack(mem, s, q.r1, len);
    if r1 > best {
      best := MarkLonger(table, best, r1, 1);
    }
    var r2 := LookBack(mem, s, q.r2, len);
    if r2 > best {
      best := MarkLonger(table, best, r2, 2);
    }
  }

  lemma AgreedCap(m: seq<byte>, s: nat, off: nat, n: nat)
    requires off <= s && s + n <= |m|
    ensures Agreed(m, s, off, n) <= n
  {
  }

  /** The match length, cut off so that the match ends before the last byte of its chunk. */
  function Bounded(s: nat, len: nat): (r: nat)
    ensures r <= len && (r == 0 || s % T.FRAME + r < T.FRAME)
  {
    var room := T.FRAME - 1 - s % T.FRAME;
    if len > room then (if room < 2 then 0 else room) else len
  }

  // ---------- What the parser may rely on ----------

  /** A match of length l with distance code d says what the bytes at s are, under the queue q. */
  predicate Usable(m: seq<byte>, s: nat, start: nat, q: T.Queue, l: nat, d: nat) {
    var off := T.Offset(q, d);
    2 <= l <= MAX_MATCH && d < S.WINDOW && start <= s && off <= s - start && off <= S.WINDOW && Repeats(m, s, off, l)
  }

  /** Offsets of the queue are inside the past and the window. */
  predicate QueueInside(q: T.Queue, n: nat) {
    && 1 <= q.r0 <= n && 1 <= q.r1 <= n && 1 <= q.r2 <= n
    && q.r0 <= S.WINDOW && q.r1 <= S.WINDOW && q.r2 <= S.WINDOW
  }

  /** Table entries are usable. */
  predicate TableUsable(m: seq<byte>, s: nat, start: nat, q: T.Queue, len: nat, table: seq<nat>) {
    |table| == 258 && len <= MAX_MATCH && forall l: nat :: 2 <= l <= len ==> Usable(m, s, start, q, l, table[l])
  }

  lemma PreferredUsable(m: seq<byte>, s: nat, start: nat, q: T.Queue, len: nat, l: nat, found: nat)
    requires s + len <= |m| && start < s && QueueInside(q, s - start) && 2 <= l <= len <= MAX_MATCH
             && Usable(m, s, start, q, l, found)
    ensures Usable(m, s, start, q, l,
                   Preferred(Agreed(m, s, q.r0, len), Agreed(m, s, q.r1, len), Agreed(m, s, q.r2, len), l, found))
  {
    hide Agreed, Repeats;
    var r0, r1, r2 := Agreed(m, s, q.r0, len), Agreed(m, s, q.r1, len), Agreed(m, s, q.r2, len);
    if l <= r0 {
      AgreedRepeats(m, s, q.r0, len, l);
    }
    if l <= r1 {
      AgreedRepeats(m, s, q.r1, len, l);
    }
    if l <= r2 {
      AgreedRepeats(m, s, q.r2, len, l);
    }
  }

  lemma FoundUsable(m: seq<byte>, s: nat, start: nat, q: T.Queue, l: nat, t: Tree, p: nat, end: nat)
    requires start <= p < s && s - p + 4 < S.WINDOW && 2 <= l <= MAX_MATCH && Nearest(m, t, s, l, p)
    ensures Usable(m, s, start, q, l, s - p + 2)
  {
    hide Common;
    MatchAgrees(m, p, s);
    var off := s - p;
    forall i: nat | i < l ensures SameBack(m, s, off, i) {
      assert EqualAt(m, p, s, i);
    }
  }

  /** A match that is usable copies the bytes at s. */
  lemma {:induction false} CopyRepeats(m: seq<byte>, start: nat, s: nat, off: nat, l: nat)
    requires start + off <= s && Repeats(m, s, off, l)
    ensures T.Copy(m[start..s], off, l) == m[start..s + l]
    decreases l
  {
    if l > 0 {
      var h := m[start..s];
      assert SameBack(m, s, off, 0) && m[s - off] == h[|h| - off];
      assert h + [h[|h| - off]] == m[start..s + 1];
      RepeatsOn(m, s, off, l);
      CopyRepeats(m, start, s + 1, off, l - 1);
    }
  }

  lemma RepeatsOn(m: seq<byte>, s: nat, off: nat, l: nat)
    requires Repeats(m, s, off, l) && l > 0
    ensures Repeats(m, s + 1, off, l - 1)
  {
    var t := s + 1;
    forall i: nat | i < l - 1 ensures SameBack(m, t, off, i) {
      assert SameBack(m, s, off, i + 1);
    }
  }
}
