/** make_len: from a Huffman tree to code lengths of at most 16. */
module HuffmanLengths {
  import opened Bits
  import opened Canonical
  import opened Huffman

  // ---------- Counting the leaves of the tree in the arrays ----------

  /** The child links from node n on describe the given trees; the nodes below n are leaves. */
  ghost predicate Linked(lr: seq<nat>, n: nat, trees: seq<Tree>) {
    2 * |trees| <= |lr|
    && (forall k :: 0 <= k < n && k < |trees| ==> trees[k].Leaf?)
    && (forall k: nat :: n <= k < |trees| ==> LinkedNode(lr, trees, k))
  }

  /** The links of node k go to earlier nodes, whose trees are its children. */
  ghost predicate LinkedNode(lr: seq<nat>, trees: seq<Tree>, k: nat) {
    k < |trees| && k * 2 + 1 < |lr| && lr[k * 2] < k && lr[k * 2 + 1] < k
    && trees[k] == Node(trees[lr[k * 2]], trees[lr[k * 2 + 1]])
  }

  method CountLen(lr: array<nat>, n: nat, i: nat, depth: nat, cnt: array<nat>, ghost trees: seq<Tree>)
    requires Linked(lr[..], n, trees) && i < |trees| && cnt.Length == 17 && cnt != lr
    modifies cnt
    ensures forall j :: 0 <= j <= 16 ==> cnt[j] == old(cnt[j]) + DepthCount(trees[i], depth, j)
    decreases i
  {
    if i < n {
      var d := if depth < 16 then depth else 16;
      cnt[d] := cnt[d] + 1;
    } else {
      assert LinkedNode(lr[..], trees, i);
      CountLen(lr, n, lr[i * 2], depth + 1, cnt, trees);
      CountLen(lr, n, lr[i * 2 + 1], depth + 1, cnt, trees);
    }
  }

  // ---------- The repair loop ----------

  lemma {:induction false} SumsUpdate(cnt: seq<nat>, j: nat, v: nat, i: nat)
    requires |cnt| == 17 && 1 <= j <= 16 && i <= 16
    ensures KraftUpTo(cnt[j := v], i) + (if i < j then 0 else Scale(cnt[j], 16 - j))
            == KraftUpTo(cnt, i) + (if i < j then 0 else Scale(v, 16 - j))
    ensures TotalUpTo(cnt[j := v], i) + (if i < j then 0 else cnt[j]) == TotalUpTo(cnt, i) + (if i < j then 0 else v)
  {
    hide Scale;
    if i > 0 {
      SumsUpdate(cnt, j, v, i - 1);
    }
  }

  /** Without lengths below 16 the Kraft sum is the number of codes. */
  lemma {:induction false} OnlySixteens(cnt: seq<nat>, i: nat)
    requires |cnt| == 17 && i <= 15 && forall j :: 1 <= j <= i ==> cnt[j] == 0
    ensures KraftUpTo(cnt, i) == 0 && TotalUpTo(cnt, i) == 0
  {
    hide Scale;
    if i > 0 {
      OnlySixteens(cnt, i - 1);
      ScaleZero(16 - i);
    }
  }

  /** One step: a code of length 16 goes, a code of length i becomes two of length i + 1. */
  lemma RepairStep(cnt: seq<nat>, i: nat)
    requires |cnt| == 17 && 1 <= i <= 15 && cnt[16] > 0 && cnt[i] > 0
    ensures var a := cnt[16 := cnt[16] - 1];
            var b := a[i := a[i] - 1];
            var c := b[i + 1 := b[i + 1] + 2];
            KraftUpTo(c, 16) + 1 == KraftUpTo(cnt, 16) && TotalUpTo(c, 16) == TotalUpTo(cnt, 16)
            && c[16] + 1 >= cnt[16]
  {
    hide Scale, KraftUpTo, TotalUpTo;
    var a := cnt[16 := cnt[16] - 1];
    var b := a[i := a[i] - 1];
    SumsUpdate(cnt, 16, cnt[16] - 1, 16);
    SumsUpdate(a, i, a[i] - 1, 16);
    SumsUpdate(b, i + 1, b[i + 1] + 2, 16);
    ScaleNone(cnt[16]);
    ScaleNone(cnt[16] - 1);
    ScaleStep(a[i] - 1, 16 - i);
    ScaleAdd(b[i + 1], 2, 15 - i);
    ScaleStep(1, 15 - i);
    ScaleOne(15 - i);
    ScaleOne(16 - i);
  }

  /** The first half of make_len after counting: cum is the overflow of the Kraft sum in 16 bits, and
      each round of the loop lowers it by one. */
  method LimitLengths(cnt: array<nat>, ghost excess: nat)
    requires cnt.Length == 17 && KraftUpTo(cnt[..], 16) == 65536 + excess && TotalUpTo(cnt[..], 16) < 65536
    requires excess > 0 ==> excess < cnt[16]
    requires cnt[0] == 0
    modifies cnt
    ensures KraftUpTo(cnt[..], 16) == 65536 && TotalUpTo(cnt[..], 16) == old(TotalUpTo(cnt[..], 16)) && cnt[0] == 0
    ensures excess == 0 ==> cnt[..] == old(cnt[..])
    ensures excess > 0 ==> cnt[16] > 0
  {
    hide Scale, KraftUpTo, TotalUpTo, Wrap16;
    ghost var given, all := cnt[..], KraftUpTo(cnt[..], 16);
    var cum: nat := 0;
    ZeroWraps(all);
    for i := 16 downto 0
      modifies {}
      invariant KraftUpTo(cnt[..], i) <= all && cum == Wrap16(all - KraftUpTo(cnt[..], i))
    {
      SumStep(cnt[..], i + 1, all, cum);
      cum := Wrap16(cum + Wrap16(Scale(cnt[i + 1], 15 - i)));
    }
    assert cnt[..] == given;
    SumOfNone(cnt[..]);
    TotalBound(cnt[..]);
    WrapExcess(excess);
    assert all - KraftUpTo(cnt[..], 0) == 65536 + excess;
    while cum > 0
      invariant cnt.Length == 17 && cnt[0] == 0
      invariant KraftUpTo(cnt[..], 16) == 65536 + cum && TotalUpTo(cnt[..], 16) == old(TotalUpTo(cnt[..], 16))
      invariant cum > 0 ==> cum < cnt[16]
      invariant excess == 0 ==> cum == 0 && cnt[..] == old(cnt[..])
      invariant excess > 0 ==> cnt[16] > 0
    {
      ghost var was := cnt[..];
      var i := Shorter(cnt);
      RepairStep(was, i);
      cnt[16] := cnt[16] - 1;
      cnt[i] := cnt[i] - 1;
      cnt[i + 1] := cnt[i + 1] + 2;
      assert cnt[..] == was[16 := was[16] - 1][i := was[16 := was[16] - 1][i] - 1]
                           [i + 1 := was[16 := was[16] - 1][i := was[16 := was[16] - 1][i] - 1][i + 1] + 2];
      cum := cum - 1;
    }
  }

  /** The inner loop: the longest used length below 16. There is one, since codes of length 16 alone
      do not overflow. */
  method Shorter(cnt: array<nat>) returns (i: nat)
    requires cnt.Length == 17 && KraftUpTo(cnt[..], 16) > 65536 && TotalUpTo(cnt[..], 16) < 65536
    ensures 1 <= i <= 15 && cnt[i] > 0 && forall j :: i < j <= 15 ==> cnt[j] == 0
  {
    SomeShorter(cnt[..]);
    i := 15;
    while i > 0 && cnt[i] == 0
      invariant i <= 15 && forall j :: i < j <= 15 ==> cnt[j] == 0
    {
      i := i - 1;
    }
  }

  lemma SomeShorter(cnt: seq<nat>)
    requires |cnt| == 17 && KraftUpTo(cnt, 16) > 65536 && TotalUpTo(cnt, 16) < 65536
    ensures exists j :: 1 <= j <= 15 && cnt[j] > 0
  {
    if forall j :: 1 <= j <= 15 ==> cnt[j] == 0 {
      SixteensSum(cnt);
    }
  }

  lemma SixteensSum(cnt: seq<nat>)
    requires |cnt| == 17 && forall j :: 1 <= j <= 15 ==> cnt[j] == 0
    ensures KraftUpTo(cnt, 16) == TotalUpTo(cnt, 16)
  {
    OnlySixteens(cnt, 15);
    ScaleNone(cnt[16]);
  }

  lemma ZeroWraps(all: nat)
    ensures 0 == Wrap16(all - all)
  {
  }

  lemma SumStep(cnt: seq<nat>, i: nat, all: nat, cum: nat)
    requires |cnt| == 17 && 1 <= i <= 16 && KraftUpTo(cnt, i) <= all && cum == Wrap16(all - KraftUpTo(cnt, i))
    ensures KraftUpTo(cnt, i - 1) <= all
    ensures Wrap16(cum + Wrap16(Scale(cnt[i], 16 - i))) == Wrap16(all - KraftUpTo(cnt, i - 1))
  {
    hide Scale;
    var x, y := all - KraftUpTo(cnt, i), Scale(cnt[i], 16 - i);
    assert KraftUpTo(cnt, i) == KraftUpTo(cnt, i - 1) + y;
    assert all - KraftUpTo(cnt, i - 1) == x + y;
  }

  lemma SumOfNone(cnt: seq<nat>)
    requires |cnt| == 17
    ensures KraftUpTo(cnt, 0) == 0
  {
  }

  lemma TotalBound(cnt: seq<nat>)
    requires |cnt| == 17
    ensures cnt[16] <= TotalUpTo(cnt, 16)
  {
  }

  lemma WrapExcess(e: nat)
    ensures e < 65536 ==> Wrap16(65536 + e) == e
  {
  }

  // ---------- Handing the lengths out ----------

  /** The lengths in the order they are handed out: cnt[i] times i, then i - 1, and so on. */
  function Spread(cnt: seq<nat>, i: nat): (r: seq<nat>)
    requires |cnt| == 17 && i <= 16
    ensures |r| == TotalUpTo(cnt, i)
  {
    if i == 0 then [] else seq(cnt[i], _ => i) + Spread(cnt, i - 1)
  }

  lemma {:induction false} SpreadDescends(cnt: seq<nat>, i: nat)
    requires |cnt| == 17 && i <= 16
    ensures forall p :: 0 <= p < |Spread(cnt, i)| ==> 1 <= Spread(cnt, i)[p] <= i
    ensures forall p, q :: 0 <= p < q < |Spread(cnt, i)| ==> Spread(cnt, i)[p] >= Spread(cnt, i)[q]
  {
    if i > 0 {
      SpreadDescends(cnt, i - 1);
    }
  }

  /** The second half of make_len: the sorted symbols get the lengths, longest first. */
  method AssignLengths(cnt: array<nat>, sorted: array<nat>, len: array<nat>)
    requires cnt.Length == 17 && TotalUpTo(cnt[..], 16) <= sorted.Length
    requires cnt != len && sorted != len
    requires forall p :: 0 <= p < TotalUpTo(cnt[..], 16) ==> sorted[p] < len.Length
    requires forall p, q :: 0 <= p < q < TotalUpTo(cnt[..], 16) ==> sorted[p] != sorted[q]
    modifies len
    ensures forall p :: 0 <= p < TotalUpTo(cnt[..], 16) ==> len[sorted[p]] == Spread(cnt[..], 16)[p]
    ensures forall s :: 0 <= s < len.Length && s !in sorted[..TotalUpTo(cnt[..], 16)] ==> len[s] == old(len[s])
  {
    hide TotalUpTo, Spread;
    ghost var all, m := Spread(cnt[..], 16), TotalUpTo(cnt[..], 16);
    var ptr := 0;
    assert all == [] + Spread(cnt[..], 16);
    for i := 16 downto 0
      invariant 0 <= ptr <= m && all == all[..ptr] + Spread(cnt[..], i)
      invariant forall p :: 0 <= p < ptr ==> len[sorted[p]] == all[p]
      invariant forall s :: 0 <= s < len.Length && s !in sorted[..m] ==> len[s] == old(len[s])
    {
      ghost var tail := Spread(cnt[..], i);
      SpreadStep(cnt[..], i + 1);
      SpreadBlock(all, ptr, cnt[i + 1], i + 1, tail);
      GiveLength(sorted, len, ptr, cnt[i + 1], i + 1, all, m);
      ptr := ptr + cnt[i + 1];
    }
    SpreadNone(cnt[..]);
  }

  /** The inner loop: the next k symbols of the sorted list get length v. */
  method GiveLength(sorted: array<nat>, len: array<nat>, from: nat, k: nat, v: nat, ghost all: seq<nat>, ghost m: nat)
    requires from + k <= m <= sorted.Length && |all| == m && sorted != len
    requires forall p :: 0 <= p < m ==> sorted[p] < len.Length
    requires forall p, q :: 0 <= p < q < m ==> sorted[p] != sorted[q]
    requires forall p :: from <= p < from + k ==> all[p] == v
    requires forall p :: 0 <= p < from ==> len[sorted[p]] == all[p]
    modifies len
    ensures forall p :: 0 <= p < from + k ==> len[sorted[p]] == all[p]
    ensures forall s :: 0 <= s < len.Length && s !in sorted[..m] ==> len[s] == old(len[s])
  {
    for i := from to from + k
      invariant forall p :: 0 <= p < i ==> len[sorted[p]] == all[p]
      invariant forall s :: 0 <= s < len.Length && s !in sorted[..m] ==> len[s] == old(len[s])
    {
      assert sorted[i] == sorted[..m][i];
      len[sorted[i]] := v;
    }
  }

  lemma SpreadBlock(all: seq<nat>, from: nat, k: nat, v: nat, tail: seq<nat>)
    requires from <= |all| && all == all[..from] + (seq(k, _ => v) + tail)
    ensures from + k <= |all| && all == all[..from + k] + tail
    ensures forall p :: from <= p < from + k ==> all[p] == v
  {
  }

  lemma SpreadStep(cnt: seq<nat>, i: nat)
    requires |cnt| == 17 && 1 <= i <= 16
    ensures Spread(cnt, i) == seq(cnt[i], _ => i) + Spread(cnt, i - 1)
  {
  }

  lemma SpreadNone(cnt: seq<nat>)
    requires |cnt| == 17
    ensures Spread(cnt, 0) == []
  {
  }
}
