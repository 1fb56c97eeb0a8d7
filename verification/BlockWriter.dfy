/** The encoder: the tokens of a block are counted, given code tables, and written as a verbatim, an
    aligned or an uncompressed block into frames. */
module BlockWriter {
  import opened Bits
  import opened BitStream
  import opened Canonical
  import opened Slots
  import opened Tokens
  import opened RepTree
  import opened Stream
  import opened Frames
  import opened Replay
  import B = TokenBuffer
  import H = Huffman
  import M = MakeTree

  /** Frequencies that give every token of ts its codes. */
  ghost predicate Covers(f: seq<nat>, g: seq<nat>, ts: seq<Token>) {
    && |f| == MAIN && |g| == SECONDARY
    && forall t :: t in ts ==> Plain(t) && f[MainSymbol(t)] > 0 && (Long(t) ==> g[t.len - 9] > 0)
  }

  ghost predicate CoversLow(f: seq<nat>, ts: seq<Token>) {
    |f| == ALIGNED && forall t :: t in ts && t.Match? && t.dist >= 16 ==> f[t.dist % 8] > 0
  }

  ghost predicate Occurring(f: seq<nat>) {
    exists i :: 0 <= i < |f| && f[i] > 0
  }

  ghost predicate AllPlain(ts: seq<Token>) {
    forall t :: t in ts ==> Plain(t)
  }

  ghost predicate AllServed(c: Codes, aligned: bool, ts: seq<Token>) {
    Shaped(c) && forall t :: t in ts ==> Plain(t) && Served(c, aligned, t)
  }

  // ---------- Statistics ----------

  /** How many of the tokens have the main symbol k. */
  ghost function MainCount(ts: seq<Token>, k: nat): nat
    requires AllPlain(ts)
  {
    if ts == [] then 0
    else
      assert ts[|ts| - 1] in ts;
      MainCount(ts[..|ts| - 1], k) + if MainSymbol(ts[|ts| - 1]) == k then 1 else 0
  }

  /** How many have the long length k. */
  ghost function LongCount(ts: seq<Token>, k: nat): nat {
    if ts == [] then 0
    else LongCount(ts[..|ts| - 1], k) + if Long(ts[|ts| - 1]) && ts[|ts| - 1].len == k + 9 then 1 else 0
  }

  /** How many of the distances are 16 or more and have the low three bits k. */
  ghost function LowCount(ds: seq<nat>, k: nat): nat {
    if ds == [] then 0
    else
      var d := ds[|ds| - 1];
      LowCount(ds[..|ds| - 1], k) + if d >= 16 && d % 8 == k then 1 else 0
  }

  /** How many are 16 or more. */
  ghost function LowTotal(ds: seq<nat>): nat {
    if ds == [] then 0 else LowTotal(ds[..|ds| - 1]) + if ds[|ds| - 1] >= 16 then 1 else 0
  }

  /** A tree for the low three bits is worth having: 100 matches or more, and one of the eight values
      in more than a fifth of the large distances. */
  ghost predicate WorthAligned(ts: seq<Token>) {
    var ds := DistancesOf(ts);
    |ds| >= 100 && exists k: nat :: k < ALIGNED && LowCount(ds, k) > LowTotal(ds) / 5
  }

  ghost predicate Tallied(f: seq<nat>, g: seq<nat>, ts: seq<Token>) {
    && AllPlain(ts) && |f| == MAIN && |g| == SECONDARY
    && (forall k: nat :: k < MAIN ==> f[k] == MainCount(ts, k))
    && (forall k: nat :: k < SECONDARY ==> g[k] == LongCount(ts, k))
  }

  ghost predicate LowCounted(f: seq<nat>, ds: seq<nat>) {
    |f| == ALIGNED && (forall k: nat :: k < ALIGNED ==> f[k] == LowCount(ds, k)) && M.FreqSum(f) == LowTotal(ds)
  }

  lemma CountedNone(f: seq<nat>, g: seq<nat>, ts: seq<Token>)
    requires |f| == MAIN && |g| == SECONDARY && (forall k :: 0 <= k < MAIN ==> f[k] == 0)
    requires forall k :: 0 <= k < SECONDARY ==> g[k] == 0
    ensures Tallied(f, g, ts[..0])
  {
  }

  /** One token more in f and g. */
  ghost predicate OneMore(f: seq<nat>, g: seq<nat>, f': seq<nat>, g': seq<nat>, t: Token)
    requires Plain(t)
  {
    && |f'| == |f| == MAIN && |g'| == |g| == SECONDARY
    && (forall k: nat :: k < MAIN ==> f'[k] == f[k] + if MainSymbol(t) == k then 1 else 0)
    && (forall k: nat :: k < SECONDARY ==> g'[k] == g[k] + if Long(t) && t.len == k + 9 then 1 else 0)
    && M.FreqSum(f') == M.FreqSum(f) + 1 && M.FreqSum(g) <= M.FreqSum(g') <= M.FreqSum(g) + 1
  }

  lemma CountedMore(f: seq<nat>, g: seq<nat>, f': seq<nat>, g': seq<nat>, ts: seq<Token>, i: nat)
    requires i < |ts| && AllPlain(ts) && Plain(ts[i]) && Tallied(f, g, ts[..i]) && OneMore(f, g, f', g', ts[i])
    ensures Tallied(f', g', ts[..i + 1])
  {
    hide MainSymbol, Long, Plain, M.FreqSum;
    assert ts[..i + 1][..i] == ts[..i];
  }

  lemma SameSeconds(f: seq<nat>, g: seq<nat>, f': seq<nat>, t: Token)
    requires Plain(t) && !Long(t) && |f'| == |f| == MAIN && |g| == SECONDARY && MainSymbol(t) < MAIN
    requires M.FreqSum(f') == M.FreqSum(f) + 1
    requires forall k :: 0 <= k < MAIN ==> f'[k] == f[k] + if k == MainSymbol(t) then 1 else 0
    ensures OneMore(f, g, f', g, t)
  {
    hide MainSymbol, Long, Plain, M.FreqSum;
  }

  lemma BothMore(f: seq<nat>, g: seq<nat>, f': seq<nat>, g': seq<nat>, t: Token)
    requires Plain(t) && Long(t) && |f'| == |f| == MAIN && |g| == |g'| == SECONDARY
    requires M.FreqSum(f') == M.FreqSum(f) + 1 && M.FreqSum(g') == M.FreqSum(g) + 1
    requires forall k :: 0 <= k < MAIN ==> f'[k] == f[k] + if k == MainSymbol(t) then 1 else 0
    requires forall k :: 0 <= k < SECONDARY ==> g'[k] == g[k] + if k == t.len - 9 then 1 else 0
    ensures OneMore(f, g, f', g', t)
  {
    hide MainSymbol, M.FreqSum;
  }

  /** Token i of the buffer is counted. */
  method CountToken(buf: B.Buffer, slotTable: array<nat>, mainFreq: array<nat>, secFreq: array<nat>, i: nat, d: nat,
                    ghost ts: seq<Token>) returns (width: nat, d': nat)
    requires buf.Valid() && i < |ts| && ts <= buf.Held() && AllPlain(ts) && d == B.Matches(buf.itemType[..], i)
    requires slotTable.Length == 1024
    requires forall p :: 0 <= p < 1024 ==> slotTable[p] < 20 && InSlot(p, slotTable[p])
    requires mainFreq.Length >= MAIN && secFreq.Length >= SECONDARY && mainFreq != secFreq
    modifies mainFreq, secFreq
    ensures Plain(ts[i]) && width == Width(ts[i]) && d' == d + if ts[i].Match? then 1 else 0
    ensures OneMore(old(mainFreq[..MAIN]), old(secFreq[..SECONDARY]), mainFreq[..MAIN], secFreq[..SECONDARY], ts[i])
  {
    hide B.Matches, B.Items, B.ClearFrom, B.OnesTable, M.FreqSum, InSlot, AllPlain, B.IsMatch, SlotOf, MainSymbol,
         OneMore;
    ghost var f, g, t := mainFreq[..MAIN], secFreq[..SECONDARY], ts[i];
    TokenAt(buf, i, ts);
    SymbolIs(t);
    if !B.IsMatch(buf.itemType[..], i) {
      M.Tally(mainFreq, MAIN, buf.litData[i] as int);
      SameSeconds(f, g, mainFreq[..MAIN], t);
      return 1, d;
    }
    var slot := MpSlot(slotTable, buf.distData[d]);
    var len := buf.litData[i] as int;
    width, d' := len + 2, d + 1;
    if len < 7 {
      M.Tally(mainFreq, MAIN, 256 + 8 * slot + len);
      SameSeconds(f, g, mainFreq[..MAIN], t);
    } else {
      M.Tally(mainFreq, MAIN, 256 + 7 + 8 * slot);
      M.Tally(secFreq, SECONDARY, len - 7);
      BothMore(f, g, mainFreq[..MAIN], secFreq[..SECONDARY], t);
    }
  }

  /** get_block_stats: the symbols of the first end tokens are counted, and the bytes they stand for. */
  method BlockStats(buf: B.Buffer, slotTable: array<nat>, mainFreq: array<nat>, secFreq: array<nat>, end: nat)
    returns (bytes: nat)
    requires buf.Valid() && end <= buf.literals && slotTable.Length == 1024
    requires forall p :: 0 <= p < 1024 ==> slotTable[p] < 20 && InSlot(p, slotTable[p])
    requires mainFreq.Length >= MAIN && secFreq.Length >= SECONDARY && mainFreq != secFreq
             && slotTable !in {mainFreq, secFreq}
    requires buf.ones !in {mainFreq, secFreq} && buf.distData !in {mainFreq, secFreq}
    requires buf.itemType as object !in {mainFreq as object, secFreq}
             && buf.litData as object !in {mainFreq as object, secFreq}
    requires AllPlain(buf.Held()[..end])
    modifies mainFreq, secFreq
    ensures bytes == TotalWidth(buf.Held()[..end])
    ensures Tallied(mainFreq[..MAIN], secFreq[..SECONDARY], buf.Held()[..end])
    ensures M.FreqSum(mainFreq[..MAIN]) == end && M.FreqSum(secFreq[..SECONDARY]) <= end
  {
    hide B.Matches, B.Items, B.ClearFrom, B.OnesTable, M.FreqSum, TotalWidth, Width, InSlot, AllPlain, B.IsMatch,
         SlotOf, MainSymbol, Tallied, OneMore, Plain;
    forall i | 0 <= i < MAIN { mainFreq[i] := 0; }
    forall i | 0 <= i < SECONDARY { secFreq[i] := 0; }
    M.FreqSumZero(mainFreq[..MAIN]);
    M.FreqSumZero(secFreq[..SECONDARY]);
    ghost var ts := buf.Held()[..end];
    bytes := 0;
    var d := 0;
    StatsNone(ts, buf.itemType[..]);
    CountedNone(mainFreq[..MAIN], secFreq[..SECONDARY], ts);
    for i := 0 to end
      invariant buf.Valid() && buf.Held()[..end] == ts && d == B.Matches(buf.itemType[..], i)
      invariant bytes == TotalWidth(ts[..i])
      invariant M.FreqSum(mainFreq[..MAIN]) == i && M.FreqSum(secFreq[..SECONDARY]) <= i
      invariant Tallied(mainFreq[..MAIN], secFreq[..SECONDARY], ts[..i])
      invariant forall p :: 0 <= p < 1024 ==> slotTable[p] < 20 && InSlot(p, slotTable[p])
    {
      ghost var f, g := mainFreq[..MAIN], secFreq[..SECONDARY];
      NextIs(buf, i, ts);
      var width;
      width, d := CountToken(buf, slotTable, mainFreq, secFreq, i, d, ts);
      bytes := bytes + width;
      CountedMore(f, g, mainFreq[..MAIN], secFreq[..SECONDARY], ts, i);
      SumsMore(f, g, mainFreq[..MAIN], secFreq[..SECONDARY], ts[i]);
      NextWidth(ts, i);
    }
    assert ts[..end] == ts;
  }

  lemma SumsMore(f: seq<nat>, g: seq<nat>, f': seq<nat>, g': seq<nat>, t: Token)
    requires Plain(t) && OneMore(f, g, f', g', t)
    ensures M.FreqSum(f') == M.FreqSum(f) + 1 && M.FreqSum(g) <= M.FreqSum(g') <= M.FreqSum(g) + 1
  {
  }

  lemma NextIs(buf: B.Buffer, i: nat, ts: seq<Token>)
    requires buf.Valid() && i < |ts| && ts <= buf.Held() && AllPlain(ts)
    ensures i < buf.literals && i / 8 < buf.itemType.Length && i < 8 * |buf.itemType[..]|
    ensures B.Matches(buf.itemType[..], i + 1) == B.Matches(buf.itemType[..], i) + if ts[i].Match? then 1 else 0
  {
    hide B.Matches, B.Items, B.ClearFrom, B.OnesTable, AllPlain;
    TokenAt(buf, i, ts);
    B.MatchesNext(buf.itemType[..], i);
  }

  /** Every symbol of a token has been counted. */
  lemma CountedCovers(f: seq<nat>, g: seq<nat>, ts: seq<Token>)
    requires Tallied(f, g, ts)
    ensures Covers(f, g, ts)
  {
    hide MainSymbol, MainCount, LongCount;
    forall t | t in ts ensures Plain(t) && f[MainSymbol(t)] > 0 && (Long(t) ==> g[t.len - 9] > 0) {
      var i :| 0 <= i < |ts| && ts[i] == t;
      SymbolIs(t);
      CountsMore(ts, i);
    }
  }

  lemma {:induction false} CountsMore(ts: seq<Token>, i: nat)
    requires i < |ts| && AllPlain(ts) && Plain(ts[i])
    ensures MainCount(ts, MainSymbol(ts[i])) > 0 && (Long(ts[i]) ==> LongCount(ts, ts[i].len - 9) > 0)
  {
    hide MainSymbol, Plain, Long;
    if i < |ts| - 1 {
      CountsMore(ts[..|ts| - 1], i);
    }
  }

  lemma StatsNone(ts: seq<Token>, types: seq<byte>)
    ensures TotalWidth(ts[..0]) == 0 && B.Matches(types, 0) == 0
  {
  }

  lemma NextWidth(ts: seq<Token>, i: nat)
    requires i < |ts|
    ensures TotalWidth(ts[..i + 1]) == TotalWidth(ts[..i]) + Width(ts[i]) && ts[..i + 1] == ts[..i] + [ts[i]]
  {
    assert ts[..i + 1][..i] == ts[..i];
  }

  /** A token as the buffer holds it. */
  lemma TokenAt(buf: B.Buffer, i: nat, ts: seq<Token>)
    requires buf.Valid() && i < |ts| && ts <= buf.Held() && AllPlain(ts)
    ensures i < buf.literals && i < 65536 && i / 8 < buf.itemType.Length && i < buf.litData.Length && Plain(ts[i])
    ensures B.Matches(buf.itemType[..], i) <= i && i < 8 * |buf.itemType[..]|
    ensures !B.IsMatch(buf.itemType[..], i) ==> ts[i] == Literal(buf.litData[i])
    ensures B.IsMatch(buf.itemType[..], i) ==>
              var d := B.Matches(buf.itemType[..], i);
              d < buf.distData.Length && ts[i] == Match(buf.litData[i] as int + 2, buf.distData[d])
              && buf.distData[d] < Slots.WINDOW < DISTANCES
  {
    hide B.ClearFrom, B.OnesTable, B.Matches, B.IsMatch;
    assert ts[i] == buf.Held()[i];
    if B.IsMatch(buf.itemType[..], i) {
      B.MatchesBelow(buf.itemType[..], i, buf.literals);
    }
  }

  lemma SymbolIs(t: Token)
    requires Plain(t)
    ensures t.Literal? ==> MainSymbol(t) == t.b as int && !Long(t) && Width(t) == 1
    ensures t.Match? ==> Width(t) == t.len && SlotOf(t.dist) < 34
    ensures t.Match? && t.len < 9 ==> MainSymbol(t) == 256 + 8 * SlotOf(t.dist) + (t.len - 2) && !Long(t)
    ensures t.Match? && t.len >= 9 ==> MainSymbol(t) == 256 + 7 + 8 * SlotOf(t.dist) && Long(t)
    ensures MainSymbol(t) < MAIN
  {
    if t.Match? {
      WindowSlots(t.dist);
    }
  }

  lemma LowNone(f: seq<nat>, ds: seq<nat>)
    requires |f| == ALIGNED && M.FreqSum(f) == 0 && forall k :: 0 <= k < ALIGNED ==> f[k] == 0
    ensures LowCounted(f, ds[..0])
  {
  }

  lemma LowMore(f: seq<nat>, f': seq<nat>, ds: seq<nat>, j: nat)
    requires j < |ds| && LowCounted(f, ds[..j]) && |f'| == ALIGNED
    requires forall k :: 0 <= k < ALIGNED ==> f'[k] == f[k] + if ds[j] >= 16 && ds[j] % 8 == k then 1 else 0
    requires M.FreqSum(f') == M.FreqSum(f) + if ds[j] >= 16 then 1 else 0
    ensures LowCounted(f', ds[..j + 1])
  {
    hide M.FreqSum;
    assert ds[..j + 1][..j] == ds[..j];
  }

  lemma {:induction false} LowAtMost(ds: seq<nat>)
    ensures LowTotal(ds) <= |ds|
  {
    if ds != [] {
      LowAtMost(ds[..|ds| - 1]);
    }
  }

  /** tally_aligned_bits: the low three bits of the large distances. */
  method TallyAlignedBits(buf: B.Buffer, alFreq: array<nat>, endAt: nat)
    requires endAt <= buf.distData.Length && alFreq.Length >= ALIGNED && alFreq != buf.distData
    requires forall i :: 0 <= i < ALIGNED ==> alFreq[i] == 0
    modifies alFreq
    ensures LowCounted(alFreq[..ALIGNED], buf.distData[..endAt])
  {
    hide M.FreqSum, LowCounted;
    ghost var ds := buf.distData[..];
    M.FreqSumZero(alFreq[..ALIGNED]);
    LowNone(alFreq[..ALIGNED], ds);
    var j := 0;
    while j < endAt
      invariant 0 <= j <= endAt && buf.distData[..] == ds && LowCounted(alFreq[..ALIGNED], ds[..j])
    {
      ghost var f := alFreq[..ALIGNED];
      var matchPos := buf.distData[j];
      if matchPos >= 16 {
        M.Tally(alFreq, ALIGNED, matchPos % 8);
      }
      LowMore(f, alFreq[..ALIGNED], ds, j);
      j := j + 1;
    }
    assert ds[..endAt] == buf.distData[..endAt];
  }

  /** get_aligned_stats: how the low three bits of the large distances are spread, and whether a tree for
      them is worth having. */
  method AlignedStats(buf: B.Buffer, alFreq: array<nat>, endAt: nat, ghost end: nat) returns (aligned: bool)
    requires buf.Valid() && end <= buf.literals && endAt == B.Matches(buf.itemType[..], end) && alFreq.Length >= ALIGNED
    requires alFreq !in {buf.ones, buf.distData} && alFreq as object !in {buf.itemType as object, buf.litData}
    requires AllPlain(buf.Held()[..end])
    modifies alFreq
    ensures LowCounted(alFreq[..ALIGNED], DistancesOf(buf.Held()[..end]))
    ensures |DistancesOf(buf.Held()[..end])| == endAt
    ensures aligned <==> WorthAligned(buf.Held()[..end])
  {
    hide *;
    BufferDists(buf, end);
    ghost var ts, types := buf.Held()[..end], buf.itemType[..];
    forall i | 0 <= i < ALIGNED { alFreq[i] := 0; }
    TallyAlignedBits(buf, alFreq, endAt);
    assert buf.Valid() && buf.itemType[..] == types && buf.Held()[..end] == ts;
    DistancesHeld(buf, end);
    assert LowCounted(alFreq[..ALIGNED], DistancesOf(ts));
    var largest, total := 0, 0;
    NoFreq(alFreq[..ALIGNED]);
    for i := 0 to ALIGNED
      invariant largest > 0 ==> exists k: nat :: k < ALIGNED && alFreq[k] == largest
      invariant forall k: nat :: k < i ==> alFreq[k] <= largest
      invariant total == M.FreqSum(alFreq[..ALIGNED][..i])
      invariant LowCounted(alFreq[..ALIGNED], DistancesOf(ts))
      modifies {}
    {
      if alFreq[i] > largest {
        largest := alFreq[i];
      }
      M.FreqSumPrefix(alFreq[..ALIGNED], i);
      total := total + alFreq[i];
    }
    assert alFreq[..ALIGNED][..ALIGNED] == alFreq[..ALIGNED];
    aligned := largest > total / 5 && endAt >= 100;
    ghost var f := alFreq[..ALIGNED];
    assert forall k: nat :: k < ALIGNED ==> f[k] == alFreq[k];
    if largest > 0 {
      ghost var k: nat :| k < ALIGNED && alFreq[k] == largest;
      assert f[k] == largest;
    }
    Worth(f, ts, largest);
  }

  lemma NoFreq(f: seq<nat>)
    ensures M.FreqSum(f[..0]) == 0
  {
  }

  lemma Worth(f: seq<nat>, ts: seq<Token>, largest: nat)
    requires LowCounted(f, DistancesOf(ts)) && (largest > 0 ==> exists k: nat :: k < ALIGNED && f[k] == largest)
    requires forall k: nat :: k < ALIGNED ==> f[k] <= largest
    ensures WorthAligned(ts) <==> |DistancesOf(ts)| >= 100 && largest > M.FreqSum(f) / 5
  {
    hide M.FreqSum, LowCount, LowTotal, DistancesOf;
    var ds := DistancesOf(ts);
    if largest > LowTotal(ds) / 5 {
      var k: nat :| k < ALIGNED && f[k] == largest;
      assert LowCount(ds, k) > LowTotal(ds) / 5;
    }
  }

  /** The low three bits of every large distance have been counted. */
  lemma LowCovers(f: seq<nat>, ts: seq<Token>)
    requires LowCounted(f, DistancesOf(ts))
    ensures CoversLow(f, ts) && (WorthAligned(ts) ==> Occurring(f)) && M.FreqSum(f) <= |DistancesOf(ts)|
  {
    hide LowCount, LowTotal, DistancesOf, M.FreqSum;
    LowAtMost(DistancesOf(ts));
    forall t | t in ts && t.Match? && t.dist >= 16 ensures f[t.dist % 8] > 0 {
      var i :| 0 <= i < |ts| && ts[i] == t;
      LowCountsMore(ts, i);
    }
  }

  lemma {:induction false} LowCountsMore(ts: seq<Token>, i: nat)
    requires i < |ts| && ts[i].Match? && ts[i].dist >= 16
    ensures LowCount(DistancesOf(ts), ts[i].dist % 8) > 0
  {
    var n := |ts| - 1;
    assert ts[..n + 1] == ts;
    NextDistance(ts, n);
    if i < n {
      LowCountsMore(ts[..n], i);
    }
    LowAppended(DistancesOf(ts[..n]), if ts[n].Match? then [ts[n].dist] else [], ts[i].dist % 8);
  }

  lemma LowAppended(ds: seq<nat>, e: seq<nat>, k: nat)
    requires |e| <= 1
    ensures LowCount(ds + e, k) == LowCount(ds, k) + if e != [] && e[0] >= 16 && e[0] % 8 == k then 1 else 0
  {
    if e == [] {
      assert ds + e == ds;
    } else {
      assert (ds + e)[..|ds + e| - 1] == ds;
    }
  }

  // ---------- Writing ----------

  /** The code tables of the trees c are in place. */
  ghost predicate Ready(len: seq<nat>, code: seq<nat>, lens: seq<nat>) {
    |lens| <= |len| && |lens| <= |code| && len[..|lens|] == lens
    && forall s :: 0 <= s < |lens| && lens[s] > 0 ==> code[s] == CodeNumber(lens, s)
  }

  lemma ReadyAt(len: seq<nat>, code: seq<nat>, lens: seq<nat>, s: nat)
    requires Ready(len, code, lens) && Used(lens, s)
    ensures s < |lens| <= |len| && s < |code| && len[s] == lens[s] && code[s] == CodeNumber(lens, s)
  {
    hide CodeNumber;
    assert len[..|lens|][s] == lens[s];
  }

  /** One symbol by its table. */
  method OutputSymbol(w: BitWriter, len: array<nat>, code: array<nat>, ghost lens: seq<nat>, s: nat)
    requires w.Valid() && Ready(len[..], code[..], lens) && Used(lens, s) && Complete(lens)
    modifies w
    ensures w.Valid() && w.Pos() == Put(old(w.Pos()), Code(lens, s))
  {
    hide Put, Complete, CodeNumber, Code, Ready, Used;
    ReadyAt(len[..], code[..], lens, s);
    OutputCode(w, len[s], code[s], lens, s);
  }

  /** The extra bits of a match distance, in an aligned block with the low three by their tree. */
  method OutputExtra(w: BitWriter, aligned: bool, slot: nat, matchPos: nat, alLen: array<nat>, alCode: array<nat>,
                     ghost c: Codes)
    requires w.Valid() && matchPos < Slots.WINDOW && slot == SlotOf(matchPos) && |c.al| == ALIGNED
    requires aligned ==> Ready(alLen[..], alCode[..], c.al)
    requires LowBitsApart(aligned, matchPos) ==> Used(c.al, matchPos % 8) && Complete(c.al)
    modifies w
    ensures w.Valid() && w.Pos() == Put(old(w.Pos()), OffsetBits(c, aligned, matchPos))
  {
    hide Put, Complete, Code, Ready, Used, Pow2, BitsOf, Base, Extra, Mask, EXTRA_BITS, SLOT_MASK, MATCH_POS_MINUS2;
    WindowSlots(matchPos);
    SlotTables(slot);
    var extra := EXTRA_BITS[slot];
    ghost var at := w.Pos();
    if aligned && extra >= 3 {
      ghost var high := Mask(matchPos / 8, extra - 3);
      MaskIs(matchPos / 8, extra - 3);
      NoField(high);
      PutNothing(at);
      if extra > 3 {
        w.OutputBits(extra - 3, (matchPos / 8) % Pow2(extra - 3));
      }
      OutputSymbol(w, alLen, alCode, c.al, matchPos % 8);
      PutConcat(at, BitsOf(extra - 3, high), Code(c.al, matchPos % 8));
    } else if extra > 0 {
      MaskIs(matchPos, extra);
      w.OutputBits(extra, matchPos % (SLOT_MASK[slot] + 1));
    } else {
      NoField(Mask(matchPos, 0));
      PutNothing(at);
    }
  }

  lemma MaskIs(x: nat, n: nat)
    ensures Mask(x, n) == x % Pow2(n) < Pow2(n)
  {
  }

  lemma NoField(x: nat)
    ensures BitsOf(0, x) == []
  {
  }

  // ---------- Bookkeeping ----------

  lemma StartOk(s: State)
    ensures WireOk(s, START)
  {
  }

  lemma NoItems(s: State)
    ensures LegalAll(s, []) && Run(s, []) == s && EmitAll(s, [], START) == START && WireOk(s, START)
  {
  }

  /** A coded token as an item. */
  lemma CodedIs(s: State, t: Token, w: Wire)
    requires (s.kind == Verbatim || s.kind == Aligned) && Shaped(s.codes) && Plain(t) && Fits(s.past, t)
    requires Width(t) <= s.left && Served(s.codes, s.kind == Aligned, t) && WireOk(s, w)
    ensures Legal(s, Coded(t)) && Emit(s, Coded(t), w) == Put(w, TokenBits(s.codes, s.kind == Aligned, t))
    ensures Next(s, Coded(t)) == s.(past := Play(s.past, t), left := s.left - Width(t))
  {
    hide Put, TokenBits, Fits, Served, Play;
  }

  lemma RawIs(s: State, b: byte, w: Wire)
    requires s.kind == Uncompressed && s.left > 0 && WireOk(s, w)
    ensures Legal(s, Raw(b)) && w.pend == [] && Emit(s, Raw(b), w) == Wire(w.out + [b], [])
    ensures Next(s, Raw(b)) == s.(past := Past(s.past.hist + [b], s.past.queue), left := s.left - 1)
  {
  }

  lemma PlaySplit(p: Past, ts: seq<Token>, l: nat)
    requires l < |ts| && FitsAll(p, ts[l..])
    ensures Fits(p, ts[l]) && FitsAll(Play(p, ts[l]), ts[l + 1..])
            && PlayAll(p, ts[l..]) == PlayAll(Play(p, ts[l]), ts[l + 1..])
    ensures |Play(p, ts[l]).hist| == |p.hist| + Width(ts[l])
  {
    hide Play, Fits;
    assert ts[l..][0] == ts[l] && ts[l..][1..] == ts[l + 1..];
  }

  lemma PlayWidth(p: Past, t: Token)
    requires Fits(p, t)
    ensures |Play(p, t).hist| == |p.hist| + Width(t)
  {
  }

  lemma PlayEnd(p: Past, ts: seq<Token>)
    ensures FitsAll(p, ts[|ts|..]) && PlayAll(p, ts[|ts|..]) == p
  {
  }

  /** A token that fits stays within the running total of its frame. */
  lemma FitsFrame(p: Past, t: Token, start: nat, total: nat)
    requires Fits(p, t) && start % FRAME == 0 && |p.hist| == start + total && total < FRAME
    ensures total + Width(t) <= FRAME
  {
  }

  lemma TotalOf(s: State, its: seq<Item>, n: nat)
    requires LegalAll(s, its) && |Run(s, its).past.hist| == |s.past.hist| + n
    ensures Total(s, its) == n
  {
    hide LegalAll, Run;
  }

  /** The finished frame. */
  lemma FinishedFrame(s: State, its: seq<Item>, n: nat, w: Wire, bytes: seq<byte>)
    requires LegalAll(s, its) && |Run(s, its).past.hist| == |s.past.hist| + n && 0 < n <= FRAME
             && |s.past.hist| % FRAME == 0
    requires EndsInData(its) && WireOk(s, START) && WireOk(Run(s, its), EmitAll(s, its, START))
             && w == EmitAll(s, its, START)
    requires var p := FramePos(n, Run(s, its), w); |p.pend| < 16 && bytes == Finish(p) && Extends(bytes, w)
    ensures GoodFrame(s, Frame(its, bytes, n))
  {
    hide LegalAll, Run, Extends, EmitAll, EndsInData, Finish, Padded, WireOk;
    TotalOf(s, its, n);
  }

  /** Where a frame with n bytes of data ends: a full one right behind its last item. */
  function FramePos(n: nat, s: State, w: Wire): Wire {
    if n == FRAME then w else Padded(s, w)
  }

  lemma FramePosCases(n: nat, s: State, w: Wire)
    requires WireOk(s, w)
    ensures FramePos(n, s, w) == w || (w.pend == [] && FramePos(n, s, w) == Wire(w.out + [0], []))
    ensures n == FRAME ==> FramePos(n, s, w) == w
    ensures n != FRAME ==> FramePos(n, s, w) == Padded(s, w)
  {
  }

  lemma LastIsData(its: seq<Item>, it: Item)
    requires it.Coded? || it.Raw?
    ensures EndsInData(its + [it])
  {
  }

  /** The lengths of a tree made for frequencies f. */
  ghost predicate MadeFor(f: seq<nat>, lens: seq<nat>) {
    && |lens| == |f| && Optional(lens)
    && (forall s :: 0 <= s < |f| && f[s] > 0 ==> lens[s] > 0 && Complete(lens))
    && (|f| <= 16 ==> forall s :: 0 <= s < |lens| ==> lens[s] < |f|)
  }

  /** make_tree with codes, for a table of n symbols. */
  method BuildTable(t: CodeTable, n: nat)
    requires 2 <= n < 65536 && t.freq.Length >= 2 * n && t.len.Length >= n && t.code.Length >= n
    requires t.freq !in {t.len, t.code} && t.len != t.code && M.FreqSum(t.freq[..n]) + 1 < 65536
    modifies t.freq, t.len, t.code
    ensures MadeFor(old(t.freq[..n]), t.len[..n]) && Ready(t.len[..], t.code[..], t.len[..n])
    ensures M.FreqSum(t.freq[..n]) <= old(M.FreqSum(t.freq[..n])) + 1
    ensures forall s :: 0 <= s < n ==> old(t.freq[s]) <= t.freq[s]
  {
    hide M.FreqSum, M.UsedList, M.TreeLengths, M.Padded, CodeNumber, MadeFor, Ready;
    ghost var f := t.freq[..n];
    M.PaddedMore(f);
    ghost var tree := M.Make(n, t.freq, t.len, t.code, true);
    ghost var padded := t.freq[..n];
    assert forall s :: 0 <= s < n ==> t.freq[s] == padded[s] && f[s] == old(t.freq[s]);
    if M.UsedList(f, n) != [] {
      MadeSome(f, t.len[..n], tree);
    } else {
      MadeNone(f, t.len[..n]);
    }
    ReadyMake(t.len[..], t.code[..], n);
  }

  lemma MadeSome(f: seq<nat>, lens: seq<nat>, t: H.Tree)
    requires |f| >= 2 && M.TreeLengths(M.Padded(f), lens, t)
    ensures MadeFor(f, lens)
  {
    hide M.TreeLengths, M.Padded, Complete;
    M.MadeLengths(f, lens, t);
  }

  lemma MadeNone(f: seq<nat>, lens: seq<nat>)
    requires |f| == |lens| >= 2 && M.UsedList(f, |f|) == [] && forall s :: 0 <= s < |lens| ==> lens[s] == 0
    ensures MadeFor(f, lens)
  {
    hide M.UsedList, Complete;
    forall s | 0 <= s < |f| ensures f[s] == 0 {
      if f[s] > 0 {
        M.UsedSome(f, s);
      }
    }
  }

  lemma ReadyMake(len: seq<nat>, code: seq<nat>, n: nat)
    requires n <= |len| && n <= |code| && forall s :: 0 <= s < n && len[s] > 0 ==> code[s] == CodeNumber(len[..n], s)
    ensures Ready(len, code, len[..n])
  {
    hide CodeNumber;
  }

  /** Trees made for frequencies that cover the tokens serve them. */
  lemma ServedBy(f: seq<nat>, g: seq<nat>, h: seq<nat>, ts: seq<Token>, c: Codes, aligned: bool)
    requires Covers(f, g, ts) && MadeFor(f, c.main) && MadeFor(g, c.sec) && |c.al| == ALIGNED
    requires aligned ==> CoversLow(h, ts) && MadeFor(h, c.al)
    ensures AllServed(c, aligned, ts)
  {
    hide MainSymbol, Complete, LowBitsApart;
    forall t | t in ts ensures Plain(t) && Served(c, aligned, t) {
      ServedOne(f, g, h, ts, c, aligned, t);
    }
  }

  lemma ServedOne(f: seq<nat>, g: seq<nat>, h: seq<nat>, ts: seq<Token>, c: Codes, aligned: bool, t: Token)
    requires Covers(f, g, ts) && MadeFor(f, c.main) && MadeFor(g, c.sec) && |c.al| == ALIGNED
    requires aligned ==> CoversLow(h, ts) && MadeFor(h, c.al)
    requires t in ts
    ensures Shaped(c) && Plain(t) && Served(c, aligned, t)
  {
    hide MainSymbol, Complete;
    if t.Match? {
      WindowSlots(t.dist);
    }
  }

  /** The arrays of one tree: frequencies, lengths, codes, and the lengths last sent. */
  class CodeTable {
    const freq: array<nat>
    const len: array<nat>
    const code: array<nat>
    const prev: array<nat>

    ghost predicate Sizes(f: nat, l: nat, c: nat) {
      freq.Length == f && len.Length == l && code.Length == c && prev.Length == l
      && freq !in {len, code, prev} && len !in {code, prev} && code != prev
    }

    ghost function Owned(): set<object> {
      {freq, len, code, prev}
    }

    lemma OwnedIs()
      ensures Owned() == {freq, len, code, prev}
    {
    }

    constructor (f: nat, l: nat, c: nat)
      ensures Sizes(f, l, c) && fresh(Owned()) && prev[..] == AllZero(l)
    {
      freq := new nat[f];
      len := new nat[l];
      code := new nat[c];
      prev := new nat[l](i => 0);
    }
  }

  class Encoder {
    const bw: BitWriter
    const buf: B.Buffer
    const slotTable: array<nat>
    const main: CodeTable
    const sec: CodeTable
    const al: CodeTable

    /** repeated_offset_at_literal_zero, and input_running_total. */
    var repeated: Queue
    var total: nat
    var output: seq<byte>
    var overflow: bool
    var firstTime: bool

    /** The frames written, the state after them, the items in the current frame, the state now. */
    ghost var frames: seq<Frame>
    ghost var start: State
    ghost var cur: seq<Item>
    ghost var at: State

    /** The frames, and the items of the current one, at a moment that has been marked. */
    ghost var markFrames: seq<Frame>
    ghost var markCur: seq<Item>

    /** The arrays are apart by their lengths, but for the pairs that CodeTable keeps apart. */
    ghost predicate Layout() {
      slotTable.Length == 1024 && main.Sizes(1400, 701, 700) && sec.Sizes(498, 250, 249) && al.Sizes(16, 8, 8)
    }

    /** init_compression_memory. */
    constructor ()
      ensures Layout() && SlotsReady() && Wired() && Books() && at == FIRST && total == 0 && frames == [] && cur == []
              && !overflow
      ensures buf.Valid() && buf.Held() == [] && repeated == FIRST_QUEUE && firstTime
      ensures main.prev[..MAIN] == NO_CODES.main && sec.prev[..SECONDARY] == NO_CODES.sec
      ensures fresh(bw) && fresh(buf) && fresh(buf.itemType) && fresh(buf.litData) && fresh(buf.distData)
      ensures fresh(main.Owned()) && fresh(sec.Owned()) && fresh(al.Owned())
    {
      main := new CodeTable(1400, 701, 700);
      sec := new CodeTable(498, 250, 249);
      al := new CodeTable(16, 8, 8);
      var slots := NewSlotTable();
      slotTable := slots;
      repeated, total, output, overflow, firstTime := FIRST_QUEUE, 0, [], false, true;
      frames, start, cur, at, markFrames, markCur := [], FIRST, [], FIRST, [], [];
      bw := new BitWriter();
      buf := new B.Buffer();
      new;
      hide *;
      NoItems(FIRST);
      WiredMake();
      FirstBooks();
      SlotsMake();
      LayoutMake();
      ZeroLengths(main.prev[..], sec.prev[..]);
    }

    lemma LayoutMake()
      requires slotTable.Length == 1024 && main.Sizes(1400, 701, 700) && sec.Sizes(498, 250, 249) && al.Sizes(16, 8, 8)
      ensures Layout()
    {
    }

    lemma SlotsMake()
      requires slotTable.Length == 1024 && forall p :: 0 <= p < 1024 ==> slotTable[p] < 20 && InSlot(p, slotTable[p])
      ensures SlotsReady()
    {
    }

    lemma FirstBooks()
      requires frames == [] && start == at == FIRST && total == 0 && output == [] && !overflow
      requires markFrames == [] && markCur == []
      ensures Books()
    {
    }

    ghost predicate SlotsReady()
      reads slotTable
    {
      slotTable.Length == 1024 && forall p :: 0 <= p < 1024 ==> slotTable[p] < 20 && InSlot(p, slotTable[p])
    }

    /** The writer is where the items of the frame leave it. */
    ghost predicate Wired()
      reads `start, `cur, `at, bw
    {
      bw.Valid() && LegalAll(start, cur) && WireOk(start, START) && at == Run(start, cur)
        && bw.Pos() == EmitAll(start, cur, START)
    }

    /** What has been written at the marked moment begins what has been written now. */
    ghost predicate Marked()
      reads `frames, `cur, `markFrames, `markCur
    {
      markFrames <= frames && markCur <= if |frames| == |markFrames| then cur else frames[|markFrames|].its
    }

    /** The frames so far, and the running total of the current one. */
    ghost predicate Books()
      reads `frames, `start, `cur, `at, `total, `overflow, `output, `markFrames, `markCur
    {
      && Chain(FIRST, frames, start) && |start.past.hist| % FRAME == 0 && |at.past.hist| == |start.past.hist| + total
      && output == Flat(frames) && (overflow <==> !Within(frames)) && Marked()
    }

    /** Adding to the script what has just been written. */
    ghost method Note(it: Item, w: Wire)
      requires LegalAll(start, cur) && WireOk(start, START) && at == Run(start, cur) && Legal(at, it)
      requires w == EmitAll(start, cur, START) && WireOk(at, w) && bw.Valid() && bw.Pos() == Emit(at, it, w)
      modifies this`cur, this`at
      ensures Wired() && at == Next(old(at), it) && cur == old(cur) + [it]
      ensures old(Marked()) ==> Marked()
    {
      hide Legal, Next, Emit, LegalAll, Run, EmitAll, WireOk;
      Append(start, cur, it, START);
      cur, at := cur + [it], Next(at, it);
    }

    lemma WiredParts()
      requires Wired()
      ensures bw.Valid() && LegalAll(start, cur) && WireOk(start, START) && at == Run(start, cur)
      ensures bw.Pos() == EmitAll(start, cur, START) && WireOk(at, bw.Pos()) && |bw.Pos().pend| < 16
    {
      hide Run, LegalAll, EmitAll;
      EmitAllOk(start, cur, START);
    }

    lemma BooksParts()
      requires Books()
      ensures Chain(FIRST, frames, start) && |start.past.hist| % FRAME == 0
              && |at.past.hist| == |start.past.hist| + total
      ensures output == Flat(frames) && (overflow <==> !Within(frames)) && Marked()
    {
      hide Chain, Flat, Within;
    }

    lemma BooksMake()
      requires Chain(FIRST, frames, start) && |start.past.hist| % FRAME == 0
               && |at.past.hist| == |start.past.hist| + total
      requires output == Flat(frames) && (overflow <==> !Within(frames)) && Marked()
      ensures Books()
    {
      hide Chain, Flat, Within;
    }

    /** encode_flush with bytes to flush: the padded frame is written behind its header, and the next
        frame starts. */
    method FlushFrame(ghost w: Wire)
      requires LegalAll(start, cur) && at == Run(start, cur) && bw.Valid() && w == EmitAll(start, cur, START)
      requires bw.Pos() == FramePos(total, at, w) && Books() && EndsInData(cur) && 0 < total <= FRAME
      modifies bw, buf`blockSplits, this`total, this`output, this`overflow, this`frames, this`start, this`cur
      ensures bw.Valid() && bw.Pos() == START && total == 0 && start == at && cur == []
      ensures Chain(FIRST, frames, start) && output == Flat(frames) && (overflow <==> !Within(frames)) && Marked()
      ensures |frames| == |old(frames)| + 1
      ensures old(total) == FRAME ==> Wired() && Books()
    {
      hide *;
      BooksParts();
      EmitAllOk(start, cur, START) by { StartOk(start); }
      EmitPending(start, cur);
      FramePosCases(total, at, w);
      FrameExtends(w, bw.Pos());
      var frame := bw.TakeFrame();
      ghost var whole := total == FRAME;
      FinishedFrame(start, cur, total, w, frame);
      AddFrame(frame);
      NoItems(at);
      if whole {
        WiredMake();
      }
    }

    /** The finished frame goes to the output. */
    method AddFrame(frame: seq<byte>)
      requires Books() && LegalAll(start, cur) && at == Run(start, cur)
      requires GoodFrame(start, Frame(cur, frame, total))
      modifies buf`blockSplits, this`total, this`output, this`overflow, this`frames, this`start, this`cur
      ensures total == 0 && start == at && cur == []
      ensures Chain(FIRST, frames, start) && output == Flat(frames) && (overflow <==> !Within(frames)) && Marked()
      ensures |frames| == |old(frames)| + 1
      ensures old(total) == FRAME ==> Books()
    {
      hide *;
      BooksParts();
      MarkedParts();
      ghost var done, before, whole := Frame(cur, frame, total), frames, total == FRAME;
      ChainAppend(FIRST, frames, start, done);
      FrameBytes(frames, done);
      if |frame| > 38848 {
        overflow := true;
      }
      output := output + [Low(|frame|), High(|frame|), Low(total), High(total)] + frame;
      if whole {
        NextFrame(|start.past.hist|, total);
      }
      frames, start, cur, total := frames + [done], at, [], 0;
      MarkedFrame(before, done.its, done);
      buf.blockSplits := 0;
      if whole {
        BooksMake();
      }
    }

    /** A frame more. */
    lemma MarkedFrame(before: seq<Frame>, its: seq<Item>, f: Frame)
      requires markFrames <= before && markCur <= if |before| == |markFrames| then its else before[|markFrames|].its
      requires frames == before + [f] && f.its == its
      ensures Marked()
    {
    }

    /** Marking this moment. */
    ghost method Mark() returns (s: State)
      requires Valid()
      modifies this`markFrames, this`markCur
      ensures Valid() && markFrames == frames && markCur == cur
      ensures Chain(FIRST, markFrames, s) && PartOf(s, markCur, bw.out) && (overflow <==> !Within(markFrames))
    {
      hide *;
      ValidParts();
      BooksParts();
      ghost var w := SettledParts();
      s := start;
      PartMake(w);
      markFrames, markCur := frames, cur;
      MarkedNow();
      BooksMake();
      SettledMake(w);
      ValidMake();
    }

    lemma PartMake(w: Wire)
      requires bw.Valid() && LegalAll(start, cur) && WireOk(start, START) && at == Run(start, cur) && at.left == 0
      requires w == EmitAll(start, cur, START) && bw.Pos() == Padded(at, w)
      requires |at.past.hist| == |start.past.hist| + total && total < FRAME
      ensures PartOf(start, cur, bw.out)
    {
      hide Padded, LegalAll, EmitAll, Run, WireOk;
    }

    lemma MarkedParts()
      requires Marked()
      ensures markFrames <= frames && markCur <= if |frames| == |markFrames| then cur else frames[|markFrames|].its
    {
    }

    lemma MarkedNow()
      requires markFrames == frames && markCur == cur
      ensures Marked()
    {
    }

    /** The code tables of the trees c are in place; the low-bits tree only for an aligned block. */
    ghost predicate CodesReady(c: Codes, aligned: bool)
      reads main.len, main.code, sec.len, sec.code, al.len, al.code
    {
      Shaped(c) && Ready(main.len[..], main.code[..], c.main) && Ready(sec.len[..], sec.code[..], c.sec)
      && (aligned ==> Ready(al.len[..], al.code[..], c.al))
    }

    /** One token of encode_verbatim_block or encode_aligned_block. */
    method WriteToken(aligned: bool, l: nat, d: nat, ghost c: Codes, ghost ts: seq<Token>) returns (width: nat)
      requires bw.Valid() && SlotsReady() && CodesReady(c, aligned) && buf.Valid() && ts <= buf.Held() && l < |ts|
      requires AllPlain(ts) && Served(c, aligned, ts[l]) && d == B.Matches(buf.itemType[..], l)
      modifies bw
      ensures bw.Valid() && bw.Pos() == Put(old(bw.Pos()), TokenBits(c, aligned, ts[l])) && width == Width(ts[l])
    {
      hide *;
      ghost var t, at := ts[l], bw.Pos();
      TokenAt(buf, l, ts);
      SymbolIs(t);
      CodesReadyParts(c, aligned);
      ServedParts(c, aligned, t);
      SlotsParts();
      if !B.IsMatch(buf.itemType[..], l) {
        OutputSymbol(bw, main.len, main.code, c.main, buf.litData[l] as int);
        LiteralBits(c, aligned, t);
        width := 1;
      } else {
        var len, matchPos := buf.litData[l] as int, buf.distData[d];
        var slot := MpSlot(slotTable, matchPos);
        if len < 7 {
          OutputSymbol(bw, main.len, main.code, c.main, 256 + 8 * slot + len);
        } else {
          OutputSymbol(bw, main.len, main.code, c.main, 256 + 7 + 8 * slot);
          OutputSymbol(bw, sec.len, sec.code, c.sec, len - 7);
        }
        OutputExtra(bw, aligned, slot, matchPos, al.len, al.code, c);
        MatchBits(c, aligned, t, at);
        width := len + 2;
      }
    }

    /** A token is written and counted, and the frame flushed when it is full. */
    method EncodeToken(aligned: bool, l: nat, d: nat, ghost c: Codes, ghost ts: seq<Token>)
      requires Wired() && Books() && total < FRAME && SlotsReady() && buf.Valid() && ts <= buf.Held() && l < |ts|
      requires CodesReady(c, aligned) && AllPlain(ts) && Shaped(c) && Plain(ts[l]) && Served(c, aligned, ts[l])
               && Fits(at.past, ts[l])
      requires at.codes == c && at.kind == (if aligned then Aligned else Verbatim) && Width(ts[l]) <= at.left
      requires d == B.Matches(buf.itemType[..], l)
      modifies bw, buf`blockSplits, this`total, this`output, this`overflow, this`frames, this`start, this`cur, this`at
      ensures Wired() && Books() && total < FRAME && EndsInData(cur)
      ensures at == old(at).(past := Play(old(at.past), ts[l]), left := old(at.left) - Width(ts[l]))
    {
      hide *;
      BufferSizes(buf);
      WiredParts();
      BooksParts();
      ghost var t, w := ts[l], bw.Pos();
      FitsFrame(at.past, t, |start.past.hist|, total);
      CodedIs(at, t, w);
      PlayWidth(at.past, t);
      var width := WriteToken(aligned, l, d, c, ts);
      total := total + width;
      Note(Coded(t), w);
      LastIsData(old(cur), Coded(t));
      BooksMake();
      if total == 32768 {
        WiredParts();
        FramePosCases(total, at, bw.Pos());
        FlushFrame(bw.Pos());
        EndsEmpty();
      }
    }

    /** encode_verbatim_block and encode_aligned_block: the tokens of the block in order. */
    method EncodeCoded(aligned: bool, literals: nat, ghost c: Codes, ghost ts: seq<Token>)
      requires Wired() && Books() && total < FRAME && SlotsReady() && buf.Valid() && literals == |ts|
               && ts <= buf.Held()
      requires CodesReady(c, aligned) && AllPlain(ts) && AllServed(c, aligned, ts) && FitsAll(at.past, ts)
      requires at.codes == c && at.kind == (if aligned then Aligned else Verbatim) && at.left == TotalWidth(ts)
      modifies bw, buf`blockSplits, this`total, this`output, this`overflow, this`frames, this`start, this`cur, this`at
      ensures Wired() && Books() && total < FRAME && buf.Valid() && buf.Held() == old(buf.Held())
              && (ts != [] ==> EndsInData(cur))
      ensures at == old(at).(past := PlayAll(old(at.past), ts), left := 0)
    {
      hide *;
      ghost var first, types := at, buf.itemType[..];
      var l, d := 0, 0;
      WholeList(ts, types);
      BufferSizes(buf);
      while l < literals
        invariant 0 <= l <= literals && Wired() && Books() && total < FRAME && (l > 0 ==> EndsInData(cur))
        invariant d == B.Matches(types, l) && at == first.(past := at.past, left := at.left)
        invariant FitsAll(at.past, ts[l..]) && PlayAll(at.past, ts[l..]) == PlayAll(first.past, ts)
        invariant at.left == TotalWidth(ts) - TotalWidth(ts[..l])
        modifies bw, buf`blockSplits, this`total, this`output, this`overflow, this`frames, this`start, this`cur, this`at
      {
        PlaySplit(at.past, ts, l);
        OneServed(c, aligned, ts, l);
        NextWidth(ts, l);
        WidthLeft(ts, l);
        NextMatches(types, l);
        EncodeToken(aligned, l, d, c, ts);
        if B.IsMatch(buf.itemType[..], l) {
          d := d + 1;
        }
        l := l + 1;
      }
      PlayEnd(at.past, ts);
      assert ts[..literals] == ts;
    }

    /** At the end of a block the writer has also written the byte after an odd uncompressed block. */
    ghost predicate Settled()
      reads `start, `cur, `at, bw
    {
      bw.Valid() && LegalAll(start, cur) && WireOk(start, START) && at == Run(start, cur) && at.left == 0
      && bw.Pos() == Padded(at, EmitAll(start, cur, START))
    }

    lemma SettledMake(w: Wire)
      requires bw.Valid() && LegalAll(start, cur) && WireOk(start, START) && at == Run(start, cur) && at.left == 0
      requires w == EmitAll(start, cur, START) && bw.Pos() == Padded(at, w)
      ensures Settled()
    {
      hide Padded, LegalAll, EmitAll, Run;
    }

    lemma SettledParts() returns (w: Wire)
      requires Settled()
      ensures bw.Valid() && LegalAll(start, cur) && WireOk(start, START) && at == Run(start, cur) && at.left == 0
      ensures w == EmitAll(start, cur, START) && bw.Pos() == Padded(at, w) && WireOk(at, w)
      ensures |w.pend| < 16 && |Padded(at, w).pend| < 16
      ensures Padded(at, w) == w || (w.pend == [] && Padded(at, w) == Wire(w.out + [0], []))
    {
      hide LegalAll, EmitAll, Run;
      w := EmitAll(start, cur, START);
      EmitAllOk(start, cur, START);
    }

    /** One byte of an uncompressed block. */
    method EncodeByte(b: byte)
      requires Wired() && Books() && total < FRAME && at.kind == Uncompressed && at.left > 0
      modifies bw, buf`blockSplits, this`total, this`output, this`overflow, this`frames, this`start, this`cur, this`at
      ensures Wired() && Books() && total < FRAME && EndsInData(cur)
      ensures at == old(at).(past := Past(old(at.past.hist) + [b], old(at.past.queue)), left := old(at.left) - 1)
    {
      hide *;
      FrameSize();
      WiredParts();
      BooksParts();
      ghost var w := bw.Pos();
      RawIs(at, b, w);
      bw.RawByte(b);
      total := total + 1;
      Note(Raw(b), w);
      LastIsData(old(cur), Raw(b));
      BooksMake();
      if total >= 32768 {
        WiredParts();
        FramePosCases(total, at, bw.Pos());
        FlushFrame(bw.Pos());
        EndsEmpty();
      }
    }

    /** The bytes of an uncompressed block, from the encoder's window, and one more if they are odd. */
    method EncodeRaw(mem: array<byte>, bufpos: nat, blockSize: nat)
      requires Wired() && Books() && total < FRAME && at.kind == Uncompressed && at.left == blockSize
      requires bufpos + blockSize <= mem.Length && at.odd == (blockSize % 2 == 1)
      modifies bw, buf`blockSplits, this`total, this`output, this`overflow, this`frames, this`start, this`cur, this`at
      ensures Settled() && Books() && total < FRAME && (blockSize > 0 ==> EndsInData(cur))
      ensures at == old(at).(past := Past(old(at.past.hist) + mem[bufpos..bufpos + blockSize], old(at.past.queue)),
                             left := 0)
    {
      hide *;
      ghost var first := at;
      var odd := blockSize % 2 == 1;
      var pos: nat, left: nat := bufpos, blockSize;
      assert first.past.hist + mem[bufpos..bufpos] == first.past.hist;
      while left > 0
        invariant Wired() && Books() && total < FRAME && pos + left == bufpos + blockSize && left <= blockSize
        invariant left < blockSize ==> EndsInData(cur)
        invariant at == first.(past := Past(first.past.hist + mem[bufpos..pos], first.past.queue), left := left)
        modifies bw, buf`blockSplits, this`total, this`output, this`overflow, this`frames, this`start, this`cur, this`at
      {
        assert mem[bufpos..pos + 1] == mem[bufpos..pos] + [mem[pos]];
        assert first.past.hist + mem[bufpos..pos + 1] == first.past.hist + mem[bufpos..pos] + [mem[pos]];
        EncodeByte(mem[pos]);
        pos := pos + 1;
        left := left - 1;
      }
      WiredParts();
      ghost var w := bw.Pos();
      RawEnd(at, w);
      if odd {
        bw.RawByte(0);
      }
      SettledMake(w);
    }

    /** A 32-bit word goes out, the lowest byte first. */
    method WriteWord(x: nat)
      requires bw.Valid() && bw.Pos().pend == []
      modifies bw
      ensures bw.Valid() && bw.Pos() == Wire(old(bw.Pos()).out + Bytes32(x), [])
    {
      hide *;
      ghost var out := bw.Pos().out;
      var val, j := x, 0;
      ghost var done: seq<byte> := [];
      assert out + done == out;
      WordBytes(x);
      while j < 4
        invariant 0 <= j <= 4 && bw.Valid() && bw.Pos() == Wire(out + done, []) && done == Bytes32(x)[..j]
                  && val == Shifted(x, j)
      {
        ShiftedByte(x, j);
        assert out + (done + [(val % 256) as byte]) == out + done + [(val % 256) as byte];
        bw.RawByte((val % 256) as byte);
        done := done + [(val % 256) as byte];
        val := val / 256;
        j := j + 1;
      }
      assert Bytes32(x)[..4] == Bytes32(x);
    }

    /** The queue of repeated offsets goes out before the bytes of an uncompressed block. */
    method WriteQueue()
      requires bw.Valid() && |bw.Pos().pend| < 16
      modifies bw
      ensures bw.Valid() && bw.Pos() == AfterQueue(repeated, old(bw.Pos()))
    {
      hide *;
      ghost var w := bw.Pos();
      AlignIsAligned(w);
      bw.PadWord();
      ghost var v := bw.Pos();
      WriteWord(repeated.r0);
      WriteWord(repeated.r1);
      WriteWord(repeated.r2);
      QueueSum(repeated, w);
    }

    /** create_trees. */
    method CreateTrees()
      requires Layout() && M.FreqSum(main.freq[..MAIN]) + 1 < 65536 && M.FreqSum(sec.freq[..SECONDARY]) + 1 < 65536
      requires M.FreqSum(al.freq[..ALIGNED]) + 1 < 65536
      modifies main.freq, main.len, main.code, sec.freq, sec.len, sec.code, al.freq, al.len, al.code
      ensures MadeFor(old(main.freq[..MAIN]), main.len[..MAIN]) && Ready(main.len[..], main.code[..], main.len[..MAIN])
      ensures MadeFor(old(sec.freq[..SECONDARY]), sec.len[..SECONDARY])
              && Ready(sec.len[..], sec.code[..], sec.len[..SECONDARY])
      ensures M.FreqSum(al.freq[..ALIGNED]) <= old(M.FreqSum(al.freq[..ALIGNED])) + 1
      ensures forall s :: 0 <= s < ALIGNED ==> old(al.freq[s]) <= al.freq[s]
    {
      hide M.FreqSum, MadeFor, Ready;
      BuildTable(main, MAIN);
      BuildTable(sec, SECONDARY);
      BuildTable(al, ALIGNED);
    }

    /** encode_trees. */
    method EncodeTrees(ghost prev: Codes, ghost c: Codes) returns (ghost small: Small)
      requires Layout() && bw.Valid() && Shaped(prev) && Shaped(c) && Complete(c.main) && Optional(c.sec)
      requires main.prev[..MAIN] == prev.main && sec.prev[..SECONDARY] == prev.sec && IsLengths(prev.main)
               && IsLengths(prev.sec)
      requires main.len[..MAIN] == c.main && sec.len[..SECONDARY] == c.sec
      modifies bw, main.len, main.prev, sec.len, sec.prev
      ensures bw.Valid() && GoodTrees(prev, c, small) && bw.Pos() == Put(old(bw.Pos()), TreesBits(prev, c, small))
      ensures main.prev[..MAIN] == c.main && sec.prev[..SECONDARY] == c.sec
      ensures main.len[..] == old(main.len[..]) && sec.len[..] == old(sec.len[..])
    {
      hide *;
      ghost var w := bw.Pos();
      TableSizes(prev, c);
      LayoutParts();
      assert main.len[0..0 + 256] == c.main[..256] && main.len[256..256 + 272] == c.main[256..];
      assert main.prev[0..0 + 256] == prev.main[..256] && main.prev[256..256 + 272] == prev.main[256..];
      ghost var before := main.prev[..];
      ghost var a := WriteRepTree(bw, main.len, main.prev, 0, 256);
      ghost var middle := main.prev[..];
      assert middle[256..528] == before[256..528] && middle[..256] == c.main[..256];
      assert main.prev[256..256 + 272] == prev.main[256..];
      ghost var b := WriteRepTree(bw, main.len, main.prev, 256, 272);
      assert main.prev[..528] == middle[..256] + c.main[256..] == c.main;
      assert sec.len[0..0 + 249] == c.sec && sec.prev[0..0 + 249] == prev.sec;
      ghost var d := WriteRepTree(bw, sec.len, sec.prev, 0, 249);
      assert sec.prev[..249] == c.sec;
      small := Small(a, b, d);
      TreesMake(prev, c, small, w);
    }

    lemma LayoutParts()
      requires Layout()
      ensures main.Sizes(1400, 701, 700) && sec.Sizes(498, 250, 249) && al.Sizes(16, 8, 8)
      ensures main.freq.Length == 1400 && main.len.Length == main.prev.Length == 701 && main.code.Length == 700
      ensures sec.freq.Length == 498 && sec.len.Length == sec.prev.Length == 250 && sec.code.Length == 249
      ensures al.freq.Length == 16 && al.len.Length == al.code.Length == 8
      ensures main.len != main.prev && sec.len != sec.prev && al.len != al.code && slotTable.Length == 1024
    {
    }

    /** encode_aligned_tree: the tree of the low bits is made again, and its lengths go out. */
    method EncodeAlignedTree() returns (ghost lens: seq<nat>)
      requires Layout() && bw.Valid() && M.FreqSum(al.freq[..ALIGNED]) + 1 < 65536
      requires Occurring(al.freq[..ALIGNED])
      modifies bw, al.freq, al.len, al.code
      ensures bw.Valid() && GoodAligned(lens) && bw.Pos() == Put(old(bw.Pos()), Fields(3, lens, 0))
      ensures lens == al.len[..] && MadeFor(old(al.freq[..ALIGNED]), lens) && Ready(al.len[..], al.code[..], lens)
    {
      hide M.FreqSum, MadeFor, Ready, Put, Fields, GoodAligned, Complete, Occurring;
      BuildTable(al, ALIGNED);
      lens := al.len[..8];
      assert lens == al.len[..];
      AlignedMade(old(al.freq[..ALIGNED]), lens);
      SendFields(bw, 3, al.len, 8, lens);
    }

    /** What the decoder will have as its previous lengths is what the encoder keeps. */
    ghost predicate LengthsKept()
      reads this`at, main.prev, sec.prev
    {
      && Layout() && Shaped(at.codes) && main.prev[..MAIN] == at.codes.main && sec.prev[..SECONDARY] == at.codes.sec
      && IsLengths(at.codes.main) && IsLengths(at.codes.sec)
    }

    ghost predicate Between()
      reads this
    {
      && repeated == at.past.queue && GoodQueue(repeated) && total < FRAME && firstTime == at.first
      && (at.first ==> at.kind == Closed) && (total > 0 ==> EndsInData(cur))
    }

    /** Between blocks. */
    ghost predicate Valid()
      reads this, bw, buf`literals, buf`distances, buf.itemType, buf.litData, buf.distData, buf.ones, main.prev,
            sec.prev, slotTable
    {
      Layout() && SlotsReady() && Settled() && Books() && LengthsKept() && Between() && buf.Valid()
    }

    lemma ValidParts()
      requires Valid()
      ensures Layout() && SlotsReady() && Settled() && Books() && LengthsKept() && Between() && buf.Valid()
      ensures Shaped(at.codes) && main.prev[..MAIN] == at.codes.main && sec.prev[..SECONDARY] == at.codes.sec
      ensures IsLengths(at.codes.main) && IsLengths(at.codes.sec)
      ensures repeated == at.past.queue && GoodQueue(repeated) && total < FRAME && firstTime == at.first
      ensures at.first ==> at.kind == Closed
      ensures total > 0 ==> EndsInData(cur)
    {
      hide Settled, Books, SlotsReady, B.ClearFrom, B.Matches, B.OnesTable;
    }

    lemma ValidMake()
      requires Layout() && SlotsReady() && Settled() && Books() && buf.Valid()
      requires Shaped(at.codes) && main.prev[..MAIN] == at.codes.main && sec.prev[..SECONDARY] == at.codes.sec
      requires IsLengths(at.codes.main) && IsLengths(at.codes.sec)
      requires repeated == at.past.queue && GoodQueue(repeated) && total < FRAME && firstTime == at.first
      requires at.first ==> at.kind == Closed
      requires total > 0 ==> EndsInData(cur)
      ensures Valid()
    {
      hide Settled, Books, SlotsReady, B.ClearFrom, B.Matches, B.OnesTable;
    }

    /** The bits of the translation header. */
    method WriteGroup(fileSize: nat)
      requires bw.Valid() && fileSize < WORD32
      modifies bw
      ensures bw.Valid() && bw.Pos() == Put(old(bw.Pos()), GroupBits(fileSize))
    {
      hide *;
      ghost var w := bw.Pos();
      GroupParts(fileSize);
      if fileSize != 0 {
        bw.OutputBits(1, 1);
        bw.OutputBits(16, fileSize / 65536);
        bw.OutputBits(16, fileSize % 65536);
        PutConcat(w, BitsOf(1, 1), BitsOf(16, fileSize / 65536));
        PutConcat(w, BitsOf(1, 1) + BitsOf(16, fileSize / 65536), BitsOf(16, fileSize % 65536));
        GroupSum(fileSize);
      } else {
        bw.OutputBits(1, 0);
      }
    }

    /** The translation header at the start of a group. */
    method BeginGroup(fileSize: nat)
      requires Valid() && firstTime && total == 0 && fileSize < WORD32
      modifies bw, this`firstTime, this`cur, this`at
      ensures Valid() && !firstTime && total == 0 && at == old(at).(first := false, fileSize := fileSize)
    {
      hide *;
      ValidParts();
      ghost var w := SettledParts();
      BooksParts();
      GroupIs(at, fileSize, w);
      WriteGroup(fileSize);
      firstTime := false;
      Note(Group(fileSize), w);
      WiredParts();
      GroupSettled(at, bw.Pos());
      SettledMake(bw.Pos());
      BooksMake();
      ValidMake();
    }

    /** The header of a block: its type, and its size in three bytes. */
    method WriteHead(kind: Kind, size: nat)
      requires bw.Valid() && size < Pow2(24)
      modifies bw
      ensures bw.Valid() && bw.Pos() == Put(old(bw.Pos()), HeadBits(kind, size))
      ensures kind == Verbatim ==> bw.Pos() == Put(old(bw.Pos()), [false, false, true] + BitsOf(24, size))
      ensures kind == Aligned ==> bw.Pos() == Put(old(bw.Pos()), [false, true, false] + BitsOf(24, size))
      ensures kind == Uncompressed ==> bw.Pos() == Put(old(bw.Pos()), [false, true, true] + BitsOf(24, size))
    {
      hide *;
      Pow2Values();
      HeadIs(size);
      ghost var w := bw.Pos();
      HeadParts(kind, size);
      ghost var k, a, b, c :=
        BitsOf(3, TypeCode(kind)), BitsOf(8, size / 65536 % 256), BitsOf(8, size / 256 % 256), BitsOf(8, size % 256);
      bw.OutputBits(3, TypeCode(kind));
      bw.OutputBits(8, size / 65536 % 256);
      bw.OutputBits(8, size / 256 % 256);
      bw.OutputBits(8, size % 256);
      PutConcat(Put(Put(w, k), a), b, c);
      PutConcat(Put(w, k), a, b + c);
      PutConcat(w, k, a + (b + c));
    }

    /** create_trees has been run for frequencies f and g that cover the tokens. */
    ghost predicate BuiltFor(aligned: bool, ts: seq<Token>, f: seq<nat>, g: seq<nat>)
      reads main.len, main.code, sec.len, sec.code, al.freq
    {
      && Layout() && Covers(f, g, ts) && MadeFor(f, main.len[..MAIN]) && MadeFor(g, sec.len[..SECONDARY])
      && Ready(main.len[..], main.code[..], main.len[..MAIN]) && Ready(sec.len[..], sec.code[..], sec.len[..SECONDARY])
      && (aligned ==>
            M.FreqSum(al.freq[..ALIGNED]) + 1 < 65536 && CoversLow(al.freq[..ALIGNED], ts)
              && Occurring(al.freq[..ALIGNED]))
    }

    lemma BuiltParts(aligned: bool, ts: seq<Token>, f: seq<nat>, g: seq<nat>)
      requires BuiltFor(aligned, ts, f, g)
      ensures Layout() && Covers(f, g, ts) && MadeFor(f, main.len[..MAIN]) && MadeFor(g, sec.len[..SECONDARY])
      ensures Ready(main.len[..], main.code[..], main.len[..MAIN])
              && Ready(sec.len[..], sec.code[..], sec.len[..SECONDARY])
      ensures aligned ==>
                M.FreqSum(al.freq[..ALIGNED]) + 1 < 65536 && CoversLow(al.freq[..ALIGNED], ts)
                  && Occurring(al.freq[..ALIGNED])
    {
      hide Covers, MadeFor, Ready, M.FreqSum, CoversLow, Occurring;
    }

    lemma BuiltMake(aligned: bool, ts: seq<Token>, f: seq<nat>, g: seq<nat>)
      requires Layout() && Covers(f, g, ts) && MadeFor(f, main.len[..MAIN]) && MadeFor(g, sec.len[..SECONDARY])
      requires Ready(main.len[..], main.code[..], main.len[..MAIN])
               && Ready(sec.len[..], sec.code[..], sec.len[..SECONDARY])
      requires aligned ==>
                 M.FreqSum(al.freq[..ALIGNED]) + 1 < 65536 && CoversLow(al.freq[..ALIGNED], ts)
                   && Occurring(al.freq[..ALIGNED])
      ensures BuiltFor(aligned, ts, f, g)
    {
      hide Covers, MadeFor, Ready, M.FreqSum, CoversLow, Occurring;
    }

    /** The header and the trees of a verbatim or an aligned block. */
    method OpenCoded(aligned: bool, bytes: nat, ghost ts: seq<Token>, ghost f: seq<nat>, ghost g: seq<nat>)
      returns (ghost c: Codes)
      requires Layout() && Settled() && Books() && LengthsKept() && !at.first && 0 < bytes < Pow2(24) && ts != []
      requires BuiltFor(aligned, ts, f, g)
      modifies bw, this`cur, this`at, main.len, main.prev, sec.len, sec.prev, al.freq, al.len, al.code
      ensures Wired() && Books() && LengthsKept() && CodesReady(c, aligned) && AllServed(c, aligned, ts)
      ensures at == old(at).(codes := c, kind := if aligned then Aligned else Verbatim, left := bytes,
                             odd := bytes % 2 == 1)
    {
      hide *;
      KeptParts();
      BooksParts();
      LayoutParts();
      BuiltParts(aligned, ts, f, g);
      ghost var w := SettledParts();
      ghost var s := at;
      var kind := if aligned then Aligned else Verbatim;
      TreeSizes();
      TreeNeeded(f, g, ts, main.len[..MAIN], sec.len[..SECONDARY]);
      WriteHead(kind, bytes);
      ghost var lens := at.codes.al;
      ghost var h := if aligned then al.freq[..ALIGNED] else [];
      if aligned {
        lens := EncodeAlignedTree();
      }
      c := Codes(main.len[..MAIN], sec.len[..SECONDARY], lens);
      LensShaped(s.codes, c, aligned);
      ServedBy(f, g, h, ts, c, aligned);
      ghost var small := EncodeTrees(at.codes, c);
      ghost var it := Open(kind, bytes, c, small, s.past.queue);
      CodedOpen(s, it, w);
      Note(it, w);
      CodesMake(c, aligned);
      BooksMake();
      KeptMake();
    }

    /** A verbatim or an aligned block: header, trees, tokens, and then the queue after them. */
    method WriteCodedBlock(aligned: bool, end: nat, distEnd: nat, bytes: nat, ghost ts: seq<Token>,
                           ghost f: seq<nat>, ghost g: seq<nat>)
      requires Valid() && !firstTime && 0 < end <= buf.literals && ts == buf.Held()[..end]
               && distEnd == B.Matches(buf.itemType[..], end)
      requires FitsAll(at.past, ts) && AllPlain(ts) && 0 < bytes == TotalWidth(ts) < Pow2(24)
      requires BuiltFor(aligned, ts, f, g)
      modifies this, bw, buf`blockSplits, main.len, main.prev, sec.len, sec.prev, al.freq, al.len, al.code
      ensures Valid() && buf.Held() == old(buf.Held()) && !firstTime && at.past == PlayAll(old(at.past), ts)
      ensures markFrames == old(markFrames) && markCur == old(markCur)
      ensures at.fileSize == old(at.fileSize) && at.kind == (if aligned then Aligned else Verbatim)
    {
      hide *;
      ValidParts();
      LayoutParts();
      buf.Parts();
      DistancesHeld(buf, end);
      BufferDists(buf, end);
      ghost var s, ds := at, buf.distData[..distEnd];
      ghost var c := OpenCoded(aligned, bytes, ts, f, g);
      KeptParts();
      EncodeCoded(aligned, end, c, ts);
      QueueOf(s.past, ts);
      QueueFits(s.past, ts);
      assert buf.distData[..distEnd] == ds;
      repeated := FinalQueue(buf.distData, distEnd, repeated);
      WiredParts();
      GroupSettled(at, bw.Pos());
      SettledMake(bw.Pos());
      ValidMake();
    }

    /** The header of an uncompressed block, and the queue. */
    method OpenRaw(bytes: nat)
      requires Settled() && Books() && Shaped(at.codes) && !at.first && GoodQueue(repeated) && 0 < bytes < Pow2(24)
      modifies bw, this`cur, this`at
      ensures Wired() && Books()
      ensures at == old(at).(past := Past(old(at.past.hist), repeated), kind := Uncompressed, left := bytes,
                             odd := bytes % 2 == 1)
    {
      hide *;
      BooksParts();
      ghost var w := SettledParts();
      ghost var s := at;
      WriteHead(Uncompressed, bytes);
      HeadPending(s, w, bytes);
      WriteQueue();
      ghost var it := Open(Uncompressed, bytes, s.codes, Small([], [], []), repeated);
      RawOpen(s, it, w);
      Note(it, w);
      BooksMake();
    }

    /** An uncompressed block: header, queue, bytes. */
    method WriteRawBlock(end: nat, distEnd: nat, bytes: nat, mem: array<byte>, memAt: nat, ghost ts: seq<Token>)
      requires Valid() && !firstTime && 0 < end <= buf.literals && ts == buf.Held()[..end]
               && distEnd == B.Matches(buf.itemType[..], end)
      requires FitsAll(at.past, ts) && 0 < bytes == TotalWidth(ts) < Pow2(24) && memAt + bytes <= mem.Length
      requires PlayAll(at.past, ts).hist == at.past.hist + mem[memAt..memAt + bytes]
      modifies this, bw, buf`blockSplits
      ensures Valid() && buf.Held() == old(buf.Held()) && !firstTime && at.past == PlayAll(old(at.past), ts)
      ensures markFrames == old(markFrames) && markCur == old(markCur)
      ensures at.fileSize == old(at.fileSize) && at.kind == Uncompressed
    {
      hide *;
      ValidParts();
      DistancesHeld(buf, end);
      BufferDists(buf, end);
      ghost var s := at;
      QueueOf(s.past, ts);
      QueueFits(s.past, ts);
      repeated := FinalQueue(buf.distData, distEnd, repeated);
      OpenRaw(bytes);
      EncodeRaw(mem, memAt, bytes);
      ValidMake();
    }

    /** The statistics and the trees of a block. */
    method PrepareBlock(end: nat, distEnd: nat)
      returns (bytes: nat, aligned: bool, ghost f: seq<nat>, ghost g: seq<nat>)
      requires Valid() && 0 < end <= buf.literals && distEnd == B.Matches(buf.itemType[..], end)
      requires AllPlain(buf.Held()[..end])
      modifies main.freq, main.len, main.code, sec.freq, sec.len, sec.code, al.freq, al.len, al.code
      ensures Valid() && buf.Held() == old(buf.Held()) && bytes == TotalWidth(buf.Held()[..end])
      ensures B.Matches(buf.itemType[..], end) == distEnd && BuiltFor(aligned, buf.Held()[..end], f, g)
      ensures Tallied(f, g, buf.Held()[..end]) && (aligned <==> WorthAligned(buf.Held()[..end]))
    {
      hide *;
      ValidParts();
      LayoutParts();
      Apart();
      SlotsParts();
      TreeSizes();
      BufferSizes(buf);
      BufferDists(buf, end);
      ghost var ts, types := buf.Held()[..end], buf.itemType[..];
      bytes := BlockStats(buf, slotTable, main.freq, sec.freq, end);
      f, g := main.freq[..MAIN], sec.freq[..SECONDARY];
      CountedCovers(f, g, ts);
      assert buf.itemType[..] == types;
      aligned := AlignedStats(buf, al.freq, distEnd, end);
      ghost var h := al.freq[..ALIGNED];
      LowCovers(h, ts);
      assert main.freq[..MAIN] == f && sec.freq[..SECONDARY] == g;
      CreateTrees();
      CoversLowRaised(h, al.freq[..ALIGNED], ts);
      BuiltMake(aligned, ts, f, g);
      ValidMake();
      assert buf.itemType[..] == types;
    }

    /** do_block_output: the first end tokens as one block. The estimate decides between a coded and
        an uncompressed block, which is possible only while the bytes are still in the window mem. */
    method DoBlockOutput(end: nat, distEnd: nat, estimate: nat, inWindow: bool, mem: array<byte>, memAt: nat)
      returns (bytes: nat)
      requires Valid() && !firstTime && 0 < end <= buf.literals && distEnd == B.Matches(buf.itemType[..], end)
      requires FitsAll(at.past, buf.Held()[..end]) && mem as object !in main.Owned() + sec.Owned() + al.Owned()
      requires inWindow ==> InWindow(mem, memAt, at.past, buf.Held()[..end])
      modifies this, bw, buf`blockSplits, main.Owned(), sec.Owned(), al.Owned()
      ensures Valid() && buf.Held() == old(buf.Held()) && !firstTime && bytes == TotalWidth(buf.Held()[..end])
      ensures markFrames == old(markFrames) && markCur == old(markCur)
      ensures at.past == PlayAll(old(at.past), buf.Held()[..end])
      ensures buf.literals == old(buf.literals) && buf.itemType[..] == old(buf.itemType[..])
              && at.fileSize == old(at.fileSize)
      ensures at.kind == Uncompressed <==> estimate >= bytes && inWindow
      ensures at.kind == Aligned <==> !(estimate >= bytes && inWindow) && WorthAligned(buf.Held()[..end])
    {
      hide *;
      main.OwnedIs();
      sec.OwnedIs();
      al.OwnedIs();
      ValidParts();
      Apart();
      ghost var ts := buf.Held()[..end];
      PlainTokens(at.past, ts);
      BlockWidth(buf, end);
      var aligned;
      ghost var f, g;
      bytes, aligned, f, g := PrepareBlock(end, distEnd);
      if estimate >= bytes && inWindow {
        InWindowParts(mem, memAt, at.past, ts, bytes);
        WriteRawBlock(end, distEnd, bytes, mem, memAt, ts);
      } else {
        WriteCodedBlock(aligned, end, distEnd, bytes, ts, f, g);
      }
    }

    lemma Apart()
      requires Layout() && buf.Valid()
      ensures main.freq !in {sec.freq, slotTable, buf.ones, buf.distData}
              && sec.freq !in {slotTable, buf.ones, buf.distData}
      ensures al.freq !in {slotTable, buf.ones, buf.distData, main.freq, sec.freq}
      ensures buf.itemType as object !in {main.freq as object, sec.freq, al.freq}
      ensures buf.litData as object !in {main.freq as object, sec.freq, al.freq}
      ensures main.prev !in {main.freq, main.len, main.code, sec.freq, sec.len, sec.code, al.freq, al.len, al.code}
      ensures sec.prev !in {main.freq, main.len, main.code, sec.freq, sec.len, sec.code, al.freq, al.len, al.code}
      ensures slotTable !in {main.freq, main.len, main.code, sec.freq, sec.len, sec.code, al.freq, al.len, al.code}
      ensures buf.ones !in {main.freq, main.len, main.code, sec.freq, sec.len, sec.code, al.freq, al.len, al.code}
      ensures buf.distData !in {main.freq, main.len, main.code, sec.freq, sec.len, sec.code, al.freq, al.len, al.code}
      ensures buf.itemType as object !in {main.freq as object, main.len, main.code, sec.freq, sec.len, sec.code,
                                          al.freq, al.len, al.code}
      ensures buf.litData as object !in {main.freq as object, main.len, main.code, sec.freq, sec.len, sec.code,
                                         al.freq, al.len, al.code}
      ensures al.freq !in {main.len, main.code, sec.len, sec.code, al.len, al.code}
    {
      hide B.ClearFrom, B.Matches, B.OnesTable;
    }

    /** The tokens held can follow what has been written. */
    ghost predicate Pending()
      reads `at, buf, buf.itemType, buf.litData, buf.distData, buf.ones
    {
      buf.Valid() && FitsAll(at.past, buf.Held())
    }

    /** The bytes and the queue once every token held has been written. */
    ghost function Goal(): Past
      reads `at, buf, buf.itemType, buf.litData, buf.distData, buf.ones
      requires Pending()
    {
      PlayAll(at.past, buf.Held())
    }

    /** output_block: the tokens held, or those up to a split, leave as a block. */
    method OutputBlock(difference: B.Difference, estimate: nat, inWindow: bool, mem: array<byte>, memAt: nat)
      returns (bytes: nat)
      requires Valid() && !firstTime && buf.literals > 0 && Pending()
               && mem as object !in main.Owned() + sec.Owned() + al.Owned()
      requires mem !in {buf.itemType, buf.litData} && mem as object != buf.distData
      requires inWindow ==> InWindow(mem, memAt, at.past, buf.Held())
      modifies this, bw, buf, buf.itemType, buf.litData, buf.distData, main.Owned(), sec.Owned(), al.Owned()
      ensures Valid() && !firstTime && Pending() && Goal() == old(Goal()) && buf.literals < old(buf.literals)
      ensures markFrames == old(markFrames) && markCur == old(markCur)
      ensures inWindow ==> InWindow(mem, memAt + bytes, at.past, buf.Held())
      ensures |at.past.hist| == old(|at.past.hist|) + bytes && at.fileSize == old(at.fileSize)
      ensures at.kind == Uncompressed <==> estimate >= bytes && inWindow
    {
      hide *;
      ValidParts();
      PendingParts();
      buf.Parts();
      ghost var p, ts := at.past, buf.Held();
      var done, split, dist := B.SplitBlock(buf, 0, buf.literals, buf.distances, difference);
      assert ts == ts[..split] + ts[split..];
      PlayConcat(p, ts[..split], ts[split..]);
      PlayAllWidth(p, ts[..split]);
      if inWindow {
        InWindowSplit(mem, memAt, p, ts, split);
      }
      ValidMake();
      bytes := DoBlockOutput(split, dist, estimate, inWindow, mem, memAt);
      RemoveTokens(split, dist);
      ValidParts();
      PendingMake();
    }

    /** The tokens of a written block are removed. */
    method RemoveTokens(split: nat, dist: nat)
      requires Valid() && split <= buf.literals && (split == buf.literals || split % 64 == 0)
               && dist == B.Matches(buf.itemType[..], split)
      modifies buf`literals, buf`distances, buf.itemType, buf.litData, buf.distData
      ensures Valid() && buf.Held() == old(buf.Held())[split..]
    {
      hide *;
      ValidParts();
      buf.Parts();
      LayoutParts();
      Apart();
      buf.RemoveBlock(split, dist);
      ValidMake();
    }

    lemma PendingParts()
      requires Pending()
      ensures buf.Valid() && FitsAll(at.past, buf.Held()) && Goal() == PlayAll(at.past, buf.Held())
    {
      hide FitsAll, PlayAll, B.ClearFrom, B.Matches, B.OnesTable;
    }

    lemma PendingMake()
      requires buf.Valid() && FitsAll(at.past, buf.Held())
      ensures Pending() && Goal() == PlayAll(at.past, buf.Held())
    {
      hide FitsAll, PlayAll, B.ClearFrom, B.Matches, B.OnesTable;
    }

    /** A token is put into the buffer. */
    method AddToken(t: Token)
      requires Valid() && Pending() && Fits(Goal(), t) && buf.literals < B.FULL && buf.distances < B.MAX_DISTS
      modifies buf`literals, buf`distances, buf.itemType, buf.litData, buf.distData
      ensures Valid() && Pending() && Goal() == Play(old(Goal()), t)
    {
      hide *;
      ValidParts();
      PendingParts();
      LayoutParts();
      Apart();
      buf.Parts();
      ghost var ts := buf.Held();
      PlayConcat(at.past, ts, [t]);
      PlayOne(PlayAll(at.past, ts), t);
      TokenSizes(Goal(), t);
      if t.Literal? {
        buf.OutLiteral(t.b);
      } else {
        buf.OutMatch(t.len, t.dist);
      }
      assert buf.Held() == ts + [t];
      ValidMake();
      PendingMake();
    }

    /** lzx_flush_compression: every token held leaves, and then the last frame. */
    method Finish(difference: B.Difference, estimate: nat -> nat, inWindow: bool, mem: array<byte>, memAt: nat)
      requires Valid() && !firstTime && Pending() && mem as object !in main.Owned() + sec.Owned() + al.Owned()
      requires mem !in {buf.itemType, buf.litData} && mem as object != buf.distData
      requires inWindow ==> InWindow(mem, memAt, at.past, buf.Held())
      modifies this, bw, buf, buf.itemType, buf.litData, buf.distData, main.Owned(), sec.Owned(), al.Owned()
      ensures Chain(FIRST, frames, start) && start.past.hist == old(Goal().hist)
      ensures markFrames == old(markFrames) && markCur == old(markCur)
      ensures Marked()
      ensures |frames| == |markFrames| ==> LegalAll(start, cur) && |Run(start, cur).past.hist| <= |start.past.hist|
      ensures output == Flat(frames) && (overflow <==> !Within(frames))
      ensures start.past.hist != [] ==> start.fileSize == old(at.fileSize)
    {
      hide *;
      var pos := memAt;
      ghost var goal, size := Goal(), at.fileSize;
      PendingParts();
      while buf.literals > 0
        invariant Valid() && !firstTime && at.fileSize == size && Pending() && Goal() == goal && buf.Valid()
                  && FitsAll(at.past, buf.Held())
        invariant inWindow ==> InWindow(mem, pos, at.past, buf.Held())
        invariant markFrames == old(markFrames) && markCur == old(markCur)
        decreases buf.literals
      {
        var bytes := OutputBlock(difference, estimate(buf.literals), inWindow, mem, pos);
        pos := pos + bytes;
        PendingParts();
      }
      PendingParts();
      AllPlayed(at.past, buf.Held());
      ValidParts();
      BooksParts();
      ghost var w := SettledParts();
      if total > 0 {
        FramePosCases(total, at, w);
        MarkedParts();
        FlushFrame(w);
      } else {
        NothingNew(start, cur);
        if start.past.hist != [] {
          ChainBegun(frames, start);
          RunFileSize(start, cur);
        }
        bw.Reset();
      }
    }

    lemma KeptParts()
      requires LengthsKept()
      ensures Layout() && Shaped(at.codes) && main.prev[..MAIN] == at.codes.main
              && sec.prev[..SECONDARY] == at.codes.sec
      ensures IsLengths(at.codes.main) && IsLengths(at.codes.sec)
    {
    }

    lemma KeptMake()
      requires Layout() && Shaped(at.codes) && main.prev[..MAIN] == at.codes.main
               && sec.prev[..SECONDARY] == at.codes.sec
      requires IsLengths(at.codes.main) && IsLengths(at.codes.sec)
      ensures LengthsKept()
    {
    }

    lemma CodesMake(c: Codes, aligned: bool)
      requires Shaped(c) && Ready(main.len[..], main.code[..], c.main) && Ready(sec.len[..], sec.code[..], c.sec)
      requires aligned ==> Ready(al.len[..], al.code[..], c.al)
      ensures CodesReady(c, aligned)
    {
      hide Ready;
    }

    lemma CodesReadyParts(c: Codes, aligned: bool)
      requires CodesReady(c, aligned)
      ensures Shaped(c) && Ready(main.len[..], main.code[..], c.main) && Ready(sec.len[..], sec.code[..], c.sec)
      ensures aligned ==> Ready(al.len[..], al.code[..], c.al)
      ensures |c.al| == ALIGNED
    {
    }

    lemma SlotsParts()
      requires SlotsReady()
      ensures slotTable.Length == 1024 && forall p :: 0 <= p < 1024 ==> slotTable[p] < 20 && InSlot(p, slotTable[p])
    {
    }

    lemma WiredMake()
      requires bw.Valid() && LegalAll(start, cur) && WireOk(start, START) && at == Run(start, cur)
               && bw.Pos() == EmitAll(start, cur, START)
      ensures Wired()
    {
      hide Run, LegalAll, EmitAll;
    }
  }

  function AllZero(n: nat): (s: seq<nat>)
    ensures |s| == n
  {
    seq(n, i => 0)
  }

  method NewSlotTable() returns (t: array<nat>)
    ensures fresh(t) && t.Length == 1024 && forall p :: 0 <= p < 1024 ==> t[p] < 20 && InSlot(p, t[p])
  {
    t := new nat[1024];
    CreateSlotTable(t);
  }

  lemma WholeList(ts: seq<Token>, types: seq<byte>)
    ensures ts[0..] == ts && TotalWidth(ts[..0]) == 0 && B.Matches(types, 0) == 0
  {
  }

  lemma BufferSizes(buf: B.Buffer)
    requires buf.Valid()
    ensures |buf.itemType[..]| == 8192 && buf.literals <= 65528 && FRAME == 32768
  {
  }

  lemma FrameSize()
    ensures FRAME == 32768
  {
  }

  lemma RawEnd(s: State, w: Wire)
    requires WireOk(s, w) && s.kind == Uncompressed
    ensures w.pend == [] && Padded(s, w) == if s.odd then Wire(w.out + [0], []) else w
  {
  }

  function Shifted(x: nat, j: nat): nat {
    if j == 0 then x else Shifted(x, j - 1) / 256
  }

  lemma WordBytes(x: nat)
    ensures |Bytes32(x)| == 4 && Bytes32(x)[..0] == [] && Shifted(x, 0) == x
  {
  }

  lemma ShiftedByte(x: nat, j: nat)
    requires j < 4
    ensures Bytes32(x)[..j + 1] == Bytes32(x)[..j] + [(Shifted(x, j) % 256) as byte]
            && Shifted(x, j + 1) == Shifted(x, j) / 256
  {
    assert Shifted(x, 1) == x / 256 && Shifted(x, 2) == x / 256 / 256 == x / 65536
           && Shifted(x, 3) == x / 65536 / 256 == x / 16777216;
  }

  lemma QueueSum(q: Queue, w: Wire)
    requires |w.pend| < 16
    ensures AfterQueue(q, w) == Wire(Align(w).out + Bytes32(q.r0) + Bytes32(q.r1) + Bytes32(q.r2), [])
  {
    hide Bytes32, Align;
    var o := Align(w).out;
    assert o + (Bytes32(q.r0) + Bytes32(q.r1) + Bytes32(q.r2)) == o + Bytes32(q.r0) + Bytes32(q.r1) + Bytes32(q.r2);
  }

  lemma TableSizes(prev: Codes, c: Codes)
    requires Shaped(prev) && Shaped(c) && Complete(c.main) && Optional(c.sec) && IsLengths(prev.main)
             && IsLengths(prev.sec)
    ensures MAIN == 528 && SECONDARY == 249 && |c.main| == |prev.main| == 528 && |c.sec| == |prev.sec| == 249
    ensures RepTree.Tables(c.main[..256], prev.main[..256]) && RepTree.Tables(c.main[256..], prev.main[256..])
    ensures RepTree.Tables(c.sec, prev.sec)
  {
    hide FirstCode, Count;
  }

  lemma TreesMake(prev: Codes, c: Codes, small: Small, w: Wire)
    requires Shaped(prev) && Shaped(c) && Complete(c.main) && Optional(c.sec)
    requires Carries(small.a, c.main[..256], prev.main[..256])
    requires Carries(small.b, c.main[256..], prev.main[256..])
    requires Carries(small.c, c.sec, prev.sec)
    ensures GoodTrees(prev, c, small)
    ensures |small.a| == |small.b| == |small.c| == SMALL && RepTree.Tables(c.main[..256], prev.main[..256])
    ensures RepTree.Tables(c.main[256..], prev.main[256..]) && RepTree.Tables(c.sec, prev.sec)
    ensures Put(Put(Put(w, TreeBits(small.a, c.main[..256], prev.main[..256])),
                    TreeBits(small.b, c.main[256..], prev.main[256..])),
                TreeBits(small.c, c.sec, prev.sec))
            == Put(w, TreesBits(prev, c, small))
  {
    hide Carries, Complete, Optional, TreeBits, Put, RepTree.Tables;
    Carried(small.a, c.main[..256], prev.main[..256]);
    Carried(small.b, c.main[256..], prev.main[256..]);
    Carried(small.c, c.sec, prev.sec);
    var x, y := TreeBits(small.a, c.main[..256], prev.main[..256]), TreeBits(small.b, c.main[256..], prev.main[256..]);
    var z := TreeBits(small.c, c.sec, prev.sec);
    PutConcat(Put(w, x), y, z);
    PutConcat(w, x, y + z);
  }

  lemma AlignedMade(f: seq<nat>, lens: seq<nat>)
    requires |f| == ALIGNED && MadeFor(f, lens) && Occurring(f)
    ensures GoodAligned(lens) && |lens| == 8 && forall k :: 0 <= k < 8 ==> lens[k] < Pow2(3)
  {
    hide Complete;
    Pow2Values();
  }

  lemma GroupIs(s: State, n: nat, w: Wire)
    requires s.first && s.kind == Closed && s.left == 0 && n < WORD32 && WireOk(s, w)
    ensures Legal(s, Group(n)) && Next(s, Group(n)) == s.(first := false, fileSize := n)
    ensures Emit(s, Group(n), w) == Put(w, GroupBits(n)) && Padded(s, w) == w
  {
    hide Put, GroupBits;
  }

  lemma GroupSum(n: nat)
    requires n > 0
    ensures BitsOf(1, 1) + BitsOf(16, n / 65536) + BitsOf(16, n % 65536) == GroupBits(n)
  {
    hide BitsOf;
  }

  lemma GroupSettled(s: State, w: Wire)
    requires s.kind != Uncompressed
    ensures Padded(s, w) == w
  {
  }

  /** The block has tokens, so its main tree has codes. */
  lemma TreeNeeded(f: seq<nat>, g: seq<nat>, ts: seq<Token>, main: seq<nat>, sec: seq<nat>)
    requires Covers(f, g, ts) && MadeFor(f, main) && MadeFor(g, sec) && ts != []
    ensures Complete(main) && Optional(sec) && |main| == MAIN && |sec| == SECONDARY && IsLengths(main) && IsLengths(sec)
  {
    hide MainSymbol, FirstCode, Count;
    assert ts[0] in ts;
    assert f[MainSymbol(ts[0])] > 0;
  }

  lemma TreeSizes()
    ensures MAIN == 528 && SECONDARY == 249 && ALIGNED == 8
  {
  }

  lemma LensShaped(prev: Codes, c: Codes, aligned: bool)
    requires Shaped(prev) && |c.main| == MAIN && |c.sec| == SECONDARY
             && (if aligned then GoodAligned(c.al) else c.al == prev.al)
    ensures Shaped(c) && |c.al| == ALIGNED
  {
    hide Complete;
  }

  /** The header of a coded block as an item. */
  lemma CodedOpen(s: State, it: Item, w: Wire)
    requires it.Open? && !s.first && s.left == 0 && 0 < it.size < Pow2(24) && WireOk(s, w)
             && GoodTrees(s.codes, it.codes, it.small)
    requires it.kind == Verbatim || (it.kind == Aligned && GoodAligned(it.codes.al))
    requires it.kind == Verbatim ==> it.codes.al == s.codes.al
    ensures Legal(s, it)
            && Next(s, it) == s.(codes := it.codes, kind := it.kind, left := it.size, odd := it.size % 2 == 1)
    ensures var h := Put(Padded(s, w), HeadBits(it.kind, it.size)); var trees := TreesBits(s.codes, it.codes, it.small);
            Emit(s, it, w) == if it.kind == Verbatim then Put(h, trees)
              else Put(Put(h, Fields(3, it.codes.al, 0)), trees)
  {
    hide Put, HeadBits, TreesBits, Fields, Padded, Complete, Optional, Carries;
  }

  /** The distances of the first n tokens held are the first distances stored. */
  lemma {:induction false} DistancesHeld(buf: B.Buffer, n: nat)
    requires buf.Valid() && n <= buf.literals
    ensures B.Matches(buf.itemType[..], n) <= buf.distData.Length
    ensures DistancesOf(buf.Held()[..n]) == buf.distData[..B.Matches(buf.itemType[..], n)]
  {
    hide B.ClearFrom, B.OnesTable, B.IsMatch, DistancesOf, B.Matches;
    B.MatchesMonotone(buf.itemType[..], n, buf.literals);
    if n == 0 {
      NoDistances();
    } else {
      DistancesHeld(buf, n - 1);
      NextDistance(buf.Held(), n - 1);
      B.MatchesNext(buf.itemType[..], n - 1);
      if B.IsMatch(buf.itemType[..], n - 1) {
        B.MatchesBelow(buf.itemType[..], n - 1, buf.literals);
      }
    }
  }

  lemma NoDistances()
    ensures DistancesOf([]) == []
  {
  }

  lemma NextDistance(ts: seq<Token>, n: nat)
    requires n < |ts|
    ensures DistancesOf(ts[..n + 1]) == DistancesOf(ts[..n]) + (if ts[n].Match? then [ts[n].dist] else [])
  {
    assert ts[..n + 1][..n] == ts[..n];
  }

  lemma BufferDists(buf: B.Buffer, n: nat)
    requires buf.Valid() && n <= buf.literals
    ensures B.Matches(buf.itemType[..], n) <= buf.distances <= buf.distData.Length
  {
    hide B.ClearFrom, B.OnesTable, B.IsMatch, B.Matches;
    B.MatchesMonotone(buf.itemType[..], n, buf.literals);
  }

  /** Offsets in the queue stay 32-bit. */
  lemma {:induction false} QueueFits(p: Past, ts: seq<Token>)
    requires FitsAll(p, ts) && GoodQueue(p.queue)
    ensures GoodQueue(PlayAll(p, ts).queue)
    decreases |ts|
  {
    hide Copy;
    if ts != [] {
      QueueFits(Play(p, ts[0]), ts[1..]);
    }
  }

  lemma HeadPending(s: State, w: Wire, n: nat)
    requires WireOk(s, w)
    ensures |Put(Padded(s, w), HeadBits(Uncompressed, n)).pend| < 16
  {
    hide Put, HeadBits;
    PaddedOk(s, w);
    PutSmall(Padded(s, w), HeadBits(Uncompressed, n));
  }

  /** The header of an uncompressed block as an item. */
  lemma RawOpen(s: State, it: Item, w: Wire)
    requires it.Open? && it.kind == Uncompressed && !s.first && s.left == 0 && 0 < it.size < Pow2(24) && WireOk(s, w)
    requires GoodQueue(it.queue) && it.codes == s.codes && Shaped(s.codes)
    ensures Legal(s, it)
    ensures Next(s, it)
            == s.(past := Past(s.past.hist, it.queue), kind := Uncompressed, left := it.size, odd := it.size % 2 == 1)
    ensures var h := Put(Padded(s, w), HeadBits(Uncompressed, it.size));
            |h.pend| < 16 && Emit(s, it, w) == AfterQueue(it.queue, h)
  {
    hide Put, HeadBits, Padded, AfterQueue, GoodQueue;
    HeadPending(s, w, it.size);
  }

  /** The encoder's window holds the bytes that the tokens stand for. */
  ghost predicate InWindow(mem: array<byte>, memAt: nat, p: Past, ts: seq<Token>)
    reads mem
    requires FitsAll(p, ts)
  {
    memAt + TotalWidth(ts) <= mem.Length && PlayAll(p, ts).hist == p.hist + mem[memAt..memAt + TotalWidth(ts)]
  }

  lemma InWindowParts(mem: array<byte>, memAt: nat, p: Past, ts: seq<Token>, n: nat)
    requires FitsAll(p, ts) && InWindow(mem, memAt, p, ts) && n == TotalWidth(ts)
    ensures memAt + n <= mem.Length && PlayAll(p, ts).hist == p.hist + mem[memAt..memAt + n]
  {
  }

  lemma {:induction false} PlainTokens(p: Past, ts: seq<Token>)
    requires FitsAll(p, ts)
    ensures AllPlain(ts)
    decreases |ts|
  {
    hide Play;
    if ts != [] {
      PlainTokens(Play(p, ts[0]), ts[1..]);
      forall t | t in ts ensures Plain(t) {
        assert t == ts[0] || t in ts[1..];
      }
    }
  }

  /** A block's size fits three bytes: the buffer holds less than 2^16 tokens, not half of them matches. */
  lemma BlockWidth(buf: B.Buffer, end: nat)
    requires buf.Valid() && 0 < end <= buf.literals && AllPlain(buf.Held()[..end])
    ensures 0 < TotalWidth(buf.Held()[..end]) < Pow2(24)
  {
    hide B.ClearFrom, B.Matches, B.OnesTable, TotalWidth, Pow2;
    assert buf.Held()[..end][..end] == buf.Held()[..end];
    WidthBound(buf, end, buf.Held()[..end]);
    BufferDists(buf, end);
    Pow2Values();
  }

  lemma {:induction false} WidthBound(buf: B.Buffer, n: nat, ts: seq<Token>)
    requires buf.Valid() && n <= |ts| && ts <= buf.Held() && AllPlain(ts)
    ensures B.Matches(buf.itemType[..], n) <= n && n <= TotalWidth(ts[..n]) <= n + 256 * B.Matches(buf.itemType[..], n)
  {
    hide B.ClearFrom, B.Matches, B.OnesTable, TotalWidth, B.IsMatch;
    if n == 0 {
      WholeList(ts, buf.itemType[..]);
    } else {
      WidthBound(buf, n - 1, ts);
      NextWidth(ts, n - 1);
      TokenAt(buf, n - 1, ts);
      B.MatchesNext(buf.itemType[..], n - 1);
    }
  }

  lemma CoversLowRaised(f: seq<nat>, g: seq<nat>, ts: seq<Token>)
    requires CoversLow(f, ts) && |g| == ALIGNED && forall s :: 0 <= s < ALIGNED ==> f[s] <= g[s]
    ensures CoversLow(g, ts) && (Occurring(f) ==> Occurring(g))
  {
  }

  lemma TokenSizes(p: Past, t: Token)
    requires Fits(p, t)
    ensures t.Match? ==> 2 <= t.len <= 257
  {
  }

  lemma AllPlayed(p: Past, ts: seq<Token>)
    requires |ts| == 0
    ensures FitsAll(p, ts) && PlayAll(p, ts) == p
  {
  }

  /** With no byte in the current frame the history is that of its start. */
  lemma NothingNew(s: State, its: seq<Item>)
    requires LegalAll(s, its) && |Run(s, its).past.hist| == |s.past.hist|
    ensures Run(s, its).past.hist == s.past.hist
  {
    hide LegalAll, Run;
    RunGrows(s, its);
  }

  lemma {:induction false} PlayAllWidth(p: Past, ts: seq<Token>)
    requires FitsAll(p, ts)
    ensures p.hist <= PlayAll(p, ts).hist && |PlayAll(p, ts).hist| == |p.hist| + TotalWidth(ts)
    decreases |ts|
  {
    hide Play, Fits, TotalWidth;
    if ts == [] {
      WholeList(ts, []);
      assert ts[..0] == ts;
    } else {
      PlayGrows(p, ts[0]);
      PlayWidth(p, ts[0]);
      PlayAllWidth(Play(p, ts[0]), ts[1..]);
      FrontWidth(ts);
    }
  }

  lemma {:induction false} FrontWidth(ts: seq<Token>)
    requires ts != []
    ensures TotalWidth(ts) == Width(ts[0]) + TotalWidth(ts[1..])
    decreases |ts|
  {
    var n := |ts| - 1;
    if n == 0 {
      assert ts[..0] == [] && ts[1..] == [];
    } else {
      FrontWidth(ts[..n]);
      assert ts[..n][1..] == ts[1..][..n - 1];
    }
  }

  lemma InWindowSplit(mem: array<byte>, memAt: nat, p: Past, ts: seq<Token>, n: nat)
    requires FitsAll(p, ts) && InWindow(mem, memAt, p, ts) && n <= |ts|
    ensures FitsAll(p, ts[..n]) && InWindow(mem, memAt, p, ts[..n])
    ensures FitsAll(PlayAll(p, ts[..n]), ts[n..])
            && InWindow(mem, memAt + TotalWidth(ts[..n]), PlayAll(p, ts[..n]), ts[n..])
  {
    hide FitsAll, PlayAll, TotalWidth;
    assert ts == ts[..n] + ts[n..];
    PlayConcat(p, ts[..n], ts[n..]);
    var q := PlayAll(p, ts[..n]);
    PlayAllWidth(p, ts[..n]);
    PlayAllWidth(q, ts[n..]);
    PlayAllWidth(p, ts);
    var all, a, b := TotalWidth(ts), TotalWidth(ts[..n]), TotalWidth(ts[n..]);
    var m := mem[memAt..memAt + all];
    SplitHist(p.hist, q.hist, PlayAll(q, ts[n..]).hist, m, a);
    assert m[..a] == mem[memAt..memAt + a] && m[a..] == mem[memAt + a..memAt + a + b];
  }

  lemma SplitHist(h: seq<byte>, h1: seq<byte>, h2: seq<byte>, m: seq<byte>, a: nat)
    requires h2 == h + m && h <= h1 <= h2 && |h1| == |h| + a && a <= |m|
    ensures h1 == h + m[..a] && h2 == h1 + m[a..]
  {
  }

  lemma OneServed(c: Codes, aligned: bool, ts: seq<Token>, l: nat)
    requires AllServed(c, aligned, ts) && l < |ts|
    ensures Shaped(c) && Plain(ts[l]) && Served(c, aligned, ts[l])
  {
    hide Served, Plain;
  }

  lemma {:induction false} WidthLeft(ts: seq<Token>, l: nat)
    requires l < |ts|
    ensures TotalWidth(ts[..l]) + Width(ts[l]) <= TotalWidth(ts)
    decreases |ts|
  {
    if l == |ts| - 1 {
      NextWidth(ts, l);
      assert ts[..l + 1] == ts;
    } else {
      WidthLeft(ts[..|ts| - 1], l);
      assert ts[..|ts| - 1][..l] == ts[..l];
    }
  }

  lemma NextMatches(types: seq<byte>, l: nat)
    requires l < 8 * |types|
    ensures B.Matches(types, l + 1) == B.Matches(types, l) + (if B.IsMatch(types, l) then 1 else 0)
  {
  }

  lemma ServedParts(c: Codes, aligned: bool, t: Token)
    requires Shaped(c) && Plain(t) && Served(c, aligned, t)
    ensures Used(c.main, MainSymbol(t)) && Complete(c.main)
    ensures t.Match? ==> 2 <= t.len <= 257 && t.dist < Slots.WINDOW
    ensures Long(t) ==> t.Match? && Used(c.sec, t.len - 9) && Complete(c.sec)
    ensures t.Match? && LowBitsApart(aligned, t.dist) ==> Used(c.al, t.dist % 8) && Complete(c.al)
  {
    hide Used, Complete, MainSymbol;
  }

  lemma LiteralBits(c: Codes, aligned: bool, t: Token)
    requires Shaped(c) && Plain(t) && t.Literal?
    ensures TokenBits(c, aligned, t) == Code(c.main, MainSymbol(t))
  {
    hide Code, MainSymbol;
  }

  lemma MatchBits(c: Codes, aligned: bool, t: Token, w: Wire)
    requires Shaped(c) && Plain(t) && t.Match?
    ensures var m, e := Code(c.main, MainSymbol(t)), OffsetBits(c, aligned, t.dist);
            && (!Long(t) ==> Put(Put(w, m), e) == Put(w, TokenBits(c, aligned, t)))
            && (Long(t) ==> Put(Put(Put(w, m), Code(c.sec, t.len - 9)), e) == Put(w, TokenBits(c, aligned, t)))
  {
    hide Code, MainSymbol, OffsetBits, Put;
    var m, e := Code(c.main, MainSymbol(t)), OffsetBits(c, aligned, t.dist);
    if Long(t) {
      var l := Code(c.sec, t.len - 9);
      PutConcat(Put(w, m), l, e);
      PutConcat(w, m, l + e);
    } else {
      assert [] + e == e;
      PutConcat(w, m, e);
    }
  }

  lemma ZeroLengths(main: seq<nat>, sec: seq<nat>)
    requires main == AllZero(701) && sec == AllZero(250)
    ensures MAIN <= |main| && SECONDARY <= |sec| && main[..MAIN] == NO_CODES.main && sec[..SECONDARY] == NO_CODES.sec
  {
  }

  /** A whole frame more. */
  lemma NextFrame(n: nat, m: nat)
    requires n % FRAME == 0 && m == FRAME
    ensures (n + m) % FRAME == 0
  {
  }

  lemma EndsEmpty()
    ensures EndsInData([])
  {
  }

  lemma EmitPending(s: State, its: seq<Item>)
    requires LegalAll(s, its)
    ensures WireOk(s, START) && |EmitAll(s, its, START).pend| < 16
  {
    hide Run, LegalAll, EmitAll;
    StartOk(s);
    EmitAllOk(s, its, START);
  }

  lemma FrameExtends(w: Wire, p: Wire)
    requires |w.pend| < 16 && (p == w || (w.pend == [] && p == Wire(w.out + [0], [])))
    ensures |p.pend| < 16 && Extends(Finish(p), w)
  {
    hide Put, WordBits;
    FinishExtends(p);
    if p != w {
      ExtendsRaw(Finish(p), w, [0]);
    }
  }

  lemma FrameBytes(fs: seq<Frame>, f: Frame)
    ensures var h := [Low(|f.bytes|), High(|f.bytes|), Low(f.size), High(f.size)];
            Flat(fs) + h + f.bytes == Flat(fs) + (Header(|f.bytes|, f.size) + f.bytes)
    ensures Within(fs + [f]) <==> Within(fs) && |f.bytes| <= 38848
  {
    hide Low, High;
  }
}
