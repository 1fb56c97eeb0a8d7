/** Sending a table of code lengths: differences from the previous table modulo 17, with codes for
    runs, under a small Huffman tree of its own whose lengths go first, four bits each. */
module RepTree {
  import opened Bits
  import opened BitStream
  import opened Canonical
  import opened DecodeTable
  import opened SymbolReader
  import opened MakeTree
  import H = Huffman

  /** One step of the sender: a difference, a short or long run of zeros, or a run of one length. */
  datatype Rep = Delta(d: nat) | Zeros17(run: nat) | Zeros18(run: nat) | Same19(run: nat, d: nat)

  const SMALL: nat := 20

  /** A table of code lengths and the one before it. */
  ghost predicate Tables(cur: seq<nat>, prev: seq<nat>) {
    |prev| == |cur| && IsLengths(cur) && IsLengths(prev)
  }

  /** How many entries after i equal entry i without a break. */
  function RunAfter(cur: seq<nat>, i: nat): (r: nat)
    requires i < |cur|
    ensures i + r < |cur|
    decreases |cur| - i
  {
    if i + 1 < |cur| && cur[i + 1] == cur[i] then 1 + RunAfter(cur, i + 1) else 0
  }

  function DeltaOf(last: nat, now: nat): nat
    requires last <= 16 && now <= 16
  {
    (last - now + 17) % 17
  }

  /** What the sender does at entry i. A run code stands for the first run entries. */
  ghost function RepAt(cur: seq<nat>, prev: seq<nat>, i: nat): (r: Rep)
    requires Tables(cur, prev) && i < |cur|
    ensures Good(r) && i + Advance(r) <= |cur|
  {
    var same := RunAfter(cur, i);
    var d := DeltaOf(prev[i], cur[i]);
    if same < 4 then Delta(d)
    else if cur[i] == 0 then
      var run := Min(same, 51);
      if run <= 19 then Zeros17(run) else Zeros18(run)
    else Same19(Min(same, 5), d)
  }

  /** Runs and differences fit their fields. */
  predicate Good(r: Rep) {
    match r
    case Delta(d) => d < 17
    case Zeros17(run) => 4 <= run < 20
    case Zeros18(run) => 20 <= run < 52
    case Same19(run, d) => 4 <= run < 6 && d < 17
  }

  function Advance(r: Rep): nat {
    if r.Delta? then 1 else r.run
  }

  /** The symbols of the small tree that one step uses. */
  function Symbols(r: Rep): seq<nat> {
    match r
    case Delta(d) => [d]
    case Zeros17(_) => [17]
    case Zeros18(_) => [18]
    case Same19(_, d) => [d, 19]
  }

  /** The bits of one step under small-tree lengths lens. */
  ghost function RepBits(lens: seq<nat>, r: Rep): seq<bool>
    requires |lens| == SMALL && Good(r)
  {
    match r
    case Delta(d) => Code(lens, d)
    case Zeros17(run) => Code(lens, 17) + BitsOf(4, run - 4)
    case Zeros18(run) => Code(lens, 18) + BitsOf(5, run - 20)
    case Same19(run, d) => Code(lens, 19) + (BitsOf(1, run - 4) + Code(lens, d))
  }

  /** The bits for the entries from i on. */
  ghost function TailBits(lens: seq<nat>, cur: seq<nat>, prev: seq<nat>, i: nat): seq<bool>
    requires |lens| == SMALL && Tables(cur, prev) && i <= |cur|
    decreases |cur| - i
  {
    if i == |cur| then []
    else
      var r := RepAt(cur, prev, i);
      RepBits(lens, r) + TailBits(lens, cur, prev, i + Advance(r))
  }

  /** Lengths from the k-th on in fields of n bits each. */
  ghost function Fields(n: nat, lens: seq<nat>, k: nat): seq<bool>
    requires k <= |lens|
    decreases |lens| - k
  {
    if k == |lens| then [] else BitsOf(n, lens[k]) + Fields(n, lens, k + 1)
  }

  /** All the bits of a transmitted table. */
  ghost function TreeBits(lens: seq<nat>, cur: seq<nat>, prev: seq<nat>): seq<bool>
    requires |lens| == SMALL && Tables(cur, prev)
  {
    Fields(4, lens, 0) + TailBits(lens, cur, prev, 0)
  }

  /** The small tree has a code for every symbol used from entry i on. */
  ghost predicate Serves(lens: seq<nat>, cur: seq<nat>, prev: seq<nat>, i: nat)
    requires Tables(cur, prev) && i <= |cur|
    decreases |cur| - i
  {
    i == |cur| ||
    var r := RepAt(cur, prev, i);
    (forall s :: s in Symbols(r) ==> Used(lens, s)) && Serves(lens, cur, prev, i + Advance(r))
  }

  /** A small tree that can carry this table: complete, in four-bit lengths, with the codes needed. */
  ghost predicate Carries(lens: seq<nat>, cur: seq<nat>, prev: seq<nat>) {
    |lens| == SMALL && Complete(lens) && (forall k :: 0 <= k < SMALL ==> lens[k] < 16)
    && Tables(cur, prev) && Serves(lens, cur, prev, 0)
  }

  // ---------- Runs ----------

  lemma {:induction false} RunEqual(cur: seq<nat>, i: nat, j: nat)
    requires i < |cur| && i <= j <= i + RunAfter(cur, i)
    ensures cur[j] == cur[i]
    decreases j - i
  {
    if j > i {
      RunEqual(cur, i + 1, j);
    }
  }

  /** The receiver's inverse of a difference. */
  lemma DeltaInverse(last: nat, now: nat)
    requires last <= 16 && now <= 16
    ensures (last - DeltaOf(last, now) + 17) % 17 == now
    ensures DeltaOf(last, now) < 17
  {
    if last >= now {
      assert DeltaOf(last, now) == last - now;
    } else {
      assert DeltaOf(last, now) == last - now + 17;
    }
  }

  lemma ExtendsFirst(f: seq<byte>, w: Wire, a: seq<bool>, b: seq<bool>)
    requires |w.pend| < 16 && Extends(f, Put(w, a + b))
    ensures Extends(f, Put(w, a)) && Put(Put(w, a), b) == Put(w, a + b) && |Put(w, a).pend| < 16
  {
    hide Pack, Extends;
    PutConcat(w, a, b);
    PutLength(w, a);
    ExtendsBack(f, Put(w, a), b);
  }

  // ---------- Sending ----------

  /** OUTPUT_BITS of a symbol's code. */
  method OutputCode(w: BitWriter, len: nat, code: nat, ghost lens: seq<nat>, ghost s: nat)
    requires w.Valid() && Complete(lens) && Used(lens, s) && len == lens[s] && code == CodeNumber(lens, s)
    modifies w
    ensures w.Valid() && w.Pos() == Put(old(w.Pos()), Code(lens, s))
  {
    hide Complete, CodeNumber, Put;
    LengthsBounded(lens, s);
    NumberFits(lens, s);
    w.OutputBits(len, code);
  }

  /** The run after entry i, up to the sentinel. */
  method CountSame(pLen: array<nat>, from: nat, num: nat, i: nat) returns (same: nat)
    requires i < num && from + num < pLen.Length && pLen[from + num] == 123
    requires IsLengths(pLen[from..from + num])
    ensures same == RunAfter(pLen[from..from + num], i)
  {
    hide RunAfter;
    ghost var cur := pLen[from..from + num];
    same := 0;
    var j := i + 1;
    while pLen[from + j] == pLen[from + i]
      invariant i < j <= num && j == i + 1 + same && cur[j - 1] == cur[i]
      invariant same + RunAfter(cur, j - 1) == RunAfter(cur, i)
      decreases num - j
    {
      assert j != num by { assert cur[i] <= 16; }
      RunStep(cur, j - 1);
      same := same + 1;
      j := j + 1;
    }
    RunStep(cur, j - 1);
  }

  lemma RunStep(cur: seq<nat>, i: nat)
    requires i < |cur|
    ensures RunAfter(cur, i) == if i + 1 < |cur| && cur[i + 1] == cur[i] then 1 + RunAfter(cur, i + 1) else 0
  {
  }

  /** Every symbol of the steps from i to j has been counted. */
  ghost predicate Counted(f: seq<nat>, cur: seq<nat>, prev: seq<nat>, i: nat, j: nat)
    requires Tables(cur, prev) && i <= j <= |cur| && |f| == SMALL
    decreases j - i
  {
    i == j ||
    var r := RepAt(cur, prev, i);
    i + Advance(r) <= j && (forall s :: s in Symbols(r) ==> s < SMALL && f[s] > 0)
    && Counted(f, cur, prev, i + Advance(r), j)
  }

  lemma {:induction false} CountedMore(f: seq<nat>, g: seq<nat>, cur: seq<nat>, prev: seq<nat>, i: nat, j: nat)
    requires Tables(cur, prev) && i <= j <= |cur| && |f| == |g| == SMALL
    requires Counted(f, cur, prev, i, j) && forall s :: 0 <= s < SMALL ==> f[s] <= g[s]
    ensures Counted(g, cur, prev, i, j)
    decreases j - i
  {
    hide RepAt;
    if i < j {
      CountedMore(f, g, cur, prev, i + Advance(RepAt(cur, prev, i)), j);
    }
  }

  lemma {:induction false} CountedStep(f: seq<nat>, cur: seq<nat>, prev: seq<nat>, i: nat, j: nat)
    requires Tables(cur, prev) && i <= j < |cur| && |f| == SMALL && Counted(f, cur, prev, i, j)
    requires forall s :: s in Symbols(RepAt(cur, prev, j)) ==> s < SMALL && f[s] > 0
    ensures Counted(f, cur, prev, i, j + Advance(RepAt(cur, prev, j)))
    decreases j - i
  {
    hide RepAt, Symbols;
    if i < j {
      CountedStep(f, cur, prev, i + Advance(RepAt(cur, prev, i)), j);
    }
  }

  lemma {:induction false} CountedServes(f: seq<nat>, lens: seq<nat>, cur: seq<nat>, prev: seq<nat>, i: nat)
    requires Tables(cur, prev) && i <= |cur| && |f| == |lens| == SMALL && Counted(f, cur, prev, i, |cur|)
    requires forall s :: 0 <= s < SMALL && f[s] > 0 ==> lens[s] > 0
    ensures Serves(lens, cur, prev, i)
    decreases |cur| - i
  {
    hide RepAt, Symbols;
    if i < |cur| {
      CountedServes(f, lens, cur, prev, i + Advance(RepAt(cur, prev, i)));
    }
  }

  /** How often the steps from entry i on use symbol s. */
  ghost function Uses(cur: seq<nat>, prev: seq<nat>, i: nat, s: nat): nat
    requires Tables(cur, prev) && i <= |cur|
    decreases |cur| - i
  {
    if i == |cur| then 0
    else
      var r := RepAt(cur, prev, i);
      Uses(cur, prev, i + Advance(r), s) + if s in Symbols(r) then 1 else 0
  }

  /** The frequencies so far, and the uses still to come, make up all uses. */
  ghost predicate Exact(f: seq<nat>, cur: seq<nat>, prev: seq<nat>, i: nat)
    requires Tables(cur, prev) && i <= |cur|
  {
    |f| == SMALL && forall s: nat :: s < SMALL ==> f[s] + Uses(cur, prev, i, s) == Uses(cur, prev, 0, s)
  }

  lemma ExactMore(f: seq<nat>, g: seq<nat>, cur: seq<nat>, prev: seq<nat>, i: nat)
    requires Tables(cur, prev) && i < |cur| && Exact(f, cur, prev, i) && |g| == SMALL
    requires forall s: nat :: s < SMALL ==> g[s] == f[s] + if s in Symbols(RepAt(cur, prev, i)) then 1 else 0
    ensures Exact(g, cur, prev, i + Advance(RepAt(cur, prev, i)))
  {
    hide RepAt, Symbols, Advance;
  }

  lemma ExactEnds(f: seq<nat>, cur: seq<nat>, prev: seq<nat>)
    requires Tables(cur, prev) && |f| == SMALL
    ensures (forall s: nat :: s < SMALL ==> f[s] == 0) ==> Exact(f, cur, prev, 0)
    ensures Exact(f, cur, prev, |cur|) ==> forall s: nat :: s < SMALL ==> f[s] == Uses(cur, prev, 0, s)
  {
  }

  /** The first pass of write_rep_tree: the symbols that will be sent are counted. */
  method CountSymbols(pLen: array<nat>, pLast: array<nat>, from: nat, num: nat, freq: array<nat>)
    requires from + num < pLen.Length && from + num <= pLast.Length && pLen[from + num] == 123
    requires Tables(pLen[from..from + num], pLast[from..from + num]) && freq.Length >= SMALL
    requires freq != pLen && freq != pLast && forall k :: 0 <= k < SMALL ==> freq[k] == 0
    modifies freq
    ensures Counted(freq[..SMALL], pLen[from..from + num], pLast[from..from + num], 0, num)
    ensures FreqSum(freq[..SMALL]) <= num
    ensures forall s: nat :: s < SMALL ==>
              freq[s] == Uses(pLen[from..from + num], pLast[from..from + num], 0, s)
  {
    hide RunAfter, Counted, FreqSum, Exact, Uses;
    ghost var cur, prev := pLen[from..from + num], pLast[from..from + num];
    FreqSumZero(freq[..SMALL]);
    ExactEnds(freq[..SMALL], cur, prev);
    NothingCounted(freq[..SMALL], cur, prev);
    var i := 0;
    while i < num
      invariant 0 <= i <= num && pLen[from..from + num] == cur && pLast[from..from + num] == prev
                && pLen[from + num] == 123
      invariant Counted(freq[..SMALL], cur, prev, 0, i) && FreqSum(freq[..SMALL]) <= i
      invariant Exact(freq[..SMALL], cur, prev, i)
      decreases num - i
    {
      ghost var f := freq[..SMALL];
      assert pLen[from + i] == cur[i] && pLast[from + i] == prev[i];
      DeltaInverse(prev[i], cur[i]);
      var same := CountSame(pLen, from, num, i);
      var step := 1;
      if same >= 4 {
        if pLen[from + i] == 0 {
          if same > 51 {
            same := 51;
          }
          if same <= 19 {
            Tally(freq, SMALL, 17);
          } else {
            Tally(freq, SMALL, 18);
          }
        } else {
          if same > 5 {
            same := 5;
          }
          Tally(freq, SMALL, DeltaOf(pLast[from + i], pLen[from + i]));
          Tally(freq, SMALL, 19);
        }
        step := same;
      } else {
        Tally(freq, SMALL, DeltaOf(pLast[from + i], pLen[from + i]));
      }
      CountedMore(f, freq[..SMALL], cur, prev, 0, i);
      CountedStep(freq[..SMALL], cur, prev, 0, i);
      ExactMore(f, freq[..SMALL], cur, prev, i);
      i := i + step;
    }
    ExactEnds(freq[..SMALL], cur, prev);
  }

  lemma NothingCounted(f: seq<nat>, cur: seq<nat>, prev: seq<nat>)
    requires Tables(cur, prev) && |f| == SMALL
    ensures Counted(f, cur, prev, 0, 0)
  {
  }

  /** What the small tree promises about sending. */
  lemma SmallTree(f: seq<nat>, lens: seq<nat>, t: H.Tree, n: nat)
    requires |f| == SMALL && TreeLengths(f, lens, t) && FreqSum(f) <= n + 1 && n <= 2000
    ensures |lens| == SMALL && Complete(lens) && forall k :: 0 <= k < SMALL ==> lens[k] < 16
    ensures forall s :: 0 <= s < SMALL && f[s] > 0 ==> lens[s] > 0
  {
    hide FreqSum, Complete, H.Height, H.Fib;
    FibEighteen();
    if H.Height(t) >= 16 {
      H.FibMonotone(18, H.Height(t) + 2);
    }
  }

  lemma FibEighteen()
    ensures H.Fib(18) == 2584
  {
    assert H.Fib(6) == 8 && H.Fib(7) == 13;
    assert H.Fib(8) == 21 && H.Fib(9) == 34;
    assert H.Fib(10) == 55 && H.Fib(11) == 89;
    assert H.Fib(12) == 144 && H.Fib(13) == 233;
    assert H.Fib(14) == 377 && H.Fib(15) == 610;
    assert H.Fib(16) == 987 && H.Fib(17) == 1597;
  }

  /** Lengths go out in fields of n bits. */
  method SendFields(w: BitWriter, n: nat, len: array<nat>, count: nat, ghost lens: seq<nat>)
    requires w.Valid() && 1 <= n <= 17 && count == |lens| <= len.Length && len[..count] == lens
    requires forall k :: 0 <= k < |lens| ==> lens[k] < Pow2(n)
    modifies w
    ensures w.Valid() && w.Pos() == Put(old(w.Pos()), Fields(n, lens, 0))
  {
    hide Put, Fields, Pow2, BitsOf;
    ghost var goal := Put(w.Pos(), Fields(n, lens, 0));
    for k := 0 to count
      invariant w.Valid() && Put(w.Pos(), Fields(n, lens, k)) == goal
    {
      ghost var at := w.Pos();
      FieldStep(n, lens, k);
      assert len[k] == lens[k];
      w.OutputBits(n, len[k]);
      PutConcat(at, BitsOf(n, lens[k]), Fields(n, lens, k + 1));
    }
    FieldEnd(n, lens);
    PutNothing(w.Pos());
  }

  lemma FieldStep(n: nat, lens: seq<nat>, k: nat)
    requires k < |lens|
    ensures Fields(n, lens, k) == BitsOf(n, lens[k]) + Fields(n, lens, k + 1)
  {
  }

  lemma FieldEnd(n: nat, lens: seq<nat>)
    ensures Fields(n, lens, |lens|) == []
  {
  }

  /** The choice both passes make at entry i: the first symbol, and the run it stands for. */
  method ChooseStep(pLen: array<nat>, pLast: array<nat>, from: nat, num: nat, i: nat) returns (k: nat, same: nat)
    requires i < num && from + num < pLen.Length && from + num <= pLast.Length && pLen[from + num] == 123
    requires Tables(pLen[from..from + num], pLast[from..from + num])
    ensures var r := RepAt(pLen[from..from + num], pLast[from..from + num], i);
            k == Lead(r) && (!r.Delta? ==> same == r.run)
  {
    hide RunAfter;
    ghost var cur, prev := pLen[from..from + num], pLast[from..from + num];
    assert pLen[from + i] == cur[i] && pLast[from + i] == prev[i];
    DeltaInverse(prev[i], cur[i]);
    same := CountSame(pLen, from, num, i);
    if same >= 4 {
      if pLen[from + i] == 0 {
        if same > 51 {
          same := 51;
        }
        if same <= 19 {
          k := 17;
        } else {
          k := 18;
        }
      } else {
        if same > 5 {
          same := 5;
        }
        k := 19;
      }
    } else {
      k := DeltaOf(pLast[from + i], pLen[from + i]);
    }
  }

  /** The second pass of write_rep_tree, one step: entry i is sent with the same choice of code. */
  method SendStep(w: BitWriter, pLen: array<nat>, pLast: array<nat>, from: nat, num: nat, i: nat,
                  len: array<nat>, code: array<nat>, ghost lens: seq<nat>) returns (step: nat)
    requires w.Valid() && i < num && from + num < pLen.Length && from + num <= pLast.Length && pLen[from + num] == 123
    requires Tables(pLen[from..from + num], pLast[from..from + num])
    requires len.Length >= SMALL && code.Length >= SMALL && len[..SMALL] == lens && Complete(lens)
    requires forall s :: 0 <= s < SMALL && lens[s] > 0 ==> code[s] == CodeNumber(lens, s)
    requires Serves(lens, pLen[from..from + num], pLast[from..from + num], i)
    modifies w
    ensures var r := RepAt(pLen[from..from + num], pLast[from..from + num], i);
            w.Valid() && step == Advance(r) && w.Pos() == Put(old(w.Pos()), RepBits(lens, r))
  {
    hide *;
    SmallSize();
    ghost var cur, prev, at := pLen[from..from + num], pLast[from..from + num], w.Pos();
    ghost var r := RepAt(cur, prev, i);
    StepFacts(cur, prev, i);
    StepCodes(lens, cur, prev, i);
    RepSplit(lens, r);
    LeadTells(r);
    FieldOf(lens, r);
    FieldWidths();
    assert pLen[from + i] == cur[i] && pLast[from + i] == prev[i];
    var k, same := ChooseStep(pLen, pLast, from, num, i);
    UsedLength(lens, k);
    assert len[k] == lens[k];
    OutputCode(w, len[k], code[k], lens, k);
    PutConcat(at, Code(lens, k), FieldBits(lens, r));
    step := 1;
    if k == 17 {
      w.OutputBits(4, same - 4);
      step := same;
    } else if k == 18 {
      w.OutputBits(5, same - 20);
      step := same;
    } else if k == 19 {
      w.OutputBits(1, same - 4);
      k := DeltaOf(pLast[from + i], pLen[from + i]);
      UsedLength(lens, k);
      assert len[k] == lens[k];
      OutputCode(w, len[k], code[k], lens, k);
      PutConcat(Put(at, Code(lens, 19)), BitsOf(1, same - 4), Code(lens, k));
      step := same;
    } else {
      PutNothing(w.Pos());
    }
  }

  lemma UsedLength(lens: seq<nat>, s: nat)
    requires Used(lens, s)
    ensures s < |lens| && lens[s] > 0
  {
  }

  lemma FieldWidths()
    ensures Pow2(4) == 16 && Pow2(5) == 32 && Pow2(1) == 2
  {
  }

  /** The second pass of write_rep_tree. */
  method SendTable(w: BitWriter, pLen: array<nat>, pLast: array<nat>, from: nat, num: nat,
                   len: array<nat>, code: array<nat>, ghost lens: seq<nat>)
    requires w.Valid() && from + num < pLen.Length && from + num <= pLast.Length && pLen[from + num] == 123
    requires Carries(lens, pLen[from..from + num], pLast[from..from + num])
    requires len.Length >= SMALL && code.Length >= SMALL && len[..SMALL] == lens
    requires forall s :: 0 <= s < SMALL && lens[s] > 0 ==> code[s] == CodeNumber(lens, s)
    modifies w
    ensures w.Valid()
    ensures w.Pos() == Put(old(w.Pos()), TailBits(lens, pLen[from..from + num], pLast[from..from + num], 0))
  {
    hide *;
    Carried(lens, pLen[from..from + num], pLast[from..from + num]);
    ghost var cur, prev := pLen[from..from + num], pLast[from..from + num];
    ghost var goal := Put(w.Pos(), TailBits(lens, cur, prev, 0));
    var i := 0;
    while i < num
      invariant 0 <= i <= num && w.Valid() && Serves(lens, cur, prev, i)
      invariant Put(w.Pos(), TailBits(lens, cur, prev, i)) == goal
      decreases num - i
    {
      ghost var at, r := w.Pos(), RepAt(cur, prev, i);
      StepFacts(cur, prev, i);
      AdvanceSome(r);
      ServesNow(lens, cur, prev, i);
      TailStep(lens, cur, prev, i);
      var step := SendStep(w, pLen, pLast, from, num, i, len, code, lens);
      PutConcat(at, RepBits(lens, r), TailBits(lens, cur, prev, i + step));
      i := i + step;
    }
    TailEnd(lens, cur, prev);
    PutNothing(w.Pos());
  }

  /** write_rep_tree: a table of num lengths goes out against the previous one, which it replaces. */
  method WriteRepTree(w: BitWriter, pLen: array<nat>, pLast: array<nat>, from: nat, num: nat)
    returns (ghost lens: seq<nat>)
    requires w.Valid() && 1 <= num <= 2000 && from + num < pLen.Length && from + num <= pLast.Length && pLen != pLast
    requires Tables(pLen[from..from + num], pLast[from..from + num])
    modifies w, pLen, pLast
    ensures w.Valid() && pLen[..] == old(pLen[..])
    ensures Carries(lens, pLen[from..from + num], old(pLast[from..from + num]))
    ensures w.Pos() == Put(old(w.Pos()), TreeBits(lens, pLen[from..from + num], old(pLast[from..from + num])))
    ensures pLast[..] == old(pLast[..])[..from] + pLen[from..from + num] + old(pLast[..])[from + num..]
  {
    hide Put, Counted, FreqSum, TreeLengths, UsedList, Fields, TailBits, Serves, CodeNumber, Padded;
    ghost var cur, prev, at := pLen[from..from + num], pLast[from..from + num], w.Pos();
    var smallFreq := new nat[48](i => 0);
    var miniLen := new nat[24](i => 0);
    var miniCode := new nat[24](i => 0);
    var tempStore := pLen[from + num];
    pLen[from + num] := 123;
    assert pLen[from..from + num] == cur;
    CountSymbols(pLen, pLast, from, num, smallFreq);
    ghost var f := smallFreq[..SMALL];
    SomethingCounted(f, cur, prev);
    PaddedMore(f);
    ghost var t := Make(SMALL, smallFreq, miniLen, miniCode, true);
    lens := miniLen[..SMALL];
    SmallTree(Padded(f), lens, t, num);
    CountedMore(f, Padded(f), cur, prev, 0, num);
    CountedServes(Padded(f), lens, cur, prev, 0);
    assert pLen[from..from + num] == cur && pLast[from..from + num] == prev;
    FieldWidths();
    SendFields(w, 4, miniLen, 20, lens);
    SendTable(w, pLen, pLast, from, num, miniLen, miniCode, lens);
    PutConcat(at, Fields(4, lens, 0), TailBits(lens, cur, prev, 0));
    pLen[from + num] := tempStore;
    CopyLengths(pLen, pLast, from, num);
  }

  /** memcpy of a stretch of lengths. */
  method CopyLengths(source: array<nat>, target: array<nat>, from: nat, num: nat)
    requires from + num <= source.Length && from + num <= target.Length && source != target
    modifies target
    ensures target[..] == old(target[..])[..from] + source[from..from + num] + old(target[..])[from + num..]
  {
    ghost var before := target[..];
    forall j | from <= j < from + num { target[j] := source[j]; }
    assert target[..from] == before[..from] && target[from + num..] == before[from + num..];
    assert target[from..from + num] == source[from..from + num];
    assert target[..] == target[..from] + target[from..from + num] + target[from + num..];
  }

  lemma SomethingCounted(f: seq<nat>, cur: seq<nat>, prev: seq<nat>)
    requires Tables(cur, prev) && |f| == SMALL && |cur| > 0 && Counted(f, cur, prev, 0, |cur|)
    ensures UsedList(f, SMALL) != []
  {
    hide UsedList, RepAt;
    var r := RepAt(cur, prev, 0);
    assert Symbols(r)[0] in Symbols(r);
    UsedSome(f, Symbols(r)[0]);
  }

  // ---------- Receiving ----------

  /** Fields of n bits arrive. */
  method ReceiveFields(r: BitReader, n: nat, len: array<nat>, count: nat, ghost w: Wire, ghost lens: seq<nat>)
    requires r.At(w) && 1 <= n <= 17 && count == |lens| <= len.Length
    requires forall k :: 0 <= k < |lens| ==> lens[k] < Pow2(n)
    requires Extends(r.Frame(), Put(w, Fields(n, lens, 0)))
    modifies r, len
    ensures len[..count] == lens && r.At(Put(w, Fields(n, lens, 0)))
  {
    hide *;
    ghost var goal := Put(w, Fields(n, lens, 0));
    ghost var at := w;
    for k := 0 to count
      invariant r.At(at) && len[..k] == lens[..k] && Put(at, Fields(n, lens, k)) == goal
    {
      FieldStep(n, lens, k);
      AtPending(r, at);
      ExtendsFirst(r.Frame(), at, BitsOf(n, lens[k]), Fields(n, lens, k + 1));
      var value := r.GetBits(n, at, lens[k]);
      len[k] := value;
      at := Put(at, BitsOf(n, lens[k]));
    }
    FieldEnd(n, lens);
    AtPending(r, at);
    PutNothing(at);
  }

  lemma SmallSize()
    ensures SMALL == 20
  {
  }

  lemma AtPending(r: BitReader, w: Wire)
    requires r.At(w)
    ensures r.Valid() && |w.pend| < 16
  {
  }

  /** One step of a table arrives: the symbol, then whatever field goes with it. */
  method ReceiveStep(r: BitReader, table: array<int>, lr: array<int>, bitlen: array<nat>, num: nat, i: nat, last: nat,
                     ghost w: Wire, ghost lens: seq<nat>, ghost cur: seq<nat>, ghost prev: seq<nat>)
    returns (consecutive: nat, value: int)
    requires r.At(w) && Finds(table[..], lr[..], 8, lens) && Carries(lens, cur, prev) && lens <= bitlen[..]
    requires i < num == |cur| && last == prev[i] && Serves(lens, cur, prev, i)
    requires Extends(r.Frame(), Put(w, RepBits(lens, RepAt(cur, prev, i))))
    modifies r
    ensures consecutive == Advance(RepAt(cur, prev, i)) && value == cur[i]
    ensures r.At(Put(w, RepBits(lens, RepAt(cur, prev, i))))
  {
    hide *;
    Carried(lens, cur, prev);
    ghost var rep := RepAt(cur, prev, i);
    ghost var k := Lead(rep);
    StepFacts(cur, prev, i);
    StepCodes(lens, cur, prev, i);
    AtPending(r, w);
    RepSplit(lens, rep);
    ExtendsFirst(r.Frame(), w, Code(lens, k), FieldBits(lens, rep));
    var temp := DecodeSymbol(r, table, lr, 8, bitlen, w, lens, k);
    ghost var at := Put(w, Code(lens, k));
    LeadTells(rep);
    FieldWidths();
    if temp == 17 {
      FieldOf(lens, rep);
      consecutive := r.GetBits(4, at, rep.run - 4);
      consecutive := consecutive + 4;
      if i + consecutive >= num {
        consecutive := num - i;
      }
      value := 0;
    } else if temp == 18 {
      FieldOf(lens, rep);
      consecutive := r.GetBits(5, at, rep.run - 20);
      consecutive := consecutive + 20;
      if i + consecutive >= num {
        consecutive := num - i;
      }
      value := 0;
    } else if temp == 19 {
      FieldOf(lens, rep);
      ghost var b, c := BitsOf(1, rep.run - 4), Code(lens, rep.d);
      ExtendsFirst(r.Frame(), at, b, c);
      consecutive := r.GetBits(1, at, rep.run - 4);
      consecutive := consecutive + 4;
      if i + consecutive >= num {
        consecutive := num - i;
      }
      temp := DecodeSymbol(r, table, lr, 8, bitlen, Put(at, b), lens, rep.d);
      value := Undo(last, temp);
    } else {
      FieldOf(lens, rep);
      PutNothing(at);
      consecutive := 1;
      value := Undo(last, temp);
    }
  }

  /** The receiver's difference. */
  function Undo(last: nat, d: int): int {
    (last - d + 17) % 17
  }

  /** The first symbol of a step. */
  function Lead(r: Rep): nat {
    match r
    case Delta(d) => d
    case Zeros17(_) => 17
    case Zeros18(_) => 18
    case Same19(_, _) => 19
  }

  /** What follows that symbol. */
  ghost function FieldBits(lens: seq<nat>, r: Rep): seq<bool>
    requires |lens| == SMALL && Good(r)
  {
    match r
    case Delta(d) => []
    case Zeros17(run) => BitsOf(4, run - 4)
    case Zeros18(run) => BitsOf(5, run - 20)
    case Same19(run, d) => BitsOf(1, run - 4) + Code(lens, d)
  }

  lemma RepSplit(lens: seq<nat>, r: Rep)
    requires |lens| == SMALL && Good(r)
    ensures Lead(r) < SMALL && RepBits(lens, r) == Code(lens, Lead(r)) + FieldBits(lens, r)
  {
    hide Code, BitsOf;
  }

  lemma FieldOf(lens: seq<nat>, r: Rep)
    requires |lens| == SMALL && Good(r)
    ensures r.Delta? ==> FieldBits(lens, r) == []
    ensures r.Zeros17? ==> FieldBits(lens, r) == BitsOf(4, r.run - 4)
    ensures r.Zeros18? ==> FieldBits(lens, r) == BitsOf(5, r.run - 20)
    ensures r.Same19? ==> r.d < SMALL && FieldBits(lens, r) == BitsOf(1, r.run - 4) + Code(lens, r.d)
  {
    hide Code, BitsOf;
  }

  lemma LeadTells(r: Rep)
    requires Good(r)
    ensures r.Delta? <==> Lead(r) < 17
    ensures r.Zeros17? <==> Lead(r) == 17
    ensures r.Zeros18? <==> Lead(r) == 18
    ensures r.Same19? <==> Lead(r) == 19
    ensures r.Delta? ==> Lead(r) == r.d
    ensures r.Zeros17? ==> 4 <= r.run < 20 && Advance(r) == r.run
    ensures r.Zeros18? ==> 20 <= r.run < 52 && Advance(r) == r.run
    ensures r.Same19? ==> 4 <= r.run < 6 && Advance(r) == r.run
    ensures r.Delta? ==> Advance(r) == 1
  {
  }

  lemma Carried(lens: seq<nat>, cur: seq<nat>, prev: seq<nat>)
    requires Carries(lens, cur, prev)
    ensures |lens| == SMALL && Complete(lens) && IsLengths(lens) && Tables(cur, prev) && |prev| == |cur|
    ensures forall k :: 0 <= k < SMALL ==> lens[k] < 16
    ensures Serves(lens, cur, prev, 0)
  {
    hide Serves, RepAt;
  }

  /** What the sender's choice at entry i says about that entry. */
  lemma StepFacts(cur: seq<nat>, prev: seq<nat>, i: nat)
    requires Tables(cur, prev) && i < |cur|
    ensures |prev| == |cur| && cur[i] <= 16 && prev[i] <= 16
    ensures var r := RepAt(cur, prev, i);
            && Good(r) && i + Advance(r) <= |cur|
            && (r.Zeros17? || r.Zeros18? ==> cur[i] == 0)
            && (r.Same19? || r.Delta? ==>
                  r.d < SMALL && r.d == DeltaOf(prev[i], cur[i]) && Undo(prev[i], r.d) == cur[i])
  {
    hide RunAfter, DeltaOf;
    DeltaInverse(prev[i], cur[i]);
  }

  lemma StepCodes(lens: seq<nat>, cur: seq<nat>, prev: seq<nat>, i: nat)
    requires Tables(cur, prev) && i < |cur| && Serves(lens, cur, prev, i)
    ensures var r := RepAt(cur, prev, i); Used(lens, Lead(r)) && (r.Same19? ==> Used(lens, r.d))
  {
    hide RunAfter, Complete, RepAt, Serves, Used;
    ServesNow(lens, cur, prev, i);
    var r := RepAt(cur, prev, i);
    assert Lead(r) in Symbols(r);
    if r.Same19? {
      assert r.d in Symbols(r);
    }
  }

  lemma ServesNow(lens: seq<nat>, cur: seq<nat>, prev: seq<nat>, i: nat)
    requires Tables(cur, prev) && i < |cur| && Serves(lens, cur, prev, i)
    ensures var r := RepAt(cur, prev, i);
            (forall s :: s in Symbols(r) ==> Used(lens, s)) && Serves(lens, cur, prev, i + Advance(r))
  {
    hide RepAt, Used, Symbols;
  }

  lemma {:induction false} RunCovers(cur: seq<nat>, prev: seq<nat>, i: nat, j: nat)
    requires Tables(cur, prev) && i < |cur| && i <= j < i + Advance(RepAt(cur, prev, i))
    ensures i + Advance(RepAt(cur, prev, i)) <= |cur| && cur[j] == cur[i]
  {
    hide RunAfter, DeltaOf;
    if j > i {
      RunEqual(cur, i, j);
    }
  }

  /** Writing one value into a stretch of the table. */
  method FillLengths(len: array<nat>, at: nat, n: nat, value: nat)
    requires at + n <= len.Length
    modifies len
    ensures forall j :: 0 <= j < len.Length ==> len[j] == if at <= j < at + n then value else old(len[j])
  {
    var i, consecutive := at, n;
    while consecutive > 0
      invariant 0 <= consecutive <= n && i == at + n - consecutive
      invariant forall j :: 0 <= j < len.Length ==> len[j] == if at <= j < i then value else old(len[j])
    {
      len[i] := value;
      i := i + 1;
      consecutive := consecutive - 1;
    }
  }

  lemma Filled(before: seq<nat>, after: seq<nat>, cur: seq<nat>, prev: seq<nat>, from: nat, i: nat)
    requires Tables(cur, prev) && i < |cur| && |before| == |after| && from + |cur| <= |before|
    requires before[from..from + i] == cur[..i] && i + Advance(RepAt(cur, prev, i)) <= |cur|
    requires forall j :: 0 <= j < |before| ==>
                           after[j] == if from + i <= j < from + (i + Advance(RepAt(cur, prev, i))) then cur[i]
                             else before[j]
    ensures var n := i + Advance(RepAt(cur, prev, i)); n <= |cur| && after[from..from + n] == cur[..n]
    ensures after[..from] == before[..from] && after[from + |cur|..] == before[from + |cur|..]
  {
    hide RepAt, RunAfter, Advance;
    var n := i + Advance(RepAt(cur, prev, i));
    forall j | 0 <= j < n ensures after[from + j] == cur[j] {
      if j >= i {
        RunCovers(cur, prev, i, j);
      } else {
        assert before[from..from + i][j] == cur[j];
      }
    }
  }

  lemma TailStep(lens: seq<nat>, cur: seq<nat>, prev: seq<nat>, i: nat)
    requires |lens| == SMALL && Tables(cur, prev) && i < |cur|
    ensures var r := RepAt(cur, prev, i);
            TailBits(lens, cur, prev, i) == RepBits(lens, r) + TailBits(lens, cur, prev, i + Advance(r))
  {
    hide RepAt, RepBits, Advance;
  }

  lemma TailEnd(lens: seq<nat>, cur: seq<nat>, prev: seq<nat>)
    requires |lens| == SMALL && Tables(cur, prev)
    ensures TailBits(lens, cur, prev, |cur|) == []
  {
  }

  /** The table entries arrive. */
  method ReceiveTable(r: BitReader, table: array<int>, lr: array<int>, bitlen: array<nat>, num: nat,
                      lastlen: array<nat>, len: array<nat>, from: nat,
                      ghost w: Wire, ghost lens: seq<nat>, ghost cur: seq<nat>, ghost prev: seq<nat>)
    requires r.At(w) && Finds(table[..], lr[..], 8, lens) && Carries(lens, cur, prev) && lens <= bitlen[..]
    requires num == |cur| && from + num <= lastlen.Length && from + num <= len.Length
             && prev == lastlen[from..from + num]
    requires len != lastlen && len != bitlen && len as object != table && len as object != lr
    requires Extends(r.Frame(), Put(w, TailBits(lens, cur, prev, 0)))
    modifies r, len
    ensures len[from..from + num] == cur && r.At(Put(w, TailBits(lens, cur, prev, 0)))
    ensures len[..from] == old(len[..from]) && len[from + num..] == old(len[from + num..])
  {
    hide *;
    Carried(lens, cur, prev);
    ghost var goal := Put(w, TailBits(lens, cur, prev, 0));
    ghost var at := w;
    var i: nat := 0;
    while i < num
      invariant i <= num && r.At(at) && Put(at, TailBits(lens, cur, prev, i)) == goal && Serves(lens, cur, prev, i)
      invariant len[from..from + i] == cur[..i]
      invariant len[..from] == old(len[..from]) && len[from + num..] == old(len[from + num..])
    {
      ghost var step, before := RepAt(cur, prev, i), len[..];
      TailStep(lens, cur, prev, i);
      ServesNow(lens, cur, prev, i);
      StepFacts(cur, prev, i);
      AdvanceSome(step);
      AtPending(r, at);
      ExtendsFirst(r.Frame(), at, RepBits(lens, step), TailBits(lens, cur, prev, i + Advance(step)));
      assert lastlen[from + i] == prev[i];
      var consecutive, value := ReceiveStep(r, table, lr, bitlen, num, i, lastlen[from + i], at, lens, cur, prev);
      at := Put(at, RepBits(lens, step));
      FillLengths(len, from + i, consecutive, value);
      Filled(before, len[..], cur, prev, from, i);
      i := i + consecutive;
    }
    TailEnd(lens, cur, prev);
    AtPending(r, at);
    PutNothing(at);
  }

  lemma AdvanceSome(r: Rep)
    requires Good(r)
    ensures Advance(r) > 0
  {
  }

  /** read_rep_tree: what write_rep_tree sent against the same previous table comes back. */
  method ReadRepTree(r: BitReader, num: nat, lastlen: array<nat>, len: array<nat>, from: nat,
                     ghost w: Wire, ghost lens: seq<nat>, ghost cur: seq<nat>) returns (ok: bool)
    requires r.At(w) && num == |cur| && from + num <= lastlen.Length && from + num <= len.Length && len != lastlen
    requires Carries(lens, cur, lastlen[from..from + num])
    requires Extends(r.Frame(), Put(w, TreeBits(lens, cur, lastlen[from..from + num])))
    modifies r, len
    ensures ok && r.At(Put(w, TreeBits(lens, cur, old(lastlen[from..from + num]))))
    ensures len[..] == old(len[..from]) + cur + old(len[from + num..])
  {
    hide *;
    ghost var prev := lastlen[from..from + num];
    Carried(lens, cur, prev);
    SmallSize();
    var bitlen := new nat[24](i => 0);
    var table := new int[256](i => 0);
    var lr := new int[578](i => 0);
    AtPending(r, w);
    TreeSplit(lens, cur, prev);
    ExtendsFirst(r.Frame(), w, Fields(4, lens, 0), TailBits(lens, cur, prev, 0));
    FieldWidths();
    ReceiveFields(r, 4, bitlen, 20, w, lens);
    Pow2Values();
    ok := MakeTable(20, bitlen, 8, table, lr);
    ReceiveTable(r, table, lr, bitlen, num, lastlen, len, from, Put(w, Fields(4, lens, 0)), lens, cur, prev);
  }

  lemma TreeSplit(lens: seq<nat>, cur: seq<nat>, prev: seq<nat>)
    requires |lens| == SMALL && Tables(cur, prev)
    ensures TreeBits(lens, cur, prev) == Fields(4, lens, 0) + TailBits(lens, cur, prev, 0)
  {
  }
}
