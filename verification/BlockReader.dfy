/** The decoder: block headers, code tables, tokens and raw bytes of a frame, read into the window. */
module BlockReader {
  import opened Bits
  import opened BitStream
  import opened Canonical
  import D = DecodeTable
  import opened SymbolReader
  import opened Slots
  import opened Tokens
  import opened RepTree
  import opened Stream
  import opened Frames
  import opened Window

  /** The reader stands where the script says: in its bit buffer, or between bytes. */
  ghost predicate Located(r: BitReader, s: State, w: Wire)
    reads r
  {
    if s.kind == Uncompressed then r.Valid() && w.pend == [] && r.curpos == |w.out| && Extends(r.Frame(), w)
    else r.At(w)
  }

  /** What is left of a frame, with the reader where the items start. */
  ghost predicate Remaining(r: BitReader, s: State, its: seq<Item>, w: Wire)
    reads r
  {
    Located(r, s, w) && Script(r.Frame(), s, its, w)
  }

  lemma RemainingParts(r: BitReader, s: State, its: seq<Item>, w: Wire)
    requires Remaining(r, s, its, w)
    ensures Located(r, s, w) && r.Valid() && 4 <= r.end < |r.input| && Script(r.Frame(), s, its, w) && LegalAll(s, its)
    ensures s.kind != Uncompressed ==> r.At(w)
  {
    hide LegalAll, Extends, EmitAll, WireOk;
  }

  lemma RemainingAt(r: BitReader, s: State, its: seq<Item>, w: Wire)
    requires r.At(w) && s.kind != Uncompressed && Script(r.Frame(), s, its, w)
    ensures Remaining(r, s, its, w)
  {
    hide LegalAll, Extends, EmitAll, WireOk;
  }

  /** How far the open block goes within these items. */
  ghost function Span(s: State, its: seq<Item>): nat
    requires LegalAll(s, its)
  {
    Min(s.left, Total(s, its))
  }

  /** Inside a block the next item is one of its own. */
  lemma SpanStep(s: State, its: seq<Item>)
    requires LegalAll(s, its) && Span(s, its) > 0
    ensures its != [] && Legal(s, its[0]) && LegalAll(Next(s, its[0]), its[1..])
    ensures s.kind == Uncompressed ==> its[0].Raw? && Span(Next(s, its[0]), its[1..]) == Span(s, its) - 1
    ensures s.kind == Verbatim || s.kind == Aligned ==> its[0].Coded?
    ensures its[0].Coded? ==> Width(its[0].t) <= Span(s, its)
                              && Span(Next(s, its[0]), its[1..]) == Span(s, its) - Width(its[0].t)
    ensures its[0].Raw? || its[0].Coded? || its[0].Group?
    ensures Run(s, its) == Run(Next(s, its[0]), its[1..])
  {
    hide Play, Fits, Served, GoodTrees, GoodAligned, Complete;
    RunGrows(Next(s, its[0]), its[1..]);
  }

  /** There is input left where something is still to be read. */
  lemma NotAtEnd(f: seq<byte>, w: Wire, bits: seq<bool>)
    requires |w.pend| < 16 && Extends(f, Put(w, bits)) && bits != []
    ensures |w.out| < |f|
  {
    hide Put, WordBits;
    ExtendsBack(f, w, bits);
    WordBitsLength(f[|w.out|..]);
  }

  lemma CodeNotEmpty(lens: seq<nat>, s: nat)
    requires Used(lens, s)
    ensures Code(lens, s) != []
  {
    hide CodeNumber, BitsOf;
  }

  /** From s and its, n bytes further into the same block. */
  ghost predicate Further(s: State, its: seq<Item>, s': State, its': seq<Item>, n: int) {
    && LegalAll(s, its) && LegalAll(s', its') && Run(s', its') == Run(s, its)
    && s'.kind == s.kind && s'.codes == s.codes && s'.odd == s.odd && s'.first == s.first && s'.fileSize == s.fileSize
    && Span(s', its') == Span(s, its) - n && s'.left == s.left - n
    && |s'.past.hist| == |s.past.hist| + n
  }

  lemma FurtherNone(s: State, its: seq<Item>)
    requires LegalAll(s, its)
    ensures Further(s, its, s, its, 0)
  {
  }

  lemma FurtherCoded(s: State, its: seq<Item>, s': State, its': seq<Item>, n: int)
    requires Further(s, its, s', its', n) && its' != [] && its'[0].Coded?
    ensures Legal(s', its'[0]) && Further(s, its, Next(s', its'[0]), its'[1..], n + Width(its'[0].t))
  {
    hide Play, Fits, Served, Complete;
    RunGrows(Next(s', its'[0]), its'[1..]);
  }

  lemma FurtherTrans(s: State, its: seq<Item>, s': State, its': seq<Item>, n: int, s'': State, its'': seq<Item>, m: int)
    requires Further(s, its, s', its', n) && Further(s', its', s'', its'', m)
    ensures Further(s, its, s'', its'', n + m)
  {
    hide LegalAll, Run, Span;
  }

  lemma FurtherParts(s: State, its: seq<Item>, s': State, its': seq<Item>, n: int)
    requires Further(s, its, s', its', n)
    ensures LegalAll(s, its) && LegalAll(s', its') && s'.kind == s.kind && Span(s', its') == Span(s, its) - n
    ensures s'.codes == s.codes
  {
    hide LegalAll, Span;
  }

  /** The next token of a block, and what is left after it. */
  lemma NextToken(f: seq<byte>, s: State, its: seq<Item>, w: Wire) returns (t: Token, v: Wire)
    requires Script(f, s, its, w) && (s.kind == Verbatim || s.kind == Aligned) && Span(s, its) > 0
    ensures its != [] && its[0] == Coded(t) && Legal(s, Coded(t)) && Shaped(s.codes) && Plain(t) && Fits(s.past, t)
    ensures Width(t) <= Span(s, its) && v == Put(w, TokenBits(s.codes, s.kind == Aligned, t)) && Extends(f, v)
    ensures Script(f, Next(s, its[0]), its[1..], v)
    ensures Next(s, its[0]).past == Play(s.past, t)
  {
    hide Put, TokenBits, Play, Fits, Served, LegalAll, Run, EmitAll, Extends, Span, Complete, WireOk;
    SpanStep(s, its);
    FirstItem(f, s, its, w);
    t := its[0].t;
    v := Emit(s, its[0], w);
  }

  lemma FurtherRaw(s: State, its: seq<Item>, s': State, its': seq<Item>, n: int)
    requires Further(s, its, s', its', n) && its' != [] && its'[0].Raw?
    ensures Legal(s', its'[0]) && Further(s, its, Next(s', its'[0]), its'[1..], n + 1)
  {
    hide Complete;
    RunGrows(Next(s', its'[0]), its'[1..]);
  }

  /** The next byte of an uncompressed block. */
  lemma NextByte(f: seq<byte>, s: State, its: seq<Item>, w: Wire) returns (b: byte, v: Wire)
    requires Script(f, s, its, w) && s.kind == Uncompressed && Span(s, its) > 0
    ensures its != [] && its[0] == Raw(b) && Legal(s, Raw(b)) && v == Wire(w.out + [b], [])
    ensures |w.out| < |f| && f[|w.out|] == b && Script(f, Next(s, its[0]), its[1..], v)
    ensures Next(s, its[0]).past == Past(s.past.hist + [b], s.past.queue)
  {
    hide LegalAll, Run, EmitAll, Span;
    SpanStep(s, its);
    FirstItem(f, s, its, w);
    b := its[0].b;
    v := Wire(w.out + [b], []);
    ExtendsRaw(f, w, [b]);
    assert f[|w.out|..|w.out| + 1][0] == b;
  }

  lemma LocatedParts(r: BitReader, s: State, w: Wire)
    requires Located(r, s, w) && s.kind == Uncompressed
    ensures r.Valid() && !r.error && w.pend == [] && r.curpos == |w.out| && Extends(r.Frame(), w)
  {
  }

  lemma RawLocated(r: BitReader, s: State, its: seq<Item>, w: Wire)
    requires 4 <= r.end < |r.input| && Script(r.Frame(), s, its, w) && !r.error && r.curpos == |w.out|
             && s.kind == Uncompressed && w.pend == []
    ensures Remaining(r, s, its, w)
  {
    hide LegalAll, EmitAll;
    EmitAllBack(r.Frame(), s, its, w);
  }

  lemma FurtherFields(s: State, its: seq<Item>, s': State, its': seq<Item>, n: int)
    requires Further(s, its, s', its', n)
    ensures LegalAll(s, its) && LegalAll(s', its') && Run(s', its') == Run(s, its)
    ensures s'.kind == s.kind && s'.odd == s.odd && s'.first == s.first && s'.fileSize == s.fileSize
            && s'.left == s.left - n
    ensures Total(s', its') == Total(s, its) - n
  {
    hide LegalAll, Run;
    RunGrows(s, its);
    RunGrows(s', its');
  }

  lemma SpanIs(s: State, its: seq<Item>)
    requires LegalAll(s, its)
    ensures Span(s, its) == Min(s.left, Total(s, its))
  {
    hide LegalAll, Total;
  }

  lemma KindOpen(f: seq<byte>, s: State, its: seq<Item>, w: Wire)
    requires Script(f, s, its, w) && s.left > 0 && Total(s, its) > 0
    ensures s.kind != Closed
  {
    hide EmitAll, Extends, Run;
    SpanStep(s, its);
  }

  lemma TotalSame(s: State, its: seq<Item>, s': State, its': seq<Item>)
    requires LegalAll(s, its) && LegalAll(s', its') && Run(s', its') == Run(s, its) && s'.past.hist == s.past.hist
    ensures Total(s', its') == Total(s, its)
  {
    hide LegalAll, Run;
  }

  lemma TotalIs(s: State, its: seq<Item>)
    requires LegalAll(s, its)
    ensures |Run(s, its).past.hist| == |s.past.hist| + Total(s, its)
  {
    hide LegalAll, Run;
    RunGrows(s, its);
  }

  lemma RunNone(s: State)
    ensures LegalAll(s, []) && Run(s, []) == s
  {
  }

  /** When a frame has brought all its bytes nothing of it is left. */
  lemma NothingLeft(f: seq<byte>, s: State, its: seq<Item>, w: Wire)
    requires Script(f, s, its, w) && Total(s, its) == 0
    ensures its == []
  {
    hide LegalAll, Run, Extends, EmitAll, WireOk, Total;
    if its != [] {
      LastBrings(s, its);
    }
  }

  lemma {:induction false} LastBrings(s: State, its: seq<Item>)
    requires LegalAll(s, its) && its != [] && EndsInData(its)
    ensures Total(s, its) > 0
    decreases |its|
  {
    hide Play, Fits, Served, GoodOpen;
    NextGrows(s, its[0]);
    RunGrows(Next(s, its[0]), its[1..]);
    if |its| > 1 {
      LastBrings(Next(s, its[0]), its[1..]);
    }
  }

  lemma PlayParts(p: Past, t: Token)
    requires Fits(p, t)
    ensures t.Literal? ==> Play(p, t) == Past(p.hist + [t.b], p.queue)
    ensures t.Match? ==> var off := Offset(p.queue, t.dist);
                         1 <= off <= |p.hist| && off <= Slots.WINDOW && 2 <= t.len <= 257
                         && Play(p, t) == Past(Copy(p.hist, off, t.len), Renew(p.queue, t.dist))
  {
    hide Copy, Offset, Renew;
  }

  class Decoder {
    const window: RingWindow
    const mainLen: array<nat>
    const mainPrev: array<nat>
    const secLen: array<nat>
    const secPrev: array<nat>
    const alLen: array<nat>
    const mainTable: array<int>
    const mainLR: array<int>
    const secTable: array<int>
    const secLR: array<int>
    const alTable: array<int>
    const noLR: array<int>
    var queue: Queue
    var blockType: Kind
    var blockSize: nat
    var originalSize: nat
    var newBlock: bool
    var firstTime: bool
    var fileSize: nat

    /** The arrays are apart: all but two pairs by their lengths. */
    ghost predicate Layout() {
      && mainLen.Length == 700 && mainPrev.Length == 700 && secLen.Length == 249 && secPrev.Length == 249
         && alLen.Length == 8
      && mainTable.Length == 1024 && mainLR.Length == 2800 && secTable.Length == 256 && secLR.Length == 996
      && alTable.Length == 128 && noLR.Length == 0 && window.win.Length == 131333
      && mainLen != mainPrev && secLen != secPrev
    }

    ghost predicate Tables(s: State)
      reads mainLen, secLen, alLen, mainTable, mainLR, secTable, secLR, alTable
    {
      && Layout() && Shaped(s.codes) && mainLen[..MAIN] == s.codes.main && secLen[..] == s.codes.sec
      && (s.kind == Aligned ==> alLen[..] == s.codes.al && D.Finds(alTable[..], [], 7, s.codes.al))
      && (s.kind == Aligned || s.kind == Verbatim ==>
            && D.Finds(mainTable[..], mainLR[..], 10, s.codes.main)
            && (Complete(s.codes.sec) ==> D.Finds(secTable[..], secLR[..], 8, s.codes.sec)))
    }

    ghost predicate HeaderIs(s: State)
      reads this
    {
      && blockType == s.kind && blockSize == s.left && newBlock == (s.left == 0) && firstTime == s.first
         && fileSize == s.fileSize
      && (s.kind == Uncompressed ==> (originalSize % 2 == 1) == s.odd)
    }

    ghost predicate Output(s: State)
      reads this`queue, window, window.win
    {
      window.Valid() && window.hist == s.past.hist && queue == s.past.queue
    }

    /** The decoder's state is s. */
    ghost predicate Is(s: State)
      reads this, window, window.win, mainLen, secLen, alLen, mainTable, mainLR, secTable, secLR, alTable
    {
      Tables(s) && HeaderIs(s) && Output(s)
    }

    /** decode_init. */
    constructor ()
      ensures Is(FIRST) && window.pos == 0 && fresh(window) && fresh(window.win) && fresh(mainLen) && fresh(mainPrev)
              && fresh(secLen)
      ensures fresh(secPrev) && fresh(alLen) && fresh(mainTable) && fresh(mainLR) && fresh(secTable) && fresh(secLR)
              && fresh(alTable)
    {
      window := new RingWindow();
      mainLen := new nat[700](i => 0);
      mainPrev := new nat[700](i => 0);
      secLen := new nat[249](i => 0);
      secPrev := new nat[249](i => 0);
      alLen := new nat[8];
      mainTable := new int[1024];
      mainLR := new int[2800];
      secTable := new int[256];
      secLR := new int[996];
      alTable := new int[128];
      noLR := new int[0];
      queue, blockType, blockSize, originalSize := FIRST_QUEUE, Closed, 0, 0;
      newBlock, firstTime, fileSize := true, true, 0;
      new;
      assert mainLen[..MAIN] == NO_CODES.main && secLen[..] == NO_CODES.sec;
    }

    /** A long length follows in a tree of its own. */
    method ReadLength(r: BitReader, header: nat, ghost s: State, ghost w: Wire, ghost t: Token) returns (len: nat)
      requires Tables(s) && (s.kind == Verbatim || s.kind == Aligned) && Plain(t) && t.Match?
               && header == Min(t.len - 2, 7)
      requires Served(s.codes, s.kind == Aligned, t) && r.At(w) && Extends(r.Frame(), Put(w, LengthBits(s.codes, t)))
      modifies r
      ensures len + 2 == t.len && r.At(Put(w, LengthBits(s.codes, t)))
    {
      hide D.Finds, Code, Put, Extends, Complete, Used, MainSymbol, LowBitsApart, Holds, BitStream.Ahead;
      len := header;
      if header == 7 {
        CompleteLengths(s.codes.sec);
        var j := DecodeSymbol(r, secTable, secLR, 8, secLen, w, s.codes.sec, t.len - 9);
        len := j + 7;
      } else {
        PutNothing(w);
      }
    }

    /** The extra bits of a new offset, in an aligned block with its low three bits from a tree. */
    method ReadExtra(r: BitReader, slot: nat, aligned: bool, ghost s: State, ghost w: Wire, ghost dist: nat)
      returns (pos: int)
      requires Tables(s) && aligned == (s.kind == Aligned) && (s.kind == Verbatim || s.kind == Aligned)
      requires 3 <= dist < Slots.WINDOW && slot == SlotOf(dist)
      requires LowBitsApart(aligned, dist) ==> Used(s.codes.al, dist % 8) && Complete(s.codes.al)
      requires r.At(w) && Extends(r.Frame(), Put(w, OffsetBits(s.codes, aligned, dist)))
      modifies r
      ensures pos == dist - 2 && r.At(Put(w, OffsetBits(s.codes, aligned, dist)))
    {
      hide D.Finds, Code, Put, Extends, Complete, Used, Pow2, BitsOf, Base, Extra, Mask, EXTRA_BITS, MATCH_POS_MINUS2,
           SLOT_MASK, Holds, BitStream.Ahead;
      WindowSlots(dist);
      SlotTables(slot);
      ExtraBits(dist);
      var extra := EXTRA_BITS[slot];
      if aligned && extra >= 3 {
        AlignedParts(dist);
        ghost var high, low := Mask(dist / 8, extra - 3), Code(s.codes.al, dist % 8);
        ghost var bits := BitsOf(extra - 3, high);
        ExtendsFirst(r.Frame(), w, bits, low);
        var temp := 0;
        if extra - 3 > 0 {
          temp := r.GetBits(extra - 3, w, high);
        } else {
          NoBits(high);
          NoBits(dist / 8);
          PutNothing(w);
        }
        pos := MATCH_POS_MINUS2[slot] + 8 * temp;
        CompleteLengths(s.codes.al);
        assert noLR[..] == [];
        var j := DecodeSymbol(r, alTable, noLR, 7, alLen, Put(w, bits), s.codes.al, dist % 8);
        pos := pos + j;
      } else if extra > 0 {
        var temp := r.GetBits(extra, w, Mask(dist, extra));
        pos := temp + MATCH_POS_MINUS2[slot];
      } else {
        NoBits(Mask(dist, 0));
        PutNothing(w);
        ThreeOnly(dist);
        pos := 1;
      }
    }

    /** One token: a literal, or the length and offset of a match. */
    method ReadToken(r: BitReader, aligned: bool, ghost s: State, ghost w: Wire, ghost t: Token)
      returns (literal: bool, c: byte, len: nat, off: int)
      requires Tables(s) && queue == s.past.queue && aligned == (s.kind == Aligned) && Legal(s, Coded(t))
      requires r.At(w) && Extends(r.Frame(), Put(w, TokenBits(s.codes, aligned, t)))
      modifies r, this`queue
      ensures r.At(Put(w, TokenBits(s.codes, aligned, t)))
      ensures literal == t.Literal? && (literal ==> t == Literal(c) && queue == old(queue))
      ensures !literal ==> len == t.len && off == Offset(s.past.queue, t.dist) && queue == Renew(s.past.queue, t.dist)
    {
      hide D.Finds, Code, Put, Extends, Complete, Used, MainSymbol, LengthBits, OffsetBits, Play, Holds,
           BitStream.Ahead, Min;
      ghost var main := Code(s.codes.main, MainSymbol(t));
      ghost var tail := LengthBits(s.codes, t) + if t.Match? then OffsetBits(s.codes, aligned, t.dist) else [];
      ExtendsFirst(r.Frame(), w, main, tail);
      CodeNotEmpty(s.codes.main, MainSymbol(t));
      NotAtEnd(r.Frame(), w, main);
      // The macro's check for the end of input does not fire.
      assert r.curpos < r.end;
      CompleteLengths(s.codes.main);
      var symbol := DecodeSymbol(r, mainTable, mainLR, 10, mainLen, w, s.codes.main, MainSymbol(t));
      ghost var v := Put(w, main);
      SymbolParts(t);
      literal, c, len, off := symbol < 256, 0, 0, 0;
      if literal {
        c := symbol as byte;
        NoLength(s.codes, t);
        assert tail == [];
        PutNothing(v);
      } else {
        ghost var lb, ob := LengthBits(s.codes, t), OffsetBits(s.codes, aligned, t.dist);
        ExtendsFirst(r.Frame(), v, lb, ob);
        len := ReadLength(r, (symbol - 256) % 8, s, v, t);
        len := len + 2;
        off := ReadOffset(r, (symbol - 256) / 8, aligned, s, Put(v, lb), t);
        PutConcat(v, lb, ob);
      }
    }

    /** The offset of a match from its slot, and the queue after it. */
    method ReadOffset(r: BitReader, m: nat, aligned: bool, ghost s: State, ghost w: Wire, ghost t: Token)
      returns (off: int)
      requires Tables(s) && queue == s.past.queue && aligned == (s.kind == Aligned) && Legal(s, Coded(t)) && t.Match?
      requires m == SlotOf(t.dist) && r.At(w) && Extends(r.Frame(), Put(w, OffsetBits(s.codes, aligned, t.dist)))
      modifies r, this`queue
      ensures r.At(Put(w, OffsetBits(s.codes, aligned, t.dist)))
      ensures off == Offset(s.past.queue, t.dist) && queue == Renew(s.past.queue, t.dist)
    {
      hide D.Finds, Code, Put, Extends, Complete, Used, MainSymbol, OffsetBits, LowBitsApart, Play, Holds,
           BitStream.Ahead;
      WindowSlots(t.dist);
      if m > 2 {
        off := ReadExtra(r, m, aligned, s, w, t.dist);
        queue := Queue(off, queue.r0, queue.r1);
      } else {
        RepeatBits(s.codes, aligned, t.dist);
        PutNothing(w);
        if m == 0 {
          off := queue.r0;
        } else if m == 1 {
          off := queue.r1;
          queue := Queue(off, queue.r0, queue.r2);
        } else {
          off := queue.r2;
          queue := Queue(off, queue.r1, queue.r0);
        }
      }
    }

    /** The tables of a coded block: the previous lengths are kept, the new ones read against them,
        and the lookup tables built (read_main_and_secondary_trees). */
    method ReadTrees(r: BitReader, ghost prev: Codes, ghost codes: Codes, ghost small: Small, ghost w: Wire)
      returns (ok: bool)
      requires Layout() && Shaped(prev) && mainLen[..MAIN] == prev.main && secLen[..] == prev.sec
               && GoodTrees(prev, codes, small)
      requires r.At(w) && Extends(r.Frame(), Put(w, TreesBits(prev, codes, small)))
      modifies r, mainLen, mainPrev, secLen, secPrev, mainTable, mainLR, secTable, secLR
      ensures ok && Shaped(codes) && mainLen[..MAIN] == codes.main && secLen[..] == codes.sec
      ensures r.At(Put(w, TreesBits(prev, codes, small)))
      ensures D.Finds(mainTable[..], mainLR[..], 10, codes.main)
      ensures Complete(codes.sec) ==> D.Finds(secTable[..], secLR[..], 8, codes.sec)
    {
      hide *;
      LayoutParts();
      TreeParts(prev, codes, small);
      ghost var a := TreeBits(small.a, codes.main[..256], prev.main[..256]);
      ghost var b := TreeBits(small.b, codes.main[256..], prev.main[256..]);
      ghost var c := TreeBits(small.c, codes.sec, prev.sec);
      ghost var w1, w2 := Put(w, a), Put(Put(w, a), b);
      AtPending(r, w);
      ExtendsFirst(r.Frame(), w, a, b + c);
      ExtendsFirst(r.Frame(), w1, b, c);
      CopyLengths(mainLen, mainPrev, 0, 528);
      CopyLengths(secLen, secPrev, 0, 249);
      assert mainPrev[0..256] == prev.main[..256] && mainPrev[256..256 + 272] == prev.main[256..];
      assert secPrev[0..249] == prev.sec;
      ok := ReadRepTree(r, 256, mainPrev, mainLen, 0, w, small.a, codes.main[..256]);
      ghost var first := mainLen[..];
      assert first[..256] == codes.main[..256];
      ok := ReadRepTree(r, 272, mainPrev, mainLen, 256, w1, small.b, codes.main[256..]);
      assert mainLen[..528] == first[..256] + codes.main[256..] == codes.main;
      CompleteLengths(codes.main);
      Pow2Values();
      TablePowers();
      ok := D.MakeTable(528, mainLen, 10, mainTable, mainLR);
      assert mainLen[..528] == codes.main;
      ok := ReadRepTree(r, 249, secPrev, secLen, 0, w2, small.c, codes.sec);
      assert secLen[..249] == secLen[..] == codes.sec;
      OptionalTable(codes.sec);
      ok := D.MakeTable(249, secLen, 8, secTable, secLR);
    }

    lemma LayoutParts()
      requires Layout()
      ensures mainLen.Length == 700 && mainPrev.Length == 700 && secLen.Length == 249 && secPrev.Length == 249
              && alLen.Length == 8
      ensures mainTable.Length == 1024 && mainLR.Length == 2800 && secTable.Length == 256 && secLR.Length == 996
      ensures alTable.Length == 128 && noLR.Length == 0 && window.win.Length == 131333
      ensures mainLen != mainPrev && secLen != secPrev
              && mainLen as object !in {mainTable as object, mainLR, secTable, secLR}
      ensures secLen as object !in {mainTable as object, mainLR, secTable, secLR, mainLen, mainPrev}
      ensures mainTable as object !in {mainLR as object, secTable, secLR, secPrev, secLen}
      ensures mainLR as object !in {secTable as object, secLR, secPrev, secLen} && secTable != secLR
    {
    }

    /** The translation header of a group: whether calls are translated, and for what file size. */
    method ReadGroup(r: BitReader, ghost w: Wire, ghost n: nat)
      requires r.At(w) && n < WORD32 && Extends(r.Frame(), Put(w, GroupBits(n)))
      modifies r, this`firstTime, this`fileSize
      ensures r.At(Put(w, GroupBits(n))) && !firstTime && fileSize == n
    {
      hide *;
      firstTime := false;
      GroupParts(n);
      AtPending(r, w);
      if n != 0 {
        ExtendsFirst(r.Frame(), w, BitsOf(1, 1), BitsOf(16, n / 65536) + BitsOf(16, n % 65536));
      }
      var translate := r.GetBits(1, w, if n == 0 then 0 else 1);
      if translate != 0 {
        ghost var v := Put(w, BitsOf(1, 1));
        ExtendsFirst(r.Frame(), v, BitsOf(16, n / 65536), BitsOf(16, n % 65536));
        var high := r.GetBits(16, v, n / 65536);
        var low := r.GetBits(16, Put(v, BitsOf(16, n / 65536)), n % 65536);
        fileSize := high * 65536 + low;
      } else {
        fileSize := 0;
      }
    }

    /** The type and size of a block: 001 is verbatim, 010 aligned and 011 uncompressed, and 24 bits of size follow. */
    method ReadHead(r: BitReader, ghost w: Wire, ghost head: seq<bool>, ghost size: nat)
      returns (kind: Kind, value: nat)
      requires r.At(w) && size < Pow2(24) && Extends(r.Frame(), Put(w, head + BitsOf(24, size)))
      requires head == [false, false, true] || head == [false, true, false] || head == [false, true, true]
      modifies r
      ensures head == [false, false, true] ==> kind == Verbatim
      ensures head == [false, true, false] ==> kind == Aligned
      ensures head == [false, true, true] ==> kind == Uncompressed
      ensures value == size && r.At(Put(w, head + BitsOf(24, size)))
    {
      hide *;
      ghost var was := HeadCode(head, size);
      HeadParts(was, size);
      AtPending(r, w);
      ghost var k, a, b, c :=
        BitsOf(3, TypeCode(was)), BitsOf(8, size / 65536 % 256), BitsOf(8, size / 256 % 256), BitsOf(8, size % 256);
      ExtendsFirst(r.Frame(), w, k, a + (b + c));
      var code := r.GetBits(3, w, TypeCode(was));
      ghost var v := Put(w, k);
      ExtendsFirst(r.Frame(), v, a, b + c);
      var temp1 := r.GetBits(8, v, size / 65536 % 256);
      v := Put(v, a);
      ExtendsFirst(r.Frame(), v, b, c);
      var temp2 := r.GetBits(8, v, size / 256 % 256);
      v := Put(v, b);
      var temp3 := r.GetBits(8, v, size % 256);
      KindCodes(was);
      kind := KindOf(code);
      value := temp1 * 65536 + temp2 * 256 + temp3;
    }

    /** The type that was written, and the size. */
    method ReadKind(r: BitReader, ghost w: Wire, ghost was: Kind, ghost size: nat) returns (kind: Kind, value: nat)
      requires r.At(w) && size < Pow2(24) && was != Closed && Extends(r.Frame(), Put(w, HeadBits(was, size)))
      modifies r
      ensures kind == was && value == size && r.At(Put(w, HeadBits(was, size)))
    {
      hide *;
      HeadBitsAre(was, size);
      kind, value := ReadHead(r, w, KindBits(was), size);
    }

    /** The start of an uncompressed block: the reader steps back to the byte after the padding and
        takes the queue from the bytes there. */
    method ReadQueue(r: BitReader, ghost w: Wire, ghost q: Queue)
      requires r.At(w) && GoodQueue(q) && |w.pend| < 16 && Extends(r.Frame(), AfterQueue(q, w))
      modifies r, this`queue
      ensures queue == q && r.Valid() && r.curpos == |AfterQueue(q, w).out|
    {
      hide *;
      AtParts(r, w);
      QueueParts(r.Frame(), w, q);
      r.FrameIs();
      r.curpos := r.curpos - 2;
      // The check for the end of input does not fire.
      assert r.curpos + 4 < r.end;
      var p := r.curpos;
      ghost var bytes := r.Frame()[p..p + 12];
      assert forall i :: 0 <= i < 12 ==> r.input[p + i] == bytes[i];
      QueueWords(q, bytes);
      queue := Queue(Word32(r.input[p], r.input[p + 1], r.input[p + 2], r.input[p + 3]),
                     Word32(r.input[p + 4], r.input[p + 5], r.input[p + 6], r.input[p + 7]),
                     Word32(r.input[p + 8], r.input[p + 9], r.input[p + 10], r.input[p + 11]));
      r.curpos := r.curpos + 12;
      StillValid(r);
    }

    /** read_aligned_offset_tree. */
    method ReadAlignedTree(r: BitReader, ghost w: Wire, ghost al: seq<nat>) returns (ok: bool)
      requires Layout() && GoodAligned(al) && r.At(w) && Extends(r.Frame(), Put(w, Fields(3, al, 0)))
      modifies r, alLen, alTable
      ensures ok && alLen[..] == al && D.Finds(alTable[..], [], 7, al) && r.At(Put(w, Fields(3, al, 0)))
    {
      hide *;
      LayoutParts();
      AlignedTreeParts(al);
      ReceiveFields(r, 3, alLen, 8, w, al);
      assert alLen[..8] == alLen[..];
      ok := D.MakeTable8(alLen, alTable);
      assert alLen[..] == al;
    }

    /** After an uncompressed block the byte that follows an odd one is skipped and the bit buffer
        filled again. */
    method ResumeBits(r: BitReader, ghost s: State, ghost w: Wire, ghost p: Wire)
      requires Located(r, s, w) && 4 <= r.end < |r.input| && p == Padded(s, w) && |p.pend| < 16 && Extends(r.Frame(), p)
      requires blockType == s.kind && (s.kind == Uncompressed ==> (originalSize % 2 == 1) == s.odd)
      modifies r, this`blockType
      ensures r.At(p)
    {
      hide *;
      if blockType == Uncompressed {
        LocatedParts(r, s, w);
        PadParts(r.Frame(), s, w, p);
        r.FrameIs();
        if originalSize % 2 == 1 {
          if r.curpos < r.end {
            r.curpos := r.curpos + 1;
          }
        }
        blockType := Closed;
        StillValid(r);
        assert r.input[..r.curpos] == p.out by { assert r.Frame()[..|p.out|] == p.out; }
        r.InitBitbuf();
      } else {
        RemainingKind(r, s, w);
        PadNone(s, w);
      }
    }

    /** What follows a block's header: its tables, or the queue of an uncompressed block. */
    method ReadBlockStart(r: BitReader, ghost s: State, ghost it: Item, ghost w: Wire, ghost h: Wire)
      requires it.Open? && Legal(s, it) && WireOk(s, w) && r.At(h) && Extends(r.Frame(), Emit(s, it, w))
      requires |h.pend| < 16 && |Padded(s, w).pend| < 16 && h == Put(Padded(s, w), HeadBits(it.kind, it.size))
      requires Layout() && Shaped(s.codes) && mainLen[..MAIN] == s.codes.main && secLen[..] == s.codes.sec
      requires queue == s.past.queue && blockType == it.kind
      modifies r, this`queue, mainLen, mainPrev, secLen, secPrev, alLen, mainTable, mainLR, secTable, secLR, alTable
      ensures Tables(Next(s, it)) && queue == Next(s, it).past.queue && Located(r, Next(s, it), Emit(s, it, w))
    {
      hide *;
      LayoutParts();
      AtParts(r, h);
      OpenParts(r.Frame(), s, it, w, h);
      OpenNext(s, it);
      if blockType == Uncompressed {
        ReadQueue(r, h, it.queue);
        UncompressedLocated(r, Next(s, it), Emit(s, it, w));
      } else {
        ghost var v := h;
        if blockType == Aligned {
          var ok := ReadAlignedTree(r, h, it.codes.al);
          v := Put(h, Fields(3, it.codes.al, 0));
        }
        var ok := ReadTrees(r, s.codes, it.codes, it.small, v);
        AtLocated(r, Next(s, it), Emit(s, it, w));
      }
      OpenTables(s, it);
    }

    /** The first thing in a group is its translation header. */
    method BeginGroup(r: BitReader, ghost s: State, ghost its: seq<Item>, ghost w: Wire)
      returns (ghost s': State, ghost its': seq<Item>, ghost w': Wire)
      requires Is(s) && s.left == 0 && Remaining(r, s, its, w) && Total(s, its) > 0
      modifies r, this`firstTime, this`fileSize
      ensures Is(s') && Remaining(r, s', its', w') && s'.past == s.past && s'.left == 0 && !s'.first
      ensures Run(s', its') == Run(s, its) && Total(s', its') == Total(s, its)
    {
      hide *;
      s', its', w' := s, its, w;
      IsParts(s);
      RemainingParts(r, s, its, w);
      OutputParts(s);
      if firstTime {
        ghost var n;
        n, s', w' := NextGroup(r.Frame(), s, its, w);
        its' := its[1..];
        RemainingKind(r, s, w);
        ReadGroup(r, w, n);
        AtLocated(r, s', w');
        RemainingMake(r, s', its', w');
        OutputMake(s');
        HeaderMake(s');
        TablesSame(s, s');
        IsMake(s');
      }
    }

    /** A block header, from the wire position before it to the one after it. */
    method ReadBlock(r: BitReader, ghost s: State, ghost it: Item, ghost w: Wire)
      requires it.Open? && Legal(s, it) && WireOk(s, w) && Located(r, s, w) && 4 <= r.end < |r.input|
      requires Extends(r.Frame(), Emit(s, it, w)) && it.size < Pow2(24)
      requires |Padded(s, w).pend| < 16 && Extends(r.Frame(), Padded(s, w))
      requires Extends(r.Frame(), Put(Padded(s, w), HeadBits(it.kind, it.size)))
      requires Layout() && Shaped(s.codes) && mainLen[..MAIN] == s.codes.main && secLen[..] == s.codes.sec
      requires queue == s.past.queue && blockType == s.kind
               && (s.kind == Uncompressed ==> (originalSize % 2 == 1) == s.odd)
      modifies r, this`queue, this`blockType, this`originalSize, this`blockSize, this`newBlock
      modifies mainLen, mainPrev, secLen, secPrev, alLen, mainTable, mainLR, secTable, secLR, alTable
      ensures Tables(Next(s, it)) && queue == Next(s, it).past.queue && Located(r, Next(s, it), Emit(s, it, w))
      ensures blockType == it.kind && originalSize == blockSize == it.size && !newBlock
    {
      hide *;
      LayoutParts();
      ghost var p := Padded(s, w);
      ResumeBits(r, s, w, p);
      ghost var h := Put(p, HeadBits(it.kind, it.size));
      OpenKind(s, it);
      var kind, size := ReadKind(r, p, it.kind, it.size);
      AtPending(r, h);
      blockType, originalSize, blockSize := kind, size, size;
      ReadBlockStart(r, s, it, w, h);
      newBlock := false;
    }

    /** The start of decode_data's loop at a block boundary: the group header when there is one, the
        byte after an odd uncompressed block, and the header and tables of the next block. */
    method OpenBlock(r: BitReader, ghost s0: State, ghost its0: seq<Item>, ghost w0: Wire)
      returns (ghost s': State, ghost its': seq<Item>, ghost w': Wire)
      requires Is(s0) && s0.left == 0 && Remaining(r, s0, its0, w0) && Total(s0, its0) > 0
      modifies r, this, mainLen, mainPrev, secLen, secPrev, alLen, mainTable, mainLR, secTable, secLR, alTable
      ensures Is(s') && Remaining(r, s', its', w') && s'.past.hist == s0.past.hist && s'.left > 0
              && Run(s', its') == Run(s0, its0)
    {
      hide *;
      RemainingParts(r, s0, its0, w0);
      ghost var s, its, w := BeginGroup(r, s0, its0, w0);
      IsParts(s);
      LayoutParts();
      RemainingParts(r, s, its, w);
      OutputParts(s);
      ghost var it, p := NextOpen(r.Frame(), s, its, w);
      ReadBlock(r, s, it, w);
      OpenNext(s, it);
      s', its', w' := Next(s, it), its[1..], Emit(s, it, w);
      RemainingMake(r, s', its', w');
      OutputMake(s');
      HeaderMake(s');
      IsMake(s');
    }

    lemma IsParts(s: State)
      requires Is(s)
      ensures Layout() && Tables(s) && Output(s) && HeaderIs(s) && Shaped(s.codes) && mainLen[..MAIN] == s.codes.main
              && secLen[..] == s.codes.sec
      ensures blockType == s.kind && blockSize == s.left && newBlock == (s.left == 0) && firstTime == s.first
              && fileSize == s.fileSize
      ensures s.kind == Uncompressed ==> (originalSize % 2 == 1) == s.odd
    {
      hide D.Finds, Complete;
    }

    lemma IsMake(s: State)
      requires Tables(s) && Output(s) && HeaderIs(s)
      ensures Is(s)
    {
      hide Tables, Output, HeaderIs;
    }

    lemma HeaderMake(s: State)
      requires blockType == s.kind && blockSize == s.left && newBlock == (s.left == 0) && firstTime == s.first
               && fileSize == s.fileSize
      requires s.kind == Uncompressed ==> (originalSize % 2 == 1) == s.odd
      ensures HeaderIs(s)
    {
    }

    /** The tables after a block has been opened. */
    lemma OpenTables(s: State, it: Item)
      requires it.Open? && Legal(s, it) && Layout()
      requires it.kind == Uncompressed ==>
                 Shaped(s.codes) && mainLen[..MAIN] == s.codes.main && secLen[..] == s.codes.sec
      requires it.kind != Uncompressed ==> mainLen[..MAIN] == it.codes.main && secLen[..] == it.codes.sec
      requires it.kind != Uncompressed ==> D.Finds(mainTable[..], mainLR[..], 10, it.codes.main)
      requires it.kind != Uncompressed && Complete(it.codes.sec) ==> D.Finds(secTable[..], secLR[..], 8, it.codes.sec)
      requires it.kind == Aligned ==> alLen[..] == it.codes.al && D.Finds(alTable[..], [], 7, it.codes.al)
      ensures Tables(Next(s, it))
    {
      hide D.Finds, GoodTrees, GoodAligned, Complete;
    }

    /** The slow loop: tokens until the position reaches 257 or the amount is done. */
    method DecodeSlow(r: BitReader, aligned: bool, amount: nat, ghost s: State, ghost its: seq<Item>, ghost w: Wire)
      returns (ghost s': State, ghost its': seq<Item>, ghost w': Wire)
      requires Tables(s) && Output(s) && aligned == (s.kind == Aligned) && (s.kind == Verbatim || s.kind == Aligned)
      requires Remaining(r, s, its, w) && amount <= Span(s, its) && window.pos + amount <= 257
      requires window.pos + Span(s, its) <= Slots.WINDOW
      modifies r, this`queue, window, window.win
      ensures Tables(s') && Output(s') && Remaining(r, s', its', w') && window.base == old(window.base)
      ensures old(window.pos) + amount <= window.pos <= 514 && Further(s, its, s', its', window.pos - old(window.pos))
    {
      hide *;
      MirrorSize();
      LayoutApart(s);
      s', its', w' := s, its, w;
      RemainingParts(r, s, its, w);
      FurtherNone(s, its);
      var end := window.pos + amount;
      while window.pos < end
        invariant Tables(s') && Output(s') && Remaining(r, s', its', w') && window.base == old(window.base)
        invariant old(window.pos) <= window.pos <= 514 && Further(s, its, s', its', window.pos - old(window.pos))
        decreases end - window.pos
      {
        ghost var n := window.pos - old(window.pos);
        FurtherParts(s, its, s', its', n);
        RemainingParts(r, s', its', w');
        ghost var t, v := NextToken(r.Frame(), s', its', w');
        OutputParts(s');
        var literal, c, len, off := ReadToken(r, aligned, s', w', t);
        PlayParts(s'.past, t);
        if literal {
          window.PutSlow(c);
        } else {
          window.CopySlow(off, len);
        }
        FurtherCoded(s, its, s', its', n);
        ghost var next := Next(s', its'[0]);
        FurtherParts(s, its, next, its'[1..], n + Width(t));
        WidthIs(t);
        RemainingAt(r, next, its'[1..], v);
        OutputMake(next);
        TablesSame(s', next);
        s', its', w' := next, its'[1..], v;
      }
    }

    /** The fast loop: the amount ends with a token. */
    method DecodeFast(r: BitReader, aligned: bool, amount: nat, ghost s: State, ghost its: seq<Item>, ghost w: Wire)
      returns (ghost s': State, ghost its': seq<Item>, ghost w': Wire)
      requires Tables(s) && Output(s) && aligned == (s.kind == Aligned) && (s.kind == Verbatim || s.kind == Aligned)
      requires Remaining(r, s, its, w) && amount == Span(s, its) && 257 <= window.pos
               && window.pos + amount <= Slots.WINDOW
      modifies r, this`queue, window, window.win
      ensures Tables(s') && Output(s') && Remaining(r, s', its', w')
      ensures Further(s, its, s', its', amount) && WrappedBy(old(window.base), old(window.pos) + amount)
    {
      hide *;
      MirrorSize();
      LayoutApart(s);
      s', its', w' := s, its, w;
      RemainingParts(r, s, its, w);
      FurtherNone(s, its);
      var end := window.pos + amount;
      while window.pos < end
        invariant Tables(s') && Output(s') && Remaining(r, s', its', w') && window.base == old(window.base)
        invariant old(window.pos) <= window.pos <= end && Further(s, its, s', its', window.pos - old(window.pos))
        decreases end - window.pos
      {
        ghost var n := window.pos - old(window.pos);
        FurtherParts(s, its, s', its', n);
        RemainingParts(r, s', its', w');
        ghost var t, v := NextToken(r.Frame(), s', its', w');
        OutputParts(s');
        var literal, c, len, off := ReadToken(r, aligned, s', w', t);
        PlayParts(s'.past, t);
        WidthIs(t);
        if literal {
          window.PutFast(c);
        } else {
          window.CopyFast(off, len);
        }
        FurtherCoded(s, its, s', its', n);
        ghost var next := Next(s', its'[0]);
        FurtherParts(s, its, next, its'[1..], n + Width(t));
        RemainingAt(r, next, its'[1..], v);
        OutputMake(next);
        TablesSame(s', next);
        s', its', w' := next, its'[1..], v;
      }
      OutputParts(s');
      window.Wrap();
      OutputMake(s');
      WrappedMake(old(window.base), old(window.pos) + amount);
    }

    /** The window stands where pos unwrapped bytes after base would be, wrapped once or not yet. */
    ghost predicate WrappedBy(base: nat, pos: nat)
      reads window
    {
      window.pos < Slots.WINDOW
      && ((window.base == base && window.pos == pos)
          || (pos == Slots.WINDOW && window.base == base + pos && window.pos == 0))
    }

    lemma WrappedMake(base: nat, pos: nat)
      requires window.pos < Slots.WINDOW
      requires (window.base == base && window.pos == pos)
               || (pos == Slots.WINDOW && window.base == base + pos && window.pos == 0)
      ensures WrappedBy(base, pos)
    {
    }

    /** decode_verbatim_block and decode_aligned_offset_block: slowly up to position 257, then fast. */
    method DecodeCoded(r: BitReader, aligned: bool, amount: nat, ghost s: State, ghost its: seq<Item>, ghost w: Wire)
      returns (ghost s': State, ghost its': seq<Item>, ghost w': Wire)
      requires Tables(s) && Output(s) && aligned == (s.kind == Aligned) && (s.kind == Verbatim || s.kind == Aligned)
      requires Remaining(r, s, its, w) && amount == Span(s, its) && window.pos + amount <= Slots.WINDOW
      modifies r, this`queue, window, window.win
      ensures Tables(s') && Output(s') && Remaining(r, s', its', w')
      ensures Further(s, its, s', its', amount) && WrappedBy(old(window.base), old(window.pos) + amount)
    {
      hide *;
      MirrorSize();
      s', its', w' := s, its, w;
      RemainingParts(r, s, its, w);
      FurtherNone(s, its);
      var left: int := amount;
      if window.pos < 257 {
        var slowly := Min(257 - window.pos, amount);
        MinIs(257 - window.pos, amount);
        var start := window.pos;
        s', its', w' := DecodeSlow(r, aligned, slowly, s, its, w);
        FurtherParts(s, its, s', its', window.pos - start);
        left := left - (window.pos - start);
        if left <= 0 {
          WrappedMake(old(window.base), old(window.pos) + amount);
          return;
        }
      }
      ghost var n, s1, its1 := amount - left, s', its';
      s', its', w' := DecodeFast(r, aligned, left, s', its', w');
      FurtherTrans(s, its, s1, its1, n, s', its', left);
    }

    /** decode_uncompressed_block. */
    method DecodeUncompressed(r: BitReader, amount: nat, ghost s: State, ghost its: seq<Item>, ghost w: Wire)
      returns (ghost s': State, ghost its': seq<Item>, ghost w': Wire)
      requires Tables(s) && Output(s) && s.kind == Uncompressed
      requires Remaining(r, s, its, w) && amount == Span(s, its) && window.pos + amount <= Slots.WINDOW
      modifies r, window, window.win
      ensures Tables(s') && Output(s') && Remaining(r, s', its', w')
      ensures Further(s, its, s', its', amount) && WrappedBy(old(window.base), old(window.pos) + amount)
    {
      hide *;
      MirrorSize();
      LayoutApart(s);
      s', its', w' := s, its, w;
      OutputParts(s);
      RemainingParts(r, s, its, w);
      FurtherNone(s, its);
      LocatedParts(r, s, w);
      r.FrameIs();
      var start, end, p := window.pos, window.pos + amount, r.curpos;
      window.ValidParts();
      while window.pos < end
        invariant r.Valid() && 4 <= r.end < |r.input| && Tables(s') && Script(r.Frame(), s', its', w')
        invariant w'.pend == [] && p == |w'.out| && !r.error
        invariant start <= window.pos <= end && Further(s, its, s', its', window.pos - start)
                  && window.base == old(window.base)
        invariant window.win.Length == 131333 && window.hist == s'.past.hist && queue == s'.past.queue
        invariant Ring(window.win[..], window.hist, window.base, window.pos)
        invariant MirroredOutside(window.win[..], window.base, start, window.pos)
        decreases end - window.pos
      {
        ghost var n := window.pos - start;
        FurtherParts(s, its, s', its', n);
        ghost var b, v := NextByte(r.Frame(), s', its', w');
        // The check for the end of input does not fire.
        assert p < r.end;
        window.PutRaw(r.input[p], start);
        p := p + 1;
        FurtherRaw(s, its, s', its', n);
        ghost var next := Next(s', its'[0]);
        FurtherParts(s, its, next, its'[1..], n + 1);
        TablesSame(s', next);
        s', its', w' := next, its'[1..], v;
      }
      FurtherParts(s, its, s', its', amount);
      r.curpos := p;
      window.CopyToMirror(start);
      OutputMake(s');
      RawLocated(r, s', its', w');
      window.Wrap();
      OutputMake(s');
      WrappedMake(old(window.base), old(window.pos) + amount);
    }

    /** One call of a block decoder, for as much of the open block as the frame holds. */
    method DecodeSome(r: BitReader, amount: nat, ghost s: State, ghost its: seq<Item>, ghost w: Wire)
      returns (ghost s': State, ghost its': seq<Item>, ghost w': Wire)
      requires Tables(s) && Output(s) && blockType == s.kind && s.kind != Closed
      requires Remaining(r, s, its, w) && amount == Span(s, its) && window.pos + amount <= Slots.WINDOW
      modifies r, this`queue, window, window.win
      ensures Tables(s') && Output(s') && Remaining(r, s', its', w')
      ensures Further(s, its, s', its', amount) && WrappedBy(old(window.base), old(window.pos) + amount)
    {
      hide *;
      if blockType == Aligned {
        s', its', w' := DecodeCoded(r, true, amount, s, its, w);
      } else if blockType == Verbatim {
        s', its', w' := DecodeCoded(r, false, amount, s, its, w);
      } else {
        s', its', w' := DecodeUncompressed(r, amount, s, its, w);
      }
    }

    /** The rest of decode_data's loop: the open block up to its end or the end of the frame. */
    method DecodeBlock(r: BitReader, bytes: nat, ghost s: State, ghost its: seq<Item>, ghost w: Wire)
      returns (left: nat, ghost s': State, ghost its': seq<Item>, ghost w': Wire)
      requires Is(s) && s.left > 0 && Remaining(r, s, its, w) && bytes == Total(s, its) > 0
               && window.pos + bytes <= Slots.WINDOW
      modifies r, this, window, window.win
      ensures Is(s') && Remaining(r, s', its', w') && Run(s', its') == Run(s, its)
      ensures left == Total(s', its') < bytes && (left > 0 ==> s'.left == 0)
      ensures WrappedBy(old(window.base), old(window.pos) + (bytes - left))
    {
      hide *;
      s', its', w' := s, its, w;
      left := bytes;
      IsParts(s);
      LayoutApart(s);
      RemainingParts(r, s, its, w);
      FurtherNone(s, its);
      while blockSize > 0 && left > 0
        invariant Tables(s') && Output(s') && Remaining(r, s', its', w') && Further(s, its, s', its', bytes - left)
        invariant !newBlock && blockType == s'.kind && blockSize == s'.left && firstTime == s'.first
                  && fileSize == s'.fileSize
        invariant s'.kind == Uncompressed ==> (originalSize % 2 == 1) == s'.odd
        invariant left <= bytes && LegalAll(s', its') && left == Total(s', its')
        invariant left == bytes ==>
                    window.pos == old(window.pos) && window.base == old(window.base) && s'.left == s.left
        invariant left < bytes ==>
                    WrappedBy(old(window.base), old(window.pos) + (bytes - left)) && (left == 0 || s'.left == 0)
        decreases left
      {
        ghost var n, m := bytes - left, left;
        SpanIs(s', its');
        MinIs(blockSize, left);
        var amount := Min(blockSize, left);
        KindOpen(r.Frame(), s', its', w') by { RemainingParts(r, s', its', w'); }
        ghost var s1, its1 := s', its';
        s', its', w' := DecodeSome(r, amount, s', its', w');
        FurtherTrans(s, its, s1, its1, n, s', its', amount);
        FurtherFields(s1, its1, s', its', amount);
        blockSize := blockSize - amount;
        left := left - amount;
      }
      FurtherFields(s, its, s', its', bytes - left);
      if blockSize == 0 {
        newBlock := true;
      }
      HeaderMake(s');
      IsMake(s');
    }

    /** decode_data: the frame's bytes are decoded into the window and copied out of it. */
    method DecodeData(r: BitReader, bytes: nat, ghost s: State, ghost its: seq<Item>, ghost w: Wire)
      returns (out: array<byte>, ghost w': Wire)
      requires Is(s) && Remaining(r, s, its, w) && bytes == Total(s, its) > 0 && window.pos + bytes <= Slots.WINDOW
      modifies r, this, window, window.win, mainLen, mainPrev, secLen, secPrev, alLen, mainTable, mainLR, secTable,
               secLR, alTable
      ensures LegalAll(s, its) && Is(Run(s, its)) && WrappedBy(old(window.base), old(window.pos) + bytes)
      ensures fresh(out) && out[..] == Run(s, its).past.hist[|s.past.hist|..]
    {
      hide *;
      ghost var s', its' := s, its;
      w' := w;
      var left, total := bytes, 0;
      RemainingParts(r, s, its, w);
      while left > 0
        invariant Is(s') && LegalAll(s', its') && Run(s', its') == Run(s, its) && total == bytes - left
                  && left == Total(s', its')
        invariant left > 0 ==>
                    Remaining(r, s', its', w') && window.pos == old(window.pos) + total
                      && window.base == old(window.base)
        invariant left == 0 ==> its' == [] && WrappedBy(old(window.base), old(window.pos) + bytes)
        decreases left
      {
        IsParts(s');
        LayoutApart(s');
        ghost var before := left;
        ghost var s1, its1 := s', its';
        if newBlock {
          s', its', w' := OpenBlock(r, s', its', w');
          RemainingParts(r, s', its', w');
          TotalSame(s1, its1, s', its');
        }
        var rest;
        rest, s', its', w' := DecodeBlock(r, left, s', its', w');
        RemainingParts(r, s', its', w');
        total := total + (left - rest);
        left := rest;
        if left > 0 {
          WrappedParts(old(window.base), old(window.pos) + total);
        } else {
          NothingLeft(r.Frame(), s', its', w');
          if blockType != Uncompressed {
            r.InitBitbuf();
          }
        }
      }
      RunNone(s');
      TotalIs(s, its);
      IsParts(s');
      OutputParts(s');
      WrappedCases(old(window.base), old(window.pos) + bytes);
      out := CopyOut(total);
    }

    lemma WrappedParts(base: nat, pos: nat)
      requires WrappedBy(base, pos) && pos < Slots.WINDOW
      ensures window.base == base && window.pos == pos
    {
    }

    lemma WrappedCases(base: nat, pos: nat)
      requires WrappedBy(base, pos)
      ensures window.pos < Slots.WINDOW == 131072
      ensures (window.base == base && window.pos == pos)
              || (pos == 131072 && window.base == base + pos && window.pos == 0)
    {
    }

    /** copy_data_to_output, before translation: the last bytes of the window, which end at its end
        when the position has just wrapped. */
    method CopyOut(total: nat) returns (out: array<byte>)
      requires window.Valid() && window.pos < 131072
      requires 0 < total <= window.pos || (window.pos == 0 && 0 < total <= 131072 <= window.base)
      ensures fresh(out) && total <= |window.hist| && out[..] == window.hist[|window.hist| - total..]
    {
      hide *;
      MirrorSize();
      window.ValidParts();
      ghost var win := window.win[..];
      RingSizes(win, window.hist, window.base, window.pos);
      var temp := window.pos;
      if temp == 0 {
        temp := 131072;
      }
      out := new byte[total];
      ghost var start := |window.hist| - total;
      for i := 0 to total
        invariant forall k :: 0 <= k < i ==> out[k] == window.hist[start + k]
      {
        RingAt(win, window.hist, window.base, window.pos, temp - total + i);
        out[i] := window.win[temp - total + i];
      }
    }

    lemma LayoutApart(s: State)
      requires Tables(s)
      ensures window.win as object !in {mainLen as object, secLen, alLen, mainTable, mainLR, secTable, secLR, alTable}
    {
      hide D.Finds;
    }

    lemma OutputParts(s: State)
      requires Output(s)
      ensures window.Valid() && window.hist == s.past.hist && queue == s.past.queue
    {
    }

    lemma OutputMake(s: State)
      requires window.Valid() && window.hist == s.past.hist && queue == s.past.queue
      ensures Output(s)
    {
    }

    lemma TablesSame(s: State, t: State)
      requires Tables(s) && t.codes == s.codes && t.kind == s.kind
      ensures Tables(t)
    {
      hide D.Finds, Complete;
    }
  }

  lemma MinIs(a: nat, b: nat)
    ensures Min(a, b) <= a && Min(a, b) <= b && (Min(a, b) == a || Min(a, b) == b)
  {
  }

  lemma WidthIs(t: Token)
    ensures Width(t) == if t.Literal? then 1 else t.len
  {
  }

  lemma TreeParts(prev: Codes, codes: Codes, small: Small)
    requires GoodTrees(prev, codes, small)
    ensures |codes.main| == 528 && |codes.sec| == 249 && |prev.main| == 528 && |prev.sec| == 249 && MAIN == 528
    ensures Shaped(codes) && Complete(codes.main) && Optional(codes.sec)
    ensures Carries(small.a, codes.main[..256], prev.main[..256])
    ensures Carries(small.b, codes.main[256..], prev.main[256..])
    ensures Carries(small.c, codes.sec, prev.sec)
    ensures |small.a| == |small.b| == |small.c| == SMALL && RepTree.Tables(codes.main[..256], prev.main[..256])
    ensures RepTree.Tables(codes.main[256..], prev.main[256..]) && RepTree.Tables(codes.sec, prev.sec)
    ensures TreesBits(prev, codes, small)
            == TreeBits(small.a, codes.main[..256], prev.main[..256])
               + (TreeBits(small.b, codes.main[256..], prev.main[256..]) + TreeBits(small.c, codes.sec, prev.sec))
  {
    hide TreeBits, Carries, Complete, Optional, RepTree.Tables;
    Carried(small.a, codes.main[..256], prev.main[..256]);
    Carried(small.b, codes.main[256..], prev.main[256..]);
    Carried(small.c, codes.sec, prev.sec);
  }

  lemma TablePowers()
    ensures Pow2(8) == 256 && Pow2(10) == 1024
  {
    assert Pow2(10) == 4 * Pow2(8);
  }

  /** The decoder's table of an optional tree can be built. */
  lemma OptionalTable(lens: seq<nat>)
    requires Optional(lens)
    ensures IsLengths(lens) && (LongFrom(lens, 16) == 0 || Complete(lens))
  {
    hide FirstCode, Count;
    if !Complete(lens) {
      NoCodes(lens, 16);
      NoCount(lens, 16);
    }
  }

  lemma {:induction false} NoCount(lens: seq<nat>, l: nat)
    requires l > 0 && forall i :: 0 <= i < |lens| ==> lens[i] == 0
    ensures Count(lens, l) == 0
  {
    if lens != [] {
      NoCount(lens[..|lens| - 1], l);
    }
  }

  lemma {:induction false} NoCodes(lens: seq<nat>, l: nat)
    requires forall i :: 0 <= i < |lens| ==> lens[i] == 0
    ensures FirstCode(lens, l) == 0
  {
    if l > 1 {
      NoCodes(lens, l - 1);
      NoCount(lens, l - 1);
    }
  }

  lemma AlignedTreeParts(al: seq<nat>)
    requires GoodAligned(al)
    ensures |al| == 8 && Complete(al) && (forall i :: 0 <= i < |al| ==> al[i] < Pow2(3)) && Pow2(3) == 8
  {
    hide Complete;
    Pow2Values();
  }

  lemma RemainingKind(r: BitReader, s: State, w: Wire)
    requires Located(r, s, w) && s.kind != Uncompressed
    ensures r.At(w)
  {
  }

  lemma AtLocated(r: BitReader, s: State, w: Wire)
    requires r.At(w) && s.kind != Uncompressed
    ensures Located(r, s, w)
  {
  }

  lemma UncompressedLocated(r: BitReader, s: State, w: Wire)
    requires r.Valid() && s.kind == Uncompressed && w.pend == [] && r.curpos == |w.out| && Extends(r.Frame(), w)
    ensures Located(r, s, w)
  {
  }

  lemma RemainingMake(r: BitReader, s: State, its: seq<Item>, w: Wire)
    requires Located(r, s, w) && 4 <= r.end < |r.input| && Script(r.Frame(), s, its, w)
    ensures Remaining(r, s, its, w)
  {
  }

  /** Before the first block the group header comes. */
  lemma NextGroup(f: seq<byte>, s: State, its: seq<Item>, w: Wire) returns (n: nat, s': State, v: Wire)
    requires Script(f, s, its, w) && s.first && s.left == 0 && Total(s, its) > 0
    ensures its != [] && n < WORD32 && v == Put(w, GroupBits(n)) && Extends(f, v)
            && s' == s.(first := false, fileSize := n)
    ensures Script(f, s', its[1..], v) && Total(s', its[1..]) == Total(s, its) && Run(s', its[1..]) == Run(s, its)
    ensures s.kind != Uncompressed
  {
    hide Put, GroupBits, Extends, WireOk, EmitAll;
    FirstItem(f, s, its, w);
    n := its[0].fileSize;
    s' := Next(s, its[0]);
    v := Put(w, GroupBits(n));
  }

  /** Between blocks the next header comes. */
  lemma NextOpen(f: seq<byte>, s: State, its: seq<Item>, w: Wire) returns (it: Item, p: Wire)
    requires Script(f, s, its, w) && !s.first && s.left == 0 && Total(s, its) > 0
    ensures its != [] && it == its[0] && it.Open? && Legal(s, it) && p == Padded(s, w) && WireOk(s, w)
    ensures Extends(f, Emit(s, it, w)) && Script(f, Next(s, it), its[1..], Emit(s, it, w))
            && Run(Next(s, it), its[1..]) == Run(s, its)
    ensures Next(s, it).past.hist == s.past.hist && it.kind != Closed && it.size > 0 && it.size < Pow2(24)
    ensures |p.pend| < 16 && Extends(f, Put(p, HeadBits(it.kind, it.size))) && Extends(f, p)
  {
    hide Put, Extends, EmitAll, HeadBits, GoodTrees, GoodAligned, Emit, Fits, Served, Padded, Pow2;
    FirstItem(f, s, its, w);
    it, p := its[0], Padded(s, w);
    PaddedOk(s, w);
    OpenBack(f, s, it, w);
    ExtendsBack(f, p, HeadBits(it.kind, it.size));
  }

  /** A frame written through a block header was written through its parts. */
  lemma OpenBack(f: seq<byte>, s: State, it: Item, w: Wire)
    requires it.Open? && Legal(s, it) && WireOk(s, w) && Extends(f, Emit(s, it, w))
    ensures |Padded(s, w).pend| < 16 && Extends(f, Put(Padded(s, w), HeadBits(it.kind, it.size)))
  {
    hide Put, Pack, HeadBits, TreesBits, Fields, GoodTrees, GoodAligned, Align, Complete, Extends, Padded, QueueBytes;
    PaddedOk(s, w);
    var p := Padded(s, w);
    var h := Put(p, HeadBits(it.kind, it.size));
    PutSmall(p, HeadBits(it.kind, it.size));
    if it.kind == Aligned {
      PutSmall(h, Fields(3, it.codes.al, 0));
      ExtendsBack(f, Put(h, Fields(3, it.codes.al, 0)), TreesBits(s.codes, it.codes, it.small));
      ExtendsBack(f, h, Fields(3, it.codes.al, 0));
    } else if it.kind == Verbatim {
      ExtendsBack(f, h, TreesBits(s.codes, it.codes, it.small));
    } else {
      ExtendsAlign(f, h, QueueBytes(it.queue));
    }
  }

  /** What follows a block's header, by its type. */
  lemma OpenParts(f: seq<byte>, s: State, it: Item, w: Wire, h: Wire)
    requires it.Open? && Legal(s, it) && WireOk(s, w) && Extends(f, Emit(s, it, w)) && |h.pend| < 16
    requires |Padded(s, w).pend| < 16 && h == Put(Padded(s, w), HeadBits(it.kind, it.size))
    ensures it.kind == Verbatim || it.kind == Aligned || it.kind == Uncompressed
    ensures it.kind == Verbatim ==>
              GoodTrees(s.codes, it.codes, it.small) && Emit(s, it, w) == Put(h, TreesBits(s.codes, it.codes, it.small))
    ensures it.kind == Aligned ==> GoodTrees(s.codes, it.codes, it.small) && GoodAligned(it.codes.al)
                                   && Extends(f, Put(h, Fields(3, it.codes.al, 0)))
                                   && Emit(s, it, w)
                                      == Put(Put(h, Fields(3, it.codes.al, 0)), TreesBits(s.codes, it.codes, it.small))
    ensures it.kind == Uncompressed ==>
              GoodQueue(it.queue) && Emit(s, it, w) == AfterQueue(it.queue, h) && Emit(s, it, w).pend == []
  {
    hide Put, Pack, HeadBits, TreesBits, Fields, GoodTrees, Complete, Extends, Padded, QueueBytes, Align;
    if it.kind == Aligned {
      PutSmall(h, Fields(3, it.codes.al, 0));
      ExtendsBack(f, Put(h, Fields(3, it.codes.al, 0)), TreesBits(s.codes, it.codes, it.small));
    }
  }

  lemma OpenNext(s: State, it: Item)
    requires it.Open? && Legal(s, it)
    ensures var t := Next(s, it);
            && t.past == NextPast(s, it) && t.past.hist == s.past.hist
            && (it.kind != Uncompressed ==> t.past.queue == s.past.queue)
               && (it.kind == Uncompressed ==> t.past.queue == it.queue)
            && t.kind == it.kind && t.left == it.size > 0 && t.odd == (it.size % 2 == 1)
            && t.first == s.first && t.fileSize == s.fileSize
  {
    hide GoodTrees, GoodAligned;
  }

  function KindOf(code: nat): Kind {
    if code == 1 then Verbatim else if code == 2 then Aligned else if code == 3 then Uncompressed else Closed
  }

  /** The type that three bits of a header say. */
  lemma HeadCode(head: seq<bool>, size: nat) returns (kind: Kind)
    requires head == [false, false, true] || head == [false, true, false] || head == [false, true, true]
    requires size < Pow2(24)
    ensures HeadBits(kind, size) == head + BitsOf(24, size) && kind != Closed
    ensures head == [false, false, true] ==> kind == Verbatim
    ensures head == [false, true, false] ==> kind == Aligned
    ensures head == [false, true, true] ==> kind == Uncompressed
  {
    hide HeadBits, BitsOf, Pow2;
    Pow2Values();
    HeadIs(size);
    kind := if !head[1] then Verbatim else if !head[2] then Aligned else Uncompressed;
  }

  lemma OpenKind(s: State, it: Item)
    requires it.Open? && Legal(s, it)
    ensures it.kind != Closed
  {
    hide GoodTrees, GoodAligned, GoodQueue, Shaped;
  }

  function KindBits(kind: Kind): seq<bool> {
    match kind
    case Closed => []
    case Verbatim => [false, false, true]
    case Aligned => [false, true, false]
    case Uncompressed => [false, true, true]
  }

  lemma HeadBitsAre(kind: Kind, size: nat)
    requires size < Pow2(24) && kind != Closed
    ensures HeadBits(kind, size) == KindBits(kind) + BitsOf(24, size)
    ensures kind == Verbatim <==> KindBits(kind) == [false, false, true]
    ensures kind == Aligned <==> KindBits(kind) == [false, true, false]
    ensures kind == Uncompressed <==> KindBits(kind) == [false, true, true]
  {
    hide HeadBits, BitsOf, Pow2;
    Pow2Values();
    HeadIs(size);
  }

  lemma KindCodes(kind: Kind)
    ensures KindOf(TypeCode(kind)) == kind
  {
  }

  /** After an uncompressed block an odd byte is skipped. */
  lemma PadParts(f: seq<byte>, s: State, w: Wire, p: Wire)
    requires p == Padded(s, w) && s.kind == Uncompressed && w.pend == [] && Extends(f, p)
    ensures p.pend == [] && |p.out| <= |f| && |p.out| == |w.out| + (if s.odd then 1 else 0) && f[..|p.out|] == p.out
  {
  }

  lemma PadNone(s: State, w: Wire)
    requires s.kind != Uncompressed
    ensures Padded(s, w) == w
  {
  }

  lemma AtParts(r: BitReader, w: Wire)
    requires r.At(w)
    ensures r.Valid() && 4 <= r.end < |r.input| && !r.error && r.curpos == |w.out| + 4 && Extends(r.Frame(), w)
  {
  }

  lemma StillValid(r: BitReader)
    requires 4 <= r.end < |r.input| && r.curpos <= r.end && !r.error
    ensures r.Valid()
  {
  }

  lemma QueueWords(q: Queue, s: seq<byte>)
    requires GoodQueue(q) && s == QueueBytes(q)
    ensures |s| == 12 && q.r0 == Word32(s[0], s[1], s[2], s[3])
    ensures q.r1 == Word32(s[4], s[5], s[6], s[7]) && q.r2 == Word32(s[8], s[9], s[10], s[11])
  {
    hide Bytes32, Word32;
    WordOfBytes(q.r0);
    WordOfBytes(q.r1);
    WordOfBytes(q.r2);
  }

  lemma QueueParts(f: seq<byte>, w: Wire, q: Queue)
    requires |w.pend| < 16 && Extends(f, AfterQueue(q, w))
    ensures |w.out| + 14 <= |f| && f[|w.out| + 2..|w.out| + 2 + 12] == QueueBytes(q)
            && |AfterQueue(q, w).out| == |w.out| + 14
  {
    hide Put, QueueBytes;
    AlignIsAligned(w);
    ExtendsRaw(f, Align(w), QueueBytes(q));
  }

  lemma NoBits(x: nat)
    ensures BitsOf(0, x) == [] && Mask(x, 0) == 0
  {
  }

  lemma ThreeOnly(dist: nat)
    requires 3 <= dist < Slots.WINDOW && Extra(SlotOf(dist)) == 0
    ensures dist == 3
  {
    WindowSlots(dist);
  }

  /** Repeated offsets have no extra bits. */
  lemma RepeatBits(c: Codes, aligned: bool, dist: nat)
    requires dist < 3 && |c.al| == ALIGNED
    ensures OffsetBits(c, aligned, dist) == []
  {
    WindowSlots(dist);
    NoBits(Mask(dist, 0));
  }

  lemma NoLength(c: Codes, t: Token)
    requires t.Literal? && |c.sec| == SECONDARY
    ensures LengthBits(c, t) == []
  {
  }
}
