/** A frame that overflows the output buffer without being noticed before the last flush. */
module LateOverflow {
  import opened Bits
  import opened BitStream
  import opened Tokens
  import opened Slots
  import opened Stream
  import opened Frames
  import opened BlockWriter
  import opened Codec

  ghost function Block64(c: Codes): Item {
    Open(Uncompressed, 64, c, Small([], [], []), FIRST_QUEUE)
  }

  /** The translation header, and then uncompressed blocks of 64 bytes. */
  ghost function Script64(c: Codes, k: nat): seq<Item> {
    if k == 0 then [Group(FILE_SIZE)]
    else Script64(c, k - 1) + [if (k - 1) % 65 == 0 then Block64(c) else Raw(0)]
  }

  /** How far k items behind the header have come: whole blocks of 65 items, and r items of the next one. */
  ghost predicate Reached(s: State, w: Wire, k: nat) {
    var r := k % 65;
    && !s.first && Shaped(s.codes) && (k == 0 || s.kind == Uncompressed) && s.kind != Verbatim && s.kind != Aligned
    && !s.odd && s.left == (if r == 0 then 0 else 65 - r)
    && |s.past.hist| == 64 * (k / 65) + (if r == 0 then 0 else r - 1)
    && |w.pend| < 16 && (s.kind == Uncompressed ==> w.pend == [])
    && |w.out| >= 80 * (k / 65) + (if r == 0 then 0 else 15 + r)
  }

  lemma OpenStep(c: Codes, s: State, w: Wire, k: nat)
    requires Shaped(c) && Reached(s, w, k) && k % 65 == 0
    ensures Legal(s, Block64(c)) && WireOk(s, w) && Reached(Next(s, Block64(c)), Emit(s, Block64(c), w), k + 1)
  {
    hide Put, HeadBits, Pow2, Align, Shaped;
    Pow2Values();
    assert Pow2(24) > 64 by { Pow2Monotone(16, 24); }
    var h := Put(w, HeadBits(Uncompressed, 64));
    HeadLength();
    PutLength(w, HeadBits(Uncompressed, 64));
    AlignIsAligned(h);
    assert Emit(s, Block64(c), w) == AfterQueue(FIRST_QUEUE, h);
    NextPlace(k);
  }

  lemma NextPlace(k: nat)
    ensures k % 65 < 64 ==> (k + 1) % 65 == k % 65 + 1 && (k + 1) / 65 == k / 65
    ensures k % 65 == 64 ==> (k + 1) % 65 == 0 && (k + 1) / 65 == k / 65 + 1
  {
  }

  lemma NoCodesShaped()
    ensures Shaped(FIRST.codes)
  {
  }

  lemma HeadLength()
    ensures |HeadBits(Uncompressed, 64)| == 27
  {
  }

  lemma RawStep(s: State, w: Wire, k: nat)
    requires Reached(s, w, k) && k % 65 != 0
    ensures Legal(s, Raw(0)) && WireOk(s, w) && Reached(Next(s, Raw(0)), Emit(s, Raw(0), w), k + 1)
  {
    hide Shaped;
    NextPlace(k);
  }

  lemma HeaderStep()
    ensures LegalAll(FIRST, [Group(FILE_SIZE)]) && WireOk(FIRST, START)
    ensures var s, w := Run(FIRST, [Group(FILE_SIZE)]), EmitAll(FIRST, [Group(FILE_SIZE)], START);
            Reached(s, w, 0) && |w.out| == 4
  {
    hide Put, BitsOf, Shaped;
    NoCodesShaped();
    RunOne(FIRST, Group(FILE_SIZE));
    EmitOne(FIRST, Group(FILE_SIZE), START);
    PutLength(START, GroupBits(FILE_SIZE));
    assert |GroupBits(FILE_SIZE)| == 33;
  }

  lemma {:induction false} Script64Legal(c: Codes, k: nat)
    requires Shaped(c)
    ensures LegalAll(FIRST, Script64(c, k)) && WireOk(FIRST, START)
    ensures Reached(Run(FIRST, Script64(c, k)), EmitAll(FIRST, Script64(c, k), START), k)
  {
    hide Legal, Next, Emit, LegalAll, Run, EmitAll, WireOk, Reached;
    HeaderStep();
    if k > 0 {
      Script64Legal(c, k - 1);
      var s, w := Run(FIRST, Script64(c, k - 1)), EmitAll(FIRST, Script64(c, k - 1), START);
      if (k - 1) % 65 == 0 {
        OpenStep(c, s, w, k - 1);
        Append(FIRST, Script64(c, k - 1), Block64(c), START);
      } else {
        RawStep(s, w, k - 1);
        Append(FIRST, Script64(c, k - 1), Raw(0), START);
      }
    }
  }

  lemma ScriptBegins(c: Codes, k: nat)
    ensures [Group(FILE_SIZE)] <= Script64(c, k)
  {
    if k > 0 {
      ScriptBegins(c, k - 1);
    }
  }

  /** 490 such blocks bring 31360 bytes in one frame of at least 39200. */
  lemma LongFrame() returns (f: Frame)
    ensures GoodFrame(FIRST, f) && f.its == Script64(FIRST.codes, 31850) && f.size == 31360 && |f.bytes| > OUTPUT_END
    ensures LegalAll(FIRST, f.its) && |Run(FIRST, f.its).past.hist| == 31360
  {
    hide Legal, Next, Emit, LegalAll, Run, EmitAll, Extends, WireOk, BytesOf, GoodFrame, Script64;
    var its := Script64(FIRST.codes, 31850);
    NoCodesShaped();
    Script64Legal(FIRST.codes, 31850);
    LastRaw();
    var w := EmitAll(FIRST, its, START);
    EmitAllOk(FIRST, its, START);
    ReachedEnd(Run(FIRST, its), w);
    FinishExtends(w);
    f := Frame(its, w.out, 31360);
    FinishedFrame(FIRST, its, 31360, w, w.out);
  }

  lemma LastRaw()
    ensures Script64(FIRST.codes, 31850) != [] && EndsInData(Script64(FIRST.codes, 31850))
  {
    hide EndsInData;
    LastIsData(Script64(FIRST.codes, 31849), Raw(0));
  }

  lemma ReachedEnd(s: State, w: Wire)
    requires Reached(s, w, 31850)
    ensures |s.past.hist| == 31360 && FIRST.past.hist == [] && w.pend == [] && |w.out| > OUTPUT_END
            && Finish(w) == w.out
    ensures FramePos(31360, s, w) == w
  {
  }

  lemma OneFrame(f: Frame)
    requires GoodFrame(FIRST, f)
    ensures LegalAll(FIRST, f.its) && Chain(FIRST, [f], Run(FIRST, f.its)) && Chain(FIRST, [], FIRST)
  {
    hide Run, LegalAll, Extends, EmitAll, WireOk, Total, EndsInData, BytesOf;
    assert [f][1..] == [];
  }

  lemma HeaderPart() returns (part: seq<byte>)
    ensures PartOf(FIRST, [Group(FILE_SIZE)], part) && |part| == 4
  {
    hide Legal, Next, Emit, LegalAll, Run, EmitAll, Shaped;
    HeaderStep();
    part := EmitAll(FIRST, [Group(FILE_SIZE)], START).out;
  }

  lemma LongIsLate(f: Frame, part: seq<byte>)
    requires |f.bytes| > OUTPUT_END && |part| == 4
    ensures !Within([f]) && !Noticed([f], 0, part)
  {
    assert f in [f] && [f][..0] == [];
  }

  /** All of these blocks may be held when the last flush begins: then nothing but the translation header has been
      written, and the overflow that follows is not noticed. */
  lemma OverflowUnnoticed() returns (frames: seq<Frame>, last: State, part: seq<byte>)
    ensures Chain(FIRST, frames, last) && |last.past.hist| == 31360 && PartOf(FIRST, [Group(FILE_SIZE)], part)
            && |frames| == 1
    ensures [Group(FILE_SIZE)] <= frames[0].its && Early(frames, 0, part)
    ensures !Within(frames) && !Noticed(frames, 0, part)
  {
    hide *;
    var f := LongFrame();
    ScriptBegins(FIRST.codes, 31850);
    OneFrame(f);
    frames, last := [f], Run(FIRST, f.its);
    part := HeaderPart();
    LongIsLate(f, part);
    EarlyMake(frames, last, [], [], FIRST, [Group(FILE_SIZE)], part);
  }
}
