/** Frames of up to 32768 bytes: what one holds, and how a sequence of them makes up the compressed
    data. */
module Frames {
  import opened Bits
  import opened BitStream
  import opened Tokens
  import opened Stream

  /** The output buffer of the encoder, and the input buffer of the decoder. */
  const OUTPUT_END: nat := 38848
  const OUTPUT_SIZE: nat := 38912

  /** The bytes of a frame, the items written into it, and how many bytes those stand for. */
  datatype Frame = Frame(its: seq<Item>, bytes: seq<byte>, size: nat)

  /** The frame f holds the items its, from state s and position w on. */
  ghost predicate Script(f: seq<byte>, s: State, its: seq<Item>, w: Wire) {
    LegalAll(s, its) && WireOk(s, w) && Extends(f, EmitAll(s, its, w)) && EndsInData(its)
  }

  /** A frame ends with a token or a raw byte. */
  ghost predicate EndsInData(its: seq<Item>) {
    its == [] || its[|its| - 1].Coded? || its[|its| - 1].Raw?
  }

  /** The bytes that the items bring. */
  ghost function Total(s: State, its: seq<Item>): nat
    requires LegalAll(s, its)
  {
    RunGrows(s, its);
    |Run(s, its).past.hist| - |s.past.hist|
  }

  /** The bytes of a frame are those of its script and the padding of its last word, no more. In a frame that is
      not full, an uncompressed block of odd size still gets its last byte. */
  ghost function BytesOf(s: State, its: seq<Item>): seq<byte>
    requires LegalAll(s, its) && WireOk(s, START)
  {
    var w := EmitAll(s, its, START);
    var v := if Total(s, its) == FRAME then w else Padded(Run(s, its), w);
    if |v.pend| < 16 then Finish(v) else []
  }

  /** A frame starts at a multiple of 32768 bytes and brings at most that many. */
  ghost predicate GoodFrame(s: State, f: Frame) {
    && Script(f.bytes, s, f.its, START) && f.bytes == BytesOf(s, f.its)
    && f.size == Total(s, f.its) && 0 < f.size <= FRAME && |s.past.hist| % FRAME == 0
  }

  /** The frames lead from state s to state t. */
  ghost predicate Chain(s: State, fs: seq<Frame>, t: State)
    decreases |fs|
  {
    if fs == [] then s == t else GoodFrame(s, fs[0]) && Chain(Run(s, fs[0].its), fs[1..], t)
  }

  ghost predicate Within(fs: seq<Frame>) {
    forall f :: f in fs ==> |f.bytes| <= OUTPUT_END
  }

  /** A frame's header: the two sizes as 16-bit words, the lower byte first. */
  function Header(compressed: nat, uncompressed: nat): (h: seq<byte>)
    ensures |h| == 4
  {
    [Low(compressed), High(compressed), Low(uncompressed), High(uncompressed)]
  }

  /** The compressed data. */
  function Flat(fs: seq<Frame>): seq<byte> {
    if fs == [] then [] else Header(|fs[0].bytes|, fs[0].size) + fs[0].bytes + Flat(fs[1..])
  }

  lemma {:induction false} ChainAppend(s: State, fs: seq<Frame>, t: State, f: Frame)
    requires Chain(s, fs, t) && GoodFrame(t, f)
    ensures Chain(s, fs + [f], Run(t, f.its))
    ensures Flat(fs + [f]) == Flat(fs) + (Header(|f.bytes|, f.size) + f.bytes)
    decreases |fs|
  {
    hide Run, Header, LegalAll, Extends, EmitAll, WireOk, Total, EndsInData, BytesOf;
    if fs == [] {
      assert [f][1..] == [] && fs + [f] == [f];
      assert Flat([f]) == Header(|f.bytes|, f.size) + f.bytes + Flat([]);
    } else {
      ChainAppend(Run(s, fs[0].its), fs[1..], t, f);
      assert (fs + [f])[0] == fs[0] && (fs + [f])[1..] == fs[1..] + [f];
    }
  }

  // ---------- The translation header comes first and only once ----------

  lemma {:induction false} RunFileSize(s: State, its: seq<Item>)
    requires LegalAll(s, its)
    ensures !s.first ==> !Run(s, its).first && Run(s, its).fileSize == s.fileSize
    decreases |its|
  {
    hide Play, Fits, Served, GoodOpen;
    if its != [] {
      RunFileSize(Next(s, its[0]), its[1..]);
    }
  }

  lemma FirstFrame(f: Frame)
    requires GoodFrame(FIRST, f)
    ensures !Run(FIRST, f.its).first
  {
    hide Extends, EmitAll, WireOk, Play, Fits, Served, GoodTrees, GoodAligned, BytesOf;
    assert f.its != [];
    assert f.its[0].Group?;
    RunFileSize(Next(FIRST, f.its[0]), f.its[1..]);
  }

  lemma {:induction false} ChainFileSize(s: State, fs: seq<Frame>, t: State)
    requires Chain(s, fs, t) && !s.first
    ensures !t.first && t.fileSize == s.fileSize
    decreases |fs|
  {
    hide LegalAll, Run, EmitAll, Extends, WireOk, Total, EndsInData, BytesOf;
    if fs != [] {
      RunFileSize(s, fs[0].its);
      ChainFileSize(Run(s, fs[0].its), fs[1..], t);
    }
  }

  /** Once bytes have been written the translation header has been too. */
  lemma ChainBegun(fs: seq<Frame>, t: State)
    requires Chain(FIRST, fs, t) && t.past.hist != []
    ensures !t.first
  {
    hide LegalAll, Run, EmitAll, Extends, WireOk, Total, EndsInData, BytesOf;
    if fs != [] {
      FirstFrame(fs[0]);
      ChainFileSize(Run(FIRST, fs[0].its), fs[1..], t);
    }
  }

  // ---------- What had been written of a frame before ----------

  /** A chain goes on from where its beginning ends. */
  lemma {:induction false} ChainRest(s: State, fs: seq<Frame>, n: nat, mid: State, t: State)
    requires n <= |fs| && Chain(s, fs[..n], mid) && Chain(s, fs, t)
    ensures Chain(mid, fs[n..], t)
    decreases n
  {
    hide Run, LegalAll, Extends, EmitAll, WireOk, Total, EndsInData, BytesOf;
    if n > 0 {
      assert fs[..n][1..] == fs[1..][..n - 1] && fs[..n][0] == fs[0];
      ChainRest(Run(s, fs[0].its), fs[1..], n - 1, mid, t);
      assert fs[1..][n - 1..] == fs[n..];
    } else {
      assert fs[..0] == [] && fs[0..] == fs;
    }
  }

  lemma ChainHead(s: State, fs: seq<Frame>, t: State)
    requires Chain(s, fs, t) && fs != []
    ensures GoodFrame(s, fs[0])
  {
    hide GoodFrame, Run;
  }

  /** A script up to a place, and from there on. */
  lemma {:induction false} ScriptRest(s: State, its: seq<Item>, n: nat)
    requires LegalAll(s, its) && n <= |its|
    ensures LegalAll(s, its[..n]) && LegalAll(Run(s, its[..n]), its[n..])
    decreases n
  {
    hide Legal, Next;
    if n > 0 {
      assert its[..n][1..] == its[1..][..n - 1] && its[..n][0] == its[0];
      ScriptRest(Next(s, its[0]), its[1..], n - 1);
      assert its[1..][n - 1..] == its[n..];
    } else {
      assert its[..0] == [] && its[0..] == its;
    }
  }

  /** What had been written of a frame between two blocks is how the frame begins. */
  lemma WrittenBefore(s: State, f: Frame, n: nat)
    requires GoodFrame(s, f) && n <= |f.its|
    ensures LegalAll(s, f.its) && LegalAll(s, f.its[..n]) && WireOk(s, START)
    ensures Run(s, f.its[..n]).left == 0 && |Run(s, f.its[..n]).past.hist| < |s.past.hist| + FRAME
            ==> Padded(Run(s, f.its[..n]), EmitAll(s, f.its[..n], START)).out <= f.bytes
  {
    hide Legal, Next, Emit, EmitAll, Run, LegalAll, Finish, Padded, WireOk, EndsInData;
    var a, b := f.its[..n], f.its[n..];
    ScriptRest(s, f.its, n);
    var mid := Run(s, a);
    EmitConcat(s, a, b, START);
    assert a + b == f.its;
    var w := EmitAll(s, a, START);
    if mid.left == 0 && |mid.past.hist| < |s.past.hist| + FRAME {
      if b == [] {
        assert a == f.its;
        EmitNothing(mid, w);
        WholeWritten(s, f);
      } else {
        NextAfter(f.bytes, mid, b, w);
      }
    }
  }

  lemma EmitNothing(s: State, w: Wire)
    requires WireOk(s, w)
    ensures LegalAll(s, []) && EmitAll(s, [], w) == w && Run(s, []) == s
  {
  }

  lemma WholeWritten(s: State, f: Frame)
    requires GoodFrame(s, f) && LegalAll(s, f.its) && WireOk(s, START)
             && |Run(s, f.its).past.hist| < |s.past.hist| + FRAME
    ensures Padded(Run(s, f.its), EmitAll(s, f.its, START)).out <= f.bytes
  {
    hide Legal, Next, Emit, Run, LegalAll, EmitAll, EndsInData, Extends;
    var w := EmitAll(s, f.its, START);
    var v := Padded(Run(s, f.its), w);
    EmitAllOk(s, f.its, START);
    PaddedOk(Run(s, f.its), w);
    FinishBegins(v);
    assert f.bytes == Finish(v);
  }

  lemma FinishBegins(v: Wire)
    requires |v.pend| < 16
    ensures v.out <= Finish(v)
  {
    hide Put;
    AlignIsAligned(v);
  }

  /** Between blocks only the header of a block, or the translation header, comes next. */
  lemma NextAfter(f: seq<byte>, s: State, its: seq<Item>, w: Wire)
    requires LegalAll(s, its) && WireOk(s, w) && its != [] && s.left == 0 && Extends(f, EmitAll(s, its, w))
    ensures Padded(s, w).out <= f
  {
    hide Next, EmitAll, Fits, Play, Served, GoodOpen;
    FirstItem(f, s, its, w);
    WidthPositive(s, its[0]);
    EmitBack(f, s, its[0], w);
  }

  lemma WidthPositive(s: State, it: Item)
    requires Legal(s, it) && s.left == 0
    ensures it.Open? || (it.Group? && s.kind == Closed)
  {
    hide Fits, Play, Served, GoodOpen;
  }

  /** An item that brings no byte between blocks is a header. */
  lemma BringsNone(s: State, it: Item)
    requires Legal(s, it) && |Next(s, it).past.hist| <= |s.past.hist|
    ensures it.Group? || it.Open?
    ensures it.Open? ==> Next(s, it).left > 0 && s.left == 0
    ensures it.Group? ==> !Next(s, it).first && s.kind == Closed && Next(s, it).kind == Closed && s.left == 0
    ensures it.Group? ==> s.first && it.fileSize < WORD32
  {
    hide Served, GoodTrees, GoodAligned, Copy;
    if it.Coded? {
      PlayAdds(s.past, it.t);
    }
  }

  lemma PlayAdds(p: Past, t: Token)
    requires Fits(p, t)
    ensures |Play(p, t).hist| == |p.hist| + Width(t) && (Plain(t) ==> Width(t) > 0)
  {
    hide Copy;
  }

  lemma RunStep(s: State, its: seq<Item>)
    requires LegalAll(s, its) && its != []
    ensures Legal(s, its[0]) && LegalAll(Next(s, its[0]), its[1..]) && Run(s, its) == Run(Next(s, its[0]), its[1..])
    ensures |s.past.hist| <= |Next(s, its[0]).past.hist| <= |Run(s, its).past.hist|
  {
    hide Legal, Next;
    NextGrows(s, its[0]);
    RunGrows(Next(s, its[0]), its[1..]);
  }

  /** Inside a block, and then between blocks, nothing comes that brings no byte. */
  lemma NothingInside(s: State, its: seq<Item>)
    requires LegalAll(s, its) && |Run(s, its).past.hist| <= |s.past.hist| && (s.left > 0 || Run(s, its).left == 0)
             && !s.first
    ensures its == []
  {
    hide Legal, Next, Run, LegalAll;
    if its != [] {
      RunStep(s, its);
      BringsNone(s, its[0]);
      var u := Next(s, its[0]);
      if its[1..] == [] {
        EmptyRun(u);
      } else {
        RunStep(u, its[1..]);
        BringsNone(u, its[1..][0]);
      }
    }
  }

  lemma EmptyRun(s: State)
    ensures LegalAll(s, []) && Run(s, []) == s
  {
  }

  /** When no byte has come, at most the translation header has been written. */
  lemma OnlyHeader(s: State, its: seq<Item>)
    requires LegalAll(s, its) && |Run(s, its).past.hist| <= |s.past.hist| && Run(s, its).left == 0 && WireOk(s, START)
    ensures |Padded(Run(s, its), EmitAll(s, its, START)).out| <= 5
  {
    hide Legal, Next, Run, LegalAll, Emit, EmitAll, WireOk, Put;
    if its == [] {
      EmptyRun(s);
      EmitNothing(s, START);
    } else {
      RunStep(s, its);
      BringsNone(s, its[0]);
      var u := Next(s, its[0]);
      if its[0].Group? {
        NothingInside(u, its[1..]);
        assert its == [its[0]];
        EmptyRun(u);
        EmitOne(s, its[0], START);
        HeaderShort(s, its[0].fileSize);
      } else {
        OpenedAfter(s, its[0]);
        NothingInside(u, its[1..]);
        EmptyRun(u);
      }
    }
  }

  lemma OpenedAfter(s: State, it: Item)
    requires Legal(s, it) && it.Open?
    ensures !Next(s, it).first
  {
    hide Served, GoodTrees, GoodAligned, Shaped;
  }

  lemma HeaderShort(s: State, n: nat)
    requires Legal(s, Group(n)) && WireOk(s, START)
    ensures |Emit(s, Group(n), START).out| <= 4
  {
    hide Put, BitsOf;
    GroupLength(n);
    PutLength(START, GroupBits(n));
  }

  lemma GroupLength(n: nat)
    ensures |GroupBits(n)| <= 33
  {
  }

  // ---------- Noticing an overflow in time ----------

  /** Between two blocks the bytes part have been written of the frame that starts in state s, from the items its. */
  ghost predicate PartOf(s: State, its: seq<Item>, part: seq<byte>) {
    && LegalAll(s, its) && WireOk(s, START) && Run(s, its).left == 0
    && |Run(s, its).past.hist| < |s.past.hist| + FRAME && part == Padded(Run(s, its), EmitAll(s, its, START)).out
  }

  /** When the last flush began, early frames had been written, and the bytes part of the next one, if there is one. */
  ghost predicate Early(frames: seq<Frame>, early: nat, part: seq<byte>) {
    early <= |frames| && if early < |frames| then part <= frames[early].bytes else |part| <= OUTPUT_END
  }

  /** Too much had been written by then. */
  ghost predicate Noticed(frames: seq<Frame>, early: nat, part: seq<byte>)
    requires early <= |frames|
  {
    !Within(frames[..early]) || |part| > OUTPUT_END
  }

  lemma EarlyMake(frames: seq<Frame>, end: State, cur: seq<Item>, before: seq<Frame>, s: State, its: seq<Item>,
                  part: seq<byte>)
    requires Chain(FIRST, frames, end) && Chain(FIRST, before, s) && before <= frames && PartOf(s, its, part)
    requires its <= if |frames| == |before| then cur else frames[|before|].its
    requires |frames| == |before| ==> LegalAll(end, cur) && |Run(end, cur).past.hist| <= |end.past.hist|
    ensures Early(frames, |before|, part)
  {
    hide *;
    var n := |before|;
    assert frames[..n] == before;
    ChainRest(FIRST, frames, n, s, end);
    if n < |frames| {
      ChainHead(s, frames[n..], end);
      PartBegins(s, frames[n], its, part);
    } else {
      assert frames[n..] == [];
      ChainEmpty(s, end);
      PartHeader(s, cur, its, part);
    }
    EarlyIs(frames, n, part);
  }

  lemma ChainEmpty(s: State, t: State)
    requires Chain(s, [], t)
    ensures s == t
  {
  }

  lemma EarlyIs(frames: seq<Frame>, early: nat, part: seq<byte>)
    ensures Early(frames, early, part)
            <==> early <= |frames| && if early < |frames| then part <= frames[early].bytes else |part| <= 38848
  {
  }

  lemma PartBegins(s: State, f: Frame, its: seq<Item>, part: seq<byte>)
    requires GoodFrame(s, f) && its <= f.its && PartOf(s, its, part)
    ensures part <= f.bytes
  {
    hide GoodFrame, LegalAll, Run, EmitAll, WireOk, Padded;
    assert its == f.its[..|its|];
    WrittenBefore(s, f, |its|);
  }

  lemma PartHeader(s: State, cur: seq<Item>, its: seq<Item>, part: seq<byte>)
    requires LegalAll(s, cur) && |Run(s, cur).past.hist| <= |s.past.hist| && its <= cur && PartOf(s, its, part)
    ensures |part| <= 38848
  {
    hide LegalAll, Run, EmitAll, WireOk, Padded;
    var n := |its|;
    assert its == cur[..n] && cur == cur[..n] + cur[n..];
    ScriptRest(s, cur, n);
    RunConcat(s, its, cur[n..]);
    RunGrows(Run(s, its), cur[n..]);
    OnlyHeader(s, its);
  }

  /** An overflow is not noticed exactly when only frames of the last flush are too long, and the part of them written
      before it was not. */
  lemma NoticedLate(frames: seq<Frame>, early: nat, part: seq<byte>)
    requires Early(frames, early, part)
    ensures Noticed(frames, early, part) ==> !Within(frames)
    ensures !Within(frames) && !Noticed(frames, early, part)
            <==> Within(frames[..early]) && |part| <= OUTPUT_END && !Within(frames[early..])
  {
    assert frames == frames[..early] + frames[early..];
    if early < |frames| {
      assert frames[early] in frames;
    }
  }
}
