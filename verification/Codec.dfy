/** The whole codec: chunks are translated, tokens written into frames, frames decoded and translated
    back. Whatever tokens stand for the translated data, the data come back. */
module Codec {
  import opened Bits
  import opened BitStream
  import opened Slots
  import opened Tokens
  import opened Stream
  import opened Frames
  import opened E8
  import B = TokenBuffer
  import opened BlockWriter
  import opened BlockReader

  /** Frames from this one on are not translated. */
  const FRAME_THRESHOLD: nat := 32768

  const FILE_SIZE: nat := 12000000

  // ---------- Translation chunk by chunk ----------

  /** The scan of a chunk ends where it should: it is too short to scan, or its end position does not
      wrap below zero. */
  predicate Scannable(k: nat, n: nat) {
    n <= 6 || FRAME * k + n >= 10
  }

  function Chunk(encode: bool, s: seq<byte>, k: nat, size: nat): (r: seq<byte>)
    requires |s| <= FRAME && size < WORD32
    ensures |r| == |s|
  {
    if size != 0 && k < FRAME_THRESHOLD then Translated(encode, s, FRAME * k, size) else s
  }

  /** The data from chunk number k on, translated in chunks of 32768 bytes. */
  function Chunked(encode: bool, s: seq<byte>, k: nat, size: nat): (r: seq<byte>)
    requires size < WORD32
    ensures |r| == |s|
    decreases |s|
  {
    if s == [] then [] else
      var n := Min(FRAME, |s|);
      Chunk(encode, s[..n], k, size) + Chunked(encode, s[n..], k + 1, size)
  }

  /** A chunk of data without a call byte stays as it is. */
  lemma NothingTranslated(s: seq<byte>, size: nat)
    requires 0 < |s| <= FRAME && size < WORD32 && forall i :: 0 <= i < |s| ==> s[i] != CALL
    ensures Chunked(false, s, 0, size) == s
  {
    hide Translated;
    NothingToDo(false, s, 0, size);
    assert s[..|s|] == s && s[|s|..] == [];
    assert Chunked(false, s[|s|..], 1, size) == [];
    assert s + [] == s;
  }

  lemma {:induction false} ChunkedRestored(s: seq<byte>, k: nat, size: nat)
    requires 0 < size <= MAX_POS
    ensures Chunked(false, Chunked(true, s, k, size), k, size) == s
    decreases |s|
  {
    hide Translated;
    if s != [] {
      var n := Min(FRAME, |s|);
      var a, b := Chunk(true, s[..n], k, size), Chunked(true, s[n..], k + 1, size);
      assert (a + b)[..n] == a && (a + b)[n..] == b;
      ChunkedRestored(s[n..], k + 1, size);
      if k < FRAME_THRESHOLD {
        ChunkRestored(s[..n], FRAME * k, size);
      }
      assert s == s[..n] + s[n..];
    }
  }

  /** Only a first chunk of seven, eight or nine bytes cannot be scanned. */
  lemma OnlyShortData(k: nat, n: nat)
    ensures Scannable(k, n) <==> !(k == 0 && 7 <= n <= 9)
  {
  }

  /** Where the scan of n bytes from position start is to end: a difference of unsigned 32-bit words. */
  function ScanEnd(start: nat, n: nat): nat {
    if start + n >= 10 then start + n - 10 else start + n + WORD32 - 10
  }

  /** At a call byte at place p of the chunk the scan would stop. */
  predicate StopsAt(start: nat, n: nat, p: nat) {
    p < n && start + p >= ScanEnd(start, n)
  }

  /** There is a place inside the chunk where the scan of a chunk stops exactly when the chunk can be scanned. */
  lemma ScanStops(k: nat, n: nat)
    requires n > 6 && FRAME * k + n < WORD32
    ensures (exists p: nat :: StopsAt(FRAME * k, n, p)) <==> Scannable(k, n)
  {
    if Scannable(k, n) {
      assert StopsAt(FRAME * k, n, n - 1);
    }
  }

  /** The scan of a first chunk of seven bytes does not stop inside it. */
  lemma SevenBytesRunOn()
    ensures ScanEnd(0, 7) == 0xFFFF_FFFD && forall p: nat :: p < 7 ==> !StopsAt(0, 7, p)
    ensures !Scannable(0, 7) && !Scannable(0, 8) && !Scannable(0, 9) && Scannable(0, 6) && Scannable(0, 10)
  {
  }

  /** read_input for one chunk: the bytes go into the window and are translated there. */
  method ReadInput(mem: array<byte>, at: nat, data: seq<byte>, k: nat, size: nat)
    requires at + |data| <= mem.Length && 0 < |data| <= FRAME && size < WORD32 && Scannable(k, |data|)
    modifies mem
    ensures mem[..] == old(mem[..at]) + Chunk(true, data, k, size) + old(mem[at + |data|..])
  {
    hide Translated;
    ghost var before := mem[..];
    forall i | 0 <= i < |data| { mem[at + i] := data[i]; }
    assert mem[at..at + |data|] == data && mem[..at] == before[..at] && mem[at + |data|..] == before[at + |data|..];
    if size == 0 || k >= FRAME_THRESHOLD {
      assert mem[..] == mem[..at] + mem[at..at + |data|] + mem[at + |data|..];
      return;
    }
    var pos := TranslateE8(true, mem, at, |data|, FRAME * k, size);
  }

  /** All the data, chunk by chunk. */
  method ReadAll(data: seq<byte>, size: nat) returns (mem: array<byte>)
    requires size < WORD32 && Scannable(0, |data|)
    ensures fresh(mem) && mem[..] == Chunked(true, data, 0, size)
  {
    hide *;
    BufferSizeIs();
    mem := new byte[|data|];
    ghost var goal := Chunked(true, data, 0, size);
    var at, k := 0, 0;
    assert data[0..] == data && mem[..0] == [] && [] + goal == goal;
    while at < |data|
      invariant 0 <= at <= |data| && mem.Length == |data| && (at == 32768 * k || at == |data|) && (k > 0 || at == 0)
      invariant mem[..at] + Chunked(true, data[at..], k, size) == goal
    {
      var n := Min(32768, |data| - at);
      ghost var front := mem[..at];
      ReadStep(data, at, n, k, size, front);
      ReadInput(mem, at, data[at..at + n], k, size);
      assert mem[..at + n] == front + Chunk(true, data[at..at + n], k, size);
      at, k := at + n, k + 1;
    }
    ChunkedNothing(data[at..], k, size);
    assert mem[..at] == mem[..] && mem[..at] + [] == mem[..at];
  }

  lemma ReadStep(data: seq<byte>, at: nat, n: nat, k: nat, size: nat, front: seq<byte>)
    requires at < |data| && at == 32768 * k && n == Min(32768, |data| - at) && size < WORD32
             && (k > 0 || Scannable(0, |data|))
    ensures 0 < n <= FRAME && at + n <= |data| && Scannable(k, n) && (n == 32768 || at + n == |data|)
    ensures front + Chunk(true, data[at..at + n], k, size) + Chunked(true, data[at + n..], k + 1, size)
            == front + Chunked(true, data[at..], k, size)
  {
    hide Chunk, Chunked;
    var rest := data[at..];
    ChunkedStep(true, rest, k, size);
    assert rest[..n] == data[at..at + n] && rest[n..] == data[at + n..];
  }

  lemma ChunkedStep(encode: bool, s: seq<byte>, k: nat, size: nat)
    requires s != [] && size < WORD32
    ensures var n := Min(FRAME, |s|);
            n <= |s| && Chunked(encode, s, k, size) == Chunk(encode, s[..n], k, size)
              + Chunked(encode, s[n..], k + 1, size)
  {
    hide Chunk;
  }

  // ---------- Compression ----------

  /** The choices of the encoder that the result does not depend on: after which tokens a block ends, how many
      tokens are about to come at once, how different stretches of tokens seem, and what size a block is
      estimated at. */
  datatype Choices = Choices(cut: nat -> bool, ahead: nat -> nat, difference: B.Difference, estimate: nat -> nat)

  /** What the sliding window still holds: the data from position earliest on. */
  ghost predicate Holding(mem: array<byte>, data: seq<byte>, earliest: nat)
    reads mem
  {
    earliest <= |data| == mem.Length && mem[earliest..] == data[earliest..]
  }

  /** At the end of a chunk the window moves on: bytes more than a window back are lost. */
  method Slide(mem: array<byte>, filled: nat, earliest: nat, ghost data: seq<byte>) returns (newEarliest: nat)
    requires Holding(mem, data, earliest) && filled <= |data| && (earliest == 0 || earliest + Slots.WINDOW <= filled)
    modifies mem
    ensures Holding(mem, data, newEarliest) && (newEarliest == 0 || newEarliest + Slots.WINDOW <= filled)
    ensures (filled % FRAME == 0 || filled == |data|) && filled >= Slots.WINDOW ==> newEarliest == filled - Slots.WINDOW
    ensures filled % FRAME != 0 && filled != |data| ==> newEarliest == earliest && mem[..] == old(mem[..])
  {
    newEarliest := earliest;
    if (filled % 32768 == 0 || filled == mem.Length) && filled >= 131072 {
      newEarliest := filled - 131072;
      var i := 0;
      while i < newEarliest
        invariant 0 <= i <= newEarliest && mem[newEarliest..] == data[newEarliest..]
      {
        mem[i] := 0;
        i := i + 1;
      }
    }
  }

  /** The encoder has taken the tokens before ts and can still take ts, all of it standing for data. */
  ghost predicate Taking(e: Encoder, ts: seq<Token>, data: seq<byte>, size: nat, pos: nat)
    reads e, e.bw, e.buf, e.buf.itemType, e.buf.litData, e.buf.distData, e.buf.ones, e.main.prev, e.sec.prev,
          e.slotTable
  {
    && e.Valid() && !e.firstTime && e.Pending() && e.at.fileSize == size && pos == |e.at.past.hist|
    && FitsAll(e.Goal(), ts) && PlayAll(e.Goal(), ts).hist == data
  }

  lemma TakingParts(e: Encoder, ts: seq<Token>, data: seq<byte>, size: nat, pos: nat)
    requires Taking(e, ts, data, size, pos)
    ensures e.Valid() && !e.firstTime && e.Pending() && e.at.fileSize == size && pos == |e.at.past.hist|
    ensures FitsAll(e.Goal(), ts) && PlayAll(e.Goal(), ts).hist == data
  {
    hide FitsAll, PlayAll;
  }

  lemma TakingMake(e: Encoder, ts: seq<Token>, data: seq<byte>, size: nat, pos: nat)
    requires e.Valid() && !e.firstTime && e.Pending() && e.at.fileSize == size && pos == |e.at.past.hist|
    requires FitsAll(e.Goal(), ts) && PlayAll(e.Goal(), ts).hist == data
    ensures Taking(e, ts, data, size, pos)
  {
    hide FitsAll, PlayAll;
  }

  /** The bytes of the tokens held are in the window, if it still holds the place where the last block ended. */
  lemma HeldInWindow(mem: array<byte>, data: seq<byte>, earliest: nat, p: Past, held: seq<Token>, ts: seq<Token>)
    requires FitsAll(p, held) && FitsAll(PlayAll(p, held), ts) && PlayAll(PlayAll(p, held), ts).hist == data
    requires Holding(mem, data, earliest) && earliest <= |p.hist|
    ensures InWindow(mem, |p.hist|, p, held)
  {
    hide FitsAll, PlayAll, TotalWidth;
    var q := PlayAll(p, held);
    PlayAllWidth(p, held);
    PlayAllWidth(q, ts);
    var a, b := |p.hist|, |q.hist|;
    assert q.hist == data[..b] && p.hist == data[..a] && data[..b] == data[..a] + data[a..b];
    assert mem[a..b] == mem[earliest..][a - earliest..b - earliest] == data[earliest..][a - earliest..b - earliest]
           == data[a..b];
  }

  /** One block leaves. It may only leave uncompressed while its bytes are still in the window. */
  method EndBlock(e: Encoder, ghost ts: seq<Token>, mem: array<byte>, earliest: nat, size: nat, choices: Choices,
                  pos: nat, ghost data: seq<byte>)
    returns (newPos: nat)
    requires Taking(e, ts, data, size, pos) && e.buf.literals > 0 && Holding(mem, data, earliest)
    requires mem as object !in e.main.Owned() + e.sec.Owned() + e.al.Owned() && mem !in {e.buf.itemType, e.buf.litData}
             && mem as object != e.buf.distData
    modifies e, e.bw, e.buf, e.buf.itemType, e.buf.litData, e.buf.distData, e.main.Owned(), e.sec.Owned(), e.al.Owned()
    ensures Taking(e, ts, data, size, newPos) && e.buf.literals < old(e.buf.literals)
            && |e.Goal().hist| == old(|e.Goal().hist|)
    ensures pos <= newPos
    ensures e.at.kind == Uncompressed <==> choices.estimate(pos) >= newPos - pos && pos >= earliest
    ensures mem[..] == old(mem[..]) && e.markFrames == old(e.markFrames) && e.markCur == old(e.markCur)
  {
    hide *;
    TakingParts(e, ts, data, size, pos);
    e.PendingParts();
    if pos >= earliest {
      HeldInWindow(mem, data, earliest, e.at.past, e.buf.Held(), ts);
    }
    ghost var m := mem[..];
    var bytes := e.OutputBlock(choices.difference, choices.estimate(pos), pos >= earliest, mem, pos);
    newPos := pos + bytes;
    assert mem[..] == m;
    TakingMake(e, ts, data, size, newPos);
  }

  lemma HoldingSame(mem: array<byte>, m: seq<byte>, data: seq<byte>, earliest: nat)
    requires mem[..] == m && earliest <= |data| == |m| && m[earliest..] == data[earliest..]
    ensures Holding(mem, data, earliest)
  {
    assert mem[earliest..] == mem[..][earliest..];
  }

  lemma MaxSizes()
    ensures B.FULL == 65528 && B.MAX_DISTS == 32768
  {
  }

  lemma NoTokensHeld(e: Encoder)
    requires e.Valid() && e.buf.literals == 0
    ensures e.buf.distances == 0
  {
  }

  /** The encoder, the window and how far the tokens taken reach. */
  ghost predicate Busy(e: Encoder, ts: seq<Token>, mem: array<byte>, earliest: nat, data: seq<byte>, size: nat,
                       pos: nat, filled: nat)
    reads mem, e, e.bw, e.buf, e.buf.itemType, e.buf.litData, e.buf.distData, e.buf.ones, e.main.prev, e.sec.prev,
          e.slotTable
  {
    && Taking(e, ts, data, size, pos) && Holding(mem, data, earliest) && filled == |e.Goal().hist|
    && (earliest == 0 || earliest + Slots.WINDOW <= filled)
  }

  lemma BusyParts(e: Encoder, ts: seq<Token>, mem: array<byte>, earliest: nat, data: seq<byte>, size: nat, pos: nat,
                  filled: nat)
    requires Busy(e, ts, mem, earliest, data, size, pos, filled)
    ensures Taking(e, ts, data, size, pos) && Holding(mem, data, earliest) && e.Pending()
            && filled == |e.Goal().hist| <= |data|
    ensures earliest == 0 || earliest + Slots.WINDOW <= filled
  {
    hide FitsAll, PlayAll, Holding;
    PlayAllWidth(e.Goal(), ts);
  }

  lemma BusyMake(e: Encoder, ts: seq<Token>, mem: array<byte>, earliest: nat, data: seq<byte>, size: nat, pos: nat,
                 filled: nat)
    requires Taking(e, ts, data, size, pos) && Holding(mem, data, earliest) && e.Pending() && filled == |e.Goal().hist|
    requires earliest == 0 || earliest + Slots.WINDOW <= filled
    ensures Busy(e, ts, mem, earliest, data, size, pos, filled)
  {
    hide FitsAll, PlayAll, Holding, Taking;
  }

  /** Blocks leave: one if a cut is wanted, and more until the buffer has room for the tokens about to come, or until
      nothing is held. */
  method EndBlocks(e: Encoder, ghost ts: seq<Token>, mem: array<byte>, earliest: nat, size: nat, choices: Choices,
                   pos: nat, filled: nat,
                   wanted: bool, all: bool, room: nat, ghost data: seq<byte>)
    returns (newPos: nat)
    requires Busy(e, ts, mem, earliest, data, size, pos, filled) && room < 32760
    requires mem as object !in e.main.Owned() + e.sec.Owned() + e.al.Owned() && mem !in {e.buf.itemType, e.buf.litData}
             && mem as object != e.buf.distData
    modifies e, e.bw, e.buf, e.buf.itemType, e.buf.litData, e.buf.distData, e.main.Owned(), e.sec.Owned(), e.al.Owned()
    ensures Busy(e, ts, mem, earliest, data, size, newPos, filled) && mem[..] == old(mem[..])
    ensures e.markFrames == old(e.markFrames) && e.markCur == old(e.markCur)
    ensures e.buf.literals + room < B.FULL && e.buf.distances + room < B.MAX_DISTS - 8 && (all ==> e.buf.literals == 0)
    ensures wanted && old(e.buf.literals) > 0 ==> e.buf.literals < old(e.buf.literals)
  {
    hide *;
    MaxSizes();
    newPos := pos;
    var cut := wanted;
    ghost var m := mem[..];
    while e.buf.literals > 0 && (cut || all || e.buf.literals + room >= 65528 || e.buf.distances + room >= 32760)
      invariant Busy(e, ts, mem, earliest, data, size, newPos, filled) && mem[..] == m
      invariant e.markFrames == old(e.markFrames) && e.markCur == old(e.markCur)
      invariant if cut then e.buf.literals == old(e.buf.literals)
                else e.buf.literals <= old(e.buf.literals)
      invariant wanted && !cut && old(e.buf.literals) > 0 ==> e.buf.literals < old(e.buf.literals)
      decreases e.buf.literals
    {
      BusyParts(e, ts, mem, earliest, data, size, newPos, filled);
      newPos := EndBlock(e, ts, mem, earliest, size, choices, newPos, data);
      HoldingParts(m, data, earliest, mem);
      HoldingSame(mem, m, data, earliest);
      TakingParts(e, ts, data, size, newPos);
      BusyMake(e, ts, mem, earliest, data, size, newPos, filled);
      cut := false;
    }
    BusyParts(e, ts, mem, earliest, data, size, newPos, filled);
    TakingParts(e, ts, data, size, newPos);
    if e.buf.literals == 0 {
      NoTokensHeld(e);
    }
  }

  lemma HoldingParts(m: seq<byte>, data: seq<byte>, earliest: nat, mem: array<byte>)
    requires Holding(mem, data, earliest) && mem[..] == m
    ensures earliest <= |data| == |m| && m[earliest..] == data[earliest..]
  {
    assert mem[earliest..] == mem[..][earliest..];
  }

  /** What has been written so far is marked, and it is seen whether that is already too much. */
  method LookBack(e: Encoder, ghost ts: seq<Token>, mem: array<byte>, earliest: nat, ghost data: seq<byte>, size: nat,
                  pos: nat, filled: nat)
    returns (failed: bool, ghost s: State, ghost part: seq<byte>)
    requires Busy(e, ts, mem, earliest, data, size, pos, filled)
    modifies e`markFrames, e`markCur
    ensures Busy(e, ts, mem, earliest, data, size, pos, filled)
    ensures Chain(FIRST, e.markFrames, s) && PartOf(s, e.markCur, part)
    ensures failed <==> !Within(e.markFrames) || |part| > OUTPUT_END
  {
    hide *;
    BufferSizeIs();
    BusyParts(e, ts, mem, earliest, data, size, pos, filled);
    TakingParts(e, ts, data, size, pos);
    s := e.Mark();
    part := e.bw.out;
    failed := e.overflow || |e.bw.out| > 38848;
    TakingMake(e, ts, data, size, pos);
    BusyMake(e, ts, mem, earliest, data, size, pos, filled);
  }

  /** The tokens leave as blocks wherever the choices say, and whenever the buffer is full, while the window
      moves on behind them. What is left leaves in a last flush: an overflow is noticed only if it had come before. */
  method Compress(ts: seq<Token>, mem: array<byte>, size: nat, choices: Choices)
    returns (output: seq<byte>, overflow: bool, failed: bool, ghost frames: seq<Frame>, ghost last: State,
             ghost early: nat, ghost part: seq<byte>)
    requires FitsAll(FIRST.past, ts) && mem[..] == PlayAll(FIRST.past, ts).hist && size < WORD32
    modifies mem
    ensures Chain(FIRST, frames, last) && last.past.hist == old(mem[..])
    ensures output == Flat(frames) && (overflow <==> !Within(frames))
    ensures Early(frames, early, part) && early <= |frames| && (failed <==> Noticed(frames, early, part))
    ensures last.past.hist != [] ==> last.fileSize == size
  {
    hide *;
    MaxSizes();
    ghost var data := mem[..];
    var e := StartEncoder(mem, size, ts);
    var i, pos: nat, filled: nat, earliest: nat := 0, 0, 0, 0;
    assert ts[0..] == ts;
    HoldingSame(mem, data, data, 0);
    BusyMake(e, ts, mem, earliest, data, size, pos, filled);
    while i < |ts|
      invariant 0 <= i <= |ts| && Busy(e, ts[i..], mem, earliest, data, size, pos, filled)
      invariant e.buf.literals < B.FULL && e.buf.distances < B.MAX_DISTS - 8
      modifies mem, e, e.bw, e.buf, e.buf.itemType, e.buf.litData, e.buf.distData, e.main.Owned(), e.sec.Owned(),
               e.al.Owned()
    {
      filled := TakeToken(e, ts, i, mem, earliest, size, pos, filled, data);
      i := i + 1;
      earliest := SlideOn(e, ts[i..], mem, earliest, size, pos, filled, data);
      var room := if choices.ahead(i) < 4110 then choices.ahead(i) else 4110;
      pos := EndBlocks(e, ts[i..], mem, earliest, size, choices, pos, filled, choices.cut(i), false, room, data);
    }
    ghost var s;
    failed, s, part := LookBack(e, ts[i..], mem, earliest, data, size, pos, filled);
    ghost var before, its := e.markFrames, e.markCur;
    early := |before|;
    pos := EndBlocks(e, ts[i..], mem, earliest, size, choices, pos, filled, false, true, 0, data);
    assert ts[|ts|..] == [];
    BusyParts(e, ts[i..], mem, earliest, data, size, pos, filled);
    TakingParts(e, ts[i..], data, size, pos);
    AllPlayed(e.Goal(), ts[i..]);
    e.Finish(choices.difference, choices.estimate, false, mem, pos);
    e.MarkedParts();
    output, overflow, frames, last := e.output, e.overflow, e.frames, e.start;
    EarlyMake(frames, last, e.cur, before, s, its, part);
    NoticedIs(frames, before, part);
  }

  lemma NoticedIs(frames: seq<Frame>, before: seq<Frame>, part: seq<byte>)
    requires before <= frames
    ensures |before| <= |frames| && (Noticed(frames, |before|, part) <==> !Within(before) || |part| > OUTPUT_END)
  {
    hide Within;
    assert frames[..|before|] == before;
  }

  /** One more token is taken. */
  method TakeToken(e: Encoder, ts: seq<Token>, i: nat, ghost mem: array<byte>, ghost earliest: nat, ghost size: nat,
                   ghost pos: nat, filled: nat,
                   ghost data: seq<byte>)
    returns (newFilled: nat)
    requires i < |ts| && Busy(e, ts[i..], mem, earliest, data, size, pos, filled) && e.buf.literals < B.FULL
             && e.buf.distances < B.MAX_DISTS - 8
    requires mem as object !in e.main.Owned() + e.sec.Owned() + e.al.Owned() && mem !in {e.buf.itemType, e.buf.litData}
             && mem as object != e.buf.distData
    modifies e.buf`literals, e.buf`distances, e.buf.itemType, e.buf.litData, e.buf.distData
    ensures Busy(e, ts[i + 1..], mem, earliest, data, size, pos, newFilled)
  {
    hide *;
    MaxSizes();
    BusyParts(e, ts[i..], mem, earliest, data, size, pos, filled);
    TakingParts(e, ts[i..], data, size, pos);
    PlaySplit(e.Goal(), ts, i);
    ghost var m := mem[..];
    HoldingParts(m, data, earliest, mem);
    WidthIs(e.Goal(), ts[i]);
    newFilled := filled + if ts[i].Literal? then 1 else ts[i].len;
    e.AddToken(ts[i]);
    assert mem[..] == m;
    HoldingSame(mem, m, data, earliest);
    TakingMake(e, ts[i + 1..], data, size, pos);
    BusyMake(e, ts[i + 1..], mem, earliest, data, size, pos, newFilled);
  }

  lemma WidthIs(p: Past, t: Token)
    requires Fits(p, t)
    ensures |Play(p, t).hist| == |p.hist| + if t.Literal? then 1 else t.len
  {
  }

  /** The window moves on while tokens are held. */
  method SlideOn(e: Encoder, ghost ts: seq<Token>, mem: array<byte>, earliest: nat, ghost size: nat, ghost pos: nat,
                 filled: nat, ghost data: seq<byte>)
    returns (newEarliest: nat)
    requires Busy(e, ts, mem, earliest, data, size, pos, filled)
    requires mem as object !in e.main.Owned() + e.sec.Owned() + e.al.Owned() && mem !in {e.buf.itemType, e.buf.litData}
             && mem as object != e.buf.distData
    requires mem as object !in {e.buf.ones, e.main.prev, e.sec.prev, e.slotTable}
    modifies mem
    ensures Busy(e, ts, mem, newEarliest, data, size, pos, filled)
  {
    hide *;
    BusyParts(e, ts, mem, earliest, data, size, pos, filled);
    newEarliest := Slide(mem, filled, earliest, data);
    BusyMake(e, ts, mem, newEarliest, data, size, pos, filled);
  }

  /** The encoder with its translation header written. */
  method StartEncoder(mem: array<byte>, size: nat, ghost ts: seq<Token>) returns (e: Encoder)
    requires FitsAll(FIRST.past, ts) && mem[..] == PlayAll(FIRST.past, ts).hist && size < WORD32
    ensures Taking(e, ts, mem[..], size, 0) && e.Goal().hist == [] && e.Pending() && e.buf.literals == 0
            && e.buf.distances == 0
    ensures fresh(e) && fresh(e.bw) && fresh(e.buf) && fresh(e.buf.itemType) && fresh(e.buf.litData)
            && fresh(e.buf.distData)
    ensures fresh(e.main.Owned()) && fresh(e.sec.Owned()) && fresh(e.al.Owned())
    ensures mem as object !in e.main.Owned() + e.sec.Owned() + e.al.Owned() && mem !in {e.buf.itemType, e.buf.litData}
            && mem as object != e.buf.distData
  {
    hide *;
    e := new Encoder();
    e.LayoutParts();
    FirstValid(e);
    e.BeginGroup(size);
    FirstFacts();
    e.ValidParts();
    AllPlayed(e.at.past, e.buf.Held());
    NoTokensHeld(e);
    e.PendingMake();
    TakingMake(e, ts, mem[..], size, 0);
  }

  lemma FirstFacts()
    ensures FIRST.past.hist == [] && FIRST.past.queue == FIRST_QUEUE && FIRST.first && FIRST.kind == Closed
            && FIRST.left == 0
  {
  }

  lemma FirstValid(e: Encoder)
    requires e.Layout() && e.SlotsReady() && e.Wired() && e.Books() && e.at == FIRST && e.total == 0 && e.buf.Valid()
    requires e.repeated == FIRST_QUEUE && e.firstTime && e.main.len.Length == 701 == e.main.prev.Length
             && e.sec.prev.Length == 250
    requires e.main.prev[..MAIN] == NO_CODES.main && e.sec.prev[..SECONDARY] == NO_CODES.sec
    ensures e.Valid()
  {
    hide LegalAll, Run, EmitAll, Chain, B.ClearFrom, B.Matches, B.OnesTable, Flat, Within, InSlot;
    e.WiredParts();
    e.SettledMake(e.bw.Pos());
    e.ValidMake();
  }

  // ---------- Decompression ----------

  /** A frame that starts at a multiple of 32768 bytes has room before the end of the window. */
  lemma RoomInWindow(base: nat, pos: nat, n: nat)
    requires base % Slots.WINDOW == 0 && (base + pos) % FRAME == 0 && pos < Slots.WINDOW && n <= FRAME
    ensures pos + n <= Slots.WINDOW
  {
    var q, m := base / 131072, (base + pos) / 32768;
    assert base == 131072 * q && base + pos == 32768 * m;
    assert pos == 32768 * (m - 4 * q);
  }

  lemma WindowBase(d: Decoder, s: State)
    requires d.Is(s)
    ensures d.window.base % Slots.WINDOW == 0 && d.window.base + d.window.pos == |s.past.hist|
  {
    hide BlockReader.D.Finds;
  }

  lemma GoodParts(s: State, f: Frame)
    requires GoodFrame(s, f)
    ensures Script(f.bytes, s, f.its, START) && LegalAll(s, f.its) && f.size == Total(s, f.its) > 0
    ensures f.size <= FRAME == 32768 && |s.past.hist| % FRAME == 0 && WireOk(s, START)
    ensures |Run(s, f.its).past.hist| == |s.past.hist| + f.size && s.past.hist <= Run(s, f.its).past.hist
  {
    hide LegalAll, Run, EmitAll, Extends, EndsInData, BytesOf;
    RunGrows(s, f.its);
  }

  /** lzx_decompress_block: a frame goes into the input buffer, in front of what is left there, and is
      decoded and translated back. */
  method DecompressBlock(d: Decoder, frame: seq<byte>, uncompressed: nat, buffer: seq<byte>, k: nat, ghost s: State,
                         ghost f: Frame)
    returns (ok: bool, out: seq<byte>)
    requires d.Is(s) && d.window.pos < Slots.WINDOW && GoodFrame(s, f) && frame == f.bytes && uncompressed == f.size
    requires |buffer| == OUTPUT_SIZE && (|frame| + 4 < OUTPUT_SIZE || |frame| > OUTPUT_SIZE)
    requires |s.past.hist| == FRAME * k && Scannable(k, f.size) && Run(s, f.its).fileSize < WORD32
    modifies d, d.window, d.window.win, d.mainLen, d.mainPrev, d.secLen, d.secPrev, d.alLen, d.mainTable, d.mainLR,
             d.secTable, d.secLR, d.alTable
    ensures LegalAll(s, f.its) && (ok <==> |frame| <= OUTPUT_SIZE)
    ensures ok ==> d.Is(Run(s, f.its)) && d.window.pos < Slots.WINDOW
    ensures ok ==> out == Chunk(false, Run(s, f.its).past.hist[|s.past.hist|..], k, Run(s, f.its).fileSize)
  {
    hide *;
    BufferSizeIs();
    GoodParts(s, f);
    out := [];
    if |frame| > 38912 || uncompressed > 32768 {
      return false, out;
    }
    ok := true;
    var r := new BitReader(frame + buffer[|frame|..], |frame| + 4);
    FrameOf(r, frame, buffer);
    d.IsParts(s);
    if d.blockType != Uncompressed {
      r.InitBitbuf();
    }
    AtStart(r, s, f);
    WindowBase(d, s);
    RoomInWindow(d.window.base, d.window.pos, uncompressed);
    ghost var base, pos := d.window.base, d.window.pos;
    var data, w := d.DecodeData(r, uncompressed, s, f.its, START);
    d.WrappedCases(base, pos + uncompressed);
    d.IsParts(Run(s, f.its));
    ghost var bytes := data[..];
    ChunkCases(bytes, k, d.fileSize);
    if d.fileSize != 0 && k < 32768 {
      assert data[0..0 + data.Length] == bytes && data[..0] == [] && data[0 + data.Length..] == [];
      var newPos := TranslateE8(false, data, 0, data.Length, 32768 * k, d.fileSize);
    }
    out := data[..];
  }

  lemma BufferSizeIs()
    ensures OUTPUT_END == 38848 && OUTPUT_SIZE == 38912 && FRAME == 32768 && FRAME_THRESHOLD == 32768
            && Slots.WINDOW == 131072
  {
  }

  lemma FrameOf(r: BitReader, frame: seq<byte>, buffer: seq<byte>)
    requires |frame| + 4 < 38912 && |buffer| == 38912 && r.input == frame + buffer[|frame|..] && r.end == |frame| + 4
    ensures 4 <= r.end < |r.input| && r.Frame() == frame
  {
  }

  /** The reader stands at the start of the frame. */
  lemma AtStart(r: BitReader, s: State, f: Frame)
    requires GoodFrame(s, f) && 4 <= r.end < |r.input| && r.Frame() == f.bytes
    requires s.kind != Uncompressed ==> r.At(Wire(r.input[..0], []))
    requires s.kind == Uncompressed ==> r.curpos == 0 && !r.error
    ensures Remaining(r, s, f.its, START)
  {
    hide LegalAll, EmitAll, Total, BytesOf;
    assert r.input[..0] == [];
    EmitAllBack(r.Frame(), s, f.its, START);
  }

  lemma ChunkCases(s: seq<byte>, k: nat, size: nat)
    requires |s| <= FRAME && size < WORD32
    ensures Chunk(false, s, k, size) == if size != 0 && k < 32768 then Translated(false, s, FRAME * k, size) else s
    ensures k < 32768 ==> FRAME * k + |s| < WORD32
    ensures Scannable(k, |s|) ==> |s| <= 6 || 32768 * k + |s| >= 10
    ensures FRAME * k == 32768 * k
  {
    hide Translated;
  }

  /** The frames from state s on, with what has come out so far. */
  ghost predicate Decoded(d: Decoder, s: State, fs: seq<Frame>, last: State, out: seq<byte>, k: nat)
    reads d, d.window, d.window.win, d.mainLen, d.secLen, d.alLen, d.mainTable, d.mainLR, d.secTable, d.secLR, d.alTable
    requires last.fileSize < WORD32
  {
    && d.Is(s) && d.window.pos < Slots.WINDOW && Chain(s, fs, last) && s.past.hist <= last.past.hist
    && (fs != [] ==> |s.past.hist| == FRAME * k) && (s.first ==> s == FIRST)
    && out + Chunked(false, last.past.hist[|s.past.hist|..], k, last.fileSize)
       == Chunked(false, last.past.hist, 0, last.fileSize)
  }

  lemma DecodedParts(d: Decoder, s: State, fs: seq<Frame>, last: State, out: seq<byte>, k: nat)
    requires last.fileSize < WORD32 && Decoded(d, s, fs, last, out, k)
    ensures d.Is(s) && d.window.pos < Slots.WINDOW && Chain(s, fs, last) && s.past.hist <= last.past.hist
    ensures fs != [] ==> |s.past.hist| == FRAME * k
    ensures s.first ==> s == FIRST
    ensures out + Chunked(false, last.past.hist[|s.past.hist|..], k, last.fileSize)
            == Chunked(false, last.past.hist, 0, last.fileSize)
  {
    hide Chain, Chunked;
  }

  lemma DecodedMake(d: Decoder, s: State, fs: seq<Frame>, last: State, out: seq<byte>, k: nat)
    requires last.fileSize < WORD32
    requires d.Is(s) && d.window.pos < Slots.WINDOW && Chain(s, fs, last) && s.past.hist <= last.past.hist
    requires fs != [] ==> |s.past.hist| == FRAME * k
    requires s.first ==> s == FIRST
    requires out + Chunked(false, last.past.hist[|s.past.hist|..], k, last.fileSize)
             == Chunked(false, last.past.hist, 0, last.fileSize)
    ensures Decoded(d, s, fs, last, out, k)
  {
    hide Chain, Chunked;
  }

  /** The next frame, and where its header and bytes are in the data. */
  lemma NextFrameOf(s: State, fs: seq<Frame>, last: State, src: seq<byte>, pos: nat)
    requires Chain(s, fs, last) && pos < |src| && src[pos..] == Flat(fs) && Within(fs) && (s.first ==> s == FIRST)
    ensures fs != [] && GoodFrame(s, fs[0]) && LegalAll(s, fs[0].its) && Chain(Run(s, fs[0].its), fs[1..], last)
    ensures pos + 4 + |fs[0].bytes| <= |src| && |fs[0].bytes| <= OUTPUT_END && Within(fs[1..])
    ensures Word(src[pos], src[pos + 1]) == |fs[0].bytes| && Word(src[pos + 2], src[pos + 3]) == fs[0].size
    ensures src[pos + 4..pos + 4 + |fs[0].bytes|] == fs[0].bytes && src[pos + 4 + |fs[0].bytes|..] == Flat(fs[1..])
    ensures !Run(s, fs[0].its).first && (|fs| == 1 ==> last == Run(s, fs[0].its))
    ensures last.fileSize == Run(s, fs[0].its).fileSize && Run(s, fs[0].its).past.hist <= last.past.hist
    ensures |fs| > 1 ==> |Run(s, fs[0].its).past.hist| % FRAME == 0
  {
    hide LegalAll, Run, EmitAll, Extends, WireOk, Total, EndsInData, BytesOf;
    var f, h := fs[0], Header(|fs[0].bytes|, fs[0].size);
    GoodParts(s, f);
    var t := src[pos..];
    assert t == h + f.bytes + Flat(fs[1..]);
    assert t[0] == h[0] && t[1] == h[1] && t[2] == h[2] && t[3] == h[3];
    LowHigh(|f.bytes|);
    LowHigh(f.size);
    assert t[4..4 + |f.bytes|] == f.bytes && t[4 + |f.bytes|..] == Flat(fs[1..]);
    assert src[pos + 4..pos + 4 + |f.bytes|] == t[4..4 + |f.bytes|] && src[pos + 4 + |f.bytes|..] == t[4 + |f.bytes|..];
    if s.first {
      FirstFrame(f);
    } else {
      RunFileSize(s, f.its);
    }
    ChainFileSize(Run(s, f.its), fs[1..], last);
    ChainGrows(Run(s, f.its), fs[1..], last);
    if |fs| > 1 {
      NextStarts(Run(s, f.its), fs[1..], last);
    }
  }

  lemma NextStarts(s: State, fs: seq<Frame>, last: State)
    requires Chain(s, fs, last) && fs != []
    ensures |s.past.hist| % FRAME == 0
  {
    hide LegalAll, Run, EmitAll, Extends, WireOk, Total, EndsInData, BytesOf;
  }

  lemma {:induction false} ChainGrows(s: State, fs: seq<Frame>, last: State)
    requires Chain(s, fs, last)
    ensures s.past.hist <= last.past.hist && (fs == [] ==> s == last)
    decreases |fs|
  {
    hide LegalAll, Run, EmitAll, Extends, WireOk, Total, EndsInData, BytesOf;
    if fs != [] {
      GoodParts(s, fs[0]);
      ChainGrows(Run(s, fs[0].its), fs[1..], last);
    }
  }

  /** A frame that is not the last is full, so it is exactly one chunk. */
  lemma ChunkOfFrame(hist: seq<byte>, a: nat, n: nat, k: nat, size: nat, out: seq<byte>)
    requires size < WORD32 && a + n <= |hist| && 0 < n <= FRAME && a == FRAME * k && (a + n == |hist| || n == FRAME)
    requires out + Chunked(false, hist[a..], k, size) == Chunked(false, hist, 0, size)
    ensures |hist[a..a + n]| <= FRAME
    ensures out + Chunk(false, hist[a..a + n], k, size) + Chunked(false, hist[a + n..], k + 1, size)
            == Chunked(false, hist, 0, size)
  {
    hide Chunk, Chunked;
    var rest := hist[a..];
    ChunkedStep(false, rest, k, size);
    assert Min(FRAME, |rest|) == n && rest[..n] == hist[a..a + n] && rest[n..] == hist[a + n..];
  }

  lemma FullOrLast(a: nat, n: nat, total: nat)
    requires a % FRAME == 0 && 0 < n <= FRAME && ((a + n) % FRAME == 0 || a + n == total)
    ensures n == FRAME || a + n == total
  {
  }

  /** What a decoded frame adds. */
  lemma FrameDecoded(d: Decoder, s: State, fs: seq<Frame>, last: State, out: seq<byte>, bytes: seq<byte>, k: nat)
    requires last.fileSize < WORD32 && fs != [] && GoodFrame(s, fs[0]) && LegalAll(s, fs[0].its)
             && |s.past.hist| == FRAME * k
    requires Chain(Run(s, fs[0].its), fs[1..], last) && !Run(s, fs[0].its).first && s.past.hist <= last.past.hist
    requires Run(s, fs[0].its).fileSize == last.fileSize && Run(s, fs[0].its).past.hist <= last.past.hist
    requires d.Is(Run(s, fs[0].its)) && d.window.pos < Slots.WINDOW && fs[0].size <= FRAME
    requires fs[0].size == FRAME || |s.past.hist| + fs[0].size == |last.past.hist|
    requires |Run(s, fs[0].its).past.hist| == |s.past.hist| + fs[0].size
    requires bytes == Chunk(false, Run(s, fs[0].its).past.hist[|s.past.hist|..], k, Run(s, fs[0].its).fileSize)
    requires out + Chunked(false, last.past.hist[|s.past.hist|..], k, last.fileSize)
             == Chunked(false, last.past.hist, 0, last.fileSize)
    requires |fs| > 1 ==> fs[0].size == FRAME
    ensures Decoded(d, Run(s, fs[0].its), fs[1..], last, out + bytes, k + 1)
  {
    hide *;
    var next, n, a := Run(s, fs[0].its), fs[0].size, |s.past.hist|;
    GoodParts(s, fs[0]);
    FrameProduct(k);
    ChunkOfFrame(last.past.hist, a, n, k, last.fileSize, out);
    assert next.past.hist[a..] == last.past.hist[a..a + n];
    DecodedMake(d, next, fs[1..], last, out + bytes, k + 1);
  }

  lemma FrameProduct(k: nat)
    ensures FRAME * (k + 1) == FRAME * k + FRAME
  {
  }

  /** One frame of lzx_decompress. */
  method DecompressNext(d: Decoder, src: seq<byte>, pos: nat, buffer: seq<byte>, k: nat, out: seq<byte>,
                        ghost s: State, ghost fs: seq<Frame>, ghost last: State)
    returns (ok: bool, newPos: nat, newOut: seq<byte>)
    requires last.fileSize < WORD32 && Decoded(d, s, fs, last, out, k) && pos < |src| && src[pos..] == Flat(fs)
             && Within(fs)
    requires |buffer| == OUTPUT_SIZE && Scannable(0, |last.past.hist|)
    modifies d, d.window, d.window.win, d.mainLen, d.mainPrev, d.secLen, d.secPrev, d.alLen, d.mainTable, d.mainLR,
             d.secTable, d.secLR, d.alTable
    ensures fs != [] && LegalAll(s, fs[0].its) && ok && pos < newPos <= |src| && src[newPos..] == Flat(fs[1..])
            && Within(fs[1..])
    ensures Decoded(d, Run(s, fs[0].its), fs[1..], last, newOut, k + 1)
  {
    hide *;
    BufferSizeIs();
    DecodedParts(d, s, fs, last, out, k);
    NextFrameOf(s, fs, last, src, pos);
    ghost var f, next := fs[0], Run(s, fs[0].its);
    GoodParts(s, f);
    FullOrLast(|s.past.hist|, f.size, |last.past.hist|);
    FrameScannable(k, f.size, |last.past.hist|);
    var compressed, uncompressed := Word(src[pos], src[pos + 1]), Word(src[pos + 2], src[pos + 3]);
    var bytes;
    ok, bytes := DecompressBlock(d, src[pos + 4..pos + 4 + compressed], uncompressed, buffer, k, s, f);
    FrameDecoded(d, s, fs, last, out, bytes, k);
    newOut, newPos := out + bytes, pos + 4 + compressed;
  }

  /** lzx_decompress: the frames one after another. */
  method Decompress(src: seq<byte>, buffer: seq<byte>, ghost frames: seq<Frame>, ghost last: State)
    returns (ok: bool, out: seq<byte>)
    requires src == Flat(frames) && Chain(FIRST, frames, last) && Within(frames) && |buffer| == OUTPUT_SIZE
    requires Scannable(0, |last.past.hist|) && last.fileSize < WORD32
    ensures ok && out == Chunked(false, last.past.hist, 0, last.fileSize)
  {
    hide *;
    BufferSizeIs();
    var d := new Decoder();
    ghost var s, fs := FIRST, frames;
    var pos, k := 0, 0;
    out := [];
    ok := true;
    FirstFacts();
    ChainGrows(s, fs, last);
    assert last.past.hist[0..] == last.past.hist && src[0..] == src;
    assert out + Chunked(false, last.past.hist, 0, last.fileSize) == Chunked(false, last.past.hist, 0, last.fileSize);
    FirstChunk();
    DecodedMake(d, s, fs, last, out, k);
    while pos < |src|
      invariant Decoded(d, s, fs, last, out, k) && ok && 0 <= pos <= |src| && src[pos..] == Flat(fs) && Within(fs)
      decreases |src| - pos
      modifies d, d.window, d.window.win, d.mainLen, d.mainPrev, d.secLen, d.secPrev, d.alLen, d.mainTable, d.mainLR,
               d.secTable, d.secLR, d.alTable
    {
      ok, pos, out := DecompressNext(d, src, pos, buffer, k, out, s, fs, last);
      s, fs, k := Run(s, fs[0].its), fs[1..], k + 1;
    }
    FlatNothing(fs);
    DecodedParts(d, s, fs, last, out, k);
    ChainGrows(s, fs, last);
    ChunkedNothing(last.past.hist[|s.past.hist|..], k, last.fileSize);
    assert out + [] == out;
  }

  lemma FirstChunk()
    ensures FRAME * 0 == 0
  {
  }

  lemma FrameScannable(k: nat, n: nat, total: nat)
    requires Scannable(0, total) && (n == FRAME || FRAME * k + n == total)
    ensures Scannable(k, n)
  {
  }

  lemma FlatNothing(fs: seq<Frame>)
    requires Flat(fs) == []
    ensures fs == []
  {
    hide Header;
  }

  lemma ChunkedNothing(s: seq<byte>, k: nat, size: nat)
    requires s == [] && size < WORD32
    ensures Chunked(false, s, k, size) == []
  {
  }

  // ---------- Round trip ----------

  /** The round trip: for every list of tokens that stands for the translated data, however it is cut
      into blocks and whatever kinds of block are chosen, what the encoder writes without overflowing
      its buffer is decoded to the data. It overflows exactly when some frame of the script written is
      longer than the buffer, but reports a failure only if that was so before the last flush. */
  method RoundTrip(data: seq<byte>, ts: seq<Token>, choices: Choices, buffer: seq<byte>)
    returns (overflow: bool, failed: bool, ok: bool, out: seq<byte>, ghost frames: seq<Frame>, ghost last: State,
             ghost early: nat, ghost part: seq<byte>)
    requires FitsAll(FIRST.past, ts) && PlayAll(FIRST.past, ts).hist == Chunked(true, data, 0, FILE_SIZE)
    requires Scannable(0, |data|) && |buffer| == OUTPUT_SIZE
    ensures Chain(FIRST, frames, last) && last.past.hist == Chunked(true, data, 0, FILE_SIZE)
    ensures overflow <==> exists f :: f in frames && |f.bytes| > OUTPUT_END
    ensures Early(frames, early, part) && early <= |frames| && (failed <==> Noticed(frames, early, part))
    ensures failed ==> overflow
    ensures overflow && !failed <==> Within(frames[..early]) && |part| <= OUTPUT_END && !Within(frames[early..])
    ensures !overflow ==> ok && out == data
  {
    hide *;
    FileSizeIs();
    var mem := ReadAll(data, 12000000);
    var output;
    output, overflow, failed, frames, last, early, part := Compress(ts, mem, 12000000, choices);
    WithinIs(frames);
    NoticedLate(frames, early, part);
    ok, out := false, [];
    if !overflow {
      if data == [] {
        NoFrames(frames, last);
        ChunkedNothing(data, 0, 0);
      }
      ok, out := Decompress(output, buffer, frames, last);
      ChunkedRestored(data, 0, 12000000);
    }
  }

  lemma WithinIs(fs: seq<Frame>)
    ensures Within(fs) <==> !exists f :: f in fs && |f.bytes| > OUTPUT_END
  {
  }

  /** No bytes, no frames. */
  lemma NoFrames(fs: seq<Frame>, last: State)
    requires Chain(FIRST, fs, last) && last.past.hist == []
    ensures last.fileSize == 0
  {
    hide LegalAll, Run, EmitAll, Extends, WireOk, Total, EndsInData, BytesOf;
    if fs != [] {
      GoodParts(FIRST, fs[0]);
      ChainGrows(Run(FIRST, fs[0].its), fs[1..], last);
    }
  }

  lemma FileSizeIs()
    ensures FILE_SIZE == 12000000 < WORD32 && 0 < FILE_SIZE <= MAX_POS
  {
  }
}
