/** From data to data: the parser chooses the tokens, the encoder writes them, the decoder reads them. */
module Compressor {
  import opened Bits
  import opened Tokens
  import opened E8
  import opened Codec
  import BW = BlockWriter
  import opened Frames
  import Stream
  import F = Searching
  import P = Parser
  import L = Lookahead
  import S = Slots

  /** The window with the data read so far, and the tokens that stand for it. */
  ghost predicate Read(p: P.Parser, mem: array<byte>, data: seq<byte>, at: nat, k: nat, size: nat)
    requires size < WORD32
    reads p, mem, p.finder, p.finder.root, p.finder.left, p.finder.right
  {
    && p.mem == mem && at <= |data| && mem.Length == S.WINDOW + |data| + 257
       && p.finder.left.Length == S.WINDOW + |data|
    && p.bufPos == S.WINDOW + at
       && mem[S.WINDOW..S.WINDOW + at] + Chunked(true, data[at..], k, size) == Chunked(true, data, 0, size)
    && (at == FRAME * k || at == |data|) && (k > 0 || at == 0) && (at < |data| ==> p.Fresh() || p.Rested())
    && P.Stands(mem[..], S.WINDOW, p.bufPos, p.queue, p.tokens)
  }

  lemma ReadParts(p: P.Parser, mem: array<byte>, data: seq<byte>, at: nat, k: nat, size: nat)
    requires size < WORD32 && Read(p, mem, data, at, k, size)
    ensures p.mem == mem && at <= |data| && mem.Length == S.WINDOW + |data| + 257
            && p.finder.left.Length == S.WINDOW + |data|
    ensures p.bufPos == S.WINDOW + at
            && mem[S.WINDOW..S.WINDOW + at] + Chunked(true, data[at..], k, size) == Chunked(true, data, 0, size)
    ensures (at == FRAME * k || at == |data|) && (k > 0 || at == 0) && (at < |data| ==> p.Fresh() || p.Rested())
    ensures P.Stands(mem[..], S.WINDOW, p.bufPos, p.queue, p.tokens)
  {
    hide P.Stands, Chunked, p.Rested, p.Fresh;
  }

  lemma ReadMake(p: P.Parser, mem: array<byte>, data: seq<byte>, at: nat, k: nat, size: nat)
    requires size < WORD32
    requires p.mem == mem && at <= |data| && mem.Length == S.WINDOW + |data| + 257
             && p.finder.left.Length == S.WINDOW + |data|
    requires p.bufPos == S.WINDOW + at
             && mem[S.WINDOW..S.WINDOW + at] + Chunked(true, data[at..], k, size) == Chunked(true, data, 0, size)
    requires (at == FRAME * k || at == |data|) && (k > 0 || at == 0) && (at < |data| ==> p.Fresh() || p.Rested())
    requires P.Stands(mem[..], S.WINDOW, p.bufPos, p.queue, p.tokens)
    ensures Read(p, mem, data, at, k, size)
  {
    hide P.Stands, Chunked, p.Rested, p.Fresh;
  }

  /** A chunk is read into the window behind what has been parsed. */
  method ReadChunk(p: P.Parser, mem: array<byte>, data: seq<byte>, at: nat, n: nat, k: nat, size: nat)
    requires size < WORD32 && Read(p, mem, data, at, k, size) && at < |data| && n == Min(32768, |data| - at)
             && Scannable(0, |data|)
    requires mem as object !in {p.finder.root, p.finder.left, p.finder.right}
    modifies mem
    ensures p.Fresh() || p.Rested()
    ensures n > 0 && at + n <= |data| && (n == FRAME || at + n == |data|) && n <= FRAME && p.bufPos == S.WINDOW + at
            && p.bufPos % FRAME == 0
    ensures p.bufPos + n <= p.finder.left.Length && p.mem == mem && p.finder.left.Length == S.WINDOW + |data|
    ensures mem[S.WINDOW..S.WINDOW + (at + n)] + Chunked(true, data[at + n..], k + 1, size)
            == Chunked(true, data, 0, size)
  {
    hide *;
    ReadParts(p, mem, data, at, k, size);
    Places(at, k, |data|);
    ghost var m, first := mem[..], p.Fresh();
    if !first {
      p.RestedNow();
    }
    ghost var front := mem[131072..131072 + at];
    ReadStep(data, at, n, k, size, front);
    ReadInput(mem, 131072 + at, data[at..at + n], k, size);
    FrontAndChunk(m, mem[..], 131072 + at, 131072, Chunk(true, data[at..at + n], k, size), n, at);
    if !first {
      p.RestedReads(m);
    }
  }

  /** Where a chunk starts. */
  lemma Places(at: nat, k: nat, n: nat)
    requires (at == FRAME * k || at == n) && at < n
    ensures at == 32768 * k && S.WINDOW == 131072 && FRAME == 32768 && (131072 + at) % 32768 == 0
  {
  }

  lemma FrontAndChunk(m: seq<byte>, m': seq<byte>, pos: nat, start: nat, chunk: seq<byte>, n: nat, at: nat)
    requires |chunk| == n && pos + n <= |m| && m' == m[..pos] + chunk + m[pos + n..] && pos == start + at
    ensures |m'| == |m| && m'[..pos] == m[..pos] && m'[start..start + (at + n)] == m[start..start + at] + chunk
            && pos <= |m|
  {
  }

  /** Chunk after chunk is read and parsed: the tokens stand for all of the translated data. */
  method ParseAll(data: seq<byte>, size: nat, h: P.Heuristics) returns (ts: seq<Token>)
    requires size < WORD32 && Scannable(0, |data|)
    ensures FitsAll(Stream.FIRST.past, ts) && PlayAll(Stream.FIRST.past, ts).hist == Chunked(true, data, 0, size)
  {
    hide *;
    F.WindowSize();
    var mem := new byte[131072 + |data| + 257];
    var p := new P.Parser(mem, 131072 + |data|);
    var at: nat, k: nat := 0, 0;
    FreshRead(p, mem, data, size);
    while at < |data|
      invariant at <= |data| && Read(p, mem, data, at, k, size) && fresh(mem) && fresh(p) && fresh(p.nodes)
      invariant fresh(p.finder) && fresh(p.finder.root) && fresh(p.finder.left) && fresh(p.finder.right)
                && fresh(p.finder.table)
      invariant mem as object !in {p.finder.root, p.finder.left, p.finder.right, p.finder.table}
                && p.nodes as object != mem
    {
      ReadParts(p, mem, data, at, k, size);
      var n := Min(32768, |data| - at);
      ReadChunk(p, mem, data, at, n, k, size);
      p.EncodeTop(n, h);
      Ahead(at, n, k, |data|);
      at, k := at + n, k + 1;
      ReadMake(p, mem, data, at, k, size);
    }
    ReadParts(p, mem, data, at, k, size);
    ts := p.tokens;
    ChunkedNothing(data[at..], k, size);
    AllStands(mem[..], S.WINDOW, p.bufPos, p.queue, ts);
    assert mem[..][S.WINDOW..p.bufPos] == mem[S.WINDOW..S.WINDOW + at];
    assert mem[S.WINDOW..S.WINDOW + at] + [] == mem[S.WINDOW..S.WINDOW + at];
  }

  lemma Ahead(at: nat, n: nat, k: nat, total: nat)
    requires (at == FRAME * k || at == total) && at < total && n == Min(32768, total - at)
    ensures (at + n == FRAME * (k + 1) || at + n == total) && (at + n < total ==> n == FRAME)
  {
  }

  lemma FreshRead(p: P.Parser, mem: array<byte>, data: seq<byte>, size: nat)
    requires size < WORD32 && p.Fresh() && p.mem == mem && mem.Length == S.WINDOW + |data| + 257
             && p.finder.left.Length == S.WINDOW + |data|
    ensures Read(p, mem, data, 0, 0, size)
            && mem as object !in {p.finder.root, p.finder.left, p.finder.right, p.finder.table}
               && p.nodes as object != mem
  {
    hide P.Stands, Chunked;
    P.StandsFirst(mem[..], S.WINDOW);
    assert data[0..] == data && mem[S.WINDOW..S.WINDOW + 0] == [];
    assert [] + Chunked(true, data, 0, size) == Chunked(true, data, 0, size);
  }

  lemma AllStands(m: seq<byte>, start: nat, pos: nat, q: Queue, ts: seq<Token>)
    requires P.Stands(m, start, pos, q, ts)
    ensures FitsAll(Stream.FIRST.past, ts) && start <= pos <= |m|
            && PlayAll(Stream.FIRST.past, ts).hist == m[start..pos]
  {
    hide FitsAll, PlayAll;
  }

  /** Compressing and decompressing: for all data, whatever the cost estimates, whether or not the first
      block is redone, and however blocks are cut and coded, what is compressed without overflow comes back.
      It overflows exactly when some frame of the script written is longer than the buffer. A failure is reported
      exactly when that was so before the last flush: of the frames that had been written then, or of the bytes that
      had been written of the next one. */
  method CompressAndDecompress(data: seq<byte>, h: P.Heuristics, choices: Choices, buffer: seq<byte>)
    returns (overflow: bool, failed: bool, ok: bool, out: seq<byte>, ghost frames: seq<Frame>, ghost last: Stream.State,
             ghost early: nat, ghost part: seq<byte>)
    requires Scannable(0, |data|) && |buffer| == OUTPUT_SIZE
    ensures Chain(Stream.FIRST, frames, last) && last.past.hist == Chunked(true, data, 0, FILE_SIZE)
    ensures overflow <==> exists f :: f in frames && |f.bytes| > OUTPUT_END
    ensures Early(frames, early, part) && early <= |frames| && (failed <==> Noticed(frames, early, part))
    ensures failed ==> overflow
    ensures overflow && !failed <==> Within(frames[..early]) && |part| <= OUTPUT_END && !Within(frames[early..])
    ensures !overflow ==> ok && out == data
  {
    hide *;
    FileSizeIs();
    var ts := ParseAll(data, 12000000, h);
    overflow, failed, ok, out, frames, last, early, part := RoundTrip(data, ts, choices, buffer);
  }
}
