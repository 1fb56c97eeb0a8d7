/** The decoder's window: a ring over the unbounded history. The first 257 bytes are kept a second
    time past the end, so that a match can be copied forward without wrapping its pointer. */
module Window {
  import opened Bits
  import opened Slots
  import opened Tokens

  const MIRROR: nat := 257

  /** (x) & window_mask. */
  function Masked(x: int): nat {
    x % WINDOW
  }

  /** Places that hold a byte of the history, when the ring has been filled up to pos since the
      history had base bytes. */
  predicate Live(base: nat, pos: nat, i: nat) {
    i < pos || (WINDOW <= base && i < WINDOW)
  }

  /** The history index of a live place. */
  function Index(base: nat, pos: nat, i: nat): (k: nat)
    requires Live(base, pos, i)
  {
    if i < pos then base + i else base - WINDOW + i
  }

  ghost predicate Ring(win: seq<byte>, hist: seq<byte>, base: nat, pos: nat) {
    && |win| == WINDOW + 261 && |hist| == base + pos && pos <= WINDOW && base % WINDOW == 0
    && forall i: nat :: Live(base, pos, i) ==> win[i] == hist[Index(base, pos, i)]
  }

  ghost predicate Mirrored(win: seq<byte>, base: nat, pos: nat) {
    |win| == WINDOW + 261 && forall i: nat :: i < MIRROR && Live(base, pos, i) ==> win[WINDOW + i] == win[i]
  }

  lemma RingSizes(win: seq<byte>, hist: seq<byte>, base: nat, pos: nat)
    requires Ring(win, hist, base, pos)
    ensures |win| == WINDOW + 261 == 131333 && |hist| == base + pos && pos <= WINDOW == 131072
  {
  }

  /** Reading backwards from the position, or from the end of a ring that has just wrapped. */
  lemma RingAt(win: seq<byte>, hist: seq<byte>, base: nat, pos: nat, i: nat)
    requires Ring(win, hist, base, pos) && (i < pos || (pos == 0 && i < WINDOW <= base))
    ensures i < |win| && (pos > 0 ==> base + i < |hist| && win[i] == hist[base + i])
    ensures pos == 0 ==> 0 <= base - WINDOW + i < |hist| && win[i] == hist[base - WINDOW + i]
  {
    assert Live(base, pos, i);
  }

  lemma RingPut(win: seq<byte>, hist: seq<byte>, base: nat, pos: nat, b: byte)
    requires Ring(win, hist, base, pos) && pos < WINDOW
    ensures Ring(win[pos := b], hist + [b], base, pos + 1)
  {
    var v, h := win[pos := b], hist + [b];
    forall i: nat | Live(base, pos + 1, i) ensures v[i] == h[Index(base, pos + 1, i)] {
      if i != pos {
        assert Live(base, pos, i);
      }
    }
  }

  lemma MirrorPut(win: seq<byte>, base: nat, pos: nat, b: byte)
    requires Mirrored(win, base, pos) && pos < WINDOW
    ensures MIRROR <= pos ==> Mirrored(win[pos := b], base, pos + 1)
    ensures pos < MIRROR ==> Mirrored(win[pos := b][WINDOW + pos := b], base, pos + 1)
  {
  }

  lemma RingMirror(win: seq<byte>, hist: seq<byte>, base: nat, pos: nat, i: nat, b: byte)
    requires Ring(win, hist, base, pos) && i < MIRROR
    ensures Ring(win[WINDOW + i := b], hist, base, pos)
  {
  }

  /** A full ring starts again at its beginning. */
  lemma RingWrap(win: seq<byte>, hist: seq<byte>, base: nat, pos: nat)
    requires Ring(win, hist, base, pos)
    ensures pos < WINDOW ==> Masked(pos) == pos
    ensures pos == WINDOW ==> Masked(pos) == 0 && Ring(win, hist, base + WINDOW, 0)
    ensures pos == WINDOW && Mirrored(win, base, pos) ==> Mirrored(win, base + WINDOW, 0)
  {
    if pos == WINDOW {
      forall i: nat | Live(base + WINDOW, 0, i) ensures win[i] == hist[Index(base + WINDOW, 0, i)] {
        assert Live(base, pos, i);
      }
    }
  }

  /** Reading off bytes back through the mask. */
  lemma Lookup(win: seq<byte>, hist: seq<byte>, base: nat, pos: nat, off: nat)
    requires Ring(win, hist, base, pos) && pos < WINDOW && 1 <= off <= |hist| && off <= WINDOW
    ensures Masked(pos - off) < |win| && win[Masked(pos - off)] == hist[|hist| - off]
    ensures Masked(pos - off) == if off <= pos then pos - off else pos - off + WINDOW
  {
    var i := if off <= pos then pos - off else pos - off + WINDOW;
    assert Live(base, pos, i);
    assert (pos - off) % WINDOW == i;
  }

  /** A pointer that was masked when the copy began is still right after it has run on by k < 257. */
  lemma LookupAhead(win: seq<byte>, hist: seq<byte>, base: nat, pos: nat, off: nat, ptr: nat, k: nat)
    requires Ring(win, hist, base, pos) && Mirrored(win, base, pos) && k <= pos < WINDOW && k < MIRROR
    requires 1 <= off <= |hist| - k && off <= WINDOW && ptr == Masked(pos - k - off) + k
    ensures ptr < |win| && win[ptr] == hist[|hist| - off]
  {
    var start := pos - k;
    assert Masked(start - off) == if off <= start then start - off else start - off + WINDOW;
    if off <= start {
      assert Live(base, pos, ptr);
    } else {
      assert ptr == pos - off + WINDOW;
      if ptr < WINDOW {
        assert Live(base, pos, ptr);
      } else {
        assert Live(base, pos, ptr - WINDOW);
      }
    }
  }

  lemma CopyStep(h: seq<byte>, off: nat, n: nat)
    requires 1 <= off <= |h|
    ensures n > 0 ==> Copy(h, off, n) == Copy(h + [h[|h| - off]], off, n - 1)
    ensures n == 0 ==> Copy(h, off, n) == h
  {
  }

  /** The second copies are right except for places from..pos. */
  ghost predicate MirroredOutside(win: seq<byte>, base: nat, from: nat, pos: nat) {
    |win| == WINDOW + 261
    && forall i: nat :: i < MIRROR && Live(base, pos, i) && !(from <= i < pos) ==> win[WINDOW + i] == win[i]
  }

  lemma OutsidePut(win: seq<byte>, base: nat, from: nat, pos: nat, b: byte)
    requires MirroredOutside(win, base, from, pos) && from <= pos < WINDOW
    ensures MirroredOutside(win[pos := b], base, from, pos + 1)
  {
    var v := win[pos := b];
    forall i: nat | i < MIRROR && Live(base, pos + 1, i) && !(from <= i < pos + 1) ensures v[WINDOW + i] == v[i] {
      assert Live(base, pos, i);
    }
  }

  lemma OutsideMirror(win: seq<byte>, base: nat, from: nat, pos: nat)
    requires MirroredOutside(win, base, from, pos) && from < MIRROR
    ensures MirroredOutside(win[WINDOW + from := win[from]], base, from + 1, pos)
  {
  }

  lemma OutsideEnd(win: seq<byte>, base: nat, from: nat, pos: nat)
    ensures MirroredOutside(win, base, from, pos) && (from >= pos || from >= MIRROR) ==> Mirrored(win, base, pos)
  {
  }

  class RingWindow {
    const win: array<byte>
    var pos: nat
    ghost var base: nat
    ghost var hist: seq<byte>

    ghost predicate Valid()
      reads this, win
    {
      Ring(win[..], hist, base, pos) && Mirrored(win[..], base, pos)
    }

    constructor ()
      ensures Valid() && fresh(this) && fresh(win) && pos == 0 && base == 0 && hist == []
    {
      win := new byte[WINDOW + 261];
      pos, base, hist := 0, 0, [];
    }

    lemma ValidParts()
      requires Valid()
      ensures win.Length == 131333 && Ring(win[..], hist, base, pos) && MirroredOutside(win[..], base, pos, pos)
    {
    }

    /** A literal near the start of the ring is written twice. */
    method PutSlow(b: byte)
      requires Valid() && pos < MIRROR
      modifies this, win
      ensures Valid() && hist == old(hist) + [b] && pos == old(pos) + 1 && base == old(base)
    {
      hide Ring, Mirrored, Copy, Masked, Live, Index;
      RingSizes(win[..], hist, base, pos);
      MirrorSize();
      ghost var before := win[..];
      RingPut(before, hist, base, pos, b);
      MirrorPut(before, base, pos, b);
      RingMirror(before[pos := b], hist + [b], base, pos + 1, pos, b);
      win[pos] := b;
      win[WINDOW + pos] := b;
      assert win[..] == before[pos := b][WINDOW + pos := b];
      pos, hist := pos + 1, hist + [b];
    }

    method PutFast(b: byte)
      requires Valid() && MIRROR <= pos < WINDOW
      modifies this, win
      ensures Valid() && hist == old(hist) + [b] && pos == old(pos) + 1 && base == old(base)
    {
      hide Ring, Mirrored, Copy, Masked, Live, Index;
      RingSizes(win[..], hist, base, pos);
      ghost var before := win[..];
      RingPut(before, hist, base, pos, b);
      MirrorPut(before, base, pos, b);
      win[pos] := b;
      assert win[..] == before[pos := b];
      pos, hist := pos + 1, hist + [b];
    }

    /** The copy loop of the slow path: every access is masked, and the first bytes are written twice. */
    method CopySlow(off: nat, len: nat)
      requires Valid() && 1 <= off <= |hist| && off <= WINDOW && pos + len <= WINDOW && 1 <= len
      modifies this, win
      ensures Valid() && hist == Copy(old(hist), off, len) && pos == old(pos) + len && base == old(base)
    {
      hide Ring, Mirrored, Copy, Masked, Live, Index;
      MirrorSize();
      ghost var goal := Copy(hist, off, len);
      var n := len;
      while n > 0
        invariant Valid() && off <= |hist| && pos + n == old(pos) + len && base == old(base) && n <= len
        invariant Copy(hist, off, n) == goal
      {
        RingSizes(win[..], hist, base, pos);
        ghost var before := win[..];
        Lookup(before, hist, base, pos, off);
        CopyStep(hist, off, n);
        var b := win[Masked(pos - off)];
        RingPut(before, hist, base, pos, b);
        MirrorPut(before, base, pos, b);
        win[pos] := b;
        if pos < MIRROR {
          RingMirror(before[pos := b], hist + [b], base, pos + 1, pos, b);
          win[WINDOW + pos] := win[pos];
          assert win[..] == before[pos := b][WINDOW + pos := b];
        } else {
          assert win[..] == before[pos := b];
        }
        pos, hist, n := pos + 1, hist + [b], n - 1;
      }
      CopyStep(hist, off, n);
    }

    /** The copy loop of the fast path: the pointer is masked once and may run into the mirror. */
    method CopyFast(off: nat, len: nat)
      requires Valid() && 1 <= off <= |hist| && off <= WINDOW && MIRROR <= pos && pos + len <= WINDOW
               && 1 <= len <= MIRROR
      modifies this, win
      ensures Valid() && hist == Copy(old(hist), off, len) && pos == old(pos) + len && base == old(base)
    {
      hide Ring, Mirrored, Copy, Masked, Live, Index;
      MirrorSize();
      ghost var goal := Copy(hist, off, len);
      ghost var start := pos;
      var ptr := Masked(pos - off);
      var n := len;
      while n > 0
        invariant Valid() && off + (len - n) <= |hist| && pos == start + (len - n) && base == old(base) && n <= len
        invariant ptr == Masked(pos - (len - n) - off) + (len - n) && Copy(hist, off, n) == goal
      {
        RingSizes(win[..], hist, base, pos);
        ghost var before := win[..];
        LookupAhead(before, hist, base, pos, off, ptr, len - n);
        CopyStep(hist, off, n);
        var b := win[ptr];
        RingPut(before, hist, base, pos, b);
        MirrorPut(before, base, pos, b);
        win[pos] := b;
        assert win[..] == before[pos := b];
        pos, ptr, hist, n := pos + 1, ptr + 1, hist + [b], n - 1;
      }
      CopyStep(hist, off, n);
    }

    /** A byte of an uncompressed block: the second copies are made when the block is through. */
    method PutRaw(b: byte, ghost from: nat)
      requires Ring(win[..], hist, base, pos) && MirroredOutside(win[..], base, from, pos) && from <= pos < WINDOW
      modifies this, win
      ensures Ring(win[..], hist, base, pos) && MirroredOutside(win[..], base, from, pos)
      ensures hist == old(hist) + [b] && pos == old(pos) + 1 && base == old(base)
    {
      hide Ring, Live, Index;
      RingSizes(win[..], hist, base, pos);
      ghost var before := win[..];
      RingPut(before, hist, base, pos, b);
      OutsidePut(before, base, from, pos, b);
      win[pos] := b;
      assert win[..] == before[pos := b];
      pos, hist := pos + 1, hist + [b];
    }

    /** The end of an uncompressed block: the bytes it put near the start are written a second time. */
    method CopyToMirror(start: nat)
      requires Ring(win[..], hist, base, pos) && MirroredOutside(win[..], base, start, pos) && start <= pos
      modifies win
      ensures Valid()
    {
      hide Ring, Mirrored, Live, Index, MirroredOutside;
      MirrorSize();
      var i, end := start, Min(257, pos);
      while i < end
        invariant start <= i && Ring(win[..], hist, base, pos) && MirroredOutside(win[..], base, i, pos)
        decreases end - i
      {
        RingSizes(win[..], hist, base, pos);
        ghost var before := win[..];
        RingMirror(before, hist, base, pos, i, before[i]);
        OutsideMirror(before, base, i, pos);
        win[WINDOW + i] := win[i];
        assert win[..] == before[WINDOW + i := before[i]];
        i := i + 1;
      }
      OutsideEnd(win[..], base, i, pos);
    }

    /** pos &= window_mask. */
    method Wrap()
      requires Valid()
      modifies this`pos, this`base
      ensures Valid() && pos < WINDOW
      ensures old(pos) < WINDOW ==> pos == old(pos) && base == old(base)
      ensures old(pos) == WINDOW ==> pos == 0 && base == old(base) + WINDOW
    {
      hide Ring, Mirrored, Copy, Masked, Live, Index;
      MirrorSize();
      RingSizes(win[..], hist, base, pos);
      RingWrap(win[..], hist, base, pos);
      if pos == WINDOW {
        base := base + WINDOW;
      }
      pos := Masked(pos);
    }
  }

  lemma MirrorSize()
    ensures MIRROR == 257 && WINDOW == 131072
  {
  }
}
