/** The bit writer of the encoder and the bit reader of the decoder.

    Both are specified by a wire position: the bytes already complete, and the bits written after
    them that do not yet fill a 16-bit word. The writer moves its position forward by what it
    writes; the reader, given any finished frame that extends the writer's position, finds the same
    bits at the same position and moves in step. */
module BitStream {
  import opened Bits

  datatype Wire = Wire(out: seq<byte>, pend: seq<bool>)

  const START := Wire([], [])

  function Low(w: nat): byte { (w % 256) as byte }

  function High(w: nat): byte { (w / 256 % 256) as byte }

  /** Complete words leave as two bytes, the low one first. */
  function Pack(out: seq<byte>, s: seq<bool>): Wire
    decreases |s|
  {
    if |s| < 16 then Wire(out, s)
    else
      var w := ValueOf(s[..16]);
      Pack(out + [Low(w), High(w)], s[16..])
  }

  /** Writing bits after a position. */
  function Put(w: Wire, bits: seq<bool>): Wire {
    Pack(w.out, w.pend + bits)
  }

  /** Padding with zero bits to a word boundary; at least one bit, so an aligned position gets a
      whole word of padding. */
  function Align(w: Wire): Wire
    requires |w.pend| < 16
  {
    Put(w, BitsOf(16 - |w.pend|, 0))
  }

  /** The bytes of a frame that ends at this position: padded only when bits are pending. */
  function Finish(w: Wire): seq<byte>
    requires |w.pend| < 16
  {
    if w.pend == [] then w.out else Align(w).out
  }

  /** The frame f has been written through the position w. */
  ghost predicate Extends(f: seq<byte>, w: Wire) {
    |w.pend| < 16 && w.out <= f && w.pend <= WordBits(f[|w.out|..])
  }

  lemma {:induction false} PackConcat(out: seq<byte>, s: seq<bool>, b: seq<bool>)
    ensures Pack(out, s + b) == Pack(Pack(out, s).out, Pack(out, s).pend + b)
    decreases |s|
  {
    if |s| >= 16 {
      var w := ValueOf(s[..16]);
      PackConcat(out + [Low(w), High(w)], s[16..], b);
      assert (s + b)[..16] == s[..16] && (s + b)[16..] == s[16..] + b;
    }
  }

  /** Writing in two goes is writing once. */
  lemma PutConcat(w: Wire, a: seq<bool>, b: seq<bool>)
    ensures Put(Put(w, a), b) == Put(w, a + b)
  {
    PackConcat(w.out, w.pend + a, b);
    assert w.pend + a + b == w.pend + (a + b);
  }

  lemma PutLength(w: Wire, bits: seq<bool>)
    requires |w.pend| < 16
    ensures |Put(w, bits).out| == |w.out| + 2 * ((|w.pend| + |bits|) / 16)
    ensures |Put(w, bits).pend| == (|w.pend| + |bits|) % 16
  {
    PackLength(w.out, w.pend + bits);
  }

  lemma {:induction false} PackLength(out: seq<byte>, s: seq<bool>)
    ensures |Pack(out, s).out| == |out| + 2 * (|s| / 16) && |Pack(out, s).pend| == |s| % 16
    decreases |s|
  {
    if |s| >= 16 {
      var w := ValueOf(s[..16]);
      PackLength(out + [Low(w), High(w)], s[16..]);
    }
  }

  lemma PutNothing(w: Wire)
    requires |w.pend| < 16
    ensures Put(w, []) == w
  {
    assert w.pend + [] == w.pend;
  }

  lemma WordHead(t: seq<byte>, s: seq<bool>)
    requires |t| >= 2 && |s| == 16 && t[0] == Low(ValueOf(s)) && t[1] == High(ValueOf(s))
    ensures WordBits(t) == s + WordBits(t[2..])
  {
    ValueBelow(s);
    Pow2Values();
    LowHigh(ValueOf(s));
    BitsOfValue(s);
  }

  lemma LowHigh(w: nat)
    requires w < 65536
    ensures Word(Low(w), High(w)) == w
  {
  }

  /** What was written is there to be read. */
  lemma {:induction false} ExtendsPack(f: seq<byte>, out: seq<byte>, s: seq<bool>)
    requires Extends(f, Pack(out, s))
    ensures out <= f && s <= WordBits(f[|out|..])
    decreases |s|
  {
    if |s| >= 16 {
      var w := ValueOf(s[..16]);
      var out' := out + [Low(w), High(w)];
      ExtendsPack(f, out', s[16..]);
      var t := f[|out|..];
      assert t[2..] == f[|out'|..];
      assert t[0] == out'[|out|] && t[1] == out'[|out| + 1];
      WordHead(t, s[..16]);
      assert s == s[..16] + s[16..];
    }
  }

  /** The bits after any earlier position are the ones written from it. */
  lemma ExtendsBack(f: seq<byte>, w: Wire, bits: seq<bool>)
    requires |w.pend| < 16 && Extends(f, Put(w, bits))
    ensures Extends(f, w) && w.pend + bits <= WordBits(f[|w.out|..])
  {
    ExtendsPack(f, w.out, w.pend + bits);
  }

  /** The bytes Finish gives extend the position. */
  lemma FinishExtends(w: Wire)
    requires |w.pend| < 16
    ensures Extends(Finish(w), w)
  {
    if w.pend != [] {
      var v := Align(w);
      AlignIsAligned(w);
      assert Extends(v.out, v);
      ExtendsBack(v.out, w, BitsOf(16 - |w.pend|, 0));
    }
  }

  /** A frame extended by raw bytes after an aligned position still extends it. */
  lemma AlignIsAligned(w: Wire)
    requires |w.pend| < 16
    ensures Align(w).pend == [] && |Align(w).out| == |w.out| + 2 && w.out <= Align(w).out
  {
    var s := w.pend + BitsOf(16 - |w.pend|, 0);
    var v := ValueOf(s[..16]);
    assert Pack(w.out, s) == Pack(w.out + [Low(v), High(v)], s[16..]);
  }

  // ---------- Encoder side ----------

  /** output_bits and its state: a 32-bit buffer filled from the top, whole words leaving it low
      byte first. */
  class BitWriter {
    var bitbuf: nat
    var bitcount: int
    var out: seq<byte>
    ghost var pending: seq<bool>

    ghost predicate Valid()
      reads this
    {
      17 <= bitcount <= 32 && |pending| == 32 - bitcount && Holds(bitbuf, pending)
    }

    ghost function Pos(): (w: Wire)
      reads this
      requires Valid()
      ensures |w.pend| < 16
    {
      Wire(out, pending)
    }

    constructor ()
      ensures Valid() && Pos() == START
    {
      bitbuf, bitcount, out, pending := 0, 32, [], [];
      BitsOfZero(32);
    }

    method OutputBits(n: nat, x: nat)
      requires Valid() && 1 <= n <= 17 && x < Pow2(n)
      modifies this
      ensures Valid() && Pos() == Put(old(Pos()), BitsOf(n, x))
    {
      Pow2Monotone(n, 17);
      Pow2Values();
      AppendToWord(bitbuf, pending, n, x);
      bitbuf := Or(bitbuf, Shl32(x, bitcount - n));
      bitcount := bitcount - n;
      pending := pending + BitsOf(n, x);
      while bitcount <= 16
        invariant 0 <= bitcount <= 32 && |pending| == 32 - bitcount && Holds(bitbuf, pending)
        invariant Pack(out, pending) == Put(old(Pos()), BitsOf(n, x))
        decreases 32 - bitcount
      {
        SplitWord(bitbuf, pending, 16);
        TopWord(bitbuf, pending);
        out := out + [(Shr(bitbuf, 16) % 256) as byte, Shr(bitbuf, 24) as byte];
        bitbuf := Shl32(bitbuf, 16);
        bitcount := bitcount + 16;
        pending := pending[16..];
      }
    }

    /** The padding of encode_flush and of encode_uncompressed_block: output_bits of bitcount - 16
        zero bits. */
    method PadWord()
      requires Valid()
      modifies this
      ensures Valid() && Pos() == Align(old(Pos()))
    {
      OutputBits(bitcount - 16, 0);
    }

    /** A byte straight into the output, between words. */
    method RawByte(b: byte)
      requires Valid() && Pos().pend == []
      modifies this
      ensures Valid() && Pos() == Wire(old(Pos()).out + [b], [])
    {
      out := out + [b];
    }

    /** The end of encode_flush: the finished frame is handed over and the buffer starts afresh. */
    method TakeFrame() returns (frame: seq<byte>)
      requires Valid()
      modifies this
      ensures Valid() && Pos() == START && frame == Finish(old(Pos()))
    {
      if bitcount < 32 {
        PadWord();
      }
      frame := out;
      Reset();
    }

    method Reset()
      modifies this
      ensures Valid() && Pos() == START
    {
      BitsOfZero(32);
      bitbuf, bitcount, out, pending := 0, 32, [], [];
    }
  }

  lemma TopWord(buf: nat, s: seq<bool>)
    requires Holds(buf, s) && |s| >= 16
    ensures var w := ValueOf(s[..16]);
            Shr(buf, 24) < 256 && (Shr(buf, 16) % 256) as byte == Low(w) && Shr(buf, 24) as byte == High(w)
  {
    SplitWord(buf, s, 16);
    ValueBelow(s[..16]);
    Pow2Values();
    ShrShr(buf, 16, 8);
    assert Shr(Shr(buf, 16), 8) == Shr(buf, 16) / 256 by { ShrEight(Shr(buf, 16)); }
  }

  lemma {:induction false} ShrShr(x: nat, a: nat, b: nat)
    ensures Shr(Shr(x, a), b) == Shr(x, a + b)
  {
    if a > 0 {
      ShrShr(x / 2, a - 1, b);
    }
  }

  lemma ShrEight(x: nat)
    ensures Shr(x, 8) == x / 256
  {
    assert Shr(x, 8) == Shr(x / 16, 4) by { assert Shr(x, 8) == Shr(x / 4, 6) && Shr(x / 4, 6) == Shr(x / 16, 4); }
    assert Shr(x / 16, 4) == Shr(x / 64, 2) == Shr(x / 256, 0);
  }

  // ---------- Decoder side ----------

  /** The decoder's bit buffer over one compressed frame. The buffer runs up to two words ahead, so
      five readable bytes follow the frame. */
  class BitReader {
    var bitbuf: nat
    var bitcount: int
    var curpos: nat
    var error: bool
    const input: seq<byte>
    const end: nat

    /** The unread bits in the buffer. */
    ghost var held: seq<bool>

    ghost predicate Valid()
      reads this
    {
      4 <= end < |input| && curpos <= end && !error
    }

    ghost function Frame(): seq<byte>
      requires 4 <= end < |input|
    {
      input[..end - 4]
    }

    /** The reader has consumed exactly what was written up to w: bitcount + 16 unread bits are in
        the buffer. */
    ghost predicate At(w: Wire)
      reads this
    {
      Valid() && |w.pend| < 16 && curpos == |w.out| + 4 && bitcount == 16 - |w.pend|
      && Extends(Frame(), w) && Holds(bitbuf, held) && Ahead(input, |w.out|, |w.pend|, held)
    }

    constructor (input: seq<byte>, end: nat)
      requires 4 <= end < |input|
      ensures Valid() && curpos == 0 && this.input == input && this.end == end
    {
      this.input, this.end := input, end;
      bitbuf, bitcount, curpos, error, held := 0, 0, 0, false, [];
    }

    /** init_bitbuf: two words are loaded. */
    method InitBitbuf()
      requires Valid()
      modifies this`bitbuf, this`bitcount, this`curpos, this`held
      ensures Valid()
      ensures old(curpos) + 4 > end ==> unchanged(this)
      ensures old(curpos) + 4 <= end ==> curpos == old(curpos) + 4 && At(Wire(input[..old(curpos)], []))
    {
      if curpos + 4 > end {
        return;
      }
      var hi, lo := Word(input[curpos], input[curpos + 1]), Word(input[curpos + 2], input[curpos + 3]);
      TwoWords(input[curpos..curpos + 4]);
      bitbuf := Or(lo, Shl32(hi, 16));
      bitcount := 16;
      held := WordBits(input[curpos..curpos + 4]);
      curpos := curpos + 4;
    }

    method LoadWord()
      requires curpos + 2 <= |input| && -16 <= bitcount <= 0 && Holds(bitbuf, held) && |held| == bitcount + 16
      modifies this`bitbuf, this`bitcount, this`curpos, this`held
      ensures curpos == old(curpos) + 2 && bitcount == old(bitcount) + 16 && Holds(bitbuf, held)
      ensures held == old(held) + BitsOf(16, Word(input[old(curpos)], input[old(curpos) + 1]))
    {
      var word := Word(input[curpos], input[curpos + 1]);
      Pow2Values();
      AppendToWord(bitbuf, held, 16, word);
      bitbuf := Or(bitbuf, Shl32(word, -bitcount));
      curpos := curpos + 2;
      bitcount := bitcount + 16;
      held := held + BitsOf(16, word);
    }

    /** fill_bitbuf: drop n bits and refill; n up to 17 may need two words. */
    method FillBitbuf(n: nat, ghost w: Wire, ghost bits: seq<bool>)
      requires n <= 17 && |bits| == n
      requires At(w)
      modifies this`bitbuf, this`bitcount, this`curpos, this`error, this`held
      ensures Extends(Frame(), Put(w, bits)) ==> At(Put(w, bits))
    {
      hide WordBits, BitsOf, ValueOf, Pack, Put, Shl32, Or, Pow2, Zeros;
      PutLength(w, bits);
      SplitWord(bitbuf, held, n);
      SlideWindow(input, |w.out|, |w.pend|, n, held);
      bitbuf := Shl32(bitbuf, n);
      bitcount := bitcount - n;
      held := held[n..];
      if bitcount <= 0 {
        if curpos >= end {
          error := true;
          return;
        }
        LoadWord();
        if bitcount <= 0 {
          if curpos >= end {
            error := true;
            return;
          }
          LoadWord();
        }
      }
    }

    method GetBits(n: nat, ghost w: Wire, ghost x: nat) returns (value: nat)
      requires 1 <= n <= 17 && x < Pow2(n)
      requires At(w) && Extends(Frame(), Put(w, BitsOf(n, x)))
      modifies this`bitbuf, this`bitcount, this`curpos, this`error, this`held
      ensures value == x && At(Put(w, BitsOf(n, x)))
    {
      value := Shr(bitbuf, 32 - n);
      assert value == x by { Peek(w, BitsOf(n, x)); ValueOfBits(n, x); }
      FillBitbuf(n, w, BitsOf(n, x));
    }

    lemma AtInside(w: Wire)
      requires At(w)
      ensures 4 <= end < |input| && Extends(Frame(), w)
    {
    }

    lemma FrameIs()
      requires 4 <= end < |input|
      ensures |Frame()| == end - 4 && forall i :: 0 <= i < end - 4 ==> Frame()[i] == input[i]
    {
    }

    /** The buffer starts with the bits about to be read, up to 17 of them. */
    lemma Peek(w: Wire, bits: seq<bool>)
      requires At(w) && |bits| <= 17 && Extends(Frame(), Put(w, bits))
      ensures Shr(bitbuf, 32 - |bits|) == ValueOf(bits)
      ensures bits <= held
    {
      hide WordBits, BitsOf, ValueOf, Pack, Put, Shl32, Shr, Or, Pow2, Zeros, Holds, Ahead, Extends;
      assert |w.pend| < 16;
      ExtendsBack(Frame(), w, bits);
      NextBits(input, end - 4, |w.out|, w.pend, bits, held);
      TopBits(bitbuf, held, bits);
    }
  }

  lemma TopBits(buf: nat, held: seq<bool>, bits: seq<bool>)
    requires Holds(buf, held) && bits <= held
    ensures Shr(buf, 32 - |bits|) == ValueOf(bits)
  {
    assert held[..|bits|] == bits;
    SplitWord(buf, held, |bits|);
  }

  lemma NextBits(input: seq<byte>, n: nat, o: nat, pend: seq<bool>, bits: seq<bool>, held: seq<bool>)
    requires o <= n <= |input| && Ahead(input, o, |pend|, held) && |bits| <= 17
    requires pend + bits <= WordBits(input[..n][o..])
    ensures bits <= held
  {
    var f, four := input[..n][o..], input[o..o + 4];
    assert forall i :: 0 <= i < 4 && i < |f| ==> f[i] == four[i];
    FirstWords(f, four, pend + bits);
    PrefixSlices(WordBits(four), pend, bits);
  }

  lemma PrefixSlices(s: seq<bool>, a: seq<bool>, b: seq<bool>)
    requires a + b <= s
    ensures b <= s[|a|..]
  {
    assert s[..|a + b|] == a + b;
    assert s[|a|..][..|b|] == (a + b)[|a|..];
  }

  lemma PrefixCut(s: seq<bool>, a: seq<bool>, b: seq<bool>)
    requires s <= a + b && |s| <= |a|
    ensures s <= a
  {
  }

  lemma FirstTwoWords(a: seq<byte>)
    requires |a| >= 4
    ensures WordBits(a) == BitsOf(16, Word(a[0], a[1])) + BitsOf(16, Word(a[2], a[3])) + WordBits(a[4..])
  {
    hide BitsOf;
    assert a[2..][2..] == a[4..];
    assert WordBits(a[2..]) == BitsOf(16, Word(a[2], a[3])) + WordBits(a[4..]);
  }

  /** Up to 32 bits of a byte string come from its first four bytes. */
  lemma FirstWords(a: seq<byte>, four: seq<byte>, s: seq<bool>)
    requires |four| == 4 && |s| <= 32 && s <= WordBits(a)
    requires forall i :: 0 <= i < 4 && i < |a| ==> a[i] == four[i]
    ensures s <= WordBits(four)
  {
    hide *;
    FirstTwoWords(four);
    assert four[4..] == [];
    var w0, w1 := BitsOf(16, Word(four[0], four[1])), BitsOf(16, Word(four[2], four[3]));
    if |a| >= 4 {
      FirstTwoWords(a);
      PrefixCut(s, w0 + w1, WordBits(a[4..]));
    } else if |a| >= 2 {
      OneWord(a);
    } else {
      NoWord(a);
    }
  }

  lemma NoWord(a: seq<byte>)
    requires |a| < 2
    ensures WordBits(a) == []
  {
  }

  lemma OneWord(a: seq<byte>)
    requires 2 <= |a| < 4
    ensures WordBits(a) == BitsOf(16, Word(a[0], a[1]))
  {
    NoWord(a[2..]);
  }

  /** held is what remains of the two words at offset o after k of their bits. */
  ghost predicate Ahead(input: seq<byte>, o: nat, k: nat, held: seq<bool>) {
    o + 4 <= |input| && k < 16 && |WordBits(input[o..o + 4])| == 32 && held == WordBits(input[o..o + 4])[k..]
  }

  lemma TwoWords(four: seq<byte>)
    requires |four| == 4
    ensures Holds(Or(Word(four[2], four[3]), Shl32(Word(four[0], four[1]), 16)), WordBits(four))
  {
    var hi, lo := Word(four[0], four[1]), Word(four[2], four[3]);
    assert WordBits(four) == BitsOf(16, hi) + BitsOf(16, lo) by { FourBytes(four, 0); assert four[0..4] == four; }
    OrWords(hi, lo);
  }

  lemma OrWords(hi: nat, lo: nat)
    requires hi < 65536 && lo < 65536
    ensures Holds(Or(lo, Shl32(hi, 16)), BitsOf(16, hi) + BitsOf(16, lo))
  {
    hide BitsOf, Shl32, Or, Pow2;
    Pow2Values();
    BitsOfShl(hi, 16);
    LeadingZeros(16, 16, hi);
    LeadingZeros(16, 16, lo);
    BitsOfOr(32, lo, Shl32(hi, 16));
    OrBelow(32, lo, Shl32(hi, 16));
    assert BitsOf(32, Shl32(hi, 16)) == BitsOf(16, hi) + Zeros(16);
  }

  /** Dropping n bits and appending the words that follow keeps two words ahead. */
  lemma SlideWindow(input: seq<byte>, o: nat, k: nat, n: nat, held: seq<bool>)
    requires Ahead(input, o, k, held) && n <= 17
    ensures k + n < 16 ==> Ahead(input, o, k + n, held[n..])
    ensures 16 <= k + n < 32 && o + 6 <= |input| ==>
              Ahead(input, o + 2, k + n - 16, held[n..] + BitsOf(16, Word(input[o + 4], input[o + 5])))
    ensures k + n == 32 && o + 8 <= |input| ==>
              Ahead(input, o + 4, 0, held[n..] + BitsOf(16, Word(input[o + 4], input[o + 5]))
                                     + BitsOf(16, Word(input[o + 6], input[o + 7])))
  {
    FourBytes(input, o);
    if k + n >= 16 && o + 6 <= |input| {
      FourBytes(input, o + 2);
      if k + n == 32 && o + 8 <= |input| {
        FourBytes(input, o + 4);
      }
    }
  }

  lemma FourBytes(input: seq<byte>, o: nat)
    requires o + 4 <= |input|
    ensures WordBits(input[o..o + 4])
            == BitsOf(16, Word(input[o], input[o + 1])) + BitsOf(16, Word(input[o + 2], input[o + 3]))
  {
    FirstTwoWords(input[o..o + 4]);
  }
}
