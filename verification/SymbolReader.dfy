/** Reading one symbol of a canonical code: the table lookup of the decoder over its bit buffer. */
module SymbolReader {
  import opened Bits
  import opened BitStream
  import opened Canonical
  import opened DecodeTable

  /** The bit of a buffer word that a mask 1 << k selects. */
  function MaskBit(buf: nat, k: nat): bool {
    Shr(buf, k) % 2 == 1
  }

  lemma MaskSelects(buf: nat, held: seq<bool>, d: nat)
    requires Holds(buf, held) && d < |held|
    ensures MaskBit(buf, 31 - d) == held[d]
  {
    hide BitsOf, Shr;
    BitsOfShr(d + 1, buf, 31 - d);
    LastBit(d + 1, Shr(buf, 31 - d));
    assert BitsOf(32, buf)[..d + 1][d] == held[d];
  }

  lemma FindsCode(table: seq<int>, lr: seq<int>, tb: nat, lens: seq<nat>, s: nat, b: seq<bool>)
    requires Finds(table, lr, tb, lens) && Used(lens, s) && |b| == 16 && Code(lens, s) <= b
    ensures tb <= 16 && ValueOf(b[..tb]) < |table| && Leads(lr, table[ValueOf(b[..tb])], b[tb..], s)
  {
    hide Leads;
  }

  /** DECODE_MAIN_TREE, DECODE_LEN_TREE and decode_small: the symbol whose code comes next. */
  method DecodeSymbol(r: BitReader, table: array<int>, lr: array<int>, tb: nat, len: array<nat>,
                      ghost w: Wire, ghost lens: seq<nat>, ghost s: nat) returns (j: int)
    requires r.At(w) && 1 <= tb <= 16 && Finds(table[..], lr[..], tb, lens)
    requires IsLengths(lens) && Used(lens, s) && lens <= len[..]
    requires Extends(r.Frame(), Put(w, Code(lens, s)))
    modifies r
    ensures j == s && r.At(Put(w, Code(lens, s)))
  {
    hide Finds, Code, Leads, ValueOf, Put, Extends, Holds, MaskBit;
    ghost var c := Code(lens, s);
    r.Peek(w, c);
    ghost var b := r.held[..16];
    FindsCode(table[..], lr[..], tb, lens, s, b);
    assert r.held[..tb] == b[..tb];
    SplitWord(r.bitbuf, r.held, tb);
    j := table[Shr(r.bitbuf, 32 - tb)];
    assert Leads(lr[..], j, b[tb..], s);
    var k: int := 31 - tb;
    while j < 0
      invariant 15 <= k <= 31 - tb && Leads(lr[..], j, b[31 - k..], s)
      decreases k
      modifies {}
    {
      LeadsDown(lr[..], j, b[31 - k..], s);
      MaskSelects(r.bitbuf, r.held, 31 - k);
      j := -j;
      if MaskBit(r.bitbuf, k) {
        j := lr[2 * j + 1];
      } else {
        j := lr[2 * j];
      }
      k := k - 1;
    }
    LeadsHere(lr[..], j, b[31 - k..], s);
    r.FillBitbuf(len[j], w, c);
  }

  lemma LeadsDown(lr: seq<int>, e: int, bits: seq<bool>, s: nat)
    requires e < 0 && Leads(lr, e, bits, s)
    ensures bits != [] && 2 * -e + 1 < |lr| && Leads(lr, lr[2 * -e + Bit(bits[0])], bits[1..], s)
  {
  }

  lemma LeadsHere(lr: seq<int>, e: int, bits: seq<bool>, s: nat)
    requires e >= 0 && Leads(lr, e, bits, s)
    ensures e == s
  {
  }
}
