/** The functions of 32-bit words that SHA-1 uses, as the machine computes them, and what they are. */
module Words {

  /** Section 3 of FIPS PUB 180-1: a word rotated left. */
  function Rotate1(x: bv32): bv32 { (x << 1) | (x >> 31) }
  function Rotate5(x: bv32): bv32 { (x << 5) | (x >> 27) }
  function Rotate30(x: bv32): bv32 { (x << 30) | (x >> 2) }

  /** Section 5: the functions of three words. */
  function Choose(b: bv32, c: bv32, d: bv32): bv32 { (b & c) | (!b & d) }
  function Parity(b: bv32, c: bv32, d: bv32): bv32 { b ^ c ^ d }
  function Majority(b: bv32, c: bv32, d: bv32): bv32 { (b & c) | (b & d) | (c & d) }

  function Xor4(a: bv32, b: bv32, c: bv32, d: bv32): bv32 { a ^ b ^ c ^ d }

  /** Sums of words, modulo 2^32. */
  function Plus(a: bv32, b: bv32): bv32 { a + b }
  function Plus5(a: bv32, b: bv32, c: bv32, d: bv32, e: bv32): bv32 { a + b + c + d + e }

  function FromBytes(a: bv8, b: bv8, c: bv8, d: bv8): bv32 {
    ((a as bv32) << 24) | ((b as bv32) << 16) | ((c as bv32) << 8) | (d as bv32)
  }

  function Low8(w: bv32): bv8 { (w & 0xFF) as bv8 }

  /** Rotating left: the upper bits, as a number, behind the others times a power of two. */
  lemma Rotate1Is(x: bv32)
    ensures Rotate1(x) == 2 * (x % 0x8000_0000) + x / 0x8000_0000
  {
  }

  lemma Rotate5Is(x: bv32)
    ensures Rotate5(x) == 0x20 * (x % 0x0800_0000) + x / 0x0800_0000
  {
  }

  lemma Rotate30Is(x: bv32)
    ensures Rotate30(x) == 0x4000_0000 * (x % 4) + x / 4
  {
  }

  /** Bit by bit: where the first has a one the second, elsewhere the third. */
  lemma ChooseIs(b: bv32, c: bv32, d: bv32)
    ensures Choose(b, c, d) & b == c & b && Choose(b, c, d) & !b == d & !b
  {
  }

  /** Where two words agree. */
  function Alike(b: bv32, c: bv32): bv32 { (b & c) | (!b & !c) }

  /** Where the first two agree the third decides the parity, and elsewhere its complement does. */
  lemma ParityIs(b: bv32, c: bv32, d: bv32)
    ensures Parity(b, c, d) & Alike(b, c) == d & Alike(b, c) && Parity(b, c, d) & !Alike(b, c) == !d & !Alike(b, c)
  {
  }

  lemma Xor4Is(a: bv32, b: bv32, c: bv32, d: bv32)
    ensures Xor4(a, b, c, d) & Alike(c, d) == !Alike(a, b) & Alike(c, d)
    ensures Xor4(a, b, c, d) & !Alike(c, d) == Alike(a, b) & !Alike(c, d)
  {
  }

  /** Where the first two agree they are the majority, and elsewhere the third decides. */
  lemma MajorityIs(b: bv32, c: bv32, d: bv32)
    ensures Majority(b, c, d) & Alike(b, c) == b & Alike(b, c)
    ensures Majority(b, c, d) & !Alike(b, c) == d & !Alike(b, c)
  {
  }

  /** Sums, in 64 bits, modulo 2^32. */
  lemma PlusIs(a: bv32, b: bv32)
    ensures Plus(a, b) as bv64 == (a as bv64 + b as bv64) % 0x1_0000_0000
  {
  }

  lemma Plus5Is(a: bv32, b: bv32, c: bv32, d: bv32, e: bv32)
    ensures Plus5(a, b, c, d, e) as bv64
            == (a as bv64 + b as bv64 + c as bv64 + d as bv64 + e as bv64) % 0x1_0000_0000
  {
  }

  /** A word is four bytes, the most significant first. */
  lemma FromBytesIs(a: bv8, b: bv8, c: bv8, d: bv8)
    ensures FromBytes(a, b, c, d)
            == 0x100_0000 * (a as bv32) + 0x1_0000 * (b as bv32) + 0x100 * (c as bv32) + d as bv32
  {
  }

  /** And back. */
  lemma LowBytes(a: bv8, b: bv8, c: bv8, d: bv8)
    ensures var w := FromBytes(a, b, c, d);
            Low8(w >> 24) == a && Low8(w >> 16) == b && Low8(w >> 8) == c && Low8(w) == d
  {
  }
}
