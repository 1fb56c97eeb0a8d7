/** Bit strings, and the 32-bit words that the codec packs them into.
    A bit string lists its most significant bit first. */
module Bits {

  newtype byte = x: int | 0 <= x < 256

  const WORD32: nat := 0x1_0000_0000

  function Pow2(n: nat): (p: nat)
    ensures p > 0
  {
    if n == 0 then 1 else 2 * Pow2(n - 1)
  }

  lemma Pow2Values()
    ensures Pow2(0) == 1 && Pow2(1) == 2 && Pow2(3) == 8 && Pow2(4) == 16 && Pow2(7) == 128
    ensures Pow2(8) == 256 && Pow2(16) == 65536 && Pow2(17) == 131072 && Pow2(24) == 16777216 && Pow2(32) == WORD32
  {
    assert Pow2(8) == 256;
    assert Pow2(12) == 16 * Pow2(8);
    assert Pow2(16) == 16 * Pow2(12);
    assert Pow2(17) == 2 * Pow2(16);
    assert Pow2(20) == 16 * Pow2(16);
    assert Pow2(24) == 16 * Pow2(20);
    assert Pow2(28) == 16 * Pow2(24);
    assert Pow2(32) == 16 * Pow2(28);
  }

  lemma {:induction false} Pow2Monotone(a: nat, b: nat)
    requires a <= b
    ensures Pow2(a) <= Pow2(b)
  {
    if a < b {
      Pow2Monotone(a, b - 1);
    }
  }

  lemma PowStep(k: nat)
    ensures Pow2(k + 1) == 2 * Pow2(k)
  {
  }

  function Min(a: nat, b: nat): nat {
    if a < b then a else b
  }

  // ---------- Bit strings and numbers ----------

  function Bit(b: bool): (v: nat)
    ensures v <= 1
  {
    if b then 1 else 0
  }

  /** The number a bit string spells. */
  function ValueOf(s: seq<bool>): nat {
    if s == [] then 0 else 2 * ValueOf(s[..|s| - 1]) + Bit(s[|s| - 1])
  }

  /** The low n bits of x. */
  function BitsOf(n: nat, x: nat): (s: seq<bool>)
    ensures |s| == n
  {
    if n == 0 then [] else BitsOf(n - 1, x / 2) + [x % 2 == 1]
  }

  function Zeros(n: nat): (s: seq<bool>)
    ensures |s| == n && forall i :: 0 <= i < n ==> !s[i]
  {
    seq(n, i => false)
  }

  lemma {:induction false} ValueBelow(s: seq<bool>)
    ensures ValueOf(s) < Pow2(|s|)
  {
    if s != [] {
      ValueBelow(s[..|s| - 1]);
    }
  }

  lemma {:induction false} ValueOfBits(n: nat, x: nat)
    requires x < Pow2(n)
    ensures ValueOf(BitsOf(n, x)) == x
  {
    if n > 0 {
      ValueOfBits(n - 1, x / 2);
      var s := BitsOf(n, x);
      assert s[..|s| - 1] == BitsOf(n - 1, x / 2);
    }
  }

  lemma {:induction false} BitsOfValue(s: seq<bool>)
    ensures BitsOf(|s|, ValueOf(s)) == s
  {
    if s != [] {
      BitsOfValue(s[..|s| - 1]);
      assert s == s[..|s| - 1] + [s[|s| - 1]];
    }
  }

  /** Bits behind bits are one number behind the other. */
  lemma {:induction false} BitsOfConcat(m: nat, x: nat, n: nat, y: nat)
    requires y < Pow2(n)
    ensures BitsOf(m, x) + BitsOf(n, y) == BitsOf(m + n, x * Pow2(n) + y)
    decreases n
  {
    if n > 0 {
      var q := x * Pow2(n - 1);
      assert x * Pow2(n) == 2 * q;
      BitsOfConcat(m, x, n - 1, y / 2);
      assert (2 * q + y) / 2 == q + y / 2 && (2 * q + y) % 2 == y % 2;
      assert BitsOf(n, y) == BitsOf(n - 1, y / 2) + [y % 2 == 1];
    }
  }

  lemma {:induction false} BitsOfZero(n: nat)
    ensures BitsOf(n, 0) == Zeros(n)
  {
    if n > 0 {
      BitsOfZero(n - 1);
    }
  }

  /** The last k of n + k bits are the low k bits. */
  lemma {:induction false} LowBits(n: nat, k: nat, x: nat)
    ensures BitsOf(n + k, x)[n..] == BitsOf(k, x)
  {
    if k > 0 {
      LowBits(n, k - 1, x / 2);
      assert BitsOf(n + k, x) == BitsOf(n + (k - 1), x / 2) + [x % 2 == 1];
      assert BitsOf(n + k, x)[n..] == BitsOf(n + (k - 1), x / 2)[n..] + [x % 2 == 1];
    }
  }

  /** A number below 2^k has zeros above its low k bits. */
  lemma {:induction false} LeadingZeros(n: nat, k: nat, x: nat)
    requires x < Pow2(k)
    ensures BitsOf(n + k, x) == Zeros(n) + BitsOf(k, x)
  {
    if k == 0 {
      BitsOfZero(n);
    } else {
      LeadingZeros(n, k - 1, x / 2);
      assert BitsOf(n + k, x) == BitsOf(n + (k - 1), x / 2) + [x % 2 == 1];
    }
  }

  // ---------- 32-bit words ----------

  /** x << n in 32 bits, one place at a time: the top bit is lost. */
  function Shl32(x: nat, n: nat): nat
    requires x < WORD32
    decreases n, x
  {
    if n == 0 then x else Shl32(if 2 * x < WORD32 then 2 * x else 2 * x - WORD32, n - 1)
  }

  /** x >> n. */
  function Shr(x: nat, n: nat): nat {
    if n == 0 then x else Shr(x / 2, n - 1)
  }

  /** Bitwise or. */
  function Or(a: nat, b: nat): nat {
    if a == 0 then b
    else if b == 0 then a
    else 2 * Or(a / 2, b / 2) + Bit(a % 2 == 1 || b % 2 == 1)
  }

  /** The last bit tells odd from even. */
  lemma LastBit(n: nat, x: nat)
    requires n > 0
    ensures BitsOf(n, x)[n - 1] == (x % 2 == 1)
  {
  }

  /** A multiple of 2^n does not show in the low n bits. */
  lemma {:induction false} BitsAbove(n: nat, x: nat)
    ensures BitsOf(n, x + Pow2(n)) == BitsOf(n, x)
  {
    if n > 0 {
      BitsAbove(n - 1, x / 2);
      assert (x + Pow2(n)) / 2 == x / 2 + Pow2(n - 1);
    }
  }

  lemma {:induction false} BitsOfShl(x: nat, n: nat)
    requires x < WORD32 && n <= 32
    ensures Shl32(x, n) < WORD32
    ensures BitsOf(32, Shl32(x, n)) == BitsOf(32, x)[n..] + Zeros(n)
    decreases n
  {
    if n > 0 {
      var y := if 2 * x < WORD32 then 2 * x else 2 * x - WORD32;
      BitsOfShl(y, n - 1);
      ShiftOnce(x, y);
    }
  }

  lemma ShiftOnce(x: nat, y: nat)
    requires y == 2 * x || y == 2 * x - WORD32
    ensures BitsOf(32, y) == BitsOf(32, x)[1..] + [false]
  {
    hide Pow2;
    Pow2Values();
    BitsAbove(32, y);
    LowBits(1, 31, x);
    assert BitsOf(32, 2 * x) == BitsOf(31, x) + [false];
  }

  lemma {:induction false} BitsOfShr(k: nat, x: nat, n: nat)
    ensures BitsOf(k, Shr(x, n)) == BitsOf(k + n, x)[..k]
  {
    if n > 0 {
      BitsOfShr(k, x / 2, n - 1);
    }
  }

  lemma {:induction false} ShrBelow(x: nat, n: nat, k: nat)
    requires x < Pow2(n + k)
    ensures Shr(x, n) < Pow2(k)
  {
    if n > 0 {
      ShrBelow(x / 2, n - 1, k);
    }
  }

  lemma {:induction false} BitsOfOr(n: nat, a: nat, b: nat)
    ensures forall i :: 0 <= i < n ==> BitsOf(n, Or(a, b))[i] == (BitsOf(n, a)[i] || BitsOf(n, b)[i])
  {
    if n > 0 {
      if a == 0 || b == 0 {
        BitsOfZero(n);
      } else {
        BitsOfOr(n - 1, a / 2, b / 2);
      }
    }
  }

  lemma {:induction false} OrBelow(n: nat, a: nat, b: nat)
    requires a < Pow2(n) && b < Pow2(n)
    ensures Or(a, b) < Pow2(n)
  {
    if a > 0 && b > 0 {
      OrBelow(n - 1, a / 2, b / 2);
    }
  }

  /** A buffer word holding the bits s at its top: s followed by zeros up to 32 bits. */
  ghost predicate Holds(buf: nat, s: seq<bool>) {
    |s| <= 32 && buf < WORD32 && BitsOf(32, buf) == s + Zeros(32 - |s|)
  }

  /** Or-ing x into the free bits of a buffer word appends the n bits of x. */
  lemma AppendToWord(buf: nat, s: seq<bool>, n: nat, x: nat)
    requires Holds(buf, s) && |s| + n <= 32 && x < Pow2(n)
    ensures x < WORD32 && Holds(Or(buf, Shl32(x, 32 - |s| - n)), s + BitsOf(n, x))
  {
    hide BitsOf, Shl32, Or, Pow2;
    Pow2Monotone(n, 32);
    Pow2Values();
    var k := 32 - |s| - n;
    BitsOfShl(x, k);
    LeadingZeros(32 - n, n, x);
    BitsOfOr(32, buf, Shl32(x, k));
    Pow2Values();
    OrBelow(32, buf, Shl32(x, k));
    assert BitsOf(32, Shl32(x, k)) == Zeros(|s|) + BitsOf(n, x) + Zeros(k);
  }

  /** The top n bits of a buffer word are its first n bits; shifting left drops them. */
  lemma SplitWord(buf: nat, s: seq<bool>, n: nat)
    requires Holds(buf, s) && n <= |s|
    ensures Shr(buf, 32 - n) == ValueOf(s[..n])
    ensures Holds(Shl32(buf, n), s[n..])
  {
    hide BitsOf, ValueOf, Shl32, Shr, Pow2;
    BitsOfShl(buf, n);
    BitsOfShr(n, buf, 32 - n);
    assert BitsOf(32, buf)[..n] == s[..n];
    Pow2Values();
    ShrBelow(buf, 32 - n, n);
    ValueOfBits(n, Shr(buf, 32 - n));
  }

  // ---------- 16-bit little-endian words of a byte string ----------

  /** A 16-bit word from its low and its high byte. */
  function Word(lo: byte, hi: byte): (w: nat)
    ensures w < 65536
  {
    (lo as int) + 256 * (hi as int)
  }

  /** The bits of a byte string read as 16-bit little-endian words; an odd last byte is dropped. */
  function WordBits(s: seq<byte>): seq<bool> {
    if |s| < 2 then [] else BitsOf(16, Word(s[0], s[1])) + WordBits(s[2..])
  }

  lemma {:induction false} WordBitsLength(s: seq<byte>)
    ensures |WordBits(s)| == 16 * (|s| / 2)
  {
    hide BitsOf;
    if |s| >= 2 {
      WordBitsLength(s[2..]);
      assert |s| / 2 == |s[2..]| / 2 + 1;
    }
  }

  lemma {:induction false} WordBitsConcat(a: seq<byte>, b: seq<byte>)
    requires |a| % 2 == 0
    ensures WordBits(a + b) == WordBits(a) + WordBits(b)
  {
    if a == [] {
      assert a + b == b;
    } else {
      WordBitsConcat(a[2..], b);
      assert (a + b)[2..] == a[2..] + b;
    }
  }

  // ---------- 32-bit words as four bytes, the lowest first ----------

  function Word32(a: byte, b: byte, c: byte, d: byte): (x: nat)
    ensures x < WORD32
  {
    a as int + 256 * (b as int) + 65536 * (c as int) + 16777216 * (d as int)
  }

  function Bytes32(x: nat): (s: seq<byte>)
    ensures |s| == 4
  {
    [(x % 256) as byte, (x / 256 % 256) as byte, (x / 65536 % 256) as byte, (x / 16777216 % 256) as byte]
  }

  lemma WordOfBytes(x: nat)
    requires x < WORD32
    ensures var s := Bytes32(x); Word32(s[0], s[1], s[2], s[3]) == x
  {
    var y := x / 65536;
    assert x == x % 256 + 256 * (x / 256 % 256) + 65536 * y;
    assert x / 16777216 == y / 256;
    assert y == y % 256 + 256 * (y / 256 % 256);
  }

  lemma BytesOfWord(s: seq<byte>)
    requires |s| == 4
    ensures Bytes32(Word32(s[0], s[1], s[2], s[3])) == s
  {
    var x := Word32(s[0], s[1], s[2], s[3]);
    assert x / 256 == s[1] as int + 256 * (s[2] as int) + 65536 * (s[3] as int);
    assert x / 65536 == s[2] as int + 256 * (s[3] as int);
    assert x / 16777216 == s[3] as int;
  }
}
