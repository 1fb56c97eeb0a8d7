/** Position slots: a match distance is a slot, coded in the main tree, and extra low bits.

    Distances 0, 1 and 2 name the repeated offsets; a distance of 3 or more is an offset plus 2. */
module Slots {
  import opened Bits

  /** One past the largest distance of the 51 slots. */
  const DISTANCES: nat := 2228224

  /** The distances of a 128 KB window, and the slots for them. */
  const WINDOW: nat := 131072
  const NUM_SLOTS: nat := 34

  const EXTRA_0: seq<nat> := [
    0, 0, 0, 0, 1, 1, 2, 2,
    3, 3, 4, 4, 5, 5, 6, 6]
  const EXTRA_1: seq<nat> := [
    7, 7, 8, 8, 9, 9, 10, 10,
    11, 11, 12, 12, 13, 13, 14, 14]
  const EXTRA_2: seq<nat> := [
    15, 15, 16, 16, 17, 17, 17, 17,
    17, 17, 17, 17, 17, 17, 17, 17,
    17, 17, 17]
  const EXTRA_BITS: seq<nat> := EXTRA_0 + EXTRA_1 + EXTRA_2

  const MASK_0: seq<nat> := [
    0, 0, 0, 0, 1, 1, 3, 3,
    7, 7, 15, 15, 31, 31, 63, 63]
  const MASK_1: seq<nat> := [
    127, 127, 255, 255, 511, 511, 1023, 1023,
    2047, 2047, 4095, 4095, 8191, 8191, 16383, 16383]
  const MASK_2: seq<nat> := [
    32767, 32767, 65535, 65535, 131071, 131071, 131071, 131071,
    131071, 131071, 131071, 131071, 131071, 131071, 131071, 131071,
    131071, 131071, 131071]
  const SLOT_MASK: seq<nat> := MASK_0 + MASK_1 + MASK_2

  const MINUS2_0: seq<int> := [
    0 - 2, 1 - 2, 2 - 2, 3 - 2, 4 - 2, 6 - 2, 8 - 2, 12 - 2,
    16 - 2, 24 - 2, 32 - 2, 48 - 2, 64 - 2, 96 - 2, 128 - 2, 192 - 2]
  const MINUS2_1: seq<int> := [
    256 - 2, 384 - 2, 512 - 2, 768 - 2, 1024 - 2, 1536 - 2, 2048 - 2, 3072 - 2,
    4096 - 2, 6144 - 2, 8192 - 2, 12288 - 2, 16384 - 2, 24576 - 2, 32768 - 2, 49152 - 2]
  const MINUS2_2: seq<int> := [
    65536 - 2, 98304 - 2, 131072 - 2, 196608 - 2, 262144 - 2, 393216 - 2, 524288 - 2, 655360 - 2,
    786432 - 2, 917504 - 2, 1048576 - 2, 1179648 - 2, 1310720 - 2, 1441792 - 2, 1572864 - 2, 1703936 - 2,
    1835008 - 2, 1966080 - 2, 2097152 - 2]
  const MATCH_POS_MINUS2: seq<int> := MINUS2_0 + MINUS2_1 + MINUS2_2

  /** The number of extra bits of slot m. */
  function Extra(m: nat): nat {
    if m < 4 then 0 else if m < 36 then m / 2 - 1 else 17
  }

  /** The smallest distance of slot m. */
  function Base(m: nat): nat {
    if m < 4 then m else if m < 36 then (if m % 2 == 0 then 2 * Pow2(m / 2 - 1) else 3 * Pow2(m / 2 - 1))
      else WINDOW * (m - 34)
  }

  ghost predicate InSlot(v: nat, m: nat) {
    m < 51 && Base(m) <= v < Base(m) + Pow2(Extra(m))
  }

  lemma Powers()
    ensures Pow2(0) == 1 && Pow2(1) == 2 && Pow2(2) == 4 && Pow2(3) == 8 && Pow2(4) == 16 && Pow2(5) == 32
            && Pow2(6) == 64
    ensures Pow2(7) == 128 && Pow2(8) == 256 && Pow2(9) == 512 && Pow2(10) == 1024 && Pow2(11) == 2048
            && Pow2(12) == 4096
    ensures Pow2(13) == 8192 && Pow2(14) == 16384 && Pow2(15) == 32768 && Pow2(16) == 65536 && Pow2(17) == WINDOW
  {
    assert Pow2(7) == 2 * Pow2(6) && Pow2(9) == 2 * Pow2(8) && Pow2(11) == 2 * Pow2(10) && Pow2(13) == 2 * Pow2(12);
  }

  /** The three tables are those of the slots. */
  lemma SlotTables(m: nat)
    requires m < 51
    ensures |EXTRA_BITS| == |SLOT_MASK| == |MATCH_POS_MINUS2| == 51
    ensures EXTRA_BITS[m] == Extra(m) && SLOT_MASK[m] == Pow2(Extra(m)) - 1 && MATCH_POS_MINUS2[m] == Base(m) - 2
  {
    hide Pow2, Extra, Base, EXTRA_0, EXTRA_1, EXTRA_2, MASK_0, MASK_1, MASK_2, MINUS2_0, MINUS2_1, MINUS2_2;
    Rows0(if m < 16 then m else 0);
    Rows1(if 16 <= m < 32 then m else 16);
    Rows2(if 32 <= m then m else 32);
  }

  lemma Rows0(m: nat)
    requires 0 <= m < 16
    ensures |EXTRA_0| == |MASK_0| == |MINUS2_0| == 16
    ensures EXTRA_0[m] == Extra(m) && MASK_0[m] == Pow2(Extra(m)) - 1 && MINUS2_0[m] == Base(m) - 2
  {
    hide Pow2;
    Powers();
  }

  lemma Rows1(m: nat)
    requires 16 <= m < 32
    ensures |EXTRA_1| == |MASK_1| == |MINUS2_1| == 16
    ensures EXTRA_1[m - 16] == Extra(m) && MASK_1[m - 16] == Pow2(Extra(m)) - 1 && MINUS2_1[m - 16] == Base(m) - 2
  {
    hide Pow2;
    Powers();
  }

  lemma Rows2(m: nat)
    requires 32 <= m < 51
    ensures |EXTRA_2| == |MASK_2| == |MINUS2_2| == 19
    ensures EXTRA_2[m - 32] == Extra(m) && MASK_2[m - 32] == Pow2(Extra(m)) - 1 && MINUS2_2[m - 32] == Base(m) - 2
  {
    hide Pow2;
    Powers();
  }

  /** The slots are adjacent. */
  lemma NextBase(m: nat)
    ensures Base(m + 1) == Base(m) + Pow2(Extra(m))
  {
    hide Pow2;
    Powers();
    if 4 <= m < 35 && m % 2 == 1 {
      assert (m + 1) / 2 - 1 == (m / 2 - 1) + 1;
      PowStep(m / 2 - 1);
    }
  }

  lemma {:induction false} BaseMonotone(a: nat, b: nat)
    requires a <= b
    ensures Base(a) <= Base(b)
  {
    hide Base, Pow2;
    if a < b {
      BaseMonotone(a, b - 1);
      NextBase(b - 1);
    }
  }

  /** A distance is in one slot only. */
  lemma SlotUnique(v: nat, a: nat, b: nat)
    requires InSlot(v, a) && InSlot(v, b)
    ensures a == b
  {
    hide Base, Pow2, Extra;
    NextBase(a);
    NextBase(b);
    if a < b {
      BaseMonotone(a + 1, b);
    } else if b < a {
      BaseMonotone(b + 1, a);
    }
  }

  /** The slot of a distance. */
  ghost function SlotOf(v: nat): (m: nat)
    requires v < DISTANCES
    ensures InSlot(v, m)
  {
    SlotExists(v);
    var m: nat :| InSlot(v, m);
    m
  }

  lemma SlotExists(v: nat)
    requires v < DISTANCES
    ensures exists m: nat :: InSlot(v, m)
  {
    hide Pow2;
    var m := SlotBelow(v, 51);
  }

  lemma {:induction false} SlotBelow(v: nat, n: nat) returns (m: nat)
    requires n <= 51 && v < Base(n)
    ensures InSlot(v, m)
  {
    hide Base, Pow2, Extra;
    ZeroBase();
    NextBase(n - 1);
    if Base(n - 1) <= v {
      m := n - 1;
    } else {
      m := SlotBelow(v, n - 1);
    }
  }

  lemma ZeroBase()
    ensures Base(0) == 0
  {
  }

  /** The distances of the window use the first 34 slots, with at most 15 extra bits. */
  lemma WindowSlots(v: nat)
    requires v < WINDOW
    ensures SlotOf(v) < NUM_SLOTS && Extra(SlotOf(v)) <= 15
    ensures SlotOf(v) < 3 <==> v < 3
    ensures v < 3 ==> SlotOf(v) == v
    ensures SlotOf(v) == 3 <==> v == 3
    ensures Extra(SlotOf(v)) >= 3 <==> v >= 16
  {
    hide Pow2;
    Powers();
    var m := SlotOf(v);
    if m >= NUM_SLOTS {
      BaseMonotone(NUM_SLOTS, m);
    }
    if m >= 4 {
      BaseMonotone(4, m);
    }
    if m >= 8 {
      BaseMonotone(8, m);
    } else {
      BaseMonotone(m + 1, 8);
      NextBase(m);
    }
  }

  /** Every slot starts at a multiple of its size, so its extra bits are the low bits of a distance. */
  lemma SlotAligned(m: nat)
    ensures Base(m) % Pow2(Extra(m)) == 0
  {
    hide Pow2;
    Powers();
    if 4 <= m < 36 {
      Multiple(if m % 2 == 0 then 2 else 3, Pow2(m / 2 - 1));
    } else if m >= 36 {
      Multiple(m - 34, WINDOW);
    }
  }

  lemma Multiple(a: nat, b: nat)
    requires b > 0
    ensures (a * b) % b == 0
  {
    assert a * b + 0 == a * b;
    RemainderOf(b, a, 0);
  }

  /** Quotient and remainder are determined. */
  lemma RemainderOf(b: nat, q: nat, r: nat)
    requires r < b
    ensures (q * b + r) % b == r
  {
    var x := q * b + r;
    var k := x / b;
    assert x == k * b + x % b;
    if q > k {
      Larger(q, k, b);
    } else if k > q {
      Larger(k, q, b);
    }
  }

  lemma {:induction false} Larger(q: nat, k: nat, b: nat)
    requires q > k
    ensures q * b >= k * b + b
  {
    if q > k + 1 {
      Larger(q - 1, k, b);
    }
    assert q * b == (q - 1) * b + b;
  }

  /** x & (2^n - 1). */
  function Mask(x: nat, n: nat): (r: nat)
    ensures r < Pow2(n)
  {
    x % Pow2(n)
  }

  /** The extra bits of a distance are its place in its slot. */
  lemma ExtraBits(v: nat)
    requires v < DISTANCES
    ensures Mask(v, Extra(SlotOf(v))) == v - Base(SlotOf(v))
  {
    hide Base, Pow2, Extra;
    var m := SlotOf(v);
    SlotAligned(m);
    var p := Pow2(Extra(m));
    Quotient(p, Base(m));
    RemainderOf(p, Base(m) / p, v - Base(m));
  }

  lemma Quotient(p: nat, x: nat)
    requires p > 0 && x % p == 0
    ensures (x / p) * p == x
  {
  }

  // ---------- The lookup table ----------

  lemma ScaledSlot(t: nat)
    requires 2 <= t < 20
    ensures Base(18 + t) == 512 * Base(t) && Pow2(Extra(18 + t)) == 512 * Pow2(Extra(t))
  {
    hide Pow2;
    Powers();
  }

  /** create_slot_lookup_table: the slots of the distances below 1024. */
  method CreateSlotTable(table: array<nat>)
    requires table.Length == 1024
    modifies table
    ensures forall v :: 0 <= v < 1024 ==> table[v] < 20 && InSlot(v, table[v])
  {
    hide Pow2;
    Powers();
    var p, n, slot := 4, 2, 4;
    table[0], table[1], table[2], table[3] := 0, 1, 2, 3;
    ghost var k := 1;
    while p < 1024
      invariant 1 <= k <= 9 && n == Pow2(k) && p == 2 * n && slot == 2 * k + 2
      invariant forall v :: 0 <= v < p ==> table[v] < 20 && InSlot(v, table[v])
      decreases 10 - k
    {
      SlotPair(k);
      FillSlot(table, p, n, slot);
      p, slot := p + n, slot + 1;
      FillSlot(table, p, n, slot);
      p, slot := p + n, slot + 1;
      PowStep(k);
      n, k := 2 * n, k + 1;
    }
  }

  lemma SlotPair(k: nat)
    requires 1 <= k <= 16
    ensures Base(2 * k + 2) == 2 * Pow2(k) && Base(2 * k + 3) == 3 * Pow2(k)
            && Extra(2 * k + 2) == Extra(2 * k + 3) == k
  {
    hide Pow2;
    assert (2 * k + 2) / 2 - 1 == k && (2 * k + 3) / 2 - 1 == k;
  }

  /** One slot's entries. */
  method FillSlot(table: array<nat>, p: nat, n: nat, slot: nat)
    requires p + n <= table.Length == 1024 && slot < 20 && Base(slot) == p && Pow2(Extra(slot)) == n
    requires forall v :: 0 <= v < p ==> table[v] < 20 && InSlot(v, table[v])
    modifies table
    ensures forall v :: 0 <= v < p + n ==> table[v] < 20 && InSlot(v, table[v])
  {
    hide Base, Pow2, Extra;
    var j, q := n, p;
    while j > 0
      invariant 0 <= j <= n && q == p + n - j
      invariant forall v :: 0 <= v < q ==> table[v] < 20 && InSlot(v, table[v])
    {
      table[q] := slot;
      q, j := q + 1, j - 1;
    }
  }

  lemma HighPart(v: nat, t: nat, n: nat, b: nat)
    requires b <= v / 512 < b + n
    ensures 512 * b <= v < 512 * b + 512 * n
  {
  }

  /** MP_SLOT: a lookup for distances below 1024, a scaled lookup below 524288, then slots of one size. */
  method MpSlot(table: array<nat>, v: nat) returns (slot: nat)
    requires table.Length == 1024 && v < DISTANCES
    requires forall p :: 0 <= p < 1024 ==> table[p] < 20 && InSlot(p, table[p])
    ensures slot == SlotOf(v)
  {
    hide Base, Pow2, Extra;
    if v < 1024 {
      slot := table[v];
    } else if v < 524288 {
      var t := table[v / 512];
      slot := 18 + t;
      if t < 2 {
        LowSlots(v / 512, t);
      } else {
        ScaledSlot(t);
        HighPart(v, t, Pow2(Extra(t)), Base(t));
      }
    } else {
      slot := 34 + v / 131072;
      LargeSlot(v);
    }
    SlotUnique(v, slot, SlotOf(v));
  }

  lemma LowSlots(v: nat, t: nat)
    requires t < 2 && InSlot(v, t)
    ensures v < 2
  {
    hide Pow2;
    Powers();
  }

  lemma LargeSlot(v: nat)
    requires 524288 <= v < DISTANCES
    ensures InSlot(v, 34 + v / 131072)
  {
    hide Pow2;
    Powers();
  }
}
