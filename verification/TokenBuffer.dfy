/** The encoder's buffer of tokens waiting for a block: a type bit and a literal byte for each, and
    one distance for each match. */
module TokenBuffer {
  import opened Bits
  import opened Tokens

  const MAX_ITEMS: nat := 65536
  const MAX_DISTS: nat := 32768

  /** A block is written as soon as this many tokens are held. */
  const FULL: nat := MAX_ITEMS - 8
  const STEP_SIZE: nat := 64
  const RESOLUTION: nat := 1024
  const THRESHOLD: nat := 1400
  const EARLY_BREAK_THRESHOLD: nat := 1700
  const MIN_LITERALS_REQUIRED: nat := 6144
  const MIN_LITERALS_IN_BLOCK: nat := 4096
  const MAX_BLOCK_SPLITS: nat := 4

  function BitAt(b: byte, k: nat): bool {
    Shr(b as int, k) % 2 == 1
  }

  /** IS_MATCH. */
  function IsMatch(types: seq<byte>, l: nat): bool
    requires l / 8 < |types|
  {
    BitAt(types[l / 8], l % 8)
  }

  /** How many of the first l items are matches. */
  function Matches(types: seq<byte>, l: nat): (n: nat)
    requires l <= 8 * |types|
    ensures n <= l
  {
    if l == 0 then 0 else Matches(types, l - 1) + Bit(IsMatch(types, l - 1))
  }

  /** A match has its distance in the place that the matches before it leave to it. */
  function Item(types: seq<byte>, lits: seq<byte>, dists: seq<nat>, l: nat): Token
    requires l < |lits| && l < 8 * |types|
  {
    if !IsMatch(types, l) then Literal(lits[l])
    else Match(lits[l] as int + 2, if Matches(types, l) < |dists| then dists[Matches(types, l)] else 0)
  }

  function Items(types: seq<byte>, lits: seq<byte>, dists: seq<nat>, n: nat): (ts: seq<Token>)
    requires n <= |lits| && n <= 8 * |types|
    ensures |ts| == n && forall l :: 0 <= l < n ==> ts[l] == Item(types, lits, dists, l)
  {
    seq(n, l requires 0 <= l < n => Item(types, lits, dists, l))
  }

  ghost predicate ClearFrom(types: seq<byte>, n: nat) {
    |types| == MAX_ITEMS / 8 && forall l: nat :: n <= l < MAX_ITEMS ==> !IsMatch(types, l)
  }

  // ---------- Bits of a byte ----------

  lemma BitOfByte(x: nat, k: nat)
    requires k < 8
    ensures (Shr(x, k) % 2 == 1) == BitsOf(8, x)[7 - k]
  {
    hide BitsOf, Shr;
    BitsOfShr(8 - k, x, k);
    LastBit(8 - k, Shr(x, k));
  }

  lemma {:induction false} PowerBit(k: nat, j: nat)
    ensures (Shr(Pow2(k), j) % 2 == 1) == (j == k)
  {
    if j > 0 {
      if k > 0 {
        PowerBit(k - 1, j - 1);
      } else {
        ShrZero(j - 1);
      }
    }
  }

  lemma {:induction false} ShrZero(n: nat)
    ensures Shr(0, n) == 0
  {
    if n > 0 {
      ShrZero(n - 1);
    }
  }

  lemma OrFits(b: byte, k: nat)
    requires k < 8
    ensures Or(b as int, Pow2(k)) < 256
  {
    hide Pow2, Or;
    Pow2Values();
    Pow2Monotone(k, 7);
    OrBelow(8, b as int, Pow2(k));
  }

  /** b | 1 << k. */
  function SetBit(b: byte, k: nat): (r: byte)
    requires k < 8
    ensures forall j: nat :: j < 8 ==> BitAt(r, j) == (BitAt(b, j) || j == k)
  {
    OrFits(b, k);
    SetBitBits(b as int, k);
    Or(b as int, Pow2(k)) as byte
  }

  lemma SetBitBits(b: nat, k: nat)
    requires k < 8
    ensures forall j: nat :: j < 8 ==> (Shr(Or(b, Pow2(k)), j) % 2 == 1) == (Shr(b, j) % 2 == 1 || j == k)
  {
    hide Shr, Or, Pow2, BitsOf;
    forall j: nat | j < 8 ensures (Shr(Or(b, Pow2(k)), j) % 2 == 1) == (Shr(b, j) % 2 == 1 || j == k) {
      BitOfByte(Or(b, Pow2(k)), j);
      BitOfByte(b, j);
      BitOfByte(Pow2(k), j);
      PowerBit(k, j);
      BitsOfOr(8, b, Pow2(k));
    }
  }

  lemma ZeroByte(k: nat)
    ensures !BitAt(0, k)
  {
    ShrZero(k);
  }

  /** Type bytes with item n marked. */
  function Marked(types: seq<byte>, n: nat): (r: seq<byte>)
    requires n / 8 < |types|
    ensures |r| == |types|
    ensures forall l: nat :: l < 8 * |types| ==> IsMatch(r, l) == (IsMatch(types, l) || l == n)
  {
    var r := types[n / 8 := SetBit(types[n / 8], n % 8)];
    assert forall l: nat :: l < 8 * |types| && l / 8 == n / 8 && l % 8 == n % 8 ==> l == n;
    r
  }

  lemma {:induction false} MatchesSame(a: seq<byte>, b: seq<byte>, l: nat)
    requires l <= 8 * |a| && l <= 8 * |b| && forall k: nat :: k < l ==> IsMatch(a, k) == IsMatch(b, k)
    ensures Matches(a, l) == Matches(b, l)
  {
    hide IsMatch;
    if l > 0 {
      MatchesSame(a, b, l - 1);
    }
  }

  lemma {:induction false} MatchesMonotone(a: seq<byte>, k: nat, l: nat)
    requires k <= l <= 8 * |a|
    ensures Matches(a, k) <= Matches(a, l)
  {
    if k < l {
      MatchesMonotone(a, k, l - 1);
    }
  }

  lemma MatchesBelow(a: seq<byte>, k: nat, l: nat)
    requires k < l <= 8 * |a| && IsMatch(a, k)
    ensures Matches(a, k) < Matches(a, l)
  {
    hide IsMatch;
    MatchesMonotone(a, k + 1, l);
  }

  // ---------- Adding tokens ----------

  lemma AddLiteral(types: seq<byte>, lits: seq<byte>, dists: seq<nat>, n: nat, b: byte)
    requires n < |lits| && n < MAX_ITEMS && ClearFrom(types, n)
    ensures Items(types, lits[n := b], dists, n + 1) == Items(types, lits, dists, n) + [Literal(b)]
    ensures ClearFrom(types, n + 1) && Matches(types, n + 1) == Matches(types, n)
  {
    hide IsMatch;
  }

  lemma AddMatch(types: seq<byte>, lits: seq<byte>, dists: seq<nat>, n: nat, b: byte, dist: nat)
    requires n < |lits| && n < MAX_ITEMS && ClearFrom(types, n) && Matches(types, n) < |dists|
    ensures var m := Matches(types, n); var v := Marked(types, n);
            && Items(v, lits[n := b], dists[m := dist], n + 1) == Items(types, lits, dists, n)
               + [Match(b as int + 2, dist)]
            && ClearFrom(v, n + 1) && Matches(v, n + 1) == m + 1
  {
    hide IsMatch, Marked, Matches;
    var m, v := Matches(types, n), Marked(types, n);
    MatchesSame(types, v, n);
    MatchesNext(v, n);
    forall l: nat | l < n ensures Item(v, lits[n := b], dists[m := dist], l) == Item(types, lits, dists, l) {
      MatchesSame(types, v, l);
      if IsMatch(types, l) {
        MatchesBelow(types, l, n);
      }
    }
  }

  lemma MatchesNext(types: seq<byte>, l: nat)
    requires l < 8 * |types|
    ensures Matches(types, l + 1) == Matches(types, l) + Bit(IsMatch(types, l))
  {
  }

  // ---------- Removing the tokens of a block ----------

  /** The type bytes after the tokens before a byte boundary are moved away. */
  function Shifted(types: seq<byte>, split: nat, n: nat): (r: seq<byte>)
    requires split <= n < MAX_ITEMS && |types| == MAX_ITEMS / 8
    ensures |r| == |types|
  {
    Moved(types, split / 8, 1 + n / 8 - split / 8)
  }

  /** m bytes from at on move to the front, and zeros follow. */
  function Moved(types: seq<byte>, at: nat, m: nat): (r: seq<byte>)
    requires at + m <= |types|
    ensures |r| == |types|
  {
    types[at..at + m] + seq(|types| - m, k => 0)
  }

  lemma ShiftedBit(types: seq<byte>, split: nat, n: nat, l: nat)
    requires split <= n < MAX_ITEMS && split % 8 == 0 && ClearFrom(types, n) && l < MAX_ITEMS
    ensures l < n - split ==> IsMatch(Shifted(types, split, n), l) == IsMatch(types, split + l)
    ensures n - split <= l ==> !IsMatch(Shifted(types, split, n), l)
  {
    hide BitAt;
    var q := split / 8;
    assert split == 8 * q && (split + l) / 8 == q + l / 8 && (split + l) % 8 == l % 8;
    ZeroByte(l % 8);
    if n - split <= l && l / 8 < 1 + n / 8 - q {
      assert !IsMatch(types, split + l);
    }
  }

  lemma {:induction false} ShiftedMatches(types: seq<byte>, split: nat, n: nat, l: nat)
    requires split <= n < MAX_ITEMS && split % 8 == 0 && ClearFrom(types, n) && l <= n - split
    ensures Matches(Shifted(types, split, n), l) == Matches(types, split + l) - Matches(types, split)
  {
    hide IsMatch, Shifted;
    if l > 0 {
      ShiftedMatches(types, split, n, l - 1);
      ShiftedBit(types, split, n, l - 1);
    }
  }

  /** What is left is the tokens from the split on. */
  lemma DropBlock(types: seq<byte>, lits: seq<byte>, dists: seq<nat>, lits': seq<byte>, dists': seq<nat>, split: nat,
                  n: nat)
    requires split <= n < MAX_ITEMS && n <= |lits| && split % 8 == 0 && ClearFrom(types, n)
    requires |lits'| == |lits| && |dists'| == |dists| && Matches(types, n) <= |dists|
    requires forall k :: 0 <= k < n - split ==> lits'[k] == lits[split + k]
    requires forall k :: 0 <= k < Matches(types, n) - Matches(types, split) ==>
               dists'[k] == dists[Matches(types, split) + k]
    ensures var v := Shifted(types, split, n);
            && ClearFrom(v, n - split) && Matches(v, n - split) == Matches(types, n) - Matches(types, split)
            && Items(v, lits', dists', n - split) == Items(types, lits, dists, n)[split..]
  {
    hide IsMatch, Shifted, Matches;
    var v := Shifted(types, split, n);
    ShiftedMatches(types, split, n, n - split);
    forall l: nat | n - split <= l < MAX_ITEMS ensures !IsMatch(v, l) {
      ShiftedBit(types, split, n, l);
    }
    forall l: nat | l < n - split ensures Item(v, lits', dists', l) == Item(types, lits, dists, split + l) {
      ShiftedBit(types, split, n, l);
      ShiftedMatches(types, split, n, l);
      if IsMatch(types, split + l) {
        MatchesBelow(types, split + l, n);
        MatchesMonotone(types, split, split + l);
      }
    }
  }

  lemma NoTokens(types: seq<byte>)
    requires |types| == MAX_ITEMS / 8 && forall k :: 0 <= k < |types| ==> types[k] == 0
    ensures ClearFrom(types, 0)
  {
    forall l: nat | l < MAX_ITEMS ensures !IsMatch(types, l) {
      ZeroByte(l % 8);
    }
  }

  class Buffer {
    const itemType: array<byte>
    const litData: array<byte>
    const distData: array<nat>
    const ones: array<nat>
    var literals: nat
    var distances: nat
    var blockSplits: nat

    ghost predicate Valid()
      reads this`literals, this`distances, itemType, litData, distData, ones
    {
      && itemType.Length == 8192 && litData.Length == 65536 && distData.Length == 32768 && ones.Length == 256
      && itemType != litData && distData != ones && itemType as object != ones && litData as object != ones
      && itemType as object != distData && litData as object != distData
      && literals <= FULL && ClearFrom(itemType[..], literals)
      && distances == Matches(itemType[..], literals) <= MAX_DISTS
      && OnesTable(ones[..])
    }

    /** The tokens held. */
    ghost function Held(): (ts: seq<Token>)
      reads this`literals, this`distances, itemType, litData, distData, ones
      requires Valid()
      ensures |ts| == literals
    {
      Items(itemType[..], litData[..], distData[..], literals)
    }

    constructor ()
      ensures Valid() && Held() == [] && fresh(itemType) && fresh(litData) && fresh(distData) && fresh(ones)
              && blockSplits == 0
    {
      itemType := new byte[8192](i => 0);
      litData := new byte[65536](i => 0);
      distData := new nat[32768](i => 0);
      ones := new nat[256];
      literals, distances, blockSplits := 0, 0, 0;
      new;
      NoTokens(itemType[..]);
      CreateOnesTable(ones);
    }

    /** A literal is stored; its type bit is already clear. */
    method OutLiteral(b: byte)
      requires Valid() && literals < FULL
      modifies this`literals, litData
      ensures Valid() && Held() == old(Held()) + [Literal(b)] && distances == old(distances)
    {
      hide Matches, ClearFrom, Items, OnesTable;
      AddLiteral(itemType[..], litData[..], distData[..], literals, b);
      ghost var lits := litData[..];
      litData[literals] := b;
      assert litData[..] == lits[literals := b];
      literals := literals + 1;
    }

    /** OUT_MATCH. */
    method OutMatch(len: nat, pos: nat)
      requires Valid() && literals < FULL && distances < MAX_DISTS && 2 <= len <= 257
      modifies this`literals, this`distances, itemType, litData, distData
      ensures Valid() && Held() == old(Held()) + [Match(len, pos)] && distances == old(distances) + 1
    {
      hide Matches, ClearFrom, Items, OnesTable, IsMatch;
      AddMatch(itemType[..], litData[..], distData[..], literals, (len - 2) as byte, pos);
      ghost var types, lits, dists := itemType[..], litData[..], distData[..];
      itemType[literals / 8] := SetBit(itemType[literals / 8], literals % 8);
      litData[literals] := (len - 2) as byte;
      distData[distances] := pos;
      assert itemType[..] == Marked(types, literals);
      assert litData[..] == lits[literals := (len - 2) as byte] && distData[..] == dists[distances := pos];
      literals, distances := literals + 1, distances + 1;
    }

    lemma Parts()
      requires Valid()
      ensures itemType.Length == 8192 && litData.Length == 65536 && distData.Length == 32768 && ones.Length == 256
      ensures itemType != litData && distData != ones && itemType as object !in {ones as object, distData}
      ensures litData as object !in {ones as object, distData}
      ensures literals <= FULL && ClearFrom(itemType[..], literals)
      ensures distances == Matches(itemType[..], literals) <= MAX_DISTS && OnesTable(ones[..])
      ensures Held() == Items(itemType[..], litData[..], distData[..], literals)
    {
      hide ClearFrom, Matches, OnesTable;
    }

    lemma Make()
      requires itemType.Length == 8192 && litData.Length == 65536 && distData.Length == 32768 && ones.Length == 256
      requires itemType != litData && distData != ones && itemType as object !in {ones as object, distData}
      requires litData as object !in {ones as object, distData}
      requires literals <= FULL && ClearFrom(itemType[..], literals)
      requires distances == Matches(itemType[..], literals) <= MAX_DISTS && OnesTable(ones[..])
      ensures Valid() && Held() == Items(itemType[..], litData[..], distData[..], literals)
    {
      hide ClearFrom, Matches, OnesTable;
    }

    /** The end of output_block: the tokens of the block go, the rest move to the front. */
    method RemoveBlock(split: nat, dist: nat)
      requires Valid() && split <= literals && (split == literals || split % 64 == 0)
               && dist == Matches(itemType[..], split)
      modifies this`literals, this`distances, itemType, litData, distData
      ensures Valid() && Held() == old(Held())[split..]
    {
      hide *;
      Parts();
      Limits();
      ghost var types, lits, dists := itemType[..], litData[..], distData[..];
      if split == literals {
        ClearTypes(itemType);
        NoMatches(itemType[..]);
        literals, distances := 0, 0;
        Make();
        assert Held() == [] == old(Held())[split..];
      } else {
        MatchesMonotone(types, split, literals);
        MoveTypes(itemType, split, literals);
        MoveDown(litData, split, literals - split);
        MoveDown(distData, dist, distances - dist);
        DropBlock(types, lits, dists, litData[..], distData[..], split, literals);
        literals, distances := literals - split, distances - dist;
        Make();
      }
    }
  }

  lemma Limits()
    ensures FULL == 65528 && MAX_ITEMS == 65536 && MAX_DISTS == 32768
  {
  }

  method ClearTypes(types: array<byte>)
    requires types.Length == MAX_ITEMS / 8
    modifies types
    ensures ClearFrom(types[..], 0)
  {
    hide ClearFrom;
    forall k | 0 <= k < types.Length { types[k] := 0; }
    NoTokens(types[..]);
  }

  /** memmove of the type bytes from the split on, and memset of the rest. */
  method MoveTypes(types: array<byte>, split: nat, n: nat)
    requires split <= n < MAX_ITEMS && split % 64 == 0 && types.Length == MAX_ITEMS / 8
    modifies types
    ensures types[..] == Shifted(old(types[..]), split, n)
  {
    hide *;
    ghost var before := types[..];
    Limits();
    SplitEighth(split, n);
    ShiftedIs(before, split, n);
    var at, moved, rest := split / 8, 1 + n / 8 - split / 8, 1 + (n - split) / 8;
    MoveDown(types, at, moved);
    ghost var down := types[..];
    ClearRest(types, rest);
    MovedIs(before, down, at, moved, types[..]);
  }

  method ClearRest(types: array<byte>, rest: nat)
    requires rest <= types.Length
    modifies types
    ensures types[..] == Moved(old(types[..]), 0, rest)
  {
    forall k | rest <= k < types.Length { types[k] := 0; }
  }

  lemma MovedIs(before: seq<byte>, down: seq<byte>, at: nat, m: nat, after: seq<byte>)
    requires at + m <= |before| == |after| == |down| && forall k :: 0 <= k < m ==> down[k] == before[at + k]
    requires after == Moved(down, 0, m)
    ensures after == Moved(before, at, m)
  {
  }

  /** memmove of n elements from at to the front. */
  method MoveDown<T>(a: array<T>, at: nat, n: nat)
    requires at + n <= a.Length
    modifies a
    ensures forall k :: 0 <= k < n ==> a[k] == old(a[at + k])
  {
    forall k | 0 <= k < n { a[k] := a[at + k]; }
  }

  lemma ShiftedIs(types: seq<byte>, split: nat, n: nat)
    requires split <= n < MAX_ITEMS && |types| == MAX_ITEMS / 8
    ensures split / 8 <= 1 + n / 8 <= |types|
    ensures Shifted(types, split, n) == Moved(types, split / 8, 1 + n / 8 - split / 8)
  {
  }

  lemma SplitEighth(split: nat, n: nat)
    requires split % 64 == 0 && split <= n
    ensures 1 + (n - split) / 8 == 1 + n / 8 - split / 8
  {
    var q := split / 64;
    assert split == 64 * q;
  }

  lemma NoMatches(types: seq<byte>)
    ensures Matches(types, 0) == 0
  {
  }

  // ---------- Counting matches a byte at a time ----------

  /** The set bits among the low k bits of x. */
  function BitCount(x: nat): nat {
    if x == 0 then 0 else x % 2 + BitCount(x / 2)
  }

  ghost predicate OnesTable(ones: seq<nat>) {
    |ones| == 256 && forall x :: 0 <= x < 256 ==> ones[x] == BitCount(x)
  }

  /** create_ones_table. */
  method CreateOnesTable(ones: array<nat>)
    requires ones.Length == 256
    modifies ones
    ensures OnesTable(ones[..])
  {
    hide BitCount;
    for i := 0 to 256
      invariant forall x :: 0 <= x < i ==> ones[x] == BitCount(x)
    {
      var count, j: nat := 0, i;
      while j != 0
        invariant count + BitCount(j) == BitCount(i)
        decreases j
        modifies {}
      {
        HalfCount(j);
        if j % 2 == 1 {
          count := count + 1;
        }
        j := j / 2;
      }
      NoOnes();
      ones[i] := count;
    }
  }

  lemma NoOnes()
    ensures BitCount(0) == 0
  {
  }

  /** A type byte's ones are the matches among its eight items. */
  lemma ByteMatches(types: seq<byte>, i: nat)
    requires i < |types|
    ensures Matches(types, 8 * (i + 1)) == Matches(types, 8 * i) + BitCount(types[i] as int)
  {
    hide Matches;
    PartMatches(types, i, 8);
    ShiftedOut(types[i] as int);
  }

  lemma ShiftedOut(x: nat)
    requires x < 256
    ensures Shr(x, 8) == 0
  {
    hide Pow2;
    Pow2Values();
    ShrBelow(x, 8, 0);
  }

  lemma {:induction false} PartMatches(types: seq<byte>, i: nat, k: nat)
    requires i < |types| && k <= 8
    ensures Matches(types, 8 * i + k) + BitCount(Shr(types[i] as int, k)) == Matches(types, 8 * i)
            + BitCount(types[i] as int)
  {
    hide BitCount, Shr, Matches;
    if k > 0 {
      PartMatches(types, i, k - 1);
      MatchesNext(types, 8 * i + k - 1);
      assert (8 * i + k - 1) / 8 == i && (8 * i + k - 1) % 8 == k - 1;
      ShrNext(types[i] as int, k - 1);
      HalfCount(Shr(types[i] as int, k - 1));
    } else {
      ShrNone(types[i] as int);
    }
  }

  lemma ShrNone(x: nat)
    ensures Shr(x, 0) == x
  {
  }

  lemma {:induction false} ShrNext(x: nat, k: nat)
    ensures Shr(x, k + 1) == Shr(x, k) / 2
  {
    if k > 0 {
      ShrNext(x / 2, k - 1);
    }
  }

  lemma HalfCount(x: nat)
    ensures BitCount(x) == x % 2 + BitCount(x / 2)
  {
  }

  // ---------- Splitting ----------

  /** How different two stretches of tokens are: their first items, the matches before them, their
      common length. */
  type Difference = (nat, nat, nat, nat, nat) -> nat

  /** Sampled match counts: entry k counts the matches among the first 64 * k items. */
  ghost predicate Sampled(types: seq<byte>, end: nat, samples: seq<nat>) {
    |samples| >= 1032 && end <= 8 * |types| && forall k: nat :: 64 * k + 8 <= end ==>
      k < 1032 && samples[k] == Matches(types, 64 * k)
  }

  method SampleMatches(b: Buffer, end: nat) returns (samples: array<nat>)
    requires b.Valid() && end <= b.literals
    ensures fresh(samples) && samples.Length == 1032 && Sampled(b.itemType[..], end, samples[..])
  {
    hide Matches, ClearFrom, BitCount;
    samples := new nat[1032](i => 0);
    var nd, d := 0, 0;
    NoMatches(b.itemType[..]);
    for i := 0 to end / 8
      invariant nd == (i + 7) / 8 && d == Matches(b.itemType[..], 8 * i)
      invariant forall k: nat :: k < nd ==> samples[k] == Matches(b.itemType[..], 64 * k)
    {
      if i % 8 == 0 {
        samples[nd] := d;
        nd := nd + 1;
      }
      ByteMatches(b.itemType[..], i);
      d := d + b.ones[b.itemType[i]];
    }
  }

  /** The places tried around a difference: the first one where the difference is largest. */
  method BestSplit(i: nat, samples: array<nat>, difference: Difference) returns (max: nat, split: nat)
    requires i >= 1024 && i % 64 == 0 && i <= 65536 - 4096 && samples.Length == 1032
    ensures max > 0 ==> i + 512 <= split < i + 2560 && split % 64 == 0
  {
    max, split := 0, 0;
    var j := i + RESOLUTION / 2;
    while j < i + 5 * RESOLUTION / 2
      invariant j >= i + 512 && j % 64 == 0
      invariant max > 0 ==> i + 512 <= split < i + 2560 && split % 64 == 0
    {
      var diff := difference(j - RESOLUTION, j, samples[(j - RESOLUTION) / STEP_SIZE], samples[j / STEP_SIZE],
                             RESOLUTION);
      if diff > max {
        max, split := diff, j;
      }
      j := j + STEP_SIZE;
    }
  }

  method Changes(i: nat, samples: array<nat>, difference: Difference) returns (yes: bool)
    requires 2048 <= i <= 65536 - 4096 && samples.Length == 1032
  {
    var near := difference(i, i + RESOLUTION, samples[i / STEP_SIZE], samples[(i + RESOLUTION) / STEP_SIZE],
                           RESOLUTION);
    if near <= THRESHOLD {
      return false;
    }
    var wide := difference(i - RESOLUTION, i + 2 * RESOLUTION, samples[(i - RESOLUTION) / STEP_SIZE],
                           samples[(i + 2 * RESOLUTION) / STEP_SIZE], RESOLUTION);
    if wide <= THRESHOLD {
      return false;
    }
    var wider := difference(i - 2 * RESOLUTION, i + 3 * RESOLUTION, samples[(i - 2 * RESOLUTION) / STEP_SIZE],
                            samples[(i + 3 * RESOLUTION) / STEP_SIZE], RESOLUTION);
    yes := wider > THRESHOLD;
  }

  lemma WholeSteps(n: nat)
    requires n % 64 == 0
    ensures 64 * (n / 64) == n
  {
  }

  /** split_block: either all tokens up to end, or a multiple of 64 with the matches before it. */
  method SplitBlock(b: Buffer, start: nat, end: nat, distanceToEnd: nat, difference: Difference)
    returns (done: bool, split: nat, dist: nat)
    requires b.Valid() && start <= end <= b.literals && distanceToEnd == Matches(b.itemType[..], end)
    modifies b`blockSplits
    ensures split <= end && dist == Matches(b.itemType[..], split) && (start < end ==> start < split)
    ensures !done ==> split == end && b.blockSplits == old(b.blockSplits)
    ensures done ==>
              split % 64 == 0 && start + MIN_LITERALS_IN_BLOCK <= split < end
                && b.blockSplits == old(b.blockSplits) + 1 <= MAX_BLOCK_SPLITS
  {
    hide Matches, ClearFrom, OnesTable;
    split, dist := end, distanceToEnd;
    if end - start < MIN_LITERALS_REQUIRED {
      return false, split, dist;
    }
    if b.blockSplits >= MAX_BLOCK_SPLITS {
      return false, split, dist;
    }
    var samples := SampleMatches(b, end);
    var from := (start + (STEP_SIZE - 1)) / STEP_SIZE * STEP_SIZE;
    var i := from + 2 * RESOLUTION;
    while i < end - 4 * RESOLUTION
      invariant i % 64 == 0 && i >= from + 2048 && b.blockSplits == old(b.blockSplits)
      invariant Sampled(b.itemType[..], end, samples[..])
      decreases end - i
      modifies b`blockSplits
    {
      var changes := Changes(i, samples, difference);
      if changes {
        var max, best := BestSplit(i, samples, difference);
        if max >= EARLY_BREAK_THRESHOLD && best - from >= MIN_LITERALS_IN_BLOCK {
          b.blockSplits := b.blockSplits + 1;
          split, dist := best, samples[best / STEP_SIZE];
          WholeSteps(best);
          return true, split, dist;
        }
      }
      i := i + RESOLUTION;
    }
    done := false;
  }
}
