/** RC4, and the pass over the second boot loader that leaves the embedded first boot loader alone. */
module Rc4 {

  /** The two indices and the table. */
  datatype State = State(k: nat, j: nat, s: seq<nat>)

  function Identity(): (s: seq<nat>)
    ensures |s| == 256 && forall i :: 0 <= i < 256 ==> s[i] == i
  {
    seq(256, i => i)
  }

  /** The table holds every byte once. */
  ghost predicate Permutation(s: seq<nat>) {
    multiset(s) == multiset(Identity())
  }

  lemma PermutationBytes(s: seq<nat>, i: nat)
    requires Permutation(s)
    ensures |s| == 256 && (i < 256 ==> s[i] < 256)
  {
    assert |multiset(s)| == |s| && |multiset(Identity())| == 256;
    if i < 256 {
      assert s[i] in multiset(s);
      assert s[i] in multiset(Identity());
      assert s[i] in Identity();
    }
  }

  function Swapped(s: seq<nat>, i: nat, j: nat): (r: seq<nat>)
    requires i < |s| && j < |s|
    ensures |r| == |s|
  {
    s[i := s[j]][j := s[i]]
  }

  lemma SwapPermutes(s: seq<nat>, i: nat, j: nat)
    requires Permutation(s) && i < |s| && j < |s|
    ensures Permutation(Swapped(s, i, j))
  {
    assert multiset(Swapped(s, i, j)) == multiset(s);
  }

  lemma SwapIs(s: seq<nat>, i: nat, j: nat)
    requires i < |s| && j < |s|
    ensures Swapped(s, i, j) == s[i := s[j]][j := s[i]]
  {
  }

  // ---------- The generator ----------

  ghost predicate Good(c: State) {
    c.k < 256 && c.j < 256 && Permutation(c.s)
  }

  /** A good state has 256 bytes. */
  lemma GoodBytes(c: State, i: nat)
    requires Good(c)
    ensures |c.s| == 256 && c.k < 256 && c.j < 256 && (i < 256 ==> c.s[i] < 256)
  {
    hide Permutation;
    PermutationBytes(c.s, i);
  }

  function Next(c: State): State
    requires |c.s| == 256
  {
    var k := (c.k + 1) % 256;
    var j := (c.j + c.s[k]) % 256;
    State(k, j, Swapped(c.s, k, j))
  }

  /** The key byte that a state gives. */
  function Output(c: State): nat
    requires |c.s| == 256 && c.k < 256 && c.j < 256
  {
    c.s[(c.s[c.k] + c.s[c.j]) % 256]
  }

  function Run(c: State, n: nat): (r: State)
    requires |c.s| == 256
    ensures |r.s| == 256 && (n > 0 ==> r.k < 256 && r.j < 256)
  {
    if n == 0 then c else Next(Run(c, n - 1))
  }

  /** Byte i of the key stream. */
  function Stream(c: State, i: nat): nat
    requires |c.s| == 256
  {
    Output(Run(c, i + 1))
  }

  /** Every step keeps the table a permutation. */
  lemma NextGood(c: State)
    requires Good(c)
    ensures |c.s| == 256 && Good(Next(c))
  {
    hide Permutation;
    PermutationBytes(c.s, 0);
    var k := (c.k + 1) % 256;
    SwapPermutes(c.s, k, (c.j + c.s[k]) % 256);
  }

  lemma {:induction false} RunGood(c: State, n: nat)
    requires Good(c)
    ensures |c.s| == 256 && Good(Run(c, n))
  {
    hide Good, Next;
    GoodBytes(c, 0);
    if n > 0 {
      RunGood(c, n - 1);
      NextGood(Run(c, n - 1));
    }
  }

  /** A key stream byte is a byte. */
  lemma StreamByte(c: State, i: nat)
    requires Good(c)
    ensures |c.s| == 256 && Stream(c, i) < 256
  {
    hide Good, Next;
    RunGood(c, i + 1);
    GoodBytes(c, 0);
    var d := Run(c, i + 1);
    GoodBytes(d, (d.s[d.k] + d.s[d.j]) % 256);
  }

  /** Running on is running longer. */
  lemma {:induction false} RunOn(c: State, a: nat, b: nat)
    requires |c.s| == 256
    ensures Run(Run(c, a), b) == Run(c, a + b)
    decreases b
  {
    hide Next;
    if b > 0 {
      RunOn(c, a, b - 1);
    }
  }

  lemma StreamOn(c: State, a: nat, i: nat)
    requires |c.s| == 256
    ensures Stream(Run(c, a), i) == Stream(c, a + i)
  {
    hide Run, Output;
    RunOn(c, a, i + 1);
  }

  // ---------- Keys ----------

  /** The table and the index after the first n swaps of key setup. */
  function KeySwaps(key: seq<bv8>, n: nat): (r: (seq<nat>, nat))
    requires key != [] && n <= 256
    ensures |r.0| == 256 && r.1 < 256
  {
    if n == 0 then (Identity(), 0)
    else
      var (s, j) := KeySwaps(key, n - 1);
      var j' := (j + s[n - 1] + key[(n - 1) % |key|] as nat) % 256;
      (Swapped(s, n - 1, j'), j')
  }

  function KeyTable(key: seq<bv8>, n: nat): (s: seq<nat>)
    requires key != [] && n <= 256
    ensures |s| == 256
  {
    KeySwaps(key, n).0
  }

  function KeyIndex(key: seq<bv8>, n: nat): (j: nat)
    requires key != [] && n <= 256
    ensures j < 256
  {
    KeySwaps(key, n).1
  }

  /** The state a key sets up. */
  function KeyState(key: seq<bv8>): State
    requires key != []
  {
    State(0, 0, KeyTable(key, 256))
  }

  lemma KeyStart(key: seq<bv8>, s: seq<nat>)
    requires key != [] && |s| == 256 && forall i :: 0 <= i < 256 ==> s[i] == i
    ensures KeyTable(key, 0) == s && KeyIndex(key, 0) == 0
  {
  }

  lemma KeyNext(key: seq<bv8>, n: nat)
    requires key != [] && n < 256
    ensures var j := (KeyIndex(key, n) + KeyTable(key, n)[n] + key[n % |key|] as nat) % 256;
            && KeyIndex(key, n + 1) == j
            && KeyTable(key, n + 1) == KeyTable(key, n)[n := KeyTable(key, n)[j]][j := KeyTable(key, n)[n]]
  {
  }

  /** Key setup keeps the table a permutation. */
  lemma {:induction false} KeyGood(key: seq<bv8>, n: nat)
    requires key != [] && n <= 256
    ensures Permutation(KeyTable(key, n))
  {
    hide KeySwaps, Swapped;
    if n == 0 {
      KeyStart(key, Identity());
    } else {
      KeyGood(key, n - 1);
      KeyNext(key, n - 1);
      SwapIs(KeyTable(key, n - 1), n - 1, KeyIndex(key, n));
      SwapPermutes(KeyTable(key, n - 1), n - 1, KeyIndex(key, n));
    }
  }

  lemma KeyStateIs(key: seq<bv8>)
    requires key != []
    ensures var c := KeyState(key); c.k == 0 && c.j == 0 && c.s == KeyTable(key, 256)
    ensures Permutation(KeyTable(key, 256)) ==> Good(KeyState(key))
  {
    hide KeyTable, Permutation;
  }

  // ---------- Bytes ----------

  function Xor(a: bv8, key: nat): bv8
    requires key < 256
  {
    a ^ (key as bv8)
  }

  lemma XorTwice(a: bv8, key: nat)
    requires key < 256
    ensures Xor(Xor(a, key), key) == a
  {
    var b := key as bv8;
    assert (a ^ b) ^ b == a;
  }

  // ---------- The context ----------

  /** The two loops of rc4_key: the key is spread over 256 bytes, and guides the swaps. */
  method SwapThrough(s: array<nat>, key: seq<bv8>)
    requires key != [] && s.Length == 256 && s[..] == KeyTable(key, 0) && KeyIndex(key, 0) == 0
    modifies s
    ensures s[..] == KeyTable(key, 256) && Permutation(KeyTable(key, 256))
  {
    hide *;
    var keys := new nat[256](i requires 0 <= i < 256 => key[i % |key|] as nat);
    var at: nat := 0;
    for i: nat := 0 to 256
      invariant at < 256 && KeyTable(key, i) == s[..] && KeyIndex(key, i) == at
      invariant forall x: nat :: x < 256 ==> keys[x] == key[x % |key|] as nat
    {
      KeyNext(key, i);
      ghost var was := s[..];
      at := (at + s[i] + keys[i]) % 256;
      s[i], s[at] := s[at], s[i];
      SwappedIs(was, i, at, s[..]);
      SwapIs(was, i, at);
    }
    KeyGood(key, 256);
  }

  class Rc4Context {
    var k: nat
    var j: nat
    const s: array<nat>

    ghost function Now(): State
      reads this, s
    {
      State(k, j, s[..])
    }

    ghost predicate Valid()
      reads this, s
    {
      s.Length == 256 && Good(Now())
    }

    lemma ValidParts()
      requires Valid()
      ensures s.Length == 256 && Good(Now()) && k < 256 && j < 256
      ensures forall i :: 0 <= i < 256 ==> s[i] < 256
    {
      hide Permutation;
      forall i | 0 <= i < 256 ensures s[i] < 256 {
        PermutationBytes(s[..], i);
        assert s[..][i] == s[i];
      }
    }

    /** rc4_key: the table is swapped through once, guided by the key repeated. */
    constructor (key: seq<bv8>)
      requires key != []
      ensures Valid() && Now() == KeyState(key) && fresh(s)
    {
      s := new nat[256](i => i);
      k, j := 0, 0;
      new;
      hide *;
      KeyStart(key, s[..]);
      SwapThrough(s, key);
      KeyStateIs(key);
      NowIs();
      ValidMake();
    }

    /** rc4: the data, if there are any, get the key stream; without data the generator just runs on. */
    method Crypt(data: array?<bv8>, at: nat, size: nat)
      requires Valid() && (data != null ==> at + size <= data.Length && data as object != s)
      modifies this, s, data
      ensures Valid() && Now() == Run(old(Now()), size)
      ensures data != null ==> forall i: nat :: i < data.Length ==>
                data[i] == if at <= i < at + size then Ciphered(old(Now()), old(data[i]), i - at) else old(data[i])
      ensures |old(Now()).s| == 256
      ensures data != null ==> forall i: nat :: i < size ==>
                Stream(old(Now()), i) < 256 && data[at + i] == old(data[at + i]) ^ (Stream(old(Now()), i) as bv8)
    {
      hide *;
      ghost var c := Now();
      ghost var was := if data != null then data[..] else [];
      var i := 0;
      StartRun(c);
      ValidParts();
      while i < size
        invariant 0 <= i <= size && Valid() && Good(c) && Now() == Run(c, i)
        invariant data != null ==> forall x: nat :: x < data.Length ==>
                    data[x] == if at <= x < at + i then Ciphered(c, was[x], x - at) else was[x]
      {
        var key := Step(c, i);
        if data != null {
          CipheredIs(c, was[at + i], i);
          data[at + i] := Xor(data[at + i], key);
        }
        i := i + 1;
      }
      if data != null {
        AllXored(c, was, data[..], at, size);
      }
    }

    /** One turn of the loop. */
    method Step(ghost c: State, ghost i: nat) returns (key: nat)
      requires Valid() && Good(c) && |c.s| == 256 && Now() == Run(c, i)
      modifies this, s
      ensures Valid() && Now() == Run(c, i + 1) && key == Stream(c, i) && key < 256
    {
      hide *;
      ValidParts();
      NowIs();
      ghost var before := Now();
      StreamByte(c, i);
      k := (k + 1) % 256;
      j := (j + s[k]) % 256;
      NextIs(before, k, j);
      s[k], s[j] := s[j], s[k];
      SwappedIs(before.s, k, j, s[..]);
      RunNext(c, i);
      NextGood(before);
      NowIs();
      ValidMake();
      ValidParts();
      var t := (s[k] + s[j]) % 256;
      OutputIs(c, i, Now(), t);
      key := s[t];
    }

    lemma NowIs()
      ensures Now().k == k && Now().j == j && Now().s == s[..]
    {
    }

    lemma ValidMake()
      requires s.Length == 256 && Good(Now())
      ensures Valid()
    {
    }
  }

  lemma StartRun(c: State)
    ensures |c.s| == 256 ==> Run(c, 0) == c
    ensures Good(c) ==> |c.s| == 256
  {
    if Good(c) {
      GoodBytes(c, 0);
    }
  }

  lemma NextIs(c: State, k: nat, j: nat)
    requires |c.s| == 256 && k == (c.k + 1) % 256 && j == (c.j + c.s[k]) % 256
    ensures Next(c) == State(k, j, Swapped(c.s, k, j))
  {
  }

  lemma SwappedIs(s: seq<nat>, i: nat, j: nat, r: seq<nat>)
    requires i < |s| && j < |s| && |r| == |s| && r[i] == s[j] && r[j] == s[i]
    requires forall x :: 0 <= x < |s| && x != i && x != j ==> r[x] == s[x]
    ensures r == Swapped(s, i, j)
  {
  }

  lemma RunNext(c: State, i: nat)
    requires |c.s| == 256
    ensures Run(c, i + 1) == Next(Run(c, i))
  {
  }

  lemma OutputIs(c: State, i: nat, now: State, t: nat)
    requires |c.s| == 256 && now == Run(c, i + 1) && now.k < 256 && now.j < 256
             && t == (now.s[now.k] + now.s[now.j]) % 256
    ensures |now.s| == 256 && Stream(c, i) == now.s[t]
  {
  }

  /** A byte with byte i of the key stream. */
  ghost function Ciphered(c: State, b: bv8, i: nat): bv8 {
    if |c.s| == 256 && Stream(c, i) < 256 then Xor(b, Stream(c, i)) else b
  }

  /** The bytes ciphered, with the operator written out. */
  lemma AllXored(c: State, was: seq<bv8>, now: seq<bv8>, at: nat, size: nat)
    requires Good(c) && |was| == |now| && at + size <= |was|
    requires forall i: nat :: at <= i < at + size ==> now[i] == Ciphered(c, was[i], i - at)
    ensures |c.s| == 256
    ensures forall i: nat :: i < size ==>
              Stream(c, i) < 256 && now[at + i] == was[at + i] ^ (Stream(c, i) as bv8)
  {
    hide *;
    GoodBytes(c, 0);
    forall i: nat | i < size ensures Stream(c, i) < 256 && now[at + i] == was[at + i] ^ (Stream(c, i) as bv8) {
      CipheredXor(c, was[at + i], i);
      assert now[at + i] == Ciphered(c, was[at + i], at + i - at);
    }
  }

  lemma CipheredXor(c: State, b: bv8, i: nat)
    requires Good(c)
    ensures |c.s| == 256 && Stream(c, i) < 256 && Ciphered(c, b, i) == b ^ (Stream(c, i) as bv8)
  {
    hide Good, Stream;
    StreamByte(c, i);
  }

  lemma CipheredIs(c: State, b: bv8, i: nat)
    requires Good(c)
    ensures |c.s| == 256 && Stream(c, i) < 256 && Ciphered(c, b, i) == Xor(b, Stream(c, i))
  {
    hide Good, Stream, Xor;
    StreamByte(c, i);
  }

  // ---------- A key ----------

  /** A key that leaves every byte of the table in its place: 0, 0, 255, 254, ..., 2. */
  ghost predicate Descending(key: seq<bv8>) {
    |key| == 256 && forall n :: 0 <= n < 256 ==> key[n] as nat == if n < 2 then 0 else 257 - n
  }

  lemma {:induction false} DescendingKey(key: seq<bv8>, n: nat)
    requires Descending(key) && n <= 256
    ensures KeyTable(key, n) == Identity() && KeyIndex(key, n) == if n == 0 then 0 else n - 1
  {
    hide KeyTable, KeyIndex, Descending, Identity;
    DescendingSize(key);
    if n == 0 {
      KeyStart(key, Identity());
    } else {
      DescendingKey(key, n - 1);
      KeyNext(key, n - 1);
      DescendingByte(key, n - 1);
      var s := Identity();
      assert s[n - 1 := s[n - 1]][n - 1 := s[n - 1]] == s;
    }
  }

  lemma DescendingSize(key: seq<bv8>)
    requires Descending(key)
    ensures |key| == 256
  {
  }

  lemma DescendingByte(key: seq<bv8>, n: nat)
    requires Descending(key) && n < 256
    ensures |key| == 256 && n % |key| == n && key[n] as nat == if n < 2 then 0 else 257 - n
  {
  }

  /** One turn of the generator: entries a and b change places. */
  lemma Turn(c: State, k: nat, j: nat, a: nat, b: nat, out: nat) returns (d: State)
    requires |c.s| == 256 && k == c.k + 1 < 256 && c.s[k] == a && j == (c.j + a) % 256 && c.s[j] == b
    requires c.s[k := b][j := a][(a + b) % 256] == out
    ensures d == State(k, j, c.s[k := b][j := a]) == Next(c) && |d.s| == 256 && Output(d) == out
  {
    d := State(k, j, c.s[k := b][j := a]);
    if k == j {
      assert a == b;
    }
  }

  /** The first eight bytes of its key stream. */
  lemma FirstBytes(key: seq<bv8>)
    requires Descending(key)
    ensures key != [] && var c := KeyState(key);
            && |c.s| == 256
            && [Stream(c, 0), Stream(c, 1), Stream(c, 2), Stream(c, 3), Stream(c, 4), Stream(c, 5), Stream(c, 6),
                Stream(c, 7)]
               == [2, 5, 7, 13, 13, 23, 31, 40]
  {
    hide *;
    DescendingSize(key);
    var c := KeyState(key);
    var c4 := FirstFour(key);
    var c5 := Turn(c4, 5, 11, 2, 11, 13);
    StreamIs(c, 4, c5);
    var c6 := Turn(c5, 6, 17, 6, 17, 23);
    StreamIs(c, 5, c6);
    var c7 := Turn(c6, 7, 24, 7, 24, 31);
    StreamIs(c, 6, c7);
    var c8 := Turn(c7, 8, 32, 8, 32, 40);
    StreamIs(c, 7, c8);
  }

  lemma FirstFour(key: seq<bv8>) returns (c4: State)
    requires Descending(key)
    ensures key != [] && var c := KeyState(key);
            && |c.s| == 256 && Stream(c, 0) == 2 && Stream(c, 1) == 5 && Stream(c, 2) == 7 && Stream(c, 3) == 13
            && c4 == Run(c, 4) && c4.k == 4 && c4.j == 9
    ensures |c4.s| == 256 && c4.s[2] == 3 && c4.s[3] == 5 && c4.s[5] == 2 && c4.s[4] == 9 && c4.s[9] == 4
    ensures forall i :: 0 <= i < 256 && i !in {2, 3, 4, 5, 9} ==> c4.s[i] == i
  {
    hide *;
    DescendingSize(key);
    DescendingKey(key, 256);
    KeyStateIs(key);
    var c := KeyState(key);
    StartRun(c);
    IdentityIs();
    var c1 := Turn(c, 1, 1, 1, 1, 2);
    StreamIs(c, 0, c1);
    var c2 := Turn(c1, 2, 3, 2, 3, 5);
    StreamIs(c, 1, c2);
    var c3 := Turn(c2, 3, 5, 2, 5, 7);
    StreamIs(c, 2, c3);
    c4 := Turn(c3, 4, 9, 4, 9, 13);
    StreamIs(c, 3, c4);
  }

  lemma IdentityIs()
    ensures |Identity()| == 256 && forall i :: 0 <= i < 256 ==> Identity()[i] == i
  {
  }

  lemma StreamIs(c: State, i: nat, d: State)
    requires |c.s| == 256 && d == Next(Run(c, i)) && d.k < 256 && d.j < 256 && |d.s| == 256
    ensures Stream(c, i) == Output(d) && Run(c, i + 1) == d
  {
    hide Output, Next;
  }

  // ---------- The second boot loader ----------

  const BLDR_BLOCK_SIZE: nat := 0x6000
  const PRELDR_BLOCK_SIZE: nat := 0x2A00
  const PRELDR_PARAMS_SIZE: nat := 0x80

  /** One pass over a whole block. */
  ghost function Pass(c: State, b: seq<bv8>): (r: seq<bv8>)
    ensures |r| == |b| && forall i: nat :: i < |b| ==> r[i] == Ciphered(c, b[i], i)
  {
    seq(|b|, i requires 0 <= i < |b| => Ciphered(c, b[i], i))
  }

  /** The bytes of the embedded first boot loader, without its parameters. */
  predicate Embedded(i: nat) {
    BLDR_BLOCK_SIZE - PRELDR_BLOCK_SIZE <= i < BLDR_BLOCK_SIZE - PRELDR_PARAMS_SIZE
  }

  /** r is what the preserving pass makes of b: elsewhere one full pass, and the embedded loader as it was. */
  ghost predicate Preserved(c: State, b: seq<bv8>, r: seq<bv8>) {
    && |b| == |r| == BLDR_BLOCK_SIZE
    && forall i: nat :: i < BLDR_BLOCK_SIZE ==> r[i] == if Embedded(i) then b[i] else Pass(c, b)[i]
  }

  lemma CipheredTwice(c: State, b: bv8, i: nat)
    ensures Ciphered(c, Ciphered(c, b, i), i) == b
  {
    hide Stream, Xor;
    if |c.s| == 256 && Stream(c, i) < 256 {
      XorTwice(b, Stream(c, i));
    }
  }

  /** What one pass makes of every byte. */
  lemma PassIs(c: State, b: seq<bv8>, i: nat)
    requires Good(c) && i < |b|
    ensures |c.s| == 256 && Stream(c, i) < 256 && Pass(c, b)[i] == b[i] ^ (Stream(c, i) as bv8)
  {
    hide *;
    CipheredXor(c, b[i], i);
  }

  /** A full pass is its own inverse. */
  lemma PassTwice(c: State, b: seq<bv8>)
    ensures Pass(c, Pass(c, b)) == b
  {
    hide Ciphered;
    forall i: nat | i < |b| ensures Pass(c, Pass(c, b))[i] == b[i] {
      CipheredTwice(c, b[i], i);
    }
  }

  /** So is the preserving pass. */
  lemma PreservedTwice(c: State, b: seq<bv8>, r: seq<bv8>, again: seq<bv8>)
    requires Preserved(c, b, r) && Preserved(c, r, again)
    ensures again == b
  {
    hide Ciphered, Embedded;
    forall i: nat | i < |b| ensures again[i] == b[i] {
      CipheredTwice(c, b[i], i);
    }
  }

  /** A full pass undoes the preserving pass except on the embedded loader, which it ciphers. */
  lemma PassAfterPreserved(c: State, b: seq<bv8>, r: seq<bv8>, i: nat)
    requires Preserved(c, b, r) && i < |b|
    ensures Pass(c, r)[i] == if Embedded(i) then Pass(c, b)[i] else b[i]
  {
    hide Ciphered, Embedded;
    CipheredTwice(c, b[i], i);
  }

  class Bios {
    const data: array<bv8>
    var bldr: int
    var encryptionState: bool

    constructor (data: array<bv8>, bldr: int, encryptionState: bool)
      ensures this.data == data && this.bldr == bldr && this.encryptionState == encryptionState
    {
      this.data, this.bldr, this.encryptionState := data, bldr, encryptionState;
    }

    predicate InBounds()
      reads `bldr
    {
      bldr >= 0 && bldr + BLDR_BLOCK_SIZE < data.Length
    }

    /** preldrSymmetricEncDecBldr: three calls on one context, the second without data. */
    method PreldrSymmetricEncDecBldr(key: seq<bv8>)
      requires key != []
      modifies this`encryptionState, data
      ensures !InBounds() ==> encryptionState == old(encryptionState) && data[..] == old(data[..])
      ensures InBounds() ==>
                && Preserved(KeyState(key), old(data[bldr..bldr + BLDR_BLOCK_SIZE]), data[bldr..bldr + BLDR_BLOCK_SIZE])
                && data[..bldr] == old(data[..bldr])
                   && data[bldr + BLDR_BLOCK_SIZE..] == old(data[bldr + BLDR_BLOCK_SIZE..])
                && encryptionState == !old(encryptionState)
    {
      hide *;
      InBoundsIs();
      if !InBounds() {
        return;
      }
      BlockSizes();
      ghost var was := data[..];
      var context := new Rc4Context(key);
      ghost var c := KeyState(key);
      context.ValidParts();
      GoodBytes(c, 0);
      context.Crypt(data, bldr, 13824);
      ghost var first := data[..];
      context.Crypt(null, 0, 10624);
      context.Crypt(data, bldr + 24448, 128);
      ThreeCalls(c, was, first, data[..], bldr);
      encryptionState := !encryptionState;
    }

    /** symmetricEncDecBldr: one call. */
    method SymmetricEncDecBldr(key: seq<bv8>)
      requires key != []
      modifies this`encryptionState, data
      ensures !InBounds() ==> encryptionState == old(encryptionState) && data[..] == old(data[..])
      ensures InBounds() ==>
                && data[bldr..bldr + BLDR_BLOCK_SIZE] == Pass(KeyState(key), old(data[bldr..bldr + BLDR_BLOCK_SIZE]))
                && data[..bldr] == old(data[..bldr])
                   && data[bldr + BLDR_BLOCK_SIZE..] == old(data[bldr + BLDR_BLOCK_SIZE..])
                && encryptionState == !old(encryptionState)
    {
      hide *;
      InBoundsIs();
      if !InBounds() {
        return;
      }
      BlockSizes();
      ghost var was := data[..];
      var context := new Rc4Context(key);
      context.Crypt(data, bldr, 24576);
      OneCall(KeyState(key), was, data[..], bldr);
      encryptionState := !encryptionState;
    }

    lemma InBoundsIs()
      ensures InBounds() <==> bldr >= 0 && bldr + 24576 < data.Length
    {
    }
  }

  lemma BlockSizes()
    ensures BLDR_BLOCK_SIZE == 24576 && PRELDR_BLOCK_SIZE == 10752 && PRELDR_PARAMS_SIZE == 128
  {
  }

  lemma OneCall(c: State, was: seq<bv8>, now: seq<bv8>, at: nat)
    requires |was| == |now| && at + 24576 < |was|
    requires forall i: nat :: i < |was| ==>
               now[i] == if at <= i < at + 24576 then Ciphered(c, was[i], i - at) else was[i]
    ensures now[at..at + BLDR_BLOCK_SIZE] == Pass(c, was[at..at + BLDR_BLOCK_SIZE])
    ensures now[..at] == was[..at] && now[at + BLDR_BLOCK_SIZE..] == was[at + BLDR_BLOCK_SIZE..]
  {
    hide Ciphered;
  }

  /** The three calls together. */
  lemma ThreeCalls(c: State, was: seq<bv8>, first: seq<bv8>, now: seq<bv8>, at: nat)
    requires Good(c) && |c.s| == 256 && |was| == |first| == |now| && at + 24576 < |was|
    requires forall i: nat :: i < |was| ==>
               first[i] == if at <= i < at + 13824 then Ciphered(c, was[i], i - at) else was[i]
    requires forall i: nat :: i < |was| ==>
               now[i] == if at + 24448 <= i < at + 24576
                 then Ciphered(Run(Run(c, 13824), 10624), first[i], i - (at + 24448)) else first[i]
    ensures Preserved(c, was[at..at + BLDR_BLOCK_SIZE], now[at..at + BLDR_BLOCK_SIZE])
    ensures now[..at] == was[..at] && now[at + BLDR_BLOCK_SIZE..] == was[at + BLDR_BLOCK_SIZE..]
  {
    hide Ciphered, Good, Run;
    RunOn(c, 13824, 10624);
    var b, r := was[at..at + BLDR_BLOCK_SIZE], now[at..at + BLDR_BLOCK_SIZE];
    forall i: nat | i < BLDR_BLOCK_SIZE ensures r[i] == if Embedded(i) then b[i] else Pass(c, b)[i] {
      if i >= 24448 {
        CipheredOn(c, 24448, b[i], i - 24448);
      }
    }
  }

  lemma CipheredOn(c: State, a: nat, b: bv8, i: nat)
    requires |c.s| == 256
    ensures Ciphered(Run(c, a), b, i) == Ciphered(c, b, a + i)
  {
    hide Stream, Run, Xor;
    StreamOn(c, a, i);
  }

  /** The preserving pass twice with the same key, each time under a fresh context, restores all data. */
  method PassBackAndForth(bios: Bios, key: seq<bv8>)
    requires key != []
    modifies bios`encryptionState, bios.data
    ensures bios.data[..] == old(bios.data[..]) && bios.encryptionState == old(bios.encryptionState)
  {
    hide *;
    bios.InBoundsIs();
    BlockSizes();
    ghost var was, at := bios.data[..], bios.bldr;
    bios.PreldrSymmetricEncDecBldr(key);
    ghost var once := bios.data[..];
    bios.PreldrSymmetricEncDecBldr(key);
    if bios.InBounds() {
      PreservedTwice(KeyState(key), was[at..at + 24576], once[at..at + 24576], bios.data[at..at + 24576]);
      ThreeParts(was, bios.data[..], at);
    }
  }

  lemma ThreeParts(a: seq<bv8>, b: seq<bv8>, at: nat)
    requires |a| == |b| && at + 24576 <= |a| && a[..at] == b[..at] && a[at..at + 24576] == b[at..at + 24576]
             && a[at + 24576..] == b[at + 24576..]
    ensures a == b
  {
    assert a == a[..at] + a[at..at + 24576] + a[at + 24576..];
    assert b == b[..at] + b[at..at + 24576] + b[at + 24576..];
  }
}
