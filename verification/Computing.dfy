/** Forms in which codes and bit strings can be computed: tables of code lengths as runs, bit strings as fields of so
    many bits, and what comes out of them as 16-bit words. */
module Computing {
  import opened Bits
  import opened BitStream
  import opened Canonical
  import opened Slots
  import opened Tokens
  import opened RepTree

  // ---------- Tables as runs ----------

  /** n entries v, and then the rest. */
  datatype Runs = NoMore | Times(n: nat, v: nat, rest: Runs)

  function Size(r: Runs): nat {
    match r
    case NoMore => 0
    case Times(n, _, rest) => n + Size(rest)
  }

  function Table(r: Runs): (t: seq<nat>)
    ensures |t| == Size(r)
  {
    match r
    case NoMore => []
    case Times(n, v, rest) => seq(n, i => v) + Table(rest)
  }

  function Followed(r: Runs, more: Runs): Runs {
    match r
    case NoMore => more
    case Times(n, v, rest) => Times(n, v, Followed(rest, more))
  }

  lemma {:induction false} FollowedIs(r: Runs, more: Runs)
    ensures Table(Followed(r, more)) == Table(r) + Table(more)
  {
    if r.Times? {
      FollowedIs(r.rest, more);
    }
  }

  function Nth(r: Runs, i: nat): nat {
    match r
    case NoMore => 0
    case Times(n, v, rest) => if i < n then v else Nth(rest, i - n)
  }

  /** How many of the first k entries are u. */
  function CountIn(r: Runs, k: nat, u: nat): nat {
    match r
    case NoMore => 0
    case Times(n, v, rest) => (if u == v then Min(n, k) else 0) + if k <= n then 0 else CountIn(rest, k - n, u)
  }

  /** How many of all entries are u. */
  function HowMany(r: Runs, u: nat): nat {
    match r
    case NoMore => 0
    case Times(n, v, rest) => (if u == v then n else 0) + HowMany(rest, u)
  }

  lemma {:induction false} HowManyIs(r: Runs, u: nat)
    ensures Count(Table(r), u) == HowMany(r, u)
  {
    if r.Times? {
      HowManyIs(r.rest, u);
      CountSame(r.n, r.v, u);
      CountConcat(seq(r.n, i => r.v), Table(r.rest), u);
    }
  }

  function FirstIn(r: Runs, l: nat): nat {
    if l <= 1 then 0 else 2 * (FirstIn(r, l - 1) + HowMany(r, l - 1))
  }

  function NumberIn(r: Runs, s: nat): nat {
    FirstIn(r, Nth(r, s)) + CountIn(r, s, Nth(r, s))
  }

  predicate UpTo(r: Runs, max: nat) {
    match r
    case NoMore => true
    case Times(_, v, rest) => v <= max && UpTo(rest, max)
  }

  /** Neighbouring runs differ. */
  predicate Neat(r: Runs) {
    match r
    case NoMore => true
    case Times(n, v, rest) => n > 0 && Neat(rest) && (rest.Times? ==> rest.v != v)
  }

  function RunIn(r: Runs, i: nat): nat {
    match r
    case NoMore => 0
    case Times(n, _, rest) => if i < n then n - 1 - i else RunIn(rest, i - n)
  }

  lemma {:induction false} NthIs(r: Runs, i: nat)
    requires i < Size(r)
    ensures Table(r)[i] == Nth(r, i)
  {
    if i >= r.n {
      NthIs(r.rest, i - r.n);
    }
  }

  lemma {:induction false} CountConcat(a: seq<nat>, b: seq<nat>, u: nat)
    ensures Count(a + b, u) == Count(a, u) + Count(b, u)
    decreases |b|
  {
    if b == [] {
      assert a + b == a;
    } else {
      CountConcat(a, b[..|b| - 1], u);
      assert (a + b)[..|a + b| - 1] == a + b[..|b| - 1];
    }
  }

  lemma {:induction false} CountSame(n: nat, v: nat, u: nat)
    ensures Count(seq(n, i => v), u) == if u == v then n else 0
  {
    if n > 0 {
      CountSame(n - 1, v, u);
      assert seq(n, i => v)[..n - 1] == seq(n - 1, i => v);
    }
  }

  lemma {:induction false} CountIs(r: Runs, k: nat, u: nat)
    requires k <= Size(r)
    ensures Count(Table(r)[..k], u) == CountIn(r, k, u)
  {
    if r.Times? {
      var n, v := r.n, r.v;
      CountSame(Min(n, k), v, u);
      if k <= n {
        assert Table(r)[..k] == seq(k, i => v);
      } else {
        CountSame(n, v, u);
        CountIs(r.rest, k - n, u);
        CountConcat(seq(n, i => v), Table(r.rest)[..k - n], u);
        assert Table(r)[..k] == seq(n, i => v) + Table(r.rest)[..k - n];
      }
    }
  }

  lemma {:induction false} FirstIs(r: Runs, l: nat)
    ensures FirstCode(Table(r), l) == FirstIn(r, l)
  {
    if l > 1 {
      FirstIs(r, l - 1);
      HowManyIs(r, l - 1);
    }
  }

  lemma {:induction false} UpToIs(r: Runs, max: nat, i: nat)
    requires UpTo(r, max) && i < Size(r)
    ensures Table(r)[i] <= max
  {
    if i >= r.n {
      UpToIs(r.rest, max, i - r.n);
    }
  }

  /** Lengths up to max that use up all codes. */
  predicate FullCode(r: Runs, max: nat) {
    1 <= max <= 16 && UpTo(r, max) && FirstIn(r, max) + HowMany(r, max) == Pow2(max)
  }

  lemma FullCodeIs(r: Runs, max: nat)
    requires FullCode(r, max)
    ensures Complete(Table(r))
  {
    hide FirstIn, Pow2, Table, HowMany, UpTo;
    AllUpTo(r, max);
    FirstIs(r, 16);
    HowManyIs(r, 16);
    Pow2Values();
    FirstBeyond(r, max, 16);
  }

  /** Beyond the longest length nothing is counted. */
  lemma {:induction false} FirstBeyond(r: Runs, max: nat, l: nat)
    requires FullCode(r, max) && max <= l
    ensures FirstIn(r, l) + HowMany(r, l) == Pow2(l)
  {
    hide UpTo, HowMany;
    if l > max {
      FirstBeyond(r, max, l - 1);
      NoneBeyond(r, max, l);
    }
  }

  lemma {:induction false} NoneBeyond(r: Runs, max: nat, u: nat)
    requires UpTo(r, max) && max < u
    ensures HowMany(r, u) == 0
  {
    if r.Times? {
      NoneBeyond(r.rest, max, u);
    }
  }

  lemma AllUpTo(r: Runs, max: nat)
    requires UpTo(r, max)
    ensures forall i :: 0 <= i < |Table(r)| ==> Table(r)[i] <= max
  {
    forall i | 0 <= i < |Table(r)| ensures Table(r)[i] <= max {
      UpToIs(r, max, i);
    }
  }

  /** The code of a symbol. */
  lemma CodeIs(r: Runs, s: nat)
    requires s < Size(r)
    ensures Table(r)[s] == Nth(r, s) && Code(Table(r), s) == BitsOf(Nth(r, s), NumberIn(r, s))
  {
    hide *;
    TableSize(r);
    NthIs(r, s);
    FirstIs(r, Nth(r, s));
    CountIs(r, s, Nth(r, s));
    CodeParts(Table(r), s);
    NumberParts(r, s);
  }

  lemma CodeParts(lens: seq<nat>, s: nat)
    requires s < |lens|
    ensures Code(lens, s) == BitsOf(lens[s], FirstCode(lens, lens[s]) + Count(lens[..s], lens[s]))
  {
    hide BitsOf, FirstCode, Count;
  }

  /** A code number from the first number of its length. */
  lemma NumberGiven(r: Runs, s: nat, n: nat)
    requires Nth(r, s) == n
    ensures NumberIn(r, s) == FirstIn(r, n) + CountIn(r, s, n)
  {
    hide FirstIn, CountIn, Nth;
  }

  lemma NumberParts(r: Runs, s: nat)
    ensures NumberIn(r, s) == FirstIn(r, Nth(r, s)) + CountIn(r, s, Nth(r, s))
  {
    hide FirstIn, CountIn, Nth;
  }

  lemma TableSize(r: Runs)
    ensures |Table(r)| == Size(r)
  {
  }

  lemma {:induction false} RunFront(cur: seq<nat>, i: nat, n: nat)
    requires i < n <= |cur| && (forall j :: i <= j < n ==> cur[j] == cur[i]) && (n < |cur| ==> cur[n] != cur[i])
    ensures RunAfter(cur, i) == n - 1 - i
    decreases n - i
  {
    if i + 1 < n {
      RunFront(cur, i + 1, n);
    }
  }

  lemma {:induction false} RunBehind(a: seq<nat>, b: seq<nat>, i: nat)
    requires i < |b|
    ensures RunAfter(a + b, |a| + i) == RunAfter(b, i)
    decreases |b| - i
  {
    if i + 1 < |b| {
      RunBehind(a, b, i + 1);
    }
  }

  lemma {:induction false} RunIs(r: Runs, i: nat)
    requires Neat(r) && i < Size(r)
    ensures RunAfter(Table(r), i) == RunIn(r, i)
  {
    var front := seq(r.n, j => r.v);
    assert Table(r) == front + Table(r.rest);
    if r.rest.Times? {
      NthIs(r.rest, 0);
    }
    if i < r.n {
      RunFront(Table(r), i, r.n);
    } else {
      RunIs(r.rest, i - r.n);
      RunBehind(front, Table(r.rest), i - r.n);
    }
  }

  // ---------- Bit strings as fields ----------

  /** The low n bits of x, and then the rest. */
  datatype FieldList = None | Field(n: nat, x: nat, rest: FieldList)

  function BitsIn(fs: FieldList): seq<bool> {
    match fs
    case None => []
    case Field(n, x, rest) => BitsOf(n, x) + BitsIn(rest)
  }

  /** 2^k, up to 16 bits. */
  function Power(k: nat): (p: nat)
    ensures p > 0
  {
    if k == 0 then 1 else if k == 1 then 2 else if k == 2 then 4 else if k == 3 then 8
    else if k == 4 then 16 else if k == 5 then 32 else if k == 6 then 64 else if k == 7 then 128
    else if k == 8 then 256 else if k == 9 then 512 else if k == 10 then 1024 else if k == 11 then 2048
    else if k == 12 then 4096 else if k == 13 then 8192 else if k == 14 then 16384 else if k == 15 then 32768
    else 65536
  }

  lemma PowerIs(k: nat)
    requires k <= 16
    ensures Power(k) == Pow2(k)
  {
    hide Pow2;
    Powers();
  }

  /** v * 2^k + x: k bits with the value x behind bits with the value v. */
  function Join(v: nat, k: nat, x: nat): nat {
    if k == 0 then v + x else if k == 1 then 2 * v + x else if k == 2 then 4 * v + x else
    if k == 3 then 8 * v + x else if k == 4 then 16 * v + x else if k == 5 then 32 * v + x else
    if k == 6 then 64 * v + x else if k == 7 then 128 * v + x else if k == 8 then 256 * v + x else
    if k == 9 then 512 * v + x else if k == 10 then 1024 * v + x else if k == 11 then 2048 * v + x else
    if k == 12 then 4096 * v + x else if k == 13 then 8192 * v + x else if k == 14 then 16384 * v + x else
    if k == 15 then 32768 * v + x else 65536 * v + x
  }

  /** u / 2^k and u % 2^k: all bits but the last k, and the last k. */
  function Top(u: nat, k: nat): nat {
    if k == 0 then u else if k == 1 then u / 2 else if k == 2 then u / 4 else if k == 3 then u / 8 else
    if k == 4 then u / 16 else if k == 5 then u / 32 else if k == 6 then u / 64 else if k == 7 then u / 128 else
    if k == 8 then u / 256 else if k == 9 then u / 512 else if k == 10 then u / 1024 else
    if k == 11 then u / 2048 else if k == 12 then u / 4096 else if k == 13 then u / 8192 else
    if k == 14 then u / 16384 else if k == 15 then u / 32768 else u / 65536
  }

  function Bottom(u: nat, k: nat): nat {
    if k == 0 then 0 else if k == 1 then u % 2 else if k == 2 then u % 4 else if k == 3 then u % 8 else
    if k == 4 then u % 16 else if k == 5 then u % 32 else if k == 6 then u % 64 else if k == 7 then u % 128 else
    if k == 8 then u % 256 else if k == 9 then u % 512 else if k == 10 then u % 1024 else
    if k == 11 then u % 2048 else if k == 12 then u % 4096 else if k == 13 then u % 8192 else
    if k == 14 then u % 16384 else if k == 15 then u % 32768 else u % 65536
  }

  lemma JoinIs(v: nat, k: nat, x: nat)
    requires k <= 16
    ensures Join(v, k, x) == v * Pow2(k) + x
  {
    hide Pow2;
    Powers();
  }

  lemma TopIs(u: nat, k: nat)
    requires k <= 16
    ensures Top(u, k) == u / Pow2(k) && Bottom(u, k) == u % Pow2(k)
  {
    hide Pow2;
    Powers();
  }

  /** Whole words, and then n bits left with the value v. */
  datatype Words = Left(n: nat, v: nat) | Word16(w: nat, rest: Words)

  /** What is left of n bits when a word that is full leaves. */
  function Carry(n: nat): nat {
    if n < 16 then n else n - 16
  }

  function CarryBits(n: nat, u: nat): nat {
    if n < 16 then u else Bottom(u, n - 16)
  }

  function Leaving(n: nat, u: nat, rest: Words): Words {
    if n < 16 then rest else Word16(Top(u, n - 16), rest)
  }

  /** The words that fields make behind n bits with the value v. */
  function Packed(fs: FieldList, n: nat, v: nat): Words
    decreases fs
  {
    match fs
    case None => Left(n, v)
    case Field(k, x, rest) => Leaving(n + k, Join(v, k, x), Packed(rest, Carry(n + k), CarryBits(n + k, Join(v, k, x))))
  }

  /** Every field holds its number, and none is longer than a word. */
  predicate Sound(fs: FieldList) {
    match fs
    case None => true
    case Field(n, x, rest) => n <= 16 && x < Power(n) && Sound(rest)
  }

  function Bytes(ws: Words): seq<byte> {
    match ws
    case Left(_, _) => []
    case Word16(w, rest) => [Low(w), High(w)] + Bytes(rest)
  }

  function Rest(ws: Words): seq<bool> {
    match ws
    case Left(n, v) => BitsOf(n, v)
    case Word16(_, rest) => Rest(rest)
  }

  /** Packing bits is computing with numbers. */
  lemma {:induction false} PackedIs(out: seq<byte>, fs: FieldList, n: nat, v: nat)
    requires Sound(fs) && n < 16 && v < Pow2(n)
    ensures Put(Wire(out, BitsOf(n, v)), BitsIn(fs)) == Wire(out + Bytes(Packed(fs, n, v)), Rest(Packed(fs, n, v)))
    decreases fs
  {
    hide BitsOf, Pow2, Power, Put, Join, Top, Bottom, Low, High;
    match fs
    case None =>
      PutNone(out, BitsOf(n, v));
      assert out + Bytes(Packed(fs, n, v)) == out;
    case Field(k, x, rest) =>
      var u := Join(v, k, x);
      PutConcat(Wire(out, BitsOf(n, v)), BitsOf(k, x), BitsIn(rest));
      PowerIs(k);
      Joined(n, v, k, x);
      if n + k < 16 {
        PutFew(out, n, v, k, x);
        PackedIs(out, rest, n + k, u);
      } else {
        var m := n + k - 16;
        var w, y := Top(u, m), Bottom(u, m);
        PutMany(out, n, v, k, x);
        Parted(u, 16, m);
        PackedIs(out + [Low(w), High(w)], rest, m, y);
        assert out + [Low(w), High(w)] + Bytes(Packed(rest, m, y)) == out
               + ([Low(w), High(w)] + Bytes(Packed(rest, m, y)));
      }
  }

  lemma PutNone(out: seq<byte>, s: seq<bool>)
    requires |s| < 16
    ensures Put(Wire(out, s), []) == Wire(out, s)
  {
    assert s + [] == s;
  }

  lemma Joined(n: nat, v: nat, k: nat, x: nat)
    requires v < Pow2(n) && x < Pow2(k) && k <= 16
    ensures Join(v, k, x) < Pow2(n + k)
  {
    hide Pow2, Join;
    JoinIs(v, k, x);
    PowSum(n, k);
    Larger(Pow2(n), v, Pow2(k));
  }

  lemma Parted(u: nat, n: nat, k: nat)
    requires u < Pow2(n + k) && k <= 16
    ensures Top(u, k) < Pow2(n) && Bottom(u, k) < Pow2(k) && u == Join(Top(u, k), k, Bottom(u, k))
  {
    hide Pow2, Join, Top, Bottom;
    TopIs(u, k);
    JoinIs(Top(u, k), k, Bottom(u, k));
    PowSum(n, k);
    var p, w := Pow2(k), Top(u, k);
    assert u == w * p + u % p;
    if w > Pow2(n) {
      Larger(w, Pow2(n), p);
    }
  }

  lemma {:induction false} PowSum(a: nat, b: nat)
    ensures Pow2(a + b) == Pow2(a) * Pow2(b)
  {
    if a > 0 {
      PowSum(a - 1, b);
      assert Pow2(a) * Pow2(b) == 2 * (Pow2(a - 1) * Pow2(b));
    }
  }

  lemma JoinBits(n: nat, v: nat, k: nat, x: nat)
    requires x < Pow2(k) && k <= 16
    ensures BitsOf(n, v) + BitsOf(k, x) == BitsOf(n + k, Join(v, k, x))
  {
    hide Pow2, Join, BitsOf;
    JoinIs(v, k, x);
    BitsOfConcat(n, v, k, x);
  }

  /** One more field behind n bits: no word is full yet, or one is. */
  lemma PutFew(out: seq<byte>, n: nat, v: nat, k: nat, x: nat)
    requires n + k < 16 && x < Pow2(k)
    ensures Put(Wire(out, BitsOf(n, v)), BitsOf(k, x)) == Wire(out, BitsOf(n + k, Join(v, k, x)))
  {
    hide BitsOf, Pow2, Pack, Join;
    JoinBits(n, v, k, x);
    PackShort(out, BitsOf(n + k, Join(v, k, x)));
  }

  lemma PutMany(out: seq<byte>, n: nat, v: nat, k: nat, x: nat)
    requires n < 16 && k <= 16 && n + k >= 16 && v < Pow2(n) && x < Pow2(k)
    ensures var m, u := n + k - 16, Join(v, k, x);
            Put(Wire(out, BitsOf(n, v)), BitsOf(k, x))
            == Wire(out + [Low(Top(u, m)), High(Top(u, m))], BitsOf(m, Bottom(u, m)))
  {
    hide BitsOf, Pow2, Pack, ValueOf, Join, Top, Bottom;
    var m, u := n + k - 16, Join(v, k, x);
    JoinBits(n, v, k, x);
    Joined(n, v, k, x);
    Parted(u, 16, m);
    ValueOfBits(16, Top(u, m));
    JoinBits(16, Top(u, m), m, Bottom(u, m));
    PackWord(out, Top(u, m), BitsOf(m, Bottom(u, m)));
  }

  lemma PackShort(out: seq<byte>, s: seq<bool>)
    requires |s| < 16
    ensures Pack(out, s) == Wire(out, s)
  {
  }

  lemma PackWord(out: seq<byte>, w: nat, s: seq<bool>)
    requires |s| < 16 && ValueOf(BitsOf(16, w)) == w
    ensures Pack(out, BitsOf(16, w) + s) == Wire(out + [Low(w), High(w)], s)
  {
    hide BitsOf, ValueOf, Low, High;
    var all := BitsOf(16, w) + s;
    assert all[..16] == BitsOf(16, w) && all[16..] == s;
    PackShort(out + [Low(w), High(w)], s);
  }

  /** What some fields do behind n bits, once it has been computed. */
  lemma Segment(out: seq<byte>, fs: FieldList, n: nat, v: nat, ws: Words)
    requires Sound(fs) && n < 16 && v < Pow2(n) && Packed(fs, n, v) == ws
    ensures Put(Wire(out, BitsOf(n, v)), BitsIn(fs)) == Wire(out + Bytes(ws), Rest(ws))
  {
    hide *;
    PackedIs(out, fs, n, v);
  }

  function Both(a: FieldList, b: FieldList): FieldList {
    match a
    case None => b
    case Field(n, x, rest) => Field(n, x, Both(rest, b))
  }

  lemma {:induction false} BothAre(a: FieldList, b: FieldList)
    ensures BitsIn(Both(a, b)) == BitsIn(a) + BitsIn(b)
  {
    hide BitsOf;
    if a.Field? {
      BothAre(a.rest, b);
      assert BitsOf(a.n, a.x) + BitsIn(a.rest) + BitsIn(b) == BitsOf(a.n, a.x) + (BitsIn(a.rest) + BitsIn(b));
    }
  }

  // ---------- Codes, tables and tokens as fields ----------

  function CodeField(r: Runs, s: nat, rest: FieldList): FieldList {
    Field(Nth(r, s), NumberIn(r, s), rest)
  }

  lemma CodeFieldIs(r: Runs, s: nat, rest: FieldList)
    requires s < Size(r)
    ensures BitsIn(CodeField(r, s, rest)) == Code(Table(r), s) + BitsIn(rest)
  {
    CodeIs(r, s);
  }

  /** The steps in which a table is sent. */
  datatype Steps = Done | Step(r: Rep, rest: Steps)

  function RepIn(cur: Runs, prev: Runs, i: nat): Rep
    requires Nth(prev, i) <= 16 && Nth(cur, i) <= 16
  {
    var same, d := RunIn(cur, i), DeltaOf(Nth(prev, i), Nth(cur, i));
    if same < 4 then Delta(d)
    else if Nth(cur, i) == 0 then
      if same <= 19 then Zeros17(same) else Zeros18(Min(same, 51))
    else Same19(Min(same, 5), d)
  }

  predicate HasCode(r: Runs, s: nat) {
    Nth(r, s) > 0
  }

  /** From entry i on the table cur is sent in these steps, with the small tree lens. */
  predicate Sends(lens: Runs, cur: Runs, prev: Runs, i: nat, steps: Steps)
    decreases steps
  {
    match steps
    case Done => i == Size(cur)
    case Step(r, rest) =>
      && i < Size(cur) && Nth(prev, i) <= 16 && Nth(cur, i) <= 16 && r == RepIn(cur, prev, i)
      && (r.Delta? || r.Same19? ==> r.d < 17 && HasCode(lens, r.d))
      && (r.Zeros17? ==> HasCode(lens, 17)) && (r.Zeros18? ==> HasCode(lens, 18))
      && (r.Same19? ==> HasCode(lens, 19)) && Sends(lens, cur, prev, i + Advance(r), rest)
  }

  /** A code and a number of k bits behind it, in one field. */
  function CodeAnd(r: Runs, s: nat, k: nat, x: nat, rest: FieldList): FieldList {
    Field(Nth(r, s) + k, Join(NumberIn(r, s), k, x), rest)
  }

  lemma CodeAndIs(r: Runs, s: nat, k: nat, x: nat, rest: FieldList)
    requires s < Size(r) && k <= 16 && x < Power(k)
    ensures BitsIn(CodeAnd(r, s, k, x, rest)) == Code(Table(r), s) + (BitsOf(k, x) + BitsIn(rest))
  {
    hide Power, Pow2, Join, Nth, NumberIn, BitsOf, Code, Table;
    PowerIs(k);
    CodeIs(r, s);
    JoinBits(Nth(r, s), NumberIn(r, s), k, x);
    assert BitsOf(Nth(r, s), NumberIn(r, s)) + BitsOf(k, x) + BitsIn(rest)
           == BitsOf(Nth(r, s), NumberIn(r, s)) + (BitsOf(k, x) + BitsIn(rest));
  }

  function OneStepFields(lens: Runs, r: Rep, next: FieldList): FieldList {
    match r
    case Delta(d) => CodeField(lens, d, next)
    case Zeros17(run) => if run < 4 then next else CodeAnd(lens, 17, 4, run - 4, next)
    case Zeros18(run) => if run < 20 then next else CodeAnd(lens, 18, 5, run - 20, next)
    case Same19(run, d) => if run < 4 then next else CodeAnd(lens, 19, 1, run - 4, CodeField(lens, d, next))
  }

  function StepFields(lens: Runs, steps: Steps, rest: FieldList): FieldList {
    match steps
    case Done => rest
    case Step(r, more) => OneStepFields(lens, r, StepFields(lens, more, rest))
  }

  lemma RepIs(cur: Runs, prev: Runs, i: nat)
    requires Neat(cur) && Tables(Table(cur), Table(prev)) && i < Size(cur) == |Table(cur)|
    ensures Nth(prev, i) <= 16 && Nth(cur, i) <= 16 && RepAt(Table(cur), Table(prev), i) == RepIn(cur, prev, i)
  {
    NthIs(cur, i);
    NthIs(prev, i);
    RunIs(cur, i);
  }

  lemma {:induction false} StepFieldsAre(lens: Runs, cur: Runs, prev: Runs, i: nat, steps: Steps, rest: FieldList)
    requires Neat(cur) && Tables(Table(cur), Table(prev)) && Size(lens) == SMALL == |Table(lens)|
             && i <= Size(cur) == |Table(cur)|
    requires Sends(lens, cur, prev, i, steps)
    ensures Serves(Table(lens), Table(cur), Table(prev), i)
    ensures TailBits(Table(lens), Table(cur), Table(prev), i) + BitsIn(rest) == BitsIn(StepFields(lens, steps, rest))
    decreases steps
  {
    hide *;
    SendsStep(lens, cur, prev, i, steps);
    if steps == Done {
      NoSteps(lens, Table(lens), Table(cur), Table(prev), rest);
      assert [] + BitsIn(rest) == BitsIn(rest);
    } else {
      var r, next := steps.r, StepFields(lens, steps.rest, rest);
      RepIs(cur, prev, i);
      StepFieldsAre(lens, cur, prev, i + Advance(r), steps.rest, rest);
      OneStep(lens, r, next);
      OneMoreStep(lens, Table(lens), Table(cur), Table(prev), i, steps, rest);
      var tail := TailBits(Table(lens), Table(cur), Table(prev), i + Advance(r));
      assert RepBits(Table(lens), r) + tail + BitsIn(rest) == RepBits(Table(lens), r) + (tail + BitsIn(rest));
    }
  }

  lemma SendsStep(lens: Runs, cur: Runs, prev: Runs, i: nat, steps: Steps)
    requires Sends(lens, cur, prev, i, steps)
    ensures steps == Done ==> i == Size(cur)
    ensures steps.Step? ==>
              var r := steps.r;
              && i < Size(cur) && Nth(prev, i) <= 16 && Nth(cur, i) <= 16 && r == RepIn(cur, prev, i)
              && (r.Delta? || r.Same19? ==> r.d < 17 && HasCode(lens, r.d))
              && (r.Zeros17? ==> HasCode(lens, 17)) && (r.Zeros18? ==> HasCode(lens, 18))
              && (r.Same19? ==> HasCode(lens, 19)) && Sends(lens, cur, prev, i + Advance(r), steps.rest)
  {
    hide RepIn, Nth, Size, Advance;
  }

  lemma NoSteps(small: Runs, lens: seq<nat>, cur: seq<nat>, prev: seq<nat>, rest: FieldList)
    requires Tables(cur, prev) && |lens| == SMALL
    ensures Serves(lens, cur, prev, |cur|) && TailBits(lens, cur, prev, |cur|) == []
    ensures StepFields(small, Done, rest) == rest
  {
    hide Tables;
  }

  lemma OneMoreStep(small: Runs, lens: seq<nat>, cur: seq<nat>, prev: seq<nat>, i: nat, steps: Steps, rest: FieldList)
    requires Tables(cur, prev) && |lens| == SMALL && i < |cur| && steps.Step? && steps.r == RepAt(cur, prev, i)
    ensures Good(steps.r) && i + Advance(steps.r) <= |cur|
    ensures TailBits(lens, cur, prev, i) == RepBits(lens, steps.r) + TailBits(lens, cur, prev, i + Advance(steps.r))
    ensures Serves(lens, cur, prev, i)
            <==> (forall s :: s in Symbols(steps.r) ==> Used(lens, s)) && Serves(lens, cur, prev, i + Advance(steps.r))
    ensures StepFields(small, steps, rest) == OneStepFields(small, steps.r, StepFields(small, steps.rest, rest))
  {
    hide Tables, RepAt, RepBits, OneStepFields, Symbols, Advance;
  }

  lemma OneStep(lens: Runs, r: Rep, next: FieldList)
    requires Size(lens) == SMALL && Good(r) && (r.Delta? || r.Same19? ==> HasCode(lens, r.d))
    requires (r.Zeros17? ==> HasCode(lens, 17)) && (r.Zeros18? ==> HasCode(lens, 18))
             && (r.Same19? ==> HasCode(lens, 19))
    ensures forall s :: s in Symbols(r) ==> Used(Table(lens), s)
    ensures |Table(lens)| == SMALL && BitsIn(OneStepFields(lens, r, next)) == RepBits(Table(lens), r) + BitsIn(next)
  {
    hide Table, Nth, CodeField, CodeAnd, BitsOf, Code, Size, BitsIn;
    TableSize(lens);
    var lengths := Table(lens);
    match r
    case Delta(d) =>
      NthIs(lens, d);
      CodeFieldIs(lens, d, next);
    case Zeros17(run) =>
      NthIs(lens, 17);
      CodeAndIs(lens, 17, 4, run - 4, next);
      assert Code(lengths, 17) + BitsOf(4, run - 4) + BitsIn(next)
             == Code(lengths, 17) + (BitsOf(4, run - 4) + BitsIn(next));
    case Zeros18(run) =>
      NthIs(lens, 18);
      CodeAndIs(lens, 18, 5, run - 20, next);
      assert Code(lengths, 18) + BitsOf(5, run - 20) + BitsIn(next)
             == Code(lengths, 18) + (BitsOf(5, run - 20) + BitsIn(next));
    case Same19(run, d) =>
      NthIs(lens, 19);
      NthIs(lens, d);
      CodeFieldIs(lens, d, next);
      CodeAndIs(lens, 19, 1, run - 4, CodeField(lens, d, next));
      assert Code(lengths, 19) + (BitsOf(1, run - 4) + Code(lengths, d)) + BitsIn(next)
             == Code(lengths, 19) + (BitsOf(1, run - 4) + (Code(lengths, d) + BitsIn(next)));
  }

  /** Twenty lengths of four bits are five words. */
  function Quad(r: Runs, k: nat): nat {
    Nth(r, k) * 4096 + Nth(r, k + 1) * 256 + Nth(r, k + 2) * 16 + Nth(r, k + 3)
  }

  function SmallFields(r: Runs): FieldList {
    Field(16, Quad(r, 0),
          Field(16, Quad(r, 4), Field(16, Quad(r, 8), Field(16, Quad(r, 12), Field(16, Quad(r, 16), None)))))
  }

  function QuadOf(lens: seq<nat>, k: nat): nat
    requires k + 4 <= |lens|
  {
    lens[k] * 4096 + lens[k + 1] * 256 + lens[k + 2] * 16 + lens[k + 3]
  }

  lemma QuadSame(r: Runs, k: nat)
    requires k + 4 <= Size(r) == |Table(r)|
    ensures Quad(r, k) == QuadOf(Table(r), k)
  {
    hide Table, Nth, Size;
    NthIs(r, k);
    NthIs(r, k + 1);
    NthIs(r, k + 2);
    NthIs(r, k + 3);
  }

  lemma QuadIs(lens: seq<nat>, k: nat)
    requires k + 4 <= |lens| && forall i :: 0 <= i < |lens| ==> lens[i] < 16
    ensures RepTree.Fields(4, lens, k) == BitsOf(16, QuadOf(lens, k)) + RepTree.Fields(4, lens, k + 4)
  {
    hide BitsOf, RepTree.Fields, Pow2;
    Pow2Values();
    var a, b, c, d := lens[k], lens[k + 1], lens[k + 2], lens[k + 3];
    FieldNext(4, lens, k);
    FieldNext(4, lens, k + 1);
    FieldNext(4, lens, k + 2);
    FieldNext(4, lens, k + 3);
    BitsOfConcat(4, a, 4, b);
    BitsOfConcat(8, a * 16 + b, 4, c);
    BitsOfConcat(12, (a * 16 + b) * 16 + c, 4, d);
    var rest := RepTree.Fields(4, lens, k + 4);
    assert BitsOf(4, a) + (BitsOf(4, b) + (BitsOf(4, c) + (BitsOf(4, d) + rest)))
           == BitsOf(4, a) + BitsOf(4, b) + BitsOf(4, c) + BitsOf(4, d) + rest;
  }

  lemma FieldNext(n: nat, lens: seq<nat>, k: nat)
    requires k < |lens|
    ensures RepTree.Fields(n, lens, k) == BitsOf(n, lens[k]) + RepTree.Fields(n, lens, k + 1)
  {
    hide BitsOf;
  }

  lemma SmallFieldsAre(r: Runs)
    requires Size(r) == 20 == |Table(r)| && UpTo(r, 15)
    ensures RepTree.Fields(4, Table(r), 0) == BitsIn(SmallFields(r))
  {
    hide *;
    AllUpTo(r, 15);
    var lens := Table(r);
    FieldsEnd(lens);
    NoFields();
    QuadBack(r, 16, None);
    var last := Field(16, Quad(r, 16), None);
    QuadBack(r, 12, last);
    var two := Field(16, Quad(r, 12), last);
    QuadBack(r, 8, two);
    var three := Field(16, Quad(r, 8), two);
    QuadBack(r, 4, three);
    QuadBack(r, 0, Field(16, Quad(r, 4), three));
    SmallFieldsIs(r);
  }

  lemma SmallFieldsIs(r: Runs)
    ensures SmallFields(r) == Field(16, Quad(r, 0), Field(16, Quad(r, 4), Field(16, Quad(r, 8),
                              Field(16, Quad(r, 12), Field(16, Quad(r, 16), None)))))
  {
  }

  lemma QuadBack(r: Runs, k: nat, rest: FieldList)
    requires k + 4 <= Size(r) == |Table(r)| && forall i :: 0 <= i < |Table(r)| ==> Table(r)[i] <= 15
    requires RepTree.Fields(4, Table(r), k + 4) == BitsIn(rest)
    ensures RepTree.Fields(4, Table(r), k) == BitsIn(Field(16, Quad(r, k), rest))
  {
    hide Table, Quad, QuadOf, RepTree.Fields, BitsOf, Size;
    QuadSame(r, k);
    QuadIs(Table(r), k);
  }

  lemma FieldsEnd(lens: seq<nat>)
    ensures RepTree.Fields(4, lens, |lens|) == []
  {
  }

  // ---------- A whole table ----------

  lemma TableBits(lens: Runs, max: nat, cur: Runs, prev: Runs, steps: Steps)
    requires Size(lens) == 20 && FullCode(lens, max) && max <= 15
    requires Neat(cur) && Size(prev) == Size(cur) && UpTo(cur, 16) && UpTo(prev, 16) && Sends(lens, cur, prev, 0, steps)
    ensures Carries(Table(lens), Table(cur), Table(prev))
    ensures TreeBits(Table(lens), Table(cur), Table(prev))
            == BitsIn(SmallFields(lens)) + BitsIn(StepFields(lens, steps, None))
  {
    hide *;
    SmallIs();
    FullCodeIs(lens, max);
    FullUpTo(lens, max);
    TablesAre(cur, prev);
    AllUpTo(lens, max);
    TableSize(lens);
    TableSize(cur);
    StepFieldsAre(lens, cur, prev, 0, steps, None);
    NoFields();
    var tail := TailBits(Table(lens), Table(cur), Table(prev), 0);
    assert tail + [] == tail;
    UpToMore(lens, max);
    SmallFieldsAre(lens);
    TreeParts(Table(lens), Table(cur), Table(prev));
  }

  lemma SmallIs()
    ensures SMALL == 20
  {
  }

  lemma {:induction false} UpToMore(r: Runs, max: nat)
    requires UpTo(r, max) && max <= 15
    ensures UpTo(r, 15)
  {
    if r.Times? {
      UpToMore(r.rest, max);
    }
  }

  lemma TreeParts(lens: seq<nat>, cur: seq<nat>, prev: seq<nat>)
    requires |lens| == SMALL && Tables(cur, prev) && Complete(lens)
    requires (forall k :: 0 <= k < |lens| ==> lens[k] <= 15) && Serves(lens, cur, prev, 0)
    ensures Carries(lens, cur, prev)
    ensures TreeBits(lens, cur, prev) == RepTree.Fields(4, lens, 0) + TailBits(lens, cur, prev, 0)
  {
    hide Tables, Complete, Serves, TailBits, RepTree.Fields;
  }

  lemma NoFields()
    ensures BitsIn(None) == []
  {
  }

  lemma FullUpTo(r: Runs, max: nat)
    requires FullCode(r, max)
    ensures UpTo(r, max)
  {
  }

  lemma TablesAre(cur: Runs, prev: Runs)
    requires Size(prev) == Size(cur) && UpTo(cur, 16) && UpTo(prev, 16)
    ensures Tables(Table(cur), Table(prev))
  {
    AllUpTo(cur, 16);
    AllUpTo(prev, 16);
  }

  // ---------- Tokens ----------

  /** Tokens, with the slots of their distances. */
  datatype Coding = Nothing | Then(t: Token, slot: nat, rest: Coding)

  function TokensIn(l: Coding): seq<Token> {
    match l
    case Nothing => []
    case Then(t, _, rest) => [t] + TokensIn(rest)
  }

  function OffsetFields(al: Runs, aligned: bool, dist: nat, slot: nat, rest: FieldList): FieldList {
    var e := Extra(slot);
    if aligned && e >= 3 then Field(e - 3, Bottom(dist / 8, e - 3), CodeField(al, dist % 8, rest))
    else Field(e, Bottom(dist, e), rest)
  }

  function SymbolFields(main: Runs, sec: Runs, t: Token, slot: nat, offset: FieldList): FieldList
    requires t.Match?
  {
    if t.len < 2 then None
    else if t.len < 9 then CodeField(main, 256 + 8 * slot + (t.len - 2), offset)
    else CodeField(main, 256 + 8 * slot + 7, CodeField(sec, t.len - 9, offset))
  }

  function TokenFields(main: Runs, sec: Runs, al: Runs, aligned: bool, t: Token, slot: nat,
                       rest: FieldList): FieldList {
    match t
    case Literal(b) => CodeField(main, b as nat, rest)
    case Match(_, dist) => SymbolFields(main, sec, t, slot, OffsetFields(al, aligned, dist, slot, rest))
  }

  function CodingFields(main: Runs, sec: Runs, al: Runs, aligned: bool, l: Coding): FieldList {
    match l
    case Nothing => None
    case Then(t, slot, rest) => TokenFields(main, sec, al, aligned, t, slot, CodingFields(main, sec, al, aligned, rest))
  }

  /** A token that the trees have codes for, with the right slot. */
  predicate Codable(main: Runs, sec: Runs, al: Runs, aligned: bool, t: Token, slot: nat) {
    match t
    case Literal(b) => Nth(main, b as nat) > 0
    case Match(len, dist) =>
      && 2 <= len <= 257 && slot < NUM_SLOTS && dist < WINDOW && Base(slot) <= dist < Base(slot) + Pow2(Extra(slot))
      && Nth(main, 256 + 8 * slot + Min(len - 2, 7)) > 0 && (len >= 9 ==> Nth(sec, len - 9) > 0)
      && (aligned && Extra(slot) >= 3 ==> Nth(al, dist % 8) > 0)
  }

  /** The trees of a block: main in two parts. */
  predicate TreesOk(main: Runs, sec: Runs, al: Runs) {
    Size(main) == MAIN && Size(sec) == SECONDARY && Size(al) == ALIGNED
  }

  lemma TokenFieldsAre(main: Runs, sec: Runs, al: Runs, aligned: bool, t: Token, slot: nat, rest: FieldList)
    requires TreesOk(main, sec, al) && Codable(main, sec, al, aligned, t, slot)
    requires Complete(Table(main)) && Complete(Table(sec)) && (aligned ==> Complete(Table(al)))
    ensures var c := Codes(Table(main), Table(sec), Table(al));
            Shaped(c) && Plain(t) && Served(c, aligned, t)
            && TokenBits(c, aligned, t) + BitsIn(rest) == BitsIn(TokenFields(main, sec, al, aligned, t, slot, rest))
  {
    hide Table, Nth, CodeField, BitsOf, Code, Complete, Pow2, Base, SlotOf, Extra;
    match t
    case Literal(b) =>
      NthIs(main, b as nat);
      CodeFieldIs(main, b as nat, rest);
    case Match(len, dist) => MatchFieldsAre(main, sec, al, aligned, t, slot, rest);
  }

  lemma MatchFieldsAre(main: Runs, sec: Runs, al: Runs, aligned: bool, t: Token, slot: nat, rest: FieldList)
    requires t.Match? && TreesOk(main, sec, al) && Codable(main, sec, al, aligned, t, slot)
    requires Complete(Table(main)) && Complete(Table(sec)) && (aligned ==> Complete(Table(al)))
    ensures var c := Codes(Table(main), Table(sec), Table(al));
            Shaped(c) && Plain(t) && Served(c, aligned, t)
            && TokenBits(c, aligned, t) + BitsIn(rest) == BitsIn(TokenFields(main, sec, al, aligned, t, slot, rest))
  {
    hide *;
    MatchOf(main, sec, al, aligned, t, slot);
    OffsetFieldsAre(main, sec, al, aligned, t.dist, slot, rest);
    SymbolFieldsAre(main, sec, al, aligned, t, slot, rest, OffsetFields(al, aligned, t.dist, slot, rest));
    TokenFieldsIs(main, sec, al, aligned, t, slot, rest);
  }

  lemma TokenFieldsIs(main: Runs, sec: Runs, al: Runs, aligned: bool, t: Token, slot: nat, rest: FieldList)
    requires t.Match?
    ensures TokenFields(main, sec, al, aligned, t, slot, rest)
            == SymbolFields(main, sec, t, slot, OffsetFields(al, aligned, t.dist, slot, rest))
  {
    hide OffsetFields, CodeField;
  }

  /** What a match needs of the trees. */
  lemma MatchOf(main: Runs, sec: Runs, al: Runs, aligned: bool, t: Token, slot: nat)
    requires t.Match? && TreesOk(main, sec, al) && Codable(main, sec, al, aligned, t, slot)
    requires Complete(Table(main)) && Complete(Table(sec)) && (aligned ==> Complete(Table(al)))
    ensures var c := Codes(Table(main), Table(sec), Table(al)); Shaped(c) && Plain(t) && Served(c, aligned, t)
    ensures t.dist < WINDOW && SlotOf(t.dist) == slot < NUM_SLOTS
            && (aligned && Extra(slot) >= 3 ==> Nth(al, t.dist % 8) > 0)
    ensures t.len >= 2 && 256 + 8 * slot + Min(t.len - 2, 7) < MAIN && (t.len >= 9 ==> t.len - 9 < SECONDARY)
    ensures |Table(al)| == ALIGNED == Size(al)
  {
    hide Table, Nth, Complete, Pow2, Base, SlotOf, Extra;
    SlotUnique(t.dist, slot, SlotOf(t.dist));
    NthIs(main, 256 + 8 * slot + Min(t.len - 2, 7));
    if t.len >= 9 {
      NthIs(sec, t.len - 9);
    }
    if aligned && Extra(slot) >= 3 {
      NthIs(al, t.dist % 8);
    }
  }

  lemma SymbolFieldsAre(main: Runs, sec: Runs, al: Runs, aligned: bool, t: Token, slot: nat, rest: FieldList,
                        offset: FieldList)
    requires t.Match? && TreesOk(main, sec, al) && t.len >= 2 && slot < NUM_SLOTS && Plain(t)
    requires var c := Codes(Table(main), Table(sec), Table(al));
             && Shaped(c) && SlotOf(t.dist) == slot
             && OffsetBits(c, aligned, t.dist) + BitsIn(rest) == BitsIn(offset)
    ensures TokenBits(Codes(Table(main), Table(sec), Table(al)), aligned, t) + BitsIn(rest)
            == BitsIn(SymbolFields(main, sec, t, slot, offset))
  {
    hide Table, Nth, CodeField, Code, SlotOf, OffsetBits, BitsIn;
    if t.len < 9 {
      CodeFieldIs(main, 256 + 8 * slot + (t.len - 2), offset);
    } else {
      CodeFieldIs(sec, t.len - 9, offset);
      CodeFieldIs(main, 256 + 8 * slot + 7, CodeField(sec, t.len - 9, offset));
    }
  }

  lemma OffsetFieldsAre(main: Runs, sec: Runs, al: Runs, aligned: bool, dist: nat, slot: nat, rest: FieldList)
    requires Size(al) == ALIGNED && dist < WINDOW && slot == SlotOf(dist)
    requires aligned && Extra(slot) >= 3 ==> Nth(al, dist % 8) > 0
    ensures LowBitsApart(aligned, dist) <==> aligned && Extra(slot) >= 3
    ensures var c := Codes(Table(main), Table(sec), Table(al));
            |c.al| == ALIGNED
            && OffsetBits(c, aligned, dist) + BitsIn(rest) == BitsIn(OffsetFields(al, aligned, dist, slot, rest))
    ensures LowBitsApart(aligned, dist) ==> Used(Table(al), dist % 8)
  {
    hide Table, Nth, CodeField, BitsOf, Code, Pow2, Bottom, SlotOf, Extra;
    WindowSlots(dist);
    TopIs(dist, Extra(slot));
    if aligned && Extra(slot) >= 3 {
      TopIs(dist / 8, Extra(slot) - 3);
      NthIs(al, dist % 8);
      CodeFieldIs(al, dist % 8, rest);
    }
  }
}
