/** One frame in bytes, and the 55 bytes it stands for: three in an uncompressed block, the others in a verbatim
    block. */
module Sample {
  import opened Bits
  import opened BitStream
  import opened Slots
  import opened Tokens
  import opened RepTree
  import opened Stream
  import opened Frames
  import opened Computing
  import opened SampleTables
  import opened BlockWriter
  import C = Canonical
  import E = E8
  import R = RepeatedOffsets
  import L = LateOverflow
  import Codec

  // ---------- The data ----------

  /** abcde, then 40 bytes from 3 back, 4 bytes from 41 back, and 3 bytes from 3 and from 41 back. */
  function ByteAt(i: nat): byte {
    if i == 0 then 97 else if i == 1 then 98
    else if i < 45 then (99 + (i - 2) % 3) as byte else (99 + (i - 1) % 3) as byte
  }

  function Data(): (d: seq<byte>)
    ensures |d| == 55
  {
    seq(55, i requires 0 <= i < 55 => ByteAt(i))
  }

  /** Tokens lead from p to p'. */
  predicate Plays(p: Past, l: Coding, p': Past)
    decreases l
  {
    match l
    case Nothing => p' == p
    case Then(t, _, rest) => Fits(p, t) && Plays(Play(p, t), rest, p')
  }

  lemma LiteralPlays(i: nat, q: Queue)
    requires i < 55
    ensures Fits(Past(Data()[..i], q), Literal(ByteAt(i)))
    ensures Play(Past(Data()[..i], q), Literal(ByteAt(i))) == Past(Data()[..i + 1], q)
  {
    assert Data()[..i] + [ByteAt(i)] == Data()[..i + 1];
  }

  lemma MatchPlays(i: nat, q: Queue, len: nat, dist: nat, off: nat)
    requires i + len <= 55 && 2 <= len && dist < WINDOW && Offset(q, dist) == off && 1 <= off <= i
    requires forall k: nat :: i <= k < i + len ==> ByteAt(k) == ByteAt(k - off)
    ensures Fits(Past(Data()[..i], q), Match(len, dist))
    ensures Play(Past(Data()[..i], q), Match(len, dist)) == Past(Data()[..i + len], Renew(q, dist))
  {
    hide Copy, ByteAt;
    forall j: nat | j < len ensures R.SameBack(Data(), i, off, j) {
      assert ByteAt(i + j) == ByteAt(i + j - off);
    }
    R.CopyRepeats(Data(), 0, i, off, len);
    assert Data()[0..i] == Data()[..i] && Data()[0..i + len] == Data()[..i + len];
  }

  lemma PlaysOne(p: Past, t: Token, slot: nat, rest: Coding, p': Past)
    requires Fits(p, t) && Plays(Play(p, t), rest, p')
    ensures Plays(p, Then(t, slot, rest), p')
  {
    hide Fits, Play;
  }

  lemma Repetitions()
    ensures forall k: nat :: 5 <= k < 45 ==> ByteAt(k) == ByteAt(k - 3)
    ensures forall k: nat :: 45 <= k < 49 ==> ByteAt(k) == ByteAt(k - 41)
    ensures forall k: nat :: 49 <= k < 52 ==> ByteAt(k) == ByteAt(k - 3)
    ensures forall k: nat :: 52 <= k < 55 ==> ByteAt(k) == ByteAt(k - 41)
    ensures ByteAt(3) == 100 && ByteAt(4) == 101
  {
  }

  lemma Queues()
    ensures FIRST_QUEUE == Queue(1, 1, 1) && 43 < WINDOW
    ensures Offset(Queue(1, 1, 1), 5) == 3 && Renew(Queue(1, 1, 1), 5) == Queue(3, 1, 1)
    ensures Offset(Queue(3, 1, 1), 43) == 41 && Renew(Queue(3, 1, 1), 43) == Queue(41, 3, 1)
    ensures Offset(Queue(41, 3, 1), 1) == 3 && Renew(Queue(41, 3, 1), 1) == Queue(3, 41, 1)
    ensures Offset(Queue(3, 41, 1), 1) == 41 && Renew(Queue(3, 41, 1), 1) == Queue(41, 3, 1)
  {
  }

  lemma DataPlays()
    ensures |Data()| == 55 && Plays(Past(Data()[..3], FIRST_QUEUE), Coded52(), Past(Data(), Queue(41, 3, 1)))
  {
    hide *;
    Queues();
    Repetitions();
    LiteralPlays(3, Queue(1, 1, 1));
    LiteralPlays(4, Queue(1, 1, 1));
    MatchPlays(5, Queue(1, 1, 1), 40, 5, 3);
    MatchPlays(45, Queue(3, 1, 1), 4, 43, 41);
    MatchPlays(49, Queue(41, 3, 1), 3, 1, 3);
    MatchPlays(52, Queue(3, 41, 1), 3, 1, 41);
    var end := Past(Data(), Queue(41, 3, 1));
    DataSize();
    assert Data()[..55] == Data();
    PlaysNone(end);
    var l5 := Then(Match(3, 1), 1, Nothing);
    PlaysOne(Past(Data()[..52], Queue(3, 41, 1)), Match(3, 1), 1, Nothing, end);
    var l4 := Then(Match(3, 1), 1, l5);
    PlaysOne(Past(Data()[..49], Queue(41, 3, 1)), Match(3, 1), 1, l5, end);
    var l3 := Then(Match(4, 43), 10, l4);
    PlaysOne(Past(Data()[..45], Queue(3, 1, 1)), Match(4, 43), 10, l4, end);
    var l2 := Then(Match(40, 5), 4, l3);
    PlaysOne(Past(Data()[..5], Queue(1, 1, 1)), Match(40, 5), 4, l3, end);
    PlaysOne(Past(Data()[..4], Queue(1, 1, 1)), Literal(101), 0, l2, end);
    PlaysOne(Past(Data()[..3], Queue(1, 1, 1)), Literal(100), 0, Then(Literal(101), 0, l2), end);
    CodedIs();
  }

  lemma CodedIs()
    ensures Coded52() == Then(Literal(100), 0, Then(Literal(101), 0, Then(Match(40, 5), 4, Then(Match(4, 43), 10,
                         Then(Match(3, 1), 1, Then(Match(3, 1), 1, Nothing))))))
  {
  }

  lemma PlaysNone(p: Past)
    ensures Plays(p, Nothing, p)
  {
  }

  // ---------- The items of the frame ----------

  /** From state first the script its leads to state s and position w. */
  ghost predicate At(first: State, its: seq<Item>, s: State, w: Wire) {
    && LegalAll(first, its) && WireOk(first, START) && Run(first, its) == s && EmitAll(first, its, START) == w
    && WireOk(s, w)
  }

  lemma AtStart()
    ensures At(FIRST, [], FIRST, START)
  {
  }

  lemma AtItem(its: seq<Item>, s: State, w: Wire, it: Item)
    requires At(FIRST, its, s, w) && Legal(s, it)
    ensures WireOk(s, w) && At(FIRST, its + [it], Next(s, it), Emit(s, it, w))
  {
    hide LegalAll, Run, EmitAll, Legal, Next, Emit, WireOk;
    Append(FIRST, its, it, START);
    EmitOk(s, it, w);
  }

  ghost function CodedItems(l: Coding): seq<Item> {
    match l
    case Nothing => []
    case Then(t, _, rest) => [Coded(t)] + CodedItems(rest)
  }

  predicate AllCodable(main: Runs, sec: Runs, al: Runs, l: Coding) {
    match l
    case Nothing => true
    case Then(t, slot, rest) => Codable(main, sec, al, false, t, slot) && AllCodable(main, sec, al, rest)
  }

  /** The tokens of a verbatim block, as many as are left. */
  lemma {:induction false} AtTokens(its: seq<Item>, s: State, w: Wire, main: Runs, sec: Runs, al: Runs, l: Coding,
                                    p: Past)
    requires At(FIRST, its, s, w) && s.kind == Verbatim && Plays(s.past, l, p) && |p.hist| == |s.past.hist| + s.left
    requires TreesOk(main, sec, al) && s.codes == Codes(Table(main), Table(sec), Table(al))
    requires C.Complete(s.codes.main) && C.Complete(s.codes.sec) && AllCodable(main, sec, al, l)
    ensures At(FIRST, its + CodedItems(l), s.(past := p, left := 0),
               Put(w, BitsIn(CodingFields(main, sec, al, false, l))))
    decreases l
  {
    hide *;
    TokensStep(s, main, sec, al, l, p);
    if l == Nothing {
      assert its + [] == its;
      NothingPut(w, s, its);
    } else {
      var t, rest := l.t, CodingFields(main, sec, al, false, l.rest);
      TokenFieldsAre(main, sec, al, false, t, l.slot, rest);
      PlayWidths(s.past, l, p);
      TokenNext(s, t, w, its);
      AtItem(its, s, w, Coded(t));
      AtTokens(its + [Coded(t)], Next(s, Coded(t)), Emit(s, Coded(t), w), main, sec, al, l.rest, p);
      PutConcat(w, TokenBits(s.codes, false, t), BitsIn(rest));
      assert its + ([Coded(t)] + CodedItems(l.rest)) == its + [Coded(t)] + CodedItems(l.rest);
    }
  }

  lemma TokensStep(s: State, main: Runs, sec: Runs, al: Runs, l: Coding, p: Past)
    requires Plays(s.past, l, p) && AllCodable(main, sec, al, l)
    ensures BitsIn(None) == []
    ensures l == Nothing ==> p == s.past && CodedItems(l) == [] && CodingFields(main, sec, al, false, l) == None
    ensures l.Then? ==> Fits(s.past, l.t) && Plays(Play(s.past, l.t), l.rest, p)
    ensures l.Then? ==> CodedItems(l) == [Coded(l.t)] + CodedItems(l.rest)
    ensures l.Then? ==> Codable(main, sec, al, false, l.t, l.slot) && AllCodable(main, sec, al, l.rest)
    ensures l.Then? ==> CodingFields(main, sec, al, false, l)
                        == TokenFields(main, sec, al, false, l.t, l.slot, CodingFields(main, sec, al, false, l.rest))
  {
    hide Fits, Play, Codable, TokenFields;
  }

  lemma NothingPut(w: Wire, s: State, its: seq<Item>)
    requires At(FIRST, its, s, w)
    ensures Put(w, []) == w && (s.left == 0 ==> s.(past := s.past, left := 0) == s)
  {
    hide LegalAll, Run, EmitAll;
    assert w.pend + [] == w.pend;
  }

  /** Tokens only add to the bytes. */
  lemma {:induction false} PlayWidths(q: Past, l: Coding, p: Past)
    requires Plays(q, l, p)
    ensures |q.hist| <= |p.hist|
    ensures l.Then? ==> Fits(q, l.t) && |q.hist| + Width(l.t) == |Play(q, l.t).hist| <= |p.hist|
    decreases l
  {
    hide Fits, Play;
    if l.Then? {
      PlayWidths(Play(q, l.t), l.rest, p);
    }
  }

  lemma TokenNext(s: State, t: Token, w: Wire, its: seq<Item>)
    requires At(FIRST, its, s, w) && s.kind == Verbatim && Shaped(s.codes) && Plain(t) && Fits(s.past, t)
    requires Width(t) <= s.left && Served(s.codes, false, t)
    ensures Legal(s, Coded(t)) && WireOk(s, w) && Emit(s, Coded(t), w) == Put(w, TokenBits(s.codes, false, t))
    ensures Next(s, Coded(t)) == s.(past := Play(s.past, t), left := s.left - Width(t))
  {
    hide LegalAll, Run, EmitAll, Put, TokenBits, Fits, Play, Served;
  }

  // ---------- The frame ----------

  /** The translation header and an uncompressed block of three bytes. */
  ghost function Script3(c: Codes): seq<Item> {
    [] + [Group(12000000)] + [Open(Uncompressed, 3, c, Small([], [], []), FIRST_QUEUE)] + [Raw(97)] + [Raw(98)]
    + [Raw(99)]
  }

  /** A verbatim block of 52 bytes. */
  ghost function Open52(al: seq<nat>): Item {
    Open(Verbatim, 52, Codes(Table(Main()), Table(Lengths()), al),
         Small(Table(Small1()), Table(Small2()), Table(Small3())), FIRST_QUEUE)
  }

  /** The state behind the first n of the three bytes. */
  ghost function After3(s: State, n: nat): State
    requires n <= 3
  {
    s.(past := Past(Data()[..n], FIRST_QUEUE), kind := Uncompressed, left := 3 - n, odd := true, first := false,
       fileSize := 12000000)
  }

  lemma GroupBitsPut()
    ensures Put(START, GroupBits(12000000)) == Wire([0x5b, 0x80, 0x80, 0x8d], BitsOf(1, 0))
  {
    hide *;
    StartBits();
    GroupParts(12000000);
    GroupOfPut([]);
    GroupIs();
    assert [] + [0x5b, 0x80, 0x80, 0x8d] == [0x5b, 0x80, 0x80, 0x8d];
  }

  lemma GroupIs()
    ensures BitsIn(GroupOf()) == BitsOf(1, 1) + (BitsOf(16, 12000000 / 65536) + BitsOf(16, 12000000 % 65536))
  {
    hide BitsOf;
    OneField(16, 6912);
    assert BitsIn(Field(16, 183, Field(16, 6912, None))) == BitsOf(16, 183) + BitsOf(16, 6912);
  }

  lemma OneField(n: nat, x: nat)
    ensures BitsIn(Field(n, x, None)) == BitsOf(n, x)
  {
    hide BitsOf;
    assert BitsIn(None) == [] && BitsOf(n, x) + [] == BitsOf(n, x);
  }

  lemma StartBits()
    ensures START == Wire([], BitsOf(0, 0)) && WORD32 == 4294967296
  {
  }

  lemma HeadFields(kind: nat, size: nat)
    ensures BitsIn(Field(3, kind, Field(8, 0, Field(8, 0, Field(8, size, None)))))
            == BitsOf(3, kind) + (BitsOf(8, 0) + (BitsOf(8, 0) + BitsOf(8, size)))
  {
    hide BitsOf;
    OneField(8, size);
    assert BitsIn(Field(8, 0, Field(8, size, None))) == BitsOf(8, 0) + BitsOf(8, size);
  }

  lemma Head3Put(out: seq<byte>)
    ensures Put(Wire(out, BitsOf(1, 0)), HeadBits(Uncompressed, 3)) == Wire(out + [0x00, 0x30], BitsOf(12, 3))
  {
    hide *;
    HeadNumbers();
    HeadParts(Uncompressed, 3);
    HeadOf3Put(out);
    HeadFields(3, 3);
    HeadLists();
  }

  lemma HeadLists()
    ensures HeadOf3() == Field(3, 3, Field(8, 0, Field(8, 0, Field(8, 3, None))))
    ensures HeadOf52() == Field(3, 1, Field(8, 0, Field(8, 0, Field(8, 52, None))))
  {
  }

  lemma HeadNumbers()
    ensures TypeCode(Uncompressed) == 3 && TypeCode(Verbatim) == 1 && 3 < Pow2(24) && 52 < Pow2(24)
  {
    Pow2Values();
  }

  lemma Head52Put(out: seq<byte>)
    ensures Put(Wire(out, []), HeadBits(Verbatim, 52)) == Wire(out + [0x00, 0x20], BitsOf(11, 52))
  {
    hide *;
    HeadNumbers();
    HeadParts(Verbatim, 52);
    HeadOf52Put(out);
    HeadFields(1, 52);
    HeadLists();
    StartBits();
  }

  lemma OpenPut(s: State, c: Codes)
    requires s == FIRST.(first := false, fileSize := 12000000) && Shaped(c) && Shaped(s.codes)
    ensures var it := Open(Uncompressed, 3, c, Small([], [], []), FIRST_QUEUE);
            var w := Wire([0x5b, 0x80, 0x80, 0x8d], BitsOf(1, 0));
            && Legal(s, it) && WireOk(s, w) && Next(s, it) == After3(FIRST, 0)
            && Emit(s, it, w) == Wire(Opened(), [])
  {
    hide Put, HeadBits, Pow2, BitsOf, Shaped;
    HeadNumbers();
    var w := Wire([0x5b, 0x80, 0x80, 0x8d], BitsOf(1, 0));
    var h := Put(w, HeadBits(Uncompressed, 3));
    Head3Put([0x5b, 0x80, 0x80, 0x8d]);
    PadIs([0x5b, 0x80, 0x80, 0x8d] + [0x00, 0x30]);
    assert Data()[..0] == [];
    OpenedIs();
  }

  lemma OpenedIs()
    ensures [0x5b, 0x80, 0x80, 0x8d] + [0x00, 0x30] + [0x30, 0x00] + QueueBytes(FIRST_QUEUE) == Opened()
  {
  }

  lemma PadIs(out: seq<byte>)
    ensures Align(Wire(out, BitsOf(12, 3))).out == out + [0x30, 0x00]
  {
    hide Put, BitsOf, BitsIn;
    PadPut(out);
    OneField(4, 0);
  }

  lemma RawPut(s: State, n: nat, out: seq<byte>, b: byte)
    requires n < 3 && s == After3(FIRST, n) && b == ByteAt(n)
    ensures WireOk(s, Wire(out, [])) && Legal(s, Raw(b)) && Next(s, Raw(b)) == After3(FIRST, n + 1)
    ensures Emit(s, Raw(b), Wire(out, [])) == Wire(out + [b], [])
  {
    hide ByteAt;
    assert Data()[..n] + [b] == Data()[..n + 1];
  }

  lemma GroupNext(s: State)
    requires s == FIRST
    ensures Legal(s, Group(12000000)) && WireOk(s, START)
            && Emit(s, Group(12000000), START) == Put(START, GroupBits(12000000))
    ensures Next(s, Group(12000000)) == FIRST.(first := false, fileSize := 12000000)
  {
    hide Put, GroupBits;
  }

  lemma FirstBytes()
    ensures ByteAt(0) == 97 && ByteAt(1) == 98 && ByteAt(2) == 99
  {
  }

  /** The first 23 bytes. */
  lemma Opening()
    ensures At(FIRST, Script3(FIRST.codes), After3(FIRST, 3), Wire(Opened() + [97] + [98] + [99], []))
  {
    hide *;
    var c := FIRST.codes;
    L.NoCodesShaped();
    FirstBytes();
    AtStart();
    GroupNext(FIRST);
    AtItem([], FIRST, START, Group(12000000));
    GroupBitsPut();
    var its, s := [] + [Group(12000000)], FIRST.(first := false, fileSize := 12000000);
    OpenPut(s, c);
    var it := Open(Uncompressed, 3, c, Small([], [], []), FIRST_QUEUE);
    AtItem(its, s, Wire([0x5b, 0x80, 0x80, 0x8d], BitsOf(1, 0)), it);
    its := its + [it];
    RawPut(After3(FIRST, 0), 0, Opened(), 97);
    AtItem(its, After3(FIRST, 0), Wire(Opened(), []), Raw(97));
    its := its + [Raw(97)];
    RawPut(After3(FIRST, 1), 1, Opened() + [97], 98);
    AtItem(its, After3(FIRST, 1), Wire(Opened() + [97], []), Raw(98));
    its := its + [Raw(98)];
    RawPut(After3(FIRST, 2), 2, Opened() + [97] + [98], 99);
    AtItem(its, After3(FIRST, 2), Wire(Opened() + [97] + [98], []), Raw(99));
    ScriptIs(c);
  }

  lemma ScriptIs(c: Codes)
    ensures Script3(c) == [] + [Group(12000000)] + [Open(Uncompressed, 3, c, Small([], [], []), FIRST_QUEUE)]
                          + [Raw(97)] + [Raw(98)] + [Raw(99)]
  {
  }

  // ---------- The verbatim block ----------

  lemma {:induction false} NoughtIs(n: nat)
    ensures Table(Nought(n)) == seq(n, i => 0)
  {
    assert Table(NoMore) == [];
    assert Table(Nought(n)) == seq(n, i => 0) + [];
  }

  lemma MainIs()
    ensures Table(Main())[..256] == Table(MainA()) && Table(Main())[256..] == Table(MainB()) && |Table(Main())| == MAIN
  {
    hide *;
    MainANeat();
    MainBNeat();
    TableSize(MainA());
    TableSize(MainB());
    FollowedIs(MainA(), MainB());
    MainSum();
  }

  lemma MainSum()
    ensures Main() == Followed(MainA(), MainB()) && MAIN == 528 && SECONDARY == 249 && ALIGNED == 8
  {
  }

  lemma NothingBefore()
    ensures Shaped(FIRST.codes) && FIRST.codes.main[..256] == Table(Nought(256))
    ensures FIRST.codes.main[256..] == Table(Nought(272)) && FIRST.codes.sec == Table(Nought(249))
    ensures FIRST.codes.al == Table(Nought(8))
  {
    NoughtIs(256);
    NoughtIs(272);
    NoughtIs(249);
    NoughtIs(8);
  }

  /** The three trees are sent behind the header. */
  lemma TreesGood(prev: Codes, codes: Codes, small: Small)
    requires Shaped(prev) && prev.main[..256] == Table(Nought(256)) && prev.main[256..] == Table(Nought(272))
             && prev.sec == Table(Nought(249))
    requires Shaped(codes) && codes.main == Table(Main()) && codes.sec == Table(Lengths())
    requires small == Small(Table(Small1()), Table(Small2()), Table(Small3()))
    ensures GoodTrees(prev, codes, small) && C.Complete(codes.main) && C.Complete(codes.sec)
    ensures TreesBits(prev, codes, small) == BitsA() + (BitsB() + BitsC())
  {
    hide *;
    MainIs();
    BitsAAre();
    BitsBAre();
    BitsCAre();
    MainFull();
    LengthsFull();
    FullCodeIs(Main(), 4);
    FullCodeIs(Lengths(), 1);
    TreesMake(prev, codes, small);
  }

  lemma TreesMake(prev: Codes, codes: Codes, small: Small)
    requires Shaped(prev) && Shaped(codes) && C.Complete(codes.main) && C.Complete(codes.sec)
    requires Carries(small.a, codes.main[..256], prev.main[..256])
             && Carries(small.b, codes.main[256..], prev.main[256..]) && Carries(small.c, codes.sec, prev.sec)
    ensures GoodTrees(prev, codes, small)
    ensures TreesBits(prev, codes, small)
            == TreeBits(small.a, codes.main[..256], prev.main[..256])
               + (TreeBits(small.b, codes.main[256..], prev.main[256..]) + TreeBits(small.c, codes.sec, prev.sec))
  {
    hide TreeBits, C.Complete, TailBits, RepTree.Fields, Serves;
  }

  ghost function Verbatim52(s: State): State {
    s.(codes := Codes(Table(Main()), Table(Lengths()), s.codes.al), kind := Verbatim, left := 52, odd := false)
  }

  lemma OpenNext(s: State, w: Wire, it: Item)
    requires it.Open? && it.kind == Verbatim && it.size == 52 && s.kind == Uncompressed && s.odd && w.pend == []
    requires !s.first && s.left == 0 && Shaped(it.codes) && Shaped(s.codes) && GoodTrees(s.codes, it.codes, it.small)
    ensures Legal(s, it) && WireOk(s, w)
    ensures Emit(s, it, w)
            == Put(Put(Wire(w.out + [0], []), HeadBits(Verbatim, 52)), TreesBits(s.codes, it.codes, it.small))
    ensures Next(s, it)
            == s.(codes := Codes(it.codes.main, it.codes.sec, s.codes.al), kind := Verbatim, left := 52, odd := false)
  {
    hide Put, HeadBits, TreesBits, GoodTrees, Pow2, Shaped;
    HeadNumbers();
  }

  lemma After3Is(s: State)
    requires s == After3(FIRST, 3)
    ensures s.kind == Uncompressed && s.odd && s.left == 0 && !s.first && s.codes == FIRST.codes
    ensures s.past == Past(Data()[..3], FIRST_QUEUE) && s.fileSize == 12000000
  {
  }

  /** The bytes up to the trees. */
  lemma BlockTrees(out: seq<byte>)
    requires At(FIRST, Script3(FIRST.codes), After3(FIRST, 3), Wire(out, []))
    ensures At(FIRST, Script3(FIRST.codes) + [Open52(FIRST.codes.al)], Verbatim52(After3(FIRST, 3)),
               Wire(out + [0] + [0x00, 0x20] + PartA() + PartB() + PartC(), BitsOf(14, 16354)))
  {
    hide *;
    var s, w, it := After3(FIRST, 3), Wire(out, []), Open52(FIRST.codes.al);
    After3Is(s);
    NothingBefore();
    Open52Is(FIRST.codes.al);
    TreesGood(s.codes, it.codes, it.small);
    OpenNext(s, w, it);
    AtItem(Script3(FIRST.codes), s, w, it);
    Verbatim52Is(s);
    var o := out + [0];
    Head52Put(o);
    ThreePut(Wire(o + [0x00, 0x20], BitsOf(11, 52)), BitsA(), BitsB(), BitsC());
    PutA(o + [0x00, 0x20]);
    PutB(o + [0x00, 0x20] + PartA());
    PutC(o + [0x00, 0x20] + PartA() + PartB());
  }

  lemma Open52Is(al: seq<nat>)
    requires |al| == ALIGNED
    ensures var it := Open52(al);
            && it.Open? && it.kind == Verbatim && it.size == 52
            && it.codes == Codes(Table(Main()), Table(Lengths()), al) && Shaped(it.codes)
            && it.small == Small(Table(Small1()), Table(Small2()), Table(Small3()))
  {
    hide *;
    MainIs();
    MainSum();
    LengthsNeat();
    TableSize(Lengths());
    Open52Parts(al);
  }

  lemma Open52Parts(al: seq<nat>)
    ensures var it := Open52(al);
            && it.Open? && it.kind == Verbatim && it.size == 52
            && it.codes == Codes(Table(Main()), Table(Lengths()), al)
            && it.small == Small(Table(Small1()), Table(Small2()), Table(Small3()))
    ensures |Table(Main())| == MAIN && |Table(Lengths())| == SECONDARY && |al| == ALIGNED ==>
              Shaped(Codes(Table(Main()), Table(Lengths()), al))
  {
    hide Table, Main, Lengths, Small1, Small2, Small3;
  }

  lemma Verbatim52Is(s: State)
    ensures Verbatim52(s)
            == s.(codes := Codes(Table(Main()), Table(Lengths()), s.codes.al), kind := Verbatim, left := 52,
                  odd := false)
  {
  }

  lemma TokensCodable()
    ensures AllCodable(Main(), Lengths(), Nought(8), Coded52())
  {
    hide Codable, Main, Lengths, Nought;
    OneCodable(Literal(100), 0);
    OneCodable(Literal(101), 0);
    OneCodable(Match(40, 5), 4);
    OneCodable(Match(4, 43), 10);
    OneCodable(Match(3, 1), 1);
  }

  lemma OneCodable(t: Token, slot: nat)
    requires t == Literal(100) || t == Literal(101) || (t == Match(40, 5) && slot == 4)
             || (t == Match(4, 43) && slot == 10) || (t == Match(3, 1) && slot == 1)
    ensures Codable(Main(), Lengths(), Nought(8), false, t, slot)
  {
    hide Nth, Main, Lengths, Pow2, Nought;
    MainCodes();
    LengthsCodes();
    Powers();
  }

  lemma TreesSized()
    ensures TreesOk(Main(), Lengths(), Nought(8)) && |Table(Nought(8))| == ALIGNED
  {
    hide *;
    MainIs();
    MainSum();
    LengthsNeat();
    TableSize(Main());
    NoughtIs(8);
    TableSize(Nought(8));
    SizesOk();
  }

  lemma SizesOk()
    ensures TreesOk(Main(), Lengths(), Nought(8)) <==>
              Size(Main()) == MAIN && Size(Lengths()) == SECONDARY && Size(Nought(8)) == ALIGNED
  {
    hide Size, Main, Lengths, Nought;
  }

  /** The tokens. */
  lemma BlockTokens(its: seq<Item>, out: seq<byte>)
    requires At(FIRST, its, Verbatim52(After3(FIRST, 3)), Wire(out, BitsOf(14, 16354)))
    ensures At(FIRST, its + CodedItems(Coded52()),
               Verbatim52(After3(FIRST, 3)).(past := Past(Data(), Queue(41, 3, 1)), left := 0),
               Wire(out + PartT(), BitsOf(7, 82)))
  {
    hide *;
    var s := Verbatim52(After3(FIRST, 3));
    After3Is(After3(FIRST, 3));
    Verbatim52Is(After3(FIRST, 3));
    NothingBefore();
    DataPlays();
    TreesSized();
    TokensCodable();
    MainFull();
    LengthsFull();
    FullCodeIs(Main(), 4);
    FullCodeIs(Lengths(), 1);
    DataSize();
    AtTokens(its, s, Wire(out, BitsOf(14, 16354)), Main(), Lengths(), Nought(8), Coded52(),
             Past(Data(), Queue(41, 3, 1)));
    PutTokens(out);
  }

  lemma DataSize()
    ensures |Data()| == 55
  {
  }

  // ---------- Decoding it ----------

  /** The bytes of the frame: the three bytes of the first block are followed by one more, and the second block has
      its header, its three tables and its tokens. */
  function FrameBytes(): seq<byte> {
    Opened() + [97] + [98] + [99] + [0] + [0x00, 0x20] + PartA() + PartB() + PartC() + PartT() + [0x00, 0xa4]
  }

  lemma FrameBytesAre()
    ensures FrameBytes()
            == Opened() + [97] + [98] + [99] + [0] + [0x00, 0x20] + PartA() + PartB() + PartC() + PartT() + [0x00, 0xa4]
  {
    hide Opened, PartA, PartB, PartC, PartT;
  }

  lemma LastWord(out: seq<byte>)
    ensures Align(Wire(out, BitsOf(7, 82))).out == out + [0x00, 0xa4]
  {
    hide Put, BitsOf, BitsIn;
    LastPut(out);
    OneField(9, 0);
  }

  lemma EndsCoded(its: seq<Item>)
    ensures EndsInData(its + CodedItems(Coded52()))
  {
    var l := CodedItems(Coded52());
    assert l[|l| - 1].Coded?;
  }

  /** The bytes are a frame, and it leads to the data. */
  lemma SampleFrame() returns (f: Frame, last: State)
    ensures Chain(FIRST, [f], last) && f.bytes == FrameBytes() && f.size == 55
    ensures last.past.hist == Data() && last.fileSize == 12000000
  {
    hide *;
    Opening();
    var out1 := Opened() + [97] + [98] + [99];
    BlockTrees(out1);
    var its := Script3(FIRST.codes) + [Open52(FIRST.codes.al)];
    var out2 := out1 + [0] + [0x00, 0x20] + PartA() + PartB() + PartC();
    BlockTokens(its, out2);
    its := its + CodedItems(Coded52());
    last := Verbatim52(After3(FIRST, 3)).(past := Past(Data(), Queue(41, 3, 1)), left := 0);
    var w := Wire(out2 + PartT(), BitsOf(7, 82));
    EndsCoded(Script3(FIRST.codes) + [Open52(FIRST.codes.al)]);
    FrameBytesAre();
    LastWord(out2 + PartT());
    After3Is(After3(FIRST, 3));
    Verbatim52Is(After3(FIRST, 3));
    FrameMade(its, last, w);
    f := Frame(its, FrameBytes(), 55);
    L.OneFrame(f);
    AtRun(its, last, w);
  }

  lemma AtRun(its: seq<Item>, s: State, w: Wire)
    requires At(FIRST, its, s, w)
    ensures LegalAll(FIRST, its) && Run(FIRST, its) == s
  {
    hide LegalAll, Run, EmitAll, WireOk;
  }

  lemma FrameMade(its: seq<Item>, s: State, w: Wire)
    requires At(FIRST, its, s, w) && s.kind == Verbatim && |w.pend| == 7 && s.past.hist == Data() && EndsInData(its)
    requires FrameBytes() == Align(w).out
    ensures GoodFrame(FIRST, Frame(its, FrameBytes(), 55))
  {
    hide LegalAll, Run, EmitAll, Extends, EndsInData, FrameBytes, Put, Data;
    DataSize();
    FinishExtends(w);
    FinishedFrame(FIRST, its, 55, w, FrameBytes());
  }

  lemma DataIs()
    ensures Data() == [97, 98, 99, 100, 101, 99, 100, 101, 99, 100, 101] +
                   [99, 100, 101, 99, 100, 101, 99, 100, 101, 99, 100] +
                   [101, 99, 100, 101, 99, 100, 101, 99, 100, 101, 99] +
                   [100, 101, 99, 100, 101, 99, 100, 101, 99, 100, 101] +
                   [99, 101, 99, 100, 101, 99, 100, 101, 99, 100, 101]
  {
    hide *;
    DataSize();
    DataRows1();
    DataRows2();
    assert Data() == Data()[..11] + Data()[11..22] + Data()[22..33] + Data()[33..44] + Data()[44..];
  }

  lemma DataRows1()
    ensures Data()[..11] == [97, 98, 99, 100, 101, 99, 100, 101, 99, 100, 101]
            && Data()[11..22] == [99, 100, 101, 99, 100, 101, 99, 100, 101, 99, 100]
  {
    hide Data;
    DataPart(0, [97, 98, 99, 100, 101, 99, 100, 101, 99, 100, 101]);
    DataPart(11, [99, 100, 101, 99, 100, 101, 99, 100, 101, 99, 100]);
  }

  lemma DataRows2()
    ensures Data()[22..33] == [101, 99, 100, 101, 99, 100, 101, 99, 100, 101, 99]
            && Data()[33..44] == [100, 101, 99, 100, 101, 99, 100, 101, 99, 100, 101]
    ensures Data()[44..] == [99, 101, 99, 100, 101, 99, 100, 101, 99, 100, 101]
  {
    hide Data;
    DataSize();
    DataPart(22, [101, 99, 100, 101, 99, 100, 101, 99, 100, 101, 99]);
    DataPart(33, [100, 101, 99, 100, 101, 99, 100, 101, 99, 100, 101]);
    DataPart(44, [99, 101, 99, 100, 101, 99, 100, 101, 99, 100, 101]);
  }

  lemma DataPart(a: nat, s: seq<byte>)
    requires a + |s| <= 55 && |s| == 11 && ByteAt(a) == s[0] && ByteAt(a + 1) == s[1] && ByteAt(a + 2) == s[2]
    requires ByteAt(a + 3) == s[3] && ByteAt(a + 4) == s[4] && ByteAt(a + 5) == s[5] && ByteAt(a + 6) == s[6]
    requires ByteAt(a + 7) == s[7] && ByteAt(a + 8) == s[8] && ByteAt(a + 9) == s[9] && ByteAt(a + 10) == s[10]
    ensures Data()[a..a + 11] == s
  {
    hide ByteAt;
  }

  lemma NoCall()
    ensures forall i :: 0 <= i < |Data()| ==> Data()[i] != E.CALL
  {
  }

  lemma SampleFlat(f: Frame)
    requires f.bytes == FrameBytes() && f.size == 55
    ensures Flat([f]) == [82, 0, 55, 0] + FrameBytes() && Within([f])
  {
    hide FrameBytes;
    assert [f][1..] == [];
    FrameLength();
  }

  lemma FrameLength()
    ensures |FrameBytes()| == 82
  {
  }

  /** Decoding these bytes gives the data. */
  method DecodeSample(buffer: seq<byte>) returns (ok: bool, out: seq<byte>)
    requires |buffer| == OUTPUT_SIZE
    ensures ok
    ensures out == [97, 98, 99, 100, 101, 99, 100, 101, 99, 100, 101] +
                   [99, 100, 101, 99, 100, 101, 99, 100, 101, 99, 100] +
                   [101, 99, 100, 101, 99, 100, 101, 99, 100, 101, 99] +
                   [100, 101, 99, 100, 101, 99, 100, 101, 99, 100, 101] +
                   [99, 101, 99, 100, 101, 99, 100, 101, 99, 100, 101]
  {
    hide *;
    ghost var f, last := SampleFrame();
    SampleFlat(f);
    DataSize();
    DataIs();
    NoCall();
    SampleSizes();
    var src: seq<byte> := [82, 0, 55, 0] + FrameBytes();
    ok, out := Codec.Decompress(src, buffer, [f], last);
    Codec.NothingTranslated(Data(), 12000000);
  }

  lemma SampleSizes()
    ensures Codec.Scannable(0, 55) && 12000000 < WORD32 && 55 <= FRAME
  {
  }
}
