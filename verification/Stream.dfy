/** What the encoder writes and the decoder reads, item by item: the state both sides share, which
    items may come next, how they change the state, and where they leave the wire. */
module Stream {
  import opened Bits
  import opened BitStream
  import opened Canonical
  import opened Slots
  import opened Tokens
  import opened RepTree

  datatype Kind = Closed | Verbatim | Aligned | Uncompressed

  /** The lengths of the small trees that carry the two parts of the main tree and the length tree. */
  datatype Small = Small(a: seq<nat>, b: seq<nat>, c: seq<nat>)

  datatype Item =
    | Group(fileSize: nat)
    | Open(kind: Kind, size: nat, codes: Codes, small: Small, queue: Queue)
    | Coded(t: Token)
    | Raw(b: byte)

  /** left counts the bytes the open block still has to bring; odd tells whether its size was odd. */
  datatype State = State(past: Past, codes: Codes, kind: Kind, left: nat, odd: bool, first: bool, fileSize: nat)

  const NO_CODES := Codes(seq(MAIN, i => 0), seq(SECONDARY, i => 0), seq(ALIGNED, i => 0))
  const FIRST := State(Past([], FIRST_QUEUE), NO_CODES, Closed, 0, false, true, 0)

  function TypeCode(k: Kind): nat {
    match k
    case Closed => 0
    case Verbatim => 1
    case Aligned => 2
    case Uncompressed => 3
  }

  // ---------- What may be written ----------

  /** A tree of long lengths is complete, or has no code at all when no length is that long. */
  ghost predicate Optional(lens: seq<nat>) {
    Complete(lens) || (forall i :: 0 <= i < |lens| ==> lens[i] == 0)
  }

  ghost predicate GoodTrees(prev: Codes, codes: Codes, small: Small) {
    && Shaped(prev) && Shaped(codes) && Complete(codes.main) && Optional(codes.sec)
    && Carries(small.a, codes.main[..256], prev.main[..256])
    && Carries(small.b, codes.main[256..], prev.main[256..])
    && Carries(small.c, codes.sec, prev.sec)
  }

  ghost predicate GoodAligned(al: seq<nat>) {
    |al| == ALIGNED && Complete(al) && forall i :: 0 <= i < |al| ==> al[i] < Pow2(3)
  }

  predicate GoodQueue(q: Queue) {
    q.r0 < WORD32 && q.r1 < WORD32 && q.r2 < WORD32
  }

  ghost predicate GoodOpen(s: State, it: Item)
    requires it.Open?
  {
    && !s.first && s.left == 0 && 0 < it.size < Pow2(24) && Shaped(it.codes) && Shaped(s.codes)
    && match it.kind
       case Closed => false
       case Verbatim => GoodTrees(s.codes, it.codes, it.small)
       case Aligned => GoodTrees(s.codes, it.codes, it.small) && GoodAligned(it.codes.al)
       case Uncompressed => GoodQueue(it.queue)
  }

  ghost predicate Legal(s: State, it: Item) {
    match it
    case Group(n) => s.first && s.kind == Closed && s.left == 0 && n < WORD32
    case Open(_, _, _, _, _) => GoodOpen(s, it)
    case Coded(t) => (s.kind == Verbatim || s.kind == Aligned) && Shaped(s.codes) && Width(t) <= s.left && Plain(t)
                     && Fits(s.past, t) && Served(s.codes, s.kind == Aligned, t)
    case Raw(b) => s.kind == Uncompressed && s.left > 0
  }

  // ---------- What it does ----------

  function NextCodes(s: State, it: Item): Codes
    requires it.Open?
  {
    match it.kind
    case Verbatim => Codes(it.codes.main, it.codes.sec, s.codes.al)
    case Aligned => it.codes
    case _ => s.codes
  }

  /** An uncompressed block brings the queue that it leaves behind. */
  function NextPast(s: State, it: Item): Past
    requires it.Open?
  {
    if it.kind == Uncompressed then Past(s.past.hist, it.queue) else s.past
  }

  ghost function Next(s: State, it: Item): State
    requires Legal(s, it)
  {
    match it
    case Group(n) => s.(first := false, fileSize := n)
    case Open(kind, size, _, _, _) => s.(past := NextPast(s, it), codes := NextCodes(s, it), kind := kind,
                                         left := size, odd := size % 2 == 1)
    case Coded(t) => s.(past := Play(s.past, t), left := s.left - Width(t))
    case Raw(b) => s.(past := Past(s.past.hist + [b], s.past.queue), left := s.left - 1)
  }

  // ---------- Where it goes ----------

  function GroupBits(n: nat): seq<bool> {
    if n == 0 then BitsOf(1, 0) else BitsOf(1, 1) + (BitsOf(16, n / 65536) + BitsOf(16, n % 65536))
  }

  /** The block header: its type, and its size in three bytes, the highest first. */
  function HeadBits(kind: Kind, size: nat): seq<bool> {
    BitsOf(3, TypeCode(kind)) + (BitsOf(8, size / 65536 % 256) + (BitsOf(8, size / 256 % 256) + BitsOf(8, size % 256)))
  }

  /** The fields of the translation header. */
  lemma GroupParts(n: nat)
    requires n < WORD32
    ensures n == 0 ==> GroupBits(n) == BitsOf(1, 0)
    ensures n != 0 ==> GroupBits(n) == BitsOf(1, 1) + (BitsOf(16, n / 65536) + BitsOf(16, n % 65536))
    ensures n / 65536 < Pow2(16) && n % 65536 < Pow2(16) && 1 < Pow2(1)
  {
    hide BitsOf;
    Pow2Values();
  }

  /** The fields of a block header. */
  lemma HeadParts(kind: Kind, size: nat)
    requires size < Pow2(24)
    ensures HeadBits(kind, size)
            == BitsOf(3, TypeCode(kind))
              + (BitsOf(8, size / 65536 % 256) + (BitsOf(8, size / 256 % 256) + BitsOf(8, size % 256)))
    ensures TypeCode(kind) < Pow2(3) && size / 65536 % 256 < Pow2(8) && size / 256 % 256 < Pow2(8)
            && size % 256 < Pow2(8)
    ensures size == size / 65536 % 256 * 65536 + size / 256 % 256 * 256 + size % 256
  {
    hide BitsOf, Pow2;
    Pow2Values();
  }

  /** The header bit by bit: three bits for the type, and the size as one number of 24. */
  lemma HeadIs(size: nat)
    requires size < 0x100_0000
    ensures HeadBits(Verbatim, size) == [false, false, true] + BitsOf(24, size)
    ensures HeadBits(Aligned, size) == [false, true, false] + BitsOf(24, size)
    ensures HeadBits(Uncompressed, size) == [false, true, true] + BitsOf(24, size)
  {
    hide BitsOf;
    ThreeBytes(size);
    ThreeBits();
  }

  lemma ThreeBits()
    ensures BitsOf(3, 1) == [false, false, true] && BitsOf(3, 2) == [false, true, false]
    ensures BitsOf(3, 3) == [false, true, true]
  {
    assert BitsOf(2, 0) == [false, false] && BitsOf(2, 1) == [false, true];
  }

  lemma ThreeBytes(size: nat)
    requires size < 0x100_0000
    ensures BitsOf(8, size / 65536 % 256) + (BitsOf(8, size / 256 % 256) + BitsOf(8, size % 256)) == BitsOf(24, size)
  {
    hide BitsOf;
    var a, b, c := size / 65536 % 256, size / 256 % 256, size % 256;
    Pow2Values();
    assert Pow2(8) == 256 && Pow2(16) == 65536;
    BitsOfConcat(8, b, 8, c);
    BitsOfConcat(8, a, 16, b * 256 + c);
    assert size == a * 65536 + (b * 256 + c);
  }

  ghost function TreesBits(prev: Codes, codes: Codes, small: Small): seq<bool>
    requires GoodTrees(prev, codes, small)
  {
    TreeBits(small.a, codes.main[..256], prev.main[..256])
    + (TreeBits(small.b, codes.main[256..], prev.main[256..]) + TreeBits(small.c, codes.sec, prev.sec))
  }

  function QueueBytes(q: Queue): (s: seq<byte>)
    ensures |s| == 12
  {
    Bytes32(q.r0) + Bytes32(q.r1) + Bytes32(q.r2)
  }

  /** An uncompressed block of odd size is followed by one more byte. */
  function Padded(s: State, w: Wire): Wire {
    if s.kind == Uncompressed && s.odd then Wire(w.out + [0], []) else w
  }

  /** Where an uncompressed block starts: word aligned, after the queue. */
  function AfterQueue(q: Queue, w: Wire): Wire
    requires |w.pend| < 16
  {
    Wire(Align(w).out + QueueBytes(q), [])
  }

  ghost predicate WireOk(s: State, w: Wire) {
    |w.pend| < 16 && (s.kind == Uncompressed ==> w.pend == [])
  }

  ghost function Emit(s: State, it: Item, w: Wire): (v: Wire)
    requires Legal(s, it) && WireOk(s, w)
  {
    match it
    case Group(n) => Put(w, GroupBits(n))
    case Open(kind, size, codes, small, q) =>
      var h := Put(Padded(s, w), HeadBits(kind, size));
      (match kind
       case Aligned => Put(Put(h, Fields(3, codes.al, 0)), TreesBits(s.codes, codes, small))
       case Verbatim => Put(h, TreesBits(s.codes, codes, small))
       case _ => if |h.pend| < 16 then AfterQueue(q, h) else h)
    case Coded(t) => Put(w, TokenBits(s.codes, s.kind == Aligned, t))
    case Raw(b) => Wire(w.out + [b], [])
  }

  /** An aligned block: type and size, the eight lengths of its own tree in three bits each, then the other trees. */
  lemma AlignedIs(s: State, it: Item, w: Wire)
    requires Legal(s, it) && WireOk(s, w) && it.Open? && it.kind == Aligned
    ensures var al := it.codes.al;
            Emit(s, it, w)
            == Put(Padded(s, w), [false, true, false] + BitsOf(24, it.size)
                                 + BitsOf(3, al[0]) + BitsOf(3, al[1]) + BitsOf(3, al[2]) + BitsOf(3, al[3])
                                 + BitsOf(3, al[4]) + BitsOf(3, al[5]) + BitsOf(3, al[6]) + BitsOf(3, al[7])
                                 + TreesBits(s.codes, it.codes, it.small))
  {
    hide *;
    AlignedOpened(s, it, w);
    var al, trees := it.codes.al, TreesBits(s.codes, it.codes, it.small);
    HeadIs(it.size);
    EightFields(al);
    var h, p := [false, true, false] + BitsOf(24, it.size), Padded(s, w);
    PutConcat(p, h, Fields(3, al, 0));
    PutConcat(p, h + Fields(3, al, 0), trees);
    assert h + Fields(3, al, 0)
           == h + BitsOf(3, al[0]) + BitsOf(3, al[1]) + BitsOf(3, al[2]) + BitsOf(3, al[3]) + BitsOf(3, al[4])
              + BitsOf(3, al[5]) + BitsOf(3, al[6]) + BitsOf(3, al[7]);
  }

  lemma AlignedOpened(s: State, it: Item, w: Wire)
    requires Legal(s, it) && WireOk(s, w) && it.Open? && it.kind == Aligned
    ensures |it.codes.al| == 8 && it.size < 0x100_0000 && GoodTrees(s.codes, it.codes, it.small)
    ensures Emit(s, it, w) == Put(Put(Put(Padded(s, w), HeadBits(Aligned, it.size)), Fields(3, it.codes.al, 0)),
                                  TreesBits(s.codes, it.codes, it.small))
  {
    hide Put, HeadBits, Fields, TreesBits, GoodTrees, Pow2, Complete;
    Pow2Values();
  }

  lemma EightFields(al: seq<nat>)
    requires |al| == 8
    ensures Fields(3, al, 0)
            == BitsOf(3, al[0]) + (BitsOf(3, al[1]) + (BitsOf(3, al[2]) + (BitsOf(3, al[3])
               + (BitsOf(3, al[4]) + (BitsOf(3, al[5]) + (BitsOf(3, al[6]) + BitsOf(3, al[7])))))))
  {
    hide BitsOf;
    assert Fields(3, al, 7) == BitsOf(3, al[7]) + [] == BitsOf(3, al[7]);
    assert Fields(3, al, 5) == BitsOf(3, al[5]) + (BitsOf(3, al[6]) + Fields(3, al, 7));
    assert Fields(3, al, 3) == BitsOf(3, al[3]) + (BitsOf(3, al[4]) + Fields(3, al, 5));
    assert Fields(3, al, 1) == BitsOf(3, al[1]) + (BitsOf(3, al[2]) + Fields(3, al, 3));
  }

  lemma PutSmall(w: Wire, bits: seq<bool>)
    requires |w.pend| < 16
    ensures |Put(w, bits).pend| < 16
  {
    hide Put;
    PutLength(w, bits);
  }

  lemma PaddedOk(s: State, w: Wire)
    requires WireOk(s, w)
    ensures |Padded(s, w).pend| < 16
  {
  }

  lemma EmitOk(s: State, it: Item, w: Wire)
    requires Legal(s, it) && WireOk(s, w)
    ensures WireOk(Next(s, it), Emit(s, it, w))
  {
    hide Put, HeadBits, TreesBits, GroupBits, Fields, GoodTrees, GoodAligned, TokenBits, Play, Fits, Served, Align,
         Padded, Complete;
    match it
    case Group(n) => PutSmall(w, GroupBits(n));
    case Open(kind, size, codes, small, q) =>
      PaddedOk(s, w);
      var h := Put(Padded(s, w), HeadBits(kind, size));
      PutSmall(Padded(s, w), HeadBits(kind, size));
      if kind == Aligned {
        PutSmall(h, Fields(3, codes.al, 0));
        PutSmall(Put(h, Fields(3, codes.al, 0)), TreesBits(s.codes, codes, small));
      } else if kind == Verbatim {
        PutSmall(h, TreesBits(s.codes, codes, small));
      }
    case Coded(t) => PutSmall(w, TokenBits(s.codes, s.kind == Aligned, t));
    case Raw(b) =>
  }

  // ---------- Runs ----------

  ghost predicate LegalAll(s: State, its: seq<Item>)
    decreases |its|
  {
    its == [] || (Legal(s, its[0]) && LegalAll(Next(s, its[0]), its[1..]))
  }

  ghost function Run(s: State, its: seq<Item>): State
    requires LegalAll(s, its)
    decreases |its|
  {
    if its == [] then s else Run(Next(s, its[0]), its[1..])
  }

  ghost function EmitAll(s: State, its: seq<Item>, w: Wire): Wire
    requires LegalAll(s, its) && WireOk(s, w)
    decreases |its|
  {
    if its == [] then w else
      EmitOk(s, its[0], w);
      EmitAll(Next(s, its[0]), its[1..], Emit(s, its[0], w))
  }

  lemma {:induction false} RunConcat(s: State, a: seq<Item>, b: seq<Item>)
    requires LegalAll(s, a) && LegalAll(Run(s, a), b)
    ensures LegalAll(s, a + b) && Run(s, a + b) == Run(Run(s, a), b)
    decreases |a|
  {
    hide Legal, Next;
    if a == [] {
      assert a + b == b;
    } else {
      RunConcat(Next(s, a[0]), a[1..], b);
      assert (a + b)[0] == a[0] && (a + b)[1..] == a[1..] + b;
    }
  }

  lemma {:induction false} EmitConcat(s: State, a: seq<Item>, b: seq<Item>, w: Wire)
    requires LegalAll(s, a) && LegalAll(Run(s, a), b) && WireOk(s, w)
    ensures LegalAll(s, a + b) && WireOk(Run(s, a), EmitAll(s, a, w))
    ensures EmitAll(s, a + b, w) == EmitAll(Run(s, a), b, EmitAll(s, a, w))
    decreases |a|
  {
    hide Legal, Next, Emit, WireOk;
    RunConcat(s, a, b);
    if a == [] {
      assert a + b == b;
    } else {
      EmitOk(s, a[0], w);
      EmitConcat(Next(s, a[0]), a[1..], b, Emit(s, a[0], w));
      assert (a + b)[0] == a[0] && (a + b)[1..] == a[1..] + b;
    }
  }

  lemma {:induction false} EmitAllOk(s: State, its: seq<Item>, w: Wire)
    requires LegalAll(s, its) && WireOk(s, w)
    ensures WireOk(Run(s, its), EmitAll(s, its, w))
    decreases |its|
  {
    hide Legal, Next, Emit, WireOk;
    if its != [] {
      EmitOk(s, its[0], w);
      EmitAllOk(Next(s, its[0]), its[1..], Emit(s, its[0], w));
    }
  }

  lemma RunOne(s: State, it: Item)
    requires Legal(s, it)
    ensures LegalAll(s, [it]) && Run(s, [it]) == Next(s, it)
  {
    hide Legal, Next;
    assert [it][1..] == [];
    assert LegalAll(Next(s, it), []);
  }

  lemma EmitOne(s: State, it: Item, w: Wire)
    requires Legal(s, it) && WireOk(s, w)
    ensures LegalAll(s, [it]) && EmitAll(s, [it], w) == Emit(s, it, w)
  {
    hide Legal, Next, Emit;
    RunOne(s, it);
    assert [it][1..] == [];
  }

  /** One more item at the end of a script. */
  lemma Append(s: State, its: seq<Item>, it: Item, w: Wire)
    requires LegalAll(s, its) && Legal(Run(s, its), it) && WireOk(s, w)
    ensures WireOk(Run(s, its), EmitAll(s, its, w))
    ensures LegalAll(s, its + [it]) && Run(s, its + [it]) == Next(Run(s, its), it)
    ensures EmitAll(s, its + [it], w) == Emit(Run(s, its), it, EmitAll(s, its, w))
  {
    hide Legal, Next, Emit, LegalAll, Run, EmitAll, WireOk;
    RunOne(Run(s, its), it);
    RunConcat(s, its, [it]);
    EmitConcat(s, its, [it], w);
    EmitOne(Run(s, its), it, EmitAll(s, its, w));
  }

  // ---------- Reading back ----------

  lemma ExtendsRaw(f: seq<byte>, w: Wire, more: seq<byte>)
    requires w.pend == [] && Extends(f, Wire(w.out + more, []))
    ensures Extends(f, w) && |w.out| + |more| <= |f| && f[|w.out|..|w.out| + |more|] == more
  {
  }

  lemma ExtendsAlign(f: seq<byte>, w: Wire, more: seq<byte>)
    requires |w.pend| < 16 && Extends(f, Wire(Align(w).out + more, []))
    ensures Extends(f, w)
  {
    hide Put;
    AlignIsAligned(w);
    ExtendsRaw(f, Align(w), more);
    ExtendsBack(f, w, BitsOf(16 - |w.pend|, 0));
  }

  /** A frame written through an item was written through what comes before it. */
  lemma EmitBack(f: seq<byte>, s: State, it: Item, w: Wire)
    requires Legal(s, it) && WireOk(s, w) && Extends(f, Emit(s, it, w))
    ensures Extends(f, w) && (it.Open? ==> Extends(f, Padded(s, w)))
  {
    hide Put, Pack, HeadBits, TreesBits, GroupBits, Fields, GoodTrees, GoodAligned, TokenBits, Play, Fits, Served,
         Align, Complete, Extends;
    match it
    case Group(n) => ExtendsBack(f, w, GroupBits(n));
    case Open(kind, size, codes, small, q) =>
      PaddedOk(s, w);
      var p := Padded(s, w);
      var h := Put(p, HeadBits(kind, size));
      PutSmall(p, HeadBits(kind, size));
      if kind == Aligned {
        PutSmall(h, Fields(3, codes.al, 0));
        ExtendsBack(f, Put(h, Fields(3, codes.al, 0)), TreesBits(s.codes, codes, small));
        ExtendsBack(f, h, Fields(3, codes.al, 0));
      } else if kind == Verbatim {
        ExtendsBack(f, h, TreesBits(s.codes, codes, small));
      } else {
        ExtendsAlign(f, h, QueueBytes(q));
      }
      ExtendsBack(f, p, HeadBits(kind, size));
      if p != w {
        ExtendsRaw(f, w, [0]);
      }
    case Coded(t) => ExtendsBack(f, w, TokenBits(s.codes, s.kind == Aligned, t));
    case Raw(b) => ExtendsRaw(f, w, [b]);
  }

  lemma {:induction false} EmitAllBack(f: seq<byte>, s: State, its: seq<Item>, w: Wire)
    requires LegalAll(s, its) && WireOk(s, w) && Extends(f, EmitAll(s, its, w))
    ensures Extends(f, w)
    decreases |its|
  {
    hide Legal, Next, Emit, WireOk, Extends;
    if its != [] {
      EmitOk(s, its[0], w);
      EmitAllBack(f, Next(s, its[0]), its[1..], Emit(s, its[0], w));
      EmitBack(f, s, its[0], w);
    }
  }

  /** The first item of what is left of a frame. */
  lemma FirstItem(f: seq<byte>, s: State, its: seq<Item>, w: Wire)
    requires LegalAll(s, its) && WireOk(s, w) && Extends(f, EmitAll(s, its, w)) && its != []
    ensures Legal(s, its[0]) && LegalAll(Next(s, its[0]), its[1..]) && Run(s, its) == Run(Next(s, its[0]), its[1..])
    ensures WireOk(Next(s, its[0]), Emit(s, its[0], w))
    ensures Extends(f, EmitAll(Next(s, its[0]), its[1..], Emit(s, its[0], w)))
    ensures Extends(f, Emit(s, its[0], w)) && Extends(f, w)
  {
    hide Legal, Next, Emit, WireOk, Extends;
    EmitOk(s, its[0], w);
    EmitAllBack(f, Next(s, its[0]), its[1..], Emit(s, its[0], w));
    EmitBack(f, s, its[0], w);
  }

  // ---------- The history only grows ----------

  lemma {:induction false} CopyGrows(h: seq<byte>, off: nat, n: nat)
    requires 1 <= off <= |h|
    ensures h <= Copy(h, off, n)
    decreases n
  {
    if n > 0 {
      CopyGrows(h + [h[|h| - off]], off, n - 1);
    }
  }

  lemma PlayGrows(p: Past, t: Token)
    requires Fits(p, t)
    ensures p.hist <= Play(p, t).hist
  {
    hide Copy;
    if t.Match? {
      CopyGrows(p.hist, Offset(p.queue, t.dist), t.len);
    }
  }

  lemma NextGrows(s: State, it: Item)
    requires Legal(s, it)
    ensures s.past.hist <= Next(s, it).past.hist
  {
    hide Play, Fits, Served, GoodOpen;
    if it.Coded? {
      PlayGrows(s.past, it.t);
    }
  }

  lemma {:induction false} RunGrows(s: State, its: seq<Item>)
    requires LegalAll(s, its)
    ensures s.past.hist <= Run(s, its).past.hist
    decreases |its|
  {
    hide Legal, Next;
    if its != [] {
      NextGrows(s, its[0]);
      RunGrows(Next(s, its[0]), its[1..]);
    }
  }
}
