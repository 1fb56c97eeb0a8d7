/** Writing and reading back: single fields of bits, and a table of code lengths. */
module FieldRoundTrips {
  import opened Bits
  import opened BitStream
  import opened RepTree

  datatype Field = Field(width: nat, value: nat)

  ghost predicate Writable(fields: seq<Field>) {
    forall i :: 0 <= i < |fields| ==> 1 <= fields[i].width <= 17 && fields[i].value < Pow2(fields[i].width)
  }

  /** The bits of the first n fields. */
  ghost function FieldsBits(fields: seq<Field>, n: nat): seq<bool>
    requires n <= |fields|
  {
    if n == 0 then [] else FieldsBits(fields, n - 1) + BitsOf(fields[n - 1].width, fields[n - 1].value)
  }

  /** What has been written after n fields. */
  ghost function After(fields: seq<Field>, n: nat): Wire
    requires n <= |fields|
  {
    Put(START, FieldsBits(fields, n))
  }

  lemma AfterNext(fields: seq<Field>, n: nat)
    requires n < |fields|
    ensures After(fields, n + 1) == Put(After(fields, n), BitsOf(fields[n].width, fields[n].value))
    ensures After(fields, 0) == START
  {
    PutConcat(START, FieldsBits(fields, n), BitsOf(fields[n].width, fields[n].value));
    PutNothing(START);
  }

  lemma AfterNone(fields: seq<Field>)
    ensures After(fields, 0) == START
  {
    PutNothing(START);
  }

  lemma FewPending(fields: seq<Field>, n: nat)
    requires n <= |fields|
    ensures |After(fields, n).pend| < 16
  {
    PutLength(START, FieldsBits(fields, n));
  }

  /** A frame written through all fields has been written through the first ones. */
  lemma {:induction false} WrittenThrough(f: seq<byte>, fields: seq<Field>, n: nat)
    requires n <= |fields| && Extends(f, After(fields, |fields|))
    ensures Extends(f, After(fields, n))
    decreases |fields| - n
  {
    hide Extends, After;
    if n < |fields| {
      WrittenThrough(f, fields, n + 1);
      AfterNext(fields, n);
      FewPending(fields, n);
      ExtendsBack(f, After(fields, n), BitsOf(fields[n].width, fields[n].value));
    }
  }

  /** The reader at the start of a frame that has bytes behind it. */
  method OpenFrame(frame: seq<byte>, tail: seq<byte>) returns (r: BitReader)
    requires |tail| >= 5
    ensures fresh(r) && r.At(START) && r.Frame() == frame
  {
    r := new BitReader(frame + tail, |frame| + 4);
    r.InitBitbuf();
    assert r.input[..0] == [];
    assert r.Frame() == frame;
  }

  /** Any fields of up to 17 bits, padded at the end, are read back with the same widths to the same values. */
  method SendAndReceive(fields: seq<Field>, tail: seq<byte>) returns (values: seq<nat>)
    requires Writable(fields) && |tail| >= 5
    ensures |values| == |fields| && forall i :: 0 <= i < |fields| ==> values[i] == fields[i].value
  {
    hide *;
    var w := new BitWriter();
    AfterNone(fields);
    var i := 0;
    while i < |fields|
      invariant 0 <= i <= |fields| && w.Valid() && w.Pos() == After(fields, i) && fresh(w)
    {
      AfterNext(fields, i);
      FieldFits(fields, i);
      w.OutputBits(fields[i].width, fields[i].value);
      i := i + 1;
    }
    FewPending(fields, |fields|);
    FinishExtends(After(fields, |fields|));
    var frame := w.TakeFrame();
    var r := OpenFrame(frame, tail);
    r.AtInside(START);
    values := [];
    i := 0;
    while i < |fields|
      invariant 0 <= i <= |fields| && r.At(After(fields, i)) && 4 <= r.end < |r.input| && r.Frame() == frame && fresh(r)
      invariant |values| == i && forall k :: 0 <= k < i ==> values[k] == fields[k].value
    {
      AfterNext(fields, i);
      FieldFits(fields, i);
      WrittenThrough(frame, fields, i + 1);
      ghost var input := r.input;
      r.AtInside(After(fields, i));
      var value := r.GetBits(fields[i].width, After(fields, i), fields[i].value);
      r.AtInside(After(fields, i + 1));
      r.FrameIs();
      values := values + [value];
      i := i + 1;
    }
  }

  lemma FieldFits(fields: seq<Field>, i: nat)
    requires Writable(fields) && i < |fields|
    ensures 1 <= fields[i].width <= 17 && fields[i].value < Pow2(fields[i].width)
  {
  }

  /** A table of lengths, sent as changes from another and received: whatever the two tables are, the
      lengths come back. */
  method TableRoundTrip(cur: seq<nat>, prev: seq<nat>, tail: seq<byte>) returns (ok: bool, lengths: seq<nat>)
    requires Tables(cur, prev) && 1 <= |cur| <= 2000 && |tail| >= 5
    ensures ok && lengths == cur
  {
    hide *;
    SameSize(cur, prev);
    var n := |cur|;
    var pLen := new nat[n + 1](i requires 0 <= i < n + 1 => if i < n then cur[i] else 0);
    var pLast := new nat[n](i requires 0 <= i < n => prev[i]);
    assert pLen[0..0 + n] == cur && pLast[0..0 + n] == prev;
    var w := new BitWriter();
    ghost var small := WriteRepTree(w, pLen, pLast, 0, n);
    assert pLen[0..0 + n] == cur;
    Carried(small, cur, prev);
    ghost var bits := TreeBits(small, cur, prev);
    StartPending(bits);
    FinishExtends(Put(START, bits));
    var frame := w.TakeFrame();
    var r := OpenFrame(frame, tail);
    var last := new nat[n](i requires 0 <= i < n => prev[i]);
    var len := new nat[n];
    assert last[0..0 + n] == prev;
    r.AtInside(START);
    ok := ReadRepTree(r, n, last, len, 0, START, small, cur);
    lengths := len[..];
    assert lengths == [] + cur + [];
  }

  lemma SameSize(cur: seq<nat>, prev: seq<nat>)
    requires Tables(cur, prev)
    ensures |cur| == |prev|
  {
  }

  lemma StartPending(bits: seq<bool>)
    ensures |Put(START, bits).pend| < 16 && START.pend == []
  {
    PutLength(START, bits);
  }
}
