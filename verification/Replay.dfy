/** The encoder's record of the offset queue between blocks: only the distances since the last run of
    three new offsets are replayed, which gives the queue the decoder has after all of them. */
module Replay {
  import opened Bits
  import opened Tokens

  /** The queue after a list of distances. */
  function ReplayAll(q: Queue, ds: seq<nat>): Queue {
    if ds == [] then q else Renew(ReplayAll(q, ds[..|ds| - 1]), ds[|ds| - 1])
  }

  lemma {:induction false} ReplayConcat(q: Queue, a: seq<nat>, b: seq<nat>)
    ensures ReplayAll(q, a + b) == ReplayAll(ReplayAll(q, a), b)
  {
    hide Renew;
    if b == [] {
      assert a + b == a;
    } else {
      ReplayConcat(q, a, b[..|b| - 1]);
      assert (a + b)[..|a + b| - 1] == a + b[..|b| - 1];
    }
  }

  /** Three new offsets in a row leave nothing of the queue before them. */
  lemma Forget(q: Queue, p: Queue, ds: seq<nat>, d: nat)
    requires d + 3 <= |ds| && ds[d] > 2 && ds[d + 1] > 2 && ds[d + 2] > 2
    ensures ReplayAll(q, ds) == ReplayAll(p, ds[d..])
  {
    hide Renew;
    var three, rest := ds[d..d + 3], ds[d + 3..];
    assert ds == ds[..d] + (three + rest) && ds[d..] == three + rest;
    ReplayConcat(q, ds[..d], three + rest);
    ReplayConcat(ReplayAll(q, ds[..d]), three, rest);
    ReplayConcat(p, three, rest);
    ThreeNew(ReplayAll(q, ds[..d]), three);
    ThreeNew(p, three);
  }

  lemma ThreeNew(q: Queue, three: seq<nat>)
    requires |three| == 3 && three[0] > 2 && three[1] > 2 && three[2] > 2
    ensures ReplayAll(q, three) == Queue(three[2] - 2, three[1] - 2, three[0] - 2)
  {
    assert three[..2][..1] == three[..1] && three[..1][..0] == [];
    assert ReplayAll(q, three[..1]) == Renew(q, three[0]);
    assert ReplayAll(q, three[..2]) == Renew(Renew(q, three[0]), three[1]);
  }

  /** The decoder's queue after a list of tokens is the replay of their distances. */
  function DistancesOf(ts: seq<Token>): seq<nat> {
    if ts == [] then []
    else DistancesOf(ts[..|ts| - 1]) + (if ts[|ts| - 1].Match? then [ts[|ts| - 1].dist] else [])
  }

  lemma {:induction false} QueueOf(p: Past, ts: seq<Token>)
    requires FitsAll(p, ts)
    ensures PlayAll(p, ts).queue == ReplayAll(p.queue, DistancesOf(ts))
    decreases |ts|
  {
    hide Fits, Renew, Copy, FitsAll, PlayAll;
    PlayNone(p);
    if ts != [] {
      var front, last := ts[..|ts| - 1], ts[|ts| - 1];
      assert ts == front + [last];
      PlayConcat(p, front, [last]);
      QueueOf(p, front);
      PlayOne(PlayAll(p, front), last);
      PlayedQueue(PlayAll(p, front), last);
      var ds := DistancesOf(ts);
      if last.Match? {
        assert ds == DistancesOf(front) + [last.dist] && ds[..|ds| - 1] == DistancesOf(front);
        assert ReplayAll(p.queue, ds) == Renew(ReplayAll(p.queue, ds[..|ds| - 1]), last.dist);
      } else {
        assert ds == DistancesOf(front);
      }
    }
  }

  lemma PlayedQueue(p: Past, t: Token)
    requires Fits(p, t)
    ensures Play(p, t).queue == if t.Match? then Renew(p.queue, t.dist) else p.queue
  {
  }

  /** get_final_repeated_offset_states. */
  method FinalQueue(dist: array<nat>, distances: nat, before: Queue) returns (q: Queue)
    requires distances <= dist.Length
    ensures q == ReplayAll(before, dist[..distances])
  {
    hide ReplayAll, Renew;
    var consecutive, d: int := 0, distances - 1;
    while d >= 0
      invariant -1 <= d < distances && 0 <= consecutive < 3 && d + consecutive < distances
      invariant forall k :: d < k <= d + consecutive ==> dist[k] > 2
      decreases d
    {
      if dist[d] > 2 {
        consecutive := consecutive + 1;
        if consecutive >= 3 {
          break;
        }
      } else {
        consecutive := 0;
      }
      d := d - 1;
    }
    ghost var ds := dist[..distances];
    if consecutive < 3 {
      d := 0;
      assert ds[0..] == ds;
    } else {
      Forget(before, before, ds, d);
    }
    ghost var from := d;
    q := before;
    ReplayNone(q);
    assert ds[from..d] == [];
    while d < distances
      invariant from <= d <= distances && q == ReplayAll(before, ds[from..d])
    {
      var m := dist[d];
      ReplayNext(before, ds, from, d);
      RenewCases(q, m);
      if m == 0 {
      } else if m == 1 {
        q := Queue(q.r1, q.r0, q.r2);
      } else if m == 2 {
        q := Queue(q.r2, q.r1, q.r0);
      } else {
        q := Queue(m - 2, q.r0, q.r1);
      }
      d := d + 1;
    }
    assert ds[from..d] == ds[from..];
  }

  lemma ReplayNone(q: Queue)
    ensures ReplayAll(q, []) == q
  {
  }

  lemma ReplayNext(q: Queue, ds: seq<nat>, from: nat, d: nat)
    requires from <= d < |ds|
    ensures ReplayAll(q, ds[from..d + 1]) == Renew(ReplayAll(q, ds[from..d]), ds[d])
  {
    hide Renew;
    var x := ds[from..d + 1];
    assert x[..|x| - 1] == ds[from..d];
  }

  lemma RenewCases(q: Queue, m: nat)
    ensures Renew(q, m) == if m == 0 then q else if m == 1 then Queue(q.r1, q.r0, q.r2) else if m == 2
            then Queue(q.r2, q.r1, q.r0) else Queue(m - 2, q.r0, q.r1)
  {
  }
}
