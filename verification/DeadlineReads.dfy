/**
 The other side of starvation in the deadline scheduler: how many writes may go while a
 read waits. There is a bound exactly when writes_starved is positive; at zero every batch
 is one of writes as long as there are any.
 */
module DeadlineReads {
  import opened Lists
  import opened Numbers
  import opened SearchTree
  import opened DeadlineSpec
  import opened DeadlineInvariants
  import opened DeadlineRuns

  predicate TakesWrite(d: Sched, now: nat) {
    Choose(d, now).Take? && Choose(d, now).id in d.reqs && !d.reqs[Choose(d, now).id].read
  }

  /** The writes dispatched in a run, and whether a read was waiting at each dispatch and
      none was taken. */
  function Writes(d: Sched, es: seq<Event>, now: nat): nat
    requires Runs(d, es, now)
    decreases |es|
  {
    if es == [] then 0
    else (if es[0].Go? && TakesWrite(d, es[0].now) then 1 else 0) + Writes(Step(d, es[0]), es[1..], es[0].now)
  }

  predicate ReadsStarve(d: Sched, es: seq<Event>, now: nat)
    requires Runs(d, es, now)
    decreases |es|
  {
    es == [] ||
    ((es[0].Go? ==> d.r.fifo != [] && TakesWrite(d, es[0].now)) && ReadsStarve(Step(d, es[0]), es[1..], es[0].now))
  }

  // ----- the bound

  /** A batch of writes begins with the starvation count at zero, and nothing changes the
      count while it goes on. */
  predicate BatchFresh(d: Sched) { d.w.next.Some? ==> d.starved == 0 }

  /** How many writes may still go before a read: the rest of a batch of writes, or a batch
      that is due to the writes. */
  function Forbearance(d: Sched): nat {
    if d.w.next.Some? && d.batching < d.tun.fifoBatch then d.tun.fifoBatch - d.batching
    else if d.starved < d.tun.writesStarved then 0
    else Max(1, d.tun.fifoBatch)
  }

  lemma {:induction false} WriteCosts(d: Sched, now: nat)
    requires DataOk(d, now) && BatchFresh(d) && d.r.fifo != [] && TakesWrite(d, now) && d.tun.writesStarved > 0
    ensures var t := Dispatch(d, now); Forbearance(t) < Forbearance(d) && BatchFresh(t) && t.tun == d.tun
  {
    FindWaits(d.reqs, d.r, true, now);
    if Batched(d).Some? && d.batching < d.tun.fifoBatch {
      assert d.w.next.Some?;
    } else {
      assert d.starved >= d.tun.writesStarved;
    }
  }

  lemma {:induction false} OthersCostNothing(d: Sched, e: Event)
    requires Enabled(d, e) && !e.Go? && BatchFresh(d)
    ensures var t := Step(d, e);
            BatchFresh(t) && t.tun == d.tun && (d.tun.writesStarved > 0 ==> Forbearance(t) <= Forbearance(d))
  {
  }

  lemma {:induction false} ForbearanceEnds(d: Sched, es: seq<Event>, now: nat)
    requires DataOk(d, now) && BatchFresh(d) && d.tun.writesStarved > 0 && Runs(d, es, now) && ReadsStarve(d, es, now)
    ensures Writes(d, es, now) <= Forbearance(d)
    decreases |es|
  {
    if es != [] {
      Later(d, now, es[0].now);
      StepOk(d, es[0]);
      if es[0].Go? { WriteCosts(d, es[0].now); } else { OthersCostNothing(d, es[0]); }
      ForbearanceEnds(Step(d, es[0]), es[1..], es[0].now);
    }
  }

  /** While a read waits and none is dispatched, at most one batch of writes goes. */
  lemma {:induction false} ReadStarvationBound(d: Sched, es: seq<Event>, now: nat)
    requires DataOk(d, now) && BatchFresh(d) && d.tun.writesStarved > 0 && Runs(d, es, now) && ReadsStarve(d, es, now)
    ensures Writes(d, es, now) <= Max(1, d.tun.fifoBatch)
  {
    ForbearanceEnds(d, es, now);
  }

  /** Every state a run reaches is one the bound is about. */
  lemma {:induction false} FreshRun(d: Sched, es: seq<Event>, now: nat)
    requires DataOk(d, now) && BatchFresh(d) && Runs(d, es, now)
    ensures BatchFresh(After(d, es, now))
    decreases |es|
  {
    if es != [] {
      Later(d, now, es[0].now);
      StepOk(d, es[0]);
      if es[0].Go? { DispatchFresh(d, es[0].now); } else { OthersCostNothing(d, es[0]); }
      FreshRun(Step(d, es[0]), es[1..], es[0].now);
    }
  }

  lemma {:induction false} DispatchFresh(d: Sched, now: nat)
    requires DataOk(d, now) && BatchFresh(d)
    ensures BatchFresh(Dispatch(d, now))
  {
    ChooseOk(d, now);
    if d.r.fifo != [] { FindWaits(d.reqs, d.r, true, now); }
    if d.w.fifo != [] { FindWaits(d.reqs, d.w, false, now); }
  }

  // ----- without it

  function NoRequests(t: Tunables): Sched { Sched(t, map[], Lane([], [], None), Lane([], [], None), 0, 0, 0, 0, []) }

  lemma {:induction false} NoRequestsOk(t: Tunables)
    ensures DataOk(NoRequests(t), 0)
  {
    var d := NoRequests(t);
    assert Nodes(d.reqs, true, true) == {} && Nodes(d.reqs, true, false) == {};
    assert Nodes(d.reqs, false, true) == {} && Nodes(d.reqs, false, false) == {};
  }

  /** One read, and `n` writes behind it. */
  function Loaded(t: Tunables, n: nat): Sched {
    if n == 0 then Add(NoRequests(t), 0, true, 0, 1, 0) else Add(Loaded(t, n - 1), n, false, n, 1, 0)
  }

  /** A read waits before `n` writes; no batch is going on. */
  predicate Waiting(d: Sched, t: Tunables, n: nat) {
    && DataOk(d, 0) && d.tun == t && d.r.fifo != [] && d.r.next.None? && d.w.next.None? && |d.w.fifo| == n
    && d.queue == [] && forall id :: id in d.reqs ==> id <= n
  }

  lemma {:induction false} OneMore(d: Sched, t: Tunables, n: nat, m: nat)
    requires Waiting(d, t, n) && m == n + 1
    ensures Waiting(Add(d, m, false, m, 1, 0), t, m)
  {
    AddOk(d, m, false, m, 1, 0);
    AddIs(d, m, false, m, 1, 0);
  }

  lemma {:induction false} FirstRead(t: Tunables)
    ensures Waiting(Add(NoRequests(t), 0, true, 0, 1, 0), t, 0)
  {
    NoRequestsOk(t);
    AddOk(NoRequests(t), 0, true, 0, 1, 0);
    AddIs(NoRequests(t), 0, true, 0, 1, 0);
  }

  lemma {:induction false} LoadedIs(t: Tunables, n: nat)
    ensures Waiting(Loaded(t, n), t, n)
  {
    if n == 0 {
      FirstRead(t);
    } else {
      LoadedIs(t, n - 1);
      OneMore(Loaded(t, n - 1), t, n - 1, n);
    }
  }

  /** Nothing but dispatches. */
  function Gos(n: nat): (es: seq<Event>)
    ensures |es| == n
  {
    if n == 0 then [] else [Go(0)] + Gos(n - 1)
  }

  lemma {:induction false} WriteGoes(d: Sched)
    requires DataOk(d, 0) && d.tun.writesStarved == 0 && d.r.fifo != [] && d.r.next.None? && d.w.fifo != []
    ensures TakesWrite(d, 0)
    ensures var t := Dispatch(d, 0);
            && DataOk(t, 0) && t.tun == d.tun && t.r == d.r && |t.w.fifo| == |d.w.fifo| - 1
  {
    ChooseOk(d, 0);
    DispatchOk(d, 0);
    FindWaits(d.reqs, d.w, false, 0);
    var id := Choose(d, 0).id;
    NodesRemove(d.reqs, id, false, true);
    assert InFifo(id, d.reqs[id]) in Elems(d.w.fifo);
    WithoutLength(d.w.fifo, InFifo(id, d.reqs[id]));
  }

  /** With writes_starved at zero the read waits for all of them. */
  lemma {:induction false} WritesGo(d: Sched, n: nat)
    requires DataOk(d, 0) && d.tun.writesStarved == 0 && d.r.fifo != [] && d.r.next.None? && |d.w.fifo| >= n
    ensures Runs(d, Gos(n), 0) && ReadsStarve(d, Gos(n), 0) && Writes(d, Gos(n), 0) == n
    decreases n
  {
    if n > 0 {
      var m: nat := n - 1;
      WriteGoes(d);
      WritesGo(Dispatch(d, 0), m);
      OneGo(d, Gos(n), Gos(m), m);
    }
  }

  lemma {:induction false} OneGo(d: Sched, es: seq<Event>, rest: seq<Event>, m: nat)
    requires es == [Go(0)] + rest && TakesWrite(d, 0) && d.r.fifo != [] && Runs(Dispatch(d, 0), rest, 0)
    requires ReadsStarve(Dispatch(d, 0), rest, 0) && Writes(Dispatch(d, 0), rest, 0) == m
    ensures Runs(d, es, 0) && ReadsStarve(d, es, 0) && Writes(d, es, 0) == m + 1
  {
    assert es[1..] == rest;
  }

  // ----- exactly

  /** A stretch of a run in which a read waits at each dispatch and none is taken. */
  predicate Stretch(t: Tunables, d: Sched, es: seq<Event>, now: nat) {
    d.tun == t && DataOk(d, now) && BatchFresh(d) && Runs(d, es, now) && ReadsStarve(d, es, now)
  }

  ghost predicate ReadsBounded(t: Tunables, b: nat) {
    forall d, es, now :: Stretch(t, d, es, now) ==> Writes(d, es, now) <= b
  }

  lemma {:induction false} NoBound(t: Tunables, b: nat)
    requires t.writesStarved == 0
    ensures !ReadsBounded(t, b)
  {
    var n := b + 1;
    LoadedIs(t, n);
    WritesGo(Loaded(t, n), n);
    assert Stretch(t, Loaded(t, n), Gos(n), 0);
  }

  lemma {:induction false} OneBatch(t: Tunables)
    requires t.writesStarved > 0
    ensures ReadsBounded(t, Max(1, t.fifoBatch))
  {
    forall d, es, now | Stretch(t, d, es, now)
      ensures Writes(d, es, now) <= Max(1, t.fifoBatch)
    {
      ReadStarvationBound(d, es, now);
    }
  }

  /** There is a bound on the writes that go while a read waits if and only if
      writes_starved is positive. */
  lemma {:induction false} ReadsBoundedExactly(t: Tunables)
    ensures (exists b: nat :: ReadsBounded(t, b)) <==> t.writesStarved > 0
  {
    if t.writesStarved > 0 {
      OneBatch(t);
    } else {
      forall b: nat
        ensures !ReadsBounded(t, b)
      {
        NoBound(t, b);
      }
    }
  }
}
