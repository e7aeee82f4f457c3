/**
 Which request the deadline scheduler dispatches, over whole runs: within a batch it goes
 on in the order of sectors; a new batch begins with the earliest deadline if one of the
 direction has passed, and with reads unless writes have been passed over too often.
 */
module DeadlineOrder {
  import opened Lists
  import opened SearchTree
  import opened DeadlineSpec
  import opened DeadlineInvariants
  import opened DeadlineNext
  import opened DeadlineRuns

  /** What the run so far says: the direction and the first sector of the request dispatched
      last, the requests that have been added or moved in the sort order since, whether
      one of these has been absorbed by another, and how many batches of reads have been
      started before waiting writes since the last batch of writes. */
  datatype Trace = Trace(some: bool, read: bool, pos: nat, newer: set<nat>, mixed: bool, passed: nat)

  const NOTHING_YET := Trace(false, true, 0, {}, false, 0)

  predicate Waiting(d: Sched, read: bool) { exists id :: id in d.reqs && d.reqs[id].read == read }

  /** The dispatch that leads from `d` to `t`. */
  function Tracked(d: Sched, t: Sched, tr: Trace): Trace {
    if |t.queue| <= |d.queue| || t.queue[|d.queue|] !in d.reqs then tr
    else
      var q := d.reqs[t.queue[|d.queue|]];
      Trace(true, q.read, q.pos, {}, false,
        if t.batching > 1 then tr.passed
        else if !q.read then 0
        else if Waiting(d, false) then tr.passed + 1
        else tr.passed)
  }

  function Track(d: Sched, e: Event, tr: Trace): Trace
    requires Enabled(d, e)
  {
    match e
    case Insert(id, read, pos, sectors, now) => tr.(newer := tr.newer + {id})
    case Front(id, sector, n, now) => tr.(newer := tr.newer + {id})
    case Back(id, sector, n, now) => tr
    case Merge(req, next, now) => tr.(mixed := tr.mixed || next in tr.newer)
    case Go(now) => Tracked(d, Step(d, e), tr)
  }

  function TraceOf(d: Sched, es: seq<Event>, now: nat, tr: Trace): Trace
    requires Runs(d, es, now)
    decreases |es|
  {
    if es == [] then tr else TraceOf(Step(d, es[0]), es[1..], es[0].now, Track(d, es[0], tr))
  }

  // ----- the invariant

  predicate Pinned(d: Sched, tr: Trace) {
    && (if tr.some then
          && LaneOf(d, !tr.read).next.None?
          && Lined(d.reqs, LaneOf(d, tr.read), tr.read, tr.pos, tr.newer, tr.mixed)
        else d.r.next.None? && d.w.next.None?)
    && d.starved == tr.passed && (d.r.next.Some? || d.w.next.Some? ==> d.batching >= 1)
  }

  predicate SameCounts(d: Sched, t: Sched) {
    && t.batching == d.batching && t.starved == d.starved && t.tun == d.tun
    && (t.r.next.Some? ==> d.r.next.Some?) && (t.w.next.Some? ==> d.w.next.Some?)
  }

  /** Only next_rq's direction matters. */
  lemma {:induction false} PinnedStays(d: Sched, t: Sched, tr: Trace, us: Trace)
    requires Pinned(d, tr) && SameCounts(d, t)
    requires us == tr.(newer := us.newer, mixed := us.mixed)
    requires tr.some ==> Lined(t.reqs, LaneOf(t, tr.read), tr.read, tr.pos, us.newer, us.mixed)
    ensures Pinned(t, us)
  {
  }

  lemma {:induction false} AddPinned(d: Sched, id: nat, read: bool, pos: nat, sectors: nat, now: nat, tr: Trace)
    requires Pinned(d, tr) && id !in d.reqs
    ensures Pinned(Add(d, id, read, pos, sectors, now), tr.(newer := tr.newer + {id}))
  {
    var t, us := Add(d, id, read, pos, sectors, now), tr.(newer := tr.newer + {id});
    AddIs(d, id, read, pos, sectors, now);
    if tr.some {
      LinedAdd(d.reqs, LaneOf(d, tr.read), LaneOf(t, tr.read), tr.read, tr.pos, tr.newer, tr.mixed, id, t.reqs[id]);
    }
    PinnedStays(d, t, tr, us);
  }

  lemma {:induction false} FrontPinned(d: Sched, id: nat, q: Rq, now: nat, tr: Trace)
    requires DataOk(d, now) && Pinned(d, tr) && id in d.reqs && q.read == d.reqs[id].read
    requires q.pos < d.reqs[id].pos && q.deadline == d.reqs[id].deadline
    ensures Pinned(Repositioned(d, id, q), tr.(newer := tr.newer + {id}))
  {
    var t, us := Repositioned(d, id, q), tr.(newer := tr.newer + {id});
    FrontIs(d, id, q);
    if tr.some {
      LinedFront(d.reqs, LaneOf(d, tr.read), LaneOf(t, tr.read), tr.read, tr.pos, tr.newer, tr.mixed, id, q);
    }
    PinnedStays(d, t, tr, us);
  }

  lemma {:induction false} BackPinned(d: Sched, id: nat, n: nat, tr: Trace)
    requires Pinned(d, tr) && id in d.reqs
    ensures Pinned(BackMerge(d, id, n), tr)
  {
    var t := BackMerge(d, id, n);
    if tr.some {
      LinedRecord(d.reqs, LaneOf(d, tr.read), LaneOf(t, tr.read), tr.read, tr.pos, tr.newer, tr.mixed, id, t.reqs[id]);
    }
    PinnedStays(d, t, tr, tr);
  }

  lemma {:induction false} AbsorbedPinned(d: Sched, req: nat, next: nat, tr: Trace)
    requires Pinned(d, tr) && req in d.reqs && next in d.reqs
    ensures Pinned(Absorbed(d, req, next), tr)
  {
    var t := Absorbed(d, req, next);
    AbsorbedIs(d, req, next);
    if tr.some {
      LinedRecord(d.reqs, LaneOf(d, tr.read), LaneOf(t, tr.read), tr.read, tr.pos, tr.newer, tr.mixed, req,
                  t.reqs[req]);
    }
    PinnedStays(d, t, tr, tr);
  }

  lemma {:induction false} DiscardedPinned(d: Sched, id: nat, now: nat, tr: Trace)
    requires DataOk(d, now) && Pinned(d, tr) && id in d.reqs
    ensures Pinned(Discarded(d, id), tr.(mixed := tr.mixed || id in tr.newer))
  {
    var t, us := Discarded(d, id), tr.(mixed := tr.mixed || id in tr.newer);
    DiscardedIs(d, id);
    if tr.some {
      if d.reqs[id].read == tr.read {
        LinedRemove(d.reqs, LaneOf(d, tr.read), tr.read, tr.pos, tr.newer, tr.mixed, id);
      } else {
        LinedLeave(d.reqs, LaneOf(d, tr.read), tr.read, tr.pos, tr.newer, tr.mixed, us.mixed, id);
      }
    }
    PinnedStays(d, t, tr, us);
  }

  // ----- what is dispatched

  /** In the order of sectors, `id` is next: it is not behind the last one dispatched, and
      nothing that has been waiting since lies between. */
  predicate Follows(d: Sched, tr: Trace, id: nat) {
    && id in d.reqs && tr.some && d.reqs[id].read == tr.read
    && (id !in tr.newer && !tr.mixed ==> d.reqs[id].pos >= tr.pos)
    && forall y :: y in d.reqs && Settled(d.reqs, tr.read, tr.pos, tr.newer, y) ==> d.reqs[id].pos <= d.reqs[y].pos
  }

  /** Something that has been waiting since the last dispatch lies beyond it. */
  predicate Follower(d: Sched, tr: Trace) {
    tr.some && exists y :: y in d.reqs && Settled(d.reqs, tr.read, tr.pos, tr.newer, y)
  }

  /** No request of its direction has an earlier deadline. */
  predicate Earliest(d: Sched, id: nat) {
    && id in d.reqs
    && forall y :: y in d.reqs && d.reqs[y].read == d.reqs[id].read ==> d.reqs[id].deadline <= d.reqs[y].deadline
  }

  predicate Overdue(d: Sched, read: bool, now: nat) {
    exists y :: y in d.reqs && d.reqs[y].read == read && d.reqs[y].deadline < now
  }

  /** What a batch begins with: the earliest deadline, if one of the direction has passed or
      there is nowhere to go on from; else the batch goes on in the order of sectors. */
  predicate BeginsWith(d: Sched, tr: Trace, now: nat, id: nat) {
    && id in d.reqs
    && if Overdue(d, d.reqs[id].read, now) || !tr.some || tr.read != d.reqs[id].read then Earliest(d, id)
       else Follows(d, tr, id) || (Earliest(d, id) && !Follower(d, tr))
  }

  /** A batch goes on while it is not fifo_batch long and something follows; a new one is of
      reads if there are any, unless writes wait and have been passed over writes_starved
      times. */
  predicate DispatchRule(d: Sched, tr: Trace, now: nat, t: Sched, id: nat) {
    && id in d.reqs && t.queue == d.queue + [id] && t.reqs == d.reqs - {id}
    && t.lastSector == d.reqs[id].pos + d.reqs[id].sectors
    && (d.batching < d.tun.fifoBatch && Follower(d, tr) ==> t.batching > 1)
    && if t.batching > 1 then t.batching == d.batching + 1 <= d.tun.fifoBatch && Follows(d, tr, id)
       else
         && t.batching == 1 && BeginsWith(d, tr, now, id)
         && (d.reqs[id].read <==>
             Waiting(d, true) && (Waiting(d, false) ==> tr.passed < d.tun.writesStarved))
  }

  lemma {:induction false} WaitingIs(d: Sched, read: bool, now: nat)
    requires DataOk(d, now)
    ensures Waiting(d, read) <==> LaneOf(d, read).fifo != []
  {
    if LaneOf(d, read).fifo != [] { HeadWaits(d.reqs, LaneOf(d, read), read); }
    if Waiting(d, read) {
      var id :| id in d.reqs && d.reqs[id].read == read;
      Waits(d.reqs, LaneOf(d, read), id);
    }
  }

  lemma {:induction false} NextFollows(d: Sched, tr: Trace, id: nat, now: nat)
    requires DataOk(d, now) && Pinned(d, tr) && tr.some && LaneOf(d, tr.read).next == Some(id)
    ensures Follows(d, tr, id)
  {
    var l := LaneOf(d, tr.read);
    forall y | y in d.reqs && Settled(d.reqs, tr.read, tr.pos, tr.newer, y)
      ensures d.reqs[id].pos <= d.reqs[y].pos
    {
      assert From(d.reqs, l.tree, l.next, y);
      if y != id { BeforeKeys(l.tree, InTree(id, d.reqs[id]), InTree(y, d.reqs[y])); }
    }
  }

  lemma {:induction false} HeadEarliest(d: Sched, read: bool, now: nat)
    requires DataOk(d, now) && LaneOf(d, read).fifo != []
    ensures Earliest(d, LaneOf(d, read).fifo[0].id) && d.reqs[LaneOf(d, read).fifo[0].id].read == read
    ensures Overdue(d, read, now) <==> Expired(LaneOf(d, read), now)
  {
    var l := LaneOf(d, read);
    HeadWaits(d.reqs, l, read);
    HeadDecides(d, read, now);
    assert l.fifo[0] in Elems(l.fifo);
    forall y | y in d.reqs && d.reqs[y].read == read
      ensures l.fifo[0].key <= d.reqs[y].deadline
    {
      NodesRemove(d.reqs, y, read, true);
      assert InFifo(y, d.reqs[y]) in Elems(l.fifo);
      assert InFifo(y, d.reqs[y]) == l.fifo[0] || InFifo(y, d.reqs[y]) in l.fifo[1..];
    }
  }

  lemma {:induction false} FindBegins(d: Sched, tr: Trace, read: bool, now: nat)
    requires DataOk(d, now) && Pinned(d, tr) && LaneOf(d, read).fifo != []
    ensures BeginsWith(d, tr, now, Find(LaneOf(d, read), now)) && d.reqs[Find(LaneOf(d, read), now)].read == read
  {
    FindWaits(d.reqs, LaneOf(d, read), read, now);
    HeadEarliest(d, read, now);
    if LaneOf(d, read).next.Some? { NextFollows(d, tr, LaneOf(d, read).next.id, now); }
  }

  lemma {:induction false} GoOn(d: Sched, tr: Trace, now: nat)
    requires DataOk(d, now) && Pinned(d, tr) && Batched(d).Some? && d.batching < d.tun.fifoBatch
    ensures DispatchRule(d, tr, now, Dispatch(d, now), Batched(d).id)
  {
    MoveIs(d, Batched(d).id);
    NextFollows(d, tr, Batched(d).id, now);
  }

  lemma {:induction false} BeginNew(d: Sched, tr: Trace, now: nat)
    requires DataOk(d, now) && Pinned(d, tr) && d.reqs != map[] && !(Batched(d).Some? && d.batching < d.tun.fifoBatch)
    ensures Choose(d, now).Take? && DispatchRule(d, tr, now, Dispatch(d, now), Choose(d, now).id)
  {
    ChooseOk(d, now);
    MoveIs(d, Choose(d, now).id);
    WaitingIs(d, true, now);
    WaitingIs(d, false, now);
    if d.r.fifo != [] { FindBegins(d, tr, true, now); }
    if d.w.fifo != [] { FindBegins(d, tr, false, now); }
  }

  lemma {:induction false} GoRule(d: Sched, tr: Trace, now: nat)
    requires DataOk(d, now) && Pinned(d, tr) && d.reqs != map[]
    ensures Choose(d, now).Take? && DispatchRule(d, tr, now, Dispatch(d, now), Choose(d, now).id)
  {
    if Batched(d).Some? && d.batching < d.tun.fifoBatch { GoOn(d, tr, now); } else { BeginNew(d, tr, now); }
  }

  // ----- runs

  lemma {:induction false} TookLined(d: Sched, id: nat, now: nat)
    requires DataOk(d, now) && id in d.reqs
    ensures var t, q := Move(d, id), d.reqs[id];
            LaneOf(t, !q.read).next.None? && Lined(t.reqs, LaneOf(t, q.read), q.read, q.pos, {}, false)
  {
    MoveIs(d, id);
    LinedMove(d.reqs, LaneOf(d, d.reqs[id].read), d.reqs[id].read, id);
  }

  /** The counts after a dispatch of `id`. */
  lemma {:induction false} TookCounts(d: Sched, tr: Trace, now: nat, id: nat)
    requires DataOk(d, now) && Pinned(d, tr) && Choose(d, now).Take? && id == Choose(d, now).id && id in d.reqs
    ensures var t, us := Dispatch(d, now), Tracked(d, Dispatch(d, now), tr);
            && t == Move(d, id).(batching := t.batching, starved := t.starved) && t.batching >= 1
            && us.some && us.read == d.reqs[id].read && us.pos == d.reqs[id].pos && us.newer == {} && !us.mixed
            && t.starved == us.passed
  {
    MoveIs(d, id);
    WaitingIs(d, true, now);
    WaitingIs(d, false, now);
    if d.r.fifo != [] { FindWaits(d.reqs, d.r, true, now); }
    if d.w.fifo != [] { FindWaits(d.reqs, d.w, false, now); }
  }

  lemma {:induction false} GoPinned(d: Sched, tr: Trace, now: nat)
    requires DataOk(d, now) && Pinned(d, tr)
    ensures Pinned(Dispatch(d, now), Tracked(d, Dispatch(d, now), tr))
  {
    ChooseOk(d, now);
    if Choose(d, now).Take? {
      TookCounts(d, tr, now, Choose(d, now).id);
      TookLined(d, Choose(d, now).id, now);
    }
  }

  lemma {:induction false} StepPinned(d: Sched, e: Event, tr: Trace)
    requires DataOk(d, e.now) && Pinned(d, tr) && Enabled(d, e)
    ensures Pinned(Step(d, e), Track(d, e, tr))
  {
    match e
    case Insert(id, read, pos, sectors, now) => AddPinned(d, id, read, pos, sectors, now, tr);
    case Front(id, sector, n, now) => FrontPinned(d, id, Extended(d.reqs[id], n), now, tr);
    case Back(id, sector, n, now) => BackPinned(d, id, n, tr);
    case Merge(req, next, now) =>
      AbsorbedPinned(d, req, next, tr);
      AbsorbedOk(d, req, next, now);
      DiscardedPinned(Absorbed(d, req, next), next, now, tr);
    case Go(now) => GoPinned(d, tr, now);
  }

  lemma {:induction false} RunPinned(d: Sched, es: seq<Event>, now: nat, tr: Trace)
    requires DataOk(d, now) && Pinned(d, tr) && Runs(d, es, now)
    ensures Pinned(After(d, es, now), TraceOf(d, es, now, tr))
    decreases |es|
  {
    if es != [] {
      Later(d, now, es[0].now);
      StepPinned(d, es[0], tr);
      StepOk(d, es[0]);
      RunPinned(Step(d, es[0]), es[1..], es[0].now, Track(d, es[0], tr));
    }
  }

  /** A scheduler that has seen no request. */
  predicate Idle(d: Sched, now: nat) {
    DataOk(d, now) && d.reqs == map[] && d.r.next.None? && d.w.next.None? && d.starved == 0
  }

  /** In every run, a dispatch takes a request, if there is one, and takes it by the rule. */
  lemma {:induction false} DispatchExactly(d: Sched, es: seq<Event>, now: nat, later: nat) returns (id: nat)
    requires Idle(d, now) && Runs(d, es, now) && Time(es, now) <= later
    ensures var a := After(d, es, now);
            if a.reqs == map[] then Step(a, Go(later)) == a
            else DispatchRule(a, TraceOf(d, es, now, NOTHING_YET), later, Step(a, Go(later)), id)
  {
    var a := After(d, es, now);
    id := 0;
    RunOk(d, es, now);
    RunPinned(d, es, now, NOTHING_YET);
    Later(a, Time(es, now), later);
    ChooseOk(a, later);
    if a.reqs != map[] {
      id := Choose(a, later).id;
      GoRule(a, TraceOf(d, es, now, NOTHING_YET), later);
    }
  }

  /** The request that follows is the first of all that lie beyond, if and only if none that
      came or moved since the last dispatch lies before it. */
  lemma {:induction false} FirstUnlessNewer(d: Sched, tr: Trace, id: nat)
    requires Follows(d, tr, id)
    ensures (forall y :: y in d.reqs && Settled(d.reqs, tr.read, tr.pos, {}, y) ==> d.reqs[id].pos <= d.reqs[y].pos)
            <==> forall y :: y in d.reqs && y in tr.newer && Settled(d.reqs, tr.read, tr.pos, {}, y) ==>
                               d.reqs[id].pos <= d.reqs[y].pos
  {
    forall y | y in d.reqs && y !in tr.newer && Settled(d.reqs, tr.read, tr.pos, {}, y)
      ensures d.reqs[id].pos <= d.reqs[y].pos
    {
      assert Settled(d.reqs, tr.read, tr.pos, tr.newer, y);
    }
  }

  /** A scheduler that has seen no request, with the default tunables at 1000 ticks a second. */
  const NEW := Sched(Tunables(500, 5000, 16, 2), map[], Lane([], [], None), Lane([], [], None), 0, 0, 0, 0, [])

  const TWO := Add(Add(NEW, 1, true, 10, 8, 0), 2, true, 50, 8, 0)

  lemma {:induction false} NewIdle()
    ensures Idle(NEW, 0)
  {
    assert Nodes(NEW.reqs, true, true) == {} && Nodes(NEW.reqs, true, false) == {};
    assert Nodes(NEW.reqs, false, true) == {} && Nodes(NEW.reqs, false, false) == {};
  }

  lemma {:induction false} TwoReads()
    ensures TWO.r.tree == [Node(10, 1), Node(50, 2)] && TWO.r.fifo == [Node(500, 1), Node(500, 2)]
    ensures TWO.reqs == map[1 := Rq(true, 10, 8, 500), 2 := Rq(true, 50, 8, 500)] && TWO.queue == []
    ensures TWO == NEW.(reqs := TWO.reqs, r := TWO.r, nrSorted := 2) && TWO.r.next.None?
  {
    var one := Add(NEW, 1, true, 10, 8, 0);
    assert one.r.tree == [Node(10, 1)] && one.r.fifo == [Node(500, 1)];
    InsertSkip(Node(10, 1), [], Node(50, 2));
    assert [Node(10, 1)] + [] == one.r.tree;
  }

  /** A third read comes after the first is dispatched, and lies before next_rq. */
  const THREE := Add(Dispatch(TWO, 0), 3, true, 30, 8, 0)

  /** It need not be: a read that comes between the last one and next_rq is passed over. */
  lemma {:induction false} NewcomerPassed()
    ensures Idle(NEW, 0) && THREE.queue == [1] && THREE.tun == NEW.tun
    ensures 2 in THREE.reqs && THREE.reqs[2].pos == 50 && 3 in THREE.reqs && THREE.reqs[3].pos == 30
    ensures Dispatch(THREE, 0).queue == [1, 2]
  {
    NewIdle();
    TwoReads();
    assert Choose(TWO, 0) == Take(1, 1, 0);
    MoveIs(TWO, 1);
    assert Successor(TWO.r.tree, Node(10, 1)) == Some(2);
    AddIs(Dispatch(TWO, 0), 3, true, 30, 8, 0);
    assert Choose(THREE, 0) == Take(2, 2, 0);
    MoveIs(THREE, 2);
  }
}
