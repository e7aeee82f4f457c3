/**
 Runs of the deadline scheduler: insertions, merges and dispatches, at times that never
 go back. Reads cannot starve writes for long, and draining dispatches every waiting
 request exactly once.
 */
module DeadlineRuns {
  import opened Lists
  import opened Numbers
  import opened DeadlineSpec
  import opened DeadlineInvariants

  /** A bio of `n` sectors of data from `sector` is merged if it begins where the request
      ends, or ends where it begins; two requests are merged if the second begins where the
      first ends. */
  datatype Event =
    | Insert(id: nat, read: bool, pos: nat, sectors: nat, now: nat)
    | Front(id: nat, sector: nat, n: nat, now: nat)
    | Back(id: nat, sector: nat, n: nat, now: nat)
    | Merge(req: nat, next: nat, now: nat)
    | Go(now: nat)

  predicate Enabled(d: Sched, e: Event) {
    match e
    case Insert(id, read, pos, sectors, now) => id !in d.reqs && id !in d.queue
    case Front(id, sector, n, now) => id in d.reqs && n > 0 && sector + n == d.reqs[id].pos
    case Back(id, sector, n, now) => id in d.reqs && n > 0 && d.reqs[id].pos + d.reqs[id].sectors == sector
    case Merge(req, next, now) =>
      && req in d.reqs && next in d.reqs && req != next && d.reqs[req].read == d.reqs[next].read
      && d.reqs[req].pos + d.reqs[req].sectors == d.reqs[next].pos
    case Go(now) => true
  }

  function Step(d: Sched, e: Event): Sched
    requires Enabled(d, e)
  {
    match e
    case Insert(id, read, pos, sectors, now) => Add(d, id, read, pos, sectors, now)
    case Front(id, sector, n, now) => FrontMerge(d, id, n)
    case Back(id, sector, n, now) => BackMerge(d, id, n)
    case Merge(req, next, now) => MergeNext(d, req, next)
    case Go(now) => Dispatch(d, now)
  }

  predicate Runs(d: Sched, es: seq<Event>, now: nat)
    decreases |es|
  {
    es == [] || (now <= es[0].now && Enabled(d, es[0]) && Runs(Step(d, es[0]), es[1..], es[0].now))
  }

  function After(d: Sched, es: seq<Event>, now: nat): Sched
    requires Runs(d, es, now)
    decreases |es|
  {
    if es == [] then d else After(Step(d, es[0]), es[1..], es[0].now)
  }

  function Time(es: seq<Event>, now: nat): nat { if es == [] then now else es[|es| - 1].now }

  lemma {:induction false} Later(d: Sched, now: nat, later: nat)
    requires DataOk(d, now) && now <= later
    ensures DataOk(d, later)
  {
    assert TimesOk(d, later);
  }

  lemma {:induction false} StepOk(d: Sched, e: Event)
    requires DataOk(d, e.now) && Enabled(d, e)
    ensures DataOk(Step(d, e), e.now)
  {
    match e
    case Insert(id, read, pos, sectors, now) => AddOk(d, id, read, pos, sectors, now);
    case Front(id, sector, n, now) => FrontOk(d, id, n, now);
    case Back(id, sector, n, now) => BackOk(d, id, n, now);
    case Merge(req, next, now) => MergeOk(d, req, next, now);
    case Go(now) => DispatchOk(d, now);
  }

  /** The first step of a run, and the rest. */
  lemma {:induction false} RunRest(d: Sched, es: seq<Event>, now: nat, a: Sched, b: Sched)
    requires Runs(d, es, now) && es != [] && a == After(d, es, now) && b == After(Step(d, es[0]), es[1..], es[0].now)
    ensures a == b && Time(es, now) == Time(es[1..], es[0].now)
  {
  }

  /** Every state a run reaches is in order. */
  lemma {:induction false} RunOk(d: Sched, es: seq<Event>, now: nat)
    requires DataOk(d, now) && Runs(d, es, now)
    ensures DataOk(After(d, es, now), Time(es, now))
    decreases |es|
  {
    if es != [] {
      Later(d, now, es[0].now);
      StepOk(d, es[0]);
      RunOk(Step(d, es[0]), es[1..], es[0].now);
      RunRest(d, es, now, After(d, es, now), After(Step(d, es[0]), es[1..], es[0].now));
    }
  }

  // ----- starvation

  /** How many reads may still go before a write: the rest of a batch of reads, and whole
      batches until the writes count as starved. */
  function Patience(d: Sched): nat {
    (if d.r.next.Some? && d.batching < d.tun.fifoBatch then d.tun.fifoBatch - d.batching else 0) +
    (if d.starved < d.tun.writesStarved then Rounds(d.tun.writesStarved - d.starved, d.tun) else 0)
  }

  function Rounds(n: nat, t: Tunables): (r: nat)
    ensures r == n * Max(1, t.fifoBatch)
  {
    if n == 0 then 0 else
      assert n * Max(1, t.fifoBatch) == (n - 1) * Max(1, t.fifoBatch) + Max(1, t.fifoBatch);
      Rounds(n - 1, t) + Max(1, t.fifoBatch)
  }

  /** The direction of what a dispatch takes. */
  predicate TakesRead(d: Sched, now: nat) {
    Choose(d, now).Take? && Choose(d, now).id in d.reqs && d.reqs[Choose(d, now).id].read
  }

  /** Dispatching a read while a write waits uses up patience. */
  lemma {:induction false} ReadCosts(d: Sched, now: nat)
    requires DataOk(d, now) && d.w.fifo != [] && TakesRead(d, now)
    ensures Patience(Dispatch(d, now)) < Patience(d) && Dispatch(d, now).tun == d.tun
  {
    var id := Choose(d, now).id;
    FindWaits(d.reqs, d.w, false, now);
    assert Dispatch(d, now).w.next.None?;
    if Batched(d).Some? && d.batching < d.tun.fifoBatch {
      assert d.w.next.None?;
    } else {
      assert d.starved < d.tun.writesStarved;
    }
  }

  /** Insertions and merges use up none. */
  lemma {:induction false} OthersFree(d: Sched, e: Event)
    requires Enabled(d, e) && !e.Go?
    ensures Patience(Step(d, e)) <= Patience(d) && Step(d, e).tun == d.tun
  {
  }

  /** The reads dispatched in a run, and whether a write was waiting at each dispatch and
      none was taken. */
  function Reads(d: Sched, es: seq<Event>, now: nat): nat
    requires Runs(d, es, now)
    decreases |es|
  {
    if es == [] then 0
    else (if es[0].Go? && TakesRead(d, es[0].now) then 1 else 0) + Reads(Step(d, es[0]), es[1..], es[0].now)
  }

  predicate WritesStarve(d: Sched, es: seq<Event>, now: nat)
    requires Runs(d, es, now)
    decreases |es|
  {
    es == [] ||
    ((es[0].Go? ==> d.w.fifo != [] && TakesRead(d, es[0].now)) && WritesStarve(Step(d, es[0]), es[1..], es[0].now))
  }

  lemma {:induction false} PatienceEnds(d: Sched, es: seq<Event>, now: nat)
    requires DataOk(d, now) && Runs(d, es, now) && WritesStarve(d, es, now)
    ensures Reads(d, es, now) <= Patience(d)
    decreases |es|
  {
    if es != [] {
      Later(d, now, es[0].now);
      StepOk(d, es[0]);
      if es[0].Go? { ReadCosts(d, es[0].now); } else { OthersFree(d, es[0]); }
      PatienceEnds(Step(d, es[0]), es[1..], es[0].now);
    }
  }

  lemma {:induction false} PatienceBound(d: Sched)
    ensures Patience(d) <= (d.tun.writesStarved + 1) * Max(1, d.tun.fifoBatch)
  {
    var m, ws := Max(1, d.tun.fifoBatch), d.tun.writesStarved;
    if d.starved < ws { assert (ws - d.starved) * m + d.starved * m == ws * m; }
    assert d.starved * m >= 0;
    assert (ws + 1) * m == ws * m + m;
  }

  /** Write starvation is bounded: while a write waits and none is dispatched, at most
      (writes_starved + 1) * max(1, fifo_batch) reads go. */
  lemma {:induction false} StarvationBound(d: Sched, es: seq<Event>, now: nat)
    requires DataOk(d, now) && Runs(d, es, now) && WritesStarve(d, es, now)
    ensures Reads(d, es, now) <= (d.tun.writesStarved + 1) * Max(1, d.tun.fifoBatch)
  {
    PatienceEnds(d, es, now);
    PatienceBound(d);
  }

  // ----- draining

  /** elv_drain_elevator: dispatch until nothing is left. */
  function Drain(d: Sched, now: nat): Sched
    requires DataOk(d, now)
    decreases |d.reqs|
  {
    ChooseOk(d, now);
    DispatchOk(d, now);
    if d.reqs == map[] then d else (DispatchTakes(d, now); Drain(Dispatch(d, now), now))
  }

  lemma {:induction false} DispatchTakes(d: Sched, now: nat)
    requires DataOk(d, now) && d.reqs != map[]
    ensures Choose(d, now).Take? && Choose(d, now).id in d.reqs
    ensures Dispatch(d, now).reqs == d.reqs - {Choose(d, now).id} && |Dispatch(d, now).reqs| == |d.reqs| - 1
    ensures Dispatch(d, now).queue == d.queue + [Choose(d, now).id]
  {
    ChooseOk(d, now);
    Fewer(d.reqs, Choose(d, now).id);
  }

  lemma {:induction false} NoneWaiting(reqs: map<nat, Rq>, l: Lane, read: bool)
    requires LaneOk(reqs, l, read) && reqs == map[]
    ensures l.fifo == [] && l.tree == []
  {
    assert Nodes(reqs, read, true) == {} && Nodes(reqs, read, false) == {};
    ElemsEmpty(l.fifo);
    ElemsEmpty(l.tree);
  }

  lemma {:induction false} DrainEmpties(d: Sched, now: nat)
    requires DataOk(d, now)
    ensures DataOk(Drain(d, now), now) && Drain(d, now).reqs == map[]
    decreases |d.reqs|
  {
    if d.reqs == map[] {
      assert Drain(d, now) == d;
    } else {
      DispatchTakes(d, now);
      DispatchOk(d, now);
      DrainEmpties(Dispatch(d, now), now);
      assert Drain(d, now) == Drain(Dispatch(d, now), now);
    }
  }

  /** `t` is `s` followed by the elements of `more`, each once. */
  predicate Appended(s: seq<nat>, more: set<nat>, t: seq<nat>) {
    s <= t && Elems(t) == Elems(s) + more && |t| == |s| + |more|
  }

  lemma {:induction false} AppendedOne(s: seq<nat>, id: nat, more: set<nat>, t: seq<nat>)
    requires id in more && Appended(s + [id], more - {id}, t)
    ensures Appended(s, more, t)
  {
    assert Elems(s + [id]) == Elems(s) + {id};
    assert |more - {id}| == |more| - 1;
    assert s <= s + [id];
  }

  lemma {:induction false} DrainQueue(d: Sched, now: nat)
    requires DataOk(d, now)
    ensures Appended(d.queue, d.reqs.Keys, Drain(d, now).queue)
    decreases |d.reqs|
  {
    if d.reqs == map[] {
      assert Drain(d, now) == d && d.reqs.Keys == {};
    } else {
      DispatchTakes(d, now);
      DispatchOk(d, now);
      var id := Choose(d, now).id;
      DrainQueue(Dispatch(d, now), now);
      assert Drain(d, now) == Drain(Dispatch(d, now), now);
      assert (d.reqs - {id}).Keys == d.reqs.Keys - {id};
      AppendedOne(d.queue, id, d.reqs.Keys, Drain(d, now).queue);
    }
  }

  /** Draining leaves nothing sorted, and dispatches each waiting request exactly once,
      after what was dispatched before. */
  lemma {:induction false} DrainAll(d: Sched, now: nat)
    requires DataOk(d, now)
    ensures var t := Drain(d, now);
            && t.reqs == map[] && t.nrSorted == 0
            && t.r.fifo == [] && t.r.tree == [] && t.w.fifo == [] && t.w.tree == []
            && Appended(d.queue, d.reqs.Keys, t.queue) && Distinct(t.queue)
  {
    DrainEmpties(d, now);
    DrainQueue(d, now);
    NoneWaiting(Drain(d, now).reqs, Drain(d, now).r, true);
    NoneWaiting(Drain(d, now).reqs, Drain(d, now).w, false);
  }
}
