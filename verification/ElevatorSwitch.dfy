/**
 Switching the I/O scheduler under load (block/elevator.c) against request allocation
 (block/blk-core.c). Allocation takes its decisions under the queue lock but sets a
 request up for the scheduler without it, and may fail; a switch raises a flag, waits
 until no request with scheduler data is left, attaches the new scheduler, and may still
 go back to the old one. The steps below are what happens atomically, and interleave in
 any order.
 */
module ElevatorSwitch {

  /** An allocation between get_request's locked part and its end: begun, or having read
      q->elevator in elv_set_request. */
  datatype Alloc = Begun(priv: bool, sync: bool) | Setting(sync: bool, owner: nat)

  /** An allocated request; `owner` is the scheduler that set it up, if it has REQ_ELVPRIV. */
  datatype Live = Live(priv: bool, sync: bool, owner: nat)

  /** No switch, waiting for requests to go, the new scheduler attached, or going back. */
  datatype Phase = Running | Draining(coming: nat) | Attached(leaving: nat) | Reverting(leaving: nat)

  /** elevator, the state of a switch, rq.count for sync and async, rq.elvpriv, and the
      schedulers that were shut down. */
  datatype Queue = Queue(elevator: nat, phase: Phase, nrRequests: nat, syncs: nat, asyncs: nat, elvpriv: nat,
                         allocs: map<nat, Alloc>, live: map<nat, Live>, exited: set<nat>)

  datatype Step =
    | Begin(id: nat, sync: bool, wants: bool)
    | ReadElevator(id: nat)
    | Finish(id: nat)
    | Fail(id: nat)
    | Free(id: nat)
    | QuiesceStart(e: nat)
    | Attach
    | QuiesceEnd
    | ExitNew
    | Reattach

  predicate HasPriv(a: Alloc) { a.Setting? || a.priv }

  /** QUEUE_FLAG_ELVSWITCH. */
  predicate Switching(q: Queue) { !q.phase.Running? }

  function Count(q: Queue, sync: bool): nat { if sync then q.syncs else q.asyncs }

  function Counted(q: Queue, sync: bool, n: nat): Queue { if sync then q.(syncs := n) else q.(asyncs := n) }

  function Less(n: nat): nat { if n > 0 then n - 1 else 0 }

  predicate Enabled(q: Queue, s: Step) {
    match s
    case Begin(id, sync, wants) => id !in q.allocs && id !in q.live && Count(q, sync) < 3 * q.nrRequests / 2
    case ReadElevator(id) => id in q.allocs && q.allocs[id].Begun? && q.allocs[id].priv
    case Finish(id) => id in q.allocs && (q.allocs[id].Begun? ==> !q.allocs[id].priv)
    case Fail(id) => id in q.allocs
    case Free(id) => id in q.live
    case QuiesceStart(e) => q.phase.Running? && e != q.elevator && e !in q.exited
    case Attach => q.phase.Draining? && q.elvpriv == 0
    case QuiesceEnd => q.phase.Attached?
    case ExitNew => q.phase.Attached?
    case Reattach => q.phase.Reverting?
  }

  /** freed_request. */
  function Freed(q: Queue, sync: bool, priv: bool): Queue {
    Counted(q, sync, Less(Count(q, sync))).(elvpriv := if priv then Less(q.elvpriv) else q.elvpriv)
  }

  function Next(q: Queue, s: Step): Queue
    requires Enabled(q, s)
  {
    match s
    case Begin(id, sync, wants) =>
      var priv := wants && !Switching(q);
      Counted(q, sync, Count(q, sync) + 1).(elvpriv := if priv then q.elvpriv + 1 else q.elvpriv,
                                            allocs := q.allocs[id := Begun(priv, sync)])
    case ReadElevator(id) => q.(allocs := q.allocs[id := Setting(q.allocs[id].sync, q.elevator)])
    case Finish(id) =>
      var a := q.allocs[id];
      q.(allocs := q.allocs - {id}, live := q.live[id := Live(HasPriv(a), a.sync, if a.Setting? then a.owner else 0)])
    case Fail(id) => Freed(q, q.allocs[id].sync, HasPriv(q.allocs[id])).(allocs := q.allocs - {id})
    case Free(id) => Freed(q, q.live[id].sync, q.live[id].priv).(live := q.live - {id})
    case QuiesceStart(e) => q.(phase := Draining(e))
    case Attach => q.(elevator := q.phase.coming, phase := Attached(q.elevator))
    case QuiesceEnd => q.(phase := Running, exited := q.exited + {q.phase.leaving})
    case ExitNew => q.(phase := Reverting(q.phase.leaving), exited := q.exited + {q.elevator})
    case Reattach => q.(phase := Running, elevator := q.phase.leaving)
  }

  // ----- what holds in every state

  function PrivAllocs(m: map<nat, Alloc>): set<nat> { set id | id in m && HasPriv(m[id]) }

  function PrivLive(m: map<nat, Live>): set<nat> { set id | id in m && m[id].priv }

  function Allocs(m: map<nat, Alloc>, sync: bool): set<nat> { set id | id in m && m[id].sync == sync }

  function Lives(m: map<nat, Live>, sync: bool): set<nat> { set id | id in m && m[id].sync == sync }

  /** Whoever carries scheduler data was set up by the scheduler that is attached. */
  predicate OwnedOk(q: Queue) {
    && (forall id :: id in q.live && q.live[id].priv ==> q.live[id].owner == q.elevator)
    && (forall id :: id in q.allocs && q.allocs[id].Setting? ==> q.allocs[id].owner == q.elevator)
  }

  /** elvpriv counts the requests with scheduler data and the allocations that may yet
      get it. */
  predicate PrivOk(q: Queue) {
    q.elvpriv == |PrivAllocs(q.allocs)| + |PrivLive(q.live)|
  }

  /** The request counts are exact and limited. */
  predicate CountOk(q: Queue, sync: bool) {
    Count(q, sync) == |Allocs(q.allocs, sync)| + |Lives(q.live, sync)| && Count(q, sync) <= 3 * q.nrRequests / 2
  }

  /** The attached scheduler has been shut down only on the way back to the old one; from
      the attachment to the end of a switch no request has scheduler data. */
  predicate PhaseOk(q: Queue) {
    && (q.elevator in q.exited <==> q.phase.Reverting?)
    && (q.phase.Draining? ==> q.phase.coming != q.elevator && q.phase.coming !in q.exited)
    && (q.phase.Attached? || q.phase.Reverting? ==>
          q.elvpriv == 0 && q.phase.leaving != q.elevator && q.phase.leaving !in q.exited)
  }

  predicate Safe(q: Queue) {
    && q.allocs.Keys !! q.live.Keys
    && OwnedOk(q) && PrivOk(q) && CountOk(q, true) && CountOk(q, false) && PhaseOk(q)
  }

  // ----- counting

  function Plus(s: set<nat>, id: nat, added: bool): set<nat> { if added then s + {id} else s }

  lemma {:induction false} PlusSize(s: set<nat>, id: nat, added: bool)
    requires id !in s
    ensures |Plus(s, id, added)| == |s| + (if added then 1 else 0)
  {
  }

  lemma {:induction false} PutAllocSets(m: map<nat, Alloc>, id: nat, a: Alloc, sync: bool)
    requires id !in m
    ensures PrivAllocs(m[id := a]) == Plus(PrivAllocs(m), id, HasPriv(a)) && id !in PrivAllocs(m)
    ensures Allocs(m[id := a], sync) == Plus(Allocs(m, sync), id, a.sync == sync) && id !in Allocs(m, sync)
  {
  }

  lemma {:induction false} PutAlloc(m: map<nat, Alloc>, id: nat, a: Alloc, sync: bool)
    requires id !in m
    ensures |PrivAllocs(m[id := a])| == |PrivAllocs(m)| + (if HasPriv(a) then 1 else 0)
    ensures |Allocs(m[id := a], sync)| == |Allocs(m, sync)| + (if a.sync == sync then 1 else 0)
  {
    PutAllocSets(m, id, a, sync);
    PlusSize(PrivAllocs(m), id, HasPriv(a));
    PlusSize(Allocs(m, sync), id, a.sync == sync);
  }

  lemma {:induction false} DropAlloc(m: map<nat, Alloc>, id: nat, sync: bool)
    requires id in m
    ensures |PrivAllocs(m - {id})| + (if HasPriv(m[id]) then 1 else 0) == |PrivAllocs(m)|
    ensures |Allocs(m - {id}, sync)| + (if m[id].sync == sync then 1 else 0) == |Allocs(m, sync)|
  {
    PutAlloc(m - {id}, id, m[id], sync);
    assert (m - {id})[id := m[id]] == m;
  }

  lemma {:induction false} PutLiveSets(m: map<nat, Live>, id: nat, a: Live, sync: bool)
    requires id !in m
    ensures PrivLive(m[id := a]) == Plus(PrivLive(m), id, a.priv) && id !in PrivLive(m)
    ensures Lives(m[id := a], sync) == Plus(Lives(m, sync), id, a.sync == sync) && id !in Lives(m, sync)
  {
  }

  lemma {:induction false} PutLive(m: map<nat, Live>, id: nat, a: Live, sync: bool)
    requires id !in m
    ensures |PrivLive(m[id := a])| == |PrivLive(m)| + (if a.priv then 1 else 0)
    ensures |Lives(m[id := a], sync)| == |Lives(m, sync)| + (if a.sync == sync then 1 else 0)
  {
    PutLiveSets(m, id, a, sync);
    PlusSize(PrivLive(m), id, a.priv);
    PlusSize(Lives(m, sync), id, a.sync == sync);
  }

  lemma {:induction false} DropLive(m: map<nat, Live>, id: nat, sync: bool)
    requires id in m
    ensures |PrivLive(m - {id})| + (if m[id].priv then 1 else 0) == |PrivLive(m)|
    ensures |Lives(m - {id}, sync)| + (if m[id].sync == sync then 1 else 0) == |Lives(m, sync)|
  {
    PutLive(m - {id}, id, m[id], sync);
    assert (m - {id})[id := m[id]] == m;
  }

  // ----- allocation

  lemma {:induction false} BeginSafe(q: Queue, id: nat, sync: bool, wants: bool)
    requires Safe(q) && Enabled(q, Begin(id, sync, wants))
    ensures Safe(Next(q, Begin(id, sync, wants)))
  {
    PutAlloc(q.allocs, id, Begun(wants && !Switching(q), sync), true);
    PutAlloc(q.allocs, id, Begun(wants && !Switching(q), sync), false);
  }

  lemma {:induction false} ReadSafe(q: Queue, id: nat)
    requires Safe(q) && Enabled(q, ReadElevator(id))
    ensures Safe(Next(q, ReadElevator(id)))
  {
    var a := Setting(q.allocs[id].sync, q.elevator);
    assert PrivAllocs(q.allocs[id := a]) == PrivAllocs(q.allocs);
    assert Allocs(q.allocs[id := a], true) == Allocs(q.allocs, true);
    assert Allocs(q.allocs[id := a], false) == Allocs(q.allocs, false);
  }

  lemma {:induction false} FinishSafe(q: Queue, id: nat)
    requires Safe(q) && Enabled(q, Finish(id))
    ensures Safe(Next(q, Finish(id)))
  {
    var a := q.allocs[id];
    var r := Live(HasPriv(a), a.sync, if a.Setting? then a.owner else 0);
    DropAlloc(q.allocs, id, true);
    DropAlloc(q.allocs, id, false);
    PutLive(q.live, id, r, true);
    PutLive(q.live, id, r, false);
  }

  lemma {:induction false} FailSafe(q: Queue, id: nat)
    requires Safe(q) && Enabled(q, Fail(id))
    ensures Safe(Next(q, Fail(id)))
  {
    DropAlloc(q.allocs, id, true);
    DropAlloc(q.allocs, id, false);
  }

  lemma {:induction false} FreeSafe(q: Queue, id: nat)
    requires Safe(q) && Enabled(q, Free(id))
    ensures Safe(Next(q, Free(id)))
  {
    DropLive(q.live, id, true);
    DropLive(q.live, id, false);
  }

  // ----- switching

  /** Without scheduler data there is nothing the attached scheduler could be wrong for. */
  lemma {:induction false} NobodyOwned(q: Queue, e: nat)
    requires PrivOk(q) && q.elvpriv == 0
    ensures OwnedOk(q.(elevator := e))
  {
    assert PrivAllocs(q.allocs) == {} && PrivLive(q.live) == {};
    assert forall id :: id in q.allocs && q.allocs[id].Setting? ==> id in PrivAllocs(q.allocs);
    assert forall id :: id in q.live && q.live[id].priv ==> id in PrivLive(q.live);
  }

  lemma {:induction false} SwitchSafe(q: Queue, s: Step)
    requires Safe(q) && Enabled(q, s) && (s.QuiesceStart? || s.Attach? || s.QuiesceEnd? || s.ExitNew? || s.Reattach?)
    ensures Safe(Next(q, s))
  {
    match s
    case QuiesceStart(e) =>
    case Attach => NobodyOwned(q, q.phase.coming);
    case QuiesceEnd =>
    case ExitNew =>
    case Reattach => NobodyOwned(q, q.phase.leaving);
  }

  /** Every step keeps the protocol safe. */
  lemma {:induction false} StepSafe(q: Queue, s: Step)
    requires Safe(q) && Enabled(q, s)
    ensures Safe(Next(q, s))
  {
    match s
    case Begin(id, sync, wants) => BeginSafe(q, id, sync, wants);
    case ReadElevator(id) => ReadSafe(q, id);
    case Finish(id) => FinishSafe(q, id);
    case Fail(id) => FailSafe(q, id);
    case Free(id) => FreeSafe(q, id);
    case QuiesceStart(e) => SwitchSafe(q, s);
    case Attach => SwitchSafe(q, s);
    case QuiesceEnd => SwitchSafe(q, s);
    case ExitNew => SwitchSafe(q, s);
    case Reattach => SwitchSafe(q, s);
  }

  // ----- runs

  predicate Runs(q: Queue, ss: seq<Step>)
    decreases |ss|
  {
    ss == [] || (Enabled(q, ss[0]) && Runs(Next(q, ss[0]), ss[1..]))
  }

  function After(q: Queue, ss: seq<Step>): Queue
    requires Runs(q, ss)
    decreases |ss|
  {
    if ss == [] then q else After(Next(q, ss[0]), ss[1..])
  }

  predicate Initial(q: Queue) {
    && q.phase.Running? && q.syncs == 0 && q.asyncs == 0 && q.elvpriv == 0
    && q.allocs == map[] && q.live == map[] && q.exited == {}
  }

  lemma {:induction false} RunSafe(q: Queue, ss: seq<Step>)
    requires Safe(q) && Runs(q, ss)
    ensures Safe(After(q, ss))
    decreases |ss|
  {
    if ss != [] {
      StepSafe(q, ss[0]);
      RunSafe(Next(q, ss[0]), ss[1..]);
    }
  }

  lemma {:induction false} InitialSafe(q: Queue)
    requires Initial(q)
    ensures Safe(q)
  {
    assert PrivAllocs(q.allocs) == {} && PrivLive(q.live) == {};
    assert Allocs(q.allocs, true) == {} && Allocs(q.allocs, false) == {};
    assert Lives(q.live, true) == {} && Lives(q.live, false) == {};
  }

  /** Under every interleaving, each request with scheduler data was set up by the
      scheduler now attached, and elvpriv counts exactly these requests and the
      allocations in progress that may get such data. The attached scheduler has not been
      shut down, except on the way back to the old one. */
  lemma {:induction false} EveryInterleaving(q: Queue, ss: seq<Step>)
    requires Initial(q) && Runs(q, ss)
    ensures var t := After(q, ss);
            && (forall id :: id in t.live && t.live[id].priv ==> t.live[id].owner == t.elevator)
            && t.elvpriv == |PrivAllocs(t.allocs)| + |PrivLive(t.live)|
            && (t.elevator in t.exited <==> t.phase.Reverting?)
            && t.syncs <= 3 * t.nrRequests / 2 && t.asyncs <= 3 * t.nrRequests / 2
  {
    InitialSafe(q);
    RunSafe(q, ss);
  }

  /** A request with scheduler data keeps every switch waiting, so it is freed by the
      scheduler that set it up, and that one has not been shut down. */
  lemma {:induction false} FreedByOwner(q: Queue, ss: seq<Step>, id: nat)
    requires Initial(q) && Runs(q, ss) && id in After(q, ss).live && After(q, ss).live[id].priv
    ensures var t := After(q, ss);
            && t.live[id].owner == t.elevator && t.elevator !in t.exited
            && !Enabled(t, Attach) && (t.phase.Running? || t.phase.Draining?)
  {
    InitialSafe(q);
    RunSafe(q, ss);
    assert id in PrivLive(After(q, ss).live);
  }

  /** While a switch waits, elvpriv never grows, and it falls with every request or
      allocation with scheduler data that ends; at zero the switch can go on. */
  lemma {:induction false} DrainingFalls(q: Queue, s: Step)
    requires Safe(q) && Enabled(q, s) && q.phase.Draining? && !s.Attach?
    ensures var t := Next(q, s);
            && t.phase == q.phase && t.elvpriv <= q.elvpriv
            && (s.Free? && q.live[s.id].priv ==> t.elvpriv == q.elvpriv - 1)
            && (s.Fail? && HasPriv(q.allocs[s.id]) ==> t.elvpriv == q.elvpriv - 1)
            && (t.elvpriv == 0 ==> Enabled(t, Attach))
  {
    if s.Free? && q.live[s.id].priv { assert s.id in PrivLive(q.live); }
    if s.Fail? && HasPriv(q.allocs[s.id]) { assert s.id in PrivAllocs(q.allocs); }
  }

  // ----- what the steps say

  function Last(ss: seq<Step>): Step
    requires ss != []
  {
    ss[|ss| - 1]
  }

  function Init(ss: seq<Step>): seq<Step>
    requires ss != []
  {
    ss[..|ss| - 1]
  }

  /** A switch has been started and not ended. */
  predicate Open(ss: seq<Step>)
    decreases |ss|
  {
    ss != [] && (Last(ss).QuiesceStart? || (!Last(ss).QuiesceEnd? && !Last(ss).Reattach? && Open(Init(ss))))
  }

  /** The scheduler the last switch was asked for. */
  function Coming(ss: seq<Step>): nat
    decreases |ss|
  {
    if ss == [] then 0 else if Last(ss).QuiesceStart? then Last(ss).e else Coming(Init(ss))
  }

  /** The scheduler attached now, and the one that was before the last attachment; `e` was
      the first. */
  function Scheduler(ss: seq<Step>, e: nat): nat
    decreases |ss|
  {
    if ss == [] then e
    else if Last(ss).Attach? then Coming(Init(ss))
    else if Last(ss).Reattach? then Before(Init(ss), e)
    else Scheduler(Init(ss), e)
  }

  function Before(ss: seq<Step>, e: nat): nat
    decreases |ss|
  {
    if ss == [] then e else if Last(ss).Attach? then Scheduler(Init(ss), e) else Before(Init(ss), e)
  }

  /** The schedulers that have been shut down: the old one when a switch has ended, the new
      one when it has failed. */
  function Shut(ss: seq<Step>, e: nat): set<nat>
    decreases |ss|
  {
    if ss == [] then {}
    else if Last(ss).QuiesceEnd? then Shut(Init(ss), e) + {Before(Init(ss), e)}
    else if Last(ss).ExitNew? then Shut(Init(ss), e) + {Scheduler(Init(ss), e)}
    else Shut(Init(ss), e)
  }

  predicate Agrees(q: Queue, ss: seq<Step>, e: nat) {
    && q.elevator == Scheduler(ss, e) && q.exited == Shut(ss, e) && (Switching(q) <==> Open(ss))
    && (q.phase.Draining? ==> q.phase.coming == Coming(ss))
    && (q.phase.Attached? || q.phase.Reverting? ==> q.phase.leaving == Before(ss, e))
  }

  lemma {:induction false} RunLast(q: Queue, ss: seq<Step>)
    requires Runs(q, ss) && ss != []
    ensures Runs(q, Init(ss)) && Enabled(After(q, Init(ss)), Last(ss))
    ensures After(q, ss) == Next(After(q, Init(ss)), Last(ss))
    decreases |ss|
  {
    if |ss| == 1 {
      assert ss[1..] == [];
    } else {
      RunLast(Next(q, ss[0]), ss[1..]);
      assert Init(ss)[1..] == Init(ss[1..]);
    }
  }

  lemma {:induction false} StepAgrees(q: Queue, ss: seq<Step>, e: nat)
    requires ss != [] && Agrees(q, Init(ss), e) && Enabled(q, Last(ss))
    ensures Agrees(Next(q, Last(ss)), ss, e)
  {
  }

  /** Under every interleaving the scheduler attached and those shut down are what the steps
      of the switches say. */
  lemma {:induction false} SwitchExactly(q: Queue, ss: seq<Step>)
    requires Initial(q) && Runs(q, ss)
    ensures Agrees(After(q, ss), ss, q.elevator) && After(q, ss).nrRequests == q.nrRequests
    decreases |ss|
  {
    if ss != [] {
      RunLast(q, ss);
      SwitchExactly(q, Init(ss));
      StepAgrees(After(q, Init(ss)), ss, q.elevator);
    }
  }

  /** An allocation is refused exactly when the requests of its kind, allocated or on the
      way, are one and a half times the queue's; it may get scheduler data exactly when it
      wants to and no switch is going on. */
  lemma {:induction false} AllocExactly(q: Queue, ss: seq<Step>, id: nat, sync: bool, wants: bool)
    requires Initial(q) && Runs(q, ss) && id !in After(q, ss).allocs && id !in After(q, ss).live
    ensures var t := After(q, ss);
            && (Enabled(t, Begin(id, sync, wants)) <==>
                |Allocs(t.allocs, sync)| + |Lives(t.live, sync)| < 3 * q.nrRequests / 2)
            && (Enabled(t, Begin(id, sync, wants)) ==>
                  var a := Next(t, Begin(id, sync, wants)).allocs; id in a && (HasPriv(a[id]) <==> wants && !Open(ss)))
  {
    InitialSafe(q);
    RunSafe(q, ss);
    SwitchExactly(q, ss);
  }
}
