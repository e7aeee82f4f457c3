/**
 Runs of the sequencer: submissions, driver progress and flush completions in any
 order. Every reachable state is valid, so no bio is ended twice or too early and what
 REQ_FLUSH and REQ_FUA promise is on non-volatile media when a bio ends well; a flush
 only serves requests that waited when it was issued; and as long as the driver goes on,
 every request is finished after a bounded number of steps.
 */
module FlushRuns {
  import opened Lists
  import opened BlockTypes
  import opened Completion
  import opened FlushSpec
  import opened FlushLists
  import opened FlushInvariants
  import opened FlushSteps

  /** A submission, the driver taking the next entry of the dispatch queue, bytes of a
      started request completing, the flush completing, or a write that is not FLUSH/FUA
      completing. */
  datatype Event =
    | Submit(r: nat, rq: Request, flush: bool, fua: bool, now: nat)
    | Begin
    | Bytes(r: nat, error: int, n: nat, now: nat)
    | Flushed(error: int, now: nat)
    | Elsewhere(w: nat)

  predicate Enabled(s: State, e: Event) {
    match e
    case Submit(r, rq, flush, fua, now) => Submittable(s, r, rq, flush, fua)
    case Begin => s.queueHead != []
    case Bytes(r, error, n, now) => HasData(s, r) && OneBio(s.reqs[r].rq)
    case Flushed(error, now) => s.flushStarted
    case Elsewhere(w) => true
  }

  function Step(s: State, e: Event): State
    requires Enabled(s, e)
  {
    match e
    case Submit(r, rq, flush, fua, now) => Insert(s, r, rq, flush, fua, now)
    case Begin => Start(s)
    case Bytes(r, error, n, now) => DataDone(s, r, error, n, now)
    case Flushed(error, now) => FlushDone(s, error, now)
    case Elsewhere(w) => WriteDone(s, w, false)
  }

  predicate Runs(s: State, es: seq<Event>)
    decreases |es|
  {
    es == [] || (Enabled(s, es[0]) && Runs(Step(s, es[0]), es[1..]))
  }

  function After(s: State, es: seq<Event>): State
    requires Runs(s, es)
    decreases |es|
  {
    if es == [] then s else After(Step(s, es[0]), es[1..])
  }

  /** A queue that has seen no FLUSH/FUA request; earlier writes may be volatile. */
  predicate Initial(s: State) {
    && s.queue0 == [] && s.queue1 == [] && s.dataInFlight == [] && s.queueHead == []
    && s.pendingIdx == s.runningIdx && !s.flushStarted && s.reqs == map[] && s.gone == map[] && s.ended == []
    && s.dev.durable <= s.dev.completed && (!s.caps.flush ==> s.dev.durable == s.dev.completed)
  }

  lemma {:induction false} InitialValid(s: State)
    requires Initial(s)
    ensures Valid(s)
  {
    assert Waiting(s.reqs) == {} && Writing(s.reqs) == {} && Heads(s.reqs) == {};
  }

  lemma {:induction false} BytesValid(s: State, r: nat, error: int, n: nat, now: nat)
    requires Valid(s) && HasData(s, r)
    ensures Valid(DataDone(s, r, error, n, now))
  {
    if UpdateRequest(s.limits, s.reqs[r].rq, error, n).more {
      DataMoreValid(s, r, error, n, now);
    } else if s.reqs[r].rq.flushSeq {
      DataLastValid(s, r, error, n, now);
    } else {
      PlainLastValid(s, r, error, n, now);
    }
  }

  lemma {:induction false} SubmitValid(s: State, r: nat, rq: Request, flush: bool, fua: bool, now: nat)
    requires Valid(s) && Submittable(s, r, rq, flush, fua)
    ensures Valid(Insert(s, r, rq, flush, fua, now))
  {
    var policy := Policy(s.caps, rq.dataLen >= SECTOR_SIZE, flush, fua);
    if policy == {} {
      InsertNothingValid(s, r, rq, flush, fua, now);
    } else if policy == {DATA} {
      InsertPlainValid(s, r, rq, flush, fua, now);
    } else {
      InsertSequencedValid(s, r, rq, flush, fua, now);
    }
  }

  lemma {:induction false} StartValid(s: State)
    requires Valid(s) && s.queueHead != []
    ensures Valid(Start(s))
  {
    match s.queueHead[0]
    case FlushRq => StartFlushValid(s);
    case Rq(r) => StartDataValid(s);
  }

  /** Every step keeps the invariant. */
  lemma {:induction false} StepValid(s: State, e: Event)
    requires Valid(s) && Enabled(s, e)
    ensures Valid(Step(s, e))
  {
    match e
    case Submit(r, rq, flush, fua, now) => SubmitValid(s, r, rq, flush, fua, now);
    case Begin => StartValid(s);
    case Bytes(r, error, n, now) => BytesValid(s, r, error, n, now);
    case Flushed(error, now) => FlushDoneValid(s, error, now);
    case Elsewhere(w) => OtherWriteValid(s, w);
  }

  lemma {:induction false} RunValid(s: State, es: seq<Event>)
    requires Valid(s) && Runs(s, es)
    ensures Valid(After(s, es))
    decreases |es|
  {
    if es != [] {
      StepValid(s, es[0]);
      RunValid(Step(s, es[0]), es[1..]);
    }
  }

  // ----- what a reachable state guarantees

  /** A bio ended without error: its REQ_FLUSH or REQ_FUA has been honoured. */
  lemma {:induction false} EveryEndDurable(s: State, es: seq<Event>, e: End)
    requires Initial(s) && Runs(s, es) && e in After(s, es).ended && e.error == 0
    ensures var t := After(s, es);
            && e.bio in t.gone
            && (t.gone[e.bio].flush ==> t.gone[e.bio].before <= t.dev.durable)
            && (t.gone[e.bio].fua && t.gone[e.bio].data ==> e.bio in t.dev.durable)
            && (t.gone[e.bio].rq.flushSeq ==> ACTIONS <= t.gone[e.bio].fseq)
  {
    InitialValid(s);
    RunValid(s, es);
  }

  /** A request's data goes to the driver only when everything completed before its
      submission is durable, if it carries REQ_FLUSH. */
  lemma {:induction false} DataAfterPreflush(s: State, es: seq<Event>, r: nat)
    requires Initial(s) && Runs(s, es) && r in After(s, es).reqs && Rq(r) in After(s, es).queueHead
    ensures var t := After(s, es); t.reqs[r].flush ==> t.reqs[r].before <= t.dev.durable
  {
    InitialValid(s);
    RunValid(s, es);
    var t := After(s, es);
    HeadsUpdate(t.reqs, r, t.reqs[r]);
    assert Rq(r) in Elems(t.queueHead);
    assert Covered(t.dev, r, t.reqs[r]);
  }

  lemma {:induction false} DistinctOnce<T>(s: seq<T>, x: T)
    requires Distinct(s)
    ensures multiset(s)[x] == if x in s then 1 else 0
  {
    if s != [] {
      DistinctOnce(s[1..], x);
      assert s == [s[0]] + s[1..];
    }
  }

  /** Each bio is ended exactly once, and not while its request lives. */
  lemma {:induction false} EndedOnce(s: State, es: seq<Event>, r: nat)
    requires Initial(s) && Runs(s, es)
    ensures var t := After(s, es);
            && (r in t.gone && HasBio(t.gone[r].rq) ==> multiset(EndIds(t.ended))[r] == 1)
            && (r in t.reqs ==> multiset(EndIds(t.ended))[r] == 0)
  {
    InitialValid(s);
    RunValid(s, es);
    var t := After(s, es);
    DistinctOnce(EndIds(t.ended), r);
    if r in t.reqs && r in EndIds(t.ended) { EndIdsMember(t.ended, r); }
  }

  // ----- what a move does to the requests

  /** One record is updated or finished, and at most two entries are queued. */
  predicate Moved(s: State, t: State, r: nat, f: FlushReq) {
    && |t.queueHead| <= |s.queueHead| + 2
    && (|| (t.reqs == s.reqs[r := f] && t.gone == s.gone)
        || (t.reqs == s.reqs - {r} && t.gone == s.gone[r := f]))
  }

  lemma {:induction false} StageMoves(s: State, r: nat, f: FlushReq, error: int, now: nat)
    ensures |ToPending(s, r, f, now).queueHead| == |s.queueHead|
    ensures |ToData(s, r, f).queueHead| == |s.queueHead| + 1
    ensures |Finish(s, r, f, error).queueHead| == |s.queueHead|
    ensures ToPending(s, r, f, now).reqs == s.reqs[r := f] && ToPending(s, r, f, now).gone == s.gone
    ensures ToData(s, r, f).reqs == s.reqs[r := f] && ToData(s, r, f).gone == s.gone
    ensures Finish(s, r, f, error).reqs == s.reqs - {r} && Finish(s, r, f, error).gone == s.gone[r := f]
  {
  }

  lemma {:induction false} KickMoves(s: State, now: nat)
    ensures var t := Kick(s, now); t.reqs == s.reqs && t.gone == s.gone && |t.queueHead| <= |s.queueHead| + 1
  {
  }

  lemma {:induction false} MoveIs(s: State, r: nat, done: set<Stage>, error: int, now: nat)
    requires r in s.reqs
    ensures Moved(s, CompleteSeq(s, r, done, error, now), r, s.reqs[r].(fseq := s.reqs[r].fseq + done))
  {
    StageMoves(s, r, s.reqs[r].(fseq := s.reqs[r].fseq + done), error, now);
    KickMoves(NextStage(s, r, done, error, now), now);
  }

  // ----- which flush serves whom

  lemma {:induction false} MoveRiders(s: State, r: nat, done: set<Stage>, error: int, now: nat)
    requires r in s.reqs && InFlight(s) && r !in s.queue0 && r !in s.queue1
    ensures var t := CompleteSeq(s, r, done, error, now); InFlight(t) && Other(t) == Other(s)
  {
    UnlinkIdle(s, r);
    StageFrame(s, r, done, error, now);
    assert Other(NextStage(s, r, done, error, now)) == Other(Unlink(s, r));
  }

  lemma {:induction false} SubmitIs(s: State, r: nat, rq: Request, flush: bool, fua: bool, now: nat)
    requires Submittable(s, r, rq, flush, fua)
    ensures var policy := Policy(s.caps, rq.dataLen >= SECTOR_SIZE, flush, fua);
            var t := Insert(s, r, rq, flush, fua, now);
            if policy == {} || policy == {DATA} then
              t.queue0 == s.queue0 && t.queue1 == s.queue1 && t.pendingIdx == s.pendingIdx &&
                t.runningIdx == s.runningIdx
            else
              t == CompleteSeq(s.(reqs := s.reqs[r := Submitted(s, rq, flush, fua, true)]), r, ACTIONS - policy, 0, now)
  {
  }

  lemma {:induction false} SubmitRiders(s: State, r: nat, rq: Request, flush: bool, fua: bool, now: nat)
    requires ListsOk(s) && InFlight(s) && Submittable(s, r, rq, flush, fua)
    ensures var t := Insert(s, r, rq, flush, fua, now); InFlight(t) && Other(t) == Other(s)
  {
    NotWaiting(s, r);
    SubmitIs(s, r, rq, flush, fua, now);
    var policy := Policy(s.caps, rq.dataLen >= SECTOR_SIZE, flush, fua);
    if policy != {} && policy != {DATA} {
      var t := s.(reqs := s.reqs[r := Submitted(s, rq, flush, fua, true)]);
      MoveRiders(t, r, ACTIONS - policy, 0, now);
    }
  }

  lemma {:induction false} StartRiders(s: State)
    requires s.queueHead != []
    ensures InFlight(Start(s)) == InFlight(s) && Other(Start(s)) == Other(s)
  {
  }

  lemma {:induction false} BytesRiders(s: State, r: nat, error: int, n: nat, now: nat)
    requires ListsOk(s) && ReqsOk(s) && InFlight(s) && HasData(s, r)
    ensures var t := DataDone(s, r, error, n, now); InFlight(t) && Other(t) == Other(s)
  {
    if UpdateRequest(s.limits, s.reqs[r].rq, error, n).more {
      DataMoreIs(s, r, error, n, now);
    } else if s.reqs[r].rq.flushSeq {
      DataLastIs(s, r, error, n, now);
      NotWaiting(s, r);
      MoveRiders(Landed(s, r, UpdateRequest(s.limits, s.reqs[r].rq, error, n).rq), r, {DATA}, error, now);
    }
  }

  /** While a flush is in flight nobody joins or leaves the requests it was issued for. */
  lemma {:induction false} StepRiders(s: State, e: Event)
    requires Valid(s) && Enabled(s, e) && InFlight(s) && !e.Flushed?
    ensures InFlight(Step(s, e)) && Other(Step(s, e)) == Other(s)
  {
    match e
    case Submit(r, rq, flush, fua, now) => SubmitRiders(s, r, rq, flush, fua, now);
    case Begin => StartRiders(s);
    case Bytes(r, error, n, now) => BytesRiders(s, r, error, n, now);
    case Elsewhere(w) =>
  }

  lemma {:induction false} PushOthers(s: State, idx: bool, waiting: seq<nat>, error: int, now: nat, x: nat)
    requires Pushing(s, idx, waiting, error) && x in s.reqs && x !in waiting
    ensures var t := Push(s, waiting, error, now); x in t.reqs && t.reqs[x] == s.reqs[x]
    decreases |waiting|
  {
    if waiting != [] {
      var r := waiting[0];
      PushStep(s, idx, waiting, error, now);
      StageFrame(s, r, {CurStage(s.reqs[r].fseq)}, error, now);
      PushOthers(CompleteSeq(s, r, {CurStage(s.reqs[r].fseq)}, error, now), idx, waiting[1..], error, now, x);
    }
  }

  /** A request pushed on is finished, or its data is on the way. */
  predicate Served(s: State, x: nat) {
    (x in s.gone && x !in s.reqs) || (x in s.reqs && Writes(s.reqs[x]))
  }

  lemma {:induction false} StageServes(s: State, r: nat, done: set<Stage>, error: int, now: nat)
    requires r in s.reqs && s.reqs[r].rq.flushSeq
    requires error == 0 ==> CurStage(s.reqs[r].fseq + done) == DATA || CurStage(s.reqs[r].fseq + done) == DONE
    ensures Served(CompleteSeq(s, r, done, error, now), r)
  {
  }

  lemma {:induction false} StageKeepsGone(s: State, r: nat, done: set<Stage>, error: int, now: nat, x: nat)
    requires r in s.reqs && x != r && x in s.gone && x !in s.reqs
    ensures var t := CompleteSeq(s, r, done, error, now); x in t.gone && x !in t.reqs
  {
    MoveIs(s, r, done, error, now);
  }

  lemma {:induction false} PushKeepsServed(s: State, idx: bool, waiting: seq<nat>, error: int, now: nat, x: nat)
    requires Pushing(s, idx, waiting, error) && x !in waiting && Served(s, x)
    ensures Served(Push(s, waiting, error, now), x)
    decreases |waiting|
  {
    if x in s.reqs {
      PushOthers(s, idx, waiting, error, now, x);
    } else if waiting != [] {
      var r := waiting[0];
      PushStep(s, idx, waiting, error, now);
      StageKeepsGone(s, r, {CurStage(s.reqs[r].fseq)}, error, now, x);
      PushKeepsServed(CompleteSeq(s, r, {CurStage(s.reqs[r].fseq)}, error, now), idx, waiting[1..], error, now, x);
    }
  }

  lemma {:induction false} PushServes(s: State, idx: bool, waiting: seq<nat>, error: int, now: nat, x: nat)
    requires Pushing(s, idx, waiting, error) && x in waiting
    ensures Served(Push(s, waiting, error, now), x)
    decreases |waiting|
  {
    var r := waiting[0];
    PushStep(s, idx, waiting, error, now);
    PushMovable(s, idx, waiting, error);
    var t := CompleteSeq(s, r, {CurStage(s.reqs[r].fseq)}, error, now);
    if x == r {
      StageServes(s, r, {CurStage(s.reqs[r].fseq)}, error, now);
      assert Distinct(waiting);
      PushKeepsServed(t, idx, waiting[1..], error, now, x);
    } else {
      PushServes(t, idx, waiting[1..], error, now, x);
    }
  }

  /** A completed flush moves on exactly the requests it was issued for. Each of them
      waited when it was issued, so that what they wait to see durable was complete by
      then; every other request is left as it is. */
  lemma {:induction false} FlushServes(s: State, error: int, now: nat, x: nat)
    requires Valid(s) && s.flushStarted && x in s.reqs
    ensures var t := FlushDone(s, error, now);
            if x in Other(s) then Waits(s.reqs[x]) && Need(x, s.reqs[x]) <= s.dev.issued <= s.dev.covered &&
              Served(t, x)
            else x in t.reqs && t.reqs[x] == s.reqs[x]
  {
    FinishingPushes(s, error);
    if x in Other(s) {
      OnQueue(s, !s.pendingIdx, x);
      PushServes(Finishing(s, error), !s.pendingIdx, Other(s), error, now, x);
    } else {
      PushOthers(Finishing(s, error), !s.pendingIdx, Other(s), error, now, x);
    }
  }

  // ----- no request is lost

  function Known(s: State): set<nat> { s.reqs.Keys + s.gone.Keys }

  lemma {:induction false} MovedKnown(s: State, t: State, r: nat, f: FlushReq)
    requires r in s.reqs && Moved(s, t, r, f)
    ensures Known(t) == Known(s)
  {
  }

  lemma {:induction false} PushKnown(s: State, waiting: seq<nat>, error: int, now: nat)
    ensures Known(Push(s, waiting, error, now)) == Known(s)
    decreases |waiting|
  {
    if waiting != [] && waiting[0] in s.reqs {
      var r := waiting[0];
      var t := CompleteSeq(s, r, {CurStage(s.reqs[r].fseq)}, error, now);
      MoveIs(s, r, {CurStage(s.reqs[r].fseq)}, error, now);
      MovedKnown(s, t, r, s.reqs[r].(fseq := s.reqs[r].fseq + {CurStage(s.reqs[r].fseq)}));
      PushKnown(t, waiting[1..], error, now);
    }
  }

  lemma {:induction false} LandedKnown(s: State, r: nat, rq: Request)
    requires r in s.reqs
    ensures Known(Landed(s, r, rq)) == Known(s)
  {
  }

  lemma {:induction false} BytesKnown(s: State, r: nat, error: int, n: nat, now: nat)
    requires ReqsOk(s) && HasData(s, r)
    ensures Known(DataDone(s, r, error, n, now)) == Known(s)
  {
    if UpdateRequest(s.limits, s.reqs[r].rq, error, n).more {
      DataMoreIs(s, r, error, n, now);
    } else if s.reqs[r].rq.flushSeq {
      DataLastIs(s, r, error, n, now);
      var t := Landed(s, r, UpdateRequest(s.limits, s.reqs[r].rq, error, n).rq);
      LandedKnown(s, r, UpdateRequest(s.limits, s.reqs[r].rq, error, n).rq);
      MoveIs(t, r, {DATA}, error, now);
      MovedKnown(t, CompleteSeq(t, r, {DATA}, error, now), r, t.reqs[r].(fseq := t.reqs[r].fseq + {DATA}));
    }
  }

  lemma {:induction false} SequencedKnown(s: State, r: nat, f: FlushReq, done: set<Stage>, now: nat)
    ensures Known(CompleteSeq(s.(reqs := s.reqs[r := f]), r, done, 0, now)) == Known(s) + {r}
  {
    var t := s.(reqs := s.reqs[r := f]);
    MoveIs(t, r, done, 0, now);
    MovedKnown(t, CompleteSeq(t, r, done, 0, now), r, f.(fseq := f.fseq + done));
  }

  lemma {:induction false} SubmitKnown(s: State, r: nat, rq: Request, flush: bool, fua: bool, now: nat)
    requires Submittable(s, r, rq, flush, fua)
    ensures Known(Insert(s, r, rq, flush, fua, now)) == Known(s) + {r}
  {
    var policy := Policy(s.caps, rq.dataLen >= SECTOR_SIZE, flush, fua);
    if policy != {} && policy != {DATA} {
      SubmitIs(s, r, rq, flush, fua, now);
      SequencedKnown(s, r, Submitted(s, rq, flush, fua, true), ACTIONS - policy, now);
    }
  }

  lemma {:induction false} StartKnown(s: State)
    requires s.queueHead != []
    ensures Known(Start(s)) == Known(s)
  {
  }

  lemma {:induction false} FlushKnown(s: State, error: int, now: nat)
    ensures Known(FlushDone(s, error, now)) == Known(s)
  {
    PushKnown(Finishing(s, error), Other(s), error, now);
  }

  /** Every request submitted so far is live or finished. */
  lemma {:induction false} StepKnown(s: State, e: Event)
    requires ReqsOk(s) && Enabled(s, e)
    ensures Known(Step(s, e)) == Known(s) + if e.Submit? then {e.r} else {}
  {
    match e
    case Submit(r, rq, flush, fua, now) => SubmitKnown(s, r, rq, flush, fua, now);
    case Begin => StartKnown(s);
    case Bytes(r, error, n, now) => BytesKnown(s, r, error, n, now);
    case Flushed(error, now) => FlushKnown(s, error, now);
    case Elsewhere(w) =>
  }

  // ----- progress

  /** The stages that live requests have not completed. */
  function Owed(reqs: map<nat, FlushReq>): set<(nat, Stage)> {
    set r, stage | r in reqs && stage in ACTIONS - reqs[r].fseq :: (r, stage)
  }

  function Measure(s: State): nat { 3 * |Owed(s.reqs)| + |s.queueHead| }

  lemma {:induction false} SmallerSet<T>(a: set<T>, b: set<T>)
    requires a <= b
    ensures |a| <= |b| && (a != b ==> |a| < |b|)
  {
    assert b == a + (b - a);
    assert |b| == |a| + |b - a|;
  }

  lemma {:induction false} MovedOwed(s: State, t: State, r: nat, f: FlushReq, stage: Stage)
    requires r in s.reqs && Moved(s, t, r, f)
    requires stage in ACTIONS - s.reqs[r].fseq && f.fseq == s.reqs[r].fseq + {stage}
    ensures Measure(t) < Measure(s)
  {
    assert (r, stage) in Owed(s.reqs) && (r, stage) !in Owed(t.reqs);
    SmallerSet(Owed(t.reqs), Owed(s.reqs));
  }

  /** Completing a stage pays for the entries it queues. */
  lemma {:induction false} MoveMeasure(s: State, r: nat, stage: Stage, error: int, now: nat)
    requires r in s.reqs && stage in ACTIONS - s.reqs[r].fseq
    ensures Measure(CompleteSeq(s, r, {stage}, error, now)) < Measure(s)
  {
    MoveIs(s, r, {stage}, error, now);
    MovedOwed(s, CompleteSeq(s, r, {stage}, error, now), r, s.reqs[r].(fseq := s.reqs[r].fseq + {stage}), stage);
  }

  lemma {:induction false} PushMeasure(s: State, idx: bool, waiting: seq<nat>, error: int, now: nat)
    requires Pushing(s, idx, waiting, error)
    ensures Measure(Push(s, waiting, error, now)) + |waiting| <= Measure(s)
    decreases |waiting|
  {
    if waiting != [] {
      var r := waiting[0];
      PushStep(s, idx, waiting, error, now);
      PushMovable(s, idx, waiting, error);
      MoveMeasure(s, r, CurStage(s.reqs[r].fseq), error, now);
      PushMeasure(CompleteSeq(s, r, {CurStage(s.reqs[r].fseq)}, error, now), idx, waiting[1..], error, now);
    }
  }

  lemma {:induction false} SameOwed(reqs: map<nat, FlushReq>, r: nat, f: FlushReq)
    requires r in reqs && f.fseq == reqs[r].fseq
    ensures Owed(reqs[r := f]) == Owed(reqs)
  {
    assert forall x :: x in reqs[r := f] ==> x in reqs && reqs[r := f][x].fseq == reqs[x].fseq;
  }

  lemma {:induction false} StartMeasure(s: State)
    requires s.queueHead != []
    ensures Measure(Start(s)) < Measure(s)
  {
    match s.queueHead[0]
    case FlushRq =>
    case Rq(r) => if r in s.reqs { SameOwed(s.reqs, r, s.reqs[r].(started := true)); }
  }

  lemma {:induction false} LeaveMeasure(s: State, r: nat, f: FlushReq, ended: seq<End>)
    requires r in s.reqs && s.reqs[r].fseq == {}
    ensures Measure(Leave(s, r, f, ended)) < Measure(s)
  {
    assert (r, DATA) in Owed(s.reqs) && (r, DATA) !in Owed(s.reqs - {r});
    SmallerSet(Owed(s.reqs - {r}), Owed(s.reqs));
  }

  lemma {:induction false} LandedMeasure(s: State, r: nat, rq: Request, error: int, now: nat)
    requires r in s.reqs && DATA !in s.reqs[r].fseq
    ensures Measure(CompleteSeq(Landed(s, r, rq), r, {DATA}, error, now)) < Measure(s)
  {
    SameOwed(s.reqs, r, s.reqs[r].(rq := rq));
    MoveMeasure(Landed(s, r, rq), r, DATA, error, now);
  }

  lemma {:induction false} BytesMeasure(s: State, r: nat, error: int, n: nat, now: nat)
    requires ReqsOk(s) && HasData(s, r) && !UpdateRequest(s.limits, s.reqs[r].rq, error, n).more
    ensures Measure(DataDone(s, r, error, n, now)) < Measure(s)
  {
    var f := s.reqs[r];
    var u := UpdateRequest(s.limits, f.rq, error, n);
    if f.rq.flushSeq {
      DataLastIs(s, r, error, n, now);
      LandedMeasure(s, r, u.rq, error, now);
    } else {
      LeaveMeasure(s, r, f, u.ended);
    }
  }

  /** The driver and the device go on: an entry is started, the flush completes, or all
      remaining data of a started request completes. */
  predicate Advances(s: State, e: Event) {
    && Enabled(s, e)
    && (e.Begin? || e.Flushed? || (e.Bytes? && !UpdateRequest(s.limits, s.reqs[e.r].rq, e.error, e.n).more))
  }

  lemma {:induction false} StepMeasure(s: State, e: Event)
    requires Valid(s) && Advances(s, e)
    ensures Measure(Step(s, e)) < Measure(s)
  {
    match e
    case Begin => StartMeasure(s);
    case Bytes(r, error, n, now) => BytesMeasure(s, r, error, n, now);
    case Flushed(error, now) =>
      FinishingPushes(s, error);
      PushMeasure(Finishing(s, error), !s.pendingIdx, Other(s), error, now);
  }

  /** Every event of the run advances. */
  predicate Driven(s: State, es: seq<Event>)
    requires Runs(s, es)
    decreases |es|
  {
    es == [] || (Advances(s, es[0]) && Driven(Step(s, es[0]), es[1..]))
  }

  /** The driver can only go on so long without a new submission. */
  lemma {:induction false} RunBounded(s: State, es: seq<Event>)
    requires Valid(s) && Runs(s, es) && Driven(s, es)
    ensures |es| <= Measure(s)
    decreases |es|
  {
    if es != [] {
      StepMeasure(s, es[0]);
      StepValid(s, es[0]);
      RunBounded(Step(s, es[0]), es[1..]);
    }
  }

  /** A request whose data is out can be started or has been. */
  lemma {:induction false} DataAdvances(s: State, r: nat)
    requires Valid(s) && r in s.reqs && (Writes(s.reqs[r]) || !s.reqs[r].rq.flushSeq)
    ensures exists e :: Advances(s, e)
  {
    var f := s.reqs[r];
    if f.started {
      FullCompletion(s.limits, f.rq, 0);
      assert Advances(s, Bytes(r, 0, f.rq.dataLen, 0));
    } else {
      HeadsUpdate(s.reqs, r, f);
      assert Rq(r) in Elems(s.queueHead);
      assert Advances(s, Begin);
    }
  }

  /** No deadlock: while a request lives, the driver has something to do. */
  lemma {:induction false} NeverStuck(s: State)
    requires Valid(s) && s.reqs != map[]
    ensures exists e :: Advances(s, e)
  {
    if s.dataInFlight != [] {
      assert s.dataInFlight[0] in Elems(s.dataInFlight);
      DataAdvances(s, s.dataInFlight[0]);
    } else if InFlight(s) {
      if s.flushStarted {
        assert Advances(s, Flushed(0, 0));
      } else {
        assert FlushRq in Elems(s.queueHead);
        assert Advances(s, Begin);
      }
    } else {
      assert Pending(s) == [] && Other(s) == [];
      assert Elems(s.queue0) == {} && Elems(s.queue1) == {};
      var r :| r in s.reqs;
      assert r !in Waiting(s.reqs);
      DataAdvances(s, r);
    }
  }

  /** A run that goes on until the driver has nothing to do finishes every request ever
      submitted, and has ended each of their bios exactly once. */
  lemma {:induction false} EveryRequestFinishes(s: State, es: seq<Event>, r: nat)
    requires Initial(s) && Runs(s, es) && Submits(es, r) && !exists e :: Advances(After(s, es), e)
    ensures var t := After(s, es);
            r in t.gone && (HasBio(t.gone[r].rq) ==> multiset(EndIds(t.ended))[r] == 1)
  {
    InitialValid(s);
    RunValid(s, es);
    RunKnown(s, es, r);
    EndedOnce(s, es, r);
    if After(s, es).reqs != map[] { NeverStuck(After(s, es)); }
  }

  predicate Submits(es: seq<Event>, r: nat) {
    exists i :: 0 <= i < |es| && es[i].Submit? && es[i].r == r
  }

  lemma {:induction false} RunKnown(s: State, es: seq<Event>, r: nat)
    requires Valid(s) && Runs(s, es) && (r in Known(s) || Submits(es, r))
    ensures r in Known(After(s, es))
    decreases |es|
  {
    if es != [] {
      StepKnown(s, es[0]);
      StepValid(s, es[0]);
      if r !in Known(Step(s, es[0])) {
        var i :| 0 <= i < |es| && es[i].Submit? && es[i].r == r;
        assert es[1..][i - 1] == es[i];
      }
      RunKnown(Step(s, es[0]), es[1..], r);
    }
  }
}
