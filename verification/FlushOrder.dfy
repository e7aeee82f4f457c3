/**
 The order of flushes and requests over whole runs: a request that a completing flush
 moves on was on the pending queue when that flush was issued, with its data complete if
 it waits for its POSTFLUSH. So the two queues never let a request ride a flush that was
 issued too early.
 */
module FlushOrder {
  import opened Lists
  import opened BlockTypes
  import opened Completion
  import opened FlushSpec
  import opened FlushLists
  import opened FlushInvariants
  import opened FlushSteps
  import opened FlushRuns

  /** blk_kick_flush has issued a flush between `s` and `t`: it toggles the pending index
      when it does, and nothing else changes it. */
  predicate Issued(s: State, t: State) { t.pendingIdx != s.pendingIdx }

  /** The event is a submission of `x` or the completion of its data, which queues it for
      its next flush before blk_kick_flush is called. */
  predicate Queues(e: Event, x: nat) { (e.Submit? || e.Bytes?) && e.r == x }

  // ----- who a new flush is issued for

  /** Only `r` may join before the kick. */
  predicate Joins(s: State, t: State, r: nat) {
    t.runningIdx == s.runningIdx && (Issued(s, t) ==> forall x :: x in Other(t) ==> x == r || x in Pending(s))
  }

  /** The indices stay, and only `r` may join the pending queue. */
  predicate Stays(s: State, t: State, r: nat) {
    && t.runningIdx == s.runningIdx && t.pendingIdx == s.pendingIdx
    && forall x :: x in Pending(t) ==> x == r || x in Pending(s)
  }

  lemma {:induction false} MovesStay(s: State, r: nat, f: FlushReq, error: int, now: nat)
    requires r !in s.queue0 && r !in s.queue1
    ensures Stays(s, ToPending(s, r, f, now), r)
    ensures Stays(s, ToData(s, r, f), r)
    ensures Stays(s, Finish(s, r, f, error), r)
  {
    UnlinkIdle(s, r);
  }

  lemma {:induction false} StageQueues(s: State, r: nat, done: set<Stage>, error: int, now: nat)
    requires r in s.reqs && r !in s.queue0 && r !in s.queue1
    ensures Stays(s, NextStage(s, r, done, error, now), r)
  {
    MovesStay(s, r, s.reqs[r].(fseq := s.reqs[r].fseq + done), error, now);
  }

  lemma {:induction false} KickJoins(s: State, t: State, r: nat, now: nat)
    requires Stays(s, t, r)
    ensures Joins(s, Kick(t, now), r)
  {
  }

  lemma {:induction false} MoveJoins(s: State, r: nat, done: set<Stage>, error: int, now: nat)
    requires r in s.reqs && r !in s.queue0 && r !in s.queue1
    ensures Joins(s, CompleteSeq(s, r, done, error, now), r)
  {
    StageQueues(s, r, done, error, now);
    KickJoins(s, NextStage(s, r, done, error, now), r, now);
  }

  lemma {:induction false} SubmitJoins(s: State, r: nat, rq: Request, flush: bool, fua: bool, now: nat)
    requires ListsOk(s) && Submittable(s, r, rq, flush, fua)
    ensures Joins(s, Insert(s, r, rq, flush, fua, now), r)
  {
    NotWaiting(s, r);
    SubmitIs(s, r, rq, flush, fua, now);
    var policy := Policy(s.caps, rq.dataLen >= SECTOR_SIZE, flush, fua);
    if policy != {} && policy != {DATA} {
      MoveJoins(s.(reqs := s.reqs[r := Submitted(s, rq, flush, fua, true)]), r, ACTIONS - policy, 0, now);
    }
  }

  lemma {:induction false} BytesJoins(s: State, r: nat, error: int, n: nat, now: nat)
    requires ListsOk(s) && ReqsOk(s) && HasData(s, r)
    ensures Joins(s, DataDone(s, r, error, n, now), r)
  {
    if UpdateRequest(s.limits, s.reqs[r].rq, error, n).more {
      DataMoreIs(s, r, error, n, now);
    } else if s.reqs[r].rq.flushSeq {
      DataLastIs(s, r, error, n, now);
      NotWaiting(s, r);
      LandedJoins(s, r, UpdateRequest(s.limits, s.reqs[r].rq, error, n).rq, error, now);
    }
  }

  lemma {:induction false} LandedJoins(s: State, r: nat, rq: Request, error: int, now: nat)
    requires r in s.reqs && r !in s.queue0 && r !in s.queue1
    ensures Joins(s, CompleteSeq(Landed(s, r, rq), r, {DATA}, error, now), r)
  {
    MoveJoins(Landed(s, r, rq), r, {DATA}, error, now);
  }

  /** The loop of flush_end_io puts nobody on the queue that is not being pushed. */
  lemma {:induction false} PushQueue(s: State, idx: bool, waiting: seq<nat>, error: int, now: nat)
    requires Pushing(s, idx, waiting, error)
    ensures var t := Push(s, waiting, error, now); QueueAt(t, !idx) == QueueAt(s, !idx) && t.runningIdx == s.runningIdx
    decreases |waiting|
  {
    if waiting != [] {
      var r := waiting[0];
      PushMovable(s, idx, waiting, error);
      OnQueue(s, idx, r);
      PushOther(s, idx, r, {CurStage(s.reqs[r].fseq)}, error, now);
      PushStep(s, idx, waiting, error, now);
      PushQueue(CompleteSeq(s, r, {CurStage(s.reqs[r].fseq)}, error, now), idx, waiting[1..], error, now);
    }
  }

  lemma {:induction false} PushOther(s: State, idx: bool, r: nat, done: set<Stage>, error: int, now: nat)
    requires r in s.reqs && s.runningIdx == !idx && (InFlight(s) ==> QueueAt(s, !idx) != [])
    requires QueueAt(s, idx) != [] && QueueAt(s, idx)[0] == r && Distinct(QueueAt(s, idx)) && r !in QueueAt(s, !idx)
    requires error == 0 ==> CurStage(s.reqs[r].fseq + done) == DATA || CurStage(s.reqs[r].fseq + done) == DONE
    ensures var t := CompleteSeq(s, r, done, error, now);
            QueueAt(t, !idx) == QueueAt(s, !idx) && t.runningIdx == s.runningIdx
  {
    PushQueues(s, idx, r, done, error, now);
    StageFrame(s, r, done, error, now);
    KickFrame(NextStage(s, r, done, error, now), idx, now);
  }

  /** A flush issued when another completes is for those that were pending. */
  lemma {:induction false} FlushedJoins(s: State, error: int, now: nat, x: nat)
    requires Valid(s) && s.flushStarted
    ensures RidesNext(s, FlushDone(s, error, now), Flushed(error, now), x)
  {
    FinishingPushes(s, error);
    PushQueue(Finishing(s, error), !s.pendingIdx, Other(s), error, now);
  }

  /** A flush issued by the event is for `x` only if `x` was pending, or is queued by it. */
  predicate RidesNext(s: State, t: State, e: Event, x: nat) {
    && (Issued(s, t) && x in Other(t) ==> x in Pending(s) || Queues(e, x))
    && t.runningIdx == if e.Flushed? then !s.runningIdx else s.runningIdx
  }

  lemma {:induction false} JoinsRides(s: State, t: State, e: Event, r: nat, x: nat)
    requires Joins(s, t, r) && (e.Submit? || e.Bytes?) && e.r == r
    ensures RidesNext(s, t, e, x)
  {
  }

  lemma {:induction false} StartRides(s: State, x: nat)
    requires s.queueHead != []
    ensures RidesNext(s, Start(s), Begin, x)
  {
  }

  lemma {:induction false} StepJoins(s: State, e: Event, x: nat)
    requires Valid(s) && Enabled(s, e)
    ensures RidesNext(s, Step(s, e), e, x)
  {
    match e
    case Submit(r, rq, flush, fua, now) =>
      SubmitJoins(s, r, rq, flush, fua, now);
      JoinsRides(s, Insert(s, r, rq, flush, fua, now), e, r, x);
    case Begin => StartRides(s, x);
    case Bytes(r, error, n, now) =>
      BytesJoins(s, r, error, n, now);
      JoinsRides(s, DataDone(s, r, error, n, now), e, r, x);
    case Flushed(error, now) => FlushedJoins(s, error, now, x);
    case Elsewhere(w) =>
  }

  // ----- a waiting request waits

  lemma {:induction false} MoveKeeps(s: State, r: nat, done: set<Stage>, error: int, now: nat, x: nat)
    requires r in s.reqs && x in s.reqs && x != r
    ensures var t := CompleteSeq(s, r, done, error, now); x in t.reqs && t.reqs[x] == s.reqs[x]
  {
    MoveIs(s, r, done, error, now);
  }

  lemma {:induction false} SubmitKeeps(s: State, r: nat, rq: Request, flush: bool, fua: bool, now: nat, x: nat)
    requires Submittable(s, r, rq, flush, fua) && x in s.reqs
    ensures var t := Insert(s, r, rq, flush, fua, now); x in t.reqs && t.reqs[x] == s.reqs[x]
  {
    var policy := Policy(s.caps, rq.dataLen >= SECTOR_SIZE, flush, fua);
    if policy != {} && policy != {DATA} {
      MoveKeeps(s.(reqs := s.reqs[r := Submitted(s, rq, flush, fua, true)]), r, ACTIONS - policy, 0, now, x);
    }
  }

  lemma {:induction false} BytesKeeps(s: State, r: nat, error: int, n: nat, now: nat, x: nat)
    requires ReqsOk(s) && HasData(s, r) && x in s.reqs && x != r
    ensures var t := DataDone(s, r, error, n, now); x in t.reqs && t.reqs[x] == s.reqs[x]
  {
    if UpdateRequest(s.limits, s.reqs[r].rq, error, n).more {
      DataMoreIs(s, r, error, n, now);
    } else if s.reqs[r].rq.flushSeq {
      DataLastIs(s, r, error, n, now);
      MoveKeeps(Landed(s, r, UpdateRequest(s.limits, s.reqs[r].rq, error, n).rq), r, {DATA}, error, now, x);
    }
  }

  lemma {:induction false} StartKeeps(s: State, x: nat)
    requires HeadOk(s) && s.queueHead != [] && x in s.reqs && Waits(s.reqs[x])
    ensures x in Start(s).reqs && Start(s).reqs[x] == s.reqs[x]
  {
    if s.queueHead[0].Rq? { HeadLive(s); }
  }

  /** Until a flush completes, a waiting request keeps its record. */
  lemma {:induction false} StepKeeps(s: State, e: Event, x: nat)
    requires Valid(s) && Enabled(s, e) && !e.Flushed? && x in s.reqs && Waits(s.reqs[x])
    ensures x in Step(s, e).reqs && Step(s, e).reqs[x] == s.reqs[x]
  {
    match e
    case Submit(r, rq, flush, fua, now) => SubmitKeeps(s, r, rq, flush, fua, now, x);
    case Begin => StartKeeps(s, x);
    case Bytes(r, error, n, now) => BytesKeeps(s, r, error, n, now, x);
    case Elsewhere(w) =>
  }

  // ----- runs

  /** The last step of a run. */
  lemma {:induction false} RunLast(s: State, es: seq<Event>)
    requires Runs(s, es) && es != []
    ensures var n := |es| - 1;
            Runs(s, es[..n]) && Enabled(After(s, es[..n]), es[n]) && After(s, es) == Step(After(s, es[..n]), es[n])
    decreases |es|
  {
    var n := |es| - 1;
    if n == 0 {
      assert es[1..] == [];
    } else {
      RunLast(Step(s, es[0]), es[1..]);
      assert es[..n][1..] == es[1..][..n - 1];
    }
  }

  /** Step `m` of the run issued a flush that request `x`, in the state `f`, was waiting
      for, and no flush has completed since. */
  ghost predicate IssuedFor(s: State, es: seq<Event>, m: nat, x: nat, f: FlushReq)
    requires Runs(s, es)
  {
    && m < |es| && Runs(s, es[..m]) && Runs(s, es[..m + 1])
    && Boards(After(s, es[..m]), After(s, es[..m + 1]), es[m], x, f)
    && forall n :: m < n < |es| ==> !es[n].Flushed?
  }

  /** The event issues a flush. Request `x`, in the state `f`, is on the queue it is for,
      and was there before or is put there by the event. */
  predicate Boards(a: State, b: State, e: Event, x: nat, f: FlushReq) {
    Issued(a, b) && x in Other(b) && (x in Pending(a) || Queues(e, x)) && x in b.reqs && b.reqs[x] == f
  }

  lemma {:induction false} IssuedLonger(s: State, es: seq<Event>, m: nat, x: nat, f: FlushReq)
    requires Runs(s, es) && es != [] && !es[|es| - 1].Flushed?
    requires Runs(s, es[..|es| - 1]) && IssuedFor(s, es[..|es| - 1], m, x, f)
    ensures IssuedFor(s, es, m, x, f)
  {
    var n := |es| - 1;
    assert es[..n][..m] == es[..m] && es[..n][..m + 1] == es[..m + 1];
  }

  lemma {:induction false} BoardsNow(a: State, e: Event, x: nat)
    requires Valid(a) && Enabled(a, e) && Valid(Step(a, e)) && Issued(a, Step(a, e)) && x in Other(Step(a, e))
    ensures x in Step(a, e).reqs && Boards(a, Step(a, e), e, x, Step(a, e).reqs[x])
  {
    StepJoins(a, e, x);
    OnQueue(Step(a, e), !Step(a, e).pendingIdx, x);
  }

  lemma {:induction false} IssuedHere(s: State, es: seq<Event>, x: nat, f: FlushReq)
    requires Runs(s, es) && es != [] && Runs(s, es[..|es| - 1])
    requires Boards(After(s, es[..|es| - 1]), After(s, es), es[|es| - 1], x, f)
    ensures IssuedFor(s, es, |es| - 1, x, f)
  {
    assert es[..|es| - 1 + 1] == es;
  }

  lemma {:induction false} IssuedLast(s: State, es: seq<Event>, x: nat)
    requires Initial(s) && Runs(s, es) && es != [] && Runs(s, es[..|es| - 1])
    requires Issued(After(s, es[..|es| - 1]), After(s, es)) && x in Other(After(s, es))
    ensures x in After(s, es).reqs && IssuedFor(s, es, |es| - 1, x, After(s, es).reqs[x])
  {
    var n := |es| - 1;
    InitialValid(s);
    RunValid(s, es[..n]);
    RunValid(s, es);
    RunLast(s, es);
    BoardsNow(After(s, es[..n]), es[n], x);
    IssuedHere(s, es, x, After(s, es).reqs[x]);
  }

  lemma {:induction false} EarlierRider(a: State, e: Event, x: nat)
    requires Valid(a) && Enabled(a, e) && InFlight(Step(a, e)) && x in Other(Step(a, e)) && !Issued(a, Step(a, e))
    ensures !e.Flushed? && InFlight(a) && x in Other(a)
    ensures x in a.reqs && Waits(a.reqs[x]) && x in Step(a, e).reqs && Step(a, e).reqs[x] == a.reqs[x]
  {
    StepJoins(a, e, x);
    StepRiders(a, e);
    OnQueue(a, !a.pendingIdx, x);
    StepKeeps(a, e, x);
  }

  /** Whoever is on the queue of the flush in flight was there when it was issued. */
  lemma {:induction false} RiderIssued(s: State, es: seq<Event>, x: nat) returns (m: nat)
    requires Initial(s) && Runs(s, es) && InFlight(After(s, es)) && x in Other(After(s, es))
    ensures x in After(s, es).reqs && IssuedFor(s, es, m, x, After(s, es).reqs[x])
    decreases |es|
  {
    var n := |es| - 1;
    RunLast(s, es);
    var a := After(s, es[..n]);
    if Issued(a, After(s, es)) {
      m := n;
      IssuedLast(s, es, x);
    } else {
      InitialValid(s);
      RunValid(s, es[..n]);
      EarlierRider(a, es[n], x);
      m := RiderIssued(s, es[..n], x);
      IssuedLonger(s, es, m, x, a.reqs[x]);
    }
  }

  /** A request that a completing flush moves on was waiting for it when it was issued: on
      the pending queue, for its PREFLUSH, or for its POSTFLUSH with its data complete. */
  lemma {:induction false} NoEarlyRide(s: State, es: seq<Event>, error: int, now: nat, x: nat) returns (m: nat)
    requires Initial(s) && Runs(s, es) && Enabled(After(s, es), Flushed(error, now)) && x in After(s, es).reqs
    requires var u := Step(After(s, es), Flushed(error, now)); x in u.reqs ==> u.reqs[x] != After(s, es).reqs[x]
    ensures var f := After(s, es).reqs[x];
            && IssuedFor(s, es, m, x, f)
            && (CurStage(f.fseq) == PREFLUSH || (CurStage(f.fseq) == POSTFLUSH && DATA in f.fseq))
  {
    var t := After(s, es);
    InitialValid(s);
    RunValid(s, es);
    FlushServes(t, error, now, x);
    OnQueue(t, !t.pendingIdx, x);
    m := RiderIssued(s, es, x);
  }
}
