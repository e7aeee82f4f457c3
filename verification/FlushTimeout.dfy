/**
 When a flush is issued, over whole runs: one at a time (C1 of block/blk-flush.c), not
 while data of a sequence is in flight (C2), unless the oldest waiter has waited for the
 timeout (C3). The waiting times are those of the run itself: a request waits from the
 event that put it on the pending queue.
 */
module FlushTimeout {
  import opened Lists
  import opened BlockTypes
  import opened Completion
  import opened FlushSpec
  import opened FlushLists
  import opened FlushInvariants
  import opened FlushSteps
  import opened FlushRuns
  import opened FlushOrder

  /** Does the event complete stages of a sequenced request, and so ask for a flush? */
  predicate Moves(s: State, e: Event)
    requires Enabled(s, e)
  {
    match e
    case Submit(r, rq, flush, fua, now) =>
      var policy := Policy(s.caps, rq.dataLen >= SECTOR_SIZE, flush, fua);
      policy != {} && policy != {DATA}
    case Bytes(r, error, n, now) => s.reqs[r].rq.flushSeq && !UpdateRequest(s.limits, s.reqs[r].rq, error, n).more
    case Flushed(error, now) => true
    case _ => false
  }

  predicate Clocked(e: Event) { e.Submit? || e.Bytes? || e.Flushed? }

  function Time(e: Event): nat { if Clocked(e) then e.now else 0 }

  predicate TimedOut(s: State, now: nat) { now >= s.pendingSince + FLUSH_PENDING_TIMEOUT }

  // ----- one move

  /** A flush is issued if none is in flight, somebody waits, and no data is in flight or
      the time is up. */
  predicate Decides(s: State, t: State, now: nat) {
    Issued(s, t) <==>
    !InFlight(s) && QueueAt(t, s.pendingIdx) != [] && (t.dataInFlight == [] || TimedOut(t, now))
  }

  lemma {:induction false} MoveDecides(s: State, r: nat, done: set<Stage>, error: int, now: nat)
    requires r in s.reqs
    ensures Decides(s, CompleteSeq(s, r, done, error, now), now)
  {
    StageFrame(s, r, done, error, now);
    KickDecides(s, NextStage(s, r, done, error, now), now);
  }

  lemma {:induction false} KickDecides(s: State, t: State, now: nat)
    requires t.pendingIdx == s.pendingIdx && t.runningIdx == s.runningIdx
    ensures Decides(s, Kick(t, now), now)
  {
  }

  // ----- the pending queue

  /** Nobody leaves the pending queue but by a flush, which takes all of it, and whoever
      comes is last; the first to come sets the time. */
  predicate Lines(s: State, t: State, r: nat, now: nat) {
    if Issued(s, t) then Pending(t) == []
    else
      || (Pending(t) == Pending(s) && t.pendingSince == s.pendingSince)
      || (&& r !in Pending(s) && Pending(t) == Pending(s) + [r]
          && t.pendingSince == if Pending(s) == [] then now else s.pendingSince)
  }

  /** The same before a flush can be issued. */
  predicate Queuing(s: State, t: State, r: nat, now: nat) {
    t.pendingIdx == s.pendingIdx && t.runningIdx == s.runningIdx && Other(t) == Other(s) && Lines(s, t, r, now)
  }

  lemma {:induction false} StageLines(s: State, r: nat, f: FlushReq, error: int, now: nat)
    requires r !in s.queue0 && r !in s.queue1
    ensures Queuing(s, ToPending(s, r, f, now), r, now)
    ensures Queuing(s, ToData(s, r, f), r, now)
    ensures Queuing(s, Finish(s, r, f, error), r, now)
  {
    UnlinkIdle(s, r);
  }

  lemma {:induction false} KickLines(s: State, t: State, r: nat, now: nat)
    requires IndexOk(s) && Queuing(s, t, r, now)
    ensures Lines(s, Kick(t, now), r, now)
  {
  }

  lemma {:induction false} MoveLines(s: State, r: nat, done: set<Stage>, error: int, now: nat)
    requires r in s.reqs && IndexOk(s) && r !in s.queue0 && r !in s.queue1
    ensures Lines(s, CompleteSeq(s, r, done, error, now), r, now)
  {
    StageLines(s, r, s.reqs[r].(fseq := s.reqs[r].fseq + done), error, now);
    KickLines(s, NextStage(s, r, done, error, now), r, now);
  }

  // ----- submissions and data

  lemma {:induction false} EnterTimes(s: State, r: nat, f: FlushReq, done: set<Stage>, now: nat)
    requires IndexOk(s) && r !in s.queue0 && r !in s.queue1
    ensures var t := CompleteSeq(s.(reqs := s.reqs[r := f]), r, done, 0, now); Lines(s, t, r, now) && Decides(s, t, now)
  {
    MoveLines(s.(reqs := s.reqs[r := f]), r, done, 0, now);
    MoveDecides(s.(reqs := s.reqs[r := f]), r, done, 0, now);
  }

  lemma {:induction false} SubmitTimes(s: State, r: nat, rq: Request, flush: bool, fua: bool, now: nat)
    requires ListsOk(s) && IndexOk(s) && Submittable(s, r, rq, flush, fua)
    ensures var t := Insert(s, r, rq, flush, fua, now);
            && Lines(s, t, r, now)
            && if Moves(s, Submit(r, rq, flush, fua, now)) then Decides(s, t, now) else !Issued(s, t)
  {
    var policy := Policy(s.caps, rq.dataLen >= SECTOR_SIZE, flush, fua);
    if policy != {} && policy != {DATA} {
      NotWaiting(s, r);
      EnterTimes(s, r, Submitted(s, rq, flush, fua, true), ACTIONS - policy, now);
    }
  }

  lemma {:induction false} LandedTimes(s: State, r: nat, rq: Request, error: int, now: nat)
    requires ListsOk(s) && IndexOk(s) && r in s.reqs && !Waits(s.reqs[r])
    ensures var t := CompleteSeq(Landed(s, r, rq), r, {DATA}, error, now); Lines(s, t, r, now) && Decides(s, t, now)
  {
    NotWaiting(s, r);
    MoveLines(Landed(s, r, rq), r, {DATA}, error, now);
    MoveDecides(Landed(s, r, rq), r, {DATA}, error, now);
  }

  lemma {:induction false} PlainTimes(s: State, r: nat, error: int, n: nat, now: nat)
    requires r in s.reqs && OneBio(s.reqs[r].rq) && !s.reqs[r].rq.flushSeq
    ensures var t := DataDone(s, r, error, n, now); Lines(s, t, r, now) && !Issued(s, t)
  {
  }

  lemma {:induction false} BytesTimes(s: State, r: nat, error: int, n: nat, now: nat)
    requires ListsOk(s) && ReqsOk(s) && IndexOk(s) && Enabled(s, Bytes(r, error, n, now))
    ensures var t := DataDone(s, r, error, n, now);
            && Lines(s, t, r, now)
            && if Moves(s, Bytes(r, error, n, now)) then Decides(s, t, now) else !Issued(s, t)
  {
    if !s.reqs[r].rq.flushSeq {
      PlainTimes(s, r, error, n, now);
    } else if UpdateRequest(s.limits, s.reqs[r].rq, error, n).more {
      DataMoreIs(s, r, error, n, now);
    } else {
      DataLastIs(s, r, error, n, now);
      LandedTimes(s, r, UpdateRequest(s.limits, s.reqs[r].rq, error, n).rq, error, now);
    }
  }

  // ----- flush completions

  /** What pushing one request does to the data in flight and to the time. */
  predicate Pushes(s: State, t: State, r: nat) {
    t.pendingSince == s.pendingSince && (t.dataInFlight == s.dataInFlight || t.dataInFlight == s.dataInFlight + [r])
  }

  lemma {:induction false} PushData(s: State, idx: bool, waiting: seq<nat>, error: int, now: nat)
    requires Pushing(s, idx, waiting, error) && waiting != [] && waiting[0] in s.reqs
    ensures Pushes(s, CompleteSeq(s, waiting[0], {CurStage(s.reqs[waiting[0]].fseq)}, error, now), waiting[0])
    ensures waiting[0] !in s.dataInFlight
  {
    var r := waiting[0];
    PushMovable(s, idx, waiting, error);
    assert r !in Writing(s.reqs);
    assert r !in Elems(s.dataInFlight);
    WithoutAbsent(s.dataInFlight, r);
    StagePushes(s, r, {CurStage(s.reqs[r].fseq)}, error, now);
    KickPushes(s, NextStage(s, r, {CurStage(s.reqs[r].fseq)}, error, now), r, now);
  }

  lemma {:induction false} StagePushes(s: State, r: nat, done: set<Stage>, error: int, now: nat)
    requires r in s.reqs && Without(s.dataInFlight, r) == s.dataInFlight
    requires error == 0 ==> CurStage(s.reqs[r].fseq + done) == DATA || CurStage(s.reqs[r].fseq + done) == DONE
    ensures Pushes(s, NextStage(s, r, done, error, now), r)
  {
  }

  lemma {:induction false} KickPushes(s: State, t: State, r: nat, now: nat)
    requires Pushes(s, t, r)
    ensures Pushes(s, Kick(t, now), r)
  {
  }

  /** The loop of flush_end_io adds requests it pushes to the data in flight, and no others. */
  predicate Gains(s: State, t: State, waiting: seq<nat>) {
    && t.pendingSince == s.pendingSince
    && (forall x :: x in s.dataInFlight ==> x in t.dataInFlight)
    && (forall x :: x in t.dataInFlight ==> x in s.dataInFlight || x in waiting)
  }

  lemma {:induction false} GainsNext(s: State, m: State, t: State, waiting: seq<nat>)
    requires waiting != [] && Pushes(s, m, waiting[0]) && Gains(m, t, waiting[1..])
    ensures Gains(s, t, waiting)
  {
  }

  /** The first push decides: data in flight only comes, and the time is the same. */
  lemma {:induction false} PushDecides(s: State, idx: bool, waiting: seq<nat>, error: int, now: nat)
    requires Pushing(s, idx, waiting, error)
    ensures var t := Push(s, waiting, error, now);
            && Gains(s, t, waiting) && QueueAt(t, idx) == [] && QueueAt(t, !idx) == QueueAt(s, !idx)
            && t.runningIdx == s.runningIdx
            && (s.dataInFlight != [] || waiting == [] || QueueAt(s, !idx) == [] || InFlight(s) ==>
                  (InFlight(t) <==> InFlight(s) || (waiting != [] && QueueAt(s, !idx) != [] && TimedOut(s, now))))
    decreases |waiting|
  {
    if waiting != [] {
      var r := waiting[0];
      PushStep(s, idx, waiting, error, now);
      PushData(s, idx, waiting, error, now);
      PushMovable(s, idx, waiting, error);
      OnQueue(s, idx, r);
      var done := {CurStage(s.reqs[r].fseq)};
      var m := CompleteSeq(s, r, done, error, now);
      PushOther(s, idx, r, done, error, now);
      MoveDecides(s, r, done, error, now);
      PushDecides(m, idx, waiting[1..], error, now);
      GainsNext(s, m, Push(s, waiting, error, now), waiting);
    }
  }

  /** With no data in flight, the flush is issued unless the first push adds some. */
  lemma {:induction false} PushFirst(s: State, idx: bool, waiting: seq<nat>, error: int, now: nat)
    requires Pushing(s, idx, waiting, error) && waiting != [] && !InFlight(s) && s.dataInFlight == []
    requires QueueAt(s, !idx) != []
    ensures var t := Push(s, waiting, error, now);
            InFlight(t) <==> waiting[0] !in t.dataInFlight || TimedOut(s, now)
  {
    var r := waiting[0];
    PushStep(s, idx, waiting, error, now);
    PushData(s, idx, waiting, error, now);
    PushMovable(s, idx, waiting, error);
    OnQueue(s, idx, r);
    Uncons(waiting);
    var done := {CurStage(s.reqs[r].fseq)};
    var m := CompleteSeq(s, r, done, error, now);
    PushOther(s, idx, r, done, error, now);
    MoveDecides(s, r, done, error, now);
    PushDecides(m, idx, waiting[1..], error, now);
  }

  /** A flush completes and the next one goes out at once: somebody waits for it, and the
      time is up, or no data was in flight when the first request was pushed on. */
  predicate GoesOn(s: State, t: State, now: nat) {
    && Pending(s) != []
    && (TimedOut(s, now) || (s.dataInFlight == [] && Other(s) != [] && Other(s)[0] !in t.dataInFlight))
  }

  lemma {:induction false} FlushedTimes(s: State, error: int, now: nat)
    requires Valid(s) && s.flushStarted
    ensures var t := FlushDone(s, error, now);
            && (Issued(s, t) <==> GoesOn(s, t, now)) && Gains(s, t, Other(s))
            && (if Issued(s, t) then Pending(t) == [] else Pending(t) == Pending(s))
  {
    var f := Finishing(s, error);
    FinishingPushes(s, error);
    PushDecides(f, !s.pendingIdx, Other(s), error, now);
    if f.dataInFlight == [] && Pending(s) != [] { PushFirst(f, !s.pendingIdx, Other(s), error, now); }
  }

  // ----- every step

  /** Exactly when a step issues a flush. */
  predicate IssueRule(s: State, t: State, e: Event)
    requires Enabled(s, e)
  {
    match e
    case Flushed(error, now) => Issued(s, t) <==> GoesOn(s, t, now)
    case _ => if Moves(s, e) then Decides(s, t, e.now) else !Issued(s, t)
  }

  /** The pending queue over one step. */
  predicate LineRule(s: State, t: State, e: Event) {
    if e.Submit? || e.Bytes? then Lines(s, t, e.r, e.now)
    else if Issued(s, t) then Pending(t) == []
    else Pending(t) == Pending(s) && t.pendingSince == s.pendingSince
  }

  /** What the lemmas above say of a submission, and of data. */
  lemma {:induction false} MovedRules(s: State, t: State, e: Event)
    requires Enabled(s, e) && (e.Submit? || e.Bytes?) && Lines(s, t, e.r, e.now)
    requires if Moves(s, e) then Decides(s, t, e.now) else !Issued(s, t)
    ensures IssueRule(s, t, e) && LineRule(s, t, e)
  {
  }

  lemma {:induction false} FlushedRules(s: State, error: int, now: nat)
    requires Valid(s) && s.flushStarted
    ensures IssueRule(s, FlushDone(s, error, now), Flushed(error, now))
    ensures LineRule(s, FlushDone(s, error, now), Flushed(error, now))
  {
    FlushedTimes(s, error, now);
  }

  lemma {:induction false} OtherRules(s: State, w: nat)
    ensures IssueRule(s, WriteDone(s, w, false), Elsewhere(w)) && LineRule(s, WriteDone(s, w, false), Elsewhere(w))
    ensures s.queueHead != [] ==> IssueRule(s, Start(s), Begin) && LineRule(s, Start(s), Begin)
  {
  }

  lemma {:induction false} StepTimes(s: State, e: Event)
    requires Valid(s) && Enabled(s, e)
    ensures IssueRule(s, Step(s, e), e) && LineRule(s, Step(s, e), e)
  {
    match e
    case Submit(r, rq, flush, fua, now) =>
      SubmitTimes(s, r, rq, flush, fua, now);
      MovedRules(s, Insert(s, r, rq, flush, fua, now), e);
    case Begin => OtherRules(s, 0);
    case Bytes(r, error, n, now) =>
      BytesTimes(s, r, error, n, now);
      MovedRules(s, DataDone(s, r, error, n, now), e);
    case Flushed(error, now) => FlushedRules(s, error, now);
    case Elsewhere(w) => OtherRules(s, w);
  }

  lemma {:induction false} HeldFlushed(s: State, t: State, error: int, now: nat)
    requires Valid(s) && s.flushStarted && t == FlushDone(s, error, now) && !InFlight(t) && Pending(t) != []
    ensures t.dataInFlight != [] && !TimedOut(t, now)
  {
    FlushedTimes(s, error, now);
    FlushedJoins(s, error, now, 0);
    assert s.dataInFlight != [] ==> s.dataInFlight[0] in t.dataInFlight;
  }

  lemma {:induction false} HeldMove(s: State, t: State, now: nat)
    requires Decides(s, t, now) && t.runningIdx == s.runningIdx && !InFlight(t) && Pending(t) != []
    ensures t.dataInFlight != [] && !TimedOut(t, now)
  {
  }

  /** After a step that asks for a flush, somebody waits without one in flight only while
      data is in flight and the time is not up. */
  lemma {:induction false} HeldBack(s: State, t: State, e: Event)
    requires Valid(s) && Enabled(s, e) && t == Step(s, e) && Moves(s, e) && !InFlight(t) && Pending(t) != []
    ensures t.dataInFlight != [] && !TimedOut(t, e.now)
  {
    if e.Flushed? {
      HeldFlushed(s, t, e.error, e.now);
    } else {
      StepTimes(s, e);
      StepJoins(s, e, 0);
      HeldMove(s, t, e.now);
    }
  }

  // ----- runs

  /** In every run, a flush is issued exactly when the rule says. */
  lemma {:induction false} IssueExactly(s: State, es: seq<Event>, e: Event)
    requires Initial(s) && Runs(s, es) && Enabled(After(s, es), e)
    ensures IssueRule(After(s, es), Step(After(s, es), e), e)
  {
    InitialValid(s);
    RunValid(s, es);
    StepTimes(After(s, es), e);
  }

  /** The time of the last event before which `x` was not on the pending queue. */
  function JoinTime(s: State, es: seq<Event>, x: nat): nat
    requires Runs(s, es)
    decreases |es|
  {
    if es == [] then 0
    else
      RunLast(s, es);
      var n := |es| - 1;
      if x in Pending(After(s, es[..n])) then JoinTime(s, es[..n], x) else Time(es[n])
  }

  /** The state before the last event of a run, and the step it makes. */
  lemma {:induction false} LastTimes(s: State, es: seq<Event>)
    requires Initial(s) && Runs(s, es) && es != []
    ensures var n := |es| - 1;
            && Runs(s, es[..n]) && Enabled(After(s, es[..n]), es[n]) && Valid(After(s, es[..n]))
            && After(s, es) == Step(After(s, es[..n]), es[n]) && LineRule(After(s, es[..n]), After(s, es), es[n])
  {
    var n := |es| - 1;
    RunLast(s, es);
    InitialValid(s);
    RunValid(s, es[..n]);
    StepTimes(After(s, es[..n]), es[n]);
  }

  /** flush_pending_since is the time since which the first of the pending queue waits. */
  lemma {:induction false} SinceFirst(s: State, es: seq<Event>)
    requires Initial(s) && Runs(s, es) && Pending(After(s, es)) != []
    ensures After(s, es).pendingSince == JoinTime(s, es, Pending(After(s, es))[0])
    decreases |es|
  {
    var n := |es| - 1;
    LastTimes(s, es);
    if Pending(After(s, es[..n])) != [] { SinceFirst(s, es[..n]); }
  }

  /** Time does not go back. */
  predicate Timely(es: seq<Event>) {
    forall i, j :: 0 <= i < j < |es| && Clocked(es[i]) && Clocked(es[j]) ==> Time(es[i]) <= Time(es[j])
  }

  lemma {:induction false} JoinedAt(s: State, es: seq<Event>, x: nat) returns (k: nat)
    requires Initial(s) && Runs(s, es) && x in Pending(After(s, es))
    ensures k < |es| && Clocked(es[k]) && JoinTime(s, es, x) == Time(es[k])
    decreases |es|
  {
    var n := |es| - 1;
    LastTimes(s, es);
    if x in Pending(After(s, es[..n])) { k := JoinedAt(s, es[..n], x); } else { k := n; }
  }

  /** Nobody on the pending queue has waited longer than the first. */
  lemma {:induction false} OldestFirst(s: State, es: seq<Event>, x: nat)
    requires Initial(s) && Runs(s, es) && Timely(es) && x in Pending(After(s, es))
    ensures After(s, es).pendingSince <= JoinTime(s, es, x)
    decreases |es|
  {
    var n := |es| - 1;
    LastTimes(s, es);
    var a := After(s, es[..n]);
    if x in Pending(a) {
      OldestFirst(s, es[..n], x);
    } else if Pending(a) != [] {
      SinceFirst(s, es[..n]);
      var k := JoinedAt(s, es[..n], Pending(a)[0]);
    }
  }

  /** No request is starved by data in flight: once it has waited for the timeout, the next
      step that moves any request finds or puts a flush in flight. */
  lemma {:induction false} NoStarvation(s: State, es: seq<Event>, e: Event, x: nat)
    requires Initial(s) && Runs(s, es + [e]) && Timely(es + [e])
    requires Runs(s, es) && Enabled(After(s, es), e) && Moves(After(s, es), e)
    requires x in Pending(After(s, es + [e])) && e.now >= JoinTime(s, es + [e], x) + FLUSH_PENDING_TIMEOUT
    ensures InFlight(After(s, es + [e]))
  {
    var fs := es + [e];
    assert fs[..|fs| - 1] == es;
    LastTimes(s, fs);
    OldestFirst(s, fs, x);
    if !InFlight(After(s, fs)) { HeldBack(After(s, es), After(s, fs), e); }
  }
}
