/**
 What the driver is given, and in which order: the data of a sequence goes ahead of
 everything queued, a flush goes behind it, and only what a request and its device ask for
 is ever queued for a flush.
 */
module FlushHead {
  import opened BlockTypes
  import opened Completion
  import opened FlushSpec
  import opened FlushInvariants
  import opened FlushSteps
  import opened FlushRuns
  import opened FlushOrder
  import opened FlushTimeout

  // ----- stages

  /** In every run, a request waits for a flush before its data only if it carries REQ_FLUSH
      and the device has a cache, and for one after it only if it carries REQ_FUA and the
      device has a cache but does not support FUA; it is out for its data only if it has any;
      and a request that needs no flush is outside the sequence. */
  lemma {:induction false} StagesNeeded(s: State, es: seq<Event>, r: nat)
    requires Initial(s) && Runs(s, es) && r in After(s, es).reqs
    ensures var t, f := After(s, es), After(s, es).reqs[r];
            var pre, post := t.caps.flush && f.flush, t.caps.flush && !t.caps.fua && f.fua;
            if f.rq.flushSeq then
              && (CurStage(f.fseq) == PREFLUSH ==> pre) && (CurStage(f.fseq) == POSTFLUSH ==> post)
              && (CurStage(f.fseq) == DATA ==> f.data) && CurStage(f.fseq) != DONE
            else f.data && !pre && !post
  {
    InitialValid(s);
    RunValid(s, es);
    var t := After(s, es);
    var f := t.reqs[r];
    assert ReqOk(t.caps, r, f);
    var policy := Policy(t.caps, f.data, f.flush, f.fua);
    if f.rq.flushSeq {
      assert CurStage(f.fseq) in policy;
    } else {
      assert PREFLUSH !in policy && POSTFLUSH !in policy && DATA in policy;
    }
  }

  // ----- the dispatch queue

  /** `front` is data that is now in flight, `back` the flush if one has been issued. */
  predicate Grows(s: State, t: State, front: seq<Entry>, back: seq<Entry>) {
    && t.queueHead == front + s.queueHead + back
    && (forall x :: x in front ==> x.Rq? && x.id in t.dataInFlight)
    && back == if Issued(s, t) then [FlushRq] else []
  }

  function Sent(s: State, r: nat, done: set<Stage>, error: int): seq<Entry>
    requires r in s.reqs
  {
    if error == 0 && CurStage(s.reqs[r].fseq + done) == DATA then [Rq(r)] else []
  }

  lemma {:induction false} MovesGrow(s: State, r: nat, f: FlushReq, error: int, now: nat)
    ensures ToPending(s, r, f, now).queueHead == s.queueHead && ToPending(s, r, f, now).pendingIdx == s.pendingIdx
    ensures ToData(s, r, f).queueHead == [Rq(r)] + s.queueHead && ToData(s, r, f).pendingIdx == s.pendingIdx
    ensures Finish(s, r, f, error).queueHead == s.queueHead && Finish(s, r, f, error).pendingIdx == s.pendingIdx
    ensures r in ToData(s, r, f).dataInFlight
  {
  }

  lemma {:induction false} StageGrows(s: State, r: nat, done: set<Stage>, error: int, now: nat)
    requires r in s.reqs
    ensures var t := NextStage(s, r, done, error, now);
            && t.queueHead == Sent(s, r, done, error) + s.queueHead && t.pendingIdx == s.pendingIdx
            && (Sent(s, r, done, error) != [] ==> r in t.dataInFlight)
  {
    MovesGrow(s, r, s.reqs[r].(fseq := s.reqs[r].fseq + done), error, now);
    assert [] + s.queueHead == s.queueHead;
  }

  lemma {:induction false} KickGrows(s: State, t: State, front: seq<Entry>, now: nat)
    requires t.queueHead == front + s.queueHead && t.pendingIdx == s.pendingIdx
    requires forall x :: x in front ==> x.Rq? && x.id in t.dataInFlight
    ensures Grows(s, Kick(t, now), front, if Issued(s, Kick(t, now)) then [FlushRq] else [])
  {
    assert front + s.queueHead + [] == front + s.queueHead;
  }

  lemma {:induction false} MoveGrows(s: State, r: nat, done: set<Stage>, error: int, now: nat)
    returns (front: seq<Entry>, back: seq<Entry>)
    requires r in s.reqs
    ensures Grows(s, CompleteSeq(s, r, done, error, now), front, back)
  {
    front := Sent(s, r, done, error);
    StageGrows(s, r, done, error, now);
    KickGrows(s, NextStage(s, r, done, error, now), front, now);
    back := if Issued(s, CompleteSeq(s, r, done, error, now)) then [FlushRq] else [];
  }

  lemma {:induction false} GrowsBoth(s: State, m: State, t: State, f: seq<Entry>, b: seq<Entry>, g: seq<Entry>,
                                     c: seq<Entry>)
    requires Grows(s, m, f, b) && Grows(m, t, g, c) && (b == [] || c == [])
    requires forall x :: x in m.dataInFlight ==> x in t.dataInFlight
    ensures Grows(s, t, g + f, b + c)
  {
    assert g + (f + s.queueHead + b) + c == (g + f) + s.queueHead + (b + c);
    assert b + [] == b && [] + c == c;
  }

  lemma {:induction false} PushGrows(s: State, idx: bool, waiting: seq<nat>, error: int, now: nat)
    returns (front: seq<Entry>, back: seq<Entry>)
    requires Pushing(s, idx, waiting, error)
    ensures Grows(s, Push(s, waiting, error, now), front, back)
    ensures InFlight(s) ==> back == []
    decreases |waiting|
  {
    if waiting == [] {
      front, back := [], [];
      assert [] + s.queueHead + [] == s.queueHead;
    } else {
      var r := waiting[0];
      PushStep(s, idx, waiting, error, now);
      var done := {CurStage(s.reqs[r].fseq)};
      var m := CompleteSeq(s, r, done, error, now);
      var f, b := MoveGrows(s, r, done, error, now);
      MoveDecides(s, r, done, error, now);
      var g, c := PushGrows(m, idx, waiting[1..], error, now);
      PushDecides(m, idx, waiting[1..], error, now);
      PushMoves(s, idx, waiting, error, now);
      GrowsBoth(s, m, Push(s, waiting, error, now), f, b, g, c);
      front, back := g + f, b + c;
    }
  }

  /** A flush that is issued within the loop is in flight for the rest of it. */
  lemma {:induction false} PushMoves(s: State, idx: bool, waiting: seq<nat>, error: int, now: nat)
    requires Pushing(s, idx, waiting, error) && waiting != [] && waiting[0] in s.reqs
    ensures var m := CompleteSeq(s, waiting[0], {CurStage(s.reqs[waiting[0]].fseq)}, error, now);
            m.runningIdx == s.runningIdx && (Issued(s, m) ==> InFlight(m)) && (InFlight(s) ==> InFlight(m))
  {
    var r := waiting[0];
    MoveDecides(s, r, {CurStage(s.reqs[r].fseq)}, error, now);
    StageFrame(s, r, {CurStage(s.reqs[r].fseq)}, error, now);
  }

  /** What an event adds to the dispatch queue: the driver takes the first entry; a plain
      request goes last; a sequenced one goes first with its data, and a flush last. */
  ghost predicate HeadRule(s: State, t: State, e: Event)
    requires Enabled(s, e)
  {
    match e
    case Begin => t.queueHead == s.queueHead[1..]
    case Elsewhere(w) => t.queueHead == s.queueHead
    case Submit(r, rq, flush, fua, now) =>
      if Moves(s, e) then exists front, back :: Grows(s, t, front, back)
      else t.queueHead == s.queueHead + if rq.dataLen >= SECTOR_SIZE then [Rq(r)] else []
    case _ =>
      if Moves(s, e) then exists front, back :: Grows(s, t, front, back)
      else t.queueHead == s.queueHead
  }

  lemma {:induction false} SubmitHead(s: State, r: nat, rq: Request, flush: bool, fua: bool, now: nat)
    requires Submittable(s, r, rq, flush, fua)
    ensures HeadRule(s, Insert(s, r, rq, flush, fua, now), Submit(r, rq, flush, fua, now))
  {
    var policy := Policy(s.caps, rq.dataLen >= SECTOR_SIZE, flush, fua);
    if policy != {} && policy != {DATA} {
      var a := s.(reqs := s.reqs[r := Submitted(s, rq, flush, fua, true)]);
      var front, back := MoveGrows(a, r, ACTIONS - policy, 0, now);
      assert Grows(s, Insert(s, r, rq, flush, fua, now), front, back);
    } else {
      assert DATA in policy <==> rq.dataLen >= SECTOR_SIZE;
    }
  }

  lemma {:induction false} LandedHead(s: State, r: nat, rq: Request, error: int, now: nat)
    returns (front: seq<Entry>, back: seq<Entry>)
    requires r in s.reqs
    ensures Grows(s, CompleteSeq(Landed(s, r, rq), r, {DATA}, error, now), front, back)
  {
    front, back := MoveGrows(Landed(s, r, rq), r, {DATA}, error, now);
  }

  lemma {:induction false} PlainHeads(s: State, r: nat, error: int, n: nat, now: nat)
    requires r in s.reqs && OneBio(s.reqs[r].rq) && !s.reqs[r].rq.flushSeq
    ensures DataDone(s, r, error, n, now).queueHead == s.queueHead
  {
  }

  lemma {:induction false} BytesHead(s: State, r: nat, error: int, n: nat, now: nat)
    requires ReqsOk(s) && Enabled(s, Bytes(r, error, n, now))
    ensures HeadRule(s, DataDone(s, r, error, n, now), Bytes(r, error, n, now))
  {
    var rq := UpdateRequest(s.limits, s.reqs[r].rq, error, n).rq;
    if !s.reqs[r].rq.flushSeq {
      PlainHeads(s, r, error, n, now);
    } else if UpdateRequest(s.limits, s.reqs[r].rq, error, n).more {
      DataMoreIs(s, r, error, n, now);
    } else {
      DataLastIs(s, r, error, n, now);
      var front, back := LandedHead(s, r, rq, error, now);
    }
  }

  lemma {:induction false} FlushedHead(s: State, error: int, now: nat)
    requires Valid(s) && s.flushStarted
    ensures HeadRule(s, FlushDone(s, error, now), Flushed(error, now))
  {
    FinishingPushes(s, error);
    var front, back := PushGrows(Finishing(s, error), !s.pendingIdx, Other(s), error, now);
    assert Grows(s, FlushDone(s, error, now), front, back);
  }

  lemma {:induction false} OtherHeads(s: State, w: nat)
    ensures HeadRule(s, WriteDone(s, w, false), Elsewhere(w)) && (s.queueHead != [] ==> HeadRule(s, Start(s), Begin))
  {
  }

  /** In every run, each step changes the dispatch queue by this rule. */
  lemma {:induction false} HeadExactly(s: State, es: seq<Event>, e: Event)
    requires Initial(s) && Runs(s, es) && Enabled(After(s, es), e)
    ensures HeadRule(After(s, es), Step(After(s, es), e), e)
  {
    InitialValid(s);
    RunValid(s, es);
    var a := After(s, es);
    match e
    case Submit(r, rq, flush, fua, now) => SubmitHead(a, r, rq, flush, fua, now);
    case Begin => OtherHeads(a, 0);
    case Bytes(r, error, n, now) => BytesHead(a, r, error, n, now);
    case Flushed(error, now) => FlushedHead(a, error, now);
    case Elsewhere(w) => OtherHeads(a, w);
  }
}
