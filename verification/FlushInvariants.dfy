/**
 What every state of the sequencer keeps, besides its lists: the dispatch queue, the
 shape of each request, what is durable, and which bios have been ended.
 */
module FlushInvariants {
  import opened Lists
  import opened Completion
  import opened FlushSpec
  import opened FlushLists

  // ----- requests

  /** A request's recorded stages: those its policy does not ask for are complete from
      the start, and the others complete in order. */
  predicate SequenceOk(caps: Caps, r: nat, f: FlushReq) {
    var policy := Policy(caps, f.data, f.flush, f.fua);
    && OneBio(f.rq) && (HasBio(f.rq) ==> TheBio(f.rq).id == r) && (f.data ==> HasBio(f.rq))
    && f.deviceFua == (f.fua && caps.fua)
    && (if f.rq.flushSeq then
          && ACTIONS - policy <= f.fseq && policy != {PREFLUSH, POSTFLUSH}
          && (PREFLUSH !in f.fseq && DATA in policy ==> DATA !in f.fseq && !f.started)
          && (DATA !in f.fseq && POSTFLUSH in policy ==> POSTFLUSH !in f.fseq)
          && (DATA !in f.fseq ==> f.rq.bios.Link?)
        else policy == {DATA} && f.fseq == {} && f.rq.bios.Link?)
  }

  predicate ReqOk(caps: Caps, r: nat, f: FlushReq) {
    SequenceOk(caps, r, f) && (f.rq.flushSeq ==> CurStage(f.fseq) != DONE)
  }

  predicate ReqsOk(s: State) {
    forall r :: r in s.reqs ==> ReqOk(s.caps, r, s.reqs[r])
  }

  // ----- the dispatch queue

  /** Is the request on the dispatch queue? */
  predicate Queued(f: FlushReq) {
    !f.started && (Writes(f) || !f.rq.flushSeq)
  }

  function Heads(reqs: map<nat, FlushReq>): set<Entry> {
    set r | r in reqs && Queued(reqs[r]) :: Rq(r)
  }

  function FlushHead(s: State): set<Entry> {
    if InFlight(s) && !s.flushStarted then {FlushRq} else {}
  }

  /** The dispatch queue holds, once each, the data requests not yet started and the
      flush request while it is issued and not started. */
  predicate HeadOk(s: State) {
    && (s.flushStarted ==> InFlight(s))
    && Distinct(s.queueHead) && Elems(s.queueHead) == FlushHead(s) + Heads(s.reqs)
  }

  // ----- durability

  /** The data was written without error. */
  predicate Written(f: FlushReq) {
    f.data && DATA in f.fseq && HasBio(f.rq) && TheBio(f.rq).uptodate
  }

  /** What the flush a request waits for must cover. */
  function Need(r: nat, f: FlushReq): set<nat> {
    (if f.flush && PREFLUSH !in f.fseq then f.before else {}) +
    (if Written(f) then {r} else {})
  }

  predicate Covered(d: Device, r: nat, f: FlushReq) {
    && f.before <= d.completed
    && (f.flush && (PREFLUSH in f.fseq || !f.rq.flushSeq) ==> f.before <= d.durable)
    && (Written(f) ==> r in d.completed)
    && (Written(f) && f.fua && POSTFLUSH in f.fseq ==> r in d.durable)
  }

  predicate DeviceOk(s: State) {
    && s.dev.durable <= s.dev.completed
    && (!s.caps.flush ==> s.dev.durable == s.dev.completed)
    && (InFlight(s) ==> s.dev.issued <= s.dev.completed)
    && (s.flushStarted ==> s.dev.issued <= s.dev.covered <= s.dev.completed)
  }

  predicate CoverageOk(s: State) {
    && (forall r :: r in s.reqs ==> Covered(s.dev, r, s.reqs[r]))
    && (InFlight(s) ==> forall r :: r in Other(s) ==> r in s.reqs && Need(r, s.reqs[r]) <= s.dev.issued)
  }

  // ----- finished requests

  /** What REQ_FLUSH and REQ_FUA promise the submitter: the writes completed before
      submission, respectively the request's own data, are on non-volatile media. */
  predicate Promise(d: Device, r: nat, f: FlushReq) {
    && (f.flush ==> f.before <= d.durable)
    && (f.fua && f.data ==> r in d.durable)
  }

  function EndIds(ended: seq<End>): seq<nat> {
    if ended == [] then [] else [ended[0].bio] + EndIds(ended[1..])
  }

  /** A bio ended without error: the whole sequence is behind it, and what was promised
      holds. */
  predicate EndedWell(d: Device, r: nat, f: FlushReq) {
    Promise(d, r, f) && (f.rq.flushSeq ==> ACTIONS <= f.fseq)
  }

  /** Bios are ended exactly once, when their request has left: no bio is ended twice or
      while its request lives, and a request that left has had its bio ended. */
  predicate EndedOk(s: State) {
    && s.gone.Keys !! s.reqs.Keys
    && Distinct(EndIds(s.ended))
    && (forall r :: r in s.gone && HasBio(s.gone[r].rq) ==> r in EndIds(s.ended))
    && (forall e :: e in s.ended ==> e.bio in s.gone && (e.error == 0 ==> EndedWell(s.dev, e.bio, s.gone[e.bio])))
  }

  // ----- the indices

  /** The non-pending queue is the one the flush in flight is for. */
  predicate IndexOk(s: State) {
    InFlight(s) <==> Other(s) != []
  }

  /** Requests wait without a flush in flight only while data is in flight. */
  predicate NoStall(s: State) {
    !InFlight(s) && Pending(s) != [] ==> s.dataInFlight != []
  }

  /** Everything that does not depend on the dispatch queue. */
  predicate Settled(s: State) {
    ListsOk(s) && ReqsOk(s) && DeviceOk(s) && CoverageOk(s) && EndedOk(s) && IndexOk(s) && NoStall(s)
  }

  predicate Valid(s: State) {
    Settled(s) && HeadOk(s)
  }

  // ----- the dispatch queue, step by step

  lemma {:induction false} HeadsUpdate(reqs: map<nat, FlushReq>, r: nat, f: FlushReq)
    ensures Heads(reqs[r := f]) == (Heads(reqs) - {Rq(r)}) + if Queued(f) then {Rq(r)} else {}
    ensures Heads(reqs - {r}) == Heads(reqs) - {Rq(r)}
    ensures Rq(r) in Heads(reqs) <==> r in reqs && Queued(reqs[r])
  {
    assert r in reqs && Queued(reqs[r]) ==> Rq(r) in Heads(reqs);
    assert Queued(f) ==> Rq(r) in Heads(reqs[r := f]) by { assert r in reqs[r := f]; }
    forall e | e in Heads(reqs) && e != Rq(r)
      ensures e in Heads(reqs[r := f]) && e in Heads(reqs - {r})
    {
      assert e.id in reqs[r := f] && e.id in reqs - {r};
    }
  }

  lemma {:induction false} KickHead(s: State, now: nat)
    requires HeadOk(s)
    ensures HeadOk(Kick(s, now))
  {
    if Kick(s, now) != s {
      assert FlushRq !in Elems(s.queueHead);
      Snoc(s.queueHead, FlushRq);
    }
  }

  lemma {:induction false} ToPendingHead(s: State, r: nat, f: FlushReq, now: nat)
    requires HeadOk(s) && Rq(r) !in s.queueHead && Waits(f)
    ensures HeadOk(ToPending(s, r, f, now))
  {
    HeadsUpdate(s.reqs, r, f);
  }

  lemma {:induction false} ToDataHead(s: State, r: nat, f: FlushReq)
    requires HeadOk(s) && Rq(r) !in s.queueHead && Writes(f) && !f.started
    ensures HeadOk(ToData(s, r, f))
  {
    HeadsUpdate(s.reqs, r, f);
    Cons(s.queueHead, Rq(r));
  }

  lemma {:induction false} FinishHead(s: State, r: nat, f: FlushReq, error: int)
    requires HeadOk(s) && Rq(r) !in s.queueHead
    ensures HeadOk(Finish(s, r, f, error))
  {
    HeadsUpdate(s.reqs, r, f);
  }

  /** A request off the dispatch queue is not on it twice after its next stage. */
  lemma {:induction false} NextStageHead(s: State, r: nat, done: set<Stage>, error: int, now: nat)
    requires r in s.reqs && s.reqs[r].rq.flushSeq && HeadOk(s) && Rq(r) !in s.queueHead
    requires CurStage(s.reqs[r].fseq + done) == DATA ==> !s.reqs[r].started
    ensures HeadOk(NextStage(s, r, done, error, now))
  {
    var f := s.reqs[r].(fseq := s.reqs[r].fseq + done);
    match if error == 0 then CurStage(f.fseq) else DONE
    case DATA => ToDataHead(s, r, f);
    case DONE => FinishHead(s, r, f, error);
    case _ => ToPendingHead(s, r, f, now);
  }

  // ----- durability, step by step

  lemma {:induction false} KickCoverage(s: State, now: nat)
    requires DeviceOk(s) && CoverageOk(s) && Elems(Pending(s)) <= s.reqs.Keys && (s.flushStarted ==> InFlight(s))
    ensures DeviceOk(Kick(s, now)) && CoverageOk(Kick(s, now))
  {
    var t := Kick(s, now);
    if t != s {
      forall r | r in Other(t)
        ensures r in t.reqs && Need(r, t.reqs[r]) <= t.dev.issued
      {
        assert r in Elems(Pending(s));
        assert Covered(s.dev, r, s.reqs[r]);
      }
    }
  }

  /** The request that moves leaves the running queue, the others keep their cover. */
  lemma {:induction false} MovedCoverage(s: State, t: State, r: nat, f: FlushReq)
    requires r in s.reqs && DeviceOk(s) && CoverageOk(s)
    requires t.caps == s.caps && t.dev == s.dev && t.flushStarted == s.flushStarted && InFlight(t) == InFlight(s)
    requires Elems(Other(t)) == Elems(Other(s)) - {r}
    requires t.reqs == s.reqs - {r} || (t.reqs == s.reqs[r := f] && Covered(s.dev, r, f))
    ensures DeviceOk(t) && CoverageOk(t)
  {
    if InFlight(t) {
      forall x | x in Other(t)
        ensures x in t.reqs && Need(x, t.reqs[x]) <= t.dev.issued
      {
        assert x in Elems(Other(t));
      }
    }
  }

  lemma {:induction false} UnlinkOther(s: State, r: nat, done: set<Stage>, error: int, now: nat)
    requires r in s.reqs
    ensures Elems(Other(NextStage(s, r, done, error, now))) == Elems(Other(s)) - {r}
  {
    assert Other(NextStage(s, r, done, error, now)) == Other(Unlink(s, r));
  }

  lemma {:induction false} NextStageCoverage(s: State, r: nat, done: set<Stage>, error: int, now: nat)
    requires r in s.reqs && DeviceOk(s) && CoverageOk(s)
    requires error == 0 ==> Covered(s.dev, r, s.reqs[r].(fseq := s.reqs[r].fseq + done))
    ensures DeviceOk(NextStage(s, r, done, error, now)) && CoverageOk(NextStage(s, r, done, error, now))
  {
    UnlinkOther(s, r, done, error, now);
    MovedCoverage(s, NextStage(s, r, done, error, now), r, s.reqs[r].(fseq := s.reqs[r].fseq + done));
  }

  // ----- finished requests, step by step

  lemma {:induction false} EndIdsSnoc(ended: seq<End>, e: End)
    ensures EndIds(ended + [e]) == EndIds(ended) + [e.bio]
  {
    if ended != [] {
      EndIdsSnoc(ended[1..], e);
      assert (ended + [e])[1..] == ended[1..] + [e];
    }
  }

  lemma {:induction false} EndIdsMember(ended: seq<End>, x: nat)
    requires x in EndIds(ended)
    ensures exists e :: e in ended && e.bio == x
  {
    if ended[0].bio != x { EndIdsMember(ended[1..], x); }
  }

  /** A request that leaves without error has all its stages behind it. */
  lemma {:induction false} FinishEnded(s: State, r: nat, f: FlushReq, error: int)
    requires EndedOk(s) && r in s.reqs && (HasBio(f.rq) ==> TheBio(f.rq).id == r)
    requires f.data ==> HasBio(f.rq)
    requires error == 0 ==> Covered(s.dev, r, f) && CurStage(f.fseq) == DONE
    ensures EndedOk(Finish(s, r, f, error))
  {
    if HasBio(f.rq) {
      var e := End(r, Status(TheBio(f.rq), error));
      EndIdsSnoc(s.ended, e);
      if r in EndIds(s.ended) { EndIdsMember(s.ended, r); }
      Snoc(EndIds(s.ended), r);
    } else {
      assert s.ended + [] == s.ended;
    }
  }

  // ----- one move

  /** Everything but the indices. */
  predicate Core(s: State) {
    ListsOk(s) && ReqsOk(s) && HeadOk(s) && DeviceOk(s) && CoverageOk(s) && EndedOk(s)
  }

  /** Request `r` can record `done` as complete: the rest of the state is in order, it
      is off the dispatch queue, and its record will be in order. */
  predicate Movable(s: State, r: nat, done: set<Stage>, error: int) {
    && r in s.reqs && s.reqs[r].rq.flushSeq
    && ListsBut(s, r)
    && (forall x :: x in s.reqs && x != r ==> ReqOk(s.caps, x, s.reqs[x]))
    && HeadOk(s) && Rq(r) !in s.queueHead
    && DeviceOk(s) && CoverageOk(s) && EndedOk(s)
    && var f := s.reqs[r].(fseq := s.reqs[r].fseq + done);
       && SequenceOk(s.caps, r, f)
       && (CurStage(f.fseq) == DATA ==> !f.started)
       && (error == 0 ==> Covered(s.dev, r, f))
  }

  lemma {:induction false} MovedReqs(s: State, t: State, r: nat, f: FlushReq)
    requires t.caps == s.caps && forall x :: x in s.reqs && x != r ==> ReqOk(s.caps, x, s.reqs[x])
    requires t.reqs == s.reqs - {r} || (t.reqs == s.reqs[r := f] && ReqOk(s.caps, r, f))
    ensures ReqsOk(t)
  {
  }

  lemma {:induction false} NextStageReqs(s: State, r: nat, done: set<Stage>, error: int, now: nat)
    requires r in s.reqs && (forall x :: x in s.reqs && x != r ==> ReqOk(s.caps, x, s.reqs[x]))
    requires s.reqs[r].rq.flushSeq && SequenceOk(s.caps, r, s.reqs[r].(fseq := s.reqs[r].fseq + done))
    ensures ReqsOk(NextStage(s, r, done, error, now))
  {
    MovedReqs(s, NextStage(s, r, done, error, now), r, s.reqs[r].(fseq := s.reqs[r].fseq + done));
  }

  lemma {:induction false} NextStageEnded(s: State, r: nat, done: set<Stage>, error: int, now: nat)
    requires Movable(s, r, done, error)
    ensures EndedOk(NextStage(s, r, done, error, now))
  {
    var f := s.reqs[r].(fseq := s.reqs[r].fseq + done);
    match if error == 0 then CurStage(f.fseq) else DONE
    case DATA => assert ToData(s, r, f).reqs.Keys == s.reqs.Keys;
    case DONE => FinishEnded(s, r, f, error);
    case _ => assert ToPending(s, r, f, now).reqs.Keys == s.reqs.Keys;
  }

  lemma {:induction false} PendingLive(s: State)
    requires ListsOk(s)
    ensures Elems(Pending(s)) <= s.reqs.Keys
  {
  }

  lemma {:induction false} KickCore(s: State, now: nat)
    requires Core(s)
    ensures Core(Kick(s, now)) && NoStall(Kick(s, now))
  {
    PendingLive(s);
    KickHead(s, now);
    KickCoverage(s, now);
  }

  /** Completing stages of a request keeps the state in order. */
  lemma {:induction false} MoveCore(s: State, r: nat, done: set<Stage>, error: int, now: nat)
    requires Movable(s, r, done, error)
    ensures Core(CompleteSeq(s, r, done, error, now)) && NoStall(CompleteSeq(s, r, done, error, now))
  {
    NextStageLists(s, r, done, error, now);
    NextStageReqs(s, r, done, error, now);
    NextStageHead(s, r, done, error, now);
    NextStageCoverage(s, r, done, error, now);
    NextStageEnded(s, r, done, error, now);
    KickCore(NextStage(s, r, done, error, now), now);
  }
}
