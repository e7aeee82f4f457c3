/**
 Every step of the sequencer keeps a valid state valid: the driver starting a request,
 data completing in part or in full, submissions, and flush completions with the loop
 that pushes the waiting requests on.
 */
module FlushSteps {
  import opened Lists
  import opened BlockTypes
  import opened Segments
  import opened Completion
  import opened FlushSpec
  import opened FlushLists
  import opened FlushInvariants

  // ----- the driver starts a request

  lemma {:induction false} StartFlushValid(s: State)
    requires Valid(s) && s.queueHead != [] && s.queueHead[0] == FlushRq
    ensures Valid(Start(s))
  {
    Uncons(s.queueHead);
    assert FlushRq in Elems(s.queueHead);
  }

  lemma {:induction false} HeadLive(s: State)
    requires HeadOk(s) && s.queueHead != [] && s.queueHead[0].Rq?
    ensures s.queueHead[0].id in s.reqs && Queued(s.reqs[s.queueHead[0].id])
  {
    assert s.queueHead[0] in Elems(s.queueHead);
  }

  lemma {:induction false} StartedReqs(s: State, r: nat)
    requires ReqsOk(s) && CoverageOk(s) && r in s.reqs && Queued(s.reqs[r])
    ensures var t := s.(reqs := s.reqs[r := s.reqs[r].(started := true)]); ReqsOk(t) && CoverageOk(t)
  {
  }

  lemma {:induction false} StartDataHead(s: State)
    requires HeadOk(s) && s.queueHead != [] && s.queueHead[0].Rq? && s.queueHead[0].id in s.reqs
    ensures HeadOk(Start(s))
  {
    var r := s.queueHead[0].id;
    Uncons(s.queueHead);
    HeadsUpdate(s.reqs, r, s.reqs[r].(started := true));
  }

  /** A record that keeps its stage keeps its place on the lists. */
  lemma {:induction false} SameStage(s: State, r: nat, f: FlushReq)
    requires ListsOk(s) && r in s.reqs && Waits(f) == Waits(s.reqs[r]) && Writes(f) == Writes(s.reqs[r])
    ensures ListsOk(s.(reqs := s.reqs[r := f])) && s.reqs[r := f].Keys == s.reqs.Keys
  {
    MapUpdate(s.reqs, r, f);
  }

  lemma {:induction false} SameKeys(s: State, r: nat, f: FlushReq)
    requires EndedOk(s) && r in s.reqs
    ensures EndedOk(s.(reqs := s.reqs[r := f]))
  {
    assert s.reqs[r := f].Keys == s.reqs.Keys;
  }

  lemma {:induction false} StartedSettled(s: State, r: nat)
    requires Settled(s) && r in s.reqs && Queued(s.reqs[r])
    ensures Settled(s.(reqs := s.reqs[r := s.reqs[r].(started := true)]))
  {
    StartedReqs(s, r);
    SameStage(s, r, s.reqs[r].(started := true));
    SameKeys(s, r, s.reqs[r].(started := true));
  }

  lemma {:induction false} HeadApart(s: State, head: seq<Entry>)
    requires Settled(s)
    ensures Settled(s.(queueHead := head))
  {
  }

  lemma {:induction false} StartDataValid(s: State)
    requires Valid(s) && s.queueHead != [] && s.queueHead[0].Rq?
    ensures Valid(Start(s))
  {
    HeadLive(s);
    var r := s.queueHead[0].id;
    StartDataHead(s);
    StartedSettled(s, r);
    HeadApart(s.(reqs := s.reqs[r := s.reqs[r].(started := true)]), s.queueHead[1..]);
  }

  // ----- writes elsewhere

  /** Completed and durable writes only grow. */
  predicate Grows(d: Device, e: Device) {
    d.completed <= e.completed && d.durable <= e.durable && e.issued == d.issued && e.covered == d.covered
  }

  lemma {:induction false} GrowKeeps(s: State, d: Device)
    requires DeviceOk(s) && CoverageOk(s) && EndedOk(s) && Grows(s.dev, d)
    requires d.durable <= d.completed && (!s.caps.flush ==> d.durable == d.completed)
    ensures var t := s.(dev := d); DeviceOk(t) && CoverageOk(t) && EndedOk(t)
  {
    var t := s.(dev := d);
    forall r | r in t.reqs
      ensures Covered(t.dev, r, t.reqs[r])
    {
      assert Covered(s.dev, r, s.reqs[r]);
    }
  }

  lemma {:induction false} WriteDoneKeeps(s: State, w: nat, fua: bool)
    requires DeviceOk(s) && CoverageOk(s) && EndedOk(s)
    ensures var t := WriteDone(s, w, fua); DeviceOk(t) && CoverageOk(t) && EndedOk(t)
    ensures var t := WriteDone(s, w, fua);
            w in t.dev.completed && (fua || !s.caps.flush ==> w in t.dev.durable) && Grows(s.dev, t.dev)
  {
    GrowKeeps(s, WriteDone(s, w, fua).dev);
  }

  lemma {:induction false} OtherWriteValid(s: State, w: nat)
    requires Valid(s)
    ensures Valid(WriteDone(s, w, false))
  {
    WriteDoneKeeps(s, w, false);
  }

  // ----- data completions

  /** A driver may complete bytes of what it has started: a request's data. */
  predicate HasData(s: State, r: nat) {
    r in s.reqs && s.reqs[r].started && (Writes(s.reqs[r]) || !s.reqs[r].rq.flushSeq)
  }

  lemma {:induction false} NotQueued(s: State, r: nat)
    requires HeadOk(s) && r in s.reqs && !Queued(s.reqs[r])
    ensures Rq(r) !in s.queueHead
  {
    HeadsUpdate(s.reqs, r, s.reqs[r]);
    assert Rq(r) !in Elems(s.queueHead);
  }

  /** A request outside a sequence: its bio is ended by the pass that finishes it. */
  lemma {:induction false} PlainPass(q: Queue, r: Request, error: int, n: nat)
    requires OneBio(r) && r.bios.Link? && !r.flushSeq
    ensures var u := UpdateRequest(q, r, error, n);
            && OneBio(u.rq) && HasBio(u.rq) && !u.rq.flushSeq && (u.more <==> u.rq.bios.Link?)
            && TheBio(u.rq).id == TheBio(r).id
            && u.ended == (if u.more then [] else [End(TheBio(r).id, Status(TheBio(u.rq), error))])
            && (!u.more ==> (TheBio(u.rq).uptodate <==> TheBio(r).uptodate && error == 0))
  {
    var b := r.bios.bio;
    if n < b.size {
      AdvanceOk(b, n, error);
      var left := Link(Advance(b, n, error), Null);
      HintedOk(q, left);
      CurWithin(left);
    } else {
      var c := Charge(b, b.size, error);
      assert Ends(Link(c, Null), false, error) == [End(b.id, Status(c, error))] + Ends(Null, false, error);
    }
  }

  /** A record that changes only its bio's progress. */
  predicate Progressed(f: FlushReq, g: FlushReq, r: nat) {
    && g == f.(rq := g.rq) && g.rq.flushSeq == f.rq.flushSeq
    && OneBio(g.rq) && HasBio(g.rq) && TheBio(g.rq).id == r
    && DATA !in f.fseq
  }

  lemma {:induction false} ProgressReqs(s: State, r: nat, g: FlushReq)
    requires ReqsOk(s) && CoverageOk(s) && r in s.reqs && Progressed(s.reqs[r], g, r) && g.rq.bios.Link?
    ensures var t := s.(reqs := s.reqs[r := g]); ReqsOk(t) && CoverageOk(t)
  {
  }

  lemma {:induction false} ProgressHead(s: State, r: nat, g: FlushReq)
    requires HeadOk(s) && r in s.reqs && Queued(g) == Queued(s.reqs[r])
    ensures HeadOk(s.(reqs := s.reqs[r := g]))
  {
    HeadsUpdate(s.reqs, r, g);
    HeadsUpdate(s.reqs, r, s.reqs[r]);
  }

  lemma {:induction false} ProgressValid(s: State, r: nat, g: FlushReq)
    requires Valid(s) && r in s.reqs && Progressed(s.reqs[r], g, r) && g.rq.bios.Link?
    ensures Valid(s.(reqs := s.reqs[r := g]))
  {
    ProgressReqs(s, r, g);
    ProgressHead(s, r, g);
    SameStage(s, r, g);
    SameKeys(s, r, g);
  }

  /** One pass over the request's bio, inside or outside a sequence. */
  lemma {:induction false} OnePass(q: Queue, r: Request, error: int, n: nat)
    requires OneBio(r) && r.bios.Link?
    ensures var u := UpdateRequest(q, r, error, n);
            && OneBio(u.rq) && HasBio(u.rq) && u.rq.flushSeq == r.flushSeq && (u.more <==> u.rq.bios.Link?)
            && TheBio(u.rq).id == TheBio(r).id
            && u.ended == (if u.more || r.flushSeq then [] else [End(TheBio(r).id, Status(TheBio(u.rq), error))])
            && (!u.more ==> (TheBio(u.rq).uptodate <==> TheBio(r).uptodate && error == 0))
  {
    if r.flushSeq { DataPass(q, r, error, n); } else { PlainPass(q, r, error, n); }
  }

  lemma {:induction false} MoreProgress(s: State, r: nat, error: int, n: nat)
    requires ReqsOk(s) && HasData(s, r) && UpdateRequest(s.limits, s.reqs[r].rq, error, n).more
    ensures var u := UpdateRequest(s.limits, s.reqs[r].rq, error, n);
            u.ended == [] && u.rq.bios.Link? && Progressed(s.reqs[r], s.reqs[r].(rq := u.rq), r)
  {
    assert ReqOk(s.caps, r, s.reqs[r]);
    OnePass(s.limits, s.reqs[r].rq, error, n);
  }

  lemma {:induction false} DataMoreIs(s: State, r: nat, error: int, n: nat, now: nat)
    requires ReqsOk(s) && HasData(s, r) && UpdateRequest(s.limits, s.reqs[r].rq, error, n).more
    ensures var g := s.reqs[r].(rq := UpdateRequest(s.limits, s.reqs[r].rq, error, n).rq);
            && Progressed(s.reqs[r], g, r) && g.rq.bios.Link?
            && DataDone(s, r, error, n, now) == s.(reqs := s.reqs[r := g])
  {
    MoreProgress(s, r, error, n);
    assert s.ended + [] == s.ended;
  }

  /** Bytes of a started request complete, some remain. */
  lemma {:induction false} DataMoreValid(s: State, r: nat, error: int, n: nat, now: nat)
    requires Valid(s) && HasData(s, r) && UpdateRequest(s.limits, s.reqs[r].rq, error, n).more
    ensures Valid(DataDone(s, r, error, n, now))
  {
    DataMoreIs(s, r, error, n, now);
    ProgressValid(s, r, s.reqs[r].(rq := UpdateRequest(s.limits, s.reqs[r].rq, error, n).rq));
  }

  /** The queues, when the request that moves is on neither of them. */
  lemma {:induction false} UnlinkIdle(s: State, r: nat)
    requires r !in s.queue0 && r !in s.queue1
    ensures Unlink(s, r).queue0 == s.queue0 && Unlink(s, r).queue1 == s.queue1
  {
    WithoutAbsent(s.queue0, r);
    WithoutAbsent(s.queue1, r);
  }

  lemma {:induction false} KickIndex(s: State, now: nat)
    requires IndexOk(s)
    ensures IndexOk(Kick(s, now))
  {
  }

  lemma {:induction false} MoveIndex(s: State, r: nat, done: set<Stage>, error: int, now: nat)
    requires r in s.reqs && IndexOk(s) && r !in s.queue0 && r !in s.queue1
    ensures IndexOk(CompleteSeq(s, r, done, error, now))
  {
    UnlinkIdle(s, r);
    var t := NextStage(s, r, done, error, now);
    assert Other(t) == Other(Unlink(s, r));
    KickIndex(t, now);
  }

  /** The record after the last byte of data. */
  lemma {:induction false} DataRecord(caps: Caps, d: Device, e: Device, r: nat, f: FlushReq, g: FlushReq)
    requires ReqOk(caps, r, f) && Covered(d, r, f) && Writes(f) && g == f.(rq := g.rq, fseq := f.fseq + {DATA})
    requires OneBio(g.rq) && HasBio(g.rq) && TheBio(g.rq).id == r && g.rq.flushSeq
    requires d.completed <= e.completed && d.durable <= e.durable
    requires TheBio(g.rq).uptodate ==> r in e.completed && (f.deviceFua || !caps.flush ==> r in e.durable)
    ensures SequenceOk(caps, r, g) && Covered(e, r, g) && CurStage(g.fseq) != DATA
  {
  }

  lemma {:induction false} NotWaiting(s: State, r: nat)
    requires ListsOk(s) && (r in s.reqs ==> !Waits(s.reqs[r]))
    ensures r !in s.queue0 && r !in s.queue1
  {
    assert r !in Waiting(s.reqs);
    assert r !in Elems(s.queue0) && r !in Elems(s.queue1);
  }

  /** The state in which a sequenced request whose data is done records it. */
  function Landed(s: State, r: nat, rq: Request): State
    requires r in s.reqs
  {
    var f := s.reqs[r];
    var t := if HasBio(rq) && f.data && TheBio(rq).uptodate then WriteDone(s, r, f.deviceFua) else s;
    t.(reqs := s.reqs[r := f.(rq := rq)])
  }

  lemma {:induction false} LandedKeeps(s: State, r: nat, rq: Request)
    requires Valid(s) && r in s.reqs && Writes(s.reqs[r]) && s.reqs[r].started
    requires OneBio(rq) && HasBio(rq) && TheBio(rq).id == r && rq.flushSeq
    ensures var t := Landed(s, r, rq);
            && ListsOk(t) && HeadOk(t) && DeviceOk(t) && CoverageOk(t) && EndedOk(t) && IndexOk(t)
  {
    var f, g := s.reqs[r], s.reqs[r].(rq := rq);
    var t := if HasBio(rq) && f.data && TheBio(rq).uptodate then WriteDone(s, r, f.deviceFua) else s;
    WriteDoneKeeps(s, r, f.deviceFua);
    SameStage(t, r, g);
    SameKeys(t, r, g);
    ProgressHead(t, r, g);
    LandedCoverage(t, r, g);
  }

  lemma {:induction false} LandedCoverage(s: State, r: nat, g: FlushReq)
    requires CoverageOk(s) && r in s.reqs && Progressed(s.reqs[r], g, r)
    ensures CoverageOk(s.(reqs := s.reqs[r := g]))
  {
  }

  lemma {:induction false} LandedMovable(s: State, r: nat, rq: Request, error: int)
    requires Valid(s) && r in s.reqs && Writes(s.reqs[r]) && s.reqs[r].started
    requires OneBio(rq) && HasBio(rq) && TheBio(rq).id == r && rq.flushSeq
    ensures Movable(Landed(s, r, rq), r, {DATA}, error)
  {
    var t := Landed(s, r, rq);
    LandedKeeps(s, r, rq);
    UnlinkOk(t, r);
    NotQueued(t, r);
    LandedRecord(s, r, rq);
  }

  lemma {:induction false} LandedRecord(s: State, r: nat, rq: Request)
    requires ReqsOk(s) && DeviceOk(s) && CoverageOk(s) && EndedOk(s) && r in s.reqs && Writes(s.reqs[r])
    requires OneBio(rq) && HasBio(rq) && TheBio(rq).id == r && rq.flushSeq
    ensures var g := s.reqs[r].(rq := rq, fseq := s.reqs[r].fseq + {DATA});
            SequenceOk(s.caps, r, g) && Covered(Landed(s, r, rq).dev, r, g) && CurStage(g.fseq) != DATA
  {
    var f := s.reqs[r];
    WriteDoneKeeps(s, r, f.deviceFua);
    assert ReqOk(s.caps, r, f) && Covered(s.dev, r, f);
    DataRecord(s.caps, s.dev, Landed(s, r, rq).dev, r, f, f.(rq := rq, fseq := f.fseq + {DATA}));
  }

  lemma {:induction false} DataLastIs(s: State, r: nat, error: int, n: nat, now: nat)
    requires ReqsOk(s) && HasData(s, r) && s.reqs[r].rq.flushSeq
    requires !UpdateRequest(s.limits, s.reqs[r].rq, error, n).more
    ensures var rq := UpdateRequest(s.limits, s.reqs[r].rq, error, n).rq;
            && OneBio(rq) && HasBio(rq) && TheBio(rq).id == r && rq.flushSeq
            && DataDone(s, r, error, n, now) == CompleteSeq(Landed(s, r, rq), r, {DATA}, error, now)
  {
    OnePass(s.limits, s.reqs[r].rq, error, n);
    assert s.ended + [] == s.ended;
  }

  lemma {:induction false} LandedIndex(s: State, r: nat, rq: Request, error: int, now: nat)
    requires ListsOk(s) && IndexOk(s) && r in s.reqs && Writes(s.reqs[r])
    ensures IndexOk(CompleteSeq(Landed(s, r, rq), r, {DATA}, error, now))
  {
    NotWaiting(s, r);
    MoveIndex(Landed(s, r, rq), r, {DATA}, error, now);
  }

  lemma {:induction false} LandedValid(s: State, r: nat, rq: Request, error: int, now: nat)
    requires Valid(s) && r in s.reqs && Writes(s.reqs[r]) && s.reqs[r].started
    requires OneBio(rq) && HasBio(rq) && TheBio(rq).id == r && rq.flushSeq
    ensures Valid(CompleteSeq(Landed(s, r, rq), r, {DATA}, error, now))
  {
    LandedMovable(s, r, rq, error);
    LandedIndex(s, r, rq, error, now);
    MoveCore(Landed(s, r, rq), r, {DATA}, error, now);
  }

  /** The data of a sequenced request is complete. */
  lemma {:induction false} DataLastValid(s: State, r: nat, error: int, n: nat, now: nat)
    requires Valid(s) && HasData(s, r) && s.reqs[r].rq.flushSeq && !UpdateRequest(s.limits, s.reqs[r].rq, error, n).more
    ensures Valid(DataDone(s, r, error, n, now))
  {
    DataLastIs(s, r, error, n, now);
    LandedValid(s, r, UpdateRequest(s.limits, s.reqs[r].rq, error, n).rq, error, now);
  }

  // ----- requests outside a sequence

  /** A request leaves the state for good. */
  function Leave(s: State, r: nat, f: FlushReq, ended: seq<End>): State {
    s.(reqs := s.reqs - {r}, gone := s.gone[r := f], ended := s.ended + ended)
  }

  lemma {:induction false} LeaveEnded(s: State, r: nat, f: FlushReq, ended: seq<End>)
    requires EndedOk(s) && r !in s.gone && !f.rq.flushSeq
    requires if HasBio(f.rq) then exists error :: ended == [End(r, error)] && (error == 0 ==> Promise(s.dev, r, f))
             else ended == []
    ensures EndedOk(Leave(s, r, f, ended))
  {
    if ended == [] {
      assert s.ended + [] == s.ended;
    } else {
      EndIdsSnoc(s.ended, ended[0]);
      if r in EndIds(s.ended) { EndIdsMember(s.ended, r); }
      Snoc(EndIds(s.ended), r);
    }
  }

  lemma {:induction false} LeaveSettled(s: State, r: nat, f: FlushReq, ended: seq<End>)
    requires Settled(s) && (r in s.reqs ==> !s.reqs[r].rq.flushSeq) && EndedOk(Leave(s, r, f, ended))
    ensures Settled(Leave(s, r, f, ended))
  {
    MapRemove(s.reqs, r);
    NotWaiting(s, r);
  }

  lemma {:induction false} LeaveHead(s: State, r: nat, f: FlushReq, ended: seq<End>)
    requires HeadOk(s) && Rq(r) !in s.queueHead
    ensures HeadOk(Leave(s, r, f, ended))
  {
    HeadsUpdate(s.reqs, r, f);
  }

  /** A plain request that ends well has what was promised: a policy without flushes
      means there is no volatile cache, or the device itself honours FUA. */
  lemma {:induction false} PlainPromise(caps: Caps, d: Device, e: Device, r: nat, f: FlushReq)
    requires ReqOk(caps, r, f) && !f.rq.flushSeq && Covered(d, r, f) && d.durable <= e.durable
    requires f.data && (f.deviceFua || !caps.flush) ==> r in e.durable
    ensures Promise(e, r, f)
  {
    var policy := Policy(caps, f.data, f.flush, f.fua);
    assert POSTFLUSH !in policy;
  }

  lemma {:induction false} PlainLastValid(s: State, r: nat, error: int, n: nat, now: nat)
    requires Valid(s) && HasData(s, r) && !s.reqs[r].rq.flushSeq &&
             !UpdateRequest(s.limits, s.reqs[r].rq, error, n).more
    ensures Valid(DataDone(s, r, error, n, now))
  {
    var f := s.reqs[r];
    OnePass(s.limits, f.rq, error, n);
    var u := UpdateRequest(s.limits, f.rq, error, n);
    var t := if f.data && TheBio(u.rq).uptodate then WriteDone(s, r, f.deviceFua) else s;
    WriteDoneKeeps(s, r, f.deviceFua);
    NotQueued(s, r);
    if Status(TheBio(u.rq), error) == 0 { PlainPromise(s.caps, s.dev, t.dev, r, f); }
    assert DATA in Policy(s.caps, f.data, f.flush, f.fua);
    LeaveEnded(t, r, f, u.ended);
    LeaveSettled(t, r, f, u.ended);
    LeaveHead(t, r, f, u.ended);
    assert DataDone(s, r, error, n, now) == Leave(t, r, f, u.ended);
  }

  // ----- submissions

  /** What the block layer asks of a submission: a new request with at most one bio, of
      whole sectors; and one without data carries REQ_FLUSH or REQ_FUA, not both, when
      both would mean a flush. */
  predicate Submittable(s: State, r: nat, rq: Request, flush: bool, fua: bool) {
    && r !in s.reqs && r !in s.gone
    && OneBio(rq) && rq.done.Null? && (HasBio(rq) ==> TheBio(rq).id == r) && rq.dataLen % SECTOR_SIZE == 0
    && Policy(s.caps, rq.dataLen >= SECTOR_SIZE, flush, fua) != {PREFLUSH, POSTFLUSH}
  }

  lemma {:induction false} EmptyEnds(q: Queue, r: nat, rq: Request)
    requires OneBio(rq) && !rq.flushSeq && rq.done.Null? && rq.dataLen == 0 && (HasBio(rq) ==> TheBio(rq).id == r)
    ensures var e := UpdateRequest(q, rq, 0, 0).ended;
            if HasBio(rq) then exists error :: e == [End(r, error)] else e == []
  {
    if rq.bios.Link? { OnePass(q, rq, 0, 0); }
  }

  lemma {:induction false} InsertNothingIs(s: State, r: nat, rq: Request, flush: bool, fua: bool, now: nat)
    requires Submittable(s, r, rq, flush, fua) && Policy(s.caps, rq.dataLen >= SECTOR_SIZE, flush, fua) == {}
    ensures var f := Submitted(s, rq, flush, fua, false);
            Insert(s, r, rq, flush, fua, now) == Leave(s, r, f, EndNow(s.limits, f.rq))
  {
    assert s.reqs - {r} == s.reqs;
  }

  lemma {:induction false} NothingEnds(s: State, r: nat, rq: Request, flush: bool, fua: bool)
    requires EndedOk(s) && DeviceOk(s) && Submittable(s, r, rq, flush, fua)
    requires Policy(s.caps, rq.dataLen >= SECTOR_SIZE, flush, fua) == {}
    ensures var f := Submitted(s, rq, flush, fua, false); EndedOk(Leave(s, r, f, EndNow(s.limits, f.rq)))
  {
    var f := Submitted(s, rq, flush, fua, false);
    assert PREFLUSH !in Policy(s.caps, f.data, flush, fua) && DATA !in Policy(s.caps, f.data, flush, fua);
    EmptyEnds(s.limits, r, f.rq);
    LeaveEnded(s, r, f, EndNow(s.limits, f.rq));
  }

  /** Nothing to do: the request is completed on the spot. */
  lemma {:induction false} InsertNothingValid(s: State, r: nat, rq: Request, flush: bool, fua: bool, now: nat)
    requires Valid(s) && Submittable(s, r, rq, flush, fua) &&
             Policy(s.caps, rq.dataLen >= SECTOR_SIZE, flush, fua) == {}
    ensures Valid(Insert(s, r, rq, flush, fua, now))
  {
    var f := Submitted(s, rq, flush, fua, false);
    InsertNothingIs(s, r, rq, flush, fua, now);
    NothingEnds(s, r, rq, flush, fua);
    LeaveSettled(s, r, f, EndNow(s.limits, f.rq));
    NotLive(s, r);
    LeaveHead(s, r, f, EndNow(s.limits, f.rq));
  }

  lemma {:induction false} NewRecord(s: State, r: nat, f: FlushReq)
    requires ListsOk(s) && r !in s.reqs && f.rq.flushSeq
    ensures ListsBut(s.(reqs := s.reqs[r := f]), r)
  {
    UnlinkOk(s, r);
    MapUpdate(s.reqs, r, f);
    assert Waiting(s.reqs) - {r} == Waiting(s.reqs) && Writing(s.reqs) - {r} == Writing(s.reqs);
  }

  lemma {:induction false} NotLive(s: State, r: nat)
    requires HeadOk(s) && r !in s.reqs
    ensures Rq(r) !in s.queueHead
  {
    assert Rq(r) !in Heads(s.reqs);
    assert Rq(r) !in Elems(s.queueHead);
  }

  lemma {:induction false} NewLive(s: State, r: nat, f: FlushReq)
    requires CoverageOk(s) && EndedOk(s) && r !in s.reqs && r !in s.gone && Covered(s.dev, r, f)
    ensures var t := s.(reqs := s.reqs[r := f]); CoverageOk(t) && EndedOk(t)
  {
  }

  lemma {:induction false} PlainSettled(s: State, r: nat, f: FlushReq)
    requires Settled(s) && r !in s.reqs && r !in s.gone && ReqOk(s.caps, r, f) && !f.rq.flushSeq && Covered(s.dev, r, f)
    ensures Settled(s.(reqs := s.reqs[r := f]))
  {
    NewLive(s, r, f);
    MapUpdate(s.reqs, r, f);
    assert Waiting(s.reqs) - {r} == Waiting(s.reqs) && Writing(s.reqs) - {r} == Writing(s.reqs);
  }

  lemma {:induction false} PlainHead(s: State, r: nat, f: FlushReq)
    requires HeadOk(s) && r !in s.reqs && Queued(f)
    ensures HeadOk(s.(reqs := s.reqs[r := f], queueHead := s.queueHead + [Rq(r)]))
  {
    NotLive(s, r);
    Snoc(s.queueHead, Rq(r));
    HeadsUpdate(s.reqs, r, f);
  }

  /** Data without a flush: the request is queued like any other. */
  lemma {:induction false} InsertPlainValid(s: State, r: nat, rq: Request, flush: bool, fua: bool, now: nat)
    requires Valid(s) && Submittable(s, r, rq, flush, fua) &&
             Policy(s.caps, rq.dataLen >= SECTOR_SIZE, flush, fua) == {DATA}
    ensures Valid(Insert(s, r, rq, flush, fua, now))
  {
    var f := Submitted(s, rq, flush, fua, false);
    assert DATA in Policy(s.caps, f.data, flush, fua) && PREFLUSH !in Policy(s.caps, f.data, flush, fua);
    PlainSettled(s, r, f);
    PlainHead(s, r, f);
    HeadApart(s.(reqs := s.reqs[r := f]), s.queueHead + [Rq(r)]);
  }

  lemma {:induction false} SubmittedRecord(s: State, r: nat, rq: Request, flush: bool, fua: bool)
    requires Submittable(s, r, rq, flush, fua) && DeviceOk(s)
    ensures var f := Submitted(s, rq, flush, fua, true);
            var g := f.(fseq := ACTIONS - Policy(s.caps, f.data, flush, fua));
            SequenceOk(s.caps, r, g) && Covered(s.dev, r, f) && Covered(s.dev, r, g)
  {
  }

  /** The request enters the sequence at the first stage its policy asks for. */
  lemma {:induction false} InsertSequencedValid(s: State, r: nat, rq: Request, flush: bool, fua: bool, now: nat)
    requires Valid(s) && Submittable(s, r, rq, flush, fua)
    requires var policy := Policy(s.caps, rq.dataLen >= SECTOR_SIZE, flush, fua); policy != {} && policy != {DATA}
    ensures Valid(Insert(s, r, rq, flush, fua, now))
  {
    var f := Submitted(s, rq, flush, fua, true);
    var t := s.(reqs := s.reqs[r := f]);
    var done := ACTIONS - Policy(s.caps, f.data, flush, fua);
    NewSequenced(s, r, rq, flush, fua);
    MoveCore(t, r, done, 0, now);
    NotWaiting(s, r);
    MoveIndex(t, r, done, 0, now);
  }

  lemma {:induction false} NewSequenced(s: State, r: nat, rq: Request, flush: bool, fua: bool)
    requires Valid(s) && Submittable(s, r, rq, flush, fua)
    ensures var f := Submitted(s, rq, flush, fua, true);
            Movable(s.(reqs := s.reqs[r := f]), r, ACTIONS - Policy(s.caps, f.data, flush, fua), 0)
  {
    var f := Submitted(s, rq, flush, fua, true);
    SubmittedRecord(s, r, rq, flush, fua);
    assert {} + (ACTIONS - Policy(s.caps, f.data, flush, fua)) == ACTIONS - Policy(s.caps, f.data, flush, fua);
    NewLive(s, r, f);
    NewRecord(s, r, f);
    NewHead(s, r, f);
  }

  lemma {:induction false} NewHead(s: State, r: nat, f: FlushReq)
    requires HeadOk(s) && r !in s.reqs && !Queued(f)
    ensures HeadOk(s.(reqs := s.reqs[r := f])) && Rq(r) !in s.queueHead
  {
    NotLive(s, r);
    HeadsUpdate(s.reqs, r, f);
  }

  // ----- flush completions

  function QueueAt(s: State, idx: bool): seq<nat> { if idx then s.queue1 else s.queue0 }

  /** Inside the loop of flush_end_io: `waiting` are the requests still to be pushed, on
      queue `idx`; a flush may already have been issued for the other queue. */
  predicate Pushing(s: State, idx: bool, waiting: seq<nat>, error: int) {
    && Core(s) && !s.flushStarted && s.runningIdx == !idx && QueueAt(s, idx) == waiting
    && (InFlight(s) ==> QueueAt(s, !idx) != [])
    && (error == 0 ==> forall r :: r in waiting ==> r in s.reqs && Need(r, s.reqs[r]) <= s.dev.durable)
  }

  /** A flush stage is recorded: the next one is never a flush for a request that was
      submitted as the block layer asks. */
  lemma {:induction false} FlushRecord(caps: Caps, d: Device, r: nat, f: FlushReq, error: int)
    requires ReqOk(caps, r, f) && Covered(d, r, f) && Waits(f) && (error == 0 ==> Need(r, f) <= d.durable)
    ensures var g := f.(fseq := f.fseq + {CurStage(f.fseq)});
            && SequenceOk(caps, r, g) && (error == 0 ==> Covered(d, r, g))
            && (CurStage(g.fseq) == DATA || CurStage(g.fseq) == DONE)
            && (CurStage(g.fseq) == DATA ==> !g.started)
  {
  }

  lemma {:induction false} OnQueue(s: State, idx: bool, r: nat)
    requires ListsOk(s) && r in QueueAt(s, idx)
    ensures r in s.reqs && Waits(s.reqs[r]) && r !in QueueAt(s, !idx)
  {
    assert r in Elems(QueueAt(s, idx));
    assert r in Waiting(s.reqs);
  }

  lemma {:induction false} PushMovable(s: State, idx: bool, waiting: seq<nat>, error: int)
    requires Pushing(s, idx, waiting, error) && waiting != []
    ensures var r := waiting[0];
            && r in s.reqs && Waits(s.reqs[r])
            && Movable(s, r, {CurStage(s.reqs[r].fseq)}, error)
            && (error == 0 ==>
                  var g := s.reqs[r].fseq + {CurStage(s.reqs[r].fseq)};
                  CurStage(g) == DATA || CurStage(g) == DONE)
  {
    var r := waiting[0];
    OnQueue(s, idx, r);
    UnlinkOk(s, r);
    NotQueued(s, r);
    FlushRecord(s.caps, s.dev, r, s.reqs[r], error);
  }

  /** Pushing one request takes it off the queue, and nothing is put on either queue. */
  lemma {:induction false} PushQueues(s: State, idx: bool, r: nat, done: set<Stage>, error: int, now: nat)
    requires r in s.reqs
    requires QueueAt(s, idx) != [] && QueueAt(s, idx)[0] == r && Distinct(QueueAt(s, idx)) && r !in QueueAt(s, !idx)
    requires error == 0 ==> CurStage(s.reqs[r].fseq + done) == DATA || CurStage(s.reqs[r].fseq + done) == DONE
    ensures var t := NextStage(s, r, done, error, now);
            QueueAt(t, idx) == QueueAt(s, idx)[1..] && QueueAt(t, !idx) == QueueAt(s, !idx)
  {
    WithoutHead(QueueAt(s, idx));
    WithoutAbsent(QueueAt(s, !idx), r);
  }

  /** A kick changes neither the queues nor the requests. */
  lemma {:induction false} KickFrame(s: State, idx: bool, now: nat)
    requires s.runningIdx == !idx && (InFlight(s) ==> QueueAt(s, !idx) != [])
    ensures var t := Kick(s, now);
            && QueueAt(t, idx) == QueueAt(s, idx) && QueueAt(t, !idx) == QueueAt(s, !idx)
            && t.runningIdx == s.runningIdx && t.flushStarted == s.flushStarted && t.reqs == s.reqs
            && t.dev.durable == s.dev.durable && (InFlight(t) ==> QueueAt(t, !idx) != [])
  {
  }

  /** A stage change of `r` touches no other request, index or device state. */
  predicate Apart(s: State, t: State, r: nat) {
    && t.pendingIdx == s.pendingIdx && t.runningIdx == s.runningIdx && t.flushStarted == s.flushStarted
    && t.dev == s.dev
    && forall x :: x in s.reqs && x != r ==> x in t.reqs && t.reqs[x] == s.reqs[x]
  }

  lemma {:induction false} MovesApart(s: State, r: nat, f: FlushReq, error: int, now: nat)
    ensures Apart(s, ToPending(s, r, f, now), r)
    ensures Apart(s, ToData(s, r, f), r)
    ensures Apart(s, Finish(s, r, f, error), r)
  {
  }

  lemma {:induction false} StageFrame(s: State, r: nat, done: set<Stage>, error: int, now: nat)
    requires r in s.reqs
    ensures Apart(s, NextStage(s, r, done, error, now), r)
  {
    MovesApart(s, r, s.reqs[r].(fseq := s.reqs[r].fseq + done), error, now);
  }

  /** Request `r` has been pushed off queue `idx`. */
  predicate Pushed(s: State, t: State, idx: bool, r: nat) {
    && QueueAt(s, idx) != [] && QueueAt(t, idx) == QueueAt(s, idx)[1..]
    && t.runningIdx == s.runningIdx && t.flushStarted == s.flushStarted && t.dev.durable == s.dev.durable
    && (InFlight(t) ==> QueueAt(t, !idx) != [])
    && (forall x :: x in s.reqs && x != r ==> x in t.reqs && t.reqs[x] == s.reqs[x])
  }

  lemma {:induction false} PushFrame(s: State, idx: bool, r: nat, done: set<Stage>, error: int, now: nat)
    requires r in s.reqs && s.runningIdx == !idx && (InFlight(s) ==> QueueAt(s, !idx) != [])
    requires QueueAt(s, idx) != [] && QueueAt(s, idx)[0] == r && Distinct(QueueAt(s, idx)) && r !in QueueAt(s, !idx)
    requires error == 0 ==> CurStage(s.reqs[r].fseq + done) == DATA || CurStage(s.reqs[r].fseq + done) == DONE
    ensures Pushed(s, CompleteSeq(s, r, done, error, now), idx, r)
  {
    PushQueues(s, idx, r, done, error, now);
    StageFrame(s, r, done, error, now);
    KickFrame(NextStage(s, r, done, error, now), idx, now);
  }

  lemma {:induction false} PushCore(s: State, idx: bool, waiting: seq<nat>, error: int, now: nat)
    requires Pushing(s, idx, waiting, error) && waiting != [] && waiting[0] in s.reqs
    ensures var t := CompleteSeq(s, waiting[0], {CurStage(s.reqs[waiting[0]].fseq)}, error, now); Core(t) && NoStall(t)
  {
    PushMovable(s, idx, waiting, error);
    MoveCore(s, waiting[0], {CurStage(s.reqs[waiting[0]].fseq)}, error, now);
  }

  lemma {:induction false} PushNext(s: State, t: State, idx: bool, waiting: seq<nat>, error: int)
    requires Pushing(s, idx, waiting, error) && waiting != [] && Distinct(waiting)
    requires Core(t) && Pushed(s, t, idx, waiting[0])
    ensures Pushing(t, idx, waiting[1..], error)
  {
    Uncons(waiting);
  }

  lemma {:induction false} PushStep(s: State, idx: bool, waiting: seq<nat>, error: int, now: nat)
    requires Pushing(s, idx, waiting, error) && waiting != []
    ensures waiting[0] in s.reqs
    ensures var t := CompleteSeq(s, waiting[0], {CurStage(s.reqs[waiting[0]].fseq)}, error, now);
            Pushing(t, idx, waiting[1..], error) && NoStall(t)
  {
    var r := waiting[0];
    PushMovable(s, idx, waiting, error);
    OnQueue(s, idx, r);
    PushFrame(s, idx, r, {CurStage(s.reqs[r].fseq)}, error, now);
    PushCore(s, idx, waiting, error, now);
    PushNext(s, CompleteSeq(s, r, {CurStage(s.reqs[r].fseq)}, error, now), idx, waiting, error);
  }

  lemma {:induction false} PushValid(s: State, idx: bool, waiting: seq<nat>, error: int, now: nat)
    requires Pushing(s, idx, waiting, error) && (waiting == [] ==> NoStall(s))
    ensures Valid(Push(s, waiting, error, now))
    decreases |waiting|
  {
    if waiting != [] {
      PushStep(s, idx, waiting, error, now);
      PushValid(CompleteSeq(s, waiting[0], {CurStage(s.reqs[waiting[0]].fseq)}, error, now), idx, waiting[1..],
        error, now);
    }
  }

  /** The state in which flush_end_io starts its loop. */
  function Finishing(s: State, error: int): State {
    s.(runningIdx := !s.runningIdx, flushStarted := false,
       dev := if error == 0 then s.dev.(durable := s.dev.durable + s.dev.covered) else s.dev)
  }

  lemma {:induction false} FinishingPushes(s: State, error: int)
    requires Valid(s) && s.flushStarted
    ensures Other(s) == QueueAt(s, !s.pendingIdx) && Other(s) != []
    ensures Pushing(Finishing(s, error), !s.pendingIdx, Other(s), error)
  {
    GrowKeeps(s, Finishing(s, error).dev);
    assert Elems(s.queueHead) == Heads(s.reqs);
  }

  /** A flush completes: everyone who waited for it moves on. */
  lemma {:induction false} FlushDoneValid(s: State, error: int, now: nat)
    requires Valid(s) && s.flushStarted
    ensures Valid(FlushDone(s, error, now))
  {
    FinishingPushes(s, error);
    PushValid(Finishing(s, error), !s.pendingIdx, Other(s), error, now);
  }
}
