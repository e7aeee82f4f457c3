/**
 The FLUSH/FUA sequencer (block/blk-flush.c), as functions on the queue's state.

 A request that needs it goes through PREFLUSH, DATA and POSTFLUSH, as far as its
 policy asks for them. Flushes are double buffered: requests wait on the pending
 queue, a flush is issued for all of them at once, and meanwhile new ones wait on the
 other queue.

 The state also records what the device holds: writes completed and, of these, the
 writes on non-volatile media. A flush makes durable what was complete when the device
 started it.
 */
module FlushSpec {
  import opened Lists
  import opened BlockTypes
  import opened Segments
  import opened Completion

  const HZ: nat := 100
  const FLUSH_PENDING_TIMEOUT: nat := 5 * HZ

  datatype Stage = PREFLUSH | DATA | POSTFLUSH | DONE

  const ACTIONS: set<Stage> := {PREFLUSH, DATA, POSTFLUSH}

  /** q->flush_flags: has the device a write-back cache, and does it support FUA? */
  datatype Caps = Caps(flush: bool, fua: bool)

  /** An entry of the dispatch queue: the flush request or a submitted request. */
  datatype Entry = FlushRq | Rq(id: nat)

  /** A FLUSH/FUA request. `fseq` holds the stages recorded as complete; `flush` and
      `fua` are the flags as submitted, `deviceFua` whether REQ_FUA is passed on;
      `before` are the writes that were complete when it was submitted. */
  datatype FlushReq = FlushReq(rq: Request, fseq: set<Stage>, flush: bool, fua: bool, data: bool,
                               deviceFua: bool, started: bool, before: set<nat>)

  /** What the device has: completed writes, durable writes, and the writes complete
      when the flush in flight was issued and when the device started it. */
  datatype Device = Device(completed: set<nat>, durable: set<nat>, issued: set<nat>, covered: set<nat>)

  /** The flush-related fields of the request queue. `gone` remembers the requests
      that have been finished and `ended` the bio_endio calls, in order. */
  datatype State = State(limits: Queue, caps: Caps,
                         queue0: seq<nat>, queue1: seq<nat>, pendingIdx: bool, runningIdx: bool,
                         dataInFlight: seq<nat>, pendingSince: nat,
                         queueHead: seq<Entry>, flushStarted: bool,
                         reqs: map<nat, FlushReq>, gone: map<nat, FlushReq>, ended: seq<End>, dev: Device)

  // ----- requests with at most one bio

  predicate HasBio(r: Request) { r.bios.Link? || r.done.Link? }

  function TheBio(r: Request): Bio
    requires HasBio(r)
  {
    if r.bios.Link? then r.bios.bio else r.done.bio
  }

  /** The bio is linked, or has been completed once. */
  predicate OneBio(r: Request) {
    && RequestOk(r)
    && (r.done.Link? ==> r.bios.Null? && r.done.next.Null? && r.done.bio.size == 0)
    && (r.bios.Link? ==> r.bios.next.Null?)
  }

  /** blk_flush_restore_request. */
  function Restore(r: Request): Request {
    if r.bios.Null? then r.(bios := r.done, done := Null, flushSeq := false) else r.(flushSeq := false)
  }

  lemma {:induction false} RestoreOk(r: Request)
    requires OneBio(r)
    ensures OneBio(Restore(r)) && RequestOk(Restore(r))
  {
  }

  /** The bio_endio call of __blk_end_request_all on a restored request. */
  function EndAll(r: Request, error: int): seq<End> {
    if HasBio(r) then [End(TheBio(r).id, Status(TheBio(r), error))] else []
  }

  /** The restored request is finished by one pass of the completion path, which ends
      its bio exactly once. */
  lemma {:induction false} EndAllOnce(q: Queue, r: Request, error: int)
    requires OneBio(r)
    ensures RequestOk(Restore(r))
    ensures var u := UpdateRequest(q, Restore(r), error, Restore(r).dataLen); !u.more && u.ended == EndAll(r, error)
  {
    RestoreOk(r);
    FullCompletion(q, Restore(r), error);
    var s := Restore(r);
    if s.bios.Link? {
      var w := WalkBios(s.bios, s.dataLen, error);
      assert w.done == Link(Charge(s.bios.bio, s.bios.bio.size, error), Null);
      assert Ends(w.done, false, error) == [End(s.bios.bio.id, Status(s.bios.bio, error))] + Ends(Null, false, error);
    }
  }

  /** Completing the data inside the sequence never ends the bio; an error marks it. */
  lemma {:induction false} DataPass(q: Queue, r: Request, error: int, n: nat)
    requires OneBio(r) && r.bios.Link? && r.flushSeq
    ensures var u := UpdateRequest(q, r, error, n);
            && u.ended == [] && OneBio(u.rq) && HasBio(u.rq) && u.rq.flushSeq
            && TheBio(u.rq).id == TheBio(r).id && (u.more <==> u.rq.bios.Link?)
            && (TheBio(u.rq).uptodate ==> TheBio(r).uptodate)
            && (!u.more ==> (TheBio(u.rq).uptodate <==> TheBio(r).uptodate && error == 0))
  {
    var b := r.bios.bio;
    if n < b.size {
      AdvanceOk(b, n, error);
      var left := Link(Advance(b, n, error), Null);
      HintedOk(q, left);
      CurWithin(left);
    }
  }

  // ----- policy and stages

  /** blk_flush_policy. */
  function Policy(caps: Caps, data: bool, flush: bool, fua: bool): set<Stage> {
    (if data then {DATA} else {}) +
    (if caps.flush && flush then {PREFLUSH} else {}) +
    (if caps.flush && !caps.fua && fua then {POSTFLUSH} else {})
  }

  /** blk_flush_cur_seq: the lowest stage not recorded as complete. */
  function CurStage(fseq: set<Stage>): Stage {
    if PREFLUSH !in fseq then PREFLUSH
    else if DATA !in fseq then DATA
    else if POSTFLUSH !in fseq then POSTFLUSH
    else DONE
  }

  // ----- the steps

  function Pending(s: State): seq<nat> { if s.pendingIdx then s.queue1 else s.queue0 }

  function Other(s: State): seq<nat> { if s.pendingIdx then s.queue0 else s.queue1 }

  predicate InFlight(s: State) { s.pendingIdx != s.runningIdx }

  /** The list unlinking half of list_move_tail and list_del_init. */
  function Unlink(s: State, r: nat): State {
    s.(queue0 := Without(s.queue0, r), queue1 := Without(s.queue1, r), dataInFlight := Without(s.dataInFlight, r))
  }

  function AddPending(s: State, r: nat): State {
    if s.pendingIdx then s.(queue1 := s.queue1 + [r]) else s.(queue0 := s.queue0 + [r])
  }

  /** blk_kick_flush: issues a flush for the pending queue unless one is in flight, or
      data is in flight and the oldest waiter has not timed out. */
  function Kick(s: State, now: nat): State {
    if InFlight(s) || Pending(s) == [] then s
    else if s.dataInFlight != [] && now < s.pendingSince + FLUSH_PENDING_TIMEOUT then s
    else s.(pendingIdx := !s.pendingIdx, queueHead := s.queueHead + [FlushRq],
            dev := s.dev.(issued := s.dev.completed))
  }

  /** Queue for a flush. */
  function ToPending(s: State, r: nat, f: FlushReq, now: nat): State {
    AddPending(Unlink(s, r).(reqs := s.reqs[r := f],
                             pendingSince := if Pending(s) == [] then now else s.pendingSince), r)
  }

  /** Send the data to the driver, ahead of what is queued. */
  function ToData(s: State, r: nat, f: FlushReq): State {
    var t := Unlink(s, r);
    t.(reqs := s.reqs[r := f], dataInFlight := t.dataInFlight + [r], queueHead := [Rq(r)] + s.queueHead)
  }

  /** The sequence is over, or has failed: end the request. */
  function Finish(s: State, r: nat, f: FlushReq, error: int): State {
    Unlink(s, r).(reqs := s.reqs - {r}, gone := s.gone[r := f], ended := s.ended + EndAll(f.rq, error))
  }

  /** The part of blk_flush_complete_seq before the kick. */
  function NextStage(s: State, r: nat, done: set<Stage>, error: int, now: nat): State
    requires r in s.reqs
  {
    var f := s.reqs[r].(fseq := s.reqs[r].fseq + done);
    match if error == 0 then CurStage(f.fseq) else DONE
    case DATA => ToData(s, r, f)
    case DONE => Finish(s, r, f, error)
    case _ => ToPending(s, r, f, now)
  }

  /** blk_flush_complete_seq. */
  function CompleteSeq(s: State, r: nat, done: set<Stage>, error: int, now: nat): State
    requires r in s.reqs
  {
    Kick(NextStage(s, r, done, error, now), now)
  }

  /** The loop of flush_end_io over the requests that waited for the flush. */
  function Push(s: State, waiting: seq<nat>, error: int, now: nat): State
    decreases |waiting|
  {
    if waiting == [] || waiting[0] !in s.reqs then s
    else
      Push(CompleteSeq(s, waiting[0], {CurStage(s.reqs[waiting[0]].fseq)}, error, now), waiting[1..], error, now)
  }

  /** flush_end_io, when the device reports the flush done. */
  function FlushDone(s: State, error: int, now: nat): State {
    Push(s.(runningIdx := !s.runningIdx, flushStarted := false,
            dev := if error == 0 then s.dev.(durable := s.dev.durable + s.dev.covered) else s.dev),
         Other(s), error, now)
  }

  /** A write without error: it is complete, and durable at once if the device has no
      volatile cache or was told to bypass it. */
  function WriteDone(s: State, w: nat, fua: bool): State {
    s.(dev := s.dev.(completed := s.dev.completed + {w},
                     durable := if fua || !s.caps.flush then s.dev.durable + {w} else s.dev.durable))
  }

  /** A driver completes `n` bytes of a started request. */
  function DataDone(s: State, r: nat, error: int, n: nat, now: nat): State
    requires r in s.reqs && OneBio(s.reqs[r].rq)
  {
    var f := s.reqs[r];
    var u := UpdateRequest(s.limits, f.rq, error, n);
    if u.more then s.(reqs := s.reqs[r := f.(rq := u.rq)], ended := s.ended + u.ended)
    else
      var t := if f.data && HasBio(u.rq) && TheBio(u.rq).uptodate then WriteDone(s, r, f.deviceFua) else s;
      if f.rq.flushSeq then
        CompleteSeq(t.(reqs := s.reqs[r := f.(rq := u.rq)], ended := s.ended + u.ended), r, {DATA}, error, now)
      else t.(reqs := s.reqs - {r}, gone := s.gone[r := f], ended := s.ended + u.ended)
  }

  /** The driver takes the first entry of the dispatch queue. */
  function Start(s: State): State
    requires s.queueHead != []
  {
    var t := s.(queueHead := s.queueHead[1..]);
    match s.queueHead[0]
    case FlushRq => t.(flushStarted := true, dev := s.dev.(covered := s.dev.completed))
    case Rq(r) => if r in s.reqs then t.(reqs := s.reqs[r := s.reqs[r].(started := true)]) else t
  }

  /** A new record, inside or outside a sequence. */
  function Submitted(s: State, rq: Request, flush: bool, fua: bool, sequenced: bool): FlushReq {
    FlushReq(rq.(flushSeq := sequenced), {}, flush, fua, rq.dataLen >= SECTOR_SIZE, fua && s.caps.fua, false,
      s.dev.completed)
  }

  /** The bio_endio calls when a request without data is completed on the spot. */
  function EndNow(q: Queue, rq: Request): seq<End>
    requires RequestOk(rq)
  {
    UpdateRequest(q, rq, 0, 0).ended
  }

  /** blk_insert_flush. */
  function Insert(s: State, r: nat, rq: Request, flush: bool, fua: bool, now: nat): State
    requires OneBio(rq) && rq.done.Null?
  {
    var policy := Policy(s.caps, rq.dataLen >= SECTOR_SIZE, flush, fua);
    var f := Submitted(s, rq, flush, fua, false);
    if policy == {} then s.(gone := s.gone[r := f], ended := s.ended + EndNow(s.limits, f.rq))
    else if policy == {DATA} then s.(queueHead := s.queueHead + [Rq(r)], reqs := s.reqs[r := f])
    else CompleteSeq(s.(reqs := s.reqs[r := Submitted(s, rq, flush, fua, true)]), r, ACTIONS - policy, 0, now)
  }
}
