/**
 The sequencer's lists: every sequenced request waits on exactly one of them, the one
 its current stage calls for; a flush is in flight exactly when the two indices differ;
 and requests wait for a flush that is not in flight only while data is.
 */
module FlushLists {
  import opened Lists
  import opened FlushSpec

  predicate Waits(f: FlushReq) {
    f.rq.flushSeq && (CurStage(f.fseq) == PREFLUSH || CurStage(f.fseq) == POSTFLUSH)
  }

  predicate Writes(f: FlushReq) {
    f.rq.flushSeq && CurStage(f.fseq) == DATA
  }

  function Waiting(reqs: map<nat, FlushReq>): set<nat> {
    set r | r in reqs && Waits(reqs[r])
  }

  function Writing(reqs: map<nat, FlushReq>): set<nat> {
    set r | r in reqs && Writes(reqs[r])
  }

  /** Each list holds each request at most once, and together they hold the requests
      that wait for a flush and those whose data is out. */
  predicate Sorted(q0: seq<nat>, q1: seq<nat>, d: seq<nat>, waiting: set<nat>, writing: set<nat>) {
    && Distinct(q0) && Distinct(q1) && Distinct(d)
    && Elems(q0) !! Elems(q1) && Elems(q0) + Elems(q1) == waiting
    && Elems(d) == writing
  }

  predicate ListsOk(s: State) {
    Sorted(s.queue0, s.queue1, s.dataInFlight, Waiting(s.reqs), Writing(s.reqs))
  }

  /** The same but for one request, which may be on any list or none. */
  predicate ListsBut(s: State, r: nat) {
    var t := Unlink(s, r);
    Sorted(t.queue0, t.queue1, t.dataInFlight, Waiting(s.reqs) - {r}, Writing(s.reqs) - {r})
  }

  lemma {:induction false} MapUpdate(reqs: map<nat, FlushReq>, r: nat, f: FlushReq)
    ensures Waiting(reqs[r := f]) == if Waits(f) then Waiting(reqs) - {r} + {r} else Waiting(reqs) - {r}
    ensures Writing(reqs[r := f]) == if Writes(f) then Writing(reqs) - {r} + {r} else Writing(reqs) - {r}
  {
  }

  lemma {:induction false} MapRemove(reqs: map<nat, FlushReq>, r: nat)
    ensures Waiting(reqs - {r}) == Waiting(reqs) - {r}
    ensures Writing(reqs - {r}) == Writing(reqs) - {r}
  {
  }

  lemma {:induction false} UnlinkOk(s: State, r: nat)
    requires ListsOk(s)
    ensures ListsBut(s, r)
  {
    WithoutDistinct(s.queue0, r);
    WithoutDistinct(s.queue1, r);
    WithoutDistinct(s.dataInFlight, r);
  }

  lemma {:induction false} Unlinked(s: State, r: nat)
    ensures var t := Unlink(s, r); r !in t.queue0 && r !in t.queue1 && r !in t.dataInFlight
  {
    assert r !in Elems(Unlink(s, r).queue0) && r !in Elems(Unlink(s, r).queue1) &&
           r !in Elems(Unlink(s, r).dataInFlight);
  }

  lemma {:induction false} AddWaiter(q0: seq<nat>, q1: seq<nat>, d: seq<nat>, waiting: set<nat>, writing: set<nat>,
                                     r: nat)
    requires Sorted(q0, q1, d, waiting, writing) && r !in q0 && r !in q1
    ensures Sorted(q0 + [r], q1, d, waiting + {r}, writing) && Sorted(q0, q1 + [r], d, waiting + {r}, writing)
  {
    Snoc(q0, r);
    Snoc(q1, r);
  }

  lemma {:induction false} AddWriter(q0: seq<nat>, q1: seq<nat>, d: seq<nat>, waiting: set<nat>, writing: set<nat>,
                                     r: nat)
    requires Sorted(q0, q1, d, waiting, writing) && r !in d
    ensures Sorted(q0, q1, d + [r], waiting, writing + {r})
  {
    Snoc(d, r);
  }

  lemma {:induction false} ToPendingLists(s: State, r: nat, f: FlushReq, now: nat)
    requires ListsBut(s, r) && Waits(f)
    ensures ListsOk(ToPending(s, r, f, now))
  {
    var t := Unlink(s, r);
    Unlinked(s, r);
    MapUpdate(s.reqs, r, f);
    AddWaiter(t.queue0, t.queue1, t.dataInFlight, Waiting(s.reqs) - {r}, Writing(s.reqs) - {r}, r);
  }

  lemma {:induction false} ToDataLists(s: State, r: nat, f: FlushReq)
    requires ListsBut(s, r) && Writes(f)
    ensures ListsOk(ToData(s, r, f))
  {
    var t := Unlink(s, r);
    Unlinked(s, r);
    MapUpdate(s.reqs, r, f);
    AddWriter(t.queue0, t.queue1, t.dataInFlight, Waiting(s.reqs) - {r}, Writing(s.reqs) - {r}, r);
  }

  lemma {:induction false} FinishLists(s: State, r: nat, f: FlushReq, error: int)
    requires ListsBut(s, r)
    ensures ListsOk(Finish(s, r, f, error))
  {
    MapRemove(s.reqs, r);
  }

  /** Whatever stage a request moves to, it ends up on the list for it and no other. */
  lemma {:induction false} NextStageLists(s: State, r: nat, done: set<Stage>, error: int, now: nat)
    requires r in s.reqs && s.reqs[r].rq.flushSeq && ListsBut(s, r)
    ensures ListsOk(NextStage(s, r, done, error, now))
  {
    var f := s.reqs[r].(fseq := s.reqs[r].fseq + done);
    match if error == 0 then CurStage(f.fseq) else DONE
    case DATA => ToDataLists(s, r, f);
    case DONE => FinishLists(s, r, f, error);
    case _ => ToPendingLists(s, r, f, now);
  }
}
