/**
 The sequencer as the kernel has it: the queue's flush fields, updated in place. Each
 method is proved to do what FlushSpec says, its BUG_ON conditions are asserted, and
 flush_end_io walks the live list with a saved successor.
 */
module FlushQueue {
  import opened Lists
  import opened BlockTypes
  import opened Segments
  import opened Completion
  import opened FlushSpec
  import opened FlushLists
  import opened FlushInvariants
  import opened FlushSteps

  datatype Cursor = Head | At(r: nat)

  /** The entry after `r`, or the list head. */
  function Successor(list: seq<nat>, r: nat): Cursor {
    if |list| < 2 then Head
    else if list[0] == r then At(list[1])
    else Successor(list[1..], r)
  }

  lemma {:induction false} FirstSuccessor(s: State, idx: bool, waiting: seq<nat>, error: int)
    requires Pushing(s, idx, waiting, error) && waiting != []
    ensures Successor(QueueAt(s, idx), waiting[0]) == if |waiting| == 1 then Head else At(waiting[1])
  {
  }

  /** One turn of the loop in flush_end_io. */
  lemma {:induction false} PushTurn(s: State, idx: bool, waiting: seq<nat>, error: int, now: nat)
    requires Pushing(s, idx, waiting, error) && waiting != []
    ensures var r := waiting[0];
            && r in s.reqs && Waits(s.reqs[r]) && Rq(r) !in s.queueHead
            && var t := CompleteSeq(s, r, {CurStage(s.reqs[r].fseq)}, error, now);
               Pushing(t, idx, waiting[1..], error) && Push(t, waiting[1..], error, now) == Push(s, waiting, error, now)
  {
    PushStep(s, idx, waiting, error, now);
    PushMovable(s, idx, waiting, error);
  }

  /** The state in which flush_end_io starts its loop, over the queue at the old running
      index. */
  lemma {:induction false} FinishingReady(s: State, error: int, now: nat, idx: bool)
    requires Valid(s) && s.flushStarted && idx == s.runningIdx
    ensures var t := Finishing(s, error);
            && Pushing(t, idx, QueueAt(t, idx), error)
            && FlushDone(s, error, now) == Push(t, QueueAt(t, idx), error, now)
  {
    FinishingPushes(s, error);
  }

  class RequestQueue {
    const limits: Queue
    const caps: Caps
    var queue0: seq<nat>
    var queue1: seq<nat>
    var pendingIdx: bool
    var runningIdx: bool
    var dataInFlight: seq<nat>
    var pendingSince: nat
    var queueHead: seq<Entry>
    var flushStarted: bool
    var reqs: map<nat, FlushReq>
    var delayed: bool
    // history, and what the device holds: not fields of the kernel's queue
    var gone: map<nat, FlushReq>
    var ended: seq<End>
    var dev: Device

    ghost function View(): State
      reads this
    {
      State(limits, caps, queue0, queue1, pendingIdx, runningIdx, dataInFlight, pendingSince, queueHead, flushStarted,
            reqs, gone, ended, dev)
    }

    constructor (limits: Queue, caps: Caps, dev: Device)
      requires dev.durable <= dev.completed && (!caps.flush ==> dev.durable == dev.completed)
      ensures Valid(View())
    {
      this.limits, this.caps := limits, caps;
      queue0, queue1, pendingIdx, runningIdx := [], [], false, false;
      dataInFlight, pendingSince, queueHead, flushStarted, delayed := [], 0, [], false, false;
      reqs, gone, ended, this.dev := map[], map[], [], dev;
      new;
      assert Waiting(reqs) == {} && Writing(reqs) == {} && Heads(reqs) == {};
    }

    /** blk_kick_flush. */
    method KickFlush(now: nat) returns (issued: bool)
      modifies this
      ensures View() == Kick(old(View()), now)
      ensures issued <==> pendingIdx != old(pendingIdx)
      ensures |queueHead| == |old(queueHead)| + (if issued then 1 else 0) && delayed == old(delayed)
    {
      var pending := if pendingIdx then queue1 else queue0;
      if pendingIdx != runningIdx || pending == [] {
        return false;
      }
      if dataInFlight != [] && now < pendingSince + FLUSH_PENDING_TIMEOUT {
        return false;
      }
      pendingIdx := !pendingIdx;
      queueHead := queueHead + [FlushRq];
      dev := dev.(issued := dev.completed);
      return true;
    }

    /** The unlinking half of list_move_tail and list_del_init on flush.list. */
    method Delete(r: nat)
      modifies `queue0, `queue1, `dataInFlight
      ensures View() == Unlink(old(View()), r)
    {
      queue0 := Without(queue0, r);
      queue1 := Without(queue1, r);
      dataInFlight := Without(dataInFlight, r);
    }

    /** Queue for a flush. */
    method Enqueue(r: nat, f: FlushReq, now: nat)
      modifies `queue0, `queue1, `dataInFlight, `pendingSince, `reqs
      ensures View() == ToPending(old(View()), r, f, now)
    {
      var pending := if pendingIdx then queue1 else queue0;
      if pending == [] {
        pendingSince := now;
      }
      reqs := reqs[r := f];
      Delete(r);
      if pendingIdx {
        queue1 := queue1 + [r];
      } else {
        queue0 := queue0 + [r];
      }
    }

    /** Send the data to the driver. */
    method SendData(r: nat, f: FlushReq)
      modifies `queue0, `queue1, `dataInFlight, `queueHead, `reqs
      ensures View() == ToData(old(View()), r, f)
    {
      reqs := reqs[r := f];
      Delete(r);
      dataInFlight := dataInFlight + [r];
      queueHead := [Rq(r)] + queueHead;
    }

    /** Restore the request and end it. */
    method EndRequest(r: nat, f: FlushReq, error: int)
      requires Rq(r) !in queueHead
      modifies `queue0, `queue1, `dataInFlight, `reqs, `gone, `ended
      ensures View() == Finish(old(View()), r, f, error)
    {
      assert Rq(r) !in queueHead;
      Delete(r);
      reqs := reqs - {r};
      gone := gone[r := f];
      ended := ended + EndAll(f.rq, error);
    }

    /** blk_flush_complete_seq. */
    method CompleteStages(r: nat, done: set<Stage>, error: int, now: nat) returns (queued: bool)
      requires r in reqs && done !! reqs[r].fseq && Rq(r) !in queueHead
      modifies this
      ensures View() == CompleteSeq(old(View()), r, done, error, now)
      ensures |queueHead| >= |old(queueHead)| && (queued <==> |queueHead| > |old(queueHead)|) && delayed == old(delayed)
    {
      queued := false;
      assert reqs[r].fseq * done == {};
      var f := reqs[r].(fseq := reqs[r].fseq + done);
      match if error == 0 then CurStage(f.fseq) else DONE {
        case PREFLUSH =>
          Enqueue(r, f, now);
        case POSTFLUSH =>
          Enqueue(r, f, now);
        case DATA =>
          SendData(r, f);
          queued := true;
        case DONE =>
          EndRequest(r, f, error);
      }
      assert View() == NextStage(old(View()), r, done, error, now);
      var issued := KickFlush(now);
      queued := issued || queued;
    }

    /** flush_data_end_io: the queue is run if there is something new to dispatch. */
    method FlushDataEndIo(r: nat, error: int, now: nat) returns (run: bool)
      requires Movable(View(), r, {DATA}, error) && DATA !in reqs[r].fseq
      modifies this
      ensures View() == CompleteSeq(old(View()), r, {DATA}, error, now)
      ensures run <==> |queueHead| > |old(queueHead)|
    {
      run := CompleteStages(r, {DATA}, error, now);
    }

    /** One turn of the loop of flush_end_io. */
    method PushOne(idx: bool, r: nat, error: int, now: nat, ghost waiting: seq<nat>) returns (more: bool)
      requires Pushing(View(), idx, waiting, error) && waiting != [] && r == waiting[0]
      modifies this
      ensures Pushing(View(), idx, waiting[1..], error)
      ensures Push(View(), waiting[1..], error, now) == Push(old(View()), waiting, error, now)
      ensures |queueHead| >= |old(queueHead)| && (more <==> |queueHead| > |old(queueHead)|) && delayed == old(delayed)
    {
      PushTurn(View(), idx, waiting, error, now);
      var stage := CurStage(reqs[r].fseq);
      assert stage == PREFLUSH || stage == POSTFLUSH;
      more := CompleteStages(r, {stage}, error, now);
    }

    /** The loop of flush_end_io: list_for_each_entry_safe over the live list. */
    method PushWaiting(idx: bool, error: int, now: nat) returns (queued: bool)
      requires Pushing(View(), idx, QueueAt(View(), idx), error)
      modifies this
      ensures View() == Push(old(View()), old(QueueAt(View(), idx)), error, now)
      ensures (queued <==> |queueHead| > |old(queueHead)|) && delayed == old(delayed)
    {
      queued := false;
      var running := if idx then queue1 else queue0;
      var pos := if running == [] then Head else At(running[0]);
      ghost var waiting := running;
      while pos.At?
        invariant Pushing(View(), idx, waiting, error)
        invariant pos == if waiting == [] then Head else At(waiting[0])
        invariant Push(View(), waiting, error, now) == Push(old(View()), old(QueueAt(View(), idx)), error, now)
        invariant |queueHead| >= |old(queueHead)| && (queued <==> |queueHead| > |old(queueHead)|) &&
                  delayed == old(delayed)
        decreases |waiting|
      {
        running := if idx then queue1 else queue0;
        var r, n := pos.r, Successor(running, pos.r);
        FirstSuccessor(View(), idx, waiting, error);
        var more := PushOne(idx, r, error, now, waiting);
        queued := queued || more;
        waiting := waiting[1..];
        pos := n;
      }
    }

    /** The start of flush_end_io: the flush is no longer in flight. */
    method AccountFlush(error: int)
      modifies `runningIdx, `flushStarted, `dev
      ensures View() == Finishing(old(View()), error)
    {
      runningIdx := !runningIdx;
      flushStarted := false;
      dev := if error == 0 then dev.(durable := dev.durable + dev.covered) else dev;
    }

    /** flush_end_io: the queue is run if there is something new to dispatch, or it was
        held back by the flush. */
    method FlushEndIo(error: int, now: nat) returns (run: bool)
      requires Valid(View()) && flushStarted
      modifies this
      ensures View() == FlushDone(old(View()), error, now)
      ensures (run <==> |queueHead| > |old(queueHead)| || old(delayed)) && !delayed
    {
      assert pendingIdx != runningIdx;
      FinishingReady(View(), error, now, runningIdx);
      var idx := runningIdx;
      AccountFlush(error);
      run := PushWaiting(idx, error, now);
      run := run || delayed;
      delayed := false;
    }

    /** The last part of blk_insert_flush: mark the request and start its sequence. */
    method Sequence(r: nat, rq: Request, flush: bool, fua: bool, skip: set<Stage>, now: nat)
      requires Rq(r) !in queueHead
      modifies this
      ensures View() == CompleteSeq(old(View().(reqs := reqs[r := Submitted(View(), rq, flush, fua, true)])), r,
              skip, 0, now)
    {
      reqs := reqs[r := FlushReq(rq.(flushSeq := true), {}, flush, fua, rq.dataLen >= SECTOR_SIZE, fua && caps.fua,
                                 false, dev.completed)];
      var queued := CompleteStages(r, skip, 0, now);
    }

    /** blk_insert_flush. */
    method InsertFlush(r: nat, rq: Request, flush: bool, fua: bool, now: nat)
      requires OneBio(rq) && rq.done.Null? && Rq(r) !in queueHead
      modifies this
      ensures View() == Insert(old(View()), r, rq, flush, fua, now)
    {
      var policy := Policy(caps, rq.dataLen >= SECTOR_SIZE, flush, fua);
      if policy != {} && policy != {DATA} {
        Sequence(r, rq, flush, fua, ACTIONS - policy, now);
        return;
      }
      var f := FlushReq(rq.(flushSeq := false), {}, flush, fua, rq.dataLen >= SECTOR_SIZE, fua && caps.fua, false,
        dev.completed);
      if policy == {} {
        gone := gone[r := f];
        ended := ended + EndNow(limits, f.rq);
      } else {
        reqs := reqs[r := f];
        queueHead := queueHead + [Rq(r)];
      }
    }
  }
}
