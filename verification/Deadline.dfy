/**
 The deadline scheduler as the kernel has it: deadline_data updated in place. Each method
 is proved to do what DeadlineSpec says.
 */
module Deadline {
  import opened Lists
  import opened SearchTree
  import opened DeadlineSpec
  import opened DeadlineInvariants
  import DeadlineRuns

  class DeadlineData {
    const tun: Tunables
    var reqs: map<nat, Rq>
    var r: Lane
    var w: Lane
    var batching: nat
    var starved: nat
    var lastSector: nat
    var nrSorted: nat
    var queue: seq<nat>

    ghost function View(): Sched
      reads this
    {
      Sched(tun, reqs, r, w, batching, starved, lastSector, nrSorted, queue)
    }

    /** deadline_init_queue. */
    constructor (tun: Tunables)
      ensures DataOk(View(), 0) && this.tun == tun && reqs == map[] && queue == []
    {
      this.tun := tun;
      reqs, r, w, queue := map[], Lane([], [], None), Lane([], [], None), [];
      batching, starved, lastSector, nrSorted := 0, 0, 0, 0;
      new;
      assert Nodes(reqs, true, true) == {} && Nodes(reqs, true, false) == {};
      assert Nodes(reqs, false, true) == {} && Nodes(reqs, false, false) == {};
    }

    /** deadline_add_request. */
    method AddRequest(id: nat, read: bool, pos: nat, sectors: nat, now: nat)
      modifies this
      ensures View() == Add(old(View()), id, read, pos, sectors, now)
    {
      var q := Rq(read, pos, sectors, now + (if read then tun.readExpire else tun.writeExpire));
      reqs := reqs[id := q];
      if read {
        r := r.(tree := Insert(r.tree, Node(pos, id)));
        r := r.(fifo := r.fifo + [Node(q.deadline, id)]);
      } else {
        w := w.(tree := Insert(w.tree, Node(pos, id)));
        w := w.(fifo := w.fifo + [Node(q.deadline, id)]);
      }
      nrSorted := nrSorted + 1;
    }

    /** The lookup of deadline_merge: a waiting request of the direction that starts where
        the bio ends, if there is one. `tree` is the search tree behind the sort list. */
    method FrontCandidate(tree: Tree, read: bool, sector: nat, ghost now: nat) returns (found: bool, id: nat)
      requires DataOk(View(), now) && InOrder(tree) == LaneOf(View(), read).tree
      ensures found ==> id in reqs && reqs[id].read == read && reqs[id].pos == sector
      ensures !found ==> forall x :: x in reqs && reqs[x].read == read ==> reqs[x].pos != sector
    {
      var n;
      found, n := RbFind(tree, sector);
      id := n.id;
      if found {
        TreeHolds(View(), read, now, n);
      } else {
        forall x | x in reqs && reqs[x].read == read
          ensures reqs[x].pos != sector
        {
          TreeHolds(View(), read, now, Node(reqs[x].pos, x));
        }
      }
    }

    /** deadline_remove_request, without forgetting the request itself. */
    method RemoveRequest(id: nat)
      requires id in reqs
      modifies `r, `w
      ensures View() == WithLane(old(View()), reqs[id].read, Remove(LaneOf(old(View()), reqs[id].read), id, reqs[id]))
    {
      var q := reqs[id];
      if q.read {
        r := r.(fifo := Without(r.fifo, Node(q.deadline, id)));
        if r.next == Some(id) {
          r := r.(next := Successor(r.tree, Node(q.pos, id)));
        }
        r := r.(tree := Without(r.tree, Node(q.pos, id)));
      } else {
        w := w.(fifo := Without(w.fifo, Node(q.deadline, id)));
        if w.next == Some(id) {
          w := w.(next := Successor(w.tree, Node(q.pos, id)));
        }
        w := w.(tree := Without(w.tree, Node(q.pos, id)));
      }
    }

    /** deadline_move_request. */
    method MoveRequest(id: nat)
      requires id in reqs && nrSorted > 0
      modifies `r, `w, `reqs, `lastSector, `nrSorted, `queue
      ensures View() == Move(old(View()), id)
    {
      var q := reqs[id];
      r := r.(next := None);
      w := w.(next := None);
      if q.read {
        r := r.(next := Successor(r.tree, Node(q.pos, id)));
      } else {
        w := w.(next := Successor(w.tree, Node(q.pos, id)));
      }
      lastSector := q.pos + q.sectors;
      RemoveRequest(id);
      reqs := reqs - {id};
      nrSorted := nrSorted - 1;
      queue := queue + [id];
    }

    /** deadline_dispatch_requests up to its last step: the choice of a request. */
    method ChooseRequest(now: nat) returns (more: bool, id: nat)
      requires r.fifo != [] ==> r.tree != []
      requires w.fifo != [] ==> w.tree != []
      modifies `batching, `starved
      ensures more == Choose(old(View()), now).Take?
      ensures more ==> Choose(old(View()), now) == Take(id, batching, starved)
      ensures !more ==> View() == old(View())
    {
      id := 0;
      var haveReads, haveWrites := r.fifo != [], w.fifo != [];
      var rq := if w.next.Some? then w.next else r.next;
      if rq.Some? && batching < tun.fifoBatch {
        batching := batching + 1;
        return true, rq.id;
      }
      var l := r;
      if haveReads && !(haveWrites && starved >= tun.writesStarved) {
        assert r.tree != [];
        if haveWrites {
          starved := starved + 1;
        }
      } else if haveWrites {
        assert w.tree != [];
        starved := 0;
        l := w;
      } else {
        return false, 0;
      }
      if l.fifo[0].key < now || l.next.None? {
        id := l.fifo[0].id;
      } else {
        id := l.next.id;
      }
      batching := 1;
      return true, id;
    }

    /** deadline_dispatch_requests. */
    method DispatchRequests(now: nat) returns (more: bool)
      requires DataOk(View(), now)
      modifies this
      ensures View() == Dispatch(old(View()), now)
      ensures more <==> old(reqs) != map[]
    {
      Counted(View(), now);
      var id;
      more, id := ChooseRequest(now);
      if more {
        MoveRequest(id);
      }
    }

    /** elv_drain_elevator. */
    method DrainElevator(now: nat)
      requires DataOk(View(), now)
      modifies this
      ensures View() == DeadlineRuns.Drain(old(View()), now) && nrSorted == 0 && r.fifo == [] && w.fifo == []
    {
      DeadlineRuns.DrainAll(View(), now);
      ghost var goal := DeadlineRuns.Drain(View(), now);
      var more := true;
      while more
        invariant DataOk(View(), now) && DeadlineRuns.Drain(View(), now) == goal
        invariant !more ==> View() == goal
        decreases if more then 1 + |reqs| else 0
      {
        DispatchOk(View(), now);
        if reqs != map[] { DeadlineRuns.DispatchTakes(View(), now); }
        more := DispatchRequests(now);
      }
    }

    /** deadline_merged_request after a front merge of `n` sectors. */
    method MergedFront(id: nat, n: nat)
      requires id in reqs && n <= reqs[id].pos
      modifies `r, `w, `reqs
      ensures View() == FrontMerge(old(View()), id, n)
    {
      Reposition(id, Extended(reqs[id], n));
    }

    /** elv_rb_del at the old position and elv_rb_add at the new one. */
    method Reposition(id: nat, t: Rq)
      requires id in reqs && t.read == reqs[id].read
      modifies `r, `w, `reqs
      ensures View() == Repositioned(old(View()), id, t)
    {
      var pos := reqs[id].pos;
      reqs := reqs[id := t];
      if t.read {
        r := r.(tree := Without(r.tree, Node(pos, id)));
        r := r.(tree := Insert(r.tree, Node(t.pos, id)));
      } else {
        w := w.(tree := Without(w.tree, Node(pos, id)));
        w := w.(tree := Insert(w.tree, Node(t.pos, id)));
      }
    }

    /** The first half of deadline_merged_requests, with the sectors added: an earlier
        deadline is taken over, with its place in the FIFO. */
    method Absorb(req: nat, next: nat)
      requires req in reqs && next in reqs && reqs[req].read == reqs[next].read
      modifies `r, `w, `reqs
      ensures View() == Absorbed(old(View()), req, next)
    {
      var a, b := reqs[req], reqs[next];
      if b.deadline < a.deadline {
        var t := Node(b.deadline, req);
        if a.read {
          r := r.(fifo := InsertAfter(Without(r.fifo, Node(a.deadline, req)), t, Node(b.deadline, next)));
        } else {
          w := w.(fifo := InsertAfter(Without(w.fifo, Node(a.deadline, req)), t, Node(b.deadline, next)));
        }
        reqs := reqs[req := a.(sectors := a.sectors + b.sectors, deadline := b.deadline)];
      } else {
        reqs := reqs[req := a.(sectors := a.sectors + b.sectors)];
      }
    }

    /** The second half: the absorbed request is gone. */
    method Discard(id: nat)
      requires id in reqs && nrSorted > 0
      modifies `r, `w, `reqs, `nrSorted
      ensures View() == Discarded(old(View()), id)
    {
      RemoveRequest(id);
      reqs := reqs - {id};
      nrSorted := nrSorted - 1;
    }

    /** deadline_merged_requests: `req` absorbs `next`. */
    method MergedRequests(req: nat, next: nat)
      requires req in reqs && next in reqs && req != next && reqs[req].read == reqs[next].read && nrSorted > 0
      modifies `r, `w, `reqs, `nrSorted
      ensures View() == MergeNext(old(View()), req, next)
    {
      Absorb(req, next);
      Discard(next);
    }
  }

  /** What dispatch relies on: the trees are not empty when the FIFOs are not, and what is
      chosen is waiting and counted. */
  lemma {:induction false} Counted(d: Sched, now: nat)
    requires DataOk(d, now)
    ensures (d.r.fifo != [] ==> d.r.tree != []) && (d.w.fifo != [] ==> d.w.tree != [])
    ensures Choose(d, now).Nothing? <==> d.reqs == map[]
    ensures Choose(d, now).Take? ==> Choose(d, now).id in d.reqs && d.nrSorted > 0
  {
    ChooseOk(d, now);
    if d.r.fifo != [] {
      HeadWaits(d.reqs, d.r, true);
      Waits(d.reqs, d.r, d.r.fifo[0].id);
    }
    if d.w.fifo != [] {
      HeadWaits(d.reqs, d.w, false);
      Waits(d.reqs, d.w, d.w.fifo[0].id);
    }
    if Choose(d, now).Take? { Fewer(d.reqs, Choose(d, now).id); }
  }
}
