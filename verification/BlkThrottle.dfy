/**
 The throttle as the kernel has it: dispatch loops over a group's bio lists, and the
 device's fields updated in place. Each is proved to do what ThrottleQueue says.
 */
module BlkThrottle {
  import opened SearchTree
  import opened ThrottleTree
  import opened ThrottleGroup
  import opened ThrottleQueue
  import opened ThrottleSelect

  /** One of the two loops of throtl_dispatch_tg. */
  method DispatchDirection(l0: Lane, max: nat, now: nat) returns (l: Lane, bl: seq<Bio>)
    requires l0.queued == |l0.bios| && max > 0
    ensures l == DispatchLane(l0, max, now)
    ensures |bl| <= max && l0.bios == bl + l.bios && l.log == l0.log + bl
  {
    l, bl := l0, [];
    var nr := 0;
    while l.bios != []
      invariant nr == |bl| < max && l.queued == |l.bios|
      invariant DispatchLane(l, max - nr, now) == DispatchLane(l0, max, now)
      invariant l0.bios == bl + l.bios && l.log == l0.log + bl
      decreases |l.bios|
    {
      var bio := l.bios[0];
      var v := l.lim.ask(l.slice, bio.size, now);
      if !v.ok {
        l := l.(slice := v.slice);
        return;
      }
      l := l.(bios := l.bios[1..], queued := l.queued - 1, log := l.log + [bio],
              slice := l.lim.spend(l.slice, bio.size, now),
              since := if l.log == [] then v.slice.start else l.since);
      bl := bl + [bio];
      nr := nr + 1;
      if nr >= max {
        return;
      }
    }
  }

  /** What throtl_rb_first and the check of the dispatch time decide. */
  lemma {:induction false} FirstDue(d: Td, now: nat)
    requires DataOk(d, now)
    ensures CountsOk(d) && (d.tree.nodes != [] ==> d.tree.nodes[0].id < |d.groups|)
    ensures d.tree.nodes == [] ==> TakeTurn(d, now).Idle?
    ensures d.tree.nodes != [] ==>
              var i := d.tree.nodes[0].id;
              && GroupOk(d.groups[i], now)
              && TakeTurn(d, now) == if now < d.groups[i].disptime then Idle
                                     else Turned(Round(d.(tree := Cached(d.tree)), i, now))
  {
    CachedOk(d.tree, Nodes(d.groups));
    if d.tree.nodes != [] {
      FirstGroup(d, now);
      var i := d.tree.nodes[0].id;
      assert Dequeue(d.(tree := Cached(d.tree)), i) == Dequeue(d, i);
      assert Drain(d.(tree := Cached(d.tree)), i, now) == Drain(d, i, now);
    }
  }

  class ThrottleData {
    var groups: seq<Group>
    var tree: Root
    var nrReads: nat
    var nrWrites: nat
    var out: seq<Bio>

    ghost function View(): Td
      reads this
    {
      Td(groups, tree, nrReads, nrWrites, out)
    }

    /** throtl_dequeue_tg. */
    method DequeueTg(i: nat)
      requires i < |groups|
      modifies `groups, `tree
      ensures View() == Dequeue(old(View()), i)
    {
      var g := groups[i];
      if g.onRr {
        tree := Erase(tree, Node(g.disptime, i));
        groups := groups[i := g.(onRr := false)];
      }
    }

    /** throtl_enqueue_tg. */
    method EnqueueTg(i: nat)
      requires i < |groups|
      modifies `groups, `tree
      ensures View() == ThrottleQueue.EnqueueTg(old(View()), i)
    {
      var g := groups[i];
      if !g.onRr {
        tree := Add(tree, Node(g.disptime, i));
        groups := groups[i := g.(onRr := true)];
      }
    }

    /** tg_update_disptime. */
    method UpdateTime(i: nat, now: nat)
      requires i < |groups|
      modifies `groups, `tree
      ensures View() == UpdateDisptime(old(View()), i, now)
    {
      var g := groups[i];
      var wait := Wait(g, now);
      groups := groups[i := AskedBoth(g, now)];
      DequeueTg(i);
      groups := groups[i := groups[i].(disptime := now + wait)];
      EnqueueTg(i);
    }

    /** throtl_dispatch_tg, for a group off the tree. */
    method DispatchTg(i: nat, now: nat) returns (nr: nat)
      requires i < |groups| && GroupOk(groups[i], now)
      requires groups[i].read.queued <= nrReads && groups[i].write.queued <= nrWrites
      modifies `groups, `nrReads, `nrWrites, `out
      ensures nr <= GRP_QUANTUM && |out| == |old(out)| + nr
      ensures var g := old(groups[i]);
              var t := DispatchGroup(g, now);
              var r, w := Newly(g.read, t.read), Newly(g.write, t.write);
              && groups == old(groups)[i := t] && out == old(out) + r + w
              && nrReads == old(nrReads) - |r| && nrWrites == old(nrWrites) - |w|
    {
      var g := groups[i];
      var read, r := DispatchDirection(g.read, MAX_READS, now);
      var write, w := DispatchDirection(g.write, MAX_WRITES, now);
      groups := groups[i := g.(read := read, write := write)];
      nrReads, nrWrites, out := nrReads - |r|, nrWrites - |w|, out + r + w;
      nr := |r| + |w|;
    }

    /** The body of the loop in throtl_select_dispatch, for a group that is due. */
    method Serve(i: nat, now: nat) returns (n: nat)
      requires i < |groups| && GroupOk(groups[i], now)
      requires groups[i].read.queued <= nrReads && groups[i].write.queued <= nrWrites
      modifies this
      ensures View() == Round(old(View()), i, now) && |out| == |old(out)| + n
    {
      DequeueTg(i);
      n := DispatchTg(i, now);
      assert View() == Drain(old(View()), i, now);
      if groups[i].read.queued > 0 || groups[i].write.queued > 0 {
        UpdateTime(i, now);
      }
    }

    /** throtl_rb_first: the group that is due first. */
    method RbFirst() returns (i: int)
      requires TreeOk(View())
      modifies `tree
      ensures tree == Cached(old(tree))
      ensures i == if old(tree.nodes) == [] then -1 else old(tree.nodes)[0].id
    {
      if tree.count == 0 {
        return -1;
      }
      if tree.left == Null {
        tree := tree.(left := Left(tree.nodes[0].id));
      }
      return tree.left.id;
    }

    /** One turn of the loop in throtl_select_dispatch. */
    method Turn(now: nat) returns (due: bool, n: nat)
      requires DataOk(View(), now)
      modifies this
      ensures due <==> TakeTurn(old(View()), now).Turned?
      ensures View() == if due then TakeTurn(old(View()), now).td else old(View()).(tree := Cached(old(tree)))
      ensures |out| == |old(out)| + n
    {
      FirstDue(View(), now);
      var i := RbFirst();
      if i < 0 || now < groups[i].disptime {
        return false, 0;
      }
      SomeReads(groups, i);
      n := Serve(i, now);
      due := true;
    }

    /** throtl_select_dispatch. */
    method SelectDispatch(now: nat) returns (nr: nat)
      requires DataOk(View(), now)
      modifies this
      ensures View() == SelectAll(old(View()), now)
      ensures |out| == |old(out)| + nr && nr <= 39
    {
      nr := 0;
      ghost var stop := |out| + QUANTUM;
      ghost var goal := Select(View(), stop, now);
      SelectBound(View(), now, goal);
      while true
        invariant DataOk(View(), now) && nr < QUANTUM && |out| == |old(out)| + nr && |out| < stop
        invariant Select(View(), stop, now) == goal
        decreases QUANTUM - nr, |Due(groups, now)|
      {
        ghost var d := View();
        LastTurn(d, stop, now);
        var due, n := Turn(now);
        nr := nr + n;
        if !due || nr >= QUANTUM {
          return;
        }
        TurnProgress(d, now);
        SelectNext(d, stop, now, goal, Select(View(), stop, now));
      }
    }

    /** throtl_add_bio_tg. */
    method AddBioTg(i: nat, read: bool, b: Bio)
      requires i < |groups|
      modifies this
      ensures View() == AddBio(old(View()), i, read, b)
    {
      var g := groups[i];
      groups := groups[i := WithLane(g, read, Enqueue(LaneOf(g, read), b))];
      if read {
        nrReads := nrReads + 1;
      } else {
        nrWrites := nrWrites + 1;
      }
      EnqueueTg(i);
    }

    /** blk_throtl_bio: does the bio go on at once? */
    method SubmitBio(i: nat, read: bool, b: Bio, now: nat) returns (through: bool)
      requires i < |groups|
      modifies this
      ensures View() == Submit(old(View()), i, read, b, now)
      ensures through <==> Passes(old(LaneOf(groups[i], read)), b, now)
    {
      var g := groups[i];
      var l := LaneOf(g, read);
      if l.lim.unlimited {
        groups := groups[i := WithLane(g, read, Through(l, b, now))];
        out := out + [b];
        return true;
      }
      if l.queued > 0 {
        AddBioTg(i, read, b);
        return false;
      }
      var v := l.lim.ask(l.slice, b.size, now);
      if v.ok {
        groups := groups[i := WithLane(g, read, Through(l, b, now))];
        out := out + [b];
        return true;
      }
      groups := groups[i := WithLane(g, read, l.(slice := v.slice))];
      AddBioTg(i, read, b);
      UpdateTime(i, now);
      return false;
    }
  }
}
