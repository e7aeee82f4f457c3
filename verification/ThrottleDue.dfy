/**
 When the throttle's dispatch work is due and how far it goes: a group with waiting bios is
 due when the first bio of one of its directions may go again, a turn of a group takes what
 may go up to six reads and two writes, and one call of the work goes on until 32 bios have
 gone or no group is due.
 */
module ThrottleDue {
  import opened ThrottleSlice
  import opened SearchTree
  import opened ThrottleTree
  import opened ThrottleGroup
  import opened ThrottleQueue
  import opened ThrottleSelect
  import opened ThrottleRuns

  // ----- when a group is due

  /** The dispatch time is that of the direction that waits least, as asked at `t`: a wait
      is that of the direction's first bio. */
  predicate DueSince(g: Group, t: nat) {
    && (g.read.bios != [] ==> g.disptime <= t + Ask(g.read, g.read.bios[0].size, t).wait)
    && (g.write.bios != [] ==> g.disptime <= t + Ask(g.write, g.write.bios[0].size, t).wait)
    && (|| (g.read.bios != [] && g.disptime == t + Ask(g.read, g.read.bios[0].size, t).wait)
        || (g.write.bios != [] && g.disptime == t + Ask(g.write, g.write.bios[0].size, t).wait))
  }

  ghost predicate DueOk(g: Group, now: nat) { Busy(g) ==> exists t :: 0 <= t <= now && DueSince(g, t) }

  ghost predicate AllDue(d: Td, now: nat) { forall i :: 0 <= i < |d.groups| ==> DueOk(d.groups[i], now) }

  /** The same first bio, to be asked for with the same slice. */
  ghost predicate SameHead(l: Lane, m: Lane) {
    && (l.bios == [] <==> m.bios == [])
    && (l.bios != [] ==> m.bios[0] == l.bios[0] && m.slice == l.slice && m.lim == l.lim)
  }

  lemma {:induction false} DueStays(g: Group, h: Group, now: nat)
    requires DueOk(g, now) && SameHead(g.read, h.read) && SameHead(g.write, h.write) && h.disptime == g.disptime
    requires Busy(h) ==> Busy(g)
    ensures DueOk(h, now)
  {
    if Busy(h) {
      var t :| 0 <= t <= now && DueSince(g, t);
      assert DueSince(h, t);
    }
  }

  lemma {:induction false} AskedAgain(l: Lane, now: nat)
    requires Limits(l.lim) && l.bios != []
    ensures var m := Asked(l, now); m.bios == l.bios && Ask(m, m.bios[0].size, now) == Ask(l, l.bios[0].size, now)
  {
  }

  lemma {:induction false} UpdatedDue(d: Td, i: nat, now: nat)
    requires TreeOk(d) && i < |d.groups| && Limits(d.groups[i].read.lim) && Limits(d.groups[i].write.lim)
    requires d.groups[i].read.bios != [] || d.groups[i].write.bios != []
    ensures var t := UpdateDisptime(d, i, now);
            t.groups == d.groups[i := t.groups[i]] && DueSince(t.groups[i], now)
  {
    var g := d.groups[i];
    UpdateDisptimeIs(d, i, now);
    if g.read.bios != [] { AskedAgain(g.read, now); }
    if g.write.bios != [] { AskedAgain(g.write, now); }
  }

  /** A state in which only group `i` has changed. */
  lemma {:induction false} OneChanged(d: Td, t: Td, i: nat, now: nat)
    requires AllDue(d, now) && i < |d.groups| && |t.groups| == |d.groups| && t.groups == d.groups[i := t.groups[i]]
    requires DueOk(t.groups[i], now)
    ensures AllDue(t, now)
  {
  }

  lemma {:induction false} BusyHasBios(g: Group, now: nat)
    requires GroupOk(g, now)
    ensures Busy(g) <==> g.read.bios != [] || g.write.bios != []
  {
  }

  // ----- submissions

  lemma {:induction false} PassDue(d: Td, i: nat, read: bool, b: Bio, now: nat)
    requires DataOk(d, now) && AllDue(d, now) && i < |d.groups| && Passes(LaneOf(d.groups[i], read), b, now)
    ensures AllDue(Submit(d, i, read, b, now), now)
  {
    var g := d.groups[i];
    assert GroupOk(g, now) && DueOk(g, now);
    var h := WithLane(g, read, Through(LaneOf(g, read), b, now));
    DueStays(g, h, now);
    OneChanged(d, Submit(d, i, read, b, now), i, now);
  }

  lemma {:induction false} AddDue(d: Td, i: nat, read: bool, b: Bio, now: nat)
    requires DataOk(d, now) && AllDue(d, now) && i < |d.groups| && LaneOf(d.groups[i], read).queued > 0
    ensures AllDue(AddBio(d, i, read, b), now)
  {
    var g := d.groups[i];
    assert GroupOk(g, now) && DueOk(g, now);
    AddBioTree(d, i, read, b);
    DueStays(g, AddBio(d, i, read, b).groups[i], now);
    OneChanged(d, AddBio(d, i, read, b), i, now);
  }

  lemma {:induction false} UpdateDue(d: Td, a: Td, i: nat, now: nat)
    requires AllDue(d, now) && AllBut(a, i, now) && i < |d.groups| == |a.groups| && Busy(a.groups[i])
    requires a.groups == d.groups[i := a.groups[i]]
    ensures AllDue(UpdateDisptime(a, i, now), now)
  {
    assert GroupOk(a.groups[i], now);
    LimsAt(a.groups, i);
    BusyHasBios(a.groups[i], now);
    UpdatedDue(a, i, now);
    var t := UpdateDisptime(a, i, now);
    assert t.groups == d.groups[i := t.groups[i]];
    OneChanged(d, t, i, now);
  }

  lemma {:induction false} QueueDue(d: Td, asked: Td, i: nat, read: bool, b: Bio, now: nat)
    requires AllDue(d, now) && AllBut(asked, i, now) && i < |d.groups| == |asked.groups|
    requires asked.groups == d.groups[i := asked.groups[i]] && !LaneOf(asked.groups[i], read).lim.unlimited
    ensures AllDue(UpdateDisptime(AddBio(asked, i, read, b), i, now), now)
  {
    AddBioOk(asked, i, read, b, now);
    AddBioTree(asked, i, read, b);
    UpdateDue(d, AddBio(asked, i, read, b), i, now);
  }

  lemma {:induction false} SubmitDue(d: Td, i: nat, read: bool, b: Bio, now: nat)
    requires DataOk(d, now) && AllDue(d, now) && i < |d.groups|
    ensures AllDue(Submit(d, i, read, b, now), now)
  {
    var g, l := d.groups[i], LaneOf(d.groups[i], read);
    assert GroupOk(g, now);
    if Passes(l, b, now) {
      PassDue(d, i, read, b, now);
    } else if l.queued > 0 {
      AddDue(d, i, read, b, now);
    } else {
      var asked := WithGroup(d, i, WithLane(g, read, l.(slice := Ask(l, b.size, now).slice)));
      AskedLane(d, i, read, b.size, now);
      QueueDue(d, asked, i, read, b, now);
    }
  }

  // ----- the dispatch work

  lemma {:induction false} RoundDue(d: Td, i: nat, now: nat)
    requires DataOk(d, now) && AllDue(d, now) && i < |d.groups|
    ensures AllDue(Round(d, i, now), now)
  {
    var n := DrainOk(d, i, now);
    DrainGroups(d, i, now);
    var t := Drain(d, i, now);
    if Busy(t.groups[i]) { UpdateDue(d, t, i, now); } else { OneChanged(d, t, i, now); }
  }

  lemma {:induction false} TurnDue(d: Td, now: nat)
    requires DataOk(d, now) && AllDue(d, now) && TakeTurn(d, now).Turned?
    ensures AllDue(TakeTurn(d, now).td, now)
  {
    FirstGroup(d, now);
    RoundDue(d, d.tree.nodes[0].id, now);
  }

  /** No group is due. */
  predicate NoneDue(d: Td, now: nat) {
    forall k :: 0 <= k < |d.groups| && Busy(d.groups[k]) ==> d.groups[k].disptime > now
  }

  lemma {:induction false} BusyOnTree(d: Td, k: nat, now: nat)
    requires DataOk(d, now) && k < |d.groups| && Busy(d.groups[k])
    ensures d.tree.count > 0
  {
    NodesUpdate(d.groups, k, d.groups[k]);
    FirstLeast(d.tree, Nodes(d.groups), Node(d.groups[k].disptime, k));
  }

  lemma {:induction false} IdleNoneDue(d: Td, now: nat)
    requires DataOk(d, now) && TakeTurn(d, now).Idle?
    ensures NoneDue(d, now)
  {
    forall k | 0 <= k < |d.groups| && Busy(d.groups[k])
      ensures d.groups[k].disptime > now
    {
      BusyOnTree(d, k, now);
      FirstGroup(d, now);
    }
  }

  lemma {:induction false} SelectDue(d: Td, stop: nat, now: nat, t: Td)
    requires DataOk(d, now) && AllDue(d, now) && |d.out| < stop && t == Select(d, stop, now)
    ensures AllDue(t, now) && (|t.out| >= stop || NoneDue(t, now))
    decreases stop - |d.out|, |Due(d.groups, now)|
  {
    LastTurn(d, stop, now);
    if TakeTurn(d, now).Idle? {
      IdleNoneDue(d, now);
    } else {
      TurnProgress(d, now);
      TurnDue(d, now);
      var m := TakeTurn(d, now).td;
      if |m.out| < stop {
        SelectNext(d, stop, now, t, Select(m, stop, now));
        SelectDue(m, stop, now, t);
      }
    }
  }

  /** One call of throtl_select_dispatch goes on until 32 bios have gone or no group is due. */
  lemma {:induction false} SelectFull(d: Td, now: nat, t: Td)
    requires DataOk(d, now) && AllDue(d, now) && t == SelectAll(d, now)
    ensures AllDue(t, now) && (|t.out| >= |d.out| + 32 || NoneDue(t, now))
  {
    SelectDue(d, |d.out| + QUANTUM, now, t);
  }

  /** `n` bios go, the first ones, and fewer than `max` only if there are no more or the next
      one must wait. */
  ghost predicate Exhausts(l: Lane, t: Lane, n: nat, max: nat, now: nat) {
    Dispatched(l, t, n) && n <= max && (n < max && t.bios != [] ==> !Ask(t, t.bios[0].size, now).ok)
  }

  /** What one group takes in a turn, up to six reads and two writes. */
  lemma {:induction false} GroupTakes(g: Group, now: nat) returns (nr: nat, nw: nat)
    requires Limits(g.read.lim) && Limits(g.write.lim) && GroupOk(g, now)
    ensures var t := DispatchGroup(g, now);
            Exhausts(g.read, t.read, nr, 6, now) && Exhausts(g.write, t.write, nw, 2, now)
  {
    nr := DispatchLaneOk(g.read, MAX_READS, now, DispatchLane(g.read, MAX_READS, now));
    nw := DispatchLaneOk(g.write, MAX_WRITES, now, DispatchLane(g.write, MAX_WRITES, now));
  }

  lemma {:induction false} DrainTakes(d: Td, i: nat, now: nat) returns (nr: nat, nw: nat)
    requires DataOk(d, now) && i < |d.groups|
    ensures var g, t := d.groups[i], DispatchGroup(d.groups[i], now);
            && Exhausts(g.read, t.read, nr, 6, now) && Exhausts(g.write, t.write, nw, 2, now)
            && Drain(d, i, now).out == d.out + g.read.bios[..nr] + g.write.bios[..nw]
  {
    var g := d.groups[i];
    assert GroupOk(g, now);
    LimsAt(d.groups, i);
    nr, nw := GroupTakes(g, now);
    NewlyIs(g.read, DispatchGroup(g, now).read, nr);
    NewlyIs(g.write, DispatchGroup(g, now).write, nw);
  }

  lemma {:induction false} RestOut(d: Td, i: nat, now: nat)
    requires AllBut(d, i, now)
    ensures Rest(d, i, now).out == d.out
  {
    if Busy(d.groups[i]) { UpdateGroups(d, i, now); }
  }

  /** There is a turn exactly when a group is due. It is the turn of a group that is due no
      later than any other; the bios that go are first of its reads and then of its writes
      as many as may go, up to six and two. */
  lemma {:induction false} TurnExact(d: Td, now: nat) returns (i: nat, nr: nat, nw: nat)
    requires DataOk(d, now)
    ensures TakeTurn(d, now).Idle? <==> NoneDue(d, now)
    ensures TakeTurn(d, now).Turned? ==>
              && i < |d.groups| && Busy(d.groups[i]) && d.groups[i].disptime <= now
              && (forall k :: 0 <= k < |d.groups| && Busy(d.groups[k]) ==> d.groups[i].disptime <= d.groups[k].disptime)
              && var g, t := d.groups[i], DispatchGroup(d.groups[i], now);
                 && Exhausts(g.read, t.read, nr, 6, now) && Exhausts(g.write, t.write, nw, 2, now)
                 && TakeTurn(d, now).td.out == d.out + g.read.bios[..nr] + g.write.bios[..nw]
  {
    i, nr, nw := 0, 0, 0;
    if TakeTurn(d, now).Idle? {
      IdleNoneDue(d, now);
    } else {
      FirstGroup(d, now);
      i := d.tree.nodes[0].id;
      nr, nw := DrainTakes(d, i, now);
      var n := DrainOk(d, i, now);
      RestOut(Drain(d, i, now), i, now);
    }
  }

  // ----- runs

  lemma {:induction false} DueLater(d: Td, now: nat, later: nat)
    requires AllDue(d, now) && now <= later
    ensures AllDue(d, later)
  {
    forall i | 0 <= i < |d.groups|
      ensures DueOk(d.groups[i], later)
    {
      assert DueOk(d.groups[i], now);
      if Busy(d.groups[i]) { var t :| 0 <= t <= now && DueSince(d.groups[i], t); }
    }
  }

  lemma {:induction false} StepDue(d: Td, e: Event)
    requires DataOk(d, e.now) && AllDue(d, e.now) && Enabled(d, e)
    ensures AllDue(Step(d, e), e.now)
  {
    match e
    case Arrive(i, read, b, now) => SubmitDue(d, i, read, b, now);
    case Work(now) => SelectFull(d, now, SelectAll(d, now));
  }

  lemma {:induction false} RunDue(d: Td, es: seq<Event>, now: nat, t: Td)
    requires DataOk(d, now) && AllDue(d, now) && Runs(d, es, now) && t == After(d, es, now)
    ensures AllDue(t, Time(es, now))
    decreases |es|
  {
    if es != [] {
      RunFirst(d, es, now);
      Later(d, now, es[0].now);
      DueLater(d, now, es[0].now);
      StepDue(d, es[0]);
      RunGoesOn(d, es, now);
      RunRest(d, es, now, t, After(Step(d, es[0]), es[1..], es[0].now));
      RunDue(Step(d, es[0]), es[1..], es[0].now, t);
      TimeRest(es, now);
    }
  }

  /** In every run of a new device, each group with waiting bios is due when the first bio of
      one of its directions may go again, as asked at some earlier time, and no later than
      the other's. */
  lemma {:induction false} DueExactly(d: Td, rules: seq<Rules>, es: seq<Event>, now: nat, k: nat)
    requires RunsNew(d, rules, es, now) && k < |d.groups|
    ensures |Final(d, rules, es, now).groups| == |d.groups|
    ensures DueOk(Final(d, rules, es, now).groups[k], Time(es, now))
  {
    NewDeviceOk(d, rules, now);
    FinalLane(d, rules, es, now, k, true, Final(d, rules, es, now));
    RunDue(d, es, now, Final(d, rules, es, now));
  }
}
