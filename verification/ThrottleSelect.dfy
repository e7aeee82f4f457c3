/**
 The dispatch loop of the throttle, throtl_select_dispatch. It ends although a group may
 be due again in the same tick, dispatches at most 39 bios at a time, loses none, and
 changes neither limits nor arrivals.
 */
module ThrottleSelect {
  import opened ThrottleSlice
  import opened ThrottleTree
  import opened ThrottleGroup
  import opened ThrottleQueue
  import opened ThrottleBios

  // ----- what a turn leaves alone

  ghost predicate Kept(l: Lane, t: Lane) { t.lim == l.lim && t.arrived == l.arrived }

  ghost predicate GroupKept(g: Group, h: Group) { Kept(g.read, h.read) && Kept(g.write, h.write) }

  ghost predicate AllKept(d: Td, t: Td) {
    |t.groups| == |d.groups| && forall i :: 0 <= i < |d.groups| ==> GroupKept(d.groups[i], t.groups[i])
  }

  lemma {:induction false} UpdateKept(d: Td, i: nat, now: nat)
    requires AllBut(d, i, now)
    ensures AllKept(d, UpdateDisptime(d, i, now))
  {
    assert GroupOk(d.groups[i], now);
    UpdateDisptimeIs(d, i, now);
  }

  lemma {:induction false} DrainKept(d: Td, i: nat, now: nat)
    requires i < |d.groups| && GroupOk(d.groups[i], now) && Limits(d.groups[i].read.lim) &&
             Limits(d.groups[i].write.lim)
    ensures AllKept(d, Drain(d, i, now))
  {
    var nr, nw := DispatchGroupOk(d.groups[i], now);
    assert GroupKept(d.groups[i], DispatchGroup(d.groups[i], now).(onRr := false));
  }

  lemma {:induction false} RestKept(d: Td, i: nat, now: nat)
    requires AllBut(d, i, now)
    ensures AllKept(d, Rest(d, i, now))
  {
    if Busy(d.groups[i]) { UpdateKept(d, i, now); }
  }

  lemma {:induction false} KeptBoth(d: Td, m: Td, t: Td)
    requires AllKept(d, m) && AllKept(m, t)
    ensures AllKept(d, t)
  {
    forall i | 0 <= i < |d.groups|
      ensures GroupKept(d.groups[i], t.groups[i])
    {
      assert GroupKept(d.groups[i], m.groups[i]) && GroupKept(m.groups[i], t.groups[i]);
    }
  }

  lemma {:induction false} RoundKept(d: Td, i: nat, now: nat)
    requires DataOk(d, now) && i < |d.groups|
    ensures AllKept(d, Round(d, i, now))
  {
    assert GroupOk(d.groups[i], now);
    LimsAt(d.groups, i);
    var n := DrainOk(d, i, now);
    DrainKept(d, i, now);
    RestKept(Drain(d, i, now), i, now);
    KeptBoth(d, Drain(d, i, now), Rest(Drain(d, i, now), i, now));
  }

  // ----- the loop

  /** The loop went from `d` to `t`: in order, without losing any bio, and at most `top`
      have been handed back by then. */
  ghost predicate Progress(d: Td, t: Td, top: nat, now: nat) {
    DataOk(t, now) && AllKept(d, t) && Conserves(d, t) && |d.out| <= |t.out| <= top
  }

  lemma {:induction false} ProgressBoth(d: Td, m: Td, t: Td, now: nat, a: nat, top: nat)
    requires Progress(d, m, a, now) && Progress(m, t, top, now)
    ensures Progress(d, t, top, now)
  {
    KeptBoth(d, m, t);
    ConservesBoth(d, m, t);
  }

  lemma {:induction false} ProgressMore(d: Td, t: Td, now: nat, a: nat, top: nat)
    requires Progress(d, t, a, now) && a <= top
    ensures Progress(d, t, top, now)
  {
  }

  datatype Turn = Idle | Turned(td: Td)

  /** One turn: nothing is due, or the first group has its turn. */
  function TakeTurn(d: Td, now: nat): Turn
    requires DataOk(d, now)
  {
    if d.tree.count == 0 then Idle
    else
      FirstGroup(d, now);
      var i := d.tree.nodes[0].id;
      if now < d.groups[i].disptime then Idle
      else Turned(Round(d, i, now))
  }

  /** A turn that dispatches nothing leaves one group fewer due. */
  lemma {:induction false} TurnProgress(d: Td, now: nat)
    requires DataOk(d, now) && TakeTurn(d, now).Turned?
    ensures Progress(d, TakeTurn(d, now).td, |d.out| + GRP_QUANTUM, now)
    ensures |TakeTurn(d, now).td.out| == |d.out| ==> |Due(TakeTurn(d, now).td.groups, now)| < |Due(d.groups, now)|
  {
    FirstGroup(d, now);
    var i := d.tree.nodes[0].id;
    RoundOk(d, i, now);
    RoundKept(d, i, now);
    LimsAt(d.groups, i);
    RoundBios(d, i, now);
  }

  lemma {:induction false} CachedProgress(d: Td, now: nat)
    requires DataOk(d, now)
    ensures Progress(d, d.(tree := Cached(d.tree)), |d.out|, now)
  {
    CachedOk(d.tree, Nodes(d.groups));
    assert DataOk(d.(tree := Cached(d.tree)), now);
  }

  /** The loop of throtl_select_dispatch, until `stop` bios have been handed back. It ends
      because a turn that dispatches nothing leaves one group fewer due. */
  function Select(d: Td, stop: nat, now: nat): Td
    requires DataOk(d, now) && |d.out| < stop
    decreases stop - |d.out|, |Due(d.groups, now)|
  {
    var r := TakeTurn(d, now);
    if r.Idle? then d.(tree := Cached(d.tree))
    else
      TurnProgress(d, now);
      if |r.td.out| >= stop then r.td else Select(r.td, stop, now)
  }

  /** throtl_select_dispatch: until throtl_quantum bios have been dispatched. */
  function SelectAll(d: Td, now: nat): Td
    requires DataOk(d, now)
  {
    Select(d, |d.out| + QUANTUM, now)
  }

  /** The recursion, one turn at a time. */
  lemma {:induction false} LastTurn(d: Td, stop: nat, now: nat)
    requires DataOk(d, now) && |d.out| < stop
    ensures TakeTurn(d, now).Idle? ==> Select(d, stop, now) == d.(tree := Cached(d.tree))
    ensures TakeTurn(d, now).Turned? && |TakeTurn(d, now).td.out| >= stop ==>
            Select(d, stop, now) == TakeTurn(d, now).td
  {
  }

  lemma {:induction false} SelectNext(d: Td, stop: nat, now: nat, a: Td, b: Td)
    requires DataOk(d, now) && |d.out| < stop && TakeTurn(d, now).Turned?
    requires |TakeTurn(d, now).td.out| < stop && DataOk(TakeTurn(d, now).td, now)
    requires a == Select(d, stop, now) && b == Select(TakeTurn(d, now).td, stop, now)
    ensures a == b
  {
  }

  lemma {:induction false} SelectProgress(d: Td, stop: nat, now: nat, t: Td, top: nat)
    requires DataOk(d, now) && |d.out| < stop && t == Select(d, stop, now) && top == stop - 1 + GRP_QUANTUM
    ensures Progress(d, t, top, now)
    decreases stop - |d.out|, |Due(d.groups, now)|
  {
    LastTurn(d, stop, now);
    if TakeTurn(d, now).Idle? {
      CachedProgress(d, now);
      ProgressMore(d, t, now, |d.out|, top);
    } else {
      TurnProgress(d, now);
      var m := TakeTurn(d, now).td;
      if |m.out| >= stop {
        ProgressMore(d, t, now, |d.out| + GRP_QUANTUM, top);
      } else {
        SelectNext(d, stop, now, t, Select(m, stop, now));
        SelectProgress(m, stop, now, t, top);
        ProgressBoth(d, m, t, now, |d.out| + GRP_QUANTUM, top);
      }
    }
  }

  /** At most 39 bios in one go, and none lost. */
  lemma {:induction false} SelectBound(d: Td, now: nat, t: Td)
    requires DataOk(d, now) && t == SelectAll(d, now)
    ensures Progress(d, t, |d.out| + 39, now)
  {
    SelectProgress(d, |d.out| + QUANTUM, now, t, |d.out| + 39);
  }
}
