/**
 Conservation in the throttle: every bio handed to it is waiting in exactly one group or
 has been handed back for dispatch, once.
 */
module ThrottleBios {
  import opened ThrottleSlice
  import opened ThrottleGroup
  import opened ThrottleQueue

  /** All bios waiting in some group. */
  function Waiting(groups: seq<Group>): multiset<Bio> {
    if groups == [] then multiset{}
    else OwnWaiting(groups[0]) + Waiting(groups[1..])
  }

  lemma {:induction false} Regroup<T>(a: multiset<T>, b: multiset<T>, c: multiset<T>, d: multiset<T>, e: multiset<T>)
    requires b + c == d + e
    ensures (a + b) + c == (a + d) + e
  {
    assert (a + b) + c == a + (b + c);
    assert (a + d) + e == a + (d + e);
  }

  function OwnWaiting(g: Group): multiset<Bio> { multiset(g.read.bios) + multiset(g.write.bios) }

  lemma {:induction false} WaitingUpdate(groups: seq<Group>, i: nat, g: Group)
    requires i < |groups|
    ensures Waiting(groups[i := g]) + OwnWaiting(groups[i]) == Waiting(groups) + OwnWaiting(g)
  {
    if i == 0 {
      assert groups[i := g][1..] == groups[1..];
    } else {
      WaitingUpdate(groups[1..], i - 1, g);
      assert groups[i := g][1..] == groups[1..][i - 1 := g];
      Regroup(OwnWaiting(groups[0]), Waiting(groups[1..][i - 1 := g]), OwnWaiting(groups[i]), Waiting(groups[1..]),
        OwnWaiting(g));
    }
  }

  /** All bios handed to the throttle and not yet passed on, or handed back. */
  function Bios(d: Td): multiset<Bio> { Waiting(d.groups) + multiset(d.out) }

  lemma {:induction false} Handed<T>(w: multiset<T>, w': multiset<T>, r: multiset<T>, r': multiset<T>, nr: multiset<T>,
                                     v: multiset<T>, v': multiset<T>, nv: multiset<T>, out: multiset<T>)
    requires w' + (r + v) == w + (r' + v') && nr + r' == r && nv + v' == v
    ensures w' + (out + nr + nv) == w + out
  {
    forall x: T
      ensures (w' + (out + nr + nv))[x] == (w + out)[x]
    {
      assert (w' + (r + v))[x] == (w + (r' + v'))[x];
      assert (nr + r')[x] == r[x] && (nv + v')[x] == v[x];
    }
  }

  lemma {:induction false} DrainBios(d: Td, i: nat, now: nat, nr: nat, nw: nat)
    requires i < |d.groups|
    requires Dispatched(d.groups[i].read, DispatchGroup(d.groups[i], now).read, nr)
    requires Dispatched(d.groups[i].write, DispatchGroup(d.groups[i], now).write, nw)
    ensures Bios(Drain(d, i, now)) == Bios(d)
  {
    var g, t := d.groups[i], DispatchGroup(d.groups[i], now).(onRr := false);
    NewlyIs(g.read, t.read, nr);
    NewlyIs(g.write, t.write, nw);
    WaitingUpdate(d.groups, i, t);
    Handed(Waiting(d.groups), Waiting(d.groups[i := t]), multiset(g.read.bios), multiset(t.read.bios),
           multiset(Newly(g.read, t.read)), multiset(g.write.bios), multiset(t.write.bios),
           multiset(Newly(g.write, t.write)), multiset(d.out));
  }

  lemma {:induction false} SameWaiting(groups: seq<Group>, i: nat, g: Group)
    requires i < |groups| && OwnWaiting(g) == OwnWaiting(groups[i])
    ensures Waiting(groups[i := g]) == Waiting(groups)
  {
    WaitingUpdate(groups, i, g);
    var a, b, c := Waiting(groups[i := g]), Waiting(groups), OwnWaiting(g);
    assert forall x :: (a + c)[x] == (b + c)[x] ==> a[x] == b[x];
  }

  lemma {:induction false} MoreWaiting(groups: seq<Group>, i: nat, g: Group, b: Bio)
    requires i < |groups| && OwnWaiting(g) == OwnWaiting(groups[i]) + multiset{b}
    ensures Waiting(groups[i := g]) == Waiting(groups) + multiset{b}
  {
    WaitingUpdate(groups, i, g);
    var v, w, o, m := Waiting(groups[i := g]), Waiting(groups), OwnWaiting(groups[i]), multiset{b};
    forall x: Bio
      ensures v[x] == (w + m)[x]
    {
      assert (v + o)[x] == (w + (o + m))[x];
    }
  }

  lemma {:induction false} UpdateBios(d: Td, i: nat, now: nat)
    requires TreeOk(d) && i < |d.groups|
    ensures Bios(UpdateDisptime(d, i, now)) == Bios(d)
  {
    var g := d.groups[i];
    UpdateDisptimeIs(d, i, now);
    SameWaiting(d.groups, i, Group(Asked(g.read, now), Asked(g.write, now), now + Wait(g, now), true));
  }

  lemma {:induction false} RoundBios(d: Td, i: nat, now: nat)
    requires TreeOk(d) && i < |d.groups| && GroupOk(d.groups[i], now)
    requires Limits(d.groups[i].read.lim) && Limits(d.groups[i].write.lim)
    ensures Bios(Round(d, i, now)) == Bios(d)
  {
    var nr, nw := DispatchGroupOk(d.groups[i], now);
    DrainBios(d, i, now, nr, nw);
    DrainTree(d, i, now);
    var t := Drain(d, i, now);
    if Busy(t.groups[i]) { UpdateBios(t, i, now); }
  }

  predicate Conserves(d: Td, t: Td) { Bios(t) == Bios(d) }

  lemma {:induction false} ConservesBoth(d: Td, m: Td, t: Td)
    requires Conserves(d, m) && Conserves(m, t)
    ensures Conserves(d, t)
  {
  }

  lemma {:induction false} AddBioBios(d: Td, i: nat, read: bool, b: Bio)
    requires TreeOk(d) && i < |d.groups|
    ensures Bios(AddBio(d, i, read, b)) == Bios(d) + multiset{b}
  {
    var g := d.groups[i];
    AddBioTree(d, i, read, b);
    MoreWaiting(d.groups, i, WithLane(g, read, Enqueue(LaneOf(g, read), b)).(onRr := true), b);
  }

  lemma {:induction false} SubmitBios(d: Td, i: nat, read: bool, b: Bio, now: nat)
    requires TreeOk(d) && i < |d.groups|
    ensures Bios(Submit(d, i, read, b, now)) == Bios(d) + multiset{b}
  {
    var g := d.groups[i];
    var l := LaneOf(g, read);
    if Passes(l, b, now) {
      SameWaiting(d.groups, i, WithLane(g, read, Through(l, b, now)));
      assert multiset(d.out + [b]) == multiset(d.out) + multiset{b};
    } else if l.queued > 0 {
      AddBioBios(d, i, read, b);
    } else {
      var t := WithLane(g, read, l.(slice := Ask(l, b.size, now).slice));
      var asked := WithGroup(d, i, t);
      KeepTree(d, i, t);
      SameWaiting(d.groups, i, t);
      AddBioBios(asked, i, read, b);
      AddBioTree(asked, i, read, b);
      UpdateBios(AddBio(asked, i, read, b), i, now);
    }
  }
}
