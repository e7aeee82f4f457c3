/**
 Runs of a throttled device: submissions and dispatch work at times that never go back.
 Over every run, each group and direction stays within its limits, bios leave in the
 order they came, none is lost or duplicated, and the service tree and counts are exact.
 */
module ThrottleRuns {
  import opened ThrottleSlice
  import opened ThrottleTree
  import opened ThrottleGroup
  import opened ThrottleQueue
  import opened ThrottleBios
  import opened ThrottleSelect

  /** A bio for a group arrives, or the dispatch work runs. */
  datatype Event = Arrive(group: nat, read: bool, bio: Bio, now: nat) | Work(now: nat)

  predicate Enabled(d: Td, e: Event) { e.Arrive? ==> e.group < |d.groups| }

  function Step(d: Td, e: Event): (t: Td)
    requires DataOk(d, e.now) && Enabled(d, e)
    ensures DataOk(t, e.now)
  {
    match e
    case Arrive(i, read, b, now) => SubmitOk(d, i, read, b, now); Submit(d, i, read, b, now)
    case Work(now) => SelectBound(d, now, SelectAll(d, now)); SelectAll(d, now)
  }

  ghost predicate Runs(d: Td, es: seq<Event>, now: nat)
    requires DataOk(d, now)
    decreases |es|
  {
    es == [] ||
    (now <= es[0].now && Enabled(d, es[0]) && (Later(d, now, es[0].now); Runs(Step(d, es[0]), es[1..], es[0].now)))
  }

  function After(d: Td, es: seq<Event>, now: nat): Td
    requires DataOk(d, now) && Runs(d, es, now)
    decreases |es|
  {
    if es == [] then d
    else
      Later(d, now, es[0].now);
      After(Step(d, es[0]), es[1..], es[0].now)
  }

  function Time(es: seq<Event>, now: nat): nat { if es == [] then now else es[|es| - 1].now }

  lemma {:induction false} Later(d: Td, now: nat, later: nat)
    requires DataOk(d, now) && now <= later
    ensures DataOk(d, later)
  {
    forall i | 0 <= i < |d.groups|
      ensures GroupOk(d.groups[i], later)
    {
      LimsAt(d.groups, i);
      LaneLater(d.groups[i].read, now, later);
      LaneLater(d.groups[i].write, now, later);
    }
  }

  // ----- what a step does to each direction of each group

  /** The bios submitted to one direction of a group, in order. */
  function Arrivals(es: seq<Event>, i: nat, read: bool): seq<Bio> {
    if es == [] then [] else Arrival(es[0], i, read) + Arrivals(es[1..], i, read)
  }

  function Arrival(e: Event, i: nat, read: bool): seq<Bio> {
    if e.Arrive? && e.group == i && e.read == read then [e.bio] else []
  }

  /** A lane after a submission to it, or to another. */
  ghost predicate Joined(l: Lane, t: Lane, more: seq<Bio>) { t.lim == l.lim && t.arrived == l.arrived + more }

  lemma {:induction false} AddBioJoins(d: Td, i: nat, read: bool, b: Bio, k: nat, r: bool)
    requires TreeOk(d) && i < |d.groups| && k < |d.groups|
    ensures var t := AddBio(d, i, read, b);
            && |t.groups| == |d.groups|
            && Joined(LaneOf(d.groups[k], r), LaneOf(t.groups[k], r), if k == i && r == read then [b] else [])
  {
    AddBioTree(d, i, read, b);
  }

  lemma {:induction false} SubmitJoins(d: Td, i: nat, read: bool, b: Bio, now: nat, k: nat, r: bool)
    requires DataOk(d, now) && i < |d.groups| && k < |d.groups|
    ensures var t := Submit(d, i, read, b, now);
            && |t.groups| == |d.groups|
            && Joined(LaneOf(d.groups[k], r), LaneOf(t.groups[k], r), if k == i && r == read then [b] else [])
  {
    var g := d.groups[i];
    assert GroupOk(g, now);
    var l := LaneOf(g, read);
    if !Passes(l, b, now) {
      if l.queued > 0 {
        AddBioJoins(d, i, read, b, k, r);
      } else {
        AskedLane(d, i, read, b.size, now);
        var asked := WithGroup(d, i, WithLane(g, read, l.(slice := Ask(l, b.size, now).slice)));
        AddBioOk(asked, i, read, b, now);
        AddBioJoins(asked, i, read, b, k, r);
        UpdateKept(AddBio(asked, i, read, b), i, now);
        assert GroupKept(AddBio(asked, i, read, b).groups[k], Submit(d, i, read, b, now).groups[k]);
      }
    }
  }

  lemma {:induction false} StepJoins(d: Td, e: Event, k: nat, r: bool)
    requires DataOk(d, e.now) && Enabled(d, e) && k < |d.groups|
    ensures |Step(d, e).groups| == |d.groups|
    ensures Joined(LaneOf(d.groups[k], r), LaneOf(Step(d, e).groups[k], r), Arrival(e, k, r))
  {
    match e
    case Arrive(i, read, b, now) => SubmitJoins(d, i, read, b, now, k, r);
    case Work(now) =>
      SelectBound(d, now, SelectAll(d, now));
      assert GroupKept(d.groups[k], Step(d, e).groups[k]);
  }

  // ----- the theorems

  /** The first step of a run, and the rest. */
  lemma {:induction false} RunFirst(d: Td, es: seq<Event>, now: nat)
    requires DataOk(d, now) && Runs(d, es, now) && es != []
    ensures now <= es[0].now && Enabled(d, es[0])
  {
  }

  lemma {:induction false} TimeRest(es: seq<Event>, now: nat)
    requires es != []
    ensures Time(es, now) == Time(es[1..], es[0].now)
  {
  }

  lemma {:induction false} RunGoesOn(d: Td, es: seq<Event>, now: nat)
    requires DataOk(d, now) && Runs(d, es, now) && es != [] && DataOk(d, es[0].now) && Enabled(d, es[0])
    ensures Runs(Step(d, es[0]), es[1..], es[0].now)
  {
  }

  lemma {:induction false} RunRest(d: Td, es: seq<Event>, now: nat, a: Td, b: Td)
    requires DataOk(d, now) && Runs(d, es, now) && es != [] && DataOk(d, es[0].now) && Enabled(d, es[0])
    requires Runs(Step(d, es[0]), es[1..], es[0].now)
    requires a == After(d, es, now) && b == After(Step(d, es[0]), es[1..], es[0].now)
    ensures a == b
  {
  }

  lemma {:induction false} RunOk(d: Td, es: seq<Event>, now: nat)
    requires DataOk(d, now) && Runs(d, es, now)
    ensures DataOk(After(d, es, now), Time(es, now))
    decreases |es|
  {
    if es == [] {
      assert After(d, es, now) == d;
    } else {
      RunFirst(d, es, now);
      Later(d, now, es[0].now);
      TimeRest(es, now);
      RunGoesOn(d, es, now);
      RunRest(d, es, now, After(d, es, now), After(Step(d, es[0]), es[1..], es[0].now));
      RunOk(Step(d, es[0]), es[1..], es[0].now);
    }
  }

  lemma {:induction false} RunJoins(d: Td, es: seq<Event>, now: nat, k: nat, r: bool)
    requires DataOk(d, now) && Runs(d, es, now) && k < |d.groups|
    ensures |After(d, es, now).groups| == |d.groups|
    ensures Joined(LaneOf(d.groups[k], r), LaneOf(After(d, es, now).groups[k], r), Arrivals(es, k, r))
    decreases |es|
  {
    if es == [] {
      assert LaneOf(d.groups[k], r).arrived + [] == LaneOf(d.groups[k], r).arrived;
    } else {
      RunFirst(d, es, now);
      Later(d, now, es[0].now);
      TimeRest(es, now);
      RunGoesOn(d, es, now);
      RunRest(d, es, now, After(d, es, now), After(Step(d, es[0]), es[1..], es[0].now));
      StepJoins(d, es[0], k, r);
      RunJoins(Step(d, es[0]), es[1..], es[0].now, k, r);
      JoinedTwice(LaneOf(d.groups[k], r), LaneOf(Step(d, es[0]).groups[k], r), LaneOf(After(d, es, now).groups[k], r),
                  Arrival(es[0], k, r), Arrivals(es[1..], k, r));
    }
  }

  lemma {:induction false} JoinedTwice(l: Lane, m: Lane, t: Lane, a: seq<Bio>, b: seq<Bio>)
    requires Joined(l, m, a) && Joined(m, t, b)
    ensures Joined(l, t, a + b)
  {
    assert (l.arrived + a) + b == l.arrived + (a + b);
  }

  /** The limits of a group, for reads and writes. */
  datatype Rules = Rules(read: Rule, write: Rule)

  function RuleOf(u: Rules, read: bool): Rule { if read then u.read else u.write }

  /** A device on which nothing has happened: no bios, and slices as allocated. */
  ghost predicate NewLane(l: Lane, u: Rule) {
    && RuleOk(u) && l.lim == LimiterOf(u)
    && l.bios == [] && l.queued == 0 && l.arrived == [] && l.log == [] && l.slice == Slice(0, 0, 0, 0)
  }

  ghost predicate NewDevice(d: Td, rules: seq<Rules>) {
    && |rules| == |d.groups|
    && (forall i :: 0 <= i < |d.groups| ==>
          NewLane(d.groups[i].read, rules[i].read) && NewLane(d.groups[i].write, rules[i].write) && !d.groups[i].onRr)
    && d.tree == Root([], Null, 0) && d.nrReads == 0 && d.nrWrites == 0 && d.out == []
  }

  lemma {:induction false} NoneQueued(groups: seq<Group>)
    requires forall i :: 0 <= i < |groups| ==> groups[i].read.queued == 0 && groups[i].write.queued == 0
    ensures QueuedReads(groups) == 0 && QueuedWrites(groups) == 0
  {
    if groups != [] { NoneQueued(groups[1..]); }
  }

  lemma {:induction false} NewLaneOk(l: Lane, u: Rule, now: nat)
    requires NewLane(l, u)
    ensures LaneOk(l, now)
  {
    assert WithinRate(u, l.slice, Sent(0, 0, 0), now);
  }

  lemma {:induction false} NewLims(groups: seq<Group>, rules: seq<Rules>)
    requires |rules| == |groups|
    requires forall i :: 0 <= i < |groups| ==>
                           NewLane(groups[i].read, rules[i].read) && NewLane(groups[i].write, rules[i].write)
    ensures LimsOk(groups)
  {
    if groups != [] {
      SliceLimits(rules[0].read);
      SliceLimits(rules[0].write);
      NewLims(groups[1..], rules[1..]);
    }
  }

  lemma {:induction false} NewDeviceOk(d: Td, rules: seq<Rules>, now: nat)
    requires NewDevice(d, rules)
    ensures DataOk(d, now)
  {
    NoneQueued(d.groups);
    NewLims(d.groups, rules);
    assert Nodes(d.groups) == {};
    forall i | 0 <= i < |d.groups|
      ensures GroupOk(d.groups[i], now)
    {
      NewLaneOk(d.groups[i].read, rules[i].read, now);
      NewLaneOk(d.groups[i].write, rules[i].write, now);
    }
  }

  lemma {:induction false} LaneHolds(d: Td, k: nat, r: bool, now: nat)
    requires DataOk(d, now) && k < |d.groups|
    ensures LaneOk(LaneOf(d.groups[k], r), now)
  {
    assert GroupOk(d.groups[k], now);
  }

  lemma {:induction false} LaneRate(l: Lane, u: Rule, now: nat)
    requires RuleOk(u) && l.lim == LimiterOf(u) && LaneOk(l, now) && !Unlimited(u)
    ensures Since(l) <= now
    ensures Bytes(l.log) * u.hz <= u.bps * (now - Since(l) + u.slice)
    ensures |l.log| * u.hz <= u.iops * (now - Since(l) + u.slice)
  {
    assert WithinRate(u, l.slice, SentOf(l), now);
    assert now + u.slice - Since(l) == now - Since(l) + u.slice;
  }

  /** A run of a device on which nothing has happened, and where it ends. */
  ghost predicate RunsNew(d: Td, rules: seq<Rules>, es: seq<Event>, now: nat) {
    NewDevice(d, rules) && (NewDeviceOk(d, rules, now); Runs(d, es, now))
  }

  ghost function Final(d: Td, rules: seq<Rules>, es: seq<Event>, now: nat): Td
    requires RunsNew(d, rules, es, now)
  {
    NewDeviceOk(d, rules, now);
    After(d, es, now)
  }

  lemma {:induction false} FinalLane(d: Td, rules: seq<Rules>, es: seq<Event>, now: nat, k: nat, r: bool, t: Td)
    requires RunsNew(d, rules, es, now) && k < |d.groups| && t == Final(d, rules, es, now)
    ensures |t.groups| == |d.groups| && LaneOk(LaneOf(t.groups[k], r), Time(es, now))
    ensures Joined(LaneOf(d.groups[k], r), LaneOf(t.groups[k], r), Arrivals(es, k, r))
  {
    NewDeviceOk(d, rules, now);
    RunOk(d, es, now);
    RunJoins(d, es, now, k, r);
    LaneHolds(t, k, r, Time(es, now));
  }

  /** The rate guarantee: at the end of any run, what a group has dispatched in one
      direction since its first slice fits the limits over that time and one slice. */
  lemma {:induction false} RateGuarantee(d: Td, rules: seq<Rules>, es: seq<Event>, now: nat, k: nat, r: bool)
    requires RunsNew(d, rules, es, now) && k < |d.groups| && !Unlimited(RuleOf(rules[k], r))
    ensures |Final(d, rules, es, now).groups| == |d.groups|
    ensures var u := RuleOf(rules[k], r);
            var l := LaneOf(Final(d, rules, es, now).groups[k], r);
            var t := Time(es, now);
            && Since(l) <= t
            && Bytes(l.log) * u.hz <= u.bps * (t - Since(l) + u.slice)
            && |l.log| * u.hz <= u.iops * (t - Since(l) + u.slice)
  {
    var t := Final(d, rules, es, now);
    FinalLane(d, rules, es, now, k, r, t);
    LaneRate(LaneOf(t.groups[k], r), RuleOf(rules[k], r), Time(es, now));
  }

  /** Each direction of a group is a FIFO: what has been dispatched, and then what is
      waiting, is what was submitted, in order. */
  lemma {:induction false} FirstInFirstOut(d: Td, rules: seq<Rules>, es: seq<Event>, now: nat, k: nat, r: bool)
    requires RunsNew(d, rules, es, now) && k < |d.groups|
    ensures |Final(d, rules, es, now).groups| == |d.groups|
    ensures var l := LaneOf(Final(d, rules, es, now).groups[k], r); l.log + l.bios == Arrivals(es, k, r)
  {
    FinalLane(d, rules, es, now, k, r, Final(d, rules, es, now));
    assert [] + Arrivals(es, k, r) == Arrivals(es, k, r);
  }

  // ----- conservation

  lemma {:induction false} StepBios(d: Td, e: Event)
    requires DataOk(d, e.now) && Enabled(d, e)
    ensures Bios(Step(d, e)) == Bios(d) + if e.Arrive? then multiset{e.bio} else multiset{}
  {
    match e
    case Arrive(i, read, b, now) =>
      assert GroupOk(d.groups[i], now);
      SubmitBios(d, i, read, b, now);
    case Work(now) => SelectBound(d, now, SelectAll(d, now));
  }

  function Submitted(es: seq<Event>): multiset<Bio> {
    if es == [] then multiset{}
    else (if es[0].Arrive? then multiset{es[0].bio} else multiset{}) + Submitted(es[1..])
  }

  /** Over every run, each bio submitted is waiting or has been handed back, once. */
  lemma {:induction false} NoneLost(d: Td, es: seq<Event>, now: nat, t: Td)
    requires DataOk(d, now) && Runs(d, es, now) && t == After(d, es, now)
    ensures Bios(t) == Bios(d) + Submitted(es)
    decreases |es|
  {
    if es != [] {
      RunFirst(d, es, now);
      Later(d, now, es[0].now);
      RunGoesOn(d, es, now);
      RunRest(d, es, now, t, After(Step(d, es[0]), es[1..], es[0].now));
      StepBios(d, es[0]);
      NoneLost(Step(d, es[0]), es[1..], es[0].now, t);
    }
  }
}
