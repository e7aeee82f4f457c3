/**
 A throttled device (struct throtl_data): its groups, the service tree of the groups
 with waiting bios, and the counts of waiting bios. Bios are submitted by blk_throtl_bio
 and dispatched by throtl_select_dispatch, in any order and at any times.
 */
module ThrottleQueue {
  import opened Lists
  import opened ThrottleSlice
  import opened SearchTree
  import opened ThrottleTree
  import opened ThrottleGroup

  const QUANTUM: nat := 32

  /** `out` collects the bios handed back for dispatch, in order. */
  datatype Td = Td(groups: seq<Group>, tree: Root, nrReads: nat, nrWrites: nat, out: seq<Bio>)

  // ----- the service tree and the groups

  function Nodes(groups: seq<Group>): set<Node> {
    set i | 0 <= i < |groups| && groups[i].onRr :: Node(groups[i].disptime, i)
  }

  function WithGroup(d: Td, i: nat, g: Group): Td
    requires i < |d.groups|
  {
    d.(groups := d.groups[i := g])
  }

  /** throtl_dequeue_tg. */
  function Dequeue(d: Td, i: nat): Td
    requires i < |d.groups|
  {
    var g := d.groups[i];
    if g.onRr then WithGroup(d, i, g.(onRr := false)).(tree := Erase(d.tree, Node(g.disptime, i))) else d
  }

  /** throtl_enqueue_tg. */
  function EnqueueTg(d: Td, i: nat): Td
    requires i < |d.groups|
  {
    var g := d.groups[i];
    if g.onRr then d else WithGroup(d, i, g.(onRr := true)).(tree := Add(d.tree, Node(g.disptime, i)))
  }

  predicate TreeOk(d: Td) { RootOk(d.tree, Nodes(d.groups)) }

  lemma {:induction false} NodesUpdate(groups: seq<Group>, i: nat, g: Group)
    requires i < |groups|
    ensures var n := Node(groups[i].disptime, i);
            Nodes(groups[i := g]) == (Nodes(groups) - {n}) + if g.onRr then {Node(g.disptime, i)} else {}
    ensures Node(groups[i].disptime, i) in Nodes(groups) <==> groups[i].onRr
  {
    var n, t := Node(groups[i].disptime, i), groups[i := g];
    assert groups[i].onRr ==> n in Nodes(groups);
    assert g.onRr ==> Node(t[i].disptime, i) in Nodes(t);
    forall m | m in Nodes(groups) && m != n
      ensures m in Nodes(t)
    {
      assert t[m.id] == groups[m.id];
    }
  }

  lemma {:induction false} NodesOwn(groups: seq<Group>)
    ensures OwnIds(Nodes(groups))
  {
  }

  /** Group `i` on the tree or off it, with everything else as it was. */
  function Off(d: Td, i: nat, tree: Root, onRr: bool): Td
    requires i < |d.groups|
  {
    WithGroup(d, i, d.groups[i].(onRr := onRr)).(tree := tree)
  }

  lemma {:induction false} DequeueOk(d: Td, i: nat)
    requires TreeOk(d) && i < |d.groups|
    ensures TreeOk(Dequeue(d, i)) && Dequeue(d, i) == Off(d, i, Dequeue(d, i).tree, false)
  {
    var g := d.groups[i];
    assert !g.onRr ==> d.groups[i := g] == d.groups;
    if g.onRr {
      NodesUpdate(d.groups, i, g.(onRr := false));
      NodesOwn(d.groups);
      EraseOk(d.tree, Nodes(d.groups), Node(g.disptime, i));
    }
  }

  lemma {:induction false} EnqueueTgOk(d: Td, i: nat)
    requires TreeOk(d) && i < |d.groups|
    ensures TreeOk(EnqueueTg(d, i)) && EnqueueTg(d, i) == Off(d, i, EnqueueTg(d, i).tree, true)
  {
    var g := d.groups[i];
    assert g.onRr ==> d.groups[i := g] == d.groups;
    if !g.onRr {
      NodesUpdate(d.groups, i, g.(onRr := true));
      AddOk(d.tree, Nodes(d.groups), Node(g.disptime, i));
    }
  }

  /** A change of a group that keeps its place on the tree. */
  lemma {:induction false} KeepTree(d: Td, i: nat, g: Group)
    requires TreeOk(d) && i < |d.groups| && g.onRr == d.groups[i].onRr &&
             (g.onRr ==> g.disptime == d.groups[i].disptime)
    ensures TreeOk(WithGroup(d, i, g))
  {
    NodesUpdate(d.groups, i, g);
    assert Nodes(d.groups[i := g]) == Nodes(d.groups);
  }

  // ----- the counts

  function QueuedReads(groups: seq<Group>): nat {
    if groups == [] then 0 else groups[0].read.queued + QueuedReads(groups[1..])
  }

  function QueuedWrites(groups: seq<Group>): nat {
    if groups == [] then 0 else groups[0].write.queued + QueuedWrites(groups[1..])
  }

  lemma {:induction false} SumUpdate(groups: seq<Group>, i: nat, g: Group)
    requires i < |groups|
    ensures QueuedReads(groups[i := g]) + groups[i].read.queued == QueuedReads(groups) + g.read.queued
    ensures QueuedWrites(groups[i := g]) + groups[i].write.queued == QueuedWrites(groups) + g.write.queued
  {
    if i == 0 {
      assert groups[i := g][1..] == groups[1..];
    } else {
      SumUpdate(groups[1..], i - 1, g);
      assert groups[i := g][1..] == groups[1..][i - 1 := g];
    }
  }

  // ----- the device

  ghost predicate GroupsOk(d: Td, now: nat) {
    forall i :: 0 <= i < |d.groups| ==> GroupOk(d.groups[i], now)
  }

  /** A group is on the service tree exactly when it has waiting bios. */
  predicate RrOk(d: Td) {
    forall i :: 0 <= i < |d.groups| ==> (d.groups[i].onRr <==> Busy(d.groups[i]))
  }

  /** The device's counts are the sums over its groups. */
  predicate CountsOk(d: Td) {
    d.nrReads == QueuedReads(d.groups) && d.nrWrites == QueuedWrites(d.groups)
  }

  /** Every direction has a proper limiter. */
  ghost predicate LimsOk(groups: seq<Group>) {
    groups == [] || (Limits(groups[0].read.lim) && Limits(groups[0].write.lim) && LimsOk(groups[1..]))
  }

  lemma {:induction false} LimsAt(groups: seq<Group>, i: nat)
    requires LimsOk(groups) && i < |groups|
    ensures Limits(groups[i].read.lim) && Limits(groups[i].write.lim)
  {
    if i > 0 { LimsAt(groups[1..], i - 1); }
  }

  lemma {:induction false} LimsUpdate(groups: seq<Group>, i: nat, g: Group)
    requires LimsOk(groups) && i < |groups| && g.read.lim == groups[i].read.lim && g.write.lim == groups[i].write.lim
    ensures LimsOk(groups[i := g])
  {
    if i == 0 {
      assert groups[i := g][1..] == groups[1..];
    } else {
      LimsUpdate(groups[1..], i - 1, g);
      assert groups[i := g][1..] == groups[1..][i - 1 := g];
    }
  }

  ghost predicate DataOk(d: Td, now: nat) {
    GroupsOk(d, now) && RrOk(d) && CountsOk(d) && TreeOk(d) && LimsOk(d.groups)
  }

  /** tg_update_disptime. */
  function UpdateDisptime(d: Td, i: nat, now: nat): Td
    requires i < |d.groups|
  {
    Requeue(WithGroup(d, i, AskedBoth(d.groups[i], now)), i, now + Wait(d.groups[i], now))
  }

  function AskedBoth(g: Group, now: nat): Group
  {
    g.(read := Asked(g.read, now), write := Asked(g.write, now))
  }

  /** Taking a group off the tree and putting it back with another key. */
  function Requeue(d: Td, i: nat, key: nat): Td
    requires i < |d.groups|
  {
    var t := Dequeue(d, i);
    EnqueueTg(WithGroup(t, i, t.groups[i].(disptime := key)), i)
  }

  lemma {:induction false} Twice<T>(s: seq<T>, i: nat, a: T, b: T)
    requires i < |s|
    ensures s[i := a][i := b] == s[i := b]
  {
  }

  /** What tg_update_disptime amounts to. */
  lemma {:induction false} UpdateDisptimeIs(d: Td, i: nat, now: nat)
    requires i < |d.groups| && TreeOk(d)
    ensures var g := d.groups[i];
            var t := UpdateDisptime(d, i, now);
            && TreeOk(t)
            && var h := Group(Asked(g.read, now), Asked(g.write, now), now + Wait(g, now), true);
               t == d.(groups := d.groups[i := h], tree := t.tree)
  {
    var g, a := d.groups[i], AskedBoth(d.groups[i], now);
    KeepTree(d, i, a);
    RequeueOk(WithGroup(d, i, a), i, now + Wait(g, now));
    Twice(d.groups, i, a, a.(disptime := now + Wait(g, now), onRr := true));
  }

  lemma {:induction false} RequeueOk(d: Td, i: nat, key: nat)
    requires TreeOk(d) && i < |d.groups|
    ensures var r := Requeue(d, i, key);
            TreeOk(r) && r == WithGroup(d, i, d.groups[i].(disptime := key, onRr := true)).(tree := r.tree)
  {
    DequeueOk(d, i);
    var t, g := Dequeue(d, i), d.groups[i].(onRr := false);
    var m := WithGroup(t, i, g.(disptime := key));
    KeepTree(t, i, g.(disptime := key));
    EnqueueTgOk(m, i);
    Twice(d.groups, i, g, g.(disptime := key));
    Twice(d.groups, i, g.(disptime := key), g.(disptime := key, onRr := true));
  }

  /** The bios a lane has dispatched on the way from `l` to `t`. */
  function Newly(l: Lane, t: Lane): seq<Bio> {
    if |l.log| <= |t.log| then t.log[|l.log|..] else []
  }

  /** One turn of the loop in throtl_select_dispatch, for group `i`, up to the update of
      its dispatch time. */
  function Drain(d: Td, i: nat, now: nat): Td
    requires i < |d.groups|
  {
    var g := d.groups[i];
    var t := DispatchGroup(g, now);
    var r, w := Newly(g.read, t.read), Newly(g.write, t.write);
    Dequeue(d, i).(groups := d.groups[i := t.(onRr := false)],
                   nrReads := if d.nrReads >= |r| then d.nrReads - |r| else 0,
                   nrWrites := if d.nrWrites >= |w| then d.nrWrites - |w| else 0,
                   out := d.out + r + w)
  }

  function Round(d: Td, i: nat, now: nat): Td
    requires i < |d.groups|
  {
    Rest(Drain(d, i, now), i, now)
  }

  // ----- one turn

  lemma {:induction false} NewlyIs(l: Lane, t: Lane, n: nat)
    requires Dispatched(l, t, n)
    ensures Newly(l, t) == l.bios[..n] && multiset(Newly(l, t)) + multiset(t.bios) == multiset(l.bios)
  {
    assert l.bios == l.bios[..n] + l.bios[n..];
  }

  lemma {:induction false} DrainTree(d: Td, i: nat, now: nat)
    requires TreeOk(d) && i < |d.groups|
    ensures TreeOk(Drain(d, i, now))
  {
    DequeueOk(d, i);
    var t := Dequeue(d, i);
    var g := DispatchGroup(d.groups[i], now).(onRr := false);
    KeepTree(t, i, g);
    assert t.groups[i := g] == d.groups[i := g];
  }

  lemma {:induction false} SomeReads(groups: seq<Group>, i: nat)
    requires i < |groups|
    ensures groups[i].read.queued <= QueuedReads(groups) && groups[i].write.queued <= QueuedWrites(groups)
  {
    if i > 0 { SomeReads(groups[1..], i - 1); }
  }

  lemma {:induction false} DrainCounts(d: Td, i: nat, now: nat, nr: nat, nw: nat)
    requires CountsOk(d) && i < |d.groups| && GroupOk(d.groups[i], now) && GroupOk(DispatchGroup(d.groups[i], now), now)
    requires Dispatched(d.groups[i].read, DispatchGroup(d.groups[i], now).read, nr)
    requires Dispatched(d.groups[i].write, DispatchGroup(d.groups[i], now).write, nw)
    ensures CountsOk(Drain(d, i, now)) && |Drain(d, i, now).out| == |d.out| + nr + nw
  {
    var g := DispatchGroup(d.groups[i], now);
    NewlyIs(d.groups[i].read, g.read, nr);
    NewlyIs(d.groups[i].write, g.write, nw);
    SomeReads(d.groups, i);
    SumUpdate(d.groups, i, g.(onRr := false));
  }

  /** The groups that are due. */
  function Due(groups: seq<Group>, now: nat): set<Node> {
    set n | n in Nodes(groups) && n.key <= now
  }

  /** In order, but group `i` may be on the tree or not. */
  ghost predicate AllBut(d: Td, i: nat, now: nat) {
    && GroupsOk(d, now) && CountsOk(d) && TreeOk(d) && LimsOk(d.groups) && i < |d.groups|
    && forall k :: 0 <= k < |d.groups| && k != i ==> (d.groups[k].onRr <==> Busy(d.groups[k]))
  }

  /** A state in which only group `i` has changed. */
  lemma {:induction false} DrainedBut(d: Td, t: Td, i: nat, g: Group, now: nat)
    requires DataOk(d, now) && i < |d.groups| && t.groups == d.groups[i := g] && GroupOk(g, now)
    requires g.read.lim == d.groups[i].read.lim && g.write.lim == d.groups[i].write.lim
    requires CountsOk(t) && TreeOk(t)
    ensures AllBut(t, i, now)
  {
    LimsUpdate(d.groups, i, g);
  }

  lemma {:induction false} DrainOk(d: Td, i: nat, now: nat) returns (n: nat)
    requires DataOk(d, now) && i < |d.groups|
    ensures AllBut(Drain(d, i, now), i, now)
    ensures n <= GRP_QUANTUM && |Drain(d, i, now).out| == |d.out| + n
    ensures var t := Drain(d, i, now); n == 0 && Busy(t.groups[i]) ==> Wait(t.groups[i], now) >= 1
  {
    assert GroupOk(d.groups[i], now);
    LimsAt(d.groups, i);
    var nr, nw := DispatchGroupOk(d.groups[i], now);
    DrainTree(d, i, now);
    DrainCounts(d, i, now, nr, nw);
    DrainedBut(d, Drain(d, i, now), i, DispatchGroup(d.groups[i], now).(onRr := false), now);
    n := nr + nw;
  }

  lemma {:induction false} GroupsUpdate(d: Td, i: nat, g: Group, now: nat)
    requires GroupsOk(d, now) && i < |d.groups| && GroupOk(g, now)
    ensures GroupsOk(WithGroup(d, i, g), now)
  {
  }

  lemma {:induction false} AskedSame(g: Group, now: nat)
    ensures var t := Group(Asked(g.read, now), Asked(g.write, now), now + Wait(g, now), true);
            && t.read.queued == g.read.queued && t.write.queued == g.write.queued
  {
  }

  lemma {:induction false} AskedGroup(g: Group, now: nat)
    requires GroupOk(g, now) && Limits(g.read.lim) && Limits(g.write.lim)
    ensures var t := Group(Asked(g.read, now), Asked(g.write, now), now + Wait(g, now), true);
            GroupOk(t, now) && Busy(t) == Busy(g)
  {
    AskedOk(g.read, now);
    AskedOk(g.write, now);
  }

  lemma {:induction false} UpdatedGroups(d: Td, i: nat, now: nat)
    requires GroupsOk(d, now) && TreeOk(d) && LimsOk(d.groups) && i < |d.groups|
    ensures GroupsOk(UpdateDisptime(d, i, now), now) && LimsOk(UpdateDisptime(d, i, now).groups)
  {
    var g := d.groups[i];
    assert GroupOk(g, now);
    LimsAt(d.groups, i);
    LimsUpdate(d.groups, i, Group(Asked(g.read, now), Asked(g.write, now), now + Wait(g, now), true));
    AskedGroup(g, now);
    UpdateDisptimeIs(d, i, now);
    var t := Group(Asked(g.read, now), Asked(g.write, now), now + Wait(g, now), true);
    GroupsUpdate(d, i, t, now);
    assert UpdateDisptime(d, i, now).groups == WithGroup(d, i, t).groups;
  }

  lemma {:induction false} UpdatedCounts(d: Td, i: nat, now: nat)
    requires CountsOk(d) && TreeOk(d) && i < |d.groups|
    ensures CountsOk(UpdateDisptime(d, i, now))
  {
    var g := d.groups[i];
    AskedSame(g, now);
    UpdateDisptimeIs(d, i, now);
    var t := Group(Asked(g.read, now), Asked(g.write, now), now + Wait(g, now), true);
    SumUpdate(d.groups, i, t);
  }

  lemma {:induction false} UpdatedRr(d: Td, i: nat, now: nat)
    requires TreeOk(d) && i < |d.groups| && Busy(d.groups[i])
    requires forall k :: 0 <= k < |d.groups| && k != i ==> (d.groups[k].onRr <==> Busy(d.groups[k]))
    ensures RrOk(UpdateDisptime(d, i, now)) && TreeOk(UpdateDisptime(d, i, now))
  {
    AskedSame(d.groups[i], now);
    UpdateDisptimeIs(d, i, now);
  }

  lemma {:induction false} UpdateOk(d: Td, i: nat, now: nat)
    requires AllBut(d, i, now) && Busy(d.groups[i])
    ensures DataOk(UpdateDisptime(d, i, now), now)
  {
    assert GroupOk(d.groups[i], now);
    UpdatedGroups(d, i, now);
    UpdatedCounts(d, i, now);
    UpdatedRr(d, i, now);
  }

  /** A turn dispatches at most eight bios and loses none; one that dispatches nothing
      leaves fewer groups due. */
  lemma {:induction false} RoundOk(d: Td, i: nat, now: nat)
    requires DataOk(d, now) && i < |d.groups| && d.groups[i].onRr && d.groups[i].disptime <= now
    ensures DataOk(Round(d, i, now), now)
    ensures |d.out| <= |Round(d, i, now).out| <= |d.out| + GRP_QUANTUM
    ensures |Round(d, i, now).out| == |d.out| ==> |Due(Round(d, i, now).groups, now)| < |Due(d.groups, now)|
  {
    assert GroupOk(d.groups[i], now);
    var n := DrainOk(d, i, now);
    RoundRest(d, i, now, Drain(d, i, now), n);
    assert Round(d, i, now) == Rest(Drain(d, i, now), i, now);
  }

  /** The second half of a turn. */
  function Rest(d: Td, i: nat, now: nat): Td
    requires i < |d.groups|
  {
    if Busy(d.groups[i]) then UpdateDisptime(d, i, now) else d
  }

  lemma {:induction false} RoundRest(d: Td, i: nat, now: nat, t: Td, n: nat)
    requires i < |d.groups| && d.groups[i].onRr && d.groups[i].disptime <= now
    requires AllBut(t, i, now) && t == Drain(d, i, now)
    requires n == 0 && Busy(t.groups[i]) ==> Wait(t.groups[i], now) >= 1
    ensures var r := Rest(t, i, now);
            && DataOk(r, now) && r.out == t.out
            && (n == 0 ==> |Due(r.groups, now)| < |Due(d.groups, now)|)
  {
    assert GroupOk(t.groups[i], now);
    DrainGroups(d, i, now);
    if Busy(t.groups[i]) {
      UpdateOk(t, i, now);
      UpdateGroups(t, i, now);
    } else {
      DrainedOk(t, i, now);
    }
    if n == 0 { DueShrinks(d.groups, Rest(t, i, now).groups, i, now); }
  }

  lemma {:induction false} DrainGroups(d: Td, i: nat, now: nat)
    requires i < |d.groups|
    ensures var t := Drain(d, i, now);
            |t.groups| == |d.groups| && t.groups == d.groups[i := t.groups[i]] && !t.groups[i].onRr
  {
  }

  lemma {:induction false} DrainedOk(d: Td, i: nat, now: nat)
    requires AllBut(d, i, now) && !Busy(d.groups[i]) && !d.groups[i].onRr
    ensures DataOk(d, now)
  {
    assert RrOk(d);
  }

  lemma {:induction false} UpdateGroups(d: Td, i: nat, now: nat)
    requires AllBut(d, i, now)
    ensures var t := UpdateDisptime(d, i, now);
            && t.out == d.out && |t.groups| == |d.groups| && t.groups == d.groups[i := t.groups[i]]
            && t.groups[i].onRr && t.groups[i].disptime == now + Wait(d.groups[i], now)
  {
    assert GroupOk(d.groups[i], now);
    UpdateDisptimeIs(d, i, now);
  }

  lemma {:induction false} DueShrinks(groups: seq<Group>, after: seq<Group>, i: nat, now: nat)
    requires i < |groups| && groups[i].onRr && groups[i].disptime <= now
    requires |after| == |groups| && after == groups[i := after[i]] && (after[i].onRr ==> after[i].disptime > now)
    ensures |Due(after, now)| < |Due(groups, now)|
  {
    NodesUpdate(groups, i, after[i]);
    var n := Node(groups[i].disptime, i);
    assert n in Due(groups, now) && Due(after, now) == Due(groups, now) - {n};
  }

  // ----- the first group

  /** throtl_rb_first finds a group that has waiting bios and is due before all others. */
  lemma {:induction false} FirstGroup(d: Td, now: nat)
    requires DataOk(d, now) && d.tree.count > 0
    ensures d.tree.nodes != [] && d.tree.nodes[0].id < |d.groups|
    ensures var i := d.tree.nodes[0].id;
            && d.groups[i].onRr && (d.tree.left == Null || d.tree.left.id == i)
            && GroupOk(d.groups[i], now)
            && forall k :: 0 <= k < |d.groups| && Busy(d.groups[k]) ==> d.groups[i].disptime <= d.groups[k].disptime
  {
    var n := d.tree.nodes[0];
    assert n in Elems(d.tree.nodes);
    assert n in Nodes(d.groups);
    forall k | 0 <= k < |d.groups| && Busy(d.groups[k])
      ensures n.key <= d.groups[k].disptime
    {
      NodesUpdate(d.groups, k, d.groups[k]);
      FirstLeast(d.tree, Nodes(d.groups), Node(d.groups[k].disptime, k));
    }
  }

  /** Waiting bios mean a group on the tree: the BUG_ON of throtl_schedule_next_dispatch
      does not fire. */
  lemma {:induction false} WaitersOnTree(d: Td, now: nat)
    requires DataOk(d, now) && d.nrReads + d.nrWrites > 0
    ensures d.tree.count > 0
  {
    var k := SomeBusy(d.groups);
    NodesUpdate(d.groups, k, d.groups[k]);
    FirstLeast(d.tree, Nodes(d.groups), Node(d.groups[k].disptime, k));
  }

  lemma {:induction false} SomeBusy(groups: seq<Group>) returns (k: nat)
    requires QueuedReads(groups) + QueuedWrites(groups) > 0
    ensures k < |groups| && Busy(groups[k])
  {
    if Busy(groups[0]) { k := 0; } else {
      k := SomeBusy(groups[1..]);
      k := k + 1;
    }
  }

  // ----- submission

  function LaneOf(g: Group, read: bool): Lane { if read then g.read else g.write }

  function WithLane(g: Group, read: bool, l: Lane): Group {
    if read then g.(read := l) else g.(write := l)
  }

  /** throtl_add_bio_tg. */
  function AddBio(d: Td, i: nat, read: bool, b: Bio): Td
    requires i < |d.groups|
  {
    var g := d.groups[i];
    var t := WithGroup(d, i, WithLane(g, read, Enqueue(LaneOf(g, read), b)));
    EnqueueTg(if read then t.(nrReads := t.nrReads + 1) else t.(nrWrites := t.nrWrites + 1), i)
  }

  /** blk_throtl_bio, for a bio not yet throttled. */
  function Submit(d: Td, i: nat, read: bool, b: Bio, now: nat): Td
    requires i < |d.groups|
  {
    var g := d.groups[i];
    var l := LaneOf(g, read);
    if Passes(l, b, now) then WithGroup(d, i, WithLane(g, read, Through(l, b, now))).(out := d.out + [b])
    else if l.queued > 0 then AddBio(d, i, read, b)
    else
      var asked := WithGroup(d, i, WithLane(g, read, l.(slice := Ask(l, b.size, now).slice)));
      UpdateDisptime(AddBio(asked, i, read, b), i, now)
  }

  lemma {:induction false} AddBioTree(d: Td, i: nat, read: bool, b: Bio)
    requires TreeOk(d) && i < |d.groups|
    ensures var t := AddBio(d, i, read, b);
            var g := WithLane(d.groups[i], read, Enqueue(LaneOf(d.groups[i], read), b));
            && TreeOk(t) && t.groups == d.groups[i := g.(onRr := true)] && t.out == d.out
            && t.nrReads == d.nrReads + (if read then 1 else 0) && t.nrWrites == d.nrWrites + (if read then 0 else 1)
  {
    var g := WithLane(d.groups[i], read, Enqueue(LaneOf(d.groups[i], read), b));
    KeepTree(d, i, g);
    EnqueueTgOk(WithGroup(d, i, g), i);
    assert d.groups[i := g][i := g.(onRr := true)] == d.groups[i := g.(onRr := true)];
  }

  lemma {:induction false} EnqueueGroup(g: Group, read: bool, b: Bio, now: nat)
    requires GroupOk(g, now) && !LaneOf(g, read).lim.unlimited
    ensures var t := WithLane(g, read, Enqueue(LaneOf(g, read), b)).(onRr := true);
            && GroupOk(t, now) && Busy(t)
            && t.read.queued == g.read.queued + (if read then 1 else 0)
            && t.write.queued == g.write.queued + (if read then 0 else 1)
  {
    EnqueueOk(LaneOf(g, read), b, now);
  }

  lemma {:induction false} AddBioOk(d: Td, i: nat, read: bool, b: Bio, now: nat)
    requires AllBut(d, i, now) && !LaneOf(d.groups[i], read).lim.unlimited
    ensures var t := AddBio(d, i, read, b);
            AllBut(t, i, now) && Busy(t.groups[i]) && t.groups[i].onRr
  {
    var g := d.groups[i];
    assert GroupOk(g, now);
    AddBioTree(d, i, read, b);
    EnqueueGroup(g, read, b, now);
    var t := WithLane(g, read, Enqueue(LaneOf(g, read), b)).(onRr := true);
    GroupsUpdate(d, i, t, now);
    LimsUpdate(d.groups, i, t);
    assert AddBio(d, i, read, b).groups == WithGroup(d, i, t).groups;
    SumUpdate(d.groups, i, t);
  }

  lemma {:induction false} AskedLane(d: Td, i: nat, read: bool, size: nat, now: nat)
    requires DataOk(d, now) && i < |d.groups|
    ensures var l := LaneOf(d.groups[i], read);
            var t := WithGroup(d, i, WithLane(d.groups[i], read, l.(slice := Ask(l, size, now).slice)));
            AllBut(t, i, now)
  {
    var g := d.groups[i];
    assert GroupOk(g, now);
    LimsAt(d.groups, i);
    var l := LaneOf(g, read);
    AskOk(l, size, now);
    var t := WithLane(g, read, l.(slice := Ask(l, size, now).slice));
    KeepTree(d, i, t);
    GroupsUpdate(d, i, t, now);
    LimsUpdate(d.groups, i, t);
    SumUpdate(d.groups, i, t);
  }

  lemma {:induction false} ThroughGroup(g: Group, read: bool, b: Bio, now: nat)
    requires GroupOk(g, now) && Passes(LaneOf(g, read), b, now) && Limits(LaneOf(g, read).lim)
    ensures var t := WithLane(g, read, Through(LaneOf(g, read), b, now));
            && GroupOk(t, now) && Busy(t) == Busy(g)
            && t.read.queued == g.read.queued && t.write.queued == g.write.queued
  {
    if !LaneOf(g, read).lim.unlimited { GoOk(LaneOf(g, read), b.size, now); }
    ThroughOk(LaneOf(g, read), b, now);
  }

  /** A group changed without touching its queues. */
  lemma {:induction false} ReplaceOk(d: Td, i: nat, g: Group, now: nat)
    requires DataOk(d, now) && i < |d.groups| && GroupOk(g, now)
    requires g.onRr == d.groups[i].onRr && g.disptime == d.groups[i].disptime
    requires g.read.queued == d.groups[i].read.queued && g.write.queued == d.groups[i].write.queued
    requires g.read.lim == d.groups[i].read.lim && g.write.lim == d.groups[i].write.lim
    ensures DataOk(WithGroup(d, i, g), now)
  {
    LimsUpdate(d.groups, i, g);
    KeepTree(d, i, g);
    GroupsUpdate(d, i, g, now);
    SumUpdate(d.groups, i, g);
  }

  lemma {:induction false} OutApart(d: Td, out: seq<Bio>, now: nat)
    requires DataOk(d, now)
    ensures DataOk(d.(out := out), now)
  {
  }

  lemma {:induction false} PassOk(d: Td, i: nat, read: bool, b: Bio, now: nat)
    requires DataOk(d, now) && i < |d.groups| && GroupOk(d.groups[i], now) && Passes(LaneOf(d.groups[i], read), b, now)
    ensures DataOk(Submit(d, i, read, b, now), now)
  {
    var g := d.groups[i];
    LimsAt(d.groups, i);
    ThroughGroup(g, read, b, now);
    var t := WithLane(g, read, Through(LaneOf(g, read), b, now));
    ReplaceOk(d, i, t, now);
    OutApart(WithGroup(d, i, t), d.out + [b], now);
    assert Submit(d, i, read, b, now) == WithGroup(d, i, t).(out := d.out + [b]);
  }

  lemma {:induction false} SubmitOk(d: Td, i: nat, read: bool, b: Bio, now: nat)
    requires DataOk(d, now) && i < |d.groups|
    ensures DataOk(Submit(d, i, read, b, now), now)
  {
    var g := d.groups[i];
    assert GroupOk(g, now);
    var l := LaneOf(g, read);
    if Passes(l, b, now) {
      PassOk(d, i, read, b, now);
    } else if l.queued > 0 {
      AddBioOk(d, i, read, b, now);
    } else {
      AskedLane(d, i, read, b.size, now);
      var asked := WithGroup(d, i, WithLane(g, read, l.(slice := Ask(l, b.size, now).slice)));
      AddBioOk(asked, i, read, b, now);
      UpdateOk(AddBio(asked, i, read, b), i, now);
    }
  }
}
