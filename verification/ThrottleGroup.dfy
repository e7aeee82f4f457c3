/**
 One throttled group (struct throtl_grp): for each direction a FIFO of waiting bios and
 a slice. The group dispatches up to six reads and two writes at a time.
 */
module ThrottleGroup {
  import opened ThrottleSlice

  const GRP_QUANTUM: nat := 8
  const MAX_READS: nat := GRP_QUANTUM * 3 / 4
  const MAX_WRITES: nat := GRP_QUANTUM - MAX_READS

  datatype Bio = Bio(id: nat, size: nat)

  /** One direction of a group. `arrived` and `log` are all bios submitted and all bios
      dispatched, in order, and `since` is when the slice of the first one was opened. */
  datatype Lane = Lane(lim: Limiter, bios: seq<Bio>, queued: nat, slice: Slice, since: nat,
                       arrived: seq<Bio>, log: seq<Bio>)

  datatype Group = Group(read: Lane, write: Lane, disptime: nat, onRr: bool)

  function Bytes(bs: seq<Bio>): nat {
    if bs == [] then 0 else Bytes(bs[..|bs| - 1]) + bs[|bs| - 1].size
  }

  function Since(l: Lane): nat { if l.log == [] then l.slice.start else l.since }

  function SentOf(l: Lane): Sent { Sent(Bytes(l.log), |l.log|, Since(l)) }

  /** The count is exact, bios leave in the order they came, and they leave within the
      rate. A direction without rules never queues. */
  ghost predicate LaneOk(l: Lane, now: nat) {
    && l.queued == |l.bios| && l.arrived == l.log + l.bios
    && (if l.lim.unlimited then l.bios == [] else l.lim.within(l.slice, SentOf(l), now))
  }

  // ----- one direction

  function Ask(l: Lane, size: nat, now: nat): Verdict
  {
    l.lim.ask(l.slice, size, now)
  }

  /** The slice after asking for a bio and charging it. */
  function Charged(l: Lane, size: nat, now: nat): Slice
  {
    l.lim.spend(l.slice, size, now)
  }

  /** When the slice of the lane's first bio was opened, if this may be the first. */
  function Opened(l: Lane, size: nat, now: nat): nat
  {
    if l.log == [] then Ask(l, size, now).slice.start else l.since
  }

  /** tg_dispatch_one_bio after tg_may_dispatch agreed. */
  function DispatchOne(l: Lane, now: nat): Lane
    requires l.bios != []
  {
    l.(bios := l.bios[1..], queued := if l.queued > 0 then l.queued - 1 else 0,
       slice := Charged(l, l.bios[0].size, now), since := Opened(l, l.bios[0].size, now), log := l.log + [l.bios[0]])
  }

  /** A dispatch loop of throtl_dispatch_tg: at most `max` bios, as many as may go. */
  function DispatchLane(l: Lane, max: nat, now: nat): Lane
    decreases max
  {
    if max == 0 || l.bios == [] then l
    else if !Ask(l, l.bios[0].size, now).ok then l.(slice := Ask(l, l.bios[0].size, now).slice)
    else DispatchLane(DispatchOne(l, now), max - 1, now)
  }

  lemma {:induction false} BytesSnoc(bs: seq<Bio>, b: Bio)
    ensures Bytes(bs + [b]) == Bytes(bs) + b.size
  {
    assert (bs + [b])[..|bs|] == bs;
  }

  lemma {:induction false} AskOk(l: Lane, size: nat, now: nat)
    requires Limits(l.lim)
    requires LaneOk(l, now)
    ensures LaneOk(l.(slice := Ask(l, size, now).slice), now)
  {
    var m := l.(slice := Ask(l, size, now).slice);
    assert !l.lim.unlimited ==> l.lim.within(m.slice, SentOf(l), now);
    assert l.log == [] && !l.lim.unlimited ==> l.lim.within(m.slice, Sent(0, 0, m.slice.start), now);
  }

  /** With another bio of `size` bytes the lane is still within its rate. */
  ghost predicate Affords(l: Lane, size: nat, now: nat) {
    l.lim.within(Charged(l, size, now), Sent(Bytes(l.log) + size, |l.log| + 1, Opened(l, size, now)), now)
  }

  /** A bio that may go keeps the rate. */
  lemma {:induction false} GoOk(l: Lane, size: nat, now: nat)
    requires Limits(l.lim)
    requires LaneOk(l, now) && !l.lim.unlimited && Ask(l, size, now).ok
    ensures Affords(l, size, now)
  {
    AskOk(l, size, now);
    var m := l.(slice := Ask(l, size, now).slice);
    assert l.lim.ask(m.slice, size, now).ok && l.lim.spend(m.slice, size, now) == Charged(l, size, now);
  }

  lemma {:induction false} DispatchOneOk(l: Lane, now: nat)
    requires LaneOk(l, now) && l.bios != [] && Affords(l, l.bios[0].size, now)
    ensures LaneOk(DispatchOne(l, now), now)
  {
    BytesSnoc(l.log, l.bios[0]);
    assert l.log + l.bios == (l.log + [l.bios[0]]) + l.bios[1..];
  }

  /** `t` comes from `l` by dispatching `n` bios from the front. */
  ghost predicate Dispatched(l: Lane, t: Lane, n: nat) {
    && n <= |l.bios| && t.log == l.log + l.bios[..n] && t.bios == l.bios[n..]
    && t.lim == l.lim && t.arrived == l.arrived && (l.log != [] ==> t.since == l.since)
  }

  lemma {:induction false} DispatchedMore(l: Lane, m: Lane, t: Lane, n: nat, more: nat)
    requires Dispatched(l, m, 1) && Dispatched(m, t, n) && more == n + 1
    ensures Dispatched(l, t, more)
  {
    assert l.bios[..n + 1] == l.bios[..1] + l.bios[1..][..n];
    assert l.log + l.bios[..n + 1] == (l.log + l.bios[..1]) + l.bios[1..][..n];
    assert l.bios[1..][n..] == l.bios[n + 1..];
  }

  /** The loop dispatches a prefix of the queue; it stops short of `max` only at the end
      of the queue or at a bio that must wait. */
  lemma {:induction false} DispatchLaneOk(l: Lane, max: nat, now: nat, t: Lane) returns (n: nat)
    requires Limits(l.lim) && LaneOk(l, now) && t == DispatchLane(l, max, now)
    ensures LaneOk(t, now) && n <= max && Dispatched(l, t, n)
    ensures n < max && t.bios != [] ==> !Ask(t, t.bios[0].size, now).ok
    decreases max
  {
    if max == 0 || l.bios == [] {
      n := 0;
    } else if !Ask(l, l.bios[0].size, now).ok {
      n := 0;
      AskOk(l, l.bios[0].size, now);
    } else {
      GoOk(l, l.bios[0].size, now);
      DispatchOneOk(l, now);
      var rest: nat := max - 1;
      var k := DispatchLaneOk(DispatchOne(l, now), rest, now, t);
      DispatchedFirst(l, now);
      n := k + 1;
      DispatchedMore(l, DispatchOne(l, now), t, k, n);
    }
  }

  lemma {:induction false} DispatchedFirst(l: Lane, now: nat)
    requires l.bios != []
    ensures Dispatched(l, DispatchOne(l, now), 1)
  {
  }

  // ----- the group

  ghost predicate GroupOk(g: Group, now: nat) { LaneOk(g.read, now) && LaneOk(g.write, now) }

  predicate Busy(g: Group) { g.read.queued > 0 || g.write.queued > 0 }

  /** throtl_dispatch_tg. */
  function DispatchGroup(g: Group, now: nat): Group
  {
    g.(read := DispatchLane(g.read, MAX_READS, now), write := DispatchLane(g.write, MAX_WRITES, now))
  }

  /** The lane after tg_update_disptime has asked about its first bio. */
  function Asked(l: Lane, now: nat): Lane
  {
    if l.bios == [] then l else l.(slice := Ask(l, l.bios[0].size, now).slice)
  }

  /** The wait tg_update_disptime computes: the smaller of the two directions'. */
  function Wait(g: Group, now: nat): nat
  {
    if g.read.bios == [] then (if g.write.bios == [] then 0 else Ask(g.write, g.write.bios[0].size, now).wait)
    else
      var r := Ask(g.read, g.read.bios[0].size, now).wait;
      if g.write.bios == [] then r
      else
        var w := Ask(g.write, g.write.bios[0].size, now).wait;
        if r < w then r else w
  }

  lemma {:induction false} AskedOk(l: Lane, now: nat)
    requires Limits(l.lim)
    requires LaneOk(l, now)
    ensures LaneOk(Asked(l, now), now)
  {
    if l.bios != [] { AskOk(l, l.bios[0].size, now); }
  }

  /** Nothing could be dispatched, so the group has to wait at least a tick. */
  lemma {:induction false} IdleWaits(g: Group, now: nat)
    requires Limits(g.read.lim) && Limits(g.write.lim)
    requires GroupOk(g, now) && Busy(g)
    requires g.read.bios != [] ==> !Ask(g.read, g.read.bios[0].size, now).ok
    requires g.write.bios != [] ==> !Ask(g.write, g.write.bios[0].size, now).ok
    ensures Wait(g, now) >= 1
  {
    assert g.read.bios != [] ==> Ask(g.read, g.read.bios[0].size, now).wait >= 1;
    assert g.write.bios != [] ==> Ask(g.write, g.write.bios[0].size, now).wait >= 1;
  }

  /** A round of the group: at most eight bios, FIFO in each direction, within the rates;
      a round that dispatches nothing leaves a group that has to wait. */
  lemma {:induction false} DispatchGroupOk(g: Group, now: nat) returns (nr: nat, nw: nat)
    requires Limits(g.read.lim) && Limits(g.write.lim)
    requires GroupOk(g, now)
    ensures GroupOk(DispatchGroup(g, now), now)
    ensures nr <= MAX_READS && nw <= MAX_WRITES && nr + nw <= GRP_QUANTUM
    ensures Dispatched(g.read, DispatchGroup(g, now).read, nr) && Dispatched(g.write, DispatchGroup(g, now).write, nw)
    ensures nr + nw == 0 && Busy(DispatchGroup(g, now)) ==> Wait(DispatchGroup(g, now), now) >= 1
  {
    nr := DispatchLaneOk(g.read, MAX_READS, now, DispatchLane(g.read, MAX_READS, now));
    nw := DispatchLaneOk(g.write, MAX_WRITES, now, DispatchLane(g.write, MAX_WRITES, now));
    if nr + nw == 0 && Busy(DispatchGroup(g, now)) { IdleWaits(DispatchGroup(g, now), now); }
  }

  // ----- submission

  /** blk_throtl_bio for a bio that goes straight through. */
  function Through(l: Lane, b: Bio, now: nat): Lane
  {
    var t := l.(arrived := l.arrived + [b], log := l.log + [b]);
    if l.lim.unlimited then t else t.(slice := Charged(l, b.size, now), since := Opened(l, b.size, now))
  }

  /** blk_throtl_bio for a bio that has to queue. */
  function Enqueue(l: Lane, b: Bio): Lane {
    l.(arrived := l.arrived + [b], bios := l.bios + [b], queued := l.queued + 1)
  }

  predicate Passes(l: Lane, b: Bio, now: nat)
  {
    l.lim.unlimited || (l.queued == 0 && Ask(l, b.size, now).ok)
  }

  lemma {:induction false} ThroughOk(l: Lane, b: Bio, now: nat)
    requires LaneOk(l, now) && Passes(l, b, now) && (!l.lim.unlimited ==> Affords(l, b.size, now))
    ensures LaneOk(Through(l, b, now), now)
  {
    BytesSnoc(l.log, b);
    assert l.bios == [] && l.arrived == l.log;
  }

  lemma {:induction false} EnqueueOk(l: Lane, b: Bio, now: nat)
    requires LaneOk(l, now) && !l.lim.unlimited
    ensures LaneOk(Enqueue(l, b), now)
  {
    assert l.arrived + [b] == l.log + (l.bios + [b]);
  }

  lemma {:induction false} LaneLater(l: Lane, now: nat, later: nat)
    requires Limits(l.lim)
    requires LaneOk(l, now) && now <= later
    ensures LaneOk(l, later)
  {
    assert !l.lim.unlimited ==> l.lim.within(l.slice, SentOf(l), later);
  }
}
