/**
 A request whose deadline has passed does not wait for ever: each new batch of its
 direction begins with the first of the FIFO, so that only so many requests of the
 direction go before it.
 */
module DeadlineExpiry {
  import opened Lists
  import opened Numbers
  import opened SearchTree
  import opened DeadlineSpec
  import opened DeadlineInvariants
  import opened DeadlineRuns

  // ----- places in a FIFO

  /** How many entries come before that of `id`. */
  function Ahead(s: seq<Node>, id: nat): nat {
    if s == [] || s[0].id == id then 0 else 1 + Ahead(s[1..], id)
  }

  lemma {:induction false} AheadAppend(s: seq<Node>, n: Node, m: Node)
    requires m in s
    ensures Ahead(s + [n], m.id) == Ahead(s, m.id)
  {
    assert (s + [n])[1..] == s[1..] + [n];
    if s[0].id != m.id { AheadAppend(s[1..], n, m); }
  }

  lemma {:induction false} AheadWithout(s: seq<Node>, n: Node, id: nat)
    requires n.id != id
    ensures Ahead(Without(s, n), id) <= Ahead(s, id)
  {
    if s != [] && s[0].id != id {
      AheadWithout(s[1..], n, id);
      if s[0] != n { assert Without(s, n)[1..] == Without(s[1..], n); }
    }
  }

  /** An entry put in place of another. */
  lemma {:induction false} AheadSwap(s: seq<Node>, n: Node, m: Node, id: nat)
    requires Distinct(s) && m in s && n !in s && n.id != id && m.id != id
    ensures Ahead(Without(InsertAfter(s, n, m), m), id) == Ahead(s, id)
  {
    Swapped(s, n, m);
    if s[0] != m && s[0].id != id { AheadSwap(s[1..], n, m, id); }
  }

  lemma {:induction false} Swapped(s: seq<Node>, n: Node, m: Node)
    requires Distinct(s) && m in s && n !in s
    ensures var r := Without(InsertAfter(s, n, m), m);
            r != [] && r[0] == (if s[0] == m then n else s[0])
            && r[1..] == if s[0] == m then s[1..] else Without(InsertAfter(s[1..], n, m), m)
  {
    var r := InsertAfter(s, n, m);
    if s[0] == m {
      assert r[1..] == [n] + s[1..] && ([n] + s[1..])[1..] == s[1..];
      WithoutAbsent([n] + s[1..], m);
    } else {
      assert r[1..] == InsertAfter(s[1..], n, m);
    }
  }

  /** The place of the entry itself is that of the other. */
  lemma {:induction false} AheadTaken(s: seq<Node>, n: Node, m: Node)
    requires Distinct(s) && m in s && OwnIds(Elems(s)) && forall k :: k in s ==> k.id != n.id
    ensures Ahead(Without(InsertAfter(s, n, m), m), n.id) == Ahead(s, m.id)
  {
    Swapped(s, n, m);
    assert m in Elems(s) && s[0] in Elems(s);
    if s[0] != m {
      OwnRest(s);
      AheadTaken(s[1..], n, m);
    }
  }

  lemma {:induction false} BeforeAhead(s: seq<Node>, m: Node, n: Node)
    requires Before(s, m, n) && OwnIds(Elems(s)) && Distinct(s)
    ensures Ahead(s, m.id) < Ahead(s, n.id)
  {
    BeforeIn(s, m, n);
    assert m in Elems(s) && n in Elems(s) && s[0] in Elems(s);
    if s[0] == m {
      if !(n in s[1..]) { BeforeIn(s[1..], m, n); }
    } else {
      BeforeIn(s[1..], m, n);
      assert s[0] !in s[1..];
      OwnRest(s);
      BeforeAhead(s[1..], m, n);
    }
  }

  lemma {:induction false} OwnRest(s: seq<Node>)
    requires s != [] && OwnIds(Elems(s))
    ensures OwnIds(Elems(s[1..]))
  {
    assert forall k :: k in Elems(s[1..]) ==> k in Elems(s);
  }

  lemma {:induction false} FifoOwn(reqs: map<nat, Rq>, l: Lane, read: bool, id: nat)
    requires LaneOk(reqs, l, read) && id in reqs && reqs[id].read == read
    ensures OwnIds(Elems(l.fifo)) && InFifo(id, reqs[id]) in l.fifo
  {
    NodesRemove(reqs, id, read, true);
    assert InFifo(id, reqs[id]) in Elems(l.fifo);
  }

  /** Absorbing a request puts nobody further back. */
  lemma {:induction false} AdoptAhead(reqs: map<nat, Rq>, l: Lane, read: bool, req: nat, next: nat, x: nat)
    requires LaneOk(reqs, l, read) && req in reqs && next in reqs && x in reqs && req != next && x != next
    requires reqs[req].read == reqs[next].read == reqs[x].read == read && reqs[next].deadline < reqs[req].deadline
    ensures Ahead(Without(Adopted(l.fifo, req, next, reqs[req], reqs[next]), InFifo(next, reqs[next])), x)
            <= Ahead(l.fifo, x)
  {
    var a, b, n := InFifo(req, reqs[req]), InFifo(next, reqs[next]), Node(reqs[next].deadline, req);
    var f := Without(l.fifo, a);
    FifoOwn(reqs, l, read, req);
    FifoOwn(reqs, l, read, next);
    WithoutDistinct(l.fifo, a);
    assert b in Elems(f) && forall k :: k in f ==> k in Elems(f);
    assert a in Elems(l.fifo);
    if x == req {
      AheadTaken(f, n, b);
      AheadWithout(l.fifo, a, next);
      KeysBefore(l.fifo, b, a);
      BeforeAhead(l.fifo, b, a);
    } else {
      AheadSwap(f, n, b, x);
      AheadWithout(l.fifo, a, x);
    }
  }

  // ----- how long an expired request may wait

  /** What is left of a batch of the direction. */
  function Rest(d: Sched, read: bool): nat {
    if LaneOf(d, read).next.Some? && d.batching < d.tun.fifoBatch then d.tun.fifoBatch - d.batching else 0
  }

  /** How many requests of its direction may go before `x`: the rest of a batch, and a batch
      for each that comes before it in the FIFO. */
  function Delay(d: Sched, x: nat): nat
    requires x in d.reqs
  {
    Rest(d, d.reqs[x].read) + Batches(Ahead(LaneOf(d, d.reqs[x].read).fifo, x), d.tun)
  }

  function Batches(n: nat, t: Tunables): (r: nat)
    ensures r == n * Max(1, t.fifoBatch)
  {
    ProductNat(n, Max(1, t.fifoBatch));
    n * Max(1, t.fifoBatch)
  }

  lemma {:induction false} ProductNat(a: nat, b: nat)
    ensures a * b >= 0
  {
  }

  lemma {:induction false} FewerBatches(m: nat, n: nat, t: Tunables)
    requires m <= n
    ensures Batches(m, t) <= Batches(n, t) && (m < n ==> Batches(m, t) + Max(1, t.fifoBatch) <= Batches(n, t))
  {
    MulMono(Max(1, t.fifoBatch), m, n);
    if m < n { MulMono(Max(1, t.fifoBatch), m + 1, n); }
  }

  /** The direction and the tunables stay, the deadline comes no later, and the delay does
      not grow. */
  predicate NoLater(d: Sched, t: Sched, x: nat) {
    && x in d.reqs && x in t.reqs && t.reqs[x].read == d.reqs[x].read && t.reqs[x].deadline <= d.reqs[x].deadline
    && t.tun == d.tun && Delay(t, x) <= Delay(d, x)
  }

  lemma {:induction false} LessDelay(d: Sched, t: Sched, x: nat)
    requires x in d.reqs && x in t.reqs && t.reqs[x].read == d.reqs[x].read && t.tun == d.tun
    requires var read := d.reqs[x].read;
             Rest(t, read) <= Rest(d, read) && Ahead(LaneOf(t, read).fifo, x) <= Ahead(LaneOf(d, read).fifo, x)
    ensures Delay(t, x) <= Delay(d, x)
  {
    var read := d.reqs[x].read;
    FewerBatches(Ahead(LaneOf(t, read).fifo, x), Ahead(LaneOf(d, read).fifo, x), d.tun);
  }

  lemma {:induction false} AddDelays(d: Sched, id: nat, read: bool, pos: nat, sectors: nat, now: nat, x: nat)
    requires DataOk(d, now) && id !in d.reqs && x in d.reqs
    ensures NoLater(d, Add(d, id, read, pos, sectors, now), x)
  {
    var t, l := Add(d, id, read, pos, sectors, now), LaneOf(d, read);
    AddIs(d, id, read, pos, sectors, now);
    if d.reqs[x].read == read {
      FifoOwn(d.reqs, l, read, x);
      AheadAppend(l.fifo, InFifo(id, t.reqs[id]), InFifo(x, d.reqs[x]));
    }
    LessDelay(d, t, x);
  }

  lemma {:induction false} FrontDelays(d: Sched, id: nat, q: Rq, x: nat)
    requires id in d.reqs && x in d.reqs && q.read == d.reqs[id].read && q.deadline == d.reqs[id].deadline
    ensures NoLater(d, Repositioned(d, id, q), x)
  {
    FrontIs(d, id, q);
    LessDelay(d, Repositioned(d, id, q), x);
  }

  lemma {:induction false} BackDelays(d: Sched, id: nat, n: nat, x: nat)
    requires id in d.reqs && x in d.reqs
    ensures NoLater(d, BackMerge(d, id, n), x)
  {
    LessDelay(d, BackMerge(d, id, n), x);
  }

  lemma {:induction false} MergeIs(d: Sched, req: nat, next: nat)
    requires req in d.reqs && next in d.reqs && req != next && d.reqs[req].read == d.reqs[next].read
    ensures var t, a, b := MergeNext(d, req, next), d.reqs[req], d.reqs[next];
            var l := LaneOf(d, a.read);
            && t.reqs == d.reqs[req := Joined(a, b)] - {next} && t.tun == d.tun && t.batching == d.batching
            && LaneOf(t, !a.read) == LaneOf(d, !a.read) && (LaneOf(t, a.read).next.Some? ==> l.next.Some?)
            && LaneOf(t, a.read).fifo ==
               Without(if b.deadline < a.deadline then Adopted(l.fifo, req, next, a, b) else l.fifo, InFifo(next, b))
  {
    AbsorbedIs(d, req, next);
    DiscardedIs(Absorbed(d, req, next), next);
  }

  lemma {:induction false} MergeDelays(d: Sched, req: nat, next: nat, now: nat, x: nat)
    requires DataOk(d, now) && req in d.reqs && next in d.reqs && req != next && d.reqs[req].read == d.reqs[next].read
    requires x in d.reqs && x != next
    ensures NoLater(d, MergeNext(d, req, next), x)
  {
    var read := d.reqs[req].read;
    MergeIs(d, req, next);
    if d.reqs[x].read == read {
      if d.reqs[next].deadline < d.reqs[req].deadline {
        AdoptAhead(d.reqs, LaneOf(d, read), read, req, next, x);
      } else {
        AheadWithout(LaneOf(d, read).fifo, InFifo(next, d.reqs[next]), x);
      }
    }
    LessDelay(d, MergeNext(d, req, next), x);
  }

  // ----- dispatches

  predicate Takes(d: Sched, now: nat, read: bool) {
    Choose(d, now).Take? && Choose(d, now).id in d.reqs && d.reqs[Choose(d, now).id].read == read
  }

  /** A dispatch of the other direction, or none at all, costs nothing. */
  lemma {:induction false} OtherGoes(d: Sched, now: nat, x: nat)
    requires DataOk(d, now) && x in d.reqs && !Takes(d, now, d.reqs[x].read)
    ensures NoLater(d, Dispatch(d, now), x)
  {
    ChooseOk(d, now);
    if Choose(d, now).Take? {
      var id, read := Choose(d, now).id, d.reqs[x].read;
      MoveIs(d, id);
      assert LaneOf(Dispatch(d, now), read).fifo == LaneOf(d, read).fifo;
      LessDelay(d, Dispatch(d, now), x);
    }
  }

  /** Within a batch, one less is left of it. */
  lemma {:induction false} BatchGoes(d: Sched, now: nat, x: nat)
    requires DataOk(d, now) && x in d.reqs && Takes(d, now, d.reqs[x].read) && Choose(d, now).id != x
    requires Batched(d).Some? && d.batching < d.tun.fifoBatch
    ensures NoLater(d, Dispatch(d, now), x) && Delay(Dispatch(d, now), x) < Delay(d, x)
  {
    var id, read, t := Choose(d, now).id, d.reqs[x].read, Dispatch(d, now);
    MoveIs(d, id);
    AheadWithout(LaneOf(d, read).fifo, InFifo(id, d.reqs[id]), x);
    FewerBatches(Ahead(LaneOf(t, read).fifo, x), Ahead(LaneOf(d, read).fifo, x), d.tun);
    assert Rest(t, read) < Rest(d, read);
  }

  /** A new batch begins with the first of the FIFO. */
  lemma {:induction false} HeadGoes(d: Sched, now: nat, x: nat)
    requires DataOk(d, now) && x in d.reqs && Takes(d, now, d.reqs[x].read) && Choose(d, now).id != x
    requires !(Batched(d).Some? && d.batching < d.tun.fifoBatch) && d.reqs[x].deadline < now
    ensures NoLater(d, Dispatch(d, now), x) && Delay(Dispatch(d, now), x) < Delay(d, x)
  {
    var id, read, t := Choose(d, now).id, d.reqs[x].read, Dispatch(d, now);
    var l := LaneOf(d, read);
    FifoOwn(d.reqs, l, read, x);
    FifoOwn(d.reqs, l, read, id);
    HeadDecides(d, read, now);
    if d.r.fifo != [] { FindWaits(d.reqs, d.r, true, now); }
    if d.w.fifo != [] { FindWaits(d.reqs, d.w, false, now); }
    assert id == l.fifo[0].id;
    assert l.fifo[0] in Elems(l.fifo) && InFifo(id, d.reqs[id]) in Elems(l.fifo);
    MoveIs(d, id);
    WithoutHead(l.fifo);
    FewerBatches(Ahead(LaneOf(t, read).fifo, x), Ahead(l.fifo, x), d.tun);
    assert t.batching == 1;
  }

  lemma {:induction false} StepDelays(d: Sched, e: Event, x: nat)
    requires DataOk(d, e.now) && Enabled(d, e) && x in d.reqs && x in Step(d, e).reqs && d.reqs[x].deadline < e.now
    ensures NoLater(d, Step(d, e), x)
    ensures e.Go? && Takes(d, e.now, d.reqs[x].read) ==> Delay(Step(d, e), x) < Delay(d, x)
  {
    match e
    case Insert(id, read, pos, sectors, now) => AddDelays(d, id, read, pos, sectors, now, x);
    case Front(id, sector, n, now) => FrontDelays(d, id, Extended(d.reqs[id], n), x);
    case Back(id, sector, n, now) => BackDelays(d, id, n, x);
    case Merge(req, next, now) =>
      MergeIs(d, req, next);
      MergeDelays(d, req, next, now, x);
    case Go(now) =>
      ChooseOk(d, now);
      if !Takes(d, now, d.reqs[x].read) {
        OtherGoes(d, now, x);
      } else {
        MoveIs(d, Choose(d, now).id);
        if Batched(d).Some? && d.batching < d.tun.fifoBatch { BatchGoes(d, now, x); } else { HeadGoes(d, now, x); }
      }
  }

  // ----- runs

  /** The requests of a direction that are dispatched in a run. */
  function Dispatches(d: Sched, es: seq<Event>, now: nat, read: bool): nat
    requires Runs(d, es, now)
    decreases |es|
  {
    if es == [] then 0
    else (if es[0].Go? && Takes(d, es[0].now, read) then 1 else 0)
         + Dispatches(Step(d, es[0]), es[1..], es[0].now, read)
  }

  /** `x` waits all the time. */
  predicate KeepsWaiting(d: Sched, es: seq<Event>, now: nat, x: nat)
    requires Runs(d, es, now)
    decreases |es|
  {
    x in d.reqs && (es == [] || KeepsWaiting(Step(d, es[0]), es[1..], es[0].now, x))
  }

  lemma {:induction false} DelayEnds(d: Sched, es: seq<Event>, now: nat, x: nat)
    requires DataOk(d, now) && Runs(d, es, now) && KeepsWaiting(d, es, now, x) && d.reqs[x].deadline < now
    ensures Dispatches(d, es, now, d.reqs[x].read) <= Delay(d, x)
    decreases |es|
  {
    if es != [] {
      Later(d, now, es[0].now);
      StepDelays(d, es[0], x);
      StepOk(d, es[0]);
      DelayEnds(Step(d, es[0]), es[1..], es[0].now, x);
    }
  }

  /** While a request whose deadline has passed waits, at most max(1, fifo_batch) requests of
      its direction go for each that is before it in the FIFO, and the rest of a batch. */
  lemma {:induction false} ExpiredBound(d: Sched, es: seq<Event>, now: nat, x: nat)
    requires DataOk(d, now) && Runs(d, es, now) && KeepsWaiting(d, es, now, x) && d.reqs[x].deadline < now
    ensures Dispatches(d, es, now, d.reqs[x].read) <=
            (Ahead(LaneOf(d, d.reqs[x].read).fifo, x) + 1) * Max(1, d.tun.fifoBatch)
  {
    DelayEnds(d, es, now, x);
    var n, m := Ahead(LaneOf(d, d.reqs[x].read).fifo, x), Max(1, d.tun.fifoBatch);
    assert (n + 1) * m == n * m + m;
  }

  /** Those before it have no later deadlines. */
  lemma {:induction false} AheadEarlier(d: Sched, now: nat, x: nat, i: nat)
    requires DataOk(d, now) && x in d.reqs && i < Ahead(LaneOf(d, d.reqs[x].read).fifo, x)
    ensures var f := LaneOf(d, d.reqs[x].read).fifo;
            i < |f| && f[i].id in d.reqs && d.reqs[f[i].id].deadline <= d.reqs[x].deadline
  {
    var read := d.reqs[x].read;
    var f := LaneOf(d, read).fifo;
    FifoOwn(d.reqs, LaneOf(d, read), read, x);
    AheadKeys(f, InFifo(x, d.reqs[x]), i);
    assert f[i] in Elems(f);
  }

  lemma {:induction false} AheadKeys(s: seq<Node>, n: Node, i: nat)
    requires Sorted(s) && n in s && i < Ahead(s, n.id)
    ensures i < |s| && s[i].key <= n.key
  {
    if i > 0 { AheadKeys(s[1..], n, i - 1); }
  }
}
