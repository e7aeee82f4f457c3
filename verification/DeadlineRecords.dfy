/**
 What the events of a run say about the waiting requests of the deadline scheduler: the
 sectors of the bios and requests merged into each, and its deadline. The scheduler's
 records agree.
 */
module DeadlineRecords {
  import opened Numbers
  import opened DeadlineSpec
  import opened DeadlineInvariants
  import opened DeadlineRuns

  datatype Record = Record(read: bool, sectors: set<nat>, deadline: nat)

  function Earlier(a: nat, b: nat): nat { if b < a then b else a }

  /** What each request that has been added, and not absorbed since, has been given. */
  function Records(t: Tunables, es: seq<Event>): map<nat, Record>
    decreases |es|
  {
    if es == [] then map[] else Recorded(t, Records(t, es[..|es| - 1]), es[|es| - 1])
  }

  /** A request's deadline is its time of arrival and the expiry of its direction; one that
      absorbs another takes over an earlier deadline. */
  function Recorded(t: Tunables, g: map<nat, Record>, e: Event): map<nat, Record> {
    match e
    case Insert(id, read, pos, sectors, now) =>
      g[id := Record(read, Range(pos, pos + sectors), now + if read then t.readExpire else t.writeExpire)]
    case Front(id, sector, n, now) => With(g, id, Range(sector, sector + n))
    case Back(id, sector, n, now) => With(g, id, Range(sector, sector + n))
    case Merge(req, next, now) =>
      if req in g && next in g then
        g[req := Record(g[req].read, g[req].sectors + g[next].sectors, Earlier(g[req].deadline, g[next].deadline))]
          - {next}
      else g
    case Go(now) => g
  }

  function With(g: map<nat, Record>, id: nat, b: set<nat>): map<nat, Record> {
    if id in g then g[id := g[id].(sectors := g[id].sectors + b)] else g
  }

  predicate Agrees(q: Rq, r: Record) {
    r.read == q.read && r.sectors == Range(q.pos, q.pos + q.sectors) && r.deadline == q.deadline
  }

  predicate AllAgree(reqs: map<nat, Rq>, g: map<nat, Record>) {
    forall id :: id in reqs ==> id in g && Agrees(reqs[id], g[id])
  }

  lemma {:induction false} FrontAgrees(q: Rq, r: Record, sector: nat, n: nat, b: set<nat>)
    requires Agrees(q, r) && sector + n == q.pos && b == Range(sector, sector + n)
    ensures Agrees(Extended(q, n), r.(sectors := r.sectors + b))
  {
    RangeJoin(sector, q.pos, q.pos + q.sectors);
  }

  lemma {:induction false} BackAgrees(q: Rq, r: Record, sector: nat, n: nat, b: set<nat>)
    requires Agrees(q, r) && q.pos + q.sectors == sector && b == Range(sector, sector + n)
    ensures Agrees(q.(sectors := q.sectors + n), r.(sectors := r.sectors + b))
  {
    RangeJoin(q.pos, sector, sector + n);
  }

  lemma {:induction false} JoinAgrees(a: Rq, b: Rq, r: Record, s: Record)
    requires Agrees(a, r) && Agrees(b, s) && a.pos + a.sectors == b.pos
    ensures Agrees(Joined(a, b), Record(r.read, r.sectors + s.sectors, Earlier(r.deadline, s.deadline)))
  {
    RangeJoin(a.pos, b.pos, b.pos + b.sectors);
  }

  lemma {:induction false} OneAgrees(reqs: map<nat, Rq>, g: map<nat, Record>, id: nat, q: Rq, r: Record)
    requires AllAgree(reqs, g) && Agrees(q, r)
    ensures AllAgree(reqs[id := q], g[id := r])
  {
  }

  lemma {:induction false} LessAgrees(reqs: map<nat, Rq>, g: map<nat, Record>, id: nat)
    requires AllAgree(reqs, g)
    ensures AllAgree(reqs - {id}, g) && AllAgree(reqs - {id}, g - {id})
  {
  }

  lemma {:induction false} MergeRecords(d: Sched, req: nat, next: nat)
    requires req in d.reqs && next in d.reqs && req != next
    ensures MergeNext(d, req, next).reqs == d.reqs[req := Joined(d.reqs[req], d.reqs[next])] - {next}
  {
    AbsorbedIs(d, req, next);
    DiscardedIs(Absorbed(d, req, next), next);
  }

  lemma {:induction false} InsertStep(d: Sched, g: map<nat, Record>, e: Event)
    requires AllAgree(d.reqs, g) && Enabled(d, e) && e.Insert?
    ensures AllAgree(Step(d, e).reqs, Recorded(d.tun, g, e))
  {
    AddIs(d, e.id, e.read, e.pos, e.sectors, e.now);
    OneAgrees(d.reqs, g, e.id, Step(d, e).reqs[e.id], Recorded(d.tun, g, e)[e.id]);
  }

  lemma {:induction false} BioStep(d: Sched, g: map<nat, Record>, e: Event)
    requires AllAgree(d.reqs, g) && Enabled(d, e) && (e.Front? || e.Back?)
    ensures AllAgree(Step(d, e).reqs, Recorded(d.tun, g, e))
  {
    var b, q, r := Range(e.sector, e.sector + e.n), d.reqs[e.id], g[e.id];
    if e.Front? {
      FrontAgrees(q, r, e.sector, e.n, b);
      FrontIs(d, e.id, Extended(q, e.n));
      OneAgrees(d.reqs, g, e.id, Extended(q, e.n), r.(sectors := r.sectors + b));
    } else {
      BackAgrees(q, r, e.sector, e.n, b);
      OneAgrees(d.reqs, g, e.id, q.(sectors := q.sectors + e.n), r.(sectors := r.sectors + b));
    }
  }

  lemma {:induction false} MergeStep(d: Sched, g: map<nat, Record>, req: nat, next: nat, now: nat)
    requires AllAgree(d.reqs, g) && Enabled(d, Merge(req, next, now))
    ensures AllAgree(MergeNext(d, req, next).reqs, Recorded(d.tun, g, Merge(req, next, now)))
  {
    var a, b := g[req], g[next];
    var r := Record(a.read, a.sectors + b.sectors, Earlier(a.deadline, b.deadline));
    MergeRecords(d, req, next);
    JoinAgrees(d.reqs[req], d.reqs[next], a, b);
    OneAgrees(d.reqs, g, req, Joined(d.reqs[req], d.reqs[next]), r);
    LessAgrees(d.reqs[req := Joined(d.reqs[req], d.reqs[next])], g[req := r], next);
  }

  lemma {:induction false} StepAgrees(d: Sched, g: map<nat, Record>, e: Event)
    requires AllAgree(d.reqs, g) && Enabled(d, e)
    ensures AllAgree(Step(d, e).reqs, Recorded(d.tun, g, e)) && Step(d, e).tun == d.tun
  {
    match e
    case Insert(id, read, pos, sectors, now) => InsertStep(d, g, e);
    case Front(id, sector, n, now) => BioStep(d, g, e);
    case Back(id, sector, n, now) => BioStep(d, g, e);
    case Merge(req, next, now) => MergeStep(d, g, req, next, now);
    case Go(now) =>
  }

  /** The last event of a run. */
  lemma {:induction false} RunLast(d: Sched, es: seq<Event>, now: nat)
    requires Runs(d, es, now) && es != []
    ensures var n := |es| - 1;
            && Runs(d, es[..n], now) && Enabled(After(d, es[..n], now), es[n])
            && After(d, es, now) == Step(After(d, es[..n], now), es[n])
    decreases |es|
  {
    var n := |es| - 1;
    if n == 0 {
      assert es[1..] == [];
    } else {
      RunLast(Step(d, es[0]), es[1..], es[0].now);
      assert es[..n][1..] == es[1..][..n - 1];
    }
  }

  /** In every run, each waiting request has exactly the sectors it has been given, from its
      first to its last, and the deadline its history gives it. */
  lemma {:induction false} RecordsExact(d: Sched, es: seq<Event>, now: nat)
    requires d.reqs == map[] && Runs(d, es, now)
    ensures AllAgree(After(d, es, now).reqs, Records(d.tun, es)) && After(d, es, now).tun == d.tun
    decreases |es|
  {
    if es != [] {
      var n := |es| - 1;
      RunLast(d, es, now);
      RecordsExact(d, es[..n], now);
      StepAgrees(After(d, es[..n], now), Records(d.tun, es[..n]), es[n]);
    }
  }
}
