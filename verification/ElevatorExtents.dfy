/**
 What the events of a run say about the requests in the scheduler, and that the elevator
 agrees with it: each request has exactly the sectors of the bios and requests merged
 into it, so that a lookup finds the request that really ends at a sector.
 */
module ElevatorExtents {
  import opened Numbers
  import opened SearchTree
  import opened ElevatorHash

  /** The sectors each request in the scheduler has been given. */
  function Given(vs: seq<Event>): map<nat, set<nat>>
    decreases |vs|
  {
    if vs == [] then map[] else Gives(Given(vs[..|vs| - 1]), vs[|vs| - 1])
  }

  function Of(g: map<nat, set<nat>>, id: nat): set<nat> { if id in g then g[id] else {} }

  function Gives(g: map<nat, set<nat>>, v: Event): map<nat, set<nat>> {
    match v
    case Add(id, q) => g[id := Range(q.pos, q.pos + q.sectors)]
    case Back(id, sector, n) => g[id := Of(g, id) + Range(sector, sector + n)]
    case BackJoin(id, sector, n, next) => g[id := Of(g, id) + Range(sector, sector + n) + Of(g, next)] - {next}
    case Front(id, sector, n) => g[id := Range(sector, sector + n) + Of(g, id)]
    case FrontJoin(id, sector, n, prev) => g[prev := Of(g, prev) + Range(sector, sector + n) + Of(g, id)] - {id}
    case Go(id) => g - {id}
    case _ => g
  }

  /** The request something was last merged into, while it can be merged with; after that
      the first one added. */
  function Cached(vs: seq<Event>): Maybe
    decreases |vs|
  {
    if vs == [] then None else Caches(Cached(vs[..|vs| - 1]), vs[|vs| - 1])
  }

  function Caches(m: Maybe, v: Event): Maybe {
    match v
    case Add(id, q) => if m.None? && q.mergeable then Some(id) else m
    case Back(id, sector, n) => Some(id)
    case BackJoin(id, sector, n, next) => Some(id)
    case Front(id, sector, n) => Some(id)
    case FrontJoin(id, sector, n, prev) => Some(prev)
    case Go(id) => Forget(m, id)
    case Limit(id) => Forget(m, id)
    case Lookup(key) => m
  }

  /** The requests REQ_NOMERGE has been set on, or that came with it. */
  function Limited(vs: seq<Event>): set<nat>
    decreases |vs|
  {
    if vs == [] then {} else Limits(Limited(vs[..|vs| - 1]), vs[|vs| - 1])
  }

  function Limits(s: set<nat>, v: Event): set<nat> {
    match v
    case Add(id, q) => if q.mergeable then s - {id} else s + {id}
    case Limit(id) => s + {id}
    case _ => s
  }

  /** The requests have these sectors. */
  predicate Extents(reqs: map<nat, Rq>, g: map<nat, set<nat>>) {
    g.Keys == reqs.Keys && forall id :: id in reqs ==> g[id] == Range(reqs[id].pos, Key(reqs[id]))
  }

  predicate Marks(reqs: map<nat, Rq>, s: set<nat>) { forall id :: id in reqs ==> (reqs[id].mergeable <==> id !in s) }

  lemma {:induction false} BackGives(e: Elv, g: map<nat, set<nat>>, id: nat, sector: nat, n: nat, b: set<nat>)
    requires Extents(e.reqs, g) && id in e.reqs && Key(e.reqs[id]) == sector && b == Range(sector, sector + n)
    ensures Extents(Grown(e, id, n).reqs, g[id := Of(g, id) + b])
  {
    RangeJoin(e.reqs[id].pos, sector, sector + n);
  }

  lemma {:induction false} FrontGives(e: Elv, g: map<nat, set<nat>>, id: nat, sector: nat, n: nat, b: set<nat>)
    requires Extents(e.reqs, g) && id in e.reqs && sector + n == e.reqs[id].pos && b == Range(sector, sector + n)
    ensures Extents(GrownFront(e, id, n).reqs, g[id := b + Of(g, id)])
  {
    RangeJoin(sector, sector + n, Key(e.reqs[id]));
  }

  lemma {:induction false} JoinGives(e: Elv, g: map<nat, set<nat>>, id: nat, next: nat, all: set<nat>)
    requires |e.hash| > 0 && Extents(e.reqs, g) && id in e.reqs && next in e.reqs && id != next
    requires Key(e.reqs[id]) == e.reqs[next].pos && all == g[id] + g[next]
    ensures Extents(MergeNext(e, id, next).reqs, g[id := all] - {next})
  {
    RangeJoin(e.reqs[id].pos, e.reqs[next].pos, Key(e.reqs[next]));
  }

  /** What a request is given by a bio, and with it by its neighbour. */
  lemma {:induction false} Twice(g: map<nat, set<nat>>, id: nat, other: nat, s: set<nat>, all: set<nat>)
    requires id != other
    ensures g[id := s][id := all] - {other} == g[id := all] - {other}
    ensures g[other := s][id := all] - {other} == g[id := all] - {other}
  {
  }

  lemma {:induction false} BackJoinGives(e: Elv, g: map<nat, set<nat>>, id: nat, sector: nat, n: nat, next: nat,
                                         b: set<nat>)
    requires |e.hash| > 0 && Extents(e.reqs, g) && Enabled(e, BackJoin(id, sector, n, next))
    requires b == Range(sector, sector + n)
    ensures Extents(MergeNext(Grown(e, id, n), id, next).reqs, g[id := Of(g, id) + b + Of(g, next)] - {next})
  {
    var all := Of(g, id) + b + Of(g, next);
    BackGives(e, g, id, sector, n, b);
    JoinGives(Grown(e, id, n), g[id := Of(g, id) + b], id, next, all);
    Twice(g, id, next, Of(g, id) + b, all);
  }

  lemma {:induction false} FrontJoinGives(e: Elv, g: map<nat, set<nat>>, id: nat, sector: nat, n: nat, prev: nat,
                                          b: set<nat>)
    requires |e.hash| > 0 && Extents(e.reqs, g) && Enabled(e, FrontJoin(id, sector, n, prev))
    requires b == Range(sector, sector + n)
    ensures Extents(MergeNext(GrownFront(e, id, n), prev, id).reqs, g[prev := Of(g, prev) + b + Of(g, id)] - {id})
  {
    var all := Of(g, prev) + b + Of(g, id);
    FrontGives(e, g, id, sector, n, b);
    assert Of(g, prev) + (b + Of(g, id)) == all;
    JoinGives(GrownFront(e, id, n), g[id := b + Of(g, id)], prev, id, all);
    Twice(g, prev, id, b + Of(g, id), all);
  }

  lemma {:induction false} AddGives(e: Elv, g: map<nat, set<nat>>, id: nat, q: Rq)
    requires |e.hash| > 0 && Extents(e.reqs, g)
    ensures Extents(ElevatorHash.Insert(e, id, q).reqs, g[id := Range(q.pos, Key(q))])
  {
  }

  lemma {:induction false} OthersGive(e: Elv, g: map<nat, set<nat>>, id: nat)
    requires Extents(e.reqs, g)
    ensures Extents(Dispatch(e, id).reqs, g - {id}) && (id in e.reqs ==> Extents(NoMerge(e, id).reqs, g))
  {
  }

  /** The event leaves the requests with the sectors it gives them. */
  predicate GivesThem(e: Elv, g: map<nat, set<nat>>, v: Event)
    requires |e.hash| > 0 && Enabled(e, v)
  {
    Extents(Step(e, v).reqs, Gives(g, v))
  }

  lemma {:induction false} StepBack(e: Elv, g: map<nat, set<nat>>, v: Event)
    requires |e.hash| > 0 && Extents(e.reqs, g) && Enabled(e, v) && (v.Back? || v.BackJoin?)
    ensures GivesThem(e, g, v)
  {
    var b := Range(v.sector, v.sector + v.n);
    if v.Back? {
      BackGives(e, g, v.id, v.sector, v.n, b);
    } else {
      BackJoinGives(e, g, v.id, v.sector, v.n, v.next, b);
    }
  }

  lemma {:induction false} StepFront(e: Elv, g: map<nat, set<nat>>, v: Event)
    requires |e.hash| > 0 && Extents(e.reqs, g) && Enabled(e, v) && (v.Front? || v.FrontJoin?)
    ensures GivesThem(e, g, v)
  {
    var b := Range(v.sector, v.sector + v.n);
    if v.Front? {
      FrontGives(e, g, v.id, v.sector, v.n, b);
    } else {
      FrontJoinGives(e, g, v.id, v.sector, v.n, v.prev, b);
    }
  }

  lemma {:induction false} StepOther(e: Elv, g: map<nat, set<nat>>, v: Event)
    requires |e.hash| > 0 && Extents(e.reqs, g) && Enabled(e, v) && (v.Add? || v.Go? || v.Limit? || v.Lookup?)
    ensures GivesThem(e, g, v)
  {
    if v.Add? { AddGives(e, g, v.id, v.q); } else if v.Go? || v.Limit? { OthersGive(e, g, v.id); }
  }

  lemma {:induction false} StepGives(e: Elv, g: map<nat, set<nat>>, v: Event)
    requires |e.hash| > 0 && Extents(e.reqs, g) && Enabled(e, v)
    ensures GivesThem(e, g, v)
  {
    if v.Back? || v.BackJoin? {
      StepBack(e, g, v);
    } else if v.Front? || v.FrontJoin? {
      StepFront(e, g, v);
    } else {
      StepOther(e, g, v);
    }
  }

  lemma {:induction false} StepMarks(e: Elv, s: set<nat>, v: Event)
    requires |e.hash| > 0 && Marks(e.reqs, s) && Enabled(e, v)
    ensures Marks(Step(e, v).reqs, Limits(s, v)) && Step(e, v).lastMerge == Caches(e.lastMerge, v)
  {
  }

  lemma {:induction false} RunLast(e: Elv, vs: seq<Event>)
    requires Runs(e, vs) && vs != []
    ensures var n := |vs| - 1;
            Runs(e, vs[..n]) && Enabled(After(e, vs[..n]), vs[n]) && |After(e, vs[..n]).hash| > 0
            && After(e, vs) == Step(After(e, vs[..n]), vs[n])
    decreases |vs|
  {
    var n := |vs| - 1;
    if n == 0 {
      assert vs[1..] == [];
    } else {
      RunLast(Step(e, vs[0]), vs[1..]);
      assert vs[..n][1..] == vs[1..][..n - 1];
    }
  }

  /** In every run, the requests in the scheduler, their first and last sectors, which of
      them can be merged with and last_merge are what the events say. */
  lemma {:induction false} ExtentsExact(e: Elv, vs: seq<Event>)
    requires Initial(e) && Runs(e, vs)
    ensures var t := After(e, vs);
            Extents(t.reqs, Given(vs)) && Marks(t.reqs, Limited(vs)) && t.lastMerge == Cached(vs)
    decreases |vs|
  {
    if vs != [] {
      var n := |vs| - 1;
      RunLast(e, vs);
      ExtentsExact(e, vs[..n]);
      StepGives(After(e, vs[..n]), Given(vs[..n]), vs[n]);
      StepMarks(After(e, vs[..n]), Limited(vs[..n]), vs[n]);
    }
  }

  /** The last of these sectors is the one before `key`. */
  predicate EndAt(sectors: set<nat>, key: nat) {
    key > 0 && key - 1 in sectors && forall s :: s in sectors ==> s < key
  }

  /** The elevator holds data only. */
  predicate Sized(vs: seq<Event>) { forall i :: 0 <= i < |vs| && vs[i].Add? ==> vs[i].q.sectors > 0 }

  lemma {:induction false} SomeSectors(e: Elv, vs: seq<Event>, id: nat)
    requires Initial(e) && Runs(e, vs) && Sized(vs) && id in After(e, vs).reqs
    ensures After(e, vs).reqs[id].sectors > 0
    decreases |vs|
  {
    if vs != [] {
      var n := |vs| - 1;
      RunLast(e, vs);
      if id in After(e, vs[..n]).reqs { SomeSectors(e, vs[..n], id); }
    }
  }

  lemma {:induction false} RangeEnds(a: nat, b: nat, key: nat)
    requires a < b
    ensures EndAt(Range(a, b), key) <==> key == b
  {
    if EndAt(Range(a, b), key) { assert b - 1 in Range(a, b); }
  }

  /** What is found is a request with sectors that end right before the key, and that is not
      limited; and something is found if there is one. */
  predicate Finds(g: map<nat, set<nat>>, limited: set<nat>, key: nat, found: Maybe) {
    && (found.Some? ==> found.id in g && found.id !in limited && EndAt(g[found.id], key))
    && (found.None? ==> forall id :: id in g && id !in limited ==> !EndAt(g[id], key))
  }

  lemma {:induction false} FindsSame(reqs: map<nat, Rq>, g: map<nat, set<nat>>, limited: set<nat>, key: nat,
                                     found: Maybe)
    requires Extents(reqs, g) && Marks(reqs, limited) && forall id :: id in reqs ==> reqs[id].sectors > 0
    requires found.Some? ==> found.id in reqs && reqs[found.id].mergeable && Key(reqs[found.id]) == key
    requires found.None? ==> forall id :: id in reqs && reqs[id].mergeable ==> Key(reqs[id]) != key
    ensures Finds(g, limited, key, found)
  {
    forall id | id in reqs
      ensures EndAt(g[id], key) <==> Key(reqs[id]) == key
    {
      RangeEnds(reqs[id].pos, Key(reqs[id]), key);
    }
  }

  /** In every run, a lookup finds a request that can be merged with and whose sectors, as
      given by the bios and requests merged into it, end right before the key, if and only if
      there is one. */
  lemma {:induction false} FindsTrueEnd(e: Elv, vs: seq<Event>, key: nat)
    requires Initial(e) && Runs(e, vs) && Sized(vs)
    ensures |After(e, vs).hash| > 0 && Finds(Given(vs), Limited(vs), key, Find(After(e, vs), key).1)
  {
    var t := After(e, vs);
    RunOk(e, vs);
    FindAgrees(t, key);
    ExtentsExact(e, vs);
    forall id | id in t.reqs
      ensures t.reqs[id].sectors > 0
    {
      SomeSectors(e, vs, id);
    }
    FindsSame(t.reqs, Given(vs), Limited(vs), key, Find(t, key).1);
  }
}
