/**
 Of several requests that end at the same sector, a lookup finds the one that was last
 added or last grew at its end: buckets keep the order in which requests were hashed.
 */
module ElevatorLatest {
  import opened Lists
  import opened SearchTree
  import opened ElevatorHash
  import opened ElevatorExtents

  /** Does the event hash the request, at its new end? */
  predicate Hashes(v: Event, id: nat) {
    match v
    case Add(x, q) => x == id && q.mergeable
    case Back(x, sector, n) => x == id
    case BackJoin(x, sector, n, next) => x == id
    case FrontJoin(x, sector, n, prev) => prev == id
    case _ => false
  }

  /** The number of the last event that did. */
  function Stamp(vs: seq<Event>, id: nat): (n: nat)
    ensures n <= |vs|
    decreases |vs|
  {
    if vs == [] then 0 else if Hashes(vs[|vs| - 1], id) then |vs| else Stamp(vs[..|vs| - 1], id)
  }

  /** Later ones first. */
  predicate Latest(list: seq<nat>, vs: seq<Event>) {
    list == [] || ((forall x :: x in list[1..] ==> Stamp(vs, x) < Stamp(vs, list[0])) && Latest(list[1..], vs))
  }

  predicate AllLatest(hash: seq<seq<nat>>, vs: seq<Event>) {
    forall b :: 0 <= b < |hash| ==> Latest(hash[b], vs)
  }

  lemma {:induction false} LatestWithout(list: seq<nat>, id: nat, vs: seq<Event>)
    requires Latest(list, vs)
    ensures Latest(Without(list, id), vs)
  {
    if list != [] {
      LatestWithout(list[1..], id, vs);
      var r := Without(list[1..], id);
      if list[0] != id {
        assert ([list[0]] + r)[1..] == r;
        forall x | x in r
          ensures x in list[1..]
        {
          assert x in Elems(r);
        }
      }
    }
  }

  lemma {:induction false} ScanIn(reqs: map<nat, Rq>, list: seq<nat>, key: nat)
    ensures forall x :: x in Scan(reqs, list, key).0 ==> x in list
  {
    if list != [] { ScanIn(reqs, list[1..], key); }
  }

  lemma {:induction false} LatestScan(reqs: map<nat, Rq>, list: seq<nat>, key: nat, vs: seq<Event>)
    requires Latest(list, vs)
    ensures Latest(Scan(reqs, list, key).0, vs)
  {
    if list != [] {
      LatestScan(reqs, list[1..], key, vs);
      ScanIn(reqs, list[1..], key);
      var r := Scan(reqs, list[1..], key).0;
      assert ([list[0]] + r)[1..] == r;
    }
  }

  /** One more event. */
  predicate Extends(vs: seq<Event>, v: Event, more: seq<Event>) { more == vs + [v] }

  lemma {:induction false} StampLonger(vs: seq<Event>, v: Event, more: seq<Event>, x: nat)
    requires Extends(vs, v, more)
    ensures Stamp(more, x) == if Hashes(v, x) then |more| else Stamp(vs, x)
  {
    assert more[..|more| - 1] == vs;
  }

  /** An event that hashes none of them changes nothing. */
  lemma {:induction false} LatestLonger(list: seq<nat>, vs: seq<Event>, v: Event, more: seq<Event>)
    requires Latest(list, vs) && Extends(vs, v, more) && forall x :: x in list ==> !Hashes(v, x)
    ensures Latest(list, more)
  {
    if list != [] {
      LatestLonger(list[1..], vs, v, more);
      forall x | x in list
        ensures Stamp(more, x) == Stamp(vs, x)
      {
        StampLonger(vs, v, more, x);
      }
    }
  }

  lemma {:induction false} LatestFirst(list: seq<nat>, id: nat, vs: seq<Event>, v: Event, more: seq<Event>)
    requires Latest(list, more) && Extends(vs, v, more) && Hashes(v, id) && forall x :: x in list ==> !Hashes(v, x)
    ensures Latest([id] + list, more)
  {
    assert ([id] + list)[1..] == list;
    StampLonger(vs, v, more, id);
    forall x | x in list
      ensures Stamp(more, x) < |more|
    {
      StampLonger(vs, v, more, x);
    }
  }

  // ----- each event

  lemma {:induction false} DelLatest(hash: seq<seq<nat>>, id: nat, vs: seq<Event>)
    requires AllLatest(hash, vs)
    ensures AllLatest(HashDel(hash, id), vs)
  {
    forall b | 0 <= b < |hash|
      ensures Latest(HashDel(hash, id)[b], vs)
    {
      LatestWithout(hash[b], id, vs);
    }
  }

  lemma {:induction false} LongerLatest(hash: seq<seq<nat>>, vs: seq<Event>, v: Event, more: seq<Event>)
    requires AllLatest(hash, vs) && Extends(vs, v, more)
    requires forall b, x :: 0 <= b < |hash| && x in hash[b] ==> !Hashes(v, x)
    ensures AllLatest(hash, more)
  {
    forall b | 0 <= b < |hash|
      ensures Latest(hash[b], more)
    {
      LatestLonger(hash[b], vs, v, more);
    }
  }

  lemma {:induction false} AddLatest(fn: nat -> nat, hash: seq<seq<nat>>, id: nat, key: nat, vs: seq<Event>,
                                     v: Event, more: seq<Event>)
    requires |hash| > 0 && AllLatest(hash, more) && Extends(vs, v, more) && Hashes(v, id)
    requires forall b, x :: 0 <= b < |hash| && x in hash[b] ==> !Hashes(v, x)
    ensures AllLatest(HashAdd(fn, hash, id, key), more)
  {
    LatestFirst(hash[Bucket(fn, |hash|, key)], id, vs, v, more);
  }

  /** A request is taken off its bucket and put first in that of its new key. */
  lemma {:induction false} MovedLatest(fn: nat -> nat, hash: seq<seq<nat>>, id: nat, key: nat, vs: seq<Event>,
                                       v: Event, more: seq<Event>)
    requires |hash| > 0 && AllLatest(hash, vs) && Extends(vs, v, more) && forall x :: Hashes(v, x) <==> x == id
    ensures AllLatest(HashAdd(fn, HashDel(hash, id), id, key), more)
  {
    var h := HashDel(hash, id);
    DelLatest(hash, id, vs);
    forall b, x | 0 <= b < |h| && x in h[b]
      ensures !Hashes(v, x)
    {
      DelAbsent(hash, id, b);
    }
    LongerLatest(h, vs, v, more);
    AddLatest(fn, h, id, key, vs, v, more);
  }

  lemma {:induction false} AddedLatest(e: Elv, id: nat, q: Rq, vs: seq<Event>, more: seq<Event>)
    requires Valid(e) && id !in e.reqs && AllLatest(e.hash, vs) && Extends(vs, Add(id, q), more)
    ensures AllLatest(ElevatorHash.Insert(e, id, q).hash, more)
  {
    JoinBuckets(e, id, q);
    LongerLatest(e.hash, vs, Add(id, q), more);
    if q.mergeable { AddLatest(e.fn, e.hash, id, Key(q), vs, Add(id, q), more); }
  }

  lemma {:induction false} MergedLatest(e: Elv, id: nat, next: nat, vs: seq<Event>, v: Event, more: seq<Event>)
    requires |e.hash| > 0 && id in e.reqs && next in e.reqs && id != next && AllLatest(e.hash, vs)
    requires Extends(vs, v, more) && forall x :: Hashes(v, x) <==> x == id
    ensures AllLatest(MergeNext(e, id, next).hash, more)
  {
    var g := Grown(e, id, e.reqs[next].sectors);
    MovedLatest(e.fn, e.hash, id, Key(g.reqs[id]), vs, v, more);
    DelLatest(HashAdd(e.fn, HashDel(e.hash, id), id, Key(g.reqs[id])), next, more);
  }

  lemma {:induction false} FoundLatest(e: Elv, key: nat, vs: seq<Event>)
    requires |e.hash| > 0 && AllLatest(e.hash, vs)
    ensures AllLatest(Find(e, key).0.hash, vs)
  {
    LatestScan(e.reqs, e.hash[Bucket(e.fn, |e.hash|, key)], key, vs);
  }

  lemma {:induction false} StepLatest(e: Elv, v: Event, vs: seq<Event>, more: seq<Event>)
    requires Valid(e) && Enabled(e, v) && AllLatest(e.hash, vs) && Extends(vs, v, more)
    ensures AllLatest(Step(e, v).hash, more)
  {
    match v
    case Add(id, q) => AddedLatest(e, id, q, vs, more);
    case Back(id, sector, n) => MovedLatest(e.fn, e.hash, id, Key(Grown(e, id, n).reqs[id]), vs, v, more);
    case BackJoin(id, sector, n, next) => MergedLatest(Grown(e, id, n), id, next, vs, v, more);
    case Front(id, sector, n) => LongerLatest(e.hash, vs, v, more);
    case FrontJoin(id, sector, n, prev) => MergedLatest(GrownFront(e, id, n), prev, id, vs, v, more);
    case Go(id) =>
      DelLatest(e.hash, id, vs);
      LongerLatest(HashDel(e.hash, id), vs, v, more);
    case Limit(id) => LongerLatest(e.hash, vs, v, more);
    case Lookup(key) =>
      FoundLatest(e, key, vs);
      LongerLatest(Find(e, key).0.hash, vs, v, more);
  }

  lemma {:induction false} RunLatest(e: Elv, vs: seq<Event>)
    requires Initial(e) && Runs(e, vs)
    ensures AllLatest(After(e, vs).hash, vs)
    decreases |vs|
  {
    if vs != [] {
      var n := |vs| - 1;
      RunLast(e, vs);
      RunLatest(e, vs[..n]);
      RunOk(e, vs[..n]);
      assert vs == vs[..n] + [vs[n]];
      StepLatest(After(e, vs[..n]), vs[n], vs[..n], vs);
    }
  }

  // ----- lookups

  lemma {:induction false} ScanLatest(reqs: map<nat, Rq>, list: seq<nat>, key: nat, vs: seq<Event>, x: nat, y: nat)
    requires Latest(list, vs) && Scan(reqs, list, key).1 == Some(x)
    requires y in list && y in reqs && reqs[y].mergeable && Key(reqs[y]) == key
    ensures Stamp(vs, y) <= Stamp(vs, x)
  {
    if list[0] != y && x != list[0] { ScanLatest(reqs, list[1..], key, vs, x, y); }
  }

  /** In every run, what a lookup finds was hashed no earlier than any other request that it
      could have found. */
  lemma {:induction false} FindsLatest(e: Elv, vs: seq<Event>, key: nat, id: nat)
    requires Initial(e) && Runs(e, vs) && Sized(vs) && id in Given(vs) && id !in Limited(vs)
    requires EndAt(Given(vs)[id], key)
    ensures |After(e, vs).hash| > 0 && Find(After(e, vs), key).1.Some?
    ensures Stamp(vs, id) <= Stamp(vs, Find(After(e, vs), key).1.id)
  {
    var t := After(e, vs);
    FindsTrueEnd(e, vs, key);
    ExtentsExact(e, vs);
    SomeSectors(e, vs, id);
    RangeEnds(t.reqs[id].pos, Key(t.reqs[id]), key);
    RunOk(e, vs);
    RunLatest(e, vs);
    ScanLatest(t.reqs, t.hash[Bucket(t.fn, |t.hash|, key)], key, vs, Find(t, key).1.id, id);
  }
}
