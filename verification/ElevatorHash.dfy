/**
 The elevator's merge hash and one-hit cache (block/elevator.c). Requests waiting in the
 scheduler are hashed by the sector after their last one, so that a bio starting there
 finds them. The hash function is arbitrary.
 */
module ElevatorHash {
  import opened Lists
  import opened SearchTree

  /** A sorted request; `mergeable` is rq_mergeable, which is lost and never regained. */
  datatype Rq = Rq(pos: nat, sectors: nat, mergeable: bool)

  /** The hash buckets, the sorted requests, last_merge and nr_sorted. */
  datatype Elv = Elv(fn: nat -> nat, hash: seq<seq<nat>>, reqs: map<nat, Rq>, lastMerge: Maybe, nrSorted: nat)

  /** rq_hash_key. */
  function Key(q: Rq): nat { q.pos + q.sectors }

  /** ELV_HASH_FN: eight sectors share a bucket. */
  function Bucket(fn: nat -> nat, n: nat, key: nat): nat
    requires n > 0
  {
    fn(key / 8) % n
  }

  // ----- the hash

  /** elv_rqhash_add. */
  function HashAdd(fn: nat -> nat, hash: seq<seq<nat>>, id: nat, key: nat): seq<seq<nat>>
    requires |hash| > 0
  {
    var b := Bucket(fn, |hash|, key);
    hash[b := [id] + hash[b]]
  }

  /** elv_rqhash_del: off whatever bucket it is in. */
  function HashDel(hash: seq<seq<nat>>, id: nat): (r: seq<seq<nat>>)
    ensures |r| == |hash| && forall b :: 0 <= b < |hash| ==> r[b] == Without(hash[b], id)
  {
    if hash == [] then [] else [Without(hash[0], id)] + HashDel(hash[1..], id)
  }

  /** The loop of elv_rqhash_find: unmergeable requests it meets are dropped from the
      bucket; the first mergeable one with the key is the result. */
  function Scan(reqs: map<nat, Rq>, list: seq<nat>, key: nat): (seq<nat>, Maybe) {
    if list == [] then ([], None)
    else
      var id := list[0];
      if id !in reqs || !reqs[id].mergeable then Scan(reqs, list[1..], key)
      else if Key(reqs[id]) == key then (list, Some(id))
      else
        var (rest, found) := Scan(reqs, list[1..], key);
        ([id] + rest, found)
  }

  /** elv_rqhash_find. */
  function Find(e: Elv, key: nat): (Elv, Maybe)
    requires |e.hash| > 0
  {
    var b := Bucket(e.fn, |e.hash|, key);
    var (list, found) := Scan(e.reqs, e.hash[b], key);
    (e.(hash := e.hash[b := list]), found)
  }

  // ----- the elevator

  function Forget(m: Maybe, id: nat): Maybe { if m == Some(id) then None else m }

  /** __elv_add_request, sorted insertion. */
  function Insert(e: Elv, id: nat, q: Rq): Elv
    requires |e.hash| > 0
  {
    var t := e.(reqs := e.reqs[id := q], nrSorted := e.nrSorted + 1);
    if q.mergeable
    then t.(hash := HashAdd(e.fn, e.hash, id, Key(q)), lastMerge := if e.lastMerge.None? then Some(id) else e.lastMerge)
    else t
  }

  /** elv_rqhash_reposition. */
  function Reposition(e: Elv, id: nat): Elv
    requires id in e.reqs && |e.hash| > 0
  {
    e.(hash := HashAdd(e.fn, HashDel(e.hash, id), id, Key(e.reqs[id])))
  }

  /** `n` sectors appended; the hash is not told yet. */
  function Grown(e: Elv, id: nat, n: nat): Elv
    requires id in e.reqs
  {
    e.(reqs := e.reqs[id := e.reqs[id].(sectors := e.reqs[id].sectors + n)])
  }

  /** A bio back merge, finished by elv_merged_request. */
  function BackMerge(e: Elv, id: nat, n: nat): Elv
    requires id in e.reqs && |e.hash| > 0
  {
    Reposition(Grown(e, id, n), id).(lastMerge := Some(id))
  }

  /** `n` sectors put in front. */
  function GrownFront(e: Elv, id: nat, n: nat): Elv
    requires id in e.reqs && n <= e.reqs[id].pos
  {
    e.(reqs := e.reqs[id := e.reqs[id].(pos := e.reqs[id].pos - n, sectors := e.reqs[id].sectors + n)])
  }

  /** A bio front merge, finished by elv_merged_request: the key does not change. */
  function FrontMerge(e: Elv, id: nat, n: nat): Elv
    requires id in e.reqs && n <= e.reqs[id].pos
  {
    GrownFront(e, id, n).(lastMerge := Some(id))
  }

  /** elv_merge_requests: `id` absorbs the sorted request `next`. */
  function MergeNext(e: Elv, id: nat, next: nat): Elv
    requires id in e.reqs && next in e.reqs && id != next && |e.hash| > 0
  {
    var t := Reposition(Grown(e, id, e.reqs[next].sectors), id);
    t.(reqs := t.reqs - {next}, hash := HashDel(t.hash, next),
       nrSorted := if e.nrSorted > 0 then e.nrSorted - 1 else 0, lastMerge := Some(id))
  }

  /** elv_dispatch_add_tail and elv_dispatch_sort. */
  function Dispatch(e: Elv, id: nat): Elv {
    e.(reqs := e.reqs - {id}, hash := HashDel(e.hash, id), lastMerge := Forget(e.lastMerge, id),
       nrSorted := if e.nrSorted > 0 then e.nrSorted - 1 else 0)
  }

  /** REQ_NOMERGE is set on a request that reached the queue's limits. */
  function NoMerge(e: Elv, id: nat): Elv
    requires id in e.reqs
  {
    e.(reqs := e.reqs[id := e.reqs[id].(mergeable := false)], lastMerge := Forget(e.lastMerge, id))
  }

  // ----- invariant

  /** Each bucket holds, once each, requests whose key belongs there; `but` may be in any
      bucket, at most once in each. */
  predicate BucketsOk(fn: nat -> nat, hash: seq<seq<nat>>, reqs: map<nat, Rq>, but: Maybe) {
    && |hash| > 0
    && (forall b :: 0 <= b < |hash| ==> Distinct(hash[b]))
    && (forall b, id :: 0 <= b < |hash| && id in hash[b] && but != Some(id) ==>
          id in reqs && Bucket(fn, |hash|, Key(reqs[id])) == b)
  }

  /** Every mergeable request is hashed. */
  predicate AllHashed(fn: nat -> nat, hash: seq<seq<nat>>, reqs: map<nat, Rq>, but: Maybe)
    requires |hash| > 0
  {
    forall id :: id in reqs && reqs[id].mergeable && but != Some(id) ==> id in hash[Bucket(fn, |hash|, Key(reqs[id]))]
  }

  predicate HashOk(e: Elv, but: Maybe) {
    BucketsOk(e.fn, e.hash, e.reqs, but) && AllHashed(e.fn, e.hash, e.reqs, but)
  }

  /** last_merge waits in the scheduler and is mergeable. */
  predicate CacheOk(e: Elv) {
    e.lastMerge.Some? ==> e.lastMerge.id in e.reqs && e.reqs[e.lastMerge.id].mergeable
  }

  predicate Valid(e: Elv) {
    HashOk(e, None) && CacheOk(e) && e.nrSorted == |e.reqs|
  }

  /** Valid but for the place of one request in the hash. */
  predicate ValidBut(e: Elv, id: nat) {
    && id in e.reqs && e.reqs[id].mergeable
    && HashOk(e, Some(id)) && CacheOk(e) && e.nrSorted == |e.reqs|
  }

  // ----- lookup

  lemma {:induction false} ScanFinds(reqs: map<nat, Rq>, list: seq<nat>, key: nat)
    ensures var (rest, found) := Scan(reqs, list, key);
            && (found.Some? ==>
                  found.id in list && found.id in reqs && reqs[found.id].mergeable && Key(reqs[found.id]) == key)
            && (found.None? ==> forall id :: id in list && id in reqs && reqs[id].mergeable ==> Key(reqs[id]) != key)
  {
    if list != [] { ScanFinds(reqs, list[1..], key); }
  }

  lemma {:induction false} ScanKeeps(reqs: map<nat, Rq>, list: seq<nat>, key: nat)
    requires Distinct(list)
    ensures var (rest, found) := Scan(reqs, list, key);
            && Distinct(rest) && (forall id :: id in rest ==> id in list)
            && (forall id :: id in list && id in reqs && reqs[id].mergeable ==> id in rest)
  {
    if list != [] {
      ScanKeeps(reqs, list[1..], key);
      var (rest, found) := Scan(reqs, list[1..], key);
      assert ([list[0]] + rest)[1..] == rest;
    }
  }

  /** The lookup agrees with a scan of all sorted requests: it finds a mergeable request
      that ends where the bio starts if and only if there is one. */
  lemma {:induction false} FindAgrees(e: Elv, key: nat)
    requires Valid(e)
    ensures var (t, found) := Find(e, key);
            && (found.Some? <==> exists id :: id in e.reqs && e.reqs[id].mergeable && Key(e.reqs[id]) == key)
            && (found.Some? ==> found.id in e.reqs && e.reqs[found.id].mergeable && Key(e.reqs[found.id]) == key)
  {
    ScanFinds(e.reqs, e.hash[Bucket(e.fn, |e.hash|, key)], key);
  }

  /** Dropping unmergeable requests on the way does no harm. */
  lemma {:induction false} FindOk(e: Elv, key: nat)
    requires Valid(e)
    ensures Valid(Find(e, key).0)
  {
    ScanKeeps(e.reqs, e.hash[Bucket(e.fn, |e.hash|, key)], key);
  }

  // ----- each operation

  lemma {:induction false} DelAbsent(hash: seq<seq<nat>>, id: nat, b: nat)
    requires b < |hash|
    ensures id !in HashDel(hash, id)[b]
    ensures forall x :: x in HashDel(hash, id)[b] <==> x in hash[b] && x != id
  {
    assert Elems(HashDel(hash, id)[b]) == Elems(hash[b]) - {id};
    assert forall x :: x in HashDel(hash, id)[b] <==> x in Elems(HashDel(hash, id)[b]);
  }

  lemma {:induction false} DelBuckets(e: Elv, id: nat, but: Maybe)
    requires BucketsOk(e.fn, e.hash, e.reqs, but)
    ensures BucketsOk(e.fn, HashDel(e.hash, id), e.reqs, but)
    ensures forall b, x :: 0 <= b < |e.hash| && x in HashDel(e.hash, id)[b] ==> x in e.hash[b] && x != id
    ensures forall b, x :: 0 <= b < |e.hash| && x in e.hash[b] && x != id ==> x in HashDel(e.hash, id)[b]
  {
    forall b | 0 <= b < |e.hash|
      ensures Distinct(HashDel(e.hash, id)[b])
    {
      WithoutDistinct(e.hash[b], id);
    }
    forall b, x | 0 <= b < |e.hash|
      ensures x in HashDel(e.hash, id)[b] <==> x in e.hash[b] && x != id
    {
      DelAbsent(e.hash, id, b);
    }
  }

  /** A request in no bucket is put where its key belongs. */
  lemma {:induction false} AddBuckets(e: Elv, id: nat)
    requires HashOk(e, Some(id)) && id in e.reqs
    requires forall b :: 0 <= b < |e.hash| ==> id !in e.hash[b]
    ensures var t := e.(hash := HashAdd(e.fn, e.hash, id, Key(e.reqs[id]))); HashOk(t, None)
  {
    var b := Bucket(e.fn, |e.hash|, Key(e.reqs[id]));
    Cons(e.hash[b], id);
  }

  lemma {:induction false} RepositionOk(e: Elv, id: nat)
    requires ValidBut(e, id)
    ensures Valid(Reposition(e, id))
  {
    DelBuckets(e, id, Some(id));
    AddBuckets(e.(hash := HashDel(e.hash, id)), id);
  }

  lemma {:induction false} GrownOk(e: Elv, id: nat, n: nat)
    requires ValidBut(e, id)
    ensures ValidBut(Grown(e, id, n), id)
  {
    assert Grown(e, id, n).reqs.Keys == e.reqs.Keys;
  }

  lemma {:induction false} ButOk(e: Elv, id: nat)
    requires Valid(e) && id in e.reqs && e.reqs[id].mergeable
    ensures ValidBut(e, id)
  {
  }

  /** A request that no bucket holds joins the sorted ones. */
  lemma {:induction false} JoinBuckets(e: Elv, id: nat, q: Rq)
    requires HashOk(e, None) && id !in e.reqs
    ensures var t := e.(reqs := e.reqs[id := q]);
            && HashOk(t, Some(id)) && |t.reqs| == |e.reqs| + 1
            && (forall b :: 0 <= b < |e.hash| ==> id !in e.hash[b])
            && (!q.mergeable ==> HashOk(t, None))
  {
    var t := e.(reqs := e.reqs[id := q]);
    assert t.reqs.Keys == e.reqs.Keys + {id};
    assert |t.reqs.Keys| == |e.reqs.Keys| + 1;
    assert forall b :: 0 <= b < |e.hash| ==> id !in e.hash[b];
  }

  lemma {:induction false} InsertOk(e: Elv, id: nat, q: Rq)
    requires Valid(e) && id !in e.reqs
    ensures Valid(Insert(e, id, q))
  {
    JoinBuckets(e, id, q);
    if q.mergeable { AddBuckets(e.(reqs := e.reqs[id := q]), id); }
  }

  lemma {:induction false} BackMergeOk(e: Elv, id: nat, n: nat)
    requires Valid(e) && id in e.reqs && e.reqs[id].mergeable
    ensures Valid(BackMerge(e, id, n))
  {
    ButOk(e, id);
    GrownOk(e, id, n);
    RepositionOk(Grown(e, id, n), id);
  }

  lemma {:induction false} GrownFrontOk(e: Elv, id: nat, n: nat)
    requires Valid(e) && id in e.reqs && n <= e.reqs[id].pos
    ensures Valid(GrownFront(e, id, n))
  {
    assert GrownFront(e, id, n).reqs.Keys == e.reqs.Keys;
    assert Key(GrownFront(e, id, n).reqs[id]) == Key(e.reqs[id]);
  }

  lemma {:induction false} LeaveLists(fn: nat -> nat, h: seq<seq<nat>>, reqs: map<nat, Rq>, id: nat)
    requires BucketsOk(fn, h, reqs, None) && forall b, x :: 0 <= b < |h| && x in h[b] ==> x != id
    ensures BucketsOk(fn, h, reqs - {id}, None)
  {
  }

  lemma {:induction false} LeaveHashed(fn: nat -> nat, hash: seq<seq<nat>>, h: seq<seq<nat>>, reqs: map<nat, Rq>,
                                       id: nat)
    requires |hash| > 0 && AllHashed(fn, hash, reqs, None)
    requires |h| == |hash| && forall b, x :: 0 <= b < |hash| && x in hash[b] && x != id ==> x in h[b]
    ensures AllHashed(fn, h, reqs - {id}, None)
  {
  }

  lemma {:induction false} LeaveBuckets(e: Elv, id: nat)
    requires HashOk(e, None)
    ensures var t := e.(reqs := e.reqs - {id}, hash := HashDel(e.hash, id)); HashOk(t, None)
  {
    DelBuckets(e, id, None);
    LeaveLists(e.fn, HashDel(e.hash, id), e.reqs, id);
    LeaveHashed(e.fn, e.hash, HashDel(e.hash, id), e.reqs, id);
  }

  /** A request leaves the scheduler. */
  lemma {:induction false} LeaveOk(e: Elv, id: nat, last: Maybe)
    requires Valid(e) && id in e.reqs && last != Some(id)
    requires last.Some? ==> last.id in e.reqs && e.reqs[last.id].mergeable
    ensures Valid(e.(reqs := e.reqs - {id}, hash := HashDel(e.hash, id), nrSorted := e.nrSorted - 1, lastMerge := last))
  {
    LeaveBuckets(e, id);
    Fewer(e.reqs, id);
  }

  lemma {:induction false} MergeNextOk(e: Elv, id: nat, next: nat)
    requires ValidBut(e, id) && next in e.reqs && next != id
    ensures Valid(MergeNext(e, id, next))
  {
    GrownOk(e, id, e.reqs[next].sectors);
    RepositionOk(Grown(e, id, e.reqs[next].sectors), id);
    Fewer(e.reqs, next);
    LeaveOk(Reposition(Grown(e, id, e.reqs[next].sectors), id), next, Some(id));
  }

  lemma {:induction false} DispatchOk(e: Elv, id: nat)
    requires Valid(e) && id in e.reqs
    ensures Valid(Dispatch(e, id))
  {
    Fewer(e.reqs, id);
    LeaveOk(e, id, Forget(e.lastMerge, id));
  }

  lemma {:induction false} NoMergeHash(e: Elv, id: nat)
    requires HashOk(e, None) && id in e.reqs
    ensures HashOk(NoMerge(e, id), None) && |NoMerge(e, id).reqs| == |e.reqs|
  {
    var reqs := e.reqs[id := e.reqs[id].(mergeable := false)];
    assert reqs.Keys == e.reqs.Keys;
    assert forall x :: x in e.reqs ==> Key(reqs[x]) == Key(e.reqs[x]);
  }

  lemma {:induction false} NoMergeOk(e: Elv, id: nat)
    requires Valid(e) && id in e.reqs
    ensures Valid(NoMerge(e, id))
  {
    NoMergeHash(e, id);
  }

  // ----- runs

  /** What happens to the sorted requests. A bio of `n` sectors from `sector` is merged if it
      begins where the request ends, or ends where it begins; the merge may be followed at
      once by one with the neighbour the request now touches. */
  datatype Event =
    | Add(id: nat, q: Rq)
    | Back(id: nat, sector: nat, n: nat)
    | BackJoin(id: nat, sector: nat, n: nat, next: nat)
    | Front(id: nat, sector: nat, n: nat)
    | FrontJoin(id: nat, sector: nat, n: nat, prev: nat)
    | Go(id: nat)
    | Limit(id: nat)
    | Lookup(key: nat)

  predicate CanMerge(e: Elv, id: nat) { id in e.reqs && e.reqs[id].mergeable }

  predicate Enabled(e: Elv, v: Event) {
    match v
    case Add(id, q) => id !in e.reqs
    case Back(id, sector, n) => CanMerge(e, id) && Key(e.reqs[id]) == sector
    case BackJoin(id, sector, n, next) =>
      && CanMerge(e, id) && Key(e.reqs[id]) == sector
      && CanMerge(e, next) && id != next && sector + n == e.reqs[next].pos
    case Front(id, sector, n) => CanMerge(e, id) && sector + n == e.reqs[id].pos
    case FrontJoin(id, sector, n, prev) =>
      && CanMerge(e, id) && sector + n == e.reqs[id].pos
      && CanMerge(e, prev) && id != prev && Key(e.reqs[prev]) == sector
    case Go(id) => id in e.reqs
    case Limit(id) => id in e.reqs
    case Lookup(key) => true
  }

  function Step(e: Elv, v: Event): Elv
    requires |e.hash| > 0 && Enabled(e, v)
  {
    match v
    case Add(id, q) => Insert(e, id, q)
    case Back(id, sector, n) => BackMerge(e, id, n)
    case BackJoin(id, sector, n, next) => MergeNext(Grown(e, id, n), id, next)
    case Front(id, sector, n) => FrontMerge(e, id, n)
    case FrontJoin(id, sector, n, prev) => MergeNext(GrownFront(e, id, n), prev, id)
    case Go(id) => Dispatch(e, id)
    case Limit(id) => NoMerge(e, id)
    case Lookup(key) => Find(e, key).0
  }

  lemma {:induction false} BackJoinOk(e: Elv, id: nat, n: nat, next: nat)
    requires Valid(e) && CanMerge(e, id) && CanMerge(e, next) && id != next
    ensures Valid(MergeNext(Grown(e, id, n), id, next))
  {
    ButOk(e, id);
    GrownOk(e, id, n);
    MergeNextOk(Grown(e, id, n), id, next);
  }

  lemma {:induction false} FrontJoinOk(e: Elv, id: nat, n: nat, prev: nat)
    requires Valid(e) && CanMerge(e, id) && n <= e.reqs[id].pos && CanMerge(e, prev) && id != prev
    ensures Valid(MergeNext(GrownFront(e, id, n), prev, id))
  {
    GrownFrontOk(e, id, n);
    ButOk(GrownFront(e, id, n), prev);
    MergeNextOk(GrownFront(e, id, n), prev, id);
  }

  lemma {:induction false} StepOk(e: Elv, v: Event)
    requires Valid(e) && Enabled(e, v)
    ensures Valid(Step(e, v))
  {
    match v
    case Add(id, q) => InsertOk(e, id, q);
    case Back(id, sector, n) => BackMergeOk(e, id, n);
    case BackJoin(id, sector, n, next) => BackJoinOk(e, id, n, next);
    case Front(id, sector, n) => GrownFrontOk(e, id, n);
    case FrontJoin(id, sector, n, prev) => FrontJoinOk(e, id, n, prev);
    case Go(id) => DispatchOk(e, id);
    case Limit(id) => NoMergeOk(e, id);
    case Lookup(key) => FindOk(e, key);
  }

  predicate Runs(e: Elv, vs: seq<Event>)
    decreases |vs|
  {
    |e.hash| > 0 && (vs == [] || (Enabled(e, vs[0]) && Runs(Step(e, vs[0]), vs[1..])))
  }

  function After(e: Elv, vs: seq<Event>): Elv
    requires Runs(e, vs)
    decreases |vs|
  {
    if vs == [] then e else After(Step(e, vs[0]), vs[1..])
  }

  predicate Initial(e: Elv) {
    && |e.hash| > 0 && (forall b :: 0 <= b < |e.hash| ==> e.hash[b] == [])
    && e.reqs == map[] && e.lastMerge.None? && e.nrSorted == 0
  }

  lemma {:induction false} RunOk(e: Elv, vs: seq<Event>)
    requires Valid(e) && Runs(e, vs)
    ensures Valid(After(e, vs))
    decreases |vs|
  {
    if vs != [] {
      StepOk(e, vs[0]);
      RunOk(Step(e, vs[0]), vs[1..]);
    }
  }

  /** After any history of insertions, merges and dispatches, a lookup agrees with a scan
      of the requests in the scheduler, and last_merge is one of them. */
  lemma {:induction false} HashAgrees(e: Elv, vs: seq<Event>, key: nat)
    requires Initial(e) && Runs(e, vs)
    ensures var t := After(e, vs);
            && |t.hash| > 0
            && (Find(t, key).1.Some? <==> exists id :: id in t.reqs && t.reqs[id].mergeable && Key(t.reqs[id]) == key)
            && (Find(t, key).1.Some? ==> Find(t, key).1.id in t.reqs && Key(t.reqs[Find(t, key).1.id]) == key)
            && (t.lastMerge.Some? ==> t.lastMerge.id in t.reqs && t.reqs[t.lastMerge.id].mergeable)
  {
    RunOk(e, vs);
    FindAgrees(After(e, vs), key);
  }
}
