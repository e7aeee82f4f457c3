/**
 The merge hash as the kernel has it: an array of bucket lists and the elevator's fields,
 updated in place. Each method is proved to do what ElevatorHash says.
 */
module Elevator {
  import opened Lists
  import opened SearchTree
  import opened ElevatorHash

  class ElevatorQueue {
    const fn: nat -> nat
    const hash: array<seq<nat>>
    var reqs: map<nat, Rq>
    var lastMerge: Maybe
    var nrSorted: nat

    ghost function View(): Elv
      reads this, hash
    {
      Elv(fn, hash[..], reqs, lastMerge, nrSorted)
    }

    constructor (fn: nat -> nat, entries: nat)
      requires entries > 0
      ensures Valid(View()) && fresh(hash) && hash.Length == entries && reqs == map[]
    {
      this.fn := fn;
      hash := new seq<nat>[entries](i => []);
      reqs, lastMerge, nrSorted := map[], None, 0;
    }

    /** elv_rqhash_add. */
    method RqhashAdd(id: nat)
      requires hash.Length > 0 && id in reqs
      modifies hash
      ensures View() == old(View()).(hash := HashAdd(fn, old(hash[..]), id, Key(reqs[id])))
    {
      var b := Bucket(fn, hash.Length, Key(reqs[id]));
      hash[b] := [id] + hash[b];
    }

    /** elv_rqhash_del. */
    method RqhashDel(id: nat)
      modifies hash
      ensures View() == old(View()).(hash := HashDel(old(hash[..]), id))
    {
      forall b | 0 <= b < hash.Length {
        hash[b] := Without(hash[b], id);
      }
    }

    /** elv_rqhash_reposition. */
    method RqhashReposition(id: nat)
      requires hash.Length > 0 && id in reqs
      modifies hash
      ensures View() == Reposition(old(View()), id)
    {
      RqhashDel(id);
      RqhashAdd(id);
    }

    /** The loop of elv_rqhash_find over a bucket: requests that cannot be merged any more
        are taken off it, up to the one that is found. */
    method ScanBucket(list: seq<nat>, key: nat) returns (left: seq<nat>, found: Maybe)
      ensures (left, found) == Scan(reqs, list, key)
    {
      var kept, rest := [], list;
      AllScanned(list, key);
      while rest != []
        invariant Scanned(list, kept, rest, key)
        decreases |rest|
      {
        var id := rest[0];
        ScanNext(list, kept, rest, key);
        if id !in reqs || !reqs[id].mergeable {
          rest := rest[1..];
        } else if Key(reqs[id]) == key {
          return kept + rest, Some(id);
        } else {
          kept, rest := kept + [id], rest[1..];
        }
      }
      assert kept + [] == kept;
      return kept, None;
    }

    /** `kept` of the requests before `rest` stay, and none of them is found. */
    ghost predicate Scanned(list: seq<nat>, kept: seq<nat>, rest: seq<nat>, key: nat)
      reads this
    {
      Scan(reqs, list, key).0 == kept + Scan(reqs, rest, key).0 && Scan(reqs, list, key).1 == Scan(reqs, rest, key).1
    }

    lemma {:induction false} AllScanned(list: seq<nat>, key: nat)
      ensures Scanned(list, [], list, key)
    {
      assert [] + Scan(reqs, list, key).0 == Scan(reqs, list, key).0;
    }

    lemma {:induction false} ScanNext(list: seq<nat>, kept: seq<nat>, rest: seq<nat>, key: nat)
      requires Scanned(list, kept, rest, key) && rest != []
      ensures var id := rest[0];
              if id !in reqs || !reqs[id].mergeable then Scanned(list, kept, rest[1..], key)
              else if Key(reqs[id]) == key then Scan(reqs, list, key) == (kept + rest, Some(id))
              else Scanned(list, kept + [id], rest[1..], key)
    {
      var s := Scan(reqs, rest[1..], key).0;
      assert kept + ([rest[0]] + s) == (kept + [rest[0]]) + s;
    }

    /** elv_rqhash_find. */
    method RqhashFind(key: nat) returns (found: Maybe)
      requires hash.Length > 0
      modifies hash
      ensures (View(), found) == Find(old(View()), key)
    {
      var b := Bucket(fn, hash.Length, key);
      var left;
      left, found := ScanBucket(hash[b], key);
      hash[b] := left;
    }

    /** __elv_add_request, sorted insertion. */
    method AddRequest(id: nat, q: Rq)
      requires hash.Length > 0
      modifies this, hash
      ensures View() == ElevatorHash.Insert(old(View()), id, q)
    {
      reqs := reqs[id := q];
      nrSorted := nrSorted + 1;
      if q.mergeable {
        RqhashAdd(id);
        if lastMerge.None? {
          lastMerge := Some(id);
        }
      }
    }

    /** The request grows at its end, and moves to the bucket of its new key. */
    method Grow(id: nat, n: nat)
      requires hash.Length > 0 && id in reqs
      modifies `reqs, hash
      ensures View() == Reposition(Grown(old(View()), id, n), id)
    {
      reqs := reqs[id := reqs[id].(sectors := reqs[id].sectors + n)];
      RqhashReposition(id);
    }

    /** elv_merged_request after a back merge of `n` sectors. */
    method MergedBack(id: nat, n: nat)
      requires hash.Length > 0 && id in reqs
      modifies this, hash
      ensures View() == BackMerge(old(View()), id, n)
    {
      Grow(id, n);
      lastMerge := Some(id);
    }

    /** elv_merge_requests. */
    method MergeRequests(id: nat, next: nat)
      requires hash.Length > 0 && id in reqs && next in reqs && id != next && nrSorted > 0
      modifies this, hash
      ensures View() == MergeNext(old(View()), id, next)
    {
      Grow(id, reqs[next].sectors);
      RqhashDel(next);
      reqs := reqs - {next};
      nrSorted := nrSorted - 1;
      lastMerge := Some(id);
    }

    /** elv_dispatch_add_tail. */
    method DispatchAddTail(id: nat)
      requires nrSorted > 0
      modifies this, hash
      ensures View() == Dispatch(old(View()), id)
    {
      if lastMerge == Some(id) {
        lastMerge := None;
      }
      RqhashDel(id);
      nrSorted := nrSorted - 1;
      reqs := reqs - {id};
    }
  }
}
