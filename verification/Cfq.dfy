/**
 CFQ's choice of the next request (block/cfq-iosched.c): cfq_choose_req prefers requests
 close to the head, and cfq_find_next_rq applies it to the neighbours of the last request
 in sort order.
 */
module Cfq {
  import opened Numbers

  datatype Rq = Rq(id: nat, sync: bool, prio: bool, pos: nat)

  datatype Candidate = Null | Req(rq: Rq)

  /** cfq_back_max in KiB, and cfq_back_penalty. */
  datatype Tunables = Tunables(backMax: nat, backPenalty: nat)

  /** Behind the head by more than a backward seek may go. */
  predicate Wraps(t: Tunables, s: nat, last: nat) { s < last && s + t.backMax * 2 < last }

  function Distance(t: Tunables, s: nat, last: nat): nat {
    if s >= last then s - last else if Wraps(t, s, last) then 0 else (last - s) * t.backPenalty
  }

  /** cfq_choose_req. */
  function Choose(t: Tunables, a: Candidate, b: Candidate, last: nat): Candidate {
    if a.Null? || a == b then b
    else if b.Null? then a
    else if a.rq.sync != b.rq.sync then (if a.rq.sync then a else b)
    else if a.rq.prio != b.rq.prio then (if a.rq.prio then a else b)
    else
      var s1, s2 := a.rq.pos, b.rq.pos;
      var w1, w2 := Wraps(t, s1, last), Wraps(t, s2, last);
      var d1, d2 := Distance(t, s1, last), Distance(t, s2, last);
      if !w1 && !w2 then (if d1 < d2 then a else if d2 < d1 then b else if s1 >= s2 then a else b)
      else if w2 && !w1 then a
      else if w1 && !w2 then b
      else if s1 <= s2 then a else b
  }

  /** The relation the choice induces: `a` is chosen over `b`, in one order or the other. */
  predicate AtLeast(t: Tunables, a: Rq, b: Rq, last: nat) {
    Choose(t, Req(a), Req(b), last) == Req(a) || Choose(t, Req(b), Req(a), last) == Req(a)
  }

  /** It is a total preorder, and the choice is one of the better of the two. */
  lemma {:induction false} Total(t: Tunables, a: Rq, b: Rq, last: nat)
    ensures AtLeast(t, a, a, last) && (AtLeast(t, a, b, last) || AtLeast(t, b, a, last))
    ensures var c := Choose(t, Req(a), Req(b), last);
            c.Req? && (c.rq == a || c.rq == b) && AtLeast(t, c.rq, a, last) && AtLeast(t, c.rq, b, last)
  {
  }

  lemma {:induction false} Transitive(t: Tunables, a: Rq, b: Rq, c: Rq, last: nat)
    requires AtLeast(t, a, b, last) && AtLeast(t, b, c, last)
    ensures AtLeast(t, a, c, last)
  {
  }

  // ----- the queue

  predicate Sorted(q: seq<Rq>) { forall i, j :: 0 <= i < j < |q| ==> q[i].pos <= q[j].pos }

  /** cfq_find_next_rq: the successor of the request at `i`, or the first request; and its
      predecessor. */
  function FindNext(t: Tunables, q: seq<Rq>, i: nat): Candidate
    requires i < |q|
  {
    var next := if i + 1 < |q| then Req(q[i + 1]) else if i > 0 then Req(q[0]) else Null;
    var prev := if i > 0 then Req(q[i - 1]) else Null;
    Choose(t, next, prev, q[i].pos)
  }

  predicate SameClass(a: Rq, b: Rq) { a.sync == b.sync && a.prio == b.prio }

  /** In front of the head, nearer is better. */
  lemma {:induction false} Ahead(t: Tunables, a: Rq, b: Rq, last: nat)
    requires SameClass(a, b) && last <= a.pos <= b.pos
    ensures AtLeast(t, a, b, last) && (AtLeast(t, b, a, last) ==> a.pos == b.pos)
  {
  }

  /** Behind the head and within reach, nearer is better. */
  lemma {:induction false} Behind(t: Tunables, a: Rq, b: Rq, last: nat)
    requires SameClass(a, b) && b.pos <= a.pos <= last <= a.pos + 2 * t.backMax
    ensures AtLeast(t, a, b, last) && (AtLeast(t, b, a, last) ==> a.pos == b.pos)
  {
    MulMono(t.backPenalty, last - a.pos, last - b.pos);
  }

  /** Ahead is better than behind unless it is further away than the penalty makes up for. */
  lemma {:induction false} BackPenalty(t: Tunables, a: Rq, b: Rq, last: nat)
    requires SameClass(a, b) && b.pos < last <= a.pos && last <= b.pos + 2 * t.backMax
    ensures AtLeast(t, a, b, last) <==> a.pos - last <= t.backPenalty * (last - b.pos)
    ensures AtLeast(t, b, a, last) <==> a.pos - last > t.backPenalty * (last - b.pos)
  {
    assert (last - b.pos) * t.backPenalty == t.backPenalty * (last - b.pos);
  }

  /** Beyond reach, further behind is better. */
  lemma {:induction false} Beyond(t: Tunables, a: Rq, b: Rq, last: nat)
    requires SameClass(a, b) && a.pos <= b.pos && b.pos + 2 * t.backMax < last
    ensures AtLeast(t, a, b, last) && (AtLeast(t, b, a, last) ==> a.pos == b.pos)
  {
  }

  /** Anything within reach is better than what is beyond. */
  lemma {:induction false} Reachable(t: Tunables, a: Rq, b: Rq, last: nat)
    requires SameClass(a, b) && last <= a.pos + 2 * t.backMax && b.pos + 2 * t.backMax < last
    ensures AtLeast(t, a, b, last) && !AtLeast(t, b, a, last)
  {
  }

  // ----- when the neighbours are enough

  /** The classes in the order cfq_choose_req prefers them. */
  function Rank(r: Rq): nat { (if r.sync then 2 else 0) + (if r.prio then 1 else 0) }

  lemma {:induction false} RankIs(a: Rq, b: Rq)
    ensures Rank(a) == Rank(b) <==> SameClass(a, b)
  {
  }

  /** A higher class is always better, whatever the positions. */
  lemma {:induction false} RankFirst(t: Tunables, a: Rq, b: Rq, last: nat)
    requires Rank(a) > Rank(b)
    ensures AtLeast(t, a, b, last) && !AtLeast(t, b, a, last)
  {
  }

  /** Request `k` is of the best class there is besides `i`. */
  predicate Top(q: seq<Rq>, i: nat, k: nat) {
    k < |q| && k != i && forall m :: 0 <= m < |q| && m != i ==> Rank(q[m]) <= Rank(q[k])
  }

  /** The successor that is looked at: the first request, after the last. */
  function After(q: seq<Rq>, i: nat): nat { if i + 1 < |q| then i + 1 else 0 }

  /** Request `k` is looked at. */
  predicate Looked(q: seq<Rq>, i: nat, k: nat) {
    k < |q| && k != i && (k == After(q, i) || k + 1 == i)
  }

  /** The classes let the neighbours decide: all of the best class are looked at; or all
      that are looked at are of the best class; or the best class is all after `i`, the
      successor included. */
  predicate Decided(q: seq<Rq>, i: nat) {
    || (forall k :: 0 <= k < |q| && Top(q, i, k) ==> Looked(q, i, k))
    || (forall k :: 0 <= k < |q| && Looked(q, i, k) ==> Top(q, i, k))
    || (Top(q, i, i + 1) && forall k :: 0 <= k < |q| && Top(q, i, k) ==> k > i)
  }

  /** What is found is at least as good as every other request. */
  predicate FindsBest(t: Tunables, q: seq<Rq>, i: nat)
    requires i < |q|
  {
    forall k :: 0 <= k < |q| && k != i ==>
      FindNext(t, q, i).Req? && AtLeast(t, FindNext(t, q, i).rq, q[k], q[i].pos)
  }

  /** It is the better of the one or two that are looked at. */
  lemma {:induction false} FindsLooked(t: Tunables, q: seq<Rq>, i: nat) returns (c: nat)
    requires i < |q| && |q| > 1
    ensures Looked(q, i, c) && FindNext(t, q, i) == Req(q[c])
    ensures forall k: nat :: Looked(q, i, k) ==> AtLeast(t, q[c], q[k], q[i].pos)
  {
    var next, last := After(q, i), q[i].pos;
    if i == 0 {
      c := next;
      Total(t, q[next], q[next], last);
    } else {
      Total(t, q[next], q[i - 1], last);
      c := if FindNext(t, q, i) == Req(q[next]) then next else i - 1;
    }
  }

  /** Some request is of the best class among the first `n` and request `s`. */
  lemma {:induction false} SomeTop(q: seq<Rq>, i: nat, s: nat, n: nat) returns (k: nat)
    requires s < |q| && s != i && n <= |q|
    ensures k < |q| && k != i && Rank(q[s]) <= Rank(q[k])
    ensures forall m :: 0 <= m < n && m != i ==> Rank(q[m]) <= Rank(q[k])
  {
    if n == 0 {
      k := s;
    } else {
      k := SomeTop(q, i, s, n - 1);
      if n - 1 != i && Rank(q[n - 1]) > Rank(q[k]) { k := n - 1; }
    }
  }

  /** One that is looked at is at least as good as `k`, of the best class. */
  lemma {:induction false} LookedBeats(t: Tunables, q: seq<Rq>, i: nat, k: nat) returns (c: nat)
    requires i < |q| && Sorted(q) && Top(q, i, k) && Decided(q, i)
    ensures Looked(q, i, c) && AtLeast(t, q[c], q[k], q[i].pos)
  {
    var last := q[i].pos;
    if Looked(q, i, k) {
      c := k;
      Total(t, q[k], q[k], last);
    } else if k > i {
      c := i + 1;
      assert Looked(q, i, c) && Top(q, i, c);
      RankIs(q[c], q[k]);
      Ahead(t, q[c], q[k], last);
    } else {
      assert Looked(q, i, i - 1) && Looked(q, i, After(q, i));
      RankIs(q[i - 1], q[k]);
      RankIs(q[After(q, i)], q[k]);
      assert q[k].pos <= q[i - 1].pos <= last;
      if !Wraps(t, q[i - 1].pos, last) {
        c := i - 1;
        Behind(t, q[c], q[k], last);
      } else if i + 1 < |q| {
        c := i + 1;
        Reachable(t, q[c], q[k], last);
      } else {
        c := 0;
        Beyond(t, q[c], q[k], last);
      }
    }
  }

  /** Then the neighbours, and the first request on wrap-around, are all that needs looking
      at. */
  lemma {:induction false} DecidedBest(t: Tunables, q: seq<Rq>, i: nat)
    requires i < |q| && Sorted(q) && Decided(q, i)
    ensures FindsBest(t, q, i)
  {
    var last := q[i].pos;
    FindNextNone(t, q, i);
    forall k | 0 <= k < |q| && k != i
      ensures AtLeast(t, FindNext(t, q, i).rq, q[k], last)
    {
      var c := FindsLooked(t, q, i);
      var m := SomeTop(q, i, k, |q|);
      var b := LookedBeats(t, q, i, m);
      Transitive(t, q[c], q[b], q[m], last);
      if Top(q, i, k) {
        b := LookedBeats(t, q, i, k);
        Transitive(t, q[c], q[b], q[k], last);
      } else {
        assert Rank(q[k]) < Rank(q[m]);
        RankFirst(t, q[m], q[k], last);
        Transitive(t, q[c], q[m], q[k], last);
      }
    }
  }

  // ----- and when they are not

  predicate Placement(q: seq<Rq>, ps: seq<nat>) {
    |ps| == |q| && forall i, j :: 0 <= i < j < |ps| ==> ps[i] <= ps[j]
  }

  /** The same requests at other positions. */
  function Placed(q: seq<Rq>, ps: seq<nat>): (r: seq<Rq>)
    requires |ps| == |q|
    ensures |r| == |q| && forall i :: 0 <= i < |q| ==> r[i] == q[i].(pos := ps[i])
  {
    seq(|q|, i requires 0 <= i < |q| => q[i].(pos := ps[i]))
  }

  lemma {:induction false} PlacedSame(q: seq<Rq>, ps: seq<nat>, i: nat)
    requires Placement(q, ps)
    ensures Sorted(Placed(q, ps)) && (Decided(Placed(q, ps), i) <==> Decided(q, i))
    ensures forall k: nat :: Top(Placed(q, ps), i, k) <==> Top(q, i, k)
    ensures forall k: nat :: Looked(Placed(q, ps), i, k) <==> Looked(q, i, k)
  {
    var r := Placed(q, ps);
    assert forall k :: 0 <= k < |q| ==> Rank(r[k]) == Rank(q[k]);
    assert forall k: nat :: Top(r, i, k) <==> Top(q, i, k);
    assert forall k: nat :: Looked(r, i, k) <==> Looked(q, i, k);
  }

  /** Up to `a` at 0, from there up to `b` at `m`, and the others at `n`. */
  function Steps(q: seq<Rq>, a: nat, b: nat, m: nat, n: nat): (ps: seq<nat>)
    requires m <= n && a <= b
    ensures Placement(q, ps)
    ensures forall k :: 0 <= k < |q| ==> ps[k] == if k < a then 0 else if k < b then m else n
  {
    seq(|q|, k => if k < a then 0 else if k < b then m else n)
  }

  /** A request is missed: of a higher class than what is found, or nearer. */
  lemma {:induction false} Misses(t: Tunables, q: seq<Rq>, i: nat, k: nat, c: nat)
    requires i < |q| && Top(q, i, k) && Looked(q, i, c) && !AtLeast(t, q[c], q[k], q[i].pos)
    requires forall m: nat :: Looked(q, i, m) && Top(q, i, m) ==> m == c
    ensures !FindsBest(t, q, i)
  {
    var f := FindsLooked(t, q, i);
    if f != c { RankFirst(t, q[k], q[f], q[i].pos); }
    assert !AtLeast(t, FindNext(t, q, i).rq, q[k], q[i].pos);
  }

  /** Where the requests have to be for `k`, not looked at, to be nearer than `c`. */
  function Nearer(t: Tunables, q: seq<Rq>, i: nat, k: nat, c: nat): (ps: seq<nat>)
    requires i < |q| && k < |q|
    ensures Placement(q, ps)
  {
    if c == i + 1 then Steps(q, 0, i + 1, 0, 1)
    else if k + 1 < i && c + 1 == i then Steps(q, k + 1, i, 1, 2 * t.backMax + 2)
    else Steps(q, c + 1, c + 1, 1, 1)
  }

  lemma {:induction false} NearerIs(t: Tunables, q: seq<Rq>, i: nat, k: nat, c: nat)
    requires i < |q| && Top(q, i, k) && Top(q, i, c) && Looked(q, i, c) && !Looked(q, i, k)
    requires c == i + 1 ==> k < i
    requires c != i + 1 ==> c < i
    ensures var r := Placed(q, Nearer(t, q, i, k, c)); !AtLeast(t, r[c], r[k], r[i].pos)
  {
    RankIs(q[c], q[k]);
    var r := Placed(q, Nearer(t, q, i, k, c));
    assert SameClass(r[c], r[k]);
  }

  /** The best class is not looked at. */
  lemma {:induction false} MissesClass(t: Tunables, q: seq<Rq>, i: nat, k: nat, d: nat)
    requires i < |q| && Top(q, i, k) && Looked(q, i, d)
    requires forall m: nat :: Looked(q, i, m) ==> !Top(q, i, m)
    ensures !FindsBest(t, q, i)
  {
    RankFirst(t, q[k], q[d], q[i].pos);
    Misses(t, q, i, k, d);
  }

  /** Only one of those looked at is of the best class. */
  lemma {:induction false} MissesNearer(t: Tunables, q: seq<Rq>, i: nat, k: nat, c: nat) returns (ps: seq<nat>)
    requires i < |q| && Top(q, i, k) && Top(q, i, c) && Looked(q, i, c) && !Looked(q, i, k)
    requires if c == i + 1 then k < i else c < i
    requires forall m: nat :: Looked(q, i, m) && Top(q, i, m) ==> m == c
    ensures Placement(q, ps) && !FindsBest(t, Placed(q, ps), i)
  {
    ps := Nearer(t, q, i, k, c);
    NearerIs(t, q, i, k, c);
    PlacedSame(q, ps, i);
    Misses(t, Placed(q, ps), i, k, c);
  }

  lemma {:induction false} OnlyOne(q: seq<Rq>, i: nat, c: nat, d: nat)
    requires i < |q| && Looked(q, i, c) && Looked(q, i, d) && !Top(q, i, d) && Top(q, i, c)
    ensures forall m: nat :: Looked(q, i, m) && Top(q, i, m) ==> m == c
  {
  }

  lemma {:induction false} Undecided(t: Tunables, q: seq<Rq>, i: nat) returns (ps: seq<nat>)
    requires i < |q| && !Decided(q, i)
    ensures Placement(q, ps) && !FindsBest(t, Placed(q, ps), i)
  {
    var k: nat :| Top(q, i, k) && !Looked(q, i, k);
    var d: nat :| Looked(q, i, d) && !Top(q, i, d);
    if c: nat :| Looked(q, i, c) && Top(q, i, c) {
      if c == i + 1 { k :| Top(q, i, k) && k <= i; }
      OnlyOne(q, i, c, d);
      ps := MissesNearer(t, q, i, k, c);
    } else {
      ps := Steps(q, 0, 0, 0, 0);
      PlacedSame(q, ps, i);
      MissesClass(t, Placed(q, ps), i, k, d);
    }
  }

  /** cfq_find_next_rq finds a best request wherever the requests are, if and only if their
      classes let the neighbours decide. */
  lemma {:induction false} FindNextBest(t: Tunables, q: seq<Rq>, i: nat)
    requires i < |q|
    ensures Decided(q, i) <==> forall ps :: Placement(q, ps) ==> FindsBest(t, Placed(q, ps), i)
  {
    if Decided(q, i) {
      forall ps | Placement(q, ps)
        ensures FindsBest(t, Placed(q, ps), i)
      {
        PlacedSame(q, ps, i);
        DecidedBest(t, Placed(q, ps), i);
      }
    } else {
      var ps := Undecided(t, q, i);
    }
  }

  predicate OneClass(q: seq<Rq>) {
    forall i, j :: 0 <= i < |q| && 0 <= j < |q| ==> SameClass(q[i], q[j])
  }

  /** Requests of one class always do. */
  lemma {:induction false} OneClassBest(t: Tunables, q: seq<Rq>, i: nat)
    requires i < |q| && Sorted(q) && OneClass(q)
    ensures FindsBest(t, q, i)
  {
    forall k: nat | Looked(q, i, k)
      ensures Top(q, i, k)
    {
      assert forall m :: 0 <= m < |q| ==> SameClass(q[m], q[k]);
    }
    DecidedBest(t, q, i);
  }

  lemma {:induction false} FindNextNone(t: Tunables, q: seq<Rq>, i: nat)
    requires i < |q|
    ensures FindNext(t, q, i).Null? <==> |q| == 1
  {
  }

  /** An instance: the one request of the best class is not looked at. */
  lemma {:induction false} ClassesMatter()
    ensures var t := Tunables(16384, 2);
            var q := [Rq(0, true, false, 10), Rq(1, true, false, 20), Rq(2, true, true, 30)];
            Sorted(q) && !Decided(q, 0) && !FindsBest(t, q, 0)
  {
    var t := Tunables(16384, 2);
    var q := [Rq(0, true, false, 10), Rq(1, true, false, 20), Rq(2, true, true, 30)];
    assert Top(q, 0, 2) && !Looked(q, 0, 2) && Looked(q, 0, 1) && !Top(q, 0, 1);
    assert FindNext(t, q, 0) == Req(q[1]) && !AtLeast(t, q[1], q[2], q[0].pos);
  }
}
