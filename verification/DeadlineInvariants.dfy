/**
 What the deadline scheduler keeps: the FIFO and the sort tree of each direction hold
 the same requests, each in order, and at most one next_rq is set, to a request that is
 waiting.
 */
module DeadlineInvariants {
  import opened Lists
  import opened SearchTree
  import opened DeadlineSpec

  /** The nodes of the waiting requests of one direction. */
  function Nodes(reqs: map<nat, Rq>, read: bool, byTime: bool): set<Node> {
    set id | id in reqs && reqs[id].read == read :: NodeOf(id, reqs[id], byTime)
  }

  /** An ordered list of exactly these nodes, each once. */
  predicate ListOk(s: seq<Node>, nodes: set<Node>) { Sorted(s) && Distinct(s) && Elems(s) == nodes }

  predicate NextOk(reqs: map<nat, Rq>, next: Maybe, read: bool) {
    next.Some? ==> next.id in reqs && reqs[next.id].read == read
  }

  predicate LaneOk(reqs: map<nat, Rq>, l: Lane, read: bool) {
    && ListOk(l.fifo, Nodes(reqs, read, true)) && ListOk(l.tree, Nodes(reqs, read, false))
    && NextOk(reqs, l.next, read)
  }

  /** No deadline lies further ahead than a new request's would. */
  predicate TimesOk(d: Sched, now: nat) {
    forall id :: id in d.reqs ==> d.reqs[id].deadline <= now + Expire(d.tun, d.reqs[id].read)
  }

  predicate QueueOk(d: Sched) {
    Distinct(d.queue) && forall id :: id in d.queue ==> id !in d.reqs
  }

  predicate DataOk(d: Sched, now: nat) {
    && LaneOk(d.reqs, d.r, true) && LaneOk(d.reqs, d.w, false)
    && (d.r.next.None? || d.w.next.None?) && d.nrSorted == |d.reqs|
    && TimesOk(d, now) && QueueOk(d)
  }

  // ----- lists

  lemma {:induction false} ListInsert(s: seq<Node>, nodes: set<Node>, n: Node)
    requires ListOk(s, nodes) && n !in nodes
    ensures ListOk(Insert(s, n), nodes + {n})
  {
    assert n !in Elems(s);
    InsertSorted(s, n);
  }

  lemma {:induction false} ListWithout(s: seq<Node>, nodes: set<Node>, n: Node)
    requires ListOk(s, nodes)
    ensures ListOk(Without(s, n), nodes - {n})
  {
    WithoutSorted(s, n);
    WithoutDistinct(s, n);
  }

  lemma {:induction false} SortedAppend(s: seq<Node>, n: Node)
    requires Sorted(s) && forall m :: m in s ==> m.key <= n.key
    ensures Sorted(s + [n])
  {
    if s == [] {
      assert [n][1..] == [];
    } else {
      SortedAppend(s[1..], n);
      assert (s + [n])[1..] == s[1..] + [n];
    }
  }

  lemma {:induction false} ListAppend(s: seq<Node>, nodes: set<Node>, n: Node)
    requires ListOk(s, nodes) && n !in nodes && forall m :: m in nodes ==> m.key <= n.key
    ensures ListOk(s + [n], nodes + {n})
  {
    assert n !in Elems(s);
    assert forall m :: m in s ==> m in Elems(s);
    SortedAppend(s, n);
    Snoc(s, n);
  }

  lemma {:induction false} ListInsertAfter(s: seq<Node>, n: Node, m: Node)
    requires Sorted(s) && Distinct(s) && m in s && n !in s && n.key == m.key
    ensures ListOk(InsertAfter(s, n, m), Elems(s) + {n})
  {
    var r := InsertAfter(s, n, m);
    if s[0] == m {
      assert r[1..] == [n] + s[1..];
      assert ([n] + s[1..])[1..] == s[1..];
      assert r == [m] + ([n] + s[1..]);
    } else {
      ListInsertAfter(s[1..], n, m);
      var t := InsertAfter(s[1..], n, m);
      assert r[1..] == t;
      forall x | x in t
        ensures s[0].key <= x.key && x != s[0]
      {
        assert x in Elems(t);
      }
      assert forall x :: x in r <==> x == s[0] || x in Elems(t);
    }
  }

  /** elv_rb_add, on any search tree with the nodes of the direction: it links the request
      where Add has it. */
  lemma {:induction false} AddDescends(d: Sched, id: nat, read: bool, pos: nat, sectors: nat, now: nat, t: Tree)
    requires DataOk(d, now) && InOrder(t) == LaneOf(d, read).tree
    ensures LaneOf(Add(d, id, read, pos, sectors, now), read).tree == InOrder(Descend(t, Node(pos, id)))
  {
    DescendInserts(t, Node(pos, id));
  }

  /** The nodes of a direction's tree are its waiting requests. */
  lemma {:induction false} TreeHolds(d: Sched, read: bool, now: nat, n: Node)
    requires DataOk(d, now)
    ensures n in LaneOf(d, read).tree <==> n.id in d.reqs && d.reqs[n.id].read == read && d.reqs[n.id].pos == n.key
  {
    assert n in LaneOf(d, read).tree <==> n in Elems(LaneOf(d, read).tree);
    if n.id in d.reqs && d.reqs[n.id].read == read && d.reqs[n.id].pos == n.key {
      assert NodeOf(n.id, d.reqs[n.id], false) == n;
    }
  }

  // ----- requests

  lemma {:induction false} NodesUpdate(reqs: map<nat, Rq>, id: nat, q: Rq, read: bool, byTime: bool)
    requires id in reqs && reqs[id].read == q.read
    ensures Nodes(reqs[id := q], read, byTime) ==
            if q.read == read then Nodes(reqs, read, byTime) - {NodeOf(id, reqs[id], byTime)} + {NodeOf(id, q, byTime)}
            else Nodes(reqs, read, byTime)
  {
    var t := reqs[id := q];
    forall n | n in Nodes(reqs, read, byTime) && n.id != id
      ensures n in Nodes(t, read, byTime)
    {
      assert n.id in t && t[n.id] == reqs[n.id];
    }
    if q.read == read { assert NodeOf(id, t[id], byTime) in Nodes(t, read, byTime); }
  }

  lemma {:induction false} NodesAdd(reqs: map<nat, Rq>, id: nat, q: Rq, read: bool, byTime: bool)
    requires id !in reqs
    ensures Nodes(reqs[id := q], read, byTime) ==
            Nodes(reqs, read, byTime) + if q.read == read then {NodeOf(id, q, byTime)} else {}
    ensures NodeOf(id, q, byTime) !in Nodes(reqs, read, byTime)
  {
    var t := reqs[id := q];
    forall n | n in Nodes(reqs, read, byTime)
      ensures n in Nodes(t, read, byTime)
    {
      assert n.id in t && t[n.id] == reqs[n.id];
    }
    if q.read == read { assert NodeOf(id, t[id], byTime) in Nodes(t, read, byTime); }
  }

  lemma {:induction false} NodesRemove(reqs: map<nat, Rq>, id: nat, read: bool, byTime: bool)
    requires id in reqs
    ensures Nodes(reqs - {id}, read, byTime) == Nodes(reqs, read, byTime) - {NodeOf(id, reqs[id], byTime)}
    ensures NodeOf(id, reqs[id], byTime) in Nodes(reqs, reqs[id].read, byTime)
  {
    var t := reqs - {id};
    forall n | n in Nodes(reqs, read, byTime) && n.id != id
      ensures n in Nodes(t, read, byTime)
    {
      assert n.id in t && t[n.id] == reqs[n.id];
    }
  }

  // ----- insertion and merging

  lemma {:induction false} KeysBound(d: Sched, read: bool, now: nat)
    requires TimesOk(d, now)
    ensures forall m :: m in Nodes(d.reqs, read, true) ==> m.key <= now + Expire(d.tun, read)
  {
  }

  lemma {:induction false} AddLane(d: Sched, id: nat, q: Rq)
    requires LaneOk(d.reqs, LaneOf(d, q.read), q.read) && id !in d.reqs
    requires forall m :: m in Nodes(d.reqs, q.read, true) ==> m.key <= q.deadline
    ensures var l := LaneOf(d, q.read);
            LaneOk(d.reqs[id := q], l.(tree := Insert(l.tree, InTree(id, q)), fifo := l.fifo + [InFifo(id, q)]), q.read)
  {
    var l := LaneOf(d, q.read);
    NodesAdd(d.reqs, id, q, q.read, true);
    NodesAdd(d.reqs, id, q, q.read, false);
    ListInsert(l.tree, Nodes(d.reqs, q.read, false), InTree(id, q));
    ListAppend(l.fifo, Nodes(d.reqs, q.read, true), InFifo(id, q));
  }

  lemma {:induction false} AddOther(d: Sched, id: nat, q: Rq)
    requires LaneOk(d.reqs, LaneOf(d, !q.read), !q.read) && id !in d.reqs
    ensures LaneOk(d.reqs[id := q], LaneOf(d, !q.read), !q.read)
  {
    NodesAdd(d.reqs, id, q, !q.read, true);
    NodesAdd(d.reqs, id, q, !q.read, false);
  }

  lemma {:induction false} AddFrame(d: Sched, id: nat, read: bool, pos: nat, sectors: nat, now: nat)
    requires TimesOk(d, now) && QueueOk(d) && d.nrSorted == |d.reqs| && id !in d.reqs && id !in d.queue
    ensures var t := Add(d, id, read, pos, sectors, now); TimesOk(t, now) && QueueOk(t) && t.nrSorted == |t.reqs|
  {
    var q := Rq(read, pos, sectors, now + Expire(d.tun, read));
    assert d.reqs[id := q].Keys == d.reqs.Keys + {id};
    assert |d.reqs[id := q].Keys| == |d.reqs.Keys| + 1;
  }

  lemma {:induction false} AddIs(d: Sched, id: nat, read: bool, pos: nat, sectors: nat, now: nat)
    ensures var q, l := Rq(read, pos, sectors, now + Expire(d.tun, read)), LaneOf(d, read);
            var t := Add(d, id, read, pos, sectors, now);
            && t.reqs == d.reqs[id := q] && LaneOf(t, !read) == LaneOf(d, !read)
            && LaneOf(t, read) == l.(tree := Insert(l.tree, InTree(id, q)), fifo := l.fifo + [InFifo(id, q)])
            && t.r.next == d.r.next && t.w.next == d.w.next
  {
  }

  lemma {:induction false} AddLanes(d: Sched, id: nat, read: bool, pos: nat, sectors: nat, now: nat)
    requires LaneOk(d.reqs, d.r, true) && LaneOk(d.reqs, d.w, false) && id !in d.reqs && TimesOk(d, now)
    ensures var t := Add(d, id, read, pos, sectors, now);
            LaneOk(t.reqs, LaneOf(t, read), read) && LaneOk(t.reqs, LaneOf(t, !read), !read)
  {
    KeysBound(d, read, now);
    AddIs(d, id, read, pos, sectors, now);
    AddLane(d, id, Rq(read, pos, sectors, now + Expire(d.tun, read)));
    AddOther(d, id, Rq(read, pos, sectors, now + Expire(d.tun, read)));
  }

  lemma {:induction false} AddOk(d: Sched, id: nat, read: bool, pos: nat, sectors: nat, now: nat)
    requires DataOk(d, now) && id !in d.reqs && id !in d.queue
    ensures DataOk(Add(d, id, read, pos, sectors, now), now)
  {
    AddIs(d, id, read, pos, sectors, now);
    AddLanes(d, id, read, pos, sectors, now);
    AddFrame(d, id, read, pos, sectors, now);
  }

  lemma {:induction false} OtherKeeps(d: Sched, id: nat, q: Rq)
    requires LaneOk(d.reqs, LaneOf(d, !q.read), !q.read) && id in d.reqs && d.reqs[id].read == q.read
    ensures LaneOk(d.reqs[id := q], LaneOf(d, !q.read), !q.read)
  {
    NodesUpdate(d.reqs, id, q, !q.read, true);
    NodesUpdate(d.reqs, id, q, !q.read, false);
  }

  /** A request with a new position moves in the tree and stays in the FIFO. */
  lemma {:induction false} FrontLane(reqs: map<nat, Rq>, l: Lane, id: nat, t: Rq)
    requires id in reqs && LaneOk(reqs, l, t.read) && t.read == reqs[id].read && t.deadline == reqs[id].deadline
    ensures LaneOk(reqs[id := t], l.(tree := Insert(Without(l.tree, InTree(id, reqs[id])), InTree(id, t))), t.read)
  {
    var q := reqs[id];
    NodesUpdate(reqs, id, t, q.read, true);
    NodesUpdate(reqs, id, t, q.read, false);
    NodesRemove(reqs, id, q.read, true);
    NodesRemove(reqs, id, q.read, false);
    ListWithout(l.tree, Nodes(reqs, q.read, false), InTree(id, q));
    ListInsert(Without(l.tree, InTree(id, q)), Nodes(reqs, q.read, false) - {InTree(id, q)}, InTree(id, t));
  }

  lemma {:induction false} FrontIs(d: Sched, id: nat, t: Rq)
    requires id in d.reqs
    ensures var e, l := Repositioned(d, id, t), LaneOf(d, t.read);
            && e.reqs == d.reqs[id := t] && SameFrame(d, e) && LaneOf(e, !t.read) == LaneOf(d, !t.read)
            && LaneOf(e, t.read) == l.(tree := Insert(Without(l.tree, InTree(id, d.reqs[id])), InTree(id, t)))
  {
  }

  /** What is neither requests nor lanes is the same. */
  predicate SameFrame(d: Sched, e: Sched) {
    e.tun == d.tun && e.nrSorted == d.nrSorted && e.queue == d.queue && e.r.next == d.r.next && e.w.next == d.w.next
  }

  /** An invariant state, from its parts. */
  lemma {:induction false} Rebuilt(e: Sched, read: bool, now: nat)
    requires LaneOk(e.reqs, LaneOf(e, read), read) && LaneOk(e.reqs, LaneOf(e, !read), !read)
    requires (e.r.next.None? || e.w.next.None?) && e.nrSorted == |e.reqs| && TimesOk(e, now) && QueueOk(e)
    ensures DataOk(e, now)
  {
  }

  lemma {:induction false} RepositionedOk(d: Sched, id: nat, t: Rq, now: nat)
    requires DataOk(d, now) && id in d.reqs && t.read == d.reqs[id].read && t.deadline == d.reqs[id].deadline
    ensures DataOk(Repositioned(d, id, t), now)
  {
    FrontIs(d, id, t);
    FrontLane(d.reqs, LaneOf(d, t.read), id, t);
    OtherKeeps(d, id, t);
    RecordKeeps(d, Repositioned(d, id, t), id, t, now);
    Rebuilt(Repositioned(d, id, t), t.read, now);
  }

  lemma {:induction false} FrontOk(d: Sched, id: nat, n: nat, now: nat)
    requires DataOk(d, now) && id in d.reqs && n <= d.reqs[id].pos
    ensures DataOk(FrontMerge(d, id, n), now)
  {
    RepositionedOk(d, id, Extended(d.reqs[id], n), now);
  }

  /** A new record with no later deadline changes neither count, times nor queue. */
  lemma {:induction false} RecordKeeps(d: Sched, e: Sched, id: nat, t: Rq, now: nat)
    requires TimesOk(d, now) && QueueOk(d) && id in d.reqs && e.reqs == d.reqs[id := t] && SameFrame(d, e)
    requires t.read == d.reqs[id].read && t.deadline <= d.reqs[id].deadline
    ensures TimesOk(e, now) && QueueOk(e) && |e.reqs| == |d.reqs|
  {
    assert e.reqs.Keys == d.reqs.Keys;
  }

  lemma {:induction false} BackLane(d: Sched, id: nat, n: nat, read: bool)
    requires id in d.reqs && LaneOk(d.reqs, LaneOf(d, read), read)
    ensures LaneOk(BackMerge(d, id, n).reqs, LaneOf(d, read), read)
  {
    var t := d.reqs[id].(sectors := d.reqs[id].sectors + n);
    NodesUpdate(d.reqs, id, t, read, true);
    NodesUpdate(d.reqs, id, t, read, false);
    NodesRemove(d.reqs, id, read, true);
    NodesRemove(d.reqs, id, read, false);
  }

  lemma {:induction false} BackOk(d: Sched, id: nat, n: nat, now: nat)
    requires DataOk(d, now) && id in d.reqs
    ensures DataOk(BackMerge(d, id, n), now)
  {
    BackLane(d, id, n, true);
    BackLane(d, id, n, false);
    assert BackMerge(d, id, n).reqs.Keys == d.reqs.Keys;
  }

  // ----- removal

  lemma {:induction false} SuccessorOk(reqs: map<nat, Rq>, l: Lane, id: nat, read: bool)
    requires LaneOk(reqs, l, read) && id in reqs && reqs[id].read == read
    ensures NextOk(reqs - {id}, Successor(l.tree, InTree(id, reqs[id])), read)
  {
    var n := InTree(id, reqs[id]);
    if Successor(l.tree, n).Some? {
      SuccessorIn(l.tree, n);
      var m :| m in l.tree && m.id == Successor(l.tree, n).id && m != n;
      assert m in Elems(l.tree);
    }
  }

  lemma {:induction false} RemoveLane(reqs: map<nat, Rq>, l: Lane, id: nat, read: bool)
    requires LaneOk(reqs, l, read) && id in reqs && reqs[id].read == read
    ensures LaneOk(reqs - {id}, Remove(l, id, reqs[id]), read)
  {
    NodesRemove(reqs, id, read, true);
    NodesRemove(reqs, id, read, false);
    ListWithout(l.fifo, Nodes(reqs, read, true), InFifo(id, reqs[id]));
    ListWithout(l.tree, Nodes(reqs, read, false), InTree(id, reqs[id]));
    SuccessorOk(reqs, l, id, read);
  }

  lemma {:induction false} RemoveOther(reqs: map<nat, Rq>, l: Lane, id: nat, read: bool)
    requires LaneOk(reqs, l, read) && id in reqs && reqs[id].read != read
    ensures LaneOk(reqs - {id}, l, read)
  {
    NodesRemove(reqs, id, read, true);
    NodesRemove(reqs, id, read, false);
    assert forall x :: x in reqs && reqs[x].read == read ==> x != id;
  }

  // ----- merging two requests

  /** The lane after `req` took over the deadline of `next`, if earlier. */
  lemma {:induction false} TakeOver(reqs: map<nat, Rq>, l: Lane, req: nat, next: nat, t: Rq)
    requires req in reqs && next in reqs && req != next && reqs[req].read == reqs[next].read == t.read
    requires LaneOk(reqs, l, t.read) && t.pos == reqs[req].pos && t.deadline == reqs[next].deadline
    ensures LaneOk(reqs[req := t], l.(fifo := Adopted(l.fifo, req, next, reqs[req], reqs[next])), t.read)
  {
    var a, b := InFifo(req, reqs[req]), InFifo(next, reqs[next]);
    NodesUpdate(reqs, req, t, t.read, true);
    NodesUpdate(reqs, req, t, t.read, false);
    NodesRemove(reqs, req, t.read, false);
    NodesRemove(reqs, next, t.read, true);
    ListWithout(l.fifo, Nodes(reqs, t.read, true), a);
    assert b in Elems(Without(l.fifo, a)) && InFifo(req, t) !in Elems(Without(l.fifo, a));
    ListInsertAfter(Without(l.fifo, a), InFifo(req, t), b);
  }

  lemma {:induction false} KeepPlace(reqs: map<nat, Rq>, l: Lane, req: nat, t: Rq)
    requires req in reqs && reqs[req].read == t.read && LaneOk(reqs, l, t.read)
    requires t.pos == reqs[req].pos && t.deadline == reqs[req].deadline
    ensures LaneOk(reqs[req := t], l, t.read)
  {
    NodesUpdate(reqs, req, t, t.read, true);
    NodesUpdate(reqs, req, t, t.read, false);
    NodesRemove(reqs, req, t.read, true);
    NodesRemove(reqs, req, t.read, false);
  }

  lemma {:induction false} AbsorbedLane(reqs: map<nat, Rq>, l: Lane, req: nat, next: nat, t: Rq)
    requires req in reqs && next in reqs && req != next && reqs[req].read == reqs[next].read
    requires LaneOk(reqs, l, t.read) && t == Joined(reqs[req], reqs[next])
    ensures var a, b := reqs[req], reqs[next];
            var m := if b.deadline < a.deadline then l.(fifo := Adopted(l.fifo, req, next, a, b)) else l;
            LaneOk(reqs[req := t], m, t.read)
  {
    if reqs[next].deadline < reqs[req].deadline {
      TakeOver(reqs, l, req, next, t);
    } else {
      KeepPlace(reqs, l, req, t);
    }
  }

  lemma {:induction false} AbsorbedIs(d: Sched, req: nat, next: nat)
    requires req in d.reqs && next in d.reqs
    ensures var e, a, b := Absorbed(d, req, next), d.reqs[req], d.reqs[next];
            var l := LaneOf(d, a.read);
            && e.reqs == d.reqs[req := Joined(a, b)] && SameFrame(d, e) && LaneOf(e, !a.read) == LaneOf(d, !a.read)
            && LaneOf(e, a.read) == if b.deadline < a.deadline then l.(fifo := Adopted(l.fifo, req, next, a, b)) else l
  {
  }

  lemma {:induction false} AbsorbedOk(d: Sched, req: nat, next: nat, now: nat)
    requires DataOk(d, now) && req in d.reqs && next in d.reqs && req != next && d.reqs[req].read == d.reqs[next].read
    ensures DataOk(Absorbed(d, req, next), now)
  {
    var t := Joined(d.reqs[req], d.reqs[next]);
    AbsorbedIs(d, req, next);
    AbsorbedLane(d.reqs, LaneOf(d, t.read), req, next, t);
    OtherKeeps(d, req, t);
    RecordKeeps(d, Absorbed(d, req, next), req, t, now);
    Rebuilt(Absorbed(d, req, next), t.read, now);
  }

  lemma {:induction false} DiscardedIs(d: Sched, id: nat)
    requires id in d.reqs
    ensures var e, q := Discarded(d, id), d.reqs[id];
            && e.reqs == d.reqs - {id} && LaneOf(e, !q.read) == LaneOf(d, !q.read)
            && LaneOf(e, q.read) == Remove(LaneOf(d, q.read), id, q)
            && e.tun == d.tun && e.queue == d.queue && (d.nrSorted > 0 ==> e.nrSorted == d.nrSorted - 1)
  {
  }

  lemma {:induction false} DiscardedOk(d: Sched, id: nat, now: nat)
    requires DataOk(d, now) && id in d.reqs
    ensures DataOk(Discarded(d, id), now)
  {
    var q := d.reqs[id];
    DiscardedIs(d, id);
    RemoveLane(d.reqs, LaneOf(d, q.read), id, q.read);
    RemoveOther(d.reqs, LaneOf(d, !q.read), id, !q.read);
    Fewer(d.reqs, id);
    Rebuilt(Discarded(d, id), q.read, now);
  }

  lemma {:induction false} MergeOk(d: Sched, req: nat, next: nat, now: nat)
    requires DataOk(d, now) && req in d.reqs && next in d.reqs && req != next && d.reqs[req].read == d.reqs[next].read
    ensures DataOk(MergeNext(d, req, next), now)
  {
    AbsorbedOk(d, req, next, now);
    DiscardedOk(Absorbed(d, req, next), next, now);
  }

  // ----- dispatch

  lemma {:induction false} NoNext(reqs: map<nat, Rq>, l: Lane, read: bool)
    requires LaneOk(reqs, l, read)
    ensures LaneOk(reqs, l.(next := None), read)
  {
  }

  lemma {:induction false} MoveLane(reqs: map<nat, Rq>, l: Lane, id: nat, read: bool)
    requires LaneOk(reqs, l, read) && id in reqs && reqs[id].read == read
    ensures LaneOk(reqs - {id}, Remove(l.(next := Successor(l.tree, InTree(id, reqs[id]))), id, reqs[id]), read)
  {
    SuccessorOk(reqs, l, id, read);
    RemoveLane(reqs, l.(next := Successor(l.tree, InTree(id, reqs[id]))), id, read);
  }

  lemma {:induction false} MoveIs(d: Sched, id: nat)
    requires id in d.reqs
    ensures var t, q := Move(d, id), d.reqs[id];
            var l := LaneOf(d, q.read);
            && t.reqs == d.reqs - {id} && t.queue == d.queue + [id] && t.tun == d.tun
            && LaneOf(t, q.read) == Remove(l.(next := Successor(l.tree, InTree(id, q))), id, q)
            && LaneOf(t, !q.read).next.None? && t.lastSector == q.pos + q.sectors
  {
  }

  lemma {:induction false} MoveOk(d: Sched, id: nat, now: nat)
    requires DataOk(d, now) && id in d.reqs
    ensures DataOk(Move(d, id), now)
  {
    var q := d.reqs[id];
    var read := q.read;
    MoveLane(d.reqs, LaneOf(d, read), id, read);
    NoNext(d.reqs, LaneOf(d, !read), !read);
    RemoveOther(d.reqs, LaneOf(d, !read).(next := None), id, !read);
    Fewer(d.reqs, id);
    Snoc(d.queue, id);
    assert Move(d, id).r == if read then Remove(d.r.(next := Successor(d.r.tree, InTree(id, q))), id, q)
           else d.r.(next := None);
  }

  lemma {:induction false} HeadWaits(reqs: map<nat, Rq>, l: Lane, read: bool)
    requires LaneOk(reqs, l, read) && l.fifo != []
    ensures l.fifo[0].id in reqs && reqs[l.fifo[0].id].read == read
  {
    assert l.fifo[0] in Elems(l.fifo);
  }

  lemma {:induction false} FindWaits(reqs: map<nat, Rq>, l: Lane, read: bool, now: nat)
    requires LaneOk(reqs, l, read) && l.fifo != []
    ensures Find(l, now) in reqs && reqs[Find(l, now)].read == read
  {
    HeadWaits(reqs, l, read);
  }

  /** A direction with waiting requests has a first one in its FIFO. */
  lemma {:induction false} Waits(reqs: map<nat, Rq>, l: Lane, id: nat)
    requires id in reqs && LaneOk(reqs, l, reqs[id].read)
    ensures l.fifo != [] && l.tree != []
  {
    NodesRemove(reqs, id, reqs[id].read, true);
    NodesRemove(reqs, id, reqs[id].read, false);
    assert InFifo(id, reqs[id]) in Elems(l.fifo) && InTree(id, reqs[id]) in Elems(l.tree);
  }

  /** Dispatch takes a waiting request, if there is one. */
  lemma {:induction false} ChooseOk(d: Sched, now: nat)
    requires DataOk(d, now)
    ensures Choose(d, now).Nothing? <==> d.reqs == map[]
    ensures Choose(d, now).Take? ==> Choose(d, now).id in d.reqs
  {
    if d.r.fifo != [] { FindWaits(d.reqs, d.r, true, now); }
    if d.w.fifo != [] { FindWaits(d.reqs, d.w, false, now); }
    if d.reqs != map[] {
      var id :| id in d.reqs;
      Waits(d.reqs, LaneOf(d, d.reqs[id].read), id);
    }
  }

  lemma {:induction false} DispatchOk(d: Sched, now: nat)
    requires DataOk(d, now)
    ensures DataOk(Dispatch(d, now), now)
  {
    ChooseOk(d, now);
    match Choose(d, now)
    case Nothing =>
    case Take(id, batching, starved) => MoveOk(d, id, now);
  }

  /** Checking the head of a FIFO decides whether any of its requests has expired. */
  lemma {:induction false} HeadDecides(d: Sched, read: bool, now: nat)
    requires DataOk(d, now) && LaneOf(d, read).fifo != []
    ensures Expired(LaneOf(d, read), now) <==>
            exists id :: id in d.reqs && d.reqs[id].read == read && d.reqs[id].deadline < now
  {
    var l := LaneOf(d, read);
    HeadWaits(d.reqs, l, read);
    assert l.fifo[0] in Elems(l.fifo);
    forall id | id in d.reqs && d.reqs[id].read == read
      ensures l.fifo[0].key <= d.reqs[id].deadline
    {
      NodesRemove(d.reqs, id, read, true);
      assert InFifo(id, d.reqs[id]) in Elems(l.fifo);
      assert InFifo(id, d.reqs[id]) == l.fifo[0] || InFifo(id, d.reqs[id]) in l.fifo[1..];
    }
  }
}
