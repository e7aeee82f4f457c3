/**
 next_rq of the deadline scheduler: where a direction goes on in the order of sectors. Every
 request that was waiting beyond the last position at the last dispatch, and has not been
 moved since, is next_rq or comes after it.
 */
module DeadlineNext {
  import opened Lists
  import opened SearchTree
  import opened DeadlineSpec
  import opened DeadlineInvariants

  // ----- next_rq

  /** Waiting beyond the last position, and there since the last dispatch. */
  predicate Settled(reqs: map<nat, Rq>, read: bool, pos: nat, newer: set<nat>, y: nat) {
    y in reqs && reqs[y].read == read && y !in newer && reqs[y].pos > pos
  }

  /** `y` is next_rq or comes after it. */
  predicate From(reqs: map<nat, Rq>, tree: seq<Node>, next: Maybe, y: nat) {
    && next.Some? && next.id in reqs && y in reqs
    && (y == next.id || Before(tree, InTree(next.id, reqs[next.id]), InTree(y, reqs[y])))
  }

  predicate Lined(reqs: map<nat, Rq>, l: Lane, read: bool, pos: nat, newer: set<nat>, mixed: bool) {
    && (forall y :: y in reqs && Settled(reqs, read, pos, newer, y) ==> From(reqs, l.tree, l.next, y))
    && (!mixed && l.next.Some? && l.next.id in reqs && l.next.id !in newer ==> reqs[l.next.id].pos >= pos)
  }

  // ----- the tree of one direction

  lemma {:induction false} NodeIs(reqs: map<nat, Rq>, l: Lane, read: bool, k: Node)
    requires LaneOk(reqs, l, read) && k in l.tree
    ensures k.id in reqs && reqs[k.id].read == read && k == InTree(k.id, reqs[k.id])
  {
    assert k in Elems(l.tree);
  }

  lemma {:induction false} InTheTree(reqs: map<nat, Rq>, l: Lane, read: bool, id: nat)
    requires LaneOk(reqs, l, read) && id in reqs && reqs[id].read == read
    ensures InTree(id, reqs[id]) in l.tree
  {
    NodesRemove(reqs, id, read, false);
    assert InTree(id, reqs[id]) in Elems(l.tree);
  }

  lemma {:induction false} FromInsert(reqs: map<nat, Rq>, tree: seq<Node>, next: Maybe, y: nat, id: nat, q: Rq)
    requires From(reqs, tree, next, y) && id !in reqs
    ensures From(reqs[id := q], Insert(tree, InTree(id, q)), next, y)
  {
    if y != next.id { BeforeInsert(tree, InTree(id, q), InTree(next.id, reqs[next.id]), InTree(y, reqs[y])); }
  }

  lemma {:induction false} LinedAdd(reqs: map<nat, Rq>, l: Lane, m: Lane, read: bool, pos: nat, newer: set<nat>,
                                    mixed: bool, id: nat, q: Rq)
    requires Lined(reqs, l, read, pos, newer, mixed) && id !in reqs && m.next == l.next
    requires m.tree == if q.read == read then Insert(l.tree, InTree(id, q)) else l.tree
    ensures Lined(reqs[id := q], m, read, pos, newer + {id}, mixed)
  {
    var all, since := reqs[id := q], newer + {id};
    forall y | Settled(all, read, pos, since, y)
      ensures From(all, m.tree, m.next, y)
    {
      assert Settled(reqs, read, pos, newer, y);
      if q.read == read { FromInsert(reqs, l.tree, l.next, y, id, q); }
    }
  }

  /** A record that keeps its place. */
  lemma {:induction false} LinedRecord(reqs: map<nat, Rq>, l: Lane, m: Lane, read: bool, pos: nat, newer: set<nat>,
                                       mixed: bool, id: nat, q: Rq)
    requires Lined(reqs, l, read, pos, newer, mixed) && id in reqs && q.read == reqs[id].read && q.pos == reqs[id].pos
    requires m.next == l.next && m.tree == l.tree
    ensures Lined(reqs[id := q], m, read, pos, newer, mixed)
  {
    var all := reqs[id := q];
    forall y | Settled(all, read, pos, newer, y)
      ensures From(all, m.tree, m.next, y)
    {
      assert Settled(reqs, read, pos, newer, y);
    }
  }

  lemma {:induction false} FromFront(reqs: map<nat, Rq>, l: Lane, read: bool, y: nat, id: nat, q: Rq)
    requires LaneOk(reqs, l, read) && From(reqs, l.tree, l.next, y) && y != id && reqs[y].read == read
    requires id in reqs && reqs[id].read == read == q.read && q.pos < reqs[id].pos && q.deadline == reqs[id].deadline
    ensures From(reqs[id := q], Insert(Without(l.tree, InTree(id, reqs[id])), InTree(id, q)), l.next, y)
  {
    var was, it, ny := InTree(id, reqs[id]), InTree(id, q), InTree(y, reqs[y]);
    if l.next.id == id {
      BeforeKeys(l.tree, was, ny);
      FrontLane(reqs, l, id, q);
      var m := l.(tree := Insert(Without(l.tree, was), it));
      InTheTree(reqs[id := q], m, read, id);
      InTheTree(reqs[id := q], m, read, y);
      KeysBefore(m.tree, it, ny);
    } else if y != l.next.id {
      var nx := InTree(l.next.id, reqs[l.next.id]);
      BeforeWithout(l.tree, was, nx, ny);
      BeforeInsert(Without(l.tree, was), it, nx, ny);
    }
  }

  lemma {:induction false} LinedFront(reqs: map<nat, Rq>, l: Lane, m: Lane, read: bool, pos: nat, newer: set<nat>,
                                      mixed: bool, id: nat, q: Rq)
    requires LaneOk(reqs, l, read) && Lined(reqs, l, read, pos, newer, mixed) && id in reqs && q.read == reqs[id].read
    requires q.pos < reqs[id].pos && q.deadline == reqs[id].deadline && m.next == l.next
    requires m.tree == if q.read == read then Insert(Without(l.tree, InTree(id, reqs[id])), InTree(id, q)) else l.tree
    ensures Lined(reqs[id := q], m, read, pos, newer + {id}, mixed)
  {
    var all, since := reqs[id := q], newer + {id};
    forall y | Settled(all, read, pos, since, y)
      ensures From(all, m.tree, m.next, y)
    {
      assert Settled(reqs, read, pos, newer, y);
      if q.read == read { FromFront(reqs, l, read, y, id, q); }
    }
  }

  /** The successor of a node that is removed, and what comes after it. */
  lemma {:induction false} Passed(reqs: map<nat, Rq>, l: Lane, read: bool, id: nat, y: nat)
    requires LaneOk(reqs, l, read) && id in reqs && y in reqs && id != y
    requires Before(l.tree, InTree(id, reqs[id]), InTree(y, reqs[y]))
    ensures From(reqs - {id}, Without(l.tree, InTree(id, reqs[id])), Successor(l.tree, InTree(id, reqs[id])), y)
  {
    var n, ny := InTree(id, reqs[id]), InTree(y, reqs[y]);
    var k := SuccessorBefore(l.tree, n, ny);
    BeforeIn(l.tree, n, k);
    NodeIs(reqs, l, read, k);
    BeforeApart(l.tree, n, k);
    if k != ny { BeforeWithout(l.tree, n, k, ny); }
  }

  lemma {:induction false} BeforeApart(s: seq<Node>, m: Node, n: Node)
    requires Distinct(s) && Before(s, m, n)
    ensures m != n
  {
    if !(s[0] == m && n in s[1..]) { BeforeApart(s[1..], m, n); }
  }

  lemma {:induction false} FromRemove(reqs: map<nat, Rq>, l: Lane, read: bool, id: nat, y: nat)
    requires LaneOk(reqs, l, read) && id in reqs && y != id && From(reqs, l.tree, l.next, y)
    ensures var m := Remove(l, id, reqs[id]); From(reqs - {id}, m.tree, m.next, y)
  {
    if l.next.id == id {
      Passed(reqs, l, read, id, y);
    } else if y != l.next.id {
      BeforeWithout(l.tree, InTree(id, reqs[id]), InTree(l.next.id, reqs[l.next.id]), InTree(y, reqs[y]));
    }
  }

  /** A successor comes after. */
  lemma {:induction false} SuccessorAfter(s: seq<Node>, m: Node) returns (k: Node)
    requires Successor(s, m).Some?
    ensures Successor(s, m) == Some(k.id) && Before(s, m, k)
  {
    if s[0] == m { k := s[1]; } else { k := SuccessorAfter(s[1..], m); }
  }

  lemma {:induction false} SuccessorHigher(reqs: map<nat, Rq>, l: Lane, read: bool, id: nat)
    requires LaneOk(reqs, l, read) && id in reqs && Successor(l.tree, InTree(id, reqs[id])).Some?
    ensures var x := Successor(l.tree, InTree(id, reqs[id])).id; x in reqs && x != id && reqs[x].pos >= reqs[id].pos
  {
    var k := SuccessorAfter(l.tree, InTree(id, reqs[id]));
    BeforeIn(l.tree, InTree(id, reqs[id]), k);
    BeforeKeys(l.tree, InTree(id, reqs[id]), k);
    BeforeApart(l.tree, InTree(id, reqs[id]), k);
    NodeIs(reqs, l, read, k);
  }

  lemma {:induction false} LinedRemove(reqs: map<nat, Rq>, l: Lane, read: bool, pos: nat, newer: set<nat>,
                                       mixed: bool, id: nat)
    requires LaneOk(reqs, l, read) && Lined(reqs, l, read, pos, newer, mixed) && id in reqs && reqs[id].read == read
    ensures Lined(reqs - {id}, Remove(l, id, reqs[id]), read, pos, newer, mixed || id in newer)
  {
    var m := Remove(l, id, reqs[id]);
    forall y | Settled(reqs - {id}, read, pos, newer, y)
      ensures From(reqs - {id}, m.tree, m.next, y)
    {
      assert Settled(reqs, read, pos, newer, y);
      FromRemove(reqs, l, read, id, y);
    }
    if l.next == Some(id) && m.next.Some? { SuccessorHigher(reqs, l, read, id); }
  }

  lemma {:induction false} LinedLeave(reqs: map<nat, Rq>, l: Lane, read: bool, pos: nat, newer: set<nat>,
                                      mixed: bool, more: bool, id: nat)
    requires LaneOk(reqs, l, read) && Lined(reqs, l, read, pos, newer, mixed) && id in reqs && reqs[id].read != read
    requires mixed ==> more
    ensures Lined(reqs - {id}, l, read, pos, newer, more)
  {
    forall y | Settled(reqs - {id}, read, pos, newer, y)
      ensures From(reqs - {id}, l.tree, l.next, y)
    {
      assert Settled(reqs, read, pos, newer, y);
    }
  }

  /** After a dispatch next_rq is the first of those beyond. */
  lemma {:induction false} LinedMove(reqs: map<nat, Rq>, l: Lane, read: bool, id: nat)
    requires LaneOk(reqs, l, read) && id in reqs && reqs[id].read == read
    ensures Lined(reqs - {id}, Remove(l.(next := Successor(l.tree, InTree(id, reqs[id]))), id, reqs[id]), read,
                  reqs[id].pos, {}, false)
  {
    var n := InTree(id, reqs[id]);
    var m := Remove(l.(next := Successor(l.tree, n)), id, reqs[id]);
    if Successor(l.tree, n).Some? { SuccessorHigher(reqs, l, read, id); }
    assert m.next == Successor(l.tree, n);
    forall y | Settled(reqs - {id}, read, reqs[id].pos, {}, y)
      ensures From(reqs - {id}, m.tree, m.next, y)
    {
      InTheTree(reqs, l, read, id);
      InTheTree(reqs, l, read, y);
      KeysBefore(l.tree, n, InTree(y, reqs[y]));
      Passed(reqs, l, read, id, y);
    }
  }
}
