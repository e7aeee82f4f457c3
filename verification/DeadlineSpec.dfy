/**
 The deadline I/O scheduler (block/deadline-iosched.c), as functions on its state. Each
 request waits in the FIFO and in the sort tree of its direction; dispatch follows the
 sort order in batches, and goes back to the FIFO when a deadline has passed or a batch
 is over.
 */
module DeadlineSpec {
  import opened Lists
  import opened SearchTree

  datatype Rq = Rq(read: bool, pos: nat, sectors: nat, deadline: nat)

  /** fifo_expire for reads and writes, fifo_batch and writes_starved. */
  datatype Tunables = Tunables(readExpire: nat, writeExpire: nat, fifoBatch: nat, writesStarved: nat)

  /** One direction: FIFO by deadline, sort tree by position, and next_rq. */
  datatype Lane = Lane(fifo: seq<Node>, tree: seq<Node>, next: Maybe)

  /** `queue` is the dispatch queue and `reqs` are the requests not yet on it. */
  datatype Sched = Sched(tun: Tunables, reqs: map<nat, Rq>, r: Lane, w: Lane, batching: nat, starved: nat,
                         lastSector: nat, nrSorted: nat, queue: seq<nat>)

  function LaneOf(d: Sched, read: bool): Lane { if read then d.r else d.w }

  function WithLane(d: Sched, read: bool, l: Lane): Sched { if read then d.(r := l) else d.(w := l) }

  function Expire(t: Tunables, read: bool): nat { if read then t.readExpire else t.writeExpire }

  /** A request's node in the FIFO (by deadline) or in the tree (by position). */
  function NodeOf(id: nat, q: Rq, byTime: bool): Node { Node(if byTime then q.deadline else q.pos, id) }

  function InFifo(id: nat, q: Rq): Node { NodeOf(id, q, true) }

  function InTree(id: nat, q: Rq): Node { NodeOf(id, q, false) }

  // ----- insertion and merging

  /** deadline_add_request. */
  function Add(d: Sched, id: nat, read: bool, pos: nat, sectors: nat, now: nat): Sched {
    var q := Rq(read, pos, sectors, now + Expire(d.tun, read));
    var l := LaneOf(d, read);
    WithLane(d, read, l.(tree := Insert(l.tree, InTree(id, q)), fifo := l.fifo + [InFifo(id, q)]))
      .(reqs := d.reqs[id := q], nrSorted := d.nrSorted + 1)
  }

  /** The record of a request after a front merge of `n` sectors. */
  function Extended(q: Rq, n: nat): Rq
    requires n <= q.pos
  {
    q.(pos := q.pos - n, sectors := q.sectors + n)
  }

  /** A request with a new position is repositioned in the tree. */
  function Repositioned(d: Sched, id: nat, t: Rq): Sched
    requires id in d.reqs
  {
    var l := LaneOf(d, t.read);
    var tree := Insert(Without(l.tree, InTree(id, d.reqs[id])), InTree(id, t));
    WithLane(d, t.read, l.(tree := tree)).(reqs := d.reqs[id := t])
  }

  /** deadline_merged_request after a front merge of `n` sectors. */
  function FrontMerge(d: Sched, id: nat, n: nat): Sched
    requires id in d.reqs && n <= d.reqs[id].pos
  {
    Repositioned(d, id, Extended(d.reqs[id], n))
  }

  function BackMerge(d: Sched, id: nat, n: nat): Sched
    requires id in d.reqs
  {
    d.(reqs := d.reqs[id := d.reqs[id].(sectors := d.reqs[id].sectors + n)])
  }

  /** deadline_remove_request: off the FIFO and the tree; next_rq moves on. */
  function Remove(l: Lane, id: nat, q: Rq): Lane {
    Lane(Without(l.fifo, InFifo(id, q)), Without(l.tree, InTree(id, q)),
         if l.next == Some(id) then Successor(l.tree, InTree(id, q)) else l.next)
  }

  /** `n` right after `m`. */
  function InsertAfter(s: seq<Node>, n: Node, m: Node): seq<Node> {
    if s == [] then [] else if s[0] == m then [m, n] + s[1..] else [s[0]] + InsertAfter(s[1..], n, m)
  }

  /** The record of a request that has absorbed another: the earlier deadline is kept. */
  function Joined(a: Rq, b: Rq): Rq {
    a.(sectors := a.sectors + b.sectors, deadline := if b.deadline < a.deadline then b.deadline else a.deadline)
  }

  /** The first half of deadline_merged_requests: `req` takes over the deadline of `next`
      and its place in the FIFO, if that is earlier. */
  function Absorbed(d: Sched, req: nat, next: nat): Sched
    requires req in d.reqs && next in d.reqs
  {
    var a, b := d.reqs[req], d.reqs[next];
    var l := LaneOf(d, a.read);
    var m := if b.deadline < a.deadline then l.(fifo := Adopted(l.fifo, req, next, a, b)) else l;
    WithLane(d, a.read, m).(reqs := d.reqs[req := Joined(a, b)])
  }

  /** `req` moves behind `next`, with its deadline. */
  function Adopted(fifo: seq<Node>, req: nat, next: nat, a: Rq, b: Rq): seq<Node> {
    InsertAfter(Without(fifo, InFifo(req, a)), Node(b.deadline, req), InFifo(next, b))
  }

  /** A request that has been absorbed is gone. */
  function Discarded(d: Sched, id: nat): Sched
    requires id in d.reqs
  {
    var q := d.reqs[id];
    WithLane(d, q.read, Remove(LaneOf(d, q.read), id, q))
      .(reqs := d.reqs - {id}, nrSorted := if d.nrSorted > 0 then d.nrSorted - 1 else 0)
  }

  /** deadline_merged_requests: `req` has absorbed `next`. */
  function MergeNext(d: Sched, req: nat, next: nat): Sched
    requires req in d.reqs && next in d.reqs
  {
    Discarded(Absorbed(d, req, next), next)
  }

  // ----- dispatch

  /** deadline_move_request: to the end of the dispatch queue. */
  function Move(d: Sched, id: nat): Sched
    requires id in d.reqs
  {
    var q := d.reqs[id];
    var next := Successor(LaneOf(d, q.read).tree, InTree(id, q));
    var t := d.(r := d.r.(next := None), w := d.w.(next := None));
    WithLane(t, q.read, Remove(LaneOf(t, q.read).(next := next), id, q))
      .(reqs := d.reqs - {id}, lastSector := q.pos + q.sectors,
        nrSorted := if d.nrSorted > 0 then d.nrSorted - 1 else 0, queue := d.queue + [id])
  }

  /** deadline_check_fifo: the first request has expired. */
  predicate Expired(l: Lane, now: nat)
    requires l.fifo != []
  {
    l.fifo[0].key < now
  }

  /** The choice made by deadline_dispatch_requests: nothing, or a request, with the new
      batch and starvation counts. */
  datatype Choice = Nothing | Take(id: nat, batching: nat, starved: nat)

  function Batched(d: Sched): Maybe { if d.w.next.Some? then d.w.next else d.r.next }

  /** dispatch_find_request. */
  function Find(l: Lane, now: nat): nat
    requires l.fifo != []
  {
    if Expired(l, now) || l.next.None? then l.fifo[0].id else l.next.id
  }

  function Choose(d: Sched, now: nat): Choice {
    if Batched(d).Some? && d.batching < d.tun.fifoBatch then Take(Batched(d).id, d.batching + 1, d.starved)
    else if d.r.fifo != [] && d.w.fifo == [] then Take(Find(d.r, now), 1, d.starved)
    else if d.r.fifo != [] && d.starved < d.tun.writesStarved then Take(Find(d.r, now), 1, d.starved + 1)
    else if d.w.fifo != [] then Take(Find(d.w, now), 1, 0)
    else Nothing
  }

  /** deadline_dispatch_requests. */
  function Dispatch(d: Sched, now: nat): Sched {
    match Choose(d, now)
    case Nothing => d
    case Take(id, batching, starved) =>
      if id in d.reqs then Move(d, id).(batching := batching, starved := starved) else d
  }
}
