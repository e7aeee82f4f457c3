/**
 struct request as the block layer updates it in place: the counting and mapping
 loops of block/blk-merge.c, the merges, and the completion loop of block/blk-core.c.
 */
module BlkRequest {
  import opened BlockTypes
  import opened Numbers
  import opened Segments
  import opened SegmentParts
  import opened Merging
  import opened Completion

  /** Where `vs[i..]` stands when the counting loop has an open segment of `size`
      bytes ending in `prev` and has counted `n` segments. */
  ghost predicate Counting(q: Queue, vs: seq<Vec>, i: nat, n: nat, prev: Vec, size: nat, front0: nat, front: nat)
    requires i <= |vs|
  {
    var brk := LowBreaks(q, prev, size, vs[i..]);
    && Count(q, vs) == n + Breaks(brk)
    && CountLast(q, vs) == LastLen(size, vs[i..], brk)
    && n >= 1
    && (if n == 1 then front == front0 && CountFirst(q, vs) == FirstLen(size, vs[i..], brk)
        else front == Max(front0, CountFirst(q, vs)))
  }

  /** The loop of __blk_recalc_rq_segments over all the vectors of a chain, `front`
      being the first bio's hint. */
  method CountSegments(q: Queue, vs: seq<Vec>, front0: nat) returns (n: nat, front: nat, size: nat)
    ensures n == Count(q, vs)
    ensures front == Max(front0, CountFirst(q, vs))
    ensures size == CountLast(q, vs)
  {
    n, front, size := 0, front0, 0;
    var highprv := true;
    for i := 0 to |vs|
      invariant i == 0 ==> n == 0 && size == 0 && highprv && front == front0
      invariant i > 0 ==> Counting(q, vs, i, n, vs[i - 1], size, front0, front) && highprv == q.high(vs[i - 1])
    {
      var v, high := vs[i], q.high(vs[i]);
      assert vs[i..][1..] == vs[i + 1..];
      if !high && !highprv && q.cluster && size + v.len <= q.maxSegmentSize &&
         PhysMergeable(q, vs[i - 1], v) && q.boundaryOk(vs[i - 1], v) {
        size := size + v.len;
      } else {
        if n == 1 && size > front {
          front := size;
        }
        n, size, highprv := n + 1, v.len, high;
      }
    }
    assert vs[|vs|..] == [];
    if n == 1 && size > front {
      front := size;
    }
  }

  /** blk_recount_segments: the count of a bio on its own, and the bio with its hints. */
  method RecountBio(q: Queue, b: Bio) returns (n: nat, link: Bios)
    ensures n == Count(q, Todo(b)) && link == Hinted(q, Link(b, Null))
  {
    var front, size;
    n, front, size := CountSegments(q, Todo(b), b.segFront);
    link := Link(b.(segFront := front, segBack := if size > b.segBack then size else b.segBack), Null);
    assert AllTodo(Link(b, Null)) == Todo(b);
  }

  /** The entries `sg` have been written for the first `i` vectors; the last may still grow. */
  ghost predicate Filled(q: Queue, vs: seq<Vec>, sg: seq<Vec>, i: nat) {
    && i <= |vs| && (i == 0 <==> sg == [])
    && (i > 0 ==> MapSg(q, vs) == sg[..|sg| - 1] + Gather(q, sg[|sg| - 1], vs[i - 1], vs[i..]))
  }

  /** The next vector joins the last entry or starts a new one. */
  function Extended(q: Queue, vs: seq<Vec>, sg: seq<Vec>, i: nat): seq<Vec>
    requires i < |vs|
  {
    if i > 0 && sg != [] && Joins(q, vs[i - 1], sg[|sg| - 1].len, vs[i])
    then sg[..|sg| - 1] + [Vec(sg[|sg| - 1].addr, sg[|sg| - 1].len + vs[i].len)]
    else sg + [vs[i]]
  }

  lemma {:induction false} FilledNext(q: Queue, vs: seq<Vec>, sg: seq<Vec>, i: nat, k: nat)
    requires Filled(q, vs, sg, i) && i < |vs| && k == i + 1
    ensures Filled(q, vs, Extended(q, vs, sg, i), k) && |Extended(q, vs, sg, i)| <= |MapSg(q, vs)|
  {
    assert vs[i..][0] == vs[i] && vs[i..][1..] == vs[k..];
    if i > 0 {
      var n, open := |sg| - 1, sg[|sg| - 1];
      assert sg == sg[..n] + [open];
      assert (sg + [vs[i]])[..|sg|] == sg;
      Associate(sg[..n], [open], Gather(q, vs[i], vs[i], vs[k..]));
    }
  }

  /** One turn of the loop of blk_rq_map_sg: the entry is extended or written. */
  method FillNext(q: Queue, vs: seq<Vec>, sglist: array<Vec>, nsegs: nat, i: nat) returns (n: nat)
    requires i < |vs| && nsegs <= sglist.Length && (i == 0 <==> nsegs == 0)
    requires |Extended(q, vs, sglist[..nsegs], i)| <= sglist.Length
    modifies sglist
    ensures nsegs <= n <= sglist.Length && sglist[..n] == Extended(q, vs, old(sglist[..nsegs]), i)
    ensures sglist[n..] == old(sglist[n..])
  {
    ghost var sg := sglist[..nsegs];
    if i > 0 && Joins(q, vs[i - 1], sglist[nsegs - 1].len, vs[i]) {
      n := nsegs;
      sglist[n - 1] := Vec(sglist[n - 1].addr, sglist[n - 1].len + vs[i].len);
    } else {
      assert Extended(q, vs, sg, i) == sg + [vs[i]];
      n := nsegs + 1;
      sglist[n - 1] := vs[i];
    }
  }

  /** The loop of blk_rq_map_sg: writes the scatterlist entry by entry. */
  method FillSg(q: Queue, vs: seq<Vec>, sglist: array<Vec>) returns (nsegs: nat)
    requires |MapSg(q, vs)| <= sglist.Length
    modifies sglist
    ensures nsegs <= sglist.Length && sglist[..nsegs] == MapSg(q, vs) && Maps(q, vs, sglist[..nsegs])
    ensures sglist[nsegs..] == old(sglist[nsegs..])
  {
    ghost var was := sglist[..];
    nsegs := 0;
    var i := 0;
    while i < |vs|
      invariant nsegs <= sglist.Length && Filled(q, vs, sglist[..nsegs], i)
      invariant SameFrom(sglist[..], was, nsegs)
    {
      var k, n := i + 1, nsegs;
      ghost var s := sglist[..];
      FilledNext(q, vs, s[..n], i, k);
      nsegs := FillNext(q, vs, sglist, n, i);
      StillSame(sglist[..], s, was, n, nsegs);
      i := k;
    }
    FilledAll(q, vs, sglist[..nsegs]);
    MapSgMaps(q, vs);
  }

  predicate SameFrom(s: seq<Vec>, t: seq<Vec>, n: nat) { |s| == |t| && n <= |s| && s[n..] == t[n..] }

  lemma {:induction false} StillSame(r: seq<Vec>, s: seq<Vec>, t: seq<Vec>, n: nat, m: nat)
    requires SameFrom(s, t, n) && SameFrom(r, s, m) && n <= m
    ensures SameFrom(r, t, m)
  {
    assert s[m..] == s[n..][m - n..] && t[m..] == t[n..][m - n..];
  }

  lemma {:induction false} FilledAll(q: Queue, vs: seq<Vec>, sg: seq<Vec>)
    requires Filled(q, vs, sg, |vs|)
    ensures sg == MapSg(q, vs)
  {
    assert vs[|vs|..] == [];
  }

  // ----- the completion loop

  lemma {:induction false} LenStep(vs: seq<Vec>, k: nat)
    requires k < |vs|
    ensures Len(vs[..k + 1]) == Len(vs[..k]) + vs[k].len
    ensures Len(vs[..k + 1]) + Len(vs[k + 1..]) == Len(vs)
  {
    if k == 0 {
      assert vs[..1][1..] == [];
    } else {
      LenStep(vs[1..], k - 1);
      assert vs[..k + 1][1..] == vs[1..][..k] && vs[..k][1..] == vs[1..][..k - 1];
      assert vs[k + 1..] == vs[1..][k..];
    }
  }

  /** Where a partial completion lands: inside vector `k`, `n` bytes into it. */
  lemma {:induction false} DropAt(vs: seq<Vec>, k: nat, n: nat)
    requires k < |vs| && Positive(vs) && n < vs[k].len
    ensures Len(vs[..k]) + n <= Len(vs)
    ensures Drop(vs, Len(vs[..k]) + n) == if n == 0 then vs[k..] else [Vec(vs[k].addr + n, vs[k].len - n)] + vs[k + 1..]
  {
    LenStep(vs, k);
    if k > 0 {
      DropAt(vs[1..], k - 1, n);
      assert vs[..k][1..] == vs[1..][..k - 1];
      assert vs[1..][k - 1..] == vs[k..] && vs[1..][k..] == vs[k + 1..];
      assert Drop(vs, Len(vs[..k]) + n) == Drop(vs[1..], Len(vs[1..][..k - 1]) + n);
    }
  }

  /** The in-place update of a partly completed bio: `k` whole vectors and `n` bytes. */
  function Trim(b: Bio, k: nat, n: nat, done: nat, error: int): Bio
    requires b.idx + k < |b.vecs| && n < b.vecs[b.idx + k].len && done <= b.size
  {
    var i := b.idx + k;
    var v := b.vecs[i];
    Charge(b, done, error).(idx := i, vecs := b.vecs[i := Vec(v.addr + n, v.len - n)])
  }

  lemma {:induction false} TrimVecs(vecs: seq<Vec>, idx: nat, k: nat, n: nat, rest: seq<Vec>)
    requires idx + k < |vecs| && n < vecs[idx + k].len
    requires var v := vecs[idx + k];
             rest == if n == 0 then vecs[idx..][k..] else [Vec(v.addr + n, v.len - n)] + vecs[idx..][k + 1..]
    ensures |vecs| - |rest| == idx + k
    ensures var v := vecs[idx + k];
            vecs[..idx + k] + rest == vecs[idx + k := Vec(v.addr + n, v.len - n)]
  {
  }

  /** DropAt for the vectors of a bio, by their place in the bio. */
  lemma {:induction false} DropVecs(vecs: seq<Vec>, idx: nat, k: nat, n: nat)
    requires idx + k < |vecs| && n < vecs[idx + k].len && Positive(vecs[idx..])
    ensures Len(vecs[idx..][..k]) + n <= Len(vecs[idx..])
    ensures var rest := Drop(vecs[idx..], Len(vecs[idx..][..k]) + n);
            var v := vecs[idx + k];
            |vecs| - |rest| == idx + k && vecs[..idx + k] + rest == vecs[idx + k := Vec(v.addr + n, v.len - n)]
  {
    DropAt(vecs[idx..], k, n);
    TrimVecs(vecs, idx, k, n, Drop(vecs[idx..], Len(vecs[idx..][..k]) + n));
  }

  lemma {:induction false} TrimIsAdvance(b: Bio, k: nat, n: nat, done: nat, error: int)
    requires Intact(b) && b.idx + k < |b.vecs| && n < b.vecs[b.idx + k].len && 0 < done < b.size
    requires done == Len(Todo(b)[..k]) + n
    ensures Trim(b, k, n, done, error) == Advance(b, done, error)
  {
    DropVecs(b.vecs, b.idx, k, n);
    var v := b.vecs[b.idx + k];
    AdvanceIs(b, done, error, b.idx + k, b.vecs[b.idx + k := Vec(v.addr + n, v.len - n)]);
  }

  lemma {:induction false} AdvanceIs(b: Bio, n: nat, error: int, idx: nat, vecs: seq<Vec>)
    requires Intact(b) && 0 < n < b.size
    requires |b.vecs| - |Drop(Todo(b), n)| == idx && b.vecs[..idx] + Drop(Todo(b), n) == vecs
    ensures Advance(b, n, error) == Charge(b, n, error).(idx := idx, vecs := vecs)
  {
  }

  lemma {:induction false} PositiveAt(vs: seq<Vec>, k: nat)
    requires Positive(vs) && k < |vs|
    ensures 0 < vs[k].len
  {
    if k > 0 { PositiveAt(vs[1..], k - 1); }
  }

  /** Short of the bio's size there is a further, non-empty vector. */
  lemma {:induction false} NextVector(b: Bio, k: nat)
    requires Intact(b) && b.idx + k <= |b.vecs| && Len(Todo(b)[..k]) < b.size
    ensures b.idx + k < |b.vecs| && 0 < b.vecs[b.idx + k].len
    ensures Len(Todo(b)[..k + 1]) == Len(Todo(b)[..k]) + b.vecs[b.idx + k].len
  {
    assert Todo(b)[..|Todo(b)|] == Todo(b);
    PositiveAt(Todo(b), k);
    LenStep(Todo(b), k);
  }

  lemma {:induction false} AppendNull(bs: Bios)
    ensures Append(bs, Null) == bs
  {
    if bs.Link? { AppendNull(bs.next); }
  }

  /** The completion loop's variables. */
  datatype Cursor = Cursor(done: Bios, left: Bios, total: nat, bioNbytes: nat, nextIdx: nat, n: nat)

  /** The loop is before vector `nextIdx` of the first bio left, `bioNbytes` into it,
      and what remains to be done completes the walk. */
  ghost predicate Running(w: Walk, c: Cursor, error: int) {
    && c.left.Link? && BiosOk(c.left) && c.bioNbytes <= c.total
    && w == Glue(Walk(c.done, c.left, c.total - c.bioNbytes), WalkBios(c.left, c.n + c.bioNbytes, error))
    && AtVector(c.left.bio, c.nextIdx, c.bioNbytes, c.n)
  }

  ghost predicate AtVector(b: Bio, k: nat, done: nat, n: nat) {
    if k == 0 then done == 0
    else Intact(b) && n + done < b.size && b.idx + k <= |b.vecs| && done == Len(Todo(b)[..k])
  }

  /** The loop is over; the first bio left may still have to be trimmed. */
  ghost predicate Stopped(w: Walk, c: Cursor, error: int) {
    if c.left.Null? || c.bioNbytes == 0 then w == Walk(c.done, c.left, c.total)
    else
      var b := c.left.bio;
      && Intact(b) && c.bioNbytes < b.size
      && b.idx + c.nextIdx < |b.vecs| && c.n < b.vecs[b.idx + c.nextIdx].len
      && c.bioNbytes == Len(Todo(b)[..c.nextIdx]) + c.n
      && w == Walk(c.done, Link(Advance(b, c.bioNbytes, error), c.left.next), c.total)
  }

  /** The whole first bio is done. */
  function FinishBio(c: Cursor, error: int): Cursor
    requires c.left.Link? && c.left.bio.size <= c.n
  {
    var b := c.left.bio;
    Cursor(Append(c.done, Link(Charge(b, b.size, error), Null)), c.left.next, c.total + b.size, 0, 0, c.n - b.size)
  }

  lemma {:induction false} FinishBioStep(w: Walk, c: Cursor, error: int)
    requires Running(w, c, error) && c.left.bio.size <= c.n
    ensures var d := FinishBio(c, error);
            if d.left.Null? || d.n == 0 then d.bioNbytes == 0 && w == Walk(d.done, d.left, d.total)
            else Running(w, d, error)
  {
    var d := FinishBio(c, error);
    var last := Link(Charge(c.left.bio, c.left.bio.size, error), Null);
    assert c.nextIdx == 0 && c.bioNbytes == 0;
    if d.left.Link? && d.n > 0 {
      AppendAssoc(c.done, last, WalkBios(d.left, d.n, error).done);
    }
  }

  /** The bytes to go end inside the next vector. */
  function StopInVector(c: Cursor): Cursor {
    c.(bioNbytes := c.bioNbytes + c.n, total := c.total + c.n)
  }

  /** The whole next vector, of `len` bytes, is done. */
  function TakeVector(c: Cursor, len: nat): Cursor
    requires len <= c.n
  {
    c.(nextIdx := c.nextIdx + 1, bioNbytes := c.bioNbytes + len, total := c.total + len, n := c.n - len)
  }

  lemma {:induction false} RunningVector(w: Walk, c: Cursor, error: int)
    requires Running(w, c, error) && c.n < c.left.bio.size
    ensures Intact(c.left.bio) && c.bioNbytes == Len(Todo(c.left.bio)[..c.nextIdx]) &&
            c.n + c.bioNbytes < c.left.bio.size
    ensures c.left.bio.idx + c.nextIdx < |c.left.bio.vecs|
    ensures w == Walk(c.done, Link(Advance(c.left.bio, c.n + c.bioNbytes, error), c.left.next), c.total + c.n)
  {
    NextVector(c.left.bio, c.nextIdx);
    AppendNull(c.done);
  }

  lemma {:induction false} StopStep(w: Walk, c: Cursor, error: int)
    requires Running(w, c, error) && c.n < c.left.bio.size
    requires c.left.bio.idx + c.nextIdx < |c.left.bio.vecs| && c.n < c.left.bio.vecs[c.left.bio.idx + c.nextIdx].len
    ensures Stopped(w, StopInVector(c), error)
  {
    RunningVector(w, c, error);
  }

  lemma {:induction false} VectorRuns(w: Walk, c: Cursor, error: int, len: nat)
    requires Running(w, c, error) && c.n < c.left.bio.size && c.left.bio.idx + c.nextIdx < |c.left.bio.vecs|
    requires len == c.left.bio.vecs[c.left.bio.idx + c.nextIdx].len <= c.n
    ensures Running(w, TakeVector(c, len), error)
  {
    RunningVector(w, c, error);
    NextVector(c.left.bio, c.nextIdx);
    NextVector(c.left.bio, c.nextIdx + 1);
  }

  lemma {:induction false} VectorStops(w: Walk, c: Cursor, error: int)
    requires Running(w, c, error) && c.n == 0 && c.bioNbytes > 0 && c.left.bio.size > 0
    ensures Stopped(w, c, error)
  {
    RunningVector(w, c, error);
    NextVector(c.left.bio, c.nextIdx);
  }

  lemma {:induction false} VectorStep(w: Walk, c: Cursor, error: int)
    requires Running(w, c, error) && c.n < c.left.bio.size && c.left.bio.idx + c.nextIdx < |c.left.bio.vecs|
    requires c.left.bio.vecs[c.left.bio.idx + c.nextIdx].len <= c.n
    ensures var d := TakeVector(c, c.left.bio.vecs[c.left.bio.idx + c.nextIdx].len);
            Running(w, d, error) && (d.n == 0 ==> Stopped(w, d, error))
  {
    var len := c.left.bio.vecs[c.left.bio.idx + c.nextIdx].len;
    VectorRuns(w, c, error, len);
    if TakeVector(c, len).n == 0 { VectorStops(w, TakeVector(c, len), error); }
  }

  function Room(c: Cursor): nat {
    if c.left.Link? && c.nextIdx <= |c.left.bio.vecs| then |c.left.bio.vecs| - c.nextIdx else 0
  }

  /** An iteration of the loop of blk_update_request that finishes a bio. */
  method BioStep(c: Cursor, flushSeq: bool, error: int, ghost goal: Walk)
    returns (d: Cursor, stop: bool, ended: seq<End>)
    requires Running(goal, c, error) && c.n >= c.left.bio.size
    ensures if stop then Stopped(goal, d, error) else Running(goal, d, error)
    ensures Ends(c.done, flushSeq, error) + ended == Ends(d.done, flushSeq, error) && d.left == c.left.next
  {
    var b := c.left.bio;
    FinishBioStep(goal, c, error);
    EndsAppend(c.done, Link(Charge(b, b.size, error), Null), flushSeq, error);
    d := FinishBio(c, error);
    ended := if flushSeq then [] else [End(b.id, Status(b, error))];
    stop := d.left.Null? || d.n == 0;
  }

  /** An iteration that takes the next vector, or stops inside it. */
  method PartStep(c: Cursor, error: int, ghost goal: Walk) returns (d: Cursor, stop: bool)
    requires Running(goal, c, error) && c.n < c.left.bio.size
    ensures if stop then Stopped(goal, d, error) else Running(goal, d, error)
    ensures d.done == c.done && d.left == c.left && (stop || Room(d) < Room(c))
  {
    var b := c.left.bio;
    RunningVector(goal, c, error);
    var len := b.vecs[b.idx + c.nextIdx].len;
    if len > c.n {
      StopStep(goal, c, error);
      d, stop := StopInVector(c), true;
    } else {
      VectorStep(goal, c, error);
      d := TakeVector(c, len);
      stop := d.n == 0;
    }
  }

  /** One iteration of the loop of blk_update_request. */
  method LoopStep(c: Cursor, flushSeq: bool, error: int, ghost goal: Walk)
    returns (d: Cursor, stop: bool, ended: seq<End>)
    requires Running(goal, c, error)
    ensures if stop then Stopped(goal, d, error) else Running(goal, d, error)
    ensures Ends(c.done, flushSeq, error) + ended == Ends(d.done, flushSeq, error)
    ensures d.left < c.left || (d.left == c.left && (stop || Room(d) < Room(c)))
  {
    if c.n >= c.left.bio.size {
      d, stop, ended := BioStep(c, flushSeq, error, goal);
    } else {
      d, stop := PartStep(c, error, goal);
      ended := [];
    }
  }

  /** The loop of blk_update_request: what it consumes of `bs` and what it leaves,
      with the current bio updated in place at the end. */
  method WalkLoop(bs: Bios, nr: nat, flushSeq: bool, error: int) returns (w: Walk, ended: seq<End>)
    requires bs.Link? && BiosOk(bs)
    ensures w == WalkBios(bs, nr, error) && ended == Ends(w.done, flushSeq, error)
  {
    var c, stop := Cursor(Null, bs, 0, 0, 0, nr), false;
    ended := [];
    ghost var goal := WalkBios(bs, nr, error);
    while !stop
      invariant ended == Ends(c.done, flushSeq, error)
      invariant if stop then Stopped(goal, c, error) else Running(goal, c, error)
      decreases c.left, !stop, Room(c)
    {
      var e;
      c, stop, e := LoopStep(c, flushSeq, error, goal);
      ended := ended + e;
    }
    if c.left.Link? && c.bioNbytes != 0 {
      TrimIsAdvance(c.left.bio, c.nextIdx, c.n, c.bioNbytes, error);
      c := c.(left := Link(Trim(c.left.bio, c.nextIdx, c.n, c.bioNbytes, error), c.left.next));
    }
    w := Walk(c.done, c.left, c.total);
  }

  class Request {
    var done: Bios
    var bios: Bios
    var sector: nat
    var dataLen: nat
    var nrSegs: nat
    var flushSeq: bool
    var fs: bool
    /** The bio_endio calls made so far. */
    var ended: seq<End>

    ghost function View(): BlockTypes.Request
      reads this
    {
      BlockTypes.Request(done, bios, sector, dataLen, nrSegs, flushSeq, fs)
    }

    constructor (q: Queue, b: Bio)
      ensures View() == FromBio(q, b) && ended == []
    {
      var n, link := RecountBio(q, b);
      done, bios := Null, link;
      sector, dataLen, nrSegs, flushSeq, fs, ended := b.sector, b.size, n, false, true, [];
    }

    /** blk_recalc_rq_segments. */
    method RecalcSegments(q: Queue)
      modifies this`bios, this`nrSegs
      ensures bios == Hinted(q, old(bios)) && nrSegs == Count(q, AllTodo(old(bios)))
    {
      if bios.Null? {
        nrSegs := 0;
      } else {
        var n, front, size := CountSegments(q, AllTodo(bios), bios.bio.segFront);
        var back := if size > Tail(bios).segBack then size else Tail(bios).segBack;
        bios := WithBack(WithFront(bios, front), back);
        nrSegs := n;
      }
    }

    /** blk_rq_map_sg: the caller provides room for the kept number of segments, and
        that is always enough. */
    method MapSg(q: Queue, sglist: array<Vec>) returns (nsegs: nat)
      requires bios.Link? ==> Tallied(q, bios, nrSegs) && nrSegs <= sglist.Length
      modifies sglist
      ensures nsegs <= sglist.Length && sglist[..nsegs] == Segments.MapSg(q, AllTodo(bios))
      ensures bios.Link? ==> nsegs <= nrSegs && Bytes(sglist[..nsegs]) == Bytes(AllTodo(bios))
      ensures Maps(q, AllTodo(bios), sglist[..nsegs])
      ensures sglist[nsegs..] == old(sglist[nsegs..])
    {
      if bios.Link? {
        CountedBoundsMapSg(q, AllTodo(bios), nrSegs, bios.bio.segFront, Tail(bios).segBack);
      }
      nsegs := FillSg(q, AllTodo(bios), sglist);
    }

    /** bio_attempt_back_merge and ll_back_merge_fn. */
    method BackMerge(q: Queue, b: Bio) returns (merged: bool)
      modifies this`bios, this`dataLen, this`nrSegs
      ensures View() == AttemptBack(q, old(View()), b).rq && merged == AttemptBack(q, old(View()), b).merged
    {
      var n, link := RecountBio(q, b);
      if Sectors(dataLen) + Sectors(b.size) > q.maxSectors || nrSegs + n > q.maxSegments {
        return false;
      }
      bios := Append(bios, link);
      dataLen, nrSegs := dataLen + b.size, nrSegs + n;
      return true;
    }

    /** bio_attempt_front_merge and ll_front_merge_fn. */
    method FrontMerge(q: Queue, b: Bio) returns (merged: bool)
      modifies this`bios, this`sector, this`dataLen, this`nrSegs
      ensures View() == AttemptFront(q, old(View()), b).rq && merged == AttemptFront(q, old(View()), b).merged
    {
      var n, link := RecountBio(q, b);
      if Sectors(dataLen) + Sectors(b.size) > q.maxSectors || nrSegs + n > q.maxSegments {
        return false;
      }
      bios := Append(link, bios);
      sector, dataLen, nrSegs := b.sector, dataLen + b.size, nrSegs + n;
      return true;
    }

    /** attempt_merge with ll_merge_requests_fn: `next` is emptied when it is taken in. */
    method MergeNext(q: Queue, next: Request, compatible: bool) returns (merged: bool)
      requires this != next && Joinable(View(), next.View())
      modifies this`bios, this`dataLen, this`nrSegs, next`bios
      ensures var j := AttemptJoin(q, old(View()), old(next.View()), compatible);
              View() == j.rq && next.View() == j.next && merged == j.merged
    {
      if !compatible || sector + Sectors(dataLen) != next.sector ||
         Sectors(dataLen) + Sectors(next.dataLen) > q.maxSectors {
        return false;
      }
      var size := Tail(bios).segBack + next.bios.bio.segFront;
      var total := nrSegs + next.nrSegs;
      if PhysContig(q, Tail(bios), next.bios.bio) {
        if nrSegs == 1 { bios := WithFront(bios, size); }
        if next.nrSegs == 1 { next.bios := WithBack(next.bios, size); }
        total := total - 1;
      }
      if total > q.maxSegments {
        return false;
      }
      nrSegs, dataLen := total, dataLen + next.dataLen;
      bios, next.bios := Append(bios, next.bios), Null;
      return true;
    }

    /** The end of blk_update_request: `total` bytes are gone, some remain. */
    method Adjust(q: Queue, total: nat)
      requires bios.Link? && total <= dataLen
      modifies `bios, `sector, `dataLen, `nrSegs
      ensures View() == old(View()).(bios := Hinted(q, old(bios)), nrSegs := Count(q, AllTodo(old(bios))),
                                     dataLen := Max(old(dataLen) - total, CurBytes(old(bios).bio)),
                                     sector := if fs then old(sector) + Sectors(total) else old(sector))
    {
      dataLen := dataLen - total;
      if fs {
        sector := sector + Sectors(total);
      }
      if dataLen < CurBytes(bios.bio) {
        dataLen := CurBytes(bios.bio);
      }
      RecalcSegments(q);
    }

    /** blk_update_request: completes `nr` bytes; false when nothing is left. */
    method UpdateRequest(q: Queue, error: int, nr: nat) returns (more: bool)
      requires RequestOk(View())
      modifies this
      ensures var u := Completion.UpdateRequest(q, old(View()), error, nr);
              View() == u.rq && more == u.more && ended == old(ended) + u.ended
    {
      if bios.Null? {
        return false;
      }
      var w, e := WalkLoop(bios, nr, flushSeq, error);
      WalkConserves(bios, nr, error);
      done, bios, ended := Append(done, w.done), w.left, ended + e;
      if bios.Null? {
        dataLen := 0;
        return false;
      }
      Adjust(q, w.total);
      return true;
    }
  }
}
