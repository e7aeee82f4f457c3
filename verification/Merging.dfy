/**
 Merging bios and requests (block/blk-merge.c, block/blk-core.c, block/elevator.c).
 Every operation returns the request as the code leaves it, also when the merge is
 refused.
 */
module Merging {
  import opened BlockTypes
  import opened Segments

  datatype Verdict = NoMerge | BackMerge | FrontMerge

  /** A merge attempt on a request: whether it took place, and the request afterwards. */
  datatype Attempt = Attempt(merged: bool, rq: Request)

  /** An attempt to append request `next` to `rq`. */
  datatype Join = Join(merged: bool, rq: Request, next: Request)

  function Sectors(bytes: nat): nat { bytes / SECTOR_SIZE }

  /** `compatible` stands for elv_rq_merge_ok: flags, direction, disk and integrity. */
  function TryMerge(r: Request, b: Bio, compatible: bool): Verdict {
    if !compatible then NoMerge
    else if r.sector + Sectors(r.dataLen) == b.sector then BackMerge
    else if r.sector - Sectors(b.size) == b.sector then FrontMerge
    else NoMerge
  }

  /** A request made from one bio. */
  function FromBio(q: Queue, b: Bio): Request {
    Request(Null, Hinted(q, Link(b, Null)), b.sector, b.size, Count(q, Todo(b)), false, true)
  }

  function AttemptBack(q: Queue, r: Request, b: Bio): Attempt {
    var n := Count(q, Todo(b));
    if Sectors(r.dataLen) + Sectors(b.size) > q.maxSectors || r.nrSegs + n > q.maxSegments then
      Attempt(false, r)
    else
      Attempt(true, r.(bios := Append(r.bios, Hinted(q, Link(b, Null))), dataLen := r.dataLen + b.size,
        nrSegs := r.nrSegs + n))
  }

  function AttemptFront(q: Queue, r: Request, b: Bio): Attempt {
    var n := Count(q, Todo(b));
    if Sectors(r.dataLen) + Sectors(b.size) > q.maxSectors || r.nrSegs + n > q.maxSegments then
      Attempt(false, r)
    else
      Attempt(true, r.(bios := Append(Hinted(q, Link(b, Null)), r.bios), sector := b.sector,
                       dataLen := r.dataLen + b.size, nrSegs := r.nrSegs + n))
  }

  /** blk_phys_contig_segment for bios that carry data. */
  predicate PhysContig(q: Queue, b: Bio, nxt: Bio)
    requires 0 < |b.vecs| && nxt.idx < |nxt.vecs|
  {
    && q.cluster
    && b.segBack + nxt.segFront <= q.maxSegmentSize
    && PhysMergeable(q, b.vecs[|b.vecs| - 1], nxt.vecs[nxt.idx])
    && q.boundaryOk(b.vecs[|b.vecs| - 1], nxt.vecs[nxt.idx])
  }

  /** Both requests have a bio linked, and the facing bios carry vectors. */
  predicate Joinable(r: Request, n: Request) {
    && r.bios.Link? && 0 < |Tail(r.bios).vecs| && 0 < r.nrSegs
    && n.bios.Link? && n.bios.bio.idx < |n.bios.bio.vecs|
  }

  /** Do the last segment of `r` and the first of `n` form one? */
  predicate Fuses(q: Queue, r: Request, n: Request)
    requires Joinable(r, n)
  {
    PhysContig(q, Tail(r.bios), n.bios.bio)
  }

  /** The hints ll_merge_requests_fn writes when the requests touch. */
  function HintLeft(q: Queue, r: Request, n: Request): Bios
    requires Joinable(r, n)
  {
    if Fuses(q, r, n) && r.nrSegs == 1 then WithFront(r.bios, Tail(r.bios).segBack + n.bios.bio.segFront) else r.bios
  }

  function HintRight(q: Queue, r: Request, n: Request): Bios
    requires Joinable(r, n)
  {
    if Fuses(q, r, n) && n.nrSegs == 1 then WithBack(n.bios, Tail(r.bios).segBack + n.bios.bio.segFront) else n.bios
  }

  /** attempt_merge and ll_merge_requests_fn. The segment-size hints are written
      before the last check, so a refused merge may leave them changed. */
  function AttemptJoin(q: Queue, r: Request, n: Request, compatible: bool): Join
    requires Joinable(r, n)
  {
    if !compatible || r.sector + Sectors(r.dataLen) != n.sector then Join(false, r, n)
    else if Sectors(r.dataLen) + Sectors(n.dataLen) > q.maxSectors then Join(false, r, n)
    else
      var left, right := HintLeft(q, r, n), HintRight(q, r, n);
      var total := r.nrSegs + n.nrSegs - if Fuses(q, r, n) then 1 else 0;
      if total > q.maxSegments then Join(false, r.(bios := left), n.(bios := right))
      else Join(true, r.(bios := Append(left, right), dataLen := r.dataLen + n.dataLen, nrSegs := total),
                n.(bios := Null))
  }

  // ----- what every request keeps

  /** The length in bytes of a run of data bios on consecutive sectors from `sector`;
      `Broken` when they are not such a run. */
  datatype Extent = Broken | Extent(len: nat)

  function RunFrom(bs: Bios, sector: nat): Extent {
    match bs
    case Null => Extent(0)
    case Link(b, next) =>
      if GoodBio(b) && b.sector == sector then
        match RunFrom(next, sector + Sectors(b.size))
        case Extent(l) => Extent(b.size + l)
        case Broken => Broken
      else Broken
  }

  predicate GoodBio(b: Bio) {
    DataBio(b) && b.size % SECTOR_SIZE == 0
  }

  /** The kept segment count and outer hints fit the bios. */
  ghost predicate Tallied(q: Queue, bs: Bios, n: nat) {
    bs.Link? && Counted(q, AllTodo(bs), n, bs.bio.segFront, Tail(bs).segBack)
  }

  /** A request's linked bios are one run of sectors from `__sector`, `__data_len`
      bytes long, and its segment count is that of some division of the vectors. */
  ghost predicate Inv(q: Queue, r: Request) {
    RunFrom(r.bios, r.sector) == Extent(r.dataLen) && Tallied(q, r.bios, r.nrSegs)
  }

  // ----- runs

  lemma {:induction false} SectorsSum(m: nat, n: nat)
    requires m % SECTOR_SIZE == 0
    ensures Sectors(m + n) == Sectors(m) + Sectors(n) && (n % SECTOR_SIZE == 0 ==> (m + n) % SECTOR_SIZE == 0)
  {
  }

  lemma {:induction false} RunAppend(a: Bios, b: Bios, sector: nat, mid: nat, alen: nat, blen: nat, len: nat)
    requires RunFrom(a, sector) == Extent(alen) && RunFrom(b, mid) == Extent(blen)
    requires mid == sector + Sectors(alen) && len == alen + blen
    ensures RunFrom(Append(a, b), sector) == Extent(len) && Sectors(len) == Sectors(alen) + Sectors(blen)
  {
    RunAligned(a, sector);
    SectorsSum(alen, blen);
    RunsJoin(a, b, sector, alen, blen);
  }

  /** The first bio of a run, and the rest. */
  lemma {:induction false} RunFirst(a: Bios, sector: nat, len: nat)
    requires a.Link? && RunFrom(a, sector) == Extent(len)
    ensures len >= a.bio.size && RunFrom(a.next, sector + Sectors(a.bio.size)) == Extent(len - a.bio.size)
    ensures a.bio.size % SECTOR_SIZE == 0
  {
  }

  lemma {:induction false} RunMore(a: Bios, next: Bios, sector: nat, len: nat, more: nat)
    requires a.Link? && RunFrom(a, sector) == Extent(len)
    requires RunFrom(next, sector + Sectors(a.bio.size)) == Extent(more)
    ensures RunFrom(Link(a.bio, next), sector) == Extent(a.bio.size + more)
  {
  }

  lemma {:induction false} RunsJoin(a: Bios, b: Bios, sector: nat, alen: nat, blen: nat)
    requires RunFrom(a, sector) == Extent(alen) && RunFrom(b, sector + Sectors(alen)) == Extent(blen)
    ensures RunFrom(Append(a, b), sector) == Extent(alen + blen)
  {
    if a.Link? {
      RunFirst(a, sector, alen);
      SectorsSum(a.bio.size, alen - a.bio.size);
      RunsJoin(a.next, b, sector + Sectors(a.bio.size), alen - a.bio.size, blen);
      RunMore(a, Append(a.next, b), sector, alen, alen - a.bio.size + blen);
    }
  }

  lemma {:induction false} RunAligned(a: Bios, sector: nat)
    requires RunFrom(a, sector).Extent?
    ensures RunFrom(a, sector).len % SECTOR_SIZE == 0
  {
    if a.Link? {
      RunFirst(a, sector, RunFrom(a, sector).len);
      RunAligned(a.next, sector + Sectors(a.bio.size));
      SectorsSum(a.bio.size, RunFrom(a.next, sector + Sectors(a.bio.size)).len);
    }
  }

  /** The exact byte count: a run is made of well-formed bios and is as long as they are. */
  lemma {:induction false} RunOk(a: Bios, sector: nat)
    requires RunFrom(a, sector).Extent?
    ensures BiosOk(a) && TotalSize(a) == RunFrom(a, sector).len
  {
    if a.Link? { RunOk(a.next, sector + Sectors(a.bio.size)); }
  }

  lemma {:induction false} BackHintRun(a: Bios, size: nat, sector: nat)
    requires a.Link?
    ensures RunFrom(WithBack(a, size), sector) == RunFrom(a, sector)
  {
    if a.next.Link? { BackHintRun(a.next, size, sector + Sectors(a.bio.size)); }
  }

  lemma {:induction false} FirstVec(a: Bios, sector: nat)
    requires RunFrom(a, sector).Extent? && a.Link?
    ensures AllTodo(a) != [] && a.bio.idx < |a.bio.vecs|
    ensures AllTodo(a)[0] == a.bio.vecs[a.bio.idx]
  {
  }

  lemma {:induction false} LastVec(a: Bios, sector: nat)
    requires RunFrom(a, sector).Extent? && a.Link?
    ensures AllTodo(a) != [] && |Tail(a).vecs| > 0
    ensures AllTodo(a)[|AllTodo(a)| - 1] == Tail(a).vecs[|Tail(a).vecs| - 1]
  {
    if a.next.Link? {
      LastVec(a.next, sector + Sectors(a.bio.size));
      EndsWith(Todo(a.bio), AllTodo(a.next));
    } else {
      assert AllTodo(a) == Todo(a.bio);
    }
  }

  lemma {:induction false} EndsWith<T>(a: seq<T>, b: seq<T>)
    requires b != []
    ensures (a + b)[|a + b| - 1] == b[|b| - 1]
  {
  }

  // ----- bios

  lemma {:induction false} OneBio(q: Queue, b: Bio)
    requires GoodBio(b)
    ensures var h := Hinted(q, Link(b, Null));
            && RunFrom(h, b.sector) == Extent(b.size) && Tallied(q, h, Count(q, Todo(b)))
            && AllTodo(h) == Todo(b) && Ids(h) == [b.id]
  {
    var l := Link(b, Null);
    assert AllTodo(l) == Todo(b);
    RecountEstablishes(q, l);
    assert RunFrom(Null, b.sector + Sectors(b.size)) == Extent(0);
  }

  /** A request made from one bio starts out with every invariant. */
  lemma {:induction false} FromBioInv(q: Queue, b: Bio)
    requires GoodBio(b)
    ensures Inv(q, FromBio(q, b))
    ensures AllTodo(FromBio(q, b).bios) == Todo(b) && Ids(FromBio(q, b).bios) == [b.id]
  {
    OneBio(q, b);
  }

  lemma {:induction false} TalliedAppend(q: Queue, a: Bios, an: nat, b: Bios, bn: nat, n: nat)
    requires Tallied(q, a, an) && Tallied(q, b, bn) && n == an + bn
    ensures Tallied(q, Append(a, b), n)
  {
    CountedAppend(q, AllTodo(a), an, a.bio.segFront, Tail(a).segBack, AllTodo(b), bn, b.bio.segFront, Tail(b).segBack);
    AppendTodo(a, b);
    AppendTail(a, b);
  }

  /** A request made of two chains that keep the invariants. */
  lemma {:induction false} Chained(
    q: Queue, s: Request, a: Bios, alen: nat, an: nat, b: Bios, blen: nat, bn: nat, mid: nat)
    requires RunFrom(a, s.sector) == Extent(alen) && RunFrom(b, mid) == Extent(blen) && mid == s.sector + Sectors(alen)
    requires Tallied(q, a, an) && Tallied(q, b, bn)
    requires s.bios == Append(a, b) && s.dataLen == alen + blen && s.nrSegs == an + bn
    ensures Inv(q, s) && Sectors(s.dataLen) == Sectors(alen) + Sectors(blen)
    ensures AllTodo(s.bios) == AllTodo(a) + AllTodo(b) && Ids(s.bios) == Ids(a) + Ids(b)
  {
    RunAppend(a, b, s.sector, mid, alen, blen, s.dataLen);
    TalliedAppend(q, a, an, b, bn, s.nrSegs);
    AppendTodo(a, b);
    AppendIds(a, b);
  }

  /** A back-merged bio is appended, and every invariant and the queue limits are kept. */
  lemma {:induction false} BackMergeInv(q: Queue, r: Request, b: Bio)
    requires Inv(q, r) && GoodBio(b) && TryMerge(r, b, true).BackMerge? && AttemptBack(q, r, b).merged
    ensures var s := AttemptBack(q, r, b).rq;
            && Inv(q, s) && s.sector == r.sector
            && AllTodo(s.bios) == AllTodo(r.bios) + Todo(b) && Ids(s.bios) == Ids(r.bios) + [b.id]
            && Sectors(s.dataLen) <= q.maxSectors && s.nrSegs <= q.maxSegments
  {
    OneBio(q, b);
    Chained(q, AttemptBack(q, r, b).rq, r.bios, r.dataLen, r.nrSegs,
            Hinted(q, Link(b, Null)), b.size, Count(q, Todo(b)), b.sector);
  }

  /** A front-merged bio is prepended; the end sector stays where it was. */
  lemma {:induction false} FrontMergeInv(q: Queue, r: Request, b: Bio)
    requires Inv(q, r) && GoodBio(b) && TryMerge(r, b, true).FrontMerge? && AttemptFront(q, r, b).merged
    ensures var s := AttemptFront(q, r, b).rq;
            && Inv(q, s) && s.sector + Sectors(s.dataLen) == r.sector + Sectors(r.dataLen)
            && AllTodo(s.bios) == Todo(b) + AllTodo(r.bios) && Ids(s.bios) == [b.id] + Ids(r.bios)
            && Sectors(s.dataLen) <= q.maxSectors && s.nrSegs <= q.maxSegments
  {
    OneBio(q, b);
    Chained(q, AttemptFront(q, r, b).rq, Hinted(q, Link(b, Null)), b.size, Count(q, Todo(b)),
            r.bios, r.dataLen, r.nrSegs, r.sector);
  }

  // ----- joining two requests

  /** The hint writes alone keep the left request sound, merged or not. */
  lemma {:induction false} HintLeftInv(q: Queue, r: Request, n: Request)
    requires Inv(q, r) && Joinable(r, n)
    ensures Inv(q, r.(bios := HintLeft(q, r, n)))
    ensures AllTodo(HintLeft(q, r, n)) == AllTodo(r.bios) && Ids(HintLeft(q, r, n)) == Ids(r.bios)
  {
    if Fuses(q, r, n) && r.nrSegs == 1 {
      var size := Tail(r.bios).segBack + n.bios.bio.segFront;
      FrontHint(r.bios, size);
      CountedOne(q, AllTodo(r.bios), r.bios.bio.segFront, Tail(r.bios).segBack, size);
    }
  }

  lemma {:induction false} HintRightInv(q: Queue, r: Request, n: Request)
    requires Inv(q, n) && Joinable(r, n)
    ensures Inv(q, n.(bios := HintRight(q, r, n)))
    ensures AllTodo(HintRight(q, r, n)) == AllTodo(n.bios) && Ids(HintRight(q, r, n)) == Ids(n.bios)
  {
    if Fuses(q, r, n) && n.nrSegs == 1 {
      BackHintInv(q, n, Tail(r.bios).segBack + n.bios.bio.segFront);
    }
  }

  /** A larger hint keeps a request of one segment sound. */
  lemma {:induction false} BackHintInv(q: Queue, n: Request, size: nat)
    requires Inv(q, n) && n.nrSegs == 1 && n.bios.bio.segFront <= size
    ensures Inv(q, n.(bios := WithBack(n.bios, size)))
    ensures AllTodo(WithBack(n.bios, size)) == AllTodo(n.bios) && Ids(WithBack(n.bios, size)) == Ids(n.bios)
  {
    BackHint(n.bios, size);
    BackHintRun(n.bios, size, n.sector);
    CountedOne(q, AllTodo(n.bios), n.bios.bio.segFront, Tail(n.bios).segBack, size);
  }

  /** The count of two chains whose facing segments fuse, given the fused hints. */
  lemma {:induction false} TalliedFused(q: Queue, a: Bios, an: nat, b: Bios, bn: nat, c: Bios, d: Bios, size: nat)
    requires Tallied(q, a, an) && Tallied(q, b, bn) && FusedTo(a, an, b, bn, c, d, size)
    requires AllTodo(a) != [] && AllTodo(b) != [] && q.cluster && size <= q.maxSegmentSize
    requires var x, y := AllTodo(a)[|AllTodo(a)| - 1], AllTodo(b)[0];
             PhysMergeable(q, x, y) && q.boundaryOk(x, y)
    ensures an + bn >= 2 && Tallied(q, Append(c, d), an + bn - 1)
  {
    CountedFused(q, AllTodo(a), an, a.bio.segFront, Tail(a).segBack, AllTodo(b), bn, b.bio.segFront, Tail(b).segBack);
    AppendTodo(c, d);
    AppendTail(c, d);
  }

  /** The chains `c` and `d` are `a` and `b` with the hints for a fused segment of `size`
      bytes, as ll_merge_requests_fn leaves them. */
  predicate FusedTo(a: Bios, an: nat, b: Bios, bn: nat, c: Bios, d: Bios, size: nat) {
    && a.Link? && b.Link? && c.Link? && d.Link? && size == Tail(a).segBack + b.bio.segFront
    && AllTodo(c) == AllTodo(a) && AllTodo(d) == AllTodo(b)
    && c.bio.segFront == (if an == 1 then size else a.bio.segFront)
    && Tail(d).segBack == (if bn == 1 then size else Tail(b).segBack)
  }

  lemma {:induction false} FusedHints(q: Queue, r: Request, n: Request, size: nat)
    requires Joinable(r, n) && Fuses(q, r, n) && size == Tail(r.bios).segBack + n.bios.bio.segFront
    ensures FusedTo(r.bios, r.nrSegs, n.bios, n.nrSegs, HintLeft(q, r, n), HintRight(q, r, n), size)
  {
    FrontHint(r.bios, size);
    BackHint(n.bios, size);
  }

  /** The vectors that touch. */
  lemma {:induction false} Facing(q: Queue, r: Request, n: Request)
    requires RunFrom(r.bios, r.sector).Extent? && RunFrom(n.bios, n.sector).Extent? && Joinable(r, n) && Fuses(q, r, n)
    ensures AllTodo(r.bios) != [] && AllTodo(n.bios) != []
    ensures var x, y := AllTodo(r.bios)[|AllTodo(r.bios)| - 1], AllTodo(n.bios)[0];
            PhysMergeable(q, x, y) && q.boundaryOk(x, y)
  {
    LastVec(r.bios, r.sector);
    FirstVec(n.bios, n.sector);
  }

  /** When the facing segments fuse, the joined chain has one segment fewer. */
  lemma {:induction false} JoinFused(q: Queue, r: Request, n: Request)
    requires Inv(q, r) && Inv(q, n) && Joinable(r, n) && Fuses(q, r, n)
    ensures r.nrSegs + n.nrSegs >= 2
    ensures Tallied(q, Append(HintLeft(q, r, n), HintRight(q, r, n)), r.nrSegs + n.nrSegs - 1)
  {
    var size := Tail(r.bios).segBack + n.bios.bio.segFront;
    Facing(q, r, n);
    FusedHints(q, r, n, size);
    TalliedFused(q, r.bios, r.nrSegs, n.bios, n.nrSegs, HintLeft(q, r, n), HintRight(q, r, n), size);
  }

  lemma {:induction false} JoinTally(q: Queue, r: Request, n: Request)
    requires Inv(q, r) && Inv(q, n) && Joinable(r, n)
    ensures r.nrSegs + n.nrSegs >= 1
    ensures Tallied(q, Append(HintLeft(q, r, n), HintRight(q, r, n)),
                    r.nrSegs + n.nrSegs - if Fuses(q, r, n) then 1 else 0)
  {
    if Fuses(q, r, n) {
      JoinFused(q, r, n);
    } else {
      TalliedAppend(q, r.bios, r.nrSegs, n.bios, n.nrSegs, r.nrSegs + n.nrSegs);
    }
  }

  /** Joining two requests leaves one that keeps every invariant and the limits, with
      the bios and the vectors of both in order. */
  lemma {:induction false} JoinInv(q: Queue, r: Request, n: Request)
    requires Inv(q, r) && Inv(q, n) && Joinable(r, n) && AttemptJoin(q, r, n, true).merged
    ensures var s := AttemptJoin(q, r, n, true).rq;
            && Inv(q, s)
            && AllTodo(s.bios) == AllTodo(r.bios) + AllTodo(n.bios) && Ids(s.bios) == Ids(r.bios) + Ids(n.bios)
            && Sectors(s.dataLen) <= q.maxSectors && s.nrSegs <= q.maxSegments
  {
    var c, d := HintLeft(q, r, n), HintRight(q, r, n);
    HintLeftInv(q, r, n);
    HintRightInv(q, r, n);
    RunAppend(c, d, r.sector, n.sector, r.dataLen, n.dataLen, r.dataLen + n.dataLen);
    AppendTodo(c, d);
    AppendIds(c, d);
    JoinTally(q, r, n);
  }
}
