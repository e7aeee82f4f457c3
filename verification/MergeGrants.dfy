/**
 Exactly which merges are granted: a bio or request next to a request joins it whenever
 the two together are within the queue's limits.
 */
module MergeGrants {
  import opened BlockTypes
  import opened Segments
  import opened SegmentParts
  import opened Merging
  import opened RequestHistory

  /** Together within the limits on sectors and segments. */
  predicate Fits(q: Queue, bytes: nat, segs: nat) { Sectors(bytes) <= q.maxSectors && segs <= q.maxSegments }

  lemma {:induction false} SumFits(q: Queue, r: Request, bytes: nat, segs: nat)
    requires RunFrom(r.bios, r.sector) == Extent(r.dataLen)
    ensures Fits(q, r.dataLen + bytes, segs) <==>
            Sectors(r.dataLen) + Sectors(bytes) <= q.maxSectors && segs <= q.maxSegments
  {
    RunAligned(r.bios, r.sector);
    SectorsSum(r.dataLen, bytes);
  }

  /** The request `s` is `r` with a bio of `bytes` bytes and `segs` segments taken in: the
      bios are now `ids` and start at `sector`. */
  predicate TakenIn(r: Request, s: Request, bytes: nat, segs: nat, ids: seq<nat>, sector: nat) {
    s.dataLen == r.dataLen + bytes && s.nrSegs == r.nrSegs + segs && Ids(s.bios) == ids && s.sector == sector
  }

  /** A new request is its bio, and has the segments of its vectors' parts. */
  lemma {:induction false} NewRequest(q: Queue, b: Bio) returns (parts: seq<seq<Vec>>)
    requires GoodBio(b)
    ensures Division(q, true, Todo(b), parts)
    ensures var r := FromBio(q, b);
            && r.sector == b.sector && r.dataLen == b.size && r.nrSegs == |parts|
            && Ids(r.bios) == [b.id] && AllTodo(r.bios) == Todo(b) && r.done.Null?
  {
    parts := CountDivides(q, Todo(b));
    FromBioInv(q, b);
  }

  lemma {:induction false} BackGranted(q: Queue, r: Request, b: Bio, segs: nat)
    requires Inv(q, r) && GoodBio(b) && TryMerge(r, b, true).BackMerge? && segs == Count(q, Todo(b))
    ensures var s := AttemptBack(q, r, b).rq;
            if Fits(q, r.dataLen + b.size, r.nrSegs + segs)
            then TakenIn(r, s, b.size, segs, Ids(r.bios) + [b.id], r.sector) else s == r
  {
    SumFits(q, r, b.size, r.nrSegs + segs);
    if AttemptBack(q, r, b).merged { BackMergeInv(q, r, b); }
  }

  lemma {:induction false} FrontGranted(q: Queue, r: Request, b: Bio, segs: nat)
    requires Inv(q, r) && GoodBio(b) && TryMerge(r, b, true).FrontMerge? && segs == Count(q, Todo(b))
    ensures var s := AttemptFront(q, r, b).rq;
            if Fits(q, r.dataLen + b.size, r.nrSegs + segs)
            then TakenIn(r, s, b.size, segs, [b.id] + Ids(r.bios), b.sector) else s == r
  {
    SumFits(q, r, b.size, r.nrSegs + segs);
    if AttemptFront(q, r, b).merged { FrontMergeInv(q, r, b); }
  }

  /** A compatible bio that begins where the request ends, or ends where it begins, is taken
      in if and only if the two fit the limits; any other leaves the request as it is. */
  predicate MergeRule(q: Queue, r: Request, b: Bio, compatible: bool, segs: nat, s: Request) {
    if !compatible || !Fits(q, r.dataLen + b.size, r.nrSegs + segs) then s == r
    else if r.sector + Sectors(r.dataLen) == b.sector
    then TakenIn(r, s, b.size, segs, Ids(r.bios) + [b.id], r.sector)
    else if b.sector + Sectors(b.size) == r.sector
    then TakenIn(r, s, b.size, segs, [b.id] + Ids(r.bios), b.sector)
    else s == r
  }

  lemma {:induction false} MergeExact(q: Queue, r: Request, b: Bio, compatible: bool, segs: nat)
    requires Inv(q, r) && GoodBio(b) && segs == Count(q, Todo(b))
    ensures MergeRule(q, r, b, compatible, segs, MergeBio(q, r, b, compatible))
  {
    match TryMerge(r, b, compatible)
    case NoMerge =>
    case BackMerge => BackGranted(q, r, b, segs);
    case FrontMerge => FrontGranted(q, r, b, segs);
  }

  /** Whatever the history of a request, this is what a bio does to it. The bio counts with
      the parts of its own vectors. */
  lemma {:induction false} BioGranted(q: Queue, p: History, b: Bio, compatible: bool) returns (parts: seq<seq<Vec>>)
    requires Proper(p) && GoodBio(b) && Outcome(q, p).bios.Link?
    ensures Division(q, true, Todo(b), parts)
    ensures MergeRule(q, Outcome(q, p), b, compatible, |parts|, Outcome(q, Merge(p, b, compatible)))
  {
    parts := CountDivides(q, Todo(b));
    EveryHistorySound(q, p);
    MergeExact(q, Outcome(q, p), b, compatible, |parts|);
  }

  /** The last of the vectors `vs` and the first of `ws` share a segment of `size` bytes. */
  predicate Touch(q: Queue, vs: seq<Vec>, ws: seq<Vec>, size: nat) {
    vs != [] && ws != [] && Shares(q, false, vs[|vs| - 1], ws[0]) && size <= q.maxSegmentSize
  }

  /** The size the outer hints give the segment in which the requests meet. */
  function Between(r: Request, n: Request): nat
    requires r.bios.Link? && n.bios.Link?
  {
    Tail(r.bios).segBack + n.bios.bio.segFront
  }

  /** The vectors with which a run begins and ends. */
  lemma {:induction false} Outer(a: Bios, sector: nat, vs: seq<Vec>)
    requires RunFrom(a, sector).Extent? && a.Link? && vs == AllTodo(a)
    ensures vs != [] && |Tail(a).vecs| > 0 && vs[|vs| - 1] == Tail(a).vecs[|Tail(a).vecs| - 1]
    ensures a.bio.idx < |a.bio.vecs| && vs[0] == a.bio.vecs[a.bio.idx]
  {
    LastVec(a, sector);
    FirstVec(a, sector);
  }

  lemma {:induction false} TouchFuses(q: Queue, r: Request, n: Request, vs: seq<Vec>, ws: seq<Vec>)
    requires Joinable(r, n) && vs != [] && ws != []
    requires vs[|vs| - 1] == Tail(r.bios).vecs[|Tail(r.bios).vecs| - 1] && ws[0] == n.bios.bio.vecs[n.bios.bio.idx]
    ensures Touch(q, vs, ws, Between(r, n)) <==> Fuses(q, r, n)
  {
  }

  /** The join is granted if and only if the second request begins where the first ends and
      they fit the limits, `twice` being the segments counted twice. Granted, the one request
      has everything; refused, both keep what they have. */
  predicate JoinRule(q: Queue, r: Request, s: Request, compatible: bool, twice: nat, j: Join) {
    && r.nrSegs + s.nrSegs >= twice
    && (j.merged <==> && compatible && r.sector + Sectors(r.dataLen) == s.sector
                      && Fits(q, r.dataLen + s.dataLen, r.nrSegs + s.nrSegs - twice))
    && if j.merged
       then && Ids(j.rq.bios) == Ids(r.bios) + Ids(s.bios) && j.next.bios.Null?
            && j.rq.dataLen == r.dataLen + s.dataLen && j.rq.nrSegs == r.nrSegs + s.nrSegs - twice
       else Ids(j.rq.bios) == Ids(r.bios) && Ids(j.next.bios) == Ids(s.bios)
  }

  lemma {:induction false} JoinExact(q: Queue, r: Request, s: Request, compatible: bool, twice: nat, j: Join)
    requires Inv(q, r) && Inv(q, s) && Joinable(r, s) && twice == (if Fuses(q, r, s) then 1 else 0)
    requires j == AttemptJoin(q, r, s, compatible)
    ensures JoinRule(q, r, s, compatible, twice, j)
  {
    JoinTally(q, r, s);
    SumFits(q, r, s.dataLen, r.nrSegs + s.nrSegs - twice);
    JoinKeeps(q, r, s, compatible, j);
  }

  lemma {:induction false} JoinKeeps(q: Queue, r: Request, s: Request, compatible: bool, j: Join)
    requires Inv(q, r) && Inv(q, s) && Joinable(r, s) && j == AttemptJoin(q, r, s, compatible)
    ensures if j.merged then Ids(j.rq.bios) == Ids(r.bios) + Ids(s.bios)
            else Ids(j.rq.bios) == Ids(r.bios) && Ids(j.next.bios) == Ids(s.bios)
  {
    if j.merged {
      JoinInv(q, r, s);
    } else {
      HintLeftInv(q, r, s);
      HintRightInv(q, r, s);
    }
  }

  /** Whatever the histories of two requests, the attempt to join them has this outcome;
      segments that touch count once. */
  lemma {:induction false} JoinGranted(q: Queue, p: History, n: History, compatible: bool)
    requires Proper(p) && Proper(n) && Joinable(Outcome(q, p), Outcome(q, n))
    ensures var r, s := Outcome(q, p), Outcome(q, n);
            var twice := if Touch(q, AllTodo(r.bios), AllTodo(s.bios), Between(r, s)) then 1 else 0;
            JoinRule(q, r, s, compatible, twice, AttemptJoin(q, r, s, compatible))
  {
    var r, s := Outcome(q, p), Outcome(q, n);
    EveryHistorySound(q, p);
    EveryHistorySound(q, n);
    Outer(r.bios, r.sector, AllTodo(r.bios));
    Outer(s.bios, s.sector, AllTodo(s.bios));
    TouchFuses(q, r, s, AllTodo(r.bios), AllTodo(s.bios));
    JoinExact(q, r, s, compatible, if Fuses(q, r, s) then 1 else 0, AttemptJoin(q, r, s, compatible));
  }
}
