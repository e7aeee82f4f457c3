/**
 Every way a data request comes about: from a bio, by bio merges and request merges,
 granted or refused, and by partial completions. Whatever the history, the request
 is one run of sectors, its length is exact and its segment count reserves enough
 scatterlist entries.
 */
module RequestHistory {
  import opened BlockTypes
  import opened Segments
  import opened SegmentParts
  import opened Merging
  import opened Completion

  datatype History =
    | New(bio: Bio)
    | Merge(past: History, bio: Bio, compatible: bool)
    | Left(past: History, next: History, compatible: bool)
    | Right(prev: History, past: History, compatible: bool)
    | Complete(past: History, error: int, bytes: nat)

  /** The bios submitted are data bios of whole sectors, and drivers complete in whole sectors. */
  predicate Proper(h: History) {
    match h
    case New(b) => GoodBio(b)
    case Merge(p, b, _) => Proper(p) && GoodBio(b)
    case Left(p, n, _) => Proper(p) && Proper(n)
    case Right(p, n, _) => Proper(p) && Proper(n)
    case Complete(p, _, n) => Proper(p) && n % SECTOR_SIZE == 0
  }

  /** elv_try_merge followed by the merge it asks for. */
  function MergeBio(q: Queue, r: Request, b: Bio, compatible: bool): Request {
    match TryMerge(r, b, compatible)
    case NoMerge => r
    case BackMerge => AttemptBack(q, r, b).rq
    case FrontMerge => AttemptFront(q, r, b).rq
  }

  /** The request a history leaves. `Left` and `Right` are the two requests of one
      attempt to join: the first survives a granted join, both a refused one. A request
      with nothing linked any more takes part in no merge. */
  function Outcome(q: Queue, h: History): Request {
    match h
    case New(b) => FromBio(q, b)
    case Merge(p, b, compatible) =>
      var r := Outcome(q, p);
      if r.bios.Null? then r else MergeBio(q, r, b, compatible)
    case Left(p, n, compatible) =>
      var r, s := Outcome(q, p), Outcome(q, n);
      if Joinable(r, s) then AttemptJoin(q, r, s, compatible).rq else r
    case Right(p, n, compatible) =>
      var r, s := Outcome(q, p), Outcome(q, n);
      if Joinable(r, s) then AttemptJoin(q, r, s, compatible).next else s
    case Complete(p, error, n) =>
      var r := Outcome(q, p);
      if RequestOk(r) then UpdateRequest(q, r, error, n).rq else r
  }

  ghost predicate Sound(q: Queue, r: Request) {
    r.fs && (r.bios.Link? ==> Inv(q, r))
  }

  lemma {:induction false} CompleteSound(q: Queue, r: Request, error: int, n: nat)
    requires Sound(q, r) && RequestOk(r) && n % SECTOR_SIZE == 0
    ensures Sound(q, UpdateRequest(q, r, error, n).rq)
  {
    if r.bios.Link? {
      RunWhole(r.bios, r.sector);
      WholeData(r.bios);
      UpdateConserves(q, r, error, n);
      if n < r.dataLen { UpdateInv(q, r, error, n); }
    }
  }

  lemma {:induction false} MergeBioSound(q: Queue, r: Request, b: Bio, compatible: bool)
    requires Sound(q, r) && r.bios.Link? && GoodBio(b)
    ensures Sound(q, MergeBio(q, r, b, compatible))
  {
    match TryMerge(r, b, compatible)
    case NoMerge =>
    case BackMerge =>
      if AttemptBack(q, r, b).merged { BackMergeInv(q, r, b); }
    case FrontMerge =>
      if AttemptFront(q, r, b).merged { FrontMergeInv(q, r, b); }
  }

  lemma {:induction false} JoinSound(q: Queue, r: Request, n: Request, compatible: bool)
    requires Sound(q, r) && Sound(q, n) && Joinable(r, n)
    ensures Sound(q, AttemptJoin(q, r, n, compatible).rq)
  {
    HintLeftInv(q, r, n);
    if AttemptJoin(q, r, n, compatible).merged { JoinInv(q, r, n); }
  }

  lemma {:induction false} RefusedSound(q: Queue, r: Request, n: Request, compatible: bool)
    requires Sound(q, r) && Sound(q, n) && Joinable(r, n)
    ensures Sound(q, AttemptJoin(q, r, n, compatible).next)
  {
    HintRightInv(q, r, n);
  }

  lemma {:induction false} EveryHistorySound(q: Queue, h: History)
    requires Proper(h)
    ensures Sound(q, Outcome(q, h))
  {
    match h
    case New(b) => FromBioInv(q, b);
    case Merge(p, b, compatible) =>
      EveryHistorySound(q, p);
      if Outcome(q, p).bios.Link? { MergeBioSound(q, Outcome(q, p), b, compatible); }
    case Left(p, n, compatible) =>
      EveryHistorySound(q, p);
      EveryHistorySound(q, n);
      if Joinable(Outcome(q, p), Outcome(q, n)) { JoinSound(q, Outcome(q, p), Outcome(q, n), compatible); }
    case Right(p, n, compatible) =>
      EveryHistorySound(q, p);
      EveryHistorySound(q, n);
      if Joinable(Outcome(q, p), Outcome(q, n)) { RefusedSound(q, Outcome(q, p), Outcome(q, n), compatible); }
    case Complete(p, error, n) =>
      EveryHistorySound(q, p);
      if RequestOk(Outcome(q, p)) { CompleteSound(q, Outcome(q, p), error, n); }
  }

  /** The kept count always reserves enough scatterlist entries, each entry is one the
      queue allows, and they cover exactly the request's bytes. */
  lemma {:induction false} EveryRequestMaps(q: Queue, h: History)
    requires Proper(h) && Outcome(q, h).bios.Link?
    ensures var r := Outcome(q, h);
            && |MapSg(q, AllTodo(r.bios))| <= r.nrSegs && Maps(q, AllTodo(r.bios), MapSg(q, AllTodo(r.bios)))
            && Bytes(MapSg(q, AllTodo(r.bios))) == Bytes(AllTodo(r.bios))
  {
    MapSgMaps(q, AllTodo(Outcome(q, h).bios));
    EveryHistorySound(q, h);
    var bs := Outcome(q, h).bios;
    CountedBoundsMapSg(q, AllTodo(bs), Outcome(q, h).nrSegs, bs.bio.segFront, Tail(bs).segBack);
  }

  /** `__data_len` always is the number of bytes left, and the bios always cover
      consecutive sectors from `__sector`. */
  lemma {:induction false} EveryRequestExact(q: Queue, h: History)
    requires Proper(h) && Outcome(q, h).bios.Link?
    ensures var r := Outcome(q, h);
            RunFrom(r.bios, r.sector) == Extent(r.dataLen) && RequestOk(r) && r.dataLen == |Bytes(AllTodo(r.bios))|
  {
    EveryHistorySound(q, h);
    var r := Outcome(q, h);
    RunOk(r.bios, r.sector);
    RunWhole(r.bios, r.sector);
    WholeData(r.bios);
    DataOk(r.bios);
  }

  // ----- which bios a request has

  /** The number of bios that are finished. */
  function Done(r: Request): nat { |Ids(r.done)| }

  /** The bios taken in, the finished ones first and the others in the order of their
      sectors: a bio merged at the back comes last, one merged at the front comes before
      all that are not finished, and of a joined request those that are not finished come
      after. Completions change nothing. */
  function Taken(q: Queue, h: History): seq<nat> {
    match h
    case New(b) => [b.id]
    case Merge(p, b, compatible) =>
      var r, t := Outcome(q, p), Taken(q, p);
      if r.bios.Link? && TryMerge(r, b, compatible).BackMerge? && AttemptBack(q, r, b).merged then t + [b.id]
      else if r.bios.Link? && TryMerge(r, b, compatible).FrontMerge? && AttemptFront(q, r, b).merged
      then First(t, Done(r)) + [b.id] + Rest(t, Done(r))
      else t
    case Left(p, n, compatible) =>
      if Joins(q, Outcome(q, p), Outcome(q, n), compatible) then Taken(q, p) + Rest(Taken(q, n), Done(Outcome(q, n)))
      else Taken(q, p)
    case Right(p, n, compatible) =>
      if Joins(q, Outcome(q, p), Outcome(q, n), compatible) then First(Taken(q, n), Done(Outcome(q, n)))
      else Taken(q, n)
    case Complete(p, error, n) => Taken(q, p)
  }

  function First(s: seq<nat>, k: nat): seq<nat> { if k <= |s| then s[..k] else s }

  function Rest(s: seq<nat>, k: nat): seq<nat> { if k <= |s| then s[k..] else [] }

  predicate Joins(q: Queue, r: Request, n: Request, compatible: bool) {
    Joinable(r, n) && AttemptJoin(q, r, n, compatible).merged
  }

  /** The request's bios, finished and not, are `ids`. */
  predicate Holds(r: Request, ids: seq<nat>) { ids == Ids(r.done) + Ids(r.bios) }

  lemma {:induction false} Parts(r: Request, ids: seq<nat>)
    requires Holds(r, ids)
    ensures First(ids, Done(r)) == Ids(r.done) && Rest(ids, Done(r)) == Ids(r.bios)
  {
  }

  lemma {:induction false} MergeTakes(q: Queue, p: History, b: Bio, compatible: bool)
    requires Proper(p) && GoodBio(b) && Holds(Outcome(q, p), Taken(q, p))
    ensures Holds(Outcome(q, Merge(p, b, compatible)), Taken(q, Merge(p, b, compatible)))
  {
    var r := Outcome(q, p);
    EveryHistorySound(q, p);
    Parts(r, Taken(q, p));
    if r.bios.Link? {
      match TryMerge(r, b, compatible)
      case NoMerge =>
      case BackMerge =>
        if AttemptBack(q, r, b).merged {
          BackMergeInv(q, r, b);
          Associate(Ids(r.done), Ids(r.bios), [b.id]);
        }
      case FrontMerge =>
        if AttemptFront(q, r, b).merged {
          FrontMergeInv(q, r, b);
          Associate(Ids(r.done), [b.id], Ids(r.bios));
        }
    }
  }

  lemma {:induction false} JoinLeft(q: Queue, r: Request, n: Request, compatible: bool, a: seq<nat>, b: seq<nat>)
    requires Sound(q, r) && Sound(q, n) && Joinable(r, n) && Holds(r, a) && Holds(n, b)
    ensures var j := AttemptJoin(q, r, n, compatible); Holds(j.rq, if j.merged then a + Rest(b, Done(n)) else a)
  {
    HintLeftInv(q, r, n);
    Parts(n, b);
    if AttemptJoin(q, r, n, compatible).merged {
      JoinInv(q, r, n);
      Associate(Ids(r.done), Ids(r.bios), Ids(n.bios));
    }
  }

  lemma {:induction false} JoinRight(q: Queue, r: Request, n: Request, compatible: bool, b: seq<nat>)
    requires Sound(q, n) && Joinable(r, n) && Holds(n, b)
    ensures var j := AttemptJoin(q, r, n, compatible); Holds(j.next, if j.merged then First(b, Done(n)) else b)
  {
    HintRightInv(q, r, n);
    Parts(n, b);
    assert Ids(n.done) + [] == Ids(n.done);
  }

  /** The two requests of an attempt to join, and what they hold. */
  predicate JoinOf(q: Queue, r: Request, s: Request, compatible: bool, a: seq<nat>, b: seq<nat>,
                   left: Request, lefts: seq<nat>, right: Request, rights: seq<nat>)
  {
    if Joinable(r, s) then
      var j := AttemptJoin(q, r, s, compatible);
      && left == j.rq && lefts == (if j.merged then a + Rest(b, Done(s)) else a)
      && right == j.next && rights == (if j.merged then First(b, Done(s)) else b)
    else left == r && lefts == a && right == s && rights == b
  }

  lemma {:induction false} JoinIs(q: Queue, p: History, n: History, compatible: bool)
    ensures JoinOf(q, Outcome(q, p), Outcome(q, n), compatible, Taken(q, p), Taken(q, n),
                   Outcome(q, Left(p, n, compatible)), Taken(q, Left(p, n, compatible)),
                   Outcome(q, Right(p, n, compatible)), Taken(q, Right(p, n, compatible)))
  {
  }

  lemma {:induction false} JoinTakes(q: Queue, r: Request, s: Request, compatible: bool, a: seq<nat>, b: seq<nat>,
                                     left: Request, lefts: seq<nat>, right: Request, rights: seq<nat>)
    requires Sound(q, r) && Sound(q, s) && Holds(r, a) && Holds(s, b)
    requires JoinOf(q, r, s, compatible, a, b, left, lefts, right, rights)
    ensures Holds(left, lefts) && Holds(right, rights)
  {
    if Joinable(r, s) {
      JoinLeft(q, r, s, compatible, a, b);
      JoinRight(q, r, s, compatible, b);
    }
  }

  lemma {:induction false} BothTake(q: Queue, p: History, n: History, compatible: bool)
    requires Proper(p) && Proper(n) && Holds(Outcome(q, p), Taken(q, p)) && Holds(Outcome(q, n), Taken(q, n))
    ensures Holds(Outcome(q, Left(p, n, compatible)), Taken(q, Left(p, n, compatible)))
    ensures Holds(Outcome(q, Right(p, n, compatible)), Taken(q, Right(p, n, compatible)))
  {
    EveryHistorySound(q, p);
    EveryHistorySound(q, n);
    JoinIs(q, p, n, compatible);
    JoinTakes(q, Outcome(q, p), Outcome(q, n), compatible, Taken(q, p), Taken(q, n),
              Outcome(q, Left(p, n, compatible)), Taken(q, Left(p, n, compatible)),
              Outcome(q, Right(p, n, compatible)), Taken(q, Right(p, n, compatible)));
  }

  /** The bios finished and the bios left are those taken in, in order: no merge and no
      completion, in whatever order they come, loses, repeats or reorders one. */
  lemma {:induction false} EveryBioOnce(q: Queue, h: History)
    requires Proper(h)
    ensures var r := Outcome(q, h); Ids(r.done) + Ids(r.bios) == Taken(q, h)
  {
    match h
    case New(b) =>
      OneBio(q, b);
      assert [] + [b.id] == [b.id];
    case Merge(p, b, compatible) =>
      EveryBioOnce(q, p);
      MergeTakes(q, p, b, compatible);
    case Left(p, n, compatible) =>
      EveryBioOnce(q, p);
      EveryBioOnce(q, n);
      BothTake(q, p, n, compatible);
    case Right(p, n, compatible) =>
      EveryBioOnce(q, p);
      EveryBioOnce(q, n);
      BothTake(q, p, n, compatible);
    case Complete(p, error, n) =>
      EveryBioOnce(q, p);
      if RequestOk(Outcome(q, p)) { UpdateIds(q, Outcome(q, p), error, n); }
  }

  // ----- the limits

  /** Neither limit of the queue is exceeded. */
  predicate Within(q: Queue, r: Request) { Sectors(r.dataLen) <= q.maxSectors && r.nrSegs <= q.maxSegments }

  /** Each bio was within the limits when it was submitted, and no bytes have been
      completed. */
  predicate Small(q: Queue, h: History) {
    match h
    case New(b) => Within(q, FromBio(q, b))
    case Merge(p, b, _) => Small(q, p)
    case Left(p, n, _) => Small(q, p) && Small(q, n)
    case Right(p, n, _) => Small(q, p) && Small(q, n)
    case Complete(p, _, n) => false
  }

  lemma {:induction false} AttemptWithin(q: Queue, r: Request, b: Bio)
    requires Within(q, r) && GoodBio(b) && Inv(q, r)
    ensures TryMerge(r, b, true).BackMerge? ==> Within(q, AttemptBack(q, r, b).rq)
    ensures TryMerge(r, b, true).FrontMerge? ==> Within(q, AttemptFront(q, r, b).rq)
  {
    if TryMerge(r, b, true).BackMerge? && AttemptBack(q, r, b).merged { BackMergeInv(q, r, b); }
    if TryMerge(r, b, true).FrontMerge? && AttemptFront(q, r, b).merged { FrontMergeInv(q, r, b); }
  }

  lemma {:induction false} JoinWithin(q: Queue, r: Request, n: Request, compatible: bool)
    requires Within(q, r) && Within(q, n) && Sound(q, r) && Sound(q, n) && Joinable(r, n)
    ensures var j := AttemptJoin(q, r, n, compatible); Within(q, j.rq) && Within(q, j.next)
  {
    if AttemptJoin(q, r, n, compatible).merged { JoinInv(q, r, n); }
  }

  /** No merge takes a request over a limit of the queue. */
  lemma {:induction false} MergesWithin(q: Queue, h: History)
    requires Proper(h) && Small(q, h)
    ensures Within(q, Outcome(q, h))
  {
    match h
    case New(b) =>
    case Merge(p, b, compatible) =>
      MergesWithin(q, p);
      EveryHistorySound(q, p);
      if Outcome(q, p).bios.Link? { AttemptWithin(q, Outcome(q, p), b); }
    case Left(p, n, compatible) =>
      MergesWithin(q, p);
      MergesWithin(q, n);
      EveryHistorySound(q, p);
      EveryHistorySound(q, n);
      if Joinable(Outcome(q, p), Outcome(q, n)) { JoinWithin(q, Outcome(q, p), Outcome(q, n), compatible); }
    case Right(p, n, compatible) =>
      MergesWithin(q, p);
      MergesWithin(q, n);
      EveryHistorySound(q, p);
      EveryHistorySound(q, n);
      if Joinable(Outcome(q, p), Outcome(q, n)) { JoinWithin(q, Outcome(q, p), Outcome(q, n), compatible); }
  }

  /** Completing all bytes of a request always finishes it. */
  lemma {:induction false} EveryRequestCompletes(q: Queue, h: History, error: int)
    requires Proper(h) && Outcome(q, h).bios.Link?
    ensures RequestOk(Outcome(q, h)) && !UpdateRequest(q, Outcome(q, h), error, Outcome(q, h).dataLen).more
  {
    var r := Outcome(q, h);
    EveryRequestExact(q, h);
    FullCompletion(q, r, error);
    RunWhole(r.bios, r.sector);
    WholeTail(r.bios);
  }

  lemma {:induction false} WholeTail(bs: Bios)
    requires bs.Link? && Whole(bs)
    ensures Tail(bs).size > 0
  {
    if bs.next.Link? { WholeTail(bs.next); }
  }
}
