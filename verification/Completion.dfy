/**
 Completing a request, all of it or a part (block/blk-core.c: blk_update_request and
 req_bio_endio).
 */
module Completion {
  import opened BlockTypes
  import opened Numbers
  import opened Segments
  import opened Merging

  const EIO: int := -5

  /** A call of bio_endio: which bio, and the error it is given. */
  datatype End = End(bio: nat, error: int)

  /** One pass over the bios: those finished, those left and the bytes consumed. */
  datatype Walk = Walk(done: Bios, left: Bios, total: nat)

  datatype Update = Update(rq: Request, more: bool, ended: seq<End>)

  // ----- one bio

  /** req_bio_endio's effect on a bio, `n` bytes of which are done. */
  function Charge(b: Bio, n: nat, error: int): Bio
    requires n <= b.size
  {
    b.(size := b.size - n, sector := b.sector + Sectors(n), uptodate := b.uptodate && error == 0)
  }

  /** The error given to bio_endio: a bio that is not up to date reports EIO. */
  function Status(b: Bio, error: int): int {
    if error == 0 && !b.uptodate then EIO else error
  }

  /** Vectors left after `n` bytes. */
  function Drop(vs: seq<Vec>, n: nat): (r: seq<Vec>)
    requires n <= Len(vs)
    ensures |r| <= |vs| && Len(r) == Len(vs) - n
  {
    if vs == [] || n == 0 then vs
    else if vs[0].len <= n then Drop(vs[1..], n - vs[0].len)
    else [Vec(vs[0].addr + n, vs[0].len - n)] + vs[1..]
  }

  /** A bio part of which, short of the whole, is done. */
  function Advance(b: Bio, n: nat, error: int): Bio
    requires Intact(b) && n < b.size
  {
    if n == 0 then b
    else
      var rest := Drop(Todo(b), n);
      var idx := |b.vecs| - |rest|;
      Charge(b, n, error).(idx := idx, vecs := b.vecs[..idx] + rest)
  }

  // ----- the loop over the bios

  function Prepend(b: Bio, w: Walk, n: nat): Walk {
    Walk(Link(b, w.done), w.left, n + w.total)
  }

  /** The loop of blk_update_request, bio by bio. */
  function WalkBios(bs: Bios, n: nat, error: int): Walk
    requires bs.Link? && BiosOk(bs)
  {
    var b := bs.bio;
    if n < b.size then Walk(Null, Link(Advance(b, n, error), bs.next), n)
    else
      Prepend(Charge(b, b.size, error),
              if bs.next.Null? || n == b.size then Walk(Null, bs.next, 0)
              else WalkBios(bs.next, n - b.size, error),
              b.size)
  }

  /** The bio_endio calls for finished bios; none inside a flush sequence. */
  function Ends(done: Bios, flushSeq: bool, error: int): seq<End> {
    if flushSeq || done.Null? then []
    else [End(done.bio.id, Status(done.bio, error))] + Ends(done.next, flushSeq, error)
  }

  // ----- the request

  /** bio_cur_bytes: the bytes of the vector the bio is at. */
  function CurBytes(b: Bio): nat {
    if b.idx < |b.vecs| then b.vecs[b.idx].len else b.size
  }

  function UpdateRequest(q: Queue, r: Request, error: int, n: nat): Update
    requires RequestOk(r)
  {
    if r.bios.Null? then Update(r, false, [])
    else
      var w := WalkBios(r.bios, n, error);
      var done, ended := Append(r.done, w.done), Ends(w.done, r.flushSeq, error);
      if w.left.Null? then Update(r.(done := done, bios := Null, dataLen := 0), false, ended)
      else
        WalkConserves(r.bios, n, error);
        Update(r.(done := done,
                  bios := Hinted(q, w.left),
                  dataLen := Max(r.dataLen - w.total, CurBytes(w.left.bio)),
                  sector := if r.fs then r.sector + Sectors(w.total) else r.sector,
                  nrSegs := Count(q, AllTodo(w.left))), true, ended)
  }

  // ----- conservation

  lemma {:induction false} DropPast<T>(a: seq<T>, b: seq<T>, n: nat)
    requires |a| <= n <= |a| + |b|
    ensures (a + b)[n..] == b[n - |a|..]
  {
  }

  lemma {:induction false} DropWithin<T>(a: seq<T>, b: seq<T>, n: nat)
    requires n <= |a|
    ensures (a + b)[n..] == a[n..] + b
  {
  }

  lemma {:induction false} DropOk(vs: seq<Vec>, n: nat)
    requires n <= Len(vs) && Positive(vs)
    ensures Positive(Drop(vs, n)) && Bytes(Drop(vs, n)) == Bytes(vs)[n..]
  {
    if vs == [] || n == 0 {
    } else if vs[0].len <= n {
      DropOk(vs[1..], n - vs[0].len);
      DropPast(VecBytes(vs[0]), Bytes(vs[1..]), n);
    } else {
      var v := Vec(vs[0].addr + n, vs[0].len - n);
      assert VecBytes(v) == VecBytes(vs[0])[n..];
      assert ([v] + vs[1..])[1..] == vs[1..];
      DropWithin(VecBytes(vs[0]), Bytes(vs[1..]), n);
    }
  }

  lemma {:induction false} AdvanceOk(b: Bio, n: nat, error: int)
    requires Intact(b) && n < b.size
    ensures var c := Advance(b, n, error);
            && Intact(c) && c.size == b.size - n && c.idx < |c.vecs|
            && Todo(c) == Drop(Todo(b), n) && Bytes(Todo(c)) == Bytes(Todo(b))[n..]
  {
    DropOk(Todo(b), n);
    assert Todo(Advance(b, n, error)) == Drop(Todo(b), n);
  }

  lemma {:induction false} WalkConserves(bs: Bios, n: nat, error: int)
    requires bs.Link? && BiosOk(bs)
    ensures var w := WalkBios(bs, n, error);
            w.total + TotalSize(w.left) == TotalSize(bs) && w.total <= n && BiosOk(w.left)
  {
    if n < bs.bio.size {
      AdvanceOk(bs.bio, n, error);
    } else if bs.next.Link? && n != bs.bio.size {
      WalkConserves(bs.next, n - bs.bio.size, error);
    }
  }

  /** The bios finished and the bios left are the bios there were. */
  lemma {:induction false} WalkIds(bs: Bios, n: nat, error: int)
    requires bs.Link? && BiosOk(bs)
    ensures var w := WalkBios(bs, n, error); Ids(Append(w.done, w.left)) == Ids(bs)
  {
    if bs.bio.size <= n && bs.next.Link? && n != bs.bio.size {
      WalkIds(bs.next, n - bs.bio.size, error);
    }
  }

  /** Bios that carry data. */
  predicate Data(bs: Bios) {
    bs.Link? ==> DataBio(bs.bio) && Data(bs.next)
  }

  function Min(a: nat, b: nat): nat { if a < b then a else b }

  lemma {:induction false} DataOk(bs: Bios)
    requires Data(bs)
    ensures BiosOk(bs) && TotalSize(bs) == |Bytes(AllTodo(bs))|
  {
    if bs.Link? {
      DataOk(bs.next);
      BytesAppend(Todo(bs.bio), AllTodo(bs.next));
    }
  }

  /** On data bios the walk consumes exactly the bytes asked for, or all there are. */
  lemma {:induction false} WalkTotal(bs: Bios, n: nat, error: int)
    requires bs.Link? && Data(bs) && BiosOk(bs)
    ensures var w := WalkBios(bs, n, error);
            w.total == Min(n, TotalSize(bs)) && (w.left.Null? <==> TotalSize(bs) <= n) && Data(w.left)
  {
    if n < bs.bio.size {
      AdvanceOk(bs.bio, n, error);
    } else if bs.next.Link? && n != bs.bio.size {
      WalkTotal(bs.next, n - bs.bio.size, error);
    }
  }

  lemma {:induction false} SuffixOfAppend(x: seq<nat>, y: seq<nat>, k: nat)
    requires k <= |x| + |y|
    ensures (x + y)[k..] == if k <= |x| then x[k..] + y else y[k - |x|..]
  {
  }

  /** What is left of the request is the remaining bytes. */
  lemma {:induction false} WalkBytes(bs: Bios, n: nat, error: int)
    requires bs.Link? && Data(bs) && BiosOk(bs)
    ensures var w := WalkBios(bs, n, error);
            w.total <= |Bytes(AllTodo(bs))| && Bytes(AllTodo(w.left)) == Bytes(AllTodo(bs))[w.total..]
  {
    var b, w := bs.bio, WalkBios(bs, n, error);
    BytesAppend(Todo(b), AllTodo(bs.next));
    if n < b.size {
      AdvanceOk(b, n, error);
      BytesAppend(Todo(w.left.bio), AllTodo(bs.next));
    } else if bs.next.Link? && n != b.size {
      WalkBytes(bs.next, n - b.size, error);
    }
    SuffixOfAppend(Bytes(Todo(b)), Bytes(AllTodo(bs.next)), w.total);
  }

  lemma {:induction false} HintedOk(q: Queue, bs: Bios)
    requires BiosOk(bs)
    ensures BiosOk(Hinted(q, bs)) && TotalSize(Hinted(q, bs)) == TotalSize(bs)
  {
    if bs.Link? {
      var vs := AllTodo(bs);
      var front := WithFront(bs, Max(bs.bio.segFront, CountFirst(q, vs)));
      BackHintOk(front, Max(Tail(bs).segBack, CountLast(q, vs)));
    }
  }

  lemma {:induction false} BackHintOk(bs: Bios, size: nat)
    requires bs.Link? && BiosOk(bs)
    ensures BiosOk(WithBack(bs, size)) && TotalSize(WithBack(bs, size)) == TotalSize(bs)
  {
    if bs.next.Link? { BackHintOk(bs.next, size); }
  }

  lemma {:induction false} HintedTodo(q: Queue, bs: Bios)
    requires bs.Link?
    ensures AllTodo(Hinted(q, bs)) == AllTodo(bs) && Ids(Hinted(q, bs)) == Ids(bs)
  {
    var vs := AllTodo(bs);
    var front := Max(bs.bio.segFront, CountFirst(q, vs));
    FrontHint(bs, front);
    BackHint(WithFront(bs, front), Max(Tail(bs).segBack, CountLast(q, vs)));
  }

  lemma {:induction false} HintedData(q: Queue, bs: Bios)
    requires bs.Link? && Data(bs)
    ensures Data(Hinted(q, bs))
  {
    var vs := AllTodo(bs);
    var front := WithFront(bs, Max(bs.bio.segFront, CountFirst(q, vs)));
    BackHintData(front, Max(Tail(bs).segBack, CountLast(q, vs)));
  }

  lemma {:induction false} BackHintData(bs: Bios, size: nat)
    requires bs.Link? && Data(bs)
    ensures Data(WithBack(bs, size))
  {
    if bs.next.Link? { BackHintData(bs.next, size); }
  }

  /** The first vector is no longer than the whole: the repair of a "botched" length
      is never needed. */
  lemma {:induction false} CurWithin(bs: Bios)
    requires bs.Link? && BiosOk(bs) && (bs.bio.size == 0 ==> bs.bio.idx >= |bs.bio.vecs|)
    ensures CurBytes(bs.bio) <= TotalSize(bs)
  {
  }

  /** A completion of `n` bytes takes exactly those off a request: the length stays
      exact, the position follows it, and the request is finished exactly when its
      bytes are. */
  predicate Took(r: Request, u: Update, n: nat) {
    && u.rq.dataLen == r.dataLen - Min(n, r.dataLen)
    && (u.more <==> n < r.dataLen) && (u.more <==> u.rq.bios.Link?)
    && (u.more ==> u.rq.sector == if r.fs then r.sector + Sectors(n) else r.sector)
    && u.rq.fs == r.fs
  }

  /** A request with data left. */
  predicate DataRequest(r: Request) { RequestOk(r) && r.bios.Link? && Data(r.bios) }

  lemma {:induction false} UpdateConserves(q: Queue, r: Request, error: int, n: nat)
    requires DataRequest(r)
    ensures Took(r, UpdateRequest(q, r, error, n), n) && RequestOk(UpdateRequest(q, r, error, n).rq)
    ensures UpdateRequest(q, r, error, n).more ==> DataRequest(UpdateRequest(q, r, error, n).rq)
  {
    WalkConserves(r.bios, n, error);
    WalkTotal(r.bios, n, error);
    var w := WalkBios(r.bios, n, error);
    if w.left.Link? {
      HintedOk(q, w.left);
      HintedData(q, w.left);
      CurWithin(w.left);
    }
  }

  lemma {:induction false} UpdateBytes(q: Queue, r: Request, error: int, n: nat)
    requires RequestOk(r) && r.bios.Link? && Data(r.bios)
    ensures var u := UpdateRequest(q, r, error, n);
            && r.dataLen == |Bytes(AllTodo(r.bios))|
            && Bytes(AllTodo(u.rq.bios)) == Bytes(AllTodo(r.bios))[Min(n, r.dataLen)..]
  {
    DataOk(r.bios);
    WalkTotal(r.bios, n, error);
    WalkBytes(r.bios, n, error);
    var w := WalkBios(r.bios, n, error);
    if w.left.Link? { HintedTodo(q, w.left); }
  }

  lemma {:induction false} UpdateIds(q: Queue, r: Request, error: int, n: nat)
    requires RequestOk(r)
    ensures var u := UpdateRequest(q, r, error, n);
            Ids(u.rq.done) + Ids(u.rq.bios) == Ids(r.done) + Ids(r.bios)
  {
    if r.bios.Link? {
      var w := WalkBios(r.bios, n, error);
      WalkIds(r.bios, n, error);
      AppendIds(w.done, w.left);
      AppendIds(r.done, w.done);
      if w.left.Link? { HintedTodo(q, w.left); }
      Associate(Ids(r.done), Ids(w.done), Ids(w.left));
    }
  }

  /** Exactly when completing all bytes of a request leaves it unfinished: a further
      bio with no bytes is linked behind the data. */
  lemma {:induction false} FullCompletion(q: Queue, r: Request, error: int)
    requires RequestOk(r)
    ensures UpdateRequest(q, r, error, r.dataLen).more <==>
            r.bios.Link? && r.bios.next.Link? && Tail(r.bios).size == 0
  {
    if r.bios.Link? { FullWalk(r.bios, error); }
  }

  /** Such a request: a sector of data, and behind it a bio without any. */
  lemma {:induction false} EmptyTail(q: Queue, error: int)
    ensures var b := Bio(1, [Vec(0, 512)], 0, 512, 0, true, 0, 0);
            var e := Bio(2, [], 0, 0, 1, true, 0, 0);
            var r := Request(Null, Link(b, Link(e, Null)), 0, 512, 1, false, true);
            RequestOk(r) && UpdateRequest(q, r, error, r.dataLen).more
  {
    var b := Bio(1, [Vec(0, 512)], 0, 512, 0, true, 0, 0);
    var e := Bio(2, [], 0, 0, 1, true, 0, 0);
    var r := Request(Null, Link(b, Link(e, Null)), 0, 512, 1, false, true);
    assert Todo(b) == [Vec(0, 512)];
    FullCompletion(q, r, error);
  }

  lemma {:induction false} FullWalk(bs: Bios, error: int)
    requires bs.Link? && BiosOk(bs)
    ensures WalkBios(bs, TotalSize(bs), error).left.Link? <==> bs.next.Link? && Tail(bs).size == 0
  {
    if bs.next.Link? {
      TailWithin(bs.next);
      if TotalSize(bs.next) != 0 { FullWalk(bs.next, error); }
      if bs.next.next.Null? { assert Tail(bs) == bs.next.bio; }
    }
  }

  lemma {:induction false} TailWithin(bs: Bios)
    requires bs.Link?
    ensures Tail(bs).size <= TotalSize(bs)
  {
    if bs.next.Link? { TailWithin(bs.next); }
  }

  // ----- composition

  /** What is left of a bio, without the hints and the vectors already consumed. */
  function Rest(b: Bio): Bio {
    b.(vecs := Todo(b), idx := 0, segFront := 0, segBack := 0)
  }

  function Rests(bs: Bios): Bios {
    if bs.Null? then Null else Link(Rest(bs.bio), Rests(bs.next))
  }

  /** What the submitter of a finished bio can see of it. */
  datatype Sig = Sig(id: nat, size: nat, sector: nat, uptodate: bool)

  datatype Sigs = NoSig | SigLink(sig: Sig, next: Sigs)

  function SigOf(b: Bio): Sig { Sig(b.id, b.size, b.sector, b.uptodate) }

  function SigsOf(bs: Bios): Sigs {
    if bs.Null? then NoSig else SigLink(SigOf(bs.bio), SigsOf(bs.next))
  }

  /** How two walks agree: on everything but the hints and the consumed vectors. */
  predicate Agree(w: Walk, v: Walk) {
    Rests(w.left) == Rests(v.left) && w.total == v.total && SigsOf(w.done) == SigsOf(v.done)
  }

  function Glue(w: Walk, v: Walk): Walk {
    Walk(Append(w.done, v.done), v.left, w.total + v.total)
  }

  lemma {:induction false} DropDrop(vs: seq<Vec>, a: nat, c: nat)
    requires Positive(vs) && a + c <= Len(vs)
    ensures Drop(Drop(vs, a), c) == Drop(vs, a + c)
  {
    if vs != [] && a != 0 && c != 0 {
      if vs[0].len <= a {
        DropDrop(vs[1..], a - vs[0].len, c);
      } else {
        var v := Vec(vs[0].addr + a, vs[0].len - a);
        assert Drop(vs, a) == [v] + vs[1..];
        assert ([v] + vs[1..])[1..] == vs[1..];
      }
    }
  }

  /** What is left of a bio, `n` bytes later. */
  function Shrunk(b: Bio, n: nat, error: int): Bio
    requires n <= Len(b.vecs) && n <= b.size
  {
    b.(vecs := Drop(b.vecs, n), size := b.size - n, sector := b.sector + Sectors(n),
       uptodate := b.uptodate && error == 0)
  }

  lemma {:induction false} ShrunkTwice(b: Bio, a: nat, c: nat, n: nat, error: int)
    requires n == a + c && Ample(b, n) && a % SECTOR_SIZE == 0
    ensures Shrunk(Shrunk(b, a, error), c, error) == Shrunk(b, n, error)
  {
    DropDrop(b.vecs, a, c);
    SectorsSum(a, c);
  }

  predicate Leaves(b: Bio, n: nat, error: int, d: Bio) {
    n <= Len(Rest(b).vecs) && n <= b.size && Rest(d) == Shrunk(Rest(b), n, error)
  }

  predicate SameRest(b: Bio, d: Bio) { Rest(b) == Rest(d) }

  lemma {:induction false} RestAdvance(b: Bio, n: nat, error: int)
    requires Intact(b) && 0 < n < b.size
    ensures Leaves(b, n, error, Advance(b, n, error))
  {
    AdvanceOk(b, n, error);
  }

  /** There are `n` bytes left to do. */
  predicate Ample(b: Bio, n: nat) { Positive(b.vecs) && n <= Len(b.vecs) && n <= b.size }

  lemma {:induction false} RestIntact(b: Bio, n: nat)
    requires Intact(b) && n <= b.size
    ensures Ample(Rest(b), n)
  {
  }

  lemma {:induction false} RestTwice(b: Bio, a: nat, c: nat, n: nat, error: int, d: Bio, f: Bio, g: Bio)
    requires n == a + c && Ample(Rest(b), n) && a % SECTOR_SIZE == 0
    requires Leaves(b, a, error, d) && Leaves(d, c, error, f) && Leaves(b, n, error, g)
    ensures SameRest(f, g)
  {
    ShrunkTwice(Rest(b), a, c, n, error);
  }

  /** Two partial completions of a bio leave what one of both amounts leaves. */
  lemma {:induction false} AdvanceAdvance(b: Bio, a: nat, c: nat, n: nat, error: int)
    requires n == a + c && Intact(b) && n < b.size && a % SECTOR_SIZE == 0
    requires Intact(Advance(b, a, error)) && c < Advance(b, a, error).size
    ensures SameRest(Advance(Advance(b, a, error), c, error), Advance(b, n, error))
  {
    if a == 0 {
      AdvanceSecond(b, c, error);
    } else if c == 0 {
      AdvanceFirst(b, a, error);
    } else {
      AdvanceTwice(b, a, c, n, error);
    }
  }

  lemma {:induction false} AdvanceSecond(b: Bio, c: nat, error: int)
    requires Intact(b) && c < b.size
    ensures Advance(b, 0, error) == b && SameRest(Advance(Advance(b, 0, error), c, error), Advance(b, c, error))
  {
  }

  lemma {:induction false} AdvanceFirst(b: Bio, a: nat, error: int)
    requires Intact(b) && a < b.size && Intact(Advance(b, a, error)) && 0 < Advance(b, a, error).size
    ensures SameRest(Advance(Advance(b, a, error), 0, error), Advance(b, a, error))
  {
  }

  lemma {:induction false} AdvanceTwice(b: Bio, a: nat, c: nat, n: nat, error: int)
    requires n == a + c && Intact(b) && n < b.size && a % SECTOR_SIZE == 0 && a != 0 && c != 0
    requires Intact(Advance(b, a, error)) && c < Advance(b, a, error).size
    ensures SameRest(Advance(Advance(b, a, error), c, error), Advance(b, n, error))
  {
    var d := Advance(b, a, error);
    RestIntact(b, n);
    RestAdvance(b, a, error);
    RestAdvance(d, c, error);
    RestAdvance(b, n, error);
    RestTwice(b, a, c, n, error, d, Advance(d, c, error), Advance(b, n, error));
  }

  lemma {:induction false} RestsAdvance(b: Bio, c: Bio, n: nat, error: int)
    requires Intact(b) && Intact(c) && Rest(b) == Rest(c) && n < b.size
    ensures n < c.size && Rest(Advance(b, n, error)) == Rest(Advance(c, n, error))
  {
    if n != 0 {
      RestAdvance(b, n, error);
      RestAdvance(c, n, error);
    }
  }

  /** The walk depends only on what is left of each bio. */
  lemma {:induction false} WalkRests(bs: Bios, cs: Bios, n: nat, error: int, v: Walk, w: Walk)
    requires bs.Link? && cs.Link? && BiosOk(bs) && BiosOk(cs) && Rests(bs) == Rests(cs)
    requires v == WalkBios(bs, n, error) && w == WalkBios(cs, n, error)
    ensures Agree(v, w)
  {
    assert Rest(bs.bio) == Rests(bs).bio == Rests(cs).bio == Rest(cs.bio);
    assert Rests(bs.next) == Rests(bs).next == Rests(cs).next == Rests(cs.next);
    if n < bs.bio.size {
      RestsAdvance(bs.bio, cs.bio, n, error);
    } else if bs.next.Link? && n != bs.bio.size {
      WalkRests(bs.next, cs.next, n - bs.bio.size, error, WalkBios(bs.next, n - bs.bio.size, error),
                WalkBios(cs.next, n - bs.bio.size, error));
    }
  }

  /** Bios of whole sectors, none of them empty. */
  predicate Whole(bs: Bios) {
    bs.Link? ==> 0 < bs.bio.size && bs.bio.size % SECTOR_SIZE == 0 && Whole(bs.next)
  }

  /** A walk of `a` bytes, if it leaves something, then one of `c`: a walk of `n`. */
  predicate Composes(bs: Bios, a: nat, c: nat, n: nat, error: int)
    requires bs.Link? && BiosOk(bs)
  {
    var w := WalkBios(bs, a, error);
    w.left.Link? ==> BiosOk(w.left) && Agree(Glue(w, WalkBios(w.left, c, error)), WalkBios(bs, n, error))
  }

  lemma {:induction false} WalkCompose(bs: Bios, a: nat, c: nat, n: nat, error: int)
    requires n == a + c && bs.Link? && Whole(bs) && BiosOk(bs) && a % SECTOR_SIZE == 0
    ensures Composes(bs, a, c, n, error)
  {
    if a < bs.bio.size {
      ComposeInFirst(bs, a, c, n, error);
    } else if bs.next.Null? {
    } else if a == bs.bio.size {
      ComposeAtEnd(bs, c, n, error);
    } else {
      SectorsSplit(a, bs.bio.size);
      var m, k: nat := a - bs.bio.size, n - bs.bio.size;
      WalkCompose(bs.next, m, c, k, error);
      ComposeNext(bs, a, c, n, error, m, k);
    }
  }

  lemma {:induction false} ComposeNext(bs: Bios, a: nat, c: nat, n: nat, error: int, m: nat, k: nat)
    requires bs.Link? && BiosOk(bs) && bs.next.Link? && a > bs.bio.size && n == a + c
    requires m == a - bs.bio.size && k == n - bs.bio.size && Composes(bs.next, m, c, k, error)
    ensures Composes(bs, a, c, n, error)
  {
    var w := WalkBios(bs.next, m, error);
    WalkStep(bs, a, error, m);
    if w.left.Link? {
      WalkStep(bs, n, error, k);
      GlueStep(Charge(bs.bio, bs.bio.size, error), w, WalkBios(w.left, c, error), WalkBios(bs.next, k, error),
               bs.bio.size, WalkBios(bs, a, error), WalkBios(bs, n, error));
    }
  }

  /** The walk finishes `b`, of `n` bytes, and goes on as `w`. */
  predicate Precedes(b: Bio, n: nat, w: Walk, all: Walk) { all == Prepend(b, w, n) }

  lemma {:induction false} WalkStep(bs: Bios, n: nat, error: int, m: nat)
    requires bs.Link? && BiosOk(bs) && n > bs.bio.size && bs.next.Link? && m == n - bs.bio.size
    ensures Precedes(Charge(bs.bio, bs.bio.size, error), bs.bio.size, WalkBios(bs.next, m, error),
                     WalkBios(bs, n, error))
  {
  }

  lemma {:induction false} GlueStep(b: Bio, w: Walk, v: Walk, z: Walk, n: nat, first: Walk, all: Walk)
    requires Agree(Glue(w, v), z) && Precedes(b, n, w, first) && Precedes(b, n, z, all)
    ensures first.left == w.left && Agree(Glue(first, v), all)
  {
  }

  lemma {:induction false} ComposeAtEnd(bs: Bios, c: nat, n: nat, error: int)
    requires bs.Link? && n == bs.bio.size + c && bs.next.Link? && BiosOk(bs) && bs.next.bio.size > 0
    ensures Composes(bs, bs.bio.size, c, n, error)
  {
    var x, v := Charge(bs.bio, bs.bio.size, error), WalkBios(bs.next, c, error);
    assert WalkBios(bs, bs.bio.size, error) == Walk(Link(x, Null), bs.next, bs.bio.size);
    assert Append(Link(x, Null), v.done) == Link(x, Append(Null, v.done));
    if c == 0 {
      assert v == Walk(Null, bs.next, 0);
      assert WalkBios(bs, n, error) == Walk(Link(x, Null), bs.next, bs.bio.size);
    } else {
      assert WalkBios(bs, n, error) == Prepend(x, v, bs.bio.size);
    }
  }

  /** The same, when the first walk stops inside the first bio. */
  lemma {:induction false} ComposeInFirst(bs: Bios, a: nat, c: nat, n: nat, error: int)
    requires n == a + c && bs.Link? && BiosOk(bs) && a % SECTOR_SIZE == 0 && a < bs.bio.size
    ensures Composes(bs, a, c, n, error)
  {
    AdvanceOk(bs.bio, a, error);
    var left := Link(Advance(bs.bio, a, error), bs.next);
    assert WalkBios(bs, a, error) == Walk(Null, left, a);
    if n < bs.bio.size {
      AdvanceAdvance(bs.bio, a, c, n, error);
    } else {
      FinishAdvanced(bs.bio, a, error);
    }
  }

  /** What a finished bio shows does not depend on the steps it took. */
  lemma {:induction false} FinishAdvanced(b: Bio, a: nat, error: int)
    requires Intact(b) && a < b.size && a % SECTOR_SIZE == 0
    ensures Advance(b, a, error).size == b.size - a
    ensures SigOf(Charge(Advance(b, a, error), b.size - a, error)) == SigOf(Charge(b, b.size, error))
  {
    AdvanceOk(b, a, error);
    SectorsSum(a, b.size - a);
  }

  /** Once a walk finishes everything, a longer one does the same. */
  lemma {:induction false} WalkPast(bs: Bios, a: nat, n: nat, error: int)
    requires a <= n && bs.Link? && Data(bs) && BiosOk(bs) && WalkBios(bs, a, error).left.Null?
    ensures WalkBios(bs, n, error) == WalkBios(bs, a, error)
  {
    if bs.next.Link? { WalkPast(bs.next, a - bs.bio.size, n - bs.bio.size, error); }
  }

  lemma {:induction false} RestsTodo(bs: Bios, cs: Bios)
    requires Rests(bs) == Rests(cs)
    ensures AllTodo(bs) == AllTodo(cs) && TotalSize(bs) == TotalSize(cs)
  {
    if bs.Link? {
      assert Rest(bs.bio) == Rests(bs).bio == Rests(cs).bio == Rest(cs.bio);
      assert Todo(bs.bio) == Rest(bs.bio).vecs == Rest(cs.bio).vecs == Todo(cs.bio);
      RestsTodo(bs.next, cs.next);
    }
  }

  lemma {:induction false} HintedRests(q: Queue, bs: Bios)
    ensures Rests(Hinted(q, bs)) == Rests(bs)
  {
    if bs.Link? {
      var vs := AllTodo(bs);
      var front := WithFront(bs, Max(bs.bio.segFront, CountFirst(q, vs)));
      BackHintRests(front, Max(Tail(bs).segBack, CountLast(q, vs)));
    }
  }

  lemma {:induction false} BackHintRests(bs: Bios, size: nat)
    requires bs.Link?
    ensures Rests(WithBack(bs, size)) == Rests(bs)
  {
    if bs.next.Link? { BackHintRests(bs.next, size); }
  }

  lemma {:induction false} SigsAppend(a: Bios, b: Bios, c: Bios, d: Bios)
    requires SigsOf(a) == SigsOf(c) && SigsOf(b) == SigsOf(d)
    ensures SigsOf(Append(a, b)) == SigsOf(Append(c, d))
  {
    if a.Link? { SigsAppend(a.next, b, c.next, d); }
  }

  lemma {:induction false} AppendAssoc(a: Bios, b: Bios, c: Bios)
    ensures Append(Append(a, b), c) == Append(a, Append(b, c))
  {
    if a.Link? { AppendAssoc(a.next, b, c); }
  }

  lemma {:induction false} EndsSigs(a: Bios, b: Bios, flushSeq: bool, error: int)
    requires SigsOf(a) == SigsOf(b)
    ensures Ends(a, flushSeq, error) == Ends(b, flushSeq, error)
  {
    if a.Link? {
      assert SigOf(a.bio) == SigsOf(a).sig == SigsOf(b).sig == SigOf(b.bio);
      EndsSigs(a.next, b.next, flushSeq, error);
    }
  }

  lemma {:induction false} EndsAppend(a: Bios, b: Bios, flushSeq: bool, error: int)
    ensures Ends(Append(a, b), flushSeq, error) == Ends(a, flushSeq, error) + Ends(b, flushSeq, error)
  {
    if a.Link? && !flushSeq { EndsAppend(a.next, b, flushSeq, error); }
  }

  /** The walk of the second completion, over the bios the first one left. */
  lemma {:induction false} SecondWalk(q: Queue, r: Request, a: nat, c: nat, n: nat, error: int)
    requires n == a + c && RequestOk(r) && r.bios.Link? && Whole(r.bios) && a % SECTOR_SIZE == 0
    requires WalkBios(r.bios, a, error).left.Link?
    ensures var w := WalkBios(r.bios, a, error);
            && BiosOk(Hinted(q, w.left))
            && Agree(Glue(w, WalkBios(Hinted(q, w.left), c, error)), WalkBios(r.bios, n, error))
  {
    var w := WalkBios(r.bios, a, error);
    WalkConserves(r.bios, a, error);
    HintedOk(q, w.left);
    HintedRests(q, w.left);
    WalkRests(w.left, Hinted(q, w.left), c, error, WalkBios(w.left, c, error), WalkBios(Hinted(q, w.left), c, error));
    WalkCompose(r.bios, a, c, n, error);
    SigsAppend(w.done, WalkBios(w.left, c, error).done, w.done, WalkBios(Hinted(q, w.left), c, error).done);
  }

  /** How two updates agree: the bios finished, what is left, the length, and while
      something is left the position and the segment count. */
  predicate SameOutcome(u: Update, v: Update) { SameChains(u, v) && SameLengths(u, v) && SameCounts(u, v) }

  predicate SameChains(u: Update, v: Update) {
    u.more == v.more && SigsOf(u.rq.done) == SigsOf(v.rq.done) && Rests(u.rq.bios) == Rests(v.rq.bios)
  }

  predicate SameLengths(u: Update, v: Update) {
    u.more == v.more && u.rq.dataLen == v.rq.dataLen && (u.more ==> u.rq.sector == v.rq.sector)
  }

  predicate SameCounts(u: Update, v: Update) { u.more && v.more ==> u.rq.nrSegs == v.rq.nrSegs }

  lemma {:induction false} WholeData(bs: Bios)
    requires Whole(bs) && BiosOk(bs)
    ensures Data(bs)
  {
    if bs.Link? { WholeData(bs.next); }
  }

  /** The bios left by a completion that is not the last are still data bios. */
  lemma {:induction false} FirstUpdate(q: Queue, r: Request, error: int, a: nat)
    requires RequestOk(r) && Whole(r.bios)
    ensures RequestOk(UpdateRequest(q, r, error, a).rq)
    ensures r.bios.Link? ==> UpdateRequest(q, r, error, a).rq.dataLen == r.dataLen - Min(a, r.dataLen)
    ensures UpdateRequest(q, r, error, a).more ==> a < r.dataLen
  {
    WholeData(r.bios);
    if r.bios.Link? { UpdateConserves(q, r, error, a); }
  }

  lemma {:induction false} TookTwice(r: Request, s: Update, u: Update, z: Update, a: nat, c: nat, n: nat)
    requires a % SECTOR_SIZE == 0 && n == a + c && s.more && Took(r, s, a) && Took(s.rq, u, c) && Took(r, z, n)
    ensures SameLengths(u, z)
  {
    SectorsSum(a, c);
  }

  lemma {:induction false} UpdateTook(q: Queue, r: Request, error: int, n: nat)
    requires DataRequest(r)
    ensures Took(r, UpdateRequest(q, r, error, n), n)
  {
    UpdateConserves(q, r, error, n);
  }

  lemma {:induction false} ComposeLengths(q: Queue, r: Request, error: int, a: nat, c: nat, n: nat)
    requires DataRequest(r) && a % SECTOR_SIZE == 0 && n == a + c
    requires UpdateRequest(q, r, error, a).more && DataRequest(UpdateRequest(q, r, error, a).rq)
    ensures SameLengths(UpdateRequest(q, UpdateRequest(q, r, error, a).rq, error, c), UpdateRequest(q, r, error, n))
  {
    var s := UpdateRequest(q, r, error, a);
    UpdateTook(q, r, error, a);
    UpdateTook(q, s.rq, error, c);
    UpdateTook(q, r, error, n);
    TookTwice(r, s, UpdateRequest(q, s.rq, error, c), UpdateRequest(q, r, error, n), a, c, n);
  }

  /** The segment count is that of the bios left. */
  predicate Recounted(q: Queue, u: Update) { u.more ==> u.rq.nrSegs == Count(q, AllTodo(u.rq.bios)) }

  lemma {:induction false} UpdateSegs(q: Queue, r: Request, error: int, n: nat)
    requires RequestOk(r)
    ensures Recounted(q, UpdateRequest(q, r, error, n))
  {
    if UpdateRequest(q, r, error, n).more { HintedTodo(q, WalkBios(r.bios, n, error).left); }
  }

  lemma {:induction false} SegsFromRests(q: Queue, u: Update, v: Update)
    requires Recounted(q, u) && Recounted(q, v) && SameChains(u, v)
    ensures SameCounts(u, v)
  {
    RestsTodo(u.rq.bios, v.rq.bios);
  }

  lemma {:induction false} ComposeLast(q: Queue, r: Request, error: int, a: nat, c: nat, n: nat)
    requires n == a + c
    requires RequestOk(r) && Data(r.bios) && !UpdateRequest(q, r, error, a).more &&
             RequestOk(UpdateRequest(q, r, error, a).rq)
    ensures SameOutcome(UpdateRequest(q, UpdateRequest(q, r, error, a).rq, error, c), UpdateRequest(q, r, error, n))
  {
    if r.bios.Link? { WalkPast(r.bios, a, n, error); }
  }

  lemma {:induction false} ComposeMore(q: Queue, r: Request, error: int, a: nat, c: nat, n: nat)
    requires n == a + c && DataRequest(r) && Whole(r.bios) && a % SECTOR_SIZE == 0
    requires UpdateRequest(q, r, error, a).more && DataRequest(UpdateRequest(q, r, error, a).rq)
    ensures SameOutcome(UpdateRequest(q, UpdateRequest(q, r, error, a).rq, error, c), UpdateRequest(q, r, error, n))
  {
    var s := UpdateRequest(q, r, error, a).rq;
    ComposeChains(q, r, error, a, c, n);
    ComposeLengths(q, r, error, a, c, n);
    UpdateSegs(q, s, error, c);
    UpdateSegs(q, r, error, n);
    SegsFromRests(q, UpdateRequest(q, s, error, c), UpdateRequest(q, r, error, n));
  }

  /** Completing `a` bytes and then `c` is completing all `n` of them. */
  lemma {:induction false} UpdateCompose(q: Queue, r: Request, error: int, a: nat, c: nat, n: nat)
    requires n == a + c && RequestOk(r) && Whole(r.bios) && a % SECTOR_SIZE == 0
    ensures RequestOk(UpdateRequest(q, r, error, a).rq)
    ensures SameOutcome(UpdateRequest(q, UpdateRequest(q, r, error, a).rq, error, c), UpdateRequest(q, r, error, n))
  {
    FirstUpdate(q, r, error, a);
    WholeData(r.bios);
    if UpdateRequest(q, r, error, a).more {
      UpdateConserves(q, r, error, a);
      ComposeMore(q, r, error, a, c, n);
    } else {
      ComposeLast(q, r, error, a, c, n);
    }
  }

  lemma {:induction false} ComposeChains(q: Queue, r: Request, error: int, a: nat, c: nat, n: nat)
    requires n == a + c && DataRequest(r) && Whole(r.bios) && a % SECTOR_SIZE == 0
    requires UpdateRequest(q, r, error, a).more && DataRequest(UpdateRequest(q, r, error, a).rq)
    ensures SameChains(UpdateRequest(q, UpdateRequest(q, r, error, a).rq, error, c), UpdateRequest(q, r, error, n))
  {
    var w := WalkBios(r.bios, a, error);
    SecondWalk(q, r, a, c, n, error);
    var v, z := WalkBios(Hinted(q, w.left), c, error), WalkBios(r.bios, n, error);
    AppendAssoc(r.done, w.done, v.done);
    SigsAppend(r.done, Append(w.done, v.done), r.done, z.done);
    HintedRests(q, v.left);
    HintedRests(q, z.left);
  }

  /** ... and makes the same bio_endio calls in the same order. */
  lemma {:induction false} ComposeEnds(q: Queue, r: Request, error: int, a: nat, c: nat, n: nat)
    requires n == a + c && RequestOk(r) && Whole(r.bios) && a % SECTOR_SIZE == 0
    ensures RequestOk(UpdateRequest(q, r, error, a).rq)
    ensures var u := UpdateRequest(q, r, error, a);
            u.ended + UpdateRequest(q, u.rq, error, c).ended == UpdateRequest(q, r, error, n).ended
  {
    FirstUpdate(q, r, error, a);
    WholeData(r.bios);
    if r.bios.Link? {
      var w, z := WalkBios(r.bios, a, error), WalkBios(r.bios, n, error);
      if w.left.Null? {
        WalkPast(r.bios, a, n, error);
      } else {
        SecondWalk(q, r, a, c, n, error);
        var v := WalkBios(Hinted(q, w.left), c, error);
        EndsAppend(w.done, v.done, r.flushSeq, error);
        EndsSigs(Append(w.done, v.done), z.done, r.flushSeq, error);
      }
    }
  }

  // ----- a partial completion keeps what merging relies on

  lemma {:induction false} RunWhole(bs: Bios, sector: nat)
    requires RunFrom(bs, sector).Extent?
    ensures Whole(bs)
  {
    if bs.Link? { RunWhole(bs.next, sector + Sectors(bs.bio.size)); }
  }

  lemma {:induction false} AdvanceGood(b: Bio, n: nat, error: int)
    requires GoodBio(b) && n < b.size && n % SECTOR_SIZE == 0
    ensures GoodBio(Advance(b, n, error)) && Advance(b, n, error).sector == b.sector + Sectors(n)
  {
    AdvanceOk(b, n, error);
    SectorsSplit(b.size, n);
    assert Sectors(0) == 0;
  }

  lemma {:induction false} SectorsSplit(n: nat, a: nat)
    requires a <= n && n % SECTOR_SIZE == 0 && a % SECTOR_SIZE == 0
    ensures Sectors(n) == Sectors(a) + Sectors(n - a) && (n - a) % SECTOR_SIZE == 0
  {
  }

  /** The bios are a run of `len` bytes from `sector`. */
  predicate RunAt(bs: Bios, sector: nat, len: nat) { RunFrom(bs, sector) == Extent(len) }

  predicate RunOf(bs: Bios, len: nat) { bs.Link? && RunAt(bs, bs.bio.sector, len) }

  lemma {:induction false} AdvanceRun(b: Bio, next: Bios, n: nat, error: int, rest: nat)
    requires GoodBio(b) && n < b.size && n % SECTOR_SIZE == 0
    requires RunAt(next, b.sector + Sectors(b.size), rest)
    ensures RunOf(Link(Advance(b, n, error), next), b.size - n + rest)
  {
    AdvanceOk(b, n, error);
    AdvanceGood(b, n, error);
    SectorsSplit(b.size, n);
  }

  lemma {:induction false} RunCons(bs: Bios, sector: nat, len: nat)
    requires bs.Link? && RunAt(bs, sector, len)
    ensures GoodBio(bs.bio) && bs.bio.sector == sector && bs.bio.size <= len
    ensures RunAt(bs.next, sector + Sectors(bs.bio.size), len - bs.bio.size)
    ensures bs.bio.size < len ==> RunOf(bs.next, len - bs.bio.size)
  {
  }

  lemma {:induction false} WalkLeft(bs: Bios, n: nat, error: int, left: Bios)
    requires bs.Link? && BiosOk(bs) && left == WalkBios(bs, n, error).left
    ensures n < bs.bio.size ==> left == Link(Advance(bs.bio, n, error), bs.next)
    ensures n == bs.bio.size ==> left == bs.next
  {
  }

  lemma {:induction false} WalkLeftNext(bs: Bios, n: nat, error: int, left: Bios, m: nat)
    requires bs.Link? && BiosOk(bs) && left == WalkBios(bs, n, error).left
    requires n > bs.bio.size && bs.next.Link? && m == n - bs.bio.size
    ensures left == WalkBios(bs.next, m, error).left
  {
  }

  /** The bios left are a run again ... */
  lemma {:induction false} WalkRun(bs: Bios, n: nat, error: int, sector: nat, len: nat, left: Bios)
    requires bs.Link? && BiosOk(bs) && RunAt(bs, sector, len) && n % SECTOR_SIZE == 0 && n < len
    requires left == WalkBios(bs, n, error).left
    ensures RunOf(left, len - n)
  {
    var b := bs.bio;
    RunCons(bs, sector, len);
    WalkLeft(bs, n, error, left);
    var rest: nat := len - b.size;
    if n < b.size {
      AdvanceRun(b, bs.next, n, error, rest);
    } else if n > b.size {
      var m: nat, next := n - b.size, sector + Sectors(b.size);
      WalkLeftNext(bs, n, error, left, m);
      SectorsSplit(n, b.size);
      WalkRun(bs.next, m, error, next, rest, left);
    }
  }

  /** ... that starts where the bytes consumed end. */
  lemma {:induction false} WalkSector(bs: Bios, n: nat, error: int, sector: nat)
    requires bs.Link? && BiosOk(bs) && RunFrom(bs, sector).Extent? && n % SECTOR_SIZE == 0
    requires WalkBios(bs, n, error).left.Link?
    ensures WalkBios(bs, n, error).left.bio.sector == sector + Sectors(n)
  {
    var b := bs.bio;
    if n < b.size {
      AdvanceGood(b, n, error);
    } else if n != b.size {
      SectorsSplit(n, b.size);
      WalkSector(bs.next, n - b.size, error, sector + Sectors(b.size));
    }
  }

  lemma {:induction false} HintedRun(q: Queue, bs: Bios, sector: nat)
    requires bs.Link?
    ensures RunFrom(Hinted(q, bs), sector) == RunFrom(bs, sector)
  {
    var vs := AllTodo(bs);
    var front := WithFront(bs, Max(bs.bio.segFront, CountFirst(q, vs)));
    BackHintRun(front, Max(Tail(bs).segBack, CountLast(q, vs)), sector);
  }

  lemma {:induction false} RecountRun(q: Queue, left: Bios, sector: nat)
    requires left.Link? && RunFrom(left, sector).Extent?
    ensures RunFrom(Hinted(q, left), sector) == RunFrom(left, sector)
    ensures Tallied(q, Hinted(q, left), Count(q, AllTodo(left)))
  {
    HintedRun(q, left, sector);
    FirstVec(left, sector);
    RecountEstablishes(q, left);
  }

  /** The request that a partial completion leaves, from the bios `left`. */
  predicate Remains(q: Queue, u: Request, left: Bios, sector: nat, len: nat) {
    && left.Link? && left.bio.sector == sector && u.bios == Hinted(q, left) && u.nrSegs == Count(q, AllTodo(left))
    && u.sector == sector && u.dataLen == len
  }

  lemma {:induction false} RemainsInv(q: Queue, u: Request, left: Bios, sector: nat, len: nat)
    requires Remains(q, u, left, sector, len) && RunOf(left, len)
    ensures Inv(q, u)
  {
    RecountRun(q, left, sector);
  }

  lemma {:induction false} UpdateRemains(q: Queue, r: Request, error: int, n: nat, left: Bios)
    requires DataRequest(r) && r.fs && n < r.dataLen && left == WalkBios(r.bios, n, error).left
    requires left.Link? && left.bio.sector == r.sector + Sectors(n)
    ensures UpdateRequest(q, r, error, n).more
    ensures Remains(q, UpdateRequest(q, r, error, n).rq, left, left.bio.sector, r.dataLen - n)
  {
    UpdateConserves(q, r, error, n);
  }

  /** A partial completion in whole sectors leaves a request that keeps every
      invariant: it can be merged and mapped again. */
  lemma {:induction false} UpdateInv(q: Queue, r: Request, error: int, n: nat)
    requires Inv(q, r) && r.fs && n % SECTOR_SIZE == 0 && n < r.dataLen
    ensures RequestOk(r) && UpdateRequest(q, r, error, n).more && Inv(q, UpdateRequest(q, r, error, n).rq)
  {
    RunOk(r.bios, r.sector);
    RunWhole(r.bios, r.sector);
    WholeData(r.bios);
    var left, len: nat := WalkBios(r.bios, n, error).left, r.dataLen - n;
    WalkRun(r.bios, n, error, r.sector, r.dataLen, left);
    WalkSector(r.bios, n, error, r.sector);
    UpdateRemains(q, r, error, n, left);
    RemainsInv(q, UpdateRequest(q, r, error, n).rq, left, left.bio.sector, len);
  }
}
