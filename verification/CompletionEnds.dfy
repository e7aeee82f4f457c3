/**
 What the submitters of a request's bios are told: which bios a completion ends, and with
 which error.
 */
module CompletionEnds {
  import opened BlockTypes
  import opened Segments
  import opened SegmentParts
  import opened Completion

  /** The bio at a place of a chain. */
  function Nth(bs: Bios, i: nat): Bio
    requires i < |Ids(bs)|
  {
    if i == 0 then bs.bio else Nth(bs.next, i - 1)
  }

  /** The completion's own error, or EIO if an earlier part of the bio has failed. */
  function Told(b: Bio, error: int): End { End(b.id, if error != 0 then error else if b.uptodate then 0 else EIO) }

  /** The first `k` bios are ended, in order. */
  predicate EndsFirst(ended: seq<End>, bs: Bios, k: nat, error: int) {
    |ended| == k <= |Ids(bs)| && forall i :: 0 <= i < k ==> ended[i] == Told(Nth(bs, i), error)
  }

  lemma {:induction false} EndsMore(ended: seq<End>, b: Bio, next: Bios, k: nat, m: nat, error: int)
    requires EndsFirst(ended, next, k, error) && m == k + 1
    ensures EndsFirst([Told(b, error)] + ended, Link(b, next), m, error)
  {
    forall i | 0 <= i < m
      ensures ([Told(b, error)] + ended)[i] == Told(Nth(Link(b, next), i), error)
    {
      if i > 0 { assert ended[i - 1] == Told(Nth(next, i - 1), error); }
    }
  }

  /** What is left begins with `c`, which was `b`: an error marks it if bytes of it are done. */
  predicate Marked(b: Bio, c: Bio, error: int) {
    c.id == b.id && c.size <= b.size && (c.uptodate <==> b.uptodate && (error == 0 || c.size == b.size))
  }

  lemma {:induction false} WalkEnds(bs: Bios, n: nat, error: int, w: Walk) returns (k: nat)
    requires bs.Link? && BiosOk(bs) && w == WalkBios(bs, n, error)
    ensures EndsFirst(Ends(w.done, false, error), bs, k, error) && k + |Ids(w.left)| == |Ids(bs)|
    ensures w.left.Link? ==> k < |Ids(bs)| && Marked(Nth(bs, k), w.left.bio, error)
  {
    var b := bs.bio;
    if n < b.size {
      k := 0;
    } else if bs.next.Null? || n == b.size {
      k := 1;
      EndsMore([], b, bs.next, 0, 1, error);
      assert Ends(w.done, false, error) == [Told(b, error)] + Ends(Null, false, error);
    } else {
      var v := WalkBios(bs.next, n - b.size, error);
      var j := WalkEnds(bs.next, n - b.size, error, v);
      k := j + 1;
      EndsMore(Ends(v.done, false, error), b, bs.next, j, k, error);
    }
  }

  /** A completion ends the bios that are not left, in order and each with its own error; an
      error marks the first one left if bytes of it are done, so that it ends with EIO; and
      inside a flush sequence nothing is ended. */
  lemma {:induction false} UpdateEnds(q: Queue, r: Request, error: int, n: nat) returns (k: nat)
    requires RequestOk(r)
    ensures var u := UpdateRequest(q, r, error, n);
            && k + |Ids(u.rq.bios)| == |Ids(r.bios)|
            && (if r.flushSeq then u.ended == [] else EndsFirst(u.ended, r.bios, k, error))
            && (u.rq.bios.Link? ==> Marked(Nth(r.bios, k), u.rq.bios.bio, error))
  {
    k := 0;
    if r.bios.Link? {
      var w := WalkBios(r.bios, n, error);
      k := WalkEnds(r.bios, n, error, w);
      if w.left.Link? {
        HintedTodo(q, w.left);
        HintedFirst(q, w.left);
      }
    }
  }

  lemma {:induction false} HintedFirst(q: Queue, bs: Bios)
    requires bs.Link?
    ensures var b, h := bs.bio, Hinted(q, bs).bio; h.id == b.id && h.size == b.size && h.uptodate == b.uptodate
  {
  }

  /** The segments of what is left are counted afresh: they are the parts of its vectors. */
  lemma {:induction false} UpdateSegments(q: Queue, r: Request, error: int, n: nat) returns (parts: seq<seq<Vec>>)
    requires RequestOk(r) && UpdateRequest(q, r, error, n).more
    ensures var u := UpdateRequest(q, r, error, n);
            Division(q, true, AllTodo(u.rq.bios), parts) && u.rq.nrSegs == |parts|
  {
    var w := WalkBios(r.bios, n, error);
    HintedTodo(q, w.left);
    parts := CountDivides(q, AllTodo(w.left));
  }
}
