/**
 Which vectors share a segment, said of the vectors themselves: a request's vectors fall
 into parts, each as long as the queue allows and no longer. The scatterlist has one entry
 for each part, and the segment count is the number of parts when pages that may be
 bounced are kept apart.
 */
module SegmentParts {
  import opened Numbers
  import opened BlockTypes
  import opened Segments

  /** May two consecutive vectors share a segment? If `low`, pages that may be bounced may not. */
  predicate Shares(q: Queue, low: bool, a: Vec, b: Vec) {
    && q.cluster && a.addr + a.len == b.addr && q.archMergeable(a, b) && q.boundaryOk(a, b)
    && (low ==> !q.high(a) && !q.high(b))
  }

  predicate Together(q: Queue, low: bool, part: seq<Vec>) {
    forall i, j :: 0 <= i < |part| && 0 <= j < |part| && j == i + 1 ==> Shares(q, low, part[i], part[j])
  }

  /** Consecutive vectors that the queue allows in one segment. */
  predicate Part(q: Queue, low: bool, part: seq<Vec>) {
    part != [] && Together(q, low, part) && (|part| > 1 ==> Len(part) <= q.maxSegmentSize)
  }

  /** The next vector may not be added. */
  predicate Complete(q: Queue, low: bool, part: seq<Vec>, v: Vec)
    requires part != []
  {
    !Shares(q, low, part[|part| - 1], v) || Len(part) + v.len > q.maxSegmentSize
  }

  /** The vectors fall into `parts`, in order; each part goes on until the next vector may
      not be added. */
  predicate Division(q: Queue, low: bool, vs: seq<Vec>, parts: seq<seq<Vec>>)
    decreases |parts|
  {
    if parts == [] then vs == []
    else
      && Part(q, low, parts[0]) && parts[0] <= vs
      && (|parts[0]| < |vs| ==> Complete(q, low, parts[0], vs[|parts[0]|]))
      && Division(q, low, vs[|parts[0]|..], parts[1..])
  }

  /** One entry for each part: where its first vector starts, and as long as all of them. */
  predicate Entries(sg: seq<Vec>, parts: seq<seq<Vec>>)
    decreases |parts|
  {
    if parts == [] then sg == []
    else
      && sg != [] && parts[0] != [] && sg[0] == Vec(parts[0][0].addr, Len(parts[0]))
      && Entries(sg[1..], parts[1..])
  }

  /** The entries are those of the vectors' parts. */
  ghost predicate Maps(q: Queue, vs: seq<Vec>, sg: seq<Vec>) {
    exists parts :: Division(q, false, vs, parts) && Entries(sg, parts)
  }

  lemma {:induction false} LenSnoc(a: seq<Vec>, v: Vec)
    ensures Len(a + [v]) == Len(a) + v.len
  {
    if a == [] {
      assert [v][1..] == [];
    } else {
      LenSnoc(a[1..], v);
      assert (a + [v])[1..] == a[1..] + [v];
    }
  }

  // ----- the division is the only one

  lemma {:induction false} LenPrefix(a: seq<Vec>, n: nat)
    requires n < |a|
    ensures Len(a[..n]) + a[n].len <= Len(a)
  {
    if n > 0 {
      LenPrefix(a[1..], n - 1);
      assert a[..n][1..] == a[1..][..n - 1];
    }
  }

  lemma {:induction false} Unfinished(q: Queue, low: bool, a: seq<Vec>, b: seq<Vec>)
    requires a != [] && a <= b && |a| < |b| && Part(q, low, b)
    ensures !Complete(q, low, a, b[|a|])
  {
    LenPrefix(b, |a|);
    assert b[..|a|] == a;
  }

  lemma {:induction false} NotShorter(q: Queue, low: bool, vs: seq<Vec>, a: seq<Vec>, b: seq<Vec>)
    requires a <= vs && b <= vs && a != [] && Part(q, low, b)
    requires |a| < |vs| ==> Complete(q, low, a, vs[|a|])
    ensures |a| >= |b|
  {
    if |a| < |b| { Unfinished(q, low, a, b); }
  }

  /** There is only one way to divide the vectors like this. */
  lemma {:induction false} DivisionOnce(q: Queue, low: bool, vs: seq<Vec>, a: seq<seq<Vec>>, b: seq<seq<Vec>>)
    requires Division(q, low, vs, a) && Division(q, low, vs, b)
    ensures a == b
    decreases |a|
  {
    if a != [] {
      NotShorter(q, low, vs, a[0], b[0]);
      NotShorter(q, low, vs, b[0], a[0]);
      assert a[0] == vs[..|a[0]|] == b[0];
      DivisionOnce(q, low, vs[|a[0]|..], a[1..], b[1..]);
    }
  }

  // ----- the scatterlist

  /** A part that another vector joins. */
  lemma {:induction false} PartGrows(q: Queue, low: bool, part: seq<Vec>, v: Vec)
    requires Part(q, low, part) && !Complete(q, low, part, v)
    ensures Part(q, low, part + [v]) && Len(part + [v]) == Len(part) + v.len
  {
    LenSnoc(part, v);
  }

  lemma {:induction false} PartOne(q: Queue, low: bool, v: Vec)
    ensures Part(q, low, [v]) && Len([v]) == v.len
  {
    assert [v][1..] == [];
  }

  /** A part that ends, and the division of the rest. */
  lemma {:induction false} PartEnds(q: Queue, low: bool, part: seq<Vec>, vs: seq<Vec>, parts: seq<seq<Vec>>)
    requires Part(q, low, part) && Division(q, low, vs, parts) && (vs != [] ==> Complete(q, low, part, vs[0]))
    ensures Division(q, low, part + vs, [part] + parts)
  {
    assert (part + vs)[|part|..] == vs && ([part] + parts)[1..] == parts;
  }

  lemma {:induction false} EntriesMore(sg: seq<Vec>, part: seq<Vec>, parts: seq<seq<Vec>>, e: Vec)
    requires Entries(sg, parts) && part != [] && e == Vec(part[0].addr, Len(part))
    ensures Entries([e] + sg, [part] + parts)
  {
    assert ([e] + sg)[1..] == sg && ([part] + parts)[1..] == parts;
  }

  lemma {:induction false} GatherDivides(q: Queue, open: Vec, part: seq<Vec>, vs: seq<Vec>)
    returns (parts: seq<seq<Vec>>)
    requires Part(q, false, part) && open == Vec(part[0].addr, Len(part))
    ensures Division(q, false, part + vs, parts) && Entries(Gather(q, open, part[|part| - 1], vs), parts)
    decreases |vs|
  {
    if vs == [] {
      parts := [part];
      PartEnds(q, false, part, [], []);
      EntriesMore([], part, [], open);
    } else if Joins(q, part[|part| - 1], open.len, vs[0]) {
      PartGrows(q, false, part, vs[0]);
      parts := GatherDivides(q, Vec(open.addr, open.len + vs[0].len), part + [vs[0]], vs[1..]);
      assert part + [vs[0]] + vs[1..] == part + vs;
    } else {
      PartOne(q, false, vs[0]);
      var rest := GatherDivides(q, vs[0], [vs[0]], vs[1..]);
      assert [vs[0]] + vs[1..] == vs;
      parts := [part] + rest;
      PartEnds(q, false, part, vs, rest);
      EntriesMore(Gather(q, vs[0], vs[0], vs[1..]), part, rest, open);
    }
  }

  /** The scatterlist has exactly the entries that the queue allows and asks for. */
  lemma {:induction false} MapSgMaps(q: Queue, vs: seq<Vec>)
    ensures Maps(q, vs, MapSg(q, vs))
  {
    if vs == [] {
      assert Division(q, false, vs, []) && Entries([], []);
    } else {
      PartOne(q, false, vs[0]);
      var parts := GatherDivides(q, vs[0], [vs[0]], vs[1..]);
      assert [vs[0]] + vs[1..] == vs;
    }
  }

  // ----- the count

  /** The number of parts, and the sizes of the first and the last. */
  predicate Sized(parts: seq<seq<Vec>>, n: nat, first: nat, last: nat) {
    |parts| == n && n > 0 && Len(parts[0]) == first && Len(parts[n - 1]) == last
  }

  lemma {:induction false} SizedMore(part: seq<Vec>, parts: seq<seq<Vec>>, n: nat, m: nat, first: nat, last: nat)
    requires Sized(parts, n, first, last) && m == n + 1
    ensures Sized([part] + parts, m, Len(part), last)
  {
  }

  /** The counts of a division that goes on with a vector, or with a new segment. */
  predicate Tells(len: nat, vs: seq<Vec>, brk: seq<bool>, n: nat, first: nat, last: nat) {
    |vs| == |brk| && n == 1 + Breaks(brk) && first == FirstLen(len, vs, brk) && last == LastLen(len, vs, brk)
  }

  lemma {:induction false} TellsJoin(len: nat, grown: nat, vs: seq<Vec>, brk: seq<bool>, n: nat, first: nat, last: nat)
    requires vs != [] && Tells(len, vs, brk, n, first, last) && !brk[0] && grown == len + vs[0].len
    ensures Tells(grown, vs[1..], brk[1..], n, first, last)
  {
  }

  lemma {:induction false} TellsBreak(len: nat, vs: seq<Vec>, brk: seq<bool>, n: nat, first: nat, last: nat)
    returns (m: nat, next: nat)
    requires vs != [] && Tells(len, vs, brk, n, first, last) && brk[0]
    ensures n == m + 1 && first == len && Tells(vs[0].len, vs[1..], brk[1..], m, next, last)
  {
    m, next := 1 + Breaks(brk[1..]), FirstLen(vs[0].len, vs[1..], brk[1..]);
  }

  lemma {:induction false} LowDivides(q: Queue, part: seq<Vec>, vs: seq<Vec>, len: nat, brk: seq<bool>,
                                      n: nat, first: nat, last: nat)
    returns (parts: seq<seq<Vec>>)
    requires Part(q, true, part) && len == Len(part) && brk == LowBreaks(q, part[|part| - 1], len, vs)
    requires Tells(len, vs, brk, n, first, last)
    ensures Division(q, true, part + vs, parts) && Sized(parts, n, first, last)
    decreases |vs|
  {
    if vs == [] {
      parts := [part];
      PartEnds(q, true, part, [], []);
    } else if JoinsLow(q, part[|part| - 1], len, vs[0]) {
      PartGrows(q, true, part, vs[0]);
      var grown := len + vs[0].len;
      TellsJoin(len, grown, vs, brk, n, first, last);
      parts := LowDivides(q, part + [vs[0]], vs[1..], grown, brk[1..], n, first, last);
      assert part + [vs[0]] + vs[1..] == part + vs;
    } else {
      PartOne(q, true, vs[0]);
      var m, next := TellsBreak(len, vs, brk, n, first, last);
      var rest := LowDivides(q, [vs[0]], vs[1..], vs[0].len, brk[1..], m, next, last);
      assert [vs[0]] + vs[1..] == vs;
      parts := [part] + rest;
      PartEnds(q, true, part, vs, rest);
      SizedMore(part, rest, m, n, next, last);
    }
  }

  /** The count is the number of parts of low pages, and the sizes kept with it are those of
      the first and the last. */
  lemma {:induction false} CountDivides(q: Queue, vs: seq<Vec>) returns (parts: seq<seq<Vec>>)
    ensures Division(q, true, vs, parts) && |parts| == Count(q, vs)
    ensures parts != [] ==> CountFirst(q, vs) == Len(parts[0]) && CountLast(q, vs) == Len(parts[|parts| - 1])
  {
    if vs == [] {
      parts := [];
    } else {
      PartOne(q, true, vs[0]);
      var brk := LowBreaks(q, vs[0], vs[0].len, vs[1..]);
      parts := LowDivides(q, [vs[0]], vs[1..], vs[0].len, brk, Count(q, vs), CountFirst(q, vs), CountLast(q, vs));
      assert [vs[0]] + vs[1..] == vs;
    }
  }

  /** A recount raises the hint of the first bio to the size of the first part, and that of
      the last bio to the size of the last part, if they were lower. */
  lemma {:induction false} HintsExact(q: Queue, bs: Bios) returns (parts: seq<seq<Vec>>)
    requires bs.Link? && AllTodo(bs) != []
    ensures Division(q, true, AllTodo(bs), parts) && parts != []
    ensures var hs := Hinted(q, bs);
            && hs.bio.segFront == Max(bs.bio.segFront, Len(parts[0]))
            && Tail(hs).segBack == Max(Tail(bs).segBack, Len(parts[|parts| - 1]))
            && AllTodo(hs) == AllTodo(bs) && Ids(hs) == Ids(bs)
  {
    var vs := AllTodo(bs);
    parts := CountDivides(q, vs);
    var front := Max(bs.bio.segFront, CountFirst(q, vs));
    FrontHint(bs, front);
    BackHint(WithFront(bs, front), Max(Tail(bs).segBack, CountLast(q, vs)));
  }

  lemma {:induction false} LowAnyway(q: Queue, vs: seq<Vec>, parts: seq<seq<Vec>>)
    requires Division(q, true, vs, parts) && forall v :: v in vs ==> !q.high(v)
    ensures Division(q, false, vs, parts)
    decreases |parts|
  {
    if parts != [] {
      LowAnyway(q, vs[|parts[0]|..], parts[1..]);
      if |parts[0]| < |vs| { assert parts[0][|parts[0]| - 1] in vs && vs[|parts[0]|] in vs; }
    }
  }

  lemma {:induction false} EntriesLength(sg: seq<Vec>, parts: seq<seq<Vec>>)
    requires Entries(sg, parts)
    ensures |sg| == |parts|
    decreases |parts|
  {
    if parts != [] { EntriesLength(sg[1..], parts[1..]); }
  }

  /** A fresh count of pages that are not bounced is exact: it is the number of entries. */
  lemma {:induction false} CountExact(q: Queue, vs: seq<Vec>)
    requires forall v :: v in vs ==> !q.high(v)
    ensures Count(q, vs) == |MapSg(q, vs)|
  {
    var a := CountDivides(q, vs);
    LowAnyway(q, vs, a);
    MapSgMaps(q, vs);
    var b :| Division(q, false, vs, b) && Entries(MapSg(q, vs), b);
    DivisionOnce(q, false, vs, a, b);
    EntriesLength(MapSg(q, vs), b);
  }
}
