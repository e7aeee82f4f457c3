/**
 Physical segments of a request (block/blk-merge.c): the count kept while bios and
 requests are merged, and the scatterlist a driver later builds.

 A division of a request's vectors into segments is a sequence of flags, one for
 every vector after the first: `true` where a new segment starts.
 */
module Segments {
  import opened BlockTypes
  import opened Numbers

  /** The queue limits that decide which vectors may share a segment.
      The architecture's part of BIOVEC_PHYS_MERGEABLE, the boundary mask and the
      bounce limit are left open. */
  datatype Queue = Queue(cluster: bool, maxSegmentSize: nat, maxSegments: nat, maxSectors: nat,
                         archMergeable: (Vec, Vec) -> bool,
                         boundaryOk: (Vec, Vec) -> bool,
                         high: Vec -> bool)

  predicate PhysMergeable(q: Queue, a: Vec, b: Vec) {
    a.addr + a.len == b.addr && q.archMergeable(a, b)
  }

  /** May `v` extend an open segment of `len` bytes whose last vector is `prev`? */
  predicate Joins(q: Queue, prev: Vec, len: nat, v: Vec) {
    && q.cluster
    && len + v.len <= q.maxSegmentSize
    && PhysMergeable(q, prev, v)
    && q.boundaryOk(prev, v)
  }

  /** The same question as the counting loop asks it: high pages never share. */
  predicate JoinsLow(q: Queue, prev: Vec, len: nat, v: Vec) {
    !q.high(v) && !q.high(prev) && Joins(q, prev, len, v)
  }

  // ----- divisions into segments

  predicate Feasible(q: Queue, prev: Vec, len: nat, vs: seq<Vec>, brk: seq<bool>)
    decreases |vs|
  {
    && |vs| == |brk|
    && (vs != [] ==>
          if brk[0] then Feasible(q, vs[0], vs[0].len, vs[1..], brk[1..])
          else Joins(q, prev, len, vs[0]) && Feasible(q, vs[0], len + vs[0].len, vs[1..], brk[1..]))
  }

  function Breaks(brk: seq<bool>): nat {
    if brk == [] then 0 else (if brk[0] then 1 else 0) + Breaks(brk[1..])
  }

  /** Size of the first segment, the open one having `len` bytes. */
  function FirstLen(len: nat, vs: seq<Vec>, brk: seq<bool>): nat
    requires |vs| == |brk|
    decreases |vs|
  {
    if vs == [] || brk[0] then len else FirstLen(len + vs[0].len, vs[1..], brk[1..])
  }

  /** Size of the last segment, the open one having `len` bytes. */
  function LastLen(len: nat, vs: seq<Vec>, brk: seq<bool>): nat
    requires |vs| == |brk|
    decreases |vs|
  {
    if vs == [] then len
    else LastLen(if brk[0] then vs[0].len else len + vs[0].len, vs[1..], brk[1..])
  }

  /** `brk` divides `vs` into `n` feasible segments, the first of at most `front`
      bytes and the last of at most `back` bytes. */
  predicate Divides(q: Queue, vs: seq<Vec>, brk: seq<bool>, n: nat, front: nat, back: nat) {
    && |vs| == |brk| + 1
    && Feasible(q, vs[0], vs[0].len, vs[1..], brk)
    && n == 1 + Breaks(brk)
    && FirstLen(vs[0].len, vs[1..], brk) <= front
    && LastLen(vs[0].len, vs[1..], brk) <= back
  }

  // ----- the greedy scatterlist

  /** The entries emitted for `vs` when `open` is the current entry and `prev` the
      vector last added to it. */
  function Gather(q: Queue, open: Vec, prev: Vec, vs: seq<Vec>): (sg: seq<Vec>)
    ensures |sg| >= 1
    decreases |vs|
  {
    if vs == [] then [open]
    else if Joins(q, prev, open.len, vs[0]) then
      Gather(q, Vec(open.addr, open.len + vs[0].len), vs[0], vs[1..])
    else [open] + Gather(q, vs[0], vs[0], vs[1..])
  }

  function MapSg(q: Queue, vs: seq<Vec>): (sg: seq<Vec>) {
    if vs == [] then [] else Gather(q, vs[0], vs[0], vs[1..])
  }

  /** A shorter open entry never leads to more entries, a longer one to at most one more. */
  lemma {:induction false} GatherMonotone(q: Queue, a: Vec, b: Vec, prev: Vec, vs: seq<Vec>)
    requires a.len <= b.len
    ensures |Gather(q, a, prev, vs)| <= |Gather(q, b, prev, vs)| <= |Gather(q, a, prev, vs)| + 1
    decreases |vs|
  {
    if vs != [] {
      var v := vs[0];
      var a' := Vec(a.addr, a.len + v.len);
      var b' := Vec(b.addr, b.len + v.len);
      if Joins(q, prev, b.len, v) {
        GatherMonotone(q, a', b', v, vs[1..]);
      } else if Joins(q, prev, a.len, v) {
        GatherMonotone(q, v, a', v, vs[1..]);
      }
    }
  }

  /** No feasible division needs fewer segments than the greedy scatterlist. */
  lemma {:induction false} GatherOptimal(q: Queue, open: Vec, prev: Vec, vs: seq<Vec>, brk: seq<bool>)
    requires Feasible(q, prev, open.len, vs, brk)
    ensures |Gather(q, open, prev, vs)| <= 1 + Breaks(brk)
    decreases |vs|
  {
    if vs != [] {
      var v := vs[0];
      var grown := Vec(open.addr, open.len + v.len);
      if brk[0] {
        GatherOptimal(q, v, v, vs[1..], brk[1..]);
        GatherMonotone(q, v, grown, v, vs[1..]);
      } else {
        GatherOptimal(q, grown, v, vs[1..], brk[1..]);
      }
    }
  }

  lemma {:induction false} GrownBytes(open: Vec, v: Vec, grown: Vec)
    requires open.addr + open.len == v.addr && grown == Vec(open.addr, open.len + v.len)
    ensures VecBytes(grown) == VecBytes(open) + VecBytes(v)
  {
  }

  /** The entries cover the bytes of the vectors, in order. */
  lemma {:induction false} GatherBytes(q: Queue, open: Vec, prev: Vec, vs: seq<Vec>, sg: seq<Vec>)
    requires open.addr + open.len == prev.addr + prev.len && sg == Gather(q, open, prev, vs)
    ensures Bytes(sg) == VecBytes(open) + Bytes(vs)
    decreases |vs|
  {
    if vs == [] {
      assert sg[1..] == [];
    } else if Joins(q, prev, open.len, vs[0]) {
      var grown := Vec(open.addr, open.len + vs[0].len);
      GatherBytes(q, grown, vs[0], vs[1..], sg);
      GrownBytes(open, vs[0], grown);
      Associate(VecBytes(open), VecBytes(vs[0]), Bytes(vs[1..]));
    } else {
      GatherBytes(q, vs[0], vs[0], vs[1..], sg[1..]);
    }
  }

  lemma {:induction false} MapSgBytes(q: Queue, vs: seq<Vec>)
    ensures Bytes(MapSg(q, vs)) == Bytes(vs)
  {
    if vs != [] { GatherBytes(q, vs[0], vs[0], vs[1..], MapSg(q, vs)); }
  }

  lemma {:induction false} MapSgOptimal(q: Queue, vs: seq<Vec>, brk: seq<bool>, n: nat, front: nat, back: nat)
    requires Divides(q, vs, brk, n, front, back)
    ensures |MapSg(q, vs)| <= n
  {
    GatherOptimal(q, vs[0], vs[0], vs[1..], brk);
  }

  // ----- joining two divisions

  lemma {:induction false} BreaksAppend(a: seq<bool>, b: seq<bool>)
    ensures Breaks(a + b) == Breaks(a) + Breaks(b)
  {
    if a == [] {
      assert a + b == b;
    } else {
      assert (a + b)[1..] == a[1..] + b;
      BreaksAppend(a[1..], b);
    }
  }

  /** Growing the open segment keeps a division feasible while its first segment fits. */
  lemma {:induction false} FeasibleGrown(q: Queue, prev: Vec, len: nat, extra: nat, vs: seq<Vec>, brk: seq<bool>)
    requires Feasible(q, prev, len, vs, brk)
    requires FirstLen(len, vs, brk) + extra <= q.maxSegmentSize
    ensures Feasible(q, prev, len + extra, vs, brk)
    ensures FirstLen(len + extra, vs, brk) == FirstLen(len, vs, brk) + extra
    ensures LastLen(len + extra, vs, brk) == LastLen(len, vs, brk) + if Breaks(brk) == 0 then extra else 0
    decreases |vs|
  {
    if vs != [] && !brk[0] {
      FirstLenGrows(len + vs[0].len, vs[1..], brk[1..]);
      FeasibleGrown(q, vs[0], len + vs[0].len, extra, vs[1..], brk[1..]);
    }
  }

  lemma {:induction false} FirstLenGrows(len: nat, vs: seq<Vec>, brk: seq<bool>)
    requires |vs| == |brk|
    ensures len <= FirstLen(len, vs, brk)
    ensures Breaks(brk) == 0 ==> LastLen(len, vs, brk) == FirstLen(len, vs, brk)
    decreases |vs|
  {
    if vs != [] && !brk[0] { FirstLenGrows(len + vs[0].len, vs[1..], brk[1..]); }
  }

  lemma {:induction false} LensAppend(len: nat, a: seq<Vec>, abrk: seq<bool>, b: seq<Vec>, bbrk: seq<bool>, br: bool)
    requires |a| == |abrk| && |b| == |bbrk| + 1
    ensures FirstLen(len, a + b, abrk + [br] + bbrk) ==
            if Breaks(abrk) == 0 && !br
            then FirstLen(LastLen(len, a, abrk) + b[0].len, b[1..], bbrk)
            else FirstLen(len, a, abrk)
    ensures LastLen(len, a + b, abrk + [br] + bbrk) ==
            LastLen(if br then b[0].len else LastLen(len, a, abrk) + b[0].len, b[1..], bbrk)
    decreases |a|
  {
    var vs, brk := a + b, abrk + [br] + bbrk;
    if a == [] {
      assert vs == b && brk[1..] == bbrk;
    } else {
      assert vs[1..] == a[1..] + b && brk[1..] == abrk[1..] + [br] + bbrk;
      var l := if abrk[0] then a[0].len else len + a[0].len;
      LensAppend(l, a[1..], abrk[1..], b, bbrk, br);
    }
  }

  /** Two divisions side by side. */
  lemma {:induction false} FeasibleAppend(q: Queue, prev: Vec, len: nat, a: seq<Vec>, abrk: seq<bool>,
                                          b: seq<Vec>, bbrk: seq<bool>, br: bool, vs: seq<Vec>, brk: seq<bool>)
    requires Feasible(q, prev, len, a, abrk)
    requires |b| == |bbrk| + 1 && vs == a + b && brk == abrk + [br] + bbrk
    requires br ==> Feasible(q, b[0], b[0].len, b[1..], bbrk)
    requires !br ==>
               var l := LastLen(len, a, abrk);
               Joins(q, if a == [] then prev else a[|a| - 1], l, b[0]) &&
               Feasible(q, b[0], l + b[0].len, b[1..], bbrk)
    ensures Feasible(q, prev, len, vs, brk)
    decreases |a|
  {
    if a == [] {
      assert vs == b && brk[1..] == bbrk;
    } else {
      assert vs[1..] == a[1..] + b && brk[1..] == abrk[1..] + [br] + bbrk;
      var l := if abrk[0] then a[0].len else len + a[0].len;
      FeasibleAppend(q, a[0], l, a[1..], abrk[1..], b, bbrk, br, vs[1..], brk[1..]);
    }
  }

  lemma {:induction false} DividesAppend(q: Queue, a: seq<Vec>, abrk: seq<bool>, an: nat, afront: nat, aback: nat,
                      b: seq<Vec>, bbrk: seq<bool>, bn: nat, bfront: nat, bback: nat)
    requires Divides(q, a, abrk, an, afront, aback)
    requires Divides(q, b, bbrk, bn, bfront, bback)
    ensures Divides(q, a + b, abrk + [true] + bbrk, an + bn, afront, bback)
  {
    FeasibleAppend(q, a[0], a[0].len, a[1..], abrk, b, bbrk, true, a[1..] + b, abrk + [true] + bbrk);
    LensAppend(a[0].len, a[1..], abrk, b, bbrk, true);
    assert (a + b)[1..] == a[1..] + b;
    BreaksAppend(abrk + [true], bbrk);
    BreaksAppend(abrk, [true]);
  }

  /** Two divisions whose facing segments are fused into one. */
  lemma {:induction false} DividesFused(q: Queue, a: seq<Vec>, abrk: seq<bool>, an: nat, afront: nat, aback: nat,
                     b: seq<Vec>, bbrk: seq<bool>, bn: nat, bfront: nat, bback: nat)
    requires Divides(q, a, abrk, an, afront, aback)
    requires Divides(q, b, bbrk, bn, bfront, bback)
    requires q.cluster && aback + bfront <= q.maxSegmentSize
    requires PhysMergeable(q, a[|a| - 1], b[0]) && q.boundaryOk(a[|a| - 1], b[0])
    ensures Divides(q, a + b, abrk + [false] + bbrk, an + bn - 1,
                    if an == 1 then aback + bfront else afront,
                    if bn == 1 then aback + bfront else bback)
  {
    var l := LastLen(a[0].len, a[1..], abrk);
    FirstLenGrows(b[0].len, b[1..], bbrk);
    FeasibleGrown(q, b[0], b[0].len, l, b[1..], bbrk);
    assert (if a[1..] == [] then a[0] else a[1..][|a[1..]| - 1]) == a[|a| - 1];
    FeasibleAppend(q, a[0], a[0].len, a[1..], abrk, b, bbrk, false, a[1..] + b, abrk + [false] + bbrk);
    LensAppend(a[0].len, a[1..], abrk, b, bbrk, false);
    assert (a + b)[1..] == a[1..] + b;
    BreaksAppend(abrk + [false], bbrk);
    BreaksAppend(abrk, [false]);
    FirstLenGrows(a[0].len, a[1..], abrk);
  }

  // ----- the counting loop (__blk_recalc_rq_segments)

  /** Where the counting loop starts a new segment. */
  function LowBreaks(q: Queue, prev: Vec, len: nat, vs: seq<Vec>): (brk: seq<bool>)
    ensures |brk| == |vs|
    decreases |vs|
  {
    if vs == [] then []
    else if JoinsLow(q, prev, len, vs[0]) then [false] + LowBreaks(q, vs[0], len + vs[0].len, vs[1..])
    else [true] + LowBreaks(q, vs[0], vs[0].len, vs[1..])
  }

  lemma {:induction false} LowBreaksFeasible(q: Queue, prev: Vec, len: nat, vs: seq<Vec>)
    ensures Feasible(q, prev, len, vs, LowBreaks(q, prev, len, vs))
    decreases |vs|
  {
    if vs != [] {
      if JoinsLow(q, prev, len, vs[0]) {
        LowBreaksFeasible(q, vs[0], len + vs[0].len, vs[1..]);
      } else {
        LowBreaksFeasible(q, vs[0], vs[0].len, vs[1..]);
      }
    }
  }

  function Count(q: Queue, vs: seq<Vec>): nat {
    if vs == [] then 0 else 1 + Breaks(LowBreaks(q, vs[0], vs[0].len, vs[1..]))
  }

  function CountFirst(q: Queue, vs: seq<Vec>): nat {
    if vs == [] then 0 else FirstLen(vs[0].len, vs[1..], LowBreaks(q, vs[0], vs[0].len, vs[1..]))
  }

  function CountLast(q: Queue, vs: seq<Vec>): nat {
    if vs == [] then 0 else LastLen(vs[0].len, vs[1..], LowBreaks(q, vs[0], vs[0].len, vs[1..]))
  }

  function WithFront(bs: Bios, size: nat): Bios
    requires bs.Link?
  {
    bs.(bio := bs.bio.(segFront := size))
  }

  function WithBack(bs: Bios, size: nat): (r: Bios)
    requires bs.Link?
    ensures r.Link?
  {
    if bs.next.Null? then bs.(bio := bs.bio.(segBack := size)) else bs.(next := WithBack(bs.next, size))
  }

  /** The bios after a recount: the first bio's front hint and the last bio's back
      hint are raised to the sizes the loop found. */
  function Hinted(q: Queue, bs: Bios): (hs: Bios)
    ensures hs.Link? <==> bs.Link?
  {
    if bs.Null? then bs
    else
      var vs := AllTodo(bs);
      WithBack(WithFront(bs, Max(bs.bio.segFront, CountFirst(q, vs))), Max(Tail(bs).segBack, CountLast(q, vs)))
  }

  // ----- what every request keeps

  /** Some division of `vs` has `n` segments, its outer ones bounded by the hints. */
  ghost predicate Counted(q: Queue, vs: seq<Vec>, n: nat, front: nat, back: nat) {
    exists brk :: Divides(q, vs, brk, n, front, back)
  }

  lemma {:induction false} CountedAppend(q: Queue, a: seq<Vec>, an: nat, afront: nat, aback: nat,
                                         b: seq<Vec>, bn: nat, bfront: nat, bback: nat)
    requires Counted(q, a, an, afront, aback) && Counted(q, b, bn, bfront, bback)
    ensures Counted(q, a + b, an + bn, afront, bback)
  {
    var abrk :| Divides(q, a, abrk, an, afront, aback);
    var bbrk :| Divides(q, b, bbrk, bn, bfront, bback);
    DividesAppend(q, a, abrk, an, afront, aback, b, bbrk, bn, bfront, bback);
  }

  /** Two counted runs whose facing segments fuse: one segment fewer. */
  lemma {:induction false} CountedFused(q: Queue, a: seq<Vec>, an: nat, afront: nat, aback: nat,
                                        b: seq<Vec>, bn: nat, bfront: nat, bback: nat)
    requires Counted(q, a, an, afront, aback) && Counted(q, b, bn, bfront, bback)
    requires a != [] && b != [] && q.cluster && aback + bfront <= q.maxSegmentSize
    requires PhysMergeable(q, a[|a| - 1], b[0]) && q.boundaryOk(a[|a| - 1], b[0])
    ensures an + bn >= 2
    ensures Counted(q, a + b, an + bn - 1, if an == 1 then aback + bfront else afront,
                    if bn == 1 then aback + bfront else bback)
  {
    var abrk :| Divides(q, a, abrk, an, afront, aback);
    var bbrk :| Divides(q, b, bbrk, bn, bfront, bback);
    DividesFused(q, a, abrk, an, afront, aback, b, bbrk, bn, bfront, bback);
  }

  /** The only segment of a single-segment run is its first and its last. */
  lemma {:induction false} CountedOne(q: Queue, vs: seq<Vec>, front: nat, back: nat, size: nat)
    requires Counted(q, vs, 1, front, back)
    ensures back <= size ==> Counted(q, vs, 1, size, back)
    ensures front <= size ==> Counted(q, vs, 1, front, size)
  {
    var brk :| Divides(q, vs, brk, 1, front, back);
    FirstLenGrows(vs[0].len, vs[1..], brk);
    assert back <= size ==> Divides(q, vs, brk, 1, size, back);
    assert front <= size ==> Divides(q, vs, brk, 1, front, size);
  }

  /** Hints do not change what a chain of bios means. */
  lemma {:induction false} BackHint(bs: Bios, size: nat)
    requires bs.Link?
    ensures var hs := WithBack(bs, size);
            && AllTodo(hs) == AllTodo(bs) && TotalSize(hs) == TotalSize(bs) && Ids(hs) == Ids(bs)
            && Tail(hs) == Tail(bs).(segBack := size) && hs.bio.segFront == bs.bio.segFront
  {
    if bs.next.Link? { BackHint(bs.next, size); }
  }

  lemma {:induction false} FrontHint(bs: Bios, size: nat)
    requires bs.Link?
    ensures var hs := WithFront(bs, size);
            && AllTodo(hs) == AllTodo(bs) && TotalSize(hs) == TotalSize(bs) && Ids(hs) == Ids(bs)
            && Tail(hs).segBack == Tail(bs).segBack && hs.bio.segFront == size
  {
  }

  /** A recount establishes the invariant, whatever the hints were before. */
  lemma {:induction false} RecountEstablishes(q: Queue, bs: Bios)
    requires bs.Link? && AllTodo(bs) != []
    ensures var hs := Hinted(q, bs);
            && Counted(q, AllTodo(bs), Count(q, AllTodo(bs)), hs.bio.segFront, Tail(hs).segBack)
            && AllTodo(hs) == AllTodo(bs) && TotalSize(hs) == TotalSize(bs) && Ids(hs) == Ids(bs)
  {
    var vs, hs := AllTodo(bs), Hinted(q, bs);
    var front, back := Max(bs.bio.segFront, CountFirst(q, vs)), Max(Tail(bs).segBack, CountLast(q, vs));
    FrontHint(bs, front);
    BackHint(WithFront(bs, front), back);
    LowBreaksFeasible(q, vs[0], vs[0].len, vs[1..]);
    assert Divides(q, vs, LowBreaks(q, vs[0], vs[0].len, vs[1..]), Count(q, vs), hs.bio.segFront, Tail(hs).segBack);
  }

  /** `blk_rq_map_sg` fits in the space the kept count reserves, and maps the same bytes. */
  lemma {:induction false} CountedBoundsMapSg(q: Queue, vs: seq<Vec>, n: nat, front: nat, back: nat)
    requires Counted(q, vs, n, front, back)
    ensures |MapSg(q, vs)| <= n
    ensures Bytes(MapSg(q, vs)) == Bytes(vs)
  {
    var brk :| Divides(q, vs, brk, n, front, back);
    MapSgOptimal(q, vs, brk, n, front, back);
    MapSgBytes(q, vs);
  }
}
