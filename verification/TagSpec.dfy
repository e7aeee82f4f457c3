/**
 Tagged command queueing (block/blk-tag.c). Queues that share a tag map start and end
 requests concurrently: the bit of a tag in tag_map is its lock, taken by test-and-set
 before tag_index is written and released after it is cleared. The steps below are the
 atomic ones, and interleave in any order.
 */
module TagSpec {
  import opened SearchTree

  /** Where a request stands: its tag's bit set, the index written too, or the index
      cleared again. */
  datatype Stage = Claimed | Held | Releasing

  datatype Use = Use(tag: nat, stage: Stage, sync: bool)

  /** tag_map as the set of set bits, tag_index, max_depth, and the requests that have a
      tag; real_max_depth is the length of the index. */
  datatype Tags = Tags(bits: set<nat>, index: seq<Maybe>, depth: nat, uses: map<nat, Use>)

  /** The depth blk_queue_start_tag searches: two tags are kept for sync requests. */
  function Limit(depth: nat, sync: bool): nat {
    if sync || depth <= 1 then depth else if depth == 2 then 1 else depth - 2
  }

  /** init_tag_map: no deeper than twice the queue's requests. */
  function Capped(depth: nat, nrRequests: nat): nat { if depth > 2 * nrRequests then 2 * nrRequests else depth }

  datatype Step =
    | Claim(rq: nat, tag: nat, sync: bool)
    | WriteIndex(rq: nat)
    | ClearIndex(rq: nat)
    | ClearBit(rq: nat)
    | SetDepth(depth: nat)
    | Grow(depth: nat, nrRequests: nat)

  predicate At(t: Tags, rq: nat, stage: Stage) { rq in t.uses && t.uses[rq].stage == stage }

  predicate Enabled(t: Tags, s: Step) {
    match s
    case Claim(rq, tag, sync) => rq !in t.uses && tag < Limit(t.depth, sync) && tag !in t.bits
    case WriteIndex(rq) => At(t, rq, Claimed)
    case ClearIndex(rq) => At(t, rq, Held)
    case ClearBit(rq) => At(t, rq, Releasing)
    case SetDepth(depth) => depth <= |t.index|
    case Grow(depth, nrRequests) => depth > |t.index| && forall rq :: rq in t.uses ==> t.uses[rq].stage == Held
  }

  /** What the new arrays of blk_queue_resize_tags hold. The code copies the whole of the
      old ones; if the new ones are smaller, what does not fit is written past their end,
      and is not in them. */
  function Copied(index: seq<Maybe>, depth: nat): (r: seq<Maybe>)
    ensures |r| == depth && forall i :: 0 <= i < depth ==> r[i] == if i < |index| then index[i] else None
  {
    if depth <= |index| then index[..depth] else index + Nones(depth - |index|)
  }

  function Nones(n: nat): (r: seq<Maybe>)
    ensures |r| == n && forall i :: 0 <= i < n ==> r[i] == None
  {
    if n == 0 then [] else [None] + Nones(n - 1)
  }

  function SetIndex(index: seq<Maybe>, tag: nat, m: Maybe): seq<Maybe> {
    if tag < |index| then index[tag := m] else index
  }

  function Next(t: Tags, s: Step): Tags
    requires Enabled(t, s)
  {
    match s
    case Claim(rq, tag, sync) => t.(bits := t.bits + {tag}, uses := t.uses[rq := Use(tag, Claimed, sync)])
    case WriteIndex(rq) =>
      t.(index := SetIndex(t.index, t.uses[rq].tag, Some(rq)), uses := t.uses[rq := t.uses[rq].(stage := Held)])
    case ClearIndex(rq) =>
      t.(index := SetIndex(t.index, t.uses[rq].tag, None), uses := t.uses[rq := t.uses[rq].(stage := Releasing)])
    case ClearBit(rq) => t.(bits := t.bits - {t.uses[rq].tag}, uses := t.uses - {rq})
    case SetDepth(depth) => t.(depth := depth)
    case Grow(depth, nrRequests) =>
      t.(index := Copied(t.index, Capped(depth, nrRequests)), depth := Capped(depth, nrRequests))
  }

  // ----- invariant

  /** The bits are exactly the tags in use, and no two requests share one. */
  predicate UsesOk(bits: set<nat>, uses: map<nat, Use>, n: nat) {
    && (forall rq :: rq in uses ==> uses[rq].tag < n && uses[rq].tag in bits)
    && (forall tag :: tag in bits ==> exists rq :: rq in uses && uses[rq].tag == tag)
    && (forall a, b :: a in uses && b in uses && uses[a].tag == uses[b].tag ==> a == b)
  }

  /** A non-null index entry names the request that holds the tag, and is there for all
      of them. */
  predicate IndexOk(index: seq<Maybe>, uses: map<nat, Use>) {
    && (forall rq :: rq in uses && uses[rq].stage == Held ==> uses[rq].tag < |index| && index[uses[rq].tag] == Some(rq))
    && (forall i :: 0 <= i < |index| && index[i].Some? ==>
          index[i].id in uses && uses[index[i].id].tag == i && uses[index[i].id].stage == Held)
  }

  predicate Valid(t: Tags) {
    t.depth <= |t.index| && UsesOk(t.bits, t.uses, |t.index|) && IndexOk(t.index, t.uses)
  }

  lemma {:induction false} ClaimUses(bits: set<nat>, uses: map<nat, Use>, n: nat, rq: nat, u: Use)
    requires UsesOk(bits, uses, n) && rq !in uses && u.tag !in bits && u.tag < n
    ensures UsesOk(bits + {u.tag}, uses[rq := u], n)
  {
    var more := uses[rq := u];
    forall x | x in bits + {u.tag}
      ensures exists r :: r in more && more[r].tag == x
    {
      if x == u.tag {
        assert more[rq].tag == u.tag;
      } else {
        var r :| r in uses && uses[r].tag == x;
        assert r in more && more[r].tag == x;
      }
    }
  }

  /** A new stage does not change who uses which tag. */
  lemma {:induction false} StageUses(bits: set<nat>, uses: map<nat, Use>, n: nat, rq: nat, stage: Stage)
    requires UsesOk(bits, uses, n) && rq in uses
    ensures UsesOk(bits, uses[rq := uses[rq].(stage := stage)], n)
  {
    var more := uses[rq := uses[rq].(stage := stage)];
    forall x | x in bits
      ensures exists r :: r in more && more[r].tag == x
    {
      var r :| r in uses && uses[r].tag == x;
      assert r in more && more[r].tag == x;
    }
  }

  lemma {:induction false} ClearUses(bits: set<nat>, uses: map<nat, Use>, n: nat, rq: nat)
    requires UsesOk(bits, uses, n) && rq in uses
    ensures UsesOk(bits - {uses[rq].tag}, uses - {rq}, n)
  {
    var less := uses - {rq};
    forall x | x in bits - {uses[rq].tag}
      ensures exists r :: r in less && less[r].tag == x
    {
      var r :| r in uses && uses[r].tag == x;
      assert r in less && less[r].tag == x;
    }
  }

  lemma {:induction false} WriteIndexOk(t: Tags, rq: nat)
    requires Valid(t) && At(t, rq, Claimed)
    ensures IndexOk(t.index[t.uses[rq].tag := Some(rq)], t.uses[rq := t.uses[rq].(stage := Held)])
  {
  }

  lemma {:induction false} ClearIndexOk(t: Tags, rq: nat)
    requires Valid(t) && At(t, rq, Held)
    ensures IndexOk(t.index[t.uses[rq].tag := None], t.uses[rq := t.uses[rq].(stage := Releasing)])
  {
  }

  /** Growing onto arrays at least as large as the old ones keeps every tag in use. */
  lemma {:induction false} GrowValid(t: Tags, depth: nat, nrRequests: nat)
    requires Valid(t) && Enabled(t, Grow(depth, nrRequests)) && Capped(depth, nrRequests) >= |t.index|
    ensures Valid(Next(t, Grow(depth, nrRequests)))
  {
  }

  /** A growing step whose new arrays, after capping, hold what the old ones held. */
  predicate Fits(t: Tags, s: Step) { s.Grow? ==> Capped(s.depth, s.nrRequests) >= |t.index| }

  lemma {:induction false} ClaimValid(t: Tags, rq: nat, tag: nat, sync: bool)
    requires Valid(t) && Enabled(t, Claim(rq, tag, sync))
    ensures Valid(Next(t, Claim(rq, tag, sync)))
  {
    ClaimUses(t.bits, t.uses, |t.index|, rq, Use(tag, Claimed, sync));
    assert IndexOk(t.index, t.uses[rq := Use(tag, Claimed, sync)]);
  }

  lemma {:induction false} WriteValid(t: Tags, rq: nat)
    requires Valid(t) && At(t, rq, Claimed)
    ensures Valid(Next(t, WriteIndex(rq)))
  {
    StageUses(t.bits, t.uses, |t.index|, rq, Held);
    WriteIndexOk(t, rq);
  }

  lemma {:induction false} ClearValid(t: Tags, rq: nat)
    requires Valid(t) && At(t, rq, Held)
    ensures Valid(Next(t, ClearIndex(rq)))
  {
    StageUses(t.bits, t.uses, |t.index|, rq, Releasing);
    ClearIndexOk(t, rq);
  }

  lemma {:induction false} BitValid(t: Tags, rq: nat)
    requires Valid(t) && At(t, rq, Releasing)
    ensures Valid(Next(t, ClearBit(rq)))
  {
    ClearUses(t.bits, t.uses, |t.index|, rq);
    assert IndexOk(t.index, t.uses - {rq});
  }

  lemma {:induction false} StepValid(t: Tags, s: Step)
    requires Valid(t) && Enabled(t, s) && Fits(t, s)
    ensures Valid(Next(t, s))
  {
    match s
    case Claim(rq, tag, sync) => ClaimValid(t, rq, tag, sync);
    case WriteIndex(rq) => WriteValid(t, rq);
    case ClearIndex(rq) => ClearValid(t, rq);
    case ClearBit(rq) => BitValid(t, rq);
    case SetDepth(depth) =>
    case Grow(depth, nrRequests) => GrowValid(t, depth, nrRequests);
  }

  // ----- runs

  predicate Runs(t: Tags, ss: seq<Step>)
    decreases |ss|
  {
    ss == [] || (Enabled(t, ss[0]) && Fits(t, ss[0]) && Runs(Next(t, ss[0]), ss[1..]))
  }

  function After(t: Tags, ss: seq<Step>): Tags
    requires Runs(t, ss)
    decreases |ss|
  {
    if ss == [] then t else After(Next(t, ss[0]), ss[1..])
  }

  predicate Initial(t: Tags) {
    t.bits == {} && t.uses == map[] && t.depth == |t.index| && forall i :: 0 <= i < |t.index| ==> t.index[i].None?
  }

  lemma {:induction false} RunValid(t: Tags, ss: seq<Step>)
    requires Valid(t) && Runs(t, ss)
    ensures Valid(After(t, ss))
    decreases |ss|
  {
    if ss != [] {
      StepValid(t, ss[0]);
      RunValid(Next(t, ss[0]), ss[1..]);
    }
  }

  /** Under every interleaving no two requests have the same tag, a non-null index entry
      names the holder of a tag whose bit is set, and every holder is found by its tag. */
  lemma {:induction false} TagsExclusive(t: Tags, ss: seq<Step>)
    requires Initial(t) && Runs(t, ss)
    ensures var n := After(t, ss);
            && (forall a, b :: a in n.uses && b in n.uses && a != b ==> n.uses[a].tag != n.uses[b].tag)
            && (forall i :: 0 <= i < |n.index| && n.index[i].Some? ==>
                  i in n.bits && n.index[i].id in n.uses && n.uses[n.index[i].id].tag == i)
            && (forall rq :: rq in n.uses && n.uses[rq].stage == Held ==>
                  n.uses[rq].tag < |n.index| && n.index[n.uses[rq].tag] == Some(rq))
  {
    RunValid(t, ss);
  }

  // ----- tags kept for sync requests

  predicate Reserved(t: Tags) {
    forall rq :: rq in t.uses && !t.uses[rq].sync ==> t.uses[rq].tag < Limit(t.depth, false)
  }

  /** While the depth stays, async requests never take the tags kept for sync ones. */
  lemma {:induction false} SyncReserve(t: Tags, ss: seq<Step>)
    requires Reserved(t) && Runs(t, ss) && forall i :: 0 <= i < |ss| ==> !ss[i].SetDepth? && !ss[i].Grow?
    ensures Reserved(After(t, ss)) && After(t, ss).depth == t.depth
    decreases |ss|
  {
    if ss != [] {
      assert Reserved(Next(t, ss[0]));
      SyncReserve(Next(t, ss[0]), ss[1..]);
    }
  }

  /** The tag of a set bit has a holder, and above the async limit it is a sync request. */
  lemma {:induction false} SyncHolds(t: Tags, tag: nat) returns (rq: nat)
    requires Valid(t) && Reserved(t) && tag in t.bits && tag >= Limit(t.depth, false)
    ensures rq in t.uses && t.uses[rq].tag == tag && t.uses[rq].sync
  {
    rq :| rq in t.uses && t.uses[rq].tag == tag;
  }

  /** Async requests alone never use up the tags: as long as the depth, of at least three,
      has not been changed, a map with no free tag has two sync requests in flight. */
  lemma {:induction false} SyncNotShutOut(t: Tags, ss: seq<Step>) returns (a: nat, b: nat)
    requires Initial(t) && t.depth >= 3 && Runs(t, ss) && forall i :: 0 <= i < |ss| ==> !ss[i].SetDepth? && !ss[i].Grow?
    requires forall tag :: 0 <= tag < t.depth ==> tag in After(t, ss).bits
    ensures var n := After(t, ss); a != b && a in n.uses && b in n.uses && n.uses[a].sync && n.uses[b].sync
  {
    RunValid(t, ss);
    SyncReserve(t, ss);
    a := SyncHolds(After(t, ss), t.depth - 2);
    b := SyncHolds(After(t, ss), t.depth - 1);
  }

  // ----- when growing is safe

  /** A map without requests. */
  function Empty(n: nat): Tags { Tags({}, Nones(n), n, map[]) }

  /** The first `k` of `n` tags are held, tag `i` by request `i`. */
  function HeldUpTo(k: nat, n: nat, sync: bool): (t: Tags)
    requires k <= n
    ensures |t.index| == n == t.depth
  {
    var uses := map i: nat | 0 <= i < k :: Use(i, Held, sync);
    Tags(uses.Keys, AllHeld(k) + Nones(n - k), n, uses)
  }

  function AllHeld(n: nat): (r: seq<Maybe>)
    ensures |r| == n && forall i :: 0 <= i < n ==> r[i] == Some(i)
  {
    if n == 0 then [] else AllHeld(n - 1) + [Some(n - 1)]
  }

  /** Requests `k` to `n` start, one after the other. */
  function Starts(k: nat, n: nat, sync: bool): seq<Step>
    requires k <= n
    decreases n - k
  {
    if k == n then [] else [Claim(k, k, sync), WriteIndex(k)] + Starts(k + 1, n, sync)
  }

  /** How many tags requests of a kind may take: sync ones all of them, async ones all but
      two, and one if there are no more than two. */
  function Share(n: nat, sync: bool): nat { if sync || n < 2 then n else if n == 2 then 1 else n - 2 }

  lemma {:induction false} StartOne(k: nat, n: nat, sync: bool)
    requires k < Share(n, sync)
    ensures var t := HeldUpTo(k, n, sync);
            && Enabled(t, Claim(k, k, sync)) && Enabled(Next(t, Claim(k, k, sync)), WriteIndex(k))
            && Next(Next(t, Claim(k, k, sync)), WriteIndex(k)) == HeldUpTo(k + 1, n, sync)
  {
    var t := HeldUpTo(k, n, sync);
    var u := Next(Next(t, Claim(k, k, sync)), WriteIndex(k));
    assert u.index == HeldUpTo(k + 1, n, sync).index;
    assert u.bits == HeldUpTo(k + 1, n, sync).bits;
    assert u.uses == HeldUpTo(k + 1, n, sync).uses;
  }

  lemma {:induction false} StartsRun(k: nat, m: nat, n: nat, sync: bool)
    requires k <= m <= Share(n, sync)
    ensures Runs(HeldUpTo(k, n, sync), Starts(k, m, sync))
    ensures After(HeldUpTo(k, n, sync), Starts(k, m, sync)) == HeldUpTo(m, n, sync)
    decreases m - k
  {
    if k < m {
      StartOne(k, n, sync);
      StartsRun(k + 1, m, n, sync);
      var ss := Starts(k, m, sync);
      assert ss[1..] == [WriteIndex(k)] + Starts(k + 1, m, sync) && ss[1..][1..] == Starts(k + 1, m, sync);
    }
  }

  /** Sync requests can take all tags of a map, and async requests their share of it, after
      which no further one of the kind can start. */
  lemma {:induction false} FullReached(n: nat, sync: bool)
    ensures var m := Share(n, sync);
            && Initial(Empty(n)) && Runs(Empty(n), Starts(0, m, sync))
            && After(Empty(n), Starts(0, m, sync)) == HeldUpTo(m, n, sync)
            && forall rq, tag :: !Enabled(HeldUpTo(m, n, sync), Claim(rq, tag, sync))
  {
    StartsRun(0, Share(n, sync), n, sync);
    assert Empty(n) == HeldUpTo(0, n, sync) by { assert AllHeld(0) + Nones(n) == Nones(n); }
  }

  /** The runs of a map of `n` tags that leave it with `n`. */
  predicate Reached(n: nat, ss: seq<Step>) { Runs(Empty(n), ss) && |After(Empty(n), ss).index| == n }

  /** Growing leaves arrays of the depth asked for, or of twice the queue's requests if that
      is less. */
  lemma {:induction false} GrowDepth(t: Tags, depth: nat, nrRequests: nat)
    requires Enabled(t, Grow(depth, nrRequests))
    ensures var u := Next(t, Grow(depth, nrRequests));
            && u.depth == |u.index| <= depth && u.depth <= 2 * nrRequests
            && (u.depth == depth || u.depth == 2 * nrRequests) && u.bits == t.bits && u.uses == t.uses
  {
  }

  /** Asking for a greater depth keeps every tag in flight findable, in every state that is
      reached, if and only if the queue has at least half as many requests as there were tags. */
  lemma {:induction false} GrowExact(n: nat, depth: nat, nrRequests: nat)
    requires depth > n
    ensures 2 * nrRequests >= n <==>
            forall ss :: Reached(n, ss) && Enabled(After(Empty(n), ss), Grow(depth, nrRequests)) ==>
                           Valid(Next(After(Empty(n), ss), Grow(depth, nrRequests)))
  {
    if Capped(depth, nrRequests) >= n {
      forall ss | Reached(n, ss) && Enabled(After(Empty(n), ss), Grow(depth, nrRequests))
        ensures Valid(Next(After(Empty(n), ss), Grow(depth, nrRequests)))
      {
        RunValid(Empty(n), ss);
        GrowValid(After(Empty(n), ss), depth, nrRequests);
      }
    } else {
      FullReached(n, true);
      assert Reached(n, Starts(0, n, true));
      var m := Next(HeldUpTo(n, n, true), Grow(depth, nrRequests));
      assert n - 1 in m.uses && m.uses[n - 1].tag >= |m.index|;
    }
  }
}
