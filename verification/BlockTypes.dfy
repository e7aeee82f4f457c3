/**
 Requests as the block layer builds them: a chain of bios, each holding memory
 vectors. The meaning of a request is the sequence of physical byte addresses
 its unfinished vectors cover.
 */
module BlockTypes {

  const SECTOR_SIZE: nat := 512

  /** One bio_vec, or one scatterlist entry: a physical address and a length. */
  datatype Vec = Vec(addr: nat, len: nat)

  /** A bio: `idx` is the first vector not yet completed, `size` the bytes left.
      `segFront` and `segBack` are the segment-size hints kept for merging. */
  datatype Bio = Bio(id: nat, vecs: seq<Vec>, idx: nat, size: nat, sector: nat,
                     uptodate: bool, segFront: nat, segBack: nat)

  /** Bios linked through `bi_next`. */
  datatype Bios = Null | Link(bio: Bio, next: Bios)

  /** A request: `bios` is what `rq->bio` points to and `done` the bios completed
      before them, in order; the last bio of all is `rq->biotail`. */
  datatype Request = Request(done: Bios, bios: Bios, sector: nat, dataLen: nat,
                             nrSegs: nat, flushSeq: bool, fs: bool)

  function VecBytes(v: Vec): (s: seq<nat>)
    ensures |s| == v.len
  {
    seq(v.len, i requires 0 <= i < v.len => v.addr + i)
  }

  function Bytes(vs: seq<Vec>): (s: seq<nat>)
    ensures |s| == Len(vs)
  {
    if vs == [] then [] else VecBytes(vs[0]) + Bytes(vs[1..])
  }

  function Len(vs: seq<Vec>): nat {
    if vs == [] then 0 else vs[0].len + Len(vs[1..])
  }

  /** The vectors of a bio that are still to be transferred. */
  function Todo(b: Bio): seq<Vec> {
    if b.idx <= |b.vecs| then b.vecs[b.idx..] else []
  }

  function AllTodo(bs: Bios): seq<Vec> {
    match bs
    case Null => []
    case Link(b, next) => Todo(b) + AllTodo(next)
  }

  function TotalSize(bs: Bios): nat {
    match bs
    case Null => 0
    case Link(b, next) => b.size + TotalSize(next)
  }

  function Ids(bs: Bios): seq<nat> {
    match bs
    case Null => []
    case Link(b, next) => [b.id] + Ids(next)
  }

  function Append(a: Bios, b: Bios): (c: Bios)
    ensures c.Null? <==> a.Null? && b.Null?
  {
    match a
    case Null => b
    case Link(x, next) => Link(x, Append(next, b))
  }

  function Tail(bs: Bios): Bio
    requires bs.Link?
  {
    if bs.next.Null? then bs.bio else Tail(bs.next)
  }

  predicate Positive(vs: seq<Vec>) {
    vs == [] || (0 < vs[0].len && Positive(vs[1..]))
  }

  /** The vectors left add up to the bytes left. */
  predicate Intact(b: Bio) {
    b.idx <= |b.vecs| && b.size == Len(Todo(b)) && Positive(Todo(b))
  }

  /** A bio that carries data. */
  predicate DataBio(b: Bio) {
    Intact(b) && b.idx < |b.vecs|
  }

  /** A bio with nothing left may keep the vectors it had. */
  predicate BiosOk(bs: Bios) {
    bs.Link? ==> (bs.bio.size == 0 || Intact(bs.bio)) && BiosOk(bs.next)
  }

  /** `__data_len` is exactly the number of bytes left in the linked bios. */
  predicate RequestOk(r: Request) {
    BiosOk(r.bios) && r.dataLen == TotalSize(r.bios)
  }

  lemma {:induction false} BytesAppend(a: seq<Vec>, b: seq<Vec>)
    ensures Bytes(a + b) == Bytes(a) + Bytes(b)
  {
    if a == [] {
      assert a + b == b;
    } else {
      assert (a + b)[1..] == a[1..] + b;
      BytesAppend(a[1..], b);
    }
  }

  lemma {:induction false} Associate<T>(a: seq<T>, b: seq<T>, c: seq<T>)
    ensures a + (b + c) == (a + b) + c
  {
  }

  /** Appending keeps every vector of both chains, in order. */
  lemma {:induction false} AppendTodo(a: Bios, b: Bios)
    ensures AllTodo(Append(a, b)) == AllTodo(a) + AllTodo(b)
  {
    if a.Link? {
      AppendTodo(a.next, b);
      Associate(Todo(a.bio), AllTodo(a.next), AllTodo(b));
    }
  }

  /** Appending keeps every bio of both chains, in order. */
  lemma {:induction false} AppendIds(a: Bios, b: Bios)
    ensures Ids(Append(a, b)) == Ids(a) + Ids(b)
  {
    if a.Link? {
      AppendIds(a.next, b);
      assert [a.bio.id] + (Ids(a.next) + Ids(b)) == ([a.bio.id] + Ids(a.next)) + Ids(b);
    }
  }

  lemma {:induction false} AppendTail(a: Bios, b: Bios)
    requires b.Link?
    ensures Tail(Append(a, b)) == Tail(b)
  {
    if a.Link? { AppendTail(a.next, b); }
  }
}
