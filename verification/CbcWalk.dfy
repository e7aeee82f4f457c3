/**
 The loops of crypto/cbc.c and the word-wise exclusive or of crypto/algapi.c, on buffers
 that they overwrite. Buffers hold whole blocks.
 */
module CbcWalk {
  import opened Cbc

  // ----- exclusive or by words

  datatype Four<T> = Four(a: T, b: T, c: T, d: T)

  /** An operation on elements, and the same on four at once. */
  datatype Wide<!T> = Wide(op: (T, T) -> T, word: (Four<T>, Four<T>) -> Four<T>)

  ghost predicate WideOk<T(!new)>(w: Wide<T>) {
    forall x, y :: w.word(x, y) == Four(w.op(x.a, y.a), w.op(x.b, y.b), w.op(x.c, y.c), w.op(x.d, y.d))
  }

  /** The element-wise result. */
  ghost predicate Combined<T>(w: Wide<T>, a: seq<T>, b: seq<T>, r: seq<T>, k: nat) {
    |a| == |b| == |r| && forall m :: 0 <= m < |a| ==> r[m] == if m < k then w.op(a[m], b[m]) else a[m]
  }

  /** One word. */
  method CombineWord<T(!new)>(w: Wide<T>, dst: array<T>, src: seq<T>, k: nat, ghost a: seq<T>)
    requires WideOk(w) && k + 4 <= dst.Length == |src| && Combined(w, a, src, dst[..], k)
    modifies dst
    ensures Combined(w, a, src, dst[..], k + 4)
  {
    ghost var r0 := dst[..];
    var r := w.word(Four(dst[k], dst[k + 1], dst[k + 2], dst[k + 3]), Four(src[k], src[k + 1], src[k + 2], src[k + 3]));
    dst[k], dst[k + 1], dst[k + 2], dst[k + 3] := r.a, r.b, r.c, r.d;
    assert dst[..] == r0[k := r.a][k + 1 := r.b][k + 2 := r.c][k + 3 := r.d];
  }

  /** The loops of crypto_xor: four elements at a time, then the rest. */
  method Combine<T(!new)>(w: Wide<T>, dst: array<T>, src: seq<T>, n: nat)
    requires WideOk(w) && n == dst.Length == |src|
    modifies dst
    ensures Combined(w, old(dst[..]), src, dst[..], n)
  {
    var k := 0;
    while n - k >= 4
      invariant k <= n && Combined(w, old(dst[..]), src, dst[..], k)
    {
      CombineWord(w, dst, src, k, old(dst[..]));
      k := k + 4;
    }
    while k < n
      invariant k <= n && Combined(w, old(dst[..]), src, dst[..], k)
    {
      dst[k] := w.op(dst[k], src[k]);
      k := k + 1;
    }
  }

  function Word(x: Four<bv8>): bv32 {
    (x.a as bv32) | ((x.b as bv32) << 8) | ((x.c as bv32) << 16) | ((x.d as bv32) << 24)
  }

  function Split(w: bv32): Four<bv8> {
    Four((w & 0xFF) as bv8, ((w >> 8) & 0xFF) as bv8, ((w >> 16) & 0xFF) as bv8, ((w >> 24) & 0xFF) as bv8)
  }

  /** The exclusive or of bytes, and of the 32-bit words they make up. */
  function ByteXor(): Wide<bv8> {
    Wide((a: bv8, b: bv8) => a ^ b, (x: Four<bv8>, y: Four<bv8>) => Split(Word(x) ^ Word(y)))
  }

  /** The bytes of the exclusive or of two words are the exclusive or of their bytes. */
  lemma {:induction false} WordXor(x: Four<bv8>, y: Four<bv8>)
    ensures Split(Word(x) ^ Word(y)) == Four(x.a ^ y.a, x.b ^ y.b, x.c ^ y.c, x.d ^ y.d)
  {
  }

  lemma {:induction false} ByteXorOk()
    ensures WideOk(ByteXor())
  {
    var w := ByteXor();
    forall x, y
      ensures w.word(x, y) == Four(w.op(x.a, y.a), w.op(x.b, y.b), w.op(x.c, y.c), w.op(x.d, y.d))
    {
      WordXor(x, y);
    }
  }

  /** crypto_xor. */
  method CryptoXor(dst: array<bv8>, src: seq<bv8>, n: nat)
    requires n == dst.Length == |src|
    modifies dst
    ensures dst[..] == Xor(old(dst[..]), src)
  {
    ByteXorOk();
    Combine(ByteXor(), dst, src, n);
  }

  // ----- encryption

  /** Block `i` of the ciphertext is written. */
  lemma {:induction false} EncryptSet<B>(c: Cipher<B>, iv: B, p: seq<B>, x: seq<B>, i: nat, b: B)
    requires i < |p| == |x| && EncryptsPart(c, iv, p, x, 0, i) && b == c.enc(c.xor(p[i], Previous(iv, x, i)))
    ensures EncryptsPart(c, iv, p, x[i := b], 0, i + 1) && Previous(iv, x[i := b], i + 1) == b
  {
    assert forall k :: 0 <= k <= i ==> Previous(iv, x[i := b], k) == Previous(iv, x, k);
  }

  /** Block `i` of the plaintext is written. */
  lemma {:induction false} DecryptSet<B>(c: Cipher<B>, iv: B, x: seq<B>, p: seq<B>, i: nat, b: B)
    requires i < |p| == |x| && b == c.xor(c.dec(x[i]), Previous(iv, x, i))
    ensures DecryptsPart(c, iv, x, p, 0, i) ==> DecryptsPart(c, iv, x, p[i := b], 0, i + 1)
    ensures DecryptsPart(c, iv, x, p, i + 1, |x|) ==> DecryptsPart(c, iv, x, p[i := b], i, |x|)
  {
  }

  /** One block of a buffer is written. */
  method Write<B>(buf: array<B>, k: nat, b: B)
    requires k < buf.Length
    modifies buf
    ensures buf[..] == old(buf[..])[k := b]
  {
    buf[k] := b;
  }

  /** What that does to the part from `at` and to the rest. */
  lemma {:induction false} Sliced<B>(s: seq<B>, t: seq<B>, at: nat, n: nat, i: nat, b: B)
    requires i < n && at + n <= |s| && t == s[at + i := b]
    ensures Part(t, at, n) == Part(s, at, n)[i := b] && t[..at + i] == s[..at + i] && t[at + i + 1..] == s[at + i + 1..]
    ensures t[..at] == s[..at] && t[at + n..] == s[at + n..]
  {
  }

  /** The blocks from `at`, and the others left as they were. */
  function Part<B>(s: seq<B>, at: nat, n: nat): seq<B>
    requires at + n <= |s|
  {
    s[at..at + n]
  }

  predicate SameAround<B(==)>(s: seq<B>, t: seq<B>, at: nat, n: nat) {
    at + n <= |s| == |t| && s[..at] == t[..at] && s[at + n..] == t[at + n..]
  }

  /** crypto_cbc_encrypt_segment on the `n` blocks from `at`. */
  method EncryptSegment<B(!new,==)>(c: Cipher<B>, src: array<B>, dst: array<B>, at: nat, n: nat, iv0: B) returns (iv: B)
    requires Commutes(c) && src != dst && at + n <= src.Length && at + n <= dst.Length
    modifies dst
    ensures Encrypts(c, iv0, Part(src[..], at, n), Part(dst[..], at, n)) && iv == Chain(iv0, Part(dst[..], at, n))
    ensures SameAround(old(dst[..]), dst[..], at, n)
  {
    iv := iv0;
    ghost var p := Part(src[..], at, n);
    for i := 0 to n
      invariant iv == Previous(iv0, Part(dst[..], at, n), i)
      invariant EncryptsPart(c, iv0, p, Part(dst[..], at, n), 0, i)
      invariant SameAround(old(dst[..]), dst[..], at, n)
    {
      ghost var s := dst[..];
      assert p[i] == src[at + i];
      Swap(c, iv, src[at + i]);
      iv := c.xor(iv, src[at + i]);
      Write(dst, at + i, c.enc(iv));
      EncryptSet(c, iv0, p, Part(s, at, n), i, c.enc(iv));
      Sliced(s, dst[..], at, n, i, c.enc(iv));
      iv := dst[at + i];
    }
  }

  /** crypto_cbc_encrypt_inplace on the `n` blocks from `at`. */
  method EncryptInplace<B(==)>(c: Cipher<B>, buf: array<B>, at: nat, n: nat, iv0: B) returns (iv: B)
    requires at + n <= buf.Length
    modifies buf
    ensures Encrypts(c, iv0, Part(old(buf[..]), at, n), Part(buf[..], at, n)) && iv == Chain(iv0, Part(buf[..], at, n))
    ensures SameAround(old(buf[..]), buf[..], at, n)
  {
    iv := iv0;
    ghost var was := buf[..];
    for i := 0 to n
      invariant iv == Previous(iv0, Part(buf[..], at, n), i)
      invariant EncryptsPart(c, iv0, Part(was, at, n), Part(buf[..], at, n), 0, i)
      invariant buf[..at] == was[..at] && buf[at + i..] == was[at + i..]
    {
      ghost var s := buf[..];
      assert s[at + i] == s[at + i..][0] && was[at + i] == was[at + i..][0] && Part(was, at, n)[i] == was[at + i];
      var b := c.xor(buf[at + i], iv);
      Write(buf, at + i, c.enc(b));
      EncryptSet(c, iv0, Part(was, at, n), Part(s, at, n), i, c.enc(b));
      Sliced(s, buf[..], at, n, i, c.enc(b));
      assert s[at + i..][1..] == s[at + i + 1..] && was[at + i..][1..] == was[at + i + 1..];
      iv := buf[at + i];
    }
  }

  // ----- decryption

  lemma {:induction false} Around<B>(r: seq<B>, s: seq<B>, t: seq<B>, at: nat, n: nat)
    requires SameAround(r, s, at, n) && SameAround(s, t, at, n)
    ensures SameAround(r, t, at, n)
  {
  }

  /** Block `i` of the part from `at` is written. */
  lemma {:induction false} DecryptNext<B>(c: Cipher<B>, iv: B, x: seq<B>, s: seq<B>, t: seq<B>, at: nat, n: nat,
                                          i: nat, b: B)
    requires i < n == |x| && at + n <= |s| && t == s[at + i := b]
    requires DecryptsPart(c, iv, x, Part(s, at, n), 0, i) && b == c.xor(c.dec(x[i]), Previous(iv, x, i))
    ensures DecryptsPart(c, iv, x, Part(t, at, n), 0, i + 1) && SameAround(s, t, at, n)
  {
    DecryptSet(c, iv, x, Part(s, at, n), i, b);
    Sliced(s, t, at, n, i, b);
  }

  /** The same from the end: the blocks before `i` are still ciphertext. */
  lemma {:induction false} DecryptBefore<B>(c: Cipher<B>, iv: B, was: seq<B>, s: seq<B>, t: seq<B>, at: nat, n: nat,
                                            i: nat, b: B)
    requires i < n && at + n <= |s| == |was| && t == s[at + i := b]
    requires s[..at + i] == was[..at + i] && s[at + n..] == was[at + n..]
    requires DecryptsPart(c, iv, Part(was, at, n), Part(s, at, n), i + 1, n)
    requires b == c.xor(c.dec(Part(was, at, n)[i]), Previous(iv, Part(was, at, n), i))
    ensures DecryptsPart(c, iv, Part(was, at, n), Part(t, at, n), i, n)
    ensures t[..at + i] == was[..at + i] && t[at + n..] == was[at + n..]
  {
    DecryptSet(c, iv, Part(was, at, n), Part(s, at, n), i, b);
    Sliced(s, t, at, n, i, b);
  }

  /** One turn of the loop below. */
  method DecryptBlock<B(==)>(c: Cipher<B>, src: array<B>, dst: array<B>, at: nat, n: nat, i: nat, iv: B,
                             ghost x: seq<B>, ghost iv0: B) returns (next: B)
    requires src != dst && i < n && at + n <= src.Length && at + n <= dst.Length && x == Part(src[..], at, n)
    requires iv == Previous(iv0, x, i) && DecryptsPart(c, iv0, x, Part(dst[..], at, n), 0, i)
    modifies dst
    ensures next == Previous(iv0, x, i + 1) && DecryptsPart(c, iv0, x, Part(dst[..], at, n), 0, i + 1)
    ensures SameAround(old(dst[..]), dst[..], at, n)
  {
    ghost var s := dst[..];
    next := src[at + i];
    var b := c.xor(c.dec(next), iv);
    Write(dst, at + i, b);
    DecryptNext(c, iv0, x, s, dst[..], at, n, i, b);
  }

  /** crypto_cbc_decrypt_segment on the `n` blocks from `at`. */
  method DecryptSegment<B(==)>(c: Cipher<B>, src: array<B>, dst: array<B>, at: nat, n: nat, iv0: B) returns (iv: B)
    requires src != dst && at + n <= src.Length && at + n <= dst.Length
    modifies dst
    ensures Decrypts(c, iv0, Part(src[..], at, n), Part(dst[..], at, n)) && iv == Chain(iv0, Part(src[..], at, n))
    ensures SameAround(old(dst[..]), dst[..], at, n)
  {
    iv := iv0;
    ghost var x := Part(src[..], at, n);
    for i := 0 to n
      invariant iv == Previous(iv0, x, i)
      invariant DecryptsPart(c, iv0, x, Part(dst[..], at, n), 0, i)
      invariant SameAround(old(dst[..]), dst[..], at, n)
    {
      ghost var s := dst[..];
      iv := DecryptBlock(c, src, dst, at, n, i, iv, x, iv0);
      Around(old(dst[..]), s, dst[..], at, n);
    }
  }

  /** One turn of the loop below. */
  method DecryptBlockInplace<B>(c: Cipher<B>, buf: array<B>, at: nat, n: nat, i: nat, iv0: B, ghost was: seq<B>)
    requires i < n && at + n <= buf.Length == |was|
    requires DecryptsPart(c, iv0, Part(was, at, n), Part(buf[..], at, n), i + 1, n)
    requires buf[..at + i + 1] == was[..at + i + 1] && buf[at + n..] == was[at + n..]
    modifies buf
    ensures DecryptsPart(c, iv0, Part(was, at, n), Part(buf[..], at, n), i, n)
    ensures buf[..at + i] == was[..at + i] && buf[at + n..] == was[at + n..]
  {
    ghost var s := buf[..];
    Unread(s, was, at, n, i);
    var prev := if i == 0 then iv0 else buf[at + i - 1];
    var b := c.xor(c.dec(buf[at + i]), prev);
    Write(buf, at + i, b);
    DecryptBefore(c, iv0, was, s, buf[..], at, n, i, b);
  }

  /** crypto_cbc_decrypt_inplace on the `n` blocks from `at`, from the last to the first,
      so that the ciphertext a block is combined with is still there. */
  method DecryptInplace<B(==)>(c: Cipher<B>, buf: array<B>, at: nat, n: nat, iv0: B) returns (iv: B)
    requires at + n <= buf.Length && n > 0
    modifies buf
    ensures Decrypts(c, iv0, Part(old(buf[..]), at, n), Part(buf[..], at, n)) &&
            iv == Chain(iv0, Part(old(buf[..]), at, n))
    ensures SameAround(old(buf[..]), buf[..], at, n)
  {
    ghost var was := buf[..];
    iv := buf[at + n - 1];
    var i := n;
    while i > 0
      invariant i <= n
      invariant DecryptsPart(c, iv0, Part(was, at, n), Part(buf[..], at, n), i, n)
      invariant buf[..at + i] == was[..at + i] && buf[at + n..] == was[at + n..]
    {
      i := i - 1;
      DecryptBlockInplace(c, buf, at, n, i, iv0, was);
    }
  }

  lemma {:induction false} Unread<B>(s: seq<B>, was: seq<B>, at: nat, n: nat, i: nat)
    requires i < n && at + n <= |s| == |was| && s[..at + i + 1] == was[..at + i + 1]
    ensures s[at + i] == Part(was, at, n)[i] && s[..at + i] == was[..at + i] && s[..at] == was[..at]
    ensures i > 0 ==> s[at + i - 1] == Part(was, at, n)[i - 1]
  {
    assert s[at + i] == s[..at + i + 1][at + i] && was[at + i] == was[..at + i + 1][at + i];
    assert i > 0 ==> s[at + i - 1] == s[..at + i + 1][at + i - 1] && was[at + i - 1] == was[..at + i + 1][at + i - 1];
    assert s[..at + i] == s[..at + i + 1][..at + i] && was[..at + i] == was[..at + i + 1][..at + i];
    assert s[..at] == s[..at + i + 1][..at] && was[..at] == was[..at + i + 1][..at];
  }

  // ----- the walk over a message

  lemma {:induction false} Tail<B>(s: seq<B>, t: seq<B>, at: nat, n: nat)
    requires |s| == |t| && at + n <= |s| && s[at..] == t[at..]
    ensures Part(s, at, n) == Part(t, at, n) && s[at + n..] == t[at + n..]
  {
    assert s[at..][..n] == s[at..at + n] && t[at..][..n] == t[at..at + n];
    assert s[at..][n..] == s[at + n..] && t[at..][n..] == t[at + n..];
  }

  lemma {:induction false} Halves<B>(s: seq<B>, at: nat, n: nat)
    requires at + n <= |s|
    ensures s[..at + n] == s[..at] + Part(s, at, n)
  {
  }

  lemma {:induction false} EncryptedMore<B>(c: Cipher<B>, iv: B, p: seq<B>, x: seq<B>, y: seq<B>, at: nat, n: nat)
    requires |x| == |y| == |p| && at + n <= |p| && y[..at] == x[..at]
    requires Encrypts(c, iv, p[..at], x[..at]) && Encrypts(c, Chain(iv, x[..at]), Part(p, at, n), Part(y, at, n))
    ensures Encrypts(c, iv, p[..at + n], y[..at + n])
    ensures Chain(iv, y[..at + n]) == Chain(Chain(iv, x[..at]), Part(y, at, n))
  {
    EncryptChunks(c, iv, p[..at], x[..at], Part(p, at, n), Part(y, at, n));
    Halves(p, at, n);
    Halves(y, at, n);
  }

  lemma {:induction false} DecryptedMore<B>(c: Cipher<B>, iv: B, x: seq<B>, p: seq<B>, q: seq<B>, at: nat, n: nat)
    requires |p| == |q| == |x| && at + n <= |x| && q[..at] == p[..at]
    requires Decrypts(c, iv, x[..at], p[..at]) && Decrypts(c, Chain(iv, x[..at]), Part(x, at, n), Part(q, at, n))
    ensures Decrypts(c, iv, x[..at + n], q[..at + n])
    ensures Chain(iv, x[..at + n]) == Chain(Chain(iv, x[..at]), Part(x, at, n))
  {
    DecryptChunks(c, iv, x[..at], p[..at], Part(x, at, n), Part(q, at, n));
    Halves(x, at, n);
    Halves(q, at, n);
  }

  method EncryptChunk<B(!new,==)>(c: Cipher<B>, src: array<B>, dst: array<B>, at: nat, n: nat, iv0: B) returns (iv: B)
    requires Commutes(c) && src.Length == dst.Length && at + n <= dst.Length
    modifies dst
    ensures Encrypts(c, iv0, Part(old(src[..]), at, n), Part(dst[..], at, n)) && iv == Chain(iv0, Part(dst[..], at, n))
    ensures dst[..at] == old(dst[..at]) && src[at + n..] == old(src[at + n..])
  {
    if src == dst {
      iv := EncryptInplace(c, dst, at, n, iv0);
    } else {
      iv := EncryptSegment(c, src, dst, at, n, iv0);
    }
  }

  method DecryptChunk<B(==)>(c: Cipher<B>, src: array<B>, dst: array<B>, at: nat, n: nat, iv0: B) returns (iv: B)
    requires src.Length == dst.Length && at + n <= dst.Length && n > 0
    modifies dst
    ensures Decrypts(c, iv0, Part(old(src[..]), at, n), Part(dst[..], at, n)) &&
            iv == Chain(iv0, Part(old(src[..]), at, n))
    ensures dst[..at] == old(dst[..at]) && src[at + n..] == old(src[at + n..])
  {
    if src == dst {
      iv := DecryptInplace(c, dst, at, n, iv0);
    } else {
      iv := DecryptSegment(c, src, dst, at, n, iv0);
    }
  }

  /** crypto_cbc_encrypt: chunk by chunk, in place if source and destination are the same
      memory. `chunk` says how many blocks the walk gives from a position. */
  method CbcEncrypt<B(!new,==)>(c: Cipher<B>, src: array<B>, dst: array<B>, iv0: B, chunk: nat -> nat) returns (iv: B)
    requires Commutes(c) && src.Length == dst.Length
    requires Chunks(chunk, dst.Length)
    modifies dst
    ensures Encrypts(c, iv0, old(src[..]), dst[..]) && iv == Chain(iv0, dst[..])
  {
    ghost var p := src[..];
    iv := iv0;
    var at := 0;
    while at < dst.Length
      invariant at <= dst.Length && src[at..] == p[at..]
      invariant Encrypts(c, iv0, p[..at], dst[..at]) && iv == Chain(iv0, dst[..at])
    {
      var n := chunk(at);
      Tail(src[..], p, at, n);
      ghost var before := dst[..];
      iv := EncryptChunk(c, src, dst, at, n, iv);
      EncryptedMore(c, iv0, p, before, dst[..], at, n);
      at := at + n;
    }
    assert p[..at] == p && dst[..at] == dst[..];
  }

  /** crypto_cbc_decrypt, likewise. */
  method CbcDecrypt<B(==)>(c: Cipher<B>, src: array<B>, dst: array<B>, iv0: B, chunk: nat -> nat) returns (iv: B)
    requires src.Length == dst.Length
    requires Chunks(chunk, dst.Length)
    modifies dst
    ensures Decrypts(c, iv0, old(src[..]), dst[..]) && iv == Chain(iv0, old(src[..]))
  {
    ghost var x := src[..];
    iv := iv0;
    var at := 0;
    while at < dst.Length
      invariant at <= dst.Length && src[at..] == x[at..]
      invariant Decrypts(c, iv0, x[..at], dst[..at]) && iv == Chain(iv0, x[..at])
    {
      var n := chunk(at);
      Tail(src[..], x, at, n);
      ghost var before := dst[..];
      iv := DecryptChunk(c, src, dst, at, n, iv);
      DecryptedMore(c, iv0, x, before, dst[..], at, n);
      at := at + n;
    }
    assert x[..at] == x && dst[..at] == dst[..];
  }

  // ----- what the walks amount to

  predicate Chunks(chunk: nat -> nat, n: nat) { forall at :: 0 <= at < n ==> 0 < chunk(at) <= n - at }

  /** Encrypting a message in place and decrypting the result in place gives it back,
      however the two walks cut it into chunks. */
  method ThereAndBack<B(!new,==)>(c: Cipher<B>, buf: array<B>, iv: B, one: nat -> nat, two: nat -> nat)
    requires CipherOk(c) && Chunks(one, buf.Length) && Chunks(two, buf.Length)
    modifies buf
    ensures buf[..] == old(buf[..])
  {
    var last := CbcEncrypt(c, buf, buf, iv, one);
    ghost var x := buf[..];
    last := CbcDecrypt(c, buf, buf, iv, two);
    RoundTrip(c, iv, old(buf[..]), x, buf[..]);
  }

  /** Likewise from one buffer into another and back. */
  method ThereAndBackApart<B(!new,==)>(c: Cipher<B>, src: array<B>, dst: array<B>, iv: B, one: nat -> nat,
                                       two: nat -> nat)
    requires CipherOk(c) && src.Length == dst.Length && Chunks(one, src.Length) && Chunks(two, src.Length)
    modifies src, dst
    ensures src[..] == old(src[..])
  {
    var last := CbcEncrypt(c, src, dst, iv, one);
    ghost var x := dst[..];
    last := CbcDecrypt(c, dst, src, iv, two);
    RoundTrip(c, iv, old(src[..]), x, src[..]);
  }

  /** In place and out of place, cut into any chunks, encryption has the same output and
      leaves the same IV. */
  method EncryptEitherWay<B(!new,==)>(c: Cipher<B>, buf: array<B>, dst: array<B>, iv: B, one: nat -> nat,
                                      two: nat -> nat)
      returns (out: B, last: B)
    requires Commutes(c) && buf != dst && buf.Length == dst.Length && Chunks(one, buf.Length) && Chunks(two, buf.Length)
    modifies buf, dst
    ensures buf[..] == dst[..] && last == out
  {
    ghost var p := buf[..];
    out := CbcEncrypt(c, buf, dst, iv, one);
    last := CbcEncrypt(c, buf, buf, iv, two);
    EncryptsUnique(c, iv, p, dst[..], buf[..], |p|);
  }

  /** And so has decryption. */
  method DecryptEitherWay<B(==)>(c: Cipher<B>, buf: array<B>, dst: array<B>, iv: B, one: nat -> nat, two: nat -> nat)
      returns (out: B, last: B)
    requires buf != dst && buf.Length == dst.Length && Chunks(one, buf.Length) && Chunks(two, buf.Length)
    modifies buf, dst
    ensures buf[..] == dst[..] && last == out
  {
    ghost var x := buf[..];
    out := CbcDecrypt(c, buf, dst, iv, one);
    last := CbcDecrypt(c, buf, buf, iv, two);
    DecryptsUnique(c, iv, x, dst[..], buf[..]);
  }
}
