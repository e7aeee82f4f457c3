/**
 Cipher block chaining over an arbitrary block permutation, as section 6.2 of NIST SP
 800-38A defines it: each block is combined with the previous ciphertext block, the first
 with the initialization vector. Blocks are values of any type with an exclusive or.
 */
module Cbc {

  /** A block cipher under a fixed key: its two directions, and the exclusive or of blocks. */
  datatype Cipher<!B> = Cipher(enc: B -> B, dec: B -> B, xor: (B, B) -> B)

  ghost predicate Commutes<B(!new)>(c: Cipher<B>) { forall a, b :: c.xor(a, b) == c.xor(b, a) }

  ghost predicate CipherOk<B(!new)>(c: Cipher<B>) {
    && (forall x :: c.dec(c.enc(x)) == x)
    && (forall a, b :: c.xor(c.xor(a, b), b) == a)
    && Commutes(c)
  }

  lemma {:induction false} Swap<B(!new)>(c: Cipher<B>, a: B, b: B)
    requires Commutes(c)
    ensures c.xor(a, b) == c.xor(b, a)
  {
  }

  /** The block that block `k` is combined with. */
  function Previous<B>(iv: B, x: seq<B>, k: nat): B
    requires k <= |x|
  {
    if k == 0 then iv else x[k - 1]
  }

  /** CBC encryption of blocks `lo` to `hi`: C[k] is CIPH of P[k] xor C[k - 1]. */
  ghost predicate EncryptsPart<B>(c: Cipher<B>, iv: B, p: seq<B>, x: seq<B>, lo: nat, hi: nat) {
    |x| == |p| && forall k :: lo <= k < hi && k < |p| ==> x[k] == c.enc(c.xor(p[k], Previous(iv, x, k)))
  }

  ghost predicate Encrypts<B>(c: Cipher<B>, iv: B, p: seq<B>, x: seq<B>) { EncryptsPart(c, iv, p, x, 0, |p|) }

  /** CBC decryption of blocks `lo` to `hi`: P[k] is the inverse CIPH of C[k], xor C[k - 1]. */
  ghost predicate DecryptsPart<B>(c: Cipher<B>, iv: B, x: seq<B>, p: seq<B>, lo: nat, hi: nat) {
    |x| == |p| && forall k :: lo <= k < hi && k < |x| ==> p[k] == c.xor(c.dec(x[k]), Previous(iv, x, k))
  }

  ghost predicate Decrypts<B>(c: Cipher<B>, iv: B, x: seq<B>, p: seq<B>) { DecryptsPart(c, iv, x, p, 0, |x|) }

  /** The chaining value after the ciphertext `x`. */
  function Chain<B>(iv: B, x: seq<B>): B { Previous(iv, x, |x|) }

  /** Decryption inverts encryption. */
  lemma {:induction false} RoundTrip<B(!new)>(c: Cipher<B>, iv: B, p: seq<B>, x: seq<B>, q: seq<B>)
    requires CipherOk(c) && Encrypts(c, iv, p, x) && Decrypts(c, iv, x, q)
    ensures q == p
  {
    forall k | 0 <= k < |p|
      ensures q[k] == p[k]
    {
      assert c.dec(x[k]) == c.xor(p[k], Previous(iv, x, k));
    }
  }

  /** What is encrypted, and what is decrypted, is determined by the message. */
  lemma {:induction false} EncryptsUnique<B>(c: Cipher<B>, iv: B, p: seq<B>, x: seq<B>, y: seq<B>, n: nat)
    requires Encrypts(c, iv, p, x) && Encrypts(c, iv, p, y) && n <= |p|
    ensures forall k :: 0 <= k < n ==> x[k] == y[k]
    decreases n
  {
    if n > 0 {
      EncryptsUnique(c, iv, p, x, y, n - 1);
      assert Previous(iv, x, n - 1) == Previous(iv, y, n - 1);
    }
  }

  lemma {:induction false} DecryptsUnique<B>(c: Cipher<B>, iv: B, x: seq<B>, p: seq<B>, q: seq<B>)
    requires Decrypts(c, iv, x, p) && Decrypts(c, iv, x, q)
    ensures p == q
  {
  }

  // ----- chunks

  /** A message may be encrypted in chunks, chaining from one to the next. */
  lemma {:induction false} EncryptChunks<B>(c: Cipher<B>, iv: B, p: seq<B>, x: seq<B>, q: seq<B>, y: seq<B>)
    requires Encrypts(c, iv, p, x) && Encrypts(c, Chain(iv, x), q, y)
    ensures Encrypts(c, iv, p + q, x + y) && Chain(iv, x + y) == Chain(Chain(iv, x), y)
  {
    forall k | 0 <= k < |p + q|
      ensures (x + y)[k] == c.enc(c.xor((p + q)[k], Previous(iv, x + y, k)))
    {
      if k < |p| {
        assert Previous(iv, x + y, k) == Previous(iv, x, k);
      } else {
        assert Previous(iv, x + y, k) == Previous(Chain(iv, x), y, k - |p|);
      }
    }
  }

  lemma {:induction false} DecryptChunks<B>(c: Cipher<B>, iv: B, x: seq<B>, p: seq<B>, y: seq<B>, q: seq<B>)
    requires Decrypts(c, iv, x, p) && Decrypts(c, Chain(iv, x), y, q)
    ensures Decrypts(c, iv, x + y, p + q) && Chain(iv, x + y) == Chain(Chain(iv, x), y)
  {
    forall k | 0 <= k < |x + y|
      ensures (p + q)[k] == c.xor(c.dec((x + y)[k]), Previous(iv, x + y, k))
    {
      if k < |x| {
        assert Previous(iv, x + y, k) == Previous(iv, x, k);
      } else {
        assert Previous(iv, x + y, k) == Previous(Chain(iv, x), y, k - |x|);
      }
    }
  }

  // ----- blocks of bytes

  function Xor(a: seq<bv8>, b: seq<bv8>): (r: seq<bv8>)
    requires |a| == |b|
    ensures |r| == |a| && forall i :: 0 <= i < |a| ==> r[i] == a[i] ^ b[i]
  {
    seq(|a|, i requires 0 <= i < |a| => a[i] ^ b[i])
  }

  lemma {:induction false} Cancels(x: bv8, y: bv8)
    ensures (x ^ y) ^ y == x && x ^ y == y ^ x
  {
  }

  /** The exclusive or of byte blocks is one that CBC can use. */
  lemma {:induction false} XorTwice(a: seq<bv8>, b: seq<bv8>)
    requires |a| == |b|
    ensures Xor(Xor(a, b), b) == a && Xor(a, b) == Xor(b, a)
  {
    forall i | 0 <= i < |a|
      ensures Xor(Xor(a, b), b)[i] == a[i] && Xor(a, b)[i] == Xor(b, a)[i]
    {
      Cancels(a[i], b[i]);
    }
  }
}
