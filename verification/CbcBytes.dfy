/**
 CBC on blocks of bytes: the exclusive or of two blocks is what crypto_xor computes word
 by word, so every result about the chaining holds of byte messages. The block size may be
 any number of bytes.
 */
module CbcBytes {
  import opened Cbc
  import opened CbcWalk

  /** crypto_cipher_blocksize: nothing is assumed of it. */
  const BLOCK_SIZE: nat

  type Bytes = s: seq<bv8> | |s| == BLOCK_SIZE witness seq(BLOCK_SIZE, i => 0)

  datatype Block = Block(bytes: Bytes)

  function ByteCipher(enc: Block -> Block, dec: Block -> Block): Cipher<Block> {
    Cipher(enc, dec, (a: Block, b: Block) => Block(Xor(a.bytes, b.bytes)))
  }

  lemma {:induction false} ByteCipherOk(enc: Block -> Block, dec: Block -> Block)
    ensures Commutes(ByteCipher(enc, dec))
    ensures (forall x :: dec(enc(x)) == x) ==> CipherOk(ByteCipher(enc, dec))
  {
    var c := ByteCipher(enc, dec);
    forall a: Block, b: Block
      ensures c.xor(a, b) == c.xor(b, a) && c.xor(c.xor(a, b), b) == a
    {
      XorTwice(a.bytes, b.bytes);
    }
  }

  /** One turn of the loop of crypto_cbc_encrypt_segment, on the bytes of the IV: combine
      the block with it, encrypt it, and make it the next IV. */
  method EncryptBlock(enc: Block -> Block, iv: array<bv8>, p: Block, ghost dec: Block -> Block) returns (x: Block)
    requires iv.Length == BLOCK_SIZE
    modifies iv
    ensures var c := ByteCipher(enc, dec); x == c.enc(c.xor(p, Block(old(iv[..]))))
    ensures iv[..] == x.bytes
  {
    XorTwice(iv[..], p.bytes);
    CryptoXor(iv, p.bytes, BLOCK_SIZE);
    x := enc(Block(iv[..]));
    forall k | 0 <= k < BLOCK_SIZE {
      iv[k] := x.bytes[k];
    }
  }

  /** The blocks before `i` are encrypted, and the buffer holds the IV for block `i`. */
  ghost predicate Upto(c: Cipher<Block>, iv0: Block, src: seq<Block>, dst: seq<Block>, iv: Block, i: nat) {
    i <= |src| == |dst| && EncryptsPart(c, iv0, src, dst, 0, i) && iv == Previous(iv0, dst, i)
  }

  lemma {:induction false} UptoNext(c: Cipher<Block>, iv0: Block, src: seq<Block>, dst: seq<Block>, iv: Block,
                                    i: nat, x: Block)
    requires Upto(c, iv0, src, dst, iv, i) && i < |src| && x == c.enc(c.xor(src[i], iv))
    ensures Upto(c, iv0, src, dst[i := x], x, i + 1)
  {
    EncryptSet(c, iv0, src, dst, i, x);
  }

  /** crypto_cbc_encrypt_segment with the IV in its buffer. */
  method EncryptSegmentBytes(enc: Block -> Block, src: seq<Block>, dst: array<Block>, iv: array<bv8>,
                             ghost dec: Block -> Block)
    requires |src| == dst.Length && iv.Length == BLOCK_SIZE && dst as object != iv as object
    modifies dst, iv
    ensures Encrypts(ByteCipher(enc, dec), Block(old(iv[..])), src, dst[..])
    ensures Block(iv[..]) == Chain(Block(old(iv[..])), dst[..])
  {
    ghost var c, iv0 := ByteCipher(enc, dec), Block(iv[..]);
    for i := 0 to |src|
      invariant Upto(c, iv0, src, dst[..], Block(iv[..]), i)
    {
      ghost var s, v := dst[..], Block(iv[..]);
      var x := EncryptBlock(enc, iv, src[i], dec);
      Write(dst, i, x);
      UptoNext(c, iv0, src, s, v, i, x);
    }
  }

  /** A message of bytes encrypted and decrypted is the message. */
  method BytesThereAndBack(enc: Block -> Block, dec: Block -> Block, buf: array<Block>, iv: Block,
                           one: nat -> nat, two: nat -> nat)
    requires forall x :: dec(enc(x)) == x
    requires Chunks(one, buf.Length) && Chunks(two, buf.Length)
    modifies buf
    ensures buf[..] == old(buf[..])
  {
    ByteCipherOk(enc, dec);
    ThereAndBack(ByteCipher(enc, dec), buf, iv, one, two);
  }
}
