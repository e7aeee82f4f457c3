/**
 The big-endian counter increment of crypto/algapi.c: whole 32-bit words from the end
 while they wrap to zero, then the remaining bytes. It adds one to the number the buffer
 holds, modulo 256 to the power of its size.
 */
module CryptoInc {

  type Byte = b: int | 0 <= b < 256

  function Pow(n: nat): (r: nat)
    ensures r > 0
  {
    if n == 0 then 1 else 256 * Pow(n - 1)
  }

  /** The number a buffer holds, most significant byte first. */
  function Value(s: seq<Byte>): (r: nat)
    ensures r < Pow(|s|)
  {
    if s == [] then 0 else 256 * Value(s[..|s| - 1]) + s[|s| - 1]
  }

  lemma {:induction false} PowSum(m: nat, n: nat)
    ensures Pow(m + n) == Pow(m) * Pow(n)
    decreases n
  {
    if n > 0 {
      PowSum(m, n - 1);
      Shuffle(256, Pow(m), Pow(n - 1));
    }
  }

  lemma {:induction false} Shuffle(a: nat, b: nat, c: nat)
    ensures a * (b * c) == b * (a * c)
  {
    assert a * (b * c) == (a * b) * c;
    assert b * (a * c) == (b * a) * c;
  }

  lemma {:induction false} ValueParts(s: seq<Byte>, t: seq<Byte>)
    ensures Value(s + t) == Value(s) * Pow(|t|) + Value(t)
    decreases |t|
  {
    if t == [] {
      assert s + t == s;
    } else {
      var u := t[..|t| - 1];
      ValueParts(s, u);
      assert (s + t)[..|s + t| - 1] == s + u && (s + t)[|s + t| - 1] == t[|t| - 1];
      Shuffle(256, Value(s), Pow(|u|));
      assert 256 * (Value(s) * Pow(|u|) + Value(u)) == 256 * (Value(s) * Pow(|u|)) + 256 * Value(u);
    }
  }

  /** `n` bytes with all bits clear, and with all bits set. */
  function Fill(b: Byte, n: nat): (r: seq<Byte>)
    ensures |r| == n && forall i :: 0 <= i < n ==> r[i] == b
  {
    if n == 0 then [] else Fill(b, n - 1) + [b]
  }

  lemma {:induction false} FillValue(n: nat)
    ensures Value(Fill(0, n)) == 0 && Value(Fill(255, n)) == Pow(n) - 1
  {
    if n > 0 {
      FillValue(n - 1);
      assert Fill(0, n)[..n - 1] == Fill(0, n - 1) && Fill(255, n)[..n - 1] == Fill(255, n - 1);
    }
  }

  lemma {:induction false} Distribute(a: nat, b: nat)
    ensures (a + 1) * b == a * b + b
  {
  }

  /** Trailing ones that have become zeros carry into what is in front of them. */
  lemma {:induction false} CarryTail(s: seq<Byte>, t: seq<Byte>, n: nat)
    requires Value(t) == Value(s) + 1
    ensures Value(t + Fill(0, n)) == Value(s + Fill(255, n)) + 1
  {
    FillValue(n);
    ValueParts(t, Fill(0, n));
    ValueParts(s, Fill(255, n));
    Distribute(Value(s), Pow(n));
  }

  /** Incrementing the part `w` in front of them. */
  lemma {:induction false} Carry(p: seq<Byte>, w: seq<Byte>, v: seq<Byte>, n: nat)
    requires |v| == |w| && Value(v) == Value(w) + 1
    ensures Value(p + v + Fill(0, n)) == Value(p + w + Fill(255, n)) + 1
  {
    ValueParts(p, v);
    ValueParts(p, w);
    CarryTail(p + w, p + v, n);
  }

  /** A number below the modulus is not changed by it. */
  lemma {:induction false} Below(s: seq<Byte>, t: seq<Byte>)
    requires |s| == |t| && Value(s) == Value(t) + 1
    ensures Value(s) == (Value(t) + 1) % Pow(|t|)
  {
    Small(Value(s), Pow(|t|));
  }

  lemma {:induction false} Small(a: nat, b: nat)
    requires a < b
    ensures a % b == a
  {
  }

  lemma {:induction false} Wrapped(n: nat)
    ensures Value(Fill(0, n)) == (Value(Fill(255, n)) + 1) % Pow(n)
  {
    FillValue(n);
    Same(Pow(n));
  }

  lemma {:induction false} Same(b: nat)
    requires b > 0
    ensures b % b == 0
  {
  }

  /** `a` is `was` with its last bytes from `k` on wrapped from all ones to all zeros. */
  ghost predicate Wrapping(a: seq<Byte>, was: seq<Byte>, k: int) {
    && 0 <= k <= |a| == |was|
    && a == was[..k] + Fill(0, |was| - k) && was == was[..k] + Fill(255, |was| - k)
  }

  lemma {:induction false} FillParts(b: Byte, m: nat, n: nat)
    ensures Fill(b, m) + Fill(b, n) == Fill(b, m + n)
  {
  }

  /** The part `w` before the wrapped bytes becomes `v`: it holds one more, and that is the
      result, or it wraps as well. */
  lemma {:induction false} Turn(p: seq<Byte>, w: seq<Byte>, v: seq<Byte>, n: nat)
    requires |v| == |w| && Value(v) == (Value(w) + 1) % Pow(|w|)
    ensures Value(v) != 0 ==> Value(p + v + Fill(0, n)) == (Value(p + w + Fill(255, n)) + 1) % Pow(|p| + |w| + n)
    ensures Value(v) == 0 ==> v + Fill(0, n) == Fill(0, |w| + n) && w + Fill(255, n) == Fill(255, |w| + n)
  {
    if Value(v) != 0 {
      NoWrap(Value(w), Pow(|w|));
      Carry(p, w, v, n);
      Below(p + v + Fill(0, n), p + w + Fill(255, n));
    } else {
      AllOnes(w, v);
      FillParts(0, |w|, n);
      FillParts(255, |w|, n);
    }
  }

  lemma {:induction false} Wraps(p: seq<Byte>, w: seq<Byte>, v: seq<Byte>, n: nat)
    requires v + Fill(0, n) == Fill(0, |w| + n) && w + Fill(255, n) == Fill(255, |w| + n)
    ensures Wrapping(p + v + Fill(0, n), p + w + Fill(255, n), |p|)
  {
    assert (p + w + Fill(255, n))[..|p|] == p;
    assert p + v + Fill(0, n) == p + (v + Fill(0, n)) && p + w + Fill(255, n) == p + (w + Fill(255, n));
  }

  lemma {:induction false} NoWrap(a: nat, b: nat)
    requires a < b && (a + 1) % b != 0
    ensures (a + 1) % b == a + 1
  {
    if a + 1 == b { Same(b); } else { Small(a + 1, b); }
  }

  /** Only all ones wrap to zero. */
  lemma {:induction false} AllOnes(w: seq<Byte>, v: seq<Byte>)
    requires |v| == |w| && Value(v) == (Value(w) + 1) % Pow(|w|) == 0
    ensures w == Fill(255, |w|) && v == Fill(0, |w|)
  {
    if Value(w) + 1 < Pow(|w|) { Small(Value(w) + 1, Pow(|w|)); }
    Extremes(w);
    Extremes(v);
  }

  lemma {:induction false} Extremes(s: seq<Byte>)
    ensures Value(s) == 0 ==> s == Fill(0, |s|)
    ensures Value(s) == Pow(|s|) - 1 ==> s == Fill(255, |s|)
  {
    if s != [] {
      Extremes(s[..|s| - 1]);
      assert s == s[..|s| - 1] + [s[|s| - 1]];
    }
  }

  /** The bytes of a word, most significant first. */
  function Bytes(c: nat, n: nat): (r: seq<Byte>)
    requires c < Pow(n)
    ensures |r| == n && Value(r) == c
  {
    if n == 0 then []
    else
      var r := Bytes(c / 256, n - 1) + [c % 256];
      assert r[..n - 1] == Bytes(c / 256, n - 1);
      r
  }

  /** The parts of a buffer that has wrapped from `end` on, the last `m` bytes before it apart. */
  ghost predicate Parted(a: seq<Byte>, was: seq<Byte>, k: nat, end: nat, p: seq<Byte>, w: seq<Byte>, n: nat) {
    && |p| == k && was == p + w + Fill(255, n) && a == p + w + Fill(0, n)
    && k <= end <= |a| && a[k..end] == w
  }

  lemma {:induction false} Parts(a: seq<Byte>, was: seq<Byte>, k: nat, end: nat)
    returns (p: seq<Byte>, w: seq<Byte>, n: nat)
    requires Wrapping(a, was, end) && k <= end
    ensures Parted(a, was, k, end, p, w, n) && |w| == end - k
  {
    p, w, n := was[..k], was[k..end], |was| - end;
    assert was[..end] == p + w;
  }

  /** The bytes `w` at `k` are overwritten with `v`. */
  method Put(a: array<Byte>, k: nat, v: seq<Byte>, ghost p: seq<Byte>, ghost w: seq<Byte>, ghost rest: seq<Byte>)
    requires |p| == k && |w| == |v| && a[..] == p + w + rest
    modifies a
    ensures a[..] == p + v + rest
  {
    forall i | 0 <= i < |v| {
      a[k + i] := v[i];
    }
  }

  /** What the write amounts to: the number has been incremented, or the carry goes on. */
  lemma {:induction false} Stepped(s: seq<Byte>, was: seq<Byte>, p: seq<Byte>, w: seq<Byte>, v: seq<Byte>, n: nat,
                                   k: nat, c: nat)
    requires |v| == |w| && Value(v) == c == (Value(w) + 1) % Pow(|w|) && k == |p|
    requires was == p + w + Fill(255, n) && s == p + v + Fill(0, n)
    ensures if c == 0 then Wrapping(s, was, k) else Value(s) == (Value(was) + 1) % Pow(|s|)
  {
    Turn(p, w, v, n);
    if c == 0 {
      Wraps(p, w, v, n);
    } else {
      assert |s| == |p| + |w| + n;
    }
  }

  /** One word or byte of `m` bytes that ends at `end`: read, incremented, written back. */
  method IncAt(a: array<Byte>, k: nat, m: nat, end: nat, ghost was: seq<Byte>) returns (c: nat)
    requires end == k + m && Wrapping(a[..], was, end)
    modifies a
    ensures if c == 0 then Wrapping(a[..], was, k) else Value(a[..]) == (Value(was) + 1) % Pow(a.Length)
  {
    ghost var p, w, n := Parts(a[..], was, k, end);
    c := (Value(a[k..end]) + 1) % Pow(m);
    var v := Bytes(c, m);
    Put(a, k, v, p, w, Fill(0, n));
    Stepped(a[..], was, p, w, v, n, k, c);
  }

  /** crypto_inc_byte on the first `size` bytes. */
  method IncByte(a: array<Byte>, size0: nat, ghost was: seq<Byte>)
    requires Wrapping(a[..], was, size0)
    modifies a
    ensures Value(a[..]) == (Value(was) + 1) % Pow(a.Length)
  {
    var size := size0;
    while size > 0
      invariant Wrapping(a[..], was, size)
    {
      var c := IncAt(a, size - 1, 1, size, was);
      if c != 0 {
        return;
      }
      size := size - 1;
    }
    AllWrapped(a[..], was);
  }

  /** crypto_inc. */
  method Inc(a: array<Byte>)
    modifies a
    ensures Value(a[..]) == (Value(old(a[..])) + 1) % Pow(a.Length)
  {
    ghost var was := a[..];
    var size := a.Length;
    Unwrapped(was);
    while size >= 4
      invariant Wrapping(a[..], was, size)
    {
      var c := IncAt(a, size - 4, 4, size, was);
      if c != 0 {
        return;
      }
      size := size - 4;
    }
    IncByte(a, size, was);
  }

  lemma {:induction false} Unwrapped(s: seq<Byte>)
    ensures Wrapping(s, s, |s|)
  {
    assert s[..|s|] + [] == s;
  }

  lemma {:induction false} AllWrapped(a: seq<Byte>, was: seq<Byte>)
    requires Wrapping(a, was, 0)
    ensures Value(a) == (Value(was) + 1) % Pow(|a|)
  {
    assert [] + Fill(0, |was|) == Fill(0, |was|) && [] + Fill(255, |was|) == Fill(255, |was|);
    Wrapped(|was|);
  }
}
