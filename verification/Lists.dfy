/**
 Lists of distinct elements, as the kernel's intrusive lists are used here: an entry
 is on a list at most once and is unlinked wherever it is.
 */
module Lists {

  function Elems<T>(s: seq<T>): set<T> { set x | x in s }

  lemma {:induction false} ElemsEmpty<T>(s: seq<T>)
    ensures Elems(s) == {} <==> s == []
  {
    if s != [] { assert s[0] in Elems(s); }
  }

  predicate Distinct<T(==)>(s: seq<T>) {
    s == [] || (s[0] !in s[1..] && Distinct(s[1..]))
  }

  function Without<T(==)>(s: seq<T>, x: T): (r: seq<T>)
    ensures Elems(r) == Elems(s) - {x}
  {
    if s == [] then []
    else if s[0] == x then
      assert Elems(s) == {s[0]} + Elems(s[1..]);
      Without(s[1..], x)
    else
      assert Elems(s) == {s[0]} + Elems(s[1..]);
      assert Elems([s[0]] + Without(s[1..], x)) == {s[0]} + Elems(Without(s[1..], x));
      [s[0]] + Without(s[1..], x)
  }

  lemma {:induction false} WithoutDistinct<T>(s: seq<T>, x: T)
    requires Distinct(s)
    ensures Distinct(Without(s, x))
  {
    if s != [] {
      WithoutDistinct(s[1..], x);
      var r := Without(s[1..], x);
      if s[0] != x {
        assert ([s[0]] + r)[1..] == r;
        assert s[0] !in Elems(r);
      }
    }
  }

  lemma {:induction false} WithoutAbsent<T>(s: seq<T>, x: T)
    requires x !in s
    ensures Without(s, x) == s
  {
    if s != [] { WithoutAbsent(s[1..], x); }
  }

  lemma {:induction false} WithoutHead<T>(s: seq<T>)
    requires s != [] && Distinct(s)
    ensures Without(s, s[0]) == s[1..]
  {
    WithoutAbsent(s[1..], s[0]);
  }

  lemma {:induction false} Snoc<T>(s: seq<T>, x: T)
    requires Distinct(s) && x !in s
    ensures Distinct(s + [x]) && Elems(s + [x]) == Elems(s) + {x}
  {
    if s == [] {
      assert [x][1..] == [];
    } else {
      Snoc(s[1..], x);
      assert (s + [x])[1..] == s[1..] + [x];
    }
  }

  lemma {:induction false} Cons<T>(s: seq<T>, x: T)
    requires Distinct(s) && x !in s
    ensures Distinct([x] + s) && Elems([x] + s) == Elems(s) + {x}
  {
    assert ([x] + s)[1..] == s;
  }

  lemma {:induction false} Uncons<T>(s: seq<T>)
    requires s != [] && Distinct(s)
    ensures Distinct(s[1..]) && Elems(s[1..]) == Elems(s) - {s[0]} && s[0] !in s[1..]
  {
    assert forall x :: x in s ==> x == s[0] || x in s[1..];
  }

  lemma {:induction false} Fewer<K, V>(m: map<K, V>, k: K)
    requires k in m
    ensures |m - {k}| == |m| - 1
  {
    assert (m - {k}).Keys == m.Keys - {k};
    assert |m.Keys - {k}| == |m.Keys| - 1;
  }
}
