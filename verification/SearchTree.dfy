/**
 Search trees as the kernel's rb-trees are used: nodes ordered by key, with equal keys in
 order of insertion. A tree is used through its in-order sequence, which re-balancing
 does not change; the descent of tg_service_tree_add and elv_rb_add on any search tree is
 shown to be insertion into that sequence.
 */
module SearchTree {
  import opened Lists

  datatype Node = Node(key: nat, id: nat)

  predicate Sorted(s: seq<Node>) {
    s == [] || ((forall n :: n in s[1..] ==> s[0].key <= n.key) && Sorted(s[1..]))
  }

  /** Insertion after all nodes with the same key. */
  function Insert(s: seq<Node>, n: Node): (r: seq<Node>)
    ensures Elems(r) == Elems(s) + {n} && |r| == |s| + 1
  {
    if s == [] || n.key < s[0].key then
      assert Elems([n] + s) == Elems(s) + {n};
      [n] + s
    else
      assert Elems([s[0]] + Insert(s[1..], n)) == {s[0]} + Elems(Insert(s[1..], n));
      assert Elems(s) == {s[0]} + Elems(s[1..]);
      [s[0]] + Insert(s[1..], n)
  }

  predicate First(s: seq<Node>, n: Node) { s == [] || n.key < s[0].key }

  lemma {:induction false} InsertSorted(s: seq<Node>, n: Node)
    requires Sorted(s) && Distinct(s) && n !in s
    ensures Sorted(Insert(s, n)) && Distinct(Insert(s, n))
  {
    if First(s, n) {
      assert ([n] + s)[1..] == s;
    } else {
      InsertSorted(s[1..], n);
      var r := Insert(s[1..], n);
      assert ([s[0]] + r)[1..] == r;
      forall m | m in r
        ensures s[0].key <= m.key && m != s[0]
      {
        assert m in Elems(r);
      }
    }
  }

  lemma {:induction false} WithoutSorted(s: seq<Node>, n: Node)
    requires Sorted(s)
    ensures Sorted(Without(s, n))
  {
    if s != [] {
      WithoutSorted(s[1..], n);
      var r := Without(s[1..], n);
      if s[0] != n {
        assert ([s[0]] + r)[1..] == r;
        forall m | m in r
          ensures s[0].key <= m.key
        {
          assert m in Elems(r);
        }
      }
    }
  }

  lemma {:induction false} WithoutLength<T>(s: seq<T>, x: T)
    requires Distinct(s) && x in s
    ensures |Without(s, x)| == |s| - 1
  {
    if s[0] == x { WithoutAbsent(s[1..], x); } else { WithoutLength(s[1..], x); }
  }

  /** Node ids are unique when the nodes are. */
  predicate OwnIds(nodes: set<Node>) {
    forall m, n :: m in nodes && n in nodes && m.id == n.id ==> m == n
  }

  // ----- the search tree behind the sequence

  datatype Tree = Empty | Branch(l: Tree, node: Node, r: Tree)

  function InOrder(t: Tree): seq<Node> {
    if t.Empty? then [] else InOrder(t.l) + [t.node] + InOrder(t.r)
  }

  /** The descent of tg_service_tree_add: left on a smaller key, right otherwise. */
  function Descend(t: Tree, n: Node): Tree {
    if t.Empty? then Branch(Empty, n, Empty)
    else if n.key < t.node.key then t.(l := Descend(t.l, n))
    else t.(r := Descend(t.r, n))
  }

  /** Its `left` flag: never went right. */
  predicate StaysLeft(t: Tree, n: Node) {
    t.Empty? || (n.key < t.node.key && StaysLeft(t.l, n))
  }

  lemma {:induction false} SortedSplit(a: seq<Node>, n: Node, b: seq<Node>)
    requires Sorted(a + [n] + b)
    ensures Sorted(a) && Sorted(b) && (forall m :: m in a ==> m.key <= n.key) && (forall m :: m in b ==> n.key <= m.key)
  {
    var s := a + [n] + b;
    if a == [] {
      assert s[1..] == b;
    } else {
      assert s[1..] == a[1..] + [n] + b;
      SortedSplit(a[1..], n, b);
      assert n in s[1..];
      assert forall m :: m in a[1..] ==> m in s[1..];
    }
  }

  lemma {:induction false} InsertLeft(a: seq<Node>, m: Node, b: seq<Node>, n: Node)
    requires n.key < m.key
    ensures Insert(a + [m] + b, n) == Insert(a, n) + [m] + b
  {
    var s := a + [m] + b;
    if First(a, n) {
      assert s[0] == if a == [] then m else a[0];
      assert [n] + s == ([n] + a) + [m] + b;
    } else {
      assert s[1..] == a[1..] + [m] + b;
      InsertLeft(a[1..], m, b, n);
    }
  }

  lemma {:induction false} InsertSkip(m: Node, rest: seq<Node>, n: Node)
    requires m.key <= n.key
    ensures Insert([m] + rest, n) == [m] + Insert(rest, n)
  {
    assert ([m] + rest)[1..] == rest;
  }

  lemma {:induction false} InsertRight(a: seq<Node>, m: Node, b: seq<Node>, n: Node)
    requires m.key <= n.key && forall k :: k in a ==> k.key <= m.key
    ensures Insert(a + [m] + b, n) == a + [m] + Insert(b, n)
  {
    if a == [] {
      assert a + [m] + b == [m] + b;
      InsertSkip(m, b, n);
    } else {
      assert a[0] in a;
      assert a == [a[0]] + a[1..];
      InsertRight(a[1..], m, b, n);
      InsertSkip(a[0], a[1..] + [m] + b, n);
      assert a + [m] + b == [a[0]] + (a[1..] + [m] + b);
      assert [a[0]] + (a[1..] + [m] + Insert(b, n)) == a + [m] + Insert(b, n);
    }
  }

  /** The descent inserts into the in-order sequence, and stays left exactly when the new
      node becomes the first, so caching it then is right. */
  lemma {:induction false} DescendInserts(t: Tree, n: Node)
    requires Sorted(InOrder(t))
    ensures InOrder(Descend(t, n)) == Insert(InOrder(t), n)
    ensures StaysLeft(t, n) <==> First(InOrder(t), n)
  {
    if t.Branch? {
      SortedSplit(InOrder(t.l), t.node, InOrder(t.r));
      if n.key < t.node.key {
        DescendInserts(t.l, n);
        InsertLeft(InOrder(t.l), t.node, InOrder(t.r), n);
      } else {
        DescendInserts(t.r, n);
        InsertRight(InOrder(t.l), t.node, InOrder(t.r), n);
        assert InOrder(t)[0] in InOrder(t.l) + [t.node];
      }
    }
  }

  datatype Maybe = None | Some(id: nat)

  /** rb_next: the node after `n` in order. */
  function Successor(s: seq<Node>, n: Node): Maybe {
    if |s| < 2 then None else if s[0] == n then Some(s[1].id) else Successor(s[1..], n)
  }

  lemma {:induction false} SuccessorIn(s: seq<Node>, n: Node)
    requires Distinct(s) && Successor(s, n).Some?
    ensures exists m :: m in s && m.id == Successor(s, n).id && m != n
  {
    if s[0] == n {
      assert s[1] in s[1..];
    } else {
      SuccessorIn(s[1..], n);
    }
  }

  // ----- order in the sequence

  predicate Before(s: seq<Node>, m: Node, n: Node) {
    s != [] && ((s[0] == m && n in s[1..]) || Before(s[1..], m, n))
  }

  lemma {:induction false} BeforeIn(s: seq<Node>, m: Node, n: Node)
    requires Before(s, m, n)
    ensures m in s && n in s
  {
    if !(s[0] == m && n in s[1..]) { BeforeIn(s[1..], m, n); }
  }

  lemma {:induction false} BeforeKeys(s: seq<Node>, m: Node, n: Node)
    requires Sorted(s) && Before(s, m, n)
    ensures m.key <= n.key
  {
    if !(s[0] == m && n in s[1..]) { BeforeKeys(s[1..], m, n); }
  }

  lemma {:induction false} KeysBefore(s: seq<Node>, m: Node, n: Node)
    requires Sorted(s) && m in s && n in s && m.key < n.key
    ensures Before(s, m, n)
  {
    if s[0] != m {
      assert m in s[1..];
      if s[0] != n { KeysBefore(s[1..], m, n); }
    }
  }

  lemma {:induction false} BeforeInsert(s: seq<Node>, k: Node, m: Node, n: Node)
    requires Before(s, m, n)
    ensures Before(Insert(s, k), m, n)
  {
    var r := Insert(s, k);
    if First(s, k) {
      assert r[1..] == s;
    } else {
      assert r[1..] == Insert(s[1..], k);
      if s[0] == m && n in s[1..] {
        assert n in Elems(r[1..]);
      } else {
        BeforeInsert(s[1..], k, m, n);
      }
    }
  }

  lemma {:induction false} BeforeWithout(s: seq<Node>, k: Node, m: Node, n: Node)
    requires Before(s, m, n) && k != m && k != n
    ensures Before(Without(s, k), m, n)
  {
    var r := Without(s, k);
    if s[0] == m && n in s[1..] {
      assert r[1..] == Without(s[1..], k);
      assert n in Elems(r[1..]);
    } else {
      BeforeWithout(s[1..], k, m, n);
      if s[0] != k { assert r[1..] == Without(s[1..], k); }
    }
  }

  /** Whatever comes after a node is its successor, or comes after that. */
  lemma {:induction false} SuccessorBefore(s: seq<Node>, m: Node, n: Node) returns (k: Node)
    requires Distinct(s) && Before(s, m, n)
    ensures Successor(s, m) == Some(k.id) && Before(s, m, k) && (k == n || Before(s, k, n))
  {
    if s[0] == m {
      k := s[1];
      assert n in s[1..] by { if !(n in s[1..]) { BeforeIn(s[1..], m, n); } }
      assert k == n || n in s[1..][1..];
    } else {
      k := SuccessorBefore(s[1..], m, n);
    }
  }

  /** elv_rb_find: a node with the key, if there is one. */
  method RbFind(t: Tree, key: nat) returns (found: bool, n: Node)
    requires Sorted(InOrder(t))
    ensures found ==> n in InOrder(t) && n.key == key
    ensures !found ==> forall m :: m in InOrder(t) ==> m.key != key
  {
    n := Node(0, 0);
    var p := t;
    while p.Branch?
      invariant Sorted(InOrder(p)) && forall m :: m in InOrder(p) ==> m in InOrder(t)
      invariant forall m :: m in InOrder(t) && m.key == key ==> m in InOrder(p)
      decreases p
    {
      SortedSplit(InOrder(p.l), p.node, InOrder(p.r));
      assert p.node in InOrder(p);
      if key < p.node.key {
        p := p.l;
      } else if key > p.node.key {
        p := p.r;
      } else {
        return true, p.node;
      }
    }
    found := false;
  }
}
