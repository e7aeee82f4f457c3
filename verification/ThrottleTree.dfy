/**
 The throttle's service tree (struct throtl_rb_root): groups ordered by dispatch time,
 with the leftmost node cached.
 */
module ThrottleTree {
  import opened Lists
  import opened SearchTree

  datatype Cache = Null | Left(id: nat)

  datatype Root = Root(nodes: seq<Node>, left: Cache, count: nat)

  /** The nodes are those of a search tree, each once; the count is right; and the cached
      leftmost node is unknown or right. */
  predicate RootOk(r: Root, nodes: set<Node>) {
    && Sorted(r.nodes) && Distinct(r.nodes) && Elems(r.nodes) == nodes && r.count == |r.nodes|
    && (r.left.Left? ==> r.nodes != [] && r.left.id == r.nodes[0].id)
  }

  /** tg_service_tree_add and the count of __throtl_enqueue_tg. */
  function Add(r: Root, n: Node): Root {
    Root(Insert(r.nodes, n), if First(r.nodes, n) then Left(n.id) else r.left, r.count + 1)
  }

  /** throtl_rb_erase. */
  function Erase(r: Root, n: Node): Root {
    Root(Without(r.nodes, n), if r.left == Left(n.id) then Null else r.left, if r.count > 0 then r.count - 1 else 0)
  }

  /** throtl_rb_first leaves the first node cached. */
  function Cached(r: Root): Root {
    if r.count == 0 || r.nodes == [] then r else r.(left := Left(r.nodes[0].id))
  }

  lemma {:induction false} CachedOk(r: Root, nodes: set<Node>)
    requires RootOk(r, nodes)
    ensures RootOk(Cached(r), nodes)
    ensures r.nodes != [] ==> Erase(Cached(r), r.nodes[0]) == Erase(r, r.nodes[0])
  {
  }

  lemma {:induction false} AddOk(r: Root, nodes: set<Node>, n: Node)
    requires RootOk(r, nodes) && n !in nodes
    ensures RootOk(Add(r, n), nodes + {n})
  {
    assert n !in Elems(r.nodes);
    InsertSorted(r.nodes, n);
  }

  /** The loop of tg_service_tree_add, on any search tree with these nodes: it links the
      node where Add has it, and takes it for the leftmost exactly when it is. */
  lemma {:induction false} AddDescends(r: Root, nodes: set<Node>, t: Tree, n: Node)
    requires RootOk(r, nodes) && InOrder(t) == r.nodes
    ensures Add(r, n) == Root(InOrder(Descend(t, n)), if StaysLeft(t, n) then Left(n.id) else r.left, r.count + 1)
  {
    DescendInserts(t, n);
  }

  lemma {:induction false} EraseOk(r: Root, nodes: set<Node>, n: Node)
    requires RootOk(r, nodes) && n in nodes && OwnIds(nodes)
    ensures RootOk(Erase(r, n), nodes - {n})
  {
    assert n in Elems(r.nodes);
    WithoutSorted(r.nodes, n);
    WithoutDistinct(r.nodes, n);
    WithoutLength(r.nodes, n);
    assert r.nodes[0] in Elems(r.nodes);
    if r.nodes[0] == n { WithoutHead(r.nodes); }
  }

  /** throtl_rb_first: the cached node, or the first. It is due before all others. */
  lemma {:induction false} FirstLeast(r: Root, nodes: set<Node>, n: Node)
    requires RootOk(r, nodes) && n in nodes
    ensures r.count > 0 && r.nodes != [] && r.nodes[0] in nodes && r.nodes[0].key <= n.key
    ensures r.left == Null || r.left.id == r.nodes[0].id
  {
    assert n in Elems(r.nodes);
    assert r.nodes[0] in Elems(r.nodes);
    assert n == r.nodes[0] || n in r.nodes[1..];
  }
}
