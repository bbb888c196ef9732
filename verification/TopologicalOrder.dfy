/**
 bdrv_topological_dfs: the subtree of one node after another, each node listed
 before all its children.
 */
module TopologicalOrder {
  import opened BlockGraph

  ghost predicate NoDuplicates(list: seq<Node>) {
    forall i, j :: 0 <= i < j < |list| ==> list[i] != list[j]
  }

  /** Every child of a listed node is listed further back. */
  ghost predicate ParentsFirst(g: Edges, list: seq<Node>) {
    forall i, v :: 0 <= i < |list| && Arc(g, list[i], v) ==> v in list[i + 1..]
  }

  /** What the function asks of its list argument, and keeps. */
  ghost predicate TopologicallySorted(g: Edges, list: seq<Node>) {
    NoDuplicates(list) && ParentsFirst(g, list)
  }

  /** `x` has an arc to an ancestor of `n`, or to `n`. */
  ghost predicate StrictlyAbove(g: Edges, x: Node, n: Node) {
    exists y :: Arc(g, x, y) && Reach(g, y, n)
  }

  /** The nodes whose visit has begun but not ended lie on the way to `bs`. */
  ghost predicate OpenAbove(g: Edges, list: seq<Node>, found: set<Node>, bs: Node) {
    forall x :: x in found && x !in list ==> StrictlyAbove(g, x, bs)
  }

  lemma PrependSorted(g: Edges, list: seq<Node>, bs: Node)
    requires TopologicallySorted(g, list) && bs !in list
    requires forall v :: Arc(g, bs, v) ==> v in list
    ensures TopologicallySorted(g, [bs] + list)
  {
    var l := [bs] + list;
    forall i, v | 0 <= i < |l| && Arc(g, l[i], v)
      ensures v in l[i + 1..]
    {
      assert l[1..] == list;
      if i > 0 {
        assert l[i] == list[i - 1];
        assert l[i + 1..] == list[i..];
      }
    }
  }

  /** A listed node has its whole subtree in the list. */
  lemma SubtreeListed(g: Edges, list: seq<Node>, u: Node, v: Node)
    requires ParentsFirst(g, list) && u in list && Reach(g, u, v)
    ensures v in list
  {
    var s := set x | x in list;
    forall x, y | x in s && Arc(g, x, y)
      ensures y in s
    {
      var i :| 0 <= i < |list| && list[i] == x;
      assert y in list[i + 1..];
    }
    ReachInClosed(g, u, v, s);
  }

  /** On an acyclic graph an open node is not met again. */
  lemma OpenIsNotMet(g: Edges, x: Node, n: Node)
    requires Acyclic(g) && StrictlyAbove(g, x, n)
    ensures x != n
  {
  }

  lemma AboveChild(g: Edges, x: Node, n: Node, c: Node)
    requires Arc(g, n, c) && (x == n || StrictlyAbove(g, x, n))
    ensures StrictlyAbove(g, x, c)
  {
    ArcReach(g, n, c);
    if x == n {
      ReachSelf(g, c);
    } else {
      var y :| Arc(g, x, y) && Reach(g, y, n);
      ReachTrans(g, y, n, c);
    }
  }

  /** `all` is any set of nodes that holds `bs` and everything below it. */
  ghost predicate Bounds(g: Edges, all: set<Node>, bs: Node) {
    bs in all && forall x, y :: x in all && Arc(g, x, y) ==> y in all
  }

  /** `b` is what `a` ends with. */
  predicate EndsWith(a: seq<Node>, b: seq<Node>) {
    |b| <= |a| && a[|a| - |b|..] == b
  }

  lemma EndsTrans(a: seq<Node>, b: seq<Node>, c: seq<Node>)
    requires EndsWith(a, b) && EndsWith(b, c)
    ensures EndsWith(a, c) && forall x :: x in b ==> x in a
  {
    var k := |a| - |b|;
    assert a == a[..k] + b;
    assert b == b[..|b| - |c|] + c;
    assert a[|a| - |c|..] == b[|b| - |c|..];
  }

  /** bdrv_topological_dfs: the nodes below `bs` that are not listed yet go before the list */
  method TopologicalDfs(g: Edges, list: seq<Node>, found: set<Node>, bs: Node, ghost all: set<Node>)
    returns (list': seq<Node>, found': set<Node>)
    requires Acyclic(g) && TopologicallySorted(g, list)
    requires forall x :: x in list ==> x in found
    requires OpenAbove(g, list, found, bs)
    requires Bounds(g, all, bs)
    ensures TopologicallySorted(g, list')
    ensures forall x :: x in list' <==> x in list || Reach(g, bs, x)
    ensures found' == found + set x | x in list'
    ensures EndsWith(list', list)
    decreases all - found
  {
    hide EndsWith, StrictlyAbove, Reach, TopologicallySorted;
    if bs in found {
      FoundListed(g, list, found, bs);
      EndsSelf(list);
      return list, found;
    }
    EndsSelf(list);
    list', found' := list, found + {bs};
    var todo := Children(g, bs);
    while todo != {}
      invariant todo <= Children(g, bs)
      invariant TopologicallySorted(g, list') && bs !in list'
      invariant found' == found + {bs} + set x | x in list'
      invariant EndsWith(list', list)
      invariant forall x :: x in list ==> x in list'
      invariant forall x :: x in list' ==> x in list || Reach(g, bs, x)
      invariant forall e :: e in Children(g, bs) && e !in todo ==> g[e].to.value in list'
      decreases todo
    {
      var c :| c in todo;
      var child := g[c].to.value;
      assert ChildOf(g, c, bs) && PointsTo(g, c, child);
      ArcOf(g, c, bs, child);
      forall x | x in found' && x !in list'
        ensures StrictlyAbove(g, x, child)
      {
        AboveChild(g, x, bs, child);
      }
      ghost var before := list';
      list', found' := TopologicalDfs(g, list', found', child, all);
      forall x | x in list' && x !in before
        ensures Reach(g, bs, x)
      {
        ArcReach(g, bs, child);
        ReachTrans(g, bs, child, x);
      }
      ReachSelf(g, child);
      EndsTrans(list', before, list);
      todo := todo - {c};
    }
    ListedAbove(g, list', bs);
    EndsMore(bs, list', list);
    ReachSelf(g, bs);
    list' := [bs] + list';
  }

  lemma EndsSelf(a: seq<Node>)
    ensures EndsWith(a, a)
  {
  }

  lemma EndsMore(n: Node, a: seq<Node>, b: seq<Node>)
    requires EndsWith(a, b)
    ensures EndsWith([n] + a, b)
  {
    EndsTrans([n] + a, a, b);
  }

  lemma ArcOf(g: Edges, e: Edge, u: Node, v: Node)
    requires ChildOf(g, e, u) && PointsTo(g, e, v)
    ensures Arc(g, u, v)
  {
  }

  /** A node met again has been listed with everything below it. */
  lemma FoundListed(g: Edges, list: seq<Node>, found: set<Node>, bs: Node)
    requires Acyclic(g) && TopologicallySorted(g, list) && OpenAbove(g, list, found, bs) && bs in found
    ensures forall x :: Reach(g, bs, x) ==> x in list
  {
    if bs !in list {
      OpenIsNotMet(g, bs, bs);
    }
    forall x | Reach(g, bs, x)
      ensures x in list
    {
      SubtreeListed(g, list, bs, x);
    }
  }

  /** A node whose children are listed may go before them, and its subtree is then listed. */
  lemma ListedAbove(g: Edges, list: seq<Node>, bs: Node)
    requires TopologicallySorted(g, list) && bs !in list
    requires forall e :: e in Children(g, bs) ==> g[e].to.value in list
    ensures TopologicallySorted(g, [bs] + list)
    ensures forall x :: Reach(g, bs, x) ==> x in [bs] + list
  {
    forall v | Arc(g, bs, v)
      ensures v in list
    {
      var e :| ChildOf(g, e, bs) && PointsTo(g, e, v);
      assert e in Children(g, bs);
    }
    PrependSorted(g, list, bs);
    var more := [bs] + list;
    assert more[0] == bs;
    forall x | Reach(g, bs, x)
      ensures x in more
    {
      SubtreeListed(g, more, bs, x);
    }
  }

  ghost predicate ReachFromSome(g: Edges, roots: seq<Node>, x: Node) {
    exists r :: r in roots && Reach(g, r, x)
  }

  /** The loop of bdrv_list_refresh_perms: one `found` set for all roots. */
  method OrderSubtrees(g: Edges, roots: seq<Node>) returns (list: seq<Node>)
    requires Acyclic(g)
    ensures TopologicallySorted(g, list)
    ensures forall x :: x in list <==> ReachFromSome(g, roots, x)
  {
    list := [];
    var found: set<Node> := {};
    ghost var all := Nodes(g) + set r | r in roots;
    forall x, y | x in all && Arc(g, x, y)
      ensures y in all
    {
      ArcNodes(g, x, y);
    }
    for i := 0 to |roots|
      invariant TopologicallySorted(g, list)
      invariant found == set x | x in list
      invariant forall x :: x in list <==> ReachFromSome(g, roots[..i], x)
    {
      ghost var before := list;
      list, found := TopologicalDfs(g, list, found, roots[i], all);
      forall x
        ensures x in list <==> ReachFromSome(g, roots[..i + 1], x)
      {
        assert roots[..i + 1] == roots[..i] + [roots[i]];
      }
    }
    assert roots[..|roots|] == roots;
  }
}
