/**
 The permissions a refresh arrives at, and whether it succeeds, do not depend on
 which topological order the depth-first search happened to produce.
 */
module PermOrder {
  import opened BlockGraph
  import opened TopologicalOrder
  import opened PermRefresh
  import opened PermLoosening

  /** Edge `e` belongs to a listed node whose driver decides about its children. */
  predicate Decided(env: Env, g: Edges, list: seq<Node>, e: Edge) {
    e in g && g[e].owner.Some? && ChildOf(g, e, g[e].owner.value) && g[e].owner.value in list &&
    env.info(g[e].owner.value).hasDriver
  }

  /** `h` has `g`'s edges, with the permissions the listed nodes want given those above them. */
  predicate Solves(env: Env, g: Edges, h: Edges, list: seq<Node>) {
    && SameShape(g, h)
    && forall e :: e in g ==> SolvesAt(env, g, h, list, e)
  }

  predicate SolvesAt(env: Env, g: Edges, h: Edges, list: seq<Node>, e: Edge)
    requires SameShape(g, h) && e in g
  {
    if Decided(env, g, list, e) then
      ChildOf(h, e, g[e].owner.value) && ClaimOf(h[e]) == ChildClaim(env, h, g[e].owner.value, e)
    else h[e] == g[e]
  }

  /** The pass over a topological order computes a solution. */
  lemma {:induction false} RecomputeSolves(env: Env, g: Edges, list: seq<Node>)
    requires TopologicallySorted(g, list)
    ensures Solves(env, g, Recompute(env, g, list), list)
  {
    RecomputeShape(env, g, list);
    if list != [] {
      var n, t := list[0], list[1..];
      var g1 := RefreshNode(env, g, n);
      var h := Recompute(env, g, list);
      RefreshNodeShape(env, g, n);
      SortedTail(g, g1, list);
      RecomputeSolves(env, g1, t);
      FirstKeepsParents(env, g, list);
      SameParentsError(env, g, h, n);
      SameShapeArcs(g, g1);
      SameShapeArcs(g, h);
      forall e | e in g
        ensures SolvesAt(env, g, h, list, e)
      {
        assert SolvesAt(env, g1, h, t, e);
        FirstSolves(env, g, list, h, e);
      }
    }
  }

  lemma FirstSolves(env: Env, g: Edges, list: seq<Node>, h: Edges, e: Edge)
    requires list != [] && list[0] !in list[1..] && SameShape(g, h) && e in g
    requires var g1 := RefreshNode(env, g, list[0]);
      SameShape(g, g1) && SameShape(g1, h) && SolvesAt(env, g1, h, list[1..], e)
    requires Cumulative(g, list[0]) == Cumulative(h, list[0])
    ensures SolvesAt(env, g, h, list, e)
  {
    hide Cumulative;
    assert forall m :: m in list <==> m == list[0] || m in list[1..];
  }

  /** Along a topological order the permissions of a solution are determined from above. */
  lemma {:induction false} SolutionsAgree(env: Env, g: Edges, h1: Edges, h2: Edges, list: seq<Node>, i: nat)
    requires TopologicallySorted(g, list) && Solves(env, g, h1, list) && Solves(env, g, h2, list) && i <= |list|
    ensures forall e :: e in g && g[e].owner.Some? && g[e].owner.value in list[..i] ==> h1[e] == h2[e]
  {
    if i > 0 {
      var n := list[i - 1];
      SolutionsAgree(env, g, h1, h2, list, i - 1);
      assert list[..i] == list[..i - 1] + [n];
      forall e | e in g && PointsTo(g, e, n)
        ensures h1[e] == h2[e]
      {
        assert SolvesAt(env, g, h1, list, e) && SolvesAt(env, g, h2, list, e);
        if Decided(env, g, list, e) {
          AboveInPrefix(g, list, i - 1, e);
        }
      }
      SameShapeBoth(g, h1, h2);
      assert SameParents(h1, h2, n);
      SameParentsError(env, h1, h2, n);
      forall e | e in g && g[e].owner == Some(n)
        ensures h1[e] == h2[e]
      {
        assert SolvesAt(env, g, h1, list, e) && SolvesAt(env, g, h2, list, e);
      }
    }
  }

  /** A listed parent stands before its child. */
  lemma AboveInPrefix(g: Edges, list: seq<Node>, i: nat, e: Edge)
    requires TopologicallySorted(g, list) && i < |list| && PointsTo(g, e, list[i])
    requires g[e].owner.Some? && ChildOf(g, e, g[e].owner.value) && g[e].owner.value in list
    ensures g[e].owner.value in list[..i]
  {
    var k :| 0 <= k < |list| && list[k] == g[e].owner.value;
    assert Arc(g, list[k], list[i]);
    var m :| 0 <= m < |list[k + 1..]| && list[k + 1..][m] == list[i];
    assert list[k + 1 + m] == list[i];
    assert list[..i][k] == list[k];
  }

  lemma SameShapeBoth(g: Edges, h1: Edges, h2: Edges)
    requires SameShape(g, h1) && SameShape(g, h2)
    ensures SameShape(h1, h2)
    ensures forall e, n :: PointsTo(h1, e, n) <==> PointsTo(g, e, n)
    ensures forall e, n :: ChildOf(h1, e, n) <==> ChildOf(g, e, n)
  {
    SameShapeArcs(g, h1);
  }

  /** Any two topological orders of the same nodes give the same permissions and the same verdict. */
  lemma OrderDoesNotMatter(env: Env, g: Edges, a: seq<Node>, b: seq<Node>)
    requires TopologicallySorted(g, a) && TopologicallySorted(g, b) && forall n :: n in a <==> n in b
    ensures Recompute(env, g, a) == Recompute(env, g, b)
    ensures RefreshList(env, g, a).Refreshed? <==> RefreshList(env, g, b).Refreshed?
    ensures RefreshList(env, g, a).Refreshed? ==> RefreshList(env, g, a).edges == RefreshList(env, g, b).edges
  {
    hide SolvesAt, Cumulative, NodeError;
    var h1, h2 := Recompute(env, g, a), Recompute(env, g, b);
    RecomputeSolves(env, g, a);
    RecomputeSolves(env, g, b);
    SameNodesSolve(env, g, h2, b, a);
    SolutionsAgree(env, g, h1, h2, a, |a|);
    assert a[..|a|] == a;
    RecomputeShape(env, g, a);
    RecomputeShape(env, g, b);
    assert h1 == h2;
    RefreshSucceedsIff(env, g, a);
    RefreshSucceedsIff(env, g, b);
  }

  lemma SameNodesSolve(env: Env, g: Edges, h: Edges, a: seq<Node>, b: seq<Node>)
    requires Solves(env, g, h, a) && forall n :: n in a <==> n in b
    ensures Solves(env, g, h, b)
  {
    forall e | e in g
      ensures SolvesAt(env, g, h, b, e)
    {
      assert SolvesAt(env, g, h, a, e);
    }
  }
}
