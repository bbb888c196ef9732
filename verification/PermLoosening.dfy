/**
 Taking a parent away only loosens permissions.  The refresh that follows can
 never meet a permission conflict or a read-only node, but it can still fail,
 and here is exactly when.
 */
module PermLoosening {
  import opened BlockGraph
  import opened Permissions
  import opened TopologicalOrder
  import opened PermRefresh

  /** The permissions the refresh arrives at if no test stops it. */
  function Recompute(env: Env, g: Edges, list: seq<Node>): Edges {
    if list == [] then g else Recompute(env, RefreshNode(env, g, list[0]), list[1..])
  }

  predicate SameParents(g: Edges, h: Edges, n: Node) {
    SameShape(g, h) && forall e :: e in g && PointsTo(g, e, n) ==> h[e] == g[e]
  }

  /** Only the edges above a node decide whether the refresh stops there. */
  lemma SameParentsError(env: Env, g: Edges, h: Edges, n: Node)
    requires SameParents(g, h, n)
    ensures NodeError(env, g, n) == NodeError(env, h, n) && Cumulative(g, n) == Cumulative(h, n)
  {
    SameShapeArcs(g, h);
    assert Cumulative(g, n).perm == Cumulative(h, n).perm;
    assert Cumulative(g, n).shared == Cumulative(h, n).shared;
    assert ParentsConflict(g, n) <==> ParentsConflict(h, n);
  }

  lemma {:induction false} RecomputeShape(env: Env, g: Edges, list: seq<Node>)
    ensures var h := Recompute(env, g, list);
            SameShape(g, h) && forall e :: e in g && (g[e].owner.None? || g[e].owner.value !in list) ==> h[e] == g[e]
  {
    if list != [] {
      RefreshNodeShape(env, g, list[0]);
      RecomputeShape(env, RefreshNode(env, g, list[0]), list[1..]);
    }
  }

  /** No listed node lies above the first one, so the pass leaves its parents alone. */
  lemma FirstKeepsParents(env: Env, g: Edges, list: seq<Node>)
    requires TopologicallySorted(g, list) && list != []
    ensures SameParents(g, Recompute(env, g, list), list[0])
  {
    var h := Recompute(env, g, list);
    RecomputeShape(env, g, list);
    SortedTail(g, h, list);
    forall e | e in g && PointsTo(g, e, list[0])
      ensures h[e] == g[e]
    {
      if g[e].owner.Some? && g[e].owner.value in list {
        assert !Arc(g, g[e].owner.value, list[0]);
        assert ChildOf(g, e, g[e].owner.value);
      }
    }
  }

  /** The refresh succeeds exactly when no listed node objects to the recomputed permissions. */
  lemma {:induction false} RefreshSucceedsIff(env: Env, g: Edges, list: seq<Node>)
    requires TopologicallySorted(g, list)
    ensures var h := Recompute(env, g, list);
            && (RefreshList(env, g, list).Refreshed? <==> forall n :: n in list ==> NodeError(env, h, n).None?)
            && (RefreshList(env, g, list).Refreshed? ==> RefreshList(env, g, list).edges == h)
            && (RefreshList(env, g, list).Failed? ==>
                  var f := RefreshList(env, g, list); f.node in list && NodeError(env, h, f.node) == Some(f.error))
  {
    if list != [] {
      var g1 := RefreshNode(env, g, list[0]);
      var h := Recompute(env, g, list);
      RefreshNodeShape(env, g, list[0]);
      SortedTail(g, g1, list);
      RefreshSucceedsIff(env, g1, list[1..]);
      FirstKeepsParents(env, g, list);
      SameParentsError(env, g, h, list[0]);
      assert forall n :: n in list <==> n == list[0] || n in list[1..];
    }
  }

  /** Every edge of `h` is an edge of `g` that asks for no more and shares no less. */
  predicate LooserGraph(h: Edges, g: Edges) {
    h.Keys <= g.Keys && forall e :: e in h ==>
      h[e].owner == g[e].owner && h[e].to == g[e].to && Looser(ClaimOf(h[e]), ClaimOf(g[e]))
  }

  ghost predicate Monotone(env: Env) {
    forall n, e, c, d :: Looser(c, d) ==> Looser(env.childPerm(n, e, c), env.childPerm(n, e, d))
  }

  /** Every driver uses bdrv_default_perms with the role of the edge. */
  ghost predicate UsesDefaultPerms(env: Env, role: Edge -> Role) {
    && (forall e :: RoleOk(role(e)))
    && (forall n, e, c :: env.childPerm(n, e, c) == DefaultPerms(env.info(n), role(e), c))
  }

  lemma DefaultsMonotone(env: Env, role: Edge -> Role)
    requires UsesDefaultPerms(env, role)
    ensures Monotone(env)
  {
    forall n, e, c, d | Looser(c, d)
      ensures Looser(env.childPerm(n, e, c), env.childPerm(n, e, d))
    {
      assert RoleOk(role(e));
      assert env.childPerm(n, e, c) == DefaultPerms(env.info(n), role(e), c);
      assert env.childPerm(n, e, d) == DefaultPerms(env.info(n), role(e), d);
      DefaultPermsMonotone(env.info(n), role(e), c, d);
    }
  }

  lemma CumulativeLooser(h: Edges, g: Edges, n: Node)
    requires LooserGraph(h, g)
    ensures Looser(Cumulative(h, n), Cumulative(g, n))
  {
    forall e | e in h && PointsTo(h, e, n)
      ensures e in g && PointsTo(g, e, n) && Looser(ClaimOf(h[e]), ClaimOf(g[e]))
    {
    }
  }

  lemma RefreshNodeLooser(env: Env, h: Edges, g: Edges, n: Node)
    requires LooserGraph(h, g) && ChildrenSettled(env, g, n) && Monotone(env)
    ensures LooserGraph(RefreshNode(env, h, n), g)
  {
    CumulativeLooser(h, g, n);
    var k := RefreshNode(env, h, n);
    RefreshNodeShape(env, h, n);
    forall e | e in k && ChildOf(h, e, n) && env.info(n).hasDriver
      ensures Looser(ClaimOf(k[e]), ClaimOf(g[e]))
    {
      assert ChildOf(g, e, n);
      assert ClaimOf(k[e]) == ChildClaim(env, h, n, e);
      assert ClaimOf(g[e]) == ChildClaim(env, g, n, e);
      assert Looser(env.childPerm(n, e, Cumulative(h, n)), env.childPerm(n, e, Cumulative(g, n)));
    }
  }

  /** From a settled graph, recomputing over fewer parents only loosens. */
  lemma {:induction false} RecomputeLooser(env: Env, h: Edges, g: Edges, list: seq<Node>)
    requires LooserGraph(h, g) && Monotone(env)
    requires forall n :: n in list ==> ChildrenSettled(env, g, n)
    ensures LooserGraph(Recompute(env, h, list), g)
  {
    if list != [] {
      RefreshNodeLooser(env, h, g, list[0]);
      RecomputeLooser(env, RefreshNode(env, h, list[0]), g, list[1..]);
    }
  }

  /** A node that was fine stays free of conflicts and of write users it cannot serve. */
  lemma LooserNodeError(env: Env, h: Edges, g: Edges, n: Node)
    requires LooserGraph(h, g) && NodeError(env, g, n).None?
    ensures !ParentsConflict(h, n)
    ensures NodeError(env, h, n) != Some(PermConflict) && NodeError(env, h, n) != Some(ReadOnly)
  {
    CumulativeLooser(h, g, n);
    forall a, b | a in h && b in h && PointsTo(h, a, n) && PointsTo(h, b, n) && a != b
      ensures h[b].perm <= h[a].shared
    {
      assert PointsTo(g, a, n) && PointsTo(g, b, n);
      assert Looser(ClaimOf(h[a]), ClaimOf(g[a])) && Looser(ClaimOf(h[b]), ClaimOf(g[b]));
    }
  }

  /** The two tests that can still stop the refresh: the size of the image and the driver's own check. */
  predicate Objects(env: Env, h: Edges, n: Node) {
    var c := Cumulative(h, n);
    || (Writes(c) && Resize !in c.perm && !env.info(n).aligned)
    || (env.info(n).hasDriver && !env.checkPerm(n, c))
  }

  /**
   Taking edge `c` away from a settled graph and refreshing the nodes below it:
   every edge loosens, no conflict arises, and the refresh fails exactly when a
   node objects to a size that is not aligned or its driver refuses.
   */
  lemma TakingParentAway(env: Env, g: Edges, c: Edge, list: seq<Node>)
    requires c in g && Monotone(env)
    requires TopologicallySorted(g - {c}, list)
    requires forall n :: n in list ==> NodeSettled(env, g, n)
    ensures var h := Recompute(env, g - {c}, list);
            && LooserGraph(h, g)
            && (forall n :: n in list ==> !ParentsConflict(h, n))
            && (RefreshList(env, g - {c}, list).Refreshed? <==> forall n :: n in list ==> !Objects(env, h, n))
            && (RefreshList(env, g - {c}, list).Failed? ==>
                  RefreshList(env, g - {c}, list).error in {SizeMisaligned, DriverRefused})
  {
    var h := Recompute(env, g - {c}, list);
    RecomputeLooser(env, g - {c}, g, list);
    RefreshSucceedsIff(env, g - {c}, list);
    forall n | n in list
      ensures !ParentsConflict(h, n) && (NodeError(env, h, n).None? <==> !Objects(env, h, n))
      ensures NodeError(env, h, n) != Some(PermConflict) && NodeError(env, h, n) != Some(ReadOnly)
    {
      assert NodeSettled(env, g, n);
      LooserNodeError(env, h, g, n);
    }
  }

  // ----- the refresh can fail although restrictions only get looser

  /** A writable raw node whose size is not aligned. */
  const UNALIGNED := NodeInfo(true, true, false, false, false, false)

  /** A user that writes and one that may resize, both sharing everything. */
  const WRITER := Link(None, false, false, Some(0), {Write}, ALL_PERMS)
  const RESIZER := Link(None, false, false, Some(0), {Resize}, ALL_PERMS)

  /** The writer alone cannot keep its permission once the resizer is gone. */
  lemma LooseningCanFail(env: Env, g: Edges)
    requires g == map[0 := WRITER, 1 := RESIZER]
    requires env.info(0) == UNALIGNED && forall c :: env.checkPerm(0, c)
    ensures NodeSettled(env, g, 0)
    ensures RefreshList(env, g - {1}, [0]) == Failed(0, SizeMisaligned)
  {
    var h := g - {1};
    assert h.Keys == {0} && PointsTo(h, 0, 0) && PointsTo(g, 0, 0) && PointsTo(g, 1, 0);
    assert Write in Cumulative(g, 0).perm && Resize in Cumulative(g, 0).perm;
    assert Cumulative(h, 0).perm == {Write};
  }
}
