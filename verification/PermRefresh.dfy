/**
 Permission refresh over a topologically sorted list of nodes: what one node
 passes to its children, what makes the refresh fail, and why one pass is
 enough.
 */
module PermRefresh {
  import opened BlockGraph
  import opened Permissions
  import opened TopologicalOrder

  /** The node attributes and driver callbacks the refresh uses. */
  datatype Env = Env(
    info: Node -> NodeInfo,
    childPerm: (Node, Edge, Claim) -> Claim,   // .bdrv_child_perm
    checkPerm: (Node, Claim) -> bool           // .bdrv_check_perm
  )

  datatype RefreshError = PermConflict | ReadOnly | SizeMisaligned | DriverRefused

  function ClaimOf(l: Link): Claim {
    Claim(l.perm, l.shared)
  }

  /** bdrv_get_cumulative_perm */
  function Cumulative(g: Edges, n: Node): Claim {
    Claim(set e, p | e in g && PointsTo(g, e, n) && p in g[e].perm :: p,
          set p | p in ALL_PERMS && forall e :: e in g && PointsTo(g, e, n) ==> p in g[e].shared)
  }

  /** bdrv_child_perm for edge `e` of node `n` */
  function ChildClaim(env: Env, g: Edges, n: Node, e: Edge): Claim
    requires ChildOf(g, e, n)
  {
    var c := env.childPerm(n, e, Cumulative(g, n));
    if env.info(g[e].to.value).forceShare then c.(shared := ALL_PERMS) else c
  }

  /** bdrv_a_allow_b, negated, for some pair of parents */
  predicate ParentsConflict(g: Edges, n: Node) {
    exists a, b :: a in g && b in g && PointsTo(g, a, n) && PointsTo(g, b, n) && a != b && !(g[b].perm <= g[a].shared)
  }

  predicate Writes(c: Claim) {
    Write in c.perm || WriteUnchanged in c.perm
  }

  /** Why the refresh stops at node `n`, in the order of the tests. */
  function NodeError(env: Env, g: Edges, n: Node): Option<RefreshError> {
    var c := Cumulative(g, n);
    if ParentsConflict(g, n) then Some(PermConflict)
    else if Writes(c) && !env.info(n).writable then Some(ReadOnly)
    else if Writes(c) && Resize !in c.perm && !env.info(n).aligned then Some(SizeMisaligned)
    else if env.info(n).hasDriver && !env.checkPerm(n, c) then Some(DriverRefused)
    else None
  }

  // ----- what the tests mean, edge by edge

  /** No parent takes what another parent does not share. */
  predicate ParentsAgree(g: Edges, n: Node) {
    forall a, b :: a in g && b in g && PointsTo(g, a, n) && PointsTo(g, b, n) && a != b ==> g[a].perm <= g[b].shared
  }

  /** Some parent takes permission `p`. */
  predicate SomeTakes(g: Edges, n: Node, p: Perm) {
    exists e :: e in g && PointsTo(g, e, n) && p in g[e].perm
  }

  predicate NobodyWrites(g: Edges, n: Node) {
    forall e :: e in g && PointsTo(g, e, n) ==> Write !in g[e].perm && WriteUnchanged !in g[e].perm
  }

  /** `c` is what the parents of `n` take together and what all of them share. */
  predicate SumsUp(g: Edges, n: Node, c: Claim) {
    && (forall p :: p in c.perm <==> SomeTakes(g, n, p))
    && (forall p :: p in c.shared <==> forall e :: e in g && PointsTo(g, e, n) ==> p in g[e].shared)
  }

  ghost predicate DriverAgrees(env: Env, g: Edges, n: Node) {
    env.info(n).hasDriver ==> forall c :: SumsUp(g, n, c) ==> env.checkPerm(n, c)
  }

  /** The node can serve all its parents together. */
  ghost predicate Serves(env: Env, g: Edges, n: Node) {
    && ParentsAgree(g, n)
    && (NobodyWrites(g, n) || env.info(n).writable)
    && (NobodyWrites(g, n) || SomeTakes(g, n, Resize) || env.info(n).aligned)
    && DriverAgrees(env, g, n)
  }

  lemma CumulativeSumsUp(g: Edges, n: Node)
    ensures SumsUp(g, n, Cumulative(g, n))
    ensures forall c :: SumsUp(g, n, c) ==> c == Cumulative(g, n)
    ensures Writes(Cumulative(g, n)) <==> !NobodyWrites(g, n)
    ensures Resize in Cumulative(g, n).perm <==> SomeTakes(g, n, Resize)
  {
    var sum := Cumulative(g, n);
    AllPerms();
    assert SumsUp(g, n, sum);
    forall c | SumsUp(g, n, c)
      ensures c == sum
    {
      assert c.perm == sum.perm;
      assert c.shared == sum.shared;
    }
    assert Writes(sum) <==> SomeTakes(g, n, Write) || SomeTakes(g, n, WriteUnchanged);
  }

  /** The refresh stops at a node exactly when it cannot serve its parents, and says which of the four it is. */
  lemma NodeErrorIs(env: Env, g: Edges, n: Node)
    ensures NodeError(env, g, n).None? <==> Serves(env, g, n)
    ensures NodeError(env, g, n) == Some(PermConflict) <==> !ParentsAgree(g, n)
    ensures NodeError(env, g, n) == Some(ReadOnly) <==>
      ParentsAgree(g, n) && !NobodyWrites(g, n) && !env.info(n).writable
    ensures NodeError(env, g, n) == Some(SizeMisaligned) <==>
      && ParentsAgree(g, n) && !NobodyWrites(g, n) && env.info(n).writable
      && !SomeTakes(g, n, Resize) && !env.info(n).aligned
  {
    hide Cumulative, SumsUp, SomeTakes, NobodyWrites;
    CumulativeSumsUp(g, n);
    assert ParentsConflict(g, n) <==> !ParentsAgree(g, n);
    hide ParentsConflict, ParentsAgree, Writes;
    assert DriverAgrees(env, g, n) <==> (env.info(n).hasDriver ==> env.checkPerm(n, Cumulative(g, n)));
  }

  /** The children of `n` carry what its driver asks for what the parents add up to; some nodes force sharing. */
  ghost predicate ChildrenServed(env: Env, g: Edges, n: Node) {
    env.info(n).hasDriver ==>
      forall e, c :: ChildOf(g, e, n) && SumsUp(g, n, c) ==>
        && g[e].perm == env.childPerm(n, e, c).perm
        && g[e].shared == if env.info(g[e].to.value).forceShare then ALL_PERMS else env.childPerm(n, e, c).shared
  }

  /** Settled nodes are those that serve their parents and are served by their children. */
  lemma NodeSettledIs(env: Env, g: Edges, n: Node)
    ensures NodeSettled(env, g, n) <==> Serves(env, g, n) && ChildrenServed(env, g, n)
  {
    hide Cumulative, SumsUp, Serves, NodeError;
    NodeErrorIs(env, g, n);
    CumulativeSumsUp(g, n);
    if ChildrenServed(env, g, n) && env.info(n).hasDriver {
      forall e | e in g && ChildOf(g, e, n)
        ensures ClaimOf(g[e]) == ChildClaim(env, g, n, e)
      {
        assert SumsUp(g, n, Cumulative(g, n));
      }
    }
  }

  /** The children of `n` as its driver wants them. */
  function RefreshChildren(env: Env, g: Edges, n: Node): Edges {
    map e | e in g :: if ChildOf(g, e, n) then Granted(g[e], ChildClaim(env, g, n, e)) else g[e]
  }

  function Granted(l: Link, c: Claim): Link {
    l.(perm := c.perm, shared := c.shared)
  }

  function RefreshNode(env: Env, g: Edges, n: Node): Edges {
    if env.info(n).hasDriver then RefreshChildren(env, g, n) else g
  }

  datatype Outcome = Refreshed(edges: Edges) | Failed(node: Node, error: RefreshError)

  /** bdrv_do_refresh_perms */
  function RefreshList(env: Env, g: Edges, list: seq<Node>): Outcome {
    if list == [] then Refreshed(g)
    else if NodeError(env, g, list[0]).Some? then Failed(list[0], NodeError(env, g, list[0]).value)
    else RefreshList(env, RefreshNode(env, g, list[0]), list[1..])
  }

  /** Same edges between the same nodes; only permissions may differ. */
  predicate SameShape(g: Edges, h: Edges) {
    g.Keys == h.Keys && forall e :: e in g ==> h[e] == Granted(g[e], ClaimOf(h[e]))
  }

  /** The children of `n` carry exactly what its driver computes from its parents. */
  predicate ChildrenSettled(env: Env, g: Edges, n: Node) {
    env.info(n).hasDriver ==>
      forall e :: e in g && ChildOf(g, e, n) ==> ClaimOf(g[e]) == ChildClaim(env, g, n, e)
  }

  predicate NodeSettled(env: Env, g: Edges, n: Node) {
    NodeError(env, g, n).None? && ChildrenSettled(env, g, n)
  }

  /** Nothing about the edges above and below `n` differs. */
  predicate SameAround(g: Edges, h: Edges, n: Node) {
    SameShape(g, h) && forall e :: e in g && (PointsTo(g, e, n) || ChildOf(g, e, n)) ==> h[e] == g[e]
  }

  lemma SameShapeArcs(g: Edges, h: Edges)
    requires SameShape(g, h)
    ensures forall u, v :: Arc(g, u, v) <==> Arc(h, u, v)
    ensures forall e, n :: PointsTo(g, e, n) <==> PointsTo(h, e, n)
    ensures forall e, n :: ChildOf(g, e, n) <==> ChildOf(h, e, n)
  {
    assert forall e, n :: PointsTo(g, e, n) <==> PointsTo(h, e, n);
    assert forall e, n :: ChildOf(g, e, n) <==> ChildOf(h, e, n);
  }

  lemma SameAroundCumulative(g: Edges, h: Edges, n: Node)
    requires SameAround(g, h, n)
    ensures Cumulative(g, n) == Cumulative(h, n)
  {
    SameShapeArcs(g, h);
    assert Cumulative(g, n).perm == Cumulative(h, n).perm;
    assert Cumulative(g, n).shared == Cumulative(h, n).shared;
  }

  lemma SameAroundSettled(env: Env, g: Edges, h: Edges, n: Node)
    requires SameAround(g, h, n) && NodeSettled(env, g, n)
    ensures NodeSettled(env, h, n)
  {
    SameShapeArcs(g, h);
    SameAroundCumulative(g, h, n);
    assert !ParentsConflict(h, n);
  }

  lemma RefreshNodeShape(env: Env, g: Edges, n: Node)
    ensures SameShape(g, RefreshNode(env, g, n))
    ensures forall e :: e in g && !ChildOf(g, e, n) ==> RefreshNode(env, g, n)[e] == g[e]
  {
  }

  /** Refreshing a node that is no parent of itself settles it. */
  lemma RefreshNodeSettles(env: Env, g: Edges, n: Node)
    requires NodeError(env, g, n).None? && !Arc(g, n, n)
    ensures NodeSettled(env, RefreshNode(env, g, n), n)
  {
    var h := RefreshNode(env, g, n);
    RefreshNodeShape(env, g, n);
    SameShapeArcs(g, h);
    assert forall e :: PointsTo(g, e, n) ==> h[e] == g[e];
    assert Cumulative(g, n).perm == Cumulative(h, n).perm;
    assert Cumulative(g, n).shared == Cumulative(h, n).shared;
    assert !ParentsConflict(h, n);
  }

  lemma {:induction false} RefreshListShape(env: Env, g: Edges, list: seq<Node>)
    requires RefreshList(env, g, list).Refreshed?
    ensures var h := RefreshList(env, g, list).edges;
            SameShape(g, h) && forall e :: e in g && (g[e].owner.None? || g[e].owner.value !in list) ==> h[e] == g[e]
  {
    if list != [] {
      var g1 := RefreshNode(env, g, list[0]);
      RefreshNodeShape(env, g, list[0]);
      RefreshListShape(env, g1, list[1..]);
    }
  }

  lemma SortedTail(g: Edges, h: Edges, list: seq<Node>)
    requires TopologicallySorted(g, list) && list != [] && SameShape(g, h)
    ensures TopologicallySorted(h, list[1..])
    ensures list[0] !in list[1..]
    ensures forall m :: m in list ==> !Arc(g, m, list[0])
  {
    SameShapeArcs(g, h);
    var t := list[1..];
    forall i, v | 0 <= i < |t| && Arc(h, t[i], v)
      ensures v in t[i + 1..]
    {
      assert t[i] == list[i + 1];
      assert t[i + 1..] == list[i + 2..];
    }
    forall m | m in list
      ensures !Arc(g, m, list[0])
    {
      var i :| 0 <= i < |list| && list[i] == m;
      assert list[0] !in list[i + 1..];
    }
  }

  /** A successful pass over a sorted list leaves every listed node settled and touches no other edge. */
  lemma {:induction false} RefreshFixpoint(env: Env, g: Edges, list: seq<Node>)
    requires TopologicallySorted(g, list) && RefreshList(env, g, list).Refreshed?
    ensures var h := RefreshList(env, g, list).edges;
            && SameShape(g, h)
            && (forall n :: n in list ==> NodeSettled(env, h, n) && Serves(env, h, n) && ChildrenServed(env, h, n))
            && (forall e :: e in g && (g[e].owner.None? || g[e].owner.value !in list) ==> h[e] == g[e])
  {
    if list != [] {
      var n, t := list[0], list[1..];
      var g1 := RefreshNode(env, g, n);
      RefreshNodeShape(env, g, n);
      SortedTail(g, g1, list);
      RefreshFixpoint(env, g1, t);
      var h := RefreshList(env, g1, t).edges;
      RefreshListShape(env, g, list);
      assert n in list && !Arc(g, n, n);
      RefreshNodeSettles(env, g, n);
      SameShapeArcs(g, g1);
      forall e | e in g1 && (PointsTo(g1, e, n) || ChildOf(g1, e, n))
        ensures h[e] == g1[e]
      {
        if PointsTo(g1, e, n) && g1[e].owner.Some? && g1[e].owner.value in t {
          assert Arc(g, g1[e].owner.value, n) by {
            assert ChildOf(g, e, g1[e].owner.value);
          }
        }
      }
      SameAroundSettled(env, g1, h, n);
      NodeSettledIs(env, h, n);
    }
  }
}
