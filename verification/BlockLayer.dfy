/**
 The block layer's graph operations as they change the graph in place, each
 recording its changes in the running transaction.
 */
module BlockLayer {
  import opened BlockGraph
  import opened GraphTransaction
  import opened GraphRewiring
  import opened Permissions
  import opened PermRefresh
  import opened PermLoosening
  import opened PermOrder
  import opened TopologicalOrder

  /** From `s` to `t` by logged operations only: abort leads back to the same place and no reference is lost. */
  ghost predicate Progressed(s: State, t: State) {
    && SameBase(Rollback(t), Rollback(s))
    && (LogFits(s.edges.Keys, s.log) && RemovedEmpty(s) ==> LogFits(t.edges.Keys, t.log) && RemovedEmpty(t))
    && (forall outside :: Conserved(s, outside) ==> Conserved(t, outside))
  }

  lemma ProgressedSelf(s: State)
    ensures Progressed(s, s)
  {
  }

  lemma ProgressedTrans(s: State, t: State, u: State)
    requires Progressed(s, t) && Progressed(t, u)
    ensures Progressed(s, u)
  {
    hide Rollback, Conserved, LogFits, RemovedEmpty, Net;
  }

  lemma ProgressedBy(s: State, op: Op)
    requires Valid(s, op)
    ensures Progressed(s, Apply(s, op))
  {
    hide Rollback;
    ApplyRollback(s, op);
    if LogFits(s.edges.Keys, s.log) && RemovedEmpty(s) {
      ApplyFits(s, op);
    }
    forall outside | Conserved(s, outside)
      ensures Conserved(Apply(s, op), outside)
    {
      forall n: Node
        ensures ConservedAt(Apply(s, op), outside, n)
      {
        assert ConservedAt(s, outside, n);
        ApplyConservesAt(s, op, outside, n);
      }
    }
  }

  /** Progress without removing an edge. */
  ghost predicate Advanced(s: State, t: State) {
    Progressed(s, t) && forall e: Edge :: RemoveAction(e) in t.log ==> RemoveAction(e) in s.log
  }

  lemma AdvancedSelf(s: State)
    ensures Advanced(s, s)
  {
    ProgressedSelf(s);
  }

  lemma AdvancedTrans(s: State, t: State, u: State)
    requires Advanced(s, t) && Advanced(t, u)
    ensures Advanced(s, u)
  {
    ProgressedTrans(s, t, u);
  }

  lemma AdvancedBy(s: State, op: Op)
    requires Valid(s, op) && !op.OpRemove?
    ensures Advanced(s, Apply(s, op))
  {
    ProgressedBy(s, op);
  }

  /** Completing a transaction that only advanced from an empty log. */
  lemma Finalized(s: State, t: State)
    requires s.log == [] && Advanced(s, t)
    ensures SameBase(Rollback(t), s)
    ensures Commit(t).edges == t.edges
    ensures KeepsReferences(s, Commit(t)) && KeepsReferences(s, Rollback(t))
  {
    CommitKeepsEdges(t);
    assert Commit(t).edges == t.edges;
    forall outside | Conserved(s, outside)
      ensures Conserved(Commit(t), outside) && Conserved(Rollback(t), outside)
    {
      CommitConserves(t, outside);
      RollbackConserves(t, outside);
    }
  }

  lemma SameShapeAcyclic(g: Edges, h: Edges)
    requires SameShape(g, h) && Acyclic(g)
    ensures Acyclic(h)
  {
    SameShapeArcs(g, h);
    SubgraphAcyclic(g, h);
  }

  lemma SettledAcyclic(env: Env, g: Edges, h: Edges, roots: seq<Node>)
    requires SettledBelow(env, g, h, roots) && Acyclic(g)
    ensures Acyclic(h)
  {
    SameShapeAcyclic(g, h);
  }

  ghost function Subtree(g: Edges, n: Node): set<Node> {
    set x | x in Nodes(g) + {n} && Reach(g, n, x)
  }

  lemma SubtreeShrinks(g: Edges, n: Node, c: Node)
    requires Acyclic(g) && Arc(g, n, c)
    ensures Subtree(g, c) < Subtree(g, n)
  {
    ArcNodes(g, n, c);
    ArcReach(g, n, c);
    forall x | x in Subtree(g, c)
      ensures x in Subtree(g, n)
    {
      ReachTrans(g, n, c, x);
    }
    ReachSelf(g, n);
    assert n in Subtree(g, n) && n !in Subtree(g, c);
  }

  lemma NoChildReaches(g: Edges, bs: Node, child: Node)
    requires bs != child
    requires forall e :: e in Children(g, bs) ==> !Reach(g, g[e].to.value, child)
    ensures !Reach(g, bs, child)
  {
    forall w | Arc(g, bs, w)
      ensures !Reach(g, w, child)
    {
      var e :| ChildOf(g, e, bs) && PointsTo(g, e, w);
      assert e in Children(g, bs);
    }
    if Reach(g, bs, child) {
      ReachStep(g, bs, child);
    }
  }

  /** bdrv_recurse_has_child: no `found` set, so the search ends because the graph is acyclic. */
  method RecurseHasChild(g: Edges, bs: Node, child: Node) returns (r: bool)
    requires Acyclic(g)
    ensures r <==> Reach(g, bs, child)
    decreases Subtree(g, bs)
  {
    if bs == child {
      ReachSelf(g, bs);
      return true;
    }
    var todo := Children(g, bs);
    while todo != {}
      invariant todo <= Children(g, bs)
      invariant forall e :: e in Children(g, bs) && e !in todo ==> !Reach(g, g[e].to.value, child)
      decreases todo
    {
      var c :| c in todo;
      var below := g[c].to.value;
      assert ChildOf(g, c, bs) && PointsTo(g, c, below);
      SubtreeShrinks(g, bs, below);
      var found := RecurseHasChild(g, below, child);
      if found {
        ArcReach(g, bs, below);
        ReachTrans(g, bs, below, child);
        return true;
      }
      todo := todo - {c};
    }
    NoChildReaches(g, bs, child);
    return false;
  }

  /** should_update_child: breadth-first search for the edge in the subtree of `to`. */
  method ShouldUpdateChild(g: Edges, c: Edge, to: Node) returns (r: bool)
    requires c in g && g[c].to.Some?
    ensures r <==> !g[c].stayAtNode && !EdgeBelow(g, to, c)
  {
    if g[c].stayAtNode {
      return false;
    }
    r := true;
    var found := {to};
    var queue := [to];
    ReachSelf(g, to);
    while queue != []
      invariant to in found && forall v :: v in queue ==> v in found
      invariant forall v :: v in found ==> Reach(g, to, v) && v in Nodes(g) + {to}
      invariant !r ==> EdgeBelow(g, to, c)
      invariant r ==> forall v, e :: v in found && v !in queue && ChildOf(g, e, v) ==> e != c && g[e].to.value in found
      decreases Nodes(g) + {to} - found, |queue|
    {
      var v := queue[0];
      ghost var rest := queue[1..];
      assert queue == [v] + rest;
      ghost var before := found;
      queue := queue[1..];
      var todo := Children(g, v);
      while todo != {}
        invariant todo <= Children(g, v)
        invariant before <= found && (found == before ==> queue == rest)
        invariant v in found && to in found && forall x :: x in queue ==> x in found
        invariant forall x :: x in found ==> Reach(g, to, x) && x in Nodes(g) + {to}
        invariant forall x :: x in found && x !in before ==> x in queue
        invariant forall x :: x in rest ==> x in queue
        invariant forall x :: x in before && x in queue && x != v ==> x in rest
        invariant !r ==> EdgeBelow(g, to, c)
        invariant r ==> forall e :: e in Children(g, v) && e !in todo ==> e != c && g[e].to.value in found
        invariant r ==> forall x, e :: x in before && x != v && x !in rest && ChildOf(g, e, x) ==>
          e != c && g[e].to.value in found
        decreases todo
      {
        var c2 :| c2 in todo;
        assert ChildOf(g, c2, v);
        if c2 == c {
          r := false;
          break;
        }
        var w := g[c2].to.value;
        assert PointsTo(g, c2, w);
        if w !in found {
          ArcReach(g, v, w);
          ReachTrans(g, to, v, w);
          queue := queue + [w];
          found := found + {w};
        }
        todo := todo - {c2};
      }
      if r {
        forall x, e | x in found && x !in queue && ChildOf(g, e, x)
          ensures e != c && g[e].to.value in found
        {
          assert x in before;
          if x == v {
            assert e in Children(g, v);
          }
        }
      }
    }
    if r && EdgeBelow(g, to, c) {
      var u := g[c].owner.value;
      forall x, y | x in found && Arc(g, x, y)
        ensures y in found
      {
        var e :| ChildOf(g, e, x) && PointsTo(g, e, y);
      }
      ReachInClosed(g, to, u, found);
      assert ChildOf(g, c, u);
    }
  }

  lemma ConflictIs(g: Edges, n: Node)
    ensures ParentsConflict(g, n) <==> !ParentsAgree(g, n)
  {
  }

  // ----- what the drivers are told when the transaction ends

  datatype DriverCall =
    | SetPermCall(node: Node, claim: Claim)    // .bdrv_set_perm
    | AbortPermCall(node: Node)                // .bdrv_abort_perm_update

  /** The calls made by the commit callbacks, newest record first. */
  function CommitCalls(s: State): seq<DriverCall>
    decreases |s.log|
  {
    if s.log == [] then []
    else
      (if s.log[0].DrvSetPermAction? then [SetPermCall(s.log[0].node, Cumulative(s.edges, s.log[0].node))] else [])
      + CommitCalls(Settle(s))
  }

  /** The calls made by the abort callbacks, newest record first. */
  function AbortCalls(log: seq<Action>): seq<DriverCall> {
    if log == [] then []
    else (if log[0].DrvSetPermAction? then [AbortPermCall(log[0].node)] else []) + AbortCalls(log[1..])
  }

  lemma SettleCumulative(s: State, n: Node)
    requires s.log != [] && RemovedEmpty(s)
    ensures Cumulative(Settle(s).edges, n) == Cumulative(s.edges, n)
  {
    var g, h := s.edges, Settle(s).edges;
    if s.log[0].RemoveAction? {
      forall e
        ensures PointsTo(h, e, n) <==> PointsTo(g, e, n)
      {
        assert RemoveAction(s.log[0].edge) in s.log;
      }
      assert Cumulative(h, n).perm == Cumulative(g, n).perm;
      assert Cumulative(h, n).shared == Cumulative(g, n).shared;
    }
  }

  /** On commit every driver that was asked is told the permissions its node ends up with. */
  lemma {:induction false} CommitTells(s: State, n: Node)
    requires RemovedEmpty(s) && DrvSetPermAction(n) in s.log
    ensures SetPermCall(n, Cumulative(Commit(s).edges, n)) in CommitCalls(s)
    decreases |s.log|
  {
    hide Cumulative;
    SettleCumulative(s, n);
    assert s.log == [s.log[0]] + s.log[1..];
    if DrvSetPermAction(n) in s.log[1..] {
      assert RemovedEmpty(Settle(s));
      CommitTells(Settle(s), n);
    } else {
      assert RemovedEmpty(Settle(s));
      CommitCumulative(Settle(s), n);
    }
  }

  lemma {:induction false} CommitCumulative(s: State, n: Node)
    requires RemovedEmpty(s)
    ensures Cumulative(Commit(s).edges, n) == Cumulative(s.edges, n)
    decreases |s.log|
  {
    hide Cumulative;
    if s.log != [] {
      SettleCumulative(s, n);
      assert s.log == [s.log[0]] + s.log[1..];
      CommitCumulative(Settle(s), n);
    }
  }

  lemma SettleShortens(s: State)
    requires s.log != []
    ensures Settle(s).log == s.log[1..] && Settle(s).refs == s.refs
  {
  }

  lemma UndoShortens(s: State)
    requires s.log != []
    ensures Undo(s).log == s.log[1..]
  {
  }

  /** On abort every driver that was asked is told to forget it. */
  lemma {:induction false} AbortTells(log: seq<Action>, n: Node)
    requires DrvSetPermAction(n) in log
    ensures AbortPermCall(n) in AbortCalls(log)
  {
    if log[0] != DrvSetPermAction(n) {
      assert log == [log[0]] + log[1..];
      AbortTells(log[1..], n);
    }
  }

  class Graph {
    var edges: Edges
    var refs: map<Node, int>
    var unrefs: multiset<Node>
    var log: seq<Action>
    var nextEdge: Edge
    var told: seq<DriverCall>   // calls of the drivers' permission callbacks so far
    const env: Env

    ghost function Now(): State
      reads this
    {
      State(edges, refs, unrefs, log)
    }

    /** Identities of freed and future edges do not clash. */
    ghost predicate Fresh()
      reads this
    {
      && (forall e :: e in edges ==> e < nextEdge)
      && (forall e: Edge :: RemoveAction(e) in log ==> e < nextEdge)
    }

    constructor (env: Env)
      ensures Fresh() && Now() == State(map[], map[], multiset{}, []) && this.env == env
    {
      this.env := env;
      edges, refs, unrefs, log, nextEdge, told := map[], map[], multiset{}, [], 0, [];
    }

    // ----- logged changes of one edge

    /** bdrv_child_set_perm */
    method ChildSetPerm(c: Edge, perm: Perms, shared: Perms)
      requires c in edges && Fresh()
      modifies this
      ensures Now() == SetPerm(old(Now()), c, perm, shared)
      ensures Fresh() && nextEdge == old(nextEdge) && Advanced(old(Now()), Now())
    {
      AdvancedBy(Now(), OpSetPerm(c, perm, shared));
      var l := edges[c];
      log := [SetPermAction(c, l.perm, l.shared)] + log;
      edges := edges[c := l.(perm := perm, shared := shared)];
    }

    /** bdrv_replace_child_tran */
    method ReplaceChildTran(c: Edge, to: Option<Node>)
      requires Fresh() && Valid(Now(), OpReplace(c, to))
      modifies this
      ensures Now() == Replace(old(Now()), c, to)
      ensures Fresh() && nextEdge == old(nextEdge) && Advanced(old(Now()), Now())
    {
      AdvancedBy(Now(), OpReplace(c, to));
      log := [ReplaceAction(c, edges[c].to)] + log;
      if to.Some? {
        refs := AddRef(refs, to, 1);
      }
      edges := edges[c := edges[c].(to := to)];
    }

    /** bdrv_remove_child */
    method RemoveChild(c: Edge)
      requires Fresh() && Valid(Now(), OpRemove(c))
      modifies this
      ensures Now() == Remove(old(Now()), c)
      ensures Fresh() && nextEdge == old(nextEdge) && Progressed(old(Now()), Now())
    {
      ProgressedBy(Now(), OpRemove(c));
      if edges[c].to.Some? {
        ReplaceChildTran(c, None);
      }
      log := [RemoveAction(c)] + log;
    }

    /** bdrv_attach_child_common, without the move between AioContexts */
    method AttachChildCommon(l: Link) returns (c: Option<Edge>)
      requires Fresh() && l.to.Some?
      modifies this
      ensures c.None? <==> env.info(l.to.value).inactive && !(l.perm <= {ConsistentRead})
      ensures c.None? ==> Now() == old(Now())
      ensures c.Some? ==> c.value == old(nextEdge) && c.value !in old(edges) && Now() == Attach(old(Now()), c.value, l)
      ensures nextEdge >= old(nextEdge)
      ensures Fresh() && Advanced(old(Now()), Now())
    {
      if env.info(l.to.value).inactive && !(l.perm <= {ConsistentRead}) {
        AdvancedSelf(Now());
        return None;
      }
      c := Some(nextEdge);
      AdvancedBy(Now(), OpAttach(nextEdge, l));
      refs := AddRef(refs, l.to, 1);
      edges := edges[nextEdge := l];
      log := [AttachAction(nextEdge)] + log;
      nextEdge := nextEdge + 1;
    }

    // ----- permissions

    /** bdrv_get_cumulative_perm */
    method GetCumulativePerm(bs: Node) returns (c: Claim)
      ensures c == Cumulative(edges, bs) && SumsUp(edges, bs, c)
    {
      hide SumsUp;
      CumulativeSumsUp(edges, bs);
      c := Claim({}, ALL_PERMS);
      var todo := Parents(edges, bs);
      while todo != {}
        invariant todo <= Parents(edges, bs)
        invariant c.perm == set e, p | e in edges && PointsTo(edges, e, bs) && e !in todo && p in edges[e].perm :: p
        invariant c.shared == set p | p in ALL_PERMS &&
                                      forall e :: e in edges && PointsTo(edges, e, bs) && e !in todo ==>
                                        p in edges[e].shared
        decreases todo
      {
        var e :| e in todo;
        c := Claim(c.perm + edges[e].perm, c.shared * edges[e].shared);
        todo := todo - {e};
      }
    }

    /** bdrv_parent_perms_conflict */
    method ParentPermsConflict(bs: Node) returns (conflict: bool)
      ensures conflict <==> ParentsConflict(edges, bs)
      ensures conflict <==> !ParentsAgree(edges, bs)
    {
      hide ParentsAgree;
      ConflictIs(edges, bs);
      var outer := Parents(edges, bs);
      while outer != {}
        invariant outer <= Parents(edges, bs)
        invariant forall a, b :: a in Parents(edges, bs) && a !in outer && b in Parents(edges, bs) && a != b ==>
                    edges[b].perm <= edges[a].shared
        decreases outer
      {
        var a :| a in outer;
        var inner := Parents(edges, bs);
        while inner != {}
          invariant inner <= Parents(edges, bs)
          invariant forall b :: b in Parents(edges, bs) && b !in inner && a != b ==> edges[b].perm <= edges[a].shared
          decreases inner
        {
          var b :| b in inner;
          if a != b && edges[b].perm * edges[a].shared != edges[b].perm {
            return true;
          }
          inner := inner - {b};
        }
        outer := outer - {a};
      }
      assert forall e :: e in edges && PointsTo(edges, e, bs) ==> e in Parents(edges, bs);
      return false;
    }

    /** bdrv_node_refresh_perm: fails before it changes anything, or settles the children of `bs` */
    method NodeRefreshPerm(bs: Node) returns (error: Option<RefreshError>)
      requires Fresh() && !ParentsConflict(edges, bs)
      modifies this
      ensures error == NodeError(env, old(edges), bs)
      ensures error.None? <==> Serves(env, old(edges), bs)
      ensures error == Some(ReadOnly) <==> !NobodyWrites(old(edges), bs) && !env.info(bs).writable
      ensures error.Some? ==> Now() == old(Now())
      ensures error.None? ==> edges == RefreshNode(env, old(edges), bs)
      ensures error.None? && env.info(bs).hasDriver ==> DrvSetPermAction(bs) in log
      ensures forall a :: a in old(log) ==> a in log
      ensures refs == old(refs) && unrefs == old(unrefs) && nextEdge == old(nextEdge)
      ensures Fresh() && Advanced(old(Now()), Now())
    {
      hide Serves, NobodyWrites, ParentsAgree;
      NodeErrorIs(env, edges, bs);
      var c := GetCumulativePerm(bs);
      AdvancedSelf(Now());
      if Writes(c) && !env.info(bs).writable {
        return Some(ReadOnly);
      }
      if Writes(c) && Resize !in c.perm && !env.info(bs).aligned {
        return Some(SizeMisaligned);
      }
      if !env.info(bs).hasDriver {
        return None;
      }
      if !env.checkPerm(bs, c) {
        return Some(DriverRefused);
      }
      AdvancedBy(Now(), OpDrvSetPerm(bs));
      log := [DrvSetPermAction(bs)] + log;
      RefreshChildrenPerm(bs, c);
      AdvancedTrans(old(Now()), DrvSetPerm(old(Now()), bs), Now());
      return None;
    }

    /** The loop over the children at the end of bdrv_node_refresh_perm. */
    method RefreshChildrenPerm(bs: Node, c: Claim)
      requires Fresh() && c == Cumulative(edges, bs)
      modifies this
      ensures edges == RefreshChildren(env, old(edges), bs)
      ensures forall a :: a in old(log) ==> a in log
      ensures refs == old(refs) && unrefs == old(unrefs) && nextEdge == old(nextEdge)
      ensures Fresh() && Advanced(old(Now()), Now())
    {
      hide Advanced, Cumulative;
      ghost var g := edges;
      AdvancedSelf(Now());
      var todo := Children(edges, bs);
      while todo != {}
        invariant todo <= Children(g, bs)
        invariant edges == map e | e in g ::
          if e !in todo && ChildOf(g, e, bs) then Granted(g[e], ChildClaim(env, g, bs, e)) else g[e]
        invariant forall a :: a in old(log) ==> a in log
        invariant refs == old(refs) && unrefs == old(unrefs) && nextEdge == old(nextEdge)
        invariant Fresh() && Advanced(old(Now()), Now())
        decreases todo
      {
        var e :| e in todo;
        assert ChildOf(g, e, bs) && edges[e] == g[e];
        var k := env.childPerm(bs, e, c);
        if env.info(edges[e].to.value).forceShare {
          k := k.(shared := ALL_PERMS);
        }
        assert k == ChildClaim(env, g, bs, e);
        ghost var before := Now();
        ChildSetPerm(e, k.perm, k.shared);
        AdvancedTrans(old(Now()), before, Now());
        todo := todo - {e};
      }
    }

    /** bdrv_do_refresh_perms */
    method DoRefreshPerms(list: seq<Node>) returns (ok: bool)
      requires Fresh()
      modifies this
      ensures ok <==> RefreshList(env, old(edges), list).Refreshed?
      ensures ok ==> edges == RefreshList(env, old(edges), list).edges
      ensures ok ==> forall n :: n in list && env.info(n).hasDriver ==> DrvSetPermAction(n) in log
      ensures refs == old(refs) && unrefs == old(unrefs) && nextEdge == old(nextEdge)
      ensures Fresh() && Advanced(old(Now()), Now())
    {
      AdvancedSelf(Now());
      ghost var goal := RefreshList(env, edges, list);
      for i := 0 to |list|
        invariant RefreshList(env, edges, list[i..]) == goal
        invariant forall k :: 0 <= k < i && env.info(list[k]).hasDriver ==> DrvSetPermAction(list[k]) in log
        invariant refs == old(refs) && unrefs == old(unrefs) && nextEdge == old(nextEdge)
        invariant Fresh() && Advanced(old(Now()), Now())
      {
        assert list[i..][1..] == list[i + 1..];
        var conflict := ParentPermsConflict(list[i]);
        if conflict {
          return false;
        }
        ghost var before := Now();
        var error := NodeRefreshPerm(list[i]);
        AdvancedTrans(old(Now()), before, Now());
        if error.Some? {
          return false;
        }
      }
      return true;
    }

    /** bdrv_list_refresh_perms */
    method ListRefreshPerms(roots: seq<Node>) returns (ok: bool)
      requires Fresh() && Acyclic(edges)
      modifies this
      ensures RefreshVerdict(env, old(edges), roots, ok)
      ensures ok ==> SettledBelow(env, old(edges), edges, roots) && AllAsked(env, old(edges), roots, log)
      ensures refs == old(refs) && unrefs == old(unrefs) && nextEdge == old(nextEdge)
      ensures Fresh() && Advanced(old(Now()), Now())
    {
      var list := OrderSubtrees(edges, roots);
      ok := DoRefreshPerms(list);
      VerdictOf(env, old(edges), roots, list, ok);
      if ok {
        RefreshFixpoint(env, old(edges), list);
      }
    }

    // ----- changing the graph

    /** bdrv_attach_child_noperm */
    method AttachChildNoperm(parent: Node, child: Node) returns (c: Option<Edge>)
      requires Fresh() && Acyclic(edges) && env.info(parent).hasDriver
      modifies this
      ensures c.None? <==> AttachRefused(env, old(edges), old(nextEdge), parent, child)
      ensures c.None? ==> Now() == old(Now())
      ensures c.Some? ==>
                && c.value == old(nextEdge) && c.value !in old(edges)
                && edges == old(edges)[c.value := NewLink(env, old(edges), c.value, parent, child)]
                && !Reach(old(edges), child, parent)
                && (env.info(child).inactive ==> env.info(parent).inactive && edges[c.value].perm <= {ConsistentRead})
      ensures nextEdge >= old(nextEdge)
      ensures Acyclic(edges) && Fresh() && Advanced(old(Now()), Now())
    {
      var loop := RecurseHasChild(edges, child, parent);
      if loop || (env.info(child).inactive && !env.info(parent).inactive) {
        AdvancedSelf(Now());
        return None;
      }
      var cumulative := GetCumulativePerm(parent);
      var k := env.childPerm(parent, nextEdge, cumulative);
      if env.info(child).forceShare {
        k := k.(shared := ALL_PERMS);
      }
      var l := Link(Some(parent), false, false, Some(child), k.perm, k.shared);
      assert l == NewLink(env, edges, nextEdge, parent, child);
      c := AttachChildCommon(l);
      if c.Some? {
        AddEdgeAcyclic(old(edges), c.value, l);
      }
    }

    /** bdrv_replace_node_noperm: the edges are redirected one at a time */
    method ReplaceNodeNoperm(from: Node, to: Node, autoSkip: bool) returns (ok: bool)
      requires Fresh() && Acyclic(edges) && RemovedEmpty(Now())
      requires from == to ==> forall e :: !Moves(edges, from, to, e)
      modifies this
      ensures ok ==> edges == Replaced(old(edges), from, to, Parents(old(edges), from))
      ensures ok <==> !ReplaceRefused(old(edges), from, to, autoSkip)
      ensures ok ==> forall e :: e in edges && (edges[e].frozen || edges[e].stayAtNode) ==> edges[e] == old(edges)[e]
      ensures Acyclic(edges) && Fresh() && Advanced(old(Now()), Now()) && RemovedEmpty(Now())
      ensures nextEdge == old(nextEdge)
    {
      hide Advanced, Reach;
      ghost var g := edges;
      AdvancedSelf(Now());
      var todo := Parents(edges, from);
      assert edges == Replaced(g, from, to, {});
      while todo != {}
        invariant todo <= Parents(g, from)
        invariant Replacing(g, edges, from, to, Parents(g, from) - todo)
        invariant forall e :: Moves(g, from, to, e) && e !in todo ==> !g[e].frozen
        invariant !autoSkip ==> forall e :: PointsTo(g, e, from) && e !in todo ==> Moves(g, from, to, e)
        invariant Fresh() && Advanced(old(Now()), Now()) && RemovedEmpty(Now()) && nextEdge == old(nextEdge)
        decreases todo
      {
        var c :| c in todo;
        assert edges[c] == g[c];
        ReplacingStep(g, edges, from, to, Parents(g, from) - todo, c);
        assert Parents(g, from) - todo + {c} == Parents(g, from) - (todo - {c});
        var update := ShouldUpdateChild(edges, c, to);
        if !update {
          if !autoSkip {
            return false;
          }
        } else {
          if edges[c].frozen {
            return false;
          }
          ghost var before := Now();
          ReplaceChildTran(c, Some(to));
          AdvancedTrans(old(Now()), before, Now());
        }
        todo := todo - {c};
      }
      return true;
    }

    // ----- completing the transaction

    /** The abort callback of the newest record. */
    method UndoNewest()
      requires log != []
      modifies this`edges, this`refs, this`unrefs, this`log, this`told
      ensures Now() == Undo(old(Now()))
      ensures told == old(told) + if old(log)[0].DrvSetPermAction? then [AbortPermCall(old(log)[0].node)] else []
    {
      var a := log[0];
      log := log[1..];
      match a
      case SetPermAction(e, perm, shared) =>
        if e in edges {
          edges := edges[e := edges[e].(perm := perm, shared := shared)];
        }
      case DrvSetPermAction(n) => told := told + [AbortPermCall(n)];
      case ReplaceAction(e, oldBs) =>
        if e in edges {
          var newBs := edges[e].to;
          edges := edges[e := edges[e].(to := oldBs)];
          refs := AddRef(refs, newBs, -1);
        }
      case AttachAction(e) =>
        if e in edges {
          unrefs := Scheduled(unrefs, edges[e].to);
          edges := edges - {e};
        }
      case RemoveAction(_) =>
    }

    /** The commit callback of the newest record. */
    method SettleNewest()
      requires log != []
      modifies this`edges, this`unrefs, this`log, this`told
      ensures Now() == Settle(old(Now()))
      ensures told == old(told) +
        if old(log)[0].DrvSetPermAction?
        then [SetPermCall(old(log)[0].node, Cumulative(old(edges), old(log)[0].node))] else []
    {
      var a := log[0];
      log := log[1..];
      match a
      case ReplaceAction(_, oldBs) => unrefs := Scheduled(unrefs, oldBs);
      case RemoveAction(e) => edges := edges - {e};
      case DrvSetPermAction(n) =>
        var c := GetCumulativePerm(n);
        told := told + [SetPermCall(n, c)];
      case _ =>
    }

    /** tran_commit: the commit callbacks of every record, newest first */
    method TranCommit()
      modifies this`edges, this`unrefs, this`log, this`told
      ensures Now() == Commit(old(Now())) && log == []
      ensures told == old(told) + CommitCalls(old(Now()))
    {
      hide Cumulative, Settle;
      ghost var start := told;
      while log != []
        invariant Commit(Now()) == Commit(old(Now())) && refs == old(refs)
        invariant start + CommitCalls(old(Now())) == told + CommitCalls(Now())
        decreases |log|
      {
        ghost var s := Now();
        SettleNewest();
        SettleShortens(s);
      }
    }

    /** tran_abort: the abort callbacks of every record, newest first */
    method TranAbort()
      modifies this`edges, this`refs, this`unrefs, this`log, this`told
      ensures Now() == Rollback(old(Now())) && log == []
      ensures told == old(told) + AbortCalls(old(log))
    {
      hide Undo;
      ghost var start := told;
      while log != []
        invariant Rollback(Now()) == Rollback(old(Now()))
        invariant start + AbortCalls(old(log)) == told + AbortCalls(log)
        decreases |log|
      {
        ghost var s := Now();
        UndoNewest();
        UndoShortens(s);
      }
    }

    /** tran_finalize */
    method Finalize(ok: bool)
      modifies this`edges, this`refs, this`unrefs, this`log, this`told
      ensures Now() == if ok then Commit(old(Now())) else Rollback(old(Now()))
      ensures log == []
      ensures told == old(told) + if ok then CommitCalls(old(Now())) else AbortCalls(old(log))
    {
      if ok {
        TranCommit();
      } else {
        TranAbort();
      }
    }

    /** bdrv_attach_child: the caller's reference to `child` is taken over, also when the call fails */
    method AttachChild(parent: Node, child: Node) returns (ok: bool)
      requires Fresh() && Acyclic(edges) && log == [] && env.info(parent).hasDriver
      modifies this
      ensures log == [] && Fresh() && Acyclic(edges) && HandsOver(old(Now()), Now(), child)
      ensures var g, c := old(edges), old(nextEdge); var l := NewLink(env, g, c, parent, child);
              && (AttachRefused(env, g, c, parent, child) ==> !ok)
              && (!AttachRefused(env, g, c, parent, child) ==> RefreshVerdict(env, g[c := l], [parent], ok))
              && (ok ==> SettledBelow(env, g[c := l], edges, [parent]))
              && (ok ==> AllTold(env, g[c := l], edges, [parent], told))
      ensures !ok ==> edges == old(edges)
      ensures !ok ==> forall n: Node :: Net(Now(), n) == Net(old(Now()), n) - if n == child then 1 else 0
    {
      hide Advanced, Reach, Conserved, Acyclic, NewLink, Rollback, Commit, SettledBelow, RefreshVerdict, AllTold,
           AllAsked, CommitCalls, AbortCalls, RemovedEmpty;
      ghost var start := Now();
      var c := AttachChildNoperm(parent, child);
      ghost var mid := Now();
      ok := c.Some?;
      if ok {
        ok := ListRefreshPerms([parent]);
        AdvancedTrans(start, mid, Now());
      }
      NothingRemoved(start, Now());
      if ok {
        AskedTold(env, mid.edges, [parent], Now(), told);
      }
      Finalized(start, Now());
      Finalize(ok);
      if ok {
        SettledAcyclic(env, mid.edges, edges, [parent]);
      }
      HandingOver(start, Now(), child);
      unrefs := Scheduled(unrefs, Some(child));
    }

    /** bdrv_replace_node_common with detach_subchain == false */
    method ReplaceNodeCommon(from: Node, to: Node, autoSkip: bool) returns (ok: bool)
      requires Fresh() && Acyclic(edges) && log == []
      requires from == to ==> forall e :: !Moves(edges, from, to, e)
      modifies this
      ensures log == [] && Fresh() && Acyclic(edges) && KeepsReferences(old(Now()), Now())
      ensures !ok ==> SameBase(Now(), old(Now()))
      ensures var g := old(edges); var h := Replaced(g, from, to, Parents(g, from));
              && (ReplaceRefused(g, from, to, autoSkip) ==> !ok)
              && (!ReplaceRefused(g, from, to, autoSkip) ==> RefreshVerdict(env, h, [from, to], ok))
              && (ok ==> SettledBelow(env, h, edges, [from, to]) && AllTold(env, h, edges, [from, to], told))
    {
      hide AllTold, AllAsked, CommitCalls, AbortCalls, Reach, Advanced, Rollback, Commit, SettledBelow, RefreshVerdict;
      ghost var start := Now();
      ok := ReplaceNodeNoperm(from, to, autoSkip);
      ghost var mid := Now();
      if ok {
        ok := ListRefreshPerms([from, to]);
        AdvancedTrans(start, mid, Now());
      }
      NothingRemoved(start, Now());
      if ok {
        AskedTold(env, mid.edges, [from, to], Now(), told);
      }
      Finalized(start, Now());
      Finalize(ok);
      if ok {
        SettledAcyclic(env, mid.edges, edges, [from, to]);
      }
    }

    /** bdrv_append: put `bsNew` on top of `bsTop`, or change nothing */
    method Append(bsNew: Node, bsTop: Node) returns (ok: bool)
      requires Fresh() && Acyclic(edges) && log == [] && env.info(bsNew).hasDriver
      modifies this
      ensures log == [] && Fresh() && Acyclic(edges) && KeepsReferences(old(Now()), Now())
      ensures var g, c := old(edges), old(nextEdge); var l := NewLink(env, g, c, bsNew, bsTop);
              var refused := AttachRefused(env, g, c, bsNew, bsTop) || ReplaceRefused(g[c := l], bsTop, bsNew, true);
              && (refused ==> !ok)
              && (!refused ==>
                    RefreshVerdict(env, Replaced(g[c := l], bsTop, bsNew, Parents(g[c := l], bsTop)), [bsNew], ok))
              && (ok ==> Appended(env, g, edges, bsNew, bsTop, c, l))
              && (ok ==>
                    AllTold(env, Replaced(g[c := l], bsTop, bsNew, Parents(g[c := l], bsTop)), edges, [bsNew], told))
      ensures !ok ==> SameBase(Now(), old(Now()))
    {
      hide AllTold, AllAsked, CommitCalls, AbortCalls, Advanced, Rollback, Commit, SettledBelow, RefreshVerdict,
           RemovedEmpty;
      ghost var start := Now();
      ReachSelf(edges, bsNew);
      var c := AttachChildNoperm(bsNew, bsTop);
      ghost var attached := Now();
      ok := c.Some?;
      if ok {
        NothingRemoved(start, attached);
        ok := ReplaceNodeNoperm(bsTop, bsNew, true);
        AdvancedTrans(start, attached, Now());
      }
      ghost var replaced := Now();
      if ok {
        ok := ListRefreshPerms([bsNew]);
        AdvancedTrans(start, replaced, Now());
      }
      NothingRemoved(start, Now());
      if ok {
        AskedTold(env, replaced.edges, [bsNew], Now(), told);
      }
      Finalized(start, Now());
      Finalize(ok);
      if ok {
        SettledAcyclic(env, replaced.edges, edges, [bsNew]);
      }
    }

    /** bdrv_root_unref_child: the edge goes; a permission refresh that fails is rolled back and ignored */
    method RootUnrefChild(c: Edge)
      requires Fresh() && Acyclic(edges) && log == [] && c in edges && !edges[c].frozen && edges[c].to.Some?
      modifies this
      ensures log == [] && Fresh() && Acyclic(edges) && KeepsReferences(old(Now()), Now())
      ensures edges.Keys == old(edges).Keys - {c}
      ensures Detached(env, old(edges), edges, c)
    {
      hide Advanced, Reach, Conserved, Acyclic, Rollback, Commit, Detached, Orders, RefreshList, CommitCalls,
           AbortCalls;
      var bs := edges[c].to;
      ghost var start := Now();
      edges := edges - {c};
      unrefs := Scheduled(unrefs, bs);
      ghost var gone := Now();
      FewerEdgesAcyclic(start.edges, edges);
      DroppingKeepsReferences(start, c);
      if bs.Some? {
        var list := OrderSubtrees(edges, [bs.value]);
        assert Orders(edges, [bs.value], list) by {
          ListOrders(edges, [bs.value], list);
        }
        var ok := DoRefreshPerms(list);
        Finalized(gone, Now());
        RefreshedDetached(env, start.edges, c, list, ok);
        Finalize(ok);
        SameShapeAcyclic(gone.edges, edges);
      }
    }
  }

  lemma ListOrders(g: Edges, roots: seq<Node>, list: seq<Node>)
    requires TopologicallySorted(g, list) && forall n :: n in list <==> ReachFromSome(g, roots, n)
    ensures Orders(g, roots, list)
  {
  }

  /** What a refresh below a node that lost a parent leaves, whether it succeeds or is rolled back. */
  lemma RefreshedDetached(env: Env, g: Edges, c: Edge, list: seq<Node>, ok: bool)
    requires c in g && g[c].to.Some? && Orders(g - {c}, [g[c].to.value], list)
    requires ok <==> RefreshList(env, g - {c}, list).Refreshed?
    ensures var h := if ok then RefreshList(env, g - {c}, list).edges else g - {c};
      Detached(env, g, h, c) && SameShape(g - {c}, h)
  {
    hide Reach, RefreshList;
    var h := if ok then RefreshList(env, g - {c}, list).edges else g - {c};
    VerdictOf(env, g - {c}, [g[c].to.value], list, ok);
    if ok {
      RefreshFixpoint(env, g - {c}, list);
    }
    DetachedLoosens(env, g, h, c, list);
  }

  lemma NothingRemoved(s: State, t: State)
    requires s.log == [] && Advanced(s, t)
    ensures RemovedEmpty(t)
  {
  }

  /** Dropping an edge hands its reference to the scheduled unref. */
  lemma DroppingKeepsReferences(s: State, c: Edge)
    requires c in s.edges
    ensures KeepsReferences(s, s.(edges := s.edges - {c}, unrefs := Scheduled(s.unrefs, s.edges[c].to)))
  {
    var t := s.(edges := s.edges - {c}, unrefs := Scheduled(s.unrefs, s.edges[c].to));
    forall outside | Conserved(s, outside)
      ensures Conserved(t, outside)
    {
      forall n: Node
        ensures ConservedAt(t, outside, n)
      {
        assert ConservedAt(s, outside, n);
        DroppedParents(s.edges, c, n);
      }
    }
  }

  /** `bsNew` stands above `bsTop`; every edge to `bsTop` that may move now leads to `bsNew`. */
  ghost predicate Appended(env: Env, g: Edges, h: Edges, bsNew: Node, bsTop: Node, c: Edge, l: Link) {
    && c !in g && l.owner == Some(bsNew) && l.to == Some(bsTop)
    && var mid := g[c := l];
    SettledBelow(env, Replaced(mid, bsTop, bsNew, Parents(mid, bsTop)), h, [bsNew])
  }

  /** Where every edge points after bdrv_append, in terms of the graph before. */
  lemma AppendedTargets(env: Env, g: Edges, h: Edges, bsNew: Node, bsTop: Node, c: Edge, l: Link)
    requires Appended(env, g, h, bsNew, bsTop, c, l) && bsNew != bsTop
    ensures h.Keys == g.Keys + {c} && PointsTo(h, c, bsTop) && ChildOf(h, c, bsNew)
    ensures forall e :: e in g ==>
              h[e].to == if g[e].to == Some(bsTop) && !g[e].stayAtNode && !EdgeBelow(g[c := l], bsNew, e)
                         then Some(bsNew) else g[e].to
    ensures forall n :: Reach(h, bsNew, n) ==> Serves(env, h, n) && ChildrenServed(env, h, n)
  {
    var mid := g[c := l];
    var k := Replaced(mid, bsTop, bsNew, Parents(mid, bsTop));
    ReachSelf(mid, bsNew);
    assert !Moves(mid, bsTop, bsNew, c);
    forall e | e in g
      ensures PointsTo(mid, e, bsTop) ==> e in Parents(mid, bsTop)
    {
    }
    SameShapeArcs(k, h);
    forall n | Reach(h, bsNew, n)
      ensures Serves(env, h, n) && ChildrenServed(env, h, n)
    {
      var p :| PathFromTo(h, p, bsNew, n);
      assert PathFromTo(k, p, bsNew, n);
      assert ReachFromSome(k, [bsNew], n);
    }
  }

  lemma DetachedLoosens(env: Env, g: Edges, h: Edges, c: Edge, list: seq<Node>)
    requires c in g && TopologicallySorted(g - {c}, list)
    requires h == if RefreshList(env, g - {c}, list).Refreshed? then RefreshList(env, g - {c}, list).edges else g - {c}
    ensures Monotone(env) && (forall n :: n in list ==> NodeSettled(env, g, n)) ==> LooserGraph(h, g)
  {
    if Monotone(env) && forall n :: n in list ==> NodeSettled(env, g, n) {
      TakingParentAway(env, g, c, list);
      RefreshSucceedsIff(env, g - {c}, list);
    }
  }

  /** What happens to the permissions below a node that loses a parent. */
  ghost predicate Detached(env: Env, g: Edges, h: Edges, c: Edge) {
    c in g &&
    match g[c].to
    case None => h == g - {c}
    case Some(bs) =>
      && ((RefreshVerdict(env, g - {c}, [bs], false) && h == g - {c})
          || (RefreshVerdict(env, g - {c}, [bs], true) && SettledBelow(env, g - {c}, h, [bs])))
      && (Monotone(env) && (forall n :: ReachFromSome(g - {c}, [bs], n) ==> NodeSettled(env, g, n)) ==>
           LooserGraph(h, g))
  }

  /** Every count that was explained by edges, records, scheduled unrefs and outside owners still is. */
  ghost predicate KeepsReferences(s: State, t: State) {
    forall outside :: Conserved(s, outside) ==> Conserved(t, outside)
  }

  /** The counts are accounted for as before, but for the one reference an outside owner gave up. */
  ghost predicate HandsOver(s: State, t: State, n: Node) {
    forall outside :: Conserved(s, outside) ==> Conserved(t, outside[n := Ref(outside, n) - 1])
  }

  /** Scheduling an unref takes one reference from the outside owners and one from the net count. */
  lemma HandingOver(s: State, t: State, n: Node)
    requires KeepsReferences(s, t)
    ensures var u := t.(unrefs := Scheduled(t.unrefs, Some(n)));
      && HandsOver(s, u, n)
      && forall m: Node :: Net(u, m) == Net(t, m) - if m == n then 1 else 0
  {
    var u := t.(unrefs := Scheduled(t.unrefs, Some(n)));
    forall outside | Conserved(s, outside)
      ensures Conserved(u, outside[n := Ref(outside, n) - 1])
    {
      var left := outside[n := Ref(outside, n) - 1];
      forall m: Node
        ensures ConservedAt(u, left, m)
      {
        assert ConservedAt(t, outside, m);
      }
    }
  }

  /** The edge bdrv_attach_child_noperm makes, with what the parent's driver asks of the child. */
  ghost function NewLink(env: Env, g: Edges, e: Edge, parent: Node, child: Node): Link {
    var k := env.childPerm(parent, e, Cumulative(g, parent));
    Link(Some(parent), false, false, Some(child), k.perm, if env.info(child).forceShare then ALL_PERMS else k.shared)
  }

  /** A new edge would close a cycle, or would let an inactive node be used. */
  ghost predicate AttachRefused(env: Env, g: Edges, e: Edge, parent: Node, child: Node) {
    || Reach(g, child, parent)
    || (env.info(child).inactive &&
        (!env.info(parent).inactive || !(NewLink(env, g, e, parent, child).perm <= {ConsistentRead})))
  }

  /** Some edge of `from` is frozen where it had to move, or must not move where it may not be skipped. */
  ghost predicate ReplaceRefused(g: Edges, from: Node, to: Node, autoSkip: bool) {
    exists e :: PointsTo(g, e, from) && if Moves(g, from, to, e) then g[e].frozen else !autoSkip
  }

  /** `list` is a topological order of exactly the nodes below `roots`. */
  ghost predicate Orders(g: Edges, roots: seq<Node>, list: seq<Node>) {
    TopologicallySorted(g, list) && forall n :: n in list <==> ReachFromSome(g, roots, n)
  }

  /** Whether the permissions below `roots` can be refreshed, whichever topological order is used. */
  ghost predicate RefreshVerdict(env: Env, g: Edges, roots: seq<Node>, ok: bool) {
    && (exists list :: Orders(g, roots, list))
    && (forall list :: Orders(g, roots, list) ==> (ok <==> RefreshList(env, g, list).Refreshed?))
  }

  /** The order found by the search speaks for all of them. */
  lemma VerdictOf(env: Env, g: Edges, roots: seq<Node>, list: seq<Node>, ok: bool)
    requires Orders(g, roots, list) && (ok <==> RefreshList(env, g, list).Refreshed?)
    ensures RefreshVerdict(env, g, roots, ok)
  {
    hide TopologicallySorted, RefreshList, ReachFromSome;
    forall other | Orders(g, roots, other)
      ensures ok <==> RefreshList(env, g, other).Refreshed?
    {
      OrderDoesNotMatter(env, g, list, other);
    }
  }

  /** The driver of every node below one of `roots` was asked about the new permissions. */
  ghost predicate AllAsked(env: Env, g: Edges, roots: seq<Node>, log: seq<Action>) {
    forall n :: ReachFromSome(g, roots, n) && env.info(n).hasDriver ==> DrvSetPermAction(n) in log
  }

  /** The driver of every node below one of `roots` was told what its parents now take and share. */
  ghost predicate AllTold(env: Env, g: Edges, h: Edges, roots: seq<Node>, told: seq<DriverCall>) {
    forall n :: ReachFromSome(g, roots, n) && env.info(n).hasDriver ==> ToldOf(h, n, told)
  }

  ghost predicate ToldOf(h: Edges, n: Node, told: seq<DriverCall>) {
    exists c :: SumsUp(h, n, c) && SetPermCall(n, c) in told
  }

  /** Who was asked is told when the transaction commits. */
  lemma AskedTold(env: Env, g: Edges, roots: seq<Node>, s: State, before: seq<DriverCall>)
    requires AllAsked(env, g, roots, s.log) && RemovedEmpty(s)
    ensures AllTold(env, g, Commit(s).edges, roots, before + CommitCalls(s))
  {
    hide Cumulative, SumsUp, CommitCalls, Commit;
    forall n | ReachFromSome(g, roots, n) && env.info(n).hasDriver
      ensures ToldOf(Commit(s).edges, n, before + CommitCalls(s))
    {
      CommitTells(s, n);
      CumulativeSumsUp(Commit(s).edges, n);
    }
  }

  /** Every node below one of `roots` is settled, and nothing else about the graph changed. */
  ghost predicate SettledBelow(env: Env, g: Edges, h: Edges, roots: seq<Node>) {
    && SameShape(g, h)
    && (forall n :: ReachFromSome(g, roots, n) ==>
          NodeSettled(env, h, n) && Serves(env, h, n) && ChildrenServed(env, h, n))
    && (forall e :: e in g && (g[e].owner.None? || !ReachFromSome(g, roots, g[e].owner.value)) ==> h[e] == g[e])
  }
}
