/**
 Redirecting edges without creating a cycle.
 */
module GraphRewiring {
  import opened BlockGraph

  /** The edge belongs to a node in the subtree of `top`. */
  ghost predicate EdgeBelow(g: Edges, top: Node, e: Edge)
    requires e in g
  {
    g[e].owner.Some? && Reach(g, top, g[e].owner.value)
  }

  function Retarget(g: Edges, e: Edge, to: Option<Node>): Edges
    requires e in g
  {
    g[e := g[e].(to := to)]
  }

  lemma RetargetArcs(g: Edges, e: Edge, to: Node)
    requires e in g && g[e].owner.Some?
    ensures AtMostOneMore(g, Retarget(g, e, Some(to)), g[e].owner.value, to)
  {
    var h := Retarget(g, e, Some(to));
    forall u, v | Arc(h, u, v)
      ensures Arc(g, u, v) || (u == g[e].owner.value && v == to)
    {
      var c :| ChildOf(h, c, u) && PointsTo(h, c, v);
      if c != e {
        assert ChildOf(g, c, u) && PointsTo(g, c, v);
      }
    }
  }

  /** An edge outside the subtree of its new target may be redirected. */
  lemma RetargetAcyclic(g: Edges, e: Edge, to: Node)
    requires Acyclic(g) && e in g && !EdgeBelow(g, to, e)
    ensures Acyclic(Retarget(g, e, Some(to)))
  {
    var h := Retarget(g, e, Some(to));
    if g[e].owner.Some? {
      RetargetArcs(g, e, to);
      AddArcAcyclic(g, h, g[e].owner.value, to);
    } else {
      OuterEdgeArcs(g, h, e);
      SubgraphAcyclic(g, h);
    }
  }

  /** An edge that does not belong to a node contributes no arc. */
  lemma OuterEdgeArcs(g: Edges, h: Edges, e: Edge)
    requires e in h && h[e].owner.None?
    requires forall c :: c in h && c != e ==> c in g && h[c] == g[c]
    ensures forall u, v :: Arc(h, u, v) ==> Arc(g, u, v)
  {
    forall u, v | Arc(h, u, v)
      ensures Arc(g, u, v)
    {
      var c :| ChildOf(h, c, u) && PointsTo(h, c, v);
      assert ChildOf(g, c, u) && PointsTo(g, c, v);
    }
  }

  /** ... and the subtree of the new target stays what it was, so the order of redirections does not matter. */
  lemma RetargetKeepsSubtree(g: Edges, e: Edge, to: Node, x: Node)
    requires Acyclic(g) && e in g && !EdgeBelow(g, to, e)
    ensures Reach(Retarget(g, e, Some(to)), to, x) <==> Reach(g, to, x)
  {
    var h := Retarget(g, e, Some(to));
    if Reach(g, to, x) {
      var s := set y | y in Nodes(g) + {to} && Reach(h, to, y);
      ReachSelf(h, to);
      forall u, v | u in s && Arc(g, u, v) && Reach(g, to, u)
        ensures v in s
      {
        ArcNodes(g, u, v);
        var c :| ChildOf(g, c, u) && PointsTo(g, c, v);
        assert c != e;
        assert ChildOf(h, c, u) && PointsTo(h, c, v);
        ArcReach(h, u, v);
        ReachTrans(h, to, u, v);
      }
      SubtreeInClosed(g, to, x, s);
    }
    if Reach(h, to, x) {
      var s := set y | y in Nodes(h) + {to} && Reach(g, to, y);
      ReachSelf(g, to);
      forall u, v | u in s && Arc(h, u, v)
        ensures v in s
      {
        ArcNodes(h, u, v);
        var c :| ChildOf(h, c, u) && PointsTo(h, c, v);
        assert c != e;
        assert ChildOf(g, c, u) && PointsTo(g, c, v);
        ArcReach(g, u, v);
        ReachTrans(g, to, u, v);
      }
      ReachInClosed(h, to, x, s);
    }
  }

  /** Like ReachInClosed, with closure only asked of the subtree. */
  lemma SubtreeInClosed(g: Edges, u: Node, v: Node, s: set<Node>)
    requires Reach(g, u, v) && u in s
    requires forall x, y :: x in s && Arc(g, x, y) && Reach(g, u, x) ==> y in s
    ensures v in s
  {
    var p :| PathFromTo(g, p, u, v);
    ReachSelf(g, u);
    SubpathInClosed(g, u, p, s);
  }

  lemma {:induction false} SubpathInClosed(g: Edges, u: Node, p: seq<Node>, s: set<Node>)
    requires IsPath(g, p) && p[0] in s && Reach(g, u, p[0])
    requires forall x, y :: x in s && Arc(g, x, y) && Reach(g, u, x) ==> y in s
    ensures p[|p| - 1] in s
  {
    if |p| > 1 {
      TailPath(g, p);
      ArcReach(g, p[0], p[1]);
      ReachTrans(g, u, p[0], p[1]);
      SubpathInClosed(g, u, p[1..], s);
    }
  }

  /** A new edge whose target does not reach its owner keeps the graph acyclic. */
  lemma AddEdgeAcyclic(g: Edges, e: Edge, l: Link)
    requires Acyclic(g) && e !in g && l.to.Some?
    requires l.owner.Some? ==> !Reach(g, l.to.value, l.owner.value)
    ensures Acyclic(g[e := l])
  {
    var h := g[e := l];
    if l.owner.Some? {
      forall u, v | Arc(h, u, v)
        ensures Arc(g, u, v) || (u == l.owner.value && v == l.to.value)
      {
        var c :| ChildOf(h, c, u) && PointsTo(h, c, v);
        if c != e {
          assert ChildOf(g, c, u) && PointsTo(g, c, v);
        }
      }
      AddArcAcyclic(g, h, l.owner.value, l.to.value);
    } else {
      OuterEdgeArcs(g, h, e);
      SubgraphAcyclic(g, h);
    }
  }

  /** Edges may go or be emptied freely. */
  lemma FewerEdgesAcyclic(g: Edges, h: Edges)
    requires Acyclic(g)
    requires forall e :: e in h && h[e].to.Some? ==> e in g && h[e].owner == g[e].owner && h[e].to == g[e].to
    ensures Acyclic(h)
  {
    forall u, v | Arc(h, u, v)
      ensures Arc(g, u, v)
    {
      var c :| ChildOf(h, c, u) && PointsTo(h, c, v);
      assert ChildOf(g, c, u) && PointsTo(g, c, v);
    }
    SubgraphAcyclic(g, h);
  }

  // ----- replacing a node

  /** Whether replacing `from` by `to` moves edge `e`: should_update_child on the graph before the replacement. */
  ghost predicate Moves(g: Edges, from: Node, to: Node, e: Edge) {
    PointsTo(g, e, from) && !g[e].stayAtNode && !EdgeBelow(g, to, e)
  }

  /** The graph after every edge that should move has moved. */
  ghost function Replaced(g: Edges, from: Node, to: Node, done: set<Edge>): Edges {
    map e | e in g :: if e in done && Moves(g, from, to, e) then g[e].(to := Some(to)) else g[e]
  }

  /** What is known while edges of `from` move to `to` one at a time. */
  ghost predicate Replacing(g: Edges, h: Edges, from: Node, to: Node, done: set<Edge>) {
    && h == Replaced(g, from, to, done)
    && Acyclic(h)
    && forall x :: Reach(h, to, x) <==> Reach(g, to, x)
  }

  lemma ReplacingStep(g: Edges, h: Edges, from: Node, to: Node, done: set<Edge>, e: Edge)
    requires Replacing(g, h, from, to, done) && PointsTo(g, e, from) && e !in done
    ensures EdgeBelow(h, to, e) <==> EdgeBelow(g, to, e)
    ensures Moves(g, from, to, e) ==> Replacing(g, Retarget(h, e, Some(to)), from, to, done + {e})
    ensures !Moves(g, from, to, e) ==> Replacing(g, h, from, to, done + {e})
  {
    assert h[e] == g[e];
    if Moves(g, from, to, e) {
      var k := Retarget(h, e, Some(to));
      assert k == Replaced(g, from, to, done + {e});
      RetargetAcyclic(h, e, to);
      forall x
        ensures Reach(k, to, x) <==> Reach(g, to, x)
      {
        RetargetKeepsSubtree(h, e, to, x);
      }
    } else {
      assert h == Replaced(g, from, to, done + {e});
    }
  }
}
