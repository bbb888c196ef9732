/**
 Block nodes joined by edges (BdrvChild objects).  An edge belongs to a node or
 to an outside user (a BlockBackend, a job), points to a node or to nothing,
 and carries the permissions its user takes and shares.
 */
module BlockGraph {

  datatype Option<+T> = None | Some(value: T)

  type Node = nat
  type Edge = nat

  datatype Perm = ConsistentRead | Write | WriteUnchanged | Resize

  type Perms = set<Perm>

  const ALL_PERMS: Perms := {ConsistentRead, Write, WriteUnchanged, Resize}

  /** BdrvChild: `owner` is the parent node, None for a user that is not a node. */
  datatype Link = Link(
    owner: Option<Node>,
    stayAtNode: bool,
    frozen: bool,
    to: Option<Node>,
    perm: Perms,
    shared: Perms
  )

  type Edges = map<Edge, Link>

  /** `e` is in the parents list of `n`. */
  predicate PointsTo(g: Edges, e: Edge, n: Node) {
    e in g && g[e].to == Some(n)
  }

  /** `e` is in the children list of `n`. */
  predicate ChildOf(g: Edges, e: Edge, n: Node) {
    e in g && g[e].owner == Some(n) && g[e].to.Some?
  }

  function Parents(g: Edges, n: Node): set<Edge> {
    set e | e in g && PointsTo(g, e, n)
  }

  function Children(g: Edges, n: Node): set<Edge> {
    set e | e in g && ChildOf(g, e, n)
  }

  /** Some edge leads from `u` to `v`. */
  ghost predicate Arc(g: Edges, u: Node, v: Node) {
    exists e :: ChildOf(g, e, u) && PointsTo(g, e, v)
  }

  ghost predicate IsPath(g: Edges, p: seq<Node>) {
    |p| > 0 && forall i :: 0 <= i < |p| - 1 ==> Arc(g, p[i], p[i + 1])
  }

  ghost predicate PathFromTo(g: Edges, p: seq<Node>, u: Node, v: Node) {
    IsPath(g, p) && p[0] == u && p[|p| - 1] == v
  }

  /** `v` is in the subtree of `u`; `u` itself is. */
  ghost predicate Reach(g: Edges, u: Node, v: Node) {
    exists p :: PathFromTo(g, p, u, v)
  }

  ghost predicate Acyclic(g: Edges) {
    forall u, v :: Arc(g, u, v) ==> !Reach(g, v, u)
  }

  /** All nodes that some edge mentions. */
  function Nodes(g: Edges): set<Node> {
    (set e | e in g && g[e].owner.Some? :: g[e].owner.value) + (set e | e in g && g[e].to.Some? :: g[e].to.value)
  }

  lemma TailPath(g: Edges, p: seq<Node>)
    requires IsPath(g, p) && |p| > 1
    ensures IsPath(g, p[1..]) && Arc(g, p[0], p[1])
  {
    forall i | 0 <= i < |p| - 2
      ensures Arc(g, p[1..][i], p[1..][i + 1])
    {
      assert Arc(g, p[i + 1], p[i + 2]);
    }
  }

  lemma ReachSelf(g: Edges, u: Node)
    ensures Reach(g, u, u)
  {
    assert PathFromTo(g, [u], u, u);
  }

  lemma ArcReach(g: Edges, u: Node, v: Node)
    requires Arc(g, u, v)
    ensures Reach(g, u, v)
  {
    assert PathFromTo(g, [u, v], u, v);
  }

  lemma ReachTrans(g: Edges, u: Node, v: Node, w: Node)
    requires Reach(g, u, v) && Reach(g, v, w)
    ensures Reach(g, u, w)
  {
    var p :| PathFromTo(g, p, u, v);
    var q :| PathFromTo(g, q, v, w);
    var r := p + q[1..];
    forall i | 0 <= i < |r| - 1
      ensures Arc(g, r[i], r[i + 1])
    {
      if i < |p| - 1 {
        assert r[i] == p[i] && r[i + 1] == p[i + 1];
      } else {
        assert r[i] == q[i - (|p| - 1)] && r[i + 1] == q[i - (|p| - 1) + 1];
      }
    }
    assert PathFromTo(g, r, u, w);
  }

  /** A set that contains `u` and is closed under arcs contains the subtree of `u`. */
  lemma ReachInClosed(g: Edges, u: Node, v: Node, s: set<Node>)
    requires Reach(g, u, v) && u in s
    requires forall x, y :: x in s && Arc(g, x, y) ==> y in s
    ensures v in s
  {
    var p :| PathFromTo(g, p, u, v);
    PathInClosed(g, p, s);
  }

  lemma {:induction false} PathInClosed(g: Edges, p: seq<Node>, s: set<Node>)
    requires IsPath(g, p) && p[0] in s
    requires forall x, y :: x in s && Arc(g, x, y) ==> y in s
    ensures p[|p| - 1] in s
  {
    if |p| > 1 {
      assert Arc(g, p[0], p[1]);
      TailPath(g, p);
      PathInClosed(g, p[1..], s);
    }
  }

  lemma ArcNodes(g: Edges, u: Node, v: Node)
    requires Arc(g, u, v)
    ensures u in Nodes(g) && v in Nodes(g)
  {
  }

  /** Reaching through a first arc. */
  lemma ReachStep(g: Edges, u: Node, v: Node)
    requires Reach(g, u, v) && u != v
    ensures exists w :: Arc(g, u, w) && Reach(g, w, v)
  {
    var p :| PathFromTo(g, p, u, v);
    assert Arc(g, p[0], p[1]);
    var q := p[1..];
    TailPath(g, p);
    assert PathFromTo(g, q, p[1], v);
  }

  /** Every arc of `h` is an arc of `g` or leads from `a` to `b`. */
  ghost predicate AtMostOneMore(g: Edges, h: Edges, a: Node, b: Node) {
    forall u, v :: Arc(h, u, v) ==> Arc(g, u, v) || (u == a && v == b)
  }

  /** A path that may use the new arc splits at it. */
  lemma {:induction false} SplitAtNewArc(g: Edges, h: Edges, a: Node, b: Node, p: seq<Node>)
    requires AtMostOneMore(g, h, a, b) && IsPath(h, p)
    ensures Reach(g, p[0], p[|p| - 1]) || (Reach(g, p[0], a) && Reach(g, b, p[|p| - 1]))
  {
    if |p| == 1 {
      ReachSelf(g, p[0]);
    } else {
      var q := p[1..];
      TailPath(h, p);
      SplitAtNewArc(g, h, a, b, q);
      assert Arc(h, p[0], p[1]);
      if Arc(g, p[0], p[1]) {
        ArcReach(g, p[0], p[1]);
        if Reach(g, p[1], p[|p| - 1]) {
          ReachTrans(g, p[0], p[1], p[|p| - 1]);
        } else {
          ReachTrans(g, p[0], p[1], a);
        }
      } else {
        ReachSelf(g, a);
        assert p[0] == a && p[1] == b;
      }
    }
  }

  /** Adding an arc whose end does not reach its start keeps the graph acyclic. */
  lemma AddArcAcyclic(g: Edges, h: Edges, a: Node, b: Node)
    requires Acyclic(g) && AtMostOneMore(g, h, a, b) && !Reach(g, b, a)
    ensures Acyclic(h)
  {
    forall u, v | Arc(h, u, v)
      ensures !Reach(h, v, u)
    {
      if Reach(h, v, u) {
        var p :| PathFromTo(h, p, v, u);
        SplitAtNewArc(g, h, a, b, p);
        if Arc(g, u, v) {
          ArcReach(g, u, v);
          if !Reach(g, v, u) {
            ReachTrans(g, b, u, v);
            ReachTrans(g, b, v, a);
          }
          assert false;
        }
      }
    }
  }

  /** Fewer arcs, still acyclic. */
  lemma SubgraphAcyclic(g: Edges, h: Edges)
    requires Acyclic(g)
    requires forall u, v :: Arc(h, u, v) ==> Arc(g, u, v)
    ensures Acyclic(h)
  {
    forall u, v | Arc(h, u, v)
      ensures !Reach(h, v, u)
    {
      if Reach(h, v, u) {
        var p :| PathFromTo(h, p, v, u);
        assert PathFromTo(g, p, v, u);
      }
    }
  }
}
