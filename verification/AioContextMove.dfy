/**
 Moving a connected part of the block graph to another AioContext: a recursive
 phase that collects and drains, then one linear phase that moves everything or
 nothing.
 */
module AioContextMove {

  type Node = nat
  type Job = nat
  type Edge = nat
  type Context = nat

  /** Who holds an edge, as far as its change_aio_ctx callback tells. */
  datatype User =
    | NodeUser(node: Node)              // child_of_bds
    | JobUser(job: Job)                 // child_job
    | BackendUser(movable: bool)        // child_root: a BlockBackend, with the answer of its callback
    | FixedUser                         // a class without change_aio_ctx

  datatype Link = Link(user: User, to: Node)

  type Links = map<Edge, Link>

  /** What has an AioContext of its own; a BlockBackend is known by its one edge. */
  datatype Thing = NodeThing(node: Node) | JobThing(job: Job) | BackendThing(edge: Edge) | FixedThing(edge: Edge)

  function Holder(g: Links, e: Edge): Thing
    requires e in g
  {
    match g[e].user
    case NodeUser(n) => NodeThing(n)
    case JobUser(j) => JobThing(j)
    case BackendUser(_) => BackendThing(e)
    case FixedUser => FixedThing(e)
  }

  function Target(g: Links, e: Edge): Thing
    requires e in g
  {
    NodeThing(g[e].to)
  }

  predicate Movable(u: User) {
    !u.FixedUser? && (u.BackendUser? ==> u.movable)
  }

  /** No edge leads out of `s` or into it. */
  ghost predicate ClosedSet(g: Links, s: set<Thing>) {
    forall e :: e in g ==> (Holder(g, e) in s <==> Target(g, e) in s)
  }

  /** `comp` is the connected component of node `bs`. */
  ghost predicate IsComponent(g: Links, bs: Node, comp: set<Thing>) {
    && NodeThing(bs) in comp && ClosedSet(g, comp)
    && forall s :: NodeThing(bs) in s && ClosedSet(g, s) ==> comp <= s
  }

  ghost predicate AllMovable(g: Links, comp: set<Thing>) {
    forall e :: e in g && Target(g, e) in comp ==> Movable(g[e].user)
  }

  function Logged(log: seq<Thing>): set<Thing> {
    set t | t in log
  }

  function CountNode(log: seq<Thing>, n: Node): nat {
    if log == [] then 0 else (if log[0] == NodeThing(n) then 1 else 0) + CountNode(log[1..], n)
  }

  /** Ends of visited edges are logged or open; edges of logged things are visited. */
  ghost predicate Covered(g: Links, visited: set<Edge>, logged: set<Thing>, open: set<Thing>) {
    && (forall e :: e in visited && e in g ==> Holder(g, e) in logged + open && Target(g, e) in logged + open)
    && (forall e :: e in g && (Holder(g, e) in logged || Target(g, e) in logged) ==> e in visited)
  }

  /** Only things of the component are logged, and only with the consent of their callback. */
  ghost predicate LogOk(g: Links, log: seq<Thing>, comp: set<Thing>) {
    forall t :: t in log ==> t in comp && !t.FixedThing? && (t.BackendThing? ==> t.edge in g && Movable(g[t.edge].user))
  }

  /** A thing whose edges are all visited goes from open to logged. */
  lemma CloseThing(g: Links, visited: set<Edge>, logged: set<Thing>, open: set<Thing>, t: Thing)
    requires Covered(g, visited, logged, open + {t})
    requires forall e :: e in g && (Holder(g, e) == t || Target(g, e) == t) ==> e in visited
    ensures Covered(g, visited, logged + {t}, open)
  {
  }

  lemma LogOkPush(g: Links, log: seq<Thing>, comp: set<Thing>, t: Thing)
    requires LogOk(g, log, comp) && t in comp && (t.NodeThing? || t.JobThing?)
    ensures LogOk(g, [t] + log, comp) && Logged([t] + log) == Logged(log) + {t}
  {
  }

  /** With nothing left open, the logged things are the whole component. */
  lemma LoggedIsComponent(g: Links, bs: Node, comp: set<Thing>, visited: set<Edge>, log: seq<Thing>)
    requires IsComponent(g, bs, comp) && LogOk(g, log, comp)
    requires Covered(g, visited, Logged(log), {}) && NodeThing(bs) in log
    ensures Logged(log) == comp && AllMovable(g, comp)
  {
    assert ClosedSet(g, Logged(log));
    forall e | e in g && Target(g, e) in comp
      ensures Movable(g[e].user)
    {
      assert Holder(g, e) in Logged(log);
    }
  }

  function Get(m: map<Node, int>, n: Node): int {
    if n in m then m[n] else 0
  }

  class Mover {
    const links: Links
    var contextOf: map<Thing, Context>
    var drains: map<Node, int>          // quiesce counters
    var log: seq<Thing>                 // records of the transaction, newest first

    constructor (links: Links, contextOf: map<Thing, Context>, drains: map<Node, int>)
      ensures this.links == links && this.contextOf == contextOf && this.drains == drains && log == []
    {
      this.links, this.contextOf, this.drains, log := links, contextOf, drains, [];
    }

    /** Every record of a node's move holds that node drained once. */
    ghost predicate DrainedOver(base: map<Node, int>)
      reads this
    {
      forall n: Node :: Get(drains, n) == Get(base, n) + CountNode(log, n)
    }

    method AddMove(t: Thing, ghost base: map<Node, int>)
      requires DrainedOver(base)
      modifies this`log, this`drains
      ensures log == [t] + old(log) && DrainedOver(base)
    {
      if t.NodeThing? {
        drains := drains[t.node := Get(drains, t.node) + 1];
      }
      log := [t] + log;
      assert log[1..] == old(log);
    }

    /** bdrv_change_aio_context */
    method ChangeNode(bs: Node, ctx: Context, visited: set<Edge>, ghost open: set<Thing>, ghost comp: set<Thing>,
                      ghost base: map<Node, int>, ghost shared: Context)
      returns (ok: bool, visited': set<Edge>)
      requires NodeThing(bs) in comp && ClosedSet(links, comp)
      requires forall t :: t in comp && t.NodeThing? ==> t in contextOf && contextOf[t] == shared
      requires visited <= links.Keys && LogOk(links, log, comp) && DrainedOver(base)
      requires Covered(links, visited, Logged(log), open + {NodeThing(bs)})
      modifies this`log, this`drains
      ensures visited <= visited' <= links.Keys && LogOk(links, log, comp) && DrainedOver(base)
      ensures Logged(old(log)) <= Logged(log)
      ensures shared == ctx ==> ok && log == old(log) && drains == old(drains)
      ensures ok && shared != ctx ==> NodeThing(bs) in log && Covered(links, visited', Logged(log), open)
      ensures !ok ==> !AllMovable(links, comp)
      decreases links.Keys - visited, 1
    {
      hide Covered, AllMovable, ClosedSet, LogOk;
      visited' := visited;
      if contextOf[NodeThing(bs)] == ctx {
        return true, visited';
      }
      ghost var inside := open + {NodeThing(bs)};
      var parents := set e | e in links && links[e].to == bs;
      var todo := parents;
      while todo != {}
        invariant todo <= parents && visited <= visited' <= links.Keys
        invariant LogOk(links, log, comp) && DrainedOver(base) && Logged(old(log)) <= Logged(log)
        invariant Covered(links, visited', Logged(log), inside)
        invariant forall e :: e in parents && e !in todo ==> e in visited'
        decreases todo
      {
        var c :| c in todo;
        ok, visited' := ParentChange(c, ctx, visited', inside, comp, base, shared);
        if !ok {
          return;
        }
        todo := todo - {c};
      }
      var children := set e | e in links && links[e].user == NodeUser(bs);
      todo := children;
      while todo != {}
        invariant todo <= children && visited <= visited' <= links.Keys
        invariant LogOk(links, log, comp) && DrainedOver(base) && Logged(old(log)) <= Logged(log)
        invariant Covered(links, visited', Logged(log), inside)
        invariant forall e :: e in parents ==> e in visited'
        invariant forall e :: e in children && e !in todo ==> e in visited'
        decreases todo
      {
        var c :| c in todo;
        ok, visited' := ChildChange(c, ctx, visited', inside, comp, base, shared);
        if !ok {
          return;
        }
        todo := todo - {c};
      }
      ghost var before := log;
      AddMove(NodeThing(bs), base);
      LogOkPush(links, before, comp, NodeThing(bs));
      CloseThing(links, visited', Logged(before), open, NodeThing(bs));
      return true, visited';
    }

    /** bdrv_parent_change_aio_context, with the callback of the edge's class */
    method ParentChange(c: Edge, ctx: Context, visited: set<Edge>, ghost open: set<Thing>, ghost comp: set<Thing>,
                        ghost base: map<Node, int>, ghost shared: Context)
      returns (ok: bool, visited': set<Edge>)
      requires c in links && Target(links, c) in comp && Target(links, c) in open && ClosedSet(links, comp)
      requires shared != ctx && forall t :: t in comp && t.NodeThing? ==> t in contextOf && contextOf[t] == shared
      requires visited <= links.Keys && LogOk(links, log, comp) && DrainedOver(base)
      requires Covered(links, visited, Logged(log), open)
      modifies this`log, this`drains
      ensures visited <= visited' <= links.Keys && LogOk(links, log, comp) && DrainedOver(base)
      ensures Logged(old(log)) <= Logged(log)
      ensures ok ==> c in visited' && Covered(links, visited', Logged(log), open)
      ensures !ok ==> !AllMovable(links, comp)
      decreases links.Keys - visited, 0
    {
      if c in visited {
        return true, visited;
      }
      visited' := visited + {c};
      match links[c].user
      case FixedUser =>
        ok := false;
      case NodeUser(p) =>
        ok, visited' := ChangeNode(p, ctx, visited', open, comp, base, shared);
      case JobUser(j) =>
        ok, visited' := JobChange(j, ctx, visited', open, comp, base, shared);
      case BackendUser(movable) =>
        ok := movable;
        if ok {
          ghost var before := log;
          AddMove(BackendThing(c), base);
          assert Logged(log) == Logged(before) + {BackendThing(c)};
        }
    }

    /** bdrv_child_change_aio_context */
    method ChildChange(c: Edge, ctx: Context, visited: set<Edge>, ghost open: set<Thing>, ghost comp: set<Thing>,
                       ghost base: map<Node, int>, ghost shared: Context)
      returns (ok: bool, visited': set<Edge>)
      requires c in links && Holder(links, c) in comp && Holder(links, c) in open && ClosedSet(links, comp)
      requires shared != ctx && forall t :: t in comp && t.NodeThing? ==> t in contextOf && contextOf[t] == shared
      requires visited <= links.Keys && LogOk(links, log, comp) && DrainedOver(base)
      requires Covered(links, visited, Logged(log), open)
      modifies this`log, this`drains
      ensures visited <= visited' <= links.Keys && LogOk(links, log, comp) && DrainedOver(base)
      ensures Logged(old(log)) <= Logged(log)
      ensures ok ==> c in visited' && Covered(links, visited', Logged(log), open)
      ensures !ok ==> !AllMovable(links, comp)
      decreases links.Keys - visited, 0
    {
      if c in visited {
        return true, visited;
      }
      visited' := visited + {c};
      ok, visited' := ChangeNode(links[c].to, ctx, visited', open, comp, base, shared);
    }

    /** child_job_change_aio_ctx */
    method JobChange(j: Job, ctx: Context, visited: set<Edge>, ghost open: set<Thing>, ghost comp: set<Thing>,
                     ghost base: map<Node, int>, ghost shared: Context)
      returns (ok: bool, visited': set<Edge>)
      requires JobThing(j) in comp && ClosedSet(links, comp)
      requires shared != ctx && forall t :: t in comp && t.NodeThing? ==> t in contextOf && contextOf[t] == shared
      requires visited <= links.Keys && LogOk(links, log, comp) && DrainedOver(base)
      requires Covered(links, visited, Logged(log), open + {JobThing(j)})
      modifies this`log, this`drains
      ensures visited <= visited' <= links.Keys && LogOk(links, log, comp) && DrainedOver(base)
      ensures Logged(old(log)) <= Logged(log)
      ensures ok ==> JobThing(j) in log && Covered(links, visited', Logged(log), open)
      ensures !ok ==> !AllMovable(links, comp)
      decreases links.Keys - visited, 1
    {
      hide Covered, AllMovable, ClosedSet, LogOk;
      visited' := visited;
      ghost var inside := open + {JobThing(j)};
      var siblings := set e | e in links && links[e].user == JobUser(j);
      var todo := siblings;
      while todo != {}
        invariant todo <= siblings && visited <= visited' <= links.Keys
        invariant LogOk(links, log, comp) && DrainedOver(base) && Logged(old(log)) <= Logged(log)
        invariant Covered(links, visited', Logged(log), inside)
        invariant forall e :: e in siblings && e !in todo ==> e in visited'
        decreases todo
      {
        var c :| c in todo;
        ok, visited' := ChildChange(c, ctx, visited', inside, comp, base, shared);
        if !ok {
          return;
        }
        todo := todo - {c};
      }
      ghost var before := log;
      AddMove(JobThing(j), base);
      LogOkPush(links, before, comp, JobThing(j));
      CloseThing(links, visited', Logged(before), open, JobThing(j));
      return true, visited';
    }

    /** The commit callbacks of all records. */
    method CommitMoves(ctx: Context)
      modifies this`contextOf
      ensures contextOf.Keys == old(contextOf).Keys + Logged(log)
      ensures forall t :: t in contextOf ==> contextOf[t] == if t in log then ctx else old(contextOf)[t]
    {
      for i := 0 to |log|
        invariant contextOf.Keys == old(contextOf).Keys + Logged(log[..i])
        invariant forall t :: t in contextOf ==> contextOf[t] == if t in log[..i] then ctx else old(contextOf)[t]
      {
        assert log[..i + 1] == log[..i] + [log[i]];
        contextOf := contextOf[log[i] := ctx];
      }
      assert log[..|log|] == log;
    }

    /** The clean callbacks of all records, after commit or abort. */
    method CleanMoves(ghost base: map<Node, int>)
      requires DrainedOver(base)
      modifies this`drains, this`log
      ensures log == [] && forall n: Node :: Get(drains, n) == Get(base, n)
    {
      while log != []
        invariant DrainedOver(base)
        decreases |log|
      {
        var t := log[0];
        log := log[1..];
        if t.NodeThing? {
          drains := drains[t.node := Get(drains, t.node) - 1];
        }
      }
    }

    /**
     bdrv_try_change_aio_context without an ignored child.  `comp` is the
     component of `bs`; all of it shares one AioContext before the call.
     */
    method TryChange(bs: Node, ctx: Context, ghost comp: set<Thing>, ghost shared: Context) returns (ok: bool)
      requires log == [] && IsComponent(links, bs, comp)
      requires forall t :: t in comp && !t.FixedThing? ==> t in contextOf && contextOf[t] == shared
      modifies this
      ensures ok <==> shared == ctx || AllMovable(links, comp)
      ensures contextOf.Keys == old(contextOf).Keys
      ensures forall t :: t in contextOf ==>
                contextOf[t] == if ok && t in comp && !t.FixedThing? then ctx else old(contextOf)[t]
      ensures log == [] && forall n: Node :: Get(drains, n) == Get(old(drains), n)
    {
      var visited := {};
      ok, visited := ChangeNode(bs, ctx, visited, {}, comp, drains, shared);
      if ok {
        if shared != ctx {
          LoggedIsComponent(links, bs, comp, visited, log);
        }
        CommitMoves(ctx);
        CleanMoves(old(drains));
      } else {
        CleanMoves(old(drains));
      }
    }
  }
}
