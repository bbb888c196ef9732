/**
 The undo log of graph changes.  Every change to an edge is made at once and
 recorded; aborting runs the records from the newest to the oldest and puts
 everything back, committing runs them in the same order and drops the
 references and edges that are no longer needed.
 */
module GraphTransaction {
  import opened BlockGraph

  /** One record of the log, with what its abort or commit callback needs. */
  datatype Action =
    | SetPermAction(edge: Edge, perm: Perms, shared: Perms)   // bdrv_child_set_perm
    | DrvSetPermAction(node: Node)                            // bdrv_drv_set_perm
    | ReplaceAction(edge: Edge, oldBs: Option<Node>)          // bdrv_replace_child_tran
    | AttachAction(edge: Edge)                                // bdrv_attach_child_common
    | RemoveAction(edge: Edge)                                // bdrv_remove_child

  /** The graph, the reference counts, the scheduled unrefs and the log, newest record first. */
  datatype State = State(edges: Edges, refs: map<Node, int>, unrefs: multiset<Node>, log: seq<Action>)

  function Ref(refs: map<Node, int>, n: Node): int {
    if n in refs then refs[n] else 0
  }

  function AddRef(refs: map<Node, int>, n: Option<Node>, k: int): map<Node, int> {
    if n.Some? then refs[n.value := Ref(refs, n.value) + k] else refs
  }

  /** The reference count once the scheduled unrefs have run. */
  function Net(s: State, n: Node): int {
    Ref(s.refs, n) - s.unrefs[n]
  }

  function Scheduled(unrefs: multiset<Node>, n: Option<Node>): multiset<Node> {
    if n.Some? then unrefs + multiset{n.value} else unrefs
  }

  // ----- the operations

  function SetPerm(s: State, e: Edge, perm: Perms, shared: Perms): State
    requires e in s.edges
  {
    var l := s.edges[e];
    s.(edges := s.edges[e := l.(perm := perm, shared := shared)], log := [SetPermAction(e, l.perm, l.shared)] + s.log)
  }

  function DrvSetPerm(s: State, n: Node): State {
    s.(log := [DrvSetPermAction(n)] + s.log)
  }

  function Replace(s: State, e: Edge, to: Option<Node>): State
    requires e in s.edges
  {
    var l := s.edges[e];
    State(s.edges[e := l.(to := to)], AddRef(s.refs, to, 1), s.unrefs, [ReplaceAction(e, l.to)] + s.log)
  }

  function Attach(s: State, e: Edge, l: Link): State
    requires e !in s.edges
  {
    State(s.edges[e := l], AddRef(s.refs, l.to, 1), s.unrefs, [AttachAction(e)] + s.log)
  }

  function Remove(s: State, e: Edge): State
    requires e in s.edges
  {
    var t := if s.edges[e].to.Some? then Replace(s, e, None) else s;
    t.(log := [RemoveAction(e)] + t.log)
  }

  datatype Op =
    | OpSetPerm(edge: Edge, perm: Perms, shared: Perms)
    | OpDrvSetPerm(node: Node)
    | OpReplace(edge: Edge, to: Option<Node>)
    | OpAttach(edge: Edge, link: Link)
    | OpRemove(edge: Edge)

  /** The edge is part of the graph and was not removed in this transaction. */
  predicate Usable(s: State, e: Edge) {
    e in s.edges && RemoveAction(e) !in s.log
  }

  /** What the operations assert about their arguments. */
  predicate Valid(s: State, op: Op) {
    match op
    case OpSetPerm(e, _, _) => e in s.edges
    case OpDrvSetPerm(_) => true
    case OpReplace(e, to) => Usable(s, e) && !s.edges[e].frozen && s.edges[e].to != to
    case OpAttach(e, l) => e !in s.edges && RemoveAction(e) !in s.log && l.to.Some?
    case OpRemove(e) => Usable(s, e) && !s.edges[e].frozen
  }

  function Apply(s: State, op: Op): State
    requires Valid(s, op)
  {
    match op
    case OpSetPerm(e, perm, shared) => SetPerm(s, e, perm, shared)
    case OpDrvSetPerm(n) => DrvSetPerm(s, n)
    case OpReplace(e, to) => Replace(s, e, to)
    case OpAttach(e, l) => Attach(s, e, l)
    case OpRemove(e) => Remove(s, e)
  }

  // ----- abort

  /** The abort callback of the newest record. */
  function Undo(s: State): State
    requires s.log != []
  {
    var rest := s.(log := s.log[1..]);
    match s.log[0]
    case SetPermAction(e, perm, shared) =>
      if e in s.edges then rest.(edges := s.edges[e := s.edges[e].(perm := perm, shared := shared)]) else rest
    case DrvSetPermAction(_) => rest
    case ReplaceAction(e, oldBs) =>
      if e in s.edges then
        rest.(edges := s.edges[e := s.edges[e].(to := oldBs)], refs := AddRef(s.refs, s.edges[e].to, -1))
      else rest
    case AttachAction(e) =>
      if e in s.edges then rest.(edges := s.edges - {e}, unrefs := Scheduled(s.unrefs, s.edges[e].to)) else rest
    case RemoveAction(_) => rest
  }

  function Rollback(s: State): State
    decreases |s.log|
  {
    if s.log == [] then s else Rollback(Undo(s))
  }

  /** The same graph, and the same reference counts once scheduled unrefs have run. */
  ghost predicate SameBase(s: State, t: State) {
    s.edges == t.edges && forall n: Node :: Net(s, n) == Net(t, n)
  }

  /** What undoing a record does to the count of `n`. */
  function UndoDelta(g: Edges, a: Action, n: Node): int {
    if (a.ReplaceAction? || a.AttachAction?) && a.edge in g && g[a.edge].to == Some(n) then -1 else 0
  }

  lemma UndoNet(s: State, n: Node)
    requires s.log != []
    ensures Net(Undo(s), n) == Net(s, n) + UndoDelta(s.edges, s.log[0], n)
  {
  }

  lemma UndoRespects(s: State, t: State)
    requires SameBase(s, t) && s.log == t.log != []
    ensures SameBase(Undo(s), Undo(t)) && Undo(s).log == Undo(t).log
  {
    forall n: Node
      ensures Net(Undo(s), n) == Net(Undo(t), n)
    {
      UndoNet(s, n);
      UndoNet(t, n);
      hide Undo, UndoDelta;
      assert Net(s, n) == Net(t, n);
    }
    hide Net;
  }

  lemma {:induction false} RollbackRespects(s: State, t: State)
    requires SameBase(s, t) && s.log == t.log
    ensures SameBase(Rollback(s), Rollback(t))
    decreases |s.log|
  {
    if s.log != [] {
      UndoRespects(s, t);
      RollbackRespects(Undo(s), Undo(t));
    }
  }

  /** Undoing the newest record right after it was made changes nothing. */
  lemma UndoneAtOnce(s: State, a: Action, t: State)
    requires t.log == [a] + s.log
    requires SameBase(Undo(t), s)
    ensures SameBase(Rollback(t), Rollback(s))
  {
    assert t.log[1..] == s.log;
    assert Undo(t).log == s.log;
    RollbackRespects(Undo(t), s);
  }

  lemma SetPermRollback(s: State, e: Edge, perm: Perms, shared: Perms)
    requires e in s.edges
    ensures SameBase(Rollback(SetPerm(s, e, perm, shared)), Rollback(s))
  {
    hide Rollback;
    var t := SetPerm(s, e, perm, shared);
    assert Undo(t).edges == s.edges;
    assert forall n: Node :: Net(Undo(t), n) == Net(s, n);
    UndoneAtOnce(s, t.log[0], t);
  }

  lemma DrvSetPermRollback(s: State, n: Node)
    ensures SameBase(Rollback(DrvSetPerm(s, n)), Rollback(s))
  {
    UndoneAtOnce(s, DrvSetPermAction(n), DrvSetPerm(s, n));
  }

  lemma ReplaceRollback(s: State, e: Edge, to: Option<Node>)
    requires e in s.edges
    ensures SameBase(Rollback(Replace(s, e, to)), Rollback(s))
  {
    hide Rollback;
    var t := Replace(s, e, to);
    assert Undo(t).edges == s.edges;
    assert forall n: Node :: Net(Undo(t), n) == Net(s, n);
    UndoneAtOnce(s, t.log[0], t);
  }

  lemma AttachRollback(s: State, e: Edge, l: Link)
    requires e !in s.edges
    ensures SameBase(Rollback(Attach(s, e, l)), Rollback(s))
  {
    hide Rollback;
    var t := Attach(s, e, l);
    assert Undo(t).edges == s.edges;
    assert forall n: Node :: Net(Undo(t), n) == Net(s, n);
    UndoneAtOnce(s, t.log[0], t);
  }

  lemma RemoveRollback(s: State, e: Edge)
    requires e in s.edges
    ensures SameBase(Rollback(Remove(s, e)), Rollback(s))
  {
    hide Rollback;
    var t := if s.edges[e].to.Some? then Replace(s, e, None) else s;
    if s.edges[e].to.Some? {
      ReplaceRollback(s, e, None);
    }
    UndoneAtOnce(t, RemoveAction(e), Remove(s, e));
  }

  lemma ApplyRollback(s: State, op: Op)
    requires Valid(s, op)
    ensures SameBase(Rollback(Apply(s, op)), Rollback(s))
  {
    hide Rollback;
    match op
    case OpSetPerm(e, perm, shared) => SetPermRollback(s, e, perm, shared);
    case OpDrvSetPerm(n) => DrvSetPermRollback(s, n);
    case OpReplace(e, to) => ReplaceRollback(s, e, to);
    case OpAttach(e, l) => AttachRollback(s, e, l);
    case OpRemove(e) => RemoveRollback(s, e);
  }

  // ----- commit

  /** The commit callback of the newest record. */
  function Settle(s: State): State
    requires s.log != []
  {
    var rest := s.(log := s.log[1..]);
    match s.log[0]
    case ReplaceAction(_, oldBs) => rest.(unrefs := Scheduled(s.unrefs, oldBs))
    case RemoveAction(e) => rest.(edges := s.edges - {e})
    case _ => rest
  }

  function Commit(s: State): State
    decreases |s.log|
  {
    if s.log == [] then s else Commit(Settle(s))
  }

  // ----- reference counts

  /** How many records of the log hold a reference to `n`. */
  function Held(log: seq<Action>, n: Node): nat {
    if log == [] then 0
    else (if log[0].ReplaceAction? && log[0].oldBs == Some(n) then 1 else 0) + Held(log[1..], n)
  }

  /** Every reference to `n` is an edge's, a log record's, a scheduled unref's or an outside owner's. */
  ghost predicate ConservedAt(s: State, outside: map<Node, int>, n: Node) {
    Ref(s.refs, n) == |Parents(s.edges, n)| + Held(s.log, n) + s.unrefs[n] + Ref(outside, n)
  }

  ghost predicate Conserved(s: State, outside: map<Node, int>) {
    forall n: Node :: ConservedAt(s, outside, n)
  }

  /** An edge removed in this transaction points nowhere. */
  predicate RemovedEmpty(s: State) {
    forall e :: RemoveAction(e) in s.log && e in s.edges ==> s.edges[e].to.None?
  }

  lemma RetargetParents(g: Edges, e: Edge, l: Link, n: Node)
    requires e in g
    ensures |Parents(g[e := l], n)| ==
              |Parents(g, n)| - (if g[e].to == Some(n) then 1 else 0) + (if l.to == Some(n) then 1 else 0)
  {
    var h := g[e := l];
    if l.to == Some(n) {
      assert Parents(h, n) == Parents(g, n) + {e};
    } else {
      assert Parents(h, n) == Parents(g, n) - {e};
    }
  }

  lemma AddedParents(g: Edges, e: Edge, l: Link, n: Node)
    requires e !in g
    ensures |Parents(g[e := l], n)| == |Parents(g, n)| + (if l.to == Some(n) then 1 else 0)
  {
    var h := g[e := l];
    if l.to == Some(n) {
      assert Parents(h, n) == Parents(g, n) + {e};
    } else {
      assert Parents(h, n) == Parents(g, n);
    }
  }

  lemma DroppedParents(g: Edges, e: Edge, n: Node)
    requires e in g
    ensures |Parents(g - {e}, n)| == |Parents(g, n)| - (if g[e].to == Some(n) then 1 else 0)
  {
    assert Parents(g - {e}, n) == Parents(g, n) - {e};
  }

  lemma HeldPush(log: seq<Action>, a: Action, n: Node)
    ensures Held([a] + log, n) == (if a.ReplaceAction? && a.oldBs == Some(n) then 1 else 0) + Held(log, n)
  {
    assert ([a] + log)[1..] == log;
  }

  lemma ApplyConservesAt(s: State, op: Op, outside: map<Node, int>, n: Node)
    requires Valid(s, op) && ConservedAt(s, outside, n)
    ensures ConservedAt(Apply(s, op), outside, n)
  {
    hide Parents;
    var t := Apply(s, op);
    match op
    case OpSetPerm(e, perm, shared) =>
      RetargetParents(s.edges, e, t.edges[e], n);
      HeldPush(s.log, t.log[0], n);
    case OpDrvSetPerm(m) => HeldPush(s.log, t.log[0], n);
    case OpReplace(e, to) =>
      RetargetParents(s.edges, e, t.edges[e], n);
      HeldPush(s.log, t.log[0], n);
    case OpAttach(e, l) =>
      AddedParents(s.edges, e, l, n);
      HeldPush(s.log, t.log[0], n);
    case OpRemove(e) =>
      if s.edges[e].to.Some? {
        var u := Replace(s, e, None);
        RetargetParents(s.edges, e, u.edges[e], n);
        HeldPush(s.log, u.log[0], n);
        HeldPush(u.log, RemoveAction(e), n);
      } else {
        HeldPush(s.log, RemoveAction(e), n);
      }
  }

  lemma UndoConservesAt(s: State, outside: map<Node, int>, n: Node)
    requires s.log != [] && ConservedAt(s, outside, n)
    requires s.log[0].ReplaceAction? ==> s.log[0].edge in s.edges
    ensures ConservedAt(Undo(s), outside, n)
  {
    hide Parents;
    var t := Undo(s);
    assert s.log == [s.log[0]] + s.log[1..];
    HeldPush(s.log[1..], s.log[0], n);
    match s.log[0]
    case SetPermAction(e, perm, shared) => if e in s.edges { RetargetParents(s.edges, e, t.edges[e], n); }
    case ReplaceAction(e, oldBs) => RetargetParents(s.edges, e, t.edges[e], n);
    case AttachAction(e) => if e in s.edges { DroppedParents(s.edges, e, n); }
    case _ =>
  }

  lemma SettleConservesAt(s: State, outside: map<Node, int>, n: Node)
    requires s.log != [] && ConservedAt(s, outside, n)
    requires s.log[0].RemoveAction? && s.log[0].edge in s.edges ==> s.edges[s.log[0].edge].to.None?
    ensures ConservedAt(Settle(s), outside, n)
  {
    hide Parents;
    assert s.log == [s.log[0]] + s.log[1..];
    HeldPush(s.log[1..], s.log[0], n);
    if s.log[0].RemoveAction? {
      if s.log[0].edge in s.edges {
        DroppedParents(s.edges, s.log[0].edge, n);
      } else {
        assert s.edges - {s.log[0].edge} == s.edges;
      }
    }
  }

  // ----- whole transactions

  /** The state after a sequence of operations; None when one of them broke its caller's obligations. */
  function RunOps(s: State, ops: seq<Op>): Option<State> {
    if ops == [] then Some(s)
    else
      var last := |ops| - 1;
      match RunOps(s, ops[..last])
      case None => None
      case Some(t) => if Valid(t, ops[last]) then Some(Apply(t, ops[last])) else None
  }

  /** Every record's edge existed when the record was made: `d` are the edges after it. */
  predicate LogFits(d: set<Edge>, log: seq<Action>) {
    log == [] ||
    match log[0]
    case AttachAction(e) => e in d && LogFits(d - {e}, log[1..])
    case DrvSetPermAction(_) => LogFits(d, log[1..])
    case a => a.edge in d && LogFits(d, log[1..])
  }

  lemma LogPush(d: set<Edge>, a: Action, log: seq<Action>)
    requires if a.AttachAction? then a.edge in d && LogFits(d - {a.edge}, log)
             else LogFits(d, log) && (a.DrvSetPermAction? || a.edge in d)
    ensures LogFits(d, [a] + log)
  {
    assert ([a] + log)[1..] == log;
  }

  lemma ApplyFits(s: State, op: Op)
    requires Valid(s, op) && LogFits(s.edges.Keys, s.log) && RemovedEmpty(s)
    ensures LogFits(Apply(s, op).edges.Keys, Apply(s, op).log) && RemovedEmpty(Apply(s, op))
  {
    var t := Apply(s, op);
    match op
    case OpSetPerm(e, perm, shared) =>
      assert t.edges.Keys == s.edges.Keys;
      LogPush(t.edges.Keys, t.log[0], s.log);
    case OpDrvSetPerm(n) => LogPush(t.edges.Keys, t.log[0], s.log);
    case OpReplace(e, to) =>
      assert t.edges.Keys == s.edges.Keys;
      LogPush(t.edges.Keys, t.log[0], s.log);
    case OpAttach(e, l) =>
      assert t.edges.Keys - {e} == s.edges.Keys;
      LogPush(t.edges.Keys, t.log[0], s.log);
    case OpRemove(e) =>
      assert t.edges.Keys == s.edges.Keys;
      if s.edges[e].to.Some? {
        var u := Replace(s, e, None);
        LogPush(u.edges.Keys, u.log[0], s.log);
        LogPush(t.edges.Keys, RemoveAction(e), u.log);
      } else {
        LogPush(t.edges.Keys, RemoveAction(e), s.log);
      }
  }

  lemma UndoFits(s: State)
    requires s.log != [] && LogFits(s.edges.Keys, s.log)
    ensures LogFits(Undo(s).edges.Keys, Undo(s).log)
  {
    var t := Undo(s);
    match s.log[0]
    case AttachAction(e) => assert t.edges.Keys == s.edges.Keys - {e};
    case _ => assert t.edges.Keys == s.edges.Keys;
  }

  lemma UndoConserves(s: State, outside: map<Node, int>)
    requires s.log != [] && LogFits(s.edges.Keys, s.log) && Conserved(s, outside)
    ensures Conserved(Undo(s), outside)
  {
    forall n: Node
      ensures ConservedAt(Undo(s), outside, n)
    {
      assert ConservedAt(s, outside, n);
      UndoConservesAt(s, outside, n);
    }
  }

  lemma SettleConserves(s: State, outside: map<Node, int>)
    requires s.log != [] && RemovedEmpty(s) && Conserved(s, outside)
    ensures RemovedEmpty(Settle(s)) && Conserved(Settle(s), outside)
  {
    forall n: Node
      ensures ConservedAt(Settle(s), outside, n)
    {
      assert ConservedAt(s, outside, n);
      SettleConservesAt(s, outside, n);
    }
  }

  lemma {:induction false} RollbackConserves(s: State, outside: map<Node, int>)
    requires LogFits(s.edges.Keys, s.log) && Conserved(s, outside)
    ensures Conserved(Rollback(s), outside)
    decreases |s.log|
  {
    if s.log != [] {
      UndoConserves(s, outside);
      UndoFits(s);
      RollbackConserves(Undo(s), outside);
    }
  }

  lemma {:induction false} CommitConserves(s: State, outside: map<Node, int>)
    requires RemovedEmpty(s) && Conserved(s, outside)
    ensures Conserved(Commit(s), outside)
    decreases |s.log|
  {
    if s.log != [] {
      SettleConserves(s, outside);
      CommitConserves(Settle(s), outside);
    }
  }

  /** Abort restores every edge's target and permissions, and every count once scheduled unrefs have run. */
  lemma {:induction false} AbortRestores(s: State, ops: seq<Op>)
    requires s.log == []
    ensures RunOps(s, ops).Some? ==> SameBase(Rollback(RunOps(s, ops).value), s)
  {
    if ops != [] {
      var last := |ops| - 1;
      AbortRestores(s, ops[..last]);
      var before := RunOps(s, ops[..last]);
      if before.Some? && Valid(before.value, ops[last]) {
        ApplyRollback(before.value, ops[last]);
      }
    }
  }

  /** Reference counts are conserved at every point of a transaction, and after its abort or commit. */
  lemma {:induction false} TransactionConserves(s: State, ops: seq<Op>, outside: map<Node, int>)
    requires s.log == [] && Conserved(s, outside)
    ensures RunOps(s, ops).Some? ==>
              var t := RunOps(s, ops).value;
              && LogFits(t.edges.Keys, t.log) && RemovedEmpty(t)
              && Conserved(t, outside) && Conserved(Rollback(t), outside) && Conserved(Commit(t), outside)
  {
    hide Rollback, Commit;
    if ops != [] {
      var last := |ops| - 1;
      TransactionConserves(s, ops[..last], outside);
      var before := RunOps(s, ops[..last]);
      if before.Some? && Valid(before.value, ops[last]) {
        var t := Apply(before.value, ops[last]);
        ApplyFits(before.value, ops[last]);
        forall n: Node
          ensures ConservedAt(t, outside, n)
        {
          assert ConservedAt(before.value, outside, n);
          ApplyConservesAt(before.value, ops[last], outside, n);
        }
        RollbackConserves(t, outside);
        CommitConserves(t, outside);
      }
    } else {
      RollbackConserves(s, outside);
      CommitConserves(s, outside);
    }
  }

  // ----- every unref has a reference to give back

  /** A scheduled unref, when its bottom half runs bdrv_unref. */
  function RunUnref(s: State, n: Node): State
    requires n in s.unrefs
  {
    s.(refs := AddRef(s.refs, Some(n), -1), unrefs := s.unrefs - multiset{n})
  }

  /** There are at least as many references to each node as unrefs scheduled for it. */
  ghost predicate UnrefsCovered(s: State) {
    forall n: Node :: Ref(s.refs, n) >= s.unrefs[n]
  }

  /** bdrv_unref's assertion, where the abort of the newest record calls it at once. */
  predicate UndoUnrefs(s: State)
    requires s.log != []
  {
    var a := s.log[0];
    a.ReplaceAction? && a.edge in s.edges && s.edges[a.edge].to.Some? ==> Ref(s.refs, s.edges[a.edge].to.value) > 0
  }

  /** All along the abort, the references suffice for the unrefs made and scheduled. */
  ghost predicate RollbackCovered(s: State)
    decreases |s.log|
  {
    UnrefsCovered(s) && (s.log != [] ==> UndoUnrefs(s) && RollbackCovered(Undo(s)))
  }

  /** All along the commit, the references suffice for the unrefs scheduled. */
  ghost predicate CommitCovered(s: State)
    decreases |s.log|
  {
    UnrefsCovered(s) && (s.log != [] ==> CommitCovered(Settle(s)))
  }

  ghost predicate NoDebts(outside: map<Node, int>) {
    forall n: Node :: Ref(outside, n) >= 0
  }

  lemma ConservedCovers(s: State, outside: map<Node, int>)
    requires Conserved(s, outside) && NoDebts(outside)
    ensures UnrefsCovered(s)
    ensures s.log != [] ==> UndoUnrefs(s)
  {
    forall n: Node
      ensures Ref(s.refs, n) >= s.unrefs[n]
      ensures Ref(s.refs, n) >= |Parents(s.edges, n)|
    {
      assert ConservedAt(s, outside, n) && Ref(outside, n) >= 0;
    }
    if s.log != [] && s.log[0].ReplaceAction? && s.log[0].edge in s.edges && s.edges[s.log[0].edge].to.Some? {
      var n := s.edges[s.log[0].edge].to.value;
      assert s.log[0].edge in Parents(s.edges, n);
    }
  }

  lemma {:induction false} RollbackCovers(s: State, outside: map<Node, int>)
    requires LogFits(s.edges.Keys, s.log) && Conserved(s, outside) && NoDebts(outside)
    ensures RollbackCovered(s)
    decreases |s.log|
  {
    hide UndoUnrefs;
    ConservedCovers(s, outside);
    if s.log != [] {
      UndoConserves(s, outside);
      UndoFits(s);
      RollbackCovers(Undo(s), outside);
    }
  }

  lemma {:induction false} CommitCovers(s: State, outside: map<Node, int>)
    requires RemovedEmpty(s) && Conserved(s, outside) && NoDebts(outside)
    ensures CommitCovered(s)
    decreases |s.log|
  {
    ConservedCovers(s, outside);
    if s.log != [] {
      SettleConserves(s, outside);
      CommitCovers(Settle(s), outside);
    }
  }

  /**
   In every transaction on counts that are accounted for: wherever it stands,
   and at every step of its abort or commit, each unref made or scheduled finds
   a reference to give back.
   */
  lemma UnrefHasReference(s: State, ops: seq<Op>, outside: map<Node, int>)
    requires s.log == [] && Conserved(s, outside) && NoDebts(outside)
    ensures RunOps(s, ops).Some? ==>
              var t := RunOps(s, ops).value;
              UnrefsCovered(t) && RollbackCovered(t) && CommitCovered(t)
  {
    hide RunOps, Conserved, LogFits, RemovedEmpty, RollbackCovered, CommitCovered;
    TransactionConserves(s, ops, outside);
    if RunOps(s, ops).Some? {
      var t := RunOps(s, ops).value;
      ConservedCovers(t, outside);
      RollbackCovers(t, outside);
      CommitCovers(t, outside);
    }
  }

  /** Running a scheduled unref finds its reference, and every count stays accounted for. */
  lemma RunUnrefConserves(s: State, outside: map<Node, int>, n: Node)
    requires Conserved(s, outside) && NoDebts(outside) && n in s.unrefs
    ensures Ref(s.refs, n) > 0 && Conserved(RunUnref(s, n), outside)
  {
    ConservedCovers(s, outside);
    forall m: Node
      ensures ConservedAt(RunUnref(s, n), outside, m)
    {
      assert ConservedAt(s, outside, m);
    }
  }

  /** Only the abort of a replacement gives a reference back at once; every other unref is left to a bottom half. */
  lemma {:induction false} AbortDefers(s: State)
    requires forall a :: a in s.log ==> !a.ReplaceAction?
    ensures Rollback(s).refs == s.refs
    decreases |s.log|
  {
    if s.log != [] {
      assert s.log == [s.log[0]] + s.log[1..];
      AbortDefers(Undo(s));
    }
  }

  /** Commit keeps every edge as the operations left it, and drops exactly the removed ones. */
  lemma {:induction false} CommitKeepsEdges(s: State)
    ensures Commit(s).edges == map e | e in s.edges && RemoveAction(e) !in s.log :: s.edges[e]
    ensures Commit(s).refs == s.refs && Commit(s).log == []
    decreases |s.log|
  {
    if s.log != [] {
      CommitKeepsEdges(Settle(s));
      assert s.log == [s.log[0]] + s.log[1..];
    }
  }
}
