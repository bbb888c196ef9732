/** What the job API promises over every run that respects its contracts. */
module JobTheorems {
  import opened JobModel
  import opened JobInvariant
  import opened JobTransactions
  import opened JobRun
  import opened JobSafety
  import opened JobSteps

  /** The state after a run from nothing, if every call in it respected its contract. */
  function Run(steps: seq<Step>): (r: Option<World>)
    ensures r.Some? ==> Inv(r.value)
  {
    if steps == [] then Some(World(map[], map[]))
    else
      var p := Run(steps[..|steps| - 1]);
      var last := steps[|steps| - 1];
      if p.None? || !Contract(p.value, last) then None
      else
        StepInv(p.value, last);
        Some(Apply(p.value, last))
  }

  predicate PrepareFails(step: Step, m: nat) {
    match step
    case Exit(_, prepare) => prepare(m) != 0
    case Finalize(_, prepare) => prepare(m) != 0
    case _ => false
  }

  /** A job after something else happened: what is settled about it stays settled. */
  predicate After(a: Job, b: Job) {
    && b.home == a.home && b.exec.co == a.exec.co
    && (Completed(a.status) ==> Completed(b.status))
    && (a.outcome != NoOutcome ==> b.outcome == a.outcome)
  }

  predicate AllAfter(w: World, r: World) {
    forall j :: j in w.jobs ==> j in r.jobs && After(w.jobs[j], r.jobs[j])
  }

  lemma AfterTrans(a: World, b: World, c: World)
    requires AllAfter(a, b) && AllAfter(b, c)
    ensures AllAfter(a, c)
  {
    forall j | j in a.jobs
      ensures j in c.jobs && After(a.jobs[j], c.jobs[j])
    {
      assert After(a.jobs[j], b.jobs[j]) && After(b.jobs[j], c.jobs[j]);
    }
  }

  lemma FinalizedAfter(j: Job)
    requires JobOk(j) && Finalizable(j)
    ensures After(j, Finalized(j))
  {
    hide PausesOk, RefsOk;
  }

  lemma PrefixAfter(w: World, t: nat, k: nat)
    requires t in w.txns && PrefixFinalizable(w, t, k)
    requires forall m :: m in w.txns[t].members && m in w.jobs ==> JobOk(w.jobs[m])
    ensures AllAfter(w, FinalizePrefix(w, t, k))
  {
    hide JobOk, Finalized, Finalizable, After;
    var r := FinalizePrefix(w, t, k);
    forall j | j in w.jobs
      ensures After(w.jobs[j], r.jobs[j])
    {
      if j in w.txns[t].members[..k] {
        assert j in w.txns[t].members;
        FinalizedAfter(w.jobs[j]);
      } else {
        SameAfter(w.jobs[j]);
      }
    }
  }

  lemma SameAfter(j: Job)
    ensures After(j, j)
  {
  }

  lemma MarkedAfter(w: World, t: nat, j: nat, hold: nat)
    requires t in w.txns && AbortReady(w, t, j)
    ensures AllAfter(w, Marked(w, t, j, hold))
  {
    hide JobOk, Finalizable, CancelAsync;
    var r := Marked(w, t, j, hold);
    forall k | k in w.jobs
      ensures After(w.jobs[k], r.jobs[k])
    {
      if k != j && k in w.txns[t].members {
        CancelAsyncOk(w.jobs[k], true);
      }
    }
  }

  lemma LoopAfter(w: World, t: nat)
    requires t in w.txns && LoopReady(w, t)
    ensures AllAfter(w, AbortLoop(w, t))
  {
    hide JobOk, Finalized, Finalizable, After, Release;
    var k := Lead(w.jobs, w.txns[t].members);
    LeadFinalizable(w, t);
    PrefixAfter(w, t, k);
    AborterKept(w, t, k);
    var p := FinalizePrefix(w, t, k);
    if k == |w.txns[t].members| {
      EndAfter(p, t);
      AfterTrans(w, p, EndLoop(p, t));
    }
  }

  lemma EndAfter(w: World, t: nat)
    requires t in w.txns && w.txns[t].aborter.Some? && w.txns[t].aborter.value in w.jobs
    requires var j := w.jobs[w.txns[t].aborter.value]; JobOk(j) && j.refs.held == w.txns[t].hold
    ensures AllAfter(w, EndLoop(w, t))
  {
    hide JobOk;
    var a := w.txns[t].aborter.value;
    ReleaseOk(w.jobs[a], w.txns[t].hold);
  }

  lemma AbortAfter(w: World, t: nat, j: nat, hold: nat)
    requires t in w.txns && (!w.txns[t].aborting ==> AbortReady(w, t, j))
    ensures AllAfter(w, Abort(w, t, j, hold))
  {
    hide After, AbortReady, Marked, AbortLoop, LoopReady;
    if !w.txns[t].aborting {
      MarkedReady(w, t, j, hold);
      MarkedAfter(w, t, j, hold);
      MarkedTxns(w, t, j, hold);
      LoopAfter(Marked(w, t, j, hold), t);
      AfterTrans(w, Marked(w, t, j, hold), AbortLoop(Marked(w, t, j, hold), t));
    } else {
      forall k | k in w.jobs
        ensures After(w.jobs[k], w.jobs[k])
      {
        SameAfter(w.jobs[k]);
      }
    }
  }

  lemma MarkedTxns(w: World, t: nat, j: nat, hold: nat)
    requires t in w.txns && AbortReady(w, t, j)
    ensures t in Marked(w, t, j, hold).txns
  {
  }

  lemma SetAfter(w: World, j: nat, k: Job)
    requires j in w.jobs && After(w.jobs[j], k)
    ensures AllAfter(w, SetJob(w, j, k))
  {
  }

  lemma DoFinalizeAfter(w: World, t: nat, j: nat, prepare: nat -> int)
    requires t in w.txns && AllPending(w, t) && j in w.txns[t].members
    ensures AllAfter(w, DoFinalize(w, t, j, prepare))
  {
    hide JobOk, UpdateRc, FinalizePrefix, Abort, AbortReady, After;
    var f := FirstFailure(w.txns[t].members, prepare);
    if f.None? {
      PendingFinalizable(w, t);
      PrefixAfter(w, t, |w.txns[t].members|);
    } else {
      var ret := prepare(f.value);
      var w1 := Failed(w, t, f.value, ret);
      FailedReady(w, t, f.value, ret, j);
      FailedAfter(w.jobs[f.value], ret);
      SetAfter(w, f.value, UpdateRc(w.jobs[f.value].(ret := ret)));
      assert AllAfter(w, w1);
      AbortAfter(w1, t, j, 1);
      AfterTrans(w, w1, Abort(w1, t, j, 1));
    }
  }

  lemma FailedAfter(j: Job, ret: int)
    requires JobOk(j) && j.status.Pending? && ret != 0
    ensures After(j, UpdateRc(j.(ret := ret)))
  {
    hide PausesOk, RefsOk;
  }

  lemma SuccessAfter(w: World, t: nat, j: nat, prepare: nat -> int)
    requires t in w.txns && WaitingTogether(w, t) && j in w.txns[t].members
    ensures AllAfter(w, Success(w, t, j, prepare))
  {
    hide JobOk, DoFinalize;
    if AllCompleted(w, t) {
      ToPendingReady(w, t);
      var p := ToPending(w, t);
      assert AllAfter(w, p);
      DoFinalizeAfter(p, t, j, prepare);
      AfterTrans(w, p, DoFinalize(p, t, j, prepare));
    }
  }

  lemma ExitAfter(w: World, j: nat, prepare: nat -> int)
    requires Inv(w) && j in w.jobs && w.jobs[j].exec.exitPending
    ensures AllAfter(w, Exits(w, j, prepare))
  {
    hide Inv, JobOk, Exited, Abort, Success, TxnOk, Finalizable, AbortReady, WaitingTogether;
    Facts(w, j);
    ExitedOk(w.jobs[j]);
    ExitReady(w, j);
    ExitedCo(w.jobs[j]);
    var t, e := w.jobs[j].home, Exited(w.jobs[j]);
    if e.ret != 0 {
      AbortAfter(SetJob(w, j, e), t, j, 2);
      AfterTrans(w, SetJob(w, j, e), Abort(SetJob(w, j, e), t, j, 2));
    } else {
      var w1 := SetJob(w, j, Transition(e, Waiting));
      SuccessAfter(w1, t, j, prepare);
      AfterTrans(w, w1, Success(w1, t, j, prepare));
    }
  }

  lemma ExitedCo(j: Job)
    requires Allowed(j.status, Aborting)
    ensures Exited(j).exec.co == j.exec.co
  {
  }

  /** What one call may do to a job: a coroutine is only ever woken out of a yield. */
  predicate StepAfter(a: Job, b: Job) {
    && b.home == a.home
    && (Completed(a.status) ==> Completed(b.status))
    && (a.outcome != NoOutcome ==> b.outcome == a.outcome)
    && (b.exec.co.Woken? ==> b.exec.co == a.exec.co || a.exec.co == Yielded(b.exec.co.back))
  }

  predicate AllStepAfter(w: World, r: World) {
    forall j :: j in w.jobs ==> j in r.jobs && StepAfter(w.jobs[j], r.jobs[j])
  }

  lemma AfterIsStep(w: World, r: World)
    requires AllAfter(w, r)
    ensures AllStepAfter(w, r)
  {
    forall j | j in w.jobs
      ensures j in r.jobs && StepAfter(w.jobs[j], r.jobs[j])
    {
      assert After(w.jobs[j], r.jobs[j]);
    }
  }

  lemma SetStepAfter(w: World, j: nat, k: Job)
    requires j in w.jobs && StepAfter(w.jobs[j], k)
    ensures AllStepAfter(w, SetJob(w, j, k))
  {
  }

  lemma SoloWake(j: Job, step: Step)
    requires Solo(step) && JobOk(j) && SoloContract(j, step)
    ensures var k := SoloJob(j, step);
      k.exec.co.Woken? ==> k.exec.co == j.exec.co || j.exec.co == Yielded(k.exec.co.back)
  {
    hide OutcomeOk, PausesOk, RefsOk, ExecOk, VerbAllowed;
    EnterOk(j.status, j.exec, j.ret);
    if step.TimerFires? {
      TimerExec(j);
    }
  }

  lemma TimerExec(j: Job)
    requires JobOk(j) && j.exec.timer
    ensures j.exec.co == Yielded(None)
  {
  }

  lemma CancelAfter(w: World, j: nat, answer: bool)
    requires Inv(w) && CancelContract(w, j, false, answer)
    ensures AllStepAfter(w, Cancelled(w, j, answer))
  {
    hide Inv, JobOk, TxnOk, CancelAsync, AllStarted, Abort, Dismissed, UpdateRc, Finalizable, AbortReady, MemberOk,
         After;
    Facts(w, j);
    CancelCases(w.jobs[j], answer);
    var job, t, k := w.jobs[j], w.jobs[j].home, CancelAsync(w.jobs[j], answer);
    CancelAsyncOk(job, answer);
    PlainAfter(job, k);
    if job.status.Concluded? {
      DismissOk(job);
      DismissAfter(job);
      SetStepAfter(w, j, Dismissed(job));
    } else if !Started(k.exec) {
      InTxn(job);
      CancelFresh(w, j, k);
      CancelReady(w, j);
      FreshAfter(job, k);
      SetAfter(w, j, UpdateRc(k));
      AbortAfter(SetJob(w, j, UpdateRc(k)), t, j, 1);
      AfterTrans(w, SetJob(w, j, UpdateRc(k)), Abort(SetJob(w, j, UpdateRc(k)), t, j, 1));
      AfterIsStep(w, Cancelled(w, j, answer));
    } else if k.exec.deferred {
      SetAfter(w, j, k);
      if k.forceCancel && !w.txns[t].aborting {
        InTxn(job);
        ForcedReady(w, j, answer);
        AbortAfter(SetJob(w, j, k), t, j, 1);
        AfterTrans(w, SetJob(w, j, k), Abort(SetJob(w, j, k), t, j, 1));
      }
      AfterIsStep(w, Cancelled(w, j, answer));
    } else {
      SetStepAfter(w, j, k.(exec := Enter(k.exec)));
    }
  }

  lemma PlainAfter(a: Job, b: Job)
    requires b == a.(pauses := b.pauses, cancelled := b.cancelled, forceCancel := b.forceCancel)
    ensures After(a, b)
  {
  }

  lemma DismissAfter(j: Job)
    requires JobOk(j) && Allowed(j.status, Null) && !j.exec.timer
    ensures StepAfter(j, Dismissed(j))
  {
    hide PausesOk, RefsOk;
  }

  lemma FreshAfter(a: Job, k: Job)
    requires JobOk(a) && k.status == a.status && k.status.Created? && After(a, k) && k.outcome == a.outcome
    ensures After(a, UpdateRc(k))
  {
    hide PausesOk, RefsOk;
  }

  /** Completed stays completed, an outcome is never changed, and only a yielded coroutine is woken, in every call. */
  lemma {:induction false} StepKeeps(w: World, step: Step)
    requires Inv(w) && Contract(w, step)
    ensures AllStepAfter(w, Apply(w, step))
  {
    hide Inv, JobOk, SoloJob, Abort, DoFinalize, AbortLoop, Exits, Cancelled, SameStanding, AllStarted, AllAfter,
         Dismissed;
    if Solo(step) {
      Facts(w, step.j);
      SoloOk(w.jobs[step.j], step);
      SoloWake(w.jobs[step.j], step);
      SoloStep(w.jobs[step.j], step);
    } else {
      match step {
        case Create(j, txn, t, autoFinalize, autoDismiss) =>
        case EarlyFail(j) =>
          Facts(w, j);
          DismissFresh(w.jobs[j]);
          DismissAfter(w.jobs[j]);
        case Exit(j, prepare) =>
          ExitAfter(w, j, prepare);
          AfterIsStep(w, Exits(w, j, prepare));
        case Cancel(j, force, answer) => CancelAfter(w, j, answer);
        case Finalize(j, prepare) =>
          if VerbAllowed(FinalizeVerb, w.jobs[j].status) {
            PendingReady(w, j);
            DoFinalizeAfter(w, w.jobs[j].home, j, prepare);
            AfterIsStep(w, DoFinalize(w, w.jobs[j].home, j, prepare));
          }
        case LoopGoesOn(t) =>
          WaitingLoopReady(w, t);
          LoopAfter(w, t);
          AfterIsStep(w, AbortLoop(w, t));
        case _ =>
      }
    }
  }

  lemma SoloStep(j: Job, step: Step)
    requires Solo(step) && JobOk(j) && SoloContract(j, step)
    requires SameStanding(j, SoloJob(j, step)) && (Completed(j.status) ==> Completed(SoloJob(j, step).status))
    requires var k := SoloJob(j, step);
      k.exec.co.Woken? ==> k.exec.co == j.exec.co || j.exec.co == Yielded(k.exec.co.back)
    ensures StepAfter(j, SoloJob(j, step))
  {
    hide SoloJob, JobOk;
  }

  /** Transaction `t` has not come to a failed prepare unless it had before. */
  predicate FlagKept(w: World, r: World, t: nat) {
    t in r.txns && r.txns[t].prepareFailed ==> t in w.txns && w.txns[t].prepareFailed
  }

  /** No prepare callback of a member of `t` fails in this call. */
  ghost predicate PreparesWell(w: World, step: Step, t: nat) {
    forall m :: t in w.txns && m in w.txns[t].members ==> !PrepareFails(step, m)
  }

  lemma LoopFlag(w: World, t: nat, u: nat)
    requires t in w.txns && LoopReady(w, t)
    ensures FlagKept(w, AbortLoop(w, t), u) && AbortLoop(w, t).txns.Keys == w.txns.Keys
  {
    hide JobOk, Finalized, Finalizable, Release, Lead;
  }

  lemma AbortFlag(w: World, t: nat, j: nat, hold: nat, u: nat)
    requires t in w.txns && (!w.txns[t].aborting ==> AbortReady(w, t, j))
    ensures FlagKept(w, Abort(w, t, j, hold), u)
  {
    hide AbortReady, AbortLoop, LoopReady, CancelAsync, Hold;
    if !w.txns[t].aborting {
      MarkedReady(w, t, j, hold);
      LoopFlag(Marked(w, t, j, hold), t, u);
    }
  }

  /** Finalising `t` marks no other transaction, and not `t` if its members prepare well. */
  lemma DoFinalizeFlag(w: World, t: nat, j: nat, prepare: nat -> int, u: nat)
    requires t in w.txns && AllPending(w, t) && j in w.txns[t].members
    requires u == t ==> forall m :: m in w.txns[t].members ==> prepare(m) == 0
    ensures FlagKept(w, DoFinalize(w, t, j, prepare), u)
  {
    hide JobOk, Finalized, Abort, AbortReady, UpdateRc;
    var f := FirstFailure(w.txns[t].members, prepare);
    if f.Some? {
      FailedReady(w, t, f.value, prepare(f.value), j);
      AbortFlag(Failed(w, t, f.value, prepare(f.value)), t, j, 1, u);
    }
  }

  lemma SuccessFlag(w: World, t: nat, j: nat, prepare: nat -> int, u: nat)
    requires t in w.txns && WaitingTogether(w, t) && j in w.txns[t].members
    requires u == t ==> forall m :: m in w.txns[t].members ==> prepare(m) == 0
    ensures FlagKept(w, Success(w, t, j, prepare), u)
  {
    hide JobOk, DoFinalize;
    if AllCompleted(w, t) {
      ToPendingReady(w, t);
      DoFinalizeFlag(ToPending(w, t), t, j, prepare, u);
    }
  }

  /** Only a call in which a member's own prepare callback fails marks its transaction so. */
  lemma {:induction false} StepFlag(w: World, step: Step, u: nat)
    requires Inv(w) && Contract(w, step) && PreparesWell(w, step, u)
    ensures FlagKept(w, Apply(w, step), u)
  {
    hide Inv, JobOk, SoloJob, Abort, DoFinalize, AbortLoop, Exits, Cancelled, SameStanding, AllStarted, Dismissed;
    if !Solo(step) {
      match step {
        case Exit(j, prepare) => ExitFlag(w, j, prepare, u);
        case Cancel(j, force, answer) => CancelFlag(w, j, answer, u);
        case Finalize(j, prepare) =>
          if VerbAllowed(FinalizeVerb, w.jobs[j].status) {
            PendingReady(w, j);
            MembersPrepare(w, step, u, prepare);
            DoFinalizeFlag(w, w.jobs[j].home, j, prepare, u);
          }
        case LoopGoesOn(t) =>
          WaitingLoopReady(w, t);
          LoopFlag(w, t, u);
        case EarlyFail(j) => Facts(w, j);
        case _ =>
      }
    }
  }

  lemma MembersPrepare(w: World, step: Step, t: nat, prepare: nat -> int)
    requires PreparesWell(w, step, t)
    requires (step.Exit? || step.Finalize?) && step.prepare == prepare
    ensures t in w.txns ==> forall m :: m in w.txns[t].members ==> prepare(m) == 0
  {
    if t in w.txns {
      forall m | m in w.txns[t].members
        ensures prepare(m) == 0
      {
        assert !PrepareFails(step, m);
      }
    }
  }

  lemma ExitFlag(w: World, j: nat, prepare: nat -> int, u: nat)
    requires Inv(w) && j in w.jobs && w.jobs[j].exec.exitPending && PreparesWell(w, Exit(j, prepare), u)
    ensures FlagKept(w, Exits(w, j, prepare), u)
  {
    hide Inv, JobOk, Abort, Success, AbortReady, Exited, WaitingTogether;
    ExitReady(w, j);
    MembersPrepare(w, Exit(j, prepare), u, prepare);
    var t, e := w.jobs[j].home, Exited(w.jobs[j]);
    if e.ret != 0 {
      AbortFlag(SetJob(w, j, e), t, j, 2, u);
    } else {
      SuccessFlag(SetJob(w, j, Transition(e, Waiting)), t, j, prepare, u);
    }
  }

  lemma CancelFlag(w: World, j: nat, answer: bool, u: nat)
    requires Inv(w) && CancelContract(w, j, false, answer)
    ensures FlagKept(w, Cancelled(w, j, answer), u)
  {
    hide Inv, JobOk, TxnOk, CancelAsync, AllStarted, Abort, Dismissed, UpdateRc, Finalizable, AbortReady, Enter;
    Facts(w, j);
    CancelCases(w.jobs[j], answer);
    var job, t, k := w.jobs[j], w.jobs[j].home, CancelAsync(w.jobs[j], answer);
    CancelAsyncOk(job, answer);
    if job.status.Concluded? {
    } else if !Started(k.exec) {
      InTxn(job);
      CancelFresh(w, j, k);
      CancelReady(w, j);
      AbortFlag(SetJob(w, j, UpdateRc(k)), t, j, 1, u);
    } else if k.exec.deferred && k.forceCancel && !w.txns[t].aborting {
      InTxn(job);
      ForcedReady(w, j, answer);
      AbortFlag(SetJob(w, j, k), t, j, 1, u);
    }
  }

  /** In no call of the run does a prepare callback of a member of `t` fail. */
  ghost predicate AllPrepareWell(steps: seq<Step>, t: nat) {
    forall k :: 0 <= k < |steps| && Run(steps[..k]).Some? ==> PreparesWell(Run(steps[..k]).value, steps[k], t)
  }

  lemma {:induction false} NoFailureFlag(steps: seq<Step>, t: nat)
    requires AllPrepareWell(steps, t)
    ensures Run(steps).Some? && t in Run(steps).value.txns ==> !Run(steps).value.txns[t].prepareFailed
    decreases |steps|
  {
    hide Inv, Contract, Apply, PreparesWell;
    if steps != [] && Run(steps).Some? {
      var n := |steps| - 1;
      var front, last := steps[..n], steps[n];
      forall k | 0 <= k < |front| && Run(front[..k]).Some?
        ensures PreparesWell(Run(front[..k]).value, front[k], t)
      {
        assert front[..k] == steps[..k] && front[k] == steps[k];
      }
      assert PreparesWell(Run(steps[..n]).value, steps[n], t);
      StepFlag(Run(front).value, last, t);
      NoFailureFlag(front, t);
    }
  }

  /** The members finalised so far all committed without an error, or all aborted with one. */
  predicate Uniform(w: World, done: seq<nat>) {
    && (forall d :: d in done ==> d in w.jobs)
    && ((forall d :: d in done ==> w.jobs[d].outcome == Committed && w.jobs[d].ret == 0)
        || (forall d :: d in done ==> w.jobs[d].outcome == Aborted && w.jobs[d].ret != 0))
  }

  /**
   A transaction is all-or-nothing in every run in which no prepare callback of
   its own members fails, whatever happens to other transactions.
   */
  lemma AllOrNothing(steps: seq<Step>, t: nat)
    requires AllPrepareWell(steps, t)
    ensures Run(steps).Some? && t in Run(steps).value.txns ==> Uniform(Run(steps).value, Run(steps).value.txns[t].done)
  {
    hide Run, ExecOk, PausesOk, RefsOk, MemberOk, AllPrepareWell;
    NoFailureFlag(steps, t);
    if Run(steps).Some? && t in Run(steps).value.txns {
      var w := Run(steps).value;
      assert TxnOk(w, t);
      forall d | d in w.txns[t].done
        ensures d in w.jobs && OutcomeOk(w.jobs[d].status, w.jobs[d].ret, w.jobs[d].outcome)
      {
        assert JobAt(w, d);
      }
    }
  }

  /** An abort loop over members that have all completed finalises every one of them. */
  lemma LoopOutcome(w: World, t: nat, m: nat)
    requires t in w.txns && LoopReady(w, t) && AllCompleted(w, t) && m in w.txns[t].members
    ensures m in AbortLoop(w, t).jobs
    ensures AbortLoop(w, t).jobs[m].outcome ==
      if w.jobs[m].ret != 0 || w.jobs[m].forceCancel then Aborted else Committed
  {
    hide JobOk, Finalized, Finalizable;
    var all := w.txns[t].members;
    var k := Lead(w.jobs, all);
    assert k == |all|;
    assert all[..k] == all;
    LeadFinalizable(w, t);
    AborterKept(w, t, k);
    FinalizedOk(w.jobs[m]);
    var p := FinalizePrefix(w, t, k);
    ReleaseOk(p.jobs[w.txns[t].aborter.value], w.txns[t].hold);
  }

  /**
   The exact outcome of finalising a transaction: every member commits if no
   prepare callback fails; if one does, every member aborts, except that the
   job the call is about still commits when it was not the first to fail.
   */
  lemma FinalizeOutcome(w: World, t: nat, j: nat, prepare: nat -> int, m: nat)
    requires t in w.txns && AllPending(w, t) && j in w.txns[t].members && m in w.txns[t].members
    ensures var f := FirstFailure(w.txns[t].members, prepare);
      DoFinalize(w, t, j, prepare).jobs[m].outcome ==
        (if f.None? || (m == j && f.value != j) then Committed else Aborted)
  {
    hide JobOk, UpdateRc, Finalizable, AbortLoop, CancelAsync;
    var f := FirstFailure(w.txns[t].members, prepare);
    if f.None? {
      PendingFinalizable(w, t);
      CommitOutcome(w, t, m);
    } else {
      var ret := prepare(f.value);
      var w1 := Failed(w, t, f.value, ret);
      FailedReady(w, t, f.value, ret, j);
      FailedJob(w.jobs[f.value], ret);
      MarkedReady(w1, t, j, 1);
      var k := Marked(w1, t, j, 1);
      forall i | i in w.txns[t].members
        ensures Completed(k.jobs[i].status)
        ensures i != j ==> k.jobs[i].forceCancel
        ensures k.jobs[j].ret == w1.jobs[j].ret && k.jobs[j].forceCancel == w1.jobs[j].forceCancel
      {
        CancelAsyncOk(w1.jobs[i], true);
      }
      LoopOutcome(k, t, m);
      PendingJob(w.jobs[j]);
    }
  }

  /** Some members commit and others abort exactly when the first prepare to fail is that of another job. */
  lemma MixedExactly(w: World, t: nat, j: nat, prepare: nat -> int)
    requires t in w.txns && AllPending(w, t) && j in w.txns[t].members
    ensures var r := DoFinalize(w, t, j, prepare);
      var f := FirstFailure(w.txns[t].members, prepare);
      (exists a, b :: a in w.txns[t].members && b in w.txns[t].members && a in r.jobs && b in r.jobs
         && r.jobs[a].outcome == Committed && r.jobs[b].outcome == Aborted)
      <==> f.Some? && f.value != j
  {
    hide JobOk, DoFinalize, FirstFailure;
    var r := DoFinalize(w, t, j, prepare);
    DoFinalizeAfter(w, t, j, prepare);
    forall m | m in w.txns[t].members
      ensures m in r.jobs
      ensures var f := FirstFailure(w.txns[t].members, prepare);
        r.jobs[m].outcome == if f.None? || (m == j && f.value != j) then Committed else Aborted
    {
      FinalizeOutcome(w, t, j, prepare, m);
    }
  }

  /** Cancelling a pending job aborts every member of its transaction in the same call. */
  lemma LateCancelAborts(w: World, j: nat, answer: bool, m: nat)
    requires Inv(w) && CancelContract(w, j, false, answer) && w.jobs[j].status.Pending?
    requires m in w.txns[w.jobs[j].home].members
    ensures m in Cancelled(w, j, answer).jobs && Cancelled(w, j, answer).jobs[m].outcome == Aborted
  {
    hide Inv, JobOk, CancelAsync, AbortLoop, UpdateRc, Finalizable, AllStarted, Dismissed;
    var t := w.jobs[j].home;
    Facts(w, j);
    CancelCases(w.jobs[j], answer);
    PendingReady(w, j);
    PendingJob(w.jobs[j]);
    InTxn(w.jobs[j]);
    CancelAsyncOk(w.jobs[j], answer);
    ForcedReady(w, j, answer);
    var w1 := SetJob(w, j, CancelAsync(w.jobs[j], answer));
    MarkedReady(w1, t, j, 1);
    var k := Marked(w1, t, j, 1);
    forall i | i in w.txns[t].members
      ensures Completed(k.jobs[i].status) && k.jobs[i].forceCancel
    {
      CancelAsyncOk(w1.jobs[i], true);
    }
    LoopOutcome(k, t, m);
  }

  /** No job is forgotten, and what is settled about it stays settled. */
  predicate Settled(w: World, r: World) {
    forall j :: j in w.jobs ==>
      && j in r.jobs
      && (Completed(w.jobs[j].status) ==> Completed(r.jobs[j].status))
      && (w.jobs[j].outcome != NoOutcome ==> r.jobs[j].outcome == w.jobs[j].outcome)
  }

  /** In every run, from any moment to the end of it: a completed job stays completed and keeps its outcome. */
  lemma {:induction false} CompletedForever(steps: seq<Step>, k: nat)
    requires k <= |steps|
    ensures Run(steps).Some? ==> Run(steps[..k]).Some? && Settled(Run(steps[..k]).value, Run(steps).value)
    decreases |steps|
  {
    hide Inv, Contract, Apply;
    if k == |steps| {
      assert steps[..k] == steps;
    } else if Run(steps).Some? {
      var front, last := steps[..|steps| - 1], steps[|steps| - 1];
      assert front[..k] == steps[..k];
      CompletedForever(front, k);
      var a, p := Run(steps[..k]).value, Run(front).value;
      StepKeeps(p, last);
      forall j | j in a.jobs
        ensures j in Apply(p, last).jobs
        ensures Completed(a.jobs[j].status) ==> Completed(Apply(p, last).jobs[j].status)
        ensures a.jobs[j].outcome != NoOutcome ==> Apply(p, last).jobs[j].outcome == a.jobs[j].outcome
      {
        assert StepAfter(p.jobs[j], Apply(p, last).jobs[j]);
      }
    }
  }

  /** A job without references is dismissed, in no transaction, and no timer will wake it. */
  predicate FreedWell(w: World, j: nat)
    requires j in w.jobs
  {
    var job := w.jobs[j];
    job.refs.count <= 0 ==>
      && job.refs.count == 0 && job.status.Null? && job.txn == None && !job.exec.timer
      && forall t :: t in w.txns ==> j !in w.txns[t].members
  }

  /** In every run a job is freed only after it was dismissed. */
  lemma FreedOnlyDismissed(steps: seq<Step>, j: nat)
    ensures Run(steps).Some? && j in Run(steps).value.jobs ==> FreedWell(Run(steps).value, j)
  {
    hide Run;
    if Run(steps).Some? && j in Run(steps).value.jobs {
      var w := Run(steps).value;
      assert JobAt(w, j);
      forall t | t in w.txns && w.jobs[j].refs.count <= 0
        ensures j !in w.txns[t].members
      {
        assert TxnOk(w, t);
      }
    }
  }

  /** Each pause has its cause, a job stopped by an I/O error waits for the user, an idle job has yielded. */
  predicate PausedWell(job: Job) {
    && job.pauses.count ==
         (if Started(job.exec) then 0 else 1) + (if job.pauses.user then 1 else 0) + job.pauses.internal
    && (job.pauses.ioError ==> job.pauses.user && job.pauses.count > 0)
    && (Started(job.exec) && !job.exec.deferred ==> (!job.exec.busy <==> job.exec.co.Yielded?))
  }

  /** In every run the pause counter is accounted for. */
  lemma PausesAccounted(steps: seq<Step>, j: nat)
    ensures Run(steps).Some? && j in Run(steps).value.jobs ==> PausedWell(Run(steps).value.jobs[j])
  {
    hide Run;
    if Run(steps).Some? && j in Run(steps).value.jobs {
      assert JobAt(Run(steps).value, j);
    }
  }

  /** Every member an aborting transaction still waits for has been asked to stop. */
  predicate AskedToStop(w: World, t: nat)
    requires t in w.txns
  {
    w.txns[t].aborting ==>
      forall m :: m in w.txns[t].members ==> m in w.jobs && (Completed(w.jobs[m].status) || w.jobs[m].cancelled)
  }

  /** In every run the assertion holds that the abort loop makes before it waits. */
  lemma WaitsForCancelled(steps: seq<Step>, t: nat)
    ensures Run(steps).Some? && t in Run(steps).value.txns ==> AskedToStop(Run(steps).value, t)
  {
    hide Run;
    if Run(steps).Some? && t in Run(steps).value.txns {
      var w := Run(steps).value;
      forall m | m in w.txns[t].members && w.txns[t].aborting
        ensures m in w.jobs && (Completed(w.jobs[m].status) || w.jobs[m].cancelled)
      {
        MemberHome(w, t, m);
        assert JobAt(w, m);
      }
    }
  }
}
