/** One step of the job API as a function of the state, and whole runs of it. */
module JobRun {
  import opened JobModel
  import opened JobInvariant
  import opened JobTransactions

  /** What the invariant says about one job and its transaction. */
  lemma Facts(w: World, j: nat)
    requires Inv(w) && j in w.jobs
    ensures var t := w.jobs[j].home;
      && JobOk(w.jobs[j]) && t in w.txns && TxnOk(w, t)
      && (w.jobs[j].txn.Some? ==> w.jobs[j].txn == Some(t) && j in w.txns[t].members && MemberOk(w.txns[t], w.jobs[j]))
  {
    hide ExecOk, OutcomeOk, PausesOk, RefsOk, MemberOk, DoneOk, LoopOk, PendingTogether;
  }

  /** Members of a transaction that does not abort are held by no abort loop. */
  lemma NotHeld(w: World, t: nat, m: nat)
    requires Inv(w) && t in w.txns && !w.txns[t].aborting && m in w.txns[t].members
    ensures m in w.jobs && JobOk(w.jobs[m]) && w.jobs[m].refs.held == 0 && MemberOk(w.txns[t], w.jobs[m])
  {
    hide ExecOk, OutcomeOk, PausesOk, RefsOk, MemberOk, DoneOk, PendingTogether;
    assert TxnOk(w, t);
  }

  /** A job whose run function has returned. */
  lemma ExitedOk(j: Job)
    requires JobOk(j) && j.exec.exitPending
    ensures Allowed(j.status, Aborting) && !Completed(j.status)
    ensures var e := Exited(j);
      && e.home == j.home && e.txn == j.txn == Some(j.home) && e.refs == j.refs && e.forceCancel == j.forceCancel
      && Started(e.exec) && e.exec.deferred && e.outcome == j.outcome == NoOutcome
      && (e.ret != 0 <==> Doomed(j))
      && (e.ret != 0 ==> JobOk(e) && Finalizable(e) && e.status.Aborting?)
      && (e.ret == 0 ==> Allowed(e.status, Waiting) && JobOk(Transition(e, Waiting)) && !e.forceCancel)
  {
    hide PausesOk;
  }

  /** Replacing one member by a well-formed successor keeps the transaction ready to be aborted for it. */
  lemma AbortReadyWith(w: World, t: nat, j: nat, k: Job)
    requires Inv(w) && t in w.txns && !w.txns[t].aborting && j in w.txns[t].members
    requires JobOk(k) && k.txn == Some(t) && k.home == t && k.refs.held == 0 && (Completed(k.status) ==> Finalizable(k))
    ensures AbortReady(SetJob(w, j, k), t, j)
  {
    hide JobOk, Finalizable, Completed, DoneOk, LoopOk, MemberOk, PendingTogether;
    assert TxnOk(w, t);
    forall m | m in w.txns[t].members
      ensures m in w.jobs && JobOk(w.jobs[m]) && w.jobs[m].refs.held == 0
    {
      NotHeld(w, t, m);
    }
  }

  lemma ExitReady(w: World, j: nat)
    requires Inv(w) && j in w.jobs && w.jobs[j].exec.exitPending
    ensures Allowed(w.jobs[j].status, Aborting) && w.jobs[j].home in w.txns
    ensures var t, e := w.jobs[j].home, Exited(w.jobs[j]);
      && (e.ret != 0 && !w.txns[t].aborting ==> AbortReady(SetJob(w, j, e), t, j))
      && (e.ret == 0 ==> Allowed(e.status, Waiting) && WaitingTogether(SetJob(w, j, Transition(e, Waiting)), t))
      && j in w.txns[t].members
  {
    hide JobOk, Exited, Finalizable, DoneOk, LoopOk, Inv;
    Facts(w, j);
    ExitedOk(w.jobs[j]);
    var t, e := w.jobs[j].home, Exited(w.jobs[j]);
    if !w.txns[t].aborting {
      NotHeld(w, t, j);
      if e.ret != 0 {
        AbortReadyWith(w, t, j, e);
      } else {
        forall m | m in w.txns[t].members
          ensures m in w.jobs && JobOk(w.jobs[m]) && w.jobs[m].refs.held == 0 && MemberOk(w.txns[t], w.jobs[m])
        {
          NotHeld(w, t, m);
        }
      }
    }
  }

  lemma PendingReady(w: World, j: nat)
    requires Inv(w) && j in w.jobs && w.jobs[j].status.Pending?
    ensures w.jobs[j].home in w.txns && AllPending(w, w.jobs[j].home) && j in w.txns[w.jobs[j].home].members
  {
    hide ExecOk, OutcomeOk, PausesOk, RefsOk, DoneOk, LoopOk;
    Facts(w, j);
    var t := w.jobs[j].home;
    forall m | m in w.txns[t].members
      ensures JobOk(w.jobs[m]) && w.jobs[m].refs.held == 0 && w.jobs[m].status.Pending? && !w.jobs[m].forceCancel
    {
      NotHeld(w, t, m);
    }
  }

  /** A doomed member that has completed can be finalised. */
  lemma DoomedFinalizable(j: Job)
    requires JobOk(j) && j.txn.Some? && Doomed(j) && Completed(j.status)
    ensures Finalizable(j)
  {
    hide PausesOk, RefsOk;
  }

  lemma WaitingLoopReady(w: World, t: nat)
    requires Inv(w) && t in w.txns && w.txns[t].aborter.Some?
    ensures LoopReady(w, t)
  {
    hide JobOk, Finalizable, DoneOk, PendingTogether, Doomed, Completed;
    assert TxnOk(w, t);
    forall m | m in w.txns[t].members
      ensures JobOk(w.jobs[m]) && (Completed(w.jobs[m].status) ==> Finalizable(w.jobs[m]))
    {
      if Completed(w.jobs[m].status) {
        DoomedFinalizable(w.jobs[m]);
      }
    }
  }

  /** After the cancel request a job that was not started, or is done, is ready to be aborted. */
  lemma CancelledOk(j: Job)
    requires JobOk(j) && j.txn.Some?
    ensures var k := CancelAsync(j, true);
      && JobOk(k) && k.txn == j.txn && k.home == j.home && k.refs == j.refs
      && (Completed(k.status) ==> Finalizable(k))
      && (!Started(k.exec) && k.status.Created? ==>
            && JobOk(UpdateRc(k)) && Finalizable(UpdateRc(k)) && UpdateRc(k).txn == j.txn
            && UpdateRc(k).refs == j.refs && UpdateRc(k).home == j.home)
  {
    CancelAsyncOk(j, true);
  }

  lemma CancelReady(w: World, j: nat)
    requires Inv(w) && j in w.jobs && w.jobs[j].txn.Some? && !w.txns[w.jobs[j].home].aborting
    ensures j in w.txns[w.jobs[j].home].members
    ensures w.jobs[j].pauses.user ==> w.jobs[j].pauses.count > 0
    ensures var t, k := w.jobs[j].home, CancelAsync(w.jobs[j], true);
      && AbortReady(SetJob(w, j, k), t, j)
      && (!Started(k.exec) && k.status.Created? ==> AbortReady(SetJob(w, j, UpdateRc(k)), t, j))
  {
    hide JobOk, UpdateRc, Finalizable, DoneOk, LoopOk, CancelAsync, Inv, StandingOk, PendingTogether;
    Facts(w, j);
    CancelAsyncOk(w.jobs[j], true);
    CancelledOk(w.jobs[j]);
    var t, k := w.jobs[j].home, CancelAsync(w.jobs[j], true);
    NotHeld(w, t, j);
    AbortReadyWith(w, t, j, k);
    if !Started(k.exec) && k.status.Created? {
      AbortReadyWith(w, t, j, UpdateRc(k));
    }
  }

  /** What a call that concerns one job alone does to it. */
  function SoloJob(j: Job, step: Step): Job
    requires Solo(step) && JobOk(j) && SoloContract(j, step)
  {
    match step
    case Start(_) => Begin(j)
    case AtPausePoint(_) => PausePoint(j)
    case YieldTo(_, sleep) => Yield(j, sleep)
    case Proceed(_) => Continue(j)
    case BecomeReady(_) => Transition(j, Ready)
    case RunReturns(_, ret) => Return(j, ret)
    case PauseJob(_) => Pause(j)
    case ResumeJob(_) => Resume(j)
    case UserPauses(_) => UserPause(j)
    case UserResumes(_) => UserResume(j)
    case IoError(_, stop) => if stop then StopOnError(j) else j
    case EnterJob(_) => j.(exec := Enter(j.exec))
    case TimerFires(_) => j.(exec := Enter(j.exec.(timer := false)))
    case Dismiss(_) => if VerbAllowed(DismissVerb, j.status) then Dismissed(j) else j
    case RefJob(_) => j.(refs := j.refs.(count := j.refs.count + 1, ext := j.refs.ext + 1))
    case UnrefJob(_) => Unref(j.(refs := j.refs.(ext := j.refs.ext - 1)))
  }

  lemma {:induction false} SoloOk(j: Job, step: Step)
    requires Solo(step) && JobOk(j) && SoloContract(j, step)
    ensures JobOk(SoloJob(j, step)) && SameStanding(j, SoloJob(j, step))
    ensures Completed(j.status) ==> Completed(SoloJob(j, step).status)
  {
    hide PausePoint, Yield, Continue, Pause, Resume, UserPause, UserResume, StopOnError, Begin, Return, Enter,
         PausesOk, OutcomeOk, RefsOk;
    match step {
      case Start(_) => BeginOk(j);
      case AtPausePoint(_) => PausePointOk(j);
      case YieldTo(_, sleep) => YieldOk(j, sleep);
      case Proceed(_) => ContinueOk(j);
      case RunReturns(_, ret) => ReturnOk(j, ret);
      case PauseJob(_) => PauseOk(j);
      case ResumeJob(_) => ResumeOk(j);
      case UserPauses(_) => UserPauseOk(j);
      case UserResumes(_) => UserResumeOk(j);
      case IoError(_, stop) => StopOnErrorOk(j);
      case EnterJob(_) => EnterOk(j.status, j.exec, j.ret);
      case TimerFires(_) => EnterOk(j.status, j.exec.(timer := false), j.ret);
      case _ => SoloRest(j, step);
    }
  }

  lemma SoloRest(j: Job, step: Step)
    requires JobOk(j) && (step.BecomeReady? || step.Dismiss? || step.RefJob? || step.UnrefJob?) && SoloContract(j, step)
    ensures JobOk(SoloJob(j, step)) && SameStanding(j, SoloJob(j, step))
    ensures Completed(j.status) ==> Completed(SoloJob(j, step).status)
  {
    hide PausesOk;
  }

  lemma UserPauseOk(j: Job)
    requires JobOk(j)
    ensures Enterable(j.exec) && JobOk(UserPause(j)) && SameStanding(j, UserPause(j))
  {
    hide ExecOk, OutcomeOk, RefsOk, PausesOk, PauseForUser, VerbAllowed;
    EnterOk(j.status, j.exec, j.ret);
    if !j.pauses.user {
      PauseForUserOk(j);
    }
  }

  /** job_cancel_locked */
  function Cancelled(w: World, j: nat, answer: bool): World
    requires Inv(w) && CancelContract(w, j, false, answer)
  {
    Facts(w, j);
    CancelCases(w.jobs[j], answer);
    var t, k := w.jobs[j].home, CancelAsync(w.jobs[j], answer);
    if w.jobs[j].status.Concluded? then SetJob(w, j, Dismissed(w.jobs[j]))
    else if !Started(k.exec) then
      CancelReady(w, j);
      Abort(SetJob(w, j, UpdateRc(k)), t, j, 1)
    else if k.exec.deferred then
      if !k.forceCancel then SetJob(w, j, k)
      else if w.txns[t].aborting then SetJob(w, j, k)
      else
        ForcedReady(w, j, answer);
        Abort(SetJob(w, j, k), t, j, 1)
    else SetJob(w, j, k.(exec := Enter(k.exec)))
  }

  lemma CancelCases(j: Job, answer: bool)
    requires JobOk(j) && !j.status.Null?
    requires !(j.status.Ready? || j.status.Standby?) ==> answer
    ensures j.pauses.user ==> j.pauses.count > 0
    ensures j.status.Concluded? ==> Allowed(j.status, Null) && !j.exec.timer
    ensures Enterable(CancelAsync(j, answer).exec) && (!Started(j.exec) ==> answer)
  {
    hide RefsOk, OutcomeOk;
  }

  /** A cancel request that leaves a finished job force-cancelled makes its transaction ready to be aborted for it. */
  lemma ForcedReady(w: World, j: nat, answer: bool)
    requires Inv(w) && j in w.jobs && w.jobs[j].txn.Some? && !w.txns[w.jobs[j].home].aborting
    requires w.jobs[j].pauses.user ==> w.jobs[j].pauses.count > 0
    requires w.jobs[j].exec.deferred && CancelAsync(w.jobs[j], answer).forceCancel
    ensures AbortReady(SetJob(w, j, CancelAsync(w.jobs[j], answer)), w.jobs[j].home, j)
  {
    hide JobOk, Finalizable, DoneOk, LoopOk, CancelAsync, Inv, StandingOk, PendingTogether;
    Facts(w, j);
    CancelAsyncOk(w.jobs[j], answer);
    ForcedCompleted(CancelAsync(w.jobs[j], answer));
    NotHeld(w, w.jobs[j].home, j);
    AbortReadyWith(w, w.jobs[j].home, j, CancelAsync(w.jobs[j], answer));
  }

  lemma ForcedCompleted(j: Job)
    requires JobOk(j) && j.txn.Some? && j.forceCancel
    ensures Completed(j.status) ==> Finalizable(j)
  {
    hide PausesOk, RefsOk;
  }

  /** job_exit */
  function Exits(w: World, j: nat, prepare: nat -> int): World
    requires Inv(w) && j in w.jobs && w.jobs[j].exec.exitPending
  {
    ExitReady(w, j);
    var t, e := w.jobs[j].home, Exited(w.jobs[j]);
    if e.ret != 0 then Abort(SetJob(w, j, e), t, j, 2)
    else Success(SetJob(w, j, Transition(e, Waiting)), t, j, prepare)
  }

  /** job_create; a job without a transaction gets one of its own */
  function WithNewJob(w: World, j: nat, txn: Option<nat>, t: nat, autoFinalize: bool, autoDismiss: bool): World
    requires txn.Some? ==> t in w.txns
  {
    var old0 := if txn.Some? then w.txns[t] else Txn(false, [], 0, 0, None, 0, false, []);
    SetTxn(SetJob(w, j, NewJob(t, autoFinalize, autoDismiss)), t,
           old0.(members := [j] + old0.members, refcnt := old0.refcnt + 1))
  }

  function Without(s: seq<nat>, j: nat): seq<nat> {
    if s == [] then [] else if s[0] == j then Without(s[1..], j) else [s[0]] + Without(s[1..], j)
  }

  /** job_early_fail */
  function FailedEarly(w: World, j: nat): World
    requires Inv(w) && j in w.jobs && w.jobs[j].status.Created?
  {
    Facts(w, j);
    var t := w.jobs[j].home;
    SetTxn(SetJob(w, j, Dismissed(w.jobs[j])), t,
           w.txns[t].(members := Without(w.txns[t].members, j), refcnt := w.txns[t].refcnt - 1))
  }

  /** job_finalize_locked */
  function FinalizedBy(w: World, j: nat, prepare: nat -> int): World
    requires Inv(w) && j in w.jobs
  {
    if !VerbAllowed(FinalizeVerb, w.jobs[j].status) then w
    else
      PendingReady(w, j);
      DoFinalize(w, w.jobs[j].home, j, prepare)
  }

  /** The abort loop goes on, if the member it waits for has completed. */
  function LoopContinued(w: World, t: nat): World
    requires Inv(w) && t in w.txns && w.txns[t].aborter.Some?
  {
    WaitingLoopReady(w, t);
    AbortLoop(w, t)
  }

  /** One call of the job API. */
  function Apply(w: World, step: Step): World
    requires Inv(w) && Contract(w, step)
  {
    if Solo(step) then
      Facts(w, step.j);
      SetJob(w, step.j, SoloJob(w.jobs[step.j], step))
    else match step
    case NewTxn(t) => SetTxn(w, t, Txn(false, [], 1, 1, None, 0, false, []))
    case UnrefTxn(t) => SetTxn(w, t, w.txns[t].(refcnt := w.txns[t].refcnt - 1, ext := w.txns[t].ext - 1))
    case Create(j, txn, t, autoFinalize, autoDismiss) => WithNewJob(w, j, txn, t, autoFinalize, autoDismiss)
    case EarlyFail(j) => FailedEarly(w, j)
    case Exit(j, prepare) => Exits(w, j, prepare)
    case Cancel(j, force, answer) => Cancelled(w, j, answer)
    case Finalize(j, prepare) => FinalizedBy(w, j, prepare)
    case LoopGoesOn(t) => LoopContinued(w, t)
  }
}
