/**
 What the calls of the job API mean to their caller, field by field and without
 the transition functions: finalising, cancelling, pausing, resuming, sleeping.
 */
module JobCalls {
  import opened JobModel
  import opened JobInvariant
  import opened JobTransactions
  import opened JobRun
  import opened JobSafety
  import opened JobSteps
  import opened JobTheorems
  import opened JobOutcomes

  /** job_finalize: only a pending job may be finalised, and then all members end. */
  ghost predicate FinalizeMeans(w: World, r: World, j: nat, prepare: nat -> int)
    requires j in w.jobs && w.jobs[j].home in w.txns
  {
    if !w.jobs[j].status.Pending? then r == w
    else FinalizedFor(w, r, w.jobs[j].home, j, prepare) && OthersKept(w, r, w.jobs[j].home)
  }

  lemma FinalizeMeaning(w: World, j: nat, prepare: nat -> int)
    requires Inv(w) && j in w.jobs
    ensures w.jobs[j].home in w.txns && FinalizeMeans(w, FinalizedBy(w, j, prepare), j, prepare)
  {
    hide Inv, DoFinalize, FinalizedFor, JobOk, TxnOk;
    Facts(w, j);
    if w.jobs[j].status.Pending? {
      PendingReady(w, j);
      DoFinalizeMeans(w, w.jobs[j].home, j, prepare);
      DoFinalizeOthers(w, w.jobs[j].home, j, prepare);
    }
  }

  /** The coroutine goes on exactly if it had yielded, and no timer is left to wake it again. */
  predicate Awake(a: Exec, b: Exec) {
    if a.co.Yielded? then b == a.(co := Woken(a.co.back), busy := true, timer := false) else b == a
  }

  /** What a cancel request leaves of a job that stays in its transaction. */
  predicate ToldToStop(a: Job, b: Job, force: bool) {
    && StillIn(a, b) && b.status == a.status && b.ret == a.ret
    && !b.pauses.user && !b.pauses.ioError && b.pauses.internal == a.pauses.internal
    && b.forceCancel == (a.forceCancel || force)
    && (force || !a.exec.deferred ==> b.cancelled)
  }

  /** job_cancel, where `force` is what the driver made of the request. */
  predicate CancelMeans(w: World, r: World, j: nat, force: bool)
    requires j in w.jobs && w.jobs[j].home in w.txns
  {
    var a, t := w.jobs[j], w.jobs[j].home;
    && OthersKept(w, r, t) && j in r.jobs
    && if a.status.Concluded? then
         // a finished job is dismissed
         && r.jobs == w.jobs[j := r.jobs[j]] && r.jobs[j].status.Null?
         && r.jobs[j].outcome == a.outcome && r.jobs[j].refs.count == a.refs.count - 1
       else if !Started(a.exec) then
         // a job that never ran ends at once
         EndsAs(a, r.jobs[j], -125)
       else if a.exec.deferred && !w.txns[t].aborting && (force || a.forceCancel) then
         // a job that is done takes its transaction down
         GivenUp(w, r, t, {})
       else
         // a job that is running is told to stop, and woken if it sleeps
         && r.jobs == w.jobs[j := r.jobs[j]] && ToldToStop(a, r.jobs[j], force)
         && if a.exec.deferred then r.jobs[j].exec == a.exec else Awake(a.exec, r.jobs[j].exec)
  }

  lemma AskedIs(j: Job, force: bool)
    requires JobOk(j) && j.txn.Some?
    ensures j.pauses.user ==> j.pauses.count > 0
    ensures var k := CancelAsync(j, force);
      && ToldToStop(j, k, force) && k.exec == j.exec && k.autoDismiss == j.autoDismiss && k.home == j.home
      && Enterable(k.exec) && Awake(k.exec, Enter(k.exec))
  {
    hide RefsOk;
  }

  lemma NeverRan(w: World, j: nat, t: nat, k: Job)
    requires t in w.txns && w.txns[t].members == [j] && j in w.jobs && !Started(w.jobs[j].exec) && w.jobs[j].ret == 0
    requires !Started(k.exec) && k.autoDismiss == w.jobs[j].autoDismiss && k.ret == -125 && Completed(k.status)
    requires AbortReady(SetJob(w, j, k), t, j)
    ensures var r := Abort(SetJob(w, j, k), t, j, 1); j in r.jobs && EndsAs(w.jobs[j], r.jobs[j], -125)
  {
    hide AbortReady, Abort, EndsAs;
    var w1 := SetJob(w, j, k);
    AbortEach(w1, t, j, 1, 0);
    EndSame(w.jobs[j], k);
  }

  lemma FreshError(j: Job, k: Job)
    requires JobOk(j) && !Started(j.exec) && j.txn.Some? && j.status.Created?
    requires k == j.(pauses := k.pauses, cancelled := k.cancelled, forceCancel := true)
    ensures j.ret == 0 && Allowed(k.status, Aborting)
    ensures var u := UpdateRc(k);
      u.ret == -125 && !Started(u.exec) && u.autoDismiss == j.autoDismiss && Completed(u.status) && u.home == j.home
  {
    hide RefsOk, PausesOk;
  }

  /** A job that is done takes its transaction down with it. */
  lemma DoneTakesDown(w: World, j: nat, t: nat, k: Job)
    requires t in w.txns && j in w.txns[t].members && j in w.jobs && JobOk(w.jobs[j]) && w.jobs[j].txn.Some?
    requires AbortReady(SetJob(w, j, k), t, j) && ToldToStop(w.jobs[j], k, true) && k.cancelled && k.forceCancel
    requires k.exec == w.jobs[j].exec && k.autoDismiss == w.jobs[j].autoDismiss
    ensures GivenUp(w, Abort(SetJob(w, j, k), t, j, 1), t, {})
  {
    hide AbortReady, Abort, EndsAs, JobOk;
    var w1, all := SetJob(w, j, k), w.txns[t].members;
    var r := Abort(w1, t, j, 1);
    EndSame(w.jobs[j], k);
    forall i | 0 <= i < |all|
      ensures GivenUpAt(w, r, all, {}, i)
    {
      assert all[i] in all;
      AbortEach(w1, t, j, 1, i);
      assert DoneTo(w1, all, {}, i) <==> DoneTo(w, all, {}, i);
    }
  }

  lemma CancelMeaning(w: World, j: nat, answer: bool)
    requires Inv(w) && CancelContract(w, j, false, answer)
    ensures w.jobs[j].home in w.txns && CancelMeans(w, Cancelled(w, j, answer), j, answer)
  {
    hide Inv, JobOk, TxnOk, CancelAsync, AllStarted, Abort, UpdateRc, Finalizable, AbortReady, MemberOk, Enter, Awake,
         GivenUp, EndsAs;
    Facts(w, j);
    CancelCases(w.jobs[j], answer);
    var a, t, k := w.jobs[j], w.jobs[j].home, CancelAsync(w.jobs[j], answer);
    if a.status.Concluded? {
      DismissedIs(a);
    } else {
      InTxn(a);
      AskedIs(a, answer);
      CancelAsyncOk(a, answer);
      if !Started(k.exec) {
        CancelFresh(w, j, k);
        CancelReady(w, j);
        FreshError(a, k);
        NeverRan(w, j, t, UpdateRc(k));
        SetOthers(w, j, UpdateRc(k));
        AbortOthers(SetJob(w, j, UpdateRc(k)), t, j, 1);
        OthersTrans(w, SetJob(w, j, UpdateRc(k)), Cancelled(w, j, answer), t);
      } else if k.exec.deferred && k.forceCancel && !w.txns[t].aborting {
        ForcedReady(w, j, answer);
        SetOthers(w, j, k);
        ForcedAsked(a, k, answer);
        DoneTakesDown(w, j, t, k);
        AbortOthers(SetJob(w, j, k), t, j, 1);
        AbortAfter(SetJob(w, j, k), t, j, 1);
        OthersTrans(w, SetJob(w, j, k), Cancelled(w, j, answer), t);
      }
    }
  }

  lemma SetOthers(w: World, j: nat, k: Job)
    requires j in w.jobs
    ensures OthersKept(w, SetJob(w, j, k), w.jobs[j].home)
  {
  }

  lemma ForcedAsked(a: Job, k: Job, answer: bool)
    requires JobOk(k) && ToldToStop(a, k, answer) && (a.forceCancel || answer)
    ensures ToldToStop(a, k, true) && k.cancelled
  {
    hide ExecOk, PausesOk, RefsOk, OutcomeOk;
  }

  lemma DismissedIs(j: Job)
    requires Allowed(j.status, Null) && !j.exec.timer
    ensures var d := Dismissed(j);
      d.status.Null? && d.outcome == j.outcome && d.refs.count == j.refs.count - 1 && d.home == j.home
  {
  }

  /** The abort loop goes on: the members it now reaches end, the others are left alone. */
  predicate LoopMeans(w: World, r: World, t: nat)
    requires t in w.txns
  {
    var members := w.txns[t].members;
    && OthersKept(w, r, t)
    && forall i :: 0 <= i < |members| ==> LoopMeansAt(w, r, members, i)
  }

  predicate LoopMeansAt(w: World, r: World, members: seq<nat>, i: nat)
    requires i < |members|
  {
    && members[i] in w.jobs && members[i] in r.jobs
    && var a, b := w.jobs[members[i]], r.jobs[members[i]];
    if DoneTo(w, members, {}, i) then EndsAs(a, b, ErrorOf(a)) else b == a
  }

  lemma LoopMeaning(w: World, t: nat)
    requires Inv(w) && t in w.txns && w.txns[t].aborter.Some?
    ensures LoopMeans(w, LoopContinued(w, t), t)
  {
    hide Inv, JobOk, AbortLoop, EndsAs, Lead, MemberOk;
    WaitingLoopReady(w, t);
    var r, all := LoopContinued(w, t), w.txns[t].members;
    AborterHome(w, t);
    LoopOthers(w, t);
    forall i | 0 <= i < |all|
      ensures LoopMeansAt(w, r, all, i)
    {
      assert all[i] in all;
      LoopEach(w, t, i);
      LeadReaches(w.jobs, all, i);
      MemberHome(w, t, all[i]);
      AbortingError(w.txns[t], w.jobs[all[i]]);
    }
  }

  lemma AborterHome(w: World, t: nat)
    requires Inv(w) && t in w.txns && w.txns[t].aborter.Some?
    ensures w.txns[t].aborting && w.txns[t].aborter.value in w.jobs && w.jobs[w.txns[t].aborter.value].home == t
  {
    hide JobsOk, MemberOk;
    assert TxnOk(w, t);
  }

  /** Members of an aborting transaction end with an error. */
  lemma AbortingError(txn: Txn, j: Job)
    requires txn.aborting && MemberOk(txn, j)
    ensures !ReturnedWell(j) && (if j.ret == 0 && j.forceCancel then -125 else j.ret) == ErrorOf(j)
  {
  }

  // ----- calls that concern one job alone

  /** The job stands at its pause point and remembers the status to return to. */
  predicate Parks(a: Job, b: Job) {
    && b == a.(status := b.status, exec := a.exec.(paused := true, busy := false, co := Yielded(Some(a.status))))
    && b.status == if a.status.Ready? then Standby else Paused
  }

  /** The statuses in which a user may pause and resume a job. */
  predicate UserMayPause(s: Status) {
    s in {Created, Running, Paused, Ready, Standby}
  }

  /** One more pause: a job that is not at its pause point is woken to come to it. */
  predicate PausedOnce(a: Job, b: Job) {
    && b == a.(pauses := b.pauses, exec := b.exec) && b.pauses.count == a.pauses.count + 1
    && b.exec.co != Yielded(None)
    && if a.exec.paused then b.exec == a.exec else Awake(a.exec, b.exec)
  }

  /** One pause less: the last one to go wakes the job, unless its timer will. */
  predicate ResumedOnce(a: Job, b: Job) {
    && b == a.(pauses := b.pauses, exec := b.exec) && b.pauses.count == a.pauses.count - 1
    && if a.pauses.count == 1 && !a.exec.timer then Awake(a.exec, b.exec) else b.exec == a.exec
  }

  predicate SoloMeans(a: Job, b: Job, step: Step)
    requires Solo(step)
  {
    match step
    case Start(_) =>
      && b == a.(status := Running, pauses := b.pauses, exec := b.exec) && b.pauses.count == a.pauses.count - 1
      && b.exec.co.InCo? && b.exec.busy && !b.exec.paused
    case AtPausePoint(_) => if a.pauses.count > 0 && !a.forceCancel then Parks(a, b) else b == a
    case YieldTo(_, sleep) =>
      if a.forceCancel then b == a
      else if a.pauses.count > 0 then Parks(a, b)
      else b == a.(exec := a.exec.(busy := false, co := Yielded(None), timer := sleep))
    case Proceed(_) =>
      && b == a.(status := b.status, exec := b.exec) && b.exec.co.InCo? && b.exec.busy && !b.exec.paused
      && (b.status.Running? || b.status.Ready?)
      && (a.status.Running? || a.status.Paused? ==> b.status.Running?)
    case BecomeReady(_) => b == a.(status := Ready)
    case RunReturns(_, ret) =>
      b == a.(ret := ret, exec := b.exec) && b.exec.co.Ended? && b.exec.exitPending && b.exec.deferred && b.exec.busy
    case PauseJob(_) => PausedOnce(a, b) && b.pauses.internal == a.pauses.internal + 1
    case ResumeJob(_) => ResumedOnce(a, b) && b.pauses.internal == a.pauses.internal - 1
    case UserPauses(_) =>
      if UserMayPause(a.status) && !a.pauses.user then PausedOnce(a, b) && b.pauses.user else b == a
    case UserResumes(_) =>
      if UserMayPause(a.status) && a.pauses.user then ResumedOnce(a, b) && !b.pauses.user && !b.pauses.ioError
      else b == a
    case IoError(_, stop) =>
      if !stop then b == a
      else if a.pauses.user then b == a.(pauses := a.pauses.(ioError := true))
      else PausedOnce(a, b) && b.pauses.user && b.pauses.ioError
    case EnterJob(_) => b == a.(exec := b.exec) && Awake(a.exec, b.exec)
    case TimerFires(_) => b == a.(exec := b.exec) && b.exec.co == Woken(None) && b.exec.busy && !b.exec.timer
    case Dismiss(_) =>
      if a.status.Concluded? then
        b == a.(status := Null, txn := None, exec := b.exec, refs := b.refs) && b.refs.count == a.refs.count - 1
      else b == a
    case RefJob(_) => b == a.(refs := b.refs) && b.refs.count == a.refs.count + 1
    case UnrefJob(_) => b == a.(refs := b.refs) && b.refs.count == a.refs.count - 1
  }

  lemma EnterAwakes(s: Status, e: Exec, ret: int)
    requires ExecOk(s, e, ret)
    ensures Enterable(e) && Awake(e, Enter(e)) && !Enter(e).co.Yielded?
    ensures e.paused ==> e.co != Yielded(None)
    ensures e.timer ==> e.co == Yielded(None)
  {
  }

  lemma ProceedMeans(j: Job)
    requires JobOk(j) && j.exec.co.Woken?
    ensures j.exec.co.back.Some? ==> Allowed(j.status, j.exec.co.back.value)
    ensures SoloMeans(j, Continue(j), Proceed(0))
  {
    hide OutcomeOk, PausesOk, RefsOk;
  }

  /** Pausing and resuming. */
  lemma PauseMeaning(j: Job, step: Step)
    requires step.PauseJob? || step.ResumeJob? || step.UserPauses? || step.UserResumes? || step.IoError?
    requires JobOk(j) && SoloContract(j, step)
    ensures SoloMeans(j, SoloJob(j, step), step)
  {
    hide OutcomeOk, RefsOk, ExecOk, Enter, Awake;
    ExecOf(j);
    EnterAwakes(j.status, j.exec, j.ret);
  }

  /** The job's own steps. */
  lemma RunMeaning(j: Job, step: Step)
    requires step.Start? || step.AtPausePoint? || step.YieldTo? || step.BecomeReady? || step.RunReturns?
    requires JobOk(j) && SoloContract(j, step)
    ensures SoloMeans(j, SoloJob(j, step), step)
  {
    hide OutcomeOk, RefsOk, ExecOk, PausesOk;
    ExecOf(j);
  }

  /** Every call on one job does what its name says. */
  lemma SoloMeaning(j: Job, step: Step)
    requires Solo(step) && JobOk(j) && SoloContract(j, step)
    ensures SoloMeans(j, SoloJob(j, step), step)
  {
    hide JobOk, Enter, Awake, Continue, PausedOnce, ResumedOnce, Parks, Pause, Resume, UserPause, UserResume,
         StopOnError, PausePoint, Yield;
    match step {
      case Start(_) => RunMeaning(j, step);
      case AtPausePoint(_) => RunMeaning(j, step);
      case YieldTo(_, _) => RunMeaning(j, step);
      case BecomeReady(_) => RunMeaning(j, step);
      case RunReturns(_, _) => RunMeaning(j, step);
      case PauseJob(_) => PauseMeaning(j, step);
      case ResumeJob(_) => PauseMeaning(j, step);
      case UserPauses(_) => PauseMeaning(j, step);
      case UserResumes(_) => PauseMeaning(j, step);
      case IoError(_, _) => PauseMeaning(j, step);
      case Proceed(_) => ProceedMeans(j);
      case EnterJob(_) =>
        ExecOf(j);
        EnterAwakes(j.status, j.exec, j.ret);
      case TimerFires(_) => TimerWakes(j);
      case _ =>
    }
  }

  lemma ExecOf(j: Job)
    requires JobOk(j)
    ensures ExecOk(j.status, j.exec, j.ret) && (j.exec.co.InCo? ==> j.exec.busy && !j.exec.paused)
  {
  }

  lemma TimerWakes(j: Job)
    requires JobOk(j) && j.exec.timer
    ensures var e := j.exec.(timer := false);
      Enterable(e) && Enter(e).co == Woken(None) && Enter(e).busy && !Enter(e).timer
  {
  }

  // ----- creating jobs, and giving them up before they run

  /** job_create: the new job waits to be started, paused once, and heads the list of its transaction. */
  predicate CreateMeans(w: World, r: World, j: nat, t: nat) {
    && j in r.jobs && r.jobs == w.jobs[j := r.jobs[j]]
    && t in r.txns && r.txns == w.txns[t := r.txns[t]]
    && r.txns[t].members == [j] + (if t in w.txns then w.txns[t].members else [])
    && var k := r.jobs[j];
    && k.status.Created? && !Started(k.exec) && k.exec.paused && !k.exec.busy && k.pauses.count == 1 && !k.pauses.user
    && k.refs.count == 1 && k.ret == 0 && !k.cancelled && !k.forceCancel && k.outcome == NoOutcome && k.txn == Some(t)
  }

  lemma CreateMeaning(w: World, j: nat, txn: Option<nat>, t: nat, autoFinalize: bool, autoDismiss: bool)
    requires CreateContract(w, j, txn, t)
    ensures var r := WithNewJob(w, j, txn, t, autoFinalize, autoDismiss);
      && CreateMeans(w, r, j, t)
      && r.jobs[j].autoFinalize == autoFinalize && r.jobs[j].autoDismiss == autoDismiss
  {
  }

  /** job_early_fail: the job is gone without an outcome, and its transaction goes on with the other members. */
  ghost predicate EarlyFailMeans(w: World, r: World, j: nat)
    requires j in w.jobs && w.jobs[j].home in w.txns
  {
    var t := w.jobs[j].home;
    && j in r.jobs && r.jobs == w.jobs[j := r.jobs[j]]
    && r.jobs[j].status.Null? && r.jobs[j].outcome == NoOutcome && r.jobs[j].txn == None
    && r.jobs[j].refs.count == w.jobs[j].refs.count - 1
    && t in r.txns && r.txns == w.txns[t := r.txns[t]] && r.txns[t].aborting == w.txns[t].aborting
    && forall m :: m in r.txns[t].members <==> m in w.txns[t].members && m != j
  }

  lemma EarlyFailMeaning(w: World, j: nat)
    requires Inv(w) && j in w.jobs && w.jobs[j].status.Created?
    ensures w.jobs[j].home in w.txns && EarlyFailMeans(w, FailedEarly(w, j), j)
  {
    hide Inv, StandingOk, PendingTogether, DoneOk, LoopOk, ExecOk, PausesOk, RefsOk;
    Facts(w, j);
    DismissFresh(w.jobs[j]);
    DismissedIs(w.jobs[j]);
    WithoutIs(w.txns[w.jobs[j].home].members, j);
  }
}
