/** The job layer in place: the calls as the source runs them, loop by loop, over the list of jobs. */
module JobManager {
  import opened JobModel
  import opened JobInvariant
  import opened JobTransactions
  import opened JobRun
  import opened JobSafety
  import opened JobSteps
  import opened JobOutcomes
  import opened JobCalls

  class Jobs {
    var jobs: map<nat, Job>
    var txns: map<nat, Txn>

    function State(): World
      reads this
    {
      World(jobs, txns)
    }

    constructor ()
      ensures State() == World(map[], map[])
    {
      jobs, txns := map[], map[];
    }

    /** job_finalize_single_locked for the first member of the list */
    method FinalizeSingle(t: nat)
      requires t in txns && txns[t].members != [] && PrefixFinalizable(State(), t, 1)
      modifies this
      ensures State() == FinalizePrefix(old(State()), t, 1)
    {
      var txn := txns[t];
      var j := txn.members[0];
      assert txn.members[..1] == [j];
      jobs := jobs[j := Finalized(jobs[j])];
      txns := txns[t := txn.(members := txn.members[1..], refcnt := txn.refcnt - 1, done := txn.done + [j])];
      assert jobs == FinalizePrefix(old(State()), t, 1).jobs;
    }

    /** job_txn_apply_locked with job_finalize_single_locked, for the first `k` members */
    method FinalizeFirst(t: nat, k: nat)
      requires t in txns && MembersOk(State(), t) && PrefixFinalizable(State(), t, k)
      modifies this
      ensures State() == FinalizePrefix(old(State()), t, k)
    {
      hide Finalized, Finalizable, MembersOk;
      ghost var w := State();
      PrefixNone(w, t);
      var i := 0;
      while i < k
        invariant 0 <= i <= k && PrefixFinalizable(w, t, i) && State() == FinalizePrefix(w, t, i)
      {
        PrefixNext(w, t, i, k);
        FinalizeSingle(t);
        i := i + 1;
      }
    }

    /** job_completed_txn_abort_locked, first loop: cancel every other member by force */
    method CancelOthers(t: nat, j: nat)
      requires t in txns && MembersOk(State(), t)
      requires forall m :: m in txns[t].members ==> JobOk(jobs[m])
      modifies this`jobs
      ensures jobs.Keys == old(jobs).Keys
      ensures forall k :: k in jobs ==>
        (k in txns[t].members && k != j ==> old(jobs[k].pauses.user ==> jobs[k].pauses.count > 0))
      ensures forall k :: k in jobs ==>
        jobs[k] == if k in txns[t].members && k != j then CancelAsync(old(jobs)[k], true) else old(jobs)[k]
    {
      hide JobOk, CancelAsync;
      var members := txns[t].members;
      ghost var before := jobs;
      forall m | m in members
        ensures before[m].pauses.user ==> before[m].pauses.count > 0
      {
        CancelAsyncOk(before[m], true);
      }
      for i := 0 to |members|
        invariant jobs.Keys == before.Keys
        invariant forall k :: k in jobs ==>
          jobs[k] == if k in members[..i] && k != j then CancelAsync(before[k], true) else before[k]
      {
        var m := members[i];
        assert m in members && m !in members[..i];
        assert members[..i + 1] == members[..i] + [m];
        if m != j {
          jobs := jobs[m := CancelAsync(jobs[m], true)];
        }
      }
      assert members[..|members|] == members;
    }

    /** The end of job_completed_txn_abort_locked: give back what the loop held */
    method ReleaseAborter(t: nat)
      requires t in txns && txns[t].aborter.Some? && txns[t].aborter.value in jobs
      requires JobOk(jobs[txns[t].aborter.value]) && jobs[txns[t].aborter.value].refs.held == txns[t].hold
      modifies this
      ensures State() == EndLoop(old(State()), t)
    {
      hide JobOk, Release;
      var txn := txns[t];
      var j := txn.aborter.value;
      ReleaseOk(jobs[j], txn.hold);
      jobs := jobs[j := Release(jobs[j], txn.hold)];
      txns := txns[t := txn.(aborter := None, hold := 0, refcnt := txn.refcnt - 1)];
    }

    /** job_completed_txn_abort_locked, second loop: finalise members until one is still running */
    method RunAbortLoop(t: nat)
      requires t in txns && LoopReady(State(), t)
      modifies this
      ensures State() == AbortLoop(old(State()), t)
    {
      hide LoopReady, MembersOk, JobOk, Completed, FinalizePrefix, PrefixFinalizable, AbortLoop, EndLoop, Lead;
      ghost var w := State();
      ghost var k := Lead(w.jobs, w.txns[t].members);
      LoopBegins(w, t);
      ghost var i := 0;
      while txns[t].members != [] && Completed(jobs[txns[t].members[0]].status)
        invariant 0 <= i <= k && PrefixFinalizable(w, t, i) && State() == FinalizePrefix(w, t, i)
        invariant t in txns && (txns[t].members != [] ==> txns[t].members[0] in jobs)
        invariant i < k <==> txns[t].members != [] && Completed(jobs[txns[t].members[0]].status)
        decreases k - i
      {
        LoopNext(w, t, i);
        FinalizeSingle(t);
        i := i + 1;
      }
      LoopDone(w, t);
      if txns[t].members == [] {
        ReleaseAborter(t);
      }
    }

    /** job_completed_txn_abort_locked */
    method CompletedTxnAbort(t: nat, j: nat, hold: nat)
      requires t in txns && (!txns[t].aborting ==> AbortReady(State(), t, j))
      modifies this
      ensures State() == Abort(old(State()), t, j, hold)
      ensures !old(txns)[t].aborting ==>
        forall i :: 0 <= i < |old(txns)[t].members| ==> AbortedAt(old(State()), State(), old(txns)[t].members, j, i)
    {
      hide JobOk, Finalizable, CancelAsync, Completed, Marked, AbortLoop, AbortedAt;
      if txns[t].aborting {
        return;
      }
      MarkedReady(State(), t, j, hold);
      forall i | 0 <= i < |txns[t].members|
        ensures AbortedAt(State(), Abort(State(), t, j, hold), txns[t].members, j, i)
      {
        AbortEach(State(), t, j, hold, i);
      }
      MarkAborting(t, j, hold);
      RunAbortLoop(t);
    }

    /** The first half of job_completed_txn_abort_locked */
    method MarkAborting(t: nat, j: nat, hold: nat)
      requires t in txns && AbortReady(State(), t, j)
      modifies this
      ensures t in txns && State() == Marked(old(State()), t, j, hold)
    {
      hide JobOk, Finalizable, CancelAsync, Completed;
      var txn := txns[t];
      CancelOthers(t, j);
      txns := txns[t := txn.(aborting := true, refcnt := txn.refcnt + 1, aborter := Some(j), hold := hold)];
      jobs := jobs[j := Hold(jobs[j], hold)];
      assert jobs == Marked(old(State()), t, j, hold).jobs;
    }

    /** job_txn_apply_locked with job_prepare_locked: stops at the first member whose callback fails */
    method PrepareAll(t: nat, prepare: nat -> int) returns (rc: int, ghost failed: Option<nat>)
      requires t in txns && AllPending(State(), t)
      modifies this`jobs
      ensures failed == FirstFailure(txns[t].members, prepare)
      ensures rc == 0 <==> failed.None?
      ensures rc == 0 ==> jobs == old(jobs)
      ensures rc != 0 ==>
        && failed.value in old(jobs) && Allowed(old(jobs)[failed.value].status, Aborting)
        && jobs == old(jobs)[failed.value := UpdateRc(old(jobs)[failed.value].(ret := prepare(failed.value)))]
    {
      hide JobOk, UpdateRc, MembersOk;
      var members := txns[t].members;
      ghost var before := jobs;
      failed := None;
      for i := 0 to |members|
        invariant jobs == before
        invariant FirstFailure(members, prepare) == FirstFailure(members[i..], prepare)
      {
        var m := members[i];
        PendingMember(State(), t, m);
        assert members[i..][1..] == members[i + 1..];
        rc := prepare(m);
        var job := UpdateRc(jobs[m].(ret := rc));
        if rc != 0 {
          failed := Some(m);
          jobs := jobs[m := job];
          return;
        }
        PreparedSame(jobs[m], rc);
        jobs := jobs[m := job];
        assert jobs == before;
      }
      rc := 0;
    }

    /** job_do_finalize_locked */
    method DoFinalizeJob(t: nat, j: nat, prepare: nat -> int)
      requires t in txns && AllPending(State(), t) && j in txns[t].members
      modifies this
      ensures State() == DoFinalize(old(State()), t, j, prepare)
      ensures FinalizedFor(old(State()), State(), t, j, prepare)
    {
      hide JobOk, UpdateRc, FinalizePrefix, Abort, AbortReady, FinalizedFor;
      DoFinalizeMeans(State(), t, j, prepare);
      ghost var w := State();
      var rc;
      ghost var failed;
      rc, failed := PrepareAll(t, prepare);
      if rc != 0 {
        txns := txns[t := txns[t].(prepareFailed := true)];
        FailedReady(w, t, failed.value, prepare(failed.value), j);
        assert State() == Failed(w, t, failed.value, prepare(failed.value));
        CompletedTxnAbort(t, j, 1);
      } else {
        PendingFinalizable(w, t);
        FinalizeFirst(t, |txns[t].members|);
      }
    }

    /** The scan of job_completed_txn_success_locked for members that still run */
    method AnyRunning(t: nat) returns (running: bool)
      requires t in txns && MembersOk(State(), t)
      ensures running <==> !AllCompleted(State(), t)
    {
      hide Completed;
      var members := txns[t].members;
      for i := 0 to |members|
        invariant forall m :: m in members[..i] ==> Completed(jobs[m].status)
      {
        assert members[i] in members;
        if !Completed(jobs[members[i]].status) {
          return true;
        }
        assert members[..i + 1] == members[..i] + [members[i]];
      }
      assert members[..|members|] == members;
      running := false;
    }

    /** job_txn_apply_locked with job_transition_to_pending_locked */
    method AllToPending(t: nat)
      requires t in txns && WaitingTogether(State(), t) && AllCompleted(State(), t)
      modifies this`jobs
      ensures State() == ToPending(old(State()), t)
    {
      hide JobOk;
      var members := txns[t].members;
      ghost var before := jobs;
      for i := 0 to |members|
        invariant jobs.Keys == before.Keys
        invariant forall k :: k in jobs ==>
          jobs[k] == if k in members[..i] then before[k].(status := JobModel.Pending) else before[k]
      {
        var m := members[i];
        assert m in members && m !in members[..i];
        assert members[..i + 1] == members[..i] + [m];
        jobs := jobs[m := Transition(jobs[m], JobModel.Pending)];
      }
      assert members[..|members|] == members;
      assert jobs == ToPending(old(State()), t).jobs;
    }

    /** job_txn_apply_locked with job_needs_finalize_locked */
    method NeedsFinalize(t: nat) returns (rc: bool)
      requires t in txns && MembersOk(State(), t)
      ensures rc <==> exists m :: m in txns[t].members && !jobs[m].autoFinalize
    {
      var members := txns[t].members;
      for i := 0 to |members|
        invariant forall m :: m in members[..i] ==> jobs[m].autoFinalize
      {
        assert members[i] in members;
        if !jobs[members[i]].autoFinalize {
          return true;
        }
        assert members[..i + 1] == members[..i] + [members[i]];
      }
      assert members[..|members|] == members;
      rc := false;
    }

    /** job_completed_txn_success_locked, once `j` is WAITING */
    method CompletedTxnSuccess(t: nat, j: nat, prepare: nat -> int)
      requires t in txns && WaitingTogether(State(), t) && j in txns[t].members
      modifies this
      ensures State() == Success(old(State()), t, j, prepare)
      ensures SuccessMeans(old(State()), State(), t, j, prepare)
    {
      hide JobOk, DoFinalize, AllCompleted, SuccessMeans, FinalizedFor;
      SuccessMeaning(State(), t, j, prepare);
      var running := AnyRunning(t);
      if running {
        return;
      }
      ghost var w := State();
      ToPendingReady(w, t);
      AllToPending(t);
      PendingSame(w, t);
      var rc := NeedsFinalize(t);
      if !rc {
        DoFinalizeJob(t, j, prepare);
      }
    }

    /** job_exit with job_completed_locked */
    method JobExit(j: nat, prepare: nat -> int)
      requires Inv(State()) && j in jobs && jobs[j].exec.exitPending && AllStarted(State(), jobs[j].home)
      modifies this
      ensures State() == Exits(old(State()), j, prepare) && Inv(State())
      ensures old(jobs)[j].home in old(txns) && ExitMeans(old(State()), State(), j, prepare)
    {
      hide Inv, JobOk, Exited, Abort, Success, AllStarted, AbortReady, WaitingTogether, ExitMeans, SuccessMeans;
      ghost var w := State();
      ExitMeaning(w, j, prepare);
      ExitReady(w, j);
      ExitInv(w, j, prepare);
      var t, e := jobs[j].home, Exited(jobs[j]);
      if e.ret != 0 {
        jobs := jobs[j := e];
        CompletedTxnAbort(t, j, 2);
      } else {
        jobs := jobs[j := Transition(e, Waiting)];
        CompletedTxnSuccess(t, j, prepare);
      }
    }

    /** job_cancel_locked */
    method JobCancel(j: nat, force: bool, answer: bool)
      requires Inv(State()) && CancelContract(State(), j, force, answer)
      modifies this
      ensures State() == Cancelled(old(State()), j, answer) && Inv(State())
      ensures old(jobs)[j].home in old(txns) && CancelMeans(old(State()), State(), j, answer)
    {
      hide Inv, JobOk, Abort, AllStarted, AbortReady, Dismissed, CancelAsync, UpdateRc, Enter, CancelMeans;
      ghost var w := State();
      CancelMeaning(w, j, answer);
      CancelInv(w, j, answer);
      Facts(w, j);
      CancelCases(jobs[j], answer);
      CancelAsyncOk(jobs[j], answer);
      if jobs[j].status.Concluded? {
        jobs := jobs[j := Dismissed(jobs[j])];
        return;
      }
      InTxn(jobs[j]);
      var t, k := jobs[j].home, CancelAsync(jobs[j], answer);
      if !Started(k.exec) {
        CancelFresh(w, j, k);
        CancelReady(w, j);
        jobs := jobs[j := UpdateRc(k)];
        CompletedTxnAbort(t, j, 1);
      } else if k.exec.deferred {
        if k.forceCancel && !txns[t].aborting {
          ForcedReady(w, j, answer);
        }
        jobs := jobs[j := k];
        if k.forceCancel {
          if txns[t].aborting {
            AbortNothing(State(), t, j, 1);
          }
          CompletedTxnAbort(t, j, 1);
        }
      } else {
        jobs := jobs[j := k.(exec := Enter(k.exec))];
      }
    }

    /** job_finalize_locked */
    method JobFinalize(j: nat, prepare: nat -> int)
      requires Inv(State()) && Alive(State(), j)
      modifies this
      ensures State() == FinalizedBy(old(State()), j, prepare) && Inv(State())
      ensures old(jobs)[j].home in old(txns) && FinalizeMeans(old(State()), State(), j, prepare)
    {
      hide Inv, DoFinalize, FinalizeMeans, FinalizedFor;
      FinalizeMeaning(State(), j, prepare);
      if VerbAllowed(FinalizeVerb, jobs[j].status) {
        FinalizeInv(State(), j, prepare);
        PendingReady(State(), j);
        DoFinalizeJob(jobs[j].home, j, prepare);
      }
    }

    /** The abort loop goes on after a member it waited for has completed. */
    method AbortLoopGoesOn(t: nat)
      requires Inv(State()) && t in txns && txns[t].aborter.Some?
      modifies this
      ensures State() == LoopContinued(old(State()), t) && Inv(State())
      ensures LoopMeans(old(State()), State(), t)
    {
      hide Inv, AbortLoop, LoopMeans;
      LoopMeaning(State(), t);
      LoopInv(State(), t);
      WaitingLoopReady(State(), t);
      RunAbortLoop(t);
    }

    // ----- calls that concern one job alone, field by field

    /**
     job_enter_cond_locked without a condition.  Its three tests come to one: a
     job is woken exactly when its coroutine has yielded, its timer is then off,
     and nothing else about it or any other job changes.
     */
    method EnterCond(j: nat)
      requires j in jobs && Enterable(jobs[j].exec)
      modifies this`jobs
      ensures jobs == old(jobs)[j := old(jobs)[j].(exec := Enter(old(jobs)[j].exec))]
      ensures ExecOk(old(jobs)[j].status, old(jobs)[j].exec, old(jobs)[j].ret) ==> WokenWell(old(jobs)[j], jobs[j])
    {
      if !Started(jobs[j].exec) || jobs[j].exec.deferred || jobs[j].exec.busy {
        return;
      }
      var e := jobs[j].exec;
      e := e.(timer := false);
      e := e.(busy := true);
      e := e.(co := Woken(e.co.back));
      jobs := jobs[j := jobs[j].(exec := e)];
    }

    /**
     job_pause_locked, with the count of those who will take the pause back.  The
     pause is accounted for, a job that merely sleeps is brought to its pause
     point, and a pause that is not the user's is undone by resuming.
     */
    method PauseLocked(j: nat, byUser: bool)
      requires j in jobs && Enterable(jobs[j].exec) && (byUser ==> !jobs[j].pauses.user)
      modifies this`jobs
      ensures jobs == old(jobs)[j := if byUser then PauseForUser(old(jobs)[j]) else Pause(old(jobs)[j])]
      ensures jobs[j].pauses.count == old(jobs)[j].pauses.count + 1
      ensures JobOk(old(jobs)[j]) ==> PausedWell(old(jobs)[j], jobs[j], byUser)
    {
      hide JobOk, ExecOk, Enter, WokenWell, PausedWell;
      ghost var was := jobs[j];
      if JobOk(was) {
        PauseMeans(was, byUser);
      }
      var p := jobs[j].pauses;
      p := p.(count := p.count + 1);
      p := if byUser then p.(user := true) else p.(internal := p.internal + 1);
      jobs := jobs[j := jobs[j].(pauses := p)];
      if !jobs[j].exec.paused {
        EnterCond(j);
      }
    }

    /** job_resume_locked after the counter was decremented: kick the job unless a timer will */
    method KickUnpaused(j: nat)
      requires j in jobs && Enterable(jobs[j].exec)
      modifies this`jobs
      ensures jobs == old(jobs)[j := old(jobs)[j].(exec := Unpaused(old(jobs)[j].exec, old(jobs)[j].pauses.count))]
    {
      if jobs[j].pauses.count != 0 {
        return;
      }
      if !jobs[j].exec.timer {
        EnterCond(j);
      }
    }

    /** job_pause */
    method JobPause(j: nat)
      requires Inv(State()) && Alive(State(), j)
      modifies this`jobs
      ensures State() == Called(old(State()), PauseJob(j)) && Inv(State())
      ensures CallMeans(old(State()), State(), PauseJob(j))
    {
      hide Inv, JobOk, Enter, Kick, CallMeans;
      CallReady(State(), PauseJob(j));
      PauseLocked(j, false);
    }

    /** job_resume */
    method JobResume(j: nat)
      requires Inv(State()) && Alive(State(), j) && jobs[j].pauses.internal > 0
      modifies this`jobs
      ensures State() == Called(old(State()), ResumeJob(j)) && Inv(State())
      ensures CallMeans(old(State()), State(), ResumeJob(j))
    {
      hide Inv, JobOk, Enter, CallMeans, SoloJob, Unpaused;
      CallReady(State(), ResumeJob(j));
      ResumedJob(jobs[j], j);
      var p := jobs[j].pauses;
      p := p.(count := p.count - 1);
      p := p.(internal := p.internal - 1);
      jobs := jobs[j := jobs[j].(pauses := p)];
      KickUnpaused(j);
    }

    /** job_user_pause_locked */
    method JobUserPause(j: nat)
      requires Inv(State()) && Alive(State(), j)
      modifies this`jobs
      ensures State() == Called(old(State()), UserPauses(j)) && Inv(State())
      ensures CallMeans(old(State()), State(), UserPauses(j))
    {
      hide Inv, JobOk, PauseForUser, CallMeans;
      CallReady(State(), UserPauses(j));
      if !VerbAllowed(PauseVerb, jobs[j].status) {
        return;
      }
      if jobs[j].pauses.user {
        return;
      }
      PauseLocked(j, true);
    }

    /** job_user_resume_locked, with block_job_user_resume as the driver's callback */
    method JobUserResume(j: nat)
      requires Inv(State()) && Alive(State(), j)
      modifies this`jobs
      ensures State() == Called(old(State()), UserResumes(j)) && Inv(State())
      ensures CallMeans(old(State()), State(), UserResumes(j))
    {
      hide Inv, JobOk, Enter, CallMeans;
      CallReady(State(), UserResumes(j));
      if !jobs[j].pauses.user || jobs[j].pauses.count <= 0 {
        return;
      }
      if !VerbAllowed(ResumeVerb, jobs[j].status) {
        return;
      }
      var p := jobs[j].pauses;
      p := p.(ioError := false);
      p := p.(user := false);
      p := p.(count := p.count - 1);
      jobs := jobs[j := jobs[j].(pauses := p)];
      KickUnpaused(j);
    }

    /** block_job_error_action */
    method BlockJobErrorAction(j: nat, stop: bool)
      requires Inv(State()) && Alive(State(), j) && Started(jobs[j].exec) && !jobs[j].exec.deferred
      modifies this`jobs
      ensures State() == Called(old(State()), IoError(j, stop)) && Inv(State())
      ensures CallMeans(old(State()), State(), IoError(j, stop))
    {
      hide Inv, JobOk, PauseForUser, CallMeans;
      CallReady(State(), IoError(j, stop));
      if stop {
        if !jobs[j].pauses.user {
          PauseLocked(j, true);
        }
        jobs := jobs[j := jobs[j].(pauses := jobs[j].pauses.(ioError := true))];
      }
    }

    /** job_start */
    method JobStart(j: nat)
      requires Inv(State()) && Alive(State(), j) && jobs[j].status.Created?
      modifies this`jobs
      ensures State() == Called(old(State()), Start(j)) && Inv(State())
      ensures CallMeans(old(State()), State(), Start(j))
    {
      hide Inv, CallMeans;
      CallReady(State(), Start(j));
      var job := jobs[j];
      job := job.(exec := job.exec.(co := InCo));
      job := job.(pauses := job.pauses.(count := job.pauses.count - 1));
      job := job.(exec := job.exec.(busy := true));
      job := job.(exec := job.exec.(paused := false));
      job := Transition(job, Running);
      jobs := jobs[j := job];
    }

    /** job_pause_point_locked, up to its yield */
    method JobPausePoint(j: nat)
      requires Inv(State()) && Alive(State(), j) && jobs[j].exec.co.InCo?
      modifies this`jobs
      ensures State() == Called(old(State()), AtPausePoint(j)) && Inv(State())
      ensures CallMeans(old(State()), State(), AtPausePoint(j))
    {
      hide Inv, CallMeans;
      CallReady(State(), AtPausePoint(j));
      if jobs[j].pauses.count <= 0 {
        return;
      }
      if jobs[j].forceCancel {
        return;
      }
      var status := jobs[j].status;
      var job := Transition(jobs[j], if status == Ready then Standby else Paused);
      job := job.(exec := job.exec.(paused := true));
      job := job.(exec := job.exec.(busy := false));
      job := job.(exec := job.exec.(co := Yielded(Some(status))));
      jobs := jobs[j := job];
    }

    /** The rest of job_do_yield_locked and job_pause_point_locked, when the coroutine goes on */
    method JobProceed(j: nat)
      requires Inv(State()) && Alive(State(), j) && jobs[j].exec.co.Woken?
      modifies this`jobs
      ensures State() == Called(old(State()), Proceed(j)) && Inv(State())
      ensures CallMeans(old(State()), State(), Proceed(j))
    {
      hide Inv, CallMeans;
      CallReady(State(), Proceed(j));
      assert jobs[j].exec.busy;
      var job, back := jobs[j], jobs[j].exec.co.back;
      job := job.(exec := job.exec.(co := InCo));
      if back.Some? {
        job := job.(exec := job.exec.(paused := false));
        job := Transition(job, back.value);
      }
      jobs := jobs[j := job];
    }

    /** job_dismiss_locked and job_do_dismiss_locked */
    method JobDismiss(j: nat)
      requires Inv(State()) && Alive(State(), j)
      modifies this`jobs
      ensures State() == Called(old(State()), Dismiss(j)) && Inv(State())
      ensures CallMeans(old(State()), State(), Dismiss(j))
    {
      hide Inv, CallMeans;
      CallReady(State(), Dismiss(j));
      if !VerbAllowed(DismissVerb, jobs[j].status) {
        return;
      }
      var job := jobs[j];
      job := job.(exec := job.exec.(busy := false));
      job := job.(exec := job.exec.(paused := false));
      job := job.(exec := job.exec.(deferred := true));
      job := Transition(job.(txn := None), Null);
      job := job.(refs := job.refs.(count := job.refs.count - 1));
      jobs := jobs[j := job];
    }
  }

  lemma PrefixNone(w: World, t: nat)
    requires t in w.txns
    ensures PrefixFinalizable(w, t, 0) && FinalizePrefix(w, t, 0) == w
  {
    var r, txn := FinalizePrefix(w, t, 0), w.txns[t];
    assert txn.members[..0] == [] && txn.members[0..] == txn.members && txn.done + [] == txn.done;
    assert r.jobs == w.jobs && r.txns == w.txns;
  }

  /** Finalising one more member extends the finalised prefix by one. */
  lemma PrefixNext(w: World, t: nat, i: nat, k: nat)
    requires t in w.txns && MembersOk(w, t) && i < k && PrefixFinalizable(w, t, k) && PrefixFinalizable(w, t, i)
    ensures var r := FinalizePrefix(w, t, i);
      && PrefixFinalizable(w, t, i + 1) && t in r.txns && r.txns[t].members != [] && PrefixFinalizable(r, t, 1)
      && FinalizePrefix(r, t, 1) == FinalizePrefix(w, t, i + 1)
  {
    hide Finalized, Finalizable, FinalizePrefix;
    PrefixHead(w, t, i, k);
    PrefixNextJobs(w, t, i);
    PrefixNextTxns(w, t, i);
  }

  /** The member after a finalised prefix is untouched, and can be finalised as before. */
  lemma PrefixHead(w: World, t: nat, i: nat, k: nat)
    requires t in w.txns && MembersOk(w, t) && i < k && PrefixFinalizable(w, t, k) && PrefixFinalizable(w, t, i)
    ensures var r, all := FinalizePrefix(w, t, i), w.txns[t].members;
      && PrefixFinalizable(w, t, i + 1) && t in r.txns && r.txns[t].members == all[i..]
      && all[i] !in all[..i] && all[i] in r.jobs && r.jobs[all[i]] == w.jobs[all[i]] && PrefixFinalizable(r, t, 1)
  {
    hide Finalized, Finalizable;
    var all := w.txns[t].members;
    var m := all[i];
    assert all[..k][i] == m;
    assert all[..i + 1] == all[..i] + [m] && all[i..][..1] == [m];
    assert m !in all[..i];
  }

  lemma PrefixNextJobs(w: World, t: nat, i: nat)
    requires t in w.txns && PrefixFinalizable(w, t, i) && PrefixFinalizable(w, t, i + 1)
    requires var r, all := FinalizePrefix(w, t, i), w.txns[t].members;
      && t in r.txns && r.txns[t].members == all[i..] && all[i] !in all[..i] && all[i] in r.jobs
      && PrefixFinalizable(r, t, 1)
    ensures FinalizePrefix(FinalizePrefix(w, t, i), t, 1).jobs == FinalizePrefix(w, t, i + 1).jobs
  {
    hide Finalized, Finalizable;
    var all := w.txns[t].members;
    assert all[..i + 1] == all[..i] + [all[i]] && all[i..][..1] == [all[i]];
  }

  lemma PrefixNextTxns(w: World, t: nat, i: nat)
    requires t in w.txns && PrefixFinalizable(w, t, i) && PrefixFinalizable(w, t, i + 1)
    requires var r, all := FinalizePrefix(w, t, i), w.txns[t].members;
      t in r.txns && r.txns[t].members == all[i..] && PrefixFinalizable(r, t, 1)
    ensures FinalizePrefix(FinalizePrefix(w, t, i), t, 1).txns == FinalizePrefix(w, t, i + 1).txns
  {
    hide Finalized, Finalizable;
    var all, done := w.txns[t].members, w.txns[t].done;
    assert all[i..][1..] == all[i + 1..] && all[i..][..1] == [all[i]];
    assert done + all[..i] + [all[i]] == done + all[..i + 1];
  }

  /** The abort loop goes on exactly while it is inside the leading run of completed members. */
  lemma LoopGuard(w: World, t: nat, i: nat)
    requires t in w.txns && MembersOk(w, t) && PrefixFinalizable(w, t, i) && i <= Lead(w.jobs, w.txns[t].members)
    ensures var r, all := FinalizePrefix(w, t, i), w.txns[t].members;
      && t in r.txns && r.txns[t].members == all[i..]
      && (all[i..] != [] ==> all[i..][0] in r.jobs)
      && (i < Lead(w.jobs, all) <==> all[i..] != [] && Completed(r.jobs[all[i..][0]].status))
  {
    hide Finalized, Finalizable, Completed;
    var all, k := w.txns[t].members, Lead(w.jobs, w.txns[t].members);
    if i < |all| {
      assert all[i] in all;
      assert all[i] !in all[..i];
    }
    if i < k {
      assert all[..k][i] == all[i];
      assert all[i] in all[..k];
    }
  }

  lemma LoopBegins(w: World, t: nat)
    requires t in w.txns && LoopReady(w, t)
    ensures PrefixFinalizable(w, t, 0) && FinalizePrefix(w, t, 0) == w
    ensures var all := w.txns[t].members;
      && (all != [] ==> all[0] in w.jobs)
      && (0 < Lead(w.jobs, all) <==> all != [] && Completed(w.jobs[all[0]].status))
  {
    hide FinalizePrefix, PrefixFinalizable, JobOk, Finalizable, Completed;
    PrefixNone(w, t);
    LoopGuard(w, t, 0);
  }

  /** One round of the abort loop. */
  lemma LoopNext(w: World, t: nat, i: nat)
    requires t in w.txns && LoopReady(w, t) && PrefixFinalizable(w, t, i) && i < Lead(w.jobs, w.txns[t].members)
    ensures var r, all := FinalizePrefix(w, t, i), w.txns[t].members;
      && t in r.txns && r.txns[t].members != [] && PrefixFinalizable(r, t, 1) && PrefixFinalizable(w, t, i + 1)
      && FinalizePrefix(r, t, 1) == FinalizePrefix(w, t, i + 1)
    ensures var r := FinalizePrefix(w, t, i + 1);
      && t in r.txns && (r.txns[t].members != [] ==> r.txns[t].members[0] in r.jobs)
      && (i + 1 < Lead(w.jobs, w.txns[t].members) <==>
            r.txns[t].members != [] && Completed(r.jobs[r.txns[t].members[0]].status))
  {
    hide FinalizePrefix, PrefixFinalizable, JobOk, Finalizable, Completed, Lead;
    LeadFinalizable(w, t);
    PrefixNext(w, t, i, Lead(w.jobs, w.txns[t].members));
    LoopGuard(w, t, i + 1);
  }

  /** Where the abort loop stops. */
  lemma LoopDone(w: World, t: nat)
    requires t in w.txns && LoopReady(w, t)
    ensures var k := Lead(w.jobs, w.txns[t].members); PrefixFinalizable(w, t, k)
    ensures var r := FinalizePrefix(w, t, Lead(w.jobs, w.txns[t].members));
      && t in r.txns && r.txns[t].aborter.Some? && r.txns[t].aborter.value in r.jobs
      && JobOk(r.jobs[r.txns[t].aborter.value]) && r.jobs[r.txns[t].aborter.value].refs.held == r.txns[t].hold
      && AbortLoop(w, t) == if r.txns[t].members == [] then EndLoop(r, t) else r
  {
    hide FinalizePrefix, JobOk, Finalizable, Completed, EndLoop, PrefixFinalizable;
    LeadFinalizable(w, t);
    var k := Lead(w.jobs, w.txns[t].members);
    AborterKept(w, t, k);
    LoopGuard(w, t, k);
  }

  /** A prepare callback that succeeds leaves its job as it was. */
  lemma PreparedSame(j: Job, rc: int)
    requires rc == 0 && j.ret == 0 && !j.forceCancel && Allowed(j.status, Aborting)
    ensures UpdateRc(j.(ret := rc)) == j
  {
  }

  lemma PendingSame(w: World, t: nat)
    requires t in w.txns && WaitingTogether(w, t) && AllCompleted(w, t)
    ensures var p := ToPending(w, t);
      && p.txns == w.txns && MembersOk(p, t)
      && forall m :: m in w.txns[t].members ==> p.jobs[m].autoFinalize == w.jobs[m].autoFinalize
  {
    hide JobOk;
  }

  /** The state after a call that concerns one job alone. */
  function Called(w: World, step: Step): World
    requires Inv(w) && Solo(step) && Alive(w, step.j) && SoloContract(w.jobs[step.j], step)
  {
    Facts(w, step.j);
    SetJob(w, step.j, SoloJob(w.jobs[step.j], step))
  }

  lemma ResumedJob(job: Job, j: nat)
    requires JobOk(job) && SoloContract(job, ResumeJob(j)) && Enterable(job.exec)
    ensures SoloJob(job, ResumeJob(j)) ==
      job.(pauses := job.pauses.(count := job.pauses.count - 1, internal := job.pauses.internal - 1),
           exec := Unpaused(job.exec, job.pauses.count - 1))
  {
  }

  /** What the call means for its job, field by field. */
  predicate CallMeans(w: World, r: World, step: Step)
    requires Solo(step)
  {
    step.j in w.jobs && step.j in r.jobs && SoloMeans(w.jobs[step.j], r.jobs[step.j], step)
  }

  /** Such a call is a step of the model, keeps the invariant, and finds its job well-formed. */
  lemma CallReady(w: World, step: Step)
    requires Inv(w) && Solo(step) && Alive(w, step.j) && SoloContract(w.jobs[step.j], step)
    ensures JobOk(w.jobs[step.j]) && Enterable(w.jobs[step.j].exec)
    ensures Called(w, step) == Apply(w, step) && Inv(Called(w, step)) && CallMeans(w, Called(w, step), step)
  {
    hide Inv, SoloJob, SoloContract, SoloMeans;
    Facts(w, step.j);
    SoloMeaning(w.jobs[step.j], step);
    EnterOk(w.jobs[step.j].status, w.jobs[step.j].exec, w.jobs[step.j].ret);
    StepInv(w, step);
  }

  /** The job is woken exactly when its coroutine had yielded; nothing but the wakeup changes. */
  ghost predicate WokenWell(was: Job, now: Job) {
    && ExecOk(now.status, now.exec, now.ret)
    && !now.exec.co.Yielded?
    && (!was.exec.co.Yielded? ==> now == was)
    && (was.exec.co.Yielded? ==>
          now == was.(exec := was.exec.(co := Woken(was.exec.co.back), busy := true, timer := false)))
  }

  /**
   What a pause means for a well-formed job: it stays well-formed and keeps its
   place in its transaction, it does not sleep on outside a pause point, and
   resuming it takes back a pause that was not the user's.
   */
  ghost predicate PausedWell(was: Job, now: Job, byUser: bool) {
    && JobOk(now) && SameStanding(was, now)
    && now.exec.co != Yielded(None)
    && (!byUser ==> now.pauses.internal > 0 && Enterable(now.exec) && Resume(now).pauses == was.pauses)
  }

  lemma PauseMeans(j: Job, byUser: bool)
    requires JobOk(j) && Enterable(j.exec) && (byUser ==> !j.pauses.user)
    ensures PausedWell(j, if byUser then PauseForUser(j) else Pause(j), byUser)
  {
    hide OutcomeOk, RefsOk, PausesOk;
    if byUser {
      PauseForUserOk(j);
    } else {
      PauseOk(j);
    }
  }
}
