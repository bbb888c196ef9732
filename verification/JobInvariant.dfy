/** Every call of the job API keeps each job well-formed; what it may change of a job's standing in its transaction. */
module JobInvariant {
  import opened JobModel

  /** Nothing changed that the job's transaction depends on. */
  predicate SameStanding(a: Job, b: Job) {
    && b.home == a.home && b.txn == a.txn && b.outcome == a.outcome && b.refs.held == a.refs.held
    && (Started(a.exec) ==> Started(b.exec))
    && Completed(b.status) == Completed(a.status)
    && (Completed(a.status) && a.txn.Some? ==> b.status == a.status && b.forceCancel == a.forceCancel)
    && (a.forceCancel ==> b.forceCancel)
    && (a.ret != 0 && a.exec.deferred ==> b.ret != 0 && b.exec.deferred)
  }

  /** A job that can only end aborted. */
  predicate Doomed(j: Job) {
    j.forceCancel || (j.ret != 0 && j.exec.deferred)
  }

  lemma EnterOk(s: Status, e: Exec, ret: int)
    requires ExecOk(s, e, ret)
    ensures Enterable(e) && ExecOk(s, Enter(e), ret)
      && Started(Enter(e)) == Started(e) && Enter(e).deferred == e.deferred
  {
  }

  lemma BeginOk(j: Job)
    requires JobOk(j) && j.status.Created?
    ensures !Started(j.exec) && JobOk(Begin(j)) && SameStanding(j, Begin(j))
  {
  }

  lemma PausePointOk(j: Job)
    requires JobOk(j) && j.exec.co.InCo?
    ensures JobOk(PausePoint(j)) && SameStanding(j, PausePoint(j))
  {
  }

  lemma YieldOk(j: Job, timer: bool)
    requires JobOk(j) && j.exec.co.InCo?
    ensures JobOk(Yield(j, timer)) && SameStanding(j, Yield(j, timer))
  {
    hide PausePoint, OutcomeOk;
    PausePointOk(j);
  }

  lemma ContinueOk(j: Job)
    requires JobOk(j) && j.exec.co.Woken?
    ensures j.exec.co.back.Some? ==> Allowed(j.status, j.exec.co.back.value)
    ensures JobOk(Continue(j)) && SameStanding(j, Continue(j)) && Continue(j).exec.co.InCo?
  {
  }

  lemma ReturnOk(j: Job, ret: int)
    requires JobOk(j) && j.exec.co.InCo?
    ensures JobOk(Return(j, ret)) && SameStanding(j, Return(j, ret))
  {
  }

  lemma PauseOk(j: Job)
    requires JobOk(j)
    ensures Enterable(j.exec) && JobOk(Pause(j)) && SameStanding(j, Pause(j))
  {
    EnterOk(j.status, j.exec, j.ret);
  }

  lemma ResumeOk(j: Job)
    requires JobOk(j) && j.pauses.internal > 0
    ensures Enterable(j.exec) && JobOk(Resume(j)) && SameStanding(j, Resume(j))
  {
    EnterOk(j.status, j.exec, j.ret);
  }

  lemma PauseForUserOk(j: Job)
    requires JobOk(j) && !j.pauses.user
    ensures Enterable(j.exec) && JobOk(PauseForUser(j)) && SameStanding(j, PauseForUser(j))
  {
    EnterOk(j.status, j.exec, j.ret);
  }

  lemma UserResumeOk(j: Job)
    requires JobOk(j)
    ensures Enterable(j.exec) && JobOk(UserResume(j)) && SameStanding(j, UserResume(j))
  {
    hide ExecOk, OutcomeOk, Enter, VerbAllowed, RefsOk;
    EnterOk(j.status, j.exec, j.ret);
  }

  lemma StopOnErrorOk(j: Job)
    requires JobOk(j)
    ensures Enterable(j.exec) && JobOk(StopOnError(j)) && SameStanding(j, StopOnError(j))
  {
    hide ExecOk, OutcomeOk, Enter, VerbAllowed, RefsOk;
    EnterOk(j.status, j.exec, j.ret);
  }

  lemma CancelAsyncOk(j: Job, force: bool)
    requires JobOk(j)
    ensures j.pauses.user ==> j.pauses.count > 0
    ensures var k := CancelAsync(j, force);
      && JobOk(k) && !k.pauses.user
      && k == j.(pauses := k.pauses, cancelled := k.cancelled, forceCancel := k.forceCancel)
      && k.forceCancel == (j.forceCancel || force) && (force || !j.exec.deferred ==> k.cancelled)
  {
  }

  lemma FinalizedOk(j: Job)
    requires JobOk(j) && Finalizable(j)
    ensures var k := Finalized(j);
      && JobOk(k) && k.home == j.home && k.refs.held == j.refs.held && k.refs.ext == j.refs.ext
      && (k.status.Concluded? || k.status.Null?)
      && k.outcome == (if j.ret != 0 || j.forceCancel then Aborted else Committed)
  {
  }
}
