/** Each call of the job API keeps the invariant. */
module JobSteps {
  import opened JobModel
  import opened JobInvariant
  import opened JobTransactions
  import opened JobRun
  import opened JobSafety

  lemma JobsHome(w: World, t: nat)
    requires Inv(w)
    ensures HomeOk(w, t)
  {
    hide JobAt, TxnOk;
  }

  lemma OnlyRefl(w: World, t: nat)
    requires t in w.txns
    ensures OnlyTxn(w, w, t)
  {
    assert w.txns[t := w.txns[t]] == w.txns;
  }

  lemma ExitInv(w: World, j: nat, prepare: nat -> int)
    requires Inv(w) && j in w.jobs && w.jobs[j].exec.exitPending && AllStarted(w, w.jobs[j].home)
    ensures Inv(Exits(w, j, prepare))
  {
    hide Inv, JobOk, Exited, Abort, Success, AllStarted, TxnOk, Finalizable, Doomed;
    Facts(w, j);
    ExitedOk(w.jobs[j]);
    ExitReady(w, j);
    var t, e := w.jobs[j].home, Exited(w.jobs[j]);
    if e.ret == 0 {
      ExitSuccess(w, j, t, Transition(e, Waiting), prepare);
    } else if w.txns[t].aborting {
      AbortingMember(w.txns[t], e);
      MemberInv(w, j, e);
      AbortNothing(SetJob(w, j, e), t, j, 2);
    } else {
      NotHeld(w, t, j);
      DoomedByRet(e);
      AbortInv(w, t, j, e, 2);
    }
  }

  lemma DoomedByRet(j: Job)
    requires j.ret != 0 && j.exec.deferred
    ensures Doomed(j)
  {
  }

  lemma AbortingMember(txn: Txn, j: Job)
    requires txn.aborting && Started(j.exec) && j.exec.deferred && j.ret != 0 && j.status.Aborting?
    ensures MemberOk(txn, j)
  {
  }

  lemma AbortNothing(w: World, t: nat, j: nat, hold: nat)
    requires t in w.txns && w.txns[t].aborting
    ensures Abort(w, t, j, hold) == w
  {
  }

  lemma ExitSuccess(w: World, j: nat, t: nat, k: Job, prepare: nat -> int)
    requires Inv(w) && t in w.txns && j in w.jobs && w.jobs[j].home == t && j in w.txns[t].members
    requires JobOk(k) && k.home == t && k.txn == w.jobs[j].txn && k.outcome == w.jobs[j].outcome
    requires k.refs == w.jobs[j].refs && k.status.Waiting? && !k.forceCancel && !Completed(w.jobs[j].status)
    requires WaitingTogether(SetJob(w, j, k), t)
    ensures Inv(Success(SetJob(w, j, k), t, j, prepare))
  {
    hide Inv, JobOk, DoFinalize, ToPending, TxnOk, HomeOk, FinalizeStart, OnlyTxn;
    var w1 := SetJob(w, j, k);
    if !AllCompleted(w1, t) {
      MemberInv(w, j, k);
    } else {
      StartFacts(w, t, j);
      NotHeld(w, t, j);
      ReplacedHome(w, t, j, k);
      SetOnly(w, t, j, k);
      PendingStarts(w, w1, t);
      ToPendingReady(w1, t);
      var p := ToPending(w1, t);
      assert p.txns == w1.txns by {
        PendingTxns(w1, t);
      }
      HomeOfStart(p, t);
      FrameInv(w, p, t);
      DoFinalizeInv(w, p, t, j, prepare);
    }
  }

  lemma PendingTxns(w: World, t: nat)
    requires t in w.txns && WaitingTogether(w, t) && AllCompleted(w, t)
    ensures ToPending(w, t).txns == w.txns
  {
  }

  lemma HomeOfStart(w: World, t: nat)
    requires t in w.txns && FinalizeStart(w, t)
    ensures HomeOk(w, t)
  {
  }

  lemma FinalizeInv(w: World, j: nat, prepare: nat -> int)
    requires Inv(w) && j in w.jobs && w.jobs[j].status.Pending?
    ensures w.jobs[j].home in w.txns && AllPending(w, w.jobs[j].home) && j in w.txns[w.jobs[j].home].members
    ensures Inv(DoFinalize(w, w.jobs[j].home, j, prepare))
  {
    hide Inv, JobOk, DoFinalize, TxnOk, HomeOk, OnlyTxn;
    PendingReady(w, j);
    var t := w.jobs[j].home;
    StartFacts(w, t, j);
    JobsHome(w, t);
    OnlyRefl(w, t);
    DoFinalizeInv(w, w, t, j, prepare);
  }

  lemma DoneJob(j: Job)
    requires JobOk(j) && j.outcome != NoOutcome
    ensures j.txn == None
  {
  }

  lemma LoopInv(w: World, t: nat)
    requires Inv(w) && t in w.txns && w.txns[t].aborter.Some?
    ensures LoopReady(w, t) && Inv(AbortLoop(w, t))
  {
    hide JobOk, AbortLoop, HomeOk, OnlyTxn, AllCompleted, LoopReady;
    WaitingLoopReady(w, t);
    JobsHome(w, t);
    assert TxnOk(w, t);
    assert LoopStart(w, t) by {
      forall d | d in w.txns[t].done
        ensures d in w.jobs && w.jobs[d].txn == None
      {
        assert JobAt(w, d);
        DoneJob(w.jobs[d]);
      }
      LoopReadyMembers(w, t);
    }
    LoopResult(w, t);
    FrameInv(w, AbortLoop(w, t), t);
  }

  lemma LoopReadyMembers(w: World, t: nat)
    requires t in w.txns && LoopReady(w, t)
    ensures MembersOk(w, t) && w.txns[t].aborter.Some? && w.txns[t].aborter.value in w.jobs
  {
  }

  /** A cancel request for a job that goes on running, or is done already, leaves its place alone. */
  lemma CancelStays(w: World, j: nat, answer: bool, k: Job)
    requires Inv(w) && CancelContract(w, j, false, answer) && w.jobs[j].txn.Some?
    requires w.jobs[j].pauses.user ==> w.jobs[j].pauses.count > 0
    requires var c := CancelAsync(w.jobs[j], answer);
      && (k == c || (Enterable(c.exec) && k == c.(exec := Enter(c.exec))))
      && (w.jobs[j].exec.deferred ==> k == c && (!c.forceCancel || w.txns[w.jobs[j].home].aborting))
      && Started(c.exec)
    ensures Inv(SetJob(w, j, k))
  {
    hide Inv, JobOk, TxnOk, CancelAsync, AllStarted, Enter;
    Facts(w, j);
    var job, c := w.jobs[j], CancelAsync(w.jobs[j], answer);
    CancelAsyncOk(job, answer);
    CancelEnter(c);
    StillThere(w.txns[job.home], job, c, k);
    MemberInv(w, j, k);
  }

  lemma CancelEnter(c: Job)
    requires JobOk(c)
    ensures Enterable(c.exec) && JobOk(c.(exec := Enter(c.exec))) && Started(Enter(c.exec)) == Started(c.exec)
    ensures Enter(c.exec).deferred == c.exec.deferred
    ensures Completed(c.status) && c.txn.Some? && Started(c.exec) ==> c.exec.deferred
  {
    hide OutcomeOk, PausesOk, RefsOk;
    EnterOk(c.status, c.exec, c.ret);
  }

  lemma StillThere(txn: Txn, job: Job, c: Job, k: Job)
    requires MemberOk(txn, job) && Started(c.exec) && Started(k.exec)
    requires c == job.(pauses := c.pauses, cancelled := c.cancelled, forceCancel := c.forceCancel)
    requires k == c.(exec := k.exec) && k.exec.deferred == c.exec.deferred && (job.forceCancel ==> c.forceCancel)
    requires Completed(job.status) ==> job.exec.deferred
    requires job.exec.deferred ==> !c.forceCancel || txn.aborting
    ensures MemberOk(txn, k) && k.status == job.status
  {
  }

  lemma CancelInv(w: World, j: nat, answer: bool)
    requires Inv(w) && CancelContract(w, j, false, answer)
    ensures Inv(Cancelled(w, j, answer))
  {
    hide Inv, JobOk, TxnOk, CancelAsync, AllStarted, Enter, Abort, Dismissed, UpdateRc, Finalizable, Doomed, MemberOk;
    Facts(w, j);
    CancelCases(w.jobs[j], answer);
    var job, t, k := w.jobs[j], w.jobs[j].home, CancelAsync(w.jobs[j], answer);
    CancelAsyncOk(job, answer);
    if !job.status.Concluded? {
      InTxn(job);
    }
    if job.status.Concluded? {
      DismissOk(job);
      SoloInv(w, j, Dismissed(job));
    } else if !Started(k.exec) {
      CancelFresh(w, j, k);
      CancelReady(w, j);
      AbortInv(w, t, j, UpdateRc(k), 1);
    } else if k.exec.deferred && k.forceCancel && !w.txns[t].aborting {
      ForcedCompleted(k);
      NotHeld(w, t, j);
      ForcedDoomed(k);
      StartedTxn(w, j);
      AbortInv(w, t, j, k, 1);
    } else if k.exec.deferred {
      CancelStays(w, j, answer, k);
    } else {
      CancelStays(w, j, answer, k.(exec := Enter(k.exec)));
    }
  }

  lemma InTxn(j: Job)
    requires JobOk(j) && !j.status.Concluded? && !j.status.Null?
    ensures j.txn == Some(j.home)
  {
  }

  lemma ForcedDoomed(j: Job)
    requires j.forceCancel
    ensures Doomed(j)
  {
  }

  /** In a transaction of several members, all are started when one is cancelled. */
  lemma StartedTxn(w: World, j: nat)
    requires Inv(w) && j in w.jobs && w.jobs[j].txn.Some? && Started(w.jobs[j].exec)
    requires AllStarted(w, w.jobs[j].home) || w.txns[w.jobs[j].home].members == [j]
    ensures AllStarted(w, w.jobs[j].home)
  {
    hide JobsOk, TxnOk;
  }

  lemma DismissOk(j: Job)
    requires JobOk(j) && j.status.Concluded?
    ensures Allowed(j.status, Null) && !j.exec.timer && JobOk(Dismissed(j)) && SameStanding(j, Dismissed(j))
  {
    hide PausesOk;
  }

  /** Cancelling a job that was never started aborts it at once. */
  lemma CancelFresh(w: World, j: nat, k: Job)
    requires Inv(w) && CancelContract(w, j, false, true) && !Started(w.jobs[j].exec) && w.jobs[j].txn.Some?
    requires w.jobs[j].pauses.user ==> w.jobs[j].pauses.count > 0
    requires k == CancelAsync(w.jobs[j], true)
    ensures var t, u := w.jobs[j].home, UpdateRc(k);
      && k.status.Created? && !w.txns[t].aborting && w.txns[t].members == [j]
      && JobOk(u) && u.txn == Some(t) && u.home == t && u.refs.held == 0 && Doomed(u) && Finalizable(u)
      && Completed(u.status) && !u.status.Pending?
  {
    hide Inv, TxnOk, DoneOk, LoopOk;
    Facts(w, j);
    CancelledOk(w.jobs[j]);
    CancelAsyncOk(w.jobs[j], true);
    assert !w.txns[w.jobs[j].home].aborting;
    NotHeld(w, w.jobs[j].home, j);
  }

  lemma NewJobOk(t: nat, autoFinalize: bool, autoDismiss: bool)
    ensures var j := NewJob(t, autoFinalize, autoDismiss);
      JobOk(j) && j.home == t && j.txn == Some(t) && j.refs.held == 0 && j.status.Created? && !Completed(j.status)
  {
  }

  lemma CreateInv(w: World, j: nat, txn: Option<nat>, t: nat, autoFinalize: bool, autoDismiss: bool)
    requires Inv(w) && CreateContract(w, j, txn, t)
    ensures Inv(WithNewJob(w, j, txn, t, autoFinalize, autoDismiss))
  {
    hide JobOk, NewJob, TxnOk, Inv, HomeOk;
    NewJobOk(t, autoFinalize, autoDismiss);
    var r := WithNewJob(w, j, txn, t, autoFinalize, autoDismiss);
    assert OnlyTxn(w, r, t);
    NewHome(w, j, txn, t, autoFinalize, autoDismiss);
    NewTxnOk(w, j, txn, t, autoFinalize, autoDismiss);
    FrameInv(w, r, t);
  }

  lemma NewHome(w: World, j: nat, txn: Option<nat>, t: nat, autoFinalize: bool, autoDismiss: bool)
    requires Inv(w) && CreateContract(w, j, txn, t)
    ensures HomeOk(WithNewJob(w, j, txn, t, autoFinalize, autoDismiss), t)
  {
    hide JobOk, NewJob, TxnOk;
    NewJobOk(t, autoFinalize, autoDismiss);
    var r := WithNewJob(w, j, txn, t, autoFinalize, autoDismiss);
    forall i | i in r.jobs && r.jobs[i].home == t
      ensures JobAt(r, i)
    {
      if i != j {
        assert JobAt(w, i);
      }
    }
  }

  lemma NewMember(txn: Txn, j: Job)
    requires !txn.aborting && j.status.Created?
    ensures MemberOk(txn, j)
  {
  }

  lemma NewTxnOk(w: World, j: nat, txn: Option<nat>, t: nat, autoFinalize: bool, autoDismiss: bool)
    requires Inv(w) && CreateContract(w, j, txn, t)
    ensures TxnOk(WithNewJob(w, j, txn, t, autoFinalize, autoDismiss), t)
  {
    hide JobOk, NewJob, MemberOk, JobsOk;
    NewJobOk(t, autoFinalize, autoDismiss);
    var r := WithNewJob(w, j, txn, t, autoFinalize, autoDismiss);
    if txn.Some? {
      assert TxnOk(w, t);
    }
    forall m | m in r.txns[t].members
      ensures m in r.jobs && r.jobs[m].txn == Some(t) && r.jobs[m].home == t && r.jobs[m].status.Created?
      ensures MemberOk(r.txns[t], r.jobs[m])
    {
      NewMember(r.txns[t], r.jobs[m]);
    }
    assert MembersOk(r, t);
  }

  lemma {:induction false} WithoutIs(s: seq<nat>, j: nat)
    requires forall i, k :: 0 <= i < k < |s| ==> s[i] != s[k]
    ensures forall m :: m in Without(s, j) <==> m in s && m != j
    ensures forall i, k :: 0 <= i < k < |Without(s, j)| ==> Without(s, j)[i] != Without(s, j)[k]
    ensures |Without(s, j)| == |s| - (if j in s then 1 else 0)
  {
    if s != [] {
      WithoutIs(s[1..], j);
      assert s == [s[0]] + s[1..];
      assert s[0] !in s[1..];
    }
  }

  lemma DismissFresh(j: Job)
    requires JobOk(j) && j.status.Created?
    ensures Allowed(j.status, Null) && !j.exec.timer
    ensures JobOk(Dismissed(j)) && Dismissed(j).home == j.home && Dismissed(j).txn == None
    ensures Dismissed(j).refs.held == j.refs.held && !Started(j.exec)
  {
    hide PausesOk;
  }

  lemma EarlyFailInv(w: World, j: nat)
    requires Inv(w) && j in w.jobs && w.jobs[j].status.Created?
    ensures Inv(FailedEarly(w, j))
  {
    hide JobOk, Dismissed, MemberOk, Inv, HomeOk, TxnOk, Without;
    Facts(w, j);
    InTxn(w.jobs[j]);
    DismissFresh(w.jobs[j]);
    var t, r := w.jobs[j].home, FailedEarly(w, j);
    FreshNotAborting(w.txns[t], w.jobs[j]);
    assert OnlyTxn(w, r, t);
    StartFacts(w, t, j);
    EarlyHome(w, j, t);
    EarlyTxn(w, j, t);
    FrameInv(w, r, t);
  }

  lemma EarlyHome(w: World, j: nat, t: nat)
    requires Inv(w) && j in w.jobs && w.jobs[j].status.Created? && t == w.jobs[j].home && t in w.txns
    requires Allowed(w.jobs[j].status, Null) && !w.jobs[j].exec.timer && !w.txns[t].aborting && MembersOk(w, t)
    ensures HomeOk(FailedEarly(w, j), t)
  {
    hide JobOk, Dismissed, TxnOk, Without;
    var r := FailedEarly(w, j);
    WithoutIs(w.txns[t].members, j);
    assert JobAt(w, j);
    DismissFresh(w.jobs[j]);
    forall i | i in r.jobs && r.jobs[i].home == t
      ensures JobAt(r, i)
    {
      assert JobAt(w, i);
    }
  }

  lemma FreshNotAborting(txn: Txn, j: Job)
    requires MemberOk(txn, j) && !Started(j.exec)
    ensures !txn.aborting
  {
  }

  lemma EarlyTxn(w: World, j: nat, t: nat)
    requires Inv(w) && j in w.jobs && w.jobs[j].status.Created? && t == w.jobs[j].home && t in w.txns
    requires j in w.txns[t].members && !w.txns[t].aborting && Allowed(w.jobs[j].status, Null) && !w.jobs[j].exec.timer
    ensures TxnOk(FailedEarly(w, j), t)
  {
    hide JobOk, Dismissed, MemberOk, JobsOk;
    var r := FailedEarly(w, j);
    assert TxnOk(w, t);
    WithoutIs(w.txns[t].members, j);
    forall m | m in r.txns[t].members
      ensures r.jobs[m] == w.jobs[m] && MemberOk(r.txns[t], r.jobs[m])
    {
      SameMember(w.txns[t], r.txns[t], w.jobs[m]);
    }
    assert MembersOk(r, t);
  }

  lemma SameMember(a: Txn, b: Txn, j: Job)
    requires MemberOk(a, j) && a.aborting == b.aborting
    ensures MemberOk(b, j)
  {
  }

  lemma TxnRefInv(w: World, t: nat, txn: Txn)
    requires Inv(w) && RefOnly(w, t, txn)
    ensures Inv(SetTxn(w, t, txn))
  {
    hide JobOk, TxnOk, Inv, HomeOk;
    var r := SetTxn(w, t, txn);
    assert OnlyTxn(w, r, t);
    TxnRefHome(w, t, txn);
    TxnRefTxn(w, t, txn);
    FrameInv(w, r, t);
  }

  predicate RefOnly(w: World, t: nat, txn: Txn) {
    if t in w.txns then
      && txn == w.txns[t].(refcnt := txn.refcnt, ext := txn.ext)
      && txn.refcnt - txn.ext == w.txns[t].refcnt - w.txns[t].ext
    else txn == Txn(false, [], 1, 1, None, 0, false, [])
  }

  lemma TxnRefHome(w: World, t: nat, txn: Txn)
    requires Inv(w) && RefOnly(w, t, txn)
    ensures HomeOk(SetTxn(w, t, txn), t)
  {
    hide JobOk, TxnOk;
    var r := SetTxn(w, t, txn);
    forall i | i in r.jobs && r.jobs[i].home == t
      ensures JobAt(r, i)
    {
      assert JobAt(w, i);
    }
  }

  lemma TxnRefTxn(w: World, t: nat, txn: Txn)
    requires Inv(w) && RefOnly(w, t, txn)
    ensures TxnOk(SetTxn(w, t, txn), t)
  {
    hide JobOk, MemberOk, JobsOk;
    if t in w.txns {
      assert TxnOk(w, t);
      forall m | m in txn.members
        ensures MemberOk(txn, w.jobs[m])
      {
        SameMember(w.txns[t], txn, w.jobs[m]);
      }
    }
  }

  /** Whatever is called, in whatever order, the invariant holds. */
  lemma {:induction false} StepInv(w: World, step: Step)
    requires Inv(w) && Contract(w, step)
    ensures Inv(Apply(w, step))
  {
    hide Inv, JobOk, SoloJob, Abort, DoFinalize, AbortLoop, Exits, Cancelled, WithNewJob, FailedEarly,
         SameStanding, AllStarted;
    if Solo(step) {
      Facts(w, step.j);
      SoloOk(w.jobs[step.j], step);
      SoloInv(w, step.j, SoloJob(w.jobs[step.j], step));
    } else {
      match step {
        case NewTxn(t) => TxnRefInv(w, t, Txn(false, [], 1, 1, None, 0, false, []));
        case UnrefTxn(t) => TxnRefInv(w, t, w.txns[t].(refcnt := w.txns[t].refcnt - 1, ext := w.txns[t].ext - 1));
        case Create(j, txn, t, autoFinalize, autoDismiss) => CreateInv(w, j, txn, t, autoFinalize, autoDismiss);
        case EarlyFail(j) => EarlyFailInv(w, j);
        case Exit(j, prepare) => ExitInv(w, j, prepare);
        case Cancel(j, force, answer) => CancelInv(w, j, answer);
        case Finalize(j, prepare) =>
          if VerbAllowed(FinalizeVerb, w.jobs[j].status) {
            FinalizeInv(w, j, prepare);
          }
        case LoopGoesOn(t) => LoopInv(w, t);
      }
    }
  }
}
