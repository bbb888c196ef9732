/** A transaction never rests in PENDING unless one of its members wants to be finalised by hand. */
module JobPending {
  import opened JobModel
  import opened JobInvariant
  import opened JobTransactions
  import opened JobRun
  import opened JobSafety
  import opened JobSteps
  import opened JobTheorems
  import opened JobOutcomes
  import opened JobCalls

  predicate HasAsker(w: World, t: nat)
    requires t in w.txns
  {
    exists m :: m in w.txns[t].members && m in w.jobs && !w.jobs[m].autoFinalize
  }

  predicate HasPending(w: World, t: nat)
    requires t in w.txns
  {
    exists m :: m in w.txns[t].members && m in w.jobs && w.jobs[m].status.Pending?
  }

  /** Who waits to be finalised waits for somebody. */
  predicate AskedFor(w: World) {
    forall t :: t in w.txns && HasPending(w, t) ==> HasAsker(w, t)
  }

  /** A transaction that aborts or has no members left has nobody pending. */
  lemma NobodyPending(w: World, t: nat)
    requires Inv(w) && t in w.txns && (w.txns[t].aborting || w.txns[t].members == [])
    ensures !HasPending(w, t)
  {
    hide Inv;
    forall m | m in w.txns[t].members && m in w.jobs
      ensures !w.jobs[m].status.Pending?
    {
      MemberHome(w, t, m);
    }
  }

  /** Only transaction `t` and its jobs differ. */
  predicate OnlyHere(w: World, r: World, t: nat) {
    && t in r.txns && r.txns == w.txns[t := r.txns[t]] && OthersKept(w, r, t)
  }

  lemma HereAsked(w: World, r: World, t: nat)
    requires Inv(w) && AskedFor(w) && OnlyHere(w, r, t) && (HasPending(r, t) ==> HasAsker(r, t))
    ensures AskedFor(r)
  {
    hide Inv;
    forall u | u in r.txns && HasPending(r, u)
      ensures HasAsker(r, u)
    {
      if u != t {
        forall m | m in w.txns[u].members
          ensures m in w.jobs && m in r.jobs && r.jobs[m] == w.jobs[m]
        {
          MemberHome(w, u, m);
        }
        var p :| p in r.txns[u].members && p in r.jobs && r.jobs[p].status.Pending?;
        assert HasPending(w, u) by {
          assert p in w.txns[u].members && w.jobs[p].status.Pending?;
        }
        var m :| m in w.txns[u].members && m in w.jobs && !w.jobs[m].autoFinalize;
        assert m in r.txns[u].members && !r.jobs[m].autoFinalize;
      }
    }
  }

  lemma OneJobAsked(w: World, j: nat, k: Job)
    requires Inv(w) && AskedFor(w) && j in w.jobs
    requires k.home == w.jobs[j].home && k.autoFinalize == w.jobs[j].autoFinalize
    requires k.txn.Some? && k.status.Pending? ==> w.jobs[j].status.Pending?
    requires k.txn == w.jobs[j].txn
    ensures AskedFor(SetJob(w, j, k))
  {
    hide Inv;
    var r := SetJob(w, j, k);
    forall t | t in r.txns && HasPending(r, t)
      ensures HasAsker(r, t)
    {
      var p :| p in r.txns[t].members && p in r.jobs && r.jobs[p].status.Pending?;
      MemberHome(w, t, p);
      assert HasPending(w, t) by {
        assert p in w.txns[t].members && p in w.jobs && w.jobs[p].status.Pending?;
      }
      var m :| m in w.txns[t].members && m in w.jobs && !w.jobs[m].autoFinalize;
      assert m in r.txns[t].members && m in r.jobs && !r.jobs[m].autoFinalize;
    }
  }

  // ----- which transactions change

  lemma LoopTxns(w: World, t: nat)
    requires t in w.txns && LoopReady(w, t)
    ensures var r := AbortLoop(w, t);
      t in r.txns && r.txns == w.txns[t := r.txns[t]] && r.txns[t].aborting == w.txns[t].aborting
  {
    hide JobOk, Finalized, Finalizable, Lead, Release;
    var k := Lead(w.jobs, w.txns[t].members);
    LeadFinalizable(w, t);
    AborterKept(w, t, k);
  }

  lemma AbortTxns(w: World, t: nat, j: nat, hold: nat)
    requires t in w.txns && (!w.txns[t].aborting ==> AbortReady(w, t, j))
    ensures var r := Abort(w, t, j, hold);
      t in r.txns && r.txns == w.txns[t := r.txns[t]] && r.txns[t].aborting
  {
    hide JobOk, CancelAsync, AbortLoop, LoopReady, Finalizable, Hold;
    if !w.txns[t].aborting {
      MarkedReady(w, t, j, hold);
      LoopTxns(Marked(w, t, j, hold), t);
    }
  }

  lemma DoFinalizeTxns(w: World, t: nat, j: nat, prepare: nat -> int)
    requires t in w.txns && AllPending(w, t) && j in w.txns[t].members
    ensures var r := DoFinalize(w, t, j, prepare);
      t in r.txns && r.txns == w.txns[t := r.txns[t]] && (r.txns[t].aborting || r.txns[t].members == [])
  {
    hide JobOk, UpdateRc, Abort, AbortReady, Finalized, AllPending;
    var f := FirstFailure(w.txns[t].members, prepare);
    if f.None? {
      PendingFinalizable(w, t);
    } else {
      FailedReady(w, t, f.value, prepare(f.value), j);
      AbortTxns(Failed(w, t, f.value, prepare(f.value)), t, j, 1);
    }
  }

  /** After an abort or a finalisation nobody in the transaction is pending. */
  lemma SettledAsked(w: World, r: World, t: nat)
    requires Inv(w) && AskedFor(w) && Inv(r) && OnlyHere(w, r, t) && (r.txns[t].aborting || r.txns[t].members == [])
    ensures AskedFor(r)
  {
    hide Inv, AskedFor, HasAsker, HasPending;
    NobodyPending(r, t);
    HereAsked(w, r, t);
  }

  // ----- the calls

  lemma SoloAsked(w: World, step: Step)
    requires Inv(w) && AskedFor(w) && Solo(step) && Contract(w, step)
    ensures AskedFor(Apply(w, step))
  {
    hide Inv, SoloJob, JobOk, AskedFor, TxnOk;
    Facts(w, step.j);
    SoloOk(w.jobs[step.j], step);
    SoloMeaning(w.jobs[step.j], step);
    SoloAuto(w.jobs[step.j], SoloJob(w.jobs[step.j], step), step);
    OneJobAsked(w, step.j, SoloJob(w.jobs[step.j], step));
  }

  lemma SoloAuto(a: Job, b: Job, step: Step)
    requires Solo(step) && SoloMeans(a, b, step) && SameStanding(a, b) && JobOk(b)
    ensures b.autoFinalize == a.autoFinalize
    ensures b.txn.Some? && b.status.Pending? ==> a.status.Pending?
  {
    hide JobOk;
  }

  lemma ExitAsked(w: World, j: nat, prepare: nat -> int)
    requires Inv(w) && AskedFor(w) && j in w.jobs && w.jobs[j].exec.exitPending && AllStarted(w, w.jobs[j].home)
    ensures AskedFor(Exits(w, j, prepare))
  {
    hide Inv, JobOk, Exited, Abort, AbortReady, TxnOk, AskedFor, AllStarted, Success, WaitingTogether;
    Facts(w, j);
    ExitReady(w, j);
    ExitedIs(w.jobs[j]);
    ExitInv(w, j, prepare);
    ExitMeaning(w, j, prepare);
    var t, e := w.jobs[j].home, Exited(w.jobs[j]);
    if ReturnedWell(w.jobs[j]) {
      WaitingIs(w.jobs[j]);
      SuccessAsked(w, SetJob(w, j, Transition(e, Waiting)), t, j, prepare);
    } else {
      AbortTxns(SetJob(w, j, e), t, j, 2);
      SettledAsked(w, Exits(w, j, prepare), t);
    }
  }

  /** The last member to complete leaves the transaction pending only for the sake of an asker. */
  lemma SuccessAsked(w: World, w1: World, t: nat, j: nat, prepare: nat -> int)
    requires Inv(w) && AskedFor(w) && NowWaiting(w, w1, j) && t == w.jobs[j].home && t in w.txns
    requires j in w.txns[t].members && WaitingTogether(w1, t)
    requires Inv(Success(w1, t, j, prepare)) && OthersKept(w, Success(w1, t, j, prepare), t)
    ensures AskedFor(Success(w1, t, j, prepare))
  {
    hide Inv, AskedFor, JobOk, DoFinalize, AllPending, ToPending, AllCompleted, HasAsker, HasPending;
    var r := Success(w1, t, j, prepare);
    if !AllCompleted(w1, t) {
      WaitingNotPending(r, t, j);
      HereAsked(w, r, t);
    } else {
      ToPendingReady(w1, t);
      PendingTxn(w, w1, t, j);
      if exists m :: m in w.txns[t].members && !w1.jobs[m].autoFinalize {
        HereAsked(w, r, t);
      } else {
        DoFinalizeTxns(ToPending(w1, t), t, j, prepare);
        SettledAsked(w, r, t);
      }
    }
  }

  lemma PendingTxn(w: World, w1: World, t: nat, j: nat)
    requires NowWaiting(w, w1, j) && t in w.txns && t == w.jobs[j].home && j in w.txns[t].members
    requires WaitingTogether(w1, t) && AllCompleted(w1, t)
    ensures ToPending(w1, t).txns == w.txns
    ensures (exists m :: m in w.txns[t].members && !w1.jobs[m].autoFinalize) ==> HasAsker(ToPending(w1, t), t)
  {
    hide JobOk, ToPending, AllCompleted;
    PendingMeans(w, w1, t, j);
    var p := ToPending(w1, t);
    if exists m :: m in w.txns[t].members && !w1.jobs[m].autoFinalize {
      var m :| m in w.txns[t].members && !w1.jobs[m].autoFinalize;
      assert m in p.txns[t].members && m in p.jobs && !p.jobs[m].autoFinalize;
    }
  }

  /** While one member is not pending, none is. */
  lemma WaitingNotPending(w: World, t: nat, j: nat)
    requires Inv(w) && t in w.txns && j in w.txns[t].members && j in w.jobs && !w.jobs[j].status.Pending?
    ensures !HasPending(w, t)
  {
    hide JobsOk, MemberOk, DoneOk, LoopOk;
    assert TxnOk(w, t);
  }

  lemma CancelAsked(w: World, j: nat, answer: bool)
    requires Inv(w) && AskedFor(w) && CancelContract(w, j, false, answer)
    ensures AskedFor(Cancelled(w, j, answer))
  {
    hide Inv, JobOk, TxnOk, CancelAsync, AllStarted, Abort, UpdateRc, Finalizable, AbortReady, MemberOk, Enter,
         AskedFor, Dismissed, GivenUp;
    Facts(w, j);
    CancelCases(w.jobs[j], answer);
    CancelInv(w, j, answer);
    CancelMeaning(w, j, answer);
    var a, t, k := w.jobs[j], w.jobs[j].home, CancelAsync(w.jobs[j], answer);
    var r := Cancelled(w, j, answer);
    CancelAsyncOk(a, answer);
    if a.status.Concluded? {
      DismissAuto(a);
      OneJobAsked(w, j, Dismissed(a));
    } else {
      InTxn(a);
      if !Started(k.exec) {
        CancelFresh(w, j, k);
        CancelReady(w, j);
        AbortTxns(SetJob(w, j, UpdateRc(k)), t, j, 1);
        SettledAsked(w, r, t);
      } else if k.exec.deferred && k.forceCancel && !w.txns[t].aborting {
        ForcedReady(w, j, answer);
        AbortTxns(SetJob(w, j, k), t, j, 1);
        SettledAsked(w, r, t);
      } else {
        OneJobAsked(w, j, r.jobs[j]);
      }
    }
  }

  lemma DismissAuto(j: Job)
    requires JobOk(j) && Allowed(j.status, Null) && !j.exec.timer && j.status.Concluded?
    ensures var d := Dismissed(j);
      d.home == j.home && d.autoFinalize == j.autoFinalize && d.txn == j.txn && d.status.Null?
  {
    hide ExecOk, PausesOk, RefsOk, OutcomeOk;
  }

  lemma FinalizeAsked(w: World, j: nat, prepare: nat -> int)
    requires Inv(w) && AskedFor(w) && j in w.jobs
    ensures AskedFor(FinalizedBy(w, j, prepare))
  {
    hide Inv, DoFinalize, AllPending, AskedFor;
    if w.jobs[j].status.Pending? {
      FinalizeInv(w, j, prepare);
      PendingReady(w, j);
      DoFinalizeTxns(w, w.jobs[j].home, j, prepare);
      DoFinalizeOthers(w, w.jobs[j].home, j, prepare);
      SettledAsked(w, DoFinalize(w, w.jobs[j].home, j, prepare), w.jobs[j].home);
    }
  }

  lemma LoopAsked(w: World, t: nat)
    requires Inv(w) && AskedFor(w) && t in w.txns && w.txns[t].aborter.Some?
    ensures AskedFor(LoopContinued(w, t))
  {
    hide Inv, AbortLoop, AskedFor, LoopReady;
    LoopInv(w, t);
    AborterHome(w, t);
    LoopTxns(w, t);
    LoopOthers(w, t);
    SettledAsked(w, AbortLoop(w, t), t);
  }

  /** A new member joins only where nobody has started, let alone become pending. */
  lemma CreateAsked(w: World, j: nat, txn: Option<nat>, t: nat, autoFinalize: bool, autoDismiss: bool)
    requires Inv(w) && AskedFor(w) && CreateContract(w, j, txn, t)
    ensures AskedFor(WithNewJob(w, j, txn, t, autoFinalize, autoDismiss))
  {
    hide Inv, AskedFor;
    var r := WithNewJob(w, j, txn, t, autoFinalize, autoDismiss);
    forall m | m in r.txns[t].members && m in r.jobs
      ensures !r.jobs[m].status.Pending?
    {
      if m != j {
        assert m in w.txns[t].members;
      }
    }
    HereAsked(w, r, t);
  }

  lemma EarlyFailAsked(w: World, j: nat)
    requires Inv(w) && AskedFor(w) && j in w.jobs && w.jobs[j].status.Created?
    ensures AskedFor(FailedEarly(w, j))
  {
    hide Inv, AskedFor, JobOk, TxnOk;
    Facts(w, j);
    DismissFresh(w.jobs[j]);
    FreshMember(w.jobs[j]);
    var r, t := FailedEarly(w, j), w.jobs[j].home;
    WaitingNotPending(w, t, j);
    EarlyFailInv(w, j);
    forall m | m in r.txns[t].members && m in r.jobs
      ensures !r.jobs[m].status.Pending?
    {
      MemberHome(r, t, m);
      Members(w.txns[t].members, j, m);
      if m != j {
        assert m in w.jobs && r.jobs[m] == w.jobs[m];
      }
    }
    HereAsked(w, r, t);
  }

  lemma FreshMember(j: Job)
    requires JobOk(j) && j.status.Created?
    ensures j.txn.Some? && Allowed(j.status, Null) && !j.exec.timer && !Dismissed(j).status.Pending?
  {
    hide PausesOk, RefsOk, OutcomeOk;
  }

  lemma {:induction false} Members(s: seq<nat>, j: nat, m: nat)
    requires m in Without(s, j)
    ensures m in s
  {
    if s[0] != j && m != s[0] {
      Members(s[1..], j, m);
    } else if s[0] == j {
      Members(s[1..], j, m);
    }
  }

  lemma TxnRefAsked(w: World, t: nat, txn: Txn)
    requires Inv(w) && AskedFor(w) && (if t in w.txns then txn.members == w.txns[t].members else txn.members == [])
    ensures AskedFor(SetTxn(w, t, txn))
  {
    var r := SetTxn(w, t, txn);
    forall u | u in r.txns && HasPending(r, u)
      ensures HasAsker(r, u)
    {
      assert u in w.txns && HasPending(w, u);
    }
  }

  lemma {:induction false} StepAsked(w: World, step: Step)
    requires Inv(w) && Contract(w, step) && AskedFor(w)
    ensures AskedFor(Apply(w, step))
  {
    hide Inv, SoloJob, Exits, Cancelled, FinalizedBy, LoopContinued, WithNewJob, FailedEarly, AskedFor, AllStarted;
    if Solo(step) {
      SoloAsked(w, step);
    } else {
      match step {
        case NewTxn(t) => TxnRefAsked(w, t, Txn(false, [], 1, 1, None, 0, false, []));
        case UnrefTxn(t) => TxnRefAsked(w, t, Apply(w, step).txns[t]);
        case Create(j, txn, t, autoFinalize, autoDismiss) => CreateAsked(w, j, txn, t, autoFinalize, autoDismiss);
        case EarlyFail(j) => EarlyFailAsked(w, j);
        case Exit(j, prepare) => ExitAsked(w, j, prepare);
        case Cancel(j, force, answer) => CancelAsked(w, j, answer);
        case Finalize(j, prepare) => FinalizeAsked(w, j, prepare);
        case LoopGoesOn(t) => LoopAsked(w, t);
      }
    }
  }

  /** In every run, between calls, a transaction with a pending member has one that wants to be finalised by hand. */
  lemma {:induction false} PendingOnlyIfAsked(steps: seq<Step>)
    ensures Run(steps).Some? ==> AskedFor(Run(steps).value)
    decreases |steps|
  {
    hide Inv, Contract, Apply, AskedFor;
    if steps == [] {
      NoTxns();
    } else if Run(steps).Some? {
      var front := steps[..|steps| - 1];
      PendingOnlyIfAsked(front);
      StepAsked(Run(front).value, steps[|steps| - 1]);
    }
  }

  lemma NoTxns()
    ensures AskedFor(World(map[], map[]))
  {
  }
}
