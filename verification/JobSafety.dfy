/** The invariant of the job API, kept by every call. */
module JobSafety {
  import opened JobModel
  import opened JobInvariant
  import opened JobTransactions
  import opened JobRun

  /** Every job that was created in transaction `t` is well-formed. */
  predicate HomeOk(w: World, t: nat) {
    forall j :: j in w.jobs && w.jobs[j].home == t ==> JobAt(w, j)
  }

  /** Only jobs and the record of transaction `t` differ. */
  predicate OnlyTxn(w: World, r: World, t: nat) {
    && t in r.txns && r.txns == w.txns[t := r.txns[t]]
    && (forall j :: j in w.jobs ==> j in r.jobs && r.jobs[j].home == w.jobs[j].home)
    && (forall j :: j in w.jobs && w.jobs[j].home != t ==> r.jobs[j] == w.jobs[j])
    && (forall j :: j in r.jobs && j !in w.jobs ==> r.jobs[j].home == t)
  }

  lemma MemberHome(w: World, t: nat, m: nat)
    requires Inv(w) && t in w.txns && m in w.txns[t].members
    ensures m in w.jobs && w.jobs[m].home == t && w.jobs[m].txn == Some(t) && MemberOk(w.txns[t], w.jobs[m])
  {
    hide JobsOk, MemberOk, PendingTogether, DoneOk, LoopOk;
    assert TxnOk(w, t);
  }

  lemma OtherTxn(w: World, r: World, t: nat, t2: nat)
    requires Inv(w) && OnlyTxn(w, r, t) && t2 in w.txns && t2 != t
    ensures TxnOk(r, t2)
  {
    hide MemberOk, JobsOk, JobAt;
    assert TxnOk(w, t2);
    forall m | m in w.txns[t2].members
      ensures m in r.jobs && r.jobs[m] == w.jobs[m]
    {
      MemberHome(w, t2, m);
    }
  }

  /** A step may be judged by its own transaction. */
  lemma FrameInv(w: World, r: World, t: nat)
    requires Inv(w) && OnlyTxn(w, r, t) && HomeOk(r, t) && TxnOk(r, t)
    ensures Inv(r)
  {
    hide JobOk, TxnOk;
    forall t2 | t2 in r.txns
      ensures TxnOk(r, t2)
    {
      if t2 != t {
        OtherTxn(w, r, t, t2);
      }
    }
    forall j | j in r.jobs
      ensures JobAt(r, j)
    {
      if r.jobs[j].home != t {
        assert JobAt(w, j);
      }
    }
  }

  /** What a changed job must still be for its transaction. */
  predicate StillMember(w: World, j: nat, k: Job)
    requires j in w.jobs && w.jobs[j].home in w.txns
  {
    var job := w.jobs[j];
    && k.home == job.home && k.txn == job.txn && k.outcome == job.outcome && k.refs.held == job.refs.held
    && (job.txn.Some? ==> MemberOk(w.txns[job.home], k) && k.status.Pending? == job.status.Pending?)
  }

  /** A call that changes one job and leaves its place in the transaction alone keeps the invariant. */
  lemma MemberInv(w: World, j: nat, k: Job)
    requires Inv(w) && j in w.jobs && JobOk(k) && w.jobs[j].home in w.txns && StillMember(w, j, k)
    ensures Inv(SetJob(w, j, k))
  {
    hide JobOk, Inv, TxnOk, StillMember;
    var r, t := SetJob(w, j, k), w.jobs[j].home;
    Facts(w, j);
    MemberHomeOk(w, j, k);
    MemberTxn(w, j, k);
    FrameInv(w, r, t) by {
      SameHome(w, j, k);
    }
  }

  lemma SameHome(w: World, j: nat, k: Job)
    requires j in w.jobs && w.jobs[j].home in w.txns && StillMember(w, j, k)
    ensures k.home == w.jobs[j].home
  {
  }

  lemma MemberHomeOk(w: World, j: nat, k: Job)
    requires Inv(w) && j in w.jobs && JobOk(k) && w.jobs[j].home in w.txns && StillMember(w, j, k)
    ensures HomeOk(SetJob(w, j, k), w.jobs[j].home)
  {
    hide JobOk, TxnOk, MemberOk;
    var r, t := SetJob(w, j, k), w.jobs[j].home;
    forall i | i in r.jobs && r.jobs[i].home == t
      ensures JobAt(r, i)
    {
      assert JobAt(w, i);
    }
  }

  lemma MemberTxn(w: World, j: nat, k: Job)
    requires Inv(w) && j in w.jobs && w.jobs[j].home in w.txns && StillMember(w, j, k)
    ensures TxnOk(SetJob(w, j, k), w.jobs[j].home)
  {
    hide JobOk, MemberOk, JobsOk;
    Facts(w, j);
    var r, t := SetJob(w, j, k), w.jobs[j].home;
    forall m | m in w.txns[t].members
      ensures m in r.jobs && r.jobs[m].txn == Some(t) && MemberOk(r.txns[t], r.jobs[m])
      ensures r.jobs[m].status.Pending? == w.jobs[m].status.Pending?
    {
      MemberHome(w, t, m);
    }
    assert MembersOk(r, t);
  }

  lemma StandingKept(txn: Txn, a: Job, b: Job)
    requires SameStanding(a, b) && a.txn.Some? && MemberOk(txn, a)
    ensures MemberOk(txn, b) && b.status.Pending? == a.status.Pending?
  {
  }

  /** A call that leaves the job's standing alone keeps the invariant. */
  lemma SoloInv(w: World, j: nat, k: Job)
    requires Inv(w) && j in w.jobs && JobOk(k) && SameStanding(w.jobs[j], k)
    ensures Inv(SetJob(w, j, k))
  {
    hide JobOk, MemberOk, Inv;
    Facts(w, j);
    if w.jobs[j].txn.Some? {
      StandingKept(w.txns[w.jobs[j].home], w.jobs[j], k);
    }
    MemberInv(w, j, k);
  }

  /** What a transaction must be for its abort loop to run and leave it in order. */
  predicate LoopStart(w: World, t: nat)
    requires t in w.txns
  {
    var txn := w.txns[t];
    && LoopReady(w, t) && HomeOk(w, t) && txn.aborting && w.jobs[txn.aborter.value].home == t
    && txn.refcnt == |txn.members| + txn.ext + 1
    && (forall d :: d in txn.done ==>
          && d in w.jobs && w.jobs[d].home == t && w.jobs[d].txn == None
          && (if txn.prepareFailed then w.jobs[d].outcome != NoOutcome else w.jobs[d].outcome == Aborted))
    && (!txn.prepareFailed ==> forall m :: m in txn.members ==> Doomed(w.jobs[m]))
    && (AllCompleted(w, t)
        || (!txn.prepareFailed && forall m :: m in txn.members ==> MemberOk(txn, w.jobs[m])))
  }

  /** The members after the first `k` keep their place, those before it are concluded. */
  lemma PrefixMembers(w: World, t: nat, k: nat)
    requires t in w.txns && MembersOk(w, t) && PrefixFinalizable(w, t, k)
    ensures var r := FinalizePrefix(w, t, k);
      && MembersOk(r, t)
      && (forall m :: m in r.txns[t].members ==> m in w.txns[t].members && r.jobs[m] == w.jobs[m])
      && (forall m :: m in w.txns[t].members ==> m in w.txns[t].members[..k] || m in r.txns[t].members)
  {
    hide Finalized, Finalizable;
    var all := w.txns[t].members;
    var r := FinalizePrefix(w, t, k);
    forall m | m in all[k..]
      ensures m in all && m !in all[..k]
    {
      var i :| 0 <= i < |all[k..]| && all[k..][i] == m;
      assert all[k + i] == m;
    }
    assert all == all[..k] + all[k..];
  }

  lemma PrefixHome(w: World, t: nat, k: nat)
    requires t in w.txns && MembersOk(w, t) && HomeOk(w, t) && PrefixFinalizable(w, t, k)
    ensures HomeOk(FinalizePrefix(w, t, k), t)
    ensures forall j :: j in w.jobs ==> FinalizePrefix(w, t, k).jobs[j].home == w.jobs[j].home
  {
    hide JobOk, Finalized, Finalizable;
    var r := FinalizePrefix(w, t, k);
    PrefixMembers(w, t, k);
    forall j | j in w.jobs
      ensures r.jobs[j].home == w.jobs[j].home
      ensures r.jobs[j].home == t ==> JobAt(r, j)
    {
      if j in w.txns[t].members[..k] {
        assert JobAt(w, j);
        FinalizedOk(w.jobs[j]);
        NoTxnAfter(Finalized(w.jobs[j]));
      } else if w.jobs[j].home == t {
        assert JobAt(w, j);
      }
    }
  }

  lemma NoTxnAfter(j: Job)
    requires JobOk(j) && (j.status.Concluded? || j.status.Null?)
    ensures j.txn == None
  {
  }

  lemma OnlyTxnTrans(a: World, b: World, c: World, t: nat)
    requires OnlyTxn(a, b, t) && OnlyTxn(b, c, t)
    ensures OnlyTxn(a, c, t)
  {
    assert b.txns[t := c.txns[t]] == a.txns[t := c.txns[t]];
  }

  lemma PrefixOnly(w: World, t: nat, k: nat)
    requires t in w.txns && MembersOk(w, t) && HomeOk(w, t) && PrefixFinalizable(w, t, k)
    ensures OnlyTxn(w, FinalizePrefix(w, t, k), t)
  {
    hide JobOk, Finalized, Finalizable;
    PrefixHome(w, t, k);
  }

  /** What finalising a prefix of the list leaves in `done`. */
  lemma PrefixDone(w: World, t: nat, k: nat, d: nat)
    requires t in w.txns && MembersOk(w, t) && HomeOk(w, t) && PrefixFinalizable(w, t, k)
    requires forall e :: e in w.txns[t].done ==> e in w.jobs && w.jobs[e].home == t && w.jobs[e].txn == None
    requires d in FinalizePrefix(w, t, k).txns[t].done
    ensures d in w.jobs && w.jobs[d].home == t
    ensures d in w.txns[t].members[..k] ==>
      FinalizePrefix(w, t, k).jobs[d].outcome ==
        if w.jobs[d].ret != 0 || w.jobs[d].forceCancel then Aborted else Committed
    ensures d !in w.txns[t].members[..k] ==> d in w.txns[t].done && FinalizePrefix(w, t, k).jobs[d] == w.jobs[d]
  {
    hide JobOk, Finalized, Finalizable;
    if d in w.txns[t].members[..k] {
      assert JobAt(w, d);
      FinalizedOk(w.jobs[d]);
    }
  }

  /** What the abort loop finalises ends aborted. */
  lemma PrefixAborts(w: World, t: nat, k: nat)
    requires t in w.txns && LoopStart(w, t) && PrefixFinalizable(w, t, k) && !w.txns[t].prepareFailed
    ensures DoneOk(FinalizePrefix(w, t, k), t)
  {
    hide JobOk, Finalized, Finalizable, Completed, HomeOk, AllCompleted;
    var r := FinalizePrefix(w, t, k);
    forall d | d in r.txns[t].done
      ensures d in r.jobs && r.jobs[d].home == t && r.jobs[d].outcome == Aborted
    {
      PrefixDone(w, t, k, d);
      PrefixHome(w, t, k);
    }
  }

  /** The abort loop stops at a member that is still running: the rest of the list stands as it did. */
  lemma LoopWaits(w: World, t: nat)
    requires t in w.txns && LoopStart(w, t) && Lead(w.jobs, w.txns[t].members) < |w.txns[t].members|
    ensures TxnOk(AbortLoop(w, t), t)
  {
    hide JobOk, Finalized, Finalizable, Completed, HomeOk, Doomed, DoneOk;
    var k := Lead(w.jobs, w.txns[t].members);
    LeadFinalizable(w, t);
    AborterKept(w, t, k);
    PrefixMembers(w, t, k);
    PrefixHome(w, t, k);
    assert !AllCompleted(w, t) by {
      assert w.txns[t].members[k] in w.txns[t].members;
    }
    PrefixAborts(w, t, k);
  }

  lemma ReleaseOk(j: Job, k: nat)
    requires JobOk(j) && k == j.refs.held
    ensures j.refs.count == k ==> j.status.Null? && !j.exec.timer && j.txn == None
    ensures JobOk(Release(j, k)) && Release(j, k).refs.held == 0
    ensures Release(j, k).home == j.home && Release(j, k).txn == j.txn && Release(j, k).outcome == j.outcome
  {
    hide PausesOk, OutcomeOk;
  }

  /** A transaction whose abort loop has finalised every member. */
  predicate LoopOver(w: World, t: nat)
    requires t in w.txns
  {
    var txn := w.txns[t];
    && txn.members == [] && txn.aborting && txn.aborter.Some? && txn.aborter.value in w.jobs
    && JobOk(w.jobs[txn.aborter.value]) && w.jobs[txn.aborter.value].refs.held == txn.hold
    && w.jobs[txn.aborter.value].home == t && txn.refcnt == txn.ext + 1
    && forall d :: d in txn.done ==>
         && d in w.jobs && w.jobs[d].home == t
         && (if txn.prepareFailed then w.jobs[d].outcome != NoOutcome else w.jobs[d].outcome == Aborted)
  }

  lemma PrefixOver(w: World, t: nat)
    requires t in w.txns && LoopStart(w, t) && Lead(w.jobs, w.txns[t].members) == |w.txns[t].members|
    requires PrefixFinalizable(w, t, |w.txns[t].members|)
    ensures LoopOver(FinalizePrefix(w, t, |w.txns[t].members|), t)
  {
    hide JobOk, Finalized, Finalizable, Completed, HomeOk, AllCompleted;
    var k := |w.txns[t].members|;
    var p := FinalizePrefix(w, t, k);
    AborterKept(w, t, k);
    PrefixHome(w, t, k);
    forall d | d in p.txns[t].done
      ensures d in p.jobs && p.jobs[d].home == t && p.jobs[d].outcome != NoOutcome
      ensures !w.txns[t].prepareFailed ==> p.jobs[d].outcome == Aborted
    {
      PrefixDone(w, t, k, d);
    }
  }

  lemma EndTxn(w: World, t: nat)
    requires t in w.txns && LoopOver(w, t)
    ensures TxnOk(EndLoop(w, t), t) && EndLoop(w, t).txns[t].members == []
  {
    hide JobOk, Release;
    ReleaseOk(w.jobs[w.txns[t].aborter.value], w.txns[t].hold);
  }

  lemma EndHome(w: World, t: nat)
    requires t in w.txns && LoopOver(w, t) && HomeOk(w, t)
    ensures HomeOk(EndLoop(w, t), t) && OnlyTxn(w, EndLoop(w, t), t)
  {
    hide JobOk, Release;
    var r, a := EndLoop(w, t), w.txns[t].aborter.value;
    ReleaseOk(w.jobs[a], w.txns[t].hold);
    forall j | j in r.jobs && r.jobs[j].home == t
      ensures JobAt(r, j)
    {
      assert JobAt(w, j);
    }
  }

  /** The abort loop that gets to the end of the list gives back what it held. */
  lemma LoopEnds(w: World, t: nat)
    requires t in w.txns && LoopStart(w, t) && Lead(w.jobs, w.txns[t].members) == |w.txns[t].members|
    ensures TxnOk(AbortLoop(w, t), t)
    ensures HomeOk(AbortLoop(w, t), t) && OnlyTxn(w, AbortLoop(w, t), t)
  {
    hide JobOk, Finalizable, Completed, HomeOk, EndLoop, FinalizePrefix, TxnOk, OnlyTxn, AllCompleted, MemberOk;
    var k := |w.txns[t].members|;
    LeadFinalizable(w, t);
    PrefixHome(w, t, k);
    PrefixOnly(w, t, k);
    PrefixOver(w, t);
    var p := FinalizePrefix(w, t, k);
    LoopOverIn(w, t, p);
    EndTxn(p, t);
    EndHome(p, t);
    OnlyTxnTrans(w, p, EndLoop(p, t), t);
  }

  lemma LoopOverIn(w: World, t: nat, p: World)
    requires OnlyTxn(w, p, t)
    ensures t in p.txns
  {
  }

  /** The abort loop leaves its transaction in order. */
  lemma LoopResult(w: World, t: nat)
    requires t in w.txns && LoopStart(w, t)
    ensures TxnOk(AbortLoop(w, t), t) && HomeOk(AbortLoop(w, t), t) && OnlyTxn(w, AbortLoop(w, t), t)
  {
    hide TxnOk, HomeOk, OnlyTxn, JobOk, Finalizable, FinalizePrefix, AllCompleted, MemberOk;
    var k := Lead(w.jobs, w.txns[t].members);
    if k < |w.txns[t].members| {
      LoopWaits(w, t);
      LeadFinalizable(w, t);
      PrefixHome(w, t, k);
      PrefixOnly(w, t, k);
    } else {
      LoopEnds(w, t);
    }
  }

  lemma AbortedInv(w: World, w1: World, t: nat, j: nat, hold: nat)
    requires Inv(w) && OnlyTxn(w, w1, t) && t in w.txns && AbortReady(w1, t, j)
    requires LoopStart(Marked(w1, t, j, hold), t)
    ensures Inv(Abort(w1, t, j, hold))
  {
    hide Inv, TxnOk, HomeOk, LoopStart, AbortLoop, JobOk, CancelAsync, Hold, Finalizable, Completed;
    var m := Marked(w1, t, j, hold);
    MarkedReady(w1, t, j, hold);
    MarkedOnly(w1, t, j, hold);
    LoopResult(m, t);
    OnlyTxnTrans(w, w1, m, t);
    OnlyTxnTrans(w, m, AbortLoop(m, t), t);
    FrameInv(w, AbortLoop(m, t), t);
  }

  lemma MarkedOnly(w: World, t: nat, j: nat, hold: nat)
    requires t in w.txns && AbortReady(w, t, j)
    ensures OnlyTxn(w, Marked(w, t, j, hold), t)
  {
    hide JobOk, Finalizable, Completed, CancelAsync, Hold;
    var r := Marked(w, t, j, hold);
    forall k | k in w.jobs
      ensures r.jobs[k].home == w.jobs[k].home && (w.jobs[k].home != t ==> r.jobs[k] == w.jobs[k])
    {
      if k == j {
        HoldOk(w.jobs[k], hold);
      } else if k in w.txns[t].members {
        CancelAsyncOk(w.jobs[k], true);
      }
    }
  }

  lemma MarkedHome(w: World, t: nat, j: nat, hold: nat)
    requires t in w.txns && AbortReady(w, t, j) && HomeOk(w, t) && w.txns[t].aborter == None
    ensures HomeOk(Marked(w, t, j, hold), t)
  {
    hide JobOk, Finalizable, Completed, CancelAsync, Hold;
    var r := Marked(w, t, j, hold);
    MarkedOnly(w, t, j, hold);
    forall k | k in r.jobs && r.jobs[k].home == t
      ensures JobAt(r, k)
    {
      assert JobAt(w, k);
      if k == j {
        HoldOk(w.jobs[k], hold);
      } else if k in w.txns[t].members {
        CancelAsyncOk(w.jobs[k], true);
      }
    }
  }

  /** Aborting a transaction in order on behalf of a member that is doomed. */
  lemma AbortInv(w: World, t: nat, j: nat, k: Job, hold: nat)
    requires Inv(w) && t in w.txns && !w.txns[t].aborting && j in w.txns[t].members
    requires JobOk(k) && k.txn == Some(t) && k.home == t && k.refs.held == 0 && Doomed(k)
    requires if Completed(k.status) then Finalizable(k) else k.forceCancel
    requires k.status.Pending? <==> w.jobs[j].status.Pending?
    requires (w.txns[t].members == [j] && Completed(k.status)) || (AllStarted(w, t) && Started(k.exec))
    ensures AbortReady(SetJob(w, j, k), t, j) && Inv(Abort(SetJob(w, j, k), t, j, hold))
  {
    hide Inv, TxnOk, LoopStart, AbortReady, Abort, JobOk, Finalizable, Marked;
    AbortReadyWith(w, t, j, k);
    AbortStarts(w, t, j, k, hold);
    MemberHome(w, t, j);
    SetOnly(w, t, j, k);
    AbortedInv(w, SetJob(w, j, k), t, j, hold);
  }

  lemma SetOnly(w: World, t: nat, j: nat, k: Job)
    requires t in w.txns && j in w.jobs && w.jobs[j].home == t == k.home
    ensures OnlyTxn(w, SetJob(w, j, k), t)
  {
    assert w.txns[t := w.txns[t]] == w.txns;
  }

  lemma AbortStarts(w: World, t: nat, j: nat, k: Job, hold: nat)
    requires Inv(w) && t in w.txns && !w.txns[t].aborting && j in w.txns[t].members
    requires JobOk(k) && k.txn == Some(t) && k.home == t && k.refs.held == 0 && Doomed(k)
    requires if Completed(k.status) then Finalizable(k) else k.forceCancel
    requires k.status.Pending? <==> w.jobs[j].status.Pending?
    requires (w.txns[t].members == [j] && Completed(k.status)) || (AllStarted(w, t) && Started(k.exec))
    requires AbortReady(SetJob(w, j, k), t, j)
    ensures LoopStart(Marked(SetJob(w, j, k), t, j, hold), t)
  {
    hide JobOk, Finalizable, Inv, CancelAsync, Hold, JobAt, Doomed, Started, TxnOk, AbortReady;
    var w1 := SetJob(w, j, k);
    var m := Marked(w1, t, j, hold);
    StartFacts(w, t, j);
    MarkedReady(w1, t, j, hold);
    ReplacedHome(w, t, j, k);
    MarkedHome(w1, t, j, hold);
    forall i | i in w.txns[t].members
      ensures Doomed(m.jobs[i])
        && (Started(w1.jobs[i].exec) && !w1.jobs[i].status.Pending? ==> MemberOk(m.txns[t], m.jobs[i]))
      ensures m.jobs[i].status == w1.jobs[i].status
    {
      MarkedMember(w1, t, j, hold, i);
    }
    if exists i :: i in w.txns[t].members && w.jobs[i].status.Pending? {
      assert AllCompleted(m, t);
    }
  }

  lemma StartFacts(w: World, t: nat, j: nat)
    requires Inv(w) && t in w.txns && !w.txns[t].aborting && j in w.txns[t].members
    ensures var txn := w.txns[t];
      && MembersOk(w, t) && PendingTogether(w, t)
      && txn.done == [] && !txn.prepareFailed && txn.aborter == None && txn.refcnt == |txn.members| + txn.ext
  {
    hide JobsOk, StandingOk;
    assert TxnOk(w, t);
  }

  lemma ReplacedHome(w: World, t: nat, j: nat, k: Job)
    requires Inv(w) && t in w.txns && j in w.txns[t].members && JobOk(k) && k.home == t && k.refs.held == 0
    ensures HomeOk(SetJob(w, j, k), t)
  {
    hide JobOk, TxnOk;
    var r := SetJob(w, j, k);
    forall i | i in r.jobs && r.jobs[i].home == t
      ensures JobAt(r, i)
    {
      if i != j {
        assert JobAt(w, i);
      }
    }
  }

  lemma MarkedMember(w: World, t: nat, j: nat, hold: nat, i: nat)
    requires t in w.txns && AbortReady(w, t, j) && i in w.txns[t].members && Doomed(w.jobs[j])
    requires !Completed(w.jobs[j].status) ==> w.jobs[j].forceCancel
    ensures var m := Marked(w, t, j, hold);
      && Doomed(m.jobs[i]) && m.jobs[i].status == w.jobs[i].status
      && (Started(w.jobs[i].exec) && !w.jobs[i].status.Pending? ==> MemberOk(m.txns[t], m.jobs[i]))
  {
    hide JobOk, Finalizable;
    CancelAsyncOk(w.jobs[i], true);
  }

  /** A transaction about to be finalised. */
  predicate FinalizeStart(w: World, t: nat)
    requires t in w.txns
  {
    var txn := w.txns[t];
    && AllPending(w, t) && HomeOk(w, t) && txn.done == [] && !txn.prepareFailed && txn.aborter == None
    && txn.refcnt == |txn.members| + txn.ext
  }

  lemma CommitOutcome(w: World, t: nat, m: nat)
    requires t in w.txns && AllPending(w, t) && m in w.txns[t].members
    requires PrefixFinalizable(w, t, |w.txns[t].members|)
    ensures FinalizePrefix(w, t, |w.txns[t].members|).jobs[m].outcome == Committed
  {
    hide JobOk, Finalized, Finalizable;
    var all := w.txns[t].members;
    assert all[..|all|] == all;
    PendingJob(w.jobs[m]);
    FinalizedOk(w.jobs[m]);
  }

  lemma CommitInv(w: World, w1: World, t: nat)
    requires Inv(w) && OnlyTxn(w, w1, t) && t in w1.txns && FinalizeStart(w1, t)
    ensures PrefixFinalizable(w1, t, |w1.txns[t].members|) && Inv(FinalizePrefix(w1, t, |w1.txns[t].members|))
  {
    hide JobOk, Finalized, Finalizable, Inv, HomeOk;
    var all := w1.txns[t].members;
    PendingFinalizable(w1, t);
    var r := FinalizePrefix(w1, t, |all|);
    PrefixHome(w1, t, |all|);
    PrefixOnly(w1, t, |all|);
    OnlyTxnTrans(w, w1, r, t);
    assert all[..|all|] == all && all[|all|..] == [];
    forall d | d in r.txns[t].done
      ensures d in r.jobs && r.jobs[d].home == t && r.jobs[d].outcome == Committed
    {
      CommitOutcome(w1, t, d);
    }
    FrameInv(w, r, t);
  }

  lemma FailedHome(w: World, t: nat, f: nat, ret: int)
    requires t in w.txns && FinalizeStart(w, t) && f in w.txns[t].members && ret != 0
    ensures HomeOk(Failed(w, t, f, ret), t) && OnlyTxn(w, Failed(w, t, f, ret), t)
  {
    hide JobOk, UpdateRc, Finalizable;
    var r := Failed(w, t, f, ret);
    FailedJob(w.jobs[f], ret);
    forall i | i in r.jobs && r.jobs[i].home == t
      ensures JobAt(r, i)
    {
      assert JobAt(w, i);
    }
  }

  lemma FailedStarts(w: World, t: nat, f: nat, ret: int, j: nat)
    requires t in w.txns && FinalizeStart(w, t) && f in w.txns[t].members && ret != 0 && j in w.txns[t].members
    ensures AbortReady(Failed(w, t, f, ret), t, j) && LoopStart(Marked(Failed(w, t, f, ret), t, j, 1), t)
  {
    hide JobOk, Finalizable, CancelAsync, Hold, JobAt, Doomed, Started, UpdateRc;
    var w1 := Failed(w, t, f, ret);
    FailedReady(w, t, f, ret, j);
    FailedHome(w, t, f, ret);
    FailedJob(w.jobs[f], ret);
    var m := Marked(w1, t, j, 1);
    MarkedReady(w1, t, j, 1);
    MarkedHome(w1, t, j, 1);
    forall i | i in w.txns[t].members
      ensures m.jobs[i].status == w1.jobs[i].status
    {
      HoldOk(w1.jobs[i], 1);
      CancelAsyncOk(w1.jobs[i], true);
    }
    assert AllCompleted(m, t);
  }

  lemma DoFinalizeInv(w: World, w1: World, t: nat, j: nat, prepare: nat -> int)
    requires Inv(w) && OnlyTxn(w, w1, t) && t in w.txns && t in w1.txns
      && FinalizeStart(w1, t) && j in w1.txns[t].members
    ensures Inv(DoFinalize(w1, t, j, prepare))
  {
    hide Inv, HomeOk, LoopStart, Abort, FinalizePrefix, AbortReady, OnlyTxn, Marked, JobOk, UpdateRc, AllPending;
    var f := FirstFailure(w1.txns[t].members, prepare);
    if f.None? {
      CommitInv(w, w1, t);
    } else {
      var ret := prepare(f.value);
      FailedStarts(w1, t, f.value, ret, j);
      FailedHome(w1, t, f.value, ret);
      OnlyTxnTrans(w, w1, Failed(w1, t, f.value, ret), t);
      AbortedInv(w, Failed(w1, t, f.value, ret), t, j, 1);
    }
  }

  /** Moving all members to PENDING starts the finalisation of a transaction in order. */
  lemma PendingStarts(w: World, w1: World, t: nat)
    requires t in w1.txns && WaitingTogether(w1, t) && AllCompleted(w1, t) && HomeOk(w1, t)
    requires var txn := w1.txns[t];
      txn.done == [] && !txn.prepareFailed && txn.aborter == None && txn.refcnt == |txn.members| + txn.ext
    requires OnlyTxn(w, w1, t)
    ensures FinalizeStart(ToPending(w1, t), t) && OnlyTxn(w, ToPending(w1, t), t)
    ensures TxnOk(ToPending(w1, t), t)
  {
    hide JobOk;
    var r := ToPending(w1, t);
    ToPendingReady(w1, t);
    forall i | i in r.jobs && r.jobs[i].home == t
      ensures JobAt(r, i)
    {
      assert JobAt(w1, i);
    }
    assert OnlyTxn(w1, r, t) by {
      assert w1.txns[t := w1.txns[t]] == w1.txns;
    }
    OnlyTxnTrans(w, w1, r, t);
  }
}
