/**
 What completing, finalising and cancelling jobs comes to for every member of the
 transaction, said in terms of the state before and after the call only.
 */
module JobOutcomes {
  import opened JobModel
  import opened JobInvariant
  import opened JobTransactions
  import opened JobRun
  import opened JobSafety
  import opened JobSteps
  import opened JobTheorems

  /** The run function returned 0 and nobody has cancelled the job by force. */
  predicate ReturnedWell(j: Job) {
    j.ret == 0 && !j.forceCancel
  }

  /** What a failed or cancelled job reports: its own error, or that it was cancelled. */
  function ErrorOf(j: Job): int {
    if j.ret != 0 then j.ret else -125
  }

  /** The job has left its transaction with `ret`: committed for 0, aborted otherwise. */
  predicate EndsAs(a: Job, b: Job, ret: int) {
    && b.ret == ret && b.outcome == (if ret == 0 then Committed else Aborted)
    && b.txn == None && b.status == if a.autoDismiss || !Started(a.exec) then Null else Concluded
  }

  /** The job is in its transaction as before. */
  predicate StillIn(a: Job, b: Job) {
    b.outcome == a.outcome == NoOutcome && b.txn == a.txn && b.autoFinalize == a.autoFinalize
  }

  /** Every member of the list up to `i` has completed; those in `also` count as completed. */
  predicate DoneTo(w: World, members: seq<nat>, also: set<nat>, i: int) {
    forall k :: 0 <= k <= i && k < |members| && members[k] !in also ==>
      members[k] in w.jobs && Completed(w.jobs[members[k]].status)
  }

  /** No job of another transaction is touched. */
  predicate OthersKept(w: World, r: World, t: nat) {
    forall k :: k in w.jobs && w.jobs[k].home != t ==> k in r.jobs && r.jobs[k] == w.jobs[k]
  }

  /**
   The transaction is given up: the members at the front of the list that have
   completed, and those in `also`, end aborted; the others are told to stop.
   */
  predicate GivenUp(w: World, r: World, t: nat, also: set<nat>)
    requires t in w.txns
  {
    var members := w.txns[t].members;
    forall i :: 0 <= i < |members| ==> GivenUpAt(w, r, members, also, i)
  }

  predicate GivenUpAt(w: World, r: World, members: seq<nat>, also: set<nat>, i: nat)
    requires i < |members|
  {
    && members[i] in w.jobs && members[i] in r.jobs
    && var a, b := w.jobs[members[i]], r.jobs[members[i]];
    if DoneTo(w, members, also, i) then EndsAs(a, b, ErrorOf(a))
    else StillIn(a, b) && (members[i] !in also ==> b.status == a.status && b.cancelled && b.forceCancel)
  }

  /** Every member has ended as the results of the prepare callbacks, called in the order of the list, demand. */
  ghost predicate FinalizedFor(w: World, r: World, t: nat, j: nat, prepare: nat -> int)
    requires t in w.txns
  {
    var members := w.txns[t].members;
    && (forall m :: m in members ==> m in w.jobs && m in r.jobs)
    && ((forall m :: m in members ==> prepare(m) == 0) ==>
          forall m :: m in members ==> EndsAs(w.jobs[m], r.jobs[m], 0))
    && (forall i :: 0 <= i < |members| && FirstToFail(members, prepare, i) ==>
          forall m :: m in members ==>
            EndsAs(w.jobs[m], r.jobs[m], if m == members[i] then prepare(m) else if m == j then 0 else -125))
  }

  predicate FirstToFail(members: seq<nat>, prepare: nat -> int, i: nat)
    requires i < |members|
  {
    prepare(members[i]) != 0 && forall k :: 0 <= k < i ==> prepare(members[k]) == 0
  }

  /** What job_exit does, for every way the job and its transaction may stand. */
  ghost predicate ExitMeans(w: World, r: World, j: nat, prepare: nat -> int)
    requires j in w.jobs && w.jobs[j].home in w.txns
  {
    var t := w.jobs[j].home;
    var members := w.txns[t].members;
    && OthersKept(w, r, t) && j in r.jobs
    && if !ReturnedWell(w.jobs[j]) then
         if w.txns[t].aborting then
           r.jobs == w.jobs[j := r.jobs[j]] && StillIn(w.jobs[j], r.jobs[j])
           && r.jobs[j].status.Aborting? && r.jobs[j].ret == ErrorOf(w.jobs[j])
         else GivenUp(w, r, t, {j})
       else if !DoneTo(w, members, {j}, |members|) then
         r.jobs == w.jobs[j := r.jobs[j]] && StillIn(w.jobs[j], r.jobs[j]) && r.jobs[j].status.Waiting?
       else if exists m :: m in members && m in w.jobs && !w.jobs[m].autoFinalize then
         forall m :: m in members ==>
           m in w.jobs && m in r.jobs && r.jobs[m].status.Pending? && StillIn(w.jobs[m], r.jobs[m])
       else FinalizedFor(w, r, t, j, prepare)
  }

  // ----- one job

  lemma FinalizedIs(j: Job)
    requires JobOk(j) && Finalizable(j)
    ensures EndsAs(j, Finalized(j), if j.ret == 0 && j.forceCancel then -125 else j.ret)
  {
    hide PausesOk, RefsOk;
  }

  // ----- the abort loop

  /** The leading completed members are those before which nobody is left running. */
  lemma LeadReaches(jobs: map<nat, Job>, members: seq<nat>, i: nat)
    requires i < |members|
    ensures i < Lead(jobs, members) <==>
      forall k :: 0 <= k <= i ==> members[k] in jobs && Completed(jobs[members[k]].status)
  {
    hide Completed;
    var n := Lead(jobs, members);
    if i < n {
      forall k | 0 <= k <= i
        ensures members[k] in jobs && Completed(jobs[members[k]].status)
      {
        assert members[..n][k] == members[k];
      }
    }
  }

  /** A member the loop reaches ends; one it does not reach is left alone. */
  lemma LoopEach(w: World, t: nat, i: nat)
    requires t in w.txns && LoopReady(w, t) && i < |w.txns[t].members|
    ensures var m := w.txns[t].members[i];
      && m in w.jobs && m in AbortLoop(w, t).jobs
      && var a, b := w.jobs[m], AbortLoop(w, t).jobs[m];
      if i < Lead(w.jobs, w.txns[t].members) then EndsAs(a, b, if a.ret == 0 && a.forceCancel then -125 else a.ret)
      else b == a
  {
    hide JobOk, Finalized, Finalizable, Lead, EndsAs;
    var all := w.txns[t].members;
    var m, k := all[i], Lead(w.jobs, all);
    assert m in all;
    LeadFinalizable(w, t);
    AborterKept(w, t, k);
    var p := FinalizePrefix(w, t, k);
    if i < k {
      assert all[..k][i] == m && m in all[..k];
      FinalizedIs(w.jobs[m]);
    } else {
      NotBefore(all, k, i);
    }
    if k == |all| {
      ReleaseOk(p.jobs[w.txns[t].aborter.value], w.txns[t].hold);
      ReleasedEnds(w.jobs[m], p.jobs[m], AbortLoop(w, t).jobs[m].refs);
    }
  }

  lemma NotBefore(all: seq<nat>, k: nat, i: nat)
    requires k <= i < |all| && forall x, y :: 0 <= x < y < |all| ==> all[x] != all[y]
    ensures all[i] !in all[..k]
  {
  }

  /** Giving back references changes nothing about how a job ended. */
  lemma ReleasedEnds(a: Job, b: Job, refs: Refs)
    ensures forall ret :: EndsAs(a, b, ret) ==> EndsAs(a, b.(refs := refs), ret)
  {
  }

  /** A member of the transaction after the others were told to stop. */
  lemma MarkedIs(w: World, t: nat, j: nat, hold: nat, m: nat)
    requires t in w.txns && AbortReady(w, t, j) && m in w.txns[t].members
    ensures m in w.jobs && m in Marked(w, t, j, hold).jobs
    ensures var a, b := w.jobs[m], Marked(w, t, j, hold).jobs[m];
      && b.status == a.status && b.exec == a.exec && b.ret == a.ret && b.outcome == a.outcome && b.txn == a.txn
      && b.autoDismiss == a.autoDismiss && b.autoFinalize == a.autoFinalize
      && (m == j ==> b.forceCancel == a.forceCancel && b.cancelled == a.cancelled)
      && (m != j ==> b.forceCancel && b.cancelled)
  {
    hide JobOk, CancelAsync, Finalizable;
    CancelAsyncOk(w.jobs[m], true);
  }

  /** The loop reaches as far as the members have completed. */
  lemma LeadDone(w: World, t: nat, j: nat, hold: nat, i: nat)
    requires t in w.txns && AbortReady(w, t, j) && i < |w.txns[t].members|
    ensures i < Lead(Marked(w, t, j, hold).jobs, w.txns[t].members) <==> DoneTo(w, w.txns[t].members, {}, i)
  {
    hide AbortReady, Marked, Completed;
    var all := w.txns[t].members;
    LeadReaches(Marked(w, t, j, hold).jobs, all, i);
    forall k | 0 <= k <= i
      ensures all[k] in w.jobs && all[k] in Marked(w, t, j, hold).jobs
      ensures Marked(w, t, j, hold).jobs[all[k]].status == w.jobs[all[k]].status
    {
      assert all[k] in all;
      MarkedIs(w, t, j, hold, all[k]);
    }
  }

  /** A member after its transaction was aborted for `j`. */
  predicate AbortedAt(w: World, r: World, members: seq<nat>, j: nat, i: nat)
    requires i < |members|
  {
    && members[i] in w.jobs && members[i] in r.jobs
    && var a, b := w.jobs[members[i]], r.jobs[members[i]];
    if DoneTo(w, members, {}, i) then
      EndsAs(a, b, if members[i] == j && ReturnedWell(a) then 0 else ErrorOf(a))
    else
      && StillIn(a, b) && b.status == a.status
      && (members[i] == j ==> b.cancelled == a.cancelled && b.forceCancel == a.forceCancel)
      && (members[i] != j ==> b.cancelled && b.forceCancel)
  }

  /** Aborting a transaction, member by member. */
  lemma AbortEach(w: World, t: nat, j: nat, hold: nat, i: nat)
    requires t in w.txns && AbortReady(w, t, j) && i < |w.txns[t].members|
    ensures AbortedAt(w, Abort(w, t, j, hold), w.txns[t].members, j, i)
  {
    hide Completed, Marked, AbortLoop, LoopReady, Lead, EndsAs, DoneTo;
    var k := Marked(w, t, j, hold);
    var all := w.txns[t].members;
    MarkedReady(w, t, j, hold);
    MarkedTxn(w, t, j, hold);
    assert all[i] in all;
    MarkedIs(w, t, j, hold, all[i]);
    LeadDone(w, t, j, hold, i);
    LoopEach(k, t, i);
    SameEnd(w.jobs[all[i]], k.jobs[all[i]]);
    MemberStill(w.jobs[all[i]]);
  }

  lemma MarkedTxn(w: World, t: nat, j: nat, hold: nat)
    requires t in w.txns && AbortReady(w, t, j)
    ensures t in Marked(w, t, j, hold).txns && Marked(w, t, j, hold).txns[t].members == w.txns[t].members
  {
  }

  lemma SameEnd(a: Job, b: Job)
    requires b.exec == a.exec && b.autoDismiss == a.autoDismiss
    ensures forall c, ret :: EndsAs(b, c, ret) ==> EndsAs(a, c, ret)
  {
  }

  /** A member of a transaction has no outcome yet. */
  lemma MemberStill(j: Job)
    requires JobOk(j) && j.txn.Some?
    ensures j.outcome == NoOutcome
  {
  }

  // ----- job_exit

  /** The job as job_exit hands it to its transaction. */
  lemma ExitedIs(j: Job)
    requires JobOk(j) && j.exec.exitPending
    ensures Allowed(j.status, Aborting) && StillIn(j, Exited(j))
    ensures var e := Exited(j);
      && e.autoDismiss == j.autoDismiss && Started(e.exec) && Started(j.exec)
      && (ReturnedWell(j) ==> e.ret == 0 && Allowed(e.status, Waiting) && !e.forceCancel)
      && (!ReturnedWell(j) ==> e.ret == ErrorOf(j) != 0 && e.status.Aborting?)
      && !Completed(j.status)
  {
    hide PausesOk, RefsOk;
  }

  lemma ExitFails(w: World, j: nat)
    requires Inv(w) && j in w.jobs && w.jobs[j].exec.exitPending && !ReturnedWell(w.jobs[j])
    requires w.jobs[j].home in w.txns && !w.txns[w.jobs[j].home].aborting
    ensures Allowed(w.jobs[j].status, Aborting)
    ensures var t, e := w.jobs[j].home, Exited(w.jobs[j]);
      AbortReady(SetJob(w, j, e), t, j) && GivenUp(w, Abort(SetJob(w, j, e), t, j, 2), t, {j})
  {
    hide Inv, JobOk, Exited, Abort, AbortReady, EndsAs;
    Facts(w, j);
    ExitReady(w, j);
    ExitedIs(w.jobs[j]);
    var t, e := w.jobs[j].home, Exited(w.jobs[j]);
    var w1 := SetJob(w, j, e);
    var r, all := Abort(w1, t, j, 2), w.txns[t].members;
    forall i | 0 <= i < |all|
      ensures GivenUpAt(w, r, all, {j}, i)
    {
      assert all[i] in all;
      AbortEach(w1, t, j, 2, i);
      assert DoneTo(w1, all, {}, i) <==> DoneTo(w, all, {j}, i);
      if all[i] == j {
        StartedEnd(w.jobs[j], e);
      }
    }
  }

  lemma StartedEnd(a: Job, b: Job)
    requires Started(a.exec) && Started(b.exec) && b.autoDismiss == a.autoDismiss
    ensures forall c, ret :: EndsAs(b, c, ret) ==> EndsAs(a, c, ret)
  {
  }

  // ----- finalising

  lemma {:induction false} FirstFailureIs(members: seq<nat>, prepare: nat -> int, i: nat)
    requires i < |members| && FirstToFail(members, prepare, i)
    ensures FirstFailure(members, prepare) == Some(members[i])
  {
    if i > 0 {
      assert prepare(members[0]) == 0;
      forall k | 0 <= k < i - 1
        ensures prepare(members[1..][k]) == 0
      {
        assert members[1..][k] == members[k + 1];
      }
      FirstFailureIs(members[1..], prepare, i - 1);
    }
  }

  lemma CommittedEnds(w: World, t: nat, m: nat)
    requires t in w.txns && AllPending(w, t) && m in w.txns[t].members
    requires PrefixFinalizable(w, t, |w.txns[t].members|)
    ensures m in w.jobs && m in FinalizePrefix(w, t, |w.txns[t].members|).jobs
    ensures EndsAs(w.jobs[m], FinalizePrefix(w, t, |w.txns[t].members|).jobs[m], 0)
  {
    hide JobOk, Finalized, EndsAs;
    var all := w.txns[t].members;
    assert all[..|all|] == all;
    PendingJob(w.jobs[m]);
    FinalizedIs(w.jobs[m]);
  }

  /** The pending transaction after the prepare callback of `f` failed. */
  lemma FailedIs(w: World, t: nat, f: nat, ret: int, m: nat)
    requires t in w.txns && AllPending(w, t) && f in w.txns[t].members && m in w.txns[t].members && ret != 0
    ensures var w1 := Failed(w, t, f, ret);
      && t in w1.txns && w1.txns[t].members == w.txns[t].members && m in w1.jobs && Completed(w1.jobs[m].status)
      && w1.jobs[m].ret == (if m == f then ret else 0)
      && w1.jobs[m].exec == w.jobs[m].exec && w1.jobs[m].autoDismiss == w.jobs[m].autoDismiss
      && !w1.jobs[m].forceCancel
  {
    hide PausesOk, RefsOk;
    PendingJob(w.jobs[m]);
  }

  lemma FailureEnds(w: World, t: nat, j: nat, f: nat, ret: int, m: nat)
    requires t in w.txns && AllPending(w, t) && j in w.txns[t].members && f in w.txns[t].members && ret != 0
    requires AbortReady(Failed(w, t, f, ret), t, j) && m in w.txns[t].members
    ensures var r := Abort(Failed(w, t, f, ret), t, j, 1);
      && m in w.jobs && m in r.jobs
      && EndsAs(w.jobs[m], r.jobs[m], if m == f then ret else if m == j then 0 else -125)
  {
    hide AllPending, AbortReady, Failed, Abort, EndsAs, JobOk, Completed;
    var w1, all := Failed(w, t, f, ret), w.txns[t].members;
    forall k | k in all
      ensures k in w1.jobs && Completed(w1.jobs[k].status)
    {
      FailedIs(w, t, f, ret, k);
    }
    FailedIs(w, t, f, ret, m);
    var i :| 0 <= i < |all| && all[i] == m;
    AbortEach(w1, t, j, 1, i);
    PendingMember(w, t, m);
    SameEnd(w.jobs[m], w1.jobs[m]);
  }

  lemma PendingMember(w: World, t: nat, m: nat)
    requires t in w.txns && AllPending(w, t) && m in w.txns[t].members
    ensures m in w.jobs && w.jobs[m].status.Pending? && w.jobs[m].ret == 0 && !w.jobs[m].forceCancel
    ensures w.jobs[m].txn == Some(t) && Allowed(w.jobs[m].status, Aborting)
  {
    hide ExecOk, PausesOk, RefsOk;
  }

  /** Finalising gives every member the end the prepare callbacks demand. */
  lemma DoFinalizeMeans(w: World, t: nat, j: nat, prepare: nat -> int)
    requires t in w.txns && AllPending(w, t) && j in w.txns[t].members
    ensures FinalizedFor(w, DoFinalize(w, t, j, prepare), t, j, prepare)
  {
    hide AllPending, AbortReady, Failed, Abort, EndsAs, FinalizePrefix;
    var all := w.txns[t].members;
    var f := FirstFailure(all, prepare);
    var r := DoFinalize(w, t, j, prepare);
    if f.None? {
      PendingFinalizable(w, t);
      forall m | m in all
        ensures m in w.jobs && m in r.jobs && EndsAs(w.jobs[m], r.jobs[m], 0)
      {
        CommittedEnds(w, t, m);
      }
    } else {
      FailedReady(w, t, f.value, prepare(f.value), j);
      forall m | m in all
        ensures m in w.jobs && m in r.jobs
        ensures EndsAs(w.jobs[m], r.jobs[m], if m == f.value then prepare(m) else if m == j then 0 else -125)
      {
        FailureEnds(w, t, j, f.value, prepare(f.value), m);
      }
    }
    forall i | 0 <= i < |all| && FirstToFail(all, prepare, i)
      ensures f == Some(all[i])
    {
      FirstFailureIs(all, prepare, i);
    }
  }

  // ----- jobs of other transactions

  lemma OthersTrans(a: World, b: World, c: World, t: nat)
    requires OthersKept(a, b, t) && OthersKept(b, c, t)
    ensures OthersKept(a, c, t)
  {
  }

  lemma PrefixOthers(w: World, t: nat, k: nat)
    requires t in w.txns && MembersOk(w, t) && PrefixFinalizable(w, t, k)
    ensures OthersKept(w, FinalizePrefix(w, t, k), t)
  {
    hide Finalized, Finalizable;
  }

  lemma LoopOthers(w: World, t: nat)
    requires t in w.txns && LoopReady(w, t) && w.jobs[w.txns[t].aborter.value].home == t
    ensures OthersKept(w, AbortLoop(w, t), t)
  {
    hide JobOk, Finalized, Finalizable, Lead;
    var k := Lead(w.jobs, w.txns[t].members);
    LeadFinalizable(w, t);
    AborterKept(w, t, k);
    PrefixOthers(w, t, k);
  }

  lemma AbortOthers(w: World, t: nat, j: nat, hold: nat)
    requires t in w.txns && (!w.txns[t].aborting ==> AbortReady(w, t, j))
    ensures OthersKept(w, Abort(w, t, j, hold), t)
  {
    hide JobOk, Finalizable, CancelAsync, AbortLoop, LoopReady;
    if !w.txns[t].aborting {
      var k := Marked(w, t, j, hold);
      MarkedReady(w, t, j, hold);
      LoopReadyMembers(k, t);
      LoopOthers(k, t);
      OthersTrans(w, k, AbortLoop(k, t), t);
    }
  }

  lemma DoFinalizeOthers(w: World, t: nat, j: nat, prepare: nat -> int)
    requires t in w.txns && AllPending(w, t) && j in w.txns[t].members
    ensures OthersKept(w, DoFinalize(w, t, j, prepare), t)
  {
    hide JobOk, UpdateRc, Abort, AbortReady, FinalizePrefix;
    var f := FirstFailure(w.txns[t].members, prepare);
    if f.None? {
      PendingFinalizable(w, t);
      PrefixOthers(w, t, |w.txns[t].members|);
    } else {
      FailedReady(w, t, f.value, prepare(f.value), j);
      var w1 := Failed(w, t, f.value, prepare(f.value));
      AbortOthers(w1, t, j, 1);
      OthersTrans(w, w1, Abort(w1, t, j, 1), t);
    }
  }

  // ----- job_exit

  lemma WaitingIs(j: Job)
    requires JobOk(j) && j.exec.exitPending && ReturnedWell(j)
    ensures Allowed(j.status, Aborting) && Allowed(Exited(j).status, Waiting)
    ensures var k := Transition(Exited(j), Waiting);
      && StillIn(j, k) && k.status.Waiting? && k.autoDismiss == j.autoDismiss && k.home == j.home
      && Started(k.exec) && Started(j.exec) && k.ret == 0 && !k.forceCancel
  {
    hide PausesOk, RefsOk;
  }

  lemma ToPendingIs(w: World, t: nat, m: nat)
    requires t in w.txns && WaitingTogether(w, t) && AllCompleted(w, t) && m in w.txns[t].members
    ensures ToPending(w, t).txns == w.txns && OthersKept(w, ToPending(w, t), t)
    ensures m in w.jobs && m in ToPending(w, t).jobs
    ensures ToPending(w, t).jobs[m] == w.jobs[m].(status := JobModel.Pending)
    ensures w.jobs[m].outcome == NoOutcome
  {
    hide PausesOk, RefsOk, ExecOk;
  }

  /** The members of `w` in the state after `j` has become WAITING. */
  predicate NowWaiting(w: World, w1: World, j: nat) {
    && j in w.jobs && j in w1.jobs && w1 == SetJob(w, j, w1.jobs[j])
    && StillIn(w.jobs[j], w1.jobs[j]) && w1.jobs[j].status.Waiting?
    && w1.jobs[j].autoDismiss == w.jobs[j].autoDismiss && w1.jobs[j].home == w.jobs[j].home
    && Started(w1.jobs[j].exec) && Started(w.jobs[j].exec)
  }

  lemma OthersDone(w: World, w1: World, t: nat, j: nat)
    requires NowWaiting(w, w1, j) && t in w.txns && MembersOk(w1, t)
    ensures AllCompleted(w1, t) <==> DoneTo(w, w.txns[t].members, {j}, |w.txns[t].members|)
    ensures (exists m :: m in w.txns[t].members && !w1.jobs[m].autoFinalize) <==>
      exists m :: m in w.txns[t].members && m in w.jobs && !w.jobs[m].autoFinalize
  {
    var all := w.txns[t].members;
    if DoneTo(w, all, {j}, |all|) {
      forall m | m in all
        ensures Completed(w1.jobs[m].status)
      {
        var k :| 0 <= k < |all| && all[k] == m;
      }
    }
    if AllCompleted(w1, t) {
      forall k | 0 <= k < |all| && all[k] != j
        ensures all[k] in w.jobs && Completed(w.jobs[all[k]].status)
      {
        assert all[k] in all;
      }
    }
  }

  lemma FinalizedForEarlier(w: World, w1: World, p: World, r: World, t: nat, j: nat, prepare: nat -> int)
    requires NowWaiting(w, w1, j) && t in w.txns && t in p.txns && p.txns[t].members == w.txns[t].members
    requires forall m :: m in w.txns[t].members ==> m in w1.jobs && m in p.jobs
    requires forall m :: m in w.txns[t].members ==> p.jobs[m] == w1.jobs[m].(status := JobModel.Pending)
    requires FinalizedFor(p, r, t, j, prepare)
    ensures FinalizedFor(w, r, t, j, prepare)
  {
    hide FirstToFail, EndsAs;
    forall m | m in w.txns[t].members
      ensures m in w.jobs
      ensures forall c, ret :: EndsAs(p.jobs[m], c, ret) ==> EndsAs(w.jobs[m], c, ret)
    {
      EndSame(w.jobs[m], p.jobs[m]);
    }
  }

  lemma EndSame(a: Job, b: Job)
    requires Started(a.exec) == Started(b.exec) && b.autoDismiss == a.autoDismiss
    ensures forall c, ret :: EndsAs(b, c, ret) ==> EndsAs(a, c, ret)
  {
  }

  lemma PendingMeans(w: World, w1: World, t: nat, j: nat)
    requires NowWaiting(w, w1, j) && t in w.txns && t == w.jobs[j].home && j in w.txns[t].members
    requires WaitingTogether(w1, t) && AllCompleted(w1, t)
    ensures var p := ToPending(w1, t);
      && p.txns == w.txns && OthersKept(w, p, t)
      && forall m :: m in w.txns[t].members ==>
           && m in w.jobs && m in w1.jobs && m in p.jobs
           && p.jobs[m].status.Pending? && StillIn(w.jobs[m], p.jobs[m])
           && p.jobs[m] == w1.jobs[m].(status := JobModel.Pending)
  {
    hide WaitingTogether, AllCompleted, ToPending;
    var p := ToPending(w1, t);
    assert OthersKept(w, w1, t);
    ToPendingIs(w1, t, j);
    OthersTrans(w, w1, p, t);
    forall m | m in w.txns[t].members
      ensures m in w.jobs && m in w1.jobs && m in p.jobs
      ensures p.jobs[m] == w1.jobs[m].(status := JobModel.Pending) && w1.jobs[m].outcome == NoOutcome
    {
      ToPendingIs(w1, t, m);
    }
  }

  lemma ExitSucceeds(w: World, w1: World, j: nat, prepare: nat -> int)
    requires NowWaiting(w, w1, j) && ReturnedWell(w.jobs[j])
    requires w.jobs[j].home in w.txns && j in w.txns[w.jobs[j].home].members && WaitingTogether(w1, w.jobs[j].home)
    ensures ExitMeans(w, Success(w1, w.jobs[j].home, j, prepare), j, prepare)
  {
    hide JobOk, DoFinalize, FinalizedFor, DoneTo, AllPending, ToPending, AllCompleted;
    var t := w.jobs[j].home;
    var all, r := w.txns[t].members, Success(w1, t, j, prepare);
    OthersDone(w, w1, t, j);
    assert OthersKept(w, w1, t);
    if AllCompleted(w1, t) {
      ToPendingReady(w1, t);
      PendingMeans(w, w1, t, j);
      var p := ToPending(w1, t);
      if !exists m :: m in all && !w1.jobs[m].autoFinalize {
        DoFinalizeMeans(p, t, j, prepare);
        DoFinalizeOthers(p, t, j, prepare);
        OthersTrans(w, p, r, t);
        FinalizedForEarlier(w, w1, p, r, t, j, prepare);
        MembersThere(p, r, t, j, prepare);
      }
    }
  }

  /** What the transaction makes of a member that has just become WAITING. */
  ghost predicate SuccessMeans(w: World, r: World, t: nat, j: nat, prepare: nat -> int)
    requires t in w.txns
  {
    var members := w.txns[t].members;
    && (forall m :: m in members ==> m in w.jobs)
    && if exists m :: m in members && m in w.jobs && !Completed(w.jobs[m].status) then r == w
       else if exists m :: m in members && m in w.jobs && !w.jobs[m].autoFinalize then
         forall m :: m in members ==> m in r.jobs && r.jobs[m].status.Pending? && StillIn(w.jobs[m], r.jobs[m])
       else FinalizedFor(w, r, t, j, prepare)
  }

  lemma SuccessMeaning(w: World, t: nat, j: nat, prepare: nat -> int)
    requires t in w.txns && WaitingTogether(w, t) && j in w.txns[t].members
    ensures SuccessMeans(w, Success(w, t, j, prepare), t, j, prepare)
  {
    hide JobOk, DoFinalize, FinalizedFor, AllPending, ToPending;
    if AllCompleted(w, t) {
      ToPendingReady(w, t);
      var p := ToPending(w, t);
      forall m | m in w.txns[t].members
        ensures p.txns == w.txns && m in w.jobs && m in p.jobs
        ensures p.jobs[m] == w.jobs[m].(status := JobModel.Pending) && w.jobs[m].outcome == NoOutcome
      {
        ToPendingIs(w, t, m);
      }
      DoFinalizeMeans(p, t, j, prepare);
      PendingEnds(w, p, DoFinalize(p, t, j, prepare), t, j, prepare);
    }
  }

  /** Becoming pending on the way does not matter to how the members end. */
  lemma PendingEnds(w: World, p: World, r: World, t: nat, j: nat, prepare: nat -> int)
    requires t in w.txns && t in p.txns && p.txns[t].members == w.txns[t].members
    requires forall m :: m in w.txns[t].members ==> m in w.jobs && m in p.jobs
    requires forall m :: m in w.txns[t].members ==> p.jobs[m] == w.jobs[m].(status := JobModel.Pending)
    requires FinalizedFor(p, r, t, j, prepare)
    ensures FinalizedFor(w, r, t, j, prepare)
  {
    hide FirstToFail, EndsAs;
    forall m | m in w.txns[t].members
      ensures forall c, ret :: EndsAs(p.jobs[m], c, ret) ==> EndsAs(w.jobs[m], c, ret)
    {
      EndSame(w.jobs[m], p.jobs[m]);
    }
  }

  lemma MembersThere(w: World, r: World, t: nat, j: nat, prepare: nat -> int)
    requires t in w.txns && FinalizedFor(w, r, t, j, prepare) && j in w.txns[t].members
    ensures j in r.jobs
  {
  }

  /** job_exit, for every way the job and its transaction may stand. */
  lemma ExitMeaning(w: World, j: nat, prepare: nat -> int)
    requires Inv(w) && j in w.jobs && w.jobs[j].exec.exitPending
    ensures w.jobs[j].home in w.txns && ExitMeans(w, Exits(w, j, prepare), j, prepare)
  {
    hide Inv, JobOk, Exited, Abort, Success, AbortReady, WaitingTogether, GivenUp, FinalizedFor;
    Facts(w, j);
    ExitReady(w, j);
    ExitedIs(w.jobs[j]);
    var t, e := w.jobs[j].home, Exited(w.jobs[j]);
    if ReturnedWell(w.jobs[j]) {
      WaitingIs(w.jobs[j]);
      ExitSucceeds(w, SetJob(w, j, Transition(e, Waiting)), j, prepare);
    } else if w.txns[t].aborting {
      AbortNothing(SetJob(w, j, e), t, j, 2);
    } else {
      ExitFails(w, j);
      ExitedOk(w.jobs[j]);
      var w1 := SetJob(w, j, e);
      AbortOthers(w1, t, j, 2);
      OthersTrans(w, w1, Abort(w1, t, j, 2), t);
      AbortAfter(w1, t, j, 2);
    }
  }
}
