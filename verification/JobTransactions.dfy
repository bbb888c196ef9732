/** Jobs and their transactions: completion, the abort loop, finalisation, and the calls that lead to them. */
module JobTransactions {
  import opened JobModel
  import opened JobInvariant

  /**
   `aborter` is the job on whose behalf the abort loop runs while it still waits
   for members, with the references the loop and its caller hold on it; `done`
   lists the members finalised so far.
   */
  datatype Txn = Txn(
    aborting: bool,
    members: seq<nat>,
    refcnt: int,
    ext: nat,
    aborter: Option<nat>,
    hold: nat,
    prepareFailed: bool,
    done: seq<nat>
  )

  datatype World = World(jobs: map<nat, Job>, txns: map<nat, Txn>)

  function SetJob(w: World, j: nat, job: Job): World {
    w.(jobs := w.jobs[j := job])
  }

  function SetTxn(w: World, t: nat, txn: Txn): World {
    w.(txns := w.txns[t := txn])
  }

  /** The members of a transaction are jobs that know it. */
  predicate MembersOk(w: World, t: nat)
    requires t in w.txns
  {
    && (forall m :: m in w.txns[t].members ==> m in w.jobs && w.jobs[m].txn == Some(t) && w.jobs[m].home == t)
    && (forall i, k :: 0 <= i < k < |w.txns[t].members| ==> w.txns[t].members[i] != w.txns[t].members[k])
  }

  /** How far a member may have come, given how its transaction fares. */
  predicate MemberOk(txn: Txn, j: Job) {
    if txn.aborting then Started(j.exec) && Doomed(j) && !j.status.Pending? && (!Completed(j.status) ==> j.forceCancel)
    else Completed(j.status) ==> (j.status.Waiting? || j.status.Pending?) && !j.forceCancel
  }

  predicate StandingOk(w: World, t: nat)
    requires t in w.txns && MembersOk(w, t)
  {
    forall m :: m in w.txns[t].members ==> MemberOk(w.txns[t], w.jobs[m])
  }

  /** Members become pending together. */
  predicate PendingTogether(w: World, t: nat)
    requires t in w.txns && MembersOk(w, t)
  {
    forall m, n :: m in w.txns[t].members && n in w.txns[t].members && w.jobs[m].status.Pending? ==>
      w.jobs[n].status.Pending?
  }

  /** All-or-nothing, as far as members have been finalised. */
  predicate DoneOk(w: World, t: nat)
    requires t in w.txns
  {
    var txn := w.txns[t];
    && (forall d :: d in txn.done ==> d in w.jobs && w.jobs[d].home == t && w.jobs[d].outcome != NoOutcome)
    && (!txn.aborting && txn.done != [] ==> txn.members == [])
    && (!txn.prepareFailed ==>
          forall d :: d in txn.done && d in w.jobs ==> w.jobs[d].outcome == if txn.aborting then Aborted else Committed)
    && (txn.prepareFailed ==> txn.aborting && txn.members == [])
  }

  /** The abort loop runs exactly while an aborting transaction has members, and holds its references. */
  predicate LoopOk(w: World, t: nat)
    requires t in w.txns
  {
    var txn := w.txns[t];
    && (txn.aborter.Some? <==> txn.aborting && txn.members != [])
    && (txn.aborter.Some? ==>
          && txn.aborter.value in w.jobs && w.jobs[txn.aborter.value].home == t
          && w.jobs[txn.aborter.value].refs.held == txn.hold)
    && txn.refcnt == |txn.members| + txn.ext + (if txn.aborter.Some? then 1 else 0)
  }

  predicate TxnOk(w: World, t: nat)
    requires t in w.txns
  {
    MembersOk(w, t) && StandingOk(w, t) && PendingTogether(w, t) && DoneOk(w, t) && LoopOk(w, t)
  }

  /** A job belongs to its transaction until it is concluded, and is held only by that transaction's abort loop. */
  predicate JobAt(w: World, j: nat)
    requires j in w.jobs
  {
    var job := w.jobs[j];
    && JobOk(job) && job.home in w.txns
    && (job.txn.Some? ==> j in w.txns[job.home].members)
    && (job.refs.held > 0 ==> w.txns[job.home].aborter == Some(j))
  }

  predicate JobsOk(w: World) {
    forall j :: j in w.jobs ==> JobAt(w, j)
  }

  predicate Inv(w: World) {
    JobsOk(w) && forall t :: t in w.txns ==> TxnOk(w, t)
  }

  /** The first `k` members of the list, finalised one after the other. */
  predicate PrefixFinalizable(w: World, t: nat, k: nat)
    requires t in w.txns
  {
    k <= |w.txns[t].members| && forall m :: m in w.txns[t].members[..k] ==> m in w.jobs && Finalizable(w.jobs[m])
  }

  /** job_finalize_single_locked for each of the first `k` members */
  function FinalizePrefix(w: World, t: nat, k: nat): World
    requires t in w.txns && PrefixFinalizable(w, t, k)
  {
    var txn := w.txns[t];
    World(map j | j in w.jobs :: if j in txn.members[..k] then Finalized(w.jobs[j]) else w.jobs[j],
          w.txns[t := txn.(members := txn.members[k..], refcnt := txn.refcnt - k, done := txn.done + txn.members[..k])])
  }

  /** How many members at the front of the list have completed. */
  function Lead(jobs: map<nat, Job>, members: seq<nat>): (k: nat)
    ensures k <= |members|
    ensures forall m :: m in members[..k] ==> m in jobs && Completed(jobs[m].status)
    ensures k < |members| ==> members[k] !in jobs || !Completed(jobs[members[k]].status)
  {
    if members == [] || members[0] !in jobs || !Completed(jobs[members[0]].status) then 0
    else
      var k := Lead(jobs, members[1..]);
      assert members[..k + 1] == [members[0]] + members[1..][..k];
      k + 1
  }

  /** Giving back the `k` references held on the job of an abort loop; the precondition is the assertion on freeing */
  function Release(j: Job, k: nat): Job
    requires j.refs.count == k ==> j.status.Null? && !j.exec.timer && j.txn == None
    requires k <= j.refs.held
  {
    j.(refs := j.refs.(count := j.refs.count - k, held := j.refs.held - k))
  }

  /** Every member that has completed can be finalised. */
  predicate Drainable(w: World, t: nat)
    requires t in w.txns
  {
    && MembersOk(w, t)
    && forall m :: m in w.txns[t].members && Completed(w.jobs[m].status) ==> Finalizable(w.jobs[m])
  }

  /** The end of job_completed_txn_abort_locked, when the list is empty */
  function EndLoop(w: World, t: nat): World
    requires t in w.txns && w.txns[t].aborter.Some? && w.txns[t].aborter.value in w.jobs
    requires var j := w.jobs[w.txns[t].aborter.value]; JobOk(j) && j.refs.held == w.txns[t].hold
  {
    var txn := w.txns[t];
    SetTxn(SetJob(w, txn.aborter.value, Release(w.jobs[txn.aborter.value], txn.hold)), t,
           txn.(aborter := None, hold := 0, refcnt := txn.refcnt - 1))
  }

  /** The abort loop of `t` runs for a job on which it holds references, over members it can finalise. */
  predicate LoopReady(w: World, t: nat)
    requires t in w.txns
  {
    && Drainable(w, t) && (forall m :: m in w.txns[t].members ==> JobOk(w.jobs[m]))
    && w.txns[t].aborter.Some? && w.txns[t].aborter.value in w.jobs
    && JobOk(w.jobs[w.txns[t].aborter.value]) && w.jobs[w.txns[t].aborter.value].refs.held == w.txns[t].hold
  }

  lemma LeadFinalizable(w: World, t: nat)
    requires t in w.txns && Drainable(w, t)
    ensures PrefixFinalizable(w, t, Lead(w.jobs, w.txns[t].members))
  {
    hide Finalizable, Completed;
  }

  lemma AborterKept(w: World, t: nat, k: nat)
    requires t in w.txns && LoopReady(w, t) && PrefixFinalizable(w, t, k)
    ensures var r := FinalizePrefix(w, t, k);
      && t in r.txns && w.txns[t].aborter.value in r.jobs
      && r.txns[t].aborter == w.txns[t].aborter && r.txns[t].hold == w.txns[t].hold
      && JobOk(r.jobs[w.txns[t].aborter.value]) && r.jobs[w.txns[t].aborter.value].refs.held == w.txns[t].hold
  {
    hide JobOk, Finalized, Finalizable;
    var a := w.txns[t].aborter.value;
    if a in w.txns[t].members[..k] {
      FinalizedOk(w.jobs[a]);
    }
  }

  /** The loop of job_completed_txn_abort_locked, until it has to wait for the first member or the list is empty */
  function AbortLoop(w: World, t: nat): World
    requires t in w.txns && LoopReady(w, t)
  {
    LeadFinalizable(w, t);
    var k := Lead(w.jobs, w.txns[t].members);
    AborterKept(w, t, k);
    var r := FinalizePrefix(w, t, k);
    if k == |w.txns[t].members| then EndLoop(r, t) else r
  }

  /** A transaction that can be aborted on behalf of its member `j`. */
  predicate AbortReady(w: World, t: nat, j: nat)
    requires t in w.txns
  {
    && MembersOk(w, t) && j in w.txns[t].members && !w.txns[t].aborting
    && (forall m :: m in w.txns[t].members ==> JobOk(w.jobs[m]) && w.jobs[m].refs.held == 0)
    && (Completed(w.jobs[j].status) ==> Finalizable(w.jobs[j]))
  }

  function Hold(j: Job, k: nat): Job {
    j.(refs := j.refs.(count := j.refs.count + k, held := j.refs.held + k))
  }

  /** The first half of job_completed_txn_abort_locked: every other member is cancelled by force. */
  function Marked(w: World, t: nat, j: nat, hold: nat): World
    requires t in w.txns && AbortReady(w, t, j)
  {
    var txn := w.txns[t];
    World(map k | k in w.jobs ::
            if k == j then Hold(w.jobs[k], hold)
              else if k in txn.members then CancelAsync(w.jobs[k], true) else w.jobs[k],
          w.txns[t := txn.(aborting := true, refcnt := txn.refcnt + 1, aborter := Some(j), hold := hold)])
  }

  lemma MarkedReady(w: World, t: nat, j: nat, hold: nat)
    requires t in w.txns && AbortReady(w, t, j)
    ensures LoopReady(Marked(w, t, j, hold), t)
  {
    hide Finalizable, CancelAsync, JobOk, Hold;
    var r := Marked(w, t, j, hold);
    forall m | m in w.txns[t].members
      ensures JobOk(r.jobs[m]) && r.jobs[m].txn == Some(t) && r.jobs[m].home == t
      ensures Completed(r.jobs[m].status) ==> Finalizable(r.jobs[m])
    {
      if m == j {
        HoldOk(w.jobs[m], hold);
      } else {
        CancelAsyncOk(w.jobs[m], true);
        ForcedFinalizable(w.jobs[m]);
      }
    }
    HoldOk(w.jobs[j], hold);
  }

  lemma HoldOk(j: Job, k: nat)
    requires JobOk(j)
    ensures JobOk(Hold(j, k)) && Hold(j, k).refs.held == j.refs.held + k
      && Hold(j, k).txn == j.txn && Hold(j, k).home == j.home
    ensures Hold(j, k).status == j.status && (Finalizable(j) ==> Finalizable(Hold(j, k)))
  {
    hide ExecOk, OutcomeOk, PausesOk;
  }

  /** A completed member that has been cancelled by force can be finalised whatever its status. */
  lemma ForcedFinalizable(j: Job)
    requires JobOk(j) && j.txn.Some?
    ensures JobOk(CancelAsync(j, true)) && CancelAsync(j, true).txn == j.txn && CancelAsync(j, true).home == j.home
    ensures Completed(j.status) ==> Finalizable(CancelAsync(j, true))
    ensures CancelAsync(j, true).status == j.status
  {
    hide PausesOk, RefsOk;
    CancelAsyncOk(j, true);
  }

  /** job_completed_txn_abort_locked; `hold` counts the references that stay held while it runs */
  function Abort(w: World, t: nat, j: nat, hold: nat): World
    requires t in w.txns && (!w.txns[t].aborting ==> AbortReady(w, t, j))
  {
    if w.txns[t].aborting then w
    else
      MarkedReady(w, t, j, hold);
      AbortLoop(Marked(w, t, j, hold), t)
  }

  /** The member whose prepare callback is the first to fail. */
  function FirstFailure(members: seq<nat>, prepare: nat -> int): (r: Option<nat>)
    ensures r.Some? ==> r.value in members && prepare(r.value) != 0
    ensures r.None? ==> forall m :: m in members ==> prepare(m) == 0
  {
    if members == [] then None
    else if prepare(members[0]) != 0 then Some(members[0])
    else FirstFailure(members[1..], prepare)
  }

  /** A transaction whose members all wait to be finalised. */
  predicate AllPending(w: World, t: nat)
    requires t in w.txns
  {
    && MembersOk(w, t) && !w.txns[t].aborting
    && forall m :: m in w.txns[t].members ==>
         JobOk(w.jobs[m]) && w.jobs[m].refs.held == 0 && w.jobs[m].status.Pending? && !w.jobs[m].forceCancel
  }

  function Failed(w: World, t: nat, f: nat, ret: int): World
    requires t in w.txns && AllPending(w, t) && f in w.txns[t].members && ret != 0
  {
    SetTxn(SetJob(w, f, UpdateRc(w.jobs[f].(ret := ret))), t, w.txns[t].(prepareFailed := true))
  }

  lemma FailedReady(w: World, t: nat, f: nat, ret: int, j: nat)
    requires t in w.txns && AllPending(w, t) && f in w.txns[t].members && ret != 0 && j in w.txns[t].members
    ensures AbortReady(Failed(w, t, f, ret), t, j)
  {
    hide JobOk, Finalizable, UpdateRc;
    FailedJob(w.jobs[f], ret);
    PendingJob(w.jobs[j]);
  }

  lemma FailedJob(j: Job, ret: int)
    requires JobOk(j) && j.status.Pending? && ret != 0
    ensures var k := UpdateRc(j.(ret := ret));
      JobOk(k) && k.status.Aborting? && k.refs.held == j.refs.held
        && k.txn == j.txn && k.home == j.home && Finalizable(k)
    ensures UpdateRc(j.(ret := ret)).ret != 0
  {
    hide PausesOk;
  }

  lemma PendingJob(j: Job)
    requires JobOk(j) && j.status.Pending?
    ensures Finalizable(j) && Started(j.exec) && j.exec.deferred && j.ret == 0
  {
  }

  lemma PendingFinalizable(w: World, t: nat)
    requires t in w.txns && AllPending(w, t)
    ensures PrefixFinalizable(w, t, |w.txns[t].members|)
  {
    hide RefsOk, PausesOk, OutcomeOk;
    var all := w.txns[t].members;
    assert all[..|all|] == all;
  }

  /** job_do_finalize_locked */
  function DoFinalize(w: World, t: nat, j: nat, prepare: nat -> int): World
    requires t in w.txns && AllPending(w, t) && j in w.txns[t].members
  {
    var f := FirstFailure(w.txns[t].members, prepare);
    if f.None? then
      PendingFinalizable(w, t);
      FinalizePrefix(w, t, |w.txns[t].members|)
    else
      FailedReady(w, t, f.value, prepare(f.value), j);
      Abort(Failed(w, t, f.value, prepare(f.value)), t, j, 1)
  }

  /** The start of job_exit and job_completed_locked */
  function Exited(j: Job): Job
    requires Allowed(j.status, Aborting)
  {
    UpdateRc(j.(exec := j.exec.(busy := false, exitPending := false)))
  }

  /** A transaction in which nothing has gone wrong yet. */
  predicate WaitingTogether(w: World, t: nat)
    requires t in w.txns
  {
    && MembersOk(w, t) && !w.txns[t].aborting
    && forall m :: m in w.txns[t].members ==>
         && JobOk(w.jobs[m]) && w.jobs[m].refs.held == 0
         && (Completed(w.jobs[m].status) ==> w.jobs[m].status.Waiting? && !w.jobs[m].forceCancel)
  }

  predicate AllCompleted(w: World, t: nat)
    requires t in w.txns && MembersOk(w, t)
  {
    forall m :: m in w.txns[t].members ==> Completed(w.jobs[m].status)
  }

  /** job_transition_to_pending_locked for every member */
  function ToPending(w: World, t: nat): World
    requires t in w.txns && WaitingTogether(w, t) && AllCompleted(w, t)
  {
    w.(jobs := map k | k in w.jobs ::
         if k in w.txns[t].members then Transition(w.jobs[k], JobModel.Pending) else w.jobs[k])
  }

  lemma ToPendingReady(w: World, t: nat)
    requires t in w.txns && WaitingTogether(w, t) && AllCompleted(w, t)
    ensures AllPending(ToPending(w, t), t)
  {
    hide PausesOk;
  }

  /** job_completed_txn_success_locked, once `j` is WAITING */
  function Success(w: World, t: nat, j: nat, prepare: nat -> int): World
    requires t in w.txns && WaitingTogether(w, t) && j in w.txns[t].members
  {
    if !AllCompleted(w, t) then w
    else
      ToPendingReady(w, t);
      var p := ToPending(w, t);
      if exists m :: m in w.txns[t].members && !w.jobs[m].autoFinalize then p else DoFinalize(p, t, j, prepare)
  }

  predicate AllStarted(w: World, t: nat)
    requires t in w.txns && MembersOk(w, t)
  {
    forall m :: m in w.txns[t].members ==> Started(w.jobs[m].exec)
  }

  datatype Step =
    | NewTxn(t: nat)
    | UnrefTxn(t: nat)
    | Create(j: nat, txn: Option<nat>, t: nat, autoFinalize: bool, autoDismiss: bool)
    | EarlyFail(j: nat)
    | Start(j: nat)
    | AtPausePoint(j: nat)
    | YieldTo(j: nat, sleep: bool)
    | Proceed(j: nat)
    | BecomeReady(j: nat)
    | RunReturns(j: nat, ret: int)
    | Exit(j: nat, prepare: nat -> int)
    | PauseJob(j: nat)
    | ResumeJob(j: nat)
    | UserPauses(j: nat)
    | UserResumes(j: nat)
    | IoError(j: nat, stop: bool)
    | EnterJob(j: nat)
    | TimerFires(j: nat)
    | Cancel(j: nat, force: bool, answer: bool)
    | Finalize(j: nat, prepare: nat -> int)
    | Dismiss(j: nat)
    | RefJob(j: nat)
    | UnrefJob(j: nat)
    | LoopGoesOn(t: nat)

  predicate Alive(w: World, j: nat) {
    j in w.jobs && w.jobs[j].refs.count > 0
  }

  /** The calls that concern one job alone. */
  predicate Solo(step: Step) {
    || step.Start? || step.AtPausePoint? || step.YieldTo? || step.Proceed? || step.BecomeReady? || step.RunReturns?
    || step.PauseJob? || step.ResumeJob? || step.UserPauses? || step.UserResumes? || step.IoError? || step.EnterJob?
    || step.TimerFires? || step.Dismiss? || step.RefJob? || step.UnrefJob?
  }

  /** What the caller of such a call has to respect. */
  predicate SoloContract(j: Job, step: Step)
    requires Solo(step)
  {
    match step
    case Start(_) => j.status.Created?
    case AtPausePoint(_) => j.exec.co.InCo?
    case YieldTo(_, _) => j.exec.co.InCo?
    case Proceed(_) => j.exec.co.Woken?
    case BecomeReady(_) => j.exec.co.InCo? && j.status.Running?
    case RunReturns(_, _) => j.exec.co.InCo?
    case ResumeJob(_) => j.pauses.internal > 0
    case IoError(_, _) => Started(j.exec) && !j.exec.deferred
    case TimerFires(_) => j.exec.timer
    case UnrefJob(_) => j.refs.ext > 0
    case _ => true
  }

  /** The driver may refuse to treat a soft request for a READY job as forced, and no other one. */
  predicate CancelContract(w: World, j: nat, force: bool, answer: bool)
    requires Inv(w)
  {
    && Alive(w, j) && !w.jobs[j].status.Null?
    && (force || !(w.jobs[j].status.Ready? || w.jobs[j].status.Standby?) ==> answer)
    && (AllStarted(w, w.jobs[j].home) || w.txns[w.jobs[j].home].members == [j])
  }

  predicate CreateContract(w: World, j: nat, txn: Option<nat>, t: nat) {
    && j !in w.jobs
    && (txn.None? ==> t !in w.txns)
    && (txn.Some? ==>
          && t == txn.value && t in w.txns && w.txns[t].refcnt > 0 && !w.txns[t].aborting && w.txns[t].done == []
          && forall m :: m in w.txns[t].members && m in w.jobs ==> w.jobs[m].status.Created?)
  }

  /**
   What a caller has to respect: the assertions at the head of each call, and
   that a transaction's members are all created before any of them is started,
   and all started before any of them completes or is cancelled.
   */
  predicate Contract(w: World, step: Step)
    requires Inv(w)
  {
    if Solo(step) then Alive(w, step.j) && SoloContract(w.jobs[step.j], step)
    else match step
    case NewTxn(t) => t !in w.txns
    case UnrefTxn(t) => t in w.txns && w.txns[t].ext > 0
    case Create(j, txn, t, _, _) => CreateContract(w, j, txn, t)
    case EarlyFail(j) => Alive(w, j) && w.jobs[j].status.Created?
    case Exit(j, _) => j in w.jobs && w.jobs[j].exec.exitPending && AllStarted(w, w.jobs[j].home)
    case Cancel(j, force, answer) => CancelContract(w, j, force, answer)
    case Finalize(j, _) => Alive(w, j)
    case LoopGoesOn(t) => t in w.txns && w.txns[t].aborter.Some?
  }
}
