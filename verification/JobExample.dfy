/** A run in which one member of a transaction commits although the other one failed to prepare. */
module JobExample {
  import opened JobModel
  import opened JobTransactions
  import opened JobRun
  import opened JobTheorems

  /** Jobs 1 and 2 of transaction 0, whose creator still holds it. */
  function Two(a: Job, b: Job): World {
    World(map[1 := a, 2 := b], map[0 := Txn(false, [2, 1], 3, 1, None, 0, false, [])])
  }

  const CREATED := NewJob(0, false, true)
  const STARTED := Begin(CREATED)
  const RETURNED := Return(STARTED, 0)
  const WAITING := RETURNED.(status := Waiting, exec := RETURNED.exec.(busy := false, exitPending := false))
  const PENDING := WAITING.(status := JobModel.Pending)

  lemma RunOneMore(steps: seq<Step>, step: Step)
    requires Run(steps).Some? && Contract(Run(steps).value, step)
    ensures Run(steps + [step]) == Some(Apply(Run(steps).value, step))
  {
    hide Contract, Apply, Inv;
    var all := steps + [step];
    assert all[..|all| - 1] == steps && all[|all| - 1] == step;
  }

  function Shared(members: seq<nat>, refcnt: int): map<nat, Txn> {
    map[0 := Txn(false, members, refcnt, 1, None, 0, false, [])]
  }

  lemma AfterNewTxn()
    ensures Run([NewTxn(0)]) == Some(World(map[], Shared([], 1)))
  {
    hide Inv;
    assert Run([]) == Some(World(map[], map[]));
    RunOneMore([], NewTxn(0));
    assert [] + [NewTxn(0)] == [NewTxn(0)];
  }

  lemma AfterFirst(steps: seq<Step>)
    requires Run(steps) == Some(World(map[], Shared([], 1)))
    ensures Run(steps + [Create(1, Some(0), 0, false, true)]) == Some(World(map[1 := CREATED], Shared([1], 2)))
  {
    hide Run, Inv, NewJob;
    RunOneMore(steps, Create(1, Some(0), 0, false, true));
    var r := WithNewJob(Run(steps).value, 1, Some(0), 0, false, true);
    assert [1] + [] == [1];
    assert r.jobs == map[1 := CREATED] && r.txns == Shared([1], 2);
  }

  lemma AfterSecond(steps: seq<Step>)
    requires Run(steps) == Some(World(map[1 := CREATED], Shared([1], 2)))
    ensures Run(steps + [Create(2, Some(0), 0, false, true)]) == Some(Two(CREATED, CREATED))
  {
    hide Run, Inv;
    RunOneMore(steps, Create(2, Some(0), 0, false, true));
    var r := WithNewJob(Run(steps).value, 2, Some(0), 0, false, true);
    assert [2] + [1] == [2, 1];
    assert r.jobs == map[1 := CREATED, 2 := CREATED] && r.txns == Shared([2, 1], 3);
  }

  /** A call that concerns job 1 or job 2 alone. */
  lemma AfterCall(steps: seq<Step>, a: Job, b: Job, step: Step)
    requires Run(steps) == Some(Two(a, b)) && Solo(step) && step.j in {1, 2}
    requires var j := if step.j == 1 then a else b; j.refs.count > 0 && SoloContract(j, step) && JobOk(j)
    ensures Run(steps + [step]) ==
      Some(if step.j == 1 then Two(SoloJob(a, step), b) else Two(a, SoloJob(b, step)))
  {
    hide Run, Inv, SoloJob, JobOk, SoloContract;
    RunOneMore(steps, step);
    var j := if step.j == 1 then SoloJob(a, step) else SoloJob(b, step);
    assert Two(a, b).jobs[step.j := j] == if step.j == 1 then map[1 := j, 2 := b] else map[1 := a, 2 := j];
  }

  lemma ExampleJobs()
    ensures JobOk(CREATED) && JobOk(STARTED) && JobOk(RETURNED)
    ensures forall j :: SoloJob(CREATED, Start(j)) == STARTED
    ensures forall j :: SoloJob(STARTED, RunReturns(j, 0)) == RETURNED
    ensures Exited(RETURNED).ret == 0 && Transition(Exited(RETURNED), Waiting) == WAITING
  {
  }

  /** The first job to exit waits for the other. */
  lemma AfterFirstExit(steps: seq<Step>, prepare: nat -> int)
    requires Run(steps) == Some(Two(RETURNED, RETURNED))
    ensures Run(steps + [Exit(1, prepare)]) == Some(Two(WAITING, RETURNED))
  {
    hide Run, Inv, DoFinalize;
    var w := Two(RETURNED, RETURNED);
    ExampleJobs();
    TwoMembers(RETURNED, RETURNED);
    RunOneMore(steps, Exit(1, prepare));
    ExitReady(w, 1);
    var r := SetJob(w, 1, WAITING);
    assert r.jobs == map[1 := WAITING, 2 := RETURNED];
    assert r == Two(WAITING, RETURNED);
    assert 2 in r.txns[0].members && !Completed(r.jobs[2].status);
  }

  lemma TwoMembers(a: Job, b: Job)
    ensures forall m :: m in Two(a, b).txns[0].members <==> m == 1 || m == 2
  {
    var all := Two(a, b).txns[0].members;
    assert all[0] == 2 && all[1] == 1;
  }

  /** With the second one both come to PENDING, and stay there until they are told to finalise. */
  lemma AfterSecondExit(steps: seq<Step>, prepare: nat -> int)
    requires Run(steps) == Some(Two(WAITING, RETURNED))
    ensures Run(steps + [Exit(2, prepare)]) == Some(Two(PENDING, PENDING))
  {
    hide Run, Inv, DoFinalize;
    var w := Two(WAITING, RETURNED);
    ExampleJobs();
    TwoMembers(WAITING, RETURNED);
    RunOneMore(steps, Exit(2, prepare));
    ExitReady(w, 2);
    var r := SetJob(w, 2, WAITING);
    assert r.jobs == map[1 := WAITING, 2 := WAITING];
    assert r == Two(WAITING, WAITING);
    BothPending(prepare);
  }

  lemma BothPending(prepare: nat -> int)
    requires WaitingTogether(Two(WAITING, WAITING), 0) && 2 in Two(WAITING, WAITING).txns[0].members
    ensures Success(Two(WAITING, WAITING), 0, 2, prepare) == Two(PENDING, PENDING)
  {
    hide DoFinalize, JobOk;
    var w := Two(WAITING, WAITING);
    TwoMembers(WAITING, WAITING);
    assert AllCompleted(w, 0);
    assert ToPending(w, 0).jobs == map[1 := PENDING, 2 := PENDING];
    assert 1 in w.txns[0].members && !w.jobs[1].autoFinalize;
  }

  /** Two jobs of one transaction are created, started, and return without an error; then job 2 is finalised. */
  function ExampleRun(prepare: nat -> int): seq<Step> {
    [NewTxn(0), Create(1, Some(0), 0, false, true), Create(2, Some(0), 0, false, true), Start(1), Start(2),
     RunReturns(1, 0), RunReturns(2, 0), Exit(1, prepare), Exit(2, prepare)]
  }

  lemma ExampleReaches(prepare: nat -> int)
    ensures Run(ExampleRun(prepare)) == Some(Two(PENDING, PENDING))
  {
    hide Run, JobOk, SoloJob, Begin, Return, NewJob;
    ExampleJobs();
    AfterNewTxn();
    var s1 := [NewTxn(0)];
    AfterFirst(s1);
    var s2 := s1 + [Create(1, Some(0), 0, false, true)];
    AfterSecond(s2);
    var s3 := s2 + [Create(2, Some(0), 0, false, true)];
    ExampleContracts();
    AfterCall(s3, CREATED, CREATED, Start(1));
    var s4 := s3 + [Start(1)];
    AfterCall(s4, STARTED, CREATED, Start(2));
    var s5 := s4 + [Start(2)];
    AfterCall(s5, STARTED, STARTED, RunReturns(1, 0));
    var s6 := s5 + [RunReturns(1, 0)];
    AfterCall(s6, RETURNED, STARTED, RunReturns(2, 0));
    var s7 := s6 + [RunReturns(2, 0)];
    AfterFirstExit(s7, prepare);
    var s8 := s7 + [Exit(1, prepare)];
    AfterSecondExit(s8, prepare);
    assert s8 + [Exit(2, prepare)] == ExampleRun(prepare);
  }

  lemma ExampleContracts()
    ensures CREATED.refs.count > 0 && STARTED.refs.count > 0
    ensures forall j :: SoloContract(CREATED, Start(j)) && SoloContract(STARTED, RunReturns(j, 0))
  {
  }

  /**
   If the prepare callback of job 1 fails, and that of job 2 does not, a request
   to finalise job 2 ends the run with job 1 aborted and job 2 committed.
   */
  lemma MixedExample(prepare: nat -> int)
    requires prepare(1) != 0 && prepare(2) == 0
    ensures var r := Run(ExampleRun(prepare) + [Finalize(2, prepare)]);
      && r.Some? && 1 in r.value.jobs && 2 in r.value.jobs
      && r.value.jobs[1].outcome == Aborted && r.value.jobs[2].outcome == Committed
  {
    hide Run, Inv, FinalizedBy, Two, JobOk;
    ExampleReaches(prepare);
    FinalizeContract();
    RunOneMore(ExampleRun(prepare), Finalize(2, prepare));
    OutcomeOfTwo(prepare);
  }

  lemma FinalizeContract()
    ensures Alive(Two(PENDING, PENDING), 2)
  {
  }

  lemma OutcomeOfTwo(prepare: nat -> int)
    requires prepare(1) != 0 && prepare(2) == 0 && Inv(Two(PENDING, PENDING))
    ensures 2 in Two(PENDING, PENDING).jobs
    ensures var r := FinalizedBy(Two(PENDING, PENDING), 2, prepare);
      1 in r.jobs && 2 in r.jobs && r.jobs[1].outcome == Aborted && r.jobs[2].outcome == Committed
  {
    hide Inv, DoFinalize, JobOk, NewJob, Return, Begin;
    var w := Two(PENDING, PENDING);
    TwoMembers(PENDING, PENDING);
    assert w.jobs[2].status.Pending?;
    PendingReady(w, 2);
    HomeZero();
    assert w.txns[0].members[1..] == [1];
    assert FirstFailure(w.txns[0].members, prepare) == Some(1);
    FinalizeOutcome(w, 0, 2, prepare, 1);
    FinalizeOutcome(w, 0, 2, prepare, 2);
    DoFinalizeAfter(w, 0, 2, prepare);
  }

  lemma HomeZero()
    ensures PENDING.home == 0
  {
  }
}
