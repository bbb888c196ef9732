/**
 What the exclusive-section handshake guarantees in every interleaving of any
 number of CPUs.
 */
module ExclusiveTheorems {
  import opened ExclusiveProtocol
  import opened ExclusiveInvariant

  predicate Reached(n: nat, schedule: seq<Event>, s: State) {
    Run(n, schedule) == Some(s)
  }

  lemma ReachedInv(n: nat, schedule: seq<Event>, s: State) returns (o: Option<nat>)
    requires Reached(n, schedule, s)
    ensures InvFor(s, o)
  {
    RunInv(n, schedule);
    o :| InvFor(s, o);
  }

  /** Between the return of start_exclusive and the matching end_exclusive, nobody else is exclusive or executing. */
  lemma MutualExclusion(n: nat, schedule: seq<Event>, s: State, i: nat)
    requires Reached(n, schedule, s) && i < |s.cpus| && s.cpus[i].pc.Exclusive?
    ensures forall j: nat :: j < |s.cpus| && j != i ==> !s.cpus[j].pc.Exclusive?
    ensures forall j: nat :: j < |s.cpus| ==> !s.cpus[j].pc.Executing?
    ensures s.pending == 1 && forall j: nat :: j < |s.cpus| ==> !s.cpus[j].hasWaiter
  {
    var o := ReachedInv(n, schedule, s);
    assert o == Some(i);
    assert Flagged(s) == {};
    forall j: nat | j < |s.cpus|
      ensures !s.cpus[j].hasWaiter && Quiet(s.cpus[j].pc)
    {
      assert j !in Flagged(s);
    }
  }

  /** A queued item marked exclusive runs while no other CPU executes or runs an exclusive item. */
  lemma ExclusiveWorkRunsAlone(n: nat, schedule: seq<Event>, s: State, i: nat)
    requires Reached(n, schedule, s) && Enabled(s, Act(i, RunWork)) && s.cpus[i].current.value.exclusive
    ensures forall j: nat :: j < |s.cpus| ==> !s.cpus[j].pc.Executing?
    ensures forall j: nat :: j < |s.cpus| && j != i && Enabled(s, Act(j, RunWork)) ==>
      !s.cpus[j].current.value.exclusive
  {
    MutualExclusion(n, schedule, s, i);
  }

  /** Outside the scan of start_exclusive, pending_cpus is 0 or one more than the CPUs still counted. */
  lemma PendingCountsWaiters(n: nat, schedule: seq<Event>, s: State)
    requires Reached(n, schedule, s)
    requires forall i: nat :: i < |s.cpus| ==> !s.cpus[i].pc.StartScan? && !s.cpus[i].pc.StartCount?
    ensures s.pending == 0 || s.pending == 1 + |Flagged(s)| + Debt(s)
    ensures s.pending == 0 ==> Flagged(s) == {} && Debt(s) == 0
    ensures s.pending == 0 <==> forall i: nat :: i < |s.cpus| ==> !Owning(s.cpus[i].pc)
  {
    var o := ReachedInv(n, schedule, s);
    if o.None? {
      assert Flagged(s) == {};
    } else {
      OwnerStands(s, o.value);
    }
  }

  lemma OwnerStands(s: State, j: nat)
    requires OwnerIs(s, Some(j))
    ensures j < |s.cpus| && Owning(s.cpus[j].pc)
  {
  }

  /** Somebody will still decrement pending_cpus, or has decremented it and is about to test for the signal. */
  ghost predicate ReleaseComing(s: State) {
    || (exists j: nat :: j < |s.cpus| && s.cpus[j].hasWaiter && YetToRelease(s.cpus[j].pc))
    || HolderPc(s).EndDec? || HolderPc(s).EndSignal?
  }

  /** Somebody will still reset pending_cpus, or has and is about to broadcast. */
  ghost predicate ResumeComing(s: State) {
    || (exists j: nat :: j < |s.cpus| && Owning(s.cpus[j].pc))
    || HolderPc(s).StopBroadcast?
  }

  /** No sleep without a wake-up still to come. */
  lemma NoLostWakeup(n: nat, schedule: seq<Event>, s: State, i: nat)
    requires Reached(n, schedule, s) && i < |s.cpus|
    ensures CondSleeper(s.cpus[i].pc) ==> ReleaseComing(s)
    ensures ResumeSleeper(s.cpus[i].pc) ==> ResumeComing(s)
  {
    var o := ReachedInv(n, schedule, s);
    assert CpuInv(s.pending, HolderPc(s), s.cpus[i]);
    if CondSleeper(s.cpus[i].pc) && !HolderPc(s).EndDec? && !HolderPc(s).EndSignal? {
      assert o == Some(i);
      assert |Flagged(s)| > 0;
      var j :| j in Flagged(s);
      assert CpuInv(s.pending, HolderPc(s), s.cpus[j]);
    }
    if ResumeSleeper(s.cpus[i].pc) && !HolderPc(s).StopBroadcast? {
      OwnerStands(s, o.value);
    }
  }

  /** The decrement that leaves 1 cannot go on without waking the sleeping owner. */
  lemma LastReleaseSignals(n: nat, schedule: seq<Event>, s: State, i: nat, j: nat, e: Event)
    requires Reached(n, schedule, s) && i < |s.cpus| && j < |s.cpus|
    requires s.cpus[i].pc.EndSignal? && s.pending == 1 && CondSleeper(s.cpus[j].pc)
    requires Enabled(s, e) && e.Act? && e.cpu == i
    ensures Next(s, e).cpus[j].pc.StartCondWoken?
  {
    var o := ReachedInv(n, schedule, s);
    assert o == Some(j);
  }

  /** start_exclusive's own assertion: the caller is not running. */
  lemma StartExclusiveAssertion(n: nat, schedule: seq<Event>, s: State, i: nat)
    requires Reached(n, schedule, s) && Enabled(s, Act(i, ExclusiveStart))
    ensures !s.cpus[i].running
  {
    var o := ReachedInv(n, schedule, s);
    assert CpuInv(s.pending, HolderPc(s), s.cpus[i]);
  }

  /** An event that is neither a spurious wake-up nor a new request from outside. */
  predicate Progress(s: State, e: Event) {
    && Enabled(s, e) && e.Act? && !e.choice.Spurious? && !s.cpus[e.cpu].pc.Outside?
  }

  /** A CPU that is inside the protocol and not asleep or waiting for the lock can always move. */
  lemma AwakeMoves(s: State, i: nat) returns (e: Event)
    requires i < |s.cpus|
    requires var pc := s.cpus[i].pc; !pc.Outside? && !ResumeSleeper(pc) && !CondSleeper(pc)
    requires WantsLock(s.cpus[i].pc) ==> s.holder.None?
    requires s.cpus[i].pc.Exclusive? ==> s.cpus[i].current.Some? ==> s.cpus[i].current.value.exclusive
    ensures Progress(s, e) && e.cpu == i && e.Act? && !e.choice.Spurious?
  {
    var pc := s.cpus[i].pc;
    if pc.Executing? {
      e := Act(i, ExecEnd);
    } else if pc.Exclusive? {
      e := Act(i, if s.cpus[i].current.Some? then RunWork else ExclusiveEnd);
    } else if pc.EndSignal? && s.pending == 1 {
      if exists j: nat :: j < |s.cpus| && CondSleeper(s.cpus[j].pc) {
        var j: nat :| j < |s.cpus| && CondSleeper(s.cpus[j].pc);
        e := Act(i, Signal(j));
      } else {
        e := Act(i, Signal(i));
      }
    } else {
      e := Act(i, Continue);
    }
  }

  /** Every item of a work list is run once and in order; an exclusive one waits for the exclusive section. */
  predicate WorkInv(c: Cpu) {
    && c.queued == c.ran + (if c.current.Some? then [c.current.value] else []) + c.queue
    && (c.current.Some? ==>
          if c.current.value.exclusive then Entering(c.pc) || c.pc.Exclusive? else c.pc.Outside?)
  }

  predicate Entering(pc: Pc) {
    InStart(pc) || pc.StartAsleep? || pc.StartCondAsleep?
  }

  predicate AllWork(s: State) {
    forall i: nat :: i < |s.cpus| ==> WorkInv(s.cpus[i])
  }

  predicate SameWork(c: Cpu, d: Cpu) {
    && d.queue == c.queue && d.current == c.current && d.queued == c.queued && d.ran == c.ran
    && (Entering(c.pc) ==> Entering(d.pc) || d.pc.Exclusive?)
    && (c.pc.Outside? ==> d.pc.Outside?)
    && (c.pc.Exclusive? ==> d.pc.Exclusive?)
  }

  predicate WorkKept(s: State, t: State) {
    |t.cpus| == |s.cpus| && forall j: nat :: j < |s.cpus| ==> SameWork(s.cpus[j], t.cpus[j])
  }

  lemma ExecStartKeepsWork(s: State, i: nat)
    requires i < |s.cpus| && InExecStart(s.cpus[i].pc)
    ensures WorkKept(s, AdvanceExecStart(s, i))
  {
  }

  lemma ExecEndKeepsWork(s: State, i: nat)
    requires i < |s.cpus| && InExecEnd(s.cpus[i].pc)
    ensures WorkKept(s, AdvanceExecEnd(s, i))
  {
  }

  lemma StartKeepsWork(s: State, i: nat)
    requires i < |s.cpus| && InStart(s.cpus[i].pc)
    ensures WorkKept(s, AdvanceStart(s, i))
  {
  }

  lemma StopKeepsWork(s: State, i: nat)
    requires i < |s.cpus| && InStop(s.cpus[i].pc)
    ensures WorkKept(s, AdvanceStop(s, i))
  {
    var t := AdvanceStop(s, i);
    assert s.cpus[i].pc.StopBroadcast? ==>
      forall j: nat :: j < |s.cpus| && j != i ==> t.cpus[j] == WakeResume(s.cpus[j]);
  }

  lemma AdvanceKeepsWork(s: State, i: nat)
    requires i < |s.cpus| && CanContinue(s, i)
    ensures WorkKept(s, Advance(s, i))
  {
    var pc := s.cpus[i].pc;
    if InExecStart(pc) {
      ExecStartKeepsWork(s, i);
    } else if InExecEnd(pc) {
      ExecEndKeepsWork(s, i);
    } else if InStart(pc) {
      StartKeepsWork(s, i);
    } else {
      StopKeepsWork(s, i);
    }
  }

  lemma WorkKeptInv(s: State, t: State)
    requires AllWork(s) && WorkKept(s, t)
    ensures AllWork(t)
  {
    hide Entering;
    forall j: nat | j < |s.cpus|
      ensures WorkInv(t.cpus[j])
    {
      assert WorkInv(s.cpus[j]) && SameWork(s.cpus[j], t.cpus[j]);
    }
  }

  lemma NextWork(s: State, e: Event)
    requires AllWork(s) && Enabled(s, e)
    ensures AllWork(Next(s, e))
  {
    var t := Next(s, e);
    if e.Act? && e.choice.Continue? {
      AdvanceKeepsWork(s, e.cpu);
      WorkKeptInv(s, t);
    } else if e.Act? && e.choice.Signal? {
      assert WorkKept(s, t);
      WorkKeptInv(s, t);
    } else {
      var i := e.cpu;
      assert WorkInv(s.cpus[i]);
      assert WorkInv(t.cpus[i]);
      assert forall j: nat :: j < |s.cpus| && j != i ==> t.cpus[j] == s.cpus[j];
    }
  }

  /** In every run each CPU's work list is a FIFO queue: what was queued is what ran, what is in hand, what waits. */
  lemma {:induction false} WorkInOrder(n: nat, schedule: seq<Event>)
    ensures Run(n, schedule).Some? ==> AllWork(Run(n, schedule).value)
  {
    if schedule != [] {
      var last := |schedule| - 1;
      WorkInOrder(n, schedule[..last]);
      var before := Run(n, schedule[..last]);
      if before.Some? && Enabled(before.value, schedule[last]) {
        NextWork(before.value, schedule[last]);
      }
    }
  }

  lemma HolderStands(s: State, o: Option<nat>)
    requires InvFor(s, o) && s.holder.Some?
    ensures s.holder.value < |s.cpus| && HoldsLock(s.cpus[s.holder.value].pc)
    ensures HolderPc(s) == s.cpus[s.holder.value].pc
  {
  }

  lemma ExclusiveHand(n: nat, schedule: seq<Event>, s: State)
    requires Reached(n, schedule, s)
    ensures forall j: nat :: j < |s.cpus| && s.cpus[j].pc.Exclusive? && s.cpus[j].current.Some? ==>
              s.cpus[j].current.value.exclusive
  {
    WorkInOrder(n, schedule);
    assert forall j: nat :: j < |s.cpus| ==> WorkInv(s.cpus[j]);
  }

  /** A sleeper leads to a CPU that is awake: the owner, or a counted CPU the owner waits for. */
  lemma SleeperWaitsForAwake(n: nat, schedule: seq<Event>, s: State, i: nat) returns (k: nat)
    requires Reached(n, schedule, s) && i < |s.cpus| && s.holder.None?
    requires ResumeSleeper(s.cpus[i].pc) || CondSleeper(s.cpus[i].pc)
    ensures k < |s.cpus| && !s.cpus[k].pc.Outside? && !ResumeSleeper(s.cpus[k].pc) && !CondSleeper(s.cpus[k].pc)
  {
    NoLostWakeup(n, schedule, s, i);
    hide Reached;
    k := i;
    if ResumeSleeper(s.cpus[i].pc) {
      k :| k < |s.cpus| && Owning(s.cpus[k].pc);
    }
    if CondSleeper(s.cpus[k].pc) {
      NoLostWakeup(n, schedule, s, k);
      k :| k < |s.cpus| && s.cpus[k].hasWaiter && YetToRelease(s.cpus[k].pc);
    }
  }

  /** As long as some CPU is inside the protocol, some CPU inside it can move without a spurious wake-up. */
  lemma NoDeadlock(n: nat, schedule: seq<Event>, s: State, i: nat) returns (e: Event)
    requires Reached(n, schedule, s) && i < |s.cpus| && !s.cpus[i].pc.Outside?
    ensures Progress(s, e)
  {
    hide Reached, InvFor, Progress;
    var o := ReachedInv(n, schedule, s);
    ExclusiveHand(n, schedule, s);
    var k := i;
    if s.holder.Some? {
      HolderStands(s, o);
      k := s.holder.value;
    } else if ResumeSleeper(s.cpus[i].pc) || CondSleeper(s.cpus[i].pc) {
      k := SleeperWaitsForAwake(n, schedule, s, i);
    }
    e := AwakeMoves(s, k);
  }
}
