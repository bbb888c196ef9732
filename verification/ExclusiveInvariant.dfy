/**
 The invariant of the exclusive-section handshake, kept by every event.
 */
module ExclusiveInvariant {
  import opened ExclusiveProtocol

  /** From the publication of pending_cpus up to its reset: the CPU that owns the exclusive section. */
  predicate Owning(pc: Pc) {
    pc.StartScan? || pc.StartCount? || pc.StartWait? || pc.StartCondAsleep? || pc.StartCondWoken?
    || pc.StartUnlock? || pc.Exclusive? || pc.StopLock? || pc.StopReset?
  }

  /** An owner whose wait for the other CPUs is over. */
  predicate Settled(pc: Pc) {
    pc.StartUnlock? || pc.Exclusive? || pc.StopLock? || pc.StopReset?
  }

  predicate Runs(pc: Pc) {
    pc.ExecRead? || pc.ExecLock? || pc.ExecTest? || pc.ExecClear? || pc.ExecUnlock? || pc.Executing?
  }

  /** Where a CPU counted in pending_cpus may stand: it has yet to decrement the counter. */
  predicate YetToRelease(pc: Pc) {
    pc.ExecRead? || pc.ExecLock? || pc.ExecTest? || pc.ExecUnlock? || pc.Executing?
    || pc.EndRead? || pc.EndLock? || pc.EndTest?
  }

  /** Not executing, and not past the test that lets it execute. */
  predicate Quiet(pc: Pc) {
    !pc.Executing? && !pc.ExecSet? && !pc.ExecUnlock?
  }

  function Flagged(s: State): set<nat> {
    set i: nat | i < |s.cpus| && s.cpus[i].hasWaiter
  }

  /** Where the lock holder stands, Outside when nobody holds the lock. */
  function HolderPc(s: State): Pc {
    if s.holder.Some? && s.holder.value < |s.cpus| then s.cpus[s.holder.value].pc else Outside
  }

  /** 1 while the lock holder has cleared its flag but not yet decremented the counter. */
  function Debt(s: State): nat {
    if HolderPc(s).EndDec? then 1 else 0
  }

  predicate LockInv(s: State) {
    && (s.holder.Some? ==> s.holder.value < |s.cpus|)
    && forall i: nat :: i < |s.cpus| ==> (HoldsLock(s.cpus[i].pc) <==> s.holder == Some(i))
  }

  /** `o` is the CPU that owns the exclusive section. */
  predicate OwnerIs(s: State, o: Option<nat>) {
    && (o.Some? ==> o.value < |s.cpus|)
    && forall i: nat :: i < |s.cpus| ==> (Owning(s.cpus[i].pc) <==> o == Some(i))
  }

  predicate CpuInv(pending: int, holderPc: Pc, c: Cpu) {
    && c.running == Runs(c.pc)
    && (c.hasWaiter ==> YetToRelease(c.pc))
    && (c.exclusiveCount > 0 <==> c.pc.Exclusive?)
    && (c.pc.ExecSet? || c.pc.StartPublish? ==> pending == 0)
    && (c.pc.ExecUnlock? ==> c.hasWaiter || pending == 0)
    && (ResumeSleeper(c.pc) ==> pending != 0 || holderPc.StopBroadcast?)
    && (CondSleeper(c.pc) ==> pending > 1 || holderPc.EndSignal?)
  }

  predicate CpusInv(s: State) {
    forall i: nat :: i < |s.cpus| ==> CpuInv(s.pending, HolderPc(s), s.cpus[i])
  }

  /** Every CPU below `bound` that is not counted is quiet. */
  predicate UncountedQuiet(s: State, bound: nat) {
    forall j: nat :: j < bound && j < |s.cpus| && !s.cpus[j].hasWaiter ==> Quiet(s.cpus[j].pc)
  }

  predicate FlagsBelow(s: State, bound: nat) {
    forall j: nat :: j < |s.cpus| && s.cpus[j].hasWaiter ==> j < bound
  }

  /** What the owner's position means for the counter and for every other CPU. */
  predicate SectionInv(s: State, o: Option<nat>)
    requires OwnerIs(s, o)
  {
    if o.None? then s.pending == 0 && Debt(s) == 0 && FlagsBelow(s, 0)
    else
      match s.cpus[o.value].pc
      case StartScan(next, found) =>
        && s.pending == 1 && found == |Flagged(s)| && next <= |s.cpus|
        && FlagsBelow(s, next) && UncountedQuiet(s, next)
      case StartCount(total) =>
        s.pending == 1 && total == |Flagged(s)| && UncountedQuiet(s, |s.cpus|)
      case pc =>
        && s.pending == 1 + |Flagged(s)| + Debt(s)
        && (Settled(pc) ==> s.pending == 1)
        && UncountedQuiet(s, |s.cpus|)
  }

  predicate InvFor(s: State, o: Option<nat>) {
    LockInv(s) && OwnerIs(s, o) && CpusInv(s) && SectionInv(s, o)
  }

  ghost predicate Inv(s: State) {
    exists o: Option<nat> :: InvFor(s, o)
  }

  lemma InitInv(n: nat)
    ensures InvFor(Init(n), None)
  {
  }

  /** A step by one CPU that touches neither its flag nor the counter. */
  predicate LocalStep(s: State, t: State, i: nat) {
    && i < |s.cpus|
    && |t.cpus| == |s.cpus|
    && t.cpus == s.cpus[i := t.cpus[i]]
    && t.cpus[i].hasWaiter == s.cpus[i].hasWaiter
    && t.pending == s.pending
  }

  predicate LockStep(s: State, t: State, i: nat)
    requires LocalStep(s, t, i)
  {
    if HoldsLock(t.cpus[i].pc) then
      t.holder == Some(i) && (HoldsLock(s.cpus[i].pc) || s.holder.None?)
    else if HoldsLock(s.cpus[i].pc) then t.holder.None?
    else t.holder == s.holder
  }

  /** Positions whose owner or holder role the frame lemma below does not cover. */
  predicate Special(pc: Pc) {
    pc.EndDec? || pc.EndSignal? || pc.StopBroadcast? || pc.StartScan? || pc.StartCount?
  }

  lemma LockStepInv(s: State, t: State, i: nat)
    requires LockInv(s) && LocalStep(s, t, i) && LockStep(s, t, i)
    ensures LockInv(t)
    ensures HolderPc(t) == HolderPc(s)
         || (HolderPc(t) in {Outside, t.cpus[i].pc} && HolderPc(s) in {Outside, s.cpus[i].pc})
  {
    assert forall j: nat :: j < |s.cpus| && j != i ==> t.cpus[j] == s.cpus[j];
  }

  lemma OwnerStepInv(s: State, t: State, i: nat, o: Option<nat>)
    requires OwnerIs(s, o) && LocalStep(s, t, i)
    requires Owning(s.cpus[i].pc) == Owning(t.cpus[i].pc)
    ensures OwnerIs(t, o)
  {
    assert forall j: nat :: j < |s.cpus| && j != i ==> t.cpus[j] == s.cpus[j];
  }

  /** The role of the lock holder that CpuInv refers to is unchanged when no special position is involved. */
  lemma CpusStepInv(s: State, t: State, i: nat)
    requires LockInv(s) && CpusInv(s) && LocalStep(s, t, i) && LockStep(s, t, i)
    requires !Special(s.cpus[i].pc) && !Special(t.cpus[i].pc)
    requires CpuInv(t.pending, HolderPc(t), t.cpus[i])
    ensures CpusInv(t) && Debt(t) == Debt(s)
  {
    LockStepInv(s, t, i);
    hide HoldsLock, Runs, YetToRelease;
    forall j: nat | j < |t.cpus|
      ensures CpuInv(t.pending, HolderPc(t), t.cpus[j])
    {
      if j != i {
        assert t.cpus[j] == s.cpus[j];
        assert CpuInv(s.pending, HolderPc(s), s.cpus[j]);
      }
    }
  }

  lemma SectionStepInv(s: State, t: State, i: nat, o: Option<nat>)
    requires OwnerIs(s, o) && OwnerIs(t, o) && SectionInv(s, o) && LocalStep(s, t, i)
    requires Debt(t) == Debt(s)
    requires o == Some(i) ==> !Special(s.cpus[i].pc) && !Special(t.cpus[i].pc)
    requires Settled(t.cpus[i].pc) ==> s.pending == 1
    requires Quiet(t.cpus[i].pc) || t.cpus[i].hasWaiter || !Quiet(s.cpus[i].pc) || s.pending == 0
    ensures SectionInv(t, o)
  {
    hide HoldsLock, Owning, Runs, YetToRelease, CpuInv, Quiet;
    assert Flagged(t) == Flagged(s);
    assert forall j: nat :: j < |s.cpus| && j != i ==> t.cpus[j] == s.cpus[j];
  }

  /** CPU `i` becomes `c` and the lock goes to `h`. */
  function Put(s: State, i: nat, c: Cpu, h: Option<nat>): State
    requires i < |s.cpus|
  {
    State(s.pending, h, s.cpus[i := c])
  }

  predicate LockMove(from: Pc, to: Pc, before: Option<nat>, after: Option<nat>, i: nat) {
    if HoldsLock(to) then after == Some(i) && (HoldsLock(from) || before.None?)
    else if HoldsLock(from) then after.None?
    else after == before
  }

  lemma LocalStepInv(s: State, i: nat, c: Cpu, h: Option<nat>, o: Option<nat>)
    requires InvFor(s, o) && i < |s.cpus|
    requires c.hasWaiter == s.cpus[i].hasWaiter
    requires LockMove(s.cpus[i].pc, c.pc, s.holder, h, i)
    requires !Special(s.cpus[i].pc) && !Special(c.pc)
    requires Owning(s.cpus[i].pc) == Owning(c.pc)
    requires Settled(c.pc) ==> s.pending == 1
    requires CpuInv(s.pending, Outside, c)
    requires Quiet(c.pc) || c.hasWaiter || !Quiet(s.cpus[i].pc) || s.pending == 0
    ensures InvFor(Put(s, i, c, h), o)
  {
    hide LockInv, OwnerIs, CpusInv, SectionInv, Quiet, Owning, Settled, HoldsLock;
    var t := Put(s, i, c, h);
    LockStepInv(s, t, i);
    OwnerStepInv(s, t, i, o);
    CpusStepInv(s, t, i);
    SectionStepInv(s, t, i, o);
  }

  // ----- statements that touch neither the flag nor the counter

  lemma Facts(s: State, i: nat, o: Option<nat>)
    requires InvFor(s, o) && i < |s.cpus|
    ensures HoldsLock(s.cpus[i].pc) <==> s.holder == Some(i)
    ensures CpuInv(s.pending, HolderPc(s), s.cpus[i])
    ensures Owning(s.cpus[i].pc) <==> o == Some(i)
    ensures if o.None? then s.pending == 0 else s.pending >= 1
    ensures s.cpus[i].hasWaiter ==> s.pending != 0
    ensures Settled(s.cpus[i].pc) ==> s.pending == 1
  {
    hide HoldsLock, CpuInv, Quiet;
  }

  lemma ExecEntryInv(s: State, i: nat, o: Option<nat>)
    requires InvFor(s, o) && i < |s.cpus| && CanContinue(s, i)
    requires s.cpus[i].pc.ExecRead? || s.cpus[i].pc.ExecLock? || s.cpus[i].pc.ExecTest?
    ensures InvFor(AdvanceExecStart(s, i), o)
  {
    hide InvFor;
    Facts(s, i, o);
    var t := AdvanceExecStart(s, i);
    LocalStepInv(s, i, t.cpus[i], t.holder, o);
  }

  lemma ExecWaitInv(s: State, i: nat, o: Option<nat>)
    requires InvFor(s, o) && i < |s.cpus| && CanContinue(s, i)
    requires s.cpus[i].pc.ExecClear? || s.cpus[i].pc.ExecIdle? || s.cpus[i].pc.ExecWoken?
    ensures InvFor(AdvanceExecStart(s, i), o)
  {
    hide InvFor;
    Facts(s, i, o);
    var t := AdvanceExecStart(s, i);
    LocalStepInv(s, i, t.cpus[i], t.holder, o);
  }

  lemma ExecResumeInv(s: State, i: nat, o: Option<nat>)
    requires InvFor(s, o) && i < |s.cpus| && CanContinue(s, i)
    requires s.cpus[i].pc.ExecSet? || s.cpus[i].pc.ExecUnlock?
    ensures InvFor(AdvanceExecStart(s, i), o)
  {
    hide InvFor;
    Facts(s, i, o);
    var t := AdvanceExecStart(s, i);
    LocalStepInv(s, i, t.cpus[i], t.holder, o);
  }

  lemma EndPlainInv(s: State, i: nat, o: Option<nat>)
    requires InvFor(s, o) && i < |s.cpus| && CanContinue(s, i)
    requires s.cpus[i].pc.EndRead? || s.cpus[i].pc.EndLock? || s.cpus[i].pc.EndUnlock?
    ensures InvFor(AdvanceExecEnd(s, i), o)
  {
    hide InvFor;
    Facts(s, i, o);
    var t := AdvanceExecEnd(s, i);
    LocalStepInv(s, i, t.cpus[i], t.holder, o);
  }

  lemma EndUncountedInv(s: State, i: nat, o: Option<nat>)
    requires InvFor(s, o) && i < |s.cpus| && CanContinue(s, i)
    requires s.cpus[i].pc.EndTest?
    requires !s.cpus[i].hasWaiter
    ensures InvFor(AdvanceExecEnd(s, i), o)
  {
    hide InvFor;
    Facts(s, i, o);
    var t := AdvanceExecEnd(s, i);
    LocalStepInv(s, i, t.cpus[i], t.holder, o);
  }

  lemma StartEntryInv(s: State, i: nat, o: Option<nat>)
    requires InvFor(s, o) && i < |s.cpus| && CanContinue(s, i)
    requires s.cpus[i].pc.StartLock? || s.cpus[i].pc.StartIdle? || s.cpus[i].pc.StartWoken?
    ensures InvFor(AdvanceStart(s, i), o)
  {
    hide InvFor;
    Facts(s, i, o);
    var t := AdvanceStart(s, i);
    LocalStepInv(s, i, t.cpus[i], t.holder, o);
  }

  lemma StartWaitInv(s: State, i: nat, o: Option<nat>)
    requires InvFor(s, o) && i < |s.cpus| && CanContinue(s, i)
    requires s.cpus[i].pc.StartWait? || s.cpus[i].pc.StartCondWoken? || s.cpus[i].pc.StartUnlock?
    ensures InvFor(AdvanceStart(s, i), o)
  {
    hide InvFor;
    Facts(s, i, o);
    var t := AdvanceStart(s, i);
    LocalStepInv(s, i, t.cpus[i], t.holder, o);
  }

  lemma StopPlainInv(s: State, i: nat, o: Option<nat>)
    requires InvFor(s, o) && i < |s.cpus| && CanContinue(s, i)
    requires s.cpus[i].pc.StopLock? || s.cpus[i].pc.StopUnlock?
    ensures InvFor(AdvanceStop(s, i), o)
  {
    hide InvFor;
    Facts(s, i, o);
    var t := AdvanceStop(s, i);
    LocalStepInv(s, i, t.cpus[i], t.holder, o);
  }

  // ----- statements that change the flag or the counter, or give up a role

  /** While a CPU holds the lock nobody else does, and it is the holder CpuInv refers to. */
  lemma HolderFacts(s: State, i: nat)
    requires LockInv(s) && i < |s.cpus| && HoldsLock(s.cpus[i].pc)
    ensures s.holder == Some(i) && HolderPc(s) == s.cpus[i].pc
    ensures forall j: nat :: j < |s.cpus| && j != i ==> !HoldsLock(s.cpus[j].pc)
  {
  }

  /** A step that moves neither the lock nor the section between CPUs. */
  lemma RolesKept(s: State, t: State, o: Option<nat>)
    requires LockInv(s) && OwnerIs(s, o)
    requires |t.cpus| == |s.cpus| && t.holder == s.holder
    requires forall j: nat :: j < |s.cpus| ==>
               HoldsLock(t.cpus[j].pc) == HoldsLock(s.cpus[j].pc) && Owning(t.cpus[j].pc) == Owning(s.cpus[j].pc)
    ensures LockInv(t) && OwnerIs(t, o)
  {
    hide HoldsLock, Owning;
  }

  /** ... and that changes no flag, no quietness and nothing about the owner. */
  lemma SectionKept(s: State, t: State, o: Option<nat>)
    requires OwnerIs(s, o) && OwnerIs(t, o) && SectionInv(s, o)
    requires |t.cpus| == |s.cpus| && t.pending == s.pending && Debt(t) == Debt(s)
    requires forall j: nat :: j < |s.cpus| ==>
               t.cpus[j].hasWaiter == s.cpus[j].hasWaiter && Quiet(t.cpus[j].pc) == Quiet(s.cpus[j].pc)
    requires forall j: nat :: j < |s.cpus| && o == Some(j) ==> t.cpus[j].pc == s.cpus[j].pc
    ensures SectionInv(t, o)
  {
    hide Owning, Quiet, Settled;
    assert Flagged(t) == Flagged(s);
  }

  /** cpu_exec_end clears its flag: one flag less, one decrement owed. */
  lemma EndCountedInv(s: State, i: nat, o: Option<nat>)
    requires InvFor(s, o) && i < |s.cpus| && s.cpus[i].pc.EndTest? && s.cpus[i].hasWaiter
    ensures InvFor(AdvanceExecEnd(s, i), o)
  {
    var t := AdvanceExecEnd(s, i);
    HolderFacts(s, i);
    assert Flagged(t) == Flagged(s) - {i};
    assert i in Flagged(s);
    assert o.Some?;
    hide YetToRelease;
  }

  /** The decrement pays the debt. */
  lemma EndDecInv(s: State, i: nat, o: Option<nat>)
    requires InvFor(s, o) && i < |s.cpus| && s.cpus[i].pc.EndDec?
    ensures InvFor(AdvanceExecEnd(s, i), o)
  {
    var t := AdvanceExecEnd(s, i);
    HolderFacts(s, i);
    assert Flagged(t) == Flagged(s);
    hide YetToRelease, Runs;
  }

  /** Leaving the signal without a waiter to wake. */
  lemma EndQuietInv(s: State, i: nat, o: Option<nat>)
    requires InvFor(s, o) && i < |s.cpus| && s.cpus[i].pc.EndSignal?
    requires forall j: nat :: j < |s.cpus| && CondSleeper(s.cpus[j].pc) ==> s.pending > 1
    ensures InvFor(AdvanceExecEnd(s, i), o)
  {
    var t := AdvanceExecEnd(s, i);
    HolderFacts(s, i);
    assert Flagged(t) == Flagged(s);
    hide YetToRelease, Runs;
  }

  lemma PublishInv(s: State, i: nat, o: Option<nat>)
    requires InvFor(s, o) && i < |s.cpus| && s.cpus[i].pc.StartPublish?
    ensures InvFor(AdvanceStart(s, i), Some(i))
  {
    var t := AdvanceStart(s, i);
    HolderFacts(s, i);
    assert CpuInv(s.pending, HolderPc(s), s.cpus[i]);
    assert o.None?;
    assert Flagged(t) == {};
    hide YetToRelease, Runs;
  }

  lemma CountInv(s: State, i: nat, o: Option<nat>)
    requires InvFor(s, o) && i < |s.cpus| && s.cpus[i].pc.StartCount?
    ensures InvFor(AdvanceStart(s, i), o)
  {
    var t := AdvanceStart(s, i);
    HolderFacts(s, i);
    assert Flagged(t) == Flagged(s);
    hide YetToRelease, Runs;
  }

  lemma ResetInv(s: State, i: nat, o: Option<nat>)
    requires InvFor(s, o) && i < |s.cpus| && s.cpus[i].pc.StopReset?
    ensures InvFor(AdvanceStop(s, i), None)
  {
    var t := AdvanceStop(s, i);
    HolderFacts(s, i);
    assert Flagged(s) == {};
    assert forall j: nat :: j < |s.cpus| ==> j !in Flagged(s);
    forall j: nat | j < |s.cpus|
      ensures CpuInv(0, StopBroadcast, t.cpus[j]) && !t.cpus[j].hasWaiter
    {
      assert CpuInv(s.pending, HolderPc(s), s.cpus[j]);
      assert j != i ==> !Owning(s.cpus[j].pc);
      assert j !in Flagged(s);
    }
    assert LockInv(t);
    assert OwnerIs(t, None);
    assert CpusInv(t);
  }

  /** A broadcast only moves sleepers to the position where they want the lock. */
  lemma WakeResumeFacts(c: Cpu)
    ensures var d := WakeResume(c);
            && d.hasWaiter == c.hasWaiter && HoldsLock(d.pc) == HoldsLock(c.pc) && Owning(d.pc) == Owning(c.pc)
            && Quiet(d.pc) == Quiet(c.pc) && !ResumeSleeper(d.pc) && CondSleeper(d.pc) == CondSleeper(c.pc)
            && (Owning(c.pc) || HoldsLock(c.pc) ==> d == c)
    ensures forall pending, holderPc: Pc :: CpuInv(pending, StopBroadcast, c) ==>
      CpuInv(pending, holderPc, WakeResume(c)) || CondSleeper(c.pc)
  {
  }

  lemma BroadcastInv(s: State, i: nat, o: Option<nat>)
    requires InvFor(s, o) && i < |s.cpus| && s.cpus[i].pc.StopBroadcast?
    ensures InvFor(AdvanceStop(s, i), o)
  {
    hide LockInv, OwnerIs, CpuInv, Quiet, Settled;
    var t := AdvanceStop(s, i);
    assert t.cpus[i] == s.cpus[i].(pc := StopUnlock);
    assert forall j: nat :: j < |s.cpus| && j != i ==> t.cpus[j] == WakeResume(s.cpus[j]);
    BroadcastFacts(s, i, o);
    hide WakeResume, SectionInv;
    RolesKept(s, t, o);
    OwnerPcKept(s, t, o);
    SectionKept(s, t, o);
  }

  lemma OwnerPcKept(s: State, t: State, o: Option<nat>)
    requires OwnerIs(s, o) && |t.cpus| == |s.cpus|
    requires forall j: nat :: j < |s.cpus| && Owning(s.cpus[j].pc) ==> t.cpus[j].pc == s.cpus[j].pc
    ensures forall j: nat :: j < |s.cpus| && o == Some(j) ==> t.cpus[j].pc == s.cpus[j].pc
  {
    hide Owning;
  }

  lemma BroadcastFacts(s: State, i: nat, o: Option<nat>)
    requires InvFor(s, o) && i < |s.cpus| && s.cpus[i].pc.StopBroadcast?
    ensures var t := AdvanceStop(s, i);
            && CpusInv(t) && Debt(t) == Debt(s)
            && (forall j: nat :: j < |s.cpus| ==>
                  && t.cpus[j].hasWaiter == s.cpus[j].hasWaiter
                  && HoldsLock(t.cpus[j].pc) == HoldsLock(s.cpus[j].pc)
                  && Owning(t.cpus[j].pc) == Owning(s.cpus[j].pc)
                  && (Owning(s.cpus[j].pc) ==> t.cpus[j].pc == s.cpus[j].pc)
                  && Quiet(t.cpus[j].pc) == Quiet(s.cpus[j].pc))
  {
    var t := AdvanceStop(s, i);
    HolderFacts(s, i);
    hide SectionInv, OwnerIs, LockInv;
    forall j: nat | j < |s.cpus|
      ensures CpuInv(s.pending, StopUnlock, t.cpus[j])
    {
      assert CpuInv(s.pending, HolderPc(s), s.cpus[j]);
      WakeResumeFacts(s.cpus[j]);
    }
    forall j: nat | j < |s.cpus| {
      WakeResumeFacts(s.cpus[j]);
    }
  }

  /** A running CPU is counted. */
  lemma ScanCountedInv(s: State, i: nat, o: Option<nat>)
    requires InvFor(s, o) && i < |s.cpus| && s.cpus[i].pc.StartScan?
    requires s.cpus[i].pc.next < |s.cpus| && s.cpus[s.cpus[i].pc.next].running
    ensures InvFor(Scan(s, i), o)
  {
    hide LockInv, OwnerIs, SectionInv, CpuInv;
    var t := Scan(s, i);
    var next := s.cpus[i].pc.next;
    ScanTargetFacts(s, i, o);
    assert forall j: nat :: j < |s.cpus| && j != i && j != next ==> t.cpus[j] == s.cpus[j];
    RolesKept(s, t, o);
    ScanCountedSection(s, i);
  }

  lemma ScanCountedSection(s: State, i: nat)
    requires i < |s.cpus| && s.cpus[i].pc.StartScan?
    requires var next := s.cpus[i].pc.next;
      next < |s.cpus| && s.cpus[next].running && next != i && !s.cpus[next].hasWaiter
    requires OwnerIs(s, Some(i)) && SectionInv(s, Some(i)) && OwnerIs(Scan(s, i), Some(i))
    ensures SectionInv(Scan(s, i), Some(i))
  {
    hide OwnerIs, UncountedQuiet, FlagsBelow, Scan;
    ScanFlags(s, i);
    ScanQuiet(s, i, s.cpus[i].pc.next);
  }

  lemma ScanFlags(s: State, i: nat)
    requires i < |s.cpus| && s.cpus[i].pc.StartScan?
    requires var next := s.cpus[i].pc.next;
      next < |s.cpus| && s.cpus[next].running && next != i && !s.cpus[next].hasWaiter
    ensures var t := Scan(s, i); var pc := s.cpus[i].pc;
      && |t.cpus| == |s.cpus| && t.pending == s.pending && t.cpus[i].pc == StartScan(pc.next + 1, pc.found + 1)
      && |Flagged(t)| == |Flagged(s)| + 1
  {
    assert Flagged(Scan(s, i)) == Flagged(s) + {s.cpus[i].pc.next};
  }

  lemma ScanQuiet(s: State, i: nat, next: nat)
    requires i < |s.cpus| && s.cpus[i].pc.StartScan? && next == s.cpus[i].pc.next < |s.cpus| && s.cpus[next].running
    requires FlagsBelow(s, next) && UncountedQuiet(s, next)
    ensures FlagsBelow(Scan(s, i), next + 1) && UncountedQuiet(Scan(s, i), next + 1)
  {
  }

  lemma ScanTargetFacts(s: State, i: nat, o: Option<nat>)
    requires InvFor(s, o) && i < |s.cpus| && s.cpus[i].pc.StartScan?
    requires s.cpus[i].pc.next < |s.cpus| && s.cpus[s.cpus[i].pc.next].running
    ensures var next := s.cpus[i].pc.next;
            && o == Some(i) && next != i && !s.cpus[next].hasWaiter
            && HolderPc(Scan(s, i)).StartScan? && HolderPc(s).StartScan?
            && CpuInv(s.pending, HolderPc(Scan(s, i)), Scan(s, i).cpus[next])
            && CpuInv(s.pending, HolderPc(Scan(s, i)), Scan(s, i).cpus[i])
    ensures forall j: nat :: j < |s.cpus| ==>
               CpuInv(s.pending, HolderPc(s), s.cpus[j]) ==> CpuInv(s.pending, HolderPc(Scan(s, i)), s.cpus[j])
  {
    var next := s.cpus[i].pc.next;
    HolderFacts(s, i);
    assert CpuInv(s.pending, HolderPc(s), s.cpus[next]);
    assert CpuInv(s.pending, HolderPc(s), s.cpus[i]);
  }

  /** A CPU that is not running is quiet, and stays so because pending_cpus is nonzero. */
  lemma ScanSkippedInv(s: State, i: nat, o: Option<nat>)
    requires InvFor(s, o) && i < |s.cpus| && s.cpus[i].pc.StartScan?
    requires s.cpus[i].pc.next < |s.cpus| ==> !s.cpus[s.cpus[i].pc.next].running
    ensures InvFor(Scan(s, i), o)
  {
    var t := Scan(s, i);
    var next := s.cpus[i].pc.next;
    HolderFacts(s, i);
    if next < |s.cpus| {
      assert CpuInv(s.pending, HolderPc(s), s.cpus[next]);
      assert Quiet(s.cpus[next].pc);
      assert !s.cpus[next].hasWaiter;
    }
    assert Flagged(t) == Flagged(s);
    hide YetToRelease, Runs, Quiet, HoldsLock;
    assert CpusInv(t);
  }

  // ----- all events

  lemma AdvanceInv(s: State, i: nat, o: Option<nat>) returns (o': Option<nat>)
    requires InvFor(s, o) && i < |s.cpus| && CanContinue(s, i)
    ensures InvFor(Advance(s, i), o')
  {
    o' := o;
    hide InvFor;
    match s.cpus[i].pc
    case ExecRead | ExecLock | ExecTest => ExecEntryInv(s, i, o);
    case ExecClear | ExecIdle | ExecWoken => ExecWaitInv(s, i, o);
    case ExecSet | ExecUnlock => ExecResumeInv(s, i, o);
    case EndRead | EndLock | EndUnlock => EndPlainInv(s, i, o);
    case EndTest => if s.cpus[i].hasWaiter { EndCountedInv(s, i, o); } else { EndUncountedInv(s, i, o); }
    case EndDec => EndDecInv(s, i, o);
    case EndSignal => SleeperNeedsTwo(s, i, o); EndQuietInv(s, i, o);
    case StartLock | StartIdle | StartWoken => StartEntryInv(s, i, o);
    case StartPublish => PublishInv(s, i, o); o' := Some(i);
    case StartScan(next, _) =>
      if next < |s.cpus| && s.cpus[next].running { ScanCountedInv(s, i, o); } else { ScanSkippedInv(s, i, o); }
    case StartCount(_) => CountInv(s, i, o);
    case StartWait | StartCondWoken | StartUnlock => StartWaitInv(s, i, o);
    case StopLock | StopUnlock => StopPlainInv(s, i, o);
    case StopReset => ResetInv(s, i, o); o' := None;
    case StopBroadcast => BroadcastInv(s, i, o);
    case _ =>
  }

  /** A sleeper on exclusive_cond is the owner, so the counter is at least 1. */
  lemma SleeperNeedsTwo(s: State, i: nat, o: Option<nat>)
    requires InvFor(s, o) && i < |s.cpus| && s.pending != 1
    ensures forall j: nat :: j < |s.cpus| && CondSleeper(s.cpus[j].pc) ==> s.pending > 1
  {
    forall j: nat | j < |s.cpus| && CondSleeper(s.cpus[j].pc)
      ensures s.pending > 1
    {
      assert o == Some(j);
    }
  }

  lemma SignalInv(s: State, i: nat, j: nat, o: Option<nat>)
    requires InvFor(s, o) && Enabled(s, Act(i, Signal(j)))
    ensures InvFor(Next(s, Act(i, Signal(j))), o)
  {
    if CondSleeper(s.cpus[j].pc) {
      assert o == Some(j);
      var c := s.cpus[j].(pc := StartCondWoken);
      hide InvFor;
      Facts(s, j, o);
      LocalStepInv(s, j, c, s.holder, o);
      var t := Put(s, j, c, s.holder);
      assert t == Goto(s, j, Woken(s.cpus[j].pc));
      NoOtherSleeper(t, j, o);
      EndQuietInv(t, i, o);
    } else {
      EndQuietInv(s, i, o);
    }
  }

  lemma NoOtherSleeper(s: State, j: nat, o: Option<nat>)
    requires InvFor(s, o) && j < |s.cpus| && s.cpus[j].pc.StartCondWoken?
    ensures forall k: nat :: k < |s.cpus| ==> !CondSleeper(s.cpus[k].pc)
  {
    assert o == Some(j);
  }

  lemma ExecChoiceInv(s: State, i: nat, choice: Choice, o: Option<nat>)
    requires InvFor(s, o) && Enabled(s, Act(i, choice))
    requires choice.ExecStart? || choice.ExecEnd? || choice.Spurious?
    ensures InvFor(Next(s, Act(i, choice)), o)
  {
    hide InvFor;
    Facts(s, i, o);
    var t := Next(s, Act(i, choice));
    LocalStepInv(s, i, t.cpus[i], t.holder, o);
  }

  lemma ExclusiveChoiceInv(s: State, i: nat, choice: Choice, o: Option<nat>)
    requires InvFor(s, o) && Enabled(s, Act(i, choice))
    requires choice.ExclusiveStart? || choice.ExclusiveEnd? || choice.TakeWork? || choice.RunWork?
    ensures InvFor(Next(s, Act(i, choice)), o)
  {
    hide InvFor;
    Facts(s, i, o);
    var t := Next(s, Act(i, choice));
    LocalStepInv(s, i, t.cpus[i], t.holder, o);
  }

  lemma EnqueueKeepsCpuInv(c: Cpu, w: Work, pending: int, holderPc: Pc)
    requires CpuInv(pending, holderPc, c)
    ensures CpuInv(pending, holderPc, c.(queue := c.queue + [w], queued := c.queued + [w]))
  {
  }

  lemma EnqueueInv(s: State, i: nat, w: Work, o: Option<nat>)
    requires InvFor(s, o) && i < |s.cpus|
    ensures InvFor(Next(s, Enqueue(i, w)), o)
  {
    hide LockInv, OwnerIs, Quiet, Settled, CpuInv, SectionInv;
    var t := Next(s, Enqueue(i, w));
    assert forall j: nat :: j < |s.cpus| && j != i ==> t.cpus[j] == s.cpus[j];
    EnqueueKeepsCpuInv(s.cpus[i], w, s.pending, HolderPc(s));
    RolesKept(s, t, o);
    assert HolderPc(t) == HolderPc(s);
    assert CpusInv(t);
    SectionKept(s, t, o);
  }

  lemma NextInv(s: State, e: Event)
    requires Inv(s) && Enabled(s, e)
    ensures Inv(Next(s, e))
  {
    var o: Option<nat> :| InvFor(s, o);
    hide InvFor;
    match e
    case Enqueue(i, w) =>
      EnqueueInv(s, i, w, o);
    case Act(i, choice) =>
      match choice
      case Signal(j) => SignalInv(s, i, j, o);
      case Continue => var o' := AdvanceInv(s, i, o);
      case ExecStart | ExecEnd | Spurious => ExecChoiceInv(s, i, choice, o);
      case _ => ExclusiveChoiceInv(s, i, choice, o);
  }

  /** The invariant holds in every state of every schedule over any number of CPUs. */
  lemma {:induction false} RunInv(n: nat, schedule: seq<Event>)
    ensures Run(n, schedule).Some? ==> Inv(Run(n, schedule).value)
  {
    if schedule == [] {
      InitInv(n);
    } else {
      var last := |schedule| - 1;
      RunInv(n, schedule[..last]);
      var before := Run(n, schedule[..last]);
      if before.Some? && Enabled(before.value, schedule[last]) {
        NextInv(before.value, schedule[last]);
      }
    }
  }
}
