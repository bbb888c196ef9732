/**
 The handshake between `start_exclusive`/`end_exclusive` and
 `cpu_exec_start`/`cpu_exec_end`, as a state machine.

 Every access to shared memory, every acquisition or release of the CPU list
 lock and every wait on a condition variable is one atomic step of one CPU.
 The full barriers of the source justify reading those accesses in one global
 order.  A condition variable wait releases the lock and goes to sleep in one
 step; a woken CPU must take the lock again.  Wake-ups without a signal are
 allowed at any time.
 */
module ExclusiveProtocol {

  datatype Option<+T> = None | Some(value: T)

  /** An item of a CPU's work list; `exclusive` is set by `async_safe_run_on_cpu`. */
  datatype Work = Work(id: nat, exclusive: bool)

  /** Where a CPU thread stands. */
  datatype Pc =
    | Outside                               // in none of the four functions
      // cpu_exec_start
    | ExecRead                              // running set, about to read pending_cpus
    | ExecLock                              // pending_cpus was nonzero, wants the lock
    | ExecTest                              // has the lock, about to test has_waiter
    | ExecClear                             // has the lock, about to clear running
    | ExecIdle                              // has the lock, testing pending_cpus in exclusive_idle
    | ExecAsleep                            // waits on exclusive_resume
    | ExecWoken                             // woken, wants the lock back
    | ExecSet                               // has the lock, about to set running again
    | ExecUnlock                            // has the lock, about to release it
    | Executing                             // between cpu_exec_start and cpu_exec_end
      // cpu_exec_end
    | EndRead                               // running cleared, about to read pending_cpus
    | EndLock
    | EndTest                               // has the lock, about to test has_waiter
    | EndDec                                // has_waiter cleared, about to decrement pending_cpus
    | EndSignal                             // decremented, about to test for 1 and signal
    | EndUnlock
      // start_exclusive
    | StartLock
    | StartIdle                             // has the lock, testing pending_cpus in exclusive_idle
    | StartAsleep                           // waits on exclusive_resume
    | StartWoken
    | StartPublish                          // has the lock, about to set pending_cpus to 1
    | StartScan(next: nat, found: nat)      // in CPU_FOREACH
    | StartCount(total: nat)                // about to set pending_cpus to total + 1
    | StartWait                             // has the lock, testing pending_cpus > 1
    | StartCondAsleep                       // waits on exclusive_cond
    | StartCondWoken
    | StartUnlock
    | Exclusive                             // start_exclusive has returned
      // end_exclusive
    | StopLock
    | StopReset                             // has the lock, about to set pending_cpus to 0
    | StopBroadcast                         // about to broadcast exclusive_resume
    | StopUnlock

  /** The fields of CPUState the protocol uses, and the history of the work list. */
  datatype Cpu = Cpu(
    pc: Pc,
    running: bool,
    hasWaiter: bool,
    exclusiveCount: nat,
    queue: seq<Work>,        // work_list
    current: Option<Work>,   // taken from the list, function not yet called
    queued: seq<Work>,       // everything ever put on the list
    ran: seq<Work>           // everything whose function was called
  )

  datatype State = State(pending: int, holder: Option<nat>, cpus: seq<Cpu>)

  /** What a CPU does next where it has a choice; `Continue` is the next statement. */
  datatype Choice =
    | ExecStart | ExecEnd
    | ExclusiveStart | ExclusiveEnd
    | TakeWork | RunWork
    | Signal(sleeper: nat)
    | Spurious
    | Continue

  datatype Event =
    | Act(cpu: nat, choice: Choice)
    | Enqueue(cpu: nat, work: Work)

  const FRESH_CPU := Cpu(Outside, false, false, 0, [], None, [], [])

  function Init(n: nat): State {
    State(0, None, seq(n, _ => FRESH_CPU))
  }

  predicate WantsLock(pc: Pc) {
    pc.ExecLock? || pc.ExecWoken? || pc.EndLock? || pc.StartLock? || pc.StartWoken?
    || pc.StartCondWoken? || pc.StopLock?
  }

  predicate HoldsLock(pc: Pc) {
    pc.ExecTest? || pc.ExecClear? || pc.ExecIdle? || pc.ExecSet? || pc.ExecUnlock?
    || pc.EndTest? || pc.EndDec? || pc.EndSignal? || pc.EndUnlock?
    || pc.StartIdle? || pc.StartPublish? || pc.StartScan? || pc.StartCount? || pc.StartWait? || pc.StartUnlock?
    || pc.StopReset? || pc.StopBroadcast? || pc.StopUnlock?
  }

  predicate ResumeSleeper(pc: Pc) {
    pc.ExecAsleep? || pc.StartAsleep?
  }

  predicate CondSleeper(pc: Pc) {
    pc.StartCondAsleep?
  }

  /** Whether the next statement of CPU `i` is determined and does not block. */
  predicate CanContinue(s: State, i: nat)
    requires i < |s.cpus|
  {
    var pc := s.cpus[i].pc;
    if WantsLock(pc) then s.holder.None?
    else
      && !pc.Outside? && !pc.Executing? && !pc.Exclusive?
      && !ResumeSleeper(pc) && !CondSleeper(pc)
      && (pc.EndSignal? ==> s.pending != 1)
  }

  predicate Enabled(s: State, e: Event) {
    match e
    case Enqueue(i, _) => i < |s.cpus|
    case Act(i, choice) =>
      i < |s.cpus| &&
      var c := s.cpus[i];
      match choice
      case ExecStart => c.pc.Outside? && c.current.None?
      case ExecEnd => c.pc.Executing?
      case ExclusiveStart => (c.pc.Outside? && c.current.None?) || c.pc.Exclusive?
      case ExclusiveEnd => c.pc.Exclusive? && (c.exclusiveCount > 1 || c.current.None?)
      case TakeWork => c.pc.Outside? && c.current.None? && c.queue != []
      case RunWork => c.current.Some? && (if c.current.value.exclusive then c.pc.Exclusive? else c.pc.Outside?)
      case Signal(j) =>
        && c.pc.EndSignal? && s.pending == 1 && j < |s.cpus|
        && (CondSleeper(s.cpus[j].pc) || forall k | 0 <= k < |s.cpus| :: !CondSleeper(s.cpus[k].pc))
      case Spurious => ResumeSleeper(c.pc) || CondSleeper(c.pc)
      case Continue => CanContinue(s, i)
  }

  function Woken(pc: Pc): Pc {
    match pc
    case ExecAsleep => ExecWoken
    case StartAsleep => StartWoken
    case StartCondAsleep => StartCondWoken
    case _ => pc
  }

  function Goto(s: State, i: nat, pc: Pc): State
    requires i < |s.cpus|
  {
    s.(cpus := s.cpus[i := s.cpus[i].(pc := pc)])
  }

  function SetRunning(s: State, i: nat, running: bool, pc: Pc): State
    requires i < |s.cpus|
  {
    s.(cpus := s.cpus[i := s.cpus[i].(pc := pc, running := running)])
  }

  function WakeResume(c: Cpu): Cpu {
    if ResumeSleeper(c.pc) then c.(pc := Woken(c.pc)) else c
  }

  function Lock(s: State, i: nat): State {
    s.(holder := Some(i))
  }

  function Unlock(s: State): State {
    s.(holder := None)
  }

  predicate InExecStart(pc: Pc) {
    pc.ExecRead? || pc.ExecLock? || pc.ExecTest? || pc.ExecClear? || pc.ExecIdle? || pc.ExecWoken? || pc.ExecSet?
    || pc.ExecUnlock?
  }

  /** The next statement of cpu_exec_start. */
  function AdvanceExecStart(s: State, i: nat): State
    requires i < |s.cpus| && InExecStart(s.cpus[i].pc)
  {
    match s.cpus[i].pc
    case ExecRead => Goto(s, i, if s.pending != 0 then ExecLock else Executing)
    case ExecLock => Goto(Lock(s, i), i, ExecTest)
    case ExecTest => Goto(s, i, if s.cpus[i].hasWaiter then ExecUnlock else ExecClear)
    case ExecClear => SetRunning(s, i, false, ExecIdle)
    case ExecIdle => if s.pending != 0 then Goto(Unlock(s), i, ExecAsleep) else Goto(s, i, ExecSet)
    case ExecWoken => Goto(Lock(s, i), i, ExecIdle)
    case ExecSet => SetRunning(s, i, true, ExecUnlock)
    case ExecUnlock => Goto(Unlock(s), i, Executing)
  }

  predicate InExecEnd(pc: Pc) {
    pc.EndRead? || pc.EndLock? || pc.EndTest? || pc.EndDec? || pc.EndSignal? || pc.EndUnlock?
  }

  /** The next statement of cpu_exec_end; the signal itself is the event Signal. */
  function AdvanceExecEnd(s: State, i: nat): State
    requires i < |s.cpus| && InExecEnd(s.cpus[i].pc)
  {
    match s.cpus[i].pc
    case EndRead => Goto(s, i, if s.pending != 0 then EndLock else Outside)
    case EndLock => Goto(Lock(s, i), i, EndTest)
    case EndTest =>
      if s.cpus[i].hasWaiter then s.(cpus := s.cpus[i := s.cpus[i].(pc := EndDec, hasWaiter := false)])
      else Goto(s, i, EndUnlock)
    case EndDec => Goto(s.(pending := s.pending - 1), i, EndSignal)
    case EndSignal => Goto(s, i, EndUnlock)
    case EndUnlock => Goto(Unlock(s), i, Outside)
  }

  predicate InStart(pc: Pc) {
    pc.StartLock? || pc.StartIdle? || pc.StartWoken? || pc.StartPublish? || pc.StartScan? || pc.StartCount?
    || pc.StartWait? || pc.StartCondWoken? || pc.StartUnlock?
  }

  /** One round of CPU_FOREACH in start_exclusive. */
  function Scan(s: State, i: nat): State
    requires i < |s.cpus| && s.cpus[i].pc.StartScan?
  {
    var StartScan(next, found) := s.cpus[i].pc;
    if next >= |s.cpus| then Goto(s, i, StartCount(found))
    else if s.cpus[next].running then
      Goto(s.(cpus := s.cpus[next := s.cpus[next].(hasWaiter := true)]), i, StartScan(next + 1, found + 1))
    else Goto(s, i, StartScan(next + 1, found))
  }

  /** The next statement of start_exclusive. */
  function AdvanceStart(s: State, i: nat): State
    requires i < |s.cpus| && InStart(s.cpus[i].pc)
  {
    match s.cpus[i].pc
    case StartLock => Goto(Lock(s, i), i, StartIdle)
    case StartIdle => if s.pending != 0 then Goto(Unlock(s), i, StartAsleep) else Goto(s, i, StartPublish)
    case StartWoken => Goto(Lock(s, i), i, StartIdle)
    case StartPublish => Goto(s.(pending := 1), i, StartScan(0, 0))
    case StartScan(_, _) => Scan(s, i)
    case StartCount(total) => Goto(s.(pending := total + 1), i, StartWait)
    case StartWait => if s.pending > 1 then Goto(Unlock(s), i, StartCondAsleep) else Goto(s, i, StartUnlock)
    case StartCondWoken => Goto(Lock(s, i), i, StartWait)
    case StartUnlock => Unlock(s).(cpus := s.cpus[i := s.cpus[i].(pc := Exclusive, exclusiveCount := 1)])
  }

  predicate InStop(pc: Pc) {
    pc.StopLock? || pc.StopReset? || pc.StopBroadcast? || pc.StopUnlock?
  }

  /** The next statement of end_exclusive, after the nesting count has reached zero. */
  function AdvanceStop(s: State, i: nat): State
    requires i < |s.cpus| && InStop(s.cpus[i].pc)
  {
    match s.cpus[i].pc
    case StopLock => Goto(Lock(s, i), i, StopReset)
    case StopReset => Goto(s.(pending := 0), i, StopBroadcast)
    case StopBroadcast =>
      Goto(s.(cpus := seq(|s.cpus|, k requires 0 <= k < |s.cpus| => WakeResume(s.cpus[k]))), i, StopUnlock)
    case StopUnlock => Goto(Unlock(s), i, Outside)
  }

  /** The next statement of CPU `i`. */
  function Advance(s: State, i: nat): State
    requires i < |s.cpus| && CanContinue(s, i)
  {
    var pc := s.cpus[i].pc;
    if InExecStart(pc) then AdvanceExecStart(s, i)
    else if InExecEnd(pc) then AdvanceExecEnd(s, i)
    else if InStart(pc) then AdvanceStart(s, i)
    else AdvanceStop(s, i)
  }

  function Next(s: State, e: Event): State
    requires Enabled(s, e)
  {
    match e
    case Enqueue(i, w) =>
      var c := s.cpus[i];
      s.(cpus := s.cpus[i := c.(queue := c.queue + [w], queued := c.queued + [w])])
    case Act(i, choice) =>
      var c := s.cpus[i];
      match choice
      case ExecStart => SetRunning(s, i, true, ExecRead)
      case ExecEnd => SetRunning(s, i, false, EndRead)
      case ExclusiveStart =>
        if c.exclusiveCount != 0 then s.(cpus := s.cpus[i := c.(exclusiveCount := c.exclusiveCount + 1)])
        else Goto(s, i, StartLock)
      case ExclusiveEnd =>
        if c.exclusiveCount > 1 then s.(cpus := s.cpus[i := c.(exclusiveCount := c.exclusiveCount - 1)])
        else s.(cpus := s.cpus[i := c.(exclusiveCount := 0, pc := StopLock)])
      case TakeWork =>
        var w := c.queue[0];
        s.(cpus := s.cpus[i := c.(queue := c.queue[1..], current := Some(w),
                                  pc := if w.exclusive then StartLock else Outside)])
      case RunWork =>
        s.(cpus := s.cpus[i := c.(current := None, ran := c.ran + [c.current.value])])
      case Signal(j) =>
        if CondSleeper(s.cpus[j].pc) then Goto(Goto(s, j, Woken(s.cpus[j].pc)), i, EndUnlock)
        else Goto(s, i, EndUnlock)
      case Spurious => Goto(s, i, Woken(c.pc))
      case Continue => Advance(s, i)
  }

  /** The state a schedule leads to from `n` fresh CPUs; None when some event of it was not enabled. */
  function Run(n: nat, schedule: seq<Event>): Option<State>
  {
    if schedule == [] then Some(Init(n))
    else
      var last := |schedule| - 1;
      match Run(n, schedule[..last])
      case None => None
      case Some(s) => if Enabled(s, schedule[last]) then Some(Next(s, schedule[last])) else None
  }
}
