/**
 How long `start_exclusive` can wait once it has counted the running CPUs: every
 step of a CPU it counted, and every step of its own that no spurious wake-up
 forced, brings it closer to its section.
 */
module ExclusiveBound {
  import opened ExclusiveProtocol
  import opened ExclusiveInvariant
  import opened ExclusiveTheorems

  /** start_exclusive after CPU_FOREACH and before its return. */
  predicate Counted(pc: Pc) {
    pc.StartWait? || pc.StartCondAsleep? || pc.StartCondWoken? || pc.StartUnlock?
  }

  /** How far a CPU is from having released the CPU that counted it; 0 for all others. */
  function Rank(c: Cpu): nat {
    if c.pc.EndDec? then 4
    else if c.pc.EndSignal? then 3
    else if !c.hasWaiter then 0
    else
      match c.pc
      case ExecRead => 12
      case ExecLock => 11
      case ExecTest => 10
      case ExecUnlock => 9
      case Executing => 8
      case EndRead => 7
      case EndLock => 6
      case _ => 5
  }

  /** How far the waiting CPU itself is from its section. */
  function OwnerRank(pc: Pc): nat {
    match pc
    case StartCondWoken => 4
    case StartWait => 3
    case StartCondAsleep => 2
    case StartUnlock => 1
    case _ => 0
  }

  function RankSum(cpus: seq<Cpu>): nat {
    if cpus == [] then 0 else Rank(cpus[0]) + RankSum(cpus[1..])
  }

  function Distance(s: State, o: nat): nat
    requires o < |s.cpus|
  {
    RankSum(s.cpus) + OwnerRank(s.cpus[o].pc)
  }

  /** A step, other than a spurious wake-up, of the waiting CPU or of one it waits for. */
  predicate Relevant(s: State, o: nat, e: Event) {
    e.Act? && !e.choice.Spurious? && e.cpu < |s.cpus| && (e.cpu == o || Rank(s.cpus[e.cpu]) > 0)
  }

  predicate SpuriousAt(o: nat, e: Event) {
    e == Act(o, Spurious)
  }

  lemma {:induction false} RankUpdate(cpus: seq<Cpu>, i: nat, c: Cpu)
    requires i < |cpus|
    ensures RankSum(cpus[i := c]) == RankSum(cpus) - Rank(cpus[i]) + Rank(c)
  {
    hide Rank;
    var cpus1 := cpus[i := c];
    if i == 0 {
      assert cpus1[1..] == cpus[1..];
    } else {
      assert cpus1[1..] == cpus[1..][i - 1 := c];
      RankUpdate(cpus[1..], i - 1, c);
    }
  }

  lemma {:induction false} RankSame(a: seq<Cpu>, b: seq<Cpu>)
    requires |a| == |b| && forall i :: 0 <= i < |a| ==> Rank(a[i]) == Rank(b[i])
    ensures RankSum(a) == RankSum(b)
  {
    hide Rank;
    if a != [] {
      RankSame(a[1..], b[1..]);
    }
  }

  lemma {:induction false} RankBound(cpus: seq<Cpu>)
    ensures RankSum(cpus) <= 12 * |cpus|
  {
    if cpus != [] {
      RankBound(cpus[1..]);
    }
  }

  /** What one event may do to the distance. */
  predicate Closer(s: State, o: nat, e: Event, t: State)
    requires o < |s.cpus| == |t.cpus|
  {
    if Relevant(s, o, e) then Distance(t, o) < Distance(s, o)
    else Distance(t, o) <= Distance(s, o) + if SpuriousAt(o, e) then 2 else 0
  }

  /** Events that change one CPU only. */
  lemma OneCpu(s: State, o: nat, i: nat, c: Cpu, t: State)
    requires o < |s.cpus| && i < |s.cpus| && t.cpus == s.cpus[i := c]
    ensures Distance(t, o) == Distance(s, o) - Rank(s.cpus[i]) + Rank(c)
      + (if i == o then OwnerRank(c.pc) - OwnerRank(s.cpus[i].pc) else 0)
  {
    hide Rank, OwnerRank;
    RankUpdate(s.cpus, i, c);
  }

  lemma ExecStartCloser(s: State, o: nat, i: nat)
    requires InvFor(s, Some(o)) && o < |s.cpus| && i < |s.cpus| && Counted(s.cpus[o].pc)
    requires InExecStart(s.cpus[i].pc) && CanContinue(s, i)
    ensures Closer(s, o, Act(i, Continue), AdvanceExecStart(s, i))
  {
    Facts(s, i, Some(o));
    hide InvFor, RankSum;
    var t := AdvanceExecStart(s, i);
    OneCpu(s, o, i, t.cpus[i], t);
  }

  lemma ExecEndCloser(s: State, o: nat, i: nat)
    requires InvFor(s, Some(o)) && o < |s.cpus| && i < |s.cpus| && Counted(s.cpus[o].pc)
    requires InExecEnd(s.cpus[i].pc) && CanContinue(s, i)
    ensures Closer(s, o, Act(i, Continue), AdvanceExecEnd(s, i))
  {
    Facts(s, i, Some(o));
    hide InvFor, RankSum;
    var t := AdvanceExecEnd(s, i);
    OneCpu(s, o, i, t.cpus[i], t);
  }

  lemma StartCloser(s: State, o: nat, i: nat)
    requires InvFor(s, Some(o)) && o < |s.cpus| && i < |s.cpus| && Counted(s.cpus[o].pc)
    requires InStart(s.cpus[i].pc) && CanContinue(s, i)
    ensures |AdvanceStart(s, i).cpus| == |s.cpus| && Closer(s, o, Act(i, Continue), AdvanceStart(s, i))
  {
    Facts(s, i, Some(o));
    hide InvFor, RankSum;
    var t := AdvanceStart(s, i);
    assert !s.cpus[i].pc.StartScan? && !s.cpus[i].pc.StartCount?;
    OneCpu(s, o, i, t.cpus[i], t);
  }

  lemma StopCloser(s: State, o: nat, i: nat)
    requires InvFor(s, Some(o)) && o < |s.cpus| && i < |s.cpus| && Counted(s.cpus[o].pc)
    requires InStop(s.cpus[i].pc) && CanContinue(s, i)
    ensures |AdvanceStop(s, i).cpus| == |s.cpus| && Closer(s, o, Act(i, Continue), AdvanceStop(s, i))
  {
    Facts(s, i, Some(o));
    Facts(s, o, Some(o));
    hide InvFor, RankSum;
    var t := AdvanceStop(s, i);
    if s.cpus[i].pc.StopBroadcast? {
      RankSame(s.cpus, t.cpus);
    } else {
      OneCpu(s, o, i, t.cpus[i], t);
    }
  }

  /** What the invariant says about a CPU while CPU `o` waits for those it counted. */
  lemma Roles(s: State, o: nat, i: nat)
    requires InvFor(s, Some(o)) && o < |s.cpus| && i < |s.cpus| && Counted(s.cpus[o].pc)
    ensures s.cpus[i].hasWaiter ==> YetToRelease(s.cpus[i].pc)
    ensures s.cpus[i].pc.Exclusive? || s.cpus[i].pc.StartCondAsleep? ==> i == o
    ensures !s.cpus[o].hasWaiter && !s.cpus[i].pc.Exclusive?
  {
    Facts(s, i, Some(o));
    Facts(s, o, Some(o));
  }

  lemma SignalCloser(s: State, o: nat, i: nat, j: nat)
    requires InvFor(s, Some(o)) && o < |s.cpus| && Counted(s.cpus[o].pc) && Enabled(s, Act(i, Signal(j)))
    ensures Closer(s, o, Act(i, Signal(j)), Next(s, Act(i, Signal(j))))
  {
    hide InvFor, RankSum;
    Roles(s, o, i);
    Roles(s, o, j);
    var t := Next(s, Act(i, Signal(j)));
    if CondSleeper(s.cpus[j].pc) {
      var mid := Goto(s, j, Woken(s.cpus[j].pc));
      OneCpu(s, o, j, mid.cpus[j], mid);
      OneCpu(mid, o, i, t.cpus[i], t);
    } else {
      OneCpu(s, o, i, t.cpus[i], t);
    }
  }

  /** Entering and leaving guest code, and waking up without a signal. */
  lemma ExecCloser(s: State, o: nat, i: nat, choice: Choice)
    requires InvFor(s, Some(o)) && o < |s.cpus| && Counted(s.cpus[o].pc) && Enabled(s, Act(i, choice))
    requires choice.ExecStart? || choice.ExecEnd? || choice.Spurious?
    ensures Closer(s, o, Act(i, choice), Next(s, Act(i, choice)))
  {
    hide InvFor, RankSum;
    Roles(s, o, i);
    var t := Next(s, Act(i, choice));
    OneCpu(s, o, i, t.cpus[i], t);
  }

  /** Requests and work items concern CPUs that nobody waits for. */
  lemma RequestCloser(s: State, o: nat, e: Event)
    requires InvFor(s, Some(o)) && o < |s.cpus| && Counted(s.cpus[o].pc) && Enabled(s, e)
    requires e.Act? ==> e.choice.ExclusiveStart? || e.choice.ExclusiveEnd? || e.choice.TakeWork? || e.choice.RunWork?
    ensures |Next(s, e).cpus| == |s.cpus| && Closer(s, o, e, Next(s, e))
  {
    hide InvFor, RankSum;
    Roles(s, o, e.cpu);
    var t := Next(s, e);
    OneCpu(s, o, e.cpu, t.cpus[e.cpu], t);
  }

  lemma NextCloser(s: State, o: nat, e: Event)
    requires InvFor(s, Some(o)) && o < |s.cpus| && Counted(s.cpus[o].pc) && Enabled(s, e)
    ensures |Next(s, e).cpus| == |s.cpus| && Closer(s, o, e, Next(s, e))
  {
    hide InvFor, Closer, Counted;
    if e.Act? && e.choice.Continue? {
      var pc := s.cpus[e.cpu].pc;
      if InExecStart(pc) {
        ExecStartCloser(s, o, e.cpu);
      } else if InExecEnd(pc) {
        ExecEndCloser(s, o, e.cpu);
      } else if InStart(pc) {
        StartCloser(s, o, e.cpu);
      } else {
        StopCloser(s, o, e.cpu);
      }
    } else if e.Act? && e.choice.Signal? {
      SignalCloser(s, o, e.cpu, e.choice.sleeper);
    } else if e.Act? && (e.choice.ExecStart? || e.choice.ExecEnd? || e.choice.Spurious?) {
      ExecCloser(s, o, e.cpu, e.choice);
    } else {
      RequestCloser(s, o, e);
    }
  }

  /** CPU `o` waits in start_exclusive before each of these events. */
  predicate Waits(s: State, o: nat, events: seq<Event>)
    decreases |events|
  {
    events == [] ||
    (o < |s.cpus| && Counted(s.cpus[o].pc) && Enabled(s, events[0]) && Waits(Next(s, events[0]), o, events[1..]))
  }

  function RelevantIn(s: State, o: nat, events: seq<Event>): nat
    requires Waits(s, o, events)
    decreases |events|
  {
    if events == [] then 0
    else (if Relevant(s, o, events[0]) then 1 else 0) + RelevantIn(Next(s, events[0]), o, events[1..])
  }

  function SpuriousIn(o: nat, events: seq<Event>): nat {
    if events == [] then 0 else (if SpuriousAt(o, events[0]) then 1 else 0) + SpuriousIn(o, events[1..])
  }

  /** A counted CPU is the owner of the section to come. */
  lemma CountedOwns(s: State, o: nat, p: Option<nat>)
    requires InvFor(s, p) && o < |s.cpus| && Counted(s.cpus[o].pc)
    ensures p == Some(o)
  {
    Facts(s, o, p);
  }

  lemma {:induction false} RelevantBounded(s: State, o: nat, events: seq<Event>)
    requires Inv(s) && o < |s.cpus| && Waits(s, o, events)
    ensures RelevantIn(s, o, events) <= Distance(s, o) + 2 * SpuriousIn(o, events)
    decreases |events|
  {
    hide InvFor, Distance, Relevant, SpuriousAt, Counted, Enabled, Next;
    if events != [] {
      var p :| InvFor(s, p);
      CountedOwns(s, o, p);
      NextCloser(s, o, events[0]);
      NextInv(s, events[0]);
      RelevantBounded(Next(s, events[0]), o, events[1..]);
    }
  }

  /**
   From any reachable state, as long as a CPU that has counted the others waits,
   the steps that matter to it number at most twelve for each CPU, four of its
   own, and two for each time it is woken without a signal.
   */
  lemma SectionComes(n: nat, schedule: seq<Event>, s: State, o: nat, events: seq<Event>)
    requires Reached(n, schedule, s) && o < |s.cpus| && Waits(s, o, events)
    ensures RelevantIn(s, o, events) <= 12 * |s.cpus| + 4 + 2 * SpuriousIn(o, events)
  {
    hide InvFor, Waits, RelevantIn, SpuriousIn;
    var p := ReachedInv(n, schedule, s);
    RankBound(s.cpus);
    RelevantBounded(s, o, events);
  }

  /** While it waits, a step that matters is possible, or the lock is held by a CPU that can go on. */
  lemma SomethingMatters(n: nat, schedule: seq<Event>, s: State, o: nat) returns (e: Event)
    requires Reached(n, schedule, s) && o < |s.cpus| && Counted(s.cpus[o].pc)
    ensures Progress(s, e)
    ensures Relevant(s, o, e) || s.holder == Some(e.cpu)
  {
    hide Reached, InvFor, Progress;
    var p := ReachedInv(n, schedule, s);
    CountedOwns(s, o, p);
    ExclusiveHand(n, schedule, s);
    var k: nat := o;
    if s.holder.Some? {
      HolderStands(s, p);
      k := s.holder.value;
    } else if CondSleeper(s.cpus[o].pc) {
      NoLostWakeup(n, schedule, s, o);
      k :| k < |s.cpus| && s.cpus[k].hasWaiter && YetToRelease(s.cpus[k].pc);
    }
    e := AwakeMoves(s, k);
  }
}
