/**
 What the schedule alone says about a CPU: which items were queued for it, how
 many it has taken, and how deeply its exclusive sections are nested.  In every
 run the state agrees with that account, so that a section lasts from the return
 of the outermost `start_exclusive` to the matching `end_exclusive`.
 */
module ExclusiveNesting {
  import opened ExclusiveProtocol
  import opened ExclusiveTheorems

  /** The items put on the work list of CPU `i`, in order. */
  function Queued(schedule: seq<Event>, i: nat): seq<Work> {
    if schedule == [] then []
    else
      var last := |schedule| - 1;
      Queued(schedule[..last], i) +
      match schedule[last]
      case Enqueue(k, w) => if k == i then [w] else []
      case Act(_, _) => []
  }

  /** How many items CPU `i` has taken from its list. */
  function Taken(schedule: seq<Event>, i: nat): nat {
    if schedule == [] then 0
    else
      var last := |schedule| - 1;
      Taken(schedule[..last], i) + if schedule[last] == Act(i, TakeWork) then 1 else 0
  }

  /** Whether taking the next item starts an exclusive section for it. */
  predicate TakesExclusive(schedule: seq<Event>, i: nat) {
    Taken(schedule, i) < |Queued(schedule, i)| && Queued(schedule, i)[Taken(schedule, i)].exclusive
  }

  /** Calls of start_exclusive on CPU `i` less calls of end_exclusive. */
  function Depth(schedule: seq<Event>, i: nat): int {
    if schedule == [] then 0
    else
      var last := |schedule| - 1;
      Depth(schedule[..last], i) +
      if schedule[last] == Act(i, ExclusiveStart) then 1
      else if schedule[last] == Act(i, TakeWork) && TakesExclusive(schedule[..last], i) then 1
      else if schedule[last] == Act(i, ExclusiveEnd) then -1
      else 0
  }

  /** The outermost start_exclusive of CPU `i` has returned and its end_exclusive has not been called. */
  predicate InSection(schedule: seq<Event>, s: State, i: nat) {
    i < |s.cpus| && Depth(schedule, i) > 0 && !Entering(s.cpus[i].pc)
  }

  /** The state of a CPU is what the schedule says. */
  predicate Follows(c: Cpu, queued: seq<Work>, taken: nat, depth: int) {
    && c.queued == queued
    && taken <= |queued| && c.queue == queued[taken..]
    && (c.pc.Exclusive? ==> c.exclusiveCount == depth && depth > 0)
    && (!c.pc.Exclusive? ==> c.exclusiveCount == 0 && depth == if Entering(c.pc) then 1 else 0)
  }

  /** What a step that only moves the CPU along may do to it. */
  predicate Moves(c: Cpu, d: Cpu) {
    && d.queued == c.queued && d.queue == c.queue
    && (Entering(c.pc) ==> (Entering(d.pc) && d.exclusiveCount == c.exclusiveCount)
                           || (d.pc.Exclusive? && d.exclusiveCount == 1))
    && (!Entering(c.pc) ==> !Entering(d.pc) && d.exclusiveCount == c.exclusiveCount
                            && d.pc.Exclusive? == c.pc.Exclusive?)
  }

  predicate MovesAt(s: State, t: State, j: nat) {
    |t.cpus| == |s.cpus| && (j < |s.cpus| ==> Moves(s.cpus[j], t.cpus[j]))
  }

  lemma ExecStartMoves(s: State, i: nat, j: nat)
    requires i < |s.cpus| && InExecStart(s.cpus[i].pc)
    ensures MovesAt(s, AdvanceExecStart(s, i), j)
  {
  }

  lemma ExecEndMoves(s: State, i: nat, j: nat)
    requires i < |s.cpus| && InExecEnd(s.cpus[i].pc)
    ensures MovesAt(s, AdvanceExecEnd(s, i), j)
  {
  }

  lemma StartMoves(s: State, i: nat, j: nat)
    requires i < |s.cpus| && InStart(s.cpus[i].pc)
    ensures MovesAt(s, AdvanceStart(s, i), j)
  {
  }

  lemma StopMoves(s: State, i: nat, j: nat)
    requires i < |s.cpus| && InStop(s.cpus[i].pc)
    ensures MovesAt(s, AdvanceStop(s, i), j)
  {
  }

  lemma ContinueMoves(s: State, i: nat, j: nat)
    requires i < |s.cpus| && CanContinue(s, i)
    ensures MovesAt(s, Advance(s, i), j)
  {
    hide MovesAt, AdvanceStart, AdvanceStop, AdvanceExecStart, AdvanceExecEnd;
    var pc := s.cpus[i].pc;
    if InExecStart(pc) {
      ExecStartMoves(s, i, j);
    } else if InExecEnd(pc) {
      ExecEndMoves(s, i, j);
    } else if InStart(pc) {
      StartMoves(s, i, j);
    } else {
      StopMoves(s, i, j);
    }
  }

  /** Steps that are neither a call of start_exclusive or end_exclusive nor one on the work list. */
  predicate Plain(e: Event) {
    e.Act? && !e.choice.ExclusiveStart? && !e.choice.ExclusiveEnd? && !e.choice.TakeWork?
  }

  lemma PlainMoves(s: State, e: Event, j: nat)
    requires Enabled(s, e) && Plain(e)
    ensures MovesAt(s, Next(s, e), j)
  {
    hide Advance;
    if e.choice.Continue? {
      hide MovesAt;
      ContinueMoves(s, e.cpu, j);
    }
  }

  /** A call of start_exclusive or end_exclusive, or a step on the work list, is the CPU's own. */
  lemma CallIsOwn(s: State, e: Event)
    requires Enabled(s, e) && !Plain(e)
    ensures |Next(s, e).cpus| == |s.cpus|
    ensures forall j: nat :: j < |s.cpus| && j != e.cpu ==> Next(s, e).cpus[j] == s.cpus[j]
  {
  }

  ghost predicate AllFollow(schedule: seq<Event>, s: State) {
    forall i: nat :: i < |s.cpus| ==>
      Follows(s.cpus[i], Queued(schedule, i), Taken(schedule, i), Depth(schedule, i))
  }

  /** One more event: the account is brought up to date. */
  lemma OneMore(schedule: seq<Event>, e: Event, i: nat)
    ensures Queued(schedule + [e], i) == Queued(schedule, i) + if e.Enqueue? && e.cpu == i then [e.work] else []
    ensures Taken(schedule + [e], i) == Taken(schedule, i) + if e == Act(i, TakeWork) then 1 else 0
    ensures Depth(schedule + [e], i) == Depth(schedule, i) +
      if e == Act(i, ExclusiveStart) then 1
      else if e == Act(i, TakeWork) && TakesExclusive(schedule, i) then 1
      else if e == Act(i, ExclusiveEnd) then -1
      else 0
  {
    var more := schedule + [e];
    assert more[..|more| - 1] == schedule && more[|more| - 1] == e;
  }

  lemma NextFollows(schedule: seq<Event>, s: State, e: Event, i: nat)
    requires Enabled(s, e) && i < |s.cpus|
    requires Follows(s.cpus[i], Queued(schedule, i), Taken(schedule, i), Depth(schedule, i))
    ensures |Next(s, e).cpus| == |s.cpus|
    ensures Follows(Next(s, e).cpus[i], Queued(schedule + [e], i), Taken(schedule + [e], i), Depth(schedule + [e], i))
  {
    hide Queued, Taken, Depth, Advance;
    OneMore(schedule, e, i);
    if Plain(e) {
      hide Next;
      PlainMoves(s, e, i);
    } else {
      CallIsOwn(s, e);
    }
  }

  lemma NextAllFollow(schedule: seq<Event>, s: State, e: Event)
    requires Enabled(s, e) && AllFollow(schedule, s)
    ensures AllFollow(schedule + [e], Next(s, e))
  {
    hide Follows, Next, Queued, Taken, Depth;
    NextFollows(schedule, s, e, e.cpu);
    forall i: nat | i < |Next(s, e).cpus|
      ensures Follows(Next(s, e).cpus[i], Queued(schedule + [e], i), Taken(schedule + [e], i), Depth(schedule + [e], i))
    {
      NextFollows(schedule, s, e, i);
    }
  }

  /** In every run every CPU's list, nesting count and place follow from the schedule. */
  lemma {:induction false} RunFollows(n: nat, schedule: seq<Event>)
    ensures Run(n, schedule).Some? ==> AllFollow(schedule, Run(n, schedule).value)
  {
    hide Next, Enabled;
    if schedule != [] {
      var last := |schedule| - 1;
      var before, e := schedule[..last], schedule[last];
      RunFollows(n, before);
      if Run(n, before).Some? && Enabled(Run(n, before).value, e) {
        hide AllFollow;
        assert before + [e] == schedule;
        NextAllFollow(before, Run(n, before).value, e);
      }
    }
  }

  /** A CPU is in a section exactly between the outermost start's return and the matching end, and counts its depth. */
  lemma SectionsNest(n: nat, schedule: seq<Event>, s: State, i: nat)
    requires Reached(n, schedule, s) && i < |s.cpus|
    ensures Depth(schedule, i) >= 0
    ensures s.cpus[i].pc.Exclusive? <==> InSection(schedule, s, i)
    ensures s.cpus[i].exclusiveCount == if InSection(schedule, s, i) then Depth(schedule, i) else 0
    ensures Entering(s.cpus[i].pc) ==> Depth(schedule, i) == 1
  {
    RunFollows(n, schedule);
    assert Follows(s.cpus[i], Queued(schedule, i), Taken(schedule, i), Depth(schedule, i));
  }

  /** end_exclusive gives the section up exactly when it matches the outermost start. */
  lemma EndLeavesOutermost(n: nat, schedule: seq<Event>, s: State, i: nat)
    requires Reached(n, schedule, s) && Enabled(s, Act(i, ExclusiveEnd))
    ensures var t, more := Next(s, Act(i, ExclusiveEnd)), schedule + [Act(i, ExclusiveEnd)];
      && InSection(schedule, s, i)
      && (InSection(more, t, i) <==> Depth(more, i) > 0)
      && (t.cpus[i].pc.Exclusive? <==> Depth(more, i) > 0)
  {
    hide Queued, Taken, Depth;
    SectionsNest(n, schedule, s, i);
    OneMore(schedule, Act(i, ExclusiveEnd), i);
  }

  /** start_exclusive returns at once inside a section and otherwise sets out for one. */
  lemma StartEntersOnce(n: nat, schedule: seq<Event>, s: State, i: nat)
    requires Reached(n, schedule, s) && Enabled(s, Act(i, ExclusiveStart))
    ensures var t, more := Next(s, Act(i, ExclusiveStart)), schedule + [Act(i, ExclusiveStart)];
      && Depth(more, i) == Depth(schedule, i) + 1
      && (InSection(more, t, i) <==> InSection(schedule, s, i))
      && (!InSection(schedule, s, i) ==> Depth(schedule, i) == 0 && t.cpus[i].pc.StartLock?)
  {
    hide Queued, Taken, Depth;
    SectionsNest(n, schedule, s, i);
    OneMore(schedule, Act(i, ExclusiveStart), i);
  }

  /** From the return of the outermost start_exclusive to the matching end_exclusive, the CPU is alone. */
  lemma SectionsExclude(n: nat, schedule: seq<Event>, s: State, i: nat)
    requires Reached(n, schedule, s) && InSection(schedule, s, i)
    ensures forall j: nat :: j < |s.cpus| && j != i ==> !InSection(schedule, s, j)
    ensures forall j: nat :: j < |s.cpus| ==> !s.cpus[j].pc.Executing?
  {
    hide Depth, Reached, Entering;
    SectionsNest(n, schedule, s, i);
    MutualExclusion(n, schedule, s, i);
    forall j: nat | j < |s.cpus| && j != i
      ensures !InSection(schedule, s, j)
    {
      SectionsNest(n, schedule, s, j);
    }
  }

  /** The functions called on a CPU are those of the items queued for it, in the order of the Enqueue events. */
  lemma WorkFollowsSchedule(n: nat, schedule: seq<Event>, s: State, i: nat)
    requires Reached(n, schedule, s) && i < |s.cpus|
    ensures Taken(schedule, i) <= |Queued(schedule, i)|
    ensures var c := s.cpus[i];
      && c.ran + (if c.current.Some? then [c.current.value] else []) == Queued(schedule, i)[..Taken(schedule, i)]
      && c.queue == Queued(schedule, i)[Taken(schedule, i)..]
  {
    RunFollows(n, schedule);
    WorkInOrder(n, schedule);
    hide Run;
    var c := s.cpus[i];
    assert Follows(c, Queued(schedule, i), Taken(schedule, i), Depth(schedule, i)) && WorkInv(c);
    var head := c.ran + if c.current.Some? then [c.current.value] else [];
    assert c.queued == head + c.queue;
    assert |c.queue| == |c.queued| - Taken(schedule, i);
    assert c.queued[..|head|] == head;
  }
}
