/** What `qemu-img convert` promises over every run of its workers. */
module ConvertWorkersTheorems {
  import opened ImageBuffers
  import opened ConvertContent
  import opened ConvertWorkers
  import opened ConvertWorkersInvariant
  import opened ConvertWorkersOrder
  import opened ConvertWorkersPasses

  /** The conversion is over only when a worker noticed that it was the last. */
  predicate Awake(s: State) {
    s.ret == InProgress && s.running == 0 ==> forall i :: 0 <= i < |s.ws| ==> s.ws[i].pc == Unborn
  }

  /** Only ordered writes make a worker wait. */
  predicate NoneParked(s: State) {
    forall i :: 0 <= i < |s.ws| ==> s.ws[i].pc != Parked
  }

  ghost predicate AllHitsOk(s: State) {
    forall p: int :: HitOk(s, p)
  }

  ghost predicate Inv(cfg: Config, inOrder: bool, s: State) {
    && Base(cfg, s) && Content(cfg, s) && Awake(s) && AllHitsOk(s)
    && if inOrder then Order(s) else NoneParked(s)
  }

  predicate Faulty(step: Step) {
    step.ClaimFails? || step.WriteFails? || (step.Read? && !step.ok)
  }

  lemma InitInv(cfg: Config, inOrder: bool, s: State)
    requires Init(cfg, s)
    ensures Inv(cfg, inOrder, s)
  {
    hide Joined, ConfigOk;
    assert |cfg.under| == |Goal(cfg)| by {
      Sized(cfg);
    }
    assert Active(s.ws) == {};
  }

  lemma Sized(cfg: Config)
    requires ConfigOk(cfg)
    ensures |cfg.under| == |Goal(cfg)|
  {
    hide Joined;
  }

  lemma AwakeStep(cfg: Config, inOrder: bool, s: State, step: Step)
    requires Base(cfg, s) && Awake(s) && Enabled(cfg, s, step)
    ensures Awake(Apply(cfg, inOrder, s, step))
    ensures !inOrder && NoneParked(s) ==> NoneParked(Apply(cfg, inOrder, s, step))
    ensures Apply(cfg, inOrder, s, step).ret == Failed ==> s.ret == Failed || Faulty(step)
    ensures |Apply(cfg, inOrder, s, step).ws| == |s.ws|
  {
    hide Joined, ConfigOk, StatusHolds, BufferTrue, Disjoint, LockOk, WritePass, Wake, Waiter;
    if s.ws[step.i].pc != Unborn {
      assert step.i as int in Active(s.ws);
    }
  }

  /** Every reachable state satisfies the invariant; a run without faults never fails. */
  lemma {:induction false} RunInv(cfg: Config, inOrder: bool, s: State, steps: seq<Step>)
    requires Init(cfg, s) && Run(cfg, inOrder, s, steps).Some?
    ensures var r := Run(cfg, inOrder, s, steps).value;
      && Inv(cfg, inOrder, r) && |r.ws| == |s.ws|
      && (r.ret == Failed ==> exists k :: 0 <= k < |steps| && Faulty(steps[k]))
    decreases |steps|
  {
    hide Base, Content, Order, Awake, Enabled, Apply, ConfigOk, AllHitsOk;
    if steps == [] {
      InitInv(cfg, inOrder, s);
    } else {
      var front, last := steps[..|steps| - 1], steps[|steps| - 1];
      RunInv(cfg, inOrder, s, front);
      var p := Run(cfg, inOrder, s, front).value;
      StepInv(cfg, inOrder, p, last);
      if Apply(cfg, inOrder, p, last).ret == Failed {
        if Faulty(last) {
          assert Faulty(steps[|steps| - 1]);
        } else {
          var k :| 0 <= k < |front| && Faulty(front[k]);
          assert Faulty(steps[k]);
        }
      }
    }
  }

  lemma StepInv(cfg: Config, inOrder: bool, s: State, step: Step)
    requires Inv(cfg, inOrder, s) && Enabled(cfg, s, step)
    ensures Inv(cfg, inOrder, Apply(cfg, inOrder, s, step))
    ensures Apply(cfg, inOrder, s, step).ret == Failed ==> s.ret == Failed || Faulty(step)
    ensures |Apply(cfg, inOrder, s, step).ws| == |s.ws|
  {
    hide Content, Order, Awake, Enabled, Apply, Joined, StatusHolds, Disjoint, LockOk, WorkerOk, HitOk;
    forall p: int
      ensures HitOk(Apply(cfg, inOrder, s, step), p)
    {
      HitStep(cfg, inOrder, s, step, p);
    }
    BaseStep(cfg, inOrder, s, step);
    ContentStep(cfg, inOrder, s, step);
    AwakeStep(cfg, inOrder, s, step);
    if inOrder {
      OrderStep(cfg, s, step);
    }
  }

  /** A run whose worker noticed that all work is done: everything is copied, each sector by one pass. */
  predicate Complete(cfg: Config, inOrder: bool, s: State) {
    && |s.target| == |cfg.under| == |Goal(cfg)|
    && (forall p :: 0 <= p < |Goal(cfg)| ==> View(cfg, s.target, p) == Goal(cfg)[p])
    && (forall p :: 0 <= p < |Goal(cfg)| ==> InExactlyOne(s.log, p))
    && (forall k :: 0 <= k < |s.log| && s.log[k].m > 0 ==> s.log[k].at + s.log[k].m <= |Goal(cfg)|)
    && (inOrder ==> LogEnd(s.log) == |Goal(cfg)|)
  }

  /**
   A conversion that reports success has made the target read as the joined
   sources, and has dealt with every sector in exactly one pass, in either write
   mode; ordered passes end at the end of the disk.
   */
  lemma SuccessMeansCopied(cfg: Config, inOrder: bool, s: State, steps: seq<Step>)
    requires Init(cfg, s) && Run(cfg, inOrder, s, steps).Some?
    requires Run(cfg, inOrder, s, steps).value.ret == Finished
    ensures Complete(cfg, inOrder, Run(cfg, inOrder, s, steps).value)
  {
    hide Run, ConfigOk, Joined, Awake, AllHitsOk;
    RunInv(cfg, inOrder, s, steps);
    FinishedIsComplete(cfg, inOrder, Run(cfg, inOrder, s, steps).value);
  }

  lemma FinishedIsComplete(cfg: Config, inOrder: bool, r: State)
    requires Inv(cfg, inOrder, r) && r.ret == Finished
    ensures Complete(cfg, inOrder, r)
  {
    hide Joined, StatusHolds, Order, Awake, ConfigOk, Hits, WorkerHits, InExactlyOne, LogEnd;
    forall p | 0 <= p < |Goal(cfg)|
      ensures View(cfg, r.target, p) == Goal(cfg)[p] && Hits(r.log, p) == 1 && InExactlyOne(r.log, p)
    {
      IdleFree(r, p);
      assert HitOk(r, p);
      OneHit(r.log, p);
    }
    forall p | p >= |Goal(cfg)|
      ensures Hits(r.log, p) == 0
    {
      assert HitOk(r, p);
    }
    forall k | 0 <= k < |r.log| && r.log[k].m > 0
      ensures r.log[k].at + r.log[k].m <= |Goal(cfg)|
    {
      WithinHits(r.log, k);
    }
    if inOrder {
      OrderedEnd(r, |Goal(cfg)|);
    }
  }

  lemma IdleFree(s: State, p: int)
    requires forall i :: 0 <= i < |s.ws| ==> Idle(s.ws[i])
    ensures Free(s.ws, p)
  {
    forall i | 0 <= i < |s.ws|
      ensures !Holds(s.ws[i], p)
    {
      assert Idle(s.ws[i]);
    }
  }

  lemma WithinHits(log: seq<Pass>, k: nat)
    requires k < |log| && log[k].m > 0
    ensures Hits(log, log[k].at + log[k].m - 1) > 0
  {
    var p := log[k].at + log[k].m - 1;
    if Hits(log, p) == 0 {
      NoHit(log, p);
      assert InPass(log[k], p);
    }
  }

  /** Contiguous passes deal once with each sector before their end, and with no other. */
  lemma {:induction false} ContiguousHits(log: seq<Pass>, p: int)
    requires Contiguous(log)
    ensures Hits(log, p) == if 0 <= p < LogEnd(log) then 1 else 0
  {
    if log != [] {
      var last, front := |log| - 1, log[..|log| - 1];
      assert log[last].at == LogEnd(log[..last]);
      forall k | 0 <= k < |front|
        ensures front[k].at == LogEnd(front[..k])
      {
        assert front[..k] == log[..k];
      }
      ContiguousHits(front, p);
    }
  }

  lemma OrderedEnd(s: State, n: nat)
    requires Order(s)
    requires forall p :: 0 <= p < n ==> Hits(s.log, p) == 1
    requires forall p :: p >= n ==> Hits(s.log, p) == 0
    ensures LogEnd(s.log) == n
  {
    hide Hits, LogEnd;
    ContiguousHits(s.log, n);
    ContiguousHits(s.log, LogEnd(s.log));
  }

  /** When the last worker has left, the outcome is decided, and it is success unless some step failed. */
  lemma EndIsDecided(cfg: Config, inOrder: bool, s: State, steps: seq<Step>)
    requires Init(cfg, s) && Run(cfg, inOrder, s, steps).Some? && s.ws != []
    requires forall i :: 0 <= i < |s.ws| && i < |Run(cfg, inOrder, s, steps).value.ws| ==>
      Run(cfg, inOrder, s, steps).value.ws[i].pc == Done
    requires forall k :: 0 <= k < |steps| ==> !Faulty(steps[k])
    ensures Run(cfg, inOrder, s, steps).value.ret == Finished
  {
    hide Joined, StatusHolds, Order, ConfigOk, Content, Disjoint, LockOk;
    RunInv(cfg, inOrder, s, steps);
    var r := Run(cfg, inOrder, s, steps).value;
    assert Active(r.ws) == {};
    assert r.ws[0].pc == Done;
  }

  /** Without -W the target is written strictly from front to back, also in a run that fails. */
  lemma WritesInOrder(cfg: Config, s: State, steps: seq<Step>)
    requires Init(cfg, s) && Run(cfg, true, s, steps).Some?
    ensures var r := Run(cfg, true, s, steps).value;
      && (forall k :: 0 < k < |r.log| ==> r.log[k].at == r.log[k - 1].at + r.log[k - 1].m)
      && (r.log != [] ==> r.log[0].at == 0)
      && (forall i, j :: 0 <= i < j < |r.ws| ==> r.ws[i].pc != Writing || r.ws[j].pc != Writing)
  {
    hide Joined, Base, Content, ConfigOk;
    RunInv(cfg, true, s, steps);
    var r := Run(cfg, true, s, steps).value;
    forall k | 0 < k < |r.log|
      ensures r.log[k].at == r.log[k - 1].at + r.log[k - 1].m
    {
      var before := r.log[..k];
      assert before[|before| - 1] == r.log[k - 1];
    }
  }

  /** Nobody waits in vain: behind every parked worker there is one at a lower sector that can go on. */
  lemma {:induction false} ParkedHasRunner(cfg: Config, s: State, i: nat) returns (j: nat)
    requires Base(cfg, s) && Order(s) && i < |s.ws| && s.ws[i].pc == Parked
    ensures j < |s.ws| && Busy(s.ws[j]) && s.ws[j].pc != Parked && s.ws[j].sector < s.ws[i].sector
    decreases s.ws[i].sector
  {
    hide Joined, StatusHolds, ConfigOk, BufferTrue, Active, LockOk, Contiguous;
    assert Awaited(s.ws, s.ws[i].sector);
    j :| 0 <= j < |s.ws| && Busy(s.ws[j]) && End(s.ws[j]) == s.ws[i].sector;
    assert WorkerOk(cfg, s, s.ws[j]);
    if s.ws[j].pc == Parked {
      j := ParkedHasRunner(cfg, s, j);
    }
  }

  /** The worker that finishes a range lets the one parked behind it go on in the same step. */
  lemma FinishWakes(cfg: Config, s: State, i: nat, j: nat)
    requires Base(cfg, s) && Order(s) && i < |s.ws| && j < |s.ws| && s.ws[i].pc == Finishing
    requires s.ws[j].pc == Parked && s.ws[j].sector == End(s.ws[i])
    ensures Apply(cfg, true, s, Finish(i)).ws[j].pc == CanWrite
  {
    hide Joined, StatusHolds, ConfigOk, BufferTrue, Active, LockOk, Contiguous, Wake, Waiter;
    WakeIs(cfg, s, s.ws[i := s.ws[i].(pc := AtLoop)], i, End(s.ws[i]));
  }

  /** A worker that is neither parked nor kept out by the lock has a step to take that is no fault. */
  lemma CanGoOn(cfg: Config, s: State, i: nat) returns (step: Step)
    requires Base(cfg, s) && i < |s.ws| && s.ws[i].pc != Done && s.ws[i].pc != Parked
    requires s.ws[i].pc == AtLoop ==> s.lock == None
    ensures Enabled(cfg, s, step) && step.i == i && !Faulty(step)
  {
    hide Joined, Active, Disjoint, WritePass;
    var w := s.ws[i];
    assert WorkerOk(cfg, s, w);
    match w.pc {
      case Unborn => step := Begin(i);
      case AtLoop => step := Lock(i);
      case Locked => step := Claim(i, 1, BlkData, 0);
      case Reading =>
        var buf := Goal(cfg)[w.sector..End(w)];
        step := Read(i, true, buf);
      case Checking => step := Check(i);
      case CanWrite => step := BeginWrite(i);
      case Finishing => step := Finish(i);
      case Writing =>
        if w.done == w.n {
          step := EndWrite(i);
        } else {
          var t1, m := SomePass(cfg, s.target, w.sector + w.done, w.buf[w.done..], w.status);
          step := WriteSome(i, m, t1);
        }
    }
  }

  lemma SomePass(cfg: Config, t: Target, at: nat, buf: seq<Sector>, status: Status) returns (t1: Target, m: nat)
    requires ConfigOk(cfg) && buf != [] && at + |buf| <= |t| == |Goal(cfg)| && StatusHolds(cfg, status, at, at + |buf|)
    ensures WritePass(cfg, t, at, buf, status, m, t1)
  {
    hide Joined, ShortZeroRun;
    assert StatusTrue(cfg, status, at);
    assert buf[..|buf|] == buf;
    m := |buf|;
    if status == BlkBackingFile {
      t1 := t;
    } else if status == BlkData && MustWrite(cfg, at, buf) {
      t1 := Put(t, at, buf);
    } else {
      if status == BlkData && !cfg.compressed {
        m := 1;
      }
      t1 := if cfg.hasZeroInit then t else Put(t, at, Zeros(m));
    }
  }

  /** Until every worker has left, some worker can take a step that is no fault: there is no deadlock. */
  lemma NeverStuck(cfg: Config, inOrder: bool, s: State, i: nat) returns (step: Step)
    requires Inv(cfg, inOrder, s) && i < |s.ws| && s.ws[i].pc != Done
    ensures Enabled(cfg, s, step) && !Faulty(step)
  {
    hide Joined, Active, Disjoint, Content, Order, Enabled, StatusHolds, WorkerOk, ConfigOk;
    if s.ws[i].pc == AtLoop && s.lock.Some? {
      step := CanGoOn(cfg, s, s.lock.value);
    } else if s.ws[i].pc == Parked {
      var j := ParkedHasRunner(cfg, s, i);
      step := CanGoOn(cfg, s, j);
    } else {
      step := CanGoOn(cfg, s, i);
    }
  }

  /** How much a worker can still do before it needs a new range. */
  function Rank(w: Worker): nat {
    match w.pc
    case Done => 0
    case Locked => 1
    case AtLoop => 2
    case Unborn => 3
    case Finishing => 3
    case Writing => if w.done <= w.n then 4 + w.n - w.done else 4
    case CanWrite => 5 + w.n
    case Parked => 6 + w.n
    case Checking => 7 + w.n
    case Reading => 8 + w.n
  }

  function RankSum(ws: seq<Worker>): nat {
    if ws == [] then 0 else Rank(ws[0]) + RankSum(ws[1..])
  }

  function Measure(cfg: Config, s: State): int {
    12 * (|Goal(cfg)| - s.sectorNum) + RankSum(s.ws)
  }

  lemma {:induction false} RankUpdate(ws: seq<Worker>, i: nat, w: Worker)
    requires i < |ws|
    ensures RankSum(ws[i := w]) == RankSum(ws) - Rank(ws[i]) + Rank(w)
  {
    hide Rank;
    var ws1 := ws[i := w];
    if i == 0 {
      assert ws1[1..] == ws[1..];
    } else {
      assert ws1[1..] == ws[1..][i - 1 := w];
      RankUpdate(ws[1..], i - 1, w);
    }
  }

  lemma StepShrinks(cfg: Config, inOrder: bool, s: State, step: Step)
    requires Base(cfg, s) && Enabled(cfg, s, step)
    ensures Measure(cfg, Apply(cfg, inOrder, s, step)) < Measure(cfg, s)
  {
    hide Joined, Active, Disjoint, LockOk, StatusHolds, BufferTrue, ConfigOk, WritePass, RankSum;
    var i, w := step.i, s.ws[step.i];
    var s1 := Apply(cfg, inOrder, s, step);
    assert WorkerOk(cfg, s, w);
    if step.Finish? {
      FinishShrinks(cfg, inOrder, s, i);
    } else {
      RankUpdate(s.ws, i, s1.ws[i]);
      if step.Claim? {
        ClaimStatus(cfg, s, step.n, step.status, step.next);
      } else if step.WriteSome? {
        PassLength(cfg, s, w, step.m, step.target);
      }
    }
  }

  lemma FinishShrinks(cfg: Config, inOrder: bool, s: State, i: nat)
    requires Base(cfg, s) && i < |s.ws| && s.ws[i].pc == Finishing
    ensures Measure(cfg, Apply(cfg, inOrder, s, Finish(i))) < Measure(cfg, s)
  {
    hide Joined, Active, Disjoint, LockOk, StatusHolds, BufferTrue, ConfigOk, RankSum;
    var w := s.ws[i].(pc := AtLoop);
    var ws := s.ws[i := w];
    RankUpdate(s.ws, i, w);
    var j := Waiter(ws, End(s.ws[i]), 0);
    if inOrder && j.Some? {
      RankUpdate(ws, j.value, ws[j.value].(pc := CanWrite));
    }
  }

  /** Every run is finite: its length is bounded by the size of the sources and the number of workers. */
  lemma {:induction false} RunsEnd(cfg: Config, inOrder: bool, s: State, steps: seq<Step>)
    requires Init(cfg, s) && Run(cfg, inOrder, s, steps).Some?
    ensures |steps| <= 12 * |Goal(cfg)| + 3 * |s.ws|
  {
    hide Joined, Run, ConfigOk;
    RunShrinks(cfg, inOrder, s, steps);
    RunInv(cfg, inOrder, s, steps);
    UnbornRank(s.ws);
  }

  lemma {:induction false} RunShrinks(cfg: Config, inOrder: bool, s: State, steps: seq<Step>)
    requires Init(cfg, s) && Run(cfg, inOrder, s, steps).Some?
    ensures |steps| + Measure(cfg, Run(cfg, inOrder, s, steps).value) <= Measure(cfg, s)
    decreases |steps|
  {
    hide Base, Content, Order, Awake, Enabled, Apply, ConfigOk, Measure;
    if steps != [] {
      var front, last := steps[..|steps| - 1], steps[|steps| - 1];
      RunShrinks(cfg, inOrder, s, front);
      RunInv(cfg, inOrder, s, front);
      StepShrinks(cfg, inOrder, Run(cfg, inOrder, s, front).value, last);
    }
  }

  lemma {:induction false} UnbornRank(ws: seq<Worker>)
    requires forall i :: 0 <= i < |ws| ==> ws[i].pc == Unborn
    ensures RankSum(ws) == 3 * |ws|
  {
    if ws != [] {
      UnbornRank(ws[1..]);
    }
  }

  /** While nothing has failed, every busy worker is at or beyond the write position. */
  lemma {:induction false} BusyAbove(cfg: Config, s: State, i: nat)
    requires Base(cfg, s) && Order(s) && s.ret == InProgress && i < |s.ws| && Busy(s.ws[i])
    ensures s.wrOffs <= s.ws[i].sector
    decreases s.ws[i].sector
  {
    hide Joined, StatusHolds, ConfigOk, BufferTrue, Active, LockOk, Contiguous;
    assert TurnOk(s, s.ws[i]);
    if s.ws[i].sector != s.wrOffs {
      var j :| 0 <= j < |s.ws| && Busy(s.ws[j]) && End(s.ws[j]) == s.ws[i].sector;
      assert WorkerOk(cfg, s, s.ws[j]);
      BusyAbove(cfg, s, j);
    }
  }

  /** Every claimed sector at or beyond the write position is held by a worker. */
  lemma {:induction false} HeldAbove(cfg: Config, s: State, at: nat, p: nat) returns (i: nat)
    requires Base(cfg, s) && Order(s) && s.ret == InProgress && Awaited(s.ws, at) && s.wrOffs <= p < at
    ensures i < |s.ws| && Holds(s.ws[i], p)
    decreases at
  {
    hide Joined, StatusHolds, ConfigOk, BufferTrue, Active, LockOk, Contiguous;
    i :| 0 <= i < |s.ws| && Busy(s.ws[i]) && End(s.ws[i]) == at;
    assert WorkerOk(cfg, s, s.ws[i]) && TurnOk(s, s.ws[i]);
    if p < s.ws[i].sector {
      i := HeldAbove(cfg, s, s.ws[i].sector, p);
    }
  }

  /**
   While an ordered conversion is under way the claimed sectors fall into a
   finished prefix, which ends at the write position and reads as the sources,
   and the ranges of the workers, of which each sector lies in exactly one.
   */
  lemma ClaimsPartition(cfg: Config, s: State, steps: seq<Step>, p: nat)
    requires Init(cfg, s) && Run(cfg, true, s, steps).Some?
    requires Run(cfg, true, s, steps).value.ret == InProgress && p < Run(cfg, true, s, steps).value.sectorNum
    ensures var r := Run(cfg, true, s, steps).value;
      && |r.target| == |cfg.under| == |Goal(cfg)| && r.sectorNum <= |Goal(cfg)|
      && (p < r.wrOffs <==> Free(r.ws, p))
      && (p < r.wrOffs ==> View(cfg, r.target, p) == Goal(cfg)[p])
      && (forall i, j :: 0 <= i < |r.ws| && 0 <= j < |r.ws| && Holds(r.ws[i], p) && Holds(r.ws[j], p) ==> i == j)
  {
    hide Joined, StatusHolds, ConfigOk, BufferTrue, Active, LockOk, Contiguous, Run, TurnOk;
    RunInv(cfg, true, s, steps);
    var r := Run(cfg, true, s, steps).value;
    if p < r.wrOffs {
      forall i | 0 <= i < |r.ws|
        ensures !Holds(r.ws[i], p)
      {
        if Busy(r.ws[i]) {
          BusyAbove(cfg, r, i);
        }
      }
    } else {
      var i := HeldAbove(cfg, r, r.sectorNum, p);
      assert Holds(r.ws[i], p);
    }
    forall i, j | 0 <= i < |r.ws| && 0 <= j < |r.ws| && Holds(r.ws[i], p) && Holds(r.ws[j], p)
      ensures i == j
    {
      assert Apart(r.ws[i], r.ws[j]) || i == j;
    }
  }
}
