/** The writes of `qemu-img convert` without -W: one after the other, and no worker waits for nobody. */
module ConvertWorkersOrder {
  import opened ConvertContent
  import opened ConvertWorkers
  import opened ConvertWorkersInvariant

  /** Where the next write has to start. */
  function LogEnd(log: seq<Pass>): nat {
    if log == [] then 0 else log[|log| - 1].at + log[|log| - 1].m
  }

  /** Each pass starts where the one before it ended, the first one at sector 0. */
  predicate Contiguous(log: seq<Pass>) {
    forall k :: 0 <= k < |log| ==> log[k].at == LogEnd(log[..k])
  }

  /** A busy worker holds the range that ends at `at`. */
  predicate Awaited(ws: seq<Worker>, at: nat) {
    exists j :: 0 <= j < |ws| && Busy(ws[j]) && End(ws[j]) == at
  }

  predicate AtTurn(w: Worker) {
    w.pc.CanWrite? || w.pc.Writing? || w.pc.Finishing?
  }

  /** A parked worker waits for a range that somebody still holds. */
  predicate ParkedAwaits(ws: seq<Worker>) {
    forall i :: 0 <= i < |ws| && ws[i].pc == Parked ==> Awaited(ws, ws[i].sector)
  }

  predicate WriterOk(s: State, w: Worker) {
    w.pc == Writing ==> w.sector + w.done == LogEnd(s.log)
  }

  /** While nothing has failed the write position belongs to the lowest range that is not finished. */
  predicate TurnOk(s: State, w: Worker) {
    && (AtTurn(w) ==> w.sector == s.wrOffs)
    && (w.pc == Finishing ==> End(w) == LogEnd(s.log))
    && (Busy(w) ==> w.sector == s.wrOffs || Awaited(s.ws, w.sector))
  }

  predicate NoWriter(ws: seq<Worker>) {
    forall i :: 0 <= i < |ws| ==> ws[i].pc != Writing && ws[i].pc != Finishing
  }

  predicate OneWriter(ws: seq<Worker>) {
    forall i, j :: 0 <= i < j < |ws| ==> ws[i].pc != Writing || ws[j].pc != Writing
  }

  predicate Order(s: State) {
    && Contiguous(s.log) && ParkedAwaits(s.ws) && OneWriter(s.ws)
    && (forall i :: 0 <= i < |s.ws| ==> WriterOk(s, s.ws[i]))
    && (s.ret == InProgress ==>
          && (forall i :: 0 <= i < |s.ws| ==> TurnOk(s, s.ws[i]))
          && (s.sectorNum == s.wrOffs || Awaited(s.ws, s.sectorNum))
          && (NoWriter(s.ws) ==> LogEnd(s.log) == s.wrOffs))
  }

  lemma AwaitedSet(ws: seq<Worker>, i: nat, w: Worker, at: nat)
    requires i < |ws| && Awaited(ws, at)
    requires (Busy(w) && End(w) == End(ws[i])) || !Busy(ws[i])
    ensures Awaited(ws[i := w], at)
  {
    var j :| 0 <= j < |ws| && Busy(ws[j]) && End(ws[j]) == at;
    var ws1 := ws[i := w];
    assert Busy(ws1[j]) && End(ws1[j]) == at;
  }

  lemma AwaitedAll(ws: seq<Worker>, i: nat, w: Worker)
    requires i < |ws| && ((Busy(w) && End(w) == End(ws[i])) || !Busy(ws[i]))
    ensures forall at: nat :: Awaited(ws, at) ==> Awaited(ws[i := w], at)
  {
    forall at: nat | Awaited(ws, at)
      ensures Awaited(ws[i := w], at)
    {
      AwaitedSet(ws, i, w, at);
    }
  }

  /** Two workers whose turn it is are the same worker. */
  lemma OneAtTurn(cfg: Config, s: State, i: nat, j: nat)
    requires Base(cfg, s) && i < |s.ws| && j < |s.ws| && Busy(s.ws[i]) && Busy(s.ws[j])
    requires s.ws[i].sector == s.ws[j].sector
    ensures i == j
  {
    hide ConfigOk, StatusHolds, BufferTrue, Joined, Active;
    assert WorkerOk(cfg, s, s.ws[i]) && WorkerOk(cfg, s, s.ws[j]);
  }

  /** Steps in which one worker keeps its range, or still has none, and neither log nor position moves. */
  lemma OrderLocal(cfg: Config, s: State, i: nat, w: Worker, s1: State)
    requires Base(cfg, s) && Order(s) && i < |s.ws|
    requires s1.ws == s.ws[i := w] && s1.wrOffs == s.wrOffs && s1.log == s.log && s1.sectorNum == s.sectorNum
    requires s1.ret == InProgress ==> s.ret == InProgress
    requires Busy(w) == Busy(s.ws[i]) && (Busy(w) ==> w.sector == s.ws[i].sector && w.n == s.ws[i].n)
    requires w.pc == Parked ==> Awaited(s.ws, w.sector)
    requires w.pc == Writing ==> s.ws[i].pc == Writing && w == s.ws[i]
    requires s1.ret == InProgress && AtTurn(w) ==> w.sector == s.wrOffs
    requires s1.ret == InProgress ==> (w.pc == Finishing ==> End(w) == LogEnd(s.log))
    requires s1.ret == InProgress && s.ws[i].pc.Writing? ==> w.pc.Writing? || w.pc.Finishing?
    requires s.ws[i].pc != Finishing
    ensures Order(s1)
  {
    hide ConfigOk, StatusHolds, BufferTrue, Joined, Active, LockOk, Awaited, Contiguous, LogEnd, Base;
    AwaitedAll(s.ws, i, w);
    forall j | 0 <= j < |s1.ws|
      ensures WriterOk(s1, s1.ws[j]) && (s1.ret == InProgress ==> TurnOk(s1, s1.ws[j]))
    {
      assert WriterOk(s, s.ws[j]) && (s.ret == InProgress ==> TurnOk(s, s.ws[j]));
    }
    if s1.ret == InProgress && NoWriter(s1.ws) {
      forall j | 0 <= j < |s.ws|
        ensures s.ws[j].pc != Writing && s.ws[j].pc != Finishing
      {
        assert s1.ws[j].pc != Writing && s1.ws[j].pc != Finishing;
      }
    }
  }

  lemma OrderClaim(cfg: Config, s: State, i: nat, w: Worker, s1: State)
    requires Base(cfg, s) && Order(s) && i < |s.ws| && !Busy(s.ws[i])
    requires s1.ws == s.ws[i := w] && s1.wrOffs == s.wrOffs && s1.log == s.log && s1.ret == s.ret
    requires w.pc == Reading && w.sector == s.sectorNum && End(w) == s1.sectorNum
    ensures Order(s1)
  {
    hide ConfigOk, StatusHolds, BufferTrue, Joined, Active, LockOk, Awaited, Contiguous, LogEnd, Base;
    AwaitedAll(s.ws, i, w);
    assert Awaited(s1.ws, s1.sectorNum) by {
      WitnessAwaited(s1.ws, i);
    }
    forall j | 0 <= j < |s1.ws|
      ensures WriterOk(s1, s1.ws[j]) && (s1.ret == InProgress ==> TurnOk(s1, s1.ws[j]))
    {
      assert WriterOk(s, s.ws[j]) && (s.ret == InProgress ==> TurnOk(s, s.ws[j]));
    }
    if NoWriter(s1.ws) {
      forall j | 0 <= j < |s.ws|
        ensures s.ws[j].pc != Writing && s.ws[j].pc != Finishing
      {
        assert s1.ws[j].pc != Writing && s1.ws[j].pc != Finishing;
      }
    }
  }

  lemma WitnessAwaited(ws: seq<Worker>, i: nat)
    requires i < |ws| && Busy(ws[i])
    ensures Awaited(ws, End(ws[i]))
  {
  }

  /** A worker whose turn it is finds nobody else writing, and the log ends at its range. */
  lemma TurnIsFree(cfg: Config, s: State, i: nat)
    requires Base(cfg, s) && Order(s) && i < |s.ws| && s.ws[i].pc == CanWrite && s.ret == InProgress
    ensures NoWriter(s.ws) && LogEnd(s.log) == s.ws[i].sector
  {
    hide ConfigOk, StatusHolds, BufferTrue, Joined, Active, LockOk, Awaited, Contiguous, LogEnd, Base;
    assert TurnOk(s, s.ws[i]);
    forall j | 0 <= j < |s.ws|
      ensures s.ws[j].pc != Writing && s.ws[j].pc != Finishing
    {
      assert TurnOk(s, s.ws[j]);
      if AtTurn(s.ws[j]) {
        OneAtTurn(cfg, s, i, j);
      }
    }
  }

  lemma OrderBegin(cfg: Config, s: State, i: nat, w: Worker, s1: State)
    requires Base(cfg, s) && Order(s) && i < |s.ws| && s.ws[i].pc == CanWrite && s.ret == InProgress
    requires w == s.ws[i].(pc := Writing, done := 0) && s1 == Set(s, i, w)
    ensures Order(s1)
  {
    hide ConfigOk, StatusHolds, BufferTrue, Joined, Active, LockOk, Awaited, Contiguous, LogEnd, Base;
    TurnIsFree(cfg, s, i);
    AwaitedAll(s.ws, i, w);
    forall j | 0 <= j < |s1.ws|
      ensures WriterOk(s1, s1.ws[j]) && TurnOk(s1, s1.ws[j])
    {
      assert WriterOk(s, s.ws[j]) && TurnOk(s, s.ws[j]);
    }
    assert s1.ws[i].pc == Writing;
  }

  lemma LogGrows(log: seq<Pass>, p: Pass)
    requires Contiguous(log) && p.at == LogEnd(log)
    ensures Contiguous(log + [p]) && LogEnd(log + [p]) == p.at + p.m
  {
    var log1 := log + [p];
    forall k | 0 <= k < |log1|
      ensures log1[k].at == LogEnd(log1[..k])
    {
      assert log1[..k] == log[..k];
      if k == |log| {
        assert log[..k] == log;
      }
    }
  }

  lemma OrderPass(cfg: Config, s: State, i: nat, w: Worker, m: nat, s1: State)
    requires Base(cfg, s) && Order(s) && i < |s.ws| && s.ws[i].pc == Writing
    requires w == s.ws[i].(done := s.ws[i].done + m)
    requires s1.ws == s.ws[i := w] && s1.wrOffs == s.wrOffs && s1.sectorNum == s.sectorNum && s1.ret == s.ret
    requires s1.log == s.log + [Pass(s.ws[i].sector + s.ws[i].done, m)]
    ensures Order(s1)
  {
    hide ConfigOk, StatusHolds, BufferTrue, Joined, Active, LockOk, Awaited, Contiguous, LogEnd, Base;
    assert WriterOk(s, s.ws[i]);
    LogGrows(s.log, Pass(s.ws[i].sector + s.ws[i].done, m));
    AwaitedAll(s.ws, i, w);
    forall j | 0 <= j < |s1.ws|
      ensures WriterOk(s1, s1.ws[j])
    {
      assert j != i ==> s.ws[j].pc != Writing;
    }
    if s.ret == InProgress {
      assert TurnOk(s, s.ws[i]);
      forall j | 0 <= j < |s1.ws|
        ensures TurnOk(s1, s1.ws[j])
      {
        assert TurnOk(s, s.ws[j]);
        if AtTurn(s.ws[j]) {
          OneAtTurn(cfg, s, i, j);
        }
      }
    }
    assert s1.ws[i].pc == Writing;
  }

  /** What waking does: the one worker parked at the new position goes on, all others stay as they are. */
  lemma WakeIs(cfg: Config, s: State, ws: seq<Worker>, i: nat, at: nat)
    requires Base(cfg, s) && i < |s.ws| && ws == s.ws[i := s.ws[i].(pc := AtLoop)]
    ensures var r := Wake(ws, at);
      && |r| == |ws|
      && (forall j :: 0 <= j < |ws| && !(ws[j].pc == Parked && ws[j].sector == at) ==> r[j] == ws[j])
      && (forall j :: 0 <= j < |ws| && ws[j].pc == Parked && ws[j].sector == at ==> r[j] == ws[j].(pc := CanWrite))
  {
    hide ConfigOk, StatusHolds, BufferTrue, Joined, Active, LockOk, Base;
    var r, first := Wake(ws, at), Waiter(ws, at, 0);
    forall j | 0 <= j < |ws| && ws[j].pc == Parked && ws[j].sector == at
      ensures r[j] == ws[j].(pc := CanWrite)
    {
      OneAtTurn(cfg, s, j, first.value);
    }
  }

  lemma AwaitedAfter(s: State, i: nat, r: seq<Worker>, at: nat)
    requires i < |s.ws| == |r| && Awaited(s.ws, at) && End(s.ws[i]) != at
    requires forall j :: 0 <= j < |r| && j != i && Busy(s.ws[j]) ==> Busy(r[j]) && End(r[j]) == End(s.ws[j])
    ensures Awaited(r, at)
  {
    var j :| 0 <= j < |s.ws| && Busy(s.ws[j]) && End(s.ws[j]) == at;
    assert Busy(r[j]) && End(r[j]) == at;
  }

  lemma OrderFinish(cfg: Config, s: State, i: nat)
    requires Base(cfg, s) && Order(s) && i < |s.ws| && s.ws[i].pc == Finishing
    ensures Order(Apply(cfg, true, s, Finish(i)))
  {
    hide ConfigOk, StatusHolds, BufferTrue, Joined, Active, LockOk, Awaited, Contiguous, LogEnd, Wake, Waiter;
    var s1 := Apply(cfg, true, s, Finish(i));
    var at := End(s.ws[i]);
    WakeIs(cfg, s, s.ws[i := s.ws[i].(pc := AtLoop)], i, at);
    forall j | 0 <= j < |s1.ws|
      ensures WriterOk(s1, s1.ws[j])
      ensures s1.ws[j].pc == Parked ==> Awaited(s1.ws, s1.ws[j].sector)
    {
      assert WriterOk(s, s.ws[j]);
      if s1.ws[j].pc == Parked {
        AwaitedAfter(s, i, s1.ws, s.ws[j].sector);
      }
    }
    if s.ret == InProgress {
      TurnPasses(cfg, s, i, s1);
    }
  }

  /** When the worker at the write position is done, the turn passes to the range behind it. */
  lemma TurnPasses(cfg: Config, s: State, i: nat, s1: State)
    requires Base(cfg, s) && Order(s) && i < |s.ws| && s.ws[i].pc == Finishing && s.ret == InProgress
    requires s1 == Apply(cfg, true, s, Finish(i))
    ensures forall j :: 0 <= j < |s1.ws| ==> TurnOk(s1, s1.ws[j])
    ensures s1.sectorNum == s1.wrOffs || Awaited(s1.ws, s1.sectorNum)
    ensures LogEnd(s1.log) == s1.wrOffs
  {
    hide ConfigOk, StatusHolds, BufferTrue, Joined, Active, LockOk, Awaited, Contiguous, LogEnd, Wake, Waiter;
    var at := End(s.ws[i]);
    WakeIs(cfg, s, s.ws[i := s.ws[i].(pc := AtLoop)], i, at);
    assert TurnOk(s, s.ws[i]) && WorkerOk(cfg, s, s.ws[i]);
    forall j | 0 <= j < |s1.ws|
      ensures TurnOk(s1, s1.ws[j])
    {
      assert TurnOk(s, s.ws[j]);
      if j != i && Busy(s.ws[j]) {
        if s.ws[j].sector == s.wrOffs {
          OneAtTurn(cfg, s, i, j);
        } else if s.ws[j].sector != at {
          AwaitedAfter(s, i, s1.ws, s.ws[j].sector);
        }
      }
    }
    if s.sectorNum != at && s.sectorNum != s.wrOffs {
      AwaitedAfter(s, i, s1.ws, s.sectorNum);
    }
  }

  lemma {:induction false} OrderStep(cfg: Config, s: State, step: Step)
    requires Base(cfg, s) && Order(s) && Enabled(cfg, s, step)
    ensures Order(Apply(cfg, true, s, step))
  {
    hide ConfigOk, StatusHolds, BufferTrue, Joined, Active, LockOk, Awaited, Contiguous, LogEnd, Wake, Waiter,
         WritePass, Disjoint;
    var i, w, s1 := step.i, s.ws[step.i], Apply(cfg, true, s, step);
    match step {
      case Claim(_, n, status, next) => OrderClaim(cfg, s, i, s1.ws[i], s1);
      case WriteSome(_, m, t1) => OrderPass(cfg, s, i, s1.ws[i], m, s1);
      case Finish(_) => OrderFinish(cfg, s, i);
      case BeginWrite(_) =>
        if s.ret == InProgress {
          OrderBegin(cfg, s, i, s1.ws[i], s1);
        } else {
          OrderLocal(cfg, s, i, s1.ws[i], s1);
        }
      case _ => OrderMoves(cfg, s, step);
    }
  }

  lemma OrderMoves(cfg: Config, s: State, step: Step)
    requires Base(cfg, s) && Order(s) && Enabled(cfg, s, step)
    requires !step.Claim? && !step.WriteSome? && !step.Finish? && !step.BeginWrite?
    ensures Order(Apply(cfg, true, s, step))
  {
    hide ConfigOk, StatusHolds, BufferTrue, Joined, Active, LockOk, Awaited, Contiguous, LogEnd, WritePass, Disjoint;
    var i, w, s1 := step.i, s.ws[step.i], Apply(cfg, true, s, step);
    assert WriterOk(s, w) && WorkerOk(cfg, s, w) && (s.ret == InProgress ==> TurnOk(s, w));
    OrderLocal(cfg, s, i, s1.ws[i], s1);
  }
}
