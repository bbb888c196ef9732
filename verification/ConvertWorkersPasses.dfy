/** Every sector is dealt with by one pass of the write loop, and in a run that succeeds by exactly one. */
module ConvertWorkersPasses {
  import opened ConvertContent
  import opened ConvertWorkers
  import opened ConvertWorkersInvariant

  predicate InPass(pass: Pass, p: int) {
    pass.at <= p < pass.at + pass.m
  }

  /** How many passes dealt with sector `p`. */
  function Hits(log: seq<Pass>, p: int): nat {
    if log == [] then 0
    else Hits(log[..|log| - 1], p) + if InPass(log[|log| - 1], p) then 1 else 0
  }

  /** What the worker that holds sector `p` has done about it. */
  predicate WorkerHits(s: State, w: Worker, p: int) {
    match w.pc
    case Writing => Hits(s.log, p) == if p < w.sector + w.done then 1 else 0
    case Finishing => s.ret != Failed ==> Hits(s.log, p) == 1
    case _ => Hits(s.log, p) == 0
  }

  /** No sector is dealt with twice, none before it is claimed, and none that is given back was forgotten. */
  predicate HitOk(s: State, p: int) {
    && Hits(s.log, p) <= 1
    && (p >= s.sectorNum ==> Hits(s.log, p) == 0)
    && (forall i :: 0 <= i < |s.ws| && Holds(s.ws[i], p) ==> WorkerHits(s, s.ws[i], p))
    && (0 <= p < s.sectorNum && Free(s.ws, p) && s.ret != Failed ==> Hits(s.log, p) == 1)
  }

  lemma HitsPush(log: seq<Pass>, pass: Pass, p: int)
    ensures Hits(log + [pass], p) == Hits(log, p) + if InPass(pass, p) then 1 else 0
  {
    var log1 := log + [pass];
    assert log1[..|log1| - 1] == log;
  }

  /** Steps that neither write nor change a range: the worker may move on if what it has done stays what it must be. */
  lemma HitLocal(s: State, i: nat, w: Worker, s1: State, p: int)
    requires HitOk(s, p) && i < |s.ws| && s1.ws == s.ws[i := w] && s1.log == s.log && s1.sectorNum == s.sectorNum
    requires s.ret == Failed ==> s1.ret == Failed
    requires Busy(w) == Busy(s.ws[i]) && (Busy(w) ==> w.sector == s.ws[i].sector && w.n == s.ws[i].n)
    requires Holds(w, p) ==> WorkerHits(s1, w, p)
    ensures HitOk(s1, p)
  {
    hide Hits, Free;
    FreeSame(s.ws, i, w, p);
    forall j | 0 <= j < |s1.ws| && Holds(s1.ws[j], p)
      ensures WorkerHits(s1, s1.ws[j], p)
    {
      if j != i {
        assert WorkerHits(s, s.ws[j], p);
      }
    }
  }

  /** A claim takes sectors nobody has dealt with. */
  lemma HitClaim(cfg: Config, s: State, i: nat, w: Worker, s1: State, p: int)
    requires Base(cfg, s) && HitOk(s, p) && i < |s.ws| && !Busy(s.ws[i])
    requires s1.ws == s.ws[i := w] && s1.log == s.log && s1.ret == s.ret
    requires w.pc == Reading && w.sector == s.sectorNum && End(w) == s1.sectorNum
    ensures HitOk(s1, p)
  {
    hide Hits, Joined, StatusHolds, ConfigOk, BufferTrue, Disjoint, Active, LockOk;
    forall j | 0 <= j < |s1.ws| && Holds(s1.ws[j], p)
      ensures WorkerHits(s1, s1.ws[j], p)
    {
      if j != i {
        assert WorkerHits(s, s.ws[j], p);
      }
    }
    if Free(s1.ws, p) {
      assert !Holds(s1.ws[i], p);
      forall j | 0 <= j < |s.ws|
        ensures !Holds(s.ws[j], p)
      {
        assert !Holds(s1.ws[j], p);
      }
      assert Free(s.ws, p);
    }
  }

  /** A range given back has been dealt with, unless something failed. */
  lemma HitRelease(s: State, i: nat, w: Worker, s1: State, p: int)
    requires HitOk(s, p) && i < |s.ws| && s.ws[i].pc == Finishing && !Busy(w)
    requires s1.ws == s.ws[i := w] && s1.log == s.log && s1.ret == s.ret && s1.sectorNum == s.sectorNum
    ensures HitOk(s1, p)
  {
    hide Hits;
    forall j | 0 <= j < |s1.ws| && Holds(s1.ws[j], p)
      ensures WorkerHits(s1, s1.ws[j], p)
    {
      assert WorkerHits(s, s.ws[j], p);
    }
    if Free(s1.ws, p) {
      if Holds(s.ws[i], p) {
        assert WorkerHits(s, s.ws[i], p);
      } else {
        forall j | 0 <= j < |s.ws|
          ensures !Holds(s.ws[j], p)
        {
          assert !Holds(s1.ws[j], p);
        }
        assert Free(s.ws, p);
      }
    }
  }

  /** A pass deals with sectors of its own worker's range that no pass has dealt with. */
  lemma HitPass(cfg: Config, s: State, i: nat, m: nat, t1: Target, p: int)
    requires Base(cfg, s) && HitOk(s, p) && i < |s.ws| && Enabled(cfg, s, WriteSome(i, m, t1))
    ensures HitOk(Apply(cfg, true, s, WriteSome(i, m, t1)), p)
    ensures Apply(cfg, false, s, WriteSome(i, m, t1)) == Apply(cfg, true, s, WriteSome(i, m, t1))
  {
    hide Hits, Joined, StatusHolds, ConfigOk, BufferTrue, Active, LockOk, WritePass, Free;
    var w, s1 := s.ws[i], Apply(cfg, true, s, WriteSome(i, m, t1));
    PassLength(cfg, s, w, m, t1);
    assert WorkerOk(cfg, s, w);
    var pass := Pass(w.sector + w.done, m);
    HitsPush(s.log, pass, p);
    FreeSame(s.ws, i, s1.ws[i], p);
    if InPass(pass, p) {
      assert Holds(s.ws[i], p) && WorkerHits(s, s.ws[i], p);
      NotFree(s.ws, i, p);
    }
    forall j | 0 <= j < |s1.ws| && Holds(s1.ws[j], p)
      ensures WorkerHits(s1, s1.ws[j], p)
    {
      assert WorkerHits(s, s.ws[j], p);
      if j != i {
        assert Apart(s.ws[i], s.ws[j]);
      }
    }
  }

  lemma NotFree(ws: seq<Worker>, i: nat, p: int)
    requires i < |ws| && Holds(ws[i], p)
    ensures !Free(ws, p)
  {
  }

  lemma HitFinish(cfg: Config, inOrder: bool, s: State, i: nat, p: int)
    requires Base(cfg, s) && HitOk(s, p) && i < |s.ws| && s.ws[i].pc == Finishing
    ensures HitOk(Apply(cfg, inOrder, s, Finish(i)), p)
  {
    hide Hits, Joined, StatusHolds, ConfigOk, BufferTrue, Active, LockOk, Free, HitOk;
    var w := s.ws[i].(pc := AtLoop);
    var mid := Set(s, i, w);
    HitRelease(s, i, w, mid, p);
    var s1 := Apply(cfg, inOrder, s, Finish(i));
    if inOrder {
      mid := mid.(wrOffs := s1.wrOffs);
      HitSame(Set(s, i, w), mid, p);
      var j := Waiter(mid.ws, End(s.ws[i]), 0);
      if j.Some? {
        WokenHits(mid, j.value, p);
        HitLocal(mid, j.value, mid.ws[j.value].(pc := CanWrite), s1, p);
      }
    }
  }

  lemma HitSame(s: State, s1: State, p: int)
    requires HitOk(s, p) && s1.ws == s.ws && s1.log == s.log && s1.sectorNum == s.sectorNum && s1.ret == s.ret
    ensures HitOk(s1, p)
  {
    hide Hits, Free;
    forall j | 0 <= j < |s1.ws| && Holds(s1.ws[j], p)
      ensures WorkerHits(s1, s1.ws[j], p)
    {
      assert WorkerHits(s, s.ws[j], p);
    }
  }

  lemma WokenHits(s: State, j: nat, p: int)
    requires HitOk(s, p) && j < |s.ws| && s.ws[j].pc == Parked
    ensures var w := s.ws[j].(pc := CanWrite); Holds(w, p) ==> WorkerHits(s, w, p)
  {
    hide Hits, Free;
    if Holds(s.ws[j], p) {
      assert WorkerHits(s, s.ws[j], p);
    }
  }

  lemma {:induction false} HitStep(cfg: Config, inOrder: bool, s: State, step: Step, p: int)
    requires Base(cfg, s) && HitOk(s, p) && Enabled(cfg, s, step)
    ensures HitOk(Apply(cfg, inOrder, s, step), p)
  {
    hide Hits, Joined, StatusHolds, ConfigOk, BufferTrue, Active, LockOk, Free, HitOk, WritePass, Wake, Waiter,
         Disjoint;
    var i, s1 := step.i, Apply(cfg, inOrder, s, step);
    match step {
      case Claim(_, n, status, next) => HitClaim(cfg, s, i, s1.ws[i], s1, p);
      case WriteSome(_, m, t1) => HitPass(cfg, s, i, m, t1, p);
      case Finish(_) => HitFinish(cfg, inOrder, s, i, p);
      case _ => HitMoves(cfg, inOrder, s, step, p);
    }
  }

  lemma HitMoves(cfg: Config, inOrder: bool, s: State, step: Step, p: int)
    requires Base(cfg, s) && HitOk(s, p) && Enabled(cfg, s, step)
    requires !step.Claim? && !step.WriteSome? && !step.Finish?
    ensures HitOk(Apply(cfg, inOrder, s, step), p)
  {
    hide Hits, Joined, StatusHolds, ConfigOk, BufferTrue, Active, LockOk, Free, WritePass, Wake, Waiter, Disjoint;
    var i, w, s1 := step.i, s.ws[step.i], Apply(cfg, inOrder, s, step);
    assert WorkerOk(cfg, s, w);
    assert Busy(w) ==> s.ret != Finished;
    if Holds(w, p) {
      assert WorkerHits(s, w, p);
    }
    HitLocal(s, i, s1.ws[i], s1, p);
  }

  /** Sector `p` lies in one pass and in no other. */
  predicate InExactlyOne(log: seq<Pass>, p: int) {
    exists k :: 0 <= k < |log| && InPass(log[k], p) && forall j :: 0 <= j < |log| && InPass(log[j], p) ==> j == k
  }

  lemma {:induction false} NoHit(log: seq<Pass>, p: int)
    requires Hits(log, p) == 0
    ensures forall j :: 0 <= j < |log| ==> !InPass(log[j], p)
  {
    if log != [] {
      var front := log[..|log| - 1];
      NoHit(front, p);
      forall j | 0 <= j < |log|
        ensures !InPass(log[j], p)
      {
        if j < |log| - 1 {
          assert front[j] == log[j];
        }
      }
    }
  }

  lemma {:induction false} OneHit(log: seq<Pass>, p: int)
    requires Hits(log, p) == 1
    ensures InExactlyOne(log, p)
  {
    var last, front := |log| - 1, log[..|log| - 1];
    if InPass(log[last], p) {
      NoHit(front, p);
      forall j | 0 <= j < last
        ensures !InPass(log[j], p)
      {
        assert front[j] == log[j];
      }
    } else {
      OneHit(front, p);
      var k :| 0 <= k < |front| && InPass(front[k], p) &&
        forall j :: 0 <= j < |front| && InPass(front[j], p) ==> j == k;
      assert InPass(log[k], p);
      forall j | 0 <= j < |log| && InPass(log[j], p)
        ensures j == k
      {
        assert j < last && front[j] == log[j];
      }
    }
  }
}
