/**
 What the workers' buffers and the option -S 0 promise: no range that is read or
 filled with zeroes is longer than a buffer, and with -S 0 every sector of a
 target without a backing file is written, zeroes included.
 */
module ConvertWorkersSparse {
  import opened ImageBuffers
  import opened ConvertContent
  import opened ConvertWorkers
  import opened ConvertWorkersPasses
  import opened ConvertWorkersTheorems

  /** A range that needs a buffer fits into it, and with -S 0 no worker goes on to write with status ZERO. */
  predicate WorkerFits(cfg: Config, w: Worker) {
    Busy(w) ==>
      && (w.status == BlkData || (cfg.minSparse == 0 && w.status == BlkZero) ==> w.n <= cfg.bufSectors)
      && (cfg.minSparse == 0 && !w.pc.Reading? ==> w.status != BlkZero)
  }

  predicate Fits(cfg: Config, s: State) {
    forall i :: 0 <= i < |s.ws| ==> WorkerFits(cfg, s.ws[i])
  }

  /** With -S 0 a sector that was dealt with has been written, unless a backing file shows through. */
  predicate Filled(cfg: Config, s: State) {
    cfg.minSparse == 0 && !cfg.hasBacking && s.ret != Failed ==>
      forall p :: 0 <= p < |s.target| && Hits(s.log, p) > 0 ==> s.target[p].Some?
  }

  lemma FitsSet(cfg: Config, s: State, i: nat, w: Worker, s1: State)
    requires Fits(cfg, s) && i < |s.ws| && s1.ws == s.ws[i := w] && WorkerFits(cfg, w)
    ensures Fits(cfg, s1)
  {
  }

  lemma FitsWake(cfg: Config, s: State, at: nat)
    requires Fits(cfg, s)
    ensures Fits(cfg, s.(ws := Wake(s.ws, at)))
  {
    hide Waiter;
  }

  lemma {:induction false} FitsStep(cfg: Config, inOrder: bool, s: State, step: Step)
    requires ConfigOk(cfg) && Fits(cfg, s) && Enabled(cfg, s, step)
    ensures Fits(cfg, Apply(cfg, inOrder, s, step))
  {
    hide ConfigOk, StatusHolds, BufferTrue, WritePass, Untouched, Wake, Fits, Joined;
    var s1, i := Apply(cfg, inOrder, s, step), step.i;
    assert WorkerFits(cfg, s.ws[i]) by {
      FitsAt(cfg, s, i);
    }
    if step.Finish? {
      var s0 := s.(ws := s.ws[i := s.ws[i].(pc := AtLoop)]);
      FitsSet(cfg, s, i, s0.ws[i], s0);
      FitsWake(cfg, s0, End(s.ws[i]));
      SameFits(cfg, if inOrder then s0.(ws := Wake(s0.ws, End(s.ws[i]))) else s0, s1);
    } else {
      FitsSet(cfg, s, i, s1.ws[i], s1);
    }
  }

  lemma FitsAt(cfg: Config, s: State, i: nat)
    requires Fits(cfg, s) && i < |s.ws|
    ensures WorkerFits(cfg, s.ws[i])
  {
  }

  lemma SameFits(cfg: Config, s: State, s1: State)
    requires Fits(cfg, s) && s1.ws == s.ws
    ensures Fits(cfg, s1)
  {
  }

  /** A pass with -S 0 writes every sector it deals with, and takes nothing away. */
  lemma PassFills(cfg: Config, t: Target, at: nat, buf: seq<Sector>, status: Status, m: int, t1: Target)
    requires cfg.alignment > 0 && WritePass(cfg, t, at, buf, status, m, t1)
    requires cfg.minSparse == 0 && !cfg.hasBacking && status != BlkZero
    ensures |t1| == |t|
    ensures forall p :: 0 <= p < |t| ==> t1[p].Some? || (!(at <= p < at + m) && t1[p] == t[p])
  {
  }

  lemma FilledPass(cfg: Config, inOrder: bool, s: State, i: nat, m: nat, t1: Target)
    requires ConfigOk(cfg) && Fits(cfg, s) && Filled(cfg, s) && Enabled(cfg, s, WriteSome(i, m, t1))
    ensures Filled(cfg, Apply(cfg, inOrder, s, WriteSome(i, m, t1)))
  {
    hide Hits, WritePass, StatusHolds, BufferTrue, Joined;
    var w, s1 := s.ws[i], Apply(cfg, inOrder, s, WriteSome(i, m, t1));
    if cfg.minSparse == 0 && !cfg.hasBacking && s1.ret != Failed {
      assert WorkerFits(cfg, w);
      PassFills(cfg, s.target, w.sector + w.done, w.buf[w.done..], w.status, m, t1);
      forall p | 0 <= p < |t1| && Hits(s1.log, p) > 0
        ensures t1[p].Some?
      {
        HitsPush(s.log, Pass(w.sector + w.done, m), p);
      }
    }
  }

  lemma {:induction false} FilledStep(cfg: Config, inOrder: bool, s: State, step: Step)
    requires ConfigOk(cfg) && Fits(cfg, s) && Filled(cfg, s) && Enabled(cfg, s, step)
    ensures Filled(cfg, Apply(cfg, inOrder, s, step))
  {
    hide ConfigOk, StatusHolds, BufferTrue, WritePass, Untouched, Wake, Fits, Joined, Hits;
    if step.WriteSome? {
      FilledPass(cfg, inOrder, s, step.i, step.m, step.target);
    }
  }

  /** In every run the buffers suffice, and -S 0 leaves nothing unwritten that was dealt with. */
  lemma {:induction false} RunFits(cfg: Config, inOrder: bool, s: State, steps: seq<Step>)
    requires Init(cfg, s)
    ensures var r := Run(cfg, inOrder, s, steps); r.Some? ==> Fits(cfg, r.value) && Filled(cfg, r.value)
    decreases |steps|
  {
    hide ConfigOk, Enabled, Apply, Fits, Filled, Joined;
    if steps == [] {
      InitFits(cfg, s);
    } else if Run(cfg, inOrder, s, steps).Some? {
      var front, last := steps[..|steps| - 1], steps[|steps| - 1];
      RunFits(cfg, inOrder, s, front);
      FitsStep(cfg, inOrder, Run(cfg, inOrder, s, front).value, last);
      FilledStep(cfg, inOrder, Run(cfg, inOrder, s, front).value, last);
    }
  }

  lemma InitFits(cfg: Config, s: State)
    requires Init(cfg, s)
    ensures Fits(cfg, s) && Filled(cfg, s)
  {
  }

  /** A successful conversion with -S 0 to a target without a backing file leaves no sector unwritten. */
  lemma FullyAllocated(cfg: Config, inOrder: bool, s: State, steps: seq<Step>)
    requires Init(cfg, s) && Run(cfg, inOrder, s, steps).Some?
    requires Run(cfg, inOrder, s, steps).value.ret == Finished && cfg.minSparse == 0 && !cfg.hasBacking
    ensures var t := Run(cfg, inOrder, s, steps).value.target;
      |t| == |Goal(cfg)| && forall p :: 0 <= p < |t| ==> t[p] == Some(Goal(cfg)[p])
  {
    hide Run, ConfigOk, Joined;
    SuccessMeansCopied(cfg, inOrder, s, steps);
    RunFits(cfg, inOrder, s, steps);
    var r := Run(cfg, inOrder, s, steps).value;
    forall p | 0 <= p < |r.target|
      ensures r.target[p] == Some(Goal(cfg)[p])
    {
      assert InExactlyOne(r.log, p);
      OnceHit(r.log, p);
      assert View(cfg, r.target, p) == Goal(cfg)[p];
    }
  }

  lemma {:induction false} OnceHit(log: seq<Pass>, p: int)
    requires InExactlyOne(log, p)
    ensures Hits(log, p) > 0
  {
    var k :| 0 <= k < |log| && InPass(log[k], p);
    HitSomewhere(log, k, p);
  }

  lemma {:induction false} HitSomewhere(log: seq<Pass>, k: nat, p: int)
    requires k < |log| && InPass(log[k], p)
    ensures Hits(log, p) > 0
    decreases |log|
  {
    if k < |log| - 1 {
      HitSomewhere(log[..|log| - 1], k, p);
    }
  }
}
