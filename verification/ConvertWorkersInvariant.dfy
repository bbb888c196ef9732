/** What every step of the conversion's workers keeps. */
module ConvertWorkersInvariant {
  import opened ImageBuffers
  import opened ConvertContent
  import opened ConvertWorkers

  predicate WorkerOk(cfg: Config, s: State, w: Worker)
    requires ConfigOk(cfg)
  {
    Busy(w) ==>
      && 0 < w.n && End(w) <= s.sectorNum && w.done <= w.n
      && StatusHolds(cfg, w.status, w.sector, End(w))
      && (w.pc != Reading ==> |w.buf| == w.n)
      && (w.pc != Reading && s.ret == InProgress ==> BufferTrue(cfg, w.sector, w.buf, w.status))
  }

  /** No two workers hold the same sector. */
  predicate Apart(a: Worker, b: Worker) {
    Busy(a) && Busy(b) ==> End(a) <= b.sector || End(b) <= a.sector
  }

  function Active(ws: seq<Worker>): set<int> {
    set i | 0 <= i < |ws| && ws[i].pc != Unborn && ws[i].pc != Done
  }

  predicate Disjoint(ws: seq<Worker>) {
    forall i, j :: 0 <= i < |ws| && 0 <= j < |ws| && i != j ==> Apart(ws[i], ws[j])
  }

  predicate LockOk(s: State) {
    && (forall i :: 0 <= i < |s.ws| && s.ws[i].pc == Locked ==> s.lock == Some(i))
    && (s.lock.Some? ==> s.lock.value < |s.ws| && s.ws[s.lock.value].pc == Locked)
  }

  predicate Idle(w: Worker) {
    !Busy(w) && w.pc != Locked
  }

  predicate Base(cfg: Config, s: State) {
    && ConfigOk(cfg) && |s.target| == |cfg.under| == |Goal(cfg)| && s.sectorNum <= |Goal(cfg)|
    && StatusHolds(cfg, s.status, s.sectorNum, s.next)
    && (forall i :: 0 <= i < |s.ws| ==> WorkerOk(cfg, s, s.ws[i]))
    && Disjoint(s.ws) && LockOk(s)
    && (s.lock.Some? ==> s.sectorNum < |Goal(cfg)|)
    && s.running == |Active(s.ws)|
    && (s.ret == Finished ==> s.sectorNum == |Goal(cfg)| && forall i :: 0 <= i < |s.ws| ==> Idle(s.ws[i]))
  }

  lemma ActiveSet(ws: seq<Worker>, i: nat, w: Worker)
    requires i < |ws|
    ensures Active(ws[i := w]) == if w.pc != Unborn && w.pc != Done then Active(ws) + {i} else Active(ws) - {i}
  {
  }

  /** A change of one worker that keeps its range, or gives it up, keeps the ranges apart. */
  lemma DisjointSet(ws: seq<Worker>, i: nat, w: Worker)
    requires i < |ws| && Disjoint(ws)
    requires Busy(w) ==> Busy(ws[i]) && w.sector == ws[i].sector && w.n == ws[i].n
    ensures Disjoint(ws[i := w])
  {
    var ws1 := ws[i := w];
    forall j, k | 0 <= j < |ws| && 0 <= k < |ws| && j != k
      ensures Apart(ws1[j], ws1[k])
    {
      assert Apart(ws[j], ws[k]);
    }
  }

  /** A worker that becomes busy past every other range keeps the ranges apart. */
  lemma DisjointAdd(ws: seq<Worker>, i: nat, w: Worker)
    requires i < |ws| && Disjoint(ws)
    requires forall j :: 0 <= j < |ws| && Busy(ws[j]) ==> End(ws[j]) <= w.sector
    ensures Disjoint(ws[i := w])
  {
    var ws1 := ws[i := w];
    forall j, k | 0 <= j < |ws| && 0 <= k < |ws| && j != k
      ensures Apart(ws1[j], ws1[k])
    {
      assert Apart(ws[j], ws[k]);
    }
  }

  /** Steps that only move one worker along, keeping its range. */
  lemma BaseLocal(cfg: Config, s: State, i: nat, w: Worker, s1: State)
    requires Base(cfg, s) && i < |s.ws| && s1 == Set(s, i, w).(ret := s1.ret, target := s1.target, log := s1.log)
    requires Busy(s.ws[i]) && Busy(w) && w.sector == s.ws[i].sector && w.n == s.ws[i].n
    requires s.ret != Finished ==> s1.ret == s.ret || s1.ret == Failed
    requires s1.ret == Finished ==> s.ret == Finished
    requires |s1.target| == |s.target| && WorkerOk(cfg, s1, w)
    ensures Base(cfg, s1)
  {
    hide StatusHolds, BufferTrue, ConfigOk, Joined;
    DisjointSet(s.ws, i, w);
    ActiveSet(s.ws, i, w);
    assert Active(s.ws) + {i as int} == Active(s.ws);
    forall j | 0 <= j < |s1.ws|
      ensures WorkerOk(cfg, s1, s1.ws[j])
    {
      assert WorkerOk(cfg, s, s.ws[j]);
    }
  }

  /** Steps after which the worker holds no range. */
  lemma BaseQuiet(cfg: Config, s: State, i: nat, w: Worker, s1: State)
    requires Base(cfg, s) && i < |s.ws| && !Busy(w)
    requires s1 == Set(s, i, w).(running := s1.running, lock := s1.lock, ret := s1.ret, wrOffs := s1.wrOffs)
    requires LockOk(s1) && s1.running == |Active(s1.ws)| && (s1.lock.Some? ==> s.sectorNum < |Goal(cfg)|)
    requires s1.ret == InProgress ==> s.ret == InProgress
    requires s1.ret == Finished ==> s.sectorNum == |Goal(cfg)| && forall j :: 0 <= j < |s1.ws| ==> Idle(s1.ws[j])
    ensures Base(cfg, s1)
  {
    hide StatusHolds, BufferTrue, ConfigOk, Joined, Active, LockOk;
    DisjointSet(s.ws, i, w);
    forall j | 0 <= j < |s1.ws|
      ensures WorkerOk(cfg, s1, s1.ws[j])
    {
      assert WorkerOk(cfg, s, s.ws[j]);
    }
  }

  lemma NoneActive(ws: seq<Worker>)
    requires |Active(ws)| == 0
    ensures forall j :: 0 <= j < |ws| ==> Idle(ws[j])
  {
    forall j | 0 <= j < |ws|
      ensures Idle(ws[j])
    {
      assert j !in Active(ws);
    }
  }

  lemma BaseExit(cfg: Config, s: State, i: nat, lock: Option<nat>, ret: Ret)
    requires Base(cfg, s) && i < |s.ws| && (s.ws[i].pc == AtLoop || s.ws[i].pc == Locked)
    requires lock == (if s.ws[i].pc == Locked then None else s.lock)
    requires ret == Failed || (ret == s.ret && (s.ret == InProgress ==> s.sectorNum == |Goal(cfg)|))
    ensures Base(cfg, Exit(s.(lock := lock, ret := ret), i))
  {
    hide StatusHolds, BufferTrue, ConfigOk, Joined;
    var s1 := Exit(s.(lock := lock, ret := ret), i);
    var w := s.ws[i].(pc := Done);
    ActiveSet(s.ws, i, w);
    assert i as int in Active(s.ws);
    if s1.running == 0 {
      NoneActive(s1.ws);
    }
    BaseQuiet(cfg, s, i, w, s1);
  }

  lemma BaseBegin(cfg: Config, s: State, i: nat)
    requires Base(cfg, s) && i < |s.ws| && s.ws[i].pc == Unborn
    ensures Base(cfg, Set(s, i, s.ws[i].(pc := AtLoop)).(running := s.running + 1))
  {
    hide StatusHolds, BufferTrue, ConfigOk, Joined;
    var w := s.ws[i].(pc := AtLoop);
    ActiveSet(s.ws, i, w);
    assert i as int !in Active(s.ws);
    BaseQuiet(cfg, s, i, w, Set(s, i, w).(running := s.running + 1));
  }

  lemma BaseLock(cfg: Config, s: State, i: nat)
    requires Base(cfg, s) && i < |s.ws| && s.ws[i].pc == AtLoop && s.lock == None
    requires s.ret == InProgress && s.sectorNum < |Goal(cfg)|
    ensures Base(cfg, Set(s, i, s.ws[i].(pc := Locked)).(lock := Some(i)))
  {
    hide StatusHolds, BufferTrue, ConfigOk, Joined;
    var w := s.ws[i].(pc := Locked);
    ActiveSet(s.ws, i, w);
    assert i as int in Active(s.ws);
    assert Active(s.ws) + {i as int} == Active(s.ws);
    BaseQuiet(cfg, s, i, w, Set(s, i, w).(lock := Some(i)));
  }

  lemma ClaimStatus(cfg: Config, s: State, n: nat, status: Status, next: int)
    requires ConfigOk(cfg) && NextRange(cfg, s.sectorNum, n, status, next)
    ensures var m := ClaimedLength(cfg, n, status);
      && 0 < m <= n && StatusHolds(cfg, status, s.sectorNum, s.sectorNum + m)
      && StatusHolds(cfg, status, s.sectorNum + m, next)
  {
    hide Joined, StatusTrue;
  }

  lemma BaseClaim(cfg: Config, s: State, i: nat, n: nat, status: Status, next: int)
    requires Base(cfg, s) && i < |s.ws| && s.ws[i].pc == Locked && NextRange(cfg, s.sectorNum, n, status, next)
    ensures Base(cfg, Apply(cfg, true, s, Claim(i, n, status, next)))
    ensures Apply(cfg, false, s, Claim(i, n, status, next)) == Apply(cfg, true, s, Claim(i, n, status, next))
  {
    hide StatusHolds, BufferTrue, ConfigOk, Joined;
    var s1 := Apply(cfg, true, s, Claim(i, n, status, next));
    var w := Claimed(cfg, s, n, status);
    ClaimStatus(cfg, s, n, status, next);
    forall j | 0 <= j < |s.ws|
      ensures WorkerOk(cfg, s, s.ws[j]) && Busy(s.ws[j]) ==> End(s.ws[j]) <= w.sector
    {
    }
    DisjointAdd(s.ws, i, w);
    ActiveSet(s.ws, i, w);
    assert i as int in Active(s.ws);
    assert Active(s.ws) + {i as int} == Active(s.ws);
    forall j | 0 <= j < |s1.ws|
      ensures WorkerOk(cfg, s1, s1.ws[j])
    {
      assert WorkerOk(cfg, s, s.ws[j]);
    }
  }

  lemma BaseFinish(cfg: Config, inOrder: bool, s: State, i: nat)
    requires Base(cfg, s) && i < |s.ws| && s.ws[i].pc == Finishing
    ensures Base(cfg, Apply(cfg, inOrder, s, Finish(i)))
  {
    hide StatusHolds, BufferTrue, ConfigOk, Joined, Base, Wake;
    BaseReleased(cfg, s, i, if inOrder then End(s.ws[i]) else s.wrOffs);
    if inOrder {
      BaseWake(cfg, Set(s, i, s.ws[i].(pc := AtLoop)).(wrOffs := End(s.ws[i])));
    }
  }

  lemma BaseReleased(cfg: Config, s: State, i: nat, wrOffs: nat)
    requires Base(cfg, s) && i < |s.ws| && s.ws[i].pc == Finishing
    ensures Base(cfg, Set(s, i, s.ws[i].(pc := AtLoop)).(wrOffs := wrOffs))
  {
    hide StatusHolds, BufferTrue, ConfigOk, Joined;
    var w := s.ws[i].(pc := AtLoop);
    ActiveSet(s.ws, i, w);
    assert i as int in Active(s.ws);
    assert Active(s.ws) + {i as int} == Active(s.ws);
    BaseQuiet(cfg, s, i, w, Set(s, i, w).(wrOffs := wrOffs));
  }

  lemma BaseWake(cfg: Config, s: State)
    requires Base(cfg, s)
    ensures Base(cfg, s.(ws := Wake(s.ws, s.wrOffs)))
  {
    hide StatusHolds, BufferTrue, ConfigOk, Joined, Active, LockOk, Disjoint;
    var j := Waiter(s.ws, s.wrOffs, 0);
    if j.Some? {
      var v := s.ws[j.value];
      assert WorkerOk(cfg, s, v);
      BaseLocal(cfg, s, j.value, v.(pc := CanWrite), Set(s, j.value, v.(pc := CanWrite)));
    }
  }

  lemma {:induction false} BaseStep(cfg: Config, inOrder: bool, s: State, step: Step)
    requires Base(cfg, s) && Enabled(cfg, s, step)
    ensures Base(cfg, Apply(cfg, inOrder, s, step))
  {
    hide Base, ConfigOk, Joined, StatusHolds, BufferTrue, WritePass, Disjoint, Wake, Waiter;
    var i := step.i;
    match step {
      case Begin(_) => BaseBegin(cfg, s, i);
      case Lock(_) =>
        if s.ret != InProgress || s.sectorNum >= |Goal(cfg)| {
          BaseExit(cfg, s, i, s.lock, s.ret) by {
            AtMostAll(cfg, s);
          }
        } else {
          BaseLock(cfg, s, i);
        }
      case Claim(_, n, status, next) => BaseClaim(cfg, s, i, n, status, next);
      case ClaimFails(_) => BaseExit(cfg, s, i, None, Failed);
      case Finish(_) => BaseFinish(cfg, inOrder, s, i);
      case _ => BaseMoves(cfg, inOrder, s, step);
    }
  }

  lemma AtMostAll(cfg: Config, s: State)
    requires Base(cfg, s)
    ensures s.sectorNum <= |Goal(cfg)|
  {
  }

  lemma BaseMoves(cfg: Config, inOrder: bool, s: State, step: Step)
    requires Base(cfg, s) && Enabled(cfg, s, step) && Busy(s.ws[step.i]) && !step.Finish?
    ensures Base(cfg, Apply(cfg, inOrder, s, step))
  {
    hide ConfigOk, Joined, StatusHolds, WritePass, Disjoint, Wake, Waiter, Active, LockOk;
    var i, s1 := step.i, Apply(cfg, inOrder, s, step);
    assert WorkerOk(cfg, s, s.ws[i]);
    if step.Read? {
      ReadStatus(cfg, s.ws[i], step.buf);
      if step.ok {
        ReadBuffer(cfg, s.ws[i], step.buf);
      }
    } else if step.WriteSome? {
      PassLength(cfg, s, s.ws[i], step.m, step.target);
    }
    BaseLocal(cfg, s, i, s1.ws[i], s1);
  }

  lemma ReadStatus(cfg: Config, w: Worker, buf: seq<Sector>)
    requires ConfigOk(cfg) && StatusHolds(cfg, w.status, w.sector, End(w))
    ensures StatusHolds(cfg, AfterRead(cfg, w, buf).status, w.sector, End(w))
  {
    hide Joined;
  }

  /** With -S 0 the zeroed buffer is what the sources hold. */
  lemma ReadBuffer(cfg: Config, w: Worker, buf: seq<Sector>)
    requires ConfigOk(cfg) && StatusHolds(cfg, w.status, w.sector, End(w)) && End(w) <= |Goal(cfg)|
    requires |buf| == w.n && BufferTrue(cfg, w.sector, buf, w.status)
    ensures BufferTrue(cfg, w.sector, AfterRead(cfg, w, buf).buf, AfterRead(cfg, w, buf).status)
  {
    hide Joined;
    if cfg.minSparse == 0 && w.status == BlkZero {
      var z, goal := Zeros(w.n), Goal(cfg)[w.sector..End(w)];
      forall k | 0 <= k < w.n
        ensures z[k] == goal[k]
      {
        assert StatusTrue(cfg, BlkZero, w.sector + k);
        ZeroUnique(z[k], goal[k]);
      }
    }
  }

  lemma PassLength(cfg: Config, s: State, w: Worker, m: nat, t1: Target)
    requires ConfigOk(cfg) && w.done < w.n == |w.buf|
    requires WritePass(cfg, s.target, w.sector + w.done, w.buf[w.done..], w.status, m, t1)
    ensures |t1| == |s.target| && 0 < m <= w.n - w.done
  {
  }

  predicate Holds(w: Worker, p: int) {
    Busy(w) && w.sector <= p < End(w)
  }

  /** No worker holds sector `p`. */
  predicate Free(ws: seq<Worker>, p: int) {
    forall i :: 0 <= i < |ws| ==> !Holds(ws[i], p)
  }

  /** A range is untouched until its worker writes it, pass by pass. */
  predicate WorkerContent(cfg: Config, t: Target, w: Worker)
    requires |t| == |cfg.under| == |Goal(cfg)|
  {
    match w.pc
    case Writing => Copied(cfg, t, w.sector, w.sector + w.done) && Fresh(t, w.sector + w.done, End(w))
    case Finishing => Copied(cfg, t, w.sector, End(w))
    case _ => Busy(w) ==> Fresh(t, w.sector, End(w))
  }

  predicate Settled(cfg: Config, s: State)
    requires |s.target| == |cfg.under| == |Goal(cfg)|
  {
    forall p :: 0 <= p < s.sectorNum && p < |s.target| && Free(s.ws, p) ==> View(cfg, s.target, p) == Goal(cfg)[p]
  }

  /** Until something fails, every claimed sector nobody holds has its final content. */
  predicate Content(cfg: Config, s: State)
    requires |s.target| == |cfg.under| == |Goal(cfg)|
  {
    s.ret != Failed ==>
      && Fresh(s.target, s.sectorNum, |s.target|)
      && (forall i :: 0 <= i < |s.ws| ==> WorkerContent(cfg, s.target, s.ws[i]))
      && Settled(cfg, s)
  }

  lemma FreeSame(ws: seq<Worker>, i: nat, w: Worker, p: int)
    requires i < |ws| && Busy(w) == Busy(ws[i]) && (Busy(w) ==> w.sector == ws[i].sector && w.n == ws[i].n)
    ensures Free(ws[i := w], p) == Free(ws, p)
  {
    var ws1 := ws[i := w];
    assert forall j :: 0 <= j < |ws| ==> Holds(ws1[j], p) == Holds(ws[j], p);
  }

  /** Steps that touch neither the target nor any range. */
  lemma ContentLocal(cfg: Config, s: State, i: nat, w: Worker, s1: State)
    requires Base(cfg, s) && Content(cfg, s) && i < |s.ws| && s1.ws == s.ws[i := w] && s1.target == s.target
    requires s1.sectorNum == s.sectorNum && (s.ret == Failed ==> s1.ret == Failed)
    requires Busy(w) == Busy(s.ws[i]) && (Busy(w) ==> w.sector == s.ws[i].sector && w.n == s.ws[i].n)
    requires s1.ret != Failed ==> WorkerContent(cfg, s.target, w)
    ensures Content(cfg, s1)
  {
    hide Free, Joined, StatusHolds, ConfigOk, Fresh, Copied;
    forall p | 0 <= p < s1.sectorNum && p < |s1.target| && Free(s1.ws, p)
      ensures s1.ret != Failed ==> View(cfg, s1.target, p) == Goal(cfg)[p]
    {
      FreeSame(s.ws, i, w, p);
    }
  }

  lemma ContentClaim(cfg: Config, s: State, i: nat, w: Worker, s1: State)
    requires Base(cfg, s) && Content(cfg, s) && i < |s.ws| && !Busy(s.ws[i]) && s1.ws == s.ws[i := w]
    requires s1.target == s.target && s1.ret == s.ret
    requires w.pc == Reading && w.sector == s.sectorNum && End(w) == s1.sectorNum
    ensures Content(cfg, s1)
  {
    hide Joined, StatusHolds, ConfigOk;
    forall p | 0 <= p < s1.sectorNum && p < |s1.target| && Free(s1.ws, p)
      ensures s1.ret != Failed ==> View(cfg, s1.target, p) == Goal(cfg)[p]
    {
      assert !Holds(s1.ws[i], p);
      forall j | 0 <= j < |s.ws|
        ensures !Holds(s.ws[j], p)
      {
        assert !Holds(s1.ws[j], p);
      }
      assert Free(s.ws, p);
    }
  }

  lemma ContentRelease(cfg: Config, s: State, i: nat, w: Worker, s1: State)
    requires Base(cfg, s) && Content(cfg, s) && i < |s.ws| && s.ws[i].pc == Finishing && !Busy(w)
    requires s1.ws == s.ws[i := w] && s1.target == s.target && s1.ret == s.ret && s1.sectorNum == s.sectorNum
    ensures Content(cfg, s1)
  {
    hide Joined, StatusHolds, ConfigOk;
    forall p | 0 <= p < s1.sectorNum && p < |s1.target| && Free(s1.ws, p)
      ensures s1.ret != Failed ==> View(cfg, s1.target, p) == Goal(cfg)[p]
    {
      if s.ret != Failed {
        assert WorkerContent(cfg, s.target, s.ws[i]);
        if !Holds(s.ws[i], p) {
          forall j | 0 <= j < |s.ws|
            ensures !Holds(s.ws[j], p)
          {
            assert !Holds(s1.ws[j], p);
          }
          assert Free(s.ws, p);
        }
      }
    }
  }

  /** A pass changes only sectors its own worker holds. */
  lemma ContentWrite(cfg: Config, s: State, i: nat, w: Worker, s1: State, from: int, to: int)
    requires Base(cfg, s) && Content(cfg, s) && i < |s.ws| && s1.ws == s.ws[i := w] && s.ret != Failed
    requires s1.ret == s.ret && s1.sectorNum == s.sectorNum
    requires Busy(w) && Busy(s.ws[i]) && w.sector == s.ws[i].sector && w.n == s.ws[i].n
    requires w.sector <= from <= to <= End(w) && Untouched(s.target, s1.target, from, to)
    requires WorkerContent(cfg, s1.target, w)
    ensures Content(cfg, s1)
  {
    hide Joined, StatusHolds, ConfigOk;
    assert WorkerOk(cfg, s, s.ws[i]);
    forall j | 0 <= j < |s.ws|
      ensures WorkerContent(cfg, s1.target, s1.ws[j])
    {
      if j != i {
        assert WorkerContent(cfg, s.target, s.ws[j]) && Apart(s.ws[i], s.ws[j]) && WorkerOk(cfg, s, s.ws[j]);
      }
    }
    forall p | 0 <= p < s1.sectorNum && p < |s1.target| && Free(s1.ws, p)
      ensures View(cfg, s1.target, p) == Goal(cfg)[p]
    {
      assert !Holds(s1.ws[i], p);
      FreeSame(s.ws, i, w, p);
    }
  }

  lemma ContentPass(cfg: Config, s: State, i: nat, m: nat, t1: Target)
    requires Base(cfg, s) && Content(cfg, s) && i < |s.ws| && Enabled(cfg, s, WriteSome(i, m, t1))
    ensures |t1| == |s.target| && Content(cfg, Apply(cfg, true, s, WriteSome(i, m, t1)))
    ensures Apply(cfg, false, s, WriteSome(i, m, t1)) == Apply(cfg, true, s, WriteSome(i, m, t1))
  {
    hide Joined, ConfigOk, Free, WritePass;
    var w, s1 := s.ws[i], Apply(cfg, true, s, WriteSome(i, m, t1));
    PassLength(cfg, s, w, m, t1);
    if s.ret != Failed {
      assert WorkerOk(cfg, s, w) && WorkerContent(cfg, s.target, w) && Idle(w) == false;
      var at, rest := w.sector + w.done, w.buf[w.done..];
      RestTrue(cfg, w);
      PassCopies(cfg, s.target, at, rest, w.status, m, t1);
      CopiedGrows(cfg, s.target, t1, w.sector, at, at + m, End(w));
      ContentWrite(cfg, s, i, s1.ws[i], s1, at, at + m);
    }
  }

  lemma RestTrue(cfg: Config, w: Worker)
    requires w.done <= |w.buf| == w.n && BufferTrue(cfg, w.sector, w.buf, w.status)
    ensures BufferTrue(cfg, w.sector + w.done, w.buf[w.done..], w.status)
  {
    hide Joined;
    if w.status == BlkData {
      assert w.buf[w.done..] == Goal(cfg)[w.sector + w.done..w.sector + w.done + |w.buf[w.done..]|];
    }
  }

  lemma CopiedGrows(cfg: Config, t: Target, t1: Target, from: int, at: int, to: int, end: int)
    requires |t| == |t1| == |cfg.under| == |Goal(cfg)| && from <= at <= to <= end
    requires Copied(cfg, t, from, at) && Fresh(t, at, end) && Untouched(t, t1, at, to) && Copied(cfg, t1, at, to)
    ensures Copied(cfg, t1, from, to) && Fresh(t1, to, end)
  {
    hide Joined;
  }

  lemma ContentFinish(cfg: Config, inOrder: bool, s: State, i: nat)
    requires Base(cfg, s) && Content(cfg, s) && i < |s.ws| && s.ws[i].pc == Finishing
    ensures var s1 := Apply(cfg, inOrder, s, Finish(i)); |s1.target| == |s.target| && Content(cfg, s1)
  {
    hide Joined, ConfigOk, Free, Fresh, Copied, StatusHolds, BufferTrue, Disjoint;
    var s1 := Apply(cfg, inOrder, s, Finish(i));
    var w := s.ws[i].(pc := AtLoop);
    var mid := Set(s, i, w);
    ContentRelease(cfg, s, i, w, mid);
    BaseFinish(cfg, false, s, i);
    var j := Waiter(mid.ws, End(s.ws[i]), 0);
    if inOrder && j.Some? {
      if s.ret != Failed {
        assert WorkerContent(cfg, s.target, mid.ws[j.value]);
      }
      ContentLocal(cfg, mid, j.value, mid.ws[j.value].(pc := CanWrite), s1);
    }
  }

  lemma {:induction false} ContentStep(cfg: Config, inOrder: bool, s: State, step: Step)
    requires Base(cfg, s) && Content(cfg, s) && Enabled(cfg, s, step)
    ensures var s1 := Apply(cfg, inOrder, s, step); |s1.target| == |cfg.under| && Content(cfg, s1)
  {
    hide Joined, ConfigOk, Free, Fresh, Copied, StatusHolds, BufferTrue, Disjoint, WritePass, Wake, Waiter, Active,
         LockOk;
    var i, w, s1 := step.i, s.ws[step.i], Apply(cfg, inOrder, s, step);
    match step {
      case Claim(_, n, status, next) => ContentClaim(cfg, s, i, s1.ws[i], s1);
      case WriteSome(_, m, t1) => ContentPass(cfg, s, i, m, t1);
      case WriteFails(_, t1) =>
      case Finish(_) => ContentFinish(cfg, inOrder, s, i);
      case _ => ContentMoves(cfg, inOrder, s, step);
    }
  }

  lemma ContentMoves(cfg: Config, inOrder: bool, s: State, step: Step)
    requires Base(cfg, s) && Content(cfg, s) && Enabled(cfg, s, step)
    requires !step.Claim? && !step.WriteSome? && !step.WriteFails? && !step.Finish?
    ensures Content(cfg, Apply(cfg, inOrder, s, step))
  {
    hide Joined, ConfigOk, Free, StatusHolds, BufferTrue, Disjoint, WritePass, Wake, Waiter, Active, LockOk;
    var i, w, s1 := step.i, s.ws[step.i], Apply(cfg, inOrder, s, step);
    if s.ret != Failed {
      assert WorkerContent(cfg, s.target, w) && WorkerOk(cfg, s, w);
      assert Busy(w) ==> s.ret == InProgress;
    }
    ContentLocal(cfg, s, i, s1.ws[i], s1);
  }
}
