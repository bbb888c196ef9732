/**
 The coroutines of `qemu-img convert` as a state machine: workers claim ranges
 under a lock, read them in any order, and write them, by default one after the
 other.  A step is what a worker does between two points where it may yield.
 */
module ConvertWorkers {
  import opened ImageBuffers
  import opened ConvertContent

  /** `wait_sector_num` of a worker is its own sector while it is Parked and -1 at any other time. */
  datatype Pc = Unborn | AtLoop | Locked | Reading | Checking | Parked | CanWrite | Writing | Finishing | Done

  datatype Worker = Worker(pc: Pc, sector: nat, n: nat, status: Status, buf: seq<Sector>, done: nat)

  datatype Ret = InProgress | Finished | Failed

  /** One finished pass of the write loop: `m` sectors from `at`. */
  datatype Pass = Pass(at: nat, m: nat)

  datatype State = State(
    ws: seq<Worker>,
    running: int,
    lock: Option<nat>,
    sectorNum: nat,
    status: Status,
    next: int,
    wrOffs: nat,
    ret: Ret,
    target: Target,
    log: seq<Pass>
  )

  datatype Step =
    | Begin(i: nat)
    | Lock(i: nat)
    | Claim(i: nat, n: nat, status: Status, next: int)
    | ClaimFails(i: nat)
    | Read(i: nat, ok: bool, buf: seq<Sector>)
    | Check(i: nat)
    | BeginWrite(i: nat)
    | WriteSome(i: nat, m: nat, target: Target)
    | WriteFails(i: nat, target: Target)
    | EndWrite(i: nat)
    | Finish(i: nat)

  /** convert_do_copy after its first pass, which may leave any status behind but resets the cache. */
  predicate Init(cfg: Config, s: State) {
    && ConfigOk(cfg)
    && (forall i :: 0 <= i < |s.ws| ==> s.ws[i].pc == Unborn)
    && s.running == 0 && s.lock == None && s.sectorNum == 0 && s.next == 0 && s.wrOffs == 0
    && s.ret == InProgress && |s.target| == |Goal(cfg)| && ConvertContent.Fresh(s.target, 0, |s.target|) && s.log == []
  }

  predicate Busy(w: Worker) {
    w.pc.Reading? || w.pc.Checking? || w.pc.Parked? || w.pc.CanWrite? || w.pc.Writing? || w.pc.Finishing?
  }

  function End(w: Worker): nat {
    w.sector + w.n
  }

  /** The state in which a step may be taken, and what the called routines promise about its outcome. */
  predicate Enabled(cfg: Config, s: State, step: Step)
    requires ConfigOk(cfg)
  {
    && step.i < |s.ws|
    && var w := s.ws[step.i];
    match step
    case Begin(_) => w.pc == Unborn
    case Lock(_) => w.pc == AtLoop && s.lock == None
    case Claim(_, n, status, next) =>
      w.pc == Locked && NextRange(cfg, s.sectorNum, n, status, next)
    case ClaimFails(_) => w.pc == Locked
    case Read(_, ok, buf) =>
      && w.pc == Reading && |buf| == w.n
      && (if ok then BufferTrue(cfg, w.sector, buf, w.status) else w.status == BlkData)
    case Check(_) => w.pc == Checking
    case BeginWrite(_) => w.pc == CanWrite
    case WriteSome(_, m, t1) =>
      && w.pc == Writing && w.done < w.n == |w.buf|
      && WritePass(cfg, s.target, w.sector + w.done, w.buf[w.done..], w.status, m, t1)
    case WriteFails(_, t1) => w.pc == Writing && Untouched(s.target, t1, w.sector, End(w))
    case EndWrite(_) => w.pc == Writing && w.done == w.n
    case Finish(_) => w.pc == Finishing
  }

  /** The status and length a claim ends up with: with -S 0 zeroes are written as data, a buffer at a time. */
  function ClaimedLength(cfg: Config, n: nat, status: Status): nat {
    if cfg.minSparse == 0 && status == BlkZero then Min(n, cfg.bufSectors) else n
  }

  function Claimed(cfg: Config, s: State, n: nat, status: Status): Worker {
    Worker(Reading, s.sectorNum, ClaimedLength(cfg, n, status), status, [], 0)
  }

  /** A failed read leaves the status of the whole conversion failed, but the worker carries on to its turn. */
  function AfterRead(cfg: Config, w: Worker, buf: seq<Sector>): Worker {
    if cfg.minSparse == 0 && w.status == BlkZero then w.(pc := Checking, status := BlkData, buf := Zeros(w.n))
    else w.(pc := Checking, buf := buf)
  }

  /** The first worker that waits for the write position `at`. */
  function Waiter(ws: seq<Worker>, at: nat, from: nat): (r: Option<nat>)
    requires from <= |ws|
    ensures r.Some? ==> from <= r.value < |ws| && ws[r.value].pc == Parked && ws[r.value].sector == at
    ensures r.None? ==> forall j :: from <= j < |ws| ==> !(ws[j].pc == Parked && ws[j].sector == at)
    decreases |ws| - from
  {
    if from == |ws| then None
    else if ws[from].pc == Parked && ws[from].sector == at then Some(from)
    else Waiter(ws, at, from + 1)
  }

  function Wake(ws: seq<Worker>, at: nat): (r: seq<Worker>)
    ensures |r| == |ws|
  {
    var j := Waiter(ws, at, 0);
    if j.Some? then ws[j.value := ws[j.value].(pc := CanWrite)] else ws
  }

  function Set(s: State, i: nat, w: Worker): State
    requires i < |s.ws|
  {
    s.(ws := s.ws[i := w])
  }

  function Exit(s: State, i: nat): State
    requires i < |s.ws|
  {
    var r := s.running - 1;
    s.(ws := s.ws[i := s.ws[i].(pc := Done)], running := r,
       ret := if r == 0 && s.ret == InProgress then Finished else s.ret)
  }

  function Apply(cfg: Config, inOrder: bool, s: State, step: Step): State
    requires ConfigOk(cfg) && Enabled(cfg, s, step)
  {
    var i, w := step.i, s.ws[step.i];
    match step
    case Begin(_) => Set(s, i, w.(pc := AtLoop)).(running := s.running + 1)
    case Lock(_) =>
      if s.ret != InProgress || s.sectorNum >= |Goal(cfg)| then Exit(s, i)
      else Set(s, i, w.(pc := Locked)).(lock := Some(i))
    case Claim(_, n, status, next) =>
      Set(s, i, Claimed(cfg, s, n, status))
        .(lock := None, status := status, next := next, sectorNum := s.sectorNum + ClaimedLength(cfg, n, status))
    case ClaimFails(_) => Exit(s.(lock := None, ret := Failed), i)
    case Read(_, ok, buf) => Set(s, i, AfterRead(cfg, w, buf)).(ret := if ok then s.ret else Failed)
    case Check(_) =>
      if inOrder && s.wrOffs != w.sector && s.ret == InProgress then Set(s, i, w.(pc := Parked))
      else Set(s, i, w.(pc := CanWrite))
    case BeginWrite(_) =>
      if s.ret == InProgress then Set(s, i, w.(pc := Writing, done := 0)) else Set(s, i, w.(pc := Finishing))
    case WriteSome(_, m, t1) =>
      Set(s, i, w.(done := w.done + m)).(target := t1, log := s.log + [Pass(w.sector + w.done, m)])
    case WriteFails(_, t1) => Set(s, i, w.(pc := Finishing)).(target := t1, ret := Failed)
    case EndWrite(_) => Set(s, i, w.(pc := Finishing))
    case Finish(_) =>
      var ws := s.ws[i := w.(pc := AtLoop)];
      if inOrder then s.(ws := Wake(ws, End(w)), wrOffs := End(w)) else s.(ws := ws)
  }

  /** The state after a whole run, if every step of it was possible. */
  function Run(cfg: Config, inOrder: bool, s: State, steps: seq<Step>): Option<State>
    requires ConfigOk(cfg)
    decreases |steps|
  {
    if steps == [] then Some(s)
    else
      var p := Run(cfg, inOrder, s, steps[..|steps| - 1]);
      if p.None? || !Enabled(cfg, p.value, steps[|steps| - 1]) then None
      else Some(Apply(cfg, inOrder, p.value, steps[|steps| - 1]))
  }
}
