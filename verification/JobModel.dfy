/**
 A job of the block layer's job API: its status table, its coroutine, its pause
 counter, its references, and what each call does to the one job it is about.
 */
module JobModel {
  datatype Option<T> = None | Some(value: T)

  datatype Status =
    Undefined | Created | Running | Paused | Ready | Standby | Waiting | Pending | Aborting | Concluded | Null

  datatype Verb = CancelVerb | PauseVerb | ResumeVerb | SetSpeedVerb | CompleteVerb
    | FinalizeVerb | DismissVerb | ChangeVerb

  /** JobSTT */
  predicate Allowed(s0: Status, s1: Status) {
    match s0
    case Undefined => s1.Created?
    case Created => s1.Running? || s1.Aborting? || s1.Null?
    case Running => s1.Paused? || s1.Ready? || s1.Waiting? || s1.Aborting?
    case Paused => s1.Running?
    case Ready => s1.Standby? || s1.Waiting? || s1.Aborting?
    case Standby => s1.Ready?
    case Waiting => s1.Pending? || s1.Aborting?
    case Pending => s1.Aborting? || s1.Concluded?
    case Aborting => s1.Aborting? || s1.Concluded?
    case Concluded => s1.Null?
    case Null => false
  }

  /** JobVerbTable */
  predicate VerbAllowed(v: Verb, s: Status) {
    match v
    case CancelVerb =>
      s.Created? || s.Running? || s.Paused? || s.Ready? || s.Standby? || s.Waiting? || s.Pending?
    case PauseVerb => s.Created? || s.Running? || s.Paused? || s.Ready? || s.Standby?
    case ResumeVerb => s.Created? || s.Running? || s.Paused? || s.Ready? || s.Standby?
    case SetSpeedVerb => s.Created? || s.Running? || s.Paused? || s.Ready? || s.Standby?
    case CompleteVerb => s.Ready? || s.Standby?
    case FinalizeVerb => s.Pending?
    case DismissVerb => s.Concluded?
    case ChangeVerb => s.Created? || s.Running? || s.Paused? || s.Ready? || s.Standby?
  }

  predicate Completed(s: Status) {
    s.Waiting? || s.Pending? || s.Aborting? || s.Concluded? || s.Null?
  }

  /** Where the job's coroutine is; a yield inside a pause point remembers the status to return to. */
  datatype Co = NotCreated | InCo | Yielded(back: Option<Status>) | Woken(back: Option<Status>) | Ended

  datatype Outcome = NoOutcome | Committed | Aborted

  /** What the scheduler knows of a job: its coroutine and the flags around it. */
  datatype Exec = Exec(co: Co, busy: bool, paused: bool, deferred: bool, exitPending: bool, timer: bool)

  /** The pause counter, and who will take the pauses back; `ioError` is a block job's I/O status not being OK. */
  datatype Pauses = Pauses(count: int, user: bool, internal: nat, ioError: bool)

  /** The reference count, and who holds the references besides the one given back on dismissal. */
  datatype Refs = Refs(count: int, ext: nat, held: nat)

  datatype Job = Job(
    status: Status,
    exec: Exec,
    pauses: Pauses,
    refs: Refs,
    cancelled: bool,
    forceCancel: bool,
    ret: int,
    autoFinalize: bool,
    autoDismiss: bool,
    home: nat,
    txn: Option<nat>,
    outcome: Outcome
  )

  const ECANCELED := 125

  predicate Started(e: Exec) {
    !e.co.NotCreated?
  }

  predicate ParkedOk(s: Status, paused: bool, back: Option<Status>) {
    && paused == back.Some?
    && match back
       case None => s.Running? || s.Ready?
       case Some(b) => (b.Running? && s.Paused?) || (b.Ready? && s.Standby?)
  }

  /** How status, coroutine and flags hang together. */
  predicate ExecOk(s: Status, e: Exec, ret: int) {
    && (e.timer ==> e.co == Yielded(None))
    && (!e.co.Ended? ==> !e.exitPending)
    && match e.co
       case NotCreated =>
         && (s.Created? || s.Aborting? || s.Null?)
         && (s.Created? ==> e.paused && !e.busy && !e.deferred && ret == 0)
       case InCo => !e.deferred && e.busy && !e.paused && (s.Running? || s.Ready?) && ret == 0
       case Yielded(back) => !e.deferred && !e.busy && ParkedOk(s, e.paused, back) && ret == 0
       case Woken(back) => !e.deferred && e.busy && ParkedOk(s, e.paused, back) && ret == 0
       case Ended =>
         && e.deferred && !e.paused
         && if e.exitPending then e.busy && (s.Running? || s.Ready?) else !e.busy && Completed(s)
  }

  /** Every pause is accounted for, and a job stopped by an I/O error is paused for the user. */
  predicate PausesOk(started: bool, p: Pauses) {
    && p.count == (if started then 0 else 1) + (if p.user then 1 else 0) + p.internal
    && (p.ioError ==> p.user)
  }

  predicate RefsOk(s: Status, r: Refs) {
    r.count == (if s.Null? then 0 else 1) + r.ext + r.held
  }

  predicate OutcomeOk(s: Status, ret: int, o: Outcome) {
    && (!s.Concluded? && !s.Null? ==> o == NoOutcome)
    && (s.Concluded? ==> o != NoOutcome)
    && (o == Committed ==> ret == 0)
    && (o == Aborted ==> ret != 0)
    && (s.Aborting? ==> ret != 0)
    && (s.Waiting? || s.Pending? ==> ret == 0)
  }

  /** What holds of every job at every moment. */
  predicate JobOk(j: Job) {
    && !j.status.Undefined?
    && RefsOk(j.status, j.refs)
    && PausesOk(Started(j.exec), j.pauses)
    && (j.forceCancel ==> j.cancelled)
    && j.txn == (if j.status.Concluded? || j.status.Null? then None else Some(j.home))
    && ExecOk(j.status, j.exec, j.ret) && OutcomeOk(j.status, j.ret, j.outcome)
  }

  /** job_state_transition_locked; the precondition is its assertion */
  function Transition(j: Job, s: Status): Job
    requires Allowed(j.status, s)
  {
    j.(status := s)
  }

  /** job_create, for a job of transaction `t` */
  function NewJob(t: nat, autoFinalize: bool, autoDismiss: bool): Job {
    Job(Created, Exec(NotCreated, false, true, false, false, false), Pauses(1, false, 0, false), Refs(1, 0, 0),
        false, false, 0, autoFinalize, autoDismiss, t, Some(t), NoOutcome)
  }

  /** aio_co_wake; only a coroutine that has yielded may be entered */
  function WakeCo(e: Exec): Exec
    requires e.co.Yielded?
  {
    e.(busy := true, timer := false, co := Woken(e.co.back))
  }

  /** A coroutine that is not busy has yielded. */
  predicate Enterable(e: Exec) {
    Started(e) && !e.deferred && !e.busy ==> e.co.Yielded?
  }

  /** job_enter_cond_locked */
  function Enter(e: Exec): Exec
    requires Enterable(e)
  {
    if !Started(e) || e.deferred || e.busy then e else WakeCo(e)
  }

  /** job_start */
  function Begin(j: Job): Job
    requires j.status.Created? && !Started(j.exec)
  {
    Transition(j.(exec := j.exec.(co := InCo, busy := true, paused := false),
                  pauses := j.pauses.(count := j.pauses.count - 1)), Running)
  }

  /** job_pause_point_locked, up to its yield */
  function PausePoint(j: Job): Job
    requires j.status.Running? || j.status.Ready?
  {
    if j.pauses.count <= 0 || j.forceCancel then j
    else
      Transition(j.(exec := j.exec.(paused := true, busy := false, co := Yielded(Some(j.status)))),
                 if j.status.Ready? then Standby else Paused)
  }

  /** job_yield and job_sleep_ns, up to the first yield */
  function Yield(j: Job, timer: bool): Job
    requires j.status.Running? || j.status.Ready?
  {
    if j.forceCancel then j
    else if j.pauses.count <= 0 then j.(exec := j.exec.(timer := timer, busy := false, co := Yielded(None)))
    else PausePoint(j)
  }

  /** The coroutine goes on after its yield; out of a pause point it restores the status. */
  function Continue(j: Job): Job
    requires j.exec.co.Woken? && (j.exec.co.back.Some? ==> Allowed(j.status, j.exec.co.back.value))
  {
    match j.exec.co.back
    case None => j.(exec := j.exec.(co := InCo))
    case Some(s) => Transition(j.(exec := j.exec.(paused := false, co := InCo)), s)
  }

  /** The end of job_co_entry */
  function Return(j: Job, ret: int): Job {
    j.(exec := j.exec.(co := Ended, deferred := true, busy := true, exitPending := true), ret := ret)
  }

  /** The second half of job_pause_locked: make a sleeping job come to its pause point. */
  function Kick(e: Exec): Exec
    requires Enterable(e)
  {
    if e.paused then e else Enter(e)
  }

  /** job_pause_locked, for a caller that will resume the job */
  function Pause(j: Job): Job
    requires Enterable(j.exec)
  {
    j.(pauses := j.pauses.(count := j.pauses.count + 1, internal := j.pauses.internal + 1), exec := Kick(j.exec))
  }

  /** A pause that the user has to take back. */
  function PauseForUser(j: Job): Job
    requires Enterable(j.exec) && !j.pauses.user
  {
    j.(pauses := j.pauses.(count := j.pauses.count + 1, user := true), exec := Kick(j.exec))
  }

  /** The second half of job_resume_locked: kick the job only if no timer will. */
  function Unpaused(e: Exec, count: int): Exec
    requires Enterable(e)
  {
    if count != 0 || e.timer then e else Enter(e)
  }

  /** job_resume_locked, by a caller that paused the job */
  function Resume(j: Job): Job
    requires Enterable(j.exec) && j.pauses.internal > 0
  {
    j.(pauses := j.pauses.(count := j.pauses.count - 1, internal := j.pauses.internal - 1),
       exec := Unpaused(j.exec, j.pauses.count - 1))
  }

  /** job_user_pause_locked */
  function UserPause(j: Job): Job
    requires Enterable(j.exec)
  {
    if !VerbAllowed(PauseVerb, j.status) || j.pauses.user then j else PauseForUser(j)
  }

  /** block_job_iostatus_reset_locked; the precondition is its assertion */
  function ResetIoStatus(p: Pauses): Pauses
    requires p.ioError ==> p.user && p.count > 0
  {
    p.(ioError := false)
  }

  /** What resuming and cancelling both do to a job that is paused for the user. */
  function UserUnpaused(p: Pauses): Pauses
    requires p.user && p.count > 0
  {
    ResetIoStatus(p).(user := false, count := p.count - 1)
  }

  /** job_user_resume_locked, with block_job_user_resume as the driver's callback */
  function UserResume(j: Job): Job
    requires Enterable(j.exec)
  {
    if !j.pauses.user || j.pauses.count <= 0 || !VerbAllowed(ResumeVerb, j.status) then j
    else j.(pauses := UserUnpaused(j.pauses), exec := Unpaused(j.exec, j.pauses.count - 1))
  }

  /** block_job_error_action with the action to stop */
  function StopOnError(j: Job): Job
    requires Enterable(j.exec)
  {
    var k := if j.pauses.user then j else PauseForUser(j);
    k.(pauses := k.pauses.(ioError := true))
  }

  /** job_cancel_async_locked; `force` is what the driver's cancel callback made of the request */
  function CancelAsync(j: Job, force: bool): Job
    requires j.pauses.user ==> j.pauses.count > 0
  {
    var p := if j.pauses.user then UserUnpaused(j.pauses) else j.pauses;
    if force || !j.exec.deferred then j.(pauses := p, cancelled := true, forceCancel := j.forceCancel || force)
    else j.(pauses := p)
  }

  /** job_update_rc_locked */
  function UpdateRc(j: Job): (r: Job)
    requires Allowed(j.status, Aborting)
    ensures r.exec == j.exec && r.pauses == j.pauses && r.refs == j.refs
    ensures if j.ret != 0 || j.forceCancel then r.status.Aborting? && r.ret != 0 else r == j
  {
    var ret := if j.ret == 0 && j.forceCancel then -ECANCELED else j.ret;
    if ret != 0 then Transition(j.(ret := ret), Aborting) else j
  }

  /** job_unref_locked as far as it is about the counter; the precondition is its assertion when it frees the job */
  function Unref(j: Job): Job
    requires j.refs.count == 1 ==> j.status.Null? && !j.exec.timer && j.txn == None
  {
    j.(refs := j.refs.(count := j.refs.count - 1))
  }

  /** job_do_dismiss_locked, apart from the transaction's own list */
  function Dismissed(j: Job): Job
    requires Allowed(j.status, Null) && !j.exec.timer
  {
    Unref(Transition(j.(exec := j.exec.(busy := false, paused := false, deferred := true), txn := None), Null))
  }

  /** A completed job in a state from which job_finalize_single_locked may conclude it. */
  predicate Finalizable(j: Job) {
    && (j.status.Waiting? || j.status.Pending? || j.status.Aborting?) && !j.exec.timer
    && (j.status.Waiting? ==> j.forceCancel) && (j.status.Aborting? ==> j.ret != 0)
  }

  /** The end of job_finalize_single_locked: run commit or abort, leave the transaction, conclude. */
  function Conclude(j: Job): Job
    requires Allowed(j.status, Concluded) && !j.exec.timer
  {
    var c := Transition(j.(outcome := if j.ret == 0 then Committed else Aborted, txn := None), Concluded);
    if c.autoDismiss || !Started(c.exec) then Dismissed(c) else c
  }

  /** job_finalize_single_locked, apart from the transaction's own list */
  function Finalized(j: Job): Job
    requires Finalizable(j)
  {
    Conclude(UpdateRc(j))
  }
}
