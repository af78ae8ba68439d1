/**
 A background job (`job.c`): its states, the table of allowed transitions, the table of commands allowed
 in each state, and what each operation does to the job itself.
 */
module Job {
  import opened Options

  datatype Status =
    | Undefined | Created | Running | Paused | Ready | Standby | Waiting | Pending | Aborting | Concluded | Null

  datatype Verb = VerbCancel | VerbPause | VerbResume | VerbFinalize | VerbDismiss

  /** `JobSTT` */
  predicate Allowed(s0: Status, s1: Status) {
    match s0
    case Undefined => s1 == Created
    case Created => s1 == Running || s1 == Aborting || s1 == Null
    case Running => s1 == Paused || s1 == Ready || s1 == Waiting || s1 == Aborting
    case Paused => s1 == Running
    case Ready => s1 == Standby || s1 == Waiting || s1 == Aborting
    case Standby => s1 == Ready
    case Waiting => s1 == Pending || s1 == Aborting
    case Pending => s1 == Aborting || s1 == Concluded
    case Aborting => s1 == Aborting || s1 == Concluded
    case Concluded => s1 == Null
    case Null => false
  }

  /** `JobVerbTable` */
  predicate VerbAllowed(verb: Verb, s: Status) {
    match verb
    case VerbCancel => s in {Created, Running, Paused, Ready, Standby, Waiting, Pending}
    case VerbPause => s in {Created, Running, Paused, Ready, Standby}
    case VerbResume => s in {Created, Running, Paused, Ready, Standby}
    case VerbFinalize => s == Pending
    case VerbDismiss => s == Concluded
  }

  type Group = nat

  /**
   `group` is the group the job was created in, `txn` the one it still belongs to.  `exits` says that
   `job_exit` is scheduled.  `commits` and `aborts` count how often the job was finalised either way,
   `drains` the open drain sections, `spared` that the job called for the finalisation of a group that
   failed in the preparation of another job and has not been cancelled since.  `broken` is set when an
   assertion of the code fails or a transition is requested that the table forbids.
   */
  datatype Job = Job(
    status: Status, started: bool, pauseCount: int, userPaused: bool, drains: nat,
    cancelled: bool, force: bool, deferred: bool, exits: bool, ret: int,
    group: Group, txn: Option<Group>, autoFinalize: bool, autoDismiss: bool,
    commits: nat, aborts: nat, spared: bool, broken: bool)

  const ECANCELED: int := 125

  function Check(j: Job, ok: bool): Job {
    j.(broken := j.broken || !ok)
  }

  /** `job_state_transition_locked` */
  function Move(j: Job, s: Status): Job {
    Check(j, Allowed(j.status, s)).(status := s)
  }

  /** `job_is_completed_locked` */
  predicate Completed(j: Job) {
    j.status in {Waiting, Pending, Aborting, Concluded, Null}
  }

  predicate Finalised(j: Job) {
    j.commits + j.aborts > 0
  }

  // ---------------------------------------------------------------- operations on one job

  /** `job_create` */
  function NewJob(group: Group, autoFinalize: bool, autoDismiss: bool): Job {
    Move(Job(Undefined, false, 1, false, 0, false, false, false, false, 0, group, Some(group),
             autoFinalize, autoDismiss, 0, 0, false, false), Created)
  }

  /** `job_start` */
  function Start(j: Job): Job {
    Move(Check(j, !j.started).(started := true, pauseCount := j.pauseCount - 1), Running)
  }

  /** `job_pause_point_locked` up to the point where it yields. */
  function PausePoint(j: Job): Job {
    Move(j, if j.status == Ready then Standby else Paused)
  }

  /** The rest of `job_pause_point_locked`. */
  function Continue(j: Job): Job {
    Move(j, if j.status == Standby then Ready else Running)
  }

  /** The end of `job_co_entry`. */
  function RunReturned(j: Job, ret: int): Job {
    j.(ret := ret, deferred := true, exits := true)
  }

  /** `job_pause_locked` and `job_resume_locked` */
  function Pause(j: Job): Job {
    j.(pauseCount := j.pauseCount + 1)
  }

  function Resume(j: Job): Job {
    Check(j, j.pauseCount > 0).(pauseCount := j.pauseCount - 1)
  }

  /** `job_update_rc_locked` */
  function UpdateRc(j: Job): (r: Job)
    ensures r.txn == j.txn && r.group == j.group && r.spared == j.spared && (j.broken ==> r.broken)
    ensures r.ret == 0 <==> j.ret == 0 && !j.force
  {
    var j1 := if j.ret == 0 && j.force then j.(ret := -ECANCELED) else j;
    if j1.ret != 0 then Move(j1, Aborting) else j1
  }

  /** `job_do_dismiss_locked` */
  function Dismiss(j: Job): Job {
    Move(j.(deferred := true, txn := None), Null)
  }

  /** `job_conclude_locked` */
  function Conclude(j: Job): Job {
    var j1 := Move(j, Concluded);
    if j1.autoDismiss || !j1.started then Dismiss(j1) else j1
  }

  /** `job_finalize_single_locked` */
  function FinalizeSingle(j: Job): (r: Job)
    ensures r.group == j.group && r.spared == j.spared && (j.broken ==> r.broken)
  {
    var j1 := UpdateRc(Check(j, Completed(j)));
    var j2 := if j1.ret == 0 then j1.(commits := j1.commits + 1) else j1.(aborts := j1.aborts + 1);
    Conclude(j2.(txn := None))
  }

  /** `job_cancel_async_locked`; `force` is what the driver made of the request. */
  function CancelAsync(j: Job, force: bool): (r: Job)
    ensures r.txn == j.txn && r.group == j.group && r.status == j.status && !r.userPaused
    ensures r.started == j.started && r.deferred == j.deferred && r.force == (j.force || force)
  {
    var j1 := if j.userPaused then Resume(j).(userPaused := false) else j;
    if force || !j1.deferred
    then j1.(cancelled := true, force := j1.force || force, spared := j1.spared && !force)
    else j1
  }

  // ---------------------------------------------------------------- what holds of every job

  /** A job that is in the hands of its group. */
  predicate Member(j: Job) {
    j.txn == Some(j.group) && !Finalised(j)
  }

  /** Which fields go with which state; `aborting` says that the job's group is being aborted. */
  predicate Phase(j: Job, aborting: bool) {
    match j.status
    case Undefined => false
    case Created => Member(j) && !j.started && !j.deferred && !j.exits && j.ret == 0 && (j.force ==> aborting)
    case Running => Member(j) && j.started && j.deferred == j.exits && (!j.deferred ==> j.ret == 0)
    case Ready => Member(j) && j.started && j.deferred == j.exits && (!j.deferred ==> j.ret == 0)
    case Paused => Member(j) && j.started && !j.deferred && !j.exits && j.ret == 0
    case Standby => Member(j) && j.started && !j.deferred && !j.exits && j.ret == 0
    case Waiting => Member(j) && j.started && j.deferred && !j.exits && j.ret == 0
    case Pending => Member(j) && j.started && j.deferred && !j.exits && j.ret == 0
    case Aborting => Member(j) && !j.exits && j.ret != 0 && aborting && (j.started ==> j.deferred)
    case Concluded => j.txn == None && !j.exits && j.started && j.deferred && j.commits + j.aborts == 1
    case Null => j.txn == None && !j.exits && j.commits + j.aborts <= 1
  }

  /** In a group that is being aborted every member is doomed: cancelled by force, failed, or spared. */
  predicate Fate(j: Job, aborting: bool) {
    && (j.force ==> j.cancelled)
    && (j.spared ==> aborting && Completed(j) && j.ret == 0 && !j.force)
    && (Member(j) && aborting ==> j.force || (Completed(j) && (j.ret != 0 || (j.spared && j.status == Pending))))
    && (Member(j) && !aborting && Completed(j) ==> !j.force)
    && (j.commits > 0 ==> j.ret == 0 && j.started && j.deferred && (aborting ==> j.spared))
    && (j.aborts > 0 ==> j.ret != 0 && aborting)
  }

  /** `pause_count` counts the reasons to pause. */
  predicate PauseCounts(j: Job) {
    j.pauseCount == (if j.started then 0 else 1) + (if j.userPaused then 1 else 0) + j.drains
  }

  predicate JobOk(j: Job, aborting: bool) {
    !j.broken && PauseCounts(j) && Phase(j, aborting) && Fate(j, aborting)
  }
}
