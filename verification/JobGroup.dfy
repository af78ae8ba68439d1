/**
 Jobs in transactional groups (`job.c`): a group succeeds as a whole or is aborted as a whole.  A state
 machine over the steps of the main loop, of the jobs' coroutines and of the block layer; the abort of a
 group, which waits for the jobs it has cancelled, is a sequence of steps between which others may happen.
 */
module JobGroup {
  import opened Options
  import opened Job

  type JobId = nat

  /** All jobs ever created, and the groups whose abort has begun. */
  datatype Sys = Sys(jobs: map<JobId, Job>, aborting: set<Group>)

  function Members(s: Sys, t: Group): set<JobId> {
    set k | k in s.jobs && s.jobs[k].txn == Some(t)
  }

  predicate InGroup(s: Sys, k: JobId, t: Group) {
    k in s.jobs && s.jobs[k].txn == Some(t)
  }

  // ---------------------------------------------------------------- group operations

  function With(s: Sys, k: JobId, j: Job): Sys {
    s.(jobs := s.jobs[k := j])
  }

  /** An assertion about job `k` fails. */
  function Fail(s: Sys, k: JobId): Sys
    requires k in s.jobs
  {
    With(s, k, Check(s.jobs[k], false))
  }

  /** `job_completed_txn_abort_locked` up to its waiting loop. */
  function AbortGroup(s: Sys, k: JobId): (r: Sys)
    requires k in s.jobs
    ensures k in r.jobs && (s.jobs[k].broken ==> r.jobs[k].broken)
  {
    if s.jobs[k].txn.None? then Fail(s, k) else
    var t := s.jobs[k].txn.value;
    if t in s.aborting then s
    else
      var jobs := map i | i in s.jobs ::
        if i != k && s.jobs[i].txn == Some(t) then CancelAsync(s.jobs[i], true) else s.jobs[i];
      Sys(jobs, s.aborting + {t})
  }

  predicate AllCompleted(s: Sys, t: Group) {
    forall i :: i in s.jobs && s.jobs[i].txn == Some(t) ==> Completed(s.jobs[i])
  }

  /** `job_transition_to_pending_locked` for every job of the group. */
  function AllPending(s: Sys, t: Group): Sys {
    s.(jobs := map i | i in s.jobs :: if s.jobs[i].txn == Some(t) then Move(s.jobs[i], Pending) else s.jobs[i])
  }

  function AllFinalised(s: Sys, t: Group): Sys {
    s.(jobs := map i | i in s.jobs :: if s.jobs[i].txn == Some(t) then FinalizeSingle(s.jobs[i]) else s.jobs[i])
  }

  /** How preparing the group comes out: every job is fine, or this one fails with this code. */
  datatype Prepared = Fine | Fails(who: JobId, code: int)

  /** `job_prepare_locked` returned an error: the job had one, or its preparation ended with `code`. */
  function FailPrepare(j: Job, code: int): (r: Job)
    ensures r.txn == j.txn && r.group == j.group && (j.broken ==> r.broken)
  {
    if j.ret != 0 then j else UpdateRc(j.(ret := code)).(spared := false)
  }

  /** `job_do_finalize_locked`, called for job `k`. */
  function DoFinalize(s: Sys, k: JobId, p: Prepared): (r: Sys)
    requires k in s.jobs
    ensures k in r.jobs && (s.jobs[k].broken ==> r.jobs[k].broken)
  {
    if s.jobs[k].txn.None? then Fail(s, k) else
    var t := s.jobs[k].txn.value;
    match p
    case Fine => AllFinalised(s, t)
    case Fails(who, code) =>
      if !InGroup(s, who, t) then s
      else
        var s1 := With(s, who, FailPrepare(s.jobs[who], code));
        AbortGroup(if who == k || t in s.aborting then s1 else With(s1, k, s1.jobs[k].(spared := true)), k)
  }

  predicate NeedsFinalize(s: Sys, t: Group) {
    exists i :: i in s.jobs && s.jobs[i].txn == Some(t) && !s.jobs[i].autoFinalize
  }

  /** The jobs of the group that have completed have done so without an error. */
  predicate OthersClean(s: Sys, t: Group) {
    forall i :: i in s.jobs && s.jobs[i].txn == Some(t) && Completed(s.jobs[i]) ==> s.jobs[i].ret == 0
  }

  /** `job_completed_txn_success_locked` */
  function Success(s: Sys, k: JobId, p: Prepared): (r: Sys)
    requires k in s.jobs
    ensures k in r.jobs && (s.jobs[k].broken ==> r.jobs[k].broken)
    ensures !Allowed(s.jobs[k].status, Waiting) ==> r.jobs[k].broken
  {
    if s.jobs[k].txn.None? then Fail(s, k) else
    var t := s.jobs[k].txn.value;
    var s1 := With(s, k, Move(s.jobs[k], Waiting));
    var s2 := With(s1, k, Check(s1.jobs[k], OthersClean(s1, t)));
    if !AllCompleted(s2, t) then s2
    else
      var s3 := AllPending(s2, t);
      if NeedsFinalize(s3, t) then s3 else DoFinalize(s3, k, p)
  }

  /** `job_completed_locked` */
  function Complete(s: Sys, k: JobId, p: Prepared): (r: Sys)
    requires k in s.jobs
    ensures k in r.jobs && (s.jobs[k].broken ==> r.jobs[k].broken)
  {
    if s.jobs[k].txn.None? then Fail(s, k) else
    var j := UpdateRc(Check(s.jobs[k], !Completed(s.jobs[k])));
    var s1 := With(s, k, j);
    if j.ret != 0 then AbortGroup(s1, k) else Success(s1, k, p)
  }

  // ---------------------------------------------------------------- steps

  datatype Step =
    | Create(k: JobId, group: Group, autoFinalize: bool, autoDismiss: bool)
    | EarlyFail(k: JobId)
    | StartJob(k: JobId)
    | YieldPaused(k: JobId)
    | Reenter(k: JobId)
    | BecomeReady(k: JobId)
    | Return(k: JobId, ret: int)
    | Exit(k: JobId, prepared: Prepared)
    | UserPause(k: JobId)
    | UserResume(k: JobId)
    | DrainBegin(k: JobId)
    | DrainEnd(k: JobId)
    | ErrorStop(k: JobId)
    | Cancel(k: JobId, force: bool, prepared: Prepared)
    | Finalize(k: JobId, prepared: Prepared)
    | DismissJob(k: JobId)
    | AbortWait(k: JobId)
    | AbortNext(k: JobId)

  /** The job's coroutine runs. */
  predicate OnCpu(j: Job) {
    j.started && !j.deferred && (j.status == Running || j.status == Ready)
  }

  ghost predicate Enabled(s: Sys, a: Step) {
    if a.Create? then CanCreate(s, a.k, a.group) else a.k in s.jobs && JobEnabled(s, s.jobs[a.k], a)
  }

  /** A job joins a group before any job of the group is pending or done. */
  predicate CanCreate(s: Sys, k: JobId, t: Group) {
    && k !in s.jobs && t !in s.aborting
    && forall i :: i in s.jobs && s.jobs[i].group == t ==> s.jobs[i].status != Pending && !Finalised(s.jobs[i])
  }

  ghost predicate JobEnabled(s: Sys, j: Job, a: Step) {
    match a
    case Create(_, _, _, _) => false
    case EarlyFail(_) => j.status == Created
    case StartJob(_) => j.status == Created
    case YieldPaused(_) => OnCpu(j) && j.pauseCount > 0 && !j.force
    case Reenter(_) => j.status == Paused || j.status == Standby
    case BecomeReady(_) => OnCpu(j) && j.status == Running  // the driver reports ready once
    case Return(_, _) => OnCpu(j)
    case Exit(_, p) => j.exits && GoodPrepared(s, j, p)
    case UserPause(_) => VerbAllowed(VerbPause, j.status) && !j.userPaused
    case UserResume(_) => j.userPaused && j.pauseCount > 0 && VerbAllowed(VerbResume, j.status)
    case DrainBegin(_) => true
    case DrainEnd(_) => j.drains > 0
    case ErrorStop(_) => j.started && !j.deferred && !j.userPaused
    case Cancel(_, force, p) =>
      && CanCancel(j)
      && (!j.started ==> force || j.force) && GoodPrepared(s, j, p)  // drivers cancel unstarted jobs by force
    case Finalize(_, p) => VerbAllowed(VerbFinalize, j.status) && PreparedAs(s, j, p)
    case DismissJob(_) => VerbAllowed(VerbDismiss, j.status)
    case AbortWait(_) => j.txn.Some? && j.txn.value in s.aborting && !Completed(j)
    case AbortNext(_) => j.txn.Some? && j.txn.value in s.aborting && Completed(j)
  }

  /** The user may cancel, and so may others, concluded and aborting jobs too; but see `JobAbort.CancelTwice`. */
  predicate CanCancel(j: Job) {
    VerbAllowed(VerbCancel, j.status) || j.status == Concluded || (j.status == Aborting && j.started)
  }

  /** If the step goes on to finalise the group, the jobs are prepared like this. */
  predicate GoodPrepared(s: Sys, j: Job, p: Prepared) {
    p.Fails? ==> p.code != 0 && j.txn.Some? && InGroup(s, p.who, j.txn.value)
  }

  /** How preparing the group may come out: no job has or gets an error, or `who` is the first that does. */
  ghost predicate PreparedAs(s: Sys, j: Job, p: Prepared) {
    j.txn.Some? &&
    match p
    case Fine => forall i :: InGroup(s, i, j.txn.value) ==> s.jobs[i].ret == 0
    case Fails(who, code) => InGroup(s, who, j.txn.value) && (s.jobs[who].ret != 0 || code != 0 || s.jobs[who].force)
  }

  function Next(s: Sys, a: Step): Sys
    requires Enabled(s, a)
  {
    match a
    case Create(k, t, autoFinalize, autoDismiss) => With(s, k, NewJob(t, autoFinalize, autoDismiss))
    case EarlyFail(k) => With(s, k, Dismiss(s.jobs[k]))
    case StartJob(k) => With(s, k, Start(s.jobs[k]))
    case YieldPaused(k) => With(s, k, PausePoint(s.jobs[k]))
    case Reenter(k) => With(s, k, Continue(s.jobs[k]))
    case BecomeReady(k) => With(s, k, Move(s.jobs[k], Ready))
    case Return(k, ret) => With(s, k, RunReturned(s.jobs[k], ret))
    case Exit(k, p) => Complete(With(s, k, s.jobs[k].(exits := false)), k, p)
    case UserPause(k) => With(s, k, Pause(s.jobs[k]).(userPaused := true))
    case UserResume(k) => With(s, k, Resume(s.jobs[k]).(userPaused := false))
    case DrainBegin(k) => With(s, k, Pause(s.jobs[k]).(drains := s.jobs[k].drains + 1))
    case DrainEnd(k) => With(s, k, Resume(s.jobs[k]).(drains := s.jobs[k].drains - 1))
    case ErrorStop(k) => With(s, k, Pause(s.jobs[k]).(userPaused := true))
    case Cancel(k, force, p) => CancelJob(s, k, force, p)
    case Finalize(k, p) => DoFinalize(s, k, p)
    case DismissJob(k) => With(s, k, Dismiss(s.jobs[k]))
    case AbortWait(k) => With(s, k, Check(s.jobs[k], s.jobs[k].cancelled))
    case AbortNext(k) => With(s, k, FinalizeSingle(s.jobs[k]))
  }

  /** `job_cancel_locked`; `force` is what the driver made of the request. */
  function CancelJob(s: Sys, k: JobId, force: bool, p: Prepared): (r: Sys)
    requires k in s.jobs
    ensures k in r.jobs && (s.jobs[k].broken ==> r.jobs[k].broken)
  {
    var j := s.jobs[k];
    if j.status == Concluded then With(s, k, Dismiss(j))
    else
      var j1 := CancelAsync(j, force);
      var s1 := With(s, k, j1);
      if !j1.started then Complete(s1, k, p)
      else if j1.deferred then (if j1.force then AbortGroup(s1, k) else s1)
      else s1
  }

  // ---------------------------------------------------------------- the invariant

  /** Two jobs of one group of which the first is pending: the other has completed, too. */
  predicate Abreast(i: Job, k: Job, aborting: bool) {
    i.status == Pending ==> Completed(k) && (!aborting ==> k.status == Pending)
  }

  /** A job becomes pending only together with all jobs of its group. */
  ghost predicate PendingTogether(s: Sys) {
    forall i, k :: i in s.jobs && InGroup(s, k, s.jobs[i].group) ==>
      Abreast(s.jobs[i], s.jobs[k], s.jobs[i].group in s.aborting)
  }

  /** Outside an abort the jobs of a group are finalised together. */
  ghost predicate FinalisedTogether(s: Sys) {
    forall i, k :: i in s.jobs && Finalised(s.jobs[i]) && s.jobs[i].group !in s.aborting ==>
      !InGroup(s, k, s.jobs[i].group)
  }

  ghost predicate JobsOk(s: Sys) {
    forall k :: k in s.jobs ==> JobOk(s.jobs[k], s.jobs[k].group in s.aborting)
  }

  ghost predicate Inv(s: Sys) {
    JobsOk(s) && PendingTogether(s) && FinalisedTogether(s)
  }

  lemma {:induction false} OkNow(s: Sys, k: JobId)
    requires Inv(s) && k in s.jobs
    ensures JobOk(s.jobs[k], s.jobs[k].group in s.aborting)
  {
  }
}
