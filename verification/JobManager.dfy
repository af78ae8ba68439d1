/**
 The loops of `job.c` over the jobs of a group, as the main loop runs them on the list of jobs, and the
 steps of the state machine that they carry out.
 */
module JobManager {
  import opened Options
  import opened Job
  import opened JobGroup
  import opened JobInv
  import opened JobRun

  /** The jobs `ks` after `f` was applied to them. */
  function Apply(jobs: map<JobId, Job>, ks: set<JobId>, f: Job -> Job): map<JobId, Job> {
    map i | i in jobs :: if i in ks then f(jobs[i]) else jobs[i]
  }

  lemma {:induction false} ApplyNone(jobs: map<JobId, Job>, f: Job -> Job)
    ensures Apply(jobs, {}, f) == jobs
  {
  }

  lemma {:induction false} ApplyMore(jobs: map<JobId, Job>, ks: set<JobId>, k: JobId, f: Job -> Job)
    requires k in jobs && k !in ks
    ensures Apply(jobs, ks, f)[k] == jobs[k] && Apply(jobs, ks + {k}, f) == Apply(jobs, ks, f)[k := f(jobs[k])]
  {
  }

  /** `job_prepare_locked` returns 0: there is no error, and the driver's preparation, if any, gives none. */
  predicate PreparedFine(j: Job, code: Option<int>) {
    j.ret == 0 && (code.Some? ==> code.value == 0 && !j.force)
  }

  lemma {:induction false} PreparedIs(j: Job, code: Option<int>)
    ensures j.ret != 0 ==> FailPrepare(j, Code(code)) == j
    ensures j.ret == 0 && code.Some? ==>
      var u := UpdateRc(j.(ret := code.value));
      if PreparedFine(j, code) then u == j else u.ret != 0 && u.(spared := false) == FailPrepare(j, code.value)
  {
    if j.ret == 0 && PreparedFine(j, code) && code.Some? {
      assert j.(ret := code.value) == j;
    }
    hide Allowed;
  }

  /** The driver's error code, if it prepares anything. */
  function Code(code: Option<int>): int {
    if code.Some? then code.value else 0
  }

  /** This is how preparing the group comes out if the drivers' preparations, where there are any, end like this. */
  ghost predicate Fits(s: Sys, t: Group, p: Prepared, prepare: JobId -> Option<int>) {
    match p
    case Fine => forall i :: InGroup(s, i, t) ==> PreparedFine(s.jobs[i], prepare(i))
    case Fails(who, code) =>
      InGroup(s, who, t) && !PreparedFine(s.jobs[who], prepare(who)) && code == Code(prepare(who))
  }

  lemma {:induction false} FitsClean(s: Sys, t: Group, p: Prepared, prepare: JobId -> Option<int>)
    requires Fits(s, t, p, prepare) && forall i :: InGroup(s, i, t) ==> s.jobs[i].ret == 0 && !s.jobs[i].force
    ensures p.Fails? ==> p.code != 0 && InGroup(s, p.who, t)
  {
  }

  class Manager {
    var jobs: map<JobId, Job>
    var aborting: set<Group>

    constructor ()
      ensures View() == Sys(map[], {}) && Inv(View())
    {
      jobs, aborting := map[], {};
    }

    ghost function View(): Sys
      reads this
    {
      Sys(jobs, aborting)
    }

    /** The jobs of the group. */
    function List(t: Group): set<JobId>
      reads this
    {
      set i | i in jobs && jobs[i].txn == Some(t)
    }

    /** A loop over jobs that changes each of them. */
    method ForEach(ks: set<JobId>, f: Job -> Job)
      requires ks <= jobs.Keys
      modifies this`jobs
      ensures jobs == Apply(old(jobs), ks, f)
    {
      var todo := ks;
      ApplyNone(jobs, f);
      assert ks - todo == {};
      while todo != {}
        invariant todo <= ks && jobs == Apply(old(jobs), ks - todo, f)
        decreases |todo|
      {
        var k :| k in todo;
        ApplyMore(old(jobs), ks - todo, k, f);
        jobs := jobs[k := f(jobs[k])];
        assert ks - (todo - {k}) == ks - todo + {k};
        todo := todo - {k};
      }
      assert ks - {} == ks;
    }

    /** `job_completed_txn_abort_locked` up to its waiting loop. */
    method CompletedTxnAbort(k: JobId)
      requires k in jobs && jobs[k].txn.Some?
      modifies this
      ensures View() == AbortGroup(old(View()), k)
    {
      var t := jobs[k].txn.value;
      if t in aborting {
        return;
      }
      aborting := aborting + {t};
      ForEach(List(t) - {k}, j => CancelAsync(j, true));
      assert jobs == AbortGroup(old(View()), k).jobs;
    }

    /** `job_prepare_locked`; `code` is what the driver's preparation gives, if it has one. */
    method PrepareLocked(k: JobId, code: Option<int>) returns (ret: int)
      requires k in jobs
      modifies this`jobs
      ensures ret == 0 <==> PreparedFine(old(jobs)[k], code)
      ensures jobs == if ret == 0 then old(jobs) else old(jobs)[k := FailPrepare(old(jobs)[k], Code(code))]
    {
      hide UpdateRc, FailPrepare;
      var j := jobs[k];
      PreparedIs(j, code);
      assert jobs[k := j] == jobs;
      if j.ret == 0 && code.Some? {
        j := UpdateRc(j.(ret := code.value));
        if j.ret != 0 {
          j := j.(spared := false);
        }
        jobs := jobs[k := j];
      }
      ret := j.ret;
    }

    /** `job_txn_apply_locked(job, job_prepare_locked)`: stops at the first job that has or gets an error. */
    method Prepare(t: Group, prepare: JobId -> Option<int>) returns (p: Prepared)
      modifies this`jobs
      ensures Fits(old(View()), t, p, prepare)
      ensures jobs == if p.Fine? then old(jobs) else old(jobs)[p.who := FailPrepare(old(jobs)[p.who], p.code)]
    {
      hide FailPrepare, PreparedFine;
      var todo := List(t);
      ghost var s := View();
      while todo != {}
        invariant todo <= List(t) && jobs == old(jobs)
        invariant forall i :: i in List(t) - todo ==> PreparedFine(jobs[i], prepare(i))
        decreases |todo|
      {
        var k :| k in todo;
        assert InGroup(View(), k, t);
        var ret := PrepareLocked(k, prepare(k));
        if ret != 0 {
          assert InGroup(s, k, t) && !PreparedFine(s.jobs[k], prepare(k));
          return Fails(k, Code(prepare(k)));
        }
        todo := todo - {k};
      }
      assert forall i :: InGroup(View(), i, t) ==> i in List(t);
      p := Fine;
    }

    /** `job_do_finalize_locked` */
    method DoFinalizeTxn(k: JobId, prepare: JobId -> Option<int>) returns (p: Prepared)
      requires k in jobs && jobs[k].txn.Some?
      requires jobs[k].txn.value !in aborting ==>
        forall i :: InGroup(View(), i, jobs[k].txn.value) ==> jobs[i].ret == 0 && !jobs[i].force
      modifies this
      ensures Fits(old(View()), old(jobs)[k].txn.value, p, prepare)
      ensures View() == DoFinalize(old(View()), k, p)
    {
      hide FinalizeSingle, FailPrepare, AbortGroup;
      var t := jobs[k].txn.value;
      p := Prepare(t, prepare);
      if p.Fails? {
        if t !in aborting && p.who != k {
          jobs := jobs[k := jobs[k].(spared := true)];
        }
        CompletedTxnAbort(k);
      } else {
        ForEach(List(t), j => FinalizeSingle(j));
        assert jobs == AllFinalised(old(View()), t).jobs;
      }
    }

    /** The loop of `job_completed_txn_success_locked` that looks for unfinished jobs. */
    method AllDone(t: Group) returns (done: bool)
      ensures done <==> AllCompleted(View(), t)
    {
      var todo := List(t);
      while todo != {}
        invariant todo <= List(t) && forall i :: i in List(t) - todo ==> Completed(jobs[i])
        decreases |todo|
      {
        var k :| k in todo;
        if !Completed(jobs[k]) {
          return false;
        }
        todo := todo - {k};
      }
      assert forall i :: i in jobs && jobs[i].txn == Some(t) ==> i in List(t);
      done := true;
    }

    /** `job_txn_apply_locked(job, job_needs_finalize_locked)` */
    method AnyNeedsFinalize(t: Group) returns (needs: bool)
      ensures needs <==> NeedsFinalize(View(), t)
    {
      var todo := List(t);
      while todo != {}
        invariant todo <= List(t) && forall i :: i in List(t) - todo ==> jobs[i].autoFinalize
        decreases |todo|
      {
        var k :| k in todo;
        if !jobs[k].autoFinalize {
          return true;
        }
        todo := todo - {k};
      }
      assert forall i :: i in jobs && jobs[i].txn == Some(t) ==> i in List(t);
      needs := false;
    }

    /** `job_completed_txn_success_locked`; `s` is the state before the job's end was noticed. */
    method CompletedTxnSuccess(k: JobId, prepare: JobId -> Option<int>, ghost s: Sys, ghost t: Group)
      returns (p: Prepared)
      requires Inv(s) && InGroup(s, k, t) && t !in s.aborting && s.jobs[k].group == t && s.jobs[k].status != Pending
      requires k in jobs && View() == With(s, k, jobs[k]) && Completing(jobs[k], false)
      requires jobs[k].group == t && jobs[k].txn == Some(t) && jobs[k].ret == 0 && !jobs[k].force
      modifies this
      ensures View() == Success(old(View()), k, p)
      ensures p.Fails? ==> p.code != 0 && InGroup(s, p.who, t)
    {
      hide Inv, JobOk, Completing, Move, DoFinalize, NeedsFinalize, AllCompleted, OthersClean, Completed;
      hide Fits, UpdateRc, FinalizeSingle, Finalised;
      CompletingWell(jobs[k]);
      ghost var w := Move(jobs[k], Waiting);
      ghost var s1 := With(s, k, w);
      WaitingKeeps(s.jobs[k], w);
      OneJob(s, k, w);
      AllClean(s1, t);
      CleanCheck(s1, k, t);
      p := Fine;
      jobs := jobs[k := Move(jobs[k], Waiting)];
      assert View() == s1 && With(old(View()), k, w) == s1;
      var done := AllDone(jobs[k].txn.value);
      if !done {
        return;
      }
      PendingInv(s1, t, k);
      ForEach(List(jobs[k].txn.value), j => Move(j, Pending));
      assert jobs == AllPending(s1, t).jobs;
      PendingKeepsTxn(s1, t);
      var needs := AnyNeedsFinalize(jobs[k].txn.value);
      if !needs {
        PendingClean(View(), t);
        ghost var s3 := View();
        p := DoFinalizeTxn(k, prepare);
        FitsClean(s3, t, p, prepare);
      }
    }

    /** `job_completed_locked` */
    method CompletedLocked(k: JobId, prepare: JobId -> Option<int>, ghost s: Sys, ghost t: Group) returns (p: Prepared)
      requires Inv(s) && InGroup(s, k, t) && s.jobs[k].group == t && s.jobs[k].status != Pending
      requires k in jobs && View() == With(s, k, jobs[k]) && Completing(jobs[k], t in s.aborting)
      requires jobs[k].group == t && jobs[k].txn == Some(t)
      modifies this
      ensures View() == Complete(old(View()), k, p) && Inv(View())
      ensures p.Fails? ==> p.code != 0 && InGroup(s, p.who, t)
    {
      hide Inv, JobOk, Completing, Success, AbortGroup, UpdateRc;
      ghost var j := jobs[k];
      var u := UpdateRc(Check(jobs[k], !Completed(jobs[k])));
      jobs := jobs[k := u];
      p := Fine;
      if u.ret != 0 {
        CompletedTxnAbort(k);
      } else {
        NotAborting(j, t in s.aborting);
        CompletingWell(j);
        assert With(s, k, j) == With(s, k, u);
        p := CompletedTxnSuccess(k, prepare, s, t);
      }
      CompleteInv(s, k, t, j, p);
    }

    /** `job_exit`: a step of the state machine, with preparations that come out as the drivers say. */
    method ExitBh(k: JobId, prepare: JobId -> Option<int>) returns (p: Prepared)
      requires Inv(View()) && k in jobs && jobs[k].exits
      modifies this
      ensures Enabled(old(View()), Exit(k, p)) && View() == Next(old(View()), Exit(k, p)) && Inv(View())
    {
      hide Complete, Completing;
      ghost var s, t := View(), jobs[k].group;
      ExitCompletes(jobs[k], t in aborting);
      jobs := jobs[k := jobs[k].(exits := false)];
      p := CompletedLocked(k, prepare, s, t);
    }

    /** `job_finalize_locked` */
    method FinalizeVerb(k: JobId, prepare: JobId -> Option<int>) returns (p: Prepared)
      requires Inv(View()) && k in jobs && VerbAllowed(VerbFinalize, jobs[k].status)
      modifies this
      ensures Enabled(old(View()), Finalize(k, p)) && View() == Next(old(View()), Finalize(k, p)) && Inv(View())
      ensures Fits(old(View()), old(jobs)[k].group, p, prepare)
    {
      hide DoFinalize, JobOk, Inv;
      PendingGroup(View(), k, jobs[k].group);
      if jobs[k].group !in aborting {
        PendingClean(View(), jobs[k].group);
      }
      p := DoFinalizeTxn(k, prepare);
      UserFinalizeInv(old(View()), k, p);
    }

    /** `job_cancel_locked`; `force` is what the driver made of the request. */
    method CancelLocked(k: JobId, force: bool, prepare: JobId -> Option<int>) returns (p: Prepared)
      requires Inv(View()) && k in jobs && CanCancel(jobs[k]) && (!jobs[k].started ==> force || jobs[k].force)
      modifies this
      ensures Enabled(old(View()), Cancel(k, force, p)) && View() == Next(old(View()), Cancel(k, force, p))
      ensures Inv(View())
    {
      hide JobOk, Completing, CancelAsync, Dismiss, Complete, AbortGroup, Inv;
      ghost var s, t := View(), jobs[k].group;
      OkNow(s, k);
      p := Fine;
      if jobs[k].status == Concluded {
        jobs := jobs[k := Dismiss(jobs[k])];
      } else {
        CancelMember(jobs[k], t in aborting);
        jobs := jobs[k := CancelAsync(jobs[k], force)];
        if !jobs[k].started {
          CancelUnstarted(s.jobs[k], t in aborting, force);
          p := CompletedLocked(k, prepare, s, t);
        } else if jobs[k].deferred {
          if jobs[k].force {
            CompletedTxnAbort(k);
          }
        }
      }
      CancelInv(s, k, force, p);
    }
  }

  /** All jobs of a pending group ended well and none is cancelled by force. */
  lemma {:induction false} PendingClean(s: Sys, t: Group)
    requires Inv(s) && t !in s.aborting && forall i :: InGroup(s, i, t) ==> s.jobs[i].status == Pending
    ensures forall i :: InGroup(s, i, t) ==> s.jobs[i].ret == 0 && !s.jobs[i].force
  {
    hide Inv;
    AllClean(s, t);
  }
}
