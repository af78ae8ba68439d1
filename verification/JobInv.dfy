/**
 What every run of jobs keeps: no forbidden transition is requested, `pause_count` counts the reasons to
 pause, jobs of a group become pending and are finalised together, and an abort spares nobody who did not
 ask for the finalisation.
 */
module JobInv {
  import opened Options
  import opened Job
  import opened JobGroup

  // ---------------------------------------------------------------- one job

  /** What a change of one job may do without touching its group. */
  predicate Modest(j: Job, j': Job, aborting: bool) {
    && j'.group == j.group && (j'.txn == j.txn || j'.txn == None)
    && (j'.status == Pending ==> j.status == Pending)
    && (j.status == Pending && !aborting && j'.txn.Some? ==> j'.status == Pending)
    && (Completed(j) && j'.txn.Some? ==> Completed(j'))
    && (Finalised(j') && !aborting ==> Finalised(j))
  }

  lemma {:induction false} TxnIsGroup(j: Job, aborting: bool)
    requires JobOk(j, aborting)
    ensures j.txn == None || (j.txn == Some(j.group) && Member(j))
  {
  }

  lemma {:induction false} OneJob(s: Sys, k: JobId, j': Job)
    requires Inv(s) && k in s.jobs && JobOk(j', s.jobs[k].group in s.aborting)
    requires Modest(s.jobs[k], j', s.jobs[k].group in s.aborting)
    ensures Inv(With(s, k, j'))
  {
    hide JobOk, Finalised, Completed;
    var s' := With(s, k, j');
    forall i, m | i in s'.jobs && InGroup(s', m, s'.jobs[i].group)
      ensures Abreast(s'.jobs[i], s'.jobs[m], s'.jobs[i].group in s'.aborting)
    {
      assert InGroup(s, m, s.jobs[i].group);
      TxnIsGroup(s.jobs[m], s.jobs[m].group in s.aborting);
    }
    forall i, m | i in s'.jobs && Finalised(s'.jobs[i]) && s'.jobs[i].group !in s'.aborting
      ensures !InGroup(s', m, s'.jobs[i].group)
    {
      assert !InGroup(s, m, s.jobs[i].group);
    }
  }

  /** A step of one job that keeps it in order. */
  predicate Keeps(j: Job, j': Job, aborting: bool) {
    JobOk(j', aborting) && Modest(j, j', aborting)
  }

  lemma {:induction false} StartStep(j: Job, aborting: bool)
    requires JobOk(j, aborting) && j.status == Created
    ensures Keeps(j, Start(j), aborting)
  {
  }

  lemma {:induction false} DismissStep(j: Job, aborting: bool)
    requires JobOk(j, aborting) && (j.status == Concluded || j.status == Created)
    ensures Keeps(j, Dismiss(j), aborting)
  {
  }

  lemma {:induction false} PausePointStep(j: Job, aborting: bool)
    requires JobOk(j, aborting) && OnCpu(j) && !j.force
    ensures Keeps(j, PausePoint(j), aborting)
  {
  }

  lemma {:induction false} ContinueStep(j: Job, aborting: bool)
    requires JobOk(j, aborting) && (j.status == Paused || j.status == Standby)
    ensures Keeps(j, Continue(j), aborting)
  {
  }

  lemma {:induction false} ReadyStep(j: Job, aborting: bool)
    requires JobOk(j, aborting) && OnCpu(j) && j.status == Running
    ensures Keeps(j, Move(j, Ready), aborting)
  {
  }

  /** Nothing but the count of the reasons to pause changes. */
  lemma {:induction false} CountStep(j: Job, aborting: bool, count: int, userPaused: bool, drains: nat)
    requires JobOk(j, aborting) && PauseCounts(j.(pauseCount := count, userPaused := userPaused, drains := drains))
    ensures Keeps(j, j.(pauseCount := count, userPaused := userPaused, drains := drains), aborting)
  {
    var j' := j.(pauseCount := count, userPaused := userPaused, drains := drains);
    assert Phase(j', aborting) == Phase(j, aborting);
    assert Fate(j', aborting) == Fate(j, aborting);
  }

  lemma {:induction false} ReturnStep(j: Job, aborting: bool, ret: int)
    requires JobOk(j, aborting) && OnCpu(j)
    ensures Keeps(j, RunReturned(j, ret), aborting)
  {
  }

  lemma {:induction false} UpdateRcStep(j: Job)
    requires JobOk(j, true) && Member(j) && Completed(j)
    ensures var u := UpdateRc(Check(j, Completed(j)));
            if j.spared then u == j else u.ret != 0 && u == j.(ret := u.ret, status := Aborting)
  {
  }

  lemma {:induction false} ConcludeStep(j: Job)
    requires !j.broken && PauseCounts(j) && (j.force ==> j.cancelled) && !j.exits && j.txn == None
    requires j.started ==> j.deferred
    requires if j.spared
             then j.commits == 1 && j.aborts == 0 && j.ret == 0 && !j.force && j.status == Pending && j.started
             else j.commits == 0 && j.aborts == 1 && j.ret != 0 && j.status == Aborting
    ensures var j' := Conclude(j);
            && JobOk(j', true) && j'.txn == None && j'.group == j.group && j'.spared == j.spared && j'.status != Pending
            && j'.commits == j.commits && j'.aborts == j.aborts && j'.ret == j.ret
  {
  }

  /** Finalising a member of a group that is being aborted: it aborts, unless it was spared. */
  lemma {:induction false} AbortStep(j: Job)
    requires JobOk(j, true) && Member(j) && Completed(j)
    ensures var j' := FinalizeSingle(j);
            && Keeps(j, j', true) && j'.txn == None && j'.spared == j.spared
            && (if j.spared then j'.commits == 1 && j'.aborts == 0 && j'.ret == 0
                else j'.commits == 0 && j'.aborts == 1 && j'.ret != 0)
  {
    hide Check, UpdateRc, Conclude;
    var u := UpdateRc(Check(j, Completed(j)));
    UpdateRcStep(j);
    var j2 := if u.ret == 0 then u.(commits := u.commits + 1) else u.(aborts := u.aborts + 1);
    ConcludeStep(j2.(txn := None));
  }

  /** Being cancelled by the abort of the group. */
  lemma {:induction false} CancelledMember(j: Job)
    requires Member(j) && (JobOk(j, false) || (JobOk(j, true) && !j.spared))
    ensures JobOk(CancelAsync(j, true), true)
  {
  }

  /** A cancel that does not begin an abort, seen on the job alone. */
  lemma {:induction false} CancelStep(j: Job, force: bool, aborting: bool)
    requires JobOk(j, aborting) && Member(j) && j.started && (aborting || !(j.deferred && (force || j.force)))
    ensures Keeps(j, CancelAsync(j, force), aborting)
  {
  }

  /** The waiting loop finds an unfinished job cancelled. */
  lemma {:induction false} WaitStep(j: Job)
    requires JobOk(j, true) && Member(j) && !Completed(j)
    ensures j.cancelled && Check(j, j.cancelled) == j && Keeps(j, j, true)
  {
  }

  // ---------------------------------------------------------------- groups

  lemma {:induction false} GoneBefore(j: Job)
    requires JobOk(j, false) && j.txn == None && !Finalised(j)
    ensures JobOk(j, true)
  {
  }

  /** `s` differs from `s0` in jobs of group `t` only, and these are ready to be aborted. */
  ghost predicate Doomed(s0: Sys, s: Sys, k: JobId, t: Group) {
    && s.aborting == s0.aborting && s.jobs.Keys == s0.jobs.Keys
    && k in s.jobs && JobOk(s.jobs[k], true)
    && (forall i :: i in s.jobs ==> s.jobs[i].group == s0.jobs[i].group && s.jobs[i].txn == s0.jobs[i].txn)
    && (forall i :: i in s.jobs ==> s.jobs[i].status == s0.jobs[i].status || s.jobs[i].status == Aborting)
    && (forall i :: i in s.jobs && s0.jobs[i].txn != Some(t) ==> s.jobs[i] == s0.jobs[i])
    && (forall i :: i in s.jobs && i != k && s0.jobs[i].txn == Some(t) ==>
          s.jobs[i] == s0.jobs[i] || (JobOk(s.jobs[i], true) && Member(s.jobs[i]) && !s.jobs[i].spared))
  }

  lemma {:induction false} AbortedJobOk(s0: Sys, s: Sys, k: JobId, t: Group, i: JobId)
    requires Inv(s0) && InGroup(s0, k, t) && t !in s0.aborting && Doomed(s0, s, k, t) && i in s.jobs
    ensures var s' := AbortGroup(s, k); i in s'.jobs && JobOk(s'.jobs[i], s'.jobs[i].group in s'.aborting)
  {
    hide JobOk, CancelAsync;
    TxnIsGroup(s0.jobs[i], s0.jobs[i].group in s0.aborting);
    TxnIsGroup(s0.jobs[k], s0.jobs[k].group in s0.aborting);
    if i != k && s0.jobs[i].txn == Some(t) {
      CancelledMember(s.jobs[i]);
    } else if i != k && s0.jobs[i].group == t {
      assert !Finalised(s0.jobs[i]);
      GoneBefore(s.jobs[i]);
    }
  }

  /** The abort of a group begins: all its jobs are doomed from now on. */
  lemma {:induction false} AbortInv(s0: Sys, s: Sys, k: JobId, t: Group)
    requires Inv(s0) && InGroup(s0, k, t) && t !in s0.aborting && Doomed(s0, s, k, t)
    ensures Inv(AbortGroup(s, k)) && AbortGroup(s, k).aborting == s0.aborting + {t}
  {
    var s' := AbortGroup(s, k);
    forall i | i in s'.jobs
      ensures JobOk(s'.jobs[i], s'.jobs[i].group in s'.aborting)
    {
      hide JobOk, Inv, Doomed, AbortGroup;
      AbortedJobOk(s0, s, k, t, i);
    }
    hide JobOk, Inv;
    AbortElsewhere(s0, s, k, t);
    AbortAbreast(s0, s, k, t);
    Elsewhere(s0, s', t);
  }

  lemma {:induction false} AbortElsewhere(s0: Sys, s: Sys, k: JobId, t: Group)
    requires Inv(s0) && InGroup(s0, k, t) && t !in s0.aborting && Doomed(s0, s, k, t)
    ensures var s' := AbortGroup(s, k);
            s'.jobs.Keys == s0.jobs.Keys && forall i :: i in s'.jobs ==>
              s'.jobs[i].group == s0.jobs[i].group && (s0.jobs[i].group != t ==> s'.jobs[i] == s0.jobs[i])
  {
    hide JobOk, CancelAsync, Inv;
    forall i | i in s0.jobs
      ensures s0.jobs[i].group != t ==> s0.jobs[i].txn != Some(t)
    {
      OkNow(s0, i);
      TxnIsGroup(s0.jobs[i], s0.jobs[i].group in s0.aborting);
    }
  }

  lemma {:induction false} AbortAbreast(s0: Sys, s: Sys, k: JobId, t: Group)
    requires Inv(s0) && InGroup(s0, k, t) && t !in s0.aborting && Doomed(s0, s, k, t)
    ensures var s' := AbortGroup(s, k);
            forall i, m :: i in s'.jobs && s'.jobs[i].group == t && InGroup(s', m, t) ==>
              Abreast(s'.jobs[i], s'.jobs[m], true)
  {
    hide JobOk, CancelAsync, Abreast, FinalisedTogether;
    var s' := AbortGroup(s, k);
    AbortKeepsStatus(s, k);
    forall i, m | i in s'.jobs && s'.jobs[i].group == t && InGroup(s', m, t)
      ensures Abreast(s'.jobs[i], s'.jobs[m], true)
    {
      assert InGroup(s0, m, s0.jobs[i].group);
      StillAbreast(s0.jobs[i], s0.jobs[m], s'.jobs[i], s'.jobs[m]);
    }
  }

  lemma {:induction false} StillAbreast(i: Job, k: Job, i': Job, k': Job)
    requires Abreast(i, k, false)
    requires (i'.status == i.status || i'.status == Aborting) && (k'.status == k.status || k'.status == Aborting)
    ensures Abreast(i', k', true)
  {
  }

  lemma {:induction false} AbortKeepsStatus(s: Sys, k: JobId)
    requires k in s.jobs
    ensures AbortGroup(s, k).jobs.Keys == s.jobs.Keys
    ensures forall i :: i in s.jobs ==> AbortGroup(s, k).jobs[i].status == s.jobs[i].status
  {
    hide CancelAsync;
  }

  /** Nothing changed outside group `t`, and `t` is being aborted or has no member left. */
  lemma {:induction false} Elsewhere(s0: Sys, s: Sys, t: Group)
    requires Inv(s0) && JobsOk(s) && s.jobs.Keys == s0.jobs.Keys
    requires s.aborting <= s0.aborting + {t} && s0.aborting <= s.aborting
    requires forall i :: i in s.jobs ==>
      s.jobs[i].group == s0.jobs[i].group && (s0.jobs[i].group != t ==> s.jobs[i] == s0.jobs[i])
    requires t in s.aborting || forall i :: !InGroup(s, i, t)
    requires forall i, m :: i in s.jobs && s.jobs[i].group == t && InGroup(s, m, t) ==>
      Abreast(s.jobs[i], s.jobs[m], true)
    ensures Inv(s)
  {
    hide JobOk, Finalised, Abreast;
    forall i, m | i in s.jobs && InGroup(s, m, s.jobs[i].group)
      ensures s.jobs[i].group != t ==> s.jobs[m] == s0.jobs[m] && InGroup(s0, m, s0.jobs[i].group)
    {
      TxnIsGroup(s.jobs[m], s.jobs[m].group in s.aborting);
    }
  }

  lemma {:induction false} PendingStep(j: Job)
    requires JobOk(j, false) && Member(j) && Completed(j) && j.status != Pending
    ensures j.status == Waiting && j.ret == 0 && JobOk(Move(j, Pending), false)
    ensures Finalised(Move(j, Pending)) <==> Finalised(j)
  {
  }

  lemma {:induction false} PendingJob(s: Sys, t: Group, k: JobId, i: JobId)
    requires Inv(s) && t !in s.aborting && AllCompleted(s, t) && InGroup(s, k, t) && s.jobs[k].status == Waiting
    requires InGroup(s, i, t)
    ensures s.jobs[i].status == Waiting && s.jobs[i].group == t
    ensures var j' := Move(s.jobs[i], Pending); JobOk(j', false) && (Finalised(j') <==> Finalised(s.jobs[i]))
  {
    hide JobOk, Finalised, Completed;
    TxnIsGroup(s.jobs[i], s.jobs[i].group in s.aborting);
    assert InGroup(s, k, s.jobs[i].group);
    PendingStep(s.jobs[i]);
  }

  /** The last job of a group has completed: all become pending, and all have ended well. */
  lemma {:induction false} PendingInv(s: Sys, t: Group, k: JobId)
    requires Inv(s) && t !in s.aborting && AllCompleted(s, t) && InGroup(s, k, t) && s.jobs[k].status == Waiting
    ensures Inv(AllPending(s, t))
    ensures forall i :: InGroup(s, i, t) ==> s.jobs[i].status == Waiting && AllPending(s, t).jobs[i].status == Pending
  {
    hide JobOk, Finalised, Completed;
    var s' := AllPending(s, t);
    forall i | InGroup(s, i, t)
      ensures s.jobs[i].status == Waiting && JobOk(s'.jobs[i], false) && s.jobs[i].group == t
      ensures Finalised(s'.jobs[i]) <==> Finalised(s.jobs[i])
    {
      PendingJob(s, t, k, i);
    }
    hide AllCompleted;
    assert forall i :: i in s.jobs ==> s'.jobs[i].group == s.jobs[i].group && s'.jobs[i].txn == s.jobs[i].txn;
    forall i, m | i in s'.jobs && InGroup(s', m, s'.jobs[i].group)
      ensures Abreast(s'.jobs[i], s'.jobs[m], s'.jobs[i].group in s'.aborting)
    {
      assert InGroup(s, m, s.jobs[i].group);
      PendingIsCompleted(s'.jobs[m]);
    }
    SameFinalised(s, s');
  }

  lemma {:induction false} PendingIsCompleted(j: Job)
    ensures j.status == Pending || j.status == Aborting ==> Completed(j)
  {
  }

  lemma {:induction false} SameFinalised(s: Sys, s': Sys)
    requires FinalisedTogether(s) && s'.aborting == s.aborting && s'.jobs.Keys == s.jobs.Keys
    requires forall i :: i in s.jobs ==>
      && s'.jobs[i].group == s.jobs[i].group && s'.jobs[i].txn == s.jobs[i].txn
      && (Finalised(s'.jobs[i]) <==> Finalised(s.jobs[i]))
    ensures FinalisedTogether(s')
  {
    hide Finalised;
    forall i, m | i in s'.jobs && Finalised(s'.jobs[i]) && s'.jobs[i].group !in s'.aborting
      ensures !InGroup(s', m, s'.jobs[i].group)
    {
      assert !InGroup(s, m, s.jobs[i].group);
    }
  }

  /** The job has been finalised, with a commit. */
  predicate Committed(j: Job) {
    j.txn == None && j.commits == 1 && j.aborts == 0 && j.ret == 0 && (j.status == Concluded || j.status == Null)
  }

  lemma {:induction false} CommitStep(j: Job)
    requires JobOk(j, false) && Member(j) && j.status == Pending
    ensures var j' := FinalizeSingle(j); JobOk(j', false) && j'.group == j.group && Committed(j')
  {
    assert UpdateRc(Check(j, Completed(j))) == j;
    hide UpdateRc;
  }

  /** Every preparation went well: every job of the group commits, once. */
  lemma {:induction false} FinaliseInv(s: Sys, t: Group)
    requires Inv(s) && t !in s.aborting && forall i :: InGroup(s, i, t) ==> s.jobs[i].status == Pending
    ensures Inv(AllFinalised(s, t))
    ensures forall i :: InGroup(s, i, t) ==> Committed(AllFinalised(s, t).jobs[i])
  {
    hide JobOk, FinalizeSingle;
    var s' := AllFinalised(s, t);
    forall i | i in s.jobs
      ensures JobOk(s'.jobs[i], s'.jobs[i].group in s'.aborting) && s'.jobs[i].group == s.jobs[i].group
      ensures s.jobs[i].group != t ==> s'.jobs[i] == s.jobs[i]
      ensures InGroup(s, i, t) ==> Committed(s'.jobs[i])
    {
      TxnIsGroup(s.jobs[i], s.jobs[i].group in s.aborting);
      if InGroup(s, i, t) {
        CommitStep(s.jobs[i]);
      }
    }
    Elsewhere(s, s', t);
  }

  /** The same when the abort of the group has begun: the jobs end as the abort ends them. */
  lemma {:induction false} FinaliseAbortedInv(s: Sys, t: Group)
    requires Inv(s) && t in s.aborting && forall i :: InGroup(s, i, t) ==> Completed(s.jobs[i])
    ensures Inv(AllFinalised(s, t)) && forall i :: !InGroup(AllFinalised(s, t), i, t)
  {
    hide JobOk, FinalizeSingle, Completed;
    var s' := AllFinalised(s, t);
    forall i | i in s.jobs
      ensures JobOk(s'.jobs[i], s'.jobs[i].group in s'.aborting) && s'.jobs[i].group == s.jobs[i].group
      ensures s.jobs[i].group != t ==> s'.jobs[i] == s.jobs[i]
      ensures s'.jobs[i].txn != Some(t)
    {
      TxnIsGroup(s.jobs[i], s.jobs[i].group in s.aborting);
      if InGroup(s, i, t) {
        AbortStep(s.jobs[i]);
      }
    }
    Elsewhere(s, s', t);
  }

  lemma {:induction false} FailStep(j: Job, code: int)
    requires JobOk(j, false) && Member(j) && j.status == Pending && code != 0
    ensures var f := FailPrepare(j, code); JobOk(f, true) && Member(f) && !f.spared && f.status == Aborting
  {
  }

  lemma {:induction false} FailAbortedStep(j: Job, code: int)
    requires JobOk(j, true) && Member(j) && Completed(j) && (j.ret != 0 || code != 0 || j.force)
    ensures Keeps(j, FailPrepare(j, code), true)
  {
    if j.ret == 0 {
      var f := j.(ret := if code == 0 then -ECANCELED else code, spared := false, status := Aborting);
      assert Allowed(j.status, Aborting);
      assert FailPrepare(j, code) == f;
      hide FailPrepare, UpdateRc, Completed;
      assert Phase(f, true) && Fate(f, true);
    }
  }

  lemma {:induction false} SpareStep(j: Job)
    requires JobOk(j, false) && Member(j) && j.status == Pending
    ensures JobOk(j.(spared := true), true)
  {
  }

  lemma {:induction false} DoomedOne(s: Sys, k: JobId, t: Group, j: Job)
    requires k in s.jobs && j.group == s.jobs[k].group && j.txn == s.jobs[k].txn && InGroup(s, k, t) && JobOk(j, true)
    requires j.status == s.jobs[k].status || j.status == Aborting
    ensures Doomed(s, With(s, k, j), k, t)
  {
    hide JobOk;
  }

  lemma {:induction false} DoomedTwo(s: Sys, k: JobId, t: Group, j: Job, who: JobId, j': Job)
    requires InGroup(s, k, t) && InGroup(s, who, t) && who != k
    requires j.group == s.jobs[k].group && j.txn == s.jobs[k].txn && JobOk(j, true) && j.status == s.jobs[k].status
    requires j'.group == s.jobs[who].group && j'.txn == s.jobs[who].txn && JobOk(j', true) && Member(j')
    requires !j'.spared && j'.status == Aborting
    ensures Doomed(s, With(With(s, who, j'), k, j), k, t)
  {
    hide JobOk;
  }

  /** A preparation failed: the group is aborted, but a caller that was fine itself is spared. */
  lemma {:induction false} FailInv(s: Sys, k: JobId, t: Group, who: JobId, code: int)
    requires Inv(s) && t !in s.aborting && InGroup(s, k, t) && InGroup(s, who, t) && code != 0
    requires forall i :: InGroup(s, i, t) ==> s.jobs[i].status == Pending
    ensures Inv(DoFinalize(s, k, Fails(who, code)))
  {
    hide JobOk, FailPrepare, AbortGroup, Doomed, Inv;
    OkNow(s, k);
    OkNow(s, who);
    TxnIsGroup(s.jobs[k], s.jobs[k].group in s.aborting);
    TxnIsGroup(s.jobs[who], s.jobs[who].group in s.aborting);
    FailStep(s.jobs[who], code);
    if who == k {
      DoomedOne(s, k, t, FailPrepare(s.jobs[k], code));
      AbortInv(s, With(s, k, FailPrepare(s.jobs[k], code)), k, t);
    } else {
      SpareStep(s.jobs[k]);
      DoomedTwo(s, k, t, s.jobs[k].(spared := true), who, FailPrepare(s.jobs[who], code));
      AbortInv(s, With(With(s, who, FailPrepare(s.jobs[who], code)), k, s.jobs[k].(spared := true)), k, t);
    }
  }

  /** Finalising a group all of whose jobs are pending, called for job `k`. */
  lemma {:induction false} FinalizeInv(s: Sys, k: JobId, t: Group, p: Prepared)
    requires Inv(s) && InGroup(s, k, t) && t !in s.aborting
    requires forall i :: InGroup(s, i, t) ==> s.jobs[i].status == Pending
    requires p.Fails? ==> p.code != 0 && InGroup(s, p.who, t)
    ensures Inv(DoFinalize(s, k, p))
  {
    if p.Fails? {
      FailInv(s, k, t, p.who, p.code);
    } else {
      FinaliseInv(s, t);
    }
  }

  /** Finalising a group that is being aborted and all of whose jobs have completed. */
  lemma {:induction false} FinalizeAbortedInv(s: Sys, k: JobId, t: Group, p: Prepared)
    requires Inv(s) && InGroup(s, k, t) && t in s.aborting && forall i :: InGroup(s, i, t) ==> Completed(s.jobs[i])
    requires p.Fails? ==> InGroup(s, p.who, t) && (s.jobs[p.who].ret != 0 || p.code != 0 || s.jobs[p.who].force)
    ensures Inv(DoFinalize(s, k, p))
  {
    hide JobOk, FailPrepare, FinalizeSingle, Completed;
    if p.Fails? {
      var j := s.jobs[p.who];
      TxnIsGroup(j, j.group in s.aborting);
      FailAbortedStep(j, p.code);
      OneJob(s, p.who, FailPrepare(j, p.code));
    } else {
      FinaliseAbortedInv(s, t);
    }
  }

  // ---------------------------------------------------------------- completion

  /** A member whose end is about to be noticed: its run has returned, or it is cancelled before it started. */
  predicate Completing(j: Job, aborting: bool) {
    && !j.broken && PauseCounts(j) && Member(j) && !j.exits && !j.spared && (j.force ==> j.cancelled)
    && (if j.started then j.deferred && (j.status == Running || j.status == Ready) else j.status == Created && j.force)
    && (aborting ==> j.force || j.ret != 0)
  }

  lemma {:induction false} CompletingFails(j: Job, aborting: bool)
    requires Completing(j, aborting) && (j.ret != 0 || j.force)
    ensures var u := UpdateRc(Check(j, !Completed(j)));
            JobOk(u, true) && u.ret != 0 && u.status == Aborting && !Finalised(u) && u.txn == j.txn
                && u.group == j.group
  {
    var u := j.(ret := if j.ret == 0 then -ECANCELED else j.ret, status := Aborting);
    assert !Completed(j) && Allowed(j.status, Aborting);
    assert UpdateRc(Check(j, !Completed(j))) == u;
    hide UpdateRc, Check, Completed;
    assert Phase(u, true) && Fate(u, true);
  }

  lemma {:induction false} CompletingWell(j: Job)
    requires Completing(j, false) && j.ret == 0 && !j.force
    ensures UpdateRc(Check(j, !Completed(j))) == j && j.started
    ensures var w := Move(j, Waiting);
            JobOk(w, false) && w.status == Waiting && !Finalised(w) && w.txn == j.txn && w.group == j.group
  {
  }

  lemma {:induction false} SuccessInv(s: Sys, k: JobId, t: Group, j: Job, p: Prepared)
    requires Inv(s) && InGroup(s, k, t) && t !in s.aborting && Completing(j, false) && j.ret == 0 && !j.force
    requires j.group == t && j.txn == Some(t) && s.jobs[k].group == t && s.jobs[k].status != Pending
    requires p.Fails? ==> p.code != 0 && InGroup(s, p.who, t)
    ensures Inv(Success(With(s, k, j), k, p))
  {
    hide JobOk, Completing, Move, FinalizeSingle, UpdateRc, Finalised, Inv, AllCompleted, OthersClean;
    hide Completed, DoFinalize;
    CompletingWell(j);
    var w := Move(j, Waiting);
    var s1 := With(s, k, w);
    assert With(With(s, k, j), k, w) == s1;
    WaitingKeeps(s.jobs[k], w);
    OneJob(s, k, w);
    AllClean(s1, t);
    CleanCheck(s1, k, t);
    if AllCompleted(s1, t) {
      PendingInv(s1, t, k);
      PendingKeepsTxn(s1, t);
      if !NeedsFinalize(AllPending(s1, t), t) {
        FinalizeInv(AllPending(s1, t), k, t, p);
      }
    }
  }

  lemma {:induction false} WaitingKeeps(j: Job, w: Job)
    requires w.status == Waiting && !Finalised(w) && w.txn == j.txn && w.group == j.group && j.status != Pending
    ensures Modest(j, w, false)
  {
  }

  /** Outside an abort, completed jobs have ended well. */
  lemma {:induction false} AllClean(s: Sys, t: Group)
    requires Inv(s) && t !in s.aborting
    ensures OthersClean(s, t)
    ensures forall i :: InGroup(s, i, t) && Completed(s.jobs[i]) ==> s.jobs[i].ret == 0 && !s.jobs[i].force
  {
    hide JobOk, Completed;
    forall i | InGroup(s, i, t) && Completed(s.jobs[i])
      ensures s.jobs[i].ret == 0 && !s.jobs[i].force
    {
      OkNow(s, i);
      TxnIsGroup(s.jobs[i], s.jobs[i].group in s.aborting);
      CompletedClean(s.jobs[i]);
    }
  }

  lemma {:induction false} CompletedClean(j: Job)
    requires JobOk(j, false) && Member(j) && Completed(j)
    ensures j.ret == 0 && !j.force
  {
  }

  lemma {:induction false} PendingKeepsTxn(s: Sys, t: Group)
    ensures forall i, u :: InGroup(AllPending(s, t), i, u) <==> InGroup(s, i, u)
  {
  }

  lemma {:induction false} CleanCheck(s: Sys, k: JobId, t: Group)
    requires k in s.jobs && OthersClean(s, t)
    ensures With(s, k, Check(s.jobs[k], OthersClean(s, t))) == s
  {
    assert Check(s.jobs[k], true) == s.jobs[k];
    assert s.jobs[k := s.jobs[k]] == s.jobs;
  }

  /** The end of a job is noticed: the group is being aborted already. */
  lemma {:induction false} CompleteAborting(s: Sys, k: JobId, t: Group, j: Job, p: Prepared)
    requires Inv(s) && InGroup(s, k, t) && Completing(j, true) && s.jobs[k].status != Pending && t in s.aborting
    requires j.group == t && j.txn == Some(t) && s.jobs[k].group == t
    ensures Inv(Complete(With(s, k, j), k, p))
    ensures Complete(With(s, k, j), k, p) == With(s, k, UpdateRc(Check(j, !Completed(j))))
  {
    hide JobOk, UpdateRc, Check, Inv;
    var u := UpdateRc(Check(j, !Completed(j)));
    CompletingFails(j, true);
    hide Completing;
    assert With(With(s, k, j), k, u) == With(s, k, u);
    OneJob(s, k, u);
  }

  /** The job ends badly and takes its group with it. */
  lemma {:induction false} CompleteFails(s: Sys, k: JobId, t: Group, j: Job, p: Prepared)
    requires Inv(s) && InGroup(s, k, t) && Completing(j, false) && (j.ret != 0 || j.force) && t !in s.aborting
    requires j.group == t && j.txn == Some(t) && s.jobs[k].group == t
    ensures Inv(Complete(With(s, k, j), k, p))
    ensures Complete(With(s, k, j), k, p) == AbortGroup(With(s, k, UpdateRc(Check(j, !Completed(j)))), k)
  {
    hide JobOk, UpdateRc, Check, Inv, Doomed, AbortGroup, Completed;
    var u := UpdateRc(Check(j, !Completed(j)));
    CompletingFails(j, false);
    hide Completing;
    assert With(With(s, k, j), k, u) == With(s, k, u);
    DoomedOne(s, k, t, u);
    AbortInv(s, With(s, k, u), k, t);
  }

  /** The job ends well. */
  lemma {:induction false} CompleteWell(s: Sys, k: JobId, t: Group, j: Job, p: Prepared)
    requires Inv(s) && InGroup(s, k, t) && Completing(j, false) && j.ret == 0 && !j.force && t !in s.aborting
    requires j.group == t && j.txn == Some(t) && s.jobs[k].group == t && s.jobs[k].status != Pending
    requires p.Fails? ==> p.code != 0 && InGroup(s, p.who, t)
    ensures Inv(Complete(With(s, k, j), k, p))
    ensures Complete(With(s, k, j), k, p) == Success(With(s, k, j), k, p)
  {
    hide JobOk, UpdateRc, Check, Inv, Success, Completed;
    CompletingWell(j);
    hide Completing;
    assert With(With(s, k, j), k, j) == With(s, k, j);
    SuccessInv(s, k, t, j, p);
  }

  /** The end of a job is noticed. */
  lemma {:induction false} CompleteInv(s: Sys, k: JobId, t: Group, j: Job, p: Prepared)
    requires Inv(s) && InGroup(s, k, t) && Completing(j, t in s.aborting) && s.jobs[k].status != Pending
    requires j.group == t && j.txn == Some(t) && s.jobs[k].group == t
    requires p.Fails? ==> p.code != 0 && InGroup(s, p.who, t)
    ensures Inv(Complete(With(s, k, j), k, p))
  {
    hide Completing, Complete, Inv;
    if t in s.aborting {
      CompleteAborting(s, k, t, j, p);
    } else if j.ret != 0 || j.force {
      CompleteFails(s, k, t, j, p);
    } else {
      CompleteWell(s, k, t, j, p);
    }
  }

  lemma {:induction false} NotAborting(j: Job, aborting: bool)
    requires Completing(j, aborting) && UpdateRc(Check(j, !Completed(j))).ret == 0
    ensures !aborting && j.ret == 0 && !j.force && Completing(j, false)
  {
  }

  // ---------------------------------------------------------------- every step

  lemma {:induction false} ExitInv(s: Sys, k: JobId, p: Prepared)
    requires Inv(s) && k in s.jobs && JobEnabled(s, s.jobs[k], Exit(k, p))
    ensures Inv(Complete(With(s, k, s.jobs[k].(exits := false)), k, p))
  {
    var j := s.jobs[k];
    var t := j.group;
    assert JobOk(j, t in s.aborting);
    assert Completing(j.(exits := false), t in s.aborting);
    hide JobOk, Completing;
    CompleteInv(s, k, t, j.(exits := false), p);
  }

  lemma {:induction false} CancelUnstarted(j: Job, aborting: bool, force: bool)
    requires JobOk(j, aborting) && j.status == Created && (force || j.force)
    ensures Completing(CancelAsync(j, force), aborting)
  {
  }

  lemma {:induction false} CancelDeferred(j: Job, force: bool)
    requires JobOk(j, false) && Member(j) && j.deferred && (force || j.force)
    ensures JobOk(CancelAsync(j, force), true)
  {
  }

  lemma {:induction false} CancelMember(j: Job, aborting: bool)
    requires JobOk(j, aborting) && CanCancel(j) && j.status != Concluded
    ensures Member(j) && (!j.started <==> j.status == Created) && (j.deferred ==> j.started)
  {
  }

  /** A started job is cancelled. */
  lemma {:induction false} CancelStarted(s: Sys, k: JobId, force: bool, p: Prepared)
    requires Inv(s) && k in s.jobs && Member(s.jobs[k]) && s.jobs[k].started && CanCancel(s.jobs[k])
    requires s.jobs[k].status != Concluded
    ensures Inv(CancelJob(s, k, force, p))
  {
    hide JobOk, CancelAsync, Complete, Doomed;
    var j := s.jobs[k];
    var t := j.group;
    var c := CancelAsync(j, force);
    if t !in s.aborting && j.deferred && c.force {
      CancelDeferred(j, force);
      DoomedOne(s, k, t, c);
      hide AbortGroup;
      AbortInv(s, With(s, k, c), k, t);
    } else {
      CancelStep(j, force, t in s.aborting);
      OneJob(s, k, c);
    }
  }

  lemma {:induction false} CancelInv(s: Sys, k: JobId, force: bool, p: Prepared)
    requires Inv(s) && k in s.jobs && JobEnabled(s, s.jobs[k], Cancel(k, force, p))
    ensures Inv(CancelJob(s, k, force, p))
  {
    hide JobOk, Completing, CancelAsync, Dismiss, Complete, AbortGroup;
    var j := s.jobs[k];
    var t := j.group;
    assert JobOk(j, t in s.aborting);
    if j.status == Concluded {
      DismissStep(j, t in s.aborting);
      OneJob(s, k, Dismiss(j));
    } else {
      CancelMember(j, t in s.aborting);
      if j.started {
        CancelStarted(s, k, force, p);
      } else {
        CancelUnstarted(j, t in s.aborting, force);
        CompleteInv(s, k, t, CancelAsync(j, force), p);
      }
    }
  }
}
