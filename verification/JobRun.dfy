/**
 Runs of jobs: what holds in every state that can be reached, how groups end, and when an abort gets stuck.
 */
module JobRun {
  import opened Options
  import opened Job
  import opened JobGroup
  import opened JobInv

  lemma {:induction false} CreateInv(s: Sys, k: JobId, t: Group, autoFinalize: bool, autoDismiss: bool)
    requires Inv(s) && Enabled(s, Create(k, t, autoFinalize, autoDismiss))
    ensures Inv(With(s, k, NewJob(t, autoFinalize, autoDismiss)))
  {
    var j := NewJob(t, autoFinalize, autoDismiss);
    assert JobOk(j, false) && !Finalised(j) && j.status == Created && j.group == t;
    hide JobOk, Finalised, NewJob, Completed;
    var s' := With(s, k, j);
    forall i, m | i in s'.jobs && InGroup(s', m, s'.jobs[i].group)
      ensures Abreast(s'.jobs[i], s'.jobs[m], s'.jobs[i].group in s'.aborting)
    {
      if s'.jobs[i].status == Pending {
        assert m != k;
        assert InGroup(s, m, s.jobs[i].group);
      }
    }
    forall i, m | i in s'.jobs && Finalised(s'.jobs[i]) && s'.jobs[i].group !in s'.aborting
      ensures !InGroup(s', m, s'.jobs[i].group)
    {
      assert !InGroup(s, m, s.jobs[i].group);
    }
  }

  /** Every step keeps the invariant. */
  lemma {:induction false} NextInv(s: Sys, a: Step)
    requires Inv(s) && Enabled(s, a)
    ensures Inv(Next(s, a))
  {
    if a.Create? {
      CreateInv(s, a.k, a.group, a.autoFinalize, a.autoDismiss);
    } else if a.Exit? {
      ExitInv(s, a.k, a.prepared);
    } else if a.Cancel? {
      CancelInv(s, a.k, a.force, a.prepared);
    } else if a.Finalize? {
      UserFinalizeInv(s, a.k, a.prepared);
    } else if a.UserPause? || a.UserResume? || a.DrainBegin? || a.DrainEnd? || a.ErrorStop? {
      PauseInv(s, a);
    } else {
      OwnInv(s, a);
    }
  }

  /** The user finalises a group: its jobs are pending, or it is being aborted and they have completed. */
  lemma {:induction false} UserFinalizeInv(s: Sys, k: JobId, p: Prepared)
    requires Inv(s) && Enabled(s, Finalize(k, p))
    ensures Inv(DoFinalize(s, k, p))
  {
    hide JobOk, Completed;
    var t := s.jobs[k].group;
    PendingGroup(s, k, t);
    if t in s.aborting {
      FinalizeAbortedInv(s, k, t, p);
    } else {
      AllClean(s, t);
      FinalizeInv(s, k, t, p);
    }
  }

  lemma {:induction false} PendingGroup(s: Sys, k: JobId, t: Group)
    requires Inv(s) && k in s.jobs && s.jobs[k].status == Pending && s.jobs[k].group == t
    ensures InGroup(s, k, t) && forall i :: InGroup(s, i, t) ==> Completed(s.jobs[i])
    ensures t !in s.aborting ==> forall i :: InGroup(s, i, t) ==> s.jobs[i].status == Pending
  {
    hide JobOk, Completed;
    OkNow(s, k);
    PendingIsMember(s.jobs[k], t in s.aborting);
    forall i | InGroup(s, i, t)
      ensures Abreast(s.jobs[k], s.jobs[i], t in s.aborting)
    {
      assert InGroup(s, i, s.jobs[k].group);
    }
  }

  lemma {:induction false} PendingIsMember(j: Job, aborting: bool)
    requires JobOk(j, aborting) && j.status == Pending
    ensures Member(j)
  {
  }

  /** The steps of a job on its own. */
  lemma {:induction false} OwnInv(s: Sys, a: Step)
    requires Inv(s) && Enabled(s, a)
    requires a.EarlyFail? || a.StartJob? || a.YieldPaused? || a.Reenter? || a.BecomeReady? || a.Return?
          || a.DismissJob? || a.AbortWait? || a.AbortNext?
    ensures Inv(Next(s, a))
  {
    var j, aborting := s.jobs[a.k], s.jobs[a.k].group in s.aborting;
    assert JobOk(j, aborting);
    hide JobOk, Dismiss, Start, PausePoint, Continue, Move, RunReturned, FinalizeSingle;
    match a
    case EarlyFail(k) => DismissStep(j, aborting); OneJob(s, k, Dismiss(j));
    case StartJob(k) => StartStep(j, aborting); OneJob(s, k, Start(j));
    case YieldPaused(k) => PausePointStep(j, aborting); OneJob(s, k, PausePoint(j));
    case Reenter(k) => ContinueStep(j, aborting); OneJob(s, k, Continue(j));
    case BecomeReady(k) => ReadyStep(j, aborting); OneJob(s, k, Move(j, Ready));
    case Return(k, ret) => ReturnStep(j, aborting, ret); OneJob(s, k, RunReturned(j, ret));
    case DismissJob(k) => DismissStep(j, aborting); OneJob(s, k, Dismiss(j));
    case AbortWait(k) =>
      TxnIsGroup(j, aborting);
      WaitStep(j);
      OneJob(s, k, j);
    case AbortNext(k) =>
      TxnIsGroup(j, aborting);
      AbortStep(j);
      OneJob(s, k, FinalizeSingle(j));
  }

  /** The steps that only count reasons to pause. */
  lemma {:induction false} PauseInv(s: Sys, a: Step)
    requires Inv(s) && Enabled(s, a)
    requires a.UserPause? || a.UserResume? || a.DrainBegin? || a.DrainEnd? || a.ErrorStop?
    ensures Inv(Next(s, a))
  {
    hide Inv, Complete, DoFinalize, CancelJob, Pause, Resume, JobOk;
    var j := s.jobs[a.k];
    PauseCount(j);
    match a
    case UserPause(k) => CountsInv(s, k, j.pauseCount + 1, true, j.drains);
    case ErrorStop(k) => CountsInv(s, k, j.pauseCount + 1, true, j.drains);
    case UserResume(k) => CountsInv(s, k, j.pauseCount - 1, false, j.drains);
    case DrainBegin(k) => CountsInv(s, k, j.pauseCount + 1, j.userPaused, j.drains + 1);
    case DrainEnd(k) => CountsInv(s, k, j.pauseCount - 1, j.userPaused, j.drains - 1);
  }

  lemma {:induction false} PauseCount(j: Job)
    ensures Pause(j) == j.(pauseCount := j.pauseCount + 1)
    ensures j.pauseCount > 0 ==> Resume(j) == j.(pauseCount := j.pauseCount - 1)
  {
  }

  lemma {:induction false} CountsInv(s: Sys, k: JobId, count: int, userPaused: bool, drains: nat)
    requires Inv(s) && k in s.jobs
    requires var j := s.jobs[k];
             count - j.pauseCount == (if userPaused then 1 else 0) - (if j.userPaused then 1 else 0) + drains - j.drains
    ensures s.jobs[k].pauseCount >= (if s.jobs[k].userPaused then 1 else 0) + s.jobs[k].drains
    ensures Inv(With(s, k, s.jobs[k].(pauseCount := count, userPaused := userPaused, drains := drains)))
  {
    var j := s.jobs[k];
    assert JobOk(j, j.group in s.aborting);
    CountStep(j, j.group in s.aborting, count, userPaused, drains);
    hide JobOk;
    OneJob(s, k, j.(pauseCount := count, userPaused := userPaused, drains := drains));
  }

  // ---------------------------------------------------------------- runs

  ghost predicate IsRun(ss: seq<Sys>, steps: seq<Step>) {
    && |ss| == |steps| + 1 && ss[0] == Sys(map[], {})
    && forall i :: 0 <= i < |steps| ==> Enabled(ss[i], steps[i]) && ss[i + 1] == Next(ss[i], steps[i])
  }

  lemma {:induction false} RunInv(ss: seq<Sys>, steps: seq<Step>, k: nat)
    requires IsRun(ss, steps) && k < |ss|
    ensures Inv(ss[k])
  {
    if k > 0 {
      RunInv(ss, steps, k - 1);
      NextInv(ss[k - 1], steps[k - 1]);
    }
  }

  /** While a job is pending and its group is not being aborted, every job of the group has ended well. */
  lemma {:induction false} PendingMeansAllDone(ss: seq<Sys>, steps: seq<Step>, n: nat, k: JobId, i: JobId)
    requires IsRun(ss, steps) && n < |ss| && k in ss[n].jobs && ss[n].jobs[k].status == Pending
    requires ss[n].jobs[k].group !in ss[n].aborting && InGroup(ss[n], i, ss[n].jobs[k].group)
    ensures var j := ss[n].jobs[i]; j.status == Pending && j.started && j.ret == 0 && !j.force
  {
    RunInv(ss, steps, n);
    assert JobOk(ss[n].jobs[i], ss[n].jobs[i].group in ss[n].aborting);
    hide Inv;
    TxnIsGroup(ss[n].jobs[i], ss[n].jobs[i].group in ss[n].aborting);
  }

  // ---------------------------------------------------------------- failing preparations

  /** From `s` on, `who` can be finalised and aborts, and `k` can be finalised and commits iff it is not `who`. */
  ghost predicate EndApart(s: Sys, k: JobId, who: JobId) {
    && Enabled(s, AbortNext(who)) && Enabled(s, AbortNext(k))
    && FinalizeSingle(s.jobs[who]).aborts == 1 && FinalizeSingle(s.jobs[who]).commits == 0
    && FinalizeSingle(s.jobs[k]).commits == (if who != k then 1 else 0)
    && FinalizeSingle(s.jobs[k]).aborts == (if who == k then 1 else 0)
  }

  /**
   The group is not finalised as one if the preparation fails in another job than the one for which the
   finalisation was called: that one is neither cancelled nor failed, and commits while the other aborts.
   */
  lemma {:induction false} SplitOutcome(s: Sys, k: JobId, who: JobId, code: int)
    requires Inv(s) && Enabled(s, Finalize(k, Fails(who, code))) && s.jobs[k].group !in s.aborting
    ensures EndApart(Next(s, Finalize(k, Fails(who, code))), k, who)
  {
    hide Inv, JobOk, DoFinalize, Completed, EndApart;
    var t := s.jobs[k].group;
    PendingGroup(s, k, t);
    AllClean(s, t);
    FailedJobs(s, k, who, code, t);
  }

  /**
   The same without a user: the last job of the group exits, nobody asked for a finalisation by hand, and the
   preparation fails in another job.
   */
  lemma {:induction false} ExitSplits(s: Sys, k: JobId, who: JobId, code: int, t: Group)
    requires Inv(s) && Enabled(s, Exit(k, Fails(who, code))) && s.jobs[k].group == t && t !in s.aborting
    requires s.jobs[k].ret == 0 && !s.jobs[k].force && forall i :: InGroup(s, i, t) ==> s.jobs[i].autoFinalize
    requires forall i :: InGroup(s, i, t) && i != k ==> Completed(s.jobs[i])
    ensures EndApart(Next(s, Exit(k, Fails(who, code))), k, who)
  {
    hide JobOk, Inv, EndApart, Complete, Success, DoFinalize, Completing, Completed, Move, AllPending;
    var c := s.jobs[k].(exits := false);
    OkNow(s, k);
    ExitCompletes(s.jobs[k], false);
    CompleteWell(s, k, t, c, Fails(who, code));
    LastExit(s, k, t, c, Fails(who, code));
    var s3 := AllPending(With(s, k, Move(c, Waiting)), t);
    FailedJobs(s3, k, who, code, t);
  }

  lemma {:induction false} ExitCompletes(j: Job, aborting: bool)
    requires JobOk(j, aborting) && j.exits
    ensures Completing(j.(exits := false), aborting) && j.txn == Some(j.group) && j.status != Pending
  {
  }

  /** The last job of a group ends well: the group is finalised at once. */
  lemma {:induction false} LastExit(s: Sys, k: JobId, t: Group, c: Job, p: Prepared)
    requires Inv(s) && InGroup(s, k, t) && t !in s.aborting && Completing(c, false) && c.ret == 0 && !c.force
    requires c.group == t && c.txn == Some(t) && s.jobs[k].group == t && s.jobs[k].status != Pending
    requires c.autoFinalize && forall i :: InGroup(s, i, t) && i != k ==> Completed(s.jobs[i]) && s.jobs[i].autoFinalize
    ensures var s3 := AllPending(With(s, k, Move(c, Waiting)), t);
            && Success(With(s, k, c), k, p) == DoFinalize(s3, k, p) && Inv(s3) && s3.aborting == s.aborting
            && (forall i :: InGroup(s3, i, t) <==> InGroup(s, i, t))
            && (forall i :: InGroup(s, i, t) ==> s3.jobs[i].status == Pending)
  {
    hide JobOk, Completing, DoFinalize, Inv, Finalised, Completed;
    CompletingWell(c);
    var w := Move(c, Waiting);
    var s1 := With(s, k, w);
    assert With(With(s, k, c), k, w) == s1;
    WaitingKeeps(s.jobs[k], w);
    OneJob(s, k, w);
    AllClean(s1, t);
    CleanCheck(s1, k, t);
    WaitingIsCompleted(w);
    assert w.autoFinalize == c.autoFinalize;
    assert forall i :: InGroup(s1, i, t) <==> InGroup(s, i, t);
    assert AllCompleted(s1, t);
    PendingInv(s1, t, k);
    PendingKeepsTxn(s1, t);
  }

  lemma {:induction false} WaitingIsCompleted(j: Job)
    ensures j.status == Waiting ==> Completed(j)
  {
  }

  lemma {:induction false} FailedJobs(s: Sys, k: JobId, who: JobId, code: int, t: Group)
    requires Inv(s) && t !in s.aborting && InGroup(s, k, t) && InGroup(s, who, t) && code != 0
    requires forall i :: InGroup(s, i, t) ==> s.jobs[i].status == Pending
    ensures EndApart(DoFinalize(s, k, Fails(who, code)), k, who)
  {
    hide JobOk, FinalizeSingle, Inv, DoFinalize, CancelAsync, FailPrepare, Completed;
    var s1 := DoFinalize(s, k, Fails(who, code));
    FailInv(s, k, t, who, code);
    OkNow(s, who);
    TxnIsGroup(s.jobs[who], s.jobs[who].group in s.aborting);
    OkNow(s, k);
    TxnIsGroup(s.jobs[k], s.jobs[k].group in s.aborting);
    FailStep(s.jobs[who], code);
    FailedPair(s, k, who, code, t);
    TxnIsGroup(s1.jobs[who], true);
    TxnIsGroup(s1.jobs[k], true);
    PendingIsCompleted(s1.jobs[who]);
    PendingIsCompleted(s1.jobs[k]);
    AbortStep(s1.jobs[who]);
    AbortStep(s1.jobs[k]);
  }

  lemma {:induction false} FailedPair(s: Sys, k: JobId, who: JobId, code: int, t: Group)
    requires InGroup(s, k, t) && InGroup(s, who, t) && t !in s.aborting && s.jobs[k].group == t
      && s.jobs[who].group == t
    requires s.jobs[k].status == Pending && Inv(DoFinalize(s, k, Fails(who, code)))
    requires FailPrepare(s.jobs[who], code).status == Aborting && !FailPrepare(s.jobs[who], code).spared
    ensures var s1 := DoFinalize(s, k, Fails(who, code));
            && who in s1.jobs && k in s1.jobs && t in s1.aborting
            && s1.jobs[who].txn == Some(t) && s1.jobs[k].txn == Some(t)
            && JobOk(s1.jobs[who], true) && JobOk(s1.jobs[k], true)
            && !s1.jobs[who].spared && s1.jobs[who].status == Aborting
            && (who != k ==> s1.jobs[k].spared && s1.jobs[k].status == Pending)
  {
    hide JobOk, CancelAsync, FailPrepare;
    var s1 := DoFinalize(s, k, Fails(who, code));
    var f := FailPrepare(s.jobs[who], code);
    assert s1.jobs[who] == if who == k then f else CancelAsync(f, true);
    CancelUnspares(f);
  }

  lemma {:induction false} CancelUnspares(j: Job)
    ensures !CancelAsync(j, true).spared
  {
  }
}
