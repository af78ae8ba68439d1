/**
 The abort of a group waits for every job it has cancelled.  Each step that a doomed job takes brings it
 closer to its end and nothing takes it back, so the wait ends; it ends with an empty group if and only if
 no job of the group was still unstarted, unless somebody starts, fails or cancels that job.
 */
module JobAbort {
  import opened Options
  import opened Job
  import opened JobGroup
  import opened JobInv
  import opened JobRun

  /** How far a job is from leaving its group; 0 when it has left. */
  function Rank(j: Job): nat {
    if j.txn.None? then 0
    else if Completed(j) then 1
    else if j.deferred then 2
    else match j.status
      case Ready => 3
      case Running => 4
      case Standby => 4
      case _ => 5
  }

  predicate DoomedJob(j: Job) {
    JobOk(j, true) && Member(j)
  }

  /** A step by which a job of group `t` gets on: wake up, get ready, return, have its exit noticed, be finalised. */
  predicate Own(s: Sys, a: Step, t: Group) {
    && InGroup(s, a.k, t)
    && (a.Reenter? || a.BecomeReady? || a.Return? || a.Exit? || a.AbortNext?)
  }

  /** A step that helps an unstarted job of group `t` out of its state. */
  predicate Rescue(s: Sys, a: Step, t: Group) {
    InGroup(s, a.k, t) && s.jobs[a.k].status == Created && (a.StartJob? || a.EarlyFail? || a.Cancel?)
  }

  ghost predicate Unstarted(s: Sys, t: Group) {
    exists k :: InGroup(s, k, t) && s.jobs[k].status == Created
  }

  ghost predicate Empty(s: Sys, t: Group) {
    forall k :: !InGroup(s, k, t)
  }

  // ---------------------------------------------------------------- what steps leave alone

  /** Job `i` has not changed, and no group has stopped being aborted. */
  predicate Same(s: Sys, s': Sys, i: JobId) {
    i in s.jobs && i in s'.jobs && s'.jobs[i] == s.jobs[i] && s.aborting <= s'.aborting
  }

  lemma {:induction false} AbortSame(s: Sys, k: JobId, i: JobId)
    requires k in s.jobs && i in s.jobs && i != k && (s.jobs[i].txn.None? || s.jobs[i].txn != s.jobs[k].txn)
    ensures Same(s, AbortGroup(s, k), i)
  {
  }

  lemma {:induction false} FinalizeSame(s: Sys, k: JobId, p: Prepared, i: JobId)
    requires k in s.jobs && i in s.jobs && i != k && (s.jobs[i].txn.None? || s.jobs[i].txn != s.jobs[k].txn)
    ensures Same(s, DoFinalize(s, k, p), i)
  {
    hide AbortGroup, FailPrepare, FinalizeSingle;
    if p.Fails? && s.jobs[k].txn.Some? && InGroup(s, p.who, s.jobs[k].txn.value) {
      var s1 := With(s, p.who, FailPrepare(s.jobs[p.who], p.code));
      AbortSame(s1, k, i);
      AbortSame(With(s1, k, s1.jobs[k].(spared := true)), k, i);
    }
  }

  lemma {:induction false} SuccessSame(s: Sys, k: JobId, p: Prepared, i: JobId)
    requires k in s.jobs && i in s.jobs && i != k && (s.jobs[i].txn.None? || s.jobs[i].txn != s.jobs[k].txn)
    ensures Same(s, Success(s, k, p), i)
  {
    hide DoFinalize, NeedsFinalize, OthersClean, AllCompleted, Allowed;
    if s.jobs[k].txn.Some? {
      var t := s.jobs[k].txn.value;
      var s1 := With(s, k, Move(s.jobs[k], Waiting));
      var s2 := With(s1, k, Check(s1.jobs[k], OthersClean(s1, t)));
      FinalizeSame(AllPending(s2, t), k, p, i);
    }
  }

  lemma {:induction false} CompleteSame(s: Sys, k: JobId, p: Prepared, i: JobId)
    requires k in s.jobs && i in s.jobs && i != k && (s.jobs[i].txn.None? || s.jobs[i].txn != s.jobs[k].txn)
    ensures Same(s, Complete(s, k, p), i)
  {
    hide Success, AbortGroup, UpdateRc, Check;
    if s.jobs[k].txn.Some? {
      var j := UpdateRc(Check(s.jobs[k], !Completed(s.jobs[k])));
      CheckTxn(s.jobs[k]);
      AbortSame(With(s, k, j), k, i);
      SuccessSame(With(s, k, j), k, p, i);
    }
  }

  lemma {:induction false} CheckTxn(j: Job)
    ensures Check(j, !Completed(j)).txn == j.txn && Check(j, false).group == j.group
  {
  }

  lemma {:induction false} CancelSame(s: Sys, k: JobId, force: bool, p: Prepared, i: JobId)
    requires k in s.jobs && i in s.jobs && i != k && (s.jobs[i].txn.None? || s.jobs[i].txn != s.jobs[k].txn)
    ensures Same(s, CancelJob(s, k, force, p), i)
  {
    hide Complete, Dismiss, AbortGroup, CancelAsync;
    var s1 := With(s, k, CancelAsync(s.jobs[k], force));
    CompleteSame(s1, k, p, i);
    AbortSame(s1, k, i);
  }

  /** A step leaves alone the jobs of other groups and those that have left their group. */
  lemma {:induction false} OthersSame(s: Sys, a: Step, i: JobId)
    requires Enabled(s, a) && i in s.jobs && i != a.k
    requires a.Create? || s.jobs[i].txn.None? || s.jobs[i].txn != s.jobs[a.k].txn
    ensures Same(s, Next(s, a), i)
  {
    hide Complete, DoFinalize, CancelJob, Dismiss, Start, PausePoint, Continue, Move, RunReturned, FinalizeSingle;
    hide Check, NewJob;
    if a.Exit? {
      CompleteSame(With(s, a.k, s.jobs[a.k].(exits := false)), a.k, a.prepared, i);
    } else if a.Finalize? {
      FinalizeSame(s, a.k, a.prepared, i);
    } else if a.Cancel? {
      CancelSame(s, a.k, a.force, a.prepared, i);
    }
  }

  /** `s'` is `s` with job `k` changed. */
  predicate Only(s: Sys, s': Sys, k: JobId) {
    k in s'.jobs && s' == With(s, k, s'.jobs[k])
  }

  /** A job whose group is being aborted just becomes aborting when its exit is noticed. */
  lemma {:induction false} ExitDoomed(s: Sys, k: JobId, p: Prepared)
    requires Inv(s) && k in s.jobs && s.jobs[k].group in s.aborting && DoomedJob(s.jobs[k]) && s.jobs[k].exits
    ensures var c := s.jobs[k].(exits := false);
            Complete(With(s, k, c), k, p) == With(s, k, UpdateRc(Check(c, !Completed(c))))
  {
    hide JobOk, UpdateRc, Check, Inv, Complete, Completing;
    ExitCompletes(s.jobs[k], true);
    CompleteAborting(s, k, s.jobs[k].group, s.jobs[k].(exits := false), p);
  }

  /** The same for an unstarted job that is cancelled. */
  lemma {:induction false} CancelDoomed(s: Sys, k: JobId, force: bool, p: Prepared)
    requires Inv(s) && k in s.jobs && s.jobs[k].group in s.aborting && DoomedJob(s.jobs[k]) && CanCancel(s.jobs[k])
    requires !s.jobs[k].started ==> force || s.jobs[k].force
    ensures var j := s.jobs[k]; var c := CancelAsync(j, force);
            CancelJob(s, k, force, p) == With(s, k, if j.started then c else UpdateRc(Check(c, !Completed(c))))
  {
    hide JobOk, UpdateRc, Check, Inv, Complete, Completing, CancelAsync;
    var j := s.jobs[k];
    NotConcluded(j);
    if !j.started {
      CancelMember(j, true);
      CancelUnstarted(j, true, force);
      CompleteAborting(s, k, j.group, CancelAsync(j, force), p);
    }
  }

  lemma {:induction false} NotConcluded(j: Job)
    requires DoomedJob(j)
    ensures j.status != Concluded && j.status != Null
  {
  }

  /** A step of a job whose group is being aborted changes that job only, unless it finalises the group. */
  lemma {:induction false} DoomedAlone(s: Sys, a: Step, t: Group)
    requires Inv(s) && Enabled(s, a) && !a.Create? && !a.Finalize? && InGroup(s, a.k, t) && t in s.aborting
    ensures Only(s, Next(s, a), a.k)
  {
    hide Complete, DoFinalize, CancelJob, Dismiss, Start, PausePoint, Continue, Move, RunReturned, FinalizeSingle;
    hide Check, NewJob, Inv, JobOk, UpdateRc, CancelAsync;
    OkNow(s, a.k);
    TxnIsGroup(s.jobs[a.k], s.jobs[a.k].group in s.aborting);
    if a.Exit? {
      ExitDoomed(s, a.k, a.prepared);
    } else if a.Cancel? {
      CancelDoomed(s, a.k, a.force, a.prepared);
    }
  }

  // ---------------------------------------------------------------- ranks

  /**
   `j'` is no farther from its end than `j`, started if `j` was, and spared only if `j` was.  A job that has
   started leaves its group finalised, and how it was finalised stays.
   */
  predicate NoFarther(j: Job, j': Job) {
    && j'.group == j.group && Rank(j') <= Rank(j) && (j.status != Created ==> j'.status != Created)
    && (j'.spared ==> j.spared)
    && (j.txn.Some? && j'.txn.None? && j.status != Created ==> Finalised(j'))
    && (j.txn.None? && Finalised(j) ==> Finalised(j'))
  }

  lemma {:induction false} ReenterRank(j: Job)
    requires DoomedJob(j) && (j.status == Paused || j.status == Standby)
    ensures NoFarther(j, Continue(j)) && Rank(Continue(j)) < Rank(j)
  {
  }

  lemma {:induction false} ReturnRank(j: Job, ret: int)
    requires DoomedJob(j) && OnCpu(j)
    ensures NoFarther(j, RunReturned(j, ret)) && Rank(RunReturned(j, ret)) < Rank(j)
    ensures j.status == Running ==> NoFarther(j, Move(j, Ready)) && Rank(Move(j, Ready)) < Rank(j)
  {
  }

  lemma {:induction false} ExitRank(j: Job)
    requires DoomedJob(j) && j.exits
    ensures var c := j.(exits := false); var u := UpdateRc(Check(c, !Completed(c)));
            NoFarther(j, u) && Rank(u) < Rank(j)
  {
  }

  lemma {:induction false} FinaliseRank(j: Job)
    requires DoomedJob(j) && Completed(j)
    ensures NoFarther(j, FinalizeSingle(j)) && Rank(FinalizeSingle(j)) < Rank(j) == 1
  {
    AbortStep(j);
  }

  lemma {:induction false} CancelRank(j: Job, force: bool)
    requires DoomedJob(j) && (!j.started && !Completed(j) ==> j.force || force)
    ensures var c := CancelAsync(j, force); NoFarther(j, c)
    ensures var c := CancelAsync(j, force); j.status == Created ==> NoFarther(j, UpdateRc(Check(c, !Completed(c))))
  {
  }

  lemma {:induction false} StartRank(j: Job)
    requires DoomedJob(j) && j.status == Created
    ensures NoFarther(j, Start(j)) && Rank(Start(j)) < Rank(j)
    ensures NoFarther(j, Dismiss(j)) && Rank(Dismiss(j)) < Rank(j)
  {
  }

  lemma {:induction false} FailRank(j: Job, code: int)
    requires DoomedJob(j) && Completed(j)
    ensures NoFarther(j, FailPrepare(j, code))
  {
  }

  /** Counting reasons to pause, and checking, brings a job neither closer nor farther. */
  lemma {:induction false} CountRank(j: Job, j': Job)
    requires j' == j.(pauseCount := j'.pauseCount, userPaused := j'.userPaused, drains := j'.drains,
      broken := j'.broken)
    ensures NoFarther(j, j') && Rank(j') == Rank(j)
  {
  }

  /** The job that takes the step gets no farther from its end, and closer if the step is its own. */
  lemma {:induction false} StepRank(s: Sys, a: Step, t: Group)
    requires Inv(s) && Enabled(s, a) && !a.Create? && !a.Finalize? && InGroup(s, a.k, t) && t in s.aborting
    ensures a.k in Next(s, a).jobs && NoFarther(s.jobs[a.k], Next(s, a).jobs[a.k])
    ensures Own(s, a, t) ==> Rank(Next(s, a).jobs[a.k]) < Rank(s.jobs[a.k])
  {
    hide Complete, DoFinalize, CancelJob, Dismiss, Start, Continue, Move, RunReturned, FinalizeSingle;
    hide NewJob, Inv, JobOk, UpdateRc, CancelAsync, Rank, NoFarther, Completed;
    var j := s.jobs[a.k];
    OkNow(s, a.k);
    TxnIsGroup(j, j.group in s.aborting);
    NotConcluded(j);
    NotPausing(j);
    match a
    case EarlyFail(k) => StartRank(j);
    case StartJob(k) => StartRank(j);
    case YieldPaused(k) => assert false;
    case Reenter(k) => ReenterRank(j);
    case BecomeReady(k) => ReturnRank(j, 0);
    case Return(k, ret) => ReturnRank(j, ret);
    case Exit(k, p) => ExitRank(j); ExitDoomed(s, k, p);
    case Cancel(k, force, p) =>
      CancelMember(j, true);
      CancelRank(j, force);
      CancelDoomed(s, k, force, p);
    case DismissJob(k) => assert false;
    case AbortNext(k) => FinaliseRank(j);
    case _ => PauseRank(s, a, t);
  }

  lemma {:induction false} PauseRank(s: Sys, a: Step, t: Group)
    requires Enabled(s, a) && InGroup(s, a.k, t)
    requires a.UserPause? || a.UserResume? || a.DrainBegin? || a.DrainEnd? || a.ErrorStop? || a.AbortWait?
    ensures a.k in Next(s, a).jobs && NoFarther(s.jobs[a.k], Next(s, a).jobs[a.k]) && !Own(s, a, t)
  {
    hide Complete, DoFinalize, CancelJob, Rank, NoFarther, Completed;
    CountRank(s.jobs[a.k], Next(s, a).jobs[a.k]);
  }

  lemma {:induction false} NotPausing(j: Job)
    requires DoomedJob(j)
    ensures !(OnCpu(j) && !j.force)
  {
  }

  /** Finalising a group that is being aborted brings nobody farther from its end. */
  lemma {:induction false} FinalizeRank(s: Sys, k: JobId, p: Prepared, i: JobId, t: Group)
    requires Inv(s) && Enabled(s, Finalize(k, p)) && InGroup(s, k, t) && InGroup(s, i, t) && t in s.aborting
    ensures var s' := DoFinalize(s, k, p); i in s'.jobs && NoFarther(s.jobs[i], s'.jobs[i]) && s'.aborting == s.aborting
    ensures Completed(s.jobs[i])
  {
    hide JobOk, Inv, Rank, FailPrepare, FinalizeSingle, Completed, NoFarther;
    OkNow(s, k);
    TxnIsGroup(s.jobs[k], s.jobs[k].group in s.aborting);
    PendingGroup(s, k, t);
    OkNow(s, i);
    TxnIsGroup(s.jobs[i], s.jobs[i].group in s.aborting);
    FinaliseRank(s.jobs[i]);
    CountRank(s.jobs[i], s.jobs[i]);
    if p.Fails? {
      FailRank(s.jobs[i], p.code);
    }
  }

  lemma {:induction false} LeftStays(s: Sys, a: Step)
    requires Inv(s) && Enabled(s, a) && !a.Create? && s.jobs[a.k].txn == None
    ensures a.k in Next(s, a).jobs && NoFarther(s.jobs[a.k], Next(s, a).jobs[a.k]) && Next(s, a).aborting == s.aborting
  {
    OkNow(s, a.k);
    hide Inv, Complete, DoFinalize, AbortGroup;
    assert a.DismissJob? || a.Cancel? || a.DrainBegin? || a.DrainEnd? || a.ErrorStop?;
    assert a.Cancel? ==> s.jobs[a.k].status == Concluded;
  }

  /** In a group that is being aborted no step takes a job farther from its end, and own steps bring it closer. */
  lemma {:induction false} RankNeverRises(s: Sys, a: Step, i: JobId, t: Group)
    requires Inv(s) && Enabled(s, a) && i in s.jobs && s.jobs[i].group == t && t in s.aborting
    ensures var s' := Next(s, a); i in s'.jobs && NoFarther(s.jobs[i], s'.jobs[i]) && t in s'.aborting
    ensures Own(s, a, t) && i == a.k ==> Rank(Next(s, a).jobs[i]) < Rank(s.jobs[i])
  {
    hide JobOk, Inv, Rank, NoFarther, Enabled, Next, Own;
    OkNow(s, i);
    TxnIsGroup(s.jobs[i], true);
    CountRank(s.jobs[i], s.jobs[i]);
    if a.Create? || a.k !in s.jobs || s.jobs[a.k].txn != Some(t) {
      OutsideRank(s, a, i, t);
    } else if a.Finalize? {
      InsideFinalize(s, a, i, t);
    } else {
      DoomedAlone(s, a, t);
      StepRank(s, a, t);
    }
  }

  lemma {:induction false} OutsideRank(s: Sys, a: Step, i: JobId, t: Group)
    requires Inv(s) && Enabled(s, a) && i in s.jobs && s.jobs[i].group == t && t in s.aborting
    requires s.jobs[i].txn == None || s.jobs[i].txn == Some(t)
    requires a.Create? || a.k !in s.jobs || s.jobs[a.k].txn != Some(t)
    ensures var s' := Next(s, a); i in s'.jobs && NoFarther(s.jobs[i], s'.jobs[i]) && t in s'.aborting
    ensures Own(s, a, t) ==> i != a.k
  {
    hide JobOk, Inv, Rank, NoFarther, Next;
    CountRank(s.jobs[i], s.jobs[i]);
    if !a.Create? && i == a.k {
      LeftStays(s, a);
    } else {
      OthersSame(s, a, i);
    }
  }

  lemma {:induction false} InsideFinalize(s: Sys, a: Step, i: JobId, t: Group)
    requires Inv(s) && Enabled(s, a) && i in s.jobs && s.jobs[i].group == t && t in s.aborting
    requires s.jobs[i].txn == None || s.jobs[i].txn == Some(t)
    requires a.Finalize? && InGroup(s, a.k, t)
    ensures var s' := Next(s, a); i in s'.jobs && NoFarther(s.jobs[i], s'.jobs[i]) && t in s'.aborting
    ensures !Own(s, a, t)
  {
    hide JobOk, Inv, Rank, NoFarther, DoFinalize;
    CountRank(s.jobs[i], s.jobs[i]);
    if s.jobs[i].txn == Some(t) {
      FinalizeRank(s, a.k, a.prepared, i, t);
    } else {
      FinalizeSame(s, a.k, a.prepared, i);
    }
  }

  // ---------------------------------------------------------------- paths

  ghost predicate IsPath(ss: seq<Sys>, steps: seq<Step>) {
    && |ss| == |steps| + 1
    && forall i :: 0 <= i < |steps| ==> Enabled(ss[i], steps[i]) && ss[i + 1] == Next(ss[i], steps[i])
  }

  /** The abort of `t` has begun, and `ks` lists jobs created in `t`, among them all that are still in it. */
  ghost predicate Lists(s: Sys, ks: seq<JobId>, t: Group) {
    && t in s.aborting && (forall i, k :: 0 <= i < k < |ks| ==> ks[i] != ks[k])
    && (forall k :: k in ks ==> k in s.jobs && s.jobs[k].group == t)
    && (forall k :: InGroup(s, k, t) ==> k in ks)
  }

  ghost function SumRank(s: Sys, ks: seq<JobId>): nat
    requires forall k :: k in ks ==> k in s.jobs
  {
    if ks == [] then 0 else Rank(s.jobs[ks[0]]) + SumRank(s, ks[1..])
  }

  /** How many of the first `n` steps are own steps of jobs of `t`. */
  ghost function OwnSteps(ss: seq<Sys>, steps: seq<Step>, t: Group, n: nat): nat
    requires |ss| == |steps| + 1 && n <= |steps|
  {
    if n == 0 then 0 else OwnSteps(ss, steps, t, n - 1) + if Own(ss[n - 1], steps[n - 1], t) then 1 else 0
  }

  lemma {:induction false} SumFalls(s: Sys, s': Sys, ks: seq<JobId>, own: bool, k: JobId)
    requires forall i :: i in ks ==> i in s.jobs && i in s'.jobs && NoFarther(s.jobs[i], s'.jobs[i])
    requires own ==> k in ks && Rank(s'.jobs[k]) < Rank(s.jobs[k])
    ensures SumRank(s', ks) + (if own then 1 else 0) <= SumRank(s, ks)
  {
    hide Rank;
    if ks != [] {
      assert ks == [ks[0]] + ks[1..];
      assert NoFarther(s.jobs[ks[0]], s'.jobs[ks[0]]);
      SumFalls(s, s', ks[1..], own && k != ks[0], k);
    }
  }

  lemma {:induction false} SumZero(s: Sys, ks: seq<JobId>)
    requires forall k :: k in ks ==> k in s.jobs
    ensures SumRank(s, ks) == 0 <==> forall k :: k in ks ==> s.jobs[k].txn == None
  {
    if ks != [] {
      assert ks == [ks[0]] + ks[1..];
      SumZero(s, ks[1..]);
    }
  }

  /** No job comes or goes, every job keeps the group it was created in, and aborts do not end. */
  predicate Steady(s: Sys, s': Sys) {
    && s'.jobs.Keys == s.jobs.Keys && s.aborting <= s'.aborting
    && forall i :: i in s.jobs ==> s'.jobs[i].group == s.jobs[i].group
  }

  lemma {:induction false} SteadyWith(s: Sys, k: JobId, j: Job)
    requires k in s.jobs && j.group == s.jobs[k].group
    ensures Steady(s, With(s, k, j))
  {
  }

  lemma {:induction false} SteadyOn(s: Sys, s1: Sys, s2: Sys)
    requires Steady(s, s1) && Steady(s1, s2)
    ensures Steady(s, s2)
  {
  }

  lemma {:induction false} AbortSteady(s: Sys, k: JobId)
    requires k in s.jobs
    ensures Steady(s, AbortGroup(s, k))
  {
    hide CancelAsync, Check;
    var s' := AbortGroup(s, k);
    assert s'.jobs.Keys == s.jobs.Keys && s.aborting <= s'.aborting;
    forall i | i in s.jobs
      ensures s'.jobs[i].group == s.jobs[i].group
    {
      CheckTxn(s.jobs[i]);
    }
  }

  lemma {:induction false} PendingSteady(s: Sys, t: Group)
    ensures Steady(s, AllPending(s, t))
  {
    hide Allowed;
  }

  lemma {:induction false} AllFinalisedSteady(s: Sys, t: Group)
    ensures Steady(s, AllFinalised(s, t))
  {
    hide FinalizeSingle;
  }

  lemma {:induction false} FinalizeSteady(s: Sys, k: JobId, p: Prepared)
    requires k in s.jobs
    ensures Steady(s, DoFinalize(s, k, p))
  {
    hide AbortGroup, AllFinalised, FailPrepare, Steady;
    if s.jobs[k].txn.None? {
      SteadyWith(s, k, Check(s.jobs[k], false));
    } else if p.Fine? {
      AllFinalisedSteady(s, s.jobs[k].txn.value);
    } else if !InGroup(s, p.who, s.jobs[k].txn.value) {
      SteadyWith(s, k, s.jobs[k]);
      assert s.jobs[k := s.jobs[k]] == s.jobs;
    } else {
      var s1 := With(s, p.who, FailPrepare(s.jobs[p.who], p.code));
      var s2 := if p.who == k || s.jobs[k].txn.value in s.aborting then s1
          else With(s1, k, s1.jobs[k].(spared := true));
      SteadyWith(s, p.who, FailPrepare(s.jobs[p.who], p.code));
      SteadyWith(s1, k, s1.jobs[k].(spared := true));
      AbortSteady(s2, k);
      if s2 != s1 {
        SteadyOn(s, s1, s2);
      }
      SteadyOn(s, s2, AbortGroup(s2, k));
    }
  }

  lemma {:induction false} SuccessSteady(s: Sys, k: JobId, p: Prepared)
    requires k in s.jobs
    ensures Steady(s, Success(s, k, p))
  {
    hide DoFinalize, OthersClean, AllCompleted, NeedsFinalize, Allowed, AllPending, Steady;
    if s.jobs[k].txn.None? {
      SteadyWith(s, k, Check(s.jobs[k], false));
    } else {
      var t := s.jobs[k].txn.value;
      var s1 := With(s, k, Move(s.jobs[k], Waiting));
      var s2 := With(s1, k, Check(s1.jobs[k], OthersClean(s1, t)));
      var s3 := AllPending(s2, t);
      SteadyWith(s, k, s1.jobs[k]);
      SteadyWith(s1, k, s2.jobs[k]);
      SteadyOn(s, s1, s2);
      PendingSteady(s2, t);
      SteadyOn(s, s2, s3);
      SteadyHas(s, s3, k);
      FinalizeSteady(s3, k, p);
      SteadyOn(s, s3, DoFinalize(s3, k, p));
    }
  }

  lemma {:induction false} SteadyHas(s: Sys, s': Sys, k: JobId)
    requires Steady(s, s') && k in s.jobs
    ensures k in s'.jobs
  {
  }

  lemma {:induction false} CompleteSteady(s: Sys, k: JobId, p: Prepared)
    requires k in s.jobs
    ensures Steady(s, Complete(s, k, p))
  {
    hide AbortGroup, Success, UpdateRc, Completed, Steady;
    if s.jobs[k].txn.None? {
      SteadyWith(s, k, Check(s.jobs[k], false));
    } else {
      var s1 := With(s, k, UpdateRc(Check(s.jobs[k], !Completed(s.jobs[k]))));
      SteadyWith(s, k, s1.jobs[k]);
      AbortSteady(s1, k);
      SteadyOn(s, s1, AbortGroup(s1, k));
      SuccessSteady(s1, k, p);
      SteadyOn(s, s1, Success(s1, k, p));
    }
  }

  lemma {:induction false} CancelSteady(s: Sys, k: JobId, force: bool, p: Prepared)
    requires k in s.jobs
    ensures Steady(s, CancelJob(s, k, force, p))
  {
    hide AbortGroup, Complete, CancelAsync, Steady, Allowed;
    var s1 := With(s, k, CancelAsync(s.jobs[k], force));
    SteadyWith(s, k, Dismiss(s.jobs[k]));
    SteadyWith(s, k, s1.jobs[k]);
    AbortSteady(s1, k);
    SteadyOn(s, s1, AbortGroup(s1, k));
    CompleteSteady(s1, k, p);
    SteadyOn(s, s1, Complete(s1, k, p));
  }

  lemma {:induction false} NextSteady(s: Sys, a: Step)
    requires Enabled(s, a) && !a.Create?
    ensures Steady(s, Next(s, a))
  {
    hide Complete, DoFinalize, CancelJob, FinalizeSingle, Allowed;
    if a.Exit? {
      CompleteSteady(With(s, a.k, s.jobs[a.k].(exits := false)), a.k, a.prepared);
    } else if a.Finalize? {
      FinalizeSteady(s, a.k, a.prepared);
    } else if a.Cancel? {
      CancelSteady(s, a.k, a.force, a.prepared);
    }
  }

  /** Nobody joins a group that is being aborted. */
  lemma {:induction false} NoNewcomers(s: Sys, a: Step, k: JobId, t: Group)
    requires Inv(s) && Enabled(s, a) && t in s.aborting && InGroup(Next(s, a), k, t)
    ensures InGroup(s, k, t)
  {
    hide JobOk, Inv, Rank;
    if a.Create? {
      hide NewJob;
      NewJobGroup(a.group, a.autoFinalize, a.autoDismiss);
    } else {
      hide Next;
      NextSteady(s, a);
      NextInv(s, a);
      OkNow(Next(s, a), k);
      TxnIsGroup(Next(s, a).jobs[k], Next(s, a).jobs[k].group in Next(s, a).aborting);
      RankNeverRises(s, a, k, t);
      OkNow(s, k);
      TxnIsGroup(s.jobs[k], true);
      RankZero(s.jobs[k]);
      RankZero(Next(s, a).jobs[k]);
    }
  }

  lemma {:induction false} RankZero(j: Job)
    ensures Rank(j) == 0 <==> j.txn == None
  {
  }

  lemma {:induction false} NewJobGroup(t: Group, autoFinalize: bool, autoDismiss: bool)
    ensures NewJob(t, autoFinalize, autoDismiss).txn == Some(t)
  {
  }

  /** One step: the list stays a list, and an own step is paid for by the sum of the ranks. */
  lemma {:induction false} ListStep(s: Sys, a: Step, ks: seq<JobId>, t: Group)
    requires Inv(s) && Enabled(s, a) && Lists(s, ks, t)
    ensures Inv(Next(s, a)) && Lists(Next(s, a), ks, t)
    ensures SumRank(Next(s, a), ks) + (if Own(s, a, t) then 1 else 0) <= SumRank(s, ks)
  {
    hide Inv, Next, Enabled, SumRank, Rank;
    NextInv(s, a);
    forall k | k in ks
      ensures k in Next(s, a).jobs && NoFarther(s.jobs[k], Next(s, a).jobs[k])
      ensures Own(s, a, t) && k == a.k ==> Rank(Next(s, a).jobs[k]) < Rank(s.jobs[k])
    {
      RankNeverRises(s, a, k, t);
    }
    forall k | InGroup(Next(s, a), k, t)
      ensures k in ks
    {
      NoNewcomers(s, a, k, t);
    }
    StaysAborting(s, a, t);
    SumFalls(s, Next(s, a), ks, Own(s, a, t), a.k);
  }

  lemma {:induction false} StaysAborting(s: Sys, a: Step, t: Group)
    requires Enabled(s, a) && t in s.aborting
    ensures t in Next(s, a).aborting
  {
    if !a.Create? {
      hide Next;
      NextSteady(s, a);
    }
  }

  /**
   However the steps of all jobs, of the user and of the block layer are mixed, the jobs of a group that is
   being aborted take no more steps of their own than the sum of their ranks, and the group is empty when
   that sum is used up.
   */
  lemma {:induction false} OwnStepsBounded(ss: seq<Sys>, steps: seq<Step>, ks: seq<JobId>, t: Group, n: nat)
    requires IsPath(ss, steps) && Inv(ss[0]) && Lists(ss[0], ks, t) && n <= |steps|
    ensures Inv(ss[n]) && Lists(ss[n], ks, t)
    ensures OwnSteps(ss, steps, t, n) + SumRank(ss[n], ks) <= SumRank(ss[0], ks)
    ensures SumRank(ss[n], ks) == 0 <==> Empty(ss[n], t)
  {
    hide Inv, Next, Enabled, SumRank, Own;
    if n > 0 {
      OwnStepsBounded(ss, steps, ks, t, n - 1);
      ListStep(ss[n - 1], steps[n - 1], ks, t);
    }
    EmptyIsZero(ss[n], ks, t);
  }

  lemma {:induction false} EmptyIsZero(s: Sys, ks: seq<JobId>, t: Group)
    requires Inv(s) && Lists(s, ks, t)
    ensures SumRank(s, ks) == 0 <==> Empty(s, t)
  {
    hide JobOk, SumRank, Inv;
    SumZero(s, ks);
    forall k | k in ks
      ensures s.jobs[k].txn == None || InGroup(s, k, t)
    {
      OkNow(s, k);
      TxnIsGroup(s.jobs[k], true);
    }
  }

  /** There is such a list. */
  lemma {:induction false} SomeList(s: Sys, t: Group) returns (ks: seq<JobId>)
    requires Inv(s) && t in s.aborting
    ensures Lists(s, ks, t)
  {
    hide JobOk, Inv;
    ks := [];
    var todo := Members(s, t);
    while todo != {}
      invariant todo <= Members(s, t) && forall k :: k in Members(s, t) <==> k in todo || k in ks
      invariant forall i, k :: 0 <= i < k < |ks| ==> ks[i] != ks[k]
      invariant forall k :: k in todo ==> k !in ks
      decreases |todo|
    {
      var k :| k in todo;
      ks, todo := ks + [k], todo - {k};
    }
    forall k | k in ks
      ensures k in s.jobs && s.jobs[k].group == t
    {
      assert k in Members(s, t);
      OkNow(s, k);
      TxnIsGroup(s.jobs[k], s.jobs[k].group in s.aborting);
    }
    forall k | InGroup(s, k, t)
      ensures k in ks
    {
      assert k in Members(s, t);
    }
  }

  // ---------------------------------------------------------------- the end of an abort

  /** A way for a doomed job to get on. */
  function Onward(j: Job, k: JobId): Step {
    if Completed(j) then AbortNext(k)
    else if j.exits then Exit(k, Fine)
    else if j.status == Paused || j.status == Standby then Reenter(k)
    else Return(k, 0)
  }

  lemma {:induction false} OnwardEnabled(s: Sys, k: JobId, t: Group)
    requires Inv(s) && InGroup(s, k, t) && t in s.aborting && s.jobs[k].status != Created
    ensures Enabled(s, Onward(s.jobs[k], k)) && Own(s, Onward(s.jobs[k], k), t)
  {
    OkNow(s, k);
    hide Inv;
    TxnIsGroup(s.jobs[k], s.jobs[k].group in s.aborting);
  }

  ghost predicate CanMove(s: Sys, t: Group) {
    exists a :: Enabled(s, a) && Own(s, a, t)
  }

  /** The abort can get on if and only if a job that has started, or is done, is left in the group. */
  lemma {:induction false} MovesIff(s: Sys, t: Group)
    requires Inv(s) && t in s.aborting
    ensures CanMove(s, t) <==> exists k :: InGroup(s, k, t) && s.jobs[k].status != Created
  {
    hide Inv, JobOk;
    if CanMove(s, t) {
      var a :| Enabled(s, a) && Own(s, a, t);
      OwnStarted(s, a, t);
      assert InGroup(s, a.k, t);
    } else if k :| InGroup(s, k, t) && s.jobs[k].status != Created {
      hide Own, Enabled;
      OnwardEnabled(s, k, t);
    }
  }

  lemma {:induction false} OwnStarted(s: Sys, a: Step, t: Group)
    requires Inv(s) && Enabled(s, a) && Own(s, a, t)
    ensures s.jobs[a.k].status != Created
  {
    OkNow(s, a.k);
    hide Inv;
  }

  /** An unstarted job stays where it is as long as nobody starts, fails or cancels it. */
  lemma {:induction false} StuckStep(s: Sys, a: Step, k: JobId, t: Group)
    requires Inv(s) && Enabled(s, a) && InGroup(s, k, t) && t in s.aborting && s.jobs[k].status == Created
    requires a.k == k ==> !Rescue(s, a, t)
    ensures var s' := Next(s, a); InGroup(s', k, t) && t in s'.aborting && s'.jobs[k].status == Created
  {
    OkNow(s, k);
    hide JobOk, Inv;
    TxnIsGroup(s.jobs[k], s.jobs[k].group in s.aborting);
    if a.Create? || s.jobs[a.k].txn != Some(t) {
      hide Next;
      OthersSame(s, a, k);
    } else if a.Finalize? {
      hide Next;
      FinalizeRank(s, a.k, a.prepared, k, t);
    } else if a.k != k {
      hide Next;
      DoomedAlone(s, a, t);
    } else {
      UnstartedOwn(s, a, k);
    }
  }

  lemma {:induction false} UnstartedOwn(s: Sys, a: Step, k: JobId)
    requires Inv(s) && Enabled(s, a) && k in s.jobs && s.jobs[k].status == Created && s.jobs[k].txn.Some?
    requires !a.Create? && !a.StartJob? && !a.EarlyFail? && !a.Cancel? && a.k == k
    ensures var s' := Next(s, a); k in s'.jobs && s'.jobs[k].status == Created && s'.jobs[k].txn == s.jobs[k].txn
    ensures Next(s, a).aborting == s.aborting
  {
    OkNow(s, k);
    hide Inv;
    assert a.UserPause? || a.UserResume? || a.DrainBegin? || a.DrainEnd? || a.AbortWait?;
  }

  lemma {:induction false} StuckForever(ss: seq<Sys>, steps: seq<Step>, n: nat, k: JobId, t: Group)
    requires IsPath(ss, steps) && n < |ss| && Inv(ss[0])
    requires InGroup(ss[0], k, t) && t in ss[0].aborting && ss[0].jobs[k].status == Created
    requires forall i :: 0 <= i < n && steps[i].k == k ==> !Rescue(ss[i], steps[i], t)
    ensures Inv(ss[n]) && InGroup(ss[n], k, t) && t in ss[n].aborting && ss[n].jobs[k].status == Created
  {
    hide Inv, Next, Enabled;
    if n > 0 {
      StuckForever(ss, steps, n - 1, k, t);
      NextInv(ss[n - 1], steps[n - 1]);
      StuckStep(ss[n - 1], steps[n - 1], k, t);
    }
  }

  /** Once all jobs of the group have started, this stays so. */
  lemma {:induction false} StartedForever(ss: seq<Sys>, steps: seq<Step>, n: nat, t: Group)
    requires IsPath(ss, steps) && n < |ss| && Inv(ss[0]) && t in ss[0].aborting && !Unstarted(ss[0], t)
    ensures Inv(ss[n]) && t in ss[n].aborting && !Unstarted(ss[n], t)
  {
    hide Inv, Next, Enabled, NoFarther;
    if n > 0 {
      var s, a := ss[n - 1], steps[n - 1];
      StartedForever(ss, steps, n - 1, t);
      NextInv(s, a);
      StaysAborting(s, a, t);
      forall k | InGroup(ss[n], k, t)
        ensures ss[n].jobs[k].status != Created
      {
        StartedStep(s, a, k, t);
      }
    }
  }

  lemma {:induction false} StartedStep(s: Sys, a: Step, k: JobId, t: Group)
    requires Inv(s) && Enabled(s, a) && t in s.aborting && InGroup(Next(s, a), k, t) && !Unstarted(s, t)
    ensures Next(s, a).jobs[k].status != Created
  {
    hide Inv, Next, Enabled, JobOk, Rank;
    NoNewcomers(s, a, k, t);
    OkNow(s, k);
    TxnIsGroup(s.jobs[k], s.jobs[k].group in s.aborting);
    RankNeverRises(s, a, k, t);
  }

  /**
   The abort of a group comes to its end.  Take any path from a state in which it has begun to one in which
   no job of the group can take another step of its own, on which nobody starts, fails or cancels an
   unstarted job of the group.  The group is empty then if and only if it had no unstarted job to begin with.
   */
  lemma {:induction false} AbortEndsIff(ss: seq<Sys>, steps: seq<Step>, t: Group)
    requires IsPath(ss, steps) && Inv(ss[0]) && t in ss[0].aborting && !CanMove(ss[|steps|], t)
    requires forall i :: 0 <= i < |steps| ==> !Rescue(ss[i], steps[i], t)
    ensures Empty(ss[|steps|], t) <==> !Unstarted(ss[0], t)
  {
    hide Inv, Next, Enabled, Own, CanMove;
    var n := |steps|;
    if k :| InGroup(ss[0], k, t) && ss[0].jobs[k].status == Created {
      StuckForever(ss, steps, n, k, t);
    } else {
      StartedForever(ss, steps, n, t);
      MovesIff(ss[n], t);
    }
  }

  // ---------------------------------------------------------------- what drivers and callers must do

  /** Cancelling a job that has not started keeps to the table if and only if it is, or was, cancelled by force. */
  lemma {:induction false} UnstartedNeedsForce(s: Sys, k: JobId, force: bool, p: Prepared)
    requires Inv(s) && k in s.jobs && s.jobs[k].status == Created && GoodPrepared(s, s.jobs[k], p)
    ensures var s' := CancelJob(s, k, force, p); k in s'.jobs && (s'.jobs[k].broken <==> !(force || s.jobs[k].force))
  {
    var j := s.jobs[k];
    OkNow(s, k);
    if force || j.force {
      hide JobOk, CancelJob, Inv;
      CancelInv(s, k, force, p);
      Unbroken(CancelJob(s, k, force, p), k);
    } else {
      hide Success, Inv, AbortGroup;
      var c := CancelAsync(j, false);
      assert c.status == Created && c.ret == 0 && !c.force && !c.started;
      var u := UpdateRc(Check(c, !Completed(c)));
      assert u.status == Created && u.ret == 0 && u.txn.Some?;
    }
  }

  /** A job that is aborting may be cancelled once more if and only if it has started. */
  lemma {:induction false} CancelTwice(s: Sys, k: JobId, force: bool, p: Prepared)
    requires Inv(s) && k in s.jobs && s.jobs[k].status == Aborting && GoodPrepared(s, s.jobs[k], p)
    ensures var s' := CancelJob(s, k, force, p); k in s'.jobs && (s'.jobs[k].broken <==> !s.jobs[k].started)
  {
    var j := s.jobs[k];
    OkNow(s, k);
    if j.started {
      hide JobOk, CancelJob, Inv;
      CancelInv(s, k, force, p);
      Unbroken(CancelJob(s, k, force, p), k);
    } else {
      hide Success, Inv, AbortGroup, JobOk, UpdateRc;
      assert CancelAsync(j, force).status == Aborting && Completed(CancelAsync(j, force));
    }
  }

  /**
   Exactly when a cancel keeps the invariant, in every state of a job that still exists: the job has started
   or is concluded, or it has not started, is not yet aborting and is or was cancelled by force.
   */
  lemma {:induction false} CancelIff(s: Sys, k: JobId, force: bool, p: Prepared)
    requires Inv(s) && k in s.jobs && s.jobs[k].status != Null && GoodPrepared(s, s.jobs[k], p)
    ensures var j := s.jobs[k];
            Inv(CancelJob(s, k, force, p)) <==> j.started || (j.status == Created && (force || j.force))
  {
    var j := s.jobs[k];
    OkNow(s, k);
    hide CancelJob, Inv;
    if j.started || (j.status == Created && (force || j.force)) {
      CancelInv(s, k, force, p);
    } else {
      hide JobOk;
      if j.status == Created {
        UnstartedNeedsForce(s, k, force, p);
      } else {
        CancelTwice(s, k, force, p);
      }
      if Inv(CancelJob(s, k, force, p)) {
        Unbroken(CancelJob(s, k, force, p), k);
      }
    }
  }

  lemma {:induction false} Unbroken(s: Sys, k: JobId)
    requires Inv(s) && k in s.jobs
    ensures !s.jobs[k].broken
  {
  }
}
