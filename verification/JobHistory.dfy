/**
 What the fields of a job tell about the run so far: how often it is paused and by whom, whether it was
 started, what its coroutine returned, whether it was cancelled, and so when it may commit.
 */
module JobHistory {
  import opened Options
  import opened Job
  import opened JobGroup
  import opened JobInv
  import opened JobRun
  import opened JobAbort

  /** What has happened to a job. */
  datatype Past = Past(
    drains: int,           // drained sections begun and not ended
    started: bool,
    paused: bool,          // paused by the user or an error, and since then not resumed or cancelled
    result: Option<int>,   // what its coroutine returned
    forced: bool)          // cancelled by force

  const NOTHING: Past := Past(0, false, false, None, false)

  /** The step begins the abort of the group of job `k` for the sake of another job, and so cancels `k`. */
  predicate Swept(s: Sys, a: Step, s': Sys, k: JobId) {
    k in s.jobs && a.k != k && s.jobs[k].txn.Some? && s.jobs[k].txn.value !in s.aborting
      && s.jobs[k].txn.value in s'.aborting
  }

  /** A cancel of job `k` itself; one of a concluded job only dismisses it. */
  predicate CancelsIt(s: Sys, a: Step, k: JobId) {
    a.Cancel? && a.k == k && k in s.jobs && s.jobs[k].status != Concluded
  }

  /** What the step from `s` to `s'` adds to the past of job `k`. */
  function After(s: Sys, a: Step, s': Sys, k: JobId, past: Past): Past {
    Past(
      past.drains + (if a == DrainBegin(k) then 1 else if a == DrainEnd(k) then -1 else 0),
      past.started || a == StartJob(k),
      a == UserPause(k) || a == ErrorStop(k)
        || (past.paused && a != UserResume(k) && !CancelsIt(s, a, k) && !Swept(s, a, s', k)),
      if a.Return? && a.k == k then Some(a.ret) else past.result,
      past.forced || (CancelsIt(s, a, k) && a.force) || Swept(s, a, s', k))
  }

  /** The past of job `k` in state `n` of a run. */
  ghost function Recall(ss: seq<Sys>, steps: seq<Step>, n: nat, k: JobId): Past
    requires n <= |steps| && n < |ss|
  {
    if n == 0 then NOTHING else After(ss[n - 1], steps[n - 1], ss[n], k, Recall(ss, steps, n - 1, k))
  }

  /** The fields of a job agree with its past. */
  predicate Agrees(j: Job, past: Past) {
    && j.drains == past.drains && j.started == past.started && j.userPaused == past.paused && j.force == past.forced
    && (past.result.Some? <==> j.started && j.deferred)
    && (past.result.Some? && j.ret == 0 ==> past.result.value == 0)
    && (j.commits > 0 ==> past.result == Some(0) && !past.forced)
    && (j.started && j.txn.None? ==> Finalised(j))
  }

  // ---------------------------------------------------------------- operations on groups

  /** What an operation on its group does to a job; it may clear the user's pause and force a cancel. */
  predicate Grouped(j: Job, j': Job, unpauses: bool, forces: bool) {
    && j'.drains == j.drains && j'.started == j.started && j'.userPaused == (j.userPaused && !unpauses)
    && j'.force == (j.force || forces) && (j.started ==> j'.deferred == j.deferred)
    && (j'.ret == 0 ==> j.ret == 0)
    && (j'.commits == j.commits || (j'.commits > j.commits && j'.ret == 0 && !j'.force))
    && (j'.txn == j.txn || (j'.txn.None? && Finalised(j'))) && j'.commits + j'.aborts >= j.commits + j.aborts
  }

  lemma {:induction false} GroupedOn(j: Job, j1: Job, j2: Job, u1: bool, f1: bool, u2: bool, f2: bool)
    requires Grouped(j, j1, u1, f1) && j1.commits == j.commits && Grouped(j1, j2, u2, f2)
    ensures Grouped(j, j2, u1 || u2, f1 || f2)
  {
  }

  lemma {:induction false} CheckGrouped(j: Job, ok: bool)
    ensures Grouped(j, Check(j, ok), false, false) && Check(j, ok).commits == j.commits
  {
  }

  lemma {:induction false} MoveGrouped(j: Job, s: Status)
    ensures Grouped(j, Move(j, s), false, false) && Move(j, s).commits == j.commits
  {
    hide Allowed;
  }

  lemma {:induction false} RcGrouped(j: Job)
    ensures Grouped(j, UpdateRc(j), false, false) && UpdateRc(j).commits == j.commits
    ensures UpdateRc(j).ret == 0 ==> !UpdateRc(j).force
  {
    hide Move;
    var j1 := if j.ret == 0 && j.force then j.(ret := -ECANCELED) else j;
    assert Grouped(j, j1, false, false) && j1.commits == j.commits;
    MoveGrouped(j1, Aborting);
    GroupedOn(j, j1, Move(j1, Aborting), false, false, false, false);
  }

  lemma {:induction false} SingleGrouped(j: Job)
    requires j.started ==> j.deferred
    ensures Grouped(j, FinalizeSingle(j), false, false)
  {
    hide Allowed, UpdateRc, Completed, Check;
    var c := Check(j, Completed(j));
    var u := UpdateRc(c);
    CheckGrouped(j, Completed(j));
    RcGrouped(c);
    GroupedOn(j, c, u, false, false, false, false);
    hide Grouped;
    EndGrouped(j, u);
  }

  lemma {:induction false} EndGrouped(j: Job, u: Job)
    requires Grouped(j, u, false, false) && u.commits == j.commits && (u.ret == 0 ==> !u.force)
    requires j.started ==> j.deferred
    ensures var j2 := if u.ret == 0 then u.(commits := u.commits + 1) else u.(aborts := u.aborts + 1);
            Grouped(j, Conclude(j2.(txn := None)), false, false)
  {
    hide Allowed;
  }

  lemma {:induction false} CancelGrouped(j: Job, force: bool)
    ensures Grouped(j, CancelAsync(j, force), true, force) && CancelAsync(j, force).commits == j.commits
  {
  }

  lemma {:induction false} PrepareGrouped(j: Job, code: int)
    ensures Grouped(j, FailPrepare(j, code), false, false) && FailPrepare(j, code).commits == j.commits
  {
    hide UpdateRc;
    RcGrouped(j.(ret := code));
  }

  /** The operation called for job `k` takes `s` to `s'`: what it does to job `i`. */
  predicate Touched(s: Sys, s': Sys, k: JobId, i: JobId) {
    i in s.jobs && i in s'.jobs &&
    var t := s.jobs[i].txn;
    var swept := i != k && t.Some? && t.value !in s.aborting && t.value in s'.aborting;
    Grouped(s.jobs[i], s'.jobs[i], swept, swept)
  }

  lemma {:induction false} AbortTouches(s: Sys, k: JobId, i: JobId)
    requires k in s.jobs && i in s.jobs
    ensures Touched(s, AbortGroup(s, k), k, i) && AbortGroup(s, k).jobs[i].commits == s.jobs[i].commits
  {
    hide CancelAsync, Check, Grouped;
    CancelGrouped(s.jobs[i], true);
    CheckGrouped(s.jobs[i], false);
    SameGrouped(s.jobs[i]);
  }

  lemma {:induction false} SameGrouped(j: Job)
    ensures Grouped(j, j, false, false)
  {
  }

  /** Two operations in a row, of which the first begins no abort and commits nothing. */
  lemma {:induction false} TouchedOn(s: Sys, s1: Sys, s2: Sys, k: JobId, i: JobId)
    requires i in s.jobs && i in s1.jobs && Grouped(s.jobs[i], s1.jobs[i], false, false)
    requires s1.aborting == s.aborting && s1.jobs[i].txn == s.jobs[i].txn && s1.jobs[i].commits == s.jobs[i].commits
    requires Touched(s1, s2, k, i)
    ensures Touched(s, s2, k, i)
  {
    hide Grouped;
    var t := s.jobs[i].txn;
    var swept := i != k && t.Some? && t.value !in s.aborting && t.value in s2.aborting;
    GroupedOn(s.jobs[i], s1.jobs[i], s2.jobs[i], false, false, swept, swept);
  }

  lemma {:induction false} WithTouches(s: Sys, k: JobId, j: Job, k': JobId, i: JobId)
    requires k in s.jobs && i in s.jobs && Grouped(s.jobs[k], j, false, false)
    ensures Touched(s, With(s, k, j), k', i)
  {
    hide Grouped;
    SameGrouped(s.jobs[i]);
  }

  /** The jobs of a group that is finalised have all returned. */
  ghost predicate Returned(s: Sys, t: Group) {
    forall i :: InGroup(s, i, t) && s.jobs[i].started ==> s.jobs[i].deferred
  }

  lemma {:induction false} FinalizeTouches(s: Sys, k: JobId, p: Prepared, i: JobId)
    requires k in s.jobs && i in s.jobs && (s.jobs[k].txn.Some? ==> Returned(s, s.jobs[k].txn.value))
    ensures Touched(s, DoFinalize(s, k, p), k, i)
  {
    hide AbortGroup, FailPrepare, FinalizeSingle, Grouped, Check;
    CheckGrouped(s.jobs[k], false);
    SameGrouped(s.jobs[i]);
    if s.jobs[k].txn.Some? {
      var t := s.jobs[k].txn.value;
      if p.Fine? {
        if s.jobs[i].txn == Some(t) {
          assert InGroup(s, i, t);
          SingleGrouped(s.jobs[i]);
        }
      } else if InGroup(s, p.who, t) {
        PrepareGrouped(s.jobs[p.who], p.code);
        var s1 := With(s, p.who, FailPrepare(s.jobs[p.who], p.code));
        var s2 := if p.who == k || t in s.aborting then s1 else With(s1, k, s1.jobs[k].(spared := true));
        SparedGrouped(s1.jobs[k]);
        assert Grouped(s.jobs[i], s2.jobs[i], false, false);
        AbortTouches(s2, k, i);
        TouchedOn(s, s2, AbortGroup(s2, k), k, i);
      }
    }
  }

  lemma {:induction false} SparedGrouped(j: Job)
    ensures Grouped(j, j.(spared := true), false, false)
  {
  }

  /** When the end of job `k` is noticed the others of its group that have completed have returned. */
  ghost predicate DoneReturned(s: Sys, t: Group) {
    forall i :: InGroup(s, i, t) && s.jobs[i].started && Completed(s.jobs[i]) ==> s.jobs[i].deferred
  }

  lemma {:induction false} SuccessTouches(s: Sys, k: JobId, p: Prepared, i: JobId)
    requires k in s.jobs && i in s.jobs
    requires s.jobs[k].txn.Some? ==> DoneReturned(s, s.jobs[k].txn.value) && (s.jobs[k].started ==> s.jobs[k].deferred)
    ensures Touched(s, Success(s, k, p), k, i)
  {
    hide DoFinalize, OthersClean, NeedsFinalize, Allowed, Grouped, Touched, Completed;
    if s.jobs[k].txn.None? {
      CheckGrouped(s.jobs[k], false);
      WithTouches(s, k, Check(s.jobs[k], false), k, i);
    } else {
      var t := s.jobs[k].txn.value;
      var w := Move(s.jobs[k], Waiting);
      var s1 := With(s, k, w);
      var s2 := With(s1, k, Check(w, OthersClean(s1, t)));
      MoveGrouped(s.jobs[k], Waiting);
      CheckGrouped(w, OthersClean(s1, t));
      GroupedOn(s.jobs[k], w, s2.jobs[k], false, false, false, false);
      SameGrouped(s.jobs[i]);
      assert s2 == With(s, k, s2.jobs[k]);
      WithTouches(s, k, s2.jobs[k], k, i);
      if AllCompleted(s2, t) {
        var s3 := AllPending(s2, t);
        MoveGrouped(s2.jobs[i], Pending);
        SameGrouped(s2.jobs[i]);
        GroupedOn(s.jobs[i], s2.jobs[i], s3.jobs[i], false, false, false, false);
        TouchedPending(s, s3, k, i);
        forall m | InGroup(s3, m, t) && s3.jobs[m].started
          ensures s3.jobs[m].deferred
        {
          assert m != k ==> InGroup(s, m, t);
        }
        FinalizeTouches(s3, k, p, i);
        TouchedOn(s, s3, DoFinalize(s3, k, p), k, i);
      }
    }
  }

  lemma {:induction false} TouchedPending(s: Sys, s': Sys, k: JobId, i: JobId)
    requires i in s.jobs && i in s'.jobs && s'.aborting == s.aborting && Grouped(s.jobs[i], s'.jobs[i], false, false)
    ensures Touched(s, s', k, i)
  {
  }

  lemma {:induction false} CompleteTouches(s: Sys, k: JobId, p: Prepared, i: JobId)
    requires k in s.jobs && i in s.jobs
    requires s.jobs[k].txn.Some? ==> DoneReturned(s, s.jobs[k].txn.value) && (s.jobs[k].started ==> s.jobs[k].deferred)
    ensures Touched(s, Complete(s, k, p), k, i)
  {
    hide AbortGroup, Success, UpdateRc, Completed, Check, Grouped, Touched;
    CheckGrouped(s.jobs[k], false);
    if s.jobs[k].txn.None? {
      WithTouches(s, k, Check(s.jobs[k], false), k, i);
    } else {
      var c := Check(s.jobs[k], !Completed(s.jobs[k]));
      var u := UpdateRc(c);
      var s1 := With(s, k, u);
      CheckGrouped(s.jobs[k], !Completed(s.jobs[k]));
      RcGrouped(c);
      GroupedOn(s.jobs[k], c, u, false, false, false, false);
      GroupedFields(s.jobs[k], u);
      SameGrouped(s.jobs[i]);
      CheckTxn(s.jobs[k]);
      AbortTouches(s1, k, i);
      TouchedOn(s, s1, AbortGroup(s1, k), k, i);
      if u.ret == 0 {
        RcSame(s.jobs[k]);
        SuccessTouches(s1, k, p, i);
        TouchedOn(s, s1, Success(s1, k, p), k, i);
      }
    }
  }

  lemma {:induction false} GroupedFields(j: Job, j': Job)
    requires Grouped(j, j', false, false)
    ensures j'.started == j.started && (j.started ==> j'.deferred == j.deferred)
  {
  }

  /** Without an error the job is as before, but for `broken`. */
  lemma {:induction false} RcSame(j: Job)
    requires UpdateRc(Check(j, !Completed(j))).ret == 0
    ensures UpdateRc(Check(j, !Completed(j))) == Check(j, !Completed(j))
    ensures Completed(Check(j, !Completed(j))) <==> Completed(j)
  {
  }

  lemma {:induction false} CancelTouches(s: Sys, k: JobId, force: bool, p: Prepared, i: JobId)
    requires k in s.jobs && i in s.jobs && s.jobs[k].status != Concluded
    requires s.jobs[k].txn.Some? ==> DoneReturned(s, s.jobs[k].txn.value)
    ensures var s', j := CancelJob(s, k, force, p), s.jobs[i];
            if i == k then i in s'.jobs && Grouped(j, s'.jobs[i], true, force) else Touched(s, s', k, i)
  {
    hide AbortGroup, Complete, CancelAsync, Grouped, Completed;
    var c := CancelAsync(s.jobs[k], force);
    var s1 := With(s, k, c);
    CancelGrouped(s.jobs[k], force);
    CancelStatus(s.jobs[k], c);
    SameGrouped(s.jobs[i]);
    if !c.started {
      CompleteTouches(s1, k, p, i);
      if i == k {
        GroupedOn(s.jobs[k], c, Complete(s1, k, p).jobs[k], true, force, false, false);
      }
    } else if c.deferred && c.force {
      AbortTouches(s1, k, i);
      if i == k {
        GroupedOn(s.jobs[k], c, AbortGroup(s1, k).jobs[k], true, force, false, false);
      }
    }
  }

  lemma {:induction false} CancelStatus(j: Job, c: Job)
    requires c == CancelAsync(j, true) || c == CancelAsync(j, false)
    ensures Completed(c) <==> Completed(j)
  {
  }

  // ---------------------------------------------------------------- steps

  lemma {:induction false} GroupReturned(s: Sys, t: Group)
    requires Inv(s)
    ensures DoneReturned(s, t)
  {
    hide Completed, JobOk;
    forall i | InGroup(s, i, t) && s.jobs[i].started && Completed(s.jobs[i])
      ensures s.jobs[i].deferred
    {
      OkNow(s, i);
      TxnIsGroup(s.jobs[i], s.jobs[i].group in s.aborting);
      DoneDeferred(s.jobs[i], s.jobs[i].group in s.aborting);
    }
  }

  lemma {:induction false} DoneDeferred(j: Job, aborting: bool)
    requires JobOk(j, aborting) && Member(j) && Completed(j) && j.started
    ensures j.deferred
  {
  }

  /** An operation on its group keeps a job in agreement with its past. */
  lemma {:induction false} GroupedAgrees(j: Job, j': Job, past: Past, unpauses: bool, forces: bool)
    requires Agrees(j, past) && Grouped(j, j', unpauses, forces)
    requires (j'.commits > j.commits ==> j'.started && j'.deferred) && (forces ==> j.commits == 0)
    ensures Agrees(j', past.(paused := past.paused && !unpauses, forced := past.forced || forces))
  {
  }

  /** A job takes a step of its own that neither ends nor cancels it. */
  lemma {:induction false} RunAgrees(s: Sys, a: Step, past: Past)
    requires Enabled(s, a) && !a.Create? && !a.Exit? && !a.Cancel? && !a.Finalize? && !a.AbortNext?
    requires var j := s.jobs[a.k]; JobOk(j, j.group in s.aborting) && Agrees(j, past)
    ensures a.k in Next(s, a).jobs && Agrees(Next(s, a).jobs[a.k], After(s, a, Next(s, a), a.k, past))
  {
    hide DoFinalize, CancelJob, Complete, FinalizeSingle, Allowed;
  }

  lemma {:induction false} NextLeaves(s: Sys, a: Step, k: JobId)
    requires Enabled(s, a) && !a.Exit? && !a.Cancel? && !a.Finalize? && a.k != k && k in s.jobs
    ensures Same(s, Next(s, a), k) && Next(s, a).aborting == s.aborting
  {
    hide DoFinalize, CancelJob, Complete, FinalizeSingle, Dismiss, Start, PausePoint, Continue, Move;
    hide RunReturned, Check, NewJob;
  }

  lemma {:induction false} ExitTouches(s: Sys, k: JobId, p: Prepared, i: JobId)
    requires Inv(s) && Enabled(s, Exit(k, p)) && i in s.jobs
    ensures Touched(s, Next(s, Exit(k, p)), k, i)
  {
    hide JobOk, Complete, Touched, Grouped, Completed;
    var j := s.jobs[k];
    OkNow(s, k);
    ExitCompletes(j, j.group in s.aborting);
    ExitDeferred(j, j.group in s.aborting);
    GroupReturned(s, j.group);
    hide Inv;
    var s0 := With(s, k, j.(exits := false));
    ExitGrouped(j);
    SameGrouped(s.jobs[i]);
    assert DoneReturned(s0, j.group) by {
      forall m | InGroup(s0, m, j.group) && s0.jobs[m].started && Completed(s0.jobs[m])
        ensures s0.jobs[m].deferred
      {
        assert m != k ==> InGroup(s, m, j.group);
      }
    }
    CompleteTouches(s0, k, p, i);
    TouchedOn(s, s0, Complete(s0, k, p), k, i);
  }

  lemma {:induction false} ExitDeferred(j: Job, aborting: bool)
    requires JobOk(j, aborting) && j.exits
    ensures j.deferred
  {
  }

  lemma {:induction false} ExitGrouped(j: Job)
    ensures Grouped(j, j.(exits := false), false, false)
  {
  }

  lemma {:induction false} UserFinalizeTouches(s: Sys, k: JobId, p: Prepared, i: JobId)
    requires Inv(s) && Enabled(s, Finalize(k, p)) && i in s.jobs
    ensures Touched(s, Next(s, Finalize(k, p)), k, i)
  {
    hide JobOk, DoFinalize, Touched, Completed, Inv;
    PendingGroup(s, k, s.jobs[k].group);
    GroupReturned(s, s.jobs[k].group);
    FinalizeTouches(s, k, p, i);
  }

  /** A job that an operation on its group touched agrees with its past. */
  lemma {:induction false} TouchedAgrees(s: Sys, a: Step, k: JobId, past: Past)
    requires Inv(s) && Enabled(s, a) && (a.Exit? || a.Finalize? || (a.Cancel? && a.k != k)) && k in s.jobs
    requires Agrees(s.jobs[k], past) && Touched(s, Next(s, a), a.k, k)
    ensures Agrees(Next(s, a).jobs[k], After(s, a, Next(s, a), k, past))
  {
    hide Next, Enabled, JobOk, Grouped, Agrees, Inv;
    var s' := Next(s, a);
    var swept := Swept(s, a, s', k);
    NextInv(s, a);
    OkNow(s, k);
    OkNow(s', k);
    TxnIsGroup(s.jobs[k], s.jobs[k].group in s.aborting);
    MemberUncommitted(s.jobs[k]);
    CommitStarted(s'.jobs[k], s'.jobs[k].group in s'.aborting);
    GroupedAgrees(s.jobs[k], s'.jobs[k], past, swept, swept);
  }

  lemma {:induction false} MemberUncommitted(j: Job)
    ensures Member(j) ==> j.commits == 0
  {
  }

  lemma {:induction false} CommitStarted(j: Job, aborting: bool)
    requires JobOk(j, aborting)
    ensures j.commits > 0 ==> j.started && j.deferred
  {
  }

  lemma {:induction false} DismissAgrees(j: Job, past: Past)
    requires JobOk(j, true) || JobOk(j, false)
    requires j.status == Concluded && Agrees(j, past)
    ensures Agrees(Dismiss(j), past)
  {
    hide Allowed;
  }

  lemma {:induction false} OwnCancelAgrees(s: Sys, a: Step, past: Past)
    requires Inv(s) && Enabled(s, a) && a.Cancel? && Agrees(s.jobs[a.k], past)
    ensures a.k in Next(s, a).jobs && Agrees(Next(s, a).jobs[a.k], After(s, a, Next(s, a), a.k, past))
  {
    hide JobOk, Grouped, Agrees, Inv, Completed, Dismiss;
    var k, j := a.k, s.jobs[a.k];
    OkNow(s, k);
    if j.status == Concluded {
      DismissAgrees(j, past);
      assert After(s, a, Next(s, a), k, past) == past;
    } else {
      hide CancelJob;
      CancelMember(j, j.group in s.aborting);
      GroupReturned(s, j.group);
      CancelTouches(s, k, a.force, a.prepared, k);
      NextInv(s, a);
      OkNow(Next(s, a), k);
      CommitStarted(Next(s, a).jobs[k], Next(s, a).jobs[k].group in Next(s, a).aborting);
      MemberUncommitted(j);
      GroupedAgrees(j, Next(s, a).jobs[k], past, true, a.force);
    }
  }

  lemma {:induction false} AbortNextAgrees(s: Sys, a: Step, past: Past)
    requires Inv(s) && Enabled(s, a) && a.AbortNext? && Agrees(s.jobs[a.k], past)
    ensures a.k in Next(s, a).jobs && Agrees(Next(s, a).jobs[a.k], After(s, a, Next(s, a), a.k, past))
  {
    hide JobOk, Grouped, Agrees, FinalizeSingle, Inv, Completed;
    var k, j := a.k, s.jobs[a.k];
    OkNow(s, k);
    TxnIsGroup(j, j.group in s.aborting);
    if j.started {
      DoneDeferred(j, j.group in s.aborting);
    }
    SingleGrouped(j);
    NextInv(s, a);
    OkNow(Next(s, a), k);
    CommitStarted(Next(s, a).jobs[k], Next(s, a).jobs[k].group in Next(s, a).aborting);
    MemberUncommitted(j);
    GroupedAgrees(j, FinalizeSingle(j), past, false, false);
  }

  /** Every step keeps every job in agreement with its past. */
  lemma {:induction false} NextAgrees(s: Sys, a: Step, k: JobId, past: Past)
    requires Inv(s) && Enabled(s, a) && k in s.jobs && Agrees(s.jobs[k], past)
    ensures k in Next(s, a).jobs && Agrees(Next(s, a).jobs[k], After(s, a, Next(s, a), k, past))
  {
    hide JobOk, Agrees, Next, Inv, Grouped;
    if a.Exit? {
      ExitTouches(s, a.k, a.prepared, k);
      TouchedAgrees(s, a, k, past);
    } else if a.Finalize? {
      UserFinalizeTouches(s, a.k, a.prepared, k);
      TouchedAgrees(s, a, k, past);
    } else if a.Cancel? && a.k != k {
      OtherCancelTouches(s, a, k);
      TouchedAgrees(s, a, k, past);
    } else if a.Cancel? {
      OwnCancelAgrees(s, a, past);
    } else if a.k != k {
      NextLeaves(s, a, k);
      assert After(s, a, Next(s, a), k, past) == past;
    } else if a.AbortNext? {
      AbortNextAgrees(s, a, past);
    } else {
      OkNow(s, k);
      RunAgrees(s, a, past);
    }
  }

  lemma {:induction false} OtherCancelTouches(s: Sys, a: Step, k: JobId)
    requires Inv(s) && Enabled(s, a) && a.Cancel? && a.k != k && k in s.jobs
    ensures Touched(s, Next(s, a), a.k, k)
  {
    hide JobOk, Grouped, Inv, Completed, Complete, AbortGroup, CancelAsync;
    SameGrouped(s.jobs[k]);
    if s.jobs[a.k].status != Concluded {
      OkNow(s, a.k);
      TxnIsGroup(s.jobs[a.k], s.jobs[a.k].group in s.aborting);
      GroupReturned(s, s.jobs[a.k].group);
      CancelTouches(s, a.k, a.force, a.prepared, k);
    }
  }

  // ---------------------------------------------------------------- runs

  /** In every state of every run, the fields of a job tell its past; a job that does not exist has none. */
  lemma {:induction false} FieldsTell(ss: seq<Sys>, steps: seq<Step>, n: nat, k: JobId)
    requires IsRun(ss, steps) && n < |ss|
    ensures var past := Recall(ss, steps, n, k);
            if k in ss[n].jobs then Agrees(ss[n].jobs[k], past) else past == NOTHING
  {
    hide Inv, Next, Enabled, Agrees, After;
    if n > 0 {
      var s, a := ss[n - 1], steps[n - 1];
      FieldsTell(ss, steps, n - 1, k);
      RunInv(ss, steps, n - 1);
      if k in s.jobs {
        NextAgrees(s, a, k, Recall(ss, steps, n - 1, k));
      } else {
        NoPast(s, a, k);
      }
    }
  }

  lemma {:induction false} NoPast(s: Sys, a: Step, k: JobId)
    requires Enabled(s, a) && k !in s.jobs
    ensures After(s, a, Next(s, a), k, NOTHING) == NOTHING
    ensures k in Next(s, a).jobs ==> Agrees(Next(s, a).jobs[k], NOTHING)
  {
    if !a.Create? {
      hide Next;
      NextSteady(s, a);
    }
  }

  /** How many drained sections of job `k` the steps have begun and not ended. */
  function Drains(steps: seq<Step>, k: JobId): int {
    if steps == [] then 0
    else
      var a := steps[|steps| - 1];
      Drains(steps[..|steps| - 1], k) + if a == DrainBegin(k) then 1 else if a == DrainEnd(k) then -1 else 0
  }

  lemma {:induction false} DrainsAre(ss: seq<Sys>, steps: seq<Step>, n: nat, k: JobId)
    requires IsRun(ss, steps) && n < |ss|
    ensures Recall(ss, steps, n, k).drains == Drains(steps[..n], k)
    ensures Recall(ss, steps, n, k).started <==> StartJob(k) in steps[..n]
  {
    hide Next, Enabled;
    if n > 0 {
      DrainsAre(ss, steps, n - 1, k);
      assert steps[..n][..n - 1] == steps[..n - 1] && steps[..n] == steps[..n - 1] + [steps[n - 1]];
    }
  }

  /**
   In no run is a forbidden transition requested or an assertion broken, and `pause_count` counts the reasons
   to pause: that the job was not started, the user's pause or an error's, until it is resumed or cancelled,
   and the drained sections begun and not ended.
   */
  lemma {:induction false} NeverBroken(ss: seq<Sys>, steps: seq<Step>, n: nat, k: JobId)
    requires IsRun(ss, steps) && n < |ss| && k in ss[n].jobs
    ensures !ss[n].jobs[k].broken && ss[n].jobs[k].pauseCount ==
            (if StartJob(k) in steps[..n] then 0 else 1) + (if Recall(ss, steps, n, k).paused then 1 else 0)
            + Drains(steps[..n], k)
  {
    RunInv(ss, steps, n);
    OkNow(ss[n], k);
    hide Inv, IsRun;
    FieldsTell(ss, steps, n, k);
    DrainsAre(ss, steps, n, k);
  }

  /** A job commits only if its coroutine returned without an error and nobody has cancelled it by force. */
  lemma {:induction false} CommitsEarned(ss: seq<Sys>, steps: seq<Step>, n: nat, k: JobId)
    requires IsRun(ss, steps) && n < |ss| && k in ss[n].jobs && ss[n].jobs[k].commits > 0
    ensures var past := Recall(ss, steps, n, k); past.started && past.result == Some(0) && !past.forced
  {
    FieldsTell(ss, steps, n, k);
  }

  /**
   An error is never forgotten: once the exit of a job that returned one has been noticed, the abort of its
   group has begun, and the job has not committed and never will.
   */
  lemma {:induction false} ErrorsAbort(ss: seq<Sys>, steps: seq<Step>, n: nat, k: JobId, code: int)
    requires IsRun(ss, steps) && n < |ss| && k in ss[n].jobs
    requires Recall(ss, steps, n, k).result == Some(code) && code != 0 && !ss[n].jobs[k].exits
    ensures ss[n].jobs[k].group in ss[n].aborting && ss[n].jobs[k].commits == 0
  {
    FieldsTell(ss, steps, n, k);
    RunInv(ss, steps, n);
    OkNow(ss[n], k);
    hide Inv, IsRun;
  }
}
