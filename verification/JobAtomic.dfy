/**
 A group succeeds or fails as a whole.  An abort that was entered for a failed or cancelled job finalises
 every job of the group through abort; only a finalisation that fails in another job than the one it was
 called for spares its caller.
 */
module JobAtomic {
  import opened Options
  import opened Job
  import opened JobGroup
  import opened JobInv
  import opened JobRun
  import opened JobAbort

  // ---------------------------------------------------------------- who is spared

  /** A finalisation of a group, asked for or begun by the exit of its last job, that fails in another job. */
  predicate FailsElsewhere(s: Sys, a: Step)
    requires a.k in s.jobs
  {
    && (a.Finalize? || (a.Exit? && s.jobs[a.k].ret == 0 && !s.jobs[a.k].force))
    && a.prepared.Fails? && a.prepared.who != a.k && s.jobs[a.k].group !in s.aborting
  }

  /** Nobody becomes spared but jobs in `ks`. */
  predicate SparesAtMost(s: Sys, s': Sys, ks: set<JobId>) {
    forall i :: i in s'.jobs && s'.jobs[i].spared ==> i in ks || (i in s.jobs && s.jobs[i].spared)
  }

  lemma {:induction false} SparesOn(s: Sys, s1: Sys, s2: Sys, ks: set<JobId>)
    requires SparesAtMost(s, s1, {}) && SparesAtMost(s1, s2, ks)
    ensures SparesAtMost(s, s2, ks)
  {
  }

  lemma {:induction false} SparesWith(s: Sys, k: JobId, j: Job)
    requires j.spared ==> k in s.jobs && s.jobs[k].spared
    ensures SparesAtMost(s, With(s, k, j), {})
  {
  }

  lemma {:induction false} AbortSpares(s: Sys, k: JobId)
    requires k in s.jobs
    ensures SparesAtMost(s, AbortGroup(s, k), {})
  {
    hide CancelAsync;
    forall i | i in s.jobs
      ensures !CancelAsync(s.jobs[i], true).spared
    {
      CancelUnspares(s.jobs[i]);
    }
  }

  lemma {:induction false} AllSpare(s: Sys, t: Group)
    ensures SparesAtMost(s, AllFinalised(s, t), {}) && SparesAtMost(s, AllPending(s, t), {})
  {
    hide FinalizeSingle, Allowed;
  }

  /** Who is spared by a finalisation called for `k`. */
  function Caller(s: Sys, k: JobId, p: Prepared): set<JobId>
    requires k in s.jobs
  {
    if p.Fails? && p.who != k && s.jobs[k].txn.Some? && s.jobs[k].txn.value !in s.aborting then {k} else {}
  }

  lemma {:induction false} FailSpares(j: Job, code: int)
    ensures FailPrepare(j, code).spared ==> j.spared
  {
  }

  lemma {:induction false} FinalizeSpares(s: Sys, k: JobId, p: Prepared)
    requires k in s.jobs
    ensures SparesAtMost(s, DoFinalize(s, k, p), Caller(s, k, p))
  {
    hide AbortGroup, AllFinalised, FailPrepare;
    if s.jobs[k].txn.Some? {
      var t := s.jobs[k].txn.value;
      if p.Fine? {
        AllSpare(s, t);
      } else if InGroup(s, p.who, t) {
        FailSpares(s.jobs[p.who], p.code);
        var s1 := With(s, p.who, FailPrepare(s.jobs[p.who], p.code));
        AbortSpares(s1, k);
        AbortSpares(With(s1, k, s1.jobs[k].(spared := true)), k);
      }
    }
  }

  lemma {:induction false} SuccessSpares(s: Sys, k: JobId, p: Prepared)
    requires k in s.jobs
    ensures SparesAtMost(s, Success(s, k, p), Caller(s, k, p))
  {
    hide DoFinalize, OthersClean, AllCompleted, NeedsFinalize, Allowed, AllPending, SparesAtMost;
    if s.jobs[k].txn.None? {
      SparesWith(s, k, Check(s.jobs[k], false));
      NoneIsAtMost(s, Success(s, k, p), Caller(s, k, p));
    } else {
      var t := s.jobs[k].txn.value;
      var s1 := With(s, k, Move(s.jobs[k], Waiting));
      var s2 := With(s1, k, Check(s1.jobs[k], OthersClean(s1, t)));
      var s3 := AllPending(s2, t);
      SparesWith(s, k, s1.jobs[k]);
      SparesWith(s1, k, s2.jobs[k]);
      SparesOn(s, s1, s2, {});
      NoneIsAtMost(s, s2, Caller(s, k, p));
      AllSpare(s2, t);
      SparesOn(s, s2, s3, {});
      NoneIsAtMost(s, s3, Caller(s, k, p));
      PendingAt(s2, t, k);
      FinalizeSpares(s3, k, p);
      SparesOn(s, s3, DoFinalize(s3, k, p), Caller(s, k, p));
    }
  }

  lemma {:induction false} PendingAt(s: Sys, t: Group, k: JobId)
    requires k in s.jobs
    ensures k in AllPending(s, t).jobs && AllPending(s, t).jobs[k].txn == s.jobs[k].txn
    ensures AllPending(s, t).aborting == s.aborting
  {
    hide Allowed;
  }

  lemma {:induction false} NoneIsAtMost(s: Sys, s': Sys, ks: set<JobId>)
    requires SparesAtMost(s, s', {})
    ensures SparesAtMost(s, s', ks)
  {
  }

  lemma {:induction false} CompleteSpares(s: Sys, k: JobId, p: Prepared)
    requires k in s.jobs
    ensures SparesAtMost(s, Complete(s, k, p), if s.jobs[k].ret == 0 && !s.jobs[k].force then Caller(s, k, p) else {})
  {
    hide AbortGroup, Success, Completed, Allowed, SparesAtMost;
    if s.jobs[k].txn.None? {
      SparesWith(s, k, Check(s.jobs[k], false));
      NoneIsAtMost(s, Complete(s, k, p), Caller(s, k, p));
    } else {
      var s1 := With(s, k, UpdateRc(Check(s.jobs[k], !Completed(s.jobs[k]))));
      SparesWith(s, k, s1.jobs[k]);
      AbortSpares(s1, k);
      SparesOn(s, s1, AbortGroup(s1, k), {});
      SuccessSpares(s1, k, p);
      SparesOn(s, s1, Success(s1, k, p), Caller(s, k, p));
    }
  }

  lemma {:induction false} CancelSpares(s: Sys, k: JobId, force: bool, p: Prepared)
    requires k in s.jobs && (!s.jobs[k].started ==> force || s.jobs[k].force)
    ensures SparesAtMost(s, CancelJob(s, k, force, p), {})
  {
    hide AbortGroup, Complete, Allowed, SparesAtMost;
    var c := CancelAsync(s.jobs[k], force);
    var s1 := With(s, k, c);
    SparesWith(s, k, Dismiss(s.jobs[k]));
    SparesWith(s, k, c);
    AbortSpares(s1, k);
    SparesOn(s, s1, AbortGroup(s1, k), {});
    if !c.started {
      CompleteSpares(s1, k, p);
      SparesOn(s, s1, Complete(s1, k, p), {});
    }
  }

  lemma {:induction false} OwnSpares(s: Sys, a: Step)
    requires Enabled(s, a) && !a.Create? && !a.Exit? && !a.Finalize? && !a.Cancel?
    ensures SparesAtMost(s, Next(s, a), {})
  {
    hide Complete, DoFinalize, CancelJob, FinalizeSingle, Allowed, Completed, SparesAtMost;
    SparesWith(s, a.k, Next(s, a).jobs[a.k]);
  }

  /** No step spares anybody but the caller of a finalisation that fails elsewhere. */
  lemma {:induction false} NextSpares(s: Sys, a: Step)
    requires Inv(s) && Enabled(s, a) && !a.Create?
    ensures SparesAtMost(s, Next(s, a), if FailsElsewhere(s, a) then {a.k} else {})
  {
    hide Complete, DoFinalize, CancelJob, FinalizeSingle, Allowed, Inv, JobOk;
    OkNow(s, a.k);
    var j := s.jobs[a.k];
    TxnIsGroup(j, j.group in s.aborting);
    if a.Exit? {
      ExitCompletes(j, j.group in s.aborting);
      CompleteSpares(With(s, a.k, j.(exits := false)), a.k, a.prepared);
    } else if a.Finalize? {
      FinalizeSpares(s, a.k, a.prepared);
    } else if a.Cancel? {
      CancelSpares(s, a.k, a.force, a.prepared);
    } else {
      OwnSpares(s, a);
    }
  }

  // ---------------------------------------------------------------- how an abort is entered

  ghost predicate NobodySpared(s: Sys, t: Group) {
    forall i :: InGroup(s, i, t) ==> !s.jobs[i].spared
  }

  /** A finalisation begins an abort only if a preparation fails, and spares its caller if that is another's. */
  lemma {:induction false} FinalizeBegins(s: Sys, k: JobId, p: Prepared, t: Group)
    requires k in s.jobs && t !in s.aborting
    ensures var s' := DoFinalize(s, k, p);
            t in s'.aborting ==> p.Fails? && (p.who != k ==> InGroup(s', k, t) && s'.jobs[k].spared)
  {
    hide CancelAsync, FailPrepare, FinalizeSingle;
  }

  lemma {:induction false} SuccessBegins(s: Sys, k: JobId, p: Prepared, t: Group)
    requires k in s.jobs && t !in s.aborting
    ensures var s' := Success(s, k, p);
            t in s'.aborting ==> p.Fails? && (p.who != k ==> InGroup(s', k, t) && s'.jobs[k].spared)
  {
    hide DoFinalize, OthersClean, AllCompleted, NeedsFinalize, Allowed, AllPending;
    if s.jobs[k].txn.Some? {
      var u := s.jobs[k].txn.value;
      var s1 := With(s, k, Move(s.jobs[k], Waiting));
      var s2 := With(s1, k, Check(s1.jobs[k], OthersClean(s1, u)));
      PendingAt(s2, u, k);
      FinalizeBegins(AllPending(s2, u), k, p, t);
    }
  }

  lemma {:induction false} CompleteBegins(s: Sys, k: JobId, p: Prepared, t: Group)
    requires k in s.jobs && t !in s.aborting && s.jobs[k].ret == 0 && !s.jobs[k].force && p.Fails? && p.who != k
    ensures var s' := Complete(s, k, p); t in s'.aborting ==> InGroup(s', k, t) && s'.jobs[k].spared
  {
    hide Success, AbortGroup, Completed, Allowed;
    if s.jobs[k].txn.Some? && t in Complete(s, k, p).aborting {
      SuccessBegins(With(s, k, UpdateRc(Check(s.jobs[k], !Completed(s.jobs[k])))), k, p, t);
    }
  }

  /**
   How an abort is entered decides who is spared: nobody, if and only if it is not entered by a finalisation
   that fails in another job than the one it was called for.
   */
  lemma {:induction false} SparedIff(s: Sys, a: Step, t: Group)
    requires Inv(s) && Enabled(s, a) && t !in s.aborting && !a.Create?
    ensures t in Next(s, a).aborting ==> (NobodySpared(Next(s, a), t) <==> !FailsElsewhere(s, a))
  {
    hide Inv, JobOk, Complete, DoFinalize, CancelJob, FinalizeSingle;
    if t !in Next(s, a).aborting {
    } else if FailsElsewhere(s, a) {
      if a.Finalize? {
        FinalizeBegins(s, a.k, a.prepared, t);
      } else {
        CompleteBegins(With(s, a.k, s.jobs[a.k].(exits := false)), a.k, a.prepared, t);
      }
    } else {
      NotYetSpared(s, a, t);
    }
  }

  lemma {:induction false} NotYetSpared(s: Sys, a: Step, t: Group)
    requires Inv(s) && Enabled(s, a) && t !in s.aborting && !a.Create? && !FailsElsewhere(s, a)
    ensures NobodySpared(Next(s, a), t)
  {
    hide Inv, JobOk, Next, Enabled, FailsElsewhere;
    NextSpares(s, a);
    NextSteady(s, a);
    NextInv(s, a);
    forall i | InGroup(Next(s, a), i, t)
      ensures !Next(s, a).jobs[i].spared
    {
      OkNow(s, i);
      OkNow(Next(s, a), i);
      TxnIsGroup(Next(s, a).jobs[i], Next(s, a).jobs[i].group in Next(s, a).aborting);
      FreeNotSpared(s.jobs[i]);
    }
  }

  lemma {:induction false} FreeNotSpared(j: Job)
    ensures JobOk(j, false) ==> !j.spared
  {
  }

  // ---------------------------------------------------------------- atomicity

  /** The job was finalised once, through abort, with an error. */
  predicate Aborted(j: Job) {
    j.txn == None && j.commits == 0 && j.aborts == 1 && j.ret != 0 && (j.status == Concluded || j.status == Null)
  }

  /** A started job that is not spared is in its group or was finalised. */
  predicate OnItsWay(j: Job, t: Group) {
    j.group == t && !j.spared && j.status != Created && (j.txn == Some(t) || Finalised(j))
  }

  lemma {:induction false} WayOn(s: Sys, a: Step, i: JobId, t: Group)
    requires Inv(s) && Enabled(s, a) && t in s.aborting && i in s.jobs && OnItsWay(s.jobs[i], t)
    ensures var s' := Next(s, a); i in s'.jobs && OnItsWay(s'.jobs[i], t) && t in s'.aborting
  {
    hide JobOk, Inv, Next, Enabled, Rank, Finalised;
    RankNeverRises(s, a, i, t);
    NextInv(s, a);
    OkNow(Next(s, a), i);
    TxnIsGroup(Next(s, a).jobs[i], true);
    OkNow(s, i);
    TxnIsGroup(s.jobs[i], true);
  }

  lemma {:induction false} PathOn(ss: seq<Sys>, steps: seq<Step>, n: nat, i: JobId, t: Group)
    requires IsPath(ss, steps) && n < |ss| && Inv(ss[0]) && t in ss[0].aborting
    requires i in ss[0].jobs && OnItsWay(ss[0].jobs[i], t)
    ensures Inv(ss[n]) && t in ss[n].aborting && i in ss[n].jobs && OnItsWay(ss[n].jobs[i], t)
  {
    hide Inv, Next, Enabled, OnItsWay;
    if n > 0 {
      PathOn(ss, steps, n - 1, i, t);
      NextInv(ss[n - 1], steps[n - 1]);
      WayOn(ss[n - 1], steps[n - 1], i, t);
    }
  }

  lemma {:induction false} LeftAborted(j: Job, t: Group)
    requires JobOk(j, true) && OnItsWay(j, t) && j.txn != Some(t)
    ensures Aborted(j)
  {
  }

  /**
   An abort is atomic.  Take any path from a state in which the abort of a group has begun and has spared
   nobody, with all its jobs started, to one in which none of them can take another step of its own.  Then
   the group is empty, and each of its jobs was finalised once, through abort, with an error.
   */
  lemma {:induction false} AbortAtomic(ss: seq<Sys>, steps: seq<Step>, t: Group)
    requires IsPath(ss, steps) && Inv(ss[0]) && t in ss[0].aborting && !CanMove(ss[|steps|], t)
    requires NobodySpared(ss[0], t) && !Unstarted(ss[0], t)
    ensures Empty(ss[|steps|], t)
    ensures forall i :: InGroup(ss[0], i, t) ==> i in ss[|steps|].jobs && Aborted(ss[|steps|].jobs[i])
  {
    hide Inv, Next, Enabled, CanMove, JobOk;
    var n := |steps|;
    StartedForever(ss, steps, n, t);
    MovesIff(ss[n], t);
    forall i | InGroup(ss[0], i, t)
      ensures i in ss[n].jobs && Aborted(ss[n].jobs[i])
    {
      OkNow(ss[0], i);
      TxnIsGroup(ss[0].jobs[i], ss[0].jobs[i].group in ss[0].aborting);
      PathOn(ss, steps, n, i, t);
      OkNow(ss[n], i);
      assert !InGroup(ss[n], i, t);
      LeftAborted(ss[n].jobs[i], t);
    }
  }

  /** `a` takes `s` to `s'` and begins the abort of `t` for a failed or cancelled job, or a failing caller. */
  ghost predicate Enters(s: Sys, a: Step, s': Sys, t: Group) {
    && t !in s.aborting && t in s'.aborting && !Unstarted(s', t)
    && !a.Create? && a.k in s.jobs && !FailsElsewhere(s, a)
  }

  /** The same from the step that enters the abort. */
  lemma {:induction false} FailureAtomic(ss: seq<Sys>, steps: seq<Step>, t: Group)
    requires IsPath(ss, steps) && steps != [] && Inv(ss[0])
    ensures var s := ss[|steps|];
            Enters(ss[0], steps[0], ss[1], t) && !CanMove(s, t) ==>
              Empty(s, t) && forall i :: InGroup(ss[1], i, t) ==> i in s.jobs && Aborted(s.jobs[i])
  {
    hide Inv, Next, Enabled, CanMove, FailsElsewhere, Aborted;
    if Enters(ss[0], steps[0], ss[1], t) && !CanMove(ss[|steps|], t) {
      NextInv(ss[0], steps[0]);
      SparedIff(ss[0], steps[0], t);
      var ts, more := ss[1..], steps[1..];
      forall i | 0 <= i < |more|
        ensures Enabled(ts[i], more[i]) && ts[i + 1] == Next(ts[i], more[i])
      {
        assert ts[i] == ss[i + 1] && more[i] == steps[i + 1] && ts[i + 1] == ss[i + 2];
      }
      assert ts[|more|] == ss[|steps|] && ts[0] == ss[1];
      AbortAtomic(ts, more, t);
    }
  }

  // ---------------------------------------------------------------- outcomes

  /** Before state `n` of the run, a finalisation called for `k` failed in another job. */
  ghost predicate Asked(ss: seq<Sys>, steps: seq<Step>, n: nat, k: JobId)
    requires n <= |steps| && n <= |ss|
  {
    exists m :: 0 <= m < n && k in ss[m].jobs && steps[m].k == k && FailsElsewhere(ss[m], steps[m])
  }

  lemma {:induction false} SparedAsked(ss: seq<Sys>, steps: seq<Step>, n: nat, k: JobId)
    requires IsRun(ss, steps) && n < |ss| && k in ss[n].jobs && ss[n].jobs[k].spared
    ensures Asked(ss, steps, n, k)
  {
    hide Inv, Next, Enabled, FailsElsewhere;
    if n > 0 {
      var s, a := ss[n - 1], steps[n - 1];
      RunInv(ss, steps, n - 1);
      if a.Create? {
        CreatedNotSpared(s, a);
      } else {
        EnabledHas(s, a);
        NextSpares(s, a);
      }
      if k in s.jobs && s.jobs[k].spared {
        SparedAsked(ss, steps, n - 1, k);
        var m :| 0 <= m < n - 1 && k in ss[m].jobs && steps[m].k == k && FailsElsewhere(ss[m], steps[m]);
      }
    }
  }

  lemma {:induction false} EnabledHas(s: Sys, a: Step)
    requires Enabled(s, a) && !a.Create?
    ensures a.k in s.jobs
  {
  }

  lemma {:induction false} CreatedNotSpared(s: Sys, a: Step)
    requires Enabled(s, a) && a.Create?
    ensures SparesAtMost(s, Next(s, a), {})
  {
  }

  /**
   How jobs end.  Each is finalised once.  If its group was aborted, it aborts with an error, unless a
   finalisation called for it failed in another job; otherwise it commits, with `ret` 0, and so has every
   other job of its group that was not withdrawn.
   */
  lemma {:induction false} Outcome(ss: seq<Sys>, steps: seq<Step>, n: nat, k: JobId)
    requires IsRun(ss, steps) && n < |ss| && k in ss[n].jobs && Finalised(ss[n].jobs[k])
    ensures var s, j := ss[n], ss[n].jobs[k];
            && j.commits + j.aborts == 1 && (j.commits == 1 <==> j.ret == 0)
            && (j.status == Concluded || j.status == Null)
            && (j.group in s.aborting && j.commits == 1 ==> Asked(ss, steps, n, k))
            && (j.group !in s.aborting ==> j.commits == 1 && forall i :: !InGroup(s, i, j.group))
            && (j.group !in s.aborting ==>
                  forall i :: i in s.jobs && s.jobs[i].group == j.group ==> s.jobs[i].aborts == 0)
  {
    RunInv(ss, steps, n);
    var s, j := ss[n], ss[n].jobs[k];
    assert JobOk(j, j.group in s.aborting);
    if j.group !in s.aborting {
      forall i | i in s.jobs && s.jobs[i].group == j.group
        ensures s.jobs[i].aborts == 0
      {
        assert JobOk(s.jobs[i], false);
      }
    } else if j.commits == 1 {
      SparedAsked(ss, steps, n, k);
    }
  }
}
