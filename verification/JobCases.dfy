/**
 Runs of two jobs in one group in which the group does not end as one, and in which its abort does not end.
 */
module JobCases {
  import opened Options
  import opened Job
  import opened JobGroup
  import opened JobInv
  import opened JobRun
  import opened JobAbort

  /** The run `ss`, `steps` ends in `s`. */
  ghost predicate RunTo(ss: seq<Sys>, steps: seq<Step>, s: Sys) {
    IsRun(ss, steps) && ss[|steps|] == s
  }

  lemma {:induction false} Then(ss: seq<Sys>, steps: seq<Step>, s: Sys, a: Step)
    returns (ss': seq<Sys>, steps': seq<Step>)
    requires RunTo(ss, steps, s) && Enabled(s, a)
    ensures RunTo(ss', steps', Next(s, a))
  {
    hide Enabled, Next;
    ss', steps' := ss + [Next(s, a)], steps + [a];
    forall i | 0 <= i < |steps'|
      ensures Enabled(ss'[i], steps'[i]) && ss'[i + 1] == Next(ss'[i], steps'[i])
    {
      if i < |steps| {
        assert ss'[i] == ss[i] && steps'[i] == steps[i];
      }
    }
  }

  /** A job of group 0, to be finalised and dismissed by hand, that nobody has paused or cancelled. */
  function Plain(status: Status, started: bool, done: bool, exits: bool, ret: int): Job {
    Job(status, started, if started then 0 else 1, false, 0, false, false, done, exits, ret, 0, Some(0),
        false, false, 0, 0, false, false)
  }

  const NEW: Job := Plain(Created, false, false, false, 0)
  const STARTED: Job := Plain(Running, true, false, false, 0)
  const RETURNED: Job := Plain(Running, true, true, true, 0)
  const WAITING: Job := Plain(Waiting, true, true, false, 0)
  const PENDING: Job := Plain(Pending, true, true, false, 0)

  function Two(i: Job, k: Job, aborting: set<Group>): Sys {
    Sys(map[0 := i, 1 := k], aborting)
  }

  lemma {:induction false} TwoWith(i: Job, k: Job, aborting: set<Group>, j: Job)
    ensures With(Two(i, k, aborting), 0, j) == Two(j, k, aborting)
    ensures With(Two(i, k, aborting), 1, j) == Two(i, j, aborting)
  {
    var s := Two(i, k, aborting);
    assert s.jobs[0 := j] == map[0 := j, 1 := k];
    assert s.jobs[1 := j] == map[0 := i, 1 := j];
  }

  lemma {:induction false} Creates()
    ensures var s := Sys(map[], {}); Enabled(s, Create(0, 0, false, false))
    ensures Next(Sys(map[], {}), Create(0, 0, false, false)) == Sys(map[0 := NEW], {})
    ensures Enabled(Sys(map[0 := NEW], {}), Create(1, 0, false, false))
    ensures Next(Sys(map[0 := NEW], {}), Create(1, 0, false, false)) == Two(NEW, NEW, {})
  {
    assert NewJob(0, false, false) == NEW;
    hide NewJob;
    assert map[0 := NEW][1 := NEW] == map[0 := NEW, 1 := NEW];
  }

  lemma {:induction false} Starts(i: Job)
    ensures Enabled(Two(NEW, i, {}), StartJob(0)) && Next(Two(NEW, i, {}), StartJob(0)) == Two(STARTED, i, {})
    ensures Enabled(Two(i, NEW, {}), StartJob(1)) && Next(Two(i, NEW, {}), StartJob(1)) == Two(i, STARTED, {})
  {
    assert Start(NEW) == STARTED;
    hide Start;
    TwoWith(NEW, i, {}, STARTED);
    TwoWith(i, NEW, {}, STARTED);
  }

  lemma {:induction false} Returns(i: Job, ret: int)
    ensures Enabled(Two(STARTED, i, {}), Return(0, ret))
    ensures Next(Two(STARTED, i, {}), Return(0, ret)) == Two(RETURNED.(ret := ret), i, {})
    ensures Enabled(Two(i, STARTED, {}), Return(1, ret))
    ensures Next(Two(i, STARTED, {}), Return(1, ret)) == Two(i, RETURNED.(ret := ret), {})
  {
    assert RunReturned(STARTED, ret) == RETURNED.(ret := ret);
    hide RunReturned;
    TwoWith(STARTED, i, {}, RETURNED.(ret := ret));
    TwoWith(i, STARTED, {}, RETURNED.(ret := ret));
  }

  /** Two jobs are created and the first one is started. */
  lemma {:induction false} ReachFirst() returns (ss: seq<Sys>, steps: seq<Step>)
    ensures RunTo(ss, steps, Two(STARTED, NEW, {}))
  {
    hide Enabled, Next;
    var s := Sys(map[], {});
    ss, steps := [s], [];
    Creates();
    ss, steps := Then(ss, steps, s, Create(0, 0, false, false));
    ss, steps := Then(ss, steps, Sys(map[0 := NEW], {}), Create(1, 0, false, false));
    Starts(NEW);
    ss, steps := Then(ss, steps, Two(NEW, NEW, {}), StartJob(0));
  }

  /** Both jobs have returned without an error. */
  lemma {:induction false} ReachReturned() returns (ss: seq<Sys>, steps: seq<Step>)
    ensures RunTo(ss, steps, Two(RETURNED, RETURNED, {}))
  {
    hide Enabled, Next, RunTo;
    ss, steps := ReachFirst();
    Starts(STARTED);
    ss, steps := Then(ss, steps, Two(STARTED, NEW, {}), StartJob(1));
    Returns(STARTED, 0);
    Returns(RETURNED, 0);
    assert RETURNED.(ret := 0) == RETURNED;
    ss, steps := Then(ss, steps, Two(STARTED, STARTED, {}), Return(0, 0));
    ss, steps := Then(ss, steps, Two(RETURNED, STARTED, {}), Return(1, 0));
  }

  /** A job that has returned without an error is about to wait. */
  lemma {:induction false} EndsWell()
    ensures var c := RETURNED.(exits := false);
            && UpdateRc(Check(c, !Completed(c))) == c && Move(c, Waiting) == WAITING && Check(WAITING, true) == WAITING
            && RETURNED.exits && c.ret == 0 && c.txn == Some(0) && WAITING.txn == Some(0)
  {
  }

  /** The first job exits well and waits for the other. */
  lemma {:induction false} Waits(r: Job, c: Job, w: Job)
    requires r.exits && c == r.(exits := false) && UpdateRc(Check(c, !Completed(c))) == c
    requires c.ret == 0 && c.txn == Some(0) && Move(c, Waiting) == w && w.txn == Some(0) && Check(w, true) == w
    requires OthersClean(Two(w, r, {}), 0) && !AllCompleted(Two(w, r, {}), 0)
    ensures Enabled(Two(r, r, {}), Exit(0, Fine)) && Next(Two(r, r, {}), Exit(0, Fine)) == Two(w, r, {})
  {
    hide UpdateRc, Check, Move, DoFinalize, OthersClean, AllCompleted, AllPending, NeedsFinalize, Completed;
    TwoWith(r, r, {}, c);
    TwoWith(c, r, {}, c);
    TwoWith(c, r, {}, w);
    TwoWith(w, r, {}, w);
  }

  /** The first job waits for the second. */
  lemma {:induction false} FirstExits()
    ensures var s := Two(RETURNED, RETURNED, {});
            Enabled(s, Exit(0, Fine)) && Next(s, Exit(0, Fine)) == Two(WAITING, RETURNED, {})
  {
    hide UpdateRc, Check, Move, Next, Enabled;
    EndsWell();
    var s := Two(WAITING, RETURNED, {});
    assert s.jobs[1].txn == Some(0) && !Completed(s.jobs[1]) && s.jobs[0].ret == 0;
    Waits(RETURNED, RETURNED.(exits := false), WAITING);
  }

  /** The second job exits well, and both become pending, as `p`. */
  lemma {:induction false} LastExits(r: Job, c: Job, w: Job, p: Job)
    requires r.exits && c == r.(exits := false) && UpdateRc(Check(c, !Completed(c))) == c
    requires c.ret == 0 && c.txn == Some(0) && Move(c, Waiting) == w && w.txn == Some(0) && Check(w, true) == w
    requires OthersClean(Two(w, w, {}), 0) && AllCompleted(Two(w, w, {}), 0)
    requires AllPending(Two(w, w, {}), 0) == Two(p, p, {}) && NeedsFinalize(Two(p, p, {}), 0)
    ensures Enabled(Two(w, r, {}), Exit(1, Fine)) && Next(Two(w, r, {}), Exit(1, Fine)) == Two(p, p, {})
  {
    hide UpdateRc, Check, Move, DoFinalize, OthersClean, AllCompleted, AllPending, NeedsFinalize, Completed;
    TwoWith(w, r, {}, c);
    TwoWith(w, c, {}, c);
    TwoWith(w, c, {}, w);
    TwoWith(w, w, {}, w);
  }

  lemma {:induction false} BothPending()
    ensures var s := Two(WAITING, WAITING, {});
            && OthersClean(s, 0) && AllCompleted(s, 0) && AllPending(s, 0) == Two(PENDING, PENDING, {})
            && NeedsFinalize(Two(PENDING, PENDING, {}), 0)
  {
    assert Move(WAITING, Pending) == PENDING;
    hide Move;
    var s, s' := Two(WAITING, WAITING, {}), Two(PENDING, PENDING, {});
    assert AllPending(s, 0).jobs == s'.jobs;
    assert s'.jobs[0].txn == Some(0) && !s'.jobs[0].autoFinalize;
  }

  /** The second job was the last one: both are pending, as the user wants to finalise them. */
  lemma {:induction false} SecondExits()
    ensures var s := Two(WAITING, RETURNED, {});
            Enabled(s, Exit(1, Fine)) && Next(s, Exit(1, Fine)) == Two(PENDING, PENDING, {})
  {
    hide UpdateRc, Check, Move, Next, Enabled;
    EndsWell();
    BothPending();
    LastExits(RETURNED, RETURNED.(exits := false), WAITING, PENDING);
  }

  /** Both jobs are pending. */
  lemma {:induction false} ReachPending() returns (ss: seq<Sys>, steps: seq<Step>)
    ensures RunTo(ss, steps, Two(PENDING, PENDING, {}))
  {
    hide Enabled, Next, RunTo;
    ss, steps := ReachReturned();
    FirstExits();
    ss, steps := Then(ss, steps, Two(RETURNED, RETURNED, {}), Exit(0, Fine));
    SecondExits();
    ss, steps := Then(ss, steps, Two(WAITING, RETURNED, {}), Exit(1, Fine));
  }

  /**
   The group does not end as one.  The user finalises the group through its first job, and preparing the
   second one fails: the first job commits and the second one aborts.
   */
  lemma {:induction false} EndsApart() returns (ss: seq<Sys>, steps: seq<Step>, s: Sys)
    ensures RunTo(ss, steps, s) && s.jobs.Keys == {0, 1} && s.jobs[0].group == s.jobs[1].group
    ensures s.jobs[0].commits == 1 && s.jobs[0].aborts == 0 && s.jobs[1].commits == 0 && s.jobs[1].aborts == 1
  {
    hide Enabled, Next, RunTo, Inv, JobOk, Two, FinalizeSingle, EndApart;
    ss, steps := ReachPending();
    var a := Finalize(0, Fails(1, -5));
    PendingFinalize(ss, steps);
    ss, steps := Then(ss, steps, Two(PENDING, PENDING, {}), a);
    s := Next(Two(PENDING, PENDING, {}), a);
    AbortBoth(s);
    ss, steps := Then(ss, steps, s, AbortNext(0));
    var s1 := Next(s, AbortNext(0));
    ss, steps := Then(ss, steps, s1, AbortNext(1));
    s := Next(s1, AbortNext(1));
  }

  lemma {:induction false} PendingFinalize(ss: seq<Sys>, steps: seq<Step>)
    requires RunTo(ss, steps, Two(PENDING, PENDING, {}))
    ensures var s, a := Two(PENDING, PENDING, {}), Finalize(0, Fails(1, -5));
            Enabled(s, a) && EndApart(Next(s, a), 0, 1) && Next(s, a).jobs.Keys == {0, 1}
    ensures var s' := Next(Two(PENDING, PENDING, {}), Finalize(0, Fails(1, -5))); s'.jobs[0].group == s'.jobs[1].group
  {
    hide DoFinalize, Inv, EndApart;
    var s := Two(PENDING, PENDING, {});
    assert InGroup(s, 1, 0) && s.jobs[0].status == Pending;
    RunInv(ss, steps, |steps|);
    SplitOutcome(s, 0, 1, -5);
    NextSteady(s, Finalize(0, Fails(1, -5)));
  }

  lemma {:induction false} AbortBoth(s: Sys)
    requires EndApart(s, 0, 1) && s.jobs.Keys == {0, 1} && s.jobs[0].group == s.jobs[1].group
    ensures Enabled(s, AbortNext(0)) && Enabled(Next(s, AbortNext(0)), AbortNext(1))
    ensures var s' := Next(Next(s, AbortNext(0)), AbortNext(1));
            && s'.jobs.Keys == {0, 1} && s'.jobs[0].group == s'.jobs[1].group
            && s'.jobs[0].commits == 1 && s'.jobs[0].aborts == 0 && s'.jobs[1].commits == 0 && s'.jobs[1].aborts == 1
  {
    hide FinalizeSingle, Completed;
  }

  lemma {:induction false} EndsBadly()
    ensures var c := RETURNED.(ret := -5, exits := false);
            UpdateRc(Check(c, !Completed(c))) == Plain(Aborting, true, true, false, -5)
    ensures CancelAsync(NEW, true) == NEW.(cancelled := true, force := true)
  {
  }

  lemma {:induction false} AbortsBoth(u: Job, n: Job)
    requires u.txn == Some(0) && n.txn == Some(0)
    ensures AbortGroup(Two(u, n, {}), 0) == Two(u, CancelAsync(n, true), {0})
  {
    hide CancelAsync;
    assert AbortGroup(Two(u, n, {}), 0).jobs == map[0 := u, 1 := CancelAsync(n, true)];
  }

  /** The first job exits with an error and becomes `u`; the second one is cancelled. */
  lemma {:induction false} FailsGroup(r: Job, c: Job, u: Job, n: Job)
    requires r.exits && c == r.(exits := false) && UpdateRc(Check(c, !Completed(c))) == u
    requires u.ret != 0 && c.txn == Some(0) && u.txn == Some(0) && n.txn == Some(0)
    ensures Enabled(Two(r, n, {}), Exit(0, Fine))
    ensures Next(Two(r, n, {}), Exit(0, Fine)) == Two(u, CancelAsync(n, true), {0})
  {
    hide UpdateRc, Check, CancelAsync, Success, Completed, AbortGroup;
    TwoWith(r, n, {}, c);
    TwoWith(c, n, {}, u);
    AbortsBoth(u, n);
  }

  /** The first job has failed and taken its group with it: the second job, unstarted, is cancelled. */
  lemma {:induction false} FirstFails()
    ensures var s := Two(RETURNED.(ret := -5), NEW, {}); Enabled(s, Exit(0, Fine))
    ensures Next(Two(RETURNED.(ret := -5), NEW, {}), Exit(0, Fine))
         == Two(Plain(Aborting, true, true, false, -5), NEW.(cancelled := true, force := true), {0})
  {
    hide UpdateRc, Check, CancelAsync, Next, Enabled;
    var r := RETURNED.(ret := -5);
    assert r.(exits := false) == RETURNED.(ret := -5, exits := false);
    EndsBadly();
    FailsGroup(r, r.(exits := false), Plain(Aborting, true, true, false, -5), NEW);
  }

  /**
   The abort of a group does not end by itself when a job of the group is unstarted: the job stays, and no
   job of the group can take a step of its own.
   */
  lemma {:induction false} AbortStuck() returns (ss: seq<Sys>, steps: seq<Step>, s: Sys)
    ensures RunTo(ss, steps, s) && 0 in s.aborting && InGroup(s, 1, 0) && s.jobs[1].status == Created && !CanMove(s, 0)
  {
    hide Enabled, Next, RunTo;
    ss, steps := ReachFirst();
    Returns(NEW, -5);
    ss, steps := Then(ss, steps, Two(STARTED, NEW, {}), Return(0, -5));
    FirstFails();
    ss, steps := Then(ss, steps, Two(RETURNED.(ret := -5), NEW, {}), Exit(0, Fine));
    var failed, cancelled := Plain(Aborting, true, true, false, -5), NEW.(cancelled := true, force := true);
    OneLeft(failed, cancelled);
    ss, steps := Then(ss, steps, Two(failed, cancelled, {0}), AbortNext(0));
    s := Next(Two(failed, cancelled, {0}), AbortNext(0));
  }

  lemma {:induction false} OneLeft(failed: Job, cancelled: Job)
    requires failed == Plain(Aborting, true, true, false, -5) && cancelled == NEW.(cancelled := true, force := true)
    ensures Enabled(Two(failed, cancelled, {0}), AbortNext(0))
    ensures var s := Next(Two(failed, cancelled, {0}), AbortNext(0));
            0 in s.aborting && InGroup(s, 1, 0) && s.jobs[1].status == Created && !CanMove(s, 0)
  {
    var s := Two(failed, cancelled, {0});
    var s' := Next(s, AbortNext(0));
    assert FinalizeSingle(failed).txn == None;
    hide FinalizeSingle;
    TwoWith(failed, cancelled, {0}, FinalizeSingle(failed));
    assert s' == Two(FinalizeSingle(failed), cancelled, {0});
    hide Next;
    CannotMove(s');
  }

  lemma {:induction false} CannotMove(s: Sys)
    requires s.jobs.Keys == {0, 1} && s.jobs[0].txn == None
    requires s.jobs[1].status == Created && !s.jobs[1].started && !s.jobs[1].exits
    ensures !CanMove(s, 0)
  {
    hide PreparedAs, GoodPrepared, CanCancel, VerbAllowed, Finalised;
    forall a | Enabled(s, a)
      ensures !Own(s, a, 0)
    {
      if InGroup(s, a.k, 0) {
        assert a.k == 1;
      }
    }
  }
}
