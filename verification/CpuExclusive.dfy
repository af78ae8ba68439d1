/**
 The exclusive-section protocol of the vCPU threads (`cpu-common.c`).

 Every vCPU has one thread.  A thread either executes guest code, between
 `cpu_exec_start` and `cpu_exec_end`, or runs an exclusive section, between
 `start_exclusive` and `end_exclusive`.  `running` is written outside the list lock,
 so the protocol is modelled one shared access at a time: a state is the program
 counter and the flags of every thread together with `pending_cpus` and the lock, and a
 run is any sequence of enabled steps.  Memory is sequentially consistent, which is what
 the `smp_mb` calls ask for.  Several accesses are one step only where the list
 lock protects all of them.
 */
module CpuExclusive {
  import opened Options

  type CpuId = nat

  /** Where a thread is, named after the function it is in. */
  datatype Pc =
    | Outside                                 // in neither kind of section
    | StartRead                               // cpu_exec_start: about to read pending_cpus
    | StartLock                               // cpu_exec_start: about to take the lock
    | StartCheck                              // cpu_exec_start: lock held, about to read has_waiter
    | StartIdle                               // cpu_exec_start: lock held, testing in exclusive_idle
    | StartSleep                              // cpu_exec_start: asleep on exclusive_resume
    | StartRelock                             // cpu_exec_start: woken, about to retake the lock
    | Executing                               // between cpu_exec_start and cpu_exec_end
    | EndRead                                 // cpu_exec_end: about to read pending_cpus
    | EndLock                                 // cpu_exec_end: about to take the lock
    | EndCheck                                // cpu_exec_end: lock held, about to read has_waiter
    | ExclLock                                // start_exclusive: about to take the lock
    | ExclIdle                                // start_exclusive: lock held, testing in exclusive_idle
    | ExclIdleSleep                           // start_exclusive: asleep on exclusive_resume
    | ExclIdleRelock                          // start_exclusive: woken, about to retake the lock
    | Counting(todo: set<CpuId>, count: nat)  // start_exclusive: lock held, inside CPU_FOREACH
    | ExclWait                                // start_exclusive: lock held, testing pending_cpus > 1
    | ExclSleep                               // start_exclusive: asleep on exclusive_cond
    | ExclRelock                              // start_exclusive: woken, about to retake the lock
    | Exclusive                               // inside the exclusive section
    | Ending                                  // end_exclusive: about to take the lock

  datatype Cpu = Cpu(pc: Pc, running: bool, hasWaiter: bool, contextCount: int)

  datatype State = State(cpus: map<CpuId, Cpu>, pending: int, lock: Option<CpuId>)

  datatype Action =
    | Go(cpu: CpuId)                  // the next access of the function the thread is in
    | ExecStart(cpu: CpuId)           // call cpu_exec_start
    | ExecEnd(cpu: CpuId)             // call cpu_exec_end
    | StartExclusive(cpu: CpuId)      // call start_exclusive, possibly inside an exclusive section
    | EndExclusive(cpu: CpuId)        // call end_exclusive
    | Visit(cpu: CpuId, other: CpuId) // one iteration of CPU_FOREACH
    | Spurious(cpu: CpuId)            // a condition wait returns without a signal
    | Plug(cpu: CpuId)                // cpu_list_add
    | Unplug(cpu: CpuId)              // cpu_list_remove

  predicate HoldsLock(pc: Pc) {
    pc.StartCheck? || pc.StartIdle? || pc.EndCheck? || pc.ExclIdle? || pc.Counting? || pc.ExclWait?
  }

  predicate WantsLock(pc: Pc) {
    pc.StartLock? || pc.StartRelock? || pc.EndLock? || pc.ExclLock? || pc.ExclIdleRelock? ||
    pc.ExclRelock? || pc.Ending?
  }

  predicate Asleep(pc: Pc) {
    pc.StartSleep? || pc.ExclIdleSleep? || pc.ExclSleep?
  }

  /** The thread is in none of the four functions. */
  predicate Between(pc: Pc) {
    pc.Outside? || pc.Executing? || pc.Exclusive?
  }

  /** From `pending_cpus = 1` in start_exclusive to `pending_cpus = 0` in end_exclusive. */
  predicate InSection(pc: Pc) {
    pc.Counting? || pc.ExclWait? || pc.ExclSleep? || pc.ExclRelock? || pc.Exclusive? || pc.Ending?
  }

  function Init(ids: set<CpuId>): State {
    State(map c | c in ids :: Cpu(Outside, false, false, 0), 0, None)
  }

  predicate Enabled(s: State, a: Action) {
    if a.Plug? then
      a.cpu !in s.cpus && s.lock.None?
    else
      && a.cpu in s.cpus
      && var me := s.cpus[a.cpu];
         match a
         case Go(_) =>
           && !Asleep(me.pc) && !Between(me.pc)
           && (WantsLock(me.pc) ==> s.lock.None?)
           && (me.pc.Counting? ==> me.pc.todo == {})
         case ExecStart(_) => me.pc.Outside?
         case ExecEnd(_) => me.pc.Executing?
         case StartExclusive(_) => me.pc.Outside? || me.pc.Exclusive?
         case EndExclusive(_) => me.pc.Exclusive?
         case Visit(_, other) => me.pc.Counting? && other in me.pc.todo && other in s.cpus
         case Spurious(_) => Asleep(me.pc)
         case Unplug(_) => me.pc.Outside? && s.lock.None?
         case Plug(_) => false
  }

  function Set(s: State, c: CpuId, cpu: Cpu): State {
    s.(cpus := s.cpus[c := cpu])
  }

  function Resumed(pc: Pc): Pc {
    if pc.StartSleep? then StartRelock else if pc.ExclIdleSleep? then ExclIdleRelock else pc
  }

  /** `qemu_cond_broadcast(&exclusive_resume)` */
  function BroadcastResume(cpus: map<CpuId, Cpu>): map<CpuId, Cpu> {
    map c | c in cpus :: cpus[c].(pc := Resumed(cpus[c].pc))
  }

  /** `qemu_cond_signal(&exclusive_cond)`; the invariant shows that there is at most one sleeper. */
  function SignalExclusive(cpus: map<CpuId, Cpu>): map<CpuId, Cpu> {
    map c | c in cpus ::
      if cpus[c].pc.ExclSleep? then cpus[c].(pc := ExclRelock) else cpus[c]
  }

  /** A woken thread has to take the lock again before it tests its condition. */
  function Woken(pc: Pc): Pc
    requires Asleep(pc)
  {
    match pc
    case StartSleep => StartRelock
    case ExclIdleSleep => ExclIdleRelock
    case ExclSleep => ExclRelock
  }

  function Next(s: State, a: Action): State
    requires Enabled(s, a)
  {
    match a
    case Plug(c) => Set(s, c, Cpu(Outside, false, false, 0))
    case Unplug(c) => s.(cpus := s.cpus - {c})
    case ExecStart(c) => Set(s, c, s.cpus[c].(running := true, pc := StartRead))
    case ExecEnd(c) => Set(s, c, s.cpus[c].(running := false, pc := EndRead))
    case StartExclusive(c) =>
      var me := s.cpus[c];
      Set(s, c, if me.contextCount != 0 then me.(contextCount := me.contextCount + 1) else me.(pc := ExclLock))
    case EndExclusive(c) =>
      var me := s.cpus[c];
      Set(s, c, me.(contextCount := me.contextCount - 1, pc := if me.contextCount == 1 then Ending else Exclusive))
    case Spurious(c) => Set(s, c, s.cpus[c].(pc := Woken(s.cpus[c].pc)))
    case Visit(c, other) => NextVisit(s, c, other)
    case Go(c) => NextGo(s, c)
  }

  /** `if (other_cpu->running) { other_cpu->has_waiter = true; running_cpus++; }` */
  function NextVisit(s: State, c: CpuId, other: CpuId): State
    requires Enabled(s, Visit(c, other))
  {
    var pc := s.cpus[c].pc;
    if s.cpus[other].running then
      var s1 := Set(s, other, s.cpus[other].(hasWaiter := true));
      Set(s1, c, s1.cpus[c].(pc := Counting(pc.todo - {other}, pc.count + 1)))
    else
      Set(s, c, s.cpus[c].(pc := Counting(pc.todo - {other}, pc.count)))
  }

  function NextGo(s: State, c: CpuId): State
    requires Enabled(s, Go(c))
  {
    var me := s.cpus[c];
    match me.pc
    // cpu_exec_start
    case StartRead => Set(s, c, me.(pc := if s.pending == 0 then Executing else StartLock))
    case StartLock => Set(s, c, me.(pc := StartCheck)).(lock := Some(c))
    case StartCheck =>
      if me.hasWaiter
      then Set(s, c, me.(pc := Executing)).(lock := None)
      else Set(s, c, me.(running := false, pc := StartIdle))
    case StartIdle =>
      if s.pending != 0
      then Set(s, c, me.(pc := StartSleep)).(lock := None)
      else Set(s, c, me.(running := true, pc := Executing)).(lock := None)
    case StartRelock => Set(s, c, me.(pc := StartIdle)).(lock := Some(c))
    // cpu_exec_end
    case EndRead => Set(s, c, me.(pc := if s.pending == 0 then Outside else EndLock))
    case EndLock => Set(s, c, me.(pc := EndCheck)).(lock := Some(c))
    case EndCheck =>
      if me.hasWaiter then
        var s1 := Set(s, c, me.(hasWaiter := false, pc := Outside)).(pending := s.pending - 1, lock := None);
        if s1.pending == 1 then s1.(cpus := SignalExclusive(s1.cpus)) else s1
      else
        Set(s, c, me.(pc := Outside)).(lock := None)
    // start_exclusive
    case ExclLock => Set(s, c, me.(pc := ExclIdle)).(lock := Some(c))
    case ExclIdle =>
      if s.pending != 0
      then Set(s, c, me.(pc := ExclIdleSleep)).(lock := None)
      else Set(s, c, me.(pc := Counting(s.cpus.Keys, 0))).(pending := 1)
    case ExclIdleRelock => Set(s, c, me.(pc := ExclIdle)).(lock := Some(c))
    case Counting(_, count) => Set(s, c, me.(pc := ExclWait)).(pending := count + 1)
    case ExclWait =>
      if s.pending > 1
      then Set(s, c, me.(pc := ExclSleep)).(lock := None)
      else Set(s, c, me.(pc := Exclusive, contextCount := 1)).(lock := None)
    case ExclRelock => Set(s, c, me.(pc := ExclWait)).(lock := Some(c))
    // end_exclusive
    case Ending =>
      var s1 := Set(s, c, me.(pc := Outside)).(pending := 0);
      s1.(cpus := BroadcastResume(s1.cpus))
  }

  // ---------------------------------------------------------------- the invariant

  /** The CPUs that start_exclusive counted and that have not reported back. */
  function Waiters(s: State): set<CpuId> {
    set c | c in s.cpus && s.cpus[c].hasWaiter
  }

  predicate MayHaveWaiter(pc: Pc) {
    pc.StartRead? || pc.StartLock? || pc.StartCheck? || pc.Executing? || pc.EndRead? || pc.EndLock? || pc.EndCheck?
  }

  /** What holds of one thread on its own, given `pending_cpus`. */
  predicate CpuInv(cpu: Cpu, pending: int) {
    && (cpu.running <==> cpu.pc.StartRead? || cpu.pc.StartLock? || cpu.pc.StartCheck? || cpu.pc.Executing?)
    && (cpu.hasWaiter ==> MayHaveWaiter(cpu.pc))
    && cpu.contextCount >= 0
    && (cpu.contextCount > 0 <==> cpu.pc.Exclusive?)
    && (cpu.pc.StartSleep? || cpu.pc.ExclIdleSleep? ==> pending != 0)
    && (cpu.pc.ExclSleep? ==> pending > 1)
    && (InSection(cpu.pc) ==> pending >= 1)
    && (cpu.pc.Counting? || cpu.pc.Exclusive? || cpu.pc.Ending? ==> pending == 1)
  }

  ghost predicate LockInv(s: State) {
    && (s.lock.Some? ==> s.lock.value in s.cpus)
    && forall c :: c in s.cpus ==> (HoldsLock(s.cpus[c].pc) <==> s.lock == Some(c))
  }

  /** Nobody is in a section: there is nothing pending and nobody is counted. */
  ghost predicate Quiet(s: State) {
    && s.pending == 0
    && (forall c :: c in s.cpus ==> !InSection(s.cpus[c].pc))
    && Waiters(s) == {}
  }

  /**
   Thread `o` is the only one in a section.  While it counts, the counter equals the
   number of CPUs marked so far and a CPU already looked at executes only if marked.
   When it has counted, `pending_cpus` is one more than the number of marked CPUs and
   every executing CPU is marked.
   */
  ghost predicate OwnedBy(s: State, o: CpuId) {
    && o in s.cpus && InSection(s.cpus[o].pc)
    && (forall c :: c in s.cpus && InSection(s.cpus[c].pc) ==> c == o)
    && (if s.cpus[o].pc.Counting? then
          && s.cpus[o].pc.todo <= s.cpus.Keys
          && s.cpus[o].pc.count == |Waiters(s)|
          && (forall c :: c in s.cpus[o].pc.todo ==> !s.cpus[c].hasWaiter)
          && (forall c :: c in s.cpus && c !in s.cpus[o].pc.todo && s.cpus[c].pc.Executing? ==> s.cpus[c].hasWaiter)
        else
          && s.pending == 1 + |Waiters(s)|
          && (forall c :: c in s.cpus && s.cpus[c].pc.Executing? ==> s.cpus[c].hasWaiter))
  }

  ghost predicate Inv(s: State) {
    && LockInv(s)
    && (forall c :: c in s.cpus ==> CpuInv(s.cpus[c], s.pending))
    && (Quiet(s) || exists o :: OwnedBy(s, o))
  }

  lemma {:induction false} InitInv(ids: set<CpuId>)
    ensures Inv(Init(ids))
  {
    assert Quiet(Init(ids));
  }

  lemma {:induction false} WaitersMember(s: State)
    ensures forall c :: c in s.cpus ==> (s.cpus[c].hasWaiter <==> c in Waiters(s))
  {
  }

  lemma {:induction false} OwnerIs(s: State, c: CpuId)
    requires Inv(s) && c in s.cpus && InSection(s.cpus[c].pc)
    ensures OwnedBy(s, c) && !s.cpus[c].hasWaiter && !s.cpus[c].running
  {
  }

  /** `lock` is the lock after a step that takes thread `c` from `pc` to `pc'`. */
  predicate LockStep(s: State, c: CpuId, pc: Pc, pc': Pc, lock: Option<CpuId>) {
    || (lock == s.lock && (HoldsLock(pc') <==> HoldsLock(pc)))
    || (s.lock.None? && lock == Some(c) && HoldsLock(pc'))
    || (s.lock == Some(c) && lock.None? && !HoldsLock(pc'))
  }

  /** A thread outside the section moves: no mark and no counter changes. */
  lemma {:induction false} LocalInv(s: State, c: CpuId, cpu: Cpu, lock: Option<CpuId>)
    requires Inv(s) && c in s.cpus
    requires !InSection(s.cpus[c].pc) && !InSection(cpu.pc)
    requires cpu.hasWaiter == s.cpus[c].hasWaiter && CpuInv(cpu, s.pending)
    requires cpu.pc.Executing? && !cpu.hasWaiter ==> s.cpus[c].pc.Executing? || s.pending == 0
    requires LockStep(s, c, s.cpus[c].pc, cpu.pc, lock)
    ensures Inv(Set(s, c, cpu).(lock := lock))
  {
    var s' := Set(s, c, cpu).(lock := lock);
    assert Waiters(s') == Waiters(s);
    if Quiet(s) {
      assert Quiet(s');
    } else {
      var o :| OwnedBy(s, o);
      WaitersMember(s);
      assert OwnedBy(s', o);
    }
  }

  /** The owner moves on without counting: the marks and the counter stay as they are. */
  lemma {:induction false} OwnerInv(s: State, c: CpuId, cpu: Cpu, lock: Option<CpuId>)
    requires Inv(s) && OwnedBy(s, c) && !s.cpus[c].pc.Counting?
    requires InSection(cpu.pc) && !cpu.pc.Counting? && !cpu.hasWaiter && CpuInv(cpu, s.pending)
    requires LockStep(s, c, s.cpus[c].pc, cpu.pc, lock)
    ensures Inv(Set(s, c, cpu).(lock := lock))
  {
    var s' := Set(s, c, cpu).(lock := lock);
    assert Waiters(s') == Waiters(s);
    assert OwnedBy(s', c);
  }

  lemma {:induction false} NextVisitInv(s: State, c: CpuId, other: CpuId)
    requires Inv(s) && Enabled(s, Visit(c, other))
    ensures Inv(NextVisit(s, c, other))
  {
    OwnerIs(s, c);
    VisitWaiters(s, c, other);
    VisitedInv(s, c, other, NextVisit(s, c, other));
  }

  lemma {:induction false} VisitWaiters(s: State, c: CpuId, other: CpuId)
    requires Enabled(s, Visit(c, other)) && !s.cpus[other].hasWaiter
    ensures |Waiters(NextVisit(s, c, other))| == |Waiters(s)| + if s.cpus[other].running then 1 else 0
  {
    var s' := NextVisit(s, c, other);
    if s.cpus[other].running {
      forall d | d in s.cpus ensures s'.cpus[d].hasWaiter <==> d in Waiters(s) + {other} {}
      assert Waiters(s') == Waiters(s) + {other};
    } else {
      forall d | d in s.cpus ensures s'.cpus[d].hasWaiter <==> d in Waiters(s) {}
      assert Waiters(s') == Waiters(s);
    }
  }

  lemma {:induction false} VisitedInv(s: State, c: CpuId, other: CpuId, s': State)
    requires Inv(s) && OwnedBy(s, c) && Enabled(s, Visit(c, other)) && !s.cpus[c].running
    requires s'.cpus.Keys == s.cpus.Keys && s'.pending == s.pending && s'.lock == s.lock
    requires s'.cpus[c] == s.cpus[c].(pc := s'.cpus[c].pc)
    requires s'.cpus[c].pc.Counting? && s'.cpus[c].pc.todo == s.cpus[c].pc.todo - {other}
    requires s'.cpus[c].pc.count == |Waiters(s')|
    requires s'.cpus[other].hasWaiter == s.cpus[other].running
    requires other != c ==> s'.cpus[other] == s.cpus[other].(hasWaiter := s.cpus[other].running)
    requires forall d :: d in s.cpus && d != c && d != other ==> s'.cpus[d] == s.cpus[d]
    ensures Inv(s')
  {
    forall d | d in s'.cpus
      ensures CpuInv(s'.cpus[d], s'.pending)
    {
      assert CpuInv(s.cpus[d], s.pending);
    }
    assert OwnedBy(s', c);
  }

  /** Only the owner can sleep on `exclusive_cond`. */
  lemma {:induction false} SignalWakesOwner(cpus: map<CpuId, Cpu>, o: CpuId)
    requires o in cpus && forall c :: c in cpus && cpus[c].pc.ExclSleep? ==> c == o
    ensures SignalExclusive(cpus) == if cpus[o].pc.ExclSleep? then cpus[o := cpus[o].(pc := ExclRelock)] else cpus
  {
  }

  /** Reporting back removes exactly one mark and one unit of `pending_cpus`. */
  lemma {:induction false} ReportInv(s: State, c: CpuId)
    requires Inv(s) && Enabled(s, Go(c)) && s.cpus[c].pc.EndCheck? && s.cpus[c].hasWaiter
    ensures Inv(NextGo(s, c))
  {
    var s' := NextGo(s, c);
    assert c in Waiters(s);
    var o :| OwnedBy(s, o);
    assert o != c && !s.cpus[o].pc.Counting?;
    var cpus := s.cpus[c := s.cpus[c].(hasWaiter := false, pc := Outside)];
    SignalWakesOwner(cpus, o);
    var owner := s'.cpus[o];
    assert s'.cpus == cpus[o := owner];
    assert Waiters(s') == Waiters(s) - {c};
    ReportedInv(s, c, o, s');
  }

  /** `s'` is `s` after the marked CPU `c` has reported back to `o`. */
  ghost predicate Reported(s: State, c: CpuId, o: CpuId, s': State) {
    && OwnedBy(s, o) && c in s.cpus && c != o && !s.cpus[o].pc.Counting?
    && s.lock == Some(c) && s.cpus[c].pc.EndCheck? && s.cpus[c].hasWaiter
    && o in s'.cpus && s'.cpus == s.cpus[c := s.cpus[c].(hasWaiter := false, pc := Outside)][o := s'.cpus[o]]
    && (s'.cpus[o] == s.cpus[o] || (s.cpus[o].pc.ExclSleep? && s'.cpus[o] == s.cpus[o].(pc := ExclRelock)))
    && (s'.cpus[o].pc.ExclSleep? ==> s'.pending > 1)
    && s'.pending == s.pending - 1 && s'.lock.None?
    && Waiters(s') == Waiters(s) - {c} && c in Waiters(s)
  }

  lemma {:induction false} ReportedCpu(s: State, c: CpuId, o: CpuId, s': State, d: CpuId)
    requires Inv(s) && Reported(s, c, o, s') && d in s'.cpus
    ensures CpuInv(s'.cpus[d], s'.pending) && !HoldsLock(s'.cpus[d].pc)
  {
    assert CpuInv(s.cpus[d], s.pending) && (HoldsLock(s.cpus[d].pc) <==> d == c);
    hide Inv;
  }

  lemma {:induction false} ReportedOwner(s: State, c: CpuId, o: CpuId, s': State)
    requires Reported(s, c, o, s')
    ensures OwnedBy(s', o)
  {
    WaitersMember(s);
    WaitersMember(s');
  }

  lemma {:induction false} ReportedInv(s: State, c: CpuId, o: CpuId, s': State)
    requires Inv(s) && Reported(s, c, o, s')
    ensures Inv(s')
  {
    hide CpuInv, OwnedBy, HoldsLock;
    forall d | d in s'.cpus
      ensures CpuInv(s'.cpus[d], s'.pending) && !HoldsLock(s'.cpus[d].pc)
    {
      ReportedCpu(s, c, o, s', d);
    }
    ReportedOwner(s, c, o, s');
  }

  lemma {:induction false} EnterInv(s: State, c: CpuId)
    requires Inv(s) && Enabled(s, Go(c)) && s.cpus[c].pc.ExclIdle? && s.pending == 0
    ensures Inv(NextGo(s, c))
  {
    var s' := NextGo(s, c);
    assert Quiet(s);
    assert Waiters(s') == Waiters(s);
    WaitersMember(s);
    assert OwnedBy(s', c);
  }

  lemma {:induction false} CountedInv(s: State, c: CpuId)
    requires Inv(s) && Enabled(s, Go(c)) && s.cpus[c].pc.Counting?
    ensures Inv(NextGo(s, c))
  {
    var s' := NextGo(s, c);
    OwnerIs(s, c);
    assert Waiters(s') == Waiters(s);
    assert OwnedBy(s', c);
  }

  lemma {:induction false} LeaveInv(s: State, c: CpuId)
    requires Inv(s) && Enabled(s, Go(c)) && s.cpus[c].pc.Ending?
    ensures Inv(NextGo(s, c))
  {
    var s' := NextGo(s, c);
    OwnerIs(s, c);
    assert Waiters(s') == Waiters(s) == {};
    forall d | d in s'.cpus
      ensures CpuInv(s'.cpus[d], 0) && !InSection(s'.cpus[d].pc) && !HoldsLock(s'.cpus[d].pc)
    {
      assert CpuInv(s.cpus[d], 1);
      assert d != c ==> !InSection(s.cpus[d].pc);
    }
    assert Quiet(s');
  }

  lemma {:induction false} PlainStep(s: State, c: CpuId)
    requires Enabled(s, Go(c)) && !InSection(s.cpus[c].pc) && !s.cpus[c].pc.EndCheck? && !s.cpus[c].pc.ExclIdle?
    requires CpuInv(s.cpus[c], s.pending) && (HoldsLock(s.cpus[c].pc) <==> s.lock == Some(c))
    requires s.pending == 0 ==> !s.cpus[c].hasWaiter
    ensures var s' := NextGo(s, c); c in s'.cpus && s' == Set(s, c, s'.cpus[c]).(lock := s'.lock)
    ensures var me, s' := s.cpus[c], NextGo(s, c); var me' := s'.cpus[c];
            && !InSection(me'.pc) && me'.hasWaiter == me.hasWaiter && CpuInv(me', s.pending)
            && (me'.pc.Executing? && !me'.hasWaiter ==> me.pc.Executing? || s.pending == 0)
            && LockStep(s, c, me.pc, me'.pc, s'.lock)
  {
  }

  /** The steps of cpu_exec_start, cpu_exec_end and lock waits that change no mark and no counter. */
  lemma {:induction false} PlainInv(s: State, c: CpuId)
    requires Inv(s) && Enabled(s, Go(c)) && !InSection(s.cpus[c].pc)
    requires !s.cpus[c].pc.EndCheck? && !s.cpus[c].pc.ExclIdle?
    ensures Inv(NextGo(s, c))
  {
    assert CpuInv(s.cpus[c], s.pending) && (HoldsLock(s.cpus[c].pc) <==> s.lock == Some(c));
    assert s.pending == 0 ==> !s.cpus[c].hasWaiter by {
      if s.pending == 0 {
        assert Quiet(s);
        WaitersMember(s);
      }
    }
    hide Inv, NextGo, CpuInv, HoldsLock;
    PlainStep(s, c);
    LocalInv(s, c, NextGo(s, c).cpus[c], NextGo(s, c).lock);
  }

  lemma {:induction false} OwnerGoInv(s: State, c: CpuId)
    requires Inv(s) && Enabled(s, Go(c))
    requires s.cpus[c].pc.ExclWait? || s.cpus[c].pc.ExclRelock? || s.cpus[c].pc.Exclusive?
    ensures Inv(NextGo(s, c))
  {
    OwnerIs(s, c);
    if s.cpus[c].pc.ExclWait? && s.pending <= 1 {
      assert s.pending == 1;
    }
    OwnerInv(s, c, NextGo(s, c).cpus[c], NextGo(s, c).lock);
  }

  lemma {:induction false} GoInv(s: State, c: CpuId)
    requires Inv(s) && Enabled(s, Go(c))
    ensures Inv(NextGo(s, c))
  {
    var me := s.cpus[c];
    if me.pc.EndCheck? && me.hasWaiter {
      ReportInv(s, c);
    } else if me.pc.EndCheck? || (me.pc.ExclIdle? && s.pending != 0) {
      LocalInv(s, c, NextGo(s, c).cpus[c], None);
    } else if me.pc.ExclIdle? {
      EnterInv(s, c);
    } else if me.pc.Counting? {
      CountedInv(s, c);
    } else if me.pc.Ending? {
      LeaveInv(s, c);
    } else if InSection(me.pc) {
      OwnerGoInv(s, c);
    } else {
      PlainInv(s, c);
    }
  }

  lemma {:induction false} PlugInv(s: State, a: Action)
    requires Inv(s) && Enabled(s, a) && (a.Plug? || a.Unplug?)
    ensures Inv(Next(s, a))
  {
    var s' := Next(s, a);
    assert Waiters(s') == Waiters(s);
    if Quiet(s) {
      assert Quiet(s');
    } else {
      var o :| OwnedBy(s, o);
      assert OwnedBy(s', o);
    }
  }

  /** The steps by which a thread calls one of the functions, or wakes up without a signal. */
  lemma {:induction false} CallInv(s: State, a: Action)
    requires Inv(s) && Enabled(s, a) && !a.Go? && !a.Visit? && !a.Plug? && !a.Unplug?
    ensures Inv(Next(s, a))
  {
    hide NextGo, NextVisit;
    var c := a.cpu;
    var me, me' := s.cpus[c], Next(s, a).cpus[c];
    assert CpuInv(me, s.pending);
    assert Next(s, a) == Set(s, c, me').(lock := s.lock);
    if InSection(me.pc) {
      OwnerIs(s, c);
      OwnerInv(s, c, me', s.lock);
    } else {
      LocalInv(s, c, me', s.lock);
    }
  }

  lemma {:induction false} NextInv(s: State, a: Action)
    requires Inv(s) && Enabled(s, a)
    ensures Inv(Next(s, a))
  {
    hide Inv, NextGo, NextVisit;
    match a
    case Go(c) => GoInv(s, c);
    case Visit(c, other) => NextVisitInv(s, c, other);
    case Plug(_) => PlugInv(s, a);
    case Unplug(_) => PlugInv(s, a);
    case _ => CallInv(s, a);
  }

  // ---------------------------------------------------------------- the theorems

  ghost predicate IsRun(states: seq<State>, acts: seq<Action>) {
    && |states| == |acts| + 1
    && (exists ids :: states[0] == Init(ids))
    && forall i :: 0 <= i < |acts| ==> Enabled(states[i], acts[i]) && states[i + 1] == Next(states[i], acts[i])
  }

  lemma {:induction false} RunInv(states: seq<State>, acts: seq<Action>, i: nat)
    requires IsRun(states, acts) && i < |states|
    ensures Inv(states[i])
  {
    if i == 0 {
      var ids :| states[0] == Init(ids);
      InitInv(ids);
    } else {
      RunInv(states, acts, i - 1);
      NextInv(states[i - 1], acts[i - 1]);
    }
  }

  // ---------------------------------------------------------------- calls and returns

  /** How many more times thread `c` has called start_exclusive than end_exclusive. */
  function Opened(acts: seq<Action>, c: CpuId): int {
    if acts == [] then 0
    else
      var a := acts[|acts| - 1];
      Opened(acts[..|acts| - 1], c)
        + if a == StartExclusive(c) then 1 else if a == EndExclusive(c) then -1 else 0
  }

  /** How many more times thread `c` has called cpu_exec_start than cpu_exec_end. */
  function Execs(acts: seq<Action>, c: CpuId): int {
    if acts == [] then 0
    else
      var a := acts[|acts| - 1];
      Execs(acts[..|acts| - 1], c) + if a == ExecStart(c) then 1 else if a == ExecEnd(c) then -1 else 0
  }

  /** The thread has called start_exclusive, which has not returned. */
  predicate InStart(pc: Pc) {
    || pc.ExclLock? || pc.ExclIdle? || pc.ExclIdleSleep? || pc.ExclIdleRelock?
    || pc.Counting? || pc.ExclWait? || pc.ExclSleep? || pc.ExclRelock?
  }

  /** The thread has called cpu_exec_start, which has not returned. */
  predicate InExecStart(pc: Pc) {
    pc.StartRead? || pc.StartLock? || pc.StartCheck? || pc.StartIdle? || pc.StartSleep? || pc.StartRelock?
  }

  /** A thread that has called these functions so often is where it should be. */
  predicate CallsOk(cpu: Cpu, depth: int, execs: int) {
    && cpu.contextCount == (if InStart(cpu.pc) then 0 else depth)
    && depth >= 0 && (depth > 0 <==> InStart(cpu.pc) || cpu.pc.Exclusive?) && (InStart(cpu.pc) ==> depth == 1)
    && execs == if InExecStart(cpu.pc) || cpu.pc.Executing? then 1 else 0
  }

  /** The same for a thread that may not exist. */
  predicate Accounted(s: State, c: CpuId, depth: int, execs: int) {
    if c in s.cpus then CallsOk(s.cpus[c], depth, execs) else depth == 0 && execs == 0
  }

  /** A step of another thread may wake this one, and changes nothing else that matters here. */
  lemma {:induction false} OthersCalls(s: State, a: Action, c: CpuId)
    requires Inv(s) && Enabled(s, a) && a.cpu != c
    ensures c in Next(s, a).cpus <==> c in s.cpus
    ensures c in s.cpus ==>
      var pc, pc' := s.cpus[c].pc, Next(s, a).cpus[c].pc;
      && Next(s, a).cpus[c].contextCount == s.cpus[c].contextCount
      && (pc' == pc || (InStart(pc) && InStart(pc')) || (InExecStart(pc) && InExecStart(pc')))
  {
    hide Inv;
  }

  lemma {:induction false} GoCalls(s: State, c: CpuId, depth: int, execs: int)
    requires Enabled(s, Go(c)) && CallsOk(s.cpus[c], depth, execs) && CpuInv(s.cpus[c], s.pending)
    ensures c in NextGo(s, c).cpus && CallsOk(NextGo(s, c).cpus[c], depth, execs)
  {
  }

  lemma {:induction false} OwnCalls(s: State, a: Action, depth: int, execs: int)
    requires Enabled(s, a) && !a.Plug? && !a.Unplug? && CallsOk(s.cpus[a.cpu], depth, execs)
    requires CpuInv(s.cpus[a.cpu], s.pending)
    ensures a.cpu in Next(s, a).cpus
    ensures CallsOk(Next(s, a).cpus[a.cpu],
                    depth + (if a.StartExclusive? then 1 else if a.EndExclusive? then -1 else 0),
                    execs + (if a.ExecStart? then 1 else if a.ExecEnd? then -1 else 0))
  {
    if a.Go? {
      hide CpuInv, CallsOk, Enabled, NextGo;
      GoCalls(s, a.cpu, depth, execs);
    } else {
      hide NextGo;
    }
  }

  lemma {:induction false} NextAccounted(s: State, a: Action, c: CpuId, depth: int, execs: int)
    requires Inv(s) && Enabled(s, a) && Accounted(s, c, depth, execs)
    ensures Accounted(Next(s, a), c,
                      depth + (if a == StartExclusive(c) then 1 else if a == EndExclusive(c) then -1 else 0),
                      execs + (if a == ExecStart(c) then 1 else if a == ExecEnd(c) then -1 else 0))
  {
    if a.cpu != c {
      hide Next, Inv, Enabled;
      OthersCalls(s, a, c);
    } else if a.Plug? || a.Unplug? {
      hide Inv;
    } else {
      hide Next, LockInv, Quiet, OwnedBy;
      assert c in s.cpus && CpuInv(s.cpus[c], s.pending);
      hide Inv, Enabled, CallsOk, CpuInv;
      OwnCalls(s, a, depth, execs);
    }
  }

  /** `exclusive_context_count` is the depth of the calls, and a thread is where its calls have brought it. */
  lemma {:induction false} CallsShow(states: seq<State>, acts: seq<Action>, i: nat, c: CpuId)
    requires IsRun(states, acts) && i < |states|
    ensures Accounted(states[i], c, Opened(acts[..i], c), Execs(acts[..i], c))
  {
    hide Next, Enabled, Accounted;
    if i == 0 {
      InitAccounted(states[0], c);
    } else {
      CallsShow(states, acts, i - 1, c);
      RunInv(states, acts, i - 1);
      assert acts[..i][..i - 1] == acts[..i - 1];
      NextAccounted(states[i - 1], acts[i - 1], c, Opened(acts[..i - 1], c), Execs(acts[..i - 1], c));
    }
  }

  lemma {:induction false} InitAccounted(s: State, c: CpuId)
    requires exists ids :: s == Init(ids)
    ensures Accounted(s, c, 0, 0)
  {
  }

  /** Whether CPU `c` is in the list after these calls of cpu_list_add and _remove; `first` is whether it was before. */
  predicate Listed(acts: seq<Action>, c: CpuId, first: bool) {
    if acts == [] then first
    else
      var a := acts[|acts| - 1];
      a == Plug(c) || (a != Unplug(c) && Listed(acts[..|acts| - 1], c, first))
  }

  lemma {:induction false} NextListed(s: State, a: Action, c: CpuId)
    requires Enabled(s, a)
    ensures c in Next(s, a).cpus <==> a == Plug(c) || (a != Unplug(c) && c in s.cpus)
  {
  }

  /** The CPUs are those that were there or were added, and were not removed since. */
  lemma {:induction false} ListShows(states: seq<State>, acts: seq<Action>, i: nat, c: CpuId)
    requires IsRun(states, acts) && i < |states|
    ensures c in states[i].cpus <==> Listed(acts[..i], c, c in states[0].cpus)
  {
    hide Next, Enabled;
    if i > 0 {
      ListShows(states, acts, i - 1, c);
      assert acts[..i][..i - 1] == acts[..i - 1];
      NextListed(states[i - 1], acts[i - 1], c);
    }
  }

  /**
   While nobody wants to be exclusive, cpu_exec_start and cpu_exec_end return after one read: they take no lock,
   whoever holds it, and change nothing but the CPU's own `running`.
   */
  lemma {:induction false} FastPath(s: State, c: CpuId)
    requires s.pending == 0 && c in s.cpus
    ensures Enabled(s, ExecStart(c)) ==>
              && Enabled(Next(s, ExecStart(c)), Go(c))
              && Next(Next(s, ExecStart(c)), Go(c)) == Set(s, c, s.cpus[c].(running := true, pc := Executing))
    ensures Enabled(s, ExecEnd(c)) ==>
              && Enabled(Next(s, ExecEnd(c)), Go(c))
              && Next(Next(s, ExecEnd(c)), Go(c)) == Set(s, c, s.cpus[c].(running := false, pc := Outside))
  {
    if Enabled(s, ExecStart(c)) {
      var s1 := Next(s, ExecStart(c));
      assert s1.cpus[c := s1.cpus[c].(pc := Executing)] == s.cpus[c := s.cpus[c].(running := true, pc := Executing)];
    }
    if Enabled(s, ExecEnd(c)) {
      var s1 := Next(s, ExecEnd(c));
      assert s1.cpus[c := s1.cpus[c].(pc := Outside)] == s.cpus[c := s.cpus[c].(running := false, pc := Outside)];
    }
  }

  /** A wait that returns without a signal does no harm: its thread takes the lock, tests again and sleeps again. */
  lemma {:induction false} SpuriousTestsAgain(s: State, c: CpuId)
    requires Inv(s) && Enabled(s, Spurious(c)) && s.lock.None?
    ensures var s1 := Next(s, Spurious(c));
            && Enabled(s1, Go(c)) && Next(s1, Go(c)).lock == Some(c)
            && var s2 := Next(s1, Go(c)); Enabled(s2, Go(c)) && Next(s2, Go(c)) == s
  {
    var s1 := Next(s, Spurious(c));
    var s2 := Next(s1, Go(c));
    assert Next(s2, Go(c)).cpus == s.cpus;
  }

  /**
   Mutual exclusion, on every run and for any number of CPUs.  From the return of a start_exclusive to the
   outermost end_exclusive, no CPU has returned from cpu_exec_start without having called cpu_exec_end, and
   no other thread has returned from a start_exclusive that it has not ended.
   */
  lemma {:induction false} Exclusion(states: seq<State>, acts: seq<Action>, i: nat, c: CpuId, d: CpuId)
    requires IsRun(states, acts) && i < |states| && c in states[i].cpus && d in states[i].cpus
    requires Opened(acts[..i], c) > 0 && !InStart(states[i].cpus[c].pc)
    ensures Execs(acts[..i], d) > 0 ==> InExecStart(states[i].cpus[d].pc)
    ensures Opened(acts[..i], d) > 0 ==> d == c || InStart(states[i].cpus[d].pc)
    ensures states[i].pending == 1 && !states[i].cpus[d].hasWaiter
  {
    CallsShow(states, acts, i, c);
    CallsShow(states, acts, i, d);
    RunInv(states, acts, i);
    var s := states[i];
    hide IsRun;
    OwnerIs(s, c);
    assert |Waiters(s)| == 0;
    assert d !in Waiters(s);
  }

  /** Once the counting loop is over, the counter is one more than the number of marked CPUs. */
  lemma {:induction false} PendingCountsWaiters(states: seq<State>, acts: seq<Action>, i: nat, c: CpuId)
    requires IsRun(states, acts) && i < |states|
    requires c in states[i].cpus && InSection(states[i].cpus[c].pc) && !states[i].cpus[c].pc.Counting?
    ensures states[i].pending == 1 + |Waiters(states[i])|
    ensures forall d :: d in states[i].cpus && states[i].cpus[d].pc.Executing? ==> d in Waiters(states[i])
  {
    RunInv(states, acts, i);
    OwnerIs(states[i], c);
  }

  /**
   No wakeup is lost: a sleeper's condition is still false, and there is somebody left who will wake it.  For
   the thread that waits to enter its section these are the marked CPUs, which are all on their way through
   cpu_exec_start or cpu_exec_end; for the others it is the thread in the section.
   */
  lemma {:induction false} NoLostWakeup(states: seq<State>, acts: seq<Action>, i: nat, c: CpuId)
    requires IsRun(states, acts) && i < |states| && c in states[i].cpus
    ensures var s := states[i];
            s.cpus[c].pc.ExclSleep? ==>
              && s.pending == 1 + |Waiters(s)| && Waiters(s) != {}
              && forall w :: w in Waiters(s) ==> w in s.cpus && w != c && MayHaveWaiter(s.cpus[w].pc)
    ensures var s := states[i];
            s.cpus[c].pc.StartSleep? || s.cpus[c].pc.ExclIdleSleep? ==>
              s.pending != 0 && exists o :: o in s.cpus && o != c && InSection(s.cpus[o].pc)
  {
    RunInv(states, acts, i);
    var s := states[i];
    if s.cpus[c].pc.ExclSleep? {
      OwnerIs(s, c);
    } else if s.pending != 0 {
      var o :| OwnedBy(s, o);
      assert InSection(s.cpus[o].pc);
    }
  }

  /** A marked CPU that reports back wakes the thread that waits for it if and only if it is the last one. */
  lemma {:induction false} LastReportWakes(s: State, c: CpuId, w: CpuId)
    requires Inv(s) && c in s.cpus && s.cpus[c].pc.ExclSleep?
    requires Enabled(s, Go(w)) && s.cpus[w].pc.EndCheck? && s.cpus[w].hasWaiter
    ensures var s' := NextGo(s, w); c in s'.cpus && s'.cpus[c].pc == if Waiters(s) == {w} then ExclRelock else ExclSleep
  {
    OwnerIs(s, c);
    assert w in Waiters(s);
    if Waiters(s) != {w} {
      var v :| v in Waiters(s) && v != w;
      assert |Waiters(s) - {w}| == |Waiters(s)| - 1 && v in Waiters(s) - {w};
    }
  }

  /** The end of a section wakes everybody who waits for it. */
  lemma {:induction false} EndWakesAll(s: State, o: CpuId, c: CpuId)
    requires Enabled(s, Go(o)) && s.cpus[o].pc.Ending? && c in s.cpus
    ensures var s' := NextGo(s, o);
            c in s'.cpus && !s'.cpus[c].pc.StartSleep? && !s'.cpus[c].pc.ExclIdleSleep? && s'.pending == 0
  {
  }

  // ---------------------------------------------------------------- every call returns

  /** A step of the functions themselves, or the end of a section: nobody begins anything. */
  predicate Calm(a: Action) {
    a.Go? || a.Visit? || a.ExecEnd? || a.EndExclusive?
  }

  /** While a thread is inside one of the functions or a section, some thread can take a calm step. */
  lemma {:induction false} NoDeadlock(s: State, c: CpuId)
    requires Inv(s) && c in s.cpus && !s.cpus[c].pc.Outside?
    ensures exists a: Action :: Calm(a) && Enabled(s, a)
  {
    if s.lock.Some? {
      var h := s.lock.value;
      if s.cpus[h].pc.Counting? && s.cpus[h].pc.todo != {} {
        var d :| d in s.cpus[h].pc.todo;
        OwnerIs(s, h);
        assert Enabled(s, Visit(h, d));
      } else {
        assert Enabled(s, Go(h));
      }
    } else if !Asleep(s.cpus[c].pc) {
      MovesAwake(s, c);
    } else {
      var o :| OwnedBy(s, o);
      if s.cpus[o].pc.ExclSleep? {
        assert Waiters(s) != {};
        var w :| w in Waiters(s);
        MovesAwake(s, w);
      } else {
        MovesAwake(s, o);
      }
    }
  }

  lemma {:induction false} MovesAwake(s: State, c: CpuId)
    requires c in s.cpus && s.lock.None? && !Asleep(s.cpus[c].pc) && !s.cpus[c].pc.Outside? && !s.cpus[c].pc.Counting?
    ensures exists a: Action :: Calm(a) && Enabled(s, a)
  {
    if s.cpus[c].pc.Executing? {
      assert Enabled(s, ExecEnd(c));
    } else if s.cpus[c].pc.Exclusive? {
      assert Enabled(s, EndExclusive(c));
    } else {
      assert Enabled(s, Go(c));
    }
  }

  /** How many times the thread has still to begin or end a section. */
  function Stage(pc: Pc): nat {
    if pc.ExclLock? || pc.ExclIdle? || pc.ExclIdleSleep? || pc.ExclIdleRelock? then 2
    else if InSection(pc) then 1
    else 0
  }

  /** How far the thread is from the end of its stage; `many` says that others have still to report to it. */
  function Rank(cpu: Cpu, many: bool): nat {
    match cpu.pc
    case Outside => 0
    case StartRead => 12
    case StartLock => 11
    case StartCheck => 10
    case StartRelock => 9
    case StartIdle => 8
    case StartSleep => 7
    case Executing => 5
    case EndRead => 4
    case EndLock => 3
    case EndCheck => 2
    case ExclLock => 4
    case ExclIdleRelock => 4
    case ExclIdle => 3
    case ExclIdleSleep => 2
    case Counting(todo, _) => 10 + |todo|
    case ExclRelock => if many then 9 else 5
    case ExclWait => if many then 8 else 4
    case ExclSleep => 7
    case Exclusive => if cpu.contextCount > 0 then 1 + cpu.contextCount else 1
    case Ending => 1
  }

  function Stages(cpus: map<CpuId, Cpu>, n: nat): nat {
    if n == 0 then 0 else Stages(cpus, n - 1) + if n - 1 in cpus then Stage(cpus[n - 1].pc) else 0
  }

  function Ranks(cpus: map<CpuId, Cpu>, many: bool, n: nat): nat {
    if n == 0 then 0 else Ranks(cpus, many, n - 1) + if n - 1 in cpus then Rank(cpus[n - 1], many) else 0
  }

  lemma {:induction false} StagesFall(cpus: map<CpuId, Cpu>, cpus': map<CpuId, Cpu>, n: nat, c: CpuId)
    requires cpus.Keys == cpus'.Keys && forall d :: d in cpus ==> Stage(cpus'[d].pc) <= Stage(cpus[d].pc)
    ensures Stages(cpus', n) <= Stages(cpus, n)
    ensures c in cpus && c < n && Stage(cpus'[c].pc) < Stage(cpus[c].pc) ==> Stages(cpus', n) < Stages(cpus, n)
  {
    if n > 0 {
      StagesFall(cpus, cpus', n - 1, c);
    }
  }

  lemma {:induction false} RanksFall(cpus: map<CpuId, Cpu>, cpus': map<CpuId, Cpu>, many: bool, many': bool, n: nat,
        c: CpuId)
    requires cpus.Keys == cpus'.Keys && forall d :: d in cpus ==> Rank(cpus'[d], many') <= Rank(cpus[d], many)
    ensures Ranks(cpus', many', n) <= Ranks(cpus, many, n)
    ensures c in cpus && c < n && Rank(cpus'[c], many') < Rank(cpus[c], many) ==>
      Ranks(cpus', many', n) < Ranks(cpus, many, n)
  {
    hide Rank;
    if n > 0 {
      RanksFall(cpus, cpus', many, many', n - 1, c);
    }
  }

  /** All threads are numbered below `n`, and no section is nested deeper than `k`. */
  predicate Bounded(s: State, n: nat, k: nat) {
    && k > 0 && (forall c :: c in s.cpus ==> c < n && s.cpus[c].contextCount <= k)
    && (forall c :: c in s.cpus && s.cpus[c].pc.Counting? ==> |s.cpus[c].pc.todo| <= n)
  }

  lemma {:induction false} RankBounded(cpu: Cpu, many: bool, n: nat, k: nat)
    requires k > 0 && cpu.contextCount <= k && (cpu.pc.Counting? ==> |cpu.pc.todo| <= n)
    ensures Rank(cpu, many) <= n + k + 12
  {
  }

  lemma {:induction false} RanksBounded(s: State, n: nat, k: nat, m: nat, w: nat)
    requires Bounded(s, n, k) && w == n + k + 12
    ensures Ranks(s.cpus, s.pending > 1, m) <= m * w
  {
    hide Rank;
    if m > 0 {
      RanksBounded(s, n, k, m - 1, w);
      if m - 1 in s.cpus {
        RankBounded(s.cpus[m - 1], s.pending > 1, n, k);
      }
      assert m * w == (m - 1) * w + w;
    }
  }

  lemma {:induction false} FewBelow(ks: set<CpuId>, n: nat)
    requires forall c :: c in ks ==> c < n
    ensures |ks| <= n
  {
    if n == 0 {
      assert ks == {};
    } else {
      FewBelow(ks - {n - 1}, n - 1);
      assert |ks| <= |ks - {n - 1}| + 1 by {
        assert n - 1 in ks ==> ks == (ks - {n - 1}) + {n - 1};
        assert n - 1 !in ks ==> ks == ks - {n - 1};
      }
    }
  }

  /** What a calm step of thread `c` does to thread `d`. */
  predicate Onward(s: State, s': State, c: CpuId, d: CpuId)
    requires c in s.cpus && c in s'.cpus && d in s.cpus && d in s'.cpus
  {
    && Stage(s'.cpus[d].pc) <= Stage(s.cpus[d].pc)
    && (Stage(s'.cpus[c].pc) == Stage(s.cpus[c].pc) ==>
          && Rank(s'.cpus[d], s'.pending > 1) <= Rank(s.cpus[d], s.pending > 1)
          && (d == c ==> Rank(s'.cpus[d], s'.pending > 1) < Rank(s.cpus[d], s.pending > 1)))
  }

  lemma {:induction false} OnwardVisit(s: State, c: CpuId, other: CpuId, d: CpuId)
    requires Inv(s) && Enabled(s, Visit(c, other)) && d in s.cpus
    ensures Onward(s, NextVisit(s, c, other), c, d)
  {
    OwnerIs(s, c);
    hide Inv;
    var todo := s.cpus[c].pc.todo;
    assert |todo - {other}| == |todo| - 1;
  }

  lemma {:induction false} OnwardSelf(s: State, c: CpuId)
    requires Enabled(s, Go(c)) && CpuInv(s.cpus[c], s.pending)
    ensures c in NextGo(s, c).cpus && Onward(s, NextGo(s, c), c, c)
  {
  }

  lemma {:induction false} OnwardOther(s: State, c: CpuId, d: CpuId)
    requires Inv(s) && Enabled(s, Go(c)) && d in s.cpus && d != c
    ensures c in NextGo(s, c).cpus && d in NextGo(s, c).cpus && Onward(s, NextGo(s, c), c, d)
  {
    assert CpuInv(s.cpus[d], s.pending) && CpuInv(s.cpus[c], s.pending);
    if InSection(s.cpus[c].pc) {
      OwnerIs(s, c);
    }
    hide Inv, CpuInv;
  }

  lemma {:induction false} OnwardEnd(s: State, a: Action, d: CpuId)
    requires Inv(s) && Enabled(s, a) && (a.ExecEnd? || a.EndExclusive?) && d in s.cpus
    ensures Onward(s, Next(s, a), a.cpu, d)
  {
    assert CpuInv(s.cpus[a.cpu], s.pending);
    hide Inv;
  }

  lemma {:induction false} OnwardStep(s: State, a: Action, d: CpuId)
    requires Inv(s) && Enabled(s, a) && Calm(a) && d in s.cpus
    ensures Next(s, a).cpus.Keys == s.cpus.Keys && Onward(s, Next(s, a), a.cpu, d)
  {
    CalmKeys(s, a);
    hide Onward;
    match a
    case Visit(c, other) => OnwardVisit(s, c, other, d);
    case Go(c) =>
      if d == c {
        assert CpuInv(s.cpus[c], s.pending);
        OnwardSelf(s, c);
      } else {
        OnwardOther(s, c, d);
      }
    case _ => OnwardEnd(s, a, d);
  }

  lemma {:induction false} CalmKeys(s: State, a: Action)
    requires Enabled(s, a) && Calm(a)
    ensures Next(s, a).cpus.Keys == s.cpus.Keys
  {
  }

  lemma {:induction false} BoundedStep(s: State, a: Action, n: nat, k: nat)
    requires Inv(s) && Enabled(s, a) && Calm(a) && Bounded(s, n, k)
    ensures Bounded(Next(s, a), n, k)
  {
    CalmKeys(s, a);
    FewBelow(s.cpus.Keys, n);
    forall d | d in s.cpus
      ensures Next(s, a).cpus[d].contextCount <= k
      ensures Next(s, a).cpus[d].pc.Counting? ==> |Next(s, a).cpus[d].pc.todo| <= n
    {
      BoundedCpu(s, a, d);
    }
    hide Next;
  }

  /** The count does not rise above 1, and the list of CPUs to visit does not grow. */
  predicate NoBigger(me: Cpu, me': Cpu, all: set<CpuId>) {
    && (me'.contextCount <= me.contextCount || me'.contextCount == 1)
    && (me'.pc.Counting? ==> me'.pc.todo == all || (me.pc.Counting? && |me'.pc.todo| <= |me.pc.todo|))
  }

  lemma {:induction false} BoundedCpu(s: State, a: Action, d: CpuId)
    requires Enabled(s, a) && Calm(a) && d in s.cpus
    ensures d in Next(s, a).cpus && NoBigger(s.cpus[d], Next(s, a).cpus[d], s.cpus.Keys)
  {
    if a.Visit? {
      var todo := s.cpus[a.cpu].pc.todo;
      assert |todo - {a.other}| == |todo| - 1;
    } else if a.Go? {
      BoundedGo(s, a.cpu, d);
    }
  }

  lemma {:induction false} BoundedGo(s: State, c: CpuId, d: CpuId)
    requires Enabled(s, Go(c)) && d in s.cpus
    ensures d in NextGo(s, c).cpus && NoBigger(s.cpus[d], NextGo(s, c).cpus[d], s.cpus.Keys)
  {
    hide HoldsLock, WantsLock, Asleep;
  }

  /** More than the number of calm steps that can follow. */
  function Fuel(s: State, n: nat, k: nat): nat {
    Stages(s.cpus, n) * (n * (n + k + 12) + 1) + Ranks(s.cpus, s.pending > 1, n)
  }

  lemma {:induction false} FuelFalls(stages: nat, stages': nat, ranks: nat, ranks': nat, w: nat)
    requires ranks' < w && (stages' < stages || (stages' == stages && ranks' < ranks))
    ensures stages' * w + ranks' < stages * w + ranks
  {
    if stages' < stages {
      OneMore(stages', stages, w);
    }
  }

  lemma {:induction false} OneMore(m: nat, n: nat, w: nat)
    requires m < n
    ensures m * w + w <= n * w
  {
    assert (n - 1) * w + w == n * w;
    if m < n - 1 {
      OneMore(m, n - 1, w);
    }
  }

  lemma {:induction false} CalmStep(s: State, a: Action, n: nat, k: nat)
    requires Inv(s) && Enabled(s, a) && Calm(a) && Bounded(s, n, k)
    ensures Bounded(Next(s, a), n, k) && Fuel(Next(s, a), n, k) < Fuel(s, n, k)
  {
    hide Inv, Enabled, Next, Stage, Rank;
    var s', c := Next(s, a), a.cpu;
    CalmHas(s, a);
    BoundedStep(s, a, n, k);
    forall d | d in s.cpus
      ensures s'.cpus.Keys == s.cpus.Keys && Onward(s, s', c, d)
    {
      OnwardStep(s, a, d);
    }
    assert Onward(s, s', c, c);
    StagesFall(s.cpus, s'.cpus, n, c);
    if Stage(s'.cpus[c].pc) == Stage(s.cpus[c].pc) {
      RanksFall(s.cpus, s'.cpus, s.pending > 1, s'.pending > 1, n, c);
    }
    var w := n + k + 12;
    RanksBounded(s', n, k, n, w);
    FuelFalls(Stages(s.cpus, n), Stages(s'.cpus, n), Ranks(s.cpus, s.pending > 1, n),
              Ranks(s'.cpus, s'.pending > 1, n), n * w + 1);
  }

  lemma {:induction false} CalmHas(s: State, a: Action)
    requires Enabled(s, a) && Calm(a)
    ensures a.cpu in s.cpus
  {
  }

  /** From state `j` on, nobody calls cpu_exec_start or start_exclusive, comes, goes or wakes without a signal. */
  ghost predicate CalmFrom(acts: seq<Action>, j: nat) {
    forall i :: j <= i < |acts| ==> Calm(acts[i])
  }

  lemma {:induction false} CalmRun(states: seq<State>, acts: seq<Action>, j: nat, i: nat, n: nat, k: nat)
    requires IsRun(states, acts) && j <= i < |states| && CalmFrom(acts, j) && Bounded(states[j], n, k)
    ensures Bounded(states[i], n, k) && i - j + Fuel(states[i], n, k) <= Fuel(states[j], n, k)
  {
    hide Fuel, Bounded, Next, Enabled;
    if i > j {
      CalmRun(states, acts, j, i - 1, n, k);
      RunInv(states, acts, i - 1);
      CalmStep(states[i - 1], acts[i - 1], n, k);
    }
  }

  /**
   Every call returns.  Once nobody begins anything new, only so many steps are left, and when no thread can
   take another one, all have returned from all functions and left their sections.
   */
  lemma {:induction false} CallsReturn(states: seq<State>, acts: seq<Action>, j: nat, n: nat, k: nat)
    requires IsRun(states, acts) && j < |states| && CalmFrom(acts, j) && Bounded(states[j], n, k)
    ensures |acts| - j <= Fuel(states[j], n, k)
    ensures (forall a :: Calm(a) ==> !Enabled(states[|acts|], a)) ==>
      forall c :: c in states[|acts|].cpus ==> states[|acts|].cpus[c].pc.Outside?
  {
    CalmRun(states, acts, j, |acts|, n, k);
    RunInv(states, acts, |acts|);
    var s := states[|acts|];
    hide Fuel, Bounded, Inv, Enabled, IsRun, CalmFrom;
    if c :| c in s.cpus && !s.cpus[c].pc.Outside? {
      NoDeadlock(s, c);
    }
  }
}
