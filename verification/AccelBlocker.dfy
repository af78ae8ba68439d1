/**
 The lock that inhibits accelerator ioctls (`accel/accel-blocker.c`).

 Any number of threads issue ioctls without the big lock, each under the counted lock of
 one CPU or under the global one.  One thread at a time, the holder of the big lock, may
 inhibit them: it takes all counted locks one by one, then repeatedly resets the event,
 scans the counts one by one and waits, until a scan finds only zeros.  The order in which
 it visits the locks is left open.  A counted lock that is locked can still go up
 from a positive count; it only cannot leave zero (`util/lockcnt.c`).
 */
module AccelBlocker {

  datatype LockId = Global | OfCpu(cpu: nat)

  type ThreadId = nat

  /** A `QemuLockCnt`. */
  datatype LockCnt = LockCnt(count: int, locked: bool)

  /** A thread that issues ioctls without the big lock. */
  datatype Caller =
    | Idle
    | InIoctl(lock: LockId)   // between accel_(cpu_)ioctl_begin and the decrement
    | Signalling              // between the decrement and qemu_event_set

  /** Where the holder of the big lock is. */
  datatype Inhibitor =
    | Off
    | Locking(todo: set<LockId>)               // inhibit_begin: taking the counted locks
    | Resetting                                // inhibit_begin: about to reset the event
    | Scanning(todo: set<LockId>, wait: bool)  // accel_has_to_wait
    | Asleep                                   // in qemu_event_wait
    | Inhibited                                // between inhibit_begin and inhibit_end
    | Unlocking(todo: set<LockId>)             // inhibit_end

  datatype State = State(locks: map<LockId, LockCnt>, callers: map<ThreadId, Caller>, event: bool, inhibitor: Inhibitor)

  datatype Action =
    | Begin(t: ThreadId, lock: LockId)  // qemu_lockcnt_inc succeeds
    | Dec(t: ThreadId)                  // qemu_lockcnt_dec
    | SetEvent(t: ThreadId)             // qemu_event_set
    | InhibitBegin                      // accel_ioctl_inhibit_begin is called
    | Lock(lock: LockId)                // qemu_lockcnt_lock
    | AllLocked                         // the loop over the locks ends
    | Reset                             // qemu_event_reset
    | Scan(lock: LockId)                // qemu_lockcnt_count
    | Wait                              // accel_has_to_wait returns true
    | Wake                              // qemu_event_wait returns
    | Spurious                          // qemu_event_wait returns although the event is not set
    | Return                            // accel_has_to_wait returns false, and inhibit_begin returns
    | InhibitEnd                        // accel_ioctl_inhibit_end is called
    | Unlock(lock: LockId)              // qemu_lockcnt_unlock
    | AllUnlocked                       // inhibit_end returns

  predicate IsInit(s: State) {
    && Global in s.locks
    && (forall l :: l in s.locks ==> s.locks[l] == LockCnt(0, false))
    && (forall t :: t in s.callers ==> s.callers[t].Idle?)
    && !s.event && s.inhibitor.Off?
  }

  predicate Enabled(s: State, a: Action) {
    match a
    case Begin(t, l) =>
      && t in s.callers && s.callers[t].Idle? && l in s.locks
      && (s.locks[l].count == 0 ==> !s.locks[l].locked)
    case Dec(t) => t in s.callers && s.callers[t].InIoctl? && s.callers[t].lock in s.locks
    case SetEvent(t) => t in s.callers && s.callers[t].Signalling?
    case InhibitBegin => s.inhibitor.Off?
    case Lock(l) => s.inhibitor.Locking? && l in s.inhibitor.todo && l in s.locks && !s.locks[l].locked
    case AllLocked => s.inhibitor.Locking? && s.inhibitor.todo == {}
    case Reset => s.inhibitor.Resetting?
    case Scan(l) => s.inhibitor.Scanning? && l in s.inhibitor.todo && l in s.locks
    case Wait => s.inhibitor.Scanning? && s.inhibitor.todo == {} && s.inhibitor.wait
    case Wake => s.inhibitor.Asleep? && s.event
    case Spurious => s.inhibitor.Asleep?
    case Return => s.inhibitor.Scanning? && s.inhibitor.todo == {} && !s.inhibitor.wait
    case InhibitEnd => s.inhibitor.Inhibited?
    case Unlock(l) => s.inhibitor.Unlocking? && l in s.inhibitor.todo && l in s.locks
    case AllUnlocked => s.inhibitor.Unlocking? && s.inhibitor.todo == {}
  }

  function Add(locks: map<LockId, LockCnt>, l: LockId, n: int): map<LockId, LockCnt>
    requires l in locks
  {
    locks[l := locks[l].(count := locks[l].count + n)]
  }

  function SetLocked(locks: map<LockId, LockCnt>, l: LockId, locked: bool): map<LockId, LockCnt>
    requires l in locks
  {
    locks[l := locks[l].(locked := locked)]
  }

  function Next(s: State, a: Action): State
    requires Enabled(s, a)
  {
    match a
    case Begin(t, l) => s.(locks := Add(s.locks, l, 1), callers := s.callers[t := InIoctl(l)])
    case Dec(t) => s.(locks := Add(s.locks, s.callers[t].lock, -1), callers := s.callers[t := Signalling])
    case SetEvent(t) => s.(event := true, callers := s.callers[t := Idle])
    case InhibitBegin => s.(inhibitor := Locking(s.locks.Keys))
    case Lock(l) => s.(locks := SetLocked(s.locks, l, true), inhibitor := Locking(s.inhibitor.todo - {l}))
    case AllLocked => s.(inhibitor := Resetting)
    case Reset => s.(event := false, inhibitor := Scanning(s.locks.Keys, false))
    case Scan(l) =>
      s.(inhibitor := Scanning(s.inhibitor.todo - {l}, s.inhibitor.wait || s.locks[l].count != 0))
    case Wait => s.(inhibitor := Asleep)
    case Wake => s.(inhibitor := Resetting)
    case Spurious => s.(inhibitor := Resetting)
    case Return => s.(inhibitor := Inhibited)
    case InhibitEnd => s.(inhibitor := Unlocking(s.locks.Keys))
    case Unlock(l) => s.(locks := SetLocked(s.locks, l, false), inhibitor := Unlocking(s.inhibitor.todo - {l}))
    case AllUnlocked => s.(inhibitor := Off)
  }

  // ---------------------------------------------------------------- the invariant

  /** The threads inside an ioctl that is counted by `l`. */
  function Users(callers: map<ThreadId, Caller>, l: LockId): set<ThreadId> {
    set t | t in callers && callers[t] == InIoctl(l)
  }

  /** Whether the inhibitor holds `l`. */
  predicate Held(i: Inhibitor, l: LockId) {
    match i
    case Off => false
    case Locking(todo) => l !in todo
    case Unlocking(todo) => l in todo
    case _ => true
  }

  /** Some thread has yet to set the event. */
  ghost predicate SomeoneWillSignal(callers: map<ThreadId, Caller>) {
    exists t :: t in callers && !callers[t].Idle?
  }

  ghost predicate CountInv(locks: map<LockId, LockCnt>, callers: map<ThreadId, Caller>) {
    && (forall t :: t in callers && callers[t].InIoctl? ==> callers[t].lock in locks)
    && (forall l :: l in locks ==> locks[l].count == |Users(callers, l)|)
  }

  /** A lock seen at zero stays at zero, and a scan that has to wait will be woken. */
  ghost predicate ScanInv(s: State) {
    match s.inhibitor
    case Scanning(todo, wait) =>
      && (!wait ==> forall l :: l in s.locks && l !in todo ==> s.locks[l].count == 0)
      && (wait ==> s.event || SomeoneWillSignal(s.callers))
    case Asleep => s.event || SomeoneWillSignal(s.callers)
    case Inhibited => forall l :: l in s.locks ==> s.locks[l].count == 0
    case _ => true
  }

  ghost predicate Inv(s: State) {
    && CountInv(s.locks, s.callers)
    && (forall l :: l in s.locks ==> (s.locks[l].locked <==> Held(s.inhibitor, l)))
    && (s.inhibitor.Locking? || s.inhibitor.Scanning? || s.inhibitor.Unlocking? ==> s.inhibitor.todo <= s.locks.Keys)
    && ScanInv(s)
  }

  lemma {:induction false} InitInv(s: State)
    requires IsInit(s)
    ensures Inv(s)
  {
    assert forall l :: Users(s.callers, l) == {};
  }

  lemma {:induction false} UsersAfter(callers: map<ThreadId, Caller>, t: ThreadId, c: Caller, l: LockId)
    requires t in callers
    ensures |Users(callers[t := c], l)| ==
            |Users(callers, l)| - (if callers[t] == InIoctl(l) then 1 else 0) + (if c == InIoctl(l) then 1 else 0)
  {
    var rest := Users(callers, l) - {t};
    assert Users(callers, l) == if callers[t] == InIoctl(l) then rest + {t} else rest;
    assert Users(callers[t := c], l) == if c == InIoctl(l) then rest + {t} else rest;
  }

  /** A step of a thread that issues ioctls. */
  predicate OfCaller(a: Action) {
    a.Begin? || a.Dec? || a.SetEvent?
  }

  lemma {:induction false} CallerCounts(s: State, a: Action)
    requires CountInv(s.locks, s.callers) && Enabled(s, a) && OfCaller(a)
    ensures CountInv(Next(s, a).locks, Next(s, a).callers)
  {
    var s' := Next(s, a);
    forall l | l in s.locks
      ensures s'.locks[l].count == |Users(s'.callers, l)|
    {
      UsersAfter(s.callers, a.t, s'.callers[a.t], l);
    }
  }

  lemma {:induction false} CallerInv(s: State, a: Action)
    requires Inv(s) && Enabled(s, a) && OfCaller(a)
    ensures Inv(Next(s, a))
  {
    var s' := Next(s, a);
    CallerCounts(s, a);
    if SomeoneWillSignal(s.callers) && !s'.event {
      var t :| t in s.callers && !s.callers[t].Idle?;
      assert !s'.callers[t].Idle?;
    }
    if a.Dec? {
      assert a.t in Users(s.callers, s.callers[a.t].lock);
    }
  }

  lemma {:induction false} InhibitInv(s: State, a: Action)
    requires Inv(s) && Enabled(s, a) && !OfCaller(a)
    ensures Inv(Next(s, a))
  {
    if a.Scan? && s.locks[a.lock].count != 0 {
      var t :| t in Users(s.callers, a.lock);
      assert t in s.callers && !s.callers[t].Idle?;
    }
  }

  lemma {:induction false} NextInv(s: State, a: Action)
    requires Inv(s) && Enabled(s, a)
    ensures Inv(Next(s, a))
  {
    if OfCaller(a) {
      CallerInv(s, a);
    } else {
      InhibitInv(s, a);
    }
  }

  ghost predicate Steps(states: seq<State>, acts: seq<Action>) {
    && |states| == |acts| + 1
    && forall i :: 0 <= i < |acts| ==> Enabled(states[i], acts[i]) && states[i + 1] == Next(states[i], acts[i])
  }

  ghost predicate IsRun(states: seq<State>, acts: seq<Action>) {
    Steps(states, acts) && IsInit(states[0])
  }

  lemma {:induction false} StepsInv(states: seq<State>, acts: seq<Action>, i: nat)
    requires Steps(states, acts) && i < |states| && Inv(states[0])
    ensures Inv(states[i])
  {
    hide Inv, Enabled, Next;
    if i > 0 {
      StepsInv(states, acts, i - 1);
      NextInv(states[i - 1], acts[i - 1]);
    }
  }

  lemma {:induction false} RunInv(states: seq<State>, acts: seq<Action>, i: nat)
    requires IsRun(states, acts) && i < |states|
    ensures Inv(states[i])
  {
    hide Inv, Enabled, Next;
    InitInv(states[0]);
    StepsInv(states, acts, i);
  }

  // ---------------------------------------------------------------- what the calls made so far say

  /** The ioctl that `t` began and did not end. */
  function Ioctl(acts: seq<Action>, t: ThreadId): Caller {
    if acts == [] then Idle else
    var a, before := acts[|acts| - 1], acts[..|acts| - 1];
    if a == Dec(t) then Signalling
    else if a == SetEvent(t) then Idle
    else if a.Begin? && a.t == t then InIoctl(a.lock)
    else Ioctl(before, t)
  }

  /** The threads that began an ioctl under `l` and did not end it. */
  function Begun(acts: seq<Action>, threads: set<ThreadId>, l: LockId): set<ThreadId> {
    set t | t in threads && Ioctl(acts, t) == InIoctl(l)
  }

  /** Whether `l` was locked and not unlocked since. */
  predicate Taken(acts: seq<Action>, l: LockId) {
    acts != [] &&
    var a, before := acts[|acts| - 1], acts[..|acts| - 1];
    a == Lock(l) || (a != Unlock(l) && Taken(before, l))
  }

  /** Whether `inhibit_begin` returned and `inhibit_end` was not called since. */
  predicate Inhibiting(acts: seq<Action>) {
    acts != [] &&
    var a, before := acts[|acts| - 1], acts[..|acts| - 1];
    a.Return? || (!a.InhibitEnd? && Inhibiting(before))
  }

  /** Whether `inhibit_begin` was called and the matching `inhibit_end` did not return. */
  predicate Claimed(acts: seq<Action>) {
    acts != [] &&
    var a, before := acts[|acts| - 1], acts[..|acts| - 1];
    a.InhibitBegin? || (!a.AllUnlocked? && Claimed(before))
  }

  /** Whether the inhibitor waits for the event. */
  predicate Sleeping(acts: seq<Action>) {
    acts != [] &&
    var a, before := acts[|acts| - 1], acts[..|acts| - 1];
    a.Wait? || (!a.Wake? && !a.Spurious? && Sleeping(before))
  }

  ghost predicate Accounted(first: State, s: State, acts: seq<Action>) {
    && s.callers.Keys == first.callers.Keys
    && s.locks.Keys == first.locks.Keys
    && (forall t :: t in s.callers ==> s.callers[t] == Ioctl(acts, t))
    && (forall l :: l in s.locks ==> (s.locks[l].locked <==> Taken(acts, l)))
    && (s.inhibitor.Inhibited? <==> Inhibiting(acts))
    && (s.inhibitor.Off? <==> !Claimed(acts))
    && (s.inhibitor.Asleep? <==> Sleeping(acts))
  }

  lemma {:induction false} CallerAccounted(first: State, s: State, acts: seq<Action>, a: Action)
    requires Accounted(first, s, acts) && Enabled(s, a) && OfCaller(a)
    ensures Accounted(first, Next(s, a), acts + [a])
  {
    assert (acts + [a])[..|acts|] == acts;
  }

  lemma {:induction false} InhibitAccounted(first: State, s: State, acts: seq<Action>, a: Action)
    requires Accounted(first, s, acts) && Enabled(s, a) && !OfCaller(a)
    ensures Accounted(first, Next(s, a), acts + [a])
  {
    assert (acts + [a])[..|acts|] == acts;
  }

  lemma {:induction false} NextAccounted(first: State, s: State, acts: seq<Action>, a: Action)
    requires Accounted(first, s, acts) && Enabled(s, a)
    ensures Accounted(first, Next(s, a), acts + [a])
  {
    hide Accounted, Enabled, Next;
    if OfCaller(a) {
      CallerAccounted(first, s, acts, a);
    } else {
      InhibitAccounted(first, s, acts, a);
    }
  }

  /**
   The state of a run is what the calls made so far say: every thread is in the ioctl it began
   and did not end, a counted lock is locked exactly between `qemu_lockcnt_lock` and
   `qemu_lockcnt_unlock`, and ioctls are inhibited from the return of `inhibit_begin` to the
   call of `inhibit_end`.
   */
  lemma {:induction false} CallsShow(states: seq<State>, acts: seq<Action>, i: nat)
    requires IsRun(states, acts) && i < |states|
    ensures Accounted(states[0], states[i], acts[..i])
  {
    hide Enabled, Next;
    if i > 0 {
      hide Accounted;
      CallsShow(states, acts, i - 1);
      NextAccounted(states[0], states[i - 1], acts[..i - 1], acts[i - 1]);
      assert acts[..i - 1] + [acts[i - 1]] == acts[..i];
    }
  }

  // ---------------------------------------------------------------- the theorems

  /**
   From the return of `inhibit_begin` to the call of `inhibit_end` no thread is inside an
   ioctl that it began without the big lock, on any CPU or globally, and none can begin one.
   */
  lemma {:induction false} InhibitedMeansNone(states: seq<State>, acts: seq<Action>, i: nat)
    requires IsRun(states, acts) && i < |states| && Inhibiting(acts[..i])
    ensures forall t :: t in states[0].callers ==> !Ioctl(acts[..i], t).InIoctl?
    ensures forall t, l :: !Enabled(states[i], Begin(t, l))
  {
    RunInv(states, acts, i);
    CallsShow(states, acts, i);
    var s := states[i];
    forall l | l in s.locks
      ensures Users(s.callers, l) == {}
    {
      assert s.locks[l].count == 0;
    }
    forall t | t in s.callers
      ensures !s.callers[t].InIoctl?
    {
      assert s.callers[t].InIoctl? ==> t in Users(s.callers, s.callers[t].lock);
    }
  }

  /** Every counted lock counts exactly the ioctls begun and not ended under it, so it never goes below zero. */
  lemma {:induction false} CountsIoctls(states: seq<State>, acts: seq<Action>, i: nat, l: LockId)
    requires IsRun(states, acts) && i < |states| && l in states[i].locks
    ensures states[i].locks[l].count == |Begun(acts[..i], states[0].callers.Keys, l)|
  {
    hide Enabled, Next, ScanInv, Held, Ioctl;
    RunInv(states, acts, i);
    CallsShow(states, acts, i);
    assert Users(states[i].callers, l) == Begun(acts[..i], states[0].callers.Keys, l);
  }

  /** When nobody inhibits ioctls, or has begun to, no counted lock is locked and every idle thread can begin any. */
  lemma {:induction false} InhibitEndFrees(states: seq<State>, acts: seq<Action>, i: nat)
    requires IsRun(states, acts) && i < |states| && !Claimed(acts[..i])
    ensures forall l :: l in states[i].locks ==> !states[i].locks[l].locked
    ensures forall t, l :: t in states[0].callers && Ioctl(acts[..i], t).Idle? && l in states[0].locks ==>
                             Enabled(states[i], Begin(t, l))
  {
    RunInv(states, acts, i);
    CallsShow(states, acts, i);
  }

  /**
   The inhibitor never sleeps with nobody left to wake it: when it waits for an event that
   is not set, some thread can still take a step towards `qemu_event_set`.
   */
  lemma {:induction false} NoLostWakeup(states: seq<State>, acts: seq<Action>, i: nat)
    requires IsRun(states, acts) && i < |states| && Sleeping(acts[..i]) && !states[i].event
    ensures exists t :: Enabled(states[i], Dec(t)) || Enabled(states[i], SetEvent(t))
  {
    RunInv(states, acts, i);
    CallsShow(states, acts, i);
    var t :| t in states[i].callers && !states[i].callers[t].Idle?;
    assert Enabled(states[i], Dec(t)) || Enabled(states[i], SetEvent(t));
  }

  // ---------------------------------------------------------------- every call returns

  /** A step within a call: no new call is made, and the event is not imagined. */
  predicate Calm(a: Action) {
    !a.Begin? && !a.InhibitBegin? && !a.InhibitEnd? && !a.Spurious?
  }

  function Inside(callers: map<ThreadId, Caller>): set<ThreadId> {
    set t | t in callers && callers[t].InIoctl?
  }

  function Ending(callers: map<ThreadId, Caller>): set<ThreadId> {
    set t | t in callers && callers[t].Signalling?
  }

  /** How far the inhibitor is from the end of its call, `n` being the number of counted locks. */
  function Distance(i: Inhibitor, n: nat): nat {
    match i
    case Off => 0
    case Locking(todo) => |todo| + 2 * n + 7
    case Resetting => 2 * n + 6
    case Scanning(todo, _) => |todo| + n + 5
    case Asleep => n + 4
    case Inhibited => 0
    case Unlocking(todo) => |todo| + 1
  }

  /** How often the event as it stands will end a wait: the one set before a reset will not. */
  function Wakes(s: State): nat {
    if s.event && !s.inhibitor.Resetting? then 1 else 0
  }

  /** A bound on the steps that are left; every signal may send the inhibitor round its loop once more. */
  function Fuel(s: State): nat {
    var n := |s.locks|;
    (n + 5) * |Inside(s.callers)| + (n + 4) * |Ending(s.callers)| + (n + 3) * Wakes(s) + Distance(s.inhibitor, n)
  }

  lemma {:induction false} CallerSets(callers: map<ThreadId, Caller>, t: ThreadId)
    requires t in callers
    ensures callers[t].InIoctl? ==>
              && |Inside(callers[t := Signalling])| == |Inside(callers)| - 1
              && |Ending(callers[t := Signalling])| == |Ending(callers)| + 1
    ensures callers[t].Signalling? ==>
              && |Inside(callers[t := Idle])| == |Inside(callers)|
              && |Ending(callers[t := Idle])| == |Ending(callers)| - 1
  {
    if callers[t].InIoctl? {
      assert Inside(callers[t := Signalling]) == Inside(callers) - {t};
      assert Ending(callers[t := Signalling]) == Ending(callers) + {t};
    } else if callers[t].Signalling? {
      assert Inside(callers[t := Idle]) == Inside(callers);
      assert Ending(callers[t := Idle]) == Ending(callers) - {t};
    }
  }

  lemma {:induction false} SameLocks(s: State, a: Action)
    requires Enabled(s, a)
    ensures Next(s, a).locks.Keys == s.locks.Keys && |Next(s, a).locks| == |s.locks|
  {
    var s' := Next(s, a);
    assert s'.locks.Keys == s.locks.Keys;
    assert |s.locks| == |s.locks.Keys| && |s'.locks| == |s'.locks.Keys|;
  }

  lemma {:induction false} CallerFuel(s: State, a: Action)
    requires Enabled(s, a) && (a.Dec? || a.SetEvent?)
    ensures Fuel(Next(s, a)) < Fuel(s)
  {
    hide Inside, Ending, Distance;
    SameLocks(s, a);
    CallerSets(s.callers, a.t);
    var n, x, y := |s.locks|, |Inside(s.callers)|, |Ending(s.callers)|;
    assert (n + 5) * (x - 1) == (n + 5) * x - (n + 5);
    assert (n + 4) * (y + 1) == (n + 4) * y + (n + 4);
    assert (n + 4) * (y - 1) == (n + 4) * y - (n + 4);
  }

  lemma {:induction false} DistanceFalls(s: State, a: Action)
    requires Enabled(s, a) && Calm(a) && !OfCaller(a)
    requires s.inhibitor.Scanning? ==> s.inhibitor.todo <= s.locks.Keys
    ensures Distance(Next(s, a).inhibitor, |s.locks|) + (if a.Wake? then 0 else |s.locks| + 3) <
            Distance(s.inhibitor, |s.locks|) + |s.locks| + 3
  {
    assert |s.locks| == |s.locks.Keys|;
  }

  lemma {:induction false} InhibitFuel(s: State, a: Action)
    requires Inv(s) && Enabled(s, a) && Calm(a) && !OfCaller(a)
    ensures Fuel(Next(s, a)) < Fuel(s)
  {
    hide CountInv, ScanInv, Inside, Ending, Distance, Held;
    SameLocks(s, a);
    DistanceFalls(s, a);
    var n := |s.locks|;
    assert (n + 3) * 1 == n + 3 && (n + 3) * 0 == 0;
    assert Wakes(Next(s, a)) <= Wakes(s) && (a.Wake? ==> Wakes(s) == 1 && Wakes(Next(s, a)) == 0);
  }

  /** A state in which every call has returned: ioctls may still be inhibited. */
  predicate AllReturned(s: State) {
    && (s.inhibitor.Off? || s.inhibitor.Inhibited?)
    && forall t :: t in s.callers ==> s.callers[t].Idle?
  }

  /** Until every call has returned, some call can go on. */
  lemma {:induction false} SomeCallMoves(s: State) returns (a: Action)
    requires Inv(s) && !AllReturned(s)
    ensures Calm(a) && Enabled(s, a)
  {
    if SomeoneWillSignal(s.callers) {
      var t :| t in s.callers && !s.callers[t].Idle?;
      a := if s.callers[t].InIoctl? then Dec(t) else SetEvent(t);
    } else {
      a := InhibitorMove(s);
    }
  }

  lemma {:induction false} InhibitorMove(s: State) returns (a: Action)
    requires Inv(s) && !s.inhibitor.Off? && !s.inhibitor.Inhibited? && (s.inhibitor.Asleep? ==> s.event)
    ensures Calm(a) && !OfCaller(a) && Enabled(s, a)
  {
    match s.inhibitor
    case Resetting => a := Reset;
    case Asleep => a := Wake;
    case Locking(todo) =>
      if todo == {} {
        a := AllLocked;
      } else {
        var l :| l in todo;
        a := Lock(l);
      }
    case Scanning(todo, wait) =>
      if todo == {} {
        a := if wait then Wait else Return;
      } else {
        var l :| l in todo;
        a := Scan(l);
      }
    case Unlocking(todo) =>
      if todo == {} {
        a := AllUnlocked;
      } else {
        var l :| l in todo;
        a := Unlock(l);
      }
  }

  /** No counted lock stops the inhibitor: outside its wait for the event it can always move by itself. */
  lemma {:induction false} InhibitorMoves(states: seq<State>, acts: seq<Action>, i: nat)
    requires IsRun(states, acts) && i < |states|
    requires Claimed(acts[..i]) && !Inhibiting(acts[..i]) && !Sleeping(acts[..i])
    ensures exists a :: Calm(a) && !OfCaller(a) && Enabled(states[i], a)
  {
    hide Enabled, Next, Inv;
    RunInv(states, acts, i);
    CallsShow(states, acts, i);
    var a := InhibitorMove(states[i]);
    assert Calm(a) && !OfCaller(a) && Enabled(states[i], a);
  }

  lemma {:induction false} FuelRuns(states: seq<State>, acts: seq<Action>, i: nat)
    requires Steps(states, acts) && Inv(states[0]) && (forall k :: 0 <= k < |acts| ==> Calm(acts[k])) && i < |states|
    ensures Fuel(states[i]) + i <= Fuel(states[0])
  {
    hide Inv, Fuel, Enabled, Next;
    if i > 0 {
      FuelRuns(states, acts, i - 1);
      StepsInv(states, acts, i - 1);
      if OfCaller(acts[i - 1]) {
        CallerFuel(states[i - 1], acts[i - 1]);
      } else {
        InhibitFuel(states[i - 1], acts[i - 1]);
      }
    }
  }

  /**
   Every call returns: from any state of a run, if no further call is made, at most
   `Fuel` steps can be taken, in whatever order, and when none is left no thread is in an
   ioctl, and the inhibitor has come out of `inhibit_begin` or `inhibit_end`.
   */
  lemma {:induction false} CallsReturn(states: seq<State>, acts: seq<Action>, i: nat, on: seq<State>, more: seq<Action>)
    requires IsRun(states, acts) && i < |states|
    requires Steps(on, more) && on[0] == states[i] && forall k :: 0 <= k < |more| ==> Calm(more[k])
    ensures |more| <= Fuel(states[i])
    ensures (forall a :: Calm(a) ==> !Enabled(on[|more|], a)) ==> AllReturned(on[|more|])
  {
    hide Inv, Fuel, Next;
    RunInv(states, acts, i);
    FuelRuns(on, more, |more|);
    StepsInv(on, more, |more|);
    if !AllReturned(on[|more|]) {
      var a := SomeCallMoves(on[|more|]);
      assert Calm(a) && Enabled(on[|more|], a);
    }
  }
}
