/**
 The command queue of a tape section (`tapedev_irq.c`, `tapedev_main.c`): requests and EJECT ioctls
 append commands, the interrupt handler removes the finished one, ends the request after its last
 command and sends the next command.  Every step holds the section's lock.
 */
module TapeQueue {
  import opened Options
  import opened TapeCommand
  import TapeDevice
  import TapeCompiler
  import TapeDriver

  datatype Cmd = Cmd(word: nat, isIoctl: bool)

  /** `blk_mq_end_request` was called. */
  datatype End = End(req: nat, status: BlkStatus)

  /**
   `building` says that `submit_request_sg` has noted its request and not yet queued the commands; `sent` is
   the command that the device was given last, until it answers.
   */
  datatype State = State(queue: seq<Cmd>, req: Option<nat>, building: bool, sent: Option<Cmd>, ended: seq<End>)

  const INIT: State := State([], None, false, None, [])

  const EJECT: Cmd := Cmd(1, true)

  // ---------------------------------------------------------------- what the steps do

  predicate IsRequest(c: Cmd) {
    !c.isIoctl
  }

  /** The queue without the request commands at its head. */
  function DropRequest(q: seq<Cmd>): seq<Cmd> {
    if q == [] || q[0].isIoctl then q else DropRequest(q[1..])
  }

  function Head(q: seq<Cmd>): Option<Cmd> {
    if q == [] then None else Some(q[0])
  }

  /** The first command is the last one of its request. */
  predicate LastOfRequest(q: seq<Cmd>) {
    q != [] && !q[0].isIoctl && (|q| == 1 || q[1].isIoctl)
  }

  function EndWith(s: State, status: BlkStatus): State {
    if s.req.Some? then s.(req := None, ended := s.ended + [End(s.req.value, status)]) else s
  }

  datatype Event =
    | Begin(id: nat)
    | Splice(cmds: seq<Cmd>)
    | Reject
    | Eject
    | Done
    | NoTape
    | OtherError

  function Add(s: State, cmds: seq<Cmd>): State {
    s.(queue := s.queue + cmds, sent := if s.queue == [] then Head(cmds) else s.sent)
  }

  /** The device finished a command. */
  function Finished(s: State): State
    requires s.queue != []
  {
    var s1 := s.(queue := s.queue[1..]);
    if LastOfRequest(s.queue) then EndWith(s1, Ok) else s1
  }

  /** The device refused a command for another reason than a missing tape. */
  function Refused(s: State): State
    requires s.queue != []
  {
    if s.queue[0].isIoctl then s
    else
      var rest := DropRequest(s.queue);
      var s1 := s.(queue := rest);
      (if rest != [] then EndWith(s1, IoErr) else s1).(req := None)
  }

  function Resend(s: State): State {
    s.(sent := Head(s.queue))
  }

  function Next(s: State, e: Event): State
    requires Enabled(s, e)
  {
    match e
    case Begin(id) => s.(req := Some(id), building := true)
    case Splice(cmds) => Add(s.(building := false), cmds)
    case Reject => EndWith(s, IoErr).(building := false)
    case Eject => Add(s, [EJECT])
    case Done => Resend(Finished(s))
    case NoTape => Resend(s.(queue := s.queue[1..]))
    case OtherError => Resend(Refused(s))
  }

  /** The device answers only when it was given a command, and misses a tape only when told to eject one. */
  predicate Enabled(s: State, e: Event) {
    match e
    case Begin(_) => !s.building
    case Splice(cmds) => s.building && GoodRequest(cmds)
    case Reject => s.building
    case Eject => true
    case NoTape => s.sent.Some? && s.queue != [] && s.sent.value.word % 0x100 == 1
    case _ => s.sent.Some? && s.queue != []
  }

  /** The commands of a request: none from an ioctl, and the last one is not an EJECT. */
  predicate GoodRequest(cmds: seq<Cmd>) {
    cmds != [] && (forall i :: 0 <= i < |cmds| ==> IsRequest(cmds[i])) && cmds[|cmds| - 1].word % 0x100 != 1
  }

  // ---------------------------------------------------------------- every run

  /** Ioctl commands, then request commands, then ioctl commands. */
  predicate Shape(q: seq<Cmd>) {
    forall i, j, k :: 0 <= i < j < k < |q| && IsRequest(q[i]) && IsRequest(q[k]) ==> IsRequest(q[j])
  }

  predicate HasRequest(q: seq<Cmd>) {
    exists i :: 0 <= i < |q| && IsRequest(q[i])
  }

  predicate EndsAt(q: seq<Cmd>, i: nat) {
    i < |q| && IsRequest(q[i]) && (i == |q| - 1 || q[i + 1].isIoctl)
  }

  /** A request does not end in an EJECT. */
  predicate EndsInMove(q: seq<Cmd>) {
    forall i :: 0 <= i < |q| && EndsAt(q, i) ==> q[i].word % 0x100 != 1
  }

  predicate Inv(s: State) {
    && s.sent == Head(s.queue)
    && Shape(s.queue) && EndsInMove(s.queue)
    && (s.req.Some? <==> s.building || HasRequest(s.queue))
    && (s.building ==> !HasRequest(s.queue))
  }

  lemma {:induction false} TailShape(q: seq<Cmd>)
    requires q != [] && Shape(q) && EndsInMove(q)
    ensures Shape(q[1..]) && EndsInMove(q[1..])
  {
    var r := q[1..];
    assert forall i :: 0 <= i < |r| ==> r[i] == q[i + 1];
    forall i | 0 <= i < |r| && EndsAt(r, i)
      ensures r[i].word % 0x100 != 1
    {
      assert EndsAt(q, i + 1);
    }
  }

  /** A first command of a request is its last exactly when no command of a request follows. */
  lemma {:induction false} LastMeansLast(q: seq<Cmd>)
    requires q != [] && Shape(q)
    ensures IsRequest(q[0]) ==> (LastOfRequest(q) <==> !HasRequest(q[1..]))
    ensures !IsRequest(q[0]) ==> (HasRequest(q) <==> HasRequest(q[1..]))
  {
    var r := q[1..];
    assert forall i :: 0 <= i < |r| ==> r[i] == q[i + 1];
    if IsRequest(q[0]) {
      if HasRequest(r) {
        var i :| 0 <= i < |r| && IsRequest(r[i]);
        assert IsRequest(q[i + 1]);
      } else if |q| > 1 {
        assert !IsRequest(r[0]);
      }
    } else if HasRequest(q) {
      var i :| 0 <= i < |q| && IsRequest(q[i]);
      assert IsRequest(r[i - 1]);
    } else {
      assert forall i :: 0 <= i < |r| ==> !IsRequest(r[i]);
    }
  }

  lemma {:induction false} DropRequestShape(q: seq<Cmd>)
    requires q != [] && IsRequest(q[0]) && Shape(q) && EndsInMove(q)
    ensures var r := DropRequest(q); Shape(r) && EndsInMove(r) && !HasRequest(r)
    ensures DropRequest(q) != [] <==> exists i :: 0 <= i < |q| && q[i].isIoctl
  {
    var r := q[1..];
    TailShape(q);
    LastMeansLast(q);
    if LastOfRequest(q) {
      assert DropRequest(q) == r;
      if r != [] {
        assert r[0] == q[1] && q[1].isIoctl;
      }
    } else {
      assert r[0] == q[1];
      DropRequestShape(r);
      assert forall i :: 0 <= i < |r| ==> r[i] == q[i + 1];
      assert (exists i :: 0 <= i < |r| && r[i].isIoctl) <==> exists i :: 0 <= i < |q| && q[i].isIoctl by {
        if i :| 0 <= i < |q| && q[i].isIoctl {
          assert r[i - 1].isIoctl;
        }
        if i :| 0 <= i < |r| && r[i].isIoctl {
          assert q[i + 1].isIoctl;
        }
      }
    }
  }

  lemma {:induction false} AddIoctl(q: seq<Cmd>)
    requires Shape(q) && EndsInMove(q)
    ensures Shape(q + [EJECT]) && EndsInMove(q + [EJECT]) && (HasRequest(q + [EJECT]) <==> HasRequest(q))
  {
    var r := q + [EJECT];
    assert forall i :: 0 <= i < |q| ==> r[i] == q[i];
    if HasRequest(q) {
      var i :| 0 <= i < |q| && IsRequest(q[i]);
      assert IsRequest(r[i]);
    }
  }

  lemma {:induction false} AddRequest(q: seq<Cmd>, cmds: seq<Cmd>)
    requires !HasRequest(q) && GoodRequest(cmds)
    ensures Shape(q + cmds) && EndsInMove(q + cmds) && HasRequest(q + cmds)
  {
    var r := q + cmds;
    assert forall i :: 0 <= i < |q| ==> r[i] == q[i] && !IsRequest(r[i]);
    assert forall i :: |q| <= i < |r| ==> r[i] == cmds[i - |q|] && IsRequest(r[i]);
    assert IsRequest(r[|q|]);
  }

  /** Every step keeps the shape of the queue, the head at the device and the request while it has commands. */
  lemma {:induction false} NextInv(s: State, e: Event)
    requires Inv(s) && Enabled(s, e) && (e.Begin? ==> s.req.None?)
    ensures Inv(Next(s, e))
  {
    match e
    case Begin(_) =>
    case Reject =>
    case Splice(cmds) => AddRequest(s.queue, cmds);
    case Eject => AddIoctl(s.queue);
    case Done =>
      TailShape(s.queue);
      LastMeansLast(s.queue);
    case NoTape =>
      TailShape(s.queue);
      LastMeansLast(s.queue);
      assert !LastOfRequest(s.queue);
    case OtherError =>
      if IsRequest(s.queue[0]) {
        DropRequestShape(s.queue);
      }
  }

  function Ids(ended: seq<End>): seq<nat> {
    seq(|ended|, i requires 0 <= i < |ended| => ended[i].req)
  }

  /** The requests that were submitted, in order. */
  function Submitted(es: seq<Event>): seq<nat> {
    if es == [] then [] else
    var e := es[|es| - 1];
    Submitted(es[..|es| - 1]) + if e.Begin? then [e.id] else []
  }

  /** The block layer has one tag: it submits a request only after the one before was ended. */
  ghost predicate IsRun(ss: seq<State>, es: seq<Event>) {
    && |ss| == |es| + 1
    && ss[0] == INIT
    && forall i :: 0 <= i < |es| ==>
         && Enabled(ss[i], es[i]) && ss[i + 1] == Next(ss[i], es[i])
         && (es[i].Begin? ==> |ss[i].ended| == |Submitted(es[..i])|)
  }

  /** A command of a request is refused and no ioctl waits behind the request: the driver forgets the request. */
  predicate Loses(s: State, e: Event) {
    e.OtherError? && s.queue != [] && forall i :: 0 <= i < |s.queue| ==> IsRequest(s.queue[i])
  }

  ghost predicate Lossless(ss: seq<State>, es: seq<Event>) {
    forall i :: 0 <= i < |es| && i < |ss| ==> !Loses(ss[i], es[i])
  }

  function Pending(req: Option<nat>): seq<nat> {
    if req.Some? then [req.value] else []
  }

  /** Who was submitted: those ended, in order, and the one at work; after a loss, one that nobody will end. */
  predicate Accounts(s: State, ids: seq<nat>, lossless: bool) {
    if lossless then Ids(s.ended) + Pending(s.req) == ids
    else s.req.None? && |s.ended| < |ids| && Ids(s.ended) == ids[..|ids| - 1]
  }

  lemma {:induction false} IdsSnoc(ended: seq<End>, e: End)
    ensures Ids(ended + [e]) == Ids(ended) + [e.req]
  {
  }

  /** What a step does to the history: requests end in order, except that a loss ends nothing. */
  lemma {:induction false} NextEnded(s: State, e: Event)
    requires Inv(s) && Enabled(s, e) && !e.Begin?
    ensures var t := Next(s, e);
            if Loses(s, e) then t.req.None? && t.ended == s.ended && s.req.Some?
            else Ids(t.ended) + Pending(t.req) == Ids(s.ended) + Pending(s.req)
  {
    if e.Reject? {
      IdsSnoc(s.ended, End(s.req.value, IoErr));
      assert Ids(s.ended) + [s.req.value] + [] == Ids(s.ended) + [s.req.value];
    } else if e.OtherError? && IsRequest(s.queue[0]) {
      DropRequestShape(s.queue);
      assert HasRequest(s.queue);
      IdsSnoc(s.ended, End(s.req.value, IoErr));
      assert Ids(s.ended) + [s.req.value] + [] == Ids(s.ended) + [s.req.value];
    } else if e.Done? && LastOfRequest(s.queue) {
      assert HasRequest(s.queue) by {
        assert IsRequest(s.queue[0]);
      }
      IdsSnoc(s.ended, End(s.req.value, Ok));
      assert Ids(s.ended) + [s.req.value] + [] == Ids(s.ended) + [s.req.value];
    }
  }

  lemma {:induction false} NextAccounts(s: State, e: Event, ids: seq<nat>, lossless: bool)
    requires Inv(s) && Enabled(s, e) && Accounts(s, ids, lossless) && (e.Begin? ==> |s.ended| == |ids|)
    ensures Inv(Next(s, e))
    ensures Accounts(Next(s, e), ids + (if e.Begin? then [e.id] else []), lossless && !Loses(s, e))
  {
    if e.Begin? {
      assert s.req.None? && lossless;
      NextInv(s, e);
      assert Ids(s.ended) + [] == Ids(s.ended);
    } else {
      NextInv(s, e);
      NextEnded(s, e);
      assert ids + [] == ids;
      if lossless && Loses(s, e) {
        assert (Ids(s.ended) + [s.req.value])[..|s.ended|] == Ids(s.ended);
      }
    }
  }

  lemma {:induction false} RunPrefix(ss: seq<State>, es: seq<Event>)
    requires IsRun(ss, es) && es != []
    ensures IsRun(ss[..|es|], es[..|es| - 1])
  {
    var es' := es[..|es| - 1];
    assert forall i :: 0 <= i < |es'| ==> es'[..i] == es[..i];
  }

  lemma {:induction false} LosslessSnoc(ss: seq<State>, es: seq<Event>)
    requires es != [] && |ss| == |es| + 1
    ensures var n := |es| - 1; Lossless(ss, es) <==> Lossless(ss[..|es|], es[..n]) && !Loses(ss[n], es[n])
  {
    hide Loses;
    var ss', es' := ss[..|es|], es[..|es| - 1];
    assert forall i :: 0 <= i < |es'| ==> es'[i] == es[i] && ss'[i] == ss[i];
  }

  /**
   In every state of every run the queue is ioctl*, request*, ioctl*, the device works on its head, and
   the requests submitted are exactly those ended, each once and in order, then the one at work; a request
   is never ended if and only if one of its commands was refused while no ioctl was queued behind it.
   */
  lemma {:induction false} RunAccounts(ss: seq<State>, es: seq<Event>)
    requires IsRun(ss, es)
    ensures Inv(ss[|es|]) && Accounts(ss[|es|], Submitted(es), Lossless(ss, es))
  {
    hide Next, Enabled, Loses;
    if es != [] {
      var n := |es| - 1;
      var ss', es' := ss[..|es|], es[..n];
      RunPrefix(ss, es);
      RunAccounts(ss', es');
      LosslessSnoc(ss, es);
      NextAccounts(ss[n], es[n], Submitted(es'), Lossless(ss', es'));
    }
  }

  /**
   When the driver rejects no request and the device refuses nothing but an EJECT without a tape, every
   request that ends ends well.
   */
  lemma {:induction false} RunOk(ss: seq<State>, es: seq<Event>)
    requires IsRun(ss, es) && forall i :: 0 <= i < |es| ==> !es[i].OtherError? && !es[i].Reject?
    ensures forall i :: 0 <= i < |ss[|es|].ended| ==> ss[|es|].ended[i].status == Ok
  {
    if es != [] {
      var n := |es| - 1;
      var ss', es' := ss[..|es|], es[..n];
      RunPrefix(ss, es);
      RunOk(ss', es');
    }
  }

  // ---------------------------------------------------------------- no command is lost

  /** Any sequence of steps, whoever submits when. */
  ghost predicate Follows(ss: seq<State>, es: seq<Event>) {
    && |ss| == |es| + 1
    && ss[0] == INIT
    && forall i :: 0 <= i < |es| ==> Enabled(ss[i], es[i]) && ss[i + 1] == Next(ss[i], es[i])
  }

  /** The commands that requests and ioctls have queued, in order. */
  function Queued(es: seq<Event>): seq<Cmd> {
    if es == [] then [] else
    var e := es[|es| - 1];
    Queued(es[..|es| - 1]) + if e.Splice? then e.cmds else if e.Eject? then [EJECT] else []
  }

  /** The commands of the request at the head of the queue. */
  function FirstRequest(q: seq<Cmd>): seq<Cmd> {
    if q == [] || q[0].isIoctl then [] else [q[0]] + FirstRequest(q[1..])
  }

  /**
   The commands that an answer of the device disposes of: the one that the device was given, and when it
   refuses one of a request the whole rest of the request.  An ioctl that it refuses is tried again.
   */
  function Disposed(s: State, e: Event): seq<Cmd> {
    if s.sent.None? then []
    else if e.Done? || e.NoTape? then [s.sent.value]
    else if e.OtherError? && IsRequest(s.sent.value) then FirstRequest(s.queue)
    else []
  }

  function Through(ss: seq<State>, es: seq<Event>): seq<Cmd>
    requires |es| <= |ss|
    decreases |es|
  {
    if es == [] then [] else
    var n := |es| - 1;
    Through(ss, es[..n]) + Disposed(ss[n], es[n])
  }

  lemma {:induction false} FirstAndRest(q: seq<Cmd>)
    ensures FirstRequest(q) + DropRequest(q) == q
  {
    if q != [] && !q[0].isIoctl {
      FirstAndRest(q[1..]);
    }
  }

  lemma {:induction false} NextDisposes(s: State, e: Event)
    requires Enabled(s, e) && s.sent == Head(s.queue)
    ensures Next(s, e).sent == Head(Next(s, e).queue)
    ensures Disposed(s, e) + Next(s, e).queue == s.queue + Queued([e])
  {
    QueuedOne(e);
    hide Queued, Next, Disposed, Enabled;
    if e.Done? || e.NoTape? {
      DoneDisposes(s, e);
    } else if e.OtherError? {
      ErrorDisposes(s);
    } else {
      AddDisposes(s, e);
      assert [] + (s.queue + Queued([e])) == s.queue + Queued([e]);
    }
  }

  lemma {:induction false} DoneDisposes(s: State, e: Event)
    requires Enabled(s, e) && s.sent == Head(s.queue) && (e.Done? || e.NoTape?)
    ensures Next(s, e).sent == Head(Next(s, e).queue) && Disposed(s, e) + Next(s, e).queue == s.queue + []
  {
    assert [s.queue[0]] + s.queue[1..] == s.queue;
  }

  lemma {:induction false} ErrorDisposes(s: State)
    requires Enabled(s, OtherError) && s.sent == Head(s.queue)
    ensures Next(s, OtherError).sent == Head(Next(s, OtherError).queue)
    ensures Disposed(s, OtherError) + Next(s, OtherError).queue == s.queue + []
  {
    FirstAndRest(s.queue);
    hide FirstRequest, DropRequest;
  }

  lemma {:induction false} AddDisposes(s: State, e: Event)
    requires Enabled(s, e) && s.sent == Head(s.queue) && !e.Done? && !e.NoTape? && !e.OtherError?
    ensures Next(s, e).sent == Head(Next(s, e).queue) && Disposed(s, e) == []
    ensures Next(s, e).queue == s.queue + if e.Splice? then e.cmds else if e.Eject? then [EJECT] else []
  {
    assert s.queue + [] == s.queue;
    if s.queue == [] && e.Splice? {
      assert [] + e.cmds == e.cmds;
    }
  }

  lemma {:induction false} QueuedOne(e: Event)
    ensures Queued([e]) == if e.Splice? then e.cmds else if e.Eject? then [EJECT] else []
  {
    assert [e][..0] == [] && Queued([]) == [];
    assert e.Splice? ==> [] + e.cmds == e.cmds;
  }

  /**
   However requests, ioctls and answers are interleaved: the commands disposed of, followed by those in the
   queue, are the commands queued, in order, and the device works on the first of those in the queue.
   */
  lemma {:induction false} CommandsConserved(ss: seq<State>, es: seq<Event>, n: nat)
    requires Follows(ss, es) && n <= |es|
    ensures Through(ss, es[..n]) + ss[n].queue == Queued(es[..n]) && ss[n].sent == Head(ss[n].queue)
  {
    hide Next, Enabled, Disposed;
    if n > 0 {
      var s, e := ss[n - 1], es[n - 1];
      CommandsConserved(ss, es, n - 1);
      NextDisposes(s, e);
      assert es[..n][..n - 1] == es[..n - 1] && [e][..0] == [];
      var before := Through(ss, es[..n - 1]);
      assert (before + Disposed(s, e)) + ss[n].queue == before + (Disposed(s, e) + ss[n].queue);
      assert before + (s.queue + Queued([e])) == (before + s.queue) + Queued([e]);
    }
  }

  /** How many answers of the device the request still needs: the position after its last command. */
  function Needed(q: seq<Cmd>): nat {
    if q == [] then 0 else if IsRequest(q[|q| - 1]) then |q| else Needed(q[..|q| - 1])
  }

  lemma {:induction false} NeededTail(q: seq<Cmd>)
    requires q != []
    ensures Needed(q[1..]) == if Needed(q) == 0 then 0 else Needed(q) - 1
    ensures Needed(q) <= |q| && (Needed(q) == 0 <==> !HasRequest(q))
  {
    var init := q[..|q| - 1];
    if |q| > 1 && !IsRequest(q[|q| - 1]) {
      NeededTail(init);
      assert init[1..] == q[1..][..|q| - 2];
    }
    if HasRequest(q) && !IsRequest(q[|q| - 1]) {
      var i :| 0 <= i < |q| && IsRequest(q[i]);
      assert IsRequest(init[i]);
    }
  }

  /**
   Every answer of the device brings the request one command closer to its end, an ioctl does not delay
   it, and the request is ended, with OK, by the answer to its last command and by no other.
   */
  lemma {:induction false} Countdown(s: State, e: Event)
    requires Inv(s) && Enabled(s, e) && (e.Done? || e.NoTape? || e.Eject?) && s.req.Some? && !s.building
    ensures var t := Next(s, e);
            && Needed(s.queue) > 0
            && Needed(t.queue) == Needed(s.queue) - (if e.Eject? then 0 else 1)
            && (t.ended == s.ended + [End(s.req.value, Ok)] <==> e.Done? && Needed(s.queue) == 1)
            && (t.ended == s.ended <==> !(e.Done? && Needed(s.queue) == 1))
            && (t.req.None? <==> Needed(t.queue) == 0)
  {
    var q := s.queue;
    NeededTail(q);
    NextInv(s, e);
    if e.Eject? {
      assert (q + [EJECT])[..|q|] == q;
    } else {
      LastMeansLast(q);
      if Needed(q) == 1 {
        OneNeeded(q);
      }
      if |q| > 1 {
        NeededTail(q[1..]);
      }
    }
  }

  lemma {:induction false} OneNeeded(q: seq<Cmd>)
    requires Needed(q) == 1
    ensures q != [] && IsRequest(q[0])
  {
    if |q| > 1 {
      OneNeeded(q[..|q| - 1]);
    }
  }

  lemma {:induction false} DropRequestSkips(q: seq<Cmd>, k: nat)
    requires k <= |q| && forall i :: 0 <= i < k ==> IsRequest(q[i])
    ensures DropRequest(q) == DropRequest(q[k..])
  {
    if k > 0 {
      assert forall i :: 0 <= i < k - 1 ==> q[1..][i] == q[i + 1];
      DropRequestSkips(q[1..], k - 1);
      assert q[1..][k - 1..] == q[k..];
    }
  }

  /**
   A request is lost, whatever its commands: the first one is refused and no ioctl waits behind them.  The
   driver has forgotten the request, nothing is queued or at the device, and the request was not ended.
   */
  lemma {:induction false} RequestLost(cmds: seq<Cmd>) returns (ss: seq<State>, es: seq<Event>)
    requires GoodRequest(cmds)
    ensures IsRun(ss, es) && Submitted(es) == [0] && !Lossless(ss, es)
    ensures ss[|es|] == INIT
  {
    var begun := INIT.(req := Some(0), building := true);
    var queued := State(cmds, Some(0), false, Some(cmds[0]), []);
    es := [Begin(0), Splice(cmds), OtherError];
    ss := [INIT, begun, queued, INIT];
    assert es[..2][..1] == es[..1] == [Begin(0)] && es[..1][..0] == [] && Submitted(es[..1]) == [0];
    assert es[..2] == [Begin(0), Splice(cmds)] && Submitted(es[..2]) == [0];
    assert Next(begun, Splice(cmds)) == queued by {
      assert [] + cmds == cmds;
    }
    assert IsRequest(cmds[0]);
    assert Next(queued, OtherError) == INIT by {
      DropRequestSkips(cmds, |cmds|);
    }
    assert Loses(ss[2], es[2]);
  }

  // ---------------------------------------------------------------- the section itself

  class Section {
    var queue: seq<Cmd>
    var req: Option<nat>
    ghost var building: bool
    var sent: Option<Cmd>
    var ended: seq<End>

    constructor ()
      ensures View() == INIT && Inv(View())
    {
      queue, req, building, sent, ended := [], None, false, None, [];
    }

    ghost function View(): State
      reads this
    {
      State(queue, req, building, sent, ended)
    }

    /** `_end_request_helper` */
    method EndRequestHelper(status: BlkStatus)
      modifies this
      ensures View() == EndWith(old(View()), status)
    {
      if req.Some? {
        ended := ended + [End(req.value, status)];
        req := None;
      }
    }

    /** `__end_req_if_completed` */
    method EndReqIfCompleted(done: Cmd)
      modifies this
      ensures View() == if LastOfRequest([done] + old(queue)) then EndWith(old(View()), Ok) else old(View())
    {
      if queue == [] {
        if !done.isIoctl {
          EndRequestHelper(Ok);
        }
      } else if queue[0].isIoctl && !done.isIoctl {
        EndRequestHelper(Ok);
      }
    }

    /** `__abort_rest_of_req_cmds` */
    method AbortRestOfReqCmds()
      modifies this
      ensures var s := old(View()).(queue := DropRequest(old(queue)));
              View() == (if s.queue != [] then EndWith(s, IoErr) else s).(req := None)
    {
      ghost var k := 0;
      while queue != []
        invariant k <= |old(queue)| && queue == old(queue)[k..]
        invariant forall i :: 0 <= i < k ==> IsRequest(old(queue)[i])
        invariant View() == old(View()).(queue := queue)
        decreases |queue|
      {
        assert queue[0] == old(queue)[k];
        if queue[0].isIoctl {
          DropRequestSkips(old(queue), k);
          EndRequestHelper(IoErr);
          break;
        }
        queue := queue[1..];
        k := k + 1;
      }
      DropRequestSkips(old(queue), k);
      req := None;
    }

    /** `__handle_next_cmd` */
    method HandleNextCmd()
      modifies this
      ensures View() == old(View()).(sent := if old(queue) == [] then old(sent) else Some(old(queue)[0]))
    {
      if queue != [] {
        sent := Some(queue[0]);
      }
    }

    /** `__handle_section_done` */
    method HandleDone() returns (ok: bool)
      modifies this
      ensures ok <==> old(queue) != []
      ensures View() == if ok then Finished(old(View())).(sent := None) else old(View())
    {
      if queue == [] {
        return false;
      }
      var done := queue[0];
      sent := None;
      queue := queue[1..];
      assert [done] + queue == old(queue);
      EndReqIfCompleted(done);
      ok := true;
    }

    /** `__handle_section_error` */
    method HandleError(noTape: bool)
      requires queue != []
      modifies this
      ensures View() == (if noTape then old(View()).(queue := old(queue)[1..]) else Refused(old(View()))).(sent := None)
    {
      var cmd := queue[0];
      sent := None;
      if noTape {
        queue := queue[1..];
      }
      if cmd.isIoctl || noTape {
        return;
      }
      AbortRestOfReqCmds();
      if queue == [] {
        EndRequestHelper(IoErr);
      }
    }

    /** `_handle_section_interrupt`, for an answer to the command in flight. */
    method Interrupt(answer: Event)
      requires answer.Done? || answer.NoTape? || answer.OtherError?
      requires Inv(View()) && Enabled(View(), answer)
      modifies this
      ensures View() == Next(old(View()), answer) && Inv(View())
    {
      NextInv(View(), answer);
      if answer.Done? {
        var ok := HandleDone();
      } else {
        HandleError(answer.NoTape?);
      }
      HandleNextCmd();
    }

    /** The beginning of `submit_request_sg`: the request is noted. */
    method NoteRequest(id: nat)
      requires Inv(View()) && req.None? && !building
      modifies this
      ensures View() == Next(old(View()), Begin(id)) && Inv(View())
    {
      NextInv(View(), Begin(id));
      req := Some(id);
      building := true;
    }

    /** The end of `do_scatter_gather`: the commands of the request are appended. */
    method SpliceCommands(cmds: seq<Cmd>)
      requires Inv(View()) && building && GoodRequest(cmds)
      modifies this
      ensures View() == Next(old(View()), Splice(cmds)) && Inv(View())
    {
      NextInv(View(), Splice(cmds));
      if queue == [] {
        sent := Some(cmds[0]);
      }
      queue := queue + cmds;
      building := false;
    }

    /** The end of `tapedev_queue_rq` for a request that was rejected after it had been noted. */
    method RejectRequest()
      requires Inv(View()) && building
      modifies this
      ensures View() == Next(old(View()), Reject) && Inv(View())
    {
      NextInv(View(), Reject);
      if req.Some? {
        ended := ended + [End(req.value, IoErr)];
        req := None;
      }
      building := false;
    }

    /** The EJECT ioctl up to the point where it waits. */
    method IoctlEject()
      requires Inv(View())
      modifies this
      ensures View() == Next(old(View()), Event.Eject) && Inv(View())
    {
      NextInv(View(), Event.Eject);
      if queue == [] {
        sent := Some(EJECT);
      }
      queue := queue + [EJECT];
    }
  }

  // ---------------------------------------------------------------- the commands that the driver makes

  function Commands(words: seq<nat>): seq<Cmd> {
    seq(|words|, i requires 0 <= i < |words| => Cmd(words[i], false))
  }

  /** The commands of every request that the driver accepts may be queued: the last one is a READ or WRITE. */
  lemma {:induction false} CompiledIsGood(g: TapeDevice.Geometry, write: bool, start: nat, es: seq<TapeDevice.Extent>)
    requires g.blocks > 0 && TapeCompiler.GoodEntries(g, es) && es != []
    ensures GoodRequest(Commands(TapeDriver.Words(TapeCompiler.Compile(g, write, start, es))))
  {
    hide TapeCompiler.Fold;
    var init, e := es[..|es| - 1], es[|es| - 1];
    var a, acc := TapeCompiler.Fold(g, write, start, init), TapeCompiler.Fold(g, write, start, es);
    assert acc == TapeCompiler.Step(g, write, a, e) by {
      FoldLast(g, write, start, es);
    }
    var ops := TapeCompiler.Compile(g, write, start, es);
    assert ops[|ops| - 1].Move?;
    MoveWord(ops[|ops| - 1]);
  }

  lemma {:induction false} FoldLast(g: TapeDevice.Geometry, write: bool, start: nat, es: seq<TapeDevice.Extent>)
    requires g.blocks > 0 && TapeCompiler.GoodEntries(g, es) && es != []
    ensures TapeCompiler.Fold(g, write, start, es)
         == TapeCompiler.Step(g, write, TapeCompiler.Fold(g, write, start, es[..|es| - 1]), es[|es| - 1])
  {
  }

  lemma {:induction false} MoveWord(op: Op)
    requires op.Move?
    ensures Encode(op) % 0x100 == if op.write then CMD_WRITE else CMD_READ
  {
    MoveFields(if op.write then CMD_WRITE else CMD_READ, op.offset % 0x200, op.count % 0x8000);
  }
}
