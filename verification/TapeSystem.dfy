/**
 Driver and device together: requests and EJECT ioctls queue commands, the device carries them out one by
 one, and the interrupt handler deals with its answers.  Requests that the driver gets right are served and
 end well, however ioctls are mixed in; the others on distinct memory are not, and some are never ended.
 */
module TapeSystem {
  import opened Options
  import opened TapeCommand
  import opened TapeCompiler
  import opened TapeCorrect
  import opened TapeDriver
  import D = TapeDevice
  import Q = TapeQueue

  /** The commands of a request, and the page table that the driver made for it. */
  datatype Req = Req(words: seq<nat>, table: seq<D.Extent>)

  /**
   What became of a request: the device state in which its commands began to run, whether they all succeeded,
   whether the driver ended it, whether an ioctl was queued when it left the queue, and the blocks moved.
   */
  datatype Record = Record(id: nat, req: Req, from: D.Device, ok: bool, ended: bool, behind: bool, moved: seq<D.Xfer>)

  /** `req` is the request whose commands are queued or were queued last; `from` and `moved` as in its record. */
  datatype Sys = Sys(queue: Q.State, dev: D.Device, req: Req, from: D.Device, moved: seq<D.Xfer>, history: seq<Record>)

  /** The commands may be queued, and none but an EJECT ever misses its tape. */
  ghost predicate Clean(g: D.Geometry, r: Req) {
    && Q.GoodRequest(Q.Commands(r.words))
    && forall d :: !D.RunWords(g, d, r.words, r.table).status.NoTape?
  }

  // ---------------------------------------------------------------- steps

  datatype Step =
    | Begin(id: nat)
    | Splice(r: Req)
    | Reject
    | Eject
    | Answer

  /** What the device does with the command at the head of the queue. */
  function Outcome(g: D.Geometry, s: Sys): D.Outcome
    requires s.queue.queue != []
  {
    D.Exec(g, s.dev, Decode(s.queue.queue[0].word), s.req.table)
  }

  function Event(status: D.Status): Q.Event {
    match status
    case Done => Q.Done
    case NoTape => Q.NoTape
    case _ => Q.OtherError
  }

  /** The block layer begins a request when the driver has none. */
  ghost predicate Enabled(g: D.Geometry, s: Sys, a: Step) {
    match a
    case Begin(_) => s.queue.req.None? && !s.queue.building
    case Splice(r) => s.queue.building && Clean(g, r)
    case Reject => s.queue.building
    case Eject => true
    case Answer => s.queue.queue != [] && Q.Enabled(s.queue, Event(Outcome(g, s).status))
  }

  predicate HasIoctl(q: seq<Q.Cmd>) {
    exists i :: 0 <= i < |q| && q[i].isIoctl
  }

  function Answered(g: D.Geometry, s: Sys): Sys
    requires s.queue.queue != [] && Q.Enabled(s.queue, Event(Outcome(g, s).status))
  {
    var o := Outcome(g, s);
    var e := Event(o.status);
    var s1 := s.(queue := Q.Next(s.queue, e), dev := o.dev);
    if s.queue.queue[0].isIoctl then s1.(from := o.dev)
    else
      var moved := s.moved + o.xfers;
      var s2 := s1.(moved := moved);
      if e.OtherError? || (e.Done? && Q.LastOfRequest(s.queue.queue)) then
        var id := if s.queue.req.Some? then s.queue.req.value else 0;
        var ended := |s1.queue.ended| > |s.queue.ended|;
        s2.(history := s.history + [Record(id, s.req, s.from, e.Done?, ended, HasIoctl(s.queue.queue), moved)])
      else s2
  }

  ghost function Next(g: D.Geometry, s: Sys, a: Step): Sys
    requires Enabled(g, s, a)
  {
    match a
    case Begin(id) => s.(queue := Q.Next(s.queue, Q.Begin(id)))
    case Splice(r) =>
      s.(queue := Q.Next(s.queue, Q.Splice(Q.Commands(r.words))), req := r, from := s.dev, moved := [])
    case Reject => s.(queue := Q.Next(s.queue, Q.Reject))
    case Eject => s.(queue := Q.Next(s.queue, Q.Event.Eject))
    case Answer => Answered(g, s)
  }

  // ---------------------------------------------------------------- what every run keeps

  /** The words of the request commands in the queue. */
  function Rest(q: seq<Q.Cmd>): seq<nat> {
    if q == [] then [] else (if q[0].isIoctl then [] else [q[0].word]) + Rest(q[1..])
  }

  predicate AllEjects(q: seq<Q.Cmd>) {
    forall i :: 0 <= i < |q| && q[i].isIoctl ==> q[i] == Q.EJECT
  }

  /** What the request has moved, and what it will still move, is what its commands move when run on their own. */
  predicate Along(g: D.Geometry, s: Sys) {
    var now := D.RunWords(g, s.dev, Rest(s.queue.queue), s.req.table);
    var whole := D.RunWords(g, s.from, s.req.words, s.req.table);
    s.moved + now.xfers == whole.xfers && now.status == whole.status
  }

  /** A request behind an ioctl still has all its commands. */
  predicate Untouched(s: Sys) {
    s.queue.queue != [] && s.queue.queue[0].isIoctl ==>
      Rest(s.queue.queue) == s.req.words && s.moved == [] && s.from == s.dev
  }

  ghost predicate WorkOk(g: D.Geometry, s: Sys) {
    Rest(s.queue.queue) != [] ==> Clean(g, s.req) && Along(g, s) && Untouched(s)
  }

  /** The record tells what the request's commands do on their own, and a refused request is ended only by chance. */
  ghost predicate Told(g: D.Geometry, h: Record) {
    var r := D.RunWords(g, h.from, h.req.words, h.req.table);
    h.moved == r.xfers && (h.ok <==> r.status.Done?) && (h.ended <==> h.ok || h.behind)
  }

  ghost predicate HistoryOk(g: D.Geometry, history: seq<Record>) {
    forall i :: 0 <= i < |history| ==> Told(g, history[i])
  }

  /** The requests that were ended with OK. */
  function OkEnds(ended: seq<Q.End>): seq<nat> {
    if ended == [] then []
    else
      var e := ended[|ended| - 1];
      OkEnds(ended[..|ended| - 1]) + if e.status.Ok? then [e.req] else []
  }

  function OkRecords(history: seq<Record>): seq<nat> {
    if history == [] then []
    else
      var h := history[|history| - 1];
      OkRecords(history[..|history| - 1]) + if h.ok then [h.id] else []
  }

  ghost predicate Inv(g: D.Geometry, s: Sys) {
    && Q.Inv(s.queue) && AllEjects(s.queue.queue) && WorkOk(g, s)
    && HistoryOk(g, s.history) && OkEnds(s.queue.ended) == OkRecords(s.history)
  }

  // ---------------------------------------------------------------- queues

  lemma {:induction false} RestAppend(q: seq<Q.Cmd>, r: seq<Q.Cmd>)
    ensures Rest(q + r) == Rest(q) + Rest(r)
  {
    if q == [] {
      assert q + r == r;
    } else {
      assert (q + r)[1..] == q[1..] + r;
      RestAppend(q[1..], r);
    }
  }

  lemma {:induction false} RestCommands(words: seq<nat>)
    ensures Rest(Q.Commands(words)) == words
  {
    if words != [] {
      assert Q.Commands(words)[1..] == Q.Commands(words[1..]);
      RestCommands(words[1..]);
    }
  }

  lemma {:induction false} RestNone(q: seq<Q.Cmd>)
    ensures Rest(q) == [] <==> !Q.HasRequest(q)
  {
    if q != [] {
      RestNone(q[1..]);
      if Q.IsRequest(q[0]) {
        assert Q.HasRequest(q);
      } else if Q.HasRequest(q) {
        var i :| 0 <= i < |q| && Q.IsRequest(q[i]);
        assert Q.IsRequest(q[1..][i - 1]);
      } else {
        assert forall i :: 0 <= i < |q| - 1 ==> q[1..][i] == q[i + 1];
      }
    }
  }

  /** The first command of a request is its last one if and only if no other is left. */
  lemma {:induction false} RestLast(q: seq<Q.Cmd>)
    requires q != [] && Q.Shape(q) && !q[0].isIoctl
    ensures Q.LastOfRequest(q) <==> Rest(q[1..]) == []
  {
    Q.LastMeansLast(q);
    RestNone(q[1..]);
  }

  lemma {:induction false} DropEjects(q: seq<Q.Cmd>)
    requires AllEjects(q)
    ensures AllEjects(Q.DropRequest(q))
  {
    if q != [] && !q[0].isIoctl {
      assert forall i :: 0 <= i < |q| - 1 ==> q[1..][i] == q[i + 1];
      DropEjects(q[1..]);
    }
  }

  // ---------------------------------------------------------------- running commands

  lemma {:induction false} RunWordsFirst(g: D.Geometry, d: D.Device, words: seq<nat>, table: seq<D.Extent>)
    requires words != []
    ensures var o := D.Exec(g, d, Decode(words[0]), table);
            D.RunWords(g, d, words, table) ==
              if o.status.Done? || (o.status.NoTape? && Decode(words[0]).Eject?)
              then var r := D.RunWords(g, o.dev, words[1..], table); r.(xfers := o.xfers + r.xfers)
              else o
  {
    hide D.Exec, Decode;
    var ops := seq(|words|, i requires 0 <= i < |words| => Decode(words[i]));
    var tail := words[1..];
    assert ops[1..] == seq(|tail|, i requires 0 <= i < |tail| => Decode(tail[i]));
  }

  lemma {:induction false} RunNothing(g: D.Geometry, d: D.Device, words: seq<nat>, table: seq<D.Extent>)
    requires words == []
    ensures D.RunWords(g, d, words, table) == D.Outcome(d, [], D.Done)
  {
  }

  /** A request's command misses a tape only when it is an EJECT, and then it is not the last one. */
  lemma {:induction false} MissesOnEject(g: D.Geometry, s: Sys)
    requires s.queue.queue != [] && !s.queue.queue[0].isIoctl && Outcome(g, s).status.NoTape?
    requires Clean(g, s.req) && Along(g, s)
    ensures Decode(s.queue.queue[0].word).Eject? && s.queue.queue[0].word % 0x100 == 1
  {
    hide D.RunWords, D.Exec;
    RunWordsFirst(g, s.dev, Rest(s.queue.queue), s.req.table);
  }

  lemma {:induction false} EjectNotLast(q: seq<Q.Cmd>)
    requires q != [] && Q.Shape(q) && Q.EndsInMove(q) && !q[0].isIoctl && q[0].word % 0x100 == 1
    ensures !Q.LastOfRequest(q)
  {
    assert !Q.EndsAt(q, 0);
  }

  // ---------------------------------------------------------------- the steps

  lemma {:induction false} OkEndsSnoc(ended: seq<Q.End>, e: Q.End)
    ensures OkEnds(ended + [e]) == OkEnds(ended) + if e.status.Ok? then [e.req] else []
  {
    assert (ended + [e])[..|ended|] == ended;
  }

  lemma {:induction false} OkRecordsSnoc(history: seq<Record>, h: Record)
    ensures OkRecords(history + [h]) == OkRecords(history) + if h.ok then [h.id] else []
  {
    assert (history + [h])[..|history|] == history;
  }

  /** An ioctl is answered: the tape is out, and the request behind it, if any, still has all its commands. */
  lemma {:induction false} IoctlAnswered(g: D.Geometry, s: Sys)
    requires s.queue.queue != [] && Q.Enabled(s.queue, Event(Outcome(g, s).status))
    requires AllEjects(s.queue.queue) && WorkOk(g, s) && s.queue.queue[0].isIoctl
    ensures var s' := Answered(g, s);
            && AllEjects(s'.queue.queue) && WorkOk(g, s')
            && s'.history == s.history && s'.queue.ended == s.queue.ended
  {
    hide D.RunWords, Clean;
    var s', q := Answered(g, s), s.queue.queue;
    assert q[0] == Q.EJECT && Decode(Q.EJECT.word) == Op.Eject;
    assert s'.queue.queue == q[1..] && Rest(q) == Rest(q[1..]);
  }

  /** A command of a request is refused, and the rest of the request is dropped. */
  lemma {:induction false} RequestRefused(g: D.Geometry, s: Sys)
    requires s.queue.queue != [] && Q.Enabled(s.queue, Event(Outcome(g, s).status))
    requires Event(Outcome(g, s).status).OtherError? && Q.Inv(s.queue) && !s.queue.queue[0].isIoctl && Along(g, s)
    ensures var s' := Answered(g, s);
            && Rest(s'.queue.queue) == [] && s'.queue.queue == Q.DropRequest(s.queue.queue)
            && (exists h :: s'.history == s.history + [h] && Told(g, h) && !h.ok)
            && OkEnds(s'.queue.ended) == OkEnds(s.queue.ended)
  {
    hide D.RunWords, D.Exec, Decode, OkEnds, Q.DropRequest;
    var s', q := Answered(g, s), s.queue.queue;
    Q.DropRequestShape(q);
    RestNone(Q.DropRequest(q));
    RunWordsFirst(g, s.dev, Rest(q), s.req.table);
    assert Q.HasRequest(q) by {
      assert Q.IsRequest(q[0]);
    }
    OkEndsSnoc(s.queue.ended, Q.End(s.queue.req.value, IoErr));
    var h := s'.history[|s.history|];
    assert s'.history == s.history + [h] && Told(g, h);
  }

  /** The last command of a request is done: the request is ended. */
  lemma {:induction false} LastDone(g: D.Geometry, s: Sys)
    requires s.queue.queue != [] && Q.Enabled(s.queue, Event(Outcome(g, s).status)) && Outcome(g, s).status.Done?
    requires Q.Inv(s.queue) && !s.queue.queue[0].isIoctl && Along(g, s) && Q.LastOfRequest(s.queue.queue)
    ensures var s' := Answered(g, s);
            && Rest(s'.queue.queue) == [] && s'.queue.queue == s.queue.queue[1..] && s.queue.req.Some?
            && (exists h :: s'.history == s.history + [h] && Told(g, h) && h.ok && h.id == s.queue.req.value)
            && OkEnds(s'.queue.ended) == OkEnds(s.queue.ended) + [s.queue.req.value]
  {
    hide D.RunWords, D.Exec, Decode, OkEnds;
    var s', q := Answered(g, s), s.queue.queue;
    RestLast(q);
    RunWordsFirst(g, s.dev, Rest(q), s.req.table);
    RunNothing(g, Outcome(g, s).dev, Rest(q)[1..], s.req.table);
    assert Q.HasRequest(q) by {
      assert Q.IsRequest(q[0]);
    }
    OkEndsSnoc(s.queue.ended, Q.End(s.queue.req.value, Ok));
    assert Outcome(g, s).xfers + [] == Outcome(g, s).xfers;
    var h := s'.history[|s.history|];
    assert s'.history == s.history + [h] && Told(g, h);
  }

  /** Another command of a request is done, or was an EJECT without a tape. */
  lemma {:induction false} MoreToDo(g: D.Geometry, s: Sys)
    requires s.queue.queue != [] && Q.Enabled(s.queue, Event(Outcome(g, s).status))
    requires !Event(Outcome(g, s).status).OtherError? && Q.Inv(s.queue) && !s.queue.queue[0].isIoctl
    requires Outcome(g, s).status.NoTape? ==> Decode(s.queue.queue[0].word).Eject?
    requires !Q.LastOfRequest(s.queue.queue) && Clean(g, s.req) && Along(g, s)
    ensures var s' := Answered(g, s);
            && WorkOk(g, s') && s'.queue.queue == s.queue.queue[1..]
            && s'.history == s.history && s'.queue.ended == s.queue.ended
  {
    hide D.RunWords, D.Exec, Decode, Clean;
    var s', q := Answered(g, s), s.queue.queue;
    RunWordsFirst(g, s.dev, Rest(q), s.req.table);
    var o := Outcome(g, s);
    var r := D.RunWords(g, o.dev, Rest(q)[1..], s.req.table);
    assert Rest(q)[1..] == Rest(q[1..]);
    assert s.moved + (o.xfers + r.xfers) == (s.moved + o.xfers) + r.xfers;
    assert Along(g, s');
  }

  lemma {:induction false} TailEjects(q: seq<Q.Cmd>)
    requires q != [] && AllEjects(q)
    ensures AllEjects(q[1..])
  {
    assert forall i :: 0 <= i < |q| - 1 ==> q[1..][i] == q[i + 1];
  }

  lemma {:induction false} HistorySnoc(g: D.Geometry, history: seq<Record>, h: Record)
    requires HistoryOk(g, history) && Told(g, h)
    ensures HistoryOk(g, history + [h])
  {
    hide Told;
  }

  lemma {:induction false} NoRest(g: D.Geometry, s: Sys)
    requires Rest(s.queue.queue) == []
    ensures WorkOk(g, s)
  {
  }

  /** A command of a request is answered. */
  lemma {:induction false} RequestAnswered(g: D.Geometry, s: Sys)
    requires Inv(g, s) && Enabled(g, s, Answer) && !s.queue.queue[0].isIoctl
    ensures Inv(g, Answered(g, s))
  {
    var s', q, status := Answered(g, s), s.queue.queue, Outcome(g, s).status;
    assert Rest(q) != [];
    hide Along, Clean, Told, Outcome, Q.Enabled, OkEnds, OkRecords, HistoryOk, Rest, AllEjects, Untouched, Decode;
    assert s'.queue == Q.Next(s.queue, Event(status));
    Q.NextInv(s.queue, Event(status));
    hide Answered, WorkOk;
    TailEjects(q);
    if Event(status).OtherError? {
      RequestRefused(g, s);
      DropEjects(q);
      var h :| s'.history == s.history + [h] && Told(g, h) && !h.ok;
      HistorySnoc(g, s.history, h);
      OkRecordsSnoc(s.history, h);
      NoRest(g, s');
    } else if status.Done? && Q.LastOfRequest(q) {
      LastDone(g, s);
      var h :| s'.history == s.history + [h] && Told(g, h) && h.ok && h.id == s.queue.req.value;
      HistorySnoc(g, s.history, h);
      OkRecordsSnoc(s.history, h);
      NoRest(g, s');
    } else {
      if status.NoTape? {
        MissesOnEject(g, s);
        EjectNotLast(q);
      }
      MoreToDo(g, s);
    }
  }

  /** Whatever the device answers, the interrupt handler deals with it. */
  lemma {:induction false} AnswerEnabled(g: D.Geometry, s: Sys)
    requires Inv(g, s) && s.queue.queue != []
    ensures Enabled(g, s, Answer)
  {
    hide D.Exec, Along, Clean, Told, HistoryOk, OkEnds, OkRecords;
    if s.queue.queue[0].isIoctl {
      assert s.queue.queue[0] == Q.EJECT;
    } else if Outcome(g, s).status.NoTape? {
      MissesOnEject(g, s);
    }
  }

  lemma {:induction false} AnswerInv(g: D.Geometry, s: Sys)
    requires Inv(g, s) && Enabled(g, s, Answer)
    ensures Inv(g, Answered(g, s))
  {
    if s.queue.queue[0].isIoctl {
      hide Along, Clean, Told, Outcome, OkEnds, OkRecords, HistoryOk, Rest, AllEjects, WorkOk;
      Q.NextInv(s.queue, Event(Outcome(g, s).status));
      IoctlAnswered(g, s);
    } else {
      hide Inv, Answered, Outcome;
      RequestAnswered(g, s);
    }
  }

  lemma {:induction false} SpliceInv(g: D.Geometry, s: Sys, r: Req)
    requires Inv(g, s) && Enabled(g, s, Splice(r))
    ensures Inv(g, Next(g, s, Splice(r)))
  {
    hide D.RunWords, HistoryOk, OkEnds, OkRecords, Rest;
    var s', cmds := Next(g, s, Splice(r)), Q.Commands(r.words);
    RestNone(s.queue.queue);
    RestAppend(s.queue.queue, cmds);
    RestCommands(r.words);
    assert Rest(s'.queue.queue) == r.words;
    Q.NextInv(s.queue, Q.Splice(cmds));
    hide Q.Inv, Clean;
    assert [] + D.RunWords(g, s.dev, r.words, r.table).xfers == D.RunWords(g, s.dev, r.words, r.table).xfers;
  }

  lemma {:induction false} EjectInv(g: D.Geometry, s: Sys)
    requires Inv(g, s)
    ensures Inv(g, Next(g, s, Step.Eject))
  {
    hide D.RunWords, HistoryOk, OkEnds, OkRecords, Clean;
    var q := s.queue.queue;
    RestAppend(q, [Q.EJECT]);
    assert [Q.EJECT][1..] == [] && Rest([Q.EJECT]) == [] && Rest(q) + [] == Rest(q);
    Q.NextInv(s.queue, Q.Event.Eject);
  }

  /** A request is noted or rejected: its commands are not queued. */
  lemma {:induction false} NoteInv(g: D.Geometry, s: Sys, a: Step)
    requires Inv(g, s) && Enabled(g, s, a) && (a.Begin? || a.Reject?)
    ensures Inv(g, Next(g, s, a))
  {
    hide D.RunWords, HistoryOk, OkEnds, OkRecords, Clean, Rest;
    Q.NextInv(s.queue, if a.Begin? then Q.Begin(a.id) else Q.Reject);
    if a.Reject? {
      OkEndsSnoc(s.queue.ended, Q.End(s.queue.req.value, IoErr));
    }
  }

  lemma {:induction false} NextInv(g: D.Geometry, s: Sys, a: Step)
    requires Inv(g, s) && Enabled(g, s, a)
    ensures Inv(g, Next(g, s, a))
  {
    hide Inv, Answered, Clean, Q.Next;
    match a
    case Splice(r) => SpliceInv(g, s, r);
    case Eject => EjectInv(g, s);
    case Answer => AnswerInv(g, s);
    case _ => NoteInv(g, s, a);
  }

  // ---------------------------------------------------------------- runs

  ghost predicate IsRun(g: D.Geometry, ss: seq<Sys>, steps: seq<Step>) {
    && |ss| == |steps| + 1 && ss[0].queue == Q.INIT && ss[0].history == []
    && forall i :: 0 <= i < |steps| ==> Enabled(g, ss[i], steps[i]) && ss[i + 1] == Next(g, ss[i], steps[i])
  }

  lemma {:induction false} RunInv(g: D.Geometry, ss: seq<Sys>, steps: seq<Step>, n: nat)
    requires IsRun(g, ss, steps) && n < |ss|
    ensures Inv(g, ss[n])
  {
    if n > 0 {
      hide Inv, Enabled, Next;
      RunInv(g, ss, steps, n - 1);
      NextInv(g, ss[n - 1], steps[n - 1]);
    }
  }

  /** What a step is to the queue. */
  ghost function QueueEvent(g: D.Geometry, s: Sys, a: Step): Q.Event
    requires Enabled(g, s, a)
  {
    match a
    case Begin(id) => Q.Begin(id)
    case Splice(r) => Q.Splice(Q.Commands(r.words))
    case Reject => Q.Reject
    case Eject => Q.Event.Eject
    case Answer => Event(Outcome(g, s).status)
  }

  ghost function Queues(ss: seq<Sys>): seq<Q.State> {
    seq(|ss|, i requires 0 <= i < |ss| => ss[i].queue)
  }

  ghost function Events(g: D.Geometry, ss: seq<Sys>, steps: seq<Step>): seq<Q.Event>
    requires IsRun(g, ss, steps)
  {
    seq(|steps|, i requires 0 <= i < |steps| => QueueEvent(g, ss[i], steps[i]))
  }

  lemma {:induction false} StepFollows(g: D.Geometry, s: Sys, a: Step)
    requires Enabled(g, s, a)
    ensures var e := QueueEvent(g, s, a); Q.Enabled(s.queue, e) && Next(g, s, a).queue == Q.Next(s.queue, e)
  {
    hide Outcome, D.RunWords;
  }

  /** The queue of driver and device together goes through the steps of the queue, whatever the device answers. */
  lemma {:induction false} QueueFollows(g: D.Geometry, ss: seq<Sys>, steps: seq<Step>)
    requires IsRun(g, ss, steps)
    ensures Q.Follows(Queues(ss), Events(g, ss, steps))
  {
    var qs, es := Queues(ss), Events(g, ss, steps);
    hide Enabled, Next, QueueEvent, Q.Next, Q.Enabled;
    forall i | 0 <= i < |es|
      ensures Q.Enabled(qs[i], es[i]) && qs[i + 1] == Q.Next(qs[i], es[i])
    {
      StepFollows(g, ss[i], steps[i]);
    }
  }

  /** The commands of the requests and ioctls of a run, in order. */
  function Asked(steps: seq<Step>): seq<Q.Cmd> {
    if steps == [] then [] else
    var a := steps[|steps| - 1];
    Asked(steps[..|steps| - 1]) + if a.Splice? then Q.Commands(a.r.words) else if a.Eject? then [Q.EJECT] else []
  }

  lemma {:induction false} AskedIsQueued(g: D.Geometry, ss: seq<Sys>, steps: seq<Step>, n: nat)
    requires IsRun(g, ss, steps) && n <= |steps|
    ensures Q.Queued(Events(g, ss, steps)[..n]) == Asked(steps[..n])
  {
    hide Enabled, Next;
    if n > 0 {
      var es := Events(g, ss, steps);
      AskedIsQueued(g, ss, steps, n - 1);
      assert es[..n][..n - 1] == es[..n - 1] && steps[..n][..n - 1] == steps[..n - 1];
      assert es[n - 1] == QueueEvent(g, ss[n - 1], steps[n - 1]);
    }
  }

  /** No command of a request or an ioctl is lost or overtaken, whatever the device answers. */
  lemma {:induction false} CommandsServed(g: D.Geometry, ss: seq<Sys>, steps: seq<Step>, n: nat)
    requires IsRun(g, ss, steps) && n <= |steps|
    ensures Q.Through(Queues(ss), Events(g, ss, steps)[..n]) + ss[n].queue.queue == Asked(steps[..n])
  {
    hide IsRun;
    QueueFollows(g, ss, steps);
    AskedIsQueued(g, ss, steps, n);
    Q.CommandsConserved(Queues(ss), Events(g, ss, steps), n);
  }

  /** The requests whose commands were queued, in order. */
  function Accepted(steps: seq<Step>): seq<Req> {
    if steps == [] then [] else
    var a := steps[|steps| - 1];
    Accepted(steps[..|steps| - 1]) + if a.Splice? then [a.r] else []
  }

  function Reqs(history: seq<Record>): seq<Req> {
    seq(|history|, i requires 0 <= i < |history| => history[i].req)
  }

  /** The request in the queue, if there is one. */
  function AtWork(s: Sys): seq<Req> {
    if Rest(s.queue.queue) == [] then [] else [s.req]
  }

  lemma {:induction false} ReqsSnoc(history: seq<Record>, h: Record)
    ensures Reqs(history + [h]) == Reqs(history) + [h.req]
  {
  }

  /** A step accepts a request, is through with one, or neither. */
  lemma {:induction false} NextAtWork(g: D.Geometry, s: Sys, a: Step)
    requires Inv(g, s) && Enabled(g, s, a)
    ensures Reqs(Next(g, s, a).history) + AtWork(Next(g, s, a)) ==
            Reqs(s.history) + AtWork(s) + if a.Splice? then [a.r] else []
  {
    var s', q := Next(g, s, a), s.queue.queue;
    RestNone(q);
    RestNone(s'.queue.queue);
    if a.Splice? {
      RestAppend(q, Q.Commands(a.r.words));
      RestCommands(a.r.words);
    } else if a.Eject? {
      RestAppend(q, [Q.EJECT]);
      assert [Q.EJECT][1..] == [] && Rest([Q.EJECT]) == [] && Rest(q) + [] == Rest(q);
    } else if a.Answer? {
      AnsweredAtWork(g, s);
    }
  }

  lemma {:induction false} AnsweredAtWork(g: D.Geometry, s: Sys)
    requires Inv(g, s) && Enabled(g, s, Answer)
    ensures Reqs(Answered(g, s).history) + AtWork(Answered(g, s)) == Reqs(s.history) + AtWork(s)
  {
    var s', q, status := Answered(g, s), s.queue.queue, Outcome(g, s).status;
    hide Along, Clean, Told, Outcome, OkEnds, OkRecords, HistoryOk, Decode;
    assert q[0].isIoctl || Rest(q) != [];
    if q[0].isIoctl {
      IoctlAnswered(g, s);
      assert s'.queue.queue == q[1..] && Rest(q) == Rest(q[1..]);
    } else {
      hide Answered, Q.Inv, Q.Enabled, Rest;
      if Event(status).OtherError? {
        RequestRefused(g, s);
        RecordedNow(g, s);
      } else if status.Done? && Q.LastOfRequest(q) {
        LastDone(g, s);
        RecordedNow(g, s);
      } else {
        if status.NoTape? {
          MissesOnEject(g, s);
          ShapeNow(s.queue);
          EjectNotLast(q);
        }
        StillAtWork(g, s);
      }
    }
  }

  lemma {:induction false} ShapeNow(s: Q.State)
    requires Q.Inv(s)
    ensures Q.Shape(s.queue) && Q.EndsInMove(s.queue)
  {
  }

  lemma {:induction false} RecordedNow(g: D.Geometry, s: Sys)
    requires s.queue.queue != [] && !s.queue.queue[0].isIoctl && Q.Enabled(s.queue, Event(Outcome(g, s).status))
    requires Rest(s.queue.queue) != [] && Rest(Answered(g, s).queue.queue) == []
    requires |Answered(g, s).history| > |s.history|
    ensures Reqs(Answered(g, s).history) + AtWork(Answered(g, s)) == Reqs(s.history) + AtWork(s)
  {
    hide Outcome, Q.Next, Q.Enabled, Rest, HasIoctl, Q.LastOfRequest;
    var h := Answered(g, s).history[|s.history|];
    assert Answered(g, s).history == s.history + [h] && h.req == s.req;
    ReqsSnoc(s.history, h);
  }

  lemma {:induction false} StillAtWork(g: D.Geometry, s: Sys)
    requires s.queue.queue != [] && !s.queue.queue[0].isIoctl && Q.Enabled(s.queue, Event(Outcome(g, s).status))
    requires Q.Inv(s.queue) && !Event(Outcome(g, s).status).OtherError? && !Q.LastOfRequest(s.queue.queue)
    ensures Reqs(Answered(g, s).history) + AtWork(Answered(g, s)) == Reqs(s.history) + AtWork(s)
  {
    hide Outcome;
    RestLast(s.queue.queue);
  }

  /** Every request whose commands were queued is recorded exactly once, in order, when it leaves the queue. */
  lemma {:induction false} AllRecorded(g: D.Geometry, ss: seq<Sys>, steps: seq<Step>, n: nat)
    requires IsRun(g, ss, steps) && n <= |steps|
    ensures Reqs(ss[n].history) + AtWork(ss[n]) == Accepted(steps[..n])
  {
    hide Inv, Enabled, Next;
    if n > 0 {
      RunInv(g, ss, steps, n - 1);
      AllRecorded(g, ss, steps, n - 1);
      NextAtWork(g, ss[n - 1], steps[n - 1]);
      assert steps[..n][..n - 1] == steps[..n - 1];
    }
  }

  /** The commands that the driver makes of a request, with the page table that it leaves in memory. */
  function Compiled(g: D.Geometry, write: bool, start: nat, es: seq<D.Extent>, table: seq<D.Extent>): Req
    requires g.blocks > 0 && GoodEntries(g, es)
  {
    Req(Words(Compile(g, write, start, es)), table)
  }

  /** What the commands of an accepted request do: they run to their end unless the last entry spills. */
  lemma {:induction false} CompiledRuns(g: D.Geometry, d: D.Device, write: bool, start: nat, es: seq<D.Extent>,
        table: seq<D.Extent>)
    requires Request(g, start, es, table) && SmallTapes(g) && |es| <= D.TABLE_SIZE
    ensures D.RunWords(g, d, Compiled(g, write, start, es, table).words, table).status ==
            if Spills(Fold(g, write, start, es)) then D.PastEnd else D.Done
  {
    hide D.Run, D.RunWords, Compile, Words, Cut, D.Flat, Spills;
    TapeMeaning.FlatSnoc(es);
    CompileFits(g, write, start, es);
    WordsRun(g, d, Compile(g, write, start, es), table);
    RunCompiled(g, d, write, start, es, table);
  }

  /** The commands of every accepted request may be queued. */
  lemma {:induction false} CompiledIsClean(g: D.Geometry, write: bool, start: nat, es: seq<D.Extent>,
        table: seq<D.Extent>)
    requires Request(g, start, es, table) && SmallTapes(g) && |es| <= D.TABLE_SIZE
    ensures Clean(g, Compiled(g, write, start, es, table))
  {
    hide D.RunWords, Cut, D.Flat;
    Q.CompiledIsGood(g, write, start, es);
    forall d
      ensures !D.RunWords(g, d, Compiled(g, write, start, es, table).words, table).status.NoTape?
    {
      CompiledRuns(g, d, write, start, es, table);
    }
  }

  lemma {:induction false} RunTold(g: D.Geometry, ss: seq<Sys>, steps: seq<Step>, n: nat, i: nat)
    requires IsRun(g, ss, steps) && n < |ss| && i < |ss[n].history|
    ensures Told(g, ss[n].history[i]) && OkEnds(ss[n].queue.ended) == OkRecords(ss[n].history)
  {
    hide Told;
    RunInv(g, ss, steps, n);
  }

  /**
   In every run, whatever state the device is in at first and however ioctls are mixed in: the requests ended
   with OK are those whose commands all succeeded, in order; a request that the driver handles was one of
   them and moved exactly its blocks; and one on distinct memory that did so was a request the driver handles.
   */
  lemma {:induction false} RequestsServed(g: D.Geometry, ss: seq<Sys>, steps: seq<Step>, n: nat, i: nat,
        write: bool, start: nat, es: seq<D.Extent>, table: seq<D.Extent>)
    requires IsRun(g, ss, steps) && n < |ss| && i < |ss[n].history|
    requires Request(g, start, es, table) && SmallTapes(g) && |es| <= D.TABLE_SIZE
    requires ss[n].history[i].req == Compiled(g, write, start, es, table)
    ensures OkEnds(ss[n].queue.ended) == OkRecords(ss[n].history)
    ensures var h, blocks := ss[n].history[i], D.Pairs(write, start, D.Flat(es));
            && (Handled(g, start, es) ==> h.ok && h.ended && h.moved == blocks)
            && (Distinct(D.Flat(es)) && h.ok && h.moved == blocks ==> Handled(g, start, es))
  {
    hide D.RunWords, Handled, Distinct, D.Flat, D.Pairs, OkEnds, OkRecords, IsRun, Cut;
    RunTold(g, ss, steps, n, i);
    ServedIffHandled(g, ss[n].history[i].from, write, start, es, table);
  }

  /**
   In every run a request leaves the queue without being ended if and only if its last entry reaches over the
   end of a tape and no ioctl is queued when the device refuses the last command.
   */
  lemma {:induction false} LostIff(g: D.Geometry, ss: seq<Sys>, steps: seq<Step>, n: nat, i: nat,
        write: bool, start: nat, es: seq<D.Extent>, table: seq<D.Extent>)
    requires IsRun(g, ss, steps) && n < |ss| && i < |ss[n].history|
    requires Request(g, start, es, table) && SmallTapes(g) && |es| <= D.TABLE_SIZE
    requires ss[n].history[i].req == Compiled(g, write, start, es, table)
    ensures !ss[n].history[i].ended <==> Spills(Fold(g, write, start, es)) && !ss[n].history[i].behind
  {
    hide D.RunWords, OkEnds, OkRecords, IsRun, Spills, D.Flat, Cut;
    RunTold(g, ss, steps, n, i);
    CompiledRuns(g, ss[n].history[i].from, write, start, es, table);
  }

  // ---------------------------------------------------------------- a request that is lost

  ghost predicate RunTo(g: D.Geometry, ss: seq<Sys>, steps: seq<Step>, s: Sys) {
    IsRun(g, ss, steps) && ss[|steps|] == s
  }

  lemma {:induction false} Then(g: D.Geometry, ss: seq<Sys>, steps: seq<Step>, s: Sys, a: Step)
    returns (ss': seq<Sys>, steps': seq<Step>)
    requires RunTo(g, ss, steps, s) && Enabled(g, s, a)
    ensures RunTo(g, ss', steps', Next(g, s, a))
  {
    hide Enabled, Next;
    ss', steps' := ss + [Next(g, s, a)], steps + [a];
    forall i | 0 <= i < |steps'|
      ensures Enabled(g, ss'[i], steps'[i]) && ss'[i + 1] == Next(g, ss'[i], steps'[i])
    {
      if i < |steps| {
        assert ss'[i] == ss[i] && steps'[i] == steps[i];
      }
    }
  }

  /** The commands of one request, and nothing else, are queued; nothing was ended before. */
  predicate Alone(s: Sys, r: Req) {
    && s.queue.queue != [] && !HasIoctl(s.queue.queue) && s.req == r
    && s.history == [] && s.queue.ended == [] && !s.queue.building
  }

  /** The request has left the queue. */
  predicate Through(s: Sys, r: Req) {
    && s.queue.queue == [] && |s.history| == 1 && s.history[0].req == r && !s.history[0].behind
    && |s.queue.ended| == (if s.history[0].ended then 1 else 0) && !s.queue.building
  }

  lemma {:induction false} AnswerAlone(g: D.Geometry, s: Sys, r: Req)
    requires Alone(s, r) && s.queue.queue != [] && Q.Enabled(s.queue, Event(Outcome(g, s).status)) && Q.Inv(s.queue)
    ensures var s' := Answered(g, s);
            |s'.queue.queue| < |s.queue.queue| && (Alone(s', r) || Through(s', r))
  {
    hide D.Exec, Decode;
    var q := s.queue.queue;
    assert forall i :: 0 <= i < |q| ==> Q.IsRequest(q[i]);
    assert forall i :: 0 <= i < |q| - 1 ==> q[1..][i] == q[i + 1];
    Q.DropRequestSkips(q, |q|);
    assert Q.HasRequest(q) by {
      assert Q.IsRequest(q[0]);
    }
    assert |q| == 1 ==> Q.EndsAt(q, 0);
  }

  /** Left alone, the device gets through the request. */
  lemma {:induction false} PlayOut(g: D.Geometry, ss: seq<Sys>, steps: seq<Step>, s: Sys, r: Req)
    returns (ss': seq<Sys>, steps': seq<Step>, s': Sys)
    requires RunTo(g, ss, steps, s) && Alone(s, r)
    ensures RunTo(g, ss', steps', s') && Through(s', r)
    decreases |s.queue.queue|
  {
    hide Inv, IsRun, Alone, Through, Q.Inv, Answered, Outcome, Q.Enabled;
    RunToInv(g, ss, steps, s);
    AloneBusy(s, r);
    AnswerEnabled(g, s);
    AnswerAlone(g, s, r);
    ss', steps' := Then(g, ss, steps, s, Answer);
    s' := Answered(g, s);
    if !Through(s', r) {
      ss', steps', s' := PlayOut(g, ss', steps', s', r);
    }
  }

  lemma {:induction false} AloneBusy(s: Sys, r: Req)
    ensures Alone(s, r) ==> s.queue.queue != []
  {
  }

  lemma {:induction false} RunToInv(g: D.Geometry, ss: seq<Sys>, steps: seq<Step>, s: Sys)
    requires RunTo(g, ss, steps, s)
    ensures Inv(g, s) && Q.Inv(s.queue) && |ss| == |steps| + 1
  {
    RunInv(g, ss, steps, |steps|);
  }

  lemma {:induction false} Submit(g: D.Geometry, d: D.Device, r: Req)
    returns (ss: seq<Sys>, steps: seq<Step>, s: Sys)
    requires Clean(g, r)
    ensures RunTo(g, ss, steps, s) && Alone(s, r) && ss[0].dev == d
  {
    var s0 := Sys(Q.INIT, d, r, d, [], []);
    var s1 := s0.(queue := Q.INIT.(req := Some(0), building := true));
    s := Next(g, s1, Splice(r));
    ss, steps := [s0, s1, s], [Begin(0), Splice(r)];
    assert s.queue.queue == Q.Commands(r.words) by {
      assert [] + Q.Commands(r.words) == Q.Commands(r.words);
    }
  }

  /** A run in which an accepted request is lost: any request whose last entry spills, when no ioctl comes. */
  lemma {:induction false} SpillingIsLost(g: D.Geometry, d: D.Device, write: bool, start: nat, es: seq<D.Extent>,
        table: seq<D.Extent>)
    returns (ss: seq<Sys>, steps: seq<Step>, s: Sys)
    requires Request(g, start, es, table) && SmallTapes(g) && |es| <= D.TABLE_SIZE
    requires Spills(Fold(g, write, start, es))
    ensures RunTo(g, ss, steps, s) && s.queue == Q.INIT
    ensures |s.history| == 1 && s.history[0].req == Compiled(g, write, start, es, table)
  {
    hide Spills, Inv, IsRun, Alone, Clean, D.Flat, Cut, Compiled;
    var r := Compiled(g, write, start, es, table);
    CompiledIsClean(g, write, start, es, table);
    ss, steps, s := Submit(g, d, r);
    ss, steps, s := PlayOut(g, ss, steps, s, r);
    RunToInv(g, ss, steps, s);
    LostIff(g, ss, steps, |steps|, 0, write, start, es, table);
  }
}
