/**
 The Adler checksum driver (`11_lab_pci/adlerdev/adlerdev.c`).

 Sixteen page-sized buffers are shared by all open files of one device.  A writer takes a free
 buffer, fills it, counts it in its file and appends it to the list of running buffers; the
 device works on the head of that list with the single running sum in its register; the
 interrupt handler stores the sum in the file and starts the next buffer.  A state machine
 with one step per critical section, except that `pending_buffers++`, which the driver does
 outside its lock, is a read and a later write, and so is `pending_buffers--`, which the
 handler does inside the lock but which the lock does not protect from the increment.
 */
module AdlerDevice {
  import opened Options
  import opened Adler32

  const NUM_BUFFERS: nat := 16
  const PAGE_SIZE: nat := 4096

  type BufId = b: nat | b < NUM_BUFFERS
  type FileId = nat
  type WriterId = nat

  /** A `struct adlerdev_buffer`; its fill size is the length of `data`. */
  datatype Buffer = Buffer(ctx: Option<FileId>, data: seq<byte>)

  type Buffers = s: seq<Buffer> | |s| == NUM_BUFFERS witness seq(NUM_BUFFERS, _ => Buffer(None, []))

  /** A `struct adlerdev_context`, with the bytes submitted to and completed by the device. */
  datatype File = File(pending: int, sum: nat, submitted: seq<byte>, completed: seq<byte>)

  /** A thread in `adlerdev_write`; `rest` still starts with the chunk in `buf`. */
  datatype Writer =
    | Idle
    | Writing(file: FileId, rest: seq<byte>)
    | Holding(file: FileId, rest: seq<byte>, buf: BufId)             // took a free buffer
    | Filled(file: FileId, rest: seq<byte>, buf: BufId)              // copied the chunk, set ctx
    | Counting(file: FileId, rest: seq<byte>, buf: BufId, seen: int) // read pending_buffers
    | Counted(file: FileId, rest: seq<byte>, buf: BufId)             // wrote pending_buffers

  /** The device registers: the device works while `size` is positive. */
  datatype Device = Device(ptr: BufId, size: nat, sum: nat, intr: bool)

  /** `handler` is the count that the interrupt handler has read; it holds the lock until it writes it back. */
  datatype State = State(free: seq<BufId>, running: seq<BufId>, buffers: Buffers, files: map<FileId, File>,
                         writers: map<WriterId, Writer>, dev: Device, handler: Option<int>, bug: bool)

  datatype Action =
    | Open(f: FileId)
    | Release(f: FileId)
    | BeginWrite(w: WriterId, f: FileId, bytes: seq<byte>)
    | EndWrite(w: WriterId)       // nothing left, or interrupted while waiting for a buffer
    | Take(w: WriterId)
    | CopyFails(w: WriterId)
    | Copy(w: WriterId)
    | IncRead(w: WriterId)
    | IncWrite(w: WriterId)
    | Submit(w: WriterId)
    | DeviceDone
    | DecRead                     // adlerdev_isr: take the lock, read pending_buffers
    | DecWrite                    // adlerdev_isr: write pending_buffers, the rest, release the lock

  function Init(writers: set<WriterId>): State {
    State(seq(NUM_BUFFERS, i requires 0 <= i < NUM_BUFFERS => i as BufId), [],
        seq(NUM_BUFFERS, _ => Buffer(None, [])), map[],
          map w | w in writers :: Idle, Device(0, 0, 0, false), None, false)
  }

  function Chunk(rest: seq<byte>): seq<byte> {
    if |rest| <= PAGE_SIZE then rest else rest[..PAGE_SIZE]
  }

  /** The writer owns a buffer that is in no list. */
  predicate Has(w: Writer) {
    w.Holding? || w.Filled? || w.Counting? || w.Counted?
  }

  /** The step needs the lock, which the interrupt handler may hold. */
  predicate NeedsLock(a: Action) {
    a.Release? || a.Take? || a.CopyFails? || a.Submit? || a.DecRead?
  }

  /** The file that the head of the running list belongs to. */
  function HeadFile(s: State): Option<FileId> {
    if s.running == [] then None else s.buffers[s.running[0]].ctx
  }

  predicate Enabled(s: State, a: Action) {
    && (NeedsLock(a) ==> s.handler.None?)
    && match a
       case Open(f) => f !in s.files
       // the kernel releases a file only after its last write returned
       case Release(f) =>
         && f in s.files && s.files[f].pending == 0
         && forall w :: w in s.writers && !s.writers[w].Idle? ==> s.writers[w].file != f
       case BeginWrite(w, f, _) => w in s.writers && s.writers[w].Idle? && f in s.files
       case EndWrite(w) => w in s.writers && s.writers[w].Writing? && (s.writers[w].rest == [] || s.free == [])
       case Take(w) => w in s.writers && s.writers[w].Writing? && s.writers[w].rest != [] && s.free != []
       case CopyFails(w) => w in s.writers && s.writers[w].Holding?
       case Copy(w) => w in s.writers && s.writers[w].Holding?
       case IncRead(w) => w in s.writers && s.writers[w].Filled? && s.writers[w].file in s.files
       case IncWrite(w) => w in s.writers && s.writers[w].Counting? && s.writers[w].file in s.files
       case Submit(w) => w in s.writers && s.writers[w].Counted? && s.writers[w].file in s.files
       case DeviceDone => s.dev.size > 0 && s.dev.size <= |s.buffers[s.dev.ptr].data|
       case DecRead => s.dev.intr
       case DecWrite => s.dev.intr && s.handler.Some?
  }

  function SetWriter(s: State, w: WriterId, v: Writer): State {
    s.(writers := s.writers[w := v])
  }

  /** `iow(DATA_PTR); iow(SUM, ctx->sum); iow(DATA_SIZE)` */
  function StartDevice(dev: Device, b: BufId, sum: nat, data: seq<byte>): Device {
    dev.(ptr := b, sum := sum, size := |data|)
  }

  function Next(s: State, a: Action): State
    requires Enabled(s, a)
  {
    match a
    case Open(f) => s.(files := s.files[f := File(0, 1, [], [])])
    case Release(f) => s.(files := s.files - {f})
    case BeginWrite(w, f, bytes) => SetWriter(s, w, Writing(f, bytes))
    case EndWrite(w) => SetWriter(s, w, Idle)
    case Take(w) =>
      SetWriter(s, w, Holding(s.writers[w].file, s.writers[w].rest, s.free[0])).(free := s.free[1..])
    case CopyFails(w) => SetWriter(s, w, Idle).(free := [s.writers[w].buf] + s.free)
    case Copy(w) =>
      var me := s.writers[w];
      var buffer := Buffer(Some(me.file), Chunk(me.rest));
      SetWriter(s, w, Filled(me.file, me.rest, me.buf)).(buffers := s.buffers[me.buf := buffer])
    case IncRead(w) =>
      var me := s.writers[w];
      SetWriter(s, w, Counting(me.file, me.rest, me.buf, s.files[me.file].pending))
    case IncWrite(w) =>
      var me := s.writers[w];
      SetWriter(s, w, Counted(me.file, me.rest, me.buf))
        .(files := s.files[me.file := s.files[me.file].(pending := me.seen + 1)])
    case Submit(w) => NextSubmit(s, w)
    case DeviceDone =>
      s.(dev := s.dev.(size := 0, intr := true, sum := Feed(s.dev.sum, s.buffers[s.dev.ptr].data[..s.dev.size])))
    case DecRead => NextDecRead(s)
    case DecWrite => NextDecWrite(s)
  }

  function NextSubmit(s: State, w: WriterId): State
    requires Enabled(s, Submit(w))
  {
    var me := s.writers[w];
    var file := s.files[me.file];
    var data := s.buffers[me.buf].data;
    SetWriter(s, w, Writing(me.file, me.rest[|Chunk(me.rest)|..]))
      .(dev := if s.running == [] then StartDevice(s.dev, me.buf, file.sum, data) else s.dev,
        running := s.running + [me.buf],
        files := s.files[me.file := file.(submitted := file.submitted + data)])
  }

  /** `adlerdev_isr` up to the read of the count; `bug` records a failed BUG_ON or a buffer without a live context. */
  function NextDecRead(s: State): State
    requires Enabled(s, DecRead)
  {
    var head := HeadFile(s);
    if head.None? || head.value !in s.files then s.(bug := true)
    else s.(handler := Some(s.files[head.value].pending))
  }

  /** The rest of `adlerdev_isr`. */
  function NextDecWrite(s: State): State
    requires Enabled(s, DecWrite)
  {
    var head := HeadFile(s);
    if head.None? || head.value !in s.files then s.(bug := true) else
    var b, f := s.running[0], head.value;
    var buf, file := s.buffers[b], s.files[f];
    var done := file.(pending := s.handler.value - 1, sum := s.dev.sum, completed := file.completed + buf.data);
    var s1 := s.(running := s.running[1..], free := [b] + s.free, buffers := s.buffers[b := buf.(ctx := None)],
                 files := s.files[f := done], dev := s.dev.(intr := false), handler := None);
    if s1.running == [] then s1 else
    var next := s1.buffers[s1.running[0]];
    if next.ctx.None? || next.ctx.value !in s1.files then s1.(bug := true)
    else s1.(dev := StartDevice(s1.dev, s1.running[0], s1.files[next.ctx.value].sum, next.data))
  }

  // ---------------------------------------------------------------- the invariant

  predicate Distinct(s: seq<BufId>) {
    forall i, j :: 0 <= i < j < |s| ==> s[i] != s[j]
  }

  /** The bytes of the running buffers of file `f`, in list order. */
  function Bytes(running: seq<BufId>, buffers: Buffers, f: FileId): seq<byte>
  {
    if running == [] then [] else Piece(buffers[running[0]], f) + Bytes(running[1..], buffers, f)
  }

  function Piece(b: Buffer, f: FileId): seq<byte> {
    if b.ctx == Some(f) then b.data else []
  }

  /** The number of running buffers of file `f`. */
  function Count(running: seq<BufId>, buffers: Buffers, f: FileId): nat
  {
    if running == [] then 0 else
    (if buffers[running[0]].ctx == Some(f) then 1 else 0) + Count(running[1..], buffers, f)
  }

  /** The writers that have counted a buffer of `f` and not yet submitted it. */
  function CountedFor(writers: map<WriterId, Writer>, f: FileId): set<WriterId> {
    set w | w in writers && writers[w].Counted? && writers[w].file == f
  }

  /** No buffer is twice in a list or in both lists. */
  predicate Apart(free: seq<BufId>, running: seq<BufId>) {
    Distinct(free) && Distinct(running) && forall b :: b in free ==> b !in running
  }

  /** A buffer in a writer's hands is in no list and in no other writer's hands. */
  predicate HeldApart(free: seq<BufId>, running: seq<BufId>, writers: map<WriterId, Writer>) {
    && (forall w :: w in writers && Has(writers[w]) ==> writers[w].buf !in free && writers[w].buf !in running)
    && (forall v, w :: v in writers && w in writers && v != w && Has(writers[v]) && Has(writers[w]) ==>
        writers[v].buf != writers[w].buf)
  }

  ghost predicate HeldBySome(writers: map<WriterId, Writer>, b: BufId) {
    exists w :: w in writers && Has(writers[w]) && writers[w].buf == b
  }

  /** Every buffer is in exactly one place: the free list, the running list, or one writer's hands. */
  ghost predicate Partitioned(free: seq<BufId>, running: seq<BufId>, writers: map<WriterId, Writer>) {
    && Apart(free, running)
    && HeldApart(free, running, writers)
    && forall b: BufId :: b in free || b in running || HeldBySome(writers, b)
  }

  /** Running buffers carry a live file and a non-empty chunk. */
  predicate RunningInv(running: seq<BufId>, buffers: Buffers, live: set<FileId>) {
    forall b :: b in running ==> buffers[b].ctx.Some? && buffers[b].ctx.value in live && buffers[b].data != []
  }

  /** A writer works on a live file, and the buffer it has filled carries its file and its chunk. */
  predicate WritersInv(writers: map<WriterId, Writer>, buffers: Buffers, live: set<FileId>) {
    forall w :: w in writers ==> WriterOk(writers[w], buffers, live)
  }

  predicate WriterOk(w: Writer, buffers: Buffers, live: set<FileId>) {
    && (!w.Idle? ==> w.file in live)
    && (Has(w) ==> w.rest != [])
    && (Has(w) && !w.Holding? ==> buffers[w.buf] == Buffer(Some(w.file), Chunk(w.rest)))
  }

  /** The file's pending count is its running buffers plus those counted but not yet submitted. */
  predicate ExactFor(s: State, f: FileId) {
    f in s.files ==> s.files[f].pending == Count(s.running, s.buffers, f) + |CountedFor(s.writers, f)|
  }

  ghost predicate Exact(s: State) {
    forall f :: f in s.files ==> ExactFor(s, f)
  }

  /** The device is busy exactly when the running list is non-empty, and then with its head. */
  predicate DeviceInv(dev: Device, running: seq<BufId>, buffers: Buffers, files: map<FileId, File>) {
    if running == [] then
      dev.size == 0 && !dev.intr
    else
      var head := buffers[running[0]];
      && head.ctx.Some? && head.ctx.value in files
      && var sum := files[head.ctx.value].sum;
         || (!dev.intr && dev.ptr == running[0] && dev.size == |head.data| && dev.sum == sum)
         || (dev.intr && dev.size == 0 && dev.sum == Feed(sum, head.data))
  }

  /** Each file's sum is what the device makes of its completed bytes; the rest of its bytes are running. */
  predicate SumInv(files: map<FileId, File>, running: seq<BufId>, buffers: Buffers) {
    forall f :: f in files ==>
      && files[f].sum == Feed(1, files[f].completed)
      && files[f].submitted == files[f].completed + Bytes(running, buffers, f)
  }

  /** What does not depend on the pending counts. */
  ghost predicate Core(s: State) {
    && !s.bug
    && Partitioned(s.free, s.running, s.writers)
    && RunningInv(s.running, s.buffers, s.files.Keys)
    && WritersInv(s.writers, s.buffers, s.files.Keys)
    && DeviceInv(s.dev, s.running, s.buffers, s.files)
    && SumInv(s.files, s.running, s.buffers)
    && (s.handler.Some? ==> s.dev.intr)
  }

  /** The released file has no buffer left in the running list. */
  predicate Quiet(s: State, a: Action) {
    a.Release? ==> Count(s.running, s.buffers, a.f) == 0
  }

  // ---------------------------------------------------------------- list lemmas

  lemma {:induction false} BytesSnoc(running: seq<BufId>, b: BufId, buffers: Buffers, f: FileId)
    ensures Bytes(running + [b], buffers, f) == Bytes(running, buffers, f) + Piece(buffers[b], f)
  {
    if running == [] {
      assert [b][1..] == [];
    } else {
      assert (running + [b])[1..] == running[1..] + [b];
      BytesSnoc(running[1..], b, buffers, f);
      Assoc(Piece(buffers[running[0]], f), Bytes(running[1..], buffers, f), Piece(buffers[b], f));
    }
  }

  lemma {:induction false} Assoc(x: seq<byte>, y: seq<byte>, z: seq<byte>)
    ensures x + (y + z) == (x + y) + z
  {
  }

  lemma {:induction false} CountSnoc(running: seq<BufId>, b: BufId, buffers: Buffers, f: FileId)
    ensures Count(running + [b], buffers, f) == Count(running, buffers, f)
      + (if buffers[b].ctx == Some(f) then 1 else 0)
  {
    if running == [] {
      assert [b][1..] == [];
    } else {
      assert (running + [b])[1..] == running[1..] + [b];
      CountSnoc(running[1..], b, buffers, f);
    }
  }

  /** Buffers outside the list do not matter. */
  lemma {:induction false} Frame(running: seq<BufId>, buffers: Buffers, buffers': Buffers, f: FileId)
    requires forall b :: b in running ==> buffers[b] == buffers'[b]
    ensures Bytes(running, buffers, f) == Bytes(running, buffers', f)
    ensures Count(running, buffers, f) == Count(running, buffers', f)
  {
    if running != [] {
      assert running[0] in running;
      Frame(running[1..], buffers, buffers', f);
    }
  }

  lemma {:induction false} CountZero(running: seq<BufId>, buffers: Buffers, f: FileId)
    requires Count(running, buffers, f) == 0
    ensures Bytes(running, buffers, f) == []
    ensures forall b :: b in running ==> buffers[b].ctx != Some(f)
  {
    if running != [] {
      CountZero(running[1..], buffers, f);
    }
  }

  lemma {:induction false} CountedAfter(writers: map<WriterId, Writer>, w: WriterId, v: Writer, f: FileId)
    requires w in writers
    ensures |CountedFor(writers[w := v], f)| ==
            |CountedFor(writers, f)| - (if writers[w].Counted? && writers[w].file == f then 1 else 0)
                                     + (if v.Counted? && v.file == f then 1 else 0)
  {
    var rest := CountedFor(writers, f) - {w};
    assert CountedFor(writers, f) == if writers[w].Counted? && writers[w].file == f then rest + {w} else rest;
    assert CountedFor(writers[w := v], f) == if v.Counted? && v.file == f then rest + {w} else rest;
  }

  // ---------------------------------------------------------------- buffers change places

  lemma {:induction false} PlaceKeep(free: seq<BufId>, running: seq<BufId>, writers: map<WriterId, Writer>,
        w: WriterId, v: Writer)
    requires Partitioned(free, running, writers) && w in writers
    requires Has(v) == Has(writers[w]) && (Has(v) ==> v.buf == writers[w].buf)
    ensures Partitioned(free, running, writers[w := v])
  {
    forall b: BufId | HeldBySome(writers, b)
      ensures HeldBySome(writers[w := v], b)
    {
      var u :| u in writers && Has(writers[u]) && writers[u].buf == b;
      assert u in writers[w := v];
    }
  }

  lemma {:induction false} PlaceTake(free: seq<BufId>, running: seq<BufId>, writers: map<WriterId, Writer>,
        w: WriterId, v: Writer)
    requires Partitioned(free, running, writers) && w in writers && free != []
    requires !Has(writers[w]) && Has(v) && v.buf == free[0]
    ensures Partitioned(free[1..], running, writers[w := v])
  {
    var writers' := writers[w := v];
    assert HeldBySome(writers', free[0]) by { assert w in writers'; }
    forall b: BufId | HeldBySome(writers, b)
      ensures HeldBySome(writers', b)
    {
      var u :| u in writers && Has(writers[u]) && writers[u].buf == b;
      assert u in writers';
    }
    assert free == [free[0]] + free[1..];
  }

  lemma {:induction false} PlacePut(free: seq<BufId>, running: seq<BufId>, writers: map<WriterId, Writer>,
        w: WriterId, v: Writer)
    requires Partitioned(free, running, writers) && w in writers && Has(writers[w]) && !Has(v)
    ensures Partitioned([writers[w].buf] + free, running, writers[w := v])
    ensures Partitioned(free, running + [writers[w].buf], writers[w := v])
  {
    var writers' := writers[w := v];
    forall b: BufId | HeldBySome(writers, b) && b != writers[w].buf
      ensures HeldBySome(writers', b)
    {
      var u :| u in writers && Has(writers[u]) && writers[u].buf == b;
      assert u in writers';
    }
  }

  lemma {:induction false} PlaceDone(free: seq<BufId>, running: seq<BufId>, writers: map<WriterId, Writer>)
    requires Partitioned(free, running, writers) && running != []
    ensures Partitioned([running[0]] + free, running[1..], writers)
  {
    var b := running[0];
    assert forall c :: c in running <==> c == b || c in running[1..];
    assert b !in free && b !in running[1..];
    assert Distinct([b] + free);
  }

  // ---------------------------------------------------------------- the steps keep the core

  lemma {:induction false} OpenCore(s: State, f: FileId)
    requires Core(s) && Enabled(s, Open(f))
    ensures Core(Next(s, Open(f)))
  {
    NoBuffers(s.running, s.buffers, f, s.files.Keys);
  }

  lemma {:induction false} ReleaseCore(s: State, f: FileId)
    requires Core(s) && Enabled(s, Release(f)) && Quiet(s, Release(f))
    ensures Core(Next(s, Release(f)))
  {
    CountZero(s.running, s.buffers, f);
    if s.running != [] {
      assert s.running[0] in s.running;
    }
  }

  lemma {:induction false} NoBuffers(running: seq<BufId>, buffers: Buffers, f: FileId, live: set<FileId>)
    requires f !in live && RunningInv(running, buffers, live)
    ensures Count(running, buffers, f) == 0 && Bytes(running, buffers, f) == []
  {
    if running != [] {
      assert running[0] in running;
      NoBuffers(running[1..], buffers, f, live);
    }
  }

  /** Steps of one writer that touch no buffer, no file and not the device. */
  lemma {:induction false} WriterCore(s: State, w: WriterId, v: Writer)
    requires Core(s) && w in s.writers
    requires Has(v) == Has(s.writers[w]) && (Has(v) ==> v.buf == s.writers[w].buf)
    requires WriterOk(v, s.buffers, s.files.Keys)
    ensures Core(SetWriter(s, w, v))
  {
    PlaceKeep(s.free, s.running, s.writers, w, v);
  }

  lemma {:induction false} TakeCore(s: State, w: WriterId)
    requires Core(s) && Enabled(s, Take(w))
    ensures Core(Next(s, Take(w)))
  {
    PlaceTake(s.free, s.running, s.writers, w, Next(s, Take(w)).writers[w]);
  }

  lemma {:induction false} CopyFailsCore(s: State, w: WriterId)
    requires Core(s) && Enabled(s, CopyFails(w))
    ensures Core(Next(s, CopyFails(w)))
  {
    PlacePut(s.free, s.running, s.writers, w, Idle);
  }

  /** Writing to a buffer outside the running list disturbs nothing about the running ones. */
  lemma {:induction false} FrameAll(s: State, buffers: Buffers)
    requires Core(s) && forall b :: b in s.running ==> buffers[b] == s.buffers[b]
    ensures RunningInv(s.running, buffers, s.files.Keys)
    ensures DeviceInv(s.dev, s.running, buffers, s.files)
    ensures SumInv(s.files, s.running, buffers)
  {
    forall f
      ensures Bytes(s.running, buffers, f) == Bytes(s.running, s.buffers, f)
    {
      Frame(s.running, s.buffers, buffers, f);
    }
    if s.running != [] {
      assert s.running[0] in s.running;
    }
  }

  lemma {:induction false} CopyWriters(s: State, w: WriterId)
    requires HeldApart(s.free, s.running, s.writers) && WritersInv(s.writers, s.buffers, s.files.Keys)
    requires Enabled(s, Copy(w))
    ensures WritersInv(Next(s, Copy(w)).writers, Next(s, Copy(w)).buffers, s.files.Keys)
  {
    var s' := Next(s, Copy(w));
    forall v | v in s'.writers
      ensures WriterOk(s'.writers[v], s'.buffers, s.files.Keys)
    {
      assert WriterOk(s.writers[v], s.buffers, s.files.Keys);
      if v != w && Has(s.writers[v]) {
        assert s.writers[v].buf != s.writers[w].buf;
      }
    }
  }

  lemma {:induction false} CopyCore(s: State, w: WriterId)
    requires Core(s) && Enabled(s, Copy(w))
    ensures Core(Next(s, Copy(w)))
  {
    var s' := Next(s, Copy(w));
    CopyWriters(s, w);
    FrameAll(s, s'.buffers);
    PlaceKeep(s.free, s.running, s.writers, w, s'.writers[w]);
  }

  lemma {:induction false} DeviceDoneCore(s: State)
    requires Core(s) && Enabled(s, DeviceDone)
    ensures Core(Next(s, DeviceDone))
  {
    var data := s.buffers[s.dev.ptr].data;
    assert data[..|data|] == data;
  }

  lemma {:induction false} IncWriteCore(s: State, w: WriterId)
    requires Core(s) && Enabled(s, IncWrite(w))
    ensures Core(Next(s, IncWrite(w)))
  {
    var s' := Next(s, IncWrite(w));
    assert s'.files.Keys == s.files.Keys;
    PlaceKeep(s.free, s.running, s.writers, w, s'.writers[w]);
  }

  lemma {:induction false} SubmitSums(s: State, w: WriterId)
    requires SumInv(s.files, s.running, s.buffers) && Enabled(s, Submit(w))
    requires WriterOk(s.writers[w], s.buffers, s.files.Keys)
    ensures var s' := NextSubmit(s, w); SumInv(s'.files, s'.running, s'.buffers)
  {
    var s' := NextSubmit(s, w);
    forall f | f in s'.files
      ensures s'.files[f].submitted == s'.files[f].completed + Bytes(s'.running, s'.buffers, f)
    {
      var data := Piece(s.buffers[s.writers[w].buf], f);
      BytesSnoc(s.running, s.writers[w].buf, s.buffers, f);
      Assoc(s.files[f].completed, Bytes(s.running, s.buffers, f), data);
      assert s'.files[f].submitted == s.files[f].submitted + data;
    }
  }

  lemma {:induction false} SubmitCore(s: State, w: WriterId)
    requires Core(s) && Enabled(s, Submit(w))
    ensures Core(NextSubmit(s, w))
  {
    var s' := NextSubmit(s, w);
    assert WriterOk(s.writers[w], s.buffers, s.files.Keys);
    SubmitSums(s, w);
    PlacePut(s.free, s.running, s.writers, w, s'.writers[w]);
    assert s'.files.Keys == s.files.Keys;
    SubmitDevice(s, w);
  }

  lemma {:induction false} SubmitDevice(s: State, w: WriterId)
    requires DeviceInv(s.dev, s.running, s.buffers, s.files) && Enabled(s, Submit(w))
    requires WriterOk(s.writers[w], s.buffers, s.files.Keys)
    ensures var s' := NextSubmit(s, w); DeviceInv(s'.dev, s'.running, s'.buffers, s'.files)
  {
  }

  /** The head of the running list, which the interrupt handler takes off. */
  predicate HeadDone(s: State) {
    && s.running != [] && s.running[0] !in s.running[1..]
    && s.buffers[s.running[0]].ctx.Some? && s.buffers[s.running[0]].ctx.value in s.files
    && s.dev.sum == Feed(s.files[s.buffers[s.running[0]].ctx.value].sum, s.buffers[s.running[0]].data)
    && (|s.running| > 1 ==> s.buffers[s.running[1]].ctx.Some? && s.buffers[s.running[1]].ctx.value in s.files)
  }

  lemma {:induction false} IsrHead(s: State)
    requires Core(s) && s.dev.intr
    ensures HeadDone(s)
  {
    assert s.running[0] in s.running;
    if |s.running| > 1 {
      assert s.running[1] in s.running;
    }
  }

  /** The sum register now stands for the file's completed bytes and the finished chunk. */
  lemma {:induction false} IsrSums(s: State)
    requires SumInv(s.files, s.running, s.buffers) && Enabled(s, DecWrite) && HeadDone(s)
    ensures var s' := NextDecWrite(s); SumInv(s'.files, s'.running, s'.buffers)
  {
    var s' := NextDecWrite(s);
    var head := s.buffers[s.running[0]];
    FeedAppend(1, s.files[head.ctx.value].completed, head.data);
    forall f | f in s.files
      ensures s'.files[f].submitted == s'.files[f].completed + Bytes(s'.running, s'.buffers, f)
    {
      Frame(s.running[1..], s.buffers, s'.buffers, f);
      Assoc(s.files[f].completed, Piece(head, f), Bytes(s.running[1..], s.buffers, f));
      assert s'.files[f].completed == s.files[f].completed + Piece(head, f);
    }
  }

  lemma {:induction false} IsrPlaces(s: State)
    requires Core(s) && Enabled(s, DecWrite) && HeadDone(s)
    ensures var s' := NextDecWrite(s); Partitioned(s'.free, s'.running, s'.writers)
    ensures var s' := NextDecWrite(s); RunningInv(s'.running, s'.buffers, s.files.Keys)
    ensures var s' := NextDecWrite(s); WritersInv(s'.writers, s'.buffers, s.files.Keys)
  {
    hide Feed, SumInv, DeviceInv;
    var s' := NextDecWrite(s);
    assert s.running[0] in s.running;
    PlaceDone(s.free, s.running, s.writers);
    forall w | w in s.writers
      ensures WriterOk(s.writers[w], s'.buffers, s.files.Keys)
    {
      assert WriterOk(s.writers[w], s.buffers, s.files.Keys);
    }
  }

  lemma {:induction false} IsrCore(s: State)
    requires Core(s) && Enabled(s, DecWrite)
    ensures Core(NextDecWrite(s))
  {
    IsrHead(s);
    IsrSums(s);
    IsrPlaces(s);
    assert NextDecWrite(s).files.Keys == s.files.Keys;
  }

  /** Every step keeps the core, with any number of disturbed increments. */
  lemma {:induction false} NextCore(s: State, a: Action)
    requires Core(s) && Enabled(s, a) && Quiet(s, a)
    ensures Core(Next(s, a))
  {
    match a
    case Open(f) => OpenCore(s, f);
    case Release(f) => ReleaseCore(s, f);
    case BeginWrite(w, f, bytes) => WriterCore(s, w, Writing(f, bytes));
    case EndWrite(w) => WriterCore(s, w, Idle);
    case Take(w) => TakeCore(s, w);
    case CopyFails(w) => CopyFailsCore(s, w);
    case Copy(w) => CopyCore(s, w);
    case IncRead(w) =>
      assert WriterOk(s.writers[w], s.buffers, s.files.Keys);
      WriterCore(s, w, Next(s, a).writers[w]);
    case IncWrite(w) => IncWriteCore(s, w);
    case Submit(w) => SubmitCore(s, w);
    case DeviceDone => DeviceDoneCore(s);
    case DecRead => IsrHead(s);
    case DecWrite => IsrCore(s);
  }

  // ---------------------------------------------------------------- the pending count of one file

  /** The increment keeps the count exact if and only if nobody changed it between its read and its write. */
  lemma {:induction false} IncWriteExact(s: State, w: WriterId)
    requires Enabled(s, IncWrite(w)) && ExactFor(s, s.writers[w].file)
    ensures ExactFor(Next(s, IncWrite(w)), s.writers[w].file) <==> Undisturbed(s, IncWrite(w))
  {
    CountedAfter(s.writers, w, Next(s, IncWrite(w)).writers[w], s.writers[w].file);
  }

  lemma {:induction false} SubmitExact(s: State, w: WriterId, f: FileId)
    requires Core(s) && Enabled(s, Submit(w)) && ExactFor(s, f)
    ensures ExactFor(NextSubmit(s, w), f)
  {
    var s' := NextSubmit(s, w);
    assert WriterOk(s.writers[w], s.buffers, s.files.Keys);
    CountSnoc(s.running, s.writers[w].buf, s.buffers, f);
    CountedAfter(s.writers, w, s'.writers[w], f);
  }

  /** The decrement keeps the count exact if and only if nobody changed it between its read and its write. */
  lemma {:induction false} DecWriteExact(s: State, f: FileId)
    requires Core(s) && Enabled(s, DecWrite) && ExactFor(s, f)
    ensures f in s.files ==> (ExactFor(NextDecWrite(s), f) <==> HeadFile(s) != Some(f) || Undisturbed(s, DecWrite))
  {
    hide Core;
    IsrHead(s);
    Frame(s.running[1..], s.buffers, NextDecWrite(s).buffers, f);
  }

  lemma {:induction false} OpenExact(s: State, f: FileId, g: FileId)
    requires Core(s) && Enabled(s, Open(f)) && ExactFor(s, g)
    ensures ExactFor(Next(s, Open(f)), g)
  {
    if f == g {
      NoBuffers(s.running, s.buffers, f, s.files.Keys);
      assert CountedFor(s.writers, f) == {};
    }
  }

  /** The increment or decrement `a` finds the count as it read it: nobody else came in between. */
  predicate Undisturbed(s: State, a: Action)
    requires Enabled(s, a)
  {
    && (a.IncWrite? ==> s.writers[a.w].seen == s.files[s.writers[a.w].file].pending)
    && (a.DecWrite? && HeadFile(s).Some? && HeadFile(s).value in s.files ==>
        s.handler.value == s.files[HeadFile(s).value].pending)
  }

  /** An increment or decrement on another file does not matter to `f`. */
  predicate UndisturbedOn(s: State, a: Action, f: FileId)
    requires Enabled(s, a)
  {
    (a.IncWrite? && s.writers[a.w].file == f) || (a.DecWrite? && HeadFile(s) == Some(f)) ==> Undisturbed(s, a)
  }

  /** A writer's step that neither counts nor submits. */
  lemma {:induction false} WriterExact(s: State, s': State, w: WriterId, f: FileId)
    requires ExactFor(s, f) && w in s.writers && w in s'.writers && s'.writers == s.writers[w := s'.writers[w]]
    requires !s.writers[w].Counted? && !s'.writers[w].Counted? && s'.files == s.files && s'.running == s.running
    requires forall b :: b in s.running ==> s.buffers[b] == s'.buffers[b]
    ensures ExactFor(s', f)
  {
    CountedAfter(s.writers, w, s'.writers[w], f);
    Frame(s.running, s.buffers, s'.buffers, f);
  }

  predicate ByWriter(a: Action) {
    !a.Open? && !a.Release? && !a.DeviceDone? && !a.DecRead? && !a.DecWrite?
  }

  lemma {:induction false} WriterStepExact(s: State, a: Action, f: FileId)
    requires Core(s) && Enabled(s, a) && ExactFor(s, f) && ByWriter(a) && !a.IncWrite? && !a.Submit?
    ensures ExactFor(Next(s, a), f)
  {
    hide ExactFor;
    WriterExact(s, Next(s, a), a.w, f);
  }

  lemma {:induction false} IncWriteKeeps(s: State, w: WriterId, f: FileId)
    requires Enabled(s, IncWrite(w)) && ExactFor(s, f) && UndisturbedOn(s, IncWrite(w), f)
    ensures ExactFor(Next(s, IncWrite(w)), f)
  {
    CountedAfter(s.writers, w, Next(s, IncWrite(w)).writers[w], f);
  }

  lemma {:induction false} NextExact(s: State, a: Action, f: FileId)
    requires Core(s) && Enabled(s, a) && ExactFor(s, f) && UndisturbedOn(s, a, f)
    ensures ExactFor(Next(s, a), f)
  {
    hide Core, NextSubmit, NextDecWrite;
    match a
    case Open(g) => OpenExact(s, g, f);
    case Release(_) =>
    case IncWrite(w) => IncWriteKeeps(s, w, f);
    case Submit(w) => SubmitExact(s, w, f);
    case DeviceDone =>
    case DecRead =>
    case DecWrite => StillOpen(s, f); DecWriteExact(s, f);
    case _ => WriterStepExact(s, a, f);
  }

  lemma {:induction false} StillOpen(s: State, f: FileId)
    requires Core(s) && Enabled(s, DecWrite)
    ensures f in NextDecWrite(s).files <==> f in s.files
  {
  }

  /** A file whose count is exact is released only when it has no running buffers. */
  lemma {:induction false} ExactIsQuiet(s: State, a: Action)
    requires Enabled(s, a) && (a.Release? ==> ExactFor(s, a.f))
    ensures Quiet(s, a)
  {
  }

  // ---------------------------------------------------------------- the theorems

  ghost predicate IsRun(states: seq<State>, acts: seq<Action>) {
    && |states| == |acts| + 1
    && (exists writers :: states[0] == Init(writers))
    && forall i :: 0 <= i < |acts| ==> Enabled(states[i], acts[i]) && states[i + 1] == Next(states[i], acts[i])
  }

  ghost predicate RaceFree(states: seq<State>, acts: seq<Action>)
    requires IsRun(states, acts)
  {
    forall i :: 0 <= i < |acts| ==> Undisturbed(states[i], acts[i])
  }

  /** Up to state `n` no file is released while it has running buffers. */
  ghost predicate QuietUpTo(states: seq<State>, acts: seq<Action>, n: nat) {
    forall i :: 0 <= i < n && i < |acts| && i < |states| ==> Quiet(states[i], acts[i])
  }

  lemma {:induction false} InitCore(writers: set<WriterId>)
    ensures Core(Init(writers)) && Exact(Init(writers))
  {
    var s := Init(writers);
    forall b: BufId
      ensures b in s.free
    {
      assert s.free[b] == b;
    }
  }

  /** The core holds in every run without an early release, however the increments race. */
  lemma {:induction false} RunCore(states: seq<State>, acts: seq<Action>, i: nat)
    requires IsRun(states, acts) && i < |states| && QuietUpTo(states, acts, i)
    ensures Core(states[i])
  {
    if i == 0 {
      var writers :| states[0] == Init(writers);
      InitCore(writers);
    } else {
      RunCore(states, acts, i - 1);
      NextCore(states[i - 1], acts[i - 1]);
    }
  }

  /** Until an increment or decrement on `f` is disturbed the count of `f` is exact. */
  lemma {:induction false} RunExact(states: seq<State>, acts: seq<Action>, i: nat, f: FileId)
    requires IsRun(states, acts) && i < |states| && QuietUpTo(states, acts, i)
    requires forall j :: 0 <= j < i ==> UndisturbedOn(states[j], acts[j], f)
    ensures ExactFor(states[i], f)
  {
    if i > 0 {
      RunExact(states, acts, i - 1, f);
      RunCore(states, acts, i - 1);
      NextExact(states[i - 1], acts[i - 1], f);
    }
  }

  /** At any time a file's sum is the checksum of its completed bytes; the rest of what was submitted is running. */
  lemma {:induction false} SumOfCompleted(states: seq<State>, acts: seq<Action>, i: nat, f: FileId)
    requires IsRun(states, acts) && i < |states| && QuietUpTo(states, acts, i) && f in states[i].files
    ensures states[i].files[f].sum == Checksum(states[i].files[f].completed)
    ensures states[i].files[f].submitted ==
            states[i].files[f].completed + Bytes(states[i].running, states[i].buffers, f)
  {
    RunCore(states, acts, i);
    FeedIsChecksum(states[i].files[f].completed);
  }

  /** No buffer is lost or used twice, the device works on the head of the list, and BUG_ON never fires. */
  lemma {:induction false} BuffersConserved(states: seq<State>, acts: seq<Action>, i: nat)
    requires IsRun(states, acts) && i < |states| && QuietUpTo(states, acts, i)
    ensures Partitioned(states[i].free, states[i].running, states[i].writers)
    ensures !states[i].bug && (states[i].dev.intr ==> states[i].running != [])
    ensures states[i].running == [] <==> states[i].dev.size == 0 && !states[i].dev.intr
    ensures states[i].dev.size > 0 ==> states[i].dev.ptr == states[i].running[0]
  {
    RunCore(states, acts, i);
    var s := states[i];
    if s.running != [] {
      assert s.running[0] in s.running;
    }
  }

  /** A buffer that is free, or taken and not yet filled, belongs to no file; no buffer holds more than a page. */
  predicate BuffersInv(s: State) {
    && (forall b :: b in s.free ==> s.buffers[b].ctx.None?)
    && (forall w :: w in s.writers && s.writers[w].Holding? ==> s.buffers[s.writers[w].buf].ctx.None?)
    && (forall b: BufId :: |s.buffers[b].data| <= PAGE_SIZE)
  }

  lemma {:induction false} NextBuffers(s: State, a: Action)
    requires Core(s) && BuffersInv(s) && Enabled(s, a)
    ensures BuffersInv(Next(s, a))
  {
    hide Feed, SumInv, DeviceInv, RunningInv, WritersInv;
    if a.DecWrite? {
      IsrHead(s);
      BuffersDone(s);
    } else if a.Copy? {
      BuffersCopied(s, a.w);
    } else {
      hide Core;
      BuffersSame(s, a);
    }
  }

  lemma {:induction false} BuffersCopied(s: State, w: WriterId)
    requires HeldApart(s.free, s.running, s.writers) && BuffersInv(s) && Enabled(s, Copy(w))
    ensures BuffersInv(Next(s, Copy(w)))
  {
    assert Has(s.writers[w]);
  }

  lemma {:induction false} BuffersSame(s: State, a: Action)
    requires BuffersInv(s) && Enabled(s, a) && !a.DecWrite? && !a.Copy?
    ensures BuffersInv(Next(s, a))
  {
    hide Feed;
  }

  lemma {:induction false} BuffersDone(s: State)
    requires HeadDone(s) && BuffersInv(s) && Enabled(s, DecWrite)
    ensures BuffersInv(NextDecWrite(s))
  {
    hide Feed, StartDevice;
  }

  /**
   What a buffer holds in a run: never more than the page that was allocated for it, and no
   file once it is back in the free list or as long as its writer has not filled it.
   */
  lemma {:induction false} BuffersHold(states: seq<State>, acts: seq<Action>, i: nat)
    requires IsRun(states, acts) && i < |states| && QuietUpTo(states, acts, i)
    ensures BuffersInv(states[i])
  {
    if i > 0 {
      hide Core, Enabled, Next, BuffersInv;
      BuffersHold(states, acts, i - 1);
      RunCore(states, acts, i - 1);
      NextBuffers(states[i - 1], acts[i - 1]);
    }
  }

  /** The buffer's file was closed, or it has none. */
  predicate Orphan(s: State, b: BufId) {
    s.buffers[b].ctx.None? || s.buffers[b].ctx.value !in s.files
  }

  /** The interrupt handler trips exactly on an empty list and on an orphan, at the head or next after it. */
  lemma {:induction false} TripsOnOrphans(s: State, a: Action)
    requires Enabled(s, a) && Distinct(s.running)
    ensures Next(s, a).bug <==>
            || s.bug
            || ((a.DecRead? || a.DecWrite?) && (s.running == [] || Orphan(s, s.running[0])))
            || (a.DecWrite? && |s.running| > 1 && Orphan(s, s.running[1]))
  {
    hide Feed;
  }

  /** In every state every running buffer belongs to an open file. */
  ghost predicate NoOrphans(states: seq<State>) {
    forall i :: 0 <= i < |states| ==> RunningInv(states[i].running, states[i].buffers, states[i].files.Keys)
  }

  lemma {:induction false} SomeBuffer(running: seq<BufId>, buffers: Buffers, f: FileId) returns (b: BufId)
    requires Count(running, buffers, f) > 0
    ensures b in running && buffers[b].ctx == Some(f)
  {
    if buffers[running[0]].ctx == Some(f) {
      b := running[0];
    } else {
      b := SomeBuffer(running[1..], buffers, f);
    }
  }

  /** Running buffers keep their files if and only if no file is released too early. */
  lemma {:induction false} QuietIffNoOrphans(states: seq<State>, acts: seq<Action>)
    requires IsRun(states, acts)
    ensures QuietUpTo(states, acts, |acts|) <==> NoOrphans(states)
  {
    if QuietUpTo(states, acts, |acts|) {
      forall i | 0 <= i < |states|
        ensures RunningInv(states[i].running, states[i].buffers, states[i].files.Keys)
      {
        RunCore(states, acts, i);
      }
    } else {
      var i :| 0 <= i < |acts| && !Quiet(states[i], acts[i]);
      var b := SomeBuffer(states[i].running, states[i].buffers, acts[i].f);
      assert b in states[i + 1].running && states[i + 1].buffers[b].ctx == Some(acts[i].f);
      assert acts[i].f !in states[i + 1].files;
    }
  }

  /** As long as nothing is disturbed the counts are exact, and no file is released too early. */
  lemma {:induction false} RunInv(states: seq<State>, acts: seq<Action>, i: nat)
    requires IsRun(states, acts) && i < |states|
    requires forall j :: 0 <= j < i ==> Undisturbed(states[j], acts[j])
    ensures Core(states[i]) && Exact(states[i]) && QuietUpTo(states, acts, i)
  {
    if i == 0 {
      RunCore(states, acts, 0);
      var writers :| states[0] == Init(writers);
      InitCore(writers);
    } else {
      RunInv(states, acts, i - 1);
      var s, a := states[i - 1], acts[i - 1];
      ExactIsQuiet(s, a);
      NextCore(s, a);
      forall f | f in states[i].files
        ensures ExactFor(states[i], f)
      {
        NextExact(s, a, f);
      }
    }
  }

  ghost predicate AlwaysExact(states: seq<State>) {
    forall i :: 0 <= i < |states| ==> Exact(states[i])
  }

  lemma {:induction false} StepShows(s: State, a: Action)
    requires Core(s) && Exact(s) && Enabled(s, a) && !Undisturbed(s, a)
    ensures !Exact(Next(s, a))
  {
    if a.IncWrite? {
      IncWriteExact(s, a.w);
      assert !ExactFor(Next(s, a), s.writers[a.w].file);
    } else {
      var f := HeadFile(s).value;
      DecWriteExact(s, f);
      StillOpen(s, f);
      assert !ExactFor(Next(s, a), f);
    }
  }

  /** A disturbed increment or decrement leaves some state in which a pending count is wrong. */
  lemma {:induction false} RaceShows(states: seq<State>, acts: seq<Action>, k: nat)
    requires IsRun(states, acts) && k < |acts| && !Undisturbed(states[k], acts[k])
    ensures !AlwaysExact(states)
  {
    hide Core, Exact, Enabled, Next, Undisturbed;
    if j :| 0 <= j < k && !Undisturbed(states[j], acts[j]) {
      RaceShows(states, acts, j);
    } else {
      RunInv(states, acts, k);
      StepShows(states[k], acts[k]);
      assert !Exact(states[k + 1]);
    }
  }

  /**
   Exactly when the pending counts can be trusted: they are right in every state of a run if
   and only if no increment and no decrement was disturbed between its read and its write.
   */
  lemma {:induction false} ExactIffRaceFree(states: seq<State>, acts: seq<Action>)
    requires IsRun(states, acts)
    ensures AlwaysExact(states) <==> RaceFree(states, acts)
  {
    if RaceFree(states, acts) {
      forall i | 0 <= i < |states|
        ensures Exact(states[i])
      {
        RunInv(states, acts, i);
      }
    } else {
      var k :| 0 <= k < |acts| && !Undisturbed(states[k], acts[k]);
      RaceShows(states, acts, k);
    }
  }

  // ---------------------------------------------------------------- what users write

  /** The bytes that writer `w` passed to its last call of `write`. */
  function Passed(acts: seq<Action>, w: WriterId): seq<byte> {
    if acts == [] then []
    else
      var a := acts[|acts| - 1];
      if a.BeginWrite? && a.w == w then a.bytes else Passed(acts[..|acts| - 1], w)
  }

  /** The data that writer `w` has handed to the device since then: what its submitted buffers hold. */
  function Handed(states: seq<State>, acts: seq<Action>, w: WriterId): seq<byte>
    requires |acts| <= |states|
    decreases |acts|
  {
    if acts == [] then []
    else
      var n := |acts| - 1;
      HandedBy(states[n], acts[n], w, Handed(states, acts[..n], w))
  }

  lemma {:induction false} ChunkSplits(rest: seq<byte>)
    ensures Chunk(rest) + rest[|Chunk(rest)|..] == rest
  {
  }

  /** What step `a` in state `s` makes of what a writer has handed over. */
  function HandedBy(s: State, a: Action, w: WriterId, handed: seq<byte>): seq<byte> {
    if a.BeginWrite? && a.w == w then []
    else if a == Submit(w) && w in s.writers && Has(s.writers[w]) then handed + s.buffers[s.writers[w].buf].data
    else handed
  }

  /** A step keeps what a writer has handed over together with what it has left. */
  lemma {:induction false} RestKept(s: State, a: Action, w: WriterId, handed: seq<byte>, passed: seq<byte>)
    requires Core(s) && Enabled(s, a) && w in s.writers
    requires !s.writers[w].Idle? ==> handed + s.writers[w].rest == passed
    ensures w in Next(s, a).writers && !Next(s, a).writers[w].Idle? ==>
      HandedBy(s, a, w, handed) + Next(s, a).writers[w].rest == if a.BeginWrite? && a.w == w then a.bytes else passed
  {
    assert WriterOk(s.writers[w], s.buffers, s.files.Keys);
    hide Core;
    if a == Submit(w) {
      var me := s.writers[w];
      var chunk, more := Chunk(me.rest), me.rest[|Chunk(me.rest)|..];
      ChunkSplits(me.rest);
      Assoc(handed, chunk, more);
    } else if a.BeginWrite? && a.w == w {
      assert [] + a.bytes == a.bytes;
    } else {
      RestSame(s, a, w);
    }
  }

  lemma {:induction false} RestSame(s: State, a: Action, w: WriterId)
    requires Enabled(s, a) && w in s.writers && !(a.BeginWrite? && a.w == w) && a != Submit(w)
    ensures w in Next(s, a).writers
    ensures var v := Next(s, a).writers[w]; !v.Idle? ==> !s.writers[w].Idle? && v.rest == s.writers[w].rest
  {
  }

  lemma {:induction false} StillThere(s: State, a: Action, w: WriterId)
    requires Enabled(s, a)
    ensures w in Next(s, a).writers <==> w in s.writers
  {
  }

  /**
   No byte of a write is lost, repeated or moved: at any time what it has handed to the device, followed by
   what it has left, is what the user passed.  When nothing is left, all of it has been handed over.
   */
  lemma {:induction false} WriteKept(states: seq<State>, acts: seq<Action>, i: nat, w: WriterId)
    requires IsRun(states, acts) && i < |states| && QuietUpTo(states, acts, i) && w in states[i].writers
    ensures !states[i].writers[w].Idle? ==>
      Handed(states, acts[..i], w) + states[i].writers[w].rest == Passed(acts[..i], w)
  {
    hide Core, Enabled, Next, HandedBy;
    if i == 0 {
      InitIdle(states[0], w);
    } else {
      var s, a := states[i - 1], acts[i - 1];
      RunCore(states, acts, i - 1);
      StillThere(s, a, w);
      WriteKept(states, acts, i - 1, w);
      assert acts[..i][..i - 1] == acts[..i - 1];
      RestKept(s, a, w, Handed(states, acts[..i - 1], w), Passed(acts[..i - 1], w));
    }
  }

  /** A write goes out in whole pages, except for its last buffer. */
  lemma {:induction false} WholePages(states: seq<State>, acts: seq<Action>, i: nat, w: WriterId)
    requires IsRun(states, acts) && i < |states| && QuietUpTo(states, acts, i) && w in states[i].writers
    ensures !states[i].writers[w].Idle? && states[i].writers[w].rest != [] ==>
      |Handed(states, acts[..i], w)| % PAGE_SIZE == 0
  {
    hide Core, Enabled, Next, HandedBy;
    if i == 0 {
      InitIdle(states[0], w);
    } else {
      var s, a := states[i - 1], acts[i - 1];
      RunCore(states, acts, i - 1);
      StillThere(s, a, w);
      CoreWriter(s, w);
      WholePages(states, acts, i - 1, w);
      assert acts[..i][..i - 1] == acts[..i - 1];
      PageStep(s, a, w, Handed(states, acts[..i - 1], w));
    }
  }

  lemma {:induction false} CoreWriter(s: State, w: WriterId)
    requires Core(s) && w in s.writers
    ensures WriterOk(s.writers[w], s.buffers, s.files.Keys)
  {
  }

  lemma {:induction false} PageStep(s: State, a: Action, w: WriterId, handed: seq<byte>)
    requires Enabled(s, a) && w in s.writers && WriterOk(s.writers[w], s.buffers, s.files.Keys)
    requires !s.writers[w].Idle? && s.writers[w].rest != [] ==> |handed| % PAGE_SIZE == 0
    ensures w in Next(s, a).writers && !Next(s, a).writers[w].Idle? && Next(s, a).writers[w].rest != [] ==>
      |HandedBy(s, a, w, handed)| % PAGE_SIZE == 0
  {
    hide Feed, NextSubmit, NextDecRead, NextDecWrite, StartDevice, Chunk;
    if a == Submit(w) {
      hide HandedBy, WriterOk, Enabled;
      SubmitPage(s, w, handed);
    } else if a.BeginWrite? && a.w == w {
      hide Enabled, Next;
    } else {
      RestSame(s, a, w);
      hide Enabled, Next;
    }
  }

  lemma {:induction false} SubmitPage(s: State, w: WriterId, handed: seq<byte>)
    requires Enabled(s, Submit(w)) && WriterOk(s.writers[w], s.buffers, s.files.Keys) && |handed| % PAGE_SIZE == 0
    ensures NextSubmit(s, w).writers[w].rest != [] ==> |HandedBy(s, Submit(w), w, handed)| % PAGE_SIZE == 0
  {
    hide Chunk, StartDevice;
    PageLeft(s.writers[w].rest);
    ModSum(|handed|, |Chunk(s.writers[w].rest)|);
  }

  lemma {:induction false} PageLeft(rest: seq<byte>)
    ensures rest[|Chunk(rest)|..] != [] ==> |Chunk(rest)| == PAGE_SIZE
  {
  }

  lemma {:induction false} ModSum(m: nat, n: nat)
    ensures m % PAGE_SIZE == 0 && n == PAGE_SIZE ==> (m + n) % PAGE_SIZE == 0
  {
  }

  lemma {:induction false} InitIdle(s: State, w: WriterId)
    requires exists writers :: s == Init(writers)
    ensures w in s.writers ==> s.writers[w].Idle?
  {
  }

  /** The data handed to the device for file `f` since it was opened, in the order of submission. */
  function HandedTo(states: seq<State>, acts: seq<Action>, f: FileId): seq<byte>
    requires |acts| <= |states|
    decreases |acts|
  {
    if acts == [] then []
    else
      var n := |acts| - 1;
      SentBy(states[n], acts[n], f, HandedTo(states, acts[..n], f))
  }

  function SentBy(s: State, a: Action, f: FileId, sent: seq<byte>): seq<byte> {
    if a == Open(f) then []
    else if a.Submit? && a.w in s.writers && Has(s.writers[a.w]) && s.writers[a.w].file == f
    then sent + s.buffers[s.writers[a.w].buf].data
    else sent
  }

  lemma {:induction false} SubmittedStep(s: State, a: Action, f: FileId)
    requires Core(s) && Enabled(s, a) && f in Next(s, a).files
    ensures if f in s.files then Next(s, a).files[f].submitted == SentBy(s, a, f, s.files[f].submitted)
            else a == Open(f) && Next(s, a).files[f].submitted == []
  {
    hide Core, Feed, NextDecWrite;
    if a.DecWrite? {
      DecKeeps(s);
    }
  }

  /** The handler changes no writer and no submitted byte. */
  lemma {:induction false} DecKeeps(s: State)
    requires Core(s) && Enabled(s, DecWrite)
    ensures var s' := NextDecWrite(s);
            && s'.writers == s.writers && s'.files.Keys == s.files.Keys
            && forall f :: f in s.files ==> s'.files[f].submitted == s.files[f].submitted
  {
    IsrHead(s);
    hide Core, Feed, StartDevice;
  }

  lemma {:induction false} SubmittedIs(states: seq<State>, acts: seq<Action>, i: nat, f: FileId)
    requires IsRun(states, acts) && i < |states| && QuietUpTo(states, acts, i)
    ensures f in states[i].files ==> states[i].files[f].submitted == HandedTo(states, acts[..i], f)
  {
    hide Core, Enabled, Next, SentBy;
    if i == 0 {
      InitEmpty(states[0], f);
    } else {
      var s, a := states[i - 1], acts[i - 1];
      RunCore(states, acts, i - 1);
      SubmittedIs(states, acts, i - 1, f);
      assert acts[..i][..i - 1] == acts[..i - 1];
      if f in states[i].files {
        SubmittedStep(s, a, f);
        OpenSends(s, f, HandedTo(states, acts[..i - 1], f));
      }
    }
  }

  lemma {:induction false} OpenSends(s: State, f: FileId, sent: seq<byte>)
    ensures SentBy(s, Open(f), f, sent) == []
  {
  }

  lemma {:induction false} InitEmpty(s: State, f: FileId)
    requires exists writers :: s == Init(writers)
    ensures f !in s.files
  {
  }

  /** The bytes of all writes begun on file `f` since it was opened, in order. */
  function WrittenTo(acts: seq<Action>, f: FileId): seq<byte> {
    if acts == [] then []
    else
      var a := acts[|acts| - 1];
      AskedBy(a, f, WrittenTo(acts[..|acts| - 1], f))
  }

  function AskedBy(a: Action, f: FileId, before: seq<byte>): seq<byte> {
    if a == Open(f) then [] else if a.BeginWrite? && a.f == f then before + a.bytes else before
  }

  /** Nobody else writes to `f`. */
  predicate Alone(writers: map<WriterId, Writer>, w: WriterId, f: FileId) {
    forall v :: v in writers && v != w && !writers[v].Idle? ==> writers[v].file != f
  }

  /** On `f` one write follows the other, none fails and none is interrupted. */
  predicate Tidy(s: State, a: Action, f: FileId)
    requires Enabled(s, a)
  {
    && (a.BeginWrite? && a.f == f ==> Alone(s.writers, a.w, f))
    && (a.CopyFails? ==> s.writers[a.w].file != f)
    && (a.EndWrite? ==> s.writers[a.w].file != f || s.writers[a.w].rest == [])
  }

  /** The bytes submitted on `f`, and those that its writer has left, are `asked`. */
  ghost predicate Reconciled(s: State, f: FileId, asked: seq<byte>) {
    f in s.files ==>
      && (forall w :: w in s.writers && !s.writers[w].Idle? && s.writers[w].file == f ==>
            Alone(s.writers, w, f) && s.files[f].submitted + s.writers[w].rest == asked)
      && ((forall w :: w in s.writers && !s.writers[w].Idle? ==> s.writers[w].file != f) ==>
            s.files[f].submitted == asked)
  }

  lemma {:induction false} ReconciledOpen(s: State, f: FileId, asked: seq<byte>)
    requires Core(s) && Enabled(s, Open(f))
    ensures Reconciled(Next(s, Open(f)), f, [])
  {
    forall w | w in s.writers && !s.writers[w].Idle?
      ensures s.writers[w].file != f
    {
      assert WriterOk(s.writers[w], s.buffers, s.files.Keys);
    }
  }

  /** A step that changes neither the submitted bytes of `f` nor which writer has what left on `f`. */
  lemma {:induction false} ReconciledSame(s: State, s': State, f: FileId, asked: seq<byte>)
    requires Reconciled(s, f, asked) && s'.writers.Keys == s.writers.Keys
    requires f in s'.files ==> f in s.files && s'.files[f].submitted == s.files[f].submitted
    requires forall w :: w in s.writers ==>
      var v, v' := s.writers[w], s'.writers[w];
      v' == v || (!v.Idle? && !v'.Idle? && v'.file == v.file && v'.rest == v.rest)
        || ((v.Idle? || v.file != f) && (v'.Idle? || v'.file != f))
    ensures Reconciled(s', f, asked)
  {
  }

  lemma {:induction false} ReconciledBegin(s: State, w: WriterId, f: FileId, bytes: seq<byte>, asked: seq<byte>)
    requires Enabled(s, BeginWrite(w, f, bytes)) && Reconciled(s, f, asked) && Alone(s.writers, w, f)
    ensures Reconciled(Next(s, BeginWrite(w, f, bytes)), f, asked + bytes)
  {
    assert Next(s, BeginWrite(w, f, bytes)).writers[w] == Writing(f, bytes);
  }

  lemma {:induction false} ReconciledEnd(s: State, w: WriterId, f: FileId, asked: seq<byte>)
    requires Enabled(s, EndWrite(w)) && s.writers[w].file == f && s.writers[w].rest == [] && Reconciled(s, f, asked)
    ensures Reconciled(Next(s, EndWrite(w)), f, asked)
  {
    if f in s.files {
      assert s.files[f].submitted + [] == s.files[f].submitted;
    }
  }

  lemma {:induction false} ReconciledSubmit(s: State, w: WriterId, f: FileId, asked: seq<byte>)
    requires Core(s) && Enabled(s, Submit(w)) && s.writers[w].file == f && Reconciled(s, f, asked)
    ensures Reconciled(NextSubmit(s, w), f, asked)
  {
    var me := s.writers[w];
    assert WriterOk(me, s.buffers, s.files.Keys);
    hide Core;
    ChunkSplits(me.rest);
    Assoc(s.files[f].submitted, Chunk(me.rest), me.rest[|Chunk(me.rest)|..]);
    var s' := NextSubmit(s, w);
    assert s'.writers[w] == Writing(f, me.rest[|Chunk(me.rest)|..]);
    assert s'.files[f].submitted == s.files[f].submitted + Chunk(me.rest);
  }

  lemma {:induction false} NextReconciled(s: State, a: Action, f: FileId, asked: seq<byte>)
    requires Core(s) && Enabled(s, a) && Tidy(s, a, f) && Reconciled(s, f, asked)
    ensures Reconciled(Next(s, a), f, AskedBy(a, f, asked))
  {
    if a == Open(f) {
      ReconciledOpen(s, f, asked);
    } else if a.BeginWrite? && a.f == f {
      ReconciledBegin(s, a.w, f, a.bytes, asked);
    } else if a.EndWrite? && s.writers[a.w].file == f {
      ReconciledEnd(s, a.w, f, asked);
    } else if a.Submit? && s.writers[a.w].file == f {
      ReconciledSubmit(s, a.w, f, asked);
    } else {
      Elsewise(s, a, f);
      hide Reconciled, Next;
      ReconciledSame(s, Next(s, a), f, asked);
    }
  }

  lemma {:induction false} Elsewise(s: State, a: Action, f: FileId)
    requires Core(s) && Enabled(s, a) && Tidy(s, a, f) && a != Open(f) && !(a.BeginWrite? && a.f == f)
    requires (a.EndWrite? || a.Submit?) ==> s.writers[a.w].file != f
    ensures var s' := Next(s, a);
            && s'.writers.Keys == s.writers.Keys
            && (f in s'.files ==> f in s.files && s'.files[f].submitted == s.files[f].submitted)
            && forall w :: w in s.writers ==>
                 var v, v' := s.writers[w], s'.writers[w];
                 v' == v || (!v.Idle? && !v'.Idle? && v'.file == v.file && v'.rest == v.rest)
                   || ((v.Idle? || v.file != f) && (v'.Idle? || v'.file != f))
  {
    hide Core, Feed, NextDecWrite, StartDevice, Chunk;
    if a.DecWrite? {
      DecKeeps(s);
    }
  }

  /** On a file with one write at a time, none failing, what was submitted is what was written so far. */
  lemma {:induction false} FileKept(states: seq<State>, acts: seq<Action>, i: nat, f: FileId)
    requires IsRun(states, acts) && i < |states| && QuietUpTo(states, acts, i)
    requires forall j :: 0 <= j < i ==> Tidy(states[j], acts[j], f)
    ensures Reconciled(states[i], f, WrittenTo(acts[..i], f))
  {
    hide Core, Enabled, Next, Reconciled, Tidy, AskedBy;
    if i == 0 {
      InitEmpty(states[0], f);
      NotOpen(states[0], f);
    } else {
      RunCore(states, acts, i - 1);
      FileKept(states, acts, i - 1, f);
      assert acts[..i][..i - 1] == acts[..i - 1];
      NextReconciled(states[i - 1], acts[i - 1], f, WrittenTo(acts[..i - 1], f));
    }
  }

  lemma {:induction false} NotOpen(s: State, f: FileId)
    requires f !in s.files
    ensures Reconciled(s, f, [])
  {
  }

  /**
   A read that sees no pending buffers, with the lock, returns the Adler-32 checksum of all data that was
   handed to the device for its file, in order.  Only increments and decrements on this file, before the
   read, need be undisturbed.
   */
  lemma {:induction false} ReadReturnsChecksum(states: seq<State>, acts: seq<Action>, i: nat, f: FileId)
    requires IsRun(states, acts) && i < |states| && QuietUpTo(states, acts, i)
    requires forall j :: 0 <= j < i ==> UndisturbedOn(states[j], acts[j], f)
    requires f in states[i].files && states[i].files[f].pending == 0 && states[i].handler.None?
    ensures states[i].files[f].sum == Checksum(HandedTo(states, acts[..i], f))
  {
    RunCore(states, acts, i);
    RunExact(states, acts, i, f);
    SubmittedIs(states, acts, i, f);
    hide IsRun;
    var s := states[i];
    assert Count(s.running, s.buffers, f) == 0;
    CountZero(s.running, s.buffers, f);
    assert s.files[f].submitted == s.files[f].completed;
    FeedIsChecksum(s.files[f].submitted);
  }

  /**
   On a file with one write at a time, none failing, such a read between writes returns the checksum of
   everything that was written to the file since it was opened.
   */
  lemma {:induction false} ReadReturnsWritten(states: seq<State>, acts: seq<Action>, i: nat, f: FileId)
    requires IsRun(states, acts) && i < |states| && QuietUpTo(states, acts, i)
    requires forall j :: 0 <= j < i ==> UndisturbedOn(states[j], acts[j], f) && Tidy(states[j], acts[j], f)
    requires f in states[i].files && states[i].files[f].pending == 0 && states[i].handler.None?
    requires forall w :: w in states[i].writers && !states[i].writers[w].Idle? ==> states[i].writers[w].file != f
    ensures states[i].files[f].sum == Checksum(WrittenTo(acts[..i], f))
  {
    ReadReturnsChecksum(states, acts, i, f);
    SubmittedIs(states, acts, i, f);
    FileKept(states, acts, i, f);
  }

  // ---------------------------------------------------------------- careful use

  /**
   A careful write: nobody else writes to the file, nothing is pending on it (as a `read` waits for), and
   it fits one buffer.
   */
  predicate Careful(s: State, a: Action)
    requires Enabled(s, a)
  {
    a.BeginWrite? ==> Alone(s.writers, a.w, a.f) && s.files[a.f].pending == 0 && |a.bytes| <= PAGE_SIZE
  }

  /** Before its increment a writer is alone on its file and sees no pending buffer; afterwards it is done. */
  predicate Solo(s: State, w: WriterId)
    requires w in s.writers
  {
    var me := s.writers[w];
    !me.Idle? ==>
      && me.file in s.files && Alone(s.writers, w, me.file) && |me.rest| <= PAGE_SIZE
      && (me.rest != [] && !me.Counted? ==> s.files[me.file].pending == 0)
      && (me.Counting? ==> me.seen == 0)
  }

  /** The count that the handler has read is still the count. */
  predicate Fresh(s: State) {
    s.handler.Some? && HeadFile(s).Some? && HeadFile(s).value in s.files ==>
      s.handler.value == s.files[HeadFile(s).value].pending
  }

  predicate AllSolo(s: State) {
    Fresh(s) && forall w :: w in s.writers ==> Solo(s, w)
  }

  /** Nobody counts a buffer on the file whose buffer the handler has in hand. */
  lemma {:induction false} NextFresh(s: State, a: Action)
    requires Core(s) && Exact(s) && AllSolo(s) && Enabled(s, a)
    ensures Fresh(Next(s, a))
  {
    if s.handler.Some? {
      IsrHead(s);
      assert Count(s.running, s.buffers, HeadFile(s).value) > 0;
      if a.IncWrite? {
        assert Solo(s, a.w) && WriterOk(s.writers[a.w], s.buffers, s.files.Keys);
        assert ExactFor(s, HeadFile(s).value);
      }
    }
  }

  lemma {:induction false} SoloUndisturbed(s: State, a: Action)
    requires Core(s) && AllSolo(s) && Enabled(s, a)
    ensures Undisturbed(s, a)
  {
    if a.IncWrite? {
      assert Solo(s, a.w) && WriterOk(s.writers[a.w], s.buffers, s.files.Keys);
    }
  }

  /** A file with nothing pending is not the one whose buffer is finished. */
  lemma {:induction false} IsrElsewhere(s: State, f: FileId)
    requires Core(s) && Enabled(s, DecWrite) && ExactFor(s, f) && f in s.files && s.files[f].pending == 0
    ensures f in NextDecWrite(s).files && NextDecWrite(s).files[f] == s.files[f]
  {
    IsrHead(s);
  }

  /** The writer's own next step. */
  lemma {:induction false} OwnSolo(s: State, a: Action)
    requires ByWriter(a) && Enabled(s, a) && Careful(s, a)
    requires Solo(s, a.w) && WriterOk(s.writers[a.w], s.buffers, s.files.Keys)
    ensures Solo(Next(s, a), a.w)
  {
  }

  /** What a step does that belongs to another writer, or to nobody. */
  predicate Elsewhere(s: State, s': State, w: WriterId) {
    && w in s.writers && w in s'.writers && s'.writers[w] == s.writers[w]
    && (!s.writers[w].Idle? ==>
          var f := s.writers[w].file;
          && Alone(s'.writers, w, f)
          && (f in s.files ==> f in s'.files && (s.files[f].pending == 0 ==> s'.files[f].pending == 0)))
  }

  lemma {:induction false} ElsewhereSolo(s: State, s': State, w: WriterId)
    requires w in s.writers && Solo(s, w) && Elsewhere(s, s', w)
    ensures Solo(s', w)
  {
  }

  lemma {:induction false} OtherElsewhere(s: State, a: Action, w: WriterId)
    requires ByWriter(a) && Enabled(s, a) && Careful(s, a) && w in s.writers && w != a.w && Solo(s, w) && Solo(s, a.w)
    ensures Elsewhere(s, Next(s, a), w)
  {
  }

  lemma {:induction false} DeviceElsewhere(s: State, a: Action, w: WriterId)
    requires Core(s) && Exact(s) && !ByWriter(a) && Enabled(s, a) && w in s.writers && Solo(s, w)
    ensures Elsewhere(s, Next(s, a), w)
  {
    if a.DecWrite? {
      IsrKeeps(s);
      var me := s.writers[w];
      if !me.Idle? && s.files[me.file].pending == 0 {
        IsrElsewhere(s, me.file);
      }
    }
  }

  lemma {:induction false} NextSolo(s: State, a: Action, w: WriterId)
    requires Core(s) && Exact(s) && AllSolo(s) && Enabled(s, a) && Careful(s, a) && w in s.writers
    ensures w in Next(s, a).writers && Solo(Next(s, a), w)
  {
    assert Solo(s, w) && WriterOk(s.writers[w], s.buffers, s.files.Keys);
    hide Core, Exact, Elsewhere, Next, Solo, WriterOk;
    if !ByWriter(a) {
      DeviceElsewhere(s, a, w);
      StillThere(s, a, w);
      ElsewhereSolo(s, Next(s, a), w);
    } else if a.w == w {
      StillThere(s, a, w);
      OwnSolo(s, a);
    } else {
      StillThere(s, a, w);
      OtherElsewhere(s, a, w);
      ElsewhereSolo(s, Next(s, a), w);
    }
  }

  lemma {:induction false} IsrKeeps(s: State)
    requires Core(s) && Enabled(s, DecWrite)
    ensures NextDecWrite(s).writers == s.writers && NextDecWrite(s).files.Keys == s.files.Keys
  {
  }

  lemma {:induction false} RunSolo(states: seq<State>, acts: seq<Action>, i: nat)
    requires IsRun(states, acts) && i < |states|
    requires forall j :: 0 <= j < |acts| ==> Careful(states[j], acts[j])
    ensures AllSolo(states[i]) && forall j :: 0 <= j < i ==> Undisturbed(states[j], acts[j])
  {
    if i > 0 {
      RunSolo(states, acts, i - 1);
      RunInv(states, acts, i - 1);
      SoloUndisturbed(states[i - 1], acts[i - 1]);
      NextFresh(states[i - 1], acts[i - 1]);
      forall w | w in states[i].writers
        ensures Solo(states[i], w)
      {
        StillThere(states[i - 1], acts[i - 1], w);
        NextSolo(states[i - 1], acts[i - 1], w);
      }
    }
  }

  /** What a user can do: if every write is careful, no increment or decrement is ever disturbed. */
  lemma {:induction false} CarefulIsRaceFree(states: seq<State>, acts: seq<Action>)
    requires IsRun(states, acts)
    requires forall j :: 0 <= j < |acts| ==> Careful(states[j], acts[j])
    ensures RaceFree(states, acts) && AlwaysExact(states)
  {
    RunSolo(states, acts, |acts|);
    ExactIffRaceFree(states, acts);
  }

  ghost predicate RunTo(states: seq<State>, acts: seq<Action>, s: State) {
    IsRun(states, acts) && states[|acts|] == s
  }

  lemma {:induction false} Then(states: seq<State>, acts: seq<Action>, s: State, a: Action)
    returns (states': seq<State>, acts': seq<Action>)
    requires RunTo(states, acts, s) && Enabled(s, a)
    ensures RunTo(states', acts', Next(s, a)) && states' == states + [Next(s, a)] && acts' == acts + [a]
  {
    hide Enabled, Next;
    states', acts' := states + [Next(s, a)], acts + [a];
    forall i | 0 <= i < |acts'|
      ensures Enabled(states'[i], acts'[i]) && states'[i + 1] == Next(states'[i], acts'[i])
    {
      if i < |acts| {
        assert states'[i] == states[i] && acts'[i] == acts[i];
      }
    }
  }

  /** Two writers of file 0 have filled a buffer each, with one byte each. */
  predicate TwoFilled(s: State) {
    && 0 in s.files && s.files[0] == File(0, 1, [], [])
    && 0 in s.writers && s.writers[0] == Filled(0, [1], 0)
    && 1 in s.writers && s.writers[1] == Filled(0, [2], 1)
    && s.buffers[0] == Buffer(Some(0), [1]) && s.buffers[1] == Buffer(Some(0), [2])
    && s.running == [] && s.dev == Device(0, 0, 0, false) && s.handler.None?
  }

  /** Two writers have begun to write to file 0. */
  predicate TwoBegun(s: State) {
    && 0 in s.files && s.files[0] == File(0, 1, [], [])
    && 0 in s.writers && s.writers[0] == Writing(0, [1])
    && 1 in s.writers && s.writers[1] == Writing(0, [2])
    && |s.free| > 2 && s.free[0] == 0 && s.free[1] == 1
    && s.running == [] && s.dev == Device(0, 0, 0, false) && s.handler.None?
  }

  lemma {:induction false} ReachTwoBegun() returns (states: seq<State>, acts: seq<Action>, s: State)
    ensures RunTo(states, acts, s) && TwoBegun(s)
  {
    s := Init({0, 1});
    states, acts := [s], [];
    assert RunTo(states, acts, s);
    hide RunTo;
    states, acts := Then(states, acts, s, Open(0)); s := Next(s, Open(0));
    states, acts := Then(states, acts, s, BeginWrite(0, 0, [1])); s := Next(s, BeginWrite(0, 0, [1]));
    states, acts := Then(states, acts, s, BeginWrite(1, 0, [2])); s := Next(s, BeginWrite(1, 0, [2]));
  }

  lemma {:induction false} ReachTwoFilled() returns (states: seq<State>, acts: seq<Action>, s: State)
    ensures RunTo(states, acts, s) && TwoFilled(s)
  {
    hide RunTo;
    states, acts, s := ReachTwoBegun();
    states, acts := Then(states, acts, s, Take(0)); s := Next(s, Take(0));
    states, acts := Then(states, acts, s, Take(1)); s := Next(s, Take(1));
    states, acts := Then(states, acts, s, Copy(0)); s := Next(s, Copy(0));
    states, acts := Then(states, acts, s, Copy(1)); s := Next(s, Copy(1));
  }

  /** Both writers have added one to the count, but the count is one. */
  predicate OneLost(s: State) {
    && 0 in s.files && s.files[0] == File(1, 1, [], [])
    && 0 in s.writers && s.writers[0] == Counted(0, [1], 0)
    && 1 in s.writers && s.writers[1] == Counted(0, [2], 1)
    && s.buffers[0] == Buffer(Some(0), [1]) && s.buffers[1] == Buffer(Some(0), [2])
    && s.running == [] && s.dev == Device(0, 0, 0, false) && s.handler.None?
  }

  lemma {:induction false} ReachOneLost() returns (states: seq<State>, acts: seq<Action>, s: State)
    ensures RunTo(states, acts, s) && OneLost(s)
  {
    hide RunTo;
    states, acts, s := ReachTwoFilled();
    states, acts := Then(states, acts, s, IncRead(0)); s := Next(s, IncRead(0));
    states, acts := Then(states, acts, s, IncRead(1)); s := Next(s, IncRead(1));
    states, acts := Then(states, acts, s, IncWrite(0)); s := Next(s, IncWrite(0));
    states, acts := Then(states, acts, s, IncWrite(1)); s := Next(s, IncWrite(1));
  }

  lemma {:induction false} ChecksumsDiffer()
    ensures Feed(1, [1]) != Checksum([1, 2])
  {
    assert [1 as byte, 2][..1] == [1];
    assert [1 as byte][..0] == [];
    assert ByteSum([1]) == 1;
    assert S2([1]) == 2;
    assert S2([1, 2]) == 6;
    assert Feed(1, [1]) == FeedByte(1, 1);
  }

  /** Both chunks are submitted and the device works on the first one. */
  predicate BothRunning(s: State) {
    && 0 in s.files && s.files[0] == File(1, 1, [1, 2], [])
    && s.buffers[0] == Buffer(Some(0), [1]) && s.buffers[1] == Buffer(Some(0), [2])
    && s.running == [0, 1] && s.dev == Device(0, 1, 1, false) && s.handler.None?
  }

  lemma {:induction false} ReachBothRunning() returns (states: seq<State>, acts: seq<Action>, s: State)
    ensures RunTo(states, acts, s) && BothRunning(s)
  {
    hide RunTo;
    states, acts, s := ReachOneLost();
    states, acts := Then(states, acts, s, Submit(0)); s := Next(s, Submit(0));
    assert s.running == [0] && s.dev == Device(0, 1, 1, false);
    states, acts := Then(states, acts, s, Submit(1)); s := Next(s, Submit(1));
  }

  /**
   The race is real: two writers of one file read the count together, so one increment is lost,
   and after the first interrupt a read sees no pending buffer and misses the second chunk.
   */
  lemma {:induction false} LostIncrement() returns (states: seq<State>, acts: seq<Action>, s: State)
    ensures RunTo(states, acts, s) && 0 in s.files && s.handler.None?
    ensures s.files[0].pending == 0 && s.running != []
    ensures s.files[0].sum != Checksum(s.files[0].submitted)
  {
    states, acts, s := ReachBothRunning();
    assert s.buffers[0].data[..1] == [1];
    states, acts := Then(states, acts, s, DeviceDone); s := Next(s, DeviceDone);
    var sum := Feed(1, [1]);
    assert s.dev == Device(0, 0, sum, true);
    states, acts := Then(states, acts, s, DecRead); s := Next(s, DecRead);
    states, acts := Then(states, acts, s, DecWrite); s := Next(s, DecWrite);
    assert s.files[0] == File(0, sum, [1, 2], [1]);
    ChecksumsDiffer();
  }

  /** Every increment finds the count as it read it. */
  ghost predicate IncsUndisturbed(states: seq<State>, acts: seq<Action>) {
    && |states| == |acts| + 1
    && forall i :: 0 <= i < |acts| ==>
         Enabled(states[i], acts[i]) && (acts[i].IncWrite? ==> Undisturbed(states[i], acts[i]))
  }

  ghost predicate FineTo(states: seq<State>, acts: seq<Action>, s: State) {
    RunTo(states, acts, s) && IncsUndisturbed(states, acts)
  }

  lemma {:induction false} ThenFine(states: seq<State>, acts: seq<Action>, s: State, a: Action)
    returns (states': seq<State>, acts': seq<Action>)
    requires FineTo(states, acts, s) && Enabled(s, a) && (a.IncWrite? ==> Undisturbed(s, a))
    ensures FineTo(states', acts', Next(s, a))
  {
    hide Enabled, Next, Undisturbed;
    states', acts' := Then(states, acts, s, a);
  }

  /** One writer has submitted one chunk, which the device has finished, and filled a buffer with the next one. */
  predicate OneDone(s: State) {
    && 0 in s.files && s.files[0] == File(1, 1, [1], [])
    && 0 in s.writers && s.writers[0] == Filled(0, [2], 1)
    && s.buffers[0] == Buffer(Some(0), [1]) && s.buffers[1] == Buffer(Some(0), [2])
    && s.running == [0] && s.dev == Device(0, 0, Feed(1, [1]), true) && s.handler.None?
  }

  /** One writer has submitted its first chunk. */
  predicate OneRunning(s: State) {
    && 0 in s.files && s.files[0] == File(1, 1, [1], [])
    && 0 in s.writers && s.writers[0] == Writing(0, [])
    && s.buffers[0] == Buffer(Some(0), [1]) && s.free != [] && s.free[0] == 1
    && s.running == [0] && s.dev == Device(0, 1, 1, false) && s.handler.None?
  }

  /** One writer has filled a buffer with its first chunk. */
  predicate OneFilled(s: State) {
    && 0 in s.files && s.files[0] == File(0, 1, [], [])
    && 0 in s.writers && s.writers[0] == Filled(0, [1], 0)
    && s.buffers[0] == Buffer(Some(0), [1]) && s.free != [] && s.free[0] == 1
    && s.running == [] && s.dev == Device(0, 0, 0, false) && s.handler.None?
  }

  lemma {:induction false} ReachOneFilled() returns (states: seq<State>, acts: seq<Action>, s: State)
    ensures FineTo(states, acts, s) && OneFilled(s)
  {
    s := Init({0});
    states, acts := [s], [];
    assert FineTo(states, acts, s);
    hide FineTo;
    states, acts := ThenFine(states, acts, s, Open(0)); s := Next(s, Open(0));
    states, acts := ThenFine(states, acts, s, BeginWrite(0, 0, [1])); s := Next(s, BeginWrite(0, 0, [1]));
    states, acts := ThenFine(states, acts, s, Take(0)); s := Next(s, Take(0));
    states, acts := ThenFine(states, acts, s, Copy(0)); s := Next(s, Copy(0));
  }

  lemma {:induction false} ReachOneRunning() returns (states: seq<State>, acts: seq<Action>, s: State)
    ensures FineTo(states, acts, s) && OneRunning(s)
  {
    hide FineTo;
    states, acts, s := ReachOneFilled();
    states, acts := ThenFine(states, acts, s, IncRead(0)); s := Next(s, IncRead(0));
    states, acts := ThenFine(states, acts, s, IncWrite(0)); s := Next(s, IncWrite(0));
    states, acts := ThenFine(states, acts, s, Submit(0)); s := Next(s, Submit(0));
  }

  lemma {:induction false} ReachOneDone() returns (states: seq<State>, acts: seq<Action>, s: State)
    ensures FineTo(states, acts, s) && OneDone(s)
  {
    hide FineTo;
    states, acts, s := ReachOneRunning();
    assert s.buffers[0].data[..1] == [1];
    states, acts := ThenFine(states, acts, s, EndWrite(0)); s := Next(s, EndWrite(0));
    states, acts := ThenFine(states, acts, s, BeginWrite(0, 0, [2])); s := Next(s, BeginWrite(0, 0, [2]));
    states, acts := ThenFine(states, acts, s, Take(0)); s := Next(s, Take(0));
    states, acts := ThenFine(states, acts, s, Copy(0)); s := Next(s, Copy(0));
    states, acts := ThenFine(states, acts, s, DeviceDone); s := Next(s, DeviceDone);
  }

  /** The handler has written back a count without the writer's next chunk. */
  predicate OneMissed(s: State) {
    && 0 in s.files && s.files[0] == File(0, Feed(1, [1]), [1], [1])
    && 0 in s.writers && s.writers[0] == Counted(0, [2], 1)
    && s.buffers[1] == Buffer(Some(0), [2]) && s.running == [] && s.handler.None?
  }

  lemma {:induction false} ReachOneMissed() returns (states: seq<State>, acts: seq<Action>, s: State)
    ensures FineTo(states, acts, s) && OneMissed(s)
  {
    hide FineTo, Feed;
    states, acts, s := ReachOneDone();
    states, acts := ThenFine(states, acts, s, DecRead); s := Next(s, DecRead);
    states, acts := ThenFine(states, acts, s, IncRead(0)); s := Next(s, IncRead(0));
    states, acts := ThenFine(states, acts, s, IncWrite(0)); s := Next(s, IncWrite(0));
    states, acts := ThenFine(states, acts, s, DecWrite); s := Next(s, DecWrite);
  }

  /**
   One writer is enough: the handler reads the count, the writer counts its next chunk in between, and the
   handler writes back the count without it.  No increment was disturbed, but a read sees no pending buffer
   and misses the second chunk.
   */
  lemma {:induction false} LostByHandler() returns (states: seq<State>, acts: seq<Action>, s: State)
    ensures RunTo(states, acts, s) && IncsUndisturbed(states, acts) && 0 in s.files && s.handler.None?
    ensures s.files[0].pending == 0 && s.running != []
    ensures s.files[0].sum != Checksum(s.files[0].submitted)
  {
    hide RunTo, Feed, IncsUndisturbed;
    states, acts, s := ReachOneMissed();
    states, acts := ThenFine(states, acts, s, Submit(0)); s := Next(s, Submit(0));
    assert s.files[0] == File(0, Feed(1, [1]), [1, 2], [1]);
    ChecksumsDiffer();
  }
}
