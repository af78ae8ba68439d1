/**
 What the device does with the commands of a request, against what the request asked for:
 block `start + k` of the section paired with block `k` of the scatter list.
 */
module TapeMeaning {
  import opened TapeCommand
  import opened TapeDevice
  import opened TapeCompiler

  /** A READ or WRITE of the request: `n` blocks from offset `off` of the page table. */
  datatype Seg = Seg(off: nat, n: nat)

  function Sum(segs: seq<Seg>): nat {
    if segs == [] then 0 else Sum(segs[..|segs| - 1]) + segs[|segs| - 1].n
  }

  /** The READ or WRITE commands that the loop has emitted. */
  function LoopSegs(g: Geometry, write: bool, start: nat, es: seq<Extent>): seq<Seg>
    requires g.blocks > 0 && GoodEntries(g, es)
  {
    if es == [] then [] else
    var init := es[..|es| - 1];
    LoopSegs(g, write, start, init) + NewSegs(Fold(g, write, start, init), es[|es| - 1])
  }

  function AllSegs(g: Geometry, write: bool, start: nat, es: seq<Extent>): seq<Seg>
    requires g.blocks > 0 && GoodEntries(g, es)
  {
    var acc := Fold(g, write, start, es);
    LoopSegs(g, write, start, es) + if acc.total != 0 then [Seg(acc.startPos, acc.total)] else []
  }

  function Slice(mem: seq<nat>, off: nat, n: nat): seq<nat> {
    if off + n <= |mem| then mem[off..off + n] else []
  }

  /** What these READs or WRITEs move when they run one after the other from position `start` on. */
  function Moved(write: bool, segs: seq<Seg>, start: nat, mem: seq<nat>): seq<Xfer> {
    if segs == [] then [] else
    var init, s := segs[..|segs| - 1], segs[|segs| - 1];
    Moved(write, init, start, mem) + Pairs(write, start + Sum(init), Slice(mem, s.off, s.n))
  }

  lemma {:induction false} SumSnoc(segs: seq<Seg>, s: Seg)
    ensures Sum(segs + [s]) == Sum(segs) + s.n
  {
    assert (segs + [s])[..|segs|] == segs;
  }

  lemma {:induction false} MovedSnoc(write: bool, segs: seq<Seg>, s: Seg, start: nat, mem: seq<nat>)
    ensures Moved(write, segs + [s], start, mem) == Moved(write, segs, start, mem)
      + Pairs(write, start + Sum(segs), Slice(mem, s.off, s.n))
  {
    assert (segs + [s])[..|segs|] == segs;
  }

  /** Each command starts at a page-table entry, and the entries before it hold the blocks moved before it. */
  predicate SegsOk(segs: seq<Seg>, table: seq<Extent>) {
    forall k :: 0 <= k < |segs| ==>
      && segs[k].n > 0 && segs[k].off <= |table|
      && |Flat(table[..segs[k].off])| == Sum(segs[..k])
  }

  lemma {:induction false} SegsGrow(segs: seq<Seg>, table: seq<Extent>, more: seq<Extent>)
    requires SegsOk(segs, table)
    ensures SegsOk(segs, table + more)
  {
    forall k | 0 <= k < |segs|
      ensures (table + more)[..segs[k].off] == table[..segs[k].off]
    {
    }
  }

  lemma {:induction false} SegsSnoc(segs: seq<Seg>, s: Seg, table: seq<Extent>)
    requires SegsOk(segs, table) && s.n > 0 && s.off <= |table| && |Flat(table[..s.off])| == Sum(segs)
    ensures SegsOk(segs + [s], table)
  {
    var all := segs + [s];
    forall k | 0 <= k < |all|
      ensures |Flat(table[..all[k].off])| == Sum(all[..k])
    {
      assert all[..k] == segs[..k];
      assert segs[..|segs|] == segs;
    }
  }

  lemma {:induction false} CutOneFlat(g: Geometry, p: nat, e: Extent)
    requires g.blocks > 0
    ensures Flat(CutOne(g, p, e)) == Sectors(e)
  {
    var room := Room(g, p);
    if e.blocks <= room {
      FlatOne(e);
    } else {
      var a, b := Extent(e.sector, room), Extent(e.sector + room, e.blocks - room);
      FlatAppend([a], [b]);
      FlatOne(a);
      FlatOne(b);
      assert [a] + [b] == CutOne(g, p, e);
      assert Sectors(e) == Sectors(a) + Sectors(b);
    }
  }

  /** Cutting the scatter list changes no memory block and leaves no empty piece. */
  lemma {:induction false} CutFlat(g: Geometry, start: nat, es: seq<Extent>)
    requires g.blocks > 0 && GoodEntries(g, es)
    ensures Flat(Cut(g, start, es)) == Flat(es) && AllValid(Cut(g, start, es))
  {
    if es != [] {
      var init, e := es[..|es| - 1], es[|es| - 1];
      CutFlat(g, start, init);
      var p := start + |Flat(init)|;
      CutOneFlat(g, p, e);
      FlatAppend(Cut(g, start, init), CutOne(g, p, e));
      FlatAppend(init, [e]);
      FlatOne(e);
      assert es == init + [e];
    }
  }

  /** The tape counter agrees with the position reached. */
  predicate TapeFacts(g: Geometry, start: nat, n: nat, acc: Acc) {
    && acc.total < acc.left <= g.blocks
    && acc.total <= n && acc.tape >= 1
    && start + n + (acc.left - acc.total) == TapeEnd(g, acc.tape)
  }

  /** The page table holds the `n` blocks so far; the start position and the commands lie at entries. */
  predicate TableFacts(n: nat, acc: Acc, segs: seq<Seg>) {
    && acc.total <= n && |Flat(acc.table)| == n
    && acc.startPos <= |acc.table| && |Flat(acc.table[..acc.startPos])| == n - acc.total
    && SegsOk(segs, acc.table) && Sum(segs) == n - acc.total
  }

  function NewSegs(acc: Acc, e: Extent): seq<Seg> {
    if acc.total + e.blocks >= acc.left then [Seg(acc.startPos, acc.left)] else []
  }

  lemma {:induction false} FlatSnoc(es: seq<Extent>)
    requires es != []
    ensures |Flat(es)| == |Flat(es[..|es| - 1])| + es[|es| - 1].blocks
  {
    var init, e := es[..|es| - 1], es[|es| - 1];
    assert es == init + [e];
    FlatAppend(init, [e]);
    FlatOne(e);
  }

  lemma {:induction false} StepTape(g: Geometry, write: bool, start: nat, n: nat, a: Acc, e: Extent)
    requires g.blocks > 0 && TapeFacts(g, start, n, a) && 0 < e.blocks <= g.blocks
    ensures TapeFacts(g, start, n + e.blocks, Step(g, write, a, e))
    ensures Room(g, start + n) == a.left - a.total
  {
    RoomIs(g, start + n, a.tape, a.left - a.total);
  }

  /** The page-table writes of an iteration are the pieces of its entry. */
  lemma {:induction false} StepTable(g: Geometry, write: bool, a: Acc, p: nat, e: Extent)
    requires g.blocks > 0 && a.total < a.left && Room(g, p) == a.left - a.total
    ensures Step(g, write, a, e).table == a.table + CutOne(g, p, e)
    ensures |Flat(Step(g, write, a, e).table)| == |Flat(a.table)| + e.blocks
  {
    FlatAppend(a.table, CutOne(g, p, e));
    CutOneFlat(g, p, e);
  }

  /** The table up to the next start position holds the blocks up to the end of the tape. */
  lemma {:induction false} StepStart(g: Geometry, write: bool, a: Acc, p: nat, e: Extent)
    requires g.blocks > 0 && a.total < a.left && Room(g, p) == a.left - a.total
    requires a.total + e.blocks >= a.left
    ensures var b := Step(g, write, a, e);
            b.startPos <= |b.table| && |Flat(b.table[..b.startPos])| == |Flat(a.table)| + (a.left - a.total)
  {
    StepTable(g, write, a, p, e);
    var b := Step(g, write, a, e);
    var piece := CutOne(g, p, e)[0];
    assert b.table[..b.startPos] == a.table + [piece];
    FlatAppend(a.table, [piece]);
    FlatOne(piece);
  }

  lemma {:induction false} StepFacts(g: Geometry, write: bool, n: nat, a: Acc, segs: seq<Seg>, p: nat, e: Extent)
    requires g.blocks > 0 && TableFacts(n, a, segs) && a.total < a.left && Room(g, p) == a.left - a.total
    ensures TableFacts(n + e.blocks, Step(g, write, a, e), segs + NewSegs(a, e))
  {
    var b := Step(g, write, a, e);
    StepTable(g, write, a, p, e);
    SegsGrow(segs, a.table, CutOne(g, p, e));
    assert b.table[..a.startPos] == a.table[..a.startPos];
    if a.total + e.blocks >= a.left {
      StepStart(g, write, a, p, e);
      SegsSnoc(segs, Seg(a.startPos, a.left), b.table);
      SumSnoc(segs, Seg(a.startPos, a.left));
    } else {
      assert segs + [] == segs;
    }
  }

  lemma {:induction false} FoldTape(g: Geometry, write: bool, start: nat, es: seq<Extent>)
    requires g.blocks > 0 && GoodEntries(g, es)
    ensures TapeFacts(g, start, |Flat(es)|, Fold(g, write, start, es))
  {
    if es == [] {
      BeginFacts(g, start);
    } else {
      var init, e := es[..|es| - 1], es[|es| - 1];
      FoldTape(g, write, start, init);
      FlatSnoc(es);
      StepTape(g, write, start, |Flat(init)|, Fold(g, write, start, init), e);
    }
  }

  lemma {:induction false} FoldRoom(g: Geometry, write: bool, start: nat, es: seq<Extent>)
    requires g.blocks > 0 && GoodEntries(g, es)
    ensures var acc := Fold(g, write, start, es); Room(g, start + |Flat(es)|) == acc.left - acc.total
  {
    FoldTape(g, write, start, es);
    var acc := Fold(g, write, start, es);
    RoomIs(g, start + |Flat(es)|, acc.tape, acc.left - acc.total);
  }

  lemma {:induction false} FoldTable(g: Geometry, write: bool, start: nat, es: seq<Extent>)
    requires g.blocks > 0 && GoodEntries(g, es)
    ensures TableFacts(|Flat(es)|, Fold(g, write, start, es), LoopSegs(g, write, start, es))
  {
    if es != [] {
      var init, e := es[..|es| - 1], es[|es| - 1];
      var a, segs := Fold(g, write, start, init), LoopSegs(g, write, start, init);
      FoldTable(g, write, start, init);
      FoldRoom(g, write, start, init);
      FlatSnoc(es);
      StepFacts(g, write, |Flat(init)|, a, segs, start + |Flat(init)|, e);
    }
  }

  /** The page table is the scatter list cut at the ends of the tapes. */
  lemma {:induction false} TableIsCut(g: Geometry, write: bool, start: nat, es: seq<Extent>)
    requires g.blocks > 0 && GoodEntries(g, es)
    ensures Fold(g, write, start, es).table == Cut(g, start, es)
  {
    if es != [] {
      var init, e := es[..|es| - 1], es[|es| - 1];
      TableIsCut(g, write, start, init);
      FoldRoom(g, write, start, init);
      StepTable(g, write, Fold(g, write, start, init), start + |Flat(init)|, e);
    }
  }

  lemma {:induction false} BeginFacts(g: Geometry, start: nat)
    requires g.blocks > 0
    ensures TapeFacts(g, start, 0, Begin(g, start))
  {
    TapeSplit(g, start);
  }

  // ---------------------------------------------------------------- running the commands

  lemma {:induction false} RunOne(g: Geometry, d: Device, op: Op, rest: seq<Op>, table: seq<Extent>)
    requires var r := Exec(g, d, op, table); r.status.Done? || (r.status.NoTape? && op.Eject?)
    ensures var r := Exec(g, d, op, table); var t := Run(g, r.dev, rest, table);
            Run(g, d, [op] + rest, table) == t.(xfers := r.xfers + t.xfers)
  {
    assert ([op] + rest)[1..] == rest;
  }

  /** EJECT, TAKE_TAPE and REWIND put tape `tape` in, at its beginning, whatever was in before. */
  lemma {:induction false} RunInsert(g: Geometry, d: Device, tape: nat, rest: seq<Op>, table: seq<Extent>)
    returns (d': Device)
    requires 0 < tape <= g.tapes
    ensures d'.tape == tape && d'.pos == 0
    ensures Run(g, d, [Eject, Take(tape), Rewind] + rest, table) == Run(g, d', rest, table)
  {
    var d1 := Exec(g, d, Eject, table).dev;
    var d2 := Exec(g, d1, Take(tape), table).dev;
    d' := Exec(g, d2, Rewind, table).dev;
    var t := Run(g, d', rest, table);
    assert [] + t.xfers == t.xfers;
    RunOne(g, d2, Rewind, rest, table);
    RunOne(g, d1, Take(tape), [Rewind] + rest, table);
    RunOne(g, d, Eject, [Take(tape)] + ([Rewind] + rest), table);
    assert [Eject] + ([Take(tape)] + ([Rewind] + rest)) == [Eject, Take(tape), Rewind] + rest;
  }

  lemma {:induction false} RunSetup(g: Geometry, d: Device, start: nat, table: seq<Extent>)
    requires g.blocks > 0 && TapeOf(g, start) <= g.tapes
    ensures var r := Run(g, d, Setup(g, start), table);
            r.status.Done? && r.xfers == [] && r.dev.tape == TapeOf(g, start) && r.dev.pos == WithinTape(g, start)
  {
    var tape, op := TapeOf(g, start), FastFwd(WithinTape(g, start));
    var d' := RunInsert(g, d, tape, [op], table);
    assert Setup(g, start) == [Eject, Take(tape), Rewind] + [op];
    assert [op][1..] == [];
  }

  /** Where the section stands between two iterations. */
  predicate DeviceAt(g: Geometry, acc: Acc, d: Device) {
    d.tape == acc.prev && d.pos + (if acc.prev < acc.tape then 0 else acc.left) == g.blocks
  }

  lemma {:induction false} RunChange(g: Geometry, d: Device, acc: Acc, table: seq<Extent>)
    requires DeviceAt(g, acc, d) && 1 <= acc.prev <= acc.tape <= g.tapes && acc.left <= g.blocks
    requires acc.prev < acc.tape ==> acc.left == g.blocks
    ensures var r := Run(g, d, Change(acc), table);
            r.status.Done? && r.xfers == [] && r.dev.tape == acc.tape && r.dev.pos + acc.left == g.blocks
  {
    if acc.prev < acc.tape {
      var d' := RunInsert(g, d, acc.tape, [], table);
      assert Change(acc) == [Eject, Take(acc.tape), Rewind] + [];
    }
  }

  /** The page table in memory: the pieces, then whatever was there before. */
  predicate Holds(table: seq<Extent>, pieces: seq<Extent>) {
    |pieces| <= |table| && |pieces| <= TABLE_SIZE && table[..|pieces|] == pieces && AllValid(pieces)
  }

  lemma {:induction false} RunMove(g: Geometry, d: Device, write: bool, off: nat, count: nat, left: nat, at: nat,
        table: seq<Extent>, pieces: seq<Extent>)
    requires d.tape > 0 && 0 < count <= left && d.pos + left == g.blocks && at + left == TapeEnd(g, d.tape)
    requires Holds(table, pieces) && off + count <= |Flat(pieces)|
    ensures var r := Run(g, d, [Move(write, off, count)], table);
            && r.status.Done? && r.dev.tape == d.tape && r.dev.pos == d.pos + count
            && r.xfers == Pairs(write, at, Slice(Flat(pieces), off, count))
  {
    var op := Move(write, off, count);
    MoveReadsFlat(g, d, write, off, count, table, |pieces|);
    TapeEndIs(g, d.tape - 1);
    assert Base(g, d.tape) + d.pos == at;
    var r := Exec(g, d, op, table);
    RunOne(g, d, op, [], table);
    assert [op] + [] == [op] && r.xfers + [] == r.xfers;
  }

  function NewOps(write: bool, acc: Acc, e: Extent): seq<Op> {
    Change(acc) + if acc.total + e.blocks >= acc.left then [Move(write, acc.startPos, acc.left)] else []
  }

  /** One iteration's commands: the tape is changed if need be, and a full tape is read or written to its end. */
  lemma {:induction false} RunStep(g: Geometry, d: Device, write: bool, start: nat, n: nat, a: Acc, e: Extent,
        table: seq<Extent>, pieces: seq<Extent>)
    requires g.blocks > 0 && TapeFacts(g, start, n, a) && DeviceAt(g, a, d) && e.blocks > 0
    requires 1 <= a.prev <= a.tape <= a.prev + 1 && (a.prev < a.tape ==> a.left == g.blocks)
    requires a.startPos <= n - a.total && n + e.blocks <= |Flat(pieces)| && Holds(table, pieces)
    requires start + |Flat(pieces)| <= TapeEnd(g, g.tapes)
    ensures var r := Run(g, d, NewOps(write, a, e), table);
            && r.status.Done? && DeviceAt(g, Step(g, write, a, e), r.dev)
            && r.xfers == if a.total + e.blocks >= a.left
                          then Pairs(write, start + (n - a.total), Slice(Flat(pieces), a.startPos, a.left)) else []
  {
    hide Run, Exec, Flat, Pairs, Slice, Holds, Change;
    TapeBound(g, a.tape - 1, g.tapes);
    RunChange(g, d, a, table);
    var r := Run(g, d, Change(a), table);
    if a.total + e.blocks >= a.left {
      var move := [Move(write, a.startPos, a.left)];
      RunAppend(g, d, Change(a), move, table);
      RunMove(g, r.dev, write, a.startPos, a.left, a.left, start + (n - a.total), table, pieces);
      assert [] + Run(g, r.dev, move, table).xfers == Run(g, r.dev, move, table).xfers;
    } else {
      assert Change(a) + [] == Change(a);
    }
  }

  lemma {:induction false} ValidLength(table: seq<Extent>)
    requires AllValid(table)
    ensures |table| <= |Flat(table)|
  {
    if table != [] {
      ValidLength(table[1..]);
    }
  }

  lemma {:induction false} FlatPrefix(es: seq<Extent>, k: nat)
    requires k < |es|
    ensures |Flat(es[..k])| + es[k].blocks <= |Flat(es)|
  {
    assert es == (es[..k] + [es[k]]) + es[k + 1..];
    FlatAppend(es[..k] + [es[k]], es[k + 1..]);
    FlatAppend(es[..k], [es[k]]);
    FlatOne(es[k]);
  }

  /** What a run of commands has come to: it is done, the device is where `acc` says, `segs` were moved. */
  predicate RanTo(write: bool, g: Geometry, r: Outcome, acc: Acc, segs: seq<Seg>, start: nat, mem: seq<nat>) {
    r.status.Done? && DeviceAt(g, acc, r.dev) && r.xfers == Moved(write, segs, start, mem)
  }

  /** Commands that follow a run: their outcome, with the blocks of both. */
  lemma {:induction false} RunMore(write: bool, g: Geometry, d: Device, before: seq<Op>, more: seq<Op>,
        table: seq<Extent>, b: Acc, segs: seq<Seg>, extra: seq<Seg>, start: nat, mem: seq<nat>)
    requires var r := Run(g, d, before, table); r.status.Done? && r.xfers == Moved(write, segs, start, mem)
    requires var s := Run(g, Run(g, d, before, table).dev, more, table);
             && s.status.Done? && DeviceAt(g, b, s.dev)
             && Moved(write, segs, start, mem) + s.xfers == Moved(write, segs + extra, start, mem)
    ensures RanTo(write, g, Run(g, d, before + more, table), b, segs + extra, start, mem)
  {
    RunAppend(g, d, before, more, table);
  }

  lemma {:induction false} RunNext(g: Geometry, d: Device, write: bool, start: nat, n: nat, before: seq<Op>, a: Acc,
        segs: seq<Seg>, e: Extent, table: seq<Extent>, pieces: seq<Extent>)
    requires g.blocks > 0 && TapeFacts(g, start, n, a) && e.blocks > 0 && Sum(segs) == n - a.total
    requires 1 <= a.prev <= a.tape <= a.prev + 1 && (a.prev < a.tape ==> a.left == g.blocks)
    requires a.startPos <= n - a.total && n + e.blocks <= |Flat(pieces)| && Holds(table, pieces)
    requires start + |Flat(pieces)| <= TapeEnd(g, g.tapes)
    requires RanTo(write, g, Run(g, d, before, table), a, segs, start, Flat(pieces))
    ensures RanTo(write, g, Run(g, d, before + NewOps(write, a, e), table), Step(g, write, a, e),
                  segs + NewSegs(a, e), start, Flat(pieces))
  {
    hide Moved, Sum, Flat, Pairs, Slice, Run, Exec, Holds, NewOps, NewSegs;
    var r := Run(g, d, before, table);
    RunStep(g, r.dev, write, start, n, a, e, table, pieces);
    MovedMore(write, a, e, segs, start, Flat(pieces));
    RunMore(write, g, d, before, NewOps(write, a, e), table, Step(g, write, a, e), segs, NewSegs(a, e), start,
        Flat(pieces));
  }

  lemma {:induction false} MovedMore(write: bool, a: Acc, e: Extent, segs: seq<Seg>, start: nat, mem: seq<nat>)
    ensures Moved(write, segs, start, mem) +
            (if a.total + e.blocks >= a.left then Pairs(write, start + Sum(segs), Slice(mem, a.startPos, a.left))
                else [])
            == Moved(write, segs + NewSegs(a, e), start, mem)
  {
    if a.total + e.blocks >= a.left {
      MovedSnoc(write, segs, Seg(a.startPos, a.left), start, mem);
    } else {
      assert segs + [] == segs;
    }
  }

  /** The commands of the setup and of the first `k` iterations. */
  lemma {:induction false} RunLoop(g: Geometry, d: Device, write: bool, start: nat, es: seq<Extent>, k: nat,
        table: seq<Extent>)
    requires g.blocks > 0 && GoodEntries(g, es) && es != [] && k <= |es|
    requires start + |Flat(es)| <= TapeEnd(g, g.tapes) && Holds(table, Cut(g, start, es))
    ensures var acc := Fold(g, write, start, es[..k]);
            RanTo(write, g, Run(g, d, Setup(g, start) + acc.ops, table), acc, LoopSegs(g, write, start, es[..k]),
                start, Flat(es))
  {
    hide Moved, Sum, Flat, Run, Exec, Setup, Step, NewOps, NewSegs;
    if k == 0 {
      RunBegin(g, d, write, start, es, table);
    } else {
      var init, e := es[..k - 1], es[k - 1];
      assert es[..k][..k - 1] == init && es[..k][k - 1] == e;
      var a, segs := Fold(g, write, start, init), LoopSegs(g, write, start, init);
      RunLoop(g, d, write, start, es, k - 1, table);
      FoldTape(g, write, start, init);
      FoldTable(g, write, start, init);
      StartBound(g, write, start, init);
      FlatPrefix(es, k - 1);
      CutFlat(g, start, es);
      RunNext(g, d, write, start, |Flat(init)|, Setup(g, start) + a.ops, a, segs, e, table, Cut(g, start, es));
      assert Setup(g, start) + (a.ops + NewOps(write, a, e)) == (Setup(g, start) + a.ops) + NewOps(write, a, e);
      StepOps(g, write, a, e);
    }
  }

  lemma {:induction false} StepOps(g: Geometry, write: bool, a: Acc, e: Extent)
    requires a.total <= a.left
    ensures Step(g, write, a, e).ops == a.ops + NewOps(write, a, e)
  {
  }

  lemma {:induction false} RunBegin(g: Geometry, d: Device, write: bool, start: nat, es: seq<Extent>,
        table: seq<Extent>)
    requires g.blocks > 0 && GoodEntries(g, es) && es != [] && start + |Flat(es)| <= TapeEnd(g, g.tapes)
    ensures RanTo(write, g, Run(g, d, Setup(g, start) + Begin(g, start).ops, table), Begin(g, start), [], start,
      Flat(es))
  {
    BeginFacts(g, start);
    FlatPrefix(es, 0);
    TapeSplit(g, start);
    TapeBound(g, start / g.blocks, g.tapes);
    RunSetup(g, d, start, table);
    assert Setup(g, start) + [] == Setup(g, start);
  }

  lemma {:induction false} StartBound(g: Geometry, write: bool, start: nat, es: seq<Extent>)
    requires g.blocks > 0 && GoodEntries(g, es)
    ensures var acc := Fold(g, write, start, es); acc.total <= |Flat(es)| && acc.startPos <= |Flat(es)| - acc.total
  {
    var acc := Fold(g, write, start, es);
    FoldTable(g, write, start, es);
    TableIsCut(g, write, start, es);
    CutFlat(g, start, es);
    ValidLength(acc.table[..acc.startPos]);
  }
}
