/**
 What one section of the tape device does with a list of commands and a page table
 (`zad3-public/hw/misc/tapedev.c`), for 512-byte blocks.  Positions are counted in blocks,
 memory in 512-byte sectors.
 */
module TapeDevice {
  import opened Options
  import opened TapeCommand

  const TABLE_SIZE: nat := 512

  /** A page-table entry, or a scatter entry: `blocks` blocks of memory starting at `sector`. */
  datatype Extent = Extent(sector: nat, blocks: nat)

  /** One block moved between the tapes of the section and memory. */
  datatype Xfer = Xfer(write: bool, position: nat, sector: nat)

  /** The section: which tape is inserted (0 for none), where it stands, and where the others were left. */
  datatype Device = Device(tape: nat, pos: nat, left: map<nat, nat>)

  /** The geometry: `tapes` tapes of `blocks` blocks each. */
  datatype Geometry = Geometry(tapes: nat, blocks: nat)

  datatype Status = Done | NoTape | TapeActive | InvalidTape | InvalidFfwd | PastEnd | PageTable | InvalidCmd

  datatype Outcome = Outcome(dev: Device, xfers: seq<Xfer>, status: Status)

  /** The device's private copy of the page table, with the entry and the block it has come to. */
  datatype Cursor = Cursor(table: seq<Extent>, index: nat, used: nat)

  function Entry(c: Cursor): Extent {
    if c.index < |c.table| && c.index < TABLE_SIZE then c.table[c.index] else Extent(0, 0)
  }

  predicate ValidEntry(e: Extent) {
    e.sector != 0 && e.blocks != 0
  }

  /** One block of the current entry is used up. */
  function Advance(c: Cursor): Cursor
    requires c.index < |c.table| && Entry(c).blocks > 0
  {
    var e := c.table[c.index];
    if e.blocks == 1
    then Cursor(c.table[c.index := e.(blocks := 0)], c.index + 1, 0)
    else Cursor(c.table[c.index := e.(blocks := e.blocks - 1)], c.index, c.used + 1)
  }

  /** The offset of READ and WRITE: that many blocks of the page table are passed over. */
  function Skip(c: Cursor, n: nat): Option<Cursor>
    decreases n
  {
    if n == 0 then Some(c)
    else if !ValidEntry(Entry(c)) then None
    else Skip(Advance(c), n - 1)
  }

  /** The position of block 0 of a tape within the section. */
  function Base(g: Geometry, tape: nat): nat
    requires tape > 0
  {
    (tape - 1) * g.blocks
  }

  /** READ or WRITE, one block at a time; `base` is the position of block 0 of the inserted tape. */
  function MoveBlocks(write: bool, size: nat, base: nat, d: Device, c: Cursor, n: nat): Outcome
    requires n > 0
    decreases n
  {
    if d.pos >= size then Outcome(d, [], PastEnd)
    else if !ValidEntry(Entry(c)) then Outcome(d, [], PageTable)
    else
      var x := Xfer(write, base + d.pos, Entry(c).sector + c.used);
      var d1 := d.(pos := d.pos + 1, left := d.left[d.tape := d.pos + 1]);
      if n == 1 then Outcome(d1, [x], Done)
      else
        var r := MoveBlocks(write, size, base, d1, Advance(c), n - 1);
        r.(xfers := [x] + r.xfers)
  }

  function Exec(g: Geometry, d: Device, op: Op, table: seq<Extent>): Outcome {
    match op
    case Take(tape) =>
      if d.tape != 0 then Outcome(d, [], TapeActive)
      else if tape > g.tapes || tape == 0 then Outcome(d, [], InvalidTape)
      else Outcome(d.(tape := tape, pos := if tape in d.left then d.left[tape] else 0), [], Done)
    case Eject => if d.tape == 0 then Outcome(d, [], NoTape) else Outcome(d.(tape := 0, pos := 0), [], Done)
    case Rewind =>
      if d.tape == 0 then Outcome(d, [], NoTape) else Outcome(d.(pos := 0, left := d.left[d.tape := 0]), [], Done)
    case FastFwd(blocks) =>
      if d.tape == 0 then Outcome(d, [], NoTape)
      else if blocks >= g.blocks then Outcome(d, [], InvalidFfwd)
      else Outcome(d.(pos := d.pos + blocks, left := d.left[d.tape := d.pos + blocks]), [], Done)
    case Move(write, offset, count) =>
      if d.tape == 0 then Outcome(d, [], NoTape)
      else if d.pos >= g.blocks then Outcome(d, [], PastEnd)
      else if count == 0 then Outcome(d, [], Done)
      else
        match Skip(Cursor(table, 0, 0), offset) {
          case None => Outcome(d, [], PageTable)
          case Some(c) => MoveBlocks(write, g.blocks, Base(g, d.tape), d, c, count)
        }
    case Invalid => Outcome(d, [], InvalidCmd)
  }

  /**
   A request: the driver sends the next command when the last one is done.  It goes on after an
   EJECT without a tape and gives up at any other error.
   */
  function Run(g: Geometry, d: Device, ops: seq<Op>, table: seq<Extent>): Outcome
    decreases |ops|
  {
    if ops == [] then Outcome(d, [], Done)
    else
      var r := Exec(g, d, ops[0], table);
      if r.status.Done? || (r.status.NoTape? && ops[0].Eject?) then
        var rest := Run(g, r.dev, ops[1..], table);
        rest.(xfers := r.xfers + rest.xfers)
      else r
  }

  /** The same on command words. */
  function RunWords(g: Geometry, d: Device, words: seq<nat>, table: seq<Extent>): Outcome {
    Run(g, d, seq(|words|, i requires 0 <= i < |words| => Decode(words[i])), table)
  }

  lemma {:induction false} RunAppend(g: Geometry, d: Device, a: seq<Op>, b: seq<Op>, table: seq<Extent>)
    ensures var r := Run(g, d, a, table);
            Run(g, d, a + b, table) ==
              if r.status.Done? then var rest := Run(g, r.dev, b, table); rest.(xfers := r.xfers + rest.xfers) else r
    decreases |a|
  {
    if a == [] {
      assert a + b == b;
    } else {
      var r := Exec(g, d, a[0], table);
      assert (a + b)[1..] == a[1..] + b;
      RunAppend(g, r.dev, a[1..], b, table);
      if r.status.Done? || (r.status.NoTape? && a[0].Eject?) {
        var x, y := Run(g, r.dev, a[1..], table), Run(g, Run(g, r.dev, a[1..], table).dev, b, table);
        assert r.xfers + (x.xfers + y.xfers) == (r.xfers + x.xfers) + y.xfers;
      }
    }
  }

  // ---------------------------------------------------------------- the page table as a list of blocks

  /** The memory blocks of a list of extents, one sector number per block. */
  function Flat(table: seq<Extent>): seq<nat> {
    if table == [] then [] else Sectors(table[0]) + Flat(table[1..])
  }

  function Sectors(e: Extent): seq<nat> {
    seq(e.blocks, i requires 0 <= i < e.blocks => e.sector + i)
  }

  lemma {:induction false} FlatAppend(a: seq<Extent>, b: seq<Extent>)
    ensures Flat(a + b) == Flat(a) + Flat(b)
  {
    if a == [] {
      assert a + b == b;
    } else {
      assert (a + b)[1..] == a[1..] + b;
      FlatAppend(a[1..], b);
      assert Sectors(a[0]) + (Flat(a[1..]) + Flat(b)) == (Sectors(a[0]) + Flat(a[1..])) + Flat(b);
    }
  }

  lemma {:induction false} FlatOne(e: Extent)
    ensures Flat([e]) == Sectors(e)
  {
    assert [e][1..] == [];
    assert Sectors(e) + [] == Sectors(e);
  }

  predicate AllValid(table: seq<Extent>) {
    forall i :: 0 <= i < |table| ==> ValidEntry(table[i])
  }

  /** What is left of the first `lim` entries under the cursor. */
  function Rest(c: Cursor, lim: nat): seq<nat>
    requires c.index <= lim <= |c.table|
  {
    if c.index == lim then []
    else Sectors(Extent(c.table[c.index].sector + c.used, c.table[c.index].blocks)) + Flat(c.table[c.index + 1..lim])
  }

  predicate GoodCursor(c: Cursor, lim: nat) {
    && c.index <= lim <= |c.table| && lim <= TABLE_SIZE
    && (forall i :: c.index <= i < lim ==> ValidEntry(c.table[i]))
    && (c.index == lim ==> c.used == 0)
  }

  lemma {:induction false} AdvanceRest(c: Cursor, lim: nat)
    requires GoodCursor(c, lim) && c.index < lim
    ensures GoodCursor(Advance(c), lim)
    ensures Rest(c, lim) != [] && Rest(c, lim)[0] == Entry(c).sector + c.used
    ensures Rest(Advance(c), lim) == Rest(c, lim)[1..]
  {
    var e := c.table[c.index];
    var c' := Advance(c);
    var now := Sectors(Extent(e.sector + c.used, e.blocks));
    assert c'.table[c.index + 1..lim] == c.table[c.index + 1..lim];
    if e.blocks == 1 {
      if c.index + 1 < lim {
        var n := c.table[c.index + 1];
        assert c.table[c.index + 1..lim][0] == n;
        assert c.table[c.index + 1..lim][1..] == c.table[c.index + 2..lim];
        assert c'.table[c.index + 2..lim] == c.table[c.index + 2..lim];
        assert Extent(n.sector + 0, n.blocks) == n;
      }
      assert now == [e.sector + c.used];
    } else {
      assert now[1..] == Sectors(Extent(e.sector + c.used + 1, e.blocks - 1));
    }
  }

  lemma {:induction false} SkipRest(c: Cursor, lim: nat, n: nat)
    requires GoodCursor(c, lim) && n <= |Rest(c, lim)|
    ensures Skip(c, n).Some? && GoodCursor(Skip(c, n).value, lim)
    ensures Rest(Skip(c, n).value, lim) == Rest(c, lim)[n..]
    decreases n
  {
    if n > 0 {
      AdvanceRest(c, lim);
      SkipRest(Advance(c), lim, n - 1);
      assert Rest(c, lim)[1..][n - 1..] == Rest(c, lim)[n..];
    }
  }

  /** The `n` blocks from position `p` on, paired with the given memory blocks. */
  function Pairs(write: bool, p: nat, mem: seq<nat>): seq<Xfer> {
    seq(|mem|, i requires 0 <= i < |mem| => Xfer(write, p + i, mem[i]))
  }

  lemma {:induction false} PairsStep(write: bool, p: nat, rest: seq<nat>, n: nat)
    requires 0 < n <= |rest|
    ensures Pairs(write, p, rest[..n]) == [Xfer(write, p, rest[0])] + Pairs(write, p + 1, rest[1..][..n - 1])
  {
    assert rest[..n] == [rest[0]] + rest[1..][..n - 1];
  }

  lemma {:induction false} PairsNone(write: bool, p: nat, mem: seq<nat>)
    ensures Pairs(write, p, mem[..0]) == []
  {
  }

  /** The device after one block was moved. */
  function OneOn(d: Device): Device {
    d.(pos := d.pos + 1, left := d.left[d.tape := d.pos + 1])
  }

  lemma {:induction false} MoveBlocksFirst(write: bool, size: nat, base: nat, d: Device, c: Cursor, n: nat)
    requires n > 0 && d.pos < size && ValidEntry(Entry(c))
    ensures var r := MoveBlocks(write, size, base, d, c, n);
            var x := Xfer(write, base + d.pos, Entry(c).sector + c.used);
            if n == 1 then r == Outcome(OneOn(d), [x], Done)
            else var t := MoveBlocks(write, size, base, OneOn(d), Advance(c), n - 1); r == t.(xfers := [x] + t.xfers)
  {
  }

  lemma {:induction false} NotAtEnd(c: Cursor, lim: nat)
    requires GoodCursor(c, lim) && |Rest(c, lim)| > 0
    ensures c.index < lim <= |c.table| && Entry(c).blocks > 0 && ValidEntry(Entry(c))
  {
  }

  lemma {:induction false} OneOnIs(d: Device)
    ensures OneOn(d).pos == d.pos + 1 && OneOn(d).tape == d.tape
  {
  }

  lemma {:induction false} MoveBlocksRest(write: bool, size: nat, base: nat, d: Device, c: Cursor, lim: nat, n: nat)
    requires n > 0 && d.pos + n <= size
    requires GoodCursor(c, lim) && n <= |Rest(c, lim)|
    ensures var r := MoveBlocks(write, size, base, d, c, n);
            && r.status.Done? && r.dev.tape == d.tape && r.dev.pos == d.pos + n
            && r.xfers == Pairs(write, base + d.pos, Rest(c, lim)[..n])
    decreases n
  {
    hide Rest, Pairs, GoodCursor, Advance, MoveBlocks, Entry, ValidEntry, OneOn;
    NotAtEnd(c, lim);
    AdvanceRest(c, lim);
    var rest := Rest(c, lim);
    PairsStep(write, base + d.pos, rest, n);
    MoveBlocksFirst(write, size, base, d, c, n);
    OneOnIs(d);
    if n > 1 {
      MoveBlocksRest(write, size, base, OneOn(d), Advance(c), lim, n - 1);
    } else {
      PairsNone(write, base + d.pos + 1, rest[1..]);
    }
  }

  /**
   READ and WRITE walk through the page table block by block; that is the same as
   indexing the list of its blocks.  The offset is a number of blocks, not of entries.
   */
  lemma {:induction false} MoveReadsFlat(g: Geometry, d: Device, write: bool, offset: nat, count: nat,
        table: seq<Extent>, lim: nat)
    requires d.tape > 0 && count > 0 && d.pos + count <= g.blocks
    requires lim <= |table| && lim <= TABLE_SIZE && AllValid(table[..lim])
    requires offset + count <= |Flat(table[..lim])|
    ensures var r := Exec(g, d, Move(write, offset, count), table);
            && r.status.Done? && r.dev.tape == d.tape && r.dev.pos == d.pos + count
            && r.xfers == Pairs(write, Base(g, d.tape) + d.pos, Flat(table[..lim])[offset..offset + count])
  {
    hide Rest, GoodCursor, Skip, MoveBlocks, Pairs, Flat;
    var c := Cursor(table, 0, 0);
    FromStart(table, lim);
    SkipRest(c, lim, offset);
    MoveBlocksRest(write, g.blocks, Base(g, d.tape), d, Skip(c, offset).value, lim, count);
    assert Flat(table[..lim])[offset..][..count] == Flat(table[..lim])[offset..offset + count];
  }

  lemma {:induction false} FromStart(table: seq<Extent>, lim: nat)
    requires lim <= |table| && lim <= TABLE_SIZE && AllValid(table[..lim])
    ensures GoodCursor(Cursor(table, 0, 0), lim) && Rest(Cursor(table, 0, 0), lim) == Flat(table[..lim])
  {
    forall i | 0 <= i < lim
      ensures ValidEntry(table[i])
    {
      assert table[..lim][i] == table[i];
    }
    if lim > 0 {
      assert table[..lim][1..] == table[1..lim];
      assert Extent(table[0].sector + 0, table[0].blocks) == table[0];
    }
  }
}
