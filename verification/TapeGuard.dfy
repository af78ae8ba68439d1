/**
 What a section of the tape device does with commands that need not come from the driver:
 any command word, any page table, any position.  `TapeDevice` walks through the page table
 entry by entry and moves one block at a time; here READ and WRITE are the first blocks of
 a list, cut off where the command, the tape or the page table ends.
 */
module TapeGuard {
  import opened Options
  import opened TapeCommand
  import opened TapeDevice

  // ---------------------------------------------------------------- the usable part of a page table

  /** The first entry from `i` on that the device refuses. */
  function Wall(table: seq<Extent>, i: nat): nat
    requires i <= TABLE_SIZE
    decreases TABLE_SIZE - i
  {
    if i < |table| && i < TABLE_SIZE && ValidEntry(table[i]) then Wall(table, i + 1) else i
  }

  lemma {:induction false} WallIs(table: seq<Extent>, i: nat)
    requires i <= |table| && i <= TABLE_SIZE
    ensures var lim := Wall(table, i);
            && i <= lim <= |table| && lim <= TABLE_SIZE
            && (forall k :: i <= k < lim ==> ValidEntry(table[k]))
            && (lim < |table| && lim < TABLE_SIZE ==> !ValidEntry(table[lim]))
    decreases TABLE_SIZE - i
  {
    if i < |table| && i < TABLE_SIZE && ValidEntry(table[i]) {
      WallIs(table, i + 1);
    }
  }

  /** The memory blocks that the page table offers, in order. */
  function Usable(table: seq<Extent>): seq<nat> {
    WallIs(table, 0);
    Flat(table[..Wall(table, 0)])
  }

  /** The cursor is inside the entries before `lim`, and the device refuses the one at `lim`. */
  predicate Walled(c: Cursor, lim: nat) {
    && GoodCursor(c, lim)
    && (lim < |c.table| && lim < TABLE_SIZE ==> !ValidEntry(c.table[lim]))
  }

  lemma {:induction false} AtWall(c: Cursor, lim: nat)
    requires Walled(c, lim)
    ensures ValidEntry(Entry(c)) <==> c.index < lim
    ensures c.index <= lim <= |c.table| && (c.index < lim ==> Entry(c).blocks > 0)
    ensures Rest(c, lim) == [] <==> c.index == lim
  {
    if c.index < lim {
      assert ValidEntry(c.table[c.index]);
    }
  }

  lemma {:induction false} AdvanceWalled(c: Cursor, lim: nat)
    requires Walled(c, lim) && c.index < lim
    ensures Walled(Advance(c), lim) && Rest(c, lim) != []
    ensures Rest(c, lim)[0] == Entry(c).sector + c.used && Rest(Advance(c), lim) == Rest(c, lim)[1..]
  {
    AdvanceRest(c, lim);
  }

  /** The offset is passed over if and only if the page table has that many blocks. */
  lemma {:induction false} SkipIs(c: Cursor, lim: nat, n: nat)
    requires Walled(c, lim)
    ensures Skip(c, n).Some? <==> n <= |Rest(c, lim)|
    ensures Skip(c, n).Some? ==>
              Walled(Skip(c, n).value, lim) && Rest(Skip(c, n).value, lim) == Rest(c, lim)[n..]
    decreases n
  {
    AtWall(c, lim);
    if n > 0 && c.index < lim {
      AdvanceWalled(c, lim);
      SkipIs(Advance(c), lim, n - 1);
      hide Rest, Walled, Advance;
      assert n <= |Rest(c, lim)| ==> Rest(c, lim)[1..][n - 1..] == Rest(c, lim)[n..];
    }
  }

  lemma {:induction false} StartWalled(table: seq<Extent>)
    ensures Walled(Cursor(table, 0, 0), Wall(table, 0))
    ensures Rest(Cursor(table, 0, 0), Wall(table, 0)) == Usable(table)
  {
    WallIs(table, 0);
    FromStart(table, Wall(table, 0));
  }

  // ---------------------------------------------------------------- READ and WRITE, all cases

  function Min(a: nat, b: nat): nat {
    if a < b then a else b
  }

  /** The blocks between the position and the end of the tape. */
  function Room(d: Device, size: nat): nat {
    if d.pos < size then size - d.pos else 0
  }

  /** The device after `m` blocks were moved. */
  function After(d: Device, m: nat): Device {
    if m == 0 then d else d.(pos := d.pos + m, left := d.left[d.tape := d.pos + m])
  }

  /** `m` blocks move out of `n`: why the device stops. */
  function Verdict(n: nat, room: nat, m: nat): Status {
    if m == n then Done else if m == room then PastEnd else PageTable
  }

  lemma {:induction false} AfterOne(d: Device, m: nat)
    ensures After(OneOn(d), m) == After(d, m + 1)
  {
    if m > 0 {
      assert d.left[d.tape := d.pos + 1][d.tape := d.pos + 1 + m] == d.left[d.tape := d.pos + (m + 1)];
    }
  }

  lemma {:induction false} MoveBlocksStops(write: bool, size: nat, base: nat, d: Device, c: Cursor, n: nat)
    requires n > 0 && (d.pos >= size || !ValidEntry(Entry(c)))
    ensures MoveBlocks(write, size, base, d, c, n) == Outcome(d, [], if d.pos >= size then PastEnd else PageTable)
  {
  }

  /** Block by block the device moves the first blocks of what is left, until one of the three ends. */
  lemma {:induction false} MoveBlocksIs(write: bool, size: nat, base: nat, d: Device, c: Cursor, lim: nat, n: nat)
    requires n > 0 && Walled(c, lim)
    ensures var m := Min(n, Min(Room(d, size), |Rest(c, lim)|));
            MoveBlocks(write, size, base, d, c, n) ==
              Outcome(After(d, m), Pairs(write, base + d.pos, Rest(c, lim)[..m]), Verdict(n, Room(d, size), m))
    decreases n
  {
    hide Rest, Pairs, Walled, Advance, MoveBlocks, Entry, ValidEntry, OneOn, After;
    AtWall(c, lim);
    var rest := Rest(c, lim);
    AfterNone(d);
    PairsNone(write, base + d.pos, rest);
    if d.pos >= size || c.index == lim {
      MoveBlocksStops(write, size, base, d, c, n);
    } else {
      AdvanceWalled(c, lim);
      MoveBlocksFirst(write, size, base, d, c, n);
      OneOnIs(d);
      var m := Min(n, Min(Room(d, size), |rest|));
      AfterOne(d, m - 1);
      PairsStep(write, base + d.pos, rest, m);
      if n > 1 {
        MoveBlocksIs(write, size, base, OneOn(d), Advance(c), lim, n - 1);
      } else {
        AfterNone(OneOn(d));
        PairsNone(write, base + d.pos + 1, rest[1..]);
      }
    }
  }

  lemma {:induction false} AfterNone(d: Device)
    ensures After(d, 0) == d
  {
  }

  /** How many of `count` blocks READ or WRITE moves: the tape and the page table may end first. */
  function Moved(g: Geometry, d: Device, offset: nat, count: nat, table: seq<Extent>): nat {
    var offered := |Usable(table)|;
    if offset <= offered then Min(count, Min(Room(d, g.blocks), offered - offset)) else 0
  }

  /**
   READ and WRITE with any offset, count, position and page table: they move the blocks from the position on
   to or from the blocks of the page table from the offset on, as many as there are, and the tape ends up
   behind the last of them.  They are done exactly when they have moved all of them and did not start at the end.
   */
  lemma {:induction false} MoveIs(g: Geometry, d: Device, write: bool, offset: nat, count: nat, table: seq<Extent>)
    requires d.tape > 0
    ensures var r, m := Exec(g, d, Move(write, offset, count), table), Moved(g, d, offset, count, table);
            && r.dev == After(d, m)
            && |r.xfers| == m
            && (forall i :: 0 <= i < m ==>
                  r.xfers[i] == Xfer(write, Base(g, d.tape) + d.pos + i, Usable(table)[offset + i]))
            && (r.status.Done? <==> d.pos < g.blocks && m == count && (count > 0 ==> offset + count <= |Usable(table)|))
            && (r.status.PastEnd? <==>
                || d.pos >= g.blocks
                || (Room(d, g.blocks) == m && m < count && offset <= |Usable(table)|))
  {
    hide Rest, Walled, Skip, MoveBlocks, Usable, After;
    var c, lim, mem := Cursor(table, 0, 0), Wall(table, 0), Usable(table);
    StartWalled(table);
    SkipIs(c, lim, offset);
    AfterNone(d);
    if d.pos < g.blocks && count > 0 && offset <= |mem| {
      MoveBlocksIs(write, g.blocks, Base(g, d.tape), d, Skip(c, offset).value, lim, count);
    }
  }

  // ---------------------------------------------------------------- every command

  /** Where tape `t` stands when it is taken. */
  function Place(d: Device, t: nat): nat {
    if t in d.left then d.left[t] else 0
  }

  /** A tape of the section is inserted, or none, and it stands where its place says. */
  predicate Tidy(g: Geometry, d: Device) {
    d.tape <= g.tapes && d.pos == if d.tape > 0 then Place(d, d.tape) else 0
  }

  /** What a caller can look up before it sends the command. */
  predicate Accepts(g: Geometry, d: Device, op: Op, table: seq<Extent>) {
    match op
    case Take(tape) => d.tape == 0 && 0 < tape <= g.tapes
    case Eject => d.tape > 0
    case Rewind => d.tape > 0
    case FastFwd(blocks) => d.tape > 0 && blocks < g.blocks
    case Move(_, offset, count) =>
      && d.tape > 0 && d.pos < g.blocks
      && (count > 0 ==> d.pos + count <= g.blocks && offset + count <= |Usable(table)|)
    case Invalid => false
  }

  /** The device does a command to the end if and only if it accepts it. */
  lemma {:induction false} DoneIffAccepted(g: Geometry, d: Device, op: Op, table: seq<Extent>)
    ensures Exec(g, d, op, table).status.Done? <==> Accepts(g, d, op, table)
  {
    if op.Move? && d.tape > 0 {
      MoveIs(g, d, op.write, op.offset, op.count, table);
      hide Exec, Usable;
    }
  }

  /** What the command makes of the inserted tape and of its place. */
  function Inserted(d: Device, op: Op, done: bool): nat {
    if done && op.Take? then op.tape else if done && op.Eject? then 0 else d.tape
  }

  function Stands(d: Device, op: Op, r: Outcome): nat {
    match op
    case Rewind => 0
    case FastFwd(blocks) => if r.status.Done? then d.pos + blocks else d.pos
    case _ => d.pos + |r.xfers|
  }

  /**
   Whatever the command: every tape but the inserted one stays where it was left, the inserted one moves by what
   the command says or by the blocks it moved, and a tape that is ejected and taken again is where it was.
   */
  lemma {:induction false} PlacesKept(g: Geometry, d: Device, op: Op, table: seq<Extent>)
    requires Tidy(g, d)
    ensures var r := Exec(g, d, op, table);
            && Tidy(g, r.dev)
            && r.dev.tape == Inserted(d, op, r.status.Done?)
            && (forall t :: t != d.tape ==> Place(r.dev, t) == Place(d, t))
            && (d.tape > 0 ==> Place(r.dev, d.tape) == Stands(d, op, r))
            && (!op.Move? ==> r.xfers == [])
  {
    if op.Move? && d.tape > 0 {
      MoveIs(g, d, op.write, op.offset, op.count, table);
      hide Exec, Usable;
    }
  }

  /** A transfer within a tape of the section and within the page table. */
  ghost predicate Inside(g: Geometry, table: seq<Extent>, x: Xfer) {
    && x.sector in Usable(table)
    && exists t :: 0 < t <= g.tapes && Base(g, t) <= x.position < Base(g, t) + g.blocks
  }

  lemma {:induction false} ExecInside(g: Geometry, d: Device, op: Op, table: seq<Extent>)
    requires Tidy(g, d)
    ensures forall x :: x in Exec(g, d, op, table).xfers ==> Inside(g, table, x)
  {
    var r := Exec(g, d, op, table);
    PlacesKept(g, d, op, table);
    if op.Move? && d.tape > 0 {
      MoveIs(g, d, op.write, op.offset, op.count, table);
      hide Exec, Usable, Base;
      forall x | x in r.xfers
        ensures Inside(g, table, x)
      {
        var i :| 0 <= i < |r.xfers| && r.xfers[i] == x;
        assert 0 < d.tape <= g.tapes && Base(g, d.tape) <= x.position < Base(g, d.tape) + g.blocks;
      }
    }
  }

  /**
   No list of commands, from the driver or not, makes the device touch a block outside the tapes of the
   section, or memory outside the page table.
   */
  lemma {:induction false} RunInside(g: Geometry, d: Device, ops: seq<Op>, table: seq<Extent>)
    requires Tidy(g, d)
    ensures Tidy(g, Run(g, d, ops, table).dev)
    ensures forall x :: x in Run(g, d, ops, table).xfers ==> Inside(g, table, x)
    decreases |ops|
  {
    if ops != [] {
      hide Exec, Inside, Tidy;
      var r := Exec(g, d, ops[0], table);
      PlacesKept(g, d, ops[0], table);
      ExecInside(g, d, ops[0], table);
      RunInside(g, r.dev, ops[1..], table);
    }
  }

  lemma {:induction false} UnknownDecodes(cmdType: nat, arg1: nat, arg2: nat)
    requires cmdType > CMD_WRITE
    ensures Decode(CreateCmd(cmdType, arg1, arg2)) == Invalid
  {
    assert CreateCmd(cmdType, arg1, arg2) == CMD_UNSUPPORTED;
    hide CreateCmd;
  }

  /** A command type that the driver does not know becomes a word that the device refuses, whatever its arguments. */
  lemma {:induction false} UnknownRefused(cmdType: nat, arg1: nat, arg2: nat, g: Geometry, d: Device,
        table: seq<Extent>)
    requires cmdType > CMD_WRITE
    ensures Exec(g, d, Decode(CreateCmd(cmdType, arg1, arg2)), table) == Outcome(d, [], InvalidCmd)
  {
    hide CreateCmd, Decode;
    UnknownDecodes(cmdType, arg1, arg2);
  }
}
