/**
 The 32-bit command words of the tape device: how the driver packs them
 (`create_tapedev_cmd`) and how the device unpacks them (`hw/misc/tapedev.c`).  The fields
 of a word do not overlap, so `|` is written as `+`.
 */
module TapeCommand {

  const CMD_TAKE_TAPE: nat := 0
  const CMD_EJECT_TAPE: nat := 1
  const CMD_REWIND: nat := 2
  const CMD_FAST_FWD: nat := 3
  const CMD_READ: nat := 4
  const CMD_WRITE: nat := 5
  const CMD_UNSUPPORTED: nat := 0xffff_ffff

  const UINT32: nat := 0x1_0000_0000

  /** What the driver reports of a request: `BLK_STS_OK` or `BLK_STS_IOERR`. */
  datatype BlkStatus = Ok | IoErr

  /** A command as driver and device understand it. */
  datatype Op =
    | Take(tape: nat)
    | Eject
    | Rewind
    | FastFwd(blocks: nat)
    | Move(write: bool, offset: nat, count: nat)  // READ or WRITE
    | Invalid

  /** `arg << 8` on 32 bits. */
  function Body(arg: nat): nat {
    arg * 0x100 % UINT32
  }

  /** `create_tapedev_cmd` */
  function CreateCmd(cmdType: nat, arg1: nat, arg2: nat): nat {
    if cmdType == CMD_TAKE_TAPE then Body(arg1) + CMD_TAKE_TAPE
    else if cmdType == CMD_EJECT_TAPE then CMD_EJECT_TAPE
    else if cmdType == CMD_REWIND then CMD_REWIND
    else if cmdType == CMD_FAST_FWD then Body(arg1) + CMD_FAST_FWD
    else if cmdType == CMD_READ || cmdType == CMD_WRITE then
      arg1 % 0x200 * 0x80_0000 + arg2 % 0x8000 * 0x100 + cmdType
    else CMD_UNSUPPORTED
  }

  function Encode(op: Op): nat {
    match op
    case Take(tape) => CreateCmd(CMD_TAKE_TAPE, tape, 0)
    case Eject => CreateCmd(CMD_EJECT_TAPE, 0, 0)
    case Rewind => CreateCmd(CMD_REWIND, 0, 0)
    case FastFwd(blocks) => CreateCmd(CMD_FAST_FWD, blocks, 0)
    case Move(write, offset, count) => CreateCmd(if write then CMD_WRITE else CMD_READ, offset, count)
    case Invalid => CMD_UNSUPPORTED
  }

  /** The device splits the word into its command byte and the fields above it. */
  function Decode(word: nat): Op {
    var cmd := word % 0x100;
    var arg := word / 0x100 % 0x100_0000;
    var count := word / 0x100 % 0x8000;
    var offset := word / 0x80_0000 % 0x200;
    if cmd == CMD_TAKE_TAPE then Take(arg)
    else if cmd == CMD_EJECT_TAPE then Eject
    else if cmd == CMD_REWIND then Rewind
    else if cmd == CMD_FAST_FWD then FastFwd(arg)
    else if cmd == CMD_READ then Move(false, offset, count)
    else if cmd == CMD_WRITE then Move(true, offset, count)
    else Invalid
  }

  /** The arguments of `op` fit the bits reserved for them. */
  predicate Fits(op: Op) {
    match op
    case Take(tape) => tape < 0x100_0000
    case FastFwd(blocks) => blocks < 0x100_0000
    case Move(_, offset, count) => offset < 0x200 && count < 0x8000
    case _ => true
  }

  lemma {:induction false} MoveFields(cmdType: nat, offset: nat, count: nat)
    requires cmdType < 0x100 && offset < 0x200 && count < 0x8000
    ensures var word := offset * 0x80_0000 + count * 0x100 + cmdType;
            word % 0x100 == cmdType && word / 0x100 % 0x8000 == count && word / 0x80_0000 % 0x200 == offset
  {
    var word := offset * 0x80_0000 + count * 0x100 + cmdType;
    assert word / 0x100 == offset * 0x8000 + count;
    assert word / 0x80_0000 == offset;
  }

  lemma {:induction false} BodyFields(cmdType: nat, arg: nat)
    requires cmdType < 0x100
    ensures var word := Body(arg) + cmdType;
            word % 0x100 == cmdType && word / 0x100 % 0x100_0000 == arg % 0x100_0000
  {
    var low := arg % 0x100_0000;
    var high := arg / 0x100_0000;
    assert arg * 0x100 == high * UINT32 + low * 0x100;
    assert Body(arg) == low * 0x100;
    assert (low * 0x100 + cmdType) / 0x100 == low;
  }

  lemma {:induction false} MoveDecodes(write: bool, offset: nat, count: nat)
    ensures Decode(Encode(Move(write, offset, count))) == Move(write, offset % 0x200, count % 0x8000)
  {
    var cmd := if write then CMD_WRITE else CMD_READ;
    MoveFields(cmd, offset % 0x200, count % 0x8000);
    assert Encode(Move(write, offset, count)) == offset % 0x200 * 0x80_0000 + count % 0x8000 * 0x100 + cmd;
    hide Encode, CreateCmd;
  }

  lemma {:induction false} BodyDecodes(op: Op, cmd: nat, arg: nat)
    requires (op == Take(arg) && cmd == CMD_TAKE_TAPE) || (op == FastFwd(arg) && cmd == CMD_FAST_FWD)
    ensures Decode(Encode(op)) == if op.Take? then Take(arg % 0x100_0000) else FastFwd(arg % 0x100_0000)
  {
    BodyFields(cmd, arg);
    assert Encode(op) == Body(arg) + cmd;
    hide Encode, CreateCmd, Body;
  }

  /** The device reads back the command that the driver meant if and only if its arguments fit their bits. */
  lemma {:induction false} EncodeDecode(op: Op)
    ensures Decode(Encode(op)) == op <==> Fits(op)
  {
    match op
    case Take(tape) => BodyDecodes(op, CMD_TAKE_TAPE, tape); hide Encode, Decode;
    case FastFwd(blocks) => BodyDecodes(op, CMD_FAST_FWD, blocks); hide Encode, Decode;
    case Move(write, offset, count) => MoveDecodes(write, offset, count); hide Encode, Decode;
    case _ =>
  }
}
