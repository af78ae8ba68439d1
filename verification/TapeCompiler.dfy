/**
 How the tape driver turns a request into commands (`tapedev_main.c`): a range of sectors and a
 scatter list become a page table and a list of EJECT, TAKE_TAPE, REWIND, FAST_FWD and
 READ or WRITE commands.  Block size 512, so a sector is a block.
 */
module TapeCompiler {
  import opened TapeCommand
  import opened TapeDevice

  /** The variables of the loop of `do_scatter_gather`. */
  datatype Acc = Acc(table: seq<Extent>, ops: seq<Op>, startPos: nat, total: nat, left: nat, tape: nat, prev: nat)

  /** `calc_start_pos_within_section`: tapes are counted from 1. */
  function TapeOf(g: Geometry, start: nat): nat
    requires g.blocks > 0
  {
    start / g.blocks + 1
  }

  function WithinTape(g: Geometry, start: nat): nat
    requires g.blocks > 0
  {
    start % g.blocks
  }

  /** `create_start_pos_setup_cmds` */
  function Setup(g: Geometry, start: nat): seq<Op>
    requires g.blocks > 0
  {
    [Eject, Take(TapeOf(g, start)), Rewind, FastFwd(WithinTape(g, start))]
  }

  function Begin(g: Geometry, start: nat): Acc
    requires g.blocks > 0
  {
    Acc([], [], 0, 0, g.blocks - WithinTape(g, start), TapeOf(g, start), TapeOf(g, start))
  }

  /** The commands that change to the next tape. */
  function Change(acc: Acc): seq<Op> {
    if acc.prev < acc.tape then [Eject, Take(acc.tape), Rewind] else []
  }

  /** One iteration of `for_each_sg`. */
  function Step(g: Geometry, write: bool, acc: Acc, e: Extent): Acc
    requires acc.total <= acc.left
  {
    var ops := acc.ops + Change(acc);
    if acc.total + e.blocks >= acc.left then
      var overflow := acc.total + e.blocks - acc.left;
      var inserted := e.blocks - overflow;
      Acc(acc.table + [Extent(e.sector, inserted)]
          + (if overflow != 0 then [Extent(e.sector + inserted, overflow)] else []),
          ops + [Move(write, acc.startPos, acc.left)],
          |acc.table| + 1, overflow, g.blocks, acc.tape + 1, acc.tape)
    else
      acc.(table := acc.table + [e], ops := ops, total := acc.total + e.blocks, prev := acc.tape)
  }

  /** Every scatter entry is between one block and one tape long and does not start at address 0. */
  predicate GoodEntries(g: Geometry, es: seq<Extent>) {
    forall i :: 0 <= i < |es| ==> ValidEntry(es[i]) && es[i].blocks <= g.blocks
  }

  function Fold(g: Geometry, write: bool, start: nat, es: seq<Extent>): (acc: Acc)
    requires g.blocks > 0 && GoodEntries(g, es)
    ensures acc.total < acc.left <= g.blocks && 1 <= acc.prev <= acc.tape <= acc.prev + 1
    ensures acc.prev < acc.tape ==> acc.left == g.blocks
  {
    if es == [] then Begin(g, start) else Step(g, write, Fold(g, write, start, es[..|es| - 1]), es[|es| - 1])
  }

  /** The commands after the loop: what is left goes into one more READ or WRITE. */
  function Finish(write: bool, acc: Acc): seq<Op> {
    acc.ops + if acc.total != 0 then [Move(write, acc.startPos, acc.total)] else []
  }

  function Compile(g: Geometry, write: bool, start: nat, es: seq<Extent>): seq<Op>
    requires g.blocks > 0 && GoodEntries(g, es)
  {
    Setup(g, start) + Finish(write, Fold(g, write, start, es))
  }

  // ---------------------------------------------------------------- what a request means

  /** The number of blocks from position `p` to the end of its tape. */
  function Room(g: Geometry, p: nat): nat
    requires g.blocks > 0
  {
    g.blocks - p % g.blocks
  }

  /** An entry that starts at position `p`, cut at the end of the tape. */
  function CutOne(g: Geometry, p: nat, e: Extent): seq<Extent>
    requires g.blocks > 0
  {
    var room := Room(g, p);
    if e.blocks <= room then [e] else [Extent(e.sector, room), Extent(e.sector + room, e.blocks - room)]
  }

  /** The scatter list cut at the ends of the tapes. */
  function Cut(g: Geometry, start: nat, es: seq<Extent>): seq<Extent>
    requires g.blocks > 0
  {
    if es == [] then [] else
    var init := es[..|es| - 1];
    Cut(g, start, init) + CutOne(g, start + |Flat(init)|, es[|es| - 1])
  }

  /** The offset, within a request of `n` blocks, of the first block on the last tape it touches. */
  function LastTapeOffset(g: Geometry, start: nat, n: nat): nat
    requires g.blocks > 0 && n > 0
  {
    var last := start + n - 1;
    var first := last - last % g.blocks;
    if first > start then first - start else 0
  }

  /** Piece `i` ends within the first `bound` blocks. */
  predicate EndsWithin(pieces: seq<Extent>, i: nat, bound: nat) {
    i < |pieces| && |Flat(pieces[..i + 1])| <= bound
  }

  /** Every piece that lies before offset `bound` is one block long. */
  predicate SinglesBefore(pieces: seq<Extent>, bound: nat) {
    forall i :: 0 <= i < |pieces| && EndsWithin(pieces, i, bound) ==> pieces[i].blocks == 1
  }

  /**
   When the driver gets a request right.  A request that stays on one tape always qualifies.
   Otherwise the last scatter entry must not reach over the end of a tape, because no tape
   change follows it, and all memory before the last tape must come in single blocks, because
   the driver gives the offset as a number of page-table entries while the device counts blocks.
   */
  predicate Handled(g: Geometry, start: nat, es: seq<Extent>)
    requires g.blocks > 0 && es != [] && |Flat(es)| > 0
  {
    var n := |Flat(es)|;
    var bound := LastTapeOffset(g, start, n);
    bound <= n - es[|es| - 1].blocks && SinglesBefore(Cut(g, start, es), bound)
  }

  // ---------------------------------------------------------------- arithmetic

  /** The position just after tape `t`; recursive, so that proofs about many tapes need no products. */
  function TapeEnd(g: Geometry, t: nat): nat {
    if t == 0 then 0 else TapeEnd(g, t - 1) + g.blocks
  }

  lemma {:induction false} TapeEndIs(g: Geometry, t: nat)
    ensures TapeEnd(g, t) == t * g.blocks
  {
    if t > 0 {
      TapeEndIs(g, t - 1);
      assert t * g.blocks == (t - 1) * g.blocks + g.blocks;
    }
  }

  lemma {:induction false} TapeEndGap(g: Geometry, s: nat, t: nat)
    requires s < t
    ensures TapeEnd(g, s) + g.blocks <= TapeEnd(g, t)
  {
    if s < t - 1 {
      TapeEndGap(g, s, t - 1);
    }
  }

  lemma {:induction false} TapeBound(g: Geometry, t: nat, tapes: nat)
    requires TapeEnd(g, t) < TapeEnd(g, tapes)
    ensures t < tapes
  {
    if t > tapes {
      TapeEndGap(g, tapes, t);
    }
  }

  /** Every position lies on the tape that the driver computes, where the driver says. */
  lemma {:induction false} TapeSplit(g: Geometry, p: nat)
    requires g.blocks > 0
    ensures p == TapeEnd(g, p / g.blocks) + p % g.blocks && p % g.blocks < g.blocks
  {
    TapeEndIs(g, p / g.blocks);
  }

  /** There is only one way to split a position into full tapes and a rest. */
  lemma {:induction false} SplitUnique(g: Geometry, p: nat, t: nat, r: nat)
    requires g.blocks > 0 && p == TapeEnd(g, t) + r && r < g.blocks
    ensures p / g.blocks == t && p % g.blocks == r
  {
    TapeSplit(g, p);
    var t' := p / g.blocks;
    if t < t' {
      TapeEndGap(g, t, t');
    } else if t' < t {
      TapeEndGap(g, t', t);
    }
  }

  lemma {:induction false} RoomIs(g: Geometry, p: nat, t: nat, r: nat)
    requires g.blocks > 0 && t > 0 && p + r == TapeEnd(g, t) && 0 < r <= g.blocks
    ensures Room(g, p) == r
  {
    SplitUnique(g, p, t - 1, g.blocks - r);
  }
}
