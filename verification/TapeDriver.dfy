/**
 The driver's own loop (`create_start_pos_setup_cmds` and `do_scatter_gather`): it fills the
 page table in place, one scatter entry after the other, and lists the command words.
 */
module TapeDriver {
  import opened TapeCommand
  import opened TapeDevice
  import opened TapeCompiler
  import opened TapeMeaning
  import opened TapeCorrect

  function Words(ops: seq<Op>): (words: seq<nat>)
    ensures |words| == |ops|
  {
    seq(|ops|, i requires 0 <= i < |ops| => Encode(ops[i]))
  }

  lemma {:induction false} WordsAppend(a: seq<Op>, b: seq<Op>)
    ensures Words(a + b) == Words(a) + Words(b)
  {
  }

  /** The request has a sensible number of entries, and the last of them begins inside the section. */
  predicate Accepted(g: Geometry, start: nat, es: seq<Extent>) {
    0 < |es| <= TABLE_SIZE && start + |Flat(es[..|es| - 1])| < g.tapes * g.blocks
  }

  lemma {:induction false} CutPrefix(g: Geometry, start: nat, es: seq<Extent>, k: nat)
    requires g.blocks > 0 && k <= |es|
    ensures |Cut(g, start, es[..k])| <= |Cut(g, start, es)|
    decreases |es|
  {
    if k < |es| {
      CutPrefix(g, start, es[..|es| - 1], k);
      assert es[..|es| - 1][..k] == es[..k];
    } else {
      assert es[..k] == es;
    }
  }

  /** The loop has room in the page table for what an iteration writes. */
  lemma {:induction false} RoomInTable(g: Geometry, write: bool, start: nat, es: seq<Extent>, k: nat)
    requires g.blocks > 0 && GoodEntries(g, es) && k < |es|
    ensures var a := Fold(g, write, start, es[..k]);
            Fold(g, write, start, es[..k + 1]) == Step(g, write, a, es[k])
            && |Step(g, write, a, es[k]).table| <= |Cut(g, start, es)|
  {
    assert es[..k + 1][..k] == es[..k] && es[..k + 1][k] == es[k];
    TableIsCut(g, write, start, es[..k + 1]);
    hide Cut;
    CutPrefix(g, start, es, k + 1);
  }

  /** The tape counter runs past the last tape exactly when an entry begins outside the section. */
  lemma {:induction false} TapeInSection(g: Geometry, write: bool, start: nat, es: seq<Extent>, k: nat)
    requires g.blocks > 0 && GoodEntries(g, es) && k < |es|
    ensures Fold(g, write, start, es[..k]).tape <= g.tapes <==> start + |Flat(es[..k])| < g.tapes * g.blocks
    ensures |Flat(es[..k])| <= |Flat(es[..|es| - 1])|
  {
    hide Fold, Flat;
    var acc, n := Fold(g, write, start, es[..k]), |Flat(es[..k])|;
    FoldTape(g, write, start, es[..k]);
    TapeEndIs(g, g.tapes);
    if acc.tape < g.tapes {
      TapeEndGap(g, acc.tape, g.tapes);
    } else if acc.tape > g.tapes {
      TapeEndGap(g, g.tapes, acc.tape);
    }
    var init := es[..|es| - 1];
    assert init == init[..k] + init[k..] && init[..k] == es[..k];
    FlatAppend(init[..k], init[k..]);
  }

  /** The local variables of the loop. */
  datatype Locals = Locals(ent: nat, startPos: nat, total: nat, left: nat, tape: nat, prev: nat)

  /** What the loop has come to: its variables, the page table so far and the commands so far. */
  ghost function AccOf(v: Locals, table: seq<Extent>, ops: seq<Op>): Acc {
    Acc(table, ops, v.startPos, v.total, v.left, v.tape, v.prev)
  }

  /** The entry reaches over the end of the tape, and the test of its second piece fails (`ent_id > MAX`). */
  predicate Trips(v: Locals, e: Extent) {
    v.total + e.blocks > v.left && v.ent + 1 > TABLE_SIZE
  }

  /** An entry that fills the tape: one or two page-table entries and a READ or WRITE. */
  method FillTape(g: Geometry, write: bool, e: Extent, v: Locals, table: array<Extent>)
    returns (ok: bool, v': Locals, word: nat)
    requires v.total <= v.left <= v.total + e.blocks && v.ent < table.Length
    requires v.left < v.total + e.blocks ==> v.ent + 1 < table.Length
    modifies table
    ensures ok <==> !Trips(v, e)
    ensures forall k :: 0 <= k < table.Length && (k < v.ent || k > v.ent + 1 || (k > v.ent && !ok)) ==>
      table[k] == old(table[k])
    ensures ok ==>
      var overflow := v.total + e.blocks - v.left;
      && word == CreateCmd(if write then CMD_WRITE else CMD_READ, v.startPos, v.left)
      && v' == Locals(v.ent + (if overflow != 0 then 2 else 1), v.ent + 1, overflow, g.blocks, v.tape + 1, v.prev)
      && table[v.ent] == Extent(e.sector, e.blocks - overflow)
      && (if overflow != 0 then table[v.ent + 1] == Extent(e.sector + (e.blocks - overflow), overflow)
          else v.ent + 1 < table.Length ==> table[v.ent + 1] == old(table[v.ent + 1]))
  {
    var overflow := v.total + e.blocks - v.left;
    var inserted := e.blocks - overflow;
    table[v.ent] := Extent(e.sector, inserted);
    word := CreateCmd(if write then CMD_WRITE else CMD_READ, v.startPos, v.left);
    v' := v.(startPos := v.ent + 1, total := overflow, left := g.blocks, tape := v.tape + 1);
    if overflow != 0 {
      v' := v'.(ent := v'.ent + 1);
      if v'.ent > TABLE_SIZE {
        return false, v', word;
      }
      table[v'.ent] := Extent(e.sector + inserted, overflow);
    }
    v' := v'.(ent := v'.ent + 1);
    ok := true;
  }

  /** The pieces that an iteration writes. */
  function NewPieces(v: Locals, e: Extent): seq<Extent>
    requires v.total <= v.left
  {
    if v.total + e.blocks > v.left
    then [Extent(e.sector, v.left - v.total), Extent(e.sector + (v.left - v.total), v.total + e.blocks - v.left)]
    else [e]
  }

  lemma {:induction false} StepIs(g: Geometry, write: bool, v: Locals, e: Extent, table: seq<Extent>, ops: seq<Op>)
    requires v.total <= v.left && v.prev <= v.tape
    ensures var a := AccOf(v, table, ops); var full := v.total + e.blocks >= v.left;
            && Step(g, write, a, e) == Acc(table + NewPieces(v, e), ops + NewOps(write, a, e),
                 if full then |table| + 1 else v.startPos,
                 if full then v.total + e.blocks - v.left else v.total + e.blocks,
                 if full then g.blocks else v.left, if full then v.tape + 1 else v.tape, v.tape)
            && Words(NewOps(write, a, e)) ==
               (if v.prev < v.tape
                then [CreateCmd(CMD_EJECT_TAPE, 0, 0), CreateCmd(CMD_TAKE_TAPE, v.tape, 0), CreateCmd(CMD_REWIND, 0, 0)]
                else [])
               + if full then [CreateCmd(if write then CMD_WRITE else CMD_READ, v.startPos, v.left)] else []
  {
    var a := AccOf(v, table, ops);
    StepOps(g, write, a, e);
    WordsAppend(Change(a), if v.total + e.blocks >= v.left then [Move(write, v.startPos, v.left)] else []);
  }

  /** One iteration: at most a tape change, a command and two page-table entries. */
  method AddEntry(g: Geometry, write: bool, e: Extent, v: Locals, table: array<Extent>, ghost ops: seq<Op>)
    returns (ok: bool, v': Locals, words: seq<nat>)
    requires v.total <= v.left && v.prev <= v.tape && v.ent + |NewPieces(v, e)| <= table.Length
    modifies table
    ensures ok <==> !Trips(v, e)
    ensures forall k :: v.ent + |NewPieces(v, e)| <= k < table.Length ==> table[k] == old(table[k])
    ensures ok ==>
      var a := AccOf(v, old(table[..v.ent]), ops);
      && v'.ent == v.ent + |NewPieces(v, e)|
      && AccOf(v', table[..v'.ent], ops + NewOps(write, a, e)) == Step(g, write, a, e)
      && words == Words(NewOps(write, a, e))
  {
    hide Words, NewOps, Step, CreateCmd;
    v', words, ok := v, [], true;
    ghost var was := table[..v.ent];
    StepIs(g, write, v, e, was, ops);
    if v.prev < v.tape {
      v' := v'.(prev := v.tape);
      words := [CreateCmd(CMD_EJECT_TAPE, 0, 0), CreateCmd(CMD_TAKE_TAPE, v.tape, 0), CreateCmd(CMD_REWIND, 0, 0)];
    }
    if v.total + e.blocks >= v.left {
      var word;
      ok, v', word := FillTape(g, write, e, v', table);
      if !ok {
        return;
      }
      words := words + [word];
    } else {
      table[v.ent] := e;
      v' := v'.(total := v.total + e.blocks, ent := v.ent + 1);
    }
    assert table[..v'.ent] == was + NewPieces(v, e);
  }

  predicate Begins(g: Geometry, start: nat, es: seq<Extent>, k: nat) {
    k < |es| && start + |Flat(es[..k])| < g.tapes * g.blocks
  }

  /** Entry `k` reaches over the end of a tape, and its second piece would come after index 512. */
  predicate TripsAt(g: Geometry, start: nat, es: seq<Extent>, k: nat)
    requires g.blocks > 0
  {
    k < |es| && es[k].blocks > Room(g, start + |Flat(es[..k])|) && |Cut(g, start, es[..k])| + 1 > TABLE_SIZE
  }

  lemma {:induction false} TripsIs(g: Geometry, write: bool, start: nat, es: seq<Extent>, k: nat, v: Locals)
    requires g.blocks > 0 && GoodEntries(g, es) && k < |es|
    requires var a := Fold(g, write, start, es[..k]); v.ent == |a.table| && v.total == a.total && v.left == a.left
    ensures Trips(v, es[k]) <==> TripsAt(g, start, es, k)
    ensures v.total <= v.left && v.ent + |NewPieces(v, es[k])| <= |Cut(g, start, es)|
  {
    hide Flat, Cut, Fold;
    FoldRoom(g, write, start, es[..k]);
    TableIsCut(g, write, start, es[..k]);
    RoomInTable(g, write, start, es, k);
  }

  /** A list that fits the page table never fails the test. */
  lemma {:induction false} FitsNeverTrips(g: Geometry, start: nat, es: seq<Extent>, k: nat)
    requires g.blocks > 0 && |Cut(g, start, es)| <= TABLE_SIZE
    ensures !TripsAt(g, start, es, k)
  {
    if k < |es| {
      CutPrefix(g, start, es, k + 1);
      assert es[..k + 1][..k] == es[..k] && es[..k + 1][k] == es[k];
      hide Flat;
    }
  }

  /**
   `table` is the page table of 512 entries and the memory behind it.  The request writes exactly the first
   `|Cut|` entries, so it stays inside the page table if and only if the cut list has at most 512 pieces.
   */
  method SubmitRequest(g: Geometry, write: bool, start: nat, es: seq<Extent>, table: array<Extent>)
    returns (status: BlkStatus, words: seq<nat>)
    requires g.blocks > 0 && GoodEntries(g, es)
    requires table.Length >= TABLE_SIZE && table.Length >= |Cut(g, start, es)|
    modifies table
    ensures status.Ok? <==> Accepted(g, start, es) && forall k :: !TripsAt(g, start, es, k)
    ensures status.Ok? ==> words == Words(Compile(g, write, start, es))
    ensures status.Ok? ==> table[..|Cut(g, start, es)|] == Cut(g, start, es)
    ensures forall k :: |Cut(g, start, es)| <= k < table.Length ==> table[k] == old(table[k])
  {
    hide Flat, Cut, Words, NewOps, Step, CreateCmd, Room;
    words := [];
    if start >= g.tapes * g.blocks {
      return IoErr, words;
    }
    var tape := start / g.blocks + 1;
    var within := start % g.blocks;
    words := [CreateCmd(CMD_EJECT_TAPE, 0, 0), CreateCmd(CMD_TAKE_TAPE, tape, 0),
              CreateCmd(CMD_REWIND, 0, 0), CreateCmd(CMD_FAST_FWD, within, 0)];
    if |es| == 0 || |es| > TABLE_SIZE {
      return IoErr, words;
    }
    var v := Locals(0, 0, 0, g.blocks - within, tape, tape);
    ghost var ops := [];
    SetupWords(g, start);
    assert AccOf(v, table[..0], ops) == Fold(g, write, start, es[..0]);
    var i := 0;
    while i < |es|
      invariant 0 <= i <= |es| && v.ent <= table.Length
      invariant AccOf(v, table[..v.ent], ops) == Fold(g, write, start, es[..i])
      invariant words == Words(Setup(g, start) + ops)
      invariant forall k :: |Cut(g, start, es)| <= k < table.Length ==> table[k] == old(table[k])
      invariant i > 0 ==> Begins(g, start, es, i - 1)
      invariant forall k :: 0 <= k < i ==> !TripsAt(g, start, es, k)
    {
      TapeInSection(g, write, start, es, i);
      if v.tape > g.tapes {
        return IoErr, words;
      }
      RoomInTable(g, write, start, es, i);
      TripsIs(g, write, start, es, i, v);
      ghost var a := Fold(g, write, start, es[..i]);
      var ok, more;
      ok, v, more := AddEntry(g, write, es[i], v, table, ops);
      if !ok {
        return IoErr, words;
      }
      words := words + more;
      WordsAppend(Setup(g, start) + ops, NewOps(write, a, es[i]));
      assert Setup(g, start) + (ops + NewOps(write, a, es[i])) == Setup(g, start) + ops + NewOps(write, a, es[i]);
      ops := ops + NewOps(write, a, es[i]);
      i := i + 1;
    }
    assert es[..|es|] == es;
    TableIsCut(g, write, start, es);
    if v.total != 0 {
      words := words + [CreateCmd(if write then CMD_WRITE else CMD_READ, v.startPos, v.total)];
    }
    FinishWords(g, write, start, Fold(g, write, start, es));
    status := Ok;
  }

  /** 512 entries of two blocks. */
  function Pairwise(): seq<Extent> {
    seq(TABLE_SIZE, i requires 0 <= i < TABLE_SIZE => Extent(2 * i + 2, 2))
  }

  lemma {:induction false} PairwiseUncut(k: nat)
    requires k < TABLE_SIZE
    ensures var es := Pairwise()[..k]; |Flat(es)| == 2 * k && |Cut(Geometry(2, 1024), 1, es)| == k
  {
    if k > 0 {
      var es := Pairwise()[..k];
      assert es[..k - 1] == Pairwise()[..k - 1] && es[k - 1] == Extent(2 * k, 2);
      PairwiseUncut(k - 1);
      FlatSnoc(es);
      assert Room(Geometry(2, 1024), 1 + 2 * (k - 1)) >= 2;
    }
  }

  /** A request that is accepted and written past the page table: its last entry is cut, which makes 513 pieces. */
  lemma {:induction false} PastTheTable()
    ensures var g, es := Geometry(2, 1024), Pairwise();
            && GoodEntries(g, es) && Accepted(g, 1, es) && (forall k: nat :: !TripsAt(g, 1, es, k))
            && |Cut(g, 1, es)| == TABLE_SIZE + 1
  {
    hide Flat, Cut;
    var g, es := Geometry(2, 1024), Pairwise();
    forall k: nat
      ensures !TripsAt(g, 1, es, k)
    {
      if k < TABLE_SIZE {
        PairwiseUncut(k);
      }
    }
    PairwiseUncut(TABLE_SIZE - 1);
    LastCut(g, 1, es);
  }

  lemma {:induction false} LastCut(g: Geometry, start: nat, es: seq<Extent>)
    requires g.blocks > 0 && es != []
    ensures var init := es[..|es| - 1];
            Cut(g, start, es) == Cut(g, start, init) + CutOne(g, start + |Flat(init)|, es[|es| - 1])
  {
  }

  lemma {:induction false} SetupWords(g: Geometry, start: nat)
    requires g.blocks > 0
    ensures Words(Setup(g, start) + []) ==
            [CreateCmd(CMD_EJECT_TAPE, 0, 0), CreateCmd(CMD_TAKE_TAPE, start / g.blocks + 1, 0),
             CreateCmd(CMD_REWIND, 0, 0), CreateCmd(CMD_FAST_FWD, start % g.blocks, 0)]
  {
  }

  lemma {:induction false} FinishWords(g: Geometry, write: bool, start: nat, acc: Acc)
    requires g.blocks > 0
    ensures Words(Setup(g, start) + Finish(write, acc)) ==
            Words(Setup(g, start) + acc.ops) +
            if acc.total != 0 then [CreateCmd(if write then CMD_WRITE else CMD_READ, acc.startPos, acc.total)] else []
  {
    if acc.total != 0 {
      var op := Move(write, acc.startPos, acc.total);
      WordsAppend(Setup(g, start) + acc.ops, [op]);
      assert Setup(g, start) + (acc.ops + [op]) == Setup(g, start) + acc.ops + [op];
    } else {
      assert acc.ops + [] == acc.ops;
    }
  }

  // ---------------------------------------------------------------- from request to device

  ghost predicate AllFit(ops: seq<Op>) {
    forall i :: 0 <= i < |ops| ==> Fits(ops[i])
  }

  /** Tapes of at most 8192 blocks, as the device has them, are well within this. */
  predicate SmallTapes(g: Geometry) {
    g.tapes < 0x100_0000 && g.blocks < 0x8000
  }

  lemma {:induction false} StepFits(g: Geometry, write: bool, a: Acc, e: Extent)
    requires SmallTapes(g) && AllFit(a.ops) && a.total <= a.left <= g.blocks && a.tape <= g.tapes
    requires a.startPos <= |a.table| && |Step(g, write, a, e).table| <= TABLE_SIZE
    ensures AllFit(Step(g, write, a, e).ops)
  {
    StepOps(g, write, a, e);
    assert AllFit(Change(a));
    assert AllFit(NewOps(write, a, e));
  }

  lemma {:induction false} StartInTable(g: Geometry, write: bool, start: nat, es: seq<Extent>)
    requires g.blocks > 0 && GoodEntries(g, es)
    ensures var acc := Fold(g, write, start, es); acc.startPos <= |acc.table|
  {
    hide Flat, Fold, LoopSegs;
    FoldTable(g, write, start, es);
  }

  lemma {:induction false} NextFits(g: Geometry, write: bool, start: nat, es: seq<Extent>, k: nat)
    requires g.blocks > 0 && GoodEntries(g, es) && SmallTapes(g) && k < |es|
    requires |Cut(g, start, es)| <= TABLE_SIZE && Accepted(g, start, es)
    requires AllFit(Fold(g, write, start, es[..k]).ops)
    ensures AllFit(Fold(g, write, start, es[..k + 1]).ops)
  {
    hide Flat, Cut, Step, Fold, AllFit;
    RoomInTable(g, write, start, es, k);
    TapeInSection(g, write, start, es, k);
    StartInTable(g, write, start, es[..k]);
    StepFits(g, write, Fold(g, write, start, es[..k]), es[k]);
  }

  /** No argument of a command outgrows the bits reserved for it. */
  lemma {:induction false} FoldFits(g: Geometry, write: bool, start: nat, es: seq<Extent>, k: nat)
    requires g.blocks > 0 && GoodEntries(g, es) && SmallTapes(g) && k <= |es|
    requires |Cut(g, start, es)| <= TABLE_SIZE && Accepted(g, start, es)
    ensures AllFit(Fold(g, write, start, es[..k]).ops)
  {
    hide Flat, Cut;
    if k > 0 {
      FoldFits(g, write, start, es, k - 1);
      NextFits(g, write, start, es, k - 1);
    }
  }

  lemma {:induction false} CompileFits(g: Geometry, write: bool, start: nat, es: seq<Extent>)
    requires g.blocks > 0 && GoodEntries(g, es) && SmallTapes(g)
    requires |Cut(g, start, es)| <= TABLE_SIZE && Accepted(g, start, es)
    ensures AllFit(Compile(g, write, start, es))
  {
    hide Flat, Cut, Step, Fold;
    var acc := Fold(g, write, start, es);
    assert es[..|es|] == es;
    FoldFits(g, write, start, es, |es|);
    FoldTable(g, write, start, es);
    TableIsCut(g, write, start, es);
    TapeInSection(g, write, start, es, 0);
    FirstTape(g, start, es);
    assert acc.table[..|acc.table|] == acc.table;
    assert AllFit(Setup(g, start));
    assert AllFit(Finish(write, acc));
  }

  lemma {:induction false} FirstTape(g: Geometry, start: nat, es: seq<Extent>)
    requires g.blocks > 0 && Accepted(g, start, es)
    ensures TapeOf(g, start) <= g.tapes && WithinTape(g, start) < g.blocks
  {
    TapeSplit(g, start);
    TapeEndIs(g, g.tapes);
    TapeBound(g, start / g.blocks, g.tapes);
  }

  lemma {:induction false} WordsRun(g: Geometry, d: Device, ops: seq<Op>, table: seq<Extent>)
    requires AllFit(ops)
    ensures RunWords(g, d, Words(ops), table) == Run(g, d, ops, table)
  {
    hide Run;
    forall i | 0 <= i < |ops|
      ensures Decode(Words(ops)[i]) == ops[i]
    {
      EncodeDecode(ops[i]);
    }
    var words := Words(ops);
    assert seq(|words|, i requires 0 <= i < |words| => Decode(words[i])) == ops;
  }

  /** The device, given the words and the page table that the driver wrote, does what the request asks. */
  predicate Served(write: bool, g: Geometry, d: Device, words: seq<nat>, start: nat, es: seq<Extent>,
        table: seq<Extent>) {
    var r := RunWords(g, d, words, table);
    r.status.Done? && r.xfers == Pairs(write, start, Flat(es))
  }

  /**
   From the request to the blocks moved, down to the bits of the command words: a handled request is served,
   and a request on distinct memory that is served is handled.
   */
  lemma {:induction false} ServedIffHandled(g: Geometry, d: Device, write: bool, start: nat, es: seq<Extent>,
        table: seq<Extent>)
    requires Request(g, start, es, table) && SmallTapes(g) && |es| <= TABLE_SIZE
    ensures var words := Words(Compile(g, write, start, es));
            && (Handled(g, start, es) ==> Served(write, g, d, words, start, es, table))
            && (Distinct(Flat(es)) && Served(write, g, d, words, start, es, table) ==> Handled(g, start, es))
  {
    hide Flat, Cut, Run, RunWords, Compile, Words, Handled, Distinct;
    FlatSnoc(es);
    CompileFits(g, write, start, es);
    WordsRun(g, d, Compile(g, write, start, es), table);
    CorrectIffHandled(g, d, write, start, es, table);
  }
}
