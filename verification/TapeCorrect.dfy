/**
 When the driver gets a request right.  The commands of a request run to their end and move
 block `start + k` of the section to or from block `k` of the scatter list if and only if
 the request is `Handled`.
 */
module TapeCorrect {
  import opened TapeCommand
  import opened TapeDevice
  import opened TapeCompiler
  import opened TapeMeaning

  /** A request that the block layer may hand to the driver, and the page table that the driver left in memory. */
  predicate Request(g: Geometry, start: nat, es: seq<Extent>, table: seq<Extent>) {
    && g.blocks > 0 && GoodEntries(g, es) && es != [] && |Flat(es)| > 0
    && start + |Flat(es)| <= g.tapes * g.blocks && Holds(table, Cut(g, start, es))
  }

  /** The commands run to their end and move exactly the blocks asked for. */
  predicate Correct(write: bool, g: Geometry, d: Device, ops: seq<Op>, start: nat, es: seq<Extent>,
        table: seq<Extent>) {
    var r := Run(g, d, ops, table);
    r.status.Done? && r.xfers == Pairs(write, start, Flat(es))
  }

  /** The last scatter entry reached over the end of a tape. */
  predicate Spills(acc: Acc) {
    acc.total != 0 && acc.prev < acc.tape
  }

  lemma {:induction false} RunPastEnd(g: Geometry, d: Device, write: bool, off: nat, count: nat, table: seq<Extent>)
    requires d.tape > 0 && d.pos >= g.blocks
    ensures Run(g, d, [Move(write, off, count)], table).status == PastEnd
  {
  }

  lemma {:induction false} RunLast(g: Geometry, d: Device, write: bool, start: nat, n: nat, a: Acc,
        table: seq<Extent>, pieces: seq<Extent>)
    requires a.total != 0 && TapeFacts(g, start, n, a) && DeviceAt(g, a, d) && 1 <= a.prev <= a.tape
    requires a.startPos <= n - a.total && n == |Flat(pieces)| && Holds(table, pieces)
    ensures var r := Run(g, d, [Move(write, a.startPos, a.total)], table);
            if a.prev < a.tape then r.status == PastEnd
            else
              && r.status.Done?
              && r.xfers == Pairs(write, start + (n - a.total), Slice(Flat(pieces), a.startPos, a.total))
  {
    if a.prev < a.tape {
      RunPastEnd(g, d, write, a.startPos, a.total, table);
    } else {
      RunMove(g, d, write, a.startPos, a.total, a.left, start + (n - a.total), table, pieces);
    }
  }

  /** What the commands of a request do: they stop at the end of a tape, or move what they say. */
  lemma {:induction false} RunCompiled(g: Geometry, d: Device, write: bool, start: nat, es: seq<Extent>,
        table: seq<Extent>)
    requires Request(g, start, es, table)
    ensures var r := Run(g, d, Compile(g, write, start, es), table);
            if Spills(Fold(g, write, start, es)) then r.status == PastEnd
            else r.status.Done? && r.xfers == Moved(write, AllSegs(g, write, start, es), start, Flat(es))
  {
    hide Moved, Sum, Flat, Run, Exec, Setup, Step, NewOps, NewSegs, LoopSegs, Cut;
    var acc, segs := Fold(g, write, start, es), LoopSegs(g, write, start, es);
    var ops := Setup(g, start) + acc.ops;
    assert es[..|es|] == es;
    TapeEndIs(g, g.tapes);
    RunLoop(g, d, write, start, es, |es|, table);
    var r := Run(g, d, ops, table);
    if acc.total == 0 {
      assert Setup(g, start) + (acc.ops + []) == ops;
      assert segs + [] == segs;
    } else {
      var last := [Move(write, acc.startPos, acc.total)];
      FoldTape(g, write, start, es);
      FoldTable(g, write, start, es);
      StartBound(g, write, start, es);
      CutFlat(g, start, es);
      RunLast(g, r.dev, write, start, |Flat(es)|, acc, table, Cut(g, start, es));
      RunAppend(g, d, ops, last, table);
      assert Setup(g, start) + (acc.ops + last) == ops + last;
      MovedSnoc(write, segs, Seg(acc.startPos, acc.total), start, Flat(es));
    }
  }

  // ---------------------------------------------------------------- offsets in blocks and in entries

  /** Every command's offset is the number of blocks moved before it. */
  predicate InStep(segs: seq<Seg>) {
    forall k :: 0 <= k < |segs| ==> segs[k].off == Sum(segs[..k])
  }

  /** Every command moves something and stays within the `n` blocks of the request. */
  predicate Within(segs: seq<Seg>, n: nat) {
    forall k :: 0 <= k < |segs| ==> segs[k].n > 0 && segs[k].off + segs[k].n <= n
  }

  predicate Distinct(mem: seq<nat>) {
    forall i, j :: 0 <= i < j < |mem| ==> mem[i] != mem[j]
  }

  lemma {:induction false} MovedLength(write: bool, segs: seq<Seg>, start: nat, mem: seq<nat>)
    requires Within(segs, |mem|)
    ensures |Moved(write, segs, start, mem)| == Sum(segs)
  {
    if segs != [] {
      MovedLength(write, segs[..|segs| - 1], start, mem);
    }
  }

  lemma {:induction false} PairsJoin(write: bool, p: nat, mem: seq<nat>, a: nat, b: nat)
    requires a <= b <= |mem|
    ensures Pairs(write, p, mem[..b]) == Pairs(write, p, mem[..a]) + Pairs(write, p + a, mem[a..b])
      && |Pairs(write, p, mem[..a])| == a
  {
    assert mem[..b] == mem[..a] + mem[a..b];
  }

  lemma {:induction false} PairsFirst(write: bool, p: nat, mem: seq<nat>, a: nat, b: nat, n: nat)
    requires n > 0 && a + n <= |mem| && b + n <= |mem| && Distinct(mem)
    ensures Pairs(write, p, mem[a..a + n]) == Pairs(write, p, mem[b..b + n]) <==> a == b
  {
    assert Pairs(write, p, mem[a..a + n])[0] == Xfer(write, p, mem[a]);
    assert Pairs(write, p, mem[b..b + n])[0] == Xfer(write, p, mem[b]);
  }

  lemma {:induction false} SplitEqual<T>(a: seq<T>, b: seq<T>, c: seq<T>, d: seq<T>)
    requires |a| == |c|
    ensures a + b == c + d <==> a == c && b == d
  {
    if a + b == c + d {
      assert a == (a + b)[..|a|] && c == (c + d)[..|a|];
      assert b == (a + b)[|a|..] && d == (c + d)[|a|..];
    }
  }

  lemma {:induction false} InStepSnoc(segs: seq<Seg>)
    requires segs != []
    ensures var init, s := segs[..|segs| - 1], segs[|segs| - 1]; InStep(segs) <==> InStep(init) && s.off == Sum(init)
  {
    var init := segs[..|segs| - 1];
    forall k | 0 <= k < |init|
      ensures init[..k] == segs[..k]
    {
    }
    if InStep(init) && segs[|segs| - 1].off == Sum(init) {
      forall k | 0 <= k < |segs|
        ensures segs[k].off == Sum(segs[..k])
      {
        if k < |init| {
          assert init[k].off == Sum(init[..k]);
        }
      }
    }
  }

  lemma {:induction false} MovedLast(write: bool, segs: seq<Seg>, start: nat, mem: seq<nat>)
    requires segs != [] && segs[|segs| - 1].off + segs[|segs| - 1].n <= |mem|
    ensures var init, s := segs[..|segs| - 1], segs[|segs| - 1];
            && Sum(segs) == Sum(init) + s.n
            && Moved(write, segs, start, mem) == Moved(write, init, start, mem)
                + Pairs(write, start + Sum(init), mem[s.off..s.off + s.n])
  {
    hide Pairs, Sum, Moved;
    var init, s := segs[..|segs| - 1], segs[|segs| - 1];
    assert segs == init + [s];
    SumSnoc(init, s);
    MovedSnoc(write, init, s, start, mem);
    assert Slice(mem, s.off, s.n) == mem[s.off..s.off + s.n];
  }

  lemma {:induction false} MovedInStepNext(write: bool, segs: seq<Seg>, start: nat, mem: seq<nat>)
    requires segs != [] && Within(segs, |mem|) && Sum(segs) <= |mem| && Distinct(mem)
    requires var init := segs[..|segs| - 1];
             Sum(init) <= |mem| && (Moved(write, init, start, mem) == Pairs(write, start, mem[..Sum(init)]) <==>
                 InStep(init))
    ensures Moved(write, segs, start, mem) == Pairs(write, start, mem[..Sum(segs)]) <==> InStep(segs)
  {
    hide Moved, Sum, InStep, Pairs;
    var init, s := segs[..|segs| - 1], segs[|segs| - 1];
    var pre := Sum(init);
    MovedLast(write, segs, start, mem);
    assert Within(init, |mem|);
    MovedLength(write, init, start, mem);
    PairsJoin(write, start, mem, pre, pre + s.n);
    PairsFirst(write, start + pre, mem, s.off, pre, s.n);
    SplitEqual(Moved(write, init, start, mem), Pairs(write, start + pre, mem[s.off..s.off + s.n]),
               Pairs(write, start, mem[..pre]), Pairs(write, start + pre, mem[pre..pre + s.n]));
    InStepSnoc(segs);
  }

  /** On distinct memory blocks, the commands move the right ones exactly when their offsets count blocks. */
  lemma {:induction false} MovedInStep(write: bool, segs: seq<Seg>, start: nat, mem: seq<nat>)
    requires Within(segs, |mem|) && Sum(segs) <= |mem| && Distinct(mem)
    ensures Moved(write, segs, start, mem) == Pairs(write, start, mem[..Sum(segs)]) <==> InStep(segs)
  {
    if segs != [] {
      MovedInStep(write, segs[..|segs| - 1], start, mem);
      MovedInStepNext(write, segs, start, mem);
    }
  }

  lemma {:induction false} InStepMovesNext(write: bool, segs: seq<Seg>, start: nat, mem: seq<nat>)
    requires segs != [] && Within(segs, |mem|) && Sum(segs) <= |mem| && InStep(segs)
    requires var init := segs[..|segs| - 1];
             Sum(init) <= |mem| && Moved(write, init, start, mem) == Pairs(write, start, mem[..Sum(init)])
    ensures Moved(write, segs, start, mem) == Pairs(write, start, mem[..Sum(segs)])
  {
    hide Moved, Sum, Pairs, InStep;
    InStepSnoc(segs);
    MovedLast(write, segs, start, mem);
    var pre := Sum(segs[..|segs| - 1]);
    PairsJoin(write, start, mem, pre, pre + segs[|segs| - 1].n);
  }

  /** On any memory, commands whose offsets count blocks move the right ones. */
  lemma {:induction false} InStepMoves(write: bool, segs: seq<Seg>, start: nat, mem: seq<nat>)
    requires Within(segs, |mem|) && Sum(segs) <= |mem| && InStep(segs)
    ensures Moved(write, segs, start, mem) == Pairs(write, start, mem[..Sum(segs)])
  {
    if segs != [] {
      InStepSnoc(segs);
      InStepMoves(write, segs[..|segs| - 1], start, mem);
      InStepMovesNext(write, segs, start, mem);
    }
  }

  lemma {:induction false} SumPrefix(segs: seq<Seg>, k: nat)
    requires k < |segs|
    ensures Sum(segs[..k]) + segs[k].n <= Sum(segs)
  {
    var init := segs[..|segs| - 1];
    if k < |init| {
      SumPrefix(init, k);
      assert init[..k] == segs[..k];
    }
  }

  lemma {:induction false} SegsWithin(segs: seq<Seg>, table: seq<Extent>, n: nat)
    requires SegsOk(segs, table) && AllValid(table) && Sum(segs) <= n
    ensures Within(segs, n)
  {
    forall k | 0 <= k < |segs|
      ensures segs[k].n > 0 && segs[k].off + segs[k].n <= n
    {
      ValidLength(table[..segs[k].off]);
      SumPrefix(segs, k);
    }
  }

  predicate Singles(table: seq<Extent>) {
    forall i :: 0 <= i < |table| ==> table[i].blocks == 1
  }

  /** As many entries as blocks: every entry is one block. */
  lemma {:induction false} SinglesCount(table: seq<Extent>)
    requires AllValid(table)
    ensures |table| <= |Flat(table)|
    ensures |Flat(table)| == |table| <==> Singles(table)
  {
    if table != [] {
      var rest := table[1..];
      SinglesCount(rest);
      assert |Flat(table)| == table[0].blocks + |Flat(rest)|;
      assert Singles(table) <==> table[0].blocks == 1 && Singles(rest) by {
        assert forall i :: 0 < i < |table| ==> table[i] == rest[i - 1];
        assert forall i :: 0 <= i < |rest| ==> rest[i] == table[i + 1];
      }
    }
  }

  lemma {:induction false} FlatMonotone(table: seq<Extent>, i: nat, j: nat)
    requires AllValid(table) && i <= j <= |table|
    ensures |Flat(table[..i])| + (j - i) <= |Flat(table[..j])|
  {
    assert table[..j] == table[..i] + table[i..j];
    FlatAppend(table[..i], table[i..j]);
    SinglesCount(table[i..j]);
  }

  /** The offsets all count blocks as soon as the last one does. */
  lemma {:induction false} LastDecides(segs: seq<Seg>, table: seq<Extent>)
    requires SegsOk(segs, table) && AllValid(table) && segs != []
    ensures InStep(segs) <==> Singles(table[..segs[|segs| - 1].off])
  {
    var last := segs[|segs| - 1].off;
    SinglesCount(table[..last]);
    if Singles(table[..last]) {
      forall k | 0 <= k < |segs|
        ensures segs[k].off == Sum(segs[..k])
      {
        OffsetsGrow(segs, table, k);
        var off := segs[k].off;
        assert forall i :: 0 <= i < off ==> table[..off][i] == table[..last][i];
        SinglesCount(table[..off]);
      }
    }
  }

  lemma {:induction false} OffsetsGrow(segs: seq<Seg>, table: seq<Extent>, k: nat)
    requires SegsOk(segs, table) && AllValid(table) && k < |segs|
    ensures segs[k].off <= segs[|segs| - 1].off
  {
    var last := |segs| - 1;
    if k < last && segs[k].off > segs[last].off {
      assert segs[..last][..k] == segs[..k];
      SumPrefix(segs[..last], k);
      FlatMonotone(table, segs[last].off, segs[k].off);
    }
  }

  // ---------------------------------------------------------------- the last tape of a request

  /** A tape that is not yet full from its beginning is the first one. */
  lemma {:induction false} FoldFirst(g: Geometry, write: bool, start: nat, es: seq<Extent>)
    requires g.blocks > 0 && GoodEntries(g, es)
    ensures var acc := Fold(g, write, start, es); acc.left < g.blocks ==> acc.total == |Flat(es)|
  {
    if es != [] {
      FoldFirst(g, write, start, es[..|es| - 1]);
      FlatSnoc(es);
    }
  }

  /** Commands up to `pre` blocks ended at a tape of which `room` blocks were left, and `n` of these follow. */
  lemma {:induction false} LastTapeIs(g: Geometry, start: nat, pre: nat, n: nat, room: nat, tape: nat)
    requires g.blocks > 0 && tape > 0 && start + pre + room == TapeEnd(g, tape)
    requires 0 < n <= room <= g.blocks && (room < g.blocks ==> pre == 0)
    ensures LastTapeOffset(g, start, pre + n) == pre
  {
    SplitUnique(g, start + pre + n - 1, tape - 1, g.blocks - room + n - 1);
  }

  /** The loop's variables before the last iteration, and what it did. */
  lemma {:induction false} LastStep(g: Geometry, write: bool, start: nat, es: seq<Extent>) returns (a: Acc, n: nat)
    requires g.blocks > 0 && GoodEntries(g, es) && es != []
    ensures var e, acc, segs := es[|es| - 1], Fold(g, write, start, es), LoopSegs(g, write, start, es);
            && TapeFacts(g, start, n, a) && acc == Step(g, write, a, e) && n + e.blocks == |Flat(es)|
            && (a.left < g.blocks ==> a.total == n)
            && (a.total + e.blocks >= a.left ==>
                segs != [] && segs[|segs| - 1].n == a.left && Sum(segs[..|segs| - 1]) == n - a.total)
  {
    var init := es[..|es| - 1];
    a, n := Fold(g, write, start, init), |Flat(init)|;
    FoldTape(g, write, start, init);
    FoldFirst(g, write, start, init);
    FoldTable(g, write, start, init);
    FlatSnoc(es);
    var before := LoopSegs(g, write, start, init);
    assert LoopSegs(g, write, start, es) == before + NewSegs(a, es[|es| - 1]);
    if a.total + es[|es| - 1].blocks >= a.left {
      assert LoopSegs(g, write, start, es)[..|before|] == before;
    }
  }

  /**
   The last READ or WRITE starts where the last tape does, and the request spills if that is inside the last
   entry.
   */
  lemma {:induction false} LastSeg(g: Geometry, write: bool, start: nat, es: seq<Extent>)
    requires g.blocks > 0 && GoodEntries(g, es) && es != []
    ensures var n, acc, segs := |Flat(es)|, Fold(g, write, start, es), AllSegs(g, write, start, es);
            && segs != [] && n > 0
            && Sum(segs[..|segs| - 1]) == LastTapeOffset(g, start, n)
            && (Spills(acc) <==> LastTapeOffset(g, start, n) > n - es[|es| - 1].blocks)
  {
    hide LastTapeOffset, Flat, Fold, LoopSegs;
    var a, n := LastStep(g, write, start, es);
    var e, acc, segs := es[|es| - 1], Fold(g, write, start, es), LoopSegs(g, write, start, es);
    if acc.total == 0 {
      assert segs + [] == segs;
      LastTapeIs(g, start, n - a.total, a.left, a.left, a.tape);
    } else {
      FoldTape(g, write, start, es);
      FoldFirst(g, write, start, es);
      FoldTable(g, write, start, es);
      assert (segs + [Seg(acc.startPos, acc.total)])[..|segs|] == segs;
      LastTapeIs(g, start, |Flat(es)| - acc.total, acc.total, acc.left, acc.tape);
    }
  }

  lemma {:induction false} AllSegsOk(g: Geometry, write: bool, start: nat, es: seq<Extent>)
    requires g.blocks > 0 && GoodEntries(g, es)
    ensures SegsOk(AllSegs(g, write, start, es), Cut(g, start, es)) && Sum(AllSegs(g, write, start, es)) == |Flat(es)|
  {
    hide Flat, Fold, LoopSegs, Cut;
    var acc, segs := Fold(g, write, start, es), LoopSegs(g, write, start, es);
    FoldTable(g, write, start, es);
    TableIsCut(g, write, start, es);
    if acc.total == 0 {
      assert segs + [] == segs;
    } else {
      SegsSnoc(segs, Seg(acc.startPos, acc.total), acc.table);
      SumSnoc(segs, Seg(acc.startPos, acc.total));
    }
  }

  /** The entries before a command are those that end within the blocks before it. */
  lemma {:induction false} SinglesBeforeIs(table: seq<Extent>, off: nat, bound: nat)
    requires AllValid(table) && off <= |table| && bound == |Flat(table[..off])|
    ensures SinglesBefore(table, bound) <==> Singles(table[..off])
  {
    forall i | 0 <= i < |table|
      ensures EndsWithin(table, i, bound) <==> i < off
    {
      if i < off {
        FlatMonotone(table, i + 1, off);
      } else {
        FlatMonotone(table, off, i + 1);
      }
    }
  }

  /** The offsets of the commands count blocks, and the last entry does not spill, exactly for handled requests. */
  lemma {:induction false} HandledIs(g: Geometry, write: bool, start: nat, es: seq<Extent>, table: seq<Extent>)
    requires Request(g, start, es, table)
    ensures var segs := AllSegs(g, write, start, es);
            && Within(segs, |Flat(es)|) && Sum(segs) == |Flat(es)|
            && (Handled(g, start, es) <==> InStep(segs) && !Spills(Fold(g, write, start, es)))
  {
    hide Flat, Moved, Sum, Cut, Compile, AllSegs, Fold, Within, SegsOk, SinglesBefore, Singles, LastTapeOffset, InStep;
    var segs, table' := AllSegs(g, write, start, es), Cut(g, start, es);
    LastSeg(g, write, start, es);
    AllSegsOk(g, write, start, es);
    CutFlat(g, start, es);
    SegsWithin(segs, table', |Flat(es)|);
    LastDecides(segs, table');
    LastOffset(segs, table');
    SinglesBeforeIs(table', segs[|segs| - 1].off, LastTapeOffset(g, start, |Flat(es)|));
  }

  /** A handled request is served rightly, whatever memory it names. */
  lemma {:induction false} HandledIsCorrect(g: Geometry, d: Device, write: bool, start: nat, es: seq<Extent>,
        table: seq<Extent>)
    requires Request(g, start, es, table) && Handled(g, start, es)
    ensures Correct(write, g, d, Compile(g, write, start, es), start, es, table)
  {
    hide Flat, Run, Moved, Sum, Cut, Compile, AllSegs, Fold, Within, InStep, Handled;
    var mem := Flat(es);
    RunCompiled(g, d, write, start, es, table);
    HandledIs(g, write, start, es, table);
    assert mem[..|mem|] == mem;
    InStepMoves(write, AllSegs(g, write, start, es), start, mem);
  }

  /**
   The driver gets a request right if and only if it is `Handled`: it stays on one tape, or the last
   scatter entry ends on the tape it starts on and the memory before the last tape comes in single blocks.
   That it must be `Handled` can be told only if no memory block is named twice.
   */
  lemma {:induction false} CorrectIffHandled(g: Geometry, d: Device, write: bool, start: nat, es: seq<Extent>,
        table: seq<Extent>)
    requires Request(g, start, es, table)
    ensures Handled(g, start, es) ==> Correct(write, g, d, Compile(g, write, start, es), start, es, table)
    ensures Distinct(Flat(es)) && Correct(write, g, d, Compile(g, write, start, es), start, es, table) ==>
      Handled(g, start, es)
  {
    hide Flat, Run, Moved, Sum, Cut, Compile, AllSegs, Fold, Distinct, Within, InStep, Handled;
    var mem := Flat(es);
    if Handled(g, start, es) {
      HandledIsCorrect(g, d, write, start, es, table);
    } else if Distinct(mem) {
      RunCompiled(g, d, write, start, es, table);
      HandledIs(g, write, start, es, table);
      assert mem[..|mem|] == mem;
      MovedInStep(write, AllSegs(g, write, start, es), start, mem);
    }
  }

  lemma {:induction false} LastOffset(segs: seq<Seg>, table: seq<Extent>)
    requires SegsOk(segs, table) && segs != []
    ensures var s := segs[|segs| - 1]; s.off <= |table| && |Flat(table[..s.off])| == Sum(segs[..|segs| - 1])
  {
  }

  /** A request that stays on one tape is always handled. */
  lemma {:induction false} OneTapeHandled(g: Geometry, start: nat, es: seq<Extent>)
    requires g.blocks > 0 && GoodEntries(g, es) && es != [] && |Flat(es)| > 0
    requires start % g.blocks + |Flat(es)| <= g.blocks
    ensures Handled(g, start, es)
  {
    hide Flat, Cut;
    var n := |Flat(es)|;
    TapeSplit(g, start);
    SplitUnique(g, start + n - 1, start / g.blocks, start % g.blocks + n - 1);
    FlatSnoc(es);
    CutFlat(g, start, es);
    var pieces := Cut(g, start, es);
    forall i | 0 <= i < |pieces|
      ensures !EndsWithin(pieces, i, 0)
    {
      FlatMonotone(pieces, 0, i + 1);
    }
  }

  lemma {:induction false} TwoEntries(g: Geometry, start: nat, a: Extent, b: Extent)
    requires g.blocks > 0
    ensures Flat([a]) == Sectors(a) && Flat([a, b]) == Sectors(a) + Sectors(b)
    ensures Cut(g, start, [a, b]) == CutOne(g, start, a) + CutOne(g, start + a.blocks, b)
  {
    FlatOne(a);
    FlatOne(b);
    FlatAppend([a], [b]);
    assert [a] + [b] == [a, b] && [a, b][..1] == [a] && [a][..0] == [];
    assert Cut(g, start, []) == [] && Cut(g, start, [a]) == [] + CutOne(g, start, a);
  }

  lemma {:induction false} NotHandledNotCorrect(g: Geometry, d: Device, write: bool, start: nat, es: seq<Extent>,
        table: seq<Extent>)
    requires Request(g, start, es, table) && Distinct(Flat(es)) && !Handled(g, start, es)
    ensures !Correct(write, g, d, Compile(g, write, start, es), start, es, table)
  {
    hide Flat, Handled, Correct, Distinct, Request, Compile;
    CorrectIffHandled(g, d, write, start, es, table);
  }

  /** Two tapes of the smallest kind; the second READ of this request takes its memory from inside the first entry. */
  lemma {:induction false} WrongMemory(d: Device, write: bool)
    ensures var g, start, es := Geometry(2, 512), 510, [Extent(10, 2), Extent(20, 1)];
            && Request(g, start, es, es) && Cut(g, start, es) == es
            && !Correct(write, g, d, Compile(g, write, start, es), start, es, es)
  {
    hide Correct, Compile, Flat, Cut;
    var g, es := Geometry(2, 512), [Extent(10, 2), Extent(20, 1)];
    TwoEntries(g, 510, es[0], es[1]);
    assert es[..1] == [es[0]] && es[..2] == es;
    assert EndsWithin(es, 0, 2);
    NotHandledNotCorrect(g, d, write, 510, es, es);
  }

  /** The last entry of this request reaches from the first tape into the second, and no tape change follows. */
  lemma {:induction false} MissingTapeChange(d: Device, write: bool)
    ensures var g, start, es := Geometry(2, 512), 510, [Extent(10, 1), Extent(20, 2)];
            var table := [Extent(10, 1), Extent(20, 1), Extent(21, 1)];
            && Request(g, start, es, table) && Cut(g, start, es) == table
            && !Correct(write, g, d, Compile(g, write, start, es), start, es, table)
  {
    hide Correct, Compile, Flat, Cut, SinglesBefore;
    var g, es := Geometry(2, 512), [Extent(10, 1), Extent(20, 2)];
    var table := [Extent(10, 1), Extent(20, 1), Extent(21, 1)];
    TwoEntries(g, 510, es[0], es[1]);
    assert table[..3] == table;
    NotHandledNotCorrect(g, d, write, 510, es, table);
  }
}
