/** What is left when a pass of the reducer shrinks nothing: no change that shrinks the function still crashes. */
module Minimality {
  import opened Lists
  import opened Wrappers
  import opened Layouts
  import opened Ir
  import opened Mutations
  import opened Sweeps
  import Reducer

  // ----- Phases of which every change shrinks -----

  /** Removing instructions, moving them, removing blocks, and replacing parameters. */
  predicate Shrinks(phase: nat) { phase == REMOVE_INST || MOVE_INST <= phase <= REPLACE_PARAM }

  /** No target of a phase, among those that the iteration cap lets it try, leaves a function that crashes. */
  ghost predicate NoneLeft(phase: nat, f: Func, crash: Oracle)
  {
    forall k: nat :: k < ITERATIONS && k < Length(Targets(phase, f)) ==>
      !Keeps(TriedOn(phase, f, Nth(Targets(phase, f), k)), crash)
  }

  lemma {:induction false} ShrunkStays(phase: nat, h: Held, l: List<Target>, crash: Oracle, n: nat)
    requires h.shrunk
    ensures Swept(phase, h, l, crash, n).shrunk
    decreases n
  {
    if n > 0 && l.Cons? {
      var m := TriedOn(phase, h.func, l.head);
      ShrunkStays(phase, Keep(h, m, crash), Left(phase, l.tail, Keeps(m, crash)), crash, n - 1);
    }
  }

  lemma {:induction false} SweptShrinks(phase: nat, f: Func, l: List<Target>, crash: Oracle, n: nat)
    requires Shrinks(phase)
    ensures var h := Swept(phase, Held(f, false), l, crash, n);
            if forall k: nat :: k < n && k < Length(l) ==> !Keeps(TriedOn(phase, f, Nth(l, k)), crash)
            then h == Held(f, false) else h.shrunk
    decreases n
  {
    if n > 0 && l.Cons? {
      var m := TriedOn(phase, f, l.head);
      assert Nth(l, 0) == l.head;
      if Keeps(m, crash) {
        ShrunkStays(phase, Held(m.func, true), Left(phase, l.tail, true), crash, n - 1);
      } else {
        SweptShrinks(phase, f, l.tail, crash, n - 1);
        assert forall k: nat :: k < Length(l.tail) ==> Nth(l, k + 1) == Nth(l.tail, k);
        assert forall k: nat :: 0 < k < Length(l) ==> Nth(l, k) == Nth(l.tail, k - 1);
      }
    }
  }

  /** Such a phase leaves the function as it is if and only if there is no target left, and shrinks it otherwise. */
  lemma {:induction false} SweepShrinks(phase: nat, f: Func, crash: Oracle)
    requires Shrinks(phase)
    ensures if NoneLeft(phase, f, crash) then Sweep(phase, f, crash) == Held(f, false)
            else Sweep(phase, f, crash).shrunk
  {
    SweptShrinks(phase, f, Targets(phase, f), crash, ITERATIONS);
  }

  // ----- Merging -----

  /** A block is not merged, although nothing stands in the way of trying. */
  predicate Stays(f: Func, b: Block, crash: Oracle)
  {
    Mergeable(f, b) ==> var pred := Preds(f, b).head; MergeRuns(f, pred, b) && !crash(Merged(f, pred, b))
  }

  ghost predicate NoMergeLeft(f: Func, b: Block, crash: Oracle, n: nat)
  {
    forall k: nat :: k < n && k < Length(LaterBlocks(f.layout, b)) ==>
      Stays(f, Nth(LaterBlocks(f.layout, b), k).id, crash)
  }

  lemma {:induction false} MergedStays(h: Held, b: Block, crash: Oracle, n: nat)
    ensures MergeSwept(h, b, crash, n).held.shrunk || MergeSwept(h, b, crash, n).held == h
    decreases n
  {
    var f := h.func;
    var next := NextBlock(f.layout, b);
    if n > 0 && next.Some? {
      var c := next.value;
      if !Mergeable(f, c) {
        MergedStays(h, c, crash, n - 1);
      } else if MergeRuns(f, Preds(f, c).head, c) {
        var pred := Preds(f, c).head;
        MergedStays(Held(Merged(f, pred, c), true), pred.block, crash, n - 1);
        MergedStays(h, c, crash, n - 1);
      }
    }
  }

  /** Merging leaves the function as it is if and only if every block stays; otherwise it shrinks it or gets stuck. */
  lemma {:induction false} MergesShrink(f: Func, b: Block, crash: Oracle, n: nat)
    requires DistinctBlocks(f.layout)
    ensures var r := MergeSwept(Held(f, false), b, crash, n);
            if NoMergeLeft(f, b, crash, n) then r == MergeResult(Held(f, false), false) else r.stuck || r.held.shrunk
    decreases n
  {
    LaterNext(f.layout, b);
    var later, next := LaterBlocks(f.layout, b), NextBlock(f.layout, b);
    if n > 0 && next.Some? {
      var c := next.value;
      assert Nth(later, 0).id == c;
      if Stays(f, c, crash) {
        MergesShrink(f, c, crash, n - 1);
        assert forall k: nat :: k < Length(later.tail) ==> Nth(later, k + 1) == Nth(later.tail, k);
        assert forall k: nat :: 0 < k < Length(later) ==> Nth(later, k) == Nth(later.tail, k - 1);
      } else if MergeRuns(f, Preds(f, c).head, c) {
        var pred := Preds(f, c).head;
        MergedStays(Held(Merged(f, pred, c), true), pred.block, crash, n - 1);
      }
    }
  }

  // ----- Passes -----

  /** No change that counts as progress, tried on `f`, leaves a function that crashes. */
  ghost predicate Minimal(f: Func, crash: Oracle)
    requires f.layout.Cons?
  {
    && (forall phase: nat :: Shrinks(phase) ==> NoneLeft(phase, f, crash))
    && NoMergeLeft(f, f.layout.head.id, crash, ITERATIONS)
  }

  /** What a pass that calls for no other has found: nothing to remove first, to move next, and to merge last. */
  lemma {:induction false} LastPass(f: Func, g: Func, crash: Oracle) returns (c: Func)
    requires Reducer.PassOf(f, g, false, false, crash) && DistinctBlocks(g.layout)
    ensures NoneLeft(REMOVE_INST, f, crash)
    ensures c == Sweep(REPLACE_TRAP, Sweep(REPLACE_CONST, f, crash).func, crash).func
    ensures NoneLeft(MOVE_INST, c, crash) && NoneLeft(REMOVE_BLOCK, c, crash) && NoneLeft(REPLACE_PARAM, c, crash)
    ensures Compactions(c, 0, g, crash) && g.layout.Cons? && NoMergeLeft(g, g.layout.head.id, crash, ITERATIONS)
  {
    var starts: seq<Func>, shrunk: seq<bool> :|
      && Reducer.Passed(starts, shrunk, false, crash) && |shrunk| == 8
      && starts[0] == f && starts[8] == g && (false <==> true in shrunk);
    c := starts[3];
    LastPhases(starts, shrunk, crash);
  }

  lemma {:induction false} LastPhases(starts: seq<Func>, shrunk: seq<bool>, crash: Oracle)
    requires Reducer.Passed(starts, shrunk, false, crash) && |shrunk| == 8 && true !in shrunk
    requires DistinctBlocks(starts[8].layout)
    ensures NoneLeft(REMOVE_INST, starts[0], crash)
    ensures starts[3] == Sweep(REPLACE_TRAP, Sweep(REPLACE_CONST, starts[0], crash).func, crash).func
    ensures NoneLeft(MOVE_INST, starts[3], crash) && NoneLeft(REMOVE_BLOCK, starts[3], crash)
    ensures NoneLeft(REPLACE_PARAM, starts[3], crash) && Compactions(starts[3], 0, starts[8], crash)
    ensures starts[8].layout.Cons? && NoMergeLeft(starts[8], starts[8].layout.head.id, crash, ITERATIONS)
  {
    QuietSweep(REMOVE_INST, starts, shrunk, crash);
    QuietChanges(starts, shrunk, crash);
    QuietMoves(starts, shrunk, crash);
    QuietEnd(starts, shrunk, crash);
  }

  lemma {:induction false} QuietChanges(starts: seq<Func>, shrunk: seq<bool>, crash: Oracle)
    requires Reducer.Passed(starts, shrunk, false, crash) && |shrunk| == 8 && true !in shrunk && starts[1] == starts[0]
    ensures starts[3] == Sweep(REPLACE_TRAP, Sweep(REPLACE_CONST, starts[0], crash).func, crash).func
  {
    QuietSweep(REPLACE_CONST, starts, shrunk, crash);
    QuietSweep(REPLACE_TRAP, starts, shrunk, crash);
  }

  lemma {:induction false} QuietMoves(starts: seq<Func>, shrunk: seq<bool>, crash: Oracle)
    requires Reducer.Passed(starts, shrunk, false, crash) && |shrunk| == 8 && true !in shrunk
    ensures starts[6] == starts[3] && NoneLeft(MOVE_INST, starts[3], crash)
    ensures NoneLeft(REMOVE_BLOCK, starts[3], crash) && NoneLeft(REPLACE_PARAM, starts[3], crash)
  {
    QuietSweep(MOVE_INST, starts, shrunk, crash);
    QuietSweep(REMOVE_BLOCK, starts, shrunk, crash);
    QuietSweep(REPLACE_PARAM, starts, shrunk, crash);
  }

  lemma {:induction false} QuietSweep(phase: nat, starts: seq<Func>, shrunk: seq<bool>, crash: Oracle)
    requires Reducer.Passed(starts, shrunk, false, crash) && phase < |shrunk| && true !in shrunk
    requires phase <= REPLACE_PARAM
    ensures starts[phase + 1] == Sweep(phase, starts[phase], crash).func
    ensures Shrinks(phase) ==> starts[phase + 1] == starts[phase] && NoneLeft(phase, starts[phase], crash)
  {
    assert PhaseOutcome(phase, starts[phase], starts[phase + 1], shrunk[phase], false, crash) && !shrunk[phase];
    if Shrinks(phase) { SweepShrinks(phase, starts[phase], crash); }
  }

  lemma {:induction false} QuietEnd(starts: seq<Func>, shrunk: seq<bool>, crash: Oracle)
    requires Reducer.Passed(starts, shrunk, false, crash) && |shrunk| == 8 && true !in shrunk
    requires DistinctBlocks(starts[8].layout)
    ensures Compactions(starts[6], 0, starts[8], crash)
    ensures starts[8].layout.Cons? && NoMergeLeft(starts[8], starts[8].layout.head.id, crash, ITERATIONS)
  {
    assert PhaseOutcome(REMOVE_ENTITIES, starts[6], starts[7], shrunk[6], false, crash) && !shrunk[6];
    assert PhaseOutcome(MERGE_BLOCKS, starts[7], starts[8], shrunk[7], false, crash) && !shrunk[7];
    LastMerges(starts[7], starts[8], crash);
  }

  lemma {:induction false} LastMerges(f: Func, g: Func, crash: Oracle)
    requires f.layout.Cons? && PhaseOutcome(MERGE_BLOCKS, f, g, false, false, crash) && DistinctBlocks(g.layout)
    ensures g == f && NoMergeLeft(f, f.layout.head.id, crash, ITERATIONS)
  {
    MergedStays(Held(f, false), f.layout.head.id, crash, ITERATIONS);
    MergesShrink(f, f.layout.head.id, crash, ITERATIONS);
  }

  /**
   When a pass calls for no other, and its compactions were not kept, nothing is left for another pass
   if and only if no instruction can be removed. That is so when the pass has changed nothing.
   */
  lemma {:induction false} NothingLeft(f: Func, g: Func, crash: Oracle)
    requires Reducer.PassOf(f, g, false, false, crash) && DistinctBlocks(g.layout)
    requires Sweep(REPLACE_TRAP, Sweep(REPLACE_CONST, f, crash).func, crash).func == g
    ensures g.layout.Cons? && (Minimal(g, crash) <==> NoneLeft(REMOVE_INST, g, crash))
    ensures f == g ==> Minimal(g, crash)
  {
    var c := LastPass(f, g, crash);
    if NoneLeft(REMOVE_INST, g, crash) {
      forall phase: nat | Shrinks(phase)
        ensures NoneLeft(phase, g, crash)
      {
        if phase == MOVE_INST { assert NoneLeft(MOVE_INST, c, crash); }
        if phase == REMOVE_BLOCK { assert NoneLeft(REMOVE_BLOCK, c, crash); }
      }
    }
  }

  // ----- In terms of the function -----

  /** The function is small enough for every phase to try all of its targets. */
  predicate Small(f: Func)
  {
    && Length(Positions(f.layout)) <= ITERATIONS && Length(f.layout) <= ITERATIONS
    && Length(ParamTargets(f, f.layout)) <= ITERATIONS
  }

  /** An instruction can neither be removed nor moved to the entry block. */
  predicate InstStays(f: Func, l: List<Pos>, k: nat, crash: Oracle)
    requires f.layout.Cons? && k + 1 < Length(l)
  {
    var p := Nth(l, k);
    && !crash(Dropped(f, p))
    && (p.block != f.layout.head.id && Nth(l, k + 1).block == p.block ==> !crash(Moved(f, p)))
  }

  /** That is so of every instruction but the last. */
  ghost predicate InstsStay(f: Func, crash: Oracle)
    requires f.layout.Cons?
  {
    forall k: nat :: k + 1 < Length(Positions(f.layout)) ==> InstStays(f, Positions(f.layout), k, crash)
  }

  /** No block but the entry block can be removed, or merged into its predecessor; and no parameter replaced. */
  ghost predicate BlocksStay(f: Func, crash: Oracle)
    requires f.layout.Cons? && Solid(f.layout)
  {
    && (forall b: Block :: HasBlock(f.layout.tail, b) ==> !crash(WithoutBlock(f, b)) && Stays(f, b, crash))
    && (forall b: Block, n: nat :: HasBlock(f.layout, b) && n < Length(Params(f, b)) ==> !crash(ParamReplaced(f, b, n)))
  }

  lemma {:induction false} InstTargetAt(l: List<Pos>, k: nat)
    requires k + 1 < Length(l)
    ensures k < Length(InstTargets(l)) && Nth(InstTargets(l), k) == InstAt(Nth(l, k), Nth(l, k + 1))
    decreases k
  {
    if k > 0 { InstTargetAt(l.tail, k - 1); }
  }

  lemma {:induction false} InstTargetCount(l: List<Pos>)
    ensures Length(InstTargets(l)) == if l.Nil? then 0 else Length(l) - 1
  {
    if l.Cons? { InstTargetCount(l.tail); }
  }

  lemma {:induction false} InstLeft(f: Func, k: nat, crash: Oracle)
    requires f.layout.Cons? && k + 1 < Length(Positions(f.layout))
    ensures var l := InstTargets(Positions(f.layout));
            && k < Length(l)
            && (InstStays(f, Positions(f.layout), k, crash) <==>
                  && !Keeps(TriedOn(REMOVE_INST, f, Nth(l, k)), crash)
                  && !Keeps(TriedOn(MOVE_INST, f, Nth(l, k)), crash))
  {
    InstTargetAt(Positions(f.layout), k);
  }

  lemma {:induction false} InstsLeft(f: Func, crash: Oracle)
    requires f.layout.Cons? && Length(Positions(f.layout)) <= ITERATIONS
    ensures NoneLeft(REMOVE_INST, f, crash) && NoneLeft(MOVE_INST, f, crash) <==> InstsStay(f, crash)
  {
    var all := Positions(f.layout);
    InstTargetCount(all);
    assert Targets(REMOVE_INST, f) == InstTargets(all) == Targets(MOVE_INST, f);
    if NoneLeft(REMOVE_INST, f, crash) && NoneLeft(MOVE_INST, f, crash) {
      forall k: nat | k + 1 < Length(all)
        ensures InstStays(f, all, k, crash)
      {
        InstLeft(f, k, crash);
      }
    }
    if InstsStay(f, crash) {
      forall k: nat | k < Length(InstTargets(all))
        ensures !Keeps(TriedOn(REMOVE_INST, f, Nth(InstTargets(all), k)), crash)
        ensures !Keeps(TriedOn(MOVE_INST, f, Nth(InstTargets(all), k)), crash)
      {
        assert InstStays(f, all, k, crash);
        InstLeft(f, k, crash);
      }
    }
  }

  lemma {:induction false} AmongAt(l: List<Target>, t: Target) returns (k: nat)
    requires Among(l, t)
    ensures k < Length(l) && Nth(l, k) == t
  {
    if l.head == t { k := 0; } else { k := AmongAt(l.tail, t); k := k + 1; }
  }

  lemma {:induction false} AtAmong(l: List<Target>, k: nat)
    requires k < Length(l)
    ensures Among(l, Nth(l, k))
    decreases k
  {
    if k > 0 { AtAmong(l.tail, k - 1); }
  }

  /** With all targets tried, their order does not matter. */
  lemma {:induction false} NoneAmong(phase: nat, f: Func, crash: Oracle)
    requires Length(Targets(phase, f)) <= ITERATIONS
    ensures NoneLeft(phase, f, crash) <==>
            forall t :: Among(Targets(phase, f), t) ==> !Keeps(TriedOn(phase, f, t), crash)
  {
    var l := Targets(phase, f);
    if NoneLeft(phase, f, crash) {
      forall t | Among(l, t)
        ensures !Keeps(TriedOn(phase, f, t), crash)
      {
        var k := AmongAt(l, t);
      }
    }
    forall k: nat | k < Length(l)
      ensures Among(l, Nth(l, k))
    {
      AtAmong(l, k);
    }
  }

  lemma {:induction false} BlockTargetsAre(layout: List<Blk>, t: Target)
    ensures Among(BlockTargets(layout), t) <==> t.WholeBlock? && HasBlock(layout, t.block)
    ensures Length(BlockTargets(layout)) == Length(layout)
  {
    if layout.Cons? { BlockTargetsAre(layout.tail, t); }
  }

  lemma {:induction false} BlocksLeft(f: Func, crash: Oracle)
    requires f.layout.Cons? && Length(f.layout) <= ITERATIONS
    ensures NoneLeft(REMOVE_BLOCK, f, crash) <==>
            forall b: Block :: HasBlock(f.layout.tail, b) ==> !crash(WithoutBlock(f, b))
  {
    var l := BlockTargets(f.layout.tail);
    BlockTargetsAre(f.layout.tail, WholeBlock(0));
    NoneAmong(REMOVE_BLOCK, f, crash);
    forall t
      ensures Among(l, t) <==> t.WholeBlock? && HasBlock(f.layout.tail, t.block)
    {
      BlockTargetsAre(f.layout.tail, t);
    }
    forall b: Block
      ensures Keeps(TriedOn(REMOVE_BLOCK, f, WholeBlock(b)), crash) <==> crash(WithoutBlock(f, b))
    {
    }
  }

  lemma {:induction false} ParamsLeftAll(f: Func, crash: Oracle)
    requires f.layout.Cons? && Solid(f.layout) && Length(ParamTargets(f, f.layout)) <= ITERATIONS
    ensures NoneLeft(REPLACE_PARAM, f, crash) <==>
            forall b: Block, n: nat ::
              HasBlock(f.layout, b) && n < Length(Params(f, b)) ==> !crash(ParamReplaced(f, b, n))
  {
    var l := ParamTargets(f, f.layout);
    NoneAmong(REPLACE_PARAM, f, crash);
    forall t
      ensures Among(l, t) <==> t.Param? && HasBlock(f.layout, t.block) && t.n < Length(Params(f, t.block))
    {
      AllParamsTried(f, f.layout, t);
    }
    forall b: Block, n: nat | HasBlock(f.layout, b) && n < Length(Params(f, b))
      ensures Keeps(TriedOn(REPLACE_PARAM, f, Param(b, n)), crash) <==> crash(ParamReplaced(f, b, n))
    {
    }
  }

  lemma {:induction false} BlockAt(layout: List<Blk>, b: Block) returns (k: nat)
    requires HasBlock(layout, b)
    ensures k < Length(layout) && Nth(layout, k).id == b
  {
    if layout.head.id == b { k := 0; } else { k := BlockAt(layout.tail, b); k := k + 1; }
  }

  lemma {:induction false} AtBlock(layout: List<Blk>, k: nat)
    requires k < Length(layout)
    ensures HasBlock(layout, Nth(layout, k).id)
    decreases k
  {
    if k > 0 { AtBlock(layout.tail, k - 1); }
  }

  lemma {:induction false} MergesLeft(f: Func, crash: Oracle)
    requires f.layout.Cons? && Length(f.layout) <= ITERATIONS
    ensures NoMergeLeft(f, f.layout.head.id, crash, ITERATIONS) <==>
            forall b: Block :: HasBlock(f.layout.tail, b) ==> Stays(f, b, crash)
  {
    var later := f.layout.tail;
    assert LaterBlocks(f.layout, f.layout.head.id) == later;
    if NoMergeLeft(f, f.layout.head.id, crash, ITERATIONS) {
      forall b: Block | HasBlock(later, b)
        ensures Stays(f, b, crash)
      {
        var k := BlockAt(later, b);
      }
    }
    forall k: nat | k < Length(later)
      ensures HasBlock(later, Nth(later, k).id)
    {
      AtBlock(later, k);
    }
  }

  /** Of a function within the cap: nothing is left if and only if no instruction, block or parameter can go. */
  lemma {:induction false} MinimalMeans(f: Func, crash: Oracle)
    requires Sound(f) && Small(f)
    ensures Minimal(f, crash) <==> InstsStay(f, crash) && BlocksStay(f, crash)
  {
    InstsLeft(f, crash);
    BlocksLeft(f, crash);
    ParamsLeftAll(f, crash);
    MergesLeft(f, crash);
    assert Minimal(f, crash) ==> NoneLeft(REMOVE_INST, f, crash) && NoneLeft(MOVE_INST, f, crash);
    assert Minimal(f, crash) ==> NoneLeft(REMOVE_BLOCK, f, crash) && NoneLeft(REPLACE_PARAM, f, crash);
  }
}
