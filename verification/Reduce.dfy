/** The reducer: mutators whose cursors survive kept and discarded mutations, and the loop that drives them. */
module Reducer {
  import opened Lists
  import opened Wrappers
  import opened Layouts
  import opened Ir
  import opened Mutations
  import opened Sweeps
  import Entities

  function BlocksAfter(layout: List<Blk>, b: Block): nat
  {
    if layout.Nil? then 0 else if layout.head.id == b then Length(layout.tail) else BlocksAfter(layout.tail, b)
  }

  lemma {:induction false} NextBlockCloser(layout: List<Blk>, b: Block)
    requires NextBlock(layout, b).Some? && DistinctBlocks(layout)
    ensures BlocksAfter(layout, NextBlock(layout, b).value) < BlocksAfter(layout, b)
  {
    NextBlockOther(layout, b);
    if layout.head.id != b { NextBlockCloser(layout.tail, b); }
  }

  lemma TriedIsChange(phase: nat, f: Func, p: Pos, next: Pos)
    ensures var m := Tried(phase, f, p, next); m.Step? && (m.status.Skip? || ChangeOf(f, m.func))
  {
    var m := Tried(phase, f, p, next);
    if !m.status.Skip? {
      if phase == REMOVE_INST {
        assert Makes(Drop(p), f, m.func);
      } else if phase == REPLACE_CONST {
        assert Makes(Consts(p.inst), f, m.func);
      } else if phase == REPLACE_TRAP {
        assert Makes(TrapAt(p.inst), f, m.func);
      } else {
        assert Makes(Move(p), f, m.func);
      }
    }
  }

  /** A mutator: the fields of all of them, of which each phase uses its own. */
  class Mutator {
    const phase: nat
    var block: Block
    var inst: Inst
    var paramsRemaining: nat
    var kind: nat
    var prevBlock: Option<Block>
    /** The positions that an instruction cursor has visited, and those from the cursor on. */
    ghost var visited: List<Pos>
    ghost var rest: List<Pos>

    constructor (f: Func, phase: nat)
      requires Sound(f)
      ensures this.phase == phase && Valid(f) && visited == Nil && rest == Positions(f.layout)
      ensures block == f.layout.head.id && kind == 0 && Todo(f) == Targets(phase, f)
    {
      this.phase := phase;
      block := f.layout.head.id;
      inst := f.layout.head.insts.head;
      paramsRemaining := Length(Params(f, f.layout.head.id));
      kind, prevBlock := 0, None;
      visited, rest := Nil, Positions(f.layout);
    }

    /** The cursor stands in `f`. */
    ghost predicate Valid(f: Func)
      reads this
    {
      && (phase <= MOVE_INST ==> Ahead(f, rest) && rest.head == Pos(block, inst))
      && (phase == REPLACE_PARAM ==> HasBlock(f.layout, block) && paramsRemaining <= Length(Params(f, block)))
    }

    /** The cursor will stand in `g` when the mutation is kept. */
    ghost predicate ValidIfKept(g: Func)
      reads this
    {
      Valid(g) && (phase == MERGE_BLOCKS ==> prevBlock.Some?)
    }

    /** What is left to try in `f`, up to the replacement of parameters. */
    ghost function Todo(f: Func): List<Target>
      reads this
    {
      if phase <= MOVE_INST then InstTargets(rest)
      else if phase == REMOVE_BLOCK then BlockTargets(LaterBlocks(f.layout, block))
      else if phase == REPLACE_PARAM then ParamsLeft(f, block, paramsRemaining)
      else Nil
    }

    /** Where the mutator stands. */
    ghost function Standing(f: Func): Cursor
      reads this
    {
      Cursor(Todo(f), kind, block)
    }

    /** `next_inst_ret_prev`: move the cursor on and return where it was; the `expect` cannot fail. */
    method NextInstRetPrev(f: Func) returns (prev: Option<Pos>)
      requires Sound(f) && phase <= MOVE_INST && Valid(f)
      modifies this`block, this`inst, this`visited, this`rest
      ensures prev.None? <==> old(rest).tail.Nil?
      ensures prev.None? ==> rest == old(rest) && visited == old(visited)
      ensures prev.Some? ==> prev.value == old(rest).head && old(rest) == Cons(prev.value, rest) && Valid(f)
      ensures prev.Some? ==> visited == Append(old(visited), Cons(prev.value, Nil))
    {
      var p := Pos(block, inst);
      AdvanceAt(f.layout, p, rest.tail);
      EndsWithTail(Positions(f.layout), rest);
      var nextInst := NextInst(f.layout, inst);
      if nextInst.Some? {
        inst := nextInst.value;
      } else {
        var nextBlock := NextBlock(f.layout, block);
        if nextBlock.None? { return None; }
        block := nextBlock.value;
        var first := First(InstsOf(f.layout, block));
        assert first.Some?;
        inst := first.value;
      }
      visited, rest := Append(visited, Cons(p, Nil)), rest.tail;
      prev := Some(p);
    }

    method RemoveInstStep(f: Func) returns (m: Mutation)
      requires Sound(f) && phase == REMOVE_INST && Valid(f)
      modifies this`block, this`inst, this`visited, this`rest
      ensures Visits(old(rest), old(visited), rest, visited, m)
      ensures m.Step? ==> Valid(f) && Sound(m.func) && Valid(m.func)
      ensures m.Step? ==> m == Tried(phase, f, old(rest).head, rest.head)
    {
      var prev := NextInstRetPrev(f);
      if prev.None? { return NoMore; }
      DroppedKeeps(f, prev.value, rest);
      DropInstKeeps(f.layout, prev.value, rest);
      var layout := RemoveInst(f.layout, prev.value.inst);
      if First(InstsOf(layout, prev.value.block)).None? { layout := RemoveBlock(layout, prev.value.block); }
      m := Step(f.(layout := layout), ExpandedOrShrinked);
    }

    method ReplaceConstStep(f: Func) returns (m: Mutation)
      requires Sound(f) && phase == REPLACE_CONST && Valid(f)
      modifies this`block, this`inst, this`visited, this`rest
      ensures Visits(old(rest), old(visited), rest, visited, m)
      ensures m.Step? ==> Valid(f) && Sound(m.func) && Valid(m.func)
      ensures m.Step? ==> m == Tried(phase, f, old(rest).head, rest.head)
    {
      var prev := NextInstRetPrev(f);
      if prev.None? { return NoMore; }
      var p, data := prev.value, Data(f, prev.value.inst);
      if data.results.Nil? || data.op.Iconst? || data.op.F32const? || data.op.F64const? { return Step(f, Skip); }
      if IsWideConst(f, data) { return Step(f, Skip); }
      var g := ReplaceByConsts(f, p, rest);
      m := Step(g, if data.results.tail.Nil? then Changed else ExpandedOrShrinked);
    }

    method ReplaceTrapStep(f: Func) returns (m: Mutation)
      requires Sound(f) && phase == REPLACE_TRAP && Valid(f)
      modifies this`block, this`inst, this`visited, this`rest
      ensures Visits(old(rest), old(visited), rest, visited, m)
      ensures m.Step? ==> Valid(f) && Sound(m.func) && Valid(m.func)
      ensures m.Step? ==> m == Tried(phase, f, old(rest).head, rest.head)
    {
      var prev := NextInstRetPrev(f);
      if prev.None? { return NoMore; }
      var i, data := prev.value.inst, Data(f, prev.value.inst);
      if data.op.Trap? { return Step(f, Skip); }
      m := Step(Trapping(f, i), Changed);
    }

    method MoveInstStep(f: Func) returns (m: Mutation)
      requires Sound(f) && phase == MOVE_INST && Valid(f)
      modifies this`block, this`inst, this`visited, this`rest
      ensures Visits(old(rest), old(visited), rest, visited, m)
      ensures m.Step? ==> Valid(f) && Sound(m.func) && Valid(m.func)
      ensures m.Step? ==> m == Tried(phase, f, old(rest).head, rest.head)
    {
      var prev := NextInstRetPrev(f);
      if prev.None? { return NoMore; }
      var p, entry := prev.value, f.layout.head;
      if entry.id == p.block || block != p.block { return Step(f, Skip); }
      MovedKeeps(f, p, rest);
      LastHas(entry.insts);
      var last := Last(entry.insts).value;
      var layout := RemoveInst(f.layout, p.inst);
      layout := InsertInst(layout, p.inst, last);
      m := Step(f.(layout := layout), ExpandedOrShrinked);
    }

    method RemoveBlockStep(f: Func) returns (m: Mutation)
      requires Sound(f) && phase == REMOVE_BLOCK
      modifies this`block
      ensures m.NoMore? <==> NextBlock(f.layout, old(block)).None?
      ensures !m.NoMore? ==> NextBlock(f.layout, old(block)) == Some(block)
      ensures !m.NoMore? ==> m == Step(WithoutBlock(f, block), ExpandedOrShrinked) && Sound(m.func)
      ensures m.NoMore? <==> old(Todo(f)).Nil?
      ensures m.Step? ==> old(Todo(f)) == Cons(WholeBlock(block), Todo(f)) && Todo(m.func) == Nil
    {
      LaterNext(f.layout, block);
      var next := NextBlock(f.layout, block);
      if next.None? { return NoMore; }
      WithoutBlockKeeps(f, block, next.value);
      block := next.value;
      NoneLater(f.layout, block);
      var layout := EmptyBlock(f.layout, block);
      m := Step(f.(layout := RemoveBlock(layout, block)), ExpandedOrShrinked);
    }

    method ReplaceParamStep(f: Func) returns (m: Mutation)
      requires Sound(f) && phase == REPLACE_PARAM && Valid(f)
      modifies this`block, this`paramsRemaining
      ensures m.Step? ==> Valid(f) && Sound(m.func) && Valid(m.func)
      ensures m.NoMore? <==> old(Todo(f)).Nil?
      ensures !m.NoMore? ==> HasBlock(f.layout, block) && paramsRemaining < Length(Params(f, block))
      ensures !m.NoMore? ==> m == Step(ParamReplaced(f, block, paramsRemaining), ExpandedOrShrinked)
      ensures m.Step? ==> old(Todo(f)) == Cons(Param(block, paramsRemaining), Todo(f)) && Todo(m.func) == Todo(f)
    {
      while paramsRemaining == 0
        invariant Valid(f) && Todo(f) == old(Todo(f))
        decreases BlocksAfter(f.layout, block), paramsRemaining == 0
      {
        LaterNext(f.layout, block);
        var next := NextBlock(f.layout, block);
        if next.None? { return NoMore; }
        NextBlockCloser(f.layout, block);
        NextBlockIn(f.layout, block);
        block := next.value;
        paramsRemaining := Length(Params(f, block));
      }
      paramsRemaining := paramsRemaining - 1;
      ParamsStillLeft(f, block, paramsRemaining);
      var g := ReplaceParam(f, block, paramsRemaining);
      m := Step(g, ExpandedOrShrinked);
    }

    method MergeStep(f: Func) returns (m: Mutation)
      requires Sound(f) && phase == MERGE_BLOCKS
      modifies this`block, this`prevBlock
      ensures m.NoMore? <==> NextBlock(f.layout, old(block)).None?
      ensures m.NoMore? ==> block == old(block)
      ensures !m.NoMore? ==> NextBlock(f.layout, old(block)) == Some(block)
      ensures !m.NoMore? ==> (m == Step(f, Skip) <==> !Mergeable(f, block))
      ensures m.Stuck? ==> Mergeable(f, block) && !MergeRuns(f, Preds(f, block).head, block) && !Verified(f)
      ensures m.Step? && Mergeable(f, block) ==>
                && MergeRuns(f, Preds(f, block).head, block)
                && m == Step(Merged(f, Preds(f, block).head, block), ExpandedOrShrinked)
                && Sound(m.func) && prevBlock == Some(Preds(f, block).head.block)
      ensures m.Step? && Mergeable(f, block) && Preds(f, block).head.block != block ==>
                HasBlock(m.func.layout, Preds(f, block).head.block)
    {
      var next := NextBlock(f.layout, block);
      if next.None? { return NoMore; }
      NextBlockOther(f.layout, block);
      block := next.value;
      var preds := Preds(f, block);
      if preds.Nil? || preds.tail.Cons? { return Step(f, Skip); }
      var pred := preds.head;
      assert Preds(f, block) == Cons(pred, Nil);
      PredIs(f, f.layout, block, pred);
      var dests := Data(f, pred.inst).dests;
      if dests.tail.Cons? { return Step(f, Skip); }
      assert Mergeable(f, block) && HasBlock(f.layout, block);
      var args, params := dests.head.args, Params(f, block);
      if Length(params) != Length(args) { return Stuck; }
      var g := f.(params := f.params[block := Nil], alias := AliasedAll(f.alias, params, args));
      var layout := JoinInto(f, pred, block);
      if layout.None? { return Stuck; }
      MergedKeeps(f, pred, block);
      prevBlock := Some(pred.block);
      m := Step(g.(layout := layout.value), ExpandedOrShrinked);
    }

    /** `did_crash`: the mutation was kept. */
    method DidCrash(g: Func)
      requires ValidIfKept(g)
      modifies this`block
      ensures Valid(g) && (phase != MERGE_BLOCKS ==> block == old(block))
      ensures phase == MERGE_BLOCKS ==> prevBlock.Some? && block == prevBlock.value
    {
      if phase == MERGE_BLOCKS { block := prevBlock.value; }
    }

    /** `mutate` of a mutator with an instruction cursor. */
    method MutateInst(f: Func) returns (m: Mutation)
      requires Sound(f) && Valid(f) && phase <= MOVE_INST
      modifies this
      ensures Visits(old(rest), old(visited), rest, visited, m) && Follows(phase, f, old(Todo(f)), m)
      ensures m.Step? ==> Todo(f) == old(Todo(f)).tail
      ensures m.Step? ==> Valid(f) && Sound(m.func) && Valid(m.func) && (m.status.Skip? || ChangeOf(f, m.func))
    {
      if phase == REMOVE_INST {
        m := RemoveInstStep(f);
      } else if phase == REPLACE_CONST {
        m := ReplaceConstStep(f);
      } else if phase == REPLACE_TRAP {
        m := ReplaceTrapStep(f);
      } else {
        m := MoveInstStep(f);
      }
      if m.Step? { TriedIsChange(phase, f, old(rest).head, rest.head); }
    }

    /** `mutate`, whichever the mutator is. */
    method Mutate(f: Func) returns (m: Mutation)
      requires Sound(f) && Valid(f)
      modifies this
      ensures m.Stuck? ==> phase == MERGE_BLOCKS && !Verified(f)
      ensures phase <= MOVE_INST ==> Visits(old(rest), old(visited), rest, visited, m)
      ensures phase <= REPLACE_PARAM ==> Follows(phase, f, old(Todo(f)), m)
      ensures phase <= REPLACE_PARAM && m.Step? ==> Todo(f) == old(Todo(f)).tail
      ensures phase <= REPLACE_PARAM && m.Step? && !m.status.Skip? ==> Todo(m.func) == Left(phase, Todo(f), true)
      ensures phase == REMOVE_ENTITIES ==> Compacts(f, old(kind), kind, m)
      ensures phase == MERGE_BLOCKS ==> Merges(f, old(block), block, prevBlock, m)
      ensures m.Step? ==> Valid(f) && Sound(m.func) && (!m.status.Skip? ==> ValidIfKept(m.func) && ChangeOf(f, m.func))
    {
      if phase <= MOVE_INST {
        m := MutateInst(f);
      } else if phase == REMOVE_BLOCK {
        m := RemoveBlockStep(f);
        assert m.Step? ==> Makes(DropBlock(block), f, m.func);
      } else if phase == REPLACE_PARAM {
        m := ReplaceParamStep(f);
        assert m.Step? ==> Makes(DropParam(block, paramsRemaining), f, m.func);
      } else if phase == REMOVE_ENTITIES {
        m := RemoveEntitiesStep(f);
      } else if phase == MERGE_BLOCKS {
        m := MergeStep(f);
        assert m.Step? && !m.status.Skip? ==> Makes(MergeInto(Preds(f, block).head, block), f, m.func);
      } else {
        m := NoMore;
      }
    }

    method RemoveEntitiesStep(f: Func) returns (m: Mutation)
      requires Sound(f) && phase == REMOVE_ENTITIES
      modifies this`kind
      ensures m.Step? ==> Sound(m.func) && m.func.layout == f.layout
      ensures m.Step? ==> old(kind) < 4 && kind == old(kind) + 1 && m.status.Changed?
      ensures m.Step? ==> Makes(Compact(KindOf(old(kind))), f, m.func)
      ensures KindOf(0) == Entities.Funcs && KindOf(1) == Entities.Signatures
      ensures KindOf(2) == Entities.Slots && KindOf(3) == Entities.Globals
      ensures !m.Stuck?
      ensures m.NoMore? <==>
              4 <= old(kind) || (old(kind) == 3 && exists k :: 0 <= k < |f.globals| && f.globals[k].Derived?)
      ensures Compacts(f, old(kind), kind, m)
    {
      if 4 <= kind || (kind == 3 && HasDerived(f.globals)) { return NoMore; }
      var g := Entities.RemoveUnused(f, KindOf(kind));
      kind := kind + 1;
      assert g.freshInst == f.freshInst;
      m := Step(g, Changed);
    }
  }

  /** How an instruction cursor moves on: past one position, or not at all at the last. */
  ghost predicate Visits(before: List<Pos>, visited: List<Pos>, after: List<Pos>, visited': List<Pos>, m: Mutation)
    requires before.Cons?
  {
    && !m.Stuck?
    && (m.NoMore? ==> before.tail.Nil? && after == before && visited' == visited)
    && (m.Step? ==> after == before.tail && after.Cons? && visited' == Append(visited, Cons(before.head, Nil)))
  }

  /** What is tried on a table, and there is none left exactly when all are done. */
  ghost predicate Compacts(f: Func, k: nat, k': nat, m: Mutation)
  {
    && !m.Stuck? && (m.NoMore? <==> AllCompacted(f, k))
    && (m.Step? ==> k' == k + 1 && m.status.Changed? && Makes(Compact(KindOf(k)), f, m.func))
  }

  /** What is tried on the block after `b`. */
  ghost predicate Merges(f: Func, b: Block, b': Block, prev: Option<Block>, m: Mutation)
  {
    && (m.NoMore? <==> NextBlock(f.layout, b).None?)
    && (!m.NoMore? ==>
          && NextBlock(f.layout, b) == Some(b') && (m == Step(f, Skip) <==> !Mergeable(f, b'))
          && (Mergeable(f, b') ==>
                var pred := Preds(f, b').head;
                if MergeRuns(f, pred, b')
                then m == Step(Merged(f, pred, b'), ExpandedOrShrinked) && prev == Some(pred.block)
                else m.Stuck?))
  }

  /** What is tried is the next target, and there is none exactly when nothing is left. */
  ghost predicate Follows(phase: nat, f: Func, before: List<Target>, m: Mutation)
  {
    && !m.Stuck? && (m.NoMore? <==> before.Nil?)
    && (m.Step? ==> before.Cons? && m == TriedOn(phase, f, before.head))
  }

  /** A constant takes the place of a parameter, and branches to the block no longer pass it. */
  method ReplaceParam(f: Func, b: Block, n: nat) returns (g: Func)
    requires Sound(f) && HasBlock(f.layout, b) && n < Length(Params(f, b))
    ensures Sound(g) && HasBlock(g.layout, b) && Params(g, b) == RemoveNth(Params(f, b), n)
    ensures Length(Params(g, b)) == Length(Params(f, b)) - 1
    ensures g == ParamReplaced(f, b, n)
  {
    var param := Nth(Params(f, b), n);
    RemoveNthLength(Params(f, b), n);
    g := f.(params := f.params[b := RemoveNth(Params(f, b), n)]);
    ConstAtStart(g, b, param);
    FirstOfIs(f.layout, b);
    g := WithConst(g, InstsOf(g.layout, b).head, param);
    g := RemoveArg(g, b, n);
    ConstHead(f, b, n);
    if g.layout.head.id == b { g := g.(signature := RemoveNth(g.signature, n)); }
  }

  /** The loop over the predecessors, computed once. */
  method RemoveArg(f: Func, b: Block, n: nat) returns (g: Func)
    ensures g == ArgRemoved(f, Preds(f, b), b, n) && g == f.(insts := g.insts)
  {
    g := f;
    var preds := Preds(f, b);
    while preds.Cons?
      invariant ArgRemoved(g, preds, b, n) == ArgRemoved(f, Preds(f, b), b, n) && g == f.(insts := g.insts)
      decreases preds
    {
      var data := Data(g, preds.head.inst);
      g := g.(insts := g.insts[preds.head.inst := data.(dests := WithoutArg(data.dests, b, n))]);
      preds := preds.tail;
    }
  }

  /**
   Remove the branch, move the instructions of `b` one by one to its predecessor, and remove `b`.
   `None` stands for a loop that never ends.
   */
  method JoinInto(f: Func, pred: Pos, b: Block) returns (joined: Option<List<Blk>>)
    requires Sound(f) && HasBlock(f.layout, b) && Preds(f, b) == Cons(pred, Nil)
    ensures joined.Some? <==> Movable(f, pred, b)
    ensures joined.Some? <==>
            exists n: nat :: InstsOf(Moves(RemoveInst(f.layout, pred.inst), pred.block, b, n), b).Nil?
    ensures joined.Some? ==> joined.value == Joined(RemoveInst(f.layout, pred.inst), pred.block, b)
  {
    MoveLoopEnds(f, pred, b);
    PredIs(f, f.layout, b, pred);
    BranchRemoved(f, pred);
    var l := RemoveInst(f.layout, pred.inst);
    if pred.block == b {
      SoleInst(f, b, pred.inst);
      if InstsOf(l, b).Cons? { return None; }
    }
    while InstsOf(l, b).Cons?
      invariant pred.block == b ==> InstsOf(l, b).Nil?
      invariant DistinctBlocks(l) && DistinctInsts(Positions(l)) && HasBlock(l, pred.block)
      invariant Joined(l, pred.block, b) == Joined(RemoveInst(f.layout, pred.inst), pred.block, b)
      decreases Length(InstsOf(l, b))
    {
      JoinStep(l, pred.block, b);
      var i := InstsOf(l, b).head;
      l := RemoveInst(l, i);
      l := AppendInst(l, i, pred.block);
    }
    if pred.block == b { JoinSelf(l, b); } else { JoinEmpty(l, pred.block, b); }
    joined := Some(RemoveBlock(l, b));
  }

  /** One constant per result before the instruction, which is then removed. */
  method ReplaceByConsts(f: Func, p: Pos, ghost rest: List<Pos>) returns (g: Func)
    requires Sound(f) && Ahead(f, Cons(p, rest)) && rest.Cons? && Data(f, p.inst).results.Cons?
    ensures Sound(g) && Ahead(g, rest) && g == ByConsts(f, p.inst)
  {
    var results := Data(f, p.inst).results;
    g := Detached(f, p.inst);
    var todo := results;
    ghost var other := p.inst;
    while todo.Cons?
      invariant Sound(g) && Ahead(g, Cons(p, rest))
      invariant todo != results ==> Has(InstsOf(g.layout, p.block), other) && other != p.inst
      invariant ConstsBefore(g, p.inst, todo) == ConstsBefore(Detached(f, p.inst), p.inst, results)
      decreases todo
    {
      other := WithConstKeeps(g, Cons(p, rest), todo.head);
      g := WithConst(g, p.inst, todo.head);
      todo := todo.tail;
    }
    RemovedKeeps(g, p, rest, other);
    g := g.(layout := RemoveInst(g.layout, p.inst));
  }

  /** Remove the last instruction of a block until none is left. */
  method EmptyBlock(layout: List<Blk>, b: Block) returns (l: List<Blk>)
    requires DistinctInsts(Positions(layout))
    ensures RemoveBlock(l, b) == RemoveBlock(layout, b) && InstsOf(l, b).Nil?
  {
    l := layout;
    while InstsOf(l, b).Cons?
      invariant DistinctInsts(Positions(l)) && RemoveBlock(l, b) == RemoveBlock(layout, b)
      decreases Length(InstsOf(l, b))
    {
      LastHas(InstsOf(l, b));
      var i := Last(InstsOf(l, b)).value;
      HeldOnlyIn(l, b, i);
      RemoveEmptied(l, b, i);
      RemovePositions(l, i);
      WithoutDistinct(Positions(l), i);
      RemoveInstBlocks(l, i, b);
      WithoutShorter(InstsOf(l, b), i);
      l := RemoveInst(l, i);
    }
  }

  lemma {:induction false} WithoutShorter(insts: List<Inst>, i: Inst)
    ensures Length(Without(insts, i)) <= Length(insts) && (Has(insts, i) ==> Length(Without(insts, i)) < Length(insts))
  {
    if insts.Cons? { WithoutShorter(insts.tail, i); }
  }

  // ----- The loop -----

  /** A function that reduction may hold: it is sound and still crashes. */
  predicate Good(f: Func, crash: Oracle) { Sound(f) && crash(f) }

  predicate AllGood(states: List<Func>, crash: Oracle)
  {
    states.Cons? ==> Good(states.head, crash) && AllGood(states.tail, crash)
  }

  /** An oracle that crashes only on functions in which every merge can be carried out. */
  ghost predicate Compiles(crash: Oracle) { forall f: Func :: crash(f) ==> Verified(f) }

  lemma {:induction false} LengthAppend(a: List<Pos>, p: Pos)
    ensures Length(Append(a, Cons(p, Nil))) == Length(a) + 1
  {
    if a.Cons? { LengthAppend(a.tail, p); }
  }

  /** How far an instruction cursor has come in the positions that the phase started with. */
  ghost predicate Toured(all: List<Pos>, visited: List<Pos>, rest: List<Pos>, k: nat)
  {
    Append(visited, rest) == all && rest.Cons? && Length(visited) == k
  }

  lemma {:induction false} TourOn(all: List<Pos>, visited: List<Pos>, rest: List<Pos>, k: nat)
    requires Toured(all, visited, rest, k) && rest.tail.Cons?
    ensures Toured(all, Append(visited, Cons(rest.head, Nil)), rest.tail, k + 1)
  {
    AppendAssoc(visited, Cons(rest.head, Nil), rest.tail);
    LengthAppend(visited, rest.head);
  }

  /** Functions held one after the other, the latest first, from `f0` to `f`: each is a change of the one before. */
  ghost predicate Chain(f0: Func, states: List<Func>, f: Func)
  {
    && states.Cons? && states.head == f
    && if states.tail.Nil? then f == f0 else ChangeOf(states.tail.head, f) && Chain(f0, states.tail, states.tail.head)
  }

  /** What a mutator has to go on from: the targets that are left, the next table, and the block it is at. */
  datatype Cursor = Cursor(todo: List<Target>, kind: nat, block: Block)

  /** From this cursor at most `n` turns make `h` of the function that is held, or get stuck there. */
  ghost predicate ComesTo(phase: nat, c: Cursor, from: Held, crash: Oracle, n: nat, h: Held, stuck: bool)
  {
    if phase <= REPLACE_PARAM then !stuck && h == Swept(phase, from, c.todo, crash, n)
    else if phase == REMOVE_ENTITIES then
      !stuck && h.shrunk == from.shrunk && Compactions(from.func, c.kind, h.func, crash)
    else MergeResult(h, stuck) == MergeSwept(from, c.block, crash, n)
  }

  /** How one turn moves the cursor, when `kept` says whether its mutation was kept. */
  ghost predicate Turns(phase: nat, f: Func, c: Cursor, c': Cursor, m: Mutation, crash: Oracle)
  {
    var kept := Keeps(m, crash);
    if phase <= REPLACE_PARAM then
      Follows(phase, f, c.todo, m) && (m.Step? ==> c'.todo == Left(phase, c.todo.tail, kept))
    else if phase == REMOVE_ENTITIES then Compacts(f, c.kind, c'.kind, m)
    else
      exists b: Block, prev: Option<Block> ::
        Merges(f, c.block, b, prev, m) && (m.Step? ==> c'.block == if kept && prev.Some? then prev.value else b)
  }

  lemma {:induction false} TurnMakes(phase: nat, c: Cursor, c': Cursor, from: Held, crash: Oracle, n: nat, m: Mutation,
                                     h: Held, stuck: bool)
    requires n > 0 && m.Step? && Turns(phase, from.func, c, c', m, crash)
    requires ComesTo(phase, c', Keep(from, m, crash), crash, n - 1, h, stuck)
    ensures ComesTo(phase, c, from, crash, n, h, stuck)
  {
    if phase == REMOVE_ENTITIES {
      assert Makes(Compact(KindOf(c.kind)), from.func, m.func);
      assert Keep(from, m, crash).func == if crash(m.func) then m.func else from.func;
    }
  }

  lemma {:induction false} NoTurnMakes(phase: nat, c: Cursor, c': Cursor, from: Held, crash: Oracle, n: nat,
                                       m: Mutation)
    requires n > 0 && !m.Step? && Turns(phase, from.func, c, c', m, crash)
    ensures ComesTo(phase, c, from, crash, n, from, m.Stuck?)
  {
  }

  /** One turn of the loop: try a mutation, and keep it when the function still crashes. */
  method TryOne(mutator: Mutator, f: Func, crash: Oracle) returns (m: Mutation, g: Func, kept: bool)
    requires Good(f, crash) && mutator.Valid(f) && mutator.phase <= MERGE_BLOCKS
    modifies mutator
    ensures m.Stuck? ==> mutator.phase == MERGE_BLOCKS && !Verified(f)
    ensures kept == Keeps(m, crash) && g == if kept then m.func else f
    ensures m.Step? ==> Good(g, crash) && mutator.Valid(g) && (kept ==> ChangeOf(f, g))
    ensures mutator.phase <= MOVE_INST ==>
              Visits(old(mutator.rest), old(mutator.visited), mutator.rest, mutator.visited, m)
    ensures Turns(mutator.phase, f, old(mutator.Standing(f)), mutator.Standing(g), m, crash)
  {
    m := mutator.Mutate(f);
    g, kept := f, false;
    ghost var b := mutator.block;
    if m.Step? && !m.status.Skip? && crash(m.func) {
      g, kept := m.func, true;
      mutator.DidCrash(g);
    }
    assert mutator.phase == MERGE_BLOCKS ==> Merges(f, old(mutator.block), b, mutator.prevBlock, m);
  }

  /**
   One phase. Whatever mutations are kept, every function it holds is sound, crashes and is a change
   of the one before. An instruction cursor visits the positions that the phase started with, in
   order and once each, up to but without the last, or as many as the iteration limit allows. What is
   left is what the phase makes of the function: for instructions, blocks and parameters by trying
   the targets that it started with one after the other. Only merging can get stuck.
   */
  method RunPhase(f0: Func, phase: nat, crash: Oracle)
    returns (f: Func, shrunk: bool, stuck: bool,
             ghost states: List<Func>, ghost visited: List<Pos>, ghost rest: List<Pos>)
    requires Good(f0, crash) && phase <= MERGE_BLOCKS
    ensures Good(f, crash) && AllGood(states, crash) && Chain(f0, states, f)
    ensures stuck ==> phase == MERGE_BLOCKS && !Verified(f)
    ensures phase <= MOVE_INST ==> Append(visited, rest) == Positions(f0.layout) && rest.Cons?
    ensures phase <= MOVE_INST ==> rest.tail.Nil? || Length(visited) == ITERATIONS
    ensures PhaseOutcome(phase, f0, f, shrunk, stuck, crash)
  {
    f, shrunk, stuck, states := f0, false, false, Cons(f0, Nil);
    var mutator := new Mutator(f, phase);
    for k := 0 to ITERATIONS
      invariant fresh(mutator) && mutator.phase == phase && !stuck && Good(f, crash) && mutator.Valid(f)
      invariant Story(f0, states, f, crash)
      invariant OnTour(phase, Positions(f0.layout), mutator.visited, mutator.rest, mutator.kind, k)
      invariant Bound(phase, f0, mutator.Standing(f), Held(f, shrunk), crash, ITERATIONS - k)
    {
      ghost var was, left, c := mutator.visited, mutator.rest, mutator.Standing(f);
      var m, g, kept := TryOne(mutator, f, crash);
      if !m.Step? {
        BoundStops(phase, f0, c, mutator.Standing(g), Held(f, shrunk), crash, ITERATIONS - k, m);
        return f, shrunk, m.Stuck?, states, mutator.visited, mutator.rest;
      }
      TourTurn(phase, f, f0, c, mutator.Standing(g), was, left, mutator.visited, mutator.rest, m, crash, k);
      BoundOn(phase, f0, c, mutator.Standing(g), Held(f, shrunk), crash, ITERATIONS - k, m);
      if kept {
        f, states := g, Cons(g, states);
        if m.status.ExpandedOrShrinked? { shrunk := true; }
      }
    }
    if phase != REMOVE_ENTITIES { BoundDone(phase, f0, mutator.Standing(f), Held(f, shrunk), crash); }
    visited, rest := mutator.visited, mutator.rest;
  }

  /** The functions held so far. */
  ghost predicate Story(f0: Func, states: List<Func>, f: Func, crash: Oracle)
  {
    AllGood(states, crash) && Chain(f0, states, f)
  }

  /** How far the cursor has come after `k` turns. */
  ghost predicate OnTour(phase: nat, all: List<Pos>, visited: List<Pos>, rest: List<Pos>, kind: nat, k: nat)
  {
    (phase <= MOVE_INST ==> Toured(all, visited, rest, k)) && (phase == REMOVE_ENTITIES ==> kind == k <= 4)
  }

  lemma {:induction false} TourTurn(phase: nat, f: Func, f0: Func, c: Cursor, c': Cursor, was: List<Pos>,
                                    left: List<Pos>, visited: List<Pos>, rest: List<Pos>, m: Mutation,
                                    crash: Oracle, k: nat)
    requires OnTour(phase, Positions(f0.layout), was, left, c.kind, k) && m.Step?
    requires phase <= MOVE_INST ==> left.Cons? && Visits(left, was, rest, visited, m)
    requires Turns(phase, f, c, c', m, crash)
    ensures OnTour(phase, Positions(f0.layout), visited, rest, c'.kind, k + 1)
  {
    if phase <= MOVE_INST { TourOn(Positions(f0.layout), was, left, k); }
  }

  /** Whatever comes of going on from here is an outcome of the whole phase. */
  ghost predicate Bound(phase: nat, f0: Func, c: Cursor, from: Held, crash: Oracle, n: nat)
    requires f0.layout.Cons?
  {
    forall h: Held, stuck: bool ::
      ComesTo(phase, c, from, crash, n, h, stuck) ==> PhaseOutcome(phase, f0, h.func, h.shrunk, stuck, crash)
  }

  lemma {:induction false} BoundStops(phase: nat, f0: Func, c: Cursor, c': Cursor, from: Held, crash: Oracle, n: nat,
                                      m: Mutation)
    requires f0.layout.Cons? && Bound(phase, f0, c, from, crash, n)
    requires n > 0 && !m.Step? && Turns(phase, from.func, c, c', m, crash)
    ensures PhaseOutcome(phase, f0, from.func, from.shrunk, m.Stuck?, crash)
  {
    NoTurnMakes(phase, c, c', from, crash, n, m);
    assert ComesTo(phase, c, from, crash, n, from, m.Stuck?);
  }

  lemma {:induction false} BoundDone(phase: nat, f0: Func, c: Cursor, from: Held, crash: Oracle)
    requires f0.layout.Cons? && Bound(phase, f0, c, from, crash, 0) && phase != REMOVE_ENTITIES
    ensures PhaseOutcome(phase, f0, from.func, from.shrunk, false, crash)
  {
    assert ComesTo(phase, c, from, crash, 0, from, false);
  }

  lemma {:induction false} BoundOn(phase: nat, f0: Func, c: Cursor, c': Cursor, from: Held, crash: Oracle, n: nat,
                                   m: Mutation)
    requires f0.layout.Cons? && Bound(phase, f0, c, from, crash, n)
    requires n > 0 && m.Step? && Turns(phase, from.func, c, c', m, crash)
    ensures Bound(phase, f0, c', Keep(from, m, crash), crash, n - 1)
  {
    forall h: Held, stuck: bool | ComesTo(phase, c', Keep(from, m, crash), crash, n - 1, h, stuck)
      ensures PhaseOutcome(phase, f0, h.func, h.shrunk, stuck, crash)
    {
      TurnMakes(phase, c, c', from, crash, n, m, h, stuck);
    }
  }

  /** `try_resolve_aliases`, and `try_remove_srclocs`: the changed function when it still crashes. */
  function Resolved(f: Func, crash: Oracle): Func { if crash(WithoutAliases(f)) then WithoutAliases(f) else f }

  function Stripped(f: Func, crash: Oracle): Func { if crash(f.(srclocs := {})) then f.(srclocs := {}) else f }

  method TryResolveAliases(f: Func, crash: Oracle) returns (g: Func)
    requires Good(f, crash)
    ensures Good(g, crash) && g == Resolved(f, crash)
  {
    g := WithoutAliases(f);
    if !crash(g) { g := f; }
  }

  method TryRemoveSrclocs(f: Func, crash: Oracle) returns (g: Func)
    requires Good(f, crash)
    ensures Good(g, crash) && g == Stripped(f, crash)
  {
    g := f.(srclocs := {});
    if !crash(g) { g := f; }
  }

  /** The functions held from one point to another, put before those held up to there. */
  function Onto(later: List<Func>, states: List<Func>): List<Func>
  {
    if later.Nil? || later.tail.Nil? then states else Cons(later.head, Onto(later.tail, states))
  }

  lemma {:induction false} ChainOnto(f0: Func, states: List<Func>, f: Func, later: List<Func>, g: Func, crash: Oracle)
    requires Chain(f0, states, f) && Chain(f, later, g) && AllGood(states, crash) && AllGood(later, crash)
    ensures Chain(f0, Onto(later, states), g) && AllGood(Onto(later, states), crash)
    decreases later
  {
    if later.tail.Cons? { ChainOnto(f0, states, f, later.tail, later.tail.head, crash); }
  }

  /** The functions that phases started with, each led to the next by its phase; and which of them shrank it. */
  ghost predicate Passed(starts: seq<Func>, shrunk: seq<bool>, stuck: bool, crash: Oracle)
  {
    && |starts| == |shrunk| + 1
    && forall p: nat :: p < |shrunk| ==>
         starts[p].layout.Cons? &&
         PhaseOutcome(p, starts[p], starts[p + 1], shrunk[p], stuck && p == MERGE_BLOCKS, crash)
  }

  lemma {:induction false} PassOn(starts: seq<Func>, shrunk: seq<bool>, crash: Oracle, g: Func, s: bool, stuck: bool)
    requires Passed(starts, shrunk, false, crash) && starts[|shrunk|].layout.Cons?
    requires stuck ==> |shrunk| == MERGE_BLOCKS
    requires PhaseOutcome(|shrunk|, starts[|shrunk|], g, s, stuck, crash)
    ensures Passed(starts + [g], shrunk + [s], stuck, crash)
  {
    var all, flags := starts + [g], shrunk + [s];
    forall p: nat | p < |flags|
      ensures all[p].layout.Cons?
      ensures PhaseOutcome(p, all[p], all[p + 1], flags[p], stuck && p == MERGE_BLOCKS, crash)
    {
    }
  }

  /** A whole pass: all eight phases in order. It calls for another exactly when one of them shrank the function. */
  ghost predicate PassOf(f: Func, g: Func, again: bool, stuck: bool, crash: Oracle)
  {
    exists starts: seq<Func>, shrunk: seq<bool> ::
      && Passed(starts, shrunk, stuck, crash) && |shrunk| == 8
      && starts[0] == f && starts[8] == g && (again <==> true in shrunk)
  }

  /**
   One pass over all phases: it is repeated when a phase has shrunk the function. Merging is the last
   phase, so that all have started when a pass gets stuck.
   */
  method RunPass(f0: Func, crash: Oracle)
    returns (f: Func, keepReducing: bool, stuck: bool, ghost states: List<Func>)
    requires Good(f0, crash)
    ensures Good(f, crash) && AllGood(states, crash) && Chain(f0, states, f) && (stuck ==> !Verified(f))
    ensures PassOf(f0, f, keepReducing, stuck, crash)
  {
    f, keepReducing, stuck, states := f0, false, false, Cons(f0, Nil);
    ghost var starts: seq<Func>, shrunken: seq<bool> := [f0], [];
    for phase := 0 to 8
      invariant Good(f, crash) && AllGood(states, crash) && Chain(f0, states, f)
      invariant stuck ==> phase == 8 && !Verified(f)
      invariant |shrunken| == phase && Passed(starts, shrunken, stuck, crash)
      invariant starts[0] == f0 && starts[phase] == f && (keepReducing <==> true in shrunken)
    {
      var g, shrunk;
      ghost var more, visited, rest;
      g, shrunk, stuck, more, visited, rest := RunPhase(f, phase, crash);
      ChainOnto(f0, states, f, more, g, crash);
      PassOn(starts, shrunken, crash, g, shrunk, stuck);
      f, states := g, Onto(more, states);
      starts, shrunken := starts + [g], shrunken + [shrunk];
      if shrunk { keepReducing := true; }
    }
  }

  /** What `reduce` comes to: it may get stuck at a function that it holds. */
  datatype Reduction = NoCrash | Reduced(func: Func) | StuckAt(func: Func)

  /** The functions that passes started with: each pass but the last has called for another. */
  ghost predicate Repeated(passes: seq<Func>, crash: Oracle)
  {
    forall i: nat :: i + 1 < |passes| ==> PassOf(passes[i], passes[i + 1], true, false, crash)
  }

  /** The passes over a function: until one does not call for another, gets stuck, or is the last one allowed. */
  ghost predicate PassesOver(f0: Func, passes: seq<Func>, f: Func, again: bool, stuck: bool, crash: Oracle)
  {
    && 0 < |passes| <= PASSES && passes[0] == f0 && Repeated(passes, crash)
    && PassOf(passes[|passes| - 1], f, again, stuck, crash) && (again && !stuck ==> |passes| == PASSES)
  }

  /** Before pass number `pass` as many have called for another; after the last one that may be the last. */
  ghost predicate PassesSoFar(f0: Func, passes: seq<Func>, f: Func, pass: nat, crash: Oracle)
  {
    && pass <= PASSES && Repeated(passes, crash)
    && |passes| == (if pass < PASSES then pass + 1 else PASSES) && passes[0] == f0
    && if pass < PASSES then passes[pass] == f else PassOf(passes[PASSES - 1], f, true, false, crash)
  }

  lemma {:induction false} RepeatedOn(passes: seq<Func>, g: Func, crash: Oracle)
    requires |passes| > 0 && Repeated(passes, crash) && PassOf(passes[|passes| - 1], g, true, false, crash)
    ensures Repeated(passes + [g], crash)
  {
    forall i: nat | i + 1 < |passes| + 1
      ensures PassOf((passes + [g])[i], (passes + [g])[i + 1], true, false, crash)
    {
      if i + 1 < |passes| { assert PassOf(passes[i], passes[i + 1], true, false, crash); }
    }
  }

  /** The passes. */
  method RunPasses(f0: Func, crash: Oracle)
    returns (f: Func, stuck: bool, ghost again: bool, ghost states: List<Func>, ghost passes: seq<Func>)
    requires Good(f0, crash)
    ensures Good(f, crash) && AllGood(states, crash) && Chain(f0, states, f) && (stuck ==> !Verified(f))
    ensures PassesOver(f0, passes, f, again, stuck, crash)
  {
    f, stuck, again, states, passes := f0, false, true, Cons(f0, Nil), [f0];
    for pass := 0 to PASSES
      invariant Good(f, crash) && AllGood(states, crash) && Chain(f0, states, f) && again && !stuck
      invariant PassesSoFar(f0, passes, f, pass, crash)
    {
      var g, keepReducing;
      ghost var more;
      g, keepReducing, stuck, more := RunPass(f, crash);
      ChainOnto(f0, states, f, more, g, crash);
      f, states, again := g, Onto(more, states), keepReducing;
      if stuck || !keepReducing { break; }
      if pass + 1 < PASSES {
        RepeatedOn(passes, f, crash);
        passes := passes + [f];
      }
    }
  }

  /**
   `reduce`, for any oracle. Every function that is ever held, up to the one that is returned, is
   sound, crashes and is a change of the one before: the final check cannot succeed. What is returned
   is what the changes tried first, the passes and the resolution of aliases make of the function. The
   only way not to come to a result is a merge that cannot be carried out.
   */
  method Reduce(f0: Func, crash: Oracle)
    returns (r: Reduction, ghost states: List<Func>, ghost passes: seq<Func>, ghost last: Func, ghost again: bool)
    requires crash(f0) ==> Sound(f0)
    ensures r.NoCrash? <==> !crash(f0)
    ensures !r.NoCrash? ==> Good(r.func, crash) && AllGood(states, crash) && Chain(f0, states, r.func)
    ensures !r.NoCrash? ==>
              PassesOver(Stripped(Resolved(f0, crash), crash), passes, last, again, r.StuckAt?, crash)
    ensures r.Reduced? ==> r.func == Resolved(last, crash)
    ensures r.StuckAt? ==> r.func == last && !Verified(r.func)
    ensures Compiles(crash) ==> !r.StuckAt?
  {
    states, passes, last, again := Nil, [], f0, false;
    if !crash(f0) { return NoCrash, states, passes, last, again; }
    var f, stuck;
    ghost var first, more;
    f, states := Prepare(f0, crash);
    first := f;
    f, stuck, again, more, passes := RunPasses(f, crash);
    ChainOnto(f0, states, first, more, f, crash);
    last, states := f, Onto(more, states);
    if stuck { return StuckAt(f), states, passes, last, again; }
    var g := TryResolveAliases(f, crash);
    if crash(WithoutAliases(f)) {
      assert Makes(ResolveAliases, f, g);
      states := Cons(g, states);
    }
    assert crash(g);
    r := Reduced(g);
  }

  /** The changes that `reduce` tries first. */
  method Prepare(f0: Func, crash: Oracle) returns (f: Func, ghost states: List<Func>)
    requires Good(f0, crash)
    ensures Good(f, crash) && AllGood(states, crash) && Chain(f0, states, f)
    ensures f == Stripped(Resolved(f0, crash), crash)
  {
    states := Cons(f0, Nil);
    var g := TryResolveAliases(f0, crash);
    if crash(WithoutAliases(f0)) {
      assert Makes(ResolveAliases, f0, g);
      states := Cons(g, states);
    }
    assert AllGood(states, crash) && Chain(f0, states, g);
    f := TryRemoveSrclocs(g, crash);
    if crash(g.(srclocs := {})) {
      assert Makes(DropSrclocs, g, f);
      states := Cons(f, states);
    }
  }

  // ----- The merge phase needs no iteration limit -----

  lemma {:induction false} RemoveBlockLength(layout: List<Blk>, b: Block)
    ensures Length(RemoveBlock(layout, b)) <= Length(layout)
    ensures HasBlock(layout, b) ==> Length(RemoveBlock(layout, b)) < Length(layout)
  {
    if layout.Cons? { RemoveBlockLength(layout.tail, b); }
  }

  lemma {:induction false} SameLength(layout: List<Blk>, b: Block, insts: List<Inst>, i: Inst)
    ensures Length(SetInsts(layout, b, insts)) == Length(layout) && Length(RemoveInst(layout, i)) == Length(layout)
    ensures HasBlock(RemoveInst(layout, i), b) <==> HasBlock(layout, b)
  {
    if layout.Cons? { SameLength(layout.tail, b, insts, i); }
  }

  /** A merge leaves one block less. */
  lemma {:induction false} MergedShorter(f: Func, pred: Pos, b: Block)
    requires HasBlock(f.layout, b) && Data(f, pred.inst).dests.Cons?
    ensures Length(Merged(f, pred, b).layout) < Length(f.layout)
  {
    var l := RemoveInst(f.layout, pred.inst);
    SameLength(f.layout, b, Nil, pred.inst);
    RemoveBlockLength(l, b);
    SameLength(RemoveBlock(l, b), pred.block, Append(InstsOf(l, pred.block), InstsOf(l, b)), 0);
  }

  /**
   The merge phase run to its end: each step leaves fewer blocks, or as many and fewer of them after
   the cursor, whatever the oracle says. The only other end is a merge that cannot be carried out.
   */
  method MergeToEnd(f0: Func, crash: Oracle) returns (f: Func, stuck: bool)
    requires Good(f0, crash)
    ensures Good(f, crash) && Length(f.layout) <= Length(f0.layout) && (stuck ==> !Verified(f))
  {
    stuck := false;
    f := f0;
    var mutator := new Mutator(f, MERGE_BLOCKS);
    var more := true;
    while more
      invariant fresh(mutator) && mutator.phase == MERGE_BLOCKS
      invariant Good(f, crash) && Length(f.layout) <= Length(f0.layout) && (stuck ==> !more && !Verified(f))
      decreases Length(f.layout), BlocksAfter(f.layout, mutator.block), more
    {
      ghost var at := mutator.block;
      var m := mutator.MergeStep(f);
      if !m.NoMore? {
        NextBlockCloser(f.layout, at);
        NextBlockIn(f.layout, at);
      }
      if !m.Step? {
        more, stuck := false, m.Stuck?;
      } else {
        if !m.status.Skip? && crash(m.func) {
          MergedShorter(f, Preds(f, mutator.block).head, mutator.block);
          f := m.func;
          mutator.DidCrash(f);
        }
      }
    }
  }
}
