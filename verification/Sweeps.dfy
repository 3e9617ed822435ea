/** What a phase of the reducer does as a whole: it tries one target after the other and keeps what still crashes. */
module Sweeps {
  import opened Lists
  import opened Wrappers
  import opened Layouts
  import opened Ir
  import opened Mutations
  import Entities

  datatype Progress = ExpandedOrShrinked | Changed | Skip

  /** What `mutate` returns. It is stuck where the source panics or never returns. */
  datatype Mutation = NoMore | Step(func: Func, status: Progress) | Stuck

  /** Whether compiling a function panics. */
  type Oracle = Func -> bool

  const REMOVE_INST := 0
  const REPLACE_CONST := 1
  const REPLACE_TRAP := 2
  const MOVE_INST := 3
  const REMOVE_BLOCK := 4
  const REPLACE_PARAM := 5
  const REMOVE_ENTITIES := 6
  const MERGE_BLOCKS := 7

  const ITERATIONS := 10000
  const PASSES := 100

  // ----- Targets -----

  /** What a mutator is tried on: an instruction, with the position after it; a block; a parameter. */
  datatype Target = InstAt(pos: Pos, next: Pos) | WholeBlock(block: Block) | Param(block: Block, n: nat)

  /** Every position but the last. */
  function InstTargets(l: List<Pos>): List<Target>
  {
    if l.Nil? || l.tail.Nil? then Nil else Cons(InstAt(l.head, l.tail.head), InstTargets(l.tail))
  }

  function BlockTargets(layout: List<Blk>): List<Target>
  {
    if layout.Nil? then Nil else Cons(WholeBlock(layout.head.id), BlockTargets(layout.tail))
  }

  /** The first `n` parameters of a block, from the last to the first. */
  function ParamsOf(b: Block, n: nat): List<Target>
  {
    if n == 0 then Nil else Cons(Param(b, n - 1), ParamsOf(b, n - 1))
  }

  /** The parameters of all blocks, block by block. */
  function ParamTargets(f: Func, layout: List<Blk>): List<Target>
  {
    if layout.Nil? then Nil
    else Append(ParamsOf(layout.head.id, Length(Params(f, layout.head.id))), ParamTargets(f, layout.tail))
  }

  /** The blocks after `b`. */
  function LaterBlocks(layout: List<Blk>, b: Block): List<Blk>
  {
    if layout.Nil? then Nil else if layout.head.id == b then layout.tail else LaterBlocks(layout.tail, b)
  }

  /** The parameters that are left when the first `n` of `b` are the next ones. */
  function ParamsLeft(f: Func, b: Block, n: nat): List<Target>
  {
    Append(ParamsOf(b, n), ParamTargets(f, LaterBlocks(f.layout, b)))
  }

  /** What a phase starts with. */
  function Targets(phase: nat, f: Func): List<Target>
  {
    if phase <= MOVE_INST then InstTargets(Positions(f.layout))
    else if f.layout.Nil? then Nil
    else if phase == REMOVE_BLOCK then BlockTargets(f.layout.tail)
    else if phase == REPLACE_PARAM then ParamTargets(f, f.layout)
    else Nil
  }

  lemma {:induction false} LaterNext(layout: List<Blk>, b: Block)
    requires DistinctBlocks(layout)
    ensures NextBlock(layout, b).None? <==> LaterBlocks(layout, b).Nil?
    ensures NextBlock(layout, b).Some? ==>
              && LaterBlocks(layout, b).head.id == NextBlock(layout, b).value
              && LaterBlocks(layout, NextBlock(layout, b).value) == LaterBlocks(layout, b).tail
  {
    if layout.Cons? && layout.head.id != b {
      LaterNext(layout.tail, b);
      if NextBlock(layout.tail, b).Some? {
        NextBlockIn(layout.tail, b);
        NoBlockHas(layout.tail, layout.head.id);
      }
    }
  }

  /** A block that is removed has none after it. */
  lemma {:induction false} NoneLater(layout: List<Blk>, b: Block)
    ensures LaterBlocks(RemoveBlock(layout, b), b).Nil?
  {
    if layout.Cons? { NoneLater(layout.tail, b); }
  }

  predicate Among(l: List<Target>, t: Target) { l.Cons? && (l.head == t || Among(l.tail, t)) }

  lemma {:induction false} AmongAppend(a: List<Target>, b: List<Target>, t: Target)
    ensures Among(Append(a, b), t) <==> Among(a, t) || Among(b, t)
    decreases a
  {
    if a.Cons? { AmongAppend(a.tail, b, t); }
  }

  lemma {:induction false} AmongParamsOf(b: Block, n: nat, t: Target)
    ensures Among(ParamsOf(b, n), t) <==> t.Param? && t.block == b && t.n < n
    decreases n
  {
    if n != 0 { AmongParamsOf(b, n - 1, t); }
  }

  /** What is tried are all parameters of all blocks, and nothing else. */
  lemma {:induction false} AllParamsTried(f: Func, layout: List<Blk>, t: Target)
    ensures Among(ParamTargets(f, layout), t) <==>
            t.Param? && HasBlock(layout, t.block) && t.n < Length(Params(f, t.block))
    decreases layout
  {
    if layout.Cons? {
      var n := Length(Params(f, layout.head.id));
      AmongAppend(ParamsOf(layout.head.id, n), ParamTargets(f, layout.tail), t);
      AmongParamsOf(layout.head.id, n, t);
      AllParamsTried(f, layout.tail, t);
    }
  }

  // ----- Parameters that are left when one is replaced -----

  predicate SameIds(a: List<Blk>, b: List<Blk>)
  {
    if a.Nil? || b.Nil? then a.Nil? && b.Nil? else a.head.id == b.head.id && SameIds(a.tail, b.tail)
  }

  lemma {:induction false} InsertSameIds(layout: List<Blk>, i: Inst, at: Inst)
    ensures SameIds(layout, InsertInst(layout, i, at))
  {
    if layout.Cons? {
      InsertSameIds(layout.tail, i, at);
      SameIdsSelf(layout.tail);
    }
  }

  lemma {:induction false} SameIdsSelf(layout: List<Blk>)
    ensures SameIds(layout, layout)
  {
    if layout.Cons? { SameIdsSelf(layout.tail); }
  }

  lemma {:induction false} SameIdsTwice(a: List<Blk>, b: List<Blk>, c: List<Blk>)
    requires SameIds(a, b) && SameIds(b, c)
    ensures SameIds(a, c)
  {
    if a.Cons? { SameIdsTwice(a.tail, b.tail, c.tail); }
  }

  lemma {:induction false} SameIdsLater(a: List<Blk>, b: List<Blk>, c: Block)
    requires SameIds(a, b)
    ensures SameIds(LaterBlocks(a, c), LaterBlocks(b, c))
  {
    if a.Cons? && a.head.id != c { SameIdsLater(a.tail, b.tail, c); }
  }

  lemma {:induction false} SameParams(f: Func, a: List<Blk>, g: Func, b: List<Blk>, c: Block)
    requires SameIds(a, b) && NoBlock(a, c)
    requires forall d: Block :: d != c ==> Params(g, d) == Params(f, d)
    ensures ParamTargets(g, b) == ParamTargets(f, a)
  {
    if a.Cons? { SameParams(f, a.tail, g, b.tail, c); }
  }

  lemma {:induction false} LaterIsOther(layout: List<Blk>, b: Block)
    requires DistinctBlocks(layout)
    ensures NoBlock(LaterBlocks(layout, b), b)
  {
    if layout.Cons? && layout.head.id != b { LaterIsOther(layout.tail, b); }
  }

  lemma ConstIds(f: Func, at: Inst, v: Value)
    ensures SameIds(f.layout, WithConst(f, at, v).layout) && WithConst(f, at, v).params == f.params
  {
    var once := InsertInst(f.layout, f.freshInst, at);
    InsertSameIds(f.layout, f.freshInst, at);
    InsertSameIds(once, f.freshInst + 1, at);
    SameIdsTwice(f.layout, once, InsertInst(once, f.freshInst + 1, at));
  }

  lemma {:induction false} ArgRemovedSame(f: Func, preds: List<Pos>, b: Block, n: nat)
    ensures var g := ArgRemoved(f, preds, b, n); g.layout == f.layout && g.params == f.params
    decreases preds
  {
    if preds.Cons? {
      var i, data := preds.head.inst, Data(f, preds.head.inst);
      ArgRemovedSame(f.(insts := f.insts[i := data.(dests := WithoutArg(data.dests, b, n))]), preds.tail, b, n);
    }
  }

  /** Replacing a parameter leaves those before it and those of the blocks after it. */
  lemma {:induction false} ParamsStillLeft(f: Func, b: Block, n: nat)
    requires HasBlock(f.layout, b) && Solid(f.layout) && DistinctBlocks(f.layout) && n < Length(Params(f, b))
    ensures ParamsLeft(ParamReplaced(f, b, n), b, n) == ParamsLeft(f, b, n)
  {
    var h := f.(params := f.params[b := RemoveNth(Params(f, b), n)]);
    var c := ParamConst(f, b, n);
    ConstIds(h, FirstOf(f.layout, b), Nth(Params(f, b), n));
    ArgRemovedSame(c, Preds(c, b), b, n);
    var g := ParamReplaced(f, b, n);
    SameIdsLater(f.layout, g.layout, b);
    LaterIsOther(f.layout, b);
    SameParams(f, LaterBlocks(f.layout, b), g, LaterBlocks(g.layout, b), b);
  }

  // ----- Trying targets in order -----

  /** What an instruction mutator tries at a position, when `next` is the position after it. */
  function Tried(phase: nat, f: Func, p: Pos, next: Pos): Mutation
  {
    var data := Data(f, p.inst);
    if phase == REMOVE_INST then Step(Dropped(f, p), ExpandedOrShrinked)
    else if phase == REPLACE_CONST then
      if ConstSkips(f, data) then Step(f, Skip)
      else Step(ByConsts(f, p.inst), if data.results.tail.Nil? then Changed else ExpandedOrShrinked)
    else if phase == REPLACE_TRAP then
      if data.op.Trap? then Step(f, Skip) else Step(Trapping(f, p.inst), Changed)
    else if f.layout.Nil? || f.layout.head.id == p.block || next.block != p.block then Step(f, Skip)
    else Step(Moved(f, p), ExpandedOrShrinked)
  }

  /**
   What is passed over, and what counts as progress that calls for another pass. Replacing one result
   by a constant, or an instruction by a trap, does not; moving an instruction does.
   */
  lemma TriedStatus(phase: nat, f: Func, p: Pos, next: Pos)
    requires f.layout.Cons?
    ensures var m, d := Tried(phase, f, p, next), Data(f, p.inst);
            && m.Step? && (m.status.Skip? ==> m.func == f)
            && (phase == REMOVE_INST ==> m.status.ExpandedOrShrinked?)
            && (phase == REPLACE_CONST && !m.status.Skip? ==>
                  d.results.Cons? && (m.status.Changed? <==> d.results.tail.Nil?))
            && (phase == REPLACE_TRAP ==> if d.op.Trap? then m.status.Skip? else m.status.Changed?)
            && (phase == MOVE_INST ==>
                  if p.block == f.layout.head.id || next.block != p.block then m.status.Skip?
                  else m.status.ExpandedOrShrinked?)
  {
  }

  function WithoutBlock(f: Func, b: Block): Func { f.(layout := RemoveBlock(f.layout, b)) }

  function TriedOn(phase: nat, f: Func, t: Target): Mutation
  {
    match t
    case InstAt(p, next) => Tried(phase, f, p, next)
    case WholeBlock(b) => Step(WithoutBlock(f, b), ExpandedOrShrinked)
    case Param(b, n) =>
      if HasBlock(f.layout, b) && Solid(f.layout) && n < Length(Params(f, b))
      then Step(ParamReplaced(f, b, n), ExpandedOrShrinked)
      else NoMore
  }

  /** The function that is held, and whether it has shrunk in this phase. */
  datatype Held = Held(func: Func, shrunk: bool)

  predicate Keeps(m: Mutation, crash: Oracle) { m.Step? && !m.status.Skip? && crash(m.func) }

  function Keep(h: Held, m: Mutation, crash: Oracle): Held
  {
    if Keeps(m, crash) then Held(m.func, h.shrunk || m.status.ExpandedOrShrinked?) else h
  }

  /** What is left to try: nothing once a block is removed, since the cursor has gone with it. */
  function Left(phase: nat, rest: List<Target>, kept: bool): List<Target>
  {
    if phase == REMOVE_BLOCK && kept then Nil else rest
  }

  /** Trying each of the given targets in order, and at most `n` of them. */
  function Swept(phase: nat, h: Held, l: List<Target>, crash: Oracle, n: nat): Held
    decreases n
  {
    if n == 0 || l.Nil? then h
    else
      var m := TriedOn(phase, h.func, l.head);
      Swept(phase, Keep(h, m, crash), Left(phase, l.tail, Keeps(m, crash)), crash, n - 1)
  }

  /** A whole phase, up to the replacement of parameters. */
  function Sweep(phase: nat, f: Func, crash: Oracle): Held
  {
    Swept(phase, Held(f, false), Targets(phase, f), crash, ITERATIONS)
  }

  // ----- The removal of blocks -----

  /** Block `k` of those that may be removed is the first one without which the function still crashes. */
  predicate FirstRemovable(f: Func, layout: List<Blk>, crash: Oracle, n: nat, k: nat)
  {
    && layout.Cons? && n > 0
    && if k == 0 then crash(WithoutBlock(f, layout.head.id))
       else !crash(WithoutBlock(f, layout.head.id)) && FirstRemovable(f, layout.tail, crash, n - 1, k - 1)
  }

  predicate NoneRemovable(f: Func, layout: List<Blk>, crash: Oracle, n: nat)
  {
    layout.Cons? && n > 0 ==>
      !crash(WithoutBlock(f, layout.head.id)) && NoneRemovable(f, layout.tail, crash, n - 1)
  }

  lemma {:induction false} BlocksSwept(f: Func, layout: List<Blk>, crash: Oracle, n: nat) returns (k: nat)
    ensures var h := Swept(REMOVE_BLOCK, Held(f, false), BlockTargets(layout), crash, n);
            if NoneRemovable(f, layout, crash, n) then h == Held(f, false)
            else
              FirstRemovable(f, layout, crash, n, k) && k < Length(layout) &&
              h == Held(WithoutBlock(f, Nth(layout, k).id), true)
    decreases layout
  {
    k := 0;
    if layout.Cons? && n > 0 && !crash(WithoutBlock(f, layout.head.id)) {
      var j := BlocksSwept(f, layout.tail, crash, n - 1);
      k := j + 1;
    }
  }

  /**
   The phase that removes blocks removes at most one: the first without which the function still
   crashes, if there is any among those that the iteration limit lets it try.
   */
  lemma {:induction false} OneBlockRemoved(f: Func, crash: Oracle) returns (k: nat)
    requires f.layout.Cons?
    ensures var h, others := Sweep(REMOVE_BLOCK, f, crash), f.layout.tail;
            if NoneRemovable(f, others, crash, ITERATIONS) then h == Held(f, false)
            else
              FirstRemovable(f, others, crash, ITERATIONS, k) && k < Length(others) &&
              h == Held(WithoutBlock(f, Nth(others, k).id), true)
  {
    k := BlocksSwept(f, f.layout.tail, crash, ITERATIONS);
  }

  // ----- Changes -----

  /** The changes that reduction makes to a function. */
  datatype Change =
    | Drop(pos: Pos)
    | Consts(inst: Inst)
    | TrapAt(inst: Inst)
    | Move(pos: Pos)
    | DropBlock(block: Block)
    | DropParam(block: Block, n: nat)
    | Compact(kind: Entities.Kind)
    | MergeInto(pred: Pos, block: Block)
    | ResolveAliases
    | DropSrclocs

  /** Whether a change turns `f` into `g`. */
  ghost predicate Makes(c: Change, f: Func, g: Func)
  {
    match c
    case Drop(p) => g == Dropped(f, p)
    case Consts(i) => g == ByConsts(f, i)
    case TrapAt(i) => g == Trapping(f, i)
    case Move(p) => g == Moved(f, p)
    case DropBlock(b) => g == WithoutBlock(f, b)
    case DropParam(b, n) =>
      HasBlock(f.layout, b) && Solid(f.layout) && n < Length(Params(f, b)) && g == ParamReplaced(f, b, n)
    case Compact(kind) =>
      Entities.Compacted(f, g, kind) && Entities.SameButRefs(f, Entities.OldTable(f, g, kind), kind)
    case MergeInto(pred, b) => Data(f, pred.inst).dests.Cons? && g == Merged(f, pred, b)
    case ResolveAliases => g == WithoutAliases(f)
    case DropSrclocs => g == f.(srclocs := {})
  }

  ghost predicate ChangeOf(f: Func, g: Func) { exists c: Change :: Makes(c, f, g) }

  // ----- Compacting the tables -----

  function KindOf(k: nat): Entities.Kind
  {
    if k == 0 then Entities.Funcs
    else if k == 1 then Entities.Signatures
    else if k == 2 then Entities.Slots
    else Entities.Globals
  }

  predicate HasDerived(globals: seq<Global>) { exists k :: 0 <= k < |globals| && globals[k].Derived? }

  /** Nothing is left to compact: all tables are done, or the last one holds derived global values. */
  predicate AllCompacted(f: Func, k: nat) { 4 <= k || (k == 3 && HasDerived(f.globals)) }

  /** Compacting one table after the other from `k` on, each kept when the function still crashes, can lead to `g`. */
  ghost predicate Compactions(f: Func, k: nat, g: Func, crash: Oracle)
    decreases 4 - k
  {
    if AllCompacted(f, k) then g == f
    else exists c: Func :: Makes(Compact(KindOf(k)), f, c) && Compactions(if crash(c) then c else f, k + 1, g, crash)
  }

  // ----- Merging blocks -----

  /** The block has one predecessor, whose last instruction leads nowhere else. */
  predicate Mergeable(f: Func, b: Block)
  {
    && Preds(f, b).Cons? && Preds(f, b).tail.Nil?
    && Data(f, Preds(f, b).head.inst).dests.Cons? && Data(f, Preds(f, b).head.inst).dests.tail.Nil?
  }

  /** Every merge that the mutator would make can be carried out. */
  ghost predicate Verified(f: Func)
  {
    forall b: Block :: HasBlock(f.layout, b) && Mergeable(f, b) ==> MergeRuns(f, Preds(f, b).head, b)
  }

  /**
   Whether a merge can be carried out. The block must be passed as many values as it has parameters,
   which the source asserts. And it must not be its own predecessor, unless its branch to itself is
   all it holds: otherwise the loop that moves its instructions never ends, as `MoveLoopEnds` says.
   */
  predicate MergeRuns(f: Func, pred: Pos, b: Block)
    requires Data(f, pred.inst).dests.Cons?
  {
    Movable(f, pred, b) && Length(Data(f, pred.inst).dests.head.args) == Length(Params(f, b))
  }

  datatype MergeResult = MergeResult(held: Held, stuck: bool)

  /**
   Going from block to block: one that can be merged is, and when that is kept the predecessor is the
   block to go on from.
   */
  function MergeSwept(h: Held, b: Block, crash: Oracle, n: nat): MergeResult
    decreases n
  {
    var f := h.func;
    var next := NextBlock(f.layout, b);
    if n == 0 || next.None? then MergeResult(h, false)
    else if !Mergeable(f, next.value) then MergeSwept(h, next.value, crash, n - 1)
    else
      var c, pred := next.value, Preds(f, next.value).head;
      if !MergeRuns(f, pred, c) then MergeResult(h, true)
      else if crash(Merged(f, pred, c)) then MergeSwept(Held(Merged(f, pred, c), true), pred.block, crash, n - 1)
      else MergeSwept(h, c, crash, n - 1)
  }

  // ----- Any phase -----

  /** What a phase makes of a function: what is held in the end, whether it has shrunk, and whether it got stuck. */
  ghost predicate PhaseOutcome(phase: nat, f0: Func, f: Func, shrunk: bool, stuck: bool, crash: Oracle)
    requires f0.layout.Cons?
  {
    if phase <= REPLACE_PARAM then !stuck && Held(f, shrunk) == Sweep(phase, f0, crash)
    else if phase == REMOVE_ENTITIES then !stuck && !shrunk && Compactions(f0, 0, f, crash)
    else MergeResult(Held(f, shrunk), stuck) == MergeSwept(Held(f0, false), f0.layout.head.id, crash, ITERATIONS)
  }
}
