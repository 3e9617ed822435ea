/** The changes that the mutators of the reducer try, as functions on values, and what they keep. */
module Mutations {
  import opened Lists
  import opened Wrappers
  import opened Layouts
  import opened Ir

  /** `rest` is the part of the layout that an instruction cursor has still to visit, starting with the cursor. */
  predicate Ahead(f: Func, rest: List<Pos>) { rest.Cons? && EndsWith(Positions(f.layout), rest) }

  // ----- Removing an instruction -----

  function Dropped(f: Func, p: Pos): Func { f.(layout := DropInst(f.layout, p)) }

  lemma DroppedKeeps(f: Func, p: Pos, rest: List<Pos>)
    requires Sound(f) && Ahead(f, Cons(p, rest)) && rest.Cons?
    ensures Sound(Dropped(f, p)) && Ahead(Dropped(f, p), rest)
  {
    DropInstKeeps(f.layout, p, rest);
    BelowWithout(Positions(f.layout), f.freshInst, p.inst);
    NonEmpty(DropInst(f.layout, p), rest);
  }

  lemma {:induction false} NonEmpty(layout: List<Blk>, rest: List<Pos>)
    requires EndsWith(Positions(layout), rest) && rest.Cons?
    ensures layout.Cons?
  {
  }

  // ----- Replacing an instruction by constants -----

  function Defined(defs: map<Value, Inst>, values: List<Value>, i: Inst): map<Value, Inst>
    decreases values
  {
    if values.Nil? then defs else Defined(defs[values.head := i], values.tail, i)
  }

  /** A new instruction before `at`. */
  function Inserted(f: Func, at: Inst, data: InstData): Func
  {
    f.(layout := InsertInst(f.layout, f.freshInst, at), insts := f.insts[f.freshInst := data],
       defs := Defined(f.defs, data.results, f.freshInst), freshInst := f.freshInst + 1)
  }

  function ConstOp(ty: Type): Op
  {
    match ty
    case F32 => F32const
    case F64 => F64const
    case Vector(_) => Vconst
    case _ => Iconst
  }

  /** `replace_with_const`: define `v` before `at` as a constant; a 128-bit one is extended from 64 bits. */
  function WithConst(f: Func, at: Inst, v: Value): Func
  {
    if TypeOf(f, v) == I128 then
      var narrow := f.freshValue;
      var f1 := f.(types := f.types[narrow := Integer(64)], freshValue := narrow + 1);
      var f2 := Inserted(f1, at, InstData(Iconst, Nil, Nil, Cons(narrow, Nil)));
      Inserted(f2, at, InstData(Uextend, Cons(narrow, Nil), Nil, Cons(v, Nil)))
    else
      Inserted(f, at, InstData(ConstOp(TypeOf(f, v)), Nil, Nil, Cons(v, Nil)))
  }

  /** Constants for the values, in order, before `at`. */
  function ConstsBefore(f: Func, at: Inst, values: List<Value>): Func
    decreases values
  {
    if values.Nil? then f else ConstsBefore(WithConst(f, at, values.head), at, values.tail)
  }

  /** Detach the results of an instruction. */
  function Detached(f: Func, i: Inst): Func { f.(insts := f.insts[i := Data(f, i).(results := Nil)]) }

  /** An instruction makes way for one constant per result. */
  function ByConsts(f: Func, i: Inst): Func
  {
    var g := ConstsBefore(Detached(f, i), i, Data(f, i).results);
    g.(layout := RemoveInst(g.layout, i))
  }

  /** The extension of a constant that an earlier replacement left behind. */
  predicate IsWideConst(f: Func, data: InstData)
    requires data.results.Cons?
  {
    && data.op.Uextend? && data.args.Cons? && TypeOf(f, data.results.head) == I128
    && Resolve(f, data.args.head) in f.defs && Data(f, f.defs[Resolve(f, data.args.head)]).op.Iconst?
  }

  /** Instructions that need no constant, or are one already. */
  predicate ConstSkips(f: Func, data: InstData)
  {
    data.results.Nil? || data.op.Iconst? || data.op.F32const? || data.op.F64const? || IsWideConst(f, data)
  }

  /**
   The instructions that replace a value's definition are not replaced again, unless the value is a
   vector: its constant is not among those that are skipped.
   */
  lemma {:induction false} ReplacementSkipped(f: Func, at: Inst, v: Value, i: Inst)
    requires f.freshValue !in f.alias && f.freshValue != v
    requires f.freshInst <= i < WithConst(f, at, v).freshInst
    ensures ConstSkips(WithConst(f, at, v), Data(WithConst(f, at, v), i)) <==> !TypeOf(f, v).Vector?
  {
    if TypeOf(f, v) == I128 {
      assert Defined(f.defs, Cons(f.freshValue, Nil), f.freshInst) == f.defs[f.freshValue := f.freshInst];
      var defs := f.defs[f.freshValue := f.freshInst];
      assert Defined(defs, Cons(v, Nil), f.freshInst + 1) == defs[v := f.freshInst + 1];
    }
  }

  /** A new instruction before the cursor keeps the function sound and the cursor in place. */
  lemma InsertedKeeps(f: Func, rest: List<Pos>, data: InstData)
    requires Sound(f) && Ahead(f, rest)
    ensures var g := Inserted(f, rest.head.inst, data);
            && Sound(g) && Ahead(g, rest)
            && Has(InstsOf(g.layout, rest.head.block), f.freshInst) && rest.head.inst < f.freshInst
  {
    BelowFresh(Positions(f.layout), f.freshInst);
    InsertKeeps(f.layout, f.freshInst, rest);
    InsertPositions(f.layout, f.freshInst, rest.head.inst);
    BelowMore(Positions(f.layout), f.freshInst, f.freshInst + 1);
    BelowInsert(Positions(f.layout), f.freshInst + 1, f.freshInst, rest.head.inst);
    BelowSuffix(Positions(f.layout), rest, f.freshInst);
    NonEmpty(InsertInst(f.layout, f.freshInst, rest.head.inst), rest);
  }

  lemma WithConstKeeps(f: Func, rest: List<Pos>, v: Value) returns (i: Inst)
    requires Sound(f) && Ahead(f, rest)
    ensures var g := WithConst(f, rest.head.inst, v);
            Sound(g) && Ahead(g, rest) && Has(InstsOf(g.layout, rest.head.block), i) && i != rest.head.inst
  {
    i := f.freshInst;
    if TypeOf(f, v) == I128 {
      var narrow := f.freshValue;
      var f1 := f.(types := f.types[narrow := Integer(64)], freshValue := narrow + 1);
      InsertedKeeps(f1, rest, InstData(Iconst, Nil, Nil, Cons(narrow, Nil)));
      var f2 := Inserted(f1, rest.head.inst, InstData(Iconst, Nil, Nil, Cons(narrow, Nil)));
      InsertedKeeps(f2, rest, InstData(Uextend, Cons(narrow, Nil), Nil, Cons(v, Nil)));
      i := f2.freshInst;
    } else {
      InsertedKeeps(f, rest, InstData(ConstOp(TypeOf(f, v)), Nil, Nil, Cons(v, Nil)));
    }
  }

  /** Removing an instruction whose block holds another one. */
  lemma {:induction false} RemovedKeeps(f: Func, p: Pos, rest: List<Pos>, j: Inst)
    requires Sound(f) && Ahead(f, Cons(p, rest)) && rest.Cons? && Has(InstsOf(f.layout, p.block), j) && j != p.inst
    ensures var g := f.(layout := RemoveInst(f.layout, p.inst)); Sound(g) && Ahead(g, rest)
  {
    DropIsRemove(f.layout, p, j);
    DroppedKeeps(f, p, rest);
  }

  // ----- Replacing an instruction by a trap -----

  function Trapping(f: Func, i: Inst): Func { f.(insts := f.insts[i := InstData(Trap, Nil, Nil, Data(f, i).results)]) }

  // ----- Moving an instruction to the entry block -----

  function Moved(f: Func, p: Pos): Func { f.(layout := MoveToEntry(f.layout, p.inst)) }

  lemma MovedKeeps(f: Func, p: Pos, rest: List<Pos>)
    requires Sound(f) && Ahead(f, Cons(p, rest)) && rest.Cons? && rest.head.block == p.block != f.layout.head.id
    ensures Sound(Moved(f, p)) && Ahead(Moved(f, p), rest)
  {
    MoveKeeps(f.layout, p, rest);
    RemovePositions(f.layout, p.inst);
    BelowWithout(Positions(f.layout), f.freshInst, p.inst);
    LastHas(f.layout.head.insts);
    InsertPositions(RemoveInst(f.layout, p.inst), p.inst, Last(f.layout.head.insts).value);
    BelowSuffix(Positions(f.layout), Cons(p, rest), f.freshInst);
    BelowInsert(Positions(RemoveInst(f.layout, p.inst)), f.freshInst, p.inst, Last(f.layout.head.insts).value);
    NonEmpty(MoveToEntry(f.layout, p.inst), rest);
  }

  // ----- Removing a block -----

  lemma {:induction false} RemoveBlockBelow(layout: List<Blk>, b: Block, n: nat)
    requires Below(Positions(layout), n)
    ensures Below(Positions(RemoveBlock(layout, b)), n)
  {
    if layout.Cons? {
      var here := BlockPositions(layout.head.id, layout.head.insts);
      BelowAppend(here, Positions(layout.tail), n);
      RemoveBlockBelow(layout.tail, b, n);
      BelowAppend(here, Positions(RemoveBlock(layout.tail, b)), n);
    }
  }

  lemma {:induction false} BelowAppend(a: List<Pos>, b: List<Pos>, n: nat)
    ensures Below(Append(a, b), n) <==> Below(a, n) && Below(b, n)
    decreases a
  {
    if a.Cons? { BelowAppend(a.tail, b, n); }
  }

  /** A block with one before it can be removed and leaves a sound function. */
  lemma {:induction false} WithoutBlockKeeps(f: Func, a: Block, b: Block)
    requires Sound(f) && NextBlock(f.layout, a) == Some(b)
    ensures Sound(f.(layout := RemoveBlock(f.layout, b)))
  {
    RemoveBlockKeeps(f.layout, b);
    RemoveBlockBelow(f.layout, b, f.freshInst);
    NextBlockOther(f.layout, a);
  }

  lemma {:induction false} NextBlockOther(layout: List<Blk>, a: Block)
    requires NextBlock(layout, a).Some? && DistinctBlocks(layout)
    ensures HasBlock(layout, NextBlock(layout, a).value) && NextBlock(layout, a).value != layout.head.id
    ensures RemoveBlock(layout, NextBlock(layout, a).value).Cons?
  {
    NextBlockIn(layout, a);
    if layout.head.id != a {
      NextBlockOther(layout.tail, a);
      NoBlockHas(layout.tail, layout.head.id);
    } else {
      NoBlockHas(layout.tail, layout.head.id);
    }
  }

  // ----- Merging a block into its predecessor -----

  function Lookup(alias: map<Value, Value>, v: Value): Value { if v in alias then alias[v] else v }

  /** `change_to_alias`: `p`, and what stood for it, now stands for what `a` stands for. */
  function Aliased(alias: map<Value, Value>, p: Value, a: Value): map<Value, Value>
  {
    var r := Lookup(alias, a);
    map v | v in alias.Keys + {p} :: if v == p || alias[v] == p then r else alias[v]
  }

  /** Each parameter becomes an alias of the argument that the branch passed for it. */
  function AliasedAll(alias: map<Value, Value>, params: List<Value>, args: List<Value>): map<Value, Value>
    decreases params
  {
    if params.Nil? || args.Nil? then alias
    else
      AliasedAll(if params.head == args.head then alias else Aliased(alias, params.head, args.head),
                 params.tail, args.tail)
  }

  /** The function after block `b` has been merged into its predecessor. */
  function Merged(f: Func, pred: Pos, b: Block): Func
    requires Data(f, pred.inst).dests.Cons?
  {
    f.(params := f.params[b := Nil],
       alias := AliasedAll(f.alias, Params(f, b), Data(f, pred.inst).dests.head.args),
       layout := Joined(RemoveInst(f.layout, pred.inst), pred.block, b))
  }

  /** What a predecessor is: a block of the layout, and its last instruction. */
  lemma {:induction false} PredIs(f: Func, layout: List<Blk>, b: Block, pred: Pos)
    requires Sound(f) && DistinctBlocks(layout) && Member(PredsIn(f, layout, b), pred)
    ensures HasBlock(layout, pred.block) && Last(InstsOf(layout, pred.block)) == Some(pred.inst)
    ensures Has(InstsOf(layout, pred.block), pred.inst) && Leads(Data(f, pred.inst).dests, b)
    decreases layout
  {
    var last := Last(layout.head.insts);
    if last.Some? && Leads(Data(f, last.value).dests, b) && pred == Pos(layout.head.id, last.value) {
      LastHas(layout.head.insts);
    } else {
      PredIs(f, layout.tail, b, pred);
      NoBlockHas(layout.tail, layout.head.id);
    }
  }

  predicate Member(l: List<Pos>, p: Pos) { l.Cons? && (l.head == p || Member(l.tail, p)) }

  lemma {:induction false} HeldOnlyIn(layout: List<Blk>, b: Block, i: Inst)
    requires DistinctInsts(Positions(layout)) && Has(InstsOf(layout, b), i)
    ensures OnlyIn(layout, b, i)
    decreases layout
  {
    var c := layout.head;
    AppendDistinct(BlockPositions(c.id, c.insts), Positions(layout.tail));
    if c.id == b {
      EarlierBlock(b, c.insts, Positions(layout.tail), i);
      AbsentOnlyIn(layout.tail, b, i);
    } else {
      HeldOnlyIn(layout.tail, b, i);
      if Has(c.insts, i) {
        EarlierBlock(c.id, c.insts, Positions(layout.tail), i);
        CountNoInst(layout.tail, i);
        InstsCount(layout.tail, b, i);
      }
    }
  }

  lemma {:induction false} BelowFromCounts(layout: List<Blk>, n: nat)
    requires forall i: Inst :: CountAll(layout, i) > 0 ==> i < n
    ensures Below(Positions(layout), n)
    decreases layout
  {
    if layout.Cons? {
      var b := layout.head;
      forall i: Inst
        ensures Has(b.insts, i) ==> i < n
        ensures CountAll(layout.tail, i) > 0 ==> i < n
      {
        CountHas(b.insts, i);
        assert CountAll(layout, i) > 0 ==> i < n;
      }
      BelowBlock(b.id, b.insts, n);
      BelowFromCounts(layout.tail, n);
      BelowAppend(BlockPositions(b.id, b.insts), Positions(layout.tail), n);
    }
  }

  lemma {:induction false} BelowBlock(b: Block, insts: List<Inst>, n: nat)
    requires forall i: Inst :: Has(insts, i) ==> i < n
    ensures Below(BlockPositions(b, insts), n)
    decreases insts
  {
    if insts.Cons? {
      assert Has(insts, insts.head);
      forall i: Inst | Has(insts.tail, i)
        ensures i < n
      {
        assert Has(insts, i);
      }
      BelowBlock(b, insts.tail, n);
    }
  }

  /** Removing a branch may leave its block empty, but nothing else changes. */
  lemma BranchRemoved(f: Func, pred: Pos)
    requires Sound(f) && HasBlock(f.layout, pred.block) && Has(InstsOf(f.layout, pred.block), pred.inst)
    ensures var l := RemoveInst(f.layout, pred.inst);
            && DistinctBlocks(l) && DistinctInsts(Positions(l)) && SolidBut(l, pred.block) && HasBlock(l, pred.block)
            && Below(Positions(l), f.freshInst)
    ensures forall b: Block :: b != pred.block ==> InstsOf(RemoveInst(f.layout, pred.inst), b) == InstsOf(f.layout, b)
    ensures InstsOf(RemoveInst(f.layout, pred.inst), pred.block) == Without(InstsOf(f.layout, pred.block), pred.inst)
  {
    var l := RemoveInst(f.layout, pred.inst);
    HeldOnlyIn(f.layout, pred.block, pred.inst);
    RemoveInstBlocks(f.layout, pred.inst, pred.block);
    RemovePositions(f.layout, pred.inst);
    WithoutDistinct(Positions(f.layout), pred.inst);
    RemoveSolidBut(f.layout, pred.block, pred.inst);
    BelowWithout(Positions(f.layout), f.freshInst, pred.inst);
    NoBlockHas(f.layout, pred.block);
    NoBlockHas(l, pred.block);
    forall b: Block | b != pred.block
      ensures InstsOf(l, b) == InstsOf(f.layout, b)
    {
      RemoveInstBlocks(f.layout, pred.inst, b);
      OnlyInOther(f.layout, pred.block, b, pred.inst);
      WithoutAbsent(InstsOf(f.layout, b), pred.inst);
    }
  }

  lemma {:induction false} SolidHas(layout: List<Blk>, b: Block)
    requires Solid(layout) && HasBlock(layout, b)
    ensures InstsOf(layout, b).Cons?
  {
    if layout.head.id != b { SolidHas(layout.tail, b); }
  }

  lemma {:induction false} JoinedSound(f: Func, l: List<Blk>, into: Block, b: Block)
    requires DistinctBlocks(l) && DistinctInsts(Positions(l)) && SolidBut(l, into) && HasBlock(l, into)
    requires Below(Positions(l), f.freshInst) && into != b && InstsOf(l, b).Cons?
    ensures Sound(f.(layout := Joined(l, into, b))) && HasBlock(Joined(l, into, b), into)
  {
    var j := Joined(l, into, b);
    JoinedKeeps(l, into, b);
    JoinedCount(l, into, b);
    forall i: Inst
      ensures CountAll(j, i) > 0 ==> i < f.freshInst
    {
      if CountAll(j, i) > 0 { BelowCount(l, f.freshInst, i); }
    }
    BelowFromCounts(j, f.freshInst);
    RemoveBlockOthers(l, b, into);
    NoBlockHas(RemoveBlock(l, b), into);
    SetInstsBlocks(RemoveBlock(l, b), into, Append(InstsOf(l, into), InstsOf(l, b)), into);
    NoBlockHas(j, into);
  }

  /** The predecessor is another block, or the block holds nothing but its branch to itself. */
  predicate Movable(f: Func, pred: Pos, b: Block) { pred.block != b || InstsOf(f.layout, b) == Cons(pred.inst, Nil) }

  /** Merging a block into its sole predecessor leaves a sound function, with another predecessor still in it. */
  lemma {:induction false} MergedKeeps(f: Func, pred: Pos, b: Block)
    requires Sound(f) && HasBlock(f.layout, b) && f.layout.head.id != b
    requires Preds(f, b) == Cons(pred, Nil) && Movable(f, pred, b)
    ensures Data(f, pred.inst).dests.Cons?
    ensures Sound(Merged(f, pred, b)) && (pred.block != b ==> HasBlock(Merged(f, pred, b).layout, pred.block))
  {
    PredIs(f, f.layout, b, pred);
    if pred.block != b {
      BranchRemoved(f, pred);
      SolidHas(f.layout, b);
      JoinedSound(Merged(f, pred, b), RemoveInst(f.layout, pred.inst), pred.block, b);
    } else {
      SelfMerged(f, pred, b);
      RemoveBlockKeeps(f.layout, b);
      RemoveBlockBelow(f.layout, b, f.freshInst);
    }
  }

  lemma {:induction false} SelfMerged(f: Func, pred: Pos, b: Block)
    requires Sound(f) && Data(f, pred.inst).dests.Cons? && pred.block == b && Has(InstsOf(f.layout, b), pred.inst)
    ensures Merged(f, pred, b).layout == RemoveBlock(f.layout, b)
  {
    JoinSelf(RemoveInst(f.layout, pred.inst), b);
    HeldOnlyIn(f.layout, b, pred.inst);
    RemoveEmptied(f.layout, b, pred.inst);
  }

  /**
   The loop that moves the instructions of a block to its predecessor, once the branch is removed,
   ends if and only if the predecessor is another block or the branch was all that the block held.
   */
  lemma {:induction false} MoveLoopEnds(f: Func, pred: Pos, b: Block)
    requires Sound(f) && HasBlock(f.layout, b) && Preds(f, b) == Cons(pred, Nil)
    ensures (exists n: nat :: InstsOf(Moves(RemoveInst(f.layout, pred.inst), pred.block, b, n), b).Nil?) <==>
            Movable(f, pred, b)
  {
    var l := RemoveInst(f.layout, pred.inst);
    PredIs(f, f.layout, b, pred);
    BranchRemoved(f, pred);
    if pred.block != b {
      MovesEnd(l, pred.block, b);
    } else {
      SoleInst(f, b, pred.inst);
      if InstsOf(l, b).Nil? {
        assert Moves(l, pred.block, b, 0) == l;
        assert InstsOf(Moves(l, pred.block, b, 0), b).Nil?;
        assert Movable(f, pred, b);
        assert exists n: nat :: InstsOf(Moves(l, pred.block, b, n), b).Nil?;
      } else {
        forall n: nat
          ensures InstsOf(Moves(l, b, b, n), b).Cons?
        {
          MovesGoOn(l, b, n);
        }
      }
    }
  }

  lemma {:induction false} SoleInst(f: Func, b: Block, i: Inst)
    requires Sound(f) && Has(InstsOf(f.layout, b), i)
    ensures Without(InstsOf(f.layout, b), i).Nil? <==> InstsOf(f.layout, b) == Cons(i, Nil)
  {
    BlockDistinct(f.layout, b);
    SoleIn(b, InstsOf(f.layout, b), i);
  }

  lemma {:induction false} SoleIn(b: Block, insts: List<Inst>, i: Inst)
    requires DistinctInsts(BlockPositions(b, insts)) && Has(insts, i)
    ensures Without(insts, i).Nil? <==> insts == Cons(i, Nil)
  {
    if insts.head == i {
      NoInstHas(b, insts.tail, i);
      WithoutAbsent(insts.tail, i);
    }
  }

  lemma {:induction false} BlockDistinct(layout: List<Blk>, b: Block)
    requires DistinctInsts(Positions(layout))
    ensures DistinctInsts(BlockPositions(b, InstsOf(layout, b)))
  {
    if layout.Cons? {
      AppendDistinct(BlockPositions(layout.head.id, layout.head.insts), Positions(layout.tail));
      if layout.head.id != b { BlockDistinct(layout.tail, b); }
    }
  }

  // ----- Replacing a block parameter by a constant -----

  function RemoveNth(l: List<Value>, n: nat): List<Value>
  {
    if l.Nil? then Nil else if n == 0 then l.tail else Cons(l.head, RemoveNth(l.tail, n - 1))
  }

  lemma {:induction false} RemoveNthLength(l: List<Value>, n: nat)
    requires n < Length(l)
    ensures Length(RemoveNth(l, n)) == Length(l) - 1
  {
    if n != 0 { RemoveNthLength(l.tail, n - 1); }
  }

  /** Branches to `b` no longer pass argument `n`. */
  function WithoutArg(dests: List<Dest>, b: Block, n: nat): List<Dest>
  {
    if dests.Nil? then Nil
    else Cons(if dests.head.block == b then Dest(b, RemoveNth(dests.head.args, n)) else dests.head,
              WithoutArg(dests.tail, b, n))
  }

  /** The branches of these predecessors to `b` no longer pass argument `n`. */
  function ArgRemoved(f: Func, preds: List<Pos>, b: Block, n: nat): Func
    decreases preds
  {
    if preds.Nil? then f
    else
      var i, data := preds.head.inst, Data(f, preds.head.inst);
      ArgRemoved(f.(insts := f.insts[i := data.(dests := WithoutArg(data.dests, b, n))]), preds.tail, b, n)
  }

  /** Parameter `n` of `b` becomes a constant at the start of the block. */
  function ParamConst(f: Func, b: Block, n: nat): Func
    requires HasBlock(f.layout, b) && Solid(f.layout) && n < Length(Params(f, b))
  {
    var at := FirstOf(f.layout, b);
    WithConst(f.(params := f.params[b := RemoveNth(Params(f, b), n)]), at, Nth(Params(f, b), n))
  }

  function FirstOf(layout: List<Blk>, b: Block): Inst
    requires HasBlock(layout, b) && Solid(layout)
  {
    if layout.head.id == b then layout.head.insts.head else FirstOf(layout.tail, b)
  }

  /** Parameter `n` of `b` becomes a constant, and is passed no more. */
  function ParamReplaced(f: Func, b: Block, n: nat): Func
    requires HasBlock(f.layout, b) && Solid(f.layout) && n < Length(Params(f, b))
  {
    var g := ParamConst(f, b, n);
    var h := ArgRemoved(g, Preds(g, b), b, n);
    if f.layout.head.id == b then h.(signature := RemoveNth(h.signature, n)) else h
  }

  /** The positions from the first instruction of a block on. */
  lemma {:induction false} FirstIn(layout: List<Blk>, b: Block) returns (rest: List<Pos>)
    requires Solid(layout) && HasBlock(layout, b)
    ensures InstsOf(layout, b).Cons? && EndsWith(Positions(layout), rest) && rest.Cons?
    ensures rest.head == Pos(b, InstsOf(layout, b).head)
    decreases layout
  {
    if layout.head.id == b {
      rest := Positions(layout);
    } else {
      rest := FirstIn(layout.tail, b);
      EndsWithLater(BlockPositions(layout.head.id, layout.head.insts), Positions(layout.tail), rest);
    }
  }

  lemma {:induction false} EndsWithLater(a: List<Pos>, b: List<Pos>, rest: List<Pos>)
    requires EndsWith(b, rest)
    ensures EndsWith(Append(a, b), rest)
    decreases a
  {
    if a.Cons? { EndsWithLater(a.tail, b, rest); }
  }

  /** A constant at the start of a block keeps the function sound and its blocks in place. */
  lemma {:induction false} ConstAtStart(f: Func, b: Block, v: Value)
    requires Sound(f) && HasBlock(f.layout, b)
    ensures InstsOf(f.layout, b).Cons?
    ensures var g := WithConst(f, InstsOf(f.layout, b).head, v);
            && Sound(g) && HasBlock(g.layout, b) && g.params == f.params
  {
    var rest := FirstIn(f.layout, b);
    var i := WithConstKeeps(f, rest, v);
    NoBlockHas(f.layout, b);
    var at := InstsOf(f.layout, b).head;
    InsertBlocks(f.layout, f.freshInst, at, b);
    InsertBlocks(InsertInst(f.layout, f.freshInst, at), f.freshInst + 1, at, b);
    NoBlockHas(WithConst(f, at, v).layout, b);
  }

  lemma {:induction false} FirstOfIs(layout: List<Blk>, b: Block)
    requires HasBlock(layout, b) && Solid(layout)
    ensures InstsOf(layout, b).Cons? && InstsOf(layout, b).head == FirstOf(layout, b)
  {
    if layout.head.id != b { FirstOfIs(layout.tail, b); }
  }

  lemma {:induction false} ConstHead(f: Func, b: Block, n: nat)
    requires HasBlock(f.layout, b) && Solid(f.layout) && n < Length(Params(f, b))
    ensures ParamConst(f, b, n).layout.Cons? && ParamConst(f, b, n).layout.head.id == f.layout.head.id
  {
  }

  // ----- Resolving aliases -----

  function ResolvedList(f: Func, l: List<Value>): List<Value>
  {
    if l.Nil? then Nil else Cons(Resolve(f, l.head), ResolvedList(f, l.tail))
  }

  function ResolvedDests(f: Func, l: List<Dest>): List<Dest>
  {
    if l.Nil? then Nil else Cons(Dest(l.head.block, ResolvedList(f, l.head.args)), ResolvedDests(f, l.tail))
  }

  /** `resolve_all_aliases`: every use names the value that it stands for. */
  function WithoutAliases(f: Func): Func
  {
    f.(insts := map i | i in f.insts :: InstData(f.insts[i].op, ResolvedList(f, f.insts[i].args),
                                                 ResolvedDests(f, f.insts[i].dests), f.insts[i].results),
       alias := map[])
  }
}
