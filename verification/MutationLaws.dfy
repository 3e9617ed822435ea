/** What the changes that mutators try mean for blocks, instructions, parameters and executions. */
module MutationLaws {
  import opened Lists
  import opened Wrappers
  import opened Layouts
  import opened Ir
  import opened Mutations
  import Arity
  import Semantics
  import Sweeps

  // ----- Edits of a block -----

  lemma {:induction false} BeforeAt(pre: List<Inst>, at: Inst, post: List<Inst>, i: Inst)
    requires !Has(pre, at)
    ensures Before(Append(pre, Cons(at, post)), i, at) == Append(pre, Cons(i, Cons(at, post)))
    decreases pre
  {
    if pre.Cons? { BeforeAt(pre.tail, at, post, i); }
  }

  lemma {:induction false} WithoutAt(pre: List<Inst>, i: Inst, post: List<Inst>)
    requires !Has(pre, i) && !Has(post, i)
    ensures Without(Append(pre, Cons(i, post)), i) == Append(pre, post)
    decreases pre
  {
    if pre.Nil? { WithoutAbsent(post, i); } else { WithoutAt(pre.tail, i, post); }
  }

  // ----- What removals leave -----

  lemma {:induction false} TakenOut(before: List<Pos>, p: Pos, after: List<Pos>)
    requires DistinctInsts(Append(before, Cons(p, after)))
    ensures WithoutPos(Append(before, Cons(p, after)), p.inst) == Append(before, after)
    ensures EndsWith(Append(before, Cons(p, after)), Cons(p, after))
    decreases before
  {
    if before.Nil? {
      WithoutNothing(after, p.inst);
    } else {
      AppendNoInst(before.tail, Cons(p, after), before.head.inst);
      TakenOut(before.tail, p, after);
    }
  }

  /** Removing an instruction leaves all others where they stand, in their order. */
  lemma {:induction false} DroppedMeans(f: Func, before: List<Pos>, p: Pos, after: List<Pos>)
    requires Sound(f) && Positions(f.layout) == Append(before, Cons(p, after))
    ensures Positions(Dropped(f, p).layout) == Append(before, after)
    ensures Dropped(f, p) == f.(layout := Dropped(f, p).layout) && WellFormed(Dropped(f, p).layout)
  {
    TakenOut(before, p, after);
    DropInstKeeps(f.layout, p, after);
  }

  lemma {:induction false} BlockTakenOut(before: List<Blk>, c: Blk, after: List<Blk>)
    requires DistinctBlocks(Append(before, Cons(c, after)))
    ensures RemoveBlock(Append(before, Cons(c, after)), c.id) == Append(before, after)
    ensures HasBlock(Append(before, Cons(c, after)), c.id)
    decreases before
  {
    if before.Nil? {
      RemoveAbsentBlock(after, c.id);
    } else {
      BlockTakenOut(before.tail, c, after);
      NoBlockHas(Append(before.tail, Cons(c, after)), before.head.id);
    }
  }

  /** Removing a block leaves all others as they are, in their order. */
  lemma {:induction false} BlockRemovedMeans(f: Func, before: List<Blk>, c: Blk, after: List<Blk>)
    requires Sound(f) && f.layout == Append(before, Cons(c, after))
    ensures Sweeps.WithoutBlock(f, c.id) == f.(layout := Append(before, after))
  {
    BlockTakenOut(before, c, after);
  }

  // ----- Where instructions stand -----

  /** In a block an instruction stands once. */
  lemma {:induction false} StandsOnce(b: Block, pre: List<Inst>, i: Inst, post: List<Inst>)
    requires DistinctInsts(BlockPositions(b, Append(pre, Cons(i, post))))
    ensures !Has(pre, i) && !Has(post, i)
    decreases pre
  {
    if pre.Nil? {
      NoInstHas(b, post, i);
    } else {
      StandsOnce(b, pre.tail, i, post);
      NoInstHas(b, Append(pre.tail, Cons(i, post)), pre.head);
      HasAppend(pre.tail, Cons(i, post), pre.head);
    }
  }

  /** And in no other block. */
  lemma {:induction false} StandsIn(layout: List<Blk>, b: Block, i: Inst)
    requires DistinctBlocks(layout) && DistinctInsts(Positions(layout)) && Has(InstsOf(layout, b), i)
    ensures OnlyIn(layout, b, i)
  {
    var c := layout.head;
    AppendDistinct(BlockPositions(c.id, c.insts), Positions(layout.tail));
    if c.id == b {
      EarlierBlock(b, c.insts, Positions(layout.tail), i);
      AbsentOnlyIn(layout.tail, b, i);
    } else {
      StandsIn(layout.tail, b, i);
      if Has(c.insts, i) {
        EarlierBlock(c.id, c.insts, Positions(layout.tail), i);
        CountNoInst(layout.tail, i);
        InstsCount(layout.tail, b, i);
      }
    }
  }

  lemma {:induction false} InsertedIn(layout: List<Blk>, i: Inst, at: Inst, b: Block, c: Block)
    requires OnlyIn(layout, b, at) && DistinctBlocks(layout)
    ensures InstsOf(InsertInst(layout, i, at), c) ==
              if c == b then Before(InstsOf(layout, b), i, at) else InstsOf(layout, c)
    decreases layout
  {
    if layout.Cons? {
      if layout.head.id == b && !Has(layout.head.insts, at) { BeforeNowhere(layout.head.insts, i, at); }
      if !Has(layout.head.insts, at) {
        InsertedIn(layout.tail, i, at, b, c);
      }
    }
  }

  lemma {:induction false} BeforeNowhere(insts: List<Inst>, i: Inst, at: Inst)
    requires !Has(insts, at)
    ensures Before(insts, i, at) == insts
  {
    if insts.Cons? { BeforeNowhere(insts.tail, i, at); }
  }

  // ----- Moving an instruction to the entry block -----

  lemma {:induction false} LastOf(pre: List<Inst>, last: Inst)
    ensures Last(Append(pre, Cons(last, Nil))) == Some(last)
  {
    if pre.Cons? {
      LastOf(pre.tail, last);
      assert Append(pre.tail, Cons(last, Nil)).Cons?;
    }
  }

  /** The instruction leaves its block and stands before the last one of the entry block; nothing else moves. */
  lemma {:induction false} MovedMeans(f: Func, p: Pos, pre: List<Inst>, last: Inst, here: List<Inst>, after: List<Inst>,
                                      c: Block)
    requires Sound(f) && p.block != f.layout.head.id && f.layout.head.insts == Append(pre, Cons(last, Nil))
    requires InstsOf(f.layout, p.block) == Append(here, Cons(p.inst, after))
    ensures Moved(f, p) == f.(layout := Moved(f, p).layout)
    ensures InstsOf(Moved(f, p).layout, c) ==
              if c == f.layout.head.id then Append(pre, Cons(p.inst, Cons(last, Nil)))
              else if c == p.block then Append(here, after)
              else InstsOf(f.layout, c)
  {
    var entry, l := f.layout.head.id, RemoveInst(f.layout, p.inst);
    BlockDistinct(f.layout, entry);
    BlockDistinct(f.layout, p.block);
    StandsOnce(entry, pre, last, Nil);
    StandsOnce(p.block, here, p.inst, after);
    HasAppend(here, Cons(p.inst, after), p.inst);
    HasAppend(pre, Cons(last, Nil), last);
    StandsIn(f.layout, p.block, p.inst);
    StandsIn(f.layout, entry, last);
    OnlyInOther(f.layout, p.block, entry, p.inst);
    RemoveInstBlocks(f.layout, p.inst, entry);
    RemoveInstBlocks(f.layout, p.inst, p.block);
    RemoveInstBlocks(f.layout, p.inst, c);
    if c != p.block {
      OnlyInOther(f.layout, p.block, c, p.inst);
      WithoutAbsent(InstsOf(f.layout, c), p.inst);
    }
    WithoutAbsent(InstsOf(f.layout, entry), p.inst);
    WithoutAt(here, p.inst, after);
    LastOf(pre, last);
    RemovedOnlyIn(f.layout, p.inst, entry, last);
    InsertedIn(l, p.inst, last, entry, c);
    BeforeAt(pre, last, Nil, p.inst);
  }

  lemma {:induction false} RemovedOnlyIn(layout: List<Blk>, i: Inst, b: Block, j: Inst)
    requires OnlyIn(layout, b, j)
    ensures OnlyIn(RemoveInst(layout, i), b, j)
  {
    if layout.Cons? {
      RemovedOnlyIn(layout.tail, i, b, j);
      if Has(Without(layout.head.insts, i), j) { WithoutHad(layout.head.insts, i, j); }
    }
  }

  lemma {:induction false} WithoutHad(insts: List<Inst>, i: Inst, j: Inst)
    requires Has(Without(insts, i), j)
    ensures Has(insts, j)
  {
    if insts.head == i || Without(insts, i).head != j { WithoutHad(insts.tail, i, j); }
  }

  // ----- Replacing an instruction by a trap -----

  /** Only that instruction changes: it traps, reads nothing and leads nowhere. */
  lemma TrappedMeans(f: Func, i: Inst, j: Inst)
    ensures var g := Trapping(f, i);
            && g == f.(insts := g.insts) && (j != i ==> Data(g, j) == Data(f, j))
            && Data(g, i) == InstData(Trap, Nil, Nil, Data(f, i).results)
  {
  }

  // ----- Constants -----

  /**
   `v` is defined, by an instruction of its own, as the constant that its type calls for. New
   instructions are numbered from `lo` on, and new values from `mark` on.
   */
  ghost predicate IsConst(g: Func, v: Value, lo: Inst, mark: Value)
  {
    && v in g.defs && lo <= g.defs[v] < g.freshInst && g.defs[v] in g.insts
    && var d := g.insts[g.defs[v]];
       && d.results == Cons(v, Nil) && d.dests == Nil
       && (TypeOf(g, v) == F32 ==> d.op == F32const && d.args == Nil)
       && (TypeOf(g, v) == F64 ==> d.op == F64const && d.args == Nil)
       && (TypeOf(g, v).Vector? ==> d.op == Vconst && d.args == Nil)
       && (TypeOf(g, v).Integer? ==> d.op == Iconst && d.args == Nil)
       && (TypeOf(g, v) == I128 ==>
             d.op == Uextend && exists u: Value :: mark <= u && d.args == Cons(u, Nil) && IsNarrow(g, u, lo))
  }

  /** A 64-bit integer constant. */
  predicate IsNarrow(g: Func, u: Value, lo: Inst)
  {
    && u < g.freshValue && TypeOf(g, u) == Integer(64) && u in g.defs && lo <= g.defs[u] < g.freshInst
    && g.defs[u] in g.insts && g.insts[g.defs[u]] == InstData(Iconst, Nil, Nil, Cons(u, Nil))
  }

  lemma {:induction false} ConstMade(f: Func, at: Inst, v: Value, lo: Inst, mark: Value)
    requires v < mark <= f.freshValue && lo <= f.freshInst
    ensures IsConst(WithConst(f, at, v), v, lo, mark) && TypeOf(WithConst(f, at, v), v) == TypeOf(f, v)
  {
    var g := WithConst(f, at, v);
    if TypeOf(f, v) == I128 {
      var u, defs := f.freshValue, f.defs[f.freshValue := f.freshInst];
      assert Defined(f.defs, Cons(u, Nil), f.freshInst) == defs;
      assert Defined(defs, Cons(v, Nil), f.freshInst + 1) == defs[v := f.freshInst + 1];
      assert IsNarrow(g, u, lo);
    } else {
      assert Defined(f.defs, Cons(v, Nil), f.freshInst) == f.defs[v := f.freshInst];
    }
  }

  /** Making another constant leaves the ones that were made, and all other instructions. */
  lemma {:induction false} ConstKept(f: Func, at: Inst, w: Value, v: Value, lo: Inst, mark: Value)
    requires IsConst(f, v, lo, mark) && w != v && w < mark && v < mark <= f.freshValue
    ensures IsConst(WithConst(f, at, w), v, lo, mark) && TypeOf(WithConst(f, at, w), v) == TypeOf(f, v)
  {
    var g := WithConst(f, at, w);
    if TypeOf(f, w) == I128 {
      var defs := f.defs[f.freshValue := f.freshInst];
      assert Defined(f.defs, Cons(f.freshValue, Nil), f.freshInst) == defs;
      assert Defined(defs, Cons(w, Nil), f.freshInst + 1) == defs[w := f.freshInst + 1];
    } else {
      assert Defined(f.defs, Cons(w, Nil), f.freshInst) == f.defs[w := f.freshInst];
    }
    if TypeOf(f, v) == I128 {
      var u: Value :| mark <= u && f.insts[f.defs[v]].args == Cons(u, Nil) && IsNarrow(f, u, lo);
      assert IsNarrow(g, u, lo);
    }
  }

  predicate AllBelow(l: List<Value>, mark: Value) { l.Cons? ==> l.head < mark && AllBelow(l.tail, mark) }

  lemma {:induction false} InBelow(l: List<Value>, mark: Value, v: Value)
    requires AllBelow(l, mark) && Semantics.In(l, v)
    ensures v < mark
  {
    if l.head != v { InBelow(l.tail, mark, v); }
  }

  lemma {:induction false} WithConstFresh(f: Func, at: Inst, w: Value)
    ensures var g := WithConst(f, at, w); f.freshInst <= g.freshInst && f.freshValue <= g.freshValue
  {
  }

  lemma {:induction false} ConstsMade(f: Func, at: Inst, l: List<Value>, v: Value, lo: Inst, mark: Value)
    requires Semantics.Distinct(l) && AllBelow(l, mark) && v < mark <= f.freshValue && lo <= f.freshInst
    requires Semantics.In(l, v) || IsConst(f, v, lo, mark)
    ensures IsConst(ConstsBefore(f, at, l), v, lo, mark) && TypeOf(ConstsBefore(f, at, l), v) == TypeOf(f, v)
    decreases l
  {
    if l.Cons? {
      WithConstFresh(f, at, l.head);
      if l.head == v {
        ConstMade(f, at, v, lo, mark);
      } else {
        if !Semantics.In(l.tail, v) { ConstKept(f, at, l.head, v, lo, mark); }
        SameType(f, at, l.head, v, mark);
      }
      ConstsMade(WithConst(f, at, l.head), at, l.tail, v, lo, mark);
    }
  }

  lemma {:induction false} SameType(f: Func, at: Inst, w: Value, v: Value, mark: Value)
    requires v < mark <= f.freshValue
    ensures TypeOf(WithConst(f, at, w), v) == TypeOf(f, v)
  {
  }

  lemma {:induction false} ConstsApart(f: Func, at: Inst, l: List<Value>, j: Inst)
    requires j < f.freshInst
    ensures Data(ConstsBefore(f, at, l), j) == Data(f, j)
    decreases l
  {
    if l.Cons? {
      WithConstFresh(f, at, l.head);
      ConstsApart(WithConst(f, at, l.head), at, l.tail, j);
    }
  }

  /** Each result of the instruction that makes way is a constant of its type; other instructions stay. */
  lemma {:induction false} ByConstsMeans(f: Func, i: Inst, v: Value, j: Inst)
    requires Semantics.Distinct(Data(f, i).results) && AllBelow(Data(f, i).results, f.freshValue)
    requires Semantics.In(Data(f, i).results, v) && j < f.freshInst && j != i
    ensures IsConst(ByConsts(f, i), v, f.freshInst, f.freshValue) && TypeOf(ByConsts(f, i), v) == TypeOf(f, v)
    ensures Data(ByConsts(f, i), j) == Data(f, j)
  {
    var l := Data(f, i).results;
    InBelow(l, f.freshValue, v);
    ConstsMade(Detached(f, i), i, l, v, f.freshInst, f.freshValue);
    ConstsApart(Detached(f, i), i, l, j);
  }

  // ----- Replacing a parameter -----

  /** The index that an element had before the one with index `n` was removed. */
  function OldIndex(n: nat, j: nat): nat { if j < n then j else j + 1 }

  lemma {:induction false} RemoveNthAt(l: List<Value>, n: nat, j: nat)
    requires n < Length(l) && j < Length(l) - 1
    ensures Length(RemoveNth(l, n)) == Length(l) - 1 && Nth(RemoveNth(l, n), j) == Nth(l, OldIndex(n, j))
    decreases l
  {
    RemoveNthLength(l, n);
    if n != 0 && j != 0 { RemoveNthAt(l.tail, n - 1, j - 1); }
  }

  lemma {:induction false} WithoutArgAt(dests: List<Dest>, b: Block, n: nat, e: nat)
    requires e < Length(dests)
    ensures Length(WithoutArg(dests, b, n)) == Length(dests)
    ensures var d, d' := Nth(dests, e), Nth(WithoutArg(dests, b, n), e);
            d'.block == d.block && (d.block != b ==> d' == d) && (d.block == b ==> d'.args == RemoveNth(d.args, n))
    decreases dests
  {
    if e != 0 {
      WithoutArgAt(dests.tail, b, n, e - 1);
    } else {
      WithoutArgLength(dests.tail, b, n);
    }
  }

  lemma {:induction false} WithoutArgLength(dests: List<Dest>, b: Block, n: nat)
    ensures Length(WithoutArg(dests, b, n)) == Length(dests)
  {
    if dests.Cons? { WithoutArgLength(dests.tail, b, n); }
  }

  /** The parameters of the block are the others, in their order; those of other blocks stay. */
  lemma {:induction false} ParamsFollow(f: Func, b: Block, n: nat, j: nat, c: Block)
    requires Sound(f) && HasBlock(f.layout, b) && n < Length(Params(f, b)) && j < Length(Params(f, b)) - 1
    ensures var g := ParamReplaced(f, b, n);
            && Length(Params(g, b)) == Length(Params(f, b)) - 1
            && Nth(Params(g, b), j) == Nth(Params(f, b), OldIndex(n, j))
            && (c != b ==> Params(g, c) == Params(f, c))
  {
    var rest := FirstIn(f.layout, b);
    BelowSuffix(Positions(f.layout), rest, f.freshInst);
    Arity.ReplacedIs(f, b, n);
    Arity.ParamConstApart(f, b, n, c, rest.head.inst);
    Arity.ParamConstApart(f, b, n, b, rest.head.inst);
    RemovedArgsParams(ParamConst(f, b, n), Preds(f, b), b, n);
    RemoveNthAt(Params(f, b), n, j);
  }

  lemma {:induction false} RemovedArgsParams(f: Func, preds: List<Pos>, b: Block, n: nat)
    ensures var g := ArgRemoved(f, preds, b, n); g == f.(insts := g.insts)
    decreases preds
  {
    if preds.Cons? {
      var i, data := preds.head.inst, Data(f, preds.head.inst);
      RemovedArgsParams(f.(insts := f.insts[i := data.(dests := WithoutArg(data.dests, b, n))]), preds.tail, b, n);
    }
  }

  /**
   Every branch to the block passes what it passed for the parameters that are left, in their order;
   other destinations, and instructions that do not branch to the block, stay as they are.
   */
  lemma {:induction false} ArgsFollow(f: Func, b: Block, n: nat, p: Pos, e: nat, j: nat)
    requires Sound(f) && HasBlock(f.layout, b) && n < Length(Params(f, b))
    requires Member(Preds(f, b), p) && e < Length(Data(f, p.inst).dests)
    requires var d := Nth(Data(f, p.inst).dests, e); d.block == b ==> n < Length(d.args) && j < Length(d.args) - 1
    ensures var g := ParamReplaced(f, b, n);
            && Data(g, p.inst).(dests := Nil) == Data(f, p.inst).(dests := Nil)
            && Length(Data(g, p.inst).dests) == Length(Data(f, p.inst).dests)
            && var d, d' := Nth(Data(f, p.inst).dests, e), Nth(Data(g, p.inst).dests, e);
               && d'.block == d.block && (d.block != b ==> d' == d)
               && (d.block == b ==>
                     Length(d'.args) == Length(d.args) - 1 && Nth(d'.args, j) == Nth(d.args, OldIndex(n, j)))
  {
    var g, dests := ParamConst(f, b, n), Data(f, p.inst).dests;
    Arity.PredIsBelow(f, f.layout, b, f.freshInst, p);
    Arity.ParamConstApart(f, b, n, b, p.inst);
    Arity.ReplacedIs(f, b, n);
    Arity.PredsDistinct(f, f.layout, b);
    Arity.MemberHasInst(Preds(f, b), p);
    Arity.ArgRemovedAt(g, Preds(f, b), b, n, p.inst);
    RemovedArgsRest(g, Preds(f, b), b, n, p.inst);
    WithoutArgAt(dests, b, n, e);
    if Nth(dests, e).block == b { RemoveNthAt(Nth(dests, e).args, n, j); }
  }

  lemma {:induction false} RemovedArgsRest(f: Func, preds: List<Pos>, b: Block, n: nat, i: Inst)
    ensures Data(ArgRemoved(f, preds, b, n), i).(dests := Nil) == Data(f, i).(dests := Nil)
    ensures NoInst(preds, i) ==> Data(ArgRemoved(f, preds, b, n), i) == Data(f, i)
    ensures i in f.insts ==> i in ArgRemoved(f, preds, b, n).insts
    decreases preds
  {
    if preds.Cons? {
      var k, data := preds.head.inst, Data(f, preds.head.inst);
      RemovedArgsRest(f.(insts := f.insts[k := data.(dests := WithoutArg(data.dests, b, n))]), preds.tail, b, n, i);
    }
  }

  lemma {:induction false} OthersStay(f: Func, b: Block, n: nat, i: Inst)
    requires Sound(f) && HasBlock(f.layout, b) && n < Length(Params(f, b)) && i < f.freshInst && NoInst(Preds(f, b), i)
    ensures Data(ParamReplaced(f, b, n), i) == Data(f, i)
  {
    Arity.ParamConstApart(f, b, n, b, i);
    Arity.ReplacedIs(f, b, n);
    RemovedArgsRest(ParamConst(f, b, n), Preds(f, b), b, n, i);
  }

  lemma {:induction false} ConstSurvives(g: Func, h: Func, v: Value, lo: Inst, mark: Value)
    requires IsConst(g, v, lo, mark) && h == g.(insts := h.insts, signature := h.signature)
    requires forall i: Inst :: lo <= i && i in g.insts ==> i in h.insts && h.insts[i] == g.insts[i]
    ensures IsConst(h, v, lo, mark) && TypeOf(h, v) == TypeOf(g, v)
  {
    if TypeOf(g, v) == I128 {
      var u: Value :| mark <= u && g.insts[g.defs[v]].args == Cons(u, Nil) && IsNarrow(g, u, lo);
      assert IsNarrow(h, u, lo);
    }
  }

  lemma {:induction false} InsertedOnlyIn(layout: List<Blk>, i: Inst, at: Inst, b: Block)
    requires OnlyIn(layout, b, at) && i != at
    ensures OnlyIn(InsertInst(layout, i, at), b, at)
  {
    if layout.Cons? && !Has(layout.head.insts, at) { InsertedOnlyIn(layout.tail, i, at, b); }
  }

  /** Constants before the first instruction of a block. */
  lemma {:induction false} ConstFirst(f: Func, b: Block, v: Value)
    requires Sound(f) && HasBlock(f.layout, b)
    ensures InstsOf(WithConst(f, FirstOf(f.layout, b), v).layout, b) ==
              if TypeOf(f, v) == I128 then Cons(f.freshInst, Cons(f.freshInst + 1, InstsOf(f.layout, b)))
              else Cons(f.freshInst, InstsOf(f.layout, b))
  {
    var at, i, once := FirstOf(f.layout, b), f.freshInst, InsertInst(f.layout, f.freshInst, FirstOf(f.layout, b));
    FirstOfIs(f.layout, b);
    StandsIn(f.layout, b, at);
    InstsCount(f.layout, b, at);
    BelowCount(f.layout, i, at);
    InsertedIn(f.layout, i, at, b, b);
    InsertedOnlyIn(f.layout, i, at, b);
    InsertBlocks(f.layout, i, at, b);
    InsertedIn(once, i + 1, at, b, b);
  }

  /** Branches lose their arguments without any of the new instructions being touched. */
  lemma {:induction false} NewInstsStay(f: Func, b: Block, n: nat)
    requires Sound(f) && HasBlock(f.layout, b) && n < Length(Params(f, b))
    ensures var c, g := ParamConst(f, b, n), ParamReplaced(f, b, n);
            && g == c.(insts := g.insts, signature := g.signature)
            && forall i: Inst :: f.freshInst <= i && i in c.insts ==> i in g.insts && g.insts[i] == c.insts[i]
  {
    var c, g := ParamConst(f, b, n), ParamReplaced(f, b, n);
    Arity.ReplacedIs(f, b, n);
    RemovedArgsParams(c, Preds(f, b), b, n);
    forall i: Inst | f.freshInst <= i && i in c.insts
      ensures i in g.insts && g.insts[i] == c.insts[i]
    {
      BelowAbsent(Positions(f.layout), f.freshInst, i);
      Arity.PredsAbsent(f, f.layout, b, i);
      RemovedArgsRest(c, Preds(f, b), b, n, i);
    }
  }

  /** The parameter that was removed is a constant, defined before all else in the block. */
  lemma {:induction false} ParamIsConst(f: Func, b: Block, n: nat, v: Value)
    requires Sound(f) && HasBlock(f.layout, b) && n < Length(Params(f, b))
    requires v == Nth(Params(f, b), n) && v < f.freshValue
    ensures var g := ParamReplaced(f, b, n);
            && IsConst(g, v, f.freshInst, f.freshValue) && TypeOf(g, v) == TypeOf(f, v)
            && InstsOf(g.layout, b) ==
                 if TypeOf(f, v) == I128 then Cons(f.freshInst, Cons(f.freshInst + 1, InstsOf(f.layout, b)))
                 else Cons(f.freshInst, InstsOf(f.layout, b))
  {
    ConstIsMade(f, b, n, v);
    NewInstsStay(f, b, n);
    ConstSurvives(ParamConst(f, b, n), ParamReplaced(f, b, n), v, f.freshInst, f.freshValue);
  }

  lemma {:induction false} ConstIsMade(f: Func, b: Block, n: nat, v: Value)
    requires Sound(f) && HasBlock(f.layout, b) && n < Length(Params(f, b))
    requires v == Nth(Params(f, b), n) && v < f.freshValue
    ensures var g := ParamConst(f, b, n);
            && IsConst(g, v, f.freshInst, f.freshValue) && TypeOf(g, v) == TypeOf(f, v)
            && InstsOf(g.layout, b) ==
                 if TypeOf(f, v) == I128 then Cons(f.freshInst, Cons(f.freshInst + 1, InstsOf(f.layout, b)))
                 else Cons(f.freshInst, InstsOf(f.layout, b))
  {
    var h := f.(params := f.params[b := RemoveNth(Params(f, b), n)]);
    ConstMade(h, FirstOf(f.layout, b), v, f.freshInst, f.freshValue);
    ConstFirst(h, b, v);
  }

  /** The function's own parameters lose the same one when the block is the entry block. */
  lemma {:induction false} SignatureFollows(f: Func, b: Block, n: nat, j: nat)
    requires Sound(f) && HasBlock(f.layout, b) && n < Length(Params(f, b))
    requires n < Length(f.signature) && j < Length(f.signature) - 1
    ensures var g := ParamReplaced(f, b, n);
            if b != f.layout.head.id then g.signature == f.signature
            else Length(g.signature) == Length(f.signature) - 1 &&
                 Nth(g.signature, j) == Nth(f.signature, OldIndex(n, j))
  {
    RemovedArgsParams(ParamConst(f, b, n), Preds(ParamConst(f, b, n), b), b, n);
    RemoveNthAt(f.signature, n, j);
  }

  // ----- Resolving aliases -----

  lemma {:induction false} ReadResolved(f: Func, env: map<Value, Semantics.Val>, l: List<Value>)
    ensures Semantics.Read(WithoutAliases(f), env, ResolvedList(f, l)) == Semantics.Read(f, env, l)
  {
    if l.Cons? { ReadResolved(f, env, l.tail); }
  }

  lemma {:induction false} DestResolved(f: Func, dests: List<Dest>, k: nat)
    requires k < Length(dests)
    ensures Length(ResolvedDests(f, dests)) == Length(dests)
    ensures var d := Semantics.NthDest(dests, k);
            Semantics.NthDest(ResolvedDests(f, dests), k) == Dest(d.block, ResolvedList(f, d.args))
    decreases dests
  {
    if k != 0 { DestResolved(f, dests.tail, k - 1); } else { DestsResolved(f, dests.tail); }
  }

  lemma {:induction false} DestsResolved(f: Func, dests: List<Dest>)
    ensures Length(ResolvedDests(f, dests)) == Length(dests)
  {
    if dests.Cons? { DestsResolved(f, dests.tail); }
  }

  lemma {:induction false} StepResolved(f: Func, sem: Semantics.Meaning, s: Semantics.State)
    ensures Semantics.Step(WithoutAliases(f), sem, s) == Semantics.Step(f, sem, s)
  {
    if s.code.Cons? {
      var d := Data(f, s.code.head);
      ReadResolved(f, s.env, d.args);
      DestsResolved(f, d.dests);
      if Semantics.IsJump(d) {
        ReadResolved(f, s.env, d.dests.head.args);
      } else if d.dests.Cons? {
        var k := sem.choose(d.op, Semantics.Read(f, s.env, d.args), s.trace);
        if k < Length(d.dests) {
          DestResolved(f, d.dests, k);
          ReadResolved(f, s.env, Semantics.NthDest(d.dests, k).args);
        }
      }
    }
  }

  /** Resolving all aliases changes no execution: the same instructions see the same values. */
  lemma {:induction false} AliasesResolved(f: Func, sem: Semantics.Meaning, s: Semantics.State, n: nat)
    ensures Semantics.Run(WithoutAliases(f), sem, s, n) == Semantics.Run(f, sem, s, n)
    decreases n
  {
    StepResolved(f, sem, s);
    if n != 0 && Semantics.Step(f, sem, s).Some? { AliasesResolved(f, sem, Semantics.Step(f, sem, s).value, n - 1); }
  }

  // ----- Merging -----

  /**
   Block by block: the code of the merged block takes the place of the branch, the block and its
   parameters are gone, and all else stays.
   */
  lemma {:induction false} MergedMeans(f: Func, pred: Pos, b: Block, code: List<Inst>, c: Block)
    requires Sound(f) && HasBlock(f.layout, b) && Preds(f, b) == Cons(pred, Nil) && pred.block != b
    requires InstsOf(f.layout, pred.block) == Append(code, Cons(pred.inst, Nil)) && Data(f, pred.inst).dests.Cons?
    ensures var g := Merged(f, pred, b);
            && g == f.(params := g.params, alias := g.alias, layout := g.layout)
            && (HasBlock(g.layout, c) <==> HasBlock(f.layout, c) && c != b)
            && Params(g, c) == (if c == b then Nil else Params(f, c))
            && (c != b ==> InstsOf(g.layout, c) ==
                           if c == pred.block then Append(code, InstsOf(f.layout, b)) else InstsOf(f.layout, c))
  {
    var l := RemoveInst(f.layout, pred.inst);
    PredIs(f, f.layout, b, pred);
    BranchRemoved(f, pred);
    BranchTaken(f, pred, code);
    RemoveInstBlocks(f.layout, pred.inst, c);
    NoBlockHas(f.layout, c);
    NoBlockHas(l, c);
    JoinedMeans(l, pred.block, b, c);
  }

  lemma {:induction false} BranchTaken(f: Func, pred: Pos, code: List<Inst>)
    requires Sound(f) && InstsOf(f.layout, pred.block) == Append(code, Cons(pred.inst, Nil))
    ensures Without(InstsOf(f.layout, pred.block), pred.inst) == code
  {
    BlockDistinct(f.layout, pred.block);
    StandsOnce(pred.block, code, pred.inst, Nil);
    WithoutAt(code, pred.inst, Nil);
    AppendNil(code);
  }

  lemma {:induction false} JoinedMeans(l: List<Blk>, into: Block, b: Block, c: Block)
    requires HasBlock(l, into) && into != b
    ensures HasBlock(Joined(l, into, b), c) <==> HasBlock(l, c) && c != b
    ensures c != b ==> InstsOf(Joined(l, into, b), c) ==
                       if c == into then Append(InstsOf(l, into), InstsOf(l, b)) else InstsOf(l, c)
  {
    var rest := RemoveBlock(l, b);
    NoneLeft(l, b);
    if c != b { RemoveBlockOthers(l, b, c); }
    RemoveBlockOthers(l, b, into);
    SetInstsBlocks(rest, into, Append(InstsOf(l, into), InstsOf(l, b)), c);
    NoBlockHas(rest, c);
    NoBlockHas(Joined(l, into, b), c);
  }
}
