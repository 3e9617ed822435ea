/** Replacing a block parameter by a constant keeps branches and parameters in step. */
module Arity {
  import opened Lists
  import opened Wrappers
  import opened Layouts
  import opened Ir
  import opened Mutations

  /** Every destination that is block `b` is passed `k` values. */
  predicate Passes(dests: List<Dest>, b: Block, k: nat)
  {
    dests.Cons? ==> (dests.head.block == b ==> Length(dests.head.args) == k) && Passes(dests.tail, b, k)
  }

  /** Every branch to `b` passes one value per parameter. */
  ghost predicate InStep(f: Func, b: Block)
  {
    forall p: Pos :: Member(Preds(f, b), p) ==> Passes(Data(f, p.inst).dests, b, Length(Params(f, b)))
  }

  // ----- Removing an argument -----

  lemma {:induction false} WithoutArgPasses(dests: List<Dest>, b: Block, n: nat, c: Block, k: nat)
    requires Passes(dests, c, k) && (b == c ==> n < k)
    ensures Passes(WithoutArg(dests, b, n), c, if b == c then k - 1 else k)
  {
    if dests.Cons? {
      WithoutArgPasses(dests.tail, b, n, c, k);
      if dests.head.block == b == c { RemoveNthLength(dests.head.args, n); }
    }
  }

  lemma {:induction false} WithoutArgLeads(dests: List<Dest>, b: Block, n: nat, c: Block)
    ensures Leads(WithoutArg(dests, b, n), c) <==> Leads(dests, c)
  {
    if dests.Cons? { WithoutArgLeads(dests.tail, b, n, c); }
  }

  /** The branches of the given predecessors lose the argument, once each, and nothing else changes. */
  lemma {:induction false} ArgRemovedAt(f: Func, preds: List<Pos>, b: Block, n: nat, i: Inst)
    requires DistinctInsts(preds)
    ensures var g := ArgRemoved(f, preds, b, n); g == f.(insts := g.insts)
    ensures Data(ArgRemoved(f, preds, b, n), i).dests ==
            if NoInst(preds, i) then Data(f, i).dests else WithoutArg(Data(f, i).dests, b, n)
    decreases preds
  {
    if preds.Cons? {
      var data := Data(f, preds.head.inst);
      var g := f.(insts := f.insts[preds.head.inst := data.(dests := WithoutArg(data.dests, b, n))]);
      ArgRemovedAt(g, preds.tail, b, n, i);
    }
  }

  lemma {:induction false} SamePreds(f: Func, g: Func, layout: List<Blk>, c: Block)
    requires forall i: Inst :: Leads(Data(g, i).dests, c) <==> Leads(Data(f, i).dests, c)
    ensures PredsIn(g, layout, c) == PredsIn(f, layout, c)
    decreases layout
  {
    if layout.Cons? { SamePreds(f, g, layout.tail, c); }
  }

  lemma {:induction false} PredsAbsent(f: Func, layout: List<Blk>, b: Block, i: Inst)
    requires NoInst(Positions(layout), i)
    ensures NoInst(PredsIn(f, layout, b), i)
    decreases layout
  {
    if layout.Cons? {
      var c := layout.head;
      AppendNoInst(BlockPositions(c.id, c.insts), Positions(layout.tail), i);
      NoInstHas(c.id, c.insts, i);
      PredsAbsent(f, layout.tail, b, i);
      if c.insts.Cons? { LastHas(c.insts); }
    }
  }

  /** A block has one last instruction, so no predecessor is listed twice. */
  lemma {:induction false} PredsDistinct(f: Func, layout: List<Blk>, b: Block)
    requires DistinctInsts(Positions(layout))
    ensures DistinctInsts(PredsIn(f, layout, b))
    decreases layout
  {
    if layout.Cons? {
      var c := layout.head;
      AppendDistinct(BlockPositions(c.id, c.insts), Positions(layout.tail));
      PredsDistinct(f, layout.tail, b);
      if c.insts.Cons? {
        LastHas(c.insts);
        EarlierBlock(c.id, c.insts, Positions(layout.tail), Last(c.insts).value);
        PredsAbsent(f, layout.tail, b, Last(c.insts).value);
      }
    }
  }

  lemma {:induction false} MemberHasInst(l: List<Pos>, p: Pos)
    requires Member(l, p)
    ensures !NoInst(l, p.inst)
  {
    if l.head != p { MemberHasInst(l.tail, p); }
  }

  // ----- Inserting a constant -----

  lemma {:induction false} BeforeLast(insts: List<Inst>, i: Inst, at: Inst)
    ensures Last(Before(insts, i, at)) == Last(insts)
  {
    if insts.Cons? && insts.head != at {
      BeforeLast(insts.tail, i, at);
      assert Before(insts.tail, i, at).Nil? <==> insts.tail.Nil?;
    }
  }

  /** Inserting before an instruction changes no block's last one, so no predecessor either. */
  lemma {:induction false} InsertPreds(f: Func, layout: List<Blk>, i: Inst, at: Inst, b: Block)
    ensures PredsIn(f, InsertInst(layout, i, at), b) == PredsIn(f, layout, b)
    decreases layout
  {
    if layout.Cons? {
      BeforeLast(layout.head.insts, i, at);
      if !Has(layout.head.insts, at) { InsertPreds(f, layout.tail, i, at, b); }
    }
  }

  lemma {:induction false} PredsBelow(f: Func, g: Func, layout: List<Blk>, n: nat, c: Block)
    requires Below(Positions(layout), n) && forall i: Inst :: i < n ==> Data(g, i) == Data(f, i)
    ensures PredsIn(g, layout, c) == PredsIn(f, layout, c)
    decreases layout
  {
    if layout.Cons? {
      var b := layout.head;
      BelowAppend(BlockPositions(b.id, b.insts), Positions(layout.tail), n);
      PredsBelow(f, g, layout.tail, n, c);
      if b.insts.Cons? {
        LastHas(b.insts);
        HasBelow(b.id, b.insts, n, Last(b.insts).value);
      }
    }
  }

  lemma {:induction false} HasBelow(b: Block, insts: List<Inst>, n: nat, i: Inst)
    requires Below(BlockPositions(b, insts), n) && Has(insts, i)
    ensures i < n
    decreases insts
  {
    if insts.head != i { HasBelow(b, insts.tail, n, i); }
  }

  lemma {:induction false} InsertedPreds(f: Func, at: Inst, data: InstData, c: Block)
    requires Below(Positions(f.layout), f.freshInst)
    ensures Preds(Inserted(f, at, data), c) == Preds(f, c)
    ensures Inserted(f, at, data).params == f.params
  {
    var g := Inserted(f, at, data);
    InsertPreds(g, f.layout, f.freshInst, at, c);
    PredsBelow(f, g, f.layout, f.freshInst, c);
  }

  lemma {:induction false} PredIsBelow(f: Func, layout: List<Blk>, b: Block, n: nat, p: Pos)
    requires Below(Positions(layout), n) && Member(PredsIn(f, layout, b), p)
    ensures p.inst < n
    decreases layout
  {
    var c := layout.head;
    BelowAppend(BlockPositions(c.id, c.insts), Positions(layout.tail), n);
    if c.insts.Cons? {
      LastHas(c.insts);
      HasBelow(c.id, c.insts, n, Last(c.insts).value);
    }
    if Member(PredsIn(f, layout.tail, b), p) { PredIsBelow(f, layout.tail, b, n, p); }
  }

  lemma {:induction false} InsertedBelow(f: Func, at: Inst, data: InstData)
    requires Below(Positions(f.layout), f.freshInst)
    ensures var g := Inserted(f, at, data); Below(Positions(g.layout), g.freshInst)
  {
    InsertPositions(f.layout, f.freshInst, at);
    BelowMore(Positions(f.layout), f.freshInst, f.freshInst + 1);
    BelowInsert(Positions(f.layout), f.freshInst + 1, f.freshInst, at);
  }

  /** Defining a constant leaves the predecessors of every block, and what they pass, as they were. */
  lemma {:induction false} ConstApart(f: Func, at: Inst, v: Value, c: Block, i: Inst)
    requires Below(Positions(f.layout), f.freshInst) && i < f.freshInst
    ensures var g := WithConst(f, at, v); Preds(g, c) == Preds(f, c) && g.params == f.params && Data(g, i) == Data(f, i)
  {
    if TypeOf(f, v) == I128 {
      var narrow := f.freshValue;
      var f1 := f.(types := f.types[narrow := Integer(64)], freshValue := narrow + 1);
      var data := InstData(Iconst, Nil, Nil, Cons(narrow, Nil));
      PredsBelow(f, f1, f.layout, f.freshInst, c);
      InsertedPreds(f1, at, data, c);
      InsertedBelow(f1, at, data);
      InsertedPreds(Inserted(f1, at, data), at, InstData(Uextend, Cons(narrow, Nil), Nil, Cons(v, Nil)), c);
    } else {
      InsertedPreds(f, at, InstData(ConstOp(TypeOf(f, v)), Nil, Nil, Cons(v, Nil)), c);
    }
  }

  // ----- Replacing a parameter -----

  lemma {:induction false} ParamConstApart(f: Func, b: Block, n: nat, c: Block, i: Inst)
    requires Sound(f) && HasBlock(f.layout, b) && n < Length(Params(f, b)) && i < f.freshInst
    ensures var g := ParamConst(f, b, n);
            && Preds(g, c) == Preds(f, c) && Data(g, i) == Data(f, i)
            && Params(g, c) == if c == b then RemoveNth(Params(f, b), n) else Params(f, c)
  {
    var f1 := f.(params := f.params[b := RemoveNth(Params(f, b), n)]);
    PredsBelow(f, f1, f.layout, f.freshInst, c);
    ConstApart(f1, FirstOf(f.layout, b), Nth(Params(f, b), n), c, i);
  }

  lemma {:induction false} RemovedPreds(f: Func, preds: List<Pos>, b: Block, n: nat, c: Block)
    requires DistinctInsts(preds)
    ensures Preds(ArgRemoved(f, preds, b, n), c) == Preds(f, c)
  {
    var g := ArgRemoved(f, preds, b, n);
    ArgRemovedAt(f, preds, b, n, 0);
    forall i: Inst
      ensures Leads(Data(g, i).dests, c) <==> Leads(Data(f, i).dests, c)
    {
      ArgRemovedAt(f, preds, b, n, i);
      WithoutArgLeads(Data(f, i).dests, b, n, c);
    }
    SamePreds(f, g, f.layout, c);
  }

  /**
   After a parameter has been replaced, branches to its block, and to any other block whose branches
   did, still pass one value per parameter.
   */
  lemma {:induction false} ReplacedInStep(f: Func, b: Block, n: nat, c: Block)
    requires Sound(f) && HasBlock(f.layout, b) && n < Length(Params(f, b)) && InStep(f, c)
    ensures InStep(ParamReplaced(f, b, n), c)
  {
    var g, k := ParamConst(f, b, n), Length(Params(f, c));
    var preds := Preds(f, b);
    var h := ArgRemoved(g, preds, b, n);
    PredsDistinct(f, f.layout, b);
    RemoveNthLength(Params(f, b), n);
    forall p: Pos | Member(Preds(ParamReplaced(f, b, n), c), p)
      ensures Passes(Data(h, p.inst).dests, c, Length(Params(h, c)))
    {
      assert Preds(ParamReplaced(f, b, n), c) == Preds(f, c) by {
        ReplacedPreds(f, b, n, c);
      }
      PredIsBelow(f, f.layout, c, f.freshInst, p);
      ParamConstApart(f, b, n, c, p.inst);
      ArgRemovedAt(g, preds, b, n, p.inst);
      WithoutArgPasses(Data(f, p.inst).dests, b, n, c, k);
      if b == c { MemberHasInst(preds, p); }
    }
    ReplacedIs(f, b, n);
  }

  lemma {:induction false} ReplacedIs(f: Func, b: Block, n: nat)
    requires Sound(f) && HasBlock(f.layout, b) && n < Length(Params(f, b))
    ensures var g, h := ParamReplaced(f, b, n), ArgRemoved(ParamConst(f, b, n), Preds(f, b), b, n);
            g == h.(signature := g.signature)
  {
    var rest := FirstIn(f.layout, b);
    BelowSuffix(Positions(f.layout), rest, f.freshInst);
    ParamConstApart(f, b, n, b, rest.head.inst);
  }

  lemma {:induction false} ReplacedPreds(f: Func, b: Block, n: nat, c: Block)
    requires Sound(f) && HasBlock(f.layout, b) && n < Length(Params(f, b))
    ensures Preds(ParamReplaced(f, b, n), c) == Preds(f, c)
  {
    var g, h := ParamConst(f, b, n), ArgRemoved(ParamConst(f, b, n), Preds(f, b), b, n);
    ReplacedIs(f, b, n);
    PredsDistinct(f, f.layout, b);
    RemovedPreds(g, Preds(f, b), b, n, c);
    var rest := FirstIn(f.layout, b);
    BelowSuffix(Positions(f.layout), rest, f.freshInst);
    ParamConstApart(f, b, n, c, rest.head.inst);
    SamePreds(h, ParamReplaced(f, b, n), h.layout, c);
  }
}
