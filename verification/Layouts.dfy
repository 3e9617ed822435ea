/** Function layouts: the order of blocks, and of the instructions in each block. */
module Layouts {
  import opened Lists
  import opened Wrappers

  type Block = nat
  type Inst = nat

  datatype Blk = Blk(id: Block, insts: List<Inst>)

  /** An instruction together with the block that holds it. */
  datatype Pos = Pos(block: Block, inst: Inst)

  function BlockPositions(b: Block, insts: List<Inst>): List<Pos>
  {
    if insts.Nil? then Nil else Cons(Pos(b, insts.head), BlockPositions(b, insts.tail))
  }

  /** All instructions in layout order. */
  function Positions(layout: List<Blk>): List<Pos>
  {
    if layout.Nil? then Nil else Append(BlockPositions(layout.head.id, layout.head.insts), Positions(layout.tail))
  }

  // ----- Reading a layout -----

  predicate Has(insts: List<Inst>, i: Inst) { insts.Cons? && (insts.head == i || Has(insts.tail, i)) }

  predicate HasBlock(layout: List<Blk>, b: Block) { layout.Cons? && (layout.head.id == b || HasBlock(layout.tail, b)) }

  function InstsOf(layout: List<Blk>, b: Block): List<Inst>
  {
    if layout.Nil? then Nil else if layout.head.id == b then layout.head.insts else InstsOf(layout.tail, b)
  }

  function First(insts: List<Inst>): Option<Inst> { if insts.Nil? then None else Some(insts.head) }

  function Last(insts: List<Inst>): Option<Inst>
  {
    if insts.Nil? then None else if insts.tail.Nil? then Some(insts.head) else Last(insts.tail)
  }

  function After(insts: List<Inst>, i: Inst): Option<Inst>
  {
    if insts.Nil? then None else if insts.head == i then First(insts.tail) else After(insts.tail, i)
  }

  /** `next_inst`: the instruction after `i` in the same block; none when `i` is in no block. */
  function NextInst(layout: List<Blk>, i: Inst): Option<Inst>
  {
    if layout.Nil? then None
    else if Has(layout.head.insts, i) then After(layout.head.insts, i)
    else NextInst(layout.tail, i)
  }

  /** `next_block`: the block after `b`; none when `b` is not in the layout. */
  function NextBlock(layout: List<Blk>, b: Block): Option<Block>
  {
    if layout.Nil? then None
    else if layout.head.id == b then if layout.tail.Nil? then None else Some(layout.tail.head.id)
    else NextBlock(layout.tail, b)
  }

  // ----- Well-formed layouts -----

  predicate Solid(layout: List<Blk>) { layout.Cons? ==> layout.head.insts.Cons? && Solid(layout.tail) }

  predicate NoBlock(layout: List<Blk>, b: Block) { layout.Cons? ==> layout.head.id != b && NoBlock(layout.tail, b) }

  predicate DistinctBlocks(layout: List<Blk>)
  {
    layout.Cons? ==> NoBlock(layout.tail, layout.head.id) && DistinctBlocks(layout.tail)
  }

  predicate NoInst(l: List<Pos>, i: Inst) { l.Cons? ==> l.head.inst != i && NoInst(l.tail, i) }

  predicate DistinctInsts(l: List<Pos>) { l.Cons? ==> NoInst(l.tail, l.head.inst) && DistinctInsts(l.tail) }

  /** No empty block, and no block or instruction twice. */
  predicate WellFormed(layout: List<Blk>)
  {
    Solid(layout) && DistinctBlocks(layout) && DistinctInsts(Positions(layout))
  }

  // ----- Suffixes -----

  predicate EndsWith(l: List<Pos>, rest: List<Pos>) { l == rest || (l.Cons? && EndsWith(l.tail, rest)) }

  lemma {:induction false} EndsWithTail(l: List<Pos>, rest: List<Pos>)
    requires EndsWith(l, rest) && rest.Cons?
    ensures EndsWith(l, rest.tail)
  {
    if l != rest { EndsWithTail(l.tail, rest); }
  }

  lemma {:induction false} EndsWithNoInst(l: List<Pos>, rest: List<Pos>, i: Inst)
    requires EndsWith(l, rest) && NoInst(l, i)
    ensures NoInst(rest, i)
  {
    if l != rest { EndsWithNoInst(l.tail, rest, i); }
  }

  lemma {:induction false} EndsWithDistinct(l: List<Pos>, rest: List<Pos>)
    requires EndsWith(l, rest) && DistinctInsts(l)
    ensures DistinctInsts(rest)
  {
    if l != rest { EndsWithDistinct(l.tail, rest); }
  }

  /** A suffix of `a + b` is a suffix of `b` or starts in `a`. */
  lemma {:induction false} EndsWithAppend(a: List<Pos>, b: List<Pos>, rest: List<Pos>) returns (cut: List<Pos>)
    requires EndsWith(Append(a, b), rest)
    ensures EndsWith(b, rest) || (EndsWith(a, cut) && cut.Cons? && rest == Append(cut, b))
    decreases a
  {
    cut := a;
    if a.Cons? && rest != Append(a, b) { cut := EndsWithAppend(a.tail, b, rest); }
  }

  // ----- Moving a cursor -----

  /** Where `next_inst_ret_prev` moves a cursor: to an instruction, nowhere, or into an empty block. */
  datatype Move = To(pos: Pos) | Finished | ExpectFails

  function Advance(layout: List<Blk>, p: Pos): Move
  {
    match NextInst(layout, p.inst)
    case Some(i) => To(Pos(p.block, i))
    case None =>
      match NextBlock(layout, p.block)
      case None => Finished
      case Some(b) =>
        match First(InstsOf(layout, b))
        case Some(i) => To(Pos(b, i))
        case None => ExpectFails
  }

  lemma {:induction false} AfterInBlock(b: Block, insts: List<Inst>, cut: List<Pos>)
    requires EndsWith(BlockPositions(b, insts), cut) && cut.Cons? && DistinctInsts(BlockPositions(b, insts))
    ensures Has(insts, cut.head.inst) && cut.head.block == b && (cut.tail.Cons? ==> cut.tail.head.block == b)
    ensures After(insts, cut.head.inst) == if cut.tail.Nil? then None else Some(cut.tail.head.inst)
    decreases insts
  {
    var l := BlockPositions(b, insts);
    if l != cut {
      AfterInBlock(b, insts.tail, cut);
      EndsWithHead(l.tail, cut, insts.head);
    } else {
      assert cut.tail == BlockPositions(b, insts.tail);
    }
  }

  /** The head of a suffix is not an instruction that the list does not have. */
  lemma {:induction false} EndsWithHead(l: List<Pos>, rest: List<Pos>, i: Inst)
    requires EndsWith(l, rest) && rest.Cons? && NoInst(l, i)
    ensures rest.head.inst != i
  {
    EndsWithNoInst(l, rest, i);
  }

  lemma {:induction false} AppendDistinct(a: List<Pos>, b: List<Pos>)
    requires DistinctInsts(Append(a, b))
    ensures DistinctInsts(a) && DistinctInsts(b)
    decreases a
  {
    if a.Cons? {
      AppendDistinct(a.tail, b);
      AppendNoInst(a.tail, b, a.head.inst);
    }
  }

  lemma {:induction false} AppendNoInst(a: List<Pos>, b: List<Pos>, i: Inst)
    ensures NoInst(Append(a, b), i) <==> NoInst(a, i) && NoInst(b, i)
    decreases a
  {
    if a.Cons? { AppendNoInst(a.tail, b, i); }
  }

  /** An instruction of a block is in no later position. */
  lemma {:induction false} EarlierBlock(b: Block, insts: List<Inst>, later: List<Pos>, i: Inst)
    requires DistinctInsts(Append(BlockPositions(b, insts), later)) && Has(insts, i)
    ensures NoInst(later, i)
    decreases insts
  {
    if insts.head == i {
      AppendNoInst(BlockPositions(b, insts.tail), later, i);
    } else {
      EarlierBlock(b, insts.tail, later, i);
    }
  }

  lemma {:induction false} SuffixBlock(layout: List<Blk>, rest: List<Pos>)
    requires EndsWith(Positions(layout), rest) && rest.Cons?
    ensures HasBlock(layout, rest.head.block) && Has(InstsOfAny(layout), rest.head.inst)
    decreases layout
  {
    if layout.Nil? {
      assert false;
    } else {
      var b := layout.head;
      var cut := EndsWithAppend(BlockPositions(b.id, b.insts), Positions(layout.tail), rest);
      if EndsWith(Positions(layout.tail), rest) {
        SuffixBlock(layout.tail, rest);
        HasAppend(b.insts, InstsOfAny(layout.tail), rest.head.inst);
      } else {
        SuffixInBlock(b.id, b.insts, cut);
        HasAppend(b.insts, InstsOfAny(layout.tail), rest.head.inst);
      }
    }
  }

  function InstsOfAny(layout: List<Blk>): List<Inst>
  {
    if layout.Nil? then Nil else Append(layout.head.insts, InstsOfAny(layout.tail))
  }

  lemma {:induction false} HasAppend(a: List<Inst>, b: List<Inst>, i: Inst)
    ensures Has(Append(a, b), i) <==> Has(a, i) || Has(b, i)
    decreases a
  {
    if a.Cons? { HasAppend(a.tail, b, i); }
  }

  lemma {:induction false} SuffixInBlock(b: Block, insts: List<Inst>, cut: List<Pos>)
    requires EndsWith(BlockPositions(b, insts), cut) && cut.Cons?
    ensures cut.head.block == b && Has(insts, cut.head.inst)
    decreases insts
  {
    if BlockPositions(b, insts) != cut { SuffixInBlock(b, insts.tail, cut); }
  }

  lemma {:induction false} NoBlockHas(layout: List<Blk>, b: Block)
    ensures NoBlock(layout, b) <==> !HasBlock(layout, b)
  {
    if layout.Cons? { NoBlockHas(layout.tail, b); }
  }

  /** Skipping a block that holds neither the cursor nor anything after it. */
  lemma {:induction false} AdvanceSkips(layout: List<Blk>, p: Pos)
    requires layout.Cons? && !Has(layout.head.insts, p.inst) && layout.head.id != p.block
    requires DistinctBlocks(layout)
    ensures Advance(layout, p) == Advance(layout.tail, p)
  {
    var next := NextBlock(layout.tail, p.block);
    if next.Some? {
      NextBlockIn(layout.tail, p.block);
      NoBlockHas(layout.tail, layout.head.id);
    }
  }

  lemma {:induction false} NextBlockIn(layout: List<Blk>, b: Block)
    requires NextBlock(layout, b).Some?
    ensures HasBlock(layout, NextBlock(layout, b).value)
  {
    if layout.head.id != b { NextBlockIn(layout.tail, b); }
  }

  lemma {:induction false} AdvanceHere(layout: List<Blk>, cut: List<Pos>)
    requires layout.Cons? && WellFormed(layout)
    requires EndsWith(BlockPositions(layout.head.id, layout.head.insts), cut) && cut.Cons?
    ensures var rest := Append(cut, Positions(layout.tail)).tail;
            Advance(layout, cut.head) == if rest.Nil? then Finished else To(rest.head)
  {
    AppendDistinct(BlockPositions(layout.head.id, layout.head.insts), Positions(layout.tail));
    AfterInBlock(layout.head.id, layout.head.insts, cut);
    if cut.tail.Nil? && layout.tail.Cons? {
      var next := layout.tail.head;
      assert Solid(layout.tail) && InstsOf(layout, next.id) == next.insts;
    }
  }

  /** From any position of a well-formed layout the cursor moves to the next one, and stops at the last. */
  lemma {:induction false} AdvanceAt(layout: List<Blk>, p: Pos, rest: List<Pos>)
    requires WellFormed(layout) && EndsWith(Positions(layout), Cons(p, rest))
    ensures Advance(layout, p) == if rest.Nil? then Finished else To(rest.head)
    decreases layout
  {
    if layout.Cons? {
      var b := layout.head;
      var here, later := BlockPositions(b.id, b.insts), Positions(layout.tail);
      var cut := EndsWithAppend(here, later, Cons(p, rest));
      AppendDistinct(here, later);
      if EndsWith(later, Cons(p, rest)) {
        AdvanceAt(layout.tail, p, rest);
        SuffixBlock(layout.tail, Cons(p, rest));
        NoBlockHas(layout.tail, b.id);
        if Has(b.insts, p.inst) {
          EarlierBlock(b.id, b.insts, later, p.inst);
          EndsWithHead(later, Cons(p, rest), p.inst);
        }
        AdvanceSkips(layout, p);
      } else {
        AdvanceHere(layout, cut);
      }
    }
  }

  // ----- Editing a layout -----

  function Without(insts: List<Inst>, i: Inst): List<Inst>
  {
    if insts.Nil? then Nil
    else if insts.head == i then Without(insts.tail, i)
    else Cons(insts.head, Without(insts.tail, i))
  }

  /** `remove_inst`. The block stays, even when it is left empty. */
  function RemoveInst(layout: List<Blk>, i: Inst): List<Blk>
  {
    if layout.Nil? then Nil
    else Cons(Blk(layout.head.id, Without(layout.head.insts, i)), RemoveInst(layout.tail, i))
  }

  function RemoveBlock(layout: List<Blk>, b: Block): List<Blk>
  {
    if layout.Nil? then Nil
    else if layout.head.id == b then RemoveBlock(layout.tail, b)
    else Cons(layout.head, RemoveBlock(layout.tail, b))
  }

  function Before(insts: List<Inst>, i: Inst, at: Inst): List<Inst>
  {
    if insts.Nil? then Nil
    else if insts.head == at then Cons(i, insts)
    else Cons(insts.head, Before(insts.tail, i, at))
  }

  /** `insert_inst`: put `i` before `at`. */
  function InsertInst(layout: List<Blk>, i: Inst, at: Inst): List<Blk>
  {
    if layout.Nil? then Nil
    else if Has(layout.head.insts, at) then Cons(Blk(layout.head.id, Before(layout.head.insts, i, at)), layout.tail)
    else Cons(layout.head, InsertInst(layout.tail, i, at))
  }

  // ----- What edits do to the positions -----

  function WithoutPos(l: List<Pos>, i: Inst): List<Pos>
  {
    if l.Nil? then Nil else if l.head.inst == i then WithoutPos(l.tail, i) else Cons(l.head, WithoutPos(l.tail, i))
  }

  lemma {:induction false} WithoutPositions(b: Block, insts: List<Inst>, i: Inst)
    ensures BlockPositions(b, Without(insts, i)) == WithoutPos(BlockPositions(b, insts), i)
  {
    if insts.Cons? { WithoutPositions(b, insts.tail, i); }
  }

  lemma {:induction false} WithoutAppend(a: List<Pos>, b: List<Pos>, i: Inst)
    ensures WithoutPos(Append(a, b), i) == Append(WithoutPos(a, i), WithoutPos(b, i))
    decreases a
  {
    if a.Cons? { WithoutAppend(a.tail, b, i); }
  }

  lemma {:induction false} RemovePositions(layout: List<Blk>, i: Inst)
    ensures Positions(RemoveInst(layout, i)) == WithoutPos(Positions(layout), i)
  {
    if layout.Cons? {
      var b := layout.head;
      WithoutPositions(b.id, b.insts, i);
      WithoutAppend(BlockPositions(b.id, b.insts), Positions(layout.tail), i);
      RemovePositions(layout.tail, i);
    }
  }

  lemma {:induction false} WithoutNothing(l: List<Pos>, i: Inst)
    requires NoInst(l, i)
    ensures WithoutPos(l, i) == l
  {
    if l.Cons? { WithoutNothing(l.tail, i); }
  }

  /** Removing something before a suffix keeps the suffix. */
  lemma {:induction false} WithoutSuffix(l: List<Pos>, rest: List<Pos>, i: Inst)
    requires EndsWith(l, rest) && NoInst(rest, i)
    ensures EndsWith(WithoutPos(l, i), rest)
  {
    if l == rest { WithoutNothing(l, i); } else { WithoutSuffix(l.tail, rest, i); }
  }

  lemma {:induction false} WithoutKeepsAbsent(l: List<Pos>, i: Inst, j: Inst)
    ensures NoInst(l, j) ==> NoInst(WithoutPos(l, i), j)
    ensures NoInst(WithoutPos(l, i), i)
  {
    if l.Cons? { WithoutKeepsAbsent(l.tail, i, j); }
  }

  lemma {:induction false} WithoutDistinct(l: List<Pos>, i: Inst)
    requires DistinctInsts(l)
    ensures DistinctInsts(WithoutPos(l, i))
  {
    if l.Cons? {
      WithoutDistinct(l.tail, i);
      WithoutKeepsAbsent(l.tail, i, l.head.inst);
    }
  }

  lemma {:induction false} RemoveInstBlocks(layout: List<Blk>, i: Inst, b: Block)
    ensures NoBlock(RemoveInst(layout, i), b) <==> NoBlock(layout, b)
    ensures DistinctBlocks(layout) ==> DistinctBlocks(RemoveInst(layout, i))
    ensures InstsOf(RemoveInst(layout, i), b) == Without(InstsOf(layout, b), i)
    decreases layout
  {
    if layout.Cons? {
      RemoveInstBlocks(layout.tail, i, b);
      RemoveInstBlocks(layout.tail, i, layout.head.id);
    }
  }

  lemma {:induction false} RemoveBlockBlocks(layout: List<Blk>, b: Block, c: Block)
    ensures NoBlock(layout, c) ==> NoBlock(RemoveBlock(layout, b), c)
    ensures DistinctBlocks(layout) ==> DistinctBlocks(RemoveBlock(layout, b))
    decreases layout
  {
    if layout.Cons? {
      RemoveBlockBlocks(layout.tail, b, c);
      RemoveBlockBlocks(layout.tail, b, layout.head.id);
    }
  }

  lemma {:induction false} RemoveAbsentBlock(layout: List<Blk>, b: Block)
    requires NoBlock(layout, b)
    ensures RemoveBlock(layout, b) == layout
  {
    if layout.Cons? { RemoveAbsentBlock(layout.tail, b); }
  }

  /** Removing an empty block changes no position. */
  lemma {:induction false} RemoveEmptyBlock(layout: List<Blk>, b: Block)
    requires InstsOf(layout, b).Nil? && DistinctBlocks(layout)
    ensures Positions(RemoveBlock(layout, b)) == Positions(layout)
  {
    if layout.Cons? {
      if layout.head.id == b { RemoveAbsentBlock(layout.tail, b); } else { RemoveEmptyBlock(layout.tail, b); }
    }
  }

  // ----- Which block holds an instruction -----

  /** No block but `b` holds `i`. */
  predicate OnlyIn(layout: List<Blk>, b: Block, i: Inst)
  {
    layout.Cons? ==> (layout.head.id != b ==> !Has(layout.head.insts, i)) && OnlyIn(layout.tail, b, i)
  }

  /** Only `b` may be empty. */
  predicate SolidBut(layout: List<Blk>, b: Block)
  {
    layout.Cons? ==> (layout.head.id != b ==> layout.head.insts.Cons?) && SolidBut(layout.tail, b)
  }

  lemma {:induction false} NoInstHas(b: Block, insts: List<Inst>, i: Inst)
    ensures NoInst(BlockPositions(b, insts), i) <==> !Has(insts, i)
  {
    if insts.Cons? { NoInstHas(b, insts.tail, i); }
  }

  lemma {:induction false} AbsentOnlyIn(layout: List<Blk>, b: Block, i: Inst)
    requires NoInst(Positions(layout), i)
    ensures OnlyIn(layout, b, i)
  {
    if layout.Cons? {
      AppendNoInst(BlockPositions(layout.head.id, layout.head.insts), Positions(layout.tail), i);
      NoInstHas(layout.head.id, layout.head.insts, i);
      AbsentOnlyIn(layout.tail, b, i);
    }
  }

  /** A position's block is the only one that holds its instruction. */
  lemma {:induction false} PositionIsUnique(layout: List<Blk>, rest: List<Pos>)
    requires WellFormed(layout) && EndsWith(Positions(layout), rest) && rest.Cons?
    ensures OnlyIn(layout, rest.head.block, rest.head.inst) && Has(InstsOf(layout, rest.head.block), rest.head.inst)
    decreases layout
  {
    if layout.Cons? {
      var b := layout.head;
      var here, later := BlockPositions(b.id, b.insts), Positions(layout.tail);
      var cut := EndsWithAppend(here, later, rest);
      AppendDistinct(here, later);
      if EndsWith(later, rest) {
        PositionIsUnique(layout.tail, rest);
        SuffixBlock(layout.tail, rest);
        NoBlockHas(layout.tail, b.id);
        if Has(b.insts, rest.head.inst) {
          EarlierBlock(b.id, b.insts, later, rest.head.inst);
          EndsWithHead(later, rest, rest.head.inst);
        }
      } else {
        SuffixInBlock(b.id, b.insts, cut);
        EarlierBlock(b.id, b.insts, later, rest.head.inst);
        AbsentOnlyIn(layout.tail, rest.head.block, rest.head.inst);
      }
    }
  }

  lemma {:induction false} WithoutAbsent(insts: List<Inst>, i: Inst)
    requires !Has(insts, i)
    ensures Without(insts, i) == insts
  {
    if insts.Cons? { WithoutAbsent(insts.tail, i); }
  }

  lemma {:induction false} WithoutHas(insts: List<Inst>, i: Inst, j: Inst)
    requires Has(insts, j) && i != j
    ensures Has(Without(insts, i), j)
  {
    if insts.head != j { WithoutHas(insts.tail, i, j); }
  }

  lemma {:induction false} RemoveSolidBut(layout: List<Blk>, b: Block, i: Inst)
    requires Solid(layout) && OnlyIn(layout, b, i)
    ensures SolidBut(RemoveInst(layout, i), b)
  {
    if layout.Cons? {
      if layout.head.id != b { WithoutAbsent(layout.head.insts, i); }
      RemoveSolidBut(layout.tail, b, i);
    }
  }

  lemma {:induction false} SolidButAbsent(layout: List<Blk>, b: Block)
    requires SolidBut(layout, b) && NoBlock(layout, b)
    ensures Solid(layout)
  {
    if layout.Cons? { SolidButAbsent(layout.tail, b); }
  }

  /** The one block that may be empty is not, or is removed. */
  lemma {:induction false} SolidAgain(layout: List<Blk>, b: Block)
    requires SolidBut(layout, b) && DistinctBlocks(layout)
    ensures InstsOf(layout, b).Cons? ==> Solid(layout)
    ensures Solid(RemoveBlock(layout, b))
  {
    if layout.Cons? {
      if layout.head.id == b {
        SolidButAbsent(layout.tail, b);
        RemoveAbsentBlock(layout.tail, b);
      } else {
        SolidAgain(layout.tail, b);
      }
    }
  }

  /** Remove an instruction, and its block too when that leaves it empty. */
  function DropInst(layout: List<Blk>, p: Pos): List<Blk>
  {
    var l := RemoveInst(layout, p.inst);
    if InstsOf(l, p.block).Nil? then RemoveBlock(l, p.block) else l
  }

  /** Dropping the position before a suffix keeps the layout well-formed and the suffix in place. */
  lemma {:induction false} DropInstKeeps(layout: List<Blk>, p: Pos, rest: List<Pos>)
    requires WellFormed(layout) && EndsWith(Positions(layout), Cons(p, rest))
    ensures WellFormed(DropInst(layout, p)) && EndsWith(Positions(DropInst(layout, p)), rest)
    ensures Positions(DropInst(layout, p)) == WithoutPos(Positions(layout), p.inst)
  {
    var l := RemoveInst(layout, p.inst);
    RemovePositions(layout, p.inst);
    RemoveInstBlocks(layout, p.inst, p.block);
    PositionIsUnique(layout, Cons(p, rest));
    RemoveSolidBut(layout, p.block, p.inst);
    SolidAgain(l, p.block);
    RemoveBlockBlocks(l, p.block, p.block);
    if InstsOf(l, p.block).Nil? { RemoveEmptyBlock(l, p.block); }
    WithoutDistinct(Positions(layout), p.inst);
    EndsWithDistinct(Positions(layout), Cons(p, rest));
    EndsWithTail(Positions(layout), Cons(p, rest));
    WithoutSuffix(Positions(layout), rest, p.inst);
  }

  // ----- Insertion -----

  function InsertPos(l: List<Pos>, i: Inst, at: Inst): List<Pos>
  {
    if l.Nil? then Nil
    else if l.head.inst == at then Cons(Pos(l.head.block, i), l)
    else Cons(l.head, InsertPos(l.tail, i, at))
  }

  lemma {:induction false} BeforePositions(b: Block, insts: List<Inst>, later: List<Pos>, i: Inst, at: Inst)
    requires Has(insts, at)
    ensures Append(BlockPositions(b, Before(insts, i, at)), later) ==
              InsertPos(Append(BlockPositions(b, insts), later), i, at)
    decreases insts
  {
    if insts.head != at { BeforePositions(b, insts.tail, later, i, at); }
  }

  lemma {:induction false} InsertAppend(a: List<Pos>, b: List<Pos>, i: Inst, at: Inst)
    requires NoInst(a, at)
    ensures InsertPos(Append(a, b), i, at) == Append(a, InsertPos(b, i, at))
    decreases a
  {
    if a.Cons? { InsertAppend(a.tail, b, i, at); }
  }

  lemma {:induction false} InsertPositions(layout: List<Blk>, i: Inst, at: Inst)
    ensures Positions(InsertInst(layout, i, at)) == InsertPos(Positions(layout), i, at)
  {
    if layout.Cons? {
      var b := layout.head;
      if Has(b.insts, at) {
        BeforePositions(b.id, b.insts, Positions(layout.tail), i, at);
      } else {
        NoInstHas(b.id, b.insts, at);
        InsertAppend(BlockPositions(b.id, b.insts), Positions(layout.tail), i, at);
        InsertPositions(layout.tail, i, at);
      }
    }
  }

  lemma {:induction false} InsertNowhere(l: List<Pos>, i: Inst, at: Inst)
    requires NoInst(l, at)
    ensures InsertPos(l, i, at) == l
  {
    if l.Cons? { InsertNowhere(l.tail, i, at); }
  }

  /** Inserting before or at the start of a suffix keeps the suffix. */
  lemma {:induction false} InsertSuffix(l: List<Pos>, rest: List<Pos>, i: Inst, at: Inst)
    requires EndsWith(l, rest) && NoInst(if rest.Cons? then rest.tail else rest, at)
    ensures EndsWith(InsertPos(l, i, at), rest)
  {
    if l == rest {
      if rest.Cons? && rest.head.inst != at { InsertNowhere(rest.tail, i, at); }
    } else {
      InsertSuffix(l.tail, rest, i, at);
    }
  }

  lemma {:induction false} InsertAbsent(l: List<Pos>, i: Inst, at: Inst, j: Inst)
    requires NoInst(l, j) && i != j
    ensures NoInst(InsertPos(l, i, at), j)
  {
    if l.Cons? && l.head.inst != at { InsertAbsent(l.tail, i, at, j); }
  }

  lemma {:induction false} InsertDistinct(l: List<Pos>, i: Inst, at: Inst)
    requires DistinctInsts(l) && NoInst(l, i)
    ensures DistinctInsts(InsertPos(l, i, at))
  {
    if l.Cons? && l.head.inst != at {
      InsertDistinct(l.tail, i, at);
      InsertAbsent(l.tail, i, at, l.head.inst);
    }
  }

  lemma {:induction false} InsertBlocks(layout: List<Blk>, i: Inst, at: Inst, b: Block)
    ensures NoBlock(InsertInst(layout, i, at), b) <==> NoBlock(layout, b)
    ensures DistinctBlocks(layout) ==> DistinctBlocks(InsertInst(layout, i, at))
    ensures Solid(layout) ==> Solid(InsertInst(layout, i, at))
    decreases layout
  {
    if layout.Cons? {
      InsertBlocks(layout.tail, i, at, b);
      InsertBlocks(layout.tail, i, at, layout.head.id);
    }
  }

  lemma {:induction false} BeforeHas(insts: List<Inst>, i: Inst, at: Inst)
    requires Has(insts, at)
    ensures Has(Before(insts, i, at), i) && Has(Before(insts, i, at), at)
  {
    if insts.head != at { BeforeHas(insts.tail, i, at); }
  }

  /** The inserted instruction is in the block of the one it was put before. */
  lemma {:induction false} InsertHas(layout: List<Blk>, i: Inst, at: Inst, b: Block)
    requires OnlyIn(layout, b, at) && Has(InstsOf(layout, b), at) && DistinctBlocks(layout)
    ensures Has(InstsOf(InsertInst(layout, i, at), b), i)
    decreases layout
  {
    if layout.Cons? {
      if layout.head.id == b { BeforeHas(layout.head.insts, i, at); } else { InsertHas(layout.tail, i, at, b); }
    }
  }

  /** A new instruction goes before the head of a suffix, which stays. */
  lemma {:induction false} InsertKeeps(layout: List<Blk>, i: Inst, rest: List<Pos>)
    requires WellFormed(layout) && EndsWith(Positions(layout), rest) && rest.Cons? && NoInst(Positions(layout), i)
    ensures var l := InsertInst(layout, i, rest.head.inst);
            && WellFormed(l) && EndsWith(Positions(l), rest) && Has(InstsOf(l, rest.head.block), i)
  {
    InsertPositions(layout, i, rest.head.inst);
    InsertDistinct(Positions(layout), i, rest.head.inst);
    InsertBlocks(layout, i, rest.head.inst, 0);
    EndsWithDistinct(Positions(layout), rest);
    InsertSuffix(Positions(layout), rest, i, rest.head.inst);
    PositionIsUnique(layout, rest);
    InsertHas(layout, i, rest.head.inst, rest.head.block);
  }

  // ----- Moving to the entry block -----

  /** Move `i` before the last instruction of the entry block. */
  function MoveToEntry(layout: List<Blk>, i: Inst): List<Blk>
  {
    match if layout.Nil? then None else Last(layout.head.insts)
    case None => layout
    case Some(last) => InsertInst(RemoveInst(layout, i), i, last)
  }

  lemma {:induction false} LastHas(insts: List<Inst>)
    requires insts.Cons?
    ensures Last(insts).Some? && Has(insts, Last(insts).value)
  {
    if insts.tail.Cons? { LastHas(insts.tail); }
  }

  /** Nothing of the entry block is in a suffix that starts in another block. */
  lemma {:induction false} EntryIsBefore(layout: List<Blk>, rest: List<Pos>, i: Inst)
    requires WellFormed(layout) && EndsWith(Positions(layout), rest) && layout.Cons? && rest.Cons?
    requires rest.head.block != layout.head.id && Has(layout.head.insts, i)
    ensures NoInst(rest, i)
  {
    var b := layout.head;
    var here, later := BlockPositions(b.id, b.insts), Positions(layout.tail);
    var cut := EndsWithAppend(here, later, rest);
    if !EndsWith(later, rest) { SuffixInBlock(b.id, b.insts, cut); }
    EarlierBlock(b.id, b.insts, later, i);
    EndsWithNoInst(later, rest, i);
  }

  /** When its block holds more, dropping an instruction just removes it. */
  lemma {:induction false} DropIsRemove(layout: List<Blk>, p: Pos, j: Inst)
    requires Has(InstsOf(layout, p.block), j) && j != p.inst
    ensures DropInst(layout, p) == RemoveInst(layout, p.inst)
  {
    RemoveInstBlocks(layout, p.inst, p.block);
    WithoutHas(InstsOf(layout, p.block), p.inst, j);
  }

  lemma {:induction false} InsertElsewhere(layout: List<Blk>, i: Inst, at: Inst, rest: List<Pos>)
    requires WellFormed(layout) && NoInst(Positions(layout), i) && EndsWith(Positions(layout), rest) && NoInst(rest, at)
    ensures WellFormed(InsertInst(layout, i, at)) && EndsWith(Positions(InsertInst(layout, i, at)), rest)
  {
    InsertPositions(layout, i, at);
    InsertDistinct(Positions(layout), i, at);
    InsertBlocks(layout, i, at, 0);
    InsertSuffix(Positions(layout), rest, i, at);
  }

  /** Removing an instruction that is not the last of its block. */
  lemma {:induction false} RemoveKeeps(layout: List<Blk>, p: Pos, rest: List<Pos>)
    requires WellFormed(layout) && EndsWith(Positions(layout), Cons(p, rest))
    requires rest.Cons? && rest.head.block == p.block
    ensures var l := RemoveInst(layout, p.inst);
            WellFormed(l) && EndsWith(Positions(l), rest) && NoInst(Positions(l), p.inst)
  {
    EndsWithTail(Positions(layout), Cons(p, rest));
    EndsWithDistinct(Positions(layout), Cons(p, rest));
    PositionIsUnique(layout, rest);
    DropIsRemove(layout, p, rest.head.inst);
    DropInstKeeps(layout, p, rest);
    WithoutKeepsAbsent(Positions(layout), p.inst, p.inst);
  }

  lemma {:induction false} MoveKeeps(layout: List<Blk>, p: Pos, rest: List<Pos>)
    requires WellFormed(layout) && EndsWith(Positions(layout), Cons(p, rest)) && rest.Cons? && layout.Cons?
    requires rest.head.block == p.block != layout.head.id
    ensures WellFormed(MoveToEntry(layout, p.inst)) && EndsWith(Positions(MoveToEntry(layout, p.inst)), rest)
  {
    LastHas(layout.head.insts);
    RemoveKeeps(layout, p, rest);
    EntryIsBefore(layout, Cons(p, rest), Last(layout.head.insts).value);
    InsertElsewhere(RemoveInst(layout, p.inst), p.inst, Last(layout.head.insts).value, rest);
  }

  // ----- Removing whole blocks -----

  /** Every instruction of `a` is absent from `b`. */
  predicate Disjoint(a: List<Pos>, b: List<Pos>) { a.Cons? ==> NoInst(b, a.head.inst) && Disjoint(a.tail, b) }

  lemma {:induction false} DistinctAppend(a: List<Pos>, b: List<Pos>)
    ensures DistinctInsts(Append(a, b)) <==> DistinctInsts(a) && DistinctInsts(b) && Disjoint(a, b)
    decreases a
  {
    if a.Cons? {
      DistinctAppend(a.tail, b);
      AppendNoInst(a.tail, b, a.head.inst);
    }
  }

  lemma {:induction false} RemoveBlockAbsent(layout: List<Blk>, b: Block, i: Inst)
    requires NoInst(Positions(layout), i)
    ensures NoInst(Positions(RemoveBlock(layout, b)), i)
  {
    if layout.Cons? {
      var here, later := BlockPositions(layout.head.id, layout.head.insts), Positions(layout.tail);
      AppendNoInst(here, later, i);
      RemoveBlockAbsent(layout.tail, b, i);
      AppendNoInst(here, Positions(RemoveBlock(layout.tail, b)), i);
    }
  }

  lemma {:induction false} RemoveBlockDisjoint(a: List<Pos>, layout: List<Blk>, b: Block)
    requires Disjoint(a, Positions(layout))
    ensures Disjoint(a, Positions(RemoveBlock(layout, b)))
    decreases a
  {
    if a.Cons? {
      RemoveBlockAbsent(layout, b, a.head.inst);
      RemoveBlockDisjoint(a.tail, layout, b);
    }
  }

  lemma {:induction false} RemoveBlockKeeps(layout: List<Blk>, b: Block)
    requires WellFormed(layout)
    ensures WellFormed(RemoveBlock(layout, b))
  {
    if layout.Cons? {
      var here, later := BlockPositions(layout.head.id, layout.head.insts), Positions(layout.tail);
      DistinctAppend(here, later);
      RemoveBlockKeeps(layout.tail, b);
      RemoveBlockBlocks(layout.tail, b, layout.head.id);
      RemoveBlockDisjoint(here, layout.tail, b);
      DistinctAppend(here, Positions(RemoveBlock(layout.tail, b)));
    }
  }

  /** Emptying a block first makes no difference to removing it. */
  lemma {:induction false} RemoveEmptied(layout: List<Blk>, b: Block, i: Inst)
    requires OnlyIn(layout, b, i)
    ensures RemoveBlock(RemoveInst(layout, i), b) == RemoveBlock(layout, b)
  {
    if layout.Cons? {
      if layout.head.id != b { WithoutAbsent(layout.head.insts, i); }
      RemoveEmptied(layout.tail, b, i);
    }
  }

  // ----- Counting instructions -----

  function Count(insts: List<Inst>, i: Inst): nat
  {
    if insts.Nil? then 0 else (if insts.head == i then 1 else 0) + Count(insts.tail, i)
  }

  function CountAll(layout: List<Blk>, i: Inst): nat
  {
    if layout.Nil? then 0 else Count(layout.head.insts, i) + CountAll(layout.tail, i)
  }

  lemma {:induction false} CountAppend(a: List<Inst>, b: List<Inst>, i: Inst)
    ensures Count(Append(a, b), i) == Count(a, i) + Count(b, i)
    decreases a
  {
    if a.Cons? { CountAppend(a.tail, b, i); }
  }

  lemma {:induction false} CountHas(insts: List<Inst>, i: Inst)
    ensures Has(insts, i) <==> Count(insts, i) > 0
  {
    if insts.Cons? { CountHas(insts.tail, i); }
  }

  lemma {:induction false} CountNoInst(layout: List<Blk>, i: Inst)
    ensures NoInst(Positions(layout), i) <==> CountAll(layout, i) == 0
  {
    if layout.Cons? {
      AppendNoInst(BlockPositions(layout.head.id, layout.head.insts), Positions(layout.tail), i);
      NoInstHas(layout.head.id, layout.head.insts, i);
      CountHas(layout.head.insts, i);
      CountNoInst(layout.tail, i);
    }
  }

  /** Distinct instructions are counted at most once. */
  lemma {:induction false} DistinctCount(b: Block, insts: List<Inst>, i: Inst)
    requires DistinctInsts(BlockPositions(b, insts))
    ensures Count(insts, i) <= 1
    decreases insts
  {
    if insts.Cons? {
      DistinctCount(b, insts.tail, i);
      NoInstHas(b, insts.tail, insts.head);
      CountHas(insts.tail, insts.head);
    }
  }

  lemma {:induction false} DistinctCounts(layout: List<Blk>, i: Inst)
    requires DistinctInsts(Positions(layout))
    ensures CountAll(layout, i) <= 1
    decreases layout
  {
    if layout.Cons? {
      var b := layout.head;
      AppendDistinct(BlockPositions(b.id, b.insts), Positions(layout.tail));
      DistinctCount(b.id, b.insts, i);
      DistinctCounts(layout.tail, i);
      CountHas(b.insts, i);
      if Has(b.insts, i) {
        EarlierBlock(b.id, b.insts, Positions(layout.tail), i);
        CountNoInst(layout.tail, i);
      }
    }
  }

  ghost predicate CountsOnce(layout: List<Blk>) { forall i :: CountAll(layout, i) <= 1 }

  lemma {:induction false} SingleBlock(b: Block, insts: List<Inst>, later: List<Blk>)
    requires forall i :: Count(insts, i) + CountAll(later, i) <= 1
    ensures DistinctInsts(BlockPositions(b, insts)) && Disjoint(BlockPositions(b, insts), Positions(later))
    decreases insts
  {
    if insts.Cons? {
      var i := insts.head;
      assert Count(insts, i) + CountAll(later, i) <= 1;
      NoInstHas(b, insts.tail, i);
      CountHas(insts.tail, i);
      CountNoInst(later, i);
      forall j
        ensures Count(insts.tail, j) + CountAll(later, j) <= 1
      {
        assert Count(insts, j) + CountAll(later, j) <= 1;
      }
      SingleBlock(b, insts.tail, later);
    }
  }

  /** Instructions that are counted at most once are distinct. */
  lemma {:induction false} CountsDistinct(layout: List<Blk>)
    requires CountsOnce(layout)
    ensures DistinctInsts(Positions(layout))
  {
    if layout.Cons? {
      var b := layout.head;
      forall i
        ensures Count(b.insts, i) + CountAll(layout.tail, i) <= 1
      {
        assert CountAll(layout, i) <= 1;
      }
      SingleBlock(b.id, b.insts, layout.tail);
      CountsDistinct(layout.tail);
      DistinctAppend(BlockPositions(b.id, b.insts), Positions(layout.tail));
    }
  }

  /** As many of each instruction as in a layout where they are distinct. */
  ghost predicate SameCounts(l: List<Blk>, l': List<Blk>) { forall i :: CountAll(l, i) == CountAll(l', i) }

  lemma {:induction false} SameCountsDistinct(l: List<Blk>, l': List<Blk>)
    requires SameCounts(l, l') && DistinctInsts(Positions(l))
    ensures DistinctInsts(Positions(l'))
  {
    forall i
      ensures CountAll(l', i) <= 1
    {
      DistinctCounts(l, i);
    }
    CountsDistinct(l');
  }

  // ----- Joining two blocks -----

  function SetInsts(layout: List<Blk>, b: Block, insts: List<Inst>): List<Blk>
  {
    if layout.Nil? then Nil
    else if layout.head.id == b then Cons(Blk(b, insts), layout.tail)
    else Cons(layout.head, SetInsts(layout.tail, b, insts))
  }

  /** `append_inst`: put `i` last in block `b`. */
  function AppendInst(layout: List<Blk>, i: Inst, b: Block): List<Blk>
  {
    SetInsts(layout, b, Append(InstsOf(layout, b), Cons(i, Nil)))
  }

  /** The instructions of `b` moved to the end of `into`, and `b` removed. */
  function Joined(layout: List<Blk>, into: Block, b: Block): List<Blk>
  {
    SetInsts(RemoveBlock(layout, b), into, Append(InstsOf(layout, into), InstsOf(layout, b)))
  }

  lemma {:induction false} SetInstsBlocks(layout: List<Blk>, b: Block, insts: List<Inst>, c: Block)
    ensures NoBlock(SetInsts(layout, b, insts), c) <==> NoBlock(layout, c)
    ensures DistinctBlocks(layout) ==> DistinctBlocks(SetInsts(layout, b, insts))
    ensures Solid(layout) && insts.Cons? ==> Solid(SetInsts(layout, b, insts))
    ensures InstsOf(SetInsts(layout, b, insts), c) ==
            if c == b && HasBlock(layout, b) then insts else InstsOf(layout, c)
    decreases layout
  {
    if layout.Cons? {
      SetInstsBlocks(layout.tail, b, insts, c);
      SetInstsBlocks(layout.tail, b, insts, layout.head.id);
    }
  }

  lemma {:induction false} SetInstsCount(layout: List<Blk>, b: Block, insts: List<Inst>, i: Inst)
    requires HasBlock(layout, b)
    ensures CountAll(SetInsts(layout, b, insts), i) + Count(InstsOf(layout, b), i) ==
              CountAll(layout, i) + Count(insts, i)
  {
    if layout.head.id != b { SetInstsCount(layout.tail, b, insts, i); }
  }

  lemma {:induction false} RemoveBlockCount(layout: List<Blk>, b: Block, i: Inst)
    requires DistinctBlocks(layout)
    ensures CountAll(RemoveBlock(layout, b), i) + Count(InstsOf(layout, b), i) == CountAll(layout, i)
  {
    if layout.Cons? {
      if layout.head.id == b { RemoveAbsentBlock(layout.tail, b); } else { RemoveBlockCount(layout.tail, b, i); }
    }
  }

  lemma {:induction false} RemoveBlockOthers(layout: List<Blk>, b: Block, c: Block)
    requires b != c
    ensures InstsOf(RemoveBlock(layout, b), c) == InstsOf(layout, c)
    ensures HasBlock(RemoveBlock(layout, b), c) <==> HasBlock(layout, c)
    decreases layout
  {
    if layout.Cons? { RemoveBlockOthers(layout.tail, b, c); }
  }

  lemma {:induction false} JoinedCount(layout: List<Blk>, into: Block, b: Block)
    requires DistinctBlocks(layout) && HasBlock(layout, into) && into != b
    ensures SameCounts(layout, Joined(layout, into, b))
  {
    RemoveBlockOthers(layout, b, into);
    var all := Append(InstsOf(layout, into), InstsOf(layout, b));
    forall i
      ensures CountAll(layout, i) == CountAll(Joined(layout, into, b), i)
    {
      RemoveBlockCount(layout, b, i);
      SetInstsCount(RemoveBlock(layout, b), into, all, i);
      CountAppend(InstsOf(layout, into), InstsOf(layout, b), i);
    }
  }

  /** Joining keeps a layout well-formed, also when only `into` was left empty. */
  lemma {:induction false} JoinedKeeps(layout: List<Blk>, into: Block, b: Block)
    requires DistinctBlocks(layout) && DistinctInsts(Positions(layout)) && SolidBut(layout, into)
    requires HasBlock(layout, into) && into != b && InstsOf(layout, b).Cons?
    ensures WellFormed(Joined(layout, into, b))
  {
    var rest := RemoveBlock(layout, b);
    var all := Append(InstsOf(layout, into), InstsOf(layout, b));
    RemoveBlockBlocks(layout, b, 0);
    SetInstsBlocks(rest, into, all, 0);
    RemoveBlockSolidBut(layout, b, into);
    SetInstsSolid(rest, into, all);
    JoinedCount(layout, into, b);
    SameCountsDistinct(layout, Joined(layout, into, b));
  }

  lemma {:induction false} RemoveBlockSolidBut(layout: List<Blk>, b: Block, c: Block)
    requires SolidBut(layout, c)
    ensures SolidBut(RemoveBlock(layout, b), c)
  {
    if layout.Cons? { RemoveBlockSolidBut(layout.tail, b, c); }
  }

  lemma {:induction false} SetInstsSolid(layout: List<Blk>, b: Block, insts: List<Inst>)
    requires SolidBut(layout, b) && DistinctBlocks(layout) && insts.Cons?
    ensures Solid(SetInsts(layout, b, insts))
  {
    if layout.Cons? {
      if layout.head.id == b { SolidButAbsent(layout.tail, b); } else { SetInstsSolid(layout.tail, b, insts); }
    }
  }

  // ----- Joining one instruction at a time -----

  lemma {:induction false} SetSame(layout: List<Blk>, b: Block)
    ensures SetInsts(layout, b, InstsOf(layout, b)) == layout
  {
    if layout.Cons? { SetSame(layout.tail, b); }
  }

  lemma {:induction false} SetTwice(layout: List<Blk>, b: Block, x: List<Inst>, y: List<Inst>)
    ensures SetInsts(SetInsts(layout, b, x), b, y) == SetInsts(layout, b, y)
  {
    if layout.Cons? { SetTwice(layout.tail, b, x, y); }
  }

  lemma {:induction false} SetAndRemove(layout: List<Blk>, b: Block, c: Block, x: List<Inst>)
    requires b != c
    ensures RemoveBlock(SetInsts(layout, c, x), b) == SetInsts(RemoveBlock(layout, b), c, x)
  {
    if layout.Cons? && layout.head.id != c { SetAndRemove(layout.tail, b, c, x); }
  }

  /** With nothing left to move, joining is removing. */
  lemma {:induction false} JoinEmpty(layout: List<Blk>, into: Block, b: Block)
    requires InstsOf(layout, b).Nil? && into != b
    ensures Joined(layout, into, b) == RemoveBlock(layout, b)
  {
    AppendNil(InstsOf(layout, into));
    RemoveBlockOthers(layout, b, into);
    SetSame(RemoveBlock(layout, b), into);
  }

  /** Joining a block that holds nothing to itself is removing it. */
  lemma {:induction false} JoinSelf(layout: List<Blk>, b: Block)
    ensures Joined(layout, b, b) == RemoveBlock(layout, b)
  {
    NoneLeft(layout, b);
    SetAbsent(RemoveBlock(layout, b), b, Append(InstsOf(layout, b), InstsOf(layout, b)));
  }

  lemma {:induction false} NoneLeft(layout: List<Blk>, b: Block)
    ensures NoBlock(RemoveBlock(layout, b), b)
  {
    if layout.Cons? { NoneLeft(layout.tail, b); }
  }

  lemma {:induction false} SetAbsent(layout: List<Blk>, b: Block, insts: List<Inst>)
    requires NoBlock(layout, b)
    ensures SetInsts(layout, b, insts) == layout
  {
    if layout.Cons? { SetAbsent(layout.tail, b, insts); }
  }

  /** The layout after the first instruction of `b` has moved to the end of `into`. */
  function MoveFirst(layout: List<Blk>, into: Block, b: Block): List<Blk>
    requires InstsOf(layout, b).Cons?
  {
    var i := InstsOf(layout, b).head;
    AppendInst(RemoveInst(layout, i), i, into)
  }

  /** Moving the first instruction leaves the rest to move, and changes nothing about the outcome. */
  lemma {:induction false} JoinStep(layout: List<Blk>, into: Block, b: Block)
    requires DistinctBlocks(layout) && DistinctInsts(Positions(layout)) && HasBlock(layout, into) && into != b
    requires InstsOf(layout, b).Cons?
    ensures var l := MoveFirst(layout, into, b);
            && Joined(l, into, b) == Joined(layout, into, b)
            && InstsOf(l, b) == InstsOf(layout, b).tail
            && DistinctBlocks(l) && HasBlock(l, into) && DistinctInsts(Positions(l))
  {
    var i := InstsOf(layout, b).head;
    FirstIsUnique(layout, b);
    MoveFirstShape(layout, into, b);
    JoinSameRest(layout, into, b, Append(InstsOf(layout, into), Cons(i, Nil)));
    MoveFirstCount(layout, into, b);
    SameCountsDistinct(layout, MoveFirst(layout, into, b));
  }

  lemma {:induction false} MoveFirstShape(layout: List<Blk>, into: Block, b: Block)
    requires DistinctBlocks(layout) && HasBlock(layout, into) && into != b && InstsOf(layout, b).Cons?
    requires OnlyIn(layout, b, InstsOf(layout, b).head)
    requires Without(InstsOf(layout, b), InstsOf(layout, b).head) == InstsOf(layout, b).tail
    ensures var x := Append(InstsOf(layout, into), Cons(InstsOf(layout, b).head, Nil));
            var l := SetInsts(RemoveInst(layout, InstsOf(layout, b).head), into, x);
            && l == MoveFirst(layout, into, b) && InstsOf(l, into) == x && InstsOf(l, b) == InstsOf(layout, b).tail
            && DistinctBlocks(l) && HasBlock(l, into)
    ensures InstsOf(RemoveInst(layout, InstsOf(layout, b).head), into) == InstsOf(layout, into)
    ensures HasBlock(RemoveInst(layout, InstsOf(layout, b).head), into)
  {
    var i := InstsOf(layout, b).head;
    var r := RemoveInst(layout, i);
    RemoveInstBlocks(layout, i, b);
    RemoveInstBlocks(layout, i, into);
    OnlyInOther(layout, b, into, i);
    WithoutAbsent(InstsOf(layout, into), i);
    NoBlockHas(layout, into);
    NoBlockHas(r, into);
    var x := Append(InstsOf(layout, into), Cons(i, Nil));
    SetInstsBlocks(r, into, x, b);
    SetInstsBlocks(r, into, x, into);
    NoBlockHas(SetInsts(r, into, x), into);
  }

  lemma {:induction false} MoveFirstCount(layout: List<Blk>, into: Block, b: Block)
    requires DistinctBlocks(layout) && HasBlock(layout, into) && into != b && InstsOf(layout, b).Cons?
    requires OnlyIn(layout, b, InstsOf(layout, b).head)
    requires Without(InstsOf(layout, b), InstsOf(layout, b).head) == InstsOf(layout, b).tail
    ensures SameCounts(layout, MoveFirst(layout, into, b))
  {
    var i := InstsOf(layout, b).head;
    MoveFirstShape(layout, into, b);
    forall j
      ensures CountAll(layout, j) == CountAll(MoveFirst(layout, into, b), j)
    {
      RemoveInstCount(layout, b, i, j);
      SetInstsCount(RemoveInst(layout, i), into, Append(InstsOf(layout, into), Cons(i, Nil)), j);
      CountAppend(InstsOf(layout, into), Cons(i, Nil), j);
    }
  }

  /** What is left of `b` after its first instruction, when that occurs nowhere else. */
  lemma {:induction false} FirstIsUnique(layout: List<Blk>, b: Block)
    requires DistinctBlocks(layout) && DistinctInsts(Positions(layout)) && InstsOf(layout, b).Cons?
    ensures var insts := InstsOf(layout, b);
            OnlyIn(layout, b, insts.head) && !Has(insts.tail, insts.head) && Without(insts, insts.head) == insts.tail
  {
    UniqueIn(layout, b);
    WithoutAbsent(InstsOf(layout, b).tail, InstsOf(layout, b).head);
  }

  lemma {:induction false} UniqueIn(layout: List<Blk>, b: Block)
    requires DistinctBlocks(layout) && DistinctInsts(Positions(layout)) && InstsOf(layout, b).Cons?
    ensures OnlyIn(layout, b, InstsOf(layout, b).head) && !Has(InstsOf(layout, b).tail, InstsOf(layout, b).head)
    decreases layout
  {
    var c := layout.head;
    var here, later := BlockPositions(c.id, c.insts), Positions(layout.tail);
    AppendDistinct(here, later);
    if c.id == b {
      NoInstHas(b, c.insts.tail, c.insts.head);
      EarlierBlock(b, c.insts, later, c.insts.head);
      AbsentOnlyIn(layout.tail, b, c.insts.head);
    } else {
      UniqueIn(layout.tail, b);
      var i := InstsOf(layout.tail, b).head;
      if Has(c.insts, i) {
        EarlierBlock(c.id, c.insts, later, i);
        CountNoInst(layout.tail, i);
        InstsCount(layout.tail, b, i);
      }
    }
  }

  lemma {:induction false} InstsCount(layout: List<Blk>, b: Block, i: Inst)
    requires Has(InstsOf(layout, b), i)
    ensures CountAll(layout, i) > 0
  {
    if layout.head.id == b { CountHas(layout.head.insts, i); } else { InstsCount(layout.tail, b, i); }
  }

  lemma {:induction false} OnlyInOther(layout: List<Blk>, b: Block, c: Block, i: Inst)
    requires OnlyIn(layout, b, i) && b != c
    ensures !Has(InstsOf(layout, c), i)
  {
    if layout.Cons? && layout.head.id != c { OnlyInOther(layout.tail, b, c, i); }
  }

  lemma {:induction false} RemoveInstCount(layout: List<Blk>, b: Block, i: Inst, j: Inst)
    requires OnlyIn(layout, b, i) && DistinctBlocks(layout) && InstsOf(layout, b).Cons?
    requires InstsOf(layout, b).head == i && Without(InstsOf(layout, b), i) == InstsOf(layout, b).tail
    ensures CountAll(RemoveInst(layout, i), j) + (if i == j then 1 else 0) == CountAll(layout, j)
    decreases layout
  {
    if layout.head.id == b {
      RemoveAbsentInst(layout.tail, b, i);
    } else {
      WithoutAbsent(layout.head.insts, i);
      RemoveInstCount(layout.tail, b, i, j);
    }
  }

  lemma {:induction false} RemoveAbsentInst(layout: List<Blk>, b: Block, i: Inst)
    requires OnlyIn(layout, b, i) && NoBlock(layout, b)
    ensures RemoveInst(layout, i) == layout
  {
    if layout.Cons? {
      WithoutAbsent(layout.head.insts, i);
      RemoveAbsentInst(layout.tail, b, i);
    }
  }

  lemma {:induction false} JoinSameRest(layout: List<Blk>, into: Block, b: Block, x: List<Inst>)
    requires DistinctBlocks(layout) && HasBlock(layout, into) && into != b && InstsOf(layout, b).Cons?
    requires OnlyIn(layout, b, InstsOf(layout, b).head)
    requires x == Append(InstsOf(layout, into), Cons(InstsOf(layout, b).head, Nil))
    requires InstsOf(SetInsts(RemoveInst(layout, InstsOf(layout, b).head), into, x), into) == x
    requires InstsOf(SetInsts(RemoveInst(layout, InstsOf(layout, b).head), into, x), b) == InstsOf(layout, b).tail
    ensures Joined(SetInsts(RemoveInst(layout, InstsOf(layout, b).head), into, x), into, b) == Joined(layout, into, b)
  {
    var i, more := InstsOf(layout, b).head, InstsOf(layout, b).tail;
    SetAndRemove(RemoveInst(layout, i), b, into, x);
    RemoveEmptied(layout, b, i);
    SetTwice(RemoveBlock(layout, b), into, x, Append(x, more));
    AppendAssoc(InstsOf(layout, into), Cons(i, Nil), more);
  }

  // ----- When the loop that moves instructions ends -----

  /** `n` turns of the loop that moves the first instruction of `b` to the end of `into`. */
  function Moves(layout: List<Blk>, into: Block, b: Block, n: nat): List<Blk>
    decreases n
  {
    if n == 0 || InstsOf(layout, b).Nil? then layout else Moves(MoveFirst(layout, into, b), into, b, n - 1)
  }

  lemma {:induction false} MovesEnd(layout: List<Blk>, into: Block, b: Block)
    requires DistinctBlocks(layout) && DistinctInsts(Positions(layout)) && HasBlock(layout, into) && into != b
    ensures InstsOf(Moves(layout, into, b, Length(InstsOf(layout, b))), b).Nil?
    decreases Length(InstsOf(layout, b))
  {
    if InstsOf(layout, b).Cons? {
      JoinStep(layout, into, b);
      MovesEnd(MoveFirst(layout, into, b), into, b);
    }
  }

  /** A block whose instructions are moved to itself never gets empty. */
  lemma {:induction false} MovesGoOn(layout: List<Blk>, b: Block, n: nat)
    requires HasBlock(layout, b) && InstsOf(layout, b).Cons?
    ensures InstsOf(Moves(layout, b, b, n), b).Cons?
    decreases n
  {
    if n != 0 {
      var i := InstsOf(layout, b).head;
      var r := RemoveInst(layout, i);
      RemoveInstBlocks(layout, i, b);
      NoBlockHas(layout, b);
      NoBlockHas(r, b);
      SetInstsBlocks(r, b, Append(InstsOf(r, b), Cons(i, Nil)), b);
      NoBlockHas(MoveFirst(layout, b, b), b);
      MovesGoOn(MoveFirst(layout, b, b), b, n - 1);
    }
  }
}
