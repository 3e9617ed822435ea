/** A function on which a merge is possible, and what it does to the instruction that ends the first block. */
module MergeExample {
  import opened Lists
  import opened Wrappers
  import opened Layouts
  import opened Ir
  import opened Mutations
  import opened Semantics
  import opened Merging
  import opened Verifier

  const CODE0 := Cons(10, Cons(11, Nil))
  const CODE1 := Cons(12, Nil)
  const MAKE := InstData(Iconst, Nil, Nil, Cons(100, Nil))
  const TO_SECOND := Dest(1, Cons(100, Nil))
  const USE := InstData(RETURN, Cons(101, Nil), Nil, Nil)

  /** An instruction that leads only to the second block; other than a jump, it looks at a value. */
  function Ending(op: Op): InstData
  {
    InstData(op, if op.Jump? then Nil else Cons(100, Nil), Cons(TO_SECOND, Nil), Nil)
  }

  /** A constant is passed to the parameter of the second block, and used there. */
  function TwoBlocks(op: Op): Func
  {
    Func(Cons(Blk(0, CODE0), Cons(Blk(1, CODE1), Nil)),
         map[10 := MAKE, 11 := Ending(op), 12 := USE],
         map[1 := Cons(101, Nil)], map[], map[], map[], [], [], [], [], None, Nil, {}, 13, 102)
  }

  lemma {:induction false} One(f: Func, v: Value, w: Value, d: Dest, b: Block)
    ensures In(Cons(v, Nil), w) <==> v == w
    ensures UsedIn(f, Cons(v, Nil), w) <==> Resolve(f, v) == w
    ensures UsedInDests(f, Cons(d, Nil), w) <==> UsedIn(f, d.args, w)
    ensures Leads(Cons(d, Nil), b) <==> d.block == b
  {
  }

  lemma {:induction false} Definitions(op: Op, n: Node, v: Value)
    requires Defines(TwoBlocks(op), n, v)
    ensures (n == At(10) && v == 100) || (n == BlockStart(1) && v == 101)
  {
    One(TwoBlocks(op), 100, v, Dest(1, Nil), 1);
    One(TwoBlocks(op), 101, v, Dest(1, Nil), 1);
  }

  lemma {:induction false} UsesOf(op: Op, i: Inst, v: Value)
    requires Uses(TwoBlocks(op), i, v)
    ensures (i == 11 && v == 100) || (i == 12 && v == 101)
  {
    One(TwoBlocks(op), 100, v, TO_SECOND, 1);
    One(TwoBlocks(op), 101, v, TO_SECOND, 1);
  }

  lemma {:induction false} Codes(op: Op)
    ensures CodeAt(TwoBlocks(op), BlockStart(0)) == CODE0 && CodeAt(TwoBlocks(op), At(10)) == Cons(11, Nil)
    ensures CodeAt(TwoBlocks(op), At(11)) == Nil && CodeAt(TwoBlocks(op), BlockStart(1)) == CODE1
    ensures CodeAt(TwoBlocks(op), At(12)) == Nil
  {
  }

  lemma {:induction false} Edges(op: Op, from: Node, to: Node)
    requires Edge(TwoBlocks(op), from, to)
    ensures from == BlockStart(0) ==> to == At(10)
    ensures from == At(10) ==> to == At(11)
    ensures from == At(11) ==> to == BlockStart(1)
    ensures from == BlockStart(1) ==> to == At(12)
    ensures from != At(12)
  {
    Codes(op);
    if to.BlockStart? { One(TwoBlocks(op), 0, 0, TO_SECOND, to.block); }
  }

  const PATH := Cons(At(12), Cons(BlockStart(1), Cons(At(11), Cons(At(10), Cons(BlockStart(0), Nil)))))

  lemma {:induction false} Paths(op: Op, path: List<Node>)
    requires IsPath(TwoBlocks(op), path)
    ensures || path == PATH || path == PATH.tail || path == PATH.tail.tail
            || path == PATH.tail.tail.tail || path == PATH.tail.tail.tail.tail
    decreases path
  {
    if path.tail.Cons? {
      Paths(op, path.tail);
      Edges(op, path.tail.head, path.head);
    }
  }

  lemma {:induction false} OneDefinition(op: Op)
    ensures Ssa(TwoBlocks(op))
  {
    forall path, v: Value | IsPath(TwoBlocks(op), path) && path.head.At? && Uses(TwoBlocks(op), path.head.inst, v)
      ensures DefinedOn(TwoBlocks(op), path.tail, v)
    {
      Paths(op, path);
      UsesOf(op, path.head.inst, v);
      if v == 100 {
        assert Defines(TwoBlocks(op), path.tail.head, v);
      } else {
        assert Defines(TwoBlocks(op), path.tail.head, v);
      }
    }
    forall m, n, v: Value | Defines(TwoBlocks(op), m, v) && Defines(TwoBlocks(op), n, v)
      ensures m == n
    {
      Definitions(op, m, v);
      Definitions(op, n, v);
    }
  }

  lemma {:induction false} SoundLayout(op: Op)
    ensures Sound(TwoBlocks(op))
  {
    assert BlockPositions(0, CODE0) == Cons(Pos(0, 10), Cons(Pos(0, 11), Nil));
    assert BlockPositions(1, CODE1) == Cons(Pos(1, 12), Nil);
    assert Positions(TwoBlocks(op).layout) == Cons(Pos(0, 10), Cons(Pos(0, 11), Cons(Pos(1, 12), Nil)));
  }

  lemma {:induction false} JumpLast(op: Op, b: Block, i: Inst)
    requires Has(InstsOf(TwoBlocks(op).layout, b), i) && Data(TwoBlocks(op), i).dests.Cons?
    ensures Last(InstsOf(TwoBlocks(op).layout, b)) == Some(i)
  {
    assert i == 11;
    assert InstsOf(Nil, b) == Nil && InstsOf(Cons(Blk(1, CODE1), Nil), b) == if b == 1 then CODE1 else Nil;
    assert InstsOf(TwoBlocks(op).layout, b) == if b == 0 then CODE0 else if b == 1 then CODE1 else Nil;
    assert !Has(CODE1, 11) && !Has(Nil, 11) && Last(CODE0) == Some(11);
  }

  lemma {:induction false} MergeIsPossible(op: Op)
    ensures CanMerge(Merge(TwoBlocks(op), Pos(0, 11), 1))
  {
    SoundLayout(op);
    OneDefinition(op);
    assert Last(CODE0) == Some(11) && Last(CODE1) == Some(12);
    One(TwoBlocks(op), 0, 0, TO_SECOND, 1);
    assert Leads(Data(TwoBlocks(op), 11).dests, 1) && !Leads(Data(TwoBlocks(op), 12).dests, 1);
    assert PredsIn(TwoBlocks(op), Cons(Blk(1, CODE1), Nil), 1) == Nil;
    assert Preds(TwoBlocks(op), 1) == Cons(Pos(0, 11), Nil);
    forall b: Block, i: Inst | Has(InstsOf(TwoBlocks(op).layout, b), i) && Data(TwoBlocks(op), i).dests.Cons?
      ensures Last(InstsOf(TwoBlocks(op).layout, b)) == Some(i)
    {
      JumpLast(op, b, i);
    }
    forall b: Block ensures Distinct(Params(TwoBlocks(op), b)) { }
  }

  /** The verifier has nothing against either of these. */
  lemma {:induction false} TwoBlocksAccepted(op: Op)
    requires op.Jump? || op.BrTable?
    ensures Accepted(TwoBlocks(op))
  {
    var f := TwoBlocks(op);
    SoundLayout(op);
    assert Ended(f, CODE0.tail) && Ended(f, CODE1);
    assert AllEnded(f, f.layout.tail);
    assert HasBlock(f.layout.tail, 1);
    assert Length(TO_SECOND.args) == 1 && Length(Params(f, 1)) == 1;
    assert DestsOk(f, Cons(TO_SECOND, Nil));
  }

  /**
   A `br_table` with only its default destination is merged like a jump, although it happens before
   the merge and not after it; a jump in its place does no harm.
   */
  lemma {:induction false} SoleTableIsLost()
    ensures var m := Merge(TwoBlocks(BrTable), Pos(0, 11), 1); CanMerge(m) && !Preserved(m)
    ensures var m := Merge(TwoBlocks(Op.Jump), Pos(0, 11), 1); CanMerge(m) && Preserved(m)
  {
    MergeIsPossible(BrTable);
    MergeIsPossible(Op.Jump);
    Codes(BrTable);
    var path := PATH.tail.tail;
    assert IsPath(TwoBlocks(BrTable), path) && path.head == At(11);
    PreservedIff(Merge(TwoBlocks(BrTable), Pos(0, 11), 1));
    PreservedIff(Merge(TwoBlocks(Op.Jump), Pos(0, 11), 1));
  }
}
