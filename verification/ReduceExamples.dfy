/** Functions on which the reducer does what one would not expect. */
module ReduceExamples {
  import opened Lists
  import opened Wrappers
  import opened Layouts
  import opened Ir
  import opened Mutations
  import opened Verifier
  import Entities
  import Sweeps

  const NOP := InstData(Other(1), Nil, Nil, Nil)
  const TRAP := InstData(Trap, Nil, Nil, Nil)

  // ----- References that are left behind -----

  const CALLS := Cons(10, Cons(11, Nil))
  const CALL := InstData(Call(1), Nil, Nil, Nil)
  const TRY_CALL := InstData(TryCall(1, 0), Nil, Cons(Dest(1, Nil), Nil), Nil)

  /** Of two external functions only the second is used, by a call and by a `try_call`. */
  const TWO_FUNCS: Func := Func(
    Cons(Blk(0, CALLS), Cons(Blk(1, Cons(12, Nil)), Nil)), map[10 := CALL, 11 := TRY_CALL, 12 := TRAP],
    map[], map[], map[], map[], [ExtFunc(20, 0), ExtFunc(21, 0)], [30], [], [], None, Nil, {}, 13, 100)

  lemma {:induction false} TwoFuncsPositions()
    ensures Positions(TWO_FUNCS.layout) == Cons(Pos(0, 10), Cons(Pos(0, 11), Cons(Pos(1, 12), Nil)))
  {
    assert BlockPositions(0, CALLS) == Cons(Pos(0, 10), Cons(Pos(0, 11), Nil));
    assert BlockPositions(1, Cons(12, Nil)) == Cons(Pos(1, 12), Nil);
    assert Positions(Cons(Blk(1, Cons(12, Nil)), Nil)) == Cons(Pos(1, 12), Nil);
  }

  lemma {:induction false} TwoFuncsAccepted()
    ensures Accepted(TWO_FUNCS)
  {
    TwoFuncsPositions();
    assert AllEnded(TWO_FUNCS, TWO_FUNCS.layout.tail);
    assert HasBlock(TWO_FUNCS.layout.tail, 1);
  }

  lemma {:induction false} CallIsUser()
    ensures Entities.Users(TWO_FUNCS, Entities.Funcs) == Cons(Entities.InstUser(10), Nil)
  {
    TwoFuncsPositions();
    var l := Cons(Pos(1, 12), Nil);
    assert Entities.InstUsers(TWO_FUNCS, Entities.Funcs, l) == Nil;
    assert Entities.InstUsers(TWO_FUNCS, Entities.Funcs, Cons(Pos(0, 11), l)) == Nil;
  }

  lemma {:induction false} SecondIsKept()
    ensures var users := Cons(Entities.InstUser(10), Nil);
            && Entities.AllUsers(TWO_FUNCS, Entities.Funcs, users)
            && Entities.Kept(TWO_FUNCS, Entities.Funcs, users, 1) == []
            && Entities.Kept(TWO_FUNCS, Entities.Funcs, users, 2) == [1]
  {
    var users := Cons(Entities.InstUser(10), Nil);
    assert Entities.IsUser(TWO_FUNCS, Entities.Funcs, users.head);
    assert Entities.Ref(TWO_FUNCS, Entities.Funcs, users.head) == 1;
    assert Entities.AllUsers(TWO_FUNCS, Entities.Funcs, users.tail);
    assert !Entities.Used(TWO_FUNCS, Entities.Funcs, users, 0) && Entities.Used(TWO_FUNCS, Entities.Funcs, users, 1);
    assert Entities.Kept(TWO_FUNCS, Entities.Funcs, users, 0) == [];
  }

  /** The table shrinks to one entry, the call follows it, and the `try_call` refers to nothing. */
  lemma {:induction false} TryCallDangles(g: Func)
    requires Entities.Compacted(TWO_FUNCS, g, Entities.Funcs)
    requires Entities.SameButRefs(TWO_FUNCS, Entities.OldTable(TWO_FUNCS, g, Entities.Funcs), Entities.Funcs)
    ensures Accepted(TWO_FUNCS) && |g.extFuncs| == 1 && g.extFuncs[0] == ExtFunc(21, 0)
    ensures 10 in g.insts && g.insts[10].op == Call(0)
    ensures 11 in g.insts && g.insts[11].op == TryCall(1, 0)
  {
    TwoFuncsAccepted();
    CallIsUser();
    SecondIsKept();
    assert Entities.Among(Entities.Users(TWO_FUNCS, Entities.Funcs), Entities.InstUser(10));
    assert Entities.EntryAt(g, Entities.Funcs, 0) == Entities.EntryAt(TWO_FUNCS, Entities.Funcs, 1);
    Entities.Unrecognised(TWO_FUNCS, g, Entities.Funcs, 11);
  }

  /** A global value that only the stack limit refers to. */
  const LIMITED: Func := Func(
    Cons(Blk(0, Cons(10, Nil)), Nil), map[10 := TRAP],
    map[], map[], map[], map[], [], [], [], [VMContext], Some(0), Nil, {}, 11, 100)

  /** The table is emptied, and the stack limit refers to nothing. */
  lemma {:induction false} StackLimitDangles(g: Func)
    requires Entities.Compacted(LIMITED, g, Entities.Globals)
    requires Entities.SameButRefs(LIMITED, Entities.OldTable(LIMITED, g, Entities.Globals), Entities.Globals)
    ensures Accepted(LIMITED) && g.globals == [] && g.stackLimit == Some(0)
  {
    assert BlockPositions(0, Cons(10, Nil)) == Cons(Pos(0, 10), Nil);
    assert Positions(LIMITED.layout) == Cons(Pos(0, 10), Nil);
    assert Entities.InstUsers(LIMITED, Entities.Globals, Cons(Pos(0, 10), Nil)) == Nil;
    assert Entities.Users(LIMITED, Entities.Globals) == Nil;
    assert Entities.Kept(LIMITED, Entities.Globals, Nil, 0) == [];
    assert Entities.Kept(LIMITED, Entities.Globals, Nil, 1) == [];
  }

  // ----- A block that is its own predecessor -----

  const LOOP := Cons(11, Cons(12, Nil))

  /** The second block is unreachable, and jumps to itself. */
  const SELF_LOOP: Func := Func(
    Cons(Blk(0, Cons(10, Nil)), Cons(Blk(1, LOOP), Nil)),
    map[10 := TRAP, 11 := NOP, 12 := InstData(Jump, Nil, Cons(Dest(1, Nil), Nil), Nil)],
    map[], map[], map[], map[], [], [], [], [], None, Nil, {}, 13, 100)

  lemma {:induction false} SelfLoopAccepted()
    ensures Accepted(SELF_LOOP)
  {
    assert BlockPositions(0, Cons(10, Nil)) == Cons(Pos(0, 10), Nil);
    assert BlockPositions(1, LOOP) == Cons(Pos(1, 11), Cons(Pos(1, 12), Nil));
    assert Positions(SELF_LOOP.layout) == Cons(Pos(0, 10), Cons(Pos(1, 11), Cons(Pos(1, 12), Nil)));
    assert Ended(SELF_LOOP, LOOP.tail) && Ended(SELF_LOOP, LOOP) && Ended(SELF_LOOP, Cons(10, Nil));
    assert AllEnded(SELF_LOOP, Nil);
    assert AllEnded(SELF_LOOP, SELF_LOOP.layout.tail);
    assert HasBlock(SELF_LOOP.layout.tail, 1);
  }

  /** The block would be merged into itself, and the loop that moves its instructions never ends. */
  lemma {:induction false} SelfMergeNeverEnds(n: nat)
    ensures Accepted(SELF_LOOP) && Sweeps.Mergeable(SELF_LOOP, 1) && Preds(SELF_LOOP, 1) == Cons(Pos(1, 12), Nil)
    ensures InstsOf(Moves(RemoveInst(SELF_LOOP.layout, 12), 1, 1, n), 1).Cons?
  {
    SelfLoopAccepted();
    assert Last(LOOP) == Some(12) && Last(Cons(10, Nil)) == Some(10);
    assert Leads(Cons(Dest(1, Nil), Nil), 1);
    assert PredsIn(SELF_LOOP, Cons(Blk(1, LOOP), Nil), 1) == Cons(Pos(1, 12), Nil);
    assert InstsOf(SELF_LOOP.layout, 1) == LOOP;
    MoveLoopEnds(SELF_LOOP, Pos(1, 12), 1);
  }
}
