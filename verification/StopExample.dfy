/** A pass that shrinks nothing, after which another one would. */
module StopExample {
  import opened Lists
  import opened Wrappers
  import opened Layouts
  import opened Ir
  import opened Mutations
  import opened Sweeps
  import opened Verifier
  import Entities
  import Minimality
  import Reducer

  function Three(a: Inst, b: Inst, c: Inst): List<Inst> { Cons(a, Cons(b, Cons(c, Nil))) }

  function Body(insts: List<Inst>): List<Blk> { Cons(Blk(0, insts), Nil) }

  function Defines(v: Value): InstData { InstData(Other(1), Nil, Nil, Cons(v, Nil)) }

  /** Two instructions with a result each, and a trap. */
  const TWO_OPS: Func := Func(
    Body(Three(10, 11, 12)), map[10 := Defines(0), 11 := Defines(1), 12 := InstData(Trap, Nil, Nil, Nil)],
    map[], map[0 := Integer(32), 1 := Integer(32)], map[0 := 10, 1 := 11], map[], [], [], [], [], None, Nil, {},
    13, 100)

  const ONE_CONST := ByConsts(TWO_OPS, 10)
  const TWO_CONSTS := ByConsts(ONE_CONST, 11)

  /** Compiling panics on three instructions, and on a constant at the start; what the verifier rejects does not. */
  predicate Panics(f: Func)
  {
    && AllEnded(f, f.layout) && f.layout.Cons?
    && (Length(f.layout.head.insts) == 3 || Data(f, f.layout.head.insts.head).op.Iconst?)
  }

  function Panicking(): Oracle { (f: Func) => Panics(f) }

  // ----- What the functions hold -----

  lemma {:induction false} ThreePositions(a: Inst, b: Inst, c: Inst)
    ensures Positions(Body(Three(a, b, c))) == Cons(Pos(0, a), Cons(Pos(0, b), Cons(Pos(0, c), Nil)))
    ensures InstTargets(Positions(Body(Three(a, b, c)))) ==
            Cons(InstAt(Pos(0, a), Pos(0, b)), Cons(InstAt(Pos(0, b), Pos(0, c)), Nil))
  {
    assert BlockPositions(0, Cons(c, Nil)) == Cons(Pos(0, c), Nil);
    assert BlockPositions(0, Cons(b, Cons(c, Nil))) == Cons(Pos(0, b), Cons(Pos(0, c), Nil));
    AppendNil(BlockPositions(0, Three(a, b, c)));
    assert Positions(Body(Three(a, b, c))) == Append(BlockPositions(0, Three(a, b, c)), Nil);
    assert InstTargets(Cons(Pos(0, b), Cons(Pos(0, c), Nil))) == Cons(InstAt(Pos(0, b), Pos(0, c)), Nil);
  }

  /** Replacing an instruction of such a body by a constant. */
  lemma {:induction false} ConstFor(f: Func, a: Inst, b: Inst, c: Inst, i: Inst, v: Value)
    requires f.layout == Body(Three(a, b, c)) && a != b && b != c && a != c
    requires (i == a || i == b) && f.freshInst != a && f.freshInst != b && f.freshInst != c
    requires Data(f, i) == Defines(v) && TypeOf(f, v) == Integer(32)
    ensures var g, n := ByConsts(f, i), f.freshInst;
            && g.layout == Body(if i == a then Three(n, b, c) else Three(a, n, c))
            && g == f.(layout := g.layout, insts := g.insts, defs := g.defs, freshInst := n + 1)
            && Data(g, n) == InstData(Iconst, Nil, Nil, Cons(v, Nil))
            && forall j: Inst :: j != n && j != i ==> Data(g, j) == Data(f, j)
  {
    var n := f.freshInst;
    var d := Detached(f, i);
    var data := InstData(Iconst, Nil, Nil, Cons(v, Nil));
    var e := Inserted(d, i, data);
    assert ConstsBefore(d, i, Cons(v, Nil)) == e by {
      assert ConstsBefore(WithConst(d, i, v), i, Nil) == WithConst(d, i, v);
    }
    ReplacedIn(a, b, c, i, n);
    assert e.layout == Body(Before(Three(a, b, c), n, i));
    assert RemoveInst(e.layout, i) == Body(Without(Before(Three(a, b, c), n, i), i));
  }

  lemma {:induction false} ReplacedIn(a: Inst, b: Inst, c: Inst, i: Inst, n: Inst)
    requires a != b && b != c && a != c && (i == a || i == b) && n != a && n != b && n != c
    ensures Without(Before(Three(a, b, c), n, i), i) == if i == a then Three(n, b, c) else Three(a, n, c)
    ensures Has(Three(a, b, c), i)
  {
    var end := Cons(c, Nil);
    assert Without(end, i) == end;
    if i == b {
      assert Before(Cons(b, end), n, b) == Cons(n, Cons(b, end));
      assert Without(Cons(n, Cons(b, end)), b) == Cons(n, end);
    } else {
      assert Without(Cons(b, end), a) == Cons(b, end);
      assert Without(Cons(a, Cons(b, end)), a) == Cons(b, end);
    }
  }

  /** Dropping the first or the second instruction of such a body. */
  lemma {:induction false} DroppedFrom(f: Func, a: Inst, b: Inst, c: Inst)
    requires f.layout == Body(Three(a, b, c)) && a != b && b != c && a != c
    ensures Dropped(f, Pos(0, a)).layout == Body(Cons(b, Cons(c, Nil)))
    ensures Dropped(f, Pos(0, b)).layout == Body(Cons(a, Cons(c, Nil)))
  {
    var end := Cons(c, Nil);
    assert Without(end, a) == end && Without(end, b) == end;
    assert Without(Cons(b, end), a) == Cons(b, end) && Without(Cons(b, end), b) == end;
    assert Without(Three(a, b, c), a) == Cons(b, end) && Without(Three(a, b, c), b) == Cons(a, end);
    assert RemoveInst(f.layout, a) == Body(Cons(b, end)) && RemoveInst(f.layout, b) == Body(Cons(a, end));
  }

  /** What panics of such a body, and of what is left of it. */
  lemma {:induction false} PanicsThree(f: Func, a: Inst, b: Inst, c: Inst)
    requires f.layout == Body(Three(a, b, c)) && a in f.insts && b in f.insts && c in f.insts && Data(f, c).op == Trap
    ensures Panics(f) <==> !IsTerminator(Data(f, a).op) && !IsTerminator(Data(f, b).op)
  {
    assert Ended(f, Cons(c, Nil));
    assert Ended(f, Cons(b, Cons(c, Nil))) <==> !IsTerminator(Data(f, b).op);
    assert AllEnded(f, Nil);
    assert Length(Cons(c, Nil)) == 1;
    assert Length(Cons(b, Cons(c, Nil))) == 2;
  }

  lemma {:induction false} PanicsTwo(f: Func, b: Inst, c: Inst)
    requires f.layout == Body(Cons(b, Cons(c, Nil))) && b in f.insts && c in f.insts && Data(f, c).op == Trap
    requires !IsTerminator(Data(f, b).op)
    ensures Panics(f) <==> Data(f, b).op.Iconst?
  {
    assert Ended(f, Cons(c, Nil));
    assert AllEnded(f, Nil);
    assert Length(Cons(c, Nil)) == 1;
  }

  predicate Holds(f: Func, a: Inst, b: Inst, c: Inst)
  {
    && f.layout == Body(Three(a, b, c)) && a != b && b != c && a != c
    && a in f.insts && b in f.insts && c in f.insts && Data(f, c).op == Trap
    && !IsTerminator(Data(f, a).op) && !IsTerminator(Data(f, b).op)
    && f.params == map[] && f.extFuncs == [] && f.signatures == [] && f.slots == [] && f.globals == []
  }

  lemma {:induction false} ConstHolds(f: Func, a: Inst, b: Inst, c: Inst, i: Inst, v: Value)
    requires Holds(f, a, b, c) && Data(f, i) == Defines(v) && TypeOf(f, v) == Integer(32) && (i == a || i == b)
    requires f.freshInst != a && f.freshInst != b && f.freshInst != c
    ensures var g, n := ByConsts(f, i), f.freshInst;
            && (if i == a then Holds(g, n, b, c) else Holds(g, a, n, c)) && g.freshInst == n + 1 && g.types == f.types
            && Data(g, n).op.Iconst? && (i == b ==> Data(g, a) == Data(f, a)) && (i == a ==> Data(g, b) == Data(f, b))
            && !ConstSkips(f, Data(f, i)) && Data(f, i).results.tail.Nil?
  {
    ConstFor(f, a, b, c, i, v);
    assert f.insts.Keys <= ByConsts(f, i).insts.Keys by {
      assert ConstsBefore(WithConst(Detached(f, i), i, v), i, Nil) == WithConst(Detached(f, i), i, v);
    }
    assert f.freshInst in ByConsts(f, i).insts;
  }

  lemma {:induction false} ConstsHold()
    ensures Holds(TWO_OPS, 10, 11, 12) && Holds(ONE_CONST, 13, 11, 12) && Holds(TWO_CONSTS, 13, 14, 12)
    ensures Data(TWO_OPS, 10) == Defines(0) && Data(TWO_OPS, 11) == Defines(1) && Data(ONE_CONST, 11) == Defines(1)
    ensures Data(TWO_CONSTS, 13).op.Iconst? && Data(TWO_CONSTS, 14).op.Iconst?
    ensures !ConstSkips(TWO_OPS, Defines(0)) && !ConstSkips(ONE_CONST, Defines(1))
  {
    ConstHolds(TWO_OPS, 10, 11, 12, 10, 0);
    ConstHolds(ONE_CONST, 13, 11, 12, 11, 1);
  }

  // ----- The phases -----

  /** Two targets, of which neither or both are kept. */
  lemma {:induction false} SweptTwo(phase: nat, f: Func, g: Func, h: Func, a: Inst, b: Inst, c: Inst)
    requires phase <= MOVE_INST && f.layout == Body(Three(a, b, c))
    requires Keep(Held(f, false), Tried(phase, f, Pos(0, a), Pos(0, b)), Panicking()) == Held(g, false)
    requires Keep(Held(g, false), Tried(phase, g, Pos(0, b), Pos(0, c)), Panicking()) == Held(h, false)
    ensures Sweep(phase, f, Panicking()) == Held(h, false)
  {
    ThreePositions(a, b, c);
    var crash, l := Panicking(), Targets(phase, f);
    assert Swept(phase, Held(h, false), Nil, crash, ITERATIONS - 2) == Held(h, false);
    assert Swept(phase, Held(g, false), l.tail, crash, ITERATIONS - 1) == Held(h, false);
  }

  lemma {:induction false} NoneDropped(f: Func, a: Inst, b: Inst, c: Inst)
    requires Holds(f, a, b, c) && !Data(f, a).op.Iconst? && !Data(f, b).op.Iconst?
    ensures Sweep(REMOVE_INST, f, Panicking()) == Held(f, false)
  {
    DroppedFrom(f, a, b, c);
    PanicsTwo(Dropped(f, Pos(0, a)), b, c);
    PanicsTwo(Dropped(f, Pos(0, b)), a, c);
    SweptTwo(REMOVE_INST, f, f, f, a, b, c);
  }

  lemma {:induction false} BothReplaced()
    ensures Sweep(REPLACE_CONST, TWO_OPS, Panicking()) == Held(TWO_CONSTS, false)
  {
    ConstsHold();
    PanicsThree(ONE_CONST, 13, 11, 12);
    PanicsThree(TWO_CONSTS, 13, 14, 12);
    SweptTwo(REPLACE_CONST, TWO_OPS, ONE_CONST, TWO_CONSTS, 10, 11, 12);
  }

  lemma {:induction false} NoTrap(f: Func, a: Inst, b: Inst, c: Inst)
    requires Holds(f, a, b, c)
    ensures Sweep(REPLACE_TRAP, f, Panicking()) == Held(f, false)
  {
    PanicsThree(Trapping(f, a), a, b, c);
    PanicsThree(Trapping(f, b), a, b, c);
    SweptTwo(REPLACE_TRAP, f, f, f, a, b, c);
  }

  lemma {:induction false} NothingElse(f: Func, a: Inst, b: Inst, c: Inst)
    requires Holds(f, a, b, c)
    ensures Sweep(MOVE_INST, f, Panicking()) == Sweep(REMOVE_BLOCK, f, Panicking()) == Held(f, false)
    ensures Sweep(REPLACE_PARAM, f, Panicking()) == Held(f, false)
    ensures PhaseOutcome(MERGE_BLOCKS, f, f, false, false, Panicking())
  {
    SweptTwo(MOVE_INST, f, f, f, a, b, c);
    assert ParamTargets(f, Nil) == Nil && ParamsOf(0, 0) == Nil;
  }

  lemma {:induction false} EmptyTable(f: Func, kind: Entities.Kind)
    requires Entities.Size(f, kind) == 0
    ensures Makes(Compact(kind), f, f)
  {
    Entities.UsersAre(f, kind);
    assert Entities.OldTable(f, f, kind) == f;
  }

  lemma {:induction false} NoTables(f: Func, crash: Oracle, k: nat)
    requires f.extFuncs == [] && f.signatures == [] && f.slots == [] && f.globals == []
    ensures Compactions(f, k, f, crash)
    decreases 4 - k
  {
    if !AllCompacted(f, k) {
      EmptyTable(f, KindOf(k));
      NoTables(f, crash, k + 1);
    }
  }

  /** What a pass holds before phase `p`, when only the replacement by constants changes it. */
  function HeldAt(f: Func, g: Func, p: nat): Func { if p <= REPLACE_CONST then f else g }

  ghost predicate LeadsOn(f: Func, g: Func, p: nat)
    requires f.layout.Cons? && g.layout.Cons?
  {
    PhaseOutcome(p, HeldAt(f, g, p), HeldAt(f, g, p + 1), false, false, Panicking())
  }

  lemma {:induction false} PhasesLead(f: Func, g: Func)
    requires f.layout.Cons? && g.layout.Cons? && forall p: nat :: p < 8 ==> LeadsOn(f, g, p)
    ensures Reducer.PassOf(f, g, false, false, Panicking())
  {
    var starts, shrunk := seq(9, (p: nat) => HeldAt(f, g, p)), seq(8, (p: nat) => false);
    forall p: nat | p < |shrunk|
      ensures starts[p].layout.Cons?
      ensures PhaseOutcome(p, starts[p], starts[p + 1], shrunk[p], false && p == MERGE_BLOCKS, Panicking())
    {
      assert LeadsOn(f, g, p);
    }
    assert Reducer.Passed(starts, shrunk, false, Panicking());
  }

  lemma {:induction false} PhaseLeads(f: Func, g: Func, p: nat)
    requires Holds(f, 10, 11, 12) && Holds(g, 13, 14, 12) && p < 8
    requires !Data(f, 10).op.Iconst? && !Data(f, 11).op.Iconst?
    requires Sweep(REPLACE_CONST, f, Panicking()) == Held(g, false)
    ensures LeadsOn(f, g, p)
  {
    if p == REMOVE_INST {
      NoneDropped(f, 10, 11, 12);
    } else if p == REPLACE_TRAP {
      NoTrap(g, 13, 14, 12);
    } else if p == REMOVE_ENTITIES {
      NoTables(g, Panicking(), 0);
    } else if p > REPLACE_TRAP {
      NothingElse(g, 13, 14, 12);
    }
  }

  /**
   The first pass keeps two constants, and calls for no other; yet another one would remove the first
   of them, as that leaves a constant at the start.
   */
  lemma {:induction false} StopsTooEarly()
    ensures Panics(TWO_OPS) && Reducer.PassOf(TWO_OPS, TWO_CONSTS, false, false, Panicking())
    ensures Sweep(REMOVE_INST, TWO_CONSTS, Panicking()).shrunk
  {
    ConstsHold();
    BothReplaced();
    PanicsThree(TWO_OPS, 10, 11, 12);
    forall p: nat | p < 8
      ensures LeadsOn(TWO_OPS, TWO_CONSTS, p)
    {
      PhaseLeads(TWO_OPS, TWO_CONSTS, p);
    }
    PhasesLead(TWO_OPS, TWO_CONSTS);
    FirstGoes(TWO_CONSTS, 13, 14, 12);
  }

  lemma {:induction false} FirstGoes(f: Func, a: Inst, b: Inst, c: Inst)
    requires Holds(f, a, b, c) && Data(f, b).op.Iconst?
    ensures Sweep(REMOVE_INST, f, Panicking()).shrunk
  {
    ThreePositions(a, b, c);
    DroppedFrom(f, a, b, c);
    PanicsTwo(Dropped(f, Pos(0, a)), b, c);
    Minimality.SweepShrinks(REMOVE_INST, f, Panicking());
    assert Nth(Targets(REMOVE_INST, f), 0) == InstAt(Pos(0, a), Pos(0, b));
  }
}
