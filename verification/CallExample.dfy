/** A run that meets the premises of the theorems about calls. */
module CallExample {
  import opened Wrappers
  import opened Words
  import opened Memory
  import opened Ops
  import opened Machine
  import opened SavedFrames
  import opened ShadowStack

  predicate Fetches(env: Env, a: u64, op: Op, next: u64) { env.fetch(a) == Some((op, next)) }

  // ----- The steps of an outermost activation -----

  lemma {:induction false} Called(env: Env, s: State, next: u64, off: int) returns (s': State, a: Act)
    requires Fetches(env, s.pc, CtlOp(Call([], off)), next) && env.base <= s.Sp()
    ensures s' == s.(lr := next, pc := U64(U64(next - 5) + off)) && a == Act(next, s.Sp(), s.fp, s.x, Entered(UPPER))
    ensures Disciplined(env, s, NoActs, s', Cons(a, NoActs))
  {
    s', a := s.(lr := next, pc := U64(U64(next - 5) + off)), Act(next, s.Sp(), s.fp, s.x, Entered(UPPER));
    assert WriteArgs(s.x, ReadArgs(s.x, [])) == s.x;
  }

  lemma {:induction false} Pushed(env: Env, s: State, a: Act, next: u64, amt: u16, regs: RegSet) returns (s': State)
    requires Fetches(env, s.pc, FrameOp(PushFrameSave(amt, regs)), next)
    requires a.phase == Entered(UPPER) && Upper(regs) && env.base + amt + 16 <= s.Sp()
    ensures Disciplined(env, s, Cons(a, NoActs), s', Cons(a.(phase := Framed(true, amt, regs)), NoActs))
    ensures s'.pc == next && s'.Sp() == s.Sp() - 16 - amt && s'.fp == s.Sp() - 16
  {
    s' := Step(env, s).s;
    U64Id(s.Sp() - 16 - amt);
    U64Id(s.Sp() - 16);
  }

  lemma {:induction false} Overwritten(env: Env, s: State, a: Act, next: u64, r: Reg, v: int) returns (s': State)
    requires Fetches(env, s.pc, AluOp(Const(r, v)), next) && a.phase.Framed? && r != SP
    ensures Disciplined(env, s, Cons(a, NoActs), s', Cons(a, NoActs))
    ensures s' == s.(pc := next, x := s.x[r := U64(v)])
  {
    s' := s.(pc := next, x := s.x[r := U64(v)]);
    assert FramesUntouched(s.mem, s'.mem, NoActs);
  }

  lemma {:induction false} Popped(env: Env, s: State, a: Act, next: u64, amt: u16, regs: RegSet) returns (s': State)
    requires Fetches(env, s.pc, FrameOp(PopFrameRestore(amt, regs)), next)
    requires a.phase == Framed(true, amt, regs) && s.Sp() == s.fp - amt
    ensures Disciplined(env, s, Cons(a, NoActs), s', Cons(a.(phase := Left(set r | r in regs)), NoActs))
    ensures s'.pc == next
  {
    s' := Step(env, s).s;
  }

  lemma {:induction false} Returned(env: Env, s: State, a: Act, next: u64) returns (s': State)
    requires Fetches(env, s.pc, CtlOp(Ret), next) && a.phase.Left? && s.lr != HOST_RETURN_ADDR
    ensures Disciplined(env, s, Cons(a, NoActs), s', NoActs)
  {
    s' := s.(pc := s.lr);
  }

  // ----- The run -----

  /** A call of a function that saves a register in its frame, overwrites it, restores it and returns. */
  function Code(): u64 -> Option<(Op, u64)>
  {
    (a: u64) =>
      if a == 0 then Some((CtlOp(Call([], 16)), 5))
      else if a == 16 then Some((FrameOp(PushFrameSave(8, [16])), 21))
      else if a == 21 then Some((AluOp(Const(16, 7)), 24))
      else if a == 24 then Some((FrameOp(PopFrameRestore(8, [16])), 29))
      else if a == 29 then Some((CtlOp(Ret), 30))
      else None
  }

  lemma CodeIs(env: Env)
    requires env.fetch == Code()
    ensures Fetches(env, 0, CtlOp(Call([], 16)), 5) && Fetches(env, 16, FrameOp(PushFrameSave(8, [16])), 21)
    ensures Fetches(env, 21, AluOp(Const(16, 7)), 24) && Fetches(env, 24, FrameOp(PopFrameRestore(8, [16])), 29)
    ensures Fetches(env, 29, CtlOp(Ret), 30)
  {
  }

  lemma {:induction false} RunOn(env: Env, states: seq<State>, shadows: seq<Acts>, s: State, st: Acts)
    requires DisciplinedRun(env, states, shadows)
    requires Disciplined(env, states[|states| - 1], shadows[|states| - 1], s, st)
    ensures DisciplinedRun(env, states + [s], shadows + [st])
  {
    forall i | 0 <= i < |states|
      ensures StepAt(env, states + [s], shadows + [st], i)
    {
      if i < |states| - 1 { assert StepAt(env, states, shadows, i); }
    }
  }

  /** The shadow stack while the function runs, in a phase of its activation. */
  function During(s: State, phase: Phase): Acts { Cons(Act(5, s.Sp(), s.fp, s.x, phase), NoActs) }

  /** Up to the restoring of the register. */
  lemma {:induction false} RunInside(env: Env, s: State) returns (states: seq<State>, shadows: seq<Acts>)
    requires env.fetch == Code() && env.base == 0x2_0000 && s.pc == 0 && s.Sp() == 0x3_0000
    ensures DisciplinedRun(env, states, shadows) && |states| == 4 && states[0] == s
    ensures var framed := Framed(true, 8, [16]);
            shadows == [NoActs, During(s, Entered(UPPER)), During(s, framed), During(s, framed)]
    ensures states[3].x[16] == 7 && states[3].pc == 24 && states[3].Sp() == states[3].fp - 8
  {
    CodeIs(env);
    var s1, a := Called(env, s, 5, 16);
    var s2 := Pushed(env, s1, a, 21, 8, [16]);
    var b := a.(phase := Framed(true, 8, [16]));
    var s3 := Overwritten(env, s2, b, 24, 16, 7);
    RunOn(env, [s], [NoActs], s1, Cons(a, NoActs));
    RunOn(env, [s, s1], [NoActs, Cons(a, NoActs)], s2, Cons(b, NoActs));
    RunOn(env, [s, s1, s2], [NoActs, Cons(a, NoActs), Cons(b, NoActs)], s3, Cons(b, NoActs));
    states, shadows := [s, s1, s2, s3], [NoActs, Cons(a, NoActs), Cons(b, NoActs), Cons(b, NoActs)];
  }

  /** The restoring of the register, and the return. */
  lemma {:induction false} Leaves(env: Env, s: State, a: Act) returns (s1: State, s2: State)
    requires env.fetch == Code() && Lawful(env.host) && Roomy(env) && Inv(env, s, Cons(a, NoActs))
    requires a.phase == Framed(true, 8, [16]) && a.ret == 5 && s.pc == 24 && s.Sp() == s.fp - 8
    ensures var left := Cons(a.(phase := Left(set r | r in [16])), NoActs);
            Disciplined(env, s, Cons(a, NoActs), s1, left) && Disciplined(env, s1, left, s2, NoActs)
  {
    CodeIs(env);
    s1 := Popped(env, s, a, 29, 8, [16]);
    var b := a.(phase := Left(set r | r in [16]));
    StepKeeps(env, s, Cons(a, NoActs), s1, Cons(b, NoActs));
    s2 := Returned(env, s1, b, 30);
  }

  /** On a little-endian host with a stack there is a disciplined run through a saved frame. */
  lemma {:induction false} RunThrough(env: Env, s: State) returns (states: seq<State>, shadows: seq<Acts>)
    requires env.fetch == Code() && env.base == 0x2_0000 && env.host == LittleEndian()
    requires s.pc == 0 && s.Sp() == 0x3_0000
    ensures Lawful(env.host) && Roomy(env) && DisciplinedRun(env, states, shadows) && |states| == 6
    ensures states[0] == s && states[3].x[16] == 7
    ensures var framed, left := Framed(true, 8, [16]), Left(set r | r in [16]);
            shadows == [NoActs, During(s, Entered(UPPER)), During(s, framed), During(s, framed), During(s, left),
                        NoActs]
  {
    LittleEndianLawful();
    states, shadows := RunInside(env, s);
    RunKeeps(env, states, shadows, 3);
    var left := During(s, Left(set r | r in [16]));
    var s4, s5 := Leaves(env, states[3], shadows[3].top);
    RunOn(env, states, shadows, s4, left);
    RunOn(env, states + [s4], shadows + [left], s5, NoActs);
    states, shadows := states + [s4] + [s5], shadows + [left] + [NoActs];
  }

  /**
   `CallReturns` speaks of that run: it comes back after the call, with the register that it
   overwrote as it was.
   */
  lemma {:induction false} SavedRegisterReturns(env: Env, s: State) returns (states: seq<State>, shadows: seq<Acts>)
    requires env.fetch == Code() && env.base == 0x2_0000 && env.host == LittleEndian()
    requires s.pc == 0 && s.Sp() == 0x3_0000
    ensures Lawful(env.host) && Roomy(env) && DisciplinedRun(env, states, shadows) && |states| == 6
    ensures states[0] == s && Inv(env, s, shadows[0]) && CallsAt(env, s.pc)
    ensures states[3].x[16] == 7 && states[5].x[16] == s.x[16]
    ensures states[5].pc == 5 && states[5].Sp() == s.Sp() && states[5].fp == s.fp
  {
    CodeIs(env);
    states, shadows := RunThrough(env, s);
    assert Depth(NoActs) == 0 && forall k :: 0 < k < 5 ==> Depth(shadows[k]) == 1;
    CallReturns(env, states, shadows, 0, 5);
    assert HandsBack(shadows[4].top.phase, 16);
  }
}
