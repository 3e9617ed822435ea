/** Calls from the host: what a disciplined run that returns to the host leaves as it was. */
module HostCalls {
  import opened Wrappers
  import opened Words
  import opened Memory
  import opened Ops
  import opened Machine
  import opened Fused
  import opened SavedFrames
  import opened ShadowStack
  import Interpreter

  /** The activation of a call from the host, which starts in `s`. */
  function HostAct(s: State): Act { Act(HOST_RETURN_ADDR, s.Sp(), s.fp, s.x, Entered(UPPER)) }

  /** Only the outermost activation, that of the call from the host, returns to the host. */
  predicate HostOutside(st: Acts, a: Act)
  {
    && st.Cons?
    && if st.rest.NoActs? then st.top == a.(phase := st.top.phase)
       else st.top.ret != HOST_RETURN_ADDR && HostOutside(st.rest, a)
  }

  /** No call of the run has the host's sentinel as its return address. */
  ghost predicate CallsInside(env: Env, states: seq<State>)
  {
    forall i :: 0 <= i < |states| && CallsAt(env, states[i].pc) ==> NextPc(env, states[i].pc) != HOST_RETURN_ADDR
  }

  lemma {:induction false} ShadowHost(env: Env, s: State, st: Acts, s': State, st': Acts, a: Act)
    requires Inv(env, s, st) && Disciplined(env, s, st, s', st') && HostOutside(st, a) && a.ret == HOST_RETURN_ADDR
    requires CallsAt(env, s.pc) ==> NextPc(env, s.pc) != HOST_RETURN_ADDR
    ensures HostOutside(st', a)
  {
    var op := OpAt(env, s.pc);
    if IsRet(op) { assert s.lr == st.top.ret && s.lr != HOST_RETURN_ADDR; }
  }

  lemma {:induction false} RunHost(env: Env, states: seq<State>, shadows: seq<Acts>, i: nat)
    requires Lawful(env.host) && Roomy(env)
    requires DisciplinedRun(env, states, shadows) && Inv(env, states[0], shadows[0]) && i < |states|
    requires shadows[0] == Cons(HostAct(states[0]), NoActs) && CallsInside(env, states)
    ensures HostOutside(shadows[i], HostAct(states[0]))
  {
    if i > 0 {
      RunHost(env, states, shadows, i - 1);
      RunKeeps(env, states, shadows, i - 1);
      assert StepAt(env, states, shadows, i - 1);
      ShadowHost(env, states[i - 1], shadows[i - 1], states[i], shadows[i], HostAct(states[0]));
    }
  }

  /** The step from the last state returns to the host, outside any frame as the convention asks. */
  ghost predicate ReturnsToHost(env: Env, s: State, st: Acts)
  {
    Decodes(env, s.pc) && IsRet(OpAt(env, s.pc)) && s.lr == HOST_RETURN_ADDR && OutOfFrame(st)
  }

  /** A disciplined run is a run. */
  lemma {:induction false} RunIs(env: Env, states: seq<State>, shadows: seq<Acts>, i: nat, n: nat)
    requires DisciplinedRun(env, states, shadows) && i < |states|
    ensures Run(env, states[0], i + n) == Run(env, states[i], n)
  {
    if i > 0 {
      RunIs(env, states, shadows, i - 1, n + 1);
      assert StepAt(env, states, shadows, i - 1);
      assert Stepper(env)(states[i - 1]) == Some(Continue(states[i]));
    }
  }

  lemma {:induction false} StartedInv(env: Env, s: State, args: seq<u64>, func: u64)
    requires |args| <= 16 && env.base <= s.Sp()
    ensures var s0 := Interpreter.Started(s, args).(pc := func);
            && Inv(env, s0, Cons(HostAct(s0), NoActs)) && s0.Sp() == s.Sp() && s0.fp == s.fp
            && forall r: Reg :: r in UPPER ==> s0.x[r] == s.x[r]
  {
    forall r: Reg
      ensures WriteArgs(s.x, args)[r] == if r < |args| then args[r] else s.x[r]
    {
      WriteArgsAt(s.x, args, r);
    }
  }

  /**
   A call from the host, started as `call_start` does from `s`: when a disciplined run returns to the
   host, `call_run` has halted with that reason, and `sp`, `fp` and every register that the outermost
   activation hands back are as they were before the call. `Vm.Call` reaches that state, and restores
   `lr` besides.
   */
  lemma {:induction false} HostCallReturns(env: Env, s: State, args: seq<u64>, func: u64,
                                           states: seq<State>, shadows: seq<Acts>, n: nat)
    requires |states| <= n
    requires Lawful(env.host) && Roomy(env) && |args| <= 16 && env.base <= s.Sp() && s.done.None?
    requires DisciplinedRun(env, states, shadows) && states[0] == Interpreter.Started(s, args).(pc := func)
    requires shadows[0] == Cons(HostAct(states[0]), NoActs) && CallsInside(env, states)
    requires ReturnsToHost(env, states[|states| - 1], shadows[|states| - 1])
    ensures var end := Run(env, Interpreter.Started(s, args).(pc := func), n);
            && end.Halted? && end.s.done == Some(ReturnToHost)
            && end.s.Sp() == s.Sp() && end.s.fp == s.fp
            && forall r: Reg :: HandsBack(shadows[|states| - 1].top.phase, r) ==> end.s.x[r] == s.x[r]
  {
    var last := |states| - 1;
    StartedInv(env, s, args, func);
    RunKeeps(env, states, shadows, last);
    RunHost(env, states, shadows, last);
    RunIs(env, states, shadows, last, n - last);
    HostStep(env, states[last], n - last);
  }

  lemma {:induction false} HostStep(env: Env, s: State, n: nat)
    requires n > 0 && Decodes(env, s.pc) && IsRet(OpAt(env, s.pc)) && s.lr == HOST_RETURN_ADDR
    ensures Run(env, s, n) == Halted(s.(pc := NextPc(env, s.pc), done := Some(ReturnToHost)))
  {
    assert Stepper(env)(s) == Some(Step(env, s));
  }
}
