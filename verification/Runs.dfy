/** Whole runs of the interpreter loop: how they end, where they trap, and how the host resumes them. */
module Runs {
  import opened Wrappers
  import opened Words
  import opened Ops
  import opened Machine

  // ----- The done reason -----

  /** A handler sets the done reason exactly when it breaks. */
  lemma ExecSetsDone(env: Env, s: State, op: Op)
    requires s.done.None?
    ensures Exec(env, s, op).Break? <==> Exec(env, s, op).s.done.Some?
  {
  }

  ghost predicate StepsSetDone(step: State -> Option<Flow>)
  {
    forall s: State :: s.done.None? && step(s).Some? ==> (step(s).value.Break? <==> step(s).value.s.done.Some?)
  }

  lemma StepperSetsDone(env: Env)
    ensures StepsSetDone(Stepper(env))
  {
    forall s: State | s.done.None? && Decodes(env, s.pc)
      ensures Step(env, s).Break? <==> Step(env, s).s.done.Some?
    {
      ExecSetsDone(env, s.(pc := NextPc(env, s.pc)), OpAt(env, s.pc));
    }
  }

  lemma {:induction false} LoopSetsDone(step: State -> Option<Flow>, s: State, n: nat)
    requires StepsSetDone(step) && s.done.None?
    ensures Loop(step, s, n).Halted? <==> Loop(step, s, n).s.done.Some?
    decreases n
  {
    if n != 0 && step(s).Some? && step(s).value.Continue? { LoopSetsDone(step, step(s).value.s, n - 1); }
  }

  /** Before every step of a run the done reason is unset; a halted run has one to take. */
  lemma RunSetsDone(env: Env, s: State, n: nat)
    requires s.done.None?
    ensures Run(env, s, n).Halted? <==> Run(env, s, n).s.done.Some?
  {
    StepperSetsDone(env);
    LoopSetsDone(Stepper(env), s, n);
  }

  // ----- Where traps are recorded -----

  /** Decoding advances the program counter by the width that the handler will rewind. */
  ghost predicate WidthsAgree(env: Env)
  {
    forall pc: u64 :: Decodes(env, pc) && ClaimedWidth(OpAt(env, pc)) != 0 ==>
      NextPc(env, pc) == U64(pc + ClaimedWidth(OpAt(env, pc)))
  }

  predicate Trapped(s: State) { s.done.Some? && s.done.value.TrapAt? }

  predicate TrappedAt(s: State, pc: u64) { Trapped(s) && s.done.value.pc == pc }

  lemma ExecTraps(env: Env, s: State, op: Op)
    requires s.done.None? && Trapped(Exec(env, s, op).s)
    ensures ClaimedWidth(op) != 0 && TrappedAt(Exec(env, s, op).s, U64(s.pc - ClaimedWidth(op)))
  {
  }

  lemma Rewind(pc: u64, w: nat)
    ensures U64(U64(pc + w) - w) == pc
  {
  }

  /** A trap of one step records the first byte of the instruction it executed. */
  lemma StepTraps(env: Env, s: State)
    requires WidthsAgree(env) && Decodes(env, s.pc) && s.done.None? && Trapped(Step(env, s).s)
    ensures TrappedAt(Step(env, s).s, s.pc)
  {
    var op := OpAt(env, s.pc);
    ExecTraps(env, s.(pc := NextPc(env, s.pc)), op);
    Rewind(s.pc, ClaimedWidth(op));
  }

  ghost predicate TrapsInPlace(step: State -> Option<Flow>)
  {
    forall s: State :: s.done.None? && step(s).Some? && Trapped(step(s).value.s) ==> TrappedAt(step(s).value.s, s.pc)
  }

  lemma StepperTrapsInPlace(env: Env)
    requires WidthsAgree(env)
    ensures TrapsInPlace(Stepper(env))
  {
    forall s: State | s.done.None? && Decodes(env, s.pc) && Trapped(Step(env, s).s)
      ensures TrappedAt(Step(env, s).s, s.pc)
    {
      StepTraps(env, s);
    }
  }

  lemma {:induction false} LoopTraps(step: State -> Option<Flow>, s: State, n: nat) returns (k: nat)
    requires StepsSetDone(step) && TrapsInPlace(step) && s.done.None?
    requires Loop(step, s, n).Halted? && Trapped(Loop(step, s, n).s)
    ensures k < n && Loop(step, s, k).Running? && TrappedAt(Loop(step, s, n).s, Loop(step, s, k).s.pc)
    ensures step(Loop(step, s, k).s) == Some(Break(Loop(step, s, n).s))
    decreases n
  {
    var f := step(s).value;
    if f.Break? {
      k := 0;
    } else {
      k := LoopTraps(step, f.s, n - 1);
      k := k + 1;
    }
  }

  /**
   Every trap of every run records the address of the instruction that the run was about to execute:
   after `k` steps the run stood at that address, and its next step trapped.
   */
  lemma RunTraps(env: Env, s: State, n: nat) returns (k: nat)
    requires WidthsAgree(env) && s.done.None?
    requires Run(env, s, n).Halted? && Trapped(Run(env, s, n).s)
    ensures k < n && Run(env, s, k).Running? && TrappedAt(Run(env, s, n).s, Run(env, s, k).s.pc)
    ensures Stepper(env)(Run(env, s, k).s) == Some(Break(Run(env, s, n).s))
  {
    StepperSetsDone(env);
    StepperTrapsInPlace(env);
    k := LoopTraps(Stepper(env), s, n);
  }

  // ----- Calls to the host -----

  predicate Suspended(s: State) { s.done.Some? && s.done.value.CallHost? }

  /** The host has taken the done reason and re-enters at the address it names. */
  function Resumed(s: State): State
    requires Suspended(s)
  {
    s.(done := None, pc := s.done.value.resume)
  }

  /** A loop whose host answers `call_indirect_host` by resuming without touching the state. */
  function HostedLoop(step: State -> Option<Flow>, s: State, n: nat): Status
    decreases n
  {
    if n == 0 then Running(s)
    else
      match step(s)
      case None => Stuck(s)
      case Some(Continue(s1)) => HostedLoop(step, s1, n - 1)
      case Some(Break(s1)) => if Suspended(s1) then HostedLoop(step, Resumed(s1), n - 1) else Halted(s1)
  }

  function AnswerHostCall(f: Option<Flow>): Option<Flow>
  {
    if f.Some? && f.value.Break? && Suspended(f.value.s) then Some(Continue(Resumed(f.value.s))) else f
  }

  /** `quiet` steps as `step` does once host calls are answered. */
  ghost predicate Answers(step: State -> Option<Flow>, quiet: State -> Option<Flow>)
  {
    forall s: State :: s.done.None? ==> quiet(s) == AnswerHostCall(step(s))
  }

  lemma {:induction false} HostedLoopIsQuiet(step: State -> Option<Flow>, quiet: State -> Option<Flow>, s: State,
                                             n: nat)
    requires StepsSetDone(step) && Answers(step, quiet) && s.done.None?
    ensures HostedLoop(step, s, n) == Loop(quiet, s, n)
    decreases n
  {
    if n != 0 && step(s).Some? {
      var f := step(s).value;
      if f.Continue? {
        HostedLoopIsQuiet(step, quiet, f.s, n - 1);
      } else if Suspended(f.s) {
        HostedLoopIsQuiet(step, quiet, Resumed(f.s), n - 1);
      }
    }
  }

  function AsNop(f: Option<(Op, u64)>): Option<(Op, u64)>
  {
    if f.Some? && f.value.0.SysOp? && f.value.0.sys.CallIndirectHost? then Some((SysOp(Nop), f.value.1)) else f
  }

  /** The same program with every `call_indirect_host` replaced by `nop`. */
  function WithoutHostCalls(env: Env): Env { env.(fetch := (pc: u64) => AsNop(env.fetch(pc))) }

  lemma ExecIgnoresFetch(env: Env, env': Env, s: State, op: Op)
    requires env' == env.(fetch := env'.fetch)
    ensures Exec(env', s, op) == Exec(env, s, op)
  {
    match op
    case CtlOp(c) => assert ExecCtl(env', s, c) == ExecCtl(env, s, c);
    case AluOp(_) =>
    case MemoryOp(m) => assert ExecMem(env', s, m) == ExecMem(env, s, m);
    case FrameOp(f) => assert ExecFrame(env', s, f) == ExecFrame(env, s, f);
    case SysOp(_) =>
  }

  lemma OnlyHostCallsSuspend(env: Env, s: State, op: Op)
    requires s.done.None? && Suspended(Exec(env, s, op).s)
    ensures op.SysOp? && op.sys.CallIndirectHost?
  {
  }

  /** A step at a host call, once resumed, is the step of a `nop`; any other step is the same. */
  lemma HostedStep(env: Env, s: State)
    requires s.done.None? && Decodes(env, s.pc)
    ensures Some(Step(WithoutHostCalls(env), s)) == AnswerHostCall(Some(Step(env, s)))
  {
    var env' := WithoutHostCalls(env);
    var s1 := s.(pc := NextPc(env, s.pc));
    var op := OpAt(env, s.pc);
    if op.SysOp? && op.sys.CallIndirectHost? {
      assert Step(env', s) == Continue(s1);
    } else {
      ExecIgnoresFetch(env, env', s1, op);
      if Suspended(Step(env, s).s) { OnlyHostCallsSuspend(env, s1, op); }
    }
  }

  /** Suspending at host calls and resuming with a host that does nothing runs as if they were `nop`. */
  lemma {:induction false} HostedRunIsNopRun(env: Env, s: State, n: nat)
    requires s.done.None?
    ensures HostedLoop(Stepper(env), s, n) == Run(WithoutHostCalls(env), s, n)
  {
    forall t: State | t.done.None? && Decodes(env, t.pc)
      ensures Some(Step(WithoutHostCalls(env), t)) == AnswerHostCall(Some(Step(env, t)))
    {
      HostedStep(env, t);
    }
    StepperSetsDone(env);
    HostedLoopIsQuiet(Stepper(env), Stepper(WithoutHostCalls(env)), s, n);
  }
}
