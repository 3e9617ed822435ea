/**
 32-bit code reads and writes only the low halves of the x-registers: what the upper halves hold can
 neither influence it nor be changed by it.
 */
module LowHalf {
  import opened Wrappers
  import opened Words
  import opened Ops
  import opened Arith
  import opened Machine

  /** The 32-bit operations, 32-bit branches and `br_table32`. */
  predicate Is32(op: Op)
  {
    match op
    case CtlOp(c) => c.Jump? || c.BrIf? || c.BrTable? || (c.BrCmp? && c.w == W32)
    case AluOp(a) =>
      && (a.Bin? || a.Un? || a.Madd? || a.Compare? || a.Div? || a.Select? || a.AddTrap?)
      && a.w == W32
    case SysOp(y) => y.Nop? || y.Trap?
    case _ => false
  }

  predicate LowEqual(x: Regs, y: Regs) { forall r: Reg :: Low(x[r]) == Low(y[r]) }
  predicate HighEqual(x: Regs, y: Regs) { forall r: Reg :: High(x[r]) == High(y[r]) }

  /** Two machines that 32-bit code cannot tell apart. */
  predicate Alike(s: State, t: State) { s.pc == t.pc && s.done == t.done && LowEqual(s.x, t.x) }

  lemma AluAlike(x: Regs, y: Regs, op: Alu)
    requires Is32(AluOp(op)) && LowEqual(x, y)
    ensures EvalAlu(x, op).AluTrap? ==> EvalAlu(y, op) == EvalAlu(x, op)
    ensures EvalAlu(x, op).Regs? ==> EvalAlu(y, op).Regs? && LowEqual(EvalAlu(x, op).x, EvalAlu(y, op).x)
  {
  }

  lemma AluKeepsHigh(x: Regs, op: Alu)
    requires Is32(AluOp(op)) && EvalAlu(x, op).Regs?
    ensures HighEqual(x, EvalAlu(x, op).x)
  {
  }

  lemma CtlAlike(env: Env, s: State, t: State, c: Ctl)
    requires Is32(CtlOp(c)) && Alike(s, t)
    ensures ExecCtl(env, s, c).Break? == ExecCtl(env, t, c).Break?
    ensures Alike(ExecCtl(env, s, c).s, ExecCtl(env, t, c).s)
    ensures ExecCtl(env, s, c).s.x == s.x
  {
  }

  lemma ExecAlike(env: Env, s: State, t: State, op: Op)
    requires Is32(op) && Alike(s, t)
    ensures Exec(env, s, op).Break? == Exec(env, t, op).Break?
    ensures Alike(Exec(env, s, op).s, Exec(env, t, op).s)
    ensures HighEqual(s.x, Exec(env, s, op).s.x)
  {
    if op.AluOp? {
      AluAlike(s.x, t.x, op.alu);
      if EvalAlu(s.x, op.alu).Regs? { AluKeepsHigh(s.x, op.alu); }
    } else if op.CtlOp? {
      CtlAlike(env, s, t, op.ctl);
    }
  }

  lemma StepAlike(env: Env, s: State, t: State)
    requires Decodes(env, s.pc) && Is32(OpAt(env, s.pc)) && Alike(s, t)
    ensures Step(env, s).Break? == Step(env, t).Break? && Alike(Step(env, s).s, Step(env, t).s)
    ensures HighEqual(s.x, Step(env, s).s.x)
  {
    ExecAlike(env, s.(pc := NextPc(env, s.pc)), t.(pc := NextPc(env, t.pc)), OpAt(env, s.pc));
  }

  /** Every instruction that the first `n` steps from `s` execute is a 32-bit one. */
  predicate Runs32(env: Env, s: State, n: nat)
    decreases n
  {
    n == 0 || !Decodes(env, s.pc) ||
    (Is32(OpAt(env, s.pc)) && (Step(env, s).Continue? ==> Runs32(env, Step(env, s).s, n - 1)))
  }

  /**
   A machine that executes only 32-bit instructions, whatever else the code holds, and one that
   agrees with it on the low halves run in step: the second executes only 32-bit instructions too,
   they take the same branches, trap at the same address with the same kind, still agree on the low
   halves, and keep their own upper halves.
   */
  lemma {:induction false} RunAlike(env: Env, s: State, t: State, n: nat)
    requires Runs32(env, s, n) && Alike(s, t)
    ensures Runs32(env, t, n)
    ensures Run(env, s, n).Running? == Run(env, t, n).Running?
    ensures Run(env, s, n).Halted? == Run(env, t, n).Halted?
    ensures Alike(Run(env, s, n).s, Run(env, t, n).s)
    ensures HighEqual(s.x, Run(env, s, n).s.x)
    decreases n
  {
    if n != 0 && Decodes(env, s.pc) {
      StepAlike(env, s, t);
      if Step(env, s).Continue? { RunAlike(env, Step(env, s).s, Step(env, t).s, n - 1); }
    }
  }
}
