/** Where control instructions go, and what they leave behind. */
module ControlLaws {
  import opened Wrappers
  import opened Words
  import opened Ops
  import opened Arith
  import opened Machine
  import Fused

  /** `br_table32` goes to its own entry, or to the last one when there is none, relative to that entry. */
  lemma TableSelects(env: Env, s: State, idx: Reg, amt: u32, at: u64)
    requires amt > 0
    requires at as int == s.pc + 4 * (if Low(s.x[idx]) < amt then Low(s.x[idx]) else amt - 1)
    ensures ExecCtl(env, s, BrTable(idx, amt)) == Continue(s.(pc := U64(at + env.entry(at))))
  {
    U64Id(at);
  }

  /** When a conditional branch is taken. */
  predicate IsTaken(x: Regs, c: Ctl)
    requires c.BrIf? || c.BrCmp?
  {
    match c
    case BrIf(cond, nonzero, _) => if nonzero then Low(x[cond]) != 0 else Low(x[cond]) == 0
    case BrCmp(w, cmp, a, b, _) =>
      var left := Val(x, w, a);
      if b.R? then CmpWords(w, cmp, left, Val(x, w, b.r))
      else CmpInts(cmp, if IsUnsigned(cmp) then left else Signed(w, left), b.v)
  }

  /** What the instruction that starts at `start` and ends at `s.pc` makes of `s`; `br_table32` apart. */
  ghost predicate Goes(s: State, start: u64, c: Ctl, f: Flow)
  {
    match c
    case Ret =>
      if s.lr == 0xFFFF_FFFF_FFFF_FFFF then f == Break(s.(done := Some(ReturnToHost)))
      else f == Continue(s.(pc := s.lr))
    case Call(args, off) =>
      && f.Continue? && f.s == s.(x := f.s.x, lr := s.pc, pc := U64(start + off))
      && forall r: Reg :: f.s.x[r] == if r < |args| then s.x[args[r]] else s.x[r]
    case CallIndirect(dst) => f == Continue(s.(lr := s.pc, pc := s.x[dst]))
    case Jump(off) => f == Continue(s.(pc := U64(start + off)))
    case XJump(reg) => f == Continue(s.(pc := s.x[reg]))
    case BrTable(_, _) => f.Continue? && f.s == s.(pc := f.s.pc)
    case _ => f == Continue(s.(pc := if IsTaken(s.x, c) then U64(start + c.off) else s.pc))
  }

  /** Every control instruction goes where it should, relative to its own first byte. */
  lemma {:induction false} ControlMeant(env: Env, s: State, start: u64, c: Ctl)
    requires ClaimedWidth(CtlOp(c)) != 0 ==> start == U64(s.pc - ClaimedWidth(CtlOp(c)))
    ensures Goes(s, start, c, ExecCtl(env, s, c))
  {
    if c.Call? { Fused.ArgsAreSimultaneous(s.x, c.args); }
  }

  /** The instructions that touch neither memory nor arithmetic: what they copy, and how they leave the loop. */
  lemma SystemMeant(s: State, y: Sys)
    ensures y.Nop? ==> ExecSys(s, y) == Continue(s)
    ensures y.MovFp? ==> ExecSys(s, y) == Continue(s.(x := s.x[y.dst := s.fp]))
    ensures y.MovLr? ==> ExecSys(s, y) == Continue(s.(x := s.x[y.dst := s.lr]))
    ensures y.Trap? ==> ExecSys(s, y) == Break(s.(done := Some(TrapAt(U64(s.pc - 3), None))))
    ensures y.CallIndirectHost? ==> ExecSys(s, y) == Break(s.(done := Some(CallHost(y.id, s.pc))))
  {
  }

  /** A frame instruction traps for no other reason than a stack overflow, at its own first byte. */
  lemma FrameTraps(env: Env, s: State, f: Frame)
    requires ExecFrame(env, s, f).Break?
    ensures ExecFrame(env, s, f).s.done ==
              Some(TrapAt(U64(s.pc - (if f.PushFrame? then 1 else 5)), Some(StackOverflow)))
    ensures f.PushFrame? || f.PushFrameSave? || f.StackAlloc?
  {
  }
}
