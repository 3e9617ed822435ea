/** The interpreter as an object whose registers, stack and program counter are updated in place. */
module Interpreter {
  import opened Wrappers
  import opened Words
  import opened Memory
  import opened Ops
  import opened Arith
  import opened Machine
  import opened Runs

  /** The machine state and the program counter of a running interpreter. */
  class Vm {
    const env: Env
    const x: array<u64>
    var fp: u64
    var lr: u64
    var pc: u64
    var mem: Mem
    var done: Option<DoneReason>

    constructor (env: Env)
      ensures this.env == env && fresh(x) && Valid() && done.None?
      ensures View().Sp() == U64(env.base + env.len) && lr == HOST_RETURN_ADDR && fp == HOST_RETURN_ADDR
    {
      this.env := env;
      x := new u64[32](_ => 0);
      fp, lr, pc, mem, done := HOST_RETURN_ADDR, HOST_RETURN_ADDR, 0, map[], None;
      new;
      x[SP] := U64(env.base + env.len);
    }

    predicate Valid() reads this { x.Length == 32 }

    function Registers(): Regs
      requires Valid()
      reads this, x
    {
      x[..]
    }

    /** The state as a value. */
    function View(): State
      requires Valid()
      reads this, x
    {
      State(Registers(), fp, lr, pc, mem, done)
    }

    /** Whether control breaks out of the loop, with the state as it is. */
    function Outcome(broke: bool): Flow
      requires Valid()
      reads this, x
    {
      if broke then Break(View()) else Continue(View())
    }

    method SetReg(r: Reg, v: u64)
      requires Valid()
      modifies x
      ensures Valid() && Registers() == old(Registers())[r := v]
    {
      x[r] := v;
    }

    /** Write values to `x0` on, in order. */
    method WriteAll(vals: seq<u64>)
      requires Valid() && |vals| <= 32
      modifies x
      ensures Valid() && Registers() == WriteArgs(old(Registers()), vals)
    {
      for k := 0 to |vals|
        invariant Registers() == WriteArgs(old(Registers()), vals[..k])
      {
        assert vals[..k + 1][..k] == vals[..k];
        SetReg(k, vals[k]);
      }
      assert vals[..|vals|] == vals;
    }

    method TrapWith(w: nat, kind: Option<TrapKind>) returns (broke: bool)
      requires Valid()
      modifies this`done
      ensures Valid() && Outcome(broke) == TrapHere(old(View()), w, kind)
    {
      done := Some(TrapAt(U64(pc - w), kind));
      broke := true;
    }

    // ----- The stack -----

    method MoveSp(w: nat, sp: u64) returns (broke: bool)
      requires Valid()
      modifies this`done, x
      ensures Valid() && Outcome(broke) == SetSp(env, old(View()), w, sp)
    {
      if sp < env.base {
        broke := TrapWith(w, Some(StackOverflow));
      } else {
        SetReg(SP, sp);
        broke := false;
      }
    }

    method PushValue(w: nat, n: nat, v: nat) returns (broke: bool)
      requires Valid()
      modifies this`done, this`mem, x
      ensures Valid() && Outcome(broke) == Push(env, old(View()), w, n, v)
    {
      var sp := U64(x[SP] as int - n);
      broke := MoveSp(w, sp);
      if !broke { mem := env.host.store(mem, sp, n, v); }
    }

    method Pop8() returns (v: u64)
      requires Valid()
      modifies x
      ensures Valid() && View() == Pop(old(View()), 8) && v == NativeLoad(env.host, mem, old(View().Sp()))
    {
      v := NativeLoad(env.host, mem, x[SP]);
      SetReg(SP, U64(x[SP] as int + 8));
    }

    // ----- Frames -----

    method PushFrame() returns (broke: bool)
      requires Valid()
      modifies this`done, this`mem, this`fp, x
      ensures Valid() && Outcome(broke) == PushFrameFn(env, old(View()))
    {
      broke := PushValue(1, 8, lr);
      if broke { return; }
      broke := PushValue(1, 8, fp);
      if broke { return; }
      fp := x[SP];
    }

    method PopFrame()
      requires Valid()
      modifies this`fp, this`lr, x
      ensures Valid() && View() == PopFrameFn(env.host, old(View()))
    {
      SetReg(SP, fp);
      var oldFp := Pop8();
      var oldLr := Pop8();
      fp, lr := oldFp, oldLr;
    }

    /** Save registers at descending slots below `sp + amt`. */
    method SaveAll(amt: int, regs: seq<Reg>)
      requires Valid()
      modifies this`mem
      ensures Valid() && mem == SaveRegs(env.host, Registers(), old(mem), amt, regs)
    {
      var offset := amt;
      for k := 0 to |regs|
        invariant SaveRegs(env.host, Registers(), mem, offset, regs[k..]) ==
                  SaveRegs(env.host, Registers(), old(mem), amt, regs)
      {
        assert regs[k..][1..] == regs[k + 1..];
        offset := offset - 8;
        mem := NativeStore(env.host, mem, U64(x[SP] as int + offset), x[regs[k]]);
      }
      assert regs[|regs|..] == [];
    }

    method PushFrameSave(amt: u16, regs: RegSet) returns (broke: bool)
      requires Valid()
      modifies this`done, this`mem, this`fp, x
      ensures Valid() && Outcome(broke) == PushFrameSaveFn(env, old(View()), amt, regs)
    {
      var full: int := amt + 16;
      broke := MoveSp(5, U64(x[SP] as int - full));
      if broke { return; }
      mem := NativeStore(env.host, mem, U64(x[SP] as int + full - 8), lr);
      mem := NativeStore(env.host, mem, U64(x[SP] as int + full - 16), fp);
      fp := U64(x[SP] as int + amt as int);
      SaveAll(amt, regs);
    }

    /** Restore registers from descending slots below `sp + amt`. */
    method RestoreAll(amt: int, regs: seq<Reg>)
      requires Valid()
      modifies x
      ensures Valid() && Registers() == RestoreRegs(env.host, old(Registers()), mem, amt, regs)
    {
      var offset := amt;
      for k := 0 to |regs|
        invariant RestoreRegs(env.host, Registers(), mem, offset, regs[k..]) ==
                  RestoreRegs(env.host, old(Registers()), mem, amt, regs)
      {
        assert regs[k..][1..] == regs[k + 1..];
        offset := offset - 8;
        SetReg(regs[k], NativeLoad(env.host, mem, U64(x[SP] as int + offset)));
      }
      assert regs[|regs|..] == [];
    }

    method PopFrameRestore(amt: u16, regs: RegSet)
      requires Valid()
      modifies this`fp, this`lr, x
      ensures Valid() && View() == PopFrameRestoreFn(env.host, old(View()), amt, regs)
    {
      RestoreAll(amt, regs);
      PopFrame();
    }

    method DoFrame(op: Frame) returns (broke: bool)
      requires Valid()
      modifies this, x
      ensures Valid() && Outcome(broke) == ExecFrame(env, old(View()), op)
    {
      broke := false;
      match op
      case PushFrame => broke := PushFrame();
      case PopFrame => PopFrame();
      case PushFrameSave(amt, regs) => broke := PushFrameSave(amt, regs);
      case PopFrameRestore(amt, regs) => PopFrameRestore(amt, regs);
      case StackAlloc(amt) => broke := MoveSp(5, U64(x[SP] as int - amt as int));
      case StackFree(amt) => SetReg(SP, U64(x[SP] as int + amt as int));
    }

    // ----- Control -----

    method Jump(w: nat, off: int)
      requires Valid()
      modifies this`pc
      ensures Valid() && Continue(View()) == RelJump(old(View()), w, off)
    {
      pc := U64(U64(pc - w) + off);
    }

    /** `call` to `call4`: every argument is read before `x0` to `x3` are written. */
    method CallWith(args: Args, off: int)
      requires Valid()
      modifies this`lr, this`pc, x
      ensures Valid() && Continue(View()) == ExecCtl(env, old(View()), Ctl.Call(args, off))
    {
      lr := pc;
      var vals := ReadArgs(x[..], args);
      WriteAll(vals);
      Jump(ClaimedWidth(CtlOp(Ctl.Call(args, off))), off);
    }

    method BrTable32(idx: Reg, amt: u32)
      requires Valid()
      modifies this`pc
      ensures Valid() && Continue(View()) == ExecCtl(env, old(View()), BrTable(idx, amt))
      ensures amt > 0 ==>
                var k := if Low(x[idx]) < amt then Low(x[idx]) else amt - 1;
                var at := U64(old(pc) as int + 4 * k as int);
                pc == U64(at + env.entry(at))
    {
      pc := U64(pc as int + 4 * TableIndex(x[..], idx, amt) as int);
      pc := U64(pc + env.entry(pc));
    }

    method DoCtl(op: Ctl) returns (broke: bool)
      requires Valid()
      modifies this, x
      ensures Valid() && Outcome(broke) == ExecCtl(env, old(View()), op)
    {
      broke := false;
      var w := ClaimedWidth(CtlOp(op));
      match op
      case Ret =>
        if lr == HOST_RETURN_ADDR {
          done := Some(ReturnToHost);
          broke := true;
        } else {
          pc := lr;
        }
      case Call(args, off) => CallWith(args, off);
      case CallIndirect(dst) => lr, pc := pc, x[dst];
      case Jump(off) => Jump(w, off);
      case XJump(reg) => pc := x[reg];
      case BrIf(cond, nonzero, off) => if (Low(x[cond]) != 0) == nonzero { Jump(w, off); }
      case BrCmp(width, c, a, b, off) => if BrCond(x[..], width, c, a, b) { Jump(w, off); }
      case BrTable(idx, amt) => BrTable32(idx, amt);
    }

    // ----- Arithmetic, memory and system operations -----

    /** A 32-bit result leaves the upper half of its register. */
    method PutWord(w: Width, dst: Reg, v: int)
      requires Valid() && Word(w, v)
      modifies x
      ensures Valid() && Registers() == Put(old(Registers()), w, dst, v)
    {
      if w == W32 { x[dst] := SetLow(x[dst], v); } else { x[dst] := v; }
    }

    /** `set_i128`: the low half first. */
    method PutPair(lo: Reg, hi: Reg, v: int)
      requires Valid()
      modifies x
      ensures Valid() && Registers() == Set128(old(Registers()), lo, hi, v)
    {
      x[lo] := U64(v);
      x[hi] := U64(v / B64);
    }

    /** The operations that define a pair of registers: both operands are read before the first write. */
    method WriteWide(op: Alu)
      requires Valid() && (op.Add128? || op.Sub128? || op.WideMul?)
      modifies x
      ensures Valid() && EvalAlu(old(Registers()), op) == AluResult.Regs(Registers())
    {
      match op
      case Add128(lo, hi, alo, ahi, blo, bhi) =>
        PutPair(lo, hi, Wrap128(Get128(x[..], alo, ahi) + Get128(x[..], blo, bhi)));
      case Sub128(lo, hi, alo, ahi, blo, bhi) =>
        PutPair(lo, hi, Wrap128(Get128(x[..], alo, ahi) - Get128(x[..], blo, bhi)));
      case WideMul(signed, lo, hi, a, b) =>
        PutPair(lo, hi, Wrap128(SignedIf(signed, x[a]) * SignedIf(signed, x[b])));
    }

    /** The operations that define one register and cannot trap. */
    method WriteResult(op: Alu)
      requires Valid() && !op.Div? && !op.AddTrap? && !op.Add128? && !op.Sub128? && !op.WideMul?
      modifies x
      ensures Valid() && EvalAlu(old(Registers()), op) == AluResult.Regs(Registers())
    {
      match op
      case Mov(dst, src) => SetReg(dst, x[src]);
      case Const(dst, v) => SetReg(dst, U64(v));
      case Bin(w, bop, dst, a, b) => PutWord(w, dst, BinEval(w, bop, Val(x[..], w, a), SrcVal(x[..], w, b)));
      case Un(w, uop, dst, a) => PutWord(w, dst, UnEval(w, uop, Val(x[..], w, a)));
      case Madd(w, dst, a, b, c) =>
        var product := BinEval(w, Mul, Val(x[..], w, a), Val(x[..], w, b));
        PutWord(w, dst, BinEval(w, Add, product, Val(x[..], w, c)));
      case Compare(w, c, dst, a, b) =>
        PutWord(W32, dst, if CmpWords(w, c, Val(x[..], w, a), Val(x[..], w, b)) then 1 else 0);
      case Extend(bits, signed, dst, src) =>
        var low := x[src] % Pow2(bits);
        SetReg(dst, U64(if signed && 2 * low >= Pow2(bits) then low - Pow2(bits) else low));
      case Select(w, dst, cond, nz, z) =>
        PutWord(w, dst, if Low(x[cond]) != 0 then Val(x[..], w, nz) else Val(x[..], w, z));
      case MulHi(signed, dst, a, b) =>
        SetReg(dst, U64(SignedIf(signed, x[a]) * SignedIf(signed, x[b]) / B64));
    }

    /** Arithmetic: a trap changes no register. */
    method DoAlu(op: Alu) returns (broke: bool)
      requires Valid()
      modifies this`done, x
      ensures Valid() && Outcome(broke) == ExecAlu(old(View()), op)
    {
      broke := false;
      if op.Div? {
        match DivEval(op.w, op.dop, Val(x[..], op.w, op.a), Val(x[..], op.w, op.b2))
        case Quot(v) => PutWord(op.w, op.dst, v);
        case DivideByZero => broke := TrapWith(ClaimedWidth(AluOp(op)), Some(DivideByZeroTrap));
        case Overflow => broke := TrapWith(ClaimedWidth(AluOp(op)), Some(IntegerOverflow));
      } else if op.AddTrap? {
        var sum := Val(x[..], op.w, op.a) + Val(x[..], op.w, op.b2);
        if sum < Modulus(op.w) {
          PutWord(op.w, op.dst, sum);
        } else {
          broke := TrapWith(ClaimedWidth(AluOp(op)), None);
        }
      } else if op.Add128? || op.Sub128? || op.WideMul? {
        WriteWide(op);
      } else {
        WriteResult(op);
      }
    }

    method DoMem(op: MemOp) returns (broke: bool)
      requires Valid()
      modifies this`done, this`mem, x
      ensures Valid() && Outcome(broke) == ExecMem(env, old(View()), op)
    {
      var w := ClaimedWidth(MemoryOp(op));
      var size := if op.Load? then LoadSize(op.k) else op.size;
      var a := Address(env, x[..], mem, op.am, size);
      if a.None? {
        broke := TrapWith(w, Some(MemoryOutOfBounds));
        return;
      }
      broke := false;
      match op
      case Load(k, dst, _) => SetReg(dst, Loaded(x[..], mem, k, dst, a.value)[dst]);
      case Store(_, _, src) => mem := Memory.Store(mem, a.value, size, x[src]);
    }

    method DoSys(op: Sys) returns (broke: bool)
      requires Valid()
      modifies this`done, x
      ensures Valid() && Outcome(broke) == ExecSys(old(View()), op)
    {
      broke := false;
      match op
      case Trap => broke := TrapWith(3, None);
      case Nop =>
      case CallIndirectHost(id) =>
        done := Some(CallHost(id, pc));
        broke := true;
      case MovFp(dst) => SetReg(dst, fp);
      case MovLr(dst) => SetReg(dst, lr);
    }

    // ----- The loop -----

    method Dispatch(op: Op) returns (broke: bool)
      requires Valid()
      modifies this, x
      ensures Valid() && Outcome(broke) == Exec(env, old(View()), op)
    {
      match op
      case CtlOp(c) => broke := DoCtl(c);
      case AluOp(a) => broke := DoAlu(a);
      case MemoryOp(m) => broke := DoMem(m);
      case FrameOp(f) => broke := DoFrame(f);
      case SysOp(y) => broke := DoSys(y);
    }

    method Turn() returns (broke: bool)
      requires Valid() && Decodes(env, pc)
      modifies this, x
      ensures Valid() && Outcome(broke) == Step(env, old(View()))
    {
      var op := OpAt(env, pc);
      pc := NextPc(env, pc);
      broke := Dispatch(op);
    }

    /** At most `n` turns of the loop. */
    method RunFor(n: nat) returns (r: Status)
      requires Valid()
      modifies this, x
      ensures Valid() && r.s == View() && r == Run(env, old(View()), n)
    {
      for k := 0 to n
        invariant Valid() && Loop(Stepper(env), View(), n - k) == Run(env, old(View()), n)
      {
        if !Decodes(env, pc) { return Stuck(View()); }
        var broke := Turn();
        if broke { return Halted(View()); }
      }
      r := Running(View());
    }

    // ----- Calls from the host -----

    /** `call_start`: the arguments go to `x0` on, and returning now means returning to the host. */
    method CallStart(args: seq<u64>) returns (oldLr: u64)
      requires Valid() && |args| <= 16
      modifies this`lr, x
      ensures Valid() && View() == Started(old(View()), args) && oldLr == old(lr)
    {
      WriteAll(args);
      oldLr := lr;
      lr := HOST_RETURN_ADDR;
    }

    /** `call_run`: run, then take the done reason, which a halted run always has. */
    method CallRun(func: u64, n: nat) returns (r: Option<DoneReason>)
      requires Valid() && done.None?
      modifies this, x
      ensures Valid() && done.None?
      ensures var end := Run(env, old(View()).(pc := func), n); View() == end.s.(done := None) && r == end.s.done
      ensures r.Some? <==> Run(env, old(View()).(pc := func), n).Halted?
    {
      pc := func;
      ghost var s := View();
      var st := RunFor(n);
      RunSetsDone(env, s, n);
      r := done;
      done := None;
    }

    /** `call_end`: the link register is restored and the results are read from `x0` on. */
    method CallEnd(oldLr: u64, rets: nat) returns (vals: seq<u64>)
      requires Valid() && rets <= 15
      modifies this`lr
      ensures Valid() && View() == old(View()).(lr := oldLr) && vals == Registers()[..rets]
    {
      lr := oldLr;
      vals := x[..rets];
      assert x[..rets] == x[..][..rets];
    }

    /** `call`, for runs of at most `n` turns: when it returns to the host, `lr` is as it was before. */
    method Call(func: u64, args: seq<u64>, rets: nat, n: nat) returns (r: Option<DoneReason>, vals: seq<u64>)
      requires Valid() && done.None? && |args| <= 16 && rets <= 15
      modifies this, x
      ensures Valid() && done.None?
      ensures r == Run(env, Started(old(View()), args).(pc := func), n).s.done
      ensures r == Some(ReturnToHost) ==> lr == old(lr) && vals == Registers()[..rets]
      ensures r == Some(ReturnToHost) ==>
                View() == Run(env, Started(old(View()), args).(pc := func), n).s.(done := None, lr := old(lr))
      ensures r != Some(ReturnToHost) ==>
                View() == Run(env, Started(old(View()), args).(pc := func), n).s.(done := None)
    {
      vals := [];
      var oldLr := CallStart(args);
      r := CallRun(func, n);
      if r == Some(ReturnToHost) { vals := CallEnd(oldLr, rets); }
    }
  }

  /** The state that a call from the host starts in. */
  function Started(s: State, args: seq<u64>): State
    requires |args| <= 16
  {
    s.(x := WriteArgs(s.x, args), lr := HOST_RETURN_ADDR)
  }
}
