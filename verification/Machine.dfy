/**
 The Pulley machine: its state, and what each handler does to it, as functions on values. A handler
 runs with `pc` already past its instruction. Addresses are 64-bit and wrap.
 */
module Machine {
  import opened Wrappers
  import opened Words
  import opened Memory
  import opened Ops
  import opened Arith

  type Regs = s: seq<u64> | |s| == 32 witness seq<u64>(32, _ => 0)

  datatype TrapKind = DivideByZeroTrap | IntegerOverflow | MemoryOutOfBounds | StackOverflow

  datatype DoneReason =
    | TrapAt(pc: u64, kind: Option<TrapKind>)
    | CallHost(id: byte, resume: u64)
    | ReturnToHost

  datatype State = State(x: Regs, fp: u64, lr: u64, pc: u64, mem: Mem, done: Option<DoneReason>) {
    function Sp(): u64 { x[SP] }
  }

  /** The sentinel return address that ends the call stack. */
  const HOST_RETURN_ADDR: u64 := 0xFFFF_FFFF_FFFF_FFFF

  /**
   What surrounds the machine: the decoder at an address, with the address that follows the decoded
   instruction; the branch-table entry at an address; the stack allocation; and the host's byte order.
   */
  datatype Env = Env(fetch: u64 -> Option<(Op, u64)>, entry: u64 -> int, base: u64, len: nat, host: Host)

  /** A handler either continues or breaks out of the interpreter loop. */
  datatype Flow = Continue(s: State) | Break(s: State)

  /** `done_trap_kind`: record the address `w` bytes before `pc`. */
  function TrapHere(s: State, w: nat, kind: Option<TrapKind>): Flow
  {
    Break(s.(done := Some(TrapAt(U64(s.pc - w), kind))))
  }

  /** `pc_rel_jump`: the offset counts from the start of the instruction of width `w`. */
  function RelJump(s: State, w: nat, off: int): Flow
  {
    Continue(s.(pc := U64(U64(s.pc - w) + off)))
  }

  // ----- Registers -----

  function Val(x: Regs, w: Width, r: Reg): (v: int)
    ensures Word(w, v)
  {
    if w == W32 then Low(x[r]) else x[r]
  }

  function SrcVal(x: Regs, w: Width, b: Src): (v: int)
    ensures Word(w, v)
  {
    match b
    case R(r) => Val(x, w, r)
    case I(v, _) => v % Modulus(w)
  }

  /** A 32-bit result replaces only the low half of its register. */
  function Put(x: Regs, w: Width, dst: Reg, v: int): Regs
    requires Word(w, v)
  {
    if w == W32 then x[dst := SetLow(x[dst], v)] else x[dst := v]
  }

  /** The writes of `call1` to `call4`, in order, of values that were all read beforehand. */
  function WriteArgs(x: Regs, vals: seq<u64>): Regs
    requires |vals| <= 32
  {
    if vals == [] then x
    else
      var k := |vals| - 1;
      WriteArgs(x, vals[..k])[k := vals[k]]
  }

  function ReadArgs(x: Regs, args: seq<Reg>): (vals: seq<u64>)
    ensures |vals| == |args|
  {
    if args == [] then []
    else ReadArgs(x, args[..|args| - 1]) + [x[args[|args| - 1]]]
  }

  // ----- Control -----

  predicate BrCond(x: Regs, w: Width, c: Cmp, a: Reg, b: Src)
  {
    match b
    case R(r) => CmpWords(w, c, Val(x, w, a), Val(x, w, r))
    case I(v, _) => CmpImm(w, c, Val(x, w, a), v)
  }

  function TableIndex(x: Regs, idx: Reg, amt: u32): (k: u32)
  {
    var last := U32(amt - 1);
    if Low(x[idx]) < last then Low(x[idx]) else last
  }

  function ExecCtl(env: Env, s: State, op: Ctl): Flow
  {
    var w := ClaimedWidth(CtlOp(op));
    match op
    case Ret =>
      if s.lr == HOST_RETURN_ADDR then Break(s.(done := Some(ReturnToHost))) else Continue(s.(pc := s.lr))
    case Call(args, off) =>
      RelJump(s.(lr := s.pc, x := WriteArgs(s.x, ReadArgs(s.x, args))), w, off)
    case CallIndirect(dst) => Continue(s.(lr := s.pc, pc := s.x[dst]))
    case Jump(off) => RelJump(s, w, off)
    case XJump(reg) => Continue(s.(pc := s.x[reg]))
    case BrIf(cond, nonzero, off) =>
      if (Low(s.x[cond]) != 0) == nonzero then RelJump(s, w, off) else Continue(s)
    case BrCmp(width, c, a, b, off) =>
      if BrCond(s.x, width, c, a, b) then RelJump(s, w, off) else Continue(s)
    case BrTable(idx, amt) =>
      var at := U64(s.pc + 4 * TableIndex(s.x, idx, amt));
      Continue(s.(pc := U64(at + env.entry(at))))
  }

  // ----- Arithmetic -----

  function Get128(x: Regs, lo: Reg, hi: Reg): int { x[lo] + S64(x[hi]) * B64 }

  function Set128(x: Regs, lo: Reg, hi: Reg, v: int): Regs
  {
    x[lo := U64(v)][hi := U64(v / B64)]
  }

  /** Wrap to a signed 128-bit integer. */
  function Wrap128(v: int): int
  {
    var r := v % B128;
    if 2 * r < B128 then r else r - B128
  }

  function SignedIf(signed: bool, v: u64): int { if signed then S64(v) else v }

  /** The registers after an operation, or the trap it raises. */
  datatype AluResult = Regs(x: Regs) | AluTrap(kind: Option<TrapKind>)

  function EvalAlu(x: Regs, op: Alu): AluResult
  {
    match op
    case Mov(dst, src) => Regs(x[dst := x[src]])
    case Const(dst, v) => Regs(x[dst := U64(v)])
    case Bin(w, bop, dst, a, b) => Regs(Put(x, w, dst, BinEval(w, bop, Val(x, w, a), SrcVal(x, w, b))))
    case Un(w, uop, dst, a) => Regs(Put(x, w, dst, UnEval(w, uop, Val(x, w, a))))
    case Madd(w, dst, a, b, c) =>
      Regs(Put(x, w, dst, BinEval(w, Add, BinEval(w, Mul, Val(x, w, a), Val(x, w, b)), Val(x, w, c))))
    case Compare(w, c, dst, a, b) =>
      Regs(Put(x, W32, dst, if CmpWords(w, c, Val(x, w, a), Val(x, w, b)) then 1 else 0))
    case Extend(bits, signed, dst, src) =>
      var low := x[src] % Pow2(bits);
      Regs(x[dst := U64(if signed && 2 * low >= Pow2(bits) then low - Pow2(bits) else low)])
    case Div(w, dop, dst, a, b) =>
      (match DivEval(w, dop, Val(x, w, a), Val(x, w, b))
       case Quot(v) => Regs(Put(x, w, dst, v))
       case DivideByZero => AluTrap(Some(DivideByZeroTrap))
       case Overflow => AluTrap(Some(IntegerOverflow)))
    case Select(w, dst, cond, nz, z) =>
      Regs(Put(x, w, dst, if Low(x[cond]) != 0 then Val(x, w, nz) else Val(x, w, z)))
    case AddTrap(w, dst, a, b) =>
      var sum := Val(x, w, a) + Val(x, w, b);
      if sum < Modulus(w) then Regs(Put(x, w, dst, sum)) else AluTrap(None)
    case MulHi(signed, dst, a, b) =>
      Regs(x[dst := U64(SignedIf(signed, x[a]) * SignedIf(signed, x[b]) / B64)])
    case Add128(lo, hi, alo, ahi, blo, bhi) =>
      Regs(Set128(x, lo, hi, Wrap128(Get128(x, alo, ahi) + Get128(x, blo, bhi))))
    case Sub128(lo, hi, alo, ahi, blo, bhi) =>
      Regs(Set128(x, lo, hi, Wrap128(Get128(x, alo, ahi) - Get128(x, blo, bhi))))
    case WideMul(signed, lo, hi, a, b) =>
      Regs(Set128(x, lo, hi, Wrap128(SignedIf(signed, x[a]) * SignedIf(signed, x[b]))))
  }

  function ExecAlu(s: State, op: Alu): Flow
  {
    match EvalAlu(s.x, op)
    case Regs(x) => Continue(s.(x := x))
    case AluTrap(kind) => TrapHere(s, ClaimedWidth(AluOp(op)), kind)
  }

  // ----- Memory -----

  /** The bounds check of the `g32` modes. `bound - off - size` is documented not to wrap. */
  function G32Addr(x: Regs, heap: Reg, bound: u64, wasm: Reg, off: int, size: nat): Option<u64>
  {
    if Low(x[wasm]) > U64(bound - off - size) then None
    else Some(U64(x[heap] + Low(x[wasm]) + off))
  }

  function Address(env: Env, x: Regs, mem: Mem, am: Addr, size: nat): Option<u64>
  {
    match am
    case O32(r, off) => Some(U64(x[r] + off))
    case Z(r, off) => if x[r] == 0 then None else Some(U64(x[r] + off))
    case G32(heap, bound, wasm, off) => G32Addr(x, heap, x[bound], wasm, off, size)
    case G32Bne(heap, bound, boundOff, wasm, off) =>
      G32Addr(x, heap, NativeLoad(env.host, mem, U64(x[bound] + boundOff)), wasm, off, size)
  }

  function LoadSize(k: LoadKind): (n: nat)
  {
    match k
    case U8 => 1
    case S8 => 1
    case U16 => 2
    case S16 => 2
    case L32 => 4
    case L64 => 8
  }

  function Loaded(x: Regs, mem: Mem, k: LoadKind, dst: Reg, a: u64): Regs
  {
    var n := LoadSize(k);
    FromLeBound(ReadN(mem, a, n));
    Pow256Values();
    var raw := Memory.Load(mem, a, n);
    if k == L64 then x[dst := raw]
    else x[dst := SetLow(x[dst], U32(Wrap(n, k == S8 || k == S16, raw)))]
  }

  function ExecMem(env: Env, s: State, op: MemOp): Flow
  {
    var w := ClaimedWidth(MemoryOp(op));
    match op
    case Load(k, dst, am) =>
      (match Address(env, s.x, s.mem, am, LoadSize(k))
       case Some(a) => Continue(s.(x := Loaded(s.x, s.mem, k, dst, a)))
       case None => TrapHere(s, w, Some(MemoryOutOfBounds)))
    case Store(size, am, src) =>
      (match Address(env, s.x, s.mem, am, size)
       case Some(a) => Continue(s.(mem := Memory.Store(s.mem, a, size, s.x[src])))
       case None => TrapHere(s, w, Some(MemoryOutOfBounds)))
  }

  // ----- The stack and its frames -----

  function WithSp(s: State, sp: u64): State { s.(x := s.x[SP := sp]) }

  /** `set_sp`: trap below the base of the stack. */
  function SetSp(env: Env, s: State, w: nat, sp: u64): Flow
  {
    if sp < env.base then TrapHere(s, w, Some(StackOverflow)) else Continue(WithSp(s, sp))
  }

  /** `push` of an `n`-byte value. */
  function Push(env: Env, s: State, w: nat, n: nat, v: nat): Flow
  {
    var sp := U64(s.Sp() - n);
    match SetSp(env, s, w, sp)
    case Break(s1) => Break(s1)
    case Continue(s1) => Continue(s1.(mem := env.host.store(s1.mem, sp, n, v)))
  }

  /** `pop` of an `n`-byte value: what it returns, and the state after it. */
  function PopValue(env: Env, s: State, n: nat): nat { env.host.load(s.mem, s.Sp(), n) }

  function Pop(s: State, n: nat): State { WithSp(s, U64(s.Sp() + n)) }

  function PushFrameFn(env: Env, s: State): Flow
  {
    match Push(env, s, 1, 8, s.lr)
    case Break(s1) => Break(s1)
    case Continue(s1) =>
      match Push(env, s1, 1, 8, s1.fp)
      case Break(s2) => Break(s2)
      case Continue(s2) => Continue(s2.(fp := s2.Sp()))
  }

  /** Store `regs` in order at descending 8-byte slots below `sp + off`. */
  function SaveRegs(h: Host, x: Regs, mem: Mem, off: int, regs: seq<Reg>): Mem
    decreases regs
  {
    if regs == [] then mem
    else SaveRegs(h, x, NativeStore(h, mem, U64(x[SP] + off - 8), x[regs[0]]), off - 8, regs[1..])
  }

  /** Load `regs` in order from descending 8-byte slots below `sp + off`. */
  function RestoreRegs(h: Host, x: Regs, mem: Mem, off: int, regs: seq<Reg>): Regs
    decreases regs
  {
    if regs == [] then x
    else RestoreRegs(h, x[regs[0] := NativeLoad(h, mem, U64(x[SP] + off - 8))], mem, off - 8, regs[1..])
  }

  function PushFrameSaveFn(env: Env, s: State, amt: u16, regs: RegSet): Flow
  {
    var full := amt + 16;
    match SetSp(env, s, 5, U64(s.Sp() - full))
    case Break(s1) => Break(s1)
    case Continue(s1) =>
      var m1 := NativeStore(env.host, s1.mem, U64(s1.Sp() + full - 8), s1.lr);
      var m2 := NativeStore(env.host, m1, U64(s1.Sp() + full - 16), s1.fp);
      Continue(s1.(fp := U64(s1.Sp() + amt), mem := SaveRegs(env.host, s1.x, m2, amt, regs)))
  }

  function PopFrameFn(h: Host, s: State): State
  {
    var s1 := WithSp(s, s.fp);
    var s2 := Pop(s1, 8);
    var s3 := Pop(s2, 8);
    s3.(fp := NativeLoad(h, s1.mem, s1.Sp()), lr := NativeLoad(h, s2.mem, s2.Sp()))
  }

  function PopFrameRestoreFn(h: Host, s: State, amt: u16, regs: RegSet): State
  {
    PopFrameFn(h, s.(x := RestoreRegs(h, s.x, s.mem, amt, regs)))
  }

  function ExecFrame(env: Env, s: State, op: Frame): Flow
  {
    match op
    case PushFrame => PushFrameFn(env, s)
    case PopFrame => Continue(PopFrameFn(env.host, s))
    case PushFrameSave(amt, regs) => PushFrameSaveFn(env, s, amt, regs)
    case PopFrameRestore(amt, regs) => Continue(PopFrameRestoreFn(env.host, s, amt, regs))
    case StackAlloc(amt) => SetSp(env, s, 5, U64(s.Sp() - amt))
    case StackFree(amt) => Continue(WithSp(s, U64(s.Sp() + amt)))
  }

  // ----- Steps and runs -----

  function ExecSys(s: State, op: Sys): Flow
  {
    match op
    case Trap => TrapHere(s, 3, None)
    case Nop => Continue(s)
    case CallIndirectHost(id) => Break(s.(done := Some(CallHost(id, s.pc))))
    case MovFp(dst) => Continue(s.(x := s.x[dst := s.fp]))
    case MovLr(dst) => Continue(s.(x := s.x[dst := s.lr]))
  }

  function Exec(env: Env, s: State, op: Op): Flow
  {
    match op
    case CtlOp(c) => ExecCtl(env, s, c)
    case AluOp(a) => ExecAlu(s, a)
    case MemoryOp(m) => ExecMem(env, s, m)
    case FrameOp(f) => ExecFrame(env, s, f)
    case SysOp(y) => ExecSys(s, y)
  }

  /** Whether the bytes at `pc` decode to an instruction of this model. */
  predicate Decodes(env: Env, pc: u64) { env.fetch(pc).Some? }

  function OpAt(env: Env, pc: u64): Op
    requires Decodes(env, pc)
  {
    env.fetch(pc).value.0
  }

  function NextPc(env: Env, pc: u64): u64
    requires Decodes(env, pc)
  {
    env.fetch(pc).value.1
  }

  /** One turn of the interpreter loop: decode, advance, dispatch. */
  function Step(env: Env, s: State): Flow
    requires Decodes(env, s.pc)
  {
    Exec(env, s.(pc := NextPc(env, s.pc)), OpAt(env, s.pc))
  }

  /** The loop body as a function of the state, with no value at bytes outside the model. */
  function Stepper(env: Env): State -> Option<Flow>
  {
    (s: State) => if Decodes(env, s.pc) then Some(Step(env, s)) else None
  }

  /** How far a run has come: still going, halted, or at bytes outside the model. */
  datatype Status = Running(s: State) | Halted(s: State) | Stuck(s: State)

  /** At most `n` turns of a loop. */
  function Loop(step: State -> Option<Flow>, s: State, n: nat): Status
    decreases n
  {
    if n == 0 then Running(s)
    else
      match step(s)
      case None => Stuck(s)
      case Some(Continue(s1)) => Loop(step, s1, n - 1)
      case Some(Break(s1)) => Halted(s1)
  }

  /** At most `n` turns of the interpreter loop. */
  function Run(env: Env, s: State, n: nat): Status { Loop(Stepper(env), s, n) }
}
