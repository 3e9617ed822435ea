/**
 The instructions of the Pulley virtual machine, materialised with their operands. Opcodes that
 differ only in width, comparison or operand form share a constructor.
 */
module Ops {
  import opened Words

  /** An x-register; 30 is `sp` and 31 is `spilltmp0`. */
  type Reg = r: int | 0 <= r < 32

  const SP: Reg := 30

  /** The argument registers of `call` to `call4`. */
  type Args = a: seq<Reg> | |a| <= 4

  /** An `UpperRegSet`, listed in its iteration order, which is ascending. */
  type RegSet = r: seq<Reg> | |r| <= 16

  datatype Width = W32 | W64

  datatype Cmp = Eq | Neq | SLt | SLteq | ULt | ULteq | SGt | SGteq | UGt | UGteq

  /** A second source operand: a register, or an immediate that is encoded in `size` bytes. */
  datatype Src = R(r: Reg) | I(v: int, size: nat)

  datatype Ctl =
    | Ret
    | Call(args: Args, off: int)
    | CallIndirect(dst: Reg)
    | Jump(off: int)
    | XJump(reg: Reg)
    | BrIf(cond: Reg, nonzero: bool, off: int)
    | BrCmp(w: Width, c: Cmp, a: Reg, b: Src, off: int)
    | BrTable(idx: Reg, amt: u32)

  datatype BinOp = Add | Sub | Mul | And | Or | Xor | Shl | ShrS | ShrU | Rotl | Rotr | MinU | MinS | MaxU | MaxS

  datatype UnOp = Ctz | Clz | Popcnt | Neg | Not | Abs | Bswap | Bmask

  datatype DivOp = DivS | DivU | RemS | RemU

  datatype Alu =
    | Mov(dst: Reg, src: Reg)
    | Const(dst: Reg, v: int)
    | Bin(w: Width, op: BinOp, dst: Reg, a: Reg, b: Src)
    | Un(w: Width, uop: UnOp, dst: Reg, a: Reg)
    | Madd(w: Width, dst: Reg, a: Reg, b2: Reg, c: Reg)
    | Compare(w: Width, cmp: Cmp, dst: Reg, a: Reg, b2: Reg)
    | Extend(bits: nat, signed: bool, dst: Reg, src: Reg)
    | Div(w: Width, dop: DivOp, dst: Reg, a: Reg, b2: Reg)
    | Select(w: Width, dst: Reg, cond: Reg, nz: Reg, z: Reg)
    | AddTrap(w: Width, dst: Reg, a: Reg, b2: Reg)
    | MulHi(signed: bool, dst: Reg, a: Reg, b2: Reg)
    | Add128(lo: Reg, hi: Reg, alo: Reg, ahi: Reg, blo: Reg, bhi: Reg)
    | Sub128(lo: Reg, hi: Reg, alo: Reg, ahi: Reg, blo: Reg, bhi: Reg)
    | WideMul(signed: bool, lo: Reg, hi: Reg, a: Reg, b2: Reg)

  datatype Addr =
    | O32(r: Reg, off: int)
    | Z(r: Reg, off: int)
    | G32(heap: Reg, bound: Reg, wasm: Reg, off: int)
    | G32Bne(heap: Reg, bound: Reg, boundOff: int, wasm: Reg, off: int)

  datatype LoadKind = U8 | S8 | U16 | S16 | L32 | L64

  datatype MemOp =
    | Load(k: LoadKind, dst: Reg, am: Addr)
    | Store(size: nat, am: Addr, src: Reg)

  datatype Frame =
    | PushFrame
    | PopFrame
    | PushFrameSave(amt: u16, regs: RegSet)
    | PopFrameRestore(amt: u16, regs: RegSet)
    | StackAlloc(amt32: u32)
    | StackFree(amt32: u32)

  datatype Sys =
    | Trap
    | Nop
    | CallIndirectHost(id: byte)
    | MovFp(dst: Reg)
    | MovLr(dst: Reg)

  datatype Op = CtlOp(ctl: Ctl) | AluOp(alu: Alu) | MemoryOp(mem: MemOp) | FrameOp(frame: Frame) | SysOp(sys: Sys)

  function AddrWidth(am: Addr): nat { if am.O32? || am.Z? then 5 else 4 }

  /**
   The encoded width of the instruction type that a handler names when it rewinds from the advanced
   program counter to its own first byte. Handlers that never rewind count as zero. `xdiv32_u` names
   the type of `xdiv64_u`.
   */
  function ClaimedWidth(op: Op): nat
  {
    match op
    case CtlOp(Call(args, _)) => 5 + |args|
    case CtlOp(Jump(_)) => 5
    case CtlOp(BrIf(_, _, _)) => 6
    case CtlOp(BrCmp(_, _, _, b, _)) => if b.R? then 7 else 6 + b.size
    case AluOp(Div(_, _, _, _, _)) => 3
    case AluOp(AddTrap(_, _, _, _)) => 5
    case MemoryOp(Load(_, _, am)) => 2 + AddrWidth(am)
    case MemoryOp(Store(_, am, _)) => 2 + AddrWidth(am)
    case FrameOp(PushFrame) => 1
    case FrameOp(PushFrameSave(_, _)) => 5
    case FrameOp(PopFrameRestore(_, _)) => 5
    case FrameOp(StackAlloc(_)) => 5
    case SysOp(Trap) => 3
    case _ => 0
  }
}

/** Integer operations, following section 4.3.2 of the WebAssembly Core Specification. */
module Arith {
  import opened Words
  import opened Ops

  function Bits(w: Width): nat { if w == W32 then 32 else 64 }
  function Modulus(w: Width): int { if w == W32 then 0x1_0000_0000 else 0x1_0000_0000_0000_0000 }
  function Signed(w: Width, x: int): int { if 2 * x < Modulus(w) then x else x - Modulus(w) }

  predicate Word(w: Width, x: int) { 0 <= x < Modulus(w) }

  function Pow2(n: nat): (r: nat)
    ensures r >= 1
  {
    if n == 0 then 1 else 2 * Pow2(n - 1)
  }

  lemma {:induction false} Pow2Sum(m: nat, n: nat)
    ensures Pow2(m + n) == Pow2(m) * Pow2(n)
  {
    if m != 0 {
      Pow2Sum(m - 1, n);
      var p, q := Pow2(m - 1), Pow2(n);
      assert Pow2(m + n) == 2 * Pow2(m - 1 + n);
      assert 2 * (p * q) == (2 * p) * q;
    }
  }

  lemma Pow2Bits(w: Width)
    ensures Pow2(Bits(w)) == Modulus(w)
  {
    assert Pow2(4) == 16 by { assert Pow2(2) == 4; }
    Pow2Sum(4, 4);
    assert Pow2(8) == 0x100;
    Pow2Sum(8, 8);
    assert Pow2(16) == 0x1_0000;
    Pow2Sum(16, 16);
    assert Pow2(32) == 0x1_0000_0000;
    Pow2Sum(32, 32);
  }

  function Quotient(a: nat, b: nat): (q: nat)
    requires b != 0
    ensures q <= a
  {
    QuotientBound(a, b, a / b, a % b);
    a / b
  }

  lemma QuotientBound(a: nat, b: nat, q: int, r: int)
    requires a == b * q + r && 0 <= r < b
    ensures 0 <= q <= a
  {
    if q > 0 {
      assert (b - 1) * q >= 0;
    }
  }

  /** Bit-by-bit combination of the low `n` bits. */
  function Bitwise(n: nat, op: BinOp, a: nat, b: nat): (r: nat)
    ensures r < Pow2(n)
  {
    if n == 0 then 0
    else
      var x, y := a % 2, b % 2;
      var bit := if x == y then if op == Xor then 0 else x else if op == And then 0 else 1;
      bit + 2 * Bitwise(n - 1, op, a / 2, b / 2)
  }

  function PopCount(n: nat, a: nat): (r: nat)
    ensures r <= n
  {
    if n == 0 then 0 else a % 2 + PopCount(n - 1, a / 2)
  }

  function TrailingZeros(n: nat, a: nat): (r: nat)
    ensures r <= n
  {
    if n == 0 || a % 2 == 1 then 0 else 1 + TrailingZeros(n - 1, a / 2)
  }

  function LeadingZeros(n: nat, a: nat): (r: nat)
    ensures r <= n
  {
    if n == 0 || a >= Pow2(n - 1) then 0 else 1 + LeadingZeros(n - 1, a)
  }

  function Reverse(bs: seq<byte>): (r: seq<byte>)
    ensures |r| == |bs|
  {
    if bs == [] then [] else Reverse(bs[1..]) + [bs[0]]
  }

  function RotateLeft(w: Width, a: int, k: nat): (r: int)
    requires Word(w, a) && k <= Bits(w)
  {
    (a * Pow2(k) + a / Pow2(Bits(w) - k)) % Modulus(w)
  }

  /** The two-operand operations. Shift and rotate counts are taken modulo the width. */
  function BinEval(w: Width, op: BinOp, a: int, b: int): (r: int)
    requires Word(w, a) && Word(w, b)
    ensures Word(w, r)
  {
    var m := Modulus(w);
    var k := b % Bits(w);
    match op
    case Add => (a + b) % m
    case Sub => (a - b) % m
    case Mul => (a * b) % m
    case And => Pow2Bits(w); Bitwise(Bits(w), op, a, b)
    case Or => Pow2Bits(w); Bitwise(Bits(w), op, a, b)
    case Xor => Pow2Bits(w); Bitwise(Bits(w), op, a, b)
    case Shl => (a * Pow2(k)) % m
    case ShrS => (Signed(w, a) / Pow2(k)) % m
    case ShrU => Quotient(a, Pow2(k))
    case Rotl => RotateLeft(w, a, k)
    case Rotr => RotateLeft(w, a, if k == 0 then 0 else Bits(w) - k)
    case MinU => if b < a then b else a
    case MaxU => if b < a then a else b
    case MinS => if Signed(w, b) < Signed(w, a) then b else a
    case MaxS => if Signed(w, b) < Signed(w, a) then a else b
  }

  function UnEval(w: Width, op: UnOp, a: int): (r: int)
    requires Word(w, a)
    ensures Word(w, r)
  {
    var n := Bits(w);
    var m := Modulus(w);
    match op
    case Ctz => TrailingZeros(n, a)
    case Clz => LeadingZeros(n, a)
    case Popcnt => PopCount(n, a)
    case Neg => (0 - Signed(w, a)) % m
    case Not => m - 1 - a
    case Abs => (if Signed(w, a) < 0 then 0 - Signed(w, a) else Signed(w, a)) % m
    case Bswap =>
      var bs := Reverse(LeBytes(n / 8, a));
      FromLeBound(bs); Pow256Values();
      FromLe(bs)
    case Bmask => if a == 0 then 0 else m - 1
  }

  /** A typed comparison of mathematical integers. */
  predicate CmpInts(c: Cmp, a: int, b: int)
  {
    match c
    case Eq => a == b
    case Neq => a != b
    case SLt => a < b
    case SLteq => a <= b
    case ULt => a < b
    case ULteq => a <= b
    case SGt => a > b
    case SGteq => a >= b
    case UGt => a > b
    case UGteq => a >= b
  }

  predicate IsUnsigned(c: Cmp) { c.ULt? || c.ULteq? || c.UGt? || c.UGteq? }

  predicate IsSignedOrder(c: Cmp) { c.SLt? || c.SLteq? || c.SGt? || c.SGteq? }

  /** Register against register: equality and unsigned orders read both words unsigned. */
  predicate CmpWords(w: Width, c: Cmp, a: int, b: int)
  {
    if IsSignedOrder(c) then CmpInts(c, Signed(w, a), Signed(w, b)) else CmpInts(c, a, b)
  }

  /** Register against immediate: all but the unsigned orders read the register signed. */
  predicate CmpImm(w: Width, c: Cmp, a: int, v: int)
  {
    CmpInts(c, if IsUnsigned(c) then a else Signed(w, a), v)
  }

  datatype DivResult = Quot(value: int) | DivideByZero | Overflow

  /** Division rounding toward zero. */
  function TruncDiv(a: int, b: int): int
    requires b != 0
  {
    var q := (if a < 0 then -a else a) / (if b < 0 then -b else b);
    if (a < 0) == (b < 0) then q else -q
  }

  /** `checked_div` and `checked_rem`, with the minimum value taken by -1 giving remainder zero. */
  function DivEval(w: Width, op: DivOp, a: int, b: int): (r: DivResult)
    requires Word(w, a) && Word(w, b)
    ensures r.Quot? ==> Word(w, r.value)
    ensures r.DivideByZero? <==> b == 0
    ensures r.Overflow? <==> op == DivS && 2 * a == Modulus(w) && b == Modulus(w) - 1
  {
    var m := Modulus(w);
    var x, y := Signed(w, a), Signed(w, b);
    if b == 0 then DivideByZero
    else
      match op
      case DivS => if 2 * a == m && b == m - 1 then Overflow else Quot(TruncDiv(x, y) % m)
      case DivU => Quot(Quotient(a, b))
      case RemS => if 2 * a == m && b == m - 1 then Quot(0) else Quot((x - y * TruncDiv(x, y)) % m)
      case RemU => Quot(a % b)
  }
}
