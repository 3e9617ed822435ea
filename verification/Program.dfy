/** The opcode numbering: the fields of each regular instruction, and the operation it stands for. */
module Program {
  import opened Lists
  import opened Wrappers
  import opened Words
  import opened Ops
  import opened Operands
  import opened Codec

  const REGULAR_OPS := 219
  const EXTENDED_OPS := 310
  const BR_TABLE32 := 63

  const FPcRels: List<Field> := Cons(FPcRel, Nil)
  const FBins: List<Field> := Cons(FBin, Nil)
  const FX: List<Field> := Cons(FReg, Nil)
  const FXX: List<Field> := Cons(FReg, FX)
  const FXXXX: List<Field> := Cons(FReg, Cons(FReg, FXX))

  function FImm(n: nat, signed: bool): List<Field> { Cons(FInt(n, signed), Nil) }

  function FXXImm(n: nat, signed: bool): List<Field> { Cons(FReg, Cons(FReg, FImm(n, signed))) }

  function ControlFields(code: nat): List<Field>
  {
    if code == 0 then Nil
    else if code == 1 || code == 7 then FPcRels
    else if code == 2 then Cons(FReg, FPcRels)
    else if code == 3 then Cons(FReg, Cons(FReg, FPcRels))
    else if code == 4 then Cons(FReg, Cons(FReg, Cons(FReg, FPcRels)))
    else if code == 5 then Cons(FReg, Cons(FReg, Cons(FReg, Cons(FReg, FPcRels))))
    else if code == 6 || code == 8 then FX
    else if code <= 10 then Cons(FReg, FPcRels)
    else if code <= 22 then Cons(FReg, Cons(FReg, FPcRels))
    else if code < BR_TABLE32 then
      var k := (code - 23) % 20;
      Cons(FReg, Cons(FInt(if k % 2 == 0 then 1 else 4, k < 12), FPcRels))
    else Cons(FReg, FImm(4, false))
  }

  /** The three forms of an operation: two registers, a one-byte and a four-byte immediate. */
  function FormFields(k: nat, signed: bool): List<Field>
  {
    if k == 0 then FBins else FXXImm(if k == 1 then 1 else 4, signed)
  }

  function AluFields(code: nat): List<Field>
  {
    if code == 64 then FXX
    else if code <= 66 then FX
    else if code == 67 then Cons(FReg, FImm(1, true))
    else if code == 68 then Cons(FReg, FImm(2, true))
    else if code == 69 then Cons(FReg, FImm(4, true))
    else if code == 70 then Cons(FReg, FImm(8, true))
    else if code <= 76 then FormFields((code - 71) % 3, false)
    else if code <= 78 then FXXXX
    else if code <= 84 then FormFields((code - 79) % 3, false)
    else if code <= 90 then FormFields((code - 85) % 3, true)
    else if code <= 96 then FXX
    else if code <= 106 then FBins
    else if code <= 112 then Cons(FBinU6, Nil)
    else if code <= 114 then FXX
    else FBins
  }

  function MemoryFields(code: nat): List<Field>
  {
    var mode, k := (code - 127) / 10, (code - 127) % 10;
    var am := if mode < 2 then Cons(FReg, FImm(4, true)) else if mode == 2 then Cons(FG32, Nil) else Cons(FG32Bne, Nil);
    if k < 6 then Cons(FReg, am)
    else if mode < 2 then Cons(FReg, Cons(FInt(4, true), FX))
    else Cons(am.head, FX)
  }

  function FrameFields(code: nat): List<Field>
  {
    if code <= 168 then Nil
    else if code <= 170 then Cons(FInt(2, false), Cons(FRegs, Nil))
    else FImm(4, false)
  }

  function LogicFields(code: nat): List<Field>
  {
    if code <= 180 then FXX
    else if code <= 188 then FBins
    else if code <= 206 then FormFields((code - 189) % 3, true)
    else if code <= 208 then FXX
    else if code <= 216 then FBins
    else FXXXX
  }

  function RegularFields(code: nat): List<Field>
  {
    if code <= BR_TABLE32 then ControlFields(code)
    else if code <= 126 then AluFields(code)
    else if code <= 166 then MemoryFields(code)
    else if code <= 172 then FrameFields(code)
    else LogicFields(code)
  }

  /** An operation table with Pulley's regular opcodes. */
  ghost predicate Pulley(isa: Isa)
  {
    && |isa.ops| == REGULAR_OPS && |isa.ext| == EXTENDED_OPS && isa.brTable == BR_TABLE32
    && forall code :: 0 <= code < REGULAR_OPS ==> isa.ops[code] == RegularFields(code)
  }

  // ----- From decoded instructions to operations -----

  function OrderedCmp(k: nat): Cmp
  {
    if k == 0 then Eq else if k == 1 then Neq else if k == 2 then SLt
    else if k == 3 then SLteq else if k == 4 then ULt else ULteq
  }

  function ImmCmp(k: nat): Cmp
  {
    if k == 0 then Eq else if k == 1 then Neq else if k == 2 then SLt else if k == 3 then SGt
    else if k == 4 then SLteq else if k == 5 then SGteq else if k == 6 then ULt
    else if k == 7 then ULteq else if k == 8 then UGt else UGteq
  }

  function WidthIf(narrow: bool): Width { if narrow then W32 else W64 }

  function LowerCall(code: nat, args: List<Operand>): Option<Ctl>
  {
    match args
    case Cons(PcRelArg(off), Nil) => if code == 1 then Some(Call([], off)) else None
    case Cons(RegArg(a), Cons(PcRelArg(off), Nil)) => if code == 2 then Some(Call([a], off)) else None
    case Cons(RegArg(a), Cons(RegArg(b), Cons(PcRelArg(off), Nil))) =>
      if code == 3 then Some(Call([a, b], off)) else None
    case Cons(RegArg(a), Cons(RegArg(b), Cons(RegArg(c), Cons(PcRelArg(off), Nil)))) =>
      if code == 4 then Some(Call([a, b, c], off)) else None
    case Cons(RegArg(a), Cons(RegArg(b), Cons(RegArg(c), Cons(RegArg(d), Cons(PcRelArg(off), Nil))))) =>
      if code == 5 then Some(Call([a, b, c, d], off)) else None
    case _ => None
  }

  function LowerBranch(code: nat, args: List<Operand>): Option<Ctl>
  {
    match args
    case Cons(RegArg(c), Cons(PcRelArg(off), Nil)) =>
      if code == 9 || code == 10 then Some(BrIf(c, code == 9, off)) else None
    case Cons(RegArg(a), Cons(RegArg(b), Cons(PcRelArg(off), Nil))) =>
      if 11 <= code <= 22 then Some(BrCmp(WidthIf(code <= 16), OrderedCmp((code - 11) % 6), a, R(b), off)) else None
    case Cons(RegArg(a), Cons(IntArg(n, _, v), Cons(PcRelArg(off), Nil))) =>
      if 23 <= code <= 62
      then Some(BrCmp(WidthIf(code <= 42), ImmCmp((code - 23) % 20 / 2), a, I(v, n), off)) else None
    case _ => None
  }

  function LowerJump(code: nat, args: List<Operand>): Option<Ctl>
  {
    match args
    case Nil => if code == 0 then Some(Ret) else None
    case Cons(RegArg(r), Nil) =>
      if code == 6 then Some(CallIndirect(r)) else if code == 8 then Some(XJump(r)) else None
    case Cons(PcRelArg(off), Nil) => if code == 7 then Some(Jump(off)) else None
    case Cons(RegArg(r), Cons(IntArg(4, false, amt), Nil)) =>
      if code == BR_TABLE32 && 0 <= amt < B32 then Some(BrTable(r, amt)) else None
    case _ => None
  }

  function LowerControl(code: nat, args: List<Operand>): Option<Ctl>
  {
    if 1 <= code <= 5 then LowerCall(code, args)
    else if 9 <= code <= 62 then LowerBranch(code, args)
    else LowerJump(code, args)
  }

  function ShiftOp(k: nat): BinOp { if k == 0 then Shl else if k == 1 then ShrS else ShrU }

  function FormOp(code: nat): (Width, BinOp)
  {
    if code <= 76 then (WidthIf(code <= 73), Add)
    else if code <= 84 then (WidthIf(code <= 81), Sub)
    else if code <= 90 then (WidthIf(code <= 87), Mul)
    else if code <= 194 then (WidthIf(code <= 191), And)
    else if code <= 200 then (WidthIf(code <= 197), Or)
    else (WidthIf(code <= 203), Xor)
  }

  predicate IsForm(code: nat) { 71 <= code <= 76 || 79 <= code <= 90 || 189 <= code <= 206 }

  function LowerBin(code: nat, d: Reg, a: Reg, b: Reg): Option<Alu>
  {
    if IsForm(code) then Some(Bin(FormOp(code).0, FormOp(code).1, d, a, R(b)))
    else if 97 <= code <= 100 then
      Some(Bin(WidthIf(code % 2 == 1), if code <= 98 then Rotl else Rotr, d, a, R(b)))
    else if 101 <= code <= 106 then Some(Bin(WidthIf(code <= 103), ShiftOp((code - 101) % 3), d, a, R(b)))
    else if 115 <= code <= 126 then Some(Compare(WidthIf(code >= 121), OrderedCmp((code - 115) % 6), d, a, b))
    else if 181 <= code <= 188 then
      Some(Div(WidthIf(code % 2 == 1),
               if code <= 182 then DivS else if code <= 184 then DivU else if code <= 186 then RemS else RemU, d, a, b))
    else if 209 <= code <= 216 then
      var k := (code - 209) % 4;
      Some(Bin(WidthIf(code <= 212), if k == 0 then MinU else if k == 1 then MinS else if k == 2 then MaxU else MaxS,
               d, a, R(b)))
    else None
  }

  function LowerUn(code: nat, d: Reg, a: Reg): Option<Alu>
  {
    if code == 64 then Some(Mov(d, a))
    else if 91 <= code <= 96 then
      Some(Un(WidthIf(code % 2 == 1), if code <= 92 then Ctz else if code <= 94 then Clz else Popcnt, d, a))
    else if code == 113 || code == 114 then Some(Un(WidthIf(code == 113), Neg, d, a))
    else if 173 <= code <= 178 then
      var k := (code - 173) % 3;
      Some(Extend(if k == 0 then 8 else if k == 1 then 16 else 32, code >= 176, d, a))
    else if code == 179 || code == 180 then Some(Un(WidthIf(code == 179), Abs, d, a))
    else if code == 207 || code == 208 then Some(Un(WidthIf(code == 207), Not, d, a))
    else None
  }

  function LowerAlu(code: nat, args: List<Operand>): Option<Alu>
  {
    match args
    case Cons(BinArg(d, a, b), Nil) => LowerBin(code, d, a, b)
    case Cons(BinU6Arg(d, a, imm), Nil) =>
      if 107 <= code <= 112 then Some(Bin(WidthIf(code <= 109), ShiftOp((code - 107) % 3), d, a, I(imm, 1))) else None
    case Cons(RegArg(d), Nil) => if code == 65 || code == 66 then Some(Const(d, code - 65)) else None
    case Cons(RegArg(d), Cons(IntArg(_, _, v), Nil)) => if 67 <= code <= 70 then Some(Const(d, v)) else None
    case Cons(RegArg(d), Cons(RegArg(a), Nil)) => LowerUn(code, d, a)
    case Cons(RegArg(d), Cons(RegArg(a), Cons(IntArg(n, _, v), Nil))) =>
      if IsForm(code) then Some(Bin(FormOp(code).0, FormOp(code).1, d, a, I(v, n))) else None
    case Cons(RegArg(d), Cons(RegArg(a), Cons(RegArg(b), Cons(RegArg(c), Nil)))) =>
      if code == 77 || code == 78 then Some(Madd(WidthIf(code == 77), d, a, b, c))
      else if code == 217 || code == 218 then Some(Select(WidthIf(code == 217), d, a, b, c))
      else None
    case _ => None
  }

  function LoadOf(k: nat): LoadKind
  {
    if k == 0 then U8 else if k == 1 then S8 else if k == 2 then U16
    else if k == 3 then S16 else if k == 4 then L32 else L64
  }

  function StoreSize(k: nat): nat { if k == 6 then 1 else if k == 7 then 2 else if k == 8 then 4 else 8 }

  function OffsetAddr(mode: int, r: Reg, off: int): Addr { if mode == 0 then O32(r, off) else Z(r, off) }

  function LowerMemory(code: nat, args: List<Operand>): Option<MemOp>
    requires 127 <= code
  {
    var mode, k := (code - 127) / 10, (code - 127) % 10;
    match args
    case Cons(RegArg(d), Cons(RegArg(r), Cons(IntArg(4, true, off), Nil))) =>
      if mode < 2 && k < 6 then Some(Load(LoadOf(k), d, OffsetAddr(mode, r, off))) else None
    case Cons(RegArg(r), Cons(IntArg(4, true, off), Cons(RegArg(src), Nil))) =>
      if mode < 2 && 6 <= k then Some(Store(StoreSize(k), OffsetAddr(mode, r, off), src)) else None
    case Cons(RegArg(d), Cons(G32Arg(h, b, w, off), Nil)) =>
      if mode == 2 && k < 6 then Some(Load(LoadOf(k), d, G32(h, b, w, off))) else None
    case Cons(G32Arg(h, b, w, off), Cons(RegArg(src), Nil)) =>
      if mode == 2 && 6 <= k then Some(Store(StoreSize(k), G32(h, b, w, off), src)) else None
    case Cons(RegArg(d), Cons(G32BneArg(h, b, w, boundOff, off), Nil)) =>
      if mode == 3 && k < 6 then Some(Load(LoadOf(k), d, G32Bne(h, b, boundOff, w, off))) else None
    case Cons(G32BneArg(h, b, w, boundOff, off), Cons(RegArg(src), Nil)) =>
      if mode == 3 && 6 <= k then Some(Store(StoreSize(k), G32Bne(h, b, boundOff, w, off), src)) else None
    case _ => None
  }

  function LowerFrame(code: nat, args: List<Operand>): Option<Frame>
  {
    match args
    case Nil => if code == 167 then Some(PushFrame) else if code == 168 then Some(PopFrame) else None
    case Cons(IntArg(2, false, amt), Cons(RegsArg(bits), Nil)) =>
      if !(0 <= amt < 0x1_0000) then None
      else if code == 169 then Some(PushFrameSave(amt, RegsFrom(bits, 16)))
      else if code == 170 then Some(PopFrameRestore(amt, RegsFrom(bits, 16)))
      else None
    case Cons(IntArg(4, false, amt), Nil) =>
      if !(0 <= amt < B32) then None
      else if code == 171 then Some(StackAlloc(amt))
      else if code == 172 then Some(StackFree(amt))
      else None
    case _ => None
  }

  function LowerExtendedAlu(code: nat, args: List<Operand>): Option<Alu>
  {
    match args
    case Cons(RegArg(d), Cons(RegArg(a), Nil)) =>
      if code == 5 || code == 6 then Some(Un(WidthIf(code == 5), Bswap, d, a))
      else if code == 11 || code == 12 then Some(Un(WidthIf(code == 11), Bmask, d, a))
      else None
    case Cons(BinArg(d, a, b), Nil) =>
      if code == 7 || code == 8 then Some(AddTrap(WidthIf(code == 7), d, a, b))
      else if code == 9 || code == 10 then Some(MulHi(code == 9, d, a, b))
      else None
    case Cons(RegArg(lo), Cons(RegArg(hi), Cons(RegArg(a), Cons(RegArg(b), Nil)))) =>
      if code == 308 || code == 309 then Some(WideMul(code == 308, lo, hi, a, b)) else None
    case Cons(RegArg(lo), Cons(RegArg(hi), Cons(RegArg(a), Cons(RegArg(b), Cons(RegArg(c), Cons(RegArg(d), Nil)))))) =>
      if code == 306 then Some(Add128(lo, hi, a, b, c, d))
      else if code == 307 then Some(Sub128(lo, hi, a, b, c, d))
      else None
    case _ => None
  }

  function LowerSys(code: nat, args: List<Operand>): Option<Sys>
  {
    match args
    case Nil => if code == 0 then Some(Trap) else if code == 1 then Some(Nop) else None
    case Cons(IntArg(1, false, id), Nil) =>
      if code == 2 && 0 <= id < 256 then Some(CallIndirectHost(id)) else None
    case Cons(RegArg(d), Nil) => if code == 3 then Some(MovFp(d)) else if code == 4 then Some(MovLr(d)) else None
    case _ => None
  }

  function AsOp<T>(o: Option<T>, wrap: T -> Op): Option<Op> { if o.Some? then Some(wrap(o.value)) else None }

  /** The modelled operation that a decoded instruction is dispatched to. */
  function Lower(i: Instr): Option<Op>
  {
    if i.ext then
      if i.code <= 4 then AsOp(LowerSys(i.code, i.args), y => SysOp(y))
      else AsOp(LowerExtendedAlu(i.code, i.args), a => AluOp(a))
    else if i.code <= BR_TABLE32 then AsOp(LowerControl(i.code, i.args), c => CtlOp(c))
    else if 127 <= i.code <= 166 then AsOp(LowerMemory(i.code, i.args), m => MemoryOp(m))
    else if 167 <= i.code <= 172 then AsOp(LowerFrame(i.code, i.args), f => FrameOp(f))
    else AsOp(LowerAlu(i.code, i.args), a => AluOp(a))
  }

  // ----- Widths -----

  /** The encoded width of an operation whose handler rewinds by `ClaimedWidth`. */
  predicate WidthFits(op: Op, ext: bool, args: List<Operand>)
  {
    ClaimedWidth(op) == 0 || ClaimedWidth(op) == EncodedWidth(ext, Fields(args))
  }

  lemma {:induction false} FieldsCons(args: List<Operand>)
    requires args.Cons?
    ensures Fields(args) == Cons(FieldOf(args.head), Fields(args.tail))
    ensures FieldsWidth(Fields(args)) == FieldWidth(FieldOf(args.head)) + FieldsWidth(Fields(args.tail))
  {
  }

  lemma CallWidth(code: nat, args: List<Operand>)
    requires LowerCall(code, args).Some?
    ensures WidthFits(CtlOp(LowerCall(code, args).value), false, args)
  {
    FieldsCons(args);
    if code > 1 {
      FieldsCons(args.tail);
      if code > 2 {
        FieldsCons(args.tail.tail);
        if code > 3 {
          FieldsCons(args.tail.tail.tail);
          if code > 4 { FieldsCons(args.tail.tail.tail.tail); }
        }
      }
    }
  }

  lemma ControlWidth(code: nat, args: List<Operand>)
    requires LowerControl(code, args).Some?
    ensures WidthFits(CtlOp(LowerControl(code, args).value), false, args)
  {
    if 1 <= code <= 5 {
      CallWidth(code, args);
    } else if args.Cons? {
      FieldsCons(args);
      if args.tail.Cons? { FieldsCons(args.tail); }
    }
  }

  lemma MemoryWidth(code: nat, args: List<Operand>)
    requires 127 <= code && LowerMemory(code, args).Some?
    ensures WidthFits(MemoryOp(LowerMemory(code, args).value), false, args)
  {
    FieldsCons(args);
    FieldsCons(args.tail);
  }

  lemma AluWidth(code: nat, args: List<Operand>)
    requires LowerAlu(code, args).Some?
    ensures WidthFits(AluOp(LowerAlu(code, args).value), false, args)
  {
    FieldsCons(args);
  }

  lemma FrameWidth(code: nat, args: List<Operand>)
    requires LowerFrame(code, args).Some?
    ensures WidthFits(FrameOp(LowerFrame(code, args).value), false, args)
  {
    if args.Cons? { FieldsCons(args); }
  }

  lemma ExtendedWidth(code: nat, args: List<Operand>)
    ensures LowerExtendedAlu(code, args).Some? ==> WidthFits(AluOp(LowerExtendedAlu(code, args).value), true, args)
    ensures LowerSys(code, args).Some? ==> WidthFits(SysOp(LowerSys(code, args).value), true, args)
  {
    if args.Cons? { FieldsCons(args); }
  }

  /** Dispatch as a value: proofs about programs need not look inside. */
  function Lowering(): Instr -> Option<Op> { (i: Instr) => Lower(i) }

  /**
   Whatever an instruction is dispatched to, a handler that rewinds does so by the width that was
   decoded; `xdiv32_u` by the width of the other instruction it names.
   */
  lemma LowerWidth(i: Instr)
    requires Lower(i).Some?
    ensures WidthFits(Lower(i).value, i.ext, i.args)
  {
    if i.ext {
      ExtendedWidth(i.code, i.args);
    } else if i.code <= BR_TABLE32 {
      ControlWidth(i.code, i.args);
    } else if 127 <= i.code <= 166 {
      MemoryWidth(i.code, i.args);
    } else if 167 <= i.code <= 172 {
      FrameWidth(i.code, i.args);
    } else {
      AluWidth(i.code, i.args);
    }
  }

  // ----- Every regular opcode has an operation -----

  lemma {:induction false} FieldShape(args: List<Operand>, fs: List<Field>)
    requires Fields(args) == fs
    ensures args.Nil? <==> fs.Nil?
    ensures fs.Cons? ==> FieldOf(args.head) == fs.head && Fields(args.tail) == fs.tail
  {
  }

  lemma {:induction false} FieldShapes(args: List<Operand>, fs: List<Field>)
    requires Fields(args) == fs
    ensures args.Nil? <==> fs.Nil?
    ensures fs.Cons? ==> FieldOf(args.head) == fs.head && (args.tail.Nil? <==> fs.tail.Nil?)
    ensures fs.Cons? && fs.tail.Cons? ==>
              FieldOf(args.tail.head) == fs.tail.head && Fields(args.tail.tail) == fs.tail.tail
  {
    FieldShape(args, fs);
    if fs.Cons? { FieldShape(args.tail, fs.tail); }
  }

  lemma {:induction false} FourFieldShapes(args: List<Operand>, fs: List<Field>)
    requires Fields(args) == fs && fs.Cons? && fs.tail.Cons?
    ensures args.Cons? && args.tail.Cons?
    ensures FieldOf(args.head) == fs.head && FieldOf(args.tail.head) == fs.tail.head
    ensures var args', fs' := args.tail.tail, fs.tail.tail;
            && (args'.Nil? <==> fs'.Nil?)
            && (fs'.Cons? ==> FieldOf(args'.head) == fs'.head && (args'.tail.Nil? <==> fs'.tail.Nil?))
            && (fs'.Cons? && fs'.tail.Cons? ==>
                  FieldOf(args'.tail.head) == fs'.tail.head && Fields(args'.tail.tail) == fs'.tail.tail)
  {
    FieldShapes(args, fs);
    FieldShapes(args.tail.tail, fs.tail.tail);
  }

  lemma {:induction false} ControlLowers(code: nat, args: List<Operand>)
    requires code <= BR_TABLE32 && Fields(args) == ControlFields(code) && ArgsOk(args)
    ensures LowerControl(code, args).Some?
  {
    Pow256Values();
    var fs := ControlFields(code);
    FieldShapes(args, fs);
    if fs.Cons? && fs.tail.Cons? {
      FourFieldShapes(args, fs);
      if fs.tail.tail.Cons? && fs.tail.tail.tail.Cons? {
        FieldShapes(args.tail.tail.tail.tail, fs.tail.tail.tail.tail);
      }
    }
  }

  lemma {:induction false} AluLowers(code: nat, args: List<Operand>)
    requires BR_TABLE32 < code <= 126 && Fields(args) == AluFields(code)
    ensures LowerAlu(code, args).Some?
  {
    var fs := AluFields(code);
    FieldShapes(args, fs);
    if fs.tail.Cons? {
      FourFieldShapes(args, fs);
      if fs.tail.tail.Cons? && fs.tail.tail.tail.Cons? { FieldShape(args.tail.tail.tail.tail, Nil); }
    }
  }

  lemma {:induction false} LogicLowers(code: nat, args: List<Operand>)
    requires 172 < code < REGULAR_OPS && Fields(args) == LogicFields(code)
    ensures LowerAlu(code, args).Some?
  {
    var fs := LogicFields(code);
    FieldShapes(args, fs);
    if fs.tail.Cons? {
      FourFieldShapes(args, fs);
      if fs.tail.tail.Cons? && fs.tail.tail.tail.Cons? { FieldShape(args.tail.tail.tail.tail, Nil); }
    }
  }

  lemma {:induction false} MemoryLowers(code: nat, args: List<Operand>)
    requires 127 <= code <= 166 && Fields(args) == MemoryFields(code)
    ensures LowerMemory(code, args).Some?
  {
    FourFieldShapes(args, MemoryFields(code));
  }

  lemma {:induction false} FrameLowers(code: nat, args: List<Operand>)
    requires 167 <= code <= 172 && Fields(args) == FrameFields(code) && ArgsOk(args)
    ensures LowerFrame(code, args).Some?
  {
    Pow256Values();
    FieldShapes(args, FrameFields(code));
  }

  /** No regular instruction is left without an operation. */
  lemma RegularLowers(isa: Isa, i: Instr)
    requires Pulley(isa) && InstrOk(isa, i) && !i.ext
    ensures Lower(i).Some?
  {
    if i.code <= BR_TABLE32 {
      ControlLowers(i.code, i.args);
    } else if i.code <= 126 {
      AluLowers(i.code, i.args);
    } else if i.code <= 166 {
      MemoryLowers(i.code, i.args);
    } else if i.code <= 172 {
      FrameLowers(i.code, i.args);
    } else {
      LogicLowers(i.code, i.args);
    }
  }

  /** The word after the last extended opcode, which is accepted without being one, and the word after that. */
  lemma {:induction false} UndefinedWord(isa: Isa)
    requires Pulley(isa)
    ensures DecodeInstr(isa, SliceDecoder([219, 0x36, 0x01]), 0) == Undefined(3)
    ensures DecodeInstr(isa, SliceDecoder([219, 0x37, 0x01]), 0) == Err(InvalidExtendedOpcode(3, 311), 3)
  {
    WordAfter(isa, 0x36);
    WordAfter(isa, 0x37);
  }

  lemma {:induction false} WordAfter(isa: Isa, low: byte)
    requires Pulley(isa)
    ensures var bs, d := [219, low, 0x01], DecodeInstr(isa, SliceDecoder([219, low, 0x01]), 0);
            && (low == 0x36 ==> d == Undefined(3))
            && (low > 0x36 ==> d == Err(InvalidExtendedOpcode(3, 0x100 + low), 3))
  {
    var bs: seq<byte> := [219, low, 0x01];
    assert DecodeInstr(isa, SliceDecoder(bs), 0) == DecodeOne(isa, SliceDecoder(bs), 0);
    WordBytes(low);
    OpcodeOutcomes(isa, bs, 0);
  }

  lemma {:induction false} WordBytes(low: byte)
    ensures var bs: seq<byte> := [219, low, 0x01]; FromLe(bs[1..3]) == 0x100 + low
  {
    var bs: seq<byte> := [219, low, 0x01];
    var word: seq<byte> := [low, 0x01];
    assert |bs[1..3]| == 2 && bs[1..3][0] == low && bs[1..3][1] == 0x01;
    assert bs[1..3] == word;
    assert FromLeAt(word, 2) == 0 && FromLeAt(word, 1) == 1;
  }
}
