/**
 Which operation each opcode stands for, by the names of the operation list. The number of an opcode
 is its place in the list.
 */
module Opcodes {
  import opened Lists
  import opened Wrappers
  import opened Words
  import opened Ops
  import opened Operands
  import opened Codec
  import opened Program

  // ----- Regular opcodes -----

  const RET := 0
  const CALL := 1
  const CALL1 := 2
  const CALL2 := 3
  const CALL3 := 4
  const CALL4 := 5
  const CALL_INDIRECT := 6
  const JUMP := 7
  const XJUMP := 8
  const BR_IF32 := 9
  const BR_IF_NOT32 := 10
  const BR_IF_XEQ32 := 11
  const BR_IF_XNEQ32 := 12
  const BR_IF_XSLT32 := 13
  const BR_IF_XSLTEQ32 := 14
  const BR_IF_XULT32 := 15
  const BR_IF_XULTEQ32 := 16
  const BR_IF_XEQ64 := 17
  const BR_IF_XNEQ64 := 18
  const BR_IF_XSLT64 := 19
  const BR_IF_XSLTEQ64 := 20
  const BR_IF_XULT64 := 21
  const BR_IF_XULTEQ64 := 22
  const BR_IF_XEQ32_I8 := 23
  const BR_IF_XEQ32_I32 := 24
  const BR_IF_XNEQ32_I8 := 25
  const BR_IF_XNEQ32_I32 := 26
  const BR_IF_XSLT32_I8 := 27
  const BR_IF_XSLT32_I32 := 28
  const BR_IF_XSGT32_I8 := 29
  const BR_IF_XSGT32_I32 := 30
  const BR_IF_XSLTEQ32_I8 := 31
  const BR_IF_XSLTEQ32_I32 := 32
  const BR_IF_XSGTEQ32_I8 := 33
  const BR_IF_XSGTEQ32_I32 := 34
  const BR_IF_XULT32_U8 := 35
  const BR_IF_XULT32_U32 := 36
  const BR_IF_XULTEQ32_U8 := 37
  const BR_IF_XULTEQ32_U32 := 38
  const BR_IF_XUGT32_U8 := 39
  const BR_IF_XUGT32_U32 := 40
  const BR_IF_XUGTEQ32_U8 := 41
  const BR_IF_XUGTEQ32_U32 := 42
  const BR_IF_XEQ64_I8 := 43
  const BR_IF_XEQ64_I32 := 44
  const BR_IF_XNEQ64_I8 := 45
  const BR_IF_XNEQ64_I32 := 46
  const BR_IF_XSLT64_I8 := 47
  const BR_IF_XSLT64_I32 := 48
  const BR_IF_XSGT64_I8 := 49
  const BR_IF_XSGT64_I32 := 50
  const BR_IF_XSLTEQ64_I8 := 51
  const BR_IF_XSLTEQ64_I32 := 52
  const BR_IF_XSGTEQ64_I8 := 53
  const BR_IF_XSGTEQ64_I32 := 54
  const BR_IF_XULT64_U8 := 55
  const BR_IF_XULT64_U32 := 56
  const BR_IF_XULTEQ64_U8 := 57
  const BR_IF_XULTEQ64_U32 := 58
  const BR_IF_XUGT64_U8 := 59
  const BR_IF_XUGT64_U32 := 60
  const BR_IF_XUGTEQ64_U8 := 61
  const BR_IF_XUGTEQ64_U32 := 62
  const XMOV := 64
  const XZERO := 65
  const XONE := 66
  const XCONST8 := 67
  const XCONST16 := 68
  const XCONST32 := 69
  const XCONST64 := 70
  const XADD32 := 71
  const XADD32_U8 := 72
  const XADD32_U32 := 73
  const XADD64 := 74
  const XADD64_U8 := 75
  const XADD64_U32 := 76
  const XMADD32 := 77
  const XMADD64 := 78
  const XSUB32 := 79
  const XSUB32_U8 := 80
  const XSUB32_U32 := 81
  const XSUB64 := 82
  const XSUB64_U8 := 83
  const XSUB64_U32 := 84
  const XMUL32 := 85
  const XMUL32_S8 := 86
  const XMUL32_S32 := 87
  const XMUL64 := 88
  const XMUL64_S8 := 89
  const XMUL64_S32 := 90
  const XCTZ32 := 91
  const XCTZ64 := 92
  const XCLZ32 := 93
  const XCLZ64 := 94
  const XPOPCNT32 := 95
  const XPOPCNT64 := 96
  const XROTL32 := 97
  const XROTL64 := 98
  const XROTR32 := 99
  const XROTR64 := 100
  const XSHL32 := 101
  const XSHR32_S := 102
  const XSHR32_U := 103
  const XSHL64 := 104
  const XSHR64_S := 105
  const XSHR64_U := 106
  const XSHL32_U6 := 107
  const XSHR32_S_U6 := 108
  const XSHR32_U_U6 := 109
  const XSHL64_U6 := 110
  const XSHR64_S_U6 := 111
  const XSHR64_U_U6 := 112
  const XNEG32 := 113
  const XNEG64 := 114
  const XEQ64 := 115
  const XNEQ64 := 116
  const XSLT64 := 117
  const XSLTEQ64 := 118
  const XULT64 := 119
  const XULTEQ64 := 120
  const XEQ32 := 121
  const XNEQ32 := 122
  const XSLT32 := 123
  const XSLTEQ32 := 124
  const XULT32 := 125
  const XULTEQ32 := 126
  const XLOAD8_U32_O32 := 127
  const XLOAD8_S32_O32 := 128
  const XLOAD16LE_U32_O32 := 129
  const XLOAD16LE_S32_O32 := 130
  const XLOAD32LE_O32 := 131
  const XLOAD64LE_O32 := 132
  const XSTORE8_O32 := 133
  const XSTORE16LE_O32 := 134
  const XSTORE32LE_O32 := 135
  const XSTORE64LE_O32 := 136
  const XLOAD8_U32_Z := 137
  const XLOAD8_S32_Z := 138
  const XLOAD16LE_U32_Z := 139
  const XLOAD16LE_S32_Z := 140
  const XLOAD32LE_Z := 141
  const XLOAD64LE_Z := 142
  const XSTORE8_Z := 143
  const XSTORE16LE_Z := 144
  const XSTORE32LE_Z := 145
  const XSTORE64LE_Z := 146
  const XLOAD8_U32_G32 := 147
  const XLOAD8_S32_G32 := 148
  const XLOAD16LE_U32_G32 := 149
  const XLOAD16LE_S32_G32 := 150
  const XLOAD32LE_G32 := 151
  const XLOAD64LE_G32 := 152
  const XSTORE8_G32 := 153
  const XSTORE16LE_G32 := 154
  const XSTORE32LE_G32 := 155
  const XSTORE64LE_G32 := 156
  const XLOAD8_U32_G32BNE := 157
  const XLOAD8_S32_G32BNE := 158
  const XLOAD16LE_U32_G32BNE := 159
  const XLOAD16LE_S32_G32BNE := 160
  const XLOAD32LE_G32BNE := 161
  const XLOAD64LE_G32BNE := 162
  const XSTORE8_G32BNE := 163
  const XSTORE16LE_G32BNE := 164
  const XSTORE32LE_G32BNE := 165
  const XSTORE64LE_G32BNE := 166
  const PUSH_FRAME := 167
  const POP_FRAME := 168
  const PUSH_FRAME_SAVE := 169
  const POP_FRAME_RESTORE := 170
  const STACK_ALLOC32 := 171
  const STACK_FREE32 := 172
  const ZEXT8 := 173
  const ZEXT16 := 174
  const ZEXT32 := 175
  const SEXT8 := 176
  const SEXT16 := 177
  const SEXT32 := 178
  const XABS32 := 179
  const XABS64 := 180
  const XDIV32_S := 181
  const XDIV64_S := 182
  const XDIV32_U := 183
  const XDIV64_U := 184
  const XREM32_S := 185
  const XREM64_S := 186
  const XREM32_U := 187
  const XREM64_U := 188
  const XBAND32 := 189
  const XBAND32_S8 := 190
  const XBAND32_S32 := 191
  const XBAND64 := 192
  const XBAND64_S8 := 193
  const XBAND64_S32 := 194
  const XBOR32 := 195
  const XBOR32_S8 := 196
  const XBOR32_S32 := 197
  const XBOR64 := 198
  const XBOR64_S8 := 199
  const XBOR64_S32 := 200
  const XBXOR32 := 201
  const XBXOR32_S8 := 202
  const XBXOR32_S32 := 203
  const XBXOR64 := 204
  const XBXOR64_S8 := 205
  const XBXOR64_S32 := 206
  const XBNOT32 := 207
  const XBNOT64 := 208
  const XMIN32_U := 209
  const XMIN32_S := 210
  const XMAX32_U := 211
  const XMAX32_S := 212
  const XMIN64_U := 213
  const XMIN64_S := 214
  const XMAX64_U := 215
  const XMAX64_S := 216
  const XSELECT32 := 217
  const XSELECT64 := 218

  // ----- Extended opcodes -----

  const TRAP := 0
  const NOP := 1
  const CALL_INDIRECT_HOST := 2
  const XMOV_FP := 3
  const XMOV_LR := 4
  const BSWAP32 := 5
  const BSWAP64 := 6
  const XADD32_UOVERFLOW_TRAP := 7
  const XADD64_UOVERFLOW_TRAP := 8
  const XMULHI64_S := 9
  const XMULHI64_U := 10
  const XBMASK32 := 11
  const XBMASK64 := 12
  const XADD128 := 306
  const XSUB128 := 307
  const XWIDEMUL64_S := 308
  const XWIDEMUL64_U := 309

  // ----- Operands -----

  function One(a: Reg): List<Operand> { Cons(RegArg(a), Nil) }

  function Two(d: Reg, a: Reg): List<Operand> { Cons(RegArg(d), One(a)) }

  function Four(d: Reg, a: Reg, b: Reg, c: Reg): List<Operand> { Cons(RegArg(d), Cons(RegArg(a), Two(b, c))) }

  function Three(d: Reg, a: Reg, b: Reg): List<Operand> { Cons(BinArg(d, a, b), Nil) }

  function TwoImm(d: Reg, a: Reg, n: nat, signed: bool, v: int): List<Operand>
  {
    Cons(RegArg(d), Cons(RegArg(a), Cons(IntArg(n, signed, v), Nil)))
  }

  function CmpArgs(a: Reg, b: Reg, off: int): List<Operand>
  {
    Cons(RegArg(a), Cons(RegArg(b), Cons(PcRelArg(off), Nil)))
  }

  function CmpImmArgs(a: Reg, n: nat, signed: bool, v: int, off: int): List<Operand>
  {
    Cons(RegArg(a), Cons(IntArg(n, signed, v), Cons(PcRelArg(off), Nil)))
  }

  const FCmp: List<Field> := Cons(FReg, Cons(FReg, FPcRels))

  function FCmpImm(n: nat, signed: bool): List<Field> { Cons(FReg, Cons(FInt(n, signed), FPcRels)) }

  /** The opcode has fields of these types, and with such operands it stands for this operation. */
  predicate Is(code: nat, fs: List<Field>, args: List<Operand>, op: Op)
  {
    RegularFields(code) == fs && Lower(Instr(false, code, args)) == Some(op)
  }

  predicate IsExtended(code: nat, args: List<Operand>, op: Op) { Lower(Instr(true, code, args)) == Some(op) }

  // ----- What they stand for -----

  /** Returns, calls, jumps, and branches on a register. */
  lemma ControlOpcodes(a: Reg, b: Reg, c: Reg, d: Reg, off: int, amt: u32)
    ensures Is(RET, Nil, Nil, CtlOp(Ret))
    ensures Is(CALL, FPcRels, Cons(PcRelArg(off), Nil), CtlOp(Call([], off)))
    ensures Is(CALL1, Cons(FReg, Cons(FPcRel, Nil)), Cons(RegArg(a), Cons(PcRelArg(off), Nil)), CtlOp(Call([a], off)))
    ensures Is(CALL2, Cons(FReg, Cons(FReg, Cons(FPcRel, Nil))),
               Cons(RegArg(a), Cons(RegArg(b), Cons(PcRelArg(off), Nil))),
               CtlOp(Call([a, b], off)))
    ensures Is(CALL3, Cons(FReg, Cons(FReg, Cons(FReg, Cons(FPcRel, Nil)))),
               Cons(RegArg(a), Cons(RegArg(b), Cons(RegArg(c), Cons(PcRelArg(off), Nil)))),
               CtlOp(Call([a, b, c], off)))
    ensures Is(CALL4, Cons(FReg, Cons(FReg, Cons(FReg, Cons(FReg, Cons(FPcRel, Nil))))),
               Cons(RegArg(a), Cons(RegArg(b), Cons(RegArg(c), Cons(RegArg(d), Cons(PcRelArg(off), Nil))))),
               CtlOp(Call([a, b, c, d], off)))
    ensures Is(CALL_INDIRECT, FX, One(a), CtlOp(CallIndirect(a)))
    ensures Is(JUMP, FPcRels, Cons(PcRelArg(off), Nil), CtlOp(Jump(off)))
    ensures Is(XJUMP, FX, One(a), CtlOp(XJump(a)))
    ensures Is(BR_IF32, Cons(FReg, Cons(FPcRel, Nil)), Cons(RegArg(a), Cons(PcRelArg(off), Nil)),
               CtlOp(BrIf(a, true, off)))
    ensures Is(BR_IF_NOT32, Cons(FReg, Cons(FPcRel, Nil)), Cons(RegArg(a), Cons(PcRelArg(off), Nil)),
               CtlOp(BrIf(a, false, off)))
    ensures Is(BR_TABLE32, Cons(FReg, Cons(FInt(4, false), Nil)), Cons(RegArg(a), Cons(IntArg(4, false, amt), Nil)),
               CtlOp(BrTable(a, amt)))
  {
  }

  /** Branches that compare two registers. */
  lemma BranchOpcodes(a: Reg, b: Reg, off: int)
    ensures Is(BR_IF_XEQ32, FCmp, CmpArgs(a, b, off), CtlOp(BrCmp(W32, Eq, a, R(b), off)))
    ensures Is(BR_IF_XNEQ32, FCmp, CmpArgs(a, b, off), CtlOp(BrCmp(W32, Neq, a, R(b), off)))
    ensures Is(BR_IF_XSLT32, FCmp, CmpArgs(a, b, off), CtlOp(BrCmp(W32, SLt, a, R(b), off)))
    ensures Is(BR_IF_XSLTEQ32, FCmp, CmpArgs(a, b, off), CtlOp(BrCmp(W32, SLteq, a, R(b), off)))
    ensures Is(BR_IF_XULT32, FCmp, CmpArgs(a, b, off), CtlOp(BrCmp(W32, ULt, a, R(b), off)))
    ensures Is(BR_IF_XULTEQ32, FCmp, CmpArgs(a, b, off), CtlOp(BrCmp(W32, ULteq, a, R(b), off)))
    ensures Is(BR_IF_XEQ64, FCmp, CmpArgs(a, b, off), CtlOp(BrCmp(W64, Eq, a, R(b), off)))
    ensures Is(BR_IF_XNEQ64, FCmp, CmpArgs(a, b, off), CtlOp(BrCmp(W64, Neq, a, R(b), off)))
    ensures Is(BR_IF_XSLT64, FCmp, CmpArgs(a, b, off), CtlOp(BrCmp(W64, SLt, a, R(b), off)))
    ensures Is(BR_IF_XSLTEQ64, FCmp, CmpArgs(a, b, off), CtlOp(BrCmp(W64, SLteq, a, R(b), off)))
    ensures Is(BR_IF_XULT64, FCmp, CmpArgs(a, b, off), CtlOp(BrCmp(W64, ULt, a, R(b), off)))
    ensures Is(BR_IF_XULTEQ64, FCmp, CmpArgs(a, b, off), CtlOp(BrCmp(W64, ULteq, a, R(b), off)))
  {
  }

  /** Branches that compare the low half of a register with a signed immediate. */
  lemma BranchSignedOpcodes32(a: Reg, off: int, v: int)
    ensures Is(BR_IF_XEQ32_I8, FCmpImm(1, true), CmpImmArgs(a, 1, true, v, off), CtlOp(BrCmp(W32, Eq, a, I(v, 1), off)))
    ensures Is(BR_IF_XEQ32_I32, FCmpImm(4, true), CmpImmArgs(a, 4, true, v, off),
               CtlOp(BrCmp(W32, Eq, a, I(v, 4), off)))
    ensures Is(BR_IF_XNEQ32_I8, FCmpImm(1, true), CmpImmArgs(a, 1, true, v, off),
               CtlOp(BrCmp(W32, Neq, a, I(v, 1), off)))
    ensures Is(BR_IF_XNEQ32_I32, FCmpImm(4, true), CmpImmArgs(a, 4, true, v, off),
               CtlOp(BrCmp(W32, Neq, a, I(v, 4), off)))
    ensures Is(BR_IF_XSLT32_I8, FCmpImm(1, true), CmpImmArgs(a, 1, true, v, off),
               CtlOp(BrCmp(W32, SLt, a, I(v, 1), off)))
    ensures Is(BR_IF_XSLT32_I32, FCmpImm(4, true), CmpImmArgs(a, 4, true, v, off),
               CtlOp(BrCmp(W32, SLt, a, I(v, 4), off)))
    ensures Is(BR_IF_XSGT32_I8, FCmpImm(1, true), CmpImmArgs(a, 1, true, v, off),
               CtlOp(BrCmp(W32, SGt, a, I(v, 1), off)))
    ensures Is(BR_IF_XSGT32_I32, FCmpImm(4, true), CmpImmArgs(a, 4, true, v, off),
               CtlOp(BrCmp(W32, SGt, a, I(v, 4), off)))
    ensures Is(BR_IF_XSLTEQ32_I8, FCmpImm(1, true), CmpImmArgs(a, 1, true, v, off),
               CtlOp(BrCmp(W32, SLteq, a, I(v, 1), off)))
    ensures Is(BR_IF_XSLTEQ32_I32, FCmpImm(4, true), CmpImmArgs(a, 4, true, v, off),
               CtlOp(BrCmp(W32, SLteq, a, I(v, 4), off)))
    ensures Is(BR_IF_XSGTEQ32_I8, FCmpImm(1, true), CmpImmArgs(a, 1, true, v, off),
               CtlOp(BrCmp(W32, SGteq, a, I(v, 1), off)))
    ensures Is(BR_IF_XSGTEQ32_I32, FCmpImm(4, true), CmpImmArgs(a, 4, true, v, off),
               CtlOp(BrCmp(W32, SGteq, a, I(v, 4), off)))
  {
  }

  /** Branches that compare the low half of a register with an unsigned immediate. */
  lemma BranchUnsignedOpcodes32(a: Reg, off: int, v: int)
    ensures Is(BR_IF_XULT32_U8, FCmpImm(1, false), CmpImmArgs(a, 1, false, v, off),
               CtlOp(BrCmp(W32, ULt, a, I(v, 1), off)))
    ensures Is(BR_IF_XULT32_U32, FCmpImm(4, false), CmpImmArgs(a, 4, false, v, off),
               CtlOp(BrCmp(W32, ULt, a, I(v, 4), off)))
    ensures Is(BR_IF_XULTEQ32_U8, FCmpImm(1, false), CmpImmArgs(a, 1, false, v, off),
               CtlOp(BrCmp(W32, ULteq, a, I(v, 1), off)))
    ensures Is(BR_IF_XULTEQ32_U32, FCmpImm(4, false), CmpImmArgs(a, 4, false, v, off),
               CtlOp(BrCmp(W32, ULteq, a, I(v, 4), off)))
    ensures Is(BR_IF_XUGT32_U8, FCmpImm(1, false), CmpImmArgs(a, 1, false, v, off),
               CtlOp(BrCmp(W32, UGt, a, I(v, 1), off)))
    ensures Is(BR_IF_XUGT32_U32, FCmpImm(4, false), CmpImmArgs(a, 4, false, v, off),
               CtlOp(BrCmp(W32, UGt, a, I(v, 4), off)))
    ensures Is(BR_IF_XUGTEQ32_U8, FCmpImm(1, false), CmpImmArgs(a, 1, false, v, off),
               CtlOp(BrCmp(W32, UGteq, a, I(v, 1), off)))
    ensures Is(BR_IF_XUGTEQ32_U32, FCmpImm(4, false), CmpImmArgs(a, 4, false, v, off),
               CtlOp(BrCmp(W32, UGteq, a, I(v, 4), off)))
  {
  }

  /** Branches that compare a register with a signed immediate. */
  lemma BranchSignedOpcodes64(a: Reg, off: int, v: int)
    ensures Is(BR_IF_XEQ64_I8, FCmpImm(1, true), CmpImmArgs(a, 1, true, v, off), CtlOp(BrCmp(W64, Eq, a, I(v, 1), off)))
    ensures Is(BR_IF_XEQ64_I32, FCmpImm(4, true), CmpImmArgs(a, 4, true, v, off),
               CtlOp(BrCmp(W64, Eq, a, I(v, 4), off)))
    ensures Is(BR_IF_XNEQ64_I8, FCmpImm(1, true), CmpImmArgs(a, 1, true, v, off),
               CtlOp(BrCmp(W64, Neq, a, I(v, 1), off)))
    ensures Is(BR_IF_XNEQ64_I32, FCmpImm(4, true), CmpImmArgs(a, 4, true, v, off),
               CtlOp(BrCmp(W64, Neq, a, I(v, 4), off)))
    ensures Is(BR_IF_XSLT64_I8, FCmpImm(1, true), CmpImmArgs(a, 1, true, v, off),
               CtlOp(BrCmp(W64, SLt, a, I(v, 1), off)))
    ensures Is(BR_IF_XSLT64_I32, FCmpImm(4, true), CmpImmArgs(a, 4, true, v, off),
               CtlOp(BrCmp(W64, SLt, a, I(v, 4), off)))
    ensures Is(BR_IF_XSGT64_I8, FCmpImm(1, true), CmpImmArgs(a, 1, true, v, off),
               CtlOp(BrCmp(W64, SGt, a, I(v, 1), off)))
    ensures Is(BR_IF_XSGT64_I32, FCmpImm(4, true), CmpImmArgs(a, 4, true, v, off),
               CtlOp(BrCmp(W64, SGt, a, I(v, 4), off)))
    ensures Is(BR_IF_XSLTEQ64_I8, FCmpImm(1, true), CmpImmArgs(a, 1, true, v, off),
               CtlOp(BrCmp(W64, SLteq, a, I(v, 1), off)))
    ensures Is(BR_IF_XSLTEQ64_I32, FCmpImm(4, true), CmpImmArgs(a, 4, true, v, off),
               CtlOp(BrCmp(W64, SLteq, a, I(v, 4), off)))
    ensures Is(BR_IF_XSGTEQ64_I8, FCmpImm(1, true), CmpImmArgs(a, 1, true, v, off),
               CtlOp(BrCmp(W64, SGteq, a, I(v, 1), off)))
    ensures Is(BR_IF_XSGTEQ64_I32, FCmpImm(4, true), CmpImmArgs(a, 4, true, v, off),
               CtlOp(BrCmp(W64, SGteq, a, I(v, 4), off)))
  {
  }

  /** Branches that compare a register with an unsigned immediate. */
  lemma BranchUnsignedOpcodes64(a: Reg, off: int, v: int)
    ensures Is(BR_IF_XULT64_U8, FCmpImm(1, false), CmpImmArgs(a, 1, false, v, off),
               CtlOp(BrCmp(W64, ULt, a, I(v, 1), off)))
    ensures Is(BR_IF_XULT64_U32, FCmpImm(4, false), CmpImmArgs(a, 4, false, v, off),
               CtlOp(BrCmp(W64, ULt, a, I(v, 4), off)))
    ensures Is(BR_IF_XULTEQ64_U8, FCmpImm(1, false), CmpImmArgs(a, 1, false, v, off),
               CtlOp(BrCmp(W64, ULteq, a, I(v, 1), off)))
    ensures Is(BR_IF_XULTEQ64_U32, FCmpImm(4, false), CmpImmArgs(a, 4, false, v, off),
               CtlOp(BrCmp(W64, ULteq, a, I(v, 4), off)))
    ensures Is(BR_IF_XUGT64_U8, FCmpImm(1, false), CmpImmArgs(a, 1, false, v, off),
               CtlOp(BrCmp(W64, UGt, a, I(v, 1), off)))
    ensures Is(BR_IF_XUGT64_U32, FCmpImm(4, false), CmpImmArgs(a, 4, false, v, off),
               CtlOp(BrCmp(W64, UGt, a, I(v, 4), off)))
    ensures Is(BR_IF_XUGTEQ64_U8, FCmpImm(1, false), CmpImmArgs(a, 1, false, v, off),
               CtlOp(BrCmp(W64, UGteq, a, I(v, 1), off)))
    ensures Is(BR_IF_XUGTEQ64_U32, FCmpImm(4, false), CmpImmArgs(a, 4, false, v, off),
               CtlOp(BrCmp(W64, UGteq, a, I(v, 4), off)))
  {
  }

  /** Moves, constants, multiply-add and selection. */
  lemma MoveOpcodes(a: Reg, b: Reg, c: Reg, d: Reg, v: int)
    ensures Is(XMOV, FXX, Two(d, a), AluOp(Mov(d, a)))
    ensures Is(XZERO, FX, One(d), AluOp(Const(d, 0)))
    ensures Is(XONE, FX, One(d), AluOp(Const(d, 1)))
    ensures Is(XCONST8, Cons(FReg, Cons(FInt(1, true), Nil)), Cons(RegArg(d), Cons(IntArg(1, true, v), Nil)),
               AluOp(Const(d, v)))
    ensures Is(XCONST16, Cons(FReg, Cons(FInt(2, true), Nil)), Cons(RegArg(d), Cons(IntArg(2, true, v), Nil)),
               AluOp(Const(d, v)))
    ensures Is(XCONST32, Cons(FReg, Cons(FInt(4, true), Nil)), Cons(RegArg(d), Cons(IntArg(4, true, v), Nil)),
               AluOp(Const(d, v)))
    ensures Is(XCONST64, Cons(FReg, Cons(FInt(8, true), Nil)), Cons(RegArg(d), Cons(IntArg(8, true, v), Nil)),
               AluOp(Const(d, v)))
    ensures Is(XMADD32, FXXXX, Four(d, a, b, c), AluOp(Madd(W32, d, a, b, c)))
    ensures Is(XMADD64, FXXXX, Four(d, a, b, c), AluOp(Madd(W64, d, a, b, c)))
    ensures Is(XSELECT32, FXXXX, Four(d, a, b, c), AluOp(Select(W32, d, a, b, c)))
    ensures Is(XSELECT64, FXXXX, Four(d, a, b, c), AluOp(Select(W64, d, a, b, c)))
  {
  }

  /** Addition, subtraction and multiplication. */
  lemma SumOpcodes(a: Reg, b: Reg, d: Reg, v: int)
    ensures Is(XADD32, FBins, Three(d, a, b), AluOp(Bin(W32, Add, d, a, R(b))))
    ensures Is(XADD32_U8, FXXImm(1, false), TwoImm(d, a, 1, false, v), AluOp(Bin(W32, Add, d, a, I(v, 1))))
    ensures Is(XADD32_U32, FXXImm(4, false), TwoImm(d, a, 4, false, v), AluOp(Bin(W32, Add, d, a, I(v, 4))))
    ensures Is(XADD64, FBins, Three(d, a, b), AluOp(Bin(W64, Add, d, a, R(b))))
    ensures Is(XADD64_U8, FXXImm(1, false), TwoImm(d, a, 1, false, v), AluOp(Bin(W64, Add, d, a, I(v, 1))))
    ensures Is(XADD64_U32, FXXImm(4, false), TwoImm(d, a, 4, false, v), AluOp(Bin(W64, Add, d, a, I(v, 4))))
    ensures Is(XSUB32, FBins, Three(d, a, b), AluOp(Bin(W32, Sub, d, a, R(b))))
    ensures Is(XSUB32_U8, FXXImm(1, false), TwoImm(d, a, 1, false, v), AluOp(Bin(W32, Sub, d, a, I(v, 1))))
    ensures Is(XSUB32_U32, FXXImm(4, false), TwoImm(d, a, 4, false, v), AluOp(Bin(W32, Sub, d, a, I(v, 4))))
    ensures Is(XSUB64, FBins, Three(d, a, b), AluOp(Bin(W64, Sub, d, a, R(b))))
    ensures Is(XSUB64_U8, FXXImm(1, false), TwoImm(d, a, 1, false, v), AluOp(Bin(W64, Sub, d, a, I(v, 1))))
    ensures Is(XSUB64_U32, FXXImm(4, false), TwoImm(d, a, 4, false, v), AluOp(Bin(W64, Sub, d, a, I(v, 4))))
    ensures Is(XMUL32, FBins, Three(d, a, b), AluOp(Bin(W32, Mul, d, a, R(b))))
    ensures Is(XMUL32_S8, FXXImm(1, true), TwoImm(d, a, 1, true, v), AluOp(Bin(W32, Mul, d, a, I(v, 1))))
    ensures Is(XMUL32_S32, FXXImm(4, true), TwoImm(d, a, 4, true, v), AluOp(Bin(W32, Mul, d, a, I(v, 4))))
    ensures Is(XMUL64, FBins, Three(d, a, b), AluOp(Bin(W64, Mul, d, a, R(b))))
    ensures Is(XMUL64_S8, FXXImm(1, true), TwoImm(d, a, 1, true, v), AluOp(Bin(W64, Mul, d, a, I(v, 1))))
    ensures Is(XMUL64_S32, FXXImm(4, true), TwoImm(d, a, 4, true, v), AluOp(Bin(W64, Mul, d, a, I(v, 4))))
  {
  }

  /** One operand. */
  lemma UnaryOpcodes(a: Reg, d: Reg)
    ensures Is(XCTZ32, FXX, Two(d, a), AluOp(Un(W32, Ctz, d, a)))
    ensures Is(XCTZ64, FXX, Two(d, a), AluOp(Un(W64, Ctz, d, a)))
    ensures Is(XCLZ32, FXX, Two(d, a), AluOp(Un(W32, Clz, d, a)))
    ensures Is(XCLZ64, FXX, Two(d, a), AluOp(Un(W64, Clz, d, a)))
    ensures Is(XPOPCNT32, FXX, Two(d, a), AluOp(Un(W32, Popcnt, d, a)))
    ensures Is(XPOPCNT64, FXX, Two(d, a), AluOp(Un(W64, Popcnt, d, a)))
    ensures Is(XNEG32, FXX, Two(d, a), AluOp(Un(W32, Neg, d, a)))
    ensures Is(XNEG64, FXX, Two(d, a), AluOp(Un(W64, Neg, d, a)))
    ensures Is(ZEXT8, FXX, Two(d, a), AluOp(Extend(8, false, d, a)))
    ensures Is(ZEXT16, FXX, Two(d, a), AluOp(Extend(16, false, d, a)))
    ensures Is(ZEXT32, FXX, Two(d, a), AluOp(Extend(32, false, d, a)))
    ensures Is(SEXT8, FXX, Two(d, a), AluOp(Extend(8, true, d, a)))
    ensures Is(SEXT16, FXX, Two(d, a), AluOp(Extend(16, true, d, a)))
    ensures Is(SEXT32, FXX, Two(d, a), AluOp(Extend(32, true, d, a)))
    ensures Is(XABS32, FXX, Two(d, a), AluOp(Un(W32, Abs, d, a)))
    ensures Is(XABS64, FXX, Two(d, a), AluOp(Un(W64, Abs, d, a)))
    ensures Is(XBNOT32, FXX, Two(d, a), AluOp(Un(W32, Not, d, a)))
    ensures Is(XBNOT64, FXX, Two(d, a), AluOp(Un(W64, Not, d, a)))
  {
  }

  /** Shifts and rotates. */
  lemma ShiftOpcodes(a: Reg, b: Reg, d: Reg, n: u6)
    ensures Is(XROTL32, FBins, Three(d, a, b), AluOp(Bin(W32, Rotl, d, a, R(b))))
    ensures Is(XROTL64, FBins, Three(d, a, b), AluOp(Bin(W64, Rotl, d, a, R(b))))
    ensures Is(XROTR32, FBins, Three(d, a, b), AluOp(Bin(W32, Rotr, d, a, R(b))))
    ensures Is(XROTR64, FBins, Three(d, a, b), AluOp(Bin(W64, Rotr, d, a, R(b))))
    ensures Is(XSHL32, FBins, Three(d, a, b), AluOp(Bin(W32, Shl, d, a, R(b))))
    ensures Is(XSHR32_S, FBins, Three(d, a, b), AluOp(Bin(W32, ShrS, d, a, R(b))))
    ensures Is(XSHR32_U, FBins, Three(d, a, b), AluOp(Bin(W32, ShrU, d, a, R(b))))
    ensures Is(XSHL64, FBins, Three(d, a, b), AluOp(Bin(W64, Shl, d, a, R(b))))
    ensures Is(XSHR64_S, FBins, Three(d, a, b), AluOp(Bin(W64, ShrS, d, a, R(b))))
    ensures Is(XSHR64_U, FBins, Three(d, a, b), AluOp(Bin(W64, ShrU, d, a, R(b))))
    ensures Is(XSHL32_U6, Cons(FBinU6, Nil), Cons(BinU6Arg(d, a, n), Nil), AluOp(Bin(W32, Shl, d, a, I(n, 1))))
    ensures Is(XSHR32_S_U6, Cons(FBinU6, Nil), Cons(BinU6Arg(d, a, n), Nil), AluOp(Bin(W32, ShrS, d, a, I(n, 1))))
    ensures Is(XSHR32_U_U6, Cons(FBinU6, Nil), Cons(BinU6Arg(d, a, n), Nil), AluOp(Bin(W32, ShrU, d, a, I(n, 1))))
    ensures Is(XSHL64_U6, Cons(FBinU6, Nil), Cons(BinU6Arg(d, a, n), Nil), AluOp(Bin(W64, Shl, d, a, I(n, 1))))
    ensures Is(XSHR64_S_U6, Cons(FBinU6, Nil), Cons(BinU6Arg(d, a, n), Nil), AluOp(Bin(W64, ShrS, d, a, I(n, 1))))
    ensures Is(XSHR64_U_U6, Cons(FBinU6, Nil), Cons(BinU6Arg(d, a, n), Nil), AluOp(Bin(W64, ShrU, d, a, I(n, 1))))
  {
  }

  /** Comparisons. */
  lemma CompareOpcodes(a: Reg, b: Reg, d: Reg)
    ensures Is(XEQ64, FBins, Three(d, a, b), AluOp(Compare(W64, Eq, d, a, b)))
    ensures Is(XNEQ64, FBins, Three(d, a, b), AluOp(Compare(W64, Neq, d, a, b)))
    ensures Is(XSLT64, FBins, Three(d, a, b), AluOp(Compare(W64, SLt, d, a, b)))
    ensures Is(XSLTEQ64, FBins, Three(d, a, b), AluOp(Compare(W64, SLteq, d, a, b)))
    ensures Is(XULT64, FBins, Three(d, a, b), AluOp(Compare(W64, ULt, d, a, b)))
    ensures Is(XULTEQ64, FBins, Three(d, a, b), AluOp(Compare(W64, ULteq, d, a, b)))
    ensures Is(XEQ32, FBins, Three(d, a, b), AluOp(Compare(W32, Eq, d, a, b)))
    ensures Is(XNEQ32, FBins, Three(d, a, b), AluOp(Compare(W32, Neq, d, a, b)))
    ensures Is(XSLT32, FBins, Three(d, a, b), AluOp(Compare(W32, SLt, d, a, b)))
    ensures Is(XSLTEQ32, FBins, Three(d, a, b), AluOp(Compare(W32, SLteq, d, a, b)))
    ensures Is(XULT32, FBins, Three(d, a, b), AluOp(Compare(W32, ULt, d, a, b)))
    ensures Is(XULTEQ32, FBins, Three(d, a, b), AluOp(Compare(W32, ULteq, d, a, b)))
  {
  }

  /** Loads and stores at a register and an offset. */
  lemma OffsetOpcodes(a: Reg, d: Reg, v: int)
    ensures Is(XLOAD8_U32_O32, Cons(FReg, Cons(FReg, Cons(FInt(4, true), Nil))),
               Cons(RegArg(d), Cons(RegArg(a), Cons(IntArg(4, true, v), Nil))),
               MemoryOp(Load(U8, d, O32(a, v))))
    ensures Is(XLOAD8_S32_O32, Cons(FReg, Cons(FReg, Cons(FInt(4, true), Nil))),
               Cons(RegArg(d), Cons(RegArg(a), Cons(IntArg(4, true, v), Nil))),
               MemoryOp(Load(S8, d, O32(a, v))))
    ensures Is(XLOAD16LE_U32_O32, Cons(FReg, Cons(FReg, Cons(FInt(4, true), Nil))),
               Cons(RegArg(d), Cons(RegArg(a), Cons(IntArg(4, true, v), Nil))),
               MemoryOp(Load(U16, d, O32(a, v))))
    ensures Is(XLOAD16LE_S32_O32, Cons(FReg, Cons(FReg, Cons(FInt(4, true), Nil))),
               Cons(RegArg(d), Cons(RegArg(a), Cons(IntArg(4, true, v), Nil))),
               MemoryOp(Load(S16, d, O32(a, v))))
    ensures Is(XLOAD32LE_O32, Cons(FReg, Cons(FReg, Cons(FInt(4, true), Nil))),
               Cons(RegArg(d), Cons(RegArg(a), Cons(IntArg(4, true, v), Nil))),
               MemoryOp(Load(L32, d, O32(a, v))))
    ensures Is(XLOAD64LE_O32, Cons(FReg, Cons(FReg, Cons(FInt(4, true), Nil))),
               Cons(RegArg(d), Cons(RegArg(a), Cons(IntArg(4, true, v), Nil))),
               MemoryOp(Load(L64, d, O32(a, v))))
    ensures Is(XSTORE8_O32, Cons(FReg, Cons(FInt(4, true), Cons(FReg, Nil))),
               Cons(RegArg(a), Cons(IntArg(4, true, v), One(d))),
               MemoryOp(Store(1, O32(a, v), d)))
    ensures Is(XSTORE16LE_O32, Cons(FReg, Cons(FInt(4, true), Cons(FReg, Nil))),
               Cons(RegArg(a), Cons(IntArg(4, true, v), One(d))),
               MemoryOp(Store(2, O32(a, v), d)))
    ensures Is(XSTORE32LE_O32, Cons(FReg, Cons(FInt(4, true), Cons(FReg, Nil))),
               Cons(RegArg(a), Cons(IntArg(4, true, v), One(d))),
               MemoryOp(Store(4, O32(a, v), d)))
    ensures Is(XSTORE64LE_O32, Cons(FReg, Cons(FInt(4, true), Cons(FReg, Nil))),
               Cons(RegArg(a), Cons(IntArg(4, true, v), One(d))),
               MemoryOp(Store(8, O32(a, v), d)))
  {
  }

  /** The same, trapping on null. */
  lemma NullCheckedOpcodes(a: Reg, d: Reg, v: int)
    ensures Is(XLOAD8_U32_Z, Cons(FReg, Cons(FReg, Cons(FInt(4, true), Nil))),
               Cons(RegArg(d), Cons(RegArg(a), Cons(IntArg(4, true, v), Nil))),
               MemoryOp(Load(U8, d, Z(a, v))))
    ensures Is(XLOAD8_S32_Z, Cons(FReg, Cons(FReg, Cons(FInt(4, true), Nil))),
               Cons(RegArg(d), Cons(RegArg(a), Cons(IntArg(4, true, v), Nil))),
               MemoryOp(Load(S8, d, Z(a, v))))
    ensures Is(XLOAD16LE_U32_Z, Cons(FReg, Cons(FReg, Cons(FInt(4, true), Nil))),
               Cons(RegArg(d), Cons(RegArg(a), Cons(IntArg(4, true, v), Nil))),
               MemoryOp(Load(U16, d, Z(a, v))))
    ensures Is(XLOAD16LE_S32_Z, Cons(FReg, Cons(FReg, Cons(FInt(4, true), Nil))),
               Cons(RegArg(d), Cons(RegArg(a), Cons(IntArg(4, true, v), Nil))),
               MemoryOp(Load(S16, d, Z(a, v))))
    ensures Is(XLOAD32LE_Z, Cons(FReg, Cons(FReg, Cons(FInt(4, true), Nil))),
               Cons(RegArg(d), Cons(RegArg(a), Cons(IntArg(4, true, v), Nil))),
               MemoryOp(Load(L32, d, Z(a, v))))
    ensures Is(XLOAD64LE_Z, Cons(FReg, Cons(FReg, Cons(FInt(4, true), Nil))),
               Cons(RegArg(d), Cons(RegArg(a), Cons(IntArg(4, true, v), Nil))),
               MemoryOp(Load(L64, d, Z(a, v))))
    ensures Is(XSTORE8_Z, Cons(FReg, Cons(FInt(4, true), Cons(FReg, Nil))),
               Cons(RegArg(a), Cons(IntArg(4, true, v), One(d))),
               MemoryOp(Store(1, Z(a, v), d)))
    ensures Is(XSTORE16LE_Z, Cons(FReg, Cons(FInt(4, true), Cons(FReg, Nil))),
               Cons(RegArg(a), Cons(IntArg(4, true, v), One(d))),
               MemoryOp(Store(2, Z(a, v), d)))
    ensures Is(XSTORE32LE_Z, Cons(FReg, Cons(FInt(4, true), Cons(FReg, Nil))),
               Cons(RegArg(a), Cons(IntArg(4, true, v), One(d))),
               MemoryOp(Store(4, Z(a, v), d)))
    ensures Is(XSTORE64LE_Z, Cons(FReg, Cons(FInt(4, true), Cons(FReg, Nil))),
               Cons(RegArg(a), Cons(IntArg(4, true, v), One(d))),
               MemoryOp(Store(8, Z(a, v), d)))
  {
  }

  /** Loads and stores in a heap whose bound is in a register. */
  lemma HeapOpcodes(b: Reg, d: Reg, h: Reg, w: Reg, o: u16)
    ensures Is(XLOAD8_U32_G32, Cons(FReg, Cons(FG32, Nil)), Cons(RegArg(d), Cons(G32Arg(h, b, w, o), Nil)),
               MemoryOp(Load(U8, d, G32(h, b, w, o))))
    ensures Is(XLOAD8_S32_G32, Cons(FReg, Cons(FG32, Nil)), Cons(RegArg(d), Cons(G32Arg(h, b, w, o), Nil)),
               MemoryOp(Load(S8, d, G32(h, b, w, o))))
    ensures Is(XLOAD16LE_U32_G32, Cons(FReg, Cons(FG32, Nil)), Cons(RegArg(d), Cons(G32Arg(h, b, w, o), Nil)),
               MemoryOp(Load(U16, d, G32(h, b, w, o))))
    ensures Is(XLOAD16LE_S32_G32, Cons(FReg, Cons(FG32, Nil)), Cons(RegArg(d), Cons(G32Arg(h, b, w, o), Nil)),
               MemoryOp(Load(S16, d, G32(h, b, w, o))))
    ensures Is(XLOAD32LE_G32, Cons(FReg, Cons(FG32, Nil)), Cons(RegArg(d), Cons(G32Arg(h, b, w, o), Nil)),
               MemoryOp(Load(L32, d, G32(h, b, w, o))))
    ensures Is(XLOAD64LE_G32, Cons(FReg, Cons(FG32, Nil)), Cons(RegArg(d), Cons(G32Arg(h, b, w, o), Nil)),
               MemoryOp(Load(L64, d, G32(h, b, w, o))))
    ensures Is(XSTORE8_G32, Cons(FG32, Cons(FReg, Nil)), Cons(G32Arg(h, b, w, o), One(d)),
               MemoryOp(Store(1, G32(h, b, w, o), d)))
    ensures Is(XSTORE16LE_G32, Cons(FG32, Cons(FReg, Nil)), Cons(G32Arg(h, b, w, o), One(d)),
               MemoryOp(Store(2, G32(h, b, w, o), d)))
    ensures Is(XSTORE32LE_G32, Cons(FG32, Cons(FReg, Nil)), Cons(G32Arg(h, b, w, o), One(d)),
               MemoryOp(Store(4, G32(h, b, w, o), d)))
    ensures Is(XSTORE64LE_G32, Cons(FG32, Cons(FReg, Nil)), Cons(G32Arg(h, b, w, o), One(d)),
               MemoryOp(Store(8, G32(h, b, w, o), d)))
  {
  }

  /** The same, with the bound in memory. */
  lemma HeapInMemoryOpcodes(b: Reg, d: Reg, h: Reg, w: Reg, p: byte, q: byte)
    ensures Is(XLOAD8_U32_G32BNE, Cons(FReg, Cons(FG32Bne, Nil)), Cons(RegArg(d), Cons(G32BneArg(h, b, w, q, p), Nil)),
               MemoryOp(Load(U8, d, G32Bne(h, b, q, w, p))))
    ensures Is(XLOAD8_S32_G32BNE, Cons(FReg, Cons(FG32Bne, Nil)), Cons(RegArg(d), Cons(G32BneArg(h, b, w, q, p), Nil)),
               MemoryOp(Load(S8, d, G32Bne(h, b, q, w, p))))
    ensures Is(XLOAD16LE_U32_G32BNE, Cons(FReg, Cons(FG32Bne, Nil)),
               Cons(RegArg(d), Cons(G32BneArg(h, b, w, q, p), Nil)),
               MemoryOp(Load(U16, d, G32Bne(h, b, q, w, p))))
    ensures Is(XLOAD16LE_S32_G32BNE, Cons(FReg, Cons(FG32Bne, Nil)),
               Cons(RegArg(d), Cons(G32BneArg(h, b, w, q, p), Nil)),
               MemoryOp(Load(S16, d, G32Bne(h, b, q, w, p))))
    ensures Is(XLOAD32LE_G32BNE, Cons(FReg, Cons(FG32Bne, Nil)), Cons(RegArg(d), Cons(G32BneArg(h, b, w, q, p), Nil)),
               MemoryOp(Load(L32, d, G32Bne(h, b, q, w, p))))
    ensures Is(XLOAD64LE_G32BNE, Cons(FReg, Cons(FG32Bne, Nil)), Cons(RegArg(d), Cons(G32BneArg(h, b, w, q, p), Nil)),
               MemoryOp(Load(L64, d, G32Bne(h, b, q, w, p))))
    ensures Is(XSTORE8_G32BNE, Cons(FG32Bne, Cons(FReg, Nil)), Cons(G32BneArg(h, b, w, q, p), One(d)),
               MemoryOp(Store(1, G32Bne(h, b, q, w, p), d)))
    ensures Is(XSTORE16LE_G32BNE, Cons(FG32Bne, Cons(FReg, Nil)), Cons(G32BneArg(h, b, w, q, p), One(d)),
               MemoryOp(Store(2, G32Bne(h, b, q, w, p), d)))
    ensures Is(XSTORE32LE_G32BNE, Cons(FG32Bne, Cons(FReg, Nil)), Cons(G32BneArg(h, b, w, q, p), One(d)),
               MemoryOp(Store(4, G32Bne(h, b, q, w, p), d)))
    ensures Is(XSTORE64LE_G32BNE, Cons(FG32Bne, Cons(FReg, Nil)), Cons(G32BneArg(h, b, w, q, p), One(d)),
               MemoryOp(Store(8, G32Bne(h, b, q, w, p), d)))
  {
  }

  /** Frames and the stack. */
  lemma {:induction false} FrameOpcodes(amt: u32, o: u16, bits: u16)
    ensures Is(PUSH_FRAME, Nil, Nil, FrameOp(PushFrame))
    ensures Is(POP_FRAME, Nil, Nil, FrameOp(PopFrame))
    ensures Is(PUSH_FRAME_SAVE, Cons(FInt(2, false), Cons(FRegs, Nil)),
               Cons(IntArg(2, false, o), Cons(RegsArg(bits), Nil)),
               FrameOp(PushFrameSave(o, RegsFrom(bits, 16))))
    ensures Is(POP_FRAME_RESTORE, Cons(FInt(2, false), Cons(FRegs, Nil)),
               Cons(IntArg(2, false, o), Cons(RegsArg(bits), Nil)),
               FrameOp(PopFrameRestore(o, RegsFrom(bits, 16))))
    ensures Is(STACK_ALLOC32, Cons(FInt(4, false), Nil), Cons(IntArg(4, false, amt), Nil), FrameOp(StackAlloc(amt)))
    ensures Is(STACK_FREE32, Cons(FInt(4, false), Nil), Cons(IntArg(4, false, amt), Nil), FrameOp(StackFree(amt)))
  {
  }

  /** Division, and the smaller or larger of two. */
  lemma DivisionOpcodes(a: Reg, b: Reg, d: Reg)
    ensures Is(XDIV32_S, FBins, Three(d, a, b), AluOp(Div(W32, DivS, d, a, b)))
    ensures Is(XDIV64_S, FBins, Three(d, a, b), AluOp(Div(W64, DivS, d, a, b)))
    ensures Is(XDIV32_U, FBins, Three(d, a, b), AluOp(Div(W32, DivU, d, a, b)))
    ensures Is(XDIV64_U, FBins, Three(d, a, b), AluOp(Div(W64, DivU, d, a, b)))
    ensures Is(XREM32_S, FBins, Three(d, a, b), AluOp(Div(W32, RemS, d, a, b)))
    ensures Is(XREM64_S, FBins, Three(d, a, b), AluOp(Div(W64, RemS, d, a, b)))
    ensures Is(XREM32_U, FBins, Three(d, a, b), AluOp(Div(W32, RemU, d, a, b)))
    ensures Is(XREM64_U, FBins, Three(d, a, b), AluOp(Div(W64, RemU, d, a, b)))
    ensures Is(XMIN32_U, FBins, Three(d, a, b), AluOp(Bin(W32, MinU, d, a, R(b))))
    ensures Is(XMIN32_S, FBins, Three(d, a, b), AluOp(Bin(W32, MinS, d, a, R(b))))
    ensures Is(XMAX32_U, FBins, Three(d, a, b), AluOp(Bin(W32, MaxU, d, a, R(b))))
    ensures Is(XMAX32_S, FBins, Three(d, a, b), AluOp(Bin(W32, MaxS, d, a, R(b))))
    ensures Is(XMIN64_U, FBins, Three(d, a, b), AluOp(Bin(W64, MinU, d, a, R(b))))
    ensures Is(XMIN64_S, FBins, Three(d, a, b), AluOp(Bin(W64, MinS, d, a, R(b))))
    ensures Is(XMAX64_U, FBins, Three(d, a, b), AluOp(Bin(W64, MaxU, d, a, R(b))))
    ensures Is(XMAX64_S, FBins, Three(d, a, b), AluOp(Bin(W64, MaxS, d, a, R(b))))
  {
  }

  /** Bitwise logic. */
  lemma LogicOpcodes(a: Reg, b: Reg, d: Reg, v: int)
    ensures Is(XBAND32, FBins, Three(d, a, b), AluOp(Bin(W32, And, d, a, R(b))))
    ensures Is(XBAND32_S8, FXXImm(1, true), TwoImm(d, a, 1, true, v), AluOp(Bin(W32, And, d, a, I(v, 1))))
    ensures Is(XBAND32_S32, FXXImm(4, true), TwoImm(d, a, 4, true, v), AluOp(Bin(W32, And, d, a, I(v, 4))))
    ensures Is(XBAND64, FBins, Three(d, a, b), AluOp(Bin(W64, And, d, a, R(b))))
    ensures Is(XBAND64_S8, FXXImm(1, true), TwoImm(d, a, 1, true, v), AluOp(Bin(W64, And, d, a, I(v, 1))))
    ensures Is(XBAND64_S32, FXXImm(4, true), TwoImm(d, a, 4, true, v), AluOp(Bin(W64, And, d, a, I(v, 4))))
    ensures Is(XBOR32, FBins, Three(d, a, b), AluOp(Bin(W32, Or, d, a, R(b))))
    ensures Is(XBOR32_S8, FXXImm(1, true), TwoImm(d, a, 1, true, v), AluOp(Bin(W32, Or, d, a, I(v, 1))))
    ensures Is(XBOR32_S32, FXXImm(4, true), TwoImm(d, a, 4, true, v), AluOp(Bin(W32, Or, d, a, I(v, 4))))
    ensures Is(XBOR64, FBins, Three(d, a, b), AluOp(Bin(W64, Or, d, a, R(b))))
    ensures Is(XBOR64_S8, FXXImm(1, true), TwoImm(d, a, 1, true, v), AluOp(Bin(W64, Or, d, a, I(v, 1))))
    ensures Is(XBOR64_S32, FXXImm(4, true), TwoImm(d, a, 4, true, v), AluOp(Bin(W64, Or, d, a, I(v, 4))))
    ensures Is(XBXOR32, FBins, Three(d, a, b), AluOp(Bin(W32, Xor, d, a, R(b))))
    ensures Is(XBXOR32_S8, FXXImm(1, true), TwoImm(d, a, 1, true, v), AluOp(Bin(W32, Xor, d, a, I(v, 1))))
    ensures Is(XBXOR32_S32, FXXImm(4, true), TwoImm(d, a, 4, true, v), AluOp(Bin(W32, Xor, d, a, I(v, 4))))
    ensures Is(XBXOR64, FBins, Three(d, a, b), AluOp(Bin(W64, Xor, d, a, R(b))))
    ensures Is(XBXOR64_S8, FXXImm(1, true), TwoImm(d, a, 1, true, v), AluOp(Bin(W64, Xor, d, a, I(v, 1))))
    ensures Is(XBXOR64_S32, FXXImm(4, true), TwoImm(d, a, 4, true, v), AluOp(Bin(W64, Xor, d, a, I(v, 4))))
  {
  }

  /** The extended opcodes that the model runs. */
  lemma ExtendedOpcodes(a: Reg, b: Reg, c: Reg, d: Reg, h: Reg, w: Reg, id: byte)
    ensures IsExtended(TRAP, Nil, SysOp(Trap))
    ensures IsExtended(NOP, Nil, SysOp(Nop))
    ensures IsExtended(CALL_INDIRECT_HOST, Cons(IntArg(1, false, id), Nil), SysOp(CallIndirectHost(id)))
    ensures IsExtended(XMOV_FP, One(d), SysOp(MovFp(d)))
    ensures IsExtended(XMOV_LR, One(d), SysOp(MovLr(d)))
    ensures IsExtended(BSWAP32, Two(d, a), AluOp(Un(W32, Bswap, d, a)))
    ensures IsExtended(BSWAP64, Two(d, a), AluOp(Un(W64, Bswap, d, a)))
    ensures IsExtended(XADD32_UOVERFLOW_TRAP, Three(d, a, b), AluOp(AddTrap(W32, d, a, b)))
    ensures IsExtended(XADD64_UOVERFLOW_TRAP, Three(d, a, b), AluOp(AddTrap(W64, d, a, b)))
    ensures IsExtended(XMULHI64_S, Three(d, a, b), AluOp(MulHi(true, d, a, b)))
    ensures IsExtended(XMULHI64_U, Three(d, a, b), AluOp(MulHi(false, d, a, b)))
    ensures IsExtended(XBMASK32, Two(d, a), AluOp(Un(W32, Bmask, d, a)))
    ensures IsExtended(XBMASK64, Two(d, a), AluOp(Un(W64, Bmask, d, a)))
    ensures IsExtended(XADD128, Cons(RegArg(d), Cons(RegArg(h), Four(a, b, c, w))), AluOp(Add128(d, h, a, b, c, w)))
    ensures IsExtended(XSUB128, Cons(RegArg(d), Cons(RegArg(h), Four(a, b, c, w))), AluOp(Sub128(d, h, a, b, c, w)))
    ensures IsExtended(XWIDEMUL64_S, Four(d, h, a, b), AluOp(WideMul(true, d, h, a, b)))
    ensures IsExtended(XWIDEMUL64_U, Four(d, h, a, b), AluOp(WideMul(false, d, h, a, b)))
  {
  }
}
