/** Where each part of an instruction stands in its bytes, bit by bit. */
module EncodingLaws {
  import opened Lists
  import opened Wrappers
  import opened Words
  import opened Ops
  import opened Arith
  import opened BitLaws
  import opened Operands
  import opened Codec

  /** The `n` low bits of `v` stand in `bs` from bit `at` on, the lowest bit of the first byte being bit 0. */
  ghost predicate Stands(bs: seq<byte>, at: nat, n: nat, v: int)
    requires at + n <= 8 * |bs|
  {
    forall k: nat :: k < n ==> (Bit(bs[(at + k) / 8], (at + k) % 8) <==> Bit(v, k))
  }

  /** The layout of each kind of operand. */
  ghost predicate Layout(o: Operand, bs: seq<byte>)
    requires |bs| == FieldWidth(FieldOf(o))
  {
    match o
    case RegArg(r) => Stands(bs, 0, 8, r)
    case IntArg(n, _, v) => Stands(bs, 0, 8 * n, v)
    case PcRelArg(off) => Stands(bs, 0, 32, off)
    case BinArg(dst, src1, src2) => Stands(bs, 0, 5, dst) && Stands(bs, 5, 5, src1) && Stands(bs, 10, 5, src2)
    case BinU6Arg(dst, src1, imm) => Stands(bs, 0, 5, dst) && Stands(bs, 5, 5, src1) && Stands(bs, 10, 6, imm)
    case RegsArg(bits) => Stands(bs, 0, 16, bits)
    case G32Arg(heap, bound, wasm, offset) =>
      && Stands(bs, 0, 16, offset) && Stands(bs, 16, 5, wasm) && Stands(bs, 21, 5, bound) && Stands(bs, 26, 5, heap)
    case G32BneArg(heap, bound, wasm, boundOffset, offset) =>
      && Stands(bs, 0, 8, offset) && Stands(bs, 8, 8, boundOffset)
      && Stands(bs, 16, 5, wasm) && Stands(bs, 21, 5, bound) && Stands(bs, 26, 5, heap)
  }

  lemma SmallPowers()
    ensures Pow2(5) == 32 && Pow2(6) == 64 && Pow2(8) == 256 && Pow2(16) == 0x1_0000
  {
    Pow2Byte();
    assert Pow2(5) == 32 by { assert Pow2(3) == 8; }
    Pow2Sum(8, 8);
  }

  /** A part of the integer that is stored, between its low `at` bits and the rest. */
  lemma {:induction false} PartStands(size: nat, packed: int, at: nat, n: nat, low: int, v: int, rest: int)
    requires at + n <= 8 * size && 0 <= low < Pow2(at) && 0 <= v < Pow2(n)
    requires packed == low + Pow2(at) * (v + Pow2(n) * rest)
    ensures Stands(LeBytes(size, packed), at, n, v)
  {
    forall k: nat | k < n
      ensures Bit(LeBytes(size, packed)[(at + k) / 8], (at + k) % 8) <==> Bit(v, k)
    {
      BitLeBytes(size, packed, at + k);
      BitJoin(low, v + Pow2(n) * rest, at, at + k);
      BitJoin(v, rest, n, k);
    }
  }

  lemma {:induction false} WholeStands(size: nat, v: int)
    ensures Stands(LeBytes(size, v), 0, 8 * size, v)
  {
    forall k: nat | k < 8 * size
      ensures Bit(LeBytes(size, v)[(0 + k) / 8], (0 + k) % 8) <==> Bit(v, k)
    {
      BitLeBytes(size, v, k);
    }
  }

  lemma {:induction false} BinStands(o: Operand)
    requires o.BinArg? || o.BinU6Arg?
    ensures Layout(o, EncodeOperand(o))
  {
    SmallPowers();
    Pow2Sum(5, 5);
    var high, n := if o.BinArg? then o.src2 else o.imm, if o.BinArg? then 5 else 6;
    var v := Pack(o);
    PartStands(2, v, 0, 5, 0, o.dst, o.src1 + 32 * high);
    PartStands(2, v, 5, 5, o.dst, o.src1, high);
    PartStands(2, v, 10, n, o.dst + 32 * o.src1, high, 0);
  }

  lemma {:induction false} HeapStands(v: int, low: int, wasm: Reg, bound: Reg, heap: Reg)
    requires 0 <= low < 0x1_0000 && v == low + wasm * 0x1_0000 + bound * 0x20_0000 + heap * 0x400_0000
    ensures var bs := LeBytes(4, v); Stands(bs, 16, 5, wasm) && Stands(bs, 21, 5, bound) && Stands(bs, 26, 5, heap)
  {
    SmallPowers();
    Pow2Sum(16, 5);
    Pow2Sum(21, 5);
    PartStands(4, v, 16, 5, low, wasm, bound + 32 * heap);
    PartStands(4, v, 21, 5, low + wasm * 0x1_0000, bound, heap);
    PartStands(4, v, 26, 5, low + wasm * 0x1_0000 + bound * 0x20_0000, heap, 0);
  }

  lemma {:induction false} G32Stands(o: Operand)
    requires o.G32Arg? || o.G32BneArg?
    ensures Layout(o, EncodeOperand(o))
  {
    SmallPowers();
    var low := if o.G32Arg? then o.offset else o.offset8 + o.boundOffset * 0x100;
    var v, regs := Pack(o), o.wasm + 32 * (o.bound + 32 * o.heap);
    HeapStands(v, low, o.wasm, o.bound, o.heap);
    if o.G32Arg? {
      PartStands(4, v, 0, 16, 0, o.offset, regs);
    } else {
      PartStands(4, v, 0, 8, 0, o.offset8, o.boundOffset + 256 * regs);
      PartStands(4, v, 8, 8, o.offset8, o.boundOffset, regs);
    }
  }

  /** How many bytes each kind of operand takes. */
  lemma OperandWidths(o: Operand)
    ensures o.RegArg? ==> |EncodeOperand(o)| == 1
    ensures o.IntArg? ==> |EncodeOperand(o)| == o.n
    ensures o.BinArg? || o.BinU6Arg? || o.RegsArg? ==> |EncodeOperand(o)| == 2
    ensures o.PcRelArg? || o.G32Arg? || o.G32BneArg? ==> |EncodeOperand(o)| == 4
  {
  }

  /** Every operand is laid out as its kind says; integers in two's complement, lowest byte first. */
  lemma {:induction false} OperandLayout(o: Operand)
    ensures Layout(o, EncodeOperand(o))
  {
    if o.BinArg? || o.BinU6Arg? {
      BinStands(o);
    } else if o.G32Arg? || o.G32BneArg? {
      G32Stands(o);
    } else {
      WholeStands(FieldWidth(FieldOf(o)), Pack(o));
    }
  }

  /** The operands of `xadd32 x0, x0, x1`. */
  lemma BinExample()
    ensures EncodeOperand(BinArg(0, 0, 1)) == [0x00, 0x04]
  {
    assert LeBytes(1, 4) == [4];
  }

  // ----- Instructions -----

  /** How many bytes the first `k` operands take. */
  function WidthBefore(args: List<Operand>, k: nat): nat
    requires k <= Length(args)
  {
    if k == 0 then 0 else FieldWidth(FieldOf(args.head)) + WidthBefore(args.tail, k - 1)
  }

  lemma {:induction false} ArgStands(enc: Encoder, args: List<Operand>, k: nat)
    requires k < Length(args)
    ensures InSlice(EncodeArgs(enc, args), WidthBefore(args, k), enc(Nth(args, k)))
  {
    var first, rest := enc(args.head), EncodeArgs(enc, args.tail);
    if k == 0 {
      assert (first + rest)[..|first|] == first;
    } else {
      ArgStands(enc, args.tail, k - 1);
      var at, e := WidthBefore(args.tail, k - 1), enc(Nth(args, k));
      assert (first + rest)[|first| + at..|first| + at + |e|] == rest[at..at + |e|];
    }
  }

  /**
   An instruction is its opcode, one byte, or `ExtendedOp` and two bytes with the lower one first, and
   then its operands in order.
   */
  lemma {:induction false} InstrLayout(isa: Isa, i: Instr, k: nat)
    requires Exists(isa, i.ext, i.code)
    ensures var bs := EncodeInstr(isa, EncodeOperand, i);
            && (!i.ext ==> bs[0] == i.code)
            && (i.ext ==> bs[0] == |isa.ops| && bs[1] == i.code % 256 && bs[2] == i.code / 256)
    ensures k < Length(i.args) ==>
              InSlice(EncodeInstr(isa, EncodeOperand, i), (if i.ext then 3 else 1) + WidthBefore(i.args, k),
                      EncodeOperand(Nth(i.args, k)))
  {
    var op, args := EncodeOpcode(isa, EncodeOperand, i), EncodeArgs(EncodeOperand, i.args);
    OpcodeBytes(isa, i);
    if k < Length(i.args) {
      ArgStands(EncodeOperand, i.args, k);
      var at, e := WidthBefore(i.args, k), EncodeOperand(Nth(i.args, k));
      assert (op + args)[|op| + at..|op| + at + |e|] == args[at..at + |e|];
    }
  }

  lemma {:induction false} OpcodeBytes(isa: Isa, i: Instr)
    requires Exists(isa, i.ext, i.code)
    ensures EncodeOpcode(isa, EncodeOperand, i) ==
              if i.ext then [|isa.ops|, i.code % 256, i.code / 256] else [i.code]
  {
    if i.ext {
      assert LeBytes(1, |isa.ops|) == [|isa.ops|];
      assert LeBytes(1, i.code / 256) == [i.code / 256];
      assert LeBytes(2, i.code) == [i.code % 256] + LeBytes(1, i.code / 256);
    } else {
      assert LeBytes(1, i.code) == [i.code];
    }
  }
}
