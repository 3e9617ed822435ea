/** Operands: how each field of an instruction is laid out in bytes. */
module Operands {
  import opened Lists
  import opened Wrappers
  import opened Words
  import opened Ops

  /**
   The field types of the operation table. A register of any class takes one byte. The `o32` and `z`
   addresses are a register field followed by a signed four-byte field, in both directions.
   */
  datatype Field =
    | FReg
    | FInt(n: nat, signed: bool)
    | FPcRel
    | FBin
    | FBinU6
    | FRegs
    | FG32
    | FG32Bne

  type u6 = x: int | 0 <= x < 64

  /** A value together with the field type it belongs to. */
  datatype Operand =
    | RegArg(r: Reg)
    | IntArg(n: nat, signed: bool, v: int)
    | PcRelArg(off: int)
    | BinArg(dst: Reg, src1: Reg, src2: Reg)
    | BinU6Arg(dst: Reg, src1: Reg, imm: u6)
    | RegsArg(bits: u16)
    | G32Arg(heap: Reg, bound: Reg, wasm: Reg, offset: u16)
    | G32BneArg(heap: Reg, bound: Reg, wasm: Reg, boundOffset: byte, offset8: byte)

  function FieldOf(o: Operand): Field
  {
    match o
    case RegArg(_) => FReg
    case IntArg(n, signed, _) => FInt(n, signed)
    case PcRelArg(_) => FPcRel
    case BinArg(_, _, _) => FBin
    case BinU6Arg(_, _, _) => FBinU6
    case RegsArg(_) => FRegs
    case G32Arg(_, _, _, _) => FG32
    case G32BneArg(_, _, _, _, _) => FG32Bne
  }

  /** An integer that its type can hold. */
  predicate OperandOk(o: Operand)
  {
    (o.IntArg? ==> InRange(o.n, o.signed, o.v)) && (o.PcRelArg? ==> InRange(4, true, o.off))
  }

  /** An operand of a field; the range of an integer apart from its sign is `OperandOk`. */
  predicate HasType(o: Operand, f: Field) { FieldOf(o) == f && (o.IntArg? && !o.signed ==> 0 <= o.v) }

  function FieldWidth(f: Field): nat
  {
    match f
    case FReg => 1
    case FInt(n, _) => n
    case FBin => 2
    case FBinU6 => 2
    case FRegs => 2
    case _ => 4
  }

  /** The integer that an operand is stored as, in two's complement. */
  function Pack(o: Operand): int
  {
    match o
    case RegArg(r) => r
    case IntArg(n, _, v) => v
    case PcRelArg(off) => off
    case BinArg(dst, src1, src2) => dst + src1 * 32 + src2 * 1024
    case BinU6Arg(dst, src1, imm) => dst + src1 * 32 + imm * 1024
    case RegsArg(bits) => bits
    case G32Arg(heap, bound, wasm, offset) =>
      offset + wasm * 0x1_0000 + bound * 0x20_0000 + heap * 0x400_0000
    case G32BneArg(heap, bound, wasm, boundOffset, offset) =>
      offset + boundOffset * 0x100 + wasm * 0x1_0000 + bound * 0x20_0000 + heap * 0x400_0000
  }

  function UnpackBin(raw: u16): Operand { BinArg(raw % 32, raw / 32 % 32, raw / 1024 % 32) }

  function UnpackBinU6(raw: u16): Operand { BinU6Arg(raw % 32, raw / 32 % 32, raw / 1024 % 64) }

  function UnpackG32(raw: u32): Operand
  {
    G32Arg(raw / 0x400_0000 % 32, raw / 0x20_0000 % 32, raw / 0x1_0000 % 32, raw % 0x1_0000)
  }

  function UnpackG32Bne(raw: u32): Operand
  {
    G32BneArg(raw / 0x400_0000 % 32, raw / 0x20_0000 % 32, raw / 0x1_0000 % 32, raw / 0x100 % 0x100, raw % 0x100)
  }

  /** What an integer reads back as; only a register byte can be invalid. */
  function Unpack(f: Field, raw: nat): (r: Option<Operand>)
    requires raw < Pow256(FieldWidth(f))
    ensures r.Some? ==> HasType(r.value, f)
    ensures r.None? <==> f == FReg && 32 <= raw
  {
    Pow256Values();
    match f
    case FReg => if raw < 32 then Some(RegArg(raw)) else None
    case FInt(n, signed) => Some(IntArg(n, signed, Wrap(n, signed, raw)))
    case FPcRel => Some(PcRelArg(Wrap(4, true, raw)))
    case FBin => Some(UnpackBin(raw))
    case FBinU6 => Some(UnpackBinU6(raw))
    case FRegs => Some(RegsArg(raw))
    case FG32 => Some(UnpackG32(raw))
    case FG32Bne => Some(UnpackG32Bne(raw))
  }

  /** The top bit that the five-bit register packings leave unused. */
  predicate TopBitClear(f: Field, raw: nat)
  {
    match f
    case FBin => raw < 0x8000
    case FG32 => raw < 0x8000_0000
    case FG32Bne => raw < 0x8000_0000
    case _ => true
  }

  lemma BinBits(d: Reg, s1: Reg, s2: u6, raw: int)
    requires raw == d + s1 * 32 + s2 * 1024
    ensures raw % 32 == d && raw / 32 % 32 == s1 && raw / 1024 == s2
  {
    assert raw / 32 == s1 + s2 * 32;
  }

  lemma BinFields(raw: u16)
    ensures raw == raw % 32 + raw / 32 % 32 * 32 + raw / 1024 % 64 * 1024
    ensures raw / 1024 % 32 == raw / 1024 % 64 <==> raw < 0x8000
  {
    assert raw / 1024 == raw / 32 / 32;
  }

  lemma HeapBits(low: u16, w: Reg, b: Reg, h: Reg, raw: int)
    requires raw == low + w * 0x1_0000 + b * 0x20_0000 + h * 0x400_0000
    ensures raw % 0x1_0000 == low && raw / 0x1_0000 % 32 == w && raw / 0x20_0000 % 32 == b
    ensures raw / 0x400_0000 % 32 == h && raw < 0x8000_0000
  {
    assert raw / 0x1_0000 == w + b * 32 + h * 1024;
    assert raw / 0x20_0000 == b + h * 32;
    assert raw / 0x400_0000 == h;
  }

  lemma HeapFields(raw: u32)
    ensures raw == raw % 0x1_0000 + raw / 0x1_0000 % 32 * 0x1_0000 + raw / 0x20_0000 % 32 * 0x20_0000 +
                   raw / 0x400_0000 * 0x400_0000
    ensures raw / 0x400_0000 % 32 == raw / 0x400_0000 <==> raw < 0x8000_0000
  {
    assert raw / 0x20_0000 == raw / 0x1_0000 / 32;
    assert raw / 0x400_0000 == raw / 0x20_0000 / 32;
  }

  lemma LowBytes(raw: u32)
    ensures raw % 0x1_0000 % 0x100 == raw % 0x100 && raw % 0x1_0000 / 0x100 == raw / 0x100 % 0x100
  {
  }

  lemma UnpackPackHeap(o: Operand)
    requires o.G32Arg? || o.G32BneArg?
    ensures 0 <= Pack(o) < B32 && (if o.G32Arg? then UnpackG32(Pack(o)) else UnpackG32Bne(Pack(o))) == o
  {
    var raw := Pack(o);
    if o.G32Arg? {
      HeapBits(o.offset, o.wasm, o.bound, o.heap, raw);
    } else {
      HeapBits(o.offset8 + o.boundOffset * 0x100, o.wasm, o.bound, o.heap, raw);
      LowBytes(raw);
    }
  }

  lemma UnpackPackBin(o: Operand)
    requires o.BinArg? || o.BinU6Arg?
    ensures 0 <= Pack(o) < 0x1_0000 && (if o.BinArg? then UnpackBin(Pack(o)) else UnpackBinU6(Pack(o))) == o
  {
    BinBits(o.dst, o.src1, if o.BinArg? then o.src2 else o.imm, Pack(o));
  }

  /** What is read of an integer in `n` bytes, before its sign is known. */
  function Stored(n: nat, v: int): int { if v < 0 then v + Pow256(n) else v }

  lemma UnpackPack(o: Operand)
    requires OperandOk(o)
    ensures var n := FieldWidth(FieldOf(o)); 0 <= Pack(o) + Pow256(n) && Pack(o) < Pow256(n)
    ensures Unpack(FieldOf(o), Stored(FieldWidth(FieldOf(o)), Pack(o))) == Some(o)
  {
    Pow256Values();
    if o.BinArg? || o.BinU6Arg? { UnpackPackBin(o); }
    if o.G32Arg? || o.G32BneArg? { UnpackPackHeap(o); }
  }

  lemma PackUnpackBin(raw: u16)
    ensures 0 <= Pack(UnpackBin(raw)) < 0x8000 && (Pack(UnpackBin(raw)) == raw <==> raw < 0x8000)
    ensures Pack(UnpackBinU6(raw)) == raw
  {
    BinFields(raw);
  }

  lemma PackUnpackHeap(raw: u32)
    ensures 0 <= Pack(UnpackG32(raw)) < B32 && (Pack(UnpackG32(raw)) == raw <==> raw < 0x8000_0000)
    ensures 0 <= Pack(UnpackG32Bne(raw)) < B32 && (Pack(UnpackG32Bne(raw)) == raw <==> raw < 0x8000_0000)
  {
    HeapFields(raw);
    LowBytes(raw);
  }

  /** Packing restores what was unpacked exactly when the ignored bit was clear. */
  lemma PackUnpack(f: Field, raw: nat)
    requires raw < Pow256(FieldWidth(f)) && Unpack(f, raw).Some?
    ensures var n, v := FieldWidth(f), Pack(Unpack(f, raw).value);
            && 0 <= v + Pow256(n) && v < Pow256(n)
            && (Stored(n, v) == raw <==> TopBitClear(f, raw))
  {
    Pow256Values();
    match f
    case FBin => PackUnpackBin(raw);
    case FBinU6 => PackUnpackBin(raw);
    case FG32 => PackUnpackHeap(raw);
    case FG32Bne => PackUnpackHeap(raw);
    case _ =>
  }

  function EncodeOperand(o: Operand): (bs: seq<byte>)
    ensures |bs| == FieldWidth(FieldOf(o))
  {
    LeBytes(FieldWidth(FieldOf(o)), Pack(o))
  }

  function ParseField(f: Field, bs: seq<byte>): (r: Option<Operand>)
    requires |bs| == FieldWidth(f)
    ensures r.Some? ==> HasType(r.value, f)
    ensures r.None? ==> f == FReg
  {
    FromLeBound(bs);
    Unpack(f, FromLe(bs))
  }

  lemma ParseEncode(o: Operand)
    requires OperandOk(o)
    ensures ParseField(FieldOf(o), EncodeOperand(o)) == Some(o)
  {
    UnpackPack(o);
    FromLeOfLeBytes(FieldWidth(FieldOf(o)), Pack(o));
  }

  /** Re-encoding what was parsed gives the same bytes exactly when no ignored bit was set. */
  lemma {:induction false} EncodeParse(f: Field, bs: seq<byte>)
    requires |bs| == FieldWidth(f) && ParseField(f, bs).Some?
    ensures EncodeOperand(ParseField(f, bs).value) == bs <==> TopBitClear(f, FromLe(bs))
  {
    var n, raw := FieldWidth(f), FromLe(bs);
    FromLeBound(bs);
    var v := Pack(Unpack(f, raw).value);
    PackUnpack(f, raw);
    FromLeOfLeBytes(n, v);
    LeBytesOfFromLe(bs);
    LeBytesShift(n, v);
    assert LeBytes(n, Stored(n, v)) == LeBytes(n, v);
  }

  /** The ignored bit at an input: these bytes are read as the operands that zero bytes encode. */
  lemma IgnoredBitExample()
    ensures ParseField(FBin, [0x00, 0x80]) == Some(BinArg(0, 0, 0))
    ensures EncodeOperand(BinArg(0, 0, 0)) == [0x00, 0x00]
  {
    IgnoredBitBytes();
    Pow256Values();
    assert Unpack(FBin, 0x8000) == Some(UnpackBin(0x8000));
  }

  lemma IgnoredBitBytes()
    ensures FromLe([0x00, 0x80]) == 0x8000 && LeBytes(2, 0) == [0, 0]
  {
    var bs: seq<byte> := [0x00, 0x80];
    assert FromLeAt(bs, 2) == 0;
    assert FromLeAt(bs, 1) == 0x80;
    assert LeBytes(0, 0) == [];
    assert LeBytes(1, 0) == [0];
  }

  /** The registers that an `UpperRegSet` of these bits iterates over, in order and each once. */
  function RegsFrom(bits: nat, r: nat): (l: seq<Reg>)
    requires 16 <= r <= 32
    ensures |l| <= 32 - r
    ensures forall i :: 0 <= i < |l| ==> r <= l[i]
    ensures forall i, j :: 0 <= i < j < |l| ==> l[i] < l[j]
    decreases 32 - r
  {
    if r == 32 then [] else (if bits % 2 == 1 then [r] else []) + RegsFrom(bits / 2, r + 1)
  }

  /** They are the registers whose bits are set. */
  lemma {:induction false} RegsAreBits(bits: nat, r: nat, reg: Reg)
    requires 16 <= r <= 32
    ensures reg in RegsFrom(bits, r) <==> r <= reg && Bit(bits, reg - r)
    decreases 32 - r
  {
    if r < 32 { RegsAreBits(bits / 2, r + 1, reg); }
  }
}

/**
 Instructions as bytes: an opcode and its fields, for any operation table, with the branch table
 that trails `br_table32`.
 */
module Codec {
  import opened Lists
  import opened Wrappers
  import opened Words
  import opened Operands

  /** An operation table: the fields of each regular and extended opcode, and which one has a table. */
  datatype OpTable = OpTable(ops: seq<List<Field>>, ext: seq<List<Field>>, brTable: nat)

  /** The fields of `br_table32`: the index register and the number of offsets. */
  predicate HasTableFields(fs: List<Field>)
  {
    fs.Cons? && fs.head.FReg? && fs.tail.Cons? && fs.tail.head == FInt(4, false) && fs.tail.tail.Nil?
  }

  /** `ExtendedOp` is numbered after the last regular opcode, and both numberings fit their integers. */
  predicate OpTableOk(t: OpTable)
  {
    && |t.ops| <= 255 && |t.ext| <= 0xFFFF
    && t.brTable < |t.ops| && HasTableFields(t.ops[t.brTable])
  }

  type Isa = t: OpTable | OpTableOk(t) witness OpTable([Cons(FReg, Cons(FInt(4, false), Nil))], [], 0)

  datatype Instr = Instr(ext: bool, code: nat, args: List<Operand>)

  /** An instruction with the offsets of its branch table, if it is a `br_table32`. */
  datatype Item = Item(instr: Instr, table: List<int>)

  function Fields(args: List<Operand>): List<Field>
  {
    if args.Nil? then Nil else Cons(FieldOf(args.head), Fields(args.tail))
  }

  predicate Exists(isa: Isa, ext: bool, code: nat) { code < if ext then |isa.ext| else |isa.ops| }

  function FieldsOf(isa: Isa, ext: bool, code: nat): List<Field>
    requires Exists(isa, ext, code)
  {
    if ext then isa.ext[code] else isa.ops[code]
  }

  predicate ArgsOk(args: List<Operand>) { args.Cons? ==> OperandOk(args.head) && ArgsOk(args.tail) }

  /** An opcode of the table with operands of its fields. */
  predicate Formed(isa: Isa, i: Instr)
  {
    Exists(isa, i.ext, i.code) && Fields(i.args) == FieldsOf(isa, i.ext, i.code)
  }

  predicate InstrOk(isa: Isa, i: Instr) { Formed(isa, i) && ArgsOk(i.args) }

  /** The number of offsets that trail the instruction. */
  function TableLen(isa: Isa, i: Instr): nat
  {
    if i.ext || i.code != isa.brTable then 0
    else
      match i.args
      case Cons(_, Cons(IntArg(_, _, amt), Nil)) => if amt >= 0 then amt else 0
      case _ => 0
  }

  predicate OffsetsOk(table: List<int>) { table.Cons? ==> InRange(4, true, table.head) && OffsetsOk(table.tail) }

  predicate ItemOk(isa: Isa, it: Item)
  {
    InstrOk(isa, it.instr) && Length(it.table) == TableLen(isa, it.instr) && OffsetsOk(it.table)
  }

  predicate ItemsOk(isa: Isa, items: List<Item>)
  {
    items.Cons? ==> ItemOk(isa, items.head) && ItemsOk(isa, items.tail)
  }

  // ----- Widths and encoding -----

  function FieldsWidth(fs: List<Field>): nat { if fs.Nil? then 0 else FieldWidth(fs.head) + FieldsWidth(fs.tail) }

  /** The `WIDTH` of an instruction: its opcode and the widths of its fields. */
  function EncodedWidth(ext: bool, fs: List<Field>): nat { (if ext then 3 else 1) + FieldsWidth(fs) }

  /** Encoding single operands: as many bytes as the field is wide. */
  type Encoder = enc: Operand -> seq<byte> | SizedEncoder(enc) ghost witness EncodeOperand

  ghost predicate SizedEncoder(enc: Operand -> seq<byte>) { forall o :: |enc(o)| == FieldWidth(FieldOf(o)) }

  function EncodeArgs(enc: Encoder, args: List<Operand>): (bs: seq<byte>)
    ensures |bs| == FieldsWidth(Fields(args))
  {
    if args.Nil? then [] else enc(args.head) + EncodeArgs(enc, args.tail)
  }

  function EncodeOpcode(isa: Isa, enc: Encoder, i: Instr): (bs: seq<byte>)
    ensures |bs| == if i.ext then 3 else 1
  {
    if i.ext then enc(IntArg(1, false, |isa.ops|)) + enc(IntArg(2, false, i.code)) else enc(IntArg(1, false, i.code))
  }

  function EncodeInstr(isa: Isa, enc: Encoder, i: Instr): (bs: seq<byte>)
    ensures |bs| == EncodedWidth(i.ext, Fields(i.args))
  {
    EncodeOpcode(isa, enc, i) + EncodeArgs(enc, i.args)
  }

  function EncodeTable(enc: Encoder, table: List<int>): (bs: seq<byte>)
    ensures |bs| == 4 * Length(table)
  {
    if table.Nil? then [] else enc(PcRelArg(table.head)) + EncodeTable(enc, table.tail)
  }

  function ItemWidth(it: Item): nat { EncodedWidth(it.instr.ext, Fields(it.instr.args)) + 4 * Length(it.table) }

  function EncodeItem(isa: Isa, enc: Encoder, it: Item): (bs: seq<byte>)
    ensures |bs| == ItemWidth(it)
  {
    EncodeInstr(isa, enc, it.instr) + EncodeTable(enc, it.table)
  }

  function ItemEncoder(isa: Isa, enc: Encoder): Item -> seq<byte> { it => EncodeItem(isa, enc, it) }

  function EncodeItems(enc: Item -> seq<byte>, items: List<Item>): seq<byte>
  {
    if items.Nil? then [] else enc(items.head) + EncodeItems(enc, items.tail)
  }

  function EncodeAll(isa: Isa, items: List<Item>): seq<byte> { EncodeItems(ItemEncoder(isa, EncodeOperand), items) }

  function TotalWidth(items: List<Item>): nat
  {
    if items.Nil? then 0 else ItemWidth(items.head) + TotalWidth(items.tail)
  }

  // ----- Decoding -----

  datatype DecodingError =
    | UnexpectedEof(position: nat)
    | InvalidOpcode(position: nat, code: nat)
    | InvalidExtendedOpcode(position: nat, code: nat)
    | InvalidReg(position: nat, reg: nat)

  /** A decoded value and the position after it; an error, with how far reading got; or an undefined opcode. */
  datatype Dec<+T> = Ok(value: T, pos: nat) | Err(error: DecodingError, pos: nat) | Undefined(pos: nat)

  /** A bytecode stream by its one operation: the `n` bytes at a position, if they are there. */
  type Reader = rd: (nat, nat) -> Option<seq<byte>> | Sized(rd) ghost witness NoBytes()

  ghost predicate Sized(rd: (nat, nat) -> Option<seq<byte>>)
  {
    forall pos: nat, n: nat :: rd(pos, n).Some? ==> |rd(pos, n).value| == n
  }

  function NoBytes(): (nat, nat) -> Option<seq<byte>> { (pos: nat, n: nat) => None }

  /** Reading from a slice. */
  function SliceReader(bs: seq<byte>): Reader
  {
    (pos: nat, n: nat) => if pos + n <= |bs| then Some(bs[pos..pos + n]) else None
  }

  /** `read`: all `n` bytes, or an error that consumes nothing. */
  function ReadAt(rd: Reader, pos: nat, n: nat): (d: Dec<seq<byte>>)
    ensures d.Ok? ==> |d.value| == n && d.pos == pos + n
    ensures !d.Ok? ==> d == Err(UnexpectedEof(pos), pos)
  {
    match rd(pos, n)
    case Some(raw) => Ok(raw, pos + n)
    case None => Err(UnexpectedEof(pos), pos)
  }

  function DecodeField(rd: Reader, pos: nat, f: Field): (d: Dec<Operand>)
    ensures d.Ok? ==> HasType(d.value, f) && d.pos == pos + FieldWidth(f)
    ensures !d.Undefined?
  {
    match ReadAt(rd, pos, FieldWidth(f))
    case Err(e, p) => Err(e, p)
    case Ok(raw, p) =>
      match ParseField(f, raw)
      case Some(v) => Ok(v, p)
      case None => Err(InvalidReg(p, raw[0]), p)
  }

  /** Decoding single fields from some stream: the value, and the position after it. */
  type Decoder = get: (nat, Field) -> Dec<Operand> | Typed(get) ghost witness NoFields()

  ghost predicate Typed(get: (nat, Field) -> Dec<Operand>)
  {
    forall pos: nat, f ::
      && !get(pos, f).Undefined?
      && (get(pos, f).Ok? ==> HasType(get(pos, f).value, f) && get(pos, f).pos == pos + FieldWidth(f))
  }

  function NoFields(): (nat, Field) -> Dec<Operand> { (pos: nat, f) => Err(UnexpectedEof(pos), pos) }

  function Decoding(rd: Reader): Decoder { (pos: nat, f) => DecodeField(rd, pos, f) }

  function DecodeFields(get: Decoder, pos: nat, fs: List<Field>): (d: Dec<List<Operand>>)
    ensures !d.Undefined?
    decreases fs
  {
    if fs.Nil? then Ok(Nil, pos)
    else
      match get(pos, fs.head)
      case Err(e, p) => Err(e, p)
      case Ok(v, p) =>
        match DecodeFields(get, p, fs.tail)
        case Err(e, q) => Err(e, q)
        case Ok(vs, q) => Ok(Cons(v, vs), q)
  }

  /** The opcode and its numbering. One extended word past the last is accepted without being defined. */
  function DecodeOpcode(isa: Isa, get: Decoder, pos: nat): (d: Dec<(bool, nat)>)
    ensures d.Ok? ==> Exists(isa, d.value.0, d.value.1) && d.pos == pos + (if d.value.0 then 3 else 1)
  {
    match get(pos, FInt(1, false))
    case Err(e, p) => Err(e, p)
    case Ok(byte, p) =>
      var code := byte.v;
      if code < |isa.ops| then Ok((false, code), p)
      else if code > |isa.ops| then Err(InvalidOpcode(p - 1, code), p)
      else
        match get(p, FInt(2, false))
        case Err(e, q) => Err(e, q)
        case Ok(word, q) =>
          if word.v < |isa.ext| then Ok((true, word.v), q)
          else if word.v > |isa.ext| then Err(InvalidExtendedOpcode(q, word.v), q)
          else Undefined(q)
  }

  /** Reading an unsigned integer of one or two bytes from a slice. */
  lemma {:induction false} SliceInt(bs: seq<byte>, pos: nat, n: nat)
    requires n == 1 || n == 2
    ensures var d := SliceDecoder(bs)(pos, FInt(n, false));
            if pos + n <= |bs| then d == Ok(IntArg(n, false, FromLe(bs[pos..pos + n])), pos + n)
            else d == Err(UnexpectedEof(pos), pos)
  {
    assert SliceDecoder(bs)(pos, FInt(n, false)) == DecodeField(SliceReader(bs), pos, FInt(n, false));
    if pos + n <= |bs| { FromLeBound(bs[pos..pos + n]); }
  }

  /**
   What the bytes at an offset are taken for: the opcode byte against the number of regular opcodes,
   which `ExtendedOp` follows, and the word after it against the number of extended ones. The word
   that equals that number is accepted although it is no opcode.
   */
  lemma {:induction false} OpcodeOutcomes(isa: Isa, bs: seq<byte>, pos: nat)
    requires pos < |bs|
    ensures var d, code := DecodeOpcode(isa, SliceDecoder(bs), pos), bs[pos];
            && (code < |isa.ops| <==> d == Ok((false, code), pos + 1))
            && (code > |isa.ops| <==> d == Err(InvalidOpcode(pos, code), pos + 1))
            && (code == |isa.ops| && |bs| < pos + 3 ==> d == Err(UnexpectedEof(pos + 1), pos + 1))
    ensures pos + 3 <= |bs| && bs[pos] == |isa.ops| ==>
              var d, word := DecodeOpcode(isa, SliceDecoder(bs), pos), FromLe(bs[pos + 1..pos + 3]);
              && (word < |isa.ext| <==> d == Ok((true, word), pos + 3))
              && (word == |isa.ext| <==> d == Undefined(pos + 3))
              && (word > |isa.ext| <==> d == Err(InvalidExtendedOpcode(pos + 3, word), pos + 3))
    ensures DecodeOpcode(isa, SliceDecoder(bs), pos).Undefined? <==>
            pos + 3 <= |bs| && bs[pos] == |isa.ops| && FromLe(bs[pos + 1..pos + 3]) == |isa.ext|
  {
    SliceInt(bs, pos, 1);
    assert bs[pos..pos + 1] == [bs[pos]];
    FromLeOne(bs[pos]);
    SliceInt(bs, pos + 1, 2);
  }

  function DecodeOne(isa: Isa, get: Decoder, pos: nat): Dec<Instr>
  {
    match DecodeOpcode(isa, get, pos)
    case Err(e, p) => Err(e, p)
    case Undefined(p) => Undefined(p)
    case Ok((ext, code), p) =>
      match DecodeFields(get, p, FieldsOf(isa, ext, code))
      case Err(e, q) => Err(e, q)
      case Ok(vs, q) => Ok(Instr(ext, code, vs), q)
  }

  /** Decoding instructions as a function of the offset: proofs about programs need not look inside. */
  function InstrDecoder(isa: Isa, get: Decoder): nat -> Dec<Instr> { (pos: nat) => DecodeOne(isa, get, pos) }

  function DecodeInstr(isa: Isa, get: Decoder, pos: nat): Dec<Instr> { InstrDecoder(isa, get)(pos) }

  /** The branch-table offsets that a visitor reads: `amt` of them, or as many as the input holds. */
  function DecodeTable(get: Decoder, pos: nat, amt: nat): List<int>
    decreases amt
  {
    if amt == 0 || get(pos, FPcRel).Err? then Nil
    else Cons(get(pos, FPcRel).value.off, DecodeTable(get, pos + 4, amt - 1))
  }

  function DecodeItem(isa: Isa, get: Decoder, pos: nat): Dec<Item>
  {
    match DecodeInstr(isa, get, pos)
    case Err(e, p) => Err(e, p)
    case Undefined(p) => Undefined(p)
    case Ok(i, p) =>
      var table := DecodeTable(get, p, TableLen(isa, i));
      Ok(Item(i, table), p + 4 * Length(table))
  }

  /** Nothing is read past `end`. */
  ghost predicate Within(get: Decoder, end: nat) { forall pos: nat, f :: get(pos, f).Ok? ==> get(pos, f).pos <= end }

  lemma {:induction false} FieldsDecoded(get: Decoder, end: nat, pos: nat, fs: List<Field>)
    requires DecodeFields(get, pos, fs).Ok?
    ensures var d := DecodeFields(get, pos, fs); Fields(d.value) == fs && d.pos == pos + FieldsWidth(fs)
    ensures Within(get, end) && pos <= end ==> DecodeFields(get, pos, fs).pos <= end
    decreases fs
  {
    if fs.Cons? { FieldsDecoded(get, end, pos + FieldWidth(fs.head), fs.tail); }
  }

  /** What is decoded is an instruction of the table, and decoding it advances by its width. */
  lemma InstrDecoded(isa: Isa, get: Decoder, end: nat, pos: nat)
    requires DecodeInstr(isa, get, pos).Ok?
    ensures var d := DecodeInstr(isa, get, pos);
            Formed(isa, d.value) && d.pos == pos + EncodedWidth(d.value.ext, Fields(d.value.args))
    ensures Within(get, end) ==> DecodeInstr(isa, get, pos).pos <= end
  {
    assert DecodeInstr(isa, get, pos) == DecodeOne(isa, get, pos);
    var op := DecodeOpcode(isa, get, pos);
    FieldsDecoded(get, end, op.pos, FieldsOf(isa, op.value.0, op.value.1));
  }

  /** Every integer that is decoded is one its type can hold. */
  ghost predicate Ranged(get: Decoder) { forall pos: nat, f :: get(pos, f).Ok? ==> OperandOk(get(pos, f).value) }

  lemma UnpackRanged(f: Field, raw: nat)
    requires raw < Pow256(FieldWidth(f)) && Unpack(f, raw).Some?
    ensures OperandOk(Unpack(f, raw).value)
  {
  }

  /** Whatever the bytes are read from, only integers in range are decoded. */
  lemma DecodingRanged(rd: Reader)
    ensures Ranged(Decoding(rd))
  {
    forall pos: nat, f | DecodeField(rd, pos, f).Ok?
      ensures OperandOk(DecodeField(rd, pos, f).value)
    {
      var raw := ReadAt(rd, pos, FieldWidth(f)).value;
      FromLeBound(raw);
      UnpackRanged(f, FromLe(raw));
    }
  }

  lemma {:induction false} FieldsRanged(get: Decoder, pos: nat, fs: List<Field>)
    requires Ranged(get) && DecodeFields(get, pos, fs).Ok?
    ensures ArgsOk(DecodeFields(get, pos, fs).value)
    decreases fs
  {
    if fs.Cons? { FieldsRanged(get, pos + FieldWidth(fs.head), fs.tail); }
  }

  /** What is decoded is an instruction that can be encoded. */
  lemma InstrRanged(isa: Isa, rd: Reader, pos: nat)
    requires DecodeInstr(isa, Decoding(rd), pos).Ok?
    ensures InstrOk(isa, DecodeInstr(isa, Decoding(rd), pos).value)
  {
    var get := Decoding(rd);
    assert DecodeInstr(isa, get, pos) == DecodeOne(isa, get, pos);
    var op := DecodeOpcode(isa, get, pos);
    DecodingRanged(rd);
    FieldsRanged(get, op.pos, FieldsOf(isa, op.value.0, op.value.1));
    InstrDecoded(isa, get, 0, pos);
  }

  lemma {:induction false} InstrAdvances(isa: Isa, get: Decoder, pos: nat, i: Instr, p: nat)
    requires DecodeInstr(isa, get, pos) == Ok(i, p)
    ensures pos < p == pos + EncodedWidth(i.ext, Fields(i.args))
  {
    InstrDecoded(isa, get, 0, pos);
  }

  lemma {:induction false} TableDecoded(get: Decoder, end: nat, pos: nat, amt: nat)
    ensures Length(DecodeTable(get, pos, amt)) <= amt
    ensures Within(get, end) && pos <= end ==> pos + 4 * Length(DecodeTable(get, pos, amt)) <= end
    decreases amt
  {
    if amt != 0 && get(pos, FPcRel).Ok? { TableDecoded(get, end, pos + 4, amt - 1); }
  }

  /** Each item that is decoded consumes its width, which is at least one byte, of those there are. */
  lemma ItemDecoded(isa: Isa, get: Decoder, end: nat, pos: nat)
    requires DecodeItem(isa, get, pos).Ok?
    ensures pos < DecodeItem(isa, get, pos).pos == pos + ItemWidth(DecodeItem(isa, get, pos).value)
    ensures Within(get, end) ==> DecodeItem(isa, get, pos).pos <= end
  {
    var i := DecodeInstr(isa, get, pos);
    InstrDecoded(isa, get, end, pos);
    TableDecoded(get, end, i.pos, TableLen(isa, i.value));
  }

  /** Each decoded item ends further on, and no later than `end`. */
  ghost predicate Advances(dec: nat -> Dec<Item>, end: nat)
  {
    forall pos: nat :: dec(pos).Ok? ==> pos < dec(pos).pos <= end
  }

  function DecodeItems(dec: nat -> Dec<Item>, end: nat, pos: nat): Dec<List<Item>>
    requires Advances(dec, end) && pos <= end
    decreases end - pos
  {
    if pos == end then Ok(Nil, pos)
    else
      match dec(pos)
      case Err(e, p) => Err(e, p)
      case Undefined(p) => Undefined(p)
      case Ok(it, p) =>
        match DecodeItems(dec, end, p)
        case Err(e, q) => Err(e, q)
        case Undefined(q) => Undefined(q)
        case Ok(items, q) => Ok(Cons(it, items), q)
  }

  function ItemDecoder(isa: Isa, get: Decoder): nat -> Dec<Item> { (pos: nat) => DecodeItem(isa, get, pos) }

  lemma ItemsAdvance(isa: Isa, get: Decoder, end: nat)
    requires Within(get, end)
    ensures Advances(ItemDecoder(isa, get), end)
  {
    forall pos: nat | DecodeItem(isa, get, pos).Ok?
      ensures pos < DecodeItem(isa, get, pos).pos <= end
    {
      ItemDecoded(isa, get, end, pos);
    }
  }

  /** Decoding fields from a slice. */
  function SliceDecoder(bs: seq<byte>): Decoder { Decoding(SliceReader(bs)) }

  lemma SliceWithin(bs: seq<byte>)
    ensures Within(SliceDecoder(bs), |bs|)
  {
  }

  /** `decode_all`: every item until the input is empty, or the first error. */
  function DecodeAll(isa: Isa, bs: seq<byte>): Dec<List<Item>>
  {
    SliceWithin(bs);
    ItemsAdvance(isa, SliceDecoder(bs), |bs|);
    DecodeItems(ItemDecoder(isa, SliceDecoder(bs)), |bs|, 0)
  }

  // ----- Round trip -----

  /** `e` stands in `bs` at `pos`. */
  predicate InSlice(bs: seq<byte>, pos: nat, e: seq<byte>)
  {
    pos + |e| <= |bs| && bs[pos..pos + |e|] == e
  }

  lemma InSliceSplit(bs: seq<byte>, pos: nat, e1: seq<byte>, e2: seq<byte>)
    requires InSlice(bs, pos, e1 + e2)
    ensures InSlice(bs, pos, e1) && InSlice(bs, pos + |e1|, e2)
  {
    var e := bs[pos..pos + |e1 + e2|];
    assert e[..|e1|] == e1 && e[|e1|..] == e2;
    assert bs[pos..pos + |e1|] == e[..|e1|];
    assert bs[pos + |e1|..pos + |e1| + |e2|] == e[|e1|..];
  }

  /** Wherever an operand's encoding stands, it is what is decoded. */
  ghost predicate Reads(get: Decoder, enc: Encoder, bs: seq<byte>)
  {
    forall pos: nat, o {:trigger InSlice(bs, pos, enc(o))} :: OperandOk(o) && InSlice(bs, pos, enc(o)) ==>
      get(pos, FieldOf(o)).Ok? && get(pos, FieldOf(o)).value == o
  }

  lemma FieldsFrom(get: Decoder, pos: nat, args: List<Operand>)
    requires args.Cons?
    requires get(pos, FieldOf(args.head)).Ok? && get(pos, FieldOf(args.head)).value == args.head
    requires var p := pos + FieldWidth(FieldOf(args.head));
             DecodeFields(get, p, Fields(args.tail)) == Ok(args.tail, p + FieldsWidth(Fields(args.tail)))
    ensures DecodeFields(get, pos, Fields(args)) == Ok(args, pos + FieldsWidth(Fields(args)))
  {
  }

  lemma OperandAt(get: Decoder, enc: Encoder, bs: seq<byte>, pos: nat, o: Operand, rest: seq<byte>)
    requires Reads(get, enc, bs) && OperandOk(o) && InSlice(bs, pos, enc(o) + rest)
    ensures get(pos, FieldOf(o)).Ok? && get(pos, FieldOf(o)).value == o
    ensures InSlice(bs, pos + FieldWidth(FieldOf(o)), rest)
  {
    InSliceSplit(bs, pos, enc(o), rest);
  }

  lemma {:induction false} DecodeFieldsAt(get: Decoder, enc: Encoder, bs: seq<byte>, pos: nat, args: List<Operand>)
    requires Reads(get, enc, bs) && ArgsOk(args) && InSlice(bs, pos, EncodeArgs(enc, args))
    ensures DecodeFields(get, pos, Fields(args)) == Ok(args, pos + FieldsWidth(Fields(args)))
    decreases args
  {
    if args.Cons? {
      OperandAt(get, enc, bs, pos, args.head, EncodeArgs(enc, args.tail));
      DecodeFieldsAt(get, enc, bs, pos + FieldWidth(FieldOf(args.head)), args.tail);
      FieldsFrom(get, pos, args);
    }
  }

  lemma DecodeOpcodeAt(isa: Isa, get: Decoder, enc: Encoder, bs: seq<byte>, pos: nat, i: Instr)
    requires Reads(get, enc, bs) && Exists(isa, i.ext, i.code) && InSlice(bs, pos, EncodeOpcode(isa, enc, i))
    ensures DecodeOpcode(isa, get, pos) == Ok((i.ext, i.code), pos + if i.ext then 3 else 1)
  {
    Pow256Values();
    if i.ext {
      var first, second := IntArg(1, false, |isa.ops|), IntArg(2, false, i.code);
      InSliceSplit(bs, pos, enc(first), enc(second));
      assert get(pos, FieldOf(first)).value == first;
      assert get(pos + 1, FieldOf(second)).value == second;
    } else {
      assert get(pos, FInt(1, false)).value == IntArg(1, false, i.code);
    }
  }

  lemma DecodeInstrAt(isa: Isa, get: Decoder, enc: Encoder, bs: seq<byte>, pos: nat, i: Instr)
    requires Reads(get, enc, bs) && InstrOk(isa, i) && InSlice(bs, pos, EncodeInstr(isa, enc, i))
    ensures DecodeInstr(isa, get, pos) == Ok(i, pos + EncodedWidth(i.ext, Fields(i.args)))
  {
    assert DecodeInstr(isa, get, pos) == DecodeOne(isa, get, pos);
    InSliceSplit(bs, pos, EncodeOpcode(isa, enc, i), EncodeArgs(enc, i.args));
    DecodeOpcodeAt(isa, get, enc, bs, pos, i);
    DecodeFieldsAt(get, enc, bs, pos + if i.ext then 3 else 1, i.args);
  }

  lemma {:induction false} DecodeTableAt(get: Decoder, enc: Encoder, bs: seq<byte>, pos: nat, table: List<int>)
    requires Reads(get, enc, bs) && OffsetsOk(table) && InSlice(bs, pos, EncodeTable(enc, table))
    ensures DecodeTable(get, pos, Length(table)) == table
    decreases table
  {
    if table.Cons? {
      var o := PcRelArg(table.head);
      InSliceSplit(bs, pos, enc(o), EncodeTable(enc, table.tail));
      assert get(pos, FieldOf(o)).value == o;
      DecodeTableAt(get, enc, bs, pos + 4, table.tail);
    }
  }

  lemma ItemInstrAt(isa: Isa, get: Decoder, enc: Encoder, bs: seq<byte>, pos: nat, it: Item)
    requires Reads(get, enc, bs) && InstrOk(isa, it.instr) && InSlice(bs, pos, EncodeItem(isa, enc, it))
    ensures DecodeInstr(isa, get, pos) == Ok(it.instr, pos + |EncodeInstr(isa, enc, it.instr)|)
  {
    InSliceSplit(bs, pos, EncodeInstr(isa, enc, it.instr), EncodeTable(enc, it.table));
    DecodeInstrAt(isa, get, enc, bs, pos, it.instr);
  }

  lemma {:induction false} ItemTableAt(isa: Isa, get: Decoder, enc: Encoder, bs: seq<byte>, pos: nat, it: Item)
    requires Reads(get, enc, bs) && OffsetsOk(it.table) && InSlice(bs, pos, EncodeItem(isa, enc, it))
    ensures DecodeTable(get, pos + |EncodeInstr(isa, enc, it.instr)|, Length(it.table)) == it.table
  {
    var e := EncodeInstr(isa, enc, it.instr);
    InSliceSplit(bs, pos, e, EncodeTable(enc, it.table));
    DecodeTableAt(get, enc, bs, pos + |e|, it.table);
  }

  lemma DecodeItemAt(isa: Isa, get: Decoder, enc: Encoder, bs: seq<byte>, pos: nat, it: Item)
    requires Reads(get, enc, bs) && ItemOk(isa, it) && InSlice(bs, pos, EncodeItem(isa, enc, it))
    ensures DecodeItem(isa, get, pos) == Ok(it, pos + ItemWidth(it))
  {
    ItemInstrAt(isa, get, enc, bs, pos, it);
    ItemTableAt(isa, get, enc, bs, pos, it);
  }

  /** Wherever a good item's encoding stands, the decoder reads that item and no more. */
  ghost predicate Inverts(dec: nat -> Dec<Item>, enc: Item -> seq<byte>, ok: Item -> bool, bs: seq<byte>)
  {
    forall pos: nat, it {:trigger InSlice(bs, pos, enc(it))} ::
      ok(it) && InSlice(bs, pos, enc(it)) ==> dec(pos) == Ok(it, pos + |enc(it)|)
  }

  predicate All(ok: Item -> bool, items: List<Item>) { items.Cons? ==> ok(items.head) && All(ok, items.tail) }

  lemma {:induction false} DecodeItemsAt(dec: nat -> Dec<Item>, enc: Item -> seq<byte>, ok: Item -> bool,
                                         bs: seq<byte>, pos: nat, items: List<Item>)
    requires Advances(dec, |bs|) && Inverts(dec, enc, ok, bs) && All(ok, items)
    requires InSlice(bs, pos, EncodeItems(enc, items)) && pos + |EncodeItems(enc, items)| == |bs|
    ensures DecodeItems(dec, |bs|, pos) == Ok(items, |bs|)
    decreases items
  {
    if items.Cons? {
      InSliceSplit(bs, pos, enc(items.head), EncodeItems(enc, items.tail));
      DecodeItemsAt(dec, enc, ok, bs, pos + |enc(items.head)|, items.tail);
    }
  }

  function ItemChecker(isa: Isa): Item -> bool { it => ItemOk(isa, it) }

  lemma {:induction false} ItemsAreOk(isa: Isa, enc: Encoder, items: List<Item>)
    requires ItemsOk(isa, items)
    ensures All(ItemChecker(isa), items) && |EncodeItems(ItemEncoder(isa, enc), items)| == TotalWidth(items)
    decreases items
  {
    if items.Cons? { ItemsAreOk(isa, enc, items.tail); }
  }

  lemma ItemsInvert(isa: Isa, get: Decoder, enc: Encoder, bs: seq<byte>)
    requires Reads(get, enc, bs)
    ensures Inverts(ItemDecoder(isa, get), ItemEncoder(isa, enc), ItemChecker(isa), bs)
  {
    forall pos: nat, it | ItemOk(isa, it) && InSlice(bs, pos, EncodeItem(isa, enc, it))
      ensures DecodeItem(isa, get, pos) == Ok(it, pos + |EncodeItem(isa, enc, it)|)
    {
      DecodeItemAt(isa, get, enc, bs, pos, it);
    }
  }

  lemma SliceReads(bs: seq<byte>)
    ensures Reads(SliceDecoder(bs), EncodeOperand, bs)
  {
    forall pos: nat, o | OperandOk(o) && InSlice(bs, pos, EncodeOperand(o))
      ensures DecodeField(SliceReader(bs), pos, FieldOf(o)) == Ok(o, pos + FieldWidth(FieldOf(o)))
    {
      ParseEncode(o);
    }
  }

  /**
   For every operation table and every list of instructions with their branch tables, decoding the
   concatenated encodings gives back exactly that list, and consumes exactly the sum of the widths.
   */
  lemma {:induction false} RoundTrip(isa: Isa, items: List<Item>)
    requires ItemsOk(isa, items)
    ensures DecodeAll(isa, EncodeAll(isa, items)) == Ok(items, TotalWidth(items))
  {
    var bs := EncodeAll(isa, items);
    SliceReads(bs);
    SliceWithin(bs);
    assert bs[0..|bs|] == bs;
    ItemsAreOk(isa, EncodeOperand, items);
    ItemsInvert(isa, SliceDecoder(bs), EncodeOperand, bs);
    ItemsAdvance(isa, SliceDecoder(bs), |bs|);
    DecodeItemsAt(ItemDecoder(isa, SliceDecoder(bs)), ItemEncoder(isa, EncodeOperand), ItemChecker(isa), bs, 0, items);
  }
}
