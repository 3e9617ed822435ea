/** The streams and visitors as the source has them: objects that are updated in place. */
module Streams {
  import opened Lists
  import opened Wrappers
  import opened Words
  import opened Operands
  import opened Codec

  /** `SafeBytecodeStream`: the bytes that remain, and how many were read before them. */
  class SafeBytecodeStream {
    const original: seq<byte>
    var bytecode: seq<byte>
    var position: nat

    /** What remains is the original from the position on. */
    predicate Valid()
      reads this
    {
      position <= |original| && bytecode == original[position..]
    }

    constructor (bs: seq<byte>)
      ensures Valid() && original == bs && position == 0
    {
      original, bytecode, position := bs, bs, 0;
    }

    method Read(n: nat) returns (r: Dec<seq<byte>>)
      requires Valid()
      modifies this
      ensures Valid() && r == ReadAt(SliceReader(original), old(position), n) && old(position) <= position == r.pos
      ensures r.Err? ==> bytecode == old(bytecode) && r.error == UnexpectedEof(old(position))
    {
      if n <= |bytecode| {
        r := Ok(bytecode[..n], position + n);
        assert bytecode[..n] == original[position..position + n];
        bytecode := bytecode[n..];
        position := position + n;
      } else {
        r := Err(UnexpectedEof(position), position);
      }
    }

    /** `T::decode` for the field type `f`. */
    method DecodeOperand(f: Field) returns (r: Dec<Operand>)
      requires Valid()
      modifies this
      ensures Valid() && r == SliceDecoder(original)(old(position), f) && old(position) <= position == r.pos
    {
      var raw := Read(FieldWidth(f));
      if raw.Err? {
        r := Err(raw.error, raw.pos);
      } else {
        var v := ParseField(f, raw.value);
        r := if v.Some? then Ok(v.value, position) else Err(InvalidReg(position, raw.value[0]), position);
      }
      assert r == DecodeField(SliceReader(original), old(position), f);
    }

    /** The fields of one instruction, in order; decoding stops at the first that fails. */
    method DecodeOperands(fs: List<Field>) returns (r: Dec<List<Operand>>)
      requires Valid()
      modifies this
      ensures Valid() && r == DecodeFields(SliceDecoder(original), old(position), fs)
      ensures old(position) <= position == r.pos
      decreases fs
    {
      if fs.Nil? { return Ok(Nil, position); }
      var v := DecodeOperand(fs.head);
      if v.Err? { return Err(v.error, v.pos); }
      var vs := DecodeOperands(fs.tail);
      if vs.Err? { return Err(vs.error, vs.pos); }
      r := Ok(Cons(v.value, vs.value), position);
    }

    /** The opcode byte and, after `ExtendedOp`, the extended opcode. */
    method DecodeOpcodes(isa: Isa) returns (r: Dec<(bool, nat)>)
      requires Valid()
      modifies this
      ensures Valid() && r == DecodeOpcode(isa, SliceDecoder(original), old(position))
      ensures old(position) <= position == r.pos
    {
      var b := DecodeOperand(FInt(1, false));
      if b.Err? { return Err(b.error, b.pos); }
      var code := b.value.v;
      if code < |isa.ops| { return Ok((false, code), position); }
      if code > |isa.ops| { return Err(InvalidOpcode(position - 1, code), position); }
      var w := DecodeOperand(FInt(2, false));
      if w.Err? { return Err(w.error, w.pos); }
      var ext := w.value.v;
      if ext < |isa.ext| { return Ok((true, ext), position); }
      if ext > |isa.ext| { return Err(InvalidExtendedOpcode(position, ext), position); }
      r := Undefined(position);
    }

    method DecodeInstruction(isa: Isa) returns (r: Dec<Instr>)
      requires Valid()
      modifies this
      ensures Valid() && r == DecodeInstr(isa, SliceDecoder(original), old(position))
      ensures old(position) <= position == r.pos
    {
      assert DecodeInstr(isa, SliceDecoder(original), position) == DecodeOne(isa, SliceDecoder(original), position);
      var op := DecodeOpcodes(isa);
      if op.Err? { return Err(op.error, op.pos); }
      if op.Undefined? { return Undefined(op.pos); }
      var args := DecodeOperands(FieldsOf(isa, op.value.0, op.value.1));
      if args.Err? { return Err(args.error, args.pos); }
      r := Ok(Instr(op.value.0, op.value.1, args.value), position);
    }
  }

  // ----- Encoding -----

  /** A byte sink that encoders extend. */
  class Sink {
    var bytes: seq<byte>

    constructor ()
      ensures bytes == []
    {
      bytes := [];
    }

    method Extend(bs: seq<byte>)
      modifies this
      ensures bytes == old(bytes) + bs
    {
      bytes := bytes + bs;
    }

    /** One instruction: its opcode, then each of its fields. */
    method Encode(isa: Isa, i: Instr)
      modifies this
      ensures bytes == old(bytes) + EncodeInstr(isa, EncodeOperand, i)
    {
      if i.ext {
        Extend(EncodeOperand(IntArg(1, false, |isa.ops|)));
        Extend(EncodeOperand(IntArg(2, false, i.code)));
      } else {
        Extend(EncodeOperand(IntArg(1, false, i.code)));
      }
      assert bytes == old(bytes) + EncodeOpcode(isa, EncodeOperand, i);
      EncodeFields(i.args);
    }

    method EncodeFields(args: List<Operand>)
      modifies this
      ensures bytes == old(bytes) + EncodeArgs(EncodeOperand, args)
      decreases args
    {
      if args.Cons? {
        Extend(EncodeOperand(args.head));
        EncodeFields(args.tail);
      }
    }

    /** The offsets of a branch table, which the caller writes after `br_table32`. */
    method EncodeOffsets(table: List<int>)
      modifies this
      ensures bytes == old(bytes) + EncodeTable(EncodeOperand, table)
      decreases table
    {
      if table.Cons? {
        Extend(EncodeOperand(PcRelArg(table.head)));
        EncodeOffsets(table.tail);
      }
    }
  }
}
