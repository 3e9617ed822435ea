/** The disassembler: the lines it writes, the bytes they cover and the targets they print. */
module Disas {
  import opened Lists
  import opened Wrappers
  import opened Words
  import opened Operands
  import opened Codec

  /** A piece of a line's text. A relative offset is shown with the address it leads to. */
  datatype Token = Mnemonic(ext: bool, code: nat) | Shown(o: Operand) | Target(off: int, target: u64)

  /** One line: the offset and the hex dump when they are enabled, then the text. */
  datatype Line = Line(offset: Option<nat>, dump: Option<seq<byte>>, text: List<Token>)

  datatype Flags = Flags(offsets: bool, hexdump: bool, brTables: bool, startOffset: nat)

  function ShowOffset(flags: Flags, start: nat, off: int): Token { Target(off, U64(start + flags.startOffset + off)) }

  function ShowArgs(flags: Flags, start: nat, args: List<Operand>): List<Token>
  {
    match args
    case Nil => Nil
    case Cons(PcRelArg(off), rest) => Cons(ShowOffset(flags, start, off), ShowArgs(flags, start, rest))
    case Cons(o, rest) => Cons(Shown(o), ShowArgs(flags, start, rest))
  }

  /** `disas_op`. */
  function OpText(flags: Flags, start: nat, i: Instr): List<Token>
  {
    Cons(Mnemonic(i.ext, i.code), ShowArgs(flags, start, i.args))
  }

  /** `after_visit`: a line over the bytes from `start` to the stream's position. */
  function LineOver(flags: Flags, raw: seq<byte>, start: nat, position: nat, text: List<Token>): Line
    requires start <= position <= |raw|
  {
    Line(if flags.offsets then Some(start + flags.startOffset) else None,
         if flags.hexdump then Some(raw[start..position]) else None, text)
  }

  /** The text of a branch-table entry, which is empty when the entry could not be read. */
  function EntryText(flags: Flags, start: nat, d: Dec<Operand>): List<Token>
  {
    if d.Ok? && d.value.PcRelArg? && flags.brTables then Cons(ShowOffset(flags, start, d.value.off), Nil) else Nil
  }

  /** Where the stream stands after trying to read an entry at `pos`. */
  function EntryEnd(d: Dec<Operand>, pos: nat): nat { if d.Ok? then d.pos else pos }

  /** The lines of `amt` branch-table entries. One that cannot be read covers no bytes. */
  function TableLines(flags: Flags, raw: seq<byte>, get: Decoder, pos: nat, amt: nat): List<Line>
    requires Within(get, |raw|) && pos <= |raw|
    decreases amt
  {
    if amt == 0 then Nil
    else
      var d := get(pos, FPcRel);
      var end := EntryEnd(d, pos);
      Cons(LineOver(flags, raw, pos, end, EntryText(flags, pos, d)), TableLines(flags, raw, get, end, amt - 1))
  }

  function ItemLines(isa: Isa, flags: Flags, raw: seq<byte>, get: Decoder, pos: nat, i: Instr, p: nat): List<Line>
    requires Within(get, |raw|) && pos <= p <= |raw|
  {
    Cons(LineOver(flags, raw, pos, p, OpText(flags, pos, i)), TableLines(flags, raw, get, p, TableLen(isa, i)))
  }

  // ----- The bytes that are dumped -----

  /** Whether a line shows the offset `from` and dumps bytes that stand there. */
  predicate DumpsAt(flags: Flags, raw: seq<byte>, line: Line, from: nat)
  {
    && line.offset == Some(from + flags.startOffset) && line.dump.Some?
    && from + |line.dump.value| <= |raw| && line.dump.value == raw[from..from + |line.dump.value|]
  }

  /** Where the dumps end, when they start at `from` and each line starts where the one before it ended. */
  function Covered(flags: Flags, raw: seq<byte>, lines: List<Line>, from: nat): Option<nat>
    decreases lines
  {
    if lines.Nil? then Some(from)
    else if DumpsAt(flags, raw, lines.head, from)
    then Covered(flags, raw, lines.tail, from + |lines.head.dump.value|)
    else None
  }

  function Dumped(lines: List<Line>): seq<byte>
  {
    if lines.Nil? then [] else (if lines.head.dump.Some? then lines.head.dump.value else []) + Dumped(lines.tail)
  }

  lemma {:induction false} CoversDumps(flags: Flags, raw: seq<byte>, lines: List<Line>, from: nat, to: nat)
    requires Covered(flags, raw, lines, from) == Some(to) && from <= |raw|
    ensures from <= to <= |raw| && Dumped(lines) == raw[from..to]
    decreases lines
  {
    if lines.Cons? {
      var mid := from + |lines.head.dump.value|;
      CoversDumps(flags, raw, lines.tail, mid, to);
      assert raw[from..to] == raw[from..mid] + raw[mid..to];
    }
  }

  lemma {:induction false} CoversAppend(flags: Flags, raw: seq<byte>, a: List<Line>, b: List<Line>, from: nat,
                                        mid: nat, to: nat)
    requires Covered(flags, raw, a, from) == Some(mid) && Covered(flags, raw, b, mid) == Some(to)
    ensures Covered(flags, raw, Append(a, b), from) == Some(to)
    decreases a
  {
    if a.Cons? { CoversAppend(flags, raw, a.tail, b, from + |a.head.dump.value|, mid, to); }
  }

  lemma {:induction false} TableCovers(flags: Flags, raw: seq<byte>, get: Decoder, pos: nat, amt: nat)
    requires Within(get, |raw|) && pos <= |raw| && flags.offsets && flags.hexdump
    ensures Covered(flags, raw, TableLines(flags, raw, get, pos, amt), pos) ==
              Some(pos + 4 * Length(DecodeTable(get, pos, amt)))
    decreases amt
  {
    if amt != 0 {
      var d := get(pos, FPcRel);
      TableCovers(flags, raw, get, EntryEnd(d, pos), amt - 1);
      if d.Err? { TruncatedTable(get, pos, amt - 1); }
    }
  }

  /** Where the stream stands after trying to read `amt` entries. */
  function TableEnd(get: Decoder, pos: nat, amt: nat): nat
    decreases amt
  {
    if amt == 0 then pos else TableEnd(get, EntryEnd(get(pos, FPcRel), pos), amt - 1)
  }

  lemma {:induction false} TableEndIs(get: Decoder, pos: nat, amt: nat)
    ensures TableEnd(get, pos, amt) == pos + 4 * Length(DecodeTable(get, pos, amt))
    decreases amt
  {
    if amt != 0 {
      TableEndIs(get, EntryEnd(get(pos, FPcRel), pos), amt - 1);
      if get(pos, FPcRel).Err? { TruncatedTable(get, pos, amt - 1); }
    }
  }

  lemma {:induction false} TruncatedTable(get: Decoder, pos: nat, amt: nat)
    requires get(pos, FPcRel).Err?
    ensures DecodeTable(get, pos, amt) == Nil
  {
  }

  /** The position after an instruction that ends at `p`, and its branch table. */
  function ItemEnd(isa: Isa, get: Decoder, i: Instr, p: nat): nat
  {
    p + 4 * Length(DecodeTable(get, p, TableLen(isa, i)))
  }

  lemma ItemEnds(isa: Isa, end: nat, get: Decoder, pos: nat)
    requires Within(get, end) && DecodeInstr(isa, get, pos).Ok?
    ensures var i := DecodeInstr(isa, get, pos); pos < i.pos <= ItemEnd(isa, get, i.value, i.pos) <= end
  {
    var i := DecodeInstr(isa, get, pos);
    InstrDecoded(isa, get, end, pos);
    TableDecoded(get, end, i.pos, TableLen(isa, i.value));
  }

  lemma {:induction false} ItemLinesCover(isa: Isa, flags: Flags, raw: seq<byte>, get: Decoder, pos: nat, i: Instr,
                                          p: nat)
    requires Within(get, |raw|) && pos <= p <= |raw| && flags.offsets && flags.hexdump
    ensures Covered(flags, raw, ItemLines(isa, flags, raw, get, pos, i, p), pos) == Some(ItemEnd(isa, get, i, p))
  {
    TableCovers(flags, raw, get, p, TableLen(isa, i));
  }

  /** The lines written from `pos` on, up to the end of the input or the first error. */
  function AllLines(isa: Isa, flags: Flags, raw: seq<byte>, get: Decoder, pos: nat): List<Line>
    requires Within(get, |raw|) && pos <= |raw|
    decreases |raw| - pos
  {
    var d := DecodeInstr(isa, get, pos);
    if pos == |raw| || !d.Ok? then Nil
    else
      ItemEnds(isa, |raw|, get, pos);
      Append(ItemLines(isa, flags, raw, get, pos, d.value, d.pos),
             AllLines(isa, flags, raw, get, ItemEnd(isa, get, d.value, d.pos)))
  }

  /** Where decoding stops: at the end of the input, or at the instruction that cannot be decoded. */
  function Stop(dec: nat -> Dec<Item>, end: nat, pos: nat): nat
    requires Advances(dec, end) && pos <= end
    decreases end - pos
  {
    if pos == end || !dec(pos).Ok? then pos else Stop(dec, end, dec(pos).pos)
  }

  /** An item is decoded when its instruction is, and ends after its branch table. */
  lemma {:induction false} ItemDecodes(isa: Isa, get: Decoder, pos: nat)
    ensures var d, i := ItemDecoder(isa, get)(pos), DecodeInstr(isa, get, pos);
            d.Ok? == i.Ok? && (i.Ok? ==> d.pos == ItemEnd(isa, get, i.value, i.pos))
  {
    assert ItemDecoder(isa, get)(pos) == DecodeItem(isa, get, pos);
  }

  lemma {:induction false} AllLinesCover(isa: Isa, flags: Flags, raw: seq<byte>, get: Decoder, pos: nat)
    requires Within(get, |raw|) && pos <= |raw| && flags.offsets && flags.hexdump
    requires Advances(ItemDecoder(isa, get), |raw|)
    ensures Covered(flags, raw, AllLines(isa, flags, raw, get, pos), pos) ==
              Some(Stop(ItemDecoder(isa, get), |raw|, pos))
    decreases |raw| - pos
  {
    var d := DecodeInstr(isa, get, pos);
    ItemDecodes(isa, get, pos);
    if pos != |raw| && d.Ok? {
      ItemEnds(isa, |raw|, get, pos);
      var next := ItemEnd(isa, get, d.value, d.pos);
      ItemLinesCover(isa, flags, raw, get, pos, d.value, d.pos);
      AllLinesCover(isa, flags, raw, get, next);
      CoversAppend(flags, raw, ItemLines(isa, flags, raw, get, pos, d.value, d.pos),
                   AllLines(isa, flags, raw, get, next), pos, next, Stop(ItemDecoder(isa, get), |raw|, next));
    }
  }

  /** The whole input is covered exactly when all of it decodes. */
  lemma {:induction false} StopsAtEnd(dec: nat -> Dec<Item>, end: nat, pos: nat)
    requires Advances(dec, end) && pos <= end
    ensures Stop(dec, end, pos) <= end && (Stop(dec, end, pos) == end <==> DecodeItems(dec, end, pos).Ok?)
    decreases end - pos
  {
    if pos != end && dec(pos).Ok? { StopsAtEnd(dec, end, dec(pos).pos); }
  }

  /** The lines that disassembling a slice writes. */
  function Disassembly(isa: Isa, flags: Flags, raw: seq<byte>): List<Line>
  {
    SliceWithin(raw);
    AllLines(isa, flags, raw, SliceDecoder(raw), 0)
  }

  /** The position at which disassembling a slice stops. */
  function DisassemblyEnd(isa: Isa, raw: seq<byte>): nat
  {
    SliceWithin(raw);
    ItemsAdvance(isa, SliceDecoder(raw), |raw|);
    Stop(ItemDecoder(isa, SliceDecoder(raw)), |raw|, 0)
  }

  /**
   The byte ranges dumped by the disassembler are consecutive, and together they are exactly the
   bytes of the instructions it decoded, also across branch tables cut short by the end of the input.
   */
  lemma {:induction false} DumpsConsumed(isa: Isa, flags: Flags, raw: seq<byte>)
    requires flags.offsets && flags.hexdump
    ensures Covered(flags, raw, Disassembly(isa, flags, raw), 0) == Some(DisassemblyEnd(isa, raw))
    ensures DisassemblyEnd(isa, raw) <= |raw| && Dumped(Disassembly(isa, flags, raw)) == raw[..DisassemblyEnd(isa, raw)]
    ensures DisassemblyEnd(isa, raw) == |raw| <==> DecodeAll(isa, raw).Ok?
  {
    var get := SliceDecoder(raw);
    SliceWithin(raw);
    ItemsAdvance(isa, get, |raw|);
    AllLinesCover(isa, flags, raw, get, 0);
    CoversDumps(flags, raw, AllLines(isa, flags, raw, get, 0), 0, Stop(ItemDecoder(isa, get), |raw|, 0));
    StopsAtEnd(ItemDecoder(isa, get), |raw|, 0);
  }
}
