/** What a line of a listing shows. */
module TextLaws {
  import opened Lists
  import opened Wrappers
  import opened Words
  import opened Operands
  import opened Codec
  import opened Disas

  lemma {:induction false} ArgShown(flags: Flags, start: nat, args: List<Operand>, k: nat)
    requires k < Length(args)
    ensures Length(ShowArgs(flags, start, args)) == Length(args)
    ensures var o, t := Nth(args, k), Nth(ShowArgs(flags, start, args), k);
            t == if o.PcRelArg? then Target(o.off, U64(start + flags.startOffset + o.off)) else Shown(o)
    decreases args
  {
    ArgsShown(flags, start, args);
    if k != 0 { ArgShown(flags, start, args.tail, k - 1); }
  }

  lemma {:induction false} ArgsShown(flags: Flags, start: nat, args: List<Operand>)
    ensures Length(ShowArgs(flags, start, args)) == Length(args)
  {
    if args.Cons? { ArgsShown(flags, start, args.tail); }
  }

  /**
   The text of an instruction is its mnemonic and then its operands in order, each by its value, and
   an offset with the address that it leads to from the start of the instruction.
   */
  lemma {:induction false} TextMeant(flags: Flags, start: nat, i: Instr, k: nat)
    requires k < Length(i.args)
    ensures var text := OpText(flags, start, i);
            && Length(text) == 1 + Length(i.args) && Nth(text, 0) == Mnemonic(i.ext, i.code)
            && var o := Nth(i.args, k);
               Nth(text, 1 + k) ==
                 if o.PcRelArg? then Target(o.off, U64(start + flags.startOffset + o.off)) else Shown(o)
  {
    ArgShown(flags, start, i.args, k);
  }

  /** The offset column and the dump, as far as they are switched on, tell where the line's bytes stand. */
  lemma LineMeant(flags: Flags, raw: seq<byte>, start: nat, end: nat, text: List<Token>)
    requires start <= end <= |raw|
    ensures var l := LineOver(flags, raw, start, end, text);
            && l.text == text && (l.offset.Some? <==> flags.offsets) && (l.dump.Some? <==> flags.hexdump)
            && (l.offset.Some? ==> l.offset.value == flags.startOffset + start)
            && (l.dump.Some? ==>
                  |l.dump.value| == end - start && forall k :: start <= k < end ==> l.dump.value[k - start] == raw[k])
  {
  }

  /** A branch-table entry shows its target when it could be read and tables are to be printed, and else nothing. */
  lemma EntryMeant(flags: Flags, start: nat, off: int, p: nat, e: DecodingError)
    ensures EntryText(flags, start, Ok(PcRelArg(off), p)) ==
              if flags.brTables then Cons(Target(off, U64(start + flags.startOffset + off)), Nil) else Nil
    ensures EntryText(flags, start, Err(e, p)) == Nil
  {
  }
}
