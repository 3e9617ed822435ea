/** The disassembler and the collecting visitor as objects that are driven by the decoder. */
module Visitors {
  import opened Lists
  import opened Wrappers
  import opened Words
  import opened Operands
  import opened Codec
  import opened Disas
  import opened Streams

  /** An offset that cannot be read leaves the stream where it was. */
  lemma FailedOffset(bs: seq<byte>, pos: nat)
    requires SliceDecoder(bs)(pos, FPcRel).Err?
    ensures SliceDecoder(bs)(pos, FPcRel).pos == pos
  {
  }

  /** Writing the pending line and starting that of the next entry leaves all lines together as they were. */
  lemma {:induction false} EntryAdded(flags: Flags, raw: seq<byte>, get: Decoder, lines: List<Line>, was: Line,
                                      pos: nat, amt: nat)
    requires Within(get, |raw|) && pos <= |raw| && amt > 0
    ensures var d := get(pos, FPcRel);
            var end := EntryEnd(d, pos);
            Append(lines, Cons(was, TableLines(flags, raw, get, pos, amt))) ==
              Append(Append(lines, Cons(was, Nil)),
                     Cons(LineOver(flags, raw, pos, end, EntryText(flags, pos, d)),
                          TableLines(flags, raw, get, end, amt - 1)))
  {
    AppendAssoc(lines, Cons(was, Nil), TableLines(flags, raw, get, pos, amt));
  }

  class Disassembler {
    const raw: seq<byte>
    const stream: SafeBytecodeStream
    var flags: Flags
    var start: nat
    var temp: List<Token>
    var lines: List<Line>

    predicate Valid()
      reads this, stream
    {
      stream.Valid() && stream.original == raw && start <= stream.position
    }

    constructor (bs: seq<byte>)
      ensures Valid() && fresh(stream) && raw == bs && stream.position == 0
      ensures flags == Flags(true, true, true, 0) && temp == Nil && lines == Nil
    {
      raw := bs;
      stream := new SafeBytecodeStream(bs);
      flags := Flags(true, true, true, 0);
      start, temp, lines := 0, Nil, Nil;
    }

    /** The line over the bytes that have been read since `start`. */
    function Pending(): Line
      requires Valid()
      reads this, stream
    {
      LineOver(flags, raw, start, stream.position, temp)
    }

    method BeforeVisit()
      requires Valid()
      modifies this`start
      ensures Valid() && start == stream.position
    {
      start := stream.position;
    }

    method AfterVisit()
      requires Valid()
      modifies this`lines, this`temp
      ensures Valid() && lines == Append(old(lines), Cons(old(Pending()), Nil)) && temp == Nil
    {
      lines := Append(lines, Cons(Pending(), Nil));
      temp := Nil;
    }

    /** One turn of the loop over a branch table: write the pending line and read the next entry. */
    method NextEntry()
      requires Valid() && this as object != stream
      modifies this`lines, this`temp, this`start, stream
      ensures Valid() && lines == Append(old(lines), Cons(old(Pending()), Nil))
      ensures start == old(stream.position)
      ensures var d := SliceDecoder(raw)(start, FPcRel);
              stream.position == EntryEnd(d, start) && temp == EntryText(flags, start, d)
    {
      AfterVisit();
      start := stream.position;
      var d := stream.DecodeOperand(FPcRel);
      if d.Err? { FailedOffset(raw, start); }
      temp := EntryText(flags, start, d);
    }

    /** The lines written, the pending one, and those of `n` entries to come. */
    ghost function AllWith(n: nat): List<Line>
      requires Valid() && Within(SliceDecoder(raw), |raw|)
      reads this, stream
    {
      Append(lines, Cons(Pending(), TableLines(flags, raw, SliceDecoder(raw), stream.position, n)))
    }

    /** That turn neither changes the lines that there will be, nor where the table ends. */
    method EntryTurn(ghost n: nat)
      requires Valid() && this as object != stream && Within(SliceDecoder(raw), |raw|) && n > 0
      modifies this`lines, this`temp, this`start, stream
      ensures Valid() && AllWith(n - 1) == old(AllWith(n))
      ensures TableEnd(SliceDecoder(raw), stream.position, n - 1) ==
                TableEnd(SliceDecoder(raw), old(stream.position), n)
    {
      ghost var get, was, before, pos := SliceDecoder(raw), Pending(), lines, stream.position;
      NextEntry();
      EntryAdded(flags, raw, get, before, was, pos, n);
    }

    /** `disas_br_table32` and, with an empty table, any other visit: the last line is left pending. */
    method Visit(isa: Isa, i: Instr)
      requires Valid() && Within(SliceDecoder(raw), |raw|)
      modifies this`lines, this`temp, this`start, stream
      ensures Valid()
      ensures Append(lines, Cons(Pending(), Nil)) ==
              Append(old(lines), ItemLines(isa, flags, raw, SliceDecoder(raw), old(start), i, old(stream.position)))
      ensures stream.position == ItemEnd(isa, SliceDecoder(raw), i, old(stream.position))
    {
      temp := OpText(flags, start, i);
      var amt := TableLen(isa, i);
      TableEndIs(SliceDecoder(raw), stream.position, amt);
      ghost var all, end := AllWith(amt), TableEnd(SliceDecoder(raw), stream.position, amt);
      for k := 0 to amt
        invariant Valid() && AllWith(amt - k) == all
        invariant TableEnd(SliceDecoder(raw), stream.position, amt - k) == end
      {
        EntryTurn(amt - k);
      }
    }

    /** `decode_one`: on success the lines of one item are written, on failure none. */
    method DecodeOne(isa: Isa) returns (r: Dec<Instr>)
      requires Valid() && Within(SliceDecoder(raw), |raw|)
      modifies this`lines, this`temp, this`start, stream
      ensures Valid() && r == DecodeInstr(isa, SliceDecoder(raw), old(stream.position))
      ensures r.Ok? ==> old(stream.position) <= r.pos <= |raw|
      ensures r.Ok? ==> stream.position == ItemEnd(isa, SliceDecoder(raw), r.value, r.pos)
      ensures r.Ok? ==>
                var get, pos := SliceDecoder(raw), old(stream.position);
                lines == Append(old(lines), ItemLines(isa, flags, raw, get, pos, r.value, r.pos))
      ensures !r.Ok? ==> lines == old(lines)
    {
      BeforeVisit();
      ghost var pos := stream.position;
      r := stream.DecodeInstruction(isa);
      if r.Ok? {
        InstrDecoded(isa, SliceDecoder(raw), |raw|, pos);
        Visit(isa, r.value);
        AfterVisit();
      }
    }

    /** `disassemble_all`: the lines of every item up to the end of the input or the first error. */
    method DisassembleAll(isa: Isa) returns (r: Dec<()>)
      requires Valid() && stream.position == 0 && lines == Nil
      modifies this`lines, this`temp, this`start, stream
      ensures Valid() && lines == Disassembly(isa, flags, raw)
      ensures r.Ok? <==> DisassemblyEnd(isa, raw) == |raw|
    {
      SliceWithin(raw);
      ghost var get := SliceDecoder(raw);
      ghost var all, dec := AllLines(isa, flags, raw, get, 0), ItemDecoder(isa, get);
      ItemsAdvance(isa, get, |raw|);
      while |stream.bytecode| > 0
        invariant Valid()
        invariant Append(lines, AllLines(isa, flags, raw, get, stream.position)) == all
        invariant Stop(dec, |raw|, stream.position) == Stop(dec, |raw|, 0)
        decreases |stream.bytecode|
      {
        ghost var pos, before := stream.position, lines;
        ItemDecodes(isa, get, pos);
        var d := DecodeOne(isa);
        if !d.Ok? {
          AppendNil(lines);
          return if d.Err? then Err(d.error, d.pos) else Undefined(d.pos);
        }
        ItemEnds(isa, |raw|, get, pos);
        AppendAssoc(before, ItemLines(isa, flags, raw, get, pos, d.value, d.pos),
                    AllLines(isa, flags, raw, get, stream.position));
      }
      AppendNil(lines);
      r := Ok((), stream.position);
    }
  }

  // ----- A visitor that collects instructions with their branch tables -----

  /** The elements of `prefix` followed by those of `rest`. */
  function Prepend<T>(prefix: seq<T>, rest: List<T>): List<T>
  {
    if prefix == [] then rest else Prepend(prefix[..|prefix| - 1], Cons(prefix[|prefix| - 1], rest))
  }

  lemma {:induction false} PrependPush<T>(prefix: seq<T>, x: T, rest: List<T>)
    ensures Prepend(prefix + [x], rest) == Prepend(prefix, Cons(x, rest))
  {
    assert (prefix + [x])[..|prefix|] == prefix;
  }

  lemma {:induction false} OffsetsOn(get: Decoder, pos: nat, amt: nat, offsets: seq<int>)
    requires amt > 0
    ensures Prepend(offsets, DecodeTable(get, pos, amt)) ==
              if get(pos, FPcRel).Ok?
              then Prepend(offsets + [get(pos, FPcRel).value.off], DecodeTable(get, pos + 4, amt - 1))
              else Prepend(offsets, DecodeTable(get, pos, amt - 1))
  {
    if get(pos, FPcRel).Ok? {
      PrependPush(offsets, get(pos, FPcRel).value.off, DecodeTable(get, pos + 4, amt - 1));
    }
  }

  /** One turn: the next offset, if there is one. Those that are read in all stay the same. */
  method ReadOffset(stream: SafeBytecodeStream, offsets0: seq<int>, ghost n: nat) returns (offsets: seq<int>)
    requires stream.Valid() && n > 0
    modifies stream
    ensures stream.Valid() && stream.position - 4 * |offsets| == old(stream.position) - 4 * |offsets0|
    ensures var get := SliceDecoder(stream.original);
            Prepend(offsets, DecodeTable(get, stream.position, n - 1)) ==
              Prepend(offsets0, DecodeTable(get, old(stream.position), n))
  {
    offsets := offsets0;
    OffsetsOn(SliceDecoder(stream.original), stream.position, n, offsets);
    var d := stream.DecodeOperand(FPcRel);
    if d.Ok? {
      offsets := offsets + [d.value.off];
    } else {
      FailedOffset(stream.original, old(stream.position));
    }
  }

  /**
   The offsets that trail `br_table32`. The loop takes all its turns: one that finds no offset consumes
   nothing, and neither do those after it.
   */
  method ReadOffsets(stream: SafeBytecodeStream, amt: nat) returns (offsets: seq<int>)
    requires stream.Valid()
    modifies stream
    ensures stream.Valid() && stream.position == old(stream.position) + 4 * |offsets|
    ensures Prepend(offsets, Nil) == DecodeTable(SliceDecoder(stream.original), old(stream.position), amt)
  {
    ghost var all := DecodeTable(SliceDecoder(stream.original), stream.position, amt);
    offsets := [];
    for k := 0 to amt
      invariant stream.Valid() && stream.position == old(stream.position) + 4 * |offsets|
      invariant Prepend(offsets, DecodeTable(SliceDecoder(stream.original), stream.position, amt - k)) == all
    {
      offsets := ReadOffset(stream, offsets, amt - k);
    }
  }

  lemma {:induction false} PrependLength<T>(prefix: seq<T>, rest: List<T>)
    ensures Length(Prepend(prefix, rest)) == |prefix| + Length(rest)
    decreases |prefix|
  {
    if prefix != [] { PrependLength(prefix[..|prefix| - 1], Cons(prefix[|prefix| - 1], rest)); }
  }

  method CollectOne(stream: SafeBytecodeStream, isa: Isa) returns (r: Dec<Item>)
    requires stream.Valid()
    modifies stream
    ensures stream.Valid() && r == DecodeItem(isa, SliceDecoder(stream.original), old(stream.position))
    ensures r.Ok? ==> stream.position == r.pos
  {
    var d := stream.DecodeInstruction(isa);
    if d.Err? { return Err(d.error, d.pos); }
    if d.Undefined? { return Undefined(d.pos); }
    var offsets := ReadOffsets(stream, TableLen(isa, d.value));
    PrependLength(offsets, Nil);
    r := Ok(Item(d.value, Prepend(offsets, Nil)), stream.position);
  }

  function Joined(prefix: seq<Item>, d: Dec<List<Item>>): Dec<List<Item>>
  {
    if d.Ok? then Ok(Prepend(prefix, d.value), d.pos) else d
  }

  lemma JoinedPush(prefix: seq<Item>, it: Item, d: Dec<List<Item>>)
    ensures Joined(prefix + [it], d) == Joined(prefix, if d.Ok? then Ok(Cons(it, d.value), d.pos) else d)
  {
    if d.Ok? { PrependPush(prefix, it, d.value); }
  }

  /** `decode_all`: the results pushed so far are returned when the input ends. */
  method CollectAll(stream: SafeBytecodeStream, isa: Isa) returns (results: seq<Item>, r: Dec<()>)
    requires stream.Valid() && stream.position == 0
    modifies stream
    ensures r.Ok? ==> DecodeAll(isa, stream.original) == Ok(Prepend(results, Nil), r.pos)
    ensures r.Err? ==> DecodeAll(isa, stream.original) == Err(r.error, r.pos)
    ensures r.Undefined? ==> DecodeAll(isa, stream.original) == Undefined(r.pos)
  {
    ghost var get, end := SliceDecoder(stream.original), |stream.original|;
    SliceWithin(stream.original);
    ItemsAdvance(isa, get, end);
    ghost var dec := ItemDecoder(isa, get);
    ghost var all := DecodeItems(dec, end, 0);
    results := [];
    while |stream.bytecode| > 0
      invariant stream.Valid()
      invariant Joined(results, DecodeItems(dec, end, stream.position)) == all
      decreases |stream.bytecode|
    {
      ghost var pos := stream.position;
      var d := CollectOne(stream, isa);
      assert dec(pos) == d;
      if d.Err? { return results, Err(d.error, d.pos); }
      if d.Undefined? { return results, Undefined(d.pos); }
      JoinedPush(results, d.value, DecodeItems(dec, end, stream.position));
      results := results + [d.value];
    }
    r := Ok((), stream.position);
  }
}
