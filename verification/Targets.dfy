/** The targets that the disassembler prints are the addresses that the interpreter jumps to. */
module Targets {
  import opened Lists
  import opened Wrappers
  import opened Words
  import opened Memory
  import opened Ops
  import opened Operands
  import opened Codec
  import opened Program
  import opened Unchecked
  import opened Machine
  import opened ControlLaws
  import opened Execution
  import opened Disas

  /** The branches and calls that carry a relative offset. */
  predicate HasOffset(c: Ctl) { c.Call? || c.Jump? || c.BrIf? || c.BrCmp? }

  predicate Taken(x: Regs, c: Ctl)
  {
    c.BrIf? || c.BrCmp? ==> IsTaken(x, c)
  }

  /** The targets in a line's text. */
  function Targets(text: List<Token>): List<int>
  {
    match text
    case Nil => Nil
    case Cons(Target(_, t), rest) => Cons(t as int, Targets(rest))
    case Cons(_, rest) => Targets(rest)
  }

  lemma {:induction false} ShowCons(flags: Flags, start: nat, args: List<Operand>)
    requires args.Cons?
    ensures args.head.PcRelArg? ==>
              Targets(ShowArgs(flags, start, args)) ==
              Cons(U64(start + flags.startOffset + args.head.off) as int, Targets(ShowArgs(flags, start, args.tail)))
    ensures !args.head.PcRelArg? ==> Targets(ShowArgs(flags, start, args)) == Targets(ShowArgs(flags, start, args.tail))
  {
  }

  lemma {:induction false} CallShown(flags: Flags, start: nat, code: nat, args: List<Operand>)
    requires LowerCall(code, args).Some?
    ensures Targets(ShowArgs(flags, start, args)) ==
            Cons(U64(start + flags.startOffset + LowerCall(code, args).value.off) as int, Nil)
  {
    ShowCons(flags, start, args);
    if code > 1 {
      ShowCons(flags, start, args.tail);
      if code > 2 {
        ShowCons(flags, start, args.tail.tail);
        if code > 3 {
          ShowCons(flags, start, args.tail.tail.tail);
          if code > 4 { ShowCons(flags, start, args.tail.tail.tail.tail); }
        }
      }
    }
  }

  lemma {:induction false} BranchShown(flags: Flags, start: nat, code: nat, args: List<Operand>)
    requires LowerBranch(code, args).Some?
    ensures Targets(ShowArgs(flags, start, args)) ==
            Cons(U64(start + flags.startOffset + LowerBranch(code, args).value.off) as int, Nil)
  {
    ShowCons(flags, start, args);
    ShowCons(flags, start, args.tail);
    if args.tail.tail.Cons? { ShowCons(flags, start, args.tail.tail); }
  }

  /** The text of a branch or call prints exactly one target: its offset from its own first byte. */
  lemma OffsetShown(flags: Flags, start: nat, i: Instr, c: Ctl)
    requires Lower(i) == Some(CtlOp(c)) && HasOffset(c)
    ensures Targets(OpText(flags, start, i)) == Cons(U64(start + flags.startOffset + c.off) as int, Nil)
  {
    if 1 <= i.code <= 5 {
      CallShown(flags, start, i.code, i.args);
    } else if 9 <= i.code <= 62 {
      BranchShown(flags, start, i.code, i.args);
    } else {
      ShowCons(flags, start, i.args);
    }
  }

  lemma JumpsTo(env: Env, s: State, c: Ctl)
    requires HasOffset(c)
    ensures var f := Exec(env, s, CtlOp(c));
            f.Continue? && f.s.pc == if Taken(s.x, c) then U64(U64(s.pc - ClaimedWidth(CtlOp(c))) + c.off) else s.pc
  {
  }

  /** The instruction at an address, and the address after it. */
  predicate Fetched(env: Env, a: u64, op: Op, next: u64) { env.fetch(a) == Some((op, next)) }

  lemma {:induction false} FetchesOf(isa: Isa, get: Decoder, lower: Instr -> Option<Op>, env: Env, a: nat, i: Instr,
                                     p: nat, op: Op)
    requires env.fetch == Fetch(isa, get, lower) && DecodeInstr(isa, get, a) == Ok(i, p) && lower(i) == Some(op)
    requires a < B64 && p < B64
    ensures Fetched(env, a, op, p)
  {
    U64Id(p);
  }

  /** The interpreter fetches, at `base` plus an offset, what the disassembler decodes at that offset. */
  lemma {:induction false} FetchesAt(isa: Isa, get: Decoder, base: nat, get': Decoder, lower: Instr -> Option<Op>,
                                     env: Env, pos: nat, i: Instr, p: nat, op: Op)
    requires Refines(get, base, get') && env.fetch == Fetch(isa, get', lower) && lower(i) == Some(op)
    requires DecodeInstr(isa, get, pos) == Ok(i, p) && base + p < B64
    ensures base + pos < B64 && base + p < B64 && Fetched(env, base + pos, op, base + p)
  {
    InstrAdvances(isa, get, pos, i, p);
    InstrRefined(isa, Streams(get, base, get'), pos);
    FetchesOf(isa, get', lower, env, base + pos, i, base + p, op);
  }

  /** Relative to the address at which offset zero of the listing is loaded. */
  function Loaded(base: nat, flags: Flags, target: int): u64 { U64(base - flags.startOffset + target) }

  lemma {:induction false} Rebase(base: nat, flags: Flags, shown: int, dest: int)
    requires shown - flags.startOffset == dest - base
    ensures Loaded(base, flags, U64(shown)) == U64(dest)
  {
    U64Shift(shown, base - flags.startOffset);
  }

  // ----- Where the interpreter goes -----

  lemma BranchStep(env: Env, s: State, c: Ctl, after: u64, dest: int) returns (next: State)
    requires HasOffset(c) && Fetched(env, s.pc, CtlOp(c), after) && after == s.pc + ClaimedWidth(CtlOp(c))
    requires dest == s.pc + c.off
    ensures Stepper(env)(s) == Some(Continue(next)) && next.pc == if Taken(s.x, c) then U64(dest) else after
  {
    JumpsTo(env, s.(pc := after), c);
    U64Id(s.pc);
    next := Step(env, s).s;
  }

  /** Index `k` is the one that a register selects from a table: its own, or the last one. */
  predicate Selects(x: Regs, idx: Reg, amt: u32, k: u32)
  {
    amt > 0 && k == if Low(x[idx]) < amt then Low(x[idx]) else amt - 1
  }

  lemma TableStep(env: Env, s: State, idx: Reg, amt: u32, after: u64, k: u32, at: u64, dest: int) returns (next: State)
    requires Fetched(env, s.pc, CtlOp(BrTable(idx, amt)), after) && Selects(s.x, idx, amt, k)
    requires at as int == after as int + 4 * k as int && dest == at + env.entry(at)
    ensures Stepper(env)(s) == Some(Continue(next)) && next.pc == U64(dest)
  {
    next := Step(env, s).s;
    TableSelects(env, s.(pc := after), idx, amt, at);
  }

  /** The branch-table offset at a position, if there is one. */
  predicate EntryIs(get: Decoder, q: nat, off: int) { get(q, FPcRel).Ok? && get(q, FPcRel).value.off == off }

  lemma {:induction false} EntryRefined(r: Refinement, env: Env, q: nat, off: int)
    requires env.entry == Entry(r.get') && EntryIs(r.get, q, off) && r.base + q < B64
    ensures env.entry(r.base + q) == off
  {
  }

  /** A slice stands in memory at `base`, and the interpreter fetches from there. */
  ghost predicate InMemory(isa: Isa, lower: Instr -> Option<Op>, env: Env, m: Mem, base: nat, raw: seq<byte>)
  {
    && Holds(m, base, raw) && base + |raw| < B64
    && env.fetch == Fetch(isa, PointerDecoder(m), lower) && env.entry == Entry(PointerDecoder(m))
  }

  lemma {:induction false} FetchedThere(isa: Isa, lower: Instr -> Option<Op>, env: Env, m: Mem, base: nat,
                                        raw: seq<byte>, pos: nat, i: Instr, p: nat, op: Op)
    requires InMemory(isa, lower, env, m, base, raw) && p <= |raw|
    requires DecodeInstr(isa, SliceDecoder(raw), pos) == Ok(i, p) && lower(i) == Some(op)
    ensures base + pos < B64 && base + p < B64 && Fetched(env, base + pos, op, base + p)
  {
    PointerRefinesSlice(m, base, raw);
    FetchesAt(isa, SliceDecoder(raw), base, PointerDecoder(m), lower, env, pos, i, p, op);
  }

  lemma {:induction false} EntryThere(isa: Isa, lower: Instr -> Option<Op>, env: Env, m: Mem, base: nat, raw: seq<byte>,
                                      q: nat, off: int)
    requires InMemory(isa, lower, env, m, base, raw) && q < |raw| && EntryIs(SliceDecoder(raw), q, off)
    ensures base + q < B64 && env.entry(base + q) == off
  {
    PointerRefinesSlice(m, base, raw);
    EntryRefined(Streams(SliceDecoder(raw), base, PointerDecoder(m)), env, q, off);
  }

  lemma {:induction false} DecodedWidth(isa: Isa, get: Decoder, pos: nat, i: Instr, p: nat, c: Ctl)
    requires DecodeInstr(isa, get, pos) == Ok(i, p) && Lowering()(i) == Some(CtlOp(c)) && HasOffset(c)
    ensures p == pos + ClaimedWidth(CtlOp(c))
  {
    assert Lower(i) == Lowering()(i);
    LowerWidth(i);
    InstrAdvances(isa, get, pos, i, p);
  }

  /** Where a branch or call goes that is found in memory. */
  lemma {:induction false} BranchGoes(isa: Isa, lower: Instr -> Option<Op>, env: Env, m: Mem, base: nat, raw: seq<byte>,
                                      s: State, pos: nat, i: Instr, p: nat, c: Ctl, dest: int)
    returns (next: State)
    requires InMemory(isa, lower, env, m, base, raw) && s.pc == base + pos && p <= |raw|
    requires DecodeInstr(isa, SliceDecoder(raw), pos) == Ok(i, p) && lower(i) == Some(CtlOp(c)) && HasOffset(c)
    requires p == pos + ClaimedWidth(CtlOp(c)) && dest == base + pos + c.off
    ensures Stepper(env)(s) == Some(Continue(next)) && next.pc == if Taken(s.x, c) then U64(dest) else base + p
  {
    FetchedThere(isa, lower, env, m, base, raw, pos, i, p, CtlOp(c));
    next := BranchStep(env, s, c, base + p, dest);
  }

  /** Where a `br_table32` goes that is found in memory. */
  lemma {:induction false} TableGoes(isa: Isa, lower: Instr -> Option<Op>, env: Env, m: Mem, base: nat, raw: seq<byte>,
                                     s: State, pos: nat, i: Instr, p: nat, idx: Reg, amt: u32, k: u32, at: u64,
                                     dest: int)
    returns (next: State)
    requires InMemory(isa, lower, env, m, base, raw) && s.pc == base + pos && p <= |raw|
    requires DecodeInstr(isa, SliceDecoder(raw), pos) == Ok(i, p) && lower(i) == Some(CtlOp(BrTable(idx, amt)))
    requires Selects(s.x, idx, amt, k) && at as int == base + p + 4 * k as int && dest == at + env.entry(at)
    ensures Stepper(env)(s) == Some(Continue(next)) && next.pc == U64(dest)
  {
    FetchedThere(isa, lower, env, m, base, raw, pos, i, p, CtlOp(BrTable(idx, amt)));
    next := TableStep(env, s, idx, amt, base + p, k, at, dest);
  }

  // ----- What the disassembler prints for an instruction -----

  /** The lines that the disassembler writes for the instruction between two offsets of a slice. */
  function LinesIn(isa: Isa, flags: Flags, raw: seq<byte>): (nat, Instr, nat) -> List<Line>
  {
    SliceWithin(raw);
    (pos: nat, i: Instr, p: nat) =>
      if pos <= p <= |raw| then ItemLines(isa, flags, raw, SliceDecoder(raw), pos, i, p) else Nil
  }

  function LinesAt(isa: Isa, flags: Flags, raw: seq<byte>, pos: nat, i: Instr, p: nat): List<Line>
  {
    LinesIn(isa, flags, raw)(pos, i, p)
  }

  lemma {:induction false} LinesAre(isa: Isa, flags: Flags, raw: seq<byte>, pos: nat, i: Instr, p: nat)
    requires pos <= p <= |raw|
    ensures Within(SliceDecoder(raw), |raw|)
    ensures LinesAt(isa, flags, raw, pos, i, p) == ItemLines(isa, flags, raw, SliceDecoder(raw), pos, i, p)
  {
    SliceWithin(raw);
  }

  /** The first line of a branch or call prints its target, and no other. */
  lemma {:induction false} OffsetLine(isa: Isa, flags: Flags, raw: seq<byte>, pos: nat, i: Instr, p: nat, c: Ctl,
                                      shown: int)
    requires pos <= p <= |raw| && Lowering()(i) == Some(CtlOp(c)) && HasOffset(c)
    requires shown == pos + c.off + flags.startOffset
    ensures var lines := LinesAt(isa, flags, raw, pos, i, p);
            0 < Length(lines) && Targets(Nth(lines, 0).text) == Cons(U64(shown) as int, Nil)
  {
    LinesAre(isa, flags, raw, pos, i, p);
    assert Lower(i) == Lowering()(i);
    OffsetShown(flags, pos, i, c);
    assert pos + flags.startOffset + c.off == shown;
  }

  /** The line of the entry with index `k`, when the input holds it, prints that entry's target. */
  lemma {:induction false} EntryShown(flags: Flags, raw: seq<byte>, get: Decoder, pos: nat, amt: nat, k: nat)
    requires Within(get, |raw|) && pos <= |raw| && flags.brTables && k < Length(DecodeTable(get, pos, amt))
    ensures k < Length(TableLines(flags, raw, get, pos, amt)) && get(pos + 4 * k, FPcRel).Ok?
    ensures Nth(TableLines(flags, raw, get, pos, amt), k).text ==
            Cons(ShowOffset(flags, pos + 4 * k, get(pos + 4 * k, FPcRel).value.off), Nil)
    decreases k
  {
    if k > 0 { EntryShown(flags, raw, get, pos + 4, amt - 1, k - 1); }
  }

  /** The disassembler writes as many entries as the interpreter selects from. */
  lemma {:induction false} EntriesAgree(isa: Isa, i: Instr, idx: Reg, amt: u32)
    requires isa.brTable == BR_TABLE32 && Lowering()(i) == Some(CtlOp(BrTable(idx, amt)))
    ensures TableLen(isa, i) == amt
  {
    assert Lower(i) == Lowering()(i);
  }

  /** No other instruction is followed by entries. */
  lemma {:induction false} OnlyTablesTrail(isa: Isa, i: Instr) returns (idx: Reg, amt: u32)
    requires Pulley(isa) && InstrOk(isa, i) && TableLen(isa, i) > 0
    ensures Lowering()(i) == Some(CtlOp(BrTable(idx, amt))) && TableLen(isa, i) == amt
  {
    assert Lower(i) == Lowering()(i);
    assert Fields(i.args) == RegularFields(BR_TABLE32);
    assert Fields(i.args.tail) == Cons(FInt(4, false), Nil);
    assert ArgsOk(i.args.tail) && OperandOk(i.args.tail.head);
    Pow256Values();
    idx, amt := i.args.head.r, i.args.tail.head.v;
  }

  /** An entry that was decoded is there, and inside the slice. */
  lemma {:induction false} EntryInside(raw: seq<byte>, p: nat, amt: nat, k: nat) returns (off: int)
    requires p <= |raw| && k < Length(DecodeTable(SliceDecoder(raw), p, amt))
    ensures p + 4 * k < |raw| && EntryIs(SliceDecoder(raw), p + 4 * k, off)
  {
    SliceWithin(raw);
    TableDecoded(SliceDecoder(raw), |raw|, p, amt);
    EntryShown(Flags(true, true, true, 0), raw, SliceDecoder(raw), p, amt, k);
    off := SliceDecoder(raw)(p + 4 * k, FPcRel).value.off;
  }

  /** The line of an entry follows that of its instruction, and prints the entry's target and no other. */
  lemma {:induction false} EntryLine(isa: Isa, flags: Flags, raw: seq<byte>, pos: nat, i: Instr, p: nat, k: nat,
                                     q: nat, off: int, shown: int)
    requires pos <= p <= |raw| && flags.brTables && k < Length(DecodeTable(SliceDecoder(raw), p, TableLen(isa, i)))
    requires q == p + 4 * k && EntryIs(SliceDecoder(raw), q, off) && shown == q + flags.startOffset + off
    ensures var lines := LinesAt(isa, flags, raw, pos, i, p);
            1 + k < Length(lines) && Targets(Nth(lines, 1 + k).text) == Cons(U64(shown) as int, Nil)
  {
    LinesAre(isa, flags, raw, pos, i, p);
    EntryShown(flags, raw, SliceDecoder(raw), p, TableLen(isa, i), k);
  }

  // ----- One instruction -----

  /**
   For every branch and call with an offset: the first line that the disassembler writes for it prints
   one target, which is, relative to where offset zero of the listing is loaded, the address that the
   interpreter goes to when the branch is taken.
   */
  lemma {:induction false} BranchTarget(isa: Isa, env: Env, m: Mem, base: nat, raw: seq<byte>, flags: Flags, s: State,
                                        pos: nat, i: Instr, p: nat, c: Ctl)
    returns (t: int, next: State)
    requires InMemory(isa, Lowering(), env, m, base, raw) && s.pc == base + pos && pos <= p <= |raw|
    requires DecodeInstr(isa, SliceDecoder(raw), pos) == Ok(i, p)
    requires Lowering()(i) == Some(CtlOp(c)) && HasOffset(c)
    ensures var lines := LinesAt(isa, flags, raw, pos, i, p);
            0 < Length(lines) && Targets(Nth(lines, 0).text) == Cons(t, Nil)
    ensures Stepper(env)(s) == Some(Continue(next))
    ensures next.pc == if Taken(s.x, c) then Loaded(base, flags, t) else base + p
  {
    var shown, dest := pos + c.off + flags.startOffset, base + pos + c.off;
    OffsetLine(isa, flags, raw, pos, i, p, c, shown);
    t := U64(shown);
    Rebase(base, flags, shown, dest);
    DecodedWidth(isa, SliceDecoder(raw), pos, i, p, c);
    next := BranchGoes(isa, Lowering(), env, m, base, raw, s, pos, i, p, c, dest);
  }

  /** All entries of a branch table are there. */
  predicate Complete(raw: seq<byte>, p: nat, amt: u32)
  {
    amt > 0 && Length(DecodeTable(SliceDecoder(raw), p, amt)) == amt as int
  }

  /** What the listing and memory hold of the entry with index `k`: its line, and where it leads. */
  lemma {:induction false} EntryFacts(isa: Isa, env: Env, m: Mem, base: nat, raw: seq<byte>, flags: Flags,
                                      pos: nat, i: Instr, p: nat, amt: u32, k: u32)
    returns (t: int, at: u64, dest: int)
    requires TableLen(isa, i) == amt && flags.brTables && k < amt && Complete(raw, p, amt)
    requires InMemory(isa, Lowering(), env, m, base, raw) && pos <= p <= |raw|
    ensures var lines := LinesAt(isa, flags, raw, pos, i, p);
            1 + k as int < Length(lines) && Targets(Nth(lines, 1 + k as int).text) == Cons(t, Nil)
    ensures at as int == base + p + 4 * k as int && dest == at + env.entry(at) && Loaded(base, flags, t) == U64(dest)
  {
    var off := EntryInside(raw, p, amt, k);
    var q := p + 4 * k as int;
    var shown := q + flags.startOffset + off;
    EntryLine(isa, flags, raw, pos, i, p, k, q, off, shown);
    t := U64(shown);
    at, dest := EntryLands(isa, env, m, base, raw, flags, q, off, shown);
  }

  lemma {:induction false} EntryLands(isa: Isa, env: Env, m: Mem, base: nat, raw: seq<byte>, flags: Flags,
                                      q: nat, off: int, shown: int)
    returns (at: u64, dest: int)
    requires InMemory(isa, Lowering(), env, m, base, raw) && q < |raw| && EntryIs(SliceDecoder(raw), q, off)
    requires shown == q + flags.startOffset + off
    ensures at as int == base + q && dest == at + env.entry(at) && Loaded(base, flags, U64(shown)) == U64(dest)
  {
    EntryThere(isa, Lowering(), env, m, base, raw, q, off);
    at, dest := base + q, base + q + off;
    Rebase(base, flags, shown, dest);
  }

  /**
   For every `br_table32` whose entries are all there: the line of the entry that the interpreter
   selects prints one target, which is likewise the address that the interpreter goes to.
   */
  lemma {:induction false} TableTarget(isa: Isa, env: Env, m: Mem, base: nat, raw: seq<byte>, flags: Flags, s: State,
                                       pos: nat, i: Instr, p: nat, idx: Reg, amt: u32, k: u32)
    returns (t: int, next: State)
    requires isa.brTable == BR_TABLE32 && flags.brTables && Selects(s.x, idx, amt, k)
    requires InMemory(isa, Lowering(), env, m, base, raw) && s.pc == base + pos && pos <= p <= |raw|
    requires DecodeInstr(isa, SliceDecoder(raw), pos) == Ok(i, p)
    requires Lowering()(i) == Some(CtlOp(BrTable(idx, amt))) && Complete(raw, p, amt)
    ensures var lines := LinesAt(isa, flags, raw, pos, i, p);
            1 + k as int < Length(lines) && Targets(Nth(lines, 1 + k as int).text) == Cons(t, Nil)
    ensures Stepper(env)(s) == Some(Continue(next)) && next.pc == Loaded(base, flags, t)
  {
    EntriesAgree(isa, i, idx, amt);
    var at, dest;
    t, at, dest := EntryFacts(isa, env, m, base, raw, flags, pos, i, p, amt, k);
    next := TableGoes(isa, Lowering(), env, m, base, raw, s, pos, i, p, idx, amt, k, at, dest);
  }

  // ----- Whole listings -----

  /** The offsets at which disassembling a slice finds instructions. */
  predicate Visited(dec: nat -> Dec<Item>, end: nat, from: nat, pos: nat)
    requires Advances(dec, end) && from <= end
    decreases end - from
  {
    from == pos || (from < end && dec(from).Ok? && Visited(dec, end, dec(from).pos, pos))
  }

  predicate Finds(isa: Isa, raw: seq<byte>, pos: nat)
  {
    SliceWithin(raw);
    ItemsAdvance(isa, SliceDecoder(raw), |raw|);
    pos < |raw| && Visited(ItemDecoder(isa, SliceDecoder(raw)), |raw|, 0, pos)
  }

  function Finding(isa: Isa, raw: seq<byte>): nat -> bool { (pos: nat) => Finds(isa, raw, pos) }

  predicate Listed(isa: Isa, raw: seq<byte>, pos: nat) { Finding(isa, raw)(pos) }

  lemma {:induction false} LinesFrom(isa: Isa, flags: Flags, raw: seq<byte>, get: Decoder, from: nat, pos: nat)
    returns (before: List<Line>)
    requires Within(get, |raw|) && Advances(ItemDecoder(isa, get), |raw|) && from <= |raw| && pos <= |raw|
    requires Visited(ItemDecoder(isa, get), |raw|, from, pos)
    ensures AllLines(isa, flags, raw, get, from) == Append(before, AllLines(isa, flags, raw, get, pos))
    decreases |raw| - from
  {
    before := Nil;
    if from != pos {
      ItemDecodes(isa, get, from);
      ItemEnds(isa, |raw|, get, from);
      var d := DecodeInstr(isa, get, from);
      var here, next := ItemLines(isa, flags, raw, get, from, d.value, d.pos), ItemEnd(isa, get, d.value, d.pos);
      before := LinesFrom(isa, flags, raw, get, next, pos);
      AppendAssoc(here, before, AllLines(isa, flags, raw, get, pos));
      before := Append(here, before);
    }
  }

  /** The lines of an instruction that the disassembler finds stand together in its listing. */
  lemma {:induction false} LinesListed(isa: Isa, flags: Flags, raw: seq<byte>, pos: nat, i: Instr, p: nat)
    returns (before: List<Line>, after: List<Line>)
    requires Listed(isa, raw, pos) && DecodeInstr(isa, SliceDecoder(raw), pos) == Ok(i, p)
    ensures pos <= p <= |raw|
    ensures Disassembly(isa, flags, raw) == Append(before, Append(LinesAt(isa, flags, raw, pos, i, p), after))
  {
    var get := SliceDecoder(raw);
    assert Finds(isa, raw, pos);
    SliceWithin(raw);
    ItemsAdvance(isa, get, |raw|);
    ItemEnds(isa, |raw|, get, pos);
    LinesAre(isa, flags, raw, pos, i, p);
    before := LinesFrom(isa, flags, raw, get, 0, pos);
    after := AllLines(isa, flags, raw, get, ItemEnd(isa, get, i, p));
  }

  lemma {:induction false} DecodedInside(isa: Isa, raw: seq<byte>, pos: nat, i: Instr, p: nat)
    requires DecodeInstr(isa, SliceDecoder(raw), pos) == Ok(i, p)
    ensures pos <= p <= |raw|
  {
    SliceWithin(raw);
    InstrDecoded(isa, SliceDecoder(raw), |raw|, pos);
  }

  lemma {:induction false} NthAppend<T>(a: List<T>, b: List<T>, k: nat)
    requires k < Length(b)
    ensures Length(a) + k < Length(Append(a, b)) && Nth(Append(a, b), Length(a) + k) == Nth(b, k)
    decreases a
  {
    if a.Cons? { NthAppend(a.tail, b, k); }
  }

  lemma {:induction false} NthFirst<T>(a: List<T>, b: List<T>, k: nat)
    requires k < Length(a)
    ensures k < Length(Append(a, b)) && Nth(Append(a, b), k) == Nth(a, k)
    decreases a
  {
    if k != 0 { NthFirst(a.tail, b, k - 1); }
  }

  lemma {:induction false} NthInside<T>(all: List<T>, before: List<T>, lines: List<T>, after: List<T>, k: nat)
    returns (at: nat)
    requires all == Append(before, Append(lines, after)) && k < Length(lines)
    ensures at < Length(all) && Nth(all, at) == Nth(lines, k)
  {
    NthFirst(lines, after, k);
    NthAppend(before, Append(lines, after), k);
    at := Length(before) + k;
  }

  /** A line of an instruction stands in the listing. */
  lemma {:induction false} LineListed(isa: Isa, flags: Flags, raw: seq<byte>, pos: nat, i: Instr, p: nat, k: nat)
    returns (line: nat)
    requires Listed(isa, raw, pos) && DecodeInstr(isa, SliceDecoder(raw), pos) == Ok(i, p)
    requires k < Length(LinesAt(isa, flags, raw, pos, i, p))
    ensures line < Length(Disassembly(isa, flags, raw))
    ensures Nth(Disassembly(isa, flags, raw), line) == Nth(LinesAt(isa, flags, raw, pos, i, p), k)
  {
    var before, after := LinesListed(isa, flags, raw, pos, i, p);
    line := NthInside(Disassembly(isa, flags, raw), before, LinesAt(isa, flags, raw, pos, i, p), after, k);
  }

  /**
   For every branch and call with an offset that the disassembler finds in a slice: the first line of
   the instruction, somewhere in the listing, prints exactly one target, and that target is, relative
   to where offset zero of the listing is loaded, the address to which the interpreter goes from there,
   when the slice stands in memory and the branch is taken.
   */
  lemma {:induction false} ListedTarget(isa: Isa, env: Env, m: Mem, base: nat, raw: seq<byte>, flags: Flags, s: State,
                                        pos: nat, i: Instr, p: nat, c: Ctl)
    returns (line: nat, t: int, next: State)
    requires InMemory(isa, Lowering(), env, m, base, raw) && s.pc == base + pos
    requires Listed(isa, raw, pos) && DecodeInstr(isa, SliceDecoder(raw), pos) == Ok(i, p)
    requires Lowering()(i) == Some(CtlOp(c)) && HasOffset(c)
    ensures line < Length(Disassembly(isa, flags, raw)) && 0 < Length(LinesAt(isa, flags, raw, pos, i, p))
    ensures Nth(Disassembly(isa, flags, raw), line) == Nth(LinesAt(isa, flags, raw, pos, i, p), 0)
    ensures Targets(Nth(Disassembly(isa, flags, raw), line).text) == Cons(t, Nil)
    ensures Stepper(env)(s) == Some(Continue(next))
    ensures next.pc == if Taken(s.x, c) then Loaded(base, flags, t) else base + p
  {
    DecodedInside(isa, raw, pos, i, p);
    t, next := BranchTarget(isa, env, m, base, raw, flags, s, pos, i, p, c);
    line := LineListed(isa, flags, raw, pos, i, p, 0);
  }

  /**
   The same of every `br_table32` whose entries are all there: the line is the one of the entry that the
   register selects, which is the last one when it is past the table.
   */
  lemma {:induction false} ListedTable(isa: Isa, env: Env, m: Mem, base: nat, raw: seq<byte>, flags: Flags, s: State,
                                       pos: nat, i: Instr, p: nat, idx: Reg, amt: u32, k: u32)
    returns (line: nat, t: int, next: State)
    requires isa.brTable == BR_TABLE32 && InMemory(isa, Lowering(), env, m, base, raw) && s.pc == base + pos
    requires Listed(isa, raw, pos) && DecodeInstr(isa, SliceDecoder(raw), pos) == Ok(i, p)
    requires Lowering()(i) == Some(CtlOp(BrTable(idx, amt))) && flags.brTables && Complete(raw, p, amt)
    requires Selects(s.x, idx, amt, k)
    ensures line < Length(Disassembly(isa, flags, raw)) && 1 + k as int < Length(LinesAt(isa, flags, raw, pos, i, p))
    ensures Nth(Disassembly(isa, flags, raw), line) == Nth(LinesAt(isa, flags, raw, pos, i, p), 1 + k as int)
    ensures Targets(Nth(Disassembly(isa, flags, raw), line).text) == Cons(t, Nil)
    ensures Stepper(env)(s) == Some(Continue(next)) && next.pc == Loaded(base, flags, t)
  {
    DecodedInside(isa, raw, pos, i, p);
    t, next := TableTarget(isa, env, m, base, raw, flags, s, pos, i, p, idx, amt, k);
    line := LineListed(isa, flags, raw, pos, i, p, 1 + k as int);
  }
}
