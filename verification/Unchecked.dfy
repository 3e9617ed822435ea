/** The unchecked bytecode stream: it reads through a pointer, and no read of it can fail. */
module Unchecked {
  import opened Lists
  import opened Wrappers
  import opened Words
  import opened Memory
  import opened Operands
  import opened Codec

  predicate Mapped(m: Mem, a: nat, n: nat) { forall k :: a <= k < a + n ==> k in m }

  function Bytes(m: Mem, a: nat, n: nat): (bs: seq<byte>)
    requires Mapped(m, a, n)
    ensures |bs| == n && forall k :: 0 <= k < n ==> bs[k] == m[a + k]
    decreases n
  {
    if n == 0 then [] else [m[a]] + Bytes(m, a + 1, n - 1)
  }

  /** Reading through a pointer into `m`. Where `m` holds no bytes the source's behaviour is undefined. */
  function PointerReader(m: Mem): Reader
  {
    (a: nat, n: nat) => if Mapped(m, a, n) then Some(Bytes(m, a, n)) else None
  }

  /** `m` holds the bytecode at `base`. */
  ghost predicate Holds(m: Mem, base: nat, bs: seq<byte>)
  {
    forall a :: base <= a < base + |bs| ==> a in m && m[a] == bs[a - base]
  }

  lemma BytesHeld(m: Mem, base: nat, bs: seq<byte>, pos: nat, n: nat)
    requires Holds(m, base, bs) && pos + n <= |bs|
    ensures Mapped(m, base + pos, n) && Bytes(m, base + pos, n) == bs[pos..pos + n]
  {
  }

  /** Decoding fields through a pointer into `m`. */
  function PointerDecoder(m: Mem): Decoder { Decoding(PointerReader(m)) }

  /** Every field that `get` decodes, `get'` decodes to the same value, `base` further on. */
  ghost predicate Refines(get: Decoder, base: nat, get': Decoder)
  {
    forall pos: nat, f :: get(pos, f).Ok? ==> get'(base + pos, f).Ok? && get'(base + pos, f).value == get(pos, f).value
  }

  datatype Streams = Streams(get: Decoder, base: nat, get': Decoder)

  /** A stream, and one that refines it further on. */
  type Refinement = r: Streams | Refines(r.get, r.base, r.get') ghost witness Streams(NoFields(), 0, NoFields())

  lemma {:induction false} PointerRefinesSlice(m: Mem, base: nat, bs: seq<byte>)
    requires Holds(m, base, bs)
    ensures Refines(SliceDecoder(bs), base, PointerDecoder(m))
  {
    forall pos: nat, f | DecodeField(SliceReader(bs), pos, f).Ok?
      ensures DecodeField(PointerReader(m), base + pos, f).Ok?
      ensures DecodeField(PointerReader(m), base + pos, f).value == DecodeField(SliceReader(bs), pos, f).value
    {
      BytesHeld(m, base, bs, pos, FieldWidth(f));
    }
  }

  /** The same outcome, `base` further on. */
  predicate Shifted<T(==)>(d: Dec<T>, base: nat, d': Dec<T>) { d.Ok? ==> d' == Ok(d.value, base + d.pos) }

  lemma {:induction false} FieldsRefined(r: Refinement, pos: nat, fs: List<Field>)
    ensures Shifted(DecodeFields(r.get, pos, fs), r.base, DecodeFields(r.get', r.base + pos, fs))
    decreases fs
  {
    if fs.Cons? {
      FieldsRefined(r, pos + FieldWidth(fs.head), fs.tail);
    }
  }

  lemma OpcodeRefined(isa: Isa, r: Refinement, pos: nat)
    ensures Shifted(DecodeOpcode(isa, r.get, pos), r.base, DecodeOpcode(isa, r.get', r.base + pos))
  {
    assert r.base + (pos + 1) == r.base + pos + 1;
  }

  /** The unchecked stream decodes every instruction that the checked one does, at the same offset. */
  lemma InstrRefined(isa: Isa, r: Refinement, pos: nat)
    ensures Shifted(DecodeInstr(isa, r.get, pos), r.base, DecodeInstr(isa, r.get', r.base + pos))
  {
    assert DecodeInstr(isa, r.get, pos) == DecodeOne(isa, r.get, pos);
    assert DecodeInstr(isa, r.get', r.base + pos) == DecodeOne(isa, r.get', r.base + pos);
    var op := DecodeOpcode(isa, r.get, pos);
    OpcodeRefined(isa, r, pos);
    if op.Ok? { FieldsRefined(r, op.pos, FieldsOf(isa, op.value.0, op.value.1)); }
  }

  lemma {:induction false} TableRefined(r: Refinement, pos: nat, amt: nat)
    requires Length(DecodeTable(r.get, pos, amt)) == amt
    ensures DecodeTable(r.get', r.base + pos, amt) == DecodeTable(r.get, pos, amt)
    decreases amt
  {
    if amt != 0 {
      assert r.get(pos, FPcRel).Ok?;
      TableRefined(r, pos + 4, amt - 1);
    }
  }

  /** Whether an item's branch table was not cut short by the end of the input. */
  predicate Whole(isa: Isa, it: Item) { Length(it.table) == TableLen(isa, it.instr) }

  /** Whether the item at an offset is decoded as a whole, and the next offset follows it. */
  ghost function ItemAt(isa: Isa, get: Decoder): (nat, Item) -> bool
  {
    (pos: nat, it: Item) => DecodeItem(isa, get, pos) == Ok(it, pos + ItemWidth(it)) && Whole(isa, it)
  }

  /** Where these items end, when they are what decoding repeatedly from `pos` gives, none of them cut short. */
  ghost function Yielded(at: (nat, Item) -> bool, pos: nat, items: List<Item>): Option<nat>
    decreases items
  {
    if items.Nil? then Some(pos)
    else if at(pos, items.head) then Yielded(at, pos + ItemWidth(items.head), items.tail)
    else None
  }

  /** Decoding repeatedly from `pos` gives exactly these items, up to `end`. */
  ghost predicate Yields(at: (nat, Item) -> bool, pos: nat, items: List<Item>, end: nat)
  {
    Yielded(at, pos, items) == Some(end)
  }

  /** What stands at an offset for one stream stands `base` further on for the other. */
  ghost predicate Carried(at: (nat, Item) -> bool, base: nat, at': (nat, Item) -> bool)
  {
    forall pos, it :: at(pos, it) ==> at'(base + pos, it)
  }

  ghost function Carrying(at: (nat, Item) -> bool, at': (nat, Item) -> bool): nat -> bool
  {
    (base: nat) => Carried(at, base, at')
  }

  ghost predicate SameItems(at: (nat, Item) -> bool, base: nat, at': (nat, Item) -> bool) { Carrying(at, at')(base) }

  /** How an item that is decoded as a whole is made up: the instruction ends at `p`, where its table starts. */
  ghost predicate Parts(isa: Isa, get: Decoder, pos: nat, it: Item, p: nat)
  {
    && DecodeInstr(isa, get, pos) == Ok(it.instr, p) && Whole(isa, it)
    && it.table == DecodeTable(get, p, TableLen(isa, it.instr)) && pos + ItemWidth(it) == p + 4 * Length(it.table)
  }

  lemma {:induction false} ItemParts(isa: Isa, get: Decoder, pos: nat, it: Item) returns (p: nat)
    requires ItemAt(isa, get)(pos, it)
    ensures Parts(isa, get, pos, it, p)
  {
    p := DecodeInstr(isa, get, pos).pos;
    assert Whole(isa, it) && DecodeItem(isa, get, pos) == Ok(it, pos + ItemWidth(it));
  }

  lemma {:induction false} ItemFromParts(isa: Isa, get: Decoder, pos: nat, it: Item, p: nat)
    requires Parts(isa, get, pos, it, p)
    ensures ItemAt(isa, get)(pos, it)
  {
    assert DecodeItem(isa, get, pos) == Ok(it, pos + ItemWidth(it));
  }

  /** The unchecked stream decodes the instruction and the branch table that the checked one does. */
  lemma {:induction false} PartsRefined(isa: Isa, r: Refinement, pos: nat, it: Item, p: nat)
    requires Parts(isa, r.get, pos, it, p)
    ensures Parts(isa, r.get', r.base + pos, it, r.base + p)
  {
    InstrRefined(isa, r, pos);
    TableRefined(r, p, TableLen(isa, it.instr));
  }

  lemma {:induction false} ItemAtRefined(isa: Isa, r: Refinement, pos: nat, it: Item)
    requires ItemAt(isa, r.get)(pos, it)
    ensures ItemAt(isa, r.get')(r.base + pos, it)
  {
    var p := ItemParts(isa, r.get, pos, it);
    PartsRefined(isa, r, pos, it, p);
    ItemFromParts(isa, r.get', r.base + pos, it, r.base + p);
  }

  lemma {:induction false} ItemsRefined(isa: Isa, r: Refinement)
    ensures SameItems(ItemAt(isa, r.get), r.base, ItemAt(isa, r.get'))
  {
    var at, at' := ItemAt(isa, r.get), ItemAt(isa, r.get');
    forall pos: nat, it | at(pos, it)
      ensures at'(r.base + pos, it)
    {
      ItemAtRefined(isa, r, pos, it);
    }
    assert Carried(at, r.base, at');
  }

  lemma {:induction false} YieldsSame(at: (nat, Item) -> bool, base: nat, at': (nat, Item) -> bool,
                                      pos: nat, items: List<Item>, end: nat)
    requires SameItems(at, base, at') && Yields(at, pos, items, end)
    ensures Yields(at', base + pos, items, base + end)
    decreases items
  {
    assert Carried(at, base, at');
    if items.Cons? { YieldsSame(at, base, at', pos + ItemWidth(items.head), items.tail, end); }
  }

  /**
   On any bytecode that the checked stream decodes as a whole program, the unchecked stream yields
   the same instructions at the same offsets.
   */
  lemma {:induction false} ProgramRefined(isa: Isa, r: Refinement, pos: nat, items: List<Item>, end: nat)
    requires Yields(ItemAt(isa, r.get), pos, items, end)
    ensures Yields(ItemAt(isa, r.get'), r.base + pos, items, r.base + end)
  {
    ItemsRefined(isa, r);
    YieldsSame(ItemAt(isa, r.get), r.base, ItemAt(isa, r.get'), pos, items, end);
  }

  function WholeChecker(isa: Isa): Item -> bool { (it: Item) => Whole(isa, it) }

  predicate AllWhole(isa: Isa, items: List<Item>) { All(WholeChecker(isa), items) }

  /** Items that are decoded as a whole are the ones that stand there. */
  ghost predicate Agrees(dec: nat -> Dec<Item>, ok: Item -> bool, at: (nat, Item) -> bool)
  {
    forall pos: nat :: dec(pos).Ok? && ok(dec(pos).value) ==>
      at(pos, dec(pos).value) && dec(pos).pos == pos + ItemWidth(dec(pos).value)
  }

  lemma {:induction false} ItemsAgree(isa: Isa, get: Decoder)
    ensures Agrees(ItemDecoder(isa, get), WholeChecker(isa), ItemAt(isa, get))
  {
    forall pos: nat | ItemDecoder(isa, get)(pos).Ok? && WholeChecker(isa)(ItemDecoder(isa, get)(pos).value)
      ensures var d := ItemDecoder(isa, get)(pos); ItemAt(isa, get)(pos, d.value) && d.pos == pos + ItemWidth(d.value)
    {
      ItemAgrees(isa, get, pos);
    }
  }

  lemma {:induction false} ItemAgrees(isa: Isa, get: Decoder, pos: nat)
    requires ItemDecoder(isa, get)(pos).Ok? && WholeChecker(isa)(ItemDecoder(isa, get)(pos).value)
    ensures var d := ItemDecoder(isa, get)(pos); ItemAt(isa, get)(pos, d.value) && d.pos == pos + ItemWidth(d.value)
  {
    var d := DecodeItem(isa, get, pos);
    assert ItemDecoder(isa, get)(pos) == d && Whole(isa, d.value);
    ItemDecoded(isa, get, 0, pos);
  }

  /** `decode_all` yields the items it returns. */
  lemma {:induction false} DecodedYields(dec: nat -> Dec<Item>, ok: Item -> bool, at: (nat, Item) -> bool, end: nat,
                                         pos: nat)
    requires Advances(dec, end) && Agrees(dec, ok, at) && pos <= end
    requires DecodeItems(dec, end, pos).Ok? && All(ok, DecodeItems(dec, end, pos).value)
    ensures Yields(at, pos, DecodeItems(dec, end, pos).value, end)
    decreases end - pos
  {
    if pos < end { DecodedYields(dec, ok, at, end, dec(pos).pos); }
  }

  lemma {:induction false} SliceYields(isa: Isa, bs: seq<byte>)
    requires DecodeAll(isa, bs).Ok? && AllWhole(isa, DecodeAll(isa, bs).value)
    ensures Yields(ItemAt(isa, SliceDecoder(bs)), 0, DecodeAll(isa, bs).value, |bs|)
  {
    var get := SliceDecoder(bs);
    SliceWithin(bs);
    ItemsAdvance(isa, get, |bs|);
    ItemsAgree(isa, get);
    DecodedYields(ItemDecoder(isa, get), WholeChecker(isa), ItemAt(isa, get), |bs|, 0);
  }

  /** A stream that refines another yields the same program from its start. */
  lemma {:induction false} StartRefined(isa: Isa, get: Decoder, base: nat, get': Decoder, items: List<Item>, end: nat)
    requires Refines(get, base, get') && Yields(ItemAt(isa, get), 0, items, end)
    ensures Yields(ItemAt(isa, get'), base, items, base + end)
  {
    ItemsRefined(isa, Streams(get, base, get'));
    YieldsFromStart(ItemAt(isa, get), base, ItemAt(isa, get'), items, end);
  }

  lemma {:induction false} SliceRefined(isa: Isa, bs: seq<byte>, base: nat, get': Decoder)
    requires DecodeAll(isa, bs).Ok? && AllWhole(isa, DecodeAll(isa, bs).value) && Refines(SliceDecoder(bs), base, get')
    ensures Yields(ItemAt(isa, get'), base, DecodeAll(isa, bs).value, base + |bs|)
  {
    var items, end := DecodeAll(isa, bs).value, |bs|;
    SliceYields(isa, bs);
    StartRefined(isa, SliceDecoder(bs), base, get', items, end);
  }

  /**
   When `decode_all` over a slice returns a program, none of its branch tables cut short, the unchecked
   stream over memory that holds the slice yields that program: the same items, each at its offset
   from `base`, up to the end.
   */
  lemma {:induction false} ProgramInMemory(isa: Isa, bs: seq<byte>, m: Mem, base: nat)
    requires DecodeAll(isa, bs).Ok? && AllWhole(isa, DecodeAll(isa, bs).value) && Holds(m, base, bs)
    ensures Yields(ItemAt(isa, PointerDecoder(m)), base, DecodeAll(isa, bs).value, base + |bs|)
  {
    PointerRefinesSlice(m, base, bs);
    SliceRefined(isa, bs, base, PointerDecoder(m));
  }

  lemma {:induction false} YieldsFromStart(at: (nat, Item) -> bool, base: nat, at': (nat, Item) -> bool,
                                           items: List<Item>, end: nat)
    requires SameItems(at, base, at') && Yields(at, 0, items, end)
    ensures Yields(at', base, items, base + end)
  {
    YieldsSame(at, base, at', 0, items, end);
  }
}

/** Programs in memory: the interpreter's environment, built from the unchecked stream. */
module Execution {
  import opened Lists
  import opened Wrappers
  import opened Words
  import opened Memory
  import opened Ops
  import opened Operands
  import opened Codec
  import opened Program
  import opened Unchecked
  import opened Machine
  import opened Runs

  /** The instruction at an address, and the address after it. */
  function Fetch(isa: Isa, get: Decoder, lower: Instr -> Option<Op>): u64 -> Option<(Op, u64)>
  {
    (pc: u64) =>
      match DecodeInstr(isa, get, pc)
      case Ok(i, p) => if lower(i).Some? then Some((lower(i).value, U64(p))) else None
      case _ => None
  }

  /** The branch-table entry at an address. */
  function Entry(get: Decoder): u64 -> int
  {
    (a: u64) =>
      match get(a, FPcRel)
      case Ok(o, _) => o.off
      case _ => 0
  }

  /** The environment of the program that `get` decodes. */
  function ProgramEnv(isa: Isa, get: Decoder, base: u64, len: nat, host: Host): Env
  {
    Env(Fetch(isa, get, Lowering()), Entry(get), base, len, host)
  }

  ghost predicate WidthsFit(lower: Instr -> Option<Op>)
  {
    forall i {:trigger lower(i)} :: lower(i).Some? ==> WidthFits(lower(i).value, i.ext, i.args)
  }

  lemma LoweredWidthsFit()
    ensures WidthsFit(Lowering())
  {
    forall i | Lowering()(i).Some?
      ensures WidthFits(Lowering()(i).value, i.ext, i.args)
    {
      assert Lowering()(i) == Lower(i);
      LowerWidth(i);
    }
  }

  lemma FetchAdvances(isa: Isa, get: Decoder, lower: Instr -> Option<Op>, env: Env, pc: u64)
    requires WidthsFit(lower) && env.fetch == Fetch(isa, get, lower) && Decodes(env, pc)
    ensures ClaimedWidth(OpAt(env, pc)) != 0 ==> NextPc(env, pc) == U64(pc + ClaimedWidth(OpAt(env, pc)))
  {
    var i := DecodeInstr(isa, get, pc).value;
    InstrAdvances(isa, get, pc, i, DecodeInstr(isa, get, pc).pos);
    assert WidthFits(lower(i).value, i.ext, i.args);
  }

  /** Decoding advances the program counter by the width that handlers rewind. */
  lemma FetchWidthsAgree(isa: Isa, get: Decoder, lower: Instr -> Option<Op>, env: Env)
    requires WidthsFit(lower) && env.fetch == Fetch(isa, get, lower)
    ensures WidthsAgree(env)
  {
    forall pc: u64 | Decodes(env, pc)
      ensures ClaimedWidth(OpAt(env, pc)) != 0 ==> NextPc(env, pc) == U64(pc + ClaimedWidth(OpAt(env, pc)))
    {
      FetchAdvances(isa, get, lower, env, pc);
    }
  }

  /**
   Every trap of every run of every program, however its bytes are read, names the first byte of the
   instruction that trapped.
   */
  lemma ProgramTraps(isa: Isa, get: Decoder, base: u64, len: nat, host: Host, s: State, n: nat) returns (k: nat)
    requires s.done.None?
    requires Run(ProgramEnv(isa, get, base, len, host), s, n).Halted?
    requires Trapped(Run(ProgramEnv(isa, get, base, len, host), s, n).s)
    ensures var env := ProgramEnv(isa, get, base, len, host);
            && k < n && Run(env, s, k).Running?
            && Stepper(env)(Run(env, s, k).s) == Some(Break(Run(env, s, n).s))
            && TrappedAt(Run(env, s, n).s, Run(env, s, k).s.pc)
  {
    var env := ProgramEnv(isa, get, base, len, host);
    LoweredWidthsFit();
    FetchWidthsAgree(isa, get, Lowering(), env);
    k := RunTraps(env, s, n);
  }
}
