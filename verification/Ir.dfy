/** Functions of the code generator's intermediate representation, as far as reduction touches them. */
module Ir {
  import opened Lists
  import opened Wrappers
  import opened Layouts

  type Value = nat

  datatype Type = F32 | F64 | Vector(bytes: nat) | I128 | Integer(bits: nat)

  /** Opcodes, with the entity they refer to. */
  datatype Op =
    | Jump
    | Brif
    | BrTable
    | TryCall(func: nat, sig: nat)
    | TryCallIndirect(sig: nat)
    | Call(func: nat)
    | FuncAddr(func: nat)
    | CallIndirect(sig: nat)
    | StackLoad(slot: nat)
    | StackStore(slot: nat)
    | GlobalValue(gv: nat)
    | Iconst
    | F32const
    | F64const
    | Vconst
    | Uextend
    | Trap
    | Other(code: nat)

  const RETURN: Op := Other(0)

  /** A block call: the destination of a branch and the values for its parameters. */
  datatype Dest = Dest(block: Block, args: List<Value>)

  datatype InstData = InstData(op: Op, args: List<Value>, dests: List<Dest>, results: List<Value>)

  datatype ExtFunc = ExtFunc(name: nat, signature: nat)

  datatype Global = VMContext | Symbol(name: nat) | Derived(base: nat)

  /**
   A function: the layout, the data flow graph, the entity tables and the next free numbers. `defs`
   says which instruction defines a value, and `alias` which value a value stands for.
   */
  datatype Func = Func(
    layout: List<Blk>,
    insts: map<Inst, InstData>,
    params: map<Block, List<Value>>,
    types: map<Value, Type>,
    defs: map<Value, Inst>,
    alias: map<Value, Value>,
    extFuncs: seq<ExtFunc>,
    signatures: seq<nat>,
    slots: seq<nat>,
    globals: seq<Global>,
    stackLimit: Option<nat>,
    signature: List<Value>,
    srclocs: set<Inst>,
    freshInst: Inst,
    freshValue: Value)

  const NoData: InstData := InstData(Trap, Nil, Nil, Nil)

  function Data(f: Func, i: Inst): InstData { if i in f.insts then f.insts[i] else NoData }

  function Params(f: Func, b: Block): List<Value> { if b in f.params then f.params[b] else Nil }

  function TypeOf(f: Func, v: Value): Type { if v in f.types then f.types[v] else Integer(32) }

  /** `resolve_aliases`, for aliases that lead to values that are not aliases. */
  function Resolve(f: Func, v: Value): Value { if v in f.alias then f.alias[v] else v }

  predicate Leads(dests: List<Dest>, b: Block) { dests.Cons? && (dests.head.block == b || Leads(dests.tail, b)) }

  /** The predecessors of a block: the blocks whose last instruction branches to it. */
  function PredsIn(f: Func, layout: List<Blk>, b: Block): List<Pos>
  {
    if layout.Nil? then Nil
    else
      var last := Last(layout.head.insts);
      var rest := PredsIn(f, layout.tail, b);
      if last.Some? && Leads(Data(f, last.value).dests, b) then Cons(Pos(layout.head.id, last.value), rest) else rest
  }

  function Preds(f: Func, b: Block): List<Pos> { PredsIn(f, f.layout, b) }

  // ----- What reduction relies on -----

  /** All instruction numbers in the layout have been given out. */
  predicate Below(l: List<Pos>, n: nat) { l.Cons? ==> l.head.inst < n && Below(l.tail, n) }

  /** A layout with a block, no empty block, and nothing twice. */
  predicate Sound(f: Func)
  {
    f.layout.Cons? && WellFormed(f.layout) && Below(Positions(f.layout), f.freshInst)
  }

  lemma {:induction false} BelowFresh(l: List<Pos>, n: nat)
    requires Below(l, n)
    ensures NoInst(l, n)
  {
    if l.Cons? { BelowFresh(l.tail, n); }
  }

  lemma {:induction false} BelowMore(l: List<Pos>, n: nat, m: nat)
    requires Below(l, n) && n <= m
    ensures Below(l, m)
  {
    if l.Cons? { BelowMore(l.tail, n, m); }
  }

  lemma {:induction false} BelowWithout(l: List<Pos>, n: nat, i: Inst)
    requires Below(l, n)
    ensures Below(WithoutPos(l, i), n)
  {
    if l.Cons? { BelowWithout(l.tail, n, i); }
  }

  lemma {:induction false} BelowInsert(l: List<Pos>, n: nat, i: Inst, at: Inst)
    requires Below(l, n) && i < n
    ensures Below(InsertPos(l, i, at), n)
  {
    if l.Cons? { BelowInsert(l.tail, n, i, at); }
  }

  lemma {:induction false} BelowSuffix(l: List<Pos>, rest: List<Pos>, n: nat)
    requires Below(l, n) && EndsWith(l, rest)
    ensures Below(rest, n)
  {
    if l != rest { BelowSuffix(l.tail, rest, n); }
  }

  lemma {:induction false} BelowCount(layout: List<Blk>, n: nat, i: Inst)
    requires Below(Positions(layout), n) && CountAll(layout, i) > 0
    ensures i < n
  {
    if n <= i {
      BelowAbsent(Positions(layout), n, i);
      CountNoInst(layout, i);
    }
  }

  lemma {:induction false} BelowAbsent(l: List<Pos>, n: nat, i: Inst)
    requires Below(l, n) && n <= i
    ensures NoInst(l, i)
  {
    if l.Cons? { BelowAbsent(l.tail, n, i); }
  }
}
