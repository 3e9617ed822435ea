/**
 The machine's stack as a bounded last-in first-out list: pushes and pops of any sizes, and
 `stack_alloc32` with matching `stack_free32`, refine the list operations on every stack size.
 */
module StackLifo {
  import opened Wrappers
  import opened Words
  import opened Memory
  import opened Ops
  import opened Machine

  /** A pushed value of `n` bytes, or `n` bytes of allocated space. */
  datatype Item = Value(n: nat, v: nat) | Space(n: nat)

  datatype Items = Nil | Cons(top: Item, rest: Items)

  function Used(l: Items): nat { if l.Nil? then 0 else l.top.n + Used(l.rest) }

  /** From address `sp` upward, memory holds the values of the list. */
  ghost predicate Holds(h: Host, m: Mem, sp: int, l: Items)
    decreases l
  {
    l.Cons? ==> (l.top.Value? ==> h.load(m, sp, l.top.n) == l.top.v) && Holds(h, m, sp + l.top.n, l.rest)
  }

  /** The machine represents the list: `sp` lies inside the stack, with the list's bytes above it. */
  ghost predicate Represents(env: Env, s: State, l: Items)
  {
    Used(l) <= env.len && s.Sp() == env.base + env.len - Used(l) && Holds(env.host, s.mem, s.Sp(), l)
  }

  datatype StackOp = PushOp(n: nat, v: nat) | PopOp(n: nat) | AllocOp(amt: u32) | FreeOp(amt: u32)

  /** What an operation reports: done, a popped value, or a trap. */
  datatype Report = Ok | Popped(v: nat) | Trapped

  /** The bounded list. A pop or free takes exactly what is on top. */
  predicate Legal(l: Items, op: StackOp)
  {
    match op
    case PushOp(n, v) => v < Pow256(n)
    case PopOp(n) => l.Cons? && l.top.Value? && l.top.n == n
    case AllocOp(_) => true
    case FreeOp(amt) => l.Cons? && l.top == Space(amt)
  }

  function ListStep(len: nat, l: Items, op: StackOp): (Items, Report)
    requires Legal(l, op)
  {
    match op
    case PushOp(n, v) => if Used(l) + n <= len then (Cons(Value(n, v), l), Ok) else (l, Trapped)
    case PopOp(_) => (l.rest, Popped(l.top.v))
    case AllocOp(amt) => if Used(l) + amt <= len then (Cons(Space(amt), l), Ok) else (l, Trapped)
    case FreeOp(_) => (l.rest, Ok)
  }

  /** The machine. A trap leaves the interpreter loop, and the host may go on using the state. */
  function MachineStep(env: Env, s: State, op: StackOp): (State, Report)
  {
    match op
    case PushOp(n, v) => var f := Push(env, s, 1, n, v); (f.s, if f.Break? then Trapped else Ok)
    case PopOp(n) => (Pop(s, n), Popped(PopValue(env, s, n)))
    case AllocOp(amt) => var f := ExecFrame(env, s, StackAlloc(amt)); (f.s, if f.Break? then Trapped else Ok)
    case FreeOp(amt) => var f := ExecFrame(env, s, StackFree(amt)); (f.s, Ok)
  }

  function Decrement(op: StackOp): nat
  {
    match op
    case PushOp(n, _) => n
    case AllocOp(amt) => amt
    case _ => 0
  }

  lemma {:induction false} HoldsAgree(h: Host, m: Mem, m': Mem, sp: int, l: Items)
    requires Lawful(h) && Agree(m, m', sp, sp + Used(l))
    requires Holds(h, m, sp, l)
    ensures Holds(h, m', sp, l)
    decreases l
  {
    if l.Cons? { HoldsAgree(h, m, m', sp + l.top.n, l.rest); }
  }

  /** A checked decrement traps exactly when the list would overflow, unless it wraps below zero. */
  lemma {:induction false} DecrementTraps(env: Env, s: State, l: Items, n: nat)
    requires Represents(env, s, l) && env.base + env.len < B64
    ensures n <= s.Sp() ==> (U64(s.Sp() - n) < env.base <==> env.len < Used(l) + n)
    ensures s.Sp() < n <= 0xFFFF_FFFF && env.base + 0xFFFF_FFFF < B64 ==>
              env.base <= U64(s.Sp() - n) && env.len < Used(l) + n
  {
  }

  lemma StoreBelow(h: Host, m: Mem, sp: int, l: Items, n: nat, v: nat)
    requires Lawful(h) && Holds(h, m, sp, l) && v < Pow256(n)
    ensures Holds(h, h.store(m, sp - n, n, v), sp - n, Cons(Value(n, v), l))
  {
    var m' := h.store(m, sp - n, n, v);
    assert ChangedOnly(m, m', sp - n, sp - n + n);
    HoldsAgree(h, m, m', sp, l);
  }

  lemma {:induction false} PushRefines(env: Env, s: State, l: Items, n: nat, v: nat)
    requires Lawful(env.host) && env.base + env.len < B64
    requires Represents(env, s, l) && v < Pow256(n) && n <= env.base
    ensures Push(env, s, 1, n, v).Break? <==> env.len < Used(l) + n
    ensures Push(env, s, 1, n, v).Break? ==> Represents(env, Push(env, s, 1, n, v).s, l)
    ensures Push(env, s, 1, n, v).Continue? ==> Represents(env, Push(env, s, 1, n, v).s, Cons(Value(n, v), l))
  {
    DecrementTraps(env, s, l, n);
    if Used(l) + n <= env.len {
      U64Id(s.Sp() - n);
      StoreBelow(env.host, s.mem, s.Sp(), l, n, v);
    }
  }

  lemma {:induction false} AllocRefines(env: Env, s: State, l: Items, amt: u32)
    requires env.base + env.len < B64
    requires Represents(env, s, l) && amt <= env.base
    ensures var f := ExecFrame(env, s, StackAlloc(amt));
            && (f.Break? <==> env.len < Used(l) + amt)
            && Represents(env, f.s, if f.Break? then l else Cons(Space(amt), l))
  {
    DecrementTraps(env, s, l, amt);
    if Used(l) + amt <= env.len { U64Id(s.Sp() - amt); }
  }

  lemma StepRefines(env: Env, s: State, l: Items, op: StackOp)
    requires Lawful(env.host) && env.base + env.len < B64
    requires Represents(env, s, l) && Legal(l, op) && Decrement(op) <= env.base
    ensures MachineStep(env, s, op).1 == ListStep(env.len, l, op).1
    ensures Represents(env, MachineStep(env, s, op).0, ListStep(env.len, l, op).0)
  {
    var sp := s.Sp();
    match op
    case PushOp(n, v) =>
      PushRefines(env, s, l, n, v);
    case AllocOp(amt) =>
      AllocRefines(env, s, l, amt);
    case PopOp(n) =>
      U64Id(sp + n);
    case FreeOp(amt) =>
      U64Id(sp + amt);
  }

  predicate LegalRun(len: nat, l: Items, ops: seq<StackOp>)
    decreases ops
  {
    ops == [] || (Legal(l, ops[0]) && LegalRun(len, ListStep(len, l, ops[0]).0, ops[1..]))
  }

  function ListRun(len: nat, l: Items, ops: seq<StackOp>): seq<Report>
    requires LegalRun(len, l, ops)
    decreases ops
  {
    if ops == [] then []
    else var r := ListStep(len, l, ops[0]); [r.1] + ListRun(len, r.0, ops[1..])
  }

  function MachineRun(env: Env, s: State, ops: seq<StackOp>): (State, seq<Report>)
    decreases ops
  {
    if ops == [] then (s, [])
    else
      var r := MachineStep(env, s, ops[0]);
      var t := MachineRun(env, r.0, ops[1..]);
      (t.0, [r.1] + t.1)
  }

  /**
   Any sequence of operations reports on the machine exactly what it reports on the bounded list:
   the same traps, and the same values popped, last in first out. Afterwards, trapped or not, `sp`
   is inside the stack.
   */
  lemma {:induction false} RunRefines(env: Env, s: State, l: Items, ops: seq<StackOp>)
    requires Lawful(env.host) && env.base + env.len < B64
    requires Represents(env, s, l) && LegalRun(env.len, l, ops)
    requires forall op :: op in ops ==> Decrement(op) <= env.base
    ensures MachineRun(env, s, ops).1 == ListRun(env.len, l, ops)
    ensures env.base <= MachineRun(env, s, ops).0.Sp() <= env.base + env.len
    decreases ops
  {
    if ops != [] {
      StepRefines(env, s, l, ops[0]);
      RunRefines(env, MachineStep(env, s, ops[0]).0, ListStep(env.len, l, ops[0]).0, ops[1..]);
    }
  }
}
