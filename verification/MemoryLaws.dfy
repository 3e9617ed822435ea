/** What loads and stores read and write, in which bytes, and when they trap. */
module MemoryLaws {
  import opened Wrappers
  import opened Words
  import opened Memory
  import opened Ops
  import opened Arith
  import opened BitLaws
  import opened Machine

  // ----- Values -----

  /**
   What loading the bytes `bs` makes of a register: their bits, repeated or cleared above them up to
   the low half, and the upper half as it was; or all of them for a 64-bit load.
   */
  ghost predicate LoadMeans(k: LoadKind, bs: seq<byte>, was: u64, now: u64)
    requires |bs| > 0
  {
    && (forall j: nat :: j < 8 * |bs| ==> (Bit(now, j) <==> Bit(bs[j / 8], j % 8)))
    && (forall j: nat :: 8 * |bs| <= j < 32 ==> (Bit(now, j) <==> (k == S8 || k == S16) && Bit(bs[|bs| - 1], 7)))
    && (k != L64 ==> High(now) == High(was))
  }

  /** How many bytes are read or written. */
  function AccessSize(op: MemOp): nat
  {
    match op
    case Load(k, _, _) =>
      if k == U8 || k == S8 then 1 else if k == U16 || k == S16 then 2 else if k == L32 then 4 else 8
    case Store(size, _, _) => size
  }

  /** `s'` is what accessing memory at `a` makes of `s`. */
  ghost predicate Accesses(s: State, op: MemOp, a: u64, s': State)
  {
    match op
    case Load(k, dst, _) =>
      && s' == s.(x := s'.x) && (forall r: Reg :: r != dst ==> s'.x[r] == s.x[r])
      && LoadMeans(k, ReadN(s.mem, a, AccessSize(op)), s.x[dst], s'.x[dst])
    case Store(size, _, src) =>
      && s' == s.(mem := s'.mem) && ChangedOnly(s.mem, s'.mem, a, a + size)
      && forall j: nat :: j < 8 * size ==> (Bit(Get(s'.mem, a + j / 8), j % 8) <==> Bit(s.x[src], j))
  }

  lemma {:induction false} Pow256IsPow2(n: nat)
    ensures Pow256(n) == Pow2(8 * n)
  {
    if n != 0 {
      Pow256IsPow2(n - 1);
      Pow2Byte();
      Pow2Sum(8, 8 * (n - 1));
    }
  }

  /** The bits of a value that is read from `n` bytes and extended. */
  lemma {:induction false} BitLoaded(bs: seq<byte>, signed: bool, j: nat)
    requires |bs| > 0
    ensures Bit(Wrap(|bs|, signed, FromLe(bs)), j) <==>
            if j < 8 * |bs| then Bit(bs[j / 8], j % 8) else signed && Bit(bs[|bs| - 1], 7)
  {
    var n, raw := 8 * |bs|, FromLe(bs);
    FromLeBound(bs);
    Pow256IsPow2(|bs|);
    if j < n { BitFromLe(bs, 0, j); }
    BitFromLe(bs, 0, n - 1);
    DivUnique(n - 1, 8, |bs| - 1, 7);
    if signed {
      BitExtended(n, raw, Wrap(|bs|, true, raw), j);
    } else if n <= j {
      BitHigh(raw, n, j);
    }
  }

  lemma {:induction false} BitLow(x: u64, lo: u32, v: int, j: nat)
    requires lo == U32(v) && j < 32
    ensures Bit(SetLow(x, lo), j) <==> Bit(v, j)
  {
    Pow2Bits(W32);
    BitMod(v, 32, j);
    BitJoin(lo, High(x), 32, j);
    assert SetLow(x, lo) == lo + Pow2(32) * High(x);
  }

  lemma {:induction false} LoadedMeant(x: Regs, m: Mem, k: LoadKind, dst: Reg, a: u64)
    ensures LoadMeans(k, ReadN(m, a, LoadSize(k)), x[dst], Machine.Loaded(x, m, k, dst, a)[dst])
    ensures forall r: Reg :: r != dst ==> Machine.Loaded(x, m, k, dst, a)[r] == x[r]
  {
    var bs, signed := ReadN(m, a, LoadSize(k)), k == S8 || k == S16;
    var v := Wrap(|bs|, signed, FromLe(bs));
    forall j: nat | j < 32 || (k == L64 && j < 64)
      ensures Bit(Machine.Loaded(x, m, k, dst, a)[dst], j) <==>
              if j < 8 * |bs| then Bit(bs[j / 8], j % 8) else signed && Bit(bs[|bs| - 1], 7)
    {
      BitLoaded(bs, signed, j);
      if k != L64 { BitLow(x[dst], U32(v), v, j); }
    }
  }

  lemma {:induction false} StoredMeant(m: Mem, a: u64, n: nat, v: u64, j: nat)
    requires j < 8 * n
    ensures Bit(Get(Memory.Store(m, a, n, v), a + j / 8), j % 8) <==> Bit(v, j)
  {
    BitLeBytes(n, v, j);
  }

  lemma {:induction false} LoadAccess(s: State, k: LoadKind, dst: Reg, am: Addr, a: u64)
    ensures Accesses(s, Load(k, dst, am), a, s.(x := Machine.Loaded(s.x, s.mem, k, dst, a)))
  {
    LoadedMeant(s.x, s.mem, k, dst, a);
  }

  lemma {:induction false} StoreAccess(s: State, n: nat, am: Addr, src: Reg, a: u64)
    ensures Accesses(s, Store(n, am, src), a, s.(mem := Memory.Store(s.mem, a, n, s.x[src])))
  {
    forall j: nat | j < 8 * n
      ensures Bit(Get(Memory.Store(s.mem, a, n, s.x[src]), a + j / 8), j % 8) <==> Bit(s.x[src], j)
    {
      StoredMeant(s.mem, a, n, s.x[src], j);
    }
  }

  /** Wherever the address comes from, the access is one of the right bytes. */
  lemma {:induction false} AccessMeant(env: Env, s: State, op: MemOp, am: Addr)
    requires op.am == am
    ensures var at, f := Address(env, s.x, s.mem, am, AccessSize(op)), ExecMem(env, s, op);
            if at.None? then f == TrapHere(s, ClaimedWidth(MemoryOp(op)), Some(MemoryOutOfBounds))
            else f.Continue? && Accesses(s, op, at.value, f.s)
  {
    var at := Address(env, s.x, s.mem, am, AccessSize(op));
    if at.Some? {
      match op
      case Load(k, dst, _) => LoadAccess(s, k, dst, am, at.value);
      case Store(n, _, src) => StoreAccess(s, n, am, src, at.value);
    }
  }

  // ----- Addresses -----

  /** A register and an offset: never a trap, or one exactly for the null pointer. */
  lemma {:induction false} OffsetAccess(env: Env, s: State, op: MemOp)
    requires op.am.O32? || op.am.Z?
    ensures var f := ExecMem(env, s, op);
            if op.am.Z? && s.x[op.am.r] == 0
            then f == TrapHere(s, ClaimedWidth(MemoryOp(op)), Some(MemoryOutOfBounds))
            else f.Continue? && Accesses(s, op, U64(s.x[op.am.r] + op.am.off), f.s)
  {
    AccessMeant(env, s, op, op.am);
  }

  /** The size of the heap that a `g32` access is checked against: in a register, or in memory. */
  function HeapBound(env: Env, s: State, am: Addr): u64
    requires am.G32? || am.G32Bne?
  {
    if am.G32? then s.x[am.bound] else NativeLoad(env.host, s.mem, U64(s.x[am.bound] + am.boundOff))
  }

  lemma {:induction false} HeapAddress(env: Env, s: State, am: Addr, size: nat, bound: u64, w: u32)
    requires (am.G32? || am.G32Bne?) && 0 <= am.off && bound == HeapBound(env, s, am) && w == Low(s.x[am.wasm])
    requires am.off + size <= bound
    ensures Address(env, s.x, s.mem, am, size).None? <==> w + am.off + size > bound
    ensures w + am.off + size <= bound && s.x[am.heap] + bound < B64 ==>
              Address(env, s.x, s.mem, am, size) == Some(s.x[am.heap] + w + am.off)
  {
    U64Id(bound - am.off - size);
    var a := s.x[am.heap] + w + am.off;
    if a < B64 { U64Id(a); }
  }

  /**
   The heap accesses, for an offset and a size that the heap could hold: they trap exactly when a byte
   would lie outside the heap, and otherwise read or write, and change, only bytes of the heap.
   */
  lemma {:induction false} HeapAccess(env: Env, s: State, op: MemOp)
    requires (op.am.G32? || op.am.G32Bne?) && 0 <= op.am.off
    requires op.am.off + AccessSize(op) <= HeapBound(env, s, op.am)
    ensures var f, bound, w := ExecMem(env, s, op), HeapBound(env, s, op.am), Low(s.x[op.am.wasm]);
            if w + op.am.off + AccessSize(op) > bound
            then f == TrapHere(s, ClaimedWidth(MemoryOp(op)), Some(MemoryOutOfBounds))
            else
              && f.Continue?
              && (s.x[op.am.heap] + bound < B64 ==>
                    var a := s.x[op.am.heap] + w + op.am.off;
                    && s.x[op.am.heap] <= a && a + AccessSize(op) <= s.x[op.am.heap] + bound
                    && Accesses(s, op, a, f.s))
  {
    var size, bound, w := AccessSize(op), HeapBound(env, s, op.am), Low(s.x[op.am.wasm]);
    AccessMeant(env, s, op, op.am);
    HeapAddress(env, s, op.am, size, bound, w);
    HeapReached(s, op, Address(env, s.x, s.mem, op.am, size), ExecMem(env, s, op), bound, w);
  }

  lemma {:induction false} HeapReached(s: State, op: MemOp, at: Option<u64>, f: Flow, bound: u64, w: u32)
    requires (op.am.G32? || op.am.G32Bne?) && 0 <= op.am.off
    requires if at.None? then f == TrapHere(s, ClaimedWidth(MemoryOp(op)), Some(MemoryOutOfBounds))
             else f.Continue? && Accesses(s, op, at.value, f.s)
    requires at.None? <==> w + op.am.off + AccessSize(op) > bound
    requires at.Some? && s.x[op.am.heap] + bound < B64 ==> at.value as int == s.x[op.am.heap] + w + op.am.off
    ensures if w + op.am.off + AccessSize(op) > bound
            then f == TrapHere(s, ClaimedWidth(MemoryOp(op)), Some(MemoryOutOfBounds))
            else
              && f.Continue?
              && (s.x[op.am.heap] + bound < B64 ==>
                    var a := s.x[op.am.heap] + w + op.am.off;
                    && s.x[op.am.heap] <= a && a + AccessSize(op) <= s.x[op.am.heap] + bound
                    && Accesses(s, op, a, f.s))
  {
  }
}
