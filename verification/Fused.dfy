/** Super-instructions against the plain instructions they fuse. */
module Fused {
  import opened Wrappers
  import opened Words
  import opened Ops
  import opened Arith
  import opened Machine

  /** The comparison that exists as an instruction, and whether its operands are exchanged. */
  function Plain(c: Cmp): (Cmp, bool)
  {
    match c
    case SGt => (SLt, true)
    case SGteq => (SLteq, true)
    case UGt => (ULt, true)
    case UGteq => (ULteq, true)
    case _ => (c, false)
  }

  /** The immediates a fused branch can hold: `u8` or `u32` for unsigned orders, else `i8` or `i32`. */
  predicate ImmediateFits(c: Cmp, v: int)
  {
    if IsUnsigned(c) then 0 <= v < 0x1_0000_0000 else -0x8000_0000 <= v < 0x8000_0000
  }

  /** `xconst64 tmp, v; x<compare> dst, ...; br_if32 dst`, leaving out the constant for registers. */
  predicate UnfusedJumps(x: Regs, w: Width, c: Cmp, a: Reg, b: Src, tmp: Reg, dst: Reg)
  {
    var x1 := if b.I? then EvalAlu(x, Const(tmp, b.v)) else AluResult.Regs(x);
    var rhs := if b.I? then tmp else b.r;
    var (c', swap) := Plain(c);
    && x1.Regs?
    && var x2 := EvalAlu(x1.x, if swap then Compare(w, c', dst, rhs, a) else Compare(w, c', dst, a, rhs));
       x2.Regs? && Low(x2.x[dst]) != 0
  }

  /** The word that a materialised immediate leaves, at each width. */
  function ImmediateWord(w: Width, v: int): (b: int)
    ensures Word(w, b)
  {
    if w == W32 then U32(U64(v)) else U64(v)
  }

  lemma ImmediateReadsBack(w: Width, c: Cmp, v: int)
    requires ImmediateFits(c, v)
    ensures if IsUnsigned(c) then ImmediateWord(w, v) == v else Signed(w, ImmediateWord(w, v)) == v
  {
  }

  lemma ImmediateCompare(w: Width, c: Cmp, a: int, v: int)
    requires Word(w, a) && ImmediateFits(c, v)
    ensures var b := ImmediateWord(w, v);
            var (c', swap) := Plain(c);
            CmpImm(w, c, a, v) <==> if swap then CmpWords(w, c', b, a) else CmpWords(w, c', a, b)
  {
    ImmediateReadsBack(w, c, v);
    var b := ImmediateWord(w, v);
    assert Signed(w, a) == Signed(w, b) <==> a == b;
  }

  /** A fused compare-and-branch takes its branch exactly when the separate instructions would. */
  lemma FusedBranch(x: Regs, w: Width, c: Cmp, a: Reg, b: Src, tmp: Reg, dst: Reg)
    requires b.R? ==> !Plain(c).1
    requires b.I? ==> ImmediateFits(c, b.v) && tmp != a
    ensures BrCond(x, w, c, a, b) <==> UnfusedJumps(x, w, c, a, b, tmp, dst)
  {
    if b.I? { ImmediateCompare(w, c, Val(x, w, a), b.v); }
  }

  // ----- Calls with arguments -----

  /** `x0, x1, ... = args[0], args[1], ...` all at once. */
  function Assigned(x: Regs, args: Args): Regs
  {
    seq<u64>(32, r requires 0 <= r < 32 => if r < |args| then x[args[r]] else x[r])
  }

  lemma {:induction false} ReadArgsAt(x: Regs, args: seq<Reg>, k: nat)
    requires k < |args|
    ensures ReadArgs(x, args)[k] == x[args[k]]
  {
    if k < |args| - 1 { ReadArgsAt(x, args[..|args| - 1], k); }
  }

  lemma {:induction false} WriteArgsAt(x: Regs, vals: seq<u64>, r: Reg)
    requires |vals| <= 32
    ensures WriteArgs(x, vals)[r] == if r < |vals| then vals[r] else x[r]
    decreases vals
  {
    if vals != [] { WriteArgsAt(x, vals[..|vals| - 1], r); }
  }

  lemma {:induction false} ArgsAreSimultaneous(x: Regs, args: Args)
    ensures WriteArgs(x, ReadArgs(x, args)) == Assigned(x, args)
  {
    forall r: Reg
      ensures WriteArgs(x, ReadArgs(x, args))[r] == Assigned(x, args)[r]
    {
      WriteArgsAt(x, ReadArgs(x, args), r);
      if r < |args| { ReadArgsAt(x, args, r); }
    }
  }

  /**
   `call1` to `call4` assign the argument registers simultaneously, for every aliasing, and then
   `call`. The offset of the plain `call` counts from its own start, past the argument operands.
   */
  lemma CallAssignsThenCalls(env: Env, s: State, args: Args, off: int)
    ensures ExecCtl(env, s, Call(args, off)) ==
              ExecCtl(env, s.(x := Assigned(s.x, args)), Call([], off - |args|))
  {
    ArgsAreSimultaneous(s.x, args);
    U64Shift(s.pc - 5 - |args|, off);
    U64Shift(s.pc - 5, off - |args|);
  }
}
