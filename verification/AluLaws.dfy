/**
 What arithmetic instructions do to the registers: which one they define from which, what it then
 holds, and when they trap.
 */
module AluLaws {
  import opened Wrappers
  import opened Words
  import opened Ops
  import opened Arith
  import opened BitLaws
  import opened ArithLaws
  import opened Machine
  import WideArith

  /** Only `dst` changes, and of a 32-bit result only its low half. */
  ghost predicate Defines(x: Regs, y: Regs, w: Width, dst: Reg)
  {
    (forall r: Reg :: r != dst ==> y[r] == x[r]) && (w == W32 ==> High(y[dst]) == High(x[dst]))
  }

  ghost predicate OnlyPair(x: Regs, y: Regs, lo: Reg, hi: Reg) { forall r: Reg :: r != lo && r != hi ==> y[r] == x[r] }

  /** A pair of registers takes `v`, but for a multiple of the 128-bit modulus. */
  ghost predicate PairTakes(x: Regs, y: Regs, lo: Reg, hi: Reg, v: int)
  {
    OnlyPair(x, y, lo, hi) && (lo != hi ==> (v - Get128(y, lo, hi)) % B128 == 0)
  }

  /** The word that an instruction of this width finds in a register. */
  function Reads(x: Regs, w: Width, r: Reg): int { if w == W32 then x[r] % 0x1_0000_0000 else x[r] }

  /** A second operand: a register, or an immediate that stands for any word congruent to it. */
  ghost predicate IsOperand(x: Regs, w: Width, b: Src, v: int)
  {
    Word(w, v) && if b.R? then v == Reads(x, w, b.r) else (v - b.v) % Modulus(w) == 0
  }

  /** The registers `y` are what the instruction makes of `x`. */
  ghost predicate AluMeans(x: Regs, op: Alu, y: Regs)
  {
    match op
    case Mov(dst, src) => Defines(x, y, W64, dst) && y[dst] == x[src]
    case Const(dst, v) => Defines(x, y, W64, dst) && (v - y[dst]) % B64 == 0
    case Bin(w, bop, dst, a, b) =>
      && Defines(x, y, w, dst)
      && exists v :: IsOperand(x, w, b, v) && BinMeans(w, bop, Reads(x, w, a), v, Reads(y, w, dst))
    case Un(w, uop, dst, a) => Defines(x, y, w, dst) && UnMeans(w, uop, Reads(x, w, a), Reads(y, w, dst))
    case Madd(w, dst, a, b, c) =>
      && Defines(x, y, w, dst)
      && (Reads(x, w, a) * Reads(x, w, b) + Reads(x, w, c) - Reads(y, w, dst)) % Modulus(w) == 0
    case Compare(w, c, dst, a, b) =>
      && Defines(x, y, W32, dst) && 0 <= Low(y[dst]) <= 1
      && (Low(y[dst]) == 1 <==> CmpWords(w, c, Reads(x, w, a), Reads(x, w, b)))
    case Extend(n, signed, dst, src) =>
      && Defines(x, y, W64, dst)
      && forall k: nat :: k < 64 ==>
           (Bit(y[dst], k) <==> if k < n then Bit(x[src], k) else signed && n > 0 && Bit(x[src], n - 1))
    case Div(w, dop, dst, a, b) =>
      && Defines(x, y, w, dst) && Reads(x, w, b) != 0
      && DivMeans(w, dop, Reads(x, w, a), Reads(x, w, b), Reads(y, w, dst))
    case Select(w, dst, cond, nz, z) =>
      Defines(x, y, w, dst) && Reads(y, w, dst) == Reads(x, w, if Low(x[cond]) == 0 then z else nz)
    case AddTrap(w, dst, a, b) => Defines(x, y, w, dst) && Reads(y, w, dst) == Reads(x, w, a) + Reads(x, w, b)
    case MulHi(signed, dst, a, b) =>
      && Defines(x, y, W64, dst)
      && 0 <= SignedIf(signed, x[a]) * SignedIf(signed, x[b]) - SignedIf(signed, y[dst]) * B64 < B64
    case Add128(lo, hi, alo, ahi, blo, bhi) => PairTakes(x, y, lo, hi, Get128(x, alo, ahi) + Get128(x, blo, bhi))
    case Sub128(lo, hi, alo, ahi, blo, bhi) => PairTakes(x, y, lo, hi, Get128(x, alo, ahi) - Get128(x, blo, bhi))
    case WideMul(signed, lo, hi, a, b) =>
      && OnlyPair(x, y, lo, hi)
      && (lo != hi ==> SignedIf(signed, x[a]) * SignedIf(signed, x[b]) == y[lo] + SignedIf(signed, y[hi]) * B64)
  }

  /** What an instruction traps with, if it does. */
  function AluTraps(x: Regs, op: Alu): Option<Option<TrapKind>>
  {
    match op
    case Div(w, dop, _, a, b) =>
      if Reads(x, w, b) == 0 then Some(Some(DivideByZeroTrap))
      else if dop == DivS && 2 * Reads(x, w, a) == Modulus(w) && Reads(x, w, b) == Modulus(w) - 1
      then Some(Some(IntegerOverflow))
      else None
    case AddTrap(w, _, a, b) => if Reads(x, w, a) + Reads(x, w, b) >= Modulus(w) then Some(None) else None
    case _ => None
  }

  lemma PutDefines(x: Regs, w: Width, dst: Reg, v: int)
    requires Word(w, v)
    ensures Defines(x, Put(x, w, dst, v), w, dst) && Reads(Put(x, w, dst, v), w, dst) == v
  {
  }

  lemma {:induction false} BinAlu(x: Regs, w: Width, op: BinOp, dst: Reg, a: Reg, b: Src)
    ensures var r := EvalAlu(x, Bin(w, op, dst, a, b)); r.Regs? && AluMeans(x, Bin(w, op, dst, a, b), r.x)
  {
    var v := SrcVal(x, w, b);
    BinMeant(w, op, Val(x, w, a), v);
    PutDefines(x, w, dst, BinEval(w, op, Val(x, w, a), v));
    if b.I? { ImmediateOperand(w, b.v); }
    assert IsOperand(x, w, b, v);
  }

  lemma {:induction false} ImmediateOperand(w: Width, v: int)
    ensures (v % Modulus(w) - v) % Modulus(w) == 0
  {
    Residue(v, Modulus(w));
    var m := Modulus(w);
    DivUnique(v % m - v, m, -(v / m), 0);
  }

  lemma {:induction false} UnAlu(x: Regs, w: Width, op: UnOp, dst: Reg, a: Reg)
    ensures var r := EvalAlu(x, Un(w, op, dst, a)); r.Regs? && AluMeans(x, Un(w, op, dst, a), r.x)
  {
    UnMeant(w, op, Val(x, w, a));
    PutDefines(x, w, dst, UnEval(w, op, Val(x, w, a)));
  }

  lemma {:induction false} MaddAlu(x: Regs, w: Width, dst: Reg, a: Reg, b: Reg, c: Reg)
    ensures var r := EvalAlu(x, Madd(w, dst, a, b, c)); r.Regs? && AluMeans(x, Madd(w, dst, a, b, c), r.x)
  {
    var m, p := Modulus(w), Val(x, w, a) * Val(x, w, b);
    var r := (p % m + Val(x, w, c)) % m;
    PutDefines(x, w, dst, r);
    SumOfResidue(p, Val(x, w, c), m);
  }

  lemma {:induction false} SumOfResidue(p: int, c: int, m: int)
    requires m > 0
    ensures (p + c - (p % m + c) % m) % m == 0
  {
    var q := p % m + c;
    DivUnique(p + c - q % m, m, p / m + q / m, 0);
  }

  lemma {:induction false} DivAlu(x: Regs, w: Width, op: DivOp, dst: Reg, a: Reg, b: Reg)
    ensures var r, i := EvalAlu(x, Div(w, op, dst, a, b)), Div(w, op, dst, a, b);
            if AluTraps(x, i).Some? then r == AluTrap(AluTraps(x, i).value) else r.Regs? && AluMeans(x, i, r.x)
  {
    var d := DivEval(w, op, Val(x, w, a), Val(x, w, b));
    if d.Quot? {
      DivMeant(w, op, Val(x, w, a), Val(x, w, b));
      PutDefines(x, w, dst, d.value);
    }
  }

  lemma {:induction false} ExtendAlu(x: Regs, n: nat, signed: bool, dst: Reg, src: Reg)
    ensures var r := EvalAlu(x, Extend(n, signed, dst, src)); r.Regs? && AluMeans(x, Extend(n, signed, dst, src), r.x)
  {
    var low := x[src] % Pow2(n);
    var v := if signed && 2 * low >= Pow2(n) then low - Pow2(n) else low;
    forall k: nat | k < 64
      ensures Bit(U64(v), k) <==> if k < n then Bit(x[src], k) else signed && n > 0 && Bit(x[src], n - 1)
    {
      BitOfExtension(x[src], n, signed, v, k);
    }
  }

  lemma {:induction false} BitOfExtension(a: u64, n: nat, signed: bool, v: int, k: nat)
    requires k < 64
    requires var low := a % Pow2(n); v == if signed && 2 * low >= Pow2(n) then low - Pow2(n) else low
    ensures Bit(U64(v), k) <==> if k < n then Bit(a, k) else signed && n > 0 && Bit(a, n - 1)
  {
    var low := a % Pow2(n);
    Pow2Bits(W64);
    BitMod(v, 64, k);
    BitMod(a, n, k);
    if signed && n > 0 {
      BitExtended(n, low, v, k);
      BitMod(a, n, n - 1);
    }
  }

  lemma {:induction false} HighAlu(x: Regs, signed: bool, dst: Reg, a: Reg, b: Reg)
    ensures var r := EvalAlu(x, MulHi(signed, dst, a, b)); r.Regs? && AluMeans(x, MulHi(signed, dst, a, b), r.x)
  {
    var p := SignedIf(signed, x[a]) * SignedIf(signed, x[b]);
    ProductRange(signed, x[a], x[b]);
    HighHalf(signed, p);
  }

  lemma {:induction false} Larger(a: nat, b: nat, c: nat, d: nat)
    requires a <= b && c <= d
    ensures a * c <= b * d
  {
    assert (b - a) * c >= 0 && b * (d - c) >= 0;
  }

  lemma {:induction false} ProductMagnitude(x: int, y: int)
    ensures Magnitude(x * y) == Magnitude(x) * Magnitude(y)
  {
    SignedProducts(x, y);
    if x >= 0 && y >= 0 { Larger(0, x, 0, y); }
    if x >= 0 && y < 0 { Larger(0, x, 0, -y); }
    if x < 0 && y >= 0 { Larger(0, -x, 0, y); }
    if x < 0 && y < 0 { Larger(0, -x, 0, -y); }
  }

  /** A product of two words fits in two words. */
  lemma {:induction false} ProductRange(signed: bool, a: u64, b: u64)
    ensures var p := SignedIf(signed, a) * SignedIf(signed, b);
            if signed then -B128 <= 4 * p <= B128 else 0 <= p < B128
  {
    var x, y := SignedIf(signed, a), SignedIf(signed, b);
    ProductMagnitude(x, y);
    var m := if signed then 0x8000_0000_0000_0000 else 0xFFFF_FFFF_FFFF_FFFF;
    Larger(Magnitude(x), m, Magnitude(y), m);
  }

  lemma HighHalf(signed: bool, p: int)
    requires if signed then -B128 <= 4 * p <= B128 else 0 <= p < B128
    ensures SignedIf(signed, U64(p / B64)) == p / B64
  {
  }

  lemma PairHolds(x: Regs, lo: Reg, hi: Reg, v: int)
    requires lo != hi && -B128 <= 2 * v < B128
    ensures Get128(Set128(x, lo, hi, v), lo, hi) == v && OnlyPair(x, Set128(x, lo, hi, v), lo, hi)
  {
    var h := v / B64;
    assert S64(U64(h)) == h;
    assert v == U64(v) + h * B64;
  }

  lemma {:induction false} WrapIsResidue(v: int)
    ensures -B128 <= 2 * Wrap128(v) < B128 && (v - Wrap128(v)) % B128 == 0
  {
    Residue(v, B128);
    DivUnique(v - v % B128 + B128, B128, v / B128 + 1, 0);
  }

  lemma {:induction false} SumPair(x: Regs, lo: Reg, hi: Reg, v: int)
    ensures PairTakes(x, Set128(x, lo, hi, Wrap128(v)), lo, hi, v)
  {
    WrapIsResidue(v);
    if lo != hi { PairHolds(x, lo, hi, Wrap128(v)); }
  }

  lemma {:induction false} SumAlu(x: Regs, lo: Reg, hi: Reg, alo: Reg, ahi: Reg, blo: Reg, bhi: Reg)
    ensures var i := Add128(lo, hi, alo, ahi, blo, bhi); var r := EvalAlu(x, i); r.Regs? && AluMeans(x, i, r.x)
  {
    SumPair(x, lo, hi, Get128(x, alo, ahi) + Get128(x, blo, bhi));
  }

  lemma {:induction false} DifferenceAlu(x: Regs, lo: Reg, hi: Reg, alo: Reg, ahi: Reg, blo: Reg, bhi: Reg)
    ensures var i := Sub128(lo, hi, alo, ahi, blo, bhi); var r := EvalAlu(x, i); r.Regs? && AluMeans(x, i, r.x)
  {
    SumPair(x, lo, hi, Get128(x, alo, ahi) - Get128(x, blo, bhi));
  }

  lemma {:induction false} ProductAlu(x: Regs, signed: bool, lo: Reg, hi: Reg, a: Reg, b: Reg)
    ensures var i := WideMul(signed, lo, hi, a, b); var r := EvalAlu(x, i); r.Regs? && AluMeans(x, i, r.x)
  {
    var p := SignedIf(signed, x[a]) * SignedIf(signed, x[b]);
    ProductRange(signed, x[a], x[b]);
    WideArith.WrapKeepsHalves(p);
    HighHalf(signed, p);
    assert p == U64(p) + p / B64 * B64;
  }

  lemma PlainAlu(x: Regs, op: Alu)
    requires op.Mov? || op.Select? || op.Compare?
    ensures var r := EvalAlu(x, op); r.Regs? && AluMeans(x, op, r.x)
  {
  }

  lemma {:induction false} ConstAlu(x: Regs, dst: Reg, v: int)
    ensures var r := EvalAlu(x, Const(dst, v)); r.Regs? && AluMeans(x, Const(dst, v), r.x)
  {
    Residue(v, B64);
  }

  lemma {:induction false} AddTrapAlu(x: Regs, w: Width, dst: Reg, a: Reg, b: Reg)
    ensures var r, i := EvalAlu(x, AddTrap(w, dst, a, b)), AddTrap(w, dst, a, b);
            if AluTraps(x, i).Some? then r == AluTrap(AluTraps(x, i).value) else r.Regs? && AluMeans(x, i, r.x)
  {
    var sum := Val(x, w, a) + Val(x, w, b);
    if sum < Modulus(w) { PutDefines(x, w, dst, sum); }
  }

  /** Every arithmetic instruction traps when it should, and otherwise leaves the registers that it means. */
  lemma {:induction false} AluMeant(x: Regs, op: Alu)
    ensures AluTraps(x, op).Some? ==> EvalAlu(x, op) == AluTrap(AluTraps(x, op).value)
    ensures AluTraps(x, op).None? ==> EvalAlu(x, op).Regs? && AluMeans(x, op, EvalAlu(x, op).x)
  {
    match op
    case Mov(_, _) => PlainAlu(x, op);
    case Const(dst, v) => ConstAlu(x, dst, v);
    case Bin(w, bop, dst, a, b) => BinAlu(x, w, bop, dst, a, b);
    case Un(w, uop, dst, a) => UnAlu(x, w, uop, dst, a);
    case Madd(w, dst, a, b, c) => MaddAlu(x, w, dst, a, b, c);
    case Compare(_, _, _, _, _) => PlainAlu(x, op);
    case Extend(n, signed, dst, src) => ExtendAlu(x, n, signed, dst, src);
    case Div(w, dop, dst, a, b) => DivAlu(x, w, dop, dst, a, b);
    case Select(_, _, _, _, _) => PlainAlu(x, op);
    case AddTrap(w, dst, a, b) => AddTrapAlu(x, w, dst, a, b);
    case MulHi(signed, dst, a, b) => HighAlu(x, signed, dst, a, b);
    case Add128(lo, hi, alo, ahi, blo, bhi) => SumAlu(x, lo, hi, alo, ahi, blo, bhi);
    case Sub128(lo, hi, alo, ahi, blo, bhi) => DifferenceAlu(x, lo, hi, alo, ahi, blo, bhi);
    case WideMul(signed, lo, hi, a, b) => ProductAlu(x, signed, lo, hi, a, b);
  }
}
