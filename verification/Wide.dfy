/** The 128-bit operations against the 64-bit ones they stand for. */
module WideArith {
  import opened Words
  import opened Ops
  import opened Arith
  import opened Machine

  /** Wrapping to 128 bits changes neither half of what is stored. */
  lemma WrapKeepsHalves(v: int)
    ensures U64(Wrap128(v)) == U64(v)
    ensures U64(Wrap128(v) / B64) == U64(v / B64)
  {
    var k := (v - Wrap128(v)) / B128;
    var w := Wrap128(v);
    assert v == w + k * B128;
    assert k * B128 == (k * B64) * B64;
    assert v / B64 == w / B64 + k * B64;
  }

  /** Reducing both factors by multiples of 2^64 shifts the high half by the matching factors. */
  lemma SignedProduct(a: u64, b: u64)
    ensures var ka := if S64(a) < 0 then 1 else 0; var kb := if S64(b) < 0 then 1 else 0;
            S64(a) * S64(b) == a * b - (ka * b + kb * a - ka * kb * B64) * B64
  {
    assert (a - B64) * (b - B64) == a * b - a * B64 - b * B64 + B64 * B64;
    assert (a - B64) * b == a * b - b * B64;
    assert a * (b - B64) == a * b - a * B64;
  }

  lemma DivShift(p: int, q: int)
    ensures (p - q * B64) / B64 == p / B64 - q && U64(p - q * B64) == U64(p)
  {
  }

  /** The high halves that `xmulhi64_s` and `xmulhi64_u` compute. */
  function HighProduct(signed: bool, a: u64, b: u64): u64 { U64(SignedIf(signed, a) * SignedIf(signed, b) / B64) }

  /** The signed high half is the unsigned one less each factor whose partner is negative, modulo 2^64. */
  lemma SignedHighHalf(a: u64, b: u64)
    ensures HighProduct(true, a, b) ==
              U64(HighProduct(false, a, b) - (if S64(a) < 0 then b else 0) - (if S64(b) < 0 then a else 0))
  {
    var ka := if S64(a) < 0 then 1 else 0;
    var kb := if S64(b) < 0 then 1 else 0;
    var q := ka * b + kb * a - ka * kb * B64;
    SignedProduct(a, b);
    DivShift(a * b, q);
    var h := a * b / B64;
    assert HighProduct(true, a, b) == U64(h - q);
    var d := ka * b + kb * a;
    DivShift(h - d, -(ka * kb));
    U64Shift(h, -d);
  }

  /** The low half does not depend on signedness: it is what `xmul64` computes. */
  lemma LowHalfOfProduct(signed: bool, a: u64, b: u64)
    ensures U64(SignedIf(signed, a) * SignedIf(signed, b)) == BinEval(W64, Mul, a, b)
  {
    if signed {
      var ka := if S64(a) < 0 then 1 else 0;
      var kb := if S64(b) < 0 then 1 else 0;
      SignedProduct(a, b);
      DivShift(a * b, ka * b + kb * a - ka * kb * B64);
    }
  }

  /** `xwidemul64` leaves `xmul64`'s result in the low register and `xmulhi64`'s in the high one, which wins over it. */
  lemma WideMulHalves(x: Regs, signed: bool, lo: Reg, hi: Reg, a: Reg, b: Reg, t: Reg)
    ensures var y := EvalAlu(x, WideMul(signed, lo, hi, a, b));
            && y.Regs?
            && (lo != hi ==> Regs(x[t := y.x[lo]]) == EvalAlu(x, Bin(W64, Mul, t, a, R(b))))
            && Regs(x[t := y.x[hi]]) == EvalAlu(x, MulHi(signed, t, a, b))
            && forall r: Reg :: r != lo && r != hi ==> y.x[r] == x[r]
  {
    var p := SignedIf(signed, x[a]) * SignedIf(signed, x[b]);
    WrapKeepsHalves(p);
    LowHalfOfProduct(signed, x[a], x[b]);
  }

  lemma CarryHalves(alo: u64, ahi: u64, blo: u64, bhi: u64)
    ensures var v := (alo + S64(ahi) * B64) + (blo + S64(bhi) * B64);
            var carry := if alo + blo >= B64 then 1 else 0;
            U64(v) == U64(alo + blo) && U64(v / B64) == U64(ahi + bhi + carry)
  {
    var h := S64(ahi) + S64(bhi);
    DivShift(alo + blo, -h);
    var carry := if alo + blo >= B64 then 1 else 0;
    assert (alo + blo) / B64 == carry;
  }

  lemma BorrowHalves(alo: u64, ahi: u64, blo: u64, bhi: u64)
    ensures var v := (alo + S64(ahi) * B64) - (blo + S64(bhi) * B64);
            var borrow := if alo < blo then 1 else 0;
            U64(v) == U64(alo - blo) && U64(v / B64) == U64(ahi - bhi - borrow)
  {
    var h := S64(ahi) - S64(bhi);
    DivShift(alo - blo, -h);
    var borrow := if alo < blo then 1 else 0;
    assert (alo - blo) / B64 == -borrow;
  }

  /** A 64-bit add of the low words, whose carry goes into the add of the high words. */
  function CarryChain(x: Regs, lo: Reg, hi: Reg, alo: Reg, ahi: Reg, blo: Reg, bhi: Reg): Regs
  {
    var carry := if x[alo] + x[blo] >= B64 then 1 else 0;
    var high := U64(x[ahi] as int + x[bhi] + carry);
    x[lo := BinEval(W64, Add, x[alo], x[blo])][hi := high]
  }

  function BorrowChain(x: Regs, lo: Reg, hi: Reg, alo: Reg, ahi: Reg, blo: Reg, bhi: Reg): Regs
  {
    var borrow := if x[alo] < x[blo] then 1 else 0;
    var high := U64(x[ahi] as int - x[bhi] - borrow);
    x[lo := BinEval(W64, Sub, x[alo], x[blo])][hi := high]
  }

  /** `xadd128` is the 64-bit carry chain. */
  lemma Add128IsCarryChain(x: Regs, lo: Reg, hi: Reg, alo: Reg, ahi: Reg, blo: Reg, bhi: Reg)
    ensures EvalAlu(x, Add128(lo, hi, alo, ahi, blo, bhi)) == Regs(CarryChain(x, lo, hi, alo, ahi, blo, bhi))
  {
    WrapKeepsHalves(Get128(x, alo, ahi) + Get128(x, blo, bhi));
    CarryHalves(x[alo], x[ahi], x[blo], x[bhi]);
  }

  lemma Sub128IsBorrowChain(x: Regs, lo: Reg, hi: Reg, alo: Reg, ahi: Reg, blo: Reg, bhi: Reg)
    ensures EvalAlu(x, Sub128(lo, hi, alo, ahi, blo, bhi)) == Regs(BorrowChain(x, lo, hi, alo, ahi, blo, bhi))
  {
    WrapKeepsHalves(Get128(x, alo, ahi) - Get128(x, blo, bhi));
    BorrowHalves(x[alo], x[ahi], x[blo], x[bhi]);
  }

  lemma CarryThenBorrow(alo: u64, ahi: u64, blo: u64, bhi: u64)
    ensures var lo := U64(alo + blo);
            var hi := U64(ahi + bhi + if alo + blo >= B64 then 1 else 0);
            U64(lo - blo) == alo && U64(hi - bhi - if lo < blo then 1 else 0) == ahi
  {
  }

  lemma BorrowUndoesCarry(x: Regs, lo: Reg, hi: Reg, alo: Reg, ahi: Reg, blo: Reg, bhi: Reg)
    requires lo != hi && blo != lo && blo != hi && bhi != lo && bhi != hi
    ensures BorrowChain(CarryChain(x, lo, hi, alo, ahi, blo, bhi), lo, hi, lo, hi, blo, bhi) ==
              x[lo := x[alo]][hi := x[ahi]]
  {
    var y := CarryChain(x, lo, hi, alo, ahi, blo, bhi);
    assert y[blo] == x[blo] && y[bhi] == x[bhi];
    CarryThenBorrow(x[alo], x[ahi], x[blo], x[bhi]);
  }

  /**
   `xsub128` of the same right-hand pair undoes `xadd128`, when the sum's registers are distinct and
   neither is one of the right-hand registers.
   */
  lemma Sub128UndoesAdd128(x: Regs, lo: Reg, hi: Reg, alo: Reg, ahi: Reg, blo: Reg, bhi: Reg)
    requires lo != hi && blo != lo && blo != hi && bhi != lo && bhi != hi
    ensures var y := EvalAlu(x, Add128(lo, hi, alo, ahi, blo, bhi));
            y.Regs? && EvalAlu(y.x, Sub128(lo, hi, lo, hi, blo, bhi)) == Regs(x[lo := x[alo]][hi := x[ahi]])
  {
    Add128IsCarryChain(x, lo, hi, alo, ahi, blo, bhi);
    Sub128IsBorrowChain(CarryChain(x, lo, hi, alo, ahi, blo, bhi), lo, hi, lo, hi, blo, bhi);
    BorrowUndoesCarry(x, lo, hi, alo, ahi, blo, bhi);
  }
}
