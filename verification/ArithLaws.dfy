/**
 What the integer operations mean, said of their results: congruences, bits, orders and the law of
 division. No clause names the function that computes the result.
 */
module ArithLaws {
  import opened Words
  import opened Ops
  import opened Arith
  import opened BitLaws

  // ----- Two operands -----

  /** `r` is the result of `op` on words `a` and `b`. Counts are taken modulo the width. */
  ghost predicate BinMeans(w: Width, op: BinOp, a: int, b: int, r: int)
  {
    var n, m, s := Bits(w), Modulus(w), b % Bits(w);
    match op
    case Add => (a + b - r) % m == 0
    case Sub => (a - b - r) % m == 0
    case Mul => (a * b - r) % m == 0
    case And => forall k: nat :: k < n ==> (Bit(r, k) <==> Bit(a, k) && Bit(b, k))
    case Or => forall k: nat :: k < n ==> (Bit(r, k) <==> Bit(a, k) || Bit(b, k))
    case Xor => forall k: nat :: k < n ==> (Bit(r, k) <==> Bit(a, k) != Bit(b, k))
    case Shl => forall k: nat :: k < n ==> (Bit(r, k) <==> s <= k && Bit(a, k - s))
    case ShrU => forall k: nat :: k < n ==> (Bit(r, k) <==> k + s < n && Bit(a, k + s))
    case ShrS => forall k: nat :: k < n ==> (Bit(r, k) <==> Bit(a, if k + s < n then k + s else n - 1))
    case Rotl => forall k: nat :: k < n ==> (Bit(r, if k + s < n then k + s else k + s - n) <==> Bit(a, k))
    case Rotr => forall k: nat :: k < n ==> (Bit(r, k) <==> Bit(a, if k + s < n then k + s else k + s - n))
    case MinU => (r == a || r == b) && r <= a && r <= b
    case MaxU => (r == a || r == b) && r >= a && r >= b
    case MinS => (r == a || r == b) && Signed(w, r) <= Signed(w, a) && Signed(w, r) <= Signed(w, b)
    case MaxS => (r == a || r == b) && Signed(w, r) >= Signed(w, a) && Signed(w, r) >= Signed(w, b)
  }

  lemma {:induction false} BitBitwise(n: nat, op: BinOp, a: nat, b: nat, k: nat)
    requires k < n && (op.And? || op.Or? || op.Xor?)
    ensures Bit(Bitwise(n, op, a, b), k) <==>
            match op
            case And => Bit(a, k) && Bit(b, k)
            case Or => Bit(a, k) || Bit(b, k)
            case _ => Bit(a, k) != Bit(b, k)
    decreases n
  {
    var rest := Bitwise(n - 1, op, a / 2, b / 2);
    var low := Bitwise(n, op, a, b) - 2 * rest;
    assert (low + 2 * rest) % 2 == low && (low + 2 * rest) / 2 == rest;
    if k != 0 { BitBitwise(n - 1, op, a / 2, b / 2, k - 1); }
  }

  lemma {:induction false} BitShl(w: Width, a: int, b: int, k: nat)
    requires Word(w, a) && Word(w, b) && k < Bits(w)
    ensures Bit(BinEval(w, Shl, a, b), k) <==> b % Bits(w) <= k && Bit(a, k - b % Bits(w))
  {
    Pow2Bits(w);
    BitMul(a, b % Bits(w), k);
    BitMod(a * Pow2(b % Bits(w)), Bits(w), k);
  }

  lemma {:induction false} BitShrU(w: Width, a: int, b: int, k: nat)
    requires Word(w, a) && Word(w, b) && k < Bits(w)
    ensures var s := b % Bits(w); Bit(BinEval(w, ShrU, a, b), k) <==> k + s < Bits(w) && Bit(a, k + s)
  {
    var s := b % Bits(w);
    Pow2Bits(w);
    BitDiv(a, s, k);
    if Bits(w) <= k + s { BitHigh(a, Bits(w), k + s); }
  }

  lemma {:induction false} BitShrS(w: Width, a: int, b: int, k: nat)
    requires Word(w, a) && Word(w, b) && k < Bits(w)
    ensures var n, s := Bits(w), b % Bits(w);
            Bit(BinEval(w, ShrS, a, b), k) <==> Bit(a, if k + s < n then k + s else n - 1)
  {
    var s := b % Bits(w);
    Pow2Bits(w);
    BitMod(Signed(w, a) / Pow2(s), Bits(w), k);
    BitDiv(Signed(w, a), s, k);
    BitSigned(w, a, k + s);
  }

  /** Rotating left by `s` takes bit `k` to `k + s`, around the width. */
  lemma {:induction false} BitRotate(w: Width, a: int, s: nat, k: nat)
    requires Word(w, a) && s <= Bits(w) && k < Bits(w)
    ensures var n := Bits(w); Bit(RotateLeft(w, a, s), if k + s < n then k + s else k + s - n) <==> Bit(a, k)
  {
    var n := Bits(w);
    Pow2Bits(w);
    Pow2Sum(s, n - s);
    var lo, j := a / Pow2(n - s), if k + s < n then k + s else k + s - n;
    LowPart(a, Pow2(n - s), Pow2(s));
    assert a * Pow2(s) + lo == lo + Pow2(s) * a;
    BitJoin(lo, a, s, j);
    BitMod(lo + Pow2(s) * a, n, j);
    if n <= k + s { BitDiv(a, n - s, j); }
  }

  lemma {:induction false} LowPart(a: int, p: int, q: int)
    requires p > 0 && q > 0 && 0 <= a < q * p
    ensures 0 <= a / p < q
  {
    var d := a / p - q;
    assert p * d == a - a % p - q * p;
    AtLeastOnce(p, d + 1);
    assert p * (d + 1) == p * d + p;
  }

  lemma {:induction false} LogicMeant(w: Width, op: BinOp, a: int, b: int)
    requires Word(w, a) && Word(w, b) && (op.And? || op.Or? || op.Xor?)
    ensures BinMeans(w, op, a, b, BinEval(w, op, a, b))
  {
    forall k: nat | k < Bits(w)
      ensures Bit(BinEval(w, op, a, b), k) <==>
              match op
              case And => Bit(a, k) && Bit(b, k)
              case Or => Bit(a, k) || Bit(b, k)
              case _ => Bit(a, k) != Bit(b, k)
    {
      BitBitwise(Bits(w), op, a, b, k);
    }
  }

  lemma {:induction false} ShiftMeant(w: Width, op: BinOp, a: int, b: int)
    requires Word(w, a) && Word(w, b) && (op.Shl? || op.ShrU? || op.ShrS?)
    ensures BinMeans(w, op, a, b, BinEval(w, op, a, b))
  {
    if op.Shl? {
      forall k: nat | k < Bits(w)
        ensures Bit(BinEval(w, Shl, a, b), k) <==> b % Bits(w) <= k && Bit(a, k - b % Bits(w))
      {
        BitShl(w, a, b, k);
      }
    } else if op.ShrU? {
      forall k: nat | k < Bits(w)
        ensures var s := b % Bits(w); Bit(BinEval(w, ShrU, a, b), k) <==> k + s < Bits(w) && Bit(a, k + s)
      {
        BitShrU(w, a, b, k);
      }
    } else {
      forall k: nat | k < Bits(w)
        ensures var n, s := Bits(w), b % Bits(w);
                Bit(BinEval(w, ShrS, a, b), k) <==> Bit(a, if k + s < n then k + s else n - 1)
      {
        BitShrS(w, a, b, k);
      }
    }
  }

  lemma {:induction false} RotlMeant(w: Width, a: int, b: int)
    requires Word(w, a) && Word(w, b)
    ensures BinMeans(w, Rotl, a, b, BinEval(w, Rotl, a, b))
  {
    var n, s := Bits(w), b % Bits(w);
    var r := RotateLeft(w, a, s);
    forall k: nat | k < n
      ensures Bit(r, if k + s < n then k + s else k + s - n) <==> Bit(a, k)
    {
      BitRotate(w, a, s, k);
    }
  }

  lemma {:induction false} BitRotr(w: Width, a: int, s: nat, k: nat)
    requires Word(w, a) && s < Bits(w) && k < Bits(w)
    ensures var n := Bits(w);
            Bit(RotateLeft(w, a, if s == 0 then 0 else n - s), k) <==> Bit(a, if k + s < n then k + s else k + s - n)
  {
    var n := Bits(w);
    BitRotate(w, a, if s == 0 then 0 else n - s, if k + s < n then k + s else k + s - n);
  }

  lemma {:induction false} RotrMeant(w: Width, a: int, b: int)
    requires Word(w, a) && Word(w, b)
    ensures BinMeans(w, Rotr, a, b, BinEval(w, Rotr, a, b))
  {
    var n, s := Bits(w), b % Bits(w);
    var r := RotateLeft(w, a, if s == 0 then 0 else n - s);
    forall k: nat | k < n
      ensures Bit(r, k) <==> Bit(a, if k + s < n then k + s else k + s - n)
    {
      BitRotr(w, a, s, k);
    }
  }

  lemma SumMeant(w: Width, op: BinOp, a: int, b: int)
    requires Word(w, a) && Word(w, b) && (op.Add? || op.Sub? || op.Mul?)
    ensures BinMeans(w, op, a, b, BinEval(w, op, a, b))
  {
    Residue(if op.Add? then a + b else if op.Sub? then a - b else a * b, Modulus(w));
  }

  lemma {:induction false} Residue(v: int, m: int)
    requires m > 0
    ensures (v - v % m) % m == 0
  {
    DivUnique(v - v % m, m, v / m, 0);
  }

  lemma ExtremeMeant(w: Width, op: BinOp, a: int, b: int)
    requires Word(w, a) && Word(w, b) && (op.MinU? || op.MaxU? || op.MinS? || op.MaxS?)
    ensures BinMeans(w, op, a, b, BinEval(w, op, a, b))
  {
  }

  /** Every two-operand operation means what its name says. */
  lemma {:induction false} BinMeant(w: Width, op: BinOp, a: int, b: int)
    requires Word(w, a) && Word(w, b)
    ensures BinMeans(w, op, a, b, BinEval(w, op, a, b))
  {
    if op.And? || op.Or? || op.Xor? {
      LogicMeant(w, op, a, b);
    } else if op.Shl? || op.ShrU? || op.ShrS? {
      ShiftMeant(w, op, a, b);
    } else if op.Rotl? {
      RotlMeant(w, a, b);
    } else if op.Rotr? {
      RotrMeant(w, a, b);
    } else if op.Add? || op.Sub? || op.Mul? {
      SumMeant(w, op, a, b);
    } else {
      ExtremeMeant(w, op, a, b);
    }
  }

  /** Rotating right undoes rotating left. */
  lemma {:induction false} RotatesUndo(w: Width, a: int, b: int)
    requires Word(w, a) && Word(w, b)
    ensures BinEval(w, Rotr, BinEval(w, Rotl, a, b), b) == a
  {
    var n, s := Bits(w), b % Bits(w);
    var r := BinEval(w, Rotl, a, b);
    Pow2Bits(w);
    forall k: nat | k < n
      ensures Bit(BinEval(w, Rotr, r, b), k) <==> Bit(a, k)
    {
      BitRotr(w, r, s, k);
      BitRotate(w, a, s, k);
    }
    SameBits(n, BinEval(w, Rotr, r, b), a);
  }

  // ----- One operand -----

  /** `r` is the result of `op` on the word `a`. */
  ghost predicate UnMeans(w: Width, op: UnOp, a: int, r: int)
  {
    var n, m := Bits(w), Modulus(w);
    match op
    case Ctz =>
      if a == 0 then r == n else 0 <= r < n && Bit(a, r) && forall k: nat :: k < r ==> !Bit(a, k)
    case Clz =>
      if a == 0 then r == n
      else 0 <= r < n && Bit(a, n - 1 - r) && forall k: nat :: n - 1 - r < k < n ==> !Bit(a, k)
    case Popcnt => r == |set k: nat | k < n && Bit(a, k)|
    case Neg => (a + r) % m == 0
    case Not => forall k: nat :: k < n ==> (Bit(r, k) <==> !Bit(a, k))
    case Abs => r == Signed(w, a) || r == -Signed(w, a)
    case Bswap => forall k: nat :: k < n ==> (Bit(r, k) <==> Bit(a, 8 * (n / 8 - 1 - k / 8) + k % 8))
    case Bmask => forall k: nat :: k < n ==> (Bit(r, k) <==> a != 0)
  }

  lemma {:induction false} TrailingZerosMeant(n: nat, a: int)
    requires 0 <= a < Pow2(n)
    ensures var r := TrailingZeros(n, a);
            if a == 0 then r == n else r < n && Bit(a, r) && forall k: nat :: k < r ==> !Bit(a, k)
    decreases n
  {
    if n != 0 && a % 2 == 0 {
      TrailingZerosMeant(n - 1, a / 2);
      forall k: nat | k < TrailingZeros(n, a)
        ensures a != 0 ==> !Bit(a, k)
      {
      }
    }
  }

  lemma {:induction false} LeadingZerosMeant(n: nat, a: int)
    requires 0 <= a < Pow2(n)
    ensures var r := LeadingZeros(n, a);
            if a == 0 then r == n
            else r < n && Bit(a, n - 1 - r) && forall k: nat :: n - 1 - r < k < n ==> !Bit(a, k)
    decreases n
  {
    if n != 0 {
      TopBit(a, n);
      if a < Pow2(n - 1) { LeadingZerosMeant(n - 1, a); }
    }
  }

  ghost function Ones(n: nat, a: int): set<nat> { set k: nat | k < n && Bit(a, k) }

  lemma {:induction false} PopCountTop(n: nat, a: nat)
    requires n > 0
    ensures PopCount(n, a) == PopCount(n - 1, a) + if Bit(a, n - 1) then 1 else 0
    decreases n
  {
    if n > 1 { PopCountTop(n - 1, a / 2); }
  }

  lemma {:induction false} PopCountMeant(n: nat, a: nat)
    ensures PopCount(n, a) == |Ones(n, a)|
    decreases n
  {
    if n == 0 {
      assert Ones(0, a) == {};
    } else {
      PopCountTop(n, a);
      PopCountMeant(n - 1, a);
      assert Ones(n, a) == Ones(n - 1, a) + (if Bit(a, n - 1) then {n - 1} else {});
    }
  }

  lemma {:induction false} ReverseAt(bs: seq<byte>, k: nat)
    requires k < |bs|
    ensures Reverse(bs)[k] == bs[|bs| - 1 - k]
  {
    if k < |bs| - 1 { ReverseAt(bs[1..], k); }
  }

  lemma {:induction false} BitReversed(n: nat, a: int, i: nat, l: nat)
    requires i < n && l < 8
    ensures Bit(FromLe(Reverse(LeBytes(n, a))), 8 * i + l) <==> Bit(a, 8 * (n - 1 - i) + l)
  {
    var le := LeBytes(n, a);
    var j := n - 1 - i;
    assert Bit(FromLe(Reverse(le)), 8 * i + l) <==> Bit(Reverse(le)[i], l) by {
      DivUnique(8 * i + l, 8, i, l);
      BitFromLe(Reverse(le), 0, 8 * i + l);
    }
    assert Reverse(le)[i] == le[j] by { ReverseAt(le, i); }
    assert Bit(le[j], l) <==> Bit(a, 8 * j + l) by {
      DivUnique(8 * j + l, 8, j, l);
      BitLeBytes(n, a, 8 * j + l);
    }
  }

  lemma {:induction false} BitSwap(w: Width, a: int, k: nat)
    requires Word(w, a) && k < Bits(w)
    ensures Bit(UnEval(w, Bswap, a), k) <==> Bit(a, 8 * (Bits(w) / 8 - 1 - k / 8) + k % 8)
  {
    BitReversed(Bits(w) / 8, a, k / 8, k % 8);
  }

  lemma {:induction false} BitNot(w: Width, a: int, k: nat)
    requires Word(w, a) && k < Bits(w)
    ensures Bit(UnEval(w, Not, a), k) <==> !Bit(a, k)
  {
    Pow2Bits(w);
    BitFlip(a, k);
    BitShifted(-1 - a, Bits(w), 1, k);
  }

  lemma {:induction false} BitFlip(a: int, k: nat)
    ensures Bit(-1 - a, k) <==> !Bit(a, k)
    decreases k
  {
    assert (-1 - a) % 2 == 1 - a % 2 && (-1 - a) / 2 == -1 - a / 2;
    if k != 0 { BitFlip(a / 2, k - 1); }
  }

  lemma {:induction false} NotMeant(w: Width, a: int)
    requires Word(w, a)
    ensures UnMeans(w, Not, a, UnEval(w, Not, a))
  {
    forall k: nat | k < Bits(w)
      ensures Bit(UnEval(w, Not, a), k) <==> !Bit(a, k)
    {
      BitNot(w, a, k);
    }
  }

  lemma {:induction false} SwapMeant(w: Width, a: int)
    requires Word(w, a)
    ensures UnMeans(w, Bswap, a, UnEval(w, Bswap, a))
  {
    var r := UnEval(w, Bswap, a);
    forall k: nat | k < Bits(w)
      ensures Bit(r, k) <==> Bit(a, 8 * (Bits(w) / 8 - 1 - k / 8) + k % 8)
    {
      BitSwap(w, a, k);
    }
  }

  lemma {:induction false} MaskMeant(w: Width, a: int)
    requires Word(w, a)
    ensures UnMeans(w, Bmask, a, UnEval(w, Bmask, a))
  {
    forall k: nat | k < Bits(w)
      ensures Bit(UnEval(w, Bmask, a), k) <==> a != 0
    {
      BitZero(k);
      BitNot(w, 0, k);
    }
  }

  lemma {:induction false} CountMeant(w: Width, op: UnOp, a: int)
    requires Word(w, a) && (op.Ctz? || op.Clz? || op.Popcnt?)
    ensures UnMeans(w, op, a, UnEval(w, op, a))
  {
    Pow2Bits(w);
    if op.Ctz? {
      TrailingZerosMeant(Bits(w), a);
    } else if op.Clz? {
      LeadingZerosMeant(Bits(w), a);
    } else {
      PopCountMeant(Bits(w), a);
      assert Ones(Bits(w), a) == set k: nat | k < Bits(w) && Bit(a, k);
    }
  }

  lemma SignMeant(w: Width, op: UnOp, a: int)
    requires Word(w, a) && (op.Neg? || op.Abs?)
    ensures UnMeans(w, op, a, UnEval(w, op, a))
  {
    var m := Modulus(w);
    if op.Neg? && a != 0 {
      DivUnique(-a, m, -1, m - a);
      DivUnique(m - a, m, 0, m - a);
      assert UnEval(w, Neg, a) == m - a;
      DivUnique(m, m, 1, 0);
    }
  }

  /** Every one-operand operation means what its name says. */
  lemma {:induction false} UnMeant(w: Width, op: UnOp, a: int)
    requires Word(w, a)
    ensures UnMeans(w, op, a, UnEval(w, op, a))
  {
    if op.Ctz? || op.Clz? || op.Popcnt? {
      CountMeant(w, op, a);
    } else if op.Neg? || op.Abs? {
      SignMeant(w, op, a);
    } else if op.Not? {
      NotMeant(w, a);
    } else if op.Bswap? {
      SwapMeant(w, a);
    } else {
      MaskMeant(w, a);
    }
  }

  // ----- Orders -----

  /** The comparisons as orders on the signed and the unsigned values. */
  lemma OrdersMeant(w: Width, a: int, b: int)
    requires Word(w, a) && Word(w, b)
    ensures CmpWords(w, Eq, a, b) <==> a == b
    ensures CmpWords(w, ULt, a, b) <==> a < b
    ensures CmpWords(w, SLt, a, b) <==> Signed(w, a) < Signed(w, b)
    ensures CmpWords(w, Neq, a, b) <==> !CmpWords(w, Eq, a, b)
    ensures CmpWords(w, ULteq, a, b) <==> !CmpWords(w, ULt, b, a)
    ensures CmpWords(w, SLteq, a, b) <==> !CmpWords(w, SLt, b, a)
    ensures CmpWords(w, UGt, a, b) <==> CmpWords(w, ULt, b, a)
    ensures CmpWords(w, SGt, a, b) <==> CmpWords(w, SLt, b, a)
    ensures CmpWords(w, UGteq, a, b) <==> CmpWords(w, ULteq, b, a)
    ensures CmpWords(w, SGteq, a, b) <==> CmpWords(w, SLteq, b, a)
  {
  }

  // ----- Division -----

  function Magnitude(v: int): nat { if v < 0 then -v else v }

  lemma {:induction false} TruncLaw(a: int, b: int)
    requires b != 0
    ensures var r := a - b * TruncDiv(a, b);
            Magnitude(r) < Magnitude(b) && (r == 0 || (r < 0 <==> a < 0))
  {
    var x, y := Magnitude(a), Magnitude(b);
    var q: int, r: int := x / y, x % y;
    SignedProducts(y, q);
    assert b * TruncDiv(a, b) == if a < 0 then -(y * q) else y * q;
    assert y * q == x - r;
  }

  lemma SignedProducts(y: int, q: int)
    ensures -y * -q == y * q && -y * q == -(y * q) && y * -q == -(y * q)
  {
  }

  /** A small enough integer is what its residue reads as. */
  lemma SignedResidue(w: Width, v: int)
    requires -Modulus(w) <= 2 * v < Modulus(w)
    ensures Signed(w, v % Modulus(w)) == v
  {
  }

  /** Unsigned division leaves a remainder below the divisor. */
  lemma DivisionUnsigned(w: Width, a: int, b: int)
    requires Word(w, a) && Word(w, b) && b != 0
    ensures var q, r := DivEval(w, DivU, a, b), DivEval(w, RemU, a, b);
            q.Quot? && r.Quot? && a == b * q.value + r.value && 0 <= r.value < b
  {
  }

  /**
   Signed division, except of the least value by minus one, rounds toward zero: the remainder is
   smaller than the divisor, and is zero or has the sign of the dividend.
   */
  lemma {:induction false} DivisionSigned(w: Width, a: int, b: int)
    requires Word(w, a) && Word(w, b) && b != 0 && !(2 * a == Modulus(w) && b == Modulus(w) - 1)
    ensures var q, r := DivEval(w, DivS, a, b), DivEval(w, RemS, a, b);
            && q.Quot? && r.Quot?
            && Signed(w, a) == Signed(w, b) * Signed(w, q.value) + Signed(w, r.value)
            && Magnitude(Signed(w, r.value)) < Magnitude(Signed(w, b))
            && (Signed(w, r.value) == 0 || (Signed(w, r.value) < 0 <==> Signed(w, a) < 0))
  {
    var x, y := Signed(w, a), Signed(w, b);
    var q := TruncDiv(x, y);
    TruncLaw(x, y);
    NoOverflow(w, x, y);
    SignedResidue(w, q);
    SignedResidue(w, x - y * q);
  }

  lemma {:induction false} NoOverflow(w: Width, x: int, y: int)
    requires -Modulus(w) <= 2 * x < Modulus(w) && y != 0 && !(2 * x == -Modulus(w) && y == -1)
    ensures -Modulus(w) <= 2 * TruncDiv(x, y) < Modulus(w)
  {
    var q := Truncated(x, y);
    InSignedRange(w, x, y, q);
  }

  lemma {:induction false} Truncated(x: int, y: int) returns (q: int)
    requires y != 0
    ensures TruncDiv(x, y) == if (x < 0) == (y < 0) then q else -q
    ensures 0 <= q <= Magnitude(x) && (Magnitude(y) > 1 ==> 2 * q <= Magnitude(x))
  {
    var m, n := Magnitude(x), Magnitude(y);
    q := m / n;
    QuotientSmall(m, n, q, m % n);
  }

  lemma InSignedRange(w: Width, x: int, y: int, q: int)
    requires -Modulus(w) <= 2 * x < Modulus(w) && y != 0 && !(2 * x == -Modulus(w) && y == -1)
    requires 0 <= q <= Magnitude(x) && (Magnitude(y) > 1 ==> 2 * q <= Magnitude(x))
    ensures -Modulus(w) <= 2 * (if (x < 0) == (y < 0) then q else -q) < Modulus(w)
  {
  }

  lemma {:induction false} QuotientSmall(m: nat, n: nat, q: int, r: int)
    requires m == n * q + r && 0 <= r < n
    ensures 0 <= q <= m && (n > 1 ==> 2 * q <= m)
  {
    QuotientBound(m, n, q, r);
    if n > 1 { assert (n - 2) * q >= 0; }
  }

  lemma DivisionOverflow(w: Width, a: int, b: int)
    requires Word(w, a) && Word(w, b) && 2 * a == Modulus(w) && b == Modulus(w) - 1
    ensures DivEval(w, DivS, a, b) == Overflow && DivEval(w, RemS, a, b) == Quot(0)
  {
  }

  /** `v` is the quotient or the remainder of `a` by `b`. */
  ghost predicate DivMeans(w: Width, op: DivOp, a: int, b: int, v: int)
    requires Word(w, b) && b != 0
  {
    var x, y, s := Signed(w, a), Signed(w, b), Signed(w, v);
    match op
    case DivU => 0 <= a - b * v < b
    case RemU => 0 <= v < b && (a - v) % b == 0
    case DivS => Rest(x, y, x - y * s)
    case RemS => Rest(x, y, s) && (x - s) % y == 0
  }

  /** A remainder is smaller than the divisor, and zero or of the sign of the dividend. */
  predicate Rest(x: int, y: int, r: int) { Magnitude(r) < Magnitude(y) && (r == 0 || (r < 0 <==> x < 0)) }

  lemma {:induction false} DivMeant(w: Width, op: DivOp, a: int, b: int)
    requires Word(w, a) && Word(w, b) && DivEval(w, op, a, b).Quot?
    ensures DivMeans(w, op, a, b, DivEval(w, op, a, b).value)
  {
    if op.DivU? || op.RemU? {
      DivisionUnsigned(w, a, b);
      Multiple(b, DivEval(w, DivU, a, b).value);
    } else if 2 * a == Modulus(w) && b == Modulus(w) - 1 {
      DivisionOverflow(w, a, b);
      Multiple(-1, Modulus(w) / 2);
    } else {
      DivisionSigned(w, a, b);
      Multiple(Signed(w, b), Signed(w, DivEval(w, DivS, a, b).value));
    }
  }

  lemma {:induction false} Multiple(y: int, q: int)
    requires y != 0
    ensures (y * q) % y == 0
  {
    if y > 0 {
      DivUnique(y * q, y, q, 0);
    } else {
      DivUnique(y * q, -y, -q, 0);
      assert (y * q) % y == (y * q) % -y;
    }
  }
}
