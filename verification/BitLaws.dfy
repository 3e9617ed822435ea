/** Integers bit by bit: what scaling, adding and truncating do to their bits. */
module BitLaws {
  import opened Words
  import opened Ops
  import opened Arith

  lemma {:induction false} DivPow2(v: int, s: nat)
    ensures (v / 2) / Pow2(s) == v / Pow2(s + 1)
  {
    var p := Pow2(s);
    var q, r := v / Pow2(s + 1), v % Pow2(s + 1);
    assert v == 2 * (p * q) + r && 0 <= r < 2 * p;
    assert v / 2 == p * q + r / 2;
    DivUnique(v / 2, p, q, r / 2);
  }

  lemma {:induction false} DivUnique(v: int, p: int, q: int, r: int)
    requires 0 <= r < p && v == p * q + r
    ensures v / p == q && v % p == r
  {
    var d := q - v / p;
    assert p * d == v % p - r;
    AtLeastOnce(p, d);
  }

  lemma {:induction false} AtLeastOnce(p: int, d: int)
    requires p > 0
    ensures (d > 0 ==> p * d >= p) && (d < 0 ==> p * d <= -p)
    decreases if d < 0 then -d else d
  {
    if d > 1 {
      AtLeastOnce(p, d - 1);
      assert p * d == p * (d - 1) + p;
    } else if d < -1 {
      AtLeastOnce(p, d + 1);
      assert p * d == p * (d + 1) - p;
    }
  }

  /** Shifting down. */
  lemma {:induction false} BitDiv(v: int, s: nat, k: nat)
    ensures Bit(v / Pow2(s), k) <==> Bit(v, k + s)
    decreases s
  {
    if s != 0 {
      DivPow2(v, s - 1);
      BitDiv(v / 2, s - 1, k);
    }
  }

  /** Joining a high part to the low `s` bits. */
  lemma {:induction false} BitJoin(lo: int, hi: int, s: nat, k: nat)
    requires 0 <= lo < Pow2(s)
    ensures Bit(lo + Pow2(s) * hi, k) <==> if k < s then Bit(lo, k) else Bit(hi, k - s)
    decreases s
  {
    if s != 0 {
      var p := Pow2(s - 1) * hi;
      assert lo + Pow2(s) * hi == lo + 2 * p;
      assert (lo + 2 * p) % 2 == lo % 2 && (lo + 2 * p) / 2 == lo / 2 + p;
      if k != 0 { BitJoin(lo / 2, hi, s - 1, k - 1); }
    }
  }

  /** Shifting up. */
  lemma {:induction false} BitMul(v: int, s: nat, k: nat)
    ensures Bit(v * Pow2(s), k) <==> s <= k && Bit(v, k - s)
  {
    BitJoin(0, v, s, k);
    BitZero(k);
    assert v * Pow2(s) == 0 + Pow2(s) * v;
  }

  lemma {:induction false} BitZero(k: nat)
    ensures !Bit(0, k)
  {
    if k != 0 { BitZero(k - 1); }
  }

  lemma {:induction false} BitOnes(k: nat)
    ensures Bit(-1, k)
  {
    if k != 0 { BitOnes(k - 1); }
  }

  /** Truncation keeps the low bits. */
  lemma {:induction false} BitMod(v: int, n: nat, k: nat)
    ensures Bit(v % Pow2(n), k) <==> k < n && Bit(v, k)
  {
    var p := Pow2(n);
    BitJoin(v % p, v / p, n, k);
    assert v == v % p + p * (v / p);
    if n <= k { BitHigh(v % p, n, k); }
  }

  lemma {:induction false} BitHigh(v: int, n: nat, k: nat)
    requires 0 <= v < Pow2(n) && n <= k
    ensures !Bit(v, k)
  {
    BitJoin(v, 0, n, k);
    BitZero(k - n);
  }

  /** Two words with the same bits are the same. */
  lemma {:induction false} SameBits(n: nat, a: int, b: int)
    requires 0 <= a < Pow2(n) && 0 <= b < Pow2(n) && forall k: nat :: k < n ==> (Bit(a, k) <==> Bit(b, k))
    ensures a == b
    decreases n
  {
    if n != 0 {
      assert Bit(a, 0) <==> Bit(b, 0);
      forall k: nat | k < n - 1
        ensures Bit(a / 2, k) <==> Bit(b / 2, k)
      {
        assert Bit(a, k + 1) <==> Bit(b, k + 1);
      }
      SameBits(n - 1, a / 2, b / 2);
    }
  }

  // ----- Words -----

  /** Adding a multiple of the modulus leaves the low bits. */
  lemma {:induction false} BitShifted(v: int, n: nat, c: int, k: nat)
    requires k < n
    ensures Bit(v + c * Pow2(n), k) <==> Bit(v, k)
  {
    var p := Pow2(n);
    BitMod(v, n, k);
    BitMod(v + c * p, n, k);
    DivUnique(v + c * p, p, v / p + c, v % p);
  }

  /** The signed reading of `n` bits repeats the top one. */
  lemma {:induction false} BitExtended(n: nat, a: int, v: int, k: nat)
    requires n > 0 && 0 <= a < Pow2(n) && v == if 2 * a < Pow2(n) then a else a - Pow2(n)
    ensures Bit(v, k) <==> Bit(a, if k < n then k else n - 1)
  {
    assert Pow2(n) == 2 * Pow2(n - 1);
    TopBit(a, n);
    if 2 * a < Pow2(n) {
      if n <= k { BitHigh(a, n, k); }
    } else if k < n {
      BitShifted(a, n, -1, k);
    } else {
      BitJoin(a, -1, n, k);
      BitOnes(k - n);
      assert v == a + Pow2(n) * -1;
    }
  }

  lemma {:induction false} BitSigned(w: Width, a: int, k: nat)
    requires Word(w, a)
    ensures Bit(Signed(w, a), k) <==> Bit(a, if k < Bits(w) then k else Bits(w) - 1)
  {
    Pow2Bits(w);
    BitExtended(Bits(w), a, Signed(w, a), k);
  }

  lemma {:induction false} TopBit(a: int, n: nat)
    requires n > 0 && 0 <= a < Pow2(n)
    ensures Bit(a, n - 1) <==> a >= Pow2(n - 1)
  {
    var p := Pow2(n - 1);
    if a >= p {
      BitJoin(a - p, 1, n - 1, n - 1);
      assert a == (a - p) + p * 1;
      assert Bit(1, 0);
    } else {
      BitHigh(a, n - 1, n - 1);
    }
  }

  // ----- Bytes -----

  lemma Pow2Byte()
    ensures Pow2(8) == 256
  {
    assert Pow2(4) == 16 by { assert Pow2(2) == 4; }
    Pow2Sum(4, 4);
  }

  /** Bit `k` of little-endian bytes is bit `k % 8` of byte `k / 8`. */
  lemma {:induction false} BitFromLe(bs: seq<byte>, j: nat, k: nat)
    requires j <= |bs| && k < 8 * (|bs| - j)
    ensures Bit(FromLeAt(bs, j), k) <==> Bit(bs[j + k / 8], k % 8)
    decreases |bs| - j
  {
    Pow2Byte();
    BitJoin(bs[j], FromLeAt(bs, j + 1), 8, k);
    if 8 <= k { BitFromLe(bs, j + 1, k - 8); }
  }

  lemma {:induction false} BitLeBytes(n: nat, v: int, k: nat)
    requires k < 8 * n
    ensures Bit(LeBytes(n, v)[k / 8], k % 8) <==> Bit(v, k)
    decreases n
  {
    Pow2Byte();
    if k < 8 {
      BitMod(v, 8, k);
    } else {
      BitLeBytes(n - 1, v / 256, k - 8);
      BitDiv(v, 8, k - 8);
    }
  }
}
