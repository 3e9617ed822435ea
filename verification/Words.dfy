/** Optional values. */
module Wrappers {
  datatype Option<+T> = None | Some(value: T)
}

module Lists {
  datatype List<+T> = Nil | Cons(head: T, tail: List<T>)

  function Length<T>(l: List<T>): nat { if l.Nil? then 0 else 1 + Length(l.tail) }

  function Append<T>(a: List<T>, b: List<T>): List<T> { if a.Nil? then b else Cons(a.head, Append(a.tail, b)) }

  function Nth<T>(l: List<T>, k: nat): T
    requires k < Length(l)
  {
    if k == 0 then l.head else Nth(l.tail, k - 1)
  }

  lemma {:induction false} AppendAssoc<T>(a: List<T>, b: List<T>, c: List<T>)
    ensures Append(Append(a, b), c) == Append(a, Append(b, c))
    decreases a
  {
    if a.Cons? { AppendAssoc(a.tail, b, c); }
  }

  lemma {:induction false} AppendNil<T>(a: List<T>)
    ensures Append(a, Nil) == a
  {
    if a.Cons? { AppendNil(a.tail); }
  }
}

/** Fixed-width integers as bounded `int`s, their signed views, and little-endian bytes. */
module Words {

  type byte = x: int | 0 <= x < 0x100
  type u16 = x: int | 0 <= x < 0x1_0000
  type u32 = x: int | 0 <= x < 0x1_0000_0000
  type u64 = x: int | 0 <= x < 0x1_0000_0000_0000_0000

  const B32: int := 0x1_0000_0000
  const B64: int := 0x1_0000_0000_0000_0000
  const B128: int := 0x1_0000_0000_0000_0000_0000_0000_0000_0000

  /** Truncation, as Rust's `as u32` and `as u64`. */
  function U32(x: int): (r: u32) { x % 0x1_0000_0000 }
  function U64(x: int): (r: u64) { x % 0x1_0000_0000_0000_0000 }

  lemma U64Id(x: int)
    requires 0 <= x < B64
    ensures U64(x) == x
  {
  }

  lemma U64Shift(x: int, d: int)
    ensures U64(U64(x) + d) == U64(x + d) && U64(U64(x) - d) == U64(x - d)
  {
  }

  /** The signed reading of a two's-complement word. */
  function S64(x: u64): int { if x < 0x8000_0000_0000_0000 then x else x - 0x1_0000_0000_0000_0000 }

  /** The two halves of an x-register; 32-bit writes replace only the low one. */
  function Low(x: u64): (r: u32) { x % 0x1_0000_0000 }
  function High(x: u64): (r: u32) { x / 0x1_0000_0000 }
  function SetLow(x: u64, lo: u32): (r: u64)
    ensures Low(r) == lo && High(r) == High(x)
  {
    High(x) * 0x1_0000_0000 + lo
  }

  /** 256 to the power `n`: the number of values of an `n`-byte integer. */
  function Pow256(n: nat): (r: nat)
    ensures r >= 1
  {
    if n == 0 then 1 else 256 * Pow256(n - 1)
  }

  lemma Pow256Values()
    ensures Pow256(1) == 0x100 && Pow256(2) == 0x1_0000 && Pow256(4) == B32 && Pow256(8) == B64 && Pow256(16) == B128
  {
    assert Pow256(3) == 0x100_0000;
    assert Pow256(4) == B32;
    assert Pow256(5) == 256 * B32;
    assert Pow256(6) == 65536 * B32;
    assert Pow256(7) == 16777216 * B32;
    assert Pow256(8) == B64;
    assert Pow256(9) == 256 * B64 && Pow256(10) == 65536 * B64;
    assert Pow256(11) == 16777216 * B64 && Pow256(12) == B32 * B64;
    assert Pow256(13) == 256 * B32 * B64 && Pow256(14) == 65536 * B32 * B64;
    assert Pow256(15) == 16777216 * B32 * B64;
  }

  /** `to_le_bytes` of the low `n` bytes of `v`, in two's complement. */
  function LeBytes(n: nat, v: int): (r: seq<byte>)
    ensures |r| == n
    decreases n, v
  {
    if n == 0 then [] else [v % 256] + LeBytes(n - 1, v / 256)
  }

  /** The value of the bytes from index `k` on. */
  function FromLeAt(bs: seq<byte>, k: nat): nat
    decreases |bs| - k
  {
    if k < |bs| then bs[k] + 256 * FromLeAt(bs, k + 1) else 0
  }

  /** `from_le_bytes`. */
  function FromLe(bs: seq<byte>): nat { FromLeAt(bs, 0) }

  lemma {:induction false} FromLeShift(b: byte, bs: seq<byte>, k: nat)
    ensures FromLeAt([b] + bs, k + 1) == FromLeAt(bs, k)
    decreases |bs| - k
  {
    if k < |bs| { FromLeShift(b, bs, k + 1); }
  }

  lemma {:induction false} FromLeCons(b: byte, bs: seq<byte>)
    ensures FromLe([b] + bs) == b + 256 * FromLe(bs)
  {
    FromLeShift(b, bs, 0);
  }

  lemma FromLeOne(b: byte)
    ensures FromLe([b]) == b
  {
    assert FromLeAt([b], 1) == 0;
  }

  lemma {:induction false} FromLeAtBound(bs: seq<byte>, k: nat)
    requires k <= |bs|
    ensures FromLeAt(bs, k) < Pow256(|bs| - k)
    decreases |bs| - k
  {
    if k < |bs| { FromLeAtBound(bs, k + 1); }
  }

  lemma {:induction false} FromLeBound(bs: seq<byte>)
    ensures FromLe(bs) < Pow256(|bs|)
  {
    FromLeAtBound(bs, 0);
  }

  lemma {:induction false} FromLeOfLeBytes(n: nat, v: int)
    requires 0 <= v + Pow256(n) && v < Pow256(n)
    ensures FromLe(LeBytes(n, v)) == if v < 0 then v + Pow256(n) else v
    decreases n
  {
    if n != 0 {
      FromLeOfLeBytes(n - 1, v / 256);
      FromLeCons(v % 256, LeBytes(n - 1, v / 256));
    }
  }

  /** Only the value modulo the size of the field is stored. */
  lemma {:induction false} LeBytesShift(n: nat, v: int)
    ensures LeBytes(n, v + Pow256(n)) == LeBytes(n, v)
    decreases n
  {
    if n != 0 {
      DivMod256(v % 256, v / 256 + Pow256(n - 1));
      assert v + Pow256(n) == v % 256 + 256 * (v / 256 + Pow256(n - 1));
      LeBytesShift(n - 1, v / 256);
    }
  }

  lemma DivMod256(b: byte, v: int)
    ensures (b + 256 * v) / 256 == v && (b + 256 * v) % 256 == b
  {
  }

  lemma {:induction false} LeBytesOfFromLe(bs: seq<byte>)
    ensures LeBytes(|bs|, FromLe(bs)) == bs
  {
    if bs != [] {
      assert bs == [bs[0]] + bs[1..];
      FromLeCons(bs[0], bs[1..]);
      DivMod256(bs[0], FromLe(bs[1..]));
      LeBytesOfFromLe(bs[1..]);
    }
  }

  /** Bit `k` of an integer in two's complement, which has no last bit. */
  predicate Bit(v: int, k: nat)
    decreases k
  {
    if k == 0 then v % 2 == 1 else Bit(v / 2, k - 1)
  }

  /** The value of an `n`-byte field read as two's complement when `signed`. */
  function Wrap(n: nat, signed: bool, raw: nat): int
  {
    if signed && 2 * raw >= Pow256(n) then raw - Pow256(n) else raw
  }

  /** The values an `n`-byte field of that signedness can hold. */
  predicate InRange(n: nat, signed: bool, v: int)
  {
    if signed then 0 <= 2 * v + Pow256(n) < 2 * Pow256(n) else 0 <= v < Pow256(n)
  }
}

/** Byte-addressed host memory. Bytes never written read as zero. */
module Memory {
  import opened Words

  type Mem = map<int, byte>

  function Get(m: Mem, a: int): byte { if a in m then m[a] else 0 }

  function ReadN(m: Mem, a: int, n: nat): (r: seq<byte>)
    ensures |r| == n && forall i :: 0 <= i < n ==> r[i] == Get(m, a + i)
    decreases n, a
  {
    if n == 0 then [] else [Get(m, a)] + ReadN(m, a + 1, n - 1)
  }

  function WriteN(m: Mem, a: int, bs: seq<byte>): (r: Mem)
    ensures forall b :: Get(r, b) == if a <= b < a + |bs| then bs[b - a] else Get(m, b)
    decreases bs
  {
    if bs == [] then m else WriteN(m[a := bs[0]], a + 1, bs[1..])
  }

  /** An unaligned little-endian load of `n` bytes. */
  function Load(m: Mem, a: int, n: nat): nat { FromLe(ReadN(m, a, n)) }

  function Store(m: Mem, a: int, n: nat, v: nat): Mem { WriteN(m, a, LeBytes(n, v)) }

  /** The two memories hold the same bytes on `[lo, hi)`. */
  ghost predicate Agree(m: Mem, m': Mem, lo: int, hi: int)
  {
    forall a :: lo <= a < hi ==> Get(m, a) == Get(m', a)
  }

  /** The two memories differ at most on `[lo, hi)`. */
  ghost predicate ChangedOnly(m: Mem, m': Mem, lo: int, hi: int)
  {
    forall a :: a < lo || hi <= a ==> Get(m, a) == Get(m', a)
  }

  lemma {:induction false} LoadStore(m: Mem, a: int, n: nat, v: nat)
    requires v < Pow256(n)
    ensures Load(Store(m, a, n, v), a, n) == v
  {
    assert ReadN(Store(m, a, n, v), a, n) == LeBytes(n, v);
    FromLeOfLeBytes(n, v);
  }

  lemma LoadAgree(m: Mem, m': Mem, a: int, n: nat)
    requires Agree(m, m', a, a + n)
    ensures Load(m, a, n) == Load(m', a, n)
  {
    assert ReadN(m, a, n) == ReadN(m', a, n);
  }

  // ----- Native byte order -----

  /** How the host reads and writes an `n`-byte integer in its own byte order. */
  datatype Host = Host(load: (Mem, int, nat) -> nat, store: (Mem, int, nat, nat) -> Mem)

  /** What any byte order provides: stores are read back, and touch only their own bytes. */
  ghost predicate Lawful(h: Host)
  {
    && (forall m: Mem, a: int, n: nat, v: nat :: v < Pow256(n) ==> h.load(h.store(m, a, n, v), a, n) == v)
    && (forall m: Mem, a: int, n: nat, v: nat :: ChangedOnly(m, h.store(m, a, n, v), a, a + n))
    && (forall m: Mem, m': Mem, a: int, n: nat :: Agree(m, m', a, a + n) ==> h.load(m, a, n) == h.load(m', a, n))
  }

  function LittleEndian(): Host
  {
    Host((m: Mem, a: int, n: nat) => Load(m, a, n), (m: Mem, a: int, n: nat, v: nat) => Store(m, a, n, v))
  }

  lemma LittleEndianLawful()
    ensures Lawful(LittleEndian())
  {
    forall m: Mem, a: int, n: nat, v: nat | v < Pow256(n)
      ensures Load(Store(m, a, n, v), a, n) == v
    {
      LoadStore(m, a, n, v);
    }
    forall m: Mem, m': Mem, a: int, n: nat | Agree(m, m', a, a + n)
      ensures Load(m, a, n) == Load(m', a, n)
    {
      LoadAgree(m, m', a, n);
    }
  }

  function NativeLoad(h: Host, m: Mem, a: int): u64 { U64(h.load(m, a, 8)) }

  function NativeStore(h: Host, m: Mem, a: int, v: u64): Mem { h.store(m, a, 8, v) }

  lemma NativeLoadStore(h: Host, m: Mem, a: int, v: u64)
    requires Lawful(h)
    ensures NativeLoad(h, NativeStore(h, m, a, v), a) == v
  {
    Pow256Values();
  }

  lemma NativeAgree(h: Host, m: Mem, m': Mem, a: int)
    requires Lawful(h) && Agree(m, m', a, a + 8)
    ensures NativeLoad(h, m, a) == NativeLoad(h, m', a)
  {
  }

  lemma NativeFrame(h: Host, m: Mem, a: int, v: u64)
    requires Lawful(h)
    ensures ChangedOnly(m, NativeStore(h, m, a, v), a, a + 8)
  {
  }
}
