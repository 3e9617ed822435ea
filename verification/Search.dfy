/** The exponential search of the `mpk` example: the largest pool that can be built. */
module Search {
  import opened Wrappers
  import opened Words
  import opened Arith
  import opened Ops

  const MAX_U32: int := 0xFFFF_FFFF

  /** Building an engine with some number of memories: the bytes mapped, or a failure. */
  type Oracle = u32 -> Option<nat>

  /** Builds succeed up to `t` memories and fail beyond. */
  ghost predicate Ceiling(build: Oracle, t: nat) { forall n: u32 :: build(n).Some? <==> n <= t }

  function Log2(n: nat): nat { if n < 2 then 0 else 1 + Log2(n / 2) }

  lemma {:induction false} Log2Bounds(n: nat)
    requires n > 0
    ensures Pow2(Log2(n)) <= n < Pow2(Log2(n) + 1)
  {
    if n >= 2 { Log2Bounds(n / 2); }
  }

  lemma {:induction false} Pow2Order(a: nat, b: nat)
    ensures a <= b <==> Pow2(a) <= Pow2(b)
    decreases a + b
  {
    if a == 0 || b == 0 {
      if a > 0 { assert Pow2(a) == 2 * Pow2(a - 1); }
    } else {
      Pow2Order(a - 1, b - 1);
    }
  }

  /** The fields of the search, as a value. */
  datatype Bounds = Bounds(growing: bool, last: u32, next: u32)

  /** The bounds after a build, or `None` when they overflow 32 bits. */
  function Recorded(b: Bounds, success: bool): Option<Bounds>
    requires b.last <= b.next
  {
    var growing := b.growing && success;
    var gap: int := b.next - b.last;
    var diff := if growing then gap * 2 else (gap + 1) / 2;
    if !success then Some(Bounds(growing, b.last, b.next - diff))
    else if b.next + diff > MAX_U32 then None
    else Some(Bounds(growing, b.next, b.next + diff))
  }

  class ExponentialSearch {
    var growing: bool
    var last: u32
    var next: u32

    constructor ()
      ensures View() == Bounds(true, 0, 1)
    {
      growing, last, next := true, 0, 1;
    }

    function View(): Bounds reads this { Bounds(growing, last, next) }

    predicate Done() reads this { last == next }

    /** Update the bounds in place; false when 32 bits overflow. */
    method Record(success: bool) returns (ok: bool)
      requires last <= next
      modifies this
      ensures ok == Recorded(old(View()), success).Some?
      ensures ok ==> View() == Recorded(old(View()), success).value
    {
      if !success { growing := false; }
      var diff := if growing then (next as int - last as int) * 2 else (next as int - last as int + 1) / 2;
      ok := true;
      if success {
        if next + diff > MAX_U32 { return false; }
        last, next := next, next + diff;
      } else {
        next := next - diff;
      }
    }
  }

  /** How the probe ends: with the pool it found, or with a 32-bit overflow. */
  datatype Outcome = Pool(numMemories: u32, mappedBytes: nat) | Overflowed

  // ----- Why the search is short -----

  /** Growth doubles: after `k` successes `last` and `next` are one less than powers of two. */
  ghost predicate Growing(b: Bounds, t: nat, k: nat, builds: nat)
  {
    b.growing && b.last == Pow2(k) - 1 && b.next == Pow2(k + 1) - 1 && b.last <= t && builds == k
  }

  /** The most builds that can follow with a gap of `Pow2(k)`, the ceiling being `above` past `last`. */
  function Remaining(k: nat, above: nat): nat { if k == 0 then 1 + above else k + 2 }

  /** Bisection: the gap is a power of two, and the ceiling is less than two gaps past `last`. */
  ghost predicate Bisecting(b: Bounds, t: nat, k: nat, builds: nat)
  {
    && !b.growing && b.next == b.last + Pow2(k) && b.last <= t < b.last + 2 * Pow2(k) && t < MAX_U32
    && b.last + 2 * Pow2(k) <= MAX_U32 + (if k == 0 && b.last == t then 1 else 0)
    && builds + Remaining(k, t - b.last) <= 2 * Log2(t + 1) + 2
  }

  ghost predicate Found(b: Bounds, t: nat, builds: nat)
  {
    b.last == b.next == t < MAX_U32 && builds <= 2 * Log2(t + 1) + 2
  }

  /** What holds before every build, and when the search is done. */
  ghost predicate Inv(b: Bounds, t: nat, k: nat, builds: nat)
  {
    Growing(b, t, k, builds) || Bisecting(b, t, k, builds) || Found(b, t, builds)
  }

  lemma GrowthReaches(k: nat, t: nat)
    ensures Pow2(k) - 1 <= t <==> k <= Log2(t + 1)
  {
    Log2Bounds(t + 1);
    Pow2Order(k, Log2(t + 1));
    Pow2Order(Log2(t + 1) + 1, k);
  }

  lemma {:induction false} Pow2Fits(k: nat)
    ensures Pow2(k) - 1 <= MAX_U32 <==> k <= 32
  {
    Pow2Bits(W32);
    Pow2Order(k, 32);
    Pow2Order(33, k);
  }

  /** A success while growing: the step fits 32 bits unless `next` was already the largest. */
  lemma GrowMore(b: Bounds, t: nat, k: nat, builds: nat)
    requires Growing(b, t, k, builds) && b.next <= t
    ensures Recorded(b, true).None? ==> b.next == MAX_U32
    ensures Recorded(b, true).Some? ==> Growing(Recorded(b, true).value, t, k + 1, builds + 1)
  {
    Pow2Fits(k + 1);
    Pow2Fits(k + 2);
    Pow2Bits(W32);
    if k + 1 == 32 { assert Pow2(k + 1) == Pow2(32); }
  }

  /** The first failure: it ends growth and halves the gap. */
  lemma GrowNoMore(b: Bounds, t: nat, k: nat, builds: nat)
    requires Growing(b, t, k, builds) && t < b.next
    ensures Recorded(b, false).Some? && Inv(Recorded(b, false).value, t, if k == 0 then 0 else k - 1, builds + 1)
  {
    GrowthReaches(k, t);
    if k > 0 { assert Pow2(k) == 2 * Pow2(k - 1); }
  }

  lemma BisectUp(b: Bounds, t: nat, k: nat, builds: nat)
    requires Bisecting(b, t, k, builds) && b.next <= t
    ensures Recorded(b, true).Some? && Inv(Recorded(b, true).value, t, if k == 0 then 0 else k - 1, builds + 1)
  {
    if k > 0 { assert Pow2(k) == 2 * Pow2(k - 1); }
  }

  lemma BisectDown(b: Bounds, t: nat, k: nat, builds: nat)
    requires Bisecting(b, t, k, builds) && t < b.next
    ensures Recorded(b, false).Some? && Inv(Recorded(b, false).value, t, if k == 0 then 0 else k - 1, builds + 1)
  {
    if k > 0 { assert Pow2(k) == 2 * Pow2(k - 1); }
  }

  /** Every build keeps the invariant, or overflows at the largest 32-bit number. */
  lemma BuildKeeps(b: Bounds, t: nat, k: nat, builds: nat) returns (k': nat)
    requires Inv(b, t, k, builds) && b.last < b.next
    ensures Recorded(b, b.next <= t).None? ==> MAX_U32 <= t
    ensures Recorded(b, b.next <= t).Some? ==> Inv(Recorded(b, b.next <= t).value, t, k', builds + 1)
  {
    k' := if k == 0 then 0 else k - 1;
    if b.growing {
      if b.next <= t {
        GrowMore(b, t, k, builds);
        k' := k + 1;
      } else {
        GrowNoMore(b, t, k, builds);
      }
    } else if b.next <= t {
      BisectUp(b, t, k, builds);
    } else {
      BisectDown(b, t, k, builds);
    }
  }

  /** Builds are bounded throughout, also while growing. */
  lemma {:induction false} InvBounds(b: Bounds, t: nat, k: nat, builds: nat)
    requires Inv(b, t, k, builds)
    ensures builds <= 2 * Log2(t + 1) + 2 && b.last <= t && b.last <= b.next
    ensures b.last < b.next ==> builds < 2 * Log2(t + 1) + 2
    ensures b.last == b.next ==> Found(b, t, builds)
  {
    GrowthReaches(k, t);
    Pow2Order(k, k + 1);
  }

  /**
   `probe_engine_size`: for every oracle with a ceiling below the largest 32-bit number the search
   ends at that ceiling, with the bytes measured there, after few builds. It overflows exactly when
   every 32-bit number of memories can be built.
   */
  method ProbeEngineSize(build: Oracle, ghost t: nat) returns (r: Outcome, ghost builds: nat)
    requires Ceiling(build, t)
    ensures r.Overflowed? <==> MAX_U32 <= t
    ensures t < MAX_U32 ==> r == Pool(t, if t == 0 then 0 else build(t).value)
    ensures builds <= 2 * Log2(t + 1) + 2
  {
    var search := new ExponentialSearch();
    var mapped := 0;
    builds := 0;
    ghost var k := 0;
    assert Pow2(1) == 2;
    InvBounds(search.View(), t, k, builds);
    while !search.Done()
      invariant Inv(search.View(), t, k, builds)
      invariant builds <= 2 * Log2(t + 1) + 2 && search.last <= t && search.last <= search.next
      invariant search.Done() ==> Found(search.View(), t, builds)
      invariant mapped == if search.last == 0 then 0 else build(search.last).value
      decreases 2 * Log2(t + 1) + 2 - builds
    {
      InvBounds(search.View(), t, k, builds);
      k := BuildKeeps(search.View(), t, k, builds);
      builds := builds + 1;
      var bytes := build(search.next);
      if bytes.Some? { mapped := bytes.value; }
      var ok := search.Record(bytes.Some?);
      if !ok { return Overflowed, builds; }
      InvBounds(search.View(), t, k, builds);
    }
    r := Pool(search.next, mapped);
  }
}
