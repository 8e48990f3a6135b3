/**
 Backoff arithmetic: the ceiling of an attempt, computed with a 32-bit factor and overflow checks,
 against the closed form min(cap, base * 2^(attempt - 1)), and the bounded random draw.
 Durations are whole nanoseconds.
 */
module Backoff {
  import opened Arithmetic
  import opened Prelude

  const NANOS_PER_MILLI: nat := 1_000_000
  const TWO_64: nat := 0x1_0000_0000_0000_0000
  /** One past the longest duration: 2^64 seconds. */
  const DURATION_LIMIT: nat := 0x1_0000_0000_0000_0000 * 1_000_000_000

  type Duration = n: nat | n < DURATION_LIMIT

  type u64 = n: nat | n <= U64_MAX

  function Pow2(n: nat): nat {
    if n == 0 then 1 else 2 * Pow2(n - 1)
  }

  lemma {:induction false} Pow2Grows(m: nat, n: nat)
    requires m <= n
    ensures 1 <= Pow2(m) <= Pow2(n)
    ensures m < n ==> Pow2(m) < Pow2(n)
    decreases n
  {
    if m < n {
      Pow2Grows(m, n - 1);
    } else if n > 0 {
      Pow2Grows(n - 1, n - 1);
    }
  }

  lemma Pow2At32()
    ensures Pow2(31) < U32_MAX && Pow2(32) == U32_MAX + 1
  {
    assert Pow2(8) == 0x100;
    assert Pow2(16) == 0x1_0000;
    assert Pow2(24) == 0x100_0000;
    assert Pow2(31) == 0x8000_0000;
  }

  /** `1u32.checked_shl(exp).unwrap_or(u32::MAX)`. */
  function Factor(exp: nat): nat {
    if exp < 32 then Pow2(exp) else U32_MAX
  }

  function CheckedMul(d: Duration, factor: nat): Option<Duration> {
    MulNonNegative(d, factor);
    if d * factor < DURATION_LIMIT then Some(d * factor) else None
  }

  function Ceiling(base: Duration, cap: Duration, attempt: u32): Duration {
    var exp := Min(Max(attempt - 1, 0), 63);
    match CheckedMul(base, Factor(exp))
    case None => cap
    case Some(d) => Min(d, cap)
  }

  /** min(cap, base * 2^(attempt - 1)). */
  function ClosedForm(base: nat, cap: nat, attempt: nat): int
    requires attempt >= 1
  {
    Min(cap, base * Pow2(attempt - 1))
  }

  /** A duration overflow hides nothing: the cap is shorter than any overflowing product. */
  lemma CeilingIsMin(base: Duration, cap: Duration, attempt: u32)
    ensures Ceiling(base, cap, attempt) == Min(cap, base * Factor(Min(Max(attempt - 1, 0), 63)))
  {
  }

  lemma MulStrict(a: nat, f: nat, g: nat)
    requires a > 0 && f < g
    ensures a * f < a * g
  {
    MulOrder(f + 1, g, a);
    assert (f + 1) * a == f * a + a;
    assert a * f == f * a && a * g == g * a;
  }

  /**
   The ceiling never exceeds the closed form, and equals it exactly for the first 32 attempts, when
   the largest 32-bit factor already reaches the cap, or without a base delay.
   */
  lemma CeilingAgainstClosedForm(base: Duration, cap: Duration, attempt: u32)
    requires attempt >= 1
    ensures Ceiling(base, cap, attempt) <= ClosedForm(base, cap, attempt)
    ensures Ceiling(base, cap, attempt) == ClosedForm(base, cap, attempt)
        <==> attempt <= 32 || base * U32_MAX >= cap || base == 0
  {
    var n := attempt - 1;
    CeilingIsMin(base, cap, attempt);
    if n >= 32 {
      Pow2At32();
      Pow2Grows(32, n);
      assert Factor(Min(Max(n, 0), 63)) == U32_MAX < Pow2(n);
      if base > 0 {
        MulStrict(base, U32_MAX, Pow2(n));
      }
    }
  }

  /** A configuration whose ceiling stays below the closed form from attempt 33 on. */
  lemma CeilingMissesClosedForm()
    ensures Ceiling(1, 0x1_0000_0000, 33) < ClosedForm(1, 0x1_0000_0000, 33)
  {
    CeilingAgainstClosedForm(1, 0x1_0000_0000, 33);
  }

  const DEFAULT_BASE: Duration := 500 * NANOS_PER_MILLI
  const DEFAULT_CAP: Duration := 30_000 * NANOS_PER_MILLI

  /** With the default configuration, 500 ms and 30 s, every attempt has the documented ceiling. */
  lemma DefaultMeetsClosedForm(attempt: u32)
    requires attempt >= 1
    ensures Ceiling(DEFAULT_BASE, DEFAULT_CAP, attempt) == ClosedForm(DEFAULT_BASE, DEFAULT_CAP, attempt)
  {
    CeilingAgainstClosedForm(DEFAULT_BASE, DEFAULT_CAP, attempt);
  }

  /** Later attempts never have a lower ceiling, and no ceiling is above the cap. */
  lemma CeilingGrows(base: Duration, cap: Duration, m: u32, n: u32)
    requires m <= n
    ensures Ceiling(base, cap, m) <= Ceiling(base, cap, n) <= cap
  {
    var e, f := Min(Max(m - 1, 0), 63), Min(Max(n - 1, 0), 63);
    CeilingIsMin(base, cap, m);
    CeilingIsMin(base, cap, n);
    FactorGrows(e, f);
    MulOrder(Factor(e), Factor(f), base);
  }

  lemma FactorGrows(e: nat, f: nat)
    requires e <= f
    ensures Factor(e) <= Factor(f)
  {
    Pow2At32();
    if f < 32 {
      Pow2Grows(e, f);
    } else if e < 32 {
      Pow2Grows(e, 31);
    }
  }

  // ----- the draw ---------------------------------------------------------------------------

  /** The upper 64 bits of a 128-bit product. */
  function Spread(draw: u64, limit: u64): nat {
    MulNonNegative(draw, limit + 1);
    draw * (limit + 1) / TWO_64
  }

  /** Draws stay within the limit, in order. */
  lemma SpreadWithin(draw: u64, limit: u64)
    ensures Spread(draw, limit) <= limit
  {
    MulOrder(draw, U64_MAX, limit + 1);
    Quotient(draw * (limit + 1), limit);
  }

  lemma Quotient(p: nat, limit: nat)
    requires p <= U64_MAX * (limit + 1)
    ensures p / TWO_64 <= limit
  {
  }

  /** Full jitter leaves nothing out: every value up to the limit is drawn. */
  lemma EveryValueIsDrawn(v: nat, limit: u64) returns (draw: u64)
    requires v <= limit
    ensures Spread(draw, limit) == v
  {
    var span := limit + 1;
    var d := (v * TWO_64 + limit) / span;
    var r := (v * TWO_64 + limit) % span;
    assert d * span + r == v * TWO_64 + limit;
    assert v * TWO_64 <= d * span < (v + 1) * TWO_64;
    if d > U64_MAX {
      MulOrder(TWO_64, d, span);
      assert false;
    }
    draw := d;
    DivMod(d * span, TWO_64, v, d * span - v * TWO_64);
  }
}
