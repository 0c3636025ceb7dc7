/** backoffDuration of voucher_push_service.go, in the 64-bit nanoseconds Go computes with. */
module Backoff {
  import opened Common

  const TWO_TO_63: int := 0x8000_0000_0000_0000
  const TWO_TO_53: int := 0x20_0000_0000_0000
  const MINUTE: Time := 60_000_000_000
  const HOUR: Time := 3_600_000_000_000
  const MAX_BACKOFF: Time := 24 * HOUR

  predicate Int64(x: int) { -TWO_TO_63 <= x < TWO_TO_63 }

  function Wrap64(x: int): (r: int)
    ensures Int64(r)
    ensures Int64(x) ==> r == x
  {
    (x + TWO_TO_63) % (2 * TWO_TO_63) - TWO_TO_63
  }

  function Pow2(n: nat): (p: nat)
    ensures p > 0
  {
    if n == 0 then 1 else 2 * Pow2(n - 1)
  }

  lemma {:induction false} Pow2Grows(m: nat, n: nat)
    requires m <= n
    ensures Pow2(m) <= Pow2(n)
  {
    if m < n { Pow2Grows(m, n - 1); }
  }

  function Shift(attempt: int): (s: nat)
    ensures s <= 20
  {
    if attempt - 1 < 0 then 0 else if attempt - 1 > 20 then 20 else attempt - 1
  }

  function BaseOrMinute(base: Time): Time {
    if base <= 0 then MINUTE else base
  }

  /** The doubled delay as mathematics has it. */
  function Doubled(attempt: int, base: Time): Time {
    BaseOrMinute(base) * Pow2(Shift(attempt))
  }

  function Capped(d: Time): Time {
    if d > MAX_BACKOFF then MAX_BACKOFF else d
  }

  /** float64 to int64 conversion drops the fraction. */
  function Truncate(x: real): int {
    if x >= 0.0 then x.Floor else -((-x).Floor)
  }

  /** `u` is 2*rand.Float64()-1. */
  predicate JitterFactor(u: real) { -1.0 <= u < 1.0 }

  /** The rounding of float64 results. */
  type Rounding = real -> real

  function Quarters(n: int): real { n as real / 4.0 }

  /** Rounding is monotone, and exact on quarters of whole numbers below 2^53, which float64 represents. */
  ghost predicate LawfulRounding(round: Rounding) {
    && (forall x, y :: x <= y ==> round(x) <= round(y))
    && (forall n: int :: -TWO_TO_53 <= n <= TWO_TO_53 ==> round(Quarters(n)) == Quarters(n))
  }

  /** The jitter as float64 computes it, one rounding per operation. */
  function JitterFloat(d: Time, u: real, round: Rounding): real {
    round(round(round(d as real) * 0.25) * u)
  }

  function Jitter(d: Time, u: real, round: Rounding): int {
    Truncate(JitterFloat(d, u, round))
  }

  function Unjittered(attempt: int, base: Time): Time {
    Capped(Wrap64(Doubled(attempt, base)))
  }

  function Delay(attempt: int, base: Time, u: real, round: Rounding): Time {
    Wrap64(Unjittered(attempt, base) + Jitter(Unjittered(attempt, base), u, round))
  }

  method BackoffDuration(attempt: int, base: Time, u: real, round: Rounding) returns (delay: Time)
    requires Int64(base) && JitterFactor(u)
    ensures delay == Delay(attempt, base, u, round)
  {
    var b := base;
    if b <= 0 {
      b := MINUTE;
    }
    var shift := attempt - 1;
    if shift < 0 {
      shift := 0;
    }
    if shift > 20 {
      shift := 20;
    }
    var d := Wrap64(b * Pow2(shift));
    if d > MAX_BACKOFF {
      d := MAX_BACKOFF;
    }
    assert b == BaseOrMinute(base) && shift == Shift(attempt) && d == Unjittered(attempt, base);
    return Wrap64(d + Jitter(d, u, round));
  }

  predicate NoOverflow(attempt: int, base: Time) {
    Doubled(attempt, base) < TWO_TO_63
  }

  lemma WithinFactor(q: real, u: real)
    requires q >= 0.0 && JitterFactor(u)
    ensures -q <= q * u <= q
  {
    assert q * (1.0 - u) >= 0.0;
    assert q * (1.0 + u) >= 0.0;
  }

  lemma TruncateWithin(x: real, d: Time)
    requires d > 0 && -Quarters(d) <= x <= Quarters(d)
    ensures -(d / 4) <= Truncate(x) <= d / 4
  {
    assert Quarters(d).Floor == d / 4;
  }

  lemma Monotone(round: Rounding, x: real, y: real)
    requires LawfulRounding(round) && x <= y
    ensures round(x) <= round(y)
  {
  }

  lemma QuarterIsExact(d: Time, round: Rounding)
    requires 0 < d <= MAX_BACKOFF && LawfulRounding(round)
    ensures round(round(d as real) * 0.25) == Quarters(d)
    ensures round(Quarters(d)) == Quarters(d) && round(-Quarters(d)) == -Quarters(d)
  {
    assert d as real == Quarters(4 * d) && -Quarters(d) == Quarters(-d);
    assert round(Quarters(4 * d)) == Quarters(4 * d);
    assert d as real * 0.25 == Quarters(d);
  }

  lemma JitterBound(d: Time, u: real, round: Rounding)
    requires 0 < d <= MAX_BACKOFF && JitterFactor(u) && LawfulRounding(round)
    ensures -(d / 4) <= Jitter(d, u, round) <= d / 4
  {
    JitterFloatBound(d, u, round);
    TruncateWithin(JitterFloat(d, u, round), d);
  }

  lemma JitterFloatBound(d: Time, u: real, round: Rounding)
    requires 0 < d <= MAX_BACKOFF && JitterFactor(u) && LawfulRounding(round)
    ensures -Quarters(d) <= JitterFloat(d, u, round) <= Quarters(d)
  {
    QuarterIsExact(d, round);
    RoundedWithin(Quarters(d), u, round);
  }

  lemma RoundedWithin(q: real, u: real, round: Rounding)
    requires q >= 0.0 && JitterFactor(u) && LawfulRounding(round) && round(q) == q && round(-q) == -q
    ensures -q <= round(q * u) <= q
  {
    WithinFactor(q, u);
    Monotone(round, -q, q * u);
    Monotone(round, q * u, q);
  }

  /** Without overflow the delay stays within a quarter of the capped doubled delay, and within 30 hours. */
  lemma DelayBand(attempt: int, base: Time, u: real, round: Rounding)
    requires JitterFactor(u) && LawfulRounding(round) && NoOverflow(attempt, base)
    ensures
      var d := Capped(Doubled(attempt, base));
      && 0 < d <= MAX_BACKOFF
      && d - d / 4 <= Delay(attempt, base, u, round) <= d + d / 4
      && 0 < Delay(attempt, base, u, round) <= 30 * HOUR
  {
    DoubledPositive(attempt, base);
    var d := Capped(Doubled(attempt, base));
    assert Unjittered(attempt, base) == d;
    BandOf(d, u, round);
  }

  lemma BandOf(d: Time, u: real, round: Rounding)
    requires 0 < d <= MAX_BACKOFF && JitterFactor(u) && LawfulRounding(round)
    ensures d - d / 4 <= Wrap64(d + Jitter(d, u, round)) <= d + d / 4
    ensures 0 < Wrap64(d + Jitter(d, u, round)) <= 30 * HOUR
  {
    JitterBound(d, u, round);
  }

  lemma DoubledPositive(attempt: int, base: Time)
    ensures Doubled(attempt, base) >= BaseOrMinute(base) > 0
  {
    MulMonotone(BaseOrMinute(base), 1, Pow2(Shift(attempt)));
  }

  lemma MulMonotone(b: int, p: int, q: int)
    requires b >= 0 && p <= q
    ensures b * p <= b * q
  {
  }

  /** The jitter spans the band: at its lowest it takes a quarter away, and in the middle nothing. */
  lemma JitterReaches(attempt: int, base: Time, round: Rounding)
    requires NoOverflow(attempt, base) && LawfulRounding(round)
    ensures
      var d := Capped(Doubled(attempt, base));
      Delay(attempt, base, -1.0, round) == d - d / 4 && Delay(attempt, base, 0.0, round) == d
  {
    DoubledPositive(attempt, base);
    var d := Capped(Doubled(attempt, base));
    assert Unjittered(attempt, base) == d;
    QuarterIsExact(d, round);
    assert Quarters(d) * -1.0 == -Quarters(d) && Quarters(d) * 0.0 == Quarters(0);
    ZeroIsExact(round);
    assert (Quarters(d)).Floor == d / 4;
  }

  lemma ZeroIsExact(round: Rounding)
    requires LawfulRounding(round)
    ensures Quarters(0) == 0.0 && round(0.0) == 0.0
  {
    assert round(Quarters(0)) == Quarters(0);
  }

  /** An interval that is not positive counts as one minute. */
  lemma NoIntervalIsMinute(attempt: int, base: Time, u: real, round: Rounding)
    requires base <= 0
    ensures Delay(attempt, base, u, round) == Delay(attempt, 60 * 1_000_000_000, u, round)
  {
  }

  /** The delay before jitter is right exactly when the product fits, or wraps to something above the cap. */
  lemma UnjitteredIff(attempt: int, base: Time)
    ensures Unjittered(attempt, base) == Capped(Doubled(attempt, base))
      <==> NoOverflow(attempt, base) || Wrap64(Doubled(attempt, base)) >= MAX_BACKOFF
  {
    DoubledPositive(attempt, base);
  }

  /** A base of 2^43 ns (about 2.4 hours) overflows from the 21st attempt on, and the delay is negative. */
  lemma OverflowExample(round: Rounding)
    requires LawfulRounding(round)
    ensures !NoOverflow(21, 0x800_0000_0000)
    ensures Delay(21, 0x800_0000_0000, 0.0, round) < 0
  {
    assert Quarters(0) == 0.0;
    Pow2Of20();
    assert Doubled(21, 0x800_0000_0000) == TWO_TO_63;
  }

  lemma Pow2Of20()
    ensures Pow2(20) == 0x10_0000
  {
    assert Pow2(5) == 32;
    assert Pow2(10) == 1024;
    assert Pow2(15) == 32768;
  }

  /** The shift of the last attempt that is still followed by a retry. */
  function LastShift(maxAttempts: int): (s: nat)
    ensures s <= 20
  {
    if maxAttempts < 2 then 0 else if maxAttempts - 2 > 20 then 20 else maxAttempts - 2
  }

  /** The product never leaves 63 bits while attempts remain. */
  predicate BackoffFits(base: Time, maxAttempts: int) {
    BaseOrMinute(base) * Pow2(LastShift(maxAttempts)) < TWO_TO_63
  }

  /** A base that fits at the last retried attempt fits at every earlier one. */
  lemma FitsAtEveryAttempt(attempt: int, maxAttempts: int, base: Time)
    requires 1 <= attempt < maxAttempts && BackoffFits(base, maxAttempts)
    ensures NoOverflow(attempt, base)
  {
    Pow2Grows(Shift(attempt), LastShift(maxAttempts));
    MulMonotone(BaseOrMinute(base), Pow2(Shift(attempt)), Pow2(LastShift(maxAttempts)));
  }

  /** The defaults, eight hours and five attempts, fit. */
  lemma DefaultsFit()
    ensures BackoffFits(8 * HOUR, 5)
  {
    assert Pow2(3) == 8;
  }

  /** Below the cap each attempt waits strictly longer than the one before, whatever the two jitters are. */
  lemma DelayGrows(attempt: int, base: Time, u: real, v: real, round: Rounding)
    requires JitterFactor(u) && JitterFactor(v) && LawfulRounding(round)
    requires 1 <= attempt <= 20 && Doubled(attempt + 1, base) <= MAX_BACKOFF
    ensures Delay(attempt, base, u, round) < Delay(attempt + 1, base, v, round)
  {
    DoubledPositive(attempt, base);
    assert Pow2(Shift(attempt + 1)) == 2 * Pow2(Shift(attempt));
    var b, p := BaseOrMinute(base), Pow2(Shift(attempt));
    assert b * (2 * p) == 2 * (b * p);
    assert Doubled(attempt + 1, base) == 2 * Doubled(attempt, base);
    DelayBand(attempt, base, u, round);
    DelayBand(attempt + 1, base, v, round);
  }
}
