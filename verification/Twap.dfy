/** The time-weighted mean tick of the LPT/WETH pool and the price it stands for
    (crates/livepeer-valuator/src/onchain.rs). */
module Twap {
  import opened Wrappers
  import opened TickMath

  const TWAP_WINDOW_SECS: nat := 1800

  const TWO_POW_63: int := 0x8000_0000_0000_0000

  /** Rust's division: toward zero. */
  function TruncDiv(a: int, b: int): int
    requires b > 0
  {
    if a >= 0 then a / b else -((-a) / b)
  }

  /** Rust's remainder: the sign of the dividend. */
  function TruncRem(a: int, b: int): int
    requires b > 0
  {
    a - TruncDiv(a, b) * b
  }

  /** `as i64`: keep the low 64 bits. */
  function WrapI64(x: int): int { (x + TWO_POW_63) % (2 * TWO_POW_63) - TWO_POW_63 }

  /** The mean tick before the cast: the quotient rounded toward minus infinity. */
  predicate IsFloor(q: int, delta: int, seconds: int) { q * seconds <= delta < (q + 1) * seconds }

  lemma FloorIsUnique(p: int, q: int, delta: int, seconds: int)
    requires seconds > 0 && IsFloor(p, delta, seconds) && IsFloor(q, delta, seconds)
    ensures p == q
  {
    if p < q { MulLe(p + 1, q, seconds); }
    if q < p { MulLe(q + 1, p, seconds); }
  }

  /** Truncate, then subtract one for an inexact negative quotient. The result is the
      floor of delta / seconds whenever that floor is a 64-bit integer, and otherwise that
      floor wrapped to 64 bits. */
  method ArithmeticMeanTick(delta: int, seconds: int) returns (tick: int)
    requires seconds > 0
    ensures -TWO_POW_63 * seconds <= delta < TWO_POW_63 * seconds ==> IsFloor(tick, delta, seconds)
    ensures exists q :: IsFloor(q, delta, seconds)
    ensures forall q | IsFloor(q, delta, seconds) :: tick == WrapI64(q)
  {
    hide WrapI64, IsFloor, TruncDiv, TruncRem;
    var q := TruncDiv(delta, seconds);
    if delta < 0 && TruncRem(delta, seconds) != 0 {
      q := q - 1;
    }
    AdjustedIsFloor(delta, seconds, q);
    if -TWO_POW_63 * seconds <= delta < TWO_POW_63 * seconds { FloorFits(q, delta, seconds); }
    tick := WrapI64(q);
    forall p | IsFloor(p, delta, seconds) ensures tick == WrapI64(p) { FloorIsUnique(p, q, delta, seconds); }
  }

  lemma AdjustedIsFloor(delta: int, seconds: int, q: int)
    requires seconds > 0
    requires q == TruncDiv(delta, seconds) - if delta < 0 && TruncRem(delta, seconds) != 0 then 1 else 0
    ensures IsFloor(q, delta, seconds)
  {
    TruncBounds(delta, seconds);
    hide TruncDiv;
    assert (q + 1) * seconds == q * seconds + seconds;
    assert TruncRem(delta, seconds) == delta - TruncDiv(delta, seconds) * seconds;
    if delta < 0 && TruncRem(delta, seconds) != 0 {
      assert q * seconds == TruncDiv(delta, seconds) * seconds - seconds;
    }
  }

  lemma FloorFits(q: int, delta: int, seconds: int)
    requires seconds > 0 && IsFloor(q, delta, seconds)
    requires -TWO_POW_63 * seconds <= delta < TWO_POW_63 * seconds
    ensures WrapI64(q) == q
  {
    if TWO_POW_63 <= q { MulLe(TWO_POW_63, q, seconds); }
    if q < -TWO_POW_63 { MulLe(q + 1, -TWO_POW_63, seconds); }
  }

  lemma TruncBounds(a: int, b: int)
    requires b > 0
    ensures a >= 0 ==> 0 <= TruncRem(a, b) < b
    ensures a < 0 ==> -b < TruncRem(a, b) <= 0
  {
    var n: nat := if a < 0 then -a else a;
    DivBounds(n, b);
    if a < 0 {
      assert -(n / b) * b == -(b * (n / b));
    }
  }

  // ---------------------------------------------------------------------------
  // What the mean tick means for a pool that was at one tick in each second
  // ---------------------------------------------------------------------------

  function Sum(ticks: seq<int>): int {
    if |ticks| == 0 then 0 else Sum(ticks[..|ticks| - 1]) + ticks[|ticks| - 1]
  }

  predicate AllBetween(ticks: seq<int>, lo: int, hi: int) {
    forall i | 0 <= i < |ticks| :: lo <= ticks[i] <= hi
  }

  lemma {:induction false} SumBetween(ticks: seq<int>, lo: int, hi: int)
    requires AllBetween(ticks, lo, hi)
    ensures lo * |ticks| <= Sum(ticks) <= hi * |ticks|
  {
    if |ticks| > 0 {
      var n := |ticks| - 1;
      SumBetween(ticks[..n], lo, hi);
      assert lo * |ticks| == lo * n + lo;
      assert hi * |ticks| == hi * n + hi;
    }
  }

  /** The mean lies between the extreme ticks of the window. */
  lemma MeanBetweenExtremes(ticks: seq<int>, lo: int, hi: int, mean: int)
    requires |ticks| == TWAP_WINDOW_SECS && AllBetween(ticks, lo, hi)
    requires IsFloor(mean, Sum(ticks), TWAP_WINDOW_SECS)
    ensures lo <= mean <= hi
  {
    SumBetween(ticks, lo, hi);
  }

  datatype PriceError = TickOutOfI32 | TickOutOfRange

  predicate FitsI32(x: int) { -0x8000_0000 <= x < 0x8000_0000 }

  lemma SqrtRatioMonotone(t1: int, t2: int)
    requires InRange(t1) && InRange(t2) && t1 <= t2
    ensures SqrtRatio(t1) <= SqrtRatio(t2)
  {
    hide SqrtRatio;
    if t1 < t2 { StrictlyIncreasing(t1, t2); }
  }

  /** For a pool whose tick stayed within [lo, hi] in every second of the window,
      pricing cannot fail a range check, and the square-root price lies between those of
      lo and hi. */
  lemma TwapBetweenExtremes(ticks: seq<int>, lo: int, hi: int, mean: int)
    requires |ticks| == TWAP_WINDOW_SECS && AllBetween(ticks, lo, hi)
    requires MIN_TICK <= lo <= hi <= MAX_TICK
    requires IsFloor(mean, Sum(ticks), TWAP_WINDOW_SECS)
    ensures FitsI32(mean) && InRange(mean)
    ensures SqrtRatio(lo) <= SqrtRatio(mean) <= SqrtRatio(hi)
  {
    hide SqrtRatio;
    MeanBetweenExtremes(ticks, lo, hi, mean);
    SqrtRatioMonotone(lo, mean);
    SqrtRatioMonotone(mean, hi);
  }

  /** A pool that was at these ticks, one per second and all within [lo, hi], moves its
      cumulative tick by their sum. */
  predicate Window(ticks: seq<int>, lo: int, hi: int, cumulativeThen: int, cumulativeNow: int) {
    && |ticks| == 1800 && AllBetween(ticks, lo, hi) && Sum(ticks) == cumulativeNow - cumulativeThen
    && MIN_TICK <= lo <= hi <= MAX_TICK
  }

  /** From two cumulative-tick readings to the time-weighted square-root price. The
      readings are signed 56-bit values, as the pool returns them. */
  method TwapSqrtPrice(cumulativeThen: int, cumulativeNow: int) returns (mean: int, r: Result<nat, PriceError>)
    requires -0x80_0000_0000_0000 <= cumulativeThen < 0x80_0000_0000_0000
    requires -0x80_0000_0000_0000 <= cumulativeNow < 0x80_0000_0000_0000
    ensures IsFloor(mean, cumulativeNow - cumulativeThen, 1800)
    ensures r.Success? <==> InRange(mean)
    ensures r.Success? ==> r.value == SqrtRatio(mean)
    ensures r == Failure(TickOutOfI32) <==> !FitsI32(mean)
    ensures forall ticks, lo, hi | Window(ticks, lo, hi, cumulativeThen, cumulativeNow) ::
      r.Success? && SqrtRatio(lo) <= r.value <= SqrtRatio(hi)
  {
    hide SqrtRatio;
    var avgTick := ArithmeticMeanTick(cumulativeNow - cumulativeThen, TWAP_WINDOW_SECS);
    mean := avgTick;
    forall ticks, lo, hi | Window(ticks, lo, hi, cumulativeThen, cumulativeNow)
      ensures FitsI32(mean) && InRange(mean) && SqrtRatio(lo) <= SqrtRatio(mean) <= SqrtRatio(hi)
    {
      TwapBetweenExtremes(ticks, lo, hi, mean);
    }
    if !FitsI32(avgTick) {
      return mean, Failure(TickOutOfI32);
    }
    var s := GetSqrtRatioAtTick(avgTick);
    match s
    case Failure(_) => r := Failure(TickOutOfRange);
    case Success(v) => r := Success(v);
  }
}
