/** The Uniswap V3 square-root-price table (crates/livepeer-valuator/src/tick_math.rs).

    `SqrtRatio` is the specification: fold the bits of |tick| over a table of twenty
    128.128 fixed-point multipliers, invert for a positive tick, and round the shift
    by 32 bits up. `GetSqrtRatioAtTick` is the code, and the lemmas say what the
    table means: it is a strictly increasing function of the tick that fits 160 bits,
    and one tick moves the price by one hundredth of one percent. */
module TickMath {
  import opened Wrappers

  const MIN_TICK: int := -887272
  const MAX_TICK: int := 887272

  const ONE: nat := 0x1_0000_0000_0000_0000_0000_0000_0000_0000
  const U256_MAX: nat := 0xffff_ffff_ffff_ffff_ffff_ffff_ffff_ffff_ffff_ffff_ffff_ffff_ffff_ffff_ffff_ffff
  const TWO_POW_32: nat := 0x1_0000_0000
  const TWO_POW_64: nat := 0x1_0000_0000_0000_0000
  const TWO_POW_96: nat := 0x1_0000_0000_0000_0000_0000_0000
  const TWO_POW_160: nat := 0x1_0000_0000_0000_0000_0000_0000_0000_0000_0000_0000
  const TWO_POW_192: nat := 0x1_0000_0000_0000_0000_0000_0000_0000_0000_0000_0000_0000_0000

  const BITS: nat := 20

  /** sqrt(1.0001)^-(2^k) in 128.128 fixed point, for bit k of |tick|. */
  function Multiplier(k: nat): (c: nat)
    requires k < BITS
    ensures 0 < c < ONE
  {
    match k
    case 0 => 0xfffcb933bd6fad37aa2d162d1a594001
    case 1 => 0xfff97272373d413259a46990580e213a
    case 2 => 0xfff2e50f5f656932ef12357cf3c7fdcc
    case 3 => 0xffe5caca7e10e4e61c3624eaa0941cd0
    case 4 => 0xffcb9843d60f6159c9db58835c926644
    case 5 => 0xff973b41fa98c081472e6896dfb254c0
    case 6 => 0xff2ea16466c96a3843ec78b326b52861
    case 7 => 0xfe5dee046a99a2a811c461f1969c3053
    case 8 => 0xfcbe86c7900a88aedcffc83b479aa3a4
    case 9 => 0xf987a7253ac413176f2b074cf7815e54
    case 10 => 0xf3392b0822b70005940c7a398e4b70f3
    case 11 => 0xe7159475a2c29b7443b29c7fa6e889d9
    case 12 => 0xd097f3bdfd2022b8845ad8f792aa5825
    case 13 => 0xa9f746462d870fdf8a65dc1f90e061e5
    case 14 => 0x70d869a156d2a1b890bb3df62baf32f7
    case 15 => 0x31be135f97d08fd981231505542fcfa6
    case 16 => 0x9aa508b5b7a84e1c677de54f3e99bc9
    case 17 => 0x5d6af8dedb81196699c329225ee604
    case 18 => 0x2216e584f5fa1ea926041bedfe98
    case _ => 0x48a170391f7dc42444e8fa2
  }

  /** One floored fixed-point multiplication. */
  function Scale(x: nat, k: nat): nat
    requires k < BITS
  {
    x * Multiplier(k) / ONE
  }

  /** The bits k, k+1, ... of |tick| are the bits of n; each set bit scales the ratio. */
  function Fold(x: nat, n: nat, k: nat): nat
    requires k <= BITS
    decreases BITS - k
  {
    if k == BITS then x
    else Fold(if n % 2 == 1 then Scale(x, k) else x, n / 2, k + 1)
  }

  /** The pre-inversion ratio for |tick| = a. */
  function Ratio(a: nat): nat { Fold(ONE, a, 0) }

  /** The shift right by 32 bits, rounded up. */
  function RoundUpShift32(r: nat): nat {
    r / TWO_POW_32 + (if r % TWO_POW_32 == 0 then 0 else 1)
  }

  predicate InRange(tick: int) { MIN_TICK <= tick <= MAX_TICK }

  function Abs(x: int): nat { if x < 0 then -x else x }

  /** The square-root price, as 64.96 fixed point, of an in-range tick. */
  function SqrtRatio(tick: int): nat
    requires InRange(tick)
  {
    RatioPositive(Abs(tick));
    RoundUpShift32(if tick > 0 then U256_MAX / Ratio(tick) else Ratio(Abs(tick)))
  }

  // ---------------------------------------------------------------------------
  // Every scaling step stays in (0, 2^128]
  // ---------------------------------------------------------------------------

  lemma ScaleFloor(x: nat, k: nat)
    requires k < BITS
    ensures Scale(x, k) * ONE <= x * Multiplier(k) < (Scale(x, k) + 1) * ONE
  {
  }

  lemma ScaleShrinks(x: nat, k: nat)
    requires k < BITS
    ensures Scale(x, k) <= x
  {
    ScaleFloor(x, k);
    assert x * Multiplier(k) <= x * ONE;
  }

  lemma ScaleMonotone(x: nat, y: nat, k: nat)
    requires k < BITS && x <= y
    ensures Scale(x, k) <= Scale(y, k)
  {
    assert x * Multiplier(k) <= y * Multiplier(k);
  }

  /** The ratio when the bits below k are all set. */
  function Ones(k: nat): nat
    requires k <= BITS
  {
    if k == 0 then ONE else Scale(Ones(k - 1), k - 1)
  }

  /** Folding any bits into something at least the all-ones ratio leaves at least
      the all-ones ratio, and never grows it. */
  lemma {:induction false} FoldBounds(x: nat, n: nat, k: nat, bits: nat)
    requires k <= bits == BITS && Ones(k) <= x
    ensures Ones(bits) <= Fold(x, n, k) <= x
    decreases bits - k
  {
    hide Scale, Multiplier;
    if k < bits {
      var next := if n % 2 == 1 then Scale(x, k) else x;
      assert Ones(k + 1) <= next <= x by {
        ScaleMonotone(Ones(k), x, k);
        ScaleShrinks(Ones(k), k);
        ScaleShrinks(x, k);
      }
      FoldBounds(next, n / 2, k + 1, bits);
    }
  }

  /** x exceeds y by one part in 20000 to 20001 of y, give or take e parts of the
      last unit: one half of a basis point. */
  predicate HalfBasisPoint(x: nat, y: nat, e: nat) {
    && y <= 20001 * (x - y) + e
    && 20000 * (x - y) <= y + e
  }

  /** The table, evaluated: for each bit k, the product of all the multipliers below
      it exceeds its own multiplier by half a basis point. */
  lemma TableEvaluated()
    ensures HalfBasisPoint(Ones(0), Multiplier(0), 0)
    ensures HalfBasisPoint(Ones(1), Multiplier(1), 0)
    ensures HalfBasisPoint(Ones(2), Multiplier(2), 0)
    ensures HalfBasisPoint(Ones(3), Multiplier(3), 0)
    ensures HalfBasisPoint(Ones(4), Multiplier(4), 0)
    ensures HalfBasisPoint(Ones(5), Multiplier(5), 0)
    ensures HalfBasisPoint(Ones(6), Multiplier(6), 0)
    ensures HalfBasisPoint(Ones(7), Multiplier(7), 0)
    ensures HalfBasisPoint(Ones(8), Multiplier(8), 0)
    ensures HalfBasisPoint(Ones(9), Multiplier(9), 0)
    ensures HalfBasisPoint(Ones(10), Multiplier(10), 0)
    ensures HalfBasisPoint(Ones(11), Multiplier(11), 0)
    ensures HalfBasisPoint(Ones(12), Multiplier(12), 0)
    ensures HalfBasisPoint(Ones(13), Multiplier(13), 0)
    ensures HalfBasisPoint(Ones(14), Multiplier(14), 0)
    ensures HalfBasisPoint(Ones(15), Multiplier(15), 0)
    ensures HalfBasisPoint(Ones(16), Multiplier(16), 0)
    ensures HalfBasisPoint(Ones(17), Multiplier(17), 0)
    ensures HalfBasisPoint(Ones(18), Multiplier(18), 0)
    ensures HalfBasisPoint(Ones(19), Multiplier(19), 0)
    ensures Ones(BITS) == 0x149b7873d84d48
  {
    assert Ones(1) == 0xfffcb933bd6fad37aa2d162d1a594001;
    assert Ones(2) == 0xfff62bbb6d458ec3c792106391dc463e;
    assert Ones(3) == 0xffe9114b9cf28d394c3203dbd44eb085;
    assert Ones(4) == 0xffcede6f1d8be90b88f350424e84e5b7;
    assert Ones(5) == 0xff9a80c1ada7480b1daa871d7c4d9b36;
    assert Ones(6) == 0xff31e58d5a53c84fc142023ec1b1dfd7;
    assert Ones(7) == 0xfe612f8183b1ea21b72fb71b03542ae4;
    assert Ones(8) == 0xfcc1c2f380536bc67ee1ff564d1080b2;
    assert Ones(9) == 0xf98ad8c8d7ecc0a3f8a42c9724cffb6a;
    assert Ones(10) == 0xf33c480189b415235ad119427d89a1f6;
    assert Ones(11) == 0xe71889a85903fd03cb7cc40bdf371a9c;
    assert Ones(12) == 0xd09a9f3e93db5812d4820c2fc67a3e3a;
    assert Ones(13) == 0xa9f973345b9e647c4163af91d00b255f;
    assert Ones(14) == 0x70d9db6485f04ddd567e07c7b89f8e7c;
    assert Ones(15) == 0x31beb65d91af63ae717a760be3b374dc;
    assert Ones(16) == 0x9aa7036fd2355429c4030b032e1cf71;
    assert Ones(17) == 0x5d6c2af97aaa8de0e5a6bf23f5e547;
    assert Ones(18) == 0x221755388a6658e120f4a3c503cf;
    assert Ones(19) == 0x48a25e36942a4fc0c1f899f;
    assert Ones(20) == 0x149b7873d84d48;
  }

  /** The invariant the multiplication relies on: the ratio is in (0, 2^128]. */
  lemma RatioPositive(a: nat)
    ensures 0x149b7873d84d48 <= Ratio(a) <= ONE
  {
    TableEvaluated();
    FoldBounds(ONE, a, 0, BITS);
  }

  // ---------------------------------------------------------------------------
  // The gap between neighbours: |tick| = a against |tick| = a + 1
  // ---------------------------------------------------------------------------

  /** A common multiplication keeps the relative gap up to one rounding. */
  lemma GapStep(x: nat, y: nat, k: nat, e: nat)
    requires k < BITS && HalfBasisPoint(x, y, e)
    ensures HalfBasisPoint(Scale(x, k), Scale(y, k), e + 20001)
  {
    hide Scale, Multiplier;
    var c := Multiplier(k);
    ScaleFloor(x, k);
    ScaleFloor(y, k);
    GapTimes(x, y, c, e);
  }

  lemma GapTimes(x: nat, y: nat, c: nat, e: nat)
    requires c <= ONE && HalfBasisPoint(x, y, e)
    ensures y * c <= 20001 * (x * c - y * c) + e * ONE
    ensures 20000 * (x * c - y * c) <= y * c + e * ONE
  {
    var d := x - y;
    assert x * c == y * c + d * c by { Distribute(1, y, d, c); }
    assert y * c <= 20001 * (d * c) + e * c by { MulLe(y, 20001 * d + e, c); Distribute(20001, d, e, c); }
    assert 20000 * (d * c) <= y * c + e * c by {
      MulLe(20000 * d, y + e, c);
      Distribute(1, y, e, c);
      Distribute(20000, d, 0, c);
    }
    assert e * c <= e * ONE by { MulLe(c, ONE, e); }
  }

  lemma MulLe(a: int, b: int, c: nat)
    requires a <= b
    ensures a * c <= b * c && c * a <= c * b
  {
  }

  lemma Distribute(k: int, a: int, b: int, c: int)
    ensures (k * a + b) * c == k * (a * c) + b * c
  {
  }

  lemma {:induction false} GapTail(x: nat, y: nat, n: nat, k: nat, e: nat, bits: nat)
    requires k <= bits == BITS && HalfBasisPoint(x, y, e)
    ensures HalfBasisPoint(Fold(x, n, k), Fold(y, n, k), e + (bits - k) * 20001)
    decreases bits - k
  {
    hide Scale, Multiplier;
    if k < bits {
      if n % 2 == 1 {
        GapStep(x, y, k, e);
        GapTail(Scale(x, k), Scale(y, k), n / 2, k + 1, e + 20001, bits);
      } else {
        GapTail(x, y, n / 2, k + 1, e, bits);
      }
    }
  }

  /** |tick| = 2^k - 1 against |tick| = 2^k. */
  lemma TableGap(k: nat)
    requires k < BITS
    ensures HalfBasisPoint(Ones(k), Scale(ONE, k), 0)
  {
    hide Scale, Multiplier, Ones, HalfBasisPoint;
    ScaleOne(k);
    TableEvaluated();
  }

  lemma ScaleOne(k: nat)
    requires k < BITS
    ensures Scale(ONE, k) == Multiplier(k)
  {
    hide Multiplier;
  }

  function Pow2(k: nat): nat { if k == 0 then 1 else 2 * Pow2(k - 1) }

  /** Rounding slack of a whole fold. */
  const SLACK: nat := 400020

  /** Adding one to m carries through its low ones: above the first zero bit both
      folds see the same bits, and there the table gap is what separates them. */
  lemma {:induction false} CarryGap(m: nat, k: nat, bits: nat)
    requires k < bits == BITS
    requires m + 1 < Pow2(bits - k)
    ensures HalfBasisPoint(Fold(Ones(k), m, k), Fold(ONE, m + 1, k), SLACK)
    decreases bits - k
  {
    hide Scale, Multiplier, Ones, HalfBasisPoint;
    var h := m / 2;
    if m % 2 == 0 {
      assert (m + 1) / 2 == h;
      TableGap(k);
      GapTail(Ones(k), Scale(ONE, k), h, k + 1, 0, bits);
      WidenSlack(Fold(Ones(k), h, k + 1), Fold(Scale(ONE, k), h, k + 1), (bits - k - 1) * 20001);
    } else {
      assert (m + 1) / 2 == h + 1;
      OnesStep(k);
      CarryGap(h, k + 1, bits);
    }
  }

  lemma OnesStep(k: nat)
    requires k < BITS
    ensures Ones(k + 1) == Scale(Ones(k), k)
  {
    hide Scale;
  }

  lemma WidenSlack(x: nat, y: nat, e: nat)
    requires e <= SLACK && HalfBasisPoint(x, y, e)
    ensures HalfBasisPoint(x, y, SLACK)
  {
  }

  /** Neighbouring pre-inversion ratios differ by half a basis point. */
  lemma NeighbourRatios(a: nat)
    requires a < MAX_TICK
    ensures HalfBasisPoint(Ratio(a), Ratio(a + 1), SLACK)
  {
    assert Pow2(10) == 0x400;
    assert Pow2(20) == 0x100000;
    CarryGap(a, 0, BITS);
  }

  const LOWEST_RATIO: nat := 18447437462383981825

  lemma FoldStep(x: nat, n: nat, k: nat, next: nat)
    requires k < BITS
    requires next == if n % 2 == 1 then Scale(x, k) else x
    ensures Fold(x, n, k) == Fold(next, n / 2, k + 1)
  {
  }

  lemma LowestRatioEvaluated()
    ensures Ratio(887272) == LOWEST_RATIO
  {
    hide Fold;
    FoldStep(ONE, 887272, 0, ONE);
    FoldStep(ONE, 443636, 1, ONE);
    FoldStep(ONE, 221818, 2, ONE);
    FoldStep(ONE, 110909, 3, 0xffe5caca7e10e4e61c3624eaa0941cd0);
    FoldStep(0xffe5caca7e10e4e61c3624eaa0941cd0, 55454, 4, 0xffe5caca7e10e4e61c3624eaa0941cd0);
    FoldStep(0xffe5caca7e10e4e61c3624eaa0941cd0, 27727, 5, 0xff7d10c63a977157da4140deb6f31a7b);
    FoldStep(0xff7d10c63a977157da4140deb6f31a7b, 13863, 6, 0xfeac1d4052f7714818b490c1138ea058);
    FoldStep(0xfeac1d4052f7714818b490c1138ea058, 6931, 7, 0xfd0c3654da9e033741d1a9f93707f6f6);
    FoldStep(0xfd0c3654da9e033741d1a9f93707f6f6, 3465, 8, 0xf9d459c5817dbafa9e376ae84dcfeb8b);
    FoldStep(0xf9d459c5817dbafa9e376ae84dcfeb8b, 1732, 9, 0xf9d459c5817dbafa9e376ae84dcfeb8b);
    FoldStep(0xf9d459c5817dbafa9e376ae84dcfeb8b, 866, 10, 0xf9d459c5817dbafa9e376ae84dcfeb8b);
    FoldStep(0xf9d459c5817dbafa9e376ae84dcfeb8b, 433, 11, 0xe183ac4e25d5949966242a64e9c80e2f);
    FoldStep(0xe183ac4e25d5949966242a64e9c80e2f, 216, 12, 0xe183ac4e25d5949966242a64e9c80e2f);
    FoldStep(0xe183ac4e25d5949966242a64e9c80e2f, 108, 13, 0xe183ac4e25d5949966242a64e9c80e2f);
    FoldStep(0xe183ac4e25d5949966242a64e9c80e2f, 54, 14, 0xe183ac4e25d5949966242a64e9c80e2f);
    FoldStep(0xe183ac4e25d5949966242a64e9c80e2f, 27, 15, 0x2bd1a4c5d2a1181aca1ef15e64c2e3cf);
    FoldStep(0x2bd1a4c5d2a1181aca1ef15e64c2e3cf, 13, 16, 0x1a785cbbdc050483e3be5812760be73);
    FoldStep(0x1a785cbbdc050483e3be5812760be73, 6, 17, 0x1a785cbbdc050483e3be5812760be73);
    FoldStep(0x1a785cbbdc050483e3be5812760be73, 3, 18, 0x3865a6455d07d2bc87c5956d2e);
    FoldStep(0x3865a6455d07d2bc87c5956d2e, 1, 19, 0x1000276a221a17501);
    FoldEnd(LOWEST_RATIO, 0);
  }

  lemma FoldEnd(x: nat, n: nat)
    ensures Fold(x, n, BITS) == x
  {
  }

  /** The ratio falls with every step of |tick|, down to its value at MAX_TICK. */
  lemma RatioDecreases(a: nat)
    requires a < MAX_TICK
    ensures Ratio(a + 1) < Ratio(a)
  {
    RatioPositive(a + 1);
    NeighbourRatios(a);
  }

  lemma {:induction false} RatioAtLeast(a: nat)
    requires a <= MAX_TICK
    ensures LOWEST_RATIO <= Ratio(a) <= ONE
    decreases MAX_TICK - a
  {
    hide Ratio;
    RatioPositive(a);
    if a == MAX_TICK {
      LowestRatioEvaluated();
    } else {
      RatioAtLeast(a + 1);
      RatioDecreases(a);
    }
  }

  // ---------------------------------------------------------------------------
  // The rounded output: one tick is one half basis point of the square root
  // ---------------------------------------------------------------------------

  /** hi is above lo by at least one part in 20002 and at most one in 19999. */
  predicate OneTickApart(lo: nat, hi: nat) {
    && lo <= 20002 * (hi - lo)
    && 19999 * (hi - lo) <= lo
  }

  lemma RoundUpBounds(r: nat)
    ensures r <= RoundUpShift32(r) * TWO_POW_32 < r + TWO_POW_32
  {
  }

  /** Rounding preserves the step at the magnitudes the table reaches. */
  lemma RoundedStep(x: nat, y: nat, e: nat)
    requires HalfBasisPoint(x, y, e)
    requires LOWEST_RATIO <= y && 1000000 * e <= y
    ensures OneTickApart(RoundUpShift32(y), RoundUpShift32(x))
  {
    hide RoundUpShift32;
    RoundUpBounds(x);
    RoundUpBounds(y);
    RoundedStepLinear(x, y, e, RoundUpShift32(x), RoundUpShift32(y));
  }

  lemma RoundedStepLinear(x: int, y: int, e: int, sx: int, sy: int)
    requires y <= 20001 * (x - y) + e && 20000 * (x - y) <= y + e
    requires 18447437462383981825 <= y && 0 <= 1000000 * e <= y
    requires x <= sx * 0x1_0000_0000 < x + 0x1_0000_0000
    requires y <= sy * 0x1_0000_0000 < y + 0x1_0000_0000
    ensures sy <= 20002 * (sx - sy)
    ensures 19999 * (sx - sy) <= sy
  {
    var d, g := x - y, sx - sy;
    assert d - 0x1_0000_0000 < g * 0x1_0000_0000 < d + 0x1_0000_0000;
  }

  /** Inverting two neighbouring ratios keeps the relative step. */
  lemma InvertedStep(x: nat, y: nat)
    requires HalfBasisPoint(x, y, SLACK) && LOWEST_RATIO <= y && x <= ONE
    ensures var p, q := U256_MAX / x, U256_MAX / y;
      LOWEST_RATIO <= p && HalfBasisPoint(q, p, p / 1000000)
  {
    var p, q := U256_MAX / x, U256_MAX / y;
    assert p * x <= U256_MAX < (p + 1) * x;
    assert q * y <= U256_MAX < (q + 1) * y;
    InverseAtLeast(x, p);
    InverseGapLow(p, q, x, y);
    InverseGapHigh(p, q, x, y);
  }

  lemma InverseAtLeast(x: nat, p: nat)
    requires 0 < x <= ONE && U256_MAX < (p + 1) * x
    ensures ONE - 1 <= p
  {
    MulLe(x, ONE, p + 1);
  }

  lemma InverseGapLow(p: nat, q: nat, x: nat, y: nat)
    requires ONE - 1 <= p && LOWEST_RATIO <= y && HalfBasisPoint(x, y, SLACK)
    requires p * x < (q + 1) * y
    ensures p <= 20001 * (q - p) + p / 1000000
  {
    var d, g := x - y, q - p;
    assert p * d < (g + 1) * y by { Distribute(1, p, g + 1, y); Distribute(1, y, d, p); }
    assert p * y <= 20001 * (p * d) + SLACK * p by { MulLe(y, 20001 * d + SLACK, p); Distribute(20001, d, SLACK, p); }
    assert 10000000000000 * (SLACK * p) <= p * y by { MulLe(10000000000000 * SLACK, y, p); }
    assert 9999999999999 * p * y < 10000000000000 * 20001 * (g + 1) * y;
    Cancel(9999999999999 * p, 10000000000000 * 20001 * (g + 1), y);
  }

  lemma InverseGapHigh(p: nat, q: nat, x: nat, y: nat)
    requires ONE - 1 <= p && LOWEST_RATIO <= y && HalfBasisPoint(x, y, SLACK)
    requires q * y < (p + 1) * x
    ensures 20000 * (q - p) <= p + p / 1000000
  {
    var d, g := x - y, q - p;
    assert (g - 1) * y < (p + 1) * d by { Distribute(1, p + 1, g - 1, y); Distribute(1, y, d, p + 1); }
    assert 20000 * ((p + 1) * d) <= (p + 1) * y + SLACK * (p + 1) by {
      MulLe(20000 * d, y + SLACK, p + 1);
      Distribute(1, y, SLACK, p + 1);
      Distribute(20000, d, 0, p + 1);
    }
    assert 10000000000000 * (SLACK * (p + 1)) <= (p + 1) * y by { MulLe(10000000000000 * SLACK, y, p + 1); }
    assert 10000000000000 * 20000 * (g - 1) * y < 10000000000001 * (p + 1) * y;
    Cancel(10000000000000 * 20000 * (g - 1), 10000000000001 * (p + 1), y);
  }

  lemma Cancel(a: int, b: int, y: nat)
    requires a * y < b * y
    ensures a < b
  {
    if b <= a { MulLe(b, a, y); }
  }

  /** For every tick: the next tick's square-root price is larger by half a basis
      point, to within one part in 19999 and 20002. */
  lemma TickStep(tick: int)
    requires MIN_TICK <= tick < MAX_TICK
    ensures OneTickApart(SqrtRatio(tick), SqrtRatio(tick + 1))
  {
    hide Ratio, HalfBasisPoint, RoundUpShift32, OneTickApart;
    if tick < 0 {
      var a := -tick - 1;
      NeighbourRatios(a);
      RatioAtLeast(a + 1);
      RoundedStep(Ratio(a), Ratio(a + 1), SLACK);
    } else {
      var a := tick;
      NeighbourRatios(a);
      RatioAtLeast(a);
      RatioAtLeast(a + 1);
      InvertedStep(Ratio(a), Ratio(a + 1));
      var p := U256_MAX / Ratio(a);
      RoundedStep(U256_MAX / Ratio(a + 1), p, p / 1000000);
      if tick == 0 {
        ZeroTickInverse();
      }
    }
  }

  /** Tick zero is not inverted, and inverting it would not change its output. */
  lemma ZeroTickInverse()
    ensures Ratio(0) == ONE
    ensures SqrtRatio(0) == RoundUpShift32(U256_MAX / Ratio(0)) == TWO_POW_96
  {
    assert Fold(ONE, 0, 10) == ONE;
    assert Fold(ONE, 0, 0) == Fold(ONE, 0, 10);
  }

  /** The square-root price is a strictly increasing function of the tick. */
  lemma {:induction false} StrictlyIncreasing(t1: int, t2: int)
    requires MIN_TICK <= t1 < t2 <= MAX_TICK
    ensures SqrtRatio(t1) < SqrtRatio(t2)
    decreases t2 - t1
  {
    hide SqrtRatio;
    TickStep(t2 - 1);
    if t1 < t2 - 1 {
      StrictlyIncreasing(t1, t2 - 1);
    }
    PositiveOutput(t2 - 1);
  }

  lemma PositiveOutput(tick: int)
    requires InRange(tick)
    ensures 0 < SqrtRatio(tick)
  {
    hide Ratio, RoundUpShift32;
    var r := Ratio(Abs(tick));
    RatioAtLeast(Abs(tick));
    InverseAtLeast(r, U256_MAX / r);
    RoundUpBounds(r);
    RoundUpBounds(U256_MAX / r);
  }

  const MIN_SQRT_RATIO: nat := 4295128739
  const MAX_SQRT_RATIO: nat := 1461446703485210103287273052203988822378723970342

  lemma ExtremeOutputs()
    ensures SqrtRatio(MIN_TICK) == MIN_SQRT_RATIO
    ensures SqrtRatio(MAX_TICK) == MAX_SQRT_RATIO
  {
    hide Ratio;
    LowestRatioEvaluated();
  }

  /** Every output lies between the two extreme ones, so it always fits 160 bits. */
  lemma Fits160Bits(tick: int)
    requires InRange(tick)
    ensures MIN_SQRT_RATIO <= SqrtRatio(tick) <= MAX_SQRT_RATIO < TWO_POW_160
  {
    hide SqrtRatio;
    ExtremeOutputs();
    if MIN_TICK < tick { StrictlyIncreasing(MIN_TICK, tick); }
    if tick < MAX_TICK { StrictlyIncreasing(tick, MAX_TICK); }
  }

  /** One tick is one basis point of price: the price (the square of the output)
      grows by a factor 1.0001, with a relative error below 10^-8. */
  lemma TickIsOneBasisPoint(tick: int)
    requires MIN_TICK <= tick < MAX_TICK
    ensures var s, s1 := SqrtRatio(tick), SqrtRatio(tick + 1);
      100009999 * (s * s) <= 100000000 * (s1 * s1) <= 100010001 * (s * s)
  {
    hide SqrtRatio;
    TickStep(tick);
    SquaredStep(SqrtRatio(tick), SqrtRatio(tick + 1));
  }

  lemma SquaredStep(s: nat, s1: nat)
    requires OneTickApart(s, s1)
    ensures 100009999 * (s * s) <= 100000000 * (s1 * s1) <= 100010001 * (s * s)
  {
    assert 20003 * s <= 20002 * s1 && 19999 * s1 <= 20000 * s;
    SquareLe(20003 * s, 20002 * s1);
    SquareLe(19999 * s1, 20000 * s);
    assert (20003 * s) * (20003 * s) == 20003 * 20003 * (s * s);
    assert (20002 * s1) * (20002 * s1) == 20002 * 20002 * (s1 * s1);
    assert (19999 * s1) * (19999 * s1) == 19999 * 19999 * (s1 * s1);
    assert (20000 * s) * (20000 * s) == 20000 * 20000 * (s * s);
  }

  lemma SquareLe(a: nat, b: nat)
    requires a <= b
    ensures a * a <= b * b
  {
    MulLe(a, b, a);
    MulLe(a, b, b);
  }

  // ---------------------------------------------------------------------------
  // Reciprocity
  // ---------------------------------------------------------------------------

  /** Opposite ticks are reciprocal prices, up to the two roundings. */
  lemma Reciprocity(tick: int)
    requires 0 < tick <= MAX_TICK
    ensures var up, down := SqrtRatio(tick), SqrtRatio(-tick);
      TWO_POW_192 - TWO_POW_64 <= up * down < TWO_POW_192 + up + down
  {
    hide Ratio, RoundUpShift32;
    RatioAtLeast(tick);
    var r := Ratio(tick);
    var u := U256_MAX / r;
    RoundUpBounds(r);
    RoundUpBounds(u);
    ReciprocalProduct(r, u, RoundUpShift32(r), RoundUpShift32(u));
  }

  lemma ReciprocalProduct(r: nat, u: nat, down: nat, up: nat)
    requires 0 < r <= ONE && u == U256_MAX / r
    requires r <= down * TWO_POW_32 < r + TWO_POW_32
    requires u <= up * TWO_POW_32 < u + TWO_POW_32
    ensures TWO_POW_192 - TWO_POW_64 <= up * down < TWO_POW_192 + up + down
  {
    assert U256_MAX - r < u * r <= U256_MAX;
    var b := TWO_POW_32;
    assert u * r <= up * down * TWO_POW_64 by {
      MulLe(u, up * b, r);
      MulLe(r, down * b, up * b);
      Rearrange(up, down);
    }
    if up > 0 && down > 0 {
      assert (up - 1) * (down - 1) * TWO_POW_64 <= u * r by {
        MulLe((up - 1) * b, u, (down - 1) * b);
        MulLe((down - 1) * b, r, u);
        Rearrange(up - 1, down - 1);
      }
      assert (up - 1) * (down - 1) == up * down - up - down + 1 by {
        Distribute(1, up, -1, down - 1);
        Distribute(1, down, -1, up);
      }
    }
  }

  lemma Rearrange(a: int, b: int)
    ensures (a * TWO_POW_32) * (b * TWO_POW_32) == a * b * TWO_POW_64
  {
    assert (a * TWO_POW_32) * (b * TWO_POW_32) == (a * b) * (TWO_POW_32 * TWO_POW_32);
  }

  // ---------------------------------------------------------------------------
  // Accuracy against the exact product
  // ---------------------------------------------------------------------------

  /** The same fold without rounding. */
  function ExactFold(x: real, n: nat, k: nat): real
    requires k <= BITS
    decreases BITS - k
  {
    if k == BITS then x
    else ExactFold(if n % 2 == 1 then x * Multiplier(k) as real / ONE as real else x, n / 2, k + 1)
  }

  /** The floored fold never exceeds the exact one and loses less than one per step. */
  lemma {:induction false} FoldAccuracy(x: nat, e: real, n: nat, k: nat, bits: nat)
    requires k <= bits == BITS
    requires x as real <= e
    ensures var f, g := Fold(x, n, k) as real, ExactFold(e, n, k);
      && f <= g <= f + (e - x as real) + (bits - k) as real
      && (k < bits ==> g < f + (e - x as real) + (bits - k) as real)
    decreases bits - k
  {
    hide Scale, Multiplier;
    if k < bits {
      if n % 2 == 1 {
        ScaleAccuracy(x, e, k);
        FoldAccuracy(Scale(x, k), e * Multiplier(k) as real / ONE as real, n / 2, k + 1, bits);
      } else {
        FoldAccuracy(x, e, n / 2, k + 1, bits);
      }
    }
  }

  lemma ScaleAccuracy(x: nat, e: real, k: nat)
    requires k < BITS && x as real <= e
    ensures var s, g := Scale(x, k) as real, e * Multiplier(k) as real / ONE as real;
      s <= g < s + (e - x as real) + 1.0
  {
    hide Scale, Multiplier;
    ScaleFloor(x, k);
    assert (Scale(x, k) * ONE) as real == Scale(x, k) as real * ONE as real;
    assert (x * Multiplier(k)) as real == x as real * Multiplier(k) as real;
    FloorAccuracy(x as real, e, Scale(x, k) as real, Multiplier(k) as real, ONE as real);
  }

  lemma FloorAccuracy(x: real, e: real, s: real, c: real, m: real)
    requires 0.0 <= c <= m && 0.0 < m && x <= e
    requires s * m <= x * c < (s + 1.0) * m
    ensures s <= e * c / m < s + (e - x) + 1.0
  {
    var d, g := e - x, e * c / m;
    assert g * m == e * c;
    assert e * c == x * c + d * c;
    assert 0.0 <= d * c <= d * m by { RealMulLe(c, m, d); }
    var b := (s + 1.0) + d;
    assert b * m == (s + 1.0) * m + d * m;
    Between(x * c, d * c, d * m, (s + 1.0) * m);
    assert x * c <= g * m < b * m;
    CancelReal(s, g, b, m);
  }

  lemma Between(a: real, b: real, c: real, d: real)
    requires 0.0 <= b <= c && a < d
    ensures a <= a + b < d + c
  {
  }

  lemma RealMulLe(a: real, b: real, d: real)
    requires 0.0 <= a <= b && 0.0 <= d
    ensures 0.0 <= d * a <= d * b
  {
  }

  lemma CancelReal(a: real, g: real, b: real, m: real)
    requires m > 0.0 && a * m <= g * m < b * m
    ensures a <= g < b
  {
  }

  /** For every |tick|: the ratio is at most the exact product of the selected
      multipliers, and short of it by less than 19 units of 2^-128. */
  lemma RatioAccuracy(a: nat)
    ensures var exact := ExactFold(ONE as real, a, 0);
      Ratio(a) as real <= exact < Ratio(a) as real + 19.0
  {
    hide Scale, Multiplier, ExactFold, Fold;
    var x := if a % 2 == 1 then Scale(ONE, 0) else ONE;
    FirstFactorExact(a);
    FoldAccuracy(x, x as real, a / 2, 1, BITS);
  }

  /** The first multiplication starts from exactly 2^128 and loses nothing. */
  lemma FirstFactorExact(a: nat)
    ensures var x := if a % 2 == 1 then Scale(ONE, 0) else ONE;
      Fold(ONE, a, 0) == Fold(x, a / 2, 1) && ExactFold(ONE as real, a, 0) == ExactFold(x as real, a / 2, 1)
  {
    hide Multiplier;
    ScaleOne(0);
    var c := Multiplier(0) as real;
    assert ONE as real * c / ONE as real == c;
  }

  // ---------------------------------------------------------------------------
  // The code
  // ---------------------------------------------------------------------------

  /** The product must not overflow 256 bits; callers owe that as an invariant. */
  method MulShr128(a: nat, b: nat) returns (r: nat)
    requires a * b <= U256_MAX
    ensures r * ONE <= a * b < (r + 1) * ONE
  {
    r := a * b / ONE;
  }

  /** `absTick & mask != 0` for a power of two. */
  predicate BitSet(absTick: nat, mask: nat)
    requires mask > 0
  {
    (absTick / mask) % 2 != 0
  }

  /** What is left to fold once the bits below the mask are done. */
  function Remaining(ratio: nat, absTick: nat, mask: nat, k: nat): nat
    requires k <= BITS && mask > 0
  {
    Fold(ratio, absTick / mask, k)
  }

  /** One conditional step: multiply when the masked bit of absTick is set. The
      remaining fold is unchanged, and the product cannot overflow. */
  method Step(ratio: nat, absTick: nat, mask: nat, mul: nat, ghost k: nat) returns (next: nat)
    requires ratio <= ONE && 0 < k < BITS
    requires 0 < mask && mul == Multiplier(k)
    ensures next <= ONE
    ensures Remaining(next, absTick, 2 * mask, k + 1) == Remaining(ratio, absTick, mask, k)
  {
    hide Multiplier, Scale, Fold, BitSet, Remaining;
    next := ratio;
    if BitSet(absTick, mask) {
      ProductFits(ratio, k);
      next := MulShr128(ratio, mul);
      FloorUnique(ratio, k, next);
      ScaleShrinks(ratio, k);
    }
    RemainingStep(ratio, absTick, mask, k);
  }

  lemma ProductFits(ratio: nat, k: nat)
    requires ratio <= ONE && k < BITS
    ensures ratio * Multiplier(k) <= U256_MAX
  {
    hide Multiplier;
    MulLe(ratio, ONE, Multiplier(k));
  }

  lemma RemainingStep(ratio: nat, absTick: nat, mask: nat, k: nat)
    requires k < BITS && mask > 0
    ensures var next := if BitSet(absTick, mask) then Scale(ratio, k) else ratio;
      Remaining(next, absTick, 2 * mask, k + 1) == Remaining(ratio, absTick, mask, k)
  {
    hide Scale, Multiplier, Fold;
    var next := if BitSet(absTick, mask) then Scale(ratio, k) else ratio;
    HalveAgain(absTick, mask);
    FoldStep(ratio, absTick / mask, k, next);
  }

  lemma HalveAgain(n: nat, m: nat)
    requires m > 0
    ensures n / m / 2 == n / (2 * m)
  {
    var q := n / m;
    var h := q / 2;
    DivBounds(n, m);
    MulLe(2 * h, q, m);
    MulLe(q + 1, 2 * h + 2, m);
    DoubleFactor(m, h);
    QuotientUnique(n, 2 * m, h);
  }

  lemma DoubleFactor(m: nat, h: nat)
    ensures m * (2 * h) == (2 * m) * h && m * (2 * h + 2) == (2 * m) * (h + 1)
  {
  }

  lemma DivBounds(n: nat, m: nat)
    requires m > 0
    ensures m * (n / m) <= n < m * (n / m + 1)
  {
  }

  lemma QuotientUnique(n: nat, m: nat, q: nat)
    requires m > 0 && m * q <= n < m * (q + 1)
    ensures n / m == q
  {
    var d := n / m;
    DivBounds(n, m);
    if d < q { MulLe(d + 1, q, m); }
    if q < d { MulLe(q + 1, d, m); }
  }

  lemma FloorUnique(x: nat, k: nat, r: nat)
    requires k < BITS && r * ONE <= x * Multiplier(k) < (r + 1) * ONE
    ensures r == Scale(x, k)
  {
    hide Multiplier;
  }

  /** The twenty steps for |tick|. */
  method RatioOfBits(absTick: nat) returns (ratio: nat)
    requires absTick <= MAX_TICK
    ensures ratio == Ratio(absTick)
  {
    hide Multiplier, Scale, Fold, BitSet, Remaining, Ratio;
    FirstStep(absTick);
    ratio := if BitSet(absTick, 0x1) then 0xfffcb933bd6fad37aa2d162d1a594001 else 0x100000000000000000000000000000000;
    Entries();
    ratio := Step(ratio, absTick, 0x2, 0xfff97272373d413259a46990580e213a, 1);
    ratio := Step(ratio, absTick, 0x4, 0xfff2e50f5f656932ef12357cf3c7fdcc, 2);
    ratio := Step(ratio, absTick, 0x8, 0xffe5caca7e10e4e61c3624eaa0941cd0, 3);
    ratio := Step(ratio, absTick, 0x10, 0xffcb9843d60f6159c9db58835c926644, 4);
    ratio := Step(ratio, absTick, 0x20, 0xff973b41fa98c081472e6896dfb254c0, 5);
    ratio := Step(ratio, absTick, 0x40, 0xff2ea16466c96a3843ec78b326b52861, 6);
    ratio := Step(ratio, absTick, 0x80, 0xfe5dee046a99a2a811c461f1969c3053, 7);
    ratio := Step(ratio, absTick, 0x100, 0xfcbe86c7900a88aedcffc83b479aa3a4, 8);
    ratio := Step(ratio, absTick, 0x200, 0xf987a7253ac413176f2b074cf7815e54, 9);
    ratio := Step(ratio, absTick, 0x400, 0xf3392b0822b70005940c7a398e4b70f3, 10);
    ratio := Step(ratio, absTick, 0x800, 0xe7159475a2c29b7443b29c7fa6e889d9, 11);
    ratio := Step(ratio, absTick, 0x1000, 0xd097f3bdfd2022b8845ad8f792aa5825, 12);
    ratio := Step(ratio, absTick, 0x2000, 0xa9f746462d870fdf8a65dc1f90e061e5, 13);
    ratio := Step(ratio, absTick, 0x4000, 0x70d869a156d2a1b890bb3df62baf32f7, 14);
    ratio := Step(ratio, absTick, 0x8000, 0x31be135f97d08fd981231505542fcfa6, 15);
    ratio := Step(ratio, absTick, 0x10000, 0x9aa508b5b7a84e1c677de54f3e99bc9, 16);
    ratio := Step(ratio, absTick, 0x20000, 0x5d6af8dedb81196699c329225ee604, 17);
    ratio := Step(ratio, absTick, 0x40000, 0x2216e584f5fa1ea926041bedfe98, 18);
    ratio := Step(ratio, absTick, 0x80000, 0x48a170391f7dc42444e8fa2, 19);
    NothingRemains(ratio, absTick);
  }

  lemma Entries()
    ensures Multiplier(1) == 0xfff97272373d413259a46990580e213a
    ensures Multiplier(2) == 0xfff2e50f5f656932ef12357cf3c7fdcc
    ensures Multiplier(3) == 0xffe5caca7e10e4e61c3624eaa0941cd0
    ensures Multiplier(4) == 0xffcb9843d60f6159c9db58835c926644
    ensures Multiplier(5) == 0xff973b41fa98c081472e6896dfb254c0
    ensures Multiplier(6) == 0xff2ea16466c96a3843ec78b326b52861
    ensures Multiplier(7) == 0xfe5dee046a99a2a811c461f1969c3053
    ensures Multiplier(8) == 0xfcbe86c7900a88aedcffc83b479aa3a4
    ensures Multiplier(9) == 0xf987a7253ac413176f2b074cf7815e54
    ensures Multiplier(10) == 0xf3392b0822b70005940c7a398e4b70f3
    ensures Multiplier(11) == 0xe7159475a2c29b7443b29c7fa6e889d9
    ensures Multiplier(12) == 0xd097f3bdfd2022b8845ad8f792aa5825
    ensures Multiplier(13) == 0xa9f746462d870fdf8a65dc1f90e061e5
    ensures Multiplier(14) == 0x70d869a156d2a1b890bb3df62baf32f7
    ensures Multiplier(15) == 0x31be135f97d08fd981231505542fcfa6
    ensures Multiplier(16) == 0x9aa508b5b7a84e1c677de54f3e99bc9
    ensures Multiplier(17) == 0x5d6af8dedb81196699c329225ee604
    ensures Multiplier(18) == 0x2216e584f5fa1ea926041bedfe98
    ensures Multiplier(19) == 0x48a170391f7dc42444e8fa2
  {
  }

  lemma NothingRemains(ratio: nat, absTick: nat)
    ensures Remaining(ratio, absTick, 0x100000, BITS) == ratio
  {
    FoldEnd(ratio, absTick / 0x100000);
  }

  lemma FirstStep(a: nat)
    ensures Remaining(if BitSet(a, 0x1) then 0xfffcb933bd6fad37aa2d162d1a594001 else ONE, a, 0x2, 1) == Ratio(a)
  {
    hide Fold;
    ScaleOne(0);
    FoldStep(ONE, a, 0, if a % 2 == 1 then Scale(ONE, 0) else ONE);
  }

  method GetSqrtRatioAtTick(tick: int) returns (r: Result<nat, string>)
    ensures r.Failure? <==> !InRange(tick)
    ensures r.Success? ==> r.value == SqrtRatio(tick)
  {
    hide Ratio;
    if !(MIN_TICK <= tick <= MAX_TICK) {
      return Failure("tick out of range");
    }
    var ratio := RatioOfBits(Abs(tick));
    RatioPositive(Abs(tick));
    if tick > 0 {
      ratio := U256_MAX / ratio;
    }
    var shifted := ratio / TWO_POW_32;
    var remainder := ratio % TWO_POW_32;
    return Success(if remainder == 0 then shifted else shifted + 1);
  }
}
