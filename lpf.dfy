/**
 * A single-pole RC low-pass filter (an exponential moving average), as the
 * class LPF of Lpf.cpp implements it. The filter keeps a time constant
 * RCTime, a smoothing coefficient alpha and its last output lastValue; every
 * update moves the output a fraction alpha of the way towards the input.
 *
 * The C++ arithmetic is on `float`; here it is on `real`, so rounding,
 * overflow and underflow are not modelled.
 */
module Lpf {

  type PositiveReal = r: real | r > 0.0 witness 1.0

  /** 2 * pi, supplied by the Arduino core headers; only its positivity is used. */
  const TWO_PI: PositiveReal

  function Abs(r: real): real { if r < 0.0 then -r else r }

  /** `v` lies on the closed segment between `a` and `b`. */
  predicate Between(v: real, a: real, b: real) {
    (a <= v <= b) || (b <= v <= a)
  }

  // ---------------------------------------------------------------------
  // Filter arithmetic
  // ---------------------------------------------------------------------

  /** Time constant of an RC stage whose -3 dB point is `bandWidthInHz`. */
  function RCTimeFor(bandWidthInHz: real): (rc: real)
    requires bandWidthInHz > 0.0
    ensures rc > 0.0
    ensures rc * (TWO_PI * bandWidthInHz) == 1.0
  {
    1.0 / (TWO_PI * bandWidthInHz)
  }

  /** Smoothing coefficient for time constant `rc` and sample interval `dt`. */
  function AlphaFor(rc: real, dt: real): (a: real)
    requires rc >= 0.0 && dt > 0.0
    ensures 0.0 < a <= 1.0
    ensures a == 1.0 <==> rc == 0.0
    // alpha : (1 - alpha) is the ratio of the sample interval to the time constant
    ensures a * rc == (1.0 - a) * dt
  {
    dt / (rc + dt)
  }

  /** A coefficient from the fixed-alpha constructor: kept when it lies in (0, 1), pass-through otherwise. */
  function ClampAlpha(alpha: real): (a: real)
    ensures 0.0 < a <= 1.0
    ensures a == alpha <==> 0.0 < alpha <= 1.0
    ensures a != alpha ==> a == 1.0
  {
    if 0.0 < alpha < 1.0 then alpha else 1.0
  }

  /** One filter update from output `last` with coefficient `alpha` and input `x`. */
  function Step(last: real, alpha: real, x: real): (r: real)
    // the weighted-average form y[i] = alpha * x[i] + (1 - alpha) * y[i-1]
    ensures r == alpha * x + (1.0 - alpha) * last
    // the remaining distance to the input shrinks by the factor (1 - alpha)
    ensures x - r == (1.0 - alpha) * (x - last)
  {
    last + alpha * (x - last)
  }

  /** The output after `n` updates with the same coefficient and the same input `x`. */
  function Settle(last: real, alpha: real, x: real, n: nat): real
  {
    if n == 0 then last else Step(Settle(last, alpha, x, n - 1), alpha, x)
  }

  /** q raised to the power n. */
  function Pow(q: real, n: nat): real
  {
    if n == 0 then 1.0 else q * Pow(q, n - 1)
  }

  /** A number of updates after which the distance `d` has shrunk below `eps`. */
  function SettlingSteps(d: real, alpha: real, eps: real): (n: nat)
    requires d >= 0.0 && alpha > 0.0 && eps > 0.0
    ensures (n as real) * alpha * eps > d
  {
    var k := d / (alpha * eps);
    assert k >= 0.0;
    var n: nat := k.Floor + 1;
    assert (n as real) > k;
    assert (n as real) * (alpha * eps) > k * (alpha * eps);
    n
  }

  // ---------------------------------------------------------------------
  // Facts about real arithmetic used by the proofs below
  // ---------------------------------------------------------------------

  /** The product of two non-negative reals is non-negative. */
  lemma MulNonneg(a: real, b: real)
    requires a >= 0.0 && b >= 0.0
    ensures a * b >= 0.0
  {
  }

  /** The product of two positive reals is positive. */
  lemma MulPos(a: real, b: real)
    requires a > 0.0 && b > 0.0
    ensures a * b > 0.0
  {
  }

  /** A product that is positive with a positive factor has a positive co-factor. */
  lemma PositiveFactor(u: real, v: real)
    requires v > 0.0 && u * v > 0.0
    ensures u > 0.0
  {
  }

  /** Cross-multiplication for quotients with positive denominators. */
  lemma QuotientLess(a: real, b: real, c: real, d: real)
    requires b > 0.0 && d > 0.0 && a * d < c * b
    ensures a / b < c / d
  {
    var x, y := a / b, c / d;
    assert x * b == a && y * d == c;
    assert (y - x) * (b * d) == c * b - a * d;
    MulPos(b, d);
    PositiveFactor(y - x, b * d);
  }

  /** A non-negative factor comes out of Abs unchanged. */
  lemma AbsScale(p: real, e: real)
    requires p >= 0.0
    ensures Abs(p * e) == p * Abs(e)
  {
    if e < 0.0 {
      MulNonneg(p, -e);
    } else {
      MulNonneg(p, e);
    }
  }

  /** One geometric step: if e' = q * e and e = p * e0 then e' = (q * p) * e0. */
  lemma GeometricStep(sn: real, sm: real, alpha: real, x: real, last: real, pn: real, pm: real)
    requires x - sn == (1.0 - alpha) * (x - sm)
    requires x - sm == pm * (x - last)
    requires pn == (1.0 - alpha) * pm
    ensures x - sn == pn * (x - last)
  {
  }

  /** The inductive step of the Bernoulli bound, on plain reals. */
  lemma BernoulliStep(q: real, p: real, m: real, qp: real, k: real)
    requires 0.0 <= q <= 1.0 && 0.0 <= p <= 1.0 && m >= 0.0
    requires p * (1.0 + m * (1.0 - q)) <= 1.0
    requires qp == q * p && k == m + 1.0
    ensures 0.0 <= qp <= 1.0
    ensures qp * (1.0 + k * (1.0 - q)) <= 1.0
  {
    MulNonneg(q, p);
    MulNonneg(1.0 - q, 1.0 - p);
    var b := p * (1.0 + m * (1.0 - q));
    assert qp * (1.0 + k * (1.0 - q)) == q * b + (1.0 - q) * qp;
    MulNonneg(q, 1.0 - b);
    MulNonneg(1.0 - q, 1.0 - qp);
  }

  /** The arithmetic behind SettlesWithin: a remaining factor p below 1 / (1 + k * alpha) brings d under eps. */
  lemma TailBound(p: real, d: real, k: real, q: real, alpha: real, eps: real)
    requires p >= 0.0 && d >= 0.0 && alpha > 0.0 && eps > 0.0 && q == 1.0 - alpha
    requires k * alpha * eps > d
    requires p * (1.0 + k * (1.0 - q)) <= 1.0
    ensures p * d < eps
  {
    var c := 1.0 + k * alpha;
    assert d < eps * c;
    if p > 0.0 {
      assert p * d < p * (eps * c);
      assert p * (eps * c) == eps * (p * c);
      MulNonneg(eps, 1.0 - p * c);
    }
  }

  // ---------------------------------------------------------------------
  // Properties of one update and of repeated updates
  // ---------------------------------------------------------------------

  /** With 0 <= alpha <= 1 an update never overshoots: the new output lies between the old output and the input. */
  lemma StepBetween(last: real, alpha: real, x: real)
    requires 0.0 <= alpha <= 1.0
    ensures Between(Step(last, alpha, x), last, x)
  {
    if last <= x {
      MulNonneg(alpha, x - last);
      MulNonneg(1.0 - alpha, x - last);
    } else {
      MulNonneg(alpha, last - x);
      MulNonneg(1.0 - alpha, last - x);
    }
  }

  /** The distance to the input after an update is (1 - alpha) times the distance before. */
  lemma StepDistance(last: real, alpha: real, x: real)
    requires 0.0 <= alpha <= 1.0
    ensures Abs(x - Step(last, alpha, x)) == (1.0 - alpha) * Abs(x - last)
    ensures Abs(x - Step(last, alpha, x)) <= Abs(x - last)
    ensures alpha > 0.0 && x != last ==> Abs(x - Step(last, alpha, x)) < Abs(x - last)
  {
    var r := Step(last, alpha, x);
    if x - last >= 0.0 {
      MulNonneg(1.0 - alpha, x - last);
      MulNonneg(alpha, x - last);
    } else {
      MulNonneg(1.0 - alpha, last - x);
      MulNonneg(alpha, last - x);
      assert x - r == -((1.0 - alpha) * (last - x));
    }
  }

  /** After n updates with a constant input the signed error is (1 - alpha)^n times the initial one. */
  lemma {:induction false} SettleError(last: real, alpha: real, x: real, n: nat)
    ensures x - Settle(last, alpha, x, n) == Pow(1.0 - alpha, n) * (x - last)
  {
    if n > 0 {
      SettleError(last, alpha, x, n - 1);
      SettleUnfold(last, alpha, x, n);
      GeometricStep(Settle(last, alpha, x, n), Settle(last, alpha, x, n - 1), alpha, x, last,
                    Pow(1.0 - alpha, n), Pow(1.0 - alpha, n - 1));
    }
  }

  /** One unfolding of Settle, in the distance form of Step. */
  lemma SettleUnfold(last: real, alpha: real, x: real, n: nat)
    requires n > 0
    ensures x - Settle(last, alpha, x, n) == (1.0 - alpha) * (x - Settle(last, alpha, x, n - 1))
  {
  }

  lemma {:induction false} PowNonneg(q: real, n: nat)
    requires q >= 0.0
    ensures Pow(q, n) >= 0.0
  {
    if n > 0 {
      PowNonneg(q, n - 1);
      MulNonneg(q, Pow(q, n - 1));
    }
  }

  /** After n updates with a constant input the distance to it is (1 - alpha)^n times the initial distance. */
  lemma SettleDistance(last: real, alpha: real, x: real, n: nat)
    requires 0.0 <= alpha <= 1.0
    ensures Abs(x - Settle(last, alpha, x, n)) == Pow(1.0 - alpha, n) * Abs(x - last)
  {
    SettleError(last, alpha, x, n);
    PowNonneg(1.0 - alpha, n);
    AbsScale(Pow(1.0 - alpha, n), x - last);
  }

  /** Repeated updates with a constant input approach it monotonically. */
  lemma SettleMonotone(last: real, alpha: real, x: real, n: nat)
    requires 0.0 <= alpha <= 1.0
    ensures Abs(x - Settle(last, alpha, x, n + 1)) <= Abs(x - Settle(last, alpha, x, n))
  {
    StepDistance(Settle(last, alpha, x, n), alpha, x);
  }

  /** Repeated updates with a constant input never leave the segment between the start and the input. */
  lemma {:induction false} SettleBetween(last: real, alpha: real, x: real, n: nat)
    requires 0.0 <= alpha <= 1.0
    ensures Between(Settle(last, alpha, x, n), last, x)
  {
    if n > 0 {
      SettleBetween(last, alpha, x, n - 1);
      StepBetween(Settle(last, alpha, x, n - 1), alpha, x);
    }
  }

  /** An output equal to the input stays there: the input is the steady state. */
  lemma {:induction false} SettleSteadyState(alpha: real, x: real, n: nat)
    ensures Settle(x, alpha, x, n) == x
  {
    if n > 0 {
      SettleSteadyState(alpha, x, n - 1);
    }
  }

  /** With alpha == 1 (pass-through) every update returns its input exactly. */
  lemma PassThroughSettle(last: real, x: real, n: nat)
    requires n >= 1
    ensures Settle(last, 1.0, x, n) == x
  {
  }

  /** 0 <= q^n <= 1 and the Bernoulli bound q^n * (1 + n * (1 - q)) <= 1, for 0 <= q <= 1. */
  lemma {:induction false} PowBound(q: real, n: nat)
    requires 0.0 <= q <= 1.0
    ensures 0.0 <= Pow(q, n) <= 1.0
    ensures Pow(q, n) * (1.0 + (n as real) * (1.0 - q)) <= 1.0
  {
    if n > 0 {
      PowBound(q, n - 1);
      BernoulliStep(q, Pow(q, n - 1), (n - 1) as real, Pow(q, n), n as real);
    }
  }

  /** Every number of updates from SettlingSteps(d, alpha, eps) on meets the hypothesis of ShrunkBelow and SettlesWithin. */
  lemma EnoughSteps(d: real, alpha: real, eps: real, n: nat)
    requires d >= 0.0 && alpha > 0.0 && eps > 0.0
    requires n >= SettlingSteps(d, alpha, eps)
    ensures (n as real) * alpha * eps > d
  {
    var s := SettlingSteps(d, alpha, eps);
    MulNonneg((n - s) as real, alpha * eps);
  }

  /** (1 - alpha)^n * d < eps once n * alpha * eps exceeds d. */
  lemma ShrunkBelow(d: real, alpha: real, eps: real, n: nat)
    requires d >= 0.0 && 0.0 < alpha <= 1.0 && eps > 0.0
    requires (n as real) * alpha * eps > d
    ensures Pow(1.0 - alpha, n) * d < eps
  {
    PowBound(1.0 - alpha, n);
    TailBound(Pow(1.0 - alpha, n), d, n as real, 1.0 - alpha, alpha, eps);
  }

  /**
   * For 0 < alpha <= 1 the output converges to a constant input: once
   * n * alpha * eps exceeds the initial distance (so from
   * SettlingSteps(Abs(x - last), alpha, eps) updates on, by EnoughSteps),
   * the output is within eps of the input.
   */
  lemma SettlesWithin(last: real, alpha: real, x: real, eps: real, n: nat)
    requires 0.0 < alpha <= 1.0 && eps > 0.0
    requires (n as real) * alpha * eps > Abs(x - last)
    ensures Abs(x - Settle(last, alpha, x, n)) < eps
  {
    ShrunkBelow(Abs(x - last), alpha, eps, n);
    SettleDistance(last, alpha, x, n);
  }

  /** A longer sample interval gives a larger coefficient (bandwidth mode). */
  lemma AlphaGrowsWithInterval(rc: real, dt1: real, dt2: real)
    requires rc > 0.0 && 0.0 < dt1 < dt2
    ensures AlphaFor(rc, dt1) < AlphaFor(rc, dt2)
  {
    var b1, b2 := rc + dt1, rc + dt2;
    assert dt2 * b1 - dt1 * b2 == (dt2 - dt1) * rc;
    MulPos(dt2 - dt1, rc);
    QuotientLess(dt1, b1, dt2, b2);
  }

  /** A wider bandwidth gives a shorter time constant. */
  lemma RCTimeShrinksWithBandwidth(bw1: real, bw2: real)
    requires 0.0 < bw1 < bw2
    ensures RCTimeFor(bw2) < RCTimeFor(bw1)
  {
    var c: real := TWO_PI;
    MulPos(c, bw2 - bw1);
    assert c * (bw2 - bw1) == c * bw2 - c * bw1;
    MulPos(c, bw1);
    QuotientLess(1.0, c * bw2, 1.0, c * bw1);
  }

  // ---------------------------------------------------------------------
  // The filter object
  // ---------------------------------------------------------------------

  /**
   * RCTime == 0 is the sentinel Lpf.cpp uses for "no time constant":
   * the filter was built from a fixed alpha, or from a bandwidth or sample
   * time that was not positive, and NextValueTimed then ignores the sample
   * interval. RCTime > 0 means the filter was built from a valid bandwidth,
   * and NextValueTimed recomputes alpha from each sample interval.
   */
  class LPF {
    var RCTime: real
    var alpha: real
    var lastValue: real

    /** The state every constructor establishes and every update keeps. */
    ghost predicate Valid()
      reads this
    {
      0.0 <= RCTime && 0.0 < alpha <= 1.0 && (RCTime > 0.0 ==> alpha < 1.0)
    }

    /** Bandwidth mode; a non-positive bandwidth or sample time gives a pass-through filter. */
    constructor FromBandwidth(bandWidthInHz: real, sampleTimeInSec: real)
      ensures Valid()
      ensures lastValue == 0.0
      ensures bandWidthInHz <= 0.0 || sampleTimeInSec <= 0.0 ==> RCTime == 0.0 && alpha == 1.0
      ensures bandWidthInHz > 0.0 && sampleTimeInSec > 0.0 ==>
                RCTime == RCTimeFor(bandWidthInHz) && alpha == AlphaFor(RCTime, sampleTimeInSec)
                && RCTime > 0.0 && 0.0 < alpha < 1.0
    {
      if bandWidthInHz <= 0.0 || sampleTimeInSec <= 0.0 {
        RCTime := 0.0;
        alpha := 1.0;
      } else {
        var rc := RCTimeFor(bandWidthInHz);
        RCTime := rc;
        alpha := AlphaFor(rc, sampleTimeInSec);
      }
      lastValue := 0.0;
    }

    /** Fixed-alpha mode: alpha is kept when it lies in (0, 1), otherwise the filter passes its input through. */
    constructor FromAlpha(alpha: real)
      ensures Valid()
      ensures RCTime == 0.0 && lastValue == 0.0
      ensures this.alpha == ClampAlpha(alpha)
      ensures 0.0 < alpha < 1.0 ==> this.alpha == alpha
      ensures !(0.0 < alpha < 1.0) ==> this.alpha == 1.0
    {
      this.alpha := ClampAlpha(alpha);
      RCTime := 0.0;
      lastValue := 0.0;
    }

    method GetLastValue() returns (v: real)
      ensures v == lastValue
    {
      v := lastValue;
    }

    /** One update with the current coefficient; alpha and RCTime are left alone. */
    method NextValue(currentValue: real) returns (r: real)
      modifies this`lastValue
      ensures RCTime == old(RCTime) && alpha == old(alpha)
      ensures lastValue == Step(old(lastValue), alpha, currentValue)
      ensures r == lastValue
      ensures Valid() == old(Valid())
      ensures old(Valid()) ==> Between(r, old(lastValue), currentValue)
      ensures old(Valid()) ==>
                Abs(currentValue - r) == (1.0 - alpha) * Abs(currentValue - old(lastValue))
    {
      if Valid() {
        StepBetween(lastValue, alpha, currentValue);
        StepDistance(lastValue, alpha, currentValue);
      }
      lastValue := lastValue + alpha * (currentValue - lastValue);
      r := lastValue;
    }

    /**
     * The variable-interval update (the two-argument NextValue of the
     * C++ code). When RCTime == 0 the interval is ignored; otherwise
     * alpha is first recomputed from it.
     */
    method NextValueTimed(currentValue: real, sampleTimeInSec: real) returns (r: real)
      requires Valid()
      requires RCTime != 0.0 ==> sampleTimeInSec > 0.0
      modifies this`lastValue, this`alpha
      ensures Valid()
      ensures RCTime == old(RCTime)
      ensures old(RCTime) == 0.0 ==> alpha == old(alpha)
      ensures old(RCTime) != 0.0 ==>
                alpha == AlphaFor(RCTime, sampleTimeInSec) && 0.0 < alpha < 1.0
      ensures lastValue == Step(old(lastValue), alpha, currentValue)
      ensures r == lastValue
      ensures Between(r, old(lastValue), currentValue)
      ensures Abs(currentValue - r) == (1.0 - alpha) * Abs(currentValue - old(lastValue))
    {
      if RCTime == 0.0 {
        r := NextValue(currentValue);
        return;
      }
      alpha := AlphaFor(RCTime, sampleTimeInSec);
      ghost var prev := lastValue;
      lastValue := lastValue + alpha * (currentValue - lastValue);
      StepDistance(prev, alpha, currentValue);
      StepBetween(prev, alpha, currentValue);
      r := lastValue;
    }
  }

  // ---------------------------------------------------------------------
  // Uses of the filter
  // ---------------------------------------------------------------------

  /** A filter built from an invalid bandwidth or sample time returns its first input unchanged. */
  method PassThroughAfterInvalidBandwidth(bandWidthInHz: real, sampleTimeInSec: real, x: real)
    returns (y: real)
    requires bandWidthInHz <= 0.0 || sampleTimeInSec <= 0.0
    ensures y == x
  {
    var f := new LPF.FromBandwidth(bandWidthInHz, sampleTimeInSec);
    y := f.NextValue(x);
  }

  /** A fresh filter of either mode starts from 0 and has a coefficient in (0, 1]. */
  method FreshFilterStartsAtZero(bandWidthInHz: real, sampleTimeInSec: real, alpha: real)
    returns (v1: real, a1: real, v2: real, a2: real)
    ensures v1 == 0.0 && v2 == 0.0
    ensures 0.0 < a1 <= 1.0 && 0.0 < a2 <= 1.0
  {
    var f := new LPF.FromBandwidth(bandWidthInHz, sampleTimeInSec);
    var g := new LPF.FromAlpha(alpha);
    v1 := f.GetLastValue();
    v2 := g.GetLastValue();
    a1, a2 := f.alpha, g.alpha;
  }

  /**
   * A fresh filter starts from 0, not from its first input: the first output
   * is alpha times the input, so it differs from a non-zero input whenever
   * 0 < alpha < 1.
   */
  method FirstOutputStartsFromZero(alpha: real, x: real) returns (y: real)
    ensures y == ClampAlpha(alpha) * x
    ensures 0.0 < alpha < 1.0 && x != 0.0 ==> y != x
  {
    var f := new LPF.FromAlpha(alpha);
    y := f.NextValue(x);
  }

  /** A filter built from an invalid bandwidth or sample time has RCTime == 0, so the variable-interval update ignores the interval and passes its input through. */
  method InvalidBandwidthIgnoresInterval(bandWidthInHz: real, sampleTimeInSec: real, x: real, dt: real)
    returns (y: real)
    requires bandWidthInHz <= 0.0 || sampleTimeInSec <= 0.0
    ensures y == x
  {
    var f := new LPF.FromBandwidth(bandWidthInHz, sampleTimeInSec);
    y := f.NextValueTimed(x, dt);
  }

  /** With alpha = 0.5 and a constant input of 10 the outputs are 5 and then 7.5. */
  method HalfAlphaSequence() returns (first: real, second: real)
    ensures first == 5.0 && second == 7.5
  {
    var f := new LPF.FromAlpha(0.5);
    first := f.NextValue(10.0);
    second := f.NextValue(10.0);
  }

  /** In fixed-alpha mode the variable-interval update gives the same output as the plain one, whatever the interval. */
  method FixedAlphaIgnoresInterval(alpha: real, x: real, dt1: real, dt2: real) returns (y1: real, y2: real)
    ensures y1 == y2 == Step(0.0, ClampAlpha(alpha), x)
  {
    var f := new LPF.FromAlpha(alpha);
    var g := new LPF.FromAlpha(alpha);
    y1 := f.NextValueTimed(x, dt1);
    y2 := g.NextValueTimed(x, dt2);
  }
}
