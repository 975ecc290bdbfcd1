# LPF: a single-pole RC low-pass filter

This project models the class `LPF` of `Lpf.cpp` in Dafny. `LPF` is a digital
single-pole RC low-pass filter, also called an exponential moving average.
An `LPF` object keeps three fields:

- `RCTime`, the time constant;
- `alpha`, the smoothing coefficient;
- `lastValue`, the last output.

Every update moves the output a fraction `alpha` of the way towards the
input: `lastValue := lastValue + alpha * (currentValue - lastValue)`.

The filter has two modes, chosen by the constructor:

- **Bandwidth mode** derives `RCTime = 1 / (TWO_PI * bandWidthInHz)` and
  `alpha = sampleTimeInSec / (RCTime + sampleTimeInSec)`. If the bandwidth or
  the sample time is not positive, it falls back to a pass-through filter:
  `RCTime = 0` and `alpha = 1`.
- **Fixed-alpha mode** keeps the given alpha when it lies strictly between 0
  and 1, and otherwise uses 1 (pass-through). It always sets `RCTime = 0`.

`RCTime == 0` is how the object marks a filter without a time constant.
That covers fixed-alpha mode and the bandwidth-mode fallback. The
variable-interval update uses it to decide whether to recompute `alpha`
from the sample interval it is given. A filter built from an invalid
bandwidth therefore ignores the interval, just as a fixed-alpha filter does.

Everything is in one file, `lpf.dfy`, module `Lpf`:

- **Filter arithmetic.** Pure functions for the time constant (`RCTimeFor`),
  the coefficient (`AlphaFor`), the fixed-alpha clamp (`ClampAlpha`) and one
  update (`Step`).
  - `Settle` applies `n` updates with a constant input.
  - `SettlingSteps` gives a number of updates after which the output is within
    a given tolerance of the input.
- **Lemmas.** They prove the update claims of the comment at Lpf.cpp:26-47:
  - an update never overshoots;
  - the remaining distance to the input shrinks by the factor `1 - alpha` on
    every update;
  - with a constant input the output approaches it monotonically, and gets
    arbitrarily close to it.
- **`class LPF`.** It has the three fields of the C++ class and its two
  constructors, `GetLastValue`, `NextValue` and `NextValueTimed`. Each
  method's `modifies` clause names exactly the fields Lpf.cpp writes. Each
  method states the new field values in terms of the functions above.
- **Uses of the filter.** Small methods that build filters and call them. Their
  contracts state the documented behaviour of whole call sequences: the
  pass-through fallback, a fresh filter starting at zero, the first output
  of a fresh filter, the alpha = 0.5 example, and filters with `RCTime == 0`
  ignoring the sample interval.

C++ floats are modelled as Dafny `real`, so there is no rounding, overflow
or underflow. `TWO_PI` comes from the Arduino core headers, which are not
part of this model. It is an uninitialised constant of a positive type, so
every result holds for any positive value of it.

C++ overloads `NextValue`. The one-argument version keeps its name; the
two-argument version `NextValue(currentValue, sampleTimeInSec)` is
`NextValueTimed` here.

Lpf.h:52 declares `Reset(initialValue)`, but Lpf.cpp never defines it.
Neither constructor takes an initial value: both set `lastValue = 0.0`
(Lpf.cpp:59, 69). The model follows Lpf.cpp.

## Model

| member | source | states |
|---|---|---|
| Lpf.RCTimeFor | Lpf.cpp:56 | for a positive bandwidth the time constant is positive and is exactly the reciprocal of `TWO_PI * bandWidthInHz` |
| Lpf.AlphaFor | Lpf.cpp:57 | for `RCTime >= 0` and `dt > 0` the coefficient lies in (0, 1]; it equals 1 exactly when `RCTime == 0`; and `alpha : (1 - alpha)` is the ratio `dt : RCTime` |
| Lpf.ClampAlpha | Lpf.cpp:67 | the stored coefficient always lies in (0, 1]; it equals the argument exactly when the argument is in (0, 1]; otherwise it is 1 |
| Lpf.Step | Lpf.cpp:28-39 | one update equals the weighted average `alpha * x + (1 - alpha) * last`, and the new distance to the input is `(1 - alpha)` times the old signed distance |
| Lpf.StepBetween | Lpf.cpp:36-38 | for `0 <= alpha <= 1` the new output lies between the old output and the input (no overshoot) |
| Lpf.StepDistance | Lpf.cpp:36-43 | for `0 <= alpha <= 1`, `abs(x - new) == (1 - alpha) * abs(x - old) <= abs(x - old)`, strictly smaller when `alpha > 0` and `x != old` |
| Lpf.SettleError | Lpf.cpp:35-36 | after n updates with a constant input the signed error is `(1 - alpha)^n` times the initial error |
| Lpf.SettleDistance | Lpf.cpp:35-43 | after n updates with a constant input the distance to it is `(1 - alpha)^n` times the initial distance |
| Lpf.SettleMonotone | Lpf.cpp:41-43 | repeated updates with a constant input never move the output away from it |
| Lpf.SettleBetween | Lpf.cpp:35-38 | repeated updates with a constant input stay between the initial output and the input |
| Lpf.SettleSteadyState | Lpf.cpp:38-39 | an output equal to the input stays equal to it under any number of updates |
| Lpf.PassThroughSettle | Lpf.cpp:76-79 | with `alpha == 1` every update from the first on returns its input exactly |
| Lpf.SettlingSteps | Lpf.cpp:41-43 | gives a step count n with `n * alpha * eps > d` for any distance d >= 0 and positive alpha and tolerance eps |
| Lpf.EnoughSteps | Lpf.cpp:41-43 | every step count from `SettlingSteps(d, alpha, eps)` on satisfies `n * alpha * eps > d` |
| Lpf.SettlesWithin | Lpf.cpp:41-43 | for `0 < alpha <= 1`, once `n * alpha * eps` exceeds the initial distance, n updates bring the output within eps of a constant input (convergence) |
| Lpf.AlphaGrowsWithInterval | Lpf.cpp:85 | in bandwidth mode a longer sample interval gives a strictly larger coefficient |
| Lpf.RCTimeShrinksWithBandwidth | Lpf.cpp:56 | a wider bandwidth gives a strictly shorter time constant |
| Lpf.LPF.FromBandwidth | Lpf.cpp:50-60 | invalid bandwidth or sample time gives `RCTime == 0` and `alpha == 1`; valid inputs give `RCTime == RCTimeFor(bw) > 0` and `alpha == AlphaFor(RCTime, dt)` in (0, 1); `lastValue == 0`; the object invariant holds |
| Lpf.LPF.FromAlpha | Lpf.cpp:66-70 | `alpha` is the argument when it lies in (0, 1) and 1 otherwise; `RCTime == 0` and `lastValue == 0`; the object invariant holds |
| Lpf.LPF.GetLastValue | Lpf.cpp:72-74 | returns `lastValue` and changes no field |
| Lpf.LPF.NextValue | Lpf.cpp:76-79 | `lastValue` becomes `Step(old lastValue, alpha, x)` and is returned; `RCTime` and `alpha` are unchanged; on a valid filter the output lies between the old output and the input, and the distance shrinks by `1 - alpha` |
| Lpf.LPF.NextValueTimed | Lpf.cpp:81-88 | with `RCTime == 0` the interval is ignored and `alpha` is unchanged; otherwise `alpha` becomes `AlphaFor(RCTime, dt)` in (0, 1); then the same update as `NextValue` is applied; `RCTime` is unchanged and the invariant is kept |
| Lpf.PassThroughAfterInvalidBandwidth | Lpf.cpp:50-54 | a filter built from a non-positive bandwidth or sample time returns its first input exactly |
| Lpf.FreshFilterStartsAtZero | Lpf.cpp:59-74 | a fresh filter of either mode reports a last value of 0 and has a coefficient in (0, 1] |
| Lpf.HalfAlphaSequence | Lpf.cpp:66-79 | with alpha 0.5 and a constant input of 10 the first two outputs are 5 and 7.5 |
| Lpf.FirstOutputStartsFromZero | Lpf.cpp:66-79 | the first output of a fresh fixed-alpha filter is the clamped alpha times the input, so for 0 < alpha < 1 and a non-zero input it differs from the input |
| Lpf.InvalidBandwidthIgnoresInterval | Lpf.cpp:51-54 | a filter built from a non-positive bandwidth or sample time has `RCTime == 0`, so its variable-interval update returns the input whatever the interval |
| Lpf.FixedAlphaIgnoresInterval | Lpf.cpp:83-84 | in fixed-alpha mode the variable-interval update gives the same output for any two sample intervals, namely one `Step` with the clamped alpha |

## Left out

- Lpf.h as a whole. It declares a different interface that Lpf.cpp does not
  implement, and none of it has a body: a `double` constructor with
  `isInBandwidth` and `cascades` arguments, `Reset`, `GetFilterGainInDB`, the
  `numCascades`, per-cascade `lastValue` and `lastTimeInUsec` fields, and the
  `MAX_CASCADES` and `IS_BANDWIDTH_HZ` macros.
- An initial output other than 0. Neither constructor takes an initial
  value, and `Reset` (Lpf.h:52) has no body in Lpf.cpp, so both constructors
  start at 0 (Lpf.cpp:59, 69).
- The start `y[0] := x[0]` of the algorithm in the comment at Lpf.cpp:29.
  The code starts from `lastValue = 0.0` instead, so a fresh filter's first
  output is `alpha * x`, not `x`, whenever `alpha < 1`. The model follows
  the code, and `FirstOutputStartsFromZero` states the difference.
- IEEE-754 `float` rounding, overflow, underflow, infinities and NaN.
  Arithmetic here is on `real`. For example, `RCTime` underflows to 0 for
  huge bandwidths. Every comparison with NaN is false, so `LPF(NaN)` gets
  `alpha = 1` (Lpf.cpp:67), while `LPF(NaN, dt)` takes the else branch and
  computes a NaN time constant (Lpf.cpp:51, 56).
- The value of `TWO_PI`. It comes from the Arduino core headers, which are not
  part of this model, so only its positivity is used.
- The frequency response and the dB gain formula. They need logarithms and
  square roots, and no code implements them.
- The numeric claims of the comment at Lpf.cpp:41-43: the output settles in
  about 5 RCTime, or about 0.08 seconds for a 10 Hz bandwidth. They need
  the exponential function and the value of pi. The model proves the
  exact geometric decay and convergence instead.
- Lpf.LPF.NextValueTimed: requires `sampleTimeInSec > 0` in bandwidth mode.
  Lpf.cpp:85 does not guard that case, and `sampleTimeInSec == -RCTime`
  divides by zero.
- Lpf.LPF.NextValueTimed: requires the object invariant `Valid()`. Only the
  two constructors can build an `LPF`, and both establish it. `NextValue`
  does not require it, and states its distance and no-overshoot properties
  under that hypothesis.
- C++ method overloading. The two-argument `NextValue` is named
  `NextValueTimed`.
