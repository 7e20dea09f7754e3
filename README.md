# PicoResponsiveAnalogRead, modelled in Dafny

This project models the filter class `PicoResponsiveAnalogRead`, a port of the
ResponsiveAnalogRead library for the Raspberry Pi Pico. The filter turns a noisy
stream of ADC samples into a stable "responsive" value. Each call to `update(int)`
runs these stages:

1. Edge snap. When both sleep and edge snap are enabled, a sample close to either
   end of the range is pushed further toward that end.
2. Error EMA. An exponential moving average with factor 0.4 tracks how far the
   sample is from the smoothed value.
3. Sleep detection. With sleep enabled, the filter sleeps while the absolute error
   EMA is below the activity threshold. While asleep, the smoothed value is frozen.
4. Adaptive EMA. When awake, the smoothed value moves toward the sample. The step
   size comes from a saturating hyperbolic "snap curve" applied to the truncated
   difference times the snap multiplier.
5. Clamp and output. The smoothed value is clamped to `[0, analogResolution - 1]`.
   The output is that value truncated to an int, plus a flag saying whether the
   output changed.

The project has three files:

- `filter_math.dfy` (module `FilterMath`) holds the arithmetic with its
  properties: truncation toward zero, the unsigned difference, the snap curve, the
  two clamps, the EMA step and edge snap.
- `responsive_analog_read.dfy` (module `ResponsiveAnalogRead`) holds the
  following:
  - `FilterState`, the abstract value of one filter object.
  - `Respond` and `Step`, which specify one call of `getResponsiveValue` and one
    call of `update(int)`.
  - The class `PicoResponsiveAnalogRead`. Its fields carry the firmware's names
    and its methods update them in place, stage by stage. `GetResponsiveValue`
    and `Update` are proved equal to `Respond` and `Step`. `Begin` and the setters
    are proved to produce the old state with only their own fields replaced.
- `filter_properties.dfy` (module `FilterProperties`) holds properties that span
  many updates, plus two concrete scenarios.

Modelling choices:

- `float` and `double` become `real`.
- Every float-to-int conversion in the firmware truncates toward zero, and `Trunc`
  writes that out explicitly. This covers both edge-snap assignments and both
  `static_cast<int>` returns.
- The `unsigned int diff` becomes `UnsignedDiff`, the truncated absolute distance.
- The firmware never initialises the smoothed value or the outputs. The
  constructor starts them at 0 and the change flag at `false`. The constructor
  sets the firmware's field defaults and then runs `Begin`, as the firmware's
  parameterised constructor does: resolution 4096, threshold 4.0, edge snap on, error
  EMA 0, not sleeping, snap multiplier 0.01 unless given.
- The no-op `snap *= 0.5 + 0.5` stays in the model as the named constant
  `SleepSnapBoost`.
- `getResponsiveValue` is public, so a caller may run it outside `update`. That
  moves the smoothed value but leaves `responsiveValue` stale, which breaks the
  object invariant `Valid` (the output is the truncated smoothed value and the
  flag compares it with the previous one). `Update`, `Begin` and the setters
  therefore demand only the clamped multiplier (`ConfigOk`). `Update`
  re-establishes `Valid`, and `Begin` and the setters keep it when it held
  before (`DirectCallThenUpdateScenario`).
- The firmware computes the snap curve, the sleep boost, the primary EMA and the
  clamp inline, in the middle of `getResponsiveValue`. The model puts them in the
  helper method `SmoothToward`.

Facts about the code that shape the contracts:

- The smoothed value is clamped only on the awake path, not after every update.
  If `setAnalogResolution` shrinks the range while the filter sleeps, a smoothed
  value outside the new range stays outside it. The range guarantee is therefore
  stated for states already in range (`InRange`) and for awake steps.
- The lower clamp is tested first. With a resolution below 1 a non-negative value
  becomes the negative integer `analogResolution - 1`. In every reachable state
  the smoothed value is therefore non-negative or an integer, so the output, its
  truncation, is its floor (`ClampRangeTruncIsFloor`).
- With multiplier 0.01, sleep off, smoothed value 0 and sample 4095, one update
  is a full jump to exactly 4095 (`FullScaleStepScenario`).

## Model

| member | source | states |
|---|---|---|
| FilterMath.Trunc | include/PicoResponsiveAnalogRead/PicoResponsiveAnalogRead.hpp:158-159 | the int conversion truncates toward zero: for `x >= 0` the result is the largest int not above `x`; for `x < 0` it is the smallest int not below `x`, and never positive |
| FilterMath.UnsignedDiff | include/PicoResponsiveAnalogRead/PicoResponsiveAnalogRead.hpp:100-101 | `diff` is a natural within 1 below the absolute distance between sample and smoothed value, and 0 when they are equal |
| FilterMath.SnapCurve | include/PicoResponsiveAnalogRead/PicoResponsiveAnalogRead.hpp:76-84 | for `x >= 0` the curve lies in `[0, 1]`, is 0 at 0, and equals 1 exactly when `x >= 1` |
| FilterMath.SnapCurveSaturation | include/PicoResponsiveAnalogRead/PicoResponsiveAnalogRead.hpp:78-82 | for `x >= 0` the uncapped value `2(1 - 1/(x+1))` is non-negative, is below 1 exactly when `x < 1`, and equals 1 exactly at `x == 1` |
| FilterMath.SnapCurveBelowOne | include/PicoResponsiveAnalogRead/PicoResponsiveAnalogRead.hpp:78-79 | on `[0, 1]` the curve is the hyperbola `2x/(x+1)` |
| FilterMath.SnapCurveMonotone | include/PicoResponsiveAnalogRead/PicoResponsiveAnalogRead.hpp:76-84 | the curve never decreases on `x >= 0` |
| FilterMath.SnapCurveStrictlyIncreasing | include/PicoResponsiveAnalogRead/PicoResponsiveAnalogRead.hpp:76-84 | the curve is strictly increasing on `[0, 1]`, below saturation |
| FilterMath.ClampUnit | include/PicoResponsiveAnalogRead/PicoResponsiveAnalogRead.hpp:184-190 | the stored multiplier always lies in `[0, 1]`; an in-range value is kept; above 1 it becomes 1, below 0 it becomes 0 |
| FilterMath.ClampRange | include/PicoResponsiveAnalogRead/PicoResponsiveAnalogRead.hpp:151-156 | with resolution at least 1 the result lies in `[0, resolution-1]`; an in-range value is kept; a negative value becomes 0; a non-negative value above `resolution-1` becomes exactly `resolution-1` |
| FilterMath.ClampRangeTruncIsFloor | include/PicoResponsiveAnalogRead/PicoResponsiveAnalogRead.hpp:151-159 | truncating a clamped value toward zero equals taking its floor |
| FilterMath.Ema | include/PicoResponsiveAnalogRead/PicoResponsiveAnalogRead.hpp:148-149 | an EMA step with factor in `[0, 1]` lands between the previous value and the sample; factor 1 reaches the sample and factor 0 keeps the value |
| FilterMath.EdgeAdjust | include/PicoResponsiveAnalogRead/PicoResponsiveAnalogRead.hpp:92-98 | below the threshold the sample becomes the toward-zero truncation of `2v - t`; above `res - t` it becomes the toward-zero truncation of `2v - res + t`; otherwise it is unchanged; a sample never moves inward |
| ResponsiveAnalogRead.Initial | include/PicoResponsiveAnalogRead/PicoResponsiveAnalogRead.hpp:222-238 | a fresh filter satisfies the object invariant and is in range; it is not sleeping, has error EMA 0, and keeps an in-range multiplier as given |
| ResponsiveAnalogRead.SnapFactor | include/PicoResponsiveAnalogRead/PicoResponsiveAnalogRead.hpp:138-146 | snap lies in `[0, 1]`; it is 1 once `diff * snapMultiplier >= 1`; it is 0 when `diff` or the multiplier is 0 |
| ResponsiveAnalogRead.Smoothed | include/PicoResponsiveAnalogRead/PicoResponsiveAnalogRead.hpp:138-149 | the value before the clamp lies between the old smoothed value and the sample, and equals the sample once `diff * snapMultiplier >= 1` |
| ResponsiveAnalogRead.Respond | include/PicoResponsiveAnalogRead/PicoResponsiveAnalogRead.hpp:86-160 | only `errorEMA`, `sleeping` and `smoothValue` change. The error EMA is always updated with factor 0.4, from the edge-adjusted sample. Without both flags the raw sample is used. With sleep enabled, `sleeping` means `abs(errorEMA) < threshold`; with sleep disabled it is untouched. The short cut is taken exactly when sleep is enabled and the filter sleeps, and then the smoothed value is frozen. Otherwise the new smoothed value is the clamped EMA step and, with resolution at least 1, lies in range. Being in range is preserved. The row covers the helpers `EffectiveSample` (line 92), `NextErrorEma` (line 106) and `Asleep` (lines 110-118), whose meaning these clauses state |
| ResponsiveAnalogRead.Step | include/PicoResponsiveAnalogRead/PicoResponsiveAnalogRead.hpp:173-179 | the configuration is unchanged. `rawValue` is the raw sample exactly, not the edge-adjusted one. `prevResponsiveValue` is the old output. The output is the truncated smoothed value, and `hasChanged` holds exactly when the output differs from the old one. The invariant holds afterwards. While asleep the output is the truncation of the old smoothed value. When awake, or starting in range, the output lies in `[0, res-1]` |
| ResponsiveAnalogRead.PicoResponsiveAnalogRead.constructor | include/PicoResponsiveAnalogRead/PicoResponsiveAnalogRead.hpp:34-44 | builds the field defaults and then runs `begin`; the result equals `Initial` and satisfies the invariant |
| ResponsiveAnalogRead.PicoResponsiveAnalogRead.Begin | include/PicoResponsiveAnalogRead/PicoResponsiveAnalogRead.hpp:46-57 | from any state with a clamped multiplier, sets only the sleep flag and the clamped snap multiplier, and keeps the invariant when it held |
| ResponsiveAnalogRead.PicoResponsiveAnalogRead.GetValue | include/PicoResponsiveAnalogRead/PicoResponsiveAnalogRead.hpp:59-62 | under the invariant, the returned value is the truncated smoothed value, and it lies in `[0, res-1]` when the state is in range |
| ResponsiveAnalogRead.PicoResponsiveAnalogRead.GetRawValue | include/PicoResponsiveAnalogRead/PicoResponsiveAnalogRead.hpp:63-66 | returns the raw sample recorded by the last update, which `Step` states is the sample as given |
| ResponsiveAnalogRead.PicoResponsiveAnalogRead.IsSleeping | include/PicoResponsiveAnalogRead/PicoResponsiveAnalogRead.hpp:71-74 | returns the sleep state left by the last update, which `Respond` ties to `abs(errorEMA) < threshold` when sleep is enabled |
| ResponsiveAnalogRead.PicoResponsiveAnalogRead.HasChanged | include/PicoResponsiveAnalogRead/PicoResponsiveAnalogRead.hpp:67-70 | under the invariant, the flag holds exactly when the current output differs from the previous one |
| ResponsiveAnalogRead.PicoResponsiveAnalogRead.GetResponsiveValue | include/PicoResponsiveAnalogRead/PicoResponsiveAnalogRead.hpp:86-160 | the fields after the stage-by-stage update equal `Respond` of the old state, and the return value is the truncated new smoothed value |
| ResponsiveAnalogRead.PicoResponsiveAnalogRead.SmoothToward | include/PicoResponsiveAnalogRead/PicoResponsiveAnalogRead.hpp:138-156 | the awake stages leave `smoothValue` equal to the clamped EMA step, and change no other field |
| ResponsiveAnalogRead.PicoResponsiveAnalogRead.Update | include/PicoResponsiveAnalogRead/PicoResponsiveAnalogRead.hpp:173-179 | from any state with a clamped multiplier, including one left stale by a direct `getResponsiveValue` call, the new state equals `Step` of the old state and satisfies the invariant |
| ResponsiveAnalogRead.PicoResponsiveAnalogRead.SetSnapMultiplier | include/PicoResponsiveAnalogRead/PicoResponsiveAnalogRead.hpp:182-191 | only the multiplier changes, and it becomes the clamped value; the invariant is kept when it held before |
| ResponsiveAnalogRead.PicoResponsiveAnalogRead.EnableSleep | include/PicoResponsiveAnalogRead/PicoResponsiveAnalogRead.hpp:192-195 | only `sleepEnable` changes, to true; the invariant is kept when it held before |
| ResponsiveAnalogRead.PicoResponsiveAnalogRead.DisableSleep | include/PicoResponsiveAnalogRead/PicoResponsiveAnalogRead.hpp:196-199 | only `sleepEnable` changes, to false; the invariant is kept when it held before |
| ResponsiveAnalogRead.PicoResponsiveAnalogRead.EnableEdgeSnap | include/PicoResponsiveAnalogRead/PicoResponsiveAnalogRead.hpp:200-203 | only `edgeSnapEnable` changes, to true; the invariant is kept when it held before |
| ResponsiveAnalogRead.PicoResponsiveAnalogRead.DisableEdgeSnap | include/PicoResponsiveAnalogRead/PicoResponsiveAnalogRead.hpp:206-209 | only `edgeSnapEnable` changes, to false; the invariant is kept when it held before |
| ResponsiveAnalogRead.PicoResponsiveAnalogRead.SetActivityThreshold | include/PicoResponsiveAnalogRead/PicoResponsiveAnalogRead.hpp:210-213 | only the threshold changes, to the given value, with no clamping; the invariant is kept when it held before |
| ResponsiveAnalogRead.PicoResponsiveAnalogRead.SetAnalogResolution | include/PicoResponsiveAnalogRead/PicoResponsiveAnalogRead.hpp:216-219 | only the resolution changes, with no clamping; the invariant is kept when it held before; the state stays in range exactly when the new range still covers the smoothed value |
| FilterProperties.Run | include/PicoResponsiveAnalogRead/PicoResponsiveAnalogRead.hpp:173-179 | a sequence of updates never changes the configuration or the multiplier's range, and leaves the last sample as `rawValue` |
| FilterProperties.RunStaysInRange | include/PicoResponsiveAnalogRead/PicoResponsiveAnalogRead.hpp:151-159 | from an in-range state, any sequence of samples, in range or not, keeps the smoothed value in range and the output in `[0, res-1]` |
| FilterProperties.AsleepFreezesOutput | include/PicoResponsiveAnalogRead/PicoResponsiveAnalogRead.hpp:110-120 | on the sleeping path the smoothed value and the output stay the same, `hasChanged` is false, and the error EMA still updates |
| FilterProperties.QuietSampleKeepsSleeping | include/PicoResponsiveAnalogRead/PicoResponsiveAnalogRead.hpp:106-113 | if the error EMA and the next deviation are both below the threshold, the filter sleeps and the new error EMA stays below the threshold |
| FilterProperties.RunFrozenUnderNoise | include/PicoResponsiveAnalogRead/PicoResponsiveAnalogRead.hpp:106-120 | once asleep, every later sample that deviates from the smoothed value by less than the threshold leaves the smoothed value and the output unchanged, and `hasChanged` false |
| FilterProperties.AwakeStepMovesToward | include/PicoResponsiveAnalogRead/PicoResponsiveAnalogRead.hpp:138-156 | an awake update moves the smoothed value toward the effective sample, never past it, and never increases the distance, even when that sample lies outside the range |
| FilterProperties.LargeJumpReachesSample | include/PicoResponsiveAnalogRead/PicoResponsiveAnalogRead.hpp:138-159 | once `diff * snapMultiplier >= 1`, an awake update jumps straight to an in-range sample |
| FilterProperties.FullScaleStepScenario | include/PicoResponsiveAnalogRead/PicoResponsiveAnalogRead.hpp:138-159 | multiplier 0.01, sleep off, initial state, sample 4095: the output becomes 4095 and `hasChanged` is set |
| FilterProperties.DirectCallThenUpdateScenario | include/PicoResponsiveAnalogRead/PicoResponsiveAnalogRead.hpp:86-179 | a fresh filter given 4095 through a direct `getResponsiveValue` call returns 4095 with the output left at 0; a later `update(10)` is accepted, outputs 10 and sets `hasChanged` |
| FilterProperties.EdgeSnapScenario | include/PicoResponsiveAnalogRead/PicoResponsiveAnalogRead.hpp:92-98 | with the defaults, edge snap maps 2 to 0, 1 to -2 and 4094 to 4096, and leaves 2000 alone; with sleep off, 2 stays 2; with threshold 4.5 the sample 1 becomes `trunc(-2.5) == -2`, rounding toward zero |

## Left out

- The zero-argument `update()` reads the ADC: it selects the input and calls `adc_read`. That is hardware I/O. Apart from that read, it is `Update` with the sample as argument.
- `begin` calls `adc_gpio_init`, which is hardware I/O and is not modelled. The `gpioPin` and `adc_input` fields are only metadata for that I/O, so they are left out too.
- The field `lastActivityMS` is never used anywhere.
- IEEE single and double rounding, and the mix of float and double in the error EMA and the snap boost, are not modelled. All such values are exact `real`s.
- `abs(errorEMA)` is unqualified in the firmware. Depending on the toolchain it may bind to the integer overload and truncate. The model uses the real absolute value.
- Integer width is not modelled. `newValue * 2` could overflow `int`, and converting a difference of 2^32 or more to `unsigned int` is undefined. The model's integers are unbounded.
- FilterMath.SnapCurve: requires an argument other than -1, where the float division gives infinity. The model never calls it there: its argument is always non-negative.
- Reading uninitialised fields after the default constructor without `begin` is undefined behaviour. The model has one constructor, which sets every field, with the smoothed value and the outputs at 0.
- Convergence to a constant input is not proved. It needs a limit argument over reals. What is proved: each awake step does not increase the distance to it (`AwakeStepMovesToward`), and a large enough difference reaches the sample in one step (`LargeJumpReachesSample`).
