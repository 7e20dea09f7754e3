/** Properties of the filter over one and over many `update` calls. */
module FilterProperties {
  import opened FilterMath
  import opened ResponsiveAnalogRead

  /** The state after feeding the samples `vs` to `update` in order. */
  function Run(s: FilterState, vs: seq<int>): (r: FilterState)
    requires ConfigOk(s)
    ensures SameConfig(s, r) && ConfigOk(r)
    ensures vs != [] ==> r.rawValue == vs[|vs| - 1]
    decreases |vs|
  {
    if vs == [] then s else Run(Step(s, vs[0]), vs[1..])
  }

  /** Whatever the samples, the smooth value and the responsive value stay
      inside the output range once they start there. */
  lemma {:induction false} RunStaysInRange(s: FilterState, vs: seq<int>)
    requires Coherent(s) && InRange(s)
    ensures Coherent(Run(s, vs)) && InRange(Run(s, vs))
    ensures 0 <= Run(s, vs).responsiveValue < Run(s, vs).analogResolution
    decreases |vs|
  {
    if vs == [] {
      assert Trunc(s.smoothValue) <= s.analogResolution - 1;
    } else {
      RunStaysInRange(Step(s, vs[0]), vs[1..]);
    }
  }

  /** The sleeping short cut freezes the smooth value, the output and the
      change flag, while the error EMA keeps tracking the input. */
  lemma AsleepFreezesOutput(s: FilterState, v: int)
    requires Coherent(s) && Asleep(s, v)
    ensures Step(s, v).smoothValue == s.smoothValue
    ensures Step(s, v).responsiveValue == s.responsiveValue
    ensures !Step(s, v).hasChanged && Step(s, v).sleeping
    ensures Step(s, v).errorEMA == NextErrorEma(s, v)
  {
  }

  /** A sleeping filter whose next effective sample deviates from the smooth
      value by less than the activity threshold stays asleep. */
  lemma QuietSampleKeepsSleeping(s: FilterState, v: int)
    requires ConfigOk(s) && s.sleepEnable
    requires Abs(s.errorEMA) < s.activityThreshold
    requires Abs(EffectiveSample(s, v) as real - s.smoothValue) < s.activityThreshold
    ensures Asleep(s, v)
    ensures Abs(Step(s, v).errorEMA) < s.activityThreshold
  {
    var d := EffectiveSample(s, v) as real - s.smoothValue;
    assert NextErrorEma(s, v) == 0.6 * s.errorEMA + 0.4 * d;
  }

  /** Once asleep with a small error, small-amplitude noise never moves the
      output: every later update keeps the smooth and responsive values. */
  lemma {:induction false} RunFrozenUnderNoise(s: FilterState, vs: seq<int>)
    requires Coherent(s) && s.sleepEnable
    requires Abs(s.errorEMA) < s.activityThreshold
    requires forall i :: 0 <= i < |vs| ==>
               Abs(EffectiveSample(s, vs[i]) as real - s.smoothValue) < s.activityThreshold
    ensures Run(s, vs).smoothValue == s.smoothValue
    ensures Run(s, vs).responsiveValue == s.responsiveValue
    ensures vs != [] ==> !Run(s, vs).hasChanged && Run(s, vs).sleeping
    decreases |vs|
  {
    if vs != [] {
      var next := Step(s, vs[0]);
      QuietSampleKeepsSleeping(s, vs[0]);
      AsleepFreezesOutput(s, vs[0]);
      assert forall x :: EffectiveSample(next, x) == EffectiveSample(s, x);
      assert forall i :: 0 <= i < |vs[1..]| ==> vs[1..][i] == vs[i + 1];
      RunFrozenUnderNoise(next, vs[1..]);
    }
  }

  /** Awake, one update moves the smooth value toward the effective sample
      and never past it, even when edge snap or the caller puts that sample
      outside the output range: the clamp then stops at an edge that lies
      between the two. */
  lemma AwakeStepMovesToward(s: FilterState, v: int)
    requires ConfigOk(s) && InRange(s) && !Asleep(s, v)
    ensures var w := EffectiveSample(s, v) as real;
            var r := Step(s, v).smoothValue;
            (s.smoothValue <= w ==> s.smoothValue <= r <= w) &&
            (w <= s.smoothValue ==> w <= r <= s.smoothValue) &&
            Abs(r - w) <= Abs(s.smoothValue - w)
  {
  }

  /** A difference large enough to saturate the snap curve makes the output
      jump straight to an in-range effective sample. */
  lemma LargeJumpReachesSample(s: FilterState, v: int)
    requires ConfigOk(s) && !Asleep(s, v)
    requires 0 <= EffectiveSample(s, v) < s.analogResolution
    requires 1.0 <= UnsignedDiff(EffectiveSample(s, v), s.smoothValue) as real * s.snapMultiplier
    ensures Step(s, v).smoothValue == EffectiveSample(s, v) as real
    ensures Step(s, v).responsiveValue == EffectiveSample(s, v)
  {
  }

  /** A fresh filter with multiplier 0.01 and sleep disabled reaches 4095 in
      one update from 4095: the difference 4095 scales to 40.95, which
      saturates the snap curve. */
  lemma FullScaleStepScenario()
    ensures Step(Initial(false, DefaultSnapMultiplier), 4095).responsiveValue == 4095
    ensures Step(Initial(false, DefaultSnapMultiplier), 4095).hasChanged
  {
    var s := Initial(false, DefaultSnapMultiplier);
    assert UnsignedDiff(4095, 0.0) == 4095;
    LargeJumpReachesSample(s, 4095);
  }

  /** With the default threshold 4 and resolution 4096, edge snap maps the
      sample 2 to 0, the sample 1 to -2 and 4094 to 4096. With threshold 4.5
      the sample 1 becomes `trunc(-2.5) == -2`: rounding is toward zero. */
  lemma EdgeSnapScenario()
    ensures EffectiveSample(Initial(true, DefaultSnapMultiplier), 2) == 0
    ensures EffectiveSample(Initial(true, DefaultSnapMultiplier), 1) == -2
    ensures EffectiveSample(Initial(true, DefaultSnapMultiplier), 4094) == 4096
    ensures EffectiveSample(Initial(true, DefaultSnapMultiplier), 2000) == 2000
    ensures EffectiveSample(Initial(false, DefaultSnapMultiplier), 2) == 2
    ensures EdgeAdjust(1, DefaultAnalogResolution, 4.5) == -2
  {
    assert Trunc(0.0) == 0;
    assert Trunc(-2.0) == -2;
    assert Trunc(4096.0) == 4096;
    assert Trunc(-2.5) == -2;
  }

  /** `getResponsiveValue` is public, so a caller may run it outside `update`:
      it moves the smooth value to 4095 and leaves the output stale at 0.
      A later `update(10)` is still accepted, compares against that stale
      output and restores the object invariant. */
  method DirectCallThenUpdateScenario() returns (direct: int, out: int, changed: bool)
    ensures direct == 4095 && out == 10 && changed
  {
    var f := new PicoResponsiveAnalogRead(false);
    assert UnsignedDiff(4095, 0.0) == 4095;
    LargeJumpReachesSample(f.State(), 4095);
    direct := f.GetResponsiveValue(4095);
    assert f.responsiveValue == 0 && f.smoothValue == 4095.0;
    assert UnsignedDiff(10, 4095.0) == 4085;
    LargeJumpReachesSample(f.State(), 10);
    f.Update(10);
    out := f.GetValue();
    changed := f.HasChanged();
  }
}
