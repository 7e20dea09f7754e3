/** The responsive analog filter: the per-sample state machine that turns a
    noisy ADC stream into a stable output. `FilterState` is the abstract value
    of one filter object, `Respond` and `Step` specify one call of
    `getResponsiveValue` and of `update(int)`, and the class
    `PicoResponsiveAnalogRead` updates its fields in place as the firmware
    does and is proved against those functions. */
module ResponsiveAnalogRead {
  import opened FilterMath

  const DefaultAnalogResolution: int := 4096
  const DefaultActivityThreshold: real := 4.0
  const DefaultSnapMultiplier: real := 0.01

  datatype FilterState = FilterState(
    analogResolution: int,
    snapMultiplier: real,
    sleepEnable: bool,
    activityThreshold: real,
    edgeSnapEnable: bool,
    smoothValue: real,
    errorEMA: real,
    sleeping: bool,
    rawValue: int,
    responsiveValue: int,
    prevResponsiveValue: int,
    hasChanged: bool)

  /** The only invariant every setter keeps: the snap multiplier is clamped. */
  predicate ConfigOk(s: FilterState) {
    0.0 <= s.snapMultiplier <= 1.0
  }

  /** The object invariant: the output is the truncated smooth value and the
      change flag compares it with the previous output. */
  predicate Coherent(s: FilterState) {
    && ConfigOk(s)
    && s.responsiveValue == Trunc(s.smoothValue)
    && (s.hasChanged <==> s.responsiveValue != s.prevResponsiveValue)
  }

  /** The smooth value lies inside the output range of the resolution. */
  predicate InRange(s: FilterState) {
    1 <= s.analogResolution && 0.0 <= s.smoothValue <= (s.analogResolution - 1) as real
  }

  /** The five configuration fields agree. */
  predicate SameConfig(s: FilterState, t: FilterState) {
    && s.analogResolution == t.analogResolution
    && s.snapMultiplier == t.snapMultiplier
    && s.sleepEnable == t.sleepEnable
    && s.activityThreshold == t.activityThreshold
    && s.edgeSnapEnable == t.edgeSnapEnable
  }

  /** A freshly constructed filter. The firmware leaves the smooth value and
      the outputs uninitialised; this model starts them at 0. */
  function Initial(sleepEnable: bool, snapMultiplier: real): (s: FilterState)
    ensures Coherent(s) && InRange(s)
    ensures 0.0 <= snapMultiplier <= 1.0 ==> s.snapMultiplier == snapMultiplier
    ensures !s.sleeping && s.errorEMA == 0.0 && !s.hasChanged
  {
    FilterState(
      analogResolution := DefaultAnalogResolution,
      snapMultiplier := ClampUnit(snapMultiplier),
      sleepEnable := sleepEnable,
      activityThreshold := DefaultActivityThreshold,
      edgeSnapEnable := true,
      smoothValue := 0.0,
      errorEMA := 0.0,
      sleeping := false,
      rawValue := 0,
      responsiveValue := 0,
      prevResponsiveValue := 0,
      hasChanged := false)
  }

  /** The sample after the optional edge-snap pre-adjustment. */
  function EffectiveSample(s: FilterState, v: int): int {
    if s.sleepEnable && s.edgeSnapEnable then EdgeAdjust(v, s.analogResolution, s.activityThreshold)
    else v
  }

  /** The error EMA after one sample; it follows the deviation of the
      effective sample from the smooth value. */
  function NextErrorEma(s: FilterState, v: int): real {
    Ema(s.errorEMA, EffectiveSample(s, v) as real - s.smoothValue, ErrorEmaFactor)
  }

  /** The call takes the sleeping short cut and leaves the smooth value alone. */
  predicate Asleep(s: FilterState, v: int) {
    s.sleepEnable && Abs(NextErrorEma(s, v)) < s.activityThreshold
  }

  /** The responsiveness factor of the primary EMA for a truncated
      difference `diff`. */
  function SnapFactor(diff: nat, snapMultiplier: real, sleepEnable: bool): (snap: real)
    requires 0.0 <= snapMultiplier <= 1.0
    ensures 0.0 <= snap <= 1.0
    ensures 1.0 <= diff as real * snapMultiplier ==> snap == 1.0
    ensures diff == 0 || snapMultiplier == 0.0 ==> snap == 0.0
  {
    var snap := SnapCurve(diff as real * snapMultiplier);
    if sleepEnable then snap * SleepSnapBoost else snap
  }

  /** The primary EMA before the clamp: a convex step from the smooth value
      toward the sample, which reaches the sample once the scaled difference
      saturates the snap curve. */
  function Smoothed(smooth: real, sample: int, snapMultiplier: real, sleepEnable: bool): (r: real)
    requires 0.0 <= snapMultiplier <= 1.0
    ensures smooth <= sample as real ==> smooth <= r <= sample as real
    ensures sample as real <= smooth ==> sample as real <= r <= smooth
    ensures 1.0 <= UnsignedDiff(sample, smooth) as real * snapMultiplier ==> r == sample as real
  {
    Ema(smooth, sample as real, SnapFactor(UnsignedDiff(sample, smooth), snapMultiplier, sleepEnable))
  }

  /** `getResponsiveValue`: the state after its updates of `errorEMA`,
      `sleeping` and `smoothValue`; its return value is the truncation of the
      resulting smooth value. */
  function Respond(s: FilterState, v: int): (r: FilterState)
    requires ConfigOk(s)
    ensures r == s.(errorEMA := r.errorEMA, sleeping := r.sleeping, smoothValue := r.smoothValue)
    ensures r.errorEMA == s.errorEMA + ((EffectiveSample(s, v) as real - s.smoothValue) - s.errorEMA) * 0.4
    ensures !(s.sleepEnable && s.edgeSnapEnable) ==> EffectiveSample(s, v) == v
    ensures s.sleepEnable ==> (r.sleeping <==> Abs(r.errorEMA) < s.activityThreshold)
    ensures !s.sleepEnable ==> r.sleeping == s.sleeping
    ensures Asleep(s, v) <==> r.sleepEnable && r.sleeping
    ensures Asleep(s, v) ==> r.smoothValue == s.smoothValue
    ensures !Asleep(s, v) ==> r.smoothValue == ClampRange(Smoothed(s.smoothValue, EffectiveSample(s, v), s.snapMultiplier, s.sleepEnable),
                                                        s.analogResolution)
    ensures !Asleep(s, v) && 1 <= s.analogResolution ==>
              0.0 <= r.smoothValue <= (s.analogResolution - 1) as real
    ensures InRange(s) ==> InRange(r)
  {
    var sample := EffectiveSample(s, v);
    var e := NextErrorEma(s, v);
    var sleeping := if s.sleepEnable then Abs(e) < s.activityThreshold else s.sleeping;
    if s.sleepEnable && sleeping then
      s.(errorEMA := e, sleeping := sleeping)
    else
      s.(errorEMA := e, sleeping := sleeping,
         smoothValue := ClampRange(Smoothed(s.smoothValue, sample, s.snapMultiplier, s.sleepEnable),
                                   s.analogResolution))
  }

  /** `getResponsiveValue` reads neither the raw value nor the outputs. */
  lemma RespondIgnoresOutputs(s: FilterState, t: FilterState, v: int)
    requires ConfigOk(s) && SameConfig(s, t)
    requires t.smoothValue == s.smoothValue && t.errorEMA == s.errorEMA && t.sleeping == s.sleeping
    ensures Respond(t, v) == Respond(s, v).(rawValue := t.rawValue, responsiveValue := t.responsiveValue,
                                            prevResponsiveValue := t.prevResponsiveValue, hasChanged := t.hasChanged)
  {
    assert EffectiveSample(t, v) == EffectiveSample(s, v);
    assert NextErrorEma(t, v) == NextErrorEma(s, v);
  }

  /** `update(int)`: one sample through the filter. */
  function Step(s: FilterState, v: int): (r: FilterState)
    requires ConfigOk(s)
    ensures SameConfig(s, r)
    ensures r.rawValue == v
    ensures r.prevResponsiveValue == s.responsiveValue
    ensures r.responsiveValue == Trunc(r.smoothValue)
    ensures r.hasChanged <==> r.responsiveValue != s.responsiveValue
    ensures Coherent(r)
    ensures Asleep(s, v) ==> r.smoothValue == s.smoothValue && r.responsiveValue == Trunc(s.smoothValue)
    ensures !Asleep(s, v) && 1 <= s.analogResolution ==> 0 <= r.responsiveValue < s.analogResolution
    ensures InRange(s) ==> InRange(r) && 0 <= r.responsiveValue < r.analogResolution
  {
    var next := Respond(s, v);
    var out := Trunc(next.smoothValue);
    assert InRange(next) ==> out <= next.analogResolution - 1;
    next.(rawValue := v, prevResponsiveValue := s.responsiveValue,
          responsiveValue := out, hasChanged := out != s.responsiveValue)
  }

  /** A filter object. Fields carry the firmware's names; the ADC pin and
      channel identifiers are not modelled. */
  class PicoResponsiveAnalogRead {
    var analogResolution: int
    var snapMultiplier: real
    var sleepEnable: bool
    var activityThreshold: real
    var edgeSnapEnable: bool
    var smoothValue: real
    var errorEMA: real
    var sleeping: bool
    var rawValue: int
    var responsiveValue: int
    var prevResponsiveValue: int
    var responsiveValueHasChanged: bool

    /** The abstract value of the object. */
    function State(): FilterState
      reads this
    {
      FilterState(analogResolution, snapMultiplier, sleepEnable, activityThreshold,
                  edgeSnapEnable, smoothValue, errorEMA, sleeping, rawValue,
                  responsiveValue, prevResponsiveValue, responsiveValueHasChanged)
    }

    predicate Valid()
      reads this
    {
      Coherent(State())
    }

    /** The field defaults followed by `begin`. */
    constructor (sleepEnable: bool, snapMultiplier: real := DefaultSnapMultiplier)
      ensures Valid()
      ensures State() == Initial(sleepEnable, snapMultiplier)
    {
      analogResolution := DefaultAnalogResolution;
      this.snapMultiplier := 0.0;
      this.sleepEnable := false;
      activityThreshold := DefaultActivityThreshold;
      edgeSnapEnable := true;
      smoothValue := 0.0;
      errorEMA := 0.0;
      sleeping := false;
      rawValue := 0;
      responsiveValue := 0;
      prevResponsiveValue := 0;
      responsiveValueHasChanged := false;
      new;
      Begin(sleepEnable, snapMultiplier);
    }

    /** `begin`, without the GPIO set-up: stores the sleep flag and the
      clamped snap multiplier. */
    method Begin(sleepEnable: bool, snapMultiplier: real := DefaultSnapMultiplier)
      requires ConfigOk(State())
      modifies this`sleepEnable, this`snapMultiplier
      ensures ConfigOk(State())
      ensures old(Valid()) ==> Valid()
      ensures State() == old(State()).(sleepEnable := sleepEnable, snapMultiplier := ClampUnit(snapMultiplier))
    {
      this.sleepEnable := sleepEnable;
      SetSnapMultiplier(snapMultiplier);
    }

    /** The responsive value of the last update, always inside the output
        range while the smooth value is. */
    function GetValue(): (r: int)
      reads this
      ensures Valid() ==> r == Trunc(smoothValue)
      ensures Valid() && InRange(State()) ==> 0 <= r < analogResolution
    {
      responsiveValue
    }

    /** The raw sample recorded by the last update. */
    function GetRawValue(): (r: int)
      reads this
      ensures r == State().rawValue
    {
      rawValue
    }

    /** Whether the last update changed the responsive value. */
    function HasChanged(): (r: bool)
      reads this
      ensures Valid() ==> (r <==> GetValue() != prevResponsiveValue)
    {
      responsiveValueHasChanged
    }

    /** The sleep state left by the last update. */
    function IsSleeping(): (r: bool)
      reads this
      ensures r == State().sleeping
    {
      sleeping
    }

    /** `getResponsiveValue`, stage by stage as the firmware runs it. */
    method GetResponsiveValue(newValue: int) returns (r: int)
      requires ConfigOk(State())
      modifies this`errorEMA, this`sleeping, this`smoothValue
      ensures State() == Respond(old(State()), newValue)
      ensures r == Trunc(smoothValue)
    {
      ghost var s0 := State();
      var sample := newValue;
      if sleepEnable && edgeSnapEnable {
        if (sample as real) < activityThreshold {
          sample := Trunc((sample * 2) as real - activityThreshold);
        } else if (sample as real) > analogResolution as real - activityThreshold {
          sample := Trunc((sample * 2 - analogResolution) as real + activityThreshold);
        }
      }
      assert sample == EffectiveSample(s0, newValue);

      errorEMA := Ema(errorEMA, sample as real - smoothValue, ErrorEmaFactor);
      assert errorEMA == NextErrorEma(s0, newValue);

      if sleepEnable {
        sleeping := Abs(errorEMA) < activityThreshold;
      }

      ghost var expected := Respond(s0, newValue);
      assert expected.errorEMA == errorEMA && expected.sleeping == sleeping;

      if sleepEnable && sleeping {
        assert State() == s0.(errorEMA := errorEMA, sleeping := sleeping);
        return Trunc(smoothValue);
      }

      SmoothToward(sample);
      assert expected.smoothValue == smoothValue;
      assert State() == s0.(errorEMA := errorEMA, sleeping := sleeping, smoothValue := smoothValue);
      return Trunc(smoothValue);
    }

    /** The awake half of `getResponsiveValue`: the snap curve on the
        truncated difference, the primary EMA and the output-bounds clamp. */
    method SmoothToward(sample: int)
      requires ConfigOk(State())
      modifies this`smoothValue
      ensures smoothValue == ClampRange(Smoothed(old(smoothValue), sample, snapMultiplier, sleepEnable),
                                        analogResolution)
    {
      var diff := UnsignedDiff(sample, smoothValue);
      var snap := SnapCurve(diff as real * snapMultiplier);
      if sleepEnable {
        snap := snap * SleepSnapBoost;
      }
      assert snap == SnapFactor(diff, snapMultiplier, sleepEnable);

      smoothValue := Ema(smoothValue, sample as real, snap);
      assert smoothValue == Smoothed(old(smoothValue), sample, snapMultiplier, sleepEnable);

      if smoothValue < 0.0 {
        smoothValue := 0.0;
      } else if smoothValue > (analogResolution - 1) as real {
        smoothValue := (analogResolution - 1) as real;
      }
    }

    /** `update(int)`: records the raw sample, remembers the previous output,
        filters and sets the change flag. */
    method Update(rawValueRead: int)
      requires ConfigOk(State())
      modifies this
      ensures Valid()
      ensures State() == Step(old(State()), rawValueRead)
    {
      ghost var before := State();
      rawValue := rawValueRead;
      prevResponsiveValue := responsiveValue;
      RespondIgnoresOutputs(before, State(), rawValueRead);
      responsiveValue := GetResponsiveValue(rawValue);
      responsiveValueHasChanged := responsiveValue != prevResponsiveValue;
    }

    /** Stores the multiplier clamped to `[0, 1]`. */
    method SetSnapMultiplier(newMultiplier: real)
      requires ConfigOk(State())
      modifies this`snapMultiplier
      ensures ConfigOk(State())
      ensures old(Valid()) ==> Valid()
      ensures State() == old(State()).(snapMultiplier := ClampUnit(newMultiplier))
    {
      var m := newMultiplier;
      if m > 1.0 {
        m := 1.0;
      }
      if m < 0.0 {
        m := 0.0;
      }
      snapMultiplier := m;
    }

    method EnableSleep()
      requires ConfigOk(State())
      modifies this`sleepEnable
      ensures ConfigOk(State())
      ensures old(Valid()) ==> Valid()
      ensures State() == old(State()).(sleepEnable := true)
    {
      sleepEnable := true;
    }

    method DisableSleep()
      requires ConfigOk(State())
      modifies this`sleepEnable
      ensures ConfigOk(State())
      ensures old(Valid()) ==> Valid()
      ensures State() == old(State()).(sleepEnable := false)
    {
      sleepEnable := false;
    }

    method EnableEdgeSnap()
      requires ConfigOk(State())
      modifies this`edgeSnapEnable
      ensures ConfigOk(State())
      ensures old(Valid()) ==> Valid()
      ensures State() == old(State()).(edgeSnapEnable := true)
    {
      edgeSnapEnable := true;
    }

    method DisableEdgeSnap()
      requires ConfigOk(State())
      modifies this`edgeSnapEnable
      ensures ConfigOk(State())
      ensures old(Valid()) ==> Valid()
      ensures State() == old(State()).(edgeSnapEnable := false)
    {
      edgeSnapEnable := false;
    }

    /** Any threshold is accepted; none is clamped. */
    method SetActivityThreshold(newThreshold: real)
      requires ConfigOk(State())
      modifies this`activityThreshold
      ensures ConfigOk(State())
      ensures old(Valid()) ==> Valid()
      ensures State() == old(State()).(activityThreshold := newThreshold)
    {
      activityThreshold := newThreshold;
    }

    /** Any resolution is accepted; the smooth value is not re-clamped, so the
        range invariant survives only a resolution that still covers it. */
    method SetAnalogResolution(resolution: int)
      requires ConfigOk(State())
      modifies this`analogResolution
      ensures ConfigOk(State())
      ensures old(Valid()) ==> Valid()
      ensures State() == old(State()).(analogResolution := resolution)
      ensures InRange(State()) <==> 1 <= resolution && 0.0 <= smoothValue <= (resolution - 1) as real
    {
      analogResolution := resolution;
    }
  }
}
