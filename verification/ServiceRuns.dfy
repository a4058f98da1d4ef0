/** Round trips of the brightness service: boosts, sleep, overrides; and light to device, end to end. */
module ServiceRuns {
  import opened Common
  import opened Tasks
  import opened Points
  import opened Arithmetic
  import opened LevelMaps
  import opened LightLuxManagers
  import opened CalculationCurves
  import opened CalculationManagers
  import opened BrightnessServices
  import opened ServiceInvariants
  import DimmingProperties
  import OffsetProperties

  ghost function Safe(c: Config, s: ServiceState, value: uint32): uint32 {
    SafeBrightness(c.minLimit, s.maxLimit, value)
  }

  // ---------- boost ----------

  /** Requests that leave a boost running and start no animation. */
  ghost predicate KeepsBoost(r: Request) {
    match r
    case Boost(duration) => duration == 0
    case DiscountBy(_, duration) => duration == 0
    case CancelBoost(_) => false
    case BoostEnd(_) => false
    case SetMax(_) => false
    case _ => true
  }

  /** The value of the last set request, or the default if there was none. */
  ghost function LastSet(es: seq<Event>, default: uint32): uint32 {
    if es == [] then default
    else
      var r := es[|es| - 1].request;
      if r.Set? then r.value else LastSet(es[..|es| - 1], default)
  }

  /** A boost is on, nothing is animated, and every scheduled end is instant. */
  ghost predicate Boosting(s: ServiceState, setting: uint32, cached: uint32) {
    && BoostConsistent(s) && s.boosted
    && !s.dim.dimming && s.dim.tasks.pending == {}
    && s.setting == setting && s.cached == cached
    && forall task :: task in s.boostTasks.pending ==> s.boostDurations[task] == 0
  }

  lemma InstantUpdateIdles(c: Config, s: ServiceState, value: uint32, updateSetting: bool, ok: bool)
    requires DimmingProperties.Consistent(s.dim)
    ensures var t := Updated(c, s, value, 0, updateSetting, ok).next;
            !t.dim.dimming && t.dim.tasks.pending == {}
  {
    UpdatedKeepsDimming(c, s, value, 0, updateSetting, ok);
    UpdatedAtOnce(c, s, value, updateSetting, ok);
  }

  lemma BoostBegins(c: Config, s: ServiceState, ok: bool)
    requires Invariant(s) && IsScreenOnState(s.display) && !s.overridden && !s.boosted
    ensures Boosting(BoostStarted(c, s, 0, ok).next, s.setting, s.cached)
  {
    var t := s.(boosted := true);
    UpdatedTouches(c, t, c.maxParam, 0, false, ok);
    InstantUpdateIdles(c, t, c.maxParam, false, ok);
  }

  lemma BoostSurvivesDiscount(c: Config, s: ServiceState, factor: real, ok: bool)
    requires Boosting(s, s.setting, s.cached)
    ensures Boosting(Discounted(c, s, factor, 0, ok).next, s.setting, s.cached)
  {
    var t := s.(discount := SafeDiscount(factor));
    UpdatedTouches(c, t, ScreenOnBrightness(c, t), 0, false, ok);
    InstantUpdateIdles(c, t, ScreenOnBrightness(c, t), false, ok);
  }

  lemma BoostSurvivesDisplay(c: Config, s: ServiceState, state: DisplayState, ok: bool)
    requires Boosting(s, s.setting, s.cached)
    ensures Boosting(DisplaySet(c, s, state, ok), s.setting, s.cached)
  {
    SensorsTouch(c, s.(display := state));
  }

  lemma BoostSurvivesBoost(c: Config, s: ServiceState, ok: bool)
    requires Boosting(s, s.setting, s.cached)
    ensures Boosting(BoostStarted(c, s, 0, ok).next, s.setting, s.cached)
  {
  }

  lemma BoostStays(c: Config, s: ServiceState, e: Event)
    requires Boosting(s, s.setting, s.cached) && KeepsBoost(e.request)
    ensures Boosting(Step(c, s, e), s.setting, if e.request.Set? then e.request.value else s.cached)
  {
    match e.request
    case DiscountBy(factor, _) => BoostSurvivesDiscount(c, s, factor, e.ok);
    case SetDisplay(state) => BoostSurvivesDisplay(c, s, state, e.ok);
    case Boost(_) => BoostSurvivesBoost(c, s, e.ok);
    case Set(_, _, _) =>
    case Override(_, _) =>
    case Restore(_) =>
    case Lux(_, _) =>
    case DimTick(_) =>
    case AutoAdjust(_) =>
    case ClearUserOffset =>
  }

  lemma {:induction false} BoostRuns(c: Config, s: ServiceState, es: seq<Event>)
    requires Boosting(s, s.setting, s.cached) && forall i :: 0 <= i < |es| ==> KeepsBoost(es[i].request)
    ensures Boosting(After(c, s, es), s.setting, LastSet(es, s.cached))
    decreases |es|
  {
    if es != [] {
      var front := es[..|es| - 1];
      BoostRuns(c, s, front);
      BoostStays(c, After(c, s, front), es[|es| - 1]);
    }
  }

  /** The boost is ended at once by a request, or by its own timer. */
  ghost predicate EndsBoost(s: ServiceState, r: Request) {
    r == CancelBoost(0) || (r.BoostEnd? && r.task in s.boostTasks.pending)
  }

  /**
   * Ending a boost applies the last value set during it, or the one cached before it if none was,
   * clamped to the limits; until then the persisted setting does not move.
   */
  lemma BoostDefersSets(c: Config, s: ServiceState, started: bool, es: seq<Event>, end: Event)
    requires Invariant(s) && IsScreenOnState(s.display) && !s.overridden && !s.boosted
    requires forall i :: 0 <= i < |es| ==> KeepsBoost(es[i].request)
    requires EndsBoost(After(c, Step(c, s, Event(Boost(0), started)), es), end.request)
    ensures var b := After(c, Step(c, s, Event(Boost(0), started)), es);
            var t := Step(c, b, end);
            var value := Safe(c, b, LastSet(es, s.cached));
            && b.boosted && b.setting == s.setting
            && !t.boosted && t.boostTasks.pending == {}
            && (end.ok ==> t.setting == t.cached == value && t.device == DeviceLevel(c.minParam, b.discount, value))
            && (!end.ok ==> t.setting == s.setting && t.device == b.device)
  {
    var b0 := Step(c, s, Event(Boost(0), started));
    BoostBegins(c, s, started);
    BoostRuns(c, b0, es);
    var b := After(c, b0, es);
    var q := if end.request.BoostEnd? then Fired(b.boostTasks, end.request.task) else b.boostTasks;
    var t := b.(boosted := false, boostTasks := Cancelled(q));
    UpdatedTouches(c, t, b.cached, 0, true, end.ok);
    UpdatedAtOnce(c, t, b.cached, true, end.ok);
  }

  // ---------- sleep ----------

  /** Animations run only while asleep, so none of them writes the setting. */
  ghost predicate Quiet(s: ServiceState, setting: uint32) {
    Invariant(s) && s.setting == setting && (s.dim.dimming ==> s.sleep)
  }

  ghost predicate DimOrTick(r: Request) {
    r == SetDisplay(Dim) || r.DimTick?
  }

  lemma SensorsTouch(c: Config, s: ServiceState)
    ensures var t := SensorsFollow(c, s); t == s.(sensorEnabled := t.sensorEnabled, lux := t.lux)
  {
  }

  /** Sleep lowers the brightness: by the configured reduction, to the sleep level at most, and to one at least. */
  lemma SleepLowers(c: Config, setting: uint32)
    requires MIN_LEVEL < setting && 1 <= c.sleepReduction
    ensures MIN_LEVEL <= SleepLevel(c, setting) < setting
    ensures SleepLevel(c, setting) == MIN_LEVEL ||
            (SleepLevel(c, setting) <= c.sleepBrightness && SleepLevel(c, setting) + c.sleepReduction <= setting)
  {
  }

  /** Asking for a dimmed display keeps the setting, and silences an animation unless the setting is minimal. */
  lemma DimRequested(c: Config, s: ServiceState, ok: bool)
    requires Invariant(s) && Visible(c.points) && (Quiet(s, s.setting) || s.setting > MIN_LEVEL)
    ensures Quiet(DisplaySet(c, s, Dim, ok), s.setting)
  {
    DisplaySetKeepsInvariant(c, s, Dim, ok);
    var t := SensorsFollow(c, s.(display := Dim));
    SensorsTouch(c, s.(display := Dim));
    if t.setting > MIN_LEVEL && !t.boosted {
      var value := SleepLevel(c, t.setting);
      UpdatedTouches(c, t.(sleep := true, overridden := true, overriddenValue := value, before := t.setting), value,
                     c.sleepDarkenTime, false, ok);
    }
  }

  lemma SleepStep(c: Config, s: ServiceState, e: Event)
    requires Invariant(s) && Visible(c.points) && DimOrTick(e.request)
    requires Quiet(s, s.setting) || (e.request == SetDisplay(Dim) && s.setting > MIN_LEVEL)
    ensures Quiet(Step(c, s, e), s.setting)
  {
    StepKeepsInvariant(c, s, e);
    if e.request.SetDisplay? {
      DimRequested(c, s, e.ok);
    } else if e.request.task in s.dim.tasks.pending {
      TickAsleep(s, e.request.task, e.ok);
    }
  }

  /** Asleep, a tick writes no setting, and only a running animation has one pending. */
  lemma TickAsleep(s: ServiceState, task: nat, ok: bool)
    requires Quiet(s, s.setting) && task in s.dim.tasks.pending
    ensures DimFired(s, task, ok).setting == s.setting && DimFired(s, task, ok).sleep
  {
  }

  lemma {:induction false} SleepRuns(c: Config, s: ServiceState, es: seq<Event>)
    requires Invariant(s) && Visible(c.points)
    requires Quiet(s, s.setting) || (es != [] && es[0].request == SetDisplay(Dim) && s.setting > MIN_LEVEL)
    requires forall i :: 0 <= i < |es| ==> DimOrTick(es[i].request)
    ensures Quiet(After(c, s, es), s.setting)
    decreases |es|
  {
    if es != [] {
      var front, e := es[..|es| - 1], es[|es| - 1];
      if front != [] || Quiet(s, s.setting) {
        assert front != [] ==> front[0] == es[0];
        SleepRuns(c, s, front);
      }
      SleepStep(c, After(c, s, front), e);
    }
  }

  /**
   * However often the display dims and the dimming ticks, waking up or turning off ends the sleep
   * with the persisted setting it began with, clamped to the limits if an override is restored.
   */
  lemma SleepRoundTrip(c: Config, s: ServiceState, es: seq<Event>, wake: Event)
    requires Invariant(s) && Visible(c.points)
    requires !s.dim.dimming || s.sleep || (es != [] && es[0].request == SetDisplay(Dim) && s.setting > MIN_LEVEL)
    requires forall i :: 0 <= i < |es| ==> DimOrTick(es[i].request)
    requires wake.request == SetDisplay(On) || wake.request == SetDisplay(Off)
    ensures var z := After(c, s, es);
            var t := Step(c, z, wake);
            && !t.sleep
            && t.setting == (if wake.request == SetDisplay(On) && z.sleep && z.overridden && wake.ok
                             then Safe(c, z, s.setting) else s.setting)
            && (z.sleep ==> !t.overridden)
  {
    SleepRuns(c, s, es);
    var z := After(c, s, es);
    var t := SensorsFollow(c, z.(display := wake.request.state));
    SensorsTouch(c, z.(display := wake.request.state));
    var u := t.(displayOnFirst := true, overridden := false);
    UpdatedTouches(c, u, u.before, 0, true, wake.ok);
    UpdatedAtOnce(c, u, u.before, true, wake.ok);
  }

  // ---------- override and restore ----------

  /** Requests that an override outlives without any animation being started. */
  ghost predicate KeepsOverride(r: Request) {
    match r
    case Override(_, duration) => duration == 0
    case DiscountBy(_, duration) => duration == 0
    case SetDisplay(_) => false
    case Set(_, _, _) => false
    case Restore(_) => false
    case SetMax(_) => false
    case _ => true
  }

  ghost predicate Overriding(s: ServiceState, setting: uint32) {
    && BoostConsistent(s) && s.overridden && !s.boosted && IsScreenOnState(s.display)
    && !s.dim.dimming && s.dim.tasks.pending == {}
    && s.setting == s.before == setting
  }

  lemma OverrideBegins(c: Config, s: ServiceState, value: uint32, ok: bool)
    requires Invariant(s) && IsScreenOnState(s.display) && !s.boosted
    ensures Overriding(Overrode(c, s, value, 0, ok).next, s.setting)
  {
    var t := s.(overridden := true, overriddenValue := value, before := s.setting);
    UpdatedTouches(c, t, value, 0, false, ok);
    InstantUpdateIdles(c, t, value, false, ok);
  }

  lemma OverrideStays(c: Config, s: ServiceState, e: Event, setting: uint32)
    requires Overriding(s, setting) && KeepsOverride(e.request)
    ensures Overriding(Step(c, s, e), setting) && Step(c, s, e).maxLimit == s.maxLimit
    ensures e.request.Lux? ==> Step(c, s, e) == s
  {
    match e.request
    case DiscountBy(factor, _) =>
      var t := s.(discount := SafeDiscount(factor));
      UpdatedTouches(c, t, ScreenOnBrightness(c, t), 0, false, e.ok);
      InstantUpdateIdles(c, t, ScreenOnBrightness(c, t), false, e.ok);
    case Override(value, _) =>
      var t := s.(overriddenValue := value, before := s.setting);
      UpdatedTouches(c, t, value, 0, false, e.ok);
      InstantUpdateIdles(c, t, value, false, e.ok);
    case _ =>
  }

  lemma {:induction false} OverrideRuns(c: Config, s: ServiceState, es: seq<Event>, setting: uint32)
    requires Overriding(s, setting) && forall i :: 0 <= i < |es| ==> KeepsOverride(es[i].request)
    ensures Overriding(After(c, s, es), setting) && After(c, s, es).maxLimit == s.maxLimit
    decreases |es|
  {
    if es != [] {
      OverrideRuns(c, s, es[..|es| - 1], setting);
      OverrideStays(c, After(c, s, es[..|es| - 1]), es[|es| - 1], setting);
    }
  }

  /** Any number of instant overrides and discounts, then a restore: the setting from before them is back. */
  lemma RestoreUndoesOverrides(c: Config, s: ServiceState, first: Event, es: seq<Event>, restored: Event)
    requires Invariant(s) && IsScreenOnState(s.display) && !s.boosted
    requires first.request.Override? && first.request.duration == 0
    requires forall i :: 0 <= i < |es| ==> KeepsOverride(es[i].request)
    requires restored.request == Restore(0)
    ensures var b := After(c, Step(c, s, first), es);
            var t := Step(c, b, restored);
            var value := Safe(c, s, s.setting);
            && b.overridden && b.setting == s.setting && !t.overridden
            && (restored.ok ==> t.setting == value && t.device == DeviceLevel(c.minParam, b.discount, value))
            && (!restored.ok ==> t.setting == s.setting && t.device == b.device)
  {
    var b0 := Step(c, s, first);
    OverrideBegins(c, s, first.request.value, first.ok);
    UpdatedTouches(c, s.(overridden := true, overriddenValue := first.request.value, before := s.setting),
                   first.request.value, 0, false, first.ok);
    OverrideRuns(c, b0, es, s.setting);
    var b := After(c, b0, es);
    UpdatedTouches(c, b.(overridden := false), b.before, 0, true, restored.ok);
    UpdatedAtOnce(c, b.(overridden := false), b.before, true, restored.ok);
  }

  /** The light sensor's data is as before, or cleared because the sensor went off. */
  ghost predicate LuxKeptOrCleared(s: ServiceState, t: ServiceState) {
    t.lux == s.lux || t.lux == Cleared(s.lux)
  }

  /** Requests that do not take a new setting to restore. */
  ghost predicate KeepsBefore(r: Request) {
    !r.Override? && r != SetDisplay(Dim)
  }

  lemma DisplayKeepsBefore(c: Config, s: ServiceState, state: DisplayState, ok: bool)
    requires state != Dim
    ensures DisplaySet(c, s, state, ok).before == s.before
    ensures LuxKeptOrCleared(s, DisplaySet(c, s, state, ok))
  {
    var t := SensorsFollow(c, s.(display := state));
    SensorsTouch(c, s.(display := state));
    WakingKeepsBefore(c, t, ok);
    WakingKeepsSensor(c, t, ok);
  }

  lemma WakingKeepsBefore(c: Config, s: ServiceState, ok: bool)
    ensures TurnedOn(c, s, ok).before == s.before
  {
    UpdatedTouches(c, s.(displayOnFirst := true, overridden := false), s.before, 0, true, ok);
  }

  lemma LuxKeepsBefore(c: Config, s: ServiceState, now: int, lux: real, ok: bool)
    ensures LuxProcessed(c, s, now, lux, ok).before == s.before
  {
    var o := Reading(s.lux, c.mode, now, lux);
    var t := s.(lux := o.next);
    var first, level := o.next.isFirstLux, AutoLevel(c, t, lux);
    var u := t.(offset := Evaluated(t.offset, c.weights, c.points, lux));
    UpdatedTouches(c, LevelAdopted(u, level, first), level, LuxDuration(u, level, first), true, ok);
  }

  lemma MaxKeepsBefore(c: Config, s: ServiceState, factor: real, ok: bool)
    ensures MaxSet(c, s, factor, ok).next.before == s.before && MaxSet(c, s, factor, ok).next.lux == s.lux
  {
    var t := s.(maxLimit := Min(NewMaxLimit(c, factor), MAX_DEFAULT_LEVEL));
    UpdatedTouches(c, t, t.maxLimit, DEFAULT_MAX_BRIGHTNESS_DURATION, true, ok);
    UpdatedTouches(c, t, t.current, DEFAULT_MAX_BRIGHTNESS_DURATION, true, ok);
  }

  lemma BoostKeepsBefore(c: Config, s: ServiceState, e: Event)
    requires e.request.Boost? || e.request.CancelBoost? || e.request.BoostEnd?
    ensures Step(c, s, e).before == s.before && Step(c, s, e).lux == s.lux
  {
    match e.request
    case Boost(duration) =>
      UpdatedTouches(c, s.(boosted := true), c.maxParam, duration, false, e.ok);
    case CancelBoost(duration) =>
      UpdatedTouches(c, s.(boosted := false, boostTasks := Cancelled(s.boostTasks)), s.cached, duration, true, e.ok);
    case BoostEnd(task) =>
      if task in s.boostTasks.pending && task in s.boostDurations {
        var t := s.(boosted := false, boostTasks := Cancelled(Fired(s.boostTasks, task)));
        UpdatedTouches(c, t, s.cached, s.boostDurations[task], true, e.ok);
      }
  }

  lemma LevelRequestKeepsBefore(c: Config, s: ServiceState, e: Event)
    requires e.request.Set? || e.request.Restore? || e.request.DiscountBy?
    ensures Step(c, s, e).before == s.before && Step(c, s, e).lux == s.lux
  {
    match e.request
    case Set(value, duration, continuous) =>
      UpdatedTouches(c, UserPlaced(c, s, value, duration), value, duration, !continuous, e.ok);
    case Restore(duration) => UpdatedTouches(c, s.(overridden := false), s.before, duration, true, e.ok);
    case DiscountBy(factor, duration) =>
      var t := s.(discount := SafeDiscount(factor));
      UpdatedTouches(c, t, ScreenOnBrightness(c, t), duration, false, e.ok);
  }

  lemma StepKeepsBefore(c: Config, s: ServiceState, e: Event)
    requires KeepsBefore(e.request)
    ensures Step(c, s, e).before == s.before
  {
    var r := e.request;
    if r.DimTick? {
      TickTouches(s, r.task, e.ok);
    } else if r.Set? || r.Restore? || r.DiscountBy? {
      LevelRequestKeepsBefore(c, s, e);
    } else if r.Boost? || r.CancelBoost? || r.BoostEnd? {
      BoostKeepsBefore(c, s, e);
    } else if r.SetDisplay? {
      DisplayKeepsBefore(c, s, r.state, e.ok);
    } else if r.Lux? {
      LuxKeepsBefore(c, s, r.now, r.lux, e.ok);
    } else if r.SetMax? {
      MaxKeepsBefore(c, s, r.factorOfFull, e.ok);
    }
  }

  lemma {:induction false} RunKeepsBefore(c: Config, s: ServiceState, es: seq<Event>)
    requires forall i :: 0 <= i < |es| ==> KeepsBefore(es[i].request)
    ensures After(c, s, es).before == s.before
    decreases |es|
  {
    if es != [] {
      RunKeepsBefore(c, s, es[..|es| - 1]);
      StepKeepsBefore(c, After(c, s, es[..|es| - 1]), es[|es| - 1]);
    }
  }

  /**
   * With animations of any duration, a restore brings back the setting as it was at the last override,
   * to which the animations of earlier ones may have moved it.
   */
  lemma RestoreReturnsToLastOverride(c: Config, s: ServiceState, last: Event, es: seq<Event>)
    requires last.request.Override? && IsScreenOnState(s.display) && !s.boosted
    requires forall i :: 0 <= i < |es| ==> KeepsBefore(es[i].request)
    requires After(c, Step(c, s, last), es).overridden
    ensures var b := After(c, Step(c, s, last), es);
            Step(c, b, Event(Restore(0), true)).setting == Safe(c, b, s.setting)
  {
    var t := s.(overridden := true, overriddenValue := last.request.value, before := s.setting);
    UpdatedTouches(c, t, last.request.value, last.request.duration, false, last.ok);
    RunKeepsBefore(c, Step(c, s, last), es);
    var b := After(c, Step(c, s, last), es);
    UpdatedAtOnce(c, b.(overridden := false), b.before, true, true);
  }

  // ---------- light to device ----------

  /** The device level that a lux reading asks for, through curve, offset, clamp, discount and level map. */
  ghost function DeviceFor(c: Config, s: ServiceState, lux: real): uint32 {
    DeviceLevel(c.minParam, s.discount, Safe(c, s, AutoLevel(c, s, lux)))
  }

  lemma DiscountIsMonotone(discount: Discount, a: uint32, b: uint32)
    requires a <= b
    ensures DiscountedLevel(discount, a) <= DiscountedLevel(discount, b)
  {
    var x, y := Share(discount, a as real), Share(discount, b as real);
    ShareRises(discount, a as real, b as real);
    FloorsInOrder(x.Floor, y.Floor, x, y);
  }

  lemma DeviceLevelIsMonotone(minParam: uint32, discount: Discount, a: uint32, b: uint32)
    requires a <= b
    ensures DeviceLevel(minParam, discount, a) <= DeviceLevel(minParam, discount, b)
  {
    DiscountIsMonotone(discount, a, b);
    ToDeviceIsMonotone(SHIPPED, minParam, DiscountedLevel(discount, a), DiscountedLevel(discount, b));
  }

  /**
   * In every reachable state, more light never asks for a lower device level, provided the darker
   * reading is on the curve or the curve starts smoothly.
   */
  lemma DeviceIsMonotone(c: Config, start: ServiceState, es: seq<Event>, a: real, b: real)
    requires Invariant(start) && Visible(c.points) && Rising(c.points) && c.points != []
    requires 0.0 <= a <= b && (c.points[0].x <= a || StartsSmoothly(c.points))
    requires OffsetProperties.Admissible(c.weights, After(c, start, es).offset.position)
    ensures DeviceFor(c, After(c, start, es), a) <= DeviceFor(c, After(c, start, es), b)
  {
    var s := After(c, start, es);
    RunKeepsInvariant(c, start, es);
    CurveIsMonotoneFromZero(c.points, a, b);
    OffsetProperties.LevelIsMonotone(s.offset, c.weights, c.points, a, b);
    var x, y := LevelAt(s.offset, c.weights, c.points, a), LevelAt(s.offset, c.weights, c.points, b);
    FullRangeIsWhole(x);
    FullRangeIsWhole(y);
    DeviceLevelIsMonotone(c.minParam, s.discount, Safe(c, s, AutoLevel(c, s, a)), Safe(c, s, AutoLevel(c, s, b)));
  }

  /** An instant change of a request that is taken places the user's offset at the present light. */
  lemma UserIsPlaced(c: Config, s: ServiceState, value: uint32, continuous: bool, ok: bool)
    requires (s.overridden || CanSetBrightness(s)) && s.autoEnabled && s.sensorEnabled
    ensures BrightnessSet(c, s, value, 0, continuous, ok).next.offset ==
            Placed(s.offset, c.points, value as real, Truncate(s.lux.filtered) as real)
  {
    UpdatedTouches(c, UserPlaced(c, s, value, 0), value, 0, !continuous, ok);
  }

  lemma FullRangeIsWhole(level: real)
    ensures level / MAX_DEFAULT_BRIGHTNESS * 255.0 == level
  {
  }
}
