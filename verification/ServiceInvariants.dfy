/** What every request and every timer of the brightness service keeps, over all runs. */
module ServiceInvariants {
  import opened Common
  import opened Tasks
  import opened LightLuxManagers
  import opened CalculationCurves
  import opened CalculationManagers
  import opened BrightnessDimmings
  import opened BrightnessServices
  import DimmingProperties
  import OffsetProperties

  datatype Request =
    | SetDisplay(state: DisplayState)
    | Set(value: uint32, duration: uint32, continuous: bool)
    | Override(value: uint32, duration: uint32)
    | Restore(duration: uint32)
    | Boost(duration: uint32)
    | CancelBoost(duration: uint32)
    | BoostEnd(task: nat)
    | DiscountBy(factor: real, duration: uint32)
    | Lux(now: int, lux: real)
    | DimTick(task: nat)
    | SetMax(factorOfFull: real)
    | AutoAdjust(enable: bool)
    | ClearUserOffset

  /** A request or a firing timer, and whether the display accepts a level written during it. */
  datatype Event = Event(request: Request, ok: bool)

  /** Timers only fire while they are pending. */
  ghost function Step(c: Config, s: ServiceState, e: Event): ServiceState {
    match e.request
    case SetDisplay(state) => DisplaySet(c, s, state, e.ok)
    case Set(value, duration, continuous) => BrightnessSet(c, s, value, duration, continuous, e.ok).next
    case Override(value, duration) => Overrode(c, s, value, duration, e.ok).next
    case Restore(duration) => Restored(c, s, duration, e.ok).next
    case Boost(duration) => BoostStarted(c, s, duration, e.ok).next
    case CancelBoost(duration) => BoostCancelled(c, s, duration, e.ok).next
    case BoostEnd(task) =>
      if task in s.boostTasks.pending && task in s.boostDurations then BoostTimedOut(c, s, task, e.ok) else s
    case DiscountBy(factor, duration) => Discounted(c, s, factor, duration, e.ok).next
    case Lux(now, lux) => LuxProcessed(c, s, now, lux, e.ok)
    case DimTick(task) => if task in s.dim.tasks.pending then DimFired(s, task, e.ok) else s
    case SetMax(value) => MaxSet(c, s, value, e.ok).next
    case AutoAdjust(enable) => AutoAdjusted(c, s, enable).next
    case ClearUserOffset => OffsetCleared(c, s)
  }

  ghost function After(c: Config, s: ServiceState, es: seq<Event>): ServiceState {
    if es == [] then s else Step(c, After(c, s, es[..|es| - 1]), es[|es| - 1])
  }

  lemma AfterNext(c: Config, s: ServiceState, es: seq<Event>, n: nat)
    requires n < |es|
    ensures After(c, s, es[..n + 1]) == Step(c, After(c, s, es[..n]), es[n])
  {
    assert es[..n + 1][..n] == es[..n];
  }

  /** A boost holds exactly one pending end, and nothing else does. */
  ghost predicate BoostConsistent(s: ServiceState) {
    && (s.boosted ==> Single(s.boostTasks) && !s.overridden)
    && (!s.boosted ==> s.boostTasks.pending == {})
    && s.boostTasks.pending <= s.boostDurations.Keys
  }

  /** While asleep, an override in force still remembers the persisted setting. */
  ghost predicate SleepConsistent(s: ServiceState) {
    s.sleep && s.overridden ==> s.before == s.setting
  }

  ghost predicate CoreInvariant(s: ServiceState) {
    && BoostConsistent(s)
    && DimmingProperties.Consistent(s.dim)
    && (s.sensorEnabled ==> s.autoEnabled)
    && OffsetProperties.Invariant(s.offset)
  }

  ghost predicate Invariant(s: ServiceState) {
    CoreInvariant(s) && SleepConsistent(s)
  }

  lemma StopKeepsInvariant(s: ServiceState)
    requires CoreInvariant(s)
    ensures CoreInvariant(DimStopped(s)) && !DimStopped(s).dim.dimming
  {
  }

  lemma RestartKeepsConsistent(d: DimState, from: uint32, to: uint32, duration: uint32)
    requires DimmingProperties.Consistent(d)
    ensures DimmingProperties.Consistent(if d.dimming then Stopped(d) else d)
    ensures DimmingProperties.Consistent(Started(if d.dimming then Stopped(d) else d, from, to, duration))
  {
    var e := if d.dimming then Stopped(d) else d;
    DimmingProperties.StartKeepsConsistent(e, from, to, duration);
  }

  /** An update touches the animation, the device and, if asked to at once, the setting and its caches. */
  lemma UpdatedTouches(c: Config, s: ServiceState, value: uint32, duration: uint32, updateSetting: bool, ok: bool)
    ensures var t := Updated(c, s, value, duration, updateSetting, ok).next;
            && t == s.(setting := t.setting, level := t.level, cached := t.cached, device := t.device, dim := t.dim)
            && (!updateSetting || duration > 0 || !ok ==> t.setting == s.setting && t.cached == s.cached)
  {
    assert DimStopped(s) == s.(dim := DimStopped(s).dim);
  }

  /** A tick touches the same. */
  lemma TickTouches(s: ServiceState, task: nat, ok: bool)
    ensures var t := DimFired(s, task, ok);
            t == s.(setting := t.setting, level := t.level, cached := t.cached, device := t.device, dim := t.dim)
  {
  }

  /** An update without duration ends any animation; if the display accepts, the level is the clamped value's. */
  lemma UpdatedAtOnce(c: Config, s: ServiceState, value: uint32, updateSetting: bool, ok: bool)
    ensures var t := Updated(c, s, value, 0, updateSetting, ok).next;
            var safe := SafeBrightness(c.minLimit, s.maxLimit, value);
            && !t.dim.dimming
            && (ok ==> t.device == DeviceLevel(c.minParam, s.discount, safe))
            && (updateSetting && ok ==> t.setting == t.cached == safe)
  {
    assert !DimStopped(s).dim.dimming;
  }

  lemma UpdatedKeepsDimming(c: Config, s: ServiceState, value: uint32, duration: uint32, updateSetting: bool, ok: bool)
    requires DimmingProperties.Consistent(s.dim)
    ensures DimmingProperties.Consistent(Updated(c, s, value, duration, updateSetting, ok).next.dim)
  {
    var safe := SafeBrightness(c.minLimit, s.maxLimit, value);
    RestartKeepsConsistent(s.dim, s.setting, DeviceLevel(c.minParam, s.discount, safe), duration);
  }

  lemma UpdatedKeepsInvariant(c: Config, s: ServiceState, value: uint32, duration: uint32,
                              updateSetting: bool, ok: bool)
    requires CoreInvariant(s) && SleepConsistent(s) && (updateSetting ==> !s.overridden)
    ensures Invariant(Updated(c, s, value, duration, updateSetting, ok).next)
  {
    UpdatedKeepsDimming(c, s, value, duration, updateSetting, ok);
    UpdatedTouches(c, s, value, duration, updateSetting, ok);
  }

  lemma OverrodeKeepsInvariant(c: Config, s: ServiceState, value: uint32, duration: uint32, ok: bool)
    requires CoreInvariant(s) && (s.boosted || !IsScreenOnState(s.display) ==> SleepConsistent(s))
    ensures Invariant(Overrode(c, s, value, duration, ok).next)
  {
    if IsScreenOnState(s.display) && !s.boosted {
      UpdatedKeepsInvariant(c, s.(overridden := true, overriddenValue := value, before := s.setting), value, duration,
                            false, ok);
    }
  }

  lemma RestoredKeepsInvariant(c: Config, s: ServiceState, duration: uint32, ok: bool)
    requires Invariant(s)
    ensures Invariant(Restored(c, s, duration, ok).next) && !Restored(c, s, duration, ok).next.overridden
  {
    if s.overridden {
      UpdatedKeepsInvariant(c, s.(overridden := false), s.before, duration, true, ok);
    }
  }

  lemma SensorsKeepInvariant(c: Config, s: ServiceState)
    requires Invariant(s)
    ensures Invariant(SensorsFollow(c, s))
  {
  }

  lemma TurnedOffKeepsInvariant(s: ServiceState)
    requires Invariant(s)
    ensures Invariant(TurnedOff(s))
  {
    StopKeepsInvariant((if s.sleep then s.(overridden := false, sleep := false) else s).(target := 0));
  }

  lemma FellAsleepKeepsInvariant(c: Config, s: ServiceState, ok: bool)
    requires Invariant(s) && IsScreenOnState(s.display)
    ensures Invariant(FellAsleep(c, s, ok))
  {
    OverrodeKeepsInvariant(c, s.(sleep := true), SleepLevel(c, s.setting), c.sleepDarkenTime, ok);
  }

  lemma TurnedOnKeepsInvariant(c: Config, s: ServiceState, ok: bool)
    requires Invariant(s)
    ensures Invariant(TurnedOn(c, s, ok))
  {
    RestoredKeepsInvariant(c, s.(displayOnFirst := true), 0, ok);
  }

  lemma DisplaySetKeepsInvariant(c: Config, s: ServiceState, state: DisplayState, ok: bool)
    requires Invariant(s)
    ensures Invariant(DisplaySet(c, s, state, ok))
  {
    var t := SensorsFollow(c, s.(display := state));
    SensorsKeepInvariant(c, s.(display := state));
    match state
    case Off => TurnedOffKeepsInvariant(t);
    case Dim => FellAsleepKeepsInvariant(c, t, ok);
    case On => TurnedOnKeepsInvariant(c, t, ok);
    case _ =>
  }

  lemma BrightnessSetKeepsInvariant(c: Config, s: ServiceState, value: uint32, duration: uint32,
                                    continuous: bool, ok: bool)
    requires Invariant(s) && Visible(c.points)
    ensures Invariant(BrightnessSet(c, s, value, duration, continuous, ok).next)
  {
    OffsetProperties.PlacedKeepsInvariant(s.offset, c.points, value as real, Truncate(s.lux.filtered) as real);
    if s.overridden || CanSetBrightness(s) {
      UpdatedKeepsInvariant(c, UserPlaced(c, s, value, duration), value, duration, !continuous, ok);
    }
  }

  lemma BoostStartedKeepsInvariant(c: Config, s: ServiceState, duration: uint32, ok: bool)
    requires Invariant(s)
    ensures Invariant(BoostStarted(c, s, duration, ok).next)
  {
    if IsScreenOnState(s.display) && !s.overridden && !s.boosted {
      UpdatedKeepsDimming(c, s.(boosted := true), c.maxParam, duration, false, ok);
      UpdatedTouches(c, s.(boosted := true), c.maxParam, duration, false, ok);
    }
  }

  lemma BoostCancelledKeepsInvariant(c: Config, s: ServiceState, duration: uint32, ok: bool)
    requires Invariant(s) && s.boosted
    ensures Invariant(BoostCancelled(c, s, duration, ok).next)
  {
    UpdatedKeepsInvariant(c, s.(boosted := false, boostTasks := Cancelled(s.boostTasks)), s.cached, duration, true, ok);
  }

  lemma BoostTimedOutKeepsInvariant(c: Config, s: ServiceState, task: nat, ok: bool)
    requires Invariant(s) && task in s.boostTasks.pending
    ensures Invariant(BoostTimedOut(c, s, task, ok)) && !BoostTimedOut(c, s, task, ok).boosted
  {
    var t := s.(boosted := false, boostTasks := Cancelled(Fired(s.boostTasks, task)));
    UpdatedKeepsInvariant(c, t, s.cached, s.boostDurations[task], true, ok);
  }

  lemma DiscountedKeepsInvariant(c: Config, s: ServiceState, factor: real, duration: uint32, ok: bool)
    requires Invariant(s)
    ensures Invariant(Discounted(c, s, factor, duration, ok).next)
  {
    var t := s.(discount := SafeDiscount(factor));
    UpdatedKeepsInvariant(c, t, ScreenOnBrightness(c, t), duration, false, ok);
  }

  lemma LuxProcessedKeepsInvariant(c: Config, s: ServiceState, now: int, lux: real, ok: bool)
    requires Invariant(s) && Visible(c.points)
    ensures Invariant(LuxProcessed(c, s, now, lux, ok))
  {
    if CanSetBrightness(s) {
      var o := Reading(s.lux, c.mode, now, lux);
      var t := s.(lux := o.next);
      var level := AutoLevel(c, t, lux);
      var u := t.(offset := Evaluated(t.offset, c.weights, c.points, lux));
      OffsetProperties.EvaluatedKeepsInvariant(t.offset, c.weights, c.points, lux);
      var first := o.next.isFirstLux;
      UpdatedKeepsInvariant(c, LevelAdopted(u, level, first), level, LuxDuration(u, level, first), true, ok);
    }
  }

  lemma DimFiredKeepsInvariant(s: ServiceState, task: nat, ok: bool)
    requires Invariant(s) && task in s.dim.tasks.pending
    ensures Invariant(DimFired(s, task, ok))
  {
    DimmingProperties.TickKeepsConsistent(s.dim, task);
  }

  lemma MaxSetKeepsInvariant(c: Config, s: ServiceState, value: real, ok: bool)
    requires Invariant(s)
    ensures Invariant(MaxSet(c, s, value, ok).next)
  {
    var t := s.(maxLimit := Min(NewMaxLimit(c, value), 255));
    GradualKeepsInvariant(c, t, t.maxLimit, DEFAULT_MAX_BRIGHTNESS_DURATION, ok);
    GradualKeepsInvariant(c, t, t.current, DEFAULT_MAX_BRIGHTNESS_DURATION, ok);
  }

  /** A gradual update starts an animation and writes nothing itself. */
  lemma GradualKeepsInvariant(c: Config, s: ServiceState, value: uint32, duration: uint32, ok: bool)
    requires Invariant(s) && duration > 0
    ensures Invariant(Updated(c, s, value, duration, true, ok).next)
  {
    UpdatedKeepsInvariant(c, s, value, duration, false, ok);
  }

  lemma LevelRequestKeepsInvariant(c: Config, s: ServiceState, e: Event)
    requires Invariant(s) && Visible(c.points)
    requires e.request.Set? || e.request.Override? || e.request.Restore? || e.request.DiscountBy?
    ensures Invariant(Step(c, s, e))
  {
    match e.request
    case Set(value, duration, continuous) => BrightnessSetKeepsInvariant(c, s, value, duration, continuous, e.ok);
    case Override(value, duration) => OverrodeKeepsInvariant(c, s, value, duration, e.ok);
    case Restore(duration) => RestoredKeepsInvariant(c, s, duration, e.ok);
    case DiscountBy(factor, duration) => DiscountedKeepsInvariant(c, s, factor, duration, e.ok);
  }

  lemma BoostRequestKeepsInvariant(c: Config, s: ServiceState, e: Event)
    requires Invariant(s) && (e.request.Boost? || e.request.CancelBoost? || e.request.BoostEnd?)
    ensures Invariant(Step(c, s, e))
  {
    match e.request
    case Boost(duration) => BoostStartedKeepsInvariant(c, s, duration, e.ok);
    case CancelBoost(duration) =>
      if s.boosted { BoostCancelledKeepsInvariant(c, s, duration, e.ok); }
    case BoostEnd(task) =>
      if task in s.boostTasks.pending { BoostTimedOutKeepsInvariant(c, s, task, e.ok); }
  }

  lemma OffsetClearedKeepsInvariant(c: Config, s: ServiceState)
    requires Invariant(s) && Visible(c.points)
    ensures Invariant(OffsetCleared(c, s))
  {
    OffsetProperties.PlacedKeepsInvariant(s.offset, c.points, 0.0, Truncate(s.lux.filtered) as real);
    StopKeepsInvariant(s);
  }

  lemma StepKeepsInvariant(c: Config, s: ServiceState, e: Event)
    requires Invariant(s) && Visible(c.points)
    ensures Invariant(Step(c, s, e))
  {
    var r := e.request;
    if r.Set? || r.Override? || r.Restore? || r.DiscountBy? {
      LevelRequestKeepsInvariant(c, s, e);
    } else if r.Boost? || r.CancelBoost? || r.BoostEnd? {
      BoostRequestKeepsInvariant(c, s, e);
    } else {
      match r
      case SetDisplay(state) => DisplaySetKeepsInvariant(c, s, state, e.ok);
      case Lux(now, lux) => LuxProcessedKeepsInvariant(c, s, now, lux, e.ok);
      case DimTick(task) =>
        if task in s.dim.tasks.pending { DimFiredKeepsInvariant(s, task, e.ok); }
      case SetMax(factor) => MaxSetKeepsInvariant(c, s, factor, e.ok);
      case AutoAdjust(enable) => AutoAdjustKeepsInvariant(c, s, enable);
      case ClearUserOffset => OffsetClearedKeepsInvariant(c, s);
    }
  }

  lemma AutoAdjustKeepsInvariant(c: Config, s: ServiceState, enable: bool)
    requires Invariant(s)
    ensures Invariant(AutoAdjusted(c, s, enable).next)
  {
  }

  lemma {:induction false} RunKeepsInvariant(c: Config, s: ServiceState, es: seq<Event>)
    requires Invariant(s) && Visible(c.points)
    ensures Invariant(After(c, s, es))
    decreases |es|
  {
    if es != [] {
      RunKeepsInvariant(c, s, es[..|es| - 1]);
      StepKeepsInvariant(c, After(c, s, es[..|es| - 1]), es[|es| - 1]);
    }
  }

  /** From the initial state on: override and boost exclude each other, and a boost has exactly one end pending. */
  lemma BoostIsExclusiveAndBounded(c: Config, display: DisplayState, setting: uint32, device: uint32, es: seq<Event>)
    requires Visible(c.points)
    ensures var s := After(c, Initial(display, setting, device), es);
            && !(s.overridden && s.boosted)
            && |s.boostTasks.pending| == (if s.boosted then 1 else 0)
            && |s.dim.tasks.pending| == (if s.dim.dimming then 1 else 0)
  {
    RunKeepsInvariant(c, Initial(display, setting, device), es);
  }

  /** The light sensor, its data and the user's offset are as they were. */
  ghost predicate SameSensor(s: ServiceState, t: ServiceState) {
    t.sensorEnabled == s.sensorEnabled && t.lux == s.lux && t.offset == s.offset
  }

  lemma SleepKeepsSensor(c: Config, s: ServiceState, ok: bool)
    ensures SameSensor(s, FellAsleep(c, s, ok))
  {
    var v := SleepLevel(c, s.setting);
    UpdatedTouches(c, s.(sleep := true, overridden := true, overriddenValue := v, before := s.setting), v,
                   c.sleepDarkenTime, false, ok);
  }

  lemma WakingKeepsSensor(c: Config, s: ServiceState, ok: bool)
    ensures SameSensor(s, TurnedOn(c, s, ok))
  {
    UpdatedTouches(c, s.(displayOnFirst := true, overridden := false), s.before, 0, true, ok);
  }

  /** With a light sensor, a display change leaves it on iff the screen is on in auto mode; without one, alone. */
  lemma SensorFollowsDisplay(c: Config, s: ServiceState, state: DisplayState, ok: bool)
    requires Invariant(s)
    ensures var t := DisplaySet(c, s, state, ok);
            && t.sensorEnabled == (if c.supportLightSensor then (state == On || state == Dim) && s.autoEnabled
                                   else s.sensorEnabled)
            && t.lux == if s.sensorEnabled && !t.sensorEnabled then Cleared(s.lux) else s.lux
  {
    var t := SensorsFollow(c, s.(display := state));
    match state
    case Dim => SleepKeepsSensor(c, t, ok);
    case On => WakingKeepsSensor(c, t, ok);
    case _ =>
  }
}
