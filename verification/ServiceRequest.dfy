/** What each request leaves behind: the values written, shown and remembered, and when it is refused. */
module ServiceRequests {
  import opened Common
  import opened Tasks
  import opened LevelMaps
  import opened LightLuxManagers
  import opened CalculationCurves
  import opened BrightnessDimmings
  import opened BrightnessServices
  import opened ServiceInvariants
  import opened ServiceRuns
  import opened ServiceAnimations
  import DimmingProperties
  import OffsetProperties

  ghost predicate ScreenOn(s: ServiceState) {
    s.display == On || s.display == Dim
  }

  /** A value within the limits; where they cross, the lower one counts. */
  ghost function Limited(c: Config, s: ServiceState, value: uint32): uint32 {
    if value < c.minLimit || s.maxLimit < c.minLimit then c.minLimit
    else if s.maxLimit < value then s.maxLimit
    else value
  }

  lemma SafeIsLimited(c: Config, s: ServiceState, value: uint32)
    ensures Safe(c, s, value) == Limited(c, s, value)
  {
  }

  /** `d` is the device level nearest to `level`, of 1 to 223 for 1 to 255. */
  ghost predicate NearestDevice(level: int, d: int) {
    var l := Max(1, Min(level, 255));
    -254 <= 2 * ((l - 1) * 222 - (d - 1) * 254) < 254
  }

  /** The device shows the level nearest to the discounted one, but its own minimum at least. */
  ghost predicate Shows(c: Config, discount: real, level: uint32, device: uint32) {
    exists d: nat :: NearestDevice((level as real * discount).Floor, d) && device == Max(d, c.minParam)
  }

  lemma DeviceLevelShows(c: Config, discount: Discount, level: uint32)
    ensures Shows(c, discount, level, DeviceLevel(c.minParam, discount, level))
  {
    var l := DiscountedLevel(discount, level);
    assert l == (level as real * discount).Floor;
    ShippedMapsAreNearest(c.minParam, l);
    ToDeviceInRange(SHIPPED, 0, l);
    assert NearestDevice(l, ToDevice(SHIPPED, 0, l));
  }

  /** The level shown is determined. */
  lemma ShowsOneLevel(c: Config, discount: Discount, level: uint32, a: uint32, b: uint32)
    requires Shows(c, discount, level, a) && Shows(c, discount, level, b)
    ensures a == b
  {
  }

  // ---------- any update ----------

  /** The display has taken the limited value at once: nothing is animated, and the device shows it. */
  ghost predicate ShownAtOnce(c: Config, s: ServiceState, value: uint32, t: ServiceState) {
    !t.dim.dimming && Shows(c, s.discount, Limited(c, s, value), t.device)
  }

  /** Setting, remembered level and cached value are this one. */
  ghost predicate Wrote(t: ServiceState, value: uint32) {
    t.setting == t.level == t.cached == value
  }

  ghost predicate WroteNothing(s: ServiceState, t: ServiceState) {
    t.setting == s.setting && t.level == s.level && t.cached == s.cached
  }

  /** An instant update of a state, as the display answers it. */
  ghost predicate UpdatedNow(c: Config, s: ServiceState, value: uint32, write: bool, ok: bool, t: ServiceState) {
    && !t.dim.dimming
    && (if ok then ShownAtOnce(c, s, value, t) else t.device == s.device)
    && (if ok && write then Wrote(t, Limited(c, s, value)) else WroteNothing(s, t))
  }

  lemma InstantUpdateMeans(c: Config, s: ServiceState, value: uint32, write: bool, ok: bool)
    ensures var r := Updated(c, s, value, 0, write, ok);
            && r.success == ok && UpdatedNow(c, s, value, write, ok, r.next)
  {
    UpdatedAtOnce(c, s, value, write, ok);
    SafeIsLimited(c, s, value);
    DeviceLevelShows(c, s.discount, Limited(c, s, value));
  }

  /** A gradual update walks from the setting to a device level that shows the limited value. */
  ghost predicate Walks(c: Config, s: ServiceState, value: uint32, duration: uint32, z: ServiceState, to: uint32) {
    && Shows(c, s.discount, Limited(c, s, value), to)
    && WroteNothing(s, z) && z.device == s.device
    && forall k: nat :: var t := DimTicks(z, k);
         t.device == MovedDevice(s, to, duration, k) && t.setting == MovedSetting(s, to, duration, k)
  }

  lemma GradualUpdateWalks(c: Config, s: ServiceState, value: uint32, duration: uint32, write: bool, ok: bool)
    requires DimmingProperties.Consistent(s.dim) && duration > 0
    requires s.setting < TWO_TO_THE_31 && Target(c, s, value) < TWO_TO_THE_31
    ensures var r := Updated(c, s, value, duration, write, ok);
            r.success && Walks(c, s, value, duration, r.next, Target(c, s, value))
  {
    var z, to := Updated(c, s, value, duration, write, ok).next, Target(c, s, value);
    SafeIsLimited(c, s, value);
    DeviceLevelShows(c, s.discount, Limited(c, s, value));
    UpdateStarts(c, s, value, duration, write, ok);
    forall k: nat ensures var t := DimTicks(z, k);
                          && t.device == MovedDevice(s, to, duration, k)
                          && t.setting == MovedSetting(s, to, duration, k)
    {
      GradualUpdateMoves(c, s, value, duration, write, ok, k);
    }
  }

  /** `m` is the setting nearest to device level `d`, of 1 to 255 for 1 to 223. */
  ghost predicate NearestSetting(d: int, m: int) {
    var l := Max(1, Min(d, 223));
    -222 <= 2 * ((l - 1) * 254 - (m - 1) * 222) < 222
  }

  /**
   * What a tick reports is shown if the display accepts it, and awake the setting nearest to it written; refused
   * it is lost. The animation goes on either way.
   */
  lemma TickMeans(s: ServiceState, task: nat, ok: bool)
    ensures var tick, t := Ticked(s.dim, task), DimFired(s, task, ok);
            && t.dim == tick.next
            && t.device == (if tick.changed.Some? && ok then tick.changed.value else s.device)
            && if tick.changed.Some? && ok && !s.sleep
               then Wrote(t, t.setting) && NearestSetting(tick.changed.value, t.setting)
               else WroteNothing(s, t)
  {
    var tick := Ticked(s.dim, task);
    if tick.changed.Some? {
      ShippedMapsAreNearest(0, tick.changed.value);
    }
  }

  // ---------- a level is set ----------

  /**
   * A level set at once ends an override, is aimed at, shown and, unless more of its kind follow, written. Without
   * an override to end it is refused while the screen is off or boosted, and only cached.
   */
  lemma SetMeans(c: Config, s: ServiceState, value: uint32, continuous: bool, ok: bool)
    ensures var r := BrightnessSet(c, s, value, 0, continuous, ok);
            if s.overridden || (ScreenOn(s) && !s.boosted) then
              && r.success == ok && !r.next.overridden && r.next.target == r.next.current == value
              && UpdatedNow(c, s, value, !continuous, ok, r.next)
            else r == Reply(s.(cached := value), false)
  {
    if s.overridden || (ScreenOn(s) && !s.boosted) {
      var u := UserPlaced(c, s, value, 0);
      InstantUpdateMeans(c, u, value, !continuous, ok);
      UpdatedTouches(c, u, value, 0, !continuous, ok);
    }
  }

  /** Set gradually it is walked to from the setting, the setting following awake. */
  lemma GradualSetMeans(c: Config, s: ServiceState, value: uint32, duration: uint32, continuous: bool, ok: bool)
    requires Invariant(s) && duration > 0 && (s.overridden || (ScreenOn(s) && !s.boosted))
    requires s.setting < TWO_TO_THE_31 && Target(c, s, value) < TWO_TO_THE_31
    ensures var r := BrightnessSet(c, s, value, duration, continuous, ok);
            && r.success && !r.next.overridden && r.next.target == r.next.current == value
            && Walks(c, s, value, duration, r.next, Target(c, s, value))
  {
    var u := UserPlaced(c, s, value, duration);
    GradualUpdateWalks(c, u, value, duration, !continuous, ok);
    UpdatedTouches(c, u, value, duration, !continuous, ok);
    WalksAlike(c, s, u, value, duration, BrightnessSet(c, s, value, duration, continuous, ok).next,
               Target(c, s, value));
  }

  /** A walk depends only on what an animation reads of the state it starts in. */
  lemma WalksAlike(c: Config, s: ServiceState, u: ServiceState, value: uint32, duration: uint32, z: ServiceState,
                   to: uint32)
    requires Walks(c, u, value, duration, z, to)
    requires WroteNothing(s, u) && u.device == s.device && u.sleep == s.sleep
    requires u.maxLimit == s.maxLimit && u.discount == s.discount
    ensures Walks(c, s, value, duration, z, to)
  {
    forall k: nat ensures var t := DimTicks(z, k);
                          && t.device == MovedDevice(s, to, duration, k)
                          && t.setting == MovedSetting(s, to, duration, k)
    {
      assert DimTicks(z, k).device == MovedDevice(u, to, duration, k);
    }
  }

  // ---------- overrides ----------

  /** An override remembers the setting and its own value, and shows that one; boosted or off it is refused. */
  lemma OverrideMeans(c: Config, s: ServiceState, value: uint32, ok: bool)
    ensures var r := Overrode(c, s, value, 0, ok);
            if ScreenOn(s) && !s.boosted then
              && r.success == ok && r.next.overridden && r.next.overriddenValue == value && r.next.before == s.setting
              && UpdatedNow(c, s, value, false, ok, r.next)
            else r == Reply(s, false)
  {
    if ScreenOn(s) && !s.boosted {
      var u := s.(overridden := true, overriddenValue := value, before := s.setting);
      InstantUpdateMeans(c, u, value, false, ok);
      UpdatedTouches(c, u, value, 0, false, ok);
    }
  }

  lemma GradualOverrideMeans(c: Config, s: ServiceState, value: uint32, duration: uint32, ok: bool)
    requires Invariant(s) && duration > 0 && ScreenOn(s) && !s.boosted
    requires s.setting < TWO_TO_THE_31 && Target(c, s, value) < TWO_TO_THE_31
    ensures var r := Overrode(c, s, value, duration, ok);
            && r.success && r.next.overridden && r.next.overriddenValue == value && r.next.before == s.setting
            && Walks(c, s, value, duration, r.next, Target(c, s, value))
  {
    var u := s.(overridden := true, overriddenValue := value, before := s.setting);
    GradualUpdateWalks(c, u, value, duration, false, ok);
    UpdatedTouches(c, u, value, duration, false, ok);
    WalksAlike(c, s, u, value, duration, Overrode(c, s, value, duration, ok).next, Target(c, s, value));
  }

  /** A restore ends the override with the remembered setting, even boosted or off; without one it is refused. */
  lemma RestoreMeans(c: Config, s: ServiceState, ok: bool)
    ensures var r := Restored(c, s, 0, ok);
            if s.overridden then
              r.success == ok && !r.next.overridden && UpdatedNow(c, s, s.before, true, ok, r.next)
            else r == Reply(s, false)
  {
    if s.overridden {
      InstantUpdateMeans(c, s.(overridden := false), s.before, true, ok);
      UpdatedTouches(c, s.(overridden := false), s.before, 0, true, ok);
    }
  }

  lemma GradualRestoreMeans(c: Config, s: ServiceState, duration: uint32, ok: bool)
    requires Invariant(s) && duration > 0 && s.overridden
    requires s.setting < TWO_TO_THE_31 && Target(c, s, s.before) < TWO_TO_THE_31
    ensures var r := Restored(c, s, duration, ok);
            r.success && !r.next.overridden && Walks(c, s, s.before, duration, r.next, Target(c, s, s.before))
  {
    var u := s.(overridden := false);
    GradualUpdateWalks(c, u, s.before, duration, true, ok);
    UpdatedTouches(c, u, s.before, duration, true, ok);
    WalksAlike(c, s, u, s.before, duration, Restored(c, s, duration, ok).next, Target(c, s, s.before));
  }

  // ---------- sleep ----------

  /** The reduction off the setting, but the sleep level at most and 1 at least. */
  ghost function Asleep(c: Config, setting: uint32): uint32 {
    Max(1, if setting < c.sleepReduction then 0 else Min(setting - c.sleepReduction, c.sleepBrightness))
  }

  /**
   * A dim request at a setting above 1 overrides it with the sleep level, over the configured time; boosted it only
   * marks the sleep, and at a setting of 1 or less it does neither.
   */
  lemma SleepMeans(c: Config, s: ServiceState, ok: bool)
    requires Invariant(s) && s.setting < TWO_TO_THE_31
    requires Target(c, s, Asleep(c, s.setting)) < TWO_TO_THE_31
    ensures var t, value := DisplaySet(c, s, Dim, ok), Asleep(c, s.setting);
            && t.display == Dim && t.sleep == (s.sleep || 1 < s.setting)
            && if s.setting <= 1 || s.boosted then
                 t.overridden == s.overridden && t.device == s.device && t.dim == s.dim && WroteNothing(s, t)
               else
                 && t.overridden && t.overriddenValue == value && t.before == s.setting
                 && if c.sleepDarkenTime == 0 then UpdatedNow(c, s, value, false, ok, t)
                    else Walks(c, s.(sleep := true), value, c.sleepDarkenTime, t, Target(c, s, value))
  {
    var v := SensorsFollow(c, s.(display := Dim));
    SensorsTouch(c, s.(display := Dim));
    if 1 < s.setting && !s.boosted {
      var u, value := v.(sleep := true), Asleep(c, s.setting);
      SensorsKeepInvariant(c, s.(display := Dim));
      assert SleepLevel(c, v.setting) == value;
      FallingAsleep(c, u, value, ok);
      if c.sleepDarkenTime > 0 {
        WalksAlike(c, s.(sleep := true), u, value, c.sleepDarkenTime, FellAsleep(c, v, ok), Target(c, s, value));
      }
    }
  }

  lemma FallingAsleep(c: Config, u: ServiceState, value: uint32, ok: bool)
    requires DimmingProperties.Consistent(u.dim) && u.setting < TWO_TO_THE_31 && Target(c, u, value) < TWO_TO_THE_31
    requires IsScreenOnState(u.display) && !u.boosted
    ensures var t := Overrode(c, u, value, c.sleepDarkenTime, ok).next;
            && t.overridden && t.overriddenValue == value && t.before == u.setting && t.sleep == u.sleep
            && t.display == u.display
            && if c.sleepDarkenTime == 0 then UpdatedNow(c, u, value, false, ok, t)
               else Walks(c, u, value, c.sleepDarkenTime, t, Target(c, u, value))
  {
    var w := u.(overridden := true, overriddenValue := value, before := u.setting);
    UpdatedTouches(c, w, value, c.sleepDarkenTime, false, ok);
    if c.sleepDarkenTime == 0 {
      InstantUpdateMeans(c, w, value, false, ok);
    } else {
      GradualUpdateWalks(c, w, value, c.sleepDarkenTime, false, ok);
      WalksAlike(c, u, w, value, c.sleepDarkenTime, Overrode(c, u, value, c.sleepDarkenTime, ok).next,
                 Target(c, u, value));
    }
  }

  /** Off ends sleep and its override without restoring anything, and stops what is animated. */
  lemma OffMeans(c: Config, s: ServiceState, ok: bool)
    ensures var t := DisplaySet(c, s, Off, ok);
            && t.display == Off && t.target == 0 && !t.sleep && !t.dim.dimming
            && t.overridden == (s.overridden && !s.sleep) && t.boosted == s.boosted
            && t.device == s.device && WroteNothing(s, t)
  {
    SensorsTouch(c, s.(display := Off));
  }

  /** On ends sleep by restoring the override it made; awake it only waits for the first light. */
  lemma OnMeans(c: Config, s: ServiceState, ok: bool)
    ensures var t := DisplaySet(c, s, On, ok);
            && t.display == On && t.displayOnFirst && !t.sleep
            && (if s.sleep && s.overridden then !t.overridden && UpdatedNow(c, s, s.before, true, ok, t)
                else t.overridden == s.overridden && t.device == s.device && t.dim == s.dim && WroteNothing(s, t))
  {
    var v := SensorsFollow(c, s.(display := On));
    SensorsTouch(c, s.(display := On));
    var u := v.(displayOnFirst := true);
    if s.sleep && s.overridden {
      RestoreMeans(c, u, ok);
      UpdatedTouches(c, u.(overridden := false), u.before, 0, true, ok);
    }
  }

  // ---------- discounts ----------

  /** What the screen is to show: the boost before the override before the setting. */
  ghost function Wanted(c: Config, s: ServiceState): uint32 {
    if s.boosted then c.maxParam else if s.overridden then s.overriddenValue else s.setting
  }

  ghost function Factor(discount: real): Discount {
    if discount < 0.01 then 0.01 else if 1.0 < discount then 1.0 else discount
  }

  /** A discount is moved into 0.01 to 1 and shown of what the screen shows; the setting stays. Off it is refused. */
  lemma DiscountMeans(c: Config, s: ServiceState, discount: real, ok: bool)
    ensures var r := Discounted(c, s, discount, 0, ok);
            if ScreenOn(s) then
              && r.success == ok && r.next.discount == Factor(discount)
              && UpdatedNow(c, s.(discount := Factor(discount)), Wanted(c, s), false, ok, r.next)
            else r == Reply(s, false)
  {
    if ScreenOn(s) {
      var u := s.(discount := Factor(discount));
      InstantUpdateMeans(c, u, Wanted(c, s), false, ok);
      UpdatedTouches(c, u, Wanted(c, s), 0, false, ok);
    }
  }

  // ---------- boosts ----------

  /**
   * A boost shows the maximum and schedules its one end, leaving setting and cache; once boosted it only schedules
   * the end anew. Overridden or off it is refused.
   */
  lemma BoostMeans(c: Config, s: ServiceState, ok: bool)
    requires Invariant(s)
    ensures var r := BoostStarted(c, s, 0, ok);
            if !ScreenOn(s) || s.overridden then r == Reply(s, false)
            else
              && r.next.boosted && Single(r.next.boostTasks)
              && r.next.boostTasks.handle == Some(s.boostTasks.next)
              && r.next.boostDurations == s.boostDurations[r.next.boostTasks.handle.value := 0]
              && if s.boosted then
                   r.success && r.next.device == s.device && r.next.dim == s.dim && WroteNothing(s, r.next)
                 else r.success == ok && UpdatedNow(c, s, c.maxParam, false, ok, r.next)
  {
    if ScreenOn(s) && !s.overridden && !s.boosted {
      var u := s.(boosted := true);
      InstantUpdateMeans(c, u, c.maxParam, false, ok);
      UpdatedTouches(c, u, c.maxParam, 0, false, ok);
    }
  }

  /** Cancelling a boost takes its end off the queue and applies the cached value; without one it is refused. */
  lemma CancelBoostMeans(c: Config, s: ServiceState, ok: bool)
    requires Invariant(s)
    ensures var r := BoostCancelled(c, s, 0, ok);
            if s.boosted then
              && r.success == ok && !r.next.boosted && r.next.boostTasks.pending == {}
              && UpdatedNow(c, s, s.cached, true, ok, r.next)
            else r == Reply(s, false)
  {
    if s.boosted {
      var u := s.(boosted := false, boostTasks := Cancelled(s.boostTasks));
      InstantUpdateMeans(c, u, s.cached, true, ok);
      UpdatedTouches(c, u, s.cached, 0, true, ok);
    }
  }

  /** What a boost ends with when no value was ever cached: 50, whatever the setting. */
  lemma FirstBoostEndsAtDefault(c: Config, setting: uint32, device: uint32)
    requires c.minLimit <= 50
    ensures var s := Initial(On, setting, device);
            After(c, s, [Event(Boost(0), true), Event(CancelBoost(0), true)]).setting == 50
  {
    var s, es := Initial(On, setting, device), [Event(Boost(0), true), Event(CancelBoost(0), true)];
    assert es[..1] == [es[0]] && es[..1][..0] == [];
    BoostMeans(c, s, true);
    var b := BoostStarted(c, s, 0, true).next;
    UpdatedTouches(c, s.(boosted := true), c.maxParam, 0, false, true);
    BoostStartedKeepsInvariant(c, s, 0, true);
    CancelBoostMeans(c, b, true);
    assert After(c, s, es[..1]) == b;
  }

  // ---------- the limit ----------

  /** The limit a factor of the full range asks for: 255 times it, rounded, but the lower limit if that is nothing. */
  ghost predicate AsksForLimit(c: Config, factor: real, limit: uint32) {
    if factor < 0.0 || factor * 255.0 < 0.5 then limit == c.minLimit
    else limit as real <= factor * 255.0 + 0.5 < limit as real + 1.0
  }

  lemma LimitIsAskedFor(c: Config, factor: real)
    requires factor * 255.0 + 0.5 < 4294967296.0
    ensures AsksForLimit(c, factor, NewMaxLimit(c, factor))
  {
  }

  /** The level a new limit is animated to: the limit where it cuts the setting, else the level in use, if any. */
  ghost function GoalUnder(s: ServiceState, limit: uint32): Option<uint32> {
    if limit < s.setting then Some(limit) else if s.current == 0 then None else Some(s.current)
  }

  /** A limit that is new is stored, up to 255, and walked to for three seconds; the same one changes nothing. */
  lemma LimitMeans(c: Config, s: ServiceState, factor: real, asked: uint32, ok: bool)
    requires Invariant(s) && s.setting < TWO_TO_THE_31 && c.minParam < TWO_TO_THE_31
    requires factor * 255.0 + 0.5 < 4294967296.0 && AsksForLimit(c, factor, asked)
    ensures var r, limit := MaxSet(c, s, factor, ok), Min(asked, 255);
            && r.success
            && if asked == s.maxLimit then r.next == s
               else
                 var u, goal := s.(maxLimit := limit), GoalUnder(s, limit);
                 && r.next.maxLimit == limit
                 && if goal == None then r.next == u
                    else Walks(c, u, goal.value, 3000, r.next, Target(c, u, goal.value))
  {
    LimitIsAskedFor(c, factor);
    assert asked == NewMaxLimit(c, factor);
    var limit := Min(asked, 255);
    var u, goal := s.(maxLimit := limit), GoalUnder(s, limit);
    if asked != s.maxLimit && goal.Some? {
      ToDeviceInRange(SHIPPED, c.minParam, DiscountedLevel(u.discount, Safe(c, u, goal.value)));
      GradualUpdateWalks(c, u, goal.value, 3000, true, ok);
      UpdatedTouches(c, u, goal.value, 3000, true, ok);
    }
  }

  // ---------- automatic brightness ----------

  /** With a light sensor, automatic brightness switches as asked; off it stops the sensor and clears its data. */
  lemma AutoAdjustMeans(c: Config, s: ServiceState, enable: bool)
    requires Invariant(s)
    ensures var r := AutoAdjusted(c, s, enable);
            && r.success == c.supportLightSensor
            && if !c.supportLightSensor || s.autoEnabled == enable then r.next == s
               else
                 && r.next == s.(autoEnabled := enable, sensorEnabled := enable, lux := r.next.lux)
                 && r.next.lux.filtered == s.lux.filtered
                 && if enable || !s.sensorEnabled then r.next.lux == s.lux
                    else r.next.lux.raw.items == r.next.lux.smooth.items == []
  {
  }

  /** Clearing the user's offset stops what is animated; then every light asks for the level of the curve. */
  lemma ClearOffsetMeans(c: Config, s: ServiceState, lux: real)
    requires 0.0 <= s.lux.filtered <= LIGHT_MAX_LUX && Visible(c.points)
    ensures var t := OffsetCleared(c, s);
            && !t.dim.dimming && t.target == 0 && t.device == s.device && WroteNothing(s, t)
            && AutoLevel(c, t, lux) == CurveLevel(c.points, lux).Floor
  {
    OffsetProperties.ZeroTakesBack(s.offset, c.weights, c.points, 0.0, Truncate(s.lux.filtered) as real, lux);
    CurveStaysVisible(c.points, lux);
    FullRangeIsWhole(CurveLevel(c.points, lux));
  }

  /** A first reading is followed at once after the screen came on and in half a second else, another one slowly. */
  lemma ReadingTakes(c: Config, s: ServiceState, now: int, lux: real)
    ensures var first := Reading(s.lux, c.mode, now, lux).next.isFirstLux;
            ReadingDuration(c, s, now, lux) ==
            if first && s.displayOnFirst then 0
            else if first then 500
            else if AutoLevel(c, s, lux) < s.level then 5000
            else 2000
  {
  }

  /** The level a reading asks for is aimed at, and shown and written at once or walked to. */
  lemma ReadingMeans(c: Config, s: ServiceState, now: int, lux: real, ok: bool)
    requires ScreenOn(s) && !s.overridden && !s.boosted && AsksForLevel(c, s, now, lux)
    requires DimmingProperties.Consistent(s.dim) && s.setting < TWO_TO_THE_31 && DeviceFor(c, s, lux) < TWO_TO_THE_31
    ensures var t, level := LuxProcessed(c, s, now, lux, ok), AutoLevel(c, s, lux);
            var duration := ReadingDuration(c, s, now, lux);
            && t.target == t.current == level
            && t.displayOnFirst == (s.displayOnFirst && !Reading(s.lux, c.mode, now, lux).next.isFirstLux)
            && var u := s.(level := level);
               if duration == 0 then UpdatedNow(c, u, level, true, ok, t)
               else Walks(c, u, level, duration, t, DeviceFor(c, s, lux))
  {
    var u, level, duration := ReadingAdopted(c, s, now, lux), AutoLevel(c, s, lux), ReadingDuration(c, s, now, lux);
    ReadingUpdates(c, s, now, lux, ok);
    UpdatedTouches(c, u, level, duration, true, ok);
    if duration == 0 {
      InstantUpdateMeans(c, u, level, true, ok);
    } else {
      GradualUpdateWalks(c, u, level, duration, true, ok);
      WalksAlike(c, s.(level := level), u, level, duration, LuxProcessed(c, s, now, lux, ok), DeviceFor(c, s, lux));
    }
  }

  /** A reading is ignored altogether while the screen is off, overridden or boosted. */
  lemma ReadingIsRefused(c: Config, s: ServiceState, now: int, lux: real, ok: bool)
    requires !ScreenOn(s) || s.overridden || s.boosted
    ensures LuxProcessed(c, s, now, lux, ok) == s
  {
  }
}
