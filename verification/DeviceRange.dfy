/** When the device stays within the range of levels that requests map to. */
module DeviceRanges {
  import opened Common
  import opened Tasks
  import opened LevelMaps
  import opened BrightnessDimmings
  import opened BrightnessServices
  import opened ServiceInvariants
  import opened ServiceRuns
  import opened ServiceAnimations
  import opened Strides
  import DimmingProperties

  // ---------- the range of device levels ----------

  /** The highest level that a request maps to. */
  ghost function TopLevel(c: Config): uint32 {
    Max(MAX_MAPPING_LEVEL, c.minParam)
  }

  lemma TargetInRange(c: Config, s: ServiceState, value: uint32)
    ensures Target(c, s, value) <= TopLevel(c)
  {
    ToDeviceInRange(SHIPPED, c.minParam, DiscountedLevel(s.discount, Safe(c, s, value)));
  }

  lemma MoreStridesAreLower(stride: int, k: nat)
    requires 0 < k
    ensures stride < 0 ==> k * stride <= stride
  {
  }

  lemma LaterPositionsAreLower(from: uint32, to: uint32, duration: uint32, k: nat)
    requires Animation(from, to) && 0 < k
    ensures DimmingProperties.Position(from, to, duration, k) <=
            Max(to, DimmingProperties.Position(from, to, duration, 1))
  {
    if k < DimmingProperties.TicksOf(from, to, duration) {
      DimmingProperties.PositionInside(from, to, duration, k);
      var stride := DimmingProperties.StrideOf(from, to, duration);
      MoreStridesAreLower(stride, k);
    }
  }

  /**
   * A gradual update keeps the device within the range that requests map to iff no animation starts, or its
   * first step already ends within the range: it may start at a setting above it.
   */
  lemma GradualUpdateStaysInRange(c: Config, s: ServiceState, value: uint32, duration: uint32,
                                  updateSetting: bool, ok: bool)
    requires DimmingProperties.Consistent(s.dim) && duration > 0 && s.device <= TopLevel(c)
    requires s.setting < TWO_TO_THE_31 && Target(c, s, value) < TWO_TO_THE_31
    ensures var to, z := Target(c, s, value), Updated(c, s, value, duration, updateSetting, ok).next;
            (forall k: nat :: DimTicks(z, k).device <= TopLevel(c)) <==>
            (s.setting == to || DimmingProperties.Position(s.setting, to, duration, 1) <= TopLevel(c))
  {
    var to, z := Target(c, s, value), Updated(c, s, value, duration, updateSetting, ok).next;
    TargetInRange(c, s, value);
    GradualUpdateMoves(c, s, value, duration, updateSetting, ok, 1);
    assert DimTicks(z, 1).device == MovedDevice(s, to, duration, 1);
    if s.setting == to || DimmingProperties.Position(s.setting, to, duration, 1) <= TopLevel(c) {
      forall k: nat ensures DimTicks(z, k).device <= TopLevel(c) {
        GradualUpdateMoves(c, s, value, duration, updateSetting, ok, k);
        if Animation(s.setting, to) && 0 < k {
          LaterPositionsAreLower(s.setting, to, duration, k);
        }
      }
    }
  }

  /** From setting 255, a gradual change to 250 first sends 254 to a device whose range ends at 223. */
  lemma FirstStepOvershoots(c: Config, s: ServiceState)
    requires Invariant(s) && CanSetBrightness(s) && s.discount == 1.0 && s.setting == 255
    requires c.minLimit == c.minParam == 1 && s.maxLimit == MAX_DEFAULT_LEVEL
    ensures DimTicks(BrightnessSet(c, s, 250, 2000, false, true).next, 1).device == 254 > TopLevel(c)
  {
    assert DeviceLevel(1, 1.0, 250) == 219;
    assert StepsIn(2000, DEFAULT_UPDATE_TIME) == 62 && Stride(219 - 255, 62) == -1;
    DimmingProperties.PositionAdvances(255, 219, 2000, 0);
    GradualUpdateMoves(c, UserPlaced(c, s, 250, 2000), 250, 2000, true, true, 1);
  }

  // ---------- runs ----------

  /** Limits and levels the animations are exact for. */
  ghost predicate Small(c: Config) {
    c.minLimit < TWO_TO_THE_31 && c.minParam < TWO_TO_THE_31
  }

  /** A running animation is where its strides have taken it from its start, on the way to a level in range. */
  ghost predicate Walks(c: Config, d: DimState) {
    && Animation(d.from, d.to) && d.to <= TopLevel(c)
    && DimmingProperties.Midway(d, d.from, d.to, d.duration, d.step)
  }

  ghost predicate Tracked(c: Config, s: ServiceState) {
    && s.setting < TWO_TO_THE_31 && s.maxLimit < TWO_TO_THE_31
    && DimmingProperties.Consistent(s.dim) && (s.dim.dimming ==> Walks(c, s.dim))
  }

  /** Once an animation has ticked, the device shows where it is. */
  ghost predicate Synced(s: ServiceState) {
    s.dim.dimming && 0 < s.dim.step ==> s.device == s.dim.current
  }

  /** From `s` to `t` without a tick: animations stay tracked, and the device leaves no range and no animation. */
  ghost predicate Orderly(c: Config, s: ServiceState, t: ServiceState) {
    && Tracked(c, t)
    && (s.device <= TopLevel(c) ==> t.device <= TopLevel(c))
    && (Synced(s) ==> Synced(t))
  }

  lemma StartWalks(c: Config, d: DimState, from: uint32, to: uint32, duration: uint32)
    requires DimmingProperties.Consistent(d) && !d.dimming
    requires from < TWO_TO_THE_31 && to < TWO_TO_THE_31 && to <= TopLevel(c)
    ensures var e := Started(d, from, to, duration); e.dimming ==> Walks(c, e) && e.step == 0
  {
    DimmingProperties.StartsBetweenDifferent(d, from, to, duration);
    if from != to {
      DimmingProperties.StartIsMidway(d, from, to, duration);
      StartRemembers(d, from, to, duration);
    }
  }

  lemma StartRemembers(d: DimState, from: uint32, to: uint32, duration: uint32)
    requires !d.dimming && from != to
    ensures var e := Started(d, from, to, duration); e.from == from && e.to == to && e.duration == duration
  {
    ChangeVanishes(from, to);
  }

  lemma GradualIsOrderly(c: Config, s: ServiceState, value: uint32, duration: uint32, updateSetting: bool, ok: bool)
    requires Small(c) && Tracked(c, s) && duration > 0
    ensures Orderly(c, s, Updated(c, s, value, duration, updateSetting, ok).next)
  {
    TargetInRange(c, s, value);
    UpdateStarts(c, s, value, duration, updateSetting, ok);
    UpdatedKeepsDimming(c, s, value, duration, updateSetting, ok);
    StartWalks(c, DimStopped(s).dim, s.setting, Target(c, s, value), duration);
  }

  lemma InstantIsOrderly(c: Config, s: ServiceState, value: uint32, updateSetting: bool, ok: bool)
    requires Small(c) && Tracked(c, s)
    ensures Orderly(c, s, Updated(c, s, value, 0, updateSetting, ok).next)
  {
    TargetInRange(c, s, value);
    UpdatedTouches(c, s, value, 0, updateSetting, ok);
    UpdatedKeepsDimming(c, s, value, 0, updateSetting, ok);
    UpdatedAtOnce(c, s, value, updateSetting, ok);
    InstantShows(c, s, value, updateSetting, ok);
  }

  lemma InstantShows(c: Config, s: ServiceState, value: uint32, updateSetting: bool, ok: bool)
    ensures var t := Updated(c, s, value, 0, updateSetting, ok).next;
            && (t.device == s.device || t.device == Target(c, s, value))
            && (t.setting == s.setting || t.setting == Safe(c, s, value))
  {
  }

  lemma UpdatedIsOrderly(c: Config, s: ServiceState, value: uint32, duration: uint32, updateSetting: bool, ok: bool)
    requires Small(c) && Tracked(c, s)
    ensures Orderly(c, s, Updated(c, s, value, duration, updateSetting, ok).next)
  {
    if duration > 0 {
      GradualIsOrderly(c, s, value, duration, updateSetting, ok);
    } else {
      InstantIsOrderly(c, s, value, updateSetting, ok);
    }
  }

  lemma FellAsleepIsOrderly(c: Config, s: ServiceState, ok: bool)
    requires Small(c) && Tracked(c, s)
    ensures Orderly(c, s, FellAsleep(c, s, ok))
  {
    var value := SleepLevel(c, s.setting);
    UpdatedIsOrderly(c, s.(sleep := true, overridden := true, overriddenValue := value, before := s.setting), value,
                     c.sleepDarkenTime, false, ok);
  }

  lemma TurnedOnIsOrderly(c: Config, s: ServiceState, ok: bool)
    requires Small(c) && Tracked(c, s)
    ensures Orderly(c, s, TurnedOn(c, s, ok))
  {
    UpdatedIsOrderly(c, s.(displayOnFirst := true, overridden := false), s.before, 0, true, ok);
  }

  lemma TurnedOffIsOrderly(c: Config, s: ServiceState)
    requires Tracked(c, s)
    ensures Orderly(c, s, TurnedOff(s))
  {
    StopIsOrderly(c, (if s.sleep then s.(overridden := false, sleep := false) else s).(target := 0));
  }

  lemma StopIsOrderly(c: Config, s: ServiceState)
    requires Tracked(c, s)
    ensures Orderly(c, s, DimStopped(s))
  {
  }

  lemma DisplaySetIsOrderly(c: Config, s: ServiceState, state: DisplayState, ok: bool)
    requires Small(c) && Tracked(c, s)
    ensures Orderly(c, s, DisplaySet(c, s, state, ok))
  {
    var t := SensorsFollow(c, s.(display := state));
    SensorsTouch(c, s.(display := state));
    match state
    case Off => TurnedOffIsOrderly(c, t);
    case Dim => FellAsleepIsOrderly(c, t, ok);
    case On => TurnedOnIsOrderly(c, t, ok);
    case _ =>
  }

  lemma SetIsOrderly(c: Config, s: ServiceState, value: uint32, duration: uint32, continuous: bool, ok: bool)
    requires Small(c) && Tracked(c, s)
    ensures Orderly(c, s, BrightnessSet(c, s, value, duration, continuous, ok).next)
  {
    UpdatedIsOrderly(c, UserPlaced(c, s, value, duration), value, duration, !continuous, ok);
  }

  lemma OverrideIsOrderly(c: Config, s: ServiceState, value: uint32, duration: uint32, ok: bool)
    requires Small(c) && Tracked(c, s)
    ensures Orderly(c, s, Overrode(c, s, value, duration, ok).next)
  {
    UpdatedIsOrderly(c, s.(overridden := true, overriddenValue := value, before := s.setting), value, duration, false,
                     ok);
  }

  lemma RestoreIsOrderly(c: Config, s: ServiceState, duration: uint32, ok: bool)
    requires Small(c) && Tracked(c, s)
    ensures Orderly(c, s, Restored(c, s, duration, ok).next)
  {
    UpdatedIsOrderly(c, s.(overridden := false), s.before, duration, true, ok);
  }

  lemma DiscountIsOrderly(c: Config, s: ServiceState, factor: real, duration: uint32, ok: bool)
    requires Small(c) && Tracked(c, s)
    ensures Orderly(c, s, Discounted(c, s, factor, duration, ok).next)
  {
    var t := s.(discount := SafeDiscount(factor));
    UpdatedIsOrderly(c, t, ScreenOnBrightness(c, t), duration, false, ok);
  }

  lemma BoostIsOrderly(c: Config, s: ServiceState, duration: uint32, ok: bool)
    requires Small(c) && Tracked(c, s)
    ensures Orderly(c, s, BoostStarted(c, s, duration, ok).next)
  {
    UpdatedIsOrderly(c, s.(boosted := true), c.maxParam, duration, false, ok);
  }

  lemma BoostEndIsOrderly(c: Config, s: ServiceState, duration: uint32, ok: bool)
    requires Small(c) && Tracked(c, s)
    ensures Orderly(c, s, BoostCancelled(c, s, duration, ok).next)
  {
    var t := s.(boosted := false, boostTasks := Cancelled(s.boostTasks));
    UpdatedIsOrderly(c, t, s.cached, duration, true, ok);
  }

  lemma LuxIsOrderly(c: Config, s: ServiceState, now: int, lux: real, ok: bool)
    requires Small(c) && Tracked(c, s)
    ensures Orderly(c, s, LuxProcessed(c, s, now, lux, ok))
  {
    if CanSetBrightness(s) && AsksForLevel(c, s, now, lux) {
      ReadingUpdates(c, s, now, lux, ok);
      UpdatedIsOrderly(c, ReadingAdopted(c, s, now, lux), AutoLevel(c, s, lux),
                       ReadingDuration(c, s, now, lux), true, ok);
    } else {
      OtherReadingsPass(c, s, now, lux, ok);
    }
  }

  lemma MaxSetIsOrderly(c: Config, s: ServiceState, factor: real, ok: bool)
    requires Small(c) && Tracked(c, s)
    ensures Orderly(c, s, MaxSet(c, s, factor, ok).next)
  {
    var t := s.(maxLimit := Min(NewMaxLimit(c, factor), MAX_DEFAULT_LEVEL));
    UpdatedIsOrderly(c, t, t.maxLimit, DEFAULT_MAX_BRIGHTNESS_DURATION, true, ok);
    UpdatedIsOrderly(c, t, t.current, DEFAULT_MAX_BRIGHTNESS_DURATION, true, ok);
  }

  lemma OffsetClearedIsOrderly(c: Config, s: ServiceState)
    requires Tracked(c, s)
    ensures Orderly(c, s, OffsetCleared(c, s))
  {
    StopIsOrderly(c, s);
  }

  lemma LevelRequestIsOrderly(c: Config, s: ServiceState, e: Event)
    requires Small(c) && Tracked(c, s)
    requires e.request.Set? || e.request.Override? || e.request.Restore? || e.request.DiscountBy?
    ensures Orderly(c, s, Step(c, s, e))
  {
    match e.request
    case Set(value, duration, continuous) => SetIsOrderly(c, s, value, duration, continuous, e.ok);
    case Override(value, duration) => OverrideIsOrderly(c, s, value, duration, e.ok);
    case Restore(duration) => RestoreIsOrderly(c, s, duration, e.ok);
    case DiscountBy(factor, duration) => DiscountIsOrderly(c, s, factor, duration, e.ok);
  }

  lemma BoostRequestIsOrderly(c: Config, s: ServiceState, e: Event)
    requires Small(c) && Tracked(c, s) && (e.request.Boost? || e.request.CancelBoost? || e.request.BoostEnd?)
    ensures Orderly(c, s, Step(c, s, e))
  {
    match e.request
    case Boost(duration) => BoostIsOrderly(c, s, duration, e.ok);
    case CancelBoost(duration) => BoostEndIsOrderly(c, s, duration, e.ok);
    case BoostEnd(task) =>
      if task in s.boostTasks.pending && task in s.boostDurations {
        BoostEndIsOrderly(c, s.(boostTasks := Fired(s.boostTasks, task)), s.boostDurations[task], e.ok);
      }
  }

  lemma OtherRequestIsOrderly(c: Config, s: ServiceState, e: Event)
    requires Small(c) && Tracked(c, s)
    requires e.request.SetDisplay? || e.request.Lux? || e.request.SetMax? || e.request.AutoAdjust? ||
             e.request.ClearUserOffset?
    ensures Orderly(c, s, Step(c, s, e))
  {
    match e.request
    case SetDisplay(state) => DisplaySetIsOrderly(c, s, state, e.ok);
    case Lux(now, lux) => LuxIsOrderly(c, s, now, lux, e.ok);
    case SetMax(factor) => MaxSetIsOrderly(c, s, factor, e.ok);
    case AutoAdjust(enable) => AutoAdjustIsOrderly(c, s, enable);
    case ClearUserOffset => OffsetClearedIsOrderly(c, s);
  }

  lemma AutoAdjustIsOrderly(c: Config, s: ServiceState, enable: bool)
    requires Tracked(c, s)
    ensures Orderly(c, s, AutoAdjusted(c, s, enable).next)
  {
    var t := AutoAdjusted(c, s, enable).next;
    assert t.device == s.device && t.setting == s.setting && t.maxLimit == s.maxLimit && t.dim == s.dim;
  }

  lemma RequestIsOrderly(c: Config, s: ServiceState, e: Event)
    requires Small(c) && Tracked(c, s) && !e.request.DimTick?
    ensures Orderly(c, s, Step(c, s, e))
  {
    var r := e.request;
    if r.Set? || r.Override? || r.Restore? || r.DiscountBy? {
      LevelRequestIsOrderly(c, s, e);
    } else if r.Boost? || r.CancelBoost? || r.BoostEnd? {
      BoostRequestIsOrderly(c, s, e);
    } else {
      OtherRequestIsOrderly(c, s, e);
    }
  }

  // ---------- ticks ----------

  lemma WalkTicks(c: Config, d: DimState)
    requires Walks(c, d)
    ensures var t := Ticked(d, d.tasks.handle.value);
            && t.changed == Some(DimmingProperties.Position(d.from, d.to, d.duration, d.step + 1))
            && (t.next.dimming ==> Walks(c, t.next) && t.next.current == t.changed.value && t.next.step == d.step + 1)
            && (!t.next.dimming ==> t.next.tasks.pending == {})
  {
    if d.step + 1 < DimmingProperties.TicksOf(d.from, d.to, d.duration) {
      DimmingProperties.MidwayContinues(d, d.from, d.to, d.duration, d.step);
      TickRemembers(d, d.tasks.handle.value);
    } else {
      DimmingProperties.MidwayEnds(d, d.from, d.to, d.duration, d.step);
    }
  }

  lemma TickRemembers(d: DimState, task: nat)
    ensures var t := Ticked(d, task).next; t.from == d.from && t.to == d.to && t.duration == d.duration
  {
  }

  lemma ReportSends(s: ServiceState, value: uint32, ok: bool)
    ensures var t := DimReported(s, value, ok);
            && t.device == (if ok then value else s.device) && t.dim == s.dim && t.maxLimit == s.maxLimit
            && (t.setting == s.setting || t.setting == SettingLevel(value))
  {
  }

  /** A pending tick sends the next position of its animation. */
  lemma TickSends(c: Config, s: ServiceState, task: nat, ok: bool)
    requires Tracked(c, s) && task in s.dim.tasks.pending
    ensures var d, t := s.dim, DimFired(s, task, ok);
            && d.dimming && Walks(c, d) && Tracked(c, t)
            && t.device == (if ok then DimmingProperties.Position(d.from, d.to, d.duration, d.step + 1) else s.device)
            && (ok ==> Synced(t))
  {
    var tick := Ticked(s.dim, task);
    WalkTicks(c, s.dim);
    DimmingProperties.TickKeepsConsistent(s.dim, task);
    ReportSends(s.(dim := tick.next), tick.changed.value, ok);
  }

  /** The first step of the animation ends above the range. */
  ghost predicate Steep(c: Config, d: DimState) {
    Animation(d.from, d.to) && DimmingProperties.Position(d.from, d.to, d.duration, 1) > TopLevel(c)
  }

  /** The first tick of an animation whose first step ends above the range. */
  ghost predicate SteepTick(c: Config, s: ServiceState, e: Event) {
    e.request.DimTick? && e.request.task in s.dim.tasks.pending && s.dim.step == 0 && Steep(c, s.dim)
  }

  lemma EarlierPositionsAreHigher(from: uint32, to: uint32, duration: uint32, k: nat)
    requires Animation(from, to) && k < DimmingProperties.TicksOf(from, to, duration)
    ensures DimmingProperties.Position(from, to, duration, k + 1) <=
            Max(to, DimmingProperties.Position(from, to, duration, k))
  {
    DimmingProperties.PositionsApproach(from, to, duration, k + 1);
  }

  lemma SteepTickOvershoots(c: Config, s: ServiceState, e: Event)
    requires Tracked(c, s) && e.ok && SteepTick(c, s, e)
    ensures Step(c, s, e).device > TopLevel(c)
  {
    TickSends(c, s, e.request.task, e.ok);
  }

  lemma LaterTickStays(c: Config, s: ServiceState, task: nat)
    requires Tracked(c, s) && Synced(s) && s.device <= TopLevel(c) && task in s.dim.tasks.pending
    requires s.dim.dimming && (0 < s.dim.step || !Steep(c, s.dim))
    ensures DimFired(s, task, true).device <= TopLevel(c)
  {
    var d := s.dim;
    TickSends(c, s, task, true);
    if 0 < d.step {
      EarlierPositionsAreHigher(d.from, d.to, d.duration, d.step);
    }
  }

  /** A tick takes the device out of the range only in a steep animation, and then its first one does. */
  lemma TickInRange(c: Config, s: ServiceState, e: Event)
    requires Tracked(c, s) && Synced(s) && s.device <= TopLevel(c) && e.request.DimTick? && e.ok
    ensures Step(c, s, e).device <= TopLevel(c) <==> !SteepTick(c, s, e)
    ensures Tracked(c, Step(c, s, e)) && Synced(Step(c, s, e))
  {
    if e.request.task in s.dim.tasks.pending {
      TickSends(c, s, e.request.task, e.ok);
      if SteepTick(c, s, e) {
        SteepTickOvershoots(c, s, e);
      } else {
        LaterTickStays(c, s, e.request.task);
      }
    }
  }

  lemma StepInRange(c: Config, s: ServiceState, e: Event)
    requires Small(c) && Tracked(c, s) && Synced(s) && s.device <= TopLevel(c) && (e.request.DimTick? ==> e.ok)
    ensures Step(c, s, e).device <= TopLevel(c) <==> !SteepTick(c, s, e)
    ensures Tracked(c, Step(c, s, e)) && Synced(Step(c, s, e))
  {
    if e.request.DimTick? {
      TickInRange(c, s, e);
    } else {
      RequestIsOrderly(c, s, e);
    }
  }

  /** Whether or not the display accepts it, a tick takes the device out of the range only in a steep animation. */
  lemma TickLeavesSteeply(c: Config, s: ServiceState, e: Event)
    requires Tracked(c, s) && s.device <= TopLevel(c) && e.request.DimTick?
    ensures Tracked(c, Step(c, s, e))
    ensures Step(c, s, e).device > TopLevel(c) ==> s.dim.dimming && Steep(c, s.dim)
  {
    var d := s.dim;
    if e.request.task in d.tasks.pending {
      TickSends(c, s, e.request.task, e.ok);
      LaterPositionsAreLower(d.from, d.to, d.duration, d.step + 1);
    }
  }

  lemma StepTracks(c: Config, s: ServiceState, e: Event)
    requires Small(c) && Tracked(c, s)
    ensures Tracked(c, Step(c, s, e))
    ensures s.device <= TopLevel(c) < Step(c, s, e).device ==>
              e.request.DimTick? && s.dim.dimming && Steep(c, s.dim)
  {
    if !e.request.DimTick? {
      RequestIsOrderly(c, s, e);
    } else if e.request.task in s.dim.tasks.pending {
      TickSends(c, s, e.request.task, e.ok);
      if s.device <= TopLevel(c) {
        TickLeavesSteeply(c, s, e);
      }
    }
  }

  // ---------- when the device stays in range ----------

  ghost predicate InRangeAfter(c: Config, s: ServiceState, es: seq<Event>, n: nat)
    requires n <= |es|
  {
    After(c, s, es[..n]).device <= TopLevel(c)
  }

  ghost predicate SteepTickAt(c: Config, s: ServiceState, es: seq<Event>, n: nat)
    requires n < |es|
  {
    SteepTick(c, After(c, s, es[..n]), es[n])
  }

  lemma {:induction false} RunTracks(c: Config, s: ServiceState, es: seq<Event>, n: nat)
    requires Small(c) && Tracked(c, s) && n <= |es|
    ensures Tracked(c, After(c, s, es[..n]))
    decreases n
  {
    if n == 0 {
      assert es[..0] == [];
    } else {
      RunTracks(c, s, es, n - 1);
      StepTracks(c, After(c, s, es[..n - 1]), es[n - 1]);
      AfterNext(c, s, es, n - 1);
    }
  }

  /**
   * On every run, whatever the display accepts: the device leaves the range that requests map to only by a tick of an
   * animation that started so far above it that already its first step ended above it.
   */
  lemma DeviceLeavesSteeply(c: Config, s: ServiceState, es: seq<Event>, n: nat)
    requires Small(c) && Tracked(c, s) && n < |es|
    requires InRangeAfter(c, s, es, n) && !InRangeAfter(c, s, es, n + 1)
    ensures var d := After(c, s, es[..n]).dim; es[n].request.DimTick? && d.dimming && Steep(c, d)
  {
    RunTracks(c, s, es, n);
    StepTracks(c, After(c, s, es[..n]), es[n]);
    AfterNext(c, s, es, n);
  }

  /** In range, tracked and in step, which the display's accepting every tick keeps up to a steep one. */
  ghost predicate Settled(c: Config, s: ServiceState) {
    Tracked(c, s) && Synced(s) && s.device <= TopLevel(c)
  }

  lemma InitialIsSettled(c: Config, display: DisplayState, setting: uint32, device: uint32)
    requires setting < TWO_TO_THE_31 && device <= TopLevel(c)
    ensures Settled(c, Initial(display, setting, device))
  {
  }

  lemma {:induction false} CalmRunSettles(c: Config, s: ServiceState, es: seq<Event>, n: nat)
    requires Small(c) && Settled(c, s) && n <= |es|
    requires forall m :: 0 <= m < n ==> (es[m].request.DimTick? ==> es[m].ok) && !SteepTickAt(c, s, es, m)
    ensures Settled(c, After(c, s, es[..n]))
    decreases n
  {
    if n == 0 {
      assert es[..0] == [];
    } else {
      CalmRunSettles(c, s, es, n - 1);
      StepInRange(c, After(c, s, es[..n - 1]), es[n - 1]);
      AfterNext(c, s, es, n - 1);
    }
  }

  lemma SteepTickLeaves(c: Config, s: ServiceState, es: seq<Event>, n: nat)
    requires Small(c) && Tracked(c, s) && n < |es| && es[n].ok && SteepTickAt(c, s, es, n)
    ensures !InRangeAfter(c, s, es, n + 1)
  {
    RunTracks(c, s, es, n);
    SteepTickOvershoots(c, After(c, s, es[..n]), es[n]);
    AfterNext(c, s, es, n);
  }

  /**
   * On every run on which the display accepts the ticks, the device stays in range iff no animation ticks that
   * started at a setting, toward a level and over a duration whose first step ends above the range.
   */
  lemma DeviceStaysInRange(c: Config, s: ServiceState, es: seq<Event>)
    requires Small(c) && Settled(c, s) && forall m :: 0 <= m < |es| && es[m].request.DimTick? ==> es[m].ok
    ensures (forall n :: 0 <= n <= |es| ==> InRangeAfter(c, s, es, n)) <==>
            (forall m :: 0 <= m < |es| ==> !SteepTickAt(c, s, es, m))
  {
    if forall m :: 0 <= m < |es| ==> !SteepTickAt(c, s, es, m) {
      forall n | 0 <= n <= |es| ensures InRangeAfter(c, s, es, n) {
        CalmRunSettles(c, s, es, n);
      }
    } else {
      var m :| 0 <= m < |es| && SteepTickAt(c, s, es, m);
      SteepTickLeaves(c, s, es, m);
    }
  }
}
