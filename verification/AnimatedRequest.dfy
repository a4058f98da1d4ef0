/** Overrides, discounts and boosts that are animated: what they leave behind. */
module AnimatedRequests {
  import opened Common
  import opened Tasks
  import opened LevelMaps
  import opened BrightnessDimmings
  import opened BrightnessServices
  import opened ServiceInvariants
  import opened ServiceRuns
  import opened ServiceAnimations
  import opened Strides
  import DimmingProperties

  // ---------- a gradual override ----------

  lemma SecondOverrideRestores(c: Config, y: ServiceState, value: uint32, ok: bool)
    requires IsScreenOnState(y.display) && !y.boosted
    ensures Step(c, Step(c, y, Event(Override(value, 0), ok)), Event(Restore(0), true)).setting ==
            Safe(c, y, y.setting)
  {
    var u := y.(overridden := true, overriddenValue := value, before := y.setting);
    UpdatedTouches(c, u, value, 0, false, ok);
    var x := Step(c, y, Event(Override(value, 0), ok));
    UpdatedAtOnce(c, x.(overridden := false), x.before, true, true);
  }

  /**
   * A gradual override, `k` ticks of it, a second override and a restore: what comes back is the setting the
   * ticks have moved to, and so the original setting iff that one clamps to the same.
   */
  lemma GradualOverrideRestores(c: Config, s: ServiceState, value: uint32, duration: uint32, ok: bool, k: nat,
                                second: uint32, secondOk: bool)
    requires Invariant(s) && IsScreenOnState(s.display) && !s.boosted && duration > 0
    requires s.setting < TWO_TO_THE_31 && Target(c, s, value) < TWO_TO_THE_31
    ensures var y := DimTicks(Step(c, s, Event(Override(value, duration), ok)), k);
            var t := Step(c, Step(c, y, Event(Override(second, 0), secondOk)), Event(Restore(0), true));
            var moved := MovedSetting(s, Target(c, s, value), duration, k);
            && y.setting == moved && t.setting == Safe(c, s, moved)
            && (t.setting == Safe(c, s, s.setting) <==> Safe(c, s, moved) == Safe(c, s, s.setting))
  {
    var u := s.(overridden := true, overriddenValue := value, before := s.setting);
    var z := Step(c, s, Event(Override(value, duration), ok));
    UpdatedTouches(c, u, value, duration, false, ok);
    GradualUpdateMoves(c, u, value, duration, false, ok, k);
    TicksTouch(z, k);
    SecondOverrideRestores(c, DimTicks(z, k), second, secondOk);
  }

  lemma OneStridePosition(from: uint32, to: uint32, duration: uint32)
    requires Animation(from, to) && StepsIn(duration, DEFAULT_UPDATE_TIME) == 1
    ensures DimmingProperties.Position(from, to, duration, 1) == to
  {
    DimmingProperties.OneStrideRun(from, to, duration);
  }

  /** One tick of a gradual override is enough: 200 comes back instead of 100. */
  lemma GradualOverrideMovesSetting(c: Config, s: ServiceState, second: uint32, secondOk: bool)
    requires Invariant(s) && s.display == On && !s.boosted && !s.sleep && s.discount == 1.0 && s.setting == 100
    requires c.minLimit == c.minParam == 1 && s.maxLimit == MAX_DEFAULT_LEVEL
    ensures var y := DimTicks(Step(c, s, Event(Override(200, 32), true)), 1);
            Step(c, Step(c, y, Event(Override(second, 0), secondOk)), Event(Restore(0), true)).setting == 200
  {
    assert DeviceLevel(1, 1.0, 200) == 175 && SettingLevel(175) == 200;
    OneStridePosition(100, 175, 32);
    GradualOverrideRestores(c, s, 200, 32, true, 1, second, secondOk);
  }

  // ---------- a gradual discount ----------

  /** The setting that `k` ticks after a discount leave; an instant discount leaves it alone. */
  ghost function DiscountedSetting(c: Config, s: ServiceState, factor: real, duration: uint32, k: nat): uint32 {
    var d := s.(discount := SafeDiscount(factor));
    if duration == 0 then s.setting else MovedSetting(d, Target(c, d, ScreenOnBrightness(c, d)), duration, k)
  }

  /** Nothing but what an animation touches, and the discount, has changed. */
  ghost predicate OnlyDiscounted(s: ServiceState, y: ServiceState, factor: real) {
    y == s.(discount := SafeDiscount(factor), setting := y.setting, level := y.level, cached := y.cached,
            device := y.device, dim := y.dim)
  }

  lemma InstantDiscountRests(c: Config, s: ServiceState, factor: real, ok: bool, k: nat)
    requires Invariant(s) && IsScreenOnState(s.display)
    ensures var y := DimTicks(Step(c, s, Event(DiscountBy(factor, 0), ok)), k);
            y.setting == s.setting && OnlyDiscounted(s, y, factor)
  {
    var d := s.(discount := SafeDiscount(factor));
    UpdatedTouches(c, d, ScreenOnBrightness(c, d), 0, false, ok);
    InstantUpdateIdles(c, d, ScreenOnBrightness(c, d), false, ok);
    IdleRests(Step(c, s, Event(DiscountBy(factor, 0), ok)), k);
  }

  lemma GradualDiscountMoves(c: Config, s: ServiceState, factor: real, duration: uint32, ok: bool, k: nat)
    requires Invariant(s) && IsScreenOnState(s.display) && s.setting < TWO_TO_THE_31 && duration > 0
    requires Target(c, s.(discount := SafeDiscount(factor)), ScreenOnBrightness(c, s)) < TWO_TO_THE_31
    ensures var y := DimTicks(Step(c, s, Event(DiscountBy(factor, duration), ok)), k);
            y.setting == DiscountedSetting(c, s, factor, duration, k) && OnlyDiscounted(s, y, factor)
  {
    var d, z := s.(discount := SafeDiscount(factor)), Step(c, s, Event(DiscountBy(factor, duration), ok));
    UpdatedTouches(c, d, ScreenOnBrightness(c, d), duration, false, ok);
    GradualUpdateMoves(c, d, ScreenOnBrightness(c, d), duration, false, ok, k);
    TicksTouch(z, k);
  }

  lemma DiscountMoves(c: Config, s: ServiceState, factor: real, duration: uint32, ok: bool, k: nat)
    requires Invariant(s) && IsScreenOnState(s.display) && s.setting < TWO_TO_THE_31
    requires Target(c, s.(discount := SafeDiscount(factor)), ScreenOnBrightness(c, s)) < TWO_TO_THE_31
    ensures var y := DimTicks(Step(c, s, Event(DiscountBy(factor, duration), ok)), k);
            y.setting == DiscountedSetting(c, s, factor, duration, k) && OnlyDiscounted(s, y, factor)
  {
    if duration > 0 {
      GradualDiscountMoves(c, s, factor, duration, ok, k);
    } else {
      InstantDiscountRests(c, s, factor, ok, k);
    }
  }

  /**
   * A discount, `k` ticks of it, and back to factor one at once, boosted, overridden or neither: the setting is the
   * one the ticks have moved to, and the device shows undiscounted the boost, the override or that setting. So both
   * come back if the discount was instant, asleep, or not yet ticked; otherwise the setting does iff its last device
   * level maps back to it.
   */
  lemma DiscountComesBack(c: Config, s: ServiceState, factor: real, duration: uint32, ok: bool, k: nat)
    requires Invariant(s) && IsScreenOnState(s.display) && s.setting < TWO_TO_THE_31
    requires Target(c, s.(discount := SafeDiscount(factor)), ScreenOnBrightness(c, s)) < TWO_TO_THE_31
    ensures var y := DimTicks(Step(c, s, Event(DiscountBy(factor, duration), ok)), k);
            var t := Step(c, y, Event(DiscountBy(1.0, 0), true));
            var moved := DiscountedSetting(c, s, factor, duration, k);
            var shown := ScreenOnBrightness(c, s.(setting := moved));
            && t.setting == moved && t.device == DeviceLevel(c.minParam, 1.0, Safe(c, s, shown))
            && (duration == 0 || s.sleep || k == 0 ==> t.setting == s.setting)
  {
    var y := DimTicks(Step(c, s, Event(DiscountBy(factor, duration), ok)), k);
    DiscountMoves(c, s, factor, duration, ok, k);
    UpdatedTouches(c, y.(discount := 1.0), ScreenOnBrightness(c, y), 0, false, true);
    UpdatedAtOnce(c, y.(discount := 1.0), ScreenOnBrightness(c, y), false, true);
  }

  lemma HalfOfHundred()
    ensures DeviceLevel(1, 0.5, 100) == 44 && SettingLevel(44) == 50
  {
    assert DiscountedLevel(0.5, 100) == 50;
  }

  /** One tick of a gradual discount by half turns the setting 100 into 50 for good. */
  lemma GradualDiscountSticks(c: Config, s: ServiceState)
    requires Invariant(s) && s.display == On && !s.boosted && !s.overridden && !s.sleep && s.setting == 100
    requires c.minLimit == c.minParam == 1 && s.maxLimit == MAX_DEFAULT_LEVEL
    ensures var y := DimTicks(Step(c, s, Event(DiscountBy(0.5, 32), true)), 1);
            Step(c, y, Event(DiscountBy(1.0, 0), true)).setting == 50
  {
    HalfOfHundred();
    OneStridePosition(100, 44, 32);
    DiscountComesBack(c, s, 0.5, 32, true, 1);
  }

  /** Even a gradual discount by one moves a setting whose device level maps back to another: 5 becomes 4. */
  lemma FactorOneMovesSetting(c: Config, s: ServiceState)
    requires Invariant(s) && s.display == On && !s.boosted && !s.overridden && !s.sleep && s.setting == 5
    requires c.minLimit == c.minParam == 1 && s.maxLimit == MAX_DEFAULT_LEVEL
    ensures DimTicks(Step(c, s, Event(DiscountBy(1.0, 32), true)), 1).setting == 4
  {
    assert DeviceLevel(1, 1.0, 5) == 4 && SettingLevel(4) == 4;
    OneStridePosition(5, 4, 32);
    DiscountMoves(c, s, 1.0, 32, true, 1);
  }

  // ---------- a gradual boost ----------

  /** During a boost: a request for a level, or a tick of the animation that the display accepts. */
  datatype Beat = SetTo(value: uint32, duration: uint32, continuous: bool, ok: bool) | OneTick

  ghost function Beaten(c: Config, t: ServiceState, beat: Beat): ServiceState {
    match beat
    case SetTo(value, duration, continuous, ok) => BrightnessSet(c, t, value, duration, continuous, ok).next
    case OneTick => if t.dim.tasks.handle.Some? then DimFired(t, t.dim.tasks.handle.value, true) else t
  }

  ghost function Played(c: Config, z: ServiceState, beats: seq<Beat>): ServiceState {
    if beats == [] then z else Beaten(c, Played(c, z, beats[..|beats| - 1]), beats[|beats| - 1])
  }

  ghost function TicksIn(beats: seq<Beat>): nat {
    if beats == [] then 0 else TicksIn(beats[..|beats| - 1]) + if beats[|beats| - 1].OneTick? then 1 else 0
  }

  /** A tick does not read the cached value, and writes it only with the setting. */
  lemma TickCaches(t: ServiceState, x: uint32, task: nat)
    ensures var u := DimFired(t, task, true);
            DimFired(t.(cached := x), task, true) ==
            u.(cached := if t.dim.dimming && !t.sleep then u.setting else x)
  {
    var tick := Ticked(t.dim, task);
    assert tick.changed.Some? <==> t.dim.dimming;
    if tick.changed.Some? {
      ReportCaches(t.(dim := tick.next), x, tick.changed.value);
    }
  }

  lemma ReportCaches(t: ServiceState, x: uint32, value: uint32)
    ensures var u := DimReported(t, value, true);
            DimReported(t.(cached := x), value, true) == u.(cached := if t.sleep then x else u.setting)
  {
  }

  lemma SetPlays(c: Config, t: ServiceState, x: uint32, beat: Beat)
    requires t.boosted && !t.overridden && beat.SetTo?
    ensures Beaten(c, t.(cached := x), beat) == t.(cached := beat.value)
  {
  }

  /** The cached value after tick `k + 1`, if it was `x` before. */
  ghost function CachedByTick(s: ServiceState, to: uint32, duration: uint32, k: nat, x: uint32): uint32 {
    if s.sleep || RunLength(s.setting, to, duration) <= k then x
    else SettingLevel(DimmingProperties.Position(s.setting, to, duration, k + 1))
  }

  lemma TickWrites(s: ServiceState, z: ServiceState, to: uint32, duration: uint32, d: DimState, k: nat, x: uint32)
    requires DimmingProperties.Consistent(d) && !d.dimming && s.setting < TWO_TO_THE_31 && to < TWO_TO_THE_31
    requires z == s.(dim := Started(d, s.setting, to, duration))
    ensures var t, u := DimTicks(z, k), DimTicks(z, k + 1);
            && (if t.dim.dimming && !t.sleep then u.setting else x) == CachedByTick(s, to, duration, k, x)
            && (t.dim.dimming ==> t.dim.tasks.handle.Some?)
  {
    StartedMoves(s, z, to, duration, d, k);
    StartedMoves(s, z, to, duration, d, k + 1);
    SentMeans(s, DimTicks(z, k + 1).dim, to, duration, k + 1);
    TicksTouch(z, k);
  }

  lemma NextTick(z: ServiceState, k: nat)
    ensures var t := DimTicks(z, k);
            DimTicks(z, k + 1) ==
            if t.dim.tasks.handle.Some? then DimFired(t, t.dim.tasks.handle.value, true) else t
  {
  }

  lemma OneTickBeats(c: Config, t: ServiceState, x: uint32)
    requires t.dim.dimming ==> t.dim.tasks.handle.Some?
    ensures var u := if t.dim.tasks.handle.Some? then DimFired(t, t.dim.tasks.handle.value, true) else t;
            Beaten(c, t.(cached := x), OneTick) ==
            u.(cached := if t.dim.dimming && !t.sleep then u.setting else x)
  {
    if t.dim.tasks.handle.Some? {
      TickCaches(t, x, t.dim.tasks.handle.value);
    }
  }

  lemma TickPlays(c: Config, s: ServiceState, z: ServiceState, to: uint32, duration: uint32, d: DimState,
                  k: nat, x: uint32)
    requires DimmingProperties.Consistent(d) && !d.dimming && s.setting < TWO_TO_THE_31 && to < TWO_TO_THE_31
    requires z == s.(dim := Started(d, s.setting, to, duration))
    ensures Beaten(c, DimTicks(z, k).(cached := x), OneTick) ==
            DimTicks(z, k + 1).(cached := CachedByTick(s, to, duration, k, x))
  {
    TickWrites(s, z, to, duration, d, k, x);
    OneTickBeats(c, DimTicks(z, k), x);
    NextTick(z, k);
  }

  /** The cached value after one more beat, if `k` ticks came before and it was `x`. */
  ghost function CachedByBeat(s: ServiceState, to: uint32, duration: uint32, k: nat, x: uint32, beat: Beat): uint32 {
    if beat.SetTo? then beat.value else CachedByTick(s, to, duration, k, x)
  }

  /** The cached value after the beats: the last level requested, unless a tick outside sleep came after it. */
  ghost function CachedAfter(s: ServiceState, to: uint32, duration: uint32, beats: seq<Beat>): uint32 {
    if beats == [] then s.cached
    else
      var front := beats[..|beats| - 1];
      CachedByBeat(s, to, duration, TicksIn(front), CachedAfter(s, to, duration, front), beats[|beats| - 1])
  }

  lemma BeatPlays(c: Config, s: ServiceState, z: ServiceState, to: uint32, duration: uint32, d: DimState,
                  k: nat, x: uint32, beat: Beat)
    requires DimmingProperties.Consistent(d) && !d.dimming && s.setting < TWO_TO_THE_31 && to < TWO_TO_THE_31
    requires z == s.(dim := Started(d, s.setting, to, duration)) && z.boosted && !z.overridden
    ensures Beaten(c, DimTicks(z, k).(cached := x), beat) ==
            DimTicks(z, if beat.OneTick? then k + 1 else k).(cached := CachedByBeat(s, to, duration, k, x, beat))
  {
    if beat.OneTick? {
      TickPlays(c, s, z, to, duration, d, k, x);
    } else {
      TicksTouch(z, k);
      SetPlays(c, DimTicks(z, k), x, beat);
    }
  }

  lemma {:induction false} BeatsPlay(c: Config, s: ServiceState, z: ServiceState, to: uint32, duration: uint32,
                                     d: DimState, beats: seq<Beat>)
    requires DimmingProperties.Consistent(d) && !d.dimming && s.setting < TWO_TO_THE_31 && to < TWO_TO_THE_31
    requires z == s.(dim := Started(d, s.setting, to, duration)) && z.boosted && !z.overridden
    ensures Played(c, z, beats) == DimTicks(z, TicksIn(beats)).(cached := CachedAfter(s, to, duration, beats))
    decreases |beats|
  {
    if beats == [] {
      assert DimTicks(z, 0).(cached := s.cached) == z;
    } else {
      BeatsPlay(c, s, z, to, duration, d, beats[..|beats| - 1]);
      LastBeatPlays(c, s, z, to, duration, d, beats);
    }
  }

  lemma LastBeatPlays(c: Config, s: ServiceState, z: ServiceState, to: uint32, duration: uint32,
                      d: DimState, beats: seq<Beat>)
    requires DimmingProperties.Consistent(d) && !d.dimming && s.setting < TWO_TO_THE_31 && to < TWO_TO_THE_31
    requires z == s.(dim := Started(d, s.setting, to, duration)) && z.boosted && !z.overridden && beats != []
    requires var front := beats[..|beats| - 1];
             Played(c, z, front) == DimTicks(z, TicksIn(front)).(cached := CachedAfter(s, to, duration, front))
    ensures Played(c, z, beats) == DimTicks(z, TicksIn(beats)).(cached := CachedAfter(s, to, duration, beats))
  {
    var front, last := beats[..|beats| - 1], beats[|beats| - 1];
    var k, x := TicksIn(front), CachedAfter(s, to, duration, front);
    var n := if last.OneTick? then k + 1 else k;
    PlayedNext(c, z, beats);
    BeatPlays(c, s, z, to, duration, d, k, x, last);
    assert TicksIn(beats) == n && CachedAfter(s, to, duration, beats) == CachedByBeat(s, to, duration, k, x, last);
  }

  lemma PlayedNext(c: Config, z: ServiceState, beats: seq<Beat>)
    requires beats != []
    ensures Played(c, z, beats) == Beaten(c, Played(c, z, beats[..|beats| - 1]), beats[|beats| - 1])
  {
  }

  lemma BoostStarts(c: Config, s: ServiceState, duration: uint32, ok: bool)
    requires Invariant(s) && IsScreenOnState(s.display) && !s.overridden && !s.boosted && duration > 0
    ensures var z := BoostStarted(c, s, duration, ok).next;
            var u := s.(boosted := true, boostTasks := z.boostTasks, boostDurations := z.boostDurations);
            z == u.(dim := Started(DimStopped(s).dim, s.setting, Target(c, s, c.maxParam), duration))
  {
    UpdateStarts(c, s.(boosted := true), c.maxParam, duration, false, ok);
  }

  /** The service during a gradual boost, after requests for levels and ticks. */
  ghost function Boosted(c: Config, s: ServiceState, duration: uint32, ok: bool, beats: seq<Beat>): ServiceState {
    Played(c, BoostStarted(c, s, duration, ok).next, beats)
  }

  /** A gradual boost may start, with levels that its animation is exact for. */
  ghost predicate MayBoost(c: Config, s: ServiceState, duration: uint32) {
    && Invariant(s) && IsScreenOnState(s.display) && !s.overridden && !s.boosted && duration > 0
    && s.setting < TWO_TO_THE_31 && Target(c, s, c.maxParam) < TWO_TO_THE_31
  }

  lemma BoostedShows(c: Config, s: ServiceState, duration: uint32, ok: bool, beats: seq<Beat>)
    requires MayBoost(c, s, duration)
    ensures var y, z, to := Boosted(c, s, duration, ok, beats), BoostStarted(c, s, duration, ok).next,
                            Target(c, s, c.maxParam);
            && y == s.(boosted := true, boostTasks := z.boostTasks, boostDurations := z.boostDurations,
                       device := MovedDevice(s, to, duration, TicksIn(beats)),
                       setting := MovedSetting(s, to, duration, TicksIn(beats)),
                       level := y.level, cached := CachedAfter(s, to, duration, beats), dim := y.dim)
            && DimmingProperties.Consistent(y.dim)
  {
    var z, to, d := BoostStarted(c, s, duration, ok).next, Target(c, s, c.maxParam), DimStopped(s).dim;
    var u := s.(boosted := true, boostTasks := z.boostTasks, boostDurations := z.boostDurations);
    UpdateStarts(c, s, c.maxParam, duration, false, ok);
    BoostStarts(c, s, duration, ok);
    BeatsPlay(c, u, z, to, duration, d, beats);
    CachedAlike(s, u, to, duration, beats);
    StartedMoves(u, z, to, duration, d, TicksIn(beats));
    SentMeans(u, DimTicks(z, TicksIn(beats)).dim, to, duration, TicksIn(beats));
    TicksTouch(z, TicksIn(beats));
    DimmingProperties.StartKeepsConsistent(d, s.setting, to, duration);
    TicksKeepConsistent(z, TicksIn(beats));
  }

  lemma {:induction false} TicksKeepConsistent(z: ServiceState, k: nat)
    requires DimmingProperties.Consistent(z.dim)
    ensures DimmingProperties.Consistent(DimTicks(z, k).dim)
    decreases k
  {
    if k > 0 {
      var t := DimTicks(z, k - 1);
      TicksKeepConsistent(z, k - 1);
      if t.dim.tasks.handle.Some? {
        FiringKeepsConsistent(t, t.dim.tasks.handle.value);
      }
    }
  }

  lemma FiringKeepsConsistent(t: ServiceState, task: nat)
    requires DimmingProperties.Consistent(t.dim) && t.dim.tasks.handle == Some(task)
    ensures DimmingProperties.Consistent(DimFired(t, task, true).dim)
  {
    if task in t.dim.tasks.pending {
      DimmingProperties.TickKeepsConsistent(t.dim, task);
    }
  }

  /**
   * A gradual boost, any number of requests for levels and of its ticks, and an instant end of it: what is applied is
   * the value cached last, be it by a request or by a tick. So the last request counts, as it does for an instant
   * boost, unless a tick outside sleep comes after it and caches another value.
   */
  lemma GradualBoostEnds(c: Config, s: ServiceState, duration: uint32, ok: bool, beats: seq<Beat>)
    requires MayBoost(c, s, duration)
    ensures var y := Boosted(c, s, duration, ok, beats);
            var t, to := BoostCancelled(c, y, 0, true).next, Target(c, s, c.maxParam);
            var value := Safe(c, s, CachedAfter(s, to, duration, beats));
            && y.boosted && y.setting == MovedSetting(s, to, duration, TicksIn(beats))
            && !t.boosted && t.setting == t.cached == value && t.device == DeviceLevel(c.minParam, s.discount, value)
  {
    BoostedShows(c, s, duration, ok, beats);
    BoostEndsAtOnce(c, Boosted(c, s, duration, ok, beats));
  }

  /** A gradual end of a boost, `k` ticks of it. */
  lemma BoostFades(c: Config, y: ServiceState, duration: uint32, ok: bool, k: nat)
    requires y.boosted && DimmingProperties.Consistent(y.dim) && duration > 0
    requires y.setting < TWO_TO_THE_31 && Target(c, y, y.cached) < TWO_TO_THE_31
    ensures var t, to := DimTicks(BoostCancelled(c, y, duration, ok).next, k), Target(c, y, y.cached);
            t.device == MovedDevice(y, to, duration, k) && t.setting == MovedSetting(y, to, duration, k)
  {
    GradualUpdateMoves(c, y.(boosted := false, boostTasks := Cancelled(y.boostTasks)), y.cached, duration, true, ok, k);
  }

  lemma EndIsScheduled(c: Config, s: ServiceState, duration: uint32, ok: bool)
    requires Invariant(s) && IsScreenOnState(s.display) && !s.overridden && !s.boosted
    ensures var z := BoostStarted(c, s, duration, ok).next;
            && Single(z.boostTasks) && z.boostTasks.handle.value in z.boostDurations
            && z.boostDurations[z.boostTasks.handle.value] == duration
  {
    BoostStartedKeepsInvariant(c, s, duration, ok);
    UpdatedTouches(c, s.(boosted := true), c.maxParam, duration, false, ok);
  }

  /**
   * The end that a gradual boost schedules for itself is as gradual: from the setting its ticks have moved to, it walks
   * the device toward the level of the value cached last, `k` ticks of it taking device and setting as far as any
   * gradual update would.
   */
  lemma GradualBoostTimesOut(c: Config, s: ServiceState, duration: uint32, ok: bool, beats: seq<Beat>,
                             endOk: bool, k: nat)
    requires MayBoost(c, s, duration)
    requires Target(c, s, CachedAfter(s, Target(c, s, c.maxParam), duration, beats)) < TWO_TO_THE_31
    ensures var y, to := Boosted(c, s, duration, ok, beats), Target(c, s, c.maxParam);
            var goal := Target(c, s, CachedAfter(s, to, duration, beats));
            && Single(y.boostTasks) && y.boostTasks.handle.value in y.boostDurations
            && var t := DimTicks(BoostTimedOut(c, y, y.boostTasks.handle.value, endOk), k);
            && t.device == MovedDevice(y, goal, duration, k) && t.setting == MovedSetting(y, goal, duration, k)
            && y.device == MovedDevice(s, to, duration, TicksIn(beats))
            && y.setting == MovedSetting(s, to, duration, TicksIn(beats)) && y.sleep == s.sleep
  {
    var y := Boosted(c, s, duration, ok, beats);
    BoostedShows(c, s, duration, ok, beats);
    EndIsScheduled(c, s, duration, ok);
    TimedOutFades(c, y, duration, endOk, k);
  }

  lemma TimedOutFades(c: Config, y: ServiceState, duration: uint32, ok: bool, k: nat)
    requires y.boosted && DimmingProperties.Consistent(y.dim) && duration > 0 && Single(y.boostTasks)
    requires y.boostTasks.handle.value in y.boostDurations
    requires y.boostDurations[y.boostTasks.handle.value] == duration
    requires y.setting < TWO_TO_THE_31 && Target(c, y, y.cached) < TWO_TO_THE_31
    ensures var t := DimTicks(BoostTimedOut(c, y, y.boostTasks.handle.value, ok), k);
            && t.device == MovedDevice(y, Target(c, y, y.cached), duration, k)
            && t.setting == MovedSetting(y, Target(c, y, y.cached), duration, k)
  {
    BoostFades(c, y.(boostTasks := Fired(y.boostTasks, y.boostTasks.handle.value)), duration, ok, k);
  }

  lemma {:induction false} CachedAlike(s: ServiceState, u: ServiceState, to: uint32, duration: uint32, beats: seq<Beat>)
    requires u.sleep == s.sleep && u.setting == s.setting && u.cached == s.cached
    ensures CachedAfter(u, to, duration, beats) == CachedAfter(s, to, duration, beats)
    decreases |beats|
  {
    if beats != [] {
      CachedAlike(s, u, to, duration, beats[..|beats| - 1]);
    }
  }

  lemma BoostEndsAtOnce(c: Config, y: ServiceState)
    requires y.boosted
    ensures var t, value := BoostCancelled(c, y, 0, true).next, Safe(c, y, y.cached);
            !t.boosted && t.setting == t.cached == value && t.device == DeviceLevel(c.minParam, y.discount, value)
  {
    var q := y.(boosted := false, boostTasks := Cancelled(y.boostTasks));
    UpdatedTouches(c, q, y.cached, 0, true, true);
    UpdatedAtOnce(c, q, y.cached, true, true);
  }

  /** One tick after a request for 80 is enough to end a gradual boost at 255. */
  lemma GradualBoostForgets(c: Config, s: ServiceState)
    requires Invariant(s) && s.display == On && !s.overridden && !s.boosted && !s.sleep && s.discount == 1.0
    requires s.setting == 100 && c.maxParam == 255 && c.minLimit == c.minParam == 1 && s.maxLimit == MAX_DEFAULT_LEVEL
    ensures var y := Boosted(c, s, 32, true, [SetTo(80, 0, false, true), OneTick]);
            BoostCancelled(c, y, 0, true).next.setting == 255
  {
    var beats := [SetTo(80, 0, false, true), OneTick];
    assert DeviceLevel(1, 1.0, 255) == 223 && SettingLevel(223) == 255;
    assert beats[..1] == [SetTo(80, 0, false, true)] && beats[..1][..0] == [];
    OneStridePosition(100, 223, 32);
    DimmingProperties.RunLengthIsBounded(100, 223, 32);
    assert TicksIn(beats[..1]) == 0;
    assert CachedAfter(s, 223, 32, beats) == 255;
    GradualBoostEnds(c, s, 32, true, beats);
  }
}
