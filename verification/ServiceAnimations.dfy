/** Animations of the brightness service, carried through to the device and the persisted setting. */
module ServiceAnimations {
  import opened Common
  import opened Tasks
  import opened LevelMaps
  import opened LightLuxManagers
  import opened CalculationManagers
  import opened BrightnessDimmings
  import opened BrightnessServices
  import opened ServiceInvariants
  import opened ServiceRuns
  import opened Strides
  import DimmingProperties

  /** The device level that a requested level comes to. */
  ghost function Target(c: Config, s: ServiceState, value: uint32): uint32 {
    DeviceLevel(c.minParam, s.discount, Safe(c, s, value))
  }

  // ---------- an animation left alone ----------

  /** The service after its pending dimming task has fired `k` times, the display accepting every level. */
  ghost function DimTicks(s: ServiceState, k: nat): ServiceState {
    if k == 0 then s
    else
      var t := DimTicks(s, k - 1);
      if t.dim.tasks.handle.Some? then DimFired(t, t.dim.tasks.handle.value, true) else t
  }

  /** The service once its animation is at `d` and has sent `last` to the display. */
  ghost function Shown(z: ServiceState, d: DimState, last: Option<uint32>): ServiceState {
    if last == None then z.(dim := d) else DimReported(z.(dim := d), last.value, true)
  }

  lemma TickShows(z: ServiceState, d: DimState, last: Option<uint32>, task: nat)
    requires d.dimming
    ensures var tick := Ticked(d, task);
            DimFired(Shown(z, d, last), task, true) == Shown(z, tick.next, tick.changed)
  {
    var tick := Ticked(d, task);
    assert tick.changed.Some? && Shown(z, d, last).dim == d;
    ReportReplacesReport(z, d, last, tick.next, tick.changed.value);
  }

  /** What a tick reports replaces what the ticks before it have reported. */
  lemma ReportReplacesReport(z: ServiceState, d: DimState, last: Option<uint32>, next: DimState, value: uint32)
    ensures DimReported(Shown(z, d, last).(dim := next), value, true) == DimReported(z.(dim := next), value, true)
  {
    if last == None {
      assert z.(dim := d).(dim := next) == z.(dim := next);
    } else if z.sleep {
      assert Shown(z, d, last).(dim := next) == z.(dim := next, device := last.value);
    } else {
      var written := SettingLevel(last.value);
      assert Shown(z, d, last).(dim := next) ==
             z.(dim := next, device := last.value, setting := written, level := written, cached := written);
    }
  }

  lemma NextTickShows(z: ServiceState, k: nat, last: Option<uint32>)
    requires var e := DimmingProperties.Ticks(z.dim, k);
             e.dimming && e.tasks.handle.Some? && DimTicks(z, k) == Shown(z, e, last)
    ensures DimTicks(z, k + 1) ==
            Shown(z, DimmingProperties.Ticks(z.dim, k + 1), DimmingProperties.Emission(z.dim, k + 1))
  {
    var e := DimmingProperties.Ticks(z.dim, k);
    TickShows(z, e, last, e.tasks.handle.value);
  }

  lemma {:induction false} TicksShow(z: ServiceState, from: uint32, to: uint32, duration: uint32,
                                     d: DimState, k: nat)
    requires DimmingProperties.Consistent(d) && !d.dimming && Animation(from, to)
    requires z.dim == Started(d, from, to, duration) && k <= DimmingProperties.TicksOf(from, to, duration)
    ensures DimTicks(z, k) == Shown(z, DimmingProperties.Ticks(z.dim, k),
                                    if k == 0 then None else Some(DimmingProperties.Position(from, to, duration, k)))
    decreases k
  {
    if k > 0 {
      TicksShow(z, from, to, duration, d, k - 1);
      DimmingProperties.TickReports(d, from, to, duration, k);
      NextTickShows(z, k - 1, if k == 1 then None
                              else Some(DimmingProperties.Position(from, to, duration, k - 1)));
    }
  }

  lemma {:induction false} IdleRests(z: ServiceState, k: nat)
    requires !z.dim.dimming && z.dim.tasks.pending == {}
    ensures DimTicks(z, k) == z
    decreases k
  {
    if k > 0 {
      IdleRests(z, k - 1);
      if z.dim.tasks.handle.Some? {
        assert Fired(z.dim.tasks, z.dim.tasks.handle.value) == z.dim.tasks;
      }
    }
  }

  lemma {:induction false} TicksSplit(z: ServiceState, n: nat, k: nat)
    ensures DimTicks(z, n + k) == DimTicks(DimTicks(z, n), k)
    decreases k
  {
    if k > 0 {
      TicksSplit(z, n, k - 1);
    }
  }

  lemma {:induction false} TicksTouch(z: ServiceState, k: nat)
    ensures var t := DimTicks(z, k);
            t == z.(setting := t.setting, level := t.level, cached := t.cached, device := t.device, dim := t.dim)
  {
    if k > 0 {
      TicksTouch(z, k - 1);
      var t := DimTicks(z, k - 1);
      if t.dim.tasks.handle.Some? {
        TickTouches(t, t.dim.tasks.handle.value, true);
      }
    }
  }

  /** The number of ticks of an animation; none is started between equal levels. */
  ghost function RunLength(from: uint32, to: uint32, duration: uint32): nat {
    if Animation(from, to) then DimmingProperties.TicksOf(from, to, duration) else 0
  }

  /** The device level after `k` ticks; an update to the number the setting has already starts no animation. */
  ghost function MovedDevice(s: ServiceState, to: uint32, duration: uint32, k: nat): uint32 {
    if k == 0 || !Animation(s.setting, to) then s.device
    else DimmingProperties.Position(s.setting, to, duration, k)
  }

  /** The persisted setting after `k` ticks: asleep it stays, awake it follows the device. */
  ghost function MovedSetting(s: ServiceState, to: uint32, duration: uint32, k: nat): uint32 {
    if s.sleep || k == 0 || !Animation(s.setting, to) then s.setting
    else SettingLevel(DimmingProperties.Position(s.setting, to, duration, k))
  }

  lemma UpdateStarts(c: Config, s: ServiceState, value: uint32, duration: uint32, updateSetting: bool, ok: bool)
    requires DimmingProperties.Consistent(s.dim) && duration > 0
    ensures var z := Updated(c, s, value, duration, updateSetting, ok).next;
            && DimmingProperties.Consistent(DimStopped(s).dim) && !DimStopped(s).dim.dimming
            && z == s.(dim := Started(DimStopped(s).dim, s.setting, Target(c, s, value), duration))
  {
    RestartKeepsConsistent(s.dim, s.setting, Target(c, s, value), duration);
  }

  /** What the first `k` ticks of an animation have sent to the display last. */
  ghost function Sent(from: uint32, to: uint32, duration: uint32, k: nat): Option<uint32> {
    if k == 0 || !Animation(from, to) then None else Some(DimmingProperties.Position(from, to, duration, k))
  }

  lemma AnimationRuns(z: ServiceState, from: uint32, to: uint32, duration: uint32, d: DimState, k: nat)
    requires DimmingProperties.Consistent(d) && !d.dimming && Animation(from, to)
    requires z.dim == Started(d, from, to, duration) && k <= DimmingProperties.TicksOf(from, to, duration)
    ensures var t := DimTicks(z, k);
            && t == Shown(z, t.dim, Sent(from, to, duration, k))
            && (t.dim.dimming <==> k < DimmingProperties.TicksOf(from, to, duration))
            && (if t.dim.dimming then t.dim.tasks.handle.Some? else t.dim.tasks.pending == {})
  {
    TicksShow(z, from, to, duration, d, k);
    DimmingProperties.UndisturbedRun(d, from, to, duration, k);
  }

  lemma AnimationRests(z: ServiceState, from: uint32, to: uint32, duration: uint32, d: DimState, k: nat)
    requires DimmingProperties.Consistent(d) && !d.dimming && Animation(from, to)
    requires z.dim == Started(d, from, to, duration) && DimmingProperties.TicksOf(from, to, duration) <= k
    ensures var n := DimmingProperties.TicksOf(from, to, duration);
            && DimTicks(z, k) == DimTicks(z, n) && Sent(from, to, duration, k) == Sent(from, to, duration, n)
  {
    var n := DimmingProperties.TicksOf(from, to, duration);
    AnimationRuns(z, from, to, duration, d, n);
    DimmingProperties.RunLengthIsBounded(from, to, duration);
    TicksSplit(z, n, k - n);
    IdleRests(DimTicks(z, n), k - n);
  }

  lemma AnimationMoves(z: ServiceState, from: uint32, to: uint32, duration: uint32, d: DimState, k: nat)
    requires DimmingProperties.Consistent(d) && !d.dimming && Animation(from, to)
    requires z.dim == Started(d, from, to, duration)
    ensures var t := DimTicks(z, k);
            && t == Shown(z, t.dim, Sent(from, to, duration, k))
            && (t.dim.dimming <==> k < DimmingProperties.TicksOf(from, to, duration))
            && (if t.dim.dimming then t.dim.tasks.handle.Some? else t.dim.tasks.pending == {})
  {
    var n := DimmingProperties.TicksOf(from, to, duration);
    if k < n {
      AnimationRuns(z, from, to, duration, d, k);
    } else {
      AnimationRuns(z, from, to, duration, d, n);
      AnimationRests(z, from, to, duration, d, k);
    }
  }

  lemma StartedMoves(s: ServiceState, z: ServiceState, to: uint32, duration: uint32, d: DimState, k: nat)
    requires DimmingProperties.Consistent(d) && !d.dimming && s.setting < TWO_TO_THE_31 && to < TWO_TO_THE_31
    requires z == s.(dim := Started(d, s.setting, to, duration))
    ensures var t := DimTicks(z, k);
            && t == Shown(s, t.dim, Sent(s.setting, to, duration, k))
            && (t.dim.dimming <==> k < RunLength(s.setting, to, duration))
            && (if t.dim.dimming then t.dim.tasks.handle.Some? else t.dim.tasks.pending == {})
  {
    if Animation(s.setting, to) {
      AnimationMoves(z, s.setting, to, duration, d, k);
    } else {
      IdleRests(z, k);
    }
  }

  lemma ShownMeans(z: ServiceState, d: DimState, last: Option<uint32>)
    ensures var t := Shown(z, d, last);
            && t.dim == d
            && t.device == (if last == None then z.device else last.value)
            && t.setting == if last == None || z.sleep then z.setting else SettingLevel(last.value)
  {
  }

  lemma SentMeans(s: ServiceState, d: DimState, to: uint32, duration: uint32, k: nat)
    ensures var t := Shown(s, d, Sent(s.setting, to, duration, k));
            t.device == MovedDevice(s, to, duration, k) && t.setting == MovedSetting(s, to, duration, k)
  {
    ShownMeans(s, d, Sent(s.setting, to, duration, k));
  }

  /**
   * A gradual update, left alone: tick by tick the device walks in equal strides from the old setting, read as
   * a device level, to the target and stops there; awake the setting and its caches follow it. Equal numbers start
   * nothing, and nothing else changes.
   */
  lemma GradualUpdateMoves(c: Config, s: ServiceState, value: uint32, duration: uint32,
                           updateSetting: bool, ok: bool, k: nat)
    requires DimmingProperties.Consistent(s.dim) && duration > 0
    requires s.setting < TWO_TO_THE_31 && Target(c, s, value) < TWO_TO_THE_31
    ensures var to := Target(c, s, value);
            var t := DimTicks(Updated(c, s, value, duration, updateSetting, ok).next, k);
            && t == Shown(s, t.dim, Sent(s.setting, to, duration, k))
            && t.device == MovedDevice(s, to, duration, k) && t.setting == MovedSetting(s, to, duration, k)
            && (t.dim.dimming <==> k < RunLength(s.setting, to, duration))
            && (!t.dim.dimming ==> t.dim.tasks.pending == {})
  {
    UpdateStarts(c, s, value, duration, updateSetting, ok);
    var z := Updated(c, s, value, duration, updateSetting, ok).next;
    StartedMoves(s, z, Target(c, s, value), duration, DimStopped(s).dim, k);
    SentMeans(s, DimTicks(z, k).dim, Target(c, s, value), duration, k);
  }

  /**
   * Left alone to its end, a gradual update leaves the device at the requested level iff the old setting is
   * another number than that level, or the device is there already.
   */
  lemma GradualUpdateArrives(c: Config, s: ServiceState, value: uint32, duration: uint32,
                             updateSetting: bool, ok: bool)
    requires DimmingProperties.Consistent(s.dim) && duration > 0
    requires s.setting < TWO_TO_THE_31 && Target(c, s, value) < TWO_TO_THE_31
    ensures var to := Target(c, s, value);
            var z := Updated(c, s, value, duration, updateSetting, ok).next;
            var t := DimTicks(z, RunLength(s.setting, to, duration));
            && (z.dim.dimming <==> s.setting != to)
            && !t.dim.dimming && t.dim.tasks.pending == {}
            && (t.device == to <==> s.setting != to || s.device == to)
  {
    var to := Target(c, s, value);
    GradualUpdateMoves(c, s, value, duration, updateSetting, ok, 0);
    GradualUpdateMoves(c, s, value, duration, updateSetting, ok, RunLength(s.setting, to, duration));
    if Animation(s.setting, to) {
      DimmingProperties.RunLengthIsBounded(s.setting, to, duration);
    }
  }

  /** A request for level 114 at setting 100 maps to device level 100: it succeeds, and nothing ever happens. */
  lemma EqualNumbersDropUpdate(c: Config, s: ServiceState, k: nat)
    requires Invariant(s) && CanSetBrightness(s) && s.discount == 1.0 && s.setting == 100 && s.device == 88
    requires c.minLimit == c.minParam == 1 && s.maxLimit == MAX_DEFAULT_LEVEL
    ensures DeviceLevel(1, 1.0, 114) == 100
    ensures var r := BrightnessSet(c, s, 114, 500, false, true);
            r.success && r.next.target == 114 && !r.next.dim.dimming && DimTicks(r.next, k).device == 88
  {
    assert DeviceLevel(1, 1.0, 114) == 100;
    GradualUpdateMoves(c, UserPlaced(c, s, 114, 500), 114, 500, true, true, 0);
    GradualUpdateMoves(c, UserPlaced(c, s, 114, 500), 114, 500, true, true, k);
  }

  // ---------- a light reading ----------

  /** A reading that the pipeline accepts and that asks for a new level, or is the first one. */
  ghost predicate AsksForLevel(c: Config, s: ServiceState, now: int, lux: real) {
    var o := Reading(s.lux, c.mode, now, lux);
    o.updated && (AutoLevel(c, s, lux) != s.level || o.next.isFirstLux)
  }

  ghost function ReadingDuration(c: Config, s: ServiceState, now: int, lux: real): uint32 {
    LuxDuration(s, AutoLevel(c, s, lux), Reading(s.lux, c.mode, now, lux).next.isFirstLux)
  }

  /** The state in which the level of a reading is applied. */
  ghost function ReadingAdopted(c: Config, s: ServiceState, now: int, lux: real): ServiceState {
    var o := Reading(s.lux, c.mode, now, lux);
    LevelAdopted(s.(lux := o.next, offset := Evaluated(s.offset, c.weights, c.points, lux)),
                 AutoLevel(c, s, lux), o.next.isFirstLux)
  }

  lemma LevelIsAdopted(c: Config, t: ServiceState, lux: real, first: bool, ok: bool)
    requires AutoLevel(c, t, lux) != t.level || first
    ensures var level, u := AutoLevel(c, t, lux), t.(offset := Evaluated(t.offset, c.weights, c.points, lux));
            LevelFollowed(c, t, lux, first, ok) ==
            Updated(c, LevelAdopted(u, level, first), level, LuxDuration(u, level, first), true, ok).next
  {
  }

  lemma LevelIsFollowed(c: Config, s: ServiceState, o: Outcome, lux: real, ok: bool)
    requires AutoLevel(c, s, lux) != s.level || o.next.isFirstLux
    ensures var first, level := o.next.isFirstLux, AutoLevel(c, s, lux);
            var u := s.(lux := o.next, offset := Evaluated(s.offset, c.weights, c.points, lux));
            LevelFollowed(c, s.(lux := o.next), lux, first, ok) ==
            Updated(c, LevelAdopted(u, level, first), level, LuxDuration(s, level, first), true, ok).next
  {
    var t := s.(lux := o.next);
    LevelIsAdopted(c, t, lux, o.next.isFirstLux, ok);
    assert t.(offset := Evaluated(t.offset, c.weights, c.points, lux)) ==
           s.(lux := o.next, offset := Evaluated(s.offset, c.weights, c.points, lux));
    assert AutoLevel(c, t, lux) == AutoLevel(c, s, lux);
  }

  lemma ReadingIsFollowed(c: Config, s: ServiceState, o: Outcome, now: int, lux: real, ok: bool)
    requires CanSetBrightness(s) && o == Reading(s.lux, c.mode, now, lux) && o.updated
    ensures LuxProcessed(c, s, now, lux, ok) == LevelFollowed(c, s.(lux := o.next), lux, o.next.isFirstLux, ok)
  {
  }

  lemma ReadingUpdates(c: Config, s: ServiceState, now: int, lux: real, ok: bool)
    requires CanSetBrightness(s) && AsksForLevel(c, s, now, lux)
    ensures LuxProcessed(c, s, now, lux, ok) ==
            Updated(c, ReadingAdopted(c, s, now, lux), AutoLevel(c, s, lux),
                    ReadingDuration(c, s, now, lux), true, ok).next
  {
    var o := Reading(s.lux, c.mode, now, lux);
    ReadingIsFollowed(c, s, o, now, lux, ok);
    LevelIsFollowed(c, s, o, lux, ok);
  }

  lemma OtherReadingsPass(c: Config, s: ServiceState, now: int, lux: real, ok: bool)
    requires !CanSetBrightness(s) || !AsksForLevel(c, s, now, lux)
    ensures var t := LuxProcessed(c, s, now, lux, ok);
            t.device == s.device && t.dim == s.dim && t.setting == s.setting
  {
  }

  /**
   * A reading that asks for a level drives the device there: at once if the display accepts; gradually, once
   * the animation is left to end, iff the setting is another number than that level or the device is there.
   */
  lemma ReadingDrivesDevice(c: Config, s: ServiceState, now: int, lux: real, ok: bool)
    requires CanSetBrightness(s) && AsksForLevel(c, s, now, lux) && DimmingProperties.Consistent(s.dim)
    requires s.setting < TWO_TO_THE_31 && DeviceFor(c, s, lux) < TWO_TO_THE_31
    ensures var t, to := LuxProcessed(c, s, now, lux, ok), DeviceFor(c, s, lux);
            var duration := ReadingDuration(c, s, now, lux);
            if duration == 0 then !t.dim.dimming && t.device == if ok then to else s.device
            else
              && (t.dim.dimming <==> s.setting != to)
              && (DimTicks(t, RunLength(s.setting, to, duration)).device == to <==>
                  s.setting != to || s.device == to)
  {
    var u := ReadingAdopted(c, s, now, lux);
    ReadingUpdates(c, s, now, lux, ok);
    if ReadingDuration(c, s, now, lux) == 0 {
      UpdatedAtOnce(c, u, AutoLevel(c, s, lux), true, ok);
    } else {
      GradualUpdateArrives(c, u, AutoLevel(c, s, lux), ReadingDuration(c, s, now, lux), true, ok);
    }
  }
}
