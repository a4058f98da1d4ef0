/** Light that asks again for a level the device already shows. */
module RepeatedReadings {
  import opened Common
  import opened Points
  import opened LightLuxManagers
  import opened CalculationManagers
  import opened BrightnessDimmings
  import opened BrightnessServices
  import opened ServiceInvariants
  import opened ServiceRuns
  import opened ServiceAnimations
  import opened Strides
  import DimmingProperties
  import LuxAdoption
  import LuxProperties

  /** What a reading leaves once its animation has come to its end. */
  ghost function Rested(c: Config, s: ServiceState, now: int, lux: real, ok: bool): ServiceState {
    DimTicks(LuxProcessed(c, s, now, lux, ok),
             RunLength(s.setting, DeviceFor(c, s, lux), ReadingDuration(c, s, now, lux)))
  }

  lemma DeliveredReading(c: Config, s: ServiceState, now: int, lux: real, ok: bool)
    requires CanSetBrightness(s) && AsksForLevel(c, s, now, lux) && DimmingProperties.Consistent(s.dim)
    requires ReadingDuration(c, s, now, lux) > 0
    requires s.setting < TWO_TO_THE_31 && DeviceFor(c, s, lux) < TWO_TO_THE_31
    ensures var to, t := DeviceFor(c, s, lux), Rested(c, s, now, lux, ok);
            && t == Shown(ReadingAdopted(c, s, now, lux), t.dim,
                          if Animation(s.setting, to) then Some(to) else None)
            && !t.dim.dimming && t.dim.tasks.pending == {}
  {
    var u, to, duration := ReadingAdopted(c, s, now, lux), DeviceFor(c, s, lux), ReadingDuration(c, s, now, lux);
    ReadingUpdates(c, s, now, lux, ok);
    GradualUpdateMoves(c, u, AutoLevel(c, s, lux), duration, true, ok, RunLength(s.setting, to, duration));
    if Animation(s.setting, to) {
      DimmingProperties.RunLengthIsBounded(s.setting, to, duration);
    }
  }

  /** A gradual update touches neither device nor setting yet, and animates iff the two numbers differ. */
  lemma UpdateAtRest(c: Config, t: ServiceState, value: uint32, duration: uint32, updateSetting: bool, ok: bool)
    requires duration > 0 && !t.dim.dimming
    ensures var u := Updated(c, t, value, duration, updateSetting, ok).next;
            && u.device == t.device && u.setting == t.setting
            && (u.dim.dimming <==> t.setting != Target(c, t, value))
  {
    DimmingProperties.StartsBetweenDifferent(t.dim, t.setting, Target(c, t, value), duration);
  }

  /** A reading of the present level leaves device and setting alone, and starts an animation iff its level is new. */
  lemma ReadingAtRest(c: Config, t: ServiceState, now: int, lux: real, ok: bool)
    requires CanSetBrightness(t) && !t.dim.dimming && DimmingProperties.Consistent(t.dim)
    requires var o := Reading(t.lux, c.mode, now, lux); o.updated && !o.next.isFirstLux
    ensures var u := LuxProcessed(c, t, now, lux, ok);
            && u.device == t.device && u.setting == t.setting
            && (u.dim.dimming <==> AutoLevel(c, t, lux) != t.level && t.setting != DeviceFor(c, t, lux))
  {
    if AsksForLevel(c, t, now, lux) {
      ReadingUpdates(c, t, now, lux, ok);
      UpdateAtRest(c, ReadingAdopted(c, t, now, lux), AutoLevel(c, t, lux), ReadingDuration(c, t, now, lux), true, ok);
    } else {
      OtherReadingsPass(c, t, now, lux, ok);
    }
  }

  /** The first tick of the animation that a reading at rest starts. */
  lemma ReadingAtRestTicks(c: Config, t: ServiceState, now: int, lux: real, ok: bool)
    requires CanSetBrightness(t) && !t.dim.dimming && DimmingProperties.Consistent(t.dim)
    requires AsksForLevel(c, t, now, lux) && !Reading(t.lux, c.mode, now, lux).next.isFirstLux
    requires Animation(t.setting, DeviceFor(c, t, lux))
    ensures DimTicks(LuxProcessed(c, t, now, lux, ok), 1).device ==
            DimmingProperties.Position(t.setting, DeviceFor(c, t, lux), ReadingDuration(c, t, now, lux), 1)
  {
    ReadingUpdates(c, t, now, lux, ok);
    GradualUpdateMoves(c, ReadingAdopted(c, t, now, lux), AutoLevel(c, t, lux), ReadingDuration(c, t, now, lux),
                       true, ok, 1);
  }

  // ---------- readings in between ----------

  /** Event `i` is a reading that the sensor pipeline does not accept. */
  ghost predicate UnacceptedAt(c: Config, t: ServiceState, es: seq<Event>, i: nat)
    requires i < |es|
  {
    var r := es[i].request;
    r.Lux? && !Reading(After(c, t, es[..i]).lux, c.mode, r.now, r.lux).updated
  }

  ghost predicate Unaccepted(c: Config, t: ServiceState, es: seq<Event>) {
    forall i :: 0 <= i < |es| ==> UnacceptedAt(c, t, es, i)
  }

  lemma UnacceptedRecords(c: Config, s: ServiceState, e: Event)
    requires e.request.Lux? && !Reading(s.lux, c.mode, e.request.now, e.request.lux).updated
    ensures Step(c, s, e) == s.(lux := Step(c, s, e).lux)
  {
  }

  lemma NextRecords(c: Config, t: ServiceState, es: seq<Event>, n: nat)
    requires n < |es| && UnacceptedAt(c, t, es, n)
    ensures After(c, t, es[..n + 1]) == After(c, t, es[..n]).(lux := After(c, t, es[..n + 1]).lux)
  {
    UnacceptedRecords(c, After(c, t, es[..n]), es[n]);
    AfterNext(c, t, es, n);
  }

  lemma {:induction false} OnlyLuxChanges(states: seq<ServiceState>, n: nat)
    requires n < |states| && forall i :: 0 <= i < |states| - 1 ==> states[i + 1] == states[i].(lux := states[i + 1].lux)
    ensures states[n] == states[0].(lux := states[n].lux)
    decreases n
  {
    if n > 0 {
      OnlyLuxChanges(states, n - 1);
      assert states[n] == states[n - 1].(lux := states[n].lux);
    }
  }

  ghost function States(c: Config, t: ServiceState, es: seq<Event>): (r: seq<ServiceState>)
    ensures |r| == |es| + 1
  {
    seq(|es| + 1, i requires 0 <= i <= |es| => After(c, t, es[..i]))
  }

  /** Readings that are not accepted change nothing but the sensor's data. */
  lemma OnlyRecorded(c: Config, t: ServiceState, es: seq<Event>)
    requires Unaccepted(c, t, es)
    ensures After(c, t, es) == t.(lux := After(c, t, es).lux)
  {
    var states := States(c, t, es);
    forall i | 0 <= i < |states| - 1 ensures states[i + 1] == states[i].(lux := states[i + 1].lux) {
      assert UnacceptedAt(c, t, es, i);
      NextRecords(c, t, es, i);
    }
    assert es[..0] == [] && es[..|es|] == es;
    OnlyLuxChanges(states, |es|);
  }

  // ---------- the next accepted reading ----------

  /** A reading is animated to its end, and then come readings that are not accepted. */
  ghost function Waited(c: Config, s: ServiceState, now: int, lux: real, ok: bool, between: seq<Event>): ServiceState {
    After(c, Rested(c, s, now, lux, ok), between)
  }

  lemma WaitedRests(c: Config, s: ServiceState, now: int, lux: real, ok: bool, between: seq<Event>)
    requires CanSetBrightness(s) && AsksForLevel(c, s, now, lux) && DimmingProperties.Consistent(s.dim)
    requires ReadingDuration(c, s, now, lux) > 0
    requires s.setting < TWO_TO_THE_31 && DeviceFor(c, s, lux) < TWO_TO_THE_31
    requires Unaccepted(c, Rested(c, s, now, lux, ok), between)
    ensures var to, v := DeviceFor(c, s, lux), Waited(c, s, now, lux, ok, between);
            && v == Shown(ReadingAdopted(c, s, now, lux), v.dim,
                          if Animation(s.setting, to) then Some(to) else None).(lux := v.lux)
            && !v.dim.dimming && v.dim.tasks.pending == {}
  {
    DeliveredReading(c, s, now, lux, ok);
    OnlyRecorded(c, Rested(c, s, now, lux, ok), between);
  }

  lemma WaitedShows(c: Config, s: ServiceState, now: int, lux: real, ok: bool, between: seq<Event>)
    requires CanSetBrightness(s) && AsksForLevel(c, s, now, lux) && DimmingProperties.Consistent(s.dim)
    requires ReadingDuration(c, s, now, lux) > 0
    requires s.setting < TWO_TO_THE_31 && DeviceFor(c, s, lux) < TWO_TO_THE_31
    requires Unaccepted(c, Rested(c, s, now, lux, ok), between)
    ensures var to, v := DeviceFor(c, s, lux), Waited(c, s, now, lux, ok, between);
            && CanSetBrightness(v) && !v.dim.dimming && v.dim.tasks.pending == {}
            && v.discount == s.discount && v.maxLimit == s.maxLimit
            && v.offset == Evaluated(s.offset, c.weights, c.points, lux)
            && v.device == (if s.setting == to then s.device else to)
            && v.setting == (if s.setting == to || s.sleep then s.setting else SettingLevel(to))
            && v.level == if s.setting == to || s.sleep then AutoLevel(c, s, lux) else SettingLevel(to)
  {
    WaitedRests(c, s, now, lux, ok, between);
  }

  lemma RestedShows(c: Config, s: ServiceState, now: int, lux: real, ok: bool)
    requires CanSetBrightness(s) && AsksForLevel(c, s, now, lux) && DimmingProperties.Consistent(s.dim)
    requires ReadingDuration(c, s, now, lux) > 0
    requires s.setting < TWO_TO_THE_31 && DeviceFor(c, s, lux) < TWO_TO_THE_31
    ensures var to, t := DeviceFor(c, s, lux), Rested(c, s, now, lux, ok);
            && t.device == (if s.setting == to then s.device else to)
            && t.setting == (if s.setting == to || s.sleep then s.setting else SettingLevel(to))
  {
    DeliveredReading(c, s, now, lux, ok);
  }

  /**
   * A reading that asks for a level and is animated to its end, any number of readings that are not accepted, then an
   * accepted reading that asks for the same level: it starts no animation iff the first one started none or ran
   * asleep, or the device level it reached maps back to the level asked for, or to its own number. Otherwise it
   * animates from the setting all over again.
   */
  lemma RepeatedReading(c: Config, s: ServiceState, now: int, lux: real, ok: bool, between: seq<Event>,
                        later: int, lux2: real, ok2: bool)
    requires CanSetBrightness(s) && AsksForLevel(c, s, now, lux) && DimmingProperties.Consistent(s.dim)
    requires ReadingDuration(c, s, now, lux) > 0
    requires s.setting < TWO_TO_THE_31 && DeviceFor(c, s, lux) < TWO_TO_THE_31
    requires Unaccepted(c, Rested(c, s, now, lux, ok), between)
    requires var v := Waited(c, s, now, lux, ok, between);
             var o := Reading(v.lux, c.mode, later, lux2);
             o.updated && !o.next.isFirstLux && AutoLevel(c, v, lux2) == AutoLevel(c, s, lux)
    ensures var level, to := AutoLevel(c, s, lux), DeviceFor(c, s, lux);
            var v := Waited(c, s, now, lux, ok, between);
            var u := LuxProcessed(c, v, later, lux2, ok2);
            && u.device == v.device == Rested(c, s, now, lux, ok).device
            && u.setting == v.setting == Rested(c, s, now, lux, ok).setting
            && (u.dim.dimming <==>
                s.setting != to && !s.sleep && SettingLevel(to) != level && SettingLevel(to) != to)
  {
    WaitedShows(c, s, now, lux, ok, between);
    RestedShows(c, s, now, lux, ok);
    ReadingAtRest(c, Waited(c, s, now, lux, ok, between), later, lux2, ok2);
  }

  // ---------- a light that makes the device jump ----------

  /** Thresholds of one and debounce times of two seconds at every light. */
  const STEADY := Mode(2000, 2000, [PointXy(0.0, 1.0)], [PointXy(0.0, 1.0)])

  /** Dark at first, then bright for as long as the debounce time. */
  ghost function Brightening(): seq<LuxProperties.LuxEvent> {
    [LuxProperties.Sensed(0, 0.0, STEADY), LuxProperties.Sensed(1000, 100.0, STEADY),
     LuxProperties.Sensed(3000, 100.0, STEADY)]
  }

  lemma SteadyThreshold(lux: real)
    requires 0.0 <= lux
    ensures Delta(STEADY.brightenPoints, lux) == 1.0 && !LuxProperties.Vanishes(STEADY.brightenPoints)
  {
    FirstRightOfIsUnique(STEADY.brightenPoints, lux, 1);
  }

  /** The three readings, and what the properties of runs ask of them. */
  ghost predicate IsBrightening(es: seq<LuxProperties.LuxEvent>) {
    && |es| == 3 && es[0] == LuxProperties.Sensed(0, 0.0, STEADY) && es[1] == LuxProperties.Sensed(1000, 100.0, STEADY)
    && es[2] == LuxProperties.Sensed(3000, 100.0, STEADY)
    && LuxProperties.Clocked(es) && LuxProperties.Safe(es, Brighten) && LuxProperties.Safe(es, Darken)
    && LuxProperties.Uninterrupted(es, 0, 1) && LuxProperties.Uninterrupted(es, 1, 2)
  }

  lemma BrighteningIsOne()
    ensures IsBrightening(Brightening())
  {
    SteadyThreshold(0.0);
  }

  lemma DarkIsAdopted(es: seq<LuxProperties.LuxEvent>)
    requires 1 <= |es| && es[0] == LuxProperties.Sensed(0, 0.0, STEADY)
    ensures LuxProperties.UpdatesAt(es, 0)
    ensures var s := LuxProperties.After(es[..1]);
            s.isFirstLux && s.filtered == 0.0 && s.brightenDelta == 1.0 && |s.raw.items| == 1
  {
    assert es[..0] == [];
    LuxProperties.RunKeepsInvariant(es[..0], 0);
    LuxAdoption.FirstReading(INITIAL, 0, STEADY, 0, 0.0, Brighten);
    LuxProperties.UpdateMeans(INITIAL, 0, STEADY, 0, 0.0);
    SteadyThreshold(0.0);
    LuxProperties.AfterNext(es, 0);
  }

  lemma BrightIsBeyond(s: LuxState, before: int, now: int)
    requires LuxProperties.Invariant(s, before) && before <= now && 1 <= |s.raw.items| <= 3
    requires s.filtered == 0.0 && s.brightenDelta == 1.0
    ensures LuxAdoption.JudgedBeyond(s, Brighten, LuxProperties.Sensed(now, 100.0, STEADY))
    ensures !Reading(s, STEADY, now, 100.0).next.isFirstLux
    ensures !Reading(s, STEADY, now, 100.0).updated ==>
              var t := Reading(s, STEADY, now, 100.0).next;
              t.filtered == 0.0 && t.brightenDelta == 1.0 && 1 <= |t.raw.items| <= |s.raw.items| + 1
  {
    LuxAdoption.FewAreNotSmoothed(s, before, now, 100.0);
    LuxProperties.ReadingIsJudged(s, before, STEADY, now, 100.0);
    LuxProperties.UpdateMeans(s, before, STEADY, now, 100.0);
    LuxProperties.ReadingKeepsInvariant(s, before, STEADY, now, 100.0);
  }

  /** Dark was adopted, and `n` readings are retained. */
  ghost predicate Dark(s: LuxState, n: nat) {
    s.filtered == 0.0 && s.brightenDelta == 1.0 && 1 <= |s.raw.items| <= n
  }

  /** The first bright reading comes too early to be adopted. */
  lemma BrightIsEarly(es: seq<LuxProperties.LuxEvent>)
    requires IsBrightening(es)
    ensures !LuxProperties.UpdatesAt(es, 1) && Dark(LuxProperties.After(es[..1]), 1)
    ensures Dark(LuxProperties.After(es[..2]), 2)
  {
    DarkIsAdopted(es);
    LuxAdoption.PrefixKeepsInvariant(es, 1);
    BrightIsBeyond(LuxProperties.After(es[..1]), LuxProperties.Clock(es[..1], 1000), 1000);
    LuxProperties.AfterNext(es, 1);
    SecondIsTooEarly(es);
  }

  lemma SecondIsTooEarly(es: seq<LuxProperties.LuxEvent>)
    requires IsBrightening(es) && LuxProperties.UpdatesAt(es, 0)
    ensures !LuxProperties.UpdatesAt(es, 1)
  {
    if LuxProperties.UpdatesAt(es, 1) {
      LuxProperties.UpdatesAreSpaced(es, 0, 1);
      assert false;
    }
  }

  lemma ConfirmedAt(es: seq<LuxProperties.LuxEvent>, n: nat)
    requires LuxProperties.Clocked(es) && n < |es| && Dark(LuxProperties.After(es[..n]), 3)
    requires es[n].Sensed? && es[n].lux == 100.0 && es[n].mode == STEADY
    ensures LuxAdoption.JudgedBeyond(LuxProperties.After(es[..n]), Brighten, es[n])
    ensures !LuxProperties.After(es[..n + 1]).isFirstLux
  {
    LuxAdoption.PrefixKeepsInvariant(es, n);
    BrightIsBeyond(LuxProperties.After(es[..n]), LuxProperties.Clock(es[..n], es[n].clock), es[n].clock);
    LuxProperties.AfterNext(es, n);
  }

  lemma ConfirmedTwice(es: seq<LuxProperties.LuxEvent>, dir: Direction)
    requires LuxProperties.Clocked(es) && |es| == 3 && es[1].Sensed? && es[2].Sensed?
    requires LuxProperties.Uninterrupted(es, 1, 2) && !LuxProperties.UpdatesAt(es, 1)
    requires LuxAdoption.JudgedBeyond(LuxProperties.After(es[..1]), dir, es[1])
    requires LuxAdoption.JudgedBeyond(LuxProperties.After(es[..2]), dir, es[2])
    requires Response(es[2].mode, dir) <= LIGHT_LUX_BUFFER_RANGE
    requires es[1].clock + Response(es[2].mode, dir) <= es[2].clock
    ensures LuxProperties.UpdatesAt(es, 2)
  {
    assert LuxAdoption.Waits(es, dir, 1);
    LuxAdoption.HeldChangeIsAdoptedAt(es, dir, 1, 2);
  }

  /** The first bright reading comes too early to be adopted, the second one in time. */
  lemma BrighteningIsAdopted(es: seq<LuxProperties.LuxEvent>)
    requires IsBrightening(es)
    ensures LuxProperties.UpdatesAt(es, 0) && !LuxProperties.UpdatesAt(es, 1) && LuxProperties.UpdatesAt(es, 2)
    ensures LuxProperties.After(es[..1]).isFirstLux && !LuxProperties.After(es[..3]).isFirstLux
  {
    DarkIsAdopted(es);
    BrightIsEarly(es);
    ConfirmedAt(es, 1);
    ConfirmedAt(es, 2);
    ConfirmedTwice(es, Brighten);
  }

  /** What the three readings do to the pipeline, one by one. */
  lemma BrighteningReadings()
    ensures var o1 := Reading(INITIAL, STEADY, 0, 0.0);
            var o2 := Reading(o1.next, STEADY, 1000, 100.0);
            var o3 := Reading(o2.next, STEADY, 3000, 100.0);
            && o1.updated && o1.next.isFirstLux && !o2.updated && o3.updated && !o3.next.isFirstLux
  {
    BrighteningIsOne();
    ReadingsOneByOne(Brightening());
  }

  lemma ReadingsOneByOne(es: seq<LuxProperties.LuxEvent>)
    requires IsBrightening(es)
    ensures var o1 := Reading(INITIAL, STEADY, 0, 0.0);
            var o2 := Reading(o1.next, STEADY, 1000, 100.0);
            var o3 := Reading(o2.next, STEADY, 3000, 100.0);
            && o1.updated && o1.next.isFirstLux && !o2.updated && o3.updated && !o3.next.isFirstLux
  {
    BrighteningIsAdopted(es);
    assert es[..0] == [];
    LuxProperties.AfterNext(es, 0);
    LuxProperties.AfterNext(es, 1);
    LuxProperties.AfterNext(es, 2);
  }

  /** A service that starts at setting 100 and device level 88, where every light asks for level 203. */
  ghost predicate FlatCurve(c: Config) {
    c.mode == STEADY && c.points == [PointXy(0.0, 203.0)] && c.minLimit == c.minParam == 1
  }

  lemma FlatLevel(c: Config, s: ServiceState, lux: real)
    requires FlatCurve(c) && s.offset.position == 0.0 && 0.0 <= lux
    ensures AutoLevel(c, s, lux) == 203
    ensures Evaluated(s.offset, c.weights, c.points, lux).position == 0.0
  {
    FirstRightOfIsUnique(c.points, lux, 1);
    FullRangeIsWhole(203.0);
  }

  lemma FlatDevice()
    ensures DeviceLevel(1, 1.0, 203) == 178 && SettingLevel(178) == 204
  {
    assert DiscountedLevel(1.0, 203) == 203;
  }

  lemma OneUnitDown(from: uint32, to: uint32, duration: uint32)
    requires Animation(from, to) && to + 1 < from && from - to < StepsIn(duration, DEFAULT_UPDATE_TIME)
    ensures DimmingProperties.Position(from, to, duration, 1) == from - 1
  {
    assert Stride(to - from, StepsIn(duration, DEFAULT_UPDATE_TIME)) == -1;
    LastMultiple(to - from, -1);
    DimmingProperties.PositionAdvances(from, to, duration, 0);
  }

  /** The dark reading, animated to its end. */
  lemma DarkIsDelivered(c: Config)
    requires FlatCurve(c)
    ensures var s := Initial(On, 100, 88);
            && CanSetBrightness(s) && AsksForLevel(c, s, 0, 0.0) && ReadingDuration(c, s, 0, 0.0) == 500
            && DeviceFor(c, s, 0.0) == 178 && AutoLevel(c, s, 0.0) == 203
            && CanSetBrightness(Rested(c, s, 0, 0.0, true))
            && Rested(c, s, 0, 0.0, true).lux == Reading(INITIAL, STEADY, 0, 0.0).next
  {
    var s := Initial(On, 100, 88);
    BrighteningReadings();
    FlatLevel(c, s, 0.0);
    FlatDevice();
    DeliveredReading(c, s, 0, 0.0, true);
  }

  lemma OneUnaccepted(c: Config, t: ServiceState, now: int, lux: real, es: seq<Event>)
    requires es == [Event(Lux(now, lux), true)] && CanSetBrightness(t)
    requires !Reading(t.lux, c.mode, now, lux).updated
    ensures Unaccepted(c, t, es) && After(c, t, es).lux == Reading(t.lux, c.mode, now, lux).next
  {
    assert es[..0] == [] && es[..1] == es;
    AfterNext(c, t, es, 0);
    LuxIsRecorded(c, t, now, lux);
  }

  lemma LuxIsRecorded(c: Config, t: ServiceState, now: int, lux: real)
    requires CanSetBrightness(t) && !Reading(t.lux, c.mode, now, lux).updated
    ensures Step(c, t, Event(Lux(now, lux), true)).lux == Reading(t.lux, c.mode, now, lux).next
  {
  }

  /** Bright light for two seconds, in which nothing changes yet. */
  lemma BrightIsNotAccepted(c: Config, between: seq<Event>)
    requires FlatCurve(c) && between == [Event(Lux(1000, 100.0), true)]
    ensures var t := Rested(c, Initial(On, 100, 88), 0, 0.0, true);
            && Unaccepted(c, t, between)
            && After(c, t, between).lux == Reading(t.lux, STEADY, 1000, 100.0).next
  {
    DarkIsDelivered(c);
    BrighteningReadings();
    OneUnaccepted(c, Rested(c, Initial(On, 100, 88), 0, 0.0, true), 1000, 100.0, between);
  }

  /** The device rests at 178, the setting at 204, and a reading for level 203 is about to be accepted. */
  ghost predicate AboutToJump(c: Config, v: ServiceState) {
    && CanSetBrightness(v) && !v.dim.dimming && v.dim.tasks.pending == {}
    && v.device == 178 && v.setting == v.level == 204
    && AutoLevel(c, v, 100.0) == 203 && DeviceFor(c, v, 100.0) == 178
    && var o := Reading(v.lux, c.mode, 3000, 100.0); o.updated && !o.next.isFirstLux
  }

  lemma WaitedIsAboutToJump(c: Config, between: seq<Event>)
    requires FlatCurve(c) && between == [Event(Lux(1000, 100.0), true)]
    ensures AboutToJump(c, Waited(c, Initial(On, 100, 88), 0, 0.0, true, between))
  {
    var s, v := Initial(On, 100, 88), Waited(c, Initial(On, 100, 88), 0, 0.0, true, between);
    FlatDevice();
    DarkIsDelivered(c);
    BrightIsNotAccepted(c, between);
    BrighteningReadings();
    WaitedShows(c, s, 0, 0.0, true, between);
    FlatLevel(c, s, 0.0);
    FlatLevel(c, v, 100.0);
  }

  lemma ReadingJumps(c: Config, v: ServiceState)
    requires AboutToJump(c, v)
    ensures var u := LuxProcessed(c, v, 3000, 100.0, true);
            u.device == 178 && u.dim.dimming && DimTicks(u, 1).device == 203
  {
    ReadingAtRest(c, v, 3000, 100.0, true);
    ReadingAtRestTicks(c, v, 3000, 100.0, true);
    OneUnitDown(204, 178, DEFAULT_DARKEN_DURATION);
  }

  /**
   * The device shows level 178 for a dark room. The light comes on for good, and the level asked for stays 203. When
   * the change is adopted, the device jumps to 203, although it shows what is asked for already.
   */
  lemma SteadyLevelMakesDeviceJump(c: Config, between: seq<Event>)
    requires FlatCurve(c) && between == [Event(Lux(1000, 100.0), true)]
    ensures var v := Waited(c, Initial(On, 100, 88), 0, 0.0, true, between);
            var u := LuxProcessed(c, v, 3000, 100.0, true);
            && Reading(v.lux, c.mode, 3000, 100.0).updated
            && AutoLevel(c, Initial(On, 100, 88), 0.0) == AutoLevel(c, v, 100.0) == 203
            && v.device == u.device == DeviceFor(c, v, 100.0) == 178
            && u.dim.dimming && DimTicks(u, 1).device == 203
  {
    DarkIsDelivered(c);
    WaitedIsAboutToJump(c, between);
    ReadingJumps(c, Waited(c, Initial(On, 100, 88), 0, 0.0, true, between));
  }
}
