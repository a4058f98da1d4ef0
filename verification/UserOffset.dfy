/** The user's offset inside the service: what its requests do to it, and for how long it is honoured. */
module UserOffsets {
  import opened Common
  import opened Tasks
  import opened Points
  import opened LevelMaps
  import opened LightLuxManagers
  import opened CalculationCurves
  import opened CalculationManagers
  import opened BrightnessServices
  import opened ServiceInvariants
  import opened ServiceRuns
  import AutoBrightness
  import OffsetProperties

  // ---------- one step, as the offset sees it ----------

  /** The light a user's level is placed at. */
  ghost function PresentLux(s: ServiceState): real {
    Truncate(s.lux.filtered) as real
  }

  /** The light sensor is in charge, and an instant change of the level is taken. */
  ghost predicate TakesUserLevel(s: ServiceState) {
    (s.overridden || CanSetBrightness(s)) && s.autoEnabled && s.sensorEnabled
  }

  ghost function OpOf(c: Config, s: ServiceState, e: Event): Option<OffsetProperties.OffsetOp> {
    match e.request
    case Lux(now, lux) =>
      if CanSetBrightness(s) && Reading(s.lux, c.mode, now, lux).updated then Some(OffsetProperties.Evaluate(lux))
      else None
    case Set(value, duration, _) =>
      if duration == 0 && TakesUserLevel(s) then Some(OffsetProperties.Place(value as real, PresentLux(s))) else None
    case ClearUserOffset => Some(OffsetProperties.Place(0.0, PresentLux(s)))
    case _ => None
  }

  ghost function Acted(c: Config, o: OffsetState, op: Option<OffsetProperties.OffsetOp>): OffsetState {
    if op == None then o else OffsetProperties.Apply(o, c.weights, c.points, op.value)
  }

  lemma DisplayKeepsOffset(c: Config, s: ServiceState, state: DisplayState, ok: bool)
    ensures DisplaySet(c, s, state, ok).offset == s.offset
  {
    var t := SensorsFollow(c, s.(display := state));
    SensorsTouch(c, s.(display := state));
    SleepKeepsSensor(c, t, ok);
    WakingKeepsSensor(c, t, ok);
  }

  lemma LevelRequestActs(c: Config, s: ServiceState, e: Event)
    requires e.request.Set? || e.request.Override? || e.request.Restore? || e.request.DiscountBy?
    ensures Step(c, s, e).offset == Acted(c, s.offset, OpOf(c, s, e))
  {
    match e.request
    case Set(value, duration, continuous) =>
      UpdatedTouches(c, UserPlaced(c, s, value, duration), value, duration, !continuous, e.ok);
    case Override(value, duration) =>
      UpdatedTouches(c, s.(overridden := true, overriddenValue := value, before := s.setting), value, duration, false,
                     e.ok);
    case Restore(duration) => UpdatedTouches(c, s.(overridden := false), s.before, duration, true, e.ok);
    case DiscountBy(factor, duration) =>
      var t := s.(discount := SafeDiscount(factor));
      UpdatedTouches(c, t, ScreenOnBrightness(c, t), duration, false, e.ok);
  }

  lemma BoostKeepsOffset(c: Config, s: ServiceState, e: Event)
    requires e.request.Boost? || e.request.CancelBoost? || e.request.BoostEnd?
    ensures Step(c, s, e).offset == s.offset
  {
    match e.request
    case Boost(duration) => UpdatedTouches(c, s.(boosted := true), c.maxParam, duration, false, e.ok);
    case CancelBoost(duration) =>
      UpdatedTouches(c, s.(boosted := false, boostTasks := Cancelled(s.boostTasks)), s.cached, duration, true, e.ok);
    case BoostEnd(task) =>
      if task in s.boostTasks.pending && task in s.boostDurations {
        var t := s.(boosted := false, boostTasks := Cancelled(Fired(s.boostTasks, task)));
        UpdatedTouches(c, t, s.cached, s.boostDurations[task], true, e.ok);
      }
  }

  lemma FollowedEvaluates(c: Config, t: ServiceState, lux: real, first: bool, ok: bool)
    ensures LevelFollowed(c, t, lux, first, ok).offset == Evaluated(t.offset, c.weights, c.points, lux)
  {
    var level := AutoLevel(c, t, lux);
    var u := t.(offset := Evaluated(t.offset, c.weights, c.points, lux));
    UpdatedTouches(c, LevelAdopted(u, level, first), level, LuxDuration(u, level, first), true, ok);
  }

  lemma LuxActs(c: Config, s: ServiceState, e: Event)
    requires e.request.Lux?
    ensures Step(c, s, e).offset == Acted(c, s.offset, OpOf(c, s, e))
  {
    var o := Reading(s.lux, c.mode, e.request.now, e.request.lux);
    FollowedEvaluates(c, s.(lux := o.next), e.request.lux, o.next.isFirstLux, e.ok);
  }

  lemma MaxKeepsOffset(c: Config, s: ServiceState, factor: real, ok: bool)
    ensures MaxSet(c, s, factor, ok).next.offset == s.offset
  {
    var t := s.(maxLimit := Min(NewMaxLimit(c, factor), MAX_DEFAULT_LEVEL));
    UpdatedTouches(c, t, t.maxLimit, DEFAULT_MAX_BRIGHTNESS_DURATION, true, ok);
    UpdatedTouches(c, t, t.current, DEFAULT_MAX_BRIGHTNESS_DURATION, true, ok);
  }

  /** Readings evaluate the offset, instant changes and the request to clear it place it; nothing else touches it. */
  lemma StepActs(c: Config, s: ServiceState, e: Event)
    ensures Step(c, s, e).offset == Acted(c, s.offset, OpOf(c, s, e))
  {
    var r := e.request;
    if r.Set? || r.Override? || r.Restore? || r.DiscountBy? {
      LevelRequestActs(c, s, e);
    } else if r.Boost? || r.CancelBoost? || r.BoostEnd? {
      BoostKeepsOffset(c, s, e);
    } else if r.Lux? {
      LuxActs(c, s, e);
    } else if r.SetDisplay? {
      DisplayKeepsOffset(c, s, r.state, e.ok);
    } else if r.SetMax? {
      MaxKeepsOffset(c, s, r.factorOfFull, e.ok);
    } else if r.DimTick? {
      TickTouches(s, r.task, e.ok);
    }
  }

  // ---------- runs ----------

  /** What each event of a run does to the offset. */
  ghost function Seen(c: Config, s: ServiceState, es: seq<Event>): (r: seq<Option<OffsetProperties.OffsetOp>>)
    ensures |r| == |es|
  {
    seq(|es|, i requires 0 <= i < |es| => OpOf(c, After(c, s, es[..i]), es[i]))
  }

  /** The operations among the first `n`. */
  ghost function Ops(seen: seq<Option<OffsetProperties.OffsetOp>>, n: nat): seq<OffsetProperties.OffsetOp>
    requires n <= |seen|
  {
    if n == 0 then []
    else Ops(seen, n - 1) + if seen[n - 1] == None then [] else [seen[n - 1].value]
  }

  lemma OpsGrow(w: Alphas, points: seq<PointXy>, seen: seq<Option<OffsetProperties.OffsetOp>>, n: nat)
    requires n < |seen|
    ensures var o := OffsetProperties.After(w, points, Ops(seen, n));
            OffsetProperties.After(w, points, Ops(seen, n + 1)) ==
            if seen[n] == None then o else OffsetProperties.Apply(o, w, points, seen[n].value)
  {
    if seen[n] == None {
      assert Ops(seen, n + 1) == Ops(seen, n);
    } else {
      assert Ops(seen, n + 1)[..|Ops(seen, n)|] == Ops(seen, n);
    }
  }

  /** Each offset follows from the one before by what was seen. */
  ghost predicate Follows(c: Config, offsets: seq<OffsetState>, seen: seq<Option<OffsetProperties.OffsetOp>>) {
    && |offsets| == |seen| + 1 && offsets[0] == NO_OFFSET
    && forall i :: 0 <= i < |seen| ==> offsets[i + 1] == Acted(c, offsets[i], seen[i])
  }

  lemma {:induction false} FollowingRefines(c: Config, offsets: seq<OffsetState>,
                                            seen: seq<Option<OffsetProperties.OffsetOp>>, n: nat)
    requires Follows(c, offsets, seen) && n <= |seen|
    ensures offsets[n] == OffsetProperties.After(c.weights, c.points, Ops(seen, n))
    decreases n
  {
    if n > 0 {
      FollowingRefines(c, offsets, seen, n - 1);
      OpsGrow(c.weights, c.points, seen, n - 1);
      assert offsets[n] == Acted(c, offsets[n - 1], seen[n - 1]);
    }
  }

  lemma SeenNext(c: Config, s: ServiceState, es: seq<Event>, n: nat)
    requires n < |es|
    ensures After(c, s, es[..n + 1]).offset == Acted(c, After(c, s, es[..n]).offset, Seen(c, s, es)[n])
  {
    StepActs(c, After(c, s, es[..n]), es[n]);
    AfterNext(c, s, es, n);
  }

  ghost function Offsets(c: Config, s: ServiceState, es: seq<Event>): (r: seq<OffsetState>)
    ensures |r| == |es| + 1
  {
    seq(|es| + 1, i requires 0 <= i <= |es| => After(c, s, es[..i]).offset)
  }

  lemma OffsetsFollow(c: Config, s: ServiceState, es: seq<Event>)
    ensures var offsets, seen := Offsets(c, s, es), Seen(c, s, es);
            && offsets[0] == s.offset && offsets[|es|] == After(c, s, es).offset
            && forall i :: 0 <= i < |seen| ==> offsets[i + 1] == Acted(c, offsets[i], seen[i])
  {
    var offsets, seen := Offsets(c, s, es), Seen(c, s, es);
    forall i | 0 <= i < |seen| ensures offsets[i + 1] == Acted(c, offsets[i], seen[i]) {
      SeenNext(c, s, es, i);
    }
    assert es[..0] == [] && es[..|es|] == es;
  }

  /** The offset inside the service behaves as the offset on its own does on the operations of the run. */
  lemma OffsetRefines(c: Config, s: ServiceState, es: seq<Event>)
    requires s.offset == NO_OFFSET
    ensures After(c, s, es).offset == OffsetProperties.After(c.weights, c.points, Ops(Seen(c, s, es), |es|))
  {
    OffsetsFollow(c, s, es);
    FollowingRefines(c, Offsets(c, s, es), Seen(c, s, es), |es|);
  }

  /** A reading was accepted, or the user's level taken back. */
  ghost predicate Lights(op: Option<OffsetProperties.OffsetOp>) {
    op.Some? && op.value.Evaluate?
  }

  ghost predicate TakesBack(op: Option<OffsetProperties.OffsetOp>) {
    op.Some? && OffsetProperties.IsReset(op.value)
  }

  /** Among the first `n` events a reading was accepted, and no level taken back after it. */
  ghost predicate Lit(seen: seq<Option<OffsetProperties.OffsetOp>>, n: nat)
    requires n <= |seen|
  {
    exists i :: 0 <= i < n && Lights(seen[i]) && forall j :: i < j < n ==> !TakesBack(seen[j])
  }

  lemma LitNext(seen: seq<Option<OffsetProperties.OffsetOp>>, n: nat)
    requires n < |seen|
    ensures Lit(seen, n + 1) <==> Lights(seen[n]) || (!TakesBack(seen[n]) && Lit(seen, n))
  {
    if Lit(seen, n) && !TakesBack(seen[n]) {
      var i :| 0 <= i < n && Lights(seen[i]) && forall j :: i < j < n ==> !TakesBack(seen[j]);
      assert forall j :: i < j < n + 1 ==> !TakesBack(seen[j]);
    }
    if Lit(seen, n + 1) && !Lights(seen[n]) {
      var i :| 0 <= i < n + 1 && Lights(seen[i]) && forall j :: i < j < n + 1 ==> !TakesBack(seen[j]);
      assert i < n;
    }
  }

  lemma EvaluatedNext(ops: seq<OffsetProperties.OffsetOp>, op: OffsetProperties.OffsetOp)
    ensures OffsetProperties.EvaluatedSinceReset(ops + [op]) <==>
            op.Evaluate? || (!OffsetProperties.IsReset(op) && OffsetProperties.EvaluatedSinceReset(ops))
  {
    OffsetProperties.EvaluatedSinceResetStep(ops + [op]);
    assert (ops + [op])[..|ops|] == ops;
  }

  lemma {:induction false} LitMeansEvaluated(seen: seq<Option<OffsetProperties.OffsetOp>>, n: nat)
    requires n <= |seen|
    ensures Lit(seen, n) <==> OffsetProperties.EvaluatedSinceReset(Ops(seen, n))
    decreases n
  {
    if n > 0 {
      LitMeansEvaluated(seen, n - 1);
      LitNext(seen, n - 1);
      if seen[n - 1].Some? {
        EvaluatedNext(Ops(seen, n - 1), seen[n - 1].value);
      } else {
        assert Ops(seen, n) == Ops(seen, n - 1);
      }
    }
  }

  /** A reading was accepted during the run, and no level taken back since. */
  ghost predicate LitAfter(c: Config, s: ServiceState, es: seq<Event>) {
    Lit(Seen(c, s, es), |es|)
  }

  /** On every run, the last curve level is positive iff a reading was accepted since a level was last taken back. */
  lemma LitMeansPositive(c: Config, s: ServiceState, es: seq<Event>)
    requires s.offset == NO_OFFSET && Visible(c.points)
    ensures 0.0 < After(c, s, es).offset.lastDefault <==> LitAfter(c, s, es)
  {
    OffsetRefines(c, s, es);
    LitMeansEvaluated(Seen(c, s, es), |es|);
    OffsetProperties.RunKeepsInvariant(c.weights, c.points, Ops(Seen(c, s, es), |es|));
  }

  // ---------- how long a level holds ----------

  /** Lit, the offset holds the position picked at this light; otherwise it is dropped, now or when next used. */
  ghost predicate Holds(c: Config, o: OffsetState, position: real, lux: real, lit: bool) {
    if lit then
      && o.position == position && o.startDefault == CurveLevel(c.points, lux)
      && o.delta == position - o.startDefault && 0.0 < o.lastDefault
    else o.position == 0.0 || o.lastDefault <= 0.0
  }

  lemma PlacedHolds(c: Config, o: OffsetState, position: real, lux: real)
    requires OffsetProperties.Invariant(o) && 1.0 <= position && ValidAmbient(lux)
    ensures Holds(c, Placed(o, c.points, position, lux), position, lux, 0.0 < o.lastDefault)
  {
  }

  lemma ActedHolds(c: Config, o: OffsetState, op: Option<OffsetProperties.OffsetOp>,
                   position: real, lux: real, lit: bool)
    requires Visible(c.points) && 1.0 <= position && Holds(c, o, position, lux, lit) && (op == None || Lights(op))
    ensures Holds(c, Acted(c, o, op), position, lux, lit)
  {
    if op.Some? {
      CurveStaysVisible(c.points, op.value.lux);
    }
  }

  /** The level that a held or dropped offset gives at the light it was placed at. */
  lemma HeldLevel(c: Config, o: OffsetState, value: uint32, lux: real, lit: bool)
    requires Visible(c.points) && 1 <= value && Holds(c, o, value as real, lux, lit)
    ensures ToUInt32(LevelAt(o, c.weights, c.points, lux) / MAX_DEFAULT_BRIGHTNESS * 255.0) ==
            if lit then Max(Min(value, 255), 4) else CurveLevel(c.points, lux).Floor
  {
    CurveStaysVisible(c.points, lux);
    if lit {
      OffsetProperties.AtStart(c.weights, CurveLevel(c.points, lux), value as real);
      FullRangeIsWhole(ClampLevel(value as real));
    } else {
      FullRangeIsWhole(CurveLevel(c.points, lux));
    }
  }

  /** ... and at any light, with the shipped weights. */
  lemma HeldLevelFollows(c: Config, o: OffsetState, value: uint32, from: real, to: real, lit: bool)
    requires Visible(c.points) && c.weights == SHIPPED_ALPHAS && 1 <= value && Holds(c, o, value as real, from, lit)
    ensures LevelAt(o, c.weights, c.points, to) ==
            if lit then LimitedFollowed(c, value, from, to) else CurveLevel(c.points, to)
  {
    var s, e := CurveLevel(c.points, from), CurveLevel(c.points, to);
    CurveStaysVisible(c.points, from);
    CurveStaysVisible(c.points, to);
    OffsetProperties.ShippedOffsetMeans(s, e, value as real);
  }

  ghost function LimitedFollowed(c: Config, value: uint32, from: real, to: real): real {
    OffsetProperties.Limited(OffsetProperties.Followed(CurveLevel(c.points, from), CurveLevel(c.points, to),
                                                       value as real))
  }

  /** No event of the run places or takes back a level. */
  ghost predicate Unplaced(seen: seq<Option<OffsetProperties.OffsetOp>>) {
    forall i :: 0 <= i < |seen| ==> seen[i] == None || Lights(seen[i])
  }

  lemma {:induction false} FollowersHold(c: Config, offsets: seq<OffsetState>,
                                         seen: seq<Option<OffsetProperties.OffsetOp>>,
                                         position: real, lux: real, lit: bool, n: nat)
    requires Visible(c.points) && 1.0 <= position && n <= |seen| == |offsets| - 1 && Unplaced(seen)
    requires forall i :: 0 <= i < |seen| ==> offsets[i + 1] == Acted(c, offsets[i], seen[i])
    requires Holds(c, offsets[0], position, lux, lit)
    ensures Holds(c, offsets[n], position, lux, lit)
    decreases n
  {
    if n > 0 {
      FollowersHold(c, offsets, seen, position, lux, lit, n - 1);
      ActedHolds(c, offsets[n - 1], seen[n - 1], position, lux, lit);
      assert offsets[n] == Acted(c, offsets[n - 1], seen[n - 1]);
    }
  }

  lemma RunHolds(c: Config, t: ServiceState, later: seq<Event>, position: real, lux: real, lit: bool)
    requires Visible(c.points) && 1.0 <= position && Unplaced(Seen(c, t, later))
    requires Holds(c, t.offset, position, lux, lit)
    ensures Holds(c, After(c, t, later).offset, position, lux, lit)
  {
    OffsetsFollow(c, t, later);
    FollowersHold(c, Offsets(c, t, later), Seen(c, t, later), position, lux, lit, |later|);
  }

  lemma UserLevelHolds(c: Config, s: ServiceState, value: uint32, continuous: bool, ok: bool)
    requires Invariant(s) && TakesUserLevel(s) && 1 <= value && 0.0 <= s.lux.filtered <= LIGHT_MAX_LUX
    ensures Holds(c, BrightnessSet(c, s, value, 0, continuous, ok).next.offset, value as real, PresentLux(s),
                  0.0 < s.offset.lastDefault)
  {
    UserIsPlaced(c, s, value, continuous, ok);
    PlacedHolds(c, s.offset, value as real, PresentLux(s));
  }

  /**
   * On every run, a level the user sets while the light sensor is in charge, also to end an override, is the level the
   * same light asks for (within 4 to 255) if some reading was accepted since a level was last taken back, then and
   * after any later events that place none; otherwise the offset is dropped and the curve's level asked for.
   */
  lemma UserLevelSticks(c: Config, start: ServiceState, es: seq<Event>, value: uint32, continuous: bool, ok: bool,
                        later: seq<Event>)
    requires start.lux == INITIAL && start.offset == NO_OFFSET && Invariant(start) && Visible(c.points) && 1 <= value
    requires AutoBrightness.Clocked(es) && AutoBrightness.ClocksFromZero(es)
    requires TakesUserLevel(After(c, start, es))
    requires Unplaced(Seen(c, BrightnessSet(c, After(c, start, es), value, 0, continuous, ok).next, later))
    ensures var s := After(c, start, es);
            var z := After(c, BrightnessSet(c, s, value, 0, continuous, ok).next, later);
            && (LitAfter(c, start, es) ==> z.offset.position == value as real)
            && AutoLevel(c, z, PresentLux(s)) ==
               if LitAfter(c, start, es) then Max(Min(value, 255), 4) else CurveLevel(c.points, PresentLux(s)).Floor
  {
    RunKeepsInvariant(c, start, es);
    AutoBrightness.FilteredStaysLux(c, start, es);
    LitMeansPositive(c, start, es);
    LevelHoldsLater(c, After(c, start, es), value, continuous, ok, later);
  }

  /**
   * At any other light that level is followed along the curve: with the shipped weights `OffsetProperties.Followed`
   * says what becomes of it, within 4 to 255, then and after any later events that place none.
   */
  lemma UserLevelFollowsCurve(c: Config, start: ServiceState, es: seq<Event>, value: uint32, continuous: bool, ok: bool,
                              later: seq<Event>, lux: real)
    requires start.lux == INITIAL && start.offset == NO_OFFSET && Invariant(start) && Visible(c.points) && 1 <= value
    requires c.weights == SHIPPED_ALPHAS && AutoBrightness.Clocked(es) && AutoBrightness.ClocksFromZero(es)
    requires TakesUserLevel(After(c, start, es))
    requires Unplaced(Seen(c, BrightnessSet(c, After(c, start, es), value, 0, continuous, ok).next, later))
    ensures var s := After(c, start, es);
            var z := After(c, BrightnessSet(c, s, value, 0, continuous, ok).next, later);
            AutoLevel(c, z, lux) ==
            (if LitAfter(c, start, es) then LimitedFollowed(c, value, PresentLux(s), lux)
             else CurveLevel(c.points, lux)).Floor
  {
    var s := After(c, start, es);
    RunKeepsInvariant(c, start, es);
    AutoBrightness.FilteredStaysLux(c, start, es);
    LitMeansPositive(c, start, es);
    LevelFollowsLater(c, s, value, continuous, ok, later, lux);
  }

  lemma LevelFollowsLater(c: Config, s: ServiceState, value: uint32, continuous: bool, ok: bool, later: seq<Event>,
                          lux: real)
    requires Invariant(s) && Visible(c.points) && TakesUserLevel(s) && 1 <= value && c.weights == SHIPPED_ALPHAS
    requires 0.0 <= s.lux.filtered <= LIGHT_MAX_LUX
    requires Unplaced(Seen(c, BrightnessSet(c, s, value, 0, continuous, ok).next, later))
    ensures var z := After(c, BrightnessSet(c, s, value, 0, continuous, ok).next, later);
            AutoLevel(c, z, lux) ==
            (if 0.0 < s.offset.lastDefault then LimitedFollowed(c, value, PresentLux(s), lux)
             else CurveLevel(c.points, lux)).Floor
  {
    var t, lit := BrightnessSet(c, s, value, 0, continuous, ok).next, 0.0 < s.offset.lastDefault;
    UserLevelHolds(c, s, value, continuous, ok);
    RunHolds(c, t, later, value as real, PresentLux(s), lit);
    HeldLevelFollows(c, After(c, t, later).offset, value, PresentLux(s), lux, lit);
    CurveStaysVisible(c.points, lux);
    FullRangeIsWhole(if lit then LimitedFollowed(c, value, PresentLux(s), lux) else CurveLevel(c.points, lux));
  }

  lemma LevelHoldsLater(c: Config, s: ServiceState, value: uint32, continuous: bool, ok: bool, later: seq<Event>)
    requires Invariant(s) && Visible(c.points) && TakesUserLevel(s) && 1 <= value
    requires 0.0 <= s.lux.filtered <= LIGHT_MAX_LUX
    requires Unplaced(Seen(c, BrightnessSet(c, s, value, 0, continuous, ok).next, later))
    ensures var z := After(c, BrightnessSet(c, s, value, 0, continuous, ok).next, later);
            var lit := 0.0 < s.offset.lastDefault;
            && (lit ==> z.offset.position == value as real)
            && AutoLevel(c, z, PresentLux(s)) ==
               if lit then Max(Min(value, 255), 4) else CurveLevel(c.points, PresentLux(s)).Floor
  {
    var t, lit := BrightnessSet(c, s, value, 0, continuous, ok).next, 0.0 < s.offset.lastDefault;
    UserLevelHolds(c, s, value, continuous, ok);
    RunHolds(c, t, later, value as real, PresentLux(s), lit);
    HeldLevel(c, After(c, t, later).offset, value, PresentLux(s), lit);
  }
}
