/** Monotonicity of the offset formula, and how long a user's offset is honoured. */
module OffsetProperties {
  import opened Common
  import opened Arithmetic
  import opened Points
  import opened CalculationCurves
  import opened CalculationManagers

  ghost predicate Weights(w: Alphas) {
    0.0 <= w.brightenRight <= 1.0 && 0.0 <= w.darkenLeft <= 1.0 && 0.0 <= w.brightenLeft <= 1.0
  }

  /** A blending weight in use needs the position to be a level the device can show. */
  ghost predicate Admissible(w: Alphas, position: real) {
    && Weights(w)
    && (w.brightenRight == 0.0 || position <= MAX_DEFAULT_BRIGHTNESS)
    && (w.darkenLeft == 0.0 || MIN_DEFAULT_BRIGHTNESS <= position)
  }

  ghost predicate Level(level: real) {
    0.0 < level <= MAX_DEFAULT_BRIGHTNESS
  }

  // ---------- arithmetic ----------

  lemma SumIsMonotone(b: real, a: real, x1: real, x2: real, y1: real, y2: real)
    requires 0.0 <= b && 0.0 <= a && x1 <= x2 && y1 <= y2
    ensures b * x1 + a * y1 <= b * x2 + a * y2
  {
    ProductRises(x1, x2, b);
    ProductRises(y1, y2, a);
  }

  lemma BlendIsMonotone(a: real, x1: real, x2: real, y1: real, y2: real)
    requires 0.0 <= a <= 1.0 && x1 <= x2 && (a == 0.0 || y1 <= y2)
    ensures Blend(a, x1, y1) <= Blend(a, x2, y2)
  {
    if a != 0.0 {
      SumIsMonotone(1.0 - a, a, x1, x2, y1, y2);
    }
  }

  lemma BlendOfSame(a: real, x: real)
    ensures Blend(a, x, x) == x
  {
  }

  lemma ShiftRises(e1: real, e2: real, d: real, r1: real, r2: real)
    requires 0.0 <= d && e1 <= e2 && r1 <= r2 <= 1.0
    ensures ScaledShift(e1, d, r1) <= ScaledShift(e2, d, r2) <= e2 + d
  {
    ProductStaysBelow(d, r1, r2);
  }

  /** `e + d * (top - e) / room` never falls while `d <= room`. */
  lemma ShrinkingIsMonotone(d: real, top: real, room: real, e1: real, e2: real)
    requires 0.0 < room && d <= room && e1 <= e2
    ensures e1 + d * ((top - e1) / room) <= e2 + d * ((top - e2) / room)
  {
    var q := d / room;
    TimesQuotient(room, d);
    QuotientRises(d, room, room);
    SelfQuotient(room);
    Reshaped(d, top, room, e1);
    Reshaped(d, top, room, e2);
    ProductRises(e1, e2, 1.0 - q);
  }

  lemma Reshaped(d: real, top: real, room: real, e: real)
    requires 0.0 < room
    ensures e + d * ((top - e) / room) == e * (1.0 - d / room) + d / room * top
  {
    assert d * ((top - e) / room) == d / room * (top - e);
  }

  // ---------- the four cases in closed form ----------

  ghost function Raised(s: real, e: real, d: real): real {
    (if RealAbs(MAX_DEFAULT_BRIGHTNESS - s) < SMALL_VALUE then d
     else d * ((MAX_DEFAULT_BRIGHTNESS - e) / (MAX_DEFAULT_BRIGHTNESS - s))) + e
  }

  ghost function Cut(s: real, e: real, d: real): real {
    (if RealAbs(s - MIN_DEFAULT_BRIGHTNESS) < SMALL_VALUE then d
     else d * ((e - MIN_DEFAULT_BRIGHTNESS) / (s - MIN_DEFAULT_BRIGHTNESS))) + e
  }

  ghost function RaisedTarget(w: Alphas, s: real, e: real, p: real, d: real): real {
    Blend(w.brightenRight, RealMax(e, p), Raised(s, e, d))
  }

  ghost function CutTarget(w: Alphas, s: real, e: real, p: real, d: real): real {
    Blend(w.darkenLeft, RealMin(e, p), Cut(s, e, d))
  }

  /** A raised start brightens toward its target, but never below the curve. */
  lemma BrightenRaised(w: Alphas, s: real, e: real, p: real, d: real)
    requires s < e && d > 0.0
    ensures Shifted(w, s, e, p, d) ==
            if d < SMALL_VALUE then e + d else RealMax(RaisedTarget(w, s, e, p, d), e)
  {
    var target := RaisedTarget(w, s, e, p, d);
    if SMALL_VALUE <= d {
      TimesQuotient(d, target - e);
      assert (target - e) / d < 0.0 <==> target < e;
    }
  }

  /** A lowered start darkens toward its target, but never above the curve. */
  lemma DarkenLowered(w: Alphas, s: real, e: real, p: real, d: real)
    requires e < s && d < 0.0
    ensures Shifted(w, s, e, p, d) ==
            if -d < SMALL_VALUE then e + d else RealMin(CutTarget(w, s, e, p, d), e)
  {
    var target := CutTarget(w, s, e, p, d);
    if SMALL_VALUE <= -d {
      TimesQuotient(d, target - e);
      assert (target - e) / d < 0.0 <==> e < target;
    }
  }

  lemma BrightenLowered(w: Alphas, s: real, e: real, p: real, d: real)
    requires s < e <= MAX_DEFAULT_BRIGHTNESS && d < 0.0
    ensures Shifted(w, s, e, p, d) == Raised(s, e, d)
  {
    assert 0.0 <= (MAX_DEFAULT_BRIGHTNESS - e) / (MAX_DEFAULT_BRIGHTNESS - s);
  }

  // ---------- monotone in each case ----------

  lemma RaisedIsMonotone(s: real, e1: real, e2: real, d: real)
    requires s <= e1 <= e2 <= MAX_DEFAULT_BRIGHTNESS && s + d <= MAX_DEFAULT_BRIGHTNESS
    ensures Raised(s, e1, d) <= Raised(s, e2, d)
    ensures Raised(s, s, d) == s + d
  {
    var room := MAX_DEFAULT_BRIGHTNESS - s;
    if SMALL_VALUE <= room {
      ShrinkingIsMonotone(d, MAX_DEFAULT_BRIGHTNESS, room, e1, e2);
      SelfQuotient(room);
    }
  }

  lemma CutIsMonotone(s: real, e1: real, e2: real, d: real)
    requires e1 <= e2 <= s && MIN_DEFAULT_BRIGHTNESS <= s + d && d < 0.0
    ensures Cut(s, e1, d) <= Cut(s, e2, d)
    ensures Cut(s, s, d) == s + d
  {
    var room := s - MIN_DEFAULT_BRIGHTNESS;
    if SMALL_VALUE <= room {
      ShrinkingIsMonotone(-d, MIN_DEFAULT_BRIGHTNESS, room, e1, e2);
      CutAsShrinking(d, room, e1);
      CutAsShrinking(d, room, e2);
      SelfQuotient(room);
    }
  }

  lemma CutAsShrinking(d: real, room: real, e: real)
    requires 0.0 < room
    ensures d * ((e - MIN_DEFAULT_BRIGHTNESS) / room) == -d * ((MIN_DEFAULT_BRIGHTNESS - e) / room)
  {
    assert (MIN_DEFAULT_BRIGHTNESS - e) / room == -((e - MIN_DEFAULT_BRIGHTNESS) / room);
  }

  lemma RaisedTargetsRise(w: Alphas, s: real, e1: real, e2: real, p: real)
    requires Admissible(w, p) && Level(s) && s < e1 <= e2 && Level(e2) && s < p
    ensures p <= RaisedTarget(w, s, e1, p, p - s) <= RaisedTarget(w, s, e2, p, p - s)
  {
    var d, a := p - s, w.brightenRight;
    if a != 0.0 {
      RaisedIsMonotone(s, s, e1, d);
      RaisedIsMonotone(s, e1, e2, d);
    }
    BlendIsMonotone(a, p, RealMax(e1, p), p, Raised(s, e1, d));
    BlendIsMonotone(a, RealMax(e1, p), RealMax(e2, p), Raised(s, e1, d), Raised(s, e2, d));
    BlendOfSame(a, p);
  }

  lemma AboveStart(w: Alphas, s: real, e1: real, e2: real, p: real)
    requires Admissible(w, p) && Level(s) && s < e1 <= e2 && Level(e2)
    ensures p <= Shifted(w, s, e1, p, p - s) <= Shifted(w, s, e2, p, p - s)
  {
    var d := p - s;
    if d > 0.0 {
      BrightenRaised(w, s, e1, p, d);
      BrightenRaised(w, s, e2, p, d);
      RaisedTargetsRise(w, s, e1, e2, p);
    } else if d < 0.0 {
      BrightenLowered(w, s, e1, p, d);
      BrightenLowered(w, s, e2, p, d);
      RaisedIsMonotone(s, s, e1, d);
      RaisedIsMonotone(s, e1, e2, d);
    }
  }

  lemma CutTargetsRise(w: Alphas, s: real, e1: real, e2: real, p: real)
    requires Admissible(w, p) && Level(s) && 0.0 < e1 <= e2 < s && p < s
    ensures CutTarget(w, s, e1, p, p - s) <= CutTarget(w, s, e2, p, p - s) <= p
  {
    var d, a := p - s, w.darkenLeft;
    if a != 0.0 {
      CutIsMonotone(s, e1, e2, d);
      CutIsMonotone(s, e2, s, d);
    }
    BlendIsMonotone(a, RealMin(e1, p), RealMin(e2, p), Cut(s, e1, d), Cut(s, e2, d));
    BlendIsMonotone(a, RealMin(e2, p), p, Cut(s, e2, d), p);
    BlendOfSame(a, p);
  }

  lemma LoweredBelowStart(w: Alphas, s: real, e1: real, e2: real, p: real)
    requires Admissible(w, p) && Level(s) && 0.0 < e1 <= e2 < s && p < s
    ensures Shifted(w, s, e1, p, p - s) <= Shifted(w, s, e2, p, p - s) <= p
  {
    DarkenLowered(w, s, e1, p, p - s);
    DarkenLowered(w, s, e2, p, p - s);
    CutTargetsRise(w, s, e1, e2, p);
  }

  lemma MixedRatioRises(a: real, s: real, e1: real, e2: real)
    requires 0.0 <= a && 0.0 < s && e1 <= e2 <= s
    ensures MixedRatio(a, s, e1) <= MixedRatio(a, s, e2) <= 1.0
  {
    WeightedRises(a, s, e1, e2);
    WeightedRises(a, s, e2, s);
    QuotientOfProduct(a, s);
    MixedRatioMeans(a, s, e1);
    MixedRatioMeans(a, s, e2);
  }

  lemma MixedRatioMeans(a: real, s: real, e: real)
    requires s != 0.0
    ensures MixedRatio(a, s, e) == a * e / s + (1.0 - a)
  {
  }

  lemma WeightedRises(a: real, s: real, e1: real, e2: real)
    requires 0.0 <= a && 0.0 < s && e1 <= e2
    ensures a * e1 / s <= a * e2 / s
  {
    var x1, x2 := a * e1, a * e2;
    ProductRises(e1, e2, a);
    assert x1 == e1 * a && x2 == e2 * a;
    QuotientRises(x1, x2, s);
  }

  /** The darkening ratio of a raised start grows with the curve level, up to one. */
  lemma DarkenRatioRises(w: Alphas, s: real, e1: real, e2: real)
    requires Weights(w) && 0.0 < e1 <= e2 <= s
    ensures BrightenOffsetDarkenRatio(w, s, e1) <= BrightenOffsetDarkenRatio(w, s, e2) <= 1.0
  {
    MixedRatioRises(w.brightenLeft, s, e1, e2);
  }

  lemma DarkenRaised(w: Alphas, s: real, e: real, p: real)
    requires e < s < p
    ensures Shifted(w, s, e, p, p - s) == ScaledShift(e, p - s, BrightenOffsetDarkenRatio(w, s, e))
  {
  }

  lemma RaisedBelowStart(w: Alphas, s: real, e1: real, e2: real, p: real)
    requires Admissible(w, p) && Level(s) && 0.0 < e1 <= e2 < s && s < p
    ensures Shifted(w, s, e1, p, p - s) <= Shifted(w, s, e2, p, p - s) <= p
  {
    var d := p - s;
    DarkenRatioRises(w, s, e1, e2);
    ShiftRises(e1, e2, d, BrightenOffsetDarkenRatio(w, s, e1), BrightenOffsetDarkenRatio(w, s, e2));
    DarkenRaised(w, s, e1, p);
    DarkenRaised(w, s, e2, p);
  }

  lemma BelowStart(w: Alphas, s: real, e1: real, e2: real, p: real)
    requires Admissible(w, p) && Level(s) && 0.0 < e1 <= e2 < s
    ensures Shifted(w, s, e1, p, p - s) <= Shifted(w, s, e2, p, p - s) <= p
  {
    if p < s {
      LoweredBelowStart(w, s, e1, e2, p);
    } else if s < p {
      RaisedBelowStart(w, s, e1, e2, p);
    }
  }

  /** More curve brightness never gives less brightness, whichever of the four cases apply. */
  lemma OffsetIsMonotone(w: Alphas, s: real, e1: real, e2: real, p: real)
    requires Admissible(w, p) && Level(s) && Level(e1) && Level(e2) && e1 <= e2
    ensures OffsetLevel(w, s, e1, p, p - s) <= OffsetLevel(w, s, e2, p, p - s)
  {
    if e1 < s {
      BelowStart(w, s, e1, if e2 < s then e2 else e1, p);
    }
    if s < e2 {
      AboveStart(w, s, if s < e1 then e1 else e2, e2, p);
    }
  }

  // ---------- runs ----------

  datatype OffsetOp =
    | Evaluate(lux: real)
    | Place(position: real, lux: real)
    | HumanFactor(enable: bool, min: int, max: int)

  ghost function Apply(c: OffsetState, w: Alphas, points: seq<PointXy>, op: OffsetOp): OffsetState {
    match op
    case Evaluate(lux) => Evaluated(c, w, points, lux)
    case Place(position, lux) => Placed(c, points, position, lux)
    case HumanFactor(enable, min, max) => HumanFactored(c, enable, min, max)
  }

  ghost function After(w: Alphas, points: seq<PointXy>, ops: seq<OffsetOp>): OffsetState {
    if ops == [] then NO_OFFSET else Apply(After(w, points, ops[..|ops| - 1]), w, points, ops[|ops| - 1])
  }

  ghost predicate IsReset(op: OffsetOp) {
    op.Place? && ValidAmbient(op.lux) && RealAbs(op.position) < SMALL_VALUE
  }

  /** Some lux was evaluated after the last time the user's position was taken back. */
  ghost predicate EvaluatedSinceReset(ops: seq<OffsetOp>) {
    exists i :: 0 <= i < |ops| && ops[i].Evaluate? && forall j :: i < j < |ops| ==> !IsReset(ops[j])
  }

  ghost predicate Invariant(c: OffsetState) {
    && c.delta == c.position - c.startDefault
    && 0.0 <= c.lastDefault <= MAX_DEFAULT_BRIGHTNESS
    && (c.position != 0.0 ==> Level(c.startDefault))
  }

  lemma EvaluatedSinceResetStep(ops: seq<OffsetOp>)
    requires ops != []
    ensures EvaluatedSinceReset(ops) <==>
            var op := ops[|ops| - 1];
            op.Evaluate? || (!IsReset(op) && EvaluatedSinceReset(ops[..|ops| - 1]))
  {
    var n := |ops| - 1;
    var front := ops[..n];
    if ops[n].Evaluate? {
      assert EvaluatedSinceReset(ops);
    } else if !IsReset(ops[n]) && EvaluatedSinceReset(front) {
      var i :| 0 <= i < n && front[i].Evaluate? && forall j :: i < j < n ==> !IsReset(front[j]);
      assert ops[i].Evaluate?;
    }
    if EvaluatedSinceReset(ops) && !ops[n].Evaluate? {
      var i :| 0 <= i < |ops| && ops[i].Evaluate? && forall j :: i < j < |ops| ==> !IsReset(ops[j]);
      assert front[i].Evaluate?;
      assert forall j :: i < j < n ==> front[j] == ops[j];
    }
  }

  /** In every reachable state the delta is the position minus the start, and the last level tells the history. */
  lemma {:induction false} RunKeepsInvariant(w: Alphas, points: seq<PointXy>, ops: seq<OffsetOp>)
    requires Visible(points)
    ensures Invariant(After(w, points, ops))
    ensures 0.0 < After(w, points, ops).lastDefault <==> EvaluatedSinceReset(ops)
    decreases |ops|
  {
    if ops != [] {
      var front, op := ops[..|ops| - 1], ops[|ops| - 1];
      RunKeepsInvariant(w, points, front);
      EvaluatedSinceResetStep(ops);
      match op
      case Evaluate(lux) =>
        EvaluatedKeepsInvariant(After(w, points, front), w, points, lux);
        CurveStaysVisible(points, lux);
      case Place(position, lux) => PlacedKeepsInvariant(After(w, points, front), points, position, lux);
      case HumanFactor(_, _, _) =>
    }
  }

  /** A position that is not dropped is what the light it was picked at gives, clamped. */
  lemma PlacedIsHonoured(c: OffsetState, w: Alphas, points: seq<PointXy>, position: real, lux: real)
    requires ValidAmbient(lux) && SMALL_VALUE <= RealAbs(position) && 0.0 < c.lastDefault
    ensures LevelAt(Placed(c, points, position, lux), w, points, lux) == ClampLevel(position)
    ensures Evaluated(Placed(c, points, position, lux), w, points, lux).position == position
  {
    AtStart(w, CurveLevel(points, lux), position);
  }

  lemma PlacedIsDropped(c: OffsetState, w: Alphas, points: seq<PointXy>, position: real, lux: real)
    requires ValidAmbient(lux) && SMALL_VALUE <= RealAbs(position) && c.lastDefault <= 0.0
    ensures LevelAt(Placed(c, points, position, lux), w, points, lux) == CurveLevel(points, lux)
    ensures Evaluated(Placed(c, points, position, lux), w, points, lux).position == 0.0
  {
  }

  /**
   * The position a user picks is what the same light then gives, clamped, exactly when a lux
   * was evaluated since the last reset; otherwise the offset is dropped for the plain curve.
   */
  lemma OffsetIsHonoured(w: Alphas, points: seq<PointXy>, ops: seq<OffsetOp>, position: real, lux: real)
    requires Visible(points) && ValidAmbient(lux) && SMALL_VALUE <= RealAbs(position)
    ensures var c := Placed(After(w, points, ops), points, position, lux);
            && LevelAt(c, w, points, lux) ==
               (if EvaluatedSinceReset(ops) then ClampLevel(position) else CurveLevel(points, lux))
            && Evaluated(c, w, points, lux).position == if EvaluatedSinceReset(ops) then position else 0.0
  {
    RunKeepsInvariant(w, points, ops);
    if EvaluatedSinceReset(ops) {
      PlacedIsHonoured(After(w, points, ops), w, points, position, lux);
    } else {
      PlacedIsDropped(After(w, points, ops), w, points, position, lux);
    }
  }

  lemma AtStart(w: Alphas, start: real, position: real)
    ensures Shifted(w, start, start, position, position - start) == position
  {
  }

  /** In every state that keeps the invariant, a higher curve level never gives a lower level. */
  lemma LevelIsMonotone(c: OffsetState, w: Alphas, points: seq<PointXy>, a: real, b: real)
    requires Invariant(c) && Admissible(w, c.position) && Visible(points)
    requires CurveLevel(points, a) <= CurveLevel(points, b)
    ensures 0.0 < LevelAt(c, w, points, a) <= LevelAt(c, w, points, b) <= MAX_DEFAULT_BRIGHTNESS
  {
    CurveStaysVisible(points, a);
    CurveStaysVisible(points, b);
    if !Drops(c) && c.position != 0.0 {
      OffsetIsMonotone(w, c.startDefault, CurveLevel(points, a), CurveLevel(points, b), c.position);
    }
  }

  /** The share of the room below the maximum that is left at `e`. */
  ghost function RoomLeft(s: real, e: real): real {
    if 255.0 - s < 0.000001 then 1.0 else (255.0 - e) / (255.0 - s)
  }

  /** What a level `p` placed where the curve gives `s` becomes where it gives `e`, before it is limited. */
  ghost function Followed(s: real, e: real, p: real): real {
    if s == e then p
    else if s < p then
      if e < s || p - s < 0.000001 then e + (p - s) else RealMax(e, p)
    else if e < s then
      if s - p < 0.000001 then e + (p - s) else RealMin(e, p)
    else e - (s - p) * RoomLeft(s, e)
  }

  ghost function Limited(level: real): real {
    if level < 4.0 then 4.0 else if 255.0 < level then 255.0 else level
  }

  lemma RaisedByRoom(s: real, e: real, d: real)
    requires s <= 255.0
    ensures Raised(s, e, d) == e + d * RoomLeft(s, e)
  {
  }

  lemma BlendOfZero(x: real, y: real)
    ensures Blend(0.0, x, y) == x
  {
  }

  lemma ShippedRaise(s: real, e: real, p: real)
    requires s < e && s < p
    ensures Shifted(SHIPPED_ALPHAS, s, e, p, p - s) == if p - s < SMALL_VALUE then e + (p - s) else RealMax(e, p)
  {
    BrightenRaised(SHIPPED_ALPHAS, s, e, p, p - s);
    BlendOfZero(RealMax(e, p), Raised(s, e, p - s));
  }

  lemma ShippedCut(s: real, e: real, p: real)
    requires e < s && p < s
    ensures Shifted(SHIPPED_ALPHAS, s, e, p, p - s) == if s - p < SMALL_VALUE then e + (p - s) else RealMin(e, p)
  {
    DarkenLowered(SHIPPED_ALPHAS, s, e, p, p - s);
    BlendOfZero(RealMin(e, p), Cut(s, e, p - s));
  }

  lemma ShippedMixedRatio(s: real, e: real)
    requires s != 0.0
    ensures MixedRatio(0.0, s, e) == 1.0
  {
  }

  /**
   * With the weights of the shipped code: a raise is kept until the curve overtakes it and a cut until the
   * curve falls below it, while a cut shrinks toward the maximum and a raise stays whole in the dark. Offsets
   * too small to divide by, and cuts from too near the maximum, are moved along whole.
   */
  lemma ShippedOffsetMeans(s: real, e: real, p: real)
    requires Level(s) && Level(e)
    ensures Shifted(SHIPPED_ALPHAS, s, e, p, p - s) == Followed(s, e, p)
  {
    if s < e && s < p {
      ShippedRaise(s, e, p);
    } else if s < e && p < s {
      BrightenLowered(SHIPPED_ALPHAS, s, e, p, p - s);
      RaisedByRoom(s, e, p - s);
    } else if e < s && p < s {
      ShippedCut(s, e, p);
    } else if e < s && s < p {
      DarkenRaised(SHIPPED_ALPHAS, s, e, p);
      ShippedMixedRatio(s, e);
    }
  }

  /** A placed offset that is not dropped follows the curve to any other light. */
  lemma PlacedFollowsCurve(c: OffsetState, points: seq<PointXy>, position: real, from: real, to: real)
    requires Visible(points) && 0.0 <= from <= 40000.0 && 0.000001 <= RealAbs(position) && 0.0 < c.lastDefault
    ensures LevelAt(Placed(c, points, position, from), SHIPPED_ALPHAS, points, to) ==
            Limited(Followed(CurveLevel(points, from), CurveLevel(points, to), position))
  {
    CurveStaysVisible(points, from);
    CurveStaysVisible(points, to);
    ShippedOffsetMeans(CurveLevel(points, from), CurveLevel(points, to), position);
  }

  /**
   * With the shipped weights, the position a user picks at one light gives at any other what `Followed` says, within
   * 4 to 255, if a lux was evaluated since the last reset; otherwise the offset is dropped for the plain curve.
   */
  lemma OffsetFollowsCurve(points: seq<PointXy>, ops: seq<OffsetOp>, position: real, from: real, to: real)
    requires Visible(points) && 0.0 <= from <= 40000.0 && 0.000001 <= RealAbs(position)
    ensures var c := Placed(After(SHIPPED_ALPHAS, points, ops), points, position, from);
            LevelAt(c, SHIPPED_ALPHAS, points, to) ==
            if EvaluatedSinceReset(ops)
            then Limited(Followed(CurveLevel(points, from), CurveLevel(points, to), position))
            else CurveLevel(points, to)
  {
    RunKeepsInvariant(SHIPPED_ALPHAS, points, ops);
    if EvaluatedSinceReset(ops) {
      PlacedFollowsCurve(After(SHIPPED_ALPHAS, points, ops), points, position, from, to);
    }
  }

  /** A position of nothing takes the offset back: then every light gives the plain curve. */
  lemma ZeroTakesBack(c: OffsetState, w: Alphas, points: seq<PointXy>, position: real, from: real, to: real)
    requires 0.0 <= from <= 40000.0 && RealAbs(position) < 0.000001
    ensures LevelAt(Placed(c, points, position, from), w, points, to) == CurveLevel(points, to)
  {
  }

  /** Outside the sensor's range of light no position is taken. */
  lemma InvalidLightPlacesNothing(c: OffsetState, points: seq<PointXy>, position: real, from: real)
    requires from < 0.0 || 40000.0 < from
    ensures Placed(c, points, position, from) == c
  {
  }

  /** Enabled, a position in use moves into the limits, the delta with it; nothing else but the last level changes. */
  lemma HumanFactorMeans(c: OffsetState, enable: bool, min: int, max: int)
    requires c.delta == c.position - c.startDefault && min <= max
    ensures var d := HumanFactored(c, enable, min, max);
            && d == c.(position := d.position, delta := d.position - c.startDefault, offsetLast := d.offsetLast)
            && d.offsetLast == (if d.position == c.position then c.offsetLast else d.position)
            && d.position == if !enable || RealAbs(c.position) <= 0.000001 then c.position
                             else if c.position < min as real then min as real
                             else if max as real < c.position then max as real
                             else c.position
  {
  }

  lemma EvaluatedKeepsInvariant(c: OffsetState, w: Alphas, points: seq<PointXy>, lux: real)
    requires Invariant(c) && Visible(points)
    ensures Invariant(Evaluated(c, w, points, lux))
  {
    CurveStaysVisible(points, lux);
  }

  lemma PlacedKeepsInvariant(c: OffsetState, points: seq<PointXy>, position: real, lux: real)
    requires Invariant(c) && Visible(points)
    ensures Invariant(Placed(c, points, position, lux))
  {
    CurveStaysVisible(points, lux);
  }
}
