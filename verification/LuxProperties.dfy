/** What the light sensor pipeline guarantees over single readings and over whole runs. */
module LuxProperties {
  import opened Common
  import opened Arithmetic
  import opened Points
  import opened LightLuxBuffers
  import opened LuxHistories
  import opened LightLuxManagers
  import Smoothing

  ghost predicate InLuxRange(items: seq<Sample>) {
    forall i :: 0 <= i < |items| ==> 0.0 <= items[i].lux <= LIGHT_MAX_LUX
  }

  ghost predicate SameTimes(a: seq<Sample>, b: seq<Sample>) {
    |a| == |b| && forall i :: 0 <= i < |a| ==> a[i].time == b[i].time
  }

  ghost predicate SameLuxes(a: seq<Sample>, b: seq<Sample>) {
    |a| == |b| && forall i :: 0 <= i < |a| ==> a[i].lux == b[i].lux
  }

  /** Raw and smoothed buffer agree in size, room and timestamps. */
  ghost predicate Lockstep(a: History, b: History) {
    a.capacity == b.capacity && SameTimes(a.items, b.items)
  }

  ghost predicate Invariant(s: LuxState, now: int) {
    && WellFormed(s.raw) && WellFormed(s.smooth)
    && LUX_BUFFER_SIZE_DEFAULT <= s.raw.capacity
    && Lockstep(s.raw, s.smooth)
    && Sorted(s.smooth.items) && NotAfter(s.smooth.items, now)
    && InLuxRange(s.raw.items) && InLuxRange(s.smooth.items)
    && 0.0 <= s.filtered <= LIGHT_MAX_LUX
    && (s.smooth.items != [] ==> s.smooth.items[|s.smooth.items| - 1].lux == SmoothLux(s.raw.items))
  }

  // ---------- recording one sample ----------

  /** A sample lost to a full buffer leaves the other samples as they were, but for the stamp of the head. */
  lemma RecordedMeans(h: History, now: int, lux: real) returns (k: nat, lost: bool)
    requires WellFormed(h)
    ensures WellFormed(Recorded(h, now, lux)) && h.capacity <= Recorded(h, now, lux).capacity
    ensures h.items == [] ==> k == 0 && !lost && Recorded(h, now, lux).items == [Sample(now, lux)]
    ensures h.items != [] ==>
              && LastExpired(h.items, now - LIGHT_LUX_BUFFER_RANGE, k)
              && var kept := Pruned(h, now - LIGHT_LUX_BUFFER_RANGE).items;
              && CutAt(h.items, kept, now - LIGHT_LUX_BUFFER_RANGE, k)
              && Recorded(h, now, lux).items == if lost then kept else kept + [Sample(now, lux)]
    ensures lost ==> k == 0 && |h.items| == h.capacity
    ensures lost == PushIsLost(Pruned(h, now - LIGHT_LUX_BUFFER_RANGE))
  {
    k := 0;
    lost := PushIsLost(Pruned(h, now - LIGHT_LUX_BUFFER_RANGE));
    if h.items != [] {
      k := PruneCutsAtHorizon(h, now - LIGHT_LUX_BUFFER_RANGE);
    }
  }

  lemma LastExpiredIsShared(a: seq<Sample>, b: seq<Sample>, horizon: int, j: nat, k: nat)
    requires SameTimes(a, b) && LastExpired(a, horizon, j) && LastExpired(b, horizon, k)
    ensures j == k
  {
    if j < k {
      assert false;
    } else if k < j {
      assert false;
    }
  }

  lemma PrunedKeepsLockstep(a: History, b: History, horizon: int)
    requires Lockstep(a, b)
    ensures Lockstep(Pruned(a, horizon), Pruned(b, horizon))
  {
    if a.items != [] {
      var j := PruneCutsAtHorizon(a, horizon);
      var k := PruneCutsAtHorizon(b, horizon);
      LastExpiredIsShared(a.items, b.items, horizon, j, k);
    }
  }

  lemma RecordedKeepsLockstep(a: History, b: History, now: int, x: real, y: real)
    requires WellFormed(a) && WellFormed(b) && Lockstep(a, b)
    ensures Lockstep(Recorded(a, now, x), Recorded(b, now, y))
    ensures PushIsLost(Pruned(a, now - LIGHT_LUX_BUFFER_RANGE)) ==
            PushIsLost(Pruned(b, now - LIGHT_LUX_BUFFER_RANGE))
  {
    PrunedKeepsLockstep(a, b, now - LIGHT_LUX_BUFFER_RANGE);
  }

  lemma RecordedKeepsOrder(h: History, now: int, lux: real, before: int)
    requires WellFormed(h) && Sorted(h.items) && NotAfter(h.items, before) && before <= now
    ensures Sorted(Recorded(h, now, lux).items) && NotAfter(Recorded(h, now, lux).items, now)
    ensures Recorded(h, now, lux).items != []
    ensures now - LIGHT_LUX_BUFFER_RANGE <= Recorded(h, now, lux).items[0].time
  {
    var p := Pruned(h, now - LIGHT_LUX_BUFFER_RANGE);
    PruneKeepsOrder(h, now - LIGHT_LUX_BUFFER_RANGE, now);
    PushKeepsOrder(p, Sample(now, lux), now);
    if h.items != [] {
      var k := PruneCutsAtHorizon(h, now - LIGHT_LUX_BUFFER_RANGE);
      assert now - LIGHT_LUX_BUFFER_RANGE <= p.items[0].time;
    }
  }

  lemma RecordedKeepsRange(h: History, now: int, lux: real)
    requires WellFormed(h) && InLuxRange(h.items) && 0.0 <= lux <= LIGHT_MAX_LUX
    ensures InLuxRange(Recorded(h, now, lux).items)
  {
    var k, lost := RecordedMeans(h, now, lux);
  }

  lemma SmoothLuxInRange(items: seq<Sample>)
    requires items != [] && InLuxRange(items)
    ensures 0.0 <= SmoothLux(items) <= LIGHT_MAX_LUX
  {
    if |items| >= LIGHT_LUX_BUFFER_MIN {
      Smoothing.TrimmedMeanInRange(NewestFive(items), 0.0, LIGHT_MAX_LUX);
    }
  }

  lemma SmoothLuxReadsLuxes(a: seq<Sample>, b: seq<Sample>)
    requires SameLuxes(a, b)
    ensures SmoothLux(a) == SmoothLux(b)
  {
    if |a| >= LIGHT_LUX_BUFFER_MIN {
      assert NewestFive(a) == NewestFive(b);
    }
  }

  // ---------- one reading ----------

  /** The state between recording a reading and judging it. */
  ghost function BeforeJudging(s: LuxState, now: int, lux: real): LuxState {
    var v := ValidLux(lux);
    Smoothed(s.(lux := v, raw := Recorded(s.raw, now, v)), now)
  }

  /**
   * The newest smoothed sample always equals the value being judged. When the sample was lost
   * to a full buffer, so was the raw reading, and the value is the one computed last time.
   */
  lemma NewestIsJudged(s: LuxState, before: int, now: int, lux: real)
    requires Invariant(s, before)
    ensures var raw := Recorded(s.raw, now, lux);
            var smooth := Recorded(s.smooth, now, SmoothLux(raw.items)).items;
            smooth != [] && smooth[|smooth| - 1].lux == SmoothLux(raw.items)
  {
    var raw := Recorded(s.raw, now, lux);
    var x := SmoothLux(raw.items);
    RecordedKeepsLockstep(s.raw, s.smooth, now, lux, x);
    if PushIsLost(Pruned(s.smooth, now - LIGHT_LUX_BUFFER_RANGE)) {
      LostKeepsLuxes(s.raw, now, lux);
      LostKeepsLuxes(s.smooth, now, x);
      SmoothLuxReadsLuxes(s.raw.items, raw.items);
    } else {
      KeptEndsNewest(s.smooth, now, x);
    }
  }

  lemma LostKeepsLuxes(h: History, now: int, lux: real)
    requires WellFormed(h) && PushIsLost(Pruned(h, now - LIGHT_LUX_BUFFER_RANGE))
    ensures SameLuxes(h.items, Recorded(h, now, lux).items) && h.items != []
  {
    var k, lost := RecordedMeans(h, now, lux);
  }

  lemma KeptEndsNewest(h: History, now: int, lux: real)
    requires WellFormed(h) && !PushIsLost(Pruned(h, now - LIGHT_LUX_BUFFER_RANGE))
    ensures var items := Recorded(h, now, lux).items;
            items != [] && items[|items| - 1] == Sample(now, lux)
  {
  }

  lemma FirstIsAlone(h: History, now: int, lux: real)
    requires WellFormed(h) && LUX_BUFFER_SIZE_DEFAULT <= h.capacity
    ensures |Recorded(h, now, lux).items| == 1 <==> h.items == []
  {
    var k, lost := RecordedMeans(h, now, lux);
  }

  lemma RecordingKeepsInvariant(s: LuxState, before: int, now: int, lux: real)
    requires Invariant(s, before) && before <= now
    ensures var t := BeforeJudging(s, now, lux);
            && Invariant(t, now) && t.smooth.items != []
            && t.smooth.items[|t.smooth.items| - 1].lux == t.smoothed
            && now - LIGHT_LUX_BUFFER_RANGE <= t.smooth.items[0].time
            && (t.isFirstLux <==> s.raw.items == [])
            && (t.isFirstLux <==> |t.smooth.items| == 1)
            && 0.0 <= t.smoothed <= LIGHT_MAX_LUX
  {
    var v := ValidLux(lux);
    var raw := Recorded(s.raw, now, v);
    var x := SmoothLux(raw.items);
    RecordedKeepsLockstep(s.raw, s.smooth, now, v, x);
    NewestIsJudged(s, before, now, v);
    FirstIsAlone(s.raw, now, v);
    RecordedKeepsRange(s.raw, now, v);
    RecordedKeepsOrder(s.smooth, now, x, before);
    SmoothLuxInRange(raw.items);
    RecordedKeepsRange(s.smooth, now, x);
    var j, lostRaw := RecordedMeans(s.raw, now, v);
    var k, lost := RecordedMeans(s.smooth, now, x);
  }

  // ---------- what the decision means ----------

  /** Some retained sample is old enough, and it and all later ones lie beyond the threshold. */
  ghost predicate HeldLongEnough(t: LuxState, mode: Mode, dir: Direction, now: int) {
    exists k :: 0 <= k < |t.smooth.items| && HeldSince(t, mode, dir, now, k)
  }

  ghost predicate HeldSince(t: LuxState, mode: Mode, dir: Direction, now: int, k: nat)
    requires k < |t.smooth.items|
  {
    && t.smooth.items[k].time <= now - Response(mode, dir)
    && forall i :: k <= i < |t.smooth.items| ==> Qualifies(t, dir, t.smooth.items[i])
  }

  /** With two or more samples, a direction is due iff its change was held through the debounce time. */
  lemma DueMeansHeld(t: LuxState, mode: Mode, dir: Direction, now: int)
    requires Invariant(t, now) && |t.smooth.items| >= 2
    ensures Due(t, mode, dir, now) <==> Response(mode, dir) <= 0 || HeldLongEnough(t, mode, dir, now)
  {
    var items := t.smooth.items;
    var start := RunStart(t, dir, items);
    if start < |items| && items[start].time <= now - Response(mode, dir) {
      assert HeldSince(t, mode, dir, now, start);
    }
    if HeldLongEnough(t, mode, dir, now) {
      var k :| 0 <= k < |items| && HeldSince(t, mode, dir, now, k);
      assert start <= k;
    }
  }

  /** The whole decision for one reading, in terms of the samples retained after recording it. */
  lemma UpdateMeans(s: LuxState, before: int, mode: Mode, now: int, lux: real)
    requires Invariant(s, before) && before <= now
    ensures var t := BeforeJudging(s, now, lux);
            Reading(s, mode, now, lux).updated <==>
            || s.raw.items == []
            || exists dir :: Response(mode, dir) <= 0 || HeldLongEnough(t, mode, dir, now)
    ensures Reading(s, mode, now, lux).next.isFirstLux <==> s.raw.items == []
  {
    var t := BeforeJudging(s, now, lux);
    ReadingIsJudged(s, before, mode, now, lux);
    RecordingKeepsInvariant(s, before, now, lux);
    if s.raw.items != [] {
      DueMeansHeld(t, mode, Brighten, now);
      DueMeansHeld(t, mode, Darken, now);
      forall dir | Due(t, mode, dir, now) ensures dir == Brighten || dir == Darken {}
    }
  }

  lemma ReadingIsJudged(s: LuxState, before: int, mode: Mode, now: int, lux: real)
    requires Invariant(s, before) && before <= now
    ensures Reading(s, mode, now, lux) == Judged(BeforeJudging(s, now, lux), mode, now)
  {
    RecordingKeepsInvariant(s, before, now, lux);
  }

  /** A newest value strictly inside the band holds the filtered lux, whatever came before. */
  lemma InsideBandHolds(s: LuxState, before: int, mode: Mode, now: int, lux: real)
    requires Invariant(s, before) && before <= now && s.raw.items != []
    requires 0 < Response(mode, Brighten) && 0 < Response(mode, Darken)
    requires var x := BeforeJudging(s, now, lux).smoothed;
             s.filtered - s.darkenDelta < x < s.filtered + s.brightenDelta
    ensures var o := Reading(s, mode, now, lux);
            !o.updated && o.next.filtered == s.filtered
            && o.next.brightenDelta == s.brightenDelta && o.next.darkenDelta == s.darkenDelta
  {
    ReadingIsJudged(s, before, mode, now, lux);
    RecordingKeepsInvariant(s, before, now, lux);
  }

  // ---------- thresholds ----------

  ghost function Table(mode: Mode, dir: Direction): seq<PointXy> {
    match dir
    case Brighten => mode.brightenPoints
    case Darken => mode.darkenPoints
  }

  ghost function DeltaOf(s: LuxState, dir: Direction): real {
    match dir
    case Brighten => s.brightenDelta
    case Darken => s.darkenDelta
  }

  /** The table asks for no change at all once the lux is beyond its last point, and lux can get there. */
  ghost predicate Vanishes(points: seq<PointXy>) {
    && points != []
    && points[|points| - 1].y == 0.0
    && forall i :: 0 <= i < |points| ==> points[i].x <= LIGHT_MAX_LUX
  }

  /** A table yields a zero threshold for some valid lux exactly when it vanishes. */
  lemma DeltaVanishes(points: seq<PointXy>)
    ensures Vanishes(points) <==> exists lux :: 0.0 <= lux <= LIGHT_MAX_LUX && Delta(points, lux) == 0.0
  {
    if Vanishes(points) {
      FirstRightOfIsUnique(points, LIGHT_MAX_LUX, |points|);
      assert Delta(points, LIGHT_MAX_LUX) == 0.0;
    }
  }

  ghost predicate EndsInOne(points: seq<PointXy>) {
    points != [] && 1.0 <= points[|points| - 1].y
  }

  /** Tables whose last value is at least one give thresholds of at least one. */
  lemma DeltaAtLeastOne(points: seq<PointXy>, lux: real)
    requires EndsInOne(points)
    ensures 1.0 <= Delta(points, lux)
  {
  }

  /** Between two points the threshold is on the line through them where that is above one, and one elsewhere. */
  lemma DeltaIsLinear(points: seq<PointXy>, lux: real, k: nat)
    requires Between(points, lux, k)
    ensures var p, q, delta := points[k - 1], points[k], Delta(points, lux);
            var width, climb := q.x - p.x, (q.y - p.y) * (lux - p.x);
            if width < 0.0000001 then delta == 1.0
            else 1.0 <= delta && (if climb < (1.0 - p.y) * width then delta == 1.0 else (delta - p.y) * width == climb)
  {
    FirstRightOfIsUnique(points, lux, k);
    var p, q, d := points[k - 1], points[k], OnLine(points[k - 1], points[k], lux);
    if 0.0000001 <= q.x - p.x {
      LineIsLinear(p, q, lux);
      RaisedToOne(d - p.y, 1.0 - p.y, q.x - p.x, (q.y - p.y) * (lux - p.x));
    }
  }

  lemma RaisedToOne(rise: real, least: real, width: real, climb: real)
    requires 0.0 < width && rise * width == climb
    ensures climb < least * width <==> rise < least
  {
    ProductOrder(rise, least, width);
  }

  /** Elsewhere it is one before the first point, the last point's value behind the last, and invalid without points. */
  lemma DeltaOutside(points: seq<PointXy>, lux: real)
    ensures points == [] ==> Delta(points, lux) == -1.0
    ensures points != [] && lux < points[0].x ==> Delta(points, lux) == 1.0
    ensures points != [] && (forall i :: 0 <= i < |points| ==> points[i].x <= lux) ==>
              Delta(points, lux) == points[|points| - 1].y
  {
    if points != [] && forall i :: 0 <= i < |points| ==> points[i].x <= lux {
      FirstRightOfIsUnique(points, lux, |points|);
    }
  }

  // ---------- spacing of updates ----------

  /** Behind sample `k`, which equals the filtered lux, nothing is stamped earlier than `since`. */
  ghost predicate BlockedAt(items: seq<Sample>, filtered: real, since: int, k: int) {
    && -1 <= k < |items|
    && (0 <= k ==> items[k].lux == filtered)
    && forall i :: k < i < |items| ==> since <= items[i].time
  }

  ghost predicate Blocked(s: LuxState, since: int) {
    exists k: int :: BlockedAt(s.smooth.items, s.filtered, since, k)
  }

  lemma RecordedKeepsBlocked(h: History, now: int, lux: real, filtered: real, since: int, k: int) returns (j: int)
    requires WellFormed(h) && since <= now && BlockedAt(h.items, filtered, since, k)
    ensures BlockedAt(Recorded(h, now, lux).items, filtered, since, j)
  {
    var cut, lost := RecordedMeans(h, now, lux);
    j := if k < cut then -1 else k - cut;
  }

  lemma RecordingKeepsBlocked(s: LuxState, before: int, now: int, lux: real, since: int)
    requires Invariant(s, before) && since <= now && Blocked(s, since)
    ensures Blocked(BeforeJudging(s, now, lux), since)
  {
    var k: int :| BlockedAt(s.smooth.items, s.filtered, since, k);
    var j := RecordedKeepsBlocked(s.smooth, now, BeforeJudging(s, now, lux).smoothed, s.filtered, since, k);
  }

  /** While blocked, a direction with a positive threshold is not due before its debounce time is over. */
  lemma BlockedDelays(t: LuxState, mode: Mode, dir: Direction, now: int, since: int)
    requires Blocked(t, since) && since <= now && |t.smooth.items| >= 2
    requires 0.0 < DeltaOf(t, dir) && Due(t, mode, dir, now)
    ensures since + Response(mode, dir) <= now
  {
    var k: int :| BlockedAt(t.smooth.items, t.filtered, since, k);
    var start := RunStart(t, dir, t.smooth.items);
    if 0 <= k {
      assert !Qualifies(t, dir, t.smooth.items[k]);
    }
    assert k < start;
  }

  /** A debounce time longer than the retained window never elapses. */
  lemma LongDebounceNeverDue(t: LuxState, mode: Mode, dir: Direction, now: int)
    requires Invariant(t, now) && |t.smooth.items| >= 2
    requires now - LIGHT_LUX_BUFFER_RANGE <= t.smooth.items[0].time
    requires LIGHT_LUX_BUFFER_RANGE < Response(mode, dir)
    ensures !Due(t, mode, dir, now)
  {
  }

  /** An update blocks from its own time on; without one, the earlier block stands. */
  lemma ReadingKeepsBlocked(s: LuxState, before: int, mode: Mode, now: int, lux: real, since: int)
    requires Invariant(s, before) && before <= now && since <= now
    requires Blocked(s, since) || Reading(s, mode, now, lux).updated
    ensures Blocked(Reading(s, mode, now, lux).next, since)
  {
    var o := Reading(s, mode, now, lux);
    var t := BeforeJudging(s, now, lux);
    ReadingIsJudged(s, before, mode, now, lux);
    RecordingKeepsInvariant(s, before, now, lux);
    if o.updated {
      assert BlockedAt(o.next.smooth.items, o.next.filtered, since, |t.smooth.items| - 1);
    } else {
      RecordingKeepsBlocked(s, before, now, lux, since);
    }
  }

  lemma ReadingKeepsInvariant(s: LuxState, before: int, mode: Mode, now: int, lux: real)
    requires Invariant(s, before) && before <= now
    ensures Invariant(Reading(s, mode, now, lux).next, now)
    ensures Reading(s, mode, now, lux).next.raw.items != []
  {
    ReadingIsJudged(s, before, mode, now, lux);
    RecordingKeepsInvariant(s, before, now, lux);
  }

  /** A table that does not vanish keeps its threshold positive. */
  lemma ReadingKeepsDeltaPositive(s: LuxState, before: int, mode: Mode, now: int, lux: real, dir: Direction)
    requires Invariant(s, before) && before <= now
    requires 0.0 < DeltaOf(s, dir) && !Vanishes(Table(mode, dir))
    ensures 0.0 < DeltaOf(Reading(s, mode, now, lux).next, dir)
  {
    ReadingIsJudged(s, before, mode, now, lux);
    RecordingKeepsInvariant(s, before, now, lux);
    DeltaVanishes(Table(mode, dir));
  }

  // ---------- runs ----------

  /** A reading, a clearing because the sensor went off, or a moment at which neither happens. */
  datatype LuxEvent =
    | Sensed(clock: int, lux: real, mode: Mode)
    | DataCleared(clock: int)
    | Idle(clock: int)

  ghost function Apply(s: LuxState, e: LuxEvent): LuxState {
    match e
    case Sensed(clock, lux, mode) => Reading(s, mode, clock, lux).next
    case DataCleared(_) => Cleared(s)
    case Idle(_) => s
  }

  ghost function After(es: seq<LuxEvent>): LuxState {
    if es == [] then INITIAL else Apply(After(es[..|es| - 1]), es[|es| - 1])
  }

  lemma AfterNext(es: seq<LuxEvent>, n: nat)
    requires n < |es|
    ensures After(es[..n + 1]) == Apply(After(es[..n]), es[n])
  {
    assert es[..n + 1][..n] == es[..n];
  }

  ghost predicate Clocked(es: seq<LuxEvent>) {
    forall i, j :: 0 <= i <= j < |es| ==> es[i].clock <= es[j].clock
  }

  ghost predicate UpdatesAt(es: seq<LuxEvent>, i: nat) {
    && i < |es| && es[i].Sensed?
    && Reading(After(es[..i]), es[i].mode, es[i].clock, es[i].lux).updated
  }

  ghost predicate Uninterrupted(es: seq<LuxEvent>, i: nat, j: nat) {
    forall m :: i <= m < j && m < |es| ==> !es[m].DataCleared?
  }

  ghost predicate SensedSinceCleared(es: seq<LuxEvent>) {
    exists i :: 0 <= i < |es| && es[i].Sensed? && Uninterrupted(es, i, |es|)
  }

  ghost function Clock(es: seq<LuxEvent>, start: int): int {
    if es == [] then start else es[|es| - 1].clock
  }

  lemma SensedSinceClearedStep(es: seq<LuxEvent>)
    requires es != []
    ensures SensedSinceCleared(es) <==>
            var e := es[|es| - 1];
            e.Sensed? || (!e.DataCleared? && SensedSinceCleared(es[..|es| - 1]))
  {
    var n := |es| - 1;
    var front := es[..n];
    if es[n].Sensed? {
      assert Uninterrupted(es, n, |es|);
    } else if !es[n].DataCleared? && SensedSinceCleared(front) {
      var i :| 0 <= i < n && front[i].Sensed? && Uninterrupted(front, i, n);
      assert Uninterrupted(es, i, |es|) && es[i].Sensed?;
    }
    if SensedSinceCleared(es) && !es[n].Sensed? {
      var i :| 0 <= i < |es| && es[i].Sensed? && Uninterrupted(es, i, |es|);
      assert front[i].Sensed? && Uninterrupted(front, i, n);
    }
  }

  lemma {:induction false} RunKeepsInvariant(es: seq<LuxEvent>, start: int)
    requires Clocked(es) && (es != [] ==> start <= es[0].clock)
    ensures Invariant(After(es), Clock(es, start))
    ensures SensedSinceCleared(es) <==> After(es).raw.items != []
    decreases |es|
  {
    if es != [] {
      var front, e := es[..|es| - 1], es[|es| - 1];
      RunKeepsInvariant(front, start);
      SensedSinceClearedStep(es);
      if e.Sensed? {
        ReadingKeepsInvariant(After(front), Clock(front, start), e.mode, e.clock, e.lux);
      }
    }
  }

  /** After a sample, the first-lux flag is set exactly when nothing was sensed since the start or the last clearing. */
  lemma FirstFlagMeans(es: seq<LuxEvent>)
    requires Clocked(es) && es != [] && es[|es| - 1].Sensed?
    ensures After(es).isFirstLux <==> !SensedSinceCleared(es[..|es| - 1])
    ensures After(es).isFirstLux ==> UpdatesAt(es, |es| - 1)
  {
    var front, e := es[..|es| - 1], es[|es| - 1];
    RunKeepsInvariant(front, es[0].clock);
    UpdateMeans(After(front), Clock(front, es[0].clock), e.mode, e.clock, e.lux);
  }

  /** A reading in state `s` is judged strictly inside the band of `r`, and takes time to be adopted. */
  ghost predicate JudgedInBand(s: LuxState, r: LuxState, e: LuxEvent) {
    e.Sensed? ==>
      && 0 < Response(e.mode, Brighten) && 0 < Response(e.mode, Darken)
      && var x := BeforeJudging(s, e.clock, e.lux).smoothed;
      && r.filtered - r.darkenDelta < x < r.filtered + r.brightenDelta
  }

  ghost predicate InsideBand(es: seq<LuxEvent>, r: LuxState, m: nat) {
    m < |es| ==> JudgedInBand(After(es[..m]), r, es[m])
  }

  ghost predicate SameBand(s: LuxState, r: LuxState) {
    s.filtered == r.filtered && s.brightenDelta == r.brightenDelta && s.darkenDelta == r.darkenDelta
  }

  /** However long readings stay inside the band, the filtered lux and the thresholds do not move. */
  lemma {:induction false} BandRunHolds(es: seq<LuxEvent>, i: nat)
    requires Clocked(es) && i <= |es| && SensedSinceCleared(es[..i]) && Uninterrupted(es, i, |es|)
    requires forall m :: i <= m < |es| ==> InsideBand(es, After(es[..i]), m)
    ensures SameBand(After(es), After(es[..i])) && SensedSinceCleared(es)
    decreases |es|
  {
    if i < |es| {
      var n := |es| - 1;
      var front := es[..n];
      assert front[..i] == es[..i];
      forall m | i <= m < n ensures InsideBand(front, After(front[..i]), m) {
        BandOfPrefix(es, After(es[..i]), n, m);
      }
      BandRunHolds(front, i);
      SensedSinceClearedStep(es);
      BandRunStep(es, After(es[..i]));
    } else {
      assert es[..i] == es;
    }
  }

  lemma BandRunStep(es: seq<LuxEvent>, r: LuxState)
    requires Clocked(es) && es != [] && !es[|es| - 1].DataCleared?
    requires var front := es[..|es| - 1]; SensedSinceCleared(front) && SameBand(After(front), r)
    requires InsideBand(es, r, |es| - 1)
    ensures SameBand(After(es), r)
  {
    var front := es[..|es| - 1];
    RunKeepsInvariant(front, es[0].clock);
    BandStep(After(front), r, Clock(front, es[0].clock), es[|es| - 1]);
  }

  /** ... and no reading among them is an update. */
  lemma BandRunNeverUpdates(es: seq<LuxEvent>, i: nat, m: nat)
    requires Clocked(es) && i <= m < |es| && SensedSinceCleared(es[..i]) && Uninterrupted(es, i, |es|)
    requires forall k :: i <= k < |es| ==> InsideBand(es, After(es[..i]), k)
    ensures !UpdatesAt(es, m)
  {
    var front := es[..m];
    assert front[..i] == es[..i];
    forall k | i <= k < m ensures InsideBand(front, After(front[..i]), k) {
      BandOfPrefix(es, After(es[..i]), m, k);
    }
    BandRunHolds(front, i);
    RunKeepsInvariant(front, es[0].clock);
    assert InsideBand(es, After(es[..i]), m);
    BandStep(After(front), After(es[..i]), Clock(front, es[0].clock), es[m]);
  }

  lemma BandOfPrefix(es: seq<LuxEvent>, r: LuxState, n: nat, m: nat)
    requires m < n <= |es|
    ensures InsideBand(es, r, m) == InsideBand(es[..n], r, m)
  {
    assert es[..n][..m] == es[..m];
  }

  lemma BandStep(s: LuxState, r: LuxState, before: int, e: LuxEvent)
    requires Invariant(s, before) && before <= e.clock && s.raw.items != [] && !e.DataCleared?
    requires SameBand(s, r) && JudgedInBand(s, r, e)
    ensures SameBand(Apply(s, e), r)
    ensures e.Sensed? ==> !Reading(s, e.mode, e.clock, e.lux).updated
  {
    if e.Sensed? {
      InsideBandHolds(s, before, e.mode, e.clock, e.lux);
    }
  }

  /** Either no table of the run vanishes in this direction, or its debounce time never elapses. */
  ghost predicate Safe(es: seq<LuxEvent>, dir: Direction) {
    || (forall i :: 0 <= i < |es| && es[i].Sensed? ==> !Vanishes(Table(es[i].mode, dir)))
    || (forall i :: 0 <= i < |es| && es[i].Sensed? ==> LIGHT_LUX_BUFFER_RANGE < Response(es[i].mode, dir))
  }

  lemma {:induction false} RunKeepsDeltaPositive(es: seq<LuxEvent>, dir: Direction, start: int)
    requires Clocked(es) && (es != [] ==> start <= es[0].clock)
    requires forall i :: 0 <= i < |es| && es[i].Sensed? ==> !Vanishes(Table(es[i].mode, dir))
    ensures 0.0 < DeltaOf(After(es), dir)
    decreases |es|
  {
    if es != [] {
      var front, e := es[..|es| - 1], es[|es| - 1];
      RunKeepsDeltaPositive(front, dir, start);
      if e.Sensed? {
        RunKeepsInvariant(front, start);
        ReadingKeepsDeltaPositive(After(front), Clock(front, start), e.mode, e.clock, e.lux, dir);
      }
    }
  }

  /** Tables that end in at least one keep the threshold at one or more on every run. */
  lemma {:induction false} RunKeepsDeltaAtLeastOne(es: seq<LuxEvent>, dir: Direction, start: int)
    requires Clocked(es) && (es != [] ==> start <= es[0].clock)
    requires forall i :: 0 <= i < |es| && es[i].Sensed? ==> EndsInOne(Table(es[i].mode, dir))
    ensures 1.0 <= DeltaOf(After(es), dir)
    decreases |es|
  {
    if es != [] {
      var front, e := es[..|es| - 1], es[|es| - 1];
      RunKeepsDeltaAtLeastOne(front, dir, start);
      if e.Sensed? {
        RunKeepsInvariant(front, start);
        ReadingIsJudged(After(front), Clock(front, start), e.mode, e.clock, e.lux);
        DeltaAtLeastOne(Table(e.mode, dir), BeforeJudging(After(front), e.clock, e.lux).smoothed);
      }
    }
  }

  /** On every run whose tables do not vanish, brightening and darkening are never due together. */
  lemma DirectionsExclude(es: seq<LuxEvent>, n: nat)
    requires Clocked(es) && n < |es| && es[n].Sensed? && SensedSinceCleared(es[..n])
    requires forall i :: 0 <= i < n && es[i].Sensed? ==>
               !Vanishes(es[i].mode.brightenPoints) && !Vanishes(es[i].mode.darkenPoints)
    requires 0 < Response(es[n].mode, Brighten) && 0 < Response(es[n].mode, Darken)
    ensures var t := BeforeJudging(After(es[..n]), es[n].clock, es[n].lux);
            !(Due(t, es[n].mode, Brighten, es[n].clock) && Due(t, es[n].mode, Darken, es[n].clock))
  {
    var front := es[..n];
    RunKeepsInvariant(front, es[0].clock);
    RunKeepsDeltaPositive(front, Brighten, es[0].clock);
    RunKeepsDeltaPositive(front, Darken, es[0].clock);
    RecordingKeepsInvariant(After(front), Clock(front, es[0].clock), es[n].clock, es[n].lux);
  }

  lemma {:induction false} RunStaysBlocked(es: seq<LuxEvent>, i: nat, start: int)
    requires Clocked(es) && (es != [] ==> start <= es[0].clock)
    requires i < |es| && UpdatesAt(es, i) && Uninterrupted(es, i, |es|)
    ensures Blocked(After(es), es[i].clock) && After(es).raw.items != []
    decreases |es|
  {
    var front, e := es[..|es| - 1], es[|es| - 1];
    RunKeepsInvariant(front, start);
    if i < |es| - 1 {
      assert front[..i] == es[..i];
      RunStaysBlocked(front, i, start);
    }
    if e.Sensed? {
      ReadingKeepsBlocked(After(front), Clock(front, start), e.mode, e.clock, e.lux, es[i].clock);
      ReadingKeepsInvariant(After(front), Clock(front, start), e.mode, e.clock, e.lux);
    }
  }

  /** One reading: an update that is not the first waits for the debounce time of its direction. */
  lemma BlockedUpdateWaits(s: LuxState, before: int, mode: Mode, now: int, lux: real, since: int)
    returns (dir: Direction)
    requires Invariant(s, before) && before <= now && since <= now && s.raw.items != []
    requires Blocked(s, since) && Reading(s, mode, now, lux).updated
    ensures 0.0 < DeltaOf(s, dir) ==> since + Response(mode, dir) <= now
    ensures Response(mode, dir) <= LIGHT_LUX_BUFFER_RANGE
  {
    var t := BeforeJudging(s, now, lux);
    ReadingIsJudged(s, before, mode, now, lux);
    RecordingKeepsInvariant(s, before, now, lux);
    RecordingKeepsBlocked(s, before, now, lux, since);
    dir := if Due(t, mode, Brighten, now) then Brighten else Darken;
    if 0.0 < DeltaOf(s, dir) {
      BlockedDelays(t, mode, dir, now, since);
    }
    if LIGHT_LUX_BUFFER_RANGE < Response(mode, dir) {
      LongDebounceNeverDue(t, mode, dir, now);
    }
  }

  /** After an update at `i` and no clearing since, the next one waits for its direction. */
  lemma NextUpdateWaits(es: seq<LuxEvent>, i: nat, e: LuxEvent) returns (dir: Direction)
    requires Clocked(es) && i < |es| && UpdatesAt(es, i) && Uninterrupted(es, i, |es|)
    requires e.Sensed? && es[|es| - 1].clock <= e.clock
    requires Reading(After(es), e.mode, e.clock, e.lux).updated
    ensures 0.0 < DeltaOf(After(es), dir) ==> es[i].clock + Response(e.mode, dir) <= e.clock
    ensures Response(e.mode, dir) <= LIGHT_LUX_BUFFER_RANGE
  {
    RunKeepsInvariant(es, es[0].clock);
    RunStaysBlocked(es, i, es[0].clock);
    dir := BlockedUpdateWaits(After(es), Clock(es, es[0].clock), e.mode, e.clock, e.lux, es[i].clock);
  }

  /** Two updates with no clearing between them are at least the shorter debounce time apart. */
  lemma UpdatesAreSpaced(es: seq<LuxEvent>, i: nat, j: nat)
    requires Clocked(es) && Safe(es, Brighten) && Safe(es, Darken)
    requires i < j < |es| && UpdatesAt(es, i) && UpdatesAt(es, j) && Uninterrupted(es, i, j)
    ensures es[j].clock - es[i].clock >=
            Min(Response(es[j].mode, Brighten), Response(es[j].mode, Darken))
  {
    UpdatesInPrefix(es, i, j);
    var dir := NextUpdateWaits(es[..j], i, es[j]);
    SafeKeepsDeltaPositive(es, j, dir);
  }

  lemma UpdatesInPrefix(es: seq<LuxEvent>, i: nat, n: nat)
    requires i < n <= |es| && UpdatesAt(es, i)
    ensures UpdatesAt(es[..n], i)
  {
    assert es[..n][..i] == es[..i];
  }

  lemma SafeKeepsDeltaPositive(es: seq<LuxEvent>, j: nat, dir: Direction)
    requires Clocked(es) && Safe(es, dir) && j < |es| && es[j].Sensed?
    requires Response(es[j].mode, dir) <= LIGHT_LUX_BUFFER_RANGE
    ensures 0.0 < DeltaOf(After(es[..j]), dir)
  {
    RunKeepsDeltaPositive(es[..j], dir, es[0].clock);
  }

  // ---------- when exactly updates are spaced ----------

  ghost predicate InMode(es: seq<LuxEvent>, mode: Mode) {
    forall i :: 0 <= i < |es| && es[i].Sensed? ==> es[i].mode == mode
  }

  /** Events `i` and `j` of a run in this mode are updates with no clearing between them. */
  ghost predicate TwoUpdates(es: seq<LuxEvent>, mode: Mode, i: nat, j: nat) {
    && Clocked(es) && InMode(es, mode) && i < j < |es|
    && UpdatesAt(es, i) && UpdatesAt(es, j) && Uninterrupted(es, i, j)
  }

  /** Every run in this mode keeps its updates at least the shorter debounce time apart. */
  ghost predicate AlwaysSpaced(mode: Mode) {
    forall es: seq<LuxEvent>, i: nat, j: nat :: TwoUpdates(es, mode, i, j) ==>
      es[j].clock - es[i].clock >= Min(Response(mode, Brighten), Response(mode, Darken))
  }

  /** The threshold can drop to zero although its debounce time can elapse. */
  ghost predicate Defective(mode: Mode, dir: Direction) {
    Vanishes(Table(mode, dir)) && Response(mode, dir) <= LIGHT_LUX_BUFFER_RANGE
  }

  /** Three bright readings, the last two at the moment the debounce time of `dir` has passed. */
  ghost function BrightRun(mode: Mode, dir: Direction): seq<LuxEvent> {
    var d := Response(mode, dir);
    [Sensed(0, LIGHT_MAX_LUX, mode), Sensed(d, LIGHT_MAX_LUX, mode), Sensed(d, LIGHT_MAX_LUX, mode)]
  }

  /** The state after `n` bright readings, the first at time zero and the others at time `d`. */
  ghost predicate AllBright(s: LuxState, n: nat, d: int) {
    && |s.raw.items| == |s.smooth.items| == n
    && s.raw.capacity == s.smooth.capacity == LUX_BUFFER_SIZE_DEFAULT
    && forall i :: 0 <= i < n ==>
         s.raw.items[i] == s.smooth.items[i] == Sample(if i == 0 then 0 else d, LIGHT_MAX_LUX)
  }

  lemma BrightStep(s: LuxState, n: nat, mode: Mode, dir: Direction)
    requires AllBright(s, n, Response(mode, dir)) && 1 <= n <= 2
    requires s.filtered == LIGHT_MAX_LUX && DeltaOf(s, dir) == 0.0
    requires Defective(mode, dir) && 0 < Response(mode, dir)
    ensures var o := Reading(s, mode, Response(mode, dir), LIGHT_MAX_LUX);
            && o.updated && AllBright(o.next, n + 1, Response(mode, dir))
            && o.next.filtered == LIGHT_MAX_LUX && DeltaOf(o.next, dir) == 0.0
  {
    var d := Response(mode, dir);
    var t := BeforeJudging(s, d, LIGHT_MAX_LUX);
    BrightRecorded(s.raw, n, d);
    BrightRecorded(s.smooth, n, d);
    assert RunStart(t, dir, t.smooth.items) == 0;
    assert Due(t, mode, dir, d);
    FirstRightOfIsUnique(Table(mode, dir), LIGHT_MAX_LUX, |Table(mode, dir)|);
  }

  lemma BrightRecorded(h: History, n: nat, d: int)
    requires |h.items| == n && 1 <= n <= 2 && h.capacity == LUX_BUFFER_SIZE_DEFAULT
    requires forall i :: 0 <= i < n ==> h.items[i] == Sample(if i == 0 then 0 else d, LIGHT_MAX_LUX)
    requires 0 < d <= LIGHT_LUX_BUFFER_RANGE
    ensures Recorded(h, d, LIGHT_MAX_LUX) == h.(items := h.items + [Sample(d, LIGHT_MAX_LUX)])
  {
  }

  lemma FirstBright(mode: Mode, dir: Direction)
    requires Defective(mode, dir)
    ensures var o := Reading(INITIAL, mode, 0, LIGHT_MAX_LUX);
            && o.updated && AllBright(o.next, 1, Response(mode, dir))
            && o.next.filtered == LIGHT_MAX_LUX && DeltaOf(o.next, dir) == 0.0
  {
    FirstRightOfIsUnique(Table(mode, dir), LIGHT_MAX_LUX, |Table(mode, dir)|);
  }

  lemma BrightRunIsUnspaced(mode: Mode, dir: Direction)
    requires Defective(mode, dir)
    requires 0 < Min(Response(mode, Brighten), Response(mode, Darken))
    ensures !AlwaysSpaced(mode)
  {
    BrightRunIsOne(mode, dir);
    BrightRunStarts(mode, dir);
    BrightRunGoesOn(mode, dir, 1);
    BrightRunGoesOn(mode, dir, 2);
    CloseUpdatesRefute(BrightRun(mode, dir), mode, 1, 2);
  }

  lemma CloseUpdatesRefute(es: seq<LuxEvent>, mode: Mode, i: nat, j: nat)
    requires Clocked(es) && InMode(es, mode) && i < j < |es| && Uninterrupted(es, i, j)
    requires UpdatesAt(es, i) && UpdatesAt(es, j)
    requires es[j].clock - es[i].clock < Min(Response(mode, Brighten), Response(mode, Darken))
    ensures !AlwaysSpaced(mode)
  {
    assert TwoUpdates(es, mode, i, j);
  }

  /** Before event `n` of the bright run, everything read was bright and the threshold is gone. */
  ghost predicate BrightBefore(es: seq<LuxEvent>, n: nat, dir: Direction, d: int) {
    n <= |es| && var s := After(es[..n]);
    AllBright(s, n, d) && s.filtered == LIGHT_MAX_LUX && DeltaOf(s, dir) == 0.0
  }

  lemma BrightRunStarts(mode: Mode, dir: Direction)
    requires Defective(mode, dir)
    ensures BrightBefore(BrightRun(mode, dir), 1, dir, Response(mode, dir))
  {
    var es := BrightRun(mode, dir);
    assert es[..0] == [];
    FirstBright(mode, dir);
    AfterNext(es, 0);
  }

  lemma BrightRunGoesOn(mode: Mode, dir: Direction, n: nat)
    requires Defective(mode, dir) && 0 < Response(mode, dir) && 1 <= n <= 2
    requires BrightBefore(BrightRun(mode, dir), n, dir, Response(mode, dir))
    ensures UpdatesAt(BrightRun(mode, dir), n) && BrightBefore(BrightRun(mode, dir), n + 1, dir, Response(mode, dir))
  {
    var es := BrightRun(mode, dir);
    BrightStep(After(es[..n]), n, mode, dir);
    AfterNext(es, n);
  }

  lemma BrightRunIsOne(mode: Mode, dir: Direction)
    requires 0 < Response(mode, dir)
    ensures var es := BrightRun(mode, dir);
            |es| == 3 && es[1].clock == es[2].clock && Clocked(es) && InMode(es, mode) && Uninterrupted(es, 1, 2)
  {
  }

  /**
   * A mode spaces its updates on every run iff the shorter debounce time is not positive,
   * or no direction both can elapse and has a table that ends in zero within the lux range.
   */
  lemma SpacedExactlyWhen(mode: Mode)
    ensures AlwaysSpaced(mode) <==>
            || Min(Response(mode, Brighten), Response(mode, Darken)) <= 0
            || (!Defective(mode, Brighten) && !Defective(mode, Darken))
  {
    if Min(Response(mode, Brighten), Response(mode, Darken)) > 0 {
      if Defective(mode, Brighten) {
        BrightRunIsUnspaced(mode, Brighten);
      } else if Defective(mode, Darken) {
        BrightRunIsUnspaced(mode, Darken);
      } else {
        forall es: seq<LuxEvent>, i: nat, j: nat | TwoUpdates(es, mode, i, j)
          ensures es[j].clock - es[i].clock >= Min(Response(mode, Brighten), Response(mode, Darken))
        {
          UpdatesAreSpaced(es, i, j);
        }
      }
    }
  }
}
