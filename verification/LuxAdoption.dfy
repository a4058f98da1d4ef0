/** When a lasting change of light is adopted: the counterpart of the spacing of updates. */
module LuxAdoption {
  import opened Common
  import opened LightLuxBuffers
  import opened LightLuxManagers
  import opened LuxProperties
  import LuxHistories

  ghost function Other(dir: Direction): Direction {
    match dir
    case Brighten => Darken
    case Darken => Brighten
  }

  /** A reading in state `s` is judged beyond the threshold of this direction. */
  ghost predicate JudgedBeyond(s: LuxState, dir: Direction, e: LuxEvent) {
    e.Sensed? ==> Qualifies(s, dir, Sample(e.clock, BeforeJudging(s, e.clock, e.lux).smoothed))
  }

  /** ... and at another value than the one adopted last. */
  ghost predicate JudgedAnew(s: LuxState, dir: Direction, e: LuxEvent) {
    JudgedBeyond(s, dir, e) && (e.Sensed? ==> BeforeJudging(s, e.clock, e.lux).smoothed != s.filtered)
  }

  // ---------- a debounce time within the window ----------

  /** From sample `k` on, which is stamped no later than `limit`, every sample lies beyond the threshold. */
  ghost predicate HeldAt(s: LuxState, dir: Direction, limit: int, k: nat) {
    && k < |s.smooth.items| && s.smooth.items[k].time <= limit
    && forall i :: k <= i < |s.smooth.items| ==> Qualifies(s, dir, s.smooth.items[i])
  }

  lemma RecordingStartsHeld(s: LuxState, before: int, dir: Direction, e: LuxEvent) returns (k: nat)
    requires Invariant(s, before) && before <= e.clock && e.Sensed? && JudgedBeyond(s, dir, e)
    ensures HeldAt(BeforeJudging(s, e.clock, e.lux), dir, e.clock, k)
  {
    RecordingKeepsInvariant(s, before, e.clock, e.lux);
    k := |BeforeJudging(s, e.clock, e.lux).smooth.items| - 1;
  }

  /** The lux of some sample from `k` on. */
  ghost predicate LuxFrom(items: seq<Sample>, k: nat, lux: real) {
    exists m :: k <= m < |items| && items[m].lux == lux
  }

  lemma PrunedKeepsHeld(h: History, horizon: int, limit: int, k: nat) returns (j: nat)
    requires k < |h.items| && h.items[k].time <= limit
    ensures var items := Pruned(h, horizon).items;
            && j < |items| && items[j].time <= Max(limit, horizon)
            && forall i :: j <= i < |items| ==> LuxFrom(h.items, k, items[i].lux)
  {
    var cut := LuxHistories.PruneCutsAtHorizon(h, horizon);
    var items := Pruned(h, horizon).items;
    j := if k < cut then 0 else k - cut;
    forall i | j <= i < |items| ensures LuxFrom(h.items, k, items[i].lux) {
      assert h.items[cut + i].lux == items[i].lux;
    }
  }

  /** Pruning may drop the sample that started the change, but then stamps a later one at the horizon. */
  lemma RecordedKeepsHeld(h: History, now: int, lux: real, limit: int, k: nat) returns (j: nat)
    requires WellFormed(h) && k < |h.items| && h.items[k].time <= limit
    ensures var items := Recorded(h, now, lux).items;
            && j < |items| && items[j].time <= Max(limit, now - LIGHT_LUX_BUFFER_RANGE)
            && forall i :: j <= i < |items| ==>
                 LuxFrom(h.items, k, items[i].lux) || (i == |items| - 1 && items[i].lux == lux)
  {
    j := PrunedKeepsHeld(h, now - LIGHT_LUX_BUFFER_RANGE, limit, k);
  }

  lemma RecordingKeepsHeld(s: LuxState, before: int, dir: Direction, e: LuxEvent, limit: int, k: nat)
    returns (j: nat)
    requires Invariant(s, before) && before <= e.clock && e.Sensed? && JudgedBeyond(s, dir, e)
    requires HeldAt(s, dir, limit, k)
    ensures HeldAt(BeforeJudging(s, e.clock, e.lux), dir, Max(limit, e.clock - LIGHT_LUX_BUFFER_RANGE), j)
  {
    var t := BeforeJudging(s, e.clock, e.lux);
    j := RecordedKeepsHeld(s.smooth, e.clock, t.smoothed, limit, k);
    forall i | j <= i < |t.smooth.items| ensures Qualifies(t, dir, t.smooth.items[i]) {
      if m :| k <= m < |s.smooth.items| && s.smooth.items[m].lux == t.smooth.items[i].lux {
        assert Qualifies(s, dir, s.smooth.items[m]);
      }
    }
  }

  /** A reading that is no update leaves the change held, from a sample on that may have been re-stamped. */
  lemma ReadingKeepsHeld(s: LuxState, before: int, dir: Direction, e: LuxEvent, limit: int, k: nat)
    returns (j: nat)
    requires Invariant(s, before) && before <= e.clock && JudgedBeyond(s, dir, e) && !e.DataCleared?
    requires e.Sensed? ==> !Reading(s, e.mode, e.clock, e.lux).updated
    requires HeldAt(s, dir, limit, k)
    ensures HeldAt(Apply(s, e), dir, Max(limit, e.clock - LIGHT_LUX_BUFFER_RANGE), j)
  {
    j := k;
    if e.Sensed? {
      ReadingIsJudged(s, before, e.mode, e.clock, e.lux);
      j := RecordingKeepsHeld(s, before, dir, e, limit, k);
    }
  }

  lemma ReadingStartsHeld(s: LuxState, before: int, dir: Direction, e: LuxEvent) returns (k: nat)
    requires Invariant(s, before) && before <= e.clock && e.Sensed? && JudgedBeyond(s, dir, e)
    requires !Reading(s, e.mode, e.clock, e.lux).updated
    ensures HeldAt(Apply(s, e), dir, e.clock, k)
  {
    ReadingIsJudged(s, before, e.mode, e.clock, e.lux);
    k := RecordingStartsHeld(s, before, dir, e);
  }

  /** Event `m` confirms the change, but is no update. */
  ghost predicate Waits(es: seq<LuxEvent>, dir: Direction, m: nat) {
    m < |es| ==> JudgedBeyond(After(es[..m]), dir, es[m]) && !UpdatesAt(es, m)
  }

  lemma PrefixKeepsInvariant(es: seq<LuxEvent>, n: nat)
    requires Clocked(es) && n < |es|
    ensures Invariant(After(es[..n]), Clock(es[..n], es[n].clock)) && Clock(es[..n], es[n].clock) <= es[n].clock
  {
    RunKeepsInvariant(es[..n], es[0].clock);
    if n == 0 {
      assert es[..n] == [];
    }
  }

  lemma ChangeStarts(es: seq<LuxEvent>, dir: Direction, n: nat) returns (k: nat)
    requires Clocked(es) && n < |es| && es[n].Sensed? && Waits(es, dir, n)
    ensures HeldAt(After(es[..n + 1]), dir, es[n].clock, k)
  {
    PrefixKeepsInvariant(es, n);
    k := ReadingStartsHeld(After(es[..n]), Clock(es[..n], es[n].clock), dir, es[n]);
    AfterNext(es, n);
  }

  lemma ChangeLasts(es: seq<LuxEvent>, dir: Direction, n: nat, limit: int, k: nat) returns (j: nat)
    requires Clocked(es) && n < |es| && !es[n].DataCleared? && Waits(es, dir, n)
    requires HeldAt(After(es[..n]), dir, limit, k)
    ensures HeldAt(After(es[..n + 1]), dir, Max(limit, es[n].clock - LIGHT_LUX_BUFFER_RANGE), j)
  {
    PrefixKeepsInvariant(es, n);
    j := ReadingKeepsHeld(After(es[..n]), Clock(es[..n], es[n].clock), dir, es[n], limit, k);
    AfterNext(es, n);
  }

  /** Without an update, the readings from `i` on stay in the buffer as one change. */
  lemma {:induction false} ChangeStaysHeld(es: seq<LuxEvent>, dir: Direction, i: nat, n: nat) returns (k: nat)
    requires Clocked(es) && i <= n < |es| && es[i].Sensed? && Uninterrupted(es, i, n + 1)
    requires forall m :: i <= m <= n ==> Waits(es, dir, m)
    ensures HeldAt(After(es[..n + 1]), dir, Max(es[i].clock, es[n].clock - LIGHT_LUX_BUFFER_RANGE), k)
    decreases n
  {
    if i == n {
      k := ChangeStarts(es, dir, n);
    } else {
      k := ChangeStaysHeld(es, dir, i, n - 1);
      k := ChangeLasts(es, dir, n, Max(es[i].clock, es[n - 1].clock - LIGHT_LUX_BUFFER_RANGE), k);
    }
  }

  /** A change held for its debounce time is adopted. */
  lemma HeldReadingUpdates(s: LuxState, before: int, dir: Direction, e: LuxEvent, k: nat)
    requires Invariant(s, before) && before <= e.clock && e.Sensed?
    requires HeldAt(BeforeJudging(s, e.clock, e.lux), dir, e.clock - Response(e.mode, dir), k)
    ensures Reading(s, e.mode, e.clock, e.lux).updated
  {
    var t := BeforeJudging(s, e.clock, e.lux);
    UpdateMeans(s, before, e.mode, e.clock, e.lux);
    assert HeldSince(t, e.mode, dir, e.clock, k);
    assert HeldLongEnough(t, e.mode, dir, e.clock);
  }

  lemma HeldAtEndUpdates(es: seq<LuxEvent>, dir: Direction, since: int, j: nat, k: nat)
    requires Clocked(es) && j < |es| && es[j].Sensed?
    requires Response(es[j].mode, dir) <= LIGHT_LUX_BUFFER_RANGE && since + Response(es[j].mode, dir) <= es[j].clock
    requires HeldAt(After(es[..j + 1]), dir, Max(since, es[j].clock - LIGHT_LUX_BUFFER_RANGE), k)
    ensures UpdatesAt(es, j)
  {
    PrefixKeepsInvariant(es, j);
    AfterNext(es, j);
    LastReadingIsHeld(After(es[..j]), Clock(es[..j], es[j].clock), dir, es[j], since, k);
  }

  /** A change that every reading from `i` to `j` confirms is adopted at `j` if its time is over and not before. */
  lemma HeldChangeIsAdoptedAt(es: seq<LuxEvent>, dir: Direction, i: nat, j: nat)
    requires Clocked(es) && i <= j < |es| && es[i].Sensed? && es[j].Sensed? && Uninterrupted(es, i, j)
    requires forall m :: i <= m < j ==> Waits(es, dir, m)
    requires JudgedBeyond(After(es[..j]), dir, es[j])
    requires Response(es[j].mode, dir) <= LIGHT_LUX_BUFFER_RANGE
    requires es[i].clock + Response(es[j].mode, dir) <= es[j].clock
    ensures UpdatesAt(es, j)
  {
    if !UpdatesAt(es, j) {
      assert Waits(es, dir, j);
      var k := ChangeStaysHeld(es, dir, i, j);
      HeldAtEndUpdates(es, dir, es[i].clock, j, k);
    }
  }

  /**
   * A change that every reading from `i` to `j` confirms, for at least the debounce time of its direction,
   * is adopted by one of them, through pruning, re-stamped heads and lost samples alike.
   */
  lemma HeldChangeIsAdopted(es: seq<LuxEvent>, dir: Direction, i: nat, j: nat)
    requires Clocked(es) && i <= j < |es| && es[i].Sensed? && es[j].Sensed? && Uninterrupted(es, i, j)
    requires forall m :: i <= m <= j ==> JudgedBeyond(After(es[..m]), dir, es[m])
    requires Response(es[j].mode, dir) <= LIGHT_LUX_BUFFER_RANGE
    requires es[i].clock + Response(es[j].mode, dir) <= es[j].clock
    ensures UpdatesWithin(es, i, j)
  {
    if !UpdatesWithin(es, i, j) {
      forall m | i <= m < j ensures Waits(es, dir, m) {
        assert !UpdatesAt(es, m);
      }
      HeldChangeIsAdoptedAt(es, dir, i, j);
      assert UpdatesWithin(es, i, j);
    }
  }

  lemma LastReadingIsHeld(s: LuxState, before: int, dir: Direction, e: LuxEvent, since: int, k: nat)
    requires Invariant(s, before) && before <= e.clock && e.Sensed?
    requires Response(e.mode, dir) <= LIGHT_LUX_BUFFER_RANGE && since + Response(e.mode, dir) <= e.clock
    requires HeldAt(Apply(s, e), dir, Max(since, e.clock - LIGHT_LUX_BUFFER_RANGE), k)
    ensures Reading(s, e.mode, e.clock, e.lux).updated
  {
    if !Reading(s, e.mode, e.clock, e.lux).updated {
      ReadingIsJudged(s, before, e.mode, e.clock, e.lux);
      HeldReadingUpdates(s, before, dir, e, k);
    }
  }

  ghost predicate UpdatesWithin(es: seq<LuxEvent>, i: nat, j: nat) {
    exists m :: i <= m <= j && UpdatesAt(es, m)
  }

  // ---------- a debounce time beyond the window ----------

  /** The direction's debounce time outlasts the window, and the other direction has to be held too. */
  ghost predicate Unreachable(mode: Mode, dir: Direction) {
    LIGHT_LUX_BUFFER_RANGE < Response(mode, dir) && 0 < Response(mode, Other(dir))
  }

  lemma LateChangeIsNotAdopted(s: LuxState, before: int, dir: Direction, e: LuxEvent)
    requires Invariant(s, before) && before <= e.clock && s.raw.items != [] && e.Sensed?
    requires Unreachable(e.mode, dir) && JudgedAnew(s, dir, e)
    requires 0.0 <= DeltaOf(s, dir) && 0.0 <= DeltaOf(s, Other(dir))
    ensures !Reading(s, e.mode, e.clock, e.lux).updated
  {
    var t := BeforeJudging(s, e.clock, e.lux);
    RecordingKeepsInvariant(s, before, e.clock, e.lux);
    ReadingIsJudged(s, before, e.mode, e.clock, e.lux);
    LongDebounceNeverDue(t, e.mode, dir, e.clock);
    assert !Qualifies(t, Other(dir), t.smooth.items[|t.smooth.items| - 1]);
    assert !Due(t, e.mode, Other(dir), e.clock);
  }

  lemma {:induction false} RunKeepsDeltasNonNegative(es: seq<LuxEvent>, dir: Direction)
    ensures 0.0 <= DeltaOf(After(es), dir)
    decreases |es|
  {
    if es != [] {
      RunKeepsDeltasNonNegative(es[..|es| - 1], dir);
    }
  }

  /** On no run does a reading adopt a change whose debounce time outlasts the window. */
  lemma LongDebounceNeverAdopts(es: seq<LuxEvent>, dir: Direction, n: nat)
    requires Clocked(es) && n < |es| && es[n].Sensed? && SensedSinceCleared(es[..n])
    requires Unreachable(es[n].mode, dir) && JudgedAnew(After(es[..n]), dir, es[n])
    ensures !UpdatesAt(es, n)
  {
    RunKeepsInvariant(es[..n], es[0].clock);
    PrefixKeepsInvariant(es, n);
    RunKeepsDeltasNonNegative(es[..n], dir);
    RunKeepsDeltasNonNegative(es[..n], Other(dir));
    LateChangeIsNotAdopted(After(es[..n]), Clock(es[..n], es[n].clock), dir, es[n]);
  }

  // ---------- when exactly a lasting change is adopted ----------

  /** The readings from `i` to `j` of a run in this mode all ask for the same change, for its debounce time. */
  ghost predicate LastingChange(es: seq<LuxEvent>, mode: Mode, dir: Direction, i: nat, j: nat) {
    && Clocked(es) && InMode(es, mode) && i <= j < |es| && es[i].Sensed? && es[j].Sensed?
    && Uninterrupted(es, i, j) && es[i].clock + Response(mode, dir) <= es[j].clock
    && forall m :: i <= m <= j ==> JudgedAnew(After(es[..m]), dir, es[m])
  }

  /** Every lasting change in this mode is adopted by the time its debounce time is over. */
  ghost predicate AlwaysAdopted(mode: Mode, dir: Direction) {
    forall es: seq<LuxEvent>, i: nat, j: nat :: LastingChange(es, mode, dir, i, j) ==> UpdatesWithin(es, i, j)
  }

  ghost predicate IsLux(lux: real) {
    0.0 <= lux <= LIGHT_MAX_LUX
  }

  /** A threshold the mode may have kept from earlier: the initial one, or one its table asks for at some lux. */
  ghost predicate Known(mode: Mode, dir: Direction, delta: real) {
    || delta == DeltaOf(INITIAL, dir)
    || exists lux :: IsLux(lux) && 0.0 <= delta && Delta(Table(mode, dir), lux) == delta
  }

  /** A threshold in force once `lux` is adopted: the table's, or an earlier one where the table asks for none. */
  ghost predicate InForce(mode: Mode, dir: Direction, lux: real, delta: real) {
    var d := Delta(Table(mode, dir), lux);
    if 0.0 <= d then delta == d else Known(mode, dir, delta)
  }

  ghost predicate Beyond(dir: Direction, from: real, to: real, delta: real) {
    match dir
    case Brighten => delta <= to - from
    case Darken => delta <= from - to
  }

  /** Within the sensor's range, some lux lies beyond a threshold in force at another one. */
  ghost predicate CanExceed(mode: Mode, dir: Direction) {
    exists from, to, delta ::
      IsLux(from) && IsLux(to) && from != to && InForce(mode, dir, from, delta) && Beyond(dir, from, to, delta)
  }

  lemma ReadingKeepsThreshold(s: LuxState, before: int, mode: Mode, now: int, lux: real, dir: Direction)
    requires Invariant(s, before) && before <= now && Known(mode, dir, DeltaOf(s, dir))
    requires s.raw.items != [] ==> InForce(mode, dir, s.filtered, DeltaOf(s, dir))
    ensures var t := Reading(s, mode, now, lux).next;
            Known(mode, dir, DeltaOf(t, dir)) && InForce(mode, dir, t.filtered, DeltaOf(t, dir))
  {
    var o, t := Reading(s, mode, now, lux), BeforeJudging(s, now, lux);
    ReadingIsJudged(s, before, mode, now, lux);
    RecordingKeepsInvariant(s, before, now, lux);
    if o.updated {
      assert IsLux(t.smoothed);
      assert DeltaOf(o.next, dir) == DeltaOf(s, dir) || DeltaOf(o.next, dir) == Delta(Table(mode, dir), t.smoothed);
    }
  }

  lemma {:induction false} RunKeepsThreshold(es: seq<LuxEvent>, mode: Mode, dir: Direction)
    requires Clocked(es) && InMode(es, mode)
    ensures var s := After(es);
            && Known(mode, dir, DeltaOf(s, dir))
            && (s.raw.items != [] ==> InForce(mode, dir, s.filtered, DeltaOf(s, dir)))
    decreases |es|
  {
    if es != [] {
      var front, e := es[..|es| - 1], es[|es| - 1];
      RunKeepsThreshold(front, mode, dir);
      RunKeepsInvariant(front, es[0].clock);
      if e.Sensed? {
        ReadingKeepsThreshold(After(front), Clock(front, es[0].clock), mode, e.clock, e.lux, dir);
      }
    }
  }

  /** A reading that is judged beyond the threshold in force shows that something can exceed it. */
  lemma JudgedBeyondExceeds(s: LuxState, before: int, mode: Mode, dir: Direction, e: LuxEvent)
    requires Invariant(s, before) && before <= e.clock && e.Sensed? && JudgedAnew(s, dir, e)
    requires InForce(mode, dir, s.filtered, DeltaOf(s, dir))
    ensures CanExceed(mode, dir)
  {
    RecordingKeepsInvariant(s, before, e.clock, e.lux);
    var to := BeforeJudging(s, e.clock, e.lux).smoothed;
    assert IsLux(s.filtered) && IsLux(to);
    assert Beyond(dir, s.filtered, to, DeltaOf(s, dir));
  }

  lemma FirstReadingUpdates(s: LuxState, before: int, e: LuxEvent)
    requires Invariant(s, before) && before <= e.clock && e.Sensed? && s.raw.items == []
    ensures Reading(s, e.mode, e.clock, e.lux).updated
  {
    UpdateMeans(s, before, e.mode, e.clock, e.lux);
  }

  /** If nothing can exceed the threshold, only a first reading is judged beyond it, and that one is adopted. */
  lemma ExceedingNeedsRoom(es: seq<LuxEvent>, mode: Mode, dir: Direction, i: nat, j: nat)
    requires LastingChange(es, mode, dir, i, j) && !CanExceed(mode, dir)
    ensures UpdatesAt(es, i)
  {
    PrefixKeepsInvariant(es, i);
    RunKeepsThreshold(es[..i], mode, dir);
    assert JudgedAnew(After(es[..i]), dir, es[i]);
    if After(es[..i]).raw.items != [] {
      JudgedBeyondExceeds(After(es[..i]), Clock(es[..i], es[i].clock), mode, dir, es[i]);
    }
    FirstReadingUpdates(After(es[..i]), Clock(es[..i], es[i].clock), es[i]);
  }

  /** A direction without debounce time makes every reading an update. */
  lemma NoDebounceAlwaysUpdates(es: seq<LuxEvent>, dir: Direction, i: nat)
    requires Clocked(es) && i < |es| && es[i].Sensed? && Response(es[i].mode, dir) <= 0
    ensures UpdatesAt(es, i)
  {
    RunKeepsInvariant(es[..i], es[0].clock);
    UpdateMeans(After(es[..i]), Clock(es[..i], es[0].clock), es[i].mode, es[i].clock, es[i].lux);
  }

  // ---------- the run that is never adopted ----------

  lemma FirstReading(s: LuxState, before: int, mode: Mode, now: int, lux: real, dir: Direction)
    requires Invariant(s, before) && before <= now && s.raw.items == [] && IsLux(lux)
    ensures var o, d := Reading(s, mode, now, lux), Delta(Table(mode, dir), lux);
            && o.updated && o.next.filtered == lux && |o.next.raw.items| == 1
            && DeltaOf(o.next, dir) == if 0.0 <= d then d else DeltaOf(s, dir)
  {
    ReadingIsJudged(s, before, mode, now, lux);
    RecordingKeepsInvariant(s, before, now, lux);
    UpdateMeans(s, before, mode, now, lux);
  }

  /** Fewer than five readings are not smoothed. */
  lemma FewAreNotSmoothed(s: LuxState, before: int, now: int, lux: real)
    requires Invariant(s, before) && |s.raw.items| <= 3 && IsLux(lux)
    ensures var t := BeforeJudging(s, now, lux);
            t.smoothed == lux && |t.raw.items| <= |s.raw.items| + 1
  {
    var k, lost := RecordedMeans(s.raw, now, lux);
    KeptEndsNewest(s.raw, now, lux);
  }

  /** After `before`, the light settles at `from` and then jumps to `to` for the debounce time. */
  ghost function JumpRun(prefix: seq<LuxEvent>, mode: Mode, dir: Direction, from: real, to: real): seq<LuxEvent> {
    prefix + [Sensed(0, from, mode), Sensed(0, to, mode), Sensed(Response(mode, dir), to, mode)]
  }

  ghost predicate AtZero(prefix: seq<LuxEvent>, mode: Mode) {
    InMode(prefix, mode) && forall i :: 0 <= i < |prefix| ==> prefix[i].clock == 0
  }

  lemma JumpRunIsClocked(prefix: seq<LuxEvent>, mode: Mode, dir: Direction, from: real, to: real)
    requires AtZero(prefix, mode) && 0 <= Response(mode, dir)
    ensures var es := JumpRun(prefix, mode, dir, from, to);
            Clocked(es) && InMode(es, mode) && es[..|prefix|] == prefix
  {
  }

  /** After the first of the three readings: `from` is adopted, with its threshold. */
  lemma JumpSettles(es: seq<LuxEvent>, p: nat, mode: Mode, from: real, dir: Direction)
    requires Clocked(es) && p < |es| && es[p] == Sensed(0, from, mode) && IsLux(from)
    requires After(es[..p]).raw.items == []
    ensures var s, d := After(es[..p + 1]), Delta(Table(mode, dir), from);
            && s.filtered == from && |s.raw.items| == 1
            && DeltaOf(s, dir) == if 0.0 <= d then d else DeltaOf(After(es[..p]), dir)
  {
    PrefixKeepsInvariant(es, p);
    FirstReading(After(es[..p]), Clock(es[..p], 0), mode, 0, from, dir);
    AfterNext(es, p);
  }

  /** Either of the other two: judged beyond the threshold, not adopted, and nothing moves. */
  lemma JumpWaits(es: seq<LuxEvent>, n: nat, dir: Direction, to: real)
    requires Clocked(es) && n < |es| && es[n].Sensed? && es[n].lux == to && Unreachable(es[n].mode, dir)
    requires var s := After(es[..n]);
             && 1 <= |s.raw.items| <= 3 && IsLux(to) && s.filtered != to
             && Beyond(dir, s.filtered, to, DeltaOf(s, dir))
    ensures JudgedAnew(After(es[..n]), dir, es[n]) && !UpdatesAt(es, n)
    ensures var s, t := After(es[..n]), After(es[..n + 1]);
            t.filtered == s.filtered && DeltaOf(t, dir) == DeltaOf(s, dir) && 1 <= |t.raw.items| <= |s.raw.items| + 1
  {
    var s, before, e := After(es[..n]), Clock(es[..n], es[n].clock), es[n];
    PrefixKeepsInvariant(es, n);
    FewAreNotSmoothed(s, before, e.clock, to);
    RunKeepsDeltasNonNegative(es[..n], dir);
    RunKeepsDeltasNonNegative(es[..n], Other(dir));
    LateChangeIsNotAdopted(s, before, dir, e);
    ReadingIsJudged(s, before, e.mode, e.clock, to);
    RecordingKeepsInvariant(s, before, e.clock, to);
    AfterNext(es, n);
  }

  /** Two readings that confirm a change for its debounce time, neither of them an update. */
  lemma PairRefutes(es: seq<LuxEvent>, mode: Mode, dir: Direction, i: nat)
    requires Clocked(es) && InMode(es, mode) && i + 1 < |es| && es[i].Sensed? && es[i + 1].Sensed?
    requires es[i].clock + Response(mode, dir) <= es[i + 1].clock
    requires Waits(es, dir, i) && JudgedAnew(After(es[..i]), dir, es[i])
    requires Waits(es, dir, i + 1) && JudgedAnew(After(es[..i + 1]), dir, es[i + 1])
    ensures !AlwaysAdopted(mode, dir)
  {
    forall m | i <= m <= i + 1 ensures JudgedAnew(After(es[..m]), dir, es[m]) && !UpdatesAt(es, m) {
      assert m == i || m == i + 1;
    }
    assert LastingChange(es, mode, dir, i, i + 1);
    assert !UpdatesWithin(es, i, i + 1);
  }

  lemma JumpIsNotAdopted(es: seq<LuxEvent>, p: nat, mode: Mode, dir: Direction, from: real, to: real)
    requires Clocked(es) && InMode(es, mode) && |es| == p + 3 && Unreachable(mode, dir)
    requires es[p] == Sensed(0, from, mode) && es[p + 1] == Sensed(0, to, mode)
    requires es[p + 2] == Sensed(Response(mode, dir), to, mode)
    requires IsLux(from) && IsLux(to) && from != to && After(es[..p]).raw.items == []
    requires var d := Delta(Table(mode, dir), from);
             Beyond(dir, from, to, if 0.0 <= d then d else DeltaOf(After(es[..p]), dir))
    ensures !AlwaysAdopted(mode, dir)
  {
    JumpSettles(es, p, mode, from, dir);
    JumpWaits(es, p + 1, dir, to);
    JumpWaits(es, p + 2, dir, to);
    PairRefutes(es, mode, dir, p + 1);
  }

  lemma JumpIsNeverAdopted(prefix: seq<LuxEvent>, mode: Mode, dir: Direction, from: real, to: real)
    requires AtZero(prefix, mode) && After(prefix).raw.items == [] && Unreachable(mode, dir)
    requires IsLux(from) && IsLux(to) && from != to
    requires var d := Delta(Table(mode, dir), from);
             Beyond(dir, from, to, if 0.0 <= d then d else DeltaOf(After(prefix), dir))
    ensures !AlwaysAdopted(mode, dir)
  {
    JumpRunIsClocked(prefix, mode, dir, from, to);
    JumpIsNotAdopted(JumpRun(prefix, mode, dir, from, to), |prefix|, mode, dir, from, to);
  }

  /** Adopting a lux and clearing the sensor's data leaves the threshold of that lux. */
  lemma ClearingKeepsThreshold(prefix: seq<LuxEvent>, mode: Mode, dir: Direction, lux: real)
    requires prefix == [Sensed(0, lux, mode), DataCleared(0)] && IsLux(lux)
    requires 0.0 <= Delta(Table(mode, dir), lux)
    ensures After(prefix).raw.items == [] && DeltaOf(After(prefix), dir) == Delta(Table(mode, dir), lux)
  {
    assert prefix[..0] == [] && prefix[..2] == prefix;
    JumpSettles(prefix, 0, mode, lux, dir);
    AfterNext(prefix, 1);
  }

  lemma KeptThresholdIsReachable(mode: Mode, dir: Direction, lux: real, from: real, to: real)
    requires Unreachable(mode, dir) && IsLux(lux) && 0.0 <= Delta(Table(mode, dir), lux)
    requires IsLux(from) && IsLux(to) && from != to && Delta(Table(mode, dir), from) < 0.0
    requires Beyond(dir, from, to, Delta(Table(mode, dir), lux))
    ensures !AlwaysAdopted(mode, dir)
  {
    var prefix := [Sensed(0, lux, mode), DataCleared(0)];
    ClearingKeepsThreshold(prefix, mode, dir, lux);
    JumpIsNeverAdopted(prefix, mode, dir, from, to);
  }

  /** Whichever threshold is in force at `from`, some prefix brings it about. */
  lemma ExceedingIsReachable(mode: Mode, dir: Direction)
    requires Unreachable(mode, dir) && CanExceed(mode, dir)
    ensures !AlwaysAdopted(mode, dir)
  {
    var from, to, delta :|
      IsLux(from) && IsLux(to) && from != to && InForce(mode, dir, from, delta) && Beyond(dir, from, to, delta);
    var d := Delta(Table(mode, dir), from);
    if 0.0 <= d || delta == DeltaOf(INITIAL, dir) {
      JumpIsNeverAdopted([], mode, dir, from, to);
    } else {
      var lux :| IsLux(lux) && 0.0 <= delta && Delta(Table(mode, dir), lux) == delta;
      KeptThresholdIsReachable(mode, dir, lux, from, to);
    }
  }

  /**
   * Every lasting change in a direction is adopted iff its debounce time fits the window, or the other
   * direction has no debounce time, or no lux of the sensor's range exceeds the direction's threshold.
   */
  lemma AdoptedExactlyWhen(mode: Mode, dir: Direction)
    ensures AlwaysAdopted(mode, dir) <==>
            || Response(mode, dir) <= LIGHT_LUX_BUFFER_RANGE
            || Response(mode, Other(dir)) <= 0
            || !CanExceed(mode, dir)
  {
    if Unreachable(mode, dir) && CanExceed(mode, dir) {
      ExceedingIsReachable(mode, dir);
    } else {
      forall es: seq<LuxEvent>, i: nat, j: nat | LastingChange(es, mode, dir, i, j) ensures UpdatesWithin(es, i, j) {
        if Response(mode, dir) <= LIGHT_LUX_BUFFER_RANGE {
          HeldChangeIsAdopted(es, dir, i, j);
        } else if Response(mode, Other(dir)) <= 0 {
          NoDebounceAlwaysUpdates(es, Other(dir), i);
        } else {
          ExceedingNeedsRoom(es, mode, dir, i, j);
        }
      }
    }
  }
}
