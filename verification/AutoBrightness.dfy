/** Automatic brightness inside the running service: spaced updates, however requests interleave. */
module AutoBrightness {
  import opened Common
  import opened LightLuxManagers
  import opened CalculationManagers
  import opened BrightnessServices
  import opened ServiceInvariants
  import LuxProperties
  import ServiceRuns

  /** The light readings among the events come with a clock that never runs backwards. */
  ghost predicate Clocked(es: seq<Event>) {
    forall i, j :: 0 <= i <= j < |es| && es[i].request.Lux? && es[j].request.Lux? ==>
      es[i].request.now <= es[j].request.now
  }

  ghost predicate ClocksFromZero(es: seq<Event>) {
    forall i :: 0 <= i < |es| && es[i].request.Lux? ==> 0 <= es[i].request.now
  }

  /** Event `i` is a reading that the service lets change the brightness. */
  ghost predicate AutoUpdatesAt(c: Config, s: ServiceState, es: seq<Event>, i: nat) {
    && i < |es| && es[i].request.Lux?
    && var z := After(c, s, es[..i]);
    && CanSetBrightness(z)
    && Reading(z.lux, c.mode, es[i].request.now, es[i].request.lux).updated
  }

  /** No event from `i` up to `j` clears the light sensor's data. */
  ghost predicate Uncleared(c: Config, s: ServiceState, es: seq<Event>, i: nat, j: nat) {
    forall m :: i <= m < j && m < |es| && !es[m].request.Lux? ==>
      After(c, s, es[..m + 1]).lux == After(c, s, es[..m]).lux
  }

  // ---------- what the light sensor pipeline sees of one step ----------

  /** A reading either reaches the pipeline as it is, or is ignored altogether. */
  lemma LuxReachesPipeline(c: Config, s: ServiceState, now: int, lux: real, ok: bool)
    ensures LuxProcessed(c, s, now, lux, ok).lux ==
            if CanSetBrightness(s) then Reading(s.lux, c.mode, now, lux).next else s.lux
  {
    if CanSetBrightness(s) {
      var o := Reading(s.lux, c.mode, now, lux);
      LevelKeepsLux(c, s.(lux := o.next), lux, o.next.isFirstLux, ok);
    }
  }

  lemma LevelKeepsLux(c: Config, s: ServiceState, lux: real, first: bool, ok: bool)
    ensures LevelFollowed(c, s, lux, first, ok).lux == s.lux
  {
    var level := AutoLevel(c, s, lux);
    var t := s.(offset := Evaluated(s.offset, c.weights, c.points, lux));
    UpdatedTouches(c, LevelAdopted(t, level, first), level, LuxDuration(t, level, first), true, ok);
  }

  lemma OverrideKeepsLux(c: Config, s: ServiceState, value: uint32, duration: uint32, ok: bool)
    ensures Overrode(c, s, value, duration, ok).next.lux == s.lux
  {
    UpdatedTouches(c, s.(overridden := true, overriddenValue := value, before := s.setting), value, duration, false,
                   ok);
  }

  lemma DisplayKeepsLux(c: Config, s: ServiceState, state: DisplayState, ok: bool)
    ensures ServiceRuns.LuxKeptOrCleared(s, DisplaySet(c, s, state, ok))
  {
    if state == Dim {
      SleepKeepsSensor(c, SensorsFollow(c, s.(display := Dim)), ok);
    } else {
      ServiceRuns.DisplayKeepsBefore(c, s, state, ok);
    }
  }

  ghost predicate IsTimedOrLimit(r: Request) {
    r.Boost? || r.CancelBoost? || r.BoostEnd? || r.SetMax? || r.DimTick?
  }

  lemma TimedKeepsLux(c: Config, s: ServiceState, e: Event)
    requires IsTimedOrLimit(e.request)
    ensures Step(c, s, e).lux == s.lux
  {
    if e.request.SetMax? {
      ServiceRuns.MaxKeepsBefore(c, s, e.request.factorOfFull, e.ok);
    } else if e.request.DimTick? {
      TickTouches(s, e.request.task, e.ok);
    } else {
      ServiceRuns.BoostKeepsBefore(c, s, e);
    }
  }

  lemma OthersKeepLux(c: Config, s: ServiceState, e: Event)
    requires !e.request.Lux?
    ensures ServiceRuns.LuxKeptOrCleared(s, Step(c, s, e))
  {
    var r := e.request;
    if IsTimedOrLimit(r) {
      TimedKeepsLux(c, s, e);
    } else if r.Set? || r.Restore? || r.DiscountBy? {
      ServiceRuns.LevelRequestKeepsBefore(c, s, e);
    } else if r.SetDisplay? {
      DisplayKeepsLux(c, s, r.state, e.ok);
    } else if r.Override? {
      OverrideKeepsLux(c, s, r.value, r.duration, e.ok);
    }
  }

  // ---------- the run as the pipeline sees it ----------

  ghost function LatestClock(es: seq<Event>): int {
    if es == [] then 0
    else if es[|es| - 1].request.Lux? then es[|es| - 1].request.now
    else LatestClock(es[..|es| - 1])
  }

  /** One step from `s` to `t`, seen from the pipeline. */
  ghost function Seen(c: Config, s: ServiceState, t: ServiceState, e: Event, clock: int): LuxProperties.LuxEvent {
    if e.request.Lux? && CanSetBrightness(s) then LuxProperties.Sensed(e.request.now, e.request.lux, c.mode)
    else if e.request.Lux? then LuxProperties.Idle(e.request.now)
    else if t.lux == s.lux then LuxProperties.Idle(clock)
    else LuxProperties.DataCleared(clock)
  }

  lemma SeenIsApplied(c: Config, s: ServiceState, e: Event, clock: int)
    ensures LuxProperties.Apply(s.lux, Seen(c, s, Step(c, s, e), e, clock)) == Step(c, s, e).lux
  {
    if e.request.Lux? {
      LuxReachesPipeline(c, s, e.request.now, e.request.lux, e.ok);
    } else {
      OthersKeepLux(c, s, e);
    }
  }

  ghost function SeenAt(c: Config, s: ServiceState, es: seq<Event>, m: nat): LuxProperties.LuxEvent
    requires m < |es|
  {
    Seen(c, After(c, s, es[..m]), After(c, s, es[..m + 1]), es[m], LatestClock(es[..m]))
  }

  ghost function Projected(c: Config, s: ServiceState, es: seq<Event>): (r: seq<LuxProperties.LuxEvent>)
    ensures |r| == |es|
  {
    seq(|es|, m requires 0 <= m < |es| => SeenAt(c, s, es, m))
  }

  lemma ProjectedPrefix(c: Config, s: ServiceState, es: seq<Event>, m: nat)
    requires m <= |es|
    ensures Projected(c, s, es)[..m] == Projected(c, s, es[..m])
  {
    forall i | 0 <= i < m ensures SeenAt(c, s, es, i) == SeenAt(c, s, es[..m], i) {
      assert es[..m][..i] == es[..i] && es[..m][..i + 1] == es[..i + 1];
    }
  }

  lemma LastSeenIsApplied(c: Config, s: ServiceState, es: seq<Event>)
    requires es != []
    ensures LuxProperties.Apply(After(c, s, es[..|es| - 1]).lux, SeenAt(c, s, es, |es| - 1)) == After(c, s, es).lux
  {
    var n := |es| - 1;
    assert es[..n + 1] == es;
    SeenIsApplied(c, After(c, s, es[..n]), es[n], LatestClock(es[..n]));
    AfterNext(c, s, es, n);
  }

  lemma ProjectedLast(c: Config, s: ServiceState, es: seq<Event>)
    requires es != []
    ensures LuxProperties.After(Projected(c, s, es)) ==
            LuxProperties.Apply(LuxProperties.After(Projected(c, s, es[..|es| - 1])), SeenAt(c, s, es, |es| - 1))
  {
    ProjectedPrefix(c, s, es, |es| - 1);
  }

  /** The pipeline inside the service behaves as the pipeline on its own does on the projected run. */
  lemma {:induction false} ProjectionRefines(c: Config, s: ServiceState, es: seq<Event>)
    requires s.lux == INITIAL
    ensures LuxProperties.After(Projected(c, s, es)) == After(c, s, es).lux
    decreases |es|
  {
    if es != [] {
      ProjectionRefines(c, s, es[..|es| - 1]);
      LastSeenIsApplied(c, s, es);
      ProjectedLast(c, s, es);
    }
  }

  lemma {:induction false} LatestClockIsLatest(es: seq<Event>)
    requires Clocked(es) && ClocksFromZero(es)
    ensures 0 <= LatestClock(es)
    ensures forall i :: 0 <= i < |es| && es[i].request.Lux? ==> es[i].request.now <= LatestClock(es)
    ensures forall m :: 0 <= m <= |es| ==> LatestClock(es[..m]) <= LatestClock(es)
    ensures LatestClock(es) == 0 ||
            exists i :: 0 <= i < |es| && es[i].request.Lux? && es[i].request.now == LatestClock(es)
    decreases |es|
  {
    if es != [] {
      var front := es[..|es| - 1];
      LatestClockIsLatest(front);
      forall m | 0 <= m <= |es| ensures LatestClock(es[..m]) <= LatestClock(es) {
        if m < |es| {
          assert front[..m] == es[..m];
        } else {
          assert es[..m] == es;
        }
      }
    }
  }

  lemma ProjectedIsClocked(c: Config, s: ServiceState, es: seq<Event>)
    requires Clocked(es) && ClocksFromZero(es)
    ensures LuxProperties.Clocked(Projected(c, s, es))
  {
    var r := Projected(c, s, es);
    forall i, j | 0 <= i <= j < |r| ensures r[i].clock <= r[j].clock {
      ClockOf(c, s, es, i);
      ClockOf(c, s, es, j);
      if i < j {
        LatestClockIsLatest(es[..j]);
        assert es[..j][..i + 1] == es[..i + 1];
      }
    }
  }

  /** The clock of an event lies between the latest readings before and after it. */
  lemma ClockOf(c: Config, s: ServiceState, es: seq<Event>, m: nat)
    requires m < |es| && Clocked(es) && ClocksFromZero(es)
    ensures SeenAt(c, s, es, m).clock == LatestClock(es[..m + 1])
  {
    assert es[..m + 1][..m] == es[..m] && es[..m + 1][m] == es[m];
  }

  /**
   * Whatever requests and timers come in between, two automatic updates of the brightness are at least the
   * shorter debounce time apart, as long as the sensor's data is not cleared and no direction is defective.
   */
  lemma AutoUpdatesAreSpaced(c: Config, s: ServiceState, es: seq<Event>, i: nat, j: nat)
    requires s.lux == INITIAL
    requires !LuxProperties.Defective(c.mode, Brighten) && !LuxProperties.Defective(c.mode, Darken)
    requires Clocked(es) && ClocksFromZero(es)
    requires i < j && AutoUpdatesAt(c, s, es, i) && AutoUpdatesAt(c, s, es, j) && Uncleared(c, s, es, i, j)
    ensures es[j].request.now - es[i].request.now >= Min(Response(c.mode, Brighten), Response(c.mode, Darken))
  {
    var r := Projected(c, s, es);
    ProjectedIsClocked(c, s, es);
    UpdateIsSeen(c, s, es, i);
    UpdateIsSeen(c, s, es, j);
    ProjectedKeepsMode(c, s, es);
    forall m | i <= m < j ensures !r[m].DataCleared? {
      assert r[m] == SeenAt(c, s, es, m);
    }
    LuxProperties.UpdatesAreSpaced(r, i, j);
  }

  lemma UpdateIsSeen(c: Config, s: ServiceState, es: seq<Event>, i: nat)
    requires s.lux == INITIAL && AutoUpdatesAt(c, s, es, i)
    ensures LuxProperties.UpdatesAt(Projected(c, s, es), i)
    ensures Projected(c, s, es)[i] == LuxProperties.Sensed(es[i].request.now, es[i].request.lux, c.mode)
  {
    ProjectedPrefix(c, s, es, i);
    ProjectionRefines(c, s, es[..i]);
  }

  lemma ProjectedKeepsMode(c: Config, s: ServiceState, es: seq<Event>)
    requires !LuxProperties.Defective(c.mode, Brighten) && !LuxProperties.Defective(c.mode, Darken)
    ensures LuxProperties.InMode(Projected(c, s, es), c.mode)
    ensures forall dir :: LuxProperties.Safe(Projected(c, s, es), dir)
  {
    var r := Projected(c, s, es);
    forall m | 0 <= m < |r| && r[m].Sensed? ensures r[m].mode == c.mode {
      assert r[m] == SeenAt(c, s, es, m);
    }
    forall dir ensures LuxProperties.Safe(r, dir) {
      assert dir == Brighten || dir == Darken;
    }
  }

  lemma FilteredStaysLux(c: Config, s: ServiceState, es: seq<Event>)
    requires s.lux == INITIAL
    requires Clocked(es) && ClocksFromZero(es)
    ensures 0.0 <= After(c, s, es).lux.filtered <= LIGHT_MAX_LUX
  {
    var r := Projected(c, s, es);
    ProjectedIsClocked(c, s, es);
    ProjectionRefines(c, s, es);
    LuxProperties.RunKeepsInvariant(r, if r == [] then 0 else r[0].clock);
  }
}
