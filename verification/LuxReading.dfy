/** Which samples a reading is judged by, and what the judgement leaves, in plain numbers. */
module LuxReadings {
  import opened LightLuxBuffers
  import opened LightLuxManagers
  import opened LuxProperties
  import opened Smoothing
  import LuxHistories

  /** A reading, moved into the range of the sensor. */
  ghost function Clamped(lux: real): real {
    if lux < 0.0 then 0.0 else if 40000.0 < lux then 40000.0 else lux
  }

  // ---------- what is smoothed ----------

  ghost function LuxesOf(samples: seq<Sample>): (r: seq<real>)
    ensures |r| == |samples|
  {
    seq(|samples|, m requires 0 <= m < |samples| => samples[m].lux)
  }

  /** The last `|tail|` of the samples are `tail`. */
  ghost predicate EndsWith(items: seq<Sample>, tail: seq<Sample>) {
    |tail| <= |items| && forall i :: 0 <= i < |tail| ==> items[|items| - |tail| + i] == tail[i]
  }

  /** Five or more samples give the mean of the middle three of the newest five, fewer the newest one. */
  lemma SmoothLuxMeans(items: seq<Sample>, tail: seq<Sample>, s: seq<real>)
    requires EndsWith(items, tail) && |tail| == |s| == 5 && Ascending(s) && multiset(s) == multiset(LuxesOf(tail))
    ensures SmoothLux(items) == (s[1] + s[2] + s[3]) / 3.0
  {
    assert NewestFive(items) == LuxesOf(tail);
    TrimmedMeanIsMiddleMean(LuxesOf(tail), s);
  }

  lemma FewAreNotSmoothed(items: seq<Sample>)
    requires |items| < 5
    ensures SmoothLux(items) == if items == [] then -1.0 else items[|items| - 1].lux
  {
  }

  // ---------- recording, in numbers ----------

  ghost predicate ShippedRoom(h: History) {
    h.capacity in {32, 64, 128, 256, 512} && |h.items| <= h.capacity
  }

  lemma RecordedKeepsRoom(h: History, now: int, lux: real)
    requires ShippedRoom(h)
    ensures ShippedRoom(Recorded(h, now, lux))
  {
    var k, lost := RecordedMeans(h, now, lux);
  }

  /** The samples of the last ten seconds; the newest of the older ones stays too, with a later stamp. */
  ghost function Retained(h: History, now: int): seq<Sample> {
    Pruned(h, now - 10000).items
  }

  /** After the expired samples are cut off, the new one is added, unless 512 are left. */
  lemma RecordedIs(h: History, now: int, lux: real) returns (k: nat)
    requires ShippedRoom(h)
    ensures h.items == [] ==> Recorded(h, now, lux).items == [Sample(now, lux)]
    ensures h.items != [] ==>
              && LuxHistories.LastExpired(h.items, now - 10000, k)
              && LuxHistories.CutAt(h.items, Retained(h, now), now - 10000, k)
              && Recorded(h, now, lux).items == Retained(h, now) + if |Retained(h, now)| == 512 then []
                                                                   else [Sample(now, lux)]
  {
    var lost;
    k, lost := RecordedMeans(h, now, lux);
  }

  /** Both buffers start with room for 32 and double it, so over any run a reading is lost iff 512 are retained. */
  lemma {:induction false} RunKeepsRoom(es: seq<LuxEvent>)
    ensures ShippedRoom(After(es).raw) && ShippedRoom(After(es).smooth)
    ensures es == [] ==> After(es).raw == After(es).smooth == History([], 32)
    decreases |es|
  {
    if es != [] {
      var s, e := After(es[..|es| - 1]), es[|es| - 1];
      RunKeepsRoom(es[..|es| - 1]);
      if e.Sensed? {
        var v := ValidLux(e.lux);
        RecordedKeepsRoom(s.raw, e.clock, v);
        RecordedKeepsRoom(s.smooth, e.clock, SmoothLux(Recorded(s.raw, e.clock, v).items));
      }
    }
  }

  // ---------- the newest readings are the ones retained ----------

  /** Event `m` is a reading that is not lost to a full buffer. */
  ghost predicate Kept(es: seq<LuxEvent>, m: nat) {
    m < |es| && es[m].Sensed? && |Retained(After(es[..m]).raw, es[m].clock)| != 512
  }

  ghost predicate AllKept(es: seq<LuxEvent>, i: nat, n: nat) {
    forall m :: i <= m < n ==> Kept(es, m)
  }

  ghost function LuxAt(es: seq<LuxEvent>, m: nat): real
    requires Kept(es, m)
  {
    Clamped(es[m].lux)
  }

  /** The value that reading `m` is judged by. */
  ghost function JudgedAt(es: seq<LuxEvent>, m: nat): real
    requires Kept(es, m)
  {
    BeforeJudging(After(es[..m]), es[m].clock, es[m].lux).smoothed
  }

  /** The readings from `i` up to `n`, as samples. */
  ghost function Readings(es: seq<LuxEvent>, i: nat, n: nat): (r: seq<Sample>)
    requires i <= n && AllKept(es, i, n)
    ensures |r| == n - i
  {
    seq(n - i, m requires 0 <= m < n - i =>
      assert Kept(es, i + m);
      Sample(es[i + m].clock, LuxAt(es, i + m)))
  }

  /** Cutting off the expired samples leaves the later ones alone. */
  lemma CutKeepsEnd(items: seq<Sample>, kept: seq<Sample>, horizon: int, k: nat, tail: seq<Sample>)
    requires LuxHistories.LastExpired(items, horizon, k) && LuxHistories.CutAt(items, kept, horizon, k)
    requires EndsWith(items, tail) && forall i :: 0 <= i < |tail| ==> horizon < tail[i].time
    ensures EndsWith(kept, tail)
  {
    var n := |items| - |tail|;
    forall i | n <= i < |items| ensures items[i] == tail[i - n] && horizon < items[i].time {
      assert items[n + (i - n)] == tail[i - n];
    }
    assert k <= n;
  }

  lemma RecordedEndsWith(h: History, now: int, lux: real, tail: seq<Sample>)
    requires ShippedRoom(h) && |Retained(h, now)| != 512 && EndsWith(h.items, tail)
    requires forall i :: 0 <= i < |tail| ==> now - 10000 < tail[i].time
    ensures EndsWith(Recorded(h, now, lux).items, tail + [Sample(now, lux)])
  {
    var k := RecordedIs(h, now, lux);
    if h.items != [] {
      CutKeepsEnd(h.items, Retained(h, now), now - 10000, k, tail);
      AddedAtEnd(Retained(h, now), tail, Sample(now, lux));
    }
  }

  lemma AddedAtEnd(items: seq<Sample>, tail: seq<Sample>, s: Sample)
    requires EndsWith(items, tail)
    ensures EndsWith(items + [s], tail + [s])
  {
  }

  /** What a reading leaves in the two buffers, and what it is judged by. */
  lemma ReadingRecords(es: seq<LuxEvent>, n: nat)
    requires Kept(es, n)
    ensures var s, t := After(es[..n]), After(es[..n + 1]);
            && t.raw == Recorded(s.raw, es[n].clock, LuxAt(es, n))
            && JudgedAt(es, n) == SmoothLux(t.raw.items)
            && (0.0 <= JudgedAt(es, n) ==> t.smooth == Recorded(s.smooth, es[n].clock, JudgedAt(es, n)))
  {
    AfterNext(es, n);
  }

  lemma ReadingsGrow(es: seq<LuxEvent>, i: nat, n: nat)
    requires i <= n && AllKept(es, i, n + 1) && Clocked(es)
    ensures AllKept(es, i, n) && Kept(es, n)
    ensures Readings(es, i, n + 1) == Readings(es, i, n) + [Sample(es[n].clock, LuxAt(es, n))]
    ensures forall m :: 0 <= m < n - i ==> es[i].clock <= Readings(es, i, n)[m].time
  {
    assert Kept(es, n);
  }

  /** After the first `n` events the buffer ends with the readings from `i` on. */
  ghost predicate Retains(es: seq<LuxEvent>, i: nat, n: nat)
    requires i <= n <= |es| && AllKept(es, i, n)
  {
    EndsWith(After(es[..n]).raw.items, Readings(es, i, n))
  }

  lemma RetainsNext(es: seq<LuxEvent>, i: nat, n: nat)
    requires Clocked(es) && i <= n < |es| && AllKept(es, i, n + 1) && es[n].clock < es[i].clock + 10000
    requires AllKept(es, i, n) && Retains(es, i, n)
    ensures Retains(es, i, n + 1)
  {
    ReadingsGrow(es, i, n);
    RunKeepsRoom(es[..n]);
    RecordedEndsWith(After(es[..n]).raw, es[n].clock, LuxAt(es, n), Readings(es, i, n));
    ReadingRecords(es, n);
  }

  /** Every event from `i` up to `n` is less than ten seconds later than event `i`. */
  ghost predicate AllRecent(es: seq<LuxEvent>, i: nat, n: nat)
    requires i <= n <= |es|
  {
    forall m :: i <= m < n ==> es[m].clock < es[i].clock + 10000
  }

  /** Within ten seconds the buffer ends with exactly the readings made, in order, unless one was lost. */
  lemma {:induction false} RecentReadingsAreRetained(es: seq<LuxEvent>, i: nat, n: nat)
    requires Clocked(es) && i <= n <= |es| && AllKept(es, i, n) && AllRecent(es, i, n)
    ensures Retains(es, i, n)
    decreases n
  {
    if i == n {
      RetainsNone(es, n);
    } else {
      AllKeptBefore(es, i, n);
      RecentReadingsAreRetained(es, i, n - 1);
      RetainsNext(es, i, n - 1);
    }
  }

  lemma RetainsNone(es: seq<LuxEvent>, n: nat)
    requires n <= |es|
    ensures Retains(es, n, n)
  {
  }

  lemma AllKeptBefore(es: seq<LuxEvent>, i: nat, n: nat)
    requires i < n <= |es| && AllKept(es, i, n) && AllRecent(es, i, n)
    ensures AllKept(es, i, n - 1) && AllRecent(es, i, n - 1) && es[n - 1].clock < es[i].clock + 10000
  {
  }

  /** The last of five readings within ten seconds is judged by the mean of the middle three of them. */
  lemma FiveReadingsAreSmoothed(es: seq<LuxEvent>, i: nat, s: seq<real>)
    requires Clocked(es) && AllKept(es, i, i + 5) && i + 5 <= |es|
    requires es[i + 4].clock < es[i].clock + 10000
    requires |s| == 5 && Ascending(s) && multiset(s) == multiset(LuxesOf(Readings(es, i, i + 5)))
    ensures Kept(es, i + 4) && JudgedAt(es, i + 4) == (s[1] + s[2] + s[3]) / 3.0
  {
    assert AllRecent(es, i, i + 5);
    RecentReadingsAreRetained(es, i, i + 5);
    SmoothLuxMeans(After(es[..i + 5]).raw.items, Readings(es, i, i + 5), s);
    assert Kept(es, i + 4);
    ReadingRecords(es, i + 4);
  }

  // ---------- steady light ----------

  /** The newest `k` samples, or all if there are fewer, are of this lux. */
  ghost predicate NewestAre(items: seq<Sample>, k: nat, lux: real) {
    forall i :: 0 <= i < |items| && |items| - k <= i ==> items[i].lux == lux
  }

  lemma RecordedKeepsNewest(h: History, now: int, lux: real, k: nat)
    requires ShippedRoom(h) && |Retained(h, now)| != 512 && NewestAre(h.items, k, lux)
    ensures NewestAre(Recorded(h, now, lux).items, k + 1, lux) && Recorded(h, now, lux).items != []
  {
    var cut := RecordedIs(h, now, lux);
  }

  /** The readings from `i` up to `n` are all of this lux. */
  ghost predicate Steady(es: seq<LuxEvent>, i: nat, n: nat, lux: real) {
    forall m :: i <= m < n ==> Kept(es, m) && LuxAt(es, m) == lux
  }

  lemma {:induction false} SteadyLightFills(es: seq<LuxEvent>, i: nat, n: nat, lux: real)
    requires i <= n <= |es| && Steady(es, i, n, lux)
    ensures NewestAre(After(es[..n]).raw.items, n - i, lux) && (i < n ==> After(es[..n]).raw.items != [])
    decreases n
  {
    if i < n {
      SteadyLightFills(es, i, n - 1, lux);
      RunKeepsRoom(es[..n - 1]);
      assert Kept(es, n - 1);
      RecordedKeepsNewest(After(es[..n - 1]).raw, es[n - 1].clock, lux, n - 1 - i);
      ReadingRecords(es, n - 1);
    }
  }

  lemma SameLuxIsSmoothed(items: seq<Sample>, lux: real)
    requires items != [] && NewestAre(items, 5, lux)
    ensures SmoothLux(items) == lux
  {
    if |items| < 5 {
      FewAreNotSmoothed(items);
    } else {
      var tail, s := items[|items| - 5..], [lux, lux, lux, lux, lux];
      assert LuxesOf(tail) == s;
      SmoothLuxMeans(items, tail, s);
    }
  }

  /** From the fifth reading of the same lux on, however far apart, that lux is what is judged. */
  lemma SteadyLightIsJudged(es: seq<LuxEvent>, i: nat, n: nat, lux: real)
    requires i + 4 <= n < |es| && Steady(es, i, n + 1, lux)
    ensures Kept(es, n) && JudgedAt(es, n) == lux
  {
    SteadyLightFills(es, i, n + 1, lux);
    SameLuxIsSmoothed(After(es[..n + 1]).raw.items, lux);
    assert Kept(es, n);
    ReadingRecords(es, n);
  }

  // ---------- what a judgement leaves ----------

  /** From sample `k` on, old enough for the debounce time, every one is brighter by the threshold. */
  ghost predicate BrighterSince(s: LuxState, samples: seq<Sample>, debounce: int, now: int, k: nat) {
    && k < |samples| && samples[k].time + debounce <= now
    && forall i :: k <= i < |samples| ==> s.filtered + s.brightenDelta <= samples[i].lux
  }

  ghost predicate DarkerSince(s: LuxState, samples: seq<Sample>, debounce: int, now: int, k: nat) {
    && k < |samples| && samples[k].time + debounce <= now
    && forall i :: k <= i < |samples| ==> samples[i].lux <= s.filtered - s.darkenDelta
  }

  /** A direction has no debounce time, or its change was held for it. */
  ghost predicate BrightenReady(s: LuxState, samples: seq<Sample>, debounce: int, now: int) {
    debounce <= 0 || exists k :: BrighterSince(s, samples, debounce, now, k)
  }

  ghost predicate DarkenReady(s: LuxState, samples: seq<Sample>, debounce: int, now: int) {
    debounce <= 0 || exists k :: DarkerSince(s, samples, debounce, now, k)
  }

  lemma BrightenIsDue(t: LuxState, mode: Mode, now: int)
    ensures Response(mode, Brighten) <= 0 || HeldLongEnough(t, mode, Brighten, now) <==>
            BrightenReady(t, t.smooth.items, mode.brightenDebounceTime, now)
  {
    if HeldLongEnough(t, mode, Brighten, now) {
      var k :| 0 <= k < |t.smooth.items| && HeldSince(t, mode, Brighten, now, k);
      assert mode.brightenDebounceTime == -1 || BrighterSince(t, t.smooth.items, mode.brightenDebounceTime, now, k);
    }
    if k :| BrighterSince(t, t.smooth.items, mode.brightenDebounceTime, now, k) {
      assert mode.brightenDebounceTime <= 0 || HeldSince(t, mode, Brighten, now, k);
    }
  }

  lemma DarkenIsDue(t: LuxState, mode: Mode, now: int)
    ensures Response(mode, Darken) <= 0 || HeldLongEnough(t, mode, Darken, now) <==>
            DarkenReady(t, t.smooth.items, mode.darkenDebounceTime, now)
  {
    if HeldLongEnough(t, mode, Darken, now) {
      var k :| 0 <= k < |t.smooth.items| && HeldSince(t, mode, Darken, now, k);
      assert mode.darkenDebounceTime == -1 || DarkerSince(t, t.smooth.items, mode.darkenDebounceTime, now, k);
    }
    if k :| DarkerSince(t, t.smooth.items, mode.darkenDebounceTime, now, k) {
      assert mode.darkenDebounceTime <= 0 || HeldSince(t, mode, Darken, now, k);
    }
  }

  /** A reading is adopted iff it is the first, or the light is brighter or darker by its threshold for long enough. */
  lemma DecisionMeans(s: LuxState, before: int, mode: Mode, now: int, lux: real)
    requires Invariant(s, before) && before <= now
    ensures var samples := BeforeJudging(s, now, lux).smooth.items;
            Reading(s, mode, now, lux).updated <==>
            || s.raw.items == []
            || BrightenReady(s, samples, mode.brightenDebounceTime, now)
            || DarkenReady(s, samples, mode.darkenDebounceTime, now)
  {
    var t := BeforeJudging(s, now, lux);
    UpdateMeans(s, before, mode, now, lux);
    forall dir | Response(mode, dir) <= 0 || HeldLongEnough(t, mode, dir, now)
      ensures dir == Brighten || dir == Darken
    {
    }
    BrightenIsDue(t, mode, now);
    DarkenIsDue(t, mode, now);
    ReadyReadsBand(s, t, t.smooth.items, mode, now);
  }

  lemma ReadyReadsBand(s: LuxState, t: LuxState, samples: seq<Sample>, mode: Mode, now: int)
    requires SameBand(s, t)
    ensures BrightenReady(s, samples, mode.brightenDebounceTime, now) ==
            BrightenReady(t, samples, mode.brightenDebounceTime, now)
    ensures DarkenReady(s, samples, mode.darkenDebounceTime, now) ==
            DarkenReady(t, samples, mode.darkenDebounceTime, now)
  {
    assert forall k :: BrighterSince(s, samples, mode.brightenDebounceTime, now, k) ==
                       BrighterSince(t, samples, mode.brightenDebounceTime, now, k);
    assert forall k :: DarkerSince(s, samples, mode.darkenDebounceTime, now, k) ==
                       DarkerSince(t, samples, mode.darkenDebounceTime, now, k);
  }

  /** Adopted, the judged lux becomes the filtered one, and each table that asks for a threshold there sets it. */
  lemma AdoptionLeaves(s: LuxState, before: int, mode: Mode, now: int, lux: real)
    requires Invariant(s, before) && before <= now
    ensures var o, judged := Reading(s, mode, now, lux), BeforeJudging(s, now, lux).smoothed;
            var b, d := Delta(mode.brightenPoints, judged), Delta(mode.darkenPoints, judged);
            && o.next.filtered == (if o.updated then judged else s.filtered)
            && o.next.brightenDelta == (if o.updated && 0.0 <= b then b else s.brightenDelta)
            && o.next.darkenDelta == if o.updated && 0.0 <= d then d else s.darkenDelta
  {
    ReadingIsJudged(s, before, mode, now, lux);
  }

  /** A direction whose tables have no points keeps the threshold it starts with on every run: 120 lux or 110. */
  lemma {:induction false} NoTableKeepsThreshold(es: seq<LuxEvent>, dir: Direction)
    requires Clocked(es) && forall i :: 0 <= i < |es| && es[i].Sensed? ==> Table(es[i].mode, dir) == []
    ensures DeltaOf(After(es), dir) == if dir == Brighten then 120.0 else 110.0
    decreases |es|
  {
    if es != [] {
      var front, e := es[..|es| - 1], es[|es| - 1];
      NoTableKeepsThreshold(front, dir);
      RunKeepsInvariant(front, es[0].clock);
      if e.Sensed? {
        AdoptionLeaves(After(front), Clock(front, es[0].clock), e.mode, e.clock, e.lux);
      }
    }
  }
}
