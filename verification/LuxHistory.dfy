/** What the ring buffer's histories mean, over single operations and over whole runs. */
module LuxHistories {
  import opened LightLuxBuffers

  ghost predicate Sorted(items: seq<Sample>) {
    forall i, j :: 0 <= i <= j < |items| ==> items[i].time <= items[j].time
  }

  ghost predicate NotAfter(items: seq<Sample>, now: int) {
    forall i :: 0 <= i < |items| ==> items[i].time <= now
  }

  /** `k` ends the run of samples behind the head that are not newer than the horizon. */
  ghost predicate LastExpired(items: seq<Sample>, horizon: int, k: nat) {
    && k < |items|
    && (forall i :: 1 <= i <= k ==> items[i].time <= horizon)
    && (k + 1 < |items| ==> horizon < items[k + 1].time)
  }

  /** `kept` is `items` without its first `k` samples, the new head stamped no earlier than the horizon. */
  ghost predicate CutAt(items: seq<Sample>, kept: seq<Sample>, horizon: int, k: nat) {
    && k < |items|
    && |kept| == |items| - k
    && kept[0] == Sample(if items[k].time < horizon then horizon else items[k].time, items[k].lux)
    && forall i :: 1 <= i < |kept| ==> kept[i] == items[k + i]
  }

  lemma {:induction false} UnexpiredIsSuffix(items: seq<Sample>, horizon: int) returns (k: nat)
    requires items != []
    ensures LastExpired(items, horizon, k)
    ensures Unexpired(items, horizon) == items[k..]
    decreases |items|
  {
    if |items| > 1 && items[1].time <= horizon {
      var rest := items[1..];
      var j := UnexpiredIsSuffix(rest, horizon);
      k := j + 1;
      assert rest[j..] == items[k..];
      forall i | 1 <= i <= k ensures items[i].time <= horizon {
        assert items[i] == rest[i - 1];
      }
    } else {
      k := 0;
    }
  }

  /** Pruning never empties a history, and cuts exactly where the expired samples end. */
  lemma PruneCutsAtHorizon(h: History, horizon: int) returns (k: nat)
    requires h.items != []
    ensures LastExpired(h.items, horizon, k)
    ensures CutAt(h.items, Pruned(h, horizon).items, horizon, k)
  {
    k := UnexpiredIsSuffix(h.items, horizon);
  }

  lemma PruneKeepsOrder(h: History, horizon: int, now: int)
    requires Sorted(h.items) && NotAfter(h.items, now) && horizon <= now
    ensures Sorted(Pruned(h, horizon).items) && NotAfter(Pruned(h, horizon).items, now)
    ensures WellFormed(h) ==> WellFormed(Pruned(h, horizon))
    ensures h.items != [] ==> Pruned(h, horizon).items != []
  {
    if h.items != [] {
      var k := PruneCutsAtHorizon(h, horizon);
    }
  }

  /** One call on a buffer, with the clock at the time of the call. */
  datatype BufferOp =
    | Push(clock: int, lux: real)
    | Prune(clock: int, horizon: int)
    | Clear(clock: int)

  ghost function Apply(h: History, op: BufferOp): History {
    match op
    case Push(clock, lux) => Pushed(h, Sample(clock, lux))
    case Prune(_, horizon) => Pruned(h, horizon)
    case Clear(_) => h.(items := [])
  }

  ghost function After(h: History, ops: seq<BufferOp>): History {
    if ops == [] then h else Apply(After(h, ops[..|ops| - 1]), ops[|ops| - 1])
  }

  /** The clock never runs backwards and no horizon lies in the future. */
  ghost predicate Clocked(ops: seq<BufferOp>) {
    && (forall i, j :: 0 <= i <= j < |ops| ==> ops[i].clock <= ops[j].clock)
    && (forall i :: 0 <= i < |ops| && ops[i].Prune? ==> ops[i].horizon <= ops[i].clock)
  }

  /** The samples a buffer accepted since it was last cleared, oldest first. */
  ghost function Admitted(h: History, ops: seq<BufferOp>): seq<Sample> {
    if ops == [] then h.items
    else
      var before := Admitted(h, ops[..|ops| - 1]);
      match ops[|ops| - 1]
      case Push(clock, lux) =>
        if PushIsLost(After(h, ops[..|ops| - 1])) then before else before + [Sample(clock, lux)]
      case Prune(_, _) => before
      case Clear(_) => []
  }

  /** `kept` holds the newest samples of `all`, unchanged but for a head that may carry a later stamp. */
  ghost predicate NewestOf(kept: seq<Sample>, all: seq<Sample>) {
    && |kept| <= |all|
    && (all != [] ==> kept != [])
    && (kept != [] ==> kept[0].lux == all[|all| - |kept|].lux && all[|all| - |kept|].time <= kept[0].time)
    && forall i :: 1 <= i < |kept| ==> kept[i] == all[|all| - |kept| + i]
  }

  lemma PruneKeepsNewest(h: History, horizon: int, all: seq<Sample>)
    requires NewestOf(h.items, all)
    ensures NewestOf(Pruned(h, horizon).items, all)
  {
    if h.items != [] {
      var k := PruneCutsAtHorizon(h, horizon);
    }
  }

  /** A full buffer doubles its room while that is at most 512 samples, and only then loses what is pushed. */
  lemma PushMeans(h: History, s: Sample)
    requires WellFormed(h)
    ensures var full, t := |h.items| == h.capacity, Pushed(h, s);
            && t.items == (if full && 512 < 2 * h.capacity then h.items else h.items + [s])
            && t.capacity == if full && h.capacity <= 256 then 2 * h.capacity else h.capacity
  {
  }

  /** A buffer's room starts at 32 and doubles, so over any run a push is lost iff 512 samples are retained. */
  lemma {:induction false} OnlyFiveHundredTwelveLose(ops: seq<BufferOp>, s: Sample)
    ensures var h := After(History([], 32), ops);
            && h.capacity in {32, 64, 128, 256, 512} && |h.items| <= h.capacity
            && Pushed(h, s).items == if |h.items| == 512 then h.items else h.items + [s]
    decreases |ops|
  {
    if ops != [] {
      var front, op := ops[..|ops| - 1], ops[|ops| - 1];
      OnlyFiveHundredTwelveLose(front, if op.Push? then Sample(op.clock, op.lux) else s);
    }
  }

  lemma PushKeepsOrder(h: History, s: Sample, now: int)
    requires WellFormed(h) && Sorted(h.items) && NotAfter(h.items, now) && now <= s.time
    ensures WellFormed(Pushed(h, s)) && Sorted(Pushed(h, s).items) && NotAfter(Pushed(h, s).items, s.time)
  {
  }

  lemma PushKeepsNewest(h: History, s: Sample, all: seq<Sample>)
    requires NewestOf(h.items, all) && !PushIsLost(h)
    ensures NewestOf(Pushed(h, s).items, all + [s])
  {
  }

  /** Every run: capacity stays bounded, order is kept, nothing is reordered or invented. */
  lemma {:induction false} RunKeepsHistory(h: History, ops: seq<BufferOp>, now: int)
    requires WellFormed(h) && Sorted(h.items) && NotAfter(h.items, now)
    requires Clocked(ops) && (ops != [] ==> now <= ops[0].clock)
    ensures WellFormed(After(h, ops))
    ensures Sorted(After(h, ops).items)
    ensures NotAfter(After(h, ops).items, if ops == [] then now else ops[|ops| - 1].clock)
    ensures NewestOf(After(h, ops).items, Admitted(h, ops))
    decreases |ops|
  {
    if ops != [] {
      var front, op := ops[..|ops| - 1], ops[|ops| - 1];
      RunKeepsHistory(h, front, now);
      var before := After(h, front);
      var clock := if front == [] then now else front[|front| - 1].clock;
      assert clock <= op.clock;
      match op
      case Push(t, lux) =>
        PushKeepsOrder(before, Sample(t, lux), clock);
        if !PushIsLost(before) {
          PushKeepsNewest(before, Sample(t, lux), Admitted(h, front));
        }
      case Prune(t, horizon) =>
        PruneKeepsOrder(before, horizon, t);
        PruneKeepsNewest(before, horizon, Admitted(h, front));
      case Clear(_) =>
    }
  }
}
