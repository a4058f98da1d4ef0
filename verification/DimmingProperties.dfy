/** Exactness of one animation, and safety of the start/stop/tick protocol over all interleavings. */
module DimmingProperties {
  import opened Common
  import opened Tasks
  import opened Arithmetic
  import opened Strides
  import opened BrightnessDimmings

  /** Dimming is on exactly while one task is pending, and the step counter cannot wrap. */
  ghost predicate Consistent(d: DimState) {
    && (d.dimming ==> Single(d.tasks) && d.step <= d.totalSteps <= TWO_TO_THE_31)
    && (!d.dimming ==> d.tasks.pending == {})
  }

  /** An upper bound on the ticks still to come. */
  ghost function Remaining(d: DimState): int {
    if d.dimming then d.totalSteps + 1 - d.step else 0
  }

  lemma StartKeepsConsistent(d: DimState, from: uint32, to: uint32, duration: uint32)
    requires Consistent(d)
    ensures Consistent(Started(d, from, to, duration))
  {
    var change, steps := Change(from, to), StepsIn(duration, DEFAULT_UPDATE_TIME);
    if change != 0 {
      AdjustedStepsFit(change, steps);
      QuotientAtMost(Abs(change), Abs(Stride(change, steps)));
    }
  }

  /** Only equal numbers start nothing, whatever wraps. */
  lemma StartsBetweenDifferent(d: DimState, from: uint32, to: uint32, duration: uint32)
    requires !d.dimming
    ensures Started(d, from, to, duration).dimming <==> from != to
  {
    ChangeVanishes(from, to);
  }

  lemma TickKeepsConsistent(d: DimState, task: nat)
    requires Consistent(d) && task in d.tasks.pending
    ensures Consistent(Ticked(d, task).next)
    ensures 0 <= Remaining(Ticked(d, task).next) < Remaining(d)
    ensures Ticked(d, task).changed.Some?
  {
  }

  // ---------- the protocol ----------

  /** Any caller may start or stop; the queue may run any task it holds. */
  datatype DimOp =
    | Start(from: uint32, to: uint32, duration: uint32)
    | Stop
    | Fire(task: nat)

  ghost function Apply(d: DimState, op: DimOp): Tick {
    match op
    case Start(from, to, duration) => Tick(Started(d, from, to, duration), None)
    case Stop => Tick(Stopped(d), None)
    case Fire(task) => if task in d.tasks.pending then Ticked(d, task) else Tick(d, None)
  }

  ghost function After(d: DimState, ops: seq<DimOp>): DimState {
    if ops == [] then d else Apply(After(d, ops[..|ops| - 1]), ops[|ops| - 1]).next
  }

  /** What the last operation of a run reports. */
  ghost function Reported(d: DimState, ops: seq<DimOp>): Option<uint32>
    requires ops != []
  {
    Apply(After(d, ops[..|ops| - 1]), ops[|ops| - 1]).changed
  }

  lemma {:induction false} RunKeepsConsistent(d: DimState, ops: seq<DimOp>)
    requires Consistent(d)
    ensures Consistent(After(d, ops))
    ensures After(d, ops).dimming <==> |After(d, ops).tasks.pending| == 1
    decreases |ops|
  {
    if ops != [] {
      var e, op := After(d, ops[..|ops| - 1]), ops[|ops| - 1];
      RunKeepsConsistent(d, ops[..|ops| - 1]);
      match op
      case Start(from, to, duration) => StartKeepsConsistent(e, from, to, duration);
      case Stop =>
      case Fire(task) =>
        if task in e.tasks.pending {
          TickKeepsConsistent(e, task);
        }
    }
  }

  lemma {:induction false} IdleAfterStop(d: DimState, ops: seq<DimOp>, i: nat)
    requires Consistent(d) && i < |ops| && ops[i] == Stop
    requires forall j :: i < j < |ops| ==> !ops[j].Start?
    ensures After(d, ops).tasks.pending == {} && !After(d, ops).dimming
    decreases |ops|
  {
    var front := ops[..|ops| - 1];
    if i < |front| {
      IdleAfterStop(d, front, i);
      IdleStays(After(d, front), ops[|ops| - 1]);
    } else {
      RunKeepsConsistent(d, front);
      StopIdles(After(d, front));
    }
  }

  lemma StopIdles(e: DimState)
    requires Consistent(e)
    ensures var t := Apply(e, Stop); t.next.tasks.pending == {} && !t.next.dimming && t.changed == None
  {
  }

  lemma IdleStays(e: DimState, op: DimOp)
    requires e.tasks.pending == {} && !e.dimming && !op.Start?
    ensures var t := Apply(e, op); t.next.tasks.pending == {} && !t.next.dimming && t.changed == None
  {
  }

  /** From a stop until the next start the animation is off and reports nothing. */
  lemma SilentAfterStop(d: DimState, ops: seq<DimOp>, i: nat)
    requires Consistent(d) && i < |ops| && ops[i] == Stop
    requires forall j :: i < j < |ops| ==> !ops[j].Start?
    ensures After(d, ops).tasks.pending == {} && !After(d, ops).dimming
    ensures Reported(d, ops) == None
  {
    var front := ops[..|ops| - 1];
    IdleAfterStop(d, ops, i);
    if i < |front| {
      IdleAfterStop(d, front, i);
      IdleStays(After(d, front), ops[|ops| - 1]);
    }
  }

  ghost function Reports(d: DimState, ops: seq<DimOp>): nat {
    if ops == [] then 0
    else Reports(d, ops[..|ops| - 1]) + if Reported(d, ops).Some? then 1 else 0
  }

  /** Without a new start, only as many values can be reported as steps remain. */
  lemma {:induction false} ReportsAreBounded(d: DimState, ops: seq<DimOp>)
    requires Consistent(d) && forall j :: 0 <= j < |ops| ==> !ops[j].Start?
    ensures Reports(d, ops) + Remaining(After(d, ops)) <= Remaining(d)
    decreases |ops|
  {
    if ops != [] {
      var front, op := ops[..|ops| - 1], ops[|ops| - 1];
      RunKeepsConsistent(d, front);
      ReportsAreBounded(d, front);
      if op.Fire? && op.task in After(d, front).tasks.pending {
        TickKeepsConsistent(After(d, front), op.task);
      }
    }
  }

  // ---------- one undisturbed animation ----------

  /** The state after the pending task has fired `k` times. */
  ghost function Ticks(d: DimState, k: nat): DimState {
    if k == 0 then d
    else
      var e := Ticks(d, k - 1);
      if e.tasks.handle.Some? then Ticked(e, e.tasks.handle.value).next else e
  }

  /** The value reported by the `k`-th tick. */
  ghost function Emission(d: DimState, k: nat): Option<uint32>
    requires k > 0
  {
    var e := Ticks(d, k - 1);
    if e.tasks.handle.Some? then Ticked(e, e.tasks.handle.value).changed else None
  }

  ghost function StrideOf(from: uint32, to: uint32, duration: uint32): int
    requires Animation(from, to)
  {
    Stride(to - from, StepsIn(duration, DEFAULT_UPDATE_TIME))
  }

  ghost function TicksOf(from: uint32, to: uint32, duration: uint32): nat
    requires Animation(from, to)
  {
    TickCount(to - from, StrideOf(from, to, duration))
  }

  /** Where the animation stands after `k` ticks. */
  ghost function Position(from: uint32, to: uint32, duration: uint32, k: nat): uint32
    requires Animation(from, to)
  {
    if k < TicksOf(from, to, duration) then
      MultiplesFit(to - from, StrideOf(from, to, duration), k);
      from + k * StrideOf(from, to, duration)
    else to
  }

  lemma PositionInside(from: uint32, to: uint32, duration: uint32, k: nat)
    requires Animation(from, to) && k < TicksOf(from, to, duration)
    ensures var p := Position(from, to, duration, k); if from < to then from <= p < to else to < p <= from
  {
    MultiplesFit(to - from, StrideOf(from, to, duration), k);
  }

  ghost predicate Midway(e: DimState, from: uint32, to: uint32, duration: uint32, k: nat)
    requires Animation(from, to)
  {
    && e.dimming && Single(e.tasks) && e.to == to && e.step == k
    && e.stride == StrideOf(from, to, duration)
    && e.totalSteps == Abs(to - from) / Abs(e.stride)
    && k < TicksOf(from, to, duration) && e.current == Position(from, to, duration, k)
  }

  lemma StartIsMidway(d: DimState, from: uint32, to: uint32, duration: uint32)
    requires Consistent(d) && !d.dimming && Animation(from, to)
    ensures Midway(Started(d, from, to, duration), from, to, duration, 0)
  {
    ChangeIsExact(from, to);
    AdjustedStepsFit(to - from, StepsIn(duration, DEFAULT_UPDATE_TIME));
    LastMultiple(to - from, StrideOf(from, to, duration));
  }

  lemma PositionAdvances(from: uint32, to: uint32, duration: uint32, k: nat)
    requires Animation(from, to) && k + 1 < TicksOf(from, to, duration)
    ensures Position(from, to, duration, k + 1) == Position(from, to, duration, k) + StrideOf(from, to, duration)
  {
    var s := StrideOf(from, to, duration);
    assert (k + 1) * s == k * s + s;
  }

  /** While strides remain, the next brightness is the next position; the wrapped addition is exact. */
  lemma NextIsPosition(e: DimState, from: uint32, to: uint32, duration: uint32, k: nat)
    requires Animation(from, to) && Midway(e, from, to, duration, k) && k + 1 < TicksOf(from, to, duration)
    ensures NextBrightness(e) == Position(from, to, duration, k + 1) && !OutOfRange(e) && k + 1 <= e.totalSteps
  {
    LastMultiple(to - from, e.stride);
    PositionAdvances(from, to, duration, k);
    PositionInside(from, to, duration, k + 1);
    WrappedSum(e.current, e.stride);
  }

  lemma PositionReaches(from: uint32, to: uint32, duration: uint32, k: nat)
    requires Animation(from, to)
    requires k + 1 == TicksOf(from, to, duration) <= Abs(to - from) / Abs(StrideOf(from, to, duration))
    ensures Position(from, to, duration, k) + StrideOf(from, to, duration) == to
  {
    LastMultipleReaches(to - from, StrideOf(from, to, duration), k);
  }

  /** The last tick lands on the target, either by its stride or because the steps are used up. */
  lemma LastIsTarget(e: DimState, from: uint32, to: uint32, duration: uint32, k: nat)
    requires Animation(from, to) && Midway(e, from, to, duration, k) && k + 1 == TicksOf(from, to, duration)
    ensures k + 1 <= e.totalSteps ==> OutOfRange(e)
  {
    if k + 1 <= e.totalSteps {
      PositionReaches(from, to, duration, k);
      WrappedSum(e.current, e.stride);
    }
  }

  lemma StepsAreFew(from: uint32, to: uint32, duration: uint32)
    requires Animation(from, to)
    ensures TicksOf(from, to, duration) <= TWO_TO_THE_31
  {
    var c, s := Abs(to - from), StrideOf(from, to, duration);
    LastMultiple(to - from, s);
    QuotientAtMost(c, Abs(s));
  }

  /** What decides whether the tick of a running animation is its last one. */
  lemma TickOutcome(e: DimState)
    requires e.dimming && Single(e.tasks) && e.step < TWO_TO_THE_31
    ensures var t, more := Ticked(e, e.tasks.handle.value), e.step + 1 <= e.totalSteps && !OutOfRange(e);
            && t.changed == Some(if more then NextBrightness(e) else e.to)
            && t.next.current == t.changed.value && t.next.dimming == more
            && (if more then Single(t.next.tasks) else t.next.tasks.pending == {})
            && t.next == e.(current := t.next.current, dimming := more, step := e.step + 1, tasks := t.next.tasks)
  {
  }

  lemma MidwayContinues(e: DimState, from: uint32, to: uint32, duration: uint32, k: nat)
    requires Animation(from, to) && Midway(e, from, to, duration, k) && k + 1 < TicksOf(from, to, duration)
    ensures var t := Ticked(e, e.tasks.handle.value);
            && t.changed == Some(Position(from, to, duration, k + 1))
            && Midway(t.next, from, to, duration, k + 1)
  {
    StepsAreFew(from, to, duration);
    NextIsPosition(e, from, to, duration, k);
    TickOutcome(e);
  }

  lemma MidwayEnds(e: DimState, from: uint32, to: uint32, duration: uint32, k: nat)
    requires Animation(from, to) && Midway(e, from, to, duration, k) && k + 1 == TicksOf(from, to, duration)
    ensures var t := Ticked(e, e.tasks.handle.value);
            t.changed == Some(to) && !t.next.dimming && t.next.current == to && t.next.tasks.pending == {}
  {
    StepsAreFew(from, to, duration);
    LastIsTarget(e, from, to, duration, k);
    TickOutcome(e);
  }

  lemma {:induction false} UndisturbedRun(d: DimState, from: uint32, to: uint32, duration: uint32, k: nat)
    requires Consistent(d) && !d.dimming && Animation(from, to) && k <= TicksOf(from, to, duration)
    ensures var e := Ticks(Started(d, from, to, duration), k);
            if k < TicksOf(from, to, duration) then Midway(e, from, to, duration, k)
            else !e.dimming && e.current == to && e.tasks.pending == {}
    ensures 0 < k ==> Emission(Started(d, from, to, duration), k) == Some(Position(from, to, duration, k))
    decreases k
  {
    if k == 0 {
      StartIsMidway(d, from, to, duration);
    } else {
      UndisturbedRun(d, from, to, duration, k - 1);
      var e := Ticks(Started(d, from, to, duration), k - 1);
      if k < TicksOf(from, to, duration) {
        MidwayContinues(e, from, to, duration, k - 1);
      } else {
        MidwayEnds(e, from, to, duration, k - 1);
      }
    }
  }

  /** The `k`-th tick happens, and reports the `k`-th position. */
  lemma TickReports(d: DimState, from: uint32, to: uint32, duration: uint32, k: nat)
    requires Consistent(d) && !d.dimming && Animation(from, to) && 0 < k <= TicksOf(from, to, duration)
    ensures var e := Ticks(Started(d, from, to, duration), k - 1);
            && e.dimming && e.tasks.handle.Some?
            && Ticked(e, e.tasks.handle.value).changed == Some(Position(from, to, duration, k))
  {
    UndisturbedRun(d, from, to, duration, k - 1);
    UndisturbedRun(d, from, to, duration, k);
  }

  /** Every tick moves toward the target, by at most one stride, and never past it. */
  lemma PositionsApproach(from: uint32, to: uint32, duration: uint32, k: nat)
    requires Animation(from, to) && 0 < k <= TicksOf(from, to, duration)
    ensures var p, q := Position(from, to, duration, k - 1), Position(from, to, duration, k);
            && Abs(q - p) <= Abs(StrideOf(from, to, duration))
            && if from < to then p < q <= to else to <= q < p
  {
    PositionInside(from, to, duration, k - 1);
    if k < TicksOf(from, to, duration) {
      PositionInside(from, to, duration, k);
      PositionAdvances(from, to, duration, k - 1);
    } else {
      LastMultiple(to - from, StrideOf(from, to, duration));
    }
  }

  /** The run takes at most twice the number of update intervals in its duration. */
  lemma RunLengthIsBounded(from: uint32, to: uint32, duration: uint32)
    requires Animation(from, to)
    ensures 1 <= TicksOf(from, to, duration) <= 2 * StepsIn(duration, DEFAULT_UPDATE_TIME)
  {
    LastMultiple(to - from, StrideOf(from, to, duration));
    TickCountIsBounded(to - from, StepsIn(duration, DEFAULT_UPDATE_TIME));
  }

  /** Of the `n` intervals of 32 ms in the duration, each covers its share of the change, but one unit at least. */
  lemma StrideSharesChange(from: uint32, to: uint32, duration: uint32, n: nat)
    requires Animation(from, to)
    requires if duration < 32 then n == 1 else n * 32 <= duration < (n + 1) * 32
    ensures var s, c := StrideOf(from, to, duration), Abs(to - from);
            && (0 < s <==> from < to)
            && (if c < n then Abs(s) == 1 else Abs(s) * n <= c < (Abs(s) + 1) * n)
            && Abs(s) * (TicksOf(from, to, duration) - 1) < c <= Abs(s) * TicksOf(from, to, duration)
  {
    StepsFillDuration(duration, DEFAULT_UPDATE_TIME);
    ShareOfChange(to - from, n);
    CeilDivMeans(Abs(to - from), Abs(StrideOf(from, to, duration)));
  }

  /** A duration of one update interval leaves a single stride. */
  lemma OneStrideRun(from: uint32, to: uint32, duration: uint32)
    requires Animation(from, to) && StepsIn(duration, DEFAULT_UPDATE_TIME) == 1
    ensures TicksOf(from, to, duration) == 1
  {
    var c := Abs(to - from);
    QuotientIsUnique(c, 1, c, 0);
    CeilDivAtMost(c, c, 1);
    LastMultiple(to - from, StrideOf(from, to, duration));
  }
}
