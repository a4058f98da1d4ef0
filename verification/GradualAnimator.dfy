/** The older animator (gradual_animator.cpp): same fields, no corrected step count, last step jumps. */
module GradualAnimators {
  import opened Common
  import opened Tasks
  import opened Arithmetic
  import opened Strides
  import opened BrightnessDimmings

  const ANIMATOR_UPDATE_TIME: uint32 := 30

  ghost function Begun(d: DimState, from: uint32, to: uint32, duration: uint32): DimState {
    if d.dimming then d
    else
      var steps := StepsIn(duration, ANIMATOR_UPDATE_TIME);
      var change := Change(from, to);
      var e := d.(from := from, to := to, current := from, duration := duration, totalSteps := steps);
      if change == 0 then e
      else e.(stride := Stride(change, steps), step := 0, dimming := true, tasks := Submitted(d.tasks))
  }

  ghost function Animated(d: DimState): Tick {
    if !d.dimming then Tick(d, None)
    else
      var e := d.(step := WrapU32(d.step + 1));
      if e.step < e.totalSteps && !OutOfRange(e)
      then Tick(e.(current := NextBrightness(e), tasks := Submitted(e.tasks)), Some(NextBrightness(e)))
      else Tick(e.(current := e.to, dimming := false), Some(e.to))
  }

  ghost function Ran(d: DimState, task: nat): Tick {
    Animated(d.(tasks := Fired(d.tasks, task)))
  }

  class GradualAnimator {
    var animating: bool
    var fromBrightness: uint32
    var toBrightness: uint32
    var currentBrightness: uint32
    var duration: uint32
    var totalSteps: uint32
    var stride: int
    var currentStep: uint32
    var tasks: Queue

    ghost function State(): DimState
      reads this
    {
      DimState(animating, fromBrightness, toBrightness, currentBrightness, duration, totalSteps, stride, currentStep,
               tasks)
    }

    constructor ()
      ensures State() == AT_REST
    {
      animating := false;
      fromBrightness, toBrightness, currentBrightness, duration, totalSteps := 0, 0, 0, 0, 0;
      stride, currentStep, tasks := 0, 0, NO_TASKS;
    }

    method StartAnimation(from: uint32, to: uint32, time: uint32)
      modifies this
      ensures State() == Begun(old(State()), from, to, time)
    {
      if animating {
        return;
      }
      fromBrightness := from;
      toBrightness := to;
      currentBrightness := fromBrightness;
      duration := time;
      totalSteps := duration / ANIMATOR_UPDATE_TIME;
      if totalSteps < 1 {
        totalSteps := 1;
      }
      var changeBrightness := Change(fromBrightness, toBrightness);
      if changeBrightness == 0 {
        return;
      }
      stride := TruncatingDiv(changeBrightness, totalSteps);
      if Abs(stride) < STRIDE_ABSOLUTE_MIN {
        stride := (if changeBrightness > 0 then 1 else -1) * STRIDE_ABSOLUTE_MIN;
      }
      currentStep := 0;
      animating := true;
      tasks := Submitted(tasks);
    }

    /** A successful cancel; unlike the newer class, the handle is kept. */
    method StopAnimation()
      modifies this
      ensures var was := old(State());
              State() == was.(dimming := false, tasks := was.tasks.(pending := Cancelled(was.tasks).pending))
    {
      animating := false;
      tasks := tasks.(pending := Cancelled(tasks).pending);
    }

    method NextStep() returns (changed: Option<uint32>)
      modifies this
      ensures Tick(State(), changed) == Animated(old(State()))
    {
      if !animating {
        return None;
      }
      currentStep := WrapU32(currentStep + 1);
      if currentStep < totalSteps {
        var nextBrightness := WrapU32(currentBrightness + WrapU32(stride));
        var isOutRange := if stride > 0 then nextBrightness >= toBrightness else nextBrightness <= toBrightness;
        if isOutRange {
          currentBrightness := toBrightness;
          changed := Some(currentBrightness);
          animating := false;
        } else {
          currentBrightness := nextBrightness;
          changed := Some(currentBrightness);
          tasks := Submitted(tasks);
        }
      } else {
        currentBrightness := toBrightness;
        changed := Some(currentBrightness);
        animating := false;
      }
    }
  }

  // ---------- one undisturbed animation ----------

  ghost function RunTicks(d: DimState, k: nat): DimState {
    if k == 0 then d
    else
      var e := RunTicks(d, k - 1);
      if e.tasks.handle.Some? then Ran(e, e.tasks.handle.value).next else e
  }

  ghost function RunEmission(d: DimState, k: nat): Option<uint32>
    requires k > 0
  {
    var e := RunTicks(d, k - 1);
    if e.tasks.handle.Some? then Ran(e, e.tasks.handle.value).changed else None
  }

  /** The animation ends after its steps, or when single units have used up a shorter distance. */
  ghost function Length(from: uint32, to: uint32, duration: uint32): nat {
    Min(StepsIn(duration, ANIMATOR_UPDATE_TIME), Abs(to - from))
  }

  ghost function StrideOf(from: uint32, to: uint32, duration: uint32): int
    requires Animation(from, to)
  {
    Stride(to - from, StepsIn(duration, ANIMATOR_UPDATE_TIME))
  }

  ghost function Place(from: uint32, to: uint32, duration: uint32, k: nat): int
    requires Animation(from, to)
  {
    if k < Length(from, to, duration) then from + k * StrideOf(from, to, duration) else to
  }

  /** Of the `n` intervals of 30 ms in the duration, each covers its share of the change, but one unit at least. */
  lemma StrideSharesChange(from: uint32, to: uint32, duration: uint32, n: nat)
    requires Animation(from, to)
    requires if duration < 30 then n == 1 else n * 30 <= duration < (n + 1) * 30
    ensures var s, c := StrideOf(from, to, duration), Abs(to - from);
            && (0 < s <==> from < to)
            && (if c < n then Abs(s) == 1 else Abs(s) * n <= c < (Abs(s) + 1) * n)
            && Length(from, to, duration) == Min(n, c)
  {
    StepsFillDuration(duration, ANIMATOR_UPDATE_TIME);
    ShareOfChange(to - from, n);
  }

  /** Before its last tick the animation is strictly between start and target. */
  lemma StrideStaysInside(change: int, steps: uint32, k: nat)
    requires change != 0 && 0 < steps && k < Min(steps, Abs(change))
    ensures var s := Stride(change, steps);
            && (if s > 0 then 0 <= k * s < change else change < k * s <= 0)
            && (change > 0 <==> s > 0)
  {
    var c, s := Abs(change), Stride(change, steps);
    var m := Abs(s);
    SignedMultiple(s, k);
    if c < steps {
      QuotientIsUnique(c, steps, 0, c);
    } else {
      QuotientPositive(c, steps);
      QuotientAtMost(c, steps);
      ScaleNat(m, k + 1, steps);
      assert m * (k + 1) == m * k + m;
    }
  }

  /** The last jump exceeds the others by less than the number of steps. */
  lemma LastJump(change: int, steps: uint32)
    requires change != 0 && 0 < steps
    ensures var s, n := Stride(change, steps), Min(steps, Abs(change));
            && Abs(change - (n - 1) * s) <= Abs(s) + steps - 1
  {
    var c, s, n := Abs(change), Stride(change, steps), Min(steps, Abs(change));
    StrideStaysInside(change, steps, n - 1);
    SignedMultiple(s, n - 1);
    if c < steps {
      QuotientIsUnique(c, steps, 0, c);
    } else {
      QuotientPositive(c, steps);
      assert c == steps * (c / steps) + c % steps;
      assert Abs(s) * (n - 1) == steps * (c / steps) - Abs(s);
    }
  }

  ghost predicate Midway(e: DimState, from: uint32, to: uint32, duration: uint32, k: nat)
    requires Animation(from, to)
  {
    && e.dimming && Single(e.tasks) && e.to == to && e.step == k
    && e.stride == StrideOf(from, to, duration)
    && e.totalSteps == StepsIn(duration, ANIMATOR_UPDATE_TIME)
    && k < Length(from, to, duration) && e.current == Place(from, to, duration, k)
  }

  lemma PlaceInside(from: uint32, to: uint32, duration: uint32, k: nat)
    requires Animation(from, to) && k < Length(from, to, duration)
    ensures var p := Place(from, to, duration, k); if from < to then from <= p < to else to < p <= from
    ensures StrideOf(from, to, duration) > 0 <==> from < to
  {
    StrideStaysInside(to - from, StepsIn(duration, ANIMATOR_UPDATE_TIME), k);
  }

  lemma PlaceAdvances(from: uint32, to: uint32, duration: uint32, k: nat)
    requires Animation(from, to) && k + 1 < Length(from, to, duration)
    ensures Place(from, to, duration, k + 1) == Place(from, to, duration, k) + StrideOf(from, to, duration)
  {
    var s := StrideOf(from, to, duration);
    assert (k + 1) * s == k * s + s;
  }

  /** A distance shorter than the steps is walked in single units, which reach the target exactly. */
  lemma UnitsReach(from: uint32, to: uint32, duration: uint32, k: nat)
    requires Animation(from, to)
    requires k + 1 == Length(from, to, duration) < StepsIn(duration, ANIMATOR_UPDATE_TIME)
    ensures Place(from, to, duration, k) + StrideOf(from, to, duration) == to
  {
    var c := Abs(to - from);
    QuotientIsUnique(c, StepsIn(duration, ANIMATOR_UPDATE_TIME), 0, c);
    SignedMultiple(StrideOf(from, to, duration), k);
  }

  /** What decides whether the tick of a running animation is its last one. */
  lemma RanOutcome(e: DimState)
    requires e.dimming && Single(e.tasks) && e.step + 1 < TWO_TO_THE_32
    ensures var t, more := Ran(e, e.tasks.handle.value), e.step + 1 < e.totalSteps && !OutOfRange(e);
            && t.changed == Some(if more then NextBrightness(e) else e.to)
            && t.next.current == t.changed.value && t.next.dimming == more
            && (if more then Single(t.next.tasks) else t.next.tasks.pending == {})
            && t.next == e.(current := t.next.current, dimming := more, step := e.step + 1, tasks := t.next.tasks)
  {
  }

  lemma MidwayGoesOn(e: DimState, from: uint32, to: uint32, duration: uint32, k: nat)
    requires Animation(from, to) && Midway(e, from, to, duration, k) && k + 1 < Length(from, to, duration)
    ensures var t := Ran(e, e.tasks.handle.value);
            t.changed == Some(Place(from, to, duration, k + 1)) && Midway(t.next, from, to, duration, k + 1)
  {
    PlaceInside(from, to, duration, k + 1);
    PlaceAdvances(from, to, duration, k);
    WrappedSum(e.current, e.stride);
    RanOutcome(e);
  }

  lemma MidwayStops(e: DimState, from: uint32, to: uint32, duration: uint32, k: nat)
    requires Animation(from, to) && Midway(e, from, to, duration, k) && k + 1 == Length(from, to, duration)
    ensures var t := Ran(e, e.tasks.handle.value);
            t.changed == Some(to) && !t.next.dimming && t.next.current == to && t.next.tasks.pending == {}
  {
    if k + 1 < e.totalSteps {
      UnitsReach(from, to, duration, k);
      WrappedSum(e.current, e.stride);
    }
    RanOutcome(e);
  }

  /** Every undisturbed run walks by its stride and ends on the target after `Length` ticks. */
  lemma {:induction false} AnimationIsExact(d: DimState, from: uint32, to: uint32, duration: uint32, k: nat)
    requires !d.dimming && d.tasks.pending == {} && Animation(from, to) && k <= Length(from, to, duration)
    ensures var e := RunTicks(Begun(d, from, to, duration), k);
            if k < Length(from, to, duration) then Midway(e, from, to, duration, k)
            else !e.dimming && e.current == to && e.tasks.pending == {}
    ensures 0 < k ==> RunEmission(Begun(d, from, to, duration), k) == Some(Place(from, to, duration, k))
    decreases k
  {
    if k == 0 {
      ChangeIsExact(from, to);
    } else {
      AnimationIsExact(d, from, to, duration, k - 1);
      var e := RunTicks(Begun(d, from, to, duration), k - 1);
      if k < Length(from, to, duration) {
        MidwayGoesOn(e, from, to, duration, k - 1);
      } else {
        MidwayStops(e, from, to, duration, k - 1);
      }
    }
  }

  /** Each tick moves strictly toward the target; only the last may jump further than the stride. */
  lemma PlacesApproach(from: uint32, to: uint32, duration: uint32, k: nat)
    requires Animation(from, to) && 0 < k <= Length(from, to, duration)
    ensures var p, q := Place(from, to, duration, k - 1), Place(from, to, duration, k);
            var steps := StepsIn(duration, ANIMATOR_UPDATE_TIME);
            && (if from < to then p < q <= to else to <= q < p)
            && Abs(q - p) <= Abs(StrideOf(from, to, duration)) +
                             (if k == Length(from, to, duration) then steps - 1 else 0)
    ensures Length(from, to, duration) <= StepsIn(duration, ANIMATOR_UPDATE_TIME)
  {
    PlaceInside(from, to, duration, k - 1);
    if k < Length(from, to, duration) {
      PlaceAdvances(from, to, duration, k - 1);
      PlaceInside(from, to, duration, k);
    } else {
      LastJump(to - from, StepsIn(duration, ANIMATOR_UPDATE_TIME));
    }
  }
}
