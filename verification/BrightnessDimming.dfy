/** The self-rescheduling brightness animation (brightness_dimming.cpp). */
module BrightnessDimmings {
  import opened Common
  import opened Tasks
  import opened Strides

  const DEFAULT_UPDATE_TIME: uint32 := 32

  datatype DimState = DimState(dimming: bool, from: uint32, to: uint32, current: uint32, duration: uint32,
                               totalSteps: uint32, stride: int, step: uint32, tasks: Queue)

  const AT_REST := DimState(false, 0, 0, 0, 0, 0, 0, 0, NO_TASKS)

  /** What one tick does: the new state, and the brightness it reports to the callback, if any. */
  datatype Tick = Tick(next: DimState, changed: Option<uint32>)

  ghost function Started(d: DimState, from: uint32, to: uint32, duration: uint32): DimState {
    if d.dimming then d
    else
      var steps := StepsIn(duration, DEFAULT_UPDATE_TIME);
      var change := Change(from, to);
      var e := d.(from := from, to := to, current := from, duration := duration, totalSteps := steps);
      if change == 0 then e
      else
        var stride := Stride(change, steps);
        e.(stride := stride, totalSteps := AdjustedSteps(change, stride, steps), step := 0, dimming := true,
           tasks := Submitted(d.tasks))
  }

  ghost function Stopped(d: DimState): DimState {
    d.(dimming := false, tasks := Cancelled(d.tasks))
  }

  ghost function NextBrightness(d: DimState): uint32 {
    WrapU32(d.current + WrapU32(d.stride))
  }

  ghost predicate OutOfRange(d: DimState) {
    if d.stride > 0 then NextBrightness(d) >= d.to else NextBrightness(d) <= d.to
  }

  ghost function Stepped(d: DimState): Tick {
    if !d.dimming then Tick(d, None)
    else
      var e := d.(step := WrapU32(d.step + 1));
      if e.step <= e.totalSteps && !OutOfRange(e)
      then Tick(e.(current := NextBrightness(e), tasks := Submitted(e.tasks)), Some(NextBrightness(e)))
      else Tick(e.(current := e.to, dimming := false), Some(e.to))
  }

  /** A pending task fires and runs the next step. */
  ghost function Ticked(d: DimState, task: nat): Tick {
    Stepped(d.(tasks := Fired(d.tasks, task)))
  }

  class BrightnessDimming {
    var dimming: bool
    var fromBrightness: uint32
    var toBrightness: uint32
    var currentBrightness: uint32
    var duration: uint32
    var totalSteps: uint32
    var stride: int
    var currentStep: uint32
    var tasks: Queue

    ghost function State(): DimState
      reads this
    {
      DimState(dimming, fromBrightness, toBrightness, currentBrightness, duration, totalSteps, stride, currentStep,
               tasks)
    }

    constructor ()
      ensures State() == AT_REST
    {
      dimming := false;
      fromBrightness, toBrightness, currentBrightness, duration, totalSteps := 0, 0, 0, 0, 0;
      stride, currentStep, tasks := 0, 0, NO_TASKS;
    }

    method StartDimming(from: uint32, to: uint32, time: uint32)
      modifies this
      ensures State() == Started(old(State()), from, to, time)
    {
      if dimming {
        return;
      }
      fromBrightness := from;
      toBrightness := to;
      currentBrightness := fromBrightness;
      duration := time;
      totalSteps := duration / DEFAULT_UPDATE_TIME;
      if totalSteps < 1 {
        totalSteps := 1;
      }
      var changeBrightness := Change(fromBrightness, toBrightness);
      if changeBrightness == 0 {
        return;
      }
      stride := TruncatingDiv(changeBrightness, totalSteps);
      if Abs(stride) < STRIDE_ABSOLUTE_MIN {
        stride := (if changeBrightness > 0 then 1 else -1) * STRIDE_ABSOLUTE_MIN;
      }
      totalSteps := AdjustedSteps(changeBrightness, stride, totalSteps);
      currentStep := 0;
      dimming := true;
      tasks := Submitted(tasks);
    }

    method StopDimming()
      modifies this
      ensures State() == Stopped(old(State()))
    {
      dimming := false;
      tasks := Cancelled(tasks);
    }

    function IsDimming(): (r: bool)
      reads this
      ensures r == State().dimming
    {
      dimming
    }

    method NextStep() returns (changed: Option<uint32>)
      modifies this
      ensures Tick(State(), changed) == Stepped(old(State()))
    {
      if !dimming {
        return None;
      }
      currentStep := WrapU32(currentStep + 1);
      if currentStep <= totalSteps {
        var nextBrightness := WrapU32(currentBrightness + WrapU32(stride));
        var isOutRange := if stride > 0 then nextBrightness >= toBrightness else nextBrightness <= toBrightness;
        if isOutRange {
          currentBrightness := toBrightness;
          changed := Some(currentBrightness);
          dimming := false;
        } else {
          currentBrightness := nextBrightness;
          changed := Some(currentBrightness);
          tasks := Submitted(tasks);
        }
      } else {
        currentBrightness := toBrightness;
        changed := Some(currentBrightness);
        dimming := false;
      }
    }

    /** The queue runs a pending task. */
    method Fire(task: nat) returns (changed: Option<uint32>)
      requires task in tasks.pending
      modifies this
      ensures Tick(State(), changed) == Ticked(old(State()), task)
    {
      tasks := Fired(tasks, task);
      changed := NextStep();
    }
  }
}
