/** Smoothing, hysteresis and debouncing of ambient light readings (light_lux_manager.cpp). */
module LightLuxManagers {
  import opened Points
  import opened LightLuxBuffers

  const LIGHT_LUX_BUFFER_RANGE: int := 10000
  const LIGHT_MAX_LUX: real := 40000.0
  const LIGHT_LUX_BUFFER_MIN: nat := 5
  const INVALID_VALUE: real := -1.0
  const INVALID_TIME: int := -1

  datatype SceneMode = DefaultMode | GameMode | VideoMode

  /** The thresholds configured for one scene mode. */
  datatype Mode = Mode(brightenDebounceTime: int, darkenDebounceTime: int,
                       brightenPoints: seq<PointXy>, darkenPoints: seq<PointXy>)

  datatype LuxState = LuxState(raw: History, smooth: History, lux: real, smoothed: real, isFirstLux: bool,
                               filtered: real, brightenDelta: real, darkenDelta: real)

  datatype Outcome = Outcome(next: LuxState, updated: bool)

  const INITIAL: LuxState :=
    LuxState(History([], LUX_BUFFER_SIZE_DEFAULT), History([], LUX_BUFFER_SIZE_DEFAULT),
             0.0, 0.0, false, 0.0, 120.0, 110.0)

  function ValidLux(lux: real): (v: real)
    ensures 0.0 <= v <= LIGHT_MAX_LUX
    ensures 0.0 <= lux <= LIGHT_MAX_LUX ==> v == lux
  {
    if lux > LIGHT_MAX_LUX then LIGHT_MAX_LUX else if lux < 0.0 then 0.0 else lux
  }

  function ResponseTime(debounceTime: int): int {
    if debounceTime == INVALID_TIME then 0 else debounceTime
  }

  /** Truncation toward zero, as a C++ cast to `int` does. */
  function Truncate(r: real): int {
    if r < 0.0 then -((-r).Floor) else r.Floor
  }

  // ---------- smoothing ----------

  ghost function Sum(v: seq<real>): real {
    if v == [] then 0.0 else v[0] + Sum(v[1..])
  }

  ghost function Least(v: seq<real>): real
    requires v != []
  {
    if |v| == 1 || v[0] < Least(v[1..]) then v[0] else Least(v[1..])
  }

  ghost function Greatest(v: seq<real>): real
    requires v != []
  {
    if |v| == 1 || v[0] > Greatest(v[1..]) then v[0] else Greatest(v[1..])
  }

  /** Sum, least and greatest of the values from `k` on, by those of the values behind. */
  lemma PrefixedBy(v: seq<real>, k: nat)
    requires k < |v|
    ensures Sum(v[k..]) == v[k] + Sum(v[k + 1..])
    ensures Least(v[k..]) == if k + 1 == |v| || v[k] < Least(v[k + 1..]) then v[k] else Least(v[k + 1..])
    ensures Greatest(v[k..]) == if k + 1 == |v| || v[k] > Greatest(v[k + 1..]) then v[k] else Greatest(v[k + 1..])
  {
    assert v[k..][1..] == v[k + 1..];
  }

  /** The mean of five readings without the smallest and the largest. */
  ghost function TrimmedMean(v: seq<real>): real
    requires |v| == LIGHT_LUX_BUFFER_MIN
  {
    (Sum(v) - Least(v) - Greatest(v)) / 3.0
  }

  ghost function NewestFive(items: seq<Sample>): (v: seq<real>)
    requires |items| >= LIGHT_LUX_BUFFER_MIN
    ensures |v| == LIGHT_LUX_BUFFER_MIN
  {
    seq(LIGHT_LUX_BUFFER_MIN, i requires 0 <= i < LIGHT_LUX_BUFFER_MIN =>
      items[|items| - LIGHT_LUX_BUFFER_MIN + i].lux)
  }

  ghost function SmoothLux(items: seq<Sample>): real {
    if items == [] then INVALID_VALUE
    else if |items| < LIGHT_LUX_BUFFER_MIN then items[|items| - 1].lux
    else TrimmedMean(NewestFive(items))
  }

  // ---------- thresholds ----------

  /** The change of lux a table asks for before reacting, at the current lux. */
  ghost function Delta(points: seq<PointXy>, lux: real): real {
    if points == [] then INVALID_VALUE
    else
      var k := FirstRightOf(points, lux);
      if k == |points| then points[k - 1].y
      else if k == 0 || Degenerate(points[k - 1], points[k]) then 1.0
      else
        var d := OnLine(points[k - 1], points[k], lux);
        if d < 1.0 then 1.0 else d
  }

  ghost function UpdatedParams(s: LuxState, mode: Mode, lux: real): LuxState {
    var b := Delta(mode.brightenPoints, lux);
    var d := Delta(mode.darkenPoints, lux);
    s.(filtered := lux,
       brightenDelta := if b >= 0.0 then b else s.brightenDelta,
       darkenDelta := if d >= 0.0 then d else s.darkenDelta)
  }

  // ---------- debouncing ----------

  datatype Direction = Brighten | Darken

  /** The sample lies far enough above (or below) the filtered lux. */
  ghost predicate Qualifies(s: LuxState, dir: Direction, sample: Sample) {
    match dir
    case Brighten => s.brightenDelta <= sample.lux - s.filtered
    case Darken => s.darkenDelta <= s.filtered - sample.lux
  }

  /** Where the longest run of qualifying newest samples starts. */
  ghost function RunStart(s: LuxState, dir: Direction, items: seq<Sample>): (k: nat)
    ensures k <= |items|
    ensures forall i :: k <= i < |items| ==> Qualifies(s, dir, items[i])
    ensures k > 0 ==> !Qualifies(s, dir, items[k - 1])
  {
    if items == [] || !Qualifies(s, dir, items[|items| - 1]) then |items|
    else RunStart(s, dir, items[..|items| - 1])
  }

  ghost function Response(mode: Mode, dir: Direction): int {
    match dir
    case Brighten => ResponseTime(mode.brightenDebounceTime)
    case Darken => ResponseTime(mode.darkenDebounceTime)
  }

  ghost function NextTime(s: LuxState, mode: Mode, dir: Direction, now: int): int {
    var items := s.smooth.items;
    if items == [] then now
    else
      var k := RunStart(s, dir, items);
      (if k < |items| then items[k].time else now) + (if |items| == 1 then 0 else Response(mode, dir))
  }

  ghost predicate Due(s: LuxState, mode: Mode, dir: Direction, now: int) {
    NextTime(s, mode, dir, now) <= now
  }

  // ---------- one reading ----------

  ghost function Recorded(h: History, now: int, lux: real): History {
    Pushed(Pruned(h, now - LIGHT_LUX_BUFFER_RANGE), Sample(now, lux))
  }

  ghost function Smoothed(s: LuxState, now: int): LuxState {
    var x := SmoothLux(s.raw.items);
    s.(smoothed := x, isFirstLux := |s.raw.items| == 1, smooth := Recorded(s.smooth, now, x))
  }

  /** The smoothed reading is adopted when either direction is due, or as the first one. */
  ghost function Judged(t: LuxState, mode: Mode, now: int): Outcome {
    if Due(t, mode, Brighten, now) || Due(t, mode, Darken, now) || t.isFirstLux
    then Outcome(UpdatedParams(t, mode, t.smoothed), true)
    else Outcome(t, false)
  }

  ghost function Decided(s: LuxState, mode: Mode, now: int): Outcome {
    if SmoothLux(s.raw.items) < 0.0 then Outcome(s, false) else Judged(Smoothed(s, now), mode, now)
  }

  ghost function Reading(s: LuxState, mode: Mode, now: int, lux: real): Outcome {
    var v := ValidLux(lux);
    Decided(s.(lux := v, raw := Recorded(s.raw, now, v)), mode, now)
  }

  ghost function Cleared(s: LuxState): LuxState {
    s.(raw := s.raw.(items := []), smooth := s.smooth.(items := []))
  }

  class LightLuxManager {
    const modes: map<SceneMode, Mode>
    const luxBuffer: LightLuxBuffer
    const luxBufferFilter: LightLuxBuffer
    var lux: real
    var filteredLux: real
    var isFirstLux: bool
    var smoothedButNotStabledLux: real
    var brightenDelta: real
    var darkenDelta: real
    var currentSceneMode: SceneMode
    ghost var Repr: set<object>

    ghost predicate Valid()
      reads this, Repr
      ensures Valid() ==> this in Repr
    {
      && this in Repr
      && luxBuffer in Repr && luxBuffer.Repr <= Repr && this !in luxBuffer.Repr && luxBuffer.Valid()
      && luxBufferFilter in Repr && luxBufferFilter.Repr <= Repr && this !in luxBufferFilter.Repr
      && luxBufferFilter.Valid()
      && luxBuffer.Repr !! luxBufferFilter.Repr
      && currentSceneMode in modes
    }

    ghost function State(): LuxState
      reads this, Repr
      requires Valid()
    {
      LuxState(luxBuffer.Contents(), luxBufferFilter.Contents(), lux, smoothedButNotStabledLux, isFirstLux,
               filteredLux, brightenDelta, darkenDelta)
    }

    ghost function CurrentMode(): Mode
      reads this, Repr
      requires Valid()
    {
      modes[currentSceneMode]
    }

    constructor (config: map<SceneMode, Mode>)
      requires DefaultMode in config
      ensures Valid() && fresh(Repr)
      ensures State() == INITIAL && CurrentMode() == config[DefaultMode] && modes == config
    {
      modes := config;
      luxBuffer := new LightLuxBuffer(LUX_BUFFER_SIZE_DEFAULT);
      luxBufferFilter := new LightLuxBuffer(LUX_BUFFER_SIZE_DEFAULT);
      lux, filteredLux, isFirstLux, smoothedButNotStabledLux := 0.0, 0.0, false, 0.0;
      brightenDelta, darkenDelta := 120.0, 110.0;
      currentSceneMode := DefaultMode;
      new;
      Repr := {this} + luxBuffer.Repr + luxBufferFilter.Repr;
    }

    /** A mode missing from the configuration makes the source throw at the next lookup. */
    method SetSceneMode(mode: SceneMode)
      requires Valid() && mode in modes
      modifies this`currentSceneMode
      ensures Valid() && State() == old(State()) && CurrentMode() == modes[mode]
    {
      currentSceneMode := mode;
    }

    method UpdateLuxBuffer(timestamp: int, value: real)
      requires Valid()
      modifies Repr
      ensures Valid() && fresh(Repr - old(Repr))
      ensures State() == old(State()).(raw := Recorded(old(State()).raw, timestamp, value))
      ensures CurrentMode() == old(CurrentMode())
    {
      luxBuffer.Prune(timestamp - LIGHT_LUX_BUFFER_RANGE);
      luxBuffer.Push(timestamp, value);
      Repr := Repr + luxBuffer.Repr;
    }

    method CalcSmoothLux() returns (r: real)
      requires Valid()
      ensures r == SmoothLux(luxBuffer.items)
    {
      var size := luxBuffer.GetSize();
      if size == 0 {
        return INVALID_VALUE;
      }
      if size < LIGHT_LUX_BUFFER_MIN {
        return luxBuffer.GetData(size - 1);
      }
      ghost var v := NewestFive(luxBuffer.items);
      var sum := 0.0;
      var luxMin := luxBuffer.GetData(size - 1);
      var luxMax := luxBuffer.GetData(size - 1);
      var i := size;
      while i >= size - (LIGHT_LUX_BUFFER_MIN - 1)
        invariant size - LIGHT_LUX_BUFFER_MIN <= i <= size
        invariant var seen := v[i - (size - LIGHT_LUX_BUFFER_MIN)..];
                  && sum == Sum(seen)
                  && luxMin == (if seen == [] then v[LIGHT_LUX_BUFFER_MIN - 1] else Least(seen))
                  && luxMax == (if seen == [] then v[LIGHT_LUX_BUFFER_MIN - 1] else Greatest(seen))
      {
        var value := luxBuffer.GetData(i - 1);
        ghost var k := i - (size - LIGHT_LUX_BUFFER_MIN);
        assert value == v[k - 1];
        PrefixedBy(v, k - 1);
        if luxMin > value {
          luxMin := value;
        }
        if luxMax < value {
          luxMax := value;
        }
        sum := sum + value;
        i := i - 1;
      }
      assert v[0..] == v;
      r := (sum - luxMin - luxMax) / 3.0;
    }

    method GetNextBrightenTime(timestamp: int) returns (next: int)
      requires Valid()
      ensures next == NextTime(State(), CurrentMode(), Brighten, timestamp)
    {
      var size := luxBufferFilter.GetSize();
      if size == 0 {
        return timestamp;
      }
      var debounceTime := if size == 1 then 0 else ResponseTime(modes[currentSceneMode].brightenDebounceTime);
      var earliestValidTime := timestamp;
      ghost var items := luxBufferFilter.items;
      var i := size;
      while i >= 1
        invariant 0 <= i <= size
        invariant forall j :: i <= j < size ==> Qualifies(State(), Brighten, items[j])
        invariant earliestValidTime == if i < size then items[i].time else timestamp
      {
        if luxBufferFilter.GetData(i - 1) - filteredLux < brightenDelta {
          break;
        }
        earliestValidTime := luxBufferFilter.GetTime(i - 1);
        i := i - 1;
      }
      assert i == RunStart(State(), Brighten, items);
      next := earliestValidTime + debounceTime;
    }

    method GetNextDarkenTime(timestamp: int) returns (next: int)
      requires Valid()
      ensures next == NextTime(State(), CurrentMode(), Darken, timestamp)
    {
      var size := luxBufferFilter.GetSize();
      if size == 0 {
        return timestamp;
      }
      var debounceTime := if size == 1 then 0 else ResponseTime(modes[currentSceneMode].darkenDebounceTime);
      var earliestValidTime := timestamp;
      ghost var items := luxBufferFilter.items;
      var i := size;
      while i >= 1
        invariant 0 <= i <= size
        invariant forall j :: i <= j < size ==> Qualifies(State(), Darken, items[j])
        invariant earliestValidTime == if i < size then items[i].time else timestamp
      {
        if filteredLux - luxBufferFilter.GetData(i - 1) < darkenDelta {
          break;
        }
        earliestValidTime := luxBufferFilter.GetTime(i - 1);
        i := i - 1;
      }
      assert i == RunStart(State(), Darken, items);
      next := earliestValidTime + debounceTime;
    }

    method CalcDelta(points: seq<PointXy>) returns (delta: real)
      ensures delta == Delta(points, filteredLux)
    {
      if points == [] {
        return INVALID_VALUE;
      }
      delta := 0.0;
      var temp := points[0];
      var i := 0;
      while i < |points|
        invariant 0 <= i <= |points|
        invariant forall j :: 0 <= j < i ==> points[j].x <= filteredLux
        invariant temp == points[if i == 0 then 0 else i - 1]
        invariant i > 0 ==> delta == temp.y
      {
        var p := points[i];
        if filteredLux < p.x {
          FirstRightOfIsUnique(points, filteredLux, i);
          if p.x < temp.x || IsEqualF(p.x, temp.x) {
            delta := 1.0;
          } else {
            delta := OnLine(temp, p, filteredLux);
            delta := if delta < 1.0 then 1.0 else delta;
          }
          return;
        }
        temp := p;
        delta := p.y;
        i := i + 1;
      }
      FirstRightOfIsUnique(points, filteredLux, i);
    }

    method UpdateParam(value: real)
      requires Valid()
      modifies this`filteredLux, this`brightenDelta, this`darkenDelta
      ensures Valid() && State() == UpdatedParams(old(State()), CurrentMode(), value)
    {
      filteredLux := value;
      var delta := CalcDelta(modes[currentSceneMode].brightenPoints);
      if delta >= 0.0 {
        brightenDelta := delta;
      }
      delta := CalcDelta(modes[currentSceneMode].darkenPoints);
      if delta >= 0.0 {
        darkenDelta := delta;
      }
    }

    method IsUpdateLuxSuccess(timestamp: int) returns (updated: bool)
      requires Valid()
      modifies Repr
      ensures Valid() && fresh(Repr - old(Repr))
      ensures Outcome(State(), updated) == Decided(old(State()), old(CurrentMode()), timestamp)
      ensures CurrentMode() == old(CurrentMode())
    {
      var smoothLux := CalcSmoothLux();
      if smoothLux < 0.0 {
        return false;
      }
      RecordSmoothed(timestamp, smoothLux);
      updated := Judge(timestamp);
    }

    method Judge(timestamp: int) returns (updated: bool)
      requires Valid()
      modifies this`filteredLux, this`brightenDelta, this`darkenDelta
      ensures Valid() && Repr == old(Repr)
      ensures Outcome(State(), updated) == Judged(old(State()), CurrentMode(), timestamp)
    {
      var nextBrightenTime := GetNextBrightenTime(timestamp);
      var nextDarkenTime := GetNextDarkenTime(timestamp);
      if nextBrightenTime <= timestamp || nextDarkenTime <= timestamp || isFirstLux {
        UpdateParam(smoothedButNotStabledLux);
        return true;
      }
      return false;
    }

    method RecordSmoothed(timestamp: int, smoothLux: real)
      requires Valid() && smoothLux == SmoothLux(luxBuffer.items)
      modifies Repr
      ensures Valid() && fresh(Repr - old(Repr))
      ensures State() == Smoothed(old(State()), timestamp)
      ensures CurrentMode() == old(CurrentMode())
    {
      smoothedButNotStabledLux := smoothLux;
      isFirstLux := false;
      if luxBuffer.GetSize() == 1 {
        isFirstLux := true;
      }
      UpdateFilterBuffer(timestamp, smoothLux);
    }

    method UpdateFilterBuffer(timestamp: int, value: real)
      requires Valid()
      modifies Repr
      ensures Valid() && fresh(Repr - old(Repr))
      ensures State() == old(State()).(smooth := Recorded(old(State()).smooth, timestamp, value))
      ensures CurrentMode() == old(CurrentMode())
    {
      luxBufferFilter.Prune(timestamp - LIGHT_LUX_BUFFER_RANGE);
      luxBufferFilter.Push(timestamp, value);
      Repr := Repr + luxBufferFilter.Repr;
    }

    method RecordReading(value: real, currentTime: int)
      requires Valid()
      modifies Repr
      ensures Valid() && fresh(Repr - old(Repr)) && CurrentMode() == old(CurrentMode())
      ensures State() == old(State()).(lux := ValidLux(value),
                                       raw := Recorded(old(State()).raw, currentTime, ValidLux(value)))
    {
      UpdateLuxBuffer(currentTime, ValidLux(value));
      lux := ValidLux(value);
    }

    /** The source reads the clock itself; here it is passed in. */
    method IsNeedUpdateBrightness(value: real, currentTime: int) returns (updated: bool)
      requires Valid()
      modifies Repr
      ensures Valid() && fresh(Repr - old(Repr))
      ensures Outcome(State(), updated) == Reading(old(State()), old(CurrentMode()), currentTime, value)
      ensures CurrentMode() == old(CurrentMode())
    {
      RecordReading(value, currentTime);
      updated := IsUpdateLuxSuccess(currentTime);
    }

    method SetLux(value: real, currentTime: int)
      requires Valid()
      modifies Repr
      ensures Valid() && fresh(Repr - old(Repr))
      ensures State() == Reading(old(State()), old(CurrentMode()), currentTime, value).next
      ensures CurrentMode() == old(CurrentMode())
    {
      RecordReading(value, currentTime);
      var _ := IsUpdateLuxSuccess(currentTime);
    }

    method ClearLuxData()
      requires Valid()
      modifies Repr
      ensures Valid() && fresh(Repr - old(Repr))
      ensures State() == Cleared(old(State())) && CurrentMode() == old(CurrentMode())
    {
      luxBuffer.Clear();
      luxBufferFilter.Clear();
    }

    /** The filtered lux without its fraction. */
    function GetSmoothedLux(): real
      reads this
    {
      Truncate(filteredLux) as real
    }
  }
}
