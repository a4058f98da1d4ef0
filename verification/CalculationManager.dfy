/** The user's brightness offset on top of the curve (calculation_manager.cpp). */
module CalculationManagers {
  import opened Common
  import opened Points
  import opened CalculationCurves

  const DEFAULT_NO_OFFSET_LUX: real := -1.0
  const SMALL_VALUE: real := 0.000001
  const MIN_DEFAULT_BRIGHTNESS: real := 4.0
  const MAX_DEFAULT_BRIGHTNESS: real := 255.0
  const AMBIENT_VALID_MIN_LUX: real := 0.0
  const AMBIENT_VALID_MAX_LUX: real := 40000.0

  /**
   * The blending weights. The shipped code never assigns them, so they are zero there;
   * nor does it assign the exponent of the darkening power, so that power is always one.
   */
  datatype Alphas = Alphas(brightenRight: real, darkenLeft: real, brightenLeft: real)

  const SHIPPED_ALPHAS := Alphas(0.0, 0.0, 0.0)

  function RealMax(a: real, b: real): real {
    if a < b then b else a
  }

  function RealMin(a: real, b: real): real {
    if b < a then b else a
  }

  function Blend(weight: real, x: real, y: real): real {
    (1.0 - weight) * x + weight * y
  }

  /** Brightening from a raised start: the raise shrinks toward the maximum. */
  function BrightenOffsetBrightenRatio(w: Alphas, startOrig: real, endOrig: real, startNew: real, delta: real): real {
    var r := if RealAbs(MAX_DEFAULT_BRIGHTNESS - startOrig) < SMALL_VALUE then 1.0
             else (MAX_DEFAULT_BRIGHTNESS - endOrig) / (MAX_DEFAULT_BRIGHTNESS - startOrig);
    var target := Blend(w.brightenRight, RealMax(endOrig, startNew), delta * r + endOrig);
    var ratio := if RealAbs(delta) < SMALL_VALUE then 1.0 else (target - endOrig) / delta;
    if ratio < 0.0 then 0.0 else ratio
  }

  /** Brightening from a lowered start: the cut shrinks toward the maximum. */
  function DarkenOffsetBrightenRatio(startOrig: real, endOrig: real): real {
    var ratio := if RealAbs(MAX_DEFAULT_BRIGHTNESS - startOrig) < SMALL_VALUE then 1.0
                 else (MAX_DEFAULT_BRIGHTNESS - endOrig) / (MAX_DEFAULT_BRIGHTNESS - startOrig);
    if ratio < 0.0 then 0.0 else ratio
  }

  /** Darkening from a lowered start. */
  function DarkenOffsetDarkenRatio(w: Alphas, startOrig: real, endOrig: real, startNew: real, delta: real): real {
    var r := if RealAbs(startOrig - MIN_DEFAULT_BRIGHTNESS) < SMALL_VALUE then 1.0
             else (endOrig - MIN_DEFAULT_BRIGHTNESS) / (startOrig - MIN_DEFAULT_BRIGHTNESS);
    var target := Blend(w.darkenLeft, RealMin(endOrig, startNew), delta * r + endOrig);
    var ratio := if RealAbs(delta) < SMALL_VALUE then 1.0 else (target - endOrig) / delta;
    if ratio < 0.0 then 0.0 else ratio
  }

  /** Darkening from a raised start; the power with exponent zero is one. */
  function BrightenOffsetDarkenRatio(w: Alphas, startOrig: real, endOrig: real): real {
    if RealAbs(startOrig) < SMALL_VALUE then 1.0 else MixedRatio(w.brightenLeft, startOrig, endOrig)
  }

  function MixedRatio(weight: real, startOrig: real, endOrig: real): real
    requires startOrig != 0.0
  {
    weight * endOrig / startOrig + (1.0 - weight) * 1.0
  }

  /** The level with the offset applied, before clamping. */
  function Shifted(w: Alphas, startOrig: real, endOrig: real, startNew: real, delta: real): real {
    var ratio :=
      if startOrig < endOrig && delta > 0.0 then BrightenOffsetBrightenRatio(w, startOrig, endOrig, startNew, delta)
      else if startOrig < endOrig && delta < 0.0 then DarkenOffsetBrightenRatio(startOrig, endOrig)
      else if startOrig > endOrig && delta < 0.0 then DarkenOffsetDarkenRatio(w, startOrig, endOrig, startNew, delta)
      else if startOrig > endOrig && delta > 0.0 then BrightenOffsetDarkenRatio(w, startOrig, endOrig)
      else 1.0;
    ScaledShift(endOrig, delta, ratio)
  }

  function ScaledShift(endOrig: real, delta: real, ratio: real): real {
    endOrig + delta * ratio
  }

  function ClampLevel(level: real): (r: real)
    ensures MIN_DEFAULT_BRIGHTNESS <= r <= MAX_DEFAULT_BRIGHTNESS
  {
    RealMin(RealMax(MIN_DEFAULT_BRIGHTNESS, level), MAX_DEFAULT_BRIGHTNESS)
  }

  function OffsetLevel(w: Alphas, startOrig: real, endOrig: real, startNew: real, delta: real): real {
    ClampLevel(Shifted(w, startOrig, endOrig, startNew, delta))
  }

  datatype OffsetState = OffsetState(delta: real, offsetLux: real, position: real, offsetLast: real,
                                     lastDefault: real, startDefault: real, defaultFromLux: real)

  const NO_OFFSET := OffsetState(0.0, 0.0, 0.0, 0.0, 0.0, 0.0, 0.0)

  ghost function Reset(c: OffsetState): OffsetState {
    OffsetState(0.0, DEFAULT_NO_OFFSET_LUX, 0.0, 0.0, 0.0, 0.0, c.defaultFromLux)
  }

  /** The offset is dropped when no positive curve level was seen since the last reset. */
  ghost predicate Drops(c: OffsetState) {
    c.lastDefault <= 0.0 && c.position != 0.0
  }

  /** The level at a lux for a position, which need not be the stored one; the delta is the stored one. */
  ghost function LevelFor(c: OffsetState, w: Alphas, points: seq<PointXy>, position: real, lux: real): real {
    var level := CurveLevel(points, lux);
    if Drops(c) || position == 0.0 then level else OffsetLevel(w, c.startDefault, level, position, c.delta)
  }

  ghost function EvaluatedFor(c: OffsetState, w: Alphas, points: seq<PointXy>, position: real, lux: real): OffsetState {
    var level := CurveLevel(points, lux);
    (if Drops(c) then Reset(c) else c)
      .(defaultFromLux := level, lastDefault := level, offsetLast := LevelFor(c, w, points, position, lux))
  }

  ghost function LevelAt(c: OffsetState, w: Alphas, points: seq<PointXy>, lux: real): real {
    LevelFor(c, w, points, c.position, lux)
  }

  ghost function Evaluated(c: OffsetState, w: Alphas, points: seq<PointXy>, lux: real): OffsetState {
    EvaluatedFor(c, w, points, c.position, lux)
  }

  ghost predicate ValidAmbient(lux: real) {
    AMBIENT_VALID_MIN_LUX <= lux <= AMBIENT_VALID_MAX_LUX
  }

  ghost function Placed(c: OffsetState, points: seq<PointXy>, position: real, lux: real): OffsetState {
    if !ValidAmbient(lux) then c
    else if RealAbs(position) < SMALL_VALUE then Reset(c)
    else
      var start := CurveLevel(points, lux);
      c.(offsetLux := lux, startDefault := start, position := position, delta := position - start)
  }

  ghost function MovedTo(c: OffsetState, position: real): OffsetState {
    c.(position := position, offsetLast := position, delta := position - c.startDefault)
  }

  ghost function HumanFactored(c: OffsetState, enable: bool, min: int, max: int): OffsetState {
    if enable && RealAbs(c.position) > SMALL_VALUE then
      var d := if c.position < min as real then MovedTo(c, min as real) else c;
      if d.position > max as real then MovedTo(d, max as real) else d
    else c
  }

  class BrightnessCalculationManager {
    const weights: Alphas
    const curve: BrightnessCalculationCurve
    var delta: real
    var offsetLux: real
    var posBrightness: real
    var offsetBrightnessLast: real
    var lastLuxDefaultBrightness: real
    var startLuxDefaultBrightness: real
    var defaultBrightnessFromLux: real

    ghost function State(): OffsetState
      reads this
    {
      OffsetState(delta, offsetLux, posBrightness, offsetBrightnessLast, lastLuxDefaultBrightness,
                  startLuxDefaultBrightness, defaultBrightnessFromLux)
    }

    constructor (weights: Alphas, points: seq<PointXy>)
      ensures State() == NO_OFFSET && this.weights == weights && curve.points == points && fresh(curve)
    {
      this.weights := weights;
      curve := new BrightnessCalculationCurve(points);
      delta, offsetLux, posBrightness, offsetBrightnessLast := 0.0, 0.0, 0.0, 0.0;
      lastLuxDefaultBrightness, startLuxDefaultBrightness, defaultBrightnessFromLux := 0.0, 0.0, 0.0;
    }

    method ResetDefaultBrightnessOffset()
      modifies this
      ensures State() == Reset(old(State()))
    {
      offsetLux := DEFAULT_NO_OFFSET_LUX;
      delta := 0.0;
      offsetBrightnessLast := 0.0;
      lastLuxDefaultBrightness := 0.0;
      startLuxDefaultBrightness := 0.0;
      posBrightness := 0.0;
    }

    method GetInterpolatedBrightnessLevel(positionBrightness: real, lux: real) returns (level: real)
      modifies this
      ensures State() == EvaluatedFor(old(State()), weights, curve.points, positionBrightness, lux)
      ensures level == LevelFor(old(State()), weights, curve.points, positionBrightness, lux)
    {
      var position := positionBrightness;
      var fromLux := curve.GetCurrentBrightness(lux);
      defaultBrightnessFromLux := fromLux;
      if lastLuxDefaultBrightness <= 0.0 && posBrightness != 0.0 {
        position := 0.0;
        ResetDefaultBrightnessOffset();
      }
      if position == 0.0 {
        level := defaultBrightnessFromLux;
      } else {
        level := OffsetLevel(weights, startLuxDefaultBrightness, defaultBrightnessFromLux, position, delta);
      }
      lastLuxDefaultBrightness := defaultBrightnessFromLux;
      offsetBrightnessLast := level;
    }

    method GetInterpolatedValue(lux: real) returns (value: real)
      modifies this
      ensures State() == Evaluated(old(State()), weights, curve.points, lux)
      ensures value == LevelAt(old(State()), weights, curve.points, lux) / MAX_DEFAULT_BRIGHTNESS
    {
      var level := GetInterpolatedBrightnessLevel(posBrightness, lux);
      value := level / MAX_DEFAULT_BRIGHTNESS;
    }

    method UpdateBrightnessOffset(position: real, lux: real)
      modifies this
      ensures State() == Placed(old(State()), curve.points, position, lux)
    {
      if lux < AMBIENT_VALID_MIN_LUX || lux > AMBIENT_VALID_MAX_LUX {
        return;
      }
      if RealAbs(position) < SMALL_VALUE {
        ResetDefaultBrightnessOffset();
        return;
      }
      offsetLux := lux;
      var start := curve.GetCurrentBrightness(lux);
      startLuxDefaultBrightness := start;
      posBrightness := position;
      delta := posBrightness - startLuxDefaultBrightness;
    }

    method ResetOffsetFromHumanFactor(isOffsetResetEnable: bool, minOffsetBrightness: int, maxOffsetBrightness: int)
      modifies this
      ensures State() == HumanFactored(old(State()), isOffsetResetEnable, minOffsetBrightness, maxOffsetBrightness)
    {
      if isOffsetResetEnable && RealAbs(posBrightness) > SMALL_VALUE {
        if posBrightness < minOffsetBrightness as real {
          posBrightness := minOffsetBrightness as real;
          offsetBrightnessLast := minOffsetBrightness as real;
          delta := posBrightness - startLuxDefaultBrightness;
        }
        if posBrightness > maxOffsetBrightness as real {
          posBrightness := maxOffsetBrightness as real;
          offsetBrightnessLast := maxOffsetBrightness as real;
          delta := posBrightness - startLuxDefaultBrightness;
        }
      }
    }
  }
}
