/** The configured curve from ambient light to brightness (calculation_curve.cpp). */
module CalculationCurves {
  import opened Points

  const DEFAULT_BRIGHTNESS: real := 100.0

  ghost function CurveLevel(points: seq<PointXy>, lux: real): real {
    var k := FirstRightOf(points, lux);
    if points == [] then DEFAULT_BRIGHTNESS
    else if k == |points| then points[k - 1].y
    else if k == 0 || Degenerate(points[k - 1], points[k]) then DEFAULT_BRIGHTNESS
    else OnLine(points[k - 1], points[k], lux)
  }

  class BrightnessCalculationCurve {
    const points: seq<PointXy>

    constructor (points: seq<PointXy>)
      ensures this.points == points
    {
      this.points := points;
    }

    method GetCurrentBrightness(lux: real) returns (brightness: real)
      ensures brightness == CurveLevel(points, lux)
    {
      if |points| == 0 {
        return DEFAULT_BRIGHTNESS;
      }
      brightness := GetBrightnessCurveLevel(lux);
    }

    method GetBrightnessCurveLevel(lux: real) returns (brightnessLevel: real)
      ensures brightnessLevel == CurveLevel(points, lux)
    {
      brightnessLevel := DEFAULT_BRIGHTNESS;
      if points == [] {
        return;
      }
      var prePoint := points[0];
      var i := 0;
      while i < |points|
        invariant 0 <= i <= |points|
        invariant forall j :: 0 <= j < i ==> points[j].x <= lux
        invariant prePoint == points[if i == 0 then 0 else i - 1]
        invariant i > 0 ==> brightnessLevel == prePoint.y
      {
        var point := points[i];
        if lux < point.x {
          FirstRightOfIsUnique(points, lux, i);
          if point.x < prePoint.x || IsEqualF(point.x, prePoint.x) {
            brightnessLevel := DEFAULT_BRIGHTNESS;
          } else {
            brightnessLevel := OnLine(prePoint, point, lux);
          }
          return;
        }
        prePoint := point;
        brightnessLevel := prePoint.y;
        i := i + 1;
      }
      FirstRightOfIsUnique(points, lux, i);
    }
  }

  /** Between two points the level is on the line through them; points too close together give the default. */
  lemma CurveIsLinear(points: seq<PointXy>, lux: real, k: nat)
    requires Between(points, lux, k)
    ensures var p, q, level := points[k - 1], points[k], CurveLevel(points, lux);
            if q.x - p.x < 0.0000001 then level == 100.0
            else (level - p.y) * (q.x - p.x) == (q.y - p.y) * (lux - p.x)
  {
    FirstRightOfIsUnique(points, lux, k);
    LineIsLinear(points[k - 1], points[k], lux);
  }

  /** Elsewhere it is the default before the first point, and the last point's level behind the last. */
  lemma CurveOutside(points: seq<PointXy>, lux: real)
    ensures points == [] || lux < points[0].x ==> CurveLevel(points, lux) == 100.0
    ensures points != [] && (forall i :: 0 <= i < |points| ==> points[i].x <= lux) ==>
              CurveLevel(points, lux) == points[|points| - 1].y
  {
    if points != [] && forall i :: 0 <= i < |points| ==> points[i].x <= lux {
      FirstRightOfIsUnique(points, lux, |points|);
    }
  }

  /** From the first point on, a rising curve lies between the two points around the lux. */
  lemma CurveStaysInSegment(points: seq<PointXy>, lux: real)
    requires Rising(points) && points != [] && points[0].x <= lux
    ensures var k := FirstRightOf(points, lux);
            && 0 < k
            && points[k - 1].y <= CurveLevel(points, lux)
            && (k < |points| ==>
                  && CurveLevel(points, lux) == OnLine(points[k - 1], points[k], lux)
                  && CurveLevel(points, lux) <= points[k].y)
            && (k == |points| ==> CurveLevel(points, lux) == points[k - 1].y)
  {
    var k := FirstRightOf(points, lux);
    if k < |points| {
      LineStaysBetween(points[k - 1], points[k], lux);
    }
  }

  lemma CurveIsMonotone(points: seq<PointXy>, a: real, b: real)
    requires Rising(points) && points != [] && points[0].x <= a <= b
    ensures CurveLevel(points, a) <= CurveLevel(points, b)
  {
    CurveStaysInSegment(points, a);
    CurveStaysInSegment(points, b);
    var j, k := FirstRightOf(points, a), FirstRightOf(points, b);
    if k < j {
      assert false;
    } else if j < k {
      RisingIsMonotone(points, j, k - 1);
    } else if k < |points| {
      LineIsMonotone(points[k - 1], points[k], a, b);
    }
  }

  ghost predicate MonotoneOnLux(points: seq<PointXy>) {
    forall a, b :: 0.0 <= a <= b ==> CurveLevel(points, a) <= CurveLevel(points, b)
  }

  /** Left of its first point the curve answers with the default level; this start does not fall below it. */
  ghost predicate StartsSmoothly(points: seq<PointXy>)
    requires points != []
  {
    points[0].x <= 0.0 || DEFAULT_BRIGHTNESS <= points[0].y
  }

  lemma CurveIsMonotoneFromZero(points: seq<PointXy>, a: real, b: real)
    requires Rising(points) && points != [] && 0.0 <= a <= b
    requires points[0].x <= a || StartsSmoothly(points)
    ensures CurveLevel(points, a) <= CurveLevel(points, b)
  {
    if points[0].x <= a {
      CurveIsMonotone(points, a, b);
    } else if points[0].x <= b {
      CurveIsMonotone(points, points[0].x, b);
      CurveAtFirstPoint(points);
    }
  }

  /** A rising curve is monotone over all valid lux exactly when it starts at zero or no lower than the default. */
  lemma MonotoneExactlyWhen(points: seq<PointXy>)
    requires Rising(points) && points != []
    ensures MonotoneOnLux(points) <==> StartsSmoothly(points)
  {
    if 0.0 < points[0].x {
      assert CurveLevel(points, 0.0) == DEFAULT_BRIGHTNESS;
      CurveAtFirstPoint(points);
    }
    if StartsSmoothly(points) {
      forall a, b | 0.0 <= a <= b ensures CurveLevel(points, a) <= CurveLevel(points, b) {
        CurveIsMonotoneFromZero(points, a, b);
      }
    }
  }

  lemma CurveAtFirstPoint(points: seq<PointXy>)
    requires Rising(points) && points != []
    ensures CurveLevel(points, points[0].x) == points[0].y
  {
    FirstRightOfIsUnique(points, points[0].x, 1);
    if |points| > 1 {
      LineMeetsEnd(points[0], points[1]);
    }
  }

  /** All levels lie in (0, 255]. */
  ghost predicate Visible(points: seq<PointXy>) {
    forall i :: 0 <= i < |points| ==> 0.0 < points[i].y <= 255.0
  }

  lemma LineStaysVisible(p: PointXy, q: PointXy, x: real)
    requires p.x < q.x && p.x <= x <= q.x && 0.0 < p.y <= 255.0 && 0.0 < q.y <= 255.0
    ensures 0.0 < OnLine(p, q, x) <= 255.0
  {
    if p.y <= q.y {
      LineStaysBetween(p, q, x);
    } else {
      LineMeetsEnd(p, q);
      LineFalls(p, q, p.x, x);
      LineFalls(p, q, x, q.x);
    }
  }

  lemma CurveStaysVisible(points: seq<PointXy>, lux: real)
    requires Visible(points)
    ensures 0.0 < CurveLevel(points, lux) <= 255.0
  {
    var k := FirstRightOf(points, lux);
    if 0 < k < |points| && !Degenerate(points[k - 1], points[k]) {
      LineStaysVisible(points[k - 1], points[k], lux);
    }
  }
}
