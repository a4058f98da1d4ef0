/** Tables of (x, y) points read from configuration, and the piecewise-linear lookup done on them. */
module Points {
  import opened Common
  import opened Arithmetic

  const EPSILON: real := 0.0000001

  datatype PointXy = PointXy(x: real, y: real)

  predicate IsEqualF(a: real, b: real) {
    RealAbs(a - b) < EPSILON
  }

  /** The first point strictly to the right of `x`, or the number of points if there is none. */
  function FirstRightOf(points: seq<PointXy>, x: real): (k: nat)
    ensures k <= |points|
    ensures forall i :: 0 <= i < k ==> points[i].x <= x
    ensures k < |points| ==> x < points[k].x
  {
    if points == [] || x < points[0].x then 0 else 1 + FirstRightOf(points[1..], x)
  }

  lemma FirstRightOfIsUnique(points: seq<PointXy>, x: real, k: nat)
    requires k <= |points|
    requires forall i :: 0 <= i < k ==> points[i].x <= x
    requires k < |points| ==> x < points[k].x
    ensures FirstRightOf(points, x) == k
  {
  }

  /** The line through `p` and `q`, in the source's order of operations. */
  function OnLine(p: PointXy, q: PointXy, x: real): real
    requires p.x != q.x
  {
    (q.y - p.y) / (q.x - p.x) * (x - p.x) + p.y
  }

  /** Points too close together to divide by their distance, or running backwards. */
  predicate Degenerate(p: PointXy, q: PointXy) {
    q.x < p.x || IsEqualF(q.x, p.x)
  }

  /** x strictly increasing by at least EPSILON, y never decreasing. */
  ghost predicate Rising(points: seq<PointXy>) {
    && (forall i :: 0 < i < |points| ==> EPSILON <= points[i].x - points[i - 1].x)
    && (forall i :: 0 < i < |points| ==> points[i - 1].y <= points[i].y)
  }

  lemma {:induction false} RisingIsMonotone(points: seq<PointXy>, i: nat, j: nat)
    requires Rising(points) && i <= j < |points|
    ensures points[i].x <= points[j].x && points[i].y <= points[j].y
    decreases j - i
  {
    if i < j {
      RisingIsMonotone(points, i, j - 1);
    }
  }

  /** The value climbs from `p` to `q` in proportion to the way from `p.x` to `q.x`. */
  lemma LineIsLinear(p: PointXy, q: PointXy, x: real)
    requires p.x != q.x
    ensures (OnLine(p, q, x) - p.y) * (q.x - p.x) == (q.y - p.y) * (x - p.x)
  {
    var d, e, m := q.x - p.x, q.y - p.y, (q.y - p.y) / (q.x - p.x);
    TimesQuotient(d, e);
    assert m * (x - p.x) * d == d * m * (x - p.x);
  }

  /** Point `k` is the first to the right of `x`, and not the first of all. */
  ghost predicate Between(points: seq<PointXy>, x: real, k: nat) {
    0 < k < |points| && x < points[k].x && forall i :: 0 <= i < k ==> points[i].x <= x
  }

  lemma LineMeetsEnd(p: PointXy, q: PointXy)
    requires p.x < q.x
    ensures OnLine(p, q, p.x) == p.y && OnLine(p, q, q.x) == q.y
  {
    var d, e := q.x - p.x, q.y - p.y;
    assert e / d * d == e;
  }

  lemma LineIsMonotone(p: PointXy, q: PointXy, a: real, b: real)
    requires p.x < q.x && p.y <= q.y && a <= b
    ensures OnLine(p, q, a) <= OnLine(p, q, b)
  {
    var m := (q.y - p.y) / (q.x - p.x);
    assert 0.0 <= m;
    ProductRises(a - p.x, b - p.x, m);
  }

  lemma LineFalls(p: PointXy, q: PointXy, a: real, b: real)
    requires p.x < q.x && q.y <= p.y && a <= b
    ensures OnLine(p, q, b) <= OnLine(p, q, a)
  {
    var m := (q.y - p.y) / (q.x - p.x);
    assert m <= 0.0;
    ProductFalls(a - p.x, b - p.x, m);
  }

  lemma LineStaysBetween(p: PointXy, q: PointXy, x: real)
    requires p.x < q.x && p.y <= q.y && p.x <= x <= q.x
    ensures p.y <= OnLine(p, q, x) <= q.y
  {
    LineMeetsEnd(p, q);
    LineIsMonotone(p, q, p.x, x);
    LineIsMonotone(p, q, x, q.x);
  }
}
