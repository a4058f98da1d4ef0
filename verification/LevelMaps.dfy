/**
 * The maps between the levels users see and the levels the device takes
 * (brightness_service.cpp), for any tops of the two ranges.
 */
module LevelMaps {
  import opened Common
  import opened Arithmetic

  const MAX_DEFAULT_LEVEL: uint32 := 255
  const MAX_MAPPING_LEVEL: uint32 := 223
  const MIN_LEVEL: uint32 := 1

  /** The tops of the default and of the mapping range. */
  datatype Ranges = Ranges(top: nat, mapTop: nat) {
    ghost predicate Valid() { 2 <= mapTop <= top < TWO_TO_THE_31 }
  }

  const SHIPPED := Ranges(MAX_DEFAULT_LEVEL, MAX_MAPPING_LEVEL)

  function ClampTo(level: nat, top: nat): nat {
    if level < MIN_LEVEL then MIN_LEVEL else if level > top then top else level
  }

  /** Rounds `level`, counted from 1 to `fromTop`, to the nearest level counted from 1 to `toTop`. */
  function Rescaled(level: nat, fromTop: nat, toTop: nat): (r: nat)
    requires 2 <= fromTop && 2 <= toTop && 1 <= level
  {
    Floor15(Scaled((level - 1) as real, (toTop - 1) as real, (fromTop - 1) as real))
  }

  function Scaled(x: real, m: real, d: real): (r: real)
    requires 0.0 <= x && 0.0 < m && 0.0 < d
    ensures 0.0 <= r
  {
    x * m / d
  }

  /** Adds the minimum level and one half, and cuts off the fraction. */
  function Floor15(x: real): (r: nat)
    requires 0.0 <= x
    ensures r as real <= x + 1.5 < r as real + 1.0
  {
    (x + MIN_LEVEL as real + 0.5).Floor
  }

  function ToDevice(ranges: Ranges, minParam: nat, level: nat): nat
    requires ranges.Valid()
  {
    var out := Rescaled(ClampTo(level, ranges.top), ranges.top, ranges.mapTop);
    if out < minParam then minParam else out
  }

  function ToSetting(ranges: Ranges, level: nat): nat
    requires ranges.Valid()
  {
    Rescaled(ClampTo(level, ranges.mapTop), ranges.mapTop, ranges.top)
  }

  lemma ScaledRises(x: real, y: real, m: real, d: real)
    requires 0.0 <= x <= y && 0.0 < m && 0.0 < d
    ensures Scaled(x, m, d) <= Scaled(y, m, d)
  {
    ProductRises(x, y, m);
    QuotientRises(x * m, y * m, d);
  }

  lemma ScaledEnds(m: real, d: real)
    requires 0.0 < m && 0.0 < d
    ensures Scaled(0.0, m, d) == 0.0 && Scaled(d, m, d) == m
  {
    QuotientOfProduct(m, d);
    assert d * m == m * d;
  }

  lemma Floor15Rises(x: real, y: real)
    requires 0.0 <= x <= y
    ensures Floor15(x) <= Floor15(y)
  {
    FloorsInOrder(Floor15(x), Floor15(y), x + 1.5, y + 1.5);
  }

  lemma Floor15OfNat(n: nat)
    ensures Floor15(n as real) == n + 1
  {
  }

  lemma Floor15IsNear(x: real)
    requires 0.0 <= x
    ensures x - 0.5 < (Floor15(x) - 1) as real <= x + 0.5
  {
    assert (Floor15(x) - 1) as real == Floor15(x) as real - 1.0;
  }

  /** The level is the one nearest to the exact one, the higher of two equally near. */
  lemma RescaledIsNearest(level: nat, fromTop: nat, toTop: nat)
    requires 2 <= fromTop && 2 <= toTop && 1 <= level
    ensures var from, to := fromTop - 1, toTop - 1;
            var off := (level - 1) * to - (Rescaled(level, fromTop, toTop) - 1) * from;
            -from <= 2 * off < from
  {
    RoundedIsNearest(level - 1, fromTop - 1, toTop - 1);
  }

  lemma ScaledTimes(x: real, m: real, d: real)
    requires 0.0 <= x && 0.0 < m && 0.0 < d
    ensures Scaled(x, m, d) * d == x * m
  {
    TimesQuotient(d, x * m);
  }

  lemma RoundedIsNearest(l: int, from: int, to: int)
    requires 0 <= l && 0 < from && 0 < to
    ensures -from <= 2 * (l * to - (Floor15(Scaled(l as real, to as real, from as real)) - 1) * from) < from
  {
    var x := Scaled(l as real, to as real, from as real);
    var r := Floor15(x) - 1;
    var a, b := l * to, r * from;
    ScaledTimes(l as real, to as real, from as real);
    ProductOfInts(l, to);
    ProductOfInts(r, from);
    assert r as real - 0.5 <= x < r as real + 0.5;
    HalfAround(x, r as real, from as real, a as real, b as real);
    WholeWithin(a, b, from);
  }

  lemma WholeWithin(a: int, b: int, m: int)
    requires 2.0 * b as real - m as real <= 2.0 * a as real < 2.0 * b as real + m as real
    ensures -m <= 2 * (a - b) < m
  {
    assert (2 * b - m) as real <= (2 * a) as real < (2 * b + m) as real;
  }

  lemma HalfAround(x: real, r: real, m: real, xm: real, rm: real)
    requires r - 0.5 <= x < r + 0.5 && 0.0 < m && xm == x * m && rm == r * m
    ensures 2.0 * rm - m <= 2.0 * xm < 2.0 * rm + m
  {
    var above, below := r + 0.5 - x, x - r + 0.5;
    assert 0.0 < above * m && 0.0 <= below * m;
    assert above * m == rm + 0.5 * m - xm;
    assert below * m == xm - rm + 0.5 * m;
  }

  lemma RescaledRises(a: nat, b: nat, fromTop: nat, toTop: nat)
    requires 2 <= fromTop && 2 <= toTop && 1 <= a <= b
    ensures Rescaled(a, fromTop, toTop) <= Rescaled(b, fromTop, toTop)
  {
    var m, d := (toTop - 1) as real, (fromTop - 1) as real;
    ScaledRises((a - 1) as real, (b - 1) as real, m, d);
    Floor15Rises(Scaled((a - 1) as real, m, d), Scaled((b - 1) as real, m, d));
  }

  lemma RescaledEnds(fromTop: nat, toTop: nat)
    requires 2 <= fromTop && 2 <= toTop
    ensures Rescaled(1, fromTop, toTop) == 1 && Rescaled(fromTop, fromTop, toTop) == toTop
  {
    ScaledEnds((toTop - 1) as real, (fromTop - 1) as real);
    Floor15OfNat(0);
    Floor15OfNat(toTop - 1);
  }

  lemma RescaledInRange(level: nat, fromTop: nat, toTop: nat)
    requires 2 <= fromTop && 2 <= toTop && 1 <= level <= fromTop
    ensures 1 <= Rescaled(level, fromTop, toTop) <= toTop
  {
    RescaledEnds(fromTop, toTop);
    RescaledRises(1, level, fromTop, toTop);
    RescaledRises(level, fromTop, fromTop, toTop);
  }

  /** Levels from 1 to 255 map to the nearest of 1 to 223, and back; others as the nearest end of their range. */
  lemma ShippedMapsAreNearest(minParam: nat, level: nat)
    ensures var l, d := Max(1, Min(level, 255)), ToDevice(SHIPPED, 0, level);
            && -254 <= 2 * ((l - 1) * 222 - (d - 1) * 254) < 254
            && ToDevice(SHIPPED, minParam, level) == Max(d, minParam)
    ensures var m, back := Max(1, Min(level, 223)), ToSetting(SHIPPED, level);
            -222 <= 2 * ((m - 1) * 254 - (back - 1) * 222) < 222
  {
    RescaledIsNearest(Max(1, Min(level, 255)), 255, 223);
    RescaledIsNearest(Max(1, Min(level, 223)), 223, 255);
  }

  /** More brightness never maps to a lower device level. */
  lemma ToDeviceIsMonotone(ranges: Ranges, minParam: nat, a: nat, b: nat)
    requires ranges.Valid() && a <= b
    ensures ToDevice(ranges, minParam, a) <= ToDevice(ranges, minParam, b)
  {
    RescaledRises(ClampTo(a, ranges.top), ClampTo(b, ranges.top), ranges.top, ranges.mapTop);
  }

  lemma ToDeviceInRange(ranges: Ranges, minParam: nat, level: nat)
    requires ranges.Valid()
    ensures Max(1, minParam) <= ToDevice(ranges, minParam, level) <= Max(ranges.mapTop, minParam)
  {
    RescaledInRange(ClampTo(level, ranges.top), ranges.top, ranges.mapTop);
  }

  /** Stretching by `d / m`, moving by at most one half, and shrinking again loses less than one half. */
  lemma ScaledBack(l: real, k: real, m: real, d: real)
    requires 0.0 <= l && 0.0 <= k && 0.0 < m < d
    requires Scaled(l, d, m) - 0.5 < k <= Scaled(l, d, m) + 0.5
    ensures l - 0.5 <= Scaled(k, m, d) < l + 0.5
  {
    var x, q := Scaled(l, d, m), m / d;
    RatioBelowOne(m, d);
    assert Scaled(k, m, d) == k * q;
    assert x * q == l by {
      TimesQuotient(m, l * d);
      assert x * q == x * m / d;
      QuotientOfProduct(l, d);
    }
    assert k * q == l + (k - x) * q;
    ProductRises(k - x, 0.5, q);
    ProductRises(-0.5, k - x, q);
  }

  lemma RatioBelowOne(m: real, d: real)
    requires 0.0 < m < d
    ensures 0.0 < m / d < 1.0
  {
    var q := m / d;
    TimesQuotient(d, m);
    if 1.0 <= q {
      ProductRises(1.0, q, d);
      assert false;
    }
  }

  lemma Floor15Within(x: real, n: nat)
    requires 0.0 <= x && n as real - 0.5 <= x < n as real + 0.5
    ensures Floor15(x) == n + 1
  {
  }

  lemma RescaledToSame(level: nat, top: nat)
    requires 2 <= top && 1 <= level
    ensures Rescaled(level, top, top) == level
  {
    var x, d := (level - 1) as real, (top - 1) as real;
    QuotientOfProduct(x, d);
    assert Scaled(x, d, d) == x;
    Floor15OfNat(level - 1);
  }

  /** Stretching a level and shrinking it back is exact. */
  lemma ShrinkUndoesStretch(level: nat, mapTop: nat, top: nat)
    requires 2 <= mapTop <= top && 1 <= level <= mapTop
    ensures Rescaled(Rescaled(level, mapTop, top), top, mapTop) == level
  {
    RescaledInRange(level, mapTop, top);
    if top == mapTop {
      RescaledToSame(level, top);
    } else {
      var l, m, d := (level - 1) as real, (mapTop - 1) as real, (top - 1) as real;
      var k := (Rescaled(level, mapTop, top) - 1) as real;
      Floor15IsNear(Scaled(l, d, m));
      ScaledBack(l, k, m, d);
      Floor15Within(Scaled(k, m, d), level - 1);
    }
  }

  /** Mapping after un-mapping is the identity on the device's own levels. */
  lemma ToDeviceUndoesToSetting(ranges: Ranges, minParam: nat, level: nat)
    requires ranges.Valid() && 1 <= level <= ranges.mapTop
    ensures ToDevice(ranges, minParam, ToSetting(ranges, level)) == Max(level, minParam)
  {
    RescaledInRange(level, ranges.mapTop, ranges.top);
    ShrinkUndoesStretch(level, ranges.mapTop, ranges.top);
  }

  /** Writing back the setting that belongs to a device level again and again does not drift. */
  lemma SettingDoesNotDrift(ranges: Ranges, minParam: nat, level: nat)
    requires ranges.Valid() && minParam <= ranges.mapTop
    ensures var written := ToSetting(ranges, ToDevice(ranges, minParam, level));
            ToSetting(ranges, ToDevice(ranges, minParam, written)) == written
  {
    ToDeviceInRange(ranges, minParam, level);
    ToDeviceUndoesToSetting(ranges, minParam, ToDevice(ranges, minParam, level));
  }
}
