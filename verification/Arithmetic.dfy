/** Facts about products and quotients that the solver does not find reliably by itself. */
module Arithmetic {

  lemma ScaleNat(s: nat, a: nat, b: nat)
    requires a <= b
    ensures s * a <= s * b
  {
  }

  lemma QuotientIsUnique(a: nat, s: nat, q: nat, r: nat)
    requires 0 < s && a == s * q + r && r < s
    ensures a / s == q && a % s == r
  {
    var p := a / s;
    if p < q {
      ScaleNat(s, p + 1, q);
      assert false;
    } else if q < p {
      ScaleNat(s, q + 1, p);
      assert false;
    }
  }

  lemma QuotientAtMost(a: nat, b: nat)
    requires 0 < b
    ensures 0 <= a / b <= a && b * (a / b) <= a
  {
    var q := a / b;
    assert a == b * q + a % b;
    ScaleNat(q, 1, b);
  }

  lemma QuotientPositive(a: nat, b: nat)
    requires 0 < b <= a
    ensures 1 <= a / b
  {
    assert a == b * (a / b) + a % b;
  }

  lemma DivideOutMultiple(a: nat, s: nat, n: nat)
    requires 0 < s && s * n <= a
    ensures (a - s * n) / s + n == a / s
  {
    var q, r := (a - s * n) / s, (a - s * n) % s;
    QuotientAtMost(a - s * n, s);
    assert a == s * q + r + s * n;
    assert s * q + s * n == s * (q + n);
    QuotientIsUnique(a, s, q + n, r);
  }

  lemma ProductRises(a: real, b: real, m: real)
    requires a <= b && 0.0 <= m
    ensures a * m <= b * m
  {
  }

  lemma ProductFalls(a: real, b: real, m: real)
    requires a <= b && m <= 0.0
    ensures b * m <= a * m
  {
  }

  lemma ProductOrder(a: real, b: real, m: real)
    requires 0.0 < m
    ensures a < b <==> a * m < b * m
  {
  }

  lemma ProductStaysBelow(d: real, r1: real, r2: real)
    requires 0.0 <= d && r1 <= r2 <= 1.0
    ensures d * r1 <= d * r2 <= d
  {
    ProductRises(r1, r2, d);
    ProductRises(r2, 1.0, d);
  }

  lemma ProductOfInts(a: int, b: int)
    ensures (a * b) as real == a as real * b as real
  {
  }

  lemma QuotientRises(a: real, b: real, d: real)
    requires a <= b && 0.0 < d
    ensures a / d <= b / d
  {
  }

  lemma TimesQuotient(d: real, t: real)
    requires d != 0.0
    ensures d * (t / d) == t
  {
  }

  lemma QuotientOfProduct(t: real, d: real)
    requires d != 0.0
    ensures t * d / d == t
  {
  }

  lemma SelfQuotient(d: real)
    requires d != 0.0
    ensures d / d == 1.0
  {
    QuotientOfProduct(1.0, d);
  }

  lemma FloorsInOrder(a: int, b: int, x: real, y: real)
    requires a as real <= x <= y < b as real + 1.0
    ensures a <= b
  {
    assert a as real < (b + 1) as real;
  }
}
