/** The 32-bit arithmetic that both animators use to choose a stride and a number of steps. */
module Strides {
  import opened Common
  import opened Arithmetic

  const STRIDE_ABSOLUTE_MIN: int := 1

  function WrapU32(x: int): uint32 {
    x % TWO_TO_THE_32
  }

  function WrapI32(x: int): (r: int)
    ensures -TWO_TO_THE_31 <= r < TWO_TO_THE_31
  {
    var u := x % TWO_TO_THE_32;
    if u < TWO_TO_THE_31 then u else u - TWO_TO_THE_32
  }

  /** Division that truncates toward zero, by a positive number. */
  function TruncatingDiv(a: int, b: int): (q: int)
    requires b > 0
    ensures Abs(q) == Abs(a) / b
    ensures q > 0 ==> a > 0
    ensures q < 0 ==> a < 0
  {
    QuotientAtMost(Abs(a), b);
    if a < 0 then -(Abs(a) / b) else Abs(a) / b
  }

  /** The steps that fit in the duration, at least one. */
  function StepsIn(duration: uint32, updateTime: uint32): (n: uint32)
    requires updateTime > 0
    ensures 1 <= n
    ensures updateTime > 1 ==> n < TWO_TO_THE_31
  {
    if duration / updateTime < 1 then 1 else duration / updateTime
  }

  /** They fill the duration up to less than one update interval; a shorter duration has a single one. */
  lemma StepsFillDuration(duration: uint32, updateTime: uint32)
    requires 0 < updateTime
    ensures var n := StepsIn(duration, updateTime);
            if duration < updateTime then n == 1 else n * updateTime <= duration < (n + 1) * updateTime
  {
    var n := duration / updateTime;
    assert duration == updateTime * n + duration % updateTime;
    if duration < updateTime {
      QuotientIsUnique(duration, updateTime, 0, duration);
    } else {
      QuotientPositive(duration, updateTime);
    }
    assert (n + 1) * updateTime == n * updateTime + updateTime;
  }

  /** A wrapped addition is exact when the sum fits. */
  lemma WrappedSum(x: uint32, s: int)
    requires 0 <= x + s < TWO_TO_THE_32
    ensures WrapU32(x + WrapU32(s)) == x + s
  {
  }

  /** An animation that starts at `from` and aims at `to` without leaving the 31-bit range. */
  ghost predicate Animation(from: uint32, to: uint32) {
    from != to && from < TWO_TO_THE_31 && to < TWO_TO_THE_31
  }

  function Change(from: uint32, to: uint32): int {
    WrapI32(WrapI32(to) - WrapI32(from))
  }

  lemma ChangeIsExact(from: uint32, to: uint32)
    requires from < TWO_TO_THE_31 && to < TWO_TO_THE_31
    ensures Change(from, to) == to - from
  {
  }

  lemma ChangeVanishes(from: uint32, to: uint32)
    ensures Change(from, to) == 0 <==> from == to
  {
  }

  /** The stride points toward the target and is never zero. */
  function Stride(change: int, steps: uint32): (s: int)
    requires change != 0 && 0 < steps
    ensures Abs(s) == Max(Abs(change) / steps, STRIDE_ABSOLUTE_MIN)
    ensures s > 0 <==> change > 0
  {
    var s := TruncatingDiv(change, steps);
    if Abs(s) < STRIDE_ABSOLUTE_MIN then (if change > 0 then 1 else -1) * STRIDE_ABSOLUTE_MIN else s
  }

  /** A stride times the steps covers the change up to less than one unit a step, if there is a unit for each. */
  lemma ShareOfChange(change: int, steps: uint32)
    requires change != 0 && 0 < steps
    ensures var c, s := Abs(change), Abs(Stride(change, steps));
            if c < steps then s == 1 else s * steps <= c < (s + 1) * steps
  {
    var c, q := Abs(change), Abs(change) / steps;
    assert c == steps * q + c % steps;
    if c < steps {
      QuotientIsUnique(c, steps, 0, c);
    } else {
      QuotientPositive(c, steps);
    }
    assert (q + 1) * steps == q * steps + steps;
  }

  /** The corrected number of steps, every operation wrapping at 32 bits as written. */
  function AdjustedSteps(change: int, stride: int, steps: uint32): uint32
    requires stride != 0
  {
    if steps > 1 && Abs(stride) >= 1 then Corrected(Abs(change), Abs(stride), steps) else steps
  }

  function Corrected(change: nat, stride: nat, steps: uint32): uint32
    requires 0 < stride
  {
    WrapU32(WrapU32(change - WrapU32(stride * steps)) / stride + steps)
  }

  /** Fewer units than steps: the difference wraps below zero, and the sum wraps back. */
  lemma CorrectedShortChange(change: nat, steps: uint32)
    requires change < steps < TWO_TO_THE_31
    ensures Corrected(change, 1, steps) == change
  {
    assert WrapU32(change - steps) == change - steps + TWO_TO_THE_32;
    assert WrapU32(change + TWO_TO_THE_32) == change;
  }

  lemma CorrectedLongChange(change: nat, stride: nat, steps: uint32)
    requires 0 < stride && stride * steps <= change <= TWO_TO_THE_31
    ensures Corrected(change, stride, steps) == change / stride
  {
    DivideOutMultiple(change, stride, steps);
    QuotientAtMost(change, stride);
    assert WrapU32(stride * steps) == stride * steps;
    assert WrapU32(change - stride * steps) == change - stride * steps;
    assert WrapU32(change / stride) == change / stride;
  }

  /**
   * Even where the difference wraps below zero, the corrected number of steps
   * is how often the stride fits into the change.
   */
  lemma AdjustedStepsFit(change: int, steps: uint32)
    requires change != 0 && Abs(change) <= TWO_TO_THE_31 && 1 <= steps < TWO_TO_THE_31
    ensures var s := Stride(change, steps); AdjustedSteps(change, s, steps) == Abs(change) / Abs(s)
  {
    var c, s := Abs(change), Abs(Stride(change, steps));
    if steps == 1 {
      assert c / 1 == c == s;
      QuotientIsUnique(c, s, 1, 0);
    } else if c < steps {
      QuotientIsUnique(c, steps, 0, c);
      CorrectedShortChange(c, steps);
    } else {
      QuotientAtMost(c, steps);
      if s == 1 {
        QuotientIsUnique(c, 1, c, 0);
      }
      assert c / steps >= 1 by {
        QuotientPositive(c, steps);
      }
      CorrectedLongChange(c, s, steps);
    }
  }

  function CeilDiv(a: nat, b: nat): nat
    requires b > 0
  {
    (a + b - 1) / b
  }

  /** How often a stride fits, and how many ticks a run of that stride takes. */
  lemma CeilDivMeans(a: nat, b: nat)
    requires 0 < b
    ensures var n := CeilDiv(a, b); b * (a / b) <= a && a <= b * n && (0 < a ==> 0 < n && b * (n - 1) < a)
    ensures CeilDiv(a, b) == a / b + if a == b * (a / b) then 0 else 1
  {
    var q, r := a / b, a % b;
    assert a == b * q + r;
    if r == 0 {
      QuotientIsUnique(a + b - 1, b, q, b - 1);
    } else {
      assert b * (q + 1) == b * q + b;
      QuotientIsUnique(a + b - 1, b, q + 1, r - 1);
    }
    assert 0 < q ==> b * (q - 1) == b * q - b;
  }

  // ---------- multiples of a stride on the way to a change of the same sign ----------

  ghost predicate Toward(s: int, change: int) {
    s != 0 && change != 0 && (s > 0 <==> change > 0)
  }

  ghost function TickCount(change: int, s: int): nat
    requires s != 0
  {
    CeilDiv(Abs(change), Abs(s))
  }

  lemma SignedMultiple(s: int, k: nat)
    ensures k * s == if s > 0 then Abs(s) * k else -(Abs(s) * k)
  {
  }

  lemma MultiplesFit(change: int, s: int, k: nat)
    requires Toward(s, change) && k < TickCount(change, s)
    ensures if s > 0 then 0 <= k * s < change else change < k * s <= 0
  {
    var n, m := TickCount(change, s), Abs(s);
    CeilDivMeans(Abs(change), m);
    ScaleNat(m, k, n - 1);
    SignedMultiple(s, k);
  }

  lemma LastMultipleFits(c: nat, m: nat)
    requires 0 < c && 0 < m
    ensures var n, fit := CeilDiv(c, m), c / m;
            && 1 <= n && fit <= n <= fit + 1
            && (n == fit ==> m * n == c)
            && c - m <= m * (n - 1) <= c
  {
    var n := CeilDiv(c, m);
    CeilDivMeans(c, m);
    assert m * (n - 1) == m * n - m;
  }

  /** The last jump is no longer than the others, and nothing is left over if the strides fit exactly. */
  lemma LastMultiple(change: int, s: int)
    requires Toward(s, change)
    ensures var n, fit := TickCount(change, s), Abs(change) / Abs(s);
            && 1 <= n && fit <= n <= fit + 1
            && (n == fit ==> n * s == change)
            && Abs(change - (n - 1) * s) <= Abs(s)
  {
    var n := TickCount(change, s);
    LastMultipleFits(Abs(change), Abs(s));
    SignedMultiple(s, n);
    SignedMultiple(s, n - 1);
  }

  lemma LastMultipleReaches(change: int, s: int, k: nat)
    requires Toward(s, change) && k + 1 == TickCount(change, s) <= Abs(change) / Abs(s)
    ensures k * s + s == change
  {
    LastMultiple(change, s);
    assert (k + 1) * s == k * s + s;
  }

  lemma TwiceTheStepsCover(c: nat, n: nat, m: nat)
    requires 0 < n && c / n <= m && 1 <= m
    ensures c <= m * (2 * n)
  {
    assert c == n * (c / n) + c % n;
    ScaleNat(n, c / n, m);
    ScaleNat(n, 1, m);
    assert m * (2 * n) == n * m + n * m;
  }

  lemma CeilDivAtMost(a: nat, b: nat, n: nat)
    requires 0 < b && a <= b * n
    ensures CeilDiv(a, b) <= n
  {
    CeilDivMeans(a, b);
    if n < CeilDiv(a, b) {
      ScaleNat(b, n, CeilDiv(a, b) - 1);
      assert false;
    }
  }

  /** With a stride of the change divided by the steps, a run takes at most twice those steps. */
  lemma TickCountIsBounded(change: int, steps: uint32)
    requires change != 0 && 0 < steps
    ensures TickCount(change, Stride(change, steps)) <= 2 * steps
  {
    var m := Abs(Stride(change, steps));
    TwiceTheStepsCover(Abs(change), steps, m);
    CeilDivAtMost(Abs(change), m, 2 * steps);
  }
}
