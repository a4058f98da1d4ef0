/** The trimmed mean of the five newest readings is robust against one outlier. */
module Smoothing {
  import opened LightLuxManagers

  ghost predicate Ascending(s: seq<real>) {
    forall i, j :: 0 <= i <= j < |s| ==> s[i] <= s[j]
  }

  lemma {:induction false} SumWithout(s: seq<real>, k: nat)
    requires k < |s|
    ensures Sum(s) == s[k] + Sum(s[..k] + s[k + 1..])
    decreases k
  {
    if k == 0 {
      assert s[..0] + s[1..] == s[1..];
    } else {
      SumWithout(s[1..], k - 1);
      assert s[1..][..k - 1] + s[1..][k..] == (s[..k] + s[k + 1..])[1..];
    }
  }

  lemma ValuesWithout(s: seq<real>, k: nat)
    requires k < |s|
    ensures multiset(s[..k] + s[k + 1..]) == multiset(s) - multiset{s[k]}
  {
    assert s == s[..k] + [s[k]] + s[k + 1..];
  }

  lemma {:induction false} SumIgnoresOrder(a: seq<real>, b: seq<real>)
    requires multiset(a) == multiset(b)
    ensures Sum(a) == Sum(b)
    decreases |a|
  {
    if a == [] {
      assert |multiset(b)| == |b|;
    } else {
      ValuesWithoutFirst(a);
      var k := PlaceOf(b, a[0]);
      var rest := b[..k] + b[k + 1..];
      SumWithout(b, k);
      ValuesWithout(b, k);
      SumIgnoresOrder(a[1..], rest);
    }
  }

  lemma PlaceOf(s: seq<real>, x: real) returns (k: nat)
    requires x in multiset(s)
    ensures k < |s| && s[k] == x
  {
    k :| k < |s| && s[k] == x;
  }

  lemma ValuesWithoutFirst(s: seq<real>)
    requires s != []
    ensures multiset(s[1..]) == multiset(s) - multiset{s[0]} && s[0] in multiset(s)
  {
    ValuesWithout(s, 0);
    assert s[..0] + s[1..] == s[1..];
  }

  lemma {:induction false} LeastIsLeast(v: seq<real>)
    requires v != []
    ensures Least(v) in v && forall i :: 0 <= i < |v| ==> Least(v) <= v[i]
  {
    if |v| > 1 {
      LeastIsLeast(v[1..]);
      forall i | 0 <= i < |v| ensures Least(v) <= v[i] {
        if i > 0 { assert v[i] == v[1..][i - 1]; }
      }
    }
  }

  lemma {:induction false} GreatestIsGreatest(v: seq<real>)
    requires v != []
    ensures Greatest(v) in v && forall i :: 0 <= i < |v| ==> v[i] <= Greatest(v)
  {
    if |v| > 1 {
      GreatestIsGreatest(v[1..]);
      forall i | 0 <= i < |v| ensures v[i] <= Greatest(v) {
        if i > 0 { assert v[i] == v[1..][i - 1]; }
      }
    }
  }

  lemma ExtremesIgnoreOrder(a: seq<real>, b: seq<real>)
    requires multiset(a) == multiset(b) && a != []
    ensures b != [] && Least(a) == Least(b) && Greatest(a) == Greatest(b)
  {
    assert a[0] in multiset(b);
    LeastIsLeast(a);
    LeastIsLeast(b);
    GreatestIsGreatest(a);
    GreatestIsGreatest(b);
    assert Least(a) in multiset(b) && Least(b) in multiset(a);
    assert Greatest(a) in multiset(b) && Greatest(b) in multiset(a);
  }

  lemma TrimmedMeanIgnoresOrder(v: seq<real>, w: seq<real>)
    requires |v| == |w| == LIGHT_LUX_BUFFER_MIN && multiset(v) == multiset(w)
    ensures TrimmedMean(v) == TrimmedMean(w)
  {
    SumIgnoresOrder(v, w);
    ExtremesIgnoreOrder(v, w);
  }

  lemma SumOfFive(v: seq<real>)
    requires |v| == LIGHT_LUX_BUFFER_MIN
    ensures Sum(v) == v[0] + v[1] + v[2] + v[3] + v[4]
  {
    assert v[1..][1..] == v[2..] && v[2..][1..] == v[3..] && v[3..][1..] == v[4..] && v[4..][1..] == [];
    assert Sum(v[3..]) == v[3] + Sum(v[4..]) && Sum(v[4..]) == v[4];
    assert Sum(v[1..]) == v[1] + Sum(v[2..]);
  }

  /** In sorted order, the result is the mean of the middle three, between second smallest and second largest. */
  lemma TrimmedMeanIsMiddleMean(v: seq<real>, s: seq<real>)
    requires |v| == |s| == LIGHT_LUX_BUFFER_MIN && multiset(v) == multiset(s) && Ascending(s)
    ensures TrimmedMean(v) == (s[1] + s[2] + s[3]) / 3.0
    ensures s[1] <= TrimmedMean(v) <= s[3]
  {
    TrimmedMeanIgnoresOrder(v, s);
    SumOfFive(s);
    LeastIsLeast(s);
    GreatestIsGreatest(s);
  }

  /** Whatever the reading at `k` is, the result stays within the range of the other four. */
  lemma OneOutlierIsHarmless(v: seq<real>, k: nat)
    requires |v| == LIGHT_LUX_BUFFER_MIN && k < LIGHT_LUX_BUFFER_MIN
    ensures exists i :: 0 <= i < LIGHT_LUX_BUFFER_MIN && i != k && v[i] <= TrimmedMean(v)
    ensures exists j :: 0 <= j < LIGHT_LUX_BUFFER_MIN && j != k && TrimmedMean(v) <= v[j]
  {
    SumOfFive(v);
    LeastIsLeast(v);
    GreatestIsGreatest(v);
    var a :| 0 <= a < |v| && v[a] == Least(v);
    var b :| 0 <= b < |v| && v[b] == Greatest(v);
    var t := 3.0 * TrimmedMean(v);
    assert t == v[0] + v[1] + v[2] + v[3] + v[4] - v[a] - v[b];
    if forall i :: 0 <= i < LIGHT_LUX_BUFFER_MIN && i != k ==> TrimmedMean(v) < v[i] {
      assert false;
    }
    if forall j :: 0 <= j < LIGHT_LUX_BUFFER_MIN && j != k ==> v[j] < TrimmedMean(v) {
      assert false;
    }
  }

  lemma TrimmedMeanInRange(v: seq<real>, lo: real, hi: real)
    requires |v| == LIGHT_LUX_BUFFER_MIN && forall i :: 0 <= i < |v| ==> lo <= v[i] <= hi
    ensures lo <= TrimmedMean(v) <= hi
  {
    OneOutlierIsHarmless(v, 0);
  }
}
