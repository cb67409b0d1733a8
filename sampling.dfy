/** Evenly spaced samples, as numpy's `linspace(lo, hi, count)` produces them
    with its default `endpoint=True`: sample i is lo + i * (hi - lo) / (count - 1),
    a single sample is lo, and the last of several is exactly hi. */
module Sampling {

  function Sample(lo: real, hi: real, count: nat, i: nat): real
  {
    if count <= 1 then lo else lo + (i as real) * (hi - lo) / ((count - 1) as real)
  }

  function Linspace(lo: real, hi: real, count: nat): (xs: seq<real>)
    ensures |xs| == count
    ensures count >= 1 ==> xs[0] == lo
    ensures count >= 2 ==> xs[count - 1] == hi
  {
    LastSampleIsHi(lo, hi, count);
    seq(count, i requires 0 <= i < count => Sample(lo, hi, count, i))
  }

  lemma LastSampleIsHi(lo: real, hi: real, count: nat)
    ensures count >= 2 ==> Sample(lo, hi, count, count - 1) == hi
  {
    if count >= 2 {
      var d := (count - 1) as real;
      assert (d * (hi - lo)) / d == hi - lo;
    }
  }

  /** The offset of sample i from lo, as a fraction t of the whole span. */
  lemma SampleAsFraction(lo: real, hi: real, count: nat, i: nat)
    requires count >= 2 && i < count
    ensures var t := (i as real) / ((count - 1) as real);
            0.0 <= t <= 1.0 && Sample(lo, hi, count, i) == lo + t * (hi - lo)
  {
    var d := (count - 1) as real;
    var t := (i as real) / d;
    assert t * d == i as real;
    assert (i as real) <= d;
    assert t <= 1.0 by {
      assert t * d <= 1.0 * d;
    }
    assert (i as real) * (hi - lo) / d == t * (hi - lo);
  }

  /** Every sample lies between the two endpoints, whichever way round they are. */
  lemma {:induction false} SampleWithin(lo: real, hi: real, count: nat, i: nat)
    requires i < count
    ensures lo <= hi ==> lo <= Linspace(lo, hi, count)[i] <= hi
    ensures hi <= lo ==> hi <= Linspace(lo, hi, count)[i] <= lo
  {
    if count >= 2 {
      SampleAsFraction(lo, hi, count, i);
      var t := (i as real) / ((count - 1) as real);
      assert Linspace(lo, hi, count)[i] == lo + t * (hi - lo);
      assert 0.0 <= t <= 1.0;
      if lo <= hi {
        MulNonNegative(t, hi - lo);
        MulNonNegative(1.0 - t, hi - lo);
        assert (1.0 - t) * (hi - lo) == (hi - lo) - t * (hi - lo);
      } else {
        MulNonNegative(t, lo - hi);
        MulNonNegative(1.0 - t, lo - hi);
        assert t * (lo - hi) == -(t * (hi - lo));
        assert (1.0 - t) * (lo - hi) == (lo - hi) + t * (hi - lo);
      }
    }
  }

  lemma MulNonNegative(a: real, b: real)
    requires a >= 0.0 && b >= 0.0
    ensures a * b >= 0.0
  {
  }

  lemma MulPositive(a: real, b: real)
    requires a > 0.0 && b > 0.0
    ensures a * b > 0.0
  {
  }

  /** When both endpoints are positive, so is every sample. */
  lemma AllPositive(lo: real, hi: real, count: nat)
    ensures lo > 0.0 && hi > 0.0 ==> forall i :: 0 <= i < count ==> Linspace(lo, hi, count)[i] > 0.0
  {
    if lo > 0.0 && hi > 0.0 {
      forall i | 0 <= i < count
        ensures Linspace(lo, hi, count)[i] > 0.0
      {
        SampleWithin(lo, hi, count, i);
      }
    }
  }

  /** With lo < hi the samples strictly increase. */
  lemma {:induction false} StrictlyIncreasing(lo: real, hi: real, count: nat, i: nat, j: nat)
    requires lo < hi
    requires i < j < count
    ensures Linspace(lo, hi, count)[i] < Linspace(lo, hi, count)[j]
  {
    var d := (count - 1) as real;
    SampleAsFraction(lo, hi, count, i);
    SampleAsFraction(lo, hi, count, j);
    var ti := (i as real) / d;
    var tj := (j as real) / d;
    assert Linspace(lo, hi, count)[i] == lo + ti * (hi - lo);
    assert Linspace(lo, hi, count)[j] == lo + tj * (hi - lo);
    DivMonotone(i as real, j as real, d);
    MulPositive(tj - ti, hi - lo);
    assert tj * (hi - lo) - ti * (hi - lo) == (tj - ti) * (hi - lo);
  }

  lemma DivMonotone(a: real, b: real, d: real)
    requires d > 0.0 && a < b
    ensures a / d < b / d
  {
  }
}
