/** The volatility sweep of `visualization/volatility_impact.py` (duplicated
    in `visualization/visualization.py`). It reprices the shared option at
    100 volatilities by overwriting the option's own sigma. */
module VolatilityImpact {
  import opened Numerics
  import opened Sampling
  import opened BlackScholesModel

  /** The volatilities swept: 100 evenly spaced values from 0.05 to 1.0. */
  function Volatilities(): (vols: seq<real>)
    ensures |vols| == 100
    ensures forall i :: 0 <= i < |vols| ==> 0.05 <= vols[i] <= 1.0
  {
    forall i | 0 <= i < 100
      ensures 0.05 <= Linspace(0.05, 1.0, 100)[i] <= 1.0
    {
      SampleWithin(0.05, 1.0, 100, i);
    }
    Linspace(0.05, 1.0, 100)
  }

  /** Prices the option at every volatility in turn and leaves sigma = 1.0,
      whatever it held before; the original volatility is lost. The sweep
      overwrites sigma, so it prices even when the starting sigma is not
      positive. */
  method PlotVolatilityImpact(m: Library, option: BlackScholes)
    returns (vols: seq<real>, callPrices: seq<real>, putPrices: seq<real>)
    requires Lawful(m)
    requires option.S0 > 0.0 && option.K > 0.0 && option.T > 0.0
    modifies option
    ensures vols == Volatilities()
    ensures |callPrices| == |vols| && |putPrices| == |vols|
    ensures forall i :: 0 <= i < |vols| ==>
              callPrices[i] == CallPrice(m, old(option.Snapshot()).(sigma := vols[i])) &&
              putPrices[i] == PutPrice(m, old(option.Snapshot()).(sigma := vols[i]))
    ensures option.Snapshot() == old(option.Snapshot()).(sigma := 1.0)
  {
    ghost var base := option.Snapshot();
    vols := Volatilities();
    callPrices, putPrices := [], [];
    for i := 0 to |vols|
      invariant |callPrices| == i && |putPrices| == i
      invariant forall k :: 0 <= k < i ==>
                  callPrices[k] == CallPrice(m, base.(sigma := vols[k])) &&
                  putPrices[k] == PutPrice(m, base.(sigma := vols[k]))
      invariant option.S0 == base.S0 && option.K == base.K && option.T == base.T && option.r == base.r
      invariant option.sigma == if i == 0 then base.sigma else vols[i - 1]
    {
      option.sigma := vols[i];
      assert option.Snapshot() == base.(sigma := vols[i]);
      var call := option.CalculateCallPrice(m);
      var put := option.CalculatePutPrice(m);
      callPrices := callPrices + [call];
      putPrices := putPrices + [put];
    }
    assert option.sigma == vols[99] == 1.0;
  }

  /** Put-call parity along a volatility sweep: call - put is S0 - K e^(-rT)
      at every volatility, so the two curves are parallel. */
  lemma VolatilitySpread(m: Library, base: Params, vols: seq<real>, callPrices: seq<real>, putPrices: seq<real>)
    requires Lawful(m) && CdfSymmetric(m)
    requires base.S0 > 0.0 && base.K > 0.0 && base.T > 0.0
    requires |callPrices| == |vols| && |putPrices| == |vols|
    requires forall i :: 0 <= i < |vols| ==> vols[i] > 0.0
    requires forall i :: 0 <= i < |vols| ==>
               callPrices[i] == CallPrice(m, base.(sigma := vols[i])) &&
               putPrices[i] == PutPrice(m, base.(sigma := vols[i]))
    ensures forall i :: 0 <= i < |vols| ==>
              callPrices[i] - putPrices[i] == base.S0 - base.K * Discount(m, base.r, base.T)
  {
    forall i | 0 <= i < |vols|
      ensures callPrices[i] - putPrices[i] == base.S0 - base.K * Discount(m, base.r, base.T)
    {
      var q := base.(sigma := vols[i]);
      PutCallParity(m, q);
      assert q.K * Discount(m, q.r, q.T) == base.K * Discount(m, base.r, base.T);
    }
  }
}
