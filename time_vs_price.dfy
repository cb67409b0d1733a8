/** The maturity sweep of `visualization/time_vs_price.py` (duplicated as
    `plot_pv_vs_time` in `visualization/visualization.py`). It reprices the
    shared option at 100 maturities by overwriting the option's own T. */
module TimeVsPrice {
  import opened Numerics
  import opened Sampling
  import opened BlackScholesModel

  /** The maturities swept: 100 evenly spaced values from 0.01 to T; all
      positive when T is. */
  function Maturities(T: real): (times: seq<real>)
    ensures |times| == 100 && times[0] == 0.01 && times[99] == T
    ensures T > 0.0 ==> forall i :: 0 <= i < |times| ==> times[i] > 0.0
  {
    AllPositive(0.01, T, 100);
    Linspace(0.01, T, 100)
  }

  /** Prices the option at every maturity in turn, appending call and put
      prices, and leaves the last maturity in the option's T field. */
  method PlotTimeVsPrice(m: Library, option: BlackScholes)
    returns (times: seq<real>, callPrices: seq<real>, putPrices: seq<real>)
    requires Lawful(m) && option.Snapshot().Priceable()
    modifies option
    ensures times == Maturities(old(option.T))
    ensures |callPrices| == |times| && |putPrices| == |times|
    ensures forall i :: 0 <= i < |times| ==>
              callPrices[i] == CallPrice(m, old(option.Snapshot()).(T := times[i])) &&
              putPrices[i] == PutPrice(m, old(option.Snapshot()).(T := times[i]))
    ensures option.Snapshot() == old(option.Snapshot()).(T := times[|times| - 1])
    ensures option.T == old(option.T)
  {
    ghost var base := option.Snapshot();
    times := Maturities(option.T);
    callPrices, putPrices := [], [];
    for i := 0 to |times|
      invariant |callPrices| == i && |putPrices| == i
      invariant forall k :: 0 <= k < i ==>
                  callPrices[k] == CallPrice(m, base.(T := times[k])) &&
                  putPrices[k] == PutPrice(m, base.(T := times[k]))
      invariant option.S0 == base.S0 && option.K == base.K && option.r == base.r && option.sigma == base.sigma
      invariant option.T == if i == 0 then base.T else times[i - 1]
    {
      option.T := times[i];
      assert option.Snapshot() == base.(T := times[i]);
      var call := option.CalculateCallPrice(m);
      var put := option.CalculatePutPrice(m);
      callPrices := callPrices + [call];
      putPrices := putPrices + [put];
    }
    assert option.T == times[99] == base.T;
  }

  /** With T = 0 the sweep's last maturity is 0, where the closed form is
      undefined: the source's loop would divide by sigma * sqrt(0). */
  lemma ZeroMaturityEndsUnpriceable(p: Params)
    requires p.T == 0.0
    ensures Maturities(p.T)[99] == 0.0
    ensures !p.(T := Maturities(p.T)[99]).Priceable()
  {
  }

  /** For a maturity below 0.01 the sweep runs backwards: it starts at 0.01
      and falls to T. */
  lemma ShortMaturityRunsBackwards(T: real)
    requires 0.0 < T < 0.01
    ensures Maturities(T)[0] > Maturities(T)[99]
  {
  }
}
