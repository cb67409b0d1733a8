/** The `Visualizations` class of `visualization/visualization.py`: one
    object holding a reference to a shared pricer, with the computations
    behind each chart. The Greeks, P/L, maturity, volatility and heatmap
    computations are the same code as the per-chart files and delegate to
    their models; the strike sweep exists only here. */
module Visualization {
  import opened Numerics
  import opened Sampling
  import opened BlackScholesModel
  import OptionGreek
  import OptionPL
  import TimeVsPrice
  import VolatilityImpact
  import Heatmap

  /** The strikes swept: 100 evenly spaced values from S0 - 50 to S0 + 50;
      all positive when S0 > 50. */
  function StrikeRange(S0: real): (strikes: seq<real>)
    ensures |strikes| == 100 && strikes[0] == S0 - 50.0 && strikes[99] == S0 + 50.0
    ensures S0 > 50.0 ==> forall i :: 0 <= i < |strikes| ==> strikes[i] > 0.0
  {
    AllPositive(S0 - 50.0, S0 + 50.0, 100);
    Linspace(S0 - 50.0, S0 + 50.0, 100)
  }

  /** Put-call parity along a strike sweep: at strike k, call - put is
      S0 - k e^(-rT), the discount factor being the same at every strike, so
      the spread between the two curves falls linearly in the strike. */
  lemma StrikeSpread(m: Library, base: Params, strikes: seq<real>, callPrices: seq<real>, putPrices: seq<real>)
    requires Lawful(m) && CdfSymmetric(m)
    requires base.S0 > 0.0 && base.T > 0.0 && base.sigma > 0.0
    requires |callPrices| == |strikes| && |putPrices| == |strikes|
    requires forall i :: 0 <= i < |strikes| ==> strikes[i] > 0.0
    requires forall i :: 0 <= i < |strikes| ==>
               callPrices[i] == CallPrice(m, base.(K := strikes[i])) &&
               putPrices[i] == PutPrice(m, base.(K := strikes[i]))
    ensures forall i :: 0 <= i < |strikes| ==>
              callPrices[i] - putPrices[i] == base.S0 - strikes[i] * Discount(m, base.r, base.T)
  {
    forall i | 0 <= i < |strikes|
      ensures callPrices[i] - putPrices[i] == base.S0 - strikes[i] * Discount(m, base.r, base.T)
    {
      var q := base.(K := strikes[i]);
      PutCallParity(m, q);
      assert q.K * Discount(m, q.r, q.T) == strikes[i] * Discount(m, base.r, base.T);
    }
  }

  class Visualizations {
    /** The pricer every chart reads and every sweep overwrites. */
    const option: BlackScholes

    constructor (option: BlackScholes)
      ensures this.option == option
    {
      this.option := option;
    }

    /** The Greeks at the option's current fields; reads the option only. */
    function PlotGreeks(m: Library): (g: OptionGreek.Greeks)
      reads option
      requires Lawful(m) && option.Snapshot().Priceable()
      ensures g == OptionGreek.CallGreeks(m, option.Snapshot())
      ensures 0.0 <= g.delta <= 1.0 && g.gamma > 0.0 && g.vega > 0.0 && g.rho >= 0.0
      ensures option.r >= 0.0 ==> g.theta < 0.0
    {
      OptionGreek.CallGreeks(m, option.Snapshot())
    }

    /** The P/L curves at the option's current fields; reads the option only. */
    function PlotProfitLoss(m: Library): (pl: OptionPL.ProfitLoss)
      reads option
      requires Lawful(m) && option.Snapshot().Priceable()
      ensures pl == OptionPL.PlotProfitLoss(m, option.Snapshot())
      ensures |pl.stockPrices| == 100 && |pl.callProfits| == 100 && |pl.putProfits| == 100
      ensures pl.stockPrices[0] == option.S0 - 50.0 && pl.stockPrices[99] == option.S0 + 50.0
    {
      OptionPL.PlotProfitLoss(m, option.Snapshot())
    }

    /** The maturity sweep: writes T only, and leaves the last maturity in it. */
    method PlotPvVsTime(m: Library) returns (times: seq<real>, callPrices: seq<real>, putPrices: seq<real>)
      requires Lawful(m) && option.Snapshot().Priceable()
      modifies option
      ensures times == TimeVsPrice.Maturities(old(option.T))
      ensures |callPrices| == |times| && |putPrices| == |times|
      ensures forall i :: 0 <= i < |times| ==>
                callPrices[i] == CallPrice(m, old(option.Snapshot()).(T := times[i])) &&
                putPrices[i] == PutPrice(m, old(option.Snapshot()).(T := times[i]))
      ensures option.Snapshot() == old(option.Snapshot()).(T := times[|times| - 1])
      ensures option.T == old(option.T)
    {
      times, callPrices, putPrices := TimeVsPrice.PlotTimeVsPrice(m, option);
    }

    /** The volatility sweep: writes sigma only, and leaves sigma = 1.0. */
    method PlotVolatilityImpact(m: Library) returns (vols: seq<real>, callPrices: seq<real>, putPrices: seq<real>)
      requires Lawful(m)
      requires option.S0 > 0.0 && option.K > 0.0 && option.T > 0.0
      modifies option
      ensures vols == VolatilityImpact.Volatilities()
      ensures |callPrices| == |vols| && |putPrices| == |vols|
      ensures forall i :: 0 <= i < |vols| ==>
                callPrices[i] == CallPrice(m, old(option.Snapshot()).(sigma := vols[i])) &&
                putPrices[i] == PutPrice(m, old(option.Snapshot()).(sigma := vols[i]))
      ensures option.Snapshot() == old(option.Snapshot()).(sigma := 1.0)
    {
      vols, callPrices, putPrices := VolatilityImpact.PlotVolatilityImpact(m, option);
    }

    /** The strike sweep: prices the option at 100 strikes from S0 - 50 to
        S0 + 50 by overwriting K, and leaves K = S0 + 50 (StrikeSpread gives
        the spread between its two curves). */
    method PlotStrikePriceImpact(m: Library) returns (strikes: seq<real>, callPrices: seq<real>, putPrices: seq<real>)
      requires Lawful(m)
      requires option.S0 > 50.0 && option.T > 0.0 && option.sigma > 0.0
      modifies option
      ensures strikes == StrikeRange(old(option.S0))
      ensures |callPrices| == |strikes| && |putPrices| == |strikes|
      ensures forall i :: 0 <= i < |strikes| ==>
                callPrices[i] == CallPrice(m, old(option.Snapshot()).(K := strikes[i])) &&
                putPrices[i] == PutPrice(m, old(option.Snapshot()).(K := strikes[i]))
      ensures option.Snapshot() == old(option.Snapshot()).(K := old(option.S0) + 50.0)
    {
      ghost var base := option.Snapshot();
      strikes := StrikeRange(option.S0);
      callPrices, putPrices := [], [];
      for i := 0 to |strikes|
        invariant |callPrices| == i && |putPrices| == i
        invariant forall k :: 0 <= k < i ==>
                    callPrices[k] == CallPrice(m, base.(K := strikes[k])) &&
                    putPrices[k] == PutPrice(m, base.(K := strikes[k]))
        invariant option.S0 == base.S0 && option.T == base.T && option.r == base.r && option.sigma == base.sigma
        invariant option.K == if i == 0 then base.K else strikes[i - 1]
      {
        option.K := strikes[i];
        assert option.Snapshot() == base.(K := strikes[i]);
        var call := option.CalculateCallPrice(m);
        var put := option.CalculatePutPrice(m);
        callPrices := callPrices + [call];
        putPrices := putPrices + [put];
      }
      assert option.K == strikes[99] == base.S0 + 50.0;
    }

    /** The strike-by-volatility grid: writes K and sigma only, and leaves
        K = S0 + 25 and sigma = 1.0. */
    method PlotHeatmap(m: Library)
      returns (vols: seq<real>, strikes: seq<real>, data: array2<real>, ghost order: seq<(nat, nat)>)
      requires Lawful(m)
      requires option.S0 > 25.0 && option.T > 0.0
      modifies option
      ensures vols == Heatmap.GridVolatilities() && strikes == Heatmap.GridStrikes(old(option.S0))
      ensures fresh(data) && data.Length0 == |strikes| && data.Length1 == |vols|
      ensures forall i, j :: 0 <= i < data.Length0 && 0 <= j < data.Length1 ==>
                data[i, j] == CallPrice(m, old(option.Snapshot()).(K := strikes[i], sigma := vols[j]))
      ensures Heatmap.RowMajorTrace(order, |strikes|)
      ensures option.Snapshot() == old(option.Snapshot()).(K := old(option.S0) + 25.0, sigma := 1.0)
    {
      vols, strikes, data, order := Heatmap.PlotHeatmap(m, option);
    }

    /** The sweeps share one option: a strike sweep run after a volatility
        sweep prices every strike at sigma = 1.0, whatever volatility the
        option started with. */
    method StrikeImpactAfterVolatilityImpact(m: Library)
      returns (strikes: seq<real>, callPrices: seq<real>, putPrices: seq<real>)
      requires Lawful(m)
      requires option.S0 > 50.0 && option.K > 0.0 && option.T > 0.0
      modifies option
      ensures strikes == StrikeRange(old(option.S0))
      ensures |callPrices| == |strikes| && |putPrices| == |strikes|
      ensures forall i :: 0 <= i < |strikes| ==>
                callPrices[i] == CallPrice(m, old(option.Snapshot()).(K := strikes[i], sigma := 1.0)) &&
                putPrices[i] == PutPrice(m, old(option.Snapshot()).(K := strikes[i], sigma := 1.0))
      ensures option.Snapshot() == old(option.Snapshot()).(K := old(option.S0) + 50.0, sigma := 1.0)
    {
      var _, _, _ := PlotVolatilityImpact(m);
      strikes, callPrices, putPrices := PlotStrikePriceImpact(m);
    }
  }
}
