/** The order in which the dashboard of `app.py` runs the sweeps on its one
    option object: maturity, then volatility, then the heatmap. Each sweep
    starts from the fields the previous one left behind. */
module AppFlow {
  import opened Numerics
  import opened BlackScholesModel
  import TimeVsPrice
  import VolatilityImpact
  import Heatmap

  /** The earlier sweeps leak into the option, but not into the heatmap: the
      maturity sweep ends on the original T, and the heatmap overwrites both
      fields the volatility sweep changed. So every cell is priced at the
      original S0, T and r, as if the heatmap had run first. The option ends
      with K = S0 + 25 and sigma = 1.0. */
  method RunSweeps(m: Library, option: BlackScholes)
    returns (vols: seq<real>, strikes: seq<real>, data: array2<real>)
    requires Lawful(m) && option.Snapshot().Priceable()
    requires option.S0 > 25.0
    modifies option
    ensures fresh(data) && data.Length0 == |strikes| && data.Length1 == |vols|
    ensures strikes == Heatmap.GridStrikes(old(option.S0)) && vols == Heatmap.GridVolatilities()
    ensures forall i, j :: 0 <= i < data.Length0 && 0 <= j < data.Length1 ==>
              data[i, j] == CallPrice(m, old(option.Snapshot()).(K := strikes[i], sigma := vols[j]))
    ensures option.Snapshot() == old(option.Snapshot()).(K := old(option.S0) + 25.0, sigma := 1.0)
  {
    var _, _, _ := TimeVsPrice.PlotTimeVsPrice(m, option);
    var _, _, _ := VolatilityImpact.PlotVolatilityImpact(m, option);
    ghost var order;
    vols, strikes, data, order := Heatmap.PlotHeatmap(m, option);
  }
}
