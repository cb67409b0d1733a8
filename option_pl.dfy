/** The profit/loss curves of `visualization/option_pl.py` (and the identical
    copy in `visualization/visualization.py`): the payoff at expiry over a
    grid of stock prices, less the premium the pricer charges today. */
module OptionPL {
  import opened Numerics
  import opened Sampling
  import opened BlackScholesModel

  /** numpy's `maximum(0, x)` on one element. */
  function PositivePart(x: real): (y: real)
    ensures y >= 0.0 && y >= x
    ensures y == x || y == 0.0
  {
    if x > 0.0 then x else 0.0
  }

  /** Long call P/L at each price s: max(0, s - K) - premium. */
  function CallProfits(prices: seq<real>, strike: real, premium: real): (pl: seq<real>)
    ensures |pl| == |prices|
    ensures forall i :: 0 <= i < |pl| ==> pl[i] >= -premium
    ensures forall i, j :: 0 <= i < |pl| && 0 <= j < |pl| && prices[i] <= prices[j] ==> pl[i] <= pl[j]
  {
    seq(|prices|, i requires 0 <= i < |prices| => PositivePart(prices[i] - strike) - premium)
  }

  /** Long put P/L at each price s: max(0, K - s) - premium. */
  function PutProfits(prices: seq<real>, strike: real, premium: real): (pl: seq<real>)
    ensures |pl| == |prices|
    ensures forall i :: 0 <= i < |pl| ==> pl[i] >= -premium
    ensures forall i, j :: 0 <= i < |pl| && 0 <= j < |pl| && prices[i] <= prices[j] ==> pl[i] >= pl[j]
  {
    seq(|prices|, i requires 0 <= i < |prices| => PositivePart(strike - prices[i]) - premium)
  }

  datatype ProfitLoss = ProfitLoss(stockPrices: seq<real>, callProfits: seq<real>, putProfits: seq<real>)

  /** The curves drawn for an option: 100 stock prices from S0 - 50 to S0 + 50,
      each premium taken from the pricer. Reads the option, writes nothing. */
  function PlotProfitLoss(m: Library, p: Params): (pl: ProfitLoss)
    requires Lawful(m) && p.Priceable()
    ensures |pl.stockPrices| == 100
    ensures pl.stockPrices[0] == p.S0 - 50.0 && pl.stockPrices[99] == p.S0 + 50.0
    ensures |pl.callProfits| == 100 && |pl.putProfits| == 100
    ensures forall i :: 0 <= i < 100 ==> pl.callProfits[i] >= -CallPrice(m, p)
    ensures forall i :: 0 <= i < 100 ==> pl.putProfits[i] >= -PutPrice(m, p)
  {
    var prices := Linspace(p.S0 - 50.0, p.S0 + 50.0, 100);
    ProfitLoss(prices, CallProfits(prices, p.K, CallPrice(m, p)), PutProfits(prices, p.K, PutPrice(m, p)))
  }

  /** Along the grid, call P/L never falls and put P/L never rises. */
  lemma {:induction false} ProfitLossMonotone(m: Library, p: Params, i: nat, j: nat)
    requires Lawful(m) && p.Priceable()
    requires i <= j < 100
    ensures PlotProfitLoss(m, p).callProfits[i] <= PlotProfitLoss(m, p).callProfits[j]
    ensures PlotProfitLoss(m, p).putProfits[i] >= PlotProfitLoss(m, p).putProfits[j]
  {
    var prices := PlotProfitLoss(m, p).stockPrices;
    if i < j {
      StrictlyIncreasing(p.S0 - 50.0, p.S0 + 50.0, 100, i, j);
    }
    assert prices[i] <= prices[j];
  }

  /** At every stock price s: call P/L - put P/L = (s - K) - (call - put), and,
      by put-call parity, = s - S0 - K (1 - e^(-rT)). */
  lemma {:induction false} ProfitLossParity(m: Library, p: Params, i: nat)
    requires Lawful(m) && CdfSymmetric(m) && p.Priceable()
    requires i < 100
    ensures var pl := PlotProfitLoss(m, p);
            pl.callProfits[i] - pl.putProfits[i]
              == (pl.stockPrices[i] - p.K) - (CallPrice(m, p) - PutPrice(m, p))
    ensures var pl := PlotProfitLoss(m, p);
            pl.callProfits[i] - pl.putProfits[i]
              == pl.stockPrices[i] - p.S0 - p.K * (1.0 - Discount(m, p.r, p.T))
  {
    var s := PlotProfitLoss(m, p).stockPrices[i];
    assert PositivePart(s - p.K) - PositivePart(p.K - s) == s - p.K;
    PutCallParity(m, p);
  }
}
