# Black-Scholes option pricer and its sweeps, in Dafny

A model of the Black-Scholes part of Quant_Finance_Projects
(`Black_Scholes_Model/`). It covers:

- the mutable pricing object `BlackScholes` (`model/black_scholes.py`) and its
  closed-form d1, d2, call and put prices;
- the call Greeks (`visualization/option_greek.py`);
- the profit/loss curves (`visualization/option_pl.py`);
- the maturity, volatility and strike sweeps and the strike-by-volatility
  heatmap (`visualization/time_vs_price.py`, `volatility_impact.py`,
  `heatmap.py`);
- the all-in-one `Visualizations` class (`visualization/visualization.py`).

The mathematical library functions (numpy `log`, `exp`, `sqrt`; scipy
`norm.cdf`, `norm.pdf`) are a record `Numerics.Library` of total real
functions passed to every operation. `Numerics.Lawful` states the laws the
proofs rely on:

- Φ lies in [0, 1];
- φ > 0 and exp > 0;
- sqrt(x) ≥ 0 and sqrt(x)² = x for x ≥ 0.

`Numerics.CdfSymmetric` adds Φ(x) + Φ(−x) = 1. Only the put-call parity
results require it. Every theorem holds for any record meeting these laws,
and so for the true functions.

The pricer is a Dafny class with the five mutable fields S0, K, T, r, sigma.
The formulas are functions of `Params`, a value holding the fields at one
moment (`BlackScholes.Snapshot()`). The class's pricing functions read the
fields and delegate to them.

Each sweep is a method that takes the shared object and `modifies` it, as
the source's loops do. Its contract states:

- the samples;
- the price each entry equals, in terms of the object's state before the call;
- the exact state left behind: which fields changed and the last sample they
  keep.

The heatmap fills a fresh two-dimensional array in place. A ghost log,
appended beside each write, records the order of the writes. The 1-D sweeps build sequences, as the
source's lists do.

The model prices only where S0 > 0, K > 0, T > 0 and sigma > 0
(`Params.Priceable`), and makes that domain a precondition of pricing. Each
sweep requires what keeps every one of its samples inside it. The source has
no guard. At T = 0, sigma = 0 or K = 0 its float arithmetic still returns finite
prices, as described under "Left out".

## Model

| member | source | states |
|---|---|---|
| Sampling.Linspace | Black_Scholes_Model/visualization/time_vs_price.py:20 | numpy's `linspace`: exactly `count` samples, the first exactly lo and the last exactly hi |
| Sampling.SampleWithin | Black_Scholes_Model/visualization/volatility_impact.py:19 | every sample lies between the two endpoints, whichever endpoint is larger |
| Sampling.AllPositive | Black_Scholes_Model/visualization/volatility_impact.py:19 | with both endpoints positive, every sample is positive, so a sweep's samples stay in the pricing domain |
| Sampling.StrictlyIncreasing | Black_Scholes_Model/visualization/option_pl.py:17 | with lo < hi, the samples strictly increase with their index |
| Numerics.SqrtPositive | Black_Scholes_Model/model/black_scholes.py:24 | sqrt(x) > 0 for x > 0, so sigma·sqrt(T) is a non-zero divisor in d1 |
| BlackScholesModel.BlackScholes.constructor | Black_Scholes_Model/model/black_scholes.py:5-20 | the five fields hold exactly the values given, with no validation |
| BlackScholesModel.D2BelowD1 | Black_Scholes_Model/model/black_scholes.py:26-28 | d1 − d2 is exactly sigma·sqrt(T), and it is positive |
| BlackScholesModel.PriceBounds | Black_Scholes_Model/model/black_scholes.py:30-42 | the call price never exceeds S0; the put price never exceeds K·e^(−rT) |
| BlackScholesModel.PutCallParity | Black_Scholes_Model/model/black_scholes.py:30-42 | call − put = S0 − K·e^(−rT) for every priceable parameter set, given Φ(x) + Φ(−x) = 1 |
| BlackScholesModel.PricingReadsOnlyFields | Black_Scholes_Model/model/black_scholes.py:22-42 | d1, call and put depend only on the five field values: equal fields give equal results, so repeated calls on an unchanged object agree |
| OptionGreek.CallGreeks | Black_Scholes_Model/visualization/option_greek.py:20-28 | 0 ≤ Delta ≤ 1; Gamma > 0; Vega > 0; Theta < 0 whenever r ≥ 0; Rho ≥ 0 |
| OptionGreek.BlackScholesEquation | Black_Scholes_Model/visualization/option_greek.py:24-27 | the Greeks and the call price satisfy the Black-Scholes equation: Theta + ½σ²S0²Gamma + r·S0·Delta − r·C = 0 |
| OptionGreek.VegaFromGamma | Black_Scholes_Model/visualization/option_greek.py:25-26 | Vega = S0²·sigma·T·Gamma |
| OptionGreek.RhoFromCallPrice | Black_Scholes_Model/visualization/option_greek.py:28 | Rho = T·(S0·Delta − C): Rho is the maturity times the discounted-strike leg of the call price |
| OptionPL.PositivePart | Black_Scholes_Model/visualization/option_pl.py:18-19 | `maximum(0, x)` is non-negative, at least x, and equal to x or to 0 |
| OptionPL.CallProfits | Black_Scholes_Model/visualization/option_pl.py:18 | one P/L per price; never below −premium; non-decreasing in the stock price |
| OptionPL.PutProfits | Black_Scholes_Model/visualization/option_pl.py:19 | one P/L per price; never below −premium; non-increasing in the stock price |
| OptionPL.PlotProfitLoss | Black_Scholes_Model/visualization/option_pl.py:17-19 | 100 stock prices from S0 − 50 to S0 + 50; both curves have 100 points; call P/L ≥ −call price and put P/L ≥ −put price |
| OptionPL.ProfitLossMonotone | Black_Scholes_Model/visualization/option_pl.py:17-19 | along the price grid, call P/L never falls and put P/L never rises |
| OptionPL.ProfitLossParity | Black_Scholes_Model/visualization/option_pl.py:18-19 | at every grid price s, call P/L − put P/L = (s − K) − (call − put) = s − S0 − K·(1 − e^(−rT)) |
| TimeVsPrice.Maturities | Black_Scholes_Model/visualization/time_vs_price.py:20 | 100 maturities from 0.01 to exactly T, all positive when T is |
| TimeVsPrice.PlotTimeVsPrice | Black_Scholes_Model/visualization/time_vs_price.py:20-29 | both price lists have one entry per maturity; entry i is the price with T replaced by times[i] and every other field as before; only T is written, and it ends on the last sample, which is the original T |
| TimeVsPrice.ZeroMaturityEndsUnpriceable | Black_Scholes_Model/visualization/time_vs_price.py:20 | when T = 0 the last maturity is 0, which is outside the pricing domain |
| TimeVsPrice.ShortMaturityRunsBackwards | Black_Scholes_Model/visualization/time_vs_price.py:20 | for 0 < T < 0.01 the maturities run downwards, from 0.01 to T |
| VolatilityImpact.Volatilities | Black_Scholes_Model/visualization/volatility_impact.py:19 | 100 volatilities, each within [0.05, 1.0] |
| VolatilityImpact.PlotVolatilityImpact | Black_Scholes_Model/visualization/volatility_impact.py:19-26 | both price lists have one entry per volatility; entry i is the price with sigma replaced by vols[i]; only sigma is written, and it ends at 1.0, so the original volatility is lost |
| VolatilityImpact.VolatilitySpread | Black_Scholes_Model/visualization/volatility_impact.py:23-26 | along the volatility sweep, call − put is the same at every sample, S0 − K·e^(−rT): the two curves are parallel |
| Heatmap.GridVolatilities | Black_Scholes_Model/visualization/heatmap.py:20 | 50 column volatilities, each within [0.05, 1.0], the last exactly 1.0 |
| Heatmap.GridStrikes | Black_Scholes_Model/visualization/heatmap.py:21 | 50 row strikes from S0 − 25 to S0 + 25, all positive when S0 > 25 |
| Heatmap.PlotHeatmap | Black_Scholes_Model/visualization/heatmap.py:20-31 | a fresh 50 × 50 matrix whose cell (i, j) is the call price with K = strikes[i] and sigma = vols[j]; a ghost log kept beside the writes lists the cells in row-major order; only K and sigma are written, ending at K = S0 + 25 and sigma = 1.0 |
| Heatmap.FillRow | Black_Scholes_Model/visualization/heatmap.py:28-31 | the inner loop: row i is priced left to right, no other cell changes, and S0, T and r are untouched |
| Heatmap.TraceListsEachCellOnce | Black_Scholes_Model/visualization/heatmap.py:24-31 | in a row-major write trace, each cell of the grid is written exactly once, at step 50·r + c |
| Heatmap.TraceStaysInside | Black_Scholes_Model/visualization/heatmap.py:27-31 | a row-major write trace writes no cell outside the grid |
| Heatmap.AppendRow | Black_Scholes_Model/visualization/heatmap.py:27-31 | appending row i, left to right, extends a row-major trace of i rows to one of i + 1 rows |
| Heatmap.LowSpotLeavesDomain | Black_Scholes_Model/visualization/heatmap.py:21 | with S0 ≤ 25 the first strike is not positive, so every cell of the first row is outside the pricing domain |
| Visualization.StrikeRange | Black_Scholes_Model/visualization/visualization.py:149 | 100 strikes from S0 − 50 to S0 + 50, all positive when S0 > 50 |
| Visualization.StrikeSpread | Black_Scholes_Model/visualization/visualization.py:153-156 | along the strike sweep, call − put at strike k is S0 − k·e^(−rT), falling linearly in the strike |
| Visualization.Visualizations.constructor | Black_Scholes_Model/visualization/visualization.py:8-15 | the object keeps a reference to the given option, not a copy |
| Visualization.Visualizations.PlotGreeks | Black_Scholes_Model/visualization/visualization.py:17-27 | the same five Greeks as option_greek.py at the option's current fields, with the same signs; reads the option and writes nothing |
| Visualization.Visualizations.PlotProfitLoss | Black_Scholes_Model/visualization/visualization.py:57-61 | the same P/L curves as option_pl.py: 100 prices from S0 − 50 to S0 + 50; reads the option and writes nothing |
| Visualization.Visualizations.PlotPvVsTime | Black_Scholes_Model/visualization/visualization.py:85-94 | as the maturity sweep: entry i priced at T = times[i]; only T is written, ending on the last sample |
| Visualization.Visualizations.PlotVolatilityImpact | Black_Scholes_Model/visualization/visualization.py:116-125 | as the volatility sweep: entry i priced at sigma = vols[i]; only sigma is written, ending at 1.0 |
| Visualization.Visualizations.PlotStrikePriceImpact | Black_Scholes_Model/visualization/visualization.py:147-156 | 100 strikes from S0 − 50 to S0 + 50; entry i priced with K = strikes[i] and every other field as before; only K is written, ending at S0 + 50 |
| Visualization.Visualizations.PlotHeatmap | Black_Scholes_Model/visualization/visualization.py:178-189 | as the heatmap: cell (i, j) priced at (strikes[i], vols[j]); a ghost log kept beside the writes lists the cells in row-major order; ends with K = S0 + 25 and sigma = 1.0 |
| Visualization.Visualizations.StrikeImpactAfterVolatilityImpact | Black_Scholes_Model/visualization/visualization.py:116-156 | the sweeps share one option: a strike sweep run after the volatility sweep prices every strike at sigma = 1.0, whatever the starting volatility, and leaves K = S0 + 50 and sigma = 1.0 |
| AppFlow.RunSweeps | Black_Scholes_Model/app.py:44-57 | maturity sweep, then volatility sweep, then heatmap on one object: every heatmap cell equals the price at the original S0, T and r, because T ends on its original value and the heatmap overwrites K and sigma; the object ends with K = S0 + 25 and sigma = 1.0 |

## Left out

- Plot construction, Plotly and Streamlit calls (the figure code after each computation, `common.py`, `__init__.py`) and the Streamlit page in `app.py`. Of `app.py`, only the order of its sweep calls is modelled (`AppFlow.RunSweeps`).
- `model/llama_integration.py` (language-model loading and text generation) and `Strategies_Backtester/` (backtrader strategies): foreign libraries and no modelled logic.
- Floating point: prices, samples and payoffs are exact reals. numpy's `linspace` is the exact formula lo + i·(hi − lo)/(n − 1), with no rounding.
- The internals of numpy `log`, `exp` and `sqrt` and of scipy `norm.cdf` and `norm.pdf`: they are abstract, constrained only by the laws listed above. No numeric value is computed, so the example output at the end of `black_scholes.py` is not reproduced.
- Behaviour outside the pricing domain (S0, K, T or sigma not positive): the model makes the domain a precondition. It drops the finite prices the source returns at T = 0, at sigma = 0 and at K = 0.
  - With T = 0, `np.sqrt(0.0)` is 0.0, so sigma·sqrt(T) = 0.0 in `model/black_scholes.py:24`. With sigma = 0 and T > 0, the product is 0.0 because sigma is. float64 division then gives d1 = d2 = ±inf, and `norm.cdf(±inf)` is 0 or 1.
  - The source thus returns finite intrinsic-value prices there. At T = 0 they are max(S0 − K, 0) for the call and max(K − S0, 0) for the put. At sigma = 0 they are max(S0 − K·e^(−rT), 0) and max(K·e^(−rT) − S0, 0).
  - The exception is a zero numerator, log(S0/K) + (r + sigma²/2)·T = 0 (for example S0 = K at T = 0). There 0/0 gives nan prices.
  - With K = 0 as a float64 strike, S0 / K is inf and log(inf) is inf, so d1 = d2 = +inf. The call price is then S0 and the put price 0. The heatmap reaches K = 0 at S0 = 25 and the strike sweep at S0 = 50, each in its first strike. A negative strike makes log(S0 / K) nan, and so both prices are nan.
  - Gamma in `visualization/option_greek.py:25` is nan at every point with T = 0 or sigma = 0. Its numerator φ(d1) is 0 or nan there, and it is divided by 0.
  - The model does not capture any of these values: it has no infinities and no nan.
  - In the Streamlit page, T and sigma can be 0 (`app.py:19`, `app.py:21`); S0 and K are at least 1.
  - For the sweeps this means:
    - `PlotTimeVsPrice` requires T > 0, since with T = 0 its last sample is 0 (`ZeroMaturityEndsUnpriceable`);
    - the heatmap requires S0 > 25, since otherwise its first strikes are not positive (`LowSpotLeavesDomain`);
    - the strike sweep requires S0 > 50.
- BlackScholesModel.D1, CallPrice and PutPrice, and the class functions `CalculateD1`, `CalculateD2`, `CalculateCallPrice` and `CalculatePutPrice`, carry no contract of their own: they are the formulas themselves. What is proved about them is in `PriceBounds`, `D2BelowD1`, `PutCallParity` and `PricingReadsOnlyFields`.
- Heatmap.TraceListsEachCellOnce, TraceStaysInside, AppendRow: the row-major trace is stated for the grid's fixed width of 50 columns rather than for any width.
- Visualization.Visualizations.PlotHeatmap, Heatmap.PlotHeatmap, Heatmap.FillRow: "each cell written once, in row-major order" is a property of a ghost log that the inner loop appends to right after each array write. Nothing ties the log to the writes, so a second write to a cell would not show in it. What the array ends up holding is stated directly, cell by cell.
- Visualization.Visualizations.PlotStrikePriceImpact, VolatilityImpact.PlotVolatilityImpact: put-call parity along the sweep is a separate lemma (`StrikeSpread`, `VolatilitySpread`) over the prices the method's contract describes, not part of the method's own contract.
- Put-side Greeks: the source computes none.
- BlackScholesModel.CallPrice, PutPrice: monotonicity in S0 and sigma is not stated: the call price not falling and the put price not rising as S0 rises, and both not falling as sigma rises. Neither is the limit as T → 0⁺, where the prices approach max(S0 − K, 0) and max(K − S0, 0). The laws in `Numerics.Lawful` do not entail these: they do not make Φ monotone and do not link φ, exp and log.
