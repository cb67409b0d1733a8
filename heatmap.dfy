/** The strike-by-volatility grid of `visualization/heatmap.py` (duplicated
    as `plot_heatmap` in `visualization/visualization.py`): a zero matrix
    filled cell by cell, row by row, with call prices, by overwriting the shared option's
    K and sigma before each pricing. */
module Heatmap {
  import opened Numerics
  import opened Sampling
  import opened BlackScholesModel

  /** The 50 volatilities of the grid's columns, from 0.05 to 1.0. */
  function GridVolatilities(): (vols: seq<real>)
    ensures |vols| == 50 && vols[49] == 1.0
    ensures forall j :: 0 <= j < |vols| ==> 0.05 <= vols[j] <= 1.0
  {
    forall j | 0 <= j < 50
      ensures 0.05 <= Linspace(0.05, 1.0, 50)[j] <= 1.0
    {
      SampleWithin(0.05, 1.0, 50, j);
    }
    Linspace(0.05, 1.0, 50)
  }

  /** The 50 strikes of the grid's rows, from S0 - 25 to S0 + 25. */
  function GridStrikes(S0: real): (strikes: seq<real>)
    ensures |strikes| == 50 && strikes[0] == S0 - 25.0 && strikes[49] == S0 + 25.0
    ensures S0 > 25.0 ==> forall i :: 0 <= i < |strikes| ==> strikes[i] > 0.0
  {
    AllPositive(S0 - 25.0, S0 + 25.0, 50);
    Linspace(S0 - 25.0, S0 + 25.0, 50)
  }

  /** `order` lists the cells of the first `rows` rows of the 50-column grid
      in row-major order. */
  ghost predicate RowMajorTrace(order: seq<(nat, nat)>, rows: nat)
  {
    |order| == 50 * rows &&
    forall k :: 0 <= k < |order| ==> order[k] == (k / 50, k % 50)
  }

  /** In a row-major trace each cell of the grid is listed exactly once,
      at index 50 r + c, and nothing outside the grid is listed. */
  lemma TraceListsEachCellOnce(order: seq<(nat, nat)>, rows: nat, r: nat, c: nat)
    requires RowMajorTrace(order, rows)
    requires r < rows && c < 50
    ensures 50 * r + c < |order| && order[50 * r + c] == (r, c)
    ensures forall k :: 0 <= k < |order| && order[k] == (r, c) ==> k == 50 * r + c
  {
  }

  /** A row-major trace lists nothing outside the grid. */
  lemma TraceStaysInside(order: seq<(nat, nat)>, rows: nat, k: nat)
    requires RowMajorTrace(order, rows) && k < |order|
    ensures order[k].0 < rows && order[k].1 < 50
  {
  }

  /** Appending row i, left to right, extends a trace of i rows to i + 1. */
  lemma AppendRow(order: seq<(nat, nat)>, row: seq<(nat, nat)>, i: nat)
    requires RowMajorTrace(order, i)
    requires |row| == 50 && forall j :: 0 <= j < 50 ==> row[j] == (i, j)
    ensures RowMajorTrace(order + row, i + 1)
  {
  }

  /** Fills a fresh 50 x 50 zero matrix: cell (i, j) is the call price with
      K = strikes[i] and sigma = vols[j]. `order` is ghost bookkeeping kept
      beside the writes: the inner loop appends (i, j) to it right after
      writing cell (i, j), and nothing else ties the log to the array, so
      "row-major, each cell once" is a statement about that log. Afterwards
      the option keeps the last pair written, K = S0 + 25 and sigma = 1.0. */
  method PlotHeatmap(m: Library, option: BlackScholes)
    returns (vols: seq<real>, strikes: seq<real>, data: array2<real>, ghost order: seq<(nat, nat)>)
    requires Lawful(m)
    requires option.S0 > 25.0 && option.T > 0.0
    modifies option
    ensures vols == GridVolatilities() && strikes == GridStrikes(old(option.S0))
    ensures fresh(data) && data.Length0 == |strikes| && data.Length1 == |vols|
    ensures forall i, j :: 0 <= i < data.Length0 && 0 <= j < data.Length1 ==>
              data[i, j] == CallPrice(m, old(option.Snapshot()).(K := strikes[i], sigma := vols[j]))
    ensures RowMajorTrace(order, |strikes|)
    ensures option.Snapshot() == old(option.Snapshot()).(K := old(option.S0) + 25.0, sigma := 1.0)
  {
    ghost var base := option.Snapshot();
    vols := GridVolatilities();
    strikes := GridStrikes(option.S0);
    data := new real[|strikes|, |vols|]((_, _) => 0.0);
    order := [];
    for i := 0 to |strikes|
      invariant RowMajorTrace(order, i)
      invariant forall a, b :: 0 <= a < i && 0 <= b < |vols| ==>
                  data[a, b] == CallPrice(m, base.(K := strikes[a], sigma := vols[b]))
      invariant option.S0 == base.S0 && option.T == base.T && option.r == base.r
      invariant i > 0 ==> option.K == strikes[i - 1] && option.sigma == vols[|vols| - 1]
      invariant i == 0 ==> option.Snapshot() == base
    {
      ghost var row := FillRow(m, option, data, i, strikes, vols, base);
      AppendRow(order, row, i);
      order := order + row;
    }
  }

  /** The inner loop of the grid: writes row i left to right, pricing cell
      (i, j) with K = strikes[i] and sigma = vols[j]; no other cell changes.
      `written` logs (i, j) beside each write; it is bookkeeping, not derived
      from the array writes themselves. */
  method FillRow(m: Library, option: BlackScholes, data: array2<real>, i: nat,
                 strikes: seq<real>, vols: seq<real>, ghost base: Params)
    returns (ghost written: seq<(nat, nat)>)
    requires Lawful(m)
    requires i < |strikes| && strikes[i] > 0.0
    requires i < data.Length0 && data.Length1 == |vols|
    requires forall j :: 0 <= j < |vols| ==> vols[j] > 0.0
    requires base.S0 > 0.0 && base.T > 0.0
    requires option.S0 == base.S0 && option.T == base.T && option.r == base.r
    modifies option, data
    ensures forall a, b :: 0 <= a < data.Length0 && 0 <= b < data.Length1 ==>
              data[a, b] == if a == i then CallPrice(m, base.(K := strikes[i], sigma := vols[b]))
                            else old(data[a, b])
    ensures option.S0 == base.S0 && option.T == base.T && option.r == base.r
    ensures |vols| > 0 ==> option.K == strikes[i] && option.sigma == vols[|vols| - 1]
    ensures |vols| == 0 ==> option.Snapshot() == old(option.Snapshot())
    ensures |written| == |vols| && forall j :: 0 <= j < |vols| ==> written[j] == (i, j)
  {
    written := [];
    for j := 0 to |vols|
      invariant |written| == j && forall b :: 0 <= b < j ==> written[b] == (i, b)
      invariant forall a, b :: 0 <= a < data.Length0 && 0 <= b < data.Length1 ==>
                  data[a, b] == if a == i && b < j then CallPrice(m, base.(K := strikes[i], sigma := vols[b]))
                                else old(data[a, b])
      invariant option.S0 == base.S0 && option.T == base.T && option.r == base.r
      invariant j > 0 ==> option.K == strikes[i] && option.sigma == vols[j - 1]
      invariant j == 0 ==> option.Snapshot() == old(option.Snapshot())
    {
      option.K := strikes[i];
      option.sigma := vols[j];
      assert option.Snapshot() == base.(K := strikes[i], sigma := vols[j]);
      data[i, j] := option.CalculateCallPrice(m);
      written := written + [(i, j)];
    }
  }

  /** With S0 <= 25 the first strike is not positive, so the first row of the
      grid lies outside the modelled domain. In float64 a zero strike (S0 = 25)
      makes S0 / K infinite and the call price S0; a negative one makes the
      logarithm nan. The model prices neither. */
  lemma LowSpotLeavesDomain(p: Params, j: nat)
    requires p.S0 <= 25.0 && j < 50
    ensures !p.(K := GridStrikes(p.S0)[0], sigma := GridVolatilities()[j]).Priceable()
  {
  }
}
