/** The Black-Scholes pricer of `model/black_scholes.py`: a mutable object
    holding five parameters, and closed-form prices of a European call and
    put computed from whatever values the fields hold when a price is asked. */
module BlackScholesModel {
  import opened Numerics

  /** The values of the five fields at one moment. */
  datatype Params = Params(S0: real, K: real, T: real, r: real, sigma: real)
  {
    /** Where the closed form is defined: the logarithm needs S0 / K > 0 and
        the division needs sigma * sqrt(T) != 0. The source has no guard. At
        T = 0 or sigma = 0 its float64 division makes d1 and d2 infinite, so
        it still returns finite intrinsic-value prices (nan when the
        numerator of d1 is also 0); at a float64 strike K = 0, S0 / K is
        infinite and the call price is S0. The model does not price there. */
    predicate Priceable()
    {
      S0 > 0.0 && K > 0.0 && T > 0.0 && sigma > 0.0
    }
  }

  /** d1 = (ln(S0 / K) + (r + sigma^2 / 2) T) / (sigma sqrt(T)). */
  function D1(m: Library, p: Params): real
    requires Lawful(m) && p.Priceable()
  {
    SqrtPositive(m, p.T);
    (m.log(p.S0 / p.K) + (p.r + 0.5 * p.sigma * p.sigma) * p.T) / (p.sigma * m.sqrt(p.T))
  }

  /** d2 from a given d1: d1 - sigma sqrt(T). */
  function D2(m: Library, p: Params, d1: real): real
    requires p.T >= 0.0
  {
    d1 - p.sigma * m.sqrt(p.T)
  }

  /** The discount factor e^(-rT) applied to the strike. */
  function Discount(m: Library, r: real, T: real): real
  {
    m.exp(-r * T)
  }

  /** Call price S0 Phi(d1) - K e^(-rT) Phi(d2). */
  function CallPrice(m: Library, p: Params): real
    requires Lawful(m) && p.Priceable()
  {
    var d1 := D1(m, p);
    p.S0 * m.cdf(d1) - p.K * Discount(m, p.r, p.T) * m.cdf(D2(m, p, d1))
  }

  /** Put price K e^(-rT) Phi(-d2) - S0 Phi(-d1). */
  function PutPrice(m: Library, p: Params): real
    requires Lawful(m) && p.Priceable()
  {
    var d1 := D1(m, p);
    p.K * Discount(m, p.r, p.T) * m.cdf(-D2(m, p, d1)) - p.S0 * m.cdf(-d1)
  }

  /** The call never costs more than the stock, and the put never more than
      the discounted strike. */
  lemma PriceBounds(m: Library, p: Params)
    requires Lawful(m) && p.Priceable()
    ensures CallPrice(m, p) <= p.S0
    ensures PutPrice(m, p) <= p.K * Discount(m, p.r, p.T)
  {
    var d1 := D1(m, p);
    var d2 := D2(m, p, d1);
    var kd := p.K * Discount(m, p.r, p.T);
    assert kd > 0.0;
    assert kd * m.cdf(d2) >= 0.0 && p.S0 * m.cdf(d1) <= p.S0 * 1.0;
    assert p.S0 * m.cdf(-d1) >= 0.0 && kd * m.cdf(-d2) <= kd * 1.0;
  }

  /** d2 lies strictly below d1, by exactly sigma sqrt(T). */
  lemma D2BelowD1(m: Library, p: Params)
    requires Lawful(m) && p.Priceable()
    ensures D1(m, p) - D2(m, p, D1(m, p)) == p.sigma * m.sqrt(p.T) > 0.0
  {
    SqrtPositive(m, p.T);
  }

  /** Put-call parity: call - put = S0 - K e^(-rT), for every priceable
      parameter set and whatever d1 and d2 turn out to be. */
  lemma PutCallParity(m: Library, p: Params)
    requires Lawful(m) && CdfSymmetric(m) && p.Priceable()
    ensures CallPrice(m, p) - PutPrice(m, p) == p.S0 - p.K * Discount(m, p.r, p.T)
  {
    var d1 := D1(m, p);
    var d2 := D2(m, p, d1);
    var kd := p.K * Discount(m, p.r, p.T);
    assert m.cdf(d1) + m.cdf(-d1) == 1.0;
    assert m.cdf(d2) + m.cdf(-d2) == 1.0;
    calc {
      CallPrice(m, p) - PutPrice(m, p);
      (p.S0 * m.cdf(d1) - kd * m.cdf(d2)) - (kd * m.cdf(-d2) - p.S0 * m.cdf(-d1));
      p.S0 * (m.cdf(d1) + m.cdf(-d1)) - kd * (m.cdf(d2) + m.cdf(-d2));
      p.S0 - kd;
    }
  }

  /** The pricing object. Its fields are public and are overwritten by the
      sweeps in the visualization code. */
  class BlackScholes {
    var S0: real
    var K: real
    var T: real
    var r: real
    var sigma: real

    /** Stores the five parameters exactly as given, without validation. */
    constructor (S0: real, K: real, T: real, r: real, sigma: real)
      ensures Snapshot() == Params(S0, K, T, r, sigma)
    {
      this.S0 := S0;
      this.K := K;
      this.T := T;
      this.r := r;
      this.sigma := sigma;
    }

    function Snapshot(): Params
      reads this
    {
      Params(S0, K, T, r, sigma)
    }

    function CalculateD1(m: Library): real
      reads this
      requires Lawful(m) && Snapshot().Priceable()
    {
      D1(m, Snapshot())
    }

    function CalculateD2(m: Library, d1: real): real
      reads this
      requires T >= 0.0
    {
      D2(m, Snapshot(), d1)
    }

    function CalculateCallPrice(m: Library): real
      reads this
      requires Lawful(m) && Snapshot().Priceable()
    {
      CallPrice(m, Snapshot())
    }

    function CalculatePutPrice(m: Library): real
      reads this
      requires Lawful(m) && Snapshot().Priceable()
    {
      PutPrice(m, Snapshot())
    }
  }

  /** The pricing functions only read the five fields: two objects (or one
      object at two moments) holding the same values get the same answers. */
  lemma PricingReadsOnlyFields(m: Library, a: BlackScholes, b: BlackScholes)
    requires Lawful(m)
    requires a.Snapshot() == b.Snapshot() && a.Snapshot().Priceable()
    ensures a.CalculateD1(m) == b.CalculateD1(m)
    ensures a.CalculateCallPrice(m) == b.CalculateCallPrice(m)
    ensures a.CalculatePutPrice(m) == b.CalculatePutPrice(m)
  {
  }
}
