/** The call-side Greeks of `visualization/option_greek.py` (and the identical
    copy in `visualization/visualization.py`), computed from the option's
    current fields through the pricer's own d1 and d2. */
module OptionGreek {
  import opened Numerics
  import opened BlackScholesModel

  datatype Greeks = Greeks(delta: real, gamma: real, vega: real, theta: real, rho: real)

  /** Delta = Phi(d1), Gamma = phi(d1) / (S0 sigma sqrt(T)),
      Vega = S0 phi(d1) sqrt(T),
      Theta = -S0 phi(d1) sigma / (2 sqrt(T)) - r K e^(-rT) Phi(d2),
      Rho = K T e^(-rT) Phi(d2). The contract gives the sign of each one. */
  function CallGreeks(m: Library, p: Params): (g: Greeks)
    requires Lawful(m) && p.Priceable()
    ensures 0.0 <= g.delta <= 1.0
    ensures g.gamma > 0.0
    ensures g.vega > 0.0
    ensures p.r >= 0.0 ==> g.theta < 0.0
    ensures g.rho >= 0.0
  {
    SqrtPositive(m, p.T);
    var d1 := D1(m, p);
    var d2 := D2(m, p, d1);
    var s := m.sqrt(p.T);
    var disc := Discount(m, p.r, p.T);
    assert p.S0 * p.sigma * s > 0.0;
    assert p.S0 * m.pdf(d1) * p.sigma > 0.0;
    assert (-p.S0 * m.pdf(d1) * p.sigma) / (2.0 * s) < 0.0;
    assert p.K * disc * m.cdf(d2) >= 0.0;
    assert p.r >= 0.0 ==> p.r * p.K * disc * m.cdf(d2) >= 0.0;
    GreeksFrom(p, s, m.pdf(d1), m.cdf(d1), m.cdf(d2), disc)
  }

  /** The five Greek formulas, given s = sqrt(T), phi(d1), Phi(d1), Phi(d2)
      and e^(-rT). */
  function GreeksFrom(p: Params, s: real, phi: real, n1: real, n2: real, disc: real): Greeks
    requires p.S0 > 0.0 && p.sigma > 0.0 && s > 0.0
  {
    Greeks(n1,
           phi / (p.S0 * p.sigma * s),
           p.S0 * phi * s,
           (-p.S0 * phi * p.sigma) / (2.0 * s) - p.r * p.K * disc * n2,
           p.K * p.T * disc * n2)
  }

  /** The left-hand side of the Black-Scholes equation for a call priced at
      `call` with Greeks `g`: Theta + sigma^2 S0^2 Gamma / 2 + r S0 Delta - r C. */
  function EquationResidual(p: Params, g: Greeks, call: real): real
  {
    g.theta + 0.5 * p.sigma * p.sigma * p.S0 * p.S0 * g.gamma + p.r * p.S0 * g.delta - p.r * call
  }

  /** The Greeks and the call price satisfy the Black-Scholes equation. */
  lemma {:induction false} BlackScholesEquation(m: Library, p: Params)
    requires Lawful(m) && p.Priceable()
    ensures EquationResidual(p, CallGreeks(m, p), CallPrice(m, p)) == 0.0
  {
    SqrtPositive(m, p.T);
    var d1 := D1(m, p);
    var s := m.sqrt(p.T);
    var phi := m.pdf(d1);
    var n2 := m.cdf(D2(m, p, d1));
    var disc := Discount(m, p.r, p.T);
    var g := GreeksFrom(p, s, phi, m.cdf(d1), n2, disc);
    assert CallGreeks(m, p) == g;
    EquationAlgebra(p, g, CallPrice(m, p), s, phi, m.cdf(d1), n2, disc);
  }

  /** The real-number identity behind BlackScholesEquation, given the Greeks
      and the call price in terms of s = sqrt(T), phi(d1), Phi(d1), Phi(d2)
      and e^(-rT). */
  lemma EquationAlgebra(p: Params, g: Greeks, call: real,
                        s: real, phi: real, n1: real, n2: real, disc: real)
    requires p.S0 > 0.0 && p.sigma > 0.0 && s > 0.0
    requires g == GreeksFrom(p, s, phi, n1, n2, disc)
    requires call == p.S0 * n1 - p.K * disc * n2
    ensures EquationResidual(p, g, call) == 0.0
  {
    assert g.gamma * (p.S0 * p.sigma * s) == phi;
    assert 0.5 * p.sigma * p.sigma * p.S0 * p.S0 * g.gamma * (2.0 * s)
        == p.sigma * p.S0 * (g.gamma * (p.S0 * p.sigma * s));
    assert 0.5 * p.sigma * p.sigma * p.S0 * p.S0 * g.gamma == (p.S0 * phi * p.sigma) / (2.0 * s);
  }

  /** Vega = S0^2 sigma T Gamma: both are driven by the same density phi(d1). */
  lemma {:induction false} VegaFromGamma(m: Library, p: Params)
    requires Lawful(m) && p.Priceable()
    ensures CallGreeks(m, p).vega == p.S0 * p.S0 * p.sigma * p.T * CallGreeks(m, p).gamma
  {
    SqrtPositive(m, p.T);
    var g := CallGreeks(m, p);
    var s := m.sqrt(p.T);
    var phi := m.pdf(D1(m, p));
    assert s * s == p.T;
    assert g.gamma * (p.S0 * p.sigma * s) == phi;
    calc {
      p.S0 * p.S0 * p.sigma * p.T * g.gamma;
      p.S0 * s * (g.gamma * (p.S0 * p.sigma * s));
      p.S0 * s * phi;
    }
  }

  /** Rho = T (S0 Delta - C): the discounted-strike leg of the call price,
      scaled by the maturity. */
  lemma RhoFromCallPrice(m: Library, p: Params)
    requires Lawful(m) && p.Priceable()
    ensures CallGreeks(m, p).rho == p.T * (p.S0 * CallGreeks(m, p).delta - CallPrice(m, p))
  {
  }
}
