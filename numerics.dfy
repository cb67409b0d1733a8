/** The real-valued library functions the pricer calls: numpy's `log`, `exp`
    and `sqrt`, and scipy's standard normal `norm.cdf` and `norm.pdf`.

    Dafny has none of them, so they are carried as a record of total
    functions over the reals, and `Lawful` names the few facts about them
    that the proofs use. Every theorem of the model holds for any record
    that satisfies `Lawful`, in particular for the true functions. */
module Numerics {

  datatype Library = Library(
    log: real -> real,   // natural logarithm (meaningful on x > 0)
    exp: real -> real,   // exponential
    sqrt: real -> real,  // square root (meaningful on x >= 0)
    cdf: real -> real,   // standard normal cumulative distribution function
    pdf: real -> real    // standard normal density
  )

  /** The stated facts about the library functions that pricing relies on. */
  ghost predicate Lawful(m: Library)
  {
    (forall x :: 0.0 <= m.cdf(x) <= 1.0) &&
    (forall x :: m.pdf(x) > 0.0) &&
    (forall x :: m.exp(x) > 0.0) &&
    (forall x :: x >= 0.0 ==> m.sqrt(x) >= 0.0 && m.sqrt(x) * m.sqrt(x) == x)
  }

  /** The symmetry of the standard normal distribution: Phi(x) + Phi(-x) = 1.
      Kept apart from `Lawful` because only the parity results use it. */
  ghost predicate CdfSymmetric(m: Library)
  {
    forall x :: m.cdf(x) + m.cdf(-x) == 1.0
  }

  /** The square root of a positive number is positive. */
  lemma SqrtPositive(m: Library, x: real)
    requires Lawful(m)
    requires x > 0.0
    ensures m.sqrt(x) > 0.0
  {
    var s := m.sqrt(x);
    assert s >= 0.0 && s * s == x;
  }
}
