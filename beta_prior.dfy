// Method-of-moments parameterisation of a Beta prior: from a believed mean
// `mu` and standard deviation `sigma` of the candidate's vote share to the
// shape parameters (alpha, beta). All quantities are exact reals.
module BetaPrior {

  datatype BetaParams = BetaParams(alpha: real, beta: real)

  /** Mean of Beta(alpha, beta): alpha / (alpha + beta). */
  function Mean(alpha: real, beta: real): real
    requires alpha + beta != 0.0
  {
    alpha / (alpha + beta)
  }

  /** Variance of Beta(alpha, beta), as mean (1 - mean) / (alpha + beta + 1);
      `VarianceClosedForm` gives it as alpha beta / ((alpha + beta)^2 (alpha + beta + 1)). */
  function Variance(alpha: real, beta: real): real
    requires alpha + beta != 0.0 && alpha + beta + 1.0 != 0.0
  {
    Mean(alpha, beta) * (1.0 - Mean(alpha, beta)) / (alpha + beta + 1.0)
  }

  /** The two lines of `alpha_beta` with the variance `sigma ** 2` as input:
      alpha = mu^2 ((1 - mu) / variance - 1 / mu), beta = alpha (1 / mu - 1). */
  function FromMoments(mu: real, variance: real): (p: BetaParams)
    requires mu != 0.0 && variance != 0.0
    ensures (p.alpha + p.beta) * mu == p.alpha
  {
    var alpha := mu * mu * ((1.0 - mu) / variance - 1.0 / mu);
    Scale(alpha, mu);
    MulQuot(alpha, mu);
    BetaParams(alpha, alpha * (1.0 / mu - 1.0))
  }

  /** `alpha_beta(mu, sigma)`. The source divides by `sigma ** 2` and by `mu`,
      so both must be nonzero. Nothing checks that the result is a valid Beta;
      see `PositiveIff`. */
  function AlphaBeta(mu: real, sigma: real): (p: BetaParams)
    requires mu != 0.0 && sigma != 0.0
    ensures (p.alpha + p.beta) * mu == p.alpha
  {
    SquareFacts(sigma);
    FromMoments(mu, sigma * sigma)
  }

  // ---------------------------------------------------------------------
  // Algebra of FromMoments, with the variance as a plain variable.

  /** alpha = mu (mu (1 - mu) / variance - 1). */
  lemma AlphaForm(mu: real, v: real)
    requires mu != 0.0 && v != 0.0
    ensures FromMoments(mu, v).alpha == mu * (mu * (1.0 - mu) / v - 1.0)
  {
    MulDiv(mu, 1.0 - mu, v);
    InvCancel(mu, mu);
  }

  /** alpha + beta == mu (1 - mu) / variance - 1. */
  lemma SumForm(mu: real, v: real)
    requires mu != 0.0 && v != 0.0
    ensures FromMoments(mu, v).alpha + FromMoments(mu, v).beta == mu * (1.0 - mu) / v - 1.0
  {
    AlphaForm(mu, v);
    Scale(FromMoments(mu, v).alpha, mu);
    CancelLeft(mu, mu * (1.0 - mu) / v - 1.0);
  }

  /** The variance in terms of the mean. */
  lemma VarianceAtMean(a: real, b: real, mu: real)
    requires a + b != 0.0 && a + b + 1.0 != 0.0 && Mean(a, b) == mu
    ensures Variance(a, b) == mu * (1.0 - mu) / (a + b + 1.0)
  {
    SpreadCong(Mean(a, b), mu);
    DivCong(Mean(a, b) * (1.0 - Mean(a, b)), mu * (1.0 - mu), a + b + 1.0);
  }

  /** The textbook closed form of the Beta variance. */
  lemma VarianceClosedForm(a: real, b: real)
    requires a + b != 0.0 && a + b + 1.0 != 0.0
    ensures Variance(a, b) == a * b / (a + b) / (a + b) / (a + b + 1.0)
  {
    OneMinus(a, b);
    ProdQuot(a, b, a + b);
    MeanProduct(a, b);
    DivCong(Mean(a, b) * (1.0 - Mean(a, b)), a * b / (a + b) / (a + b), a + b + 1.0);
  }

  lemma MeanProduct(a: real, b: real)
    requires a + b != 0.0
    ensures Mean(a, b) * (1.0 - Mean(a, b)) == a * b / (a + b) / (a + b)
  {
    OneMinus(a, b);
    ProdQuot(a, b, a + b);
  }

  lemma FromMomentsMean(mu: real, v: real)
    requires mu != 0.0 && v != 0.0 && FromMoments(mu, v).alpha != 0.0
    ensures var p := FromMoments(mu, v);
            p.alpha + p.beta != 0.0 && Mean(p.alpha, p.beta) == mu
  {
    Scale(FromMoments(mu, v).alpha, mu);
  }

  lemma FromMomentsVariance(mu: real, v: real)
    requires mu != 0.0 && mu != 1.0 && v != 0.0 && FromMoments(mu, v).alpha != 0.0
    ensures var p := FromMoments(mu, v);
            p.alpha + p.beta != 0.0 && p.alpha + p.beta + 1.0 != 0.0 && Variance(p.alpha, p.beta) == v
  {
    var p := FromMoments(mu, v);
    FromMomentsMean(mu, v);
    SumForm(mu, v);
    NonzeroProduct(mu, 1.0 - mu);
    QuotNonzero(mu * (1.0 - mu), v);
    VarianceAtMean(p.alpha, p.beta, mu);
    DivCongDenominator(mu * (1.0 - mu), p.alpha + p.beta + 1.0, mu * (1.0 - mu) / v);
    DivDiv(mu * (1.0 - mu), v);
  }

  lemma FromMomentsPositive(mu: real, v: real)
    requires 0.0 < mu < 1.0 && v > 0.0
    ensures FromMoments(mu, v).alpha > 0.0 <==> v < mu * (1.0 - mu)
    ensures FromMoments(mu, v).alpha > 0.0 ==> FromMoments(mu, v).beta > 0.0
  {
    AlphaForm(mu, v);
  }

  /** A valid Beta has its mean strictly between 0 and 1. */
  lemma MeanInUnit(a: real, b: real)
    requires a > 0.0 && b > 0.0
    ensures 0.0 < Mean(a, b) < 1.0
  {
    PositiveQuot(a, a + b);
    PositiveQuot(b, a + b);
    OneMinus(a, b);
  }

  /** A valid Beta has positive variance. */
  lemma VariancePositive(a: real, b: real)
    requires a > 0.0 && b > 0.0
    ensures Variance(a, b) > 0.0
  {
    MeanInUnit(a, b);
    PositiveSpread(Mean(a, b));
    VarianceAtMean(a, b, Mean(a, b));
    PositiveQuot(Mean(a, b) * (1.0 - Mean(a, b)), a + b + 1.0);
  }

  /** For a valid Beta, mean (1 - mean) / variance == alpha + beta + 1. */
  lemma SpreadOverVariance(a: real, b: real, v: real)
    requires a > 0.0 && b > 0.0 && v == Variance(a, b)
    ensures 0.0 < Mean(a, b) && v > 0.0
    ensures Mean(a, b) * (1.0 - Mean(a, b)) / v == a + b + 1.0
  {
    MeanInUnit(a, b);
    VariancePositive(a, b);
    PositiveSpread(Mean(a, b));
    VarianceAtMean(a, b, Mean(a, b));
    DivDiv(Mean(a, b) * (1.0 - Mean(a, b)), a + b + 1.0);
    DivCongDenominator(Mean(a, b) * (1.0 - Mean(a, b)), v,
                       Mean(a, b) * (1.0 - Mean(a, b)) / (a + b + 1.0));
  }

  lemma RoundTripAlpha(a: real, b: real, v: real)
    requires a > 0.0 && b > 0.0 && v == Variance(a, b)
    ensures Mean(a, b) != 0.0 && v != 0.0
    ensures FromMoments(Mean(a, b), v).alpha == a
  {
    var mu := Mean(a, b);
    SpreadOverVariance(a, b, v);
    AlphaForm(mu, v);
    MulCong(mu, mu * (1.0 - mu) / v - 1.0, a + b);
    MulQuot(a, a + b);
  }

  lemma RoundTripBeta(a: real, b: real)
    requires a > 0.0 && b > 0.0
    ensures Mean(a, b) != 0.0 && a * (1.0 / Mean(a, b) - 1.0) == b
  {
    PositiveQuot(a, a + b);
    Recip(a, a + b);
    SubQuot(a + b, a);
    MulCong(a, 1.0 / Mean(a, b) - 1.0, b / a);
    MulRatio(a, b);
  }

  lemma FromMomentsRoundTrip(p: BetaParams, v: real)
    requires p.alpha > 0.0 && p.beta > 0.0
    requires v == Variance(p.alpha, p.beta)
    ensures Mean(p.alpha, p.beta) != 0.0 && v != 0.0
    ensures FromMoments(Mean(p.alpha, p.beta), v) == p
  {
    RoundTripAlpha(p.alpha, p.beta, v);
    RoundTripBeta(p.alpha, p.beta);
  }

  // ---------------------------------------------------------------------
  // What the doc comment of `alpha_beta` promises.

  /** The promised mean: whenever alpha is nonzero, the Beta has mean mu. */
  lemma MeanIsMu(mu: real, sigma: real)
    requires mu != 0.0 && sigma != 0.0
    requires AlphaBeta(mu, sigma).alpha != 0.0
    ensures var p := AlphaBeta(mu, sigma);
            p.alpha + p.beta != 0.0 && Mean(p.alpha, p.beta) == mu
  {
    SquareFacts(sigma);
    FromMomentsMean(mu, sigma * sigma);
  }

  /** The promised standard deviation: whenever alpha is nonzero and mu is not
      1, the Beta has variance sigma^2 (in particular whenever alpha > 0). */
  lemma VarianceIsSigmaSquared(mu: real, sigma: real)
    requires mu != 0.0 && mu != 1.0 && sigma != 0.0
    requires AlphaBeta(mu, sigma).alpha != 0.0
    ensures var p := AlphaBeta(mu, sigma);
            p.alpha + p.beta != 0.0 && p.alpha + p.beta + 1.0 != 0.0 &&
            Variance(p.alpha, p.beta) == sigma * sigma
  {
    SquareFacts(sigma);
    FromMomentsVariance(mu, sigma * sigma);
  }

  /** A mean of one forces alpha to -1, so a positive alpha rules out mu == 1
      and the variance property above covers every positive alpha. */
  lemma PositiveAlphaMeanBelowOne(mu: real, sigma: real)
    requires mu != 0.0 && sigma != 0.0
    ensures mu == 1.0 ==> AlphaBeta(mu, sigma).alpha == -1.0
    ensures AlphaBeta(mu, sigma).alpha > 0.0 ==> mu != 1.0
  {
    SquareFacts(sigma);
  }

  /** A prior belief that `alpha_beta` turns into a proper Beta distribution. */
  predicate ValidBelief(mu: real, sigma: real)
  {
    0.0 < mu < 1.0 && sigma != 0.0 && sigma * sigma < mu * (1.0 - mu)
  }

  /** When alpha_beta gives a valid Beta: for 0 < mu < 1, alpha is positive
      exactly when sigma^2 is below the largest variance mu (1 - mu) that a
      Beta with mean mu can have, and then beta is positive too. */
  lemma PositiveIff(mu: real, sigma: real)
    requires 0.0 < mu < 1.0 && sigma != 0.0
    ensures AlphaBeta(mu, sigma).alpha > 0.0 <==> sigma * sigma < mu * (1.0 - mu)
    ensures AlphaBeta(mu, sigma).alpha > 0.0 ==> AlphaBeta(mu, sigma).beta > 0.0
  {
    SquareFacts(sigma);
    FromMomentsPositive(mu, sigma * sigma);
  }

  /** Round trip: moment matching inverts the mean and variance of a valid
      Beta. For any alpha, beta > 0 and any sigma whose square is their
      variance, alpha_beta of their mean and sigma gives back (alpha, beta). */
  lemma RoundTrip(p: BetaParams, sigma: real)
    requires p.alpha > 0.0 && p.beta > 0.0
    requires sigma * sigma == Variance(p.alpha, p.beta)
    ensures Mean(p.alpha, p.beta) != 0.0 && sigma != 0.0
    ensures AlphaBeta(Mean(p.alpha, p.beta), sigma) == p
  {
    SquareFacts(sigma);
    FromMomentsRoundTrip(p, sigma * sigma);
  }

  // ---------------------------------------------------------------------
  // Single real-arithmetic steps, stated on plain variables so that the
  // proofs above only instantiate them.

  lemma MulDiv(x: real, y: real, v: real)
    requires v != 0.0
    ensures x * (y / v) == (x * y) / v
  {
  }

  lemma InvCancel(x: real, mu: real)
    requires mu != 0.0
    ensures x * mu * (1.0 / mu) == x
  {
  }

  lemma Scale(a: real, mu: real)
    requires mu != 0.0
    ensures a + a * (1.0 / mu - 1.0) == a / mu
  {
  }

  lemma CancelLeft(mu: real, x: real)
    requires mu != 0.0
    ensures (mu * x) / mu == x
  {
  }

  lemma DivCong(x: real, y: real, z: real)
    requires x == y && z != 0.0
    ensures x / z == y / z
  {
  }

  lemma DivCongDenominator(x: real, y: real, z: real)
    requires y == z && y != 0.0
    ensures x / y == x / z
  {
  }

  lemma MulCong(x: real, y: real, z: real)
    requires y == z
    ensures x * y == x * z
  {
  }

  lemma PositiveQuot(a: real, t: real)
    requires a > 0.0 && t > 0.0
    ensures a / t > 0.0
  {
  }

  lemma SpreadCong(x: real, y: real)
    requires x == y
    ensures x * (1.0 - x) == y * (1.0 - y)
  {
  }

  lemma PositiveSpread(x: real)
    requires 0.0 < x < 1.0
    ensures x * (1.0 - x) > 0.0
  {
  }

  lemma MulQuot(a: real, t: real)
    requires t != 0.0
    ensures a / t * t == a
  {
  }

  lemma MulRatio(a: real, b: real)
    requires a != 0.0
    ensures a * (b / a) == b
  {
  }

  lemma Unique(x: real, y: real, t: real)
    requires t != 0.0 && x * t == y
    ensures x == y / t
  {
  }

  lemma SubQuot(t: real, a: real)
    requires a != 0.0
    ensures t / a - 1.0 == (t - a) / a
  {
    MulQuot(t, a);
    assert (t / a - 1.0) * a == t / a * a - a;
    Unique(t / a - 1.0, t - a, a);
  }

  lemma Recip(a: real, t: real)
    requires a != 0.0 && t != 0.0
    ensures 1.0 / (a / t) == t / a
  {
  }

  lemma ProdQuot(a: real, b: real, t: real)
    requires t != 0.0
    ensures (a / t) * (b / t) == a * b / t / t
  {
    ProdQuotGeneral(a, b, t, t);
    QuotQuot(a * b, t, t);
  }

  lemma ProdQuotGeneral(a: real, b: real, t: real, u: real)
    requires t != 0.0 && u != 0.0
    ensures (a / t) * (b / u) == (a * b) / (t * u)
  {
  }

  lemma QuotQuot(a: real, t: real, u: real)
    requires t != 0.0 && u != 0.0
    ensures a / t / u == a / (t * u)
  {
  }

  lemma OneMinus(a: real, b: real)
    requires a + b != 0.0
    ensures 1.0 - a / (a + b) == b / (a + b)
  {
    AddQuot(a, b, a + b);
    SelfQuot(a + b);
  }

  lemma AddQuot(a: real, b: real, t: real)
    requires t != 0.0
    ensures a / t + b / t == (a + b) / t
  {
  }

  lemma SelfQuot(t: real)
    requires t != 0.0
    ensures t / t == 1.0
  {
  }

  /** sigma^2 is positive, in a form the solver can use wherever sigma^2 is
      passed on as an argument. */
  lemma SquareFacts(x: real)
    requires x != 0.0
    ensures x * x > 0.0 && (x * x) * (1.0 / x) == x
  {
  }

  lemma NonzeroProduct(x: real, y: real)
    requires x != 0.0 && y != 0.0
    ensures x * y != 0.0
  {
  }

  lemma QuotNonzero(x: real, y: real)
    requires x != 0.0 && y != 0.0
    ensures x / y != 0.0
  {
  }

  lemma DivDiv(m: real, v: real)
    requires m != 0.0 && v != 0.0
    ensures m / (m / v) == v
  {
  }
}
