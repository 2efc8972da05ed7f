// The posterior estimator `winning_probabilities`: the Beta prior is updated
// with the counted votes of each scenario (a conjugate Beta-Binomial update
// with real-valued pseudo-counts), and the probability that the candidate's
// true share exceeds one half is read off the posterior's distribution
// function. That distribution function is a numerical library routine; here
// it is a parameter, `betaCdfHalf(a, b)` standing for the CDF of Beta(a, b)
// at 0.5.
module Posterior {
  import opened BetaPrior

  /** How the counted votes of one scenario divide. */
  datatype VoteSplit = VoteSplit(inFavor: real, against: real)

  /** votes_in_favor = counted_votes * fraction_in_favor and
      votes_against = counted_votes - votes_in_favor. */
  function Split(countedVotes: real, fractionInFavor: real): (s: VoteSplit)
    ensures s.inFavor + s.against == countedVotes
    ensures countedVotes >= 0.0 && 0.0 <= fractionInFavor <= 1.0 ==>
              s.inFavor >= 0.0 && s.against >= 0.0
    ensures countedVotes == 0.0 ==> s == VoteSplit(0.0, 0.0)
  {
    NonnegativeProducts(countedVotes, fractionInFavor);
    VoteSplit(countedVotes * fractionInFavor, countedVotes - countedVotes * fractionInFavor)
  }

  /** The posterior Beta after observing one scenario's counted votes:
      (prior alpha + votes in favor, prior beta + votes against). */
  function Update(prior: BetaParams, countedVotes: real, fractionInFavor: real): (post: BetaParams)
    ensures post.alpha + post.beta == prior.alpha + prior.beta + countedVotes
    ensures countedVotes >= 0.0 && 0.0 <= fractionInFavor <= 1.0 ==>
              post.alpha >= prior.alpha && post.beta >= prior.beta
  {
    var s := Split(countedVotes, fractionInFavor);
    BetaParams(prior.alpha + s.inFavor, prior.beta + s.against)
  }

  /** One entry of the result: 1 - CDF(0.5) of the posterior. */
  function WinningProbability(prior: BetaParams, countedVotes: real, fractionInFavor: real,
                              betaCdfHalf: (real, real) -> real): (p: real)
    ensures countedVotes == 0.0 ==> p == 1.0 - betaCdfHalf(prior.alpha, prior.beta)
  {
    var post := Update(prior, countedVotes, fractionInFavor);
    1.0 - betaCdfHalf(post.alpha, post.beta)
  }

  /** `winning_probabilities`: one probability per scenario, in the order of
      `fractionsInFavor`, each computed from the prior given by
      `alpha_beta(priorMu, priorSigma)` and `totalVotes * fractionCounted`
      counted votes. */
  method WinningProbabilities(priorMu: real, priorSigma: real, totalVotes: real,
                              fractionCounted: real, fractionsInFavor: seq<real>,
                              betaCdfHalf: (real, real) -> real)
    returns (winningPs: seq<real>)
    requires priorMu != 0.0 && priorSigma != 0.0
    ensures |winningPs| == |fractionsInFavor|
    ensures forall k :: 0 <= k < |fractionsInFavor| ==>
              winningPs[k] == WinningProbability(AlphaBeta(priorMu, priorSigma),
                                                 totalVotes * fractionCounted,
                                                 fractionsInFavor[k], betaCdfHalf)
    ensures totalVotes == 0.0 || fractionCounted == 0.0 ==>
              forall k :: 0 <= k < |winningPs| ==>
                winningPs[k] == 1.0 - betaCdfHalf(AlphaBeta(priorMu, priorSigma).alpha,
                                                  AlphaBeta(priorMu, priorSigma).beta)
    ensures (ValidBelief(priorMu, priorSigma) && totalVotes >= 0.0 &&
             0.0 <= fractionCounted <= 1.0 &&
             (forall k :: 0 <= k < |fractionsInFavor| ==> 0.0 <= fractionsInFavor[k] <= 1.0) &&
             CdfInUnit(betaCdfHalf)) ==>
              forall k :: 0 <= k < |winningPs| ==> 0.0 <= winningPs[k] <= 1.0
  {
    var prior := AlphaBeta(priorMu, priorSigma);
    var countedVotes := totalVotes * fractionCounted;
    winningPs := [];
    for i := 0 to |fractionsInFavor|
      invariant |winningPs| == i
      invariant forall k :: 0 <= k < i ==>
                  winningPs[k] == WinningProbability(prior, countedVotes, fractionsInFavor[k], betaCdfHalf)
    {
      var votesInFavor := countedVotes * fractionsInFavor[i];
      var votesAgainst := countedVotes - votesInFavor;
      assert Split(countedVotes, fractionsInFavor[i]) == VoteSplit(votesInFavor, votesAgainst);
      winningPs := winningPs + [1.0 - betaCdfHalf(prior.alpha + votesInFavor, prior.beta + votesAgainst)];
    }
    forall k | 0 <= k < |winningPs|
      ensures totalVotes == 0.0 || fractionCounted == 0.0 ==>
                winningPs[k] == 1.0 - betaCdfHalf(prior.alpha, prior.beta)
      ensures (ValidBelief(priorMu, priorSigma) && totalVotes >= 0.0 &&
               0.0 <= fractionCounted <= 1.0 && 0.0 <= fractionsInFavor[k] <= 1.0 &&
               CdfInUnit(betaCdfHalf)) ==> 0.0 <= winningPs[k] <= 1.0
    {
      if totalVotes == 0.0 || fractionCounted == 0.0 {
        NothingCounted(prior, totalVotes, fractionCounted, fractionsInFavor[k], betaCdfHalf);
      }
      if ValidBelief(priorMu, priorSigma) && totalVotes >= 0.0 &&
         0.0 <= fractionCounted <= 1.0 && 0.0 <= fractionsInFavor[k] <= 1.0 &&
         CdfInUnit(betaCdfHalf) {
        ProbabilityInUnit(priorMu, priorSigma, totalVotes, fractionCounted,
                          fractionsInFavor[k], betaCdfHalf);
      }
    }
  }

  // ---------------------------------------------------------------------
  // Properties of the update.

  /** A valid prior stays valid: with nonnegative counted votes and a fraction
      in [0, 1], the posterior parameters are at least the prior ones, hence
      positive whenever the prior ones are. */
  lemma UpdateKeepsPositive(prior: BetaParams, countedVotes: real, fractionInFavor: real)
    requires prior.alpha > 0.0 && prior.beta > 0.0
    requires countedVotes >= 0.0 && 0.0 <= fractionInFavor <= 1.0
    ensures var post := Update(prior, countedVotes, fractionInFavor);
            post.alpha >= prior.alpha && post.beta >= prior.beta &&
            post.alpha > 0.0 && post.beta > 0.0
  {
    var s := Split(countedVotes, fractionInFavor);
    assert s.inFavor >= 0.0 && s.against >= 0.0;
  }

  /** End to end: a prior belief with sigma^2 < mu (1 - mu), a nonnegative
      electorate and fractions in [0, 1] give a posterior with positive
      parameters. */
  lemma ValidBeliefValidPosterior(mu: real, sigma: real, totalVotes: real,
                                  fractionCounted: real, fractionInFavor: real)
    requires ValidBelief(mu, sigma)
    requires totalVotes >= 0.0 && 0.0 <= fractionCounted <= 1.0
    requires 0.0 <= fractionInFavor <= 1.0
    ensures var post := Update(AlphaBeta(mu, sigma), totalVotes * fractionCounted, fractionInFavor);
            post.alpha > 0.0 && post.beta > 0.0
  {
    PositiveIff(mu, sigma);
    NonnegativeProducts(totalVotes, fractionCounted);
    UpdateKeepsPositive(AlphaBeta(mu, sigma), totalVotes * fractionCounted, fractionInFavor);
  }

  /** No counted votes, no update: the posterior is the prior and the
      probability does not depend on the scenario. */
  lemma NothingCounted(prior: BetaParams, totalVotes: real, fractionCounted: real,
                       fractionInFavor: real, betaCdfHalf: (real, real) -> real)
    requires totalVotes == 0.0 || fractionCounted == 0.0
    ensures Update(prior, totalVotes * fractionCounted, fractionInFavor) == prior
    ensures WinningProbability(prior, totalVotes * fractionCounted, fractionInFavor, betaCdfHalf) ==
            1.0 - betaCdfHalf(prior.alpha, prior.beta)
  {
    ZeroProduct(totalVotes, fractionCounted);
  }

  /** A distribution function at 0.5 is a probability wherever the Beta
      distribution exists, that is, on positive shape parameters. Nothing is
      assumed about non-positive parameters, where the library gives nan. */
  ghost predicate CdfInUnit(betaCdfHalf: (real, real) -> real)
  {
    forall a, b :: a > 0.0 && b > 0.0 ==> 0.0 <= betaCdfHalf(a, b) <= 1.0
  }

  /** For a valid belief, a nonnegative electorate and fractions in [0, 1],
      the posterior is a proper Beta distribution, so a distribution function
      that is a probability on proper Betas makes every winning probability
      lie in [0, 1]. */
  lemma ProbabilityInUnit(mu: real, sigma: real, totalVotes: real, fractionCounted: real,
                          fractionInFavor: real, betaCdfHalf: (real, real) -> real)
    requires ValidBelief(mu, sigma)
    requires totalVotes >= 0.0 && 0.0 <= fractionCounted <= 1.0
    requires 0.0 <= fractionInFavor <= 1.0
    requires CdfInUnit(betaCdfHalf)
    ensures 0.0 <= WinningProbability(AlphaBeta(mu, sigma), totalVotes * fractionCounted,
                                      fractionInFavor, betaCdfHalf) <= 1.0
  {
    ValidBeliefValidPosterior(mu, sigma, totalVotes, fractionCounted, fractionInFavor);
    var post := Update(AlphaBeta(mu, sigma), totalVotes * fractionCounted, fractionInFavor);
    assert 0.0 <= betaCdfHalf(post.alpha, post.beta) <= 1.0;
  }

  // ---------------------------------------------------------------------
  // Real-arithmetic steps.

  lemma NonnegativeProducts(c: real, f: real)
    ensures c >= 0.0 && f >= 0.0 ==> c * f >= 0.0
    ensures c >= 0.0 && f <= 1.0 ==> c - c * f >= 0.0
    ensures c == 0.0 ==> c * f == 0.0
  {
    if c >= 0.0 && f >= 0.0 { NonnegativeProduct(c, f); }
    if c >= 0.0 && f <= 1.0 { NonnegativeProduct(c, 1.0 - f); }
  }

  lemma NonnegativeProduct(x: real, y: real)
    requires x >= 0.0 && y >= 0.0
    ensures x * y >= 0.0
  {
  }

  lemma ZeroProduct(x: real, y: real)
    ensures x == 0.0 || y == 0.0 ==> x * y == 0.0
  {
  }
}
