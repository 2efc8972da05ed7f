# Election-night winning probability: a verified model

`elections.py` estimates, during a vote count, the probability that a
candidate ends up with more than half of the vote. The belief about the
candidate's true vote share starts as a Beta prior. That prior is given by a
mean `mu` and a standard deviation `sigma` and turned into shape parameters
by the method of moments (`alpha_beta`). For each hypothetical share of the
counted votes in favour, the counted votes update the prior
(`winning_probabilities`). The answer is `1 - CDF(0.5)` of the posterior.
A small helper (`line`) picks the matplotlib style of each curve in a plotted
family.

The model has three modules, one per piece of logic:

- `LineStyle` (`line_style.dfy`): `line(i, total)` as a pure function on
  integers, with the median `(total - 1) / 2` taken by real division, as
  Python 3's `/` does.
- `BetaPrior` (`beta_prior.dfy`): `alpha_beta` over exact reals, with the
  mean and variance of a Beta distribution as reference definitions.
- `Posterior` (`posterior.dfy`): `winning_probabilities` as a method whose
  loop builds the result list by appending, as the source does. It is proved
  against a per-scenario function.

The Beta distribution function at 0.5 comes from a numerical library. In
the model it is an argument `betaCdfHalf: (real, real) -> real` of the
method, so every property holds whatever that function computes. The range
property assumes only that it returns values in `[0, 1]` on positive shape
parameters, where a Beta distribution exists, and it holds for valid inputs,
which make the posterior's parameters positive.

## Model

| member | source | states |
|---|---|---|
| `LineStyle.Median` | elections.py:18 | the median index `(total - 1) / 2` by true division: twice it is exactly `total - 1` |
| `LineStyle.Line` | elections.py:8-24 | the style is always one of `'b-'`, `'r-'`, `'g-'` |
| `LineStyle.TwoLines` | elections.py:12-16 | with exactly two lines, index 0 is `'b-'`, every nonzero index is `'r-'`, never `'g-'` |
| `LineStyle.Bands` | elections.py:18-24 | for `total != 2`: `'b-'` iff `i < median - 0.5`, `'r-'` iff `i > median + 0.5`, `'g-'` iff `i` lies in between (both directions) |
| `LineStyle.IntegerBands` | elections.py:18-24 | the same three bands with integers only: `2i < total - 2`, `2i > total`, `total - 2 <= 2i <= total` |
| `LineStyle.Mirror` | elections.py:12-24 | reversing the family (`i` to `total - 1 - i`) swaps `'b-'` and `'r-'` and keeps `'g-'`; with two lines this holds for the two drawn indices |
| `LineStyle.GreenBand` | elections.py:18-24 | for one line or more than two lines, the green indices among `0..total-1` are exactly the middle one (odd `total`) or the middle two (even `total`) |
| `LineStyle.GreenCount` | elections.py:18-24 | hence one green line for odd `total` (including a single line), two for even `total > 2` |
| `BetaPrior.FromMoments` | elections.py:29-30 | the two lines of `alpha_beta` with the variance as input; the pair always satisfies `(alpha + beta) mu == alpha`, the mean condition without division |
| `BetaPrior.AlphaBeta` | elections.py:26-31 | `alpha_beta` over exact reals; requires `mu != 0` and `sigma != 0` (where the source raises ZeroDivisionError); satisfies `(alpha + beta) mu == alpha`; its promised properties are `MeanIsMu`, `VarianceIsSigmaSquared`, `PositiveIff` and `RoundTrip` |
| `BetaPrior.MeanIsMu` | elections.py:26-31 | whenever `alpha != 0`, the returned Beta has mean `alpha / (alpha + beta) == mu` |
| `BetaPrior.VarianceIsSigmaSquared` | elections.py:26-31 | whenever `alpha != 0` and `mu != 1` (in particular whenever `alpha > 0`), the returned Beta has variance `sigma^2`, i.e. standard deviation `sigma` |
| `BetaPrior.PositiveAlphaMeanBelowOne` | elections.py:29-30 | at `mu == 1` alpha is `-1`, so a positive alpha rules out `mu == 1` and the variance row above covers every positive alpha |
| `BetaPrior.PositiveIff` | elections.py:29-30 | for `0 < mu < 1`: `alpha > 0` iff `sigma^2 < mu (1 - mu)`, and `alpha > 0` implies `beta > 0` |
| `BetaPrior.RoundTrip` | elections.py:29-30 | for any `alpha, beta > 0` and any `sigma` whose square is their variance, `alpha_beta(mean, sigma)` gives back exactly `(alpha, beta)` |
| `BetaPrior.VarianceClosedForm` | elections.py:27-28 | the variance used above equals `alpha beta / ((alpha + beta)^2 (alpha + beta + 1))` |
| `Posterior.Split` | elections.py:43-44 | votes in favour plus votes against equal the counted votes; both are nonnegative when the counted votes are and the fraction is in `[0, 1]`; both are zero when nothing is counted |
| `Posterior.Update` | elections.py:45-46 | the posterior's `alpha + beta` is the prior's plus the counted votes; with nonnegative counts and a fraction in `[0, 1]` neither parameter decreases |
| `Posterior.WinningProbability` | elections.py:43-47 | one entry of the result: `1 - CDF(0.5)` of the updated prior; with no counted votes it is the prior's `1 - CDF(0.5)` |
| `Posterior.WinningProbabilities` | elections.py:33-49 | the result has one entry per fraction in favour, in order; entry `k` is `1 - CDF(0.5)` of Beta(`prior_alpha + c f_k`, `prior_beta + (c - c f_k)`) with `c = total_votes * fraction_counted`; with `total_votes == 0` or `fraction_counted == 0` every entry is the prior's `1 - CDF(0.5)`; for a valid belief (`0 < mu < 1`, `sigma^2 < mu (1 - mu)`), nonnegative `total_votes`, `fraction_counted` and every fraction in favour in `[0, 1]`, and a CDF that is a probability on positive shape parameters, all entries lie in `[0, 1]` |
| `Posterior.UpdateKeepsPositive` | elections.py:43-46 | positive prior parameters stay positive after the update when the counted votes are nonnegative and the fraction is in `[0, 1]` |
| `Posterior.ValidBeliefValidPosterior` | elections.py:38-46 | a belief with `0 < mu < 1` and `sigma^2 < mu (1 - mu)`, a nonnegative `total_votes` and fractions in `[0, 1]` yield a posterior with positive parameters |
| `Posterior.NothingCounted` | elections.py:39-47 | with `total_votes == 0` or `fraction_counted == 0`, the posterior is the prior and the probability does not depend on the fraction in favour |
| `Posterior.ProbabilityInUnit` | elections.py:38-47 | for a valid belief, nonnegative `total_votes` and fractions in `[0, 1]`, the posterior has positive shape parameters, so a CDF that lies in `[0, 1]` on positive parameters (nothing is assumed on non-positive ones) makes the winning probability lie in `[0, 1]` |

## Left out

- `varying_mu`, `varying_sigma`, `varying_total_votes`, `varying_fraction_counted` (elections.py:51-129): matplotlib figures, titles, plots and legends. Their only logic is calling `winning_probabilities` and `line` in a loop.
- The `__main__` block (elections.py:131-153): configuration constants, `np.linspace` grids and `matplotlib.pyplot.show()`.
- The numerics of `scipy.stats.beta(...).cdf(.5)`: a foreign floating-point routine, passed in as the argument `betaCdfHalf`. For that reason, monotonicity in the fraction in favour and convergence towards 0 or 1 as more votes are counted are not stated. Both depend on how the CDF behaves.
- `betaCdfHalf` on non-positive shape parameters: there the Beta distribution does not exist and the library gives nan, so the source's entry is nan. The model's argument always returns a real, and no property assumes anything about its value there.
- Floating-point rounding, overflow and underflow: every quantity is an exact `real`.
- Python's `ZeroDivisionError` at `mu == 0` or `sigma == 0` in `alpha_beta`: these are preconditions (`mu != 0`, `sigma != 0`) of `AlphaBeta` and `WinningProbabilities`.
- Input validation: the code has no invalid-prior error and does not reject negative `total_votes` or fractions outside `[0, 1]`. It returns whatever the formulas give. The model follows the code. Validity appears only as hypotheses: of `PositiveIff`, `UpdateKeepsPositive`, `ValidBeliefValidPosterior` and `ProbabilityInUnit`, of the conditional `ensures` of `Split` and `Update`, and of the range `ensures` of `WinningProbabilities`.
- Python 2 integer division in `line`: the median `(total - 1) / 2` is true division, as in Python 3. The source has no `from __future__ import division`. Under Python 2 the median would round down, and for example `line(2, 4)` would be `'r-'` rather than `'g-'`.
- `line` on non-integer arguments: `if i:` is Python truthiness. The model takes `i` and `total` as integers, so the test is `i != 0`.
- `sigma` enters only through `sigma * sigma`. A negative `sigma` is accepted and behaves like its absolute value, as in the source.
