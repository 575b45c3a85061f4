# ModelProbGen probability engine in Dafny

This project models the probability engine of ModelProbGen (`prob_agent.py`), which prices football matches. It also proves the structural properties the engine promises:

- **Rates.** For a fixture, `ProbabilityAgent._lambdas` looks up the league, then the home team, then the away team. The first one missing is the error. It then turns the ratings into two expected-goal rates, `mu * exp(home_advantage + attack_home - defense_away)` and `mu * exp(attack_away - defense_home)`.
- **Score matrix.** `_score_matrix` fills a `(max_goals+1) × (max_goals+1)` grid, in nested loops, with products of two Poisson masses (`_poisson_pmf`). When `dc_rho != 0` it then multiplies the four low scores in place: 0-0 and 1-1 by `1 + dc_rho`, 1-0 and 0-1 by `1 - dc_rho`. Finally it divides every cell by the new total.
- **Markets.** `_sum_outcomes`, `_over_under`, `_btts`, the draw-no-bet and double-chance code of `predict`, and the clamp `_safe` reduce the grid to named prices. Each price is built from sums of cells over a predicate on the score `(i, j)`: under is `1 - over`, both-teams-to-score yes is `1` minus the mass where some side fails to score, and the draw-no-bet prices are quotients of such sums.

Modules, one per part of the program:

| file | module | models |
|---|---|---|
| `arith.dfy` | `Arith` | small facts about products and quotients of reals, used cell by cell |
| `results.dfy` | `Results` | the result type that replaces Python exceptions |
| `sums.dfy` | `Sums` | prefix sums of reals |
| `poisson.dfy` | `Poisson` | `_poisson_pmf`, with `exp` as a parameter |
| `grid.dfy` | `Grid` | square grids (`seq<seq<real>>`), sums over index predicates, transposition, division |
| `score_matrix.dfy` | `ScoreMatrix` | `_score_matrix` as a specification function `Distribution`, and as methods over an `array2<real>` proved against it |
| `markets.dfy` | `Markets` | the market reductions and the `Prediction` record |
| `prob_agent.dfy` | `ProbAgent` | the records, the `ProbabilityAgent` class, `_lambdas` and `predict` |

How Python behaviour is represented:

- Floats are `real`.
- `math.exp` is the parameter `exp: real -> real`. Every lemma that needs `exp` to be positive says so with the predicate `PositiveEverywhere(exp)`.
- `lmbda ** k` and `math.factorial(k)` are exact natural-number and real values. The conversion of `k!` to a float, which overflows for `k >= 171`, is not modelled (see "## Left out").
- A negative `max_goals` gives an empty grid, because `range(max_goals + 1)` is empty.
- `_lambdas` raises `ValueError` for a missing league or team. This becomes an error result (`LeagueNotFound`, `HomeTeamNotFound`, `AwayTeamNotFound`) that carries the missing name.
- The renormalising division in `_score_matrix` is not guarded. When the reweighted total is 0 on a non-empty grid, Python raises `ZeroDivisionError`. The model returns `Err(ZeroTotalMass)` there, surfaced by `predict` as `DivisionByZero`. This happens, for example, with `max_goals == 0` and `dc_rho == -1` for any rates (`NilNilGridWeightedToZero`), or with `mu <= 0` and `dc_rho == -1` (`PredictionWithoutScoring`).

Three behaviours of the code that a reader might not expect:

- **Rates need not be positive.** prob_agent.py:86-87 multiplies by the league's `mu` without checking it, so `mu <= 0` gives non-positive rates. `_poisson_pmf` then treats them as the point mass at zero goals (`LambdasSign`, `PredictionWithoutScoring`).
- **Cells are non-negative only for some correlations.** Non-negativity of every cell is proved for `-1 <= dc_rho <= 1` (`DistributionNonnegative`). For `dc_rho > 1` the weight `1 - dc_rho` of the 1-0 and 0-1 cells is negative. For `dc_rho < -1` the weight `1 + dc_rho` of the 0-0 and 1-1 cells is negative. A negative total after reweighting then flips the sign of every cell in the division. Outside the range the sign depends on the rates; for two non-positive rates the matrix is still a non-negative point mass whenever `dc_rho != -1` (`DegenerateDistribution`). `_safe` clamps the resulting prices into [0, 1].
- **`predict` returns 14 fields.** These are twelve prices and the two rates. main.py:15-32 declares a response with 17 fields. Nothing in the code computes the last three (`HomeFormStability`, `AwayFormStability`, `FormStability`).

## Model

| member | source | states |
|---|---|---|
| Poisson.Power | prob_agent.py:10 | `lmbda ** k` is positive for a positive base |
| Poisson.Factorial | prob_agent.py:10 | `k!` is at least 1, so the division in the mass is defined |
| Poisson.Pmf | prob_agent.py:7-10 | a non-positive rate is the point distribution at zero goals: mass 1 exactly when `k == 0` and mass 0 exactly when `k != 0` |
| Poisson.PmfSign | prob_agent.py:7-10 | with a positive `exp` every mass is non-negative, and strictly positive for a positive rate |
| Poisson.Masses | prob_agent.py:15-17 | the list of masses `pmf(rate, k)` for `k < n`, one per goal count |
| Poisson.DegenerateMass | prob_agent.py:8-9 | a non-positive rate puts total mass exactly 1 on any grid that keeps zero goals |
| Grid.SumWhere | prob_agent.py:31-43 | the mass of the cells whose score satisfies a predicate (the generator sums of `_sum_outcomes`, `_over_under` and `_btts`): 0 on an empty grid and never negative on a non-negative grid; `SumWhereSplit`, `SumWhereBounds`, `SumWhereTranspose` and `SumWhereDivide` characterise it |
| Grid.Total | prob_agent.py:25 | `sum(mat.values())`: 0 on an empty grid and never negative on a non-negative grid |
| Grid.Divide | prob_agent.py:26-27 | every cell divided by the same `s`, shape unchanged |
| Grid.SumWhereSplit | prob_agent.py:30-34 | sums over two predicates that split a third add up to the sum over it |
| Grid.SumWhereBounds | prob_agent.py:30-47 | on a grid without negative cells every predicate sum lies between 0 and the total mass |
| Grid.SumWhereTranspose | prob_agent.py:30-34 | a sum over the transposed grid is the sum over the mirrored predicate |
| Grid.SumWhereDivide | prob_agent.py:26-27 | dividing every cell by `s` divides every predicate sum by `s` |
| Grid.NormaliseTotal | prob_agent.py:25-27 | dividing every cell by a non-zero total gives total mass exactly 1 |
| Grid.DivideNonnegative | prob_agent.py:26-27 | dividing by a positive total keeps every cell non-negative |
| Grid.SumWhereOfSingleCell | prob_agent.py:30-47 | on a grid with one non-zero cell a sum is that cell when the predicate takes it, else 0 |
| Grid.OuterProductTotal | prob_agent.py:14-18 | a grid of products `xs[i] * ys[j]` has total mass `sum(xs) * sum(ys)` |
| ScoreMatrix.GridSize | prob_agent.py:14 | the grid is empty exactly when `max_goals < 0`, and otherwise has `max_goals + 1` goal counts per side |
| ScoreMatrix.PairMass | prob_agent.py:18 | `p_i * p_j`; a non-positive rate on one side confines the mass to zero goals for that side, leaving the other side's Poisson mass |
| ScoreMatrix.Independent | prob_agent.py:14-18 | an `n × n` grid whose cell (i, j) is `pmf(lambda_home, i) * pmf(lambda_away, j)` |
| ScoreMatrix.LowScoreWeight | prob_agent.py:21 | the `corr` factor: `1 + rho` on 0-0 and 1-1, `1 - rho` on 1-0 and 0-1, and 1 on every other score |
| ScoreMatrix.Reweight | prob_agent.py:20-24 | every cell multiplied by its low-score weight, shape unchanged |
| ScoreMatrix.Correct | prob_agent.py:19-27 | the correction fails exactly when `rho != 0`, the grid is non-empty and the reweighted total is 0; otherwise it keeps the grid's size |
| ScoreMatrix.Distribution | prob_agent.py:12-28 | the matrix has side `GridSize(max_goals)`, and the division by zero happens exactly when `rho != 0`, `max_goals >= 0` and the reweighted independent grid has total 0 |
| ScoreMatrix.Cells | prob_agent.py:13 | the grid an `array2` holds, cell for cell |
| ScoreMatrix.FillIndependent | prob_agent.py:14-18 | after the nested loops the array holds exactly the independent grid |
| ScoreMatrix.ReweightLowScores | prob_agent.py:20-24 | each cell of the array becomes its old value times its low-score weight: 1 + rho on 0-0 and 1-1, 1 - rho on 1-0 and 0-1, unchanged elsewhere and where the grid lacks the cell |
| ScoreMatrix.DivideAll | prob_agent.py:26-27 | the array becomes its old grid with every cell divided by `s` |
| ScoreMatrix.ApplyCorrection | prob_agent.py:19-27 | the in-place correction fails exactly when `Correct` does, and otherwise leaves `Correct` of the old grid in the array |
| ScoreMatrix.BuildScoreMatrix | prob_agent.py:12-28 | returns a square array whose cells are `Distribution`, or the same error when `Distribution` fails |
| ScoreMatrix.IndependentMass | prob_agent.py:14-18 | the independent grid's total is the product of the two truncated Poisson masses |
| ScoreMatrix.UncorrelatedIsUnnormalised | prob_agent.py:19 | with `rho == 0` the independent grid is returned as is, with total mass equal to the product of the truncated masses (not renormalised) |
| ScoreMatrix.ReweightOnlyLowScores | prob_agent.py:20-24 | reweighting leaves every cell outside 0-0, 1-0, 0-1 and 1-1 untouched |
| ScoreMatrix.CorrelationReweightsLowScores | prob_agent.py:19-27 | with correlation each cell is its independent mass times its weight divided by one total `s`, and `s != 0` on a non-empty grid |
| ScoreMatrix.NormalisedMass | prob_agent.py:25-27 | after the correlation step the matrix has total mass exactly 1 |
| ScoreMatrix.IndependentNonnegative | prob_agent.py:14-18 | with a positive `exp` no independent cell is negative |
| ScoreMatrix.ReweightNonnegative | prob_agent.py:21-24 | for `-1 <= rho <= 1` reweighting keeps a non-negative grid non-negative |
| ScoreMatrix.CorrectNonnegative | prob_agent.py:19-27 | for `-1 <= rho <= 1` the whole correction keeps a non-negative grid non-negative |
| ScoreMatrix.DistributionNonnegative | prob_agent.py:12-28 | with a positive `exp` and `-1 <= rho <= 1` no cell of the matrix is negative |
| ScoreMatrix.TransposeIndependent | prob_agent.py:14-18 | swapping the two rates transposes the independent grid |
| ScoreMatrix.TransposeReweight | prob_agent.py:20-24 | the low-score weights are symmetric, so reweighting commutes with transposition |
| ScoreMatrix.TransposeDivide | prob_agent.py:26-27 | dividing by `s` commutes with transposition |
| ScoreMatrix.CorrectTranspose | prob_agent.py:19-27 | the correction succeeds on the transpose exactly when on the grid, and commutes with transposition |
| ScoreMatrix.DistributionOfSwappedRates | prob_agent.py:12-28 | swapping the rates succeeds or fails alike and transposes the matrix |
| ScoreMatrix.DegenerateDistribution | prob_agent.py:8-28 | two non-positive rates: the division by zero happens exactly when `rho == -1`, and otherwise all mass is on 0-0 |
| ScoreMatrix.NilNilGridWeightedToZero | prob_agent.py:19-27 | with `max_goals == 0` and `rho == -1` the division by zero happens for any rates |
| Markets.SumOutcomes | prob_agent.py:30-34 | home, draw and away add up to the total mass of the grid |
| Markets.SumOutcomesTranspose | prob_agent.py:30-34 | on the transposed grid home and away win probabilities trade places and the draw stays |
| Markets.Over | prob_agent.py:37 | the scores with strictly more than `line` goals, the exact complement of those counted as under |
| Markets.OverUnder | prob_agent.py:36-39 | over is the mass of the scores above the line; over and under sum to 1; under is the mass at or below the line (ties count as under) plus the mass missing from the grid |
| Markets.NilNilMass | prob_agent.py:44 | `mat.get((0, 0), 0.0)` is the sum over the single score 0-0, which is 0 on an empty grid |
| Markets.Btts | prob_agent.py:41-47 | yes and no sum to 1; yes is the mass of the scores where both sides score plus the mass missing from the grid |
| Markets.Safe | prob_agent.py:49-50 | the clamp lies in [0, 1], is the identity on [0, 1], sends negatives to 0 and values above 1 to 1 |
| Markets.SafeIdempotent | prob_agent.py:49-50 | clamping twice is clamping once |
| Markets.SafeMonotone | prob_agent.py:49-50 | the clamp preserves order |
| Markets.DrawNoBet | prob_agent.py:96-100 | 0.5/0.5 when `1 - p_draw <= 0`, otherwise each result's chance divided by the chance of no draw (`r * (1 - p_draw)` gives back the chance) |
| Markets.DrawNoBetSumsToOne | prob_agent.py:96-100 | when home, draw and away sum to 1 the two draw-no-bet prices sum to 1, in either branch |
| Markets.DrawNoBetBounded | prob_agent.py:96-100 | for non-negative results summing to 1 both draw-no-bet prices lie in [0, 1] |
| Markets.MarketsOf | prob_agent.py:93-119 | every price of the prediction lies in [0, 1], and the two rates are passed through unchanged |
| Markets.ProperMarkets | prob_agent.py:93-116 | on a non-negative grid of total mass 1: results, over/under, yes/no and the two draw-no-bet prices each sum to 1, and each double chance is the complement of the third result |
| Markets.MarketsOfTranspose | prob_agent.py:93-119 | the transposed grid with the rates exchanged gives the same prediction with home and away exchanged |
| Markets.PointMassMarkets | prob_agent.py:93-116 | all mass on 0-0: draw 1, home and away 0, yes 0 and no 1, over 1 only for a negative line, draw no bet falls back to 0.5/0.5 |
| ProbAgent.ProbabilityAgent.constructor | prob_agent.py:72-74 | the agent holds exactly the given rating and league tables |
| ProbAgent.ProbabilityAgent.Lambdas | prob_agent.py:76-88 | the missing league is reported first, then the missing home team, then the missing away team, each with its name; success exactly when all three are present, with that league's parameters |
| ProbAgent.ProbabilityAgent.LambdasSign | prob_agent.py:86-87 | with a positive `exp` both rates are positive when `mu > 0` and non-positive when `mu <= 0` |
| ProbAgent.ProbabilityAgent.LambdasOfSwappedTeams | prob_agent.py:86-87 | without home advantage, swapping the teams swaps the two rates |
| ProbAgent.ProbabilityAgent.Evaluate | prob_agent.py:90-119 | lookup errors propagate unchanged; every price of a prediction lies in [0, 1] and the rates are those of `_lambdas`; `DivisionByZero` exactly when the lookups succeed and the matrix divides by zero |
| ProbAgent.ProbabilityAgent.Predict | prob_agent.py:90-119 | the method, building the matrix in place, returns exactly `Evaluate` |
| ProbAgent.ProbabilityAgent.CorrelatedPredictionIsCoherent | prob_agent.py:90-119 | with a positive `exp`, `dc_rho` in [-1, 1] other than 0 and `max_goals >= 0`, complementary prices sum to 1 |
| ProbAgent.ProbabilityAgent.PredictionOfSwappedTeams | prob_agent.py:90-119 | without home advantage the reversed fixture gets the same prediction with the sides exchanged |
| ProbAgent.ProbabilityAgent.PredictionWithoutScoring | prob_agent.py:90-119 | with `mu <= 0`: division by zero exactly when `dc_rho == -1`, otherwise a certain draw with no one scoring and draw no bet at 0.5/0.5 |

## Left out

- Loading the ratings and league tables from JSON (prob_agent.py:121-129) is file I/O. The tables are the constructor's arguments.
- The HTTP layer of main.py is not part of this model: loading the configuration at start-up, the `/predict` route that turns every exception into status 400, and `/health`.
- The three form-stability fields of the HTTP response schema are not part of this model. No code computes them.
- Floating point is not modelled: rounding, the order of summation, NaN, infinities, and Python's `OverflowError` for very large powers or exponentials.
- ProbAgent.ProbabilityAgent.Evaluate (and `Predict`, which returns it): the float division by `math.factorial(k)` at prob_agent.py:10 raises `OverflowError` for every `k >= 171` with a positive rate, because `k!` no longer converts to a float. So `predict` with `max_goals >= 171` raises where the model returns a prediction. Only the HTTP layer's bound `6 <= max_goals <= 15` (main.py:37) keeps such calls out.
- `math.exp` is a parameter. No numeric property of the real exponential is used beyond positivity. So the numeric claims are not stated:
  - closeness of the total mass to 1 for finite `max_goals` (truncation error);
  - the concrete rates of a worked example;
  - that a positive `dc_rho` raises the draw probability for given rates.
- `Fixture.date` is carried in the record but never used, as in the source.
- The text of the `ValueError` messages is not modelled. Each error carries the missing name instead.
- ProbAgent.ProbabilityAgent.LambdasOfSwappedTeams: with a non-zero home advantage the rates of the reversed fixture are not a swap, so the symmetry is stated only for `home_advantage == 0`.
