/** The prediction engine (prob_agent.py, `ProbabilityAgent`): it looks up
    a fixture's league and teams, turns their ratings into two scoring
    rates, builds the score matrix and reads the markets off it. */
module ProbAgent {
  import opened Results
  import opened Poisson
  import opened Grid
  import opened ScoreMatrix
  import opened Markets
  import opened Arith

  datatype Option<T> = None | Some(value: T)

  datatype TeamRating = TeamRating(attack: real, defense: real, lastUpdated: Option<string>)

  datatype LeagueParams = LeagueParams(mu: real, homeAdvantage: real, dcRho: real)

  /** `date` takes no part in any computation. */
  datatype Fixture = Fixture(homeTeam: string, awayTeam: string, league: string, date: string)

  /** The three `ValueError`s of `_lambdas`, each carrying the missing name,
      and the division by zero of `_score_matrix`. */
  datatype PredictError =
    | LeagueNotFound(league: string)
    | HomeTeamNotFound(homeTeam: string)
    | AwayTeamNotFound(awayTeam: string)
    | DivisionByZero

  /** `(lambda_home, lambda_away, lp)`. */
  datatype Rates = Rates(lambdaHome: real, lambdaAway: real, params: LeagueParams)

  /** The same fixture with the two sides exchanged. */
  function SwapTeams(fx: Fixture): Fixture
  {
    fx.(homeTeam := fx.awayTeam, awayTeam := fx.homeTeam)
  }

  class ProbabilityAgent {
    const ratings: map<string, TeamRating>
    const leagueParams: map<string, LeagueParams>

    constructor(ratings: map<string, TeamRating>, leagueParams: map<string, LeagueParams>)
      ensures this.ratings == ratings && this.leagueParams == leagueParams
    {
      this.ratings := ratings;
      this.leagueParams := leagueParams;
    }

    /** `_lambdas`: the league is looked up first, then the home team, then
        the away team, and the first one missing is the error. The rates
        are `mu * exp(home_advantage + attack_home - defense_away)` and
        `mu * exp(attack_away - defense_home)`. */
    function Lambdas(fx: Fixture, exp: real -> real): (r: Result<Rates, PredictError>)
      ensures fx.league !in leagueParams ==> r == Err(LeagueNotFound(fx.league))
      ensures fx.league in leagueParams && fx.homeTeam !in ratings ==> r == Err(HomeTeamNotFound(fx.homeTeam))
      ensures fx.league in leagueParams && fx.homeTeam in ratings && fx.awayTeam !in ratings
              ==> r == Err(AwayTeamNotFound(fx.awayTeam))
      ensures r.Ok? <==> fx.league in leagueParams && fx.homeTeam in ratings && fx.awayTeam in ratings
      ensures r.Ok? ==> r.value.params == leagueParams[fx.league]
    {
      if fx.league !in leagueParams then Err(LeagueNotFound(fx.league))
      else
        var lp := leagueParams[fx.league];
        if fx.homeTeam !in ratings then Err(HomeTeamNotFound(fx.homeTeam))
        else if fx.awayTeam !in ratings then Err(AwayTeamNotFound(fx.awayTeam))
        else
          var h := ratings[fx.homeTeam];
          var a := ratings[fx.awayTeam];
          var lambdaHome := lp.mu * exp(lp.homeAdvantage + h.attack - a.defense);
          var lambdaAway := lp.mu * exp(a.attack - h.defense);
          Ok(Rates(lambdaHome, lambdaAway, lp))
    }

    /** With a positive `exp`, the sign of both rates is the sign of `mu`. */
    lemma LambdasSign(fx: Fixture, exp: real -> real)
      requires PositiveEverywhere(exp) && Lambdas(fx, exp).Ok?
      ensures var r := Lambdas(fx, exp).value;
              (r.params.mu > 0.0 ==> r.lambdaHome > 0.0 && r.lambdaAway > 0.0)
              && (r.params.mu <= 0.0 ==> r.lambdaHome <= 0.0 && r.lambdaAway <= 0.0)
    {
      var lp, h, a := leagueParams[fx.league], ratings[fx.homeTeam], ratings[fx.awayTeam];
      var eh, ea := exp(lp.homeAdvantage + h.attack - a.defense), exp(a.attack - h.defense);
      assert eh > 0.0 && ea > 0.0;
      if lp.mu > 0.0 {
        ProductPositive(lp.mu, eh);
        ProductPositive(lp.mu, ea);
      } else {
        ProductNonpositive(lp.mu, eh);
        ProductNonpositive(lp.mu, ea);
      }
    }

    /** Without home advantage the rate formula is symmetric: swapping the
        two teams swaps the two rates. */
    lemma LambdasOfSwappedTeams(fx: Fixture, exp: real -> real)
      requires fx.league in leagueParams && leagueParams[fx.league].homeAdvantage == 0.0
      ensures var r, s := Lambdas(fx, exp), Lambdas(SwapTeams(fx), exp);
              r.Ok? == s.Ok?
              && (r.Ok? ==> s.value == Rates(r.value.lambdaAway, r.value.lambdaHome, r.value.params))
    {
      if fx.homeTeam in ratings && fx.awayTeam in ratings {
        var lp, h, a := leagueParams[fx.league], ratings[fx.homeTeam], ratings[fx.awayTeam];
        assert lp.homeAdvantage + a.attack - h.defense == a.attack - h.defense;
        assert lp.homeAdvantage + h.attack - a.defense == h.attack - a.defense;
      }
    }

    /** What `predict` returns for a fixture, or the error it raises. */
    function Evaluate(fx: Fixture, exp: real -> real, line: real, maxGoals: int): (r: Result<Prediction, PredictError>)
      ensures Lambdas(fx, exp).Err? ==> r == Err(Lambdas(fx, exp).error)
      ensures r.Ok? ==> PricesBounded(r.value)
      ensures r.Ok? ==> r.value.lambdaHome == Lambdas(fx, exp).value.lambdaHome
                        && r.value.lambdaAway == Lambdas(fx, exp).value.lambdaAway
      ensures r == Err(DivisionByZero) <==>
              Lambdas(fx, exp).Ok?
              && var rates := Lambdas(fx, exp).value;
                 Distribution(exp, rates.lambdaHome, rates.lambdaAway, maxGoals, rates.params.dcRho).Err?
    {
      match Lambdas(fx, exp)
      case Err(e) => Err(e)
      case Ok(rates) =>
        match Distribution(exp, rates.lambdaHome, rates.lambdaAway, maxGoals, rates.params.dcRho)
        case Err(_) => Err(DivisionByZero)
        case Ok(m) => Ok(MarketsOf(m, line, rates.lambdaHome, rates.lambdaAway))
    }

    /** `predict`: the rates, then the score matrix built in place, then
        the markets. */
    method Predict(fx: Fixture, exp: real -> real, line: real := 2.5, maxGoals: int := 10)
      returns (r: Result<Prediction, PredictError>)
      ensures r == Evaluate(fx, exp, line, maxGoals)
    {
      var lambdas := Lambdas(fx, exp);
      if lambdas.Err? {
        return Err(lambdas.error);
      }
      var rates := lambdas.value;
      var built := BuildScoreMatrix(exp, rates.lambdaHome, rates.lambdaAway, maxGoals, rates.params.dcRho);
      if built.Err? {
        return Err(DivisionByZero);
      }
      var mat := built.value;
      return Ok(MarketsOf(Cells(mat), line, rates.lambdaHome, rates.lambdaAway));
    }

    /** With a positive `exp`, a correlation parameter in [-1, 1] other than
        0 and a non-empty grid, the matrix is a proper distribution, so the
        markets are coherent: complementary prices sum to 1. */
    lemma CorrelatedPredictionIsCoherent(fx: Fixture, exp: real -> real, line: real, maxGoals: int)
      requires PositiveEverywhere(exp) && maxGoals >= 0
      requires Evaluate(fx, exp, line, maxGoals).Ok?
      requires var rho := leagueParams[fx.league].dcRho; rho != 0.0 && -1.0 <= rho <= 1.0
      ensures var p := Evaluate(fx, exp, line, maxGoals).value;
              && p.homeProb + p.drawProb + p.awayProb == 1.0
              && p.overProb + p.underProb == 1.0
              && p.yesProb + p.noProb == 1.0
              && p.homeDnbProb + p.awayDnbProb == 1.0
              && p.homeOrDrawProb + p.awayProb == 1.0
              && p.homeOrAwayProb + p.drawProb == 1.0
              && p.drawOrAwayProb + p.homeProb == 1.0
    {
      var rates := Lambdas(fx, exp).value;
      var rho := rates.params.dcRho;
      var m := Distribution(exp, rates.lambdaHome, rates.lambdaAway, maxGoals, rho).value;
      var base := Independent(exp, rates.lambdaHome, rates.lambdaAway, GridSize(maxGoals));
      NormalisedMass(base, rho);
      DistributionNonnegative(exp, rates.lambdaHome, rates.lambdaAway, maxGoals, rho);
      ProperMarkets(m, line, rates.lambdaHome, rates.lambdaAway);
    }

    /** Without home advantage, predicting the reversed fixture gives the
        same prediction seen from the other side. */
    lemma PredictionOfSwappedTeams(fx: Fixture, exp: real -> real, line: real, maxGoals: int)
      requires fx.league in leagueParams && leagueParams[fx.league].homeAdvantage == 0.0
      ensures var p, q := Evaluate(fx, exp, line, maxGoals), Evaluate(SwapTeams(fx), exp, line, maxGoals);
              p.Ok? == q.Ok? && (p.Ok? ==> q.value == Swapped(p.value))
    {
      LambdasOfSwappedTeams(fx, exp);
      if Lambdas(fx, exp).Err? {
        return;
      }
      var r := Lambdas(fx, exp).value;
      DistributionOfSwappedRates(exp, r.lambdaHome, r.lambdaAway, maxGoals, r.params.dcRho);
      var d := Distribution(exp, r.lambdaHome, r.lambdaAway, maxGoals, r.params.dcRho);
      if d.Ok? {
        MarketsOfTranspose(d.value, line, r.lambdaHome, r.lambdaAway);
      }
    }

    /** A league with `mu <= 0` gives both sides a non-positive rate, so
        every goal count but zero has mass 0: the prediction is a certain
        0-0 draw, except that with `dc_rho == -1` the 0-0 cell is weighted
        to zero and the renormalisation divides by zero. */
    lemma PredictionWithoutScoring(fx: Fixture, exp: real -> real, line: real, maxGoals: int)
      requires PositiveEverywhere(exp) && maxGoals >= 0
      requires fx.league in leagueParams && fx.homeTeam in ratings && fx.awayTeam in ratings
      requires leagueParams[fx.league].mu <= 0.0
      ensures var p := Evaluate(fx, exp, line, maxGoals);
              (p.Err? <==> leagueParams[fx.league].dcRho == -1.0)
              && (p.Err? ==> p.error == DivisionByZero)
              && (p.Ok? ==> p.value.drawProb == 1.0 && p.value.homeProb == 0.0 && p.value.awayProb == 0.0
                            && p.value.yesProb == 0.0 && p.value.homeDnbProb == 0.5 && p.value.awayDnbProb == 0.5)
    {
      var r := Lambdas(fx, exp).value;
      LambdasSign(fx, exp);
      DegenerateDistribution(exp, r.lambdaHome, r.lambdaAway, maxGoals, r.params.dcRho);
      var d := Distribution(exp, r.lambdaHome, r.lambdaAway, maxGoals, r.params.dcRho);
      if d.Ok? {
        PointMassMarkets(d.value, line, r.lambdaHome, r.lambdaAway);
      }
    }
  }
}
