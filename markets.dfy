/** The betting markets read off a score matrix (prob_agent.py,
    `_sum_outcomes`, `_over_under`, `_btts`, `_safe` and the market block
    of `ProbabilityAgent.predict`). Every sum is a `SumWhere` over a
    predicate on the score (i home goals, j away goals). */
module Markets {
  import opened Grid
  import opened Arith

  predicate HomeWin(i: int, j: int) { i > j }

  predicate Draw(i: int, j: int) { i == j }

  predicate AwayWin(i: int, j: int) { i < j }

  predicate HomeWinOrDraw(i: int, j: int) { i >= j }

  /** `(p_home, p_draw, p_away)`: the three results share out the mass of
      the grid. */
  function SumOutcomes(m: Matrix): (r: (real, real, real))
    ensures r.0 + r.1 + r.2 == Total(m)
  {
    SumWhereSplit(m, HomeWin, Draw, HomeWinOrDraw);
    SumWhereSplit(m, HomeWinOrDraw, AwayWin, Everywhere);
    (SumWhere(m, HomeWin), SumWhere(m, Draw), SumWhere(m, AwayWin))
  }

  /** Reading the grid with away goals as rows exchanges the home and away
      win probabilities and keeps the draw. */
  lemma SumOutcomesTranspose(m: Matrix)
    ensures var r, t := SumOutcomes(m), SumOutcomes(Transpose(m));
            t == (r.2, r.1, r.0)
  {
    SumWhereTranspose(m, HomeWin, AwayWin);
    SumWhereTranspose(m, Draw, Draw);
    SumWhereTranspose(m, AwayWin, HomeWin);
  }

  /** Scores with more than `line` goals in total. */
  function Over(line: real): (r: CellPredicate)
    ensures forall i, j :: r(i, j) <==> !NotOver(line)(i, j)
  {
    (i, j) => (i + j) as real > line
  }

  function NotOver(line: real): CellPredicate
  {
    (i, j) => (i + j) as real <= line
  }

  /** `(p_over, p_under)`. The under price is `1 - p_over`, so a total of
      exactly `line` goals counts as under, and so does whatever mass the
      grid does not hold. */
  function OverUnder(m: Matrix, line: real): (r: (real, real))
    ensures r.0 + r.1 == 1.0
    ensures r.0 == SumWhere(m, Over(line))
    ensures r.1 == SumWhere(m, NotOver(line)) + (1.0 - Total(m))
  {
    SumWhereSplit(m, Over(line), NotOver(line), Everywhere);
    var over := SumWhere(m, Over(line));
    (over, 1.0 - over)
  }

  predicate HomeBlank(i: int, j: int) { i == 0 }

  predicate AwayBlank(i: int, j: int) { j == 0 }

  predicate NilNil(i: int, j: int) { i == 0 && j == 0 }

  predicate OnlyHomeBlank(i: int, j: int) { i == 0 && j != 0 }

  predicate SomeBlank(i: int, j: int) { i == 0 || j == 0 }

  predicate BothScore(i: int, j: int) { i != 0 && j != 0 }

  /** `mat.get((0, 0), 0.0)`: the 0-0 cell, or 0 on an empty grid. */
  function NilNilMass(m: Matrix): (r: real)
    ensures r == SumWhere(m, NilNil)
  {
    if |m| > 0 then
      SumWhereAt(m, NilNil, 0, 0);
      m[0][0]
    else
      SumWhereEmpty(m, NilNil);
      0.0
  }

  /** `(p_yes, p_no)` for "both teams to score", by inclusion-exclusion:
      `1 - P(home blank) - P(away blank) + P(0-0)`. It is the mass of the
      scores where both teams score, plus whatever mass the grid does not
      hold. */
  function Btts(m: Matrix): (r: (real, real))
    ensures r.0 + r.1 == 1.0
    ensures r.0 == SumWhere(m, BothScore) + (1.0 - Total(m))
  {
    SumWhereSplit(m, NilNil, OnlyHomeBlank, HomeBlank);
    SumWhereSplit(m, AwayBlank, OnlyHomeBlank, SomeBlank);
    SumWhereSplit(m, BothScore, SomeBlank, Everywhere);
    var yes := 1.0 - SumWhere(m, HomeBlank) - SumWhere(m, AwayBlank) + NilNilMass(m);
    (yes, 1.0 - yes)
  }

  function Min(x: real, y: real): real
  {
    if x <= y then x else y
  }

  function Max(x: real, y: real): real
  {
    if x >= y then x else y
  }

  /** `_safe`: `max(0.0, min(1.0, p))`, a clamp onto the probabilities. */
  function Safe(p: real): (r: real)
    ensures 0.0 <= r <= 1.0
    ensures 0.0 <= p <= 1.0 ==> r == p
    ensures p < 0.0 ==> r == 0.0
    ensures p > 1.0 ==> r == 1.0
  {
    Max(0.0, Min(1.0, p))
  }

  lemma SafeIdempotent(p: real)
    ensures Safe(Safe(p)) == Safe(p)
  {
  }

  lemma SafeMonotone(p: real, q: real)
    requires p <= q
    ensures Safe(p) <= Safe(q)
  {
  }

  /** Draw no bet: the home and away chances given that the match is not
      drawn, or an even split when `1 - p_draw` is not positive. */
  function DrawNoBet(pHome: real, pDraw: real, pAway: real): (r: (real, real))
    ensures 1.0 - pDraw <= 0.0 ==> r == (0.5, 0.5)
    ensures 1.0 - pDraw > 0.0 ==> r.0 * (1.0 - pDraw) == pHome && r.1 * (1.0 - pDraw) == pAway
  {
    if 1.0 - pDraw > 0.0 then
      QuotientTimes(pHome, 1.0 - pDraw);
      QuotientTimes(pAway, 1.0 - pDraw);
      (pHome / (1.0 - pDraw), pAway / (1.0 - pDraw))
    else
      (0.5, 0.5)
  }

  /** When the three results have total probability 1 the two draw no bet
      prices do too, in either branch. */
  lemma DrawNoBetSumsToOne(pHome: real, pDraw: real, pAway: real)
    requires pHome + pDraw + pAway == 1.0
    ensures DrawNoBet(pHome, pDraw, pAway).0 + DrawNoBet(pHome, pDraw, pAway).1 == 1.0
  {
    if 1.0 - pDraw > 0.0 {
      QuotientsAdd(pHome, pAway, 1.0 - pDraw);
      QuotientOfSelf(1.0 - pDraw);
    }
  }

  /** A non-negative chance that does not exceed `1 - p_draw` stays a
      probability after the draw no bet division. */
  lemma DrawNoBetBounded(pHome: real, pDraw: real, pAway: real)
    requires 0.0 <= pHome && 0.0 <= pAway && pHome + pDraw + pAway == 1.0
    ensures 0.0 <= DrawNoBet(pHome, pDraw, pAway).0 <= 1.0
    ensures 0.0 <= DrawNoBet(pHome, pDraw, pAway).1 <= 1.0
  {
    if 1.0 - pDraw > 0.0 {
      QuotientBounded(pHome, 1.0 - pDraw);
      QuotientBounded(pAway, 1.0 - pDraw);
    }
  }

  /** The dictionary `predict` returns. */
  datatype Prediction = Prediction(
    homeProb: real, drawProb: real, awayProb: real,
    overProb: real, underProb: real,
    yesProb: real, noProb: real,
    homeDnbProb: real, awayDnbProb: real,
    homeOrDrawProb: real, homeOrAwayProb: real, drawOrAwayProb: real,
    lambdaHome: real, lambdaAway: real)

  /** Every market price lies in [0, 1]. */
  predicate PricesBounded(p: Prediction)
  {
    0.0 <= p.homeProb <= 1.0 && 0.0 <= p.drawProb <= 1.0 && 0.0 <= p.awayProb <= 1.0
    && 0.0 <= p.overProb <= 1.0 && 0.0 <= p.underProb <= 1.0
    && 0.0 <= p.yesProb <= 1.0 && 0.0 <= p.noProb <= 1.0
    && 0.0 <= p.homeDnbProb <= 1.0 && 0.0 <= p.awayDnbProb <= 1.0
    && 0.0 <= p.homeOrDrawProb <= 1.0 && 0.0 <= p.homeOrAwayProb <= 1.0 && 0.0 <= p.drawOrAwayProb <= 1.0
  }

  /** The market block of `predict`: results, over/under, both teams to
      score, draw no bet and double chance, each passed through `Safe`,
      plus the two scoring rates unchanged. */
  function MarketsOf(m: Matrix, line: real, lambdaHome: real, lambdaAway: real): (p: Prediction)
    ensures PricesBounded(p)
    ensures p.lambdaHome == lambdaHome && p.lambdaAway == lambdaAway
  {
    var outcomes := SumOutcomes(m);
    var (pH, pD, pA) := (outcomes.0, outcomes.1, outcomes.2);
    var ou := OverUnder(m, line);
    var btts := Btts(m);
    var dnb := DrawNoBet(pH, pD, pA);
    Prediction(
      Safe(pH), Safe(pD), Safe(pA),
      Safe(ou.0), Safe(ou.1),
      Safe(btts.0), Safe(btts.1),
      Safe(dnb.0), Safe(dnb.1),
      Safe(pH + pD), Safe(pH + pA), Safe(pD + pA),
      lambdaHome, lambdaAway)
  }

  /** On a proper distribution (no negative cell, total mass 1) no clamp
      ever bites and the markets are coherent: the three results, over and
      under, yes and no, and the two draw no bet prices each sum to 1, and
      each double chance is the complement of the remaining result. */
  lemma ProperMarkets(m: Matrix, line: real, lambdaHome: real, lambdaAway: real)
    requires Nonnegative(m) && Total(m) == 1.0
    ensures var p := MarketsOf(m, line, lambdaHome, lambdaAway);
            && p.homeProb + p.drawProb + p.awayProb == 1.0
            && p.overProb + p.underProb == 1.0
            && p.yesProb + p.noProb == 1.0
            && p.homeDnbProb + p.awayDnbProb == 1.0
            && p.homeOrDrawProb + p.awayProb == 1.0
            && p.homeOrAwayProb + p.drawProb == 1.0
            && p.drawOrAwayProb + p.homeProb == 1.0
  {
    SumWhereBounds(m, HomeWin);
    SumWhereBounds(m, Draw);
    SumWhereBounds(m, AwayWin);
    SumWhereBounds(m, Over(line));
    SumWhereBounds(m, BothScore);
    var o := SumOutcomes(m);
    DrawNoBetSumsToOne(o.0, o.1, o.2);
    DrawNoBetBounded(o.0, o.1, o.2);
  }

  /** The prediction with the two sides exchanged. */
  function Swapped(p: Prediction): Prediction
  {
    p.(homeProb := p.awayProb, awayProb := p.homeProb,
       homeDnbProb := p.awayDnbProb, awayDnbProb := p.homeDnbProb,
       homeOrDrawProb := p.drawOrAwayProb, drawOrAwayProb := p.homeOrDrawProb,
       lambdaHome := p.lambdaAway, lambdaAway := p.lambdaHome)
  }

  /** Reading the transposed grid (away goals as rows) with the rates
      exchanged gives the same markets seen from the other side: home and
      away prices trade places, and the draw, total-goals and both teams
      to score prices do not move. */
  lemma MarketsOfTranspose(m: Matrix, line: real, lambdaHome: real, lambdaAway: real)
    ensures MarketsOf(Transpose(m), line, lambdaAway, lambdaHome) == Swapped(MarketsOf(m, line, lambdaHome, lambdaAway))
  {
    var t := Transpose(m);
    SumWhereTranspose(m, HomeWin, AwayWin);
    SumWhereTranspose(m, Draw, Draw);
    SumWhereTranspose(m, AwayWin, HomeWin);
    SumWhereTranspose(m, Over(line), Over(line));
    SumWhereTranspose(m, HomeBlank, AwayBlank);
    SumWhereTranspose(m, AwayBlank, HomeBlank);
    SumWhereTranspose(m, Everywhere, Everywhere);
    assert NilNilMass(t) == NilNilMass(m);
  }

  /** A grid with all its mass on 0-0 (what two non-positive rates give):
      a certain draw, so draw no bet falls back to the even split; nobody
      scores; and the game is over the line only when the line is
      negative. */
  lemma PointMassMarkets(m: Matrix, line: real, lambdaHome: real, lambdaAway: real)
    requires IsPointMassAtNil(m)
    ensures var p := MarketsOf(m, line, lambdaHome, lambdaAway);
            && p.homeProb == 0.0 && p.drawProb == 1.0 && p.awayProb == 0.0
            && p.yesProb == 0.0 && p.noProb == 1.0
            && p.overProb == (if line < 0.0 then 1.0 else 0.0)
            && p.underProb == 1.0 - p.overProb
            && p.homeDnbProb == 0.5 && p.awayDnbProb == 0.5
  {
    SumWhereOfSingleCell(m, HomeWin, 0, 0);
    SumWhereOfSingleCell(m, Draw, 0, 0);
    SumWhereOfSingleCell(m, AwayWin, 0, 0);
    SumWhereOfSingleCell(m, Over(line), 0, 0);
    SumWhereOfSingleCell(m, BothScore, 0, 0);
    SumWhereOfSingleCell(m, Everywhere, 0, 0);
  }
}
