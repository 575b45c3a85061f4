/** The joint score distribution (prob_agent.py, `_score_matrix`): two
    independent Poisson goal counts on a bounded grid, with an optional
    reweighting of the four lowest scores followed by renormalisation. */
module ScoreMatrix {
  import opened Results
  import opened Poisson
  import opened Grid
  import opened Sums
  import opened Arith

  /** Python raises ZeroDivisionError when the reweighted grid has total
      mass zero. */
  datatype MatrixError = ZeroTotalMass

  /** Side of the grid: `range(max_goals + 1)` goals per team, empty when
      `max_goals` is negative. */
  function GridSize(maxGoals: int): (n: nat)
    ensures n == 0 <==> maxGoals < 0
    ensures maxGoals >= 0 ==> n - 1 == maxGoals
  {
    if maxGoals < 0 then 0 else maxGoals + 1
  }

  /** Probability of the score i - j when the two goal counts are
      independent. */
  function PairMass(exp: real -> real, lambdaHome: real, lambdaAway: real, i: nat, j: nat): (r: real)
    ensures lambdaHome <= 0.0 ==> (i == 0 ==> r == Pmf(exp, lambdaAway, j)) && (i != 0 ==> r == 0.0)
    ensures lambdaAway <= 0.0 ==> (j == 0 ==> r == Pmf(exp, lambdaHome, i)) && (j != 0 ==> r == 0.0)
  {
    Pmf(exp, lambdaHome, i) * Pmf(exp, lambdaAway, j)
  }

  /** Cell (i, j) holds `pmf(lambda_home, i) * pmf(lambda_away, j)`. */
  function Independent(exp: real -> real, lambdaHome: real, lambdaAway: real, n: nat): (m: Matrix)
    ensures |m| == n
    ensures forall i, j :: 0 <= i < n && 0 <= j < n ==> m[i][j] == PairMass(exp, lambdaHome, lambdaAway, i, j)
  {
    seq(n, i requires 0 <= i < n => seq(n, j requires 0 <= j < n => PairMass(exp, lambdaHome, lambdaAway, i, j)))
  }

  /** The correction factor of cell (i, j): `1 + rho` on 0-0 and 1-1,
      `1 - rho` on 1-0 and 0-1, 1 elsewhere. */
  function LowScoreWeight(rho: real, i: int, j: int): (r: real)
    ensures !IsLowScore(i, j) ==> r == 1.0
    ensures IsLowScore(i, j) && i == j ==> r == 1.0 + rho
    ensures IsLowScore(i, j) && i != j ==> r == 1.0 - rho
  {
    if (i == 0 && j == 0) || (i == 1 && j == 1) then 1.0 + rho
    else if (i == 1 && j == 0) || (i == 0 && j == 1) then 1.0 - rho
    else 1.0
  }

  predicate IsLowScore(i: int, j: int)
  {
    0 <= i <= 1 && 0 <= j <= 1
  }

  /** The correction step before renormalisation: every cell times its
      weight. */
  function Reweight(m: Matrix, rho: real): (w: Matrix)
    ensures |w| == |m|
    ensures forall i, j :: 0 <= i < |m| && 0 <= j < |m| ==> w[i][j] == m[i][j] * LowScoreWeight(rho, i, j)
  {
    seq(|m|, i requires 0 <= i < |m| => seq(|m|, j requires 0 <= j < |m| => m[i][j] * LowScoreWeight(rho, i, j)))
  }

  /** The `rho != 0` branch of `_score_matrix` on a filled grid: reweight
      the four low scores, then divide by the new total; a zero total on
      a non-empty grid is Python's division by zero. */
  function Correct(m: Matrix, rho: real): (r: Result<Matrix, MatrixError>)
    ensures r.Ok? ==> |r.value| == |m|
    ensures r.Err? <==> rho != 0.0 && |m| > 0 && Total(Reweight(m, rho)) == 0.0
  {
    if rho == 0.0 then Ok(m)
    else
      var w := Reweight(m, rho);
      var s := Total(w);
      if s != 0.0 then Ok(Divide(w, s))
      else if |w| == 0 then Ok(w)
      else Err(ZeroTotalMass)
  }

  /** The matrix `_score_matrix` returns, or the division by zero it
      raises. */
  function Distribution(exp: real -> real, lambdaHome: real, lambdaAway: real, maxGoals: int, rho: real): (r: Result<Matrix, MatrixError>)
    ensures r.Ok? ==> |r.value| == GridSize(maxGoals)
    ensures r.Err? <==> rho != 0.0 && maxGoals >= 0
                        && Total(Reweight(Independent(exp, lambdaHome, lambdaAway, GridSize(maxGoals)), rho)) == 0.0
  {
    Correct(Independent(exp, lambdaHome, lambdaAway, GridSize(maxGoals)), rho)
  }

  /** The grid of a square two-dimensional array. */
  function Cells(a: array2<real>): (m: Matrix)
    requires a.Length0 == a.Length1
    reads a
    ensures |m| == a.Length0
    ensures forall i, j :: 0 <= i < a.Length0 && 0 <= j < a.Length1 ==> m[i][j] == a[i, j]
  {
    seq(a.Length0, i requires 0 <= i < a.Length0 reads a =>
      seq(a.Length1, j requires 0 <= j < a.Length1 reads a => a[i, j]))
  }

  /** Two square grids with the same cells are equal. */
  lemma GridExtensionality(m: Matrix, m': Matrix)
    requires |m| == |m'|
    requires forall i, j :: 0 <= i < |m| && 0 <= j < |m| ==> m[i][j] == m'[i][j]
    ensures m == m'
  {
    forall i | 0 <= i < |m|
      ensures m[i] == m'[i]
    {
      assert |m[i]| == |m'[i]|;
    }
  }

  /** The nested `for i` / `for j` loops of `_score_matrix`. */
  method FillIndependent(mat: array2<real>, exp: real -> real, lambdaHome: real, lambdaAway: real)
    requires mat.Length0 == mat.Length1
    modifies mat
    ensures Cells(mat) == Independent(exp, lambdaHome, lambdaAway, mat.Length0)
  {
    var n := mat.Length0;
    for i := 0 to n
      invariant forall a, b :: 0 <= a < i && 0 <= b < n ==> mat[a, b] == PairMass(exp, lambdaHome, lambdaAway, a, b)
    {
      var pI := Pmf(exp, lambdaHome, i);
      for j := 0 to n
        invariant forall a, b :: 0 <= a < i && 0 <= b < n ==> mat[a, b] == PairMass(exp, lambdaHome, lambdaAway, a, b)
        invariant forall b :: 0 <= b < j ==> mat[i, b] == PairMass(exp, lambdaHome, lambdaAway, i, b)
      {
        mat[i, j] := pI * Pmf(exp, lambdaAway, j);
      }
    }
    GridExtensionality(Cells(mat), Independent(exp, lambdaHome, lambdaAway, n));
  }

  /** `mat[k] *= corr[k]` for the low-score keys present in the grid. */
  method ReweightLowScores(mat: array2<real>, rho: real)
    requires mat.Length0 == mat.Length1
    modifies mat
    ensures forall i, j :: 0 <= i < mat.Length0 && 0 <= j < mat.Length1 ==>
      mat[i, j] == old(mat[i, j]) * LowScoreWeight(rho, i, j)
  {
    var n := mat.Length0;
    if 0 < n {
      mat[0, 0] := mat[0, 0] * (1.0 + rho);
    }
    if 1 < n {
      mat[1, 0] := mat[1, 0] * (1.0 - rho);
      mat[0, 1] := mat[0, 1] * (1.0 - rho);
      mat[1, 1] := mat[1, 1] * (1.0 + rho);
    }
  }

  /** `mat[k] /= s` for every key. */
  method DivideAll(mat: array2<real>, s: real)
    requires mat.Length0 == mat.Length1 && s != 0.0
    modifies mat
    ensures Cells(mat) == Divide(old(Cells(mat)), s)
  {
    var n := mat.Length0;
    ghost var w := Cells(mat);
    for i := 0 to n
      invariant forall a, b :: 0 <= a < i && 0 <= b < n ==> mat[a, b] == w[a][b] / s
      invariant forall a, b :: i <= a < n && 0 <= b < n ==> mat[a, b] == w[a][b]
    {
      for j := 0 to n
        invariant forall a, b :: 0 <= a < i && 0 <= b < n ==> mat[a, b] == w[a][b] / s
        invariant forall a, b :: i < a < n && 0 <= b < n ==> mat[a, b] == w[a][b]
        invariant forall b :: 0 <= b < j ==> mat[i, b] == w[i][b] / s
        invariant forall b :: j <= b < n ==> mat[i, b] == w[i][b]
      {
        mat[i, j] := mat[i, j] / s;
      }
    }
    GridExtensionality(Cells(mat), Divide(w, s));
  }

  /** The `if rho != 0.0` block of `_score_matrix`, in place; `false` when
      Python would divide by zero. */
  method ApplyCorrection(mat: array2<real>, rho: real) returns (ok: bool)
    requires mat.Length0 == mat.Length1
    modifies mat
    ensures ok <==> Correct(old(Cells(mat)), rho).Ok?
    ensures ok ==> Cells(mat) == Correct(old(Cells(mat)), rho).value
  {
    if rho != 0.0 {
      ghost var base := Cells(mat);
      ReweightLowScores(mat, rho);
      GridExtensionality(Cells(mat), Reweight(base, rho));
      var s := Total(Cells(mat));
      if s != 0.0 {
        DivideAll(mat, s);
      } else if 0 < mat.Length0 {
        return false;
      }
    }
    return true;
  }

  /** `_score_matrix`: fills the grid, then, when `rho != 0`, reweights the
      four low scores in place and divides every cell by the new total. */
  method BuildScoreMatrix(exp: real -> real, lambdaHome: real, lambdaAway: real, maxGoals: int, rho: real)
    returns (r: Result<array2<real>, MatrixError>)
    ensures r.Ok? <==> Distribution(exp, lambdaHome, lambdaAway, maxGoals, rho).Ok?
    ensures r.Ok? ==> r.value.Length0 == r.value.Length1
                      && Cells(r.value) == Distribution(exp, lambdaHome, lambdaAway, maxGoals, rho).value
    ensures r.Err? ==> r.error == Distribution(exp, lambdaHome, lambdaAway, maxGoals, rho).error
  {
    var n := GridSize(maxGoals);
    var mat := new real[n, n];
    FillIndependent(mat, exp, lambdaHome, lambdaAway);
    var ok := ApplyCorrection(mat, rho);
    if !ok {
      return Err(ZeroTotalMass);
    }
    return Ok(mat);
  }

  /** The independent grid carries the product of the two truncated
      Poisson masses. */
  lemma IndependentMass(exp: real -> real, lambdaHome: real, lambdaAway: real, n: nat)
    ensures Total(Independent(exp, lambdaHome, lambdaAway, n)) == Mass(exp, lambdaHome, n) * Mass(exp, lambdaAway, n)
  {
    IndependentIsOuter(exp, lambdaHome, lambdaAway, n);
    OuterProductTotal(Independent(exp, lambdaHome, lambdaAway, n), Masses(exp, lambdaHome, n), Masses(exp, lambdaAway, n), n,
                      Mass(exp, lambdaHome, n), Mass(exp, lambdaAway, n));
  }

  lemma IndependentIsOuter(exp: real -> real, lambdaHome: real, lambdaAway: real, n: nat)
    ensures IsOuterProduct(Independent(exp, lambdaHome, lambdaAway, n), Masses(exp, lambdaHome, n), Masses(exp, lambdaAway, n), n)
  {
    forall i, j | 0 <= i < n && 0 <= j < n
      ensures Independent(exp, lambdaHome, lambdaAway, n)[i][j] == Masses(exp, lambdaHome, n)[i] * Masses(exp, lambdaAway, n)[j]
    {
      IndependentCell(exp, lambdaHome, lambdaAway, n, i, j);
    }
  }

  lemma IndependentCell(exp: real -> real, lambdaHome: real, lambdaAway: real, n: nat, i: nat, j: nat)
    requires i < n && j < n
    ensures Independent(exp, lambdaHome, lambdaAway, n)[i][j] == Masses(exp, lambdaHome, n)[i] * Masses(exp, lambdaAway, n)[j]
  {
    ProductOfEquals(Pmf(exp, lambdaHome, i), Pmf(exp, lambdaAway, j), Masses(exp, lambdaHome, n)[i], Masses(exp, lambdaAway, n)[j]);
  }

  /** Without correlation the grid is the independent one and is not
      renormalised: its mass is whatever the truncation leaves. */
  lemma UncorrelatedIsUnnormalised(exp: real -> real, lambdaHome: real, lambdaAway: real, maxGoals: int)
    ensures var n := GridSize(maxGoals);
            Distribution(exp, lambdaHome, lambdaAway, maxGoals, 0.0) == Ok(Independent(exp, lambdaHome, lambdaAway, n))
            && Total(Distribution(exp, lambdaHome, lambdaAway, maxGoals, 0.0).value)
               == Mass(exp, lambdaHome, n) * Mass(exp, lambdaAway, n)
  {
    IndependentMass(exp, lambdaHome, lambdaAway, GridSize(maxGoals));
  }

  /** With correlation, every cell is its independent mass times its
      low-score weight divided by one common total `s`, which is non-zero
      on a non-empty grid. */
  lemma CorrelationReweightsLowScores(m: Matrix, rho: real)
    requires rho != 0.0 && Correct(m, rho).Ok?
    ensures var s := Total(Reweight(m, rho));
            var c := Correct(m, rho).value;
            (|m| > 0 ==> s != 0.0)
            && forall i, j :: 0 <= i < |m| && 0 <= j < |m| ==> c[i][j] == m[i][j] * LowScoreWeight(rho, i, j) / s
  {
  }

  /** After the correlation step the grid has total mass exactly 1. */
  lemma NormalisedMass(m: Matrix, rho: real)
    requires rho != 0.0 && |m| > 0 && Correct(m, rho).Ok?
    ensures Total(Correct(m, rho).value) == 1.0
  {
    NormaliseTotal(Reweight(m, rho));
  }

  lemma IndependentNonnegative(exp: real -> real, lambdaHome: real, lambdaAway: real, n: nat)
    requires PositiveEverywhere(exp)
    ensures Nonnegative(Independent(exp, lambdaHome, lambdaAway, n))
  {
    forall i, j | 0 <= i < n && 0 <= j < n
      ensures PairMass(exp, lambdaHome, lambdaAway, i, j) >= 0.0
    {
      PmfSign(exp, lambdaHome, i);
      PmfSign(exp, lambdaAway, j);
    }
  }

  /** With `-1 <= rho <= 1` the weights are non-negative, so reweighting
      keeps a non-negative grid non-negative. */
  lemma ReweightNonnegative(m: Matrix, rho: real)
    requires Nonnegative(m) && -1.0 <= rho <= 1.0
    ensures Nonnegative(Reweight(m, rho))
  {
    var w := Reweight(m, rho);
    forall i, j | 0 <= i < |w| && 0 <= j < |w|
      ensures w[i][j] >= 0.0
    {
      ProductNonnegative(m[i][j], LowScoreWeight(rho, i, j));
    }
  }

  /** The correction step keeps a non-negative grid non-negative. */
  lemma CorrectNonnegative(m: Matrix, rho: real)
    requires Nonnegative(m) && -1.0 <= rho <= 1.0 && Correct(m, rho).Ok?
    ensures Nonnegative(Correct(m, rho).value)
  {
    if rho != 0.0 {
      var w := Reweight(m, rho);
      ReweightNonnegative(m, rho);
      SumWhereBounds(w, Everywhere);
      if Total(w) != 0.0 {
        DivideNonnegative(w, Total(w));
      }
    }
  }

  /** With a positive `exp` and `-1 <= rho <= 1` no cell is negative. */
  lemma DistributionNonnegative(exp: real -> real, lambdaHome: real, lambdaAway: real, maxGoals: int, rho: real)
    requires PositiveEverywhere(exp) && -1.0 <= rho <= 1.0
    requires Distribution(exp, lambdaHome, lambdaAway, maxGoals, rho).Ok?
    ensures Nonnegative(Distribution(exp, lambdaHome, lambdaAway, maxGoals, rho).value)
  {
    IndependentNonnegative(exp, lambdaHome, lambdaAway, GridSize(maxGoals));
    CorrectNonnegative(Independent(exp, lambdaHome, lambdaAway, GridSize(maxGoals)), rho);
  }

  lemma TransposeIndependent(exp: real -> real, lambdaHome: real, lambdaAway: real, n: nat)
    ensures Transpose(Independent(exp, lambdaHome, lambdaAway, n)) == Independent(exp, lambdaAway, lambdaHome, n)
  {
    GridExtensionality(Transpose(Independent(exp, lambdaHome, lambdaAway, n)), Independent(exp, lambdaAway, lambdaHome, n));
  }

  /** Only the four low scores change: every other cell keeps its mass. */
  lemma ReweightOnlyLowScores(m: Matrix, rho: real)
    ensures forall i, j :: 0 <= i < |m| && 0 <= j < |m| && !IsLowScore(i, j) ==> Reweight(m, rho)[i][j] == m[i][j]
  {
    var w := Reweight(m, rho);
    forall i, j | 0 <= i < |m| && 0 <= j < |m| && !IsLowScore(i, j)
      ensures w[i][j] == m[i][j]
    {
      TimesOne(m[i][j], LowScoreWeight(rho, i, j));
    }
  }

  lemma TransposeReweight(m: Matrix, rho: real)
    ensures Transpose(Reweight(m, rho)) == Reweight(Transpose(m), rho)
  {
    forall i, j | 0 <= i < |m| && 0 <= j < |m|
      ensures Transpose(Reweight(m, rho))[i][j] == Reweight(Transpose(m), rho)[i][j]
    {
      TransposeReweightCell(m, rho, i, j);
    }
    GridExtensionality(Transpose(Reweight(m, rho)), Reweight(Transpose(m), rho));
  }

  lemma TransposeReweightCell(m: Matrix, rho: real, i: nat, j: nat)
    requires i < |m| && j < |m|
    ensures Transpose(Reweight(m, rho))[i][j] == Reweight(Transpose(m), rho)[i][j]
  {
    assert LowScoreWeight(rho, j, i) == LowScoreWeight(rho, i, j);
    ProductOfEquals(m[j][i], LowScoreWeight(rho, j, i), Transpose(m)[i][j], LowScoreWeight(rho, i, j));
  }

  lemma TransposeDivide(m: Matrix, s: real)
    requires s != 0.0
    ensures Transpose(Divide(m, s)) == Divide(Transpose(m), s)
  {
    GridExtensionality(Transpose(Divide(m, s)), Divide(Transpose(m), s));
  }

  /** The correction step commutes with transposition: the four low
      scores are placed symmetrically. */
  lemma CorrectTranspose(m: Matrix, rho: real)
    ensures Correct(Transpose(m), rho).Ok? == Correct(m, rho).Ok?
    ensures Correct(m, rho).Ok? ==> Correct(Transpose(m), rho).value == Transpose(Correct(m, rho).value)
  {
    if rho != 0.0 {
      var w := Reweight(m, rho);
      TransposeReweight(m, rho);
      SumWhereTranspose(w, Everywhere, Everywhere);
      if Total(w) != 0.0 {
        TransposeDivide(w, Total(w));
      } else if |m| == 0 {
        GridExtensionality(Transpose(w), w);
      }
    } else if |m| == 0 {
      GridExtensionality(Transpose(m), m);
    }
  }

  /** Swapping the two rates transposes the distribution: the away side's
      goal counts become the rows. */
  lemma DistributionOfSwappedRates(exp: real -> real, lambdaHome: real, lambdaAway: real, maxGoals: int, rho: real)
    ensures var d := Distribution(exp, lambdaHome, lambdaAway, maxGoals, rho);
            var e := Distribution(exp, lambdaAway, lambdaHome, maxGoals, rho);
            e.Ok? == d.Ok? && (d.Ok? ==> e.value == Transpose(d.value))
  {
    var base := Independent(exp, lambdaHome, lambdaAway, GridSize(maxGoals));
    TransposeIndependent(exp, lambdaHome, lambdaAway, GridSize(maxGoals));
    CorrectTranspose(base, rho);
  }

  /** Two non-positive rates put all the mass on 0-0; with `rho == -1` that
      cell is weighted to zero and the renormalisation divides by zero. */
  lemma DegenerateDistribution(exp: real -> real, lambdaHome: real, lambdaAway: real, maxGoals: int, rho: real)
    requires lambdaHome <= 0.0 && lambdaAway <= 0.0 && maxGoals >= 0
    ensures var d := Distribution(exp, lambdaHome, lambdaAway, maxGoals, rho);
            (d.Err? <==> rho == -1.0)
            && (d.Ok? ==> IsPointMassAtNil(d.value))
  {
    var n := GridSize(maxGoals);
    var base := Independent(exp, lambdaHome, lambdaAway, n);
    forall i, j | 0 <= i < n && 0 <= j < n
      ensures base[i][j] == if i == 0 && j == 0 then 1.0 else 0.0
    {
      assert base[i][j] == Pmf(exp, lambdaHome, i) * Pmf(exp, lambdaAway, j);
      if i != 0 {
        ZeroTimes(Pmf(exp, lambdaHome, i), Pmf(exp, lambdaAway, j));
      } else if j != 0 {
        TimesZero(Pmf(exp, lambdaHome, i), Pmf(exp, lambdaAway, j));
      }
    }
    if rho != 0.0 {
      var w := Reweight(base, rho);
      forall i, j | 0 <= i < n && 0 <= j < n && (i != 0 || j != 0)
        ensures w[i][j] == 0.0
      {
        ZeroTimes(base[i][j], LowScoreWeight(rho, i, j));
      }
      assert w[0][0] == 1.0 + rho;
      TotalOfSingleCell(w, 0, 0);
      if rho != -1.0 {
        var d := Divide(w, 1.0 + rho);
        forall i, j | 0 <= i < n && 0 <= j < n && (i != 0 || j != 0)
          ensures d[i][j] == 0.0
        {
          ZeroDivided(w[i][j], 1.0 + rho);
        }
        QuotientOfSelf(w[0][0]);
      }
    }
  }

  /** A grid with the single score 0-0 (`max_goals == 0`) and `rho == -1`
      weights its only cell to zero, so the renormalisation divides by
      zero whatever the rates. */
  lemma NilNilGridWeightedToZero(exp: real -> real, lambdaHome: real, lambdaAway: real)
    ensures Distribution(exp, lambdaHome, lambdaAway, 0, -1.0) == Err(ZeroTotalMass)
  {
    var w := Reweight(Independent(exp, lambdaHome, lambdaAway, 1), -1.0);
    TimesZero(Independent(exp, lambdaHome, lambdaAway, 1)[0][0], LowScoreWeight(-1.0, 0, 0));
    TotalOfSingleCell(w, 0, 0);
  }
}
