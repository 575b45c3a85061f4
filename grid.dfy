/** Square score grids and sums of their cells over a predicate on the
    indices `(i, j)`: every reduction of the score matrix in
    prob_agent.py is such a sum (`sum(p for (i, j), p in mat.items() if ...)`). */
module Grid {
  import opened Sums
  import opened Arith

  /** `m[i][j]` is the mass of the score i (home) - j (away). */
  type Matrix = m: seq<seq<real>> | forall i :: 0 <= i < |m| ==> |m[i]| == |m|

  type CellPredicate = (int, int) -> bool

  predicate Everywhere(i: int, j: int) { true }

  predicate Nowhere(i: int, j: int) { false }

  /** The contribution of cell (i, j) to a sum over `p`. */
  function Masked(m: Matrix, p: CellPredicate, i: nat, j: nat): real
    requires i < |m| && j < |m|
  {
    if p(i, j) then m[i][j] else 0.0
  }

  /** Sum over `p` of row `i`, columns 0 .. b-1. */
  function RowSum(m: Matrix, p: CellPredicate, i: nat, b: nat): real
    requires i < |m| && b <= |m|
  {
    if b == 0 then 0.0 else RowSum(m, p, i, b - 1) + Masked(m, p, i, b - 1)
  }

  /** Sum over `p` of the rows 0 .. a-1, columns 0 .. b-1. */
  function Block(m: Matrix, p: CellPredicate, a: nat, b: nat): real
    requires a <= |m| && b <= |m|
  {
    if a == 0 then 0.0 else Block(m, p, a - 1, b) + RowSum(m, p, a - 1, b)
  }

  /** Sum over `p` of column `j`, rows 0 .. a-1. */
  function ColumnSum(m: Matrix, p: CellPredicate, j: nat, a: nat): real
    requires j < |m| && a <= |m|
  {
    if a == 0 then 0.0 else ColumnSum(m, p, j, a - 1) + Masked(m, p, a - 1, j)
  }

  /** The same block summed column by column. */
  function ColumnBlock(m: Matrix, p: CellPredicate, a: nat, b: nat): real
    requires a <= |m| && b <= |m|
  {
    if b == 0 then 0.0 else ColumnBlock(m, p, a, b - 1) + ColumnSum(m, p, b - 1, a)
  }

  /** The mass of the cells whose indices satisfy `p`: the reference
      sum that `SumWhereSplit`, `SumWhereBounds`, `SumWhereTranspose` and
      `SumWhereDivide` characterise. */
  function SumWhere(m: Matrix, p: CellPredicate): (r: real)
    ensures |m| == 0 ==> r == 0.0
    ensures Nonnegative(m) ==> r >= 0.0
  {
    assert Nonnegative(m) ==> Block(m, p, |m|, |m|) >= 0.0 by {
      if Nonnegative(m) {
        BlockNonnegative(m, p, |m|);
      }
    }
    Block(m, p, |m|, |m|)
  }

  /** The mass of the whole grid (`sum(mat.values())`). */
  function Total(m: Matrix): (r: real)
    ensures |m| == 0 ==> r == 0.0
    ensures Nonnegative(m) ==> r >= 0.0
  {
    SumWhere(m, Everywhere)
  }

  function Transpose(m: Matrix): (t: Matrix)
    ensures |t| == |m|
    ensures forall i, j :: 0 <= i < |m| && 0 <= j < |m| ==> t[i][j] == m[j][i]
  {
    seq(|m|, i requires 0 <= i < |m| => seq(|m|, j requires 0 <= j < |m| => m[j][i]))
  }

  /** Every cell divided by `s`. */
  function Divide(m: Matrix, s: real): (d: Matrix)
    requires s != 0.0
    ensures |d| == |m|
    ensures forall i, j :: 0 <= i < |m| && 0 <= j < |m| ==> d[i][j] == m[i][j] / s
  {
    seq(|m|, i requires 0 <= i < |m| => seq(|m|, j requires 0 <= j < |m| => m[i][j] / s))
  }

  predicate Nonnegative(m: Matrix)
  {
    forall i, j :: 0 <= i < |m| && 0 <= j < |m| ==> m[i][j] >= 0.0
  }

  /** `p` and `q` split `r` on the grid: every cell of `r` is in exactly
      one of them, and no other cell is in either. */
  predicate Splits(m: Matrix, p: CellPredicate, q: CellPredicate, r: CellPredicate)
  {
    forall i, j :: 0 <= i < |m| && 0 <= j < |m| ==>
      (r(i, j) <==> p(i, j) || q(i, j)) && !(p(i, j) && q(i, j))
  }

  lemma {:induction false} RowAdd(m: Matrix, p: CellPredicate, q: CellPredicate, r: CellPredicate, i: nat, b: nat)
    requires forall i, j :: 0 <= i < |m| && 0 <= j < |m| ==> Masked(m, p, i, j) + Masked(m, q, i, j) == Masked(m, r, i, j)
    requires i < |m| && b <= |m|
    ensures RowSum(m, p, i, b) + RowSum(m, q, i, b) == RowSum(m, r, i, b)
  {
    if b > 0 {
      RowAdd(m, p, q, r, i, b - 1);
    }
  }

  lemma {:induction false} BlockAdd(m: Matrix, p: CellPredicate, q: CellPredicate, r: CellPredicate, a: nat)
    requires forall i, j :: 0 <= i < |m| && 0 <= j < |m| ==> Masked(m, p, i, j) + Masked(m, q, i, j) == Masked(m, r, i, j)
    requires a <= |m|
    ensures Block(m, p, a, |m|) + Block(m, q, a, |m|) == Block(m, r, a, |m|)
  {
    if a > 0 {
      BlockAdd(m, p, q, r, a - 1);
      RowAdd(m, p, q, r, a - 1, |m|);
    }
  }

  /** Sums are additive in the cells they take: when every cell contributes
      to `r` what it contributes to `p` and `q` together, the sums add up. */
  lemma SumWhereAdd(m: Matrix, p: CellPredicate, q: CellPredicate, r: CellPredicate)
    requires forall i, j :: 0 <= i < |m| && 0 <= j < |m| ==> Masked(m, p, i, j) + Masked(m, q, i, j) == Masked(m, r, i, j)
    ensures SumWhere(m, p) + SumWhere(m, q) == SumWhere(m, r)
  {
    BlockAdd(m, p, q, r, |m|);
  }

  /** Sums over disjoint predicates add up to the sum over their union. */
  lemma SumWhereSplit(m: Matrix, p: CellPredicate, q: CellPredicate, r: CellPredicate)
    requires Splits(m, p, q, r)
    ensures SumWhere(m, p) + SumWhere(m, q) == SumWhere(m, r)
  {
    SumWhereAdd(m, p, q, r);
  }

  /** A predicate that holds of no cell of the grid sums to zero. */
  lemma SumWhereEmpty(m: Matrix, p: CellPredicate)
    requires forall i, j :: 0 <= i < |m| && 0 <= j < |m| ==> !p(i, j)
    ensures SumWhere(m, p) == 0.0
  {
    SumWhereSplit(m, p, p, p);
  }

  lemma {:induction false} RowAt(m: Matrix, p: CellPredicate, i0: nat, j0: nat, i: nat, b: nat)
    requires i0 < |m| && j0 < |m| && i < |m| && b <= |m|
    requires forall i, j :: 0 <= i < |m| && 0 <= j < |m| ==> (p(i, j) <==> i == i0 && j == j0)
    ensures RowSum(m, p, i, b) == if i == i0 && j0 < b then m[i0][j0] else 0.0
  {
    if b > 0 {
      RowAt(m, p, i0, j0, i, b - 1);
    }
  }

  lemma {:induction false} BlockAt(m: Matrix, p: CellPredicate, i0: nat, j0: nat, a: nat)
    requires i0 < |m| && j0 < |m| && a <= |m|
    requires forall i, j :: 0 <= i < |m| && 0 <= j < |m| ==> (p(i, j) <==> i == i0 && j == j0)
    ensures Block(m, p, a, |m|) == if i0 < a then m[i0][j0] else 0.0
  {
    if a > 0 {
      BlockAt(m, p, i0, j0, a - 1);
      RowAt(m, p, i0, j0, a - 1, |m|);
    }
  }

  /** A predicate that holds of exactly one cell sums to that cell. */
  lemma SumWhereAt(m: Matrix, p: CellPredicate, i0: nat, j0: nat)
    requires i0 < |m| && j0 < |m|
    requires forall i, j :: 0 <= i < |m| && 0 <= j < |m| ==> (p(i, j) <==> i == i0 && j == j0)
    ensures SumWhere(m, p) == m[i0][j0]
  {
    BlockAt(m, p, i0, j0, |m|);
  }

  /** A grid whose only non-zero cell is (i0, j0): a sum over `p` is that
      cell's value when `p` takes it, and 0 otherwise. */
  lemma SumWhereOfSingleCell(m: Matrix, p: CellPredicate, i0: nat, j0: nat)
    requires i0 < |m| && j0 < |m|
    requires forall i, j :: 0 <= i < |m| && 0 <= j < |m| && (i != i0 || j != j0) ==> m[i][j] == 0.0
    ensures SumWhere(m, p) == if p(i0, j0) then m[i0][j0] else 0.0
  {
    var at := (i, j) => p(i, j) && i == i0 && j == j0;
    var rest := (i, j) => p(i, j) && (i != i0 || j != j0);
    SumWhereSplit(m, at, rest, p);
    SumWhereAdd(m, rest, Nowhere, Nowhere);
    if p(i0, j0) {
      SumWhereAt(m, at, i0, j0);
    } else {
      SumWhereEmpty(m, at);
    }
  }

  /** A grid whose only non-zero cell is (i0, j0) has that cell's value as
      its mass. */
  lemma TotalOfSingleCell(m: Matrix, i0: nat, j0: nat)
    requires i0 < |m| && j0 < |m|
    requires forall i, j :: 0 <= i < |m| && 0 <= j < |m| && (i != i0 || j != j0) ==> m[i][j] == 0.0
    ensures Total(m) == m[i0][j0]
  {
    SumWhereOfSingleCell(m, Everywhere, i0, j0);
  }

  /** All the mass on the score 0-0. */
  predicate IsPointMassAtNil(m: Matrix)
  {
    |m| > 0 && m[0][0] == 1.0
    && forall i, j :: 0 <= i < |m| && 0 <= j < |m| && (i != 0 || j != 0) ==> m[i][j] == 0.0
  }

  lemma {:induction false} RowNonnegative(m: Matrix, p: CellPredicate, i: nat, b: nat)
    requires Nonnegative(m) && i < |m| && b <= |m|
    ensures RowSum(m, p, i, b) >= 0.0
  {
    if b > 0 {
      RowNonnegative(m, p, i, b - 1);
    }
  }

  lemma {:induction false} BlockNonnegative(m: Matrix, p: CellPredicate, a: nat)
    requires Nonnegative(m) && a <= |m|
    ensures Block(m, p, a, |m|) >= 0.0
  {
    if a > 0 {
      BlockNonnegative(m, p, a - 1);
      RowNonnegative(m, p, a - 1, |m|);
    }
  }

  /** On a grid without negative cells every sum lies between 0 and the
      total mass. */
  lemma SumWhereBounds(m: Matrix, p: CellPredicate)
    requires Nonnegative(m)
    ensures 0.0 <= SumWhere(m, p) <= Total(m)
  {
    var notP := (i, j) => !p(i, j);
    SumWhereSplit(m, p, notP, Everywhere);
    BlockNonnegative(m, p, |m|);
    BlockNonnegative(m, notP, |m|);
  }

  lemma {:induction false} RowDivide(m: Matrix, s: real, p: CellPredicate, i: nat, b: nat)
    requires s != 0.0 && i < |m| && b <= |m|
    ensures RowSum(Divide(m, s), p, i, b) == RowSum(m, p, i, b) / s
  {
    if b > 0 {
      RowDivide(m, s, p, i, b - 1);
    }
  }

  lemma {:induction false} BlockDivide(m: Matrix, s: real, p: CellPredicate, a: nat)
    requires s != 0.0 && a <= |m|
    ensures Block(Divide(m, s), p, a, |m|) == Block(m, p, a, |m|) / s
  {
    if a > 0 {
      BlockDivide(m, s, p, a - 1);
      RowDivide(m, s, p, a - 1, |m|);
    }
  }

  /** Dividing every cell by `s` divides every sum by `s`. */
  lemma SumWhereDivide(m: Matrix, s: real, p: CellPredicate)
    requires s != 0.0
    ensures SumWhere(Divide(m, s), p) == SumWhere(m, p) / s
  {
    BlockDivide(m, s, p, |m|);
  }

  /** Dividing by the total mass leaves a grid of mass 1. */
  lemma NormaliseTotal(m: Matrix)
    requires Total(m) != 0.0
    ensures Total(Divide(m, Total(m))) == 1.0
  {
    SumWhereDivide(m, Total(m), Everywhere);
    QuotientOfSelf(Total(m));
  }

  /** Dividing by a positive number keeps every cell non-negative. */
  lemma DivideNonnegative(m: Matrix, s: real)
    requires Nonnegative(m) && s > 0.0
    ensures Nonnegative(Divide(m, s))
  {
    var d := Divide(m, s);
    forall i, j | 0 <= i < |d| && 0 <= j < |d|
      ensures d[i][j] >= 0.0
    {
      QuotientNonnegative(m[i][j], s);
    }
  }

  /** Adding column b to a block of b columns. */
  lemma {:induction false} BlockLastColumn(m: Matrix, p: CellPredicate, a: nat, b: nat)
    requires a <= |m| && b < |m|
    ensures Block(m, p, a, b + 1) == Block(m, p, a, b) + ColumnSum(m, p, b, a)
  {
    if a > 0 {
      BlockLastColumn(m, p, a - 1, b);
    }
  }

  /** Summing row by row or column by column gives the same mass. */
  lemma {:induction false} BlockByColumns(m: Matrix, p: CellPredicate, a: nat, b: nat)
    requires a <= |m| && b <= |m|
    ensures Block(m, p, a, b) == ColumnBlock(m, p, a, b)
  {
    if b > 0 {
      BlockByColumns(m, p, a, b - 1);
      BlockLastColumn(m, p, a, b - 1);
    } else {
      BlockEmptyRows(m, p, a);
    }
  }

  lemma {:induction false} BlockEmptyRows(m: Matrix, p: CellPredicate, a: nat)
    requires a <= |m|
    ensures Block(m, p, a, 0) == 0.0
  {
    if a > 0 {
      BlockEmptyRows(m, p, a - 1);
    }
  }

  lemma {:induction false} ColumnOfTranspose(m: Matrix, p: CellPredicate, q: CellPredicate, j: nat, a: nat)
    requires forall i, j :: 0 <= i < |m| && 0 <= j < |m| ==> (q(i, j) <==> p(j, i))
    requires j < |m| && a <= |m|
    ensures ColumnSum(Transpose(m), p, j, a) == RowSum(m, q, j, a)
  {
    if a > 0 {
      ColumnOfTranspose(m, p, q, j, a - 1);
    }
  }

  lemma {:induction false} ColumnBlockOfTranspose(m: Matrix, p: CellPredicate, q: CellPredicate, b: nat)
    requires forall i, j :: 0 <= i < |m| && 0 <= j < |m| ==> (q(i, j) <==> p(j, i))
    requires b <= |m|
    ensures ColumnBlock(Transpose(m), p, |m|, b) == Block(m, q, b, |m|)
  {
    if b > 0 {
      ColumnBlockOfTranspose(m, p, q, b - 1);
      ColumnOfTranspose(m, p, q, b - 1, |m|);
    }
  }

  /** Summing the transposed grid over `p` is summing the grid over the
      mirrored predicate. */
  lemma SumWhereTranspose(m: Matrix, p: CellPredicate, q: CellPredicate)
    requires forall i, j :: 0 <= i < |m| && 0 <= j < |m| ==> (q(i, j) <==> p(j, i))
    ensures SumWhere(Transpose(m), p) == SumWhere(m, q)
  {
    BlockByColumns(Transpose(m), p, |m|, |m|);
    ColumnBlockOfTranspose(m, p, q, |m|);
  }

  /** Cell (i, j) of `m` is `xs[i] * ys[j]`. */
  predicate IsOuterProduct(m: Matrix, xs: seq<real>, ys: seq<real>, n: nat)
  {
    |m| == n && |xs| == n && |ys| == n
    && forall i, j :: 0 <= i < n && 0 <= j < n ==> m[i][j] == xs[i] * ys[j]
  }

  lemma {:induction false} OuterRow(m: Matrix, xs: seq<real>, ys: seq<real>, n: nat, i: nat, b: nat)
    requires IsOuterProduct(m, xs, ys, n) && i < n && b <= n
    ensures RowSum(m, Everywhere, i, b) == xs[i] * PrefixSum(ys, b)
  {
    if b > 0 {
      OuterRow(m, xs, ys, n, i, b - 1);
    }
  }

  lemma {:induction false} OuterBlock(m: Matrix, xs: seq<real>, ys: seq<real>, n: nat, a: nat)
    requires IsOuterProduct(m, xs, ys, n) && a <= n
    ensures Block(m, Everywhere, a, n) == PrefixSum(xs, a) * PrefixSum(ys, n)
  {
    if a > 0 {
      OuterBlock(m, xs, ys, n, a - 1);
      OuterRow(m, xs, ys, n, a - 1, n);
    }
  }

  /** A grid whose cells are the products `xs[i] * ys[j]` has the product
      of the two sums as its mass. */
  lemma OuterProductTotal(m: Matrix, xs: seq<real>, ys: seq<real>, n: nat, x: real, y: real)
    requires IsOuterProduct(m, xs, ys, n)
    requires PrefixSum(xs, n) == x && PrefixSum(ys, n) == y
    ensures Total(m) == x * y
  {
    OuterBlock(m, xs, ys, n, n);
    ProductOfEquals(PrefixSum(xs, n), PrefixSum(ys, n), x, y);
  }
}
