/**
 * Pairwise cointegration bookkeeping (cointegration.py): the upper-triangular
 * score / p-value matrices, the candidate-pair list, the selection of the pair
 * with the smallest p-value, and the spread and rolling z-score of that pair.
 *
 * The statistical test itself and the standard deviation are not modelled:
 * they enter as function-typed parameters (an `Oracle` and a `Deviation`).
 */
module Cointegration {
  import opened Outcomes

  /** A pair is a candidate when its p-value is below this level. */
  const Significance: real := 0.05

  /** The external Engle-Granger test: two price series to (score, p-value). */
  type Oracle = (seq<real>, seq<real>) -> (real, real)

  /** A (sample) standard deviation of a window of observations, left uninterpreted. */
  type Deviation = seq<real> -> real

  /** The aligned price table: column `c` holds the prices of `tickers[c]`. */
  datatype Table = Table(tickers: seq<string>, columns: seq<seq<real>>)
  {
    /** One column per ticker, every column of the same length (inner-joined index). */
    predicate Aligned() {
      |tickers| == |columns| &&
      forall c :: 0 <= c < |columns| ==> |columns[c]| == |columns[0]|
    }
  }

  /** The outcome of `cointegration_test`. */
  datatype TestResult = TestResult(
    df: Table,
    scores: seq<seq<real>>,
    pvalues: seq<seq<real>>,
    pairs: seq<(string, string)>)
  {
    /** Both matrices are n-by-n over the n tickers of an aligned table. */
    predicate Shaped() {
      df.Aligned() &&
      |scores| == |df.tickers| && |pvalues| == |df.tickers| &&
      forall i :: 0 <= i < |df.tickers| ==>
        |scores[i]| == |df.tickers| && |pvalues[i]| == |df.tickers|
    }
  }

  /** The result of `find_best_pair`. */
  datatype BestPair = BestPair(
    name1: string,
    name2: string,
    series1: seq<real>,
    series2: seq<real>,
    spread: seq<real>,
    zscore: seq<Option<real>>)

  // ---------------------------------------------------------------------------
  // The upper triangle in row-major order (the cells visited by the nested loop,
  // and the order in which `pvalue_matrix[mask]` lists them)
  // ---------------------------------------------------------------------------

  /** A matrix cell (row, column). */
  type Cell = (nat, nat)

  predicate Upper(n: nat, c: Cell) {
    c.0 < c.1 < n
  }

  /** Row-major order on cells. */
  predicate LexLess(a: Cell, b: Cell) {
    a.0 < b.0 || (a.0 == b.0 && a.1 < b.1)
  }

  /** The cells (i, i+1), ..., (i, j-1) of row i. */
  function RowCells(i: nat, j: nat): seq<Cell>
    decreases j
  {
    if j <= i + 1 then [] else RowCells(i, j - 1) + [(i, j - 1)]
  }

  lemma {:induction false} RowCellsAt(i: nat, j: nat)
    ensures |RowCells(i, j)| == if j <= i + 1 then 0 else j - i - 1
    ensures forall k :: 0 <= k < |RowCells(i, j)| ==> RowCells(i, j)[k] == (i, i + 1 + k)
    decreases j
  {
    if j > i + 1 {
      RowCellsAt(i, j - 1);
    }
  }

  /** The upper-triangle cells of rows 0 .. i-1 of an n-by-n matrix, row by row. */
  function CellsBefore(n: nat, i: nat): seq<Cell>
  {
    if i == 0 then [] else CellsBefore(n, i - 1) + RowCells(i - 1, n)
  }

  /** All upper-triangle cells of an n-by-n matrix in row-major order. */
  function UpperCells(n: nat): seq<Cell>
  {
    CellsBefore(n, n)
  }

  /** Position of cell (i, j) in `UpperCells(n)`. */
  function CellIndex(n: nat, i: nat, j: nat): nat
    requires i < j
  {
    |CellsBefore(n, i)| + (j - i - 1)
  }

  lemma {:induction false} CellsBeforeShape(n: nat, i: nat)
    ensures forall k :: 0 <= k < |CellsBefore(n, i)| ==>
      Upper(n, CellsBefore(n, i)[k]) && CellsBefore(n, i)[k].0 < i
    ensures forall a, b :: 0 <= a < b < |CellsBefore(n, i)| ==>
      LexLess(CellsBefore(n, i)[a], CellsBefore(n, i)[b])
  {
    if i > 0 {
      CellsBeforeShape(n, i - 1);
      RowCellsAt(i - 1, n);
      var p, q := CellsBefore(n, i - 1), RowCells(i - 1, n);
      assert CellsBefore(n, i) == p + q;
      forall a, b | 0 <= a < b < |p + q| ensures LexLess((p + q)[a], (p + q)[b]) {
        if b >= |p| && a < |p| {
          assert (p + q)[a] == p[a];
          assert (p + q)[b] == q[b - |p|];
        }
      }
    }
  }

  lemma {:induction false} CellsBeforePrefix(n: nat, i: nat, m: nat)
    requires i <= m
    ensures |CellsBefore(n, i)| <= |CellsBefore(n, m)|
    ensures CellsBefore(n, m)[..|CellsBefore(n, i)|] == CellsBefore(n, i)
    decreases m - i
  {
    if i < m {
      CellsBeforePrefix(n, i, m - 1);
      var p := CellsBefore(n, m - 1);
      assert CellsBefore(n, m) == p + RowCells(m - 1, n);
      assert (p + RowCells(m - 1, n))[..|p|] == p;
    }
  }

  /**
   * `UpperCells(n)` lists upper cells only, in strictly row-major order, holds
   * every upper cell (i, j) at `CellIndex(n, i, j)`, and is empty exactly when
   * n < 2.
   */
  lemma UpperCellsSpec(n: nat)
    ensures forall k :: 0 <= k < |UpperCells(n)| ==> Upper(n, UpperCells(n)[k])
    ensures forall a, b :: 0 <= a < b < |UpperCells(n)| ==> LexLess(UpperCells(n)[a], UpperCells(n)[b])
    ensures forall i, j {:trigger CellIndex(n, i, j)} :: 0 <= i < j < n ==>
      CellIndex(n, i, j) < |UpperCells(n)| && UpperCells(n)[CellIndex(n, i, j)] == (i, j)
    ensures |UpperCells(n)| == 0 <==> n < 2
  {
    CellsBeforeShape(n, n);
    forall i, j {:trigger CellIndex(n, i, j)} | 0 <= i < j < n
      ensures CellIndex(n, i, j) < |UpperCells(n)| && UpperCells(n)[CellIndex(n, i, j)] == (i, j)
    {
      CellsBeforePrefix(n, i + 1, n);
      RowCellsAt(i, n);
      var p := CellsBefore(n, i);
      assert CellsBefore(n, i + 1) == p + RowCells(i, n);
      assert (p + RowCells(i, n))[|p| + (j - i - 1)] == RowCells(i, n)[j - i - 1];
    }
    if n >= 2 {
      assert CellIndex(n, 0, 1) < |UpperCells(n)|;
    }
  }

  /** Membership in the upper-triangle list is exactly `Upper`. */
  lemma UpperCellsMembers(n: nat)
    ensures forall c: Cell :: c in UpperCells(n) <==> Upper(n, c)
  {
    UpperCellsSpec(n);
    forall c: Cell | Upper(n, c) ensures c in UpperCells(n) {
      assert UpperCells(n)[CellIndex(n, c.0, c.1)] == c;
    }
  }

  // ---------------------------------------------------------------------------
  // cointegration_test
  // ---------------------------------------------------------------------------

  predicate Significant(pv: seq<seq<real>>, c: Cell) {
    c.0 < |pv| && c.1 < |pv[c.0]| && pv[c.0][c.1] < Significance
  }

  /** The cells of `cells`, in their order, whose p-value is significant. */
  function CandidateCells(cells: seq<Cell>, pv: seq<seq<real>>): seq<Cell>
  {
    if cells == [] then []
    else
      var last := cells[|cells| - 1];
      CandidateCells(cells[..|cells| - 1], pv) + (if Significant(pv, last) then [last] else [])
  }

  /** The cell is significant and names two tickers. */
  predicate Listed(tickers: seq<string>, pv: seq<seq<real>>, c: Cell) {
    c.0 < |tickers| && c.1 < |tickers| && Significant(pv, c)
  }

  /** `pairs`: the ticker pairs of the significant cells, in the order of `cells`. */
  function CandidatePairs(tickers: seq<string>, pv: seq<seq<real>>, cells: seq<Cell>): seq<(string, string)>
  {
    if cells == [] then []
    else
      var c := cells[|cells| - 1];
      CandidatePairs(tickers, pv, cells[..|cells| - 1]) +
        (if Listed(tickers, pv, c) then [(tickers[c.0], tickers[c.1])] else [])
  }

  /** The scores the test writes above the diagonal (zeros elsewhere). */
  function ScoreMatrix(df: Table, coint: Oracle): seq<seq<real>>
    requires df.Aligned()
  {
    var n := |df.tickers|;
    seq(n, i requires 0 <= i < n =>
      seq(n, j requires 0 <= j < n =>
        if i < j then coint(df.columns[i], df.columns[j]).0 else 0.0))
  }

  /** The p-values the test writes above the diagonal (ones elsewhere). */
  function PValueMatrix(df: Table, coint: Oracle): seq<seq<real>>
    requires df.Aligned()
  {
    var n := |df.tickers|;
    seq(n, i requires 0 <= i < n =>
      seq(n, j requires 0 <= j < n =>
        if i < j then coint(df.columns[i], df.columns[j]).1 else 1.0))
  }

  /** An n-by-n matrix. */
  predicate Square(m: seq<seq<real>>, n: nat) {
    |m| == n && forall r :: 0 <= r < n ==> |m[r]| == n
  }

  /** The entries of the two matrices, cell by cell. */
  lemma MatrixEntries(df: Table, coint: Oracle)
    requires df.Aligned()
    ensures Square(ScoreMatrix(df, coint), |df.tickers|) && Square(PValueMatrix(df, coint), |df.tickers|)
    ensures forall i, j {:trigger ScoreMatrix(df, coint)[i][j]} :: 0 <= i < j < |df.tickers| ==>
      ScoreMatrix(df, coint)[i][j] == coint(df.columns[i], df.columns[j]).0
    ensures forall i, j {:trigger PValueMatrix(df, coint)[i][j]} :: 0 <= i < j < |df.tickers| ==>
      PValueMatrix(df, coint)[i][j] == coint(df.columns[i], df.columns[j]).1
    ensures forall i, j {:trigger ScoreMatrix(df, coint)[i][j]} :: 0 <= j <= i < |df.tickers| ==>
      ScoreMatrix(df, coint)[i][j] == 0.0
    ensures forall i, j {:trigger PValueMatrix(df, coint)[i][j]} :: 0 <= j <= i < |df.tickers| ==>
      PValueMatrix(df, coint)[i][j] == 1.0
  {
  }

  /** Cell (r, c) has been written once the loops stand at row i, column j. */
  ghost predicate Written(i: nat, j: nat, r: nat, c: nat) {
    r < c && (r < i || (r == i && c < j))
  }

  /**
   * The written cells of the two n-by-n arrays hold the entries of S and P,
   * the others still their initial 0 and 1.
   */
  ghost predicate Filled(S: seq<seq<real>>, P: seq<seq<real>>, scores: array2<real>, pvalues: array2<real>, i: nat, j: nat)
    reads scores, pvalues
  {
    var n := scores.Length0;
    Square(S, n) && Square(P, n) &&
    scores.Length1 == n && pvalues.Length0 == n && pvalues.Length1 == n &&
    (forall r, c {:trigger scores[r, c]} :: 0 <= r < n && 0 <= c < n ==>
      scores[r, c] == (if Written(i, j, r, c) then S[r][c] else 0.0)) &&
    (forall r, c {:trigger pvalues[r, c]} :: 0 <= r < n && 0 <= c < n ==>
      pvalues[r, c] == (if Written(i, j, r, c) then P[r][c] else 1.0))
  }

  lemma CandidatePairsSnoc(tickers: seq<string>, pv: seq<seq<real>>, cells: seq<Cell>, c: Cell)
    ensures CandidatePairs(tickers, pv, cells + [c]) ==
      CandidatePairs(tickers, pv, cells) + (if Listed(tickers, pv, c) then [(tickers[c.0], tickers[c.1])] else [])
  {
    assert (cells + [c])[..|cells|] == cells;
  }

  /**
   * The outcome of `cointegration_test` as a value: both matrices, n by n over
   * the table's n tickers, and the significant pairs.
   */
  function Test(df: Table, coint: Oracle): (r: TestResult)
    requires df.Aligned()
    ensures r.df == df && r.Shaped()
  {
    MatrixEntries(df, coint);
    var P := PValueMatrix(df, coint);
    TestResult(df, ScoreMatrix(df, coint), P, CandidatePairs(df.tickers, P, UpperCells(|df.tickers|)))
  }

  /**
   * The test writes the oracle's score and p-value at every cell (i, j) with
   * i < j, leaves 0 and 1 on and below the diagonal, and lists the pairs whose
   * p-value is below the significance level, in row-major order.
   */
  lemma TestEntries(df: Table, coint: Oracle)
    requires df.Aligned()
    ensures forall i, j {:trigger Test(df, coint).scores[i][j]} :: 0 <= i < j < |df.tickers| ==>
      Test(df, coint).scores[i][j] == coint(df.columns[i], df.columns[j]).0
    ensures forall i, j {:trigger Test(df, coint).pvalues[i][j]} :: 0 <= i < j < |df.tickers| ==>
      Test(df, coint).pvalues[i][j] == coint(df.columns[i], df.columns[j]).1
    ensures forall i, j {:trigger Test(df, coint).scores[i][j]} :: 0 <= j <= i < |df.tickers| ==>
      Test(df, coint).scores[i][j] == 0.0
    ensures forall i, j {:trigger Test(df, coint).pvalues[i][j]} :: 0 <= j <= i < |df.tickers| ==>
      Test(df, coint).pvalues[i][j] == 1.0
    ensures Test(df, coint).pairs == CandidatePairs(df.tickers, Test(df, coint).pvalues, UpperCells(|df.tickers|))
  {
    MatrixEntries(df, coint);
  }

  /**
   * `cointegration_test`: runs the oracle on every column pair i < j, writing
   * into zero / one initialised arrays, and collects the significant pairs.
   */
  method CointegrationTest(df: Table, coint: Oracle) returns (res: TestResult)
    requires df.Aligned()
    ensures res == Test(df, coint)
  {
    var n := |df.tickers|;
    var scores := new real[n, n]((_, _) => 0.0);
    var pvalues := new real[n, n]((_, _) => 1.0);
    ghost var S, P := ScoreMatrix(df, coint), PValueMatrix(df, coint);
    var pairs := TestRows(df, coint, scores, pvalues, S, P);
    var SA := Snapshot(scores);
    var VA := Snapshot(pvalues);
    FilledMatrices(S, P, scores, pvalues, SA, VA);
    res := TestResult(df, SA, VA, pairs);
  }

  /** The outer loop: tests every row of the upper triangle in turn. */
  method TestRows(df: Table, coint: Oracle, scores: array2<real>, pvalues: array2<real>,
                  ghost S: seq<seq<real>>, ghost P: seq<seq<real>>) returns (pairs: seq<(string, string)>)
    requires df.Aligned() && |df.tickers| == scores.Length0 && scores != pvalues
    requires S == ScoreMatrix(df, coint) && P == PValueMatrix(df, coint)
    requires Filled(S, P, scores, pvalues, 0, 0)
    modifies scores, pvalues
    ensures Filled(S, P, scores, pvalues, |df.tickers|, 0)
    ensures pairs == CandidatePairs(df.tickers, P, UpperCells(|df.tickers|))
  {
    var n := |df.tickers|;
    pairs := [];
    for i := 0 to n
      invariant Filled(S, P, scores, pvalues, i, 0)
      invariant pairs == CandidatePairs(df.tickers, P, CellsBefore(n, i))
    {
      pairs := TestRow(df, coint, scores, pvalues, i, pairs, S, P);
    }
  }

  /** Once every row is done, the copied matrices are S and P. */
  lemma FilledMatrices(S: seq<seq<real>>, P: seq<seq<real>>, scores: array2<real>, pvalues: array2<real>,
                       SA: seq<seq<real>>, VA: seq<seq<real>>)
    requires Filled(S, P, scores, pvalues, scores.Length0, 0)
    requires forall i, j {:trigger S[i][j]} :: 0 <= j <= i < |S| ==> S[i][j] == 0.0
    requires forall i, j {:trigger P[i][j]} :: 0 <= j <= i < |P| ==> P[i][j] == 1.0
    requires |SA| == scores.Length0 && forall r :: 0 <= r < |SA| ==> |SA[r]| == scores.Length1
    requires forall r, c :: 0 <= r < scores.Length0 && 0 <= c < scores.Length1 ==> SA[r][c] == scores[r, c]
    requires |VA| == pvalues.Length0 && forall r :: 0 <= r < |VA| ==> |VA[r]| == pvalues.Length1
    requires forall r, c :: 0 <= r < pvalues.Length0 && 0 <= c < pvalues.Length1 ==> VA[r][c] == pvalues[r, c]
    ensures SA == S && VA == P
  {
    forall r | 0 <= r < |S| ensures SA[r] == S[r] && VA[r] == P[r] { }
  }

  /** Copies a matrix into an immutable sequence of rows. */
  method Snapshot(a: array2<real>) returns (m: seq<seq<real>>)
    ensures |m| == a.Length0
    ensures forall r :: 0 <= r < a.Length0 ==> |m[r]| == a.Length1
    ensures forall r, c :: 0 <= r < a.Length0 && 0 <= c < a.Length1 ==> m[r][c] == a[r, c]
  {
    m := seq(a.Length0, r requires 0 <= r < a.Length0 reads a =>
      seq(a.Length1, c requires 0 <= c < a.Length1 reads a => a[r, c]));
  }

  /** The candidate pairs among the cells visited before cell (i, j), row by row. */
  function PairsSoFar(tickers: seq<string>, P: seq<seq<real>>, i: nat, j: nat): seq<(string, string)>
    decreases j
  {
    if j <= i + 1 then CandidatePairs(tickers, P, CellsBefore(|tickers|, i))
    else
      PairsSoFar(tickers, P, i, j - 1) +
        (if Listed(tickers, P, (i, j - 1)) then [(tickers[i], tickers[j - 1])] else [])
  }

  /** The pairs collected so far are those of the cells visited so far. */
  lemma {:induction false} PairsSoFarCells(tickers: seq<string>, P: seq<seq<real>>, i: nat, j: nat)
    ensures PairsSoFar(tickers, P, i, j) == CandidatePairs(tickers, P, CellsBefore(|tickers|, i) + RowCells(i, j))
    decreases j
  {
    var done := CellsBefore(|tickers|, i);
    if j <= i + 1 {
      assert done + RowCells(i, j) == done;
    } else {
      var before, c := done + RowCells(i, j - 1), (i, j - 1);
      var ext := if Listed(tickers, P, c) then [(tickers[c.0], tickers[c.1])] else [];
      assert done + RowCells(i, j) == before + [c] by {
        assert RowCells(i, j) == RowCells(i, j - 1) + [c];
      }
      assert PairsSoFar(tickers, P, i, j) == CandidatePairs(tickers, P, before + [c]) by {
        calc {
          PairsSoFar(tickers, P, i, j);
          PairsSoFar(tickers, P, i, j - 1) + ext;
          { PairsSoFarCells(tickers, P, i, j - 1); }
          CandidatePairs(tickers, P, before) + ext;
          { CandidatePairsSnoc(tickers, P, before, c); }
          CandidatePairs(tickers, P, before + [c]);
        }
      }
    }
  }

  /** One iteration of the outer loop: tests the cells (i, i+1) .. (i, n-1) of row i. */
  method TestRow(df: Table, coint: Oracle, scores: array2<real>, pvalues: array2<real>,
                 i: nat, pairs: seq<(string, string)>, ghost S: seq<seq<real>>, ghost P: seq<seq<real>>)
    returns (pairs': seq<(string, string)>)
    requires df.Aligned() && i < |df.tickers| == scores.Length0 && scores != pvalues
    requires Filled(S, P, scores, pvalues, i, 0)
    requires S == ScoreMatrix(df, coint) && P == PValueMatrix(df, coint)
    requires pairs == CandidatePairs(df.tickers, P, CellsBefore(|df.tickers|, i))
    modifies scores, pvalues
    ensures Filled(S, P, scores, pvalues, i + 1, 0)
    ensures pairs' == CandidatePairs(df.tickers, P, CellsBefore(|df.tickers|, i + 1))
  {
    var n := |df.tickers|;
    FilledRowStart(S, P, scores, pvalues, i);
    pairs' := TestCells(df, coint, scores, pvalues, i, pairs, S, P);
    FilledRowEnd(S, P, scores, pvalues, i);
    PairsSoFarCells(df.tickers, P, i, n);
    assert CellsBefore(n, i + 1) == CellsBefore(n, i) + RowCells(i, n);
  }

  /** The inner loop over the columns j = i+1 .. n-1 of row i. */
  method TestCells(df: Table, coint: Oracle, scores: array2<real>, pvalues: array2<real>,
                   i: nat, pairs: seq<(string, string)>, ghost S: seq<seq<real>>, ghost P: seq<seq<real>>)
    returns (pairs': seq<(string, string)>)
    requires df.Aligned() && i < |df.tickers| == scores.Length0 && scores != pvalues
    requires Filled(S, P, scores, pvalues, i, i + 1)
    requires S == ScoreMatrix(df, coint) && P == PValueMatrix(df, coint)
    requires pairs == CandidatePairs(df.tickers, P, CellsBefore(|df.tickers|, i))
    modifies scores, pvalues
    ensures Filled(S, P, scores, pvalues, i, |df.tickers|)
    ensures pairs' == PairsSoFar(df.tickers, P, i, |df.tickers|)
  {
    pairs' := pairs;
    for j := i + 1 to |df.tickers|
      invariant Filled(S, P, scores, pvalues, i, j)
      invariant pairs' == PairsSoFar(df.tickers, P, i, j)
    {
      pairs' := TestCell(df, coint, scores, pvalues, i, j, pairs', S, P);
    }
  }

  /** Before the inner loop of row i nothing of row i has been written. */
  lemma FilledRowStart(S: seq<seq<real>>, P: seq<seq<real>>, scores: array2<real>, pvalues: array2<real>, i: nat)
    requires Filled(S, P, scores, pvalues, i, 0)
    ensures Filled(S, P, scores, pvalues, i, i + 1)
  {
    assert forall r: nat, c: nat :: Written(i, i + 1, r, c) == Written(i, 0, r, c);
  }

  /** After the inner loop of row i the whole row has been written. */
  lemma FilledRowEnd(S: seq<seq<real>>, P: seq<seq<real>>, scores: array2<real>, pvalues: array2<real>, i: nat)
    requires Filled(S, P, scores, pvalues, i, scores.Length0)
    ensures Filled(S, P, scores, pvalues, i + 1, 0)
  {
    assert forall r: nat, c: nat | c < scores.Length0 :: Written(i + 1, 0, r, c) == Written(i, scores.Length0, r, c);
  }

  /** One iteration of the inner loop: tests cell (i, j) and records the pair when significant. */
  method TestCell(df: Table, coint: Oracle, scores: array2<real>, pvalues: array2<real>,
                  i: nat, j: nat, pairs: seq<(string, string)>, ghost S: seq<seq<real>>, ghost P: seq<seq<real>>)
    returns (pairs': seq<(string, string)>)
    requires df.Aligned() && i < j < |df.tickers| == scores.Length0 && scores != pvalues
    requires Filled(S, P, scores, pvalues, i, j)
    requires S == ScoreMatrix(df, coint) && P == PValueMatrix(df, coint)
    requires pairs == PairsSoFar(df.tickers, P, i, j)
    modifies scores, pvalues
    ensures Filled(S, P, scores, pvalues, i, j + 1)
    ensures pairs' == PairsSoFar(df.tickers, P, i, j + 1)
  {
    var sp := coint(df.columns[i], df.columns[j]);
    scores[i, j] := sp.0;
    pvalues[i, j] := sp.1;
    FilledCell(S, P, scores, pvalues, i, j);
    pairs' := pairs;
    if sp.1 < Significance {
      pairs' := pairs' + [(df.tickers[i], df.tickers[j])];
    }
  }

  /** Writing S[i][j] and P[i][j] at (i, j) advances the loop state by one cell. */
  lemma FilledCell(S: seq<seq<real>>, P: seq<seq<real>>, scores: array2<real>, pvalues: array2<real>, i: nat, j: nat)
    requires i < j < scores.Length0 && Square(S, scores.Length0) && Square(P, scores.Length0)
    requires scores.Length1 == scores.Length0 && pvalues.Length0 == scores.Length0 && pvalues.Length1 == scores.Length0
    requires scores[i, j] == S[i][j] && pvalues[i, j] == P[i][j]
    requires forall r, c {:trigger scores[r, c]} :: 0 <= r < scores.Length0 && 0 <= c < scores.Length0 && (r != i || c != j) ==>
      scores[r, c] == (if Written(i, j, r, c) then S[r][c] else 0.0)
    requires forall r, c {:trigger pvalues[r, c]} :: 0 <= r < scores.Length0 && 0 <= c < scores.Length0 && (r != i || c != j) ==>
      pvalues[r, c] == (if Written(i, j, r, c) then P[r][c] else 1.0)
    ensures Filled(S, P, scores, pvalues, i, j + 1)
  {
    forall r, c {:trigger scores[r, c]} {:trigger pvalues[r, c]} | 0 <= r < scores.Length0 && 0 <= c < scores.Length0 && (r != i || c != j)
      ensures Written(i, j + 1, r, c) == Written(i, j, r, c)
    {
    }
  }

  /** The candidate list holds exactly the significant cells of `cells`, in their order. */
  lemma {:induction false} CandidatesExact(tickers: seq<string>, cells: seq<Cell>, pv: seq<seq<real>>)
    requires forall k :: 0 <= k < |cells| ==> Upper(|tickers|, cells[k])
    requires |pv| == |tickers| && forall r :: 0 <= r < |pv| ==> |pv[r]| == |tickers|
    requires forall a, b :: 0 <= a < b < |cells| ==> LexLess(cells[a], cells[b])
    ensures forall k :: 0 <= k < |CandidateCells(cells, pv)| ==> CandidateCells(cells, pv)[k] in cells
    ensures forall c: Cell :: c in CandidateCells(cells, pv) <==> c in cells && Significant(pv, c)
    ensures forall a, b :: 0 <= a < b < |CandidateCells(cells, pv)| ==>
      LexLess(CandidateCells(cells, pv)[a], CandidateCells(cells, pv)[b])
    ensures |CandidatePairs(tickers, pv, cells)| == |CandidateCells(cells, pv)|
    ensures forall k :: 0 <= k < |CandidateCells(cells, pv)| ==>
      Upper(|tickers|, CandidateCells(cells, pv)[k]) &&
      CandidatePairs(tickers, pv, cells)[k] ==
        (tickers[CandidateCells(cells, pv)[k].0], tickers[CandidateCells(cells, pv)[k].1])
  {
    if cells != [] {
      var init, last := cells[..|cells| - 1], cells[|cells| - 1];
      assert cells == init + [last];
      CandidatesExact(tickers, init, pv);
      var r := CandidateCells(init, pv);
      forall k | 0 <= k < |r| ensures LexLess(r[k], last) {
        var m :| 0 <= m < |init| && init[m] == r[k];
        assert cells[m] == init[m];
      }
    }
  }

  /**
   * The candidate pairs of a test result are the names of the cells (i, j) with
   * i < j < n and p-value below 0.05, exactly those, strictly in row-major order
   * (so no cell twice and no self-pair); with distinct tickers no name pair
   * is repeated.
   */
  lemma CandidatePairsExact(res: TestResult)
    requires res.Shaped()
    ensures |CandidatePairs(res.df.tickers, res.pvalues, UpperCells(|res.df.tickers|))| ==
      |CandidateCells(UpperCells(|res.df.tickers|), res.pvalues)|
    ensures forall k :: 0 <= k < |CandidateCells(UpperCells(|res.df.tickers|), res.pvalues)| ==>
      var c := CandidateCells(UpperCells(|res.df.tickers|), res.pvalues)[k];
      Upper(|res.df.tickers|, c) &&
      CandidatePairs(res.df.tickers, res.pvalues, UpperCells(|res.df.tickers|))[k] ==
        (res.df.tickers[c.0], res.df.tickers[c.1])
    ensures forall c: Cell {:trigger Upper(|res.df.tickers|, c)} {:trigger c in CandidateCells(UpperCells(|res.df.tickers|), res.pvalues)} ::
      c in CandidateCells(UpperCells(|res.df.tickers|), res.pvalues) <==>
      Upper(|res.df.tickers|, c) && res.pvalues[c.0][c.1] < Significance
    ensures forall a, b :: 0 <= a < b < |CandidateCells(UpperCells(|res.df.tickers|), res.pvalues)| ==>
      LexLess(CandidateCells(UpperCells(|res.df.tickers|), res.pvalues)[a],
              CandidateCells(UpperCells(|res.df.tickers|), res.pvalues)[b])
    ensures (forall a, b :: 0 <= a < b < |res.df.tickers| ==> res.df.tickers[a] != res.df.tickers[b]) ==>
      forall a, b :: 0 <= a < b < |CandidatePairs(res.df.tickers, res.pvalues, UpperCells(|res.df.tickers|))| ==>
        CandidatePairs(res.df.tickers, res.pvalues, UpperCells(|res.df.tickers|))[a] !=
        CandidatePairs(res.df.tickers, res.pvalues, UpperCells(|res.df.tickers|))[b]
  {
    var n := |res.df.tickers|;
    UpperCellsSpec(n);
    UpperCellsMembers(n);
    CandidatesExact(res.df.tickers, UpperCells(n), res.pvalues);
  }

  // ---------------------------------------------------------------------------
  // find_best_pair
  // ---------------------------------------------------------------------------

  /** `pvalue_matrix[mask]`: the upper-triangle p-values in row-major order. */
  function UpperValues(res: TestResult): (v: seq<real>)
    requires res.Shaped()
    ensures |v| == |UpperCells(|res.df.tickers|)|
  {
    var cells := UpperCells(|res.df.tickers|);
    UpperCellsSpec(|res.df.tickers|);
    seq(|cells|, k requires 0 <= k < |cells| => res.pvalues[cells[k].0][cells[k].1])
  }

  /** `np.argmin`: the first index holding the minimum. */
  function ArgMin(s: seq<real>): (k: nat)
    requires |s| > 0
    ensures k < |s|
    ensures forall l :: 0 <= l < |s| ==> s[k] <= s[l]
    ensures forall l :: 0 <= l < k ==> s[k] < s[l]
  {
    if |s| == 1 then 0
    else
      var k := ArgMin(s[..|s| - 1]);
      if s[|s| - 1] < s[k] then |s| - 1 else k
  }

  /**
   * The selected cell: the upper cell with the smallest p-value, the first one
   * in row-major order on ties; fewer than two tickers leave nothing to select.
   */
  function BestCell(res: TestResult): (r: Result<Cell>)
    requires res.Shaped()
    ensures r.Ok? <==> |res.df.tickers| >= 2
    ensures r.Err? ==> r.error == EmptyUpperTriangle
    ensures r.Ok? ==> Upper(|res.df.tickers|, r.value)
    ensures r.Ok? ==> forall c: Cell {:trigger Upper(|res.df.tickers|, c)} :: Upper(|res.df.tickers|, c) ==>
      res.pvalues[r.value.0][r.value.1] <= res.pvalues[c.0][c.1]
    ensures r.Ok? ==> forall c: Cell {:trigger Upper(|res.df.tickers|, c)} :: Upper(|res.df.tickers|, c) && LexLess(c, r.value) ==>
      res.pvalues[r.value.0][r.value.1] < res.pvalues[c.0][c.1]
  {
    var n := |res.df.tickers|;
    UpperCellsSpec(n);
    var vals := UpperValues(res);
    if |vals| == 0 then Err(EmptyUpperTriangle)
    else
      var k := ArgMin(vals);
      BestCellIsMinimal(res, k);
      Ok(UpperCells(n)[k])
  }

  lemma BestCellIsMinimal(res: TestResult, k: nat)
    requires res.Shaped()
    requires |UpperValues(res)| > 0 && k == ArgMin(UpperValues(res))
    ensures forall c: Cell {:trigger Upper(|res.df.tickers|, c)} :: Upper(|res.df.tickers|, c) ==>
      UpperValues(res)[k] <= res.pvalues[c.0][c.1]
    ensures forall c: Cell {:trigger Upper(|res.df.tickers|, c)} :: Upper(|res.df.tickers|, c) && LexLess(c, UpperCells(|res.df.tickers|)[k]) ==>
      UpperValues(res)[k] < res.pvalues[c.0][c.1]
  {
    forall c: Cell {:trigger Upper(|res.df.tickers|, c)} | Upper(|res.df.tickers|, c)
      ensures UpperValues(res)[k] <= res.pvalues[c.0][c.1]
      ensures LexLess(c, UpperCells(|res.df.tickers|)[k]) ==> UpperValues(res)[k] < res.pvalues[c.0][c.1]
    {
      BestCellBeats(res, k, c);
    }
  }

  lemma BestCellBeats(res: TestResult, k: nat, c: Cell)
    requires res.Shaped() && Upper(|res.df.tickers|, c)
    requires |UpperValues(res)| > 0 && k == ArgMin(UpperValues(res))
    ensures UpperValues(res)[k] <= res.pvalues[c.0][c.1]
    ensures LexLess(c, UpperCells(|res.df.tickers|)[k]) ==> UpperValues(res)[k] < res.pvalues[c.0][c.1]
  {
    var n := |res.df.tickers|;
    var cells, vals := UpperCells(n), UpperValues(res);
    UpperCellsSpec(n);
    var idx := CellIndex(n, c.0, c.1);
    assert cells[idx] == c;
    assert vals[idx] == res.pvalues[c.0][c.1];
    if LexLess(c, cells[k]) {
      assert idx < k;
    }
  }

  /** The spread S1 - S2 on the common index. */
  function Spread(s1: seq<real>, s2: seq<real>): (r: seq<real>)
    requires |s1| == |s2|
    ensures |r| == |s1|
  {
    seq(|s1|, t requires 0 <= t < |s1| => s1[t] - s2[t])
  }

  function Sum(s: seq<real>): real
  {
    if s == [] then 0.0 else Sum(s[..|s| - 1]) + s[|s| - 1]
  }

  function Mean(s: seq<real>): real
    requires |s| > 0
  {
    Sum(s) / (|s| as real)
  }

  /** The trailing window of `w` observations ending at index t. */
  function Window(s: seq<real>, w: nat, t: nat): (r: seq<real>)
    requires 1 <= w <= t + 1 <= |s|
    ensures |r| == w && r[w - 1] == s[t]
  {
    s[t + 1 - w .. t + 1]
  }

  /**
   * The rolling z-score at index t: missing while the window is not yet filled
   * and missing (NaN) when the window's deviation is zero; otherwise the
   * distance of spread[t] from the window mean, in deviations.
   */
  function ZAt(spread: seq<real>, w: nat, std: Deviation, t: nat): (r: Option<real>)
    requires 1 <= w && t < |spread|
    ensures t + 1 < w ==> r == None
    ensures t + 1 >= w ==> (r.Some? <==> std(Window(spread, w, t)) != 0.0)
    ensures r.Some? ==> r.value * std(Window(spread, w, t)) == spread[t] - Mean(Window(spread, w, t))
  {
    if t + 1 < w then None
    else
      var win := Window(spread, w, t);
      var sd := std(win);
      if sd == 0.0 then None else Some((spread[t] - Mean(win)) / sd)
  }

  /** `(spread - rolling mean) / rolling std` followed by `dropna`, on the full index. */
  function RollingZ(spread: seq<real>, w: nat, std: Deviation): (r: seq<Option<real>>)
    requires 1 <= w
    ensures |r| == |spread|
    ensures forall t :: 0 <= t < |spread| ==> r[t] == ZAt(spread, w, std, t)
  {
    seq(|spread|, t requires 0 <= t < |spread| => ZAt(spread, w, std, t))
  }

  /**
   * `find_best_pair`: the two columns of the best cell, their names, their
   * spread and its rolling z-score; fails on fewer than two columns.
   */
  function FindBestPair(res: TestResult, window: nat, std: Deviation): (r: Result<BestPair>)
    requires res.Shaped() && window >= 1
    ensures r.Ok? <==> BestCell(res).Ok?
    ensures r.Err? ==> r.error == EmptyUpperTriangle
    ensures r.Ok? ==>
      var c := BestCell(res).value;
      r.value.name1 == res.df.tickers[c.0] && r.value.name2 == res.df.tickers[c.1] &&
      r.value.series1 == res.df.columns[c.0] && r.value.series2 == res.df.columns[c.1] &&
      r.value.spread == Spread(r.value.series1, r.value.series2) &&
      r.value.zscore == RollingZ(r.value.spread, window, std)
  {
    match BestCell(res)
    case Err(e) => Err(e)
    case Ok(c) =>
      var s1, s2 := res.df.columns[c.0], res.df.columns[c.1];
      var spread := Spread(s1, s2);
      Ok(BestPair(res.df.tickers[c.0], res.df.tickers[c.1], s1, s2, spread, RollingZ(spread, window, std)))
  }

  /** Every series of a selected pair has the length of the table's columns. */
  lemma BestPairAligned(res: TestResult, window: nat, std: Deviation)
    requires res.Shaped() && window >= 1 && FindBestPair(res, window, std).Ok?
    ensures var bp := FindBestPair(res, window, std).value;
      |bp.series1| == |res.df.columns[0]| && |bp.series2| == |bp.series1| &&
      |bp.spread| == |bp.series1| && |bp.zscore| == |bp.series1|
  {
  }

  // ---------------------------------------------------------------------------
  // Properties of the spread and the z-score
  // ---------------------------------------------------------------------------

  function Shift(s: seq<real>, d: real): (r: seq<real>)
    ensures |r| == |s|
  {
    seq(|s|, k requires 0 <= k < |s| => s[k] + d)
  }

  lemma {:induction false} SumShift(s: seq<real>, d: real)
    ensures Sum(Shift(s, d)) == Sum(s) + (|s| as real) * d
  {
    if s != [] {
      var init := s[..|s| - 1];
      assert Shift(s, d)[..|s| - 1] == Shift(init, d);
      SumShift(init, d);
    }
  }

  /**
   * The z-score measures the spread against its own rolling mean: moving the
   * whole spread by a constant leaves it unchanged whenever the deviation is
   * unchanged by such a move.
   */
  lemma ZAtShift(spread: seq<real>, d: real, w: nat, std: Deviation, t: nat)
    requires 1 <= w && t < |spread|
    requires t + 1 < w || std(Shift(Window(spread, w, t), d)) == std(Window(spread, w, t))
    ensures ZAt(Shift(spread, d), w, std, t) == ZAt(spread, w, std, t)
  {
    if t + 1 >= w {
      var win := Window(spread, w, t);
      assert Window(Shift(spread, d), w, t) == Shift(win, d);
      MeanShift(win, d);
    }
  }

  /** Moving every observation by d moves the mean by d. */
  lemma MeanShift(win: seq<real>, d: real)
    requires |win| > 0
    ensures Mean(Shift(win, d)) == Mean(win) + d
  {
    SumShift(win, d);
    var m := |win| as real;
    calc {
      Mean(Shift(win, d));
      (Sum(win) + m * d) / m;
      Sum(win) / m + d;
    }
  }

  lemma ZScoreShiftInvariant(spread: seq<real>, d: real, w: nat, std: Deviation)
    requires 1 <= w
    requires forall s :: std(Shift(s, d)) == std(s)
    ensures RollingZ(Shift(spread, d), w, std) == RollingZ(spread, w, std)
  {
    forall t | 0 <= t < |spread|
      ensures RollingZ(Shift(spread, d), w, std)[t] == RollingZ(spread, w, std)[t]
    {
      if t + 1 >= w {
        assert std(Shift(Window(spread, w, t), d)) == std(Window(spread, w, t));
      }
      ZAtShift(spread, d, w, std, t);
    }
  }

  /** Adding the second leg back to the spread recovers the first leg. */
  lemma SpreadRecoversFirstLeg(s1: seq<real>, s2: seq<real>)
    requires |s1| == |s2|
    ensures forall t :: 0 <= t < |s1| ==> Spread(s1, s2)[t] + s2[t] == s1[t]
  {
  }
}
