/**
 * The objective of the hyper-parameter search: one trial picks a window and an
 * entry threshold from a fixed box, selects the best pair for that window,
 * backtests it, and scores the trial by the Sharpe ratio of the backtest,
 * with NaN, +inf or zero ratios replaced by a fixed penalty.
 */
module Optimize {
  import opened Outcomes
  import Cointegration
  import Backtest

  /** The box the search samples from: windows 10 .. 100, thresholds 1.0 .. 3.5. */
  const MinWindow: nat := 10
  const MaxWindow: nat := 100
  const MinThreshold: real := 1.0
  const MaxThreshold: real := 3.5

  predicate InBox(window: nat, thr: real) {
    MinWindow <= window <= MaxWindow && MinThreshold <= thr <= MaxThreshold
  }

  /** The score that replaces a ratio the search must not reward. */
  const Penalty: real := -999.0

  /** A double as the objective sees it: finite, not a number, or infinite. */
  datatype Float = Finite(value: real) | NaN | PosInf | NegInf

  /**
   * The guard of the objective: an undefined ratio, positive infinity and an
   * exact zero score the penalty; any other value, negative infinity among
   * them, is returned as it is.
   */
  function Penalize(x: Float): (r: Float)
    ensures (x.NaN? || x.PosInf? || x == Finite(0.0)) ==> r == Finite(Penalty)
    ensures !(x.NaN? || x.PosInf? || x == Finite(0.0)) ==> r == x
  {
    match x
    case NaN => Finite(Penalty)
    case PosInf => Finite(Penalty)
    case Finite(v) => if v == 0.0 then Finite(Penalty) else x
    case NegInf => x
  }

  /** A score the search receives is never undefined, never positive infinity and never zero. */
  lemma PenalizeTotal(x: Float)
    ensures !Penalize(x).NaN? && !Penalize(x).PosInf? && Penalize(x) != Finite(0.0)
    ensures Penalize(x) == Finite(Penalty) || Penalize(x) == x
  {
  }

  /** Guarding a guarded score changes nothing: the penalty itself passes the guard. */
  lemma PenalizeIdempotent(x: Float)
    ensures Penalize(Penalize(x)) == Penalize(x)
  {
  }

  /** The price columns of the table are nonzero, so each backtest return is defined. */
  predicate PricedTable(df: Cointegration.Table) {
    forall c :: 0 <= c < |df.columns| ==> Backtest.NonZero(df.columns[c])
  }

  /**
   * One trial: the best pair for the window, its backtest at the threshold and
   * its metrics over minute periods, scored by the guarded Sharpe ratio. A
   * table with fewer than two columns or a backtest without rows stops the
   * trial with the error. A score the search receives is finite and nonzero.
   */
  function Objective(res: Cointegration.TestResult, window: nat, thr: real,
                     pow: Backtest.Power, std: Cointegration.Deviation, sqrt: Backtest.Root)
    : (r: Result<Float>)
    requires res.Shaped() && PricedTable(res.df) && InBox(window, thr)
    ensures r.Err? ==> r.error == EmptyUpperTriangle || r.error == EmptyBacktest
    ensures r.Ok? ==> r.value.Finite? && r.value.value != 0.0
  {
    match Cointegration.FindBestPair(res, window, std)
    case Err(e) => Err(e)
    case Ok(bp) =>
      Cointegration.BestPairAligned(res, window, std);
      SelectedPriced(res, window, std);
      match Backtest.PerformanceMetrics(Backtest.BacktestOf(bp, thr), Backtest.MinutesPerYear, pow, std, sqrt)
      case Err(e) => Err(e)
      case Ok(m) => Ok(Penalize(Finite(m.sharpe)))
  }

  /** The selected pair inherits the nonzero prices of the table. */
  lemma SelectedPriced(res: Cointegration.TestResult, window: nat, std: Cointegration.Deviation)
    requires res.Shaped() && PricedTable(res.df) && window >= 1
    requires Cointegration.FindBestPair(res, window, std).Ok?
    ensures Backtest.Joinable(Cointegration.FindBestPair(res, window, std).value)
    ensures Backtest.Priced(Cointegration.FindBestPair(res, window, std).value)
  {
    Cointegration.BestPairAligned(res, window, std);
    var c := Cointegration.BestCell(res).value;
    assert Backtest.NonZero(res.df.columns[c.0]) && Backtest.NonZero(res.df.columns[c.1]);
  }

  /**
   * What a trial returns: the error of the pair selection or of the metrics,
   * otherwise the Sharpe ratio of the backtest when it is nonzero and the
   * penalty when it is zero (in particular when the returns do not vary).
   */
  lemma ObjectiveOutcome(res: Cointegration.TestResult, window: nat, thr: real,
                         pow: Backtest.Power, std: Cointegration.Deviation, sqrt: Backtest.Root)
    requires res.Shaped() && PricedTable(res.df) && InBox(window, thr)
    ensures Cointegration.FindBestPair(res, window, std).Err? ==>
      Objective(res, window, thr, pow, std, sqrt) == Err(EmptyUpperTriangle)
    ensures Cointegration.FindBestPair(res, window, std).Ok? ==>
      var bp := Cointegration.FindBestPair(res, window, std).value;
      Backtest.Joinable(bp) && Backtest.Priced(bp) &&
      var rec := Backtest.BacktestOf(bp, thr);
      (|rec.rows| == 0 ==> Objective(res, window, thr, pow, std, sqrt) == Err(EmptyBacktest)) &&
      (|rec.rows| > 0 ==>
        var m := Backtest.PerformanceMetrics(rec, Backtest.MinutesPerYear, pow, std, sqrt).value;
        Objective(res, window, thr, pow, std, sqrt) ==
          Ok(if m.sharpe == 0.0 then Finite(Penalty) else Finite(m.sharpe)) &&
        (Backtest.Volatility(rec, Backtest.MinutesPerYear, std, sqrt) == 0.0 ==>
          Objective(res, window, thr, pow, std, sqrt) == Ok(Finite(Penalty))))
  {
    if Cointegration.FindBestPair(res, window, std).Ok? {
      SelectedPriced(res, window, std);
    }
  }

  /**
   * Every threshold of the box is positive, so within a trial's backtest a
   * short spread is only ever held at a row whose z-score is above the mean
   * and a long spread at one below it.
   */
  lemma BoxPositionsSided(zs: seq<real>, window: nat, thr: real, i: nat)
    requires InBox(window, thr) && i < |zs|
    ensures thr > 0.0
    ensures Backtest.Positions(zs, thr)[i].Legal()
    ensures Backtest.Positions(zs, thr)[i].s1 == -1 ==> zs[i] > 0.0
    ensures Backtest.Positions(zs, thr)[i].s1 == 1 ==> zs[i] < 0.0
  {
    Backtest.PositionLegal(zs, thr, i);
    Backtest.PositionSide(zs, thr, i);
  }
}
