/**
 * The batch backtest (backtest.py): the leg-position state machine driven by
 * the z-score, the per-candle returns of the two legs, the strategy return of
 * the positions held one candle earlier, the compounded equity curve, and the
 * summary metrics computed from it.
 *
 * The transcendental parts of the metrics (a real power, a square root and a
 * standard deviation) enter as function-typed parameters.
 */
module Backtest {
  import opened Outcomes
  import Cointegration

  // ---------------------------------------------------------------------------
  // Positions and the state machine
  // ---------------------------------------------------------------------------

  /** The current positions of the two legs: +1 long, -1 short, 0 flat. */
  datatype Position = Position(s1: int, s2: int)
  {
    /** Each leg is long, short or flat, and the second leg always opposes the first. */
    predicate Legal() {
      (s1 == -1 || s1 == 0 || s1 == 1) && s2 == -s1
    }
  }

  const Flat := Position(0, 0)
  /** The spread is high: short S1, long S2. */
  const ShortSpread := Position(-1, 1)
  /** The spread is low: long S1, short S2. */
  const LongSpread := Position(1, -1)

  /** The z-score has reached the mean from the side the open position bet on. */
  predicate ExitTriggered(p: Position, z: real) {
    (p.s1 == -1 && z <= 0.0) || (p.s1 == 1 && z >= 0.0)
  }

  /**
   * One candle of the position loop: first the exit check (flatten both legs on
   * reaching the mean), then the entry check against the threshold, which
   * overrides whatever the exit left.
   */
  function Step(p: Position, z: real, thr: real): (q: Position)
    ensures z > thr ==> q == ShortSpread
    ensures !(z > thr) && z < -thr ==> q == LongSpread
    ensures !(z > thr) && !(z < -thr) ==> q == (if ExitTriggered(p, z) then Flat else p)
  {
    var afterExit := if ExitTriggered(p, z) then Flat else p;
    if z > thr then ShortSpread
    else if z < -thr then LongSpread
    else afterExit
  }

  /** A step keeps the legs long, short or flat and opposite to each other. */
  lemma StepLegal(p: Position, z: real, thr: real)
    requires p.Legal()
    ensures Step(p, z, thr).Legal()
  {
  }

  /**
   * With a non-negative threshold a position is never carried on the wrong side
   * of the mean: after a step, a short spread means z > 0 and a long spread
   * means z < 0.
   */
  lemma StepSide(p: Position, z: real, thr: real)
    requires p.Legal() && thr >= 0.0
    ensures Step(p, z, thr).s1 == -1 ==> z > 0.0
    ensures Step(p, z, thr).s1 == 1 ==> z < 0.0
  {
  }

  /** The positions after a stream of z-scores, starting from `p`: a left fold of `Step`. */
  function Run(p: Position, zs: seq<real>, thr: real): Position
  {
    if zs == [] then p else Step(Run(p, zs[..|zs| - 1], thr), zs[|zs| - 1], thr)
  }

  /** A stream of steps from a legal position keeps the legs legal. */
  lemma {:induction false} RunLegal(p: Position, zs: seq<real>, thr: real)
    requires p.Legal()
    ensures Run(p, zs, thr).Legal()
  {
    if zs != [] {
      RunLegal(p, zs[..|zs| - 1], thr);
      StepLegal(Run(p, zs[..|zs| - 1], thr), zs[|zs| - 1], thr);
    }
  }

  /** `pos_s1` / `pos_s2`: the position recorded at each index, from flat. */
  function Positions(zs: seq<real>, thr: real): (ps: seq<Position>)
    ensures |ps| == |zs|
  {
    seq(|zs|, i requires 0 <= i < |zs| => Run(Flat, zs[..i + 1], thr))
  }

  /**
   * At every index the legs are long, short or flat and opposite to each
   * other, as they are at the start.
   */
  lemma PositionsLegal(zs: seq<real>, thr: real)
    ensures Flat.Legal()
    ensures forall i :: 0 <= i < |zs| ==> Positions(zs, thr)[i].Legal()
  {
    forall i | 0 <= i < |zs| ensures Positions(zs, thr)[i].Legal() {
      PositionLegal(zs, thr, i);
    }
  }

  lemma PositionLegal(zs: seq<real>, thr: real, i: nat)
    requires i < |zs|
    ensures Positions(zs, thr)[i].Legal()
  {
    RunLegal(Flat, zs[..i + 1], thr);
  }

  /**
   * With a non-negative threshold every recorded short spread sits at a row
   * whose z-score is above the mean and every long spread at one below it.
   */
  lemma PositionSide(zs: seq<real>, thr: real, i: nat)
    requires thr >= 0.0 && i < |zs|
    ensures Positions(zs, thr)[i].s1 == -1 ==> zs[i] > 0.0
    ensures Positions(zs, thr)[i].s1 == 1 ==> zs[i] < 0.0
  {
    var q := Positions(zs, thr)[i];
    if i == 0 {
      assert q == Step(Flat, zs[0], thr) by { PositionFirst(zs, thr); }
      StepSide(Flat, zs[0], thr);
    } else {
      var p := Positions(zs, thr)[i - 1];
      assert p.Legal() by { PositionLegal(zs, thr, i - 1); }
      assert q == Step(p, zs[i], thr) by { PositionAt(zs, thr, i); }
      StepSide(p, zs[i], thr);
    }
  }

  /** The first recorded position is one step from flat. */
  lemma PositionFirst(zs: seq<real>, thr: real)
    requires 0 < |zs|
    ensures Positions(zs, thr)[0] == Step(Flat, zs[0], thr)
  {
    assert Positions(zs, thr)[0] == Run(Flat, zs[..1], thr);
    assert zs[..1][..0] == [];
  }

  /** One recorded position is one step from the previous one. */
  lemma PositionAt(zs: seq<real>, thr: real, i: nat)
    requires 0 < i < |zs|
    ensures Positions(zs, thr)[i] == Step(Positions(zs, thr)[i - 1], zs[i], thr)
  {
    assert Positions(zs, thr)[i] == Run(Flat, zs[..i + 1], thr);
    assert Positions(zs, thr)[i - 1] == Run(Flat, zs[..i], thr);
    assert zs[..i + 1][..i] == zs[..i];
  }

  /**
   * The recorded positions follow the recurrence of the loop: the first is one
   * step from flat, each later one is one step from its predecessor, and the
   * last is the fold of `Step` over the whole stream.
   */
  lemma PositionsStep(zs: seq<real>, thr: real)
    ensures |zs| > 0 ==> Positions(zs, thr)[0] == Step(Flat, zs[0], thr)
    ensures forall i {:trigger zs[i]} :: 0 < i < |zs| ==>
      Positions(zs, thr)[i] == Step(Positions(zs, thr)[i - 1], zs[i], thr)
    ensures |zs| > 0 ==> Positions(zs, thr)[|zs| - 1] == Run(Flat, zs, thr)
  {
    if |zs| > 0 {
      PositionFirst(zs, thr);
      assert Positions(zs, thr)[|zs| - 1] == Run(Flat, zs[..|zs|], thr);
      assert zs[..|zs|] == zs;
    }
    forall i | 0 < i < |zs|
      ensures Positions(zs, thr)[i] == Step(Positions(zs, thr)[i - 1], zs[i], thr)
    {
      PositionAt(zs, thr, i);
    }
  }

  /** No look-ahead: the positions over a prefix of the stream are the prefix of the positions. */
  lemma NoLookAhead(zs: seq<real>, k: nat, thr: real)
    requires k <= |zs|
    ensures Positions(zs[..k], thr) == Positions(zs, thr)[..k]
  {
    forall i | 0 <= i < k ensures Positions(zs[..k], thr)[i] == Positions(zs, thr)[i] {
      assert zs[..k][..i + 1] == zs[..i + 1];
    }
  }

  /** A worked stream: z = [0.5, 2.0, 0.3, -0.1, -2.5, 0.0] with threshold 1.5. */
  lemma ExampleTrace(zs: seq<real>, thr: real)
    requires |zs| == 6 && thr == 1.5
    requires zs[0] == 0.5 && zs[1] == 2.0 && zs[2] == 0.3 && zs[3] == -0.1 && zs[4] == -2.5 && zs[5] == 0.0
    ensures Positions(zs, thr) == [Flat, ShortSpread, ShortSpread, Flat, LongSpread, Flat]
  {
    var ps := Positions(zs, thr);
    PositionFirst(zs, thr);
    assert Step(Flat, zs[0], thr) == Flat;
    PositionAt(zs, thr, 1);
    assert Step(Flat, zs[1], thr) == ShortSpread;
    PositionAt(zs, thr, 2);
    assert Step(ShortSpread, zs[2], thr) == ShortSpread;
    PositionAt(zs, thr, 3);
    assert Step(ShortSpread, zs[3], thr) == Flat;
    PositionAt(zs, thr, 4);
    assert Step(Flat, zs[4], thr) == LongSpread;
    PositionAt(zs, thr, 5);
    assert Step(LongSpread, zs[5], thr) == Flat;
    var expected := [Flat, ShortSpread, ShortSpread, Flat, LongSpread, Flat];
    assert forall k :: 0 <= k < 6 ==> ps[k] == expected[k];
  }

  /**
   * The position loop of `backtest`: two zero-initialised arrays, the current
   * leg positions updated by the exit and then the entry checks, and each
   * index recording the positions after its own z-score.
   */
  method PositionLoop(zs: seq<real>, thr: real) returns (posS1: seq<int>, posS2: seq<int>)
    ensures |posS1| == |zs| && |posS2| == |zs|
    ensures forall i :: 0 <= i < |zs| ==>
      Position(posS1[i], posS2[i]) == Positions(zs, thr)[i]
  {
    var pos1 := new int[|zs|](_ => 0);
    var pos2 := new int[|zs|](_ => 0);
    var cur1, cur2 := 0, 0;
    for i := 0 to |zs|
      invariant Position(cur1, cur2) == Run(Flat, zs[..i], thr)
      invariant forall k :: 0 <= k < i ==> Position(pos1[k], pos2[k]) == Positions(zs, thr)[k]
    {
      var z := zs[i];
      ghost var prev := Position(cur1, cur2);
      if cur1 == -1 && z <= 0.0 {
        cur1, cur2 := 0, 0;
      } else if cur1 == 1 && z >= 0.0 {
        cur1, cur2 := 0, 0;
      }
      if z > thr {
        cur1, cur2 := -1, 1;
      } else if z < -thr {
        cur1, cur2 := 1, -1;
      }
      assert Position(cur1, cur2) == Step(prev, z, thr);
      assert zs[..i + 1][..i] == zs[..i];
      assert Position(cur1, cur2) == Run(Flat, zs[..i + 1], thr) == Positions(zs, thr)[i];
      pos1[i] := cur1;
      pos2[i] := cur2;
    }
    posS1, posS2 := pos1[..], pos2[..];
  }

  // ---------------------------------------------------------------------------
  // The aligned frame
  // ---------------------------------------------------------------------------

  /** One row of the frame: its index in the original series and its four columns. */
  datatype Row = Row(t: nat, s1: real, s2: real, spread: real, z: real)

  /** The four series of a selected pair share one index. */
  predicate Joinable(bp: Cointegration.BestPair) {
    |bp.series2| == |bp.series1| && |bp.spread| == |bp.series1| && |bp.zscore| == |bp.series1|
  }

  /**
   * The frame built from the four series and cleared of missing entries: the
   * rows 0 .. n-1 whose z-score is defined, in index order.
   */
  function AlignedRows(bp: Cointegration.BestPair, n: nat): (rows: seq<Row>)
    requires Joinable(bp) && n <= |bp.series1|
    ensures |rows| <= n
  {
    if n == 0 then []
    else
      AlignedRows(bp, n - 1) +
        (if bp.zscore[n - 1].Some?
         then [Row(n - 1, bp.series1[n - 1], bp.series2[n - 1], bp.spread[n - 1], bp.zscore[n - 1].value)]
         else [])
  }

  /**
   * The aligned rows carry the data of their own index, appear in strictly
   * increasing index order, and include every index whose z-score is defined.
   */
  lemma AlignedRowsSpec(bp: Cointegration.BestPair, n: nat)
    requires Joinable(bp) && n <= |bp.series1|
    ensures forall k :: 0 <= k < |AlignedRows(bp, n)| ==>
      var r := AlignedRows(bp, n)[k];
      r.t < n && bp.zscore[r.t] == Some(r.z) &&
      r.s1 == bp.series1[r.t] && r.s2 == bp.series2[r.t] && r.spread == bp.spread[r.t]
    ensures forall a, b :: 0 <= a < b < |AlignedRows(bp, n)| ==>
      AlignedRows(bp, n)[a].t < AlignedRows(bp, n)[b].t
    ensures forall t :: 0 <= t < n && bp.zscore[t].Some? ==>
      |AlignedRows(bp, t)| < |AlignedRows(bp, n)| && AlignedRows(bp, n)[|AlignedRows(bp, t)|].t == t
  {
    AlignedRowsData(bp, n);
    AlignedRowsOrdered(bp, n);
    AlignedRowsComplete(bp, n);
  }

  /** `dropna` keeps all n rows exactly when every z-score below n is defined. */
  lemma {:induction false} AlignedRowsAll(bp: Cointegration.BestPair, n: nat)
    requires Joinable(bp) && n <= |bp.series1|
    ensures |AlignedRows(bp, n)| == n <==> forall t :: 0 <= t < n ==> bp.zscore[t].Some?
  {
    if n > 0 {
      AlignedRowsAll(bp, n - 1);
      assert (forall t :: 0 <= t < n ==> bp.zscore[t].Some?) <==>
        (forall t :: 0 <= t < n - 1 ==> bp.zscore[t].Some?) && bp.zscore[n - 1].Some?;
    }
  }

  /** Each aligned row carries the data of its own index, which is below n. */
  lemma {:induction false} AlignedRowsData(bp: Cointegration.BestPair, n: nat)
    requires Joinable(bp) && n <= |bp.series1|
    ensures forall k :: 0 <= k < |AlignedRows(bp, n)| ==>
      var r := AlignedRows(bp, n)[k];
      r.t < n && bp.zscore[r.t] == Some(r.z) &&
      r.s1 == bp.series1[r.t] && r.s2 == bp.series2[r.t] && r.spread == bp.spread[r.t]
  {
    if n > 0 {
      AlignedRowsData(bp, n - 1);
    }
  }

  /** The aligned rows appear in strictly increasing index order. */
  lemma {:induction false} AlignedRowsOrdered(bp: Cointegration.BestPair, n: nat)
    requires Joinable(bp) && n <= |bp.series1|
    ensures forall a, b :: 0 <= a < b < |AlignedRows(bp, n)| ==>
      AlignedRows(bp, n)[a].t < AlignedRows(bp, n)[b].t
  {
    if n > 0 {
      AlignedRowsOrdered(bp, n - 1);
      AlignedRowsData(bp, n - 1);
    }
  }

  /**
   * Every index t below n whose z-score is defined has its aligned row, at the
   * position that counts the defined z-scores before t.
   */
  lemma AlignedRowsComplete(bp: Cointegration.BestPair, n: nat)
    requires Joinable(bp) && n <= |bp.series1|
    ensures forall t :: 0 <= t < n && bp.zscore[t].Some? ==>
      |AlignedRows(bp, t)| < |AlignedRows(bp, n)| && AlignedRows(bp, n)[|AlignedRows(bp, t)|].t == t
  {
    forall t | 0 <= t < n && bp.zscore[t].Some?
      ensures |AlignedRows(bp, t)| < |AlignedRows(bp, n)| && AlignedRows(bp, n)[|AlignedRows(bp, t)|].t == t
    {
      AlignedRowsHas(bp, n, t);
    }
  }

  lemma {:induction false} AlignedRowsHas(bp: Cointegration.BestPair, n: nat, t: nat)
    requires Joinable(bp) && t < n <= |bp.series1| && bp.zscore[t].Some?
    ensures |AlignedRows(bp, t)| < |AlignedRows(bp, n)| && AlignedRows(bp, n)[|AlignedRows(bp, t)|].t == t
  {
    var p := AlignedRows(bp, n - 1);
    var rows := AlignedRows(bp, n);
    var pos := |AlignedRows(bp, t)|;
    assert |p| <= |rows| && forall k :: 0 <= k < |p| ==> rows[k] == p[k];
    if t == n - 1 {
      assert rows[pos].t == t;
    } else {
      AlignedRowsHas(bp, n - 1, t);
      assert rows[pos] == p[pos];
    }
  }

  function ZColumn(rows: seq<Row>): (zs: seq<real>)
    ensures |zs| == |rows| && forall k :: 0 <= k < |rows| ==> zs[k] == rows[k].z
  {
    seq(|rows|, k requires 0 <= k < |rows| => rows[k].z)
  }

  function S1Column(rows: seq<Row>): (s: seq<real>)
    ensures |s| == |rows| && forall k :: 0 <= k < |rows| ==> s[k] == rows[k].s1
  {
    seq(|rows|, k requires 0 <= k < |rows| => rows[k].s1)
  }

  function S2Column(rows: seq<Row>): (s: seq<real>)
    ensures |s| == |rows| && forall k :: 0 <= k < |rows| ==> s[k] == rows[k].s2
  {
    seq(|rows|, k requires 0 <= k < |rows| => rows[k].s2)
  }

  // ---------------------------------------------------------------------------
  // Returns and equity
  // ---------------------------------------------------------------------------

  predicate NonZero(s: seq<real>) {
    forall t :: 0 <= t < |s| ==> s[t] != 0.0
  }

  /**
   * `pct_change`: missing at the first row, afterwards the relative change from
   * the previous price, so that the previous price grown by it is the current one.
   */
  function PctChange(s: seq<real>): (r: seq<Option<real>>)
    requires NonZero(s)
    ensures |r| == |s|
    ensures |s| > 0 ==> r[0] == None
    ensures forall t {:trigger r[t]} :: 0 < t < |s| ==> r[t] == Some(Change(s[t - 1], s[t]))
  {
    seq(|s|, t requires 0 <= t < |s| => if t == 0 then None else Some(Change(s[t - 1], s[t])))
  }

  /** The relative change from `prev` to `cur`; growing `prev` by it gives `cur`. */
  function Change(prev: real, cur: real): (c: real)
    requires prev != 0.0
    ensures prev * (1.0 + c) == cur
  {
    cur / prev - 1.0
  }

  /**
   * The strategy return at row t: the positions recorded at t-1 (`shift(1)`)
   * times the legs' returns at t; missing at the first row.
   */
  function StrategyReturns(pos: seq<Position>, r1: seq<Option<real>>, r2: seq<Option<real>>): (r: seq<Option<real>>)
    requires |r1| == |pos| && |r2| == |pos|
    ensures |r| == |pos|
    ensures |pos| > 0 ==> r[0] == None
    ensures forall t :: 0 < t < |pos| && r1[t].Some? && r2[t].Some? ==>
      r[t] == Some(Earned(pos[t - 1], r1[t].value, r2[t].value))
  {
    seq(|pos|, t requires 0 <= t < |pos| =>
      if t == 0 || r1[t].None? || r2[t].None? then None
      else Some(Earned(pos[t - 1], r1[t].value, r2[t].value)))
  }

  /** What positions `p` earn over one candle in which the legs return `a` and `b`. */
  function Earned(p: Position, a: real, b: real): (r: real)
    ensures p == LongSpread ==> r == a - b
    ensures p == ShortSpread ==> r == b - a
    ensures p == Flat ==> r == 0.0
  {
    p.s1 as real * a + p.s2 as real * b
  }

  /** `fillna(0)` on one entry. */
  function FillNa(o: Option<real>): real {
    if o.Some? then o.value else 0.0
  }

  /** `(1 + strategy_ret.fillna(0)).cumprod()`. */
  function Equity(s: seq<Option<real>>): (e: seq<real>)
    ensures |e| == |s|
  {
    if s == [] then []
    else
      var p := Equity(s[..|s| - 1]);
      p + [Grow(if p == [] then 1.0 else p[|p| - 1], s[|s| - 1])]
  }

  /** Equity `e` compounded by one (zero-filled) return. */
  function Grow(e: real, r: Option<real>): real {
    e * (1.0 + FillNa(r))
  }

  /** Equity compounds: it starts at 1 + the first return and each row grows the previous one. */
  lemma {:induction false} EquityStep(s: seq<Option<real>>)
    ensures |s| > 0 ==> Equity(s)[0] == Grow(1.0, s[0])
    ensures forall t {:trigger s[t]} :: 0 < t < |s| ==> Equity(s)[t] == Grow(Equity(s)[t - 1], s[t])
  {
    if s != [] {
      var init := s[..|s| - 1];
      EquityStep(init);
      var p := Equity(init);
      var last := Grow(if p == [] then 1.0 else p[|p| - 1], s[|s| - 1]);
      assert Equity(s) == p + [last];
      forall t | 0 < t < |s| - 1 ensures Equity(s)[t] == Grow(Equity(s)[t - 1], s[t]) {
        assert s[t] == init[t];
        assert Equity(s)[t] == p[t] && Equity(s)[t - 1] == p[t - 1];
      }
      if |s| == 1 {
        assert p == [];
      } else {
        assert Equity(s)[|s| - 2] == p[|p| - 1];
      }
    }
  }

  /** With every return zero (or missing) the equity stays at 1. */
  lemma {:induction false} EquityFlat(s: seq<Option<real>>)
    requires forall t :: 0 <= t < |s| ==> FillNa(s[t]) == 0.0
    ensures forall t :: 0 <= t < |s| ==> Equity(s)[t] == 1.0
  {
    if s != [] {
      var init := s[..|s| - 1];
      EquityFlat(init);
      assert Equity(s) == Equity(init) + [Equity(s)[|s| - 1]];
    }
  }

  // ---------------------------------------------------------------------------
  // backtest
  // ---------------------------------------------------------------------------

  /** The frame returned by `backtest`, column by column. */
  datatype Record = Record(
    rows: seq<Row>,
    positions: seq<Position>,
    ret1: seq<Option<real>>,
    ret2: seq<Option<real>>,
    strategy: seq<Option<real>>,
    equity: seq<real>)
  {
    /** Every column has one entry per row and the equity curve starts at 1. */
    predicate WellFormed() {
      |positions| == |rows| && |ret1| == |rows| && |ret2| == |rows| &&
      |strategy| == |rows| && |equity| == |rows| &&
      (|rows| > 0 ==> equity[0] == 1.0)
    }
  }

  /** The prices of both legs are nonzero, so every relative change is defined. */
  predicate Priced(bp: Cointegration.BestPair) {
    NonZero(bp.series1) && NonZero(bp.series2)
  }

  lemma RowsPriced(bp: Cointegration.BestPair)
    requires Joinable(bp) && Priced(bp)
    ensures NonZero(S1Column(AlignedRows(bp, |bp.series1|)))
    ensures NonZero(S2Column(AlignedRows(bp, |bp.series1|)))
  {
    AlignedRowsSpec(bp, |bp.series1|);
  }

  /** `backtest` as a function of the selected pair and the entry threshold. */
  function BacktestOf(bp: Cointegration.BestPair, thr: real): (rec: Record)
    requires Joinable(bp) && Priced(bp)
    ensures rec.WellFormed()
    ensures rec.rows == AlignedRows(bp, |bp.series1|)
    ensures rec.positions == Positions(ZColumn(rec.rows), thr)
  {
    var rows := AlignedRows(bp, |bp.series1|);
    RowsPriced(bp);
    var pos := Positions(ZColumn(rows), thr);
    var r1 := PctChange(S1Column(rows));
    var r2 := PctChange(S2Column(rows));
    var strat := StrategyReturns(pos, r1, r2);
    EquityStep(strat);
    Record(rows, pos, r1, r2, strat, Equity(strat))
  }

  /** The frame of a backtest, column by column. */
  lemma BacktestColumns(bp: Cointegration.BestPair, thr: real)
    requires Joinable(bp) && Priced(bp)
    ensures NonZero(S1Column(AlignedRows(bp, |bp.series1|)))
    ensures NonZero(S2Column(AlignedRows(bp, |bp.series1|)))
    ensures var rec := BacktestOf(bp, thr);
      rec.ret1 == PctChange(S1Column(rec.rows)) && rec.ret2 == PctChange(S2Column(rec.rows)) &&
      rec.strategy == StrategyReturns(rec.positions, rec.ret1, rec.ret2) &&
      rec.equity == Equity(rec.strategy)
  {
    RowsPriced(bp);
  }

  /**
   * The columns of a backtest line up: each leg's return at row t is its change
   * from row t-1, the strategy return at t is what the legal positions recorded
   * at t-1 earn on those returns, and the equity at t compounds it.
   */
  lemma BacktestReturns(bp: Cointegration.BestPair, thr: real, t: nat)
    requires Joinable(bp) && Priced(bp)
    requires 0 < t < |BacktestOf(bp, thr).rows|
    ensures var rec := BacktestOf(bp, thr);
      rec.rows[t - 1].s1 != 0.0 && rec.ret1[t] == Some(Change(rec.rows[t - 1].s1, rec.rows[t].s1)) &&
      rec.rows[t - 1].s2 != 0.0 && rec.ret2[t] == Some(Change(rec.rows[t - 1].s2, rec.rows[t].s2)) &&
      rec.positions[t - 1].Legal() &&
      rec.strategy[t] == Some(Earned(rec.positions[t - 1], rec.ret1[t].value, rec.ret2[t].value)) &&
      rec.equity[t] == Grow(rec.equity[t - 1], rec.strategy[t])
  {
    var rec := BacktestOf(bp, thr);
    BacktestColumns(bp, thr);
    var c1, c2 := S1Column(rec.rows), S2Column(rec.rows);
    assert c1[t - 1] == rec.rows[t - 1].s1 && c1[t] == rec.rows[t].s1;
    assert c2[t - 1] == rec.rows[t - 1].s2 && c2[t] == rec.rows[t].s2;
    assert rec.ret1[t] == Some(Change(c1[t - 1], c1[t]));
    assert rec.ret2[t] == Some(Change(c2[t - 1], c2[t]));
    PositionLegal(ZColumn(rec.rows), thr, t - 1);
    EquityStep(rec.strategy);
  }

  /**
   * `backtest`: the position loop over the aligned z-scores, then the return
   * columns and the equity curve added to the frame.
   */
  method RunBacktest(bp: Cointegration.BestPair, thr: real) returns (rec: Record)
    requires Joinable(bp) && Priced(bp)
    ensures rec == BacktestOf(bp, thr)
  {
    var rows := AlignedRows(bp, |bp.series1|);
    var zs := ZColumn(rows);
    var posS1, posS2 := PositionLoop(zs, thr);
    var pos := seq(|zs|, i requires 0 <= i < |zs| => Position(posS1[i], posS2[i]));
    assert pos == Positions(zs, thr);
    RowsPriced(bp);
    var r1 := PctChange(S1Column(rows));
    var r2 := PctChange(S2Column(rows));
    var strat := StrategyReturns(pos, r1, r2);
    rec := Record(rows, pos, r1, r2, strat, Equity(strat));
  }

  // ---------------------------------------------------------------------------
  // performance_metrics
  // ---------------------------------------------------------------------------

  /** The annualisation factor: one period per minute of a 365-day year. */
  const MinutesPerYear: nat := 365 * 24 * 60

  /** `x ** y` on reals, left uninterpreted. */
  type Power = (real, real) -> real
  /** The square root, left uninterpreted. */
  type Root = real -> real

  /** The metrics table; every entry but the Sharpe ratio is a percentage. */
  datatype Metrics = Metrics(
    totalReturnPct: real,
    annualizedReturnPct: real,
    annualizedVolatilityPct: real,
    sharpe: real,
    maxDrawdownPct: real)

  function Max(a: real, b: real): real {
    if a >= b then a else b
  }

  function Min(a: real, b: real): real {
    if a <= b then a else b
  }

  /** `cummax`: the running maximum. */
  function CumMax(e: seq<real>): (m: seq<real>)
    ensures |m| == |e|
  {
    if e == [] then []
    else
      var p := CumMax(e[..|e| - 1]);
      p + [if p == [] then e[|e| - 1] else Max(p[|p| - 1], e[|e| - 1])]
  }

  /** The running maximum starts at the first value and dominates both it and the current value. */
  lemma {:induction false} CumMaxBounds(e: seq<real>)
    ensures |e| > 0 ==> CumMax(e)[0] == e[0]
    ensures forall t :: 0 <= t < |e| ==> CumMax(e)[t] >= e[t] && CumMax(e)[t] >= e[0]
  {
    if e != [] {
      var init := e[..|e| - 1];
      CumMaxBounds(init);
      var p := CumMax(init);
      assert CumMax(e) == p + [CumMax(e)[|e| - 1]];
      forall t | 0 <= t < |e| - 1 ensures CumMax(e)[t] >= e[t] && CumMax(e)[t] >= e[0] {
        assert e[t] == init[t] && e[0] == init[0];
      }
      if |e| == 1 {
        assert p == [];
      }
    }
  }

  /**
   * The running maximum at t is the largest of the values up to t: it is at
   * least each of them and is one of them.
   */
  lemma {:induction false} CumMaxIsRunningMax(e: seq<real>)
    ensures forall k, t :: 0 <= k <= t < |e| ==> CumMax(e)[t] >= e[k]
    ensures forall t :: 0 <= t < |e| ==> CumMax(e)[t] in e[..t + 1]
  {
    if e != [] {
      var n := |e| - 1;
      var init := e[..n];
      CumMaxIsRunningMax(init);
      var p := CumMax(init);
      var m := CumMax(e);
      assert m == p + [m[n]];
      assert n == 0 ==> m[n] == e[n];
      assert n > 0 ==> m[n] == Max(p[n - 1], e[n]);
      forall k, t | 0 <= k <= t < |e| ensures m[t] >= e[k] {
        if t < n {
          assert m[t] == p[t] && e[k] == init[k];
        } else if k < n {
          assert p[n - 1] >= init[k];
        }
      }
      forall t | 0 <= t < |e| ensures m[t] in e[..t + 1] {
        if t < n {
          assert m[t] == p[t] && init[..t + 1] == e[..t + 1];
        } else if n > 0 && p[n - 1] >= e[n] {
          assert p[n - 1] in init[..n] && init[..n] == e[..n];
          assert e[..n] <= e[..t + 1];
        } else {
          assert e[..t + 1][t] == e[t];
        }
      }
    }
  }

  /** The running maximum never exceeds a bound on all the values. */
  lemma {:induction false} CumMaxAtMost(e: seq<real>, b: real)
    requires forall k :: 0 <= k < |e| ==> e[k] <= b
    ensures forall t :: 0 <= t < |e| ==> CumMax(e)[t] <= b
  {
    if e != [] {
      var init := e[..|e| - 1];
      CumMaxAtMost(init, b);
      assert CumMax(e) == CumMax(init) + [CumMax(e)[|e| - 1]];
    }
  }

  /** `(equity - cummax) / cummax`, for a curve whose first value is positive. */
  function Drawdowns(e: seq<real>): (d: seq<real>)
    requires |e| > 0 && e[0] > 0.0
    ensures |d| == |e|
    ensures d[0] == 0.0
    ensures forall t :: 0 <= t < |e| ==> d[t] <= 0.0
    ensures forall t :: 0 <= t < |e| ==>
      e[t] <= CumMax(e)[t] && CumMax(e)[t] > 0.0 && d[t] == Drawdown(e[t], CumMax(e)[t])
  {
    CumMaxBounds(e);
    var m := CumMax(e);
    var d := seq(|e|, t requires 0 <= t < |e| => Drawdown(e[t], m[t]));
    assert forall t :: 0 <= t < |e| ==> d[t] == Drawdown(e[t], m[t]);
    d
  }

  /** The fall of `e` below the running maximum `m`, relative to `m`: never positive. */
  function Drawdown(e: real, m: real): (d: real)
    requires m > 0.0 && e <= m
    ensures d <= 0.0
    ensures e == m ==> d == 0.0
    ensures m * (1.0 + d) == e
  {
    (e - m) / m
  }

  /** The smallest element. */
  function MinOf(s: seq<real>): (r: real)
    requires |s| > 0
    ensures forall t :: 0 <= t < |s| ==> r <= s[t]
    ensures exists t :: 0 <= t < |s| && r == s[t]
  {
    if |s| == 1 then s[0]
    else
      var p := MinOf(s[..|s| - 1]);
      assert forall t :: 0 <= t < |s| - 1 ==> s[t] == s[..|s| - 1][t];
      Min(p, s[|s| - 1])
  }

  /** The worst drawdown of a curve: the smallest of its drawdowns, so never positive. */
  function MaxDrawdown(e: seq<real>): (m: real)
    requires |e| > 0 && e[0] > 0.0
    ensures m <= 0.0
    ensures forall t :: 0 <= t < |e| ==> m <= Drawdowns(e)[t]
    ensures exists t :: 0 <= t < |e| && m == Drawdowns(e)[t]
  {
    MinOf(Drawdowns(e))
  }

  /** The zero-filled strategy returns. */
  function ZeroFilled(s: seq<Option<real>>): (r: seq<real>)
    ensures |r| == |s| && forall t :: 0 <= t < |s| ==> r[t] == FillNa(s[t])
  {
    seq(|s|, t requires 0 <= t < |s| => FillNa(s[t]))
  }

  /** Annualised volatility as a fraction: the deviation of the returns times the root of the periods per year. */
  function Volatility(rec: Record, periodsPerYear: nat, std: Cointegration.Deviation, sqrt: Root): (v: real)
    ensures std(ZeroFilled(rec.strategy)) == 0.0 ==> v == 0.0
  {
    std(ZeroFilled(rec.strategy)) * sqrt(periodsPerYear as real)
  }

  /**
   * The compounded annual return of a total return earned over `periods`
   * periods: `(1 + total) ** (1 / years) - 1`, and zero over an empty span.
   */
  function AnnualReturn(total: real, periods: nat, periodsPerYear: nat, pow: Power): (a: real)
    requires periodsPerYear > 0
    ensures periods == 0 ==> a == 0.0
    ensures periods > 0 ==> a + 1.0 == pow(1.0 + total, (periodsPerYear as real) / (periods as real))
  {
    var years := (periods as real) / (periodsPerYear as real);
    if years > 0.0 then
      assert 1.0 / years == (periodsPerYear as real) / (periods as real) by {
        Reciprocal(periods as real, periodsPerYear as real);
      }
      pow(1.0 + total, 1.0 / years) - 1.0
    else 0.0
  }

  lemma Reciprocal(a: real, b: real)
    requires a > 0.0 && b > 0.0
    ensures 1.0 / (a / b) == b / a
  {
    assert (a / b) * (b / a) == 1.0;
  }

  /** The Sharpe ratio of an annual return over a volatility: zero when the volatility is zero. */
  function Sharpe(annual: real, vol: real): (s: real)
    ensures vol == 0.0 ==> s == 0.0
    ensures vol != 0.0 ==> s * vol == annual
  {
    if vol != 0.0 then annual / vol else 0.0
  }

  /**
   * `performance_metrics`: fails on an empty frame (there is no last equity);
   * otherwise the total return, the compounded annual return (zero when the
   * span is not positive), the annualised volatility, the Sharpe ratio (zero
   * when the volatility is zero) and the worst drawdown, which is never positive.
   */
  function PerformanceMetrics(rec: Record, periodsPerYear: nat, pow: Power, std: Cointegration.Deviation, sqrt: Root)
    : (r: Result<Metrics>)
    requires rec.WellFormed() && periodsPerYear > 0
    ensures r.Err? <==> |rec.rows| == 0
    ensures r.Err? ==> r.error == EmptyBacktest
    ensures r.Ok? ==> r.value.totalReturnPct == (rec.equity[|rec.equity| - 1] - 1.0) * 100.0
    ensures r.Ok? ==> r.value.maxDrawdownPct == MaxDrawdown(rec.equity) * 100.0 && r.value.maxDrawdownPct <= 0.0
    ensures r.Ok? && Volatility(rec, periodsPerYear, std, sqrt) == 0.0 ==> r.value.sharpe == 0.0
  {
    if |rec.equity| == 0 then Err(EmptyBacktest)
    else
      var total := rec.equity[|rec.equity| - 1] - 1.0;
      var annual := AnnualReturn(total, |rec.rows|, periodsPerYear, pow);
      var vol := Volatility(rec, periodsPerYear, std, sqrt);
      var sharpe := Sharpe(annual, vol);
      var maxDd := MaxDrawdown(rec.equity);
      Ok(Metrics(total * 100.0, annual * 100.0, vol * 100.0, sharpe, maxDd * 100.0))
  }

  /**
   * The annualised figures of the metrics: the compounded annual return of
   * the total return over the frame's rows, and the annualised volatility.
   */
  lemma PerformanceMetricsRates(rec: Record, periodsPerYear: nat, pow: Power, std: Cointegration.Deviation, sqrt: Root)
    requires rec.WellFormed() && periodsPerYear > 0 && |rec.rows| > 0
    ensures PerformanceMetrics(rec, periodsPerYear, pow, std, sqrt).value.annualizedReturnPct ==
      AnnualReturn(rec.equity[|rec.rows| - 1] - 1.0, |rec.rows|, periodsPerYear, pow) * 100.0
    ensures PerformanceMetrics(rec, periodsPerYear, pow, std, sqrt).value.annualizedVolatilityPct ==
      Volatility(rec, periodsPerYear, std, sqrt) * 100.0
    ensures Volatility(rec, periodsPerYear, std, sqrt) != 0.0 ==>
      PerformanceMetrics(rec, periodsPerYear, pow, std, sqrt).value.sharpe * Volatility(rec, periodsPerYear, std, sqrt) ==
        AnnualReturn(rec.equity[|rec.rows| - 1] - 1.0, |rec.rows|, periodsPerYear, pow)
  {
    var total := rec.equity[|rec.rows| - 1] - 1.0;
    var annual := AnnualReturn(total, |rec.rows|, periodsPerYear, pow);
    var vol := Volatility(rec, periodsPerYear, std, sqrt);
    var m := PerformanceMetrics(rec, periodsPerYear, pow, std, sqrt).value;
    assert m.annualizedReturnPct == annual * 100.0 && m.annualizedVolatilityPct == vol * 100.0;
    assert m.sharpe == Sharpe(annual, vol);
  }

  /** A run of n zero returns. */
  function Zeros(n: nat): (z: seq<real>)
    ensures |z| == n && forall t :: 0 <= t < n ==> z[t] == 0.0
  {
    seq(n, _ => 0.0)
  }

  /** A curve that stays at 1 never falls below its running maximum. */
  lemma DrawdownsFlat(e: seq<real>)
    requires |e| > 0 && forall t :: 0 <= t < |e| ==> e[t] == 1.0
    ensures forall t :: 0 <= t < |e| ==> Drawdowns(e)[t] == 0.0
  {
    CumMaxBounds(e);
    CumMaxAtMost(e, 1.0);
  }

  /**
   * A backtest that never earns or loses anything: total return and worst
   * drawdown are zero, and so is the Sharpe ratio when the deviation of a run
   * of zeros is zero.
   */
  lemma ZeroReturnsMetrics(rec: Record, periodsPerYear: nat, pow: Power, std: Cointegration.Deviation, sqrt: Root)
    requires rec.WellFormed() && periodsPerYear > 0 && |rec.rows| > 0
    requires rec.equity == Equity(rec.strategy)
    requires forall t :: 0 <= t < |rec.strategy| ==> FillNa(rec.strategy[t]) == 0.0
    ensures var m := PerformanceMetrics(rec, periodsPerYear, pow, std, sqrt).value;
      m.totalReturnPct == 0.0 && m.maxDrawdownPct == 0.0 &&
      (std(Zeros(|rec.rows|)) == 0.0 ==> m.sharpe == 0.0)
  {
    EquityFlat(rec.strategy);
    ZeroReturnsTotal(rec, periodsPerYear, pow, std, sqrt);
    ZeroReturnsDrawdown(rec, periodsPerYear, pow, std, sqrt);
    ZeroReturnsSharpe(rec, periodsPerYear, pow, std, sqrt);
  }

  lemma ZeroReturnsTotal(rec: Record, periodsPerYear: nat, pow: Power, std: Cointegration.Deviation, sqrt: Root)
    requires rec.WellFormed() && periodsPerYear > 0 && |rec.rows| > 0
    requires rec.equity[|rec.equity| - 1] == 1.0
    ensures PerformanceMetrics(rec, periodsPerYear, pow, std, sqrt).value.totalReturnPct == 0.0
  {
  }

  lemma ZeroReturnsDrawdown(rec: Record, periodsPerYear: nat, pow: Power, std: Cointegration.Deviation, sqrt: Root)
    requires rec.WellFormed() && periodsPerYear > 0 && |rec.rows| > 0
    requires forall t :: 0 <= t < |rec.equity| ==> rec.equity[t] == 1.0
    ensures PerformanceMetrics(rec, periodsPerYear, pow, std, sqrt).value.maxDrawdownPct == 0.0
  {
    DrawdownsFlat(rec.equity);
  }

  lemma ZeroReturnsSharpe(rec: Record, periodsPerYear: nat, pow: Power, std: Cointegration.Deviation, sqrt: Root)
    requires rec.WellFormed() && periodsPerYear > 0 && |rec.rows| > 0
    requires forall t :: 0 <= t < |rec.strategy| ==> FillNa(rec.strategy[t]) == 0.0
    ensures std(Zeros(|rec.rows|)) == 0.0 ==> PerformanceMetrics(rec, periodsPerYear, pow, std, sqrt).value.sharpe == 0.0
  {
    assert ZeroFilled(rec.strategy) == Zeros(|rec.rows|);
  }
}
