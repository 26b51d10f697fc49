/**
 * The live loop of main.py: per pair, four position flags that one tick of
 * the loop updates in place (exit checks first, then guarded entry checks),
 * each action sending two per-leg webhook intents; the z-score of the last
 * `window` aligned candles that drives a tick; and the ranking of the
 * candidate pairs by p-value.
 *
 * The data download, the clock and the HTTP call are not modelled: a tick
 * receives its z-score, and a send is recorded as an emitted intent.
 */
module LiveStrategy {
  import opened Outcomes
  import Backtest
  import Cointegration

  // ---------------------------------------------------------------------------
  // Flags, intents and one tick
  // ---------------------------------------------------------------------------

  /** The four `*_has_position_*` flags of one pair. */
  datatype Flags = Flags(s1Long: bool, s1Short: bool, s2Long: bool, s2Short: bool)

  /** Every pair starts with no position. */
  const NoFlags := Flags(false, false, false, false)

  /** The legs are opposed: S1 long with S2 short, S1 short with S2 long, never S1 both. */
  predicate Consistent(f: Flags) {
    f.s1Long == f.s2Short && f.s1Short == f.s2Long && !(f.s1Long && f.s1Short)
  }

  /** The batch position the flags stand for: S1 +1 when long, -1 when short, else 0; S2 opposite. */
  function Encode(f: Flags): (p: Backtest.Position)
    ensures p.Legal()
    ensures p == Backtest.Flat <==> !f.s1Long && !f.s1Short
  {
    if f.s1Long then Backtest.LongSpread
    else if f.s1Short then Backtest.ShortSpread
    else Backtest.Flat
  }

  /** The bot's deal commands. */
  datatype Action = StartDeal | CloseDeal

  /** The bot identifiers of the long and of the short deal configuration. */
  const UuidLong: string := "06bda1d7-8de2-4574-97c9-959cae3d9798"
  const UuidShort: string := "9636adbf-d835-4abb-8bfc-a3be20bd31e6"

  /** One webhook request: a command for the deal `uuid` on `symbol`. */
  datatype Intent = Intent(action: Action, uuid: string, symbol: string)

  /** The bot symbols of the two legs (`S1_gainium`, `S2_gainium`). */
  datatype Legs = Legs(s1: string, s2: string)

  /**
   * The state after a phase of a tick: the flags, the intents sent so far and
   * whether an action was taken. A z-score of `None` is NaN, for which every
   * comparison is false.
   */
  datatype Phase = Phase(flags: Flags, intents: seq<Intent>, acted: bool)

  predicate AtLeast(z: Option<real>, c: real) { z.Some? && z.value >= c }
  predicate AtMost(z: Option<real>, c: real) { z.Some? && z.value <= c }
  predicate Above(z: Option<real>, c: real) { z.Some? && z.value > c }
  predicate Below(z: Option<real>, c: real) { z.Some? && z.value < c }

  /**
   * The exit checks: a long spread closes once z is back to 0 or above, else a
   * short one at 0 or below. They send nothing, or a close for S1 then a close
   * for S2, and act exactly when they send.
   */
  function ExitPhase(legs: Legs, f: Flags, z: Option<real>): (r: Phase)
    ensures r.intents == [] ||
      (|r.intents| == 2 && r.intents[0].action == CloseDeal && r.intents[0].symbol == legs.s1 &&
                           r.intents[1].action == CloseDeal && r.intents[1].symbol == legs.s2)
    ensures r.acted <==> r.intents != []
  {
    if f.s1Long && AtLeast(z, 0.0) then
      Phase(f.(s1Long := false, s2Short := false),
            [Intent(CloseDeal, UuidLong, legs.s1), Intent(CloseDeal, UuidShort, legs.s2)], true)
    else if f.s1Short && AtMost(z, 0.0) then
      Phase(f.(s1Short := false, s2Long := false),
            [Intent(CloseDeal, UuidShort, legs.s1), Intent(CloseDeal, UuidLong, legs.s2)], true)
    else
      Phase(f, [], false)
  }

  /**
   * The entry checks, against the flags the exit checks left. They keep what
   * was sent and append nothing or a start for S1 then a start for S2, and act
   * when they append.
   */
  function EntryPhase(legs: Legs, p: Phase, z: Option<real>, thr: real): (r: Phase)
    ensures r.intents == p.intents ||
      (|r.intents| == |p.intents| + 2 && r.intents[..|p.intents|] == p.intents &&
       r.intents[|p.intents|].action == StartDeal && r.intents[|p.intents|].symbol == legs.s1 &&
       r.intents[|p.intents| + 1].action == StartDeal && r.intents[|p.intents| + 1].symbol == legs.s2)
    ensures r.acted <==> p.acted || |r.intents| > |p.intents|
  {
    var f := p.flags;
    if Above(z, thr) && !f.s1Short && !f.s2Long then
      Phase(f.(s1Short := true, s2Long := true),
            p.intents + [Intent(StartDeal, UuidShort, legs.s1), Intent(StartDeal, UuidLong, legs.s2)], true)
    else if Below(z, -thr) && !f.s1Long && !f.s2Short then
      Phase(f.(s1Long := true, s2Short := true),
            p.intents + [Intent(StartDeal, UuidLong, legs.s1), Intent(StartDeal, UuidShort, legs.s2)], true)
    else
      p
  }

  /**
   * One tick of the decision block for one pair: no intent, one close pair,
   * one open pair, or a close pair followed by an open pair; an action is
   * taken exactly when something is sent.
   */
  function TickSpec(legs: Legs, f: Flags, z: Option<real>, thr: real): (r: Phase)
    ensures var closes := |ExitPhase(legs, f, z).intents|;
      (closes == 0 || closes == 2) &&
      (|r.intents| == closes || |r.intents| == closes + 2) &&
      (r.acted <==> |r.intents| > 0)
  {
    EntryPhase(legs, ExitPhase(legs, f, z), z, thr)
  }

  /** The pair dictionary of the live loop: bot symbols, window, threshold and the four flags. */
  class PairConfig {
    const legs: Legs
    const window: nat
    const threshold: real
    var s1Long: bool
    var s1Short: bool
    var s2Long: bool
    var s2Short: bool

    /** The flags as a value. */
    function Current(): Flags
      reads this
    {
      Flags(s1Long, s1Short, s2Long, s2Short)
    }

    constructor(legs: Legs, window: nat, threshold: real)
      ensures this.legs == legs && this.window == window && this.threshold == threshold
      ensures Current() == NoFlags
    {
      this.legs := legs;
      this.window := window;
      this.threshold := threshold;
      s1Long, s1Short, s2Long, s2Short := false, false, false, false;
    }

    /**
     * One pass of the decision block: close on reaching the mean, then open on
     * crossing the threshold, setting each flag right after its send.
     */
    method Tick(z: Option<real>) returns (sent: seq<Intent>, actionTaken: bool)
      modifies this
      ensures Current() == TickSpec(legs, old(Current()), z, threshold).flags
      ensures sent == TickSpec(legs, old(Current()), z, threshold).intents
      ensures actionTaken == TickSpec(legs, old(Current()), z, threshold).acted
    {
      sent := [];
      actionTaken := false;
      if s1Long && AtLeast(z, 0.0) {
        actionTaken := true;
        sent := sent + [Intent(CloseDeal, UuidLong, legs.s1)];
        s1Long := false;
        sent := sent + [Intent(CloseDeal, UuidShort, legs.s2)];
        s2Short := false;
      } else if s1Short && AtMost(z, 0.0) {
        actionTaken := true;
        sent := sent + [Intent(CloseDeal, UuidShort, legs.s1)];
        s1Short := false;
        sent := sent + [Intent(CloseDeal, UuidLong, legs.s2)];
        s2Long := false;
      }
      if Above(z, threshold) && !s1Short && !s2Long {
        actionTaken := true;
        sent := sent + [Intent(StartDeal, UuidShort, legs.s1)];
        s1Short := true;
        sent := sent + [Intent(StartDeal, UuidLong, legs.s2)];
        s2Long := true;
      } else if Below(z, -threshold) && !s1Long && !s2Short {
        actionTaken := true;
        sent := sent + [Intent(StartDeal, UuidLong, legs.s1)];
        s1Long := true;
        sent := sent + [Intent(StartDeal, UuidShort, legs.s2)];
        s2Short := true;
      }
    }

    /**
     * One pair's turn in a round: the z-score of the aligned closes over this
     * pair's window, then the decision block. Without a candle the round stops
     * with the error before any flag changes.
     */
    method Round(s1: seq<real>, s2: seq<real>, std: Cointegration.Deviation)
      returns (r: Result<(seq<Intent>, bool)>)
      requires |s1| == |s2|
      modifies this
      ensures r.Err? <==> LiveZScore(s1, s2, window, std).Err?
      ensures r.Err? ==> r.error == EmptyWindow && Current() == old(Current())
      ensures r.Ok? ==>
        var ph := TickSpec(legs, old(Current()), LiveZScore(s1, s2, window, std).value, threshold);
        Current() == ph.flags && r.value == (ph.intents, ph.acted)
    {
      var z := LiveZScore(s1, s2, window, std);
      if z.Err? {
        return Err(z.error);
      }
      var sent, acted := Tick(z.value);
      r := Ok((sent, acted));
    }
  }

  // ---------------------------------------------------------------------------
  // Properties of a tick
  // ---------------------------------------------------------------------------

  /**
   * The three pairs the live loop watches, each starting with every flag
   * cleared: every threshold is positive and every window holds a candle.
   */
  method ConfiguredPairs() returns (pairs: seq<PairConfig>)
    ensures |pairs| == 3
    ensures pairs[0].legs == Legs("DOGE_USDT", "ADA_USDT") && pairs[0].window == 36 && pairs[0].threshold == 1.61
    ensures pairs[1].legs == Legs("BTC_USDT", "SOL_USDT") && pairs[1].window == 15 && pairs[1].threshold == 2.6
    ensures pairs[2].legs == Legs("TAO_USDT", "SHIB_USDT") && pairs[2].window == 28 && pairs[2].threshold == 3.49
    ensures forall k :: 0 <= k < 3 ==>
      fresh(pairs[k]) && pairs[k].Current() == NoFlags && pairs[k].threshold > 0.0 && pairs[k].window >= 1
  {
    var p1 := new PairConfig(Legs("DOGE_USDT", "ADA_USDT"), 36, 1.61);
    var p2 := new PairConfig(Legs("BTC_USDT", "SOL_USDT"), 15, 2.6);
    var p3 := new PairConfig(Legs("TAO_USDT", "SHIB_USDT"), 28, 3.49);
    pairs := [p1, p2, p3];
  }

  /** A NaN z-score (zero deviation) takes no action. */
  lemma TickNaN(legs: Legs, f: Flags, thr: real)
    ensures TickSpec(legs, f, None, thr) == Phase(f, [], false)
  {
  }

  /** With a non-negative threshold a tick keeps the flags of the two legs opposed. */
  lemma TickConsistent(legs: Legs, f: Flags, z: Option<real>, thr: real)
    requires Consistent(f) && thr >= 0.0
    ensures Consistent(TickSpec(legs, f, z, thr).flags)
  {
  }

  /**
   * Under the flag encoding, one live tick moves the position exactly as one
   * iteration of the batch loop does for the same z-score and threshold.
   */
  lemma TickIsStep(legs: Legs, f: Flags, z: real, thr: real)
    requires Consistent(f) && thr >= 0.0
    ensures Encode(TickSpec(legs, f, Some(z), thr).flags) == Backtest.Step(Encode(f), z, thr)
  {
  }

  /** Every pair of intents names S1 then S2, and the closes come before the opens. */
  lemma TickIntentOrder(legs: Legs, f: Flags, z: Option<real>, thr: real)
    ensures var out, closes := TickSpec(legs, f, z, thr), |ExitPhase(legs, f, z).intents|;
      forall k :: 0 <= k < |out.intents| ==>
        out.intents[k].symbol == (if k % 2 == 0 then legs.s1 else legs.s2) &&
        (out.intents[k].action == CloseDeal <==> k < closes)
  {
    var ex := ExitPhase(legs, f, z);
    var out := TickSpec(legs, f, z, thr);
    forall k | 0 <= k < |out.intents|
      ensures out.intents[k].symbol == (if k % 2 == 0 then legs.s1 else legs.s2)
      ensures out.intents[k].action == CloseDeal <==> k < |ex.intents|
    {
      if k < |ex.intents| {
        assert out.intents[k] == ex.intents[k];
      }
      assert k == 0 || k == 1 || k == 2 || k == 3;
    }
  }

  /**
   * The two intents of a pair use the two different deals; a close pair uses
   * the long deal on S1 exactly when it closes a long spread, an open pair the
   * short deal on S1 exactly when the short entry fired.
   */
  lemma TickIntentDeals(legs: Legs, f: Flags, z: Option<real>, thr: real)
    ensures var out, ex := TickSpec(legs, f, z, thr), ExitPhase(legs, f, z);
      var closes := |ex.intents|;
      (closes == 2 ==> (out.intents[0].uuid == UuidLong <==> f.s1Long && AtLeast(z, 0.0))) &&
      (|out.intents| == closes + 2 ==>
        (out.intents[closes].uuid == UuidShort <==> Above(z, thr) && !ex.flags.s1Short && !ex.flags.s2Long)) &&
      (forall m :: 0 <= m < |out.intents| / 2 ==> out.intents[2 * m].uuid != out.intents[2 * m + 1].uuid)
  {
    var ex := ExitPhase(legs, f, z);
    var out := TickSpec(legs, f, z, thr);
    if |out.intents| > |ex.intents| {
      var opens := out.intents[|ex.intents|..];
      assert out.intents == ex.intents + opens;
      assert opens[0].uuid != opens[1].uuid;
    }
  }

  /**
   * Entries see the flags the exits left: from a long spread a z-score above a
   * non-negative threshold closes both legs and then opens the short spread.
   */
  lemma TickReverses(legs: Legs, z: real, thr: real)
    requires thr >= 0.0 && z > thr
    ensures TickSpec(legs, Flags(true, false, false, true), Some(z), thr) ==
      Phase(Flags(false, true, true, false),
            [Intent(CloseDeal, UuidLong, legs.s1), Intent(CloseDeal, UuidShort, legs.s2),
             Intent(StartDeal, UuidShort, legs.s1), Intent(StartDeal, UuidLong, legs.s2)], true)
  {
  }

  /**
   * A negative threshold can set both S1 flags: a long spread with z between
   * the threshold and 0 is not closed, and the short entry fires.
   */
  lemma NegativeThresholdBreaksFlags(legs: Legs)
    ensures Consistent(Flags(true, false, false, true))
    ensures !Consistent(TickSpec(legs, Flags(true, false, false, true), Some(-0.5), -1.0).flags)
  {
  }

  /**
   * The flags after a stream of z-scores, one tick per z-score; with a
   * non-negative threshold, consistent flags stay consistent.
   */
  function LiveRun(legs: Legs, f: Flags, zs: seq<real>, thr: real): (g: Flags)
    ensures Consistent(f) && thr >= 0.0 ==> Consistent(g)
  {
    if zs == [] then f
    else TickSpec(legs, LiveRun(legs, f, zs[..|zs| - 1], thr), Some(zs[|zs| - 1]), thr).flags
  }

  /**
   * The live loop and the batch loop agree: from consistent flags and with a
   * non-negative threshold, the flags stay consistent and encode the position
   * the batch fold of `Step` reaches.
   */
  lemma {:induction false} LiveAgreesWithBatch(legs: Legs, f: Flags, zs: seq<real>, thr: real)
    requires Consistent(f) && thr >= 0.0
    ensures Consistent(LiveRun(legs, f, zs, thr))
    ensures Encode(LiveRun(legs, f, zs, thr)) == Backtest.Run(Encode(f), zs, thr)
  {
    if zs != [] {
      var init := zs[..|zs| - 1];
      LiveAgreesWithBatch(legs, f, init, thr);
      TickConsistent(legs, LiveRun(legs, f, init, thr), Some(zs[|zs| - 1]), thr);
      TickIsStep(legs, LiveRun(legs, f, init, thr), zs[|zs| - 1], thr);
    }
  }

  /** From the initial all-false flags the live loop tracks the batch positions from flat. */
  lemma LiveFromStart(legs: Legs, zs: seq<real>, thr: real)
    requires thr >= 0.0
    ensures Encode(LiveRun(legs, NoFlags, zs, thr)) == Backtest.Run(Backtest.Flat, zs, thr)
  {
    LiveAgreesWithBatch(legs, NoFlags, zs, thr);
  }

  // ---------------------------------------------------------------------------
  // The z-score a tick acts on
  // ---------------------------------------------------------------------------

  /** `iloc[-w:]`: the last w entries, all of them when there are fewer (or when w is 0). */
  function LastRows<T>(s: seq<T>, w: nat): (r: seq<T>)
    ensures |r| == (if w == 0 || |s| <= w then |s| else w)
    ensures r == s[|s| - |r|..]
  {
    if w == 0 || |s| <= w then s else s[|s| - w..]
  }

  /**
   * The live z-score of the last `w` aligned candles: the last spread minus
   * the mean spread of the slice, over its deviation. A slice without candles
   * has no last spread; a zero deviation gives NaN (`None`).
   */
  function LiveZScore(s1: seq<real>, s2: seq<real>, w: nat, std: Cointegration.Deviation): (r: Result<Option<real>>)
    requires |s1| == |s2|
    ensures r.Err? <==> |s1| == 0
    ensures r.Err? ==> r.error == EmptyWindow
    ensures r.Ok? ==>
      var spread := Cointegration.Spread(LastRows(s1, w), LastRows(s2, w));
      (r.value.Some? <==> std(spread) != 0.0) &&
      (r.value.Some? ==>
        r.value.value * std(spread) == s1[|s1| - 1] - s2[|s2| - 1] - Cointegration.Mean(spread))
  {
    var spread := Cointegration.Spread(LastRows(s1, w), LastRows(s2, w));
    if |spread| == 0 then Err(EmptyWindow)
    else
      var current := spread[|spread| - 1];
      var sd := std(spread);
      if sd == 0.0 then Ok(None) else Ok(Some((current - Cointegration.Mean(spread)) / sd))
  }

  /**
   * Once at least `w` candles are available, the live z-score is the rolling
   * z-score of the batch at the last candle.
   */
  lemma LiveZMatchesRolling(s1: seq<real>, s2: seq<real>, w: nat, std: Cointegration.Deviation)
    requires |s1| == |s2| && 1 <= w <= |s1|
    ensures LiveZScore(s1, s2, w, std) ==
      Ok(Cointegration.RollingZ(Cointegration.Spread(s1, s2), w, std)[|s1| - 1])
  {
    var n := |s1|;
    var full := Cointegration.Spread(s1, s2);
    var win := Cointegration.Spread(LastRows(s1, w), LastRows(s2, w));
    assert win == Cointegration.Window(full, w, n - 1);
  }

  // ---------------------------------------------------------------------------
  // The ranking of the candidate pairs
  // ---------------------------------------------------------------------------

  /** A candidate pair with its p-value. */
  type Ranked = (string, string, real)

  /** `list.index`: the first position of x. */
  function IndexOf(s: seq<string>, x: string): (k: nat)
    requires x in s
    ensures k < |s| && s[k] == x
    ensures forall j :: 0 <= j < k ==> s[j] != x
  {
    if s[0] == x then 0 else 1 + IndexOf(s[1..], x)
  }

  /** Both names of every candidate pair are tickers of the table. */
  predicate NamesListed(res: Cointegration.TestResult) {
    forall k :: 0 <= k < |res.pairs| ==> res.pairs[k].0 in res.df.tickers && res.pairs[k].1 in res.df.tickers
  }

  /** `pairs_with_pvalue`: each candidate pair with the p-value at the positions of its names. */
  function WithPValues(res: Cointegration.TestResult): (r: seq<Ranked>)
    requires res.Shaped() && NamesListed(res)
    ensures |r| == |res.pairs|
    ensures forall k :: 0 <= k < |r| ==> (r[k].0, r[k].1) == res.pairs[k]
  {
    var t := res.df.tickers;
    seq(|res.pairs|, k requires 0 <= k < |res.pairs| =>
      (res.pairs[k].0, res.pairs[k].1, res.pvalues[IndexOf(t, res.pairs[k].0)][IndexOf(t, res.pairs[k].1)]))
  }

  /**
   * For the outcome of the test over distinct tickers, the p-value attached to
   * the k-th candidate pair is the p-value of its cell, so below the
   * significance level.
   */
  lemma WithPValuesOfTest(df: Cointegration.Table, coint: Cointegration.Oracle)
    requires df.Aligned()
    requires forall a, b :: 0 <= a < b < |df.tickers| ==> df.tickers[a] != df.tickers[b]
    ensures Cointegration.Test(df, coint).Shaped() && NamesListed(Cointegration.Test(df, coint))
    ensures var res := Cointegration.Test(df, coint);
      var cells := Cointegration.CandidateCells(Cointegration.UpperCells(|df.tickers|), res.pvalues);
      |WithPValues(res)| == |cells| &&
      forall k :: 0 <= k < |cells| ==>
        Cointegration.Upper(|df.tickers|, cells[k]) &&
        WithPValues(res)[k].2 == res.pvalues[cells[k].0][cells[k].1] &&
        WithPValues(res)[k].2 < Cointegration.Significance
  {
    var res := Cointegration.Test(df, coint);
    var t := df.tickers;
    Cointegration.TestEntries(df, coint);
    Cointegration.CandidatePairsExact(res);
    var cells := Cointegration.CandidateCells(Cointegration.UpperCells(|t|), res.pvalues);
    forall k | 0 <= k < |cells|
      ensures res.pairs[k].0 in t && res.pairs[k].1 in t
      ensures IndexOf(t, res.pairs[k].0) == cells[k].0 && IndexOf(t, res.pairs[k].1) == cells[k].1
    {
      DistinctIndex(t, cells[k].0);
      DistinctIndex(t, cells[k].1);
    }
    forall k | 0 <= k < |cells| ensures res.pvalues[cells[k].0][cells[k].1] < Cointegration.Significance {
      assert cells[k] in cells;
    }
  }

  /** With distinct names, the first position of the name at position i is i. */
  lemma DistinctIndex(s: seq<string>, i: nat)
    requires i < |s| && forall a, b :: 0 <= a < b < |s| ==> s[a] != s[b]
    ensures s[i] in s && IndexOf(s, s[i]) == i
  {
  }

  /** Non-decreasing p-values. */
  predicate SortedByP(s: seq<Ranked>) {
    forall a, b :: 0 <= a < b < |s| ==> s[a].2 <= s[b].2
  }

  /** Inserts x after every entry whose p-value is at most x's; the result holds exactly s and x. */
  function InsertByP(x: Ranked, s: seq<Ranked>): (r: seq<Ranked>)
    ensures multiset(r) == multiset(s) + multiset{x}
  {
    if s == [] then [x]
    else if x.2 < s[0].2 then [x] + s
    else
      assert s == [s[0]] + s[1..];
      [s[0]] + InsertByP(x, s[1..])
  }

  /**
   * `sorted(..., key=p-value)`: insertion of each entry, in list order, after
   * its ties. The ranking is a permutation of the list, in non-decreasing
   * p-value order.
   */
  function SortByP(s: seq<Ranked>): (r: seq<Ranked>)
    ensures multiset(r) == multiset(s)
    ensures SortedByP(r)
  {
    if s == [] then []
    else
      var init := s[..|s| - 1];
      InsertByPSorted(s[|s| - 1], SortByP(init));
      assert s == init + [s[|s| - 1]];
      InsertByP(s[|s| - 1], SortByP(init))
  }

  /** Insertion keeps a lower bound that x and every entry respect. */
  lemma {:induction false} InsertByPBound(x: Ranked, s: seq<Ranked>, lo: real)
    requires lo <= x.2 && forall k :: 0 <= k < |s| ==> lo <= s[k].2
    ensures forall k :: 0 <= k < |InsertByP(x, s)| ==> lo <= InsertByP(x, s)[k].2
  {
    if s != [] && !(x.2 < s[0].2) {
      InsertByPBound(x, s[1..], lo);
    }
  }

  /** Insertion into a sorted list keeps it sorted. */
  lemma {:induction false} InsertByPSorted(x: Ranked, s: seq<Ranked>)
    requires SortedByP(s)
    ensures SortedByP(InsertByP(x, s))
  {
    if s != [] && !(x.2 < s[0].2) {
      var rest := InsertByP(x, s[1..]);
      InsertByPSorted(x, s[1..]);
      InsertByPBound(x, s[1..], s[0].2);
      var r := [s[0]] + rest;
      forall a, b | 0 <= a < b < |r| ensures r[a].2 <= r[b].2 {
        assert r[b] == rest[b - 1];
        if a > 0 {
          assert r[a] == rest[a - 1];
        }
      }
    }
  }

  /** The entries whose p-value is v, in list order. */
  function WithP(s: seq<Ranked>, v: real): seq<Ranked>
  {
    if s == [] then [] else (if s[0].2 == v then [s[0]] else []) + WithP(s[1..], v)
  }

  lemma {:induction false} WithPAppend(a: seq<Ranked>, b: seq<Ranked>, v: real)
    ensures WithP(a + b, v) == WithP(a, v) + WithP(b, v)
  {
    if a == [] {
      assert a + b == b;
    } else {
      var head := if a[0].2 == v then [a[0]] else [];
      calc {
        WithP(a + b, v);
        { assert (a + b)[0] == a[0] && (a + b)[1..] == a[1..] + b; }
        head + WithP(a[1..] + b, v);
        { WithPAppend(a[1..], b, v); }
        head + (WithP(a[1..], v) + WithP(b, v));
        (head + WithP(a[1..], v)) + WithP(b, v);
      }
    }
  }

  lemma {:induction false} WithPNone(s: seq<Ranked>, v: real)
    requires forall k :: 0 <= k < |s| ==> s[k].2 != v
    ensures WithP(s, v) == []
  {
    if s != [] {
      WithPNone(s[1..], v);
    }
  }

  /** Insertion into a sorted list puts x after every entry that ties with it. */
  lemma {:induction false} InsertByPStable(x: Ranked, s: seq<Ranked>, v: real)
    requires SortedByP(s)
    ensures WithP(InsertByP(x, s), v) == WithP(s, v) + (if x.2 == v then [x] else [])
  {
    var tail := if x.2 == v then [x] else [];
    assert WithP([x], v) == tail by { assert [x][1..] == []; }
    if s == [] {
    } else if x.2 < s[0].2 {
      assert WithP(s, v) + tail == tail + WithP(s, v) by {
        if x.2 == v {
          WithPNone(s, v);
        }
      }
      WithPAppend([x], s, v);
    } else {
      var rest := s[1..];
      assert SortedByP(rest) by {
        forall a, b | 0 <= a < b < |rest| ensures rest[a].2 <= rest[b].2 {
          assert rest[a] == s[a + 1] && rest[b] == s[b + 1];
        }
      }
      calc {
        WithP(InsertByP(x, s), v);
        WithP([s[0]] + InsertByP(x, rest), v);
        { WithPAppend([s[0]], InsertByP(x, rest), v); }
        WithP([s[0]], v) + WithP(InsertByP(x, rest), v);
        { InsertByPStable(x, rest, v); }
        WithP([s[0]], v) + (WithP(rest, v) + tail);
        (WithP([s[0]], v) + WithP(rest, v)) + tail;
        { WithPAppend([s[0]], rest, v); assert s == [s[0]] + rest; }
        WithP(s, v) + tail;
      }
    }
  }

  /**
   * The sort is stable: the entries with any one p-value keep their relative
   * order, as Python's stable `sorted` keeps them in the ranking of the
   * candidate pairs that `bitget_example` prints (main.py:47-51).
   */
  lemma {:induction false} SortByPStable(s: seq<Ranked>, v: real)
    ensures WithP(SortByP(s), v) == WithP(s, v)
  {
    if s != [] {
      var init := s[..|s| - 1];
      var last := s[|s| - 1];
      calc {
        WithP(SortByP(s), v);
        { InsertByPStable(last, SortByP(init), v); }
        WithP(SortByP(init), v) + (if last.2 == v then [last] else []);
        { SortByPStable(init, v); }
        WithP(init, v) + (if last.2 == v then [last] else []);
        { assert [last][1..] == []; }
        WithP(init, v) + WithP([last], v);
        { WithPAppend(init, [last], v); assert s == init + [last]; }
        WithP(s, v);
      }
    }
  }
}
