/** The backtest engine: indicators, signals, simulator and report, and exactly when a report comes out. */
module Engine {
  import opened Base
  import opened Strategy
  import opened Indicators
  import opened Evaluator
  import opened Report
  import opened Simulator
  import opened Runs
  import opened Accounting

  datatype EngineError =
    | NoCandles | SingleCandle | BadIndicator
    | BadTrade(trade: TradeError) | BadReport(report: ReportError)

  function FeedOf(spec: StrategySpec, candles: seq<Candle>): Feed {
    RawFeed(candles, seq(|candles|, i requires 0 <= i < |candles| => SignalAt(spec, candles, i)))
  }

  predicate AllConstructible(spec: StrategySpec) {
    forall k | 0 <= k < |AllRefs(spec)| :: Constructible(AllRefs(spec)[k])
  }

  function ReportOf(initial: real, s: SimState, n: nat): BacktestReport {
    BacktestReport(InstantForBar(0), InstantForBar(n - 1), initial, s.equity, s.trades, s.curve)
  }

  function EngineResult(cfg: SimConfig, initial: real, candles: seq<Candle>): Result<BacktestReport, EngineError> {
    if |candles| == 0 then Err(NoCandles)
    else if |candles| < 2 then Err(SingleCandle)
    else if !AllConstructible(cfg.spec) then Err(BadIndicator)
    else
      var o := RunToEnd(cfg, initial, FeedOf(cfg.spec, candles));
      if o.error.Some? then Err(BadTrade(o.error.value))
      else
        var report := ReportOf(initial, o.state, |candles|);
        var defect := ReportDefect(report);
        if defect.Some? then Err(BadReport(defect.value)) else Ok(report)
  }

  lemma {:induction false} ErrorSticks(cfg: SimConfig, initial: real, feed: Feed, j: nat, k: nat)
    requires j <= k <= |feed.candles| && RunTicks(cfg, initial, feed, j).error.Some?
    ensures RunTicks(cfg, initial, feed, k) == RunTicks(cfg, initial, feed, j)
  {
    if j < k { ErrorSticks(cfg, initial, feed, j, k - 1); }
  }

  /** The bar loop: the simulator moves along the signals until a record is rejected. */
  method RunBars(cfg: SimConfig, initial: real, candles: seq<Candle>, columns: Columns)
    returns (simulator: TradeSimulator, error: Option<TradeError>)
    requires columns == ReferenceColumns(cfg.spec, candles)
    ensures fresh(simulator) && simulator.config == cfg
    ensures var o := RunTicks(cfg, initial, FeedOf(cfg.spec, candles), |candles|);
            if error.Some? then o.error == error else o == Outcome(simulator.State(), None)
  {
    hide TickStep, Tick;
    var n := |candles|;
    ghost var feed := FeedOf(cfg.spec, candles);
    simulator := new TradeSimulator(cfg, initial);
    for i := 0 to n
      invariant fresh(simulator) && simulator.config == cfg
      invariant RunTicks(cfg, initial, feed, i) == Outcome(simulator.State(), None)
    {
      ReferenceReadable(cfg.spec, candles, i);
      var signal := Tick(cfg.spec, columns, i);
      assert signal == feed.signals[i];
      error := simulator.Tick(candles[i], signal);
      if error.Some? {
        ErrorSticks(cfg, initial, feed, i + 1, n);
        return;
      }
    }
    error := None;
  }

  /** The engine's imperative run computes the result above. */
  method Run(cfg: SimConfig, initial: real, candles: seq<Candle>) returns (r: Result<BacktestReport, EngineError>)
    ensures r == EngineResult(cfg, initial, candles)
  {
    hide RunTicks, CloseStep, ReportDefect, FeedOf;
    if |candles| == 0 { return Err(NoCandles); }
    if |candles| < 2 { return Err(SingleCandle); }
    var computed := ComputeAll(cfg.spec, candles);
    if computed.Err? { return Err(BadIndicator); }
    FeedLength(cfg.spec, candles);
    var n := |candles|;
    var simulator, error := RunBars(cfg, initial, candles, computed.value);
    if error.Some? { return Err(BadTrade(error.value)); }
    if simulator.position.Some? {
      error := simulator.CloseOpenPosition(candles[n - 1], n - 1);
      if error.Some? { return Err(BadTrade(error.value)); }
      simulator.ReplaceLastEquityPoint(simulator.equity);
    }
    var report := BacktestReport(InstantForBar(0), InstantForBar(n - 1), initial,
                                 simulator.equity, simulator.trades, simulator.equityCurve);
    var defect := ReportDefect(report);
    if defect.Some? { return Err(BadReport(defect.value)); }
    return Ok(report);
  }

  lemma FeedLength(spec: StrategySpec, candles: seq<Candle>)
    ensures FeedOf(spec, candles).candles == candles
  {}

  lemma PrefixAgrees(a: seq<Candle>, b: seq<Candle>, i: nat, k: nat)
    requires i <= k <= |a| && k <= |b| && a[..k] == b[..k]
    ensures a[..i] == b[..i]
  {}

  // ----- no look-ahead ---------------------------------------------------------------------

  /**
   Two series that agree on their first k bars give the same indicator values and signals on those
   bars, and the same position, cash, trades and equity points after them, however the series go on.
   */
  lemma NoLookAhead(cfg: SimConfig, initial: real, a: seq<Candle>, b: seq<Candle>, k: nat)
    requires k <= |a| && k <= |b| && a[..k] == b[..k]
    ensures forall ref: IndicatorRef, i | 0 <= i < k :: ValueAt(ref, a, i) == ValueAt(ref, b, i)
    ensures forall i | 0 <= i < k :: SignalAt(cfg.spec, a, i) == SignalAt(cfg.spec, b, i)
    ensures RunTicks(cfg, initial, FeedOf(cfg.spec, a), k) == RunTicks(cfg, initial, FeedOf(cfg.spec, b), k)
  {
    hide ValueAt, SignalAt, RunTicks;
    forall ref: IndicatorRef, i | 0 <= i < k ensures ValueAt(ref, a, i) == ValueAt(ref, b, i) {
      PrefixAgrees(a, b, i + 1, k);
      ValueLocal(ref, a, b, i);
    }
    forall i | 0 <= i < k ensures SignalAt(cfg.spec, a, i) == SignalAt(cfg.spec, b, i) {
      PrefixAgrees(a, b, i + 1, k);
      SignalLocal(cfg.spec, a, b, i);
    }
    var fa, fb := FeedOf(cfg.spec, a), FeedOf(cfg.spec, b);
    assert fa.signals[..k] == fb.signals[..k];
    TicksLocal(cfg, initial, fa, fb, k);
  }

  // ----- which records are acceptable ------------------------------------------------------

  function GrossOf(t: BacktestTrade): real {
    PriceMove(t) * t.size
  }

  /** Entry fee plus exit fee of a recorded trade. */
  function CostOf(cfg: SimConfig, t: BacktestTrade): real {
    (t.size * t.entryPrice) * Rate(cfg.feeBps) + (t.size * t.exitPrice) * Rate(cfg.feeBps)
  }

  /** The price moved the right way, but by less than the two fees. */
  predicate CostlyWinner(cfg: SimConfig, t: BacktestTrade) {
    0.0 < GrossOf(t) < CostOf(cfg, t)
  }

  ghost predicate Costed(cfg: SimConfig, trades: seq<BacktestTrade>) {
    forall k | 0 <= k < |trades| ::
      trades[k].entryPrice > 0.0 && trades[k].pnl == GrossOf(trades[k]) - CostOf(cfg, trades[k])
  }

  lemma SettleCosted(cfg: SimConfig, s: SimState, x: real, bar: nat)
    requires s.Coherent() && s.position.Some? && Sized(cfg, s) && Costed(cfg, s.trades)
    ensures Costed(cfg, Settle(cfg, s, x, bar).trades)
  {
    hide Rate, EquityAfterClose;
    var pos, t := s.position.value, TradeOf(cfg, s, x, bar);
    assert t.pnl == GrossOf(t) - CostOf(cfg, t);
    var all := Settle(cfg, s, x, bar).trades;
    forall k | 0 <= k < |all|
      ensures all[k].entryPrice > 0.0 && all[k].pnl == GrossOf(all[k]) - CostOf(cfg, all[k])
    {
      if k < |s.trades| { assert all[k] == s.trades[k]; }
    }
  }

  lemma {:induction false} PathCosted(cfg: SimConfig, initial: real, feed: Feed, k: nat)
    requires k <= |feed.candles|
    ensures Costed(cfg, Path(cfg, initial, feed, k).trades)
  {
    hide Costed, PlanExit, PlanEntry, Settle, Balanced, Sized, ExitPriceOf, MarkToMarket;
    if k == 0 {
      assert Costed(cfg, []) by { NothingCosted(cfg); }
    } else {
      PathCosted(cfg, initial, feed, k - 1);
      PathBooks(cfg, initial, feed, k - 1);
      var s := Path(cfg, initial, feed, k - 1);
      if s.position.Some? {
        var plan := PlanExit(s.position.value, feed.candles[k - 1], feed.signals[k - 1].exit);
        if !plan.Hold? {
          SettleCosted(cfg, s, ExitPriceOf(cfg, s.position.value, feed.candles[k - 1], plan), k - 1);
        }
      }
    }
  }

  lemma NothingCosted(cfg: SimConfig)
    ensures Costed(cfg, [])
  {}

  lemma FinishedCosted(cfg: SimConfig, initial: real, feed: Feed)
    requires feed.candles != []
    ensures Costed(cfg, Finished(cfg, initial, feed).trades)
  {
    hide Path, Costed, Sized, Balanced, TradeOf, EquityAfterClose, MarketExit;
    var n := |feed.candles|;
    PathCosted(cfg, initial, feed, n);
    PathBooks(cfg, initial, feed, n);
    var s := Path(cfg, initial, feed, n);
    if s.position.Some? {
      SettleCosted(cfg, s, MarketExit(cfg, s.position.value, feed.candles[n - 1]), n - 1);
    }
  }

  predicate Acceptable(cfg: SimConfig, t: BacktestTrade) {
    t.size > 0.0 && t.exitPrice > 0.0 && !CostlyWinner(cfg, t)
  }

  /** A path record passes its constructor exactly when it has size, a positive exit, and is no costly winner. */
  lemma DefectMeaning(cfg: SimConfig, t: BacktestTrade)
    requires t.openedAtMs <= t.closedAtMs && t.entryPrice > 0.0 && t.pnl == GrossOf(t) - CostOf(cfg, t)
    ensures TradeDefect(t).None? <==> Acceptable(cfg, t)
  {}

  // ----- the first bar ---------------------------------------------------------------------

  lemma FirstPointScalar(c: real, f: real, r: real, q: real, e: real, close: real)
    requires q > 0.0 && e > 0.0 && close > 0.0 && f >= 0.0 && r >= 0.0
    ensures c - (q * e) * f - (close * r) * q == c <==> f == 0.0 && r == 0.0
  {}

  /** Entering costs something unless both rates are zero, so only a free entry can happen on bar 0. */
  lemma FirstPoint(cfg: SimConfig, initial: real, feed: Feed)
    requires feed.candles != [] && feed.candles[0].close > 0.0 && initial > 0.0
    ensures |Path(cfg, initial, feed, 1).curve| == 1
    ensures Path(cfg, initial, feed, 1).curve[0].equity == initial <==>
            (Path(cfg, initial, feed, 1).position.None? || (cfg.feeBps == 0 && cfg.slippageBps == 0))
  {
    hide Rate, TooSmall;
    var candle, signal := feed.candles[0], feed.signals[0];
    assert Path(cfg, initial, feed, 0) == Initial(initial);
    var s := Act(cfg, Initial(initial), candle, signal);
    assert Path(cfg, initial, feed, 1) == Marked(s, candle, 0);
    if s.position.Some? {
      var pos := s.position.value;
      var r, f := Rate(cfg.slippageBps), Rate(cfg.feeBps);
      RateRange(cfg.slippageBps); RateRange(cfg.feeBps);
      SizeIsPositive(initial, cfg.spec.sizePct, pos.entryPrice);
      assert pos.size == EntrySize(cfg, initial, FillPrice(cfg, candle));
      FirstPointScalar(initial, f, r, pos.size, pos.entryPrice, candle.close);
      assert Gross(pos, candle.close) == -((candle.close * r) * pos.size) by {
        var d := candle.close * r;
        assert (if pos.side.Long? then candle.close - pos.entryPrice else pos.entryPrice - candle.close) == -d;
        assert (-d) * pos.size == -(d * pos.size);
      }
    }
  }

  // ----- exact acceptance ------------------------------------------------------------------

  lemma DisjointSorted(trades: seq<BacktestTrade>)
    requires Disjoint(trades)
    ensures TradesSorted(trades)
  {}

  lemma FinishedReport(cfg: SimConfig, initial: real, feed: Feed)
    requires |feed.candles| >= 2 && feed.candles[0].close > 0.0 && initial > 0.0
    ensures ReportDefect(ReportOf(initial, Finished(cfg, initial, feed), |feed.candles|)).None? <==>
            (Path(cfg, initial, feed, 1).position.None? || (cfg.feeBps == 0 && cfg.slippageBps == 0))
  {
    hide Path, Finished, Disjoint;
    var n := |feed.candles|;
    var s := Finished(cfg, initial, feed);
    FinishedChronology(cfg, initial, feed);
    DisjointSorted(s.trades);
    FirstPoint(cfg, initial, feed);
    FinishedCurve(cfg, initial, feed, 0);
  }

  lemma FinishedAcceptable(cfg: SimConfig, initial: real, feed: Feed)
    requires feed.candles != []
    ensures Clean(Finished(cfg, initial, feed).trades) <==>
            forall k | 0 <= k < |Finished(cfg, initial, feed).trades| ::
                Acceptable(cfg, Finished(cfg, initial, feed).trades[k])
  {
    hide Finished, Acceptable, TradeDefect, GrossOf, CostOf;
    var trades := Finished(cfg, initial, feed).trades;
    FinishedChronology(cfg, initial, feed);
    FinishedCosted(cfg, initial, feed);
    forall k | 0 <= k < |trades| ensures TradeDefect(trades[k]).None? <==> Acceptable(cfg, trades[k]) {
      DefectMeaning(cfg, trades[k]);
    }
  }

  /** No entry is signalled and sized on the first bar, or entering is free of fee and slippage. */
  predicate QuietFirstBar(cfg: SimConfig, initial: real, candles: seq<Candle>)
    requires candles != []
  {
    || SignalAt(cfg.spec, candles, 0).entry != Some(true)
    || PlanEntry(cfg, initial, candles[0], 0).Skip?
    || (cfg.feeBps == 0 && cfg.slippageBps == 0)
  }

  lemma QuietMeaning(cfg: SimConfig, initial: real, candles: seq<Candle>)
    requires candles != []
    ensures QuietFirstBar(cfg, initial, candles) <==>
            (Path(cfg, initial, FeedOf(cfg.spec, candles), 1).position.None?
                || (cfg.feeBps == 0 && cfg.slippageBps == 0))
  {}

  /**
   A run produces a report exactly when the account starts positive, every trade on the unchecked
   path has a positive size and exit and is no costly winner, and the first bar costs nothing.
   */
  lemma ExactAcceptance(cfg: SimConfig, initial: real, candles: seq<Candle>)
    requires |candles| >= 2 && AllConstructible(cfg.spec) && candles[0].close > 0.0
    ensures EngineResult(cfg, initial, candles).Ok? <==>
            (&& initial > 0.0
             && (forall k | 0 <= k < |Finished(cfg, initial, FeedOf(cfg.spec, candles)).trades| ::
                   Acceptable(cfg, Finished(cfg, initial, FeedOf(cfg.spec, candles)).trades[k]))
             && QuietFirstBar(cfg, initial, candles))
  {
    hide Finished, Acceptable, RunToEnd, Path, QuietFirstBar;
    QuietMeaning(cfg, initial, candles);
    var feed := FeedOf(cfg.spec, candles);
    RunFollowsPath(cfg, initial, feed);
    FinishedAcceptable(cfg, initial, feed);
    if initial > 0.0 { FinishedReport(cfg, initial, feed); }
  }

  /** For an unleveraged long account only the two cost conditions remain. */
  lemma LongAcceptance(cfg: SimConfig, initial: real, candles: seq<Candle>)
    requires |candles| >= 2 && AllConstructible(cfg.spec) && PositivePrices(candles) && Unleveraged(cfg)
             && initial > 0.0
    ensures EngineResult(cfg, initial, candles).Ok? <==>
            (&& (forall k | 0 <= k < |Finished(cfg, initial, FeedOf(cfg.spec, candles)).trades| ::
                   !CostlyWinner(cfg, Finished(cfg, initial, FeedOf(cfg.spec, candles)).trades[k]))
             && QuietFirstBar(cfg, initial, candles))
  {
    hide Finished, CostlyWinner, RunToEnd, Path, QuietFirstBar;
    FinishedSolvent(cfg, initial, FeedOf(cfg.spec, candles));
    ExactAcceptance(cfg, initial, candles);
  }

  /** A report is the finished run's, and passed its constructor. */
  lemma ReportIsFinished(cfg: SimConfig, initial: real, candles: seq<Candle>)
    requires EngineResult(cfg, initial, candles).Ok?
    ensures |candles| >= 2
    ensures var r := EngineResult(cfg, initial, candles).value;
            r == ReportOf(initial, Finished(cfg, initial, FeedOf(cfg.spec, candles)), |candles|)
                && ReportDefect(r).None?
  {
    hide Finished, RunToEnd, ReportDefect;
    RunFollowsPath(cfg, initial, FeedOf(cfg.spec, candles));
  }

  lemma SignOfReturn(r: BacktestReport)
    requires r.initialEquity > 0.0
    ensures TotalReturn(r) > 0.0 <==> r.finalEquity > r.initialEquity
  {
    QuotientOrder(r.finalEquity - r.initialEquity, r.initialEquity, 0.0, 1.0);
    QuotientOrder(0.0, 1.0, r.finalEquity - r.initialEquity, r.initialEquity);
  }

  /** What every report says: order, endpoints, conservation and growth. */
  lemma ReportFacts(cfg: SimConfig, initial: real, candles: seq<Candle>)
    requires EngineResult(cfg, initial, candles).Ok?
    ensures var r := EngineResult(cfg, initial, candles).value;
            && Disjoint(r.trades) && OnePointPerBar(r.equityCurve, |candles|)
            && r.initialEquity == initial > 0.0
            && r.equityCurve[0].equity == r.initialEquity
            && r.equityCurve[|candles| - 1].equity == r.finalEquity
            && r.finalEquity == r.initialEquity + TotalPnl(r.trades)
            && Priced(r.trades)
            && r.finalEquity == r.initialEquity * Growth(cfg, r.trades)
            && (TotalReturn(r) > 0.0 <==> TotalPnl(r.trades) > 0.0)
  {
    hide EngineResult, Finished, Disjoint, Growth, TotalPnl, TradesSorted, CurveSorted, Priced, Path;
    var feed := FeedOf(cfg.spec, candles);
    ReportIsFinished(cfg, initial, candles);
    FinishedChronology(cfg, initial, feed);
    FinalEquity(cfg, initial, feed);
    SignOfReturn(EngineResult(cfg, initial, candles).value);
  }

  /** On a report with a losing trade, the profit factor exceeds one exactly when the return is positive. */
  lemma ProfitFactorMeetsReturn(cfg: SimConfig, initial: real, candles: seq<Candle>)
    requires EngineResult(cfg, initial, candles).Ok?
    requires exists k | 0 <= k < |EngineResult(cfg, initial, candles).value.trades| ::
               EngineResult(cfg, initial, candles).value.trades[k].pnl < 0.0
    ensures var r := EngineResult(cfg, initial, candles).value;
            && GrossLoss(r.trades) > 0.0 && r.initialEquity != 0.0
            && (GrossProfit(r.trades) / GrossLoss(r.trades) > 1.0 <==> TotalReturn(r) > 0.0)
  {
    hide EngineResult, TotalReturn;
    var r := EngineResult(cfg, initial, candles).value;
    ReportFacts(cfg, initial, candles);
    ProfitMinusLoss(r.trades);
    QuotientOrder(GrossProfit(r.trades), GrossLoss(r.trades), 1.0, 1.0);
  }
}
