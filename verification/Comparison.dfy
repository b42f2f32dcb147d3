/** Two runs side by side that differ in the initial equity: when one is the scaled copy of the other. */
module Comparison {
  import opened Base
  import opened Strategy
  import opened Evaluator
  import opened Report
  import opened Simulator
  import opened Runs
  import opened Engine

  /** A flat account with this much equity turns a signalled entry at a positive fill down for its size. */
  predicate RefusedAt(cfg: SimConfig, flat: bool, equity: real, candle: Candle, signal: SignalTick) {
    var fill := FillPrice(cfg, candle);
    flat && signal.entry == Some(true) && fill > 0.0 && TooSmall(cfg, EntrySize(cfg, equity, fill), fill)
  }

  predicate SizeRefused(cfg: SimConfig, initial: real, feed: Feed, k: nat)
    requires k < |feed.candles|
  {
    var s := Path(cfg, initial, feed, k);
    RefusedAt(cfg, s.position.None?, s.equity, feed.candles[k], feed.signals[k])
  }

  // ----- scaling the account ---------------------------------------------------------------

  // The scaled quantities are passed by value: each lemma is arithmetic on its arguments only.

  lemma ScaleEntrySize(c: real, cfg: SimConfig, equity: real, equity': real, fill: real)
    requires fill > 0.0 && equity' == c * equity
    ensures EntrySize(cfg, equity', fill) == c * EntrySize(cfg, equity, fill)
  {}

  lemma ScaleFee(c: real, cfg: SimConfig, q: real, q': real, x: real)
    requires q' == c * q
    ensures Fee(cfg, q' * x) == c * Fee(cfg, q * x)
  {}

  lemma ScaleGross(c: real, pos: OpenPosition, pos': OpenPosition, x: real)
    requires pos'.side == pos.side && pos'.entryPrice == pos.entryPrice && pos'.size == c * pos.size
    ensures Gross(pos', x) == c * Gross(pos, x)
  {}

  /** `s'` is the scaled copy of `s`, field by field. */
  ghost predicate IsScaled(c: real, s: SimState, s': SimState) {
    && s'.equity == c * s.equity && s'.entryFee == c * s.entryFee && s'.entryOpenedAtMs == s.entryOpenedAtMs
    && (s'.position.None? <==> s.position.None?)
    && (s.position.Some? ==> IsScaledPosition(c, s.position.value, s'.position.value))
    && |s'.trades| == |s.trades| && (forall i | 0 <= i < |s.trades| :: IsScaledTrade(c, s.trades[i], s'.trades[i]))
    && |s'.curve| == |s.curve| && (forall i | 0 <= i < |s.curve| :: IsScaledPoint(c, s.curve[i], s'.curve[i]))
  }

  ghost predicate IsScaledPosition(c: real, p: OpenPosition, p': OpenPosition) {
    && p'.size == c * p.size && p'.side == p.side && p'.entryPrice == p.entryPrice
    && p'.entryBarIndex == p.entryBarIndex
    && p'.takeProfitLevel == p.takeProfitLevel && p'.stopLossLevel == p.stopLossLevel
  }

  ghost predicate IsScaledTrade(c: real, t: BacktestTrade, t': BacktestTrade) {
    && t'.size == c * t.size && t'.pnl == c * t.pnl && t'.side == t.side
    && t'.openedAtMs == t.openedAtMs && t'.closedAtMs == t.closedAtMs
    && t'.entryPrice == t.entryPrice && t'.exitPrice == t.exitPrice
  }

  ghost predicate IsScaledPoint(c: real, p: EquityPoint, p': EquityPoint) {
    p'.observedAtMs == p.observedAtMs && p'.equity == c * p.equity
  }

  /** Money after paying `f'` and receiving `g'`, and the pnl net of the entry fee `e'`. */
  lemma ScaleMoney(c: real, m: real, m': real, e: real, e': real, g: real, g': real, f: real, f': real)
    requires m' == c * m && e' == c * e && g' == c * g && f' == c * f
    ensures m' - f' == c * (m - f)
    ensures m' + (g' - f') == c * (m + (g - f)) && g' - e' - f' == c * (g - e - f)
  {}

  lemma ScaleOpen(c: real, cfg: SimConfig, s: SimState, s': SimState, candle: Candle, signal: SignalTick)
    requires IsScaled(c, s, s') && s.position.None? && signal.entry == Some(true)
    requires RefusedAt(cfg, true, s.equity, candle, signal) <==> RefusedAt(cfg, true, s'.equity, candle, signal)
    ensures IsScaled(c, OpenState(cfg, s, candle, signal.barIndex), OpenState(cfg, s', candle, signal.barIndex))
  {
    hide TooSmall, FillPrice, EntrySize, Rate, IsScaledTrade, IsScaledPoint, Level;
    var fill := FillPrice(cfg, candle);
    if fill > 0.0 {
      var q, q' := EntrySize(cfg, s.equity, fill), EntrySize(cfg, s'.equity, fill);
      ScaleEntrySize(c, cfg, s.equity, s'.equity, fill);
      ScaleFee(c, cfg, q, q', fill);
      ScaleMoney(c, s.equity, s'.equity, 0.0, 0.0, 0.0, 0.0, Fee(cfg, q * fill), Fee(cfg, q' * fill));
    }
  }

  lemma ScaleSettle(c: real, cfg: SimConfig, s: SimState, s': SimState, x: real, bar: nat)
    requires IsScaled(c, s, s') && s.Coherent() && s'.Coherent() && s.position.Some?
    ensures IsScaled(c, Settle(cfg, s, x, bar), Settle(cfg, s', x, bar))
  {
    hide Gross, Rate, IsScaledPoint;
    ScaleGross(c, s.position.value, s'.position.value, x);
    ScaleFee(c, cfg, s.position.value.size, s'.position.value.size, x);
    ScaleMoney(c, s.equity, s'.equity, s.entryFee, s'.entryFee,
               Gross(s.position.value, x), Gross(s'.position.value, x),
               Fee(cfg, s.position.value.size * x), Fee(cfg, s'.position.value.size * x));
    assert IsScaledTrade(c, TradeOf(cfg, s, x, bar), TradeOf(cfg, s', x, bar));
  }

  lemma ScaleMark(c: real, s: SimState, s': SimState, candle: Candle, bar: nat)
    requires IsScaled(c, s, s')
    ensures IsScaled(c, Marked(s, candle, bar), Marked(s', candle, bar))
  {}

  lemma ScaleAct(c: real, cfg: SimConfig, s: SimState, s': SimState, candle: Candle, signal: SignalTick)
    requires IsScaled(c, s, s') && s.Coherent() && s'.Coherent()
    requires RefusedAt(cfg, s.position.None?, s.equity, candle, signal) <==>
             RefusedAt(cfg, s.position.None?, s'.equity, candle, signal)
    ensures IsScaled(c, Act(cfg, s, candle, signal), Act(cfg, s', candle, signal))
  {
    hide OpenState, Settle, RefusedAt, IsScaledTrade, IsScaledPoint;
    if s.position.None? {
      if signal.entry == Some(true) { ScaleOpen(c, cfg, s, s', candle, signal); }
    } else {
      var pos, pos' := s.position.value, s'.position.value;
      var plan := PlanExit(pos, candle, signal.exit);
      assert PlanExit(pos', candle, signal.exit) == plan;
      if !plan.Hold? {
        var x := ExitPriceOf(cfg, pos, candle, plan);
        assert ExitPriceOf(cfg, pos', candle, plan) == x;
        ScaleSettle(c, cfg, s, s', x, signal.barIndex);
      }
    }
  }

  /** What the scaled account would hold. */
  function Times(c: real, money: real): real {
    c * money
  }

  /** On bar k, c times the run's own equity is turned down for its size exactly when the equity itself is. */
  predicate RefusedAlike(c: real, cfg: SimConfig, initial: real, feed: Feed, k: nat)
    requires k < |feed.candles|
  {
    var s := Path(cfg, initial, feed, k);
    RefusedAt(cfg, s.position.None?, s.equity, feed.candles[k], feed.signals[k]) <==>
    RefusedAt(cfg, s.position.None?, Times(c, s.equity), feed.candles[k], feed.signals[k])
  }

  /** A condition on the original run alone. */
  ghost predicate SameRefusals(c: real, cfg: SimConfig, initial: real, feed: Feed, n: nat)
    requires n <= |feed.candles|
  {
    forall k | 0 <= k < n :: RefusedAlike(c, cfg, initial, feed, k)
  }

  ghost predicate ScaledUpTo(c: real, cfg: SimConfig, initial: real, feed: Feed, n: nat)
    requires n <= |feed.candles|
  {
    forall k | 0 <= k <= n :: IsScaled(c, Path(cfg, initial, feed, k), Path(cfg, c * initial, feed, k))
  }

  /**
   Up to any bar, the run on c times the money is the scaled run exactly when scaling the original run's
   equity turns down the same entries.
   */
  lemma {:induction false} ScalingExact(c: real, cfg: SimConfig, initial: real, feed: Feed, n: nat)
    requires n <= |feed.candles|
    ensures SameRefusals(c, cfg, initial, feed, n) <==> ScaledUpTo(c, cfg, initial, feed, n)
  {
    hide RefusedAlike, IsScaled, Act, Marked;
    if n == 0 {
      assert IsScaled(c, Path(cfg, initial, feed, 0), Path(cfg, c * initial, feed, 0)) by { ScaleInitial(c, initial); }
    } else {
      ScalingExact(c, cfg, initial, feed, n - 1);
      if SameRefusals(c, cfg, initial, feed, n - 1) {
        ScalingStep(c, cfg, initial, feed, n - 1);
      }
    }
  }

  lemma ScaleInitial(c: real, initial: real)
    ensures IsScaled(c, Initial(initial), Initial(c * initial))
  {}

  lemma ScalingStep(c: real, cfg: SimConfig, initial: real, feed: Feed, k: nat)
    requires k < |feed.candles| && IsScaled(c, Path(cfg, initial, feed, k), Path(cfg, c * initial, feed, k))
    ensures RefusedAlike(c, cfg, initial, feed, k) <==>
            IsScaled(c, Path(cfg, initial, feed, k + 1), Path(cfg, c * initial, feed, k + 1))
  {
    hide RefusedAt, Act, Marked;
    var s, s' := Path(cfg, initial, feed, k), Path(cfg, c * initial, feed, k);
    var candle, signal := feed.candles[k], feed.signals[k];
    assert s'.equity == Times(c, s.equity);
    if RefusedAlike(c, cfg, initial, feed, k) {
      ScaleAct(c, cfg, s, s', candle, signal);
      ScaleMark(c, Act(cfg, s, candle, signal), Act(cfg, s', candle, signal), candle, k);
    } else {
      RefusalDecides(cfg, s, s', candle, signal);
    }
  }

  /** Only one of the two accounts opens a position, so they are no longer scaled copies. */
  lemma RefusalDecides(cfg: SimConfig, s: SimState, s': SimState, candle: Candle, signal: SignalTick)
    requires s.Coherent() && s'.Coherent() && (s.position.None? <==> s'.position.None?)
    requires RefusedAt(cfg, s.position.None?, s.equity, candle, signal) <==>
             !RefusedAt(cfg, s.position.None?, s'.equity, candle, signal)
    ensures Marked(Act(cfg, s, candle, signal), candle, signal.barIndex).position.None? <==>
            Marked(Act(cfg, s', candle, signal), candle, signal.barIndex).position.Some?
  {}

  // ----- the scaled report -----------------------------------------------------------------

  ghost predicate IsScaledReport(c: real, r: BacktestReport, r': BacktestReport) {
    && r'.startMs == r.startMs && r'.endMs == r.endMs
    && r'.initialEquity == c * r.initialEquity && r'.finalEquity == c * r.finalEquity
    && |r'.trades| == |r.trades| && (forall i | 0 <= i < |r.trades| :: IsScaledTrade(c, r.trades[i], r'.trades[i]))
    && |r'.equityCurve| == |r.equityCurve|
    && (forall i | 0 <= i < |r.equityCurve| :: IsScaledPoint(c, r.equityCurve[i], r'.equityCurve[i]))
  }

  lemma ScaledClean(c: real, a: seq<BacktestTrade>, b: seq<BacktestTrade>)
    requires c > 0.0 && |a| == |b| && forall i | 0 <= i < |a| :: IsScaledTrade(c, a[i], b[i])
    ensures Clean(a) <==> Clean(b)
  {}

  lemma ScaledFinish(c: real, cfg: SimConfig, initial: real, feed: Feed)
    requires feed.candles != [] && ScaledUpTo(c, cfg, initial, feed, |feed.candles|)
    ensures IsScaled(c, Finished(cfg, initial, feed), Finished(cfg, c * initial, feed))
  {
    hide Path, Settle, IsScaledTrade, IsScaledPoint;
    var n := |feed.candles|;
    var s, s', last := Path(cfg, initial, feed, n), Path(cfg, c * initial, feed, n), feed.candles[n - 1];
    assert IsScaled(c, s, s');
    if s.position.Some? {
      var x := MarketExit(cfg, s.position.value, last);
      assert MarketExit(cfg, s'.position.value, last) == x;
      ScaleSettle(c, cfg, s, s', x, n - 1);
      ReplaceKeepsScale(c, Settle(cfg, s, x, n - 1), Settle(cfg, s', x, n - 1));
    }
  }

  lemma ReplaceKeepsScale(c: real, t: SimState, t': SimState)
    requires IsScaled(c, t, t')
    ensures IsScaled(c, t.(curve := LastPointReplaced(t.curve, t.equity)),
                     t'.(curve := LastPointReplaced(t'.curve, t'.equity)))
  {}

  lemma ScaledReportDefect(c: real, r: BacktestReport, r': BacktestReport)
    requires c > 0.0 && IsScaledReport(c, r, r')
    ensures ReportDefect(r') == ReportDefect(r)
  {}

  /** Under that condition the scaled account is accepted alike and its report is the scaled report. */
  lemma ScaledRun(c: real, cfg: SimConfig, initial: real, candles: seq<Candle>)
    requires c > 0.0 && SameRefusals(c, cfg, initial, FeedOf(cfg.spec, candles), |candles|)
    ensures EngineResult(cfg, c * initial, candles).Ok? <==> EngineResult(cfg, initial, candles).Ok?
    ensures EngineResult(cfg, initial, candles).Ok? ==>
              IsScaledReport(c, EngineResult(cfg, initial, candles).value,
                             EngineResult(cfg, c * initial, candles).value)
  {
    hide Finished, RunToEnd, ReportDefect, Path, ScaledUpTo, SameRefusals, Clean, IsScaledTrade, IsScaledPoint;
    var feed := FeedOf(cfg.spec, candles);
    if |candles| >= 2 {
      ScalingExact(c, cfg, initial, feed, |candles|);
      ScaledFinish(c, cfg, initial, feed);
      RunFollowsPath(cfg, initial, feed);
      RunFollowsPath(cfg, c * initial, feed);
      var s, s' := Finished(cfg, initial, feed), Finished(cfg, c * initial, feed);
      ScaledClean(c, s.trades, s'.trades);
      ScaledReportDefect(c, ReportOf(initial, s, |candles|), ReportOf(c * initial, s', |candles|));
    }
  }

  lemma NotTooSmallWhenEnlarged(c: real, cfg: SimConfig, q: real, q': real, fill: real)
    requires c >= 1.0 && fill > 0.0 && q' == c * q && !TooSmall(cfg, q, fill)
    requires cfg.minNotional.Some? ==> cfg.minNotional.value >= 0.0
    ensures !TooSmall(cfg, q', fill)
  {}

  lemma NotRefusedWhenEnlarged(c: real, cfg: SimConfig, flat: bool, equity: real, candle: Candle, signal: SignalTick)
    requires c >= 1.0 && !RefusedAt(cfg, flat, equity, candle, signal)
    requires cfg.minNotional.Some? ==> cfg.minNotional.value >= 0.0
    ensures !RefusedAt(cfg, flat, Times(c, equity), candle, signal)
  {
    hide TooSmall, EntrySize, FillPrice;
    var fill := FillPrice(cfg, candle);
    if fill > 0.0 && !TooSmall(cfg, EntrySize(cfg, equity, fill), fill) {
      ScaleEntrySize(c, cfg, equity, Times(c, equity), fill);
      NotTooSmallWhenEnlarged(c, cfg, EntrySize(cfg, equity, fill), EntrySize(cfg, Times(c, equity), fill), fill);
    }
  }

  /** More money never triggers a new refusal: a run without refusals scales up by any c >= 1. */
  lemma ScalingUp(c: real, cfg: SimConfig, initial: real, feed: Feed, n: nat)
    requires c >= 1.0 && n <= |feed.candles|
    requires cfg.minNotional.Some? ==> cfg.minNotional.value >= 0.0
    requires forall k | 0 <= k < n :: !SizeRefused(cfg, initial, feed, k)
    ensures ScaledUpTo(c, cfg, initial, feed, n)
  {
    hide Path, RefusedAt, Times, ScaledUpTo;
    forall k | 0 <= k < n ensures RefusedAlike(c, cfg, initial, feed, k) {
      assert !SizeRefused(cfg, initial, feed, k);
      var s := Path(cfg, initial, feed, k);
      NotRefusedWhenEnlarged(c, cfg, s.position.None?, s.equity, feed.candles[k], feed.signals[k]);
    }
    ScalingExact(c, cfg, initial, feed, n);
  }
}
