/**
 Concrete engine runs on which an expectation fails.

 One strategy serves all of them: go all in, long, when the close is above a level, leave when it is
 below, on bars whose four prices are equal, without slippage.
 */
module Counterexamples {
  import opened Base
  import opened Strategy
  import opened Indicators
  import opened Evaluator
  import opened Report
  import opened Simulator
  import opened Runs
  import opened Accounting
  import opened Engine
  import opened Comparison
  import opened Fees

  datatype Trial = Trial(level: real, feeBps: nat, minNotional: real, initial: real, closes: seq<real>)

  const CLOSE: IndicatorRef := RawRef(Sma, 1, ClosePrice)

  function Rules(e: Trial): SimConfig {
    var spec: StrategySpec := RawSpec(EntryRule(Long, [Condition(CLOSE, Gt, Constant(e.level))]),
                                      ExitRule([Condition(CLOSE, Lt, Constant(e.level))], None, None), 1.0);
    SimConfig(spec, 0, e.feeBps, Some(e.minNotional))
  }

  function FlatBar(price: real): Candle {
    Candle(price, price, price, price, 0.0)
  }

  function Bars(e: Trial): (r: seq<Candle>)
    ensures |r| == |e.closes|
  {
    seq(|e.closes|, i requires 0 <= i < |e.closes| => FlatBar(e.closes[i]))
  }

  function Signals(e: Trial): (r: Feed)
    ensures |r.candles| == |e.closes|
  {
    FeedOf(Rules(e).spec, Bars(e))
  }

  function RunOf(e: Trial): Result<BacktestReport, EngineError> {
    EngineResult(Rules(e), e.initial, Bars(e))
  }

  /** The account after k bars. */
  function At(e: Trial, k: nat): SimState
    requires k <= |e.closes|
  {
    Path(Rules(e), e.initial, Signals(e), k)
  }

  // ----- the strategy at work --------------------------------------------------------------

  /** A moving average of one bar is the close. */
  lemma CloseValue(e: Trial, i: nat)
    requires i < |e.closes|
    ensures ValueAt(CLOSE, Bars(e), i) == Some(e.closes[i])
  {
    var prices := Prices(Bars(e), ClosePrice);
    assert prices[i..i + 1] == [e.closes[i]];
    SingleMean(e.closes[i]);
  }

  lemma Fold(b: bool)
    ensures FoldAnd([Some(b)]) == Some(b) && FoldOr([Some(b)]) == Some(b)
  {
    assert [Some(b)][0] == Some(b);
  }

  /** One condition on the close decides each signal. */
  lemma SignalOf(e: Trial, i: nat)
    requires i < |e.closes|
    ensures Signals(e).signals[i] == SignalTick(i, Some(e.closes[i] > e.level), Some(e.closes[i] < e.level))
  {
    hide ValueAt, Bars, FoldAnd, FoldOr, CLOSE;
    var spec, columns := Rules(e).spec, ReferenceColumns(Rules(e).spec, Bars(e));
    CloseValue(e, i);
    ReferenceReadable(spec, Bars(e), i);
    var above, below := e.closes[i] > e.level, e.closes[i] < e.level;
    assert Evaluations(spec.entry.conditions, columns, i) == [Some(above)];
    assert Evaluations(spec.exit.conditions, columns, i) == [Some(below)];
    Fold(above);
    Fold(below);
  }

  lemma Usable(e: Trial)
    ensures AllConstructible(Rules(e).spec)
  {
    OneRef(Rules(e).spec.entry.conditions[0]);
    OneRef(Rules(e).spec.exit.conditions[0]);
  }

  lemma OneRef(c: Condition)
    requires c.rhs.Constant?
    ensures RefsOf([c]) == [c.lhs]
  {
    assert [c][..|[c]| - 1] == [];
  }

  /** A flat account; nothing is signalled. */
  lemma Wait(e: Trial, k: nat)
    requires k < |e.closes| && e.closes[k] <= e.level && At(e, k).position.None?
    ensures At(e, k + 1) == At(e, k).(curve := At(e, k).curve + [EquityPoint(InstantForBar(k), At(e, k).equity)])
    ensures !SizeRefused(Rules(e), e.initial, Signals(e), k)
  {
    hide SignalAt;
    SignalOf(e, k);
  }

  lemma Fill(e: Trial, m: real, x: real, q: real)
    requires x > 0.0 && q * x == m
    ensures FillPrice(Rules(e), FlatBar(x)) == x && EntrySize(Rules(e), m, x) == q
  {
    assert m * 1.0 == m;
    Cancel(m / x, q, x);
  }

  /** Everything goes in at the close x, buying the quantity q. */
  lemma Enter(e: Trial, k: nat, m: real, q: real)
    requires k < |e.closes| && At(e, k).position.None? && At(e, k).equity == m
    requires e.closes[k] > 0.0 && e.closes[k] > e.level && q * e.closes[k] == m && q >= 1.0 && m >= e.minNotional
    ensures var s, t := At(e, k), At(e, k + 1); var fee := m * Rate(e.feeBps);
            && t.position == Some(OpenPosition(Long, e.closes[k], q, k, None, None))
            && t.equity == m - fee && t.entryFee == fee && t.entryOpenedAtMs == Some(InstantForBar(k))
            && t.trades == s.trades && t.curve == s.curve + [EquityPoint(InstantForBar(k), m - fee)]
    ensures !SizeRefused(Rules(e), e.initial, Signals(e), k)
  {
    hide SignalAt, FillPrice, EntrySize, Rate, IsDust;
    SignalOf(e, k);
    Fill(e, m, e.closes[k], q);
    assert !IsDust(q) by { DustThreshold(q); }
  }

  /** Too little money for the minimum notional. */
  lemma Refuse(e: Trial, k: nat, m: real, q: real)
    requires k < |e.closes| && At(e, k).position.None? && At(e, k).equity == m
    requires e.closes[k] > 0.0 && e.closes[k] > e.level && q * e.closes[k] == m && m < e.minNotional
    ensures At(e, k + 1) == At(e, k).(curve := At(e, k).curve + [EquityPoint(InstantForBar(k), m)])
    ensures SizeRefused(Rules(e), e.initial, Signals(e), k)
  {
    hide SignalAt, FillPrice, EntrySize, Rate, IsDust;
    SignalOf(e, k);
    Fill(e, m, e.closes[k], q);
  }

  predicate Holds(s: SimState, p: real, q: real) {
    s.position.Some? && s.position.value == OpenPosition(Long, p, q, s.position.value.entryBarIndex, None, None)
  }

  /** The position stays open and is marked to the close. */
  lemma Keep(e: Trial, k: nat, p: real, q: real)
    requires k < |e.closes| && e.closes[k] >= e.level && Holds(At(e, k), p, q)
    ensures var s := At(e, k);
            At(e, k + 1) == s.(curve := s.curve + [EquityPoint(InstantForBar(k), s.equity + (e.closes[k] - p) * q)])
    ensures !SizeRefused(Rules(e), e.initial, Signals(e), k)
  {
    hide SignalAt, Gross;
    SignalOf(e, k);
    var s := At(e, k);
    assert PlanExit(s.position.value, FlatBar(e.closes[k]), Some(false)).Hold?;
    assert Gross(s.position.value, e.closes[k]) == (e.closes[k] - p) * q by { GrossIs(s.position.value, e.closes[k]); }
  }

  lemma GrossIs(pos: OpenPosition, x: real)
    requires pos.side.Long?
    ensures Gross(pos, x) == (x - pos.entryPrice) * pos.size
  {}

  /** Cash after selling the quantity q, bought at p, for x each. */
  function Proceeds(e: Trial, s: SimState, p: real, q: real, x: real): real {
    s.equity + ((x - p) * q - (q * x) * Rate(e.feeBps))
  }

  lemma Sold(e: Trial, s: SimState, p: real, q: real, x: real, bar: nat)
    requires s.Coherent() && Holds(s, p, q)
    ensures MarketExit(Rules(e), s.position.value, FlatBar(x)) == x
    ensures EquityAfterClose(Rules(e), s, x) == Proceeds(e, s, p, q, x)
    ensures var t := TradeOf(Rules(e), s, x, bar);
            t == BacktestTrade(s.entryOpenedAtMs.value, InstantForBar(bar), Long, p, x, q,
                               (x - p) * q - s.entryFee - (q * x) * Rate(e.feeBps))
  {}

  /** The exit signal sells at the close, recording one trade. */
  lemma Leave(e: Trial, k: nat, p: real, q: real)
    requires k < |e.closes| && e.closes[k] < e.level && Holds(At(e, k), p, q)
    ensures var s, t, x := At(e, k), At(e, k + 1), e.closes[k];
            && t.position.None? && t.entryFee == 0.0 && t.entryOpenedAtMs.None?
            && t.equity == Proceeds(e, s, p, q, x)
            && t.trades == s.trades + [TradeOf(Rules(e), s, x, k)]
            && t.curve == s.curve + [EquityPoint(InstantForBar(k), t.equity)]
    ensures !SizeRefused(Rules(e), e.initial, Signals(e), k)
  {
    hide SignalAt, TradeOf, EquityAfterClose, Gross, MarketExit;
    SignalOf(e, k);
    Sold(e, At(e, k), p, q, e.closes[k], k);
  }

  lemma Start(e: Trial)
    ensures At(e, 0) == Initial(e.initial)
  {}

  /** A run that opens nothing on bar 0 and records only acceptable trades ends in its report. */
  lemma Reported(e: Trial)
    requires |e.closes| >= 2 && e.initial > 0.0 && 0.0 < e.closes[0] <= e.level
    requires Clean(Finished(Rules(e), e.initial, Signals(e)).trades)
    ensures RunOf(e) == Ok(ReportOf(e.initial, Finished(Rules(e), e.initial, Signals(e)), |e.closes|))
  {
    hide Path, Finished, RunToEnd, Clean, ReportDefect;
    assert At(e, 1).position.None? by { Start(e); Wait(e, 0); }
    Usable(e);
    RunFollowsPath(Rules(e), e.initial, Signals(e));
    FinishedReport(Rules(e), e.initial, Signals(e));
  }

  /** An account that ends flat is finished as it is. */
  lemma EndsFlat(e: Trial)
    requires e.closes != [] && At(e, |e.closes|).position.None?
    ensures Finished(Rules(e), e.initial, Signals(e)) == At(e, |e.closes|)
  {}

  /** An account that ends invested is sold at the last close. */
  lemma EndsInvested(e: Trial, p: real, q: real)
    requires e.closes != [] && Holds(At(e, |e.closes|), p, q)
    ensures var n := |e.closes|; var s, t, x := At(e, n), Finished(Rules(e), e.initial, Signals(e)), e.closes[n - 1];
            && t.equity == Proceeds(e, s, p, q, x)
            && t.trades == s.trades + [TradeOf(Rules(e), s, x, n - 1)]
            && t.curve == LastPointReplaced(s.curve, t.equity)
  {
    hide Path, TradeOf, EquityAfterClose, Gross, MarketExit;
    var n := |e.closes|;
    Sold(e, At(e, n), p, q, e.closes[n - 1], n - 1);
  }

  // ----- records and reports the engine rejects --------------------------------------------

  const NO_MINIMUM: real := 0.0

  /** Bought at 2 and flushed at 2.01 with a fee of one percent: the gain of 0.50 is below the fees of 2.005. */
  lemma CostlyWinnerAborts()
    ensures RunOf(Trial(1.5, 100, NO_MINIMUM, 100.0, [1.0, 2.0, 2.01])) == Err(BadTrade(PnlSignContradiction))
  {
    hide Path, Rules, Signals, Clean, FlushStep, RunTicks, AllConstructible;
    var e := Trial(1.5, 100, NO_MINIMUM, 100.0, [1.0, 2.0, 2.01]);
    CostlyFlush();
    TicksFollowPath(Rules(e), e.initial, Signals(e), 3);
    Usable(e);
    assert Signals(e) == FeedOf(Rules(e).spec, Bars(e)) by { SignalsAre(e); }
  }

  lemma SignalsAre(e: Trial)
    ensures Signals(e) == FeedOf(Rules(e).spec, Bars(e))
  {}

  lemma CostlyFlush()
    ensures var e := Trial(1.5, 100, NO_MINIMUM, 100.0, [1.0, 2.0, 2.01]);
            Clean(At(e, 3).trades) && FlushStep(Rules(e), At(e, 3), Bars(e)[2], 2).error == Some(PnlSignContradiction)
  {
    hide Path, TradeOf, Rate, Rules, Signals, Clean, FlushStep, MarketExit;
    var e := Trial(1.5, 100, NO_MINIMUM, 100.0, [1.0, 2.0, 2.01]);
    PercentRate();
    Start(e);
    Wait(e, 0);
    Enter(e, 1, 100.0, 50.0);
    Keep(e, 2, 2.0, 50.0);
    NoTradesYet(e, 3);
    Sold(e, At(e, 3), 2.0, 50.0, 2.01, 2);
    FlushDefect(Rules(e), At(e, 3), FlatBar(2.01), 2);
  }

  lemma PercentRate()
    ensures Rate(100) == 0.01
  {}

  lemma NoTradesYet(e: Trial, k: nat)
    requires k <= |e.closes| && At(e, k).trades == []
    ensures Clean(At(e, k).trades)
  {}

  lemma FlushDefect(cfg: SimConfig, s: SimState, candle: Candle, bar: nat)
    requires s.Coherent() && s.position.Some?
    ensures FlushStep(cfg, s, candle, bar).error ==
            TradeDefect(TradeOf(cfg, s, MarketExit(cfg, s.position.value, candle), bar))
  {}

  /** Bought on bar 0 for a fee of 0.05: the first equity point is 99.95, not 100. */
  lemma FirstBarEntryAborts()
    ensures RunOf(Trial(1.5, 5, NO_MINIMUM, 100.0, [2.0, 2.0])) == Err(BadReport(FirstPointMismatch))
  {
    hide Path, Finished, RunToEnd, Rules, Clean, TradesSorted, CurveSorted, SignalAt, AllConstructible;
    var e := Trial(1.5, 5, NO_MINIMUM, 100.0, [2.0, 2.0]);
    FirstBarEntry();
    RunFollowsPath(Rules(e), e.initial, Signals(e));
    FinishedChronology(Rules(e), e.initial, Signals(e));
    DisjointSorted(Finished(Rules(e), e.initial, Signals(e)).trades);
    PointsSorted(Finished(Rules(e), e.initial, Signals(e)).curve, 2);
    Usable(e);
  }

  lemma PointsSorted(curve: seq<EquityPoint>, n: nat)
    requires OnePointPerBar(curve, n)
    ensures CurveSorted(curve)
  {}

  lemma FirstBarEntry()
    ensures var e := Trial(1.5, 5, NO_MINIMUM, 100.0, [2.0, 2.0]); var s := Finished(Rules(e), e.initial, Signals(e));
            Clean(s.trades) && |s.curve| == 2 && s.curve[0].equity == 99.95
  {
    hide Path, TradeOf, Finished, Rate, Rules, Signals, Clean;
    var e := Trial(1.5, 5, NO_MINIMUM, 100.0, [2.0, 2.0]);
    assert Rate(5) == 0.0005 by { BasisPoints(); }
    Start(e);
    Enter(e, 0, 100.0, 50.0);
    Keep(e, 1, 2.0, 50.0);
    EndsInvested(e, 2.0, 50.0);
    NoTradesYet(e, 2);
    RecordIsClean(e, 2, 2.0, 50.0, 2.0, 1);
  }

  lemma BasisPoints()
    ensures Rate(5) == 0.0005
  {}

  // ----- scaling and fees ------------------------------------------------------------------

  /** In at 2 and out at 1, with everything, at most twice. */
  function Swings(feeBps: nat, initial: real, closes: seq<real>): Trial {
    Trial(1.5, feeBps, 50.0, initial, closes)
  }

  lemma FreeRate()
    ensures Rate(0) == 0.0
  {}

  /** A quarter of the money is below the minimum notional, sits the loss out and keeps everything. */
  lemma SmallAccountSitsOut()
    ensures var big, small := Swings(0, 100.0, [1.0, 2.0, 1.0]), Swings(0, 25.0, [1.0, 2.0, 1.0]);
            && !ScaledUpTo(0.25, Rules(big), 100.0, Signals(big), 3)
            && RunOf(big).Ok? && RunOf(big).value.finalEquity == 50.0
            && RunOf(small).Ok? && RunOf(small).value.finalEquity == 25.0
  {
    hide Path, TradeOf, Clean, Finished, Rate, SizeRefused, RunOf, Signals, Rules;
    var big, small := Swings(0, 100.0, [1.0, 2.0, 1.0]), Swings(0, 25.0, [1.0, 2.0, 1.0]);
    FreeRate();
    Start(small);
    Wait(small, 0);
    Refuse(small, 1, 25.0, 12.5);
    Wait(small, 2);
    EndsFlat(small);
    NoTradesYet(small, 3);
    Reported(small);
    Start(big);
    Wait(big, 0);
    Enter(big, 1, 100.0, 50.0);
    ScalingBreaks(0.25, big, 1, 100.0, 12.5);
    Leave(big, 2, 2.0, 50.0);
    EndsFlat(big);
    RecordIsClean(big, 2, 2.0, 50.0, 1.0, 2);
    Reported(big);
  }

  /** A loss, and without a fee a gain too, is an acceptable record. */
  lemma RecordIsClean(e: Trial, k: nat, p: real, q: real, x: real, bar: nat)
    requires k <= |e.closes| && k <= bar + 1 && Holds(At(e, k), p, q) && Clean(At(e, k).trades)
    requires x > 0.0 && p > 0.0 && q > 0.0 && At(e, k).entryFee >= 0.0
    requires x <= p || (e.feeBps == 0 && At(e, k).entryFee == 0.0)
    ensures Clean(At(e, k).trades + [TradeOf(Rules(e), At(e, k), x, bar)])
  {
    hide Path, TradeOf, Rate, Clean, Rules, Signals;
    Sold(e, At(e, k), p, q, x, bar);
    PathChronology(Rules(e), e.initial, Signals(e), k);
    RateRange(e.feeBps);
    FreeRate();
    Signs(x, p, q, Rate(e.feeBps));
    CleanSnoc(At(e, k).trades, TradeOf(Rules(e), At(e, k), x, bar));
  }

  lemma Signs(x: real, p: real, q: real, f: real)
    requires x > 0.0 && q > 0.0 && f >= 0.0
    ensures (x <= p ==> (x - p) * q <= 0.0) && (x >= p ==> (x - p) * q >= 0.0)
    ensures (q * x) * f >= 0.0 && (f == 0.0 ==> (q * x) * f == 0.0)
  {
    assert q * x > 0.0;
  }

  /** Between the minimum notional and c times less lies the money that only the scaled account is refused. */
  lemma ScalingBreaks(c: real, e: Trial, k: nat, m: real, q: real)
    requires k < |e.closes| && At(e, k).position.None? && At(e, k).equity == m
             && !SizeRefused(Rules(e), e.initial, Signals(e), k)
    requires e.closes[k] > 0.0 && e.closes[k] > e.level && q * e.closes[k] == Times(c, m) && Times(c, m) < e.minNotional
    ensures !ScaledUpTo(c, Rules(e), e.initial, Signals(e), |e.closes|)
  {
    hide Path, SignalAt, FillPrice, EntrySize, IsDust, ScaledUpTo, Times;
    SignalOf(e, k);
    Fill(e, Times(c, m), e.closes[k], q);
    assert !RefusedAlike(c, Rules(e), e.initial, Signals(e), k);
    ScalingExact(c, Rules(e), e.initial, Signals(e), |e.closes|);
  }

  /** The first losing round trip without a fee leaves 50. */
  lemma CheapFirstTrip(closes: seq<real>)
    requires closes == [1.0, 2.0, 1.0, 2.0, 1.0] || closes == [1.0, 2.0, 1.0, 2.0, 3.0]
    ensures var e := Swings(0, 100.0, closes); var s := At(e, 3);
            && s.position.None? && s.equity == 50.0 && s.entryFee == 0.0 && Clean(s.trades)
            && |s.trades| == 1 && s.trades[0].side.Long? && s.trades[0].entryPrice == 2.0
            && s.trades[0].exitPrice == 1.0
            && |s.curve| == 3 && s.curve[0].equity == s.curve[1].equity == 100.0 && s.curve[2].equity == 50.0
  {
    hide Path, TradeOf, Clean, Rate, SizeRefused, Rules, Signals;
    var e := Swings(0, 100.0, closes);
    FreeRate();
    Start(e);
    Wait(e, 0);
    Enter(e, 1, 100.0, 50.0);
    NoTradesYet(e, 2);
    RecordIsClean(e, 2, 2.0, 50.0, 1.0, 2);
    Leave(e, 2, 2.0, 50.0);
    Sold(e, At(e, 2), 2.0, 50.0, 1.0, 2);
  }

  /** Then the second entry puts these 50 in. */
  lemma CheapSwings(closes: seq<real>)
    requires closes == [1.0, 2.0, 1.0, 2.0, 1.0] || closes == [1.0, 2.0, 1.0, 2.0, 3.0]
    ensures var e := Swings(0, 100.0, closes); var s := At(e, 4);
            && Holds(s, 2.0, 25.0) && s.equity == 50.0 && s.entryFee == 0.0 && Clean(s.trades)
            && |s.curve| == 4 && s.curve[0].equity == s.curve[1].equity == 100.0
            && s.curve[2].equity == s.curve[3].equity == 50.0
            && !SizeRefused(Rules(e), 100.0, Signals(e), 3)
  {
    hide Path, TradeOf, Clean, Rate, SizeRefused, Rules, Signals;
    var e := Swings(0, 100.0, closes);
    FreeRate();
    CheapFirstTrip(closes);
    Enter(e, 3, 50.0, 25.0);
  }

  /** Its recorded prices, charged one percent, leave 48.50 of the 100: too little for the second entry. */
  lemma RefusalForeseen(closes: seq<real>)
    requires closes == [1.0, 2.0, 1.0, 2.0, 1.0] || closes == [1.0, 2.0, 1.0, 2.0, 3.0]
    ensures var cheap, dear := Swings(0, 100.0, closes), Swings(100, 100.0, closes);
            && DearerCapital(Rules(cheap), Rules(dear), 100.0, Signals(cheap), 3) == 48.5
            && !RefusesNoMore(Rules(cheap), Rules(dear), 100.0, Signals(cheap), 3)
  {
    hide Path, Rate, SizeRefused, Growth, SignalAt, Factor;
    var cheap, dear := Swings(0, 100.0, closes), Swings(100, 100.0, closes);
    CheapFirstTrip(closes);
    CheapSwings(closes);
    var s := At(cheap, 3);
    OneTripGrowth(Rules(dear), s.trades);
    assert DearerCapital(Rules(cheap), Rules(dear), 100.0, Signals(cheap), 3) == 48.5;
    SignalOf(cheap, 3);
    RefusedFor(dear, 48.5, 2.0, 24.25, Signals(cheap).signals[3]);
  }

  lemma RefusedFor(e: Trial, m: real, x: real, q: real, signal: SignalTick)
    requires x > 0.0 && q * x == m && m < e.minNotional && signal.entry == Some(true)
    ensures RefusedAt(Rules(e), true, m, FlatBar(x), signal)
  {
    hide FillPrice, EntrySize, IsDust;
    Fill(e, m, x, q);
  }

  /** In at 2 and out at 1 for one percent each way: 1 - 0.5 - 0.015. */
  lemma OneTripGrowth(cfg: SimConfig, trades: seq<BacktestTrade>)
    requires |trades| == 1 && trades[0].side.Long? && trades[0].entryPrice == 2.0 && trades[0].exitPrice == 1.0
    requires cfg.spec.sizePct == 1.0 && cfg.feeBps == 100
    ensures Priced(trades) && Growth(cfg, trades) == 0.485
  {
    hide Rate;
    PercentRate();
    assert trades[..0] == [];
    assert Growth(cfg, trades[..0]) == 1.0;
    assert Factor(cfg, trades[0]) == 0.485;
  }

  /** With one percent the first round trip leaves 48.50, too little for the second entry. */
  lemma DearSwings(closes: seq<real>)
    requires closes == [1.0, 2.0, 1.0, 2.0, 1.0] || closes == [1.0, 2.0, 1.0, 2.0, 3.0]
    ensures var e := Swings(100, 100.0, closes); var s := At(e, 4);
            && s.position.None? && s.equity == 48.5 && Clean(s.trades)
            && |s.curve| == 4 && s.curve[0].equity == 100.0 && s.curve[1].equity == 99.0
            && s.curve[2].equity == s.curve[3].equity == 48.5
            && SizeRefused(Rules(e), 100.0, Signals(e), 3)
  {
    hide Path, TradeOf, Clean, Rate, SizeRefused, Rules, Signals;
    var e := Swings(100, 100.0, closes);
    PercentRate();
    Start(e);
    Wait(e, 0);
    Enter(e, 1, 100.0, 50.0);
    NoTradesYet(e, 2);
    RecordIsClean(e, 2, 2.0, 50.0, 1.0, 2);
    Leave(e, 2, 2.0, 50.0);
    Refuse(e, 3, 48.5, 24.25);
  }

  /**
   The dearer account sits out a loss and ends higher, though the engine reports both runs and the cheaper
   one stays solvent.
   */
  lemma RefusalMatters()
    ensures var closes := [1.0, 2.0, 1.0, 2.0, 1.0];
            var cheap, dear := Swings(0, 100.0, closes), Swings(100, 100.0, closes);
            && Dearer(Rules(cheap), Rules(dear)) && Bars(cheap) == Bars(dear)
            && RunOf(cheap).Ok? && NeverNegative(RunOf(cheap).value.equityCurve) && RunOf(dear).Ok?
            && !RefusesNoMore(Rules(cheap), Rules(dear), 100.0, Signals(cheap), 3)
            && RunOf(cheap).value.finalEquity == 25.0 && RunOf(dear).value.finalEquity == 48.5
  {
    hide Path, TradeOf, Clean, Finished, Rate, SizeRefused, RunOf, Signals, RefusesNoMore;
    var closes := [1.0, 2.0, 1.0, 2.0, 1.0];
    var cheap, dear := Swings(0, 100.0, closes), Swings(100, 100.0, closes);
    FreeRate();
    CheapSwings(closes);
    RecordIsClean(cheap, 4, 2.0, 25.0, 1.0, 4);
    Leave(cheap, 4, 2.0, 25.0);
    EndsFlat(cheap);
    Reported(cheap);
    DearSwings(closes);
    Wait(dear, 4);
    EndsFlat(dear);
    Reported(dear);
    SameSignals(cheap, dear);
    RefusalForeseen(closes);
  }

  lemma SameSignals(e: Trial, e': Trial)
    requires e'.closes == e.closes && e'.level == e.level
    ensures Bars(e') == Bars(e) && Signals(e') == Signals(e)
  {
    assert Bars(e') == Bars(e);
  }

  /** Sitting out a gain instead, the dearer account is never higher: on points, refusals alone do not decide. */
  lemma RefusalCanCost()
    ensures var closes := [1.0, 2.0, 1.0, 2.0, 3.0];
            var cheap, dear := Swings(0, 100.0, closes), Swings(100, 100.0, closes);
            && Dearer(Rules(cheap), Rules(dear)) && Bars(cheap) == Bars(dear)
            && RunOf(cheap).Ok? && NeverNegative(RunOf(cheap).value.equityCurve) && RunOf(dear).Ok?
            && !RefusesNoMore(Rules(cheap), Rules(dear), 100.0, Signals(cheap), 3)
            && |RunOf(dear).value.equityCurve| == |RunOf(cheap).value.equityCurve| == 5
            && forall k | 0 <= k < 5 ::
                 RunOf(dear).value.equityCurve[k].equity <= RunOf(cheap).value.equityCurve[k].equity
  {
    hide Path, TradeOf, Clean, Finished, Rate, SizeRefused, RunOf, Signals, RefusesNoMore;
    var closes := [1.0, 2.0, 1.0, 2.0, 3.0];
    var cheap, dear := Swings(0, 100.0, closes), Swings(100, 100.0, closes);
    FreeRate();
    CheapSwings(closes);
    Keep(cheap, 4, 2.0, 25.0);
    EndsInvested(cheap, 2.0, 25.0);
    RecordIsClean(cheap, 5, 2.0, 25.0, 3.0, 4);
    Reported(cheap);
    DearSwings(closes);
    Refuse(dear, 4, 48.5, 48.5 / 3.0);
    EndsFlat(dear);
    Reported(dear);
    SameSignals(cheap, dear);
    RefusalForeseen(closes);
  }

  // ----- both levels inside a bar ----------------------------------------------------------

  /** SHORT, both levels ten percent away, all in. */
  function ShortRules(): SimConfig {
    var spec: StrategySpec := RawSpec(EntryRule(Short, [Condition(CLOSE, Gt, Constant(0.0))]),
                                      ExitRule([], Some(0.1), Some(0.1)), 1.0);
    SimConfig(spec, 0, 0, None)
  }

  /** Sold at 100, a bar from 85 to 115: the exit is the target at 90, not the stop at 110. */
  lemma ShortTakesTarget(exit: Option<bool>)
    ensures var plan := PlanEntry(ShortRules(), 1000.0, FlatBar(100.0), 0);
            var wide := Candle(100.0, 115.0, 85.0, 100.0, 0.0);
            && plan.Enter? && plan.position.size == 10.0
            && plan.position.takeProfitLevel == Some(90.0) && plan.position.stopLossLevel == Some(110.0)
            && PlanExit(plan.position, wide, exit) == AtLevel(90.0)
            && Gross(plan.position, 90.0) == 100.0 && Gross(plan.position, 110.0) == -100.0
  {
    hide IsDust, Rate;
    FreeRate();
    var cfg := ShortRules();
    assert FillPrice(cfg, FlatBar(100.0)) == 100.0;
    assert EntrySize(cfg, 1000.0, 100.0) == 10.0;
    DustThreshold(10.0);
    var pos := PlanEntry(cfg, 1000.0, FlatBar(100.0), 0).position;
    assert pos.takeProfitLevel == Some(90.0) && pos.stopLossLevel == Some(110.0);
  }
}
