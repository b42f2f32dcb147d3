/**
 Money laws along every run: conservation of cash, the product formula for equity, and solvency of
 unleveraged long strategies.
 */
module Accounting {
  import opened Base
  import opened Strategy
  import opened Evaluator
  import opened Report
  import opened Simulator
  import opened Runs

  ghost predicate Priced(trades: seq<BacktestTrade>) {
    forall k | 0 <= k < |trades| :: trades[k].entryPrice > 0.0
  }

  /** What one trade multiplies the account by, read from its recorded prices alone. */
  function Factor(cfg: SimConfig, t: BacktestTrade): real
    requires t.entryPrice > 0.0
  {
    var ratio := t.exitPrice / t.entryPrice;
    var s, f := cfg.spec.sizePct, Rate(cfg.feeBps);
    1.0 + s * (if t.side.Long? then ratio - 1.0 else 1.0 - ratio) - s * f * (1.0 + ratio)
  }

  ghost function Growth(cfg: SimConfig, trades: seq<BacktestTrade>): real
    requires Priced(trades)
  {
    if trades == [] then 1.0
    else Growth(cfg, trades[..|trades| - 1]) * Factor(cfg, trades[|trades| - 1])
  }

  lemma GrowthSnoc(cfg: SimConfig, trades: seq<BacktestTrade>, t: BacktestTrade)
    requires Priced(trades) && t.entryPrice > 0.0
    ensures Priced(trades + [t]) && Growth(cfg, trades + [t]) == Growth(cfg, trades) * Factor(cfg, t)
  {
    hide Factor;
    assert (trades + [t])[..|trades|] == trades;
  }

  /** Equity as it was before the entry fee of the current position was debited. */
  function Capital(s: SimState): real {
    s.equity + s.entryFee
  }

  /** The open position was sized from the capital and its fee is the fee on that size. */
  ghost predicate Sized(cfg: SimConfig, s: SimState) {
    match s.position
    case None => s.entryFee == 0.0
    case Some(pos) =>
      && pos.side == cfg.spec.entry.side
      && pos.entryPrice > 0.0
      && pos.size * pos.entryPrice == Capital(s) * cfg.spec.sizePct
      && s.entryFee == (pos.size * pos.entryPrice) * Rate(cfg.feeBps)
  }

  ghost predicate Balanced(cfg: SimConfig, initial: real, s: SimState) {
    && s.equity == initial + TotalPnl(s.trades) - s.entryFee
    && Priced(s.trades)
    && Capital(s) == initial * Growth(cfg, s.trades)
  }

  ghost predicate Books(cfg: SimConfig, initial: real, s: SimState) {
    Sized(cfg, s) && Balanced(cfg, initial, s)
  }

  lemma Notional(q: real, e: real, g: real, x: real)
    requires e > 0.0 && q * e == g
    ensures q * x == (x / e) * g
  {
    var r := x / e;
    assert x == r * e;
    assert q * (r * e) == r * (q * e) by { Associate(q, r, e); Associate(r, q, e); assert q * r == r * q; }
  }

  lemma Expand(c: real, s: real, u: real, w: real)
    ensures c * (1.0 + s * u - s * w) == c + (c * s) * u - (c * s) * w
  {
    Associate(c, s, u); Associate(c, s, w);
    var a, b := s * u, s * w;
    assert c * (1.0 + a - b) == c + c * a - c * b;
  }

  /** Cash after closing at x, for capital c of which the share s was invested at price e. */
  lemma CloseScalar(c: real, s: real, f: real, q: real, e: real, x: real, long: bool)
    requires e > 0.0 && q * e == c * s
    ensures var gross := if long then (x - e) * q else (e - x) * q;
            var move := if long then x / e - 1.0 else 1.0 - x / e;
            c - (q * e) * f + (gross - (q * x) * f) == c * (1.0 + s * move - s * f * (1.0 + x / e))
  {
    var g, r := c * s, x / e;
    Notional(q, e, g, x);
    var move := if long then r - 1.0 else 1.0 - r;
    assert (x - e) * q == q * x - q * e && (e - x) * q == q * e - q * x;
    assert (if long then (x - e) * q else (e - x) * q) == g * move by {
      assert g * (r - 1.0) == r * g - g && g * (1.0 - r) == g - r * g;
    }
    Expand(c, s, move, f * (1.0 + r));
    Associate(s, f, 1.0 + r);
    assert g * (f * (1.0 + r)) == g * f + (r * g) * f by {
      assert f * (1.0 + r) == f + f * r;
      assert g * (f + f * r) == g * f + g * (f * r);
      assert g * (f * r) == (r * g) * f by {
        Associate(r, g, f);
        Associate(g, f, r);
        assert (g * f) * r == r * (g * f);
      }
    }
  }

  /** The recorded pnl is what a close brings in, less the entry fee already debited. */
  lemma CloseCash(cfg: SimConfig, s: SimState, exitPrice: real, bar: nat)
    requires s.Coherent() && s.position.Some?
    ensures EquityAfterClose(cfg, s, exitPrice) == s.equity + TradeOf(cfg, s, exitPrice, bar).pnl + s.entryFee
  {
    hide Gross, Fee;
  }

  lemma Chain(c: real, i: real, g: real, f: real, e: real)
    requires c == i * g && e == c * f
    ensures e == i * (g * f)
  {
    Associate(i, g, f);
  }

  lemma SettleBooks(cfg: SimConfig, initial: real, s: SimState, exitPrice: real, bar: nat)
    requires s.Coherent() && s.position.Some? && Books(cfg, initial, s)
    ensures Books(cfg, initial, Settle(cfg, s, exitPrice, bar))
  {
    hide Factor, Rate, Gross, Fee, Growth, TotalPnl, EquityAfterClose;
    var t := TradeOf(cfg, s, exitPrice, bar);
    TotalPnlSnoc(s.trades, t);
    GrowthSnoc(cfg, s.trades, t);
    CloseCash(cfg, s, exitPrice, bar);
    SettleFactor(cfg, s, exitPrice, bar);
    Chain(Capital(s), initial, Growth(cfg, s.trades), Factor(cfg, t), EquityAfterClose(cfg, s, exitPrice));
  }

  /** Closing multiplies the capital by the factor of the trade that is recorded. */
  lemma SettleFactor(cfg: SimConfig, s: SimState, exitPrice: real, bar: nat)
    requires s.Coherent() && s.position.Some? && Sized(cfg, s)
    ensures EquityAfterClose(cfg, s, exitPrice) == Capital(s) * Factor(cfg, TradeOf(cfg, s, exitPrice, bar))
  {
    hide Rate;
    var pos := s.position.value;
    CloseScalar(Capital(s), cfg.spec.sizePct, Rate(cfg.feeBps), pos.size, pos.entryPrice, exitPrice, pos.side.Long?);
  }

  lemma OpenBooks(cfg: SimConfig, initial: real, s: SimState, candle: Candle, bar: nat)
    requires s.Coherent() && s.position.None? && Books(cfg, initial, s)
    ensures Books(cfg, initial, OpenState(cfg, s, candle, bar))
  {
    hide TooSmall, FillPrice, Rate;
    var fill := FillPrice(cfg, candle);
    if fill > 0.0 {
      EntryNotional(s.equity * cfg.spec.sizePct, fill);
    }
  }

  lemma MarkKeepsBooks(cfg: SimConfig, initial: real, s: SimState, candle: Candle, bar: nat)
    requires Books(cfg, initial, s)
    ensures Books(cfg, initial, Marked(s, candle, bar))
  {
    hide MarkToMarket, Growth, TotalPnl, Rate;
  }

  lemma ActBooks(cfg: SimConfig, initial: real, s: SimState, candle: Candle, signal: SignalTick)
    requires s.Coherent() && Books(cfg, initial, s)
    ensures Books(cfg, initial, Act(cfg, s, candle, signal))
  {
    hide Books, OpenState, Settle, PlanExit, ExitPriceOf;
    if s.position.None? {
      if signal.entry == Some(true) { OpenBooks(cfg, initial, s, candle, signal.barIndex); }
    } else {
      var plan := PlanExit(s.position.value, candle, signal.exit);
      if !plan.Hold? {
        SettleBooks(cfg, initial, s, ExitPriceOf(cfg, s.position.value, candle, plan), signal.barIndex);
      }
    }
  }

  /**
   After any number of bars: equity is the initial equity plus realised pnl less the entry fee of an
   open position, and capital is the initial equity times the product of the trade factors.
   */
  lemma {:induction false} PathBooks(cfg: SimConfig, initial: real, feed: Feed, k: nat)
    requires k <= |feed.candles|
    ensures Books(cfg, initial, Path(cfg, initial, feed, k))
  {
    hide Books, Act, Marked;
    if k == 0 {
      InitialBooks(cfg, initial);
    } else {
      PathBooks(cfg, initial, feed, k - 1);
      var s, candle := Path(cfg, initial, feed, k - 1), feed.candles[k - 1];
      ActBooks(cfg, initial, s, candle, feed.signals[k - 1]);
      MarkKeepsBooks(cfg, initial, Act(cfg, s, candle, feed.signals[k - 1]), candle, k - 1);
    }
  }

  lemma InitialBooks(cfg: SimConfig, initial: real)
    ensures Books(cfg, initial, Initial(initial))
  {}

  /** Final equity of a finished run: initial plus total pnl, and initial times the trade factors. */
  lemma FinalEquity(cfg: SimConfig, initial: real, feed: Feed)
    requires feed.candles != []
    ensures var s := Finished(cfg, initial, feed);
            && s.equity == initial + TotalPnl(s.trades)
            && Priced(s.trades)
            && s.equity == initial * Growth(cfg, s.trades)
  {
    hide Path, Growth, TradeOf, EquityAfterClose, MarketExit;
    var n := |feed.candles|;
    PathBooks(cfg, initial, feed, n);
    var s := Path(cfg, initial, feed, n);
    if s.position.Some? {
      var x := MarketExit(cfg, s.position.value, feed.candles[n - 1]);
      SettleBooks(cfg, initial, s, x, n - 1);
      assert Finished(cfg, initial, feed).trades == Settle(cfg, s, x, n - 1).trades;
    }
  }

  // ----- solvency --------------------------------------------------------------------------

  /** Long only, fees and slippage below one, and the position plus its fee within the account. */
  ghost predicate Unleveraged(cfg: SimConfig) {
    && cfg.spec.entry.side.Long?
    && cfg.slippageBps < 10_000 && cfg.feeBps < 10_000
    && cfg.spec.sizePct * (1.0 + Rate(cfg.feeBps)) <= 1.0
  }

  ghost predicate PositivePrices(candles: seq<Candle>) {
    forall k | 0 <= k < |candles| :: candles[k].low > 0.0 && candles[k].close > 0.0
  }

  ghost predicate Solvent(s: SimState) {
    && s.equity > 0.0
    && (forall k | 0 <= k < |s.curve| :: s.curve[k].equity > 0.0)
    && (forall k | 0 <= k < |s.trades| ::
          s.trades[k].size > 0.0 && s.trades[k].entryPrice > 0.0 && s.trades[k].exitPrice > 0.0)
    && (s.position.Some? ==> s.position.value.size > 0.0)
  }

  lemma RateRange(bps: nat)
    ensures Rate(bps) >= 0.0 && (bps < 10_000 ==> Rate(bps) < 1.0) && (Rate(bps) == 0.0 <==> bps == 0)
  {}

  lemma Positive(a: real, b: real)
    requires a > 0.0 && b > 0.0
    ensures a * b > 0.0
  {}

  /** What is left of the capital when the invested share is worth q * x after costs. */
  lemma LongWorth(c: real, s: real, f: real, q: real, e: real, x: real)
    requires c > 0.0 && e > 0.0 && q > 0.0 && x > 0.0 && q * e == c * s && 0.0 <= f < 1.0 && s * (1.0 + f) <= 1.0
    ensures c - (q * e) * f + (x - e) * q > 0.0
    ensures c - (q * e) * f + ((x - e) * q - (q * x) * f) > 0.0
    ensures c - (q * e) * f > 0.0
  {
    var g, v := q * e, q * x;
    Positive(q, e); Positive(q, x);
    assert (x - e) * q == v - g;
    assert c - g - g * f >= 0.0 by {
      MulMono(c, s * (1.0 + f), 1.0);
      Associate(c, s, 1.0 + f);
      assert g * (1.0 + f) == g + g * f;
    }
    var a, b := g * f, v * f;
    assert v - b > 0.0 by { Positive(v, 1.0 - f); assert v * (1.0 - f) == v - v * f; }
    assert c - a + (v - g - b) == (c - g - a) + (v - b);
  }

  lemma Haircut(x: real, r: real, cut: real)
    requires x > 0.0 && 0.0 <= r < 1.0 && cut == x * r
    ensures 0.0 <= cut < x
  {
    MulMono(x, 0.0, r);
    assert x * (1.0 - r) > 0.0 by { Positive(x, 1.0 - r); }
  }

  lemma MarketForm(cfg: SimConfig, pos: OpenPosition, candle: Candle) returns (cut: real)
    ensures cut == candle.close * Rate(cfg.slippageBps)
    ensures MarketExit(cfg, pos, candle) == if pos.side.Long? then candle.close - cut else candle.close + cut
  {
    hide Rate;
    cut := candle.close * Rate(cfg.slippageBps);
  }

  lemma MarketPositive(cfg: SimConfig, pos: OpenPosition, candle: Candle)
    requires cfg.slippageBps < 10_000 && candle.close > 0.0
    ensures MarketExit(cfg, pos, candle) > 0.0
  {
    hide Rate, MarketExit;
    RateRange(cfg.slippageBps);
    var cut := MarketForm(cfg, pos, candle);
    Haircut(candle.close, Rate(cfg.slippageBps), cut);
  }

  lemma ExitPositive(cfg: SimConfig, pos: OpenPosition, candle: Candle, exitSignal: Option<bool>)
    requires cfg.slippageBps < 10_000 && candle.low > 0.0 && candle.close > 0.0
    requires !PlanExit(pos, candle, exitSignal).Hold?
    ensures ExitPriceOf(cfg, pos, candle, PlanExit(pos, candle, exitSignal)) > 0.0
  {
    MarketPositive(cfg, pos, candle);
  }

  lemma LongCloseForm(cfg: SimConfig, s: SimState, x: real)
    requires s.position.Some? && Sized(cfg, s) && cfg.spec.entry.side.Long?
    ensures var pos, f := s.position.value, Rate(cfg.feeBps);
            EquityAfterClose(cfg, s, x) ==
            Capital(s) - (pos.size * pos.entryPrice) * f + ((x - pos.entryPrice) * pos.size - (pos.size * x) * f)
  {
    hide Rate;
  }

  lemma SettledEquityPositive(cfg: SimConfig, s: SimState, x: real)
    requires Unleveraged(cfg) && s.position.Some? && Sized(cfg, s) && s.position.value.size > 0.0
    requires x > 0.0 && Capital(s) > 0.0
    ensures EquityAfterClose(cfg, s, x) > 0.0
  {
    hide Rate, EquityAfterClose;
    RateRange(cfg.feeBps);
    var pos := s.position.value;
    LongCloseForm(cfg, s, x);
    LongWorth(Capital(s), cfg.spec.sizePct, Rate(cfg.feeBps), pos.size, pos.entryPrice, x);
  }

  lemma SettleSolvent(cfg: SimConfig, s: SimState, x: real, bar: nat)
    requires Unleveraged(cfg) && s.Coherent() && s.position.Some? && Sized(cfg, s) && Solvent(s) && x > 0.0
    requires Capital(s) > 0.0
    ensures Solvent(Settle(cfg, s, x, bar))
  {
    SettledEquityPositive(cfg, s, x);
    hide Rate, EquityAfterClose, Unleveraged, Gross, Fee;
    var t := Settle(cfg, s, x, bar);
    forall k | 0 <= k < |t.trades|
      ensures t.trades[k].size > 0.0 && t.trades[k].entryPrice > 0.0 && t.trades[k].exitPrice > 0.0
    {
      if k < |s.trades| { assert t.trades[k] == s.trades[k]; }
    }
  }

  lemma CapitalPositive(cfg: SimConfig, s: SimState)
    requires Sized(cfg, s) && Solvent(s)
    ensures Capital(s) > 0.0
  {
    RateRange(cfg.feeBps);
    if s.position.Some? {
      var pos := s.position.value;
      Positive(pos.size, pos.entryPrice);
      MulMono(pos.size * pos.entryPrice, 0.0, Rate(cfg.feeBps));
    }
  }

  lemma EntryNotional(g: real, fill: real)
    requires fill > 0.0
    ensures (g / fill) * fill == g
  {}

  lemma OpenSolvent(cfg: SimConfig, s: SimState, candle: Candle, bar: nat)
    requires Unleveraged(cfg) && s.Coherent() && s.position.None? && Sized(cfg, s) && Solvent(s)
    ensures Solvent(OpenState(cfg, s, candle, bar))
  {
    hide TooSmall, Rate, FillPrice;
    var fill := FillPrice(cfg, candle);
    if fill > 0.0 {
      var size := EntrySize(cfg, s.equity, fill);
      SizeIsPositive(s.equity, cfg.spec.sizePct, fill);
      assert size * fill == s.equity * cfg.spec.sizePct by { EntryNotional(s.equity * cfg.spec.sizePct, fill); }
      RateRange(cfg.feeBps);
      LongWorth(s.equity, cfg.spec.sizePct, Rate(cfg.feeBps), size, fill, fill);
    }
  }

  lemma MarkSolvent(cfg: SimConfig, s: SimState, candle: Candle, bar: nat)
    requires Unleveraged(cfg) && Sized(cfg, s) && Solvent(s) && candle.close > 0.0
    ensures Solvent(Marked(s, candle, bar))
  {
    hide Rate;
    if s.position.Some? {
      var pos := s.position.value;
      CapitalPositive(cfg, s);
      RateRange(cfg.feeBps);
      LongWorth(Capital(s), cfg.spec.sizePct, Rate(cfg.feeBps), pos.size, pos.entryPrice, candle.close);
    }
    var t := Marked(s, candle, bar);
    assert t.curve[|s.curve|].equity > 0.0;
  }

  lemma ActSolvent(cfg: SimConfig, s: SimState, candle: Candle, signal: SignalTick)
    requires Unleveraged(cfg) && s.Coherent() && Sized(cfg, s) && Solvent(s)
    requires candle.low > 0.0 && candle.close > 0.0
    ensures Solvent(Act(cfg, s, candle, signal))
  {
    hide Unleveraged, Solvent, Sized, OpenState, Settle, PlanExit, ExitPriceOf;
    if s.position.None? {
      if signal.entry == Some(true) { OpenSolvent(cfg, s, candle, signal.barIndex); }
    } else {
      var plan := PlanExit(s.position.value, candle, signal.exit);
      if !plan.Hold? {
        assert cfg.slippageBps < 10_000 by { UnleveragedRates(cfg); }
        ExitPositive(cfg, s.position.value, candle, signal.exit);
        CapitalPositive(cfg, s);
        SettleSolvent(cfg, s, ExitPriceOf(cfg, s.position.value, candle, plan), signal.barIndex);
      }
    }
  }

  lemma UnleveragedRates(cfg: SimConfig)
    requires Unleveraged(cfg)
    ensures cfg.slippageBps < 10_000
  {}

  /** On any positive price path, whatever the signals, an unleveraged long account never reaches zero. */
  lemma {:induction false} LongSolvency(cfg: SimConfig, initial: real, feed: Feed, k: nat)
    requires Unleveraged(cfg) && initial > 0.0 && PositivePrices(feed.candles) && k <= |feed.candles|
    ensures Solvent(Path(cfg, initial, feed, k))
  {
    hide Unleveraged, Solvent, Act, Marked, Balanced;
    if k == 0 {
      InitialSolvent(initial);
    } else {
      LongSolvency(cfg, initial, feed, k - 1);
      PathBooks(cfg, initial, feed, k - 1);
      var s, candle, signal := Path(cfg, initial, feed, k - 1), feed.candles[k - 1], feed.signals[k - 1];
      ActSolvent(cfg, s, candle, signal);
      ActBooks(cfg, initial, s, candle, signal);
      MarkSolvent(cfg, Act(cfg, s, candle, signal), candle, k - 1);
    }
  }

  lemma InitialSolvent(initial: real)
    requires initial > 0.0
    ensures Solvent(Initial(initial))
  {}

  lemma FinishedSolvent(cfg: SimConfig, initial: real, feed: Feed)
    requires Unleveraged(cfg) && initial > 0.0 && PositivePrices(feed.candles) && feed.candles != []
    ensures Solvent(Finished(cfg, initial, feed))
  {
    hide Unleveraged, Path, Balanced, TradeOf, EquityAfterClose, MarketExit;
    var n := |feed.candles|;
    var s, last := Path(cfg, initial, feed, n), feed.candles[n - 1];
    LongSolvency(cfg, initial, feed, n);
    if s.position.Some? {
      PathBooks(cfg, initial, feed, n);
      CapitalPositive(cfg, s);
      UnleveragedRates(cfg);
      MarketPositive(cfg, s.position.value, last);
      SettleSolvent(cfg, s, MarketExit(cfg, s.position.value, last), n - 1);
    }
  }
}
