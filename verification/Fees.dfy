/**
 Two runs that differ in the fee.  While the dearer account turns down no entry the cheaper one
 takes, it holds the same positions with no more money, and no equity point of its run is higher.
 */
module Fees {
  import opened Base
  import opened Strategy
  import opened Report
  import opened Simulator
  import opened Runs
  import opened Accounting
  import opened Comparison

  /** `hi` is `cfg` with an equal or higher fee. */
  ghost predicate Dearer(cfg: SimConfig, hi: SimConfig) {
    && hi.spec == cfg.spec && hi.slippageBps == cfg.slippageBps && hi.minNotional == cfg.minNotional
    && cfg.feeBps <= hi.feeBps
  }

  ghost predicate SamePrices(p: OpenPosition, q: OpenPosition) {
    && p.side == q.side && p.entryPrice == q.entryPrice
    && p.takeProfitLevel == q.takeProfitLevel && p.stopLossLevel == q.stopLossLevel
  }

  predicate SameDeal(t: BacktestTrade, u: BacktestTrade) {
    t.side == u.side && t.entryPrice == u.entryPrice && t.exitPrice == u.exitPrice
  }

  /** The same trades at the same prices, whatever their sizes. */
  ghost predicate SameDeals(a: seq<BacktestTrade>, b: seq<BacktestTrade>) {
    |a| == |b| && forall i | 0 <= i < |a| :: SameDeal(a[i], b[i])
  }

  /** The account `h` made the same deals as `b`, holds the same position, if any, and has no more capital. */
  ghost predicate Below(h: SimState, b: SimState) {
    && SameDeals(h.trades, b.trades)
    && (h.position.None? <==> b.position.None?)
    && (b.position.Some? ==> SamePrices(h.position.value, b.position.value))
    && Capital(h) <= Capital(b)
  }

  lemma FeeRates(cfg: SimConfig, hi: SimConfig)
    requires Dearer(cfg, hi)
    ensures 0.0 <= Rate(cfg.feeBps) <= Rate(hi.feeBps)
  {}

  lemma SameFill(cfg: SimConfig, hi: SimConfig, candle: Candle)
    requires Dearer(cfg, hi)
    ensures FillPrice(hi, candle) == FillPrice(cfg, candle)
  {}

  lemma SameMarketExit(cfg: SimConfig, hi: SimConfig, p: OpenPosition, q: OpenPosition, candle: Candle)
    requires Dearer(cfg, hi) && p.side == q.side
    ensures MarketExit(hi, p, candle) == MarketExit(cfg, q, candle)
  {}

  // ----- arithmetic ------------------------------------------------------------------------

  lemma Dominate(ch: real, cb: real, fh: real, fb: real)
    requires 0.0 < ch <= cb && fh <= fb && cb * fb >= 0.0
    ensures ch * fh <= cb * fb
  {}

  /** What capital c is worth after the move, with the fee rate charged on the volume w. */
  function Worth(c: real, s: real, f: real, move: real, w: real): real {
    c * Return(s, f, move, w)
  }

  function Return(s: real, f: real, move: real, w: real): real {
    1.0 + s * move - s * f * w
  }

  function Move(long: bool, e: real, x: real): real
    requires e > 0.0
  {
    if long then x / e - 1.0 else 1.0 - x / e
  }

  /** More capital and a lower rate on the same move and the same charged volume w. */
  lemma WorthOrder(ch: real, cb: real, s: real, fh: real, fb: real, move: real, w: real)
    requires 0.0 < ch <= cb && s > 0.0 && fb <= fh && w >= 0.0 && Worth(cb, s, fb, move, w) >= 0.0
    ensures Worth(ch, s, fh, move, w) <= Worth(cb, s, fb, move, w)
  {
    hide Return;
    ReturnOrder(s, fh, fb, move, w);
    Dominate(ch, cb, Return(s, fh, move, w), Return(s, fb, move, w));
  }

  lemma ReturnOrder(s: real, fh: real, fb: real, move: real, w: real)
    requires s > 0.0 && fb <= fh && w >= 0.0
    ensures Return(s, fh, move, w) <= Return(s, fb, move, w)
  {}

  lemma CloseForm(cfg: SimConfig, s: SimState, sz: real, e: real, long: bool, x: real)
    requires s.position.Some? && Sized(cfg, s)
    requires sz == cfg.spec.sizePct && e == s.position.value.entryPrice && long == s.position.value.side.Long?
    ensures EquityAfterClose(cfg, s, x) == Worth(Capital(s), sz, Rate(cfg.feeBps), Move(long, e, x), 1.0 + x / e)
  {}

  lemma MarkForm(cfg: SimConfig, s: SimState, sz: real, e: real, long: bool, x: real)
    requires s.position.Some? && Sized(cfg, s)
    requires sz == cfg.spec.sizePct && e == s.position.value.entryPrice && long == s.position.value.side.Long?
    ensures MarkToMarket(s, x) == Worth(Capital(s), sz, Rate(cfg.feeBps), Move(long, e, x), 1.0)
  {}

  lemma SizeMeansCapital(cfg: SimConfig, s: SimState)
    requires s.position.Some? && Sized(cfg, s) && s.position.value.size > 0.0
    ensures Capital(s) > 0.0
  {}

  lemma CloseOrder(cfg: SimConfig, hi: SimConfig, h: SimState, b: SimState, x: real)
    requires Dearer(cfg, hi) && Below(h, b) && b.position.Some? && Sized(hi, h) && Sized(cfg, b)
    requires h.position.value.size > 0.0 && x > 0.0 && EquityAfterClose(cfg, b, x) >= 0.0
    ensures EquityAfterClose(hi, h, x) <= EquityAfterClose(cfg, b, x)
  {
    hide Rate, EquityAfterClose, Worth, Move;
    var sz, e, long := cfg.spec.sizePct, b.position.value.entryPrice, b.position.value.side.Long?;
    FeeRates(cfg, hi);
    SizeMeansCapital(hi, h);
    CloseForm(hi, h, sz, e, long, x);
    CloseForm(cfg, b, sz, e, long, x);
    QuotientOrder(0.0, 1.0, x, e);
    WorthOrder(Capital(h), Capital(b), sz, Rate(hi.feeBps), Rate(cfg.feeBps), Move(long, e, x), 1.0 + x / e);
  }

  lemma MarkOrder(cfg: SimConfig, hi: SimConfig, h: SimState, b: SimState, x: real)
    requires Dearer(cfg, hi) && Below(h, b) && Sized(hi, h) && Sized(cfg, b)
    requires h.position.Some? ==> h.position.value.size > 0.0
    requires MarkToMarket(b, x) >= 0.0
    ensures MarkToMarket(h, x) <= MarkToMarket(b, x)
  {
    if h.position.Some? {
      hide Rate, MarkToMarket, Worth, Move;
      var sz, e, long := cfg.spec.sizePct, b.position.value.entryPrice, b.position.value.side.Long?;
      FeeRates(cfg, hi);
      SizeMeansCapital(hi, h);
      MarkForm(hi, h, sz, e, long, x);
      MarkForm(cfg, b, sz, e, long, x);
      WorthOrder(Capital(h), Capital(b), sz, Rate(hi.feeBps), Rate(cfg.feeBps), Move(long, e, x), 1.0);
    }
  }

  // ----- one bar ---------------------------------------------------------------------------

  lemma SizeOrder(cfg: SimConfig, eh: real, eb: real, fill: real)
    requires fill > 0.0 && eh <= eb
    ensures EntrySize(cfg, eh, fill) <= EntrySize(cfg, eb, fill)
  {
    MulMono(cfg.spec.sizePct, eh, eb);
    QuotientOrder(eh * cfg.spec.sizePct, fill, eb * cfg.spec.sizePct, fill);
    MulMono(fill, eh * cfg.spec.sizePct, eb * cfg.spec.sizePct);
  }

  lemma BiggerIsFine(cfg: SimConfig, qh: real, qb: real, fill: real)
    requires fill > 0.0 && 0.0 < qh <= qb && !TooSmall(cfg, qh, fill)
    ensures !TooSmall(cfg, qb, fill)
  {}

  lemma SameTooSmall(cfg: SimConfig, hi: SimConfig, q: real, e: real, fill: real)
    requires Dearer(cfg, hi)
    ensures TooSmall(hi, q, fill) == TooSmall(cfg, q, fill)
    ensures fill > 0.0 ==> EntrySize(hi, e, fill) == EntrySize(cfg, e, fill)
  {}

  lemma FlatStep(cfg: SimConfig, hi: SimConfig, h: SimState, b: SimState, candle: Candle, bar: nat)
    requires Dearer(cfg, hi) && Below(h, b) && b.position.None? && Sized(hi, h) && Sized(cfg, b)
    requires var fill := FillPrice(hi, candle); fill > 0.0 ==> !TooSmall(hi, EntrySize(hi, h.equity, fill), fill)
    requires var fill := FillPrice(hi, candle); fill > 0.0 ==> EntrySize(hi, h.equity, fill) > 0.0
    ensures Below(OpenState(hi, h, candle, bar), OpenState(cfg, b, candle, bar))
  {
    hide TooSmall, FillPrice, EntrySize, Fee, Rate;
    SameFill(cfg, hi, candle);
    var fill := FillPrice(cfg, candle);
    if fill > 0.0 {
      var qh, qb := EntrySize(cfg, h.equity, fill), EntrySize(cfg, b.equity, fill);
      SameTooSmall(cfg, hi, EntrySize(hi, h.equity, fill), h.equity, fill);
      SizeOrder(cfg, h.equity, b.equity, fill);
      BiggerIsFine(cfg, qh, qb, fill);
    }
  }

  /** What the dearer account would hold, read from the prices the cheaper run recorded. */
  ghost function DearerCapital(cfg: SimConfig, hi: SimConfig, initial: real, feed: Feed, k: nat): real
    requires k <= |feed.candles|
  {
    PathBooks(cfg, initial, feed, k);
    Times(initial, Growth(hi, Path(cfg, initial, feed, k).trades))
  }

  /**
   On bar k that capital is turned down for its size only if the cheaper account is: a condition on the
   cheaper run alone.
   */
  ghost predicate RefusesNoMore(cfg: SimConfig, hi: SimConfig, initial: real, feed: Feed, k: nat)
    requires k < |feed.candles|
  {
    var flat := Path(cfg, initial, feed, k).position.None?;
    RefusedAt(hi, flat, DearerCapital(cfg, hi, initial, feed, k), feed.candles[k], feed.signals[k]) ==>
    SizeRefused(cfg, initial, feed, k)
  }

  ghost predicate BelowAt(cfg: SimConfig, hi: SimConfig, initial: real, feed: Feed, k: nat)
    requires k <= |feed.candles|
  {
    Below(Path(hi, initial, feed, k), Path(cfg, initial, feed, k))
  }

  ghost predicate NeverNegative(curve: seq<EquityPoint>) {
    forall k | 0 <= k < |curve| :: curve[k].equity >= 0.0
  }

  lemma HeldSizePositive(hi: SimConfig, initial: real, feed: Feed, k: nat)
    requires k <= |feed.candles| && feed.candles != [] && Clean(Finished(hi, initial, feed).trades)
    ensures Path(hi, initial, feed, k).position.Some? ==> Path(hi, initial, feed, k).position.value.size > 0.0
  {
    hide Path, Finished;
    if Path(hi, initial, feed, k).position.Some? {
      var j := PositionIsRecorded(hi, initial, feed, k);
      assert TradeDefect(Finished(hi, initial, feed).trades[j]).None?;
    }
  }

  /** The exit price of a close on bar k is on record, hence positive. */
  lemma ExitOnRecord(hi: SimConfig, initial: real, feed: Feed, k: nat)
    requires k < |feed.candles| && Clean(Finished(hi, initial, feed).trades)
    requires Path(hi, initial, feed, k).position.Some?
    requires !PlanExit(Path(hi, initial, feed, k).position.value, feed.candles[k], feed.signals[k].exit).Hold?
    ensures var pos := Path(hi, initial, feed, k).position.value;
            ExitPriceOf(hi, pos, feed.candles[k], PlanExit(pos, feed.candles[k], feed.signals[k].exit)) > 0.0
  {
    hide PlanExit, EquityAfterClose, ExitPriceOf, Gross, Fee, MarketExit, MarkToMarket;
    var s, n := Path(hi, initial, feed, k), |feed.candles|;
    PathGrows(hi, initial, feed, k + 1, n);
    assert Path(hi, initial, feed, n).trades <= Finished(hi, initial, feed).trades;
    var t := Finished(hi, initial, feed).trades[|s.trades|];
    assert t == Path(hi, initial, feed, k + 1).trades[|s.trades|];
    assert TradeDefect(t).None?;
  }

  lemma CloseBar(cfg: SimConfig, hi: SimConfig, initial: real, feed: Feed, k: nat)
    requires k < |feed.candles| && Dearer(cfg, hi) && Clean(Finished(hi, initial, feed).trades)
    requires NeverNegative(Finished(cfg, initial, feed).curve)
    requires Below(Path(hi, initial, feed, k), Path(cfg, initial, feed, k))
             && Path(cfg, initial, feed, k).position.Some?
    requires !PlanExit(Path(cfg, initial, feed, k).position.value, feed.candles[k], feed.signals[k].exit).Hold?
    ensures Below(Path(hi, initial, feed, k + 1), Path(cfg, initial, feed, k + 1))
  {
    hide Rate, EquityAfterClose, Gross, Fee, Balanced, SizeRefused, Finished, TradeDefect;
    var h, b, candle := Path(hi, initial, feed, k), Path(cfg, initial, feed, k), feed.candles[k];
    var ph, pb := h.position.value, b.position.value;
    var plan := PlanExit(pb, candle, feed.signals[k].exit);
    assert PlanExit(ph, candle, feed.signals[k].exit) == plan;
    SameMarketExit(cfg, hi, ph, pb, candle);
    var x := ExitPriceOf(cfg, pb, candle, plan);
    assert ExitPriceOf(hi, ph, candle, plan) == x;
    HeldSizePositive(hi, initial, feed, k);
    ExitOnRecord(hi, initial, feed, k);
    PathBooks(hi, initial, feed, k);
    PathBooks(cfg, initial, feed, k);
    assert EquityAfterClose(cfg, b, x) >= 0.0 by {
      FinishedCurve(cfg, initial, feed, k);
      PathChronology(cfg, initial, feed, k + 1);
      assert Path(cfg, initial, feed, k + 1).equity == EquityAfterClose(cfg, b, x);
    }
    CloseOrder(cfg, hi, h, b, x);
  }

  lemma {:induction false} SameGrowth(cfg: SimConfig, a: seq<BacktestTrade>, b: seq<BacktestTrade>)
    requires SameDeals(a, b) && Priced(a) && Priced(b)
    ensures Growth(cfg, a) == Growth(cfg, b)
  {
    hide Factor;
    if a != [] {
      var n := |a| - 1;
      SameGrowth(cfg, a[..n], b[..n]);
      assert SameDeal(a[n], b[n]);
      SameFactor(cfg, a[n], b[n]);
    }
  }

  lemma SameFactor(cfg: SimConfig, t: BacktestTrade, u: BacktestTrade)
    requires SameDeal(t, u) && t.entryPrice > 0.0
    ensures Factor(cfg, t) == Factor(cfg, u)
  {}

  /** While the deals agree, the dearer account's refusal is read off the cheaper run. */
  lemma RefusalRead(cfg: SimConfig, hi: SimConfig, initial: real, feed: Feed, k: nat)
    requires k < |feed.candles| && BelowAt(cfg, hi, initial, feed, k)
    ensures SizeRefused(hi, initial, feed, k) <==>
            RefusedAt(hi, Path(cfg, initial, feed, k).position.None?, DearerCapital(cfg, hi, initial, feed, k),
                      feed.candles[k], feed.signals[k])
  {
    hide Path, Growth, TooSmall, EntrySize, FillPrice;
    var h, b := Path(hi, initial, feed, k), Path(cfg, initial, feed, k);
    PathBooks(hi, initial, feed, k);
    PathBooks(cfg, initial, feed, k);
    SameGrowth(hi, h.trades, b.trades);
    assert h.position.None? ==> h.equity == DearerCapital(cfg, hi, initial, feed, k);
  }

  lemma EntryBar(cfg: SimConfig, hi: SimConfig, initial: real, feed: Feed, k: nat)
    requires k < |feed.candles| && Dearer(cfg, hi) && Clean(Finished(hi, initial, feed).trades)
    requires BelowAt(cfg, hi, initial, feed, k) && Path(cfg, initial, feed, k).position.None?
    requires feed.signals[k].entry == Some(true) && RefusesNoMore(cfg, hi, initial, feed, k)
    ensures BelowAt(cfg, hi, initial, feed, k + 1)
  {
    hide TooSmall, FillPrice, EntrySize, Fee, Rate, Balanced, Finished, Clean, DearerCapital, SameDeals;
    var h, b, candle := Path(hi, initial, feed, k), Path(cfg, initial, feed, k), feed.candles[k];
    PathBooks(hi, initial, feed, k);
    PathBooks(cfg, initial, feed, k);
    RefusalRead(cfg, hi, initial, feed, k);
    if SizeRefused(hi, initial, feed, k) {
      RefusedStays(cfg, b, candle, k);
      RefusedStays(hi, h, candle, k);
    } else {
      HeldSizePositive(hi, initial, feed, k + 1);
      assert Path(hi, initial, feed, k + 1).position == OpenState(hi, h, candle, k).position;
      FlatStep(cfg, hi, h, b, candle, k);
    }
  }

  lemma RefusedStays(cfg: SimConfig, s: SimState, candle: Candle, bar: nat)
    requires var fill := FillPrice(cfg, candle); fill > 0.0 && TooSmall(cfg, EntrySize(cfg, s.equity, fill), fill)
    ensures OpenState(cfg, s, candle, bar) == s
  {}

  /** One bar keeps the order of the accounts exactly when the dearer one refuses no more. */
  lemma BarExact(cfg: SimConfig, hi: SimConfig, initial: real, feed: Feed, k: nat)
    requires k < |feed.candles| && Dearer(cfg, hi) && Clean(Finished(hi, initial, feed).trades)
    requires NeverNegative(Finished(cfg, initial, feed).curve) && BelowAt(cfg, hi, initial, feed, k)
    ensures BelowAt(cfg, hi, initial, feed, k + 1) <==> RefusesNoMore(cfg, hi, initial, feed, k)
    ensures BelowAt(cfg, hi, initial, feed, k + 1) ==>
            (SizeRefused(hi, initial, feed, k) <==> SizeRefused(cfg, initial, feed, k))
  {
    hide NeverNegative, Finished, OpenState, Settle, PlanExit, Gross, SizeRefused, DearerCapital, RefusedAt;
    var h, b := Path(hi, initial, feed, k), Path(cfg, initial, feed, k);
    var candle, signal := feed.candles[k], feed.signals[k];
    Refusals(cfg, hi, initial, feed, k);
    RefusalRead(cfg, hi, initial, feed, k);
    if b.position.Some? {
      SamePlan(h.position.value, b.position.value, candle, signal.exit);
      if !PlanExit(b.position.value, candle, signal.exit).Hold? { CloseBar(cfg, hi, initial, feed, k); }
    } else if signal.entry == Some(true) && RefusesNoMore(cfg, hi, initial, feed, k) {
      EntryBar(cfg, hi, initial, feed, k);
    }
  }

  /** A refusal shows: of two accounts that are flat alike, one that refuses alone is the only one flat afterwards. */
  lemma Refusals(cfg: SimConfig, hi: SimConfig, initial: real, feed: Feed, k: nat)
    requires k < |feed.candles| && Dearer(cfg, hi) && BelowAt(cfg, hi, initial, feed, k)
    ensures Path(cfg, initial, feed, k).position.Some? || feed.signals[k].entry != Some(true) ==>
              !SizeRefused(hi, initial, feed, k) && !SizeRefused(cfg, initial, feed, k)
    ensures BelowAt(cfg, hi, initial, feed, k + 1) ==>
            (SizeRefused(hi, initial, feed, k) <==> SizeRefused(cfg, initial, feed, k))
  {
    hide TooSmall, EntrySize, FillPrice, Fee, Capital, SamePrices;
    SameFill(cfg, hi, feed.candles[k]);
  }

  /**
   Given acceptable records of the dearer run and a cheaper run that stays solvent: the dearer account
   is below on every bar exactly when, judged from the cheaper run alone, it turns down no entry that
   the cheaper one takes; and then both turn down the same entries.
   */
  lemma {:induction false} BelowExact(cfg: SimConfig, hi: SimConfig, initial: real, feed: Feed, n: nat)
    requires n <= |feed.candles| && feed.candles != [] && Dearer(cfg, hi)
    requires Clean(Finished(hi, initial, feed).trades) && NeverNegative(Finished(cfg, initial, feed).curve)
    ensures (forall k | 0 <= k < n :: RefusesNoMore(cfg, hi, initial, feed, k)) <==>
            (forall k | 0 <= k <= n :: BelowAt(cfg, hi, initial, feed, k))
    ensures (forall k | 0 <= k <= n :: BelowAt(cfg, hi, initial, feed, k)) ==>
            (forall k | 0 <= k < n :: SizeRefused(hi, initial, feed, k) <==> SizeRefused(cfg, initial, feed, k))
  {
    hide NeverNegative, Clean, Finished, BelowAt, RefusesNoMore, SizeRefused;
    if n == 0 {
      assert BelowAt(cfg, hi, initial, feed, 0) by { StartsBelow(cfg, hi, initial, feed); }
    } else {
      BelowExact(cfg, hi, initial, feed, n - 1);
      if forall k | 0 <= k < n - 1 :: RefusesNoMore(cfg, hi, initial, feed, k) {
        assert BelowAt(cfg, hi, initial, feed, n - 1);
        BarExact(cfg, hi, initial, feed, n - 1);
      }
    }
  }

  lemma StartsBelow(cfg: SimConfig, hi: SimConfig, initial: real, feed: Feed)
    ensures BelowAt(cfg, hi, initial, feed, 0)
  {}

  lemma SamePlan(p: OpenPosition, q: OpenPosition, candle: Candle, exit: Option<bool>)
    requires SamePrices(p, q)
    ensures PlanExit(p, candle, exit) == PlanExit(q, candle, exit)
  {}

  lemma PathPoint(cfg: SimConfig, initial: real, feed: Feed, k: nat)
    requires k < |feed.candles|
    ensures |Path(cfg, initial, feed, k + 1).curve| == k + 1
    ensures Path(cfg, initial, feed, k + 1).curve[k].equity ==
            MarkToMarket(Path(cfg, initial, feed, k + 1), feed.candles[k].close)
  {
    hide Act, Gross;
    PathChronology(cfg, initial, feed, k);
    ActOrdered(cfg, Path(cfg, initial, feed, k), feed.candles[k], feed.signals[k]);
  }

  /**
   No equity point of the dearer run exceeds the cheaper run's point on the same bar, the final one
   included, when the dearer run's records are acceptable, the cheaper run's points never go negative,
   and the dearer account turns down no entry the cheaper one takes.
   */
  lemma FeesNeverHelp(cfg: SimConfig, hi: SimConfig, initial: real, feed: Feed, k: nat)
    requires k < |feed.candles| && Dearer(cfg, hi) && Clean(Finished(hi, initial, feed).trades)
    requires NeverNegative(Finished(cfg, initial, feed).curve)
    requires forall j | 0 <= j < |feed.candles| :: RefusesNoMore(cfg, hi, initial, feed, j)
    ensures |Finished(hi, initial, feed).curve| == |Finished(cfg, initial, feed).curve| == |feed.candles|
    ensures Finished(hi, initial, feed).curve[k].equity <= Finished(cfg, initial, feed).curve[k].equity
  {
    hide Path, Finished, MarkToMarket, RefusesNoMore, Clean, Balanced;
    var n := |feed.candles|;
    FinishedChronology(hi, initial, feed);
    FinishedChronology(cfg, initial, feed);
    BelowExact(cfg, hi, initial, feed, n);
    assert BelowAt(cfg, hi, initial, feed, k + 1);
    if k < n - 1 || Path(cfg, initial, feed, k + 1).position.None? {
      FinishedCurve(cfg, initial, feed, k);
      FinishedCurve(hi, initial, feed, k);
      PathPoint(cfg, initial, feed, k);
      PathPoint(hi, initial, feed, k);
      PathBooks(hi, initial, feed, k + 1);
      PathBooks(cfg, initial, feed, k + 1);
      HeldSizePositive(hi, initial, feed, k + 1);
      MarkOrder(cfg, hi, Path(hi, initial, feed, k + 1), Path(cfg, initial, feed, k + 1), feed.candles[k].close);
    } else {
      FlushOrder(cfg, hi, initial, feed);
    }
  }

  lemma FlushOrder(cfg: SimConfig, hi: SimConfig, initial: real, feed: Feed)
    requires feed.candles != [] && Dearer(cfg, hi) && Clean(Finished(hi, initial, feed).trades)
    requires NeverNegative(Finished(cfg, initial, feed).curve)
    requires var n := |feed.candles|; BelowAt(cfg, hi, initial, feed, n) && Path(cfg, initial, feed, n).position.Some?
    ensures Finished(hi, initial, feed).equity <= Finished(cfg, initial, feed).equity
  {
    hide Path, Balanced, Rate, EquityAfterClose, MarketExit, Gross, Fee;
    var n := |feed.candles|;
    var h, b, last := Path(hi, initial, feed, n), Path(cfg, initial, feed, n), feed.candles[n - 1];
    SameMarketExit(cfg, hi, h.position.value, b.position.value, last);
    var x := MarketExit(cfg, b.position.value, last);
    assert TradeDefect(Finished(hi, initial, feed).trades[|h.trades|]).None?;
    PathBooks(hi, initial, feed, n);
    PathBooks(cfg, initial, feed, n);
    FinishedChronology(cfg, initial, feed);
    CloseOrder(cfg, hi, h, b, x);
  }
}
