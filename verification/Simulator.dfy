/**
 The trade simulator: one strategy, one account, at most one open position.

 `TickStep` and `CloseStep` describe what one call does to the whole state, including a call that
 ends in a rejected trade record; the class below carries the state in mutable fields and is proved
 to move exactly along these steps.
 */
module Simulator {
  import opened Base
  import opened Strategy
  import opened Evaluator
  import opened Report

  datatype OpenPosition = OpenPosition(side: Side, entryPrice: real, size: real, entryBarIndex: nat,
                                       takeProfitLevel: Option<real>, stopLossLevel: Option<real>)

  /** The trading rules of a run; the money it starts with is a separate argument. */
  datatype SimConfig = SimConfig(spec: StrategySpec, slippageBps: nat, feeBps: nat, minNotional: Option<real>)

  datatype SimState = SimState(equity: real, position: Option<OpenPosition>, trades: seq<BacktestTrade>,
                               curve: seq<EquityPoint>, entryOpenedAtMs: Option<int>, entryFee: real)
  {
    /** The open timestamp is recorded exactly while a position is open. */
    predicate Coherent() {
      position.Some? <==> entryOpenedAtMs.Some?
    }
  }

  datatype Outcome = Outcome(state: SimState, error: Option<TradeError>)

  // ----- fills and fees --------------------------------------------------------------------

  const DUST_SCALE: real := 10000000000.0

  function Rate(bps: nat): real {
    bps as real / 10000.0
  }

  /** Buying fills above the reference, selling below it. */
  function AdjustPrice(cfg: SimConfig, reference: real, side: Side, isEntry: bool): real {
    var delta := reference * Rate(cfg.slippageBps);
    if side.Long? == isEntry then reference + delta else reference - delta
  }

  function Fee(cfg: SimConfig, notional: real): real {
    notional * Rate(cfg.feeBps)
  }

  function TruncateTowardZero(x: real): int {
    if x >= 0.0 then x.Floor else -((-x).Floor)
  }

  /** Ten decimals, rounded toward zero, leave nothing. */
  predicate IsDust(size: real) {
    TruncateTowardZero(size * DUST_SCALE) == 0
  }

  lemma DustThreshold(size: real)
    ensures IsDust(size) <==> Abs(size) * DUST_SCALE < 1.0
  {}

  function InstantForBar(i: int): int {
    1_700_000_000_000 + i * 60_000
  }

  // ----- entry -----------------------------------------------------------------------------

  datatype EntryPlan = Skip | Enter(position: OpenPosition, fee: real)

  function FillPrice(cfg: SimConfig, candle: Candle): real {
    AdjustPrice(cfg, candle.close, cfg.spec.entry.side, true)
  }

  function EntrySize(cfg: SimConfig, equity: real, fill: real): real
    requires fill > 0.0
  {
    (equity * cfg.spec.sizePct) / fill
  }

  /** Too small to represent, or below the venue's minimum. */
  predicate TooSmall(cfg: SimConfig, size: real, fill: real) {
    IsDust(size) || (cfg.minNotional.Some? && size * fill < cfg.minNotional.value)
  }

  function Level(price: real, pct: Option<real>, up: bool): Option<real> {
    if pct.None? then None
    else Some(price * (if up then 1.0 + pct.value else 1.0 - pct.value))
  }

  function PlanEntry(cfg: SimConfig, equity: real, candle: Candle, barIndex: nat): EntryPlan {
    var side := cfg.spec.entry.side;
    var fill := FillPrice(cfg, candle);
    if fill <= 0.0 then Skip
    else
      var size := EntrySize(cfg, equity, fill);
      if TooSmall(cfg, size, fill) then Skip
      else Enter(OpenPosition(side, fill, size, barIndex,
                              Level(fill, cfg.spec.exit.takeProfitPct, side.Long?),
                              Level(fill, cfg.spec.exit.stopLossPct, side.Short?)),
                 Fee(cfg, size * fill))
  }

  function OpenState(cfg: SimConfig, s: SimState, candle: Candle, barIndex: nat): SimState {
    match PlanEntry(cfg, s.equity, candle, barIndex)
    case Skip => s
    case Enter(position, fee) =>
      s.(equity := s.equity - fee, position := Some(position),
         entryOpenedAtMs := Some(InstantForBar(barIndex)), entryFee := fee)
  }

  // ----- exit ------------------------------------------------------------------------------

  datatype ExitPlan = Hold | AtLevel(level: real) | AtMarket

  predicate Inside(level: Option<real>, candle: Candle) {
    level.Some? && candle.low <= level.value <= candle.high
  }

  /** Levels inside the bar first; on a collision the stop wins for LONG, the target for SHORT. */
  function PlanExit(pos: OpenPosition, candle: Candle, exitSignal: Option<bool>): ExitPlan {
    var tp, sl := Inside(pos.takeProfitLevel, candle), Inside(pos.stopLossLevel, candle);
    if tp && sl then AtLevel(if pos.side.Long? then pos.stopLossLevel.value else pos.takeProfitLevel.value)
    else if sl then AtLevel(pos.stopLossLevel.value)
    else if tp then AtLevel(pos.takeProfitLevel.value)
    else if exitSignal == Some(true) then AtMarket
    else Hold
  }

  /**
   With both levels inside the bar a position always leaves at the lower one: the least favourable
   of the two for LONG, the most favourable for SHORT.
   */
  lemma CollisionTakesLower(cfg: SimConfig, equity: real, candle: Candle, bar: nat, later: Candle, exit: Option<bool>)
    requires equity > 0.0 && PlanEntry(cfg, equity, candle, bar).Enter?
    requires var pos := PlanEntry(cfg, equity, candle, bar).position;
             Inside(pos.takeProfitLevel, later) && Inside(pos.stopLossLevel, later)
    ensures var pos := PlanEntry(cfg, equity, candle, bar).position;
            var tp, sl := pos.takeProfitLevel.value, pos.stopLossLevel.value;
            && tp != sl && PlanExit(pos, later, exit) == AtLevel(Min(tp, sl))
            && (pos.side.Long? ==> Gross(pos, Min(tp, sl)) < 0.0 < Gross(pos, Max(tp, sl)))
            && (pos.side.Short? ==> Gross(pos, Max(tp, sl)) < 0.0 < Gross(pos, Min(tp, sl)))
  {
    hide PlanEntry, Gross;
    var pos := PlanEntry(cfg, equity, candle, bar).position;
    var tp, sl := pos.takeProfitLevel.value, pos.stopLossLevel.value;
    EntryLevels(cfg, equity, candle, bar);
    GrossSign(pos, tp);
    GrossSign(pos, sl);
  }

  /** An entry has a positive price and size, and its levels lie on the two sides of its price. */
  lemma EntryLevels(cfg: SimConfig, equity: real, candle: Candle, bar: nat)
    requires equity > 0.0 && PlanEntry(cfg, equity, candle, bar).Enter?
    ensures var pos := PlanEntry(cfg, equity, candle, bar).position;
            && pos.size > 0.0 && pos.entryPrice > 0.0
            && (pos.takeProfitLevel.Some? ==>
                  if pos.side.Long? then pos.takeProfitLevel.value > pos.entryPrice
                  else pos.takeProfitLevel.value < pos.entryPrice)
            && (pos.stopLossLevel.Some? ==>
                  if pos.side.Long? then pos.stopLossLevel.value < pos.entryPrice
                  else pos.stopLossLevel.value > pos.entryPrice)
  {
    hide TooSmall, FillPrice, Fee, Level;
    var fill, exit, side := FillPrice(cfg, candle), cfg.spec.exit, cfg.spec.entry.side;
    SizeIsPositive(equity, cfg.spec.sizePct, fill);
    LevelBeyond(fill, exit.takeProfitPct, side.Long?);
    LevelBeyond(fill, exit.stopLossPct, side.Short?);
  }

  lemma GrossSign(pos: OpenPosition, x: real)
    requires pos.size > 0.0
    ensures Gross(pos, x) > 0.0 <==> if pos.side.Long? then x > pos.entryPrice else x < pos.entryPrice
    ensures Gross(pos, x) < 0.0 <==> if pos.side.Long? then x < pos.entryPrice else x > pos.entryPrice
  {
    SignOfProduct(x - pos.entryPrice, pos.size);
    SignOfProduct(pos.entryPrice - x, pos.size);
  }

  lemma LevelBeyond(price: real, pct: Option<real>, up: bool)
    requires price > 0.0 && (pct.Some? ==> pct.value > 0.0)
    ensures Level(price, pct, up).Some? <==> pct.Some?
    ensures pct.Some? ==> if up then Level(price, pct, up).value > price else Level(price, pct, up).value < price
  {
    if pct.Some? { assert price * pct.value > 0.0; }
  }

  lemma SizeIsPositive(equity: real, share: real, fill: real)
    requires equity > 0.0 && share > 0.0 && fill > 0.0
    ensures (equity * share) / fill > 0.0
  {
    assert equity * share > 0.0;
  }

  lemma SignOfProduct(a: real, b: real)
    requires b > 0.0
    ensures (a > 0.0 <==> a * b > 0.0) && (a < 0.0 <==> a * b < 0.0)
  {}

  function MarketExit(cfg: SimConfig, pos: OpenPosition, candle: Candle): real {
    AdjustPrice(cfg, candle.close, pos.side, false)
  }

  function Gross(pos: OpenPosition, price: real): real {
    if pos.side.Long? then (price - pos.entryPrice) * pos.size else (pos.entryPrice - price) * pos.size
  }

  /** The record of closing at `exitPrice`: pnl is gross minus both fees. */
  function TradeOf(cfg: SimConfig, s: SimState, exitPrice: real, barIndex: nat): BacktestTrade
    requires s.position.Some? && s.Coherent()
  {
    var pos := s.position.value;
    BacktestTrade(s.entryOpenedAtMs.value, InstantForBar(barIndex), pos.side, pos.entryPrice, exitPrice, pos.size,
                  Gross(pos, exitPrice) - s.entryFee - Fee(cfg, pos.size * exitPrice))
  }

  /** Cash after a close; the entry fee was debited at the entry. */
  function EquityAfterClose(cfg: SimConfig, s: SimState, exitPrice: real): real
    requires s.position.Some?
  {
    var pos := s.position.value;
    s.equity + (Gross(pos, exitPrice) - Fee(cfg, pos.size * exitPrice))
  }

  function Settle(cfg: SimConfig, s: SimState, exitPrice: real, barIndex: nat): SimState
    requires s.position.Some? && s.Coherent()
  {
    SimState(EquityAfterClose(cfg, s, exitPrice), None, s.trades + [TradeOf(cfg, s, exitPrice, barIndex)],
             s.curve, None, 0.0)
  }

  /** Cash moves before the record is built, so a rejected record leaves the position in place. */
  function CloseStep(cfg: SimConfig, s: SimState, exitPrice: real, barIndex: nat): Outcome
    requires s.position.Some? && s.Coherent()
  {
    var defect := TradeDefect(TradeOf(cfg, s, exitPrice, barIndex));
    if defect.Some? then Outcome(s.(equity := EquityAfterClose(cfg, s, exitPrice)), defect)
    else Outcome(Settle(cfg, s, exitPrice, barIndex), None)
  }

  function ExitPriceOf(cfg: SimConfig, pos: OpenPosition, candle: Candle, plan: ExitPlan): real
    requires !plan.Hold?
  {
    if plan.AtLevel? then plan.level else MarketExit(cfg, pos, candle)
  }

  // ----- one bar ---------------------------------------------------------------------------

  function MarkToMarket(s: SimState, close: real): real {
    if s.position.None? then s.equity else s.equity + Gross(s.position.value, close)
  }

  function Marked(s: SimState, candle: Candle, barIndex: nat): SimState {
    s.(curve := s.curve + [EquityPoint(InstantForBar(barIndex), MarkToMarket(s, candle.close))])
  }

  function ActStep(cfg: SimConfig, s: SimState, candle: Candle, signal: SignalTick): Outcome
    requires s.Coherent()
  {
    if s.position.None? then
      Outcome(if signal.entry == Some(true) then OpenState(cfg, s, candle, signal.barIndex) else s, None)
    else
      var plan := PlanExit(s.position.value, candle, signal.exit);
      if plan.Hold? then Outcome(s, None)
      else CloseStep(cfg, s, ExitPriceOf(cfg, s.position.value, candle, plan), signal.barIndex)
  }

  /** At most one action, then the bar's equity point; a rejected trade stops before the point. */
  function TickStep(cfg: SimConfig, s: SimState, candle: Candle, signal: SignalTick): (o: Outcome)
    requires s.Coherent()
    ensures o.state.Coherent()
  {
    var o := ActStep(cfg, s, candle, signal);
    if o.error.Some? then o else Outcome(Marked(o.state, candle, signal.barIndex), None)
  }

  function Initial(equity: real): SimState {
    SimState(equity, None, [], [], None, 0.0)
  }

  function LastPointReplaced(curve: seq<EquityPoint>, equity: real): seq<EquityPoint> {
    if curve == [] then curve else curve[|curve| - 1 := curve[|curve| - 1].(equity := equity)]
  }

  // ----- the object ------------------------------------------------------------------------

  class TradeSimulator {
    const config: SimConfig
    var equity: real
    var position: Option<OpenPosition>
    var trades: seq<BacktestTrade>
    var equityCurve: seq<EquityPoint>
    var entryOpenedAtMs: Option<int>
    var entryFee: real

    function State(): SimState
      reads this
    {
      SimState(equity, position, trades, equityCurve, entryOpenedAtMs, entryFee)
    }

    constructor (config: SimConfig, initialEquity: real)
      ensures this.config == config && State() == Initial(initialEquity)
    {
      this.config := config;
      equity, position, trades, equityCurve := initialEquity, None, [], [];
      entryOpenedAtMs, entryFee := None, 0.0;
    }

    method Tick(candle: Candle, signal: SignalTick) returns (error: Option<TradeError>)
      requires State().Coherent()
      modifies this
      ensures Outcome(State(), error) == TickStep(config, old(State()), candle, signal)
    {
      error := None;
      if position.None? && signal.entry == Some(true) {
        Open(candle, signal.barIndex);
      } else if position.Some? {
        error := MaybeClose(candle, signal);
        if error.Some? { return; }
      }
      var mark := equity;
      if position.Some? {
        mark := equity + Gross(position.value, candle.close);
      }
      equityCurve := equityCurve + [EquityPoint(InstantForBar(signal.barIndex), mark)];
    }

    method Open(candle: Candle, barIndex: nat)
      requires State().Coherent() && position.None?
      modifies this
      ensures State() == OpenState(config, old(State()), candle, barIndex)
    {
      hide IsDust;
      var side := config.spec.entry.side;
      var fill := AdjustPrice(config, candle.close, side, true);
      if fill <= 0.0 { return; }
      var size := EntrySize(config, equity, fill);
      var notional := size * fill;
      if IsDust(size) { return; }
      if config.minNotional.Some? && notional < config.minNotional.value { return; }
      var fee := Fee(config, notional);
      equity := equity - fee;
      entryFee := fee;
      var tp := Level(fill, config.spec.exit.takeProfitPct, side.Long?);
      var sl := Level(fill, config.spec.exit.stopLossPct, side.Short?);
      position := Some(OpenPosition(side, fill, size, barIndex, tp, sl));
      entryOpenedAtMs := Some(InstantForBar(barIndex));
    }

    method MaybeClose(candle: Candle, signal: SignalTick) returns (error: Option<TradeError>)
      requires State().Coherent() && position.Some?
      modifies this
      ensures Outcome(State(), error) == ActStep(config, old(State()), candle, signal)
    {
      var pos := position.value;
      var tp, sl := Inside(pos.takeProfitLevel, candle), Inside(pos.stopLossLevel, candle);
      error := None;
      if tp && sl {
        if pos.side.Long? {
          error := Close(pos.stopLossLevel.value, signal.barIndex);
        } else {
          error := Close(pos.takeProfitLevel.value, signal.barIndex);
        }
      } else if sl {
        error := Close(pos.stopLossLevel.value, signal.barIndex);
      } else if tp {
        error := Close(pos.takeProfitLevel.value, signal.barIndex);
      } else if signal.exit == Some(true) {
        error := Close(MarketExit(config, pos, candle), signal.barIndex);
      }
    }

    method Close(exitPrice: real, barIndex: nat) returns (error: Option<TradeError>)
      requires State().Coherent() && position.Some?
      modifies this
      ensures Outcome(State(), error) == CloseStep(config, old(State()), exitPrice, barIndex)
    {
      hide Gross, TradeDefect, Rate;
      ghost var before := State();
      var pos := position.value;
      var exitFee := Fee(config, pos.size * exitPrice);
      var gross := Gross(pos, exitPrice);
      var pnl := gross - entryFee - exitFee;
      equity := equity + (gross - exitFee);
      var trade := BacktestTrade(entryOpenedAtMs.value, InstantForBar(barIndex), pos.side,
                                 pos.entryPrice, exitPrice, pos.size, pnl);
      assert equity == EquityAfterClose(config, before, exitPrice);
      assert trade == TradeOf(config, before, exitPrice, barIndex);
      hide EquityAfterClose, TradeOf;
      error := TradeDefect(trade);
      if error.Some? { return; }
      trades := trades + [trade];
      position, entryOpenedAtMs, entryFee := None, None, 0.0;
    }

    /** Flush a still-open position at the end of the series. */
    method CloseOpenPosition(candle: Candle, barIndex: nat) returns (error: Option<TradeError>)
      requires State().Coherent()
      modifies this
      ensures old(position).None? ==> State() == old(State()) && error == None
      ensures old(position).Some? ==>
                Outcome(State(), error) ==
                CloseStep(config, old(State()), MarketExit(config, old(position).value, candle), barIndex)
    {
      if position.None? { return None; }
      error := Close(MarketExit(config, position.value, candle), barIndex);
    }

    method ReplaceLastEquityPoint(value: real)
      modifies this`equityCurve
      ensures equityCurve == LastPointReplaced(old(equityCurve), value)
    {
      if equityCurve == [] { return; }
      var last := equityCurve[|equityCurve| - 1];
      equityCurve := equityCurve[|equityCurve| - 1 := EquityPoint(last.observedAtMs, value)];
    }
  }
}
