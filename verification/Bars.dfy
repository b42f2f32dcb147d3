/**
 What one bar does to the account, said in prices, percentages and money: when a position is opened and
 on which terms, when it is left and at which price, and what is written down.
 */
module Bars {
  import opened Base
  import opened Strategy
  import opened Evaluator
  import opened Report
  import opened Simulator
  import opened Runs
  import opened Accounting

  // ----- prices and money ------------------------------------------------------------------

  function BarTime(k: int): int {
    1_700_000_000_000 + 60_000 * k
  }

  /** A reference price, worsened by the slippage for a buyer or a seller. */
  function Slipped(cfg: SimConfig, price: real, buying: bool): real {
    var slip := price * (cfg.slippageBps as real / 10000.0);
    if buying then price + slip else price - slip
  }

  /** The price that lies a share of the entry price above or below it. */
  function Away(entry: real, share: Option<real>, above: bool): Option<real> {
    match share
    case None => None
    case Some(v) => Some(if above then entry * (1.0 + v) else entry * (1.0 - v))
  }

  /** The target of a position entered at this price: above it for LONG, below it for SHORT. */
  function Target(cfg: SimConfig, entry: real): Option<real> {
    Away(entry, cfg.spec.exit.takeProfitPct, cfg.spec.entry.side.Long?)
  }

  /** Its stop, on the other side. */
  function Stop(cfg: SimConfig, entry: real): Option<real> {
    Away(entry, cfg.spec.exit.stopLossPct, cfg.spec.entry.side.Short?)
  }

  /** What a position earns between two prices. */
  function Earned(side: Side, from: real, to: real, size: real): real {
    (if side.Long? then to - from else from - to) * size
  }

  function Charged(cfg: SimConfig, amount: real): real {
    amount * (cfg.feeBps as real / 10000.0)
  }

  /** The account's worth at a price: its cash, and what its position would earn there. */
  function Worth(s: SimState, price: real): real {
    match s.position
    case None => s.equity
    case Some(pos) => s.equity + Earned(pos.side, pos.entryPrice, price, pos.size)
  }

  predicate Touches(candle: Candle, price: Option<real>) {
    price.Some? && candle.low <= price.value <= candle.high
  }

  /** An open position has the strategy's side and levels; its fee is paid, its opening time noted. */
  ghost predicate OnTerms(cfg: SimConfig, s: SimState) {
    match s.position
    case None => s.entryFee == 0.0 && s.entryOpenedAtMs == None
    case Some(pos) =>
      && pos.side == cfg.spec.entry.side && pos.entryPrice > 0.0
      && pos.takeProfitLevel == Target(cfg, pos.entryPrice) && pos.stopLossLevel == Stop(cfg, pos.entryPrice)
      && s.entryOpenedAtMs == Some(BarTime(pos.entryBarIndex))
      && s.entryFee == Charged(cfg, pos.size * pos.entryPrice)
  }

  // ----- entry -----------------------------------------------------------------------------

  function EntryFill(cfg: SimConfig, candle: Candle): real {
    Slipped(cfg, candle.close, cfg.spec.entry.side.Long?)
  }

  /** The share of the equity that an entry spends. */
  function Spent(cfg: SimConfig, equity: real): real {
    equity * cfg.spec.sizePct
  }

  /** A signalled entry that can be filled, is not dust at ten decimals, and meets the venue's minimum. */
  ghost predicate Enters(cfg: SimConfig, spent: real, fill: real, signal: SignalTick) {
    && signal.entry == Some(true) && fill > 0.0 && Abs(spent / fill) * 10000000000.0 >= 1.0
    && (cfg.minNotional.Some? ==> spent >= cfg.minNotional.value)
  }

  /** What an entry leaves: a position bought with the strategy's share of the equity, and its fee paid. */
  ghost predicate Entered(cfg: SimConfig, s: SimState, t: SimState, candle: Candle, k: nat) {
    && t.position.Some? && OnTerms(cfg, t)
    && t.position.value.entryPrice == EntryFill(cfg, candle)
    && t.position.value.size * t.position.value.entryPrice == Spent(cfg, s.equity)
    && t.position.value.entryBarIndex == k
    && t.equity == s.equity - Charged(cfg, Spent(cfg, s.equity))
    && t.trades == s.trades
  }

  lemma SizeOfSpent(cfg: SimConfig, equity: real, fill: real)
    requires fill > 0.0
    ensures EntrySize(cfg, equity, fill) == Spent(cfg, equity) / fill
    ensures EntrySize(cfg, equity, fill) * fill == Spent(cfg, equity)
  {
    EntryNotional(equity * cfg.spec.sizePct, fill);
  }

  lemma EnterExact(cfg: SimConfig, equity: real, candle: Candle, signal: SignalTick)
    ensures signal.entry == Some(true) && PlanEntry(cfg, equity, candle, signal.barIndex).Enter? <==>
            Enters(cfg, Spent(cfg, equity), EntryFill(cfg, candle), signal)
  {
    hide IsDust;
    var fill := FillPrice(cfg, candle);
    assert fill == EntryFill(cfg, candle);
    hide FillPrice, EntryFill, Rate, Spent, EntrySize;
    if fill > 0.0 {
      DustThreshold(EntrySize(cfg, equity, fill));
      SizeOfSpent(cfg, equity, fill);
    }
  }

  lemma LevelIsAway(price: real, share: Option<real>, above: bool)
    ensures Level(price, share, above) == Away(price, share, above)
  {
    if share.Some? { assert Level(price, share, above).value == Away(price, share, above).value; }
  }

  lemma FeeIsCharged(cfg: SimConfig, amount: real)
    ensures Fee(cfg, amount) == Charged(cfg, amount)
  {}

  lemma OpenEnters(cfg: SimConfig, s: SimState, candle: Candle, signal: SignalTick)
    requires s.Coherent() && s.position.None? && Enters(cfg, Spent(cfg, s.equity), EntryFill(cfg, candle), signal)
    ensures Entered(cfg, s, Act(cfg, s, candle, signal), candle, signal.barIndex)
  {
    hide TooSmall, PlanExit, Enters;
    EnterExact(cfg, s.equity, candle, signal);
    var fill := FillPrice(cfg, candle);
    assert fill == EntryFill(cfg, candle);
    var size := EntrySize(cfg, s.equity, fill);
    SizeOfSpent(cfg, s.equity, fill);
    FeeIsCharged(cfg, size * fill);
    LevelIsAway(fill, cfg.spec.exit.takeProfitPct, cfg.spec.entry.side.Long?);
    LevelIsAway(fill, cfg.spec.exit.stopLossPct, cfg.spec.entry.side.Short?);
    hide FillPrice, EntryFill, EntrySize, Fee, Charged, Level, Away;
  }

  // ----- exit ------------------------------------------------------------------------------

  /** A bar takes a position out exactly when it touches a level or the exit is signalled. */
  ghost predicate Leaves(cfg: SimConfig, entry: real, candle: Candle, signal: SignalTick) {
    Touches(candle, Target(cfg, entry)) || Touches(candle, Stop(cfg, entry)) || signal.exit == Some(true)
  }

  /** The exit price: the touched level, the lower one of two, and the slipped close without any. */
  function LeavesAt(cfg: SimConfig, entry: real, candle: Candle): real {
    var target, stop := Target(cfg, entry), Stop(cfg, entry);
    if Touches(candle, target) && Touches(candle, stop) then Min(target.value, stop.value)
    else if Touches(candle, stop) then stop.value
    else if Touches(candle, target) then target.value
    else Slipped(cfg, candle.close, cfg.spec.entry.side.Short?)
  }

  /** The record of a position left at a price on bar k. */
  ghost predicate Records(cfg: SimConfig, pos: OpenPosition, t: BacktestTrade, price: real, k: nat) {
    && t.side == pos.side && t.entryPrice == pos.entryPrice && t.exitPrice == price && t.size == pos.size
    && t.openedAtMs == BarTime(pos.entryBarIndex) && t.closedAtMs == BarTime(k)
    && t.pnl == Earned(pos.side, pos.entryPrice, price, pos.size)
                - Charged(cfg, pos.size * pos.entryPrice) - Charged(cfg, pos.size * price)
  }

  /** Cash after leaving at a price: the earnings come in and the exit fee goes out. */
  function Proceeds(cfg: SimConfig, s: SimState, price: real): real
    requires s.position.Some?
  {
    Worth(s, price) - Charged(cfg, s.position.value.size * price)
  }

  /** What leaving at a price leaves: no position, one more record, and the proceeds. */
  ghost predicate Left(cfg: SimConfig, s: SimState, t: SimState, price: real, k: nat)
    requires s.position.Some?
  {
    && t.position.None? && OnTerms(cfg, t)
    && |t.trades| == |s.trades| + 1 && t.trades[..|s.trades|] == s.trades
    && Records(cfg, s.position.value, t.trades[|s.trades|], price, k)
    && t.equity == Proceeds(cfg, s, price)
  }

  lemma SettleLeaves(cfg: SimConfig, s: SimState, price: real, k: nat)
    requires s.Coherent() && s.position.Some? && OnTerms(cfg, s)
    ensures Left(cfg, s, Settle(cfg, s, price, k), price, k)
  {
    hide Away;
  }

  /** The two levels of a position lie on the two sides of its entry price. */
  lemma LowerLevel(cfg: SimConfig, entry: real)
    requires entry > 0.0 && Target(cfg, entry).Some? && Stop(cfg, entry).Some?
    ensures cfg.spec.entry.side.Long? ==> Stop(cfg, entry).value < entry < Target(cfg, entry).value
    ensures cfg.spec.entry.side.Short? ==> Target(cfg, entry).value < entry < Stop(cfg, entry).value
  {
    var tp, sl := cfg.spec.exit.takeProfitPct.value, cfg.spec.exit.stopLossPct.value;
    assert entry * tp > 0.0 && entry * sl > 0.0;
  }

  lemma ExitExact(cfg: SimConfig, s: SimState, candle: Candle, signal: SignalTick)
    requires s.position.Some? && OnTerms(cfg, s)
    ensures var pos := s.position.value; var plan := PlanExit(pos, candle, signal.exit);
            && (plan.Hold? <==> !Leaves(cfg, pos.entryPrice, candle, signal))
            && (!plan.Hold? ==> ExitPriceOf(cfg, pos, candle, plan) == LeavesAt(cfg, pos.entryPrice, candle))
  {
    var entry := s.position.value.entryPrice;
    assert MarketExit(cfg, s.position.value, candle) == Slipped(cfg, candle.close, cfg.spec.entry.side.Short?);
    if Target(cfg, entry).Some? && Stop(cfg, entry).Some? { LowerLevel(cfg, entry); }
    hide Slipped, MarketExit, Target, Stop;
  }

  // ----- every bar of every run ------------------------------------------------------------

  ghost predicate Idle(s: SimState, t: SimState) {
    && t.equity == s.equity && t.position == s.position && t.trades == s.trades
    && t.entryOpenedAtMs == s.entryOpenedAtMs && t.entryFee == s.entryFee
  }

  /** The one action of a bar: an entry when flat, an exit when not, or nothing. */
  ghost predicate Acted(cfg: SimConfig, s: SimState, t: SimState, candle: Candle, signal: SignalTick) {
    if s.position.None? then
      if Enters(cfg, Spent(cfg, s.equity), EntryFill(cfg, candle), signal) then
        Entered(cfg, s, t, candle, signal.barIndex)
      else Idle(s, t)
    else
      var entry := s.position.value.entryPrice;
      if Leaves(cfg, entry, candle, signal) then Left(cfg, s, t, LeavesAt(cfg, entry, candle), signal.barIndex)
      else Idle(s, t)
  }

  lemma ActMeaning(cfg: SimConfig, s: SimState, candle: Candle, signal: SignalTick)
    requires s.Coherent() && OnTerms(cfg, s)
    ensures Acted(cfg, s, Act(cfg, s, candle, signal), candle, signal)
  {
    hide OnTerms, Enters, Leaves, LeavesAt, PlanExit, ExitPriceOf, Left, Entered, PlanEntry, Settle;
    if s.position.None? {
      EnterExact(cfg, s.equity, candle, signal);
      if Enters(cfg, Spent(cfg, s.equity), EntryFill(cfg, candle), signal) { OpenEnters(cfg, s, candle, signal); }
    } else {
      ExitExact(cfg, s, candle, signal);
      var plan := PlanExit(s.position.value, candle, signal.exit);
      if !plan.Hold? {
        SettleLeaves(cfg, s, ExitPriceOf(cfg, s.position.value, candle, plan), signal.barIndex);
      }
    }
  }

  lemma ActedOnTerms(cfg: SimConfig, s: SimState, t: SimState, candle: Candle, signal: SignalTick)
    requires Acted(cfg, s, t, candle, signal) && OnTerms(cfg, s)
    ensures OnTerms(cfg, t)
  {
    hide Enters, Leaves, LeavesAt, Away, Records, Proceeds;
  }

  lemma ActedIgnoresCurve(cfg: SimConfig, s: SimState, t: SimState, candle: Candle, signal: SignalTick,
                          curve: seq<EquityPoint>)
    requires Acted(cfg, s, t, candle, signal)
    ensures Acted(cfg, s, t.(curve := curve), candle, signal)
  {
    hide Enters, Leaves, LeavesAt, Away, Records, Slipped;
  }

  lemma {:induction false} PathOnTerms(cfg: SimConfig, initial: real, feed: Feed, k: nat)
    requires k <= |feed.candles|
    ensures OnTerms(cfg, Path(cfg, initial, feed, k))
  {
    hide Path, Acted, Worth, Target, Stop, Charged;
    if k == 0 {
      StartsFlat(cfg, initial, feed);
    } else {
      PathOnTerms(cfg, initial, feed, k - 1);
      BarActs(cfg, initial, feed, k - 1);
      ActedOnTerms(cfg, Path(cfg, initial, feed, k - 1), Path(cfg, initial, feed, k),
                   feed.candles[k - 1], feed.signals[k - 1]);
    }
  }

  lemma StartsFlat(cfg: SimConfig, initial: real, feed: Feed)
    ensures OnTerms(cfg, Path(cfg, initial, feed, 0))
  {}

  lemma BarActs(cfg: SimConfig, initial: real, feed: Feed, k: nat)
    requires k < |feed.candles| && OnTerms(cfg, Path(cfg, initial, feed, k))
    ensures var s, t := Path(cfg, initial, feed, k), Path(cfg, initial, feed, k + 1);
            && Acted(cfg, s, t, feed.candles[k], feed.signals[k])
            && t.curve == s.curve + [EquityPoint(BarTime(k), Worth(t, feed.candles[k].close))]
  {
    hide Act, Acted, OnTerms;
    var s, candle, signal := Path(cfg, initial, feed, k), feed.candles[k], feed.signals[k];
    ActMeaning(cfg, s, candle, signal);
    ActGrows(cfg, s, candle, signal);
    ActedIgnoresCurve(cfg, s, Act(cfg, s, candle, signal), candle, signal, Path(cfg, initial, feed, k + 1).curve);
  }

  /**
   On every bar of every run the account does what the prices and the signal call for, and writes one
   equity point: what it is worth at the close.
   */
  lemma BarMeaning(cfg: SimConfig, initial: real, feed: Feed, k: nat)
    requires k < |feed.candles|
    ensures var s, t := Path(cfg, initial, feed, k), Path(cfg, initial, feed, k + 1);
            && OnTerms(cfg, s) && Acted(cfg, s, t, feed.candles[k], feed.signals[k])
            && t.curve == s.curve + [EquityPoint(BarTime(k), Worth(t, feed.candles[k].close))]
  {
    hide Path, Acted, OnTerms, Worth;
    PathOnTerms(cfg, initial, feed, k);
    BarActs(cfg, initial, feed, k);
  }

  /**
   A position open before a bar is gone after it exactly when the bar touches its target or its stop, or
   the exit is signalled.  Its record carries the level when only one is touched, the lower level when
   both are, and the slipped close otherwise.
   */
  lemma LeftExactly(cfg: SimConfig, initial: real, feed: Feed, k: nat, target: real, stop: real, close: real)
    requires k < |feed.candles| && Path(cfg, initial, feed, k).position.Some?
    requires var entry, tp := Path(cfg, initial, feed, k).position.value.entryPrice, cfg.spec.exit.takeProfitPct;
             tp.Some? ==>
               target == if cfg.spec.entry.side.Long? then entry * (1.0 + tp.value) else entry * (1.0 - tp.value)
    requires var entry, sl := Path(cfg, initial, feed, k).position.value.entryPrice, cfg.spec.exit.stopLossPct;
             sl.Some? ==>
               stop == if cfg.spec.entry.side.Long? then entry * (1.0 - sl.value) else entry * (1.0 + sl.value)
    requires var slip := feed.candles[k].close * (cfg.slippageBps as real / 10000.0);
             close == if cfg.spec.entry.side.Long? then feed.candles[k].close - slip else feed.candles[k].close + slip
    ensures var s, t := Path(cfg, initial, feed, k), Path(cfg, initial, feed, k + 1);
            var candle, exit := feed.candles[k], cfg.spec.exit;
            var takes := exit.takeProfitPct.Some? && candle.low <= target <= candle.high;
            var stops := exit.stopLossPct.Some? && candle.low <= stop <= candle.high;
            && (t.position.None? <==> takes || stops || feed.signals[k].exit == Some(true))
            && (t.position.Some? ==> t.position == s.position && t.trades == s.trades && t.equity == s.equity)
            && (t.position.None? ==>
                  && |t.trades| == |s.trades| + 1 && t.trades[..|s.trades|] == s.trades
                  && t.trades[|s.trades|].exitPrice ==
                       if takes && stops then Min(target, stop)
                       else if stops then stop
                       else if takes then target
                       else close)
  {
    hide Path, Worth, Charged, Enters, Entered, Away, Slipped;
    BarMeaning(cfg, initial, feed, k);
    var entry := Path(cfg, initial, feed, k).position.value.entryPrice;
    var exit, long := cfg.spec.exit, cfg.spec.entry.side.Long?;
    if exit.takeProfitPct.Some? { AwayIs(entry, exit.takeProfitPct.value, long, target); }
    if exit.stopLossPct.Some? { AwayIs(entry, exit.stopLossPct.value, !long, stop); }
    AwayNone(entry);
    SlippedIs(cfg, feed.candles[k].close, !long, close);
  }

  lemma AwayIs(entry: real, share: real, above: bool, price: real)
    requires price == if above then entry * (1.0 + share) else entry * (1.0 - share)
    ensures Away(entry, Some(share), above) == Some(price)
  {
    assert Away(entry, Some(share), above).value == price;
  }

  lemma AwayNone(entry: real)
    ensures forall above :: Away(entry, None, above) == None
  {}

  lemma SlippedIs(cfg: SimConfig, reference: real, buying: bool, price: real)
    requires var slip := reference * (cfg.slippageBps as real / 10000.0);
             price == if buying then reference + slip else reference - slip
    ensures Slipped(cfg, reference, buying) == price
  {}

  // ----- the end of a run, and rejected records --------------------------------------------

  /** A position still open after the last bar is left at the slipped close; the last point becomes the cash. */
  lemma FlushMeaning(cfg: SimConfig, initial: real, feed: Feed)
    requires feed.candles != []
    ensures var n := |feed.candles|; var s, t := Path(cfg, initial, feed, n), Finished(cfg, initial, feed);
            && (s.position.None? ==> t == s)
            && (s.position.Some? ==>
                  && Left(cfg, s, t, Slipped(cfg, feed.candles[n - 1].close, cfg.spec.entry.side.Short?), n - 1)
                  && |t.curve| == n == |s.curve| && t.curve[..n - 1] == s.curve[..n - 1]
                  && t.curve[n - 1] == EquityPoint(BarTime(n - 1), t.equity))
  {
    hide Path, Away, Charged, EquityAfterClose, TradeOf;
    var n := |feed.candles|;
    var s, last := Path(cfg, initial, feed, n), feed.candles[n - 1];
    PathOnTerms(cfg, initial, feed, n);
    PathChronology(cfg, initial, feed, n);
    if s.position.Some? {
      var price := MarketExit(cfg, s.position.value, last);
      assert price == Slipped(cfg, last.close, cfg.spec.entry.side.Short?);
      SettleLeaves(cfg, s, price, n - 1);
    }
  }

  /**
   Closing writes the record exactly when its constructor takes it; otherwise the cash has moved all the
   same, while position, records and curve are as before.
   */
  lemma CloseMeaning(cfg: SimConfig, s: SimState, price: real, k: nat)
    requires s.Coherent() && s.position.Some? && OnTerms(cfg, s)
    ensures var o := CloseStep(cfg, s, price, k);
            && o.state.equity == Proceeds(cfg, s, price) && o.state.curve == s.curve
            && (o.error.None? ==> Left(cfg, s, o.state, price, k))
            && (o.error.Some? ==> o.state == s.(equity := Proceeds(cfg, s, price)))
  {
    hide Away, TradeDefect;
    SettleLeaves(cfg, s, price, k);
  }
}
