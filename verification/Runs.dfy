/**
 Whole runs of the simulator over a candle series and its signals.

 `Path` follows the account with every trade record kept, whether or not the record's constructor
 would accept it; `RunTicks` and `RunToEnd` stop at the first rejected record, as the program does.
 The two agree exactly while all records are acceptable, so laws proved along `Path` hold for runs.
 */
module Runs {
  import opened Base
  import opened Strategy
  import opened Evaluator
  import opened Report
  import opened Simulator

  datatype RawFeed = RawFeed(candles: seq<Candle>, signals: seq<SignalTick>) {
    predicate Aligned() {
      |candles| == |signals| && forall i | 0 <= i < |signals| :: signals[i].barIndex == i
    }
  }

  /** One signal per candle, numbered from zero. */
  type Feed = f: RawFeed | f.Aligned() witness RawFeed([], [])

  // ----- the unchecked path ----------------------------------------------------------------

  function Act(cfg: SimConfig, s: SimState, candle: Candle, signal: SignalTick): (t: SimState)
    requires s.Coherent()
    ensures t.Coherent()
  {
    if s.position.None? then
      if signal.entry == Some(true) then OpenState(cfg, s, candle, signal.barIndex) else s
    else
      var plan := PlanExit(s.position.value, candle, signal.exit);
      if plan.Hold? then s
      else Settle(cfg, s, ExitPriceOf(cfg, s.position.value, candle, plan), signal.barIndex)
  }

  /** State after the first k bars. */
  function Path(cfg: SimConfig, initial: real, feed: Feed, k: nat): (s: SimState)
    requires k <= |feed.candles|
    ensures s.Coherent()
  {
    if k == 0 then Initial(initial)
    else
      Marked(Act(cfg, Path(cfg, initial, feed, k - 1), feed.candles[k - 1], feed.signals[k - 1]),
             feed.candles[k - 1], k - 1)
  }

  function FlushedAt(cfg: SimConfig, s: SimState, candle: Candle, barIndex: nat): SimState
    requires s.position.Some? && s.Coherent()
  {
    var t := Settle(cfg, s, MarketExit(cfg, s.position.value, candle), barIndex);
    t.(curve := LastPointReplaced(t.curve, t.equity))
  }

  /** After the last bar, with an open position flushed at the last close. */
  function Finished(cfg: SimConfig, initial: real, feed: Feed): SimState
    requires feed.candles != []
  {
    var n := |feed.candles|;
    var s := Path(cfg, initial, feed, n);
    if s.position.None? then s else FlushedAt(cfg, s, feed.candles[n - 1], n - 1)
  }

  // ----- the program's run -----------------------------------------------------------------

  function RunTicks(cfg: SimConfig, initial: real, feed: Feed, k: nat): (o: Outcome)
    requires k <= |feed.candles|
    ensures o.state.Coherent()
  {
    if k == 0 then Outcome(Initial(initial), None)
    else
      var o := RunTicks(cfg, initial, feed, k - 1);
      if o.error.Some? then o else TickStep(cfg, o.state, feed.candles[k - 1], feed.signals[k - 1])
  }

  function FlushStep(cfg: SimConfig, s: SimState, candle: Candle, barIndex: nat): Outcome
    requires s.Coherent()
  {
    if s.position.None? then Outcome(s, None)
    else
      var o := CloseStep(cfg, s, MarketExit(cfg, s.position.value, candle), barIndex);
      if o.error.Some? then o
      else Outcome(o.state.(curve := LastPointReplaced(o.state.curve, o.state.equity)), None)
  }

  function RunToEnd(cfg: SimConfig, initial: real, feed: Feed): Outcome
    requires feed.candles != []
  {
    var n := |feed.candles|;
    var o := RunTicks(cfg, initial, feed, n);
    if o.error.Some? then o else FlushStep(cfg, o.state, feed.candles[n - 1], n - 1)
  }

  ghost predicate Clean(trades: seq<BacktestTrade>) {
    forall k | 0 <= k < |trades| :: TradeDefect(trades[k]).None?
  }

  lemma CleanSnoc(trades: seq<BacktestTrade>, t: BacktestTrade)
    ensures Clean(trades + [t]) <==> Clean(trades) && TradeDefect(t).None?
  {
    var all := trades + [t];
    if Clean(all) {
      forall k | 0 <= k < |trades| ensures TradeDefect(trades[k]).None? { assert all[k] == trades[k]; }
      assert all[|trades|] == t;
    }
  }

  /** The program reaches bar k exactly when every record so far is acceptable, and then is on the path. */
  lemma {:induction false} TicksFollowPath(cfg: SimConfig, initial: real, feed: Feed, k: nat)
    requires k <= |feed.candles|
    ensures RunTicks(cfg, initial, feed, k).error.None? <==> Clean(Path(cfg, initial, feed, k).trades)
    ensures Clean(Path(cfg, initial, feed, k).trades) ==>
            RunTicks(cfg, initial, feed, k).state == Path(cfg, initial, feed, k)
  {
    hide TradeDefect, PlanExit, PlanEntry, TradeOf, EquityAfterClose;
    if k > 0 {
      TicksFollowPath(cfg, initial, feed, k - 1);
      var s := Path(cfg, initial, feed, k - 1);
      var candle, signal := feed.candles[k - 1], feed.signals[k - 1];
      if s.position.Some? {
        var plan := PlanExit(s.position.value, candle, signal.exit);
        if !plan.Hold? {
          CleanSnoc(s.trades, TradeOf(cfg, s, ExitPriceOf(cfg, s.position.value, candle, plan), k - 1));
        }
      }
    }
  }

  lemma RunFollowsPath(cfg: SimConfig, initial: real, feed: Feed)
    requires feed.candles != []
    ensures RunToEnd(cfg, initial, feed).error.None? <==> Clean(Finished(cfg, initial, feed).trades)
    ensures Clean(Finished(cfg, initial, feed).trades) ==>
            RunToEnd(cfg, initial, feed).state == Finished(cfg, initial, feed)
  {
    hide TradeDefect, TradeOf, EquityAfterClose, RunTicks, Path;
    var n := |feed.candles|;
    TicksFollowPath(cfg, initial, feed, n);
    var s := Path(cfg, initial, feed, n);
    if s.position.Some? {
      CleanSnoc(s.trades, TradeOf(cfg, s, MarketExit(cfg, s.position.value, feed.candles[n - 1]), n - 1));
    }
  }

  // ----- no look-ahead ---------------------------------------------------------------------

  ghost predicate SameUpTo(a: Feed, b: Feed, k: nat) {
    && k <= |a.candles| && k <= |b.candles|
    && a.candles[..k] == b.candles[..k] && a.signals[..k] == b.signals[..k]
  }

  lemma {:induction false} TicksLocal(cfg: SimConfig, initial: real, a: Feed, b: Feed, k: nat)
    requires SameUpTo(a, b, k)
    ensures RunTicks(cfg, initial, a, k) == RunTicks(cfg, initial, b, k)
  {
    hide TickStep;
    if k > 0 {
      assert a.candles[..k - 1] == a.candles[..k][..k - 1] == b.candles[..k - 1];
      assert a.signals[..k - 1] == a.signals[..k][..k - 1] == b.signals[..k - 1];
      assert a.candles[k - 1] == a.candles[..k][k - 1] == b.candles[k - 1];
      assert a.signals[k - 1] == a.signals[..k][k - 1] == b.signals[k - 1];
      TicksLocal(cfg, initial, a, b, k - 1);
    }
  }

  // ----- chronology ------------------------------------------------------------------------

  /** Opened no later than closed, and closed strictly before the next one opens. */
  ghost predicate Disjoint(trades: seq<BacktestTrade>) {
    && (forall k | 0 <= k < |trades| :: trades[k].openedAtMs <= trades[k].closedAtMs)
    && (forall k | 0 < k < |trades| :: trades[k - 1].closedAtMs < trades[k].openedAtMs)
  }

  ghost predicate OnePointPerBar(curve: seq<EquityPoint>, n: nat) {
    |curve| == n && forall k | 0 <= k < n :: curve[k].observedAtMs == InstantForBar(k)
  }

  /** Trades lie in the past, the open position opened after the last of them. */
  ghost predicate Ordered(s: SimState, k: nat) {
    && Disjoint(s.trades)
    && (s.trades != [] ==> s.trades[|s.trades| - 1].closedAtMs < InstantForBar(k))
    && (s.position.Some? ==>
          && s.position.value.entryBarIndex < k
          && s.entryOpenedAtMs == Some(InstantForBar(s.position.value.entryBarIndex))
          && (s.trades != [] ==> s.trades[|s.trades| - 1].closedAtMs < s.entryOpenedAtMs.value))
  }

  ghost predicate Chronology(s: SimState, k: nat) {
    && Ordered(s, k)
    && OnePointPerBar(s.curve, k)
    && (s.position.None? && k > 0 ==> s.curve[k - 1].equity == s.equity)
  }

  lemma SettleChronology(cfg: SimConfig, s: SimState, exitPrice: real, bar: nat)
    requires s.position.Some? && s.Coherent() && Disjoint(s.trades)
    requires s.position.value.entryBarIndex <= bar
    requires s.entryOpenedAtMs == Some(InstantForBar(s.position.value.entryBarIndex))
    requires s.trades != [] ==> s.trades[|s.trades| - 1].closedAtMs < s.entryOpenedAtMs.value
    ensures Disjoint(Settle(cfg, s, exitPrice, bar).trades)
  {}

  lemma ActOrdered(cfg: SimConfig, s: SimState, candle: Candle, signal: SignalTick)
    requires s.Coherent() && Ordered(s, signal.barIndex)
    ensures Ordered(Act(cfg, s, candle, signal), signal.barIndex + 1)
    ensures Act(cfg, s, candle, signal).curve == s.curve
  {
    hide PlanExit, Gross, Fee, FillPrice, TooSmall, EntrySize, EquityAfterClose, ExitPriceOf, Disjoint;
    if s.position.Some? {
      var plan := PlanExit(s.position.value, candle, signal.exit);
      if !plan.Hold? {
        SettleChronology(cfg, s, ExitPriceOf(cfg, s.position.value, candle, plan), signal.barIndex);
      }
    }
  }

  lemma {:induction false} PathChronology(cfg: SimConfig, initial: real, feed: Feed, k: nat)
    requires k <= |feed.candles|
    ensures Chronology(Path(cfg, initial, feed, k), k)
  {
    hide Act, Ordered, Gross;
    if k > 0 {
      PathChronology(cfg, initial, feed, k - 1);
      ActOrdered(cfg, Path(cfg, initial, feed, k - 1), feed.candles[k - 1], feed.signals[k - 1]);
      var t := Act(cfg, Path(cfg, initial, feed, k - 1), feed.candles[k - 1], feed.signals[k - 1]);
      assert Ordered(Marked(t, feed.candles[k - 1], k - 1), k) by { OrderedIgnoresCurve(t, feed.candles[k - 1], k); }
    } else {
      NothingOrdered(initial);
    }
  }

  lemma NothingOrdered(initial: real)
    ensures Ordered(Initial(initial), 0)
  {}

  lemma OrderedIgnoresCurve(t: SimState, candle: Candle, k: nat)
    requires k > 0 && Ordered(t, k)
    ensures Ordered(Marked(t, candle, k - 1), k)
  {}

  lemma FinishedChronology(cfg: SimConfig, initial: real, feed: Feed)
    requires feed.candles != []
    ensures var s := Finished(cfg, initial, feed); var n := |feed.candles|;
            && s.position.None? && Disjoint(s.trades) && OnePointPerBar(s.curve, n)
            && s.curve[n - 1].equity == s.equity
            && (n > 1 ==> s.curve[0] == Path(cfg, initial, feed, n).curve[0])
  {
    hide Path, Gross, Fee, EquityAfterClose, MarketExit;
    var n := |feed.candles|;
    PathChronology(cfg, initial, feed, n);
    var s := Path(cfg, initial, feed, n);
    if s.position.Some? {
      SettleChronology(cfg, s, MarketExit(cfg, s.position.value, feed.candles[n - 1]), n - 1);
    }
  }

  // ----- growth of the record --------------------------------------------------------------

  lemma ActGrows(cfg: SimConfig, s: SimState, candle: Candle, signal: SignalTick)
    requires s.Coherent()
    ensures s.trades <= Act(cfg, s, candle, signal).trades && Act(cfg, s, candle, signal).curve == s.curve
  {
    hide PlanExit, PlanEntry, TradeOf, EquityAfterClose, ExitPriceOf;
  }

  /** Equity points and trades, once written, stay. */
  lemma {:induction false} PathGrows(cfg: SimConfig, initial: real, feed: Feed, j: nat, k: nat)
    requires j <= k <= |feed.candles|
    ensures Path(cfg, initial, feed, j).trades <= Path(cfg, initial, feed, k).trades
    ensures Path(cfg, initial, feed, j).curve <= Path(cfg, initial, feed, k).curve
  {
    hide Act, MarkToMarket;
    if j < k {
      PathGrows(cfg, initial, feed, j, k - 1);
      ActGrows(cfg, Path(cfg, initial, feed, k - 1), feed.candles[k - 1], feed.signals[k - 1]);
    }
  }

  /** Before the last bar the finished curve is the path's curve. */
  lemma FinishedCurve(cfg: SimConfig, initial: real, feed: Feed, k: nat)
    requires k < |feed.candles|
    requires k < |feed.candles| - 1 || Path(cfg, initial, feed, k + 1).position.None?
    ensures |Path(cfg, initial, feed, k + 1).curve| == k + 1
    ensures |Finished(cfg, initial, feed).curve| == |feed.candles|
    ensures Finished(cfg, initial, feed).curve[k] == Path(cfg, initial, feed, k + 1).curve[k]
  {
    hide Path, EquityAfterClose, TradeOf, MarketExit;
    var n := |feed.candles|;
    PathChronology(cfg, initial, feed, k + 1);
    PathChronology(cfg, initial, feed, n);
    PathGrows(cfg, initial, feed, k + 1, n);
  }

  /** Every position ever held is on record at the end, with the size it was opened with. */
  lemma {:induction false} PositionIsRecorded(cfg: SimConfig, initial: real, feed: Feed, k: nat) returns (j: nat)
    requires k <= |feed.candles| && feed.candles != [] && Path(cfg, initial, feed, k).position.Some?
    ensures j < |Finished(cfg, initial, feed).trades|
    ensures Finished(cfg, initial, feed).trades[j].size == Path(cfg, initial, feed, k).position.value.size
    ensures Finished(cfg, initial, feed).trades[j].entryPrice == Path(cfg, initial, feed, k).position.value.entryPrice
    decreases |feed.candles| - k
  {
    hide PlanExit, PlanEntry, Gross, Fee, EquityAfterClose, ExitPriceOf, MarkToMarket, MarketExit;
    var n := |feed.candles|;
    var s := Path(cfg, initial, feed, k);
    if k == n {
      j := |s.trades|;
    } else if PlanExit(s.position.value, feed.candles[k], feed.signals[k].exit).Hold? {
      assert Path(cfg, initial, feed, k + 1).position == s.position;
      j := PositionIsRecorded(cfg, initial, feed, k + 1);
    } else {
      PathGrows(cfg, initial, feed, k + 1, n);
      j := |s.trades|;
      assert Path(cfg, initial, feed, k + 1).trades[j].size == s.position.value.size;
      assert Path(cfg, initial, feed, n).trades <= Finished(cfg, initial, feed).trades;
    }
  }
}
