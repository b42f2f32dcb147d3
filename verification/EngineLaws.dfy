/** The engine from candles to report: every error, every entry and exit, and the return. */
module EngineLaws {
  import opened Base
  import opened Strategy
  import opened Indicators
  import opened Evaluator
  import opened Report
  import opened Simulator
  import opened Runs
  import opened Accounting
  import opened Engine
  import opened SignalLaws
  import Bars

  /** Some condition reads a MACD whose slow period is not above 12. */
  ghost predicate BadMacd(spec: StrategySpec) {
    exists ref | ref in AllRefs(spec) :: ref.kind.Macd? && ref.period <= 12
  }

  /** The errors before the simulation: no candle, one candle, an indicator that cannot be built. */
  lemma EarlyErrors(cfg: SimConfig, initial: real, candles: seq<Candle>)
    ensures EngineResult(cfg, initial, candles) == Err(NoCandles) <==> |candles| == 0
    ensures EngineResult(cfg, initial, candles) == Err(SingleCandle) <==> |candles| == 1
    ensures EngineResult(cfg, initial, candles) == Err(BadIndicator) <==> |candles| >= 2 && BadMacd(cfg.spec)
  {
    hide RunToEnd, ReportDefect, FeedOf;
    var refs := AllRefs(cfg.spec);
    if AllConstructible(cfg.spec) {
      forall ref | ref in refs ensures Constructible(ref) { var k :| 0 <= k < |refs| && refs[k] == ref; }
    } else {
      var k :| 0 <= k < |refs| && !Constructible(refs[k]);
      assert refs[k] in refs;
    }
  }

  /** A report spans the first to the last bar, and one plus its total return is the product of its trades' factors. */
  lemma ReturnIsGrowth(cfg: SimConfig, initial: real, candles: seq<Candle>)
    requires EngineResult(cfg, initial, candles).Ok?
    ensures var r := EngineResult(cfg, initial, candles).value;
            && r.startMs == Bars.BarTime(0) && r.endMs == Bars.BarTime(|candles| - 1)
            && r.initialEquity != 0.0 && Priced(r.trades) && 1.0 + TotalReturn(r) == Growth(cfg, r.trades)
  {
    hide EngineResult, Finished, Growth, Disjoint;
    ReportFacts(cfg, initial, candles);
    ReportIsFinished(cfg, initial, candles);
    var r := EngineResult(cfg, initial, candles).value;
    Quotient(r.initialEquity, r.finalEquity, Growth(cfg, r.trades));
  }

  lemma Quotient(a: real, b: real, g: real)
    requires a > 0.0 && b == a * g
    ensures 1.0 + (b - a) / a == g
  {
    assert b - a == (g - 1.0) * a;
    Cancel((b - a) / a, g - 1.0, a);
  }

  /**
   A flat account is in a position after a bar exactly when every entry condition holds there by the
   indicator values, and the fill, the size and the notional suffice.
   */
  lemma OpenedExactly(cfg: SimConfig, initial: real, candles: seq<Candle>, k: nat, fill: real, spent: real)
    requires k < |candles| && Path(cfg, initial, FeedOf(cfg.spec, candles), k).position.None?
    requires spent == Path(cfg, initial, FeedOf(cfg.spec, candles), k).equity * cfg.spec.sizePct
    requires var slip := candles[k].close * (cfg.slippageBps as real / 10000.0);
             fill == if cfg.spec.entry.side.Long? then candles[k].close + slip else candles[k].close - slip
    ensures var feed, entry := FeedOf(cfg.spec, candles), cfg.spec.entry.conditions;
            var s, t := Path(cfg, initial, feed, k), Path(cfg, initial, feed, k + 1);
            && (t.position.Some? <==>
                  && (forall c | 0 <= c < |entry| :: Holds(entry[c], candles, k))
                  && fill > 0.0 && Abs(spent / fill) * 10000000000.0 >= 1.0
                  && (cfg.minNotional.Some? ==> spent >= cfg.minNotional.value))
            && (t.position.Some? ==> t.position.value.entryPrice == fill && t.position.value.size * fill == spent)
  {
    hide Path, SignalAt, Holds, Bars.Charged, Bars.OnTerms, Bars.Left, Bars.Leaves, Bars.Slipped, Bars.EntryFill;
    var feed := FeedOf(cfg.spec, candles);
    SignalMeaning(cfg.spec, candles, k);
    Bars.BarMeaning(cfg, initial, feed, k);
    assert feed.signals[k] == SignalAt(cfg.spec, candles, k);
    Filled(cfg, candles[k], fill);
    assert Bars.Spent(cfg, Path(cfg, initial, feed, k).equity) == spent;
    hide Bars.Spent;
  }

  lemma Filled(cfg: SimConfig, candle: Candle, fill: real)
    requires var slip := candle.close * (cfg.slippageBps as real / 10000.0);
             fill == if cfg.spec.entry.side.Long? then candle.close + slip else candle.close - slip
    ensures Bars.EntryFill(cfg, candle) == fill
  {}
}
