/** Trade records, the report with its constructor checks, and the metrics read from a report. */
module Report {
  import opened Base

  datatype BacktestTrade = BacktestTrade(openedAtMs: int, closedAtMs: int, side: Side,
                                         entryPrice: real, exitPrice: real, size: real, pnl: real)

  datatype TradeError = ClosedBeforeOpened | NonPositiveSize | NonPositivePrice | PnlSignContradiction

  datatype EquityPoint = EquityPoint(observedAtMs: int, equity: real)

  datatype BacktestReport = BacktestReport(startMs: int, endMs: int, initialEquity: real, finalEquity: real,
                                           trades: seq<BacktestTrade>, equityCurve: seq<EquityPoint>)

  datatype ReportError =
    | NonPositiveInitialEquity | TradesUnsorted | CurveUnsorted | FirstPointMismatch | LastPointMismatch

  /** Favourable price move of a trade; its sign must not contradict the sign of the pnl. */
  function PriceMove(t: BacktestTrade): real {
    if t.side.Long? then t.exitPrice - t.entryPrice else t.entryPrice - t.exitPrice
  }

  /** The first constructor check a trade record fails, if any. */
  function TradeDefect(t: BacktestTrade): Option<TradeError> {
    if t.closedAtMs < t.openedAtMs then Some(ClosedBeforeOpened)
    else if t.size <= 0.0 then Some(NonPositiveSize)
    else if t.entryPrice <= 0.0 || t.exitPrice <= 0.0 then Some(NonPositivePrice)
    else if (PriceMove(t) > 0.0 && t.pnl < 0.0) || (PriceMove(t) < 0.0 && t.pnl > 0.0) then Some(PnlSignContradiction)
    else None
  }

  predicate TradesSorted(trades: seq<BacktestTrade>) {
    forall k | 0 < k < |trades| :: trades[k - 1].openedAtMs <= trades[k].openedAtMs
  }

  predicate CurveSorted(curve: seq<EquityPoint>) {
    forall k | 0 < k < |curve| :: curve[k - 1].observedAtMs <= curve[k].observedAtMs
  }

  function ReportDefect(r: BacktestReport): Option<ReportError> {
    if r.initialEquity <= 0.0 then Some(NonPositiveInitialEquity)
    else if !TradesSorted(r.trades) then Some(TradesUnsorted)
    else if !CurveSorted(r.equityCurve) then Some(CurveUnsorted)
    else if r.equityCurve != [] && r.equityCurve[0].equity != r.initialEquity then Some(FirstPointMismatch)
    else if r.equityCurve != [] && r.equityCurve[|r.equityCurve| - 1].equity != r.finalEquity then
      Some(LastPointMismatch)
    else None
  }

  // ----- what the constructors take --------------------------------------------------------

  /** The exit lies on the favourable, or the unfavourable, side of the entry. */
  predicate MovedFor(t: BacktestTrade) {
    match t.side
    case Long => t.entryPrice < t.exitPrice
    case Short => t.exitPrice < t.entryPrice
  }

  predicate MovedAgainst(t: BacktestTrade) {
    match t.side
    case Long => t.exitPrice < t.entryPrice
    case Short => t.entryPrice < t.exitPrice
  }

  /** Time first, then size, then prices, then the sign of the pnl; each error names the first rule broken. */
  lemma RecordAccepted(t: BacktestTrade)
    ensures var ordered, sized := t.openedAtMs <= t.closedAtMs, t.size > 0.0;
            var priced := t.entryPrice > 0.0 && t.exitPrice > 0.0;
            var signed := (MovedFor(t) ==> t.pnl >= 0.0) && (MovedAgainst(t) ==> t.pnl <= 0.0);
            && (TradeDefect(t) == None <==> ordered && sized && priced && signed)
            && (TradeDefect(t) == Some(ClosedBeforeOpened) <==> !ordered)
            && (TradeDefect(t) == Some(NonPositiveSize) <==> ordered && !sized)
            && (TradeDefect(t) == Some(NonPositivePrice) <==> ordered && sized && !priced)
  {}

  lemma {:induction false} TradesSortedFar(trades: seq<BacktestTrade>, i: nat, j: nat)
    requires TradesSorted(trades) && i <= j < |trades|
    ensures trades[i].openedAtMs <= trades[j].openedAtMs
  {
    if i < j { TradesSortedFar(trades, i, j - 1); }
  }

  lemma {:induction false} CurveSortedFar(curve: seq<EquityPoint>, i: nat, j: nat)
    requires CurveSorted(curve) && i <= j < |curve|
    ensures curve[i].observedAtMs <= curve[j].observedAtMs
  {
    if i < j { CurveSortedFar(curve, i, j - 1); }
  }

  /**
   The pairwise checks order all trades by opening time and all points by observation time; with a positive
   start and endpoints that agree, that is all the constructor asks.
   */
  lemma ReportAccepted(r: BacktestReport)
    ensures ReportDefect(r).None? <==>
            (&& r.initialEquity > 0.0
             && (forall i, j | 0 <= i <= j < |r.trades| :: r.trades[i].openedAtMs <= r.trades[j].openedAtMs)
             && (forall i, j | 0 <= i <= j < |r.equityCurve| ::
                   r.equityCurve[i].observedAtMs <= r.equityCurve[j].observedAtMs)
             && (r.equityCurve != [] ==>
                   && r.equityCurve[0].equity == r.initialEquity
                   && r.equityCurve[|r.equityCurve| - 1].equity == r.finalEquity))
  {
    if TradesSorted(r.trades) {
      forall i, j | 0 <= i <= j < |r.trades| { TradesSortedFar(r.trades, i, j); }
    }
    if CurveSorted(r.equityCurve) {
      forall i, j | 0 <= i <= j < |r.equityCurve| { CurveSortedFar(r.equityCurve, i, j); }
    }
  }

  // ----- total return and profit factor ----------------------------------------------------

  function TotalPnl(trades: seq<BacktestTrade>): real {
    if trades == [] then 0.0 else TotalPnl(trades[..|trades| - 1]) + trades[|trades| - 1].pnl
  }

  lemma TotalPnlSnoc(trades: seq<BacktestTrade>, t: BacktestTrade)
    ensures TotalPnl(trades + [t]) == TotalPnl(trades) + t.pnl
  {}

  function TotalReturn(r: BacktestReport): real
    requires r.initialEquity != 0.0
  {
    (r.finalEquity - r.initialEquity) / r.initialEquity
  }

  function GrossProfit(trades: seq<BacktestTrade>): real {
    if trades == [] then 0.0
    else GrossProfit(trades[..|trades| - 1]) + Max(trades[|trades| - 1].pnl, 0.0)
  }

  function GrossLoss(trades: seq<BacktestTrade>): real {
    if trades == [] then 0.0
    else GrossLoss(trades[..|trades| - 1]) + Max(-trades[|trades| - 1].pnl, 0.0)
  }

  lemma {:induction false} ProfitMinusLoss(trades: seq<BacktestTrade>)
    ensures GrossProfit(trades) - GrossLoss(trades) == TotalPnl(trades)
    ensures GrossLoss(trades) >= 0.0 && GrossProfit(trades) >= 0.0
    ensures GrossLoss(trades) > 0.0 <==> exists k | 0 <= k < |trades| :: trades[k].pnl < 0.0
  {
    if trades != [] {
      var init := trades[..|trades| - 1];
      ProfitMinusLoss(init);
      if GrossLoss(init) > 0.0 {
        var k :| 0 <= k < |init| && init[k].pnl < 0.0;
        assert trades[k].pnl < 0.0;
      } else if trades[|trades| - 1].pnl >= 0.0 {
        forall k | 0 <= k < |trades| ensures trades[k].pnl >= 0.0 {
          if k < |init| { assert trades[k] == init[k]; }
        }
      }
    }
  }

  /** The trades that made money. */
  function Winners(trades: seq<BacktestTrade>): seq<BacktestTrade> {
    if trades == [] then []
    else Winners(trades[..|trades| - 1]) + (if trades[|trades| - 1].pnl > 0.0 then [trades[|trades| - 1]] else [])
  }

  /** Gross profit is the total pnl of the winners; gross loss is what the others took from it. */
  lemma {:induction false} ProfitOfWinners(trades: seq<BacktestTrade>)
    ensures GrossProfit(trades) == TotalPnl(Winners(trades))
    ensures GrossLoss(trades) == TotalPnl(Winners(trades)) - TotalPnl(trades)
    ensures forall t :: t in Winners(trades) <==> t in trades && t.pnl > 0.0
  {
    if trades != [] {
      var init, last := trades[..|trades| - 1], trades[|trades| - 1];
      ProfitOfWinners(init);
      assert trades == init + [last];
      TotalPnlSnoc(Winners(init), last);
      assert Winners(init) + [] == Winners(init);
    }
  }

  /** No ratio without trades or without a losing trade; otherwise profits over losses. */
  method ProfitFactor(trades: seq<BacktestTrade>) returns (r: Option<real>)
    ensures r.Some? <==> exists k | 0 <= k < |trades| :: trades[k].pnl < 0.0
    ensures r.Some? ==> GrossLoss(trades) > 0.0 && r.value == GrossProfit(trades) / GrossLoss(trades)
    ensures r.Some? ==> (r.value > 1.0 <==> TotalPnl(trades) > 0.0)
  {
    if trades == [] { return None; }
    var grossProfit, grossLoss := 0.0, 0.0;
    for k := 0 to |trades|
      invariant grossProfit == GrossProfit(trades[..k]) && grossLoss == GrossLoss(trades[..k])
    {
      var t := trades[k];
      assert trades[..k + 1][..k] == trades[..k];
      if t.pnl > 0.0 {
        grossProfit := grossProfit + t.pnl;
      } else if t.pnl < 0.0 {
        grossLoss := grossLoss + -t.pnl;
      }
    }
    assert trades[..|trades|] == trades;
    ProfitMinusLoss(trades);
    if grossLoss == 0.0 { return None; }
    QuotientOrder(grossProfit, grossLoss, 1.0, 1.0);
    return Some(grossProfit / grossLoss);
  }

  // ----- maximum drawdown ------------------------------------------------------------------

  function Equities(curve: seq<EquityPoint>): seq<real> {
    seq(|curve|, i requires 0 <= i < |curve| => curve[i].equity)
  }

  /** Relative fall from point i to point j. */
  function Fall(c: seq<real>, i: nat, j: nat): real
    requires i < |c| && j < |c| && c[i] > 0.0
  {
    (c[i] - c[j]) / c[i]
  }

  /** The two-index definition: the largest fall from any positive point to a later one, kept in [0, 1]. */
  ghost predicate IsMaxDrawdown(c: seq<real>, d: real) {
    && 0.0 <= d <= 1.0
    && (forall i: nat, j: nat | i <= j < |c| && c[i] > 0.0 :: Min(1.0, Fall(c, i, j)) <= d)
    && (d == 0.0 || exists i: nat, j: nat :: i <= j < |c| && c[i] > 0.0 && d == Min(1.0, Fall(c, i, j)))
  }

  lemma MaxDrawdownUnique(c: seq<real>, d: real, e: real)
    requires IsMaxDrawdown(c, d) && IsMaxDrawdown(c, e)
    ensures d == e
  {}

  lemma FallAboveZero(x: real, peak: real, y: real)
    requires 0.0 < x <= peak && y >= 0.0
    ensures (x - y) / x <= (peak - y) / peak
  {}

  lemma FallBelowZero(peak: real, y: real)
    requires peak > 0.0 && y < 0.0
    ensures 1.0 <= (peak - y) / peak
  {}

  /** Falling from the running peak is at least as deep as from any earlier positive point, after clamping. */
  lemma PeakDominates(x: real, peak: real, y: real)
    requires 0.0 < x <= peak
    ensures Min(1.0, (x - y) / x) <= (peak - y) / peak
  {
    if y >= 0.0 { FallAboveZero(x, peak, y); } else { FallBelowZero(peak, y); }
  }

  method MaxDrawdown(curve: seq<EquityPoint>) returns (r: Option<real>)
    ensures r.None? <==> curve == []
    ensures r.Some? ==> IsMaxDrawdown(Equities(curve), r.value)
  {
    if curve == [] { return None; }
    ghost var c := Equities(curve);
    var peak, maxDd := 0.0, 0.0;
    for k := 0 to |curve|
      invariant peak >= 0.0 && maxDd >= 0.0
      invariant forall i | 0 <= i < k :: c[i] <= peak
      invariant peak == 0.0 || exists i | 0 <= i < k :: c[i] == peak
      invariant forall i: nat, j: nat | i <= j < k && c[i] > 0.0 :: Min(1.0, Fall(c, i, j)) <= maxDd
      invariant maxDd == 0.0 || exists i: nat, j: nat :: i <= j < k && c[i] > 0.0 && maxDd == Fall(c, i, j)
    {
      var equity := curve[k].equity;
      assert c[k] == equity;
      peak := Max(peak, equity);
      if peak > 0.0 {
        var dd := (peak - equity) / peak;
        forall i: nat | i <= k && c[i] > 0.0 ensures Min(1.0, Fall(c, i, k)) <= dd {
          PeakDominates(c[i], peak, equity);
        }
        ghost var m: nat :| m <= k && c[m] == peak;
        assert dd == Fall(c, m, k);
        maxDd := Max(maxDd, dd);
      }
    }
    if maxDd > 1.0 {
      ghost var i: nat, j: nat :| i <= j < |c| && c[i] > 0.0 && maxDd == Fall(c, i, j);
      assert 1.0 == Min(1.0, Fall(c, i, j));
      return Some(1.0);
    }
    return Some(maxDd);
  }
}
