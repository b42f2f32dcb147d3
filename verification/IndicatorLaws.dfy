/**
 What the indicator columns hold, said in prices, sums and weights rather than by the loops' steps.

 An exponential average gives the term j bars back the weight alpha * (1 - alpha)^j and leaves the rest
 to the mean of its first terms; EMA does so with alpha = 2 / (period + 1), Wilder's average with
 alpha = 1 / period.
 */
module IndicatorLaws {
  import opened Base
  import opened Strategy
  import opened Indicators

  // ----- exponential averages --------------------------------------------------------------

  function Pow(b: real, n: nat): real {
    if n == 0 then 1.0 else b * Pow(b, n - 1)
  }

  /** The newest term weighs alpha, every older one (1 - alpha) times its successor. */
  function Discounted(xs: seq<real>, alpha: real): real {
    if xs == [] then 0.0
    else (alpha * Pow(1.0 - alpha, |xs| - 1)) * xs[0] + Discounted(xs[1..], alpha)
  }

  /** The mean of the first `period` terms, discounted, and the later terms with their weights. */
  function Smoothed(xs: seq<real>, period: nat, alpha: real): real
    requires 0 < period <= |xs|
  {
    Pow(1.0 - alpha, |xs| - period) * (Sum(xs[..period]) / period as real) + Discounted(xs[period..], alpha)
  }

  lemma {:induction false} DiscountedSnoc(xs: seq<real>, x: real, alpha: real)
    ensures Discounted(xs + [x], alpha) == (1.0 - alpha) * Discounted(xs, alpha) + alpha * x
  {
    hide Discounted, Pow;
    if xs == [] {
      LoneTerm(x, alpha);
    } else {
      var q := 1.0 - alpha;
      DiscountedSnoc(xs[1..], x, alpha);
      FirstTerm(xs, alpha);
      FirstTerm(xs + [x], alpha);
      assert (xs + [x])[1..] == xs[1..] + [x];
      NextPower(q, |xs|);
      Older(alpha, q, Pow(q, |xs| - 1), Pow(q, |xs|), xs[0]);
      DistributeOver(q, (alpha * Pow(q, |xs| - 1)) * xs[0], Discounted(xs[1..], alpha));
    }
  }

  lemma FirstTerm(xs: seq<real>, alpha: real)
    requires xs != []
    ensures Discounted(xs, alpha) == (alpha * Pow(1.0 - alpha, |xs| - 1)) * xs[0] + Discounted(xs[1..], alpha)
  {}

  lemma NextPower(q: real, n: nat)
    requires n > 0
    ensures Pow(q, n) == q * Pow(q, n - 1)
  {}

  lemma LoneTerm(x: real, alpha: real)
    ensures Discounted([] + [x], alpha) == (1.0 - alpha) * Discounted([], alpha) + alpha * x
  {
    assert [x][1..] == [] && Pow(1.0 - alpha, 0) == 1.0;
  }

  /** One step later a weight is q times what it was. */
  lemma Older(alpha: real, q: real, p: real, next: real, x: real)
    requires next == q * p
    ensures (alpha * next) * x == q * ((alpha * p) * x)
  {
    assert alpha * (q * p) == q * (alpha * p) by { Associate(alpha, q, p); Associate(q, alpha, p); }
    Associate(q, alpha * p, x);
  }

  lemma DistributeOver(q: real, a: real, b: real)
    ensures q * (a + b) == q * a + q * b
  {}

  lemma SmoothedSeed(xs: seq<real>, period: nat, alpha: real)
    requires 0 < period == |xs|
    ensures Smoothed(xs, period, alpha) == Mean(xs)
  {
    assert xs[..period] == xs && xs[period..] == [];
  }

  lemma SmoothedSnoc(xs: seq<real>, x: real, period: nat, alpha: real)
    requires 0 < period <= |xs|
    ensures Smoothed(xs + [x], period, alpha) == (1.0 - alpha) * Smoothed(xs, period, alpha) + alpha * x
  {
    hide Sum, Discounted;
    var q, seed := 1.0 - alpha, Sum(xs[..period]) / period as real;
    assert (xs + [x])[..period] == xs[..period] && (xs + [x])[period..] == xs[period..] + [x];
    DiscountedSnoc(xs[period..], x, alpha);
    Associate(q, Pow(q, |xs| - period), seed);
    DistributeOver(q, Pow(q, |xs| - period) * seed, Discounted(xs[period..], alpha));
  }

  lemma StepIsBlend(prev: real, x: real, period: nat)
    requires period > 0
    ensures EmaStep(prev, x, period) == (1.0 - 2.0 / (period + 1) as real) * prev + 2.0 / (period + 1) as real * x
    ensures WilderStep(prev, x, period) == (1.0 - 1.0 / period as real) * prev + 1.0 / period as real * x
  {
    var n := period as real;
    assert 1.0 - 1.0 / n == (n - 1.0) / n;
  }

  lemma {:induction false} EmaClosedForm(prices: seq<real>, period: nat, i: nat)
    requires 0 < period <= i + 1 <= |prices|
    ensures EmaFrom(prices, period, i) == Smoothed(prices[..i + 1], period, 2.0 / (period + 1) as real)
  {
    hide EmaStep, Smoothed, Mean;
    var alpha := 2.0 / (period + 1) as real;
    if i + 1 == period {
      SmoothedSeed(prices[..period], period, alpha);
    } else {
      EmaClosedForm(prices, period, i - 1);
      StepIsBlend(EmaFrom(prices, period, i - 1), prices[i], period);
      SmoothedSnoc(prices[..i], prices[i], period, alpha);
      assert prices[..i + 1] == prices[..i] + [prices[i]];
    }
  }

  lemma {:induction false} WilderClosedForm(xs: seq<real>, period: nat, i: nat)
    requires 0 < period <= i <= |xs|
    ensures Wilder(xs, period, i) == Smoothed(xs[..i], period, 1.0 / period as real)
  {
    hide WilderStep, Smoothed, Mean;
    var alpha := 1.0 / period as real;
    if i == period {
      SmoothedSeed(xs[..period], period, alpha);
    } else {
      WilderClosedForm(xs, period, i - 1);
      StepIsBlend(Wilder(xs, period, i - 1), xs[i - 1], period);
      SmoothedSnoc(xs[..i - 1], xs[i - 1], period, alpha);
      assert xs[..i] == xs[..i - 1] + [xs[i - 1]];
    }
  }

  // ----- what is averaged ------------------------------------------------------------------

  /** The prices a source names. */
  ghost predicate IsPrices(candles: seq<Candle>, source: PriceSource, prices: seq<real>) {
    |prices| == |candles| && forall j | 0 <= j < |candles| :: IsPrice(candles[j], source, prices[j])
  }

  ghost predicate IsPrice(c: Candle, source: PriceSource, x: real) {
    match source
    case OpenPrice => x == c.open
    case HighPrice => x == c.high
    case LowPrice => x == c.low
    case ClosePrice => x == c.close
    case Hlc3 => 3.0 * x == c.high + c.low + c.close
  }

  /** Each bar-to-bar move is split into a rise and a fall, one of which is nothing. */
  ghost predicate IsMoves(prices: seq<real>, rises: seq<real>, falls: seq<real>) {
    && |rises| == |falls| == (if prices == [] then 0 else |prices| - 1)
    && forall j | 0 <= j < |rises| ::
         && rises[j] >= 0.0 && falls[j] >= 0.0 && (rises[j] == 0.0 || falls[j] == 0.0)
         && rises[j] - falls[j] == prices[j + 1] - prices[j]
  }

  /** The largest of a bar's own width and its two distances from the close before. */
  ghost predicate IsRange(prev: Candle, cur: Candle, x: real) {
    && x >= cur.high - cur.low && x >= cur.high - prev.close && x >= prev.close - cur.high
    && x >= cur.low - prev.close && x >= prev.close - cur.low
    && (|| x == cur.high - cur.low || x == cur.high - prev.close || x == prev.close - cur.high
        || x == cur.low - prev.close || x == prev.close - cur.low)
  }

  ghost predicate IsRanges(candles: seq<Candle>, ranges: seq<real>) {
    && |ranges| == (if candles == [] then 0 else |candles| - 1)
    && forall j | 0 <= j < |ranges| :: IsRange(candles[j], candles[j + 1], ranges[j])
  }

  /** On a bar whose low is not above its high, the true range spans the bar and the close before it. */
  lemma RangeSpans(prev: Candle, cur: Candle, x: real)
    requires cur.low <= cur.high
    ensures IsRange(prev, cur, x) <==> x == Max(cur.high, prev.close) - Min(cur.low, prev.close)
  {}

  lemma PricesUnique(candles: seq<Candle>, source: PriceSource, prices: seq<real>)
    ensures IsPrices(candles, source, prices) <==> prices == Prices(candles, source)
  {
    var reference := Prices(candles, source);
    if IsPrices(candles, source, prices) {
      assert prices == reference by {
        forall j | 0 <= j < |prices| ensures prices[j] == reference[j] {
          assert IsPrice(candles[j], source, prices[j]);
        }
      }
    }
  }

  lemma MovesUnique(prices: seq<real>, rises: seq<real>, falls: seq<real>)
    ensures IsMoves(prices, rises, falls) <==> rises == Gains(prices) && falls == Losses(prices)
  {
    var ups, downs := Gains(prices), Losses(prices);
    if IsMoves(prices, rises, falls) {
      forall j | 0 <= j < |rises| ensures rises[j] == ups[j] && falls[j] == downs[j] {}
      assert rises == ups && falls == downs;
    }
  }

  lemma RangesUnique(candles: seq<Candle>, ranges: seq<real>)
    ensures IsRanges(candles, ranges) <==> ranges == TrueRanges(candles)
  {
    if IsRanges(candles, ranges) {
      assert ranges == TrueRanges(candles) by {
        forall j | 0 <= j < |ranges| ensures ranges[j] == TrueRanges(candles)[j] {
          assert IsRange(candles[j], candles[j + 1], ranges[j]);
        }
      }
    }
  }

  // ----- the values ------------------------------------------------------------------------

  ghost predicate IsRsi(up: real, down: real, x: real) {
    if down == 0.0 then x == 100.0 else x * (up + down) == 100.0 * up
  }

  lemma RsiIsShare(up: real, down: real)
    requires up >= 0.0 && down >= 0.0
    ensures IsRsi(up, down, RsiFromAvgs(up, down))
  {
    if down > 0.0 { RsiRatio(up, down); }
  }

  /** What the average looks at: the prices of its source, their rises and falls, and the true ranges. */
  ghost predicate Inputs(candles: seq<Candle>, source: PriceSource, prices: seq<real>,
                         rises: seq<real>, falls: seq<real>, ranges: seq<real>) {
    IsPrices(candles, source, prices) && IsMoves(prices, rises, falls) && IsRanges(candles, ranges)
  }

  /** Enough bars have been seen. */
  predicate Warm(kind: IndicatorKind, period: nat, seen: nat) {
    match kind
    case Sma | Ema => period <= seen
    case Macd => period <= seen && 12 <= seen
    case Rsi | Atr => period < seen
    case Volume => true
  }

  /** The value of an indicator on the last of the bars it has seen. */
  ghost predicate IsValue(kind: IndicatorKind, period: nat, candles: seq<Candle>, prices: seq<real>,
                          rises: seq<real>, falls: seq<real>, ranges: seq<real>, x: real)
    requires period > 0 && |candles| == |prices| > 0 && |rises| == |falls| == |ranges| == |prices| - 1
    requires Warm(kind, period, |candles|)
  {
    var n, alpha, wilder := |prices|, 2.0 / (period + 1) as real, 1.0 / period as real;
    match kind
    case Sma => x * period as real == Sum(prices[n - period..])
    case Ema => x == Smoothed(prices, period, alpha)
    case Macd => x == Smoothed(prices, 12, 2.0 / 13.0) - Smoothed(prices, period, alpha)
    case Atr => x == Smoothed(ranges, period, wilder)
    case Rsi => IsRsi(Smoothed(rises, period, wilder), Smoothed(falls, period, wilder), x)
    case Volume => x == candles[n - 1].volume
  }

  /**
   An indicator has a value on a bar exactly when it has seen enough, and the value is the sum, weighted
   sum, difference or ratio its kind names, over the bars seen.
   */
  lemma ValueMeaning(ref: IndicatorRef, candles: seq<Candle>, i: nat, prices: seq<real>,
                     rises: seq<real>, falls: seq<real>, ranges: seq<real>)
    requires i < |candles| && Inputs(candles[..i + 1], ref.source, prices, rises, falls, ranges)
    ensures ValueAt(ref, candles, i).Some? <==> Warm(ref.kind, ref.period, i + 1)
    ensures ValueAt(ref, candles, i).Some? ==>
              IsValue(ref.kind, ref.period, candles[..i + 1], prices, rises, falls, ranges,
                      ValueAt(ref, candles, i).value)
  {
    hide EmaFrom, Wilder, Smoothed, Sum, RsiFromAvgs, Price, TrueRange, IsPrice, IsRange, IsRsi;
    var seen := candles[..i + 1];
    PricesUnique(seen, ref.source, prices);
    MovesUnique(prices, rises, falls);
    RangesUnique(seen, ranges);
    assert seen[..i + 1] == seen;
    ValueLocal(ref, candles, seen, i);
    assert prices[..i + 1] == prices;
    match ref.kind
    case Sma =>
    case Ema => if ref.period <= i + 1 { EmaClosedForm(prices, ref.period, i); }
    case Macd =>
      if ref.period <= i + 1 { EmaClosedForm(prices, ref.period, i); }
      if 12 <= i + 1 { EmaClosedForm(prices, 12, i); }
    case Rsi => if ref.period <= i { RsiValue(prices, rises, falls, ref.period, i); }
    case Atr =>
      if ref.period <= i {
        assert ranges[..i] == ranges;
        WilderClosedForm(ranges, ref.period, i);
      }
    case Volume =>
  }

  lemma RsiValue(prices: seq<real>, rises: seq<real>, falls: seq<real>, period: nat, i: nat)
    requires 0 < period <= i == |prices| - 1 && IsMoves(prices, rises, falls)
    ensures var alpha := 1.0 / period as real;
            && RsiAt(prices, period, i).Some?
            && IsRsi(Smoothed(rises, period, alpha), Smoothed(falls, period, alpha), RsiAt(prices, period, i).value)
  {
    hide Wilder, Smoothed, RsiFromAvgs, IsRsi;
    MovesUnique(prices, rises, falls);
    assert rises[..i] == rises && falls[..i] == falls;
    WilderClosedForm(rises, period, i);
    WilderClosedForm(falls, period, i);
    WilderNonNegative(rises, period, i);
    WilderNonNegative(falls, period, i);
    RsiIsShare(Wilder(rises, period, i), Wilder(falls, period, i));
  }

  // ----- which columns there are -----------------------------------------------------------

  /** The condition reads this reference. */
  predicate Reads(c: Condition, ref: IndicatorRef) {
    c.lhs == ref || c.rhs == Ref(ref)
  }

  ghost predicate SomeReads(conditions: seq<Condition>, ref: IndicatorRef) {
    exists k | 0 <= k < |conditions| :: Reads(conditions[k], ref)
  }

  lemma SomeReadsSnoc(init: seq<Condition>, last: Condition, ref: IndicatorRef)
    ensures SomeReads(init + [last], ref) <==> SomeReads(init, ref) || Reads(last, ref)
  {
    hide Reads;
    var all := init + [last];
    if SomeReads(init, ref) {
      var k :| 0 <= k < |init| && Reads(init[k], ref);
      assert Reads(all[k], ref);
    }
    if Reads(last, ref) { assert Reads(all[|init|], ref); }
    if SomeReads(all, ref) {
      var k :| 0 <= k < |all| && Reads(all[k], ref);
      assert k < |init| ==> Reads(init[k], ref);
    }
  }

  lemma RefsOfSnoc(conditions: seq<Condition>, ref: IndicatorRef)
    requires conditions != []
    ensures ref in RefsOf(conditions) <==>
            ref in RefsOf(conditions[..|conditions| - 1]) || Reads(conditions[|conditions| - 1], ref)
  {}

  lemma {:induction false} RefsOfExact(conditions: seq<Condition>, ref: IndicatorRef)
    ensures ref in RefsOf(conditions) <==> SomeReads(conditions, ref)
  {
    hide Reads;
    if conditions != [] {
      hide RefsOf, SomeReads;
      var init, last := conditions[..|conditions| - 1], conditions[|conditions| - 1];
      RefsOfExact(init, ref);
      RefsOfSnoc(conditions, ref);
      SomeReadsSnoc(init, last, ref);
      assert conditions == init + [last];
    }
  }

  /** There is a column for a reference exactly when some condition of the strategy reads it. */
  lemma ColumnsExact(spec: StrategySpec, candles: seq<Candle>, ref: IndicatorRef)
    ensures ref in ReferenceColumns(spec, candles) <==>
            (|| (exists k | 0 <= k < |spec.entry.conditions| :: Reads(spec.entry.conditions[k], ref))
             || (exists k | 0 <= k < |spec.exit.conditions| :: Reads(spec.exit.conditions[k], ref)))
    ensures ref in ReferenceColumns(spec, candles) ==>
              && |ReferenceColumns(spec, candles)[ref]| == |candles|
              && forall i | 0 <= i < |candles| :: ReferenceColumns(spec, candles)[ref][i] == ValueAt(ref, candles, i)
  {
    hide ValueAt;
    RefsOfExact(spec.entry.conditions, ref);
    RefsOfExact(spec.exit.conditions, ref);
  }
}
