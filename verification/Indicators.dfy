/**
 Technical indicators.  Every indicator has a reference value `ValueAt(ref, candles, i)` that is
 absent during warm-up; the loops that fill whole columns are proved to produce exactly these
 values, and the laws (warm-up length, locality, bounds, reflection) are proved about them.
 */
module Indicators {
  import opened Base
  import opened Strategy

  type Series = seq<Option<real>>

  const MACD_FAST := 12

  // ----- price columns ---------------------------------------------------------------------

  function Price(c: Candle, source: PriceSource): real {
    match source
    case OpenPrice => c.open
    case HighPrice => c.high
    case LowPrice => c.low
    case ClosePrice => c.close
    case Hlc3 => (c.high + c.low + c.close) / 3.0
  }

  function Prices(candles: seq<Candle>, source: PriceSource): seq<real> {
    seq(|candles|, i requires 0 <= i < |candles| => Price(candles[i], source))
  }

  /** Bar-to-bar rises; entry j compares bar j with bar j + 1. */
  function Gains(prices: seq<real>): seq<real> {
    seq(if prices == [] then 0 else |prices| - 1,
        j requires 0 <= j < |prices| - 1 => Max(prices[j + 1] - prices[j], 0.0))
  }

  function Losses(prices: seq<real>): seq<real> {
    seq(if prices == [] then 0 else |prices| - 1,
        j requires 0 <= j < |prices| - 1 => Max(prices[j] - prices[j + 1], 0.0))
  }

  function TrueRange(prev: Candle, cur: Candle): real {
    Max(Max(cur.high - cur.low, Abs(cur.high - prev.close)), Abs(cur.low - prev.close))
  }

  function TrueRanges(candles: seq<Candle>): seq<real> {
    seq(if candles == [] then 0 else |candles| - 1,
        j requires 0 <= j < |candles| - 1 => TrueRange(candles[j], candles[j + 1]))
  }

  // ----- reference values ------------------------------------------------------------------

  function SmaAt(prices: seq<real>, period: nat, i: nat): Option<real>
    requires 0 < period && i < |prices|
  {
    if i + 1 < period then None else Some(Mean(prices[i + 1 - period..i + 1]))
  }

  function EmaStep(prev: real, price: real, period: nat): real {
    var alpha := 2.0 / (period + 1) as real;
    alpha * price + (1.0 - alpha) * prev
  }

  function EmaFrom(prices: seq<real>, period: nat, i: nat): real
    requires 0 < period <= i + 1 <= |prices|
  {
    if i + 1 == period then Mean(prices[..period])
    else EmaStep(EmaFrom(prices, period, i - 1), prices[i], period)
  }

  function EmaAt(prices: seq<real>, period: nat, i: nat): Option<real>
    requires 0 < period && i < |prices|
  {
    if i + 1 < period then None else Some(EmaFrom(prices, period, i))
  }

  function WilderStep(prev: real, x: real, period: nat): real
    requires period > 0
  {
    (prev * (period - 1) as real + x) / period as real
  }

  /** Wilder smoothing of a bar-to-bar stream, seeded with the mean of its first `period` terms. */
  function Wilder(xs: seq<real>, period: nat, i: nat): real
    requires 0 < period <= i <= |xs|
  {
    if i == period then Mean(xs[..period])
    else WilderStep(Wilder(xs, period, i - 1), xs[i - 1], period)
  }

  /** Averages of moves are non-negative, so the second disjunct never decides: it keeps this total. */
  function RsiFromAvgs(avgGain: real, avgLoss: real): real {
    if avgLoss == 0.0 || avgGain + avgLoss == 0.0 then 100.0 else
      assert 1.0 + avgGain / avgLoss != 0.0 by {
        assert (1.0 + avgGain / avgLoss) * avgLoss == avgLoss + avgGain;
      }
      100.0 - 100.0 / (1.0 + avgGain / avgLoss)
  }

  function RsiAt(prices: seq<real>, period: nat, i: nat): Option<real>
    requires 0 < period && i < |prices|
  {
    if i < period then None
    else Some(RsiFromAvgs(Wilder(Gains(prices), period, i), Wilder(Losses(prices), period, i)))
  }

  function AtrAt(candles: seq<Candle>, period: nat, i: nat): Option<real>
    requires 0 < period && i < |candles|
  {
    if i < period then None else Some(Wilder(TrueRanges(candles), period, i))
  }

  function MacdAt(prices: seq<real>, slow: nat, i: nat): Option<real>
    requires 0 < slow && i < |prices|
  {
    match (EmaAt(prices, MACD_FAST, i), EmaAt(prices, slow, i))
    case (Some(f), Some(s)) => Some(f - s)
    case _ => None
  }

  /** A MACD reference is usable only when its slow period exceeds the fixed fast period. */
  predicate Constructible(ref: IndicatorRef) {
    ref.kind.Macd? ==> MACD_FAST < ref.period
  }

  function ValueAt(ref: IndicatorRef, candles: seq<Candle>, i: nat): Option<real>
    requires i < |candles|
  {
    match ref.kind
    case Sma => SmaAt(Prices(candles, ref.source), ref.period, i)
    case Ema => EmaAt(Prices(candles, ref.source), ref.period, i)
    case Rsi => RsiAt(Prices(candles, ref.source), ref.period, i)
    case Macd => MacdAt(Prices(candles, ref.source), ref.period, i)
    case Atr => AtrAt(candles, ref.period, i)
    case Volume => Some(candles[i].volume)
  }

  /** `s` is the column of reference values of `ref`. */
  ghost predicate IsColumn(ref: IndicatorRef, candles: seq<Candle>, s: Series) {
    |s| == |candles| && forall i {:trigger s[i]} | 0 <= i < |candles| :: s[i] == ValueAt(ref, candles, i)
  }

  // ----- warm-up ---------------------------------------------------------------------------

  /** Number of leading bars on which the indicator has no value. */
  function WarmUp(ref: IndicatorRef): nat {
    match ref.kind
    case Sma | Ema => ref.period - 1
    case Rsi | Atr => ref.period
    case Macd => MaxInt(ref.period, MACD_FAST) - 1
    case Volume => 0
  }

  lemma WarmUpIsPrefix(ref: IndicatorRef, candles: seq<Candle>, i: nat)
    requires i < |candles|
    ensures ValueAt(ref, candles, i).None? <==> i < WarmUp(ref)
  {}

  // ----- locality --------------------------------------------------------------------------

  lemma {:induction false} EmaLocal(a: seq<real>, b: seq<real>, period: nat, i: nat)
    requires 0 < period <= i + 1 <= |a| && i + 1 <= |b| && a[..i + 1] == b[..i + 1]
    ensures EmaFrom(a, period, i) == EmaFrom(b, period, i)
  {
    if i + 1 == period {
    } else {
      assert a[..i] == a[..i + 1][..i] == b[..i];
      assert a[i] == a[..i + 1][i] == b[i];
      EmaLocal(a, b, period, i - 1);
    }
  }

  lemma {:induction false} WilderLocal(a: seq<real>, b: seq<real>, period: nat, i: nat)
    requires 0 < period <= i <= |a| && i <= |b| && a[..i] == b[..i]
    ensures Wilder(a, period, i) == Wilder(b, period, i)
  {
    if i == period {
    } else {
      assert a[..i - 1] == a[..i][..i - 1] == b[..i - 1];
      assert a[i - 1] == a[..i][i - 1] == b[i - 1];
      WilderLocal(a, b, period, i - 1);
    }
  }

  lemma RsiLocal(a: seq<real>, b: seq<real>, period: nat, i: nat)
    requires 0 < period <= i < |a| && i < |b| && a[..i + 1] == b[..i + 1]
    ensures RsiAt(a, period, i) == RsiAt(b, period, i)
  {
    hide Wilder;
    forall j | 0 <= j <= i ensures a[j] == b[j] {
      assert a[j] == a[..i + 1][j];
    }
    assert Gains(a)[..i] == Gains(b)[..i] && Losses(a)[..i] == Losses(b)[..i];
    WilderLocal(Gains(a), Gains(b), period, i);
    WilderLocal(Losses(a), Losses(b), period, i);
  }

  lemma AtrLocal(a: seq<Candle>, b: seq<Candle>, period: nat, i: nat)
    requires 0 < period <= i < |a| && i < |b| && a[..i + 1] == b[..i + 1]
    ensures AtrAt(a, period, i) == AtrAt(b, period, i)
  {
    hide Wilder, TrueRange;
    forall j | 0 <= j <= i ensures a[j] == b[j] {
      assert a[j] == a[..i + 1][j];
    }
    assert TrueRanges(a)[..i] == TrueRanges(b)[..i];
    WilderLocal(TrueRanges(a), TrueRanges(b), period, i);
  }

  /** An indicator value depends on no later bar. */
  lemma ValueLocal(ref: IndicatorRef, a: seq<Candle>, b: seq<Candle>, i: nat)
    requires i < |a| && i < |b| && a[..i + 1] == b[..i + 1]
    ensures ValueAt(ref, a, i) == ValueAt(ref, b, i)
  {
    hide EmaFrom, Wilder, Mean, Price, TrueRange, RsiFromAvgs;
    forall j | 0 <= j <= i ensures a[j] == b[j] {
      assert a[j] == a[..i + 1][j];
    }
    var pa, pb := Prices(a, ref.source), Prices(b, ref.source);
    assert pa[..i + 1] == pb[..i + 1];
    match ref.kind
    case Sma =>
      if i + 1 >= ref.period {
        assert pa[i + 1 - ref.period..i + 1] == pb[i + 1 - ref.period..i + 1];
      }
    case Ema => if i + 1 >= ref.period { EmaLocal(pa, pb, ref.period, i); }
    case Rsi => if i >= ref.period { RsiLocal(pa, pb, ref.period, i); }
    case Macd =>
      if i + 1 >= ref.period { EmaLocal(pa, pb, ref.period, i); }
      if i + 1 >= MACD_FAST { EmaLocal(pa, pb, MACD_FAST, i); }
    case Atr => if i >= ref.period { AtrLocal(a, b, ref.period, i); }
    case Volume =>
  }

  // ----- bounds ----------------------------------------------------------------------------

  lemma EmaStepBounds(prev: real, price: real, period: nat, lo: real, hi: real)
    requires period > 0 && lo <= prev <= hi && lo <= price <= hi
    ensures lo <= EmaStep(prev, price, period) <= hi
  {
    var w := 2.0 / (period + 1) as real;
    QuotientOrder(2.0, (period + 1) as real, 1.0, 1.0);
    QuotientOrder(0.0, 1.0, 2.0, (period + 1) as real);
    MulMono(w, lo, price); MulMono(w, price, hi);
    MulMono(1.0 - w, lo, prev); MulMono(1.0 - w, prev, hi);
    Distribute(w, 1.0 - w, lo); Distribute(w, 1.0 - w, hi);
  }

  lemma Weighted(q: real, prev: real, x: real, lo: real, hi: real)
    requires q >= 0.0 && lo <= prev <= hi && lo <= x <= hi
    ensures (q + 1.0) * lo <= prev * q + x <= (q + 1.0) * hi
  {
    Distribute(q, 1.0, lo); Distribute(q, 1.0, hi);
    MulMono(q, lo, prev); MulMono(q, prev, hi);
  }

  lemma WilderStepBounds(prev: real, x: real, period: nat, lo: real, hi: real)
    requires period > 0 && lo <= prev <= hi && lo <= x <= hi
    ensures lo <= WilderStep(prev, x, period) <= hi
  {
    var q := (period - 1) as real;
    assert period as real == q + 1.0;
    Weighted(q, prev, x, lo, hi);
    DivideBounds(prev * q + x, q + 1.0, lo, hi);
  }

  /** The EMA stays inside every interval that holds the prices seen so far. */
  lemma {:induction false} EmaBounds(prices: seq<real>, period: nat, i: nat, lo: real, hi: real)
    requires 0 < period <= i + 1 <= |prices|
    requires forall j | 0 <= j <= i :: lo <= prices[j] <= hi
    ensures lo <= EmaFrom(prices, period, i) <= hi
  {
    if i + 1 == period {
      MeanBounds(prices[..period], lo, hi);
    } else {
      EmaBounds(prices, period, i - 1, lo, hi);
      EmaStepBounds(EmaFrom(prices, period, i - 1), prices[i], period, lo, hi);
    }
  }

  /** A Wilder average stays inside every interval that holds the terms seen so far. */
  lemma {:induction false} WilderBounds(xs: seq<real>, period: nat, i: nat, lo: real, hi: real)
    requires 0 < period <= i <= |xs|
    requires forall j | 0 <= j < i :: lo <= xs[j] <= hi
    ensures lo <= Wilder(xs, period, i) <= hi
  {
    if i == period {
      MeanBounds(xs[..period], lo, hi);
    } else {
      WilderBounds(xs, period, i - 1, lo, hi);
      WilderStepBounds(Wilder(xs, period, i - 1), xs[i - 1], period, lo, hi);
    }
  }

  lemma {:induction false} WilderNonNegative(xs: seq<real>, period: nat, i: nat)
    requires 0 < period <= i <= |xs|
    requires forall j | 0 <= j < |xs| :: xs[j] >= 0.0
    ensures Wilder(xs, period, i) >= 0.0
  {
    if i == period {
      SumBoundsBelow(xs[..period]);
      QuotientOrder(0.0, 1.0, Sum(xs[..period]), period as real);
    } else {
      WilderNonNegative(xs, period, i - 1);
      QuotientOrder(0.0, 1.0, Wilder(xs, period, i - 1) * (period - 1) as real + xs[i - 1], period as real);
    }
  }

  /** Prices seen up to bar i, or true ranges seen up to bar i for ATR. */
  ghost predicate Bracketed(ref: IndicatorRef, candles: seq<Candle>, i: nat, lo: real, hi: real)
    requires i < |candles|
  {
    if ref.kind.Atr? then forall j | 0 <= j < i :: lo <= TrueRange(candles[j], candles[j + 1]) <= hi
    else forall j | 0 <= j <= i :: lo <= Price(candles[j], ref.source) <= hi
  }

  /** SMA and EMA lie between the extreme prices seen; ATR between the extreme true ranges. */
  lemma IndicatorBounds(ref: IndicatorRef, candles: seq<Candle>, i: nat, lo: real, hi: real)
    requires i < |candles| && ValueAt(ref, candles, i).Some?
    requires ref.kind.Sma? || ref.kind.Ema? || ref.kind.Atr?
    requires Bracketed(ref, candles, i, lo, hi)
    ensures lo <= ValueAt(ref, candles, i).value <= hi
  {
    hide Wilder, EmaFrom, Mean, TrueRange, Price;
    var prices := Prices(candles, ref.source);
    assert !ref.kind.Atr? ==> forall j | 0 <= j <= i :: lo <= prices[j] <= hi;
    match ref.kind
    case Sma => MeanBounds(prices[i + 1 - ref.period..i + 1], lo, hi);
    case Ema => EmaBounds(prices, ref.period, i, lo, hi);
    case Atr => WilderBounds(TrueRanges(candles), ref.period, i, lo, hi);
  }

  lemma RsiRatio(g: real, l: real)
    requires g >= 0.0 && l >= 0.0 && g + l > 0.0
    ensures RsiFromAvgs(g, l) == 100.0 * (g / (g + l))
    ensures 0.0 <= RsiFromAvgs(g, l) <= 100.0
  {}

  function Reflect(prices: seq<real>, c: real): seq<real> {
    seq(|prices|, i requires 0 <= i < |prices| => c - prices[i])
  }

  /** RSI lies in [0, 100]. */
  lemma RsiRange(prices: seq<real>, period: nat, i: nat)
    requires 0 < period <= i < |prices|
    ensures RsiAt(prices, period, i).Some? && 0.0 <= RsiAt(prices, period, i).value <= 100.0
  {
    WilderNonNegative(Gains(prices), period, i);
    WilderNonNegative(Losses(prices), period, i);
    var g, l := Wilder(Gains(prices), period, i), Wilder(Losses(prices), period, i);
    if g + l > 0.0 { RsiRatio(g, l); }
  }

  lemma RsiMirror(g: real, l: real)
    requires g >= 0.0 && l >= 0.0
    ensures RsiFromAvgs(g, l) + RsiFromAvgs(l, g) == 100.0 <==> !(g == 0.0 && l == 0.0)
  {}

  /** Reflecting the price series turns RSI into 100 - RSI exactly when the market moved at all. */
  lemma RsiReflection(prices: seq<real>, c: real, period: nat, i: nat)
    requires 0 < period <= i < |prices|
    ensures var r := RsiAt(prices, period, i).value;
            var m := RsiAt(Reflect(prices, c), period, i).value;
            r + m == 100.0 <==>
            !(Wilder(Gains(prices), period, i) == 0.0 && Wilder(Losses(prices), period, i) == 0.0)
  {
    hide RsiFromAvgs, Wilder;
    var mirror := Reflect(prices, c);
    assert Gains(mirror) == Losses(prices) && Losses(mirror) == Gains(prices);
    WilderNonNegative(Gains(prices), period, i);
    WilderNonNegative(Losses(prices), period, i);
    RsiMirror(Wilder(Gains(prices), period, i), Wilder(Losses(prices), period, i));
  }

  // ----- the column loops ------------------------------------------------------------------

  method ComputeSma(prices: seq<real>, period: nat) returns (series: Series)
    requires period > 0
    ensures |series| == |prices|
    ensures forall i {:trigger series[i]} | 0 <= i < |prices| :: series[i] == SmaAt(prices, period, i)
  {
    series := seq(|prices|, i requires 0 <= i < |prices| => SmaAt(prices, period, i));
  }

  method ComputeEma(prices: seq<real>, period: nat) returns (series: Series)
    requires period > 0
    ensures |series| == |prices|
    ensures forall i {:trigger series[i]} | 0 <= i < |prices| :: series[i] == EmaAt(prices, period, i)
  {
    var n := |prices|;
    var out := new Option<real>[n](_ => None);
    if n < period { return out[..]; }
    var prev := Mean(prices[..period]);
    out[period - 1] := Some(prev);
    for i := period to n
      invariant prev == EmaFrom(prices, period, i - 1)
      invariant forall k {:trigger out[k]} | 0 <= k < i :: out[k] == EmaAt(prices, period, k)
      invariant forall k | i <= k < n :: out[k] == None
    {
      prev := EmaStep(prev, prices[i], period);
      out[i] := Some(prev);
    }
    return out[..];
  }

  method ComputeRsi(prices: seq<real>, period: nat) returns (series: Series)
    requires period > 0
    ensures |series| == |prices|
    ensures forall i {:trigger series[i]} | 0 <= i < |prices| :: series[i] == RsiAt(prices, period, i)
  {
    series := SmoothRsi(|prices|, Gains(prices), Losses(prices), period);
  }

  method SmoothRsi(n: nat, gains: seq<real>, losses: seq<real>, period: nat) returns (series: Series)
    requires period > 0 && (n > 0 ==> |gains| == |losses| == n - 1)
    ensures |series| == n
    ensures forall i {:trigger series[i]} | 0 <= i < n ::
              series[i] == (if i < period then None else
                            Some(RsiFromAvgs(Wilder(gains, period, i), Wilder(losses, period, i))))
  {
    hide Mean, RsiFromAvgs, WilderStep;
    var out := new Option<real>[n](_ => None);
    if n < period + 1 { return out[..]; }
    var avgGain, avgLoss := Mean(gains[..period]), Mean(losses[..period]);
    out[period] := Some(RsiFromAvgs(avgGain, avgLoss));
    for i := period + 1 to n
      invariant avgGain == Wilder(gains, period, i - 1) && avgLoss == Wilder(losses, period, i - 1)
      invariant forall k | 0 <= k < period :: out[k] == None
      invariant forall k {:trigger out[k]} | period <= k < i ::
                  out[k] == Some(RsiFromAvgs(Wilder(gains, period, k), Wilder(losses, period, k)))
    {
      avgGain := WilderStep(avgGain, gains[i - 1], period);
      avgLoss := WilderStep(avgLoss, losses[i - 1], period);
      out[i] := Some(RsiFromAvgs(avgGain, avgLoss));
    }
    return out[..];
  }

  method ComputeAtr(candles: seq<Candle>, period: nat) returns (series: Series)
    requires period > 0
    ensures |series| == |candles|
    ensures forall i {:trigger series[i]} | 0 <= i < |candles| :: series[i] == AtrAt(candles, period, i)
  {
    series := SmoothAtr(|candles|, TrueRanges(candles), period);
  }

  method SmoothAtr(n: nat, ranges: seq<real>, period: nat) returns (series: Series)
    requires period > 0 && (n > 0 ==> |ranges| == n - 1)
    ensures |series| == n
    ensures forall i {:trigger series[i]} | 0 <= i < n ::
              series[i] == (if i < period then None else Some(Wilder(ranges, period, i)))
  {
    hide Mean, WilderStep;
    var out := new Option<real>[n](_ => None);
    if n < period + 1 { return out[..]; }
    var prevAtr := Mean(ranges[..period]);
    out[period] := Some(prevAtr);
    for i := period + 1 to n
      invariant prevAtr == Wilder(ranges, period, i - 1)
      invariant forall k | 0 <= k < period :: out[k] == None
      invariant forall k {:trigger out[k]} | period <= k < i :: out[k] == Some(Wilder(ranges, period, k))
    {
      prevAtr := WilderStep(prevAtr, ranges[i - 1], period);
      out[i] := Some(prevAtr);
    }
    return out[..];
  }

  method Compute(ref: IndicatorRef, candles: seq<Candle>) returns (series: Series)
    requires Constructible(ref)
    ensures IsColumn(ref, candles, series)
  {
    var prices := Prices(candles, ref.source);
    match ref.kind
    case Sma => series := ComputeSma(prices, ref.period);
    case Ema => series := ComputeEma(prices, ref.period);
    case Rsi => series := ComputeRsi(prices, ref.period);
    case Atr => series := ComputeAtr(candles, ref.period);
    case Macd =>
      var fast := ComputeEma(prices, MACD_FAST);
      var slow := ComputeEma(prices, ref.period);
      series := seq(|candles|, i requires 0 <= i < |candles| =>
        if fast[i].Some? && slow[i].Some? then Some(fast[i].value - slow[i].value) else None);
    case Volume =>
      series := seq(|candles|, i requires 0 <= i < |candles| => Some(candles[i].volume));
  }

  // ----- one column per distinct reference -------------------------------------------------

  function RefsOf(conditions: seq<Condition>): seq<IndicatorRef> {
    if conditions == [] then []
    else
      var c := conditions[|conditions| - 1];
      RefsOf(conditions[..|conditions| - 1]) + [c.lhs] + (if c.rhs.Ref? then [c.rhs.ref] else [])
  }

  lemma {:induction false} RefsOfMember(conditions: seq<Condition>, k: nat)
    requires k < |conditions|
    ensures conditions[k].lhs in RefsOf(conditions)
    ensures conditions[k].rhs.Ref? ==> conditions[k].rhs.ref in RefsOf(conditions)
  {
    if k < |conditions| - 1 {
      RefsOfMember(conditions[..|conditions| - 1], k);
    }
  }

  function AllRefs(spec: StrategySpec): seq<IndicatorRef> {
    RefsOf(spec.entry.conditions) + RefsOf(spec.exit.conditions)
  }

  function Column(ref: IndicatorRef, candles: seq<Candle>): Series {
    seq(|candles|, i requires 0 <= i < |candles| => ValueAt(ref, candles, i))
  }

  type Columns = map<IndicatorRef, Series>

  /** One column of reference values for each indicator the strategy mentions. */
  function ReferenceColumns(spec: StrategySpec, candles: seq<Candle>): Columns {
    map ref: IndicatorRef | ref in AllRefs(spec) :: Column(ref, candles)
  }

  /** One computation per distinct reference; fails when a reference cannot be constructed. */
  method ComputeAll(spec: StrategySpec, candles: seq<Candle>) returns (r: Result<Columns, IndicatorRef>)
    ensures r.Ok? <==> forall ref | ref in AllRefs(spec) :: ref.kind.Macd? ==> ref.period > 12
    ensures r.Ok? ==> r.value == ReferenceColumns(spec, candles)
    ensures r.Err? ==> r.error in AllRefs(spec) && r.error.kind.Macd? && r.error.period <= 12
  {
    hide ValueAt;
    var refs := AllRefs(spec);
    var unique: Columns := map[];
    for k := 0 to |refs|
      invariant forall j | 0 <= j < k :: refs[j] in unique
      invariant forall ref | ref in unique ::
                  ref in refs && Constructible(ref) && unique[ref] == Column(ref, candles)
    {
      var ref := refs[k];
      if ref !in unique {
        if !Constructible(ref) { return Err(ref); }
        var column := Compute(ref, candles);
        assert column == Column(ref, candles);
        unique := unique[ref := column];
      }
    }
    forall ref | ref in refs ensures ref in unique {
      var j :| 0 <= j < |refs| && refs[j] == ref;
    }
    assert unique.Keys == ReferenceColumns(spec, candles).Keys;
    return Ok(unique);
  }
}
