/** Swing pivots and the support and resistance levels made of them. */
module Pivots {
  import opened Clustering
  import opened Strategy

  datatype Confidence = LowConfidence | MediumConfidence | HighConfidence

  datatype Findings = Findings(supports: seq<real>, resistances: seq<real>, pivotsFound: nat, barsUsed: nat,
                               confidence: Confidence)

  const HIGH_CONFIDENCE_BARS := 20

  function Value(b: Candle, top: bool): real {
    if top then b.high else b.low
  }

  predicate Beyond(a: Candle, b: Candle, top: bool) {
    if top then a.high > b.high else a.low < b.low
  }

  /** Strictly beyond every neighbour within the window. */
  predicate IsPivot(bars: seq<Candle>, w: nat, i: nat, top: bool)
    requires w <= i && i + w < |bars|
  {
    forall j | i - w <= j <= i + w && j != i :: Beyond(bars[i], bars[j], top)
  }

  /** The pivots among the bars w, ..., n - 1. */
  function PivotsBelow(bars: seq<Candle>, w: nat, n: nat, top: bool): (r: seq<nat>)
    requires n + w <= |bars|
    ensures forall k | 0 <= k < |r| :: w <= r[k] < n && IsPivot(bars, w, r[k], top)
    ensures forall k, m | 0 <= k < m < |r| :: r[k] < r[m]
  {
    if n <= w then []
    else
      var before := PivotsBelow(bars, w, n - 1, top);
      if IsPivot(bars, w, n - 1, top) then before + [n - 1] else before
  }

  function Values(bars: seq<Candle>, at: seq<nat>, top: bool): (r: seq<real>)
    requires forall k | 0 <= k < |at| :: at[k] < |bars|
    ensures |r| == |at| && forall k | 0 <= k < |at| :: r[k] == Value(bars[at[k]], top)
  {
    if at == [] then [] else Values(bars, at[..|at| - 1], top) + [Value(bars[at[|at| - 1]], top)]
  }

  function RawBelow(bars: seq<Candle>, w: nat, n: nat, top: bool): seq<real>
    requires n + w <= |bars|
  {
    Values(bars, PivotsBelow(bars, w, n, top), top)
  }

  function RawLevels(bars: seq<Candle>, w: nat, top: bool): seq<real> {
    if |bars| < w then [] else RawBelow(bars, w, |bars| - w, top)
  }

  // ----- sorting ---------------------------------------------------------------------------

  function Insert(x: real, xs: seq<real>, ascending: bool): seq<real> {
    if xs == [] || (if ascending then x <= xs[0] else x >= xs[0]) then [x] + xs
    else [xs[0]] + Insert(x, xs[1..], ascending)
  }

  function Sort(xs: seq<real>, ascending: bool): seq<real> {
    if xs == [] then [] else Insert(xs[|xs| - 1], Sort(xs[..|xs| - 1], ascending), ascending)
  }

  lemma {:induction false} InsertAdds(x: real, xs: seq<real>, ascending: bool)
    ensures multiset(Insert(x, xs, ascending)) == multiset(xs) + multiset{x}
  {
    if xs != [] {
      assert xs == [xs[0]] + xs[1..];
      InsertAdds(x, xs[1..], ascending);
    }
  }

  lemma {:induction false} InsertOrders(x: real, xs: seq<real>, ascending: bool)
    requires Ordered(xs, ascending)
    ensures Ordered(Insert(x, xs, ascending), ascending)
    ensures Insert(x, xs, ascending) != []
    ensures Insert(x, xs, ascending)[0] == x || (xs != [] && Insert(x, xs, ascending)[0] == xs[0])
  {
    if xs != [] { InsertOrders(x, xs[1..], ascending); }
  }

  lemma {:induction false} SortKeeps(xs: seq<real>, ascending: bool)
    ensures multiset(Sort(xs, ascending)) == multiset(xs) && Ordered(Sort(xs, ascending), ascending)
  {
    hide Insert, Ordered;
    if xs == [] {
      assert Ordered([], ascending) by { NothingOrdered(ascending); }
    } else {
      var init := xs[..|xs| - 1];
      SortKeeps(init, ascending);
      InsertAdds(xs[|xs| - 1], Sort(init, ascending), ascending);
      InsertOrders(xs[|xs| - 1], Sort(init, ascending), ascending);
      assert xs == init + [xs[|xs| - 1]];
    }
  }

  lemma NothingOrdered(ascending: bool)
    ensures Ordered([], ascending)
  {}

  // ----- the analysis ----------------------------------------------------------------------

  function Levels(bars: seq<Candle>, w: nat, clusterPct: real, top: bool): seq<real> {
    LevelsOf(Sort(RawLevels(bars, w, top), !top), clusterPct / 100.0)
  }

  function ConfidenceOf(supports: seq<real>, resistances: seq<real>, bars: nat): Confidence {
    if supports != [] && resistances != [] && bars >= HIGH_CONFIDENCE_BARS then HighConfidence
    else if supports != [] || resistances != [] then MediumConfidence
    else LowConfidence
  }

  method Analyze(bars: seq<Candle>, window: nat, clusterPct: real) returns (f: Findings)
    ensures f.supports == Levels(bars, window, clusterPct, false)
    ensures f.resistances == Levels(bars, window, clusterPct, true)
    ensures f.pivotsFound == |RawLevels(bars, window, false)| + |RawLevels(bars, window, true)|
    ensures f.barsUsed == |bars|
    ensures f.confidence == HighConfidence <==> f.supports != [] && f.resistances != [] && |bars| >= 20
    ensures f.confidence == LowConfidence <==> f.supports == [] && f.resistances == []
  {
    hide RawLevels, LevelsOf, Sort;
    if |bars| < 2 * window + 1 {
      TooShort(bars, window, clusterPct);
      return Findings([], [], 0, |bars|, LowConfidence);
    }
    var rawSupports, rawResistances := FindPivots(bars, window);
    var supports := Cluster(Sort(rawSupports, true), clusterPct);
    var resistances := Cluster(Sort(rawResistances, false), clusterPct);
    f := Findings(supports, resistances, |rawSupports| + |rawResistances|, |bars|,
                  ConfidenceOf(supports, resistances, |bars|));
  }

  method FindPivots(bars: seq<Candle>, window: nat) returns (rawSupports: seq<real>, rawResistances: seq<real>)
    requires |bars| >= 2 * window + 1
    ensures rawSupports == RawLevels(bars, window, false) && rawResistances == RawLevels(bars, window, true)
  {
    hide IsPivot, Value, RawBelow;
    rawSupports, rawResistances := [], [];
    var i := window;
    RawStart(bars, window);
    while i < |bars| - window
      invariant window <= i <= |bars| - window
      invariant rawResistances == RawBelow(bars, window, i, true)
      invariant rawSupports == RawBelow(bars, window, i, false)
    {
      RawStep(bars, window, i, true);
      RawStep(bars, window, i, false);
      if IsPivot(bars, window, i, true) {
        rawResistances := rawResistances + [Value(bars[i], true)];
      }
      if IsPivot(bars, window, i, false) {
        rawSupports := rawSupports + [Value(bars[i], false)];
      }
      i := i + 1;
    }
  }

  lemma RawStart(bars: seq<Candle>, w: nat)
    requires 2 * w <= |bars|
    ensures RawBelow(bars, w, w, true) == RawBelow(bars, w, w, false) == []
  {}

  lemma RawStep(bars: seq<Candle>, w: nat, i: nat, top: bool)
    requires w <= i && i + w < |bars|
    ensures RawBelow(bars, w, i + 1, top) ==
            if IsPivot(bars, w, i, top) then RawBelow(bars, w, i, top) + [Value(bars[i], top)]
            else RawBelow(bars, w, i, top)
  {}

  /** A series shorter than one window has no pivot. */
  lemma TooShort(bars: seq<Candle>, w: nat, clusterPct: real)
    requires |bars| < 2 * w + 1
    ensures RawLevels(bars, w, true) == RawLevels(bars, w, false) == []
    ensures Levels(bars, w, clusterPct, true) == Levels(bars, w, clusterPct, false) == []
    ensures ConfidenceOf([], [], |bars|) == LowConfidence
  {}

  /** The scan finds exactly the pivots that have a full window on both sides. */
  lemma {:induction false} PivotsComplete(bars: seq<Candle>, w: nat, n: nat, top: bool, i: nat)
    requires n + w <= |bars| && w <= i < n
    ensures i in PivotsBelow(bars, w, n, top) <==>
            forall j | i - w <= j <= i + w && j != i ::
              if top then bars[j].high < bars[i].high else bars[i].low < bars[j].low
  {
    if i < n - 1 {
      PivotsComplete(bars, w, n - 1, top, i);
    } else if !IsPivot(bars, w, i, top) {
      assert forall k | 0 <= k < |PivotsBelow(bars, w, n, top)| :: PivotsBelow(bars, w, n, top)[k] < n - 1;
    }
  }

  /** The raw levels are the highs, or the lows, of the pivots, in the order of the bars. */
  lemma RawExact(bars: seq<Candle>, w: nat, top: bool)
    requires |bars| >= w
    ensures var at, raw := PivotsBelow(bars, w, |bars| - w, top), RawLevels(bars, w, top);
            && |raw| == |at| && (forall k | 0 < k < |at| :: at[k - 1] < at[k])
            && forall k | 0 <= k < |raw| :: raw[k] == if top then bars[at[k]].high else bars[at[k]].low
  {
    hide IsPivot;
  }

  /** Two pivots of a kind are more than a window apart. */
  lemma PivotsApart(bars: seq<Candle>, w: nat, i: nat, j: nat, top: bool)
    requires w <= i < j && j + w < |bars| && IsPivot(bars, w, i, top) && IsPivot(bars, w, j, top)
    ensures j - i > w
  {
    NotBoth(bars[i], bars[j], top);
  }

  lemma NotBoth(a: Candle, b: Candle, top: bool)
    ensures !(Beyond(a, b, top) && Beyond(b, a, top))
  {}

  /** So a series holds at most one pivot of a kind per window and one bar. */
  lemma {:induction false} PivotsAreFew(bars: seq<Candle>, w: nat, n: nat, top: bool, k: nat)
    requires n + w <= |bars| && k < |PivotsBelow(bars, w, n, top)|
    ensures w + k * (w + 1) <= PivotsBelow(bars, w, n, top)[k] < n
  {
    var at := PivotsBelow(bars, w, n, top);
    if k > 0 {
      PivotsAreFew(bars, w, n, top, k - 1);
      PivotsApart(bars, w, at[k - 1], at[k], top);
      assert k * (w + 1) == (k - 1) * (w + 1) + (w + 1);
    }
  }

  lemma SameElements(a: seq<real>, b: seq<real>)
    requires multiset(a) == multiset(b)
    ensures NonNegative(b) ==> NonNegative(a)
    ensures Positive(b) ==> Positive(a)
  {
    forall i | 0 <= i < |a| ensures a[i] in b {
      assert a[i] in multiset(a);
      assert a[i] in multiset(b);
    }
  }

  lemma PositiveHasNoZero(levels: seq<real>)
    requires Positive(levels)
    ensures AtMostOneZero(levels)
  {}

  /** Every raw level is the price of some bar. */
  lemma RawAt(bars: seq<Candle>, w: nat, top: bool, k: nat) returns (i: nat)
    requires k < |RawLevels(bars, w, top)|
    ensures i < |bars| && RawLevels(bars, w, top)[k] == Value(bars[i], top)
  {
    hide IsPivot, Value;
    i := PivotsBelow(bars, w, |bars| - w, top)[k];
  }

  lemma RawSigns(bars: seq<Candle>, w: nat, top: bool)
    ensures (forall i | 0 <= i < |bars| :: Value(bars[i], top) >= 0.0) ==> NonNegative(RawLevels(bars, w, top))
    ensures (forall i | 0 <= i < |bars| :: Value(bars[i], top) > 0.0) ==> Positive(RawLevels(bars, w, top))
  {
    hide RawLevels, Value;
    var raw := RawLevels(bars, w, top);
    forall k | 0 <= k < |raw| ensures exists i :: 0 <= i < |bars| && raw[k] == Value(bars[i], top) {
      var i := RawAt(bars, w, top, k);
    }
  }

  /**
   Every pivot counts in exactly one cluster.  With positive prices and a width that is not negative the
   levels come out strictly ordered: supports upwards, resistances downwards.  With prices that may be
   zero they do exactly under the condition on the sorted pivots.
   */
  lemma LevelsSound(bars: seq<Candle>, w: nat, clusterPct: real, top: bool)
    requires forall i | 0 <= i < |bars| :: Value(bars[i], top) >= 0.0
    ensures var raw, pct := RawLevels(bars, w, top), clusterPct / 100.0; var sorted := Sort(raw, !top);
            && multiset(Flatten(Clusters(sorted, pct))) == multiset(raw)
            && (StrictlyOrdered(Levels(bars, w, clusterPct, top), !top) <==>
                  StrictlyOrdered(sorted, !top) ||
                  (pct >= 0.0 && (AtMostOneZero(sorted) || ZerosSwallowed(sorted, pct, !top))))
            && (clusterPct >= 0.0 && (forall i | 0 <= i < |bars| :: Value(bars[i], top) > 0.0) ==>
                  StrictlyOrdered(Levels(bars, w, clusterPct, top), !top))
  {
    hide LevelsOf, Clusters, Flatten, Sort, StrictlyOrdered, RawLevels, Positive, NonNegative, Ordered, AtMostOneZero,
         ZerosSwallowed, Value;
    var raw, pct := RawLevels(bars, w, top), clusterPct / 100.0;
    var sorted := Sort(raw, !top);
    RawSigns(bars, w, top);
    SortKeeps(raw, !top);
    SameElements(sorted, raw);
    MeansOrderedExact(sorted, pct, !top);
    ClustersPartition(sorted, pct);
    if Positive(sorted) { PositiveHasNoZero(sorted); }
  }
}
