/**
 Support and resistance: swing pivots, and the greedy clustering of their levels.

 The clustering loop looks only at the anchor of the newest cluster.  On ordered positive levels
 that is optimal: no grouping under the same width condition, contiguous or not, has fewer groups.
 */
module Clustering {
  import opened Base

  // ----- the greedy loop -------------------------------------------------------------------

  /** A zero anchor takes nobody in. */
  predicate Joins(anchor: real, level: real, pct: real) {
    anchor != 0.0 && Abs(level - anchor) / anchor <= pct
  }

  /** A positive anchor takes in the levels between its two percentages; a zero anchor none. */
  lemma JoinsExact(anchor: real, level: real, pct: real)
    requires anchor >= 0.0
    ensures Joins(anchor, level, pct) <==>
            anchor > 0.0 && anchor * (1.0 - pct) <= level <= anchor * (1.0 + pct)
  {
    if anchor > 0.0 {
      var gap := Abs(level - anchor);
      QuotientOrder(gap, anchor, pct, 1.0);
      assert anchor * (1.0 - pct) == anchor - pct * anchor && anchor * (1.0 + pct) == anchor + pct * anchor;
    }
  }

  predicate NoneEmpty(groups: seq<seq<real>>) {
    forall k | 0 <= k < |groups| :: groups[k] != []
  }

  function Extend(groups: seq<seq<real>>, level: real, pct: real): (r: seq<seq<real>>)
    requires NoneEmpty(groups)
    ensures NoneEmpty(r)
  {
    var last := |groups| - 1;
    if last >= 0 && Joins(groups[last][0], level, pct) then groups[last := groups[last] + [level]]
    else groups + [[level]]
  }

  /** The clusters of the first n levels. */
  function Groups(levels: seq<real>, n: nat, pct: real): (r: seq<seq<real>>)
    requires n <= |levels|
    ensures NoneEmpty(r)
  {
    if n == 0 then [] else Extend(Groups(levels, n - 1, pct), levels[n - 1], pct)
  }

  function Clusters(levels: seq<real>, pct: real): (r: seq<seq<real>>)
    ensures NoneEmpty(r)
  {
    Groups(levels, |levels|, pct)
  }

  function Means(groups: seq<seq<real>>, n: nat): (r: seq<real>)
    requires NoneEmpty(groups) && n <= |groups|
    ensures |r| == n && forall p | 0 <= p < n :: r[p] == Mean(groups[p])
  {
    if n == 0 then [] else Means(groups, n - 1) + [Mean(groups[n - 1])]
  }

  function LevelsOf(levels: seq<real>, pct: real): seq<real> {
    var groups := Clusters(levels, pct);
    Means(groups, |groups|)
  }

  method Cluster(levels: seq<real>, clusterPct: real) returns (means: seq<real>)
    ensures means == LevelsOf(levels, clusterPct / 100.0)
  {
    if levels == [] { return []; }
    var pct := clusterPct / 100.0;
    var clusters := Grow(levels, pct);
    means := [];
    hide Clusters, Mean;
    for i := 0 to |clusters|
      invariant means == Means(clusters, i)
    {
      means := means + [Mean(clusters[i])];
    }
  }

  /** The greedy pass: each level extends the newest cluster or opens a new one. */
  method Grow(levels: seq<real>, pct: real) returns (clusters: seq<seq<real>>)
    requires levels != []
    ensures clusters == Clusters(levels, pct)
  {
    clusters := [[levels[0]]];
    FirstCluster(levels, pct);
    hide Groups, NoneEmpty;
    for i := 1 to |levels|
      invariant clusters == Groups(levels, i, pct) && clusters != [] && NoneEmpty(clusters)
    {
      NextGroups(levels, i, pct);
      var level := levels[i];
      var newest := |clusters| - 1;
      NewestFull(clusters);
      var anchor := clusters[newest][0];
      if anchor == 0.0 {
        clusters := clusters + [[level]];
      } else if Abs(level - anchor) / anchor <= pct {
        clusters := clusters[newest := clusters[newest] + [level]];
      } else {
        clusters := clusters + [[level]];
      }
    }
  }

  lemma FirstCluster(levels: seq<real>, pct: real)
    requires levels != []
    ensures Groups(levels, 1, pct) == [[levels[0]]]
  {
    assert Groups(levels, 0, pct) == [];
  }

  lemma NextGroups(levels: seq<real>, i: nat, pct: real)
    requires i < |levels|
    ensures Groups(levels, i + 1, pct) == Extend(Groups(levels, i, pct), levels[i], pct)
            && NoneEmpty(Groups(levels, i + 1, pct))
  {}

  lemma NewestFull(groups: seq<seq<real>>)
    requires NoneEmpty(groups) && groups != []
    ensures groups[|groups| - 1] != []
  {}

  // ----- shape -----------------------------------------------------------------------------

  function Flatten(groups: seq<seq<real>>): seq<real> {
    if groups == [] then [] else Flatten(groups[..|groups| - 1]) + groups[|groups| - 1]
  }

  lemma FlattenExtend(groups: seq<seq<real>>, level: real, pct: real)
    requires NoneEmpty(groups)
    ensures Flatten(Extend(groups, level, pct)) == Flatten(groups) + [level]
  {}

  lemma {:induction false} GroupsPartition(levels: seq<real>, n: nat, pct: real)
    requires n <= |levels|
    ensures Flatten(Groups(levels, n, pct)) == levels[..n]
  {
    if n > 0 {
      GroupsPartition(levels, n - 1, pct);
      FlattenExtend(Groups(levels, n - 1, pct), levels[n - 1], pct);
      assert levels[..n] == levels[..n - 1] + [levels[n - 1]];
    }
  }

  /** The clusters concatenate to the levels: nothing is lost, doubled or reordered. */
  lemma ClustersPartition(levels: seq<real>, pct: real)
    ensures Flatten(Clusters(levels, pct)) == levels
  {
    GroupsPartition(levels, |levels|, pct);
    assert levels[..|levels|] == levels;
  }

  /** Where each cluster of the first n levels starts. */
  function Anchors(levels: seq<real>, n: nat, pct: real): (r: seq<nat>)
    requires n <= |levels|
    ensures WellPlaced(n, r)
  {
    if n == 0 then []
    else
      var before := Anchors(levels, n - 1, pct);
      var last := |before| - 1;
      if last >= 0 && Joins(levels[before[last]], levels[n - 1], pct) then before else before + [n - 1]
  }

  predicate WellPlaced(n: nat, anchors: seq<nat>) {
    && (forall p | 0 <= p < |anchors| :: anchors[p] < n)
    && (forall p, q | 0 <= p < q < |anchors| :: anchors[p] < anchors[q])
    && (n > 0 ==> anchors != [] && anchors[0] == 0)
  }

  function End(n: nat, anchors: seq<nat>, p: nat): nat {
    if p + 1 < |anchors| then anchors[p + 1] else n
  }

  ghost predicate Takes(levels: seq<real>, lo: nat, hi: nat, pct: real)
    requires lo < hi <= |levels|
  {
    forall k | lo < k < hi :: Joins(levels[lo], levels[k], pct)
  }

  /** Members join their anchor; the level that starts the next cluster does not. */
  ghost predicate GreedyAt(levels: seq<real>, n: nat, anchors: seq<nat>, p: nat, pct: real)
    requires n <= |levels| && WellPlaced(n, anchors) && p < |anchors|
  {
    && Takes(levels, anchors[p], End(n, anchors, p), pct)
    && (p + 1 < |anchors| ==> !Joins(levels[anchors[p]], levels[anchors[p + 1]], pct))
  }

  ghost predicate Greedy(levels: seq<real>, n: nat, anchors: seq<nat>, pct: real)
    requires n <= |levels| && WellPlaced(n, anchors)
  {
    forall p | 0 <= p < |anchors| :: GreedyAt(levels, n, anchors, p, pct)
  }

  lemma GreedyTakesIn(levels: seq<real>, n: nat, anchors: seq<nat>, pct: real)
    requires n < |levels| && WellPlaced(n, anchors) && Greedy(levels, n, anchors, pct)
    requires anchors != [] && Joins(levels[anchors[|anchors| - 1]], levels[n], pct)
    ensures WellPlaced(n + 1, anchors) && Greedy(levels, n + 1, anchors, pct)
  {
    hide Joins;
    var more := n + 1;
    forall p | 0 <= p < |anchors| ensures GreedyAt(levels, more, anchors, p, pct) {
      assert GreedyAt(levels, n, anchors, p, pct);
    }
  }

  lemma GreedyOpens(levels: seq<real>, n: nat, anchors: seq<nat>, pct: real)
    requires n < |levels| && WellPlaced(n, anchors) && Greedy(levels, n, anchors, pct)
    requires anchors != [] ==> !Joins(levels[anchors[|anchors| - 1]], levels[n], pct)
    ensures WellPlaced(n + 1, anchors + [n]) && Greedy(levels, n + 1, anchors + [n], pct)
  {
    hide Joins;
    var more, longer := n + 1, anchors + [n];
    forall p | 0 <= p < |longer| ensures GreedyAt(levels, more, longer, p, pct) {
      if p < |anchors| { assert GreedyAt(levels, n, anchors, p, pct); }
    }
  }

  lemma {:induction false} AnchorsGreedy(levels: seq<real>, n: nat, pct: real)
    requires n <= |levels|
    ensures Greedy(levels, n, Anchors(levels, n, pct), pct)
  {
    hide Joins, Greedy, WellPlaced;
    if n == 0 {
      NothingIsGreedy(levels, pct);
    } else {
      AnchorsGreedy(levels, n - 1, pct);
      var before := Anchors(levels, n - 1, pct);
      WellPlacedBounds(n - 1, before);
      if before != [] && Joins(levels[before[|before| - 1]], levels[n - 1], pct) {
        GreedyTakesIn(levels, n - 1, before, pct);
      } else {
        GreedyOpens(levels, n - 1, before, pct);
      }
    }
  }

  lemma WellPlacedBounds(n: nat, anchors: seq<nat>)
    requires WellPlaced(n, anchors)
    ensures forall p | 0 <= p < |anchors| :: anchors[p] < n
  {}

  lemma NothingIsGreedy(levels: seq<real>, pct: real)
    ensures WellPlaced(0, []) && Greedy(levels, 0, [], pct)
  {}

  /** Each cluster is the slice from its anchor to the next. */
  ghost predicate IsCut(levels: seq<real>, n: nat, anchors: seq<nat>, groups: seq<seq<real>>)
    requires n <= |levels| && WellPlaced(n, anchors)
  {
    && |groups| == |anchors|
    && forall p | 0 <= p < |anchors| :: CutAt(levels, n, anchors, groups, p)
  }

  ghost predicate CutAt(levels: seq<real>, n: nat, anchors: seq<nat>, groups: seq<seq<real>>, p: nat)
    requires p < |anchors| == |groups|
  {
    IsSlice(levels, anchors[p], End(n, anchors, p), groups[p])
  }

  ghost predicate IsSlice(levels: seq<real>, lo: nat, hi: nat, group: seq<real>) {
    lo < hi <= |levels| && group == levels[lo..hi]
  }

  lemma SliceGrows(levels: seq<real>, lo: nat, n: nat, group: seq<real>)
    requires n < |levels| && IsSlice(levels, lo, n, group)
    ensures IsSlice(levels, lo, n + 1, group + [levels[n]])
  {}

  lemma PlacedNext(n: nat, anchors: seq<nat>)
    requires WellPlaced(n, anchors)
    ensures WellPlaced(n + 1, anchors + [n])
    ensures anchors != [] ==> WellPlaced(n + 1, anchors)
  {}

  lemma CutTakesIn(levels: seq<real>, n: nat, anchors: seq<nat>, groups: seq<seq<real>>)
    requires n < |levels| && WellPlaced(n, anchors) && IsCut(levels, n, anchors, groups) && anchors != []
    ensures var last := |groups| - 1;
            WellPlaced(n + 1, anchors) && IsCut(levels, n + 1, anchors, groups[last := groups[last] + [levels[n]]])
  {
    PlacedNext(n, anchors);
    hide IsSlice, WellPlaced;
    var last := |groups| - 1;
    var group := groups[last] + [levels[n]];
    var grown := groups[last := group];
    assert CutAt(levels, n, anchors, groups, last);
    SliceGrows(levels, anchors[last], n, groups[last]);
    var more := n + 1;
    forall p | 0 <= p < |anchors| ensures CutAt(levels, more, anchors, grown, p) {
      assert CutAt(levels, n, anchors, groups, p);
    }
  }

  lemma CutOpens(levels: seq<real>, n: nat, anchors: seq<nat>, groups: seq<seq<real>>)
    requires n < |levels| && WellPlaced(n, anchors) && IsCut(levels, n, anchors, groups)
    ensures WellPlaced(n + 1, anchors + [n]) && IsCut(levels, n + 1, anchors + [n], groups + [[levels[n]]])
  {
    assert IsSlice(levels, n, n + 1, [levels[n]]);
    PlacedNext(n, anchors);
    hide IsSlice, WellPlaced;
    var longer, grown := anchors + [n], groups + [[levels[n]]];
    var more := n + 1;
    forall p | 0 <= p < |longer| ensures CutAt(levels, more, longer, grown, p) {
      if p < |anchors| { assert CutAt(levels, n, anchors, groups, p); }
    }
  }

  lemma {:induction false} GroupsAreCut(levels: seq<real>, n: nat, pct: real)
    requires n <= |levels|
    ensures IsCut(levels, n, Anchors(levels, n, pct), Groups(levels, n, pct))
  {
    hide Joins, IsCut, WellPlaced;
    if n == 0 {
      NothingIsCut(levels);
    } else {
      GroupsAreCut(levels, n - 1, pct);
      var before, groups := Anchors(levels, n - 1, pct), Groups(levels, n - 1, pct);
      WellPlacedBounds(n - 1, before);
      CutLast(levels, n - 1, before, groups);
      if before != [] && Joins(levels[before[|before| - 1]], levels[n - 1], pct) {
        CutTakesIn(levels, n - 1, before, groups);
      } else {
        CutOpens(levels, n - 1, before, groups);
      }
    }
  }

  lemma CutLast(levels: seq<real>, n: nat, anchors: seq<nat>, groups: seq<seq<real>>)
    requires n <= |levels| && WellPlaced(n, anchors) && IsCut(levels, n, anchors, groups)
    ensures |groups| == |anchors|
    ensures anchors != [] ==> groups[|groups| - 1] != [] && groups[|groups| - 1][0] == levels[anchors[|anchors| - 1]]
  {
    if anchors != [] {
      var last := |anchors| - 1;
      assert CutAt(levels, n, anchors, groups, last);
    }
  }

  lemma NothingIsCut(levels: seq<real>)
    ensures WellPlaced(0, []) && IsCut(levels, 0, [], [])
  {}

  // ----- ordered levels --------------------------------------------------------------------

  predicate Ordered(levels: seq<real>, ascending: bool) {
    forall i, j | 0 <= i <= j < |levels| :: if ascending then levels[i] <= levels[j] else levels[i] >= levels[j]
  }

  predicate Positive(levels: seq<real>) {
    forall i | 0 <= i < |levels| :: levels[i] > 0.0
  }

  predicate NonNegative(levels: seq<real>) {
    forall i | 0 <= i < |levels| :: levels[i] >= 0.0
  }

  predicate Between(a: real, b: real, c: real) {
    a <= b <= c || a >= b >= c
  }

  /** A positive anchor that takes a level takes everything in between. */
  lemma JoinNearer(a: real, b: real, c: real, pct: real)
    requires a > 0.0 && Between(a, b, c) && Joins(a, c, pct)
    ensures Joins(a, b, pct)
  {
    QuotientOrder(Abs(b - a), a, Abs(c - a), a);
    MulMono(a, Abs(b - a), Abs(c - a));
  }

  /** Moving a positive anchor towards the level it takes keeps them joined. */
  lemma AnchorNearer(a: real, b: real, c: real, pct: real)
    requires a > 0.0 && b > 0.0 && c >= 0.0 && Between(a, b, c) && Joins(a, c, pct)
    ensures Joins(b, c, pct)
  {
    QuotientOrder(Abs(c - b), b, Abs(c - a), a);
    if a <= c {
      assert (c - b) * a <= (c - a) * b by { MulMono(c, a, b); }
    } else {
      assert (b - c) * a <= (a - c) * b by { MulMono(c, b, a); }
    }
  }

  lemma ZeroTakesNobody(level: real, pct: real)
    ensures !Joins(0.0, level, pct)
  {}

  /** A positive anchor takes a zero level exactly at a full width, and then it takes every smaller level. */
  lemma FullWidth(anchor: real, level: real, pct: real)
    requires anchor > 0.0
    ensures Joins(anchor, 0.0, pct) <==> pct >= 1.0
    ensures pct >= 1.0 && 0.0 <= level <= anchor ==> Joins(anchor, level, pct)
  {
    assert anchor / anchor == 1.0;
    if pct >= 1.0 && 0.0 <= level <= anchor {
      JoinNearer(anchor, level, 0.0, pct);
    }
  }

  /** No two anchors join, however far apart in the list. */
  lemma AnchorsApart(levels: seq<real>, pct: real, ascending: bool, p: nat, q: nat)
    requires Ordered(levels, ascending) && NonNegative(levels) && p < q < |Anchors(levels, |levels|, pct)|
    ensures var a := Anchors(levels, |levels|, pct); !Joins(levels[a[p]], levels[a[q]], pct)
  {
    hide Joins, Anchors;
    AnchorsGreedy(levels, |levels|, pct);
    var a := Anchors(levels, |levels|, pct);
    var next := p + 1;
    assert GreedyAt(levels, |levels|, a, p, pct);
    ZeroTakesNobody(levels[a[q]], pct);
    if Joins(levels[a[p]], levels[a[q]], pct) {
      assert a[p] < a[next] <= a[q];
      JoinNearer(levels[a[p]], levels[a[next]], levels[a[q]], pct);
    }
  }

  /** A descending list from a positive level at a full width is one cluster. */
  lemma OneCluster(levels: seq<real>, pct: real)
    requires Ordered(levels, false) && NonNegative(levels) && levels != [] && levels[0] > 0.0 && pct >= 1.0
    ensures |Clusters(levels, pct)| == 1
  {
    hide Joins, Anchors, Groups;
    GroupsAreCut(levels, |levels|, pct);
    var a := Anchors(levels, |levels|, pct);
    if |a| > 1 {
      AnchorsApart(levels, pct, false, 0, 1);
      FullWidth(levels[a[0]], levels[a[1]], pct);
    }
  }

  // ----- optimality ------------------------------------------------------------------------

  /** Labels 0..m-1 such that every member joins the first level of its class; classes need not be contiguous. */
  ghost predicate IsGrouping(levels: seq<real>, labels: seq<nat>, m: nat, pct: real) {
    && |labels| == |levels|
    && (forall i | 0 <= i < |labels| :: labels[i] < m)
    && (forall i, j | 0 <= i < j < |labels| && labels[i] == labels[j] && FirstOfClass(labels, i) ::
          Joins(levels[i], levels[j], pct))
  }

  ghost predicate FirstOfClass(labels: seq<nat>, i: nat)
    requires i < |labels|
  {
    forall k | 0 <= k < i :: labels[k] != labels[i]
  }

  lemma {:induction false} ClassHasFirst(labels: seq<nat>, i: nat) returns (f: nat)
    requires i < |labels|
    ensures f <= i && labels[f] == labels[i] && FirstOfClass(labels, f)
  {
    if k: nat :| k < i && labels[k] == labels[i] {
      f := ClassHasFirst(labels, k);
    } else {
      f := i;
    }
  }

  lemma SeveralClusters(levels: seq<real>, pct: real)
    requires Ordered(levels, false) && NonNegative(levels) && levels != [] && levels[0] > 0.0
    requires |Anchors(levels, |levels|, pct)| > 1
    ensures pct < 1.0
  {
    hide Anchors, Groups;
    GroupsAreCut(levels, |levels|, pct);
    if pct >= 1.0 { OneCluster(levels, pct); }
  }

  /** Nothing at or before one anchor takes a later anchor. */
  lemma NoneReaches(levels: seq<real>, pct: real, ascending: bool, p: nat, q: nat, f: nat)
    requires Ordered(levels, ascending) && NonNegative(levels) && p < q < |Anchors(levels, |levels|, pct)|
    requires f <= Anchors(levels, |levels|, pct)[p]
    ensures !Joins(levels[f], levels[Anchors(levels, |levels|, pct)[q]], pct)
  {
    hide Joins, Anchors;
    var i, j := Anchors(levels, |levels|, pct)[p], Anchors(levels, |levels|, pct)[q];
    AnchorsApart(levels, pct, ascending, p, q);
    ZeroTakesNobody(levels[j], pct);
    if levels[f] > 0.0 && levels[i] > 0.0 {
      if Joins(levels[f], levels[j], pct) { AnchorNearer(levels[f], levels[i], levels[j], pct); }
    } else if levels[f] > 0.0 {
      ZeroReached(levels, ascending, f, i);
      SeveralClusters(levels, pct);
      FullWidth(levels[f], levels[j], pct);
    }
  }

  lemma AnchorsInOwnClass(levels: seq<real>, pct: real, ascending: bool, labels: seq<nat>, m: nat, p: nat, q: nat)
    requires Ordered(levels, ascending) && NonNegative(levels) && IsGrouping(levels, labels, m, pct)
    requires p < q < |Anchors(levels, |levels|, pct)|
    ensures labels[Anchors(levels, |levels|, pct)[p]] != labels[Anchors(levels, |levels|, pct)[q]]
  {
    hide Joins, Anchors;
    var i, j := Anchors(levels, |levels|, pct)[p], Anchors(levels, |levels|, pct)[q];
    if labels[i] == labels[j] {
      var f := ClassHasFirst(labels, i);
      NoneReaches(levels, pct, ascending, p, q, f);
    }
  }

  /** Only a descending list leads from a positive level to a zero one, and nothing but zeros follows. */
  lemma ZeroReached(levels: seq<real>, ascending: bool, f: nat, j: nat)
    requires Ordered(levels, ascending) && NonNegative(levels) && f < j < |levels|
    requires levels[f] > 0.0 && levels[j] == 0.0
    ensures !ascending && levels[0] > 0.0 && forall k | j <= k < |levels| :: levels[k] == 0.0
  {
    var head := levels[0];
  }

  lemma {:induction false} Pigeonhole(xs: seq<nat>, m: nat)
    requires forall i | 0 <= i < |xs| :: xs[i] < m
    requires forall i, j | 0 <= i < j < |xs| :: xs[i] != xs[j]
    ensures |xs| <= m
    decreases m
  {
    if xs != [] {
      assert xs[0] < m;
      if k :| 0 <= k < |xs| && xs[k] == m - 1 {
        var rest := xs[..k] + xs[k + 1..];
        forall i | 0 <= i < |rest| ensures rest[i] == xs[if i < k then i else i + 1] {}
        Pigeonhole(rest, m - 1);
      } else {
        Pigeonhole(xs, m - 1);
      }
    }
  }

  /** No grouping that meets the width condition has fewer groups than the greedy loop makes. */
  lemma GreedyIsMinimal(levels: seq<real>, pct: real, ascending: bool, labels: seq<nat>, m: nat)
    requires Ordered(levels, ascending) && NonNegative(levels) && IsGrouping(levels, labels, m, pct)
    ensures |Clusters(levels, pct)| <= m
  {
    hide Joins, Anchors, Groups, Ordered, NonNegative;
    GroupsAreCut(levels, |levels|, pct);
    var a := Anchors(levels, |levels|, pct);
    var own := seq(|a|, p requires 0 <= p < |a| => labels[a[p]]);
    forall p, q | 0 <= p < q < |own| ensures own[p] != own[q] {
      AnchorsInOwnClass(levels, pct, ascending, labels, m, p, q);
    }
    Pigeonhole(own, m);
  }

  /** The greedy clusters are themselves such a grouping, so the minimum is attained. */
  lemma GreedyIsGrouping(levels: seq<real>, pct: real) returns (labels: seq<nat>)
    ensures IsGrouping(levels, labels, |Clusters(levels, pct)|, pct)
  {
    hide Joins, Anchors, Groups;
    GroupsAreCut(levels, |levels|, pct);
    AnchorsGreedy(levels, |levels|, pct);
    var a := Anchors(levels, |levels|, pct);
    labels := Labels(|levels|, a, |levels|);
    forall i, j | 0 <= i < j < |labels| && labels[i] == labels[j] && FirstOfClass(labels, i)
      ensures Joins(levels[i], levels[j], pct)
    {
      var p := labels[i];
      assert labels[a[p]] == p;
      assert i == a[p] && GreedyAt(levels, |levels|, a, p, pct);
    }
  }

  /** The cluster each of the first k of n levels lies in. */
  lemma {:induction false} Labels(n: nat, anchors: seq<nat>, k: nat) returns (labels: seq<nat>)
    requires WellPlaced(n, anchors) && k <= n
    ensures |labels| == k
    ensures forall i | 0 <= i < k :: labels[i] < |anchors| && anchors[labels[i]] <= i < End(n, anchors, labels[i])
    ensures forall p | 0 <= p < |anchors| && anchors[p] < k :: labels[anchors[p]] == p
  {
    if k == 0 {
      labels := [];
    } else {
      var before := Labels(n, anchors, k - 1);
      var p := LabelOf(n, anchors, k - 1, |anchors| - 1);
      labels := before + [p];
      forall q | 0 <= q < |anchors| && anchors[q] < k ensures labels[anchors[q]] == q {
        if anchors[q] == k - 1 { InOneCluster(n, anchors, k - 1, p, q); }
      }
    }
  }

  lemma InOneCluster(n: nat, anchors: seq<nat>, i: nat, p: nat, q: nat)
    requires WellPlaced(n, anchors) && p < |anchors| && q < |anchors|
    requires anchors[p] <= i < End(n, anchors, p) && anchors[q] <= i < End(n, anchors, q)
    ensures p == q
  {}

  lemma {:induction false} LabelOf(n: nat, anchors: seq<nat>, i: nat, top: nat) returns (p: nat)
    requires WellPlaced(n, anchors) && i < n && top < |anchors| && i < End(n, anchors, top)
    ensures p < |anchors| && anchors[p] <= i < End(n, anchors, p)
  {
    if anchors[top] <= i { p := top; } else { p := LabelOf(n, anchors, i, top - 1); }
  }

  // ----- order of the means ----------------------------------------------------------------

  predicate AtMostOneZero(levels: seq<real>) {
    forall i, j | 0 <= i < j < |levels| :: levels[i] != 0.0 || levels[j] != 0.0
  }

  /** The last level of a cluster lies strictly before the anchor of any later one. */
  lemma ClustersSeparate(levels: seq<real>, pct: real, ascending: bool, p: nat, q: nat)
    requires Ordered(levels, ascending) && NonNegative(levels) && AtMostOneZero(levels) && pct >= 0.0
    requires p < q < |Anchors(levels, |levels|, pct)|
    ensures var a := Anchors(levels, |levels|, pct); var s := End(|levels|, a, p) - 1;
            a[p] <= s < a[q] && if ascending then levels[s] < levels[a[q]] else levels[s] > levels[a[q]]
  {
    hide Joins, Anchors;
    AnchorsGreedy(levels, |levels|, pct);
    var a := Anchors(levels, |levels|, pct);
    var next := p + 1;
    var s := End(|levels|, a, p) - 1;
    assert a[p] <= s < a[next] <= a[q];
    assert GreedyAt(levels, |levels|, a, p, pct);
    JoinsSelf(levels[a[p]], pct);
    ZeroTakesNobody(levels[s], pct);
    assert levels[a[p]] > 0.0 ==> Joins(levels[a[p]], levels[s], pct);
    assert levels[a[p]] == 0.0 ==> s == a[p];
  }

  lemma JoinsSelf(a: real, pct: real)
    requires a >= 0.0 && pct >= 0.0
    ensures a > 0.0 ==> Joins(a, a, pct)
  {}

  predicate StrictlyOrdered(xs: seq<real>, ascending: bool) {
    forall i, j | 0 <= i < j < |xs| :: if ascending then xs[i] < xs[j] else xs[i] > xs[j]
  }

  lemma MeanWithinCluster(levels: seq<real>, ascending: bool, lo: nat, hi: nat, group: seq<real>)
    requires Ordered(levels, ascending) && IsSlice(levels, lo, hi, group)
    ensures if ascending then levels[lo] <= Mean(group) <= levels[hi - 1]
            else levels[hi - 1] <= Mean(group) <= levels[lo]
  {
    hide Mean;
    if ascending {
      MeanBounds(group, levels[lo], levels[hi - 1]);
    } else {
      MeanBounds(group, levels[hi - 1], levels[lo]);
    }
  }

  lemma MeanPairOrdered(levels: seq<real>, pct: real, ascending: bool, p: nat, q: nat)
    requires Ordered(levels, ascending) && NonNegative(levels) && AtMostOneZero(levels) && pct >= 0.0
    requires p < q < |Clusters(levels, pct)|
    ensures var g := Clusters(levels, pct); if ascending then Mean(g[p]) < Mean(g[q]) else Mean(g[p]) > Mean(g[q])
  {
    hide Joins, Anchors, Groups, Mean, NonNegative, AtMostOneZero, Ordered, IsSlice, WellPlaced;
    GroupsAreCut(levels, |levels|, pct);
    var groups, a := Clusters(levels, pct), Anchors(levels, |levels|, pct);
    assert CutAt(levels, |levels|, a, groups, p) && CutAt(levels, |levels|, a, groups, q);
    ClustersSeparate(levels, pct, ascending, p, q);
    MeanWithinCluster(levels, ascending, a[p], End(|levels|, a, p), groups[p]);
    MeanWithinCluster(levels, ascending, a[q], End(|levels|, a, q), groups[q]);
  }

  lemma MeansOrdered(levels: seq<real>, pct: real, ascending: bool)
    requires Ordered(levels, ascending) && NonNegative(levels) && AtMostOneZero(levels) && pct >= 0.0
    ensures StrictlyOrdered(LevelsOf(levels, pct), ascending)
  {
    hide Clusters, Mean, Ordered, NonNegative, AtMostOneZero;
    var means := LevelsOf(levels, pct);
    forall p, q | 0 <= p < q < |means| ensures if ascending then means[p] < means[q] else means[p] > means[q] {
      MeanPairOrdered(levels, pct, ascending, p, q);
    }
  }

  /** With a negative width nothing joins, so every level is its own cluster. */
  lemma {:induction false} NegativeWidth(levels: seq<real>, n: nat, pct: real)
    requires NonNegative(levels) && pct < 0.0 && n <= |levels|
    ensures |Groups(levels, n, pct)| == n && forall i | 0 <= i < n :: Groups(levels, n, pct)[i] == [levels[i]]
  {
    hide Joins;
    if n > 0 {
      NegativeWidth(levels, n - 1, pct);
      if n > 1 { NeverJoins(levels[n - 2], levels[n - 1], pct); }
    }
  }

  lemma NeverJoins(anchor: real, level: real, pct: real)
    requires anchor >= 0.0 && pct < 0.0
    ensures !Joins(anchor, level, pct)
  {
    if anchor > 0.0 { assert Abs(level - anchor) / anchor >= 0.0; }
  }

  lemma NegativeWidthMeans(levels: seq<real>, pct: real)
    requires NonNegative(levels) && pct < 0.0
    ensures LevelsOf(levels, pct) == levels
  {
    hide Mean, Groups;
    NegativeWidth(levels, |levels|, pct);
    forall i | 0 <= i < |levels| ensures LevelsOf(levels, pct)[i] == levels[i] { SingleMean(levels[i]); }
  }

  /** At a full width a descending list swallows its zero levels into the cluster of its positive head. */
  predicate ZerosSwallowed(levels: seq<real>, pct: real, ascending: bool) {
    !ascending && pct >= 1.0 && levels != [] && levels[0] > 0.0
  }

  /** Otherwise nothing takes a zero level, and it takes nothing. */
  lemma ZeroUntouched(levels: seq<real>, pct: real, ascending: bool, i: nat)
    requires Ordered(levels, ascending) && NonNegative(levels) && !ZerosSwallowed(levels, pct, ascending)
    requires i < |levels| && levels[i] == 0.0
    ensures forall k | 0 <= k < i :: !Joins(levels[k], levels[i], pct)
    ensures forall k | i < k < |levels| :: !Joins(levels[i], levels[k], pct)
  {
    hide Joins;
    forall k | 0 <= k < i ensures !Joins(levels[k], levels[i], pct) {
      ZeroTakesNobody(levels[i], pct);
      if levels[k] > 0.0 {
        ZeroReached(levels, ascending, k, i);
        FullWidth(levels[k], 0.0, pct);
      }
    }
    forall k | i < k < |levels| ensures !Joins(levels[i], levels[k], pct) { ZeroTakesNobody(levels[k], pct); }
  }

  /** So it is a cluster of its own. */
  lemma ZeroAlone(levels: seq<real>, pct: real, ascending: bool, i: nat) returns (p: nat)
    requires Ordered(levels, ascending) && NonNegative(levels) && !ZerosSwallowed(levels, pct, ascending)
    requires i < |levels| && levels[i] == 0.0
    ensures p < |Clusters(levels, pct)| == |Anchors(levels, |levels|, pct)|
    ensures Anchors(levels, |levels|, pct)[p] == i && Clusters(levels, pct)[p] == [0.0]
  {
    hide Joins, Anchors, Groups, ZerosSwallowed, Ordered, NonNegative;
    GroupsAreCut(levels, |levels|, pct);
    AnchorsGreedy(levels, |levels|, pct);
    ZeroUntouched(levels, pct, ascending, i);
    var a := Anchors(levels, |levels|, pct);
    p := LabelOf(|levels|, a, i, |a| - 1);
    assert GreedyAt(levels, |levels|, a, p, pct) && CutAt(levels, |levels|, a, Clusters(levels, pct), p);
    ShortCluster(levels, a, p, i, pct);
    assert levels[i..i + 1] == [0.0];
  }

  lemma ShortCluster(levels: seq<real>, anchors: seq<nat>, p: nat, i: nat, pct: real)
    requires WellPlaced(|levels|, anchors) && p < |anchors| && GreedyAt(levels, |levels|, anchors, p, pct)
    requires anchors[p] <= i < End(|levels|, anchors, p) <= |levels|
    requires forall k | 0 <= k < i :: !Joins(levels[k], levels[i], pct)
    requires forall k | i < k < |levels| :: !Joins(levels[i], levels[k], pct)
    ensures anchors[p] == i && End(|levels|, anchors, p) == i + 1
  {
    hide Joins;
    var taken := Joins(levels[anchors[p]], levels[i], pct);
    var next := i + 1;
    assert next < |levels| ==> !Joins(levels[i], levels[next], pct);
  }

  /** Two zero levels that are not swallowed give two equal means. */
  lemma ZerosClash(levels: seq<real>, pct: real, ascending: bool)
    requires Ordered(levels, ascending) && NonNegative(levels) && !ZerosSwallowed(levels, pct, ascending)
    requires !AtMostOneZero(levels)
    ensures !StrictlyOrdered(LevelsOf(levels, pct), ascending)
  {
    hide Clusters, Anchors, Mean, Ordered, ZerosSwallowed;
    var i, j :| 0 <= i < j < |levels| && levels[i] == 0.0 && levels[j] == 0.0;
    var p := ZeroAlone(levels, pct, ascending, i);
    var q := ZeroAlone(levels, pct, ascending, j);
    var means := LevelsOf(levels, pct);
    assert p != q && means[p] == means[q];
  }

  /**
   The means of ordered prices are strictly ordered exactly when the prices already are, or the width
   is not negative and no two zero prices are left to clusters of their own.
   */
  lemma MeansOrderedExact(levels: seq<real>, pct: real, ascending: bool)
    requires Ordered(levels, ascending) && NonNegative(levels)
    ensures StrictlyOrdered(LevelsOf(levels, pct), ascending) <==>
            StrictlyOrdered(levels, ascending) ||
            (pct >= 0.0 && (AtMostOneZero(levels) || ZerosSwallowed(levels, pct, ascending)))
  {
    hide LevelsOf, Ordered, NonNegative;
    if pct < 0.0 {
      NegativeWidthMeans(levels, pct);
    } else if ZerosSwallowed(levels, pct, ascending) {
      OneMean(levels, pct, ascending);
    } else if AtMostOneZero(levels) {
      MeansOrdered(levels, pct, ascending);
    } else {
      ZerosClash(levels, pct, ascending);
      StrictZeros(levels, ascending);
    }
  }

  lemma OneMean(levels: seq<real>, pct: real, ascending: bool)
    requires Ordered(levels, false) && NonNegative(levels) && levels != [] && levels[0] > 0.0 && pct >= 1.0
    ensures StrictlyOrdered(LevelsOf(levels, pct), ascending)
  {
    hide Clusters;
    OneCluster(levels, pct);
  }

  lemma StrictZeros(levels: seq<real>, ascending: bool)
    ensures StrictlyOrdered(levels, ascending) ==> AtMostOneZero(levels)
  {}

  /** Two zero levels and nothing else: two clusters with equal means. */
  lemma ZeroLevelsSplit(pct: real)
    ensures LevelsOf([0.0, 0.0], pct) == [0.0, 0.0]
  {
    var levels := [0.0, 0.0];
    assert Groups(levels, 1, pct) == [[0.0]];
    assert Clusters(levels, pct) == [[0.0], [0.0]];
    SingleMean(0.0);
  }
}
