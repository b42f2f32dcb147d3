/**
 The OHLCV paginator: a window of history read in chunks.

 The service is an oracle `(call number, since) -> candles`, so nothing is assumed of it unless a
 lemma says so.
 */
module Paginator {
  import opened Base

  datatype VenueCandle = VenueCandle(openedAtMs: int, close: real)

  datatype Window = Window(sinceMs: int, untilMs: int, timeframeMs: int, chunkSize: int)

  datatype WindowError = EmptyWindow | BadChunkSize

  datatype Chunk = Chunk(bars: seq<VenueCandle>, clipped: bool)

  datatype Trace = Trace(chunks: seq<Chunk>, fetches: nat)

  type Service = (nat, int) -> seq<VenueCandle>

  function NewPaginator(sinceMs: int, untilMs: int, timeframeMs: int, chunkSize: int): (r: Result<Window, WindowError>)
    ensures r.Ok? && timeframeMs > 0 ==> Valid(r.value)
    ensures r.Ok? <==> sinceMs < untilMs && 0 < chunkSize
  {
    if untilMs <= sinceMs then Err(EmptyWindow)
    else if chunkSize <= 0 then Err(BadChunkSize)
    else Ok(Window(sinceMs, untilMs, timeframeMs, chunkSize))
  }

  predicate Valid(w: Window) {
    w.sinceMs < w.untilMs && 0 < w.timeframeMs && 0 < w.chunkSize
  }

  predicate InWindow(w: Window, b: VenueCandle) {
    w.sinceMs <= b.openedAtMs < w.untilMs
  }

  /** The range query a caller has in mind: the bars of the window, in order. */
  function Range(w: Window, bars: seq<VenueCandle>): seq<VenueCandle> {
    if bars == [] then []
    else if InWindow(w, bars[0]) then [bars[0]] + Range(w, bars[1..])
    else Range(w, bars[1..])
  }

  function ClipToWindow(w: Window, bars: seq<VenueCandle>): Chunk {
    var kept := Range(w, bars);
    Chunk(kept, |kept| != |bars|)
  }

  function NextCursor(w: Window, bars: seq<VenueCandle>): int
    requires bars != []
  {
    bars[|bars| - 1].openedAtMs + w.timeframeMs
  }

  function Yielded(w: Window, bars: seq<VenueCandle>): seq<Chunk> {
    var c := ClipToWindow(w, bars);
    if c.bars == [] then [] else [c]
  }

  /** Everything yielded from `cursor` on, the next fetch being call number `n`. */
  function Pages(w: Window, service: Service, n: nat, cursor: int): Trace
    decreases w.untilMs - cursor
  {
    if cursor >= w.untilMs then Trace([], 0)
    else
      var bars := service(n, cursor);
      if bars == [] then Trace([], 1)
      else
        var next := NextCursor(w, bars);
        var rest := if next <= cursor then Trace([], 0) else Pages(w, service, n + 1, next);
        Trace(Yielded(w, bars) + rest.chunks, 1 + rest.fetches)
  }

  /** What the loop has done so far, followed by what is still to come. */
  function Prepend(chunks: seq<Chunk>, fetches: nat, rest: Trace): Trace {
    Trace(chunks + rest.chunks, fetches + rest.fetches)
  }

  lemma PrependTwice(a: seq<Chunk>, m: nat, b: seq<Chunk>, rest: Trace)
    ensures Prepend(a, m, Prepend(b, 1, rest)) == Prepend(a + b, m + 1, rest)
  {
    assert a + (b + rest.chunks) == (a + b) + rest.chunks;
  }

  lemma PagesUnfold(w: Window, service: Service, n: nat, cursor: int)
    requires cursor < w.untilMs
    ensures var bars := service(n, cursor);
            if bars == [] then Pages(w, service, n, cursor) == Trace([], 1)
            else if NextCursor(w, bars) <= cursor then
              Pages(w, service, n, cursor) == Prepend(Yielded(w, bars), 1, Trace([], 0))
            else
              Pages(w, service, n, cursor) ==
              Prepend(Yielded(w, bars), 1, Pages(w, service, n + 1, NextCursor(w, bars)))
  {
    hide Yielded, NextCursor;
  }

  method Iterate(w: Window, service: Service) returns (chunks: seq<Chunk>, fetches: nat)
    ensures Trace(chunks, fetches) == Pages(w, service, 0, w.sinceMs)
  {
    hide Yielded, NextCursor, Pages, Prepend;
    chunks, fetches := [], 0;
    var cursor := w.sinceMs;
    PrependNothing(Pages(w, service, 0, w.sinceMs));
    while cursor < w.untilMs
      invariant Pages(w, service, 0, w.sinceMs) == Prepend(chunks, fetches, Pages(w, service, fetches, cursor))
      decreases w.untilMs - cursor
    {
      PagesUnfold(w, service, fetches, cursor);
      var bars := service(fetches, cursor);
      if bars == [] {
        PrependEnd(chunks, fetches, 1);
        return chunks, fetches + 1;
      }
      var next := NextCursor(w, bars);
      PrependTwice(chunks, fetches, Yielded(w, bars),
                   if next <= cursor then Trace([], 0) else Pages(w, service, fetches + 1, next));
      chunks := chunks + Yielded(w, bars);
      fetches := fetches + 1;
      if next <= cursor {
        PrependEnd(chunks, fetches, 0);
        return;
      }
      cursor := next;
    }
    PagesEnd(w, service, fetches, cursor);
    PrependEnd(chunks, fetches, 0);
  }

  lemma PrependNothing(t: Trace)
    ensures Prepend([], 0, t) == t
  {}

  lemma PrependEnd(chunks: seq<Chunk>, fetches: nat, more: nat)
    ensures Prepend(chunks, fetches, Trace([], more)) == Trace(chunks, fetches + more)
  {}

  lemma PagesEnd(w: Window, service: Service, n: nat, cursor: int)
    requires cursor >= w.untilMs
    ensures Pages(w, service, n, cursor) == Trace([], 0)
  {}

  function Concat(chunks: seq<Chunk>): seq<VenueCandle> {
    if chunks == [] then [] else chunks[0].bars + Concat(chunks[1..])
  }

  lemma {:induction false} ConcatAppend(a: seq<Chunk>, b: seq<Chunk>)
    ensures Concat(a + b) == Concat(a) + Concat(b)
  {
    if a == [] {
      assert a + b == b;
    } else {
      assert (a + b)[1..] == a[1..] + b;
      ConcatAppend(a[1..], b);
    }
  }

  lemma {:induction false} RangeAppend(w: Window, a: seq<VenueCandle>, b: seq<VenueCandle>)
    ensures Range(w, a + b) == Range(w, a) + Range(w, b)
  {
    if a == [] {
      assert a + b == b;
    } else {
      assert (a + b)[1..] == a[1..] + b;
      RangeAppend(w, a[1..], b);
    }
  }

  lemma {:induction false} RangeSound(w: Window, bars: seq<VenueCandle>)
    ensures forall b :: b in Range(w, bars) <==> b in bars && InWindow(w, b)
  {
    if bars != [] {
      RangeSound(w, bars[1..]);
      assert bars == [bars[0]] + bars[1..];
    }
  }

  lemma YieldedIsRange(w: Window, bars: seq<VenueCandle>)
    ensures Concat(Yielded(w, bars)) == Range(w, bars)
  {}

  // ----- any service -----------------------------------------------------------------------

  /** Whatever the service answers: only bars of the window come out, no chunk is empty, and the loop ends. */
  lemma {:induction false} AnyService(w: Window, service: Service, n: nat, cursor: int)
    requires cursor < w.untilMs
    ensures var t := Pages(w, service, n, cursor);
            && 1 <= t.fetches <= w.untilMs - cursor
            && (forall c | c in t.chunks ::
                  c.bars != [] && forall b | b in c.bars :: w.sinceMs <= b.openedAtMs < w.untilMs)
    decreases w.untilMs - cursor
  {
    var bars := service(n, cursor);
    RangeSound(w, bars);
    if bars != [] && cursor < NextCursor(w, bars) < w.untilMs {
      AnyService(w, service, n + 1, NextCursor(w, bars));
    }
  }

  /** From this cursor the loop reads no further: nothing came, no progress, or the window is passed. */
  ghost predicate LastRead(w: Window, bars: seq<VenueCandle>, cursor: int) {
    || bars == []
    || bars[|bars| - 1].openedAtMs + w.timeframeMs <= cursor
    || bars[|bars| - 1].openedAtMs + w.timeframeMs >= w.untilMs
  }

  /** The cursors of a run from call number n on: each is a timeframe past the last bar of the answer before. */
  ghost predicate IsTrail(w: Window, service: Service, n: nat, cursor: int, trail: seq<int>) {
    && trail != [] && trail[0] == cursor
    && (forall i | 0 <= i < |trail| ::
          LastRead(w, service(n + i, trail[i]), trail[i]) <==> i == |trail| - 1)
    && (forall i | 0 <= i < |trail| - 1 ::
          var bars := service(n + i, trail[i]);
          bars != [] && trail[i + 1] == bars[|bars| - 1].openedAtMs + w.timeframeMs)
  }

  /** What the answers along a trail yield. */
  ghost function YieldedAlong(w: Window, service: Service, n: nat, trail: seq<int>): seq<Chunk>
    decreases |trail|
  {
    if trail == [] then [] else Yielded(w, service(n, trail[0])) + YieldedAlong(w, service, n + 1, trail[1..])
  }

  lemma TrailCons(w: Window, service: Service, n: nat, cursor: int, rest: seq<int>)
    requires var bars := service(n, cursor);
             && bars != [] && !LastRead(w, bars, cursor)
             && IsTrail(w, service, n + 1, bars[|bars| - 1].openedAtMs + w.timeframeMs, rest)
    ensures IsTrail(w, service, n, cursor, [cursor] + rest)
  {
    var trail := [cursor] + rest;
    assert trail[1..] == rest;
    forall i | 0 < i < |trail| ensures trail[i] == rest[i - 1] && n + i == n + 1 + (i - 1) {}
    assert forall i | 0 <= i < |trail| :: LastRead(w, service(n + i, trail[i]), trail[i]) <==> i == |trail| - 1;
    assert forall i | 0 <= i < |trail| - 1 ::
        var bars := service(n + i, trail[i]); bars != [] && trail[i + 1] == bars[|bars| - 1].openedAtMs + w.timeframeMs;
  }

  /** A run against any service makes one fetch per cursor of its trail and yields what these answers yield. */
  lemma {:induction false} PagesTrail(w: Window, service: Service, n: nat, cursor: int) returns (trail: seq<int>)
    requires cursor < w.untilMs
    ensures IsTrail(w, service, n, cursor, trail)
    ensures Pages(w, service, n, cursor).fetches == |trail|
    ensures Pages(w, service, n, cursor).chunks == YieldedAlong(w, service, n, trail)
    decreases w.untilMs - cursor
  {
    hide Yielded;
    var bars := service(n, cursor);
    if LastRead(w, bars, cursor) {
      trail := [cursor];
      assert trail[1..] == [];
      if bars == [] { NothingYielded(w); }
    } else {
      var rest := PagesTrail(w, service, n + 1, NextCursor(w, bars));
      TrailCons(w, service, n, cursor, rest);
      trail := [cursor] + rest;
      assert trail[1..] == rest;
    }
  }

  lemma NothingYielded(w: Window)
    ensures Yielded(w, []) == []
  {}

  /** An answer yields one chunk, of its bars in the window, unless there is none; the flag says if any was dropped. */
  lemma YieldedExact(w: Window, bars: seq<VenueCandle>)
    ensures Yielded(w, bars) == [] <==> forall b | b in bars :: !(w.sinceMs <= b.openedAtMs < w.untilMs)
    ensures Yielded(w, bars) != [] ==>
              && |Yielded(w, bars)| == 1 && Yielded(w, bars)[0].bars == Range(w, bars)
              && (Yielded(w, bars)[0].clipped <==> exists b | b in bars :: !(w.sinceMs <= b.openedAtMs < w.untilMs))
  {
    RangeSound(w, bars);
    RangeShorter(w, bars);
    if Range(w, bars) != [] { assert Range(w, bars)[0] in bars; }
  }

  lemma {:induction false} RangeShorter(w: Window, bars: seq<VenueCandle>)
    ensures |Range(w, bars)| <= |bars|
    ensures |Range(w, bars)| == |bars| <==> forall b | b in bars :: InWindow(w, b)
  {
    if bars != [] {
      RangeShorter(w, bars[1..]);
      assert bars == [bars[0]] + bars[1..];
    }
  }

  // ----- a service that answers the earliest bars ------------------------------------------

  /** Consecutive bars open at least one timeframe apart. */
  predicate Spaced(venue: seq<VenueCandle>, timeframeMs: int) {
    forall i | 0 <= i < |venue| - 1 :: venue[i].openedAtMs + timeframeMs <= venue[i + 1].openedAtMs
  }

  predicate Chronological(venue: seq<VenueCandle>) {
    forall i, j | 0 <= i < j < |venue| :: venue[i].openedAtMs <= venue[j].openedAtMs
  }

  /** The history from `since` on. */
  function From(venue: seq<VenueCandle>, since: int): seq<VenueCandle> {
    if venue == [] || venue[0].openedAtMs >= since then venue else From(venue[1..], since)
  }

  function Earliest(venue: seq<VenueCandle>, since: int, limit: int): seq<VenueCandle> {
    var rest := From(venue, since);
    if 0 <= limit <= |rest| then rest[..limit] else rest
  }

  ghost predicate AnswersEarliest(w: Window, service: Service, venue: seq<VenueCandle>) {
    forall n, since :: service(n, since) == Earliest(venue, since, w.chunkSize)
  }

  lemma {:induction false} FromSuffix(venue: seq<VenueCandle>, since: int)
    ensures |From(venue, since)| <= |venue| && From(venue, since) == venue[|venue| - |From(venue, since)|..]
    ensures forall i | 0 <= i < |venue| - |From(venue, since)| :: venue[i].openedAtMs < since
    ensures From(venue, since) != [] ==> From(venue, since)[0].openedAtMs >= since
  {
    if venue != [] && venue[0].openedAtMs < since {
      FromSuffix(venue[1..], since);
    }
  }

  lemma {:induction false} FromUnique(venue: seq<VenueCandle>, since: int, k: nat)
    requires k <= |venue| && (forall i | 0 <= i < k :: venue[i].openedAtMs < since)
    requires k < |venue| ==> venue[k].openedAtMs >= since
    ensures From(venue, since) == venue[k..]
  {
    if k > 0 {
      FromUnique(venue[1..], since, k - 1);
      assert venue[1..][k - 1..] == venue[k..];
    }
  }

  lemma {:induction false} SpacedApart(venue: seq<VenueCandle>, timeframeMs: int, i: nat, j: nat)
    requires Spaced(venue, timeframeMs) && timeframeMs > 0 && i <= j < |venue|
    ensures venue[i].openedAtMs + (j - i) * timeframeMs <= venue[j].openedAtMs
    ensures (j - i) * timeframeMs >= 0
  {
    if i < j {
      SpacedApart(venue, timeframeMs, i, j - 1);
      assert (j - i) * timeframeMs == (j - 1 - i) * timeframeMs + timeframeMs;
    }
  }

  /** The bars of one answer, and what is left after them, seen from the next cursor. */
  lemma NextAnswer(w: Window, venue: seq<VenueCandle>, cursor: int)
    requires Valid(w) && Spaced(venue, w.timeframeMs) && From(venue, cursor) != []
    ensures var page, next := Earliest(venue, cursor, w.chunkSize), NextCursor(w, Earliest(venue, cursor, w.chunkSize));
            && page != [] && page[0].openedAtMs >= cursor
            && From(venue, cursor) == page + From(venue, next)
            && next >= cursor + |page| * w.timeframeMs
            && next > cursor
  {
    hide From;
    var rest := From(venue, cursor);
    FromSuffix(venue, cursor);
    var k := |venue| - |rest|;
    var page := Earliest(venue, cursor, w.chunkSize);
    var next := NextCursor(w, page);
    var j := k + |page| - 1;
    assert page[|page| - 1] == venue[j];
    SpacedApart(venue, w.timeframeMs, k, j);
    assert |page| * w.timeframeMs == (j - k) * w.timeframeMs + w.timeframeMs;
    forall i | 0 <= i <= j ensures venue[i].openedAtMs < next { SpacedApart(venue, w.timeframeMs, i, j); }
    FromUnique(venue, next, j + 1);
    assert rest == page + venue[j + 1..];
  }

  lemma {:induction false} OutsideIsEmpty(w: Window, bars: seq<VenueCandle>)
    requires forall b | b in bars :: !InWindow(w, b)
    ensures Range(w, bars) == []
  {
    if bars != [] { OutsideIsEmpty(w, bars[1..]); }
  }

  lemma {:induction false} PagesFrom(w: Window, service: Service, venue: seq<VenueCandle>, n: nat, cursor: int)
    requires Valid(w) && Spaced(venue, w.timeframeMs) && AnswersEarliest(w, service, venue) && w.sinceMs <= cursor
    ensures Concat(Pages(w, service, n, cursor).chunks) == Range(w, From(venue, cursor))
    decreases w.untilMs - cursor
  {
    hide From, Earliest, Range, NextCursor, Spaced, Yielded;
    var rest := From(venue, cursor);
    if cursor >= w.untilMs {
      LateIsEmpty(w, venue, cursor);
    } else {
      assert service(n, cursor) == Earliest(venue, cursor, w.chunkSize);
      if rest == [] {
        EmptyAnswer(w, venue, cursor);
        OutsideIsEmpty(w, rest);
      } else {
        NextAnswer(w, venue, cursor);
        var page := Earliest(venue, cursor, w.chunkSize);
        var next := NextCursor(w, page);
        PagesFrom(w, service, venue, n + 1, next);
        ConcatAppend(Yielded(w, page), Pages(w, service, n + 1, next).chunks);
        YieldedIsRange(w, page);
        RangeAppend(w, page, From(venue, next));
      }
    }
  }

  lemma LateIsEmpty(w: Window, venue: seq<VenueCandle>, cursor: int)
    requires cursor >= w.untilMs && Spaced(venue, w.timeframeMs) && w.timeframeMs > 0
    ensures Range(w, From(venue, cursor)) == []
  {}

  lemma EmptyAnswer(w: Window, venue: seq<VenueCandle>, cursor: int)
    requires From(venue, cursor) == []
    ensures Earliest(venue, cursor, w.chunkSize) == []
  {}

  lemma RangeFrom(w: Window, venue: seq<VenueCandle>)
    ensures Range(w, venue) == Range(w, From(venue, w.sinceMs))
  {}

  /** Concatenated, the chunks are the range query over the venue's history: no gap, no duplicate, in order. */
  lemma Complete(w: Window, service: Service, venue: seq<VenueCandle>)
    requires Valid(w) && Spaced(venue, w.timeframeMs) && AnswersEarliest(w, service, venue)
    ensures Concat(Pages(w, service, 0, w.sinceMs).chunks) == Range(w, venue)
  {
    hide From, Pages, Range;
    PagesFrom(w, service, venue, 0, w.sinceMs);
    RangeFrom(w, venue);
  }

  /** The spacing is exactly what completeness of every window and chunk size takes. */
  lemma CompleteExact(venue: seq<VenueCandle>, timeframeMs: int)
    requires timeframeMs > 0 && Chronological(venue)
    ensures Spaced(venue, timeframeMs) <==>
            forall w: Window, service: Service
              | Valid(w) && w.timeframeMs == timeframeMs && AnswersEarliest(w, service, venue) ::
              Concat(Pages(w, service, 0, w.sinceMs).chunks) == Range(w, venue)
  {
    hide AnswersEarliest, Valid, Range, Pages, Concat;
    if Spaced(venue, timeframeMs) {
      forall w: Window, service: Service
        | Valid(w) && w.timeframeMs == timeframeMs && AnswersEarliest(w, service, venue)
        ensures Concat(Pages(w, service, 0, w.sinceMs).chunks) == Range(w, venue)
      {
        Complete(w, service, venue);
      }
    } else {
      var i := FirstCrowded(venue, timeframeMs, 0);
      var w, service := CrowdedMissed(venue, timeframeMs, i);
    }
  }

  lemma {:induction false} FirstCrowded(venue: seq<VenueCandle>, timeframeMs: int, from: nat) returns (i: nat)
    requires !Spaced(venue, timeframeMs)
    requires from < |venue| && forall j | 0 <= j < from :: venue[j].openedAtMs + timeframeMs <= venue[j + 1].openedAtMs
    ensures i + 1 < |venue| && venue[i + 1].openedAtMs < venue[i].openedAtMs + timeframeMs
    ensures forall j | 0 <= j < i :: venue[j].openedAtMs + timeframeMs <= venue[j + 1].openedAtMs
    decreases |venue| - from
  {
    if from + 1 < |venue| && venue[from + 1].openedAtMs < venue[from].openedAtMs + timeframeMs {
      i := from;
    } else {
      i := FirstCrowded(venue, timeframeMs, from + 1);
    }
  }

  /** Two bars closer than the timeframe: reading one bar at a time skips the second. */
  lemma CrowdedMissed(venue: seq<VenueCandle>, timeframeMs: int, i: nat) returns (w: Window, service: Service)
    requires timeframeMs > 0 && Chronological(venue) && i + 1 < |venue|
    requires venue[i + 1].openedAtMs < venue[i].openedAtMs + timeframeMs
    requires forall j | 0 <= j < i :: venue[j].openedAtMs + timeframeMs <= venue[j + 1].openedAtMs
    ensures Valid(w) && w.timeframeMs == timeframeMs && AnswersEarliest(w, service, venue)
    ensures Concat(Pages(w, service, 0, w.sinceMs).chunks) != Range(w, venue)
  {
    hide Range, From, Concat;
    var bar, skipped := venue[i], venue[i + 1];
    var since := bar.openedAtMs;
    w := Window(since, skipped.openedAtMs + 1, timeframeMs, 1);
    service := (n, s) => Earliest(venue, s, 1);
    forall j | 0 <= j < i ensures venue[j].openedAtMs < since { assert venue[j + 1].openedAtMs <= since; }
    FromUnique(venue, since, i);
    assert service(0, since) == [bar];
    assert Pages(w, service, 0, since).chunks == Yielded(w, [bar]);
    YieldedIsRange(w, [bar]);
    var parts := venue[..i] + [bar] + [skipped];
    assert venue == parts + venue[i + 2..];
    RangeAppend(w, parts, venue[i + 2..]);
    RangeAppend(w, venue[..i] + [bar], [skipped]);
    RangeAppend(w, venue[..i], [bar]);
    assert |Range(w, [skipped])| > 0 by { RangeSound(w, [skipped]); assert skipped in Range(w, [skipped]); }
  }

  // ----- a service that answers the newest bars --------------------------------------------

  /** What the stored history answers: the last `limit` bars opened at or after `since`. */
  function Newest(venue: seq<VenueCandle>, since: int, limit: int): seq<VenueCandle> {
    var rest := From(venue, since);
    if 0 <= limit <= |rest| then rest[|rest| - limit..] else rest
  }

  ghost predicate AnswersNewest(w: Window, service: Service, venue: seq<VenueCandle>) {
    forall n, since :: service(n, since) == Newest(venue, since, w.chunkSize)
  }

  /** The bars at or after `since` that a newest-first answer leaves out. */
  function Dropped(venue: seq<VenueCandle>, since: int, limit: int): seq<VenueCandle> {
    var rest := From(venue, since);
    if 0 <= limit <= |rest| then rest[..|rest| - limit] else []
  }

  lemma SliceChronological(venue: seq<VenueCandle>, lo: nat, hi: nat)
    requires Chronological(venue) && lo <= hi <= |venue|
    ensures Chronological(venue[lo..hi])
  {}

  lemma TakeOfDrop<T>(s: seq<T>, k: nat, m: nat)
    requires k + m <= |s|
    ensures s[k..][..m] == s[k..k + m]
  {}

  /** Where a newest-first answer cuts the bars it could choose from. */
  function CutAt(count: nat, limit: int): nat {
    if 0 <= limit < count then count - limit else 0
  }

  lemma CutIs(venue: seq<VenueCandle>, since: int, limit: int)
    requires limit > 0
    ensures var rest := From(venue, since); var m := CutAt(|rest|, limit);
            m <= |rest| && Dropped(venue, since, limit) == rest[..m] && Newest(venue, since, limit) == rest[m..]
  {
    hide From;
  }

  lemma DroppedFacts(venue: seq<VenueCandle>, since: int, limit: int)
    requires Chronological(venue) && limit > 0
    ensures From(venue, since) == Dropped(venue, since, limit) + Newest(venue, since, limit)
    ensures Chronological(Dropped(venue, since, limit))
    ensures Dropped(venue, since, limit) == [] <==> |From(venue, since)| <= limit
    ensures Dropped(venue, since, limit) != [] ==>
              && From(venue, since) != [] && Dropped(venue, since, limit)[0] == From(venue, since)[0]
              && From(venue, since)[0].openedAtMs >= since
  {
    hide From, Chronological, Dropped, Newest;
    var rest := From(venue, since);
    var k, m := |venue| - |rest|, CutAt(|rest|, limit);
    SuffixFrom(venue, since);
    CutIs(venue, since, limit);
    TakeOfDrop(venue, k, m);
    SliceChronological(venue, k, k + m);
  }

  lemma SuffixFrom(venue: seq<VenueCandle>, since: int)
    ensures |From(venue, since)| <= |venue| && From(venue, since) == venue[|venue| - |From(venue, since)|..]
    ensures From(venue, since) != [] ==> From(venue, since)[0].openedAtMs >= since
  {
    FromSuffix(venue, since);
  }

  lemma OnlyTail<T>(a: seq<T>, b: seq<T>)
    ensures b == a + b <==> |a| == 0
  {
    if |a| == 0 { assert a + b == b; }
  }

  /** Against newest-first answers the chunks are complete exactly when one answer already holds the window. */
  lemma NewestComplete(w: Window, service: Service, venue: seq<VenueCandle>)
    requires Valid(w) && Chronological(venue) && AnswersNewest(w, service, venue)
    ensures Concat(Pages(w, service, 0, w.sinceMs).chunks) == Range(w, venue) <==>
            |From(venue, w.sinceMs)| <= w.chunkSize || From(venue, w.sinceMs)[0].openedAtMs >= w.untilMs
  {
    hide From, Range, Concat, Pages, AnswersNewest, Newest, Dropped, Chronological;
    RangeFrom(w, venue);
    NewestPages(w, service, venue);
    DroppedFacts(venue, w.sinceMs, w.chunkSize);
    var dropped, page := Dropped(venue, w.sinceMs, w.chunkSize), Newest(venue, w.sinceMs, w.chunkSize);
    RangeAppend(w, dropped, page);
    DroppedMatter(w, dropped);
    OnlyTail(Range(w, dropped), Range(w, page));
  }

  /** Three candles read two at a time: the first one is missed. */
  lemma NewestMissesStart()
    ensures var venue := [VenueCandle(0, 1.0), VenueCandle(1, 1.0), VenueCandle(2, 1.0)];
            var w, service := Window(0, 3, 1, 2), (n, since) => Newest(venue, since, 2);
            && Valid(w) && Spaced(venue, 1)
            && Concat(Pages(w, service, 0, 0).chunks) == venue[1..] && Range(w, venue) == venue
  {
    var venue := [VenueCandle(0, 1.0), VenueCandle(1, 1.0), VenueCandle(2, 1.0)];
    var w, service := Window(0, 3, 1, 2), (n: nat, since: int) => Newest(venue, since, 2);
    NewestPages(w, service, venue);
    assert From(venue, 0) == venue;
    assert Newest(venue, 0, 2) == venue[1..];
    EverythingInWindow(w, venue);
    EverythingInWindow(w, venue[1..]);
  }

  lemma {:induction false} EverythingInWindow(w: Window, bars: seq<VenueCandle>)
    requires forall b | b in bars :: InWindow(w, b)
    ensures Range(w, bars) == bars
  {
    if bars != [] {
      EverythingInWindow(w, bars[1..]);
      assert bars == [bars[0]] + bars[1..];
    }
  }

  /** Bars from `since` on are all outside the window exactly when the first one is. */
  lemma DroppedMatter(w: Window, bars: seq<VenueCandle>)
    requires Chronological(bars) && (bars != [] ==> bars[0].openedAtMs >= w.sinceMs)
    ensures |Range(w, bars)| == 0 <==> bars == [] || bars[0].openedAtMs >= w.untilMs
  {}

  /** The cursor after a newest-first answer lies behind the whole history. */
  lemma NothingAfterNewest(w: Window, venue: seq<VenueCandle>, cursor: int)
    requires Valid(w) && Chronological(venue) && Newest(venue, cursor, w.chunkSize) != []
    ensures var next := NextCursor(w, Newest(venue, cursor, w.chunkSize));
            next > cursor && Newest(venue, next, w.chunkSize) == []
  {
    hide From;
    FromSuffix(venue, cursor);
    var page := Newest(venue, cursor, w.chunkSize);
    var last := |venue| - 1;
    assert page[|page| - 1] == venue[last];
    FromUnique(venue, NextCursor(w, page), |venue|);
  }

  /** One answer reaches the end of the history, so nothing follows it. */
  lemma NewestPages(w: Window, service: Service, venue: seq<VenueCandle>)
    requires Valid(w) && Chronological(venue) && AnswersNewest(w, service, venue)
    ensures Concat(Pages(w, service, 0, w.sinceMs).chunks) == Range(w, Newest(venue, w.sinceMs, w.chunkSize))
  {
    hide Newest, Range, Yielded, NextCursor, Chronological, Concat;
    var page := service(0, w.sinceMs);
    assert page == Newest(venue, w.sinceMs, w.chunkSize);
    YieldedIsRange(w, page);
    if page == [] {
      assert Concat(Pages(w, service, 0, w.sinceMs).chunks) == [] by { NoChunks(); }
      OutsideIsEmpty(w, page);
    } else {
      NothingAfterNewest(w, venue, w.sinceMs);
      assert service(1, NextCursor(w, page)) == [];
      assert Pages(w, service, 0, w.sinceMs).chunks == Yielded(w, page);
    }
  }

  lemma NoChunks()
    ensures Concat([]) == []
  {}

  // ----- how many fetches ------------------------------------------------------------------

  function CeilDiv(span: int, step: int): int
    requires step > 0
  {
    -((-span) / step)
  }

  /** The least multiple of the step that covers the span. */
  lemma CeilDivLeast(span: int, step: int, n: int)
    requires step > 0
    ensures n == CeilDiv(span, step) <==> (n - 1) * step < span <= n * step
  {
    var q, r := (-span) / step, (-span) % step;
    assert -span == q * step + r;
    if (n - 1) * step < span <= n * step {
      if n < -q { Gap(n, -q, step); } else if n > -q { Gap(-q, n, step); }
    }
  }

  lemma Gap(a: int, b: int, step: int)
    requires a < b && step > 0
    ensures (b - a) * step >= step
    ensures b * step == a * step + (b - a) * step
  {
    var d := b - a - 1;
    assert d * step >= 0;
    assert (b - a) * step == d * step + step by { Times(d, step); }
    assert b * step == a * step + (b - a) * step by { Split(a, b - a, step); }
  }

  lemma Times(d: int, step: int)
    ensures (d + 1) * step == d * step + step
  {}

  lemma Split(a: int, d: int, step: int)
    ensures (a + d) * step == a * step + d * step
  {}

  function Step(w: Window): int
    requires Valid(w)
    ensures Step(w) > 0
  {
    Gap(0, w.chunkSize, w.timeframeMs);
    w.timeframeMs * w.chunkSize
  }

  function TotalChunksEstimate(w: Window): int
    requires Valid(w)
  {
    MaxInt(1, CeilDiv(w.untilMs - w.sinceMs, Step(w)))
  }

  lemma CeilStep(span: int, step: int, advance: int)
    requires step > 0 && advance >= step
    ensures CeilDiv(span - advance, step) <= CeilDiv(span, step) - 1
    ensures advance == step ==> CeilDiv(span - advance, step) == CeilDiv(span, step) - 1
  {
    hide CeilDiv;
    var n, m := CeilDiv(span, step), CeilDiv(span - advance, step);
    CeilDivLeast(span, step, n);
    CeilDivLeast(span - advance, step, m);
    if m >= n { Gap(n - 1, m, step); CeilOrder(n, m, step); }
    if advance == step { CeilDivLeast(span - step, step, n - 1); }
  }

  lemma CeilOrder(n: int, m: int, step: int)
    requires step > 0 && n <= m
    ensures n * step <= m * step
    ensures (n - 1) * step <= (m - 1) * step
  {}

  lemma CeilPositive(span: int, step: int)
    requires step > 0
    ensures span > 0 ==> CeilDiv(span, step) >= 1
    ensures 0 < span <= step ==> CeilDiv(span, step) == 1
  {}

  /** Every full answer advances by at least a step; a short one ends the history. */
  lemma {:induction false} FetchesBounded(w: Window, service: Service, venue: seq<VenueCandle>, n: nat, cursor: int)
    requires Valid(w) && Spaced(venue, w.timeframeMs) && AnswersEarliest(w, service, venue) && cursor < w.untilMs
    ensures Pages(w, service, n, cursor).fetches <= CeilDiv(w.untilMs - cursor, Step(w)) + 1
    decreases w.untilMs - cursor
  {
    hide From, Range, Spaced, CeilDiv, Yielded, Step, NextCursor;
    var page := service(n, cursor);
    assert page == Earliest(venue, cursor, w.chunkSize);
    CeilPositive(w.untilMs - cursor, Step(w));
    if page != [] {
      NextAnswer(w, venue, cursor);
      var next := NextCursor(w, page);
      if next < w.untilMs {
        if |page| == w.chunkSize {
          FetchesBounded(w, service, venue, n + 1, next);
          assert Step(w) == |page| * w.timeframeMs by { StepIs(w); }
          CeilStep(w.untilMs - cursor, Step(w), next - cursor);
        } else {
          assert From(venue, next) == [];
          assert service(n + 1, next) == [] by { EmptyAnswer(w, venue, next); }
        }
      }
    }
  }

  lemma StepIs(w: Window)
    requires Valid(w)
    ensures Step(w) == w.chunkSize * w.timeframeMs
  {}

  lemma FetchesWithinEstimate(w: Window, service: Service, venue: seq<VenueCandle>)
    requires Valid(w) && Spaced(venue, w.timeframeMs) && AnswersEarliest(w, service, venue)
    ensures 1 <= Pages(w, service, 0, w.sinceMs).fetches <= TotalChunksEstimate(w) + 1
  {
    hide Pages, CeilDiv;
    FetchesBounded(w, service, venue, 0, w.sinceMs);
    AnyService(w, service, 0, w.sinceMs);
  }

  /** From `cursor` on there is a bar at every multiple of the timeframe, at least up to the end of the window. */
  ghost predicate Contiguous(w: Window, venue: seq<VenueCandle>, cursor: int) {
    var rest := From(venue, cursor);
    && (forall k | 0 <= k < |rest| :: rest[k].openedAtMs == cursor + k * w.timeframeMs)
    && cursor + |rest| * w.timeframeMs >= w.untilMs
  }

  lemma {:induction false} FetchesExact(w: Window, service: Service, venue: seq<VenueCandle>, n: nat, cursor: int)
    requires Valid(w) && Spaced(venue, w.timeframeMs) && AnswersEarliest(w, service, venue)
    requires cursor < w.untilMs && Contiguous(w, venue, cursor)
    ensures Pages(w, service, n, cursor).fetches == CeilDiv(w.untilMs - cursor, Step(w))
    decreases w.untilMs - cursor
  {
    hide From, Range, Spaced, CeilDiv, Yielded, Step;
    var rest := From(venue, cursor);
    var page := service(n, cursor);
    assert page == Earliest(venue, cursor, w.chunkSize);
    CeilPositive(w.untilMs - cursor, Step(w));
    StepIs(w);
    assert rest != [];
    NextAnswer(w, venue, cursor);
    var next := NextCursor(w, page);
    assert page[|page| - 1] == rest[|page| - 1];
    assert (|page| - 1) * w.timeframeMs + w.timeframeMs == |page| * w.timeframeMs;
    assert next == cursor + |page| * w.timeframeMs;
    if next < w.untilMs {
      assert |page| == w.chunkSize;
      assert From(venue, next) == rest[|page|..];
      Shift(w, rest, cursor, next, |page|);
      FetchesExact(w, service, venue, n + 1, next);
      CeilStep(w.untilMs - cursor, Step(w), Step(w));
    } else {
      CeilOrder(|page|, w.chunkSize, w.timeframeMs);
    }
  }

  lemma Shift(w: Window, rest: seq<VenueCandle>, cursor: int, next: int, m: nat)
    requires m <= |rest| && next == cursor + m * w.timeframeMs
    requires forall k | 0 <= k < |rest| :: rest[k].openedAtMs == cursor + k * w.timeframeMs
    ensures forall k | 0 <= k < |rest[m..]| :: rest[m..][k].openedAtMs == next + k * w.timeframeMs
    ensures next + |rest[m..]| * w.timeframeMs == cursor + |rest| * w.timeframeMs
  {}

  /** On contiguous bars aligned to `since` the estimate is the number of fetches. */
  lemma EstimateIsExact(w: Window, service: Service, venue: seq<VenueCandle>)
    requires Valid(w) && Spaced(venue, w.timeframeMs) && AnswersEarliest(w, service, venue)
    requires Contiguous(w, venue, w.sinceMs)
    ensures Pages(w, service, 0, w.sinceMs).fetches == TotalChunksEstimate(w)
  {
    hide Pages, CeilDiv, Contiguous;
    FetchesExact(w, service, venue, 0, w.sinceMs);
    CeilPositive(w.untilMs - w.sinceMs, Step(w));
  }
}
