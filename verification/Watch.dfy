/**
 The position watch: what one tick reports, and what a whole run of ticks leaves behind.

 `Follow(terms, ticks, k)` is the visible state of a watch after k ticks.  Its laws: the first
 terminal tick decides, every event fires at most once and exactly when its condition was met, the
 log never reaches its cap, a polling client sees it exactly once, and long and short are mirror
 images.
 */
module Watch {
  import opened Base
  import opened Rounding
  import opened Paper

  datatype EventType = ApproachesStop | ApproachesTake | Breakeven | StopHit | TakeHit | Timeout {
    predicate Terminal() {
      StopHit? || TakeHit? || Timeout?
    }
  }

  datatype WatchStatus = Running | HitStop | HitTake | TimedOut | Cancelled | Error

  datatype WatchEvent = WatchEvent(kind: EventType, tsMs: int, price: real)

  datatype WatchTerms = WatchTerms(side: Side, entry: real, stop: real, take: real, sizeQuote: Option<real>,
                                   startedAtMs: int, maxDurationSec: int)

  datatype Tick = Tick(price: real, tsMs: int)

  datatype View = View(status: WatchStatus, currentPrice: Option<real>, lastTickAtMs: Option<int>,
                       pnlQuote: Option<real>, pnlPct: Option<real>, events: seq<WatchEvent>, fired: set<EventType>)

  const MIN_DURATION_SEC := 60
  const MAX_DURATION_SEC := 86_400
  const EVENT_BUFFER_CAP := 200
  const BAND_RATIO: real := 0.2
  const BASIS: real := 10000.0

  predicate WatchValid(t: WatchTerms) {
    LevelsValid(t.side, t.entry, t.stop, t.take) && MIN_DURATION_SEC <= t.maxDurationSec <= MAX_DURATION_SEC
  }

  function StatusOf(kind: EventType): WatchStatus
    requires kind.Terminal()
  {
    match kind
    case StopHit => HitStop
    case TakeHit => HitTake
    case Timeout => TimedOut
  }

  // ----- level predicates ------------------------------------------------------------------

  predicate IsStopHit(t: WatchTerms, price: real) {
    if t.side.Long? then price <= t.stop else price >= t.stop
  }

  predicate IsTakeHit(t: WatchTerms, price: real) {
    if t.side.Long? then price >= t.take else price <= t.take
  }

  predicate IsNearStop(t: WatchTerms, price: real) {
    var band := Abs(t.entry - t.stop) * BAND_RATIO;
    if t.side.Long? then t.stop < price <= t.stop + band else t.stop - band <= price < t.stop
  }

  predicate IsNearTake(t: WatchTerms, price: real) {
    var band := Abs(t.take - t.entry) * BAND_RATIO;
    if t.side.Long? then t.take - band <= price < t.take else t.take < price <= t.take + band
  }

  predicate IsBreakeven(t: WatchTerms, price: real) {
    var r := Abs(t.entry - t.stop);
    if t.side.Long? then price - t.entry >= r else t.entry - price >= r
  }

  // ----- detection -------------------------------------------------------------------------

  function DeadlineMs(t: WatchTerms): int {
    t.startedAtMs + t.maxDurationSec * 1000
  }

  /** Stop before take before timeout. */
  function TerminalKind(t: WatchTerms, tick: Tick): Option<EventType> {
    if IsStopHit(t, tick.price) then Some(StopHit)
    else if IsTakeHit(t, tick.price) then Some(TakeHit)
    else if tick.tsMs >= DeadlineMs(t) then Some(Timeout)
    else None
  }

  /** The condition of a non-terminal event. */
  predicate Met(t: WatchTerms, kind: EventType, price: real) {
    match kind
    case ApproachesStop => IsNearStop(t, price)
    case ApproachesTake => IsNearTake(t, price)
    case Breakeven => IsBreakeven(t, price)
    case _ => false
  }

  function Report(t: WatchTerms, fired: set<EventType>, kind: EventType, tick: Tick): seq<WatchEvent> {
    if kind !in fired && Met(t, kind, tick.price) then [WatchEvent(kind, tick.tsMs, tick.price)] else []
  }

  function Detect(t: WatchTerms, fired: set<EventType>, tick: Tick): seq<WatchEvent> {
    match TerminalKind(t, tick)
    case Some(kind) => [WatchEvent(kind, tick.tsMs, tick.price)]
    case None =>
      Report(t, fired, ApproachesStop, tick) + Report(t, fired, ApproachesTake, tick)
          + Report(t, fired, Breakeven, tick)
  }

  // ----- one tick --------------------------------------------------------------------------

  /** Append, keeping only the newest entries when the cap is exceeded. */
  function Append(events: seq<WatchEvent>, e: WatchEvent): seq<WatchEvent> {
    var all := events + [e];
    if |all| > EVENT_BUFFER_CAP then all[|all| - EVENT_BUFFER_CAP..] else all
  }

  function PnlPct(t: WatchTerms, price: real): real
    requires t.entry > 0.0
  {
    if t.side.Long? then (price - t.entry) / t.entry else (t.entry - price) / t.entry
  }

  function RoundedPct(t: WatchTerms, price: real): real
    requires t.entry > 0.0
  {
    Quantize(PnlPct(t, price), BASIS)
  }

  function RawQuote(t: WatchTerms, price: real): real
    requires t.entry > 0.0 && t.sizeQuote.Some?
  {
    t.sizeQuote.value * PnlPct(t, price)
  }

  function RoundedQuote(t: WatchTerms, price: real): real
    requires t.entry > 0.0 && t.sizeQuote.Some?
  {
    Quantize(RawQuote(t, price), CENTS)
  }

  function Priced(t: WatchTerms, v: View, tick: Tick): View
    requires t.entry > 0.0
  {
    v.(currentPrice := Some(tick.price), lastTickAtMs := Some(tick.tsMs),
       pnlPct := Some(RoundedPct(t, tick.price)),
       pnlQuote := if t.sizeQuote.Some? then Some(RoundedQuote(t, tick.price)) else v.pnlQuote)
  }

  /** Log the events in order; a terminal one sets the status and ends the processing. */
  function Logged(v: View, events: seq<WatchEvent>): View
    decreases |events|
  {
    if events == [] then v
    else
      var e := events[0];
      var logged := v.(events := Append(v.events, e));
      if e.kind.Terminal() then logged.(status := StatusOf(e.kind))
      else Logged(logged.(fired := v.fired + {e.kind}), events[1..])
  }

  function OnTick(t: WatchTerms, v: View, tick: Tick): View
    requires t.entry > 0.0
  {
    Logged(Priced(t, v, tick), Detect(t, v.fired, tick))
  }

  const FRESH: View := View(Running, None, None, None, None, [], {})

  /** The state after k ticks; ticks after the watch has ended are never read. */
  function Follow(t: WatchTerms, ticks: seq<Tick>, k: nat): View
    requires t.entry > 0.0 && k <= |ticks|
  {
    if k == 0 then FRESH
    else
      var v := Follow(t, ticks, k - 1);
      if v.status.Running? then OnTick(t, v, ticks[k - 1]) else v
  }

  /** How the tick stream stops after the ticks it delivered. */
  datatype StreamEnd = Exhausted | CancelledThere | FailedThere

  // ----- the mutable watch -----------------------------------------------------------------

  class WatchState {
    const terms: WatchTerms
    var status: WatchStatus
    var currentPrice: Option<real>
    var lastTickAtMs: Option<int>
    var pnlQuote: Option<real>
    var pnlPct: Option<real>
    var events: seq<WatchEvent>
    var fired: set<EventType>

    function Seen(): View
      reads this
    {
      View(status, currentPrice, lastTickAtMs, pnlQuote, pnlPct, events, fired)
    }

    constructor (terms: WatchTerms)
      requires WatchValid(terms)
      ensures this.terms == terms && Seen() == FRESH
    {
      this.terms := terms;
      status, currentPrice, lastTickAtMs, pnlQuote, pnlPct := Running, None, None, None, None;
      events, fired := [], {};
    }

    method AppendEvent(e: WatchEvent)
      modifies this`events
      ensures events == Append(old(events), e)
      ensures |events| == if |old(events)| >= 200 then 200 else |old(events)| + 1
      ensures events == (old(events) + [e])[|old(events)| + 1 - |events|..]
    {
      events := events + [e];
      if |events| > EVENT_BUFFER_CAP {
        events := events[|events| - EVENT_BUFFER_CAP..];
      }
    }

    method UpdatePnl(price: real)
      requires terms.entry > 0.0
      modifies this`pnlPct, this`pnlQuote
      ensures pnlPct == Some(RoundedPct(terms, price))
      ensures pnlQuote == if terms.sizeQuote.Some? then Some(RoundedQuote(terms, price)) else old(pnlQuote)
    {
      pnlPct := Some(RoundedPct(terms, price));
      if terms.sizeQuote.Some? {
        pnlQuote := Some(RoundedQuote(terms, price));
      }
    }

    /** One turn of the loop body: price fields, then the detected events one by one. */
    method Process(tick: Tick) returns (terminal: Option<WatchEvent>)
      requires terms.entry > 0.0
      modifies this
      ensures Seen() == OnTick(terms, old(Seen()), tick)
      ensures terminal == match TerminalKind(terms, tick)
                          case Some(kind) => Some(WatchEvent(kind, tick.tsMs, tick.price))
                          case None => None
    {
      hide RoundedPct, RoundedQuote, TerminalKind, Met;
      currentPrice := Some(tick.price);
      lastTickAtMs := Some(tick.tsMs);
      UpdatePnl(tick.price);
      ghost var priced := Seen();
      assert priced == Priced(terms, old(Seen()), tick);
      var detected := Detect(terms, fired, tick);
      DetectShape(terms, fired, tick);
      var i := 0;
      while i < |detected|
        invariant 0 <= i <= |detected|
        invariant Logged(Seen(), detected[i..]) == Logged(priced, detected)
        invariant forall j | 0 <= j < i :: !detected[j].kind.Terminal()
      {
        var e := detected[i];
        assert detected[i..][0] == e && detected[i..][1..] == detected[i + 1..];
        AppendEvent(e);
        if e.kind.Terminal() {
          status := StatusOf(e.kind);
          return Some(e);
        }
        fired := fired + {e.kind};
        i := i + 1;
      }
      return None;
    }

    /** The watch loop over the ticks the stream delivers before it stops. */
    method Run(ticks: seq<Tick>, how: StreamEnd) returns (terminal: Option<WatchEvent>)
      requires terms.entry > 0.0 && Seen() == FRESH
      modifies this
      ensures var v := Follow(terms, ticks, |ticks|);
              Seen() == if v.status.Running? && how.CancelledThere? then v.(status := Cancelled)
                        else if v.status.Running? && how.FailedThere? then v.(status := Error)
                        else v
      ensures terminal.Some? <==> exists i | 0 <= i < |ticks| :: TerminalKind(terms, ticks[i]).Some?
      ensures terminal.Some? ==> events != [] && terminal.value == events[|events| - 1]
    {
      hide OnTick, TerminalKind;
      for k := 0 to |ticks|
        invariant Seen() == Follow(terms, ticks, k) && status.Running?
        invariant forall i | 0 <= i < k :: TerminalKind(terms, ticks[i]).None?
      {
        ghost var before := Seen();
        terminal := Process(ticks[k]);
        TickOutcome(terms, before, ticks[k]);
        if terminal.Some? {
          StaysEnded(terms, ticks, k + 1, |ticks|);
          return;
        }
      }
      if how.CancelledThere? {
        status := Cancelled;
      } else if how.FailedThere? {
        status := Error;
      }
      terminal := None;
    }
  }

  lemma DetectShape(t: WatchTerms, fired: set<EventType>, tick: Tick)
    ensures match TerminalKind(t, tick)
            case Some(kind) => Detect(t, fired, tick) == [WatchEvent(kind, tick.tsMs, tick.price)] && kind.Terminal()
            case None => forall j | 0 <= j < |Detect(t, fired, tick)| :: !Detect(t, fired, tick)[j].kind.Terminal()
  {}

  lemma {:induction false} StaysEnded(t: WatchTerms, ticks: seq<Tick>, j: nat, k: nat)
    requires t.entry > 0.0 && j <= k <= |ticks| && !Follow(t, ticks, j).status.Running?
    ensures Follow(t, ticks, k) == Follow(t, ticks, j)
  {
    if j < k { StaysEnded(t, ticks, j, k - 1); }
  }

  // ----- the log ---------------------------------------------------------------------------

  /** The non-terminal kinds. */
  function Soft(): set<EventType> {
    {ApproachesStop, ApproachesTake, Breakeven}
  }

  function KindsOf(events: seq<WatchEvent>): set<EventType> {
    set i | 0 <= i < |events| :: events[i].kind
  }

  ghost predicate Distinct(events: seq<WatchEvent>) {
    forall i, j | 0 <= i < j < |events| :: events[i].kind != events[j].kind
  }

  /** A running watch has logged exactly the fired kinds, once each; an ended one has its verdict last. */
  ghost predicate LogInv(v: View) {
    && Distinct(v.events)
    && v.fired <= Soft()
    && (v.status.Running? ==> KindsOf(v.events) == v.fired)
    && (!v.status.Running? ==>
          && v.events != []
          && v.events[|v.events| - 1].kind.Terminal()
          && v.status == StatusOf(v.events[|v.events| - 1].kind)
          && KindsOf(v.events[..|v.events| - 1]) == v.fired)
  }

  lemma {:induction false} DistinctCount(events: seq<WatchEvent>)
    requires Distinct(events)
    ensures |events| == |KindsOf(events)|
  {
    if events != [] {
      var init, last := events[..|events| - 1], events[|events| - 1];
      DistinctCount(init);
      assert last.kind !in KindsOf(init);
      assert KindsOf(events) == KindsOf(init) + {last.kind} by {
        KindsSnoc(init, last);
        assert events == init + [last];
      }
    }
  }

  lemma KindsSnoc(events: seq<WatchEvent>, e: WatchEvent)
    ensures KindsOf(events + [e]) == KindsOf(events) + {e.kind}
  {
    var all := events + [e];
    forall kind | kind in KindsOf(events) + {e.kind} ensures kind in KindsOf(all) {
      if kind == e.kind {
        assert all[|events|].kind == kind;
      } else {
        var i :| 0 <= i < |events| && events[i].kind == kind;
        assert all[i].kind == kind;
      }
    }
  }

  lemma SoftCount(kinds: set<EventType>)
    requires kinds <= Soft()
    ensures |kinds| <= 3
  {
    SubsetCount(kinds, Soft());
  }

  lemma {:induction false} SubsetCount(a: set<EventType>, b: set<EventType>)
    requires a <= b
    ensures |a| <= |b|
  {
    if a != {} {
      var x :| x in a;
      SubsetCount(a - {x}, b - {x});
    }
  }

  /** Three non-terminal kinds and one verdict: the log stays far below its cap. */
  lemma LogBound(v: View)
    requires LogInv(v)
    ensures |v.events| <= (if v.status.Running? then 3 else 4)
  {
    SoftCount(v.fired);
    if v.status.Running? {
      DistinctCount(v.events);
    } else {
      DistinctCount(v.events[..|v.events| - 1]);
    }
  }

  /** Appending one fresh non-terminal event to a running log. */
  lemma LogSoft(v: View, e: WatchEvent)
    requires LogInv(v) && v.status.Running? && e.kind in Soft() && e.kind !in v.fired
    ensures Append(v.events, e) == v.events + [e]
    ensures LogInv(v.(events := v.events + [e], fired := v.fired + {e.kind}))
  {
    LogBound(v);
    KindsSnoc(v.events, e);
    forall i | 0 <= i < |v.events| ensures v.events[i].kind != e.kind {
      assert v.events[i].kind in KindsOf(v.events);
    }
  }

  lemma LogTerminal(v: View, e: WatchEvent)
    requires LogInv(v) && v.status.Running? && e.kind.Terminal()
    ensures Append(v.events, e) == v.events + [e]
    ensures LogInv(v.(events := v.events + [e], status := StatusOf(e.kind)))
  {
    LogBound(v);
    var all := v.events + [e];
    assert all[..|all| - 1] == v.events;
    forall i | 0 <= i < |v.events| ensures v.events[i].kind != e.kind {
      assert v.events[i].kind in KindsOf(v.events);
    }
  }

  /** What one tick does to a running watch with a sound log. */
  lemma TickOutcome(t: WatchTerms, v: View, tick: Tick)
    requires t.entry > 0.0 && v.status.Running?
    ensures var w := OnTick(t, v, tick);
            && (w.status.Running? <==> TerminalKind(t, tick).None?)
            && (TerminalKind(t, tick).Some? ==>
                  && w.status == StatusOf(TerminalKind(t, tick).value)
                  && w.events != []
                  && w.events[|w.events| - 1] == WatchEvent(TerminalKind(t, tick).value, tick.tsMs, tick.price)
                  && w.fired == v.fired)
            && w.currentPrice == Some(tick.price) && w.lastTickAtMs == Some(tick.tsMs)
            && w.pnlPct == Priced(t, v, tick).pnlPct && w.pnlQuote == Priced(t, v, tick).pnlQuote
  {
    hide TerminalKind, Met, RoundedPct, RoundedQuote;
    DetectShape(t, v.fired, tick);
    LoggedFrame(Priced(t, v, tick), Detect(t, v.fired, tick));
    if TerminalKind(t, tick).Some? {
      var e := Detect(t, v.fired, tick)[0];
      assert Logged(Priced(t, v, tick), [e]).events == Append(v.events, e);
    }
  }

  lemma {:induction false} LoggedFrame(v: View, events: seq<WatchEvent>)
    ensures var w := Logged(v, events);
            && w.currentPrice == v.currentPrice && w.lastTickAtMs == v.lastTickAtMs
            && w.pnlPct == v.pnlPct && w.pnlQuote == v.pnlQuote
            && ((forall j | 0 <= j < |events| :: !events[j].kind.Terminal()) ==> w.status == v.status)
    decreases |events|
  {
    if events != [] {
      var e := events[0];
      if !e.kind.Terminal() {
        LoggedFrame(v.(events := Append(v.events, e), fired := v.fired + {e.kind}), events[1..]);
      }
    }
  }

  lemma {:induction false} LoggedSoft(v: View, events: seq<WatchEvent>)
    requires LogInv(v) && v.status.Running? && Distinct(events)
    requires forall j | 0 <= j < |events| :: events[j].kind in Soft() && events[j].kind !in v.fired
    ensures LogInv(Logged(v, events)) && Logged(v, events).status.Running?
    ensures Logged(v, events).events == v.events + events
    ensures Logged(v, events).fired == v.fired + KindsOf(events)
    decreases |events|
  {
    hide LogInv;
    if events == [] {
    } else {
      var e, rest := events[0], events[1..];
      LogSoft(v, e);
      var w := v.(events := v.events + [e], fired := v.fired + {e.kind});
      forall j | 0 <= j < |rest| ensures rest[j].kind in Soft() && rest[j].kind !in w.fired {
        assert rest[j] == events[j + 1] && events[0].kind != events[j + 1].kind;
      }
      forall i, j | 0 <= i < j < |rest| ensures rest[i].kind != rest[j].kind {
        assert rest[i] == events[i + 1] && rest[j] == events[j + 1];
      }
      LoggedSoft(w, rest);
      assert v.events + [e] + rest == v.events + events;
      assert KindsOf(events) == {e.kind} + KindsOf(rest) by { KindsCons(e, rest); assert events == [e] + rest; }
    }
  }

  lemma KindsCons(e: WatchEvent, rest: seq<WatchEvent>)
    ensures KindsOf([e] + rest) == {e.kind} + KindsOf(rest)
  {
    var all := [e] + rest;
    forall kind | kind in {e.kind} + KindsOf(rest) ensures kind in KindsOf(all) {
      if kind == e.kind {
        assert all[0].kind == kind;
      } else {
        var i :| 0 <= i < |rest| && rest[i].kind == kind;
        assert all[i + 1].kind == kind;
      }
    }
  }

  lemma KindsJoin(a: seq<WatchEvent>, b: seq<WatchEvent>)
    ensures KindsOf(a + b) == KindsOf(a) + KindsOf(b)
  {
    forall kind | kind in KindsOf(a) + KindsOf(b) ensures kind in KindsOf(a + b) {
      if kind in KindsOf(a) {
        var i :| 0 <= i < |a| && a[i].kind == kind;
        assert (a + b)[i].kind == kind;
      } else {
        var i :| 0 <= i < |b| && b[i].kind == kind;
        assert (a + b)[|a| + i].kind == kind;
      }
    }
  }

  lemma DistinctJoin(a: seq<WatchEvent>, b: seq<WatchEvent>)
    requires Distinct(a) && Distinct(b) && KindsOf(a) !! KindsOf(b)
    ensures Distinct(a + b)
  {
    var all := a + b;
    forall i, j | 0 <= i < j < |all| ensures all[i].kind != all[j].kind {
      if i < |a| <= j { assert all[i].kind in KindsOf(a) && all[j].kind in KindsOf(b); }
    }
  }

  lemma ReportKinds(t: WatchTerms, fired: set<EventType>, kind: EventType, tick: Tick)
    ensures Distinct(Report(t, fired, kind, tick))
    ensures KindsOf(Report(t, fired, kind, tick)) == if kind !in fired && Met(t, kind, tick.price) then {kind} else {}
  {
    hide Met;
    var r := Report(t, fired, kind, tick);
    if r != [] { assert r[0].kind == kind; }
  }

  /** On a quiet tick the detector names each met kind that has not fired, once. */
  lemma DetectSoft(t: WatchTerms, fired: set<EventType>, tick: Tick)
    requires TerminalKind(t, tick).None?
    ensures var events := Detect(t, fired, tick);
            && Distinct(events)
            && (forall j | 0 <= j < |events| :: events[j].kind in Soft() && events[j].kind !in fired)
            && KindsOf(events) == set kind | kind in Soft() && kind !in fired && Met(t, kind, tick.price)
  {
    hide Met, TerminalKind, Report, KindsOf, Distinct;
    var a, b := Report(t, fired, ApproachesStop, tick), Report(t, fired, ApproachesTake, tick);
    var c := Report(t, fired, Breakeven, tick);
    ReportKinds(t, fired, ApproachesStop, tick);
    ReportKinds(t, fired, ApproachesTake, tick);
    ReportKinds(t, fired, Breakeven, tick);
    KindsJoin(a, b);
    KindsJoin(a + b, c);
    DistinctJoin(a, b);
    DistinctJoin(a + b, c);
    KindsHold(a + b + c);
  }

  lemma KindsHold(events: seq<WatchEvent>)
    ensures forall j | 0 <= j < |events| :: events[j].kind in KindsOf(events)
  {}

  lemma TickKeepsLog(t: WatchTerms, v: View, tick: Tick)
    requires t.entry > 0.0 && LogInv(v) && v.status.Running?
    ensures var w := OnTick(t, v, tick);
            && LogInv(w)
            && w.events == v.events + Detect(t, v.fired, tick)
            && (TerminalKind(t, tick).None? ==>
                  w.fired == v.fired + (set kind | kind in Soft() && Met(t, kind, tick.price)))
  {
    hide TerminalKind, Met, RoundedPct, RoundedQuote, Report;
    var p := Priced(t, v, tick);
    assert LogInv(p);
    DetectShape(t, v.fired, tick);
    if TerminalKind(t, tick).Some? {
      var e := Detect(t, v.fired, tick)[0];
      LogTerminal(p, e);
      assert Logged(p, [e]) == p.(events := p.events + [e], status := StatusOf(e.kind));
    } else {
      DetectSoft(t, v.fired, tick);
      LoggedSoft(p, Detect(t, v.fired, tick));
    }
  }

  /** Every run keeps a sound, bounded, append-only log. */
  lemma {:induction false} FollowLog(t: WatchTerms, ticks: seq<Tick>, k: nat)
    requires t.entry > 0.0 && k <= |ticks|
    ensures LogInv(Follow(t, ticks, k)) && |Follow(t, ticks, k).events| <= 4 < EVENT_BUFFER_CAP
    ensures k > 0 ==> Follow(t, ticks, k - 1).events <= Follow(t, ticks, k).events
  {
    hide OnTick, LogInv, Detect;
    if k == 0 {
      assert LogInv(FRESH) by { FreshLog(); }
    } else {
      FollowLog(t, ticks, k - 1);
      var v := Follow(t, ticks, k - 1);
      if v.status.Running? { TickKeepsLog(t, v, ticks[k - 1]); }
    }
    LogBound(Follow(t, ticks, k));
  }

  lemma FreshLog()
    ensures LogInv(FRESH)
  {}

  lemma {:induction false} LogGrows(t: WatchTerms, ticks: seq<Tick>, j: nat, k: nat)
    requires t.entry > 0.0 && j <= k <= |ticks|
    ensures Follow(t, ticks, j).events <= Follow(t, ticks, k).events
  {
    hide Follow, LogInv;
    if j < k {
      LogGrows(t, ticks, j, k - 1);
      FollowLog(t, ticks, k);
    }
  }

  // ----- the first terminal tick decides ---------------------------------------------------

  ghost predicate QuietUntil(t: WatchTerms, ticks: seq<Tick>, k: nat)
    requires k <= |ticks|
  {
    forall i | 0 <= i < k :: TerminalKind(t, ticks[i]).None?
  }

  /**
   The watch runs on exactly while no tick is terminal; while it runs, the fired kinds are exactly
   those whose condition some tick has met.
   */
  lemma {:induction false} RunsWhileQuiet(t: WatchTerms, ticks: seq<Tick>, k: nat)
    requires t.entry > 0.0 && k <= |ticks|
    ensures Follow(t, ticks, k).status.Running? <==> QuietUntil(t, ticks, k)
    ensures QuietUntil(t, ticks, k) ==>
              forall kind :: kind in Follow(t, ticks, k).fired <==>
                             kind in Soft() && exists i | 0 <= i < k :: Met(t, kind, ticks[i].price)
  {
    hide OnTick, TerminalKind, LogInv, Met, Detect;
    if k > 0 {
      RunsWhileQuiet(t, ticks, k - 1);
      var v := Follow(t, ticks, k - 1);
      if v.status.Running? {
        FollowLog(t, ticks, k - 1);
        TickOutcome(t, v, ticks[k - 1]);
        TickKeepsLog(t, v, ticks[k - 1]);
      }
    }
  }

  /** With the first terminal tick at i, the whole run is decided there and later ticks change nothing. */
  lemma FirstTerminalDecides(t: WatchTerms, ticks: seq<Tick>, i: nat)
    requires t.entry > 0.0 && i < |ticks| && QuietUntil(t, ticks, i) && TerminalKind(t, ticks[i]).Some?
    ensures var w := Follow(t, ticks, |ticks|); var kind := TerminalKind(t, ticks[i]).value;
            && kind.Terminal() && w.status == StatusOf(kind)
            && w.currentPrice == Some(ticks[i].price) && w.lastTickAtMs == Some(ticks[i].tsMs)
            && w.events == Follow(t, ticks, i).events + [WatchEvent(kind, ticks[i].tsMs, ticks[i].price)]
            && w.pnlPct == Some(RoundedPct(t, ticks[i].price))
            && (t.sizeQuote.Some? ==> w.pnlQuote == Some(RoundedQuote(t, ticks[i].price)))
  {
    hide OnTick, TerminalKind, LogInv, RoundedPct, RoundedQuote;
    RunsWhileQuiet(t, ticks, i);
    FollowLog(t, ticks, i);
    var v := Follow(t, ticks, i);
    DetectShape(t, v.fired, ticks[i]);
    TickOutcome(t, v, ticks[i]);
    TickKeepsLog(t, v, ticks[i]);
    assert Follow(t, ticks, i + 1) == OnTick(t, v, ticks[i]);
    StaysEnded(t, ticks, i + 1, |ticks|);
  }

  lemma {:induction false} FirstTerminal(t: WatchTerms, ticks: seq<Tick>, k: nat) returns (i: nat)
    requires k <= |ticks| && !QuietUntil(t, ticks, k)
    ensures i < k && QuietUntil(t, ticks, i) && TerminalKind(t, ticks[i]).Some?
  {
    hide TerminalKind;
    if QuietUntil(t, ticks, k - 1) {
      i := k - 1;
    } else {
      i := FirstTerminal(t, ticks, k - 1);
    }
  }

  /** The last event of an ended watch carries its status, price and time, and its pnl is the pnl at that price. */
  lemma VerdictFacts(t: WatchTerms, ticks: seq<Tick>)
    requires t.entry > 0.0 && !Follow(t, ticks, |ticks|).status.Running?
    ensures var w := Follow(t, ticks, |ticks|);
            && w.events != [] && w.events[|w.events| - 1].kind.Terminal()
            && var last := w.events[|w.events| - 1];
               && w.status == StatusOf(last.kind) && w.currentPrice == Some(last.price)
               && w.lastTickAtMs == Some(last.tsMs)
               && (t.sizeQuote.Some? ==> w.pnlQuote == Some(RoundedQuote(t, last.price)))
  {
    hide TerminalKind, RoundedQuote, RoundedPct, Follow;
    RunsWhileQuiet(t, ticks, |ticks|);
    var i := FirstTerminal(t, ticks, |ticks|);
    FirstTerminalDecides(t, ticks, i);
  }

  /** The event an ended watch reports to its callback. */
  function Verdict(t: WatchTerms, ticks: seq<Tick>): (e: WatchEvent)
    requires t.entry > 0.0 && !Follow(t, ticks, |ticks|).status.Running?
    ensures e.kind.Terminal()
  {
    VerdictFacts(t, ticks);
    var events := Follow(t, ticks, |ticks|).events;
    events[|events| - 1]
  }

  lemma RawQuoteIsRawPnl(t: WatchTerms, p: Terms, price: real)
    requires t.entry > 0.0 && t.entry == p.entry && t.side == p.side && t.sizeQuote == Some(p.sizeQuote)
    ensures RawQuote(t, price) == RawPnl(p, price)
  {}

  /** The watch's pnl at a price is the pnl the ledger stores for that exit. */
  lemma WatchPnlIsLedgerPnl(t: WatchTerms, p: Terms, price: real)
    requires t.entry > 0.0 && t.entry == p.entry && t.side == p.side && t.sizeQuote == Some(p.sizeQuote)
    ensures RoundedQuote(t, price) == ComputePnl(p, price)
  {
    hide Quantize, RawQuote, RawPnl;
    RawQuoteIsRawPnl(t, p, price);
  }

  // ----- polling ---------------------------------------------------------------------------

  /** A poll returns the events from the cursor on, and the log length as the next cursor. */
  function Poll(v: View, cursor: nat): (seq<WatchEvent>, nat) {
    (if cursor <= |v.events| then v.events[cursor..] else [], |v.events|)
  }

  /** All events a client has received after polling at these tick counts, and its cursor. */
  function Received(t: WatchTerms, ticks: seq<Tick>, polls: seq<nat>): (seq<WatchEvent>, nat)
    requires t.entry > 0.0 && forall i | 0 <= i < |polls| :: polls[i] <= |ticks|
  {
    if polls == [] then ([], 0)
    else
      var (got, cursor) := Received(t, ticks, polls[..|polls| - 1]);
      var (news, next) := Poll(Follow(t, ticks, polls[|polls| - 1]), cursor);
      (got + news, next)
  }

  /** However often it polls, a client that follows the cursor has received exactly the log, in order. */
  lemma {:induction false} PollingIsLossless(t: WatchTerms, ticks: seq<Tick>, polls: seq<nat>)
    requires t.entry > 0.0 && polls != [] && (forall i | 0 <= i < |polls| :: polls[i] <= |ticks|)
    requires forall i | 0 < i < |polls| :: polls[i - 1] <= polls[i]
    ensures Received(t, ticks, polls).0 == Follow(t, ticks, polls[|polls| - 1]).events
    ensures Received(t, ticks, polls).1 == |Follow(t, ticks, polls[|polls| - 1]).events|
  {
    hide Follow;
    var n := |polls|;
    if n > 1 {
      PollingIsLossless(t, ticks, polls[..n - 1]);
      LogGrows(t, ticks, polls[n - 2], polls[n - 1]);
    } else {
      assert polls[..0] == [];
    }
  }

  // ----- mirror symmetry -------------------------------------------------------------------

  function Reflected(t: WatchTerms, price: real): real {
    2.0 * t.entry - price
  }

  function Flip(side: Side): Side {
    if side.Long? then Short else Long
  }

  function MirrorTerms(t: WatchTerms): WatchTerms {
    t.(side := Flip(t.side), stop := Reflected(t, t.stop), take := Reflected(t, t.take))
  }

  function MirrorTick(t: WatchTerms, tick: Tick): Tick {
    tick.(price := Reflected(t, tick.price))
  }

  function MirrorTicks(t: WatchTerms, ticks: seq<Tick>): seq<Tick> {
    seq(|ticks|, i requires 0 <= i < |ticks| => MirrorTick(t, ticks[i]))
  }

  function MirrorEvents(t: WatchTerms, events: seq<WatchEvent>): seq<WatchEvent> {
    seq(|events|, i requires 0 <= i < |events| => events[i].(price := Reflected(t, events[i].price)))
  }

  /** Prices reflected about the entry; status, times, kinds, fired set and pnl unchanged. */
  function MirrorView(t: WatchTerms, v: View): View {
    v.(currentPrice := if v.currentPrice.None? then None else Some(Reflected(t, v.currentPrice.value)),
       events := MirrorEvents(t, v.events))
  }

  lemma MirrorKinds(t: WatchTerms, tick: Tick)
    ensures TerminalKind(MirrorTerms(t), MirrorTick(t, tick)) == TerminalKind(t, tick)
    ensures forall kind :: Met(MirrorTerms(t), kind, MirrorTick(t, tick).price) == Met(t, kind, tick.price)
  {}

  lemma MirrorPct(t: WatchTerms, price: real)
    requires t.entry > 0.0
    ensures RoundedPct(MirrorTerms(t), Reflected(t, price)) == RoundedPct(t, price)
    ensures t.sizeQuote.Some? ==> RoundedQuote(MirrorTerms(t), Reflected(t, price)) == RoundedQuote(t, price)
  {
    hide Quantize, RawQuote, PnlPct;
    MirrorRaw(t, price);
  }

  lemma MirrorRaw(t: WatchTerms, price: real)
    requires t.entry > 0.0
    ensures PnlPct(MirrorTerms(t), Reflected(t, price)) == PnlPct(t, price)
    ensures t.sizeQuote.Some? ==> RawQuote(MirrorTerms(t), Reflected(t, price)) == RawQuote(t, price)
  {}

  lemma MirrorAppend(t: WatchTerms, a: seq<WatchEvent>, b: seq<WatchEvent>)
    ensures MirrorEvents(t, a + b) == MirrorEvents(t, a) + MirrorEvents(t, b)
  {}

  lemma MirrorReport(t: WatchTerms, fired: set<EventType>, kind: EventType, tick: Tick)
    ensures Report(MirrorTerms(t), fired, kind, MirrorTick(t, tick)) == MirrorEvents(t, Report(t, fired, kind, tick))
  {}

  lemma MirrorDetect(t: WatchTerms, fired: set<EventType>, tick: Tick)
    ensures Detect(MirrorTerms(t), fired, MirrorTick(t, tick)) == MirrorEvents(t, Detect(t, fired, tick))
  {
    hide TerminalKind, Report;
    MirrorKinds(t, tick);
    var a, b := Report(t, fired, ApproachesStop, tick), Report(t, fired, ApproachesTake, tick);
    var c := Report(t, fired, Breakeven, tick);
    MirrorReport(t, fired, ApproachesStop, tick);
    MirrorReport(t, fired, ApproachesTake, tick);
    MirrorReport(t, fired, Breakeven, tick);
    MirrorAppend(t, a, b);
    MirrorAppend(t, a + b, c);
  }

  lemma {:induction false} MirrorLogged(t: WatchTerms, v: View, events: seq<WatchEvent>)
    ensures Logged(MirrorView(t, v), MirrorEvents(t, events)) == MirrorView(t, Logged(v, events))
    decreases |events|
  {
    if events != [] {
      var e := events[0];
      var all := v.events + [e];
      MirrorAppend(t, v.events, [e]);
      assert MirrorEvents(t, [e]) == [MirrorEvents(t, events)[0]];
      if |all| > EVENT_BUFFER_CAP {
        assert MirrorEvents(t, all)[|all| - EVENT_BUFFER_CAP..] == MirrorEvents(t, all[|all| - EVENT_BUFFER_CAP..]);
      }
      assert Append(MirrorView(t, v).events, MirrorEvents(t, events)[0]) == MirrorEvents(t, Append(v.events, e));
      assert MirrorEvents(t, events)[1..] == MirrorEvents(t, events[1..]);
      if !e.kind.Terminal() {
        var w := v.(events := Append(v.events, e), fired := v.fired + {e.kind});
        MirrorLogged(t, w, events[1..]);
      }
    }
  }

  lemma MirrorOnTick(t: WatchTerms, v: View, tick: Tick)
    requires t.entry > 0.0
    ensures OnTick(MirrorTerms(t), MirrorView(t, v), MirrorTick(t, tick)) == MirrorView(t, OnTick(t, v, tick))
  {
    hide RoundedPct, RoundedQuote, Detect, Logged;
    MirrorPct(t, tick.price);
    MirrorDetect(t, v.fired, tick);
    assert Priced(MirrorTerms(t), MirrorView(t, v), MirrorTick(t, tick)) == MirrorView(t, Priced(t, v, tick));
    MirrorLogged(t, Priced(t, v, tick), Detect(t, v.fired, tick));
  }

  /** Swapping the side and reflecting levels and ticks about the entry gives the mirrored run. */
  lemma {:induction false} MirrorRun(t: WatchTerms, ticks: seq<Tick>, k: nat)
    requires t.entry > 0.0 && k <= |ticks|
    ensures Follow(MirrorTerms(t), MirrorTicks(t, ticks), k) == MirrorView(t, Follow(t, ticks, k))
  {
    hide OnTick;
    if k > 0 {
      MirrorRun(t, ticks, k - 1);
      MirrorOnTick(t, Follow(t, ticks, k - 1), ticks[k - 1]);
    }
  }
}
