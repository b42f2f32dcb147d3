/**
 What a watch reports, said in prices and times alone.

 `Gain` is the price move in favour of the watched side; every level of a watch is a bound on it.
 */
module WatchLaws {
  import opened Base
  import opened Rounding
  import opened Watch

  /** The price move since the entry, in favour of the side. */
  function Gain(t: WatchTerms, price: real): real {
    if t.side.Long? then price - t.entry else t.entry - price
  }

  predicate AtStop(t: WatchTerms, price: real) {
    Gain(t, price) <= Gain(t, t.stop)
  }

  predicate AtTake(t: WatchTerms, price: real) {
    Gain(t, price) >= Gain(t, t.take)
  }

  predicate Late(t: WatchTerms, tick: Tick) {
    tick.tsMs >= t.startedAtMs + 1000 * t.maxDurationSec
  }

  /** The tick ends the watch. */
  predicate Ends(t: WatchTerms, tick: Tick) {
    AtStop(t, tick.price) || AtTake(t, tick.price) || Late(t, tick)
  }

  /** Within a fifth of the distance from the entry to its level, or one stop distance in favour. */
  predicate Near(t: WatchTerms, kind: EventType, price: real) {
    match kind
    case ApproachesStop => Gain(t, t.stop) < Gain(t, price) <= Gain(t, t.stop) + Abs(t.entry - t.stop) / 5.0
    case ApproachesTake => Gain(t, t.take) - Abs(t.entry - t.take) / 5.0 <= Gain(t, price) < Gain(t, t.take)
    case Breakeven => Gain(t, price) >= Abs(t.entry - t.stop)
    case _ => false
  }

  ghost predicate NoneEnds(t: WatchTerms, ticks: seq<Tick>, k: nat)
    requires k <= |ticks|
  {
    forall j | 0 <= j < k :: !Ends(t, ticks[j])
  }

  ghost predicate NoneNear(t: WatchTerms, kind: EventType, ticks: seq<Tick>, k: nat)
    requires k <= |ticks|
  {
    forall j | 0 <= j < k :: !Near(t, kind, ticks[j].price)
  }

  /** The terminal kind of a tick that ends the watch: stop before take before deadline. */
  predicate Decides(t: WatchTerms, kind: EventType, tick: Tick) {
    match kind
    case StopHit => AtStop(t, tick.price)
    case TakeHit => AtTake(t, tick.price) && !AtStop(t, tick.price)
    case Timeout => Late(t, tick) && !AtStop(t, tick.price) && !AtTake(t, tick.price)
    case _ => false
  }

  /** Tick i of a watch that is still running logs this event. */
  ghost predicate Logs(t: WatchTerms, ticks: seq<Tick>, i: nat, e: WatchEvent)
    requires i < |ticks|
  {
    && NoneEnds(t, ticks, i) && e.tsMs == ticks[i].tsMs && e.price == ticks[i].price
    && if e.kind.Terminal() then Decides(t, e.kind, ticks[i])
       else !Ends(t, ticks[i]) && Near(t, e.kind, ticks[i].price) && NoneNear(t, e.kind, ticks, i)
  }

  lemma KindMeaning(t: WatchTerms, tick: Tick)
    ensures TerminalKind(t, tick).Some? <==> Ends(t, tick)
    ensures forall kind :: TerminalKind(t, tick) == Some(kind) <==> Decides(t, kind, tick)
  {}

  lemma MetMeaning(t: WatchTerms, kind: EventType, price: real)
    ensures Met(t, kind, price) <==> Near(t, kind, price)
  {}

  lemma QuietMeaning(t: WatchTerms, ticks: seq<Tick>, k: nat)
    requires k <= |ticks|
    ensures QuietUntil(t, ticks, k) <==> NoneEnds(t, ticks, k)
  {
    hide TerminalKind, Ends;
    forall j | 0 <= j < k { KindMeaning(t, ticks[j]); }
  }

  lemma DetectExact(t: WatchTerms, fired: set<EventType>, tick: Tick, e: WatchEvent)
    ensures e in Detect(t, fired, tick) <==>
            && e.tsMs == tick.tsMs && e.price == tick.price
            && if e.kind.Terminal() then TerminalKind(t, tick) == Some(e.kind)
               else TerminalKind(t, tick).None? && e.kind !in fired && Met(t, e.kind, tick.price)
  {
    hide TerminalKind, Met;
    var a, b := Report(t, fired, ApproachesStop, tick), Report(t, fired, ApproachesTake, tick);
    var c := Report(t, fired, Breakeven, tick);
    assert e in a + b + c <==> e in a || e in b || e in c;
    assert e in a <==> e == WatchEvent(ApproachesStop, tick.tsMs, tick.price) && a != [];
    assert e in b <==> e == WatchEvent(ApproachesTake, tick.tsMs, tick.price) && b != [];
    assert e in c <==> e == WatchEvent(Breakeven, tick.tsMs, tick.price) && c != [];
    DetectShape(t, fired, tick);
  }

  lemma FiredMeaning(t: WatchTerms, ticks: seq<Tick>, k: nat, kind: EventType)
    requires t.entry > 0.0 && k <= |ticks| && NoneEnds(t, ticks, k) && !kind.Terminal()
    ensures kind !in Follow(t, ticks, k).fired <==> NoneNear(t, kind, ticks, k)
  {
    hide Follow, Near, Met, Ends, TerminalKind;
    QuietMeaning(t, ticks, k);
    RunsWhileQuiet(t, ticks, k);
    forall j | 0 <= j < k { MetMeaning(t, kind, ticks[j].price); }
    assert kind in Soft();
  }

  /** What tick k adds to the log. */
  lemma TickLogs(t: WatchTerms, ticks: seq<Tick>, k: nat, e: WatchEvent)
    requires t.entry > 0.0 && k < |ticks| && NoneEnds(t, ticks, k)
    ensures Follow(t, ticks, k + 1).events ==
            Follow(t, ticks, k).events + Detect(t, Follow(t, ticks, k).fired, ticks[k])
    ensures e in Detect(t, Follow(t, ticks, k).fired, ticks[k]) <==> Logs(t, ticks, k, e)
  {
    hide OnTick, Near, Met, Ends, TerminalKind, Decides, LogInv, Detect, NoneEnds, NoneNear;
    var v := Follow(t, ticks, k);
    QuietMeaning(t, ticks, k);
    RunsWhileQuiet(t, ticks, k);
    FollowLog(t, ticks, k);
    TickKeepsLog(t, v, ticks[k]);
    DetectExact(t, v.fired, ticks[k], e);
    KindMeaning(t, ticks[k]);
    MetMeaning(t, e.kind, ticks[k].price);
    if !e.kind.Terminal() { FiredMeaning(t, ticks, k, e.kind); }
  }

  /** The log holds exactly the events that some tick, read while the watch was running, logs. */
  lemma {:induction false} EventExact(t: WatchTerms, ticks: seq<Tick>, k: nat, e: WatchEvent)
    requires t.entry > 0.0 && k <= |ticks|
    ensures e in Follow(t, ticks, k).events <==> exists i | 0 <= i < k :: Logs(t, ticks, i, e)
  {
    hide OnTick, NoneNear, Near, Ends, Decides;
    if k > 0 {
      EventExact(t, ticks, k - 1, e);
      QuietMeaning(t, ticks, k - 1);
      RunsWhileQuiet(t, ticks, k - 1);
      if NoneEnds(t, ticks, k - 1) { TickLogs(t, ticks, k - 1, e); }
    }
  }

  // ----- the status ------------------------------------------------------------------------

  /** Tick i is the first that ends the watch, and it does so by this kind. */
  ghost predicate EndsBy(t: WatchTerms, ticks: seq<Tick>, i: nat, kind: EventType)
    requires i < |ticks|
  {
    NoneEnds(t, ticks, i) && Decides(t, kind, ticks[i])
  }

  lemma DecidesOnce(t: WatchTerms, tick: Tick)
    ensures Ends(t, tick) <==> Decides(t, StopHit, tick) || Decides(t, TakeHit, tick) || Decides(t, Timeout, tick)
    ensures forall a, b :: Decides(t, a, tick) && Decides(t, b, tick) ==> a == b
  {}

  lemma {:induction false} EndedBy(t: WatchTerms, ticks: seq<Tick>, k: nat) returns (i: nat)
    requires t.entry > 0.0 && k <= |ticks| && !NoneEnds(t, ticks, k)
    ensures i < k && NoneEnds(t, ticks, i) && TerminalKind(t, ticks[i]).Some?
    ensures Follow(t, ticks, k).status == StatusOf(TerminalKind(t, ticks[i]).value)
  {
    hide OnTick, Ends, TerminalKind;
    if NoneEnds(t, ticks, k - 1) {
      i := k - 1;
      QuietMeaning(t, ticks, i);
      RunsWhileQuiet(t, ticks, i);
      KindMeaning(t, ticks[i]);
      TickOutcome(t, Follow(t, ticks, i), ticks[i]);
    } else {
      i := EndedBy(t, ticks, k - 1);
      StaysEnded(t, ticks, k - 1, k);
    }
  }

  lemma EndsByFirst(t: WatchTerms, ticks: seq<Tick>, i: nat, j: nat, a: EventType, b: EventType)
    requires i < |ticks| && j < |ticks| && EndsBy(t, ticks, i, a) && EndsBy(t, ticks, j, b)
    ensures i == j && a == b
  {
    hide Decides, Ends;
    DecidesOnce(t, ticks[i]);
    DecidesEnds(t, ticks[i], a);
    DecidesEnds(t, ticks[j], b);
  }

  /**
   A watch is over exactly when some tick read reached its stop, its take or its deadline; the first such
   tick says how: at the stop, else at the take, else too late.
   */
  lemma StatusExact(t: WatchTerms, ticks: seq<Tick>, k: nat)
    requires t.entry > 0.0 && k <= |ticks|
    ensures var status := Follow(t, ticks, k).status;
            && (status == Running <==> NoneEnds(t, ticks, k))
            && (status == HitStop <==> exists i | 0 <= i < k :: EndsBy(t, ticks, i, StopHit))
            && (status == HitTake <==> exists i | 0 <= i < k :: EndsBy(t, ticks, i, TakeHit))
            && (status == TimedOut <==> exists i | 0 <= i < k :: EndsBy(t, ticks, i, Timeout))
            && status != Cancelled && status != Error
  {
    hide Follow, Ends, Decides, TerminalKind;
    QuietMeaning(t, ticks, k);
    RunsWhileQuiet(t, ticks, k);
    if NoneEnds(t, ticks, k) {
      forall i, kind | 0 <= i < k ensures !EndsBy(t, ticks, i, kind) { DecidesEnds(t, ticks[i], kind); }
    } else {
      var i := EndedBy(t, ticks, k);
      var kind := TerminalKind(t, ticks[i]).value;
      KindMeaning(t, ticks[i]);
      DecidesEnds(t, ticks[i], kind);
      assert EndsBy(t, ticks, i, kind);
      forall j, other | 0 <= j < k && EndsBy(t, ticks, j, other) ensures other == kind {
        EndsByFirst(t, ticks, i, j, kind, other);
      }
    }
  }

  lemma DecidesEnds(t: WatchTerms, tick: Tick, kind: EventType)
    ensures Decides(t, kind, tick) ==> Ends(t, tick) && kind.Terminal()
  {}

  // ----- the order of the log --------------------------------------------------------------

  /** Events of one tick are logged in this order. */
  function Rank(kind: EventType): nat {
    match kind
    case ApproachesStop => 0
    case ApproachesTake => 1
    case _ => 2
  }

  lemma DetectOrder(t: WatchTerms, fired: set<EventType>, tick: Tick)
    ensures var events := Detect(t, fired, tick);
            forall a, b | 0 <= a < b < |events| :: Rank(events[a].kind) < Rank(events[b].kind)
  {
    hide Met;
    DetectShape(t, fired, tick);
  }

  /** The log is in the order of the ticks, and within a tick stop before take before breakeven. */
  ghost predicate Before(t: WatchTerms, ticks: seq<Tick>, k: nat, d: WatchEvent, e: WatchEvent)
    requires k <= |ticks|
  {
    forall i, j | 0 <= i < k && 0 <= j < k && Logs(t, ticks, i, d) && Logs(t, ticks, j, e) ::
      i < j || (i == j && Rank(d.kind) < Rank(e.kind))
  }

  lemma LogsOnce(t: WatchTerms, ticks: seq<Tick>, i: nat, j: nat, e: WatchEvent)
    requires i < |ticks| && j < |ticks| && Logs(t, ticks, i, e) && Logs(t, ticks, j, e)
    ensures i == j
  {
    hide Ends, Near, Decides;
    DecidesEnds(t, ticks[i], e.kind);
    DecidesEnds(t, ticks[j], e.kind);
  }

  lemma {:induction false} LogOrder(t: WatchTerms, ticks: seq<Tick>, k: nat, a: nat, b: nat)
    requires t.entry > 0.0 && k <= |ticks| && a < b < |Follow(t, ticks, k).events|
    ensures Before(t, ticks, k, Follow(t, ticks, k).events[a], Follow(t, ticks, k).events[b])
  {
    hide OnTick, Logs, Rank, Detect, NoneEnds, LogInv;
    var events := Follow(t, ticks, k).events;
    var d, e := events[a], events[b];
    var was := Follow(t, ticks, k - 1);
    QuietMeaning(t, ticks, k - 1);
    RunsWhileQuiet(t, ticks, k - 1);
    EventExact(t, ticks, k, d);
    EventExact(t, ticks, k, e);
    var x :| 0 <= x < k && Logs(t, ticks, x, d);
    var y :| 0 <= y < k && Logs(t, ticks, y, e);
    forall i, j | 0 <= i < k && 0 <= j < k && Logs(t, ticks, i, d) && Logs(t, ticks, j, e) ensures i == x && j == y {
      LogsOnce(t, ticks, i, x, d);
      LogsOnce(t, ticks, j, y, e);
    }
    LogOrderAt(t, ticks, k, a, b, x, y);
  }

  lemma {:induction false} LogOrderAt(t: WatchTerms, ticks: seq<Tick>, k: nat, a: nat, b: nat, x: nat, y: nat)
    requires t.entry > 0.0 && 0 < k <= |ticks| && a < b < |Follow(t, ticks, k).events| && x < k && y < k
    requires Logs(t, ticks, x, Follow(t, ticks, k).events[a]) && Logs(t, ticks, y, Follow(t, ticks, k).events[b])
    ensures x < y || (x == y && Rank(Follow(t, ticks, k).events[a].kind) < Rank(Follow(t, ticks, k).events[b].kind))
  {
    hide OnTick, Logs, Rank, Detect, NoneEnds, LogInv;
    var was, events := Follow(t, ticks, k - 1), Follow(t, ticks, k).events;
    QuietMeaning(t, ticks, k - 1);
    RunsWhileQuiet(t, ticks, k - 1);
    if !NoneEnds(t, ticks, k - 1) {
      assert events == was.events;
      Earlier(t, ticks, k - 1, a, x);
      Earlier(t, ticks, k - 1, b, y);
      LogOrderAt(t, ticks, k - 1, a, b, x, y);
    } else {
      var d, e := events[a], events[b];
      TickLogs(t, ticks, k - 1, d);
      TickLogs(t, ticks, k - 1, e);
      DetectOrder(t, was.fired, ticks[k - 1]);
      if a < |was.events| { Earlier(t, ticks, k - 1, a, x); } else { LogsOnce(t, ticks, x, k - 1, d); }
      if b < |was.events| {
        Earlier(t, ticks, k - 1, b, y);
        LogOrderAt(t, ticks, k - 1, a, b, x, y);
      } else {
        LogsOnce(t, ticks, y, k - 1, e);
      }
    }
  }

  /** An event in the log after k ticks was logged by one of them. */
  lemma Earlier(t: WatchTerms, ticks: seq<Tick>, k: nat, a: nat, x: nat)
    requires t.entry > 0.0 && k <= |ticks| && a < |Follow(t, ticks, k).events| && x < |ticks|
    requires Logs(t, ticks, x, Follow(t, ticks, k).events[a])
    ensures x < k
  {
    hide Follow, Logs;
    var e := Follow(t, ticks, k).events[a];
    EventExact(t, ticks, k, e);
    var i :| 0 <= i < k && Logs(t, ticks, i, e);
    LogsOnce(t, ticks, i, x, e);
  }

  // ----- the numbers shown -----------------------------------------------------------------

  /** The gain as a share of the entry price, and what the watched amount makes of it. */
  function GainShare(t: WatchTerms, price: real): real
    requires t.entry > 0.0
  {
    Gain(t, price) / t.entry
  }

  function GainQuote(t: WatchTerms, price: real): real
    requires t.entry > 0.0 && t.sizeQuote.Some?
  {
    t.sizeQuote.value * GainShare(t, price)
  }

  /** The share in ten-thousandths and the amount in hundredths, both rounded half to even. */
  ghost predicate Shows(t: WatchTerms, v: View, tick: Tick)
    requires t.entry > 0.0
  {
    && v.currentPrice == Some(tick.price) && v.lastTickAtMs == Some(tick.tsMs)
    && v.pnlPct.Some? && IsRounded(GainShare(t, tick.price), 10000.0, v.pnlPct.value)
    && (t.sizeQuote.Some? ==>
          v.pnlQuote.Some? && IsRounded(GainQuote(t, tick.price), 100.0, v.pnlQuote.value))
  }

  lemma PricedShows(t: WatchTerms, v: View, tick: Tick)
    requires t.entry > 0.0
    ensures Shows(t, Priced(t, v, tick), tick)
  {
    assert PnlPct(t, tick.price) == GainShare(t, tick.price);
    assert t.sizeQuote.Some? ==> RawQuote(t, tick.price) == GainQuote(t, tick.price);
    hide Quantize, IsRounded, GainShare, GainQuote, PnlPct, RawQuote;
    QuantizeExact(GainShare(t, tick.price), 10000.0, RoundedPct(t, tick.price));
    if t.sizeQuote.Some? { QuantizeExact(GainQuote(t, tick.price), 100.0, RoundedQuote(t, tick.price)); }
  }

  /** A watch shows the price, the time and the rounded pnl of the last tick it read. */
  lemma {:induction false} ShownExact(t: WatchTerms, ticks: seq<Tick>, k: nat, i: nat)
    requires t.entry > 0.0 && i < k <= |ticks| && NoneEnds(t, ticks, i) && (i == k - 1 || Ends(t, ticks[i]))
    ensures Shows(t, Follow(t, ticks, k), ticks[i])
  {
    hide OnTick, Ends, TerminalKind, IsRounded, RoundedPct, RoundedQuote;
    QuietMeaning(t, ticks, i);
    RunsWhileQuiet(t, ticks, i);
    var v := Follow(t, ticks, i);
    TickOutcome(t, v, ticks[i]);
    PricedShows(t, v, ticks[i]);
    if i < k - 1 {
      KindMeaning(t, ticks[i]);
      StaysEnded(t, ticks, i + 1, k);
    }
  }
}
