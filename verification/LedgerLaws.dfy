/** Where the contents of a ledger row come from, over every interleaving. */
module LedgerLaws {
  import opened Base
  import opened Paper
  import opened Rounding
  import opened Ledger

  // ----- the pnl of a row ------------------------------------------------------------------

  /** Hundredths, half to even, of the favourable move times the amount, in units of the entry price. */
  lemma PnlIsRounded(t: Terms, exit: real, raw: real)
    requires t.entry > 0.0
    requires var part := t.sizeQuote * ((exit - t.entry) / t.entry); raw == if t.side.Long? then part else -part
    ensures IsRounded(raw, 100.0, ComputePnl(t, exit))
  {
    RawIsMove(t, exit);
    hide RawPnl, IsRounded, Quantize;
    QuantizeExact(RawPnl(t, exit), 100.0, ComputePnl(t, exit));
  }

  lemma RawIsMove(t: Terms, exit: real)
    requires t.entry > 0.0
    ensures var part := t.sizeQuote * ((exit - t.entry) / t.entry);
            RawPnl(t, exit) == if t.side.Long? then part else -part
  {}

  /** Under every interleaving the stored pnl of a closed row is its own move, in whole hundredths. */
  lemma RowPnlExact(acts: seq<Action>, id: nat, raw: real)
    requires id in Execute(EMPTY, acts).rows && Execute(EMPTY, acts).rows[id].status.Closed?
    requires var row := Execute(EMPTY, acts).rows[id]; row.exitPrice.Some? && row.terms.entry > 0.0
    requires var row := Execute(EMPTY, acts).rows[id];
             var part := row.terms.sizeQuote * ((row.exitPrice.value - row.terms.entry) / row.terms.entry);
             raw == if row.terms.side.Long? then part else -part
    ensures var row := Execute(EMPTY, acts).rows[id];
            row.pnlQuote.Some? && IsRounded(raw, 100.0, row.pnlQuote.value)
  {
    hide Execute, ComputePnl, IsRounded;
    RowsAddUp(acts, id);
    var row := Execute(EMPTY, acts).rows[id];
    PnlIsRounded(row.terms, row.exitPrice.value, raw);
  }

  // ----- which requests and verdicts a row may hold ----------------------------------------

  ghost predicate Asks(a: Action, p: nat, tid: nat, price: real, reason: string) {
    a.CloseFetch? && a.p == p && a.tid == tid && a.price == price && a.reason == reason
  }

  predicate Closing(proc: Proc) {
    proc.CloseStopping? || proc.CloseWriting?
  }

  /** The task is closing in v, and was closing in w with the same request. */
  ghost predicate SameRequest(w: World, v: World, p: nat)
    requires p in v.procs && Closing(v.procs[p])
  {
    var c := v.procs[p];
    && p in w.procs && Closing(w.procs[p]) && w.procs[p].tid == c.tid && w.procs[p].price == c.price
    && w.procs[p].reason == c.reason
  }

  lemma OpenKeepsRequest(w: World, a: Action, p: nat)
    requires a.OpenInsert? || a.OpenStart? || a.OpenRecord? || a.OpenReturn?
    requires p in OpenStep(w, a).procs && Closing(OpenStep(w, a).procs[p])
    ensures SameRequest(w, OpenStep(w, a), p)
  {
    hide AbandonRow, AttachWatch, DurationAccepted, TermsValid;
  }

  lemma ResumeKeepsRequest(w: World, a: Action, p: nat)
    requires a.ResumeList? || a.ResumeStart? || a.ResumeWrite?
    requires p in ResumeStep(w, a).procs && Closing(ResumeStep(w, a).procs[p])
    ensures SameRequest(w, ResumeStep(w, a), p)
  {
    hide AbandonRow, AttachWatch, DurationAccepted, IsOpenListing, Attached;
  }

  lemma WatchKeepsRequest(w: World, a: Action, p: nat)
    requires a.Fire? || a.WatchEnds? || a.HandlerFetch? || a.HandlerWrite? || a.HandlerKilled?
    requires p in WatchStep(w, a).procs && Closing(WatchStep(w, a).procs[p])
    ensures SameRequest(w, WatchStep(w, a), p)
  {
    hide ComputePnl, CloseRow, Decides, W.Verdict, Reason;
  }

  lemma CloseKeepsRequest(w: World, a: Action, p: nat)
    requires a.CloseFetch? || a.CloseStopWatch? || a.CloseWrite? || a.CloseReturn?
    requires p in CloseStep(w, a).procs && Closing(CloseStep(w, a).procs[p])
    ensures var c := CloseStep(w, a).procs[p];
            Asks(a, p, c.tid, c.price, c.reason) || SameRequest(w, CloseStep(w, a), p)
  {
    hide ComputePnl, CloseRow, EndWatch;
    if a.CloseStopWatch? && a.p in w.procs && w.procs[a.p].CloseStopping? && w.procs[a.p].seen.watchId.Some? {
      EndSparesProcs(w, w.procs[a.p].seen.watchId.value);
    }
  }

  /** A closing task goes on with what it was asked for. */
  lemma RequestStep(w: World, a: Action, p: nat)
    requires p in Apply(w, a).procs && Closing(Apply(w, a).procs[p])
    ensures var c := Apply(w, a).procs[p];
            Asks(a, p, c.tid, c.price, c.reason) || SameRequest(w, Apply(w, a), p)
  {
    hide OpenStep, CloseStep, ResumeStep, WatchStep, SameRequest, Asks;
    if a.OpenInsert? || a.OpenStart? || a.OpenRecord? || a.OpenReturn? { OpenKeepsRequest(w, a, p); }
    else if a.CloseFetch? || a.CloseStopWatch? || a.CloseWrite? || a.CloseReturn? { CloseKeepsRequest(w, a, p); }
    else if a.ResumeList? || a.ResumeStart? || a.ResumeWrite? { ResumeKeepsRequest(w, a, p); }
    else { WatchKeepsRequest(w, a, p); }
  }

  lemma {:induction false} RequestKept(acts: seq<Action>, p: nat)
    requires var w := Execute(EMPTY, acts); p in w.procs && Closing(w.procs[p])
    ensures var c := Execute(EMPTY, acts).procs[p];
            exists i | 0 <= i < |acts| :: Asks(acts[i], p, c.tid, c.price, c.reason)
  {
    hide Apply;
    var init, a := acts[..|acts| - 1], acts[|acts| - 1];
    var w, c := Execute(EMPTY, init), Execute(EMPTY, acts).procs[p];
    RequestStep(w, a, p);
    if !Asks(a, p, c.tid, c.price, c.reason) {
      RequestKept(init, p);
      var i :| 0 <= i < |init| && Asks(init[i], p, c.tid, c.price, c.reason);
      assert acts[i] == init[i];
    }
  }

  lemma WatchesPersist(w: World, a: Action)
    ensures Persist(w.watches, Apply(w, a).watches)
  {
    hide ComputePnl, CloseRow, AbandonRow, AttachWatch, IsOpenListing, Decides, W.Verdict, Attached, Reason;
    hide DurationAccepted, TermsValid, WatchOf;
  }

  // ----- how a row is settled --------------------------------------------------------------

  /** The row as a close, asked for by a closing task, leaves it. */
  ghost predicate CloseSettles(w: World, a: Action, id: nat, row: Row) {
    && a.CloseWrite? && a.p in w.procs && w.procs[a.p].CloseWriting? && w.procs[a.p].tid == id
    && row.status == Closed && row.exitPrice == Some(w.procs[a.p].price) && row.closedAtMs == Some(a.nowMs)
    && row.reason == Some(w.procs[a.p].reason)
  }

  ghost predicate CallbackWrites(w: World, a: Action, id: nat, row: Row) {
    a.HandlerWrite? && a.p in w.procs && w.procs[a.p].HandlerWriting? && w.procs[a.p].tid == id && row.status == Closed
  }

  ghost predicate OpenGivesUp(w: World, a: Action, id: nat, row: Row) {
    && a.OpenRecord? && a.p in w.procs && w.procs[a.p].OpenFailed? && w.procs[a.p].tid == id
    && row.status == Abandoned && row.reason == Some("watch_start_failed")
  }

  ghost predicate ResumeGivesUp(w: World, a: Action, id: nat, row: Row) {
    && a.ResumeWrite? && a.p in w.procs && w.procs[a.p].ResumeAbandon? && w.procs[a.p].tid == id
    && row.status == Abandoned && row.reason == Some("resume_failed: " + w.procs[a.p].cause)
  }

  lemma OpenSettles(w: World, a: Action, id: nat)
    requires a.OpenInsert? || a.OpenStart? || a.OpenRecord? || a.OpenReturn?
    requires IsRunning(w.rows, id) && !IsRunning(OpenStep(w, a).rows, id)
    ensures id in OpenStep(w, a).rows && OpenGivesUp(w, a, id, OpenStep(w, a).rows[id])
  {
    hide DurationAccepted, TermsValid;
  }

  lemma ResumeSettles(w: World, a: Action, id: nat)
    requires a.ResumeList? || a.ResumeStart? || a.ResumeWrite?
    requires IsRunning(w.rows, id) && !IsRunning(ResumeStep(w, a).rows, id)
    ensures id in ResumeStep(w, a).rows && ResumeGivesUp(w, a, id, ResumeStep(w, a).rows[id])
  {
    hide DurationAccepted, IsOpenListing, Attached;
  }

  lemma CloseStepSettles(w: World, a: Action, id: nat)
    requires a.CloseFetch? || a.CloseStopWatch? || a.CloseWrite? || a.CloseReturn?
    requires IsRunning(w.rows, id) && !IsRunning(CloseStep(w, a).rows, id)
    ensures id in CloseStep(w, a).rows && CloseSettles(w, a, id, CloseStep(w, a).rows[id])
  {
    hide ComputePnl, EndWatch;
    if a.CloseStopWatch? && a.p in w.procs && w.procs[a.p].CloseStopping? && w.procs[a.p].seen.watchId.Some? {
      EndSparesProcs(w, w.procs[a.p].seen.watchId.value);
    }
  }

  lemma WatchSettles(w: World, a: Action, id: nat)
    requires a.Fire? || a.WatchEnds? || a.HandlerFetch? || a.HandlerWrite? || a.HandlerKilled?
    requires IsRunning(w.rows, id) && !IsRunning(WatchStep(w, a).rows, id)
    ensures id in WatchStep(w, a).rows && CallbackWrites(w, a, id, WatchStep(w, a).rows[id])
  {
    hide ComputePnl, Decides, W.Verdict, Reason;
  }

  /** A row is settled by a close, a callback, an open that failed or a resume that failed, and by nothing else. */
  lemma SettlingStep(w: World, a: Action, id: nat)
    requires IsRunning(w.rows, id) && !IsRunning(Apply(w, a).rows, id)
    ensures id in Apply(w, a).rows
    ensures var row := Apply(w, a).rows[id];
            || CloseSettles(w, a, id, row) || CallbackWrites(w, a, id, row)
            || OpenGivesUp(w, a, id, row) || ResumeGivesUp(w, a, id, row)
  {
    hide OpenStep, CloseStep, ResumeStep, WatchStep, CloseSettles, CallbackWrites, OpenGivesUp, ResumeGivesUp;
    if a.OpenInsert? || a.OpenStart? || a.OpenRecord? || a.OpenReturn? { OpenSettles(w, a, id); }
    else if a.CloseFetch? || a.CloseStopWatch? || a.CloseWrite? || a.CloseReturn? { CloseStepSettles(w, a, id); }
    else if a.ResumeList? || a.ResumeStart? || a.ResumeWrite? { ResumeSettles(w, a, id); }
    else { WatchSettles(w, a, id); }
  }

  // ----- where a row comes from ------------------------------------------------------------

  /** A close was asked for with this price and reason, and later written. */
  ghost predicate ClosedOnRequest(ask: Action, write: Action, id: nat, row: Row) {
    && ask.CloseFetch? && write.CloseWrite? && ask.p == write.p && ask.tid == id
    && row.exitPrice == Some(ask.price) && row.reason == Some(ask.reason) && row.closedAtMs == Some(write.nowMs)
  }

  ghost predicate Requested(acts: seq<Action>, id: nat, row: Row) {
    exists i, j | 0 <= i < j < |acts| :: ClosedOnRequest(acts[i], acts[j], id, row)
  }

  /** The watch is over, watched this trade on its terms, and ended with what the row holds. */
  ghost predicate ClosedByWatch(info: WatchInfo, id: nat, row: Row) {
    && info.tradeId == id && !info.live && info.terms.entry > 0.0
    && info.terms.side == row.terms.side && info.terms.entry == row.terms.entry && info.terms.stop == row.terms.stop
    && info.terms.take == row.terms.take && info.terms.sizeQuote == Some(row.terms.sizeQuote)
    && info.terms.maxDurationSec == row.terms.maxDurationSec
    && var seen := W.Follow(info.terms, info.ticks, |info.ticks|);
       && row.exitPrice == seen.currentPrice && row.closedAtMs == seen.lastTickAtMs && row.pnlQuote == seen.pnlQuote
       && match seen.status
          case HitStop => row.reason == Some("stop_hit")
          case HitTake => row.reason == Some("take_hit")
          case TimedOut => row.reason == Some("timeout")
          case _ => false
  }

  ghost predicate Watched(watches: Watches, id: nat, row: Row) {
    exists wid | wid in watches :: ClosedByWatch(watches[wid], id, row)
  }

  /** Abandoned because the watch took no such duration, or because a resume failed for a stated cause. */
  ghost predicate GivenUp(row: Row) {
    || (row.reason == Some("watch_start_failed") && !(60 <= row.terms.maxDurationSec <= 86_400))
    || (row.reason.Some? && "resume_failed: " <= row.reason.value)
  }

  ghost predicate Inserts(a: Action, id: nat, terms: Terms) {
    a.OpenInsert? && a.tid == id && a.terms == terms
  }

  ghost predicate Opened(acts: seq<Action>, id: nat, terms: Terms) {
    exists i | 0 <= i < |acts| :: Inserts(acts[i], id, terms)
  }

  ghost predicate Settled(acts: seq<Action>, watches: Watches, id: nat, row: Row) {
    match row.status
    case Running => true
    case Closed => Requested(acts, id, row) || Watched(watches, id, row)
    case Abandoned => GivenUp(row)
  }

  lemma RequestedLater(init: seq<Action>, acts: seq<Action>, id: nat, a: Row, b: Row)
    requires init <= acts && SameSettlement(a, b) && Requested(init, id, a)
    ensures Requested(acts, id, b)
  {
    var i, j :| 0 <= i < j < |init| && ClosedOnRequest(init[i], init[j], id, a);
    assert acts[i] == init[i] && acts[j] == init[j];
    assert ClosedOnRequest(acts[i], acts[j], id, b);
  }

  lemma WatchedLater(was: Watches, now: Watches, id: nat, a: Row, b: Row)
    requires Persist(was, now) && SameSettlement(a, b) && Watched(was, id, a)
    ensures Watched(now, id, b)
  {
    hide W.Follow;
    var wid :| wid in was && ClosedByWatch(was[wid], id, a);
    assert ClosedByWatch(now[wid], id, b);
  }

  lemma RequestSettles(acts: seq<Action>, id: nat)
    requires acts != []
    requires var w := Execute(EMPTY, acts[..|acts| - 1]); var v := Execute(EMPTY, acts);
             id in v.rows && CloseSettles(w, acts[|acts| - 1], id, v.rows[id])
    ensures Requested(acts, id, Execute(EMPTY, acts).rows[id])
  {
    hide Execute;
    var init, a, row := acts[..|acts| - 1], acts[|acts| - 1], Execute(EMPTY, acts).rows[id];
    RequestKept(init, a.p);
    var c := Execute(EMPTY, init).procs[a.p];
    var i :| 0 <= i < |init| && Asks(init[i], a.p, c.tid, c.price, c.reason);
    assert acts[i] == init[i];
    assert ClosedOnRequest(acts[i], acts[|acts| - 1], id, row);
  }

  lemma CallbackHasWatch(acts: seq<Action>, a: Action, id: nat)
    requires var w := Execute(EMPTY, acts); var v := Apply(w, a);
             IsRunning(w.rows, id) && id in v.rows && CallbackWrites(w, a, id, v.rows[id])
    ensures var v := Apply(Execute(EMPTY, acts), a); Watched(v.watches, id, v.rows[id])
  {
    hide Execute, W.Follow, ComputePnl;
    AlwaysInv(acts);
    CallbackStoresVerdict(acts, a.p);
    var w := Execute(EMPTY, acts);
    var h, v := w.procs[a.p], Apply(w, a);
    PartsAt(w, a.p);
    assert v.watches == w.watches;
    assert ClosedByWatch(v.watches[h.wid], id, v.rows[id]);
  }

  lemma GivesUpIsGivenUp(w: World, a: Action, id: nat)
    requires Inv(w) && IsRunning(w.rows, id) && id in Apply(w, a).rows
    requires var row := Apply(w, a).rows[id]; OpenGivesUp(w, a, id, row) || ResumeGivesUp(w, a, id, row)
    ensures GivenUp(Apply(w, a).rows[id])
  {
    hide Inv, Apply, ComputePnl;
    PartsAt(w, a.p);
    StepKeeps(w, a);
    var row := Apply(w, a).rows[id];
    assert row.terms == w.rows[id].terms by { SameTerms(w.rows, Apply(w, a).rows, id); }
    if ResumeGivesUp(w, a, id, row) {
      var told := "resume_failed: " + w.procs[a.p].cause;
      assert "resume_failed: " <= told;
    }
  }

  lemma NewRowOpened(w: World, a: Action, id: nat)
    requires id !in w.rows && id in Apply(w, a).rows
    ensures Apply(w, a).rows[id].status == Running && Inserts(a, id, Apply(w, a).rows[id].terms)
  {
    hide ComputePnl, IsOpenListing, Decides, W.Verdict, Attached, Reason;
  }

  /**
   Every row carries the terms some `open_trade` inserted it with.  A closed row holds the price, reason
   and time of a close that was asked for, or what a watch of the trade, on the trade's own terms, ended
   with; an abandoned one says which start failed.
   */
  lemma {:induction false} Provenance(acts: seq<Action>, id: nat)
    requires id in Execute(EMPTY, acts).rows
    ensures var w := Execute(EMPTY, acts);
            Opened(acts, id, w.rows[id].terms) && Settled(acts, w.watches, id, w.rows[id])
  {
    hide Apply, Inv, Evolves, Persist, Opened, Requested, Watched, GivenUp;
    hide CloseSettles, CallbackWrites, OpenGivesUp, ResumeGivesUp;
    var n := |acts| - 1;
    var init, a := acts[..n], acts[n];
    var w, v := Execute(EMPTY, init), Execute(EMPTY, acts);
    AlwaysInv(init);
    StepKeeps(w, a);
    WatchesPersist(w, a);
    if id !in w.rows {
      NewRowOpened(w, a, id);
      assert Opened(acts, id, v.rows[id].terms) by { OpenedLast(acts, id, v.rows[id].terms); }
    } else {
      Provenance(init, id);
      EvolvesAt(w.rows, v.rows, id);
      OpenedLater(init, acts, id, w.rows[id].terms);
      if !w.rows[id].status.Running? {
        if Requested(init, id, w.rows[id]) { RequestedLater(init, acts, id, w.rows[id], v.rows[id]); }
        if Watched(w.watches, id, w.rows[id]) { WatchedLater(w.watches, v.watches, id, w.rows[id], v.rows[id]); }
        if GivenUp(w.rows[id]) { GivenUpLater(w.rows[id], v.rows[id]); }
      } else if !IsRunning(v.rows, id) {
        SettlingStep(w, a, id);
        NewlySettled(acts, id);
      }
    }
  }

  lemma OpenedLast(acts: seq<Action>, id: nat, terms: Terms)
    requires acts != [] && Inserts(acts[|acts| - 1], id, terms)
    ensures Opened(acts, id, terms)
  {}

  lemma OpenedLater(init: seq<Action>, acts: seq<Action>, id: nat, terms: Terms)
    requires init <= acts && Opened(init, id, terms)
    ensures Opened(acts, id, terms)
  {
    var i :| 0 <= i < |init| && Inserts(init[i], id, terms);
    assert acts[i] == init[i];
  }

  lemma GivenUpLater(a: Row, b: Row)
    requires SameSettlement(a, b) && GivenUp(a)
    ensures GivenUp(b)
  {}

  lemma EvolvesAt(a: Table, b: Table, id: nat)
    requires Evolves(a, b) && id in a
    ensures id in b && a[id].terms == b[id].terms && (!a[id].status.Running? ==> SameSettlement(a[id], b[id]))
  {}

  lemma NewlySettled(acts: seq<Action>, id: nat)
    requires acts != []
    requires var w := Execute(EMPTY, acts[..|acts| - 1]); var a, v := acts[|acts| - 1], Execute(EMPTY, acts);
             && Inv(w) && IsRunning(w.rows, id) && id in v.rows && v == Apply(w, a)
             && (|| CloseSettles(w, a, id, v.rows[id]) || CallbackWrites(w, a, id, v.rows[id])
                 || OpenGivesUp(w, a, id, v.rows[id]) || ResumeGivesUp(w, a, id, v.rows[id]))
    ensures var v := Execute(EMPTY, acts); Settled(acts, v.watches, id, v.rows[id])
  {
    hide Execute, Apply, Inv, Requested, Watched, GivenUp;
    var init, a, v := acts[..|acts| - 1], acts[|acts| - 1], Execute(EMPTY, acts);
    var w := Execute(EMPTY, init);
    if CloseSettles(w, a, id, v.rows[id]) { RequestSettles(acts, id); }
    else if CallbackWrites(w, a, id, v.rows[id]) { CallbackHasWatch(init, a, id); }
    else { GivesUpIsGivenUp(w, a, id); }
  }

  /** The watch a row names is one of its trade, started on its terms. */
  lemma WatchedOnTerms(acts: seq<Action>, id: nat)
    requires var rows := Execute(EMPTY, acts).rows; id in rows && rows[id].watchId.Some?
    ensures var w := Execute(EMPTY, acts); var row, wid := w.rows[id], w.rows[id].watchId.value;
            && wid in w.watches && w.watches[wid].tradeId == id
            && var t := w.watches[wid].terms;
               && t.side == row.terms.side && t.entry == row.terms.entry && t.stop == row.terms.stop
               && t.take == row.terms.take && t.sizeQuote == Some(row.terms.sizeQuote)
               && t.maxDurationSec == row.terms.maxDurationSec
  {
    hide Execute, ComputePnl;
    AlwaysInv(acts);
    var w := Execute(EMPTY, acts);
    Parts(w);
    RowAt(w.rows, w.watches, id);
    WatchAt(w.rows, w.watches, w.rows[id].watchId.value);
  }

  /** Closing a watched trade ends the watch and cuts every callback it has under way. */
  lemma ClosingEndsWatch(w: World, p: nat)
    requires p in w.procs && w.procs[p].CloseStopping? && w.procs[p].seen.terms.entry > 0.0
    requires w.procs[p].seen.watchId.Some? && w.procs[p].seen.watchId.value in w.watches
    ensures var wid, v := w.procs[p].seen.watchId.value, Apply(w, CloseStopWatch(p));
            && wid in v.watches && !v.watches[wid].live && v.rows == w.rows
            && (forall q | q in w.procs && IsCallback(w.procs[q]) && w.procs[q].wid == wid ::
                  q in v.procs && v.procs[q] == HandlerCut(w.procs[q].tid))
            && (forall q | q in w.procs && q != p && !(IsCallback(w.procs[q]) && w.procs[q].wid == wid) ::
                  q in v.procs && v.procs[q] == w.procs[q])
            && p in v.procs && v.procs[p].CloseWriting?
  {
    hide ComputePnl;
  }
}
