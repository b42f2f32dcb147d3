/**
 The paper ledger: guarded row updates, and every interleaving of open, manual close, terminal
 callback and resume over one table.

 Each action is the code one task runs between two suspension points, so a database call and the
 decision that follows it are separate steps.
 */
module Ledger {
  import opened Base
  import opened Paper
  import W = Watch

  datatype PaperStatus = Running | Closed | Abandoned

  datatype Row = Row(terms: Terms, status: PaperStatus, exitPrice: Option<real>, closedAtMs: Option<int>,
                     pnlQuote: Option<real>, reason: Option<string>, watchId: Option<nat>)

  type Table = map<nat, Row>

  // ----- guarded updates -------------------------------------------------------------------

  function NewRow(terms: Terms): Row {
    Row(terms, Running, None, None, None, None, None)
  }

  predicate IsRunning(rows: Table, id: nat) {
    id in rows && rows[id].status.Running?
  }

  function SettleRow(rows: Table, id: nat, exitPrice: real, closedAtMs: int, pnl: real, reason: string,
                     target: PaperStatus): Table {
    if !IsRunning(rows, id) then rows
    else rows[id := rows[id].(status := target, exitPrice := Some(exitPrice), closedAtMs := Some(closedAtMs),
                              pnlQuote := Some(pnl), reason := Some(reason))]
  }

  /** The update every caller of the ledger asks for. */
  function CloseRow(rows: Table, id: nat, exitPrice: real, closedAtMs: int, pnl: real, reason: string): Table {
    SettleRow(rows, id, exitPrice, closedAtMs, pnl, reason, Closed)
  }

  function AbandonRow(rows: Table, id: nat, reason: string): Table {
    if !IsRunning(rows, id) then rows
    else rows[id := rows[id].(status := Abandoned, reason := Some(reason))]
  }

  function AttachWatch(rows: Table, id: nat, watchId: nat): Table {
    if id !in rows then rows else rows[id := rows[id].(watchId := Some(watchId))]
  }

  ghost predicate Newer(rows: Table, ids: seq<nat>) {
    && (forall i | 0 <= i < |ids| :: ids[i] in rows)
    && (forall i, j | 0 <= i < j < |ids| ::
          ids[i] != ids[j] && rows[ids[i]].terms.openedAtMs >= rows[ids[j]].terms.openedAtMs)
  }

  /** Exactly the running rows, each once, newest first. */
  ghost predicate IsOpenListing(rows: Table, ids: seq<nat>) {
    Newer(rows, ids) && forall id :: id in ids <==> IsRunning(rows, id)
  }

  lemma InsertKeepsNewer(rows: Table, ids: seq<nat>, k: nat, id: nat)
    requires Newer(rows, ids) && id in rows && id !in ids && k <= |ids|
    requires forall i | 0 <= i < k :: rows[ids[i]].terms.openedAtMs >= rows[id].terms.openedAtMs
    requires k < |ids| ==> rows[ids[k]].terms.openedAtMs < rows[id].terms.openedAtMs
    ensures Newer(rows, ids[..k] + [id] + ids[k..])
    ensures forall x :: x in ids[..k] + [id] + ids[k..] <==> x in ids || x == id
  {}

  class PaperTradeRepository {
    var rows: Table

    constructor ()
      ensures rows == map[]
    {
      rows := map[];
    }

    method Insert(id: nat, terms: Terms)
      requires id !in rows
      modifies this
      ensures rows == old(rows)[id := Row(terms, Running, None, None, None, None, None)]
    {
      rows := rows[id := NewRow(terms)];
    }

    method SetWatchId(id: nat, watchId: nat)
      modifies this
      ensures rows == AttachWatch(old(rows), id, watchId)
    {
      if id in rows {
        rows := rows[id := rows[id].(watchId := Some(watchId))];
      }
    }

    /** Row count is one for the caller that settles the row and zero for everyone after. */
    method Close(id: nat, exitPrice: real, closedAtMs: int, pnl: real, reason: string,
                 target: PaperStatus := Closed)
      returns (count: nat)
      modifies this
      ensures rows == SettleRow(old(rows), id, exitPrice, closedAtMs, pnl, reason, target)
      ensures count == if IsRunning(old(rows), id) then 1 else 0
    {
      if id !in rows || !rows[id].status.Running? { return 0; }
      var row := rows[id];
      rows := rows[id := Row(row.terms, target, Some(exitPrice), Some(closedAtMs), Some(pnl), Some(reason),
          row.watchId)];
      return 1;
    }

    method MarkAbandoned(id: nat, reason: string) returns (count: nat)
      modifies this
      ensures rows == AbandonRow(old(rows), id, reason)
      ensures count == if IsRunning(old(rows), id) then 1 else 0
    {
      if id !in rows || !rows[id].status.Running? { return 0; }
      rows := rows[id := rows[id].(status := Abandoned, reason := Some(reason))];
      return 1;
    }

    method FetchOpen() returns (ids: seq<nat>)
      ensures IsOpenListing(rows, ids)
    {
      ids := [];
      var todo := rows.Keys;
      while todo != {}
        invariant todo <= rows.Keys
        invariant Newer(rows, ids)
        invariant forall id :: id in ids <==> IsRunning(rows, id) && id !in todo
        decreases todo
      {
        var id :| id in todo;
        todo := todo - {id};
        if rows[id].status.Running? {
          var k := Place(ids, id);
          InsertKeepsNewer(rows, ids, k, id);
          ids := ids[..k] + [id] + ids[k..];
        }
      }
    }

    /** Behind every row that is not older. */
    method Place(ids: seq<nat>, id: nat) returns (k: nat)
      requires Newer(rows, ids) && id in rows
      ensures k <= |ids|
      ensures forall i | 0 <= i < k :: rows[ids[i]].terms.openedAtMs >= rows[id].terms.openedAtMs
      ensures k < |ids| ==> rows[ids[k]].terms.openedAtMs < rows[id].terms.openedAtMs
    {
      k := 0;
      while k < |ids| && rows[ids[k]].terms.openedAtMs >= rows[id].terms.openedAtMs
        invariant k <= |ids|
        invariant forall i | 0 <= i < k :: rows[ids[i]].terms.openedAtMs >= rows[id].terms.openedAtMs
      {
        k := k + 1;
      }
    }
  }

  // ----- processes -------------------------------------------------------------------------

  /** A watch of a trade: its own terms and, once its verdict fell, the ticks that led to it. */
  datatype WatchInfo = WatchInfo(tradeId: nat, live: bool, terms: W.WatchTerms, ticks: seq<W.Tick>)

  /** A watch is started on the terms of its trade. */
  function WatchOf(terms: Terms, startedAtMs: int): W.WatchTerms {
    W.WatchTerms(terms.side, terms.entry, terms.stop, terms.take, Some(terms.sizeQuote), startedAtMs,
        terms.maxDurationSec)
  }

  /** A resume under way: the listed rows, those still to do, and those attached so far with their count. */
  datatype Sweep = Sweep(listed: seq<nat>, todo: seq<nat>, kept: seq<nat>, resumed: nat)

  datatype Proc =
    | OpenPending(tid: nat)                     // row inserted, watch not started
    | OpenStarted(tid: nat, wid: nat)           // watch started, id not recorded
    | OpenFailed(tid: nat)                      // start raised, row not yet abandoned
    | OpenRead(tid: nat)                        // about to read the row back
    | OpenReturned(tid: nat, row: Row)
    | OpenRaised(tid: nat)
    | CloseStopping(tid: nat, price: real, reason: string, seen: Row)   // saw a running row
    | CloseWriting(tid: nat, price: real, reason: string, pnl: real)
    | CloseRead(tid: nat)                       // update done, about to read the row back
    | CloseReturned(tid: nat, row: Row)
    | CloseMissing(tid: nat)
    | HandlerRead(tid: nat, wid: nat, event: W.WatchEvent)
    | HandlerWriting(tid: nat, wid: nat, event: W.WatchEvent, pnl: real)
    | HandlerDone(tid: nat)                     // ran to its end
    | HandlerCut(tid: nat)                      // cancelled before its write
    | Resuming(sweep: Sweep)
    | ResumeRecord(tid: nat, wid: nat, sweep: Sweep)
    | ResumeAbandon(tid: nat, sweep: Sweep, cause: string)

  datatype World = World(rows: Table, watches: map<nat, WatchInfo>, procs: map<nat, Proc>)

  const EMPTY: World := World(map[], map[], map[])

  datatype Action =
    | OpenInsert(p: nat, tid: nat, terms: Terms)
    | OpenStart(p: nat, wid: nat, nowMs: int)
    | OpenRecord(p: nat)
    | OpenReturn(p: nat)
    | CloseFetch(p: nat, tid: nat, price: real, reason: string)
    | CloseStopWatch(p: nat)
    | CloseWrite(p: nat, nowMs: int)
    | CloseReturn(p: nat)
    | Fire(wid: nat, p: nat, ticks: seq<W.Tick>)
    | WatchEnds(wid: nat)
    | HandlerFetch(p: nat)
    | HandlerWrite(p: nat)
    | HandlerKilled(p: nat)
    | ResumeList(p: nat, ids: seq<nat>)
    | ResumeStart(p: nat, wid: nat, nowMs: int, resolves: bool, cause: string)   // cause: the text of a failure
    | ResumeWrite(p: nat)

  /** The watch accepts only durations in its range; the ledger itself does not check them. */
  predicate DurationAccepted(terms: Terms) {
    W.MIN_DURATION_SEC <= terms.maxDurationSec <= W.MAX_DURATION_SEC
  }

  function Reason(kind: W.EventType): string {
    match kind
    case StopHit => "stop_hit"
    case TakeHit => "take_hit"
    case Timeout => "timeout"
    case ApproachesStop => "price_approaches_stop"
    case ApproachesTake => "price_approaches_take"
    case Breakeven => "breakeven_reached"
  }

  function Step(w: World, p: nat, next: Proc): World {
    w.(procs := w.procs[p := next])
  }

  function NewWatch(rows: Table, tid: nat, nowMs: int): WatchInfo
    requires tid in rows
  {
    WatchInfo(tid, true, WatchOf(rows[tid].terms, nowMs), [])
  }

  function StartWatch(w: World, wid: nat, tid: nat, nowMs: int): World
    requires tid in w.rows
  {
    w.(watches := w.watches[wid := NewWatch(w.rows, tid, nowMs)])
  }

  /** These ticks end the watch with a verdict. */
  predicate Decides(info: WatchInfo, ticks: seq<W.Tick>) {
    info.terms.entry > 0.0 && !W.Follow(info.terms, ticks, |ticks|).status.Running?
  }

  function EndWatch(w: World, wid: nat): World {
    if wid in w.watches then w.(watches := w.watches[wid := w.watches[wid].(live := false)]) else w
  }

  /** Cancelling a watch ends it and kills its callback wherever it is suspended. */
  function CancelWatch(w: World, wid: nat): World {
    var e := EndWatch(w, wid);
    e.(procs := map p | p in e.procs ::
         if (e.procs[p].HandlerRead? || e.procs[p].HandlerWriting?) && e.procs[p].wid == wid then
           HandlerCut(e.procs[p].tid)
         else e.procs[p])
  }

  function OpenStep(w: World, a: Action): World
    requires a.OpenInsert? || a.OpenStart? || a.OpenRecord? || a.OpenReturn?
  {
    match a
    case OpenInsert(p, tid, terms) =>
      if p in w.procs || tid in w.rows || !TermsValid(terms) then w
      else Step(w.(rows := w.rows[tid := NewRow(terms)]), p, OpenPending(tid))
    case OpenStart(p, wid, nowMs) =>
      if p !in w.procs || !w.procs[p].OpenPending? || w.procs[p].tid !in w.rows || wid in w.watches then w
      else
        var tid := w.procs[p].tid;
        if DurationAccepted(w.rows[tid].terms) then Step(StartWatch(w, wid, tid, nowMs), p, OpenStarted(tid, wid))
        else Step(w, p, OpenFailed(tid))
    case OpenRecord(p) =>
      if p !in w.procs then w
      else if w.procs[p].OpenStarted? then
        Step(w.(rows := AttachWatch(w.rows, w.procs[p].tid, w.procs[p].wid)), p, OpenRead(w.procs[p].tid))
      else if w.procs[p].OpenFailed? then
        Step(w.(rows := AbandonRow(w.rows, w.procs[p].tid, "watch_start_failed")), p, OpenRaised(w.procs[p].tid))
      else w
    case OpenReturn(p) =>
      if p !in w.procs || !w.procs[p].OpenRead? || w.procs[p].tid !in w.rows then w
      else Step(w, p, OpenReturned(w.procs[p].tid, w.rows[w.procs[p].tid]))
  }

  function CloseStep(w: World, a: Action): World
    requires a.CloseFetch? || a.CloseStopWatch? || a.CloseWrite? || a.CloseReturn?
  {
    match a
    case CloseFetch(p, tid, price, reason) =>
      if p in w.procs then w
      else if tid !in w.rows then Step(w, p, CloseMissing(tid))
      else if !w.rows[tid].status.Running? then Step(w, p, CloseReturned(tid, w.rows[tid]))
      else Step(w, p, CloseStopping(tid, price, reason, w.rows[tid]))
    case CloseStopWatch(p) =>
      if p !in w.procs || !w.procs[p].CloseStopping? || w.procs[p].seen.terms.entry <= 0.0 then w
      else
        var c := w.procs[p];
        var stopped := if c.seen.watchId.Some? then CancelWatch(w, c.seen.watchId.value) else w;
        Step(stopped, p, CloseWriting(c.tid, c.price, c.reason, ComputePnl(c.seen.terms, c.price)))
    case CloseWrite(p, nowMs) =>
      if p !in w.procs || !w.procs[p].CloseWriting? then w
      else
        var c := w.procs[p];
        Step(w.(rows := CloseRow(w.rows, c.tid, c.price, nowMs, c.pnl, c.reason)), p, CloseRead(c.tid))
    case CloseReturn(p) =>
      if p !in w.procs || !w.procs[p].CloseRead? || w.procs[p].tid !in w.rows then w
      else Step(w, p, CloseReturned(w.procs[p].tid, w.rows[w.procs[p].tid]))
  }

  function WatchStep(w: World, a: Action): World
    requires a.Fire? || a.WatchEnds? || a.HandlerFetch? || a.HandlerWrite? || a.HandlerKilled?
  {
    match a
    case Fire(wid, p, ticks) =>
      if wid !in w.watches || !w.watches[wid].live || p in w.procs || !Decides(w.watches[wid], ticks) then w
      else
        var info := w.watches[wid];
        Step(w.(watches := w.watches[wid := info.(live := false, ticks := ticks)]), p,
             HandlerRead(info.tradeId, wid, W.Verdict(info.terms, ticks)))
    case WatchEnds(wid) => EndWatch(w, wid)
    case HandlerFetch(p) =>
      if p !in w.procs || !w.procs[p].HandlerRead? then w
      else
        var h := w.procs[p];
        if IsRunning(w.rows, h.tid) && w.rows[h.tid].terms.entry > 0.0 then
          Step(w, p, HandlerWriting(h.tid, h.wid, h.event, ComputePnl(w.rows[h.tid].terms, h.event.price)))
        else Step(w, p, HandlerDone(h.tid))
    case HandlerWrite(p) =>
      if p !in w.procs || !w.procs[p].HandlerWriting? then w
      else
        var h := w.procs[p];
        var rows := CloseRow(w.rows, h.tid, h.event.price, h.event.tsMs, h.pnl, Reason(h.event.kind));
        Step(w.(rows := rows), p, HandlerDone(h.tid))
    case HandlerKilled(p) =>
      if p in w.procs && (w.procs[p].HandlerRead? || w.procs[p].HandlerWriting?) then
        Step(w, p, HandlerCut(w.procs[p].tid))
      else w
  }

  ghost function ResumeStep(w: World, a: Action): World
    requires a.ResumeList? || a.ResumeStart? || a.ResumeWrite?
  {
    match a
    case ResumeList(p, ids) =>
      if p in w.procs || !IsOpenListing(w.rows, ids) then w else Step(w, p, Resuming(Sweep(ids, ids, [], 0)))
    case ResumeStart(p, wid, nowMs, resolves, cause) =>
      if p !in w.procs || !w.procs[p].Resuming? || w.procs[p].sweep.todo == [] || wid in w.watches
         || w.procs[p].sweep.todo[0] !in w.rows then w
      else
        var sweep := w.procs[p].sweep;
        var tid, rest := sweep.todo[0], sweep.(todo := sweep.todo[1..]);
        if resolves && DurationAccepted(w.rows[tid].terms) then
          Step(StartWatch(w, wid, tid, nowMs), p, ResumeRecord(tid, wid, rest))
        else Step(w, p, ResumeAbandon(tid, rest, cause))
    case ResumeWrite(p) =>
      if p !in w.procs then w
      else
        var r := w.procs[p];
        if r.ResumeRecord? then
          Step(w.(rows := AttachWatch(w.rows, r.tid, r.wid)), p, Resuming(Attached(r.sweep, r.tid)))
        else if r.ResumeAbandon? then
          Step(w.(rows := AbandonRow(w.rows, r.tid, "resume_failed: " + r.cause)), p, Resuming(r.sweep))
        else w
  }

  function Attached(sweep: Sweep, tid: nat): Sweep {
    sweep.(kept := sweep.kept + [tid], resumed := sweep.resumed + 1)
  }

  /** The effect of an action; an action that is not enabled changes nothing. */
  ghost function Apply(w: World, a: Action): World {
    if a.OpenInsert? || a.OpenStart? || a.OpenRecord? || a.OpenReturn? then OpenStep(w, a)
    else if a.CloseFetch? || a.CloseStopWatch? || a.CloseWrite? || a.CloseReturn? then CloseStep(w, a)
    else if a.ResumeList? || a.ResumeStart? || a.ResumeWrite? then ResumeStep(w, a)
    else WatchStep(w, a)
  }

  ghost function Execute(w: World, acts: seq<Action>): World {
    if acts == [] then w else Apply(Execute(w, acts[..|acts| - 1]), acts[|acts| - 1])
  }

  // ----- invariants ------------------------------------------------------------------------

  type Watches = map<nat, WatchInfo>

  /** The settlement part of a row. */
  ghost predicate SameSettlement(a: Row, b: Row) {
    && a.status == b.status && a.exitPrice == b.exitPrice && a.closedAtMs == b.closedAtMs
    && a.pnlQuote == b.pnlQuote && a.reason == b.reason && a.terms == b.terms
  }

  ghost predicate RowOk(id: nat, row: Row, watches: Watches) {
    && TermsValid(row.terms)
    && (row.status.Running? ==> row.exitPrice.None? && row.closedAtMs.None? && row.pnlQuote.None? && row.reason.None?)
    && (row.status.Abandoned? ==> row.exitPrice.None? && row.closedAtMs.None? && row.pnlQuote.None? && row.reason.Some?)
    && (row.status.Closed? ==>
          && row.exitPrice.Some? && row.closedAtMs.Some? && row.reason.Some?
          && row.pnlQuote == Some(ComputePnl(row.terms, row.exitPrice.value)))
    && (row.watchId.Some? ==> row.watchId.value in watches && watches[row.watchId.value].tradeId == id)
  }

  ghost predicate DistinctIds(ids: seq<nat>) {
    forall i, j | 0 <= i < j < |ids| :: ids[i] != ids[j]
  }

  /** Every listed row is still to do, in hand, attached or settled; the count is that of the attached ones. */
  ghost predicate SweepOk(rows: Table, sweep: Sweep, inHand: set<nat>) {
    && (forall id | id in sweep.listed ::
          id in rows && (id in sweep.todo || id in inHand || id in sweep.kept || !rows[id].status.Running?))
    && (forall id | id in sweep.todo :: id in sweep.listed && id !in sweep.kept && id !in inHand)
    && (forall id | id in inHand :: id in sweep.listed && id !in sweep.kept)
    && (forall id | id in sweep.kept :: id in sweep.listed && id in rows && rows[id].watchId.Some?)
    && DistinctIds(sweep.todo) && DistinctIds(sweep.kept) && sweep.resumed == |sweep.kept|
  }

  /** The event is the verdict of a watch of this trade that is over. */
  ghost predicate Reported(watches: Watches, wid: nat, tid: nat, event: W.WatchEvent) {
    && wid in watches && !watches[wid].live && watches[wid].tradeId == tid
    && Decides(watches[wid], watches[wid].ticks) && event == W.Verdict(watches[wid].terms, watches[wid].ticks)
  }

  /** What a task that is at this point of its code may rely on. */
  ghost predicate ProcOk(rows: Table, watches: Watches, proc: Proc) {
    match proc
    case CloseMissing(_) => true
    case Resuming(sweep) => SweepOk(rows, sweep, {})
    case ResumeRecord(tid, wid, sweep) =>
      && tid in rows && DurationAccepted(rows[tid].terms) && wid in watches && watches[wid].tradeId == tid
      && SweepOk(rows, sweep, {tid})
    case ResumeAbandon(tid, sweep, _) => tid in rows && SweepOk(rows, sweep, {tid})
    case OpenStarted(tid, wid) =>
      tid in rows && DurationAccepted(rows[tid].terms) && wid in watches && watches[wid].tradeId == tid
    case OpenFailed(tid) => tid in rows && !DurationAccepted(rows[tid].terms)
    case OpenRead(tid) => tid in rows && DurationAccepted(rows[tid].terms) && rows[tid].watchId.Some?
    case OpenReturned(tid, row) =>
      tid in rows && row.terms == rows[tid].terms && DurationAccepted(row.terms) && row.watchId.Some?
    case OpenRaised(tid) => tid in rows && !DurationAccepted(rows[tid].terms) && !rows[tid].status.Running?
    case CloseStopping(tid, _, _, seen) => tid in rows && seen.terms == rows[tid].terms
    case CloseWriting(tid, price, _, pnl) =>
      tid in rows && rows[tid].terms.entry > 0.0 && pnl == ComputePnl(rows[tid].terms, price)
    case CloseRead(tid) => tid in rows && !rows[tid].status.Running?
    case CloseReturned(tid, row) => tid in rows && !row.status.Running? && SameSettlement(row, rows[tid])
    case HandlerWriting(tid, wid, event, pnl) =>
      && tid in rows && rows[tid].terms.entry > 0.0 && pnl == ComputePnl(rows[tid].terms, event.price)
      && Reported(watches, wid, tid, event)
    case OpenPending(tid) => tid in rows
    case HandlerRead(tid, wid, event) => tid in rows && Reported(watches, wid, tid, event)
    case HandlerDone(tid) => tid in rows && !rows[tid].status.Running?
    case HandlerCut(tid) => tid in rows
  }

  ghost predicate RowsOk(rows: Table, watches: Watches) {
    forall id | id in rows :: RowOk(id, rows[id], watches)
  }

  ghost predicate WatchesOk(rows: Table, watches: Watches) {
    forall wid | wid in watches :: WatchOk(rows, watches[wid])
  }

  /** Every watch is one of a stored trade, on that trade's terms. */
  ghost predicate WatchOk(rows: Table, info: WatchInfo) {
    info.tradeId in rows && info.terms == WatchOf(rows[info.tradeId].terms, info.terms.startedAtMs)
  }

  ghost predicate ProcsOk(rows: Table, watches: Watches, procs: map<nat, Proc>) {
    forall p | p in procs :: ProcOk(rows, watches, procs[p])
  }

  ghost predicate Inv(w: World) {
    RowsOk(w.rows, w.watches) && WatchesOk(w.rows, w.watches) && ProcsOk(w.rows, w.watches, w.procs)
  }

  /**
   Rows are never lost, their terms never change, a settled row keeps its settlement, an attached row stays
   attached.
   */
  ghost predicate Evolves(a: Table, b: Table) {
    forall id | id in a ::
      && id in b && a[id].terms == b[id].terms
      && (!a[id].status.Running? ==> SameSettlement(a[id], b[id]))
      && (a[id].watchId.Some? ==> b[id].watchId.Some?)
  }

  /** Watches are never lost, never change trade or terms, and one that is over stays as it ended. */
  ghost predicate Persist(a: Watches, b: Watches) {
    forall wid | wid in a ::
      && wid in b && a[wid].tradeId == b[wid].tradeId && a[wid].terms == b[wid].terms
      && (!a[wid].live ==> a[wid] == b[wid])
  }

  lemma ProcStaysOk(a: Table, b: Table, u: Watches, v: Watches, proc: Proc)
    requires ProcOk(a, u, proc) && Evolves(a, b) && Persist(u, v)
    ensures ProcOk(b, v, proc)
  {}

  /** One task moves on while the shared state evolves. */
  lemma MoveOn(w: World, rows: Table, watches: Watches, p: nat, next: Proc)
    requires Inv(w) && Evolves(w.rows, rows) && Persist(w.watches, watches)
    requires RowsOk(rows, watches) && WatchesOk(rows, watches) && ProcOk(rows, watches, next)
    ensures Inv(World(rows, watches, w.procs[p := next]))
  {
    hide ProcOk, Evolves, Persist, RowsOk, WatchesOk;
    forall q | q in w.procs ensures ProcOk(rows, watches, w.procs[q]) {
      ProcStaysOk(w.rows, rows, w.watches, watches, w.procs[q]);
    }
  }

  /** A row is written: inserted, settled or attached. */
  lemma PutRow(rows: Table, watches: Watches, id: nat, row: Row)
    requires RowsOk(rows, watches) && WatchesOk(rows, watches) && RowOk(id, row, watches)
    requires id in rows ==> rows[id].terms == row.terms && (!rows[id].status.Running? ==> SameSettlement(rows[id], row))
    requires id in rows && rows[id].watchId.Some? ==> row.watchId.Some?
    ensures Evolves(rows, rows[id := row])
    ensures RowsOk(rows[id := row], watches) && WatchesOk(rows[id := row], watches)
  {}

  /** A watch is registered or ends. */
  lemma PutWatch(rows: Table, watches: Watches, wid: nat, info: WatchInfo)
    requires RowsOk(rows, watches) && WatchesOk(rows, watches) && WatchOk(rows, info)
    requires wid in watches ==> watches[wid].tradeId == info.tradeId && watches[wid].terms == info.terms
    requires wid in watches && !watches[wid].live ==> watches[wid] == info
    ensures Persist(watches, watches[wid := info])
    ensures RowsOk(rows, watches[wid := info]) && WatchesOk(rows, watches[wid := info])
  {}

  lemma SameRows(rows: Table)
    ensures Evolves(rows, rows)
  {}

  lemma SameWatches(watches: Watches)
    ensures Persist(watches, watches)
  {}

  lemma CloseRowKeeps(rows: Table, watches: Watches, id: nat, price: real, ms: int, pnl: real, reason: string)
    requires RowsOk(rows, watches) && WatchesOk(rows, watches)
    requires id in rows && rows[id].terms.entry > 0.0 && pnl == ComputePnl(rows[id].terms, price)
    ensures var next := CloseRow(rows, id, price, ms, pnl, reason);
            && Evolves(rows, next) && RowsOk(next, watches) && WatchesOk(next, watches)
            && id in next && !next[id].status.Running?
  {}

  lemma RowAt(rows: Table, watches: Watches, id: nat)
    requires RowsOk(rows, watches) && id in rows
    ensures RowOk(id, rows[id], watches) && rows[id].terms.entry > 0.0
  {}

  lemma AbandonRowKeeps(rows: Table, watches: Watches, id: nat, reason: string)
    requires RowsOk(rows, watches) && WatchesOk(rows, watches) && id in rows
    ensures var next := AbandonRow(rows, id, reason);
            && Evolves(rows, next) && RowsOk(next, watches) && WatchesOk(next, watches)
            && id in next && !next[id].status.Running?
  {}

  lemma AttachKeeps(rows: Table, watches: Watches, id: nat, wid: nat)
    requires RowsOk(rows, watches) && WatchesOk(rows, watches) && id in rows
    requires wid in watches && watches[wid].tradeId == id
    ensures var next := AttachWatch(rows, id, wid);
            Evolves(rows, next) && RowsOk(next, watches) && WatchesOk(next, watches)
  {
    hide ComputePnl, TermsValid, RowsOk, WatchesOk, Evolves;
    RowAt(rows, watches, id);
    PutRow(rows, watches, id, rows[id].(watchId := Some(wid)));
  }

  lemma OpenKeeps(w: World, a: Action)
    requires Inv(w) && (a.OpenInsert? || a.OpenStart? || a.OpenRecord? || a.OpenReturn?)
    ensures Evolves(w.rows, OpenStep(w, a).rows) && Inv(OpenStep(w, a))
  {
    hide ComputePnl, RowsOk, WatchesOk, Evolves, Persist, Inv, CloseRow;
    hide TermsValid, AttachWatch, AbandonRow, DurationAccepted;
    SameRows(w.rows);
    SameWatches(w.watches);
    match a
    case OpenInsert(p, tid, terms) =>
      if OpenStep(w, a) != w {
        assert RowsOk(w.rows, w.watches) && WatchesOk(w.rows, w.watches) by { Parts(w); }
        var rows := w.rows[tid := NewRow(terms)];
        PutRow(w.rows, w.watches, tid, NewRow(terms));
        MoveOn(w, rows, w.watches, p, OpenPending(tid));
      }
    case OpenStart(p, wid, nowMs) =>
      if OpenStep(w, a) != w {
        PartsAt(w, p);
        var tid := w.procs[p].tid;
        if DurationAccepted(w.rows[tid].terms) {
          PutWatch(w.rows, w.watches, wid, NewWatch(w.rows, tid, nowMs));
          MoveOn(w, w.rows, w.watches[wid := NewWatch(w.rows, tid, nowMs)], p, OpenStarted(tid, wid));
        } else {
          MoveOn(w, w.rows, w.watches, p, OpenFailed(tid));
        }
      }
    case OpenRecord(p) =>
      if p in w.procs { PartsAt(w, p); OpenRecordKeeps(w, p); }
    case OpenReturn(p) =>
      if OpenStep(w, a) != w {
        PartsAt(w, p);
        MoveOn(w, w.rows, w.watches, p, OpenReturned(w.procs[p].tid, w.rows[w.procs[p].tid]));
      }
  }

  lemma OpenRecordKeeps(w: World, p: nat)
    requires Inv(w) && p in w.procs
    ensures Evolves(w.rows, OpenStep(w, OpenRecord(p)).rows) && Inv(OpenStep(w, OpenRecord(p)))
  {
    hide ComputePnl, RowsOk, WatchesOk, Evolves, Persist, Inv, TermsValid, AbandonRow, DurationAccepted;
    SameRows(w.rows);
    SameWatches(w.watches);
    PartsAt(w, p);
    var proc := w.procs[p];
    if proc.OpenStarted? {
      AttachKeeps(w.rows, w.watches, proc.tid, proc.wid);
      MoveOn(w, AttachWatch(w.rows, proc.tid, proc.wid), w.watches, p, OpenRead(proc.tid));
    } else if proc.OpenFailed? {
      var rows := AbandonRow(w.rows, proc.tid, "watch_start_failed");
      AbandonRowKeeps(w.rows, w.watches, proc.tid, "watch_start_failed");
      assert w.rows[proc.tid].terms == rows[proc.tid].terms by { SameTerms(w.rows, rows, proc.tid); }
      MoveOn(w, rows, w.watches, p, OpenRaised(proc.tid));
    }
  }

  lemma SameTerms(a: Table, b: Table, id: nat)
    requires Evolves(a, b) && id in a
    ensures id in b && a[id].terms == b[id].terms
  {}

  lemma Parts(w: World)
    requires Inv(w)
    ensures RowsOk(w.rows, w.watches) && WatchesOk(w.rows, w.watches) && ProcsOk(w.rows, w.watches, w.procs)
  {}

  lemma PartsAt(w: World, p: nat)
    requires Inv(w) && p in w.procs
    ensures RowsOk(w.rows, w.watches) && WatchesOk(w.rows, w.watches) && ProcOk(w.rows, w.watches, w.procs[p])
  {}

  lemma CloseKeeps(w: World, a: Action)
    requires Inv(w) && (a.CloseFetch? || a.CloseStopWatch? || a.CloseWrite? || a.CloseReturn?)
    ensures Evolves(w.rows, CloseStep(w, a).rows) && Inv(CloseStep(w, a))
  {
    hide RowsOk, WatchesOk, Evolves, Persist, Inv, CloseRow, CancelWatch, ComputePnl;
    SameRows(w.rows);
    SameWatches(w.watches);
    match a
    case CloseFetch(p, tid, price, reason) => CloseFetchKeeps(w, p, tid, price, reason);
    case CloseStopWatch(p) => CloseStopWatchKeeps(w, p);
    case CloseWrite(p, nowMs) => CloseWriteKeeps(w, p, nowMs);
    case CloseReturn(p) =>
      if p in w.procs && w.procs[p].CloseRead? {
        PartsAt(w, p);
        MoveOn(w, w.rows, w.watches, p, CloseReturned(w.procs[p].tid, w.rows[w.procs[p].tid]));
      }
  }

  lemma CloseFetchKeeps(w: World, p: nat, tid: nat, price: real, reason: string)
    requires Inv(w)
    ensures Evolves(w.rows, CloseStep(w, CloseFetch(p, tid, price, reason)).rows)
            && Inv(CloseStep(w, CloseFetch(p, tid, price, reason)))
  {
    hide RowsOk, WatchesOk, Evolves, Persist, Inv, ComputePnl;
    SameRows(w.rows);
    SameWatches(w.watches);
    if p !in w.procs {
      Parts(w);
      MoveOn(w, w.rows, w.watches, p, CloseStep(w, CloseFetch(p, tid, price, reason)).procs[p]);
    }
  }

  lemma CloseStopWatchKeeps(w: World, p: nat)
    requires Inv(w)
    ensures Evolves(w.rows, CloseStep(w, CloseStopWatch(p)).rows) && Inv(CloseStep(w, CloseStopWatch(p)))
  {
    hide RowsOk, WatchesOk, Evolves, Persist, Inv, ComputePnl, CancelWatch;
    SameRows(w.rows);
    if p in w.procs && w.procs[p].CloseStopping? && w.procs[p].seen.terms.entry > 0.0 {
      PartsAt(w, p);
      var c := w.procs[p];
      var v := if c.seen.watchId.Some? then CancelWatch(w, c.seen.watchId.value) else w;
      if c.seen.watchId.Some? { CancelKeeps(w, c.seen.watchId.value); }
      Parts(v);
      SameWatches(v.watches);
      MoveOn(v, v.rows, v.watches, p, CloseWriting(c.tid, c.price, c.reason, ComputePnl(c.seen.terms, c.price)));
    }
  }

  lemma CloseWriteKeeps(w: World, p: nat, nowMs: int)
    requires Inv(w)
    ensures Evolves(w.rows, CloseStep(w, CloseWrite(p, nowMs)).rows) && Inv(CloseStep(w, CloseWrite(p, nowMs)))
  {
    hide RowsOk, WatchesOk, Evolves, Persist, Inv, CloseRow, ComputePnl;
    SameRows(w.rows);
    SameWatches(w.watches);
    if p in w.procs && w.procs[p].CloseWriting? {
      PartsAt(w, p);
      var c := w.procs[p];
      CloseRowKeeps(w.rows, w.watches, c.tid, c.price, nowMs, c.pnl, c.reason);
      MoveOn(w, CloseRow(w.rows, c.tid, c.price, nowMs, c.pnl, c.reason), w.watches, p, CloseRead(c.tid));
    }
  }

  lemma EndKeeps(w: World, wid: nat)
    requires Inv(w)
    ensures Inv(EndWatch(w, wid)) && EndWatch(w, wid).rows == w.rows && EndWatch(w, wid).procs == w.procs
    ensures Persist(w.watches, EndWatch(w, wid).watches)
  {
    hide RowsOk, ProcOk, Persist, Evolves, WatchOf;
    SameRows(w.rows);
    SameWatches(w.watches);
    if wid in w.watches {
      var info := w.watches[wid].(live := false);
      assert WatchOk(w.rows, w.watches[wid]);
      PutWatch(w.rows, w.watches, wid, info);
      forall q | q in w.procs ensures ProcOk(w.rows, w.watches[wid := info], w.procs[q]) {
        ProcStaysOk(w.rows, w.rows, w.watches, w.watches[wid := info], w.procs[q]);
      }
    }
  }

  lemma CancelKeeps(w: World, wid: nat)
    requires Inv(w)
    ensures Inv(CancelWatch(w, wid)) && CancelWatch(w, wid).rows == w.rows
    ensures Persist(w.watches, CancelWatch(w, wid).watches)
  {
    hide ComputePnl, RowsOk, WatchesOk, Persist, EndWatch;
    EndKeeps(w, wid);
  }

  lemma WatchKeeps(w: World, a: Action)
    requires Inv(w) && (a.Fire? || a.WatchEnds? || a.HandlerFetch? || a.HandlerWrite? || a.HandlerKilled?)
    ensures Evolves(w.rows, WatchStep(w, a).rows) && Inv(WatchStep(w, a))
  {
    hide RowsOk, WatchesOk, Evolves, Persist, Inv, CloseRow, ComputePnl, EndWatch, IsRunning;
    SameRows(w.rows);
    SameWatches(w.watches);
    match a
    case Fire(wid, p, ticks) => FireKeeps(w, wid, p, ticks);
    case WatchEnds(wid) => EndKeeps(w, wid);
    case HandlerFetch(p) => HandlerFetchKeeps(w, p);
    case HandlerWrite(p) => HandlerWriteKeeps(w, p);
    case HandlerKilled(p) =>
      if p in w.procs && (w.procs[p].HandlerRead? || w.procs[p].HandlerWriting?) {
        PartsAt(w, p);
        MoveOn(w, w.rows, w.watches, p, HandlerCut(w.procs[p].tid));
      }
  }

  lemma FireKeeps(w: World, wid: nat, p: nat, ticks: seq<W.Tick>)
    requires Inv(w)
    ensures Evolves(w.rows, WatchStep(w, Fire(wid, p, ticks)).rows) && Inv(WatchStep(w, Fire(wid, p, ticks)))
  {
    hide RowsOk, WatchesOk, Evolves, Persist, Inv, WatchOf, Decides;
    SameRows(w.rows);
    if wid in w.watches && w.watches[wid].live && p !in w.procs && Decides(w.watches[wid], ticks) {
      var info := w.watches[wid].(live := false, ticks := ticks);
      Parts(w);
      WatchAt(w.rows, w.watches, wid);
      PutWatch(w.rows, w.watches, wid, info);
      DecidesAlike(w.watches[wid], info, ticks);
      MoveOn(w, w.rows, w.watches[wid := info], p, HandlerRead(info.tradeId, wid, W.Verdict(info.terms, ticks)));
    }
  }

  lemma DecidesAlike(a: WatchInfo, b: WatchInfo, ticks: seq<W.Tick>)
    requires Decides(a, ticks) && b.terms == a.terms
    ensures Decides(b, ticks) && b.terms.entry > 0.0 && !W.Follow(b.terms, ticks, |ticks|).status.Running?
  {}

  lemma WatchAt(rows: Table, watches: Watches, wid: nat)
    requires WatchesOk(rows, watches) && wid in watches
    ensures WatchOk(rows, watches[wid])
  {}

  lemma HandlerFetchKeeps(w: World, p: nat)
    requires Inv(w)
    ensures Evolves(w.rows, WatchStep(w, HandlerFetch(p)).rows) && Inv(WatchStep(w, HandlerFetch(p)))
  {
    hide RowsOk, WatchesOk, Evolves, Persist, Inv, ComputePnl;
    SameRows(w.rows);
    SameWatches(w.watches);
    if p in w.procs && w.procs[p].HandlerRead? {
      PartsAt(w, p);
      RowAt(w.rows, w.watches, w.procs[p].tid);
      MoveOn(w, w.rows, w.watches, p, WatchStep(w, HandlerFetch(p)).procs[p]);
    }
  }

  lemma HandlerWriteKeeps(w: World, p: nat)
    requires Inv(w)
    ensures Evolves(w.rows, WatchStep(w, HandlerWrite(p)).rows) && Inv(WatchStep(w, HandlerWrite(p)))
  {
    hide RowsOk, WatchesOk, Evolves, Persist, Inv, CloseRow, ComputePnl, Reason;
    SameRows(w.rows);
    SameWatches(w.watches);
    if p in w.procs && w.procs[p].HandlerWriting? {
      PartsAt(w, p);
      var h := w.procs[p];
      CloseRowKeeps(w.rows, w.watches, h.tid, h.event.price, h.event.tsMs, h.pnl, Reason(h.event.kind));
      MoveOn(w, CloseRow(w.rows, h.tid, h.event.price, h.event.tsMs, h.pnl, Reason(h.event.kind)), w.watches, p,
          HandlerDone(h.tid));
    }
  }

  lemma ResumeKeeps(w: World, a: Action)
    requires Inv(w) && (a.ResumeList? || a.ResumeStart? || a.ResumeWrite?)
    ensures Evolves(w.rows, ResumeStep(w, a).rows) && Inv(ResumeStep(w, a))
  {
    hide ComputePnl, RowsOk, WatchesOk, Evolves, Persist, Inv, TermsValid, AttachWatch, AbandonRow, DurationAccepted;
    SameRows(w.rows);
    SameWatches(w.watches);
    Parts(w);
    match a
    case ResumeList(p, ids) =>
      if p !in w.procs && IsOpenListing(w.rows, ids) {
        SweepStarts(w.rows, ids);
        MoveOn(w, w.rows, w.watches, p, Resuming(Sweep(ids, ids, [], 0)));
      }
    case ResumeStart(p, wid, nowMs, resolves, cause) =>
      if p in w.procs && w.procs[p].Resuming? && w.procs[p].sweep.todo != [] && wid !in w.watches {
        PartsAt(w, p);
        ResumeStartKeeps(w, p, wid, nowMs, resolves, cause);
      }
    case ResumeWrite(p) =>
      if p in w.procs { ResumeWriteKeeps(w, p); }
  }

  lemma SweepStarts(rows: Table, ids: seq<nat>)
    requires IsOpenListing(rows, ids)
    ensures SweepOk(rows, Sweep(ids, ids, [], 0), {})
  {}

  /** Taking the next row in hand. */
  lemma SweepTakes(rows: Table, sweep: Sweep)
    requires SweepOk(rows, sweep, {}) && sweep.todo != []
    ensures SweepOk(rows, sweep.(todo := sweep.todo[1..]), {sweep.todo[0]})
  {
    var tid, rest := sweep.todo[0], sweep.todo[1..];
    assert sweep.todo == [tid] + rest;
    forall i | 0 <= i < |rest| ensures rest[i] != tid { assert rest[i] == sweep.todo[i + 1]; }
  }

  /** The row in hand was attached, or settled. */
  lemma SweepPuts(rows: Table, next: Table, sweep: Sweep, tid: nat)
    requires SweepOk(rows, sweep, {tid}) && Evolves(rows, next)
    requires tid in next
    ensures next[tid].watchId.Some? ==> SweepOk(next, Attached(sweep, tid), {})
    ensures !next[tid].status.Running? ==> SweepOk(next, sweep, {})
  {
    assert forall id | id in sweep.listed ::
        id == tid || id in sweep.todo || id in sweep.kept || !rows[id].status.Running?;
    var kept := sweep.kept + [tid];
    assert forall id :: id in kept <==> id in sweep.kept || id == tid;
    assert tid in {tid};
  }

  lemma ResumeWriteKeeps(w: World, p: nat)
    requires Inv(w) && p in w.procs
    ensures Evolves(w.rows, ResumeStep(w, ResumeWrite(p)).rows) && Inv(ResumeStep(w, ResumeWrite(p)))
  {
    hide ComputePnl, RowsOk, WatchesOk, Evolves, Persist, Inv;
    hide TermsValid, AbandonRow, DurationAccepted, SweepOk, Attached;
    SameRows(w.rows);
    SameWatches(w.watches);
    PartsAt(w, p);
    var r := w.procs[p];
    if r.ResumeRecord? {
      AttachKeeps(w.rows, w.watches, r.tid, r.wid);
      var rows := AttachWatch(w.rows, r.tid, r.wid);
      SweepPuts(w.rows, rows, r.sweep, r.tid);
      MoveOn(w, rows, w.watches, p, Resuming(Attached(r.sweep, r.tid)));
    } else if r.ResumeAbandon? {
      var rows := AbandonRow(w.rows, r.tid, "resume_failed: " + r.cause);
      AbandonRowKeeps(w.rows, w.watches, r.tid, "resume_failed: " + r.cause);
      SweepPuts(w.rows, rows, r.sweep, r.tid);
      MoveOn(w, rows, w.watches, p, Resuming(r.sweep));
    }
  }

  lemma ResumeStartKeeps(w: World, p: nat, wid: nat, nowMs: int, resolves: bool, cause: string)
    requires Inv(w) && p in w.procs && w.procs[p].Resuming? && w.procs[p].sweep.todo != [] && wid !in w.watches
    ensures Evolves(w.rows, ResumeStep(w, ResumeStart(p, wid, nowMs, resolves, cause)).rows)
            && Inv(ResumeStep(w, ResumeStart(p, wid, nowMs, resolves, cause)))
  {
    hide ComputePnl, RowsOk, WatchesOk, Evolves, Persist, Inv, TermsValid, DurationAccepted, SweepOk;
    SameRows(w.rows);
    SameWatches(w.watches);
    PartsAt(w, p);
    var sweep := w.procs[p].sweep;
    var tid, rest := sweep.todo[0], sweep.(todo := sweep.todo[1..]);
    if tid in w.rows {
      SweepTakes(w.rows, sweep);
      if resolves && DurationAccepted(w.rows[tid].terms) {
        PutWatch(w.rows, w.watches, wid, NewWatch(w.rows, tid, nowMs));
        MoveOn(w, w.rows, w.watches[wid := NewWatch(w.rows, tid, nowMs)], p, ResumeRecord(tid, wid, rest));
      } else {
        MoveOn(w, w.rows, w.watches, p, ResumeAbandon(tid, rest, cause));
      }
    }
  }

  lemma StepKeeps(w: World, a: Action)
    requires Inv(w)
    ensures Evolves(w.rows, Apply(w, a).rows) && Inv(Apply(w, a))
  {
    hide Inv, Evolves, OpenStep, CloseStep, WatchStep, ResumeStep;
    if a.OpenInsert? || a.OpenStart? || a.OpenRecord? || a.OpenReturn? { OpenKeeps(w, a); }
    else if a.CloseFetch? || a.CloseStopWatch? || a.CloseWrite? || a.CloseReturn? { CloseKeeps(w, a); }
    else if a.ResumeList? || a.ResumeStart? || a.ResumeWrite? { ResumeKeeps(w, a); }
    else { WatchKeeps(w, a); }
  }

  /** The invariants hold after every interleaving. */
  lemma {:induction false} AlwaysInv(acts: seq<Action>)
    ensures Inv(Execute(EMPTY, acts))
  {
    hide Inv, Apply;
    if acts == [] {
      assert Inv(EMPTY) by { EmptyInv(); }
    } else {
      AlwaysInv(acts[..|acts| - 1]);
      StepKeeps(Execute(EMPTY, acts[..|acts| - 1]), acts[|acts| - 1]);
    }
  }

  lemma EmptyInv()
    ensures Inv(EMPTY)
  {}

  lemma EvolvesTransitive(a: Table, b: Table, c: Table)
    requires Evolves(a, b) && Evolves(b, c)
    ensures Evolves(a, c)
  {}

  /** Whatever runs later, a settled row keeps status, exit price, closing time, pnl and reason. */
  lemma {:induction false} SettledForever(acts: seq<Action>, more: seq<Action>)
    ensures Evolves(Execute(EMPTY, acts).rows, Execute(EMPTY, acts + more).rows)
    decreases |more|
  {
    hide Inv, Apply, Evolves;
    var w := Execute(EMPTY, acts);
    if more == [] {
      assert acts + more == acts;
      assert Evolves(w.rows, w.rows) by { SameRows(w.rows); }
    } else {
      var init := more[..|more| - 1];
      SettledForever(acts, init);
      assert (acts + more)[..|acts + more| - 1] == acts + init;
      AlwaysInv(acts + init);
      var v := Execute(EMPTY, acts + init);
      StepKeeps(v, more[|more| - 1]);
      EvolvesTransitive(w.rows, v.rows, Apply(v, more[|more| - 1]).rows);
    }
  }

  /** How many actions of the run took the row out of `running`. */
  ghost function Settlements(acts: seq<Action>, id: nat): nat {
    if acts == [] then 0
    else
      var init := acts[..|acts| - 1];
      var before, after := Execute(EMPTY, init), Execute(EMPTY, acts);
      Settlements(init, id) + (if IsRunning(before.rows, id) && !IsRunning(after.rows, id) then 1 else 0)
  }

  /** Exactly once: a settled row was settled by one action, a running row by none. */
  lemma {:induction false} SettledExactlyOnce(acts: seq<Action>, id: nat)
    ensures var rows := Execute(EMPTY, acts).rows;
            Settlements(acts, id) == if id in rows && !rows[id].status.Running? then 1 else 0
  {
    hide Inv, Apply;
    if acts != [] {
      var init := acts[..|acts| - 1];
      SettledExactlyOnce(init, id);
      AlwaysInv(init);
      var w := Execute(EMPTY, init);
      StepKeeps(w, acts[|acts| - 1]);
      assert Execute(EMPTY, acts) == Apply(w, acts[|acts| - 1]);
      if id !in w.rows { NewRowsRun(w, acts[|acts| - 1], id); }
    }
  }

  lemma NewRowsRun(w: World, a: Action, id: nat)
    requires id !in w.rows
    ensures id in Apply(w, a).rows ==> Apply(w, a).rows[id].status.Running?
  {}

  /** A closed row carries the pnl of its own exit price; only settled rows carry a reason. */
  lemma RowsAddUp(acts: seq<Action>, id: nat)
    requires id in Execute(EMPTY, acts).rows
    ensures var row := Execute(EMPTY, acts).rows[id];
            && row.terms.entry > 0.0 && row.terms.stop > 0.0 && row.terms.take > 0.0 && row.terms.sizeQuote > 0.0
            && (row.terms.side.Long? ==> row.terms.stop < row.terms.entry < row.terms.take)
            && (row.terms.side.Short? ==> row.terms.take < row.terms.entry < row.terms.stop)
            && (row.status.Closed? <==> row.exitPrice.Some?)
            && (row.status.Closed? <==> row.closedAtMs.Some?)
            && (row.status.Closed? <==> row.pnlQuote.Some?)
            && (row.status.Running? <==> row.reason.None?)
            && (row.status.Closed? ==> row.pnlQuote.value == ComputePnl(row.terms, row.exitPrice.value))
  {
    hide Execute, ComputePnl;
    AlwaysInv(acts);
    var w := Execute(EMPTY, acts);
    assert RowOk(id, w.rows[id], w.watches) by { RowAt(w.rows, w.watches, id); }
  }

  /** Every `close_trade` that returns, returns a settled row with its pnl; closers of one trade agree. */
  lemma ClosersAgree(acts: seq<Action>, p: nat, q: nat)
    requires var w := Execute(EMPTY, acts);
             && p in w.procs && q in w.procs && w.procs[p].CloseReturned? && w.procs[q].CloseReturned?
             && w.procs[p].tid == w.procs[q].tid
    ensures var w := Execute(EMPTY, acts);
            && w.procs[p].tid in w.rows
            && !w.procs[p].row.status.Running?
            && SameSettlement(w.procs[p].row, w.procs[q].row)
            && SameSettlement(w.procs[p].row, w.rows[w.procs[p].tid])
            && (w.procs[p].row.status.Closed? ==>
                  w.procs[p].row.exitPrice.Some? && w.procs[p].row.terms.entry > 0.0 &&
                  w.procs[p].row.pnlQuote == Some(ComputePnl(w.procs[p].row.terms, w.procs[p].row.exitPrice.value)))
  {
    hide Execute, ComputePnl;
    AlwaysInv(acts);
    var w := Execute(EMPTY, acts);
    assert ProcOk(w.rows, w.watches, w.procs[p]) && ProcOk(w.rows, w.watches, w.procs[q]);
    RowAt(w.rows, w.watches, w.procs[p].tid);
  }

  /**
   `open_trade` raises, leaving a settled row, only for durations the watch rejects; otherwise it returns an
   attached row.
   */
  lemma OpenOutcome(acts: seq<Action>, p: nat)
    requires var w := Execute(EMPTY, acts); p in w.procs && (w.procs[p].OpenReturned? || w.procs[p].OpenRaised?)
    ensures var w := Execute(EMPTY, acts); var tid := w.procs[p].tid;
            && tid in w.rows
            && (w.procs[p].OpenReturned? <==> 60 <= w.rows[tid].terms.maxDurationSec <= 86_400)
            && (w.procs[p].OpenReturned? ==> w.rows[tid].terms == w.procs[p].row.terms && w.procs[p].row.watchId.Some?)
            && (w.procs[p].OpenRaised? ==> !w.rows[tid].status.Running?)
  {
    hide Execute;
    AlwaysInv(acts);
    var w := Execute(EMPTY, acts);
    assert ProcOk(w.rows, w.watches, w.procs[p]);
  }

  /**
   A terminal callback that runs to its end leaves its trade settled: one that leaves it running was cut
   before its write.
   */
  lemma CallbackSettles(acts: seq<Action>, p: nat)
    requires var w := Execute(EMPTY, acts); p in w.procs && (w.procs[p].HandlerDone? || w.procs[p].HandlerCut?)
    ensures var w := Execute(EMPTY, acts); var tid := w.procs[p].tid;
            && tid in w.rows
            && (w.procs[p].HandlerDone? ==> !w.rows[tid].status.Running?)
            && (w.rows[tid].status.Running? ==> w.procs[p].HandlerCut?)
  {
    hide Execute;
    AlwaysInv(acts);
    var w := Execute(EMPTY, acts);
    assert ProcOk(w.rows, w.watches, w.procs[p]);
  }

  predicate IsCallback(proc: Proc) {
    proc.HandlerRead? || proc.HandlerWriting?
  }

  /**
   The step that ends a callback leaves its trade running exactly when it cuts the callback while the
   row is still running.
   */
  lemma CallbackEndExact(acts: seq<Action>, a: Action, p: nat)
    requires var w := Execute(EMPTY, acts); p in w.procs && IsCallback(w.procs[p])
    requires var v := Apply(Execute(EMPTY, acts), a);
             p in v.procs && (v.procs[p].HandlerDone? || v.procs[p].HandlerCut?)
    ensures var w := Execute(EMPTY, acts); var v := Apply(w, a); var tid := w.procs[p].tid;
            && v.procs[p].tid == tid && tid in w.rows
            && (IsRunning(v.rows, tid) <==> v.procs[p].HandlerCut? && IsRunning(w.rows, tid))
  {
    hide Execute, Apply, Inv;
    AlwaysInv(acts);
    EndExact(Execute(EMPTY, acts), a, p);
  }

  /** Neither the opening nor the resuming of trades touches a callback. */
  lemma OpenSparesCallback(w: World, a: Action, p: nat)
    requires p in w.procs && IsCallback(w.procs[p]) && (a.OpenInsert? || a.OpenStart? || a.OpenRecord? || a.OpenReturn?)
    ensures p in OpenStep(w, a).procs && OpenStep(w, a).procs[p] == w.procs[p]
  {
    hide AttachWatch, AbandonRow, DurationAccepted, TermsValid;
  }

  lemma ResumeSparesCallback(w: World, a: Action, p: nat)
    requires p in w.procs && IsCallback(w.procs[p]) && (a.ResumeList? || a.ResumeStart? || a.ResumeWrite?)
    ensures p in ResumeStep(w, a).procs && ResumeStep(w, a).procs[p] == w.procs[p]
  {
    hide AttachWatch, AbandonRow, DurationAccepted, IsOpenListing, Attached;
  }

  /** Closing a trade cuts a callback or leaves it alone; where it is cut no row has changed. */
  lemma CloseCutsCallback(w: World, a: Action, p: nat)
    requires p in w.procs && IsCallback(w.procs[p])
    requires a.CloseFetch? || a.CloseStopWatch? || a.CloseWrite? || a.CloseReturn?
    ensures p in CloseStep(w, a).procs
    ensures || CloseStep(w, a).procs[p] == w.procs[p]
            || (CloseStep(w, a).procs[p] == HandlerCut(w.procs[p].tid) && CloseStep(w, a).rows == w.rows)
  {
    hide EndWatch, CloseRow, ComputePnl;
    if a.CloseStopWatch? && a.p in w.procs && w.procs[a.p].CloseStopping? && w.procs[a.p].seen.watchId.Some? {
      EndSparesProcs(w, w.procs[a.p].seen.watchId.value);
    }
  }

  /** A step of the callback itself: it writes, finds the row settled, or is killed. */
  lemma WatchEndsCallback(w: World, a: Action, p: nat)
    requires p in w.procs && IsCallback(w.procs[p]) && w.procs[p].tid in w.rows
             && w.rows[w.procs[p].tid].terms.entry > 0.0
    requires a.Fire? || a.WatchEnds? || a.HandlerFetch? || a.HandlerWrite? || a.HandlerKilled?
    ensures var v := WatchStep(w, a); var tid := w.procs[p].tid;
            && p in v.procs
            && (v.procs[p].HandlerDone? ==> v.procs[p].tid == tid && !IsRunning(v.rows, tid))
            && (v.procs[p].HandlerCut? ==> v.procs[p].tid == tid && v.rows == w.rows)
  {
    hide EndWatch, Decides, W.Verdict, W.Follow, ComputePnl, Reason;
    if a.WatchEnds? { EndSparesProcs(w, a.wid); }
  }

  lemma EndSparesProcs(w: World, wid: nat)
    ensures EndWatch(w, wid).rows == w.rows && EndWatch(w, wid).procs == w.procs
  {}

  lemma EndExact(w: World, a: Action, p: nat)
    requires Inv(w) && p in w.procs && IsCallback(w.procs[p])
    requires var v := Apply(w, a); p in v.procs && (v.procs[p].HandlerDone? || v.procs[p].HandlerCut?)
    ensures var v := Apply(w, a); var tid := w.procs[p].tid;
            && v.procs[p].tid == tid && tid in w.rows
            && (IsRunning(v.rows, tid) <==> v.procs[p].HandlerCut? && IsRunning(w.rows, tid))
  {
    hide Inv, OpenStep, CloseStep, ResumeStep, WatchStep, RowsOk, WatchesOk, Decides, ComputePnl, W.Verdict;
    PartsAt(w, p);
    RowAt(w.rows, w.watches, w.procs[p].tid);
    if a.OpenInsert? || a.OpenStart? || a.OpenRecord? || a.OpenReturn? { OpenSparesCallback(w, a, p); }
    else if a.CloseFetch? || a.CloseStopWatch? || a.CloseWrite? || a.CloseReturn? { CloseCutsCallback(w, a, p); }
    else if a.ResumeList? || a.ResumeStart? || a.ResumeWrite? { ResumeSparesCallback(w, a, p); }
    else { WatchEndsCallback(w, a, p); }
  }

  /**
   When a callback settles its row, the row holds what its watch ended with: exit price, closing time
   and pnl are the watch's last price, last tick and pnl, and the reason names its status.
   */
  lemma CallbackStoresVerdict(acts: seq<Action>, p: nat)
    requires var w := Execute(EMPTY, acts);
             p in w.procs && w.procs[p].HandlerWriting? && IsRunning(w.rows, w.procs[p].tid)
    ensures var w := Execute(EMPTY, acts); var h := w.procs[p]; var v := Apply(w, HandlerWrite(p));
            && h.wid in w.watches && h.tid in v.rows && Decides(w.watches[h.wid], w.watches[h.wid].ticks)
            && var info, row := w.watches[h.wid], v.rows[h.tid];
               var seen := W.Follow(info.terms, info.ticks, |info.ticks|);
               && info.terms == WatchOf(row.terms, info.terms.startedAtMs)
               && h.event.kind.Terminal() && seen.status == W.StatusOf(h.event.kind)
               && row.status.Closed? && row.exitPrice == seen.currentPrice && row.closedAtMs == seen.lastTickAtMs
               && row.pnlQuote == seen.pnlQuote && row.reason == Some(Reason(h.event.kind))
  {
    hide Execute, ComputePnl, W.RoundedQuote, W.Follow, Reason, W.StatusOf;
    AlwaysInv(acts);
    var w := Execute(EMPTY, acts);
    PartsAt(w, p);
    var h := w.procs[p];
    var info := w.watches[h.wid];
    WatchAt(w.rows, w.watches, h.wid);
    W.VerdictFacts(info.terms, info.ticks);
    W.WatchPnlIsLedgerPnl(info.terms, w.rows[h.tid].terms, h.event.price);
  }

  const SAMPLE_TERMS: Terms := Terms(Long, 100.0, 90.0, 110.0, 50.0, 0, 3600)

  /** Cutting the callback can leave a running row whose watch is over: open, reach the stop, cancel the callback. */
  function CutSchedule(): seq<Action> {
    [OpenInsert(0, 7, SAMPLE_TERMS), OpenStart(0, 1, 0), OpenRecord(0),
     Fire(1, 2, [W.Tick(90.0, 5)]), HandlerFetch(2), HandlerKilled(2)]
  }

  lemma CutLeavesRunning()
    ensures var w := Execute(EMPTY, CutSchedule());
            && 2 in w.procs && w.procs[2] == HandlerCut(7)
            && IsRunning(w.rows, 7) && w.rows[7].watchId == Some(1) && 1 in w.watches && !w.watches[1].live
  {
    hide Apply;
    var acts := CutSchedule();
    var watched := Apply(Apply(Apply(EMPTY, acts[0]), acts[1]), acts[2]);
    OpenedWithWatch();
    CallbackCut(watched);
    assert acts[..0] == [] && acts[..6] == acts;
    assert Execute(EMPTY, acts[..0]) == EMPTY;
    Unfold(EMPTY, acts, 1);
    Unfold(EMPTY, acts, 2);
    Unfold(EMPTY, acts, 3);
    Unfold(EMPTY, acts, 4);
    Unfold(EMPTY, acts, 5);
    Unfold(EMPTY, acts, 6);
  }

  lemma Unfold(w: World, acts: seq<Action>, k: nat)
    requires 0 < k <= |acts|
    ensures Execute(w, acts[..k]) == Apply(Execute(w, acts[..k - 1]), acts[k - 1])
  {
    hide Apply;
    assert acts[..k][..k - 1] == acts[..k - 1];
  }

  function SampleWatch(): WatchInfo {
    WatchInfo(7, true, WatchOf(SAMPLE_TERMS, 0), [])
  }

  /** The one tick at 90 reaches the stop. */
  lemma SampleDecides()
    ensures Decides(SampleWatch(), [W.Tick(90.0, 5)])
  {
    var t, ticks := SampleWatch().terms, [W.Tick(90.0, 5)];
    assert W.TerminalKind(t, ticks[0]) == Some(W.StopHit);
    W.RunsWhileQuiet(t, ticks, 1);
  }

  lemma OpenedWithWatch()
    ensures var acts := CutSchedule(); var w := Apply(Apply(Apply(EMPTY, acts[0]), acts[1]), acts[2]);
            && IsRunning(w.rows, 7) && w.rows[7].watchId == Some(1) && w.rows[7].terms == SAMPLE_TERMS
            && 1 in w.watches && w.watches[1] == SampleWatch() && 2 !in w.procs
  {
    hide CloseStep, WatchStep, ResumeStep;
    var acts := CutSchedule();
    var w1 := Apply(EMPTY, acts[0]);
    assert w1.procs == map[0 := OpenPending(7)] && w1.rows == map[7 := NewRow(SAMPLE_TERMS)] && w1.watches == map[];
    var w2 := Apply(w1, acts[1]);
    assert w2.procs == map[0 := OpenStarted(7, 1)] && w2.rows == w1.rows && w2.watches == map[1 := SampleWatch()];
  }

  /** The watch fires: it ends, and its callback starts. */
  lemma Fires(w: World, wid: nat, p: nat, ticks: seq<W.Tick>)
    requires wid in w.watches && w.watches[wid].live && p !in w.procs && Decides(w.watches[wid], ticks)
    ensures var v := Apply(w, Fire(wid, p, ticks));
            && v.rows == w.rows && p in v.procs && v.procs[p].HandlerRead?
            && v.procs[p].tid == w.watches[wid].tradeId && v.procs[p].wid == wid
            && wid in v.watches && !v.watches[wid].live
  {
    hide OpenStep, CloseStep, ResumeStep, W.Follow, W.Verdict;
  }

  /** The callback reads a running row. */
  lemma Reads(w: World, p: nat)
    requires p in w.procs && w.procs[p].HandlerRead? && IsRunning(w.rows, w.procs[p].tid)
             && w.rows[w.procs[p].tid].terms.entry > 0.0
    ensures var v := Apply(w, HandlerFetch(p));
            && v.rows == w.rows && v.watches == w.watches
            && p in v.procs && v.procs[p].HandlerWriting? && v.procs[p].tid == w.procs[p].tid
  {
    hide OpenStep, CloseStep, ResumeStep, ComputePnl;
  }

  lemma Killed(w: World, p: nat)
    requires p in w.procs && w.procs[p].HandlerWriting?
    ensures var v := Apply(w, HandlerKilled(p));
            v.rows == w.rows && v.watches == w.watches && p in v.procs && v.procs[p] == HandlerCut(w.procs[p].tid)
  {
    hide OpenStep, CloseStep, ResumeStep;
  }

  /** From an opened, watched trade: the watch fires, its callback reads the row and is then cancelled. */
  lemma CallbackCut(w: World)
    requires IsRunning(w.rows, 7) && w.rows[7].watchId == Some(1) && w.rows[7].terms == SAMPLE_TERMS
    requires 1 in w.watches && w.watches[1] == SampleWatch() && 2 !in w.procs
    ensures var acts := CutSchedule(); var v := Apply(Apply(Apply(w, acts[3]), acts[4]), acts[5]);
            && v.rows == w.rows && 2 in v.procs && v.procs[2] == HandlerCut(7) && 1 in v.watches && !v.watches[1].live
  {
    hide Apply;
    var acts := CutSchedule();
    SampleDecides();
    Fires(w, 1, 2, [W.Tick(90.0, 5)]);
    Reads(Apply(w, acts[3]), 2);
    Killed(Apply(Apply(w, acts[3]), acts[4]), 2);
  }

  /**
   A resume that has worked off its list: every listed row is attached or settled, and the count is that of
   the rows it attached.
   */
  lemma ResumeOutcome(acts: seq<Action>, p: nat)
    requires var w := Execute(EMPTY, acts); p in w.procs && w.procs[p].Resuming? && w.procs[p].sweep.todo == []
    ensures var w := Execute(EMPTY, acts); var sweep := w.procs[p].sweep;
            && (forall id | id in sweep.listed ::
                  id in w.rows && (w.rows[id].watchId.Some? || !w.rows[id].status.Running?))
            && sweep.resumed == |sweep.kept| && DistinctIds(sweep.kept)
            && (forall id | id in sweep.kept :: id in sweep.listed && w.rows[id].watchId.Some?)
            && (forall id | id in sweep.listed && id !in sweep.kept :: !w.rows[id].status.Running?)
  {
    hide Execute;
    AlwaysInv(acts);
    var w := Execute(EMPTY, acts);
    assert ProcOk(w.rows, w.watches, w.procs[p]);
  }
}
