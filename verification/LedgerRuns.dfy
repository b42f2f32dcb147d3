/** What each task of the ledger does when nothing else moves. */
module LedgerRuns {
  import opened Base
  import opened Paper
  import opened Ledger

  /** Reading a running row and stopping its watch leaves the rows alone and the pnl computed. */
  lemma StopAlone(w: World, p: nat, tid: nat, price: real, reason: string)
    requires Inv(w) && p !in w.procs && IsRunning(w.rows, tid) && w.rows[tid].terms.entry > 0.0
    ensures var row, v := w.rows[tid], Apply(Apply(w, CloseFetch(p, tid, price, reason)), CloseStopWatch(p));
            && v.rows == w.rows && p in v.procs
            && v.procs[p] == CloseWriting(tid, price, reason, ComputePnl(row.terms, price))
            && (row.watchId.Some? ==> row.watchId.value in v.watches && !v.watches[row.watchId.value].live)
  {
    hide ComputePnl, Inv;
    Parts(w);
    RowAt(w.rows, w.watches, tid);
    var read := Apply(w, CloseFetch(p, tid, price, reason));
    assert read == w.(procs := w.procs[p := CloseStopping(tid, price, reason, w.rows[tid])]);
  }

  /** Writing the close and reading the row back. */
  lemma WriteAlone(w: World, p: nat, nowMs: int)
    requires p in w.procs && w.procs[p].CloseWriting? && IsRunning(w.rows, w.procs[p].tid)
    ensures var c := w.procs[p]; var was := w.rows[c.tid];
            var row := Row(was.terms, Closed, Some(c.price), Some(nowMs), Some(c.pnl), Some(c.reason), was.watchId);
            var v := Apply(Apply(w, CloseWrite(p, nowMs)), CloseReturn(p));
            && v.rows == w.rows[c.tid := row] && v.watches == w.watches
            && p in v.procs && v.procs[p] == CloseReturned(c.tid, row)
  {
    var c := w.procs[p];
    var written := Apply(w, CloseWrite(p, nowMs));
    assert written.procs == w.procs[p := CloseRead(c.tid)];
  }

  /** A close of a running trade: the watch ends, the row is closed as asked, and the row is returned. */
  lemma CloseAlone(w: World, p: nat, tid: nat, price: real, reason: string, nowMs: int)
    requires Inv(w) && p !in w.procs && IsRunning(w.rows, tid) && w.rows[tid].terms.entry > 0.0
    ensures var stopped := Apply(Apply(w, CloseFetch(p, tid, price, reason)), CloseStopWatch(p));
            var v := Apply(Apply(stopped, CloseWrite(p, nowMs)), CloseReturn(p));
            var was, pnl := w.rows[tid], ComputePnl(w.rows[tid].terms, price);
            var row := Row(was.terms, Closed, Some(price), Some(nowMs), Some(pnl), Some(reason), was.watchId);
            && v.rows == w.rows[tid := row] && p in v.procs && v.procs[p] == CloseReturned(tid, row)
            && (was.watchId.Some? ==> was.watchId.value in v.watches && !v.watches[was.watchId.value].live)
  {
    hide ComputePnl, Inv, Apply;
    StopAlone(w, p, tid, price, reason);
    WriteAlone(Apply(Apply(w, CloseFetch(p, tid, price, reason)), CloseStopWatch(p)), p, nowMs);
  }

  /** A close of a trade that is not running: missing, or returned as it is; nothing is written. */
  lemma CloseSettled(w: World, p: nat, tid: nat, price: real, reason: string)
    requires p !in w.procs && !IsRunning(w.rows, tid)
    ensures var v := Apply(w, CloseFetch(p, tid, price, reason));
            && v.rows == w.rows && v.watches == w.watches && p in v.procs
            && v.procs[p] == if tid in w.rows then CloseReturned(tid, w.rows[tid]) else CloseMissing(tid)
  {}

  /** An open within the accepted durations: a running row attached to a live watch on its terms, and returned. */
  lemma OpenAlone(w: World, p: nat, tid: nat, wid: nat, terms: Terms, nowMs: int)
    requires p !in w.procs && tid !in w.rows && wid !in w.watches && TermsValid(terms)
    requires 60 <= terms.maxDurationSec <= 86_400
    ensures var started := Apply(Apply(w, OpenInsert(p, tid, terms)), OpenStart(p, wid, nowMs));
            var v := Apply(Apply(started, OpenRecord(p)), OpenReturn(p));
            var row := Row(terms, Running, None, None, None, None, Some(wid));
            && v.rows == w.rows[tid := row] && p in v.procs && v.procs[p] == OpenReturned(tid, row)
            && wid in v.watches && v.watches[wid].live && v.watches[wid].tradeId == tid
            && v.watches[wid].terms.startedAtMs == nowMs
  {
    var inserted := Apply(w, OpenInsert(p, tid, terms));
    var started := Apply(inserted, OpenStart(p, wid, nowMs));
    assert started.procs[p] == OpenStarted(tid, wid);
    var recorded := Apply(started, OpenRecord(p));
    assert recorded.procs[p] == OpenRead(tid);
  }

  /** An open outside them: the row is left abandoned and no watch is started. */
  lemma OpenRejected(w: World, p: nat, tid: nat, wid: nat, terms: Terms, nowMs: int)
    requires p !in w.procs && tid !in w.rows && wid !in w.watches && TermsValid(terms)
    requires !(60 <= terms.maxDurationSec <= 86_400)
    ensures var v := Apply(Apply(Apply(w, OpenInsert(p, tid, terms)), OpenStart(p, wid, nowMs)), OpenRecord(p));
            && v.rows == w.rows[tid := Row(terms, Abandoned, None, None, None, Some("watch_start_failed"), None)]
            && v.watches == w.watches && p in v.procs && v.procs[p] == OpenRaised(tid)
  {
    var inserted := Apply(w, OpenInsert(p, tid, terms));
    var failed := Apply(inserted, OpenStart(p, wid, nowMs));
    assert failed.procs[p] == OpenFailed(tid);
  }

  /** The event a deciding run of ticks hands to the callback. */
  lemma FireAlone(w: World, wid: nat, p: nat, ticks: seq<W.Tick>)
    requires Inv(w) && wid in w.watches && w.watches[wid].live && p !in w.procs && Decides(w.watches[wid], ticks)
    ensures var info, v := w.watches[wid], Apply(w, Fire(wid, p, ticks));
            && v.rows == w.rows && info.tradeId in w.rows && w.rows[info.tradeId].terms.entry > 0.0
            && p in v.procs && v.procs[p].HandlerRead? && v.procs[p].tid == info.tradeId
            && Some(v.procs[p].event.price) == W.Follow(info.terms, ticks, |ticks|).currentPrice
            && wid in v.watches && !v.watches[wid].live
  {
    hide ComputePnl, Inv, W.Follow;
    var info := w.watches[wid];
    Parts(w);
    WatchAt(w.rows, w.watches, wid);
    RowAt(w.rows, w.watches, info.tradeId);
    W.VerdictFacts(info.terms, ticks);
  }

  lemma HandleAlone(w: World, p: nat)
    requires p in w.procs && w.procs[p].HandlerRead? && w.procs[p].tid in w.rows
    requires w.rows[w.procs[p].tid].terms.entry > 0.0
    ensures var h, v := w.procs[p], Apply(Apply(w, HandlerFetch(p)), HandlerWrite(p));
            && p in v.procs && v.procs[p] == HandlerDone(h.tid)
            && (!IsRunning(w.rows, h.tid) ==> v.rows == w.rows && v == Apply(w, HandlerFetch(p)))
            && (IsRunning(w.rows, h.tid) ==>
                  && h.tid in v.rows && v.rows[h.tid].status == Closed && v.rows[h.tid].exitPrice == Some(h.event.price)
                  && forall id | id in w.rows && id != h.tid :: id in v.rows && v.rows[id] == w.rows[id])
  {
    hide ComputePnl, Reason;
    var h, read := w.procs[p], Apply(w, HandlerFetch(p));
    if IsRunning(w.rows, h.tid) {
      assert read.rows == w.rows;
      assert read.procs[p] == HandlerWriting(h.tid, h.wid, h.event, ComputePnl(w.rows[h.tid].terms, h.event.price));
    }
  }

  /** A watch that ends on a running trade closes it through its callback; on a settled one it writes nothing. */
  lemma CallbackAlone(w: World, wid: nat, p: nat, ticks: seq<W.Tick>)
    requires Inv(w) && wid in w.watches && w.watches[wid].live && p !in w.procs && Decides(w.watches[wid], ticks)
    ensures var info := w.watches[wid]; var tid := info.tradeId;
            var read := Apply(Apply(w, Fire(wid, p, ticks)), HandlerFetch(p)); var v := Apply(read, HandlerWrite(p));
            && tid in w.rows && p in v.procs && v.procs[p] == HandlerDone(tid)
            && (!IsRunning(w.rows, tid) ==> v.rows == w.rows && v == read)
            && (IsRunning(w.rows, tid) ==>
                  && tid in v.rows && v.rows[tid].status == Closed
                  && v.rows[tid].exitPrice == W.Follow(info.terms, ticks, |ticks|).currentPrice
                  && forall id | id in w.rows && id != tid :: id in v.rows && v.rows[id] == w.rows[id])
  {
    hide Apply, Inv, Decides, W.Follow;
    FireAlone(w, wid, p, ticks);
    HandleAlone(Apply(w, Fire(wid, p, ticks)), p);
  }

  /**
   One round of a resume: the first listed row still to do gets a live watch and counts, or, when its
   symbol does not resolve or the watch rejects its duration, is abandoned with the cause if it is running.
   */
  lemma ResumeRound(w: World, p: nat, wid: nat, nowMs: int, resolves: bool, cause: string)
    requires p in w.procs && w.procs[p].Resuming? && w.procs[p].sweep.todo != [] && wid !in w.watches
    requires w.procs[p].sweep.todo[0] in w.rows
    ensures var s := w.procs[p].sweep; var tid, rest := s.todo[0], s.todo[1..];
            var v := Apply(Apply(w, ResumeStart(p, wid, nowMs, resolves, cause)), ResumeWrite(p));
            var row := w.rows[tid];
            && p in v.procs
            && if resolves && 60 <= row.terms.maxDurationSec <= 86_400 then
                 && v.procs[p] == Resuming(Sweep(s.listed, rest, s.kept + [tid], s.resumed + 1))
                 && v.rows == w.rows[tid := row.(watchId := Some(wid))]
                 && wid in v.watches && v.watches[wid].live && v.watches[wid].tradeId == tid
               else
                 && v.procs[p] == Resuming(Sweep(s.listed, rest, s.kept, s.resumed)) && v.watches == w.watches
                 && v.rows == if !row.status.Running? then w.rows
                              else w.rows[tid := row.(status := Abandoned, reason := Some("resume_failed: " + cause))]
  {
    var s := w.procs[p].sweep;
    var tid := s.todo[0];
    var started := Apply(w, ResumeStart(p, wid, nowMs, resolves, cause));
    if resolves && DurationAccepted(w.rows[tid].terms) {
      assert started.rows == w.rows && started.procs[p] == ResumeRecord(tid, wid, s.(todo := s.todo[1..]));
    } else {
      assert started == w.(procs := w.procs[p := ResumeAbandon(tid, s.(todo := s.todo[1..]), cause)]);
    }
  }

  /** A resume starts from exactly the rows that are running, each once and newest first. */
  lemma ResumeLists(w: World, p: nat, ids: seq<nat>)
    requires p !in w.procs && IsOpenListing(w.rows, ids)
    ensures var v := Apply(w, ResumeList(p, ids));
            v.rows == w.rows && v.watches == w.watches && v.procs == w.procs[p := Resuming(Sweep(ids, ids, [], 0))]
  {
    hide IsOpenListing;
  }

  /** A watch that ends without a verdict is over, and a killed callback is cut; rows and other tasks stay. */
  lemma WatchStops(w: World, wid: nat, p: nat)
    requires wid in w.watches && p in w.procs && IsCallback(w.procs[p])
    ensures var v := Apply(w, WatchEnds(wid));
            v.rows == w.rows && v.procs == w.procs && v.watches == w.watches[wid := w.watches[wid].(live := false)]
    ensures Apply(w, HandlerKilled(p)) == w.(procs := w.procs[p := HandlerCut(w.procs[p].tid)])
  {}
}
