/** The condition variable against the watch it guards: what the shared state is, and what one task does alone. */
module WakeRuns {
  import opened Base
  import opened Watch
  import opened WakeUp

  // ----- the shared state is the watch's own run -------------------------------------------

  /** The ticks the loop has read. */
  function ReadSoFar(t: WatchTerms, hasHandler: bool, acts: seq<Action>): seq<Tick>
    requires t.entry > 0.0
  {
    if acts == [] then []
    else
      var init, a := acts[..|acts| - 1], acts[|acts| - 1];
      var before := ReadSoFar(t, hasHandler, init);
      if a.Deliver? && Execute(t, hasHandler, START, init).loop.Streaming? then before + [a.tick] else before
  }

  /** The view is that of a run, but for a status that a cancellation or a failure has set. */
  ghost predicate ViewOf(run: View, v: View) {
    && v == run.(status := v.status)
    && (v.status == run.status || (run.status.Running? && (v.status.Cancelled? || v.status.Error?)))
  }

  lemma {:induction false} FollowPrefix(t: WatchTerms, ticks: seq<Tick>, more: seq<Tick>, k: nat)
    requires t.entry > 0.0 && k <= |ticks|
    ensures Follow(t, ticks + more, k) == Follow(t, ticks, k)
  {
    hide OnTick;
    if k > 0 { FollowPrefix(t, ticks, more, k - 1); }
  }

  /** Reading one more tick on a running watch. */
  lemma FollowMore(t: WatchTerms, ticks: seq<Tick>, tick: Tick)
    requires t.entry > 0.0 && Follow(t, ticks, |ticks|).status.Running?
    ensures Follow(t, ticks + [tick], |ticks| + 1) == OnTick(t, Follow(t, ticks, |ticks|), tick)
  {
    hide OnTick;
    FollowPrefix(t, ticks, [tick], |ticks|);
  }

  lemma DeliverView(t: WatchTerms, hasHandler: bool, s: Sys, a: Action)
    requires t.entry > 0.0 && (s.loop.Streaming? ==> s.shared.status.Running?)
    ensures var v := Apply(t, hasHandler, s, a).shared;
            if a.Deliver? && s.loop.Streaming? then v == OnTick(t, s.shared, a.tick) else ViewOf(s.shared, v)
    ensures a.StreamFails? && s.loop.Streaming? ==> Apply(t, hasHandler, s, a).shared.status == Error
  {
    hide OnTick, Detect;
  }

  /** In every state of every schedule the shared view is the watch's run over the ticks its loop has read. */
  lemma {:induction false} SharedIsFollow(t: WatchTerms, hasHandler: bool, acts: seq<Action>)
    requires t.entry > 0.0
    ensures var ticks := ReadSoFar(t, hasHandler, acts);
            ViewOf(Follow(t, ticks, |ticks|), Execute(t, hasHandler, START, acts).shared)
  {
    hide OnTick, Apply, Inv, Follow;
    if acts == [] {
      assert Follow(t, [], 0) == FRESH by { NothingRead(t); }
    } else {
      var init, a := acts[..|acts| - 1], acts[|acts| - 1];
      SharedIsFollow(t, hasHandler, init);
      AlwaysInv(t, hasHandler, init);
      var s, ticks := Execute(t, hasHandler, START, init), ReadSoFar(t, hasHandler, init);
      if s.loop.Streaming? { StreamingRuns(s); }
      DeliverView(t, hasHandler, s, a);
      if a.Deliver? && s.loop.Streaming? {
        assert s.shared == Follow(t, ticks, |ticks|);
        FollowMore(t, ticks, a.tick);
      }
    }
  }

  lemma NothingRead(t: WatchTerms)
    requires t.entry > 0.0
    ensures Follow(t, [], 0) == FRESH
  {}

  lemma StreamingRuns(s: Sys)
    requires Inv(s) && s.loop.Streaming?
    ensures s.shared.status.Running?
  {}

  // ----- one task alone --------------------------------------------------------------------

  /** The system with one waiter at this point of its code. */
  function With(s: Sys, id: nat, since: nat, pc: WaiterPc): Sys {
    s.(waiters := s.waiters[id := Waiter(since, pc)])
  }

  lemma FirstLookAlone(t: WatchTerms, hasHandler: bool, s: Sys, id: nat, since: nat)
    requires t.entry > 0.0 && id !in s.waiters
    ensures var ready := |s.shared.events| > since || s.shared.status != Running;
            Apply(t, hasHandler, Apply(t, hasHandler, s, Enter(id, since)), FirstLook(id)) ==
            With(s, id, since, if ready then ReturnedReady else Acquiring)
  {
    hide OnTick, Detect, WakeAll;
    assert Apply(t, hasHandler, s, Enter(id, since)) == With(s, id, since, Entered);
  }

  lemma SecondLookAlone(t: WatchTerms, hasHandler: bool, s: Sys, id: nat, since: nat)
    requires t.entry > 0.0 && s.lock.None?
    ensures var ready := |s.shared.events| > since || s.shared.status != Running;
            Apply(t, hasHandler, Apply(t, hasHandler, With(s, id, since, Acquiring), Acquire(id)), Check(id)) ==
            With(s, id, since, if ready then ReturnedReady else Asleep)
  {
    hide OnTick, Detect, WakeAll;
    assert Apply(t, hasHandler, With(s, id, since, Acquiring), Acquire(id)) ==
           With(s, id, since, Checking).(lock := Some(id));
  }

  lemma ReturnedStays(t: WatchTerms, hasHandler: bool, s: Sys, id: nat, since: nat)
    requires t.entry > 0.0
    ensures var v := With(s, id, since, ReturnedReady);
            Apply(t, hasHandler, Apply(t, hasHandler, v, Acquire(id)), Check(id)) == v
  {
    hide OnTick, Detect, WakeAll;
  }

  /**
   A waiter returns at once when there is news; otherwise it takes the lock, looks again and sleeps, the
   lock released.
   */
  lemma WaitAlone(t: WatchTerms, hasHandler: bool, s: Sys, id: nat, since: nat)
    requires t.entry > 0.0 && s.lock.None? && id !in s.waiters
    ensures var ready := |s.shared.events| > since || s.shared.status != Running;
            var seen := Apply(t, hasHandler, Apply(t, hasHandler, s, Enter(id, since)), FirstLook(id));
            Apply(t, hasHandler, Apply(t, hasHandler, seen, Acquire(id)), Check(id)) ==
            With(s, id, since, if ready then ReturnedReady else Asleep)
  {
    hide Apply, With;
    FirstLookAlone(t, hasHandler, s, id, since);
    SecondLookAlone(t, hasHandler, s, id, since);
    ReturnedStays(t, hasHandler, s, id, since);
  }

  /** A sleeper that times out takes the lock once more and leaves. */
  lemma TimeoutAlone(t: WatchTerms, hasHandler: bool, s: Sys, id: nat)
    requires t.entry > 0.0 && s.lock.None? && id in s.waiters && s.waiters[id].pc.Asleep?
    ensures var out := Apply(t, hasHandler, Apply(t, hasHandler, s, TimeOut(id)), Acquire(id));
            Apply(t, hasHandler, out, Leave(id)) ==
                s.(waiters := s.waiters[id := Waiter(s.waiters[id].since, ReturnedTimeout)])
  {}

  ghost predicate EveryoneWoken(s: Sys, v: Sys) {
    && v.waiters.Keys == s.waiters.Keys
    && forall id | id in s.waiters ::
         v.waiters[id] == if s.waiters[id].pc.Asleep? then Waiter(s.waiters[id].since, Woken) else s.waiters[id]
  }

  /** A stop of a streaming watch: it is cancelled, every sleeper is woken, and the stop returns. */
  lemma StopAlone(t: WatchTerms, hasHandler: bool, s: Sys, k: nat)
    requires t.entry > 0.0 && s.lock.None? && s.loop.Streaming? && k !in s.stoppers && s.shared.status.Running?
    ensures var landed := Apply(t, hasHandler, Apply(t, hasHandler, s, Stop(k)), CancelLands);
            var ended := Apply(t, hasHandler, landed, LoopNotify);
            var v := Apply(t, hasHandler, Apply(t, hasHandler, ended, TaskAwaited(k)), StopNotify(k));
            && v.loop.LoopDone? && k in v.stoppers && v.stoppers[k].StopDone?
            && v.shared == s.shared.(status := Cancelled)
            && EveryoneWoken(s, v)
  {
    hide OnTick, Detect;
    var asked := Apply(t, hasHandler, s, Stop(k));
    var landed := Apply(t, hasHandler, asked, CancelLands);
    assert landed.loop.CancelNotifying? && landed.shared == s.shared.(status := Cancelled)
        && landed.waiters == s.waiters;
    var ended := Apply(t, hasHandler, landed, LoopNotify);
    assert ended.loop.LoopDone? && ended.waiters == WakeAll(s.waiters);
  }

  /** A tick that ends the watch: everyone is woken, the callback runs if there is one, and the loop is over. */
  lemma TerminalAlone(t: WatchTerms, hasHandler: bool, s: Sys, tick: Tick)
    requires t.entry > 0.0 && s.lock.None? && s.loop.Streaming? && TerminalKind(t, tick).Some?
    ensures var told := Apply(t, hasHandler, Apply(t, hasHandler, s, Deliver(tick)), LoopNotify);
            && told.shared == OnTick(t, s.shared, tick) && EveryoneWoken(s, told)
            && (if hasHandler then told.loop.InCallback? else told.loop.LoopDone?)
            && Apply(t, hasHandler, told, CallbackReturns) == told.(loop := LoopDone)
  {
    hide OnTick, Detect, TerminalKind;
    DetectShape(t, s.shared.fired, tick);
    var delivered := Apply(t, hasHandler, s, Deliver(tick));
    assert delivered == s.(shared := OnTick(t, s.shared, tick),
        loop := Notifying(LastTerminal(Detect(t, s.shared.fired, tick))));
  }

  /** A quiet tick: everyone is woken when it logged something, and the loop goes on. */
  lemma QuietAlone(t: WatchTerms, hasHandler: bool, s: Sys, tick: Tick)
    requires t.entry > 0.0 && s.lock.None? && s.loop.Streaming? && TerminalKind(t, tick).None?
    ensures var told := Apply(t, hasHandler, Apply(t, hasHandler, s, Deliver(tick)), LoopNotify);
            && told.shared == OnTick(t, s.shared, tick) && told.loop.Streaming?
            && if Detect(t, s.shared.fired, tick) == [] then told.waiters == s.waiters else EveryoneWoken(s, told)
  {
    hide OnTick, Detect, TerminalKind;
    DetectShape(t, s.shared.fired, tick);
  }

  /** A stream that fails: the status says so, everyone is woken and the loop is over. */
  lemma FailAlone(t: WatchTerms, hasHandler: bool, s: Sys)
    requires t.entry > 0.0 && s.lock.None? && s.loop.Streaming?
    ensures var told := Apply(t, hasHandler, Apply(t, hasHandler, s, StreamFails), LoopNotify);
            told.loop.LoopDone? && told.shared == s.shared.(status := Error) && EveryoneWoken(s, told)
  {
    hide OnTick, Detect;
  }

  /** A stream that just ends: the loop is over, and nobody is told; the status stays what it was. */
  lemma EndAlone(t: WatchTerms, hasHandler: bool, s: Sys)
    requires t.entry > 0.0 && s.loop.Streaming?
    ensures Apply(t, hasHandler, s, StreamEnds) == s.(loop := LoopDone)
    ensures Apply(t, hasHandler, s.(loop := Created), Begin) == s
  {
    hide OnTick, Detect;
  }
}
