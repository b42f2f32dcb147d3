/**
 The condition variable of a watch: tick loop, any number of cancellers and of long-poll waiters.

 Each action is the code one task runs between two suspension points.  A waiter evaluates its
 predicate under the lock and goes to sleep in the same step; the loop changes the shared state
 without the lock and only then asks to notify.
 */
module WakeUp {
  import opened Base
  import opened Watch

  /** Where the tick loop is suspended. */
  datatype LoopPc =
    | Created                                     // the task has not run yet
    | Streaming                                   // waiting for the next tick
    | Notifying(terminal: Option<WatchEvent>)     // wants the lock to notify after a tick
    | InCallback                                  // running the terminal callback
    | CancelNotifying                             // cancelled, wants the lock to notify
    | ErrorNotifying                              // failed, wants the lock to notify
    | LoopDone

  /** Where a canceller is: awaiting the cancelled task, wants to notify, finished. */
  datatype StopPc = AwaitingTask | StopNotifying | StopDone

  datatype WaiterPc =
    | Entered       // before the unlocked first look
    | Acquiring     // wants the lock for the first time
    | Checking      // holds the lock, about to evaluate the predicate
    | Asleep        // on the condition, lock released
    | Woken         // notified, wants the lock again
    | OutOfTime     // out of time, wants the lock once more
    | Leaving       // holds the lock after a timeout, about to give it back
    | ReturnedReady
    | ReturnedTimeout

  datatype Waiter = Waiter(since: nat, pc: WaiterPc)

  /** `asked`: a cancellation was requested and has not reached the loop; requests made meanwhile merge with it. */
  datatype Sys = Sys(
    shared: View,
    loop: LoopPc,
    asked: bool,
    stoppers: map<nat, StopPc>,
    waiters: map<nat, Waiter>,
    lock: Option<nat>
  )

  datatype Action =
    | Begin
    | Deliver(tick: Tick)
    | StreamEnds
    | StreamFails
    | LoopNotify
    | CallbackReturns
    | Stop(k: nat)
    | CancelLands
    | TaskAwaited(k: nat)
    | StopNotify(k: nat)
    | Enter(id: nat, since: nat)
    | FirstLook(id: nat)
    | Acquire(id: nat)
    | Check(id: nat)
    | TimeOut(id: nat)
    | Leave(id: nat)

  const START: Sys := Sys(FRESH, Created, false, map[], map[], None)

  /** New events beyond the cursor, or the watch is no longer running. */
  predicate Ready(v: View, since: nat) {
    |v.events| > since || !v.status.Running?
  }

  function WakeAll(waiters: map<nat, Waiter>): map<nat, Waiter> {
    map id | id in waiters :: if waiters[id].pc.Asleep? then waiters[id].(pc := Woken) else waiters[id]
  }

  function Move(s: Sys, id: nat, pc: WaiterPc): Sys
    requires id in s.waiters
  {
    s.(waiters := s.waiters[id := s.waiters[id].(pc := pc)])
  }

  function MarkCancelled(v: View): View {
    if v.status.Running? then v.(status := Cancelled) else v
  }

  function LastTerminal(events: seq<WatchEvent>): Option<WatchEvent> {
    if events != [] && events[|events| - 1].kind.Terminal() then Some(events[|events| - 1]) else None
  }

  function LoopWants(pc: LoopPc): bool {
    pc.Notifying? || pc.CancelNotifying? || pc.ErrorNotifying?
  }

  /** Where the loop goes once it has notified. */
  function AfterNotify(pc: LoopPc, hasHandler: bool): LoopPc {
    if pc.Notifying? then (if pc.terminal.None? then Streaming else if hasHandler then InCallback else LoopDone)
    else LoopDone
  }

  /** The effect of an action; an action that is not enabled changes nothing. */
  function Apply(t: WatchTerms, hasHandler: bool, s: Sys, a: Action): Sys
    requires t.entry > 0.0
  {
    match a
    case Begin => if s.loop.Created? then s.(loop := Streaming) else s
    case Deliver(tick) =>
      if !s.loop.Streaming? then s
      else
        var detected := Detect(t, s.shared.fired, tick);
        s.(shared := OnTick(t, s.shared, tick),
           loop := if detected == [] then Streaming else Notifying(LastTerminal(detected)))
    case StreamEnds => if s.loop.Streaming? then s.(loop := LoopDone) else s
    case StreamFails =>
      if s.loop.Streaming? then s.(loop := ErrorNotifying, shared := s.shared.(status := Error)) else s
    case LoopNotify =>
      if LoopWants(s.loop) && s.lock.None? then
        s.(waiters := WakeAll(s.waiters), loop := AfterNotify(s.loop, hasHandler))
      else s
    case CallbackReturns => if s.loop.InCallback? then s.(loop := LoopDone) else s
    case Stop(k) =>
      if k in s.stoppers then s
      else if s.loop.LoopDone? then s.(stoppers := s.stoppers[k := StopNotifying], shared := MarkCancelled(s.shared))
      else s.(stoppers := s.stoppers[k := AwaitingTask], asked := true)
    case CancelLands =>
      if !s.asked then s
      else if s.loop.Streaming? || s.loop.Notifying? || s.loop.InCallback? then
        s.(asked := false, loop := CancelNotifying, shared := MarkCancelled(s.shared))
      else s.(asked := false, loop := LoopDone)  // a loop that has not begun, or has failed, dies before it notifies
    case TaskAwaited(k) =>
      if k in s.stoppers && s.stoppers[k].AwaitingTask? && s.loop.LoopDone? then
        s.(stoppers := s.stoppers[k := StopNotifying], shared := MarkCancelled(s.shared))
      else s
    case StopNotify(k) =>
      if k in s.stoppers && s.stoppers[k].StopNotifying? && s.lock.None? then
        s.(waiters := WakeAll(s.waiters), stoppers := s.stoppers[k := StopDone])
      else s
    case Enter(id, since) => if id in s.waiters then s else s.(waiters := s.waiters[id := Waiter(since, Entered)])
    case FirstLook(id) =>
      if id !in s.waiters || !s.waiters[id].pc.Entered? then s
      else Move(s, id, if Ready(s.shared, s.waiters[id].since) then ReturnedReady else Acquiring)
    case Acquire(id) =>
      if id !in s.waiters || s.lock.Some? then s
      else if s.waiters[id].pc.Acquiring? || s.waiters[id].pc.Woken? then Move(s, id, Checking).(lock := Some(id))
      else if s.waiters[id].pc.OutOfTime? then Move(s, id, Leaving).(lock := Some(id))
      else s
    case Check(id) =>
      if id in s.waiters && s.waiters[id].pc.Checking? && s.lock == Some(id) then
        Move(s, id, if Ready(s.shared, s.waiters[id].since) then ReturnedReady else Asleep).(lock := None)
      else s
    case TimeOut(id) =>
      if id in s.waiters && (s.waiters[id].pc.Asleep? || s.waiters[id].pc.Woken?) then Move(s, id, OutOfTime) else s
    case Leave(id) =>
      if id in s.waiters && s.waiters[id].pc.Leaving? && s.lock == Some(id) then
        Move(s, id, ReturnedTimeout).(lock := None)
      else s
  }

  function Execute(t: WatchTerms, hasHandler: bool, s: Sys, acts: seq<Action>): Sys
    requires t.entry > 0.0
  {
    if acts == [] then s
    else Apply(t, hasHandler, Execute(t, hasHandler, s, acts[..|acts| - 1]), acts[|acts| - 1])
  }

  // ----- the invariant ---------------------------------------------------------------------

  /** Somebody is still going to notify. */
  ghost predicate NotifyOwed(s: Sys) {
    LoopWants(s.loop) || exists k :: Owes(s.stoppers, k)
  }

  ghost predicate SomeoneAwaits(stoppers: map<nat, StopPc>) {
    exists k | k in stoppers :: stoppers[k].AwaitingTask?
  }

  /** A request that has not landed has a canceller behind it, and one that has landed ends the loop. */
  ghost predicate StopsOk(s: Sys) {
    && (s.asked && !s.loop.LoopDone? ==> SomeoneAwaits(s.stoppers))
    && (SomeoneAwaits(s.stoppers) && !s.asked ==> s.loop.CancelNotifying? || s.loop.LoopDone?)
  }

  /** No lost wake-up: a sleeper whose predicate holds is still owed a notification. */
  ghost predicate NoLostWakeUp(s: Sys) {
    forall id | id in s.waiters && s.waiters[id].pc.Asleep? :: Ready(s.shared, s.waiters[id].since) ==> NotifyOwed(s)
  }

  /** Nobody returns as ready unless its predicate holds, then and ever after. */
  ghost predicate ReadyMeansReady(s: Sys) {
    forall id | id in s.waiters && s.waiters[id].pc.ReturnedReady? :: Ready(s.shared, s.waiters[id].since)
  }

  predicate Holds(pc: WaiterPc) {
    pc.Checking? || pc.Leaving?
  }

  /** The lock is held by exactly the waiter that is checking or leaving. */
  ghost predicate LockHeld(s: Sys) {
    && (s.lock.Some? ==> s.lock.value in s.waiters && Holds(s.waiters[s.lock.value].pc))
    && (forall id | id in s.waiters && Holds(s.waiters[id].pc) :: s.lock == Some(id))
  }

  /** A loop that reads or will read further ticks belongs to a running watch. */
  ghost predicate LoopRuns(s: Sys) {
    && (s.loop.Created? || s.loop.Streaming? || s.loop == Notifying(None) ==> s.shared.status.Running?)
    && (s.shared.status.Running? ==> LogInv(s.shared))
  }

  /** Once some canceller has got past the task, the watch is no longer running. */
  ghost predicate StoppedIsOver(s: Sys) {
    forall k | k in s.stoppers && !s.stoppers[k].AwaitingTask? :: !s.shared.status.Running?
  }

  ghost predicate Inv(s: Sys) {
    NoLostWakeUp(s) && ReadyMeansReady(s) && LockHeld(s) && LoopRuns(s) && StopsOk(s) && StoppedIsOver(s)
  }

  /** The shared state only moves toward readiness. */
  ghost predicate Forward(v: View, w: View) {
    |v.events| <= |w.events| && (!v.status.Running? ==> !w.status.Running?)
  }

  lemma QuietTick(t: WatchTerms, v: View, tick: Tick)
    requires t.entry > 0.0 && v.status.Running? && LogInv(v)
    ensures var w := OnTick(t, v, tick);
            && Forward(v, w)
            && (w.status.Running? ==> LogInv(w))
            && (Detect(t, v.fired, tick) == [] ==> w.events == v.events && w.status.Running?)
            && (LastTerminal(Detect(t, v.fired, tick)).None? ==> w.status.Running?)
  {
    hide OnTick, LogInv, Detect, TerminalKind;
    TickKeepsLog(t, v, tick);
    TickOutcome(t, v, tick);
    DetectShape(t, v.fired, tick);
  }

  predicate IsNotify(a: Action) {
    a.LoopNotify? || a.StopNotify?
  }

  predicate IsWaiter(a: Action) {
    a.Enter? || a.FirstLook? || a.Acquire? || a.Check? || a.TimeOut? || a.Leave?
  }

  predicate Owes(stoppers: map<nat, StopPc>, k: nat) {
    k in stoppers && !stoppers[k].StopDone?
  }

  lemma PutStopper(stoppers: map<nat, StopPc>, k: nat, pc: StopPc)
    ensures forall j | j != k && Owes(stoppers, j) :: Owes(stoppers[k := pc], j)
    ensures Owes(stoppers[k := pc], k) <==> !pc.StopDone?
    ensures pc.AwaitingTask? ==> SomeoneAwaits(stoppers[k := pc])
    ensures !pc.AwaitingTask? && (k in stoppers ==> !stoppers[k].AwaitingTask?) ==>
            (SomeoneAwaits(stoppers[k := pc]) <==> SomeoneAwaits(stoppers))
  {
    var after := stoppers[k := pc];
    if pc.AwaitingTask? { assert after[k].AwaitingTask?; }
    if !pc.AwaitingTask? && (k in stoppers ==> !stoppers[k].AwaitingTask?) {
      if SomeoneAwaits(stoppers) {
        var j :| j in stoppers && stoppers[j].AwaitingTask?;
        assert after[j].AwaitingTask?;
      }
      if SomeoneAwaits(after) {
        var j :| j in after && after[j].AwaitingTask?;
        assert stoppers[j].AwaitingTask?;
      }
    }
  }

  lemma Awaiting(s: Sys)
    requires SomeoneAwaits(s.stoppers)
    ensures exists k :: Owes(s.stoppers, k)
  {
    var k :| k in s.stoppers && s.stoppers[k].AwaitingTask?;
    assert Owes(s.stoppers, k);
  }

  /** Loop and canceller steps: they change the shared state, and owe a notification when it matters. */
  lemma SharedStep(t: WatchTerms, hasHandler: bool, s: Sys, a: Action)
    requires t.entry > 0.0 && Inv(s)
    requires !IsNotify(a) && !IsWaiter(a)
    ensures Inv(Apply(t, hasHandler, s, a))
  {
    hide OnTick, LogInv, Detect, TerminalKind, SomeoneAwaits;
    if a.Deliver? && s.loop.Streaming? { QuietTick(t, s.shared, a.tick); }
    if a.Stop? { PutStopper(s.stoppers, a.k, AwaitingTask); PutStopper(s.stoppers, a.k, StopNotifying); }
    if a.TaskAwaited? { PutStopper(s.stoppers, a.k, StopNotifying); }
    if a.CancelLands? && SomeoneAwaits(s.stoppers) { Awaiting(s); }
  }

  /** A notification wakes every sleeper, so nothing is owed to anyone. */
  lemma NotifyStep(t: WatchTerms, hasHandler: bool, s: Sys, a: Action)
    requires t.entry > 0.0 && Inv(s) && IsNotify(a)
    ensures Inv(Apply(t, hasHandler, s, a))
  {
    hide OnTick, LogInv, Ready, SomeoneAwaits;
    if a.StopNotify? { PutStopper(s.stoppers, a.k, StopDone); }
  }

  /** One waiter moves on, taking, keeping or releasing the lock as its new place demands. */
  lemma MoveKeeps(s: Sys, id: nat, pc: WaiterPc, lock: Option<nat>)
    requires Inv(s) && id in s.waiters
    requires pc.Asleep? ==> !Ready(s.shared, s.waiters[id].since)
    requires pc.ReturnedReady? ==> Ready(s.shared, s.waiters[id].since)
    requires if Holds(pc) then s.lock.None? && lock == Some(id)
             else lock == if Holds(s.waiters[id].pc) then None else s.lock
    ensures Inv(Move(s, id, pc).(lock := lock))
  {
    hide LogInv, Ready;
  }

  /** Waiter steps leave the shared state alone. */
  lemma WaiterStep(t: WatchTerms, hasHandler: bool, s: Sys, a: Action)
    requires t.entry > 0.0 && Inv(s) && IsWaiter(a)
    ensures Inv(Apply(t, hasHandler, s, a))
  {
    if a.Enter? {
      if a.id !in s.waiters { EnterKeeps(s, a.id, a.since); }
    } else if Apply(t, hasHandler, s, a) != s {
      hide Inv, Ready;
      var next := Apply(t, hasHandler, s, a);
      assert next == Move(s, a.id, next.waiters[a.id].pc).(lock := next.lock);
      MoveKeeps(s, a.id, next.waiters[a.id].pc, next.lock);
    }
  }

  lemma EnterKeeps(s: Sys, id: nat, since: nat)
    requires Inv(s) && id !in s.waiters
    ensures Inv(s.(waiters := s.waiters[id := Waiter(since, Entered)]))
  {
    hide LogInv, Ready;
  }

  /** In every reachable state of every schedule the invariant holds. */
  lemma {:induction false} AlwaysInv(t: WatchTerms, hasHandler: bool, acts: seq<Action>)
    requires t.entry > 0.0
    ensures Inv(Execute(t, hasHandler, START, acts))
  {
    hide Apply, Inv;
    if acts == [] {
      assert Inv(START) by { StartInv(); }
    } else {
      AlwaysInv(t, hasHandler, acts[..|acts| - 1]);
      var s, a := Execute(t, hasHandler, START, acts[..|acts| - 1]), acts[|acts| - 1];
      if IsNotify(a) {
        NotifyStep(t, hasHandler, s, a);
      } else if IsWaiter(a) {
        WaiterStep(t, hasHandler, s, a);
      } else {
        SharedStep(t, hasHandler, s, a);
      }
    }
  }

  lemma StartInv()
    ensures Inv(START)
  {}

  // ----- a debt can always be paid ---------------------------------------------------------

  lemma ExecuteTwo(t: WatchTerms, hasHandler: bool, s: Sys, a: seq<Action>, b: Action)
    requires t.entry > 0.0
    ensures Execute(t, hasHandler, s, a + [b]) == Apply(t, hasHandler, Execute(t, hasHandler, s, a), b)
  {}

  /**
   From any reachable state, a sleeper whose predicate holds has a schedule of at most six steps
   that makes it return as ready: nobody is stranded.
   */
  lemma ReadySleeperCanReturn(t: WatchTerms, hasHandler: bool, s: Sys, id: nat) returns (acts: seq<Action>)
    requires t.entry > 0.0 && Inv(s) && id in s.waiters && s.waiters[id].pc.Asleep?
             && Ready(s.shared, s.waiters[id].since)
    ensures |acts| <= 6
    ensures var e := Execute(t, hasHandler, s, acts); id in e.waiters && e.waiters[id].pc.ReturnedReady?
  {
    hide OnTick, Detect, LogInv, Ready, NotifyOwed, AfterNotify;
    var unlock: seq<Action> := if s.lock.Some? then [Unlock(s)] else [];
    var u := Execute(t, hasHandler, s, unlock);
    assert u.lock.None? && u.shared == s.shared && u.waiters[id] == s.waiters[id] && NotifyOwed(u) && StopsOk(u) by {
      if s.lock.Some? { ExecuteTwo(t, hasHandler, s, [], Unlock(s)); Unlocks(t, hasHandler, s, id); }
    }
    assert ReadySleeper(u, id);
    var pay := WakeSleeper(t, hasHandler, u, id);
    var w := Execute(t, hasHandler, u, pay);
    acts := unlock + pay + [Acquire(id)] + [Check(id)];
    ExecuteAppend(t, hasHandler, s, unlock, pay);
    ExecuteTwo(t, hasHandler, s, unlock + pay, Acquire(id));
    ExecuteTwo(t, hasHandler, s, unlock + pay + [Acquire(id)], Check(id));
    FinishWoken(t, hasHandler, w, id);
  }

  /** The step by which the holder gives the lock back. */
  function Unlock(s: Sys): Action
    requires s.lock.Some? && s.lock.value in s.waiters
  {
    if s.waiters[s.lock.value].pc.Checking? then Check(s.lock.value) else Leave(s.lock.value)
  }

  lemma Unlocks(t: WatchTerms, hasHandler: bool, s: Sys, id: nat)
    requires t.entry > 0.0 && Inv(s) && s.lock.Some? && id in s.waiters && s.waiters[id].pc.Asleep?
    requires Ready(s.shared, s.waiters[id].since)
    ensures var u := Apply(t, hasHandler, s, Unlock(s));
            && u.lock.None? && u.shared == s.shared && id in u.waiters && u.waiters[id] == s.waiters[id]
            && NotifyOwed(u) && StopsOk(u)
  {
    hide Ready, LogInv;
  }

  /** The sleeper has been woken and will find its predicate true. */
  predicate Roused(s: Sys, e: Sys, id: nat) {
    && e.lock.None? && id in s.waiters && id in e.waiters && e.waiters[id] == s.waiters[id].(pc := Woken)
    && Ready(e.shared, e.waiters[id].since)
  }

  predicate ReadySleeper(s: Sys, id: nat) {
    s.lock.None? && id in s.waiters && s.waiters[id].pc.Asleep? && Ready(s.shared, s.waiters[id].since)
  }

  /** A canceller whose task has ended gets to notify. */
  lemma AwaitedWakes(t: WatchTerms, hasHandler: bool, s: Sys, id: nat, k: nat)
    requires t.entry > 0.0 && ReadySleeper(s, id) && s.loop.LoopDone? && k in s.stoppers && s.stoppers[k].AwaitingTask?
    ensures Roused(s, Apply(t, hasHandler, Apply(t, hasHandler, s, TaskAwaited(k)), StopNotify(k)), id)
  {}

  /** A landing cancellation makes the loop notify, or ends one that has not begun. */
  lemma LandedWakes(t: WatchTerms, hasHandler: bool, s: Sys, id: nat)
    requires t.entry > 0.0 && ReadySleeper(s, id) && s.asked && !LoopWants(s.loop) && !s.loop.LoopDone?
    ensures var u := Apply(t, hasHandler, s, CancelLands);
            if s.loop.Created? then u == s.(asked := false, loop := LoopDone)
            else Roused(s, Apply(t, hasHandler, u, LoopNotify), id)
  {}

  lemma WakeSleeper(t: WatchTerms, hasHandler: bool, s: Sys, id: nat) returns (acts: seq<Action>)
    requires t.entry > 0.0 && StopsOk(s) && NotifyOwed(s) && ReadySleeper(s, id)
    ensures |acts| <= 3 && Roused(s, Execute(t, hasHandler, s, acts), id)
  {
    hide Apply;
    if LoopWants(s.loop) {
      acts := [LoopNotify];
      ExecuteTwo(t, hasHandler, s, [], LoopNotify);
      NotifyWakes(t, hasHandler, s, id, LoopNotify);
    } else {
      var k :| Owes(s.stoppers, k);
      assert s.stoppers[k].AwaitingTask? ==> SomeoneAwaits(s.stoppers);
      if s.stoppers[k].StopNotifying? {
        acts := [StopNotify(k)];
        ExecuteTwo(t, hasHandler, s, [], StopNotify(k));
        NotifyWakes(t, hasHandler, s, id, StopNotify(k));
      } else if s.loop.LoopDone? {
        acts := [TaskAwaited(k), StopNotify(k)];
        Twice(t, hasHandler, s, TaskAwaited(k), StopNotify(k));
        AwaitedWakes(t, hasHandler, s, id, k);
      } else {
        LandedWakes(t, hasHandler, s, id);
        if s.loop.Created? {
          var u := Apply(t, hasHandler, s, CancelLands);
          acts := [CancelLands] + [TaskAwaited(k), StopNotify(k)];
          ExecuteTwo(t, hasHandler, s, [], CancelLands);
          ExecuteAppend(t, hasHandler, s, [CancelLands], [TaskAwaited(k), StopNotify(k)]);
          Twice(t, hasHandler, u, TaskAwaited(k), StopNotify(k));
          AwaitedWakes(t, hasHandler, u, id, k);
        } else {
          acts := [CancelLands, LoopNotify];
          Twice(t, hasHandler, s, CancelLands, LoopNotify);
        }
      }
    }
  }

  lemma NotifyWakes(t: WatchTerms, hasHandler: bool, s: Sys, id: nat, a: Action)
    requires t.entry > 0.0 && ReadySleeper(s, id)
    requires if a.LoopNotify? then LoopWants(s.loop)
             else a.StopNotify? && a.k in s.stoppers && s.stoppers[a.k].StopNotifying?
    ensures Roused(s, Apply(t, hasHandler, s, a), id)
  {}

  lemma Twice(t: WatchTerms, hasHandler: bool, s: Sys, a: Action, b: Action)
    requires t.entry > 0.0
    ensures Execute(t, hasHandler, s, [a, b]) == Apply(t, hasHandler, Apply(t, hasHandler, s, a), b)
  {
    hide Apply;
    ExecuteTwo(t, hasHandler, s, [], a);
    ExecuteTwo(t, hasHandler, s, [a], b);
  }

  lemma FinishWoken(t: WatchTerms, hasHandler: bool, s: Sys, id: nat)
    requires t.entry > 0.0 && s.lock.None? && id in s.waiters && s.waiters[id].pc.Woken?
    requires Ready(s.shared, s.waiters[id].since)
    ensures var e := Apply(t, hasHandler, Apply(t, hasHandler, s, Acquire(id)), Check(id));
            id in e.waiters && e.waiters[id].pc.ReturnedReady?
  {}

  lemma {:induction false} ExecuteAppend(t: WatchTerms, hasHandler: bool, s: Sys, a: seq<Action>, b: seq<Action>)
    requires t.entry > 0.0
    ensures Execute(t, hasHandler, s, a + b) == Execute(t, hasHandler, Execute(t, hasHandler, s, a), b)
    decreases |b|
  {
    hide Apply;
    if b == [] {
      assert a + b == a;
    } else {
      var init, last := b[..|b| - 1], b[|b| - 1];
      ExecuteAppend(t, hasHandler, s, a, init);
      assert a + b == (a + init) + [last];
      ExecuteTwo(t, hasHandler, s, a + init, last);
    }
  }
}
