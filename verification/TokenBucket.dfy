/**
 The token bucket: when an acquire is granted, and how many can be granted in any stretch of time.

 A run is the sequence of clock readings the acquire loops take; the lock serialises the loops, so
 readings of different acquires never interleave within one loop.  Time is real-valued.
 */
module TokenBucket {
  import opened Base

  datatype LimitError = BadRate | BadCapacity

  datatype Limits = Limits(rate: real, capacity: int)

  predicate LimitsValid(l: Limits) {
    l.rate > 0.0 && l.capacity > 0
  }

  function NewLimits(rate: real, capacity: int): (r: Result<Limits, LimitError>)
    ensures r.Ok? <==> rate > 0.0 && capacity > 0
    ensures r.Ok? ==> LimitsValid(r.value)
  {
    if rate <= 0.0 then Err(BadRate)
    else if capacity <= 0 then Err(BadCapacity)
    else Ok(Limits(rate, capacity))
  }

  datatype Level = Level(tokens: real, updatedAt: real)

  /** Tokens added in a stretch of time. */
  function Earned(l: Limits, dt: real): real {
    dt * l.rate
  }

  function Refill(l: Limits, b: Level, now: real): Level {
    Level(Min(l.capacity as real, b.tokens + Earned(l, now - b.updatedAt)), now)
  }

  predicate Grants(l: Limits, b: Level, now: real) {
    Refill(l, b, now).tokens >= 1.0
  }

  /** One turn of the acquire loop. */
  function Attempt(l: Limits, b: Level, now: real): Level {
    var full := Refill(l, b, now);
    if Grants(l, b, now) then full.(tokens := full.tokens - 1.0) else full
  }

  /** A turn adds what the time since the last one earned, up to the capacity, and takes one token if it can. */
  lemma AttemptExact(l: Limits, b: Level, now: real, dt: real, earned: real)
    requires dt == now - b.updatedAt && earned == dt * l.rate
    ensures var full := l.capacity as real;
            var filled := if b.tokens + earned < full then b.tokens + earned else full;
            && (Grants(l, b, now) <==> filled >= 1.0)
            && Attempt(l, b, now) == Level(if filled >= 1.0 then filled - 1.0 else filled, now)
  {
    assert Earned(l, dt) == earned;
    hide Earned;
  }

  function SleepFor(l: Limits, b: Level): real
    requires l.rate > 0.0
  {
    (1.0 - b.tokens) / l.rate
  }

  /** The level after the first k readings. */
  function After(l: Limits, b: Level, clock: seq<real>, k: nat): Level
    requires k <= |clock|
  {
    if k == 0 then b else Attempt(l, After(l, b, clock, k - 1), clock[k - 1])
  }

  predicate Granted(l: Limits, b: Level, clock: seq<real>, k: nat)
    requires k < |clock|
  {
    Grants(l, After(l, b, clock, k), clock[k])
  }

  /** How many of the readings i, ..., j - 1 were granted. */
  function Count(l: Limits, b: Level, clock: seq<real>, i: nat, j: nat): nat
    requires i <= j <= |clock|
  {
    if i == j then 0 else Count(l, b, clock, i, j - 1) + if Granted(l, b, clock, j - 1) then 1 else 0
  }

  predicate Monotonic(b: Level, clock: seq<real>) {
    && (forall i | 0 <= i < |clock| :: b.updatedAt <= clock[i])
    && (forall i, j | 0 <= i <= j < |clock| :: clock[i] <= clock[j])
  }

  predicate InRange(l: Limits, b: Level) {
    0.0 <= b.tokens <= l.capacity as real
  }

  class Bucket {
    const limits: Limits
    var tokens: real
    var updatedAt: real

    function State(): Level
      reads this
    {
      Level(tokens, updatedAt)
    }

    constructor (limits: Limits, now: real)
      requires LimitsValid(limits)
      ensures this.limits == limits && State() == Level(limits.capacity as real, now)
    {
      this.limits := limits;
      tokens := limits.capacity as real;
      updatedAt := now;
    }

    /** The acquire loop against the readings it takes; `granted` is false when the readings run out first. */
    method Acquire(clock: seq<real>) returns (granted: bool, used: nat)
      requires LimitsValid(limits)
      modifies this
      ensures used <= |clock| && State() == After(limits, old(State()), clock, used)
      ensures forall k | 0 <= k < used :: Granted(limits, old(State()), clock, k) <==> granted && k == used - 1
      ensures if granted then used > 0 && Completed(limits, old(State()), clock[..used]) else used == |clock|
      ensures |clock| > 1 && clock[1] >= clock[0] + SleepFor(limits, After(limits, old(State()), clock, 1))
              && clock[1] >= clock[0] ==>
                granted && used <= 2
    {
      ghost var start := State();
      used := 0;
      while used < |clock|
        invariant used <= |clock| && State() == After(limits, start, clock, used)
        invariant forall k | 0 <= k < used :: !Granted(limits, start, clock, k)
        invariant used > 1 && clock[1] >= clock[0] ==>
                  clock[1] < clock[0] + SleepFor(limits, After(limits, start, clock, 1))
      {
        hide SleepFor;
        granted := Turn(clock[used]);
        used := used + 1;
        if granted {
          Completes(limits, start, clock, used);
          return;
        }
        if used == 2 && clock[1] >= clock[0] { SecondRefusal(limits, start, clock); }
      }
      return false, used;
    }

    /** One turn: refill at the reading, then take a token if there is one. */
    method Turn(now: real) returns (granted: bool)
      modifies this
      ensures granted == Grants(limits, old(State()), now) && State() == Attempt(limits, old(State()), now)
    {
      ghost var before := State();
      var delta := now - updatedAt;
      assert delta * limits.rate == Earned(limits, delta);
      tokens := Min(limits.capacity as real, tokens + delta * limits.rate);
      updatedAt := now;
      hide Earned;
      assert State() == Refill(limits, before, now);
      granted := tokens >= 1.0;
      if granted { tokens := tokens - 1.0; }
    }
  }

  /** The readings of an acquire that returned: the last one is granted, and no other. */
  ghost predicate Completed(l: Limits, b: Level, clock: seq<real>) {
    clock != [] && forall k | 0 <= k < |clock| :: Granted(l, b, clock, k) <==> k == |clock| - 1
  }

  lemma Completes(l: Limits, b: Level, clock: seq<real>, used: nat)
    requires 0 < used <= |clock|
    requires forall k | 0 <= k < used :: Granted(l, b, clock, k) <==> k == used - 1
    ensures Completed(l, b, clock[..used])
  {
    hide Grants;
    var taken := clock[..used];
    assert clock == taken + clock[used..];
    forall k | 0 <= k < used ensures Granted(l, b, taken, k) == Granted(l, b, clock, k) {
      AfterPrefix(l, b, taken, clock[used..], k);
    }
  }

  lemma SecondRefusal(l: Limits, b: Level, clock: seq<real>)
    requires LimitsValid(l) && |clock| > 1 && clock[0] <= clock[1]
    requires !Granted(l, b, clock, 0) && !Granted(l, b, clock, 1)
    ensures clock[1] < clock[0] + SleepFor(l, After(l, b, clock, 1))
  {
    hide Grants, Attempt;
    assert After(l, b, clock, 0) == b;
    OneSleepIsEnough(l, b, clock[0], clock[1]);
  }

  // ----- one sleep -------------------------------------------------------------------------

  /** After a refusal the computed sleep is the shortest wait that is granted, and one such sleep suffices. */
  lemma OneSleepIsEnough(l: Limits, b: Level, now: real, later: real)
    requires LimitsValid(l) && !Grants(l, b, now) && now <= later
    ensures Grants(l, Attempt(l, b, now), later) <==> later >= now + SleepFor(l, Attempt(l, b, now))
  {}

  // ----- whole runs ------------------------------------------------------------------------

  lemma EarnedGrows(l: Limits, dt: real)
    requires LimitsValid(l) && dt >= 0.0
    ensures Earned(l, dt) >= 0.0
  {}

  lemma RefillInRange(l: Limits, b: Level, now: real)
    requires LimitsValid(l) && InRange(l, b) && b.updatedAt <= now
    ensures InRange(l, Refill(l, b, now)) && InRange(l, Attempt(l, b, now)) && Attempt(l, b, now).updatedAt == now
  {
    hide Earned;
    EarnedGrows(l, now - b.updatedAt);
  }

  lemma {:induction false} AlwaysInRange(l: Limits, b: Level, clock: seq<real>, k: nat)
    requires LimitsValid(l) && InRange(l, b) && Monotonic(b, clock) && k <= |clock|
    ensures InRange(l, After(l, b, clock, k))
    ensures After(l, b, clock, k).updatedAt == if k == 0 then b.updatedAt else clock[k - 1]
  {
    hide Attempt, Refill, InRange;
    if k > 0 {
      AlwaysInRange(l, b, clock, k - 1);
      RefillInRange(l, After(l, b, clock, k - 1), clock[k - 1]);
    }
  }

  /** What the first j readings left, refilled at reading j. */
  function Available(l: Limits, b: Level, clock: seq<real>, j: nat): real
    requires j < |clock|
  {
    Refill(l, After(l, b, clock, j), clock[j]).tokens
  }

  /** The window from reading i to reading j allows this many grants before reading j. */
  function Allowance(l: Limits, b: Level, clock: seq<real>, i: nat, j: nat): real
    requires i <= j < |clock|
  {
    l.capacity as real + Earned(l, clock[j] - clock[i]) - Count(l, b, clock, i, j) as real
  }

  /** What a reading takes from the level. */
  function Taken(l: Limits, b: Level, clock: seq<real>, j: nat): real
    requires j < |clock|
  {
    if Granted(l, b, clock, j) then 1.0 else 0.0
  }

  lemma AllowanceStep(l: Limits, b: Level, clock: seq<real>, i: nat, j: nat)
    requires i <= j && j + 1 < |clock|
    ensures Allowance(l, b, clock, i, j + 1) ==
            Allowance(l, b, clock, i, j) - Taken(l, b, clock, j) + Earned(l, clock[j + 1] - clock[j])
  {}

  lemma AvailableStep(l: Limits, b: Level, clock: seq<real>, j: nat)
    requires LimitsValid(l) && j + 1 < |clock|
    ensures Available(l, b, clock, j + 1) ==
            Min(l.capacity as real, Available(l, b, clock, j) - Taken(l, b, clock, j)
                + Earned(l, clock[j + 1] - clock[j]))
  {}

  lemma AllowanceNow(l: Limits, b: Level, clock: seq<real>, j: nat)
    requires j < |clock|
    ensures Allowance(l, b, clock, j, j) == l.capacity as real
  {}

  lemma {:induction false} AvailableWithin(l: Limits, b: Level, clock: seq<real>, i: nat, j: nat)
    requires LimitsValid(l) && i <= j < |clock|
    ensures Available(l, b, clock, j) <= Allowance(l, b, clock, i, j)
    decreases j - i
  {
    hide Allowance, Taken, Earned, After, Granted;
    if i < j {
      hide Available;
      AvailableWithin(l, b, clock, i, j - 1);
      AllowanceStep(l, b, clock, i, j - 1);
      AvailableStep(l, b, clock, j - 1);
    } else {
      AllowanceNow(l, b, clock, j);
    }
  }

  lemma FirstIsFull(l: Limits, b: Level, clock: seq<real>)
    requires LimitsValid(l) && b.tokens == l.capacity as real && Monotonic(b, clock) && 0 < |clock|
    ensures Available(l, b, clock, 0) == l.capacity as real
  {}

  /** Some window is binding: the level is the least allowance. */
  lemma {:induction false} SomeWindowBinds(l: Limits, b: Level, clock: seq<real>, j: nat) returns (i: nat)
    requires LimitsValid(l) && b.tokens == l.capacity as real && Monotonic(b, clock) && j < |clock|
    ensures i <= j && Available(l, b, clock, j) == Allowance(l, b, clock, i, j)
  {
    hide Available, Allowance, Taken, Earned, After, Granted, Monotonic;
    AllowanceNow(l, b, clock, j);
    if j == 0 {
      i := 0;
      FirstIsFull(l, b, clock);
    } else {
      i := SomeWindowBinds(l, b, clock, j - 1);
      AllowanceStep(l, b, clock, i, j - 1);
      AvailableStep(l, b, clock, j - 1);
      if Available(l, b, clock, j) == l.capacity as real {
        i := j;
      }
    }
  }

  /** No stretch of a run, whatever its readings, holds more grants than capacity plus refill. */
  lemma RateBound(l: Limits, b: Level, clock: seq<real>, i: nat, j: nat)
    requires LimitsValid(l) && InRange(l, b) && Monotonic(b, clock) && i <= j < |clock|
    ensures Count(l, b, clock, i, j + 1) as real <= l.capacity as real + Earned(l, clock[j] - clock[i])
  {
    hide Earned, After;
    AvailableWithin(l, b, clock, i, j);
    AlwaysInRange(l, b, clock, j);
    RefillInRange(l, After(l, b, clock, j), clock[j]);
  }

  /** A full bucket grants a reading exactly when no stretch ending there would exceed the bound. */
  lemma GrantExact(l: Limits, b: Level, clock: seq<real>, j: nat)
    requires LimitsValid(l) && b.tokens == l.capacity as real && Monotonic(b, clock) && j < |clock|
    ensures Granted(l, b, clock, j) <==>
            forall i | 0 <= i <= j ::
              Count(l, b, clock, i, j) as real + 1.0 <= l.capacity as real + Earned(l, clock[j] - clock[i])
  {
    hide Earned, After, Count, Refill;
    var binding := SomeWindowBinds(l, b, clock, j);
    forall i | 0 <= i <= j
      ensures Available(l, b, clock, j) <=
              l.capacity as real + Earned(l, clock[j] - clock[i]) - Count(l, b, clock, i, j) as real
    {
      AvailableWithin(l, b, clock, i, j);
    }
  }

  /** One acquire after another is one run over the joined readings. */
  lemma {:induction false} AfterJoin(l: Limits, b: Level, xs: seq<real>, ys: seq<real>, k: nat)
    requires k <= |ys|
    ensures After(l, b, xs + ys, |xs| + k) == After(l, After(l, b, xs, |xs|), ys, k)
  {
    if k == 0 {
      AfterPrefix(l, b, xs, ys, |xs|);
    } else {
      AfterJoin(l, b, xs, ys, k - 1);
      assert (xs + ys)[|xs| + k - 1] == ys[k - 1];
    }
  }

  lemma {:induction false} AfterPrefix(l: Limits, b: Level, xs: seq<real>, ys: seq<real>, k: nat)
    requires k <= |xs|
    ensures After(l, b, xs + ys, k) == After(l, b, xs, k)
  {
    if k > 0 { AfterPrefix(l, b, xs, ys, k - 1); }
  }

  // ----- many acquires on one bucket -------------------------------------------------------

  lemma GrantedJoin(l: Limits, b: Level, xs: seq<real>, ys: seq<real>, k: nat)
    requires k < |ys|
    ensures Granted(l, b, xs + ys, |xs| + k) == Granted(l, After(l, b, xs, |xs|), ys, k)
  {
    hide Grants;
    AfterJoin(l, b, xs, ys, k);
  }

  lemma {:induction false} CountPrefix(l: Limits, b: Level, xs: seq<real>, ys: seq<real>, i: nat, j: nat)
    requires i <= j <= |xs|
    ensures Count(l, b, xs + ys, i, j) == Count(l, b, xs, i, j)
  {
    hide Grants, After;
    if i < j {
      CountPrefix(l, b, xs, ys, i, j - 1);
      AfterPrefix(l, b, xs, ys, j - 1);
    }
  }

  /** Grants of a joined run are the grants of its two parts, the second starting where the first ended. */
  lemma {:induction false} CountJoin(l: Limits, b: Level, xs: seq<real>, ys: seq<real>, i: nat, k: nat)
    requires i <= |xs| && k <= |ys|
    ensures Count(l, b, xs + ys, i, |xs| + k) == Count(l, b, xs, i, |xs|) + Count(l, After(l, b, xs, |xs|), ys, 0, k)
  {
    hide Granted, After;
    if k == 0 {
      CountPrefix(l, b, xs, ys, i, |xs|);
    } else {
      CountJoin(l, b, xs, ys, i, k - 1);
      GrantedJoin(l, b, xs, ys, k - 1);
    }
  }

  /** The readings of all calls, in order. */
  function Joined(calls: seq<seq<real>>): seq<real> {
    if calls == [] then [] else Joined(calls[..|calls| - 1]) + calls[|calls| - 1]
  }

  /** The bucket after all calls. */
  function AfterCalls(l: Limits, b: Level, calls: seq<seq<real>>): Level {
    After(l, b, Joined(calls), |Joined(calls)|)
  }

  /** Acquires that returned one after another, each starting from the level the one before it left. */
  ghost predicate Served(l: Limits, b: Level, calls: seq<seq<real>>) {
    calls == [] ||
    (Served(l, b, calls[..|calls| - 1]) && Completed(l, AfterCalls(l, b, calls[..|calls| - 1]), calls[|calls| - 1]))
  }

  lemma {:induction false} OneGrant(l: Limits, b: Level, clock: seq<real>, k: nat)
    requires Completed(l, b, clock) && k <= |clock|
    ensures Count(l, b, clock, 0, k) == if k == |clock| then 1 else 0
  {
    hide Granted;
    if k > 0 { OneGrant(l, b, clock, k - 1); }
  }

  /** Joining one more call to the readings leaves the call i at its place. */
  lemma GrantPlace(calls: seq<seq<real>>, i: nat)
    requires i < |calls| - 1
    ensures calls[..i + 1] == calls[..|calls| - 1][..i + 1]
  {}

  /** From the grant of call i to the grant of the last call, every call is granted once. */
  lemma {:induction false} CallsCounted(l: Limits, b: Level, calls: seq<seq<real>>, i: nat)
    requires Served(l, b, calls) && i < |calls|
    ensures 0 < |Joined(calls[..i + 1])| <= |Joined(calls)|
    ensures Count(l, b, Joined(calls), |Joined(calls[..i + 1])| - 1, |Joined(calls)|) == |calls| - i
  {
    hide Count, After, Granted;
    var init, last := calls[..|calls| - 1], calls[|calls| - 1];
    var xs := Joined(init);
    if i == |calls| - 1 {
      assert calls[..i + 1] == calls;
      CountJoin(l, b, xs, last, |xs|, |last|);
      LastGrant(l, b, xs, last);
    } else {
      GrantPlace(calls, i);
      CallsCounted(l, b, init, i);
      CountJoin(l, b, xs, last, |Joined(init[..i + 1])| - 1, |last|);
      OneGrant(l, After(l, b, xs, |xs|), last, |last|);
    }
  }

  /** The last reading of a completed call is one grant. */
  lemma LastGrant(l: Limits, b: Level, xs: seq<real>, last: seq<real>)
    requires Completed(l, After(l, b, xs, |xs|), last)
    ensures Count(l, b, xs + last, |xs + last| - 1, |xs + last|) == 1
  {
    hide Granted, After;
    GrantedJoin(l, b, xs, last, |last| - 1);
    var n := |xs + last|;
    assert Count(l, b, xs + last, n - 1, n - 1) == 0;
  }

  /** The clock at which call i was granted. */
  function GrantTime(calls: seq<seq<real>>, i: nat): real
    requires i < |calls| && calls[i] != []
  {
    calls[i][|calls[i]| - 1]
  }

  /** The grant of call i is the last reading up to it. */
  lemma {:induction false} LastReading(l: Limits, b: Level, calls: seq<seq<real>>, i: nat)
    requires Served(l, b, calls) && i < |calls|
    ensures calls[i] != [] && 0 < |Joined(calls[..i + 1])| <= |Joined(calls)|
    ensures Joined(calls)[|Joined(calls[..i + 1])| - 1] == GrantTime(calls, i)
  {
    hide After, Granted;
    if i == |calls| - 1 {
      assert calls[..i + 1] == calls;
    } else {
      GrantPlace(calls, i);
      LastReading(l, b, calls[..|calls| - 1], i);
    }
  }

  /** The bound for a stretch of acquires that ends with the last one. */
  lemma EndingBounded(l: Limits, b: Level, calls: seq<seq<real>>, i: nat)
    requires LimitsValid(l) && InRange(l, b) && Served(l, b, calls) && i < |calls| && Monotonic(b, Joined(calls))
    ensures calls[i] != [] && calls[|calls| - 1] != []
    ensures (|calls| - i) as real <=
            l.capacity as real + Earned(l, GrantTime(calls, |calls| - 1) - GrantTime(calls, i))
  {
    hide Count, Earned, After, Granted, Monotonic, InRange, Joined, Served, GrantTime, LimitsValid;
    CallsCounted(l, b, calls, i);
    LastReading(l, b, calls, i);
    LastReading(l, b, calls, |calls| - 1);
    assert calls[..|calls| - 1 + 1] == calls;
    var clock, from := Joined(calls), |Joined(calls[..i + 1])| - 1;
    RateBound(l, b, clock, from, |clock| - 1);
  }

  lemma {:induction false} ServedPrefix(l: Limits, b: Level, calls: seq<seq<real>>, n: nat)
    requires Served(l, b, calls) && n <= |calls|
    ensures Served(l, b, calls[..n]) && Joined(calls[..n]) <= Joined(calls)
  {
    hide AfterCalls, Completed;
    if n == |calls| {
      assert calls[..n] == calls;
    } else {
      ServedPrefix(l, b, calls[..|calls| - 1], n);
      assert calls[..|calls| - 1][..n] == calls[..n];
    }
  }

  /**
   Any n consecutive acquires on one bucket, the first granted at t1 and the last at tn:
   n <= capacity + rate * (tn - t1).
   */
  lemma AcquiresBounded(l: Limits, b: Level, calls: seq<seq<real>>, i: nat, j: nat)
    requires LimitsValid(l) && InRange(l, b) && Served(l, b, calls) && i <= j < |calls| && Monotonic(b, Joined(calls))
    ensures calls[i] != [] && calls[j] != []
    ensures (j - i + 1) as real <= l.capacity as real + Earned(l, GrantTime(calls, j) - GrantTime(calls, i))
  {
    hide Earned, Served;
    ServedPrefix(l, b, calls, j + 1);
    var head := calls[..j + 1];
    MonotonicPrefix(b, Joined(head), Joined(calls));
    EndingBounded(l, b, head, i);
    assert head[i] == calls[i] && head[j] == calls[j];
  }

  lemma MonotonicPrefix(b: Level, xs: seq<real>, ys: seq<real>)
    requires xs <= ys && Monotonic(b, ys)
    ensures Monotonic(b, xs)
  {}
}
