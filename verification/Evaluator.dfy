/** Per-bar three-valued evaluation of the strategy's conditions. */
module Evaluator {
  import opened Base
  import opened Strategy
  import opened Indicators

  datatype SignalTick = SignalTick(barIndex: nat, entry: Option<bool>, exit: Option<bool>)

  predicate Readable(side: Operand, columns: Columns, i: nat) {
    side.Ref? ==> side.ref in columns && i < |columns[side.ref]|
  }

  function CurrentValue(side: Operand, columns: Columns, i: nat): Option<real>
    requires Readable(side, columns, i)
  {
    match side
    case Constant(c) => Some(c)
    case Ref(ref) => columns[ref][i]
  }

  function PreviousValue(side: Operand, columns: Columns, i: nat): Option<real>
    requires Readable(side, columns, i)
  {
    if i == 0 then (if side.Constant? then Some(side.c) else None)
    else CurrentValue(side, columns, i - 1)
  }

  function Compare(op: ComparatorOp, a: real, b: real): bool
    requires !op.Crossing()
  {
    match op
    case Gt => a > b
    case Gte => a >= b
    case Lt => a < b
    case Lte => a <= b
  }

  function EvaluateCondition(c: Condition, columns: Columns, i: nat): Option<bool>
    requires Readable(Ref(c.lhs), columns, i) && Readable(c.rhs, columns, i)
  {
    match (CurrentValue(Ref(c.lhs), columns, i), CurrentValue(c.rhs, columns, i))
    case (Some(l), Some(r)) =>
      if !c.op.Crossing() then Some(Compare(c.op, l, r)) else (
        match (PreviousValue(Ref(c.lhs), columns, i), PreviousValue(c.rhs, columns, i))
        case (Some(pl), Some(pr)) =>
          Some(if c.op.CrossesAbove? then pl <= pr && l > r else pl >= pr && l < r)
        case _ => None)
    case _ => None
  }

  function FoldAnd(signals: seq<Option<bool>>): Option<bool> {
    if None in signals then None
    else Some(forall k | 0 <= k < |signals| :: signals[k] == Some(true))
  }

  function FoldOr(signals: seq<Option<bool>>): Option<bool> {
    if None in signals then None
    else Some(exists k | 0 <= k < |signals| :: signals[k] == Some(true))
  }

  predicate AllReadable(conditions: seq<Condition>, columns: Columns, i: nat) {
    forall k | 0 <= k < |conditions| ::
      Readable(Ref(conditions[k].lhs), columns, i) && Readable(conditions[k].rhs, columns, i)
  }

  function Evaluations(conditions: seq<Condition>, columns: Columns, i: nat): seq<Option<bool>>
    requires AllReadable(conditions, columns, i)
  {
    seq(|conditions|, k requires 0 <= k < |conditions| => EvaluateCondition(conditions[k], columns, i))
  }

  function Tick(spec: StrategySpec, columns: Columns, i: nat): SignalTick
    requires AllReadable(spec.entry.conditions, columns, i) && AllReadable(spec.exit.conditions, columns, i)
  {
    SignalTick(i,
               FoldAnd(Evaluations(spec.entry.conditions, columns, i)),
               if spec.exit.conditions != [] then FoldOr(Evaluations(spec.exit.conditions, columns, i))
               else Some(false))
  }

  lemma ReferenceReadable(spec: StrategySpec, candles: seq<Candle>, i: nat)
    requires i < |candles|
    ensures AllReadable(spec.entry.conditions, ReferenceColumns(spec, candles), i)
    ensures AllReadable(spec.exit.conditions, ReferenceColumns(spec, candles), i)
  {
    forall k | 0 <= k < |spec.entry.conditions| { RefsOfMember(spec.entry.conditions, k); }
    forall k | 0 <= k < |spec.exit.conditions| { RefsOfMember(spec.exit.conditions, k); }
  }

  /** The signal of bar i, from the reference indicator values. */
  function SignalAt(spec: StrategySpec, candles: seq<Candle>, i: nat): SignalTick
    requires i < |candles|
  {
    ReferenceReadable(spec, candles, i);
    Tick(spec, ReferenceColumns(spec, candles), i)
  }

  // ----- warm-up ---------------------------------------------------------------------------

  function OperandWarmUp(side: Operand): nat {
    if side.Ref? then WarmUp(side.ref) else 0
  }

  /** Leading bars on which a condition is undecided: crossings need one more bar of history. */
  function ConditionWarmUp(c: Condition): nat {
    MaxInt(WarmUp(c.lhs), OperandWarmUp(c.rhs)) + (if c.op.Crossing() then 1 else 0)
  }

  function WarmUpOf(conditions: seq<Condition>): nat {
    if conditions == [] then 0
    else MaxInt(WarmUpOf(conditions[1..]), ConditionWarmUp(conditions[0]))
  }

  lemma {:induction false} WarmUpOfIsMax(conditions: seq<Condition>, i: nat)
    ensures i < WarmUpOf(conditions) <==> exists k | 0 <= k < |conditions| :: i < ConditionWarmUp(conditions[k])
  {
    if conditions != [] {
      WarmUpOfIsMax(conditions[1..], i);
      if i < ConditionWarmUp(conditions[0]) {
      } else if k :| 0 <= k < |conditions| && i < ConditionWarmUp(conditions[k]) {
        assert conditions[1..][k - 1] == conditions[k];
      }
    }
  }

  lemma ConditionWarmUpIsPrefix(spec: StrategySpec, candles: seq<Candle>, c: Condition, i: nat)
    requires i < |candles|
    requires c.lhs in AllRefs(spec) && (c.rhs.Ref? ==> c.rhs.ref in AllRefs(spec))
    ensures EvaluateCondition(c, ReferenceColumns(spec, candles), i).None? <==> i < ConditionWarmUp(c)
  {
    hide ValueAt;
    WarmUpIsPrefix(c.lhs, candles, i);
    if c.rhs.Ref? { WarmUpIsPrefix(c.rhs.ref, candles, i); }
    if i > 0 {
      WarmUpIsPrefix(c.lhs, candles, i - 1);
      if c.rhs.Ref? { WarmUpIsPrefix(c.rhs.ref, candles, i - 1); }
    }
  }

  lemma EvaluationsWarmUp(spec: StrategySpec, candles: seq<Candle>, conditions: seq<Condition>, i: nat)
    requires i < |candles| && AllReadable(conditions, ReferenceColumns(spec, candles), i)
    requires conditions == spec.entry.conditions || conditions == spec.exit.conditions
    ensures None in Evaluations(conditions, ReferenceColumns(spec, candles), i) <==> i < WarmUpOf(conditions)
  {
    hide EvaluateCondition, ConditionWarmUp;
    var results := Evaluations(conditions, ReferenceColumns(spec, candles), i);
    forall k | 0 <= k < |conditions|
      ensures results[k] == None <==> i < ConditionWarmUp(conditions[k])
    {
      RefsOfMember(conditions, k);
      ConditionWarmUpIsPrefix(spec, candles, conditions[k], i);
    }
    WarmUpOfIsMax(conditions, i);
    if i < WarmUpOf(conditions) {
      var k :| 0 <= k < |conditions| && i < ConditionWarmUp(conditions[k]);
      assert results[k] == None;
    }
  }

  /** Signals are undecided on exactly a computable prefix of the bars. */
  lemma SignalWarmUp(spec: StrategySpec, candles: seq<Candle>, i: nat)
    requires i < |candles|
    ensures SignalAt(spec, candles, i).entry.None? <==> i < WarmUpOf(spec.entry.conditions)
    ensures SignalAt(spec, candles, i).exit.None? <==> i < WarmUpOf(spec.exit.conditions)
  {
    hide EvaluateCondition;
    ReferenceReadable(spec, candles, i);
    EvaluationsWarmUp(spec, candles, spec.entry.conditions, i);
    EvaluationsWarmUp(spec, candles, spec.exit.conditions, i);
  }

  // ----- crossings -------------------------------------------------------------------------

  /** The operand relation a crossing starts from: at or below for above, at or above for below. */
  predicate Before(op: ComparatorOp, l: real, r: real) {
    if op.CrossesAbove? then l <= r else l >= r
  }

  ghost predicate Fires(c: Condition, columns: Columns, k: nat) {
    && Readable(Ref(c.lhs), columns, k) && Readable(c.rhs, columns, k)
    && EvaluateCondition(c, columns, k) == Some(true)
  }

  /**
   Both operands carry values on every bar of [a, b], the pair starts on the near side at a and is
   on the far side at b: then the crossing fires on some bar in (a, b].
   */
  lemma {:induction false} CrossingIsNoticed(c: Condition, columns: Columns, a: nat, b: nat)
    requires c.op.Crossing() && a < b
    requires Readable(Ref(c.lhs), columns, b) && Readable(c.rhs, columns, b)
    requires forall k | a <= k <= b ::
               CurrentValue(Ref(c.lhs), columns, k).Some? && CurrentValue(c.rhs, columns, k).Some?
    requires Before(c.op, CurrentValue(Ref(c.lhs), columns, a).value, CurrentValue(c.rhs, columns, a).value)
    requires !Before(c.op, CurrentValue(Ref(c.lhs), columns, b).value, CurrentValue(c.rhs, columns, b).value)
    ensures exists k | a < k <= b :: Fires(c, columns, k)
  {
    var pl, pr := CurrentValue(Ref(c.lhs), columns, b - 1), CurrentValue(c.rhs, columns, b - 1);
    if Before(c.op, pl.value, pr.value) {
      assert Fires(c, columns, b);
    } else {
      CrossingIsNoticed(c, columns, a, b - 1);
    }
  }

  /** The two crossings of one pair never fire on the same bar. */
  lemma CrossingsExclusive(lhs: IndicatorRef, rhs: Operand, columns: Columns, k: nat)
    ensures !(Fires(Condition(lhs, CrossesAbove, rhs), columns, k) &&
              Fires(Condition(lhs, CrossesBelow, rhs), columns, k))
  {}

  /** Over the reference columns: warm at a, near side at a, far side at b. */
  lemma StrategyCrossingIsNoticed(spec: StrategySpec, candles: seq<Candle>, c: Condition, a: nat, b: nat)
    requires c.op.Crossing() && a < b < |candles|
    requires c.lhs in AllRefs(spec) && (c.rhs.Ref? ==> c.rhs.ref in AllRefs(spec))
    requires var columns := ReferenceColumns(spec, candles);
             && CurrentValue(Ref(c.lhs), columns, a).Some? && CurrentValue(c.rhs, columns, a).Some?
             && CurrentValue(Ref(c.lhs), columns, b).Some? && CurrentValue(c.rhs, columns, b).Some?
             && Before(c.op, CurrentValue(Ref(c.lhs), columns, a).value, CurrentValue(c.rhs, columns, a).value)
             && !Before(c.op, CurrentValue(Ref(c.lhs), columns, b).value, CurrentValue(c.rhs, columns, b).value)
    ensures exists k | a < k <= b :: Fires(c, ReferenceColumns(spec, candles), k)
  {
    hide ValueAt;
    var columns := ReferenceColumns(spec, candles);
    forall k | a <= k <= b
      ensures CurrentValue(Ref(c.lhs), columns, k).Some? && CurrentValue(c.rhs, columns, k).Some?
    {
      WarmUpIsPrefix(c.lhs, candles, a);
      WarmUpIsPrefix(c.lhs, candles, k);
      if c.rhs.Ref? {
        WarmUpIsPrefix(c.rhs.ref, candles, a);
        WarmUpIsPrefix(c.rhs.ref, candles, k);
      }
    }
    CrossingIsNoticed(c, columns, a, b);
  }

  // ----- locality --------------------------------------------------------------------------

  lemma EvaluationLocal(spec: StrategySpec, a: seq<Candle>, b: seq<Candle>, c: Condition, i: nat)
    requires i < |a| && i < |b| && a[..i + 1] == b[..i + 1]
    requires c.lhs in AllRefs(spec) && (c.rhs.Ref? ==> c.rhs.ref in AllRefs(spec))
    ensures EvaluateCondition(c, ReferenceColumns(spec, a), i) == EvaluateCondition(c, ReferenceColumns(spec, b), i)
  {
    hide ValueAt;
    ValueLocal(c.lhs, a, b, i);
    if c.rhs.Ref? { ValueLocal(c.rhs.ref, a, b, i); }
    if i > 0 {
      assert a[..i] == a[..i + 1][..i] == b[..i];
      ValueLocal(c.lhs, a, b, i - 1);
      if c.rhs.Ref? { ValueLocal(c.rhs.ref, a, b, i - 1); }
    }
  }

  /** A signal depends on no later bar. */
  lemma SignalLocal(spec: StrategySpec, a: seq<Candle>, b: seq<Candle>, i: nat)
    requires i < |a| && i < |b| && a[..i + 1] == b[..i + 1]
    ensures SignalAt(spec, a, i) == SignalAt(spec, b, i)
  {
    hide EvaluateCondition;
    ReferenceReadable(spec, a, i);
    ReferenceReadable(spec, b, i);
    var ca, cb := ReferenceColumns(spec, a), ReferenceColumns(spec, b);
    forall k | 0 <= k < |spec.entry.conditions|
      ensures EvaluateCondition(spec.entry.conditions[k], ca, i) == EvaluateCondition(spec.entry.conditions[k], cb, i)
    {
      RefsOfMember(spec.entry.conditions, k);
      EvaluationLocal(spec, a, b, spec.entry.conditions[k], i);
    }
    forall k | 0 <= k < |spec.exit.conditions|
      ensures EvaluateCondition(spec.exit.conditions[k], ca, i) == EvaluateCondition(spec.exit.conditions[k], cb, i)
    {
      RefsOfMember(spec.exit.conditions, k);
      EvaluationLocal(spec, a, b, spec.exit.conditions[k], i);
    }
    assert Evaluations(spec.entry.conditions, ca, i) == Evaluations(spec.entry.conditions, cb, i);
    assert Evaluations(spec.exit.conditions, ca, i) == Evaluations(spec.exit.conditions, cb, i);
  }
}
