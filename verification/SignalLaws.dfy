/** What a decided signal says about the operand values of its conditions. */
module SignalLaws {
  import opened Base
  import opened Strategy
  import opened Indicators
  import opened Evaluator

  /** What a side of a condition is worth on a bar. */
  function Worth(side: Operand, candles: seq<Candle>, i: nat): Option<real>
    requires i < |candles|
  {
    match side
    case Constant(c) => Some(c)
    case Ref(ref) => ValueAt(ref, candles, i)
  }

  ghost predicate BothWorth(c: Condition, candles: seq<Candle>, i: nat)
    requires i < |candles|
  {
    Worth(Ref(c.lhs), candles, i).Some? && Worth(c.rhs, candles, i).Some?
  }

  /** Both sides have a value on the bar, and for a crossing also on the bar before it. */
  ghost predicate Decided(c: Condition, candles: seq<Candle>, i: nat)
    requires i < |candles|
  {
    BothWorth(c, candles, i) && (c.op.CrossesAbove? || c.op.CrossesBelow? ==> i > 0 && BothWorth(c, candles, i - 1))
  }

  /** The relation the condition names, between its two sides. */
  ghost predicate Holds(c: Condition, candles: seq<Candle>, i: nat)
    requires i < |candles|
  {
    && Decided(c, candles, i)
    && var l, r := Worth(Ref(c.lhs), candles, i).value, Worth(c.rhs, candles, i).value;
       match c.op
       case Gt => l > r
       case Gte => l >= r
       case Lt => l < r
       case Lte => l <= r
       case CrossesAbove => l > r && Worth(Ref(c.lhs), candles, i - 1).value <= Worth(c.rhs, candles, i - 1).value
       case CrossesBelow => l < r && Worth(Ref(c.lhs), candles, i - 1).value >= Worth(c.rhs, candles, i - 1).value
  }

  lemma EvaluationMeaning(spec: StrategySpec, candles: seq<Candle>, c: Condition, i: nat)
    requires i < |candles|
    requires c.lhs in AllRefs(spec) && (c.rhs.Ref? ==> c.rhs.ref in AllRefs(spec))
    ensures var r := EvaluateCondition(c, ReferenceColumns(spec, candles), i);
            && (r == None <==> !Decided(c, candles, i))
            && (r == Some(true) <==> Holds(c, candles, i))
  {
    hide ValueAt;
  }

  lemma EvaluationsMeaning(spec: StrategySpec, candles: seq<Candle>, conditions: seq<Condition>, i: nat)
    requires i < |candles| && (conditions == spec.entry.conditions || conditions == spec.exit.conditions)
    requires AllReadable(conditions, ReferenceColumns(spec, candles), i)
    ensures var r := Evaluations(conditions, ReferenceColumns(spec, candles), i);
            && |r| == |conditions|
            && forall k | 0 <= k < |r| ::
                 && (r[k] == None <==> !Decided(conditions[k], candles, i))
                 && (r[k] == Some(true) <==> Holds(conditions[k], candles, i))
  {
    hide EvaluateCondition, Decided, Holds;
    forall k | 0 <= k < |conditions|
      ensures var r := EvaluateCondition(conditions[k], ReferenceColumns(spec, candles), i);
              && (r == None <==> !Decided(conditions[k], candles, i))
              && (r == Some(true) <==> Holds(conditions[k], candles, i))
    {
      RefsOfMember(conditions, k);
      EvaluationMeaning(spec, candles, conditions[k], i);
    }
  }

  ghost predicate AllDecided(conditions: seq<Condition>, candles: seq<Candle>, i: nat)
    requires i < |candles|
  {
    forall k | 0 <= k < |conditions| :: Decided(conditions[k], candles, i)
  }

  /**
   The entry signal is true exactly when every entry condition holds, the exit signal when all exit
   conditions are decided and one of them holds.  A signal is undecided exactly when one of its
   conditions is; so without exit conditions the exit signal is false.
   */
  lemma SignalMeaning(spec: StrategySpec, candles: seq<Candle>, i: nat)
    requires i < |candles|
    ensures var signal, entry, exit := SignalAt(spec, candles, i), spec.entry.conditions, spec.exit.conditions;
            && signal.barIndex == i
            && (signal.entry == None <==> !AllDecided(entry, candles, i))
            && (signal.entry == Some(true) <==> forall k | 0 <= k < |entry| :: Holds(entry[k], candles, i))
            && (signal.exit == None <==> !AllDecided(exit, candles, i))
            && (signal.exit == Some(true) <==>
                  AllDecided(exit, candles, i) && exists k | 0 <= k < |exit| :: Holds(exit[k], candles, i))
            && (exit == [] ==> signal.exit == Some(false))
  {
    hide Decided, Worth, EvaluateCondition, AllReadable;
    var columns, entry, exit := ReferenceColumns(spec, candles), spec.entry.conditions, spec.exit.conditions;
    ReferenceReadable(spec, candles, i);
    EvaluationsMeaning(spec, candles, entry, i);
    EvaluationsMeaning(spec, candles, exit, i);
    HoldsDecided(entry, candles, i);
    hide Holds;
    var a, b := Evaluations(entry, columns, i), Evaluations(exit, columns, i);
    NoneExact(a);
    NoneExact(b);
    if k :| 0 <= k < |exit| && Holds(exit[k], candles, i) { assert b[k] == Some(true); }
    if k :| 0 <= k < |b| && b[k] == Some(true) { assert Holds(exit[k], candles, i); }
  }

  lemma HoldsDecided(conditions: seq<Condition>, candles: seq<Candle>, i: nat)
    requires i < |candles|
    ensures forall k | 0 <= k < |conditions| :: Holds(conditions[k], candles, i) ==> Decided(conditions[k], candles, i)
  {}

  lemma NoneExact(signals: seq<Option<bool>>)
    ensures None in signals <==> exists k | 0 <= k < |signals| :: signals[k] == None
  {}
}
