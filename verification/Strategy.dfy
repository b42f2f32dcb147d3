/** The strategy description: indicator references, conditions, entry and exit rules. */
module Strategy {
  import opened Base

  datatype Candle = Candle(open: real, high: real, low: real, close: real, volume: real)

  datatype PriceSource = OpenPrice | HighPrice | LowPrice | ClosePrice | Hlc3

  datatype IndicatorKind = Sma | Ema | Rsi | Macd | Atr | Volume

  datatype RawRef = RawRef(kind: IndicatorKind, period: int, source: PriceSource)

  /** `period > 0` is a field rule of the reference itself. */
  type IndicatorRef = r: RawRef | r.period > 0 witness RawRef(Sma, 1, ClosePrice)

  datatype ComparatorOp = Gt | Gte | Lt | Lte | CrossesAbove | CrossesBelow {
    predicate Crossing() {
      CrossesAbove? || CrossesBelow?
    }
  }

  datatype Operand = Ref(ref: IndicatorRef) | Constant(c: real)

  datatype Condition = Condition(lhs: IndicatorRef, op: ComparatorOp, rhs: Operand)

  datatype EntryRule = EntryRule(side: Side, conditions: seq<Condition>)

  datatype ExitRule = ExitRule(conditions: seq<Condition>, takeProfitPct: Option<real>, stopLossPct: Option<real>)

  datatype RawSpec = RawSpec(entry: EntryRule, exit: ExitRule, sizePct: real) {
    predicate Valid() {
      && entry.conditions != []
      && 0.0 < sizePct <= 1.0
      && (exit.conditions != [] || exit.takeProfitPct.Some? || exit.stopLossPct.Some?)
      && (exit.takeProfitPct.Some? ==> exit.takeProfitPct.value > 0.0)
      && (exit.stopLossPct.Some? ==> exit.stopLossPct.value > 0.0)
    }
  }

  ghost const SAMPLE: RawSpec :=
    RawSpec(EntryRule(Long, [Condition(RawRef(Sma, 1, ClosePrice), Gt, Constant(0.0))]),
            ExitRule([], Some(1.0), None), 1.0)

  /** A specification that passed its field validators. */
  type StrategySpec = s: RawSpec | s.Valid() ghost witness SAMPLE
}
