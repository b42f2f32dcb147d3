/** A paper trade: its level ordering and the pnl of an exit price. */
module Paper {
  import opened Base
  import opened Rounding

  const CENTS: real := 100.0

  datatype Terms = Terms(side: Side, entry: real, stop: real, take: real, sizeQuote: real,
                         openedAtMs: int, maxDurationSec: int)

  /** Stop, entry and take are positive and in the order the side demands. */
  predicate LevelsValid(side: Side, entry: real, stop: real, take: real) {
    && entry > 0.0 && stop > 0.0 && take > 0.0
    && (if side.Long? then stop < entry < take else take < entry < stop)
  }

  predicate TermsValid(t: Terms) {
    LevelsValid(t.side, t.entry, t.stop, t.take) && t.sizeQuote > 0.0
  }

  /** Favourable move times quantity. */
  function RawPnl(t: Terms, exitPrice: real): real
    requires t.entry > 0.0
  {
    var qty := t.sizeQuote / t.entry;
    var delta := if t.side.Long? then exitPrice - t.entry else t.entry - exitPrice;
    delta * qty
  }

  function ComputePnl(t: Terms, exitPrice: real): real
    requires t.entry > 0.0
  {
    Quantize(RawPnl(t, exitPrice), CENTS)
  }
}
