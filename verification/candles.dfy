/**
  The chart library's FinancialDataPoint, the one entity every part of the
  engine passes around, and the orderings the engine sorts candles by.
*/
module Candles {

  /** One OHLC bar; `x` is the bar's time in milliseconds. */
  datatype Candle = Candle(x: real, o: real, h: real, l: real, c: real)

  /** A level is read from the bar's low (support) or from its high (resistance). */
  datatype Side = Support | Resistance

  function Price(side: Side, c: Candle): real {
    match side
    case Support => c.l
    case Resistance => c.h
  }

  function Abs(v: real): real {
    if v < 0.0 then -v else v
  }

  /** The four comparators the engine hands to Array.prototype.sort. */
  datatype Order = LowAscending | LowDescending | HighAscending | HighDescending

  /** Sorting ascending by this key is sorting with the comparator `o` names. */
  function Key(o: Order, c: Candle): real {
    match o
    case LowAscending => c.l
    case LowDescending => -c.l
    case HighAscending => c.h
    case HighDescending => -c.h
  }

  predicate Ordered(o: Order, s: seq<Candle>) {
    forall i, j :: 0 <= i < j < |s| ==> Key(o, s[i]) <= Key(o, s[j])
  }

  /** A row cell as JavaScript reads it: past the end of the row it is the value `undefined`, shown here by its string. */
  function Cell(row: seq<string>, i: nat): string {
    if i < |row| then row[i] else "undefined"
  }
}
