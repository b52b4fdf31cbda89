/**
  QuotesService.map: the Kraken OHLC REST response turned into chart candles.
  The HTTP request itself is not part of this model; parseFloat is a parameter.
*/
module QuotesService {
  import opened Wrappers
  import opened Candles

  /** The `result` object of a Kraken OHLC response; the pair's rows may be missing. */
  datatype KrakenResult = KrakenResult(XXBTZUSD: Option<seq<seq<string>>>, last: real)

  datatype Kraken = Kraken(error: seq<string>, result: KrakenResult)

  /** One REST row `[time, open, high, low, close, ...]` as a candle; the time is in seconds. */
  function RowToCandle(row: seq<string>, parseFloat: string -> real): Candle {
    Candle(
      x := parseFloat(Cell(row, 0)) * 1000.0,
      o := parseFloat(Cell(row, 1)),
      h := parseFloat(Cell(row, 2)),
      l := parseFloat(Cell(row, 3)),
      c := parseFloat(Cell(row, 4)))
  }

  /** `quotes.result.XXBTZUSD?.map(...)`: one candle per row in row order, or None when the rows are missing. */
  function Map(quotes: Kraken, parseFloat: string -> real): (r: Option<seq<Candle>>)
    ensures r.None? <==> quotes.result.XXBTZUSD.None?
    ensures r.Some? ==> |r.value| == |quotes.result.XXBTZUSD.value|
  {
    match quotes.result.XXBTZUSD
    case None => None
    case Some(rows) => Some(MapRows(rows, parseFloat))
  }

  function MapRows(rows: seq<seq<string>>, parseFloat: string -> real): (r: seq<Candle>)
    ensures |r| == |rows|
  {
    if rows == [] then [] else [RowToCandle(rows[0], parseFloat)] + MapRows(rows[1..], parseFloat)
  }

  /**
    Each candle comes from the row at the same position: its time is that row's
    first cell times 1000, and open, high, low and close are its next four cells.
  */
  lemma {:induction false} MapRowsFields(rows: seq<seq<string>>, parseFloat: string -> real)
    ensures var r := MapRows(rows, parseFloat);
      forall i :: 0 <= i < |rows| ==>
        && r[i].x == parseFloat(Cell(rows[i], 0)) * 1000.0
        && r[i].o == parseFloat(Cell(rows[i], 1))
        && r[i].h == parseFloat(Cell(rows[i], 2))
        && r[i].l == parseFloat(Cell(rows[i], 3))
        && r[i].c == parseFloat(Cell(rows[i], 4))
  {
    if rows != [] {
      MapRowsFields(rows[1..], parseFloat);
      var r := MapRows(rows, parseFloat);
      forall i | 0 < i < |rows| ensures r[i] == RowToCandle(rows[i], parseFloat) {
        assert r[i] == MapRows(rows[1..], parseFloat)[i - 1];
        assert rows[1..][i - 1] == rows[i];
      }
    }
  }

  /** Mapping is per row: the rows of two batches map to the candles of each, in order. */
  lemma {:induction false} MapRowsAppend(a: seq<seq<string>>, b: seq<seq<string>>, parseFloat: string -> real)
    ensures MapRows(a + b, parseFloat) == MapRows(a, parseFloat) + MapRows(b, parseFloat)
  {
    if a == [] {
      assert a + b == b;
    } else {
      assert (a + b)[1..] == a[1..] + b;
      MapRowsAppend(a[1..], b, parseFloat);
    }
  }
}
