/**
  FinancialChartComponent: the chart component's trading state, the candle
  series it shows, and the backtest replay that drives the detector, the
  entry selector and the paper-trading book over historical candles.
*/
module FinancialChart {
  import opened Wrappers
  import opened Candles
  import opened Indicators
  import opened PaperTrading
  import opened ChartSeries
  import opened QuotesService

  /**
    mapStream: the OHLC array of a streamed message, `[time, etime, open, high,
    low, close, vwap, volume, count]`, as a candle. x is the bar's end time
    (etime, in seconds, times 1000).
  */
  function MapStream(candle: seq<string>, parseFloat: string -> real): Candle {
    Candle(
      x := parseFloat(Cell(candle, 1)) * 1000.0,
      o := parseFloat(Cell(candle, 2)),
      h := parseFloat(Cell(candle, 3)),
      l := parseFloat(Cell(candle, 4)),
      c := parseFloat(Cell(candle, 5)))
  }

  /**
    A streamed OHLC array maps like a REST row with its leading start-time field
    dropped: the stream keys its candle by the bar's end time, the REST rows by
    its start time.
  */
  lemma MapStreamIsShiftedRow(candle: seq<string>, parseFloat: string -> real)
    requires candle != []
    ensures MapStream(candle, parseFloat) == RowToCandle(candle[1..], parseFloat)
  {
    forall i: nat | i < 5 ensures Cell(candle, i + 1) == Cell(candle[1..], i) {
    }
  }

  /**
    The component's findEntryPoint: the highest support line strictly below the
    low of the series' last candle. With no lines the callback never reads that
    candle; with lines and an empty series it would throw.
  */
  function FindEntryPoint(candles: seq<Candle>, supportLines: seq<Candle>): Option<Candle>
    requires candles != [] || supportLines == []
  {
    if supportLines == [] then None else EntryLong(candles[|candles| - 1], supportLines)
  }

  /** findEntryPoint picks the highest support line strictly below the last candle's low, and finds none only when no line is below it. */
  lemma FindEntryPointIsHighestBelowLast(candles: seq<Candle>, supportLines: seq<Candle>)
    requires candles != []
    ensures var r := FindEntryPoint(candles, supportLines);
      var low := candles[|candles| - 1].l;
      && (r.Some? ==>
            && r.value in supportLines && r.value.l < low
            && forall c :: c in supportLines && c.l < low ==> c.l <= r.value.l)
      && (r.None? <==> forall c :: c in supportLines ==> c.l >= low)
  {
    EntryLongIsHighestSupportBelow(candles[|candles| - 1], supportLines);
  }

  /** The book together with the series the chart shows. */
  datatype Session = Session(book: Book, series: seq<Candle>)

  /**
    One backtest step on a non-empty series: lines from the series, a new entry
    point from its last candle while flat, paperTrade with the first historical
    candle, then upsert and trim.
  */
  function Step(s: Session, candle: Candle, first: Candle, profitTarget: real, stopLoss: real, barCount: nat): (r: Session)
    requires s.series != []
    ensures barCount > 0 ==> 0 < |r.series| <= barCount
  {
    var entryPoint := if s.book.hasPosition then s.book.entryPoint else FindEntryPoint(s.series, SupportLinesOf(s.series));
    Session(
      NextBook(s.book.(entryPoint := entryPoint), candle, Some(first), profitTarget, stopLoss),
      Trim(Upsert(s.series, candle), barCount))
  }

  /** The backtest replay: one step per remaining candle, in order. */
  function Replay(s: Session, rest: seq<Candle>, first: Candle, profitTarget: real, stopLoss: real, barCount: nat): Session
    requires s.series != [] && barCount > 0
    decreases |rest|
  {
    if rest == [] then s
    else Replay(Step(s, rest[0], first, profitTarget, stopLoss, barCount), rest[1..], first, profitTarget, stopLoss, barCount)
  }

  /**
    A step keeps the position invariant, keeps the entry point while a position
    is held, and shows the new candle in a series of at most barCount candles.
  */
  lemma StepKeepsInvariant(s: Session, candle: Candle, first: Candle, profitTarget: real, stopLoss: real, barCount: nat)
    requires s.series != [] && 0 < barCount && |s.series| <= barCount
    requires PositionInvariant(s.book)
    ensures var r := Step(s, candle, first, profitTarget, stopLoss, barCount);
      && PositionInvariant(r.book)
      && 0 < |r.series| <= barCount && candle in r.series
      && (s.book.hasPosition ==> r.book.entryPoint == s.book.entryPoint)
  {
    var entryPoint := if s.book.hasPosition then s.book.entryPoint else FindEntryPoint(s.series, SupportLinesOf(s.series));
    NextBookKeepsInvariant(s.book.(entryPoint := entryPoint), candle, Some(first), profitTarget, stopLoss);
    NextBookKeepsEntry(s.book.(entryPoint := entryPoint), candle, Some(first), profitTarget, stopLoss);
    UpsertThenTrim(s.series, candle, barCount);
  }

  /** The replay keeps the position invariant and the series bound throughout. */
  lemma {:induction false} ReplayKeepsInvariant(s: Session, rest: seq<Candle>, first: Candle, profitTarget: real, stopLoss: real, barCount: nat)
    requires s.series != [] && 0 < barCount && |s.series| <= barCount
    requires PositionInvariant(s.book)
    ensures var r := Replay(s, rest, first, profitTarget, stopLoss, barCount);
      PositionInvariant(r.book) && 0 < |r.series| <= barCount
    decreases |rest|
  {
    if rest != [] {
      StepKeepsInvariant(s, rest[0], first, profitTarget, stopLoss, barCount);
      ReplayKeepsInvariant(Step(s, rest[0], first, profitTarget, stopLoss, barCount), rest[1..], first, profitTarget, stopLoss, barCount);
    }
  }

  /** After a step, holdPnl is the step candle's close minus the first historical close. */
  lemma StepHoldPnl(s: Session, candle: Candle, first: Candle, profitTarget: real, stopLoss: real, barCount: nat)
    requires s.series != []
    ensures Step(s, candle, first, profitTarget, stopLoss, barCount).book.holdPnl == candle.c - first.c
  {
    var entryPoint := if s.book.hasPosition then s.book.entryPoint else FindEntryPoint(s.series, SupportLinesOf(s.series));
    MarkToMarket(s.book.(entryPoint := entryPoint), candle, Some(first), profitTarget, stopLoss);
  }

  lemma LastOfTail(rest: seq<Candle>)
    requires |rest| > 1
    ensures rest[1..][|rest| - 2] == rest[|rest| - 1]
  {
  }

  /** After a replay over at least one candle, holdPnl is the last candle's close minus the first historical close. */
  lemma {:induction false} ReplayHoldPnl(s: Session, rest: seq<Candle>, first: Candle, profitTarget: real, stopLoss: real, barCount: nat)
    requires s.series != [] && 0 < barCount
    ensures var r := Replay(s, rest, first, profitTarget, stopLoss, barCount);
      r.book.holdPnl == if rest == [] then s.book.holdPnl else rest[|rest| - 1].c - first.c
    decreases |rest|
  {
    if rest != [] {
      var next := Step(s, rest[0], first, profitTarget, stopLoss, barCount);
      StepHoldPnl(s, rest[0], first, profitTarget, stopLoss, barCount);
      ReplayHoldPnl(next, rest[1..], first, profitTarget, stopLoss, barCount);
      if rest[1..] != [] {
        LastOfTail(rest);
      }
    }
  }

  /** The candles the backtest seeds the chart with: `slice(0, barCount)`. */
  function FirstPart(candles: seq<Candle>, barCount: nat): (r: seq<Candle>)
    ensures |r| == (if |candles| < barCount then |candles| else barCount)
    ensures r == candles[..|r|]
  {
    if |candles| < barCount then candles else candles[..barCount]
  }

  /** The candles the backtest replays: `slice(barCount)`, so that FirstPart + LastPart is the whole history. */
  function LastPart(candles: seq<Candle>, barCount: nat): (r: seq<Candle>)
    ensures FirstPart(candles, barCount) + r == candles
  {
    candles[|FirstPart(candles, barCount)|..]
  }

  class FinancialChartComponent {
    const profitTarget: real := 0.005
    const stopLoss: real := 0.005
    const barCount: nat := 120

    var hasPosition: bool
    var openOrder: Option<real>
    var takeProfitOrder: Option<real>
    var entryPoint: Option<Candle>
    var runningPnl: real
    var currentPnl: real
    var holdPnl: real
    var stopLossOrder: Option<real>

    /** The candles of the chart's first dataset. */
    var series: seq<Candle>

    function Snapshot(): Book
      reads this
    {
      Book(hasPosition, openOrder, takeProfitOrder, stopLossOrder, entryPoint, runningPnl, currentPnl, holdPnl)
    }

    ghost predicate Valid()
      reads this
    {
      PositionInvariant(Snapshot()) && |series| <= barCount
    }

    constructor()
      ensures Snapshot() == Flat && series == []
      ensures Valid()
    {
      hasPosition := false;
      openOrder := None;
      takeProfitOrder := None;
      entryPoint := None;
      runningPnl := 0.0;
      currentPnl := 0.0;
      holdPnl := 0.0;
      stopLossOrder := None;
      series := [];
    }

    /** reset: clears the targets, the position flag and the buy order. */
    method Reset()
      requires Valid()
      modifies this
      ensures Snapshot() == ResetBook(old(Snapshot()))
      ensures series == old(series)
      ensures Valid()
    {
      takeProfitOrder := None;
      stopLossOrder := None;
      hasPosition := false;
      openOrder := None;
    }

    /** paperTrade: mark to market, then take-profit close, stop-loss close, fill or quote, first match only. */
    method PaperTrade(lastCandle: Candle, firstCandle: Option<Candle>)
      requires Valid()
      modifies this
      ensures Snapshot() == NextBook(old(Snapshot()), lastCandle, firstCandle, profitTarget, stopLoss)
      ensures series == old(series)
      ensures Valid()
    {
      NextBookKeepsInvariant(Snapshot(), lastCandle, firstCandle, profitTarget, stopLoss);
      holdPnl := if firstCandle.Some? then lastCandle.c - firstCandle.value.c else 0.0;

      if hasPosition && Truthy(openOrder) {
        currentPnl := lastCandle.c - openOrder.value;
      }

      if Truthy(openOrder) && hasPosition && Truthy(takeProfitOrder) && lastCandle.h >= takeProfitOrder.value {
        runningPnl := runningPnl + (takeProfitOrder.value - openOrder.value);
        Reset();
        return;
      }

      if Truthy(openOrder) && hasPosition && Truthy(stopLossOrder) && lastCandle.l <= stopLossOrder.value {
        runningPnl := runningPnl + (stopLossOrder.value - openOrder.value);
        Reset();
        return;
      }

      if entryPoint.Some? && Truthy(openOrder) && !hasPosition && lastCandle.l <= openOrder.value {
        hasPosition := true;
        takeProfitOrder := Some(TakeProfitPrice(entryPoint.value.l, profitTarget));
        stopLossOrder := Some(StopLossPrice(entryPoint.value.l, stopLoss));
        return;
      }

      if !hasPosition && entryPoint.Some? && (!Truthy(openOrder) || openOrder.value != entryPoint.value.l) {
        openOrder := Some(entryPoint.value.l);
      }
    }

    /** updateChart: keeps only the last barCount candles of the series. */
    method UpdateChart()
      requires PositionInvariant(Snapshot())
      modifies this
      ensures series == Trim(old(series), barCount)
      ensures Snapshot() == old(Snapshot())
      ensures Valid()
    {
      if |series| != 0 && |series| > barCount {
        series := series[|series| - barCount..];
      }
    }

    /** The series part of renderGraph: upsert the candle by timestamp, then updateChart. */
    method RenderGraph(candle: Candle)
      requires PositionInvariant(Snapshot())
      modifies this
      ensures series == Trim(Upsert(old(series), candle), barCount)
      ensures Snapshot() == old(Snapshot())
      ensures Valid()
    {
      var sameEndTime := IndexOfTime(series, candle.x);
      if sameEndTime != 0 && sameEndTime > -1 {
        series := series[sameEndTime := candle];
      } else {
        series := series + [candle];
      }
      UpdateChart();
    }

    /** One replayed candle of the backtest subscription. */
    method BacktestStep(candle: Candle, first: Candle)
      requires series != [] && Valid()
      modifies this
      ensures Session(Snapshot(), series) == Step(old(Session(Snapshot(), series)), candle, first, profitTarget, stopLoss, barCount)
      ensures Valid() && series != []
    {
      ghost var before := Session(Snapshot(), series);
      var lines := FindSupportAndResistance(series);
      assert lines.value.supportLines == SupportLinesOf(before.series);
      if !hasPosition {
        entryPoint := FindEntryPoint(series, lines.value.supportLines);
      }
      ghost var entered := Snapshot();
      assert entered == before.book.(entryPoint := if before.book.hasPosition then before.book.entryPoint
                                                   else FindEntryPoint(before.series, SupportLinesOf(before.series)));
      PaperTrade(candle, Some(first));
      ghost var traded := Snapshot();
      assert traded == NextBook(entered, candle, Some(first), profitTarget, stopLoss);
      RenderGraph(candle);
      ghost var after := Step(before, candle, first, profitTarget, stopLoss, barCount);
      assert Snapshot() == traded == after.book;
      assert series == after.series;
      StepKeepsInvariant(before, candle, first, profitTarget, stopLoss, barCount);
    }

    /**
      The backtest branch of ngOnInit: show the first barCount candles, then
      replay the rest one step at a time against the first historical candle.
    */
    method Backtest(candles: seq<Candle>)
      requires candles != [] && Valid()
      modifies this
      ensures Session(Snapshot(), series)
        == Replay(Session(old(Snapshot()), FirstPart(candles, barCount)), LastPart(candles, barCount),
                  candles[0], profitTarget, stopLoss, barCount)
      ensures Valid()
    {
      var firstPart := FirstPart(candles, barCount);
      var lastPart := LastPart(candles, barCount);
      ghost var start := Session(Snapshot(), firstPart);
      series := firstPart;
      UpdateChart();
      var index := 0;
      while index < |lastPart|
        invariant 0 <= index <= |lastPart|
        invariant Valid() && series != []
        invariant Replay(Session(Snapshot(), series), lastPart[index..], candles[0], profitTarget, stopLoss, barCount)
          == Replay(start, lastPart, candles[0], profitTarget, stopLoss, barCount)
      {
        assert lastPart[index..][1..] == lastPart[index + 1..];
        BacktestStep(lastPart[index], candles[0]);
        index := index + 1;
      }
    }
  }
}
