/**
  The long-only paper-trading book of the chart component, as values: the
  fields `paperTrade` and `reset` update, the next-state function they follow,
  and what is proved about it.
*/
module PaperTrading {
  import opened Wrappers
  import opened Candles

  /**
    The component's order and PnL fields. An `undefined` number is None;
    the entry point is a candle or None.
  */
  datatype Book = Book(
    hasPosition: bool,
    openOrder: Option<real>,
    takeProfitOrder: Option<real>,
    stopLossOrder: Option<real>,
    entryPoint: Option<Candle>,
    runningPnl: real,
    currentPnl: real,
    holdPnl: real)

  /** The component's field initialisers: flat, no orders, all PnL zero. */
  const Flat := Book(false, None, None, None, None, 0.0, 0.0, 0.0)

  /** A JavaScript number is truthy when it is defined and not 0 (NaN is not modelled). */
  predicate Truthy(v: Option<real>) {
    v.Some? && v.value != 0.0
  }

  /** Order fields agree with the position: both targets are set exactly while holding, and a held position has a buy order. */
  predicate PositionInvariant(b: Book) {
    && b.takeProfitOrder.Some? == b.hasPosition
    && b.stopLossOrder.Some? == b.hasPosition
    && (b.hasPosition ==> Truthy(b.openOrder))
  }

  /** The at most one transition paperTrade makes, in its order of priority. */
  datatype Action = TakeProfitClose | StopLossClose | Fill | Quote | Hold

  function NextAction(b: Book, last: Candle): Action {
    if Truthy(b.openOrder) && b.hasPosition && Truthy(b.takeProfitOrder) && last.h >= b.takeProfitOrder.value then
      TakeProfitClose
    else if Truthy(b.openOrder) && b.hasPosition && Truthy(b.stopLossOrder) && last.l <= b.stopLossOrder.value then
      StopLossClose
    else if b.entryPoint.Some? && Truthy(b.openOrder) && !b.hasPosition && last.l <= b.openOrder.value then
      Fill
    else if !b.hasPosition && b.entryPoint.Some? && (!Truthy(b.openOrder) || b.openOrder.value != b.entryPoint.value.l) then
      Quote
    else
      Hold
  }

  /** `(firstCandle && lastCandle.c - firstCandle.c) ?? 0`: a candle object is always truthy. */
  function HoldPnl(last: Candle, first: Option<Candle>): real {
    if first.Some? then last.c - first.value.c else 0.0
  }

  /** The take-profit price placed on a fill: `entryPoint.l * (1 + profitTarget)`. */
  function TakeProfitPrice(entryLow: real, profitTarget: real): real {
    entryLow * (1.0 + profitTarget)
  }

  /** The stop-loss price placed on a fill: `entryPoint.l * (1 - stopLoss)`. */
  function StopLossPrice(entryLow: real, stopLoss: real): real {
    entryLow * (1.0 - stopLoss)
  }

  /** What reset does: clears both targets, the position flag and the buy order. */
  function ResetBook(b: Book): Book {
    b.(takeProfitOrder := None, stopLossOrder := None, hasPosition := false, openOrder := None)
  }

  /** The book after paperTrade(last, first): mark to market, then at most one transition. */
  function NextBook(b: Book, last: Candle, first: Option<Candle>, profitTarget: real, stopLoss: real): Book {
    var currentPnl := if b.hasPosition && Truthy(b.openOrder) then last.c - b.openOrder.value else b.currentPnl;
    var marked := b.(holdPnl := HoldPnl(last, first), currentPnl := currentPnl);
    match NextAction(b, last)
    case TakeProfitClose =>
      ResetBook(marked.(runningPnl := marked.runningPnl + (b.takeProfitOrder.value - b.openOrder.value)))
    case StopLossClose =>
      ResetBook(marked.(runningPnl := marked.runningPnl + (b.stopLossOrder.value - b.openOrder.value)))
    case Fill =>
      marked.(hasPosition := true,
              takeProfitOrder := Some(TakeProfitPrice(b.entryPoint.value.l, profitTarget)),
              stopLossOrder := Some(StopLossPrice(b.entryPoint.value.l, stopLoss)))
    case Quote =>
      marked.(openOrder := Some(b.entryPoint.value.l))
    case Hold =>
      marked
  }

  /**
    reset leaves the book flat with no orders, keeps the entry point and all
    PnL fields, restores the invariant and is idempotent.
  */
  lemma ResetIsFlat(b: Book)
    ensures var r := ResetBook(b);
      && !r.hasPosition && r.openOrder.None? && r.takeProfitOrder.None? && r.stopLossOrder.None?
      && r.entryPoint == b.entryPoint
      && r.runningPnl == b.runningPnl && r.currentPnl == b.currentPnl && r.holdPnl == b.holdPnl
      && PositionInvariant(r)
      && ResetBook(r) == r
  {
  }

  /** paperTrade keeps the position invariant, whatever the candle and parameters. */
  lemma NextBookKeepsInvariant(b: Book, last: Candle, first: Option<Candle>, profitTarget: real, stopLoss: real)
    requires PositionInvariant(b)
    ensures PositionInvariant(NextBook(b, last, first, profitTarget, stopLoss))
  {
  }

  /** The two mark-to-market fields: holdPnl always, currentPnl only while holding with a buy order. */
  lemma MarkToMarket(b: Book, last: Candle, first: Option<Candle>, profitTarget: real, stopLoss: real)
    ensures var r := NextBook(b, last, first, profitTarget, stopLoss);
      && r.holdPnl == (if first.Some? then last.c - first.value.c else 0.0)
      && r.currentPnl == (if b.hasPosition && Truthy(b.openOrder) then last.c - b.openOrder.value else b.currentPnl)
  {
  }

  /** paperTrade never writes the entry point. */
  lemma NextBookKeepsEntry(b: Book, last: Candle, first: Option<Candle>, profitTarget: real, stopLoss: real)
    ensures NextBook(b, last, first, profitTarget, stopLoss).entryPoint == b.entryPoint
  {
  }

  /**
    A candle whose high reaches the take-profit order closes the position at
    that price, even when its low also reaches the stop-loss order.
  */
  lemma TakeProfitCloses(b: Book, last: Candle, first: Option<Candle>, profitTarget: real, stopLoss: real)
    requires b.hasPosition && Truthy(b.openOrder) && Truthy(b.takeProfitOrder)
    requires last.h >= b.takeProfitOrder.value
    ensures var r := NextBook(b, last, first, profitTarget, stopLoss);
      && r.runningPnl == b.runningPnl + (b.takeProfitOrder.value - b.openOrder.value)
      && r == ResetBook(r)
      && r.currentPnl == last.c - b.openOrder.value
  {
  }

  /** Otherwise a candle whose low reaches the stop-loss order closes the position at that price. */
  lemma StopLossCloses(b: Book, last: Candle, first: Option<Candle>, profitTarget: real, stopLoss: real)
    requires b.hasPosition && Truthy(b.openOrder) && Truthy(b.stopLossOrder)
    requires !(Truthy(b.takeProfitOrder) && last.h >= b.takeProfitOrder.value)
    requires last.l <= b.stopLossOrder.value
    ensures var r := NextBook(b, last, first, profitTarget, stopLoss);
      && r.runningPnl == b.runningPnl + (b.stopLossOrder.value - b.openOrder.value)
      && r == ResetBook(r)
      && r.currentPnl == last.c - b.openOrder.value
  {
  }

  /**
    runningPnl changes only when a held position is closed; a step that does
    not close one leaves it as it was.
  */
  lemma RunningPnlOnlyOnClose(b: Book, last: Candle, first: Option<Candle>, profitTarget: real, stopLoss: real)
    ensures var r := NextBook(b, last, first, profitTarget, stopLoss);
      !(b.hasPosition && !r.hasPosition) ==> r.runningPnl == b.runningPnl
  {
  }

  /**
    While flat with an entry point and a buy order the candle's low reaches,
    the order fills: the position opens with targets around the entry point's
    low, the buy order stays, and no PnL is booked.
  */
  lemma FillOpensPosition(b: Book, last: Candle, first: Option<Candle>, profitTarget: real, stopLoss: real)
    requires !b.hasPosition && b.entryPoint.Some? && Truthy(b.openOrder)
    requires last.l <= b.openOrder.value
    ensures var r := NextBook(b, last, first, profitTarget, stopLoss);
      && r.hasPosition
      && r.takeProfitOrder == Some(TakeProfitPrice(b.entryPoint.value.l, profitTarget))
      && r.stopLossOrder == Some(StopLossPrice(b.entryPoint.value.l, stopLoss))
      && r.openOrder == b.openOrder
      && r.runningPnl == b.runningPnl && r.currentPnl == b.currentPnl
  {
  }

  /**
    While flat with an entry point and no fill, the buy order is (re)placed at
    the entry point's low; the book stays flat.
  */
  lemma QuoteFollowsEntry(b: Book, last: Candle, first: Option<Candle>, profitTarget: real, stopLoss: real)
    requires !b.hasPosition && b.entryPoint.Some?
    requires !(Truthy(b.openOrder) && last.l <= b.openOrder.value)
    ensures var r := NextBook(b, last, first, profitTarget, stopLoss);
      && !r.hasPosition
      && (if Truthy(b.openOrder) && b.openOrder.value == b.entryPoint.value.l then r.openOrder == b.openOrder
          else r.openOrder == Some(b.entryPoint.value.l))
      && r.takeProfitOrder == b.takeProfitOrder && r.stopLossOrder == b.stopLossOrder
      && r.runningPnl == b.runningPnl
  {
  }

  /** Flat without an entry point, a step only refreshes holdPnl. */
  lemma NoEntryNoTrade(b: Book, last: Candle, first: Option<Candle>, profitTarget: real, stopLoss: real)
    requires !b.hasPosition && b.entryPoint.None?
    ensures NextBook(b, last, first, profitTarget, stopLoss) == b.(holdPnl := HoldPnl(last, first))
  {
  }

  /**
    While a position is held, the buy order is never changed: it stays while
    the position stays, and goes only with the close.
  */
  lemma OpenOrderKeptWhileHolding(b: Book, last: Candle, first: Option<Candle>, profitTarget: real, stopLoss: real)
    requires PositionInvariant(b) && b.hasPosition
    ensures var r := NextBook(b, last, first, profitTarget, stopLoss);
      && (r.hasPosition ==> r.openOrder == b.openOrder && r.takeProfitOrder == b.takeProfitOrder)
      && (!r.hasPosition ==> r.openOrder.None?)
  {
  }

  /**
    An entry point at low 100 with 0.5% targets: the buy order is placed at
    100, fills on a candle reaching 100, places the targets at 100.5 and 99.5,
    and a later candle with high 101 books a profit of 0.5.
  */
  lemma TakeProfitExample()
    ensures var entry := Candle(1.0, 101.0, 102.0, 100.0, 101.0);
      var b0 := Flat.(entryPoint := Some(entry));
      var b1 := NextBook(b0, Candle(2.0, 101.0, 101.5, 100.5, 101.0), None, 0.005, 0.005);
      var b2 := NextBook(b1, Candle(3.0, 100.8, 100.9, 99.8, 100.2), None, 0.005, 0.005);
      var b3 := NextBook(b2, Candle(4.0, 100.2, 101.0, 100.1, 100.9), None, 0.005, 0.005);
      && b1.openOrder == Some(100.0) && !b1.hasPosition
      && b2.hasPosition && b2.takeProfitOrder == Some(100.5) && b2.stopLossOrder == Some(99.5)
      && !b3.hasPosition && b3.runningPnl == 0.5
  {
  }
}
