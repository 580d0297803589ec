/** What an accepted row does to the book of its symbol, told by the fields of the row
    (src/production/replay.rs): nothing here goes through the event the row is turned into. */
module RowEffects {
  import opened Wrappers
  import opened MarketData
  import opened Queues
  import opened Book
  import opened BookRuns
  import opened Trades
  import opened History
  import opened Effects
  import opened Reentry
  import opened Spool
  import opened Pending
  import opened Rows

  /** The key that orders and executions of a channel mean by a number on a side. */
  function Keyed(channel: u32, side: Side, number: OrderId): OrderKey {
    OrderKey(channel, side, number)
  }

  function Bidding(row: OrderRow): Side {
    if row.side == SzBuy then Buy else Sell
  }

  ghost predicate Remembers(env: Env, b: Book, c: Common, b': Book)
    requires LastNumber(b) < MAX_U64
  {
    b'.lastMeta == Some(EventMeta(env.bookKey, c.sequence, LastNumber(b) + 1, c.localTime, c.quoteTime))
  }

  // ----- order rows -----

  /** Who rests on arrival: every limit order, and one at its own side's best price that finds one. */
  ghost predicate RowRestsAtOnce(b: Book, row: OrderRow) {
    row.orderKind.Limit? || (row.orderKind.SameSideBest? && Own(b, Bidding(row)) != map[])
  }

  /** The row's order is new, whole, and stands behind everybody at the row's own price or at the head
      of its side; or it is hidden without a price, and then only the policy that lets market orders
      rest at their last trade lets it return. */
  ghost predicate OrderTaken(env: Env, b: Book, row: OrderRow, b': Book) {
    && 0 < row.common.sequence && LastNumber(b) < MAX_U64 && Remembers(env, b, row.common, b')
    && var key := Keyed(env.channel, Bidding(row), row.common.sequence);
       && key !in b.seen && key in b'.orders && b'.orders - {key} == b.orders && b'.statistics == b.statistics
       && OrderPlaced(env, b, row, b', key, b'.orders[key])
  }

  ghost predicate OrderPlaced(env: Env, b: Book, row: OrderRow, b': Book, key: OrderKey, o: Order) {
    && o.original == row.quantity && o.remaining == row.quantity
    && (o.allowReentry <==> row.orderKind.Market? && env.policy.RestAtLastPrice?)
    && (o.repriceFromTrade <==> row.orderKind.Market? && env.policy.RestAtLastPrice?)
    && if RowRestsAtOnce(b, row) then
         && o.resting && o.price.Some? && JoinsTail(b, b', key, o.price.value)
         && if row.orderKind.Limit? then o.price.value == row.price
            else Heads(key.side, o.price.value, Own(b, key.side))
       else
         !o.resting && o.price.None? && SameQueues(b, b')
  }

  ghost predicate OrderAcceptable(env: Env, b: Book, row: OrderRow) {
    && env.channel > 0 && row.common.sequence > 0 && row.quantity > 0 && LastNumber(b) < MAX_U64
    && (row.orderKind.Limit? ==> row.price > 0)
    && Keyed(env.channel, Bidding(row), row.common.sequence) !in b.seen
    && (RowRestsAtOnce(b, row) ==> b.SideTotal(Bidding(row), false) + row.quantity <= MAX_U64)
  }

  lemma OrderAddable(env: Env, b: Book, directory: Directory, row: OrderRow)
    requires b.WellFormed() && Usable(env, b, directory, row)
    ensures Addable(b, EventOf(env, b, directory, row)) <==> OrderAcceptable(env, b, row)
  {
    hide Book.WellFormed, Book.SideTotal, Meets;
    BestHeads(b, Bidding(row));
    var event := EventOf(env, b, directory, row);
    PriceResolves(b, event.orderKey.side, event.pricing);
    assert row.orderKind.Limit? ==> PricedAs(b, event.orderKey.side, event.pricing, Some(row.price));
    assert event.pricing.Unpriced? ==> PricedAs(b, event.orderKey.side, event.pricing, None);
  }

  /** An order row is accepted exactly when its channel, number, quantity and price are usable, its
      key is new and, where it rests, its side has room. */
  lemma OrderRowAccepted(env: Env, b: Book, directory: Directory, row: OrderRow)
    requires b.WellFormed()
    ensures Takes(env, b, directory, row) <==> OrderAcceptable(env, b, row)
  {
    hide Book.WellFormed, Book.SideTotal, Book.Apply, Addable, EventOf, RowRestsAtOnce;
    if Usable(env, b, directory, row) {
      var event := EventOf(env, b, directory, row);
      OrderAddable(env, b, directory, row);
      OrderEventShape(env, b, directory, row);
      StepTold(env.Config(), b, Event(event));
    }
  }

  lemma OrderEventShape(env: Env, b: Book, directory: Directory, row: OrderRow)
    requires Usable(env, b, directory, row)
    ensures var event := EventOf(env, b, directory, row);
      && event.AddOrder? && event.quantity == row.quantity
      && event.orderKey == Keyed(env.channel, Bidding(row), row.common.sequence)
      && event.meta
        == EventMeta(env.bookKey, row.common.sequence, LastNumber(b) + 1, row.common.localTime, row.common.quoteTime)
  {
    hide PricingOf, CrossingOf;
  }

  /** An accepted order row has its effect. */
  lemma OrderRowTold(env: Env, b: Book, directory: Directory, row: OrderRow)
    requires b.WellFormed() && Takes(env, b, directory, row)
    ensures OrderTaken(env, b, row, b.Apply(env.Config(), EventOf(env, b, directory, row)).value.0)
  {
    hide Book.WellFormed, Book.SideTotal, Book.Apply, Meets, JoinsTail, Heads;
    var event := EventOf(env, b, directory, row);
    OrderEventShape(env, b, directory, row);
    BestHeads(b, Bidding(row));
    StepTold(env.Config(), b, Event(event));
    AddedMarks(env.Config(), b, event);
  }

  // ----- execution rows -----

  /** The directory holds keys of the channel, at their own places, and every active order. */
  ghost predicate Traceable(env: Env, b: Book, directory: Directory) {
    && (forall at | at in directory :: 0 < at.1 <= MAX_U64 && directory[at] == Keyed(env.channel, at.0, at.1))
    && forall key: OrderKey | key in b.orders ::
         key.channelId == env.channel && (key.side, key.orderId as nat) in directory
  }

  /** The row names the order by its number on its side. */
  predicate RowNames(env: Env, row: ExecutionRow, key: OrderKey) {
    && key.channelId == env.channel
    && key.orderId == if key.side == Buy then row.bidOrderNo else row.askOrderNo
  }

  function TradeReference(env: Env, side: Side, number: u64): OrderReference {
    if number == 0 then Absent else Resolved(Keyed(env.channel, side, number))
  }

  /** The trade as its row tells it. */
  function TradeTold(env: Env, b: Book, row: ExecutionRow): BookEvent
    requires LastNumber(b) < MAX_U64 && row.price > 0 && row.quantity > 0
  {
    BookEvent.Trade(
      EventMeta(env.bookKey, row.common.sequence, LastNumber(b) + 1, row.common.localTime, row.common.quoteTime),
      TradeReference(env, Buy, row.bidOrderNo), TradeReference(env, Sell, row.askOrderNo), row.price, row.quantity)
  }

  /** A number, if there is one, means an active order that holds the quantity. */
  ghost predicate Holds(env: Env, b: Book, side: Side, number: u64, quantity: nat) {
    number != 0 ==>
      Keyed(env.channel, side, number) in b.orders && quantity <= b.orders[Keyed(env.channel, side, number)].remaining
  }

  ghost predicate TradeAcceptable(env: Env, b: Book, row: ExecutionRow) {
    && row.common.sequence > 0 && LastNumber(b) < MAX_U64 && row.price > 0 && row.quantity > 0
    && Holds(env, b, Buy, row.bidOrderNo, row.quantity) && Holds(env, b, Sell, row.askOrderNo, row.quantity)
    && b.statistics.totalQuantity + row.quantity <= MAX_U64
    && forall key | Emerges(b, TradeTold(env, b, row), key) ::
         b.SideTotal(key.side, false) + b.orders[key].remaining - row.quantity <= MAX_U64
  }

  /** The row's price and quantity enter the statistics. */
  ghost predicate Counts(s: TradeStatistics, price: int, quantity: nat, s': TradeStatistics) {
    && s'.lastPrice.Some? && s'.lastPrice.value == price && s'.highPrice.Some? && s'.lowPrice.Some?
    && s'.highPrice.value == (if s.highPrice.Some? && s.highPrice.value > price then s.highPrice.value else price)
    && s'.lowPrice.value == (if s.lowPrice.Some? && s.lowPrice.value < price then s.lowPrice.value else price)
    && s'.totalQuantity == s.totalQuantity + quantity && s'.tradeCount == s.tradeCount + 1
    && s'.turnover == s.turnover + price * quantity
  }

  /** Whoever the row names loses its quantity, and is gone when nothing is left; nobody else changes. */
  ghost predicate LosesQuantity(env: Env, b: Book, row: ExecutionRow, b': Book, key: OrderKey) {
    var taken := if RowNames(env, row, key) then row.quantity else 0;
    && taken <= Remaining(b.orders, key)
    && (key in b'.orders <==> Remaining(b.orders, key) > taken)
    && (key in b'.orders ==> b'.orders[key].remaining == b.orders[key].remaining - taken
                             && b'.orders[key].original == b.orders[key].original
                             && (taken == 0 ==> b'.orders[key] == b.orders[key]))
  }

  ghost predicate TradeTaken(env: Env, b: Book, row: ExecutionRow, b': Book) {
    && LastNumber(b) < MAX_U64 && row.price > 0 && row.quantity > 0 && Remembers(env, b, row.common, b')
    && TradesOrders(b, TradeTold(env, b, row), b') && Counts(b.statistics, row.price, row.quantity, b'.statistics)
    && forall key :: LosesQuantity(env, b, row, b', key)
  }

  ghost predicate CancelAcceptable(env: Env, b: Book, row: ExecutionRow) {
    && row.common.sequence > 0 && LastNumber(b) < MAX_U64
    && exists key :: CancelNames(env, b, row, key)
  }

  /** One of the numbers is set, and means an active order that still holds exactly the row's quantity. */
  ghost predicate CancelNames(env: Env, b: Book, row: ExecutionRow, key: OrderKey) {
    && RowNames(env, row, key) && (if key.side == Buy then row.askOrderNo else row.bidOrderNo) == 0
    && key in b.orders && b.orders[key].remaining == row.quantity
  }

  ghost predicate CancelTaken(env: Env, b: Book, row: ExecutionRow, b': Book) {
    && LastNumber(b) < MAX_U64 && Remembers(env, b, row.common, b') && b'.statistics == b.statistics
    && (forall key | CancelNames(env, b, row, key) :: b'.orders == b.orders - {key} && LeavesQueue(b, b', key))
    && (exists key :: CancelNames(env, b, row, key))
    && forall key :: LosesQuantity(env, b, row, b', key)
  }

  lemma TradeTellsEvent(env: Env, b: Book, directory: Directory, row: ExecutionRow)
    requires Traceable(env, b, directory) && Usable(env, b, directory, row) && row.executionKind.Trade?
    ensures var event, told := EventOf(env, b, directory, row), TradeTold(env, b, row);
      && event.meta == told.meta && Tradable(b, Reject, event) == TradeAcceptable(env, b, row)
      && (Tradable(b, Reject, event) ==> event == told)
  {
    hide Book.SideTotal, Emerges;
    var event, told := EventOf(env, b, directory, row), TradeTold(env, b, row);
    if Tradable(b, Reject, event) {
      assert event == told;
      forall key | Names(told, key) && key in b.orders ensures row.quantity <= b.orders[key].remaining {
      }
      assert TradeAcceptable(env, b, row);
    }
    if TradeAcceptable(env, b, row) {
      assert event == told;
    }
  }

  lemma TradeLosesQuantity(env: Env, b: Book, row: ExecutionRow, b': Book, key: OrderKey)
    requires b.WellFormed() && LastNumber(b) < MAX_U64 && row.price > 0 && row.quantity > 0
    requires TradesOrders(b, TradeTold(env, b, row), b') && key in b.orders && key.channelId == env.channel
    ensures LosesQuantity(env, b, row, b', key)
  {
    hide QueueTraded, Emerges;
    assert b.OrderWellFormed(key);
    NamesByNumber(env, row, key);
    assert RowNames(env, row, key) <==> Names(TradeTold(env, b, row), key);
  }

  lemma NamesByNumber(env: Env, row: ExecutionRow, key: OrderKey)
    requires key.channelId == env.channel
    ensures RowNames(env, row, key) <==>
      (if key.side == Buy then TradeReference(env, Buy, row.bidOrderNo) else TradeReference(env, Sell, row.askOrderNo))
        == Resolved(key)
  {
  }

  /** A trade row is accepted exactly when its numbers, price and quantity are usable, both numbers mean
      active orders that hold its quantity, and everything it adds to has room. */
  lemma TradeRowAccepted(env: Env, b: Book, directory: Directory, row: ExecutionRow)
    requires b.WellFormed() && Traceable(env, b, directory) && row.executionKind.Trade?
    ensures Takes(env, b, directory, row) <==> TradeAcceptable(env, b, row)
  {
    hide Book.WellFormed, Book.SideTotal, Book.Apply, Tradable, EventOf, Emerges;
    if Usable(env, b, directory, row) {
      var event := EventOf(env, b, directory, row);
      TradeTellsEvent(env, b, directory, row);
      TradeEventKind(env, b, directory, row);
      StepTold(env.Config(), b, Event(event));
    }
  }

  lemma TradeEventKind(env: Env, b: Book, directory: Directory, row: ExecutionRow)
    requires Usable(env, b, directory, row) && row.executionKind.Trade?
    ensures EventOf(env, b, directory, row).Trade?
  {
  }

  /** An accepted trade row has its effect. */
  lemma TradeRowTold(env: Env, b: Book, directory: Directory, row: ExecutionRow)
    requires b.WellFormed() && Traceable(env, b, directory) && row.executionKind.Trade?
    requires Takes(env, b, directory, row)
    ensures TradeTaken(env, b, row, b.Apply(env.Config(), EventOf(env, b, directory, row)).value.0)
  {
    hide Book.WellFormed, Book.SideTotal, Book.Apply, Tradable, EventOf, TradesOrders, LosesQuantity;
    var event := EventOf(env, b, directory, row);
    var b' := b.Apply(env.Config(), event).value.0;
    TradeTellsEvent(env, b, directory, row);
    TradeEventKind(env, b, directory, row);
    StepTold(env.Config(), b, Event(event));
    TradeCounts(env.Config(), b, event);
    forall key ensures LosesQuantity(env, b, row, b', key) {
      if key !in b.orders {
        TradeRowAccepted(env, b, directory, row);
        NobodyLoses(env, b, row, b', key);
      } else {
        TradeLosesQuantity(env, b, row, b', key);
      }
    }
  }

  lemma NobodyLoses(env: Env, b: Book, row: ExecutionRow, b': Book, key: OrderKey)
    requires LastNumber(b) < MAX_U64 && row.price > 0 && row.quantity > 0
    requires key !in b.orders && TradesOrders(b, TradeTold(env, b, row), b') && TradeAcceptable(env, b, row)
    ensures LosesQuantity(env, b, row, b', key)
  {
    hide QueueTraded, Emerges;
  }

  lemma TradeCounts(config: BookConfig, b: Book, event: BookEvent)
    requires event.Trade? && b.Apply(config, event).Ok?
    ensures Counts(b.statistics, event.price, event.quantity, b.Apply(config, event).value.0.statistics)
  {
    hide Book.ApplyTrade, Book.ApplyAdd, Book.ApplyCancel;
    TradeRest(b, config.unknownTradePolicy, event);
  }

  lemma CancelTarget(env: Env, b: Book, directory: Directory, row: ExecutionRow, key: OrderKey)
    requires b.WellFormed() && Traceable(env, b, directory) && row.executionKind.Cancel?
    ensures CoversTarget(b, directory, row) && directory[TargetOf(row)] == key <==> CancelNames(env, b, row, key)
  {
    hide Book.WellFormed;
  }

  /** A cancellation row is accepted exactly when it names one active order with what that still holds. */
  lemma CancelRowAccepted(env: Env, b: Book, directory: Directory, row: ExecutionRow)
    requires b.WellFormed() && Traceable(env, b, directory) && row.executionKind.Cancel?
    ensures Takes(env, b, directory, row) <==> CancelAcceptable(env, b, row)
  {
    hide Book.WellFormed, Book.Apply, Traceable, CancelNames;
    if CoversTarget(b, directory, row) {
      CancelTarget(env, b, directory, row, directory[TargetOf(row)]);
    }
    if CancelAcceptable(env, b, row) {
      var key :| CancelNames(env, b, row, key);
      CancelTarget(env, b, directory, row, key);
    }
    if Usable(env, b, directory, row) {
      StepTold(env.Config(), b, Event(EventOf(env, b, directory, row)));
      CancelTarget(env, b, directory, row, directory[TargetOf(row)]);
      NamedIsActive(env, b, row, directory[TargetOf(row)]);
    }
  }

  lemma NamedIsActive(env: Env, b: Book, row: ExecutionRow, key: OrderKey)
    ensures CancelNames(env, b, row, key) ==> key in b.orders
  {
  }

  /** An accepted cancellation row has its effect. */
  lemma CancelRowTold(env: Env, b: Book, directory: Directory, row: ExecutionRow)
    requires b.WellFormed() && Traceable(env, b, directory) && row.executionKind.Cancel?
    requires Takes(env, b, directory, row)
    ensures CancelTaken(env, b, row, b.Apply(env.Config(), EventOf(env, b, directory, row)).value.0)
  {
    hide Book.WellFormed, Book.Apply, LeavesQueue, CancelNames;
    var event := EventOf(env, b, directory, row);
    var b' := b.Apply(env.Config(), event).value.0;
    var target := directory[TargetOf(row)];
    StepTold(env.Config(), b, Event(event));
    CancelTarget(env, b, directory, row, target);
    forall key | CancelNames(env, b, row, key) ensures key == target {
      CancelTarget(env, b, directory, row, key);
    }
    forall key ensures LosesQuantity(env, b, row, b', key) {
      CancelLoses(env, b, row, b', target, key);
    }
  }

  lemma CancelLoses(env: Env, b: Book, row: ExecutionRow, b': Book, target: OrderKey, key: OrderKey)
    requires b.WellFormed() && CancelNames(env, b, row, target) && b'.orders == b.orders - {target}
    requires key in b.orders ==> key.channelId == env.channel
    ensures LosesQuantity(env, b, row, b', key)
  {
    if key in b.orders {
      assert b.OrderWellFormed(key);
    }
  }

  // ----- any row, behind any rows -----

  ghost predicate RowAcceptable(env: Env, b: Book, row: SpoolRow) {
    if row.OrderRecord? then OrderAcceptable(env, b, row)
    else if row.SseRecord? then false
    else if row.executionKind.Trade? then TradeAcceptable(env, b, row)
    else CancelAcceptable(env, b, row)
  }

  ghost predicate RowTaken(env: Env, b: Book, row: SpoolRow, b': Book) {
    if row.OrderRecord? then OrderTaken(env, b, row, b')
    else if row.SseRecord? then false
    else if row.executionKind.Trade? then TradeTaken(env, b, row, b')
    else CancelTaken(env, b, row, b')
  }

  lemma RowDecided(env: Env, b: Book, directory: Directory, row: SpoolRow)
    requires b.WellFormed() && Traceable(env, b, directory)
    ensures Takes(env, b, directory, row) <==> RowAcceptable(env, b, row)
    ensures Takes(env, b, directory, row) ==>
      RowTaken(env, b, row, b.Apply(env.Config(), EventOf(env, b, directory, row)).value.0)
  {
    hide Book.WellFormed, Traceable, Takes, OrderAcceptable, TradeAcceptable, CancelAcceptable, OrderTaken, TradeTaken;
    hide CancelTaken, EventOf, Book.Apply;
    if row.OrderRecord? {
      OrderRowAccepted(env, b, directory, row);
      if Takes(env, b, directory, row) {
        OrderRowTold(env, b, directory, row);
      }
    } else if row.SseRecord? {
      NoSseRow(env, b, directory, row);
    } else if row.executionKind.Trade? {
      TradeRowAccepted(env, b, directory, row);
      if Takes(env, b, directory, row) {
        TradeRowTold(env, b, directory, row);
      }
    } else {
      CancelRowAccepted(env, b, directory, row);
      if Takes(env, b, directory, row) {
        CancelRowTold(env, b, directory, row);
      }
    }
  }

  lemma NoSseRow(env: Env, b: Book, directory: Directory, row: SpoolRow)
    requires row.SseRecord?
    ensures !Takes(env, b, directory, row)
  {
  }

  lemma RowKeepsTrace(env: Env, b: Book, directory: Directory, row: SpoolRow, b': Book)
    requires Traceable(env, b, directory) && RowTaken(env, b, row, b')
    ensures Traceable(env, b', Noted(env.channel, directory, row))
  {
    hide OrderPlaced, TradesOrders, Counts, LeavesQueue, CancelNames;
    forall key: OrderKey | key in b'.orders
      ensures key.channelId == env.channel
      ensures (key.side, key.orderId as nat) in Noted(env.channel, directory, row)
    {
      if row.OrderRecord? {
        OthersKept(b.orders, b'.orders, Keyed(env.channel, Bidding(row), row.common.sequence), key);
      } else {
        assert LosesQuantity(env, b, row, b', key);
      }
    }
  }

  /** Behind any driven run, the active orders are among those that the rows named. */
  lemma {:induction false} RunTraceable(env: Env, steps: seq<Step>, rows: seq<SpoolRow>)
    requires Drives(env, steps, rows)
    ensures Traceable(env, Run(env.Config(), steps), DirectoryOf(env.channel, rows))
  {
    hide Traceable, Usable, EventOf, Inferred, Book.Apply, Book.RestPending, Book.WellFormed, RowTaken, RowAcceptable;
    if steps == [] {
      NothingTraceable(env);
    } else {
      var before, last := steps[..|steps| - 1], steps[|steps| - 1];
      RunWellFormed(env.Config(), before);
      if last.Event? {
        var b, directory := Run(env.Config(), before), DirectoryOf(env.channel, rows[..|rows| - 1]);
        RunTraceable(env, before, rows[..|rows| - 1]);
        RowDecided(env, b, directory, rows[|rows| - 1]);
        RowKeepsTrace(env, b, directory, rows[|rows| - 1], Run(env.Config(), steps));
      } else {
        RunTraceable(env, before, rows);
        CompletionTrace(env, Run(env.Config(), before), last.key, last.price, DirectoryOf(env.channel, rows));
      }
    }
  }

  lemma NothingTraceable(env: Env)
    ensures Traceable(env, EMPTY, map[])
  {
  }

  lemma CompletionTrace(env: Env, b: Book, key: OrderKey, price: Price, directory: Directory)
    requires Traceable(env, b, directory) && b.RestPending(key, price).Ok?
    ensures Traceable(env, b.RestPending(key, price).value, directory)
    ensures forall k :: Remaining(b.RestPending(key, price).value.orders, k) == Remaining(b.orders, k)
  {
    hide Book.SideTotal, Book.Crosses;
  }

  /** Behind any driven run, the next row is accepted exactly when its own fields allow it, and then has
      the effect that they tell. */
  lemma RowAccepted(env: Env, steps: seq<Step>, rows: seq<SpoolRow>, row: SpoolRow)
    requires Drives(env, steps, rows)
    ensures var b, directory := Run(env.Config(), steps), DirectoryOf(env.channel, rows);
      && (Takes(env, b, directory, row) <==> RowAcceptable(env, b, row))
      && (Takes(env, b, directory, row) ==>
           RowTaken(env, b, row, b.Apply(env.Config(), EventOf(env, b, directory, row)).value.0))
  {
    hide Drives, Run, Takes, RowAcceptable, RowTaken, Traceable, Book.WellFormed;
    RunWellFormed(env.Config(), steps);
    RunTraceable(env, steps, rows);
    RowDecided(env, Run(env.Config(), steps), DirectoryOf(env.channel, rows), row);
  }

  /** The same, for the run that goes on with the row's event. */
  lemma RowTold(env: Env, steps: seq<Step>, rows: seq<SpoolRow>, row: SpoolRow, event: BookEvent)
    requires Drives(env, steps, rows) && Becomes(env, steps, rows, row, event)
    ensures Succeeds(env.Config(), Run(env.Config(), steps), Event(event))
    ensures RowTaken(env, Run(env.Config(), steps), row, Run(env.Config(), steps + [Event(event)]))
  {
    hide Drives, Run, EventOf, RowAcceptable, RowTaken, Usable, Book.Apply;
    RowAccepted(env, steps, rows, row);
    RunStep(env.Config(), steps, Event(event));
  }

  // ----- what the rows of a driven run add up to -----

  /** The trades among the rows. */
  ghost function Dealt(rows: seq<SpoolRow>): seq<(Price, Quantity)> {
    if rows == [] then []
    else
      var row := rows[|rows| - 1];
      Dealt(rows[..|rows| - 1])
        + if row.ExecutionRecord? && row.executionKind.Trade? && row.price > 0 && row.quantity > 0
          then [(row.price, row.quantity)] else []
  }

  /** What the rows brought of one order. */
  ghost function Ordered(env: Env, rows: seq<SpoolRow>, key: OrderKey): nat {
    if rows == [] then 0
    else
      var row := rows[|rows| - 1];
      Ordered(env, rows[..|rows| - 1], key)
        + if row.OrderRecord? && key.channelId == env.channel && key.side == Bidding(row)
             && key.orderId == row.common.sequence then row.quantity else 0
  }

  /** What the rows took from it. */
  ghost function Executed(env: Env, rows: seq<SpoolRow>, key: OrderKey): nat {
    if rows == [] then 0
    else
      var row := rows[|rows| - 1];
      Executed(env, rows[..|rows| - 1], key)
        + if row.ExecutionRecord? && RowNames(env, row, key) then row.quantity else 0
  }

  /** The book that the rows drove: last row, number of rows, statistics of their trades, and for
      every order what came, what is left and what was taken. */
  ghost predicate Accounts(env: Env, b: Book, rows: seq<SpoolRow>) {
    && LastNumber(b) == |rows|
    && (rows == [] <==> b.lastMeta.None?)
    && (rows != [] ==>
         var c := rows[|rows| - 1].common;
         |rows| <= MAX_U64 && b.lastMeta == Some(EventMeta(env.bookKey, c.sequence, |rows|, c.localTime, c.quoteTime)))
    && Summarizes(b.statistics, Dealt(rows))
    && forall key :: KeyAccounts(env, b, rows, key)
  }

  ghost predicate KeyAccounts(env: Env, b: Book, rows: seq<SpoolRow>, key: OrderKey) {
    Ordered(env, rows, key) == Remaining(b.orders, key) + Executed(env, rows, key)
  }

  lemma RowAccounts(env: Env, b: Book, rows: seq<SpoolRow>, row: SpoolRow, b': Book)
    requires Accounts(env, b, rows) && RowTaken(env, b, row, b')
    ensures Accounts(env, b', rows + [row])
  {
    hide OrderPlaced, TradesOrders, LeavesQueue, Summarizes, KeyAccounts;
    assert (rows + [row])[..|rows|] == rows;
    forall key ensures KeyAccounts(env, b', rows + [row], key) {
      assert KeyAccounts(env, b, rows, key);
      RowKeyAccounts(env, b, rows, row, b', key);
    }
    if row.ExecutionRecord? && row.executionKind.Trade? {
      CountsSummarize(b.statistics, Dealt(rows), row.price, row.quantity, b'.statistics);
    } else {
      assert Dealt(rows) + [] == Dealt(rows);
    }
  }

  lemma CountsSummarize(s: TradeStatistics, trades: seq<(Price, Quantity)>, price: Price, quantity: Quantity,
                        s': TradeStatistics)
    requires Summarizes(s, trades) && Counts(s, price, quantity, s')
    ensures Summarizes(s', trades + [(price, quantity)])
  {
    hide Summarizes;
    RecordSummarizes(s, trades, price, quantity);
    assert s' == Record(s, price, quantity);
  }

  lemma RowKeyAccounts(env: Env, b: Book, rows: seq<SpoolRow>, row: SpoolRow, b': Book, key: OrderKey)
    requires KeyAccounts(env, b, rows, key) && RowTaken(env, b, row, b')
    ensures KeyAccounts(env, b', rows + [row], key)
  {
    hide TradesOrders, LeavesQueue, JoinsTail, Counts, CancelNames;
    assert (rows + [row])[..|rows|] == rows;
    if row.OrderRecord? {
      OthersKept(b.orders, b'.orders, Keyed(env.channel, Bidding(row), row.common.sequence), key);
    } else {
      assert LosesQuantity(env, b, row, b', key);
    }
  }

  /** Over any driven run the book is what its rows add up to. */
  lemma {:induction false} RunAccounts(env: Env, steps: seq<Step>, rows: seq<SpoolRow>)
    requires Drives(env, steps, rows)
    ensures Accounts(env, Run(env.Config(), steps), rows)
  {
    hide Accounts, Becomes, Inferred, Book.RestPending, RowTaken, After;
    if steps == [] {
      NothingAccounts(env);
    } else {
      var before, last := steps[..|steps| - 1], steps[|steps| - 1];
      assert steps == before + [last];
      if last.Event? {
        var earlier := rows[..|rows| - 1];
        assert rows == earlier + [rows[|rows| - 1]];
        RunAccounts(env, before, earlier);
        RowTold(env, before, earlier, rows[|rows| - 1], last.event);
        RowAccounts(env, Run(env.Config(), before), earlier, rows[|rows| - 1], Run(env.Config(), steps));
      } else {
        RunAccounts(env, before, rows);
        CompletionAccounts(env, Run(env.Config(), before), last.key, last.price, rows);
        RunStep(env.Config(), before, last);
        CompletedStep(env.Config(), Run(env.Config(), before), last);
      }
    }
  }

  lemma CompletedStep(config: BookConfig, b: Book, step: Step)
    requires step.Completion? && b.RestPending(step.key, step.price).Ok?
    ensures After(config, b, step) == b.RestPending(step.key, step.price).value
  {
  }

  lemma NothingAccounts(env: Env)
    ensures Accounts(env, EMPTY, [])
  {
  }

  lemma CompletionAccounts(env: Env, b: Book, key: OrderKey, price: Price, rows: seq<SpoolRow>)
    requires Accounts(env, b, rows) && b.RestPending(key, price).Ok?
    ensures Accounts(env, b.RestPending(key, price).value, rows)
  {
    hide Summarizes, Book.SideTotal, Book.Crosses, Dealt, Ordered, Executed;
    var b' := b.RestPending(key, price).value;
    forall k ensures KeyAccounts(env, b', rows, k) {
      assert KeyAccounts(env, b, rows, k);
    }
  }

  // ----- market remainders -----

  /** How the order of a row is added. */
  predicate AddedByRow(policy: Policy, row: OrderRow, crossing: CrossingBehavior) {
    match row.orderKind
    case Limit => crossing.Rest?
    case SameSideBest => crossing.Rest? || crossing.AlwaysHide?
    case Market => if policy.RestAtLastPrice? then crossing.RestAtLastTradePrice? else crossing.AlwaysHide?
  }

  lemma RowAddsAs(env: Env, steps: seq<Step>, rows: seq<SpoolRow>, row: OrderRow, event: BookEvent)
    requires Becomes(env, steps, rows, row, event)
    ensures row.common.sequence > 0 && Adds(Event(event), Keyed(env.channel, Bidding(row), row.common.sequence))
    ensures AddedByRow(env.policy, row, event.crossing)
  {
    hide Run, Book.Apply, DirectoryOf, Available;
  }

  lemma AddedOnce(config: BookConfig, steps: seq<Step>, step: Step, key: OrderKey)
    requires AddedAs(config, steps, key).Some?
    ensures AddedAs(config, steps + [step], key) == AddedAs(config, steps, key)
  {
    hide Run, Book.WellFormed, OrderMarked, Succeeds, PricedAs, RestsAtOnce;
    assert (steps + [step])[..|steps|] == steps;
    RunWellFormed(config, steps);
    RunMarks(config, steps, key);
    StepTold(config, Run(config, steps), step);
  }

  /** Over any driven run, an order was added as the kind of its row says. */
  lemma {:induction false} RunAddsAs(env: Env, steps: seq<Step>, rows: seq<SpoolRow>, i: nat)
    requires Drives(env, steps, rows) && i < |rows| && rows[i].OrderRecord?
    ensures 0 < rows[i].common.sequence
    ensures var added := AddedAs(env.Config(), steps, Keyed(env.channel, Bidding(rows[i]), rows[i].common.sequence));
            added.Some? && AddedByRow(env.policy, rows[i], added.value)
  {
    hide Becomes, Inferred, Book.RestPending, AddedByRow, Adds, Run, AddedAs;
    var before, last := steps[..|steps| - 1], steps[|steps| - 1];
    assert steps == before + [last];
    if last.Event? && i == |rows| - 1 {
      RowTold(env, before, rows[..i], rows[i], last.event);
      RowAddsAs(env, before, rows[..i], rows[i], last.event);
      AddedLast(env.Config(), before, last, Keyed(env.channel, Bidding(rows[i]), rows[i].common.sequence));
    } else {
      RunAddsAs(env, before, if last.Event? then rows[..|rows| - 1] else rows, i);
      AddedOnce(env.Config(), before, last, Keyed(env.channel, Bidding(rows[i]), rows[i].common.sequence));
    }
  }

  lemma AddedLast(config: BookConfig, steps: seq<Step>, step: Step, key: OrderKey)
    requires Adds(step, key) && Succeeds(config, Run(config, steps), step)
    ensures AddedAs(config, steps + [step], key) == Some(step.event.crossing)
  {
    hide Run, Succeeds;
    assert (steps + [step])[..|steps|] == steps;
  }

  lemma TradeNames(env: Env, steps: seq<Step>, rows: seq<SpoolRow>, row: ExecutionRow, event: BookEvent, key: OrderKey)
    requires Drives(env, steps, rows) && Becomes(env, steps, rows, row, event) && row.executionKind.Trade?
    ensures event.Trade? && event.price == row.price && event.quantity == row.quantity
    ensures RowNames(env, row, key) ==> Names(event, key)
  {
    hide Run, Drives, Usable, EventOf, DirectoryOf, Traceable, Tradable, TradeAcceptable, Book.Apply, Book.WellFormed;
    var b, directory := Run(env.Config(), steps), DirectoryOf(env.channel, rows);
    RunWellFormed(env.Config(), steps);
    RunTraceable(env, steps, rows);
    TradeRowAccepted(env, b, directory, row);
    TradeTellsEvent(env, b, directory, row);
    TradeEventKind(env, b, directory, row);
    StepTold(env.Config(), b, Event(event));
    if RowNames(env, row, key) {
      NamesByNumber(env, row, key);
    }
  }

  /** Where market orders rest at their last trade, a market order that a trade row leaves something of
      stands at the price of the row, and rests there exactly when the book it left does not meet it. */
  lemma MarketRemainder(env: Env, steps: seq<Step>, rows: seq<SpoolRow>, row: ExecutionRow, event: BookEvent, i: nat)
    requires Drives(env, steps, rows) && Becomes(env, steps, rows, row, event) && row.executionKind.Trade?
    requires i < |rows| && rows[i].OrderRecord? && rows[i].orderKind.Market? && env.policy.RestAtLastPrice?
    requires 0 < rows[i].common.sequence
    requires var key := Keyed(env.channel, Bidding(rows[i]), rows[i].common.sequence);
             RowNames(env, row, key) && key in Run(env.Config(), steps + [Event(event)]).orders
    ensures var key := Keyed(env.channel, Bidding(rows[i]), rows[i].common.sequence);
            var b, b' := Run(env.Config(), steps), Run(env.Config(), steps + [Event(event)]);
            && key in b.orders && b'.orders[key].price.Some?
            && (!b.orders[key].resting ==>
                 && b'.orders[key].price.value == row.price
                 && (b'.orders[key].resting <==> !Meets(key.side, b'.orders[key].price.value, Across(b', key.side))))
            && (b.orders[key].resting ==> b'.orders[key].resting && b'.orders[key].price == b.orders[key].price)
  {
    hide Run, Becomes, Meets, Drives, After, Succeeds, AddedAs, Completed;
    var key := Keyed(env.channel, Bidding(rows[i]), rows[i].common.sequence);
    RowTold(env, steps, rows, row, event);
    RunAddsAs(env, steps, rows, i);
    TradeNames(env, steps, rows, row, event, key);
    RunStep(env.Config(), steps, Event(event));
    TradedParty(env.Config(), steps, event, key);
    RunMarks(env.Config(), steps, key);
  }
}
