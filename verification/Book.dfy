/** The order book as its documentation describes it: one FIFO queue per price, hidden orders
    beside them, and events that change one order at a time. Nothing is planned ahead: a trade
    reduces both orders and only then looks at the resulting book to decide who may rest. */
module Book {
  import opened Wrappers
  import opened MarketData
  import opened Depth
  import opened Queues

  datatype Book = Book(
    orders: Orders, bids: Levels, asks: Levels, seen: set<OrderKey>,
    statistics: TradeStatistics, lastMeta: Option<EventMeta>, revision: nat)
  {
    function LevelsOf(side: Side): Levels {
      if side.Buy? then bids else asks
    }

    function WithSide(side: Side, levels: Levels): Book {
      if side.Buy? then this.(bids := levels) else this.(asks := levels)
    }

    function Best(side: Side): Option<Price> {
      BestOf(side, LevelsOf(side).Keys)
    }

    function SideTotal(side: Side, weighted: bool): nat {
      Total(DepthOf(orders, LevelsOf(side)), weighted)
    }

    predicate Crosses(side: Side, price: Price) {
      var best := Best(side.Opposite());
      best.Some? && !side.Opposite().Better(price, best.value)
    }

    ghost predicate Uncrossed() {
      forall bid, ask | bid in bids && ask in asks :: bid < ask
    }

    ghost predicate Hidden(key: OrderKey) {
      key in orders && !orders[key].resting
    }

    ghost predicate OrderWellFormed(key: OrderKey)
      requires key in orders
    {
      && 0 < orders[key].remaining <= orders[key].original
      && key in seen
      && (orders[key].resting ==>
          orders[key].price.Some? && key in QueueAt(LevelsOf(key.side), orders[key].price.value))
    }

    /** The queues and the orders describe each other. */
    ghost predicate Structured() {
      && LevelsWellFormed(orders, Buy, bids)
      && LevelsWellFormed(orders, Sell, asks)
      && forall k | k in orders :: OrderWellFormed(k)
    }

    ghost predicate WellFormed() {
      && Structured()
      && SideTotal(Buy, false) <= MAX_U64
      && SideTotal(Sell, false) <= MAX_U64
      && StatisticsBounded(statistics)
      && revision <= MAX_U64
    }

    /** `key` leaves hiding and joins the tail of the queue at `price`. */
    function Attach(key: OrderKey, price: Price): Book
      requires key in orders
    {
      var order := orders[key].(price := Some(price), resting := true);
      this.(orders := orders[key := order])
          .WithSide(key.side, LevelsOf(key.side)[price := QueueAt(LevelsOf(key.side), price) + [key]])
    }

    /** `key` is gone: from its queue when it rested, and from the book. */
    function Remove(key: OrderKey): Book
      requires key in orders
    {
      var order := orders[key];
      var b := if order.resting && order.price.Some?
               then WithSide(key.side, Leave(LevelsOf(key.side), order.price.value, key)) else this;
      b.(orders := orders - {key})
    }

    /** A trade takes `quantity` from `key`; a hidden order may take over the trade price. */
    function Fill(key: OrderKey, quantity: Quantity, tradePrice: Price): Book
      requires key in orders && quantity <= orders[key].remaining
    {
      var order := orders[key];
      if order.remaining == quantity then Remove(key)
      else
        var price := if !order.resting && order.repriceFromTrade then Some(tradePrice) else order.price;
        this.(orders := orders[key := order.(remaining := order.remaining - quantity, price := price)])
    }

    predicate MayReenter(key: OrderKey) {
      && key in orders
      && !orders[key].resting
      && orders[key].allowReentry
      && orders[key].price.Some?
      && !Crosses(key.side, orders[key].price.value)
    }

    function TryAttach(key: OrderKey, price: Price): Result<Book, BookError>
      requires key in orders
    {
      if SideTotal(key.side, false) + orders[key].remaining > MAX_U64
      then Err(ArithmeticOverflow(SideQuantity))
      else Ok(Attach(key, price))
    }

    /** The remainder of a hidden order rests as soon as it no longer crosses. */
    function Reenter(key: Option<OrderKey>): Result<Book, BookError> {
      if key.Some? && MayReenter(key.value)
      then TryAttach(key.value, orders[key.value].price.value)
      else Ok(this)
    }

    function FillSide(key: Option<OrderKey>, quantity: Quantity, tradePrice: Price): Result<Book, BookError> {
      if key.None? || key.value !in orders then Ok(this)
      else if orders[key.value].remaining < quantity
      then Err(TradeOverfill(key.value, orders[key.value].remaining, quantity))
      else Ok(Fill(key.value, quantity, tradePrice))
    }

    function ResolvePrice(side: Side, pricing: PricingInstruction): Result<Option<Price>, BookError> {
      match pricing
      case Provided(price) => Ok(Some(price))
      case Unpriced => Ok(None)
      case SameSideBest =>
        if Best(side).Some? then Ok(Best(side)) else Err(ReferencePriceUnavailable(side, pricing))
      case OppositeBest =>
        if Best(side.Opposite()).Some? then Ok(Best(side.Opposite()))
        else Err(ReferencePriceUnavailable(side, pricing))
    }

    /** The active order a trade refers to, or the identity that is not active. */
    function Resolve(reference: OrderReference, side: Side): Result<Party, BookError> {
      match reference
      case Absent => Ok(Party(None, None))
      case Unresolved(actual, id) =>
        if actual != side then Err(InvalidTradeReferenceSide(side, actual))
        else Ok(Party(None, Some((actual, id))))
      case Resolved(key) =>
        if key.side != side then Err(InvalidTradeReferenceSide(side, key.side))
        else if key in orders then Ok(Party(Some(key), None))
        else Ok(Party(None, Some((key.side, key.orderId))))
    }

    function ApplyAdd(event: BookEvent): Result<(Book, ApplyOutcome), BookError>
      requires event.AddOrder?
    {
      var key := event.orderKey;
      if key in seen then Err(DuplicateOrder(key)) else
      var price :- ResolvePrice(key.side, event.pricing);
      var hidden := match event.crossing
        case AlwaysHide => true
        case RestAtLastTradePrice => true
        case HideIfCrossing => price.Some? && Crosses(key.side, price.value)
        case Rest => false;
      var order := Order(price, event.quantity, event.quantity, false,
        event.crossing.HideIfCrossing? || event.crossing.RestAtLastTradePrice?,
        event.crossing.RestAtLastTradePrice?);
      var added := this.(orders := orders[key := order], seen := seen + {key});
      if hidden then Ok((added, Added(key, price, event.quantity, false)))
      else if price.None? then Err(UnpricedVisibleOrder)
      else
        var rested :- added.TryAttach(key, price.value);
        Ok((rested, Added(key, price, event.quantity, true)))
    }

    function ApplyCancel(event: BookEvent): Result<(Book, ApplyOutcome), BookError>
      requires event.OrderCancel?
    {
      var key := event.orderKey;
      if key !in orders then Err(UnknownCancellation(key))
      else Ok((Remove(key), Cancelled(key, orders[key].remaining)))
    }

    function ApplyTrade(policy: UnknownTradePolicy, event: BookEvent): Result<(Book, ApplyOutcome), BookError>
      requires event.Trade?
    {
      var bid :- Resolve(event.bidOrder, Buy);
      var ask :- Resolve(event.askOrder, Sell);
      if policy.Reject? && bid.unknown.Some? then
        Err(UnknownTradeReference(bid.unknown.value.0, bid.unknown.value.1))
      else if policy.Reject? && ask.unknown.Some? then
        Err(UnknownTradeReference(ask.unknown.value.0, ask.unknown.value.1))
      else
        var bidFilled :- FillSide(bid.key, event.quantity, event.price);
        var filled :- bidFilled.FillSide(ask.key, event.quantity, event.price);
        if statistics.totalQuantity + event.quantity > MAX_U64 then Err(ArithmeticOverflow(TotalTradeQuantity))
        else
          var traded := filled.(statistics := Record(statistics, event.price, event.quantity));
          var bidRested :- traded.Reenter(bid.key);
          var rested :- bidRested.Reenter(ask.key);
          Ok((rested, Traded(if bid.key.Some? then event.quantity else 0,
                             if ask.key.Some? then event.quantity else 0)))
    }

    function NextApplySequence(): Result<ApplySequence, BookError> {
      if lastMeta.None? then Ok(1)
      else if lastMeta.value.applySequence == MAX_U64 then Err(ApplySequenceOverflow)
      else Ok(lastMeta.value.applySequence + 1)
    }

    function NextRevision(): nat {
      if revision < MAX_U64 then revision + 1 else MAX_U64
    }

    function Apply(config: BookConfig, event: BookEvent): Result<(Book, ApplyOutcome), BookError> {
      if event.meta.bookKey != config.bookKey then Err(BookKeyMismatch(config.bookKey, event.meta.bookKey))
      else
        var expected :- NextApplySequence();
        if event.meta.applySequence != expected
        then Err(InvalidApplySequence(expected, event.meta.applySequence))
        else
          var (next, outcome) :- match event
            case AddOrder(_, _, _, _, _) => ApplyAdd(event)
            case OrderCancel(_, _) => ApplyCancel(event)
            case Trade(_, _, _, _, _) => ApplyTrade(config.unknownTradePolicy, event);
          Ok((next.(lastMeta := Some(event.meta), revision := NextRevision()), outcome))
    }

    /** The adapter-only completion of a pending group. */
    function RestPending(key: OrderKey, price: Price): Result<Book, BookError> {
      if key !in orders then Err(UnknownCancellation(key))
      else if orders[key].resting || orders[key].allowReentry then Err(InvariantViolation(NotPending))
      else if Crosses(key.side, price) then Err(InvariantViolation(RemainderCrosses))
      else
        var rested :- TryAttach(key, price);
        Ok(rested.(revision := NextRevision()))
    }
  }

  /** A trade reference looked up in the book. */
  datatype Party = Party(key: Option<OrderKey>, unknown: Option<(Side, OrderId)>)

  const EMPTY := Book(map[], map[], map[], {}, NO_TRADES, None, 0)

  function Record(s: TradeStatistics, price: Price, quantity: Quantity): TradeStatistics {
    TradeStatistics(
      Some(price),
      Some(if s.highPrice.None? || s.highPrice.value < price then price else s.highPrice.value),
      Some(if s.lowPrice.None? || price < s.lowPrice.value then price else s.lowPrice.value),
      s.totalQuantity + quantity, s.turnover + price * quantity, s.tradeCount + 1)
  }

  /** Bounds that make the turnover and count checks of the source succeed. */
  ghost predicate StatisticsBounded(s: TradeStatistics) {
    && s.tradeCount <= s.totalQuantity <= MAX_U64
    && s.turnover <= MAX_I64 * s.totalQuantity
  }
}
