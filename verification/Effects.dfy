/** What each event does to a book, told by the event: who is added, changed or gone, at which price,
    and who rests. Nothing here goes through the functions that compute the new book. */
module Effects {
  import opened Wrappers
  import opened MarketData
  import opened Depth
  import opened Queues
  import opened Book
  import opened BookInvariants
  import opened Trades
  import opened BookRuns
  import opened Fifo
  import opened HiddenOrders

  function Own(b: Book, side: Side): Levels {
    if side == Buy then b.bids else b.asks
  }

  function Across(b: Book, side: Side): Levels {
    if side == Buy then b.asks else b.bids
  }

  /** Some level would trade with an order of this side at this price. */
  ghost predicate Meets(side: Side, price: Price, across: Levels) {
    exists p: Price :: p in across && if side == Buy then p <= price else price <= p
  }

  /** The price that heads a side. */
  ghost predicate Heads(side: Side, price: Price, own: Levels) {
    price in own && forall p | p in own :: if side == Buy then p <= price else price <= p
  }

  lemma CrossesMeets(b: Book, side: Side, price: Price)
    ensures b.Crosses(side, price) <==> Meets(side, price, Across(b, side))
  {
  }

  lemma BestHeads(b: Book, side: Side)
    ensures b.Best(side).Some? <==> Own(b, side) != map[]
    ensures b.Best(side).Some? ==> Heads(side, b.Best(side).value, Own(b, side))
  {
  }

  lemma OneHead(side: Side, a: Price, b: Price, own: Levels)
    requires Heads(side, a, own) && Heads(side, b, own)
    ensures a == b
  {
  }

  // ----- adding -----

  /** The effective price of an order: its own, the head of its own side or of the other, or none. */
  ghost predicate PricedAs(b: Book, side: Side, pricing: PricingInstruction, price: Option<Price>) {
    match pricing
    case Provided(p) => price == Some(p)
    case SameSideBest => price.Some? && Heads(side, price.value, Own(b, side))
    case OppositeBest => price.Some? && Heads(if side == Buy then Sell else Buy, price.value, Across(b, side))
    case Unpriced => price.None?
  }

  /** Who rests on arrival: always, or while no opposite level meets the price, or not at all. */
  ghost predicate RestsAtOnce(b: Book, side: Side, crossing: CrossingBehavior, price: Option<Price>) {
    match crossing
    case Rest => true
    case HideIfCrossing => price.None? || !Meets(side, price.value, Across(b, side))
    case RestAtLastTradePrice => false
    case AlwaysHide => false
  }

  /** `key` is behind everybody at `price`, and all other queues are as they were. */
  ghost predicate JoinsTail(b: Book, b': Book, key: OrderKey, price: Price) {
    && Own(b', key.side) == Own(b, key.side)[price := QueueAt(Own(b, key.side), price) + [key]]
    && Across(b', key.side) == Across(b, key.side)
  }

  ghost predicate SameQueues(b: Book, b': Book) {
    b'.bids == b.bids && b'.asks == b.asks
  }

  ghost predicate AddsOrder(b: Book, event: BookEvent, b': Book)
    requires event.AddOrder?
  {
    var key := event.orderKey;
    && key !in b.seen && b'.seen == b.seen + {key} && b'.statistics == b.statistics
    && key in b'.orders && b'.orders - {key} == b.orders
    && var o := b'.orders[key];
       && o.original == event.quantity && o.remaining == event.quantity
       && PricedAs(b, key.side, event.pricing, o.price)
       && (o.resting <==> RestsAtOnce(b, key.side, event.crossing, o.price))
       && (if o.resting then o.price.Some? && JoinsTail(b, b', key, o.price.value) else SameQueues(b, b'))
  }

  /** An order can be added when its key is new, its price is known where one is asked for, and the
      side has room for it where it rests. */
  ghost predicate Addable(b: Book, event: BookEvent)
    requires event.AddOrder?
  {
    var side := event.orderKey.side;
    && event.orderKey !in b.seen
    && exists price: Option<Price> :: PricedAs(b, side, event.pricing, price)
         && (RestsAtOnce(b, side, event.crossing, price) ==>
              price.Some? && b.SideTotal(side, false) + event.quantity <= MAX_U64)
  }

  lemma PriceResolves(b: Book, side: Side, pricing: PricingInstruction)
    ensures b.ResolvePrice(side, pricing).Ok? ==> PricedAs(b, side, pricing, b.ResolvePrice(side, pricing).value)
    ensures b.ResolvePrice(side, pricing).Ok? <==> exists price: Option<Price> :: PricedAs(b, side, pricing, price)
    ensures forall price: Option<Price> | PricedAs(b, side, pricing, price) ::
      b.ResolvePrice(side, pricing) == Ok(price)
  {
    BestHeads(b, Buy);
    BestHeads(b, Sell);
    forall price: Option<Price> | PricedAs(b, side, pricing, price) ensures b.ResolvePrice(side, pricing) == Ok(price) {
      if pricing.SameSideBest? {
        OneHead(side, price.value, b.Best(side).value, Own(b, side));
      } else if pricing.OppositeBest? {
        OneHead(side.Opposite(), price.value, b.Best(side.Opposite()).value, Across(b, side));
      }
    }
    if b.ResolvePrice(side, pricing).Ok? {
      assert PricedAs(b, side, pricing, b.ResolvePrice(side, pricing).value);
    }
  }

  lemma HidingAddsNothing(b: Book, key: OrderKey, order: Order)
    requires b.WellFormed() && key !in b.seen && !order.resting
    ensures var b' := b.(orders := b.orders[key := order], seen := b.seen + {key});
            forall side :: b'.SideTotal(side, false) == b.SideTotal(side, false)
  {
    hide Book.WellFormed, Book.SideTotal;
    FreshKey(b, key);
    HideKeepsTotals(b, key, order);
  }

  /** Adding succeeds exactly when the order can be added. */
  lemma AddDecides(b: Book, event: BookEvent)
    requires b.WellFormed() && event.AddOrder?
    ensures b.ApplyAdd(event).Ok? <==> Addable(b, event)
  {
    hide Book.WellFormed, Book.SideTotal, BestOf, Book.Crosses, Book.ResolvePrice, PricedAs, Meets, Book.Attach;
    var key := event.orderKey;
    PriceResolves(b, key.side, event.pricing);
    if key !in b.seen && b.ResolvePrice(key.side, event.pricing).Ok? {
      var price := b.ResolvePrice(key.side, event.pricing).value;
      FreshKey(b, key);
      if price.Some? {
        CrossesMeets(b, key.side, price.value);
      }
      var order := Order(price, event.quantity, event.quantity, false,
        event.crossing.HideIfCrossing? || event.crossing.RestAtLastTradePrice?, event.crossing.RestAtLastTradePrice?);
      HidingAddsNothing(b, key, order);
    }
  }

  /** What was added has the effect that the event tells. */
  lemma AddEffect(b: Book, event: BookEvent)
    requires b.WellFormed() && event.AddOrder? && b.ApplyAdd(event).Ok?
    ensures var (b', outcome) := b.ApplyAdd(event).value;
      && AddsOrder(b, event, b')
      && outcome == ApplyOutcome.Added(event.orderKey, b'.orders[event.orderKey].price, event.quantity,
                                       b'.orders[event.orderKey].resting)
  {
    hide Book.WellFormed, Book.SideTotal, BestOf, Book.Crosses, Book.ResolvePrice, PricedAs, Meets;
    var key := event.orderKey;
    PriceResolves(b, key.side, event.pricing);
    var price := b.ResolvePrice(key.side, event.pricing).value;
    FreshKey(b, key);
    if price.Some? {
      CrossesMeets(b, key.side, price.value);
    }
  }

  // ----- leaving and completing -----

  /** `key` left its queue, wherever it stood, and everybody else stands as before. */
  ghost predicate LeavesQueue(b: Book, b': Book, key: OrderKey) {
    forall side, p: Price :: LeavesQueueAt(b, b', key, side, p)
  }

  ghost predicate LeavesQueueAt(b: Book, b': Book, key: OrderKey, side: Side, p: Price) {
    var queue, queue' := QueueAt(Own(b, side), p), QueueAt(Own(b', side), p);
    if key in queue then exists i: nat :: i < |queue| && queue[i] == key && queue' == queue[..i] + queue[i + 1..]
    else queue' == queue
  }

  ghost predicate CancelsOrder(b: Book, event: BookEvent, b': Book)
    requires event.OrderCancel?
  {
    && b'.orders == b.orders - {event.orderKey} && LeavesQueue(b, b', event.orderKey)
    && b'.seen == b.seen && b'.statistics == b.statistics
  }

  /** Who rests waits at its own price and nowhere else; who hides waits nowhere. */
  lemma WaitsAtPrice(b: Book, key: OrderKey, side: Side, p: Price)
    requires b.WellFormed()
    ensures key in QueueAt(Own(b, side), p) <==>
      key in b.orders && b.orders[key].resting && b.orders[key].price == Some(p) && key.side == side
    ensures Distinct(QueueAt(Own(b, side), p))
  {
    hide Total, QueueTotal;
    if p in Own(b, side) {
      assert QueueWellFormed(b.orders, side, p, Own(b, side)[p]);
    }
    if key in b.orders {
      assert b.OrderWellFormed(key);
    }
  }

  lemma RemoveLeaves(b: Book, key: OrderKey, side: Side, p: Price)
    requires b.WellFormed() && key in b.orders
    ensures LeavesQueueAt(b, b.Remove(key), key, side, p)
  {
    hide Book.WellFormed, Without, Book.Remove;
    RemoveQueues(b, key, side, p);
    WaitsAtPrice(b, key, side, p);
    var queue := QueueAt(Own(b, side), p);
    if key in queue {
      var i: nat :| i < |queue| && queue[i] == key;
      WithoutAt(queue, i);
    }
  }

  /** A cancellation succeeds exactly for an active order, which leaves with what it still held. */
  lemma CancelEffect(b: Book, event: BookEvent)
    requires b.WellFormed() && event.OrderCancel?
    ensures b.ApplyCancel(event).Ok? <==> event.orderKey in b.orders
    ensures b.ApplyCancel(event).Ok? ==>
      var (b', outcome) := b.ApplyCancel(event).value;
      && CancelsOrder(b, event, b')
      && outcome == ApplyOutcome.Cancelled(event.orderKey, b.orders[event.orderKey].remaining)
  {
    hide Book.WellFormed, Book.Remove, LeavesQueueAt;
    if event.orderKey in b.orders {
      RemoveRest(b, event.orderKey);
      RemoveKeys(b, event.orderKey);
      forall side, p: Price ensures LeavesQueueAt(b, b.Remove(event.orderKey), event.orderKey, side, p) {
        RemoveLeaves(b, event.orderKey, side, p);
      }
    }
  }

  ghost predicate CompletesOrder(b: Book, key: OrderKey, price: Price, b': Book) {
    && key in b.orders && key in b'.orders && b'.orders - {key} == b.orders - {key}
    && b'.orders[key] == b.orders[key].(price := Some(price), resting := true)
    && JoinsTail(b, b', key, price) && b'.seen == b.seen && b'.statistics == b.statistics
  }

  /** A pending order can be completed where no opposite level meets the price and there is room. */
  ghost predicate Completable(b: Book, key: OrderKey, price: Price) {
    && key in b.orders && !b.orders[key].resting && !b.orders[key].allowReentry
    && !Meets(key.side, price, Across(b, key.side))
    && b.SideTotal(key.side, false) + b.orders[key].remaining <= MAX_U64
  }

  lemma CompletionEffect(b: Book, key: OrderKey, price: Price)
    ensures b.RestPending(key, price).Ok? <==> Completable(b, key, price)
    ensures b.RestPending(key, price).Ok? ==> CompletesOrder(b, key, price, b.RestPending(key, price).value)
  {
    hide Book.SideTotal, Book.Crosses, Meets;
    CrossesMeets(b, key.side, price);
  }

  // ----- trading -----

  /** A reference names nobody, or somebody of its own side. */
  ghost predicate OnSide(reference: OrderReference, side: Side) {
    match reference
    case Absent => true
    case Resolved(key) => key.side == side
    case Unresolved(actual, _) => actual == side
  }

  ghost predicate Names(event: BookEvent, key: OrderKey)
    requires event.Trade?
  {
    event.bidOrder == Resolved(key) || event.askOrder == Resolved(key)
  }

  /** The active order that a reference names. */
  ghost function Named(b: Book, reference: OrderReference): Option<OrderKey> {
    if reference.Resolved? && reference.key in b.orders then Some(reference.key) else None
  }

  /** Whoever is not a party that the trade uses up stays in the book. */
  ghost predicate Survives(b: Book, event: BookEvent, key: OrderKey)
    requires event.Trade?
  {
    key in b.orders && !(Names(event, key) && b.orders[key].remaining == event.quantity)
  }

  /** The limit of a party behind the trade: a hidden one may have to follow the trade price. */
  ghost function LimitAfter(b: Book, event: BookEvent, key: OrderKey): Option<Price>
    requires event.Trade? && key in b.orders
  {
    if !b.orders[key].resting && b.orders[key].repriceFromTrade then Some(event.price) else b.orders[key].price
  }

  ghost predicate Blocks(b: Book, event: BookEvent, side: Side, price: Price, key: OrderKey)
    requires event.Trade?
  {
    && Survives(b, event, key) && key.side != side && b.orders[key].resting && b.orders[key].price.Some?
    && if side == Buy then b.orders[key].price.value <= price else price <= b.orders[key].price.value
  }

  /** Somebody who rests on the other side, and goes on resting, meets the price. */
  ghost predicate Blocked(b: Book, event: BookEvent, side: Side, price: Price)
    requires event.Trade?
  {
    exists key :: Blocks(b, event, side, price, key)
  }

  /** A hidden party with something left, which may rest and knows a price that nobody meets. */
  ghost predicate MayEmerge(b: Book, event: BookEvent, key: OrderKey)
    requires event.Trade?
  {
    && Survives(b, event, key) && Names(event, key) && !b.orders[key].resting && b.orders[key].allowReentry
    && LimitAfter(b, event, key).Some? && !Blocked(b, event, key.side, LimitAfter(b, event, key).value)
  }

  /** The buyer comes first; the seller also looks at where the buyer came to rest. */
  ghost predicate Emerges(b: Book, event: BookEvent, key: OrderKey)
    requires event.Trade?
  {
    && MayEmerge(b, event, key)
    && (key.side == Sell && event.bidOrder.Resolved? && MayEmerge(b, event, event.bidOrder.key) ==>
         LimitAfter(b, event, event.bidOrder.key).value < LimitAfter(b, event, key).value)
  }

  /** A trade can happen when its references are on their sides (and known where that is asked for),
      the parties hold its quantity, the total has room, and so have the sides of those who emerge. */
  ghost predicate Tradable(b: Book, policy: UnknownTradePolicy, event: BookEvent)
    requires event.Trade?
  {
    && OnSide(event.bidOrder, Buy) && OnSide(event.askOrder, Sell)
    && (policy.Reject? ==>
         && (event.bidOrder.Absent? || Named(b, event.bidOrder).Some?)
         && (event.askOrder.Absent? || Named(b, event.askOrder).Some?))
    && (forall key | Names(event, key) && key in b.orders :: event.quantity <= b.orders[key].remaining)
    && b.statistics.totalQuantity + event.quantity <= MAX_U64
    && forall key | Emerges(b, event, key) ::
         b.SideTotal(key.side, false) + b.orders[key].remaining - event.quantity <= MAX_U64
  }

  /** What the trade leaves of one of the orders. */
  ghost function OrderAfter(b: Book, event: BookEvent, key: OrderKey): Order
    requires event.Trade? && Survives(b, event, key)
    requires Names(event, key) ==> event.quantity <= b.orders[key].remaining
  {
    var was := b.orders[key];
    if !Names(event, key) then was
    else was.(remaining := was.remaining - event.quantity, price := LimitAfter(b, event, key),
              resting := was.resting || Emerges(b, event, key))
  }

  /** Who is left of a queue, in order. */
  ghost function Remainder(b: Book, event: BookEvent, queue: seq<OrderKey>): seq<OrderKey>
    requires event.Trade?
  {
    if queue == [] then []
    else (if Survives(b, event, queue[0]) then [queue[0]] else []) + Remainder(b, event, queue[1..])
  }

  /** The party that comes to rest at this price. */
  ghost function Arriving(b: Book, event: BookEvent, reference: OrderReference, p: Price): seq<OrderKey>
    requires event.Trade?
  {
    if reference.Resolved? && Emerges(b, event, reference.key) && LimitAfter(b, event, reference.key) == Some(p)
    then [reference.key] else []
  }

  ghost predicate QueueTraded(b: Book, event: BookEvent, b': Book, p: Price)
    requires event.Trade?
  {
    && QueueAt(b'.bids, p) == Remainder(b, event, QueueAt(b.bids, p)) + Arriving(b, event, event.bidOrder, p)
    && QueueAt(b'.asks, p) == Remainder(b, event, QueueAt(b.asks, p)) + Arriving(b, event, event.askOrder, p)
  }

  ghost predicate TradesOrders(b: Book, event: BookEvent, b': Book)
    requires event.Trade?
  {
    && (forall key | Names(event, key) && key in b.orders :: event.quantity <= b.orders[key].remaining)
    && (forall key :: key in b'.orders <==> Survives(b, event, key))
    && (forall key | key in b'.orders :: b'.orders[key] == OrderAfter(b, event, key))
    && (forall p: Price :: QueueTraded(b, event, b', p))
    && b'.seen == b.seen
  }

  lemma ReferenceNames(b: Book, reference: OrderReference, side: Side)
    ensures b.Resolve(reference, side).Ok? <==> OnSide(reference, side)
    ensures b.Resolve(reference, side).Ok? ==>
      && b.Resolve(reference, side).value.key == Named(b, reference)
      && (b.Resolve(reference, side).value.unknown.None? <==> reference.Absent? || Named(b, reference).Some?)
      && (Named(b, reference).Some? ==> reference.key.side == side)
  {
  }

  /** The references of a possible trade, and what its parties hold. */
  ghost predicate PartiesFit(b: Book, event: BookEvent)
    requires event.Trade?
  {
    && OnSide(event.bidOrder, Buy) && OnSide(event.askOrder, Sell)
    && Fits(b, Named(b, event.bidOrder), Buy, event.quantity) && Fits(b, Named(b, event.askOrder), Sell, event.quantity)
  }

  lemma FillEnds(b: Book, filled: Option<OrderKey>, quantity: Quantity, price: Price, key: OrderKey)
    requires filled.Some? ==> filled.value in b.orders && quantity <= b.orders[filled.value].remaining
    ensures key in Filled(b, filled, quantity, price).orders <==>
      key in b.orders && !(filled == Some(key) && b.orders[key].remaining == quantity)
  {
    hide Leave, QueueTotal, Total;
  }

  /** The fills alone leave the survivors, nobody of whom has emerged yet. */
  lemma FillsLeave(b: Book, event: BookEvent, key: OrderKey)
    requires b.WellFormed() && event.Trade? && PartiesFit(b, event)
    ensures var t := AfterTrade(b, Named(b, event.bidOrder), Named(b, event.askOrder), event.quantity, event.price);
      && (key in t.orders <==> Survives(b, event, key))
      && (key in t.orders ==>
           (Names(event, key) ==> event.quantity <= b.orders[key].remaining)
           && t.orders[key] == OrderAfter(b, event, key).(resting := b.orders[key].resting))
  {
    hide Book.WellFormed, Book.Fill, Record, Total, QueueTotal, Emerges, Filled;
    var bid, ask := Named(b, event.bidOrder), Named(b, event.askOrder);
    FilledFrame(b, bid, Buy, event.quantity, event.price);
    FillEnds(b, bid, event.quantity, event.price, key);
    var first := Filled(b, bid, event.quantity, event.price);
    FillEnds(first, ask, event.quantity, event.price, key);
    if key in b.orders {
      AfterTradeOrder(b, bid, ask, event.quantity, event.price, key);
    }
  }

  /** The book between the fills and the re-entries. */
  ghost function Between(b: Book, event: BookEvent): Book
    requires event.Trade? && PartiesFit(b, event)
  {
    AfterTrade(b, Named(b, event.bidOrder), Named(b, event.askOrder), event.quantity, event.price)
  }

  /** Every level holds an order that rests at its price. */
  lemma LevelHolds(b: Book, side: Side, p: Price) returns (key: OrderKey)
    requires b.WellFormed() && p in Own(b, side)
    ensures key in b.orders && b.orders[key].resting && b.orders[key].price == Some(p) && key.side == side
  {
    hide Total, QueueTotal;
    assert QueueWellFormed(b.orders, side, p, Own(b, side)[p]);
    key := Own(b, side)[p][0];
    assert key in Own(b, side)[p];
  }

  lemma BetweenWellFormed(b: Book, event: BookEvent)
    requires b.WellFormed() && event.Trade? && PartiesFit(b, event)
    requires b.statistics.totalQuantity + event.quantity <= MAX_U64
    ensures Between(b, event).WellFormed()
  {
    hide Book.WellFormed, AfterTrade, Book.Fill;
    TradedWellFormed(b, Named(b, event.bidOrder), Named(b, event.askOrder), event.quantity, event.price);
  }

  /** The book between the fills and the re-entries crosses a price where a survivor blocks it. */
  lemma CrossingIsBlocked(b: Book, event: BookEvent, side: Side, price: Price)
    requires b.WellFormed() && event.Trade? && PartiesFit(b, event)
    requires b.statistics.totalQuantity + event.quantity <= MAX_U64
    ensures Between(b, event).Crosses(side, price) <==> Blocked(b, event, side, price)
  {
    hide Book.WellFormed, Book.Crosses, AfterTrade, PartiesFit, Emerges, Filled;
    var t := Between(b, event);
    BetweenWellFormed(b, event);
    CrossesMeets(t, side, price);
    if t.Crosses(side, price) {
      var p: Price :| p in Across(t, side) && if side == Buy then p <= price else price <= p;
      var key := LevelHolds(t, side.Opposite(), p);
      FillsLeave(b, event, key);
      assert Blocks(b, event, side, price, key);
    }
    if Blocked(b, event, side, price) {
      var key :| Blocks(b, event, side, price, key);
      FillsLeave(b, event, key);
      WaitsAtPrice(t, key, side.Opposite(), b.orders[key].price.value);
    }
  }

  /** Who may re-enter between is who may emerge. */
  lemma BetweenReenters(b: Book, event: BookEvent, key: OrderKey)
    requires b.WellFormed() && event.Trade? && PartiesFit(b, event) && Names(event, key)
    requires b.statistics.totalQuantity + event.quantity <= MAX_U64
    ensures Between(b, event).MayReenter(key) <==> MayEmerge(b, event, key)
  {
    hide Book.WellFormed, Book.Crosses, AfterTrade, PartiesFit, Emerges, Blocked;
    FillsLeave(b, event, key);
    if Survives(b, event, key) && LimitAfter(b, event, key).Some? {
      CrossingIsBlocked(b, event, key.side, LimitAfter(b, event, key).value);
    }
  }

  /** Only parties of the trade emerge, each from its own side. */
  lemma EmergesNamed(b: Book, event: BookEvent, key: OrderKey)
    requires event.Trade? && PartiesFit(b, event) && Emerges(b, event, key)
    ensures key.side == Buy ==> event.bidOrder == Resolved(key) && Named(b, event.bidOrder) == Some(key)
    ensures key.side == Sell ==> event.askOrder == Resolved(key) && Named(b, event.askOrder) == Some(key)
  {
    hide Blocked, LimitAfter;
  }

  /** The seller may re-enter behind the buyer exactly when it emerges. */
  lemma SecondReenters(b: Book, event: BookEvent, ask: OrderKey)
    requires b.WellFormed() && event.Trade? && PartiesFit(b, event) && Named(b, event.askOrder) == Some(ask)
    requires b.statistics.totalQuantity + event.quantity <= MAX_U64
    ensures Rested(Between(b, event), Named(b, event.bidOrder)).MayReenter(ask) <==> Emerges(b, event, ask)
  {
    hide Book.WellFormed, Book.Crosses, AfterTrade, Blocked, QueueTotal, Total, Filled;
    var t, bid := Between(b, event), Named(b, event.bidOrder);
    BetweenWellFormed(b, event);
    RestedFrame(t, bid);
    BetweenReenters(b, event, ask);
    FillsLeave(b, event, ask);
    if bid.Some? {
      BetweenReenters(b, event, bid.value);
      FillsLeave(b, event, bid.value);
    }
    if ask in t.orders && t.orders[ask].price.Some? {
      SecondCrosses(t, bid, t.orders[ask].price.value);
    }
  }

  lemma SecondCrosses(t: Book, bid: Option<OrderKey>, price: Price)
    requires t.WellFormed() && (bid.Some? ==> bid.value.side == Buy)
    ensures Rested(t, bid).Crosses(Sell, price) <==>
      t.Crosses(Sell, price) || (bid.Some? && t.MayReenter(bid.value) && price <= t.orders[bid.value].price.value)
  {
    hide Book.WellFormed, Total, QueueTotal, Book.MayReenter;
    RestedFrame(t, bid);
  }

  /** Whoever emerges was hidden, so its side is as full as before the trade. */
  lemma RoomToEmerge(b: Book, event: BookEvent)
    requires b.WellFormed() && event.Trade? && PartiesFit(b, event)
    requires b.statistics.totalQuantity + event.quantity <= MAX_U64
    ensures var t, bid, ask := Between(b, event), Named(b, event.bidOrder), Named(b, event.askOrder);
      var both := t.Reenter(bid).Ok? && t.Reenter(bid).value.Reenter(ask).Ok?;
      both <==> forall key | Emerges(b, event, key) ::
        b.SideTotal(key.side, false) + b.orders[key].remaining - event.quantity <= MAX_U64
  {
    hide Book.WellFormed, Book.Crosses, AfterTrade, QueueTotal, Total, Filled, Book.MayReenter, Emerges;
    hide Book.SideTotal, Book.Attach;
    var t, bid, ask := Between(b, event), Named(b, event.bidOrder), Named(b, event.askOrder);
    BetweenWellFormed(b, event);
    TradedHiddenTotals(b, bid, ask, event.quantity, event.price);
    RestedFrame(t, bid);
    if bid.Some? {
      OneEmerges(b, event, bid.value);
    }
    if ask.Some? {
      OneEmerges(b, event, ask.value);
    }
    forall key | Emerges(b, event, key) ensures bid == Some(key) || ask == Some(key) {
      EmergesNamed(b, event, key);
    }
  }

  lemma OneEmerges(b: Book, event: BookEvent, key: OrderKey)
    requires b.WellFormed() && event.Trade? && PartiesFit(b, event)
    requires b.statistics.totalQuantity + event.quantity <= MAX_U64
    requires Named(b, event.bidOrder) == Some(key) || Named(b, event.askOrder) == Some(key)
    ensures var t, bid := Between(b, event), Named(b, event.bidOrder);
      && (bid == Some(key) ==> key.side == Buy && (t.MayReenter(key) <==> Emerges(b, event, key)))
      && (bid != Some(key) ==> key.side == Sell && (Rested(t, bid).MayReenter(key) <==> Emerges(b, event, key)))
      && (Emerges(b, event, key) ==>
           && b.Hidden(key) && key in t.orders && t.orders[key].remaining == b.orders[key].remaining - event.quantity
           && event.quantity < b.orders[key].remaining && t.orders[key].price == LimitAfter(b, event, key))
  {
    hide Book.WellFormed, Book.Crosses, AfterTrade, QueueTotal, Total, Filled, Book.MayReenter, Blocked, Rested;
    FillsLeave(b, event, key);
    if Named(b, event.bidOrder) == Some(key) {
      BetweenReenters(b, event, key);
    } else {
      SecondReenters(b, event, key);
    }
  }

  /** A trade succeeds exactly when it can happen. */
  lemma TradeDecides(b: Book, policy: UnknownTradePolicy, event: BookEvent)
    requires b.WellFormed() && event.Trade?
    ensures b.ApplyTrade(policy, event).Ok? <==> Tradable(b, policy, event)
  {
    hide Book.WellFormed, Book.Reenter, Record, Total, QueueTotal, Book.Resolve, Book.FillSide, Filled, Emerges;
    hide Book.SideTotal, AfterTrade;
    ReferenceNames(b, event.bidOrder, Buy);
    ReferenceNames(b, event.askOrder, Sell);
    if OnSide(event.bidOrder, Buy) && OnSide(event.askOrder, Sell) {
      FillSides(b, Named(b, event.bidOrder), Named(b, event.askOrder), event.quantity, event.price);
      var bid, ask := b.Resolve(event.bidOrder, Buy).value, b.Resolve(event.askOrder, Sell).value;
      if PartiesFit(b, event) && b.statistics.totalQuantity + event.quantity <= MAX_U64
         && (policy.Reject? ==> bid.unknown.None? && ask.unknown.None?) {
        ApplyTradeSteps(b, policy, event);
        RoomToEmerge(b, event);
      }
    }
  }

  /** The queues of a book after one re-entry. */
  lemma RestedQueues(t: Book, key: Option<OrderKey>, side: Side, p: Price)
    ensures QueueAt(Own(Rested(t, key), side), p) == QueueAt(Own(t, side), p)
      + if key.Some? && t.MayReenter(key.value) && key.value.side == side && t.orders[key.value].price == Some(p)
        then [key.value] else []
  {
    hide Book.Attach, Book.Crosses;
    if key.Some? && t.MayReenter(key.value) {
      AttachQueues(t, key.value, t.orders[key.value].price.value, side, p);
    }
    assert QueueAt(Own(t, side), p) + [] == QueueAt(Own(t, side), p);
  }

  lemma {:induction false} AllRemain(b: Book, event: BookEvent, queue: seq<OrderKey>)
    requires event.Trade? && forall k | k in queue :: Survives(b, event, k)
    ensures Remainder(b, event, queue) == queue
  {
    if queue == [] {
    } else {
      AllRemain(b, event, queue[1..]);
    }
  }

  lemma {:induction false} OneMissing(b: Book, event: BookEvent, queue: seq<OrderKey>, key: OrderKey)
    requires event.Trade? && Distinct(queue) && !Survives(b, event, key)
    requires forall k | k in queue && k != key :: Survives(b, event, k)
    ensures Remainder(b, event, queue) == Without(queue, key)
  {
    hide Survives;
    if queue == [] {
    } else if queue[0] == key {
      assert forall k | k in queue[1..] :: k in queue && k != key;
      AllRemain(b, event, queue[1..]);
    } else {
      OneMissing(b, event, queue[1..], key);
    }
  }

  /** A fill leaves of a queue those who survive. */
  lemma FilledQueue(b: Book, event: BookEvent, filled: Option<OrderKey>, side: Side, p: Price)
    requires b.WellFormed() && event.Trade? && Fits(b, filled, side, event.quantity)
    requires forall k: OrderKey | k.side == side && k in b.orders :: Names(event, k) <==> filled == Some(k)
    ensures QueueAt(Own(Filled(b, filled, event.quantity, event.price), side), p)
         == Remainder(b, event, QueueAt(Own(b, side), p))
  {
    hide Book.WellFormed, Total, QueueTotal, Remainder, Without, Book.Remove;
    var queue := QueueAt(Own(b, side), p);
    forall k | k in queue ensures k in b.orders && k.side == side {
      WaitsAtPrice(b, k, side, p);
    }
    if filled.Some? && b.orders[filled.value].remaining == event.quantity {
      var key := filled.value;
      RemoveQueues(b, key, side, p);
      WaitsAtPrice(b, key, side, p);
      if key in queue {
        OneMissing(b, event, queue, key);
      } else {
        AllRemain(b, event, queue);
      }
    } else {
      AllRemain(b, event, queue);
    }
  }

  /** Between the fills and the re-entries, everybody who survives still waits. */
  lemma BetweenQueue(b: Book, event: BookEvent, side: Side, p: Price)
    requires b.WellFormed() && event.Trade? && PartiesFit(b, event)
    ensures QueueAt(Own(Between(b, event), side), p) == Remainder(b, event, QueueAt(Own(b, side), p))
  {
    hide Book.WellFormed, AfterTrade, Filled, Remainder, QueueAt;
    var bid, ask := Named(b, event.bidOrder), Named(b, event.askOrder);
    TradedSides(b, bid, ask, event.quantity, event.price);
    FilledQueue(b, event, if side == Buy then bid else ask, side, p);
  }

  /** Two re-entries make exactly those who emerge rest. */
  lemma EmergingOrders(b: Book, event: BookEvent, key: OrderKey)
    requires b.WellFormed() && event.Trade? && PartiesFit(b, event)
    requires b.statistics.totalQuantity + event.quantity <= MAX_U64
    ensures var b' := Rested(Rested(Between(b, event), Named(b, event.bidOrder)), Named(b, event.askOrder));
      && (key in b'.orders <==> Survives(b, event, key))
      && (key in b'.orders ==>
           (Names(event, key) ==> event.quantity <= b.orders[key].remaining)
           && b'.orders[key] == OrderAfter(b, event, key))
  {
    hide Book.WellFormed, AfterTrade, Filled, Book.Crosses, Emerges;
    var t, bid, ask := Between(b, event), Named(b, event.bidOrder), Named(b, event.askOrder);
    FillsLeave(b, event, key);
    if bid.Some? {
      OneEmerges(b, event, bid.value);
    }
    if ask.Some? {
      OneEmerges(b, event, ask.value);
    }
    if Emerges(b, event, key) {
      EmergesNamed(b, event, key);
    }
  }

  lemma EmergingQueues(b: Book, event: BookEvent, p: Price)
    requires b.WellFormed() && event.Trade? && PartiesFit(b, event)
    requires b.statistics.totalQuantity + event.quantity <= MAX_U64
    ensures var b' := Rested(Rested(Between(b, event), Named(b, event.bidOrder)), Named(b, event.askOrder));
      QueueTraded(b, event, b', p)
  {
    hide Book.WellFormed, AfterTrade, Filled, Book.Crosses, Book.MayReenter, Remainder, Rested, QueueAt;
    var t, bid, ask := Between(b, event), Named(b, event.bidOrder), Named(b, event.askOrder);
    var r := Rested(t, bid);
    BetweenQueue(b, event, Buy, p);
    BetweenQueue(b, event, Sell, p);
    RestedQueues(t, bid, Buy, p);
    RestedQueues(t, bid, Sell, p);
    RestedQueues(r, ask, Buy, p);
    RestedQueues(r, ask, Sell, p);
    BetweenWellFormed(b, event);
    RestedFrame(t, bid);
    if bid.Some? {
      OneEmerges(b, event, bid.value);
    }
    if ask.Some? {
      OneEmerges(b, event, ask.value);
    }
  }

  /** A successful trade has its effect: quantities, limits, who is gone, who rests and where. */
  lemma TradeEffect(b: Book, policy: UnknownTradePolicy, event: BookEvent)
    requires b.WellFormed() && event.Trade? && b.ApplyTrade(policy, event).Ok?
    ensures TradesOrders(b, event, b.ApplyTrade(policy, event).value.0)
    ensures b.ApplyTrade(policy, event).value.1 == ApplyOutcome.Traded(
      if Named(b, event.bidOrder).Some? then event.quantity else 0,
      if Named(b, event.askOrder).Some? then event.quantity else 0)
  {
    hide Book.WellFormed, Book.Reenter, Record, Total, QueueTotal, Book.Resolve, Book.FillSide, Filled, Emerges;
    hide AfterTrade, QueueTraded, OrderAfter, Book.ApplyTrade;
    var bid, ask := Named(b, event.bidOrder), Named(b, event.askOrder);
    ReferenceNames(b, event.bidOrder, Buy);
    ReferenceNames(b, event.askOrder, Sell);
    TradeFits(b, policy, event);
    ApplyTradeSteps(b, policy, event);
    TradeRest(b, policy, event);
    var t := Between(b, event);
    ReenterIs(t, bid);
    ReenterIs(t.Reenter(bid).value, ask);
    var b' := b.ApplyTrade(policy, event).value.0;
    forall key ensures key in b'.orders <==> Survives(b, event, key) {
      EmergingOrders(b, event, key);
    }
    forall key | key in b'.orders ensures
      (Names(event, key) ==> event.quantity <= b.orders[key].remaining) && b'.orders[key] == OrderAfter(b, event, key) {
      EmergingOrders(b, event, key);
    }
    forall p: Price ensures QueueTraded(b, event, b', p) {
      EmergingQueues(b, event, p);
    }
  }
}
