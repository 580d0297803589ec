/** What becomes of orders that are active but not visible: a trade re-decides exactly its own
    parties, leaves hidden only what still crosses, and a market remainder follows its own trades. */
module HiddenOrders {
  import opened Wrappers
  import opened MarketData
  import opened Depth
  import opened Queues
  import opened Book
  import opened Trades
  import opened BookRuns
  import opened History

  ghost predicate Party(event: BookEvent, key: OrderKey)
    requires event.Trade?
  {
    event.bidOrder == Resolved(key) || event.askOrder == Resolved(key)
  }

  /** What a fill does to any one order. */
  lemma FillOrder(b: Book, filled: Option<OrderKey>, side: Side, quantity: Quantity, price: Price, key: OrderKey)
    requires Fits(b, filled, side, quantity) && key in b.orders
    ensures var b' := Filled(b, filled, quantity, price);
            && (filled != Some(key) ==> key in b'.orders && b'.orders[key] == b.orders[key])
            && (filled == Some(key) && key in b'.orders ==>
                 var was, now := b.orders[key], b'.orders[key];
                 quantity < was.remaining && now == was.(remaining := was.remaining - quantity,
                   price := if !was.resting && was.repriceFromTrade then Some(price) else was.price))
  {
    hide Leave, QueueTotal, Total;
  }

  /** What a re-entry does to any one order. */
  lemma ReenterOrder(b: Book, entering: Option<OrderKey>, key: OrderKey)
    requires b.Reenter(entering).Ok?
    ensures var b' := b.Reenter(entering).value;
            && b'.orders.Keys == b.orders.Keys
            && (key in b.orders && entering != Some(key) ==> b'.orders[key] == b.orders[key])
            && (key in b.orders ==> b'.orders[key] == b.orders[key].(resting := b'.orders[key].resting))
            && (key in b.orders && b.orders[key].resting ==> b'.orders[key].resting)
            && (entering == Some(key) && key in b'.orders && !b'.orders[key].resting ==> b' == b && !b.MayReenter(key))
  {
    hide Total, QueueTotal, Book.Crosses, BestOf;
  }

  /** A book crosses a price that it crossed before the other side gained an order. */
  lemma ReenterKeepsCrossing(b: Book, entering: Option<OrderKey>, side: Side, price: Price)
    requires b.Crosses(side, price) && b.Reenter(entering).Ok?
    requires (entering.Some? ==> entering.value.side == side.Opposite())
    ensures b.Reenter(entering).value.Crosses(side, price)
  {
    hide Total, QueueTotal, BestOf;
    if entering.Some? && b.MayReenter(entering.value) {
      var levels := b.LevelsOf(side.Opposite());
      var p := b.orders[entering.value].price.value;
      BestAdd(side.Opposite(), levels.Keys, p);
      assert b.Reenter(entering).value.LevelsOf(side.Opposite()).Keys == levels.Keys + {p};
    }
  }

  /** After a trade, a party that may re-enter and knows a price is hidden only if it still crosses. */
  lemma TradeLeavesCrossing(b: Book, policy: UnknownTradePolicy, event: BookEvent, key: OrderKey)
    requires b.WellFormed() && event.Trade? && b.ApplyTrade(policy, event).Ok? && Party(event, key)
    requires var b' := b.ApplyTrade(policy, event).value.0;
      b'.Hidden(key) && b'.orders[key].allowReentry && b'.orders[key].price.Some?
    ensures var b' := b.ApplyTrade(policy, event).value.0; b'.Crosses(key.side, b'.orders[key].price.value)
  {
    hide Book.WellFormed, Book.Reenter, Book.Crosses, Record, Total, QueueTotal, BestOf, AfterTrade;
    var bid, ask := b.Resolve(event.bidOrder, Buy).value.key, b.Resolve(event.askOrder, Sell).value.key;
    TradeFits(b, policy, event);
    ApplyTradeSteps(b, policy, event);
    var t := AfterTrade(b, bid, ask, event.quantity, event.price);
    var r1 := t.Reenter(bid).value;
    var r2 := r1.Reenter(ask).value;
    ReenterOrder(t, bid, key);
    ReenterOrder(r1, ask, key);
    PartyFound(b, policy, event, key);
    if event.askOrder == Resolved(key) {
      assert ask == Some(key) && r2 == r1;
    } else {
      assert bid == Some(key) && r1 == t && t.Crosses(Buy, t.orders[key].price.value);
      ReenterKeepsCrossing(r1, ask, Buy, t.orders[key].price.value);
    }
  }

  /** A party that is still active after the trade is the one its reference resolved to. */
  lemma PartyFound(b: Book, policy: UnknownTradePolicy, event: BookEvent, key: OrderKey)
    requires b.WellFormed() && event.Trade? && b.ApplyTrade(policy, event).Ok?
    requires Party(event, key) && key in b.ApplyTrade(policy, event).value.0.orders
    ensures key in b.orders
    ensures event.bidOrder == Resolved(key) ==> b.Resolve(event.bidOrder, Buy).value.key == Some(key) && key.side == Buy
    ensures event.askOrder == Resolved(key) ==>
      b.Resolve(event.askOrder, Sell).value.key == Some(key) && key.side == Sell
    ensures b.Resolve(event.askOrder, Sell).value.key.Some? ==>
      b.Resolve(event.askOrder, Sell).value.key.value.side == Sell
  {
    hide Book.WellFormed, Book.Reenter, Book.Crosses, Record, Total, QueueTotal, BestOf, Book.Fill;
    TradeFits(b, policy, event);
    TradeLoses(b, policy, event, key);
  }

  /** A trade changes its parties and nobody else; a hidden party takes over the trade price when it
      was told to, and whatever rests goes on resting where it is. */
  lemma TradeOrder(b: Book, policy: UnknownTradePolicy, event: BookEvent, key: OrderKey)
    requires b.WellFormed() && event.Trade? && b.ApplyTrade(policy, event).Ok? && key in b.orders
    ensures var b' := b.ApplyTrade(policy, event).value.0;
            && (!Party(event, key) ==> key in b'.orders && b'.orders[key] == b.orders[key])
            && (Party(event, key) && key in b'.orders ==>
                 var was, now := b.orders[key], b'.orders[key];
                 && now == was.(remaining := was.remaining - event.quantity, resting := now.resting, price := now.price)
                 && now.price == (if !was.resting && was.repriceFromTrade then Some(event.price) else was.price)
                 && (was.resting ==> now.resting))
  {
    hide Book.WellFormed, Book.Reenter, Book.Fill, Book.Crosses, Book.ApplyTrade, Record, Total, QueueTotal, BestOf;
    hide Filled;
    TradeSteps(b, policy, event);
    var bid, ask := b.Resolve(event.bidOrder, Buy).value.key, b.Resolve(event.askOrder, Sell).value.key;
    assert bid == Some(key) ==> event.bidOrder == Resolved(key);
    assert ask == Some(key) ==> event.askOrder == Resolved(key);
    AfterTradeOrder(b, bid, ask, event.quantity, event.price, key);
    var t := AfterTrade(b, bid, ask, event.quantity, event.price);
    ReenterOrder(t, bid, key);
    ReenterOrder(t.Reenter(bid).value, ask, key);
    if Party(event, key) && key in b.ApplyTrade(policy, event).value.0.orders {
      PartyFound(b, policy, event, key);
    }
  }

  lemma TradeSteps(b: Book, policy: UnknownTradePolicy, event: BookEvent)
    requires b.WellFormed() && event.Trade? && b.ApplyTrade(policy, event).Ok?
    ensures b.Resolve(event.bidOrder, Buy).Ok? && b.Resolve(event.askOrder, Sell).Ok?
    ensures var bid, ask := b.Resolve(event.bidOrder, Buy).value.key, b.Resolve(event.askOrder, Sell).value.key;
      && Fits(b, bid, Buy, event.quantity) && Fits(b, ask, Sell, event.quantity)
      && var t := AfterTrade(b, bid, ask, event.quantity, event.price);
      && t.Reenter(bid).Ok? && t.Reenter(bid).value.Reenter(ask).Ok?
      && b.ApplyTrade(policy, event).value.0 == t.Reenter(bid).value.Reenter(ask).value
  {
    hide Book.WellFormed, Book.Reenter, Book.Fill, Book.Crosses, Record, Total, QueueTotal, BestOf, Filled, AfterTrade;
    TradeFits(b, policy, event);
    ApplyTradeSteps(b, policy, event);
  }

  /** What both fills do to any one order. */
  lemma AfterTradeOrder(b: Book, bid: Option<OrderKey>, ask: Option<OrderKey>, quantity: Quantity, price: Price,
                        key: OrderKey)
    requires b.WellFormed() && Fits(b, bid, Buy, quantity) && Fits(b, ask, Sell, quantity) && key in b.orders
    ensures var t := AfterTrade(b, bid, ask, quantity, price);
            && (bid != Some(key) && ask != Some(key) ==> key in t.orders && t.orders[key] == b.orders[key])
            && ((bid == Some(key) || ask == Some(key)) && key in t.orders ==>
                 var was, now := b.orders[key], t.orders[key];
                 quantity < was.remaining && now == was.(remaining := was.remaining - quantity,
                   price := if !was.resting && was.repriceFromTrade then Some(price) else was.price))
            && forall k | k in t.orders :: k in b.orders
  {
    hide Book.WellFormed, Book.Fill, Record, Total, QueueTotal;
    FilledFrame(b, bid, Buy, quantity, price);
    FillOrder(b, bid, Buy, quantity, price, key);
    FillShrinks(b, bid, Buy, quantity, price);
    var b1 := Filled(b, bid, quantity, price);
    if key in b1.orders {
      FillOrder(b1, ask, Sell, quantity, price, key);
    } else {
      FillShrinks(b1, ask, Sell, quantity, price);
    }
    FillShrinks(b1, ask, Sell, quantity, price);
  }

  lemma FillShrinks(b: Book, filled: Option<OrderKey>, side: Side, quantity: Quantity, price: Price)
    requires Fits(b, filled, side, quantity)
    ensures forall k | k in Filled(b, filled, quantity, price).orders :: k in b.orders
  {
    hide Leave, QueueTotal, Total;
  }

  // ----- market remainders follow their trades -----

  /** The price of the last trade of a run that took from the order. */
  ghost function LastTakenAt(config: BookConfig, steps: seq<Step>, key: OrderKey): Option<Price> {
    if steps == [] then None
    else
      var before, last := steps[..|steps| - 1], steps[|steps| - 1];
      if Taken(config, Run(config, before), last, key) > 0 then Some(last.event.price)
        else LastTakenAt(config, before, key)
  }

  /** A hidden order that follows its trades stands at the price of its last one. */
  ghost predicate Follows(b: Book, last: Option<Price>, key: OrderKey) {
    && (key !in b.seen ==> last.None?)
    && (b.Hidden(key) && b.orders[key].repriceFromTrade && last.Some? ==> b.orders[key].price == last)
  }

  lemma StepFollows(config: BookConfig, b: Book, step: Step, last: Option<Price>, key: OrderKey)
    requires b.WellFormed() && Follows(b, last, key)
    ensures Follows(After(config, b, step), if Taken(config, b, step, key) > 0 then Some(step.event.price) else last,
                    key)
  {
    hide Book.WellFormed, Total, QueueTotal, BestOf, Book.ApplyAdd, Book.ApplyCancel, Book.ApplyTrade, Book.Attach;
    hide Book.Crosses;
    if Succeeds(config, b, step) {
      match step {
        case Completion(k, price) =>
          AttachRest(b, k, price);
          CompletionOrder(b, k, price, key);
        case Event(event) =>
          match event {
            case AddOrder(_, _, _, _, _) => AddOrderKeeps(b, event, key);
            case OrderCancel(_, _) => CancelOrderKeeps(b, event, key);
            case Trade(_, _, _, _, _) => TradeFollows(b, config.unknownTradePolicy, event, last, key);
          }
      }
    }
  }

  lemma AddOrderKeeps(b: Book, event: BookEvent, key: OrderKey)
    requires b.WellFormed() && event.AddOrder? && b.ApplyAdd(event).Ok?
    ensures var b' := b.ApplyAdd(event).value.0;
            && b'.seen == b.seen + {event.orderKey} && event.orderKey !in b.seen
            && (key != event.orderKey ==>
                (key in b'.orders <==> key in b.orders) && (key in b.orders ==> b'.orders[key] == b.orders[key]))
  {
    hide Book.WellFormed, Total, QueueTotal, BestOf, Book.Crosses;
  }

  lemma CancelOrderKeeps(b: Book, event: BookEvent, key: OrderKey)
    requires event.OrderCancel? && b.ApplyCancel(event).Ok?
    ensures var b' := b.ApplyCancel(event).value.0;
            b'.seen == b.seen && (key in b'.orders ==> key in b.orders && b'.orders[key] == b.orders[key])
  {
    hide Leave;
  }

  lemma CompletionOrder(b: Book, k: OrderKey, price: Price, key: OrderKey)
    requires k in b.orders
    ensures key in b.Attach(k, price).orders <==> key in b.orders
    ensures key in b.orders && !b.Attach(k, price).orders[key].resting ==>
      b.Attach(k, price).orders[key] == b.orders[key]
  {
  }

  lemma TradeFollows(b: Book, policy: UnknownTradePolicy, event: BookEvent, last: Option<Price>, key: OrderKey)
    requires b.WellFormed() && event.Trade? && b.ApplyTrade(policy, event).Ok? && Follows(b, last, key)
    ensures var (b', outcome) := b.ApplyTrade(policy, event).value;
            outcome.Traded? && b'.seen == b.seen
            && Follows(b', if (if event.bidOrder == Resolved(key) then outcome.bidReduction else 0)
                             + (if event.askOrder == Resolved(key) then outcome.askReduction else 0) > 0
                           then Some(event.price) else last, key)
  {
    hide Book.WellFormed, Total, QueueTotal, BestOf, Book.ApplyTrade;
    TradeLoses(b, policy, event, key);
    TradeRest(b, policy, event);
    if key in b.orders {
      SeenActive(b, key);
      TradeOrder(b, policy, event, key);
    }
  }

  lemma SeenActive(b: Book, key: OrderKey)
    requires b.WellFormed() && key in b.orders
    ensures key in b.seen
  {
    assert b.OrderWellFormed(key);
  }

  /** Over any run, a hidden market remainder stands at the price of the last trade that took from it. */
  lemma {:induction false} RunFollows(config: BookConfig, steps: seq<Step>, key: OrderKey)
    ensures Follows(Run(config, steps), LastTakenAt(config, steps, key), key)
  {
    hide After, Taken, Book.WellFormed;
    if steps != [] {
      var before := steps[..|steps| - 1];
      RunFollows(config, before, key);
      RunWellFormed(config, before);
      StepFollows(config, Run(config, before), steps[|steps| - 1], LastTakenAt(config, before, key), key);
    }
  }
}
