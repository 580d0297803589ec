/** What a trade does to the abstract book, side by side: the facts that let the source plan both
    sides, both post-trade best prices and both re-entries against the state before the trade. */
module Trades {
  import opened Wrappers
  import opened MarketData
  import opened Depth
  import opened Queues
  import opened Book
  import opened BookInvariants

  ghost predicate Fits(b: Book, key: Option<OrderKey>, side: Side, quantity: Quantity) {
    key.Some? ==> key.value in b.orders && key.value.side == side && quantity <= b.orders[key.value].remaining
  }

  /** The book after a trade with at most one of its orders. */
  ghost function Filled(b: Book, key: Option<OrderKey>, quantity: Quantity, price: Price): Book
    requires key.Some? ==> key.value in b.orders && quantity <= b.orders[key.value].remaining
  {
    if key.None? then b else b.Fill(key.value, quantity, price)
  }

  /** A fill on one side leaves the other side's queues, orders and totals alone. */
  lemma FilledFrame(b: Book, key: Option<OrderKey>, side: Side, quantity: Quantity, price: Price)
    requires b.WellFormed() && Fits(b, key, side, quantity)
    ensures var b', other := Filled(b, key, quantity, price), side.Opposite();
            && b'.WellFormed()
            && b'.LevelsOf(other) == b.LevelsOf(other)
            && (forall weighted :: b'.SideTotal(other, weighted) == b.SideTotal(other, weighted))
            && (forall k: OrderKey | k.side == other ::
                (k in b'.orders <==> k in b.orders) && (k in b.orders ==> b'.orders[k] == b.orders[k]))
            && b'.seen == b.seen && b'.statistics == b.statistics && b'.lastMeta == b.lastMeta
                 && b'.revision == b.revision
  {
    hide Book.WellFormed, Total, QueueTotal, Book.Fill, Book.SideTotal, LevelsWellFormed;
    if key.Some? {
      FillKeepsWellFormed(b, key.value, quantity, price);
      LevelsFacts(b, side.Opposite());
      FillSpares(b, key.value, quantity, price);
      OtherSide(b, b.Fill(key.value, quantity, price), side.Opposite(), key.value);
    }
  }

  /** A fill changes one order and its side's queues. */
  lemma FillSpares(b: Book, key: OrderKey, quantity: Quantity, price: Price)
    requires key in b.orders && quantity <= b.orders[key].remaining
    ensures var b' := b.Fill(key, quantity, price);
            && SameExcept(b.orders, b'.orders, key)
            && b'.LevelsOf(key.side.Opposite()) == b.LevelsOf(key.side.Opposite())
            && b'.seen == b.seen && b'.statistics == b.statistics && b'.lastMeta == b.lastMeta
            && b'.revision == b.revision
  {
    hide Leave;
  }

  lemma LevelsFacts(b: Book, side: Side)
    requires b.WellFormed()
    ensures LevelsWellFormed(b.orders, side, b.LevelsOf(side))
  {}

  /** A hidden order's fill leaves its own side's queues and totals alone too. */
  lemma FilledHidden(b: Book, key: OrderKey, quantity: Quantity, price: Price)
    requires b.WellFormed() && b.Hidden(key) && quantity <= b.orders[key].remaining
    ensures var b' := b.Fill(key, quantity, price);
            && b'.LevelsOf(key.side) == b.LevelsOf(key.side)
            && (forall weighted :: b'.SideTotal(key.side, weighted) == b.SideTotal(key.side, weighted))
  {
    hide Book.WellFormed, Total, QueueTotal;
    LevelsFacts(b, key.side);
    OtherSide(b, b.Fill(key, quantity, price), key.side, key);
  }

  /** The queues of a side after a fill depend on that side only. */
  lemma FilledLocal(b: Book, b': Book, key: Option<OrderKey>, side: Side, quantity: Quantity, price: Price)
    requires Fits(b, key, side, quantity) && Fits(b', key, side, quantity)
    requires b.LevelsOf(side) == b'.LevelsOf(side)
    requires forall k: OrderKey | k.side == side ::
      (k in b'.orders <==> k in b.orders) && (k in b.orders ==> b'.orders[k] == b.orders[k])
    ensures var f, f' := Filled(b, key, quantity, price), Filled(b', key, quantity, price);
            && f.LevelsOf(side) == f'.LevelsOf(side)
            && forall k: OrderKey | k.side == side ::
                 (k in f'.orders <==> k in f.orders) && (k in f.orders ==> f'.orders[k] == f.orders[k])
  {
    hide Leave;
  }

  // ----- the best price after a fill -----

  lemma BestUnique(side: Side, a: Price, b: Price, prices: set<Price>)
    requires IsBest(side, a, prices) && IsBest(side, b, prices)
    ensures a == b
  {
    assert !side.Better(a, b) && !side.Better(b, a);
  }

  lemma BestAdd(side: Side, prices: set<Price>, p: Price)
    ensures BestOf(side, prices + {p}) == Some(
      if BestOf(side, prices).Some? && !side.Better(p, BestOf(side, prices).value) then BestOf(side, prices).value
        else p)
  {
    var all := prices + {p};
    var best: Price := BestOf(side, all).value;
    var former := BestOf(side, prices);
    var expected: Price := if former.Some? && !side.Better(p, former.value) then former.value else p;
    assert IsBest(side, expected, all);
    BestUnique(side, best, expected, all);
  }

  /** The total waiting at a price is positive exactly when the price has a level. */
  lemma LevelPositive(b: Book, side: Side, p: Price)
    requires b.WellFormed()
    ensures p in b.LevelsOf(side) <==> QueueTotal(b.orders, QueueAt(b.LevelsOf(side), p)) > 0
  {
    if p in b.LevelsOf(side) {
      var queue := b.LevelsOf(side)[p];
      assert QueueWellFormed(b.orders, side, p, queue);
      assert queue[0] in queue;
      assert b.OrderWellFormed(queue[0]);
    }
  }

  /** What the fill takes from the level at `p`. */
  function Reduction(b: Book, key: Option<OrderKey>, p: Price, quantity: nat): nat {
    if key.Some? && key.value in b.orders && b.orders[key.value].resting && b.orders[key.value].price == Some(p)
    then quantity else 0
  }

  lemma FilledLevel(b: Book, key: Option<OrderKey>, side: Side, quantity: Quantity, price: Price, p: Price)
    requires b.WellFormed() && Fits(b, key, side, quantity)
    ensures QueueTotal(b.orders, QueueAt(b.LevelsOf(side), p)) == Reduction(b, key, p, quantity)
      + QueueTotal(Filled(b, key, quantity, price).orders, QueueAt(Filled(b, key, quantity, price).LevelsOf(side), p))
  {
    if key.Some? {
      if b.Hidden(key.value) {
        FilledElsewhere(b, key.value, quantity, price, p);
      } else if b.orders[key.value].price != Some(p) {
        FilledElsewhere(b, key.value, quantity, price, p);
      } else if quantity == b.orders[key.value].remaining {
        RemoveMoves(b, key.value);
      } else {
        PartialFillMoves(b, key.value, quantity, price);
      }
    }
  }

  lemma FilledElsewhere(b: Book, key: OrderKey, quantity: Quantity, price: Price, p: Price)
    requires b.WellFormed() && key in b.orders && quantity <= b.orders[key].remaining
    requires b.Hidden(key) || b.orders[key].price != Some(p)
    ensures var b' := b.Fill(key, quantity, price);
            QueueAt(b'.LevelsOf(key.side), p) == QueueAt(b.LevelsOf(key.side), p)
            && QueueTotal(b'.orders, QueueAt(b'.LevelsOf(key.side), p))
                 == QueueTotal(b.orders, QueueAt(b.LevelsOf(key.side), p))
  {
    hide QueueTotal, Total;
    var b' := b.Fill(key, quantity, price);
    var queue := QueueAt(b.LevelsOf(key.side), p);
    if p in b.LevelsOf(key.side) {
      assert QueueWellFormed(b.orders, key.side, p, queue);
    }
    QueueTotalFrame(b.orders, b'.orders, queue);
  }

  // ----- both sides of one trade -----

  /** Both fills and the statistics, before anybody re-enters. */
  ghost function AfterTrade(b: Book, bid: Option<OrderKey>, ask: Option<OrderKey>, quantity: Quantity,
                            price: Price): Book
    requires Fits(b, bid, Buy, quantity) && Fits(b, ask, Sell, quantity)
  {
    Filled(Filled(b, bid, quantity, price), ask, quantity, price).(statistics := Record(b.statistics, price, quantity))
  }

  /** Each side of the traded book is what its own fill alone would have left. */
  lemma TradedSides(b: Book, bid: Option<OrderKey>, ask: Option<OrderKey>, quantity: Quantity, price: Price)
    requires b.WellFormed() && Fits(b, bid, Buy, quantity) && Fits(b, ask, Sell, quantity)
    ensures var t := AfterTrade(b, bid, ask, quantity, price);
            && t.bids == Filled(b, bid, quantity, price).bids
            && t.asks == Filled(b, ask, quantity, price).asks
            && (forall k: OrderKey | k.side == Buy :: (k in t.orders <==> k in Filled(b, bid, quantity, price).orders)
                  && (k in t.orders ==> t.orders[k] == Filled(b, bid, quantity, price).orders[k]))
            && (forall k: OrderKey | k.side == Sell :: (k in t.orders <==> k in Filled(b, ask, quantity, price).orders)
                  && (k in t.orders ==> t.orders[k] == Filled(b, ask, quantity, price).orders[k]))
  {
    hide Book.WellFormed, Book.Fill;
    var first := Filled(b, bid, quantity, price);
    FilledFrame(b, bid, Buy, quantity, price);
    FilledFrame(first, ask, Sell, quantity, price);
    FilledLocal(b, first, ask, Sell, quantity, price);
  }

  lemma TradedWellFormed(b: Book, bid: Option<OrderKey>, ask: Option<OrderKey>, quantity: Quantity, price: Price)
    requires b.WellFormed() && Fits(b, bid, Buy, quantity) && Fits(b, ask, Sell, quantity)
    requires b.statistics.totalQuantity + quantity <= MAX_U64
    ensures AfterTrade(b, bid, ask, quantity, price).WellFormed()
  {
    hide Book.Fill, Total, QueueTotal;
    var first := Filled(b, bid, quantity, price);
    FilledFrame(b, bid, Buy, quantity, price);
    FilledFrame(first, ask, Sell, quantity, price);
    RecordBounded(b.statistics, price, quantity);
    RecordKeepsWellFormed(Filled(first, ask, quantity, price), Record(b.statistics, price, quantity));
  }

  lemma RecordBounded(s: TradeStatistics, price: Price, quantity: Quantity)
    requires StatisticsBounded(s) && s.totalQuantity + quantity <= MAX_U64
    ensures StatisticsBounded(Record(s, price, quantity))
  {
    ScaleMonotone(price, MAX_I64, quantity);
  }

  lemma RecordKeepsWellFormed(b: Book, statistics: TradeStatistics)
    requires b.WellFormed() && StatisticsBounded(statistics)
    ensures b.(statistics := statistics).WellFormed()
  {
    hide Total, QueueTotal, LevelsWellFormed;
    forall k | k in b.orders ensures b.(statistics := statistics).OrderWellFormed(k) {
      assert b.OrderWellFormed(k);
    }
  }

  /** A hidden order's side keeps its totals through the whole trade. */
  lemma TradedHiddenTotals(b: Book, bid: Option<OrderKey>, ask: Option<OrderKey>, quantity: Quantity, price: Price)
    requires b.WellFormed() && Fits(b, bid, Buy, quantity) && Fits(b, ask, Sell, quantity)
    ensures var t := AfterTrade(b, bid, ask, quantity, price);
            && (bid.Some? && b.Hidden(bid.value) ==> t.bids == b.bids && forall w ::
                t.SideTotal(Buy, w) == b.SideTotal(Buy, w))
            && (ask.Some? && b.Hidden(ask.value) ==> t.asks == b.asks && forall w ::
                t.SideTotal(Sell, w) == b.SideTotal(Sell, w))
  {
    hide Book.WellFormed, Book.Fill, Total, QueueTotal;
    var first := Filled(b, bid, quantity, price);
    FilledFrame(b, bid, Buy, quantity, price);
    FilledFrame(first, ask, Sell, quantity, price);
    if bid.Some? && b.Hidden(bid.value) {
      FilledHidden(b, bid.value, quantity, price);
    }
    if ask.Some? && b.Hidden(ask.value) {
      FilledHidden(first, ask.value, quantity, price);
    }
  }

  /** The book once the remainder of `key` came to rest, if it may. */
  ghost function Rested(t: Book, key: Option<OrderKey>): Book {
    if key.Some? && t.MayReenter(key.value) then t.Attach(key.value, t.orders[key.value].price.value) else t
  }

  lemma RestedFrame(t: Book, bid: Option<OrderKey>)
    requires t.WellFormed() && (bid.Some? ==> bid.value.side == Buy)
    ensures var r := Rested(t, bid);
            && r.asks == t.asks && (forall w :: r.SideTotal(Sell, w) == t.SideTotal(Sell, w))
            && (forall k: OrderKey | k.side == Sell ::
                (k in r.orders <==> k in t.orders) && (k in t.orders ==> r.orders[k] == t.orders[k]))
            && r.Best(Buy) == (if bid.Some? && t.MayReenter(bid.value)
                               then Some(Max(t.Best(Buy), t.orders[bid.value].price.value)) else t.Best(Buy))
  {
    hide Book.WellFormed, Total, QueueTotal;
    if bid.Some? && t.MayReenter(bid.value) {
      var p := t.orders[bid.value].price.value;
      LevelsFacts(t, Sell);
      OtherSide(t, Rested(t, bid), Sell, bid.value);
      assert Rested(t, bid).bids.Keys == t.bids.Keys + {p};
      BestAdd(Buy, t.bids.Keys, p);
    }
  }

  function Max(best: Option<Price>, price: Price): Price {
    if best.Some? && best.value > price then best.value else price
  }

  /** The abstract trade, once its references resolve and both fills fit. */
  lemma ApplyTradeSteps(b: Book, policy: UnknownTradePolicy, event: BookEvent)
    requires b.WellFormed() && event.Trade? && b.Resolve(event.bidOrder, Buy).Ok? && b.Resolve(event.askOrder, Sell).Ok?
    requires var bid, ask := b.Resolve(event.bidOrder, Buy).value, b.Resolve(event.askOrder, Sell).value;
             (policy.Reject? ==> bid.unknown.None? && ask.unknown.None?)
             && Fits(b, bid.key, Buy, event.quantity) && Fits(b, ask.key, Sell, event.quantity)
    ensures var bid, ask := b.Resolve(event.bidOrder, Buy).value.key, b.Resolve(event.askOrder, Sell).value.key;
            var r := b.ApplyTrade(policy, event);
            if b.statistics.totalQuantity + event.quantity > MAX_U64
            then r == Err(ArithmeticOverflow(TotalTradeQuantity))
            else
              var t := AfterTrade(b, bid, ask, event.quantity, event.price);
              var rested := t.Reenter(bid);
              if rested.Err? then r == Err(rested.error)
              else
                var both := rested.value.Reenter(ask);
                if both.Err? then r == Err(both.error)
                else r == Ok((both.value, Traded(if bid.Some? then event.quantity else 0,
                                                 if ask.Some? then event.quantity else 0)))
  {
    hide Book.WellFormed, Book.Reenter, Book.Fill, Total, QueueTotal;
    var bid := b.Resolve(event.bidOrder, Buy).value.key;
    FilledFrame(b, bid, Buy, event.quantity, event.price);
    assert b.FillSide(bid, event.quantity, event.price) == Ok(Filled(b, bid, event.quantity, event.price));
  }

  lemma StatisticsOf(b: Book)
    requires b.WellFormed()
    ensures StatisticsBounded(b.statistics)
  {}

  /** Recording the trade first makes no difference to the fills. */
  lemma FilledStatistics(b: Book, bid: Option<OrderKey>, ask: Option<OrderKey>, quantity: Quantity, price: Price)
    requires Fits(b, bid, Buy, quantity) && Fits(b, ask, Sell, quantity)
    ensures var r := b.(statistics := Record(b.statistics, price, quantity));
            Filled(Filled(r, bid, quantity, price), ask, quantity, price) == AfterTrade(b, bid, ask, quantity, price)
  {
    FillStatistics(b, bid, quantity, price, Record(b.statistics, price, quantity));
    FillStatistics(Filled(b, bid, quantity, price), ask, quantity, price, Record(b.statistics, price, quantity));
  }

  lemma FillStatistics(b: Book, key: Option<OrderKey>, quantity: Quantity, price: Price, statistics: TradeStatistics)
    requires key.Some? ==> key.value in b.orders && quantity <= b.orders[key.value].remaining
    ensures Filled(b.(statistics := statistics), key, quantity, price)
         == Filled(b, key, quantity, price).(statistics := statistics)
  {
    hide Book.Remove;
    if key.Some? {
      RemoveStatistics(b, key.value, statistics);
    }
  }

  lemma RemoveStatistics(b: Book, key: OrderKey, statistics: TradeStatistics)
    requires key in b.orders
    ensures b.(statistics := statistics).Remove(key) == b.Remove(key).(statistics := statistics)
  {
    hide Leave;
  }

  /** The overfill checks, bid before ask, on the state before the trade. */
  lemma FillSides(b: Book, bid: Option<OrderKey>, ask: Option<OrderKey>, quantity: Quantity, price: Price)
    requires b.WellFormed()
    requires bid.Some? ==> bid.value in b.orders && bid.value.side == Buy
    requires ask.Some? ==> ask.value in b.orders && ask.value.side == Sell
    ensures !Fits(b, bid, Buy, quantity) ==>
      b.FillSide(bid, quantity, price) == Err(TradeOverfill(bid.value, b.orders[bid.value].remaining, quantity))
    ensures Fits(b, bid, Buy, quantity) ==> b.FillSide(bid, quantity, price) == Ok(Filled(b, bid, quantity, price))
    ensures Fits(b, bid, Buy, quantity) && !Fits(b, ask, Sell, quantity) ==>
      Filled(b, bid, quantity, price).FillSide(ask, quantity, price)
      == Err(TradeOverfill(ask.value, b.orders[ask.value].remaining, quantity))
  {
    hide Book.WellFormed, Book.Fill, Total, QueueTotal;
    if Fits(b, bid, Buy, quantity) {
      FilledFrame(b, bid, Buy, quantity, price);
    }
  }

  lemma ReenterIs(t: Book, bid: Option<OrderKey>)
    ensures t.Reenter(bid).Ok? ==> t.Reenter(bid).value == Rested(t, bid)
  {}

  /** Everything but orders and queues is as before. */
  ghost predicate SameRest(b: Book, b': Book) {
    b'.seen == b.seen && b'.statistics == b.statistics && b'.lastMeta == b.lastMeta && b'.revision == b.revision
  }

  lemma AttachRest(b: Book, key: OrderKey, price: Price)
    requires key in b.orders
    ensures SameRest(b, b.Attach(key, price))
  {}

  lemma RemoveRest(b: Book, key: OrderKey)
    requires key in b.orders
    ensures SameRest(b, b.Remove(key))
  {}

  lemma ReenterRest(b: Book, key: Option<OrderKey>)
    ensures b.Reenter(key).Ok? ==> SameRest(b, b.Reenter(key).value)
  {
    hide Book.Attach, Total, QueueTotal;
    if key.Some? && b.MayReenter(key.value) {
      AttachRest(b, key.value, b.orders[key.value].price.value);
    }
  }

  lemma FillSideRest(b: Book, key: Option<OrderKey>, quantity: Quantity, price: Price)
    ensures b.FillSide(key, quantity, price).Ok? ==> SameRest(b, b.FillSide(key, quantity, price).value)
  {
    hide Book.Remove;
    if key.Some? && key.value in b.orders {
      RemoveRest(b, key.value);
    }
  }

  lemma AddRest(b: Book, event: BookEvent)
    requires event.AddOrder? && b.ApplyAdd(event).Ok?
    ensures SameRest(b.(seen := b.seen + {event.orderKey}), b.ApplyAdd(event).value.0)
  {
    hide Book.Attach, Total, QueueTotal, BestOf;
    var key := event.orderKey;
    var price := b.ResolvePrice(key.side, event.pricing).value;
    var order := Order(price, event.quantity, event.quantity, false,
      event.crossing.HideIfCrossing? || event.crossing.RestAtLastTradePrice?, event.crossing.RestAtLastTradePrice?);
    if price.Some? {
      AttachRest(b.(orders := b.orders[key := order], seen := b.seen + {key}), key, price.value);
    }
  }

  lemma TradeRest(b: Book, policy: UnknownTradePolicy, event: BookEvent)
    requires event.Trade? && b.ApplyTrade(policy, event).Ok?
    ensures SameRest(b.(statistics := Record(b.statistics, event.price, event.quantity)),
                     b.ApplyTrade(policy, event).value.0)
  {
    hide Book.FillSide, Book.Reenter, Record;
    var bid, ask := b.Resolve(event.bidOrder, Buy).value.key, b.Resolve(event.askOrder, Sell).value.key;
    var first := b.FillSide(bid, event.quantity, event.price).value;
    var filled := first.FillSide(ask, event.quantity, event.price).value;
    FillSideRest(b, bid, event.quantity, event.price);
    FillSideRest(first, ask, event.quantity, event.price);
    var traded := filled.(statistics := Record(b.statistics, event.price, event.quantity));
    ReenterRest(traded, bid);
    ReenterRest(traded.Reenter(bid).value, ask);
  }

  /** Events touch neither the revision nor the remembered metadata; `Apply` does that last. */
  lemma StepKeepsRevision(b: Book, policy: UnknownTradePolicy, event: BookEvent)
    ensures event.AddOrder? && b.ApplyAdd(event).Ok? ==>
      b.ApplyAdd(event).value.0.revision == b.revision && b.ApplyAdd(event).value.0.lastMeta == b.lastMeta
    ensures event.OrderCancel? && b.ApplyCancel(event).Ok? ==>
      b.ApplyCancel(event).value.0.revision == b.revision && b.ApplyCancel(event).value.0.lastMeta == b.lastMeta
    ensures event.Trade? && b.ApplyTrade(policy, event).Ok? ==>
      b.ApplyTrade(policy, event).value.0.revision == b.revision
        && b.ApplyTrade(policy, event).value.0.lastMeta == b.lastMeta
  {
    hide Book.ApplyAdd, Book.ApplyTrade, Book.Remove;
    match event {
      case AddOrder(_, _, _, _, _) => if b.ApplyAdd(event).Ok? { AddRest(b, event); }
      case OrderCancel(_, key) => if key in b.orders { RemoveRest(b, key); }
      case Trade(_, _, _, _, _) => if b.ApplyTrade(policy, event).Ok? { TradeRest(b, policy, event); }
    }
  }

  /** The guards of the source against a broken book never answer an event. */
  lemma NeverDefensive(config: BookConfig, b: Book, event: BookEvent)
    ensures b.Apply(config, event).Err? ==> !b.Apply(config, event).error.Defensive()
  {
    hide Total, QueueTotal, BestOf, Leave, Record;
  }
}
