/** Time priority over whole runs: at one price, whoever waited first stays first for as long as
    both are in the book, and an order that comes to rest waits behind everybody already there. */
module Fifo {
  import opened Wrappers
  import opened MarketData
  import opened Depth
  import opened Queues
  import opened Book
  import opened BookInvariants
  import opened Trades
  import opened BookRuns

  /** `first` waits in front of `second` at `price`. */
  ghost predicate Precedes(b: Book, side: Side, price: Price, first: OrderKey, second: OrderKey) {
    exists i, j :: 0 <= i < j < |QueueAt(b.LevelsOf(side), price)|
      && QueueAt(b.LevelsOf(side), price)[i] == first && QueueAt(b.LevelsOf(side), price)[j] == second
  }

  ghost predicate Waits(b: Book, side: Side, price: Price, key: OrderKey) {
    key in QueueAt(b.LevelsOf(side), price)
  }

  /** The step kept the order of those who stay, and put newcomers behind them. */
  ghost predicate Fair(b: Book, b': Book) {
    forall side, price, first, second :: FairAt(b, b', side, price, first, second)
  }

  ghost predicate FairAt(b: Book, b': Book, side: Side, price: Price, first: OrderKey, second: OrderKey) {
    && (first in b'.orders && second in b'.orders && Precedes(b, side, price, first, second) ==>
          Precedes(b', side, price, first, second))
    && (first in b'.orders && Waits(b, side, price, first) ==> Waits(b', side, price, first))
    && (first in b'.orders && Waits(b, side, price, first) && Waits(b', side, price, second)
        && !Waits(b, side, price, second) ==>
          Precedes(b', side, price, first, second))
  }

  lemma SameQueuesFair(b: Book, b': Book)
    requires b.bids == b'.bids && b.asks == b'.asks
    ensures Fair(b, b')
  {
    hide Precedes, Waits;
    forall side, price, first, second ensures FairAt(b, b', side, price, first, second) {
      SameQueue(b, b', side, price, first, second);
      SameQueue(b, b', side, price, second, first);
    }
  }

  lemma SameQueue(b: Book, b': Book, side: Side, price: Price, first: OrderKey, second: OrderKey)
    requires QueueAt(b.LevelsOf(side), price) == QueueAt(b'.LevelsOf(side), price)
    ensures Precedes(b, side, price, first, second) <==> Precedes(b', side, price, first, second)
    ensures Waits(b, side, price, first) <==> Waits(b', side, price, first)
  {}

  lemma AttachQueues(b: Book, key: OrderKey, price: Price, side: Side, p: Price)
    requires key in b.orders
    ensures QueueAt(b.Attach(key, price).LevelsOf(side), p)
         == QueueAt(b.LevelsOf(side), p) + if side == key.side && p == price then [key] else []
  {
    assert QueueAt(b.LevelsOf(side), p) + [] == QueueAt(b.LevelsOf(side), p);
  }

  lemma AttachFair(b: Book, key: OrderKey, price: Price)
    requires b.WellFormed() && b.Hidden(key)
    ensures Fair(b, b.Attach(key, price))
  {
    hide Book.WellFormed, Book.Attach, Total, QueueTotal;
    var b' := b.Attach(key, price);
    forall side, p, first, second ensures FairAt(b, b', side, p, first, second) {
      AttachQueues(b, key, price, side, p);
      AppendedQueue(b, b', side, p, key, first, second);
    }
  }

  lemma AppendedQueue(b: Book, b': Book, side: Side, p: Price, key: OrderKey, first: OrderKey, second: OrderKey)
    requires var queue, queue' := QueueAt(b.LevelsOf(side), p), QueueAt(b'.LevelsOf(side), p);
             queue' == queue || queue' == queue + [key]
    ensures Precedes(b, side, p, first, second) ==> Precedes(b', side, p, first, second)
    ensures Waits(b, side, p, first) ==> Waits(b', side, p, first)
    ensures Waits(b, side, p, first) && Waits(b', side, p, second) && !Waits(b, side, p, second) ==>
      Precedes(b', side, p, first, second)
  {
    var queue, queue' := QueueAt(b.LevelsOf(side), p), QueueAt(b'.LevelsOf(side), p);
    if Waits(b, side, p, first) {
      var i :| 0 <= i < |queue| && queue[i] == first;
      assert queue'[i] == first;
    }
    if Precedes(b, side, p, first, second) {
      var i, j :| 0 <= i < j < |queue| && queue[i] == first && queue[j] == second;
      assert queue'[i] == first && queue'[j] == second;
    }
  }

  lemma RemoveQueues(b: Book, key: OrderKey, side: Side, p: Price)
    requires b.WellFormed() && key in b.orders
    ensures QueueAt(b.Remove(key).LevelsOf(side), p)
         == (if b.orders[key].resting && side == key.side && b.orders[key].price == Some(p)
             then Without(QueueAt(b.LevelsOf(side), p), key) else QueueAt(b.LevelsOf(side), p))
  {
    hide Total, QueueTotal;
    if b.orders[key].resting {
      var price, i := PlaceOf(b, key);
    }
  }

  lemma RemoveFair(b: Book, key: OrderKey)
    requires b.WellFormed() && key in b.orders
    ensures Fair(b, b.Remove(key))
  {
    hide Book.WellFormed, Total, QueueTotal, Leave, Without;
    var b' := b.Remove(key);
    forall side, p, first, second ensures FairAt(b, b', side, p, first, second) {
      RemoveQueues(b, key, side, p);
      LevelsFacts(b, side);
      assert QueueAt(b.LevelsOf(side), p) != [] ==> QueueWellFormed(b.orders, side, p, QueueAt(b.LevelsOf(side), p));
      ShortenedQueue(b, b', side, p, key, first, second);
    }
  }

  lemma ShortenedQueue(b: Book, b': Book, side: Side, p: Price, key: OrderKey, first: OrderKey, second: OrderKey)
    requires var queue, queue' := QueueAt(b.LevelsOf(side), p), QueueAt(b'.LevelsOf(side), p);
             Distinct(queue) && (queue' == queue || queue' == Without(queue, key))
    ensures first != key && second != key && Precedes(b, side, p, first, second) ==>
      Precedes(b', side, p, first, second)
    ensures first != key && Waits(b, side, p, first) ==> Waits(b', side, p, first)
    ensures Waits(b', side, p, second) ==> Waits(b, side, p, second)
  {
    hide Without;
    var queue, queue' := QueueAt(b.LevelsOf(side), p), QueueAt(b'.LevelsOf(side), p);
    if key in queue {
      var at :| 0 <= at < |queue| && queue[at] == key;
      WithoutAt(queue, at);
      RestHolds(queue, at);
      if queue' != queue && first != key && second != key && Precedes(b, side, p, first, second) {
        var i, j :| 0 <= i < j < |queue| && queue[i] == first && queue[j] == second;
        var i', j' := StillBefore(queue, at, i, j);
        assert queue'[i'] == first && queue'[j'] == second;
      }
    } else {
      WithoutNobody(queue, key);
    }
  }

  /** Who is left when one place is taken out. */
  lemma RestHolds(queue: seq<OrderKey>, at: nat)
    requires at < |queue|
    ensures var rest := queue[..at] + queue[at + 1..];
            && (forall k | k in rest :: k in queue)
            && (forall k | k in queue && k != queue[at] :: k in rest)
  {
    assert queue == queue[..at] + [queue[at]] + queue[at + 1..];
  }

  lemma StillBefore(queue: seq<OrderKey>, at: nat, i: nat, j: nat) returns (i': nat, j': nat)
    requires at < |queue| && i < j < |queue| && i != at && j != at
    ensures var rest := queue[..at] + queue[at + 1..];
            i' < j' < |rest| && rest[i'] == queue[i] && rest[j'] == queue[j]
  {
    i', j' := if i < at then i else i - 1, if j < at then j else j - 1;
  }

  lemma {:induction false} WithoutNobody(queue: seq<OrderKey>, key: OrderKey)
    requires key !in queue
    ensures Without(queue, key) == queue
  {
    if queue == [] {
    } else {
      WithoutNobody(queue[1..], key);
    }
  }

  /** Fair steps compose, as long as nobody who left comes back in between. */
  lemma FairThen(a: Book, b: Book, c: Book)
    requires Fair(a, b) && Fair(b, c)
    requires forall k | k in c.orders && k in a.orders :: k in b.orders
    requires a.WellFormed() && c.WellFormed()
    ensures Fair(a, c)
  {
    hide Precedes, Waits, Book.WellFormed;
    forall side, price, first, second ensures FairAt(a, c, side, price, first, second) {
      assert FairAt(a, b, side, price, first, second) && FairAt(b, c, side, price, first, second);
      WaitersKnown(a, side, price, first, second);
      WaitersKnown(c, side, price, second, second);
    }
  }

  lemma WaitersKnown(b: Book, side: Side, price: Price, first: OrderKey, second: OrderKey)
    requires b.WellFormed()
    ensures Waits(b, side, price, first) ==> first in b.orders
    ensures Precedes(b, side, price, first, second) ==> first in b.orders && second in b.orders
  {
    hide Total, QueueTotal, Book.OrderWellFormed;
    if price in b.LevelsOf(side) {
      assert QueueWellFormed(b.orders, side, price, b.LevelsOf(side)[price]);
    }
  }

  // ----- steps -----

  lemma FilledFair(b: Book, key: Option<OrderKey>, side: Side, quantity: Quantity, price: Price)
    requires b.WellFormed() && Fits(b, key, side, quantity)
    ensures Fair(b, Filled(b, key, quantity, price))
    ensures forall k | k in Filled(b, key, quantity, price).orders :: k in b.orders
  {
    hide Book.WellFormed, Book.Remove, Fair;
    SameQueuesFair(b, b);
    if key.Some? && quantity == b.orders[key.value].remaining {
      RemoveFair(b, key.value);
      RemoveKeys(b, key.value);
    } else if key.Some? {
      SameQueuesFair(b, b.Fill(key.value, quantity, price));
    }
  }

  lemma RemoveKeys(b: Book, key: OrderKey)
    requires key in b.orders
    ensures b.Remove(key).orders == b.orders - {key}
  {}

  lemma ReenterFair(b: Book, key: Option<OrderKey>)
    requires b.WellFormed() && b.Reenter(key).Ok?
    ensures Fair(b, b.Reenter(key).value)
    ensures b.Reenter(key).value.orders.Keys == b.orders.Keys
  {
    hide Book.WellFormed, Fair, Total, QueueTotal, BestOf;
    SameQueuesFair(b, b);
    if key.Some? && b.MayReenter(key.value) {
      AttachFair(b, key.value, b.orders[key.value].price.value);
    }
  }

  lemma TradeFair(b: Book, policy: UnknownTradePolicy, event: BookEvent)
    requires b.WellFormed() && event.Trade? && b.ApplyTrade(policy, event).Ok?
    ensures Fair(b, b.ApplyTrade(policy, event).value.0)
    ensures forall k | k in b.ApplyTrade(policy, event).value.0.orders :: k in b.orders
  {
    hide Book.WellFormed, Book.Fill, Book.Reenter, Book.Resolve, Record, Total, QueueTotal, BestOf, Fair;
    var bid, ask := b.Resolve(event.bidOrder, Buy).value.key, b.Resolve(event.askOrder, Sell).value.key;
    TradeFits(b, policy, event);
    ApplyTradeSteps(b, policy, event);
    TradedFair(b, bid, ask, event.quantity, event.price);
    var t := AfterTrade(b, bid, ask, event.quantity, event.price);
    TradedWellFormed(b, bid, ask, event.quantity, event.price);
    ReenterFair(t, bid);
    var r := t.Reenter(bid).value;
    ReenterKeepsWellFormed(t, bid);
    FairThen(b, t, r);
    ReenterFair(r, ask);
    ReenterKeepsWellFormed(r, ask);
    FairThen(b, r, r.Reenter(ask).value);
  }

  lemma TradedFair(b: Book, bid: Option<OrderKey>, ask: Option<OrderKey>, quantity: Quantity, price: Price)
    requires b.WellFormed() && Fits(b, bid, Buy, quantity) && Fits(b, ask, Sell, quantity)
    requires b.statistics.totalQuantity + quantity <= MAX_U64
    ensures Fair(b, AfterTrade(b, bid, ask, quantity, price))
    ensures forall k | k in AfterTrade(b, bid, ask, quantity, price).orders :: k in b.orders
  {
    hide Book.WellFormed, Book.Fill, Fair, Record;
    var first := Filled(b, bid, quantity, price);
    FilledFrame(b, bid, Buy, quantity, price);
    var filled := Filled(first, ask, quantity, price);
    FilledFrame(first, ask, Sell, quantity, price);
    FilledFair(b, bid, Buy, quantity, price);
    FilledFair(first, ask, Sell, quantity, price);
    FairThen(b, first, filled);
    SameQueuesFair(filled, AfterTrade(b, bid, ask, quantity, price));
    TradedWellFormed(b, bid, ask, quantity, price);
    FairThen(b, filled, AfterTrade(b, bid, ask, quantity, price));
  }

  lemma AddFair(b: Book, event: BookEvent)
    requires b.WellFormed() && event.AddOrder? && b.ApplyAdd(event).Ok?
    ensures Fair(b, b.ApplyAdd(event).value.0)
    ensures b.ApplyAdd(event).value.0.orders.Keys == b.orders.Keys + {event.orderKey} && event.orderKey !in b.seen
  {
    hide Book.WellFormed, Fair, Total, QueueTotal, BestOf;
    var key := event.orderKey;
    var price := b.ResolvePrice(key.side, event.pricing).value;
    var order := Order(price, event.quantity, event.quantity, false,
      event.crossing.HideIfCrossing? || event.crossing.RestAtLastTradePrice?, event.crossing.RestAtLastTradePrice?);
    HideKeepsWellFormed(b, key, order);
    var added := b.(orders := b.orders[key := order], seen := b.seen + {key});
    SameQueuesFair(b, added);
    if price.Some? && added.TryAttach(key, price.value).Ok? {
      AttachFair(added, key, price.value);
      AttachKeepsWellFormed(added, key, price.value);
      FairThen(b, added, added.Attach(key, price.value));
    }
  }

  lemma Restamped(b: Book, b': Book, b'': Book)
    requires Fair(b, b') && b''.bids == b'.bids && b''.asks == b'.asks && b''.orders == b'.orders
    ensures Fair(b, b'')
  {
    hide Precedes, Waits;
    forall side, price, first, second ensures FairAt(b, b'', side, price, first, second) {
      assert FairAt(b, b', side, price, first, second);
      SameQueue(b', b'', side, price, first, second);
      SameQueue(b', b'', side, price, second, first);
    }
  }

  /** One step of a run keeps time priority, and revives nobody. */
  lemma StepFair(config: BookConfig, b: Book, step: Step)
    requires b.WellFormed()
    ensures Fair(b, After(config, b, step))
    ensures forall k | k in After(config, b, step).orders :: k in b.orders || k !in b.seen
    ensures b.seen <= After(config, b, step).seen
  {
    hide Book.WellFormed, Fair, Total, QueueTotal, BestOf, Book.ApplyAdd, Book.ApplyTrade, Book.Attach, Book.Remove;
    SameQueuesFair(b, b);
    if Succeeds(config, b, step) {
      match step {
        case Event(event) =>
          match event {
            case AddOrder(_, _, _, _, _) =>
              AddFair(b, event);
              AddRest(b, event);
              Restamped(b, b.ApplyAdd(event).value.0, After(config, b, step));
            case OrderCancel(_, key) =>
              RemoveFair(b, key);
              RemoveKeys(b, key);
              RemoveRest(b, key);
              Restamped(b, b.Remove(key), After(config, b, step));
            case Trade(_, _, _, _, _) =>
              TradeFair(b, config.unknownTradePolicy, event);
              TradeRest(b, config.unknownTradePolicy, event);
              Restamped(b, b.ApplyTrade(config.unknownTradePolicy, event).value.0, After(config, b, step));
          }
        case Completion(key, price) =>
          AttachFair(b, key, price);
          AttachRest(b, key, price);
          AttachKeys(b, key, price);
          Restamped(b, b.Attach(key, price), After(config, b, step));
      }
    }
  }

  lemma AttachKeys(b: Book, key: OrderKey, price: Price)
    requires key in b.orders
    ensures b.Attach(key, price).orders.Keys == b.orders.Keys
  {}

  // ----- runs -----

  lemma SeenOrders(config: BookConfig, steps: seq<Step>)
    ensures forall k | k in Run(config, steps).orders :: k in Run(config, steps).seen
  {
    hide Run, Total, QueueTotal;
    RunWellFormed(config, steps);
    var b := Run(config, steps);
    forall k | k in b.orders ensures k in b.seen {
      assert b.OrderWellFormed(k);
    }
  }

  /** Between any two moments of a run: priority at a price never changes hands, a waiting order
      moves nowhere while it lives, and whoever arrives later is behind. */
  lemma {:induction false} RunFair(config: BookConfig, steps: seq<Step>, n: nat)
    requires n <= |steps|
    ensures Fair(Run(config, steps[..n]), Run(config, steps))
    ensures Run(config, steps[..n]).seen <= Run(config, steps).seen
    ensures forall k | k in Run(config, steps).orders && k in Run(config, steps[..n]).seen ::
      k in Run(config, steps[..n]).orders
  {
    hide Fair, After, Book.WellFormed;
    var start := Run(config, steps[..n]);
    if n == |steps| {
      assert steps[..n] == steps;
      SameQueuesFair(start, start);
    } else {
      var before := steps[..|steps| - 1];
      assert before[..n] == steps[..n];
      RunFair(config, before, n);
      RunWellFormed(config, before);
      RunWellFormed(config, steps[..n]);
      RunWellFormed(config, steps);
      SeenOrders(config, steps[..n]);
      StepFair(config, Run(config, before), steps[|steps| - 1]);
      FairThen(start, Run(config, before), Run(config, steps));
    }
  }
}
