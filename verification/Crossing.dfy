/** Only an order that rests without looking can cross the book: trades, cancellations, hidden
    orders and both re-entries of one trade never do. */
module Crossing {
  import opened Wrappers
  import opened MarketData
  import opened Depth
  import opened Queues
  import opened Book
  import opened BookInvariants
  import opened Trades
  import opened BookRuns

  /** No level appeared. */
  ghost predicate Thinner(b: Book, b': Book) {
    b'.bids.Keys <= b.bids.Keys && b'.asks.Keys <= b.asks.Keys
  }

  lemma ThinnerUncrossed(b: Book, b': Book)
    requires b.Uncrossed() && Thinner(b, b')
    ensures b'.Uncrossed()
  {
    forall bid, ask | bid in b'.bids && ask in b'.asks ensures bid < ask {
      assert bid in b.bids && ask in b.asks;
    }
  }

  /** A new level keeps the book uncrossed exactly when its price does not cross. */
  lemma AttachUncrossed(b: Book, key: OrderKey, price: Price)
    requires b.Uncrossed() && key in b.orders
    ensures b.Attach(key, price).Uncrossed() <==> !b.Crosses(key.side, price)
  {
    var b' := b.Attach(key, price);
    var best := b.Best(key.side.Opposite());
    assert price in b'.LevelsOf(key.side);
    if b.Crosses(key.side, price) {
      assert best.value in b'.LevelsOf(key.side.Opposite());
    } else {
      forall bid, ask | bid in b'.bids && ask in b'.asks ensures bid < ask {
        if key.side.Buy? {
          assert ask in b.asks && (bid == price || bid in b.bids);
        } else {
          assert bid in b.bids && (ask == price || ask in b.asks);
        }
      }
    }
  }

  lemma RemoveThinner(b: Book, key: OrderKey)
    requires b.WellFormed() && key in b.orders
    ensures Thinner(b, b.Remove(key))
  {
    hide Total, QueueTotal;
    if b.orders[key].resting {
      var price, i := PlaceOf(b, key);
    }
  }

  lemma FilledThinner(b: Book, key: Option<OrderKey>, side: Side, quantity: Quantity, price: Price)
    requires b.WellFormed() && Fits(b, key, side, quantity)
    ensures Thinner(b, Filled(b, key, quantity, price))
  {
    hide Book.WellFormed, Book.Remove;
    if key.Some? {
      RemoveThinner(b, key.value);
    }
  }

  lemma ReenterUncrossed(b: Book, key: Option<OrderKey>)
    requires b.Uncrossed() && b.Reenter(key).Ok?
    ensures b.Reenter(key).value.Uncrossed()
  {
    hide Total, QueueTotal, Book.Attach, Book.Crosses;
    if key.Some? && b.MayReenter(key.value) {
      AttachUncrossed(b, key.value, b.orders[key.value].price.value);
    }
  }

  lemma TradeUncrossed(b: Book, policy: UnknownTradePolicy, event: BookEvent)
    requires b.WellFormed() && b.Uncrossed() && event.Trade? && b.ApplyTrade(policy, event).Ok?
    ensures b.ApplyTrade(policy, event).value.0.Uncrossed()
  {
    hide Book.WellFormed, Book.Fill, Book.Reenter, Book.Resolve, Record, Total, QueueTotal, BestOf, Book.Uncrossed;
    var bid, ask := b.Resolve(event.bidOrder, Buy).value.key, b.Resolve(event.askOrder, Sell).value.key;
    TradeFits(b, policy, event);
    ApplyTradeSteps(b, policy, event);
    TradedUncrossed(b, bid, ask, event.quantity, event.price);
    var t := AfterTrade(b, bid, ask, event.quantity, event.price);
    ReenterUncrossed(t, bid);
    ReenterUncrossed(t.Reenter(bid).value, ask);
  }

  lemma TradedUncrossed(b: Book, bid: Option<OrderKey>, ask: Option<OrderKey>, quantity: Quantity, price: Price)
    requires b.WellFormed() && b.Uncrossed() && Fits(b, bid, Buy, quantity) && Fits(b, ask, Sell, quantity)
    ensures AfterTrade(b, bid, ask, quantity, price).Uncrossed()
  {
    hide Book.WellFormed, Book.Fill, Book.Uncrossed, Record;
    var first := Filled(b, bid, quantity, price);
    FilledFrame(b, bid, Buy, quantity, price);
    FilledThinner(b, bid, Buy, quantity, price);
    ThinnerUncrossed(b, first);
    FilledThinner(first, ask, Sell, quantity, price);
    ThinnerUncrossed(first, AfterTrade(b, bid, ask, quantity, price));
  }

  /** An order that is told to rest at a price that meets the other side. */
  ghost predicate RestsAcross(b: Book, step: Step) {
    && step.Event? && step.event.AddOrder? && step.event.crossing.Rest?
    && b.ResolvePrice(step.event.orderKey.side, step.event.pricing).Ok?
    && b.ResolvePrice(step.event.orderKey.side, step.event.pricing).value.Some?
    && b.Crosses(step.event.orderKey.side, b.ResolvePrice(step.event.orderKey.side, step.event.pricing).value.value)
  }

  lemma AddUncrossed(b: Book, event: BookEvent)
    requires b.WellFormed() && b.Uncrossed() && event.AddOrder? && b.ApplyAdd(event).Ok?
    ensures b.ApplyAdd(event).value.0.Uncrossed() <==> !RestsAcross(b, Event(event))
  {
    hide Book.WellFormed, Book.Attach, Book.Crosses, Total, QueueTotal, BestOf;
    var key := event.orderKey;
    var price := b.ResolvePrice(key.side, event.pricing).value;
    var order := Order(price, event.quantity, event.quantity, false,
      event.crossing.HideIfCrossing? || event.crossing.RestAtLastTradePrice?, event.crossing.RestAtLastTradePrice?);
    var added := b.(orders := b.orders[key := order], seen := b.seen + {key});
    if price.Some? {
      AttachUncrossed(added, key, price.value);
      CrossesLevels(b, added, key.side, price.value);
    }
  }

  lemma CrossesLevels(b: Book, b': Book, side: Side, price: Price)
    requires b.bids == b'.bids && b.asks == b'.asks
    ensures b.Crosses(side, price) == b'.Crosses(side, price)
  {}

  /** From an uncrossed book, a step crosses it exactly when it rests an order across the best. */
  lemma StepUncrossed(config: BookConfig, b: Book, step: Step)
    requires b.WellFormed() && b.Uncrossed() && Succeeds(config, b, step)
    ensures After(config, b, step).Uncrossed() <==> !RestsAcross(b, step)
  {
    hide Book.WellFormed, Total, QueueTotal, BestOf, Book.ApplyAdd, Book.ApplyCancel, Book.ApplyTrade, Book.Attach;
    hide Book.Crosses, Book.ResolvePrice;
    match step {
      case Event(event) =>
        match event {
          case AddOrder(_, _, _, _, _) =>
            AddUncrossed(b, event);
          case OrderCancel(_, key) =>
            CancelUncrossed(b, event);
          case Trade(_, _, _, _, _) =>
            TradeUncrossed(b, config.unknownTradePolicy, event);
        }
      case Completion(key, price) =>
        AttachUncrossed(b, key, price);
    }
  }

  lemma CancelUncrossed(b: Book, event: BookEvent)
    requires b.WellFormed() && b.Uncrossed() && event.OrderCancel? && b.ApplyCancel(event).Ok?
    ensures b.ApplyCancel(event).value.0.Uncrossed()
  {
    hide Book.WellFormed, Book.Remove;
    RemoveThinner(b, event.orderKey);
    ThinnerUncrossed(b, b.Remove(event.orderKey));
  }

  ghost predicate NeverRests(steps: seq<Step>) {
    forall i | 0 <= i < |steps| && steps[i].Event? && steps[i].event.AddOrder? :: !steps[i].event.crossing.Rest?
  }

  /** No run without unconditional resting ever crosses or locks the book. */
  lemma {:induction false} RunUncrossed(config: BookConfig, steps: seq<Step>)
    requires NeverRests(steps)
    ensures Run(config, steps).Uncrossed()
  {
    hide After, Succeeds, Book.WellFormed, Book.Crosses, Book.ResolvePrice;
    if steps == [] {
    } else {
      var before := steps[..|steps| - 1];
      var last := steps[|steps| - 1];
      RunUncrossed(config, before);
      RunWellFormed(config, before);
      if Succeeds(config, Run(config, before), last) {
        StepUncrossed(config, Run(config, before), last);
      } else {
        FailedStep(config, Run(config, before), last);
      }
    }
  }

  /** The exact condition, over any run: a run stays uncrossed while nothing rests across. */
  lemma {:induction false} RunCrossesOnlyByRest(config: BookConfig, steps: seq<Step>) returns (i: nat)
    requires !Run(config, steps).Uncrossed()
    ensures i < |steps| && Run(config, steps[..i]).Uncrossed()
    ensures RestsAcross(Run(config, steps[..i]), steps[i]) && !Run(config, steps[..i + 1]).Uncrossed()
  {
    hide After, Succeeds, Book.WellFormed, Book.Crosses, Book.ResolvePrice;
    var before := steps[..|steps| - 1];
    if Run(config, before).Uncrossed() {
      i := |steps| - 1;
      RunWellFormed(config, before);
      assert steps[..i + 1] == steps;
      if Succeeds(config, Run(config, before), steps[i]) {
        StepUncrossed(config, Run(config, before), steps[i]);
      } else {
        FailedStep(config, Run(config, before), steps[i]);
      }
    } else {
      i := RunCrossesOnlyByRest(config, before);
      assert before[..i] == steps[..i] && before[..i + 1] == steps[..i + 1];
    }
  }

  lemma FailedStep(config: BookConfig, b: Book, step: Step)
    requires !Succeeds(config, b, step)
    ensures After(config, b, step) == b
  {}

  // ----- and a book that does cross -----

  function Resting(config: BookConfig, n: ApplySequence, key: OrderKey, price: Price, quantity: Quantity): BookEvent {
    AddOrder(EventMeta(config.bookKey, n, n, 0, 0), key, Provided(price), Rest, quantity)
  }

  lemma RestsAlone(config: BookConfig, b: Book, n: ApplySequence, key: OrderKey, price: Price, quantity: Quantity)
    requires b.NextApplySequence() == Ok(n) && key !in b.seen && b.LevelsOf(key.side) == map[]
    ensures var applied := b.Apply(config, Resting(config, n, key, price, quantity));
      && applied.Ok?
      && var b' := applied.value.0;
         && b'.LevelsOf(key.side) == map[price := [key]]
              && b'.LevelsOf(key.side.Opposite()) == b.LevelsOf(key.side.Opposite())
         && b'.seen == b.seen + {key} && b'.lastMeta == Some(EventMeta(config.bookKey, n, n, 0, 0))
  {
    var order := Order(Some(price), quantity, quantity, false, false, false);
    var added := b.(orders := b.orders[key := order], seen := b.seen + {key});
    EmptySide(added, key.side);
    assert added.TryAttach(key, price) == Ok(added.Attach(key, price));
    assert QueueAt(added.LevelsOf(key.side), price) + [key] == [key];
    assert added.Attach(key, price).LevelsOf(key.side) == map[price := [key]];
    assert b.ApplyAdd(Resting(config, n, key, price, quantity)).value.0 == added.Attach(key, price);
  }

  lemma EmptySide(b: Book, side: Side)
    requires b.LevelsOf(side) == map[]
    ensures b.SideTotal(side, false) == 0
  {
    assert DepthOf(b.orders, b.LevelsOf(side)) == map[];
  }

  /** One sell and one buy, both resting unconditionally: the book they leave is crossed or locked
      exactly when the buy pays at least what the sell asks. */
  lemma TwoRests(config: BookConfig, ask: Price, bid: Price, quantity: Quantity)
    ensures var steps := [Event(Resting(config, 1, OrderKey(1, Sell, 1), ask, quantity)),
                          Event(Resting(config, 2, OrderKey(1, Buy, 2), bid, quantity))];
            Run(config, steps).Uncrossed() <==> bid < ask
  {
    hide Book.Apply, Total, QueueTotal;
    var first, second := Resting(config, 1, OrderKey(1, Sell, 1), ask, quantity),
      Resting(config, 2, OrderKey(1, Buy, 2), bid, quantity);
    RestsAlone(config, EMPTY, 1, OrderKey(1, Sell, 1), ask, quantity);
    var one := EMPTY.Apply(config, first).value.0;
    RestsAlone(config, one, 2, OrderKey(1, Buy, 2), bid, quantity);
    var two := one.Apply(config, second).value.0;
    var steps := [Event(first), Event(second)];
    assert steps[..1] == [Event(first)] && steps[..1][..0] == [];
    assert Run(config, steps[..1]) == one;
    assert Run(config, steps) == two;
    assert two.asks == map[ask := [OrderKey(1, Sell, 1)]] && two.bids == map[bid := [OrderKey(1, Buy, 2)]];
    assert ask in two.asks && bid in two.bids;
  }
}
