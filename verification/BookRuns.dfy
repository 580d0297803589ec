/** What holds in every state that any run of events and pending completions can reach. A step that
    fails leaves the book as it was, so a run simply goes on behind it. */
module BookRuns {
  import opened Wrappers
  import opened MarketData
  import opened Depth
  import opened Queues
  import opened Book
  import opened BookInvariants
  import opened Trades

  datatype Step = Event(event: BookEvent) | Completion(key: OrderKey, price: Price)

  ghost function Succeeds(config: BookConfig, b: Book, step: Step): bool {
    match step
    case Event(event) => b.Apply(config, event).Ok?
    case Completion(key, price) => b.RestPending(key, price).Ok?
  }

  ghost function After(config: BookConfig, b: Book, step: Step): Book {
    match step
    case Event(event) => if b.Apply(config, event).Ok? then b.Apply(config, event).value.0 else b
    case Completion(key, price) => if b.RestPending(key, price).Ok? then b.RestPending(key, price).value else b
  }

  /** The book after the run `steps` from the empty book. */
  ghost function Run(config: BookConfig, steps: seq<Step>): Book {
    if steps == [] then EMPTY else After(config, Run(config, steps[..|steps| - 1]), steps[|steps| - 1])
  }

  lemma RunStep(config: BookConfig, steps: seq<Step>, step: Step)
    ensures Run(config, steps + [step]) == After(config, Run(config, steps), step)
  {
    hide After;
    assert (steps + [step])[..|steps|] == steps;
  }

  // ----- well-formedness -----

  lemma ReenterKeepsWellFormed(b: Book, key: Option<OrderKey>)
    requires b.WellFormed() && b.Reenter(key).Ok?
    ensures b.Reenter(key).value.WellFormed()
  {
    hide Book.WellFormed, Total, QueueTotal;
    if key.Some? && b.MayReenter(key.value) {
      AttachKeepsWellFormed(b, key.value, b.orders[key.value].price.value);
    }
  }

  lemma AddKeepsWellFormed(b: Book, event: BookEvent)
    requires b.WellFormed() && event.AddOrder? && b.ApplyAdd(event).Ok?
    ensures b.ApplyAdd(event).value.0.WellFormed()
  {
    hide Book.WellFormed, Total, QueueTotal, BestOf;
    var key := event.orderKey;
    var price := b.ResolvePrice(key.side, event.pricing).value;
    var order := Order(price, event.quantity, event.quantity, false,
      event.crossing.HideIfCrossing? || event.crossing.RestAtLastTradePrice?, event.crossing.RestAtLastTradePrice?);
    HideKeepsWellFormed(b, key, order);
    var added := b.(orders := b.orders[key := order], seen := b.seen + {key});
    if price.Some? && added.TryAttach(key, price.value).Ok? {
      AttachKeepsWellFormed(added, key, price.value);
    }
  }

  lemma TradeKeepsWellFormed(b: Book, policy: UnknownTradePolicy, event: BookEvent)
    requires b.WellFormed() && event.Trade? && b.ApplyTrade(policy, event).Ok?
    ensures b.ApplyTrade(policy, event).value.0.WellFormed()
  {
    hide Book.WellFormed, Total, QueueTotal, BestOf, Book.Fill, Book.Reenter, Record;
    var bid, ask := b.Resolve(event.bidOrder, Buy).value.key, b.Resolve(event.askOrder, Sell).value.key;
    TradeFits(b, policy, event);
    ApplyTradeSteps(b, policy, event);
    TradedWellFormed(b, bid, ask, event.quantity, event.price);
    var t := AfterTrade(b, bid, ask, event.quantity, event.price);
    ReenterKeepsWellFormed(t, bid);
    ReenterKeepsWellFormed(t.Reenter(bid).value, ask);
  }

  /** What a successful trade says about its references. */
  lemma TradeFits(b: Book, policy: UnknownTradePolicy, event: BookEvent)
    requires b.WellFormed() && event.Trade? && b.ApplyTrade(policy, event).Ok?
    ensures b.Resolve(event.bidOrder, Buy).Ok? && b.Resolve(event.askOrder, Sell).Ok?
    ensures var bid, ask := b.Resolve(event.bidOrder, Buy).value, b.Resolve(event.askOrder, Sell).value;
            && Fits(b, bid.key, Buy, event.quantity) && Fits(b, ask.key, Sell, event.quantity)
            && (policy.Reject? ==> bid.unknown.None? && ask.unknown.None?)
    ensures b.statistics.totalQuantity + event.quantity <= MAX_U64
  {
    hide Book.WellFormed, Total, QueueTotal, BestOf, Book.Fill, Book.Reenter, Record;
    FillSides(b, b.Resolve(event.bidOrder, Buy).value.key, b.Resolve(event.askOrder, Sell).value.key, event.quantity,
              event.price);
  }

  lemma StampKeepsWellFormed(b: Book, meta: Option<EventMeta>)
    requires b.WellFormed()
    ensures b.(lastMeta := meta, revision := b.NextRevision()).WellFormed()
  {
    hide Total, QueueTotal, LevelsWellFormed;
    forall k | k in b.orders ensures b.(lastMeta := meta, revision := b.NextRevision()).OrderWellFormed(k) {
      assert b.OrderWellFormed(k);
    }
  }

  lemma StepKeepsWellFormed(config: BookConfig, b: Book, step: Step)
    requires b.WellFormed()
    ensures After(config, b, step).WellFormed()
  {
    hide Book.WellFormed, Total, QueueTotal, BestOf, Book.ApplyAdd, Book.ApplyCancel, Book.ApplyTrade, Book.Attach;
    if Succeeds(config, b, step) {
      match step {
        case Event(event) =>
          StepKeepsRevision(b, config.unknownTradePolicy, event);
          match event {
            case AddOrder(_, _, _, _, _) =>
              AddKeepsWellFormed(b, event);
              StampKeepsWellFormed(b.ApplyAdd(event).value.0, Some(event.meta));
            case OrderCancel(_, key) =>
              CancelKeepsWellFormed(b, event);
              StampKeepsWellFormed(b.ApplyCancel(event).value.0, Some(event.meta));
            case Trade(_, _, _, _, _) =>
              TradeKeepsWellFormed(b, config.unknownTradePolicy, event);
              StampKeepsWellFormed(b.ApplyTrade(config.unknownTradePolicy, event).value.0, Some(event.meta));
          }
        case Completion(key, price) =>
          AttachKeepsWellFormed(b, key, price);
          AttachRest(b, key, price);
          StampKeepsWellFormed(b.Attach(key, price), b.lastMeta);
      }
    }
  }

  lemma CancelKeepsWellFormed(b: Book, event: BookEvent)
    requires b.WellFormed() && event.OrderCancel? && b.ApplyCancel(event).Ok?
    ensures b.ApplyCancel(event).value.0.WellFormed()
  {
    hide Book.WellFormed;
    RemoveKeepsWellFormed(b, event.orderKey);
  }

  /** Every reachable book is well formed; the class invariant adds that the storage represents it. */
  lemma {:induction false} RunWellFormed(config: BookConfig, steps: seq<Step>)
    ensures Run(config, steps).WellFormed()
  {
    if steps == [] {
    } else {
      RunWellFormed(config, steps[..|steps| - 1]);
      StepKeepsWellFormed(config, Run(config, steps[..|steps| - 1]), steps[|steps| - 1]);
    }
  }
}
