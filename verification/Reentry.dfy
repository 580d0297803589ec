/** Who may ever rest again, told by how an order was added: the crossing behaviour of its event, the
    trades that named it and the completions it was given, over any run. */
module Reentry {
  import opened Wrappers
  import opened MarketData
  import opened Depth
  import opened Queues
  import opened Book
  import opened BookRuns
  import opened Trades
  import opened Effects

  // ----- one step -----

  /** The number of the last event that the book accepted. */
  function LastNumber(b: Book): nat {
    if b.lastMeta.None? then 0 else b.lastMeta.value.applySequence
  }

  /** A step can be taken when it is for this book, next in its numbering, and possible in itself. */
  ghost predicate Possible(config: BookConfig, b: Book, step: Step) {
    match step
    case Completion(key, price) => Completable(b, key, price)
    case Event(event) =>
      && event.meta.bookKey == config.bookKey && event.meta.applySequence == LastNumber(b) + 1
      && match event
         case AddOrder(_, _, _, _, _) => Addable(b, event)
         case OrderCancel(_, key) => key in b.orders
         case Trade(_, _, _, _, _) => Tradable(b, config.unknownTradePolicy, event)
  }

  ghost predicate Effective(b: Book, step: Step, b': Book) {
    && b'.lastMeta == (if step.Event? then Some(step.event.meta) else b.lastMeta)
    && b'.revision == (if b.revision < MAX_U64 then b.revision + 1 else MAX_U64)
    && match step
       case Completion(key, price) => CompletesOrder(b, key, price, b')
       case Event(event) =>
         match event
         case AddOrder(_, _, _, _, _) => AddsOrder(b, event, b')
         case OrderCancel(_, _) => CancelsOrder(b, event, b')
         case Trade(_, _, _, _, _) => TradesOrders(b, event, b')
  }

  lemma NextNumber(b: Book, n: ApplySequence)
    ensures b.NextApplySequence() == Ok(n) <==> n == LastNumber(b) + 1
  {
  }

  /** Every step succeeds exactly when it can be taken, and has the effect its event tells. */
  lemma StepTold(config: BookConfig, b: Book, step: Step)
    requires b.WellFormed()
    ensures Succeeds(config, b, step) <==> Possible(config, b, step)
    ensures Succeeds(config, b, step) ==> Effective(b, step, After(config, b, step))
    ensures !Succeeds(config, b, step) ==> After(config, b, step) == b
  {
    hide Book.WellFormed, Book.ApplyAdd, Book.ApplyCancel, Book.ApplyTrade, Addable, Tradable, LeavesQueueAt;
    hide TradesOrders, CancelsOrder, PricedAs, RestsAtOnce;
    match step {
      case Completion(key, price) =>
        CompletionEffect(b, key, price);
        CompletionKeeps(b, key, price);
      case Event(event) =>
        NextNumber(b, event.meta.applySequence);
        StepKeepsRevision(b, config.unknownTradePolicy, event);
        match event {
          case AddOrder(_, _, _, _, _) =>
            AddDecides(b, event);
            if b.ApplyAdd(event).Ok? {
              AddEffect(b, event);
            }
          case OrderCancel(_, key) =>
            CancelEffect(b, event);
            if key in b.orders {
              StampedCancel(b, event, b.ApplyCancel(event).value.0, Some(event.meta), b.NextRevision());
            }
          case Trade(_, _, _, _, _) =>
            TradeDecides(b, config.unknownTradePolicy, event);
            if b.ApplyTrade(config.unknownTradePolicy, event).Ok? {
              TradeEffect(b, config.unknownTradePolicy, event);
              StampedTrade(b, event, b.ApplyTrade(config.unknownTradePolicy, event).value.0, Some(event.meta),
                           b.NextRevision());
            }
        }
    }
  }

  lemma CompletionKeeps(b: Book, key: OrderKey, price: Price)
    ensures b.RestPending(key, price).Ok? ==> b.RestPending(key, price).value.lastMeta == b.lastMeta
    ensures b.RestPending(key, price).Ok? ==> b.RestPending(key, price).value.revision == b.NextRevision()
  {
  }

  /** Stamping a book changes nothing that a cancellation or a trade says about it. */
  lemma StampedCancel(b: Book, event: BookEvent, b': Book, meta: Option<EventMeta>, revision: nat)
    requires event.OrderCancel? && CancelsOrder(b, event, b')
    ensures CancelsOrder(b, event, b'.(lastMeta := meta, revision := revision))
  {
    forall side, p: Price ensures LeavesQueueAt(b, b'.(lastMeta := meta, revision := revision), event.orderKey, side, p)
    {
      assert LeavesQueueAt(b, b', event.orderKey, side, p);
    }
  }

  lemma StampedTrade(b: Book, event: BookEvent, b': Book, meta: Option<EventMeta>, revision: nat)
    requires event.Trade? && TradesOrders(b, event, b')
    ensures TradesOrders(b, event, b'.(lastMeta := meta, revision := revision))
  {
    hide Survives, OrderAfter, Remainder, Arriving;
    forall p: Price ensures QueueTraded(b, event, b'.(lastMeta := meta, revision := revision), p) {
      assert QueueTraded(b, event, b', p);
    }
  }

  // ----- why a step is refused -----

  /** The reference names this identity on this side, and nobody active is meant. */
  ghost predicate NamesInactive(b: Book, reference: OrderReference, side: Side, id: OrderId) {
    match reference
    case Absent => false
    case Resolved(key) => key !in b.orders && key.side == side && key.orderId == id
    case Unresolved(actual, number) => actual == side && number == id
  }

  ghost predicate OffSide(reference: OrderReference, expected: Side, actual: Side) {
    expected != actual && match reference
      case Absent => false
      case Resolved(key) => key.side == actual
      case Unresolved(side, _) => side == actual
  }

  /** The error names something that does stand in the way of the event. */
  ghost predicate Explains(error: BookError, config: BookConfig, b: Book, event: BookEvent) {
    match error
    case BookKeyMismatch(expected, actual) =>
      expected == config.bookKey && actual == event.meta.bookKey && expected != actual
    case ApplySequenceOverflow => LastNumber(b) == MAX_U64
    case InvalidApplySequence(expected, actual) =>
      expected == LastNumber(b) + 1 && actual == event.meta.applySequence && expected != actual
    case DuplicateOrder(key) => event.AddOrder? && key == event.orderKey && key in b.seen
    case ReferencePriceUnavailable(side, instruction) =>
      && event.AddOrder? && side == event.orderKey.side && instruction == event.pricing
      && ((instruction.SameSideBest? && Own(b, side) == map[])
          || (instruction.OppositeBest? && Across(b, side) == map[]))
    case UnpricedVisibleOrder =>
      event.AddOrder? && event.pricing.Unpriced? && (event.crossing.Rest? || event.crossing.HideIfCrossing?)
    case UnknownCancellation(key) => event.OrderCancel? && key == event.orderKey && key !in b.orders
    case InvalidTradeReferenceSide(expected, actual) =>
      && event.Trade?
      && ((expected == Buy && OffSide(event.bidOrder, Buy, actual))
          || (expected == Sell && OffSide(event.askOrder, Sell, actual)))
    case UnknownTradeReference(side, id) =>
      && event.Trade? && config.unknownTradePolicy.Reject?
      && (NamesInactive(b, event.bidOrder, side, id) || NamesInactive(b, event.askOrder, side, id))
    case TradeOverfill(key, remaining, trade) =>
      && event.Trade? && Names(event, key) && key in b.orders
      && remaining == b.orders[key].remaining && trade == event.quantity && remaining < trade
    case ArithmeticOverflow(amount) =>
      if amount.SideQuantity? then event.AddOrder? || event.Trade?
      else amount.TotalTradeQuantity? && event.Trade? && b.statistics.totalQuantity + event.quantity > MAX_U64
    case _ => false
  }

  lemma AddExplained(config: BookConfig, b: Book, event: BookEvent)
    requires event.AddOrder? && b.ApplyAdd(event).Err?
    ensures Explains(b.ApplyAdd(event).error, config, b, event)
  {
    hide Book.SideTotal, Book.Attach, Book.Crosses;
  }

  lemma TradeExplained(config: BookConfig, b: Book, event: BookEvent)
    requires b.WellFormed() && event.Trade? && b.ApplyTrade(config.unknownTradePolicy, event).Err?
    ensures Explains(b.ApplyTrade(config.unknownTradePolicy, event).error, config, b, event)
  {
    hide Book.WellFormed, Book.Reenter, Record, Total, QueueTotal, Book.FillSide;
    if b.Resolve(event.bidOrder, Buy).Ok? && b.Resolve(event.askOrder, Sell).Ok? {
      var bid, ask := b.Resolve(event.bidOrder, Buy).value, b.Resolve(event.askOrder, Sell).value;
      FillSides(b, bid.key, ask.key, event.quantity, event.price);
      if (config.unknownTradePolicy.Reject? ==> bid.unknown.None? && ask.unknown.None?)
         && Fits(b, bid.key, Buy, event.quantity) && Fits(b, ask.key, Sell, event.quantity) {
        ApplyTradeSteps(b, config.unknownTradePolicy, event);
        var t := AfterTrade(b, bid.key, ask.key, event.quantity, event.price);
        ReenterError(t, bid.key);
        if t.Reenter(bid.key).Ok? {
          ReenterError(t.Reenter(bid.key).value, ask.key);
        }
      }
    }
  }

  lemma ReenterError(b: Book, key: Option<OrderKey>)
    ensures b.Reenter(key).Err? ==> b.Reenter(key).error == ArithmeticOverflow(SideQuantity)
  {
    hide Book.SideTotal, Book.Attach, Book.Crosses;
  }

  /** Every refusal is true: the error that an event is refused with stands in its way. */
  lemma RefusalExplained(config: BookConfig, b: Book, event: BookEvent)
    requires b.WellFormed() && b.Apply(config, event).Err?
    ensures Explains(b.Apply(config, event).error, config, b, event)
  {
    hide Book.WellFormed, Book.ApplyAdd, Book.ApplyTrade, Explains;
    ExplainsMeta(config, b, event);
    if event.meta.bookKey == config.bookKey && b.NextApplySequence() == Ok(event.meta.applySequence) {
      match event {
        case AddOrder(_, _, _, _, _) => if b.ApplyAdd(event).Err? { AddExplained(config, b, event); }
        case OrderCancel(_, _) => CancelExplained(config, b, event);
        case Trade(_, _, _, _, _) =>
          if b.ApplyTrade(config.unknownTradePolicy, event).Err? {
            TradeExplained(config, b, event);
          }
      }
    }
  }

  /** All about one event: when it is accepted, what it then does, and why it is refused. */
  lemma EventTold(config: BookConfig, b: Book, event: BookEvent)
    requires b.WellFormed()
    ensures b.Apply(config, event).Ok? <==> Possible(config, b, Event(event))
    ensures b.Apply(config, event).Ok? ==> Effective(b, Event(event), b.Apply(config, event).value.0)
    ensures b.Apply(config, event).Err? ==> Explains(b.Apply(config, event).error, config, b, event)
  {
    hide Book.WellFormed, Book.Apply, Possible, Effective, Explains;
    StepTold(config, b, Event(event));
    if b.Apply(config, event).Err? {
      RefusalExplained(config, b, event);
    }
  }

  lemma ExplainsMeta(config: BookConfig, b: Book, event: BookEvent)
    ensures event.meta.bookKey != config.bookKey ==>
      Explains(BookKeyMismatch(config.bookKey, event.meta.bookKey), config, b, event)
    ensures b.NextApplySequence().Err? ==> Explains(b.NextApplySequence().error, config, b, event)
    ensures b.NextApplySequence().Ok? && b.NextApplySequence().value != event.meta.applySequence ==>
      Explains(InvalidApplySequence(b.NextApplySequence().value, event.meta.applySequence), config, b, event)
  {
  }

  lemma CancelExplained(config: BookConfig, b: Book, event: BookEvent)
    requires event.OrderCancel?
    ensures b.ApplyCancel(event).Err? ==> Explains(b.ApplyCancel(event).error, config, b, event)
  {
  }

  /** The same for a completion: unknown, not pending, crossing, or too much for its side. */
  lemma CompletionRefused(b: Book, key: OrderKey, price: Price)
    requires b.RestPending(key, price).Err?
    ensures match b.RestPending(key, price).error
      case UnknownCancellation(k) => k == key && key !in b.orders
      case InvariantViolation(NotPending) => key in b.orders && (b.orders[key].resting || b.orders[key].allowReentry)
      case InvariantViolation(RemainderCrosses) => Meets(key.side, price, Across(b, key.side))
      case ArithmeticOverflow(amount) =>
        amount.SideQuantity? && key in b.orders
        && b.SideTotal(key.side, false) + b.orders[key].remaining > MAX_U64
      case _ => false
  {
    hide Book.SideTotal, Book.Crosses, Meets;
    CrossesMeets(b, key.side, price);
  }

  // ----- whole runs -----

  /** How the run added the key. */
  ghost function AddedAs(config: BookConfig, steps: seq<Step>, key: OrderKey): Option<CrossingBehavior> {
    if steps == [] then None
    else
      var before, last := steps[..|steps| - 1], steps[|steps| - 1];
      if Adds(last, key) && Succeeds(config, Run(config, before), last) then Some(last.event.crossing)
        else AddedAs(config, before, key)
  }

  predicate Adds(step: Step, key: OrderKey) {
    step.Event? && step.event.AddOrder? && step.event.orderKey == key
  }

  /** Some completion of the key succeeded. */
  ghost predicate Completed(config: BookConfig, steps: seq<Step>, key: OrderKey) {
    steps != [] &&
      var before, last := steps[..|steps| - 1], steps[|steps| - 1];
      Completed(config, before, key)
      || (last.Completion? && last.key == key && Succeeds(config, Run(config, before), last))
  }

  predicate Returns(crossing: CrossingBehavior) {
    crossing.HideIfCrossing? || crossing.RestAtLastTradePrice?
  }

  /** What is known of an order for as long as it is active, by how it was added. */
  ghost predicate Marked(b: Book, added: Option<CrossingBehavior>, completed: bool, key: OrderKey) {
    && (key in b.seen <==> added.Some?)
    && (completed ==> key in b.seen)
    && (key in b.orders ==> added.Some? && OrderMarked(b.orders[key], added.value, completed))
  }

  ghost predicate OrderMarked(o: Order, added: CrossingBehavior, completed: bool) {
    && (o.allowReentry <==> Returns(added))
    && (o.repriceFromTrade <==> added.RestAtLastTradePrice?)
    && (added.Rest? ==> o.resting)
    && (added.HideIfCrossing? ==> o.price.Some?)
    && (added.AlwaysHide? ==> (o.resting <==> completed))
    && (o.resting ==> o.price.Some?)
    && (completed ==> o.resting)
  }

  lemma AddMarks(b: Book, event: BookEvent)
    requires event.AddOrder? && b.ApplyAdd(event).Ok?
    ensures event.orderKey in b.ApplyAdd(event).value.0.orders
    ensures OrderMarked(b.ApplyAdd(event).value.0.orders[event.orderKey], event.crossing, false)
  {
    hide Book.SideTotal, Book.Crosses, BestOf;
  }

  /** All about adding: when, how, and with what right to come back. */
  lemma AddTold(b: Book, event: BookEvent)
    requires b.WellFormed() && event.AddOrder?
    ensures b.ApplyAdd(event).Ok? <==> Addable(b, event)
    ensures b.ApplyAdd(event).Ok? ==>
      && AddsOrder(b, event, b.ApplyAdd(event).value.0)
      && OrderMarked(b.ApplyAdd(event).value.0.orders[event.orderKey], event.crossing, false)
  {
    hide Book.WellFormed, Book.ApplyAdd, Addable, PricedAs, RestsAtOnce, JoinsTail, OrderMarked;
    AddDecides(b, event);
    if b.ApplyAdd(event).Ok? {
      AddEffect(b, event);
      AddMarks(b, event);
    }
  }

  lemma StepMarks(config: BookConfig, b: Book, step: Step, added: Option<CrossingBehavior>, completed: bool,
                  key: OrderKey)
    requires b.WellFormed() && Marked(b, added, completed, key) && Succeeds(config, b, step)
    ensures Marked(After(config, b, step), if Adds(step, key) then Some(step.event.crossing) else added,
                   completed || (step.Completion? && step.key == key), key)
  {
    hide Book.WellFormed, Book.Apply, Book.RestPending, Addable, Tradable, LeavesQueue, QueueTraded, PricedAs;
    hide RestsAtOnce, JoinsTail, Blocked;
    StepTold(config, b, step);
    var b' := After(config, b, step);
    match step {
      case Completion(k, price) =>
        OthersKept(b.orders, b'.orders, k, key);
      case Event(event) =>
        match event {
          case AddOrder(_, _, _, _, _) =>
            AddedMarks(config, b, event);
            OthersKept(b.orders, b'.orders, event.orderKey, key);
          case OrderCancel(_, _) =>
          case Trade(_, _, _, _, _) =>
        }
    }
  }

  lemma OthersKept(orders: Orders, orders': Orders, changed: OrderKey, key: OrderKey)
    ensures orders' - {changed} == orders - {changed} && key != changed ==>
      (key in orders' <==> key in orders) && (key in orders ==> orders'[key] == orders[key])
  {
    assert key != changed ==> (key in orders' <==> key in orders' - {changed});
    assert key != changed ==> (key in orders <==> key in orders - {changed});
  }

  lemma AddedMarks(config: BookConfig, b: Book, event: BookEvent)
    requires event.AddOrder? && b.Apply(config, event).Ok?
    ensures event.orderKey in b.Apply(config, event).value.0.orders
    ensures OrderMarked(b.Apply(config, event).value.0.orders[event.orderKey], event.crossing, false)
  {
    hide Book.ApplyAdd, Book.ApplyTrade, Book.ApplyCancel, OrderMarked;
    AddMarks(b, event);
  }

  /** Over any run, an active order may re-enter, follows its trades, rests and knows a price as the
      event that added it and the completions it was given say. */
  lemma {:induction false} RunMarks(config: BookConfig, steps: seq<Step>, key: OrderKey)
    ensures Marked(Run(config, steps), AddedAs(config, steps, key), Completed(config, steps, key), key)
  {
    hide After, Succeeds, Marked, Book.WellFormed;
    if steps == [] {
      NothingMarked(key);
    } else {
      var before, last := steps[..|steps| - 1], steps[|steps| - 1];
      RunMarks(config, before, key);
      RunWellFormed(config, before);
      if Succeeds(config, Run(config, before), last) {
        StepMarks(config, Run(config, before), last, AddedAs(config, before, key), Completed(config, before, key), key);
      } else {
        StepTold(config, Run(config, before), last);
      }
    }
  }

  lemma NothingMarked(key: OrderKey)
    ensures Marked(EMPTY, None, false, key)
  {
  }

  // ----- who comes to rest -----

  /** A party that may return emerges exactly when, in the book the trade leaves, nobody meets it. */
  lemma EmergesFree(b: Book, policy: UnknownTradePolicy, event: BookEvent, b': Book, key: OrderKey)
    requires b.WellFormed() && b'.WellFormed() && event.Trade? && Tradable(b, policy, event)
    requires TradesOrders(b, event, b') && Names(event, key) && key in b'.orders
    requires !b.orders[key].resting && b.orders[key].allowReentry && LimitAfter(b, event, key).Some?
    ensures Emerges(b, event, key) <==> !Meets(key.side, LimitAfter(b, event, key).value, Across(b', key.side))
  {
    hide Book.WellFormed, Book.SideTotal, QueueTraded, Blocked;
    var side, limit := key.side, LimitAfter(b, event, key).value;
    var bid := event.bidOrder;
    assert key.side == Buy <==> bid == Resolved(key);
    if Meets(side, limit, Across(b', side)) {
      var p: Price :| p in Across(b', side) && if side == Buy then p <= limit else limit <= p;
      var other := LevelHolds(b', side.Opposite(), p);
      if b.orders[other].resting {
        BlocksIt(b, event, side, limit, other);
      }
    }
    if Blocked(b, event, side, limit) {
      var other := Blocker(b, event, side, limit);
      WaitsAtPrice(b', other, side.Opposite(), b.orders[other].price.value);
    } else if !Emerges(b, event, key) {
      assert Emerges(b, event, bid.key);
      WaitsAtPrice(b', bid.key, Buy, LimitAfter(b, event, bid.key).value);
    }
  }

  lemma BlocksIt(b: Book, event: BookEvent, side: Side, price: Price, key: OrderKey)
    requires event.Trade? && Blocks(b, event, side, price, key)
    ensures Blocked(b, event, side, price)
  {
  }

  lemma Blocker(b: Book, event: BookEvent, side: Side, price: Price) returns (key: OrderKey)
    requires event.Trade? && Blocked(b, event, side, price)
    ensures Blocks(b, event, side, price, key)
  {
    key :| Blocks(b, event, side, price, key);
  }

  /** How a trade leaves one of its parties, by how the run had added it. */
  ghost predicate PartyLeft(was: Order, now: Order, added: CrossingBehavior, completed: bool, event: BookEvent,
                            side: Side, across: Levels)
    requires event.Trade?
  {
    && was.remaining == now.remaining + event.quantity && now.original == was.original
    && match added
       case Rest => was.resting && now.resting && now.price == was.price
       case AlwaysHide => (was.resting <==> completed) && now.resting == was.resting && now.price == was.price
       case HideIfCrossing =>
         && now.price == was.price && now.price.Some?
         && (now.resting <==> was.resting || !Meets(side, now.price.value, across))
       case RestAtLastTradePrice =>
         && now.price == (if was.resting then was.price else Some(event.price))
         && (now.resting <==> was.resting || !Meets(side, event.price, across))
  }

  /** Over any run: a trade that names an order which is still active behind it leaves the order
      resting, or hidden because it may not return by itself, or hidden because the book that the
      trade left meets its price; and a market remainder now stands at the price of the trade. */
  lemma TradedParty(config: BookConfig, steps: seq<Step>, event: BookEvent, key: OrderKey)
    requires event.Trade? && Succeeds(config, Run(config, steps), Event(event)) && Names(event, key)
    requires key in After(config, Run(config, steps), Event(event)).orders
    ensures var b, b' := Run(config, steps), After(config, Run(config, steps), Event(event));
      && key in b.orders && AddedAs(config, steps, key).Some?
      && PartyLeft(b.orders[key], b'.orders[key], AddedAs(config, steps, key).value, Completed(config, steps, key),
                   event, key.side, Across(b', key.side))
  {
    hide Run, After, Succeeds, Book.WellFormed, Tradable, QueueTraded, Blocked, Meets, AddedAs, Completed;
    var b, b' := Run(config, steps), After(config, Run(config, steps), Event(event));
    RunWellFormed(config, steps);
    RunMarks(config, steps, key);
    StepTold(config, b, Event(event));
    StepKeepsWellFormed(config, b, Event(event));
    var was := b.orders[key];
    if !was.resting && was.allowReentry && LimitAfter(b, event, key).Some? {
      EmergesFree(b, config.unknownTradePolicy, event, b', key);
    }
  }

  /** Nobody comes to rest otherwise: a hidden order that a step makes rest was named by a trade and may
      return, or was completed and may not. */
  lemma Rises(config: BookConfig, steps: seq<Step>, step: Step, key: OrderKey)
    requires Run(config, steps).Hidden(key) && Succeeds(config, Run(config, steps), step)
    requires var b' := After(config, Run(config, steps), step); key in b'.orders && b'.orders[key].resting
    ensures AddedAs(config, steps, key).Some?
    ensures if Returns(AddedAs(config, steps, key).value)
            then step.Event? && step.event.Trade? && Names(step.event, key)
            else AddedAs(config, steps, key) == Some(AlwaysHide) && step.Completion? && step.key == key
  {
    hide Run, After, Succeeds, Book.WellFormed, Tradable, Addable, LeavesQueue, QueueTraded, Blocked, AddedAs;
    hide Completed, PricedAs, RestsAtOnce, JoinsTail;
    var b, b' := Run(config, steps), After(config, Run(config, steps), step);
    RunWellFormed(config, steps);
    RunMarks(config, steps, key);
    StepTold(config, b, step);
    if step.Completion? {
      OthersKept(b.orders, b'.orders, step.key, key);
    } else if step.event.AddOrder? {
      OthersKept(b.orders, b'.orders, step.event.orderKey, key);
    }
  }

  // ----- numbering -----

  /** The events that a run accepted, in order. */
  ghost function Accepted(config: BookConfig, steps: seq<Step>): seq<BookEvent> {
    if steps == [] then []
    else
      var before, last := steps[..|steps| - 1], steps[|steps| - 1];
      Accepted(config, before)
        + if last.Event? && Succeeds(config, Run(config, before), last) then [last.event] else []
  }

  ghost predicate Numbered(config: BookConfig, b: Book, events: seq<BookEvent>) {
    && b.lastMeta == (if events == [] then None else Some(events[|events| - 1].meta))
    && forall i | 0 <= i < |events| ::
         events[i].meta.bookKey == config.bookKey && events[i].meta.applySequence == i + 1
  }

  /** Over any run the accepted events are all of this book and numbered without a gap from one on,
      and the book remembers the last of them. */
  lemma {:induction false} RunNumbered(config: BookConfig, steps: seq<Step>)
    ensures Numbered(config, Run(config, steps), Accepted(config, steps))
  {
    hide After, Succeeds, Book.WellFormed, Addable, Tradable, AddsOrder, CancelsOrder, TradesOrders, CompletesOrder;
    hide Completable;
    if steps != [] {
      var before, last := steps[..|steps| - 1], steps[|steps| - 1];
      RunNumbered(config, before);
      RunWellFormed(config, before);
      StepTold(config, Run(config, before), last);
    }
  }
}
