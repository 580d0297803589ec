/** What whole runs conserve: quantities per order, trade statistics against the list of trades,
    and revisions as names of states. Sums are taken from the outcomes that `apply` returned. */
module History {
  import opened Wrappers
  import opened MarketData
  import opened Depth
  import opened Queues
  import opened Book
  import opened BookInvariants
  import opened Trades
  import opened BookRuns

  // ----- what one step reports about one order -----

  ghost function Added(config: BookConfig, b: Book, step: Step, key: OrderKey): nat {
    if Succeeds(config, b, step) && step.Event? && step.event.AddOrder? && step.event.orderKey == key
    then step.event.quantity else 0
  }

  ghost function Cancelled(config: BookConfig, b: Book, step: Step, key: OrderKey): nat {
    if Succeeds(config, b, step) && step.Event? && step.event.OrderCancel? && step.event.orderKey == key
       && b.Apply(config, step.event).value.1.Cancelled?
    then b.Apply(config, step.event).value.1.cancelledQuantity else 0
  }

  ghost function Taken(config: BookConfig, b: Book, step: Step, key: OrderKey): nat {
    if Succeeds(config, b, step) && step.Event? && step.event.Trade? && b.Apply(config, step.event).value.1.Traded? then
      var outcome := b.Apply(config, step.event).value.1;
      (if step.event.bidOrder == Resolved(key) then outcome.bidReduction else 0)
      + (if step.event.askOrder == Resolved(key) then outcome.askReduction else 0)
    else 0
  }

  // ----- how the operations move one order's quantity -----

  /** The order is as large as before, or as absent. */
  ghost predicate SameQuantity(b: Book, b': Book, key: OrderKey) {
    && (key in b.orders <==> key in b'.orders)
    && (key in b.orders ==>
         && b'.orders[key].remaining == b.orders[key].remaining
         && b'.orders[key].original == b.orders[key].original)
  }

  /** The order lost `quantity`; if nothing is left of it, it is gone. */
  ghost predicate Lost(b: Book, b': Book, key: OrderKey, quantity: nat) {
    && Remaining(b'.orders, key) + quantity == Remaining(b.orders, key)
    && (key in b'.orders ==> key in b.orders && b'.orders[key].original == b.orders[key].original)
  }

  lemma ReenterQuantity(b: Book, entering: Option<OrderKey>, key: OrderKey)
    ensures b.Reenter(entering).Ok? ==> SameQuantity(b, b.Reenter(entering).value, key)
  {
    hide Total, QueueTotal, BestOf;
  }

  lemma FilledQuantity(b: Book, filled: Option<OrderKey>, side: Side, quantity: Quantity, price: Price, key: OrderKey)
    requires Fits(b, filled, side, quantity)
    ensures Lost(b, Filled(b, filled, quantity, price), key, if filled == Some(key) then quantity else 0)
  {
    hide Leave, QueueTotal, Total;
  }

  lemma TradeLoses(b: Book, policy: UnknownTradePolicy, event: BookEvent, key: OrderKey)
    requires b.WellFormed() && event.Trade? && b.ApplyTrade(policy, event).Ok?
    ensures var (b', outcome) := b.ApplyTrade(policy, event).value;
            outcome.Traded? && Lost(b, b', key, (if event.bidOrder == Resolved(key) then outcome.bidReduction else 0)
                                             + (if event.askOrder == Resolved(key) then outcome.askReduction else 0))
  {
    hide Book.WellFormed, Book.Fill, Book.Reenter, Record, Total, QueueTotal, BestOf;
    var bid, ask := b.Resolve(event.bidOrder, Buy).value.key, b.Resolve(event.askOrder, Sell).value.key;
    TradeFits(b, policy, event);
    ApplyTradeSteps(b, policy, event);
    FilledFrame(b, bid, Buy, event.quantity, event.price);
    FilledQuantity(b, bid, Buy, event.quantity, event.price, key);
    FilledQuantity(Filled(b, bid, event.quantity, event.price), ask, Sell, event.quantity, event.price, key);
    var t := AfterTrade(b, bid, ask, event.quantity, event.price);
    ReenterQuantity(t, bid, key);
    ReenterQuantity(t.Reenter(bid).value, ask, key);
  }

  lemma AddGains(b: Book, event: BookEvent, key: OrderKey)
    requires b.WellFormed() && event.AddOrder? && b.ApplyAdd(event).Ok?
    ensures var b' := b.ApplyAdd(event).value.0;
            && b'.seen == b.seen + {event.orderKey} && event.orderKey !in b.seen
            && (key != event.orderKey ==> SameQuantity(b, b', key))
            && (key == event.orderKey ==> key !in b.orders && key in b'.orders)
            && (key == event.orderKey ==> b'.orders[key].remaining == event.quantity == b'.orders[key].original)
  {
    hide Total, QueueTotal, BestOf, Book.Structured;
    assert b.Structured();
    FreshKey(b, event.orderKey);
    AddRest(b, event);
  }

  // ----- conservation -----

  /** Everything that ever happened to one key, as the outcomes reported it. */
  datatype Account = Account(adds: nat, added: nat, taken: nat, cancelled: nat)

  ghost function AccountOf(config: BookConfig, steps: seq<Step>, key: OrderKey): Account {
    if steps == [] then Account(0, 0, 0, 0) else
      var before := steps[..|steps| - 1];
      var b, step, account := Run(config, before), steps[|steps| - 1], AccountOf(config, before, key);
      Account(account.adds + (if Added(config, b, step, key) > 0 then 1 else 0),
              account.added + Added(config, b, step, key),
              account.taken + Taken(config, b, step, key),
              account.cancelled + Cancelled(config, b, step, key))
  }

  ghost predicate Balanced(b: Book, account: Account, key: OrderKey) {
    && account.added == Remaining(b.orders, key) + account.taken + account.cancelled
    && account.adds == (if key in b.seen then 1 else 0)
    && (key !in b.seen ==> account.added == 0)
    && (key in b.orders ==> b.orders[key].original == account.added)
  }

  lemma StepBalanced(config: BookConfig, b: Book, step: Step, account: Account, key: OrderKey)
    requires b.WellFormed() && Balanced(b, account, key)
    ensures Balanced(After(config, b, step),
      Account(account.adds + (if Added(config, b, step, key) > 0 then 1 else 0),
              account.added + Added(config, b, step, key),
              account.taken + Taken(config, b, step, key),
              account.cancelled + Cancelled(config, b, step, key)), key)
  {
    hide Book.WellFormed, Total, QueueTotal, BestOf, Book.ApplyAdd, Book.ApplyTrade, Leave;
    if Succeeds(config, b, step) {
      match step {
        case Event(event) =>
          match event {
            case AddOrder(_, _, _, _, _) =>
              AddGains(b, event, key);
            case OrderCancel(_, _) =>
            case Trade(_, _, _, _, _) =>
              TradeLoses(b, config.unknownTradePolicy, event, key);
              TradeRest(b, config.unknownTradePolicy, event);
          }
        case Completion(_, _) =>
      }
    }
  }

  /** For every key and every run: what was added is what rests or hides, was traded or was cancelled;
      and no key is ever added twice. */
  lemma {:induction false} RunConserves(config: BookConfig, steps: seq<Step>, key: OrderKey)
    ensures Balanced(Run(config, steps), AccountOf(config, steps, key), key)
  {
    hide After, Book.WellFormed, Added, Taken, Cancelled;
    if steps == [] {
    } else {
      var before := steps[..|steps| - 1];
      RunConserves(config, before, key);
      RunWellFormed(config, before);
      StepBalanced(config, Run(config, before), steps[|steps| - 1], AccountOf(config, before, key), key);
    }
  }

  // ----- trade statistics -----

  /** The successful trades of a run, in order. */
  ghost function TradesOf(config: BookConfig, steps: seq<Step>): seq<(Price, Quantity)> {
    if steps == [] then [] else
      var before, step := steps[..|steps| - 1], steps[|steps| - 1];
      TradesOf(config, before)
      + if Succeeds(config, Run(config, before), step) && step.Event? && step.event.Trade?
        then [(step.event.price, step.event.quantity)] else []
  }

  ghost function SumQuantity(trades: seq<(Price, Quantity)>): nat {
    if trades == [] then 0 else SumQuantity(trades[..|trades| - 1]) + trades[|trades| - 1].1
  }

  ghost function SumTurnover(trades: seq<(Price, Quantity)>): nat {
    if trades == [] then 0 else
      SumTurnover(trades[..|trades| - 1]) + Share(trades[|trades| - 1].0, trades[|trades| - 1].1, true)
  }

  /** The statistics describe exactly this list of trades. */
  ghost predicate Summarizes(s: TradeStatistics, trades: seq<(Price, Quantity)>) {
    && s.tradeCount == |trades|
    && s.totalQuantity == SumQuantity(trades)
    && s.turnover == SumTurnover(trades)
    && (trades == [] <==> s.lastPrice.None?)
    && (trades == [] <==> s.highPrice.None?)
    && (trades == [] <==> s.lowPrice.None?)
    && (trades != [] ==>
         s.lastPrice == Some(trades[|trades| - 1].0) && Extremes(s.lowPrice.value, s.highPrice.value, trades))
  }

  ghost predicate Extremes(low: Price, high: Price, trades: seq<(Price, Quantity)>) {
    && (forall t | t in trades :: low <= t.0 <= high)
    && (exists t :: t in trades && t.0 == low)
    && (exists t :: t in trades && t.0 == high)
  }

  lemma RecordSummarizes(s: TradeStatistics, trades: seq<(Price, Quantity)>, price: Price, quantity: Quantity)
    requires Summarizes(s, trades)
    ensures Summarizes(Record(s, price, quantity), trades + [(price, quantity)])
  {
    var next, trades' := Record(s, price, quantity), trades + [(price, quantity)];
    assert trades'[..|trades'| - 1] == trades;
    assert (price, quantity) in trades';
    forall t | t in trades' ensures next.lowPrice.value <= t.0 <= next.highPrice.value {
      assert t == (price, quantity) || t in trades;
    }
    if trades != [] {
      var low: (Price, Quantity) :| low in trades && low.0 == s.lowPrice.value;
      var high: (Price, Quantity) :| high in trades && high.0 == s.highPrice.value;
      assert low in trades' && high in trades';
    }
  }

  lemma StepSummarizes(config: BookConfig, b: Book, step: Step, trades: seq<(Price, Quantity)>)
    requires Summarizes(b.statistics, trades)
    ensures Summarizes(After(config, b, step).statistics, trades +
      if Succeeds(config, b, step) && step.Event? && step.event.Trade? then [(step.event.price,
                                                                              step.event.quantity)] else [])
  {
    hide Summarizes, Book.ApplyAdd, Book.ApplyTrade, Book.Remove, Book.Attach, Record, Total;
    assert trades + [] == trades;
    if Succeeds(config, b, step) {
      match step {
        case Event(event) =>
          match event {
            case AddOrder(_, _, _, _, _) => AddRest(b, event);
            case OrderCancel(_, key) => RemoveRest(b, key);
            case Trade(_, _, _, _, _) =>
              TradeRest(b, config.unknownTradePolicy, event);
              RecordSummarizes(b.statistics, trades, event.price, event.quantity);
          }
        case Completion(key, price) => AttachRest(b, key, price);
      }
    }
  }

  /** After any run the statistics are those of the list of trades that succeeded. */
  lemma {:induction false} RunSummarizes(config: BookConfig, steps: seq<Step>)
    ensures Summarizes(Run(config, steps).statistics, TradesOf(config, steps))
  {
    hide After, Summarizes, Succeeds;
    if steps == [] {
      EmptySummarizes();
    } else {
      var before := steps[..|steps| - 1];
      RunSummarizes(config, before);
      StepSummarizes(config, Run(config, before), steps[|steps| - 1], TradesOf(config, before));
    }
  }

  lemma EmptySummarizes()
    ensures Summarizes(NO_TRADES, [])
  {}

  /** The turnover lies between the extreme prices times the traded quantity. */
  lemma {:induction false} TurnoverBounds(trades: seq<(Price, Quantity)>, low: Price, high: Price)
    requires forall t | t in trades :: low <= t.0 <= high
    ensures Share(low, SumQuantity(trades), true) <= SumTurnover(trades) <= Share(high, SumQuantity(trades), true)
  {
    if trades == [] {
    } else {
      var before, last := trades[..|trades| - 1], trades[|trades| - 1];
      TurnoverBounds(before, low, high);
      assert last in trades;
      AddShare(low, last.0, high, last.1, SumQuantity(before), SumTurnover(before));
    }
  }

  lemma RunTurnover(config: BookConfig, steps: seq<Step>)
    requires TradesOf(config, steps) != []
    ensures var s := Run(config, steps).statistics;
            && s.lowPrice.Some? && s.lastPrice.Some? && s.highPrice.Some?
            && s.lowPrice.value <= s.lastPrice.value <= s.highPrice.value
            && Share(s.lowPrice.value, s.totalQuantity, true) <= s.turnover
                 <= Share(s.highPrice.value, s.totalQuantity, true)
  {
    hide Run, Share;
    var trades, s := TradesOf(config, steps), Run(config, steps).statistics;
    RunSummarizes(config, steps);
    assert trades[|trades| - 1] in trades;
    TurnoverBounds(trades, s.lowPrice.value, s.highPrice.value);
  }

  // ----- revisions -----

  lemma StepRevision(config: BookConfig, b: Book, step: Step)
    requires b.revision <= MAX_U64
    ensures After(config, b, step) == b || After(config, b, step).revision == MAX_U64
      || After(config, b, step).revision == b.revision + 1
  {
    hide Book.ApplyAdd, Book.ApplyCancel, Book.ApplyTrade, Book.Attach, Total;
  }

  lemma {:induction false} RevisionGrows(config: BookConfig, steps: seq<Step>, n: nat)
    requires n <= |steps|
    ensures Run(config, steps[..n]).revision <= Run(config, steps).revision <= MAX_U64
    ensures Run(config, steps[..n]).revision == Run(config, steps).revision < MAX_U64 ==>
      Run(config, steps[..n]) == Run(config, steps)
  {
    hide After, Book.WellFormed;
    RevisionBound(config, steps[..n]);
    if n == |steps| {
      assert steps[..n] == steps;
    } else {
      var before := steps[..|steps| - 1];
      assert before[..n] == steps[..n];
      RevisionGrows(config, before, n);
      RevisionBound(config, before);
      RevisionBound(config, steps);
      StepRevision(config, Run(config, before), steps[|steps| - 1]);
    }
  }

  lemma RevisionBound(config: BookConfig, steps: seq<Step>)
    ensures Run(config, steps).revision <= MAX_U64
  {
    hide Run;
    RunWellFormed(config, steps);
  }

  /** Along one run, an unsaturated revision names one book: a view cached under it stays correct. */
  lemma RevisionNamesBook(config: BookConfig, steps: seq<Step>, m: nat, n: nat)
    requires m <= n <= |steps|
    requires Run(config, steps[..m]).revision == Run(config, steps[..n]).revision < MAX_U64
    ensures Run(config, steps[..m]) == Run(config, steps[..n])
  {
    hide Run;
    RevisionGrows(config, steps[..n], m);
    assert steps[..n][..m] == steps[..m];
  }
}
