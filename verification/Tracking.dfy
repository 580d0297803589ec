/** One hidden order inside a group (src/production/replay.rs): what the rows of the group do to it,
    and that they hide nobody else. */
module Tracking {
  import opened Wrappers
  import opened MarketData
  import opened Queues
  import opened Book
  import opened BookRuns
  import opened Spool
  import opened Pending
  import opened Rows

  ghost predicate AllResting(b: Book) {
    forall k | k in b.orders :: b.orders[k].resting
  }

  /** `pending` is hidden, may not re-enter by itself and has `left`; a calm book hides nothing else. */
  ghost predicate Tracks(b: Book, calm: bool, pending: Option<OrderKey>, left: nat) {
    && (calm ==> forall k | k in b.orders && Some(k) != pending :: b.orders[k].resting)
    && (pending.None? ==> left == 0)
    && (pending.Some? ==>
         && (left == 0 <==> pending.value !in b.orders)
         && (left > 0 ==>
              var o := b.orders[pending.value];
              !o.resting && !o.allowReentry && o.remaining == left))
  }

  // ----- what one event does to a pending order -----

  lemma AddRestsOrHides(calm: bool, b: Book, event: BookEvent)
    requires event.AddOrder? && (calm ==> AllResting(b)) && b.ApplyAdd(event).Ok?
    ensures event.crossing.Rest? && calm ==> AllResting(b.ApplyAdd(event).value.0)
    ensures event.crossing.AlwaysHide? ==> Tracks(b.ApplyAdd(event).value.0, calm, Some(event.orderKey), event.quantity)
  {
    hide Book.SideTotal, Book.Crosses, Book.Best;
  }

  ghost predicate PartyOf(event: BookEvent, pending: Option<OrderKey>)
    requires event.Trade?
  {
    pending.Some? && (event.bidOrder == Resolved(pending.value) || event.askOrder == Resolved(pending.value))
  }

  lemma FillKeepsPending(calm: bool, b: Book, key: Option<OrderKey>, quantity: Quantity, price: Price,
                         pending: Option<OrderKey>, left: nat)
    requires Tracks(b, calm, pending, left) && b.FillSide(key, quantity, price).Ok?
    requires forall k | k in b.orders :: b.orders[k].remaining > 0
    ensures var b' := b.FillSide(key, quantity, price).value;
            var taken := if key.Some? && key == pending && key.value in b.orders then quantity else 0;
            taken <= left && Tracks(b', calm, pending, left - taken)
            && (forall k | k in b'.orders :: b'.orders[k].remaining > 0)
            && (forall k | k in b'.orders :: k in b.orders)
            && (forall k | k in b.orders && Some(k) != key :: k in b'.orders)
  {
    hide Leave;
  }

  lemma ReenterKeepsPending(calm: bool, b: Book, key: Option<OrderKey>, pending: Option<OrderKey>, left: nat)
    requires Tracks(b, calm, pending, left) && b.Reenter(key).Ok?
    ensures Tracks(b.Reenter(key).value, calm, pending, left)
  {
    hide Book.Crosses, Book.SideTotal;
  }

  /** The active parties of a trade, and whether the pending order is one of them. */
  lemma PartyTakes(b: Book, event: BookEvent, pending: Option<OrderKey>)
    requires event.Trade? && b.Resolve(event.bidOrder, Buy).Ok? && b.Resolve(event.askOrder, Sell).Ok?
    requires b.Resolve(event.bidOrder, Buy).value.unknown.None? && b.Resolve(event.askOrder, Sell).value.unknown.None?
    ensures var bid, ask := b.Resolve(event.bidOrder, Buy).value.key, b.Resolve(event.askOrder, Sell).value.key;
            && (bid.Some? ==> bid.value in b.orders && bid.value.side == Buy)
            && (ask.Some? ==> ask.value in b.orders && ask.value.side == Sell)
            && (PartyOf(event, pending) <==> pending.Some? && (bid == pending || ask == pending))
  {
  }

  /** Both fills of a trade, which are of two orders. */
  lemma FillsKeepPending(calm: bool, b: Book, bid: Option<OrderKey>, ask: Option<OrderKey>, quantity: Quantity,
                         price: Price, pending: Option<OrderKey>, left: nat)
    requires Tracks(b, calm, pending, left) && forall k | k in b.orders :: b.orders[k].remaining > 0
    requires bid.Some? ==> bid.value in b.orders && bid.value.side == Buy
    requires ask.Some? ==> ask.value in b.orders && ask.value.side == Sell
    requires b.FillSide(bid, quantity, price).Ok?
    requires b.FillSide(bid, quantity, price).value.FillSide(ask, quantity, price).Ok?
    ensures var b' := b.FillSide(bid, quantity, price).value.FillSide(ask, quantity, price).value;
            var taken := if pending.Some? && (bid == pending || ask == pending) then quantity else 0;
            taken <= left && Tracks(b', calm, pending, left - taken)
  {
    hide Book.FillSide, Tracks;
    FillKeepsPending(calm, b, bid, quantity, price, pending, left);
    var first := if bid.Some? && bid == pending then quantity else 0;
    FillKeepsPending(calm, b.FillSide(bid, quantity, price).value, ask, quantity, price, pending, left - first);
  }

  lemma TradeKeepsPending(calm: bool, b: Book, event: BookEvent, pending: Option<OrderKey>, left: nat)
    requires event.Trade? && b.WellFormed() && Tracks(b, calm, pending, left) && b.ApplyTrade(Reject, event).Ok?
    ensures var taken := if PartyOf(event, pending) then event.quantity else 0;
            taken <= left && Tracks(b.ApplyTrade(Reject, event).value.0, calm, pending, left - taken)
  {
    hide Book.FillSide, Book.Reenter, Record, Book.Resolve, Tracks, PartyOf, Book.WellFormed;
    AllRemain(b);
    PartyTakes(b, event, pending);
    var bid, ask := b.Resolve(event.bidOrder, Buy).value.key, b.Resolve(event.askOrder, Sell).value.key;
    FillsKeepPending(calm, b, bid, ask, event.quantity, event.price, pending, left);
    var left' := left - if PartyOf(event, pending) then event.quantity else 0;
    var b2 := b.FillSide(bid, event.quantity, event.price).value.FillSide(ask, event.quantity, event.price).value;
    var b3 := b2.(statistics := Record(b.statistics, event.price, event.quantity));
    TracksOrders(b2, b3, calm, pending, left');
    ReenterKeepsPending(calm, b3, bid, pending, left');
    ReenterKeepsPending(calm, b3.Reenter(bid).value, ask, pending, left');
  }

  lemma AllRemain(b: Book)
    requires b.WellFormed()
    ensures forall k | k in b.orders :: b.orders[k].remaining > 0
  {
    assert forall k | k in b.orders :: b.OrderWellFormed(k);
  }

  lemma TracksOrders(b: Book, b': Book, calm: bool, pending: Option<OrderKey>, left: nat)
    requires Tracks(b, calm, pending, left) && b'.orders == b.orders
    ensures Tracks(b', calm, pending, left)
  {
  }

  lemma CancelKeepsPending(calm: bool, b: Book, event: BookEvent, pending: Option<OrderKey>, left: nat)
    requires event.OrderCancel? && Tracks(b, calm, pending, left) && b.ApplyCancel(event).Ok?
    ensures Tracks(b.ApplyCancel(event).value.0, calm, pending, if pending == Some(event.orderKey) then 0 else left)
  {
    hide Leave;
  }

  lemma CompletionRests(calm: bool, b: Book, key: OrderKey, price: Price, left: nat)
    requires Tracks(b, calm, Some(key), left) && b.RestPending(key, price).Ok?
    ensures calm ==> AllResting(b.RestPending(key, price).value)
    ensures var o := b.RestPending(key, price).value.orders;
            key in o && o[key].resting && o[key].remaining == left && o[key].price == Some(price)
  {
    hide Book.SideTotal, Book.Crosses;
  }

  lemma AddedEvent(calm: bool, config: BookConfig, b: Book, event: BookEvent)
    requires event.AddOrder? && (calm ==> AllResting(b)) && b.Apply(config, event).Ok?
    ensures event.crossing.Rest? && calm ==> AllResting(b.Apply(config, event).value.0)
    ensures event.crossing.AlwaysHide? ==>
      Tracks(b.Apply(config, event).value.0, calm, Some(event.orderKey), event.quantity)
  {
    hide Book.ApplyAdd, Book.ApplyCancel, Book.ApplyTrade;
    AddRestsOrHides(calm, b, event);
  }

  lemma TradedEvent(calm: bool, config: BookConfig, steps: seq<Step>, b: Book, event: BookEvent,
                    pending: Option<OrderKey>, left: nat)
    requires event.Trade? && config.unknownTradePolicy.Reject? && b == Run(config, steps)
    ensures b.Apply(config, event).Ok? && Tracks(b, calm, pending, left) ==>
      var taken := if PartyOf(event, pending) then event.quantity else 0;
      taken <= left && Tracks(b.Apply(config, event).value.0, calm, pending, left - taken)
  {
    hide Book.ApplyAdd, Book.ApplyCancel, Book.ApplyTrade, Book.WellFormed, Run, PartyOf;
    if b.Apply(config, event).Ok? && Tracks(b, calm, pending, left) {
      RunWellFormed(config, steps);
      TradeKeepsPending(calm, b, event, pending, left);
    }
  }

  lemma CancelledEvent(calm: bool, config: BookConfig, b: Book, event: BookEvent, pending: Option<OrderKey>, left: nat)
    requires event.OrderCancel? && event.orderKey in b.orders
    ensures b.Apply(config, event).Ok? && Tracks(b, calm, pending, left) ==>
      && Tracks(b.Apply(config, event).value.0, calm, pending, if pending == Some(event.orderKey) then 0 else left)
      && (pending == Some(event.orderKey) ==> b.orders[event.orderKey].remaining == left)
  {
    hide Book.ApplyAdd, Book.ApplyCancel, Book.ApplyTrade;
    if b.Apply(config, event).Ok? && Tracks(b, calm, pending, left) {
      CancelKeepsPending(calm, b, event, pending, left);
    }
  }


  // ----- the rows of a group -----

  /** An order row either hides its order with its whole quantity or lets it rest. */
  lemma OrderHides(env: Env, calm: bool, b: Book, directory: Directory, row: OrderRow)
    requires Takes(env, b, directory, row) && (calm ==> AllResting(b))
    ensures var b' := b.Apply(env.Config(), EventOf(env, b, directory, row)).value.0;
            && (CrossingOf(env.policy, row, Available(b, row)).Rest? && calm ==> AllResting(b'))
            && (CrossingOf(env.policy, row, Available(b, row)).AlwaysHide? ==>
                 Tracks(b', calm, Some(KeyOf(env.channel, row)), row.quantity))
  {
    hide Book.Apply, AllResting, Tracks, Available;
    AddedEvent(calm, env.Config(), b, EventOf(env, b, directory, row));
  }

  /** The pending order's own number leads back to it. */
  ghost predicate Registered(directory: Directory, pending: Option<OrderKey>) {
    pending.Some? ==>
      var at := (pending.value.side, pending.value.orderId as nat);
      at in directory && directory[at] == pending.value
  }

  /** Whoever is pending loses the row's quantity when the row names it, and nothing otherwise. */
  lemma ExecutionTakes(env: Env, calm: bool, steps: seq<Step>, rows: seq<SpoolRow>, row: ExecutionRow,
                       pending: Option<OrderKey>, left: nat)
    requires var b, directory := Run(env.Config(), steps), DirectoryOf(env.channel, rows);
             && Takes(env, b, directory, row) && Registered(directory, pending) && Tracks(b, calm, pending, left)
    ensures var b, directory := Run(env.Config(), steps), DirectoryOf(env.channel, rows);
            var b' := b.Apply(env.Config(), EventOf(env, b, directory, row)).value.0;
            && TakenBy(row, pending) <= left && Tracks(b', calm, pending, left - TakenBy(row, pending))
  {
    hide Run, Book.Apply, Tracks, DirectoryOf;
    var b, directory := Run(env.Config(), steps), DirectoryOf(env.channel, rows);
    var event := EventOf(env, b, directory, row);
    DirectoryLeads(env.channel, rows);
    if row.executionKind.Trade? {
      TradedEvent(calm, env.Config(), steps, b, event, pending, left);
    } else {
      CancelledEvent(calm, env.Config(), b, event, pending, left);
    }
  }

  /** How much of `pending` a row takes. */
  ghost function TakenBy(row: ExecutionRow, pending: Option<OrderKey>): nat {
    if pending.Some? && (if pending.value.side.Buy? then row.bidOrderNo else row.askOrderNo) == pending.value.orderId
    then row.quantity else 0
  }

  lemma NothingPending(calm: bool, b: Book, key: OrderKey)
    requires Tracks(b, calm, Some(key), 0)
    ensures (calm ==> AllResting(b)) && key !in b.orders
  {
  }

  /** The next response names the pending order and takes its own quantity from it. */
  lemma ResponseTakes(row: OrderRow, responses: seq<ExecutionRow>, i: nat, key: OrderKey)
    requires Answers(row, responses) && i < |responses|
    requires key.side == SideOf(row.side) && key.orderId == row.common.sequence
    ensures TakenBy(responses[i], Some(key)) == responses[i].quantity
    ensures responses[i].common.quoteTime == row.common.quoteTime
    ensures Answered(responses[..i + 1]) == Answered(responses[..i]) + responses[i].quantity
  {
    assert References(row, responses[i]);
    assert responses[..i + 1][..i] == responses[..i];
  }
}
