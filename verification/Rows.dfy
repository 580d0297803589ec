/** What the rows of a Shenzhen channel mean for the book of their symbol (src/production/replay.rs).
    A row becomes one event, which depends on the row, on the book before it and on the orders named
    before it; nothing else moves a book, except that the diagnostic policy may infer a rest. */
module Rows {
  import opened Wrappers
  import opened MarketData
  import opened Book
  import opened BookRuns
  import opened Spool
  import opened Pending
  import opened Trades
  import opened Fifo

  datatype ReplayError =
    | AmbiguousSequence(sequence: nat) | QuoteTimeRegression | ApplyFailed(cause: BookError)
    | Normalize | UnresolvedOrder(reason: Unresolved)

  /** What is fixed for one symbol on one channel. */
  datatype Env = Env(channel: u32, bookKey: BookKey, policy: Policy) {
    function Config(): BookConfig {
      BookConfig(bookKey, Reject)
    }
  }

  /** The orders a channel has named so far, by side and number. */
  type Directory = map<(Side, nat), OrderKey>

  function SideOf(side: SzSide): Side {
    if side.SzBuy? then Buy else Sell
  }

  function KeyOf(channel: u32, row: OrderRow): OrderKey
    requires row.common.sequence > 0
  {
    OrderKey(channel, SideOf(row.side), row.common.sequence)
  }

  /** An order at its own side's best price finds one. */
  predicate Available(b: Book, row: OrderRow) {
    row.orderKind.SameSideBest? && b.Best(SideOf(row.side)).Some?
  }

  function PricingOf(row: OrderRow, available: bool): PricingInstruction
    requires row.orderKind.Limit? ==> row.price > 0
  {
    match row.orderKind
    case Market => Unpriced
    case Limit => Provided(row.price)
    case SameSideBest => if available then PricingInstruction.SameSideBest else Unpriced
  }

  /** Limit orders always rest; an order that must take what it finds stays hidden until its
      executions are known, unless the policy lets it rest at its last trade price. */
  function CrossingOf(policy: Policy, row: OrderRow, available: bool): CrossingBehavior {
    match row.orderKind
    case Market => if policy.RestAtLastPrice? then RestAtLastTradePrice else AlwaysHide
    case SameSideBest => if available then Rest else AlwaysHide
    case Limit => Rest
  }

  /** A trade names an order by number: nobody, one this channel has seen, or an unknown one. */
  function ReferenceTo(directory: Directory, side: Side, number: u64): OrderReference {
    if number == 0 then Absent
    else if (side, number) in directory then Resolved(directory[(side, number)])
    else Unresolved(side, number)
  }

  /** Where a cancellation points. */
  function TargetOf(row: ExecutionRow): (Side, nat) {
    if row.bidOrderNo > 0 then (Buy, row.bidOrderNo) else (Sell, row.askOrderNo)
  }

  /** A cancellation names one order, which the book holds with exactly the row's quantity. */
  predicate CoversTarget(b: Book, directory: Directory, row: ExecutionRow) {
    && (row.bidOrderNo == 0) != (row.askOrderNo == 0)
    && TargetOf(row) in directory && directory[TargetOf(row)] in b.orders
    && b.orders[directory[TargetOf(row)]].remaining == row.quantity
  }

  /** The row can be turned into an event. */
  predicate Usable(env: Env, b: Book, directory: Directory, row: SpoolRow) {
    && row.common.sequence > 0 && b.NextApplySequence().Ok?
    && match row
       case OrderRecord(_, price, quantity, _, kind) => env.channel > 0 && (kind.Limit? ==> price > 0) && quantity > 0
       case ExecutionRecord(_, _, _, price, quantity, kind) =>
         if kind.Trade? then price > 0 && quantity > 0 else CoversTarget(b, directory, row)
       case SseRecord(_, _, _, _, _, _, _, _) => false
  }

  /** The event that a row becomes. */
  function EventOf(env: Env, b: Book, directory: Directory, row: SpoolRow): BookEvent
    requires Usable(env, b, directory, row)
  {
    var c := row.common;
    var meta := EventMeta(env.bookKey, c.sequence, b.NextApplySequence().value, c.localTime, c.quoteTime);
    if row.OrderRecord? then
      var available := Available(b, row);
      AddOrder(meta, KeyOf(env.channel, row), PricingOf(row, available), CrossingOf(env.policy, row, available),
               row.quantity)
    else if row.executionKind.Trade? then
      BookEvent.Trade(meta, ReferenceTo(directory, Buy, row.bidOrderNo), ReferenceTo(directory, Sell, row.askOrderNo),
                      row.price, row.quantity)
    else
      OrderCancel(meta, directory[TargetOf(row)])
  }

  /** The row becomes an event that the book accepts. */
  predicate Takes(env: Env, b: Book, directory: Directory, row: SpoolRow) {
    Usable(env, b, directory, row) && b.Apply(env.Config(), EventOf(env, b, directory, row)).Ok?
  }

  /** An order row names its order for the rows behind it. */
  function Noted(channel: u32, directory: Directory, row: SpoolRow): Directory {
    if row.OrderRecord? && row.common.sequence > 0
    then directory[(SideOf(row.side), row.common.sequence) := KeyOf(channel, row)]
    else directory
  }

  ghost function DirectoryOf(channel: u32, rows: seq<SpoolRow>): Directory {
    if rows == [] then map[]
    else Noted(channel, DirectoryOf(channel, rows[..|rows| - 1]), rows[|rows| - 1])
  }

  lemma DirectoryMore(channel: u32, rows: seq<SpoolRow>, row: SpoolRow)
    ensures DirectoryOf(channel, rows + [row]) == Noted(channel, DirectoryOf(channel, rows), row)
  {
    assert (rows + [row])[..|rows|] == rows;
  }

  /** A directory leads from a side and number to the order of that side and number. */
  lemma {:induction false} DirectoryLeads(channel: u32, rows: seq<SpoolRow>)
    ensures var d := DirectoryOf(channel, rows);
            forall at | at in d :: d[at].channelId == channel && d[at].side == at.0 && d[at].orderId == at.1
  {
    if rows != [] {
      var before, row := DirectoryOf(channel, rows[..|rows| - 1]), rows[|rows| - 1];
      DirectoryLeads(channel, rows[..|rows| - 1]);
      var d := DirectoryOf(channel, rows);
      assert d == Noted(channel, before, row);
      forall at | at in d ensures d[at].channelId == channel && d[at].side == at.0 && d[at].orderId == at.1 {
        if !(row.OrderRecord? && row.common.sequence > 0 && at == (SideOf(row.side), row.common.sequence as nat)) {
          assert at in before && d[at] == before[at];
        }
      }
    }
  }

  // ----- a run driven by rows -----

  function PriceAcross(b: Book, row: OrderRow): Option<i64> {
    var best := b.Best(SideOf(row.side).Opposite());
    if best.Some? then Some(best.value as i64) else None
  }

  /** What allows a remainder to rest: the rows end with the order and its responses, and the trades
      were at the best opposite price of the book in front of the order. */
  ghost predicate InferredFrom(env: Env, before: seq<Step>, rows: seq<SpoolRow>, start: seq<SpoolRow>, order: OrderRow,
                               responses: seq<ExecutionRow>, key: OrderKey, price: Price)
  {
    && rows == start + [order] + responses && order.common.sequence > 0 && key == KeyOf(env.channel, order)
    && |before| > |responses|
    && Inferable(env.policy, order, PriceAcross(Run(env.Config(), before[..|before| - 1 - |responses|]), order),
                 responses, price)
  }

  ghost predicate Inferred(env: Env, before: seq<Step>, rows: seq<SpoolRow>, key: OrderKey, price: Price) {
    exists start, order, responses :: InferredFrom(env, before, rows, start, order, responses, key, price)
  }

  /** An inferred rest is at a price at which the order traded, and at no other, part of its quantity, and
      which headed the other side of the book in front of it. */
  lemma InferredTold(env: Env, before: seq<Step>, rows: seq<SpoolRow>, key: OrderKey, price: Price)
    returns (start: seq<SpoolRow>, order: OrderRow, responses: seq<ExecutionRow>)
    requires Inferred(env, before, rows, key, price)
    ensures rows == start + [order] + responses && Answers(order, responses) && Answered(responses) < order.quantity
    ensures key == OrderKey(env.channel, if order.side.SzBuy? then Buy else Sell, key.orderId)
    ensures key.orderId == order.common.sequence && env.policy.AssumeContiguous? && !order.orderKind.SameSideBest?
    ensures exists i :: 0 <= i < |responses| && responses[i].executionKind.Trade?
    ensures forall i | 0 <= i < |responses| && responses[i].executionKind.Trade? :: responses[i].price == price
    ensures |before| > |responses|
    ensures var b := Run(env.Config(), before[..|before| - 1 - |responses|]);
      var across := if key.side == Buy then b.asks else b.bids;
      price in across && forall p | p in across :: if key.side == Buy then price <= p else p <= price
  {
    hide Answers, Answered, Run;
    start, order, responses :| InferredFrom(env, before, rows, start, order, responses, key, price);
    var i :| 0 <= i < |responses| && responses[i].executionKind.Trade? && responses[i].price == price;
    forall i | 0 <= i < |responses| && responses[i].executionKind.Trade? ensures responses[i].price == price {
      assert TradedAt(responses, responses[i].price);
    }
  }

  ghost predicate Becomes(env: Env, before: seq<Step>, rows: seq<SpoolRow>, row: SpoolRow, event: BookEvent) {
    var b, directory := Run(env.Config(), before), DirectoryOf(env.channel, rows);
    Takes(env, b, directory, row) && event == EventOf(env, b, directory, row)
  }

  /** The run consists of exactly the events of the rows, in order, and of inferred rests; all succeed. */
  ghost predicate Drives(env: Env, steps: seq<Step>, rows: seq<SpoolRow>) {
    if steps == [] then rows == []
    else
      var before, last := steps[..|steps| - 1], steps[|steps| - 1];
      if last.Event? then
        && rows != [] && Drives(env, before, rows[..|rows| - 1])
        && Becomes(env, before, rows[..|rows| - 1], rows[|rows| - 1], last.event)
      else
        && Drives(env, before, rows) && Inferred(env, before, rows, last.key, last.price)
        && Run(env.Config(), before).RestPending(last.key, last.price).Ok?
  }

  lemma DrivesEvent(env: Env, steps: seq<Step>, rows: seq<SpoolRow>, row: SpoolRow, event: BookEvent)
    requires Drives(env, steps, rows) && Becomes(env, steps, rows, row, event)
    ensures Drives(env, steps + [Event(event)], rows + [row])
  {
    hide Becomes;
    assert (steps + [Event(event)])[..|steps|] == steps && (rows + [row])[..|rows|] == rows;
  }

  lemma DrivesRest(env: Env, steps: seq<Step>, rows: seq<SpoolRow>, key: OrderKey, price: Price)
    requires Drives(env, steps, rows) && Inferred(env, steps, rows, key, price)
    requires Run(env.Config(), steps).RestPending(key, price).Ok?
    ensures Drives(env, steps + [Completion(key, price)], rows)
  {
    hide Inferred, Book.RestPending, Run;
    assert (steps + [Completion(key, price)])[..|steps|] == steps;
  }

  /** Unless rests are inferred, the rows alone decide the run and with it the book. */
  lemma {:induction false} RowsDecide(env: Env, a: seq<Step>, b: seq<Step>, rows: seq<SpoolRow>)
    requires !env.policy.AssumeContiguous? && Drives(env, a, rows) && Drives(env, b, rows)
    ensures a == b && |a| == |rows|
  {
    hide Run, Takes, Usable, EventOf, DirectoryOf;
    if rows == [] {
      NoRows(env, a);
      NoRows(env, b);
    } else {
      RowLast(env, a, rows);
      RowLast(env, b, rows);
      RowsDecide(env, a[..|a| - 1], b[..|b| - 1], rows[..|rows| - 1]);
      assert a == a[..|a| - 1] + [a[|a| - 1]] && b == b[..|b| - 1] + [b[|b| - 1]];
    }
  }

  lemma NoInference(env: Env, before: seq<Step>, rows: seq<SpoolRow>, key: OrderKey, price: Price)
    requires !env.policy.AssumeContiguous?
    ensures !Inferred(env, before, rows, key, price)
  {
    hide Run, Answers, Answered;
  }

  lemma NoRows(env: Env, steps: seq<Step>)
    requires !env.policy.AssumeContiguous? && Drives(env, steps, [])
    ensures steps == []
  {
    hide Inferred, Becomes;
    if steps != [] && steps[|steps| - 1].Completion? {
      NoInference(env, steps[..|steps| - 1], [], steps[|steps| - 1].key, steps[|steps| - 1].price);
    }
  }

  lemma RowLast(env: Env, steps: seq<Step>, rows: seq<SpoolRow>)
    requires !env.policy.AssumeContiguous? && Drives(env, steps, rows) && rows != []
    ensures steps != [] && steps[|steps| - 1].Event? && Drives(env, steps[..|steps| - 1], rows[..|rows| - 1])
    ensures Becomes(env, steps[..|steps| - 1], rows[..|rows| - 1], rows[|rows| - 1], steps[|steps| - 1].event)
  {
    hide Inferred, Becomes;
    if steps != [] && steps[|steps| - 1].Completion? {
      NoInference(env, steps[..|steps| - 1], rows, steps[|steps| - 1].key, steps[|steps| - 1].price);
    }
  }

  // ----- whoever left stays away -----

  /** The step added its order hidden, to take what it finds. */
  predicate AddsHidden(step: Step) {
    step.Event? && step.event.AddOrder? && step.event.crossing.AlwaysHide?
  }

  /** Every order that was added hidden has left the book. */
  ghost predicate HiddenGone(steps: seq<Step>, b: Book) {
    forall i | 0 <= i < |steps| && AddsHidden(steps[i]) :: steps[i].event.orderKey !in b.orders
  }

  ghost predicate AddedSeen(steps: seq<Step>, b: Book) {
    forall i | 0 <= i < |steps| && AddsHidden(steps[i]) :: steps[i].event.orderKey in b.seen
  }

  lemma {:induction false} AllSeen(env: Env, steps: seq<Step>, rows: seq<SpoolRow>)
    requires Drives(env, steps, rows)
    ensures AddedSeen(steps, Run(env.Config(), steps))
  {
    hide Inferred, Book.Apply, Book.RestPending, Book.WellFormed, Fair;
    if steps != [] {
      var before, last := steps[..|steps| - 1], steps[|steps| - 1];
      RunWellFormed(env.Config(), before);
      StepFair(env.Config(), Run(env.Config(), before), last);
      AllSeen(env, before, if last.Event? then rows[..|rows| - 1] else rows);
      if AddsHidden(last) {
        SeenOnceAdded(env.Config(), Run(env.Config(), before), last.event);
      }
      assert forall i | 0 <= i < |before| :: steps[i] == before[i];
    }
  }

  lemma SeenOnceAdded(config: BookConfig, b: Book, event: BookEvent)
    requires event.AddOrder? && b.Apply(config, event).Ok?
    ensures event.orderKey in b.Apply(config, event).value.0.seen
  {
    hide Book.ApplyAdd, Book.ApplyTrade, Book.ApplyCancel;
    AddRest(b, event);
  }

  /** Nobody who has left comes back. */
  lemma GoneForGood(env: Env, steps: seq<Step>, rows: seq<SpoolRow>, later: seq<Step>)
    requires Drives(env, steps, rows) && steps <= later && HiddenGone(steps, Run(env.Config(), steps))
    ensures HiddenGone(steps, Run(env.Config(), later))
  {
    hide Run, Fair, Drives;
    assert later[..|steps|] == steps;
    RunFair(env.Config(), later, |steps|);
    AllSeen(env, steps, rows);
  }
}
