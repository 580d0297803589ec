/** One Shenzhen order whose fate is still open, and the executions that answer it at once
    (src/production/sz_pending.rs). */
module Pending {
  import opened Wrappers
  import opened MarketData
  import opened Spool

  const MAX_RESPONSES := 65_536

  datatype Policy = RestAtLastPrice | RequireEvidence | AssumeContiguous

  const NO_COMMON := Common(0, 0, 0, [0, 0, 0, 0, 0, 0], 0, 0)

  type OrderRow = r: SpoolRow | r.OrderRecord? witness OrderRecord(NO_COMMON, 0, 0, SzBuy, Limit)
  type ExecutionRow = r: SpoolRow | r.ExecutionRecord? witness ExecutionRecord(NO_COMMON, 0, 0, 0, 0, Cancel)

  datatype Disposition = Terminal | RestAt(price: i64)

  /** Why a group is refused; the source words each reason. */
  datatype Unresolved =
    | NotAReference | NotAdjacent | CrossesQuoteTime | TooManyResponses | BadQuantity
    | PartialCancellation | UnexpectedTrade | BadPrice
    | EmptySameSide | NoEvidence | NoBoundary | SeveralPrices | UnsupportedPrice

  predicate References(order: OrderRow, execution: ExecutionRow) {
    && execution.common.channel == order.common.channel
    && execution.common.symbol == order.common.symbol
    && (if order.side.SzBuy? then execution.bidOrderNo else execution.askOrderNo) == order.common.sequence
  }

  function OtherReference(order: OrderRow, execution: ExecutionRow): u64 {
    if order.side.SzBuy? then execution.askOrderNo else execution.bidOrderNo
  }

  ghost function Answered(responses: seq<ExecutionRow>): nat {
    if responses == [] then 0
    else Answered(responses[..|responses| - 1]) + responses[|responses| - 1].quantity
  }

  ghost predicate TradedAt(responses: seq<ExecutionRow>, price: int) {
    exists i :: 0 <= i < |responses| && responses[i].executionKind.Trade? && responses[i].price == price
  }

  /** A well-formed answer: the executions numbered right behind the order, at its quote time, that
      reduce it within its quantity, where a cancellation takes all that is left. */
  ghost predicate Answers(order: OrderRow, responses: seq<ExecutionRow>) {
    && |responses| <= MAX_RESPONSES
    && Answered(responses) <= order.quantity
    && forall i | 0 <= i < |responses| ::
         && References(order, responses[i])
         && responses[i].common.sequence == order.common.sequence + 1 + i
         && responses[i].common.quoteTime == order.common.quoteTime
         && responses[i].quantity > 0
         && (responses[i].executionKind.Cancel? ==>
              i == |responses| - 1 && OtherReference(order, responses[i]) == 0 && Answered(responses) == order.quantity)
         && (responses[i].executionKind.Trade? ==>
              responses[i].price > 0 && !order.orderKind.SameSideBest?)
  }

  /** At the old opposite best, and at no other price, the responses traded part of the order. */
  ghost predicate Inferable(policy: Policy, order: OrderRow, oppositeBest: Option<i64>, responses: seq<ExecutionRow>,
                            price: i64) {
    && policy.AssumeContiguous? && !order.orderKind.SameSideBest?
    && Answers(order, responses) && Answered(responses) < order.quantity
    && oppositeBest == Some(price) && TradedAt(responses, price)
    && forall p: int {:trigger TradedAt(responses, p)} :: TradedAt(responses, p) ==> p == price
  }

  /** Behind `count` responses that left `left`, this execution is the next one: of the order's channel and
      symbol and naming its number, numbered without a gap, at its quote time, within what is left; a
      cancellation takes all of it and names nobody else, and a trade has a price and a book to trade with. */
  predicate IsNext(order: OrderRow, initialBest: Option<i64>, count: nat, left: int, e: ExecutionRow) {
    && e.common.channel == order.common.channel && e.common.symbol == order.common.symbol
    && (if order.side == SzBuy then e.bidOrderNo else e.askOrderNo) == order.common.sequence
    && e.common.sequence == order.common.sequence + count + 1 && e.common.quoteTime == order.common.quoteTime
    && count < 65_536 && 0 < e.quantity <= left
    && if e.executionKind.Cancel? then
         (if order.side == SzBuy then e.askOrderNo else e.bidOrderNo) == 0 && e.quantity == left
       else e.price > 0 && !order.orderKind.SameSideBest? && initialBest.Some?
  }

  class PendingOrder {
    const order: OrderRow
    const initialBest: Option<i64>
    var remaining: nat
    var firstTradePrice: Option<i64>
    var multiplePrices: bool
    var lastSequence: nat
    var responses: nat
    ghost var history: seq<ExecutionRow>

    ghost predicate Valid()
      reads this
    {
      && Answers(order, history)
      && responses == |history| <= MAX_RESPONSES
      && lastSequence == order.common.sequence + |history| <= MAX_U64
      && remaining == order.quantity - Answered(history)
      && (forall price {:trigger TradedAt(history, price)} :: TradedAt(history, price) && !multiplePrices ==>
          firstTradePrice == Some(price))
      && (firstTradePrice.Some? ==> TradedAt(history, firstTradePrice.value))
      && (multiplePrices ==> firstTradePrice.Some? && exists price ::
          TradedAt(history, price) && firstTradePrice != Some(price))
      && (initialBest.None? ==> forall i | 0 <= i < |history| :: history[i].executionKind.Cancel?)
    }

    constructor (order: OrderRow, initialBest: Option<i64>)
      ensures Valid() && history == [] && this.order == order && this.initialBest == initialBest
    {
      this.order, this.initialBest := order, initialBest;
      remaining, firstTradePrice, multiplePrices := order.quantity, None, false;
      lastSequence, responses, history := order.common.sequence, 0, [];
    }

    /** Take one more response exactly when the answer stays well formed (and a trade had a book to
        trade with); a refused one changes nothing. */
    method Observe(execution: ExecutionRow) returns (r: Result<(), Unresolved>)
      requires Valid()
      modifies this
      ensures r.Ok? <==>
        Answers(order, old(history) + [execution]) && (execution.executionKind.Trade? ==> initialBest.Some?)
      ensures r.Ok? <==> IsNext(order, initialBest, |old(history)|, order.quantity - Answered(old(history)), execution)
      ensures r.Ok? ==> Valid() && history == old(history) + [execution]
      ensures r.Err? ==> unchanged(this)
    {
      hide Answers, TradedAt, Answered;
      if Answers(order, history + [execution]) {
        AnswersLast(order, history, execution);
      }
      if !References(order, execution) {
        return Err(NotAReference);
      }
      if lastSequence == MAX_U64 || execution.common.sequence != lastSequence + 1 {
        return Err(NotAdjacent);
      }
      if execution.common.quoteTime != order.common.quoteTime {
        return Err(CrossesQuoteTime);
      }
      if responses == MAX_RESPONSES {
        return Err(TooManyResponses);
      }
      if execution.quantity == 0 || execution.quantity > remaining {
        return Err(BadQuantity);
      }
      var firstPrice, multiple, left := firstTradePrice, multiplePrices, 0;
      if execution.executionKind.Cancel? {
        if OtherReference(order, execution) != 0 || execution.quantity != remaining {
          return Err(PartialCancellation);
        }
      } else {
        if order.orderKind.SameSideBest? || initialBest.None? {
          return Err(UnexpectedTrade);
        }
        if execution.price <= 0 {
          return Err(BadPrice);
        }
        multiple := multiple || (firstPrice.Some? && firstPrice.value != execution.price);
        firstPrice := if firstPrice.Some? then firstPrice else Some(execution.price);
        left := remaining - execution.quantity;
      }
      AnswersMore(order, history, execution);
      TradedMore(history, execution);
      assert execution.executionKind.Trade? ==> TradedAt(history + [execution], execution.price);
      ghost var was := history;
      assert multiplePrices ==> exists price ::
        TradedAt(was, price) && TradedAt(was + [execution], price) && firstTradePrice != Some(price);
      history := history + [execution];
      remaining, firstTradePrice, multiplePrices := left, firstPrice, multiple;
      lastSequence, responses := execution.common.sequence, responses + 1;
      return Ok(());
    }

    /** What becomes of the remainder when no further response follows. Only the diagnostic policy
        infers a rest, and only at the one price that both the trades and the old best support. */
    method Finish(policy: Policy, nextSequence: Option<u64>) returns (r: Result<Disposition, Unresolved>)
      requires Valid()
      ensures r == Ok(Terminal) <==> Answered(history) == order.quantity
      ensures r.Ok? && r.value.RestAt? <==>
        && initialBest.Some? && Inferable(policy, order, initialBest, history, initialBest.value)
        && nextSequence == Some(order.common.sequence + |history| + 1)
      ensures r.Ok? && r.value.RestAt? ==> r.value.price == initialBest.value
    {
      hide Answers, TradedAt;
      assert Answers(order, history);
      if remaining == 0 {
        return Ok(Terminal);
      }
      if order.orderKind.SameSideBest? {
        return Err(EmptySameSide);
      }
      if !policy.AssumeContiguous? {
        return Err(NoEvidence);
      }
      if nextSequence.None? || lastSequence == MAX_U64 || nextSequence.value != lastSequence + 1 {
        return Err(NoBoundary);
      }
      if multiplePrices {
        return Err(SeveralPrices);
      }
      if firstTradePrice.Some? && initialBest.Some? && firstTradePrice == initialBest {
        return Ok(RestAt(initialBest.value));
      }
      return Err(UnsupportedPrice);
    }
  }

  lemma AnswersMore(order: OrderRow, history: seq<ExecutionRow>, next: ExecutionRow)
    requires Answers(order, history) && |history| < MAX_RESPONSES
    requires References(order, next) && next.common.sequence == order.common.sequence + 1 + |history|
    requires next.common.quoteTime == order.common.quoteTime
    requires 0 < next.quantity <= order.quantity - Answered(history)
    requires next.executionKind.Cancel? ==>
      OtherReference(order, next) == 0 && next.quantity == order.quantity - Answered(history)
    requires next.executionKind.Trade? ==> next.price > 0 && !order.orderKind.SameSideBest?
    ensures Answers(order, history + [next]) && Answered(history + [next]) == Answered(history) + next.quantity
  {
    hide References, OtherReference;
    var all := history + [next];
    assert all[..|all| - 1] == history;
    forall i | 0 <= i < |all|
      ensures References(order, all[i]) && all[i].common.sequence == order.common.sequence + 1 + i
      ensures all[i].executionKind.Cancel? ==> i == |all| - 1
    {
      assert i < |history| ==> all[i] == history[i];
    }
  }

  lemma AnswersLast(order: OrderRow, history: seq<ExecutionRow>, next: ExecutionRow)
    requires Answers(order, history + [next])
    ensures |history| < MAX_RESPONSES && References(order, next)
    ensures next.common.sequence == order.common.sequence + 1 + |history|
    ensures next.common.quoteTime == order.common.quoteTime
    ensures 0 < next.quantity <= order.quantity - Answered(history)
    ensures next.executionKind.Cancel? ==>
      OtherReference(order, next) == 0 && next.quantity == order.quantity - Answered(history)
    ensures next.executionKind.Trade? ==> next.price > 0 && !order.orderKind.SameSideBest?
  {
    hide References, OtherReference;
    var all := history + [next];
    assert all[..|all| - 1] == history && all[|history|] == next;
  }

  lemma TradedMore(history: seq<ExecutionRow>, next: ExecutionRow)
    ensures forall price {:trigger TradedAt(history + [next], price)} ::
              TradedAt(history + [next], price) <==>
                TradedAt(history, price) || (next.executionKind.Trade? && next.price == price)
  {
    var all := history + [next];
    assert all[|history|] == next;
    assert forall i | 0 <= i < |history| :: all[i] == history[i];
    forall price {:trigger TradedAt(all, price)} | TradedAt(history, price)
      || (next.executionKind.Trade? && next.price == price)
      ensures TradedAt(all, price)
    {
      if TradedAt(history, price) {
        var i :| 0 <= i < |history| && history[i].executionKind.Trade? && history[i].price == price;
        assert all[i] == history[i];
      }
    }
  }
}
