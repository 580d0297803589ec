/** Option and Result, used by every other module for absent values and error returns. */
module Wrappers {
  datatype Option<+T> = None | Some(value: T) {
    function GetOr(default: T): T {
      match this
      case Some(v) => v
      case None => default
    }
  }

  datatype Result<+T, +E> = Ok(value: T) | Err(error: E) {
    predicate IsFailure() {
      Err?
    }

    function PropagateFailure<U>(): Result<U, E>
      requires Err?
    {
      Err(error)
    }

    function Extract(): T
      requires Ok?
    {
      value
    }
  }
}

/** The value types of an order-book event (src/market_data/types.rs) and of its result
    (src/order_book/view.rs, src/order_book/error.rs). Machine widths are subset types or
    explicit bounds; a checked operation of the source compares against these constants. */
module MarketData {
  import opened Wrappers

  const MAX_I64 := 0x7FFF_FFFF_FFFF_FFFF
  const MAX_U64 := 0xFFFF_FFFF_FFFF_FFFF
  const MAX_U128 := 0xFFFF_FFFF_FFFF_FFFF_FFFF_FFFF_FFFF_FFFF

  type byte = b: int | 0 <= b < 256
  type u32 = n: int | 0 <= n <= 0xFFFF_FFFF
  type u64 = n: int | 0 <= n <= MAX_U64
  type i64 = n: int | -MAX_I64 - 1 <= n <= MAX_I64

  type Price = p: int | 0 < p <= MAX_I64 witness 1
  type Quantity = q: int | 0 < q <= MAX_U64 witness 1
  type OrderId = n: int | 0 < n <= MAX_U64 witness 1
  type ApplySequence = n: int | 0 < n <= MAX_U64 witness 1

  datatype Side = Buy | Sell {
    function Opposite(): Side {
      if Buy? then Sell else Buy
    }

    /** The order in which a side's levels are visited: best price first. */
    predicate Better(a: Price, b: Price) {
      if Buy? then a > b else a < b
    }
  }

  datatype Market = Sse | Szse

  datatype BookKey = BookKey(market: Market, tradingDay: nat, symbol: string)

  datatype OrderKey = OrderKey(channelId: nat, side: Side, orderId: OrderId)

  datatype EventMeta = EventMeta(
    bookKey: BookKey, rawSequence: nat, applySequence: ApplySequence, localTime: int, quoteTime: int)

  datatype PricingInstruction = Provided(price: Price) | SameSideBest | OppositeBest | Unpriced

  datatype CrossingBehavior = Rest | HideIfCrossing | RestAtLastTradePrice | AlwaysHide

  datatype OrderReference = Absent | Resolved(key: OrderKey) | Unresolved(side: Side, orderId: OrderId)

  datatype BookEvent =
    | AddOrder(meta: EventMeta, orderKey: OrderKey, pricing: PricingInstruction,
               crossing: CrossingBehavior, quantity: Quantity)
    | OrderCancel(meta: EventMeta, orderKey: OrderKey)
    | Trade(meta: EventMeta, bidOrder: OrderReference, askOrder: OrderReference,
            price: Price, quantity: Quantity)

  datatype UnknownTradePolicy = Reject | UpdateKnownAndStatistics

  datatype BookConfig = BookConfig(bookKey: BookKey, unknownTradePolicy: UnknownTradePolicy)

  datatype TradeStatistics = TradeStatistics(
    lastPrice: Option<Price>, highPrice: Option<Price>, lowPrice: Option<Price>,
    totalQuantity: nat, turnover: nat, tradeCount: nat)

  const NO_TRADES := TradeStatistics(None, None, None, 0, 0, 0)

  datatype ApplyOutcome =
    | Added(key: OrderKey, effectivePrice: Option<Price>, quantity: Quantity, resting: bool)
    | Cancelled(key: OrderKey, cancelledQuantity: nat)
    | Traded(bidReduction: nat, askReduction: nat)

  /** What an arithmetic error of the book was updating. */
  datatype Amount =
    | SideQuantity | SideWeightedPrice | LevelQuantity | LevelOrderCount
    | TotalTradeQuantity | TradeTurnover | TotalTradeTurnover | TradeCount

  datatype Violation =
    | MissingState | BrokenLink | MissingTail | InvalidLevelAggregate | MissingPrice
    | NotPending | RemainderCrosses | InconsistentStore

  datatype BookError =
    | BookKeyMismatch(expectedKey: BookKey, actualKey: BookKey)
    | InvalidApplySequence(expectedSequence: ApplySequence, actualSequence: ApplySequence)
    | ApplySequenceOverflow
    | DuplicateOrder(key: OrderKey)
    | ReferencePriceUnavailable(side: Side, instruction: PricingInstruction)
    | UnpricedVisibleOrder
    | UnknownCancellation(key: OrderKey)
    | InvalidTradeReferenceSide(expected: Side, actual: Side)
    | UnknownTradeReference(side: Side, orderId: OrderId)
    | TradeOverfill(key: OrderKey, remaining: nat, trade: nat)
    | ArithmeticOverflow(amount: Amount)
    | ArithmeticUnderflow(amount: Amount)
    | InvariantViolation(violation: Violation)
    | MissingPriceLevel(side: Side, price: Price)
  {
    /** The errors that the source keeps only as a guard against a broken book. */
    predicate Defensive() {
      || ArithmeticUnderflow? || InvariantViolation? || MissingPriceLevel?
      || (ArithmeticOverflow? && amount != SideQuantity && amount != TotalTradeQuantity)
    }
  }
}
