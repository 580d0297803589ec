/** The order book class (src/order_book/book.rs): every event is validated into a plan against
    the current state and then committed. Each method is proved to do to the ghost `book` exactly
    what the abstract book prescribes, errors included, and to leave everything alone on an error. */
module OrderBook {
  import opened Wrappers
  import opened MarketData
  import opened Depth
  import opened Queues
  import opened Book
  import opened BookInvariants
  import opened Arena
  import opened Trades
  import BookRuns
  import Effects
  import Invariants
  import Reentry
  import Views

  datatype AttachPlan = AttachPlan(
    totalQuantity: nat, orderCount: nat, previous: Option<Handle>, sideAggregate: SideAggregate)

  datatype KnownTradePlan = KnownTradePlan(
    handle: Handle, state: OrderState, newRemaining: nat, newEffectivePrice: Option<Price>,
    sideAggregate: Option<SideAggregate>, reenter: bool)

  datatype TradeReferenceResolution = TradeReferenceResolution(
    handle: Option<Handle>, unknown: Option<(Side, OrderId)>)

  lemma SideLevel(s: Store, b: Book, side: Side, p: Price)
    requires Represents(s, b)
    ensures p in s.LevelsOf(side) <==> p in b.LevelsOf(side)
    ensures LevelAt(s.LevelsOf(side), p).totalQuantity == QueueTotal(b.orders, QueueAt(b.LevelsOf(side), p))
  {
    hide IndexRepresents, AggregatesRepresent, Linked, Total;
  }

  lemma FillRemoves(b: Book, key: OrderKey, quantity: Quantity, price: Price)
    requires key in b.orders && b.orders[key].remaining == quantity
    ensures b.Fill(key, quantity, price) == b.Remove(key)
  {}

  lemma DecrementIs(levels: LevelMap, price: Price, quantity: nat)
    requires price in levels && quantity <= levels[price].totalQuantity
    ensures Decrement(levels, price, quantity)
         == levels[price := levels[price].(totalQuantity := levels[price].totalQuantity - quantity)]
  {}

  datatype OrderView = OrderView(
    key: OrderKey, effectivePrice: Option<Price>, originalQuantity: Quantity, remainingQuantity: nat,
      location: OrderLocation)

  function ViewOf(state: OrderState): OrderView {
    OrderView(state.key, state.effectivePrice, state.originalQuantity, state.remainingQuantity, state.location)
  }

  /** What an abstract order looks like from outside. */
  function ViewAt(orders: Orders, key: OrderKey): OrderView {
    if key in orders then
      OrderView(key, orders[key].price, orders[key].original, orders[key].remaining,
        if orders[key].resting then Resting else Aggressive)
    else OrderView(key, None, 1, 0, Aggressive)
  }

  /** The waiting orders of an abstract queue, first in first. */
  function QueueViews(orders: Orders, queue: seq<OrderKey>): seq<OrderView> {
    seq(|queue|, i requires 0 <= i < |queue| => ViewAt(orders, queue[i]))
  }

  /** The plan describes the current order and what its fill leaves of the side. */
  ghost predicate PlannedIn(s: Store, plan: KnownTradePlan, quantity: Quantity) {
    var aggregate := s.AggregateOf(plan.state.key.side);
    && plan.handle in s.orders && s.orders[plan.handle] == plan.state
    && plan.newRemaining + quantity == plan.state.remainingQuantity
    && (plan.state.location.Resting? ==>
          && plan.state.effectivePrice.Some?
          && quantity <= aggregate.totalQuantity
          && Share(plan.state.effectivePrice.value, quantity, true) <= aggregate.weighted
          && plan.sideAggregate == Some(SideAggregate(aggregate.totalQuantity - quantity,
               aggregate.weighted - Share(plan.state.effectivePrice.value, quantity, true))))
  }

  /** The re-entry planned before the trade is the one that the current state calls for. */
  ghost predicate ReentryReady(s: Store, plan: Option<KnownTradePlan>, attach: Option<AttachPlan>) {
    attach.Some? ==>
      && plan.Some? && plan.value.state.location.Aggressive? && plan.value.newEffectivePrice.Some?
      && plan.value.handle in s.orders
      && s.orders[plan.value.handle]
         == plan.value.state.(remainingQuantity := plan.value.newRemaining,
                              effectivePrice := plan.value.newEffectivePrice)
      && PlanFits(s, plan.value.state.key.side, plan.value.newEffectivePrice.value, plan.value.newRemaining,
                  attach.value)
      && s.AggregateOf(plan.value.state.key.side).totalQuantity + plan.value.newRemaining <= MAX_U64
  }

  lemma NoReentry(s: Store)
    ensures ReentryReady(s, None, None)
  {}

  lemma SameSide(s: Store, side: Side)
    ensures OnlySide(s, s, side)
  {}

  /** A step on one side leaves the other side's plans correct. */
  lemma PlanFrame(s: Store, s': Store, side: Side, plan: KnownTradePlan, attach: Option<AttachPlan>, quantity: Quantity)
    requires OnlySide(s, s', side) && plan.state.key.side == side.Opposite()
    ensures PlannedIn(s, plan, quantity) ==> PlannedIn(s', plan, quantity)
    ensures ReentryReady(s, Some(plan), attach) ==> ReentryReady(s', Some(plan), attach)
    ensures attach.Some? && plan.newEffectivePrice.Some? ==>
      PlanFits(s, plan.state.key.side, plan.newEffectivePrice.value, plan.newRemaining, attach.value)
      == PlanFits(s', plan.state.key.side, plan.newEffectivePrice.value, plan.newRemaining, attach.value)
  {
    hide Share, LevelAt;
  }

  datatype TradePlans = TradePlans(
    bid: Option<KnownTradePlan>, ask: Option<KnownTradePlan>,
    bidAttach: Option<AttachPlan>, askAttach: Option<AttachPlan>, statistics: TradeStatistics)

  /** The remainder of a hidden order takes over the trade price when it asked for that. */
  function Reprice(plan: Option<KnownTradePlan>, price: Price): Option<KnownTradePlan> {
    if plan.Some? && plan.value.state.location.Aggressive? && plan.value.state.repriceFromTrade
      && plan.value.newRemaining > 0
    then Some(plan.value.(newEffectivePrice := Some(price))) else plan
  }

  /** May the planned remainder rest, given the best opposite price after the trade? */
  predicate MayRest(side: Side, plan: KnownTradePlan, oppositeBest: Option<Price>) {
    && plan.state.location.Aggressive?
    && plan.state.allowReentry
    && plan.newRemaining > 0
    && plan.newEffectivePrice.Some?
    && (oppositeBest.None? ||
        if side.Buy? then plan.newEffectivePrice.value < oppositeBest.value
        else plan.newEffectivePrice.value > oppositeBest.value)
  }

  function Decided(side: Side, plan: Option<KnownTradePlan>, oppositeBest: Option<Price>): Option<KnownTradePlan> {
    if plan.None? then None else Some(plan.value.(reenter := MayRest(side, plan.value, oppositeBest)))
  }

  /** The first level, best price first, that keeps some quantity after the reduction. */
  function FirstSurviving(side: Side, levels: LevelMap, prices: set<Price>,
                          reduction: Option<(Price, int)>): Option<Price>
    requires prices <= levels.Keys
    decreases |prices|
  {
    match BestOf(side, prices)
    case None => None
    case Some(best) =>
      var quantity := if reduction.Some? && reduction.value.0 == best then reduction.value.1 else 0;
      if levels[best].totalQuantity > quantity then Some(best)
      else FirstSurviving(side, levels, prices - {best}, reduction)
  }

  predicate Survives(levels: LevelMap, p: Price, reduction: Option<(Price, int)>)
    requires p in levels
  {
    levels[p].totalQuantity > if reduction.Some? && reduction.value.0 == p then reduction.value.1 else 0
  }

  /** The walk finds the best of the prices that survive. */
  lemma {:induction false} FirstSurvivingIsBest(side: Side, levels: LevelMap, prices: set<Price>,
                                                reduction: Option<(Price, int)>,
                                                left: set<Price>)
    requires prices <= levels.Keys
    requires left == set p | p in prices && Survives(levels, p, reduction)
    ensures FirstSurviving(side, levels, prices, reduction) == BestOf(side, left)
    decreases |prices|
  {
    match BestOf(side, prices)
    case None =>
    case Some(p) =>
      if Survives(levels, p, reduction) {
        assert IsBest(side, p, left);
        BestUnique(side, p, BestOf(side, left).value, left);
      } else {
        FirstSurvivingIsBest(side, levels, prices - {p}, reduction, left);
      }
  }

  lemma ShareProduct(price: Price, quantity: nat)
    ensures Share(price, quantity, true) == price * quantity
  {}

  /** `price * quantity` of the source, checked against 128 bits; it always fits. */
  function PriceQuantity(price: Price, quantity: nat): (product: Option<nat>)
    ensures quantity <= MAX_U64 ==> product == Some(Share(price, quantity, true))
  {
    ScaleMonotone(price, MAX_I64, quantity);
    if Share(price, quantity, true) > MAX_U128 then None else Some(Share(price, quantity, true))
  }

  // ----- bounds that keep the checked arithmetic from failing -----

  lemma SideBounds(b: Book, side: Side, price: Price, quantity: nat)
    requires b.WellFormed()
    requires b.SideTotal(side, false) + quantity <= MAX_U64
    ensures b.SideTotal(side, true) + Share(price, quantity, true) <= MAX_U128
  {
    WeightedBounds(DepthOf(b.orders, b.LevelsOf(side)), 1, MAX_I64);
    ScaleMonotone(price, MAX_I64, quantity);
  }

  lemma QueueBounds(b: Book, side: Side, price: Price)
    requires b.WellFormed() && price in b.LevelsOf(side)
    ensures |b.LevelsOf(side)[price]| <= QueueTotal(b.orders, b.LevelsOf(side)[price]) <= b.SideTotal(side, false)
  {
    hide QueueTotal, Total;
    var queue := b.LevelsOf(side)[price];
    assert QueueWellFormed(b.orders, side, price, queue);
    forall k | k in queue ensures k in b.orders && b.orders[k].remaining >= 1 {
      assert b.OrderWellFormed(k);
    }
    QueueTotalAtLeastCount(b.orders, queue);
    LevelWithinTotal(DepthOf(b.orders, b.LevelsOf(side)), price);
  }

  lemma LevelBounds(s: Store, b: Book, side: Side, price: Price)
    requires b.WellFormed() && Represents(s, b) && price in s.LevelsOf(side)
    ensures var level := s.LevelsOf(side)[price];
            && level.orderCount <= level.totalQuantity <= b.SideTotal(side, false)
            && level.head.Some? && level.tail.Some? && level.tail.value in s.orders
  {
    hide QueueTotal, Linked, LinkedAt, Book.OrderWellFormed, Total, IndexRepresents, AggregatesRepresent;
    hide LevelsWellFormed, LevelsRepresent;
    LevelKeys(s.active, s.orders, b.orders, b.LevelsOf(side), s.LevelsOf(side));
    QueueBounds(b, side, price);
    LevelOf(s.active, s.orders, b.orders, side, b.LevelsOf(side), s.LevelsOf(side), price);
    LastLinked(s.active, s.orders, b.LevelsOf(side)[price]);
  }

  lemma LastLinked(active: Index, states: States, queue: seq<OrderKey>)
    requires queue != [] && Linked(active, states, queue)
    ensures HandleAt(active, queue, 0).Some?
    ensures HandleAt(active, queue, |queue| - 1).Some? && HandleAt(active, queue, |queue| - 1).value in states
  {
    assert LinkedAt(active, states, queue, 0) && LinkedAt(active, states, queue, |queue| - 1);
  }

  /** The checked sums of the trade statistics can only overflow in the total quantity. */
  lemma StatisticsBounds(s: TradeStatistics, price: Price, quantity: Quantity)
    requires StatisticsBounded(s) && s.totalQuantity + quantity <= MAX_U64
    ensures StatisticsBounded(Record(s, price, quantity))
    ensures s.turnover + Share(price, quantity, true) <= MAX_U128
  {
    ScaleMonotone(price, MAX_I64, quantity);
  }

  /** A step on one side: the other side's levels, aggregate and order states are as before. */
  ghost predicate OnlySide(s: Store, s': Store, side: Side) {
    && s'.LevelsOf(side.Opposite()) == s.LevelsOf(side.Opposite())
    && s'.AggregateOf(side.Opposite()) == s.AggregateOf(side.Opposite())
    && (forall h | h in s.orders && s.orders[h].key.side != side :: h in s'.orders && s'.orders[h] == s.orders[h])
    && (forall k | k in s.active && k.side != side :: k in s'.active && s'.active[k] == s.active[k])
  }

  /** The neighbours that an unlink writes wait on the order's own side. */
  lemma UnlinkOtherSide(active: Index, states: States, orders: Orders, queue: seq<OrderKey>, level: PriceLevel, i: nat,
                        side: Side)
    requires IndexRepresents(active, states, orders) && LevelRepresents(active, states, orders, queue, level)
    requires i < |queue|
    requires forall k | k in queue :: k.side == side
    ensures queue[i] in active && active[queue[i]] in states
    ensures forall h | h in states && states[h].key.side != side ::
      h in Unlink(states, active[queue[i]]) && Unlink(states, active[queue[i]])[h] == states[h]
  {
    UnlinkSpares(active, states, orders, queue, i);
    hide Unlink;
    forall h | h in states && states[h].key.side != side
      ensures h in Unlink(states, active[queue[i]]) && Unlink(states, active[queue[i]])[h] == states[h]
    {
      assert active[states[h].key] == h;
    }
  }

  lemma OtherSideStates(s: Store, b: Book, key: OrderKey)
    requires b.WellFormed() && Represents(s, b) && key in b.orders && b.orders[key].resting && CanDetach(s, key)
    ensures OnlySide(s, Detached(s, key), key.side)
    ensures Detached(s, key).orders.Keys <= s.orders.Keys
  {
    hide Book.WellFormed, StructureRepresents, AggregatesRepresent, LevelRepresents, ShorterLevels, Share, Unlink;
    hide IndexRepresents, OnlySide;
    var price, i := DetachAllowed(s, b, key);
    IndexOf(s, b);
    UnlinkOtherSide(s.active, s.orders, b.orders, b.LevelsOf(key.side)[price], s.LevelsOf(key.side)[price], i,
                    key.side);
    UnlinkKeys(s.orders, s.active[key]);
    DetachedSpares(s, key);
  }

  lemma DetachedSpares(s: Store, key: OrderKey)
    requires CanDetach(s, key)
    requires forall h | h in s.orders && s.orders[h].key.side != key.side ::
      h in Unlink(s.orders, s.active[key]) && Unlink(s.orders, s.active[key])[h] == s.orders[h]
    ensures OnlySide(s, Detached(s, key), key.side)
  {
    hide ShorterLevels, Share, Unlink;
  }

  lemma ReducedOnlySide(s: Store, key: OrderKey, quantity: nat)
    requires CanDetach(s, key) && quantity <= s.orders[s.active[key]].remainingQuantity
    requires Share(s.orders[s.active[key]].effectivePrice.value, quantity, true) <= s.AggregateOf(key.side).weighted
    requires s.orders[s.active[key]].key.side == key.side
    ensures OnlySide(s, Reduced(s, key, quantity), key.side)
    ensures Reduced(s, key, quantity).orders.Keys == s.orders.Keys
  {
    hide Share, Decrement;
  }

  /** The tail that an attach writes waits on the order's own side. */
  lemma AttachedOnlySide(s: Store, b: Book, key: OrderKey, price: Price)
    requires b.WellFormed() && Represents(s, b) && b.Hidden(key)
    ensures OnlySide(s, Attached(s, key, price), key.side)
  {
    hide IndexRepresents, LevelsRepresent, LevelsWellFormed, OnlySide, Attached, LevelRepresents, AggregatesRepresent;
    hide Book.OrderWellFormed, Book.SideTotal, StatisticsBounded, LinkedAt;
    LevelOf(s.active, s.orders, b.orders, key.side, b.LevelsOf(key.side), s.LevelsOf(key.side), price);
    TailSide(s.active, s.orders, b.orders, QueueAt(b.LevelsOf(key.side), price), LevelAt(s.LevelsOf(key.side), price),
             key.side);
    IndexedSide(s.active, s.orders, b.orders, key);
    AttachedSpares(s, key, price);
  }

  lemma IndexedSide(active: Index, states: States, orders: Orders, key: OrderKey)
    requires IndexRepresents(active, states, orders) && key in orders
    ensures key in active && active[key] in states && states[active[key]].key.side == key.side
  {}

  lemma AttachedSpares(s: Store, key: OrderKey, price: Price)
    requires key in s.active && s.active[key] in s.orders && s.orders[s.active[key]].key.side == key.side
    requires var tail := LevelAt(s.LevelsOf(key.side), price).tail;
             tail.Some? && tail.value in s.orders ==> s.orders[tail.value].key.side == key.side
    ensures OnlySide(s, Attached(s, key, price), key.side)
  {
    hide Longer, LevelAt, Share;
  }

  lemma TailSide(active: Index, states: States, orders: Orders, queue: seq<OrderKey>, level: PriceLevel, side: Side)
    requires IndexRepresents(active, states, orders) && LevelRepresents(active, states, orders, queue, level)
    requires forall k | k in queue :: k.side == side
    ensures level.tail.Some? && level.tail.value in states ==> states[level.tail.value].key.side == side
  {}

  lemma IndexOf(s: Store, b: Book)
    requires Represents(s, b)
    ensures IndexRepresents(s.active, s.orders, b.orders)
  {}

  lemma UnlinkKeys(states: States, handle: Handle)
    requires handle in states
    ensures Unlink(states, handle).Keys == states.Keys - {handle}
  {}

  /** What the detach validation of the source checks about links. */
  ghost predicate LinksIntact(states: States, level: PriceLevel, handle: Handle)
    requires handle in states
  {
    var state := states[handle];
    && (state.previous.Some? ==> state.previous.value in states && states[state.previous.value].next == Some(handle))
    && (state.previous.None? ==> level.head == Some(handle))
    && (state.next.Some? ==> state.next.value in states && states[state.next.value].previous == Some(handle))
    && (state.next.None? ==> level.tail == Some(handle))
  }

  lemma PlaceLinks(active: Index, states: States, orders: Orders, queue: seq<OrderKey>, level: PriceLevel, i: nat)
    requires LevelRepresents(active, states, orders, queue, level) && i < |queue|
    ensures queue[i] in active && active[queue[i]] in states
    ensures LinksIntact(states, level, active[queue[i]])
  {
    assert LinkedAt(active, states, queue, i);
    assert i > 0 ==> LinkedAt(active, states, queue, i - 1);
    assert i + 1 < |queue| ==> LinkedAt(active, states, queue, i + 1);
  }

  /** The level map after `handle` became the tail at `price`. */
  function Behind(levels: LevelMap, price: Price, handle: Handle, plan: AttachPlan): LevelMap {
    var level := LevelAt(levels, price);
    levels[price := PriceLevel(plan.totalQuantity, plan.orderCount,
      if level.head.None? then Some(handle) else level.head, Some(handle))]
  }

  /** The plan that the current level and aggregate call for. */
  ghost predicate PlanFits(s: Store, side: Side, price: Price, quantity: nat, plan: AttachPlan) {
    var level, aggregate := LevelAt(s.LevelsOf(side), price), s.AggregateOf(side);
    plan == AttachPlan(level.totalQuantity + quantity, level.orderCount + 1, level.tail,
      SideAggregate(aggregate.totalQuantity + quantity, aggregate.weighted + Share(price, quantity, true)))
  }

  lemma InsertedAttached(s: Store, key: OrderKey, handle: Handle, hidden: OrderState, state: OrderState, price: Price,
                         plan: AttachPlan)
    requires PlanFits(s, key.side, price, hidden.remainingQuantity, plan) && hidden.next.None?
    requires state == hidden.(effectivePrice := Some(price), location := Resting, previous := plan.previous)
    ensures Attached(s.(active := s.active[key := handle], orders := s.orders[handle := hidden]), key, price)
         == s.(active := s.active[key := handle],
               orders := SetNext(s.orders[handle := state], plan.previous, Some(handle)))
             .WithSide(key.side, Behind(s.LevelsOf(key.side), price, handle, plan), plan.sideAggregate)
  {
    hide Share, SetNext, LevelAt;
    assert s.orders[handle := hidden][handle := state] == s.orders[handle := state];
  }

  lemma AttachedLinked(s: Store, key: OrderKey, price: Price, state: OrderState, plan: AttachPlan)
    requires key in s.active && s.active[key] in s.orders && s.orders[s.active[key]].next.None?
    requires state == s.orders[s.active[key]].(effectivePrice := Some(price), location := Resting,
                                               previous := plan.previous)
    requires PlanFits(s, key.side, price, state.remainingQuantity, plan)
    ensures Attached(s, key, price)
         == s.(orders := SetNext(s.orders[s.active[key] := state], plan.previous, Some(s.active[key])))
             .WithSide(key.side, Behind(s.LevelsOf(key.side), price, s.active[key], plan), plan.sideAggregate)
  {
    hide Share, SetNext, LevelAt, PlanFits, Behind, Longer;
    PlanParts(s, key.side, price, state.remainingQuantity, s.active[key], plan);
  }

  /** The plan's level and aggregate are those after joining. */
  lemma PlanParts(s: Store, side: Side, price: Price, quantity: nat, handle: Handle, plan: AttachPlan)
    requires PlanFits(s, side, price, quantity, plan)
    ensures var level, aggregate := LevelAt(s.LevelsOf(side), price), s.AggregateOf(side);
            && plan.previous == level.tail
            && plan.sideAggregate ==
                 SideAggregate(aggregate.totalQuantity + quantity, aggregate.weighted + Share(price, quantity, true))
            && Behind(s.LevelsOf(side), price, handle, plan)
                 == s.LevelsOf(side)[price := Longer(level, handle, quantity)]
  {
    hide Share, LevelAt;
  }

  lemma WithSideIndexed(s: Store, states: States, side: Side, levels: LevelMap, aggregate: SideAggregate, active: Index)
    ensures s.(orders := states).WithSide(side, levels, aggregate).(active := active)
         == s.(active := active, orders := states).WithSide(side, levels, aggregate)
    ensures s.(orders := states).WithSide(side, levels, aggregate).orders == states
  {}

  lemma SetNextKeys(states: States, handle: Option<Handle>, next: Option<Handle>)
    ensures SetNext(states, handle, next).Keys == states.Keys
  {}

  /** Metadata and revision are no part of what the storage represents. */
  lemma AdvanceRefines(s: Store, b: Book, meta: Option<EventMeta>, revision: nat)
    requires b.WellFormed() && Represents(s, b) && revision <= MAX_U64
    ensures b.(lastMeta := meta, revision := revision).WellFormed()
    ensures Represents(s, b.(lastMeta := meta, revision := revision))
  {
    hide LevelsRepresent, IndexRepresents, LevelsWellFormed, Total, QueueTotal;
    var b' := b.(lastMeta := meta, revision := revision);
    forall k | k in b.orders ensures b'.OrderWellFormed(k) {
      assert b.OrderWellFormed(k);
    }
  }

  /** Inserting an order behind the tail at once is inserting it hidden and letting it join. */
  lemma InsertRefines(s: Store, b: Book, key: OrderKey, order: Order, handle: Handle, state: OrderState, price: Price)
    requires b.WellFormed() && Represents(s, b) && key !in b.seen && handle !in s.orders
    requires StateMatches(state, key, order) && !order.resting && order.remaining == order.original
    requires b.SideTotal(key.side, false) + order.remaining <= MAX_U64
    ensures var s1 := s.(active := s.active[key := handle], orders := s.orders[handle := state]);
            var b1 := b.(orders := b.orders[key := order], seen := b.seen + {key});
            b1.Attach(key, price).WellFormed() && Represents(Attached(s1, key, price), b1.Attach(key, price))
  {
    hide StructureRepresents, AggregatesRepresent, Book.Structured;
    FreshKey(b, key);
    HideKeepsTotals(b, key, order);
    HideRefines(s, b, key, order, handle, state);
    HideKeepsWellFormed(b, key, order);
    var s1 := s.(active := s.active[key := handle], orders := s.orders[handle := state]);
    var b1 := b.(orders := b.orders[key := order], seen := b.seen + {key});
    AttachRefines(s1, b1, key, price);
    AttachKeepsWellFormed(b1, key, price);
  }

  lemma TopLevelsStep(orders: Orders, levels: Levels, side: Side, prices: set<Price>, depth: nat)
    requires prices <= levels.Keys
    ensures var best := BestOf(side, prices);
      Views.TopLevels(orders, levels, side, prices, depth) ==
        (if depth == 0 || best.None? then []
         else [Views.Level(best.value, QueueTotal(orders, levels[best.value]), |levels[best.value]|)]
                + Views.TopLevels(orders, levels, side, prices - {best.value}, depth - 1))
  {
    hide QueueTotal;
  }

  // ----- the class -----

  class OrderBook {
    const config: BookConfig
    var bids: LevelMap
    var asks: LevelMap
    var activeByKey: Index
    var seenOrderKeys: set<OrderKey>
    var orders: States
    var nextHandle: Handle
    var bidAggregate: SideAggregate
    var askAggregate: SideAggregate
    var statistics: TradeStatistics
    var lastAppliedMeta: Option<EventMeta>
    var revision: nat

    /** The abstract book that this object stands for. */
    ghost var book: Book

    ghost function Storage(): Store
      reads this
    {
      Store(bids, asks, bidAggregate, askAggregate, activeByKey, orders)
    }

    ghost predicate Valid()
      reads this
    {
      && book.WellFormed()
      && Represents(Storage(), book)
      && seenOrderKeys == book.seen
      && statistics == book.statistics
      && lastAppliedMeta == book.lastMeta
      && revision == book.revision
      && forall h | h in orders :: h < nextHandle
    }

    constructor (config: BookConfig)
      ensures Valid() && book == EMPTY && this.config == config
    {
      this.config := config;
      bids, asks, activeByKey, seenOrderKeys, orders, nextHandle := map[], map[], map[], {}, map[], 0;
      bidAggregate, askAggregate := SideAggregate(0, 0), SideAggregate(0, 0);
      statistics, lastAppliedMeta, revision := NO_TRADES, None, 0;
      book := EMPTY;
    }

    // ----- reading the book -----

    function LevelMapOf(side: Side): LevelMap
      reads this
    {
      if side.Buy? then bids else asks
    }

    function AggregateOf(side: Side): SideAggregate
      reads this
    {
      if side.Buy? then bidAggregate else askAggregate
    }

    function BestPrice(side: Side): (best: Option<Price>)
      requires Valid()
      reads this
      ensures best == book.Best(side)
    {
      BestOf(side, LevelMapOf(side).Keys)
    }

    function CrossesOpposite(side: Side, price: Price): (crosses: bool)
      requires Valid()
      reads this
      ensures crosses == book.Crosses(side, price)
    {
      hide StructureRepresents, AggregatesRepresent, Book.WellFormed;
      match (side, BestPrice(side.Opposite()))
      case (Buy, Some(bestAsk)) => price >= bestAsk
      case (Sell, Some(bestBid)) => price <= bestBid
      case (_, None) => false
    }

    function NextApplySequence(): (r: Result<ApplySequence, BookError>)
      requires Valid()
      reads this
      ensures r == book.NextApplySequence()
    {
      match lastAppliedMeta
      case None => Ok(1)
      case Some(meta) =>
        if meta.applySequence + 1 > MAX_U64 then Err(ApplySequenceOverflow) else Ok(meta.applySequence + 1)
    }

    function ResolvePrice(side: Side, instruction: PricingInstruction): (r: Result<Option<Price>, BookError>)
      requires Valid()
      reads this
      ensures r == book.ResolvePrice(side, instruction)
    {
      match instruction
      case Provided(price) => Ok(Some(price))
      case SameSideBest =>
        (match BestPrice(side) case Some(p) => Ok(Some(p))
         case None => Err(ReferencePriceUnavailable(side, instruction)))
      case OppositeBest =>
        (match BestPrice(side.Opposite()) case Some(p) => Ok(Some(p))
         case None => Err(ReferencePriceUnavailable(side, instruction)))
      case Unpriced => Ok(None)
    }

    // ----- validation: nothing is changed -----

    method ValidateAggregateAdd(side: Side, price: Price, quantity: Quantity)
      returns (r: Result<SideAggregate, BookError>)
      requires Valid()
      ensures book.SideTotal(side, false) + quantity > MAX_U64 ==> r == Err(ArithmeticOverflow(SideQuantity))
      ensures book.SideTotal(side, false) + quantity <= MAX_U64 ==> r == Ok(AggregateWith(side, price, quantity))
    {
      hide StructureRepresents, Book.WellFormed, Share, Total;
      var aggregate := AggregateOf(side);
      var weighted := 0;
      match PriceQuantity(price, quantity) {
        case None => return Err(ArithmeticOverflow(SideWeightedPrice));
        case Some(product) => weighted := product;
      }
      if aggregate.totalQuantity + quantity > MAX_U64 {
        return Err(ArithmeticOverflow(SideQuantity));
      }
      SideBounds(book, side, price, quantity);
      if aggregate.weighted + weighted > MAX_U128 {
        return Err(ArithmeticOverflow(SideWeightedPrice));
      }
      return Ok(SideAggregate(aggregate.totalQuantity + quantity, aggregate.weighted + weighted));
    }

    ghost function AggregateWith(side: Side, price: Price, quantity: nat): SideAggregate
      reads this
    {
      SideAggregate(AggregateOf(side).totalQuantity + quantity,
                    AggregateOf(side).weighted + Share(price, quantity, true))
    }

    ghost function AggregateWithout(side: Side, price: Price, quantity: nat): SideAggregate
      requires quantity <= AggregateOf(side).totalQuantity && Share(price, quantity, true) <= AggregateOf(side).weighted
      reads this
    {
      SideAggregate(AggregateOf(side).totalQuantity - quantity,
                    AggregateOf(side).weighted - Share(price, quantity, true))
    }

    method ValidateAggregateSub(side: Side, price: Price, quantity: nat) returns (r: Result<SideAggregate, BookError>)
      requires quantity <= MAX_U64
      ensures r.Ok? <==>
        quantity <= AggregateOf(side).totalQuantity && Share(price, quantity, true) <= AggregateOf(side).weighted
      ensures r.Ok? ==> r.value == AggregateWithout(side, price, quantity)
      ensures r.Err? ==>
        r.error == ArithmeticUnderflow(if quantity > AggregateOf(side).totalQuantity then SideQuantity
                                       else SideWeightedPrice)
    {
      var aggregate := AggregateOf(side);
      var weighted := 0;
      match PriceQuantity(price, quantity) {
        case None => return Err(ArithmeticOverflow(SideWeightedPrice));
        case Some(product) => weighted := product;
      }
      if quantity > aggregate.totalQuantity {
        return Err(ArithmeticUnderflow(SideQuantity));
      }
      if weighted > aggregate.weighted {
        return Err(ArithmeticUnderflow(SideWeightedPrice));
      }
      return Ok(SideAggregate(aggregate.totalQuantity - quantity, aggregate.weighted - weighted));
    }

    /** The plan of a new queue entry; the only failure that can happen is the side total. */
    method ValidateAttach(side: Side, price: Price, quantity: Quantity) returns (r: Result<AttachPlan, BookError>)
      requires Valid()
      ensures book.SideTotal(side, false) + quantity > MAX_U64 ==> r == Err(ArithmeticOverflow(SideQuantity))
      ensures book.SideTotal(side, false) + quantity <= MAX_U64 ==> 
        r.Ok? && PlanFits(Storage(), side, price, quantity, r.value)
    {
      hide StructureRepresents, AggregatesRepresent, Book.WellFormed, Share, Total;
      var sideAggregate :- ValidateAggregateAdd(side, price, quantity);
      if price !in LevelMapOf(side) {
        return Ok(AttachPlan(quantity, 1, None, sideAggregate));
      }
      var level := LevelMapOf(side)[price];
      LevelBounds(Storage(), book, side, price);
      if level.tail.None? || level.tail.value !in orders {
        return Err(InvariantViolation(MissingTail));
      }
      if level.totalQuantity + quantity > MAX_U64 {
        return Err(ArithmeticOverflow(LevelQuantity));
      }
      if level.orderCount + 1 > MAX_U64 {
        return Err(ArithmeticOverflow(LevelOrderCount));
      }
      return Ok(AttachPlan(level.totalQuantity + quantity, level.orderCount + 1, level.tail, sideAggregate));
    }

    /** The order at `handle`, as the book knows it. */
    lemma StateAt(handle: Handle)
      requires Valid() && handle in orders
      ensures var key := orders[handle].key;
              && key in activeByKey && activeByKey[key] == handle && key in book.orders
              && StateMatches(orders[handle], key, book.orders[key])
              && 0 < orders[handle].remainingQuantity <= MAX_U64
              && orders[handle].remainingQuantity <= orders[handle].originalQuantity
    {
      hide LevelsRepresent, AggregatesRepresent, LevelsWellFormed, Total;
      assert book.OrderWellFormed(orders[handle].key);
    }

    /** The index finds exactly the book's orders, each at its own handle. */
    lemma ActiveAt(key: OrderKey)
      requires Valid()
      ensures key in activeByKey <==> key in book.orders
      ensures key in activeByKey ==> activeByKey[key] in orders && orders[activeByKey[key]].key == key
    {
      hide LevelsRepresent, AggregatesRepresent, Book.WellFormed;
    }

    lemma RestingLinks(handle: Handle)
      requires Valid() && handle in orders && orders[handle].location.Resting?
      ensures orders[handle].key in activeByKey && activeByKey[orders[handle].key] == handle
      ensures CanDetach(Storage(), orders[handle].key)
      ensures var key, price := orders[handle].key, orders[handle].effectivePrice.value;
              LinksIntact(orders, LevelMapOf(key.side)[price], handle)
    {
      hide LevelsRepresent, AggregatesRepresent, LevelsWellFormed, Total, QueueTotal, CanDetach, LinksIntact;
      hide Book.OrderWellFormed;
      StateAt(handle);
      var price, i := DetachAllowed(Storage(), book, orders[handle].key);
      PlaceLinks(activeByKey, orders, book.orders, book.LevelsOf(orders[handle].key.side)[price],
        LevelMapOf(orders[handle].key.side)[price], i);
    }

    /** Every check passes on a valid book. */
    method ValidateDetach(handle: Handle, state: OrderState) returns (r: Result<SideAggregate, BookError>)
      requires Valid() && handle in orders && orders[handle] == state && state.location.Resting?
      ensures CanDetach(Storage(), state.key) && activeByKey[state.key] == handle
      ensures r == Ok(AggregateWithout(state.key.side, state.effectivePrice.value, state.remainingQuantity))
    {
      RestingLinks(handle);
      StateAt(handle);
      hide Valid, Share;
      if state.effectivePrice.None? {
        return Err(InvariantViolation(MissingPrice));
      }
      var price := state.effectivePrice.value;
      if price !in LevelMapOf(state.key.side) {
        return Err(MissingPriceLevel(state.key.side, price));
      }
      var level := LevelMapOf(state.key.side)[price];
      if level.totalQuantity < state.remainingQuantity || level.orderCount == 0 {
        return Err(InvariantViolation(InvalidLevelAggregate));
      }
      match state.previous {
        case Some(previous) =>
          if previous !in orders {
            return Err(InvariantViolation(MissingState));
          }
          if orders[previous].next != Some(handle) {
            return Err(InvariantViolation(BrokenLink));
          }
        case None =>
          if level.head != Some(handle) {
            return Err(InvariantViolation(BrokenLink));
          }
      }
      match state.next {
        case Some(next) =>
          if next !in orders {
            return Err(InvariantViolation(MissingState));
          }
          if orders[next].previous != Some(handle) {
            return Err(InvariantViolation(BrokenLink));
          }
        case None =>
          if level.tail != Some(handle) {
            return Err(InvariantViolation(BrokenLink));
          }
      }
      r := ValidateAggregateSub(state.key.side, price, state.remainingQuantity);
    }

    // ----- commits: the links, the level and the aggregate are written -----

    method CommitAttach(side: Side, price: Price, handle: Handle, plan: AttachPlan)
      modifies `bids, `asks, `bidAggregate, `askAggregate, `orders
      ensures Storage() == old(Storage()).(orders := SetNext(old(orders), plan.previous, Some(handle)))
        .WithSide(side, Behind(old(LevelMapOf(side)), price, handle, plan), plan.sideAggregate)
    {
      WriteAggregate(side, plan.sideAggregate);
      match plan.previous {
        case Some(previous) =>
          if previous in orders {
            orders := orders[previous := orders[previous].(next := Some(handle))];
          }
        case None =>
      }
      var level := LevelAt(LevelMapOf(side), price);
      if level.head.None? {
        level := level.(head := Some(handle));
      }
      level := level.(tail := Some(handle), totalQuantity := plan.totalQuantity, orderCount := plan.orderCount);
      WriteLevels(side, LevelMapOf(side)[price := level]);
    }

    method WriteLevels(side: Side, levels: LevelMap)
      modifies `bids, `asks
      ensures LevelMapOf(side) == levels && LevelMapOf(side.Opposite()) == old(LevelMapOf(side.Opposite()))
    {
      match side {
        case Buy => bids := levels;
        case Sell => asks := levels;
      }
    }

    method WriteAggregate(side: Side, aggregate: SideAggregate)
      modifies `bidAggregate, `askAggregate
      ensures AggregateOf(side) == aggregate && AggregateOf(side.Opposite()) == old(AggregateOf(side.Opposite()))
    {
      match side {
        case Buy => bidAggregate := aggregate;
        case Sell => askAggregate := aggregate;
      }
    }

    /** The neighbours find each other. */
    method Relink(state: OrderState)
      modifies `orders
      ensures orders == SetPrevious(SetNext(old(orders), state.previous, state.next), state.next, state.previous)
    {
      match state.previous {
        case Some(previous) =>
          if previous in orders {
            orders := orders[previous := orders[previous].(next := state.next)];
          }
        case None =>
      }
      match state.next {
        case Some(next) =>
          if next in orders {
            orders := orders[next := orders[next].(previous := state.previous)];
          }
        case None =>
      }
    }

    method CommitDetach(state: OrderState, sideAggregate: SideAggregate)
      requires state.effectivePrice.Some? && state.effectivePrice.value in LevelMapOf(state.key.side)
      requires var level := LevelMapOf(state.key.side)[state.effectivePrice.value];
               state.remainingQuantity <= level.totalQuantity && level.orderCount > 0
      modifies `bids, `asks, `bidAggregate, `askAggregate, `orders
      ensures Storage() == old(Storage())
        .(orders := SetPrevious(SetNext(old(orders), state.previous, state.next), state.next, state.previous))
        .WithSide(state.key.side, ShorterLevels(old(LevelMapOf(state.key.side)), state.effectivePrice.value, state),
                  sideAggregate)
    {
      hide SetPrevious, SetNext;
      var side, price := state.key.side, state.effectivePrice.value;
      Relink(state);
      var level := LevelMapOf(side)[price];
      level := level.(totalQuantity := level.totalQuantity - state.remainingQuantity,
                      orderCount := level.orderCount - 1);
      if state.previous.None? {
        level := level.(head := state.next);
      }
      if state.next.None? {
        level := level.(tail := state.previous);
      }
      if level.orderCount == 0 {
        WriteLevels(side, LevelMapOf(side) - {price});
      } else {
        WriteLevels(side, LevelMapOf(side)[price := level]);
      }
      WriteAggregate(side, sideAggregate);
    }

    // ----- events -----

    /** A new order takes a fresh handle, and its place in the queue when there is a plan for it. */
    method InsertOrder(state: OrderState, attach: Option<AttachPlan>)
      requires attach.Some? ==> state.effectivePrice.Some?
      requires forall h | h in orders :: h < nextHandle
      modifies `bids, `asks, `bidAggregate, `askAggregate, `orders, `activeByKey, `seenOrderKeys, `nextHandle
      ensures var s, key := old(Storage()), state.key;
              var inserted := s.(active := s.active[key := old(nextHandle)],
                                 orders := s.orders[old(nextHandle) := state]);
              Storage() == if attach.None? then inserted else
                inserted.(orders := SetNext(inserted.orders, attach.value.previous, Some(old(nextHandle))))
                  .WithSide(key.side, Behind(s.LevelsOf(key.side), state.effectivePrice.value, old(nextHandle),
                                             attach.value),
                            attach.value.sideAggregate)
      ensures forall h | h in orders :: h < nextHandle
      ensures old(nextHandle) !in old(orders)
      ensures seenOrderKeys == old(seenOrderKeys) + {state.key}
    {
      hide SetNext, Behind, LevelAt, Store.WithSide;
      ghost var s := Storage();
      var handle := nextHandle;
      nextHandle := nextHandle + 1;
      orders := orders[handle := state];
      if attach.Some? {
        ghost var side, linked := state.key.side, SetNext(orders, attach.value.previous, Some(handle));
        ghost var levels := Behind(s.LevelsOf(side), state.effectivePrice.value, handle, attach.value);
        WithSideIndexed(s, linked, side, levels, attach.value.sideAggregate, s.active[state.key := handle]);
        SetNextKeys(orders, attach.value.previous, Some(handle));
        CommitAttach(state.key.side, state.effectivePrice.value, handle, attach.value);
        assert Storage() == s.(orders := linked).WithSide(side, levels, attach.value.sideAggregate);
      }
      activeByKey := activeByKey[state.key := handle];
      seenOrderKeys := seenOrderKeys + {state.key};
    }

    /** A fresh order joins the book: hidden, or behind the tail of its price by the plan made for it. */
    method Admit(state: OrderState, attach: Option<AttachPlan>, ghost order: Order)
      requires Valid() && state.key !in book.seen && state.next.None? && !order.resting
      requires order == Order(state.effectivePrice, state.originalQuantity, state.originalQuantity, false,
                              state.allowReentry, state.repriceFromTrade)
      requires state.remainingQuantity == state.originalQuantity
      requires attach.None? ==> state.previous.None? && state.location.Aggressive?
      requires attach.Some? ==>
        && state.previous == attach.value.previous && state.location.Resting? && state.effectivePrice.Some?
        && PlanFits(Storage(), state.key.side, state.effectivePrice.value, state.remainingQuantity, attach.value)
        && book.SideTotal(state.key.side, false) + state.remainingQuantity <= MAX_U64
      modifies `bids, `asks, `bidAggregate, `askAggregate, `orders, `activeByKey, `seenOrderKeys, `nextHandle, `book
      ensures Valid()
      ensures var key := state.key;
              var added := old(book).(orders := old(book).orders[key := order], seen := old(book).seen + {key});
              book == if attach.Some? then added.Attach(key, state.effectivePrice.value) else added
    {
      hide Represents, Book.WellFormed, Share, Total, SetNext, Attached, Behind, PlanFits, LevelAt, Book.Attach;
      hide Book.SideTotal;
      ghost var s, handle, key := Storage(), nextHandle, state.key;
      ghost var added := book.(orders := book.orders[key := order], seen := book.seen + {key});
      InsertOrder(state, attach);
      ghost var unlinked := state.(previous := None, location := Aggressive);
      if attach.Some? {
        InsertRefines(s, book, key, order, handle, unlinked, state.effectivePrice.value);
        InsertedAttached(s, key, handle, unlinked, state, state.effectivePrice.value, attach.value);
        AttachRest(added, key, state.effectivePrice.value);
        book := added.Attach(key, state.effectivePrice.value);
      } else {
        HideRefines(s, book, key, order, handle, unlinked);
        HideKeepsWellFormed(book, key, order);
        book := added;
      }
    }

    method ApplyAdd(event: BookEvent) returns (r: Result<ApplyOutcome, BookError>)
      requires Valid() && event.AddOrder?
      modifies this
      ensures Valid()
      ensures old(book).ApplyAdd(event).Ok? ==>
        r == Ok(old(book).ApplyAdd(event).value.1) && book == old(book).ApplyAdd(event).value.0
      ensures old(book).ApplyAdd(event).Err? ==> r == Err(old(book).ApplyAdd(event).error) && unchanged(this)
      ensures r.Ok? <==> Effects.Addable(old(book), event)
      ensures r.Ok? ==> Effects.AddsOrder(old(book), event, book)
      ensures r.Ok? ==> Reentry.OrderMarked(book.orders[event.orderKey], event.crossing, false)
    {
      hide Effects.Addable, Effects.PricedAs, Effects.RestsAtOnce, Effects.JoinsTail, Reentry.OrderMarked;
      Reentry.AddTold(book, event);
      hide Represents, Book.WellFormed, Share, Total, PlanFits, Book.Attach;
      hide Book.Crosses, Book.Best, Book.SideTotal, Book.ResolvePrice, QueueTotal, BestOf;
      var key := event.orderKey;
      if key in seenOrderKeys {
        return Err(DuplicateOrder(key));
      }
      var price :- ResolvePrice(key.side, event.pricing);
      var hidden :=
        || event.crossing.AlwaysHide?
        || event.crossing.RestAtLastTradePrice?
        || (event.crossing.HideIfCrossing? && price.Some? && CrossesOpposite(key.side, price.value));
      ghost var order := Order(price, event.quantity, event.quantity, false,
        event.crossing.HideIfCrossing? || event.crossing.RestAtLastTradePrice?, event.crossing.RestAtLastTradePrice?);
      FreshKey(book, key);
      HideKeepsTotals(book, key, order);
      var attach: Option<AttachPlan> := None;
      if !hidden {
        if price.None? {
          return Err(UnpricedVisibleOrder);
        }
        var plan :- ValidateAttach(key.side, price.value, event.quantity);
        attach := Some(plan);
      }
      var state := OrderState(key, price, event.quantity, event.quantity,
        if attach.Some? then attach.value.previous else None, None, if hidden then Aggressive else Resting,
        event.crossing.HideIfCrossing? || event.crossing.RestAtLastTradePrice?,
        event.crossing.RestAtLastTradePrice?);
      Admit(state, attach, order);
      return Ok(Added(key, price, event.quantity, !hidden));
    }

    /** The order leaves the index and the arena; linked or not, the detach came first. */
    method Release(key: OrderKey, handle: Handle)
      modifies `activeByKey, `orders
      ensures activeByKey == old(activeByKey) - {key} && orders == old(orders) - {handle}
    {
      activeByKey := activeByKey - {key};
      orders := orders - {handle};
    }

    method Unlist(state: OrderState, handle: Handle, sideAggregate: SideAggregate)
      requires CanDetach(Storage(), state.key) && activeByKey[state.key] == handle && orders[handle] == state
      requires sideAggregate == AggregateWithout(state.key.side, state.effectivePrice.value, state.remainingQuantity)
      modifies `bids, `asks, `bidAggregate, `askAggregate, `orders, `activeByKey
      ensures Storage() == Detached(old(Storage()), state.key)
    {
      hide ShorterLevels, SetPrevious, SetNext, Share;
      CommitDetach(state, sideAggregate);
      Release(state.key, handle);
    }

    /** A resting order is unlinked and released. */
    method Withdraw(state: OrderState, handle: Handle, sideAggregate: SideAggregate)
      requires Valid() && handle in orders && orders[handle] == state && state.location.Resting?
      requires CanDetach(Storage(), state.key) && activeByKey[state.key] == handle
      requires sideAggregate == AggregateWithout(state.key.side, state.effectivePrice.value, state.remainingQuantity)
      modifies `bids, `asks, `bidAggregate, `askAggregate, `orders, `activeByKey, `book
      ensures Valid() && state.key in old(book).orders && book == old(book).Remove(state.key)
      ensures OnlySide(old(Storage()), Storage(), state.key.side)
    {
      hide Represents, Book.WellFormed, Detached, CanDetach, OnlySide, Book.Remove, Share;
      StateAt(handle);
      DetachRefines(Storage(), book, state.key);
      OtherSideStates(Storage(), book, state.key);
      RemoveKeepsWellFormed(book, state.key);
      RemoveRest(book, state.key);
      book := book.Remove(state.key);
      Unlist(state, handle, sideAggregate);
    }

    method ApplyCancel(event: BookEvent) returns (r: Result<ApplyOutcome, BookError>)
      requires Valid() && event.OrderCancel?
      modifies this
      ensures Valid()
      ensures old(book).ApplyCancel(event).Ok? ==>
        r == Ok(old(book).ApplyCancel(event).value.1) && book == old(book).ApplyCancel(event).value.0
      ensures old(book).ApplyCancel(event).Err? ==> r == Err(old(book).ApplyCancel(event).error) && unchanged(this)
    {
      hide StructureRepresents, AggregatesRepresent, Book.WellFormed;
      var key := event.orderKey;
      ActiveAt(key);
      if key !in activeByKey {
        return Err(UnknownCancellation(key));
      }
      var handle := activeByKey[key];
      if handle !in orders {
        return Err(InvariantViolation(MissingState));
      }
      var state := orders[handle];
      StateAt(handle);
      if state.location.Resting? {
        var sideAggregate := ValidateDetach(handle, state);
        match sideAggregate {
          case Err(error) => return Err(error);
          case Ok(aggregate) => Withdraw(state, handle, aggregate);
        }
      } else {
        ReleaseRefines(Storage(), book, key);
        RemoveKeepsWellFormed(book, key);
        book := book.Remove(key);
        Release(key, handle);
      }
      return Ok(Cancelled(key, state.remainingQuantity));
    }

    /** A hidden order starts to rest: its state is rewritten and then linked behind the tail. */
    method LinkHidden(handle: Handle, state: OrderState, price: Price, attach: AttachPlan)
      requires Valid() && handle in orders && orders[handle].location.Aggressive?
      requires state == orders[handle].(effectivePrice := Some(price), location := Resting, previous := attach.previous)
      requires PlanFits(Storage(), state.key.side, price, state.remainingQuantity, attach)
      requires book.SideTotal(state.key.side, false) + state.remainingQuantity <= MAX_U64
      modifies `bids, `asks, `bidAggregate, `askAggregate, `orders, `book
      ensures Valid() && state.key in old(book).orders && book == old(book).Attach(state.key, price)
      ensures OnlySide(old(Storage()), Storage(), state.key.side)
    {
      hide OnlySide, Represents, Book.WellFormed, Share, Total, SetNext, Behind, Attached, PlanFits;
      hide LevelAt, Book.Attach, Book.SideTotal;
      StateAt(handle);
      AttachRefines(Storage(), book, state.key, price);
      AttachKeepsWellFormed(book, state.key, price);
      AttachRest(book, state.key, price);
      AttachedOnlySide(Storage(), book, state.key, price);
      AttachedLinked(Storage(), state.key, price, state, attach);
      SetNextKeys(orders[handle := state], attach.previous, Some(handle));
      book := book.Attach(state.key, price);
      orders := orders[handle := state];
      CommitAttach(state.key.side, price, handle, attach);
    }

    method RestPendingOrder(key: OrderKey, price: Price) returns (r: Result<(), BookError>)
      requires Valid()
      modifies this
      ensures Valid()
      ensures old(book).RestPending(key, price).Ok? ==> r == Ok(()) && book == old(book).RestPending(key, price).value
      ensures old(book).RestPending(key, price).Err? ==>
        r == Err(old(book).RestPending(key, price).error) && unchanged(this)
      ensures r.Ok? <==> Effects.Completable(old(book), key, price)
      ensures r.Ok? ==> Effects.CompletesOrder(old(book), key, price, book)
    {
      hide Effects.Completable, Effects.CompletesOrder;
      Effects.CompletionEffect(book, key, price);
      hide StructureRepresents, AggregatesRepresent, Book.WellFormed, Share, Total, PlanFits;
      ActiveAt(key);
      if key !in activeByKey {
        return Err(UnknownCancellation(key));
      }
      var handle := activeByKey[key];
      if handle !in orders {
        return Err(InvariantViolation(MissingState));
      }
      StateAt(handle);
      var state := orders[handle];
      if !state.location.Aggressive? || state.allowReentry {
        return Err(InvariantViolation(NotPending));
      }
      if CrossesOpposite(key.side, price) {
        return Err(InvariantViolation(RemainderCrosses));
      }
      var attach :- ValidateAttach(key.side, price, state.remainingQuantity);
      LinkHidden(handle, state.(effectivePrice := Some(price), location := Resting, previous := attach.previous),
                 price, attach);
      AdvanceRevision();
      return Ok(());
    }

    /** The revision saturates, so that it never names two states. */
    method AdvanceRevision()
      requires Valid()
      modifies `revision, `book
      ensures Valid() && book == old(book).(revision := old(book).NextRevision())
    {
      hide StructureRepresents, AggregatesRepresent, Book.Structured, Total;
      AdvanceRefines(Storage(), book, book.lastMeta, book.NextRevision());
      if revision < MAX_U64 {
        revision := revision + 1;
      }
      book := book.(revision := book.NextRevision());
    }

    // ----- planning a trade against the state before it -----

    method ResolveTradeReference(reference: OrderReference, expected: Side)
      returns (r: Result<TradeReferenceResolution, BookError>)
      requires Valid()
      ensures book.Resolve(reference, expected).Err? ==> r == Err(book.Resolve(reference, expected).error)
      ensures book.Resolve(reference, expected).Ok? ==>
        r.Ok? && Resolves(book.Resolve(reference, expected).value, r.value, expected)
    {
      hide StructureRepresents, AggregatesRepresent, Book.WellFormed;
      match reference {
        case Absent =>
          return Ok(TradeReferenceResolution(None, None));
        case Unresolved(side, orderId) =>
          if side != expected {
            return Err(InvalidTradeReferenceSide(expected, side));
          }
          return Ok(TradeReferenceResolution(None, Some((side, orderId))));
        case Resolved(key) =>
          if key.side != expected {
            return Err(InvalidTradeReferenceSide(expected, key.side));
          }
          ActiveAt(key);
          if key in activeByKey {
            return Ok(TradeReferenceResolution(Some(activeByKey[key]), None));
          }
          return Ok(TradeReferenceResolution(None, Some((key.side, key.orderId))));
      }
    }

    ghost predicate Resolves(party: Party, resolution: TradeReferenceResolution, side: Side)
      reads this
    {
      && resolution.unknown == party.unknown
      && (party.key.None? <==> resolution.handle.None?)
      && (party.key.Some? ==>
            && party.key.value.side == side && party.key.value in book.orders
            && resolution.handle.value in orders && orders[resolution.handle.value].key == party.key.value)
    }

    ghost predicate Planned(plan: KnownTradePlan, quantity: Quantity)
      reads this
    {
      PlannedIn(Storage(), plan, quantity)
    }

    method BuildTradePlan(handle: Handle, quantity: Quantity) returns (r: Result<KnownTradePlan, BookError>)
      requires Valid() && handle in orders
      ensures orders[handle].remainingQuantity < quantity ==>
        r == Err(TradeOverfill(orders[handle].key, orders[handle].remainingQuantity, quantity))
      ensures quantity <= orders[handle].remainingQuantity ==>
        && r.Ok? && Planned(r.value, quantity) && r.value.handle == handle && !r.value.reenter
        && r.value.newEffectivePrice == orders[handle].effectivePrice
    {
      hide Valid, Share, LinksIntact;
      var state := orders[handle];
      if state.remainingQuantity < quantity {
        return Err(TradeOverfill(state.key, state.remainingQuantity, quantity));
      }
      StateAt(handle);
      var newRemaining := state.remainingQuantity - quantity;
      var sideAggregate: Option<SideAggregate> := None;
      if state.location.Resting? {
        RestingLinks(handle);
        if state.effectivePrice.None? {
          return Err(InvariantViolation(MissingPrice));
        }
        var price := state.effectivePrice.value;
        if newRemaining == 0 {
          var detached := ValidateDetach(handle, state);
          match detached {
            case Err(error) => return Err(error);
            case Ok(_) =>
          }
        } else {
          if price !in LevelMapOf(state.key.side) {
            return Err(MissingPriceLevel(state.key.side, price));
          }
          if LevelMapOf(state.key.side)[price].totalQuantity < quantity {
            return Err(ArithmeticUnderflow(LevelQuantity));
          }
        }
        ShareMonotone(price, quantity, state.remainingQuantity);
        var reduced := ValidateAggregateSub(state.key.side, price, quantity);
        match reduced {
          case Err(error) => return Err(error);
          case Ok(aggregate) => sideAggregate := Some(aggregate);
        }
      }
      return Ok(KnownTradePlan(handle, state, newRemaining, state.effectivePrice, sideAggregate, false));
    }

    method ValidateTradeStatistics(price: Price, quantity: Quantity) returns (r: Result<TradeStatistics, BookError>)
      requires Valid()
      ensures book.statistics.totalQuantity + quantity > MAX_U64 ==> r == Err(ArithmeticOverflow(TotalTradeQuantity))
      ensures book.statistics.totalQuantity + quantity <= MAX_U64 ==> r == Ok(Record(book.statistics, price, quantity))
    {
      hide StructureRepresents, AggregatesRepresent, Book.Structured, Total, Share;
      if statistics.totalQuantity + quantity > MAX_U64 {
        return Err(ArithmeticOverflow(TotalTradeQuantity));
      }
      StatisticsBounds(statistics, price, quantity);
      var turnover := 0;
      match PriceQuantity(price, quantity) {
        case None => return Err(ArithmeticOverflow(TradeTurnover));
        case Some(product) => turnover := product;
      }
      if statistics.turnover + turnover > MAX_U128 {
        return Err(ArithmeticOverflow(TotalTradeTurnover));
      }
      if statistics.tradeCount + 1 > MAX_U64 {
        return Err(ArithmeticOverflow(TradeCount));
      }
      ShareProduct(price, quantity);
      var high := match statistics.highPrice case None => price case Some(value) => if value < price then price
        else value;
      var low := match statistics.lowPrice case None => price case Some(value) => if price < value then price
        else value;
      return Ok(TradeStatistics(Some(price), Some(high), Some(low), statistics.totalQuantity + quantity,
        statistics.turnover + turnover, statistics.tradeCount + 1));
    }

    /** The best price that the trade will leave on `side`, found by walking the current levels. */
    function BestAfterTrade(side: Side, plan: Option<KnownTradePlan>): Option<Price>
      reads this
    {
      var reduction :=
        if plan.Some? && plan.value.state.location.Resting? && plan.value.state.effectivePrice.Some?
        then Some((plan.value.state.effectivePrice.value, plan.value.state.remainingQuantity - plan.value.newRemaining))
        else None;
      FirstSurviving(side, LevelMapOf(side), LevelMapOf(side).Keys, reduction)
    }

    /** Planned against the state before the trade, it is the best price of the book after it. */
    lemma BestAfterTradeIsBest(side: Side, plan: Option<KnownTradePlan>, key: Option<OrderKey>, quantity: Quantity,
                               price: Price)
      requires Valid() && Fits(book, key, side, quantity) && (plan.None? <==> key.None?)
      requires plan.Some? ==> Planned(plan.value, quantity) && plan.value.state.key == key.value
      ensures BestAfterTrade(side, plan) == Filled(book, key, quantity, price).Best(side)
    {
      hide StructureRepresents, AggregatesRepresent, Book.WellFormed, Total, Share, QueueTotal;
      var after := Filled(book, key, quantity, price);
      FilledFrame(book, key, side, quantity, price);
      var reduction :=
        if plan.Some? && plan.value.state.location.Resting? && plan.value.state.effectivePrice.Some?
        then Some((plan.value.state.effectivePrice.value, plan.value.state.remainingQuantity - plan.value.newRemaining))
        else None;
      if plan.Some? {
        StateAt(plan.value.handle);
      }
      var levels := LevelMapOf(side);
      var left := set p | p in levels && Survives(levels, p, reduction);
      forall p: Price ensures p in left <==> p in after.LevelsOf(side) {
        SideLevel(Storage(), book, side, p);
        FilledLevel(book, key, side, quantity, price, p);
        LevelPositive(book, side, p);
        LevelPositive(after, side, p);
      }
      assert left == after.LevelsOf(side).Keys;
      FirstSurvivingIsBest(side, levels, levels.Keys, reduction, left);
    }

    // ----- committing a trade -----

    /** The price that a planned fill leaves on the order. */
    predicate Priced(plan: KnownTradePlan, tradePrice: Price) {
      plan.newEffectivePrice ==
        if plan.state.location.Aggressive? && plan.state.repriceFromTrade && plan.newRemaining > 0
        then Some(tradePrice) else plan.state.effectivePrice
    }

    method CommitTradePlan(plan: KnownTradePlan, quantity: Quantity, ghost tradePrice: Price)
      requires Valid() && Planned(plan, quantity) && Priced(plan, tradePrice)
      modifies `bids, `asks, `bidAggregate, `askAggregate, `orders, `activeByKey, `book
      ensures Valid()
      ensures plan.state.key in old(book).orders && quantity <= old(book).orders[plan.state.key].remaining
      ensures book == old(book).Fill(plan.state.key, quantity, tradePrice)
      ensures OnlySide(old(Storage()), Storage(), plan.state.key.side)
      ensures plan.state.location.Aggressive? ==>
        && LevelMapOf(plan.state.key.side) == old(LevelMapOf(plan.state.key.side))
        && AggregateOf(plan.state.key.side) == old(AggregateOf(plan.state.key.side))
      ensures plan.state.location.Aggressive? && plan.newRemaining > 0 ==>
        && plan.handle in orders
        && orders[plan.handle] == plan.state.(remainingQuantity := plan.newRemaining,
                                              effectivePrice := plan.newEffectivePrice)
    {
      hide Represents, Book.WellFormed, Share;
      StateAt(plan.handle);
      if plan.state.location.Resting? {
        if plan.newRemaining == 0 {
          RestingLinks(plan.handle);
          match plan.sideAggregate {
            case Some(aggregate) => Withdraw(plan.state, plan.handle, aggregate);
            case None =>
          }
        } else {
          Decrease(plan, quantity, tradePrice);
        }
      } else if plan.newRemaining == 0 {
        FillRemoves(book, plan.state.key, quantity, tradePrice);
        Discard(plan.handle);
      } else {
        Revise(plan, quantity, tradePrice);
      }
    }

    /** A partly filled resting order keeps its place. */
    method Decrease(plan: KnownTradePlan, quantity: Quantity, ghost tradePrice: Price)
      requires Valid() && Planned(plan, quantity) && plan.state.location.Resting? && plan.newRemaining > 0
      modifies `bids, `asks, `bidAggregate, `askAggregate, `orders, `book
      ensures Valid()
      ensures plan.state.key in old(book).orders && quantity <= old(book).orders[plan.state.key].remaining
      ensures book == old(book).Fill(plan.state.key, quantity, tradePrice)
      ensures OnlySide(old(Storage()), Storage(), plan.state.key.side)
    {
      hide Represents, Book.WellFormed, Share, Reduced, OnlySide, CanDetach;
      StateAt(plan.handle);
      RestingLinks(plan.handle);
      ReduceRefines(Storage(), book, plan.state.key, quantity, tradePrice);
      FillKeepsWellFormed(book, plan.state.key, quantity, tradePrice);
      ReducedOnlySide(Storage(), plan.state.key, quantity);
      book := book.Fill(plan.state.key, quantity, tradePrice);
      Subtract(plan, quantity);
    }

    /** The quantity leaves the order, its level and its side, in place. */
    method Subtract(plan: KnownTradePlan, quantity: Quantity)
      requires Planned(plan, quantity) && plan.state.location.Resting? && CanDetach(Storage(), plan.state.key)
      requires activeByKey[plan.state.key] == plan.handle
      modifies `bids, `asks, `bidAggregate, `askAggregate, `orders
      ensures Storage() == Reduced(old(Storage()), plan.state.key, quantity) && orders.Keys == old(orders.Keys)
    {
      hide Share, Decrement;
      var side, price := plan.state.key.side, plan.state.effectivePrice.value;
      DecrementIs(LevelMapOf(side), price, quantity);
      WriteLevels(side, LevelMapOf(side)[price := LevelMapOf(side)[price].(
        totalQuantity := LevelMapOf(side)[price].totalQuantity - quantity)]);
      orders := orders[plan.handle := plan.state.(remainingQuantity := plan.newRemaining)];
      WriteAggregate(side, plan.sideAggregate.value);
    }

    /** A hidden order leaves the book. */
    method Discard(handle: Handle)
      requires Valid() && handle in orders && orders[handle].location.Aggressive?
      modifies `orders, `activeByKey, `book
      ensures Valid() && old(orders[handle]).key in old(book).orders
      ensures book == old(book).Remove(old(orders[handle]).key)
      ensures OnlySide(old(Storage()), Storage(), old(orders[handle]).key.side)
    {
      hide Represents, Book.WellFormed;
      StateAt(handle);
      var key := orders[handle].key;
      ReleaseRefines(Storage(), book, key);
      RemoveKeepsWellFormed(book, key);
      RemoveRest(book, key);
      book := book.Remove(key);
      Release(key, handle);
    }

    /** A partly filled hidden order keeps hiding, at its new price. */
    method Revise(plan: KnownTradePlan, quantity: Quantity, ghost tradePrice: Price)
      requires Valid() && Planned(plan, quantity) && Priced(plan, tradePrice)
      requires plan.state.location.Aggressive? && plan.newRemaining > 0
      modifies `orders, `book
      ensures Valid()
      ensures plan.state.key in old(book).orders && quantity <= old(book).orders[plan.state.key].remaining
      ensures book == old(book).Fill(plan.state.key, quantity, tradePrice)
      ensures orders == old(orders)[plan.handle :=
        plan.state.(remainingQuantity := plan.newRemaining, effectivePrice := plan.newEffectivePrice)]
    {
      hide Represents, Book.WellFormed;
      StateAt(plan.handle);
      var state := plan.state.(remainingQuantity := plan.newRemaining, effectivePrice := plan.newEffectivePrice);
      ghost var order := book.orders[plan.state.key].(remaining := plan.newRemaining, price := plan.newEffectivePrice);
      HiddenUpdateRefines(Storage(), book, plan.state.key, order, state);
      FillKeepsWellFormed(book, plan.state.key, quantity, tradePrice);
      book := book.Fill(plan.state.key, quantity, tradePrice);
      orders := orders[plan.handle := state];
    }

    // ----- the whole trade -----

    ghost predicate SidePlanned(plan: Option<KnownTradePlan>, key: Option<OrderKey>, side: Side, quantity: Quantity,
                                price: Price)
      reads this
    {
      && Fits(book, key, side, quantity)
      && (plan.None? <==> key.None?)
      && (plan.Some? ==>
           Planned(plan.value, quantity) && Priced(plan.value, price) && plan.value.state.key == key.value)
    }

    method PlanSide(resolution: TradeReferenceResolution, ghost party: Party, side: Side, quantity: Quantity)
      returns (r: Result<Option<KnownTradePlan>, BookError>)
      requires Valid() && Resolves(party, resolution, side)
      ensures party.key.Some? && book.orders[party.key.value].remaining < quantity ==>
        r == Err(TradeOverfill(party.key.value, book.orders[party.key.value].remaining, quantity))
      ensures Fits(book, party.key, side, quantity) ==> r.Ok?
      ensures r.Ok? ==> forall price :: SidePlanned(Reprice(r.value, price), party.key, side, quantity, price)
    {
      hide StructureRepresents, AggregatesRepresent, Book.WellFormed, Share;
      match resolution.handle {
        case None => return Ok(None);
        case Some(handle) =>
          StateAt(handle);
          var plan :- BuildTradePlan(handle, quantity);
          return Ok(Some(plan));
      }
    }

    /** A planned order, as the book holds it after its fill. */
    lemma PlannedOrder(plan: KnownTradePlan, quantity: Quantity, price: Price)
      requires Valid() && Planned(plan, quantity) && Priced(plan, price)
      ensures plan.state.key in book.orders && quantity <= book.orders[plan.state.key].remaining <= MAX_U64
      ensures plan.newRemaining + quantity == book.orders[plan.state.key].remaining
      ensures plan.state.location.Aggressive? <==> book.Hidden(plan.state.key)
      ensures var filled := book.Fill(plan.state.key, quantity, price).orders;
              && (plan.state.key in filled <==> plan.newRemaining > 0)
              && (plan.newRemaining > 0 ==>
                    var order := filled[plan.state.key];
                    && order.remaining == plan.newRemaining && order.price == plan.newEffectivePrice
                    && order.resting == plan.state.location.Resting? && order.allowReentry == plan.state.allowReentry)
    {
      hide StructureRepresents, AggregatesRepresent, Book.WellFormed, Share;
      StateAt(plan.handle);
    }

    /** The decision taken on the plans is the one the traded book calls for. */
    lemma ReentryDecision(t: Book, side: Side, plan: Option<KnownTradePlan>, key: Option<OrderKey>, quantity: Quantity,
                          price: Price, oppositeBest: Option<Price>)
      requires Valid() && SidePlanned(plan, key, side, quantity, price)
      requires oppositeBest == t.Best(side.Opposite())
      requires key.Some? ==> (key.value in t.orders <==> key.value in book.Fill(key.value, quantity, price).orders)
      requires key.Some? && key.value in t.orders ==>
        t.orders[key.value] == book.Fill(key.value, quantity, price).orders[key.value]
      ensures plan.Some? ==> (MayRest(side, plan.value, oppositeBest) <==> t.MayReenter(key.value))
      ensures plan.Some? && MayRest(side, plan.value, oppositeBest) ==>
        && t.orders[key.value].price == plan.value.newEffectivePrice
        && t.orders[key.value].remaining == plan.value.newRemaining
        && book.Hidden(key.value) && 0 < plan.value.newRemaining <= MAX_U64
    {
      hide Valid, Planned, Priced, Book.Fill;
      if plan.Some? {
        PlannedOrder(plan.value, quantity, price);
      }
    }

    lemma DecidedPlanned(plan: Option<KnownTradePlan>, key: Option<OrderKey>, side: Side, quantity: Quantity,
                         price: Price,
                         oppositeBest: Option<Price>)
      requires SidePlanned(plan, key, side, quantity, price)
      ensures SidePlanned(Decided(side, plan, oppositeBest), key, side, quantity, price)
    {}

    method ValidateReentry(plan: Option<KnownTradePlan>) returns (r: Result<Option<AttachPlan>, BookError>)
      requires Valid()
      requires plan.Some? && plan.value.reenter ==>
        plan.value.newEffectivePrice.Some? && 0 < plan.value.newRemaining <= MAX_U64
      ensures plan.None? || !plan.value.reenter ==> r == Ok(None)
      ensures plan.Some? && plan.value.reenter ==>
        var side := plan.value.state.key.side;
        if book.SideTotal(side, false) + plan.value.newRemaining > MAX_U64
        then r == Err(ArithmeticOverflow(SideQuantity))
        else r.Ok? && r.value.Some? &&
             PlanFits(Storage(), side, plan.value.newEffectivePrice.value, plan.value.newRemaining, r.value.value)
    {
      hide Represents, Book.WellFormed, PlanFits, Total;
      if plan.None? || !plan.value.reenter {
        return Ok(None);
      }
      if plan.value.newEffectivePrice.None? {
        return Err(InvariantViolation(MissingPrice));
      }
      var attach :- ValidateAttach(plan.value.state.key.side, plan.value.newEffectivePrice.value,
                                   plan.value.newRemaining);
      return Ok(Some(attach));
    }

    /** A plan for one side, ready to be committed in any order with the other side's. */
    ghost predicate SideReady(plan: Option<KnownTradePlan>, attach: Option<AttachPlan>)
      reads this
    {
      && (attach.Some? <==> plan.Some? && plan.value.reenter)
      && (attach.Some? ==>
            && plan.value.state.location.Aggressive? && plan.value.newEffectivePrice.Some?
            && 0 < plan.value.newRemaining <= MAX_U64
            && book.SideTotal(plan.value.state.key.side, false) + plan.value.newRemaining <= MAX_U64
            && PlanFits(Storage(), plan.value.state.key.side, plan.value.newEffectivePrice.value,
                        plan.value.newRemaining, attach.value))
    }

    method CommitSide(plan: Option<KnownTradePlan>, ghost attach: Option<AttachPlan>, ghost key: Option<OrderKey>,
                      side: Side,
                      quantity: Quantity, ghost price: Price)
      requires Valid() && SidePlanned(plan, key, side, quantity, price) && SideReady(plan, attach)
      modifies `bids, `asks, `bidAggregate, `askAggregate, `orders, `activeByKey, `book
      ensures Valid() && book == Filled(old(book), key, quantity, price)
      ensures OnlySide(old(Storage()), Storage(), side)
      ensures ReentryReady(Storage(), plan, attach)
    {
      hide Represents, Book.WellFormed, Share, PlannedIn, Priced, Book.Fill, LevelAt, OnlySide;
      AggregateIsTotal(side);
      SameSide(Storage(), side);
      match plan {
        case None =>
        case Some(p) => CommitTradePlan(p, quantity, price);
      }
    }

    method CommitReentry(plan: KnownTradePlan, attach: AttachPlan)
      requires Valid() && plan.handle in orders && plan.newEffectivePrice.Some?
      requires plan.state.location.Aggressive?
      requires orders[plan.handle] == plan.state.(remainingQuantity := plan.newRemaining,
                                                  effectivePrice := plan.newEffectivePrice)
      requires PlanFits(Storage(), plan.state.key.side, plan.newEffectivePrice.value, plan.newRemaining, attach)
      requires book.SideTotal(plan.state.key.side, false) + plan.newRemaining <= MAX_U64
      modifies `bids, `asks, `bidAggregate, `askAggregate, `orders, `book
      ensures Valid() && plan.state.key in old(book).orders
      ensures book == old(book).Attach(plan.state.key, plan.newEffectivePrice.value)
      ensures OnlySide(old(Storage()), Storage(), plan.state.key.side)
    {
      hide Represents, Book.WellFormed, PlanFits, Total, OnlySide;
      StateAt(plan.handle);
      var price := plan.newEffectivePrice.value;
      LinkHidden(plan.handle, orders[plan.handle].(effectivePrice := Some(price), location := Resting,
        previous := attach.previous), price, attach);
    }

    /** The decision about one remainder, on the book that it will meet. */
    ghost predicate DecisionFor(t: Book, decided: Option<KnownTradePlan>, key: Option<OrderKey>, side: Side,
                                quantity: Quantity, price: Price)
      reads this
    {
      && SidePlanned(decided, key, side, quantity, price)
      && (decided.Some? ==> (decided.value.reenter <==> t.MayReenter(key.value)))
      && (decided.Some? && decided.value.reenter ==>
           && t.orders[key.value].price == decided.value.newEffectivePrice
           && t.orders[key.value].remaining == decided.value.newRemaining
           && book.Hidden(key.value) && 0 < decided.value.newRemaining <= MAX_U64)
    }

    method DecideSide(ghost t: Book, side: Side, plan: Option<KnownTradePlan>, ghost key: Option<OrderKey>,
                      ghost quantity: Quantity, ghost price: Price, oppositeBest: Option<Price>)
      returns (decided: Option<KnownTradePlan>)
      requires Valid() && SidePlanned(plan, key, side, quantity, price)
      requires oppositeBest == t.Best(side.Opposite())
      requires key.Some? ==> (key.value in t.orders <==> key.value in book.Fill(key.value, quantity, price).orders)
      requires key.Some? && key.value in t.orders ==>
        t.orders[key.value] == book.Fill(key.value, quantity, price).orders[key.value]
      ensures decided == Decided(side, plan, oppositeBest) && DecisionFor(t, decided, key, side, quantity, price)
    {
      hide Valid, SidePlanned, Book.Fill, MayRest, Book.MayReenter;
      ReentryDecision(t, side, plan, key, quantity, price, oppositeBest);
      DecidedPlanned(plan, key, side, quantity, price, oppositeBest);
      PlannedAlike(plan, key, side, quantity, price);
      return Decided(side, plan, oppositeBest);
    }

    lemma PlannedAlike(plan: Option<KnownTradePlan>, key: Option<OrderKey>, side: Side, quantity: Quantity,
                       price: Price)
      requires SidePlanned(plan, key, side, quantity, price)
      ensures plan.None? <==> key.None?
    {
    }

    /** The plan for a remainder fails exactly when resting it after the trade would. */
    method PlanReentry(ghost t: Book, decided: Option<KnownTradePlan>, ghost key: Option<OrderKey>, ghost side: Side,
                       ghost quantity: Quantity, ghost price: Price)
      returns (r: Result<Option<AttachPlan>, BookError>)
      requires Valid() && DecisionFor(t, decided, key, side, quantity, price) && (key.Some? ==> key.value.side == side)
      requires key.Some? && book.Hidden(key.value) ==> t.SideTotal(side, false) == book.SideTotal(side, false)
      ensures if t.Reenter(key).Err? then r == Err(t.Reenter(key).error) else r.Ok? && SideReady(decided, r.value)
    {
      hide Represents, Book.WellFormed, PlanFits, Total, Priced, Book.SideTotal, Book.Attach;
      if decided.Some? && decided.value.reenter {
        StateAt(decided.value.handle);
        HiddenState(decided.value.handle);
      }
      r := ValidateReentry(decided);
    }

    lemma HiddenState(handle: Handle)
      requires Valid() && handle in orders
      ensures book.Hidden(orders[handle].key) <==> orders[handle].location.Aggressive?
    {
      hide Represents, Book.WellFormed;
      StateAt(handle);
    }

    /** Everything about a trade is decided here, on the state before it; nothing is written. */
    method PlanTrade(event: BookEvent, ghost bid: Option<OrderKey>, ghost ask: Option<OrderKey>,
                     bidPlanned: Option<KnownTradePlan>, askPlanned: Option<KnownTradePlan>)
      returns (r: Result<TradePlans, BookError>)
      requires Valid() && event.Trade?
      requires SidePlanned(Reprice(bidPlanned, event.price), bid, Buy, event.quantity, event.price)
      requires SidePlanned(Reprice(askPlanned, event.price), ask, Sell, event.quantity, event.price)
      ensures book.statistics.totalQuantity + event.quantity > MAX_U64 ==>
        r == Err(ArithmeticOverflow(TotalTradeQuantity))
      ensures book.statistics.totalQuantity + event.quantity <= MAX_U64 ==>
        var t := AfterTrade(book, bid, ask, event.quantity, event.price);
        if t.Reenter(bid).Err? then r == Err(t.Reenter(bid).error)
        else if Rested(t, bid).Reenter(ask).Err? then r == Err(Rested(t, bid).Reenter(ask).error)
        else r.Ok? && TradeReady(event, bid, ask, t, r.value)
    {
      hide Represents, Book.WellFormed, SidePlanned, DecisionFor, SideReady, Book.Fill, Book.Attach, Total;
      hide BestAfterTrade;
      hide TradeReady, Book.SideTotal, Book.MayReenter, AfterTrade, Record, Reprice;
      var bidPlan, askPlan := Reprice(bidPlanned, event.price), Reprice(askPlanned, event.price);
      var statistics :- ValidateTradeStatistics(event.price, event.quantity);
      SidesFit(bidPlan, bid, askPlan, ask, event.quantity, event.price);
      ghost var t := AfterTrade(book, bid, ask, event.quantity, event.price);
      TradedWellFormed(book, bid, ask, event.quantity, event.price);
      TradedSides(book, bid, ask, event.quantity, event.price);
      TradedHiddenTotals(book, bid, ask, event.quantity, event.price);
      RestedFrame(t, bid);

      var postBestAsk := BestAfterTrade(Sell, askPlan);
      BestAfterTradeIsBest(Sell, askPlan, ask, event.quantity, event.price);
      var bidDecided := DecideSide(t, Buy, bidPlan, bid, event.quantity, event.price, postBestAsk);

      var postBestBid := BestAfterTrade(Buy, bidPlan);
      BestAfterTradeIsBest(Buy, bidPlan, bid, event.quantity, event.price);
      DecisionTells(t, bidDecided, bid, Buy, event.quantity, event.price);
      if bidDecided.Some? && bidDecided.value.reenter {
        postBestBid := Some(Max(postBestBid, bidDecided.value.newEffectivePrice.value));
      }
      var askDecided := DecideSide(Rested(t, bid), Sell, askPlan, ask, event.quantity, event.price, postBestBid);

      var bidAttach :- PlanReentry(t, bidDecided, bid, Buy, event.quantity, event.price);
      var askAttach :- PlanReentry(Rested(t, bid), askDecided, ask, Sell, event.quantity, event.price);
      r := Ok(TradePlans(bidDecided, askDecided, bidAttach, askAttach, statistics));
      TradeIsReady(event, bid, ask, t, r.value);
    }

    lemma SidesFit(bidPlan: Option<KnownTradePlan>, bid: Option<OrderKey>, askPlan: Option<KnownTradePlan>,
                   ask: Option<OrderKey>, quantity: Quantity, price: Price)
      requires SidePlanned(bidPlan, bid, Buy, quantity, price) && SidePlanned(askPlan, ask, Sell, quantity, price)
      ensures Fits(book, bid, Buy, quantity) && (bidPlan.None? <==> bid.None?)
      ensures Fits(book, ask, Sell, quantity) && (askPlan.None? <==> ask.None?)
      ensures bidPlan.Some? ==> Planned(bidPlan.value, quantity) && bidPlan.value.state.key == bid.value
      ensures askPlan.Some? ==> Planned(askPlan.value, quantity) && askPlan.value.state.key == ask.value
    {
      hide Planned, Priced;
    }

    lemma DecisionTells(t: Book, decided: Option<KnownTradePlan>, key: Option<OrderKey>, side: Side, quantity: Quantity,
                        price: Price)
      requires DecisionFor(t, decided, key, side, quantity, price)
      ensures decided.None? <==> key.None?
      ensures decided.Some? ==> (decided.value.reenter <==> t.MayReenter(key.value))
      ensures decided.Some? && decided.value.reenter ==>
        t.orders[key.value].price == decided.value.newEffectivePrice && decided.value.newEffectivePrice.Some?
    {
      hide Planned, Priced;
    }

    lemma TradeIsReady(event: BookEvent, bid: Option<OrderKey>, ask: Option<OrderKey>, t: Book, plans: TradePlans)
      requires event.Trade? && plans.statistics == Record(book.statistics, event.price, event.quantity)
      requires DecisionFor(t, plans.bid, bid, Buy, event.quantity, event.price)
      requires DecisionFor(Rested(t, bid), plans.ask, ask, Sell, event.quantity, event.price)
      requires SideReady(plans.bid, plans.bidAttach) && SideReady(plans.ask, plans.askAttach)
      ensures TradeReady(event, bid, ask, t, plans)
    {
      hide SidePlanned, SideReady, Rested, Record, Book.MayReenter;
    }

    ghost predicate TradeReady(event: BookEvent, bid: Option<OrderKey>, ask: Option<OrderKey>, t: Book,
                               plans: TradePlans)
      requires event.Trade?
      reads this
    {
      && plans.statistics == Record(book.statistics, event.price, event.quantity)
      && SidePlanned(plans.bid, bid, Buy, event.quantity, event.price)
      && SidePlanned(plans.ask, ask, Sell, event.quantity, event.price)
      && SideReady(plans.bid, plans.bidAttach) && SideReady(plans.ask, plans.askAttach)
      && (plans.bid.Some? ==> (plans.bid.value.reenter <==> t.MayReenter(bid.value)))
      && (plans.ask.Some? ==> (plans.ask.value.reenter <==> Rested(t, bid).MayReenter(ask.value)))
      && (plans.bid.Some? && plans.bid.value.reenter ==> t.orders[bid.value].price == plans.bid.value.newEffectivePrice)
      && (plans.ask.Some? && plans.ask.value.reenter ==>
            Rested(t, bid).orders[ask.value].price == plans.ask.value.newEffectivePrice)
    }

    method CommitStatistics(updated: TradeStatistics)
      requires Valid() && StatisticsBounded(updated)
      modifies `statistics, `book
      ensures Valid() && book == old(book).(statistics := updated)
    {
      hide IndexRepresents, LevelsRepresent, Book.WellFormed, Total;
      RecordKeepsWellFormed(book, updated);
      statistics := updated;
      book := book.(statistics := updated);
    }

    lemma AggregateIsTotal(side: Side)
      requires Valid()
      ensures AggregateOf(side).totalQuantity == book.SideTotal(side, false)
    {
      hide StructureRepresents, Book.WellFormed, Total;
    }

    /** Statistics and both fills. Each side's commit leaves the other side's plans correct. */
    method CommitFills(event: BookEvent, plans: TradePlans, ghost bid: Option<OrderKey>, ghost ask: Option<OrderKey>)
      requires Valid() && event.Trade?
      requires book.statistics.totalQuantity + event.quantity <= MAX_U64
      requires SidePlanned(plans.bid, bid, Buy, event.quantity, event.price)
      requires SidePlanned(plans.ask, ask, Sell, event.quantity, event.price)
      requires SideReady(plans.bid, plans.bidAttach) && SideReady(plans.ask, plans.askAttach)
      requires plans.statistics == Record(book.statistics, event.price, event.quantity)
      modifies this
      ensures Valid() && book == AfterTrade(old(book), bid, ask, event.quantity, event.price)
      ensures ReentryReady(Storage(), plans.bid, plans.bidAttach) && ReentryReady(Storage(), plans.ask, plans.askAttach)
    {
      hide Represents, Book.WellFormed, Share, Book.Fill, Record, Total, LevelAt, Filled, AfterTrade, Priced;
      hide StatisticsBounded, PlannedIn, ReentryReady, PlanFits, OnlySide;
      StatisticsOf(book);
      RecordBounded(book.statistics, event.price, event.quantity);
      FilledStatistics(book, bid, ask, event.quantity, event.price);
      CommitStatistics(plans.statistics);
      FilledFrame(book, bid, Buy, event.quantity, event.price);
      label start:
      CommitSide(plans.bid, plans.bidAttach, bid, Buy, event.quantity, event.price);
      if plans.ask.Some? {
        PlanFrame(old@start(Storage()), Storage(), Buy, plans.ask.value, plans.askAttach, event.quantity);
      }
      label between:
      CommitSide(plans.ask, plans.askAttach, ask, Sell, event.quantity, event.price);
      if plans.bid.Some? {
        PlanFrame(old@between(Storage()), Storage(), Sell, plans.bid.value, plans.bidAttach, event.quantity);
      } else {
        NoReentry(Storage());
      }
    }

    /** Both remainders come to rest, the bid first, on the plans made before the trade. */
    method CommitReentries(plans: TradePlans, ghost bid: Option<OrderKey>, ghost ask: Option<OrderKey>)
      requires Valid()
      requires ReentryReady(Storage(), plans.bid, plans.bidAttach)
      requires ReentryReady(Storage(), plans.ask, plans.askAttach)
      requires plans.bidAttach.Some? ==> bid == Some(plans.bid.value.state.key) && bid.value.side == Buy
      requires plans.askAttach.Some? ==> ask == Some(plans.ask.value.state.key) && ask.value.side == Sell
      modifies `bids, `asks, `bidAggregate, `askAggregate, `orders, `book
      ensures Valid()
      ensures plans.bidAttach.Some? ==> bid.value in old(book).orders
      ensures var b := if plans.bidAttach.Some? then old(book).Attach(bid.value,
        plans.bid.value.newEffectivePrice.value) else old(book);
              (plans.askAttach.Some? ==> ask.value in b.orders)
              && book == if plans.askAttach.Some? then b.Attach(ask.value,
                                                                plans.ask.value.newEffectivePrice.value) else b
    {
      hide Represents, Book.WellFormed, Share, Total, LevelAt, Book.Attach;
      AggregateIsTotal(Buy);
      AggregateIsTotal(Sell);
      if plans.bid.Some? && plans.bidAttach.Some? {
        CommitReentry(plans.bid.value, plans.bidAttach.value);
        AggregateIsTotal(Sell);
      }
      if plans.ask.Some? && plans.askAttach.Some? {
        CommitReentry(plans.ask.value, plans.askAttach.value);
      }
    }

    /** Plan on the old state, then commit: both fills, then what may come to rest. */
    method SettleTrade(event: BookEvent, ghost bid: Option<OrderKey>, ghost ask: Option<OrderKey>,
                       bidPlanned: Option<KnownTradePlan>, askPlanned: Option<KnownTradePlan>)
      returns (r: Result<ApplyOutcome, BookError>)
      requires Valid() && event.Trade?
      requires SidePlanned(Reprice(bidPlanned, event.price), bid, Buy, event.quantity, event.price)
      requires SidePlanned(Reprice(askPlanned, event.price), ask, Sell, event.quantity, event.price)
      modifies this
      ensures Valid() && (r.Err? ==> unchanged(this))
      ensures old(book).statistics.totalQuantity + event.quantity > MAX_U64 ==>
        r == Err(ArithmeticOverflow(TotalTradeQuantity))
      ensures old(book).statistics.totalQuantity + event.quantity <= MAX_U64 ==>
        var t := AfterTrade(old(book), bid, ask, event.quantity, event.price);
        if t.Reenter(bid).Err? then r == Err(t.Reenter(bid).error)
        else if Rested(t, bid).Reenter(ask).Err? then r == Err(Rested(t, bid).Reenter(ask).error)
        else
          && r == Ok(Traded(if bid.Some? then event.quantity else 0, if ask.Some? then event.quantity else 0))
          && book == Rested(Rested(t, bid), ask)
    {
      hide Represents, Book.WellFormed, Share, Total, PlanFits, Book.Attach, Book.Fill, PlannedIn, Priced, Record;
      hide AfterTrade, Book.MayReenter, Book.Reenter, ReentryReady, Reprice;
      SidesFit(Reprice(bidPlanned, event.price), bid, Reprice(askPlanned, event.price), ask, event.quantity,
               event.price);
      var plans :- PlanTrade(event, bid, ask, bidPlanned, askPlanned);
      CommitFills(event, plans, bid, ask);
      CommitReentries(plans, bid, ask);
      return Ok(Traded(if plans.bid.Some? then event.quantity else 0, if plans.ask.Some? then event.quantity else 0));
    }

    method ApplyTrade(event: BookEvent) returns (r: Result<ApplyOutcome, BookError>)
      requires Valid() && event.Trade?
      modifies this
      ensures Valid()
      ensures old(book).ApplyTrade(config.unknownTradePolicy, event).Ok? ==>
        && r == Ok(old(book).ApplyTrade(config.unknownTradePolicy, event).value.1)
        && book == old(book).ApplyTrade(config.unknownTradePolicy, event).value.0
      ensures old(book).ApplyTrade(config.unknownTradePolicy, event).Err? ==>
        r == Err(old(book).ApplyTrade(config.unknownTradePolicy, event).error) && unchanged(this)
    {
      hide Represents, Book.WellFormed, Share, Total, Book.Attach, Book.Fill, SidePlanned, Record, AfterTrade, Reprice;
      hide Book.Resolve, Book.Reenter, Rested;
      ghost var bidParty := book.Resolve(event.bidOrder, Buy);
      var bidResolution :- ResolveTradeReference(event.bidOrder, Buy);
      ghost var askParty := book.Resolve(event.askOrder, Sell);
      var askResolution :- ResolveTradeReference(event.askOrder, Sell);
      if config.unknownTradePolicy.Reject? {
        if bidResolution.unknown.Some? {
          return Err(UnknownTradeReference(bidResolution.unknown.value.0, bidResolution.unknown.value.1));
        }
        if askResolution.unknown.Some? {
          return Err(UnknownTradeReference(askResolution.unknown.value.0, askResolution.unknown.value.1));
        }
      }
      ghost var bid, ask := bidParty.value.key, askParty.value.key;
      FillSides(book, bid, ask, event.quantity, event.price);
      var bidPlanned :- PlanSide(bidResolution, bidParty.value, Buy, event.quantity);
      var askPlanned :- PlanSide(askResolution, askParty.value, Sell, event.quantity);
      ApplyTradeSteps(book, config.unknownTradePolicy, event);
      ghost var t := AfterTrade(book, bid, ask, event.quantity, event.price);
      ReenterIs(t, bid);
      ReenterIs(Rested(t, bid), ask);
      r := SettleTrade(event, bid, ask, bidPlanned, askPlanned);
    }

    method Remember(meta: EventMeta)
      requires Valid()
      modifies `lastAppliedMeta, `book
      ensures Valid() && book == old(book).(lastMeta := Some(meta))
    {
      hide StructureRepresents, AggregatesRepresent, Book.Structured, Total;
      AdvanceRefines(Storage(), book, Some(meta), book.revision);
      lastAppliedMeta := Some(meta);
      book := book.(lastMeta := Some(meta));
    }

    method ValidateMeta(meta: EventMeta) returns (r: Result<(), BookError>)
      requires Valid()
      ensures r.Ok? <==> meta.bookKey == config.bookKey && book.NextApplySequence() == Ok(meta.applySequence)
      ensures meta.bookKey != config.bookKey ==> r == Err(BookKeyMismatch(config.bookKey, meta.bookKey))
      ensures meta.bookKey == config.bookKey && book.NextApplySequence().Err? ==>
        r == Err(book.NextApplySequence().error)
      ensures meta.bookKey == config.bookKey && book.NextApplySequence().Ok? && r.Err? ==>
        r == Err(InvalidApplySequence(book.NextApplySequence().value, meta.applySequence))
    {
      if meta.bookKey != config.bookKey {
        return Err(BookKeyMismatch(config.bookKey, meta.bookKey));
      }
      var expected :- NextApplySequence();
      if meta.applySequence != expected {
        return Err(InvalidApplySequence(expected, meta.applySequence));
      }
      return Ok(());
    }

    /** One event: the object follows the abstract book, which does what the event tells, and an error
        tells what stands in the way and changes no field at all. */
    method Apply(event: BookEvent) returns (r: Result<ApplyOutcome, BookError>)
      requires Valid()
      modifies this
      ensures Valid()
      ensures old(book).Apply(config, event).Ok? ==>
        r == Ok(old(book).Apply(config, event).value.1) && book == old(book).Apply(config, event).value.0
      ensures old(book).Apply(config, event).Err? ==> r == Err(old(book).Apply(config, event).error) && unchanged(this)
      ensures r.Err? ==> !r.error.Defensive()
      ensures r.Ok? <==> Reentry.Possible(config, old(book), BookRuns.Event(event))
      ensures r.Ok? ==> Reentry.Effective(old(book), BookRuns.Event(event), book)
      ensures r.Err? ==> Reentry.Explains(r.error, config, old(book), event)
    {
      hide Represents, Book.WellFormed, Book.ApplyAdd, Book.ApplyCancel, Book.ApplyTrade, Total;
      hide Reentry.Possible, Reentry.Effective, Reentry.Explains;
      NeverDefensive(config, book, event);
      Reentry.EventTold(config, book, event);
      var valid :- ValidateMeta(event.meta);
      ghost var before := book;
      var outcome;
      match event {
        case AddOrder(_, _, _, _, _) => outcome :- ApplyAdd(event);
        case OrderCancel(_, _) => outcome :- ApplyCancel(event);
        case Trade(_, _, _, _, _) => outcome :- ApplyTrade(event);
      }
      StepKeepsRevision(before, config.unknownTradePolicy, event);
      Remember(event.meta);
      AdvanceRevision();
      return Ok(outcome);
    }

    // ----- views -----

    function CacheRevision(): (r: Option<nat>)
      requires Valid()
      reads this
      ensures r == if book.revision == MAX_U64 then None else Some(book.revision)
    {
      if revision != MAX_U64 then Some(revision) else None
    }

    lemma LevelAtPrice(side: Side, price: Price)
      requires Valid()
      ensures price in LevelMapOf(side) <==> price in book.LevelsOf(side)
      ensures LevelRepresents(activeByKey, orders, book.orders, QueueAt(book.LevelsOf(side), price),
                              LevelAt(LevelMapOf(side), price))
      ensures forall k | k in QueueAt(book.LevelsOf(side), price) :: k in book.orders
    {
      hide AggregatesRepresent, Book.OrderWellFormed, Total, QueueTotal, LevelsRepresent, LevelRepresents;
      hide LevelsWellFormed;
      LevelOf(activeByKey, orders, book.orders, side, book.LevelsOf(side), LevelMapOf(side), price);
      LevelKeys(activeByKey, orders, book.orders, book.LevelsOf(side), LevelMapOf(side));
    }

    lemma WaitingState(queue: seq<OrderKey>, level: PriceLevel, i: nat)
      requires Valid() && LevelRepresents(activeByKey, orders, book.orders, queue, level) && i < |queue|
      requires forall k | k in queue :: k in book.orders
      ensures HandleAt(activeByKey, queue, i).Some? && HandleAt(activeByKey, queue, i).value in orders
      ensures var state := orders[HandleAt(activeByKey, queue, i).value];
              && ViewOf(state) == ViewAt(book.orders, queue[i])
              && state.next == HandleAt(activeByKey, queue, i + 1)
    {
      hide AggregatesRepresent, Book.WellFormed, Total, QueueTotal, LevelsRepresent;
      assert LinkedAt(activeByKey, orders, queue, i);
    }

    /** The orders waiting at a price, by following the links from the head: the abstract queue. */
    method OrdersAt(side: Side, price: Price) returns (result: seq<OrderView>)
      requires Valid()
      ensures result == QueueViews(book.orders, QueueAt(book.LevelsOf(side), price))
    {
      hide Valid, HandleAt, ViewAt, Linked, QueueTotal;
      result := [];
      LevelAtPrice(side, price);
      if price !in LevelMapOf(side) {
        return;
      }
      var level := LevelMapOf(side)[price];
      ghost var queue := book.LevelsOf(side)[price];
      var current := level.head;
      for i := 0 to level.orderCount
        invariant current == HandleAt(activeByKey, queue, i)
        invariant result == QueueViews(book.orders, queue[..i])
      {
        WaitingState(queue, level, i);
        assert queue[..i + 1] == queue[..i] + [queue[i]];
        var state := orders[current.value];
        result := result + [ViewOf(state)];
        current := state.next;
      }
      assert queue[..level.orderCount] == queue;
    }

    lemma LevelKeysOf(side: Side)
      requires Valid()
      ensures LevelMapOf(side).Keys == book.LevelsOf(side).Keys
    {
      hide Valid, Represents, LevelRepresents;
      forall p: Price ensures p in LevelMapOf(side) <==> p in book.LevelsOf(side) {
        LevelAtPrice(side, p);
      }
    }

    /** The incrementally kept aggregate of a side is the sum over its resting orders. */
    method VisibleAggregate(side: Side) returns (quantity: nat, weighted: nat)
      requires Valid()
      ensures quantity == book.SideTotal(side, false) && weighted == book.SideTotal(side, true)
    {
      hide StructureRepresents, Book.WellFormed, Book.SideTotal;
      var aggregate := if side.Buy? then bidAggregate else askAggregate;
      return aggregate.totalQuantity, aggregate.weighted;
    }

    /** Visiting a side's levels from the best on shows what the abstract book's best levels are. */
    method VisitLevels(side: Side, depth: nat) returns (shown: seq<Views.Level>)
      requires Valid()
      ensures shown == Views.TopLevels(book.orders, book.LevelsOf(side), side, book.LevelsOf(side).Keys, depth)
    {
      hide Valid, QueueTotal, Views.TopLevels;
      LevelKeysOf(side);
      var levels := LevelMapOf(side);
      var prices := levels.Keys;
      shown := [];
      ghost var all := Views.TopLevels(book.orders, book.LevelsOf(side), side, prices, depth);
      for i := 0 to depth
        invariant prices <= levels.Keys && |shown| <= i
        invariant shown + Views.TopLevels(book.orders, book.LevelsOf(side), side, prices, depth - i) == all
        invariant prices == {} || |shown| == i
      {
        TopLevelsStep(book.orders, book.LevelsOf(side), side, prices, depth - i);
        var best := BestOf(side, prices);
        if best.Some? {
          LevelAtPrice(side, best.value);
          var level := Views.Level(best.value, levels[best.value].totalQuantity, levels[best.value].orderCount);
          prices := prices - {best.value};
          ghost var rest := Views.TopLevels(book.orders, book.LevelsOf(side), side, prices, depth - i - 1);
          assert (shown + [level]) + rest == shown + ([level] + rest);
          shown := shown + [level];
        } else {
          TopLevelsStep(book.orders, book.LevelsOf(side), side, prices, depth - i - 1);
        }
      }
      TopLevelsStep(book.orders, book.LevelsOf(side), side, prices, 0);
    }

    /** The book's own audit of its storage; in every reachable state it finds nothing. */
    method CheckInvariants() returns (r: Result<(), BookError>)
      requires Valid()
      ensures r.Ok?
    {
      hide Represents, Book.Structured, LevelsWellFormed;
      assert Invariants.Sound(Storage(), seenOrderKeys, book);
      r := Invariants.CheckInvariants(Store(bids, asks, bidAggregate, askAggregate, activeByKey, orders),
                                      seenOrderKeys);
    }
  }
}
