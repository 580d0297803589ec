/** The storage of the order book (src/order_book/state.rs): an arena of order states, linked
    both ways inside each price level, and what it means for that storage to hold an abstract
    book. Lemmas about linking and unlinking are stated on the storage as a value. */
module Arena {
  import opened Wrappers
  import opened MarketData
  import opened Depth
  import opened Queues
  import opened Book
  import opened BookInvariants

  /** Slot-map handles; a fresh one is always available and never reused. */
  type Handle = nat

  datatype OrderLocation = Resting | Aggressive

  datatype OrderState = OrderState(
    key: OrderKey, effectivePrice: Option<Price>, originalQuantity: Quantity, remainingQuantity: nat,
    previous: Option<Handle>, next: Option<Handle>, location: OrderLocation,
    allowReentry: bool, repriceFromTrade: bool)

  datatype PriceLevel = PriceLevel(
    totalQuantity: nat, orderCount: nat, head: Option<Handle>, tail: Option<Handle>)

  const EMPTY_LEVEL := PriceLevel(0, 0, None, None)

  datatype SideAggregate = SideAggregate(totalQuantity: nat, weighted: nat)

  type LevelMap = map<Price, PriceLevel>
  type States = map<Handle, OrderState>
  type Index = map<OrderKey, Handle>

  datatype Store = Store(
    bids: LevelMap, asks: LevelMap, bidAggregate: SideAggregate, askAggregate: SideAggregate,
    active: Index, orders: States)
  {
    function LevelsOf(side: Side): LevelMap {
      if side.Buy? then bids else asks
    }

    function AggregateOf(side: Side): SideAggregate {
      if side.Buy? then bidAggregate else askAggregate
    }

    function WithSide(side: Side, levels: LevelMap, aggregate: SideAggregate): Store {
      if side.Buy? then this.(bids := levels, bidAggregate := aggregate)
      else this.(asks := levels, askAggregate := aggregate)
    }
  }

  function LevelAt(levels: LevelMap, price: Price): PriceLevel {
    if price in levels then levels[price] else EMPTY_LEVEL
  }

  function SetPrevious(orders: States, handle: Option<Handle>, previous: Option<Handle>): States {
    if handle.Some? && handle.value in orders
    then orders[handle.value := orders[handle.value].(previous := previous)] else orders
  }

  function SetNext(orders: States, handle: Option<Handle>, next: Option<Handle>): States {
    if handle.Some? && handle.value in orders
    then orders[handle.value := orders[handle.value].(next := next)] else orders
  }

  // ----- what the storage means -----

  function HandleAt(active: Index, queue: seq<OrderKey>, i: int): Option<Handle> {
    if 0 <= i < |queue| && queue[i] in active then Some(active[queue[i]]) else None
  }

  ghost predicate LinkedAt(active: Index, orders: States, queue: seq<OrderKey>, i: nat)
    requires i < |queue|
  {
    && queue[i] in active
    && active[queue[i]] in orders
    && orders[active[queue[i]]].previous == HandleAt(active, queue, i - 1)
    && orders[active[queue[i]]].next == HandleAt(active, queue, i + 1)
  }

  ghost predicate Linked(active: Index, orders: States, queue: seq<OrderKey>) {
    forall i | 0 <= i < |queue| :: LinkedAt(active, orders, queue, i)
  }

  ghost predicate LevelRepresents(active: Index, states: States, orders: Orders, queue: seq<OrderKey>,
                                  level: PriceLevel) {
    && level.totalQuantity == QueueTotal(orders, queue)
    && level.orderCount == |queue|
    && level.head == HandleAt(active, queue, 0)
    && level.tail == HandleAt(active, queue, |queue| - 1)
    && Linked(active, states, queue)
  }

  ghost predicate LevelsRepresent(active: Index, states: States, orders: Orders, queues: Levels, levels: LevelMap) {
    && levels.Keys == queues.Keys
    && forall p | p in queues :: LevelRepresents(active, states, orders, queues[p], levels[p])
  }

  ghost predicate StateMatches(state: OrderState, key: OrderKey, order: Order) {
    && state.key == key
    && state.effectivePrice == order.price
    && state.originalQuantity == order.original
    && state.remainingQuantity == order.remaining
    && state.location == (if order.resting then Resting else Aggressive)
    && state.allowReentry == order.allowReentry
    && state.repriceFromTrade == order.repriceFromTrade
    && (!order.resting ==> state.previous.None? && state.next.None?)
  }

  ghost predicate IndexRepresents(active: Index, states: States, orders: Orders) {
    && active.Keys == orders.Keys
    && (forall k | k in active :: active[k] in states && StateMatches(states[active[k]], k, orders[k]))
    && (forall h | h in states :: states[h].key in active && active[states[h].key] == h)
  }

  /** Index, arena and levels hold the book's orders and queues. */
  ghost predicate StructureRepresents(s: Store, b: Book) {
    && IndexRepresents(s.active, s.orders, b.orders)
    && LevelsRepresent(s.active, s.orders, b.orders, b.bids, s.bids)
    && LevelsRepresent(s.active, s.orders, b.orders, b.asks, s.asks)
  }

  /** The incremental aggregates equal their recomputation. */
  ghost predicate AggregatesRepresent(s: Store, b: Book) {
    && s.bidAggregate == SideAggregate(b.SideTotal(Buy, false), b.SideTotal(Buy, true))
    && s.askAggregate == SideAggregate(b.SideTotal(Sell, false), b.SideTotal(Sell, true))
  }

  ghost predicate Represents(s: Store, b: Book) {
    StructureRepresents(s, b) && AggregatesRepresent(s, b)
  }

  // ----- frames -----

  lemma Injective(active: Index, states: States, orders: Orders, a: OrderKey, b: OrderKey)
    requires IndexRepresents(active, states, orders) && a in active && b in active && a != b
    ensures active[a] != active[b]
  {
    assert states[active[a]].key == a && states[active[b]].key == b;
  }

  /** The arena changed at the handles of `touched` only. */
  ghost predicate StatesExcept(active: Index, states: States, states': States, touched: set<OrderKey>) {
    forall k | k in active && k !in touched && active[k] in states ::
      active[k] in states' && states'[active[k]] == states[active[k]]
  }

  ghost predicate OrdersExcept(orders: Orders, orders': Orders, touched: set<OrderKey>) {
    forall k | k !in touched :: Remaining(orders, k) == Remaining(orders', k)
  }

  /** None of the queue's orders was touched, and the index still finds them. */
  ghost predicate Spared(active: Index, active': Index, queue: seq<OrderKey>, touched: set<OrderKey>) {
    forall k | k in queue :: k !in touched && k in active && k in active' && active[k] == active'[k]
  }

  /** A level none of whose orders was touched. */
  lemma LevelFrame(active: Index, states: States, orders: Orders, active': Index, states': States, orders': Orders,
                   touched: set<OrderKey>, queue: seq<OrderKey>, level: PriceLevel)
    requires LevelRepresents(active, states, orders, queue, level)
    requires Spared(active, active', queue, touched)
    requires StatesExcept(active, states, states', touched) && OrdersExcept(orders, orders', touched)
    ensures LevelRepresents(active', states', orders', queue, level)
  {
    QueueTotalFrame(orders, orders', queue);
    forall i | 0 <= i < |queue| ensures LinkedAt(active', states', queue, i) {
      assert LinkedAt(active, states, queue, i);
    }
  }

  lemma LevelsFrame(active: Index, states: States, orders: Orders, active': Index, states': States, orders': Orders,
                    touched: set<OrderKey>, queues: Levels, levels: LevelMap)
    requires LevelsRepresent(active, states, orders, queues, levels)
    requires forall p | p in queues :: Spared(active, active', queues[p], touched)
    requires StatesExcept(active, states, states', touched) && OrdersExcept(orders, orders', touched)
    ensures LevelsRepresent(active', states', orders', queues, levels)
  {
    forall p | p in queues ensures LevelRepresents(active', states', orders', queues[p], levels[p]) {
      LevelFrame(active, states, orders, active', states', orders', touched, queues[p], levels[p]);
    }
  }

  /** All levels but the one at `price` were left alone, and that one is represented again. */
  lemma LevelsAtOnePrice(active: Index, states: States, orders: Orders, active': Index, states': States,
                         orders': Orders,
                         touched: set<OrderKey>, queues: Levels, levels: LevelMap, queues': Levels, levels': LevelMap,
                         price: Price)
    requires LevelsRepresent(active, states, orders, queues, levels)
    requires queues' - {price} == queues - {price} && levels' - {price} == levels - {price}
    requires forall p | p in queues && p != price :: Spared(active, active', queues[p], touched)
    requires StatesExcept(active, states, states', touched) && OrdersExcept(orders, orders', touched)
    requires price in queues' <==> price in levels'
    requires price in queues' ==> LevelRepresents(active', states', orders', queues'[price], levels'[price])
    ensures LevelsRepresent(active', states', orders', queues', levels')
  {
    LevelsFrame(active, states, orders, active', states', orders', touched, queues - {price}, levels - {price});
    forall p ensures p in levels' <==> p in queues' {
      assert p != price ==> (p in levels' <==> p in levels' - {price}) && (p in queues' <==> p in queues' - {price});
    }
    forall p | p in queues' ensures LevelRepresents(active', states', orders', queues'[p], levels'[p]) {
      if p != price {
        assert p in queues' - {price};
      }
    }
  }

  // ----- joining a queue -----

  function LinkLast(orders: States, handle: Handle, tail: Option<Handle>, price: Price): States
    requires handle in orders
  {
    var moved := orders[handle := orders[handle].(
      effectivePrice := Some(price), location := Resting, previous := tail, next := None)];
    SetNext(moved, tail, Some(handle))
  }

  function Longer(level: PriceLevel, handle: Handle, quantity: nat): PriceLevel {
    PriceLevel(level.totalQuantity + quantity, level.orderCount + 1,
      if level.head.None? then Some(handle) else level.head, Some(handle))
  }

  /** The storage after the order `key` was linked behind the tail at `price`. */
  function Attached(s: Store, key: OrderKey, price: Price): Store
    requires key in s.active && s.active[key] in s.orders
  {
    var quantity := s.orders[s.active[key]].remainingQuantity;
    var level := LevelAt(s.LevelsOf(key.side), price);
    var aggregate := s.AggregateOf(key.side);
    s.(orders := LinkLast(s.orders, s.active[key], level.tail, price))
     .WithSide(key.side, s.LevelsOf(key.side)[price := Longer(level, s.active[key], quantity)],
       SideAggregate(aggregate.totalQuantity + quantity, aggregate.weighted + Share(price, quantity, true)))
  }

  function Last(queue: seq<OrderKey>): set<OrderKey> {
    if queue == [] then {} else {queue[|queue| - 1]}
  }

  /** Appending to a linked queue: the links are right, and only two states were written. */
  lemma LinkLastLinks(active: Index, states: States, orders: Orders, queue: seq<OrderKey>, key: OrderKey, price: Price)
    requires IndexRepresents(active, states, orders) && Linked(active, states, queue)
    requires key in active && key !in queue && Distinct(queue)
    ensures var states' := LinkLast(states, active[key], HandleAt(active, queue, |queue| - 1), price);
            && Linked(active, states', queue + [key])
            && StatesExcept(active, states, states', {key} + Last(queue))
  {
    var queue' := queue + [key];
    var states' := LinkLast(states, active[key], HandleAt(active, queue, |queue| - 1), price);
    forall i | 0 <= i < |queue'| ensures LinkedAt(active, states', queue', i) {
      if i < |queue| {
        assert LinkedAt(active, states, queue, i);
        Injective(active, states, orders, queue[i], key);
        if i < |queue| - 1 {
          assert LinkedAt(active, states, queue, |queue| - 1);
          Injective(active, states, orders, queue[i], queue[|queue| - 1]);
        }
      }
    }
    forall k | k in active && k !in {key} + Last(queue) && active[k] in states
      ensures active[k] in states' && states'[active[k]] == states[active[k]]
    {
      Injective(active, states, orders, k, key);
      if queue != [] {
        assert LinkedAt(active, states, queue, |queue| - 1);
        Injective(active, states, orders, k, queue[|queue| - 1]);
      }
    }
  }

  lemma LinkLastIndex(active: Index, states: States, orders: Orders, queue: seq<OrderKey>, key: OrderKey, price: Price)
    requires IndexRepresents(active, states, orders) && key in active
    requires queue != [] ==> LinkedAt(active, states, queue, |queue| - 1) && orders[queue[|queue| - 1]].resting
    ensures IndexRepresents(active, LinkLast(states, active[key], HandleAt(active, queue, |queue| - 1), price),
              orders[key := orders[key].(price := Some(price), resting := true)])
  {
    hide IndexRepresents, LinkedAt;
    IndexKeys(active, states, orders, key);
    var tail := HandleAt(active, queue, |queue| - 1);
    var state := states[active[key]].(effectivePrice := Some(price), location := Resting, previous := tail,
                                      next := None);
    var order := orders[key].(price := Some(price), resting := true);
    UpdateIndex(active, states, orders, key, order, state);
    if queue != [] {
      TailRests(active, states, orders, queue);
    }
    SetNextIndex(active, states[active[key] := state], orders[key := order], tail, Some(active[key]));
  }

  lemma TailRests(active: Index, states: States, orders: Orders, queue: seq<OrderKey>)
    requires IndexRepresents(active, states, orders) && queue != [] && LinkedAt(active, states, queue, |queue| - 1)
    ensures queue[|queue| - 1] in orders && queue[|queue| - 1] in active && active[queue[|queue| - 1]] in states
    ensures states[active[queue[|queue| - 1]]].key == queue[|queue| - 1]
  {}

  /** What an index finds does not depend on the links of resting orders. */
  lemma SetNextIndex(active: Index, states: States, orders: Orders, handle: Option<Handle>, next: Option<Handle>)
    requires IndexRepresents(active, states, orders)
    requires handle.Some? && handle.value in states ==>
      states[handle.value].key in orders && orders[states[handle.value].key].resting
    ensures IndexRepresents(active, SetNext(states, handle, next), orders)
  {}

  lemma LevelOf(active: Index, states: States, orders: Orders, side: Side, queues: Levels, levels: LevelMap,
                price: Price)
    requires LevelsRepresent(active, states, orders, queues, levels) && LevelsWellFormed(orders, side, queues)
    ensures LevelRepresents(active, states, orders, QueueAt(queues, price), LevelAt(levels, price))
    ensures price in queues ==> QueueWellFormed(orders, side, price, queues[price])
    ensures Distinct(QueueAt(queues, price))
    ensures forall k | k in QueueAt(queues, price) ::
      k in orders && orders[k].resting && orders[k].price == Some(price) && k.side == side
    ensures QueueAt(queues, price) != [] ==>
      LinkedAt(active, states, QueueAt(queues, price), |QueueAt(queues, price)| - 1)
  {}

  /** Both indexes find the orders that were not touched, at the same handles. */
  ghost predicate IndexExcept(active: Index, active': Index, orders: Orders, touched: set<OrderKey>) {
    forall k | k in orders && k !in touched :: k in active && k in active' && active[k] == active'[k]
  }

  lemma LevelKeys(active: Index, states: States, orders: Orders, queues: Levels, levels: LevelMap)
    requires LevelsRepresent(active, states, orders, queues, levels)
    ensures queues.Keys == levels.Keys
  {}

  /** A step that touches orders of one price only spares the other prices and the other side. */
  lemma Elsewhere(active: Index, active': Index, orders: Orders, side: Side, queues: Levels, price: Price,
                  touched: set<OrderKey>)
    requires LevelsWellFormed(orders, side, queues)
    requires IndexExcept(active, active', orders, touched)
    requires forall k | k in touched ::
      k.side != side || (k in orders && (!orders[k].resting || orders[k].price == Some(price)))
    ensures forall p | p in queues && p != price :: Spared(active, active', queues[p], touched)
    ensures (forall k | k in touched :: k.side != side) ==>
      forall p | p in queues :: Spared(active, active', queues[p], touched)
  {
    forall p | p in queues && (p != price || forall k | k in touched :: k.side != side)
      ensures Spared(active, active', queues[p], touched)
    {
      assert QueueWellFormed(orders, side, p, queues[p]);
    }
  }

  /** The order `key` joins the queue: the arena, and the book's orders. */
  ghost predicate Joins(active: Index, states: States, states': States, orders: Orders, orders': Orders,
                        queue: seq<OrderKey>, key: OrderKey, price: Price) {
    && key in orders && !orders[key].resting
    && key in active && active[key] in states
    && states' == LinkLast(states, active[key], HandleAt(active, queue, |queue| - 1), price)
    && orders' == orders[key := orders[key].(price := Some(price), resting := true)]
  }

  lemma JoinLevel(active: Index, states: States, states': States, orders: Orders, orders': Orders,
                  queue: seq<OrderKey>, level: PriceLevel, key: OrderKey, price: Price)
    requires IndexRepresents(active, states, orders)
    requires Joins(active, states, states', orders, orders', queue, key, price)
    requires LevelRepresents(active, states, orders, queue, level) && key !in queue && Distinct(queue)
    ensures LevelRepresents(active, states', orders', queue + [key], Longer(level, active[key], orders[key].remaining))
    ensures StatesExcept(active, states, states', {key} + Last(queue))
    ensures OrdersExcept(orders, orders', {key} + Last(queue))
    ensures IndexExcept(active, active, orders, {key} + Last(queue))
  {
    LinkLastLinks(active, states, orders, queue, key, price);
    QueueTotalConcat(orders', queue, [key]);
    QueueTotalFrame(orders, orders', queue);
    if queue != [] {
      assert LinkedAt(active, states, queue, 0);
    }
  }

  lemma JoinLevels(active: Index, states: States, states': States, orders: Orders, orders': Orders,
                   queues: Levels, levels: LevelMap, key: OrderKey, price: Price)
    requires IndexRepresents(active, states, orders)
    requires Joins(active, states, states', orders, orders', QueueAt(queues, price), key, price)
    requires LevelsRepresent(active, states, orders, queues, levels) && LevelsWellFormed(orders, key.side, queues)
    ensures LevelsRepresent(active, states', orders', queues[price := QueueAt(queues, price) + [key]],
              levels[price := Longer(LevelAt(levels, price), active[key], orders[key].remaining)])
  {
    hide QueueTotal, LevelsRepresent, LevelRepresents, LevelsWellFormed, Linked, LinkedAt;
    var queue := QueueAt(queues, price);
    LevelOf(active, states, orders, key.side, queues, levels, price);
    JoinLevel(active, states, states', orders, orders', queue, LevelAt(levels, price), key, price);
    Elsewhere(active, active, orders, key.side, queues, price, {key} + Last(queue));
    var queues', levels' := queues[price := queue + [key]],
      levels[price := Longer(LevelAt(levels, price), active[key], orders[key].remaining)];
    assert queues' - {price} == queues - {price} && levels' - {price} == levels - {price};
    LevelsAtOnePrice(active, states, orders, active, states', orders', {key} + Last(queue),
      queues, levels, queues', levels', price);
  }

  lemma JoinOthers(active: Index, states: States, states': States, orders: Orders, orders': Orders,
                   queues: Levels, levels: LevelMap, others: Levels, otherLevels: LevelMap, key: OrderKey, price: Price)
    requires IndexRepresents(active, states, orders)
    requires Joins(active, states, states', orders, orders', QueueAt(queues, price), key, price)
    requires LevelsRepresent(active, states, orders, queues, levels) && LevelsWellFormed(orders, key.side, queues)
    requires LevelsRepresent(active, states, orders, others, otherLevels)
    requires LevelsWellFormed(orders, key.side.Opposite(), others)
    ensures LevelsRepresent(active, states', orders', others, otherLevels)
  {
    hide QueueTotal, LevelsRepresent, LevelRepresents, LevelsWellFormed, Linked, LinkedAt, StatesExcept, OrdersExcept;
    hide IndexExcept, Spared, IndexRepresents;
    var queue := QueueAt(queues, price);
    LevelOf(active, states, orders, key.side, queues, levels, price);
    JoinLevel(active, states, states', orders, orders', queue, LevelAt(levels, price), key, price);
    Elsewhere(active, active, orders, key.side.Opposite(), others, price, {key} + Last(queue));
    LevelsFrame(active, states, orders, active, states', orders', {key} + Last(queue), others, otherLevels);
  }

  lemma AttachStructure(s: Store, b: Book, key: OrderKey, price: Price)
    requires b.Structured() && StructureRepresents(s, b) && b.Hidden(key)
    ensures StructureRepresents(Attached(s, key, price), b.Attach(key, price))
  {
    hide LinkedAt, LevelsWellFormed, LevelsRepresent, IndexRepresents, LevelRepresents, LinkLast, Longer, LevelAt;
    hide Book.OrderWellFormed;
    var side, other := key.side, key.side.Opposite();
    IndexKeys(s.active, s.orders, b.orders, key);
    LevelOf(s.active, s.orders, b.orders, side, b.LevelsOf(side), s.LevelsOf(side), price);
    TailOf(s.active, s.orders, b.orders, QueueAt(b.LevelsOf(side), price), LevelAt(s.LevelsOf(side), price));
    var states', orders' := Attached(s, key, price).orders, b.Attach(key, price).orders;
    LinkLastIndex(s.active, s.orders, b.orders, QueueAt(b.LevelsOf(side), price), key, price);
    JoinLevels(s.active, s.orders, states', b.orders, orders', b.LevelsOf(side), s.LevelsOf(side), key, price);
    JoinOthers(s.active, s.orders, states', b.orders, orders', b.LevelsOf(side), s.LevelsOf(side),
               b.LevelsOf(other), s.LevelsOf(other), key, price);
  }

  lemma IndexKeys(active: Index, states: States, orders: Orders, key: OrderKey)
    requires IndexRepresents(active, states, orders) && (key in orders || key in active)
    ensures key in orders && key in active && active[key] in states
    ensures StateMatches(states[active[key]], key, orders[key])
  {}

  lemma TailOf(active: Index, states: States, orders: Orders, queue: seq<OrderKey>, level: PriceLevel)
    requires LevelRepresents(active, states, orders, queue, level)
    ensures level.tail == HandleAt(active, queue, |queue| - 1)
  {}

  lemma AttachAggregates(s: Store, b: Book, key: OrderKey, price: Price)
    requires b.WellFormed() && AggregatesRepresent(s, b) && b.Hidden(key)
    requires key in s.active && s.active[key] in s.orders
    requires s.orders[s.active[key]].remainingQuantity == b.orders[key].remaining
    ensures AggregatesRepresent(Attached(s, key, price), b.Attach(key, price))
  {
    hide QueueTotal, Total, LinkLast, Longer, LevelAt, Share, SetNext, LevelsWellFormed, Book.OrderWellFormed;
    hide StatisticsBounded, Book.SideTotal;
    ShareZero(price);
    AttachMoves(b, key, price);
    OtherSide(b, b.Attach(key, price), key.side.Opposite(), key);
  }

  /** Linking a hidden order behind the tail represents the book in which it joined the queue. */
  lemma AttachRefines(s: Store, b: Book, key: OrderKey, price: Price)
    requires b.WellFormed() && Represents(s, b) && b.Hidden(key)
    ensures Represents(Attached(s, key, price), b.Attach(key, price))
  {
    AttachStructure(s, b, key, price);
    AttachAggregates(s, b, key, price);
  }

  // ----- leaving a queue -----

  /** The arena after the order at `handle` was unlinked and released. */
  function Unlink(states: States, handle: Handle): States
    requires handle in states
  {
    var state := states[handle];
    SetPrevious(SetNext(states, state.previous, state.next), state.next, state.previous) - {handle}
  }

  function Shorter(level: PriceLevel, state: OrderState): PriceLevel
    requires state.remainingQuantity <= level.totalQuantity && level.orderCount > 0
  {
    PriceLevel(level.totalQuantity - state.remainingQuantity, level.orderCount - 1,
      if state.previous.None? then state.next else level.head,
      if state.next.None? then state.previous else level.tail)
  }

  function ShorterLevels(levels: LevelMap, price: Price, state: OrderState): LevelMap
    requires price in levels && state.remainingQuantity <= levels[price].totalQuantity && levels[price].orderCount > 0
  {
    var level := Shorter(levels[price], state);
    if level.orderCount == 0 then levels - {price} else levels[price := level]
  }

  /** The neighbours of a place in the queue, and the order itself. */
  function Around(queue: seq<OrderKey>, i: nat): set<OrderKey>
    requires i < |queue|
  {
    {queue[i]} + (if i > 0 then {queue[i - 1]} else {}) + (if i + 1 < |queue| then {queue[i + 1]} else {})
  }

  lemma UnlinkAt(active: Index, states: States, orders: Orders, queue: seq<OrderKey>, i: nat, j: nat)
    requires IndexRepresents(active, states, orders) && Linked(active, states, queue) && Distinct(queue)
    requires i < |queue| && j < |queue| && j != i
    ensures queue[i] in active && active[queue[i]] in states && queue[j] in active
    ensures var state := Unlink(states, active[queue[i]]);
            && active[queue[j]] in state
            && state[active[queue[j]]].previous == (if j == i + 1 then HandleAt(active, queue, i - 1)
                                                    else HandleAt(active, queue, j - 1))
            && state[active[queue[j]]].next == (if j + 1 == i then HandleAt(active, queue, i + 1)
                                                else HandleAt(active, queue, j + 1))
  {
    assert LinkedAt(active, states, queue, i) && LinkedAt(active, states, queue, j);
    Injective(active, states, orders, queue[i], queue[j]);
    if 0 < i {
      assert LinkedAt(active, states, queue, i - 1);
      if j != i - 1 {
        Injective(active, states, orders, queue[i - 1], queue[j]);
      }
    }
    if i + 1 < |queue| {
      assert LinkedAt(active, states, queue, i + 1);
      if j != i + 1 {
        Injective(active, states, orders, queue[i + 1], queue[j]);
      }
    }
  }

  lemma UnlinkLinks(active: Index, states: States, orders: Orders, queue: seq<OrderKey>, i: nat)
    requires IndexRepresents(active, states, orders) && Linked(active, states, queue) && Distinct(queue) && i < |queue|
    ensures queue[i] in active && active[queue[i]] in states
    ensures Linked(active - {queue[i]}, Unlink(states, active[queue[i]]), queue[..i] + queue[i + 1..])
  {
    hide IndexRepresents, Unlink;
    assert LinkedAt(active, states, queue, i);
    var active', states' := active - {queue[i]}, Unlink(states, active[queue[i]]);
    var queue' := queue[..i] + queue[i + 1..];
    forall j | 0 <= j < |queue'| ensures LinkedAt(active', states', queue', j) {
      var place := if j < i then j else j + 1;
      UnlinkAt(active, states, orders, queue, i, place);
      assert queue'[j] == queue[place];
      assert j > 0 ==> queue'[j - 1] == queue[if j - 1 < i then j - 1 else j];
      assert j + 1 < |queue'| ==> queue'[j + 1] == queue[if j + 1 < i then j + 1 else j + 2];
    }
  }

  lemma UnlinkSpares(active: Index, states: States, orders: Orders, queue: seq<OrderKey>, i: nat)
    requires IndexRepresents(active, states, orders) && Linked(active, states, queue) && i < |queue|
    ensures queue[i] in active && active[queue[i]] in states
    ensures StatesExcept(active, states, Unlink(states, active[queue[i]]), Around(queue, i))
  {
    assert LinkedAt(active, states, queue, i);
    var states' := Unlink(states, active[queue[i]]);
    forall k | k in active && k !in Around(queue, i) && active[k] in states
      ensures active[k] in states' && states'[active[k]] == states[active[k]]
    {
      Injective(active, states, orders, k, queue[i]);
      if 0 < i {
        assert LinkedAt(active, states, queue, i - 1);
        Injective(active, states, orders, k, queue[i - 1]);
      }
      if i + 1 < |queue| {
        assert LinkedAt(active, states, queue, i + 1);
        Injective(active, states, orders, k, queue[i + 1]);
      }
    }
  }

  lemma UnlinkIndex(active: Index, states: States, orders: Orders, key: OrderKey)
    requires IndexRepresents(active, states, orders) && key in active
    requires states[active[key]].previous.Some? && states[active[key]].previous.value in states ==>
      orders[states[states[active[key]].previous.value].key].resting
    requires states[active[key]].next.Some? && states[active[key]].next.value in states ==>
      orders[states[states[active[key]].next.value].key].resting
    ensures IndexRepresents(active - {key}, Unlink(states, active[key]), orders - {key})
  {
    hide IndexRepresents, SetNext, SetPrevious;
    IndexKeys(active, states, orders, key);
    var state := states[active[key]];
    StateKeys(active, states, orders);
    SetNextIndex(active, states, orders, state.previous, state.next);
    var linked := SetNext(states, state.previous, state.next);
    SetNextKeeps(states, state.previous, state.next);
    SetPreviousIndex(active, linked, orders, state.next, state.previous);
    ReleaseIndex(active, SetPrevious(linked, state.next, state.previous), orders, key);
  }

  lemma StateKeys(active: Index, states: States, orders: Orders)
    requires IndexRepresents(active, states, orders)
    ensures active.Keys == orders.Keys && forall h | h in states :: states[h].key in orders
  {}

  lemma SetNextKeeps(states: States, handle: Option<Handle>, next: Option<Handle>)
    ensures SetNext(states, handle, next).Keys == states.Keys
    ensures forall h | h in states :: SetNext(states, handle, next)[h].key == states[h].key
  {}

  lemma SetPreviousIndex(active: Index, states: States, orders: Orders, handle: Option<Handle>,
                         previous: Option<Handle>)
    requires IndexRepresents(active, states, orders)
    requires handle.Some? && handle.value in states ==>
      states[handle.value].key in orders && orders[states[handle.value].key].resting
    ensures IndexRepresents(active, SetPrevious(states, handle, previous), orders)
  {}

  lemma LeaveEnds(active: Index, states: States, queue: seq<OrderKey>, i: nat)
    requires Linked(active, states, queue) && Distinct(queue) && i < |queue|
    ensures queue[i] in active && active[queue[i]] in states
    ensures var state := states[active[queue[i]]];
            var queue' := queue[..i] + queue[i + 1..];
            && HandleAt(active - {queue[i]}, queue', 0)
                 == (if state.previous.None? then state.next else HandleAt(active, queue, 0))
            && HandleAt(active - {queue[i]}, queue', |queue'| - 1)
            == (if state.next.None? then state.previous else HandleAt(active, queue, |queue| - 1))
  {
    assert LinkedAt(active, states, queue, i);
    assert LinkedAt(active, states, queue, 0) && LinkedAt(active, states, queue, |queue| - 1);
    assert i > 0 ==> LinkedAt(active, states, queue, i - 1);
    assert i + 1 < |queue| ==> LinkedAt(active, states, queue, i + 1);
  }

  lemma LeaveTotal(orders: Orders, queue: seq<OrderKey>, i: nat)
    requires Distinct(queue) && i < |queue|
    ensures QueueTotal(orders - {queue[i]}, queue[..i] + queue[i + 1..]) + Remaining(orders, queue[i])
      == QueueTotal(orders, queue)
  {
    var orders' := orders - {queue[i]};
    SplitTotal(orders, queue, i);
    QueueTotalConcat(orders', queue[..i], queue[i + 1..]);
    QueueTotalFrame(orders, orders', queue[..i]);
    QueueTotalFrame(orders, orders', queue[i + 1..]);
  }

  lemma LeaveLevel(active: Index, states: States, orders: Orders, queue: seq<OrderKey>, level: PriceLevel, i: nat)
    requires IndexRepresents(active, states, orders) && LevelRepresents(active, states, orders, queue, level)
    requires Distinct(queue) && i < |queue|
    ensures queue[i] in active && active[queue[i]] in states
    ensures var state, queue' := states[active[queue[i]]], queue[..i] + queue[i + 1..];
            && state.remainingQuantity <= level.totalQuantity && level.orderCount > 0
            && LevelRepresents(active - {queue[i]}, Unlink(states, active[queue[i]]), orders - {queue[i]},
                 queue', Shorter(level, state))
            && (Shorter(level, state).orderCount == 0 <==> queue' == [])
  {
    hide Unlink, QueueTotal, LinkedAt, HandleAt;
    UnlinkLinks(active, states, orders, queue, i);
    LeaveEnds(active, states, queue, i);
    LeaveTotal(orders, queue, i);
  }

  lemma LeaveIndex(active: Index, states: States, orders: Orders, queue: seq<OrderKey>, i: nat)
    requires IndexRepresents(active, states, orders) && i < |queue|
    ensures IndexExcept(active, active - {queue[i]}, orders, Around(queue, i))
    ensures OrdersExcept(orders, orders - {queue[i]}, Around(queue, i))
  {}

  lemma LeaveMaps(queues: Levels, levels: LevelMap, price: Price, key: OrderKey, state: OrderState)
    requires price in queues && price in levels
    requires state.remainingQuantity <= levels[price].totalQuantity && levels[price].orderCount > 0
    ensures Leave(queues, price, key) - {price} == queues - {price}
    ensures ShorterLevels(levels, price, state) - {price} == levels - {price}
    ensures price in Leave(queues, price, key) <==> Without(queues[price], key) != []
    ensures price in Leave(queues, price, key) ==> Leave(queues, price, key)[price] == Without(queues[price], key)
    ensures price in ShorterLevels(levels, price, state) <==> Shorter(levels[price], state).orderCount != 0
    ensures price in ShorterLevels(levels, price, state) ==>
      ShorterLevels(levels, price, state)[price] == Shorter(levels[price], state)
  {}

  lemma LeaveLevels(active: Index, states: States, orders: Orders, queues: Levels, levels: LevelMap, key: OrderKey,
                    price: Price, i: nat)
    requires IndexRepresents(active, states, orders)
    requires LevelsRepresent(active, states, orders, queues, levels) && LevelsWellFormed(orders, key.side, queues)
    requires price in queues && i < |queues[price]| && queues[price][i] == key
    ensures key in active && active[key] in states && price in levels
    ensures var state := states[active[key]];
            && state.remainingQuantity <= levels[price].totalQuantity && levels[price].orderCount > 0
            && LevelsRepresent(active - {key}, Unlink(states, active[key]), orders - {key},
                 Leave(queues, price, key), ShorterLevels(levels, price, state))
  {
    hide Unlink, QueueTotal, Leave, Without, Shorter, ShorterLevels, LevelRepresents, LinkedAt, Linked;
    hide LevelsWellFormed, LevelsRepresent, IndexRepresents, StatesExcept, OrdersExcept, Spared, IndexExcept;
    var queue := queues[price];
    LevelKeys(active, states, orders, queues, levels);
    LeaveIndex(active, states, orders, queue, i);
    LevelOf(active, states, orders, key.side, queues, levels, price);
    LeaveLevel(active, states, orders, queue, levels[price], i);
    WithoutAt(queue, i);
    UnlinkSpares(active, states, orders, queue, i);
    Elsewhere(active, active - {key}, orders, key.side, queues, price, Around(queue, i));
    var queues', levels' := Leave(queues, price, key), ShorterLevels(levels, price, states[active[key]]);
    LeaveMaps(queues, levels, price, key, states[active[key]]);
    LevelsAtOnePrice(active, states, orders, active - {key}, Unlink(states, active[key]), orders - {key},
      Around(queue, i), queues, levels, queues', levels', price);
  }

  lemma LeaveOthers(active: Index, states: States, orders: Orders, queues: Levels, levels: LevelMap,
                    others: Levels, otherLevels: LevelMap, key: OrderKey, price: Price, i: nat)
    requires IndexRepresents(active, states, orders)
    requires LevelsRepresent(active, states, orders, queues, levels) && LevelsWellFormed(orders, key.side, queues)
    requires LevelsRepresent(active, states, orders, others, otherLevels)
    requires LevelsWellFormed(orders, key.side.Opposite(), others)
    requires price in queues && i < |queues[price]| && queues[price][i] == key
    ensures key in active && active[key] in states
    ensures LevelsRepresent(active - {key}, Unlink(states, active[key]), orders - {key}, others, otherLevels)
  {
    hide Unlink, QueueTotal, LinkedAt, Linked, LevelsWellFormed, LevelsRepresent, IndexRepresents, StatesExcept;
    hide OrdersExcept, Spared, IndexExcept;
    var queue := queues[price];
    LevelKeys(active, states, orders, queues, levels);
    LeaveIndex(active, states, orders, queue, i);
    LevelOf(active, states, orders, key.side, queues, levels, price);
    LeaveLevel(active, states, orders, queue, levels[price], i);
    UnlinkSpares(active, states, orders, queue, i);
    Elsewhere(active, active - {key}, orders, key.side.Opposite(), others, price, Around(queue, i));
    LevelsFrame(active, states, orders, active - {key}, Unlink(states, active[key]), orders - {key},
      Around(queue, i), others, otherLevels);
  }

  /** The checks that precede a detach: the level and the aggregates cover the order. */
  predicate CanDetach(s: Store, key: OrderKey) {
    && key in s.active && s.active[key] in s.orders
    && s.orders[s.active[key]].effectivePrice.Some?
    && var state, price := s.orders[s.active[key]], s.orders[s.active[key]].effectivePrice.value;
    && price in s.LevelsOf(key.side)
    && state.remainingQuantity <= s.LevelsOf(key.side)[price].totalQuantity
    && s.LevelsOf(key.side)[price].orderCount > 0
    && state.remainingQuantity <= s.AggregateOf(key.side).totalQuantity
    && Share(price, state.remainingQuantity, true) <= s.AggregateOf(key.side).weighted
  }

  /** The storage after the resting order `key` left its queue and the arena. */
  function Detached(s: Store, key: OrderKey): Store
    requires CanDetach(s, key)
  {
    var state := s.orders[s.active[key]];
    var price := state.effectivePrice.value;
    var aggregate := s.AggregateOf(key.side);
    s.(active := s.active - {key}, orders := Unlink(s.orders, s.active[key]))
     .WithSide(key.side, ShorterLevels(s.LevelsOf(key.side), price, state),
       SideAggregate(aggregate.totalQuantity - state.remainingQuantity,
                     aggregate.weighted - Share(price, state.remainingQuantity, true)))
  }

  /** A resting order can leave: every check of the source's detach validation holds. */
  lemma DetachAllowed(s: Store, b: Book, key: OrderKey) returns (price: Price, i: nat)
    requires b.WellFormed() && Represents(s, b) && key in b.orders && b.orders[key].resting
    ensures CanDetach(s, key)
    ensures var state := s.orders[s.active[key]];
            && state.effectivePrice == Some(price) && b.orders[key].price == Some(price)
            && state.remainingQuantity == b.orders[key].remaining > 0
            && price in b.LevelsOf(key.side)
            && i < |b.LevelsOf(key.side)[price]| && b.LevelsOf(key.side)[price][i] == key
            && LinkedAt(s.active, s.orders, b.LevelsOf(key.side)[price], i)
            && LevelRepresents(s.active, s.orders, b.orders, b.LevelsOf(key.side)[price], s.LevelsOf(key.side)[price])
            && QueueWellFormed(b.orders, key.side, price, b.LevelsOf(key.side)[price])
  {
    price, i := PlaceOf(b, key);
    assert b.OrderWellFormed(key);
    LeaveTotal(b.orders, b.LevelsOf(key.side)[price], i);
    var rest := b.Remove(key);
    RemoveMoves(b, key);
    match key.side {
      case Buy => LevelOf(s.active, s.orders, b.orders, Buy, b.bids, s.bids, price);
      case Sell => LevelOf(s.active, s.orders, b.orders, Sell, b.asks, s.asks, price);
    }
    assert LinkedAt(s.active, s.orders, b.LevelsOf(key.side)[price], i);
  }

  lemma UnlinkQueueIndex(active: Index, states: States, orders: Orders, queue: seq<OrderKey>, i: nat)
    requires IndexRepresents(active, states, orders) && Linked(active, states, queue) && i < |queue|
    requires forall k | k in queue :: k in orders && orders[k].resting
    ensures queue[i] in active
    ensures IndexRepresents(active - {queue[i]}, Unlink(states, active[queue[i]]), orders - {queue[i]})
  {
    assert LinkedAt(active, states, queue, i);
    assert i > 0 ==> LinkedAt(active, states, queue, i - 1);
    assert i + 1 < |queue| ==> LinkedAt(active, states, queue, i + 1);
    UnlinkIndex(active, states, orders, queue[i]);
  }

  lemma DetachStructure(s: Store, b: Book, key: OrderKey)
    requires b.WellFormed() && Represents(s, b) && key in b.orders && b.orders[key].resting
    requires CanDetach(s, key)
    ensures StructureRepresents(Detached(s, key), b.Remove(key))
  {
    var price, i := DetachAllowed(s, b, key);
    assert b.Structured() && StructureRepresents(s, b);
    hide QueueTotal, LinkedAt, Linked, LevelsWellFormed, Unlink, Book.OrderWellFormed, Book.WellFormed;
    var queue := b.LevelsOf(key.side)[price];
    UnlinkQueueIndex(s.active, s.orders, b.orders, queue, i);
    match key.side {
      case Buy =>
        LeaveLevels(s.active, s.orders, b.orders, b.bids, s.bids, key, price, i);
        LeaveOthers(s.active, s.orders, b.orders, b.bids, s.bids, b.asks, s.asks, key, price, i);
      case Sell =>
        LeaveLevels(s.active, s.orders, b.orders, b.asks, s.asks, key, price, i);
        LeaveOthers(s.active, s.orders, b.orders, b.asks, s.asks, b.bids, s.bids, key, price, i);
    }
  }

  lemma DetachAggregates(s: Store, b: Book, key: OrderKey)
    requires b.WellFormed() && AggregatesRepresent(s, b) && key in b.orders && b.orders[key].resting
    requires CanDetach(s, key) && s.orders[s.active[key]].remainingQuantity == b.orders[key].remaining
    requires s.orders[s.active[key]].effectivePrice == b.orders[key].price
    ensures AggregatesRepresent(Detached(s, key), b.Remove(key))
  {
    hide QueueTotal, Total, Share, Unlink, ShorterLevels;
    RemoveMoves(b, key);
    OtherSide(b, b.Remove(key), key.side.Opposite(), key);
    ShareZero(b.orders[key].price.value);
  }

  lemma ShareMonotone(price: Price, a: nat, b: nat)
    requires a <= b
    ensures Share(price, a, true) <= Share(price, b, true)
  {
    ScaleMonotone(a, b, price);
  }

  lemma ShareZero(price: Price)
    ensures Share(price, 0, true) == 0
  {}

  /** Unlinking a resting order and releasing it represents the book without it. */
  lemma DetachRefines(s: Store, b: Book, key: OrderKey)
    requires b.WellFormed() && Represents(s, b) && key in b.orders && b.orders[key].resting
    ensures CanDetach(s, key) && Represents(Detached(s, key), b.Remove(key))
  {
    var price, i := DetachAllowed(s, b, key);
    DetachStructure(s, b, key);
    DetachAggregates(s, b, key);
  }

  // ----- hidden orders: no level is involved -----

  /** A hidden order was inserted, changed or released at one handle. */
  lemma HiddenStructure(s: Store, s': Store, b: Book, b': Book, key: OrderKey)
    requires b.WellFormed() && Represents(s, b) && (key in b.orders ==> !b.orders[key].resting)
    requires IndexRepresents(s'.active, s'.orders, b'.orders)
    requires s' == s.(active := s'.active, orders := s'.orders)
    requires b'.bids == b.bids && b'.asks == b.asks
    requires StatesExcept(s.active, s.orders, s'.orders, {key})
    requires IndexExcept(s.active, s'.active, b.orders, {key})
    requires SameExcept(b.orders, b'.orders, key)
    ensures Represents(s', b')
  {
    assert OrdersExcept(b.orders, b'.orders, {key});
    OtherSide(b, b', Buy, key);
    OtherSide(b, b', Sell, key);
    HiddenLevels(s, s', b, b', key, Buy);
    HiddenLevels(s, s', b, b', key, Sell);
  }

  lemma HiddenLevels(s: Store, s': Store, b: Book, b': Book, key: OrderKey, side: Side)
    requires LevelsWellFormed(b.orders, side, b.LevelsOf(side)) && (key in b.orders ==> !b.orders[key].resting)
    requires LevelsRepresent(s.active, s.orders, b.orders, b.LevelsOf(side), s.LevelsOf(side))
    requires StatesExcept(s.active, s.orders, s'.orders, {key}) && OrdersExcept(b.orders, b'.orders, {key})
    requires IndexExcept(s.active, s'.active, b.orders, {key})
    ensures LevelsRepresent(s'.active, s'.orders, b'.orders, b.LevelsOf(side), s.LevelsOf(side))
  {
    hide LevelsRepresent, LevelRepresents, QueueTotal, StatesExcept, OrdersExcept;
    forall p | p in b.LevelsOf(side) ensures Spared(s.active, s'.active, b.LevelsOf(side)[p], {key}) {
      assert QueueWellFormed(b.orders, side, p, b.LevelsOf(side)[p]);
    }
    LevelsFrame(s.active, s.orders, b.orders, s'.active, s'.orders, b'.orders, {key}, b.LevelsOf(side),
                s.LevelsOf(side));
  }

  lemma HideRefines(s: Store, b: Book, key: OrderKey, order: Order, handle: Handle, state: OrderState)
    requires b.WellFormed() && Represents(s, b) && key !in b.seen && handle !in s.orders
    requires StateMatches(state, key, order) && !order.resting
    ensures Represents(s.(active := s.active[key := handle], orders := s.orders[handle := state]),
                       b.(orders := b.orders[key := order], seen := b.seen + {key}))
  {
    hide StateMatches, LevelsRepresent, LevelsWellFormed, IndexRepresents, IndexExcept, StatesExcept;
    var s' := s.(active := s.active[key := handle], orders := s.orders[handle := state]);
    var b' := b.(orders := b.orders[key := order], seen := b.seen + {key});
    FreshKey(b, key);
    HideIndex(s.active, s.orders, b.orders, key, order, handle, state);
    HideExcept(s.active, s.orders, b.orders, key, handle, state);
    HiddenStructure(s, s', b, b', key);
  }

  lemma HideExcept(active: Index, states: States, orders: Orders, key: OrderKey, handle: Handle, state: OrderState)
    requires IndexRepresents(active, states, orders) && key !in orders && handle !in states
    ensures StatesExcept(active, states, states[handle := state], {key})
    ensures IndexExcept(active, active[key := handle], orders, {key})
  {}

  lemma HideIndex(active: Index, states: States, orders: Orders, key: OrderKey, order: Order, handle: Handle,
                  state: OrderState)
    requires IndexRepresents(active, states, orders) && key !in orders && handle !in states
    requires StateMatches(state, key, order)
    ensures IndexRepresents(active[key := handle], states[handle := state], orders[key := order])
  {}

  lemma ReleaseIndex(active: Index, states: States, orders: Orders, key: OrderKey)
    requires IndexRepresents(active, states, orders) && key in orders
    ensures IndexRepresents(active - {key}, states - {active[key]}, orders - {key})
    ensures StatesExcept(active, states, states - {active[key]}, {key})
    ensures IndexExcept(active, active - {key}, orders, {key})
  {
    forall k | k in active && k != key ensures active[k] != active[key] {
      Injective(active, states, orders, k, key);
    }
  }

  lemma ReleaseRefines(s: Store, b: Book, key: OrderKey)
    requires b.WellFormed() && Represents(s, b) && b.Hidden(key)
    ensures key in s.active
    ensures Represents(s.(active := s.active - {key}, orders := s.orders - {s.active[key]}), b.Remove(key))
  {
    ReleaseIndex(s.active, s.orders, b.orders, key);
    HiddenStructure(s, s.(active := s.active - {key}, orders := s.orders - {s.active[key]}), b, b.Remove(key), key);
  }

  lemma UpdateIndex(active: Index, states: States, orders: Orders, key: OrderKey, order: Order, state: OrderState)
    requires IndexRepresents(active, states, orders) && key in orders && StateMatches(state, key, order)
    ensures IndexRepresents(active, states[active[key] := state], orders[key := order])
    ensures StatesExcept(active, states, states[active[key] := state], {key})
    ensures IndexExcept(active, active, orders, {key})
  {
    hide StatesExcept;
    forall k | k in active && k != key ensures active[k] != active[key] {
      Injective(active, states, orders, k, key);
    }
    UpdatedExcept(active, states, orders, key, state);
  }

  lemma UpdatedExcept(active: Index, states: States, orders: Orders, key: OrderKey, state: OrderState)
    requires IndexRepresents(active, states, orders) && key in orders
    ensures StatesExcept(active, states, states[active[key] := state], {key})
  {}

  lemma HiddenUpdateRefines(s: Store, b: Book, key: OrderKey, order: Order, state: OrderState)
    requires b.WellFormed() && Represents(s, b) && b.Hidden(key) && !order.resting && StateMatches(state, key, order)
    ensures key in s.active
    ensures Represents(s.(orders := s.orders[s.active[key] := state]), b.(orders := b.orders[key := order]))
  {
    UpdateIndex(s.active, s.orders, b.orders, key, order, state);
    HiddenStructure(s, s.(orders := s.orders[s.active[key] := state]), b, b.(orders := b.orders[key := order]), key);
  }

  // ----- a partial fill decrements in place -----

  function Decrement(levels: LevelMap, price: Price, quantity: nat): LevelMap
    requires price in levels && quantity <= levels[price].totalQuantity
  {
    levels[price := levels[price].(totalQuantity := levels[price].totalQuantity - quantity)]
  }

  function Reduced(s: Store, key: OrderKey, quantity: nat): Store
    requires CanDetach(s, key) && quantity <= s.orders[s.active[key]].remainingQuantity
    requires Share(s.orders[s.active[key]].effectivePrice.value, quantity, true) <= s.AggregateOf(key.side).weighted
  {
    var state := s.orders[s.active[key]];
    var price := state.effectivePrice.value;
    var aggregate := s.AggregateOf(key.side);
    s.(orders := s.orders[s.active[key] := state.(remainingQuantity := state.remainingQuantity - quantity)])
     .WithSide(key.side, Decrement(s.LevelsOf(key.side), price, quantity),
       SideAggregate(aggregate.totalQuantity - quantity, aggregate.weighted - Share(price, quantity, true)))
  }

  lemma ReduceLevel(active: Index, states: States, orders: Orders, orders': Orders, queue: seq<OrderKey>,
                    level: PriceLevel, i: nat, state: OrderState, quantity: nat)
    requires LevelRepresents(active, states, orders, queue, level) && IndexRepresents(active, states, orders)
    requires Distinct(queue) && i < |queue| && SameExcept(orders, orders', queue[i])
    requires queue[i] in active && active[queue[i]] in states
    requires state.previous == states[active[queue[i]]].previous && state.next == states[active[queue[i]]].next
    requires Remaining(orders', queue[i]) + quantity == Remaining(orders, queue[i])
    ensures quantity <= level.totalQuantity
    ensures LevelRepresents(active, states[active[queue[i]] := state], orders', queue,
              level.(totalQuantity := level.totalQuantity - quantity))
  {
    QueueTotalUpdate(orders, orders', queue, i);
    var states' := states[active[queue[i]] := state];
    forall j | 0 <= j < |queue| ensures LinkedAt(active, states', queue, j) {
      assert LinkedAt(active, states, queue, j);
      if j != i {
        Injective(active, states, orders, queue[j], queue[i]);
      }
    }
  }

  lemma ReduceLevels(active: Index, states: States, orders: Orders, orders': Orders, queues: Levels, levels: LevelMap,
                     key: OrderKey, price: Price, i: nat, state: OrderState, quantity: nat)
    requires IndexRepresents(active, states, orders)
    requires LevelsRepresent(active, states, orders, queues, levels) && LevelsWellFormed(orders, key.side, queues)
    requires price in queues && i < |queues[price]| && queues[price][i] == key && SameExcept(orders, orders', key)
    requires key in active && active[key] in states
    requires state.previous == states[active[key]].previous && state.next == states[active[key]].next
    requires StatesExcept(active, states, states[active[key] := state], {key})
    requires IndexExcept(active, active, orders, {key})
    requires Remaining(orders', key) + quantity == Remaining(orders, key)
    ensures price in levels && quantity <= levels[price].totalQuantity
    ensures LevelsRepresent(active, states[active[key] := state], orders', queues, Decrement(levels, price, quantity))
  {
    hide QueueTotal, LinkedAt, LevelRepresents, LevelsWellFormed, StatesExcept, Spared, IndexExcept;
    LevelKeys(active, states, orders, queues, levels);
    LevelOf(active, states, orders, key.side, queues, levels, price);
    ReduceLevel(active, states, orders, orders', queues[price], levels[price], i, state, quantity);
    assert OrdersExcept(orders, orders', {key});
    Elsewhere(active, active, orders, key.side, queues, price, {key});
    assert Decrement(levels, price, quantity) - {price} == levels - {price};
    LevelsAtOnePrice(active, states, orders, active, states[active[key] := state], orders', {key},
      queues, levels, queues, Decrement(levels, price, quantity), price);
  }

  lemma ReducedState(active: Index, states: States, orders: Orders, key: OrderKey, quantity: nat)
    requires IndexRepresents(active, states, orders) && key in orders && orders[key].resting
    requires quantity <= orders[key].remaining
    ensures key in active && active[key] in states && states[active[key]].remainingQuantity == orders[key].remaining
    ensures var order := orders[key].(remaining := orders[key].remaining - quantity);
            var state := states[active[key]].(remainingQuantity := order.remaining);
            && IndexRepresents(active, states[active[key] := state], orders[key := order])
            && StatesExcept(active, states, states[active[key] := state], {key})
            && IndexExcept(active, active, orders, {key})
            && SameExcept(orders, orders[key := order], key)
  {
    var order := orders[key].(remaining := orders[key].remaining - quantity);
    UpdateIndex(active, states, orders, key, order, states[active[key]].(remainingQuantity := order.remaining));
  }

  lemma ReduceStructure(s: Store, b: Book, key: OrderKey, quantity: Quantity, tradePrice: Price, price: Price, i: nat)
    requires b.Structured() && StructureRepresents(s, b) && key in b.orders && b.orders[key].resting
    requires quantity < b.orders[key].remaining && CanDetach(s, key)
    requires quantity <= s.orders[s.active[key]].remainingQuantity
    requires Share(s.orders[s.active[key]].effectivePrice.value, quantity, true) <= s.AggregateOf(key.side).weighted
    requires s.orders[s.active[key]].effectivePrice == Some(price) && price in b.LevelsOf(key.side)
    requires i < |b.LevelsOf(key.side)[price]| && b.LevelsOf(key.side)[price][i] == key
    ensures StructureRepresents(Reduced(s, key, quantity), b.Fill(key, quantity, tradePrice))
  {
    hide QueueTotal, LinkedAt, Linked, LevelRepresents, LevelsWellFormed, LevelsRepresent, IndexRepresents;
    hide Book.OrderWellFormed, Share, Total, StatesExcept, IndexExcept, SameExcept;
    ReducedState(s.active, s.orders, b.orders, key, quantity);
    var order := b.orders[key].(remaining := b.orders[key].remaining - quantity);
    var state := s.orders[s.active[key]].(remainingQuantity := order.remaining);
    var orders', states' := b.orders[key := order], s.orders[s.active[key] := state];
    match key.side {
      case Buy =>
        ReduceLevels(s.active, s.orders, b.orders, orders', b.bids, s.bids, key, price, i, state, quantity);
        OtherLevels(s, b, orders', states', key, Sell);
      case Sell =>
        ReduceLevels(s.active, s.orders, b.orders, orders', b.asks, s.asks, key, price, i, state, quantity);
        OtherLevels(s, b, orders', states', key, Buy);
    }
  }

  lemma OtherLevels(s: Store, b: Book, orders': Orders, states': States, key: OrderKey, side: Side)
    requires LevelsWellFormed(b.orders, side, b.LevelsOf(side)) && key.side != side
    requires LevelsRepresent(s.active, s.orders, b.orders, b.LevelsOf(side), s.LevelsOf(side))
    requires StatesExcept(s.active, s.orders, states', {key}) && SameExcept(b.orders, orders', key)
    requires IndexExcept(s.active, s.active, b.orders, {key})
    ensures LevelsRepresent(s.active, states', orders', b.LevelsOf(side), s.LevelsOf(side))
  {
    hide LevelsRepresent, LevelRepresents, QueueTotal, StatesExcept;
    forall p | p in b.LevelsOf(side) ensures Spared(s.active, s.active, b.LevelsOf(side)[p], {key}) {
      assert QueueWellFormed(b.orders, side, p, b.LevelsOf(side)[p]);
    }
    LevelsFrame(s.active, s.orders, b.orders, s.active, states', orders', {key}, b.LevelsOf(side), s.LevelsOf(side));
  }

  lemma ReduceAggregates(s: Store, b: Book, key: OrderKey, quantity: Quantity, tradePrice: Price)
    requires b.WellFormed() && AggregatesRepresent(s, b) && key in b.orders && b.orders[key].resting
    requires quantity < b.orders[key].remaining && CanDetach(s, key)
    requires s.orders[s.active[key]].remainingQuantity == b.orders[key].remaining
    requires s.orders[s.active[key]].effectivePrice == b.orders[key].price
    ensures Share(b.orders[key].price.value, quantity, true) <= s.AggregateOf(key.side).weighted
    ensures AggregatesRepresent(Reduced(s, key, quantity), b.Fill(key, quantity, tradePrice))
  {
    hide QueueTotal, Total, Decrement, Share, LevelsWellFormed, Book.OrderWellFormed, StatisticsBounded;
    ShareMonotone(b.orders[key].price.value, quantity, b.orders[key].remaining);
    PartialFillMoves(b, key, quantity, tradePrice);
    OtherSide(b, b.Fill(key, quantity, tradePrice), key.side.Opposite(), key);
    ShareZero(b.orders[key].price.value);
  }

  /** Decrementing the order, its level and its side represents the partly filled book. */
  lemma ReduceRefines(s: Store, b: Book, key: OrderKey, quantity: Quantity, tradePrice: Price)
    requires b.WellFormed() && Represents(s, b) && key in b.orders && b.orders[key].resting
    requires quantity < b.orders[key].remaining
    ensures CanDetach(s, key) && quantity <= s.orders[s.active[key]].remainingQuantity
    ensures Share(s.orders[s.active[key]].effectivePrice.value, quantity, true) <= s.AggregateOf(key.side).weighted
    ensures Represents(Reduced(s, key, quantity), b.Fill(key, quantity, tradePrice))
  {
    var price, i := DetachAllowed(s, b, key);
    ReduceAggregates(s, b, key, quantity, tradePrice);
    ReduceStructure(s, b, key, quantity, tradePrice, price, i);
  }
}
