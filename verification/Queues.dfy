/** The FIFO queue of one price level, as the sequence of the keys waiting there. */
module Queues {
  import opened Wrappers
  import opened MarketData

  /** One order, whether it rests in a queue or is still hidden (`OrderState` without its links). */
  datatype Order = Order(
    price: Option<Price>, original: Quantity, remaining: nat, resting: bool,
    allowReentry: bool, repriceFromTrade: bool)

  type Orders = map<OrderKey, Order>

  ghost predicate Distinct<T(!new)>(s: seq<T>) {
    forall i, j | 0 <= i < j < |s| :: s[i] != s[j]
  }

  function Remaining(orders: Orders, key: OrderKey): nat {
    if key in orders then orders[key].remaining else 0
  }

  function QueueTotal(orders: Orders, queue: seq<OrderKey>): nat {
    if queue == [] then 0 else Remaining(orders, queue[0]) + QueueTotal(orders, queue[1..])
  }

  lemma {:induction false} QueueTotalConcat(orders: Orders, a: seq<OrderKey>, b: seq<OrderKey>)
    ensures QueueTotal(orders, a + b) == QueueTotal(orders, a) + QueueTotal(orders, b)
  {
    if a == [] {
      assert a + b == b;
    } else {
      assert (a + b)[1..] == a[1..] + b;
      QueueTotalConcat(orders, a[1..], b);
    }
  }

  lemma {:induction false} QueueTotalFrame(orders: Orders, orders': Orders, queue: seq<OrderKey>)
    requires forall k | k in queue :: Remaining(orders, k) == Remaining(orders', k)
    ensures QueueTotal(orders, queue) == QueueTotal(orders', queue)
  {
    if queue == [] {
    } else {
      assert queue[0] in queue;
      QueueTotalFrame(orders, orders', queue[1..]);
    }
  }

  /** Changing one order moves the total of its queue by the change in its quantity. */
  lemma QueueTotalUpdate(orders: Orders, orders': Orders, queue: seq<OrderKey>, i: nat)
    requires Distinct(queue) && i < |queue|
    requires forall k | k != queue[i] :: Remaining(orders, k) == Remaining(orders', k)
    ensures QueueTotal(orders', queue) + Remaining(orders, queue[i])
         == QueueTotal(orders, queue) + Remaining(orders', queue[i])
  {
    SplitTotal(orders, queue, i);
    SplitTotal(orders', queue, i);
    QueueTotalFrame(orders, orders', queue[..i]);
    QueueTotalFrame(orders, orders', queue[i + 1..]);
  }

  lemma SplitTotal(orders: Orders, queue: seq<OrderKey>, i: nat)
    requires i < |queue|
    ensures QueueTotal(orders, queue) == QueueTotal(orders, queue[..i]) + Remaining(orders, queue[i])
                                       + QueueTotal(orders, queue[i + 1..])
  {
    assert queue == queue[..i] + ([queue[i]] + queue[i + 1..]);
    QueueTotalConcat(orders, queue[..i], [queue[i]] + queue[i + 1..]);
    assert ([queue[i]] + queue[i + 1..])[1..] == queue[i + 1..];
  }

  /** Every waiting order holds at least one unit, so a queue is never longer than its total. */
  lemma {:induction false} QueueTotalAtLeastCount(orders: Orders, queue: seq<OrderKey>)
    requires forall k | k in queue :: k in orders && orders[k].remaining >= 1
    ensures |queue| <= QueueTotal(orders, queue)
  {
    if queue == [] {
    } else {
      QueueTotalAtLeastCount(orders, queue[1..]);
    }
  }

  /** The queue after its order `key` left. */
  function Without(queue: seq<OrderKey>, key: OrderKey): seq<OrderKey> {
    if queue == [] then []
    else if queue[0] == key then queue[1..]
    else [queue[0]] + Without(queue[1..], key)
  }

  lemma {:induction false} WithoutAt(queue: seq<OrderKey>, i: nat)
    requires Distinct(queue) && i < |queue|
    ensures Without(queue, queue[i]) == queue[..i] + queue[i + 1..]
    ensures Distinct(Without(queue, queue[i]))
    ensures forall k :: k in Without(queue, queue[i]) <==> k in queue && k != queue[i]
  {
    if i == 0 {
      WithoutFirst(queue);
    } else {
      var rest := queue[1..];
      assert queue[i] != queue[0] && rest[i - 1] == queue[i] && queue == [queue[0]] + rest;
      WithoutAt(rest, i - 1);
      assert rest[..i - 1] == queue[1..i] && rest[i..] == queue[i + 1..];
      assert queue[..i] == [queue[0]] + queue[1..i];
    }
  }

  lemma WithoutFirst(queue: seq<OrderKey>)
    requires Distinct(queue) && queue != []
    ensures Without(queue, queue[0]) == queue[1..] && Distinct(queue[1..])
    ensures forall k :: k in queue[1..] <==> k in queue && k != queue[0]
  {
    assert queue == [queue[0]] + queue[1..];
  }

  type Levels = map<Price, seq<OrderKey>>

  function QueueAt(levels: Levels, price: Price): seq<OrderKey> {
    if price in levels then levels[price] else []
  }

  /** The level map after `key` left the queue at `price`; an emptied level disappears. */
  function Leave(queues: Levels, price: Price, key: OrderKey): Levels {
    var rest := Without(QueueAt(queues, price), key);
    if rest == [] then queues - {price} else queues[price := rest]
  }

  /** The quantity resting at each price. */
  function DepthOf(orders: Orders, levels: Levels): map<Price, nat> {
    map p | p in levels :: QueueTotal(orders, levels[p])
  }

  ghost predicate QueueWellFormed(orders: Orders, side: Side, price: Price, queue: seq<OrderKey>) {
    && queue != []
    && Distinct(queue)
    && forall k | k in queue :: k in orders && orders[k].resting && orders[k].price == Some(price) && k.side == side
  }

  ghost predicate LevelsWellFormed(orders: Orders, side: Side, levels: Levels) {
    forall p | p in levels :: QueueWellFormed(orders, side, p, levels[p])
  }

  /** The orders that a queue of the level map holds are left alone. */
  ghost predicate SameExcept(orders: Orders, orders': Orders, key: OrderKey) {
    forall k | k != key :: (k in orders <==> k in orders') && (k in orders ==> orders[k] == orders'[k])
  }

  lemma DepthFrame(orders: Orders, orders': Orders, side: Side, levels: Levels, key: OrderKey)
    requires SameExcept(orders, orders', key) && LevelsWellFormed(orders, side, levels)
    requires key !in orders || !orders[key].resting || key.side != side
    ensures DepthOf(orders', levels) == DepthOf(orders, levels)
    ensures LevelsWellFormed(orders', side, levels)
  {
    forall p | p in levels
      ensures QueueTotal(orders', levels[p]) == QueueTotal(orders, levels[p])
      ensures QueueWellFormed(orders', side, p, levels[p])
    {
      assert QueueWellFormed(orders, side, p, levels[p]);
      QueueTotalFrame(orders, orders', levels[p]);
    }
  }

  /** A queue at another price than the touched order's goes on as it was. */
  lemma QueueKept(orders: Orders, orders': Orders, side: Side, price: Price, queue: seq<OrderKey>, key: OrderKey)
    requires SameExcept(orders, orders', key) && QueueWellFormed(orders, side, price, queue)
    requires key in orders && orders[key].resting ==> orders[key].price != Some(price)
    ensures QueueWellFormed(orders', side, price, queue) && QueueTotal(orders', queue) == QueueTotal(orders, queue)
  {
    hide QueueTotal;
    QueueTotalFrame(orders, orders', queue);
  }

  /** One price's queue is replaced (or its level dropped): depth changes there only. */
  lemma DepthAtOnePrice(orders: Orders, orders': Orders, side: Side, levels: Levels, levels': Levels,
                        key: OrderKey, price: Price)
    requires SameExcept(orders, orders', key) && LevelsWellFormed(orders, side, levels)
    requires key in orders && orders[key].resting ==> orders[key].price == Some(price)
    requires levels' - {price} == levels - {price}
    requires price in levels' ==> QueueWellFormed(orders', side, price, levels'[price])
    ensures LevelsWellFormed(orders', side, levels')
    ensures DepthOf(orders', levels') - {price} == DepthOf(orders, levels) - {price}
    ensures price in levels' ==> DepthOf(orders', levels')[price] == QueueTotal(orders', levels'[price])
  {
    hide QueueTotal, QueueWellFormed, SameExcept;
    forall p | p in levels' && p != price
      ensures p in levels && levels'[p] == levels[p]
      ensures QueueTotal(orders', levels'[p]) == QueueTotal(orders, levels[p])
      ensures QueueWellFormed(orders', side, p, levels'[p])
    {
      assert p in levels' - {price};
      assert levels'[p] == (levels' - {price})[p] == levels[p];
      QueueKept(orders, orders', side, p, levels[p], key);
    }
    forall p | p in levels && p != price ensures p in levels' {
      assert p in levels - {price};
    }
  }
}
