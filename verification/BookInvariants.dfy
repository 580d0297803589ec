/** Every operation of the abstract book keeps it well formed and moves the side totals by
    exactly the quantity it moves. */
module BookInvariants {
  import opened Wrappers
  import opened MarketData
  import opened Depth
  import opened Queues
  import opened Book

  lemma PlaceOf(b: Book, key: OrderKey) returns (price: Price, i: nat)
    requires b.WellFormed() && key in b.orders && b.orders[key].resting
    ensures b.orders[key].price == Some(price) && price in b.LevelsOf(key.side)
    ensures i < |b.LevelsOf(key.side)[price]| && b.LevelsOf(key.side)[price][i] == key
    ensures QueueWellFormed(b.orders, key.side, price, b.LevelsOf(key.side)[price])
  {
    assert b.OrderWellFormed(key);
    price := b.orders[key].price.value;
    i :| 0 <= i < |b.LevelsOf(key.side)[price]| && b.LevelsOf(key.side)[price][i] == key;
  }

  /** A side total after the depth changed at one price. */
  lemma TotalAtOnePrice(depth: map<Price, nat>, depth': map<Price, nat>, p: Price, weighted: bool)
    requires depth' - {p} == depth - {p}
    ensures Total(depth', weighted) + Share(p, At(depth, p), weighted)
         == Total(depth, weighted) + Share(p, At(depth', p), weighted)
  {
    TotalWithout(depth, p, weighted);
    TotalWithout(depth', p, weighted);
  }

  lemma TotalWithout(depth: map<Price, nat>, p: Price, weighted: bool)
    ensures Total(depth, weighted) == Total(depth - {p}, weighted) + Share(p, At(depth, p), weighted)
  {
    if p in depth {
      TotalRemove(depth, p, weighted);
    } else {
      assert depth - {p} == depth;
    }
  }

  /** What one order's arrival, fill or removal does to its side. */
  ghost predicate SideMoved(b: Book, b': Book, side: Side, price: Price, before: nat, after: nat) {
    && b'.SideTotal(side, false) + before == b.SideTotal(side, false) + after
    && b'.SideTotal(side, true) + Share(price, before, true) == b.SideTotal(side, true) + Share(price, after, true)
  }

  lemma DepthMoves(b: Book, b': Book, side: Side, price: Price, before: nat, after: nat)
    requires var d, d' := DepthOf(b.orders, b.LevelsOf(side)), DepthOf(b'.orders, b'.LevelsOf(side));
             d' - {price} == d - {price} && At(d', price) + before == At(d, price) + after
    ensures SideMoved(b, b', side, price, before, after)
  {
    var d, d' := DepthOf(b.orders, b.LevelsOf(side)), DepthOf(b'.orders, b'.LevelsOf(side));
    TotalAtOnePrice(d, d', price, false);
    TotalAtOnePrice(d, d', price, true);
    Distribute(price, At(d', price), before);
    Distribute(price, At(d, price), after);
  }

  lemma Distribute(p: Price, a: nat, b: nat)
    ensures Share(p, a + b, true) == Share(p, a, true) + Share(p, b, true)
  {}

  lemma AttachMoves(b: Book, key: OrderKey, price: Price)
    requires b.WellFormed() && b.Hidden(key)
    ensures var b', side := b.Attach(key, price), key.side;
            && SideMoved(b, b', side, price, 0, b.orders[key].remaining)
            && LevelsWellFormed(b'.orders, side, b'.LevelsOf(side))
            && QueueTotal(b'.orders, QueueAt(b'.LevelsOf(side), price))
            == QueueTotal(b.orders, QueueAt(b.LevelsOf(side), price)) + b.orders[key].remaining
  {
    var b', side := b.Attach(key, price), key.side;
    var levels, levels' := b.LevelsOf(side), b'.LevelsOf(side);
    AppendMoves(b.orders, b'.orders, side, levels, key, price);
    assert levels' == levels[price := QueueAt(levels, price) + [key]];
    DepthMoves(b, b', side, price, 0, b.orders[key].remaining);
  }

  lemma AppendMoves(orders: Orders, orders': Orders, side: Side, levels: Levels, key: OrderKey, price: Price)
    requires LevelsWellFormed(orders, side, levels) && key in orders && !orders[key].resting && key.side == side
    requires orders' == orders[key := orders[key].(price := Some(price), resting := true)]
    ensures var queue := QueueAt(levels, price);
            var levels' := levels[price := queue + [key]];
            && LevelsWellFormed(orders', side, levels')
            && DepthOf(orders', levels') - {price} == DepthOf(orders, levels) - {price}
            && QueueTotal(orders', queue + [key]) == QueueTotal(orders, queue) + orders[key].remaining
  {
    var queue := QueueAt(levels, price);
    var levels' := levels[price := queue + [key]];
    assert price in levels ==> QueueWellFormed(orders, side, price, queue);
    assert QueueWellFormed(orders', side, price, queue + [key]);
    assert levels' - {price} == levels - {price};
    DepthAtOnePrice(orders, orders', side, levels, levels', key, price);
    QueueTotalConcat(orders', queue, [key]);
    QueueTotalFrame(orders, orders', queue);
    assert QueueTotal(orders', [key]) == orders[key].remaining;
  }

  lemma LeaveMoves(orders: Orders, orders': Orders, side: Side, levels: Levels, price: Price, i: nat)
    requires LevelsWellFormed(orders, side, levels) && price in levels && i < |levels[price]|
    requires orders' == orders - {levels[price][i]}
    ensures var rest := Without(levels[price], levels[price][i]);
            var levels' := if rest == [] then levels - {price} else levels[price := rest];
            && LevelsWellFormed(orders', side, levels')
            && DepthOf(orders', levels') - {price} == DepthOf(orders, levels) - {price}
            && QueueTotal(orders', rest) + orders[levels[price][i]].remaining == QueueTotal(orders, levels[price])
  {
    hide QueueTotal, Without;
    var queue := levels[price];
    var key := queue[i];
    var rest := Without(queue, key);
    var levels' := if rest == [] then levels - {price} else levels[price := rest];
    assert QueueWellFormed(orders, side, price, queue);
    WithoutAt(queue, i);
    assert rest != [] ==> QueueWellFormed(orders', side, price, rest);
    assert levels' - {price} == levels - {price};
    DepthAtOnePrice(orders, orders', side, levels, levels', key, price);
    QueueTotalConcat(orders', queue[..i], queue[i + 1..]);
    SplitTotal(orders, queue, i);
    QueueTotalFrame(orders, orders', queue[..i]);
    QueueTotalFrame(orders, orders', queue[i + 1..]);
  }

  lemma ReduceMoves(orders: Orders, orders': Orders, side: Side, levels: Levels, price: Price, i: nat, quantity: nat)
    requires LevelsWellFormed(orders, side, levels) && price in levels && i < |levels[price]|
    requires levels[price][i] in orders && quantity <= orders[levels[price][i]].remaining
    requires var key := levels[price][i];
             orders' == orders[key := orders[key].(remaining := orders[key].remaining - quantity)]
    ensures LevelsWellFormed(orders', side, levels)
    ensures DepthOf(orders', levels) - {price} == DepthOf(orders, levels) - {price}
    ensures QueueTotal(orders', levels[price]) + quantity == QueueTotal(orders, levels[price])
  {
    assert QueueWellFormed(orders, side, price, levels[price]);
    assert QueueWellFormed(orders', side, price, levels[price]);
    DepthAtOnePrice(orders, orders', side, levels, levels, levels[price][i], price);
    QueueTotalUpdate(orders, orders', levels[price], i);
  }

  /** The other side is not involved. */
  lemma OtherSide(b: Book, b': Book, side: Side, key: OrderKey)
    requires LevelsWellFormed(b.orders, side, b.LevelsOf(side))
    requires SameExcept(b.orders, b'.orders, key) && b'.LevelsOf(side) == b.LevelsOf(side)
    requires key !in b.orders || !b.orders[key].resting || key.side != side
    ensures LevelsWellFormed(b'.orders, side, b'.LevelsOf(side))
    ensures forall weighted :: b'.SideTotal(side, weighted) == b.SideTotal(side, weighted)
  {
    DepthFrame(b.orders, b'.orders, side, b.LevelsOf(side), key);
  }

  lemma AttachKeepsWellFormed(b: Book, key: OrderKey, price: Price)
    requires b.WellFormed() && b.Hidden(key)
    requires b.SideTotal(key.side, false) + b.orders[key].remaining <= MAX_U64
    ensures b.Attach(key, price).WellFormed()
  {
    hide LevelsWellFormed, QueueTotal, Total, Book.OrderWellFormed, StatisticsBounded;
    var b' := b.Attach(key, price);
    AttachMoves(b, key, price);
    OtherSide(b, b', key.side.Opposite(), key);
    forall k | k in b'.orders ensures b'.OrderWellFormed(k) {
      AttachPlaces(b, key, price, k);
    }
  }

  lemma AttachPlaces(b: Book, key: OrderKey, price: Price, k: OrderKey)
    requires b.WellFormed() && b.Hidden(key) && k in b.orders
    ensures b.Attach(key, price).OrderWellFormed(k)
  {
    assert b.OrderWellFormed(k);
    if k == key {
      assert key in QueueAt(b.LevelsOf(key.side), price) + [key];
    }
  }

  lemma RemovePlaces(b: Book, key: OrderKey, k: OrderKey)
    requires b.WellFormed() && key in b.orders && k in b.Remove(key).orders
    ensures b.Remove(key).OrderWellFormed(k)
  {
    hide LevelsWellFormed, QueueTotal, Total, StatisticsBounded, Without;
    assert b.OrderWellFormed(k);
    if b.orders[key].resting {
      var price, i := PlaceOf(b, key);
      WithoutAt(b.LevelsOf(key.side)[price], i);
    }
  }

  lemma HideKeepsTotals(b: Book, key: OrderKey, order: Order)
    requires b.WellFormed() && key !in b.orders && !order.resting
    ensures var b' := b.(orders := b.orders[key := order], seen := b.seen + {key});
            && LevelsWellFormed(b'.orders, Buy, b.bids) && LevelsWellFormed(b'.orders, Sell, b.asks)
            && forall side, weighted :: b'.SideTotal(side, weighted) == b.SideTotal(side, weighted)
  {
    hide QueueTotal, Total;
    var b' := b.(orders := b.orders[key := order], seen := b.seen + {key});
    OtherSide(b, b', Buy, key);
    OtherSide(b, b', Sell, key);
  }

  lemma FreshKey(b: Book, key: OrderKey)
    requires b.WellFormed() && key !in b.seen
    ensures key !in b.orders
  {
    assert key in b.orders ==> b.OrderWellFormed(key);
  }

  lemma HideKeepsWellFormed(b: Book, key: OrderKey, order: Order)
    requires b.WellFormed() && key !in b.seen && !order.resting && order.remaining == order.original
    ensures b.(orders := b.orders[key := order], seen := b.seen + {key}).WellFormed()
  {
    hide QueueTotal, Total, LevelsWellFormed;
    var b' := b.(orders := b.orders[key := order], seen := b.seen + {key});
    FreshKey(b, key);
    HideKeepsTotals(b, key, order);
    forall k | k in b'.orders ensures b'.OrderWellFormed(k) {
      if k != key {
        assert b.OrderWellFormed(k);
      }
    }
  }

  lemma RemoveMoves(b: Book, key: OrderKey)
    requires b.WellFormed() && key in b.orders && b.orders[key].resting
    ensures var b', side, price := b.Remove(key), key.side, b.orders[key].price.value;
            && SideMoved(b, b', side, price, b.orders[key].remaining, 0)
            && LevelsWellFormed(b'.orders, side, b'.LevelsOf(side))
            && QueueTotal(b'.orders, QueueAt(b'.LevelsOf(side), price)) + b.orders[key].remaining
            == QueueTotal(b.orders, QueueAt(b.LevelsOf(side), price))
  {
    var price, i := PlaceOf(b, key);
    var b', side := b.Remove(key), key.side;
    var levels := b.LevelsOf(side);
    LeaveMoves(b.orders, b'.orders, side, levels, price, i);
    var rest := Without(levels[price], key);
    assert b'.LevelsOf(side) == if rest == [] then levels - {price} else levels[price := rest];
    DepthMoves(b, b', side, price, b.orders[key].remaining, 0);
  }

  lemma RemoveKeepsWellFormed(b: Book, key: OrderKey)
    requires b.WellFormed() && key in b.orders
    ensures b.Remove(key).WellFormed()
  {
    hide LevelsWellFormed, QueueTotal, Total, Book.OrderWellFormed, StatisticsBounded;
    var b' := b.Remove(key);
    OtherSide(b, b', key.side.Opposite(), key);
    if b.orders[key].resting {
      RemoveMoves(b, key);
    } else {
      OtherSide(b, b', key.side, key);
    }
    forall k | k in b'.orders ensures b'.OrderWellFormed(k) {
      RemovePlaces(b, key, k);
    }
  }

  lemma PartialFillMoves(b: Book, key: OrderKey, quantity: Quantity, tradePrice: Price)
    requires b.WellFormed() && key in b.orders && b.orders[key].resting && quantity < b.orders[key].remaining
    ensures var b', side, price := b.Fill(key, quantity, tradePrice), key.side, b.orders[key].price.value;
            && SideMoved(b, b', side, price, quantity, 0)
            && LevelsWellFormed(b'.orders, side, b'.LevelsOf(side))
            && QueueTotal(b'.orders, QueueAt(b'.LevelsOf(side), price)) + quantity
            == QueueTotal(b.orders, QueueAt(b.LevelsOf(side), price))
  {
    var price, i := PlaceOf(b, key);
    var b' := b.Fill(key, quantity, tradePrice);
    ReduceMoves(b.orders, b'.orders, key.side, b.LevelsOf(key.side), price, i, quantity);
    DepthMoves(b, b', key.side, price, quantity, 0);
  }

  lemma FillKeepsWellFormed(b: Book, key: OrderKey, quantity: Quantity, tradePrice: Price)
    requires b.WellFormed() && key in b.orders && quantity <= b.orders[key].remaining
    ensures b.Fill(key, quantity, tradePrice).WellFormed()
  {
    hide Total, QueueTotal, LevelsWellFormed;
    if quantity == b.orders[key].remaining {
      RemoveKeepsWellFormed(b, key);
    } else {
      var b' := b.Fill(key, quantity, tradePrice);
      OtherSide(b, b', key.side.Opposite(), key);
      if b.orders[key].resting {
        PartialFillMoves(b, key, quantity, tradePrice);
      } else {
        OtherSide(b, b', key.side, key);
      }
      forall k | k in b'.orders ensures b'.OrderWellFormed(k) {
        assert b.OrderWellFormed(k);
      }
    }
  }
}
