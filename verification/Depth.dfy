/** Price-keyed tables: the best price of a side, and the totals over its levels. The source
    keeps each side in a `BTreeMap`; here the order is the choice of the best key. */
module Depth {
  import opened Wrappers
  import opened MarketData

  predicate IsBest(side: Side, best: Price, prices: set<Price>) {
    best in prices && forall p | p in prices :: !side.Better(p, best)
  }

  /** The first price in the side's visiting order. */
  function BestOf(side: Side, prices: set<Price>): (best: Option<Price>)
    ensures best.None? <==> prices == {}
    ensures best.Some? ==> IsBest(side, best.value, prices)
  {
    if prices == {} then None else
      BestExists(side, prices);
      var p: Price :| IsBest(side, p, prices);
      Some(p)
  }

  lemma {:induction false} BestExists(side: Side, prices: set<Price>)
    requires prices != {}
    ensures exists p: Price :: IsBest(side, p, prices)
  {
    var p: Price :| p in prices;
    var others := prices - {p};
    assert prices == others + {p};
    if others == {} {
      assert IsBest(side, p, prices);
    } else {
      BestExists(side, others);
      var r: Price :| IsBest(side, r, others);
      var best := if side.Better(p, r) then p else r;
      assert IsBest(side, best, prices);
    }
  }

  /** A level's share of a side total: its quantity, or its price times its quantity. */
  function Share(price: Price, quantity: nat, weighted: bool): nat {
    if weighted then price * quantity else quantity
  }

  /** The sum over all levels, as the audit loop of the source recomputes it. */
  function Total(depth: map<Price, nat>, weighted: bool): nat
    decreases |depth|
  {
    if depth == map[] then 0 else
      var p: Price := BestOf(Sell, depth.Keys).value;
      Share(p, depth[p], weighted) + Total(depth - {p}, weighted)
  }

  lemma {:induction false} TotalRemove(depth: map<Price, nat>, p: Price, weighted: bool)
    requires p in depth
    ensures Total(depth, weighted) == Share(p, depth[p], weighted) + Total(depth - {p}, weighted)
    decreases |depth|
  {
    var first: Price := BestOf(Sell, depth.Keys).value;
    if p != first {
      TotalRemove(depth - {first}, p, weighted);
      TotalRemove(depth - {p}, first, weighted);
      assert depth - {first} - {p} == depth - {p} - {first};
    }
  }

  function At(depth: map<Price, nat>, p: Price): nat {
    if p in depth then depth[p] else 0
  }

  lemma {:induction false} LevelWithinTotal(depth: map<Price, nat>, p: Price)
    requires p in depth
    ensures depth[p] <= Total(depth, false)
  {
    TotalRemove(depth, p, false);
  }

  /** The weighted total lies between the side's extreme prices times its quantity. */
  lemma {:induction false} WeightedBounds(depth: map<Price, nat>, low: Price, high: Price)
    requires forall p | p in depth :: low <= p <= high
    ensures low * Total(depth, false) <= Total(depth, true) <= high * Total(depth, false)
    decreases |depth|
  {
    if depth == map[] {
    } else {
      var p: Price := BestOf(Sell, depth.Keys).value;
      WeightedBounds(depth - {p}, low, high);
      AddShare(low, p, high, depth[p], Total(depth - {p}, false), Total(depth - {p}, true));
    }
  }

  lemma AddShare(low: nat, p: nat, high: nat, q: nat, rest: nat, weighted: nat)
    requires low <= p <= high && low * rest <= weighted <= high * rest
    ensures low * (q + rest) <= p * q + weighted <= high * (q + rest)
  {
    ScaleMonotone(low, p, q);
    ScaleMonotone(p, high, q);
    assert low * (q + rest) == low * q + low * rest && high * (q + rest) == high * q + high * rest;
  }

  lemma ScaleMonotone(a: nat, b: nat, q: nat)
    requires a <= b
    ensures a * q <= b * q
  {
    assert b * q == a * q + (b - a) * q;
  }
}
