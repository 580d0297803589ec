/** The values a book shows to its observers: side totals, mean prices and the ten best levels
    (src/production/snapshot.rs, src/production/validation.rs), and the compact form in which the
    validator stores reference frames (src/production/validation/reference.rs). */
module Views {
  import opened Wrappers
  import opened MarketData
  import opened Depth
  import opened Queues
  import opened Book

  datatype ViewError = Arithmetic | Validation

  // ----- mean prices -----

  /** Integer division rounded half up. */
  function RoundedMean(weighted: nat, total: nat): nat
    requires total > 0
  {
    var n: nat := weighted + total / 2;
    n / total
  }

  lemma DivisionBounds(n: nat, d: nat)
    requires d > 0
    ensures n / d * d <= n < n / d * d + d
  {
  }

  lemma QuotientBounds(n: nat, d: nat, low: nat, high: nat)
    requires d > 0 && low * d <= n < high * d + d
    ensures low <= n / d <= high
  {
    DivisionBounds(n, d);
    var q := n / d;
    assert (q + 1) * d == q * d + d && (high + 1) * d == high * d + d;
    if q + 1 <= low {
      ScaleMonotone(q + 1, low, d);
    }
    if high + 1 <= q {
      ScaleMonotone(high + 1, q, d);
    }
  }

  /** `value` is the multiple of `unit` nearest to weighted / total, the greater one of two as near. */
  ghost predicate HalfUp(value: nat, weighted: nat, total: nat, unit: nat)
    requires unit > 0
  {
    value % unit == 0 && 2 * (value * total) <= 2 * weighted + total * unit < 2 * (value * total) + 2 * (total * unit)
  }

  /** There is only one such multiple. */
  lemma OneHalfUp(a: nat, b: nat, weighted: nat, total: nat, unit: nat)
    requires total > 0 && unit > 0 && HalfUp(a, weighted, total, unit) && HalfUp(b, weighted, total, unit)
    ensures a == b
  {
    if a < b {
      NoneBetween(a, b, weighted, total, unit);
    } else if b < a {
      NoneBetween(b, a, weighted, total, unit);
    }
  }

  lemma NoneBetween(a: nat, b: nat, weighted: nat, total: nat, unit: nat)
    requires total > 0 && unit > 0 && a < b
    ensures !HalfUp(a, weighted, total, unit) || !HalfUp(b, weighted, total, unit)
  {
    if a % unit == 0 && b % unit == 0 {
      MultiplesApart(a, b, unit);
      ScaleMonotone(a + unit, b, total);
      Distributes(a, unit, total);
    }
  }

  lemma Distributes(a: nat, b: nat, total: nat)
    ensures (a + b) * total == a * total + total * b
  {
  }

  /** A multiple other than zero is at least one quantum away from it. */
  lemma SmallMultiple(k: int, quantum: int)
    requires quantum > 0
    ensures k > 0 ==> k * quantum >= quantum
    ensures k < 0 ==> k * quantum <= -quantum
  {
    if k > 0 {
      ScaleMonotone(1, k, quantum);
    } else if k < 0 {
      ScaleMonotone(1, -k, quantum);
    }
  }

  lemma MultiplesApart(a: nat, b: nat, unit: nat)
    requires unit > 0 && a < b && a % unit == 0 && b % unit == 0
    ensures a + unit <= b
  {
    var i, j := a / unit, b / unit;
    assert a == i * unit + a % unit && b == j * unit + b % unit;
    assert (j - i) * unit == j * unit - i * unit;
    SmallMultiple(j - i, unit);
  }

  /** The rounded mean is the nearest unit to the exact one and inside the prices' range. */
  lemma RoundedMeanExact(weighted: nat, total: nat, low: nat, high: nat)
    requires total > 0 && low * total <= weighted <= high * total
    ensures HalfUp(RoundedMean(weighted, total), weighted, total, 1)
    ensures low <= RoundedMean(weighted, total) <= high
  {
    var mean := RoundedMean(weighted, total);
    DivisionBounds(weighted + total / 2, total);
    QuotientBounds(weighted + total / 2, total, low, high);
  }

  /** `aggregate_side`: the side's quantity and its rounded mean price. */
  function AggregateSide(b: Book, side: Side): Result<(nat, Option<i64>), ViewError> {
    var total, weighted := b.SideTotal(side, false), b.SideTotal(side, true);
    if total == 0 then Ok((0, None))
    else if weighted + total / 2 > MAX_U128 then Err(Arithmetic)
    else if RoundedMean(weighted, total) > MAX_I64 then Err(Arithmetic)
    else Ok((total, Some(RoundedMean(weighted, total))))
  }

  /** In a reachable book the mean exists for a non-empty side, never overflows, lies between the
      side's lowest and highest price and is the exact mean rounded half up. */
  lemma AggregateSideMean(b: Book, side: Side, low: Price, high: Price)
    requires b.WellFormed()
    requires forall p | p in b.LevelsOf(side) :: low <= p <= high
    ensures AggregateSide(b, side).Ok?
    ensures var (total, mean) := AggregateSide(b, side).value;
            && total == b.SideTotal(side, false)
            && (mean.None? <==> total == 0)
            && (mean.Some? ==> low <= mean.value <= high)
            && (mean.Some? ==> HalfUp(mean.value, b.SideTotal(side, true), total, 1))
  {
    hide Total, QueueTotal, LevelsWellFormed, Book.Structured, RoundedMean, HalfUp, StatisticsBounded;
    var depth := DepthOf(b.orders, b.LevelsOf(side));
    WeightedBounds(depth, low, high);
    var total := Total(depth, false);
    if total > 0 {
      RoundedMeanExact(Total(depth, true), total, low, high);
      ScaleMonotone(high, MAX_I64, total);
      assert MAX_I64 * total <= MAX_I64 * MAX_U64;
    }
  }

  function RoundToQuantum(weighted: nat, total: nat, quantum: nat): Result<nat, ViewError>
    requires total > 0 && quantum > 0
  {
    var divisor := total * quantum;
    assert divisor > 0;
    if divisor > MAX_U128 then Err(Arithmetic)
    else if weighted + divisor / 2 > MAX_U128 then Err(Arithmetic)
    else
      var rounded := (weighted + divisor / 2) / divisor * quantum;
      if rounded > MAX_U128 then Err(Arithmetic) else Ok(rounded)
  }

  /** Rounding succeeds while its two sums fit, and gives the exact mean on the quantum's grid, half up. */
  lemma RoundToQuantumExact(weighted: nat, total: nat, quantum: nat)
    requires total > 0 && quantum > 0
    ensures RoundToQuantum(weighted, total, quantum).Ok? <==>
      total * quantum <= MAX_U128 && weighted + total * quantum / 2 <= MAX_U128
    ensures RoundToQuantum(weighted, total, quantum).Ok? ==>
      HalfUp(RoundToQuantum(weighted, total, quantum).value, weighted, total, quantum)
  {
    Positive(total, quantum);
    var divisor: nat := total * quantum;
    var shifted: nat := weighted + divisor / 2;
    var quanta: nat := shifted / divisor;
    DivisionBounds(shifted, divisor);
    MultipleOf(quanta, quantum);
    Regrouped(quanta, total, quantum);
    Halves(weighted, divisor, quanta * divisor);
  }

  lemma Positive(a: nat, b: nat)
    requires a > 0 && b > 0
    ensures a * b > 0
  {
    ScaleMonotone(1, a, b);
  }

  /** So many quanta, taken in total, are as many divisors; and they are no more than these. */
  lemma Regrouped(quanta: nat, total: nat, quantum: nat)
    requires total > 0
    ensures quanta * quantum * total == quanta * (total * quantum)
    ensures quanta * quantum <= quanta * (total * quantum)
  {
    assert quanta * quantum * total == quanta * (quantum * total);
    assert quantum * total == total * quantum;
    ScaleMonotone(1, total, quanta * quantum);
    assert total * (quanta * quantum) == quanta * quantum * total;
  }

  lemma Halves(weighted: nat, divisor: nat, part: nat)
    requires part <= weighted + divisor / 2 < part + divisor
    ensures 2 * part <= 2 * weighted + divisor < 2 * part + 2 * divisor
  {
  }

  lemma MultipleOf(k: nat, quantum: nat)
    requires quantum > 0
    ensures k * quantum % quantum == 0
  {
    QuotientBounds(k * quantum, quantum, k, k);
  }

  /** Rust's division truncates toward zero. */
  function Truncated(n: int, d: int): int
    requires d > 0
  {
    if n >= 0 then n / d else -(-n / d)
  }

  function Quantize(quantum: nat, price: Option<int>): Option<int>
    requires quantum > 0
  {
    if price.None? then None else Some(Truncated(price.value + quantum / 2, quantum) * quantum)
  }

  /** A published price is already a multiple of the quantum: rounding it again changes nothing. */
  lemma QuantizeIdempotent(quantum: nat, price: nat)
    requires quantum > 0 && price % quantum == 0
    ensures Quantize(quantum, Some(price)) == Some(price)
  {
    var k := price / quantum;
    assert price == k * quantum;
    QuotientBounds(price + quantum / 2, quantum, k, k);
  }

  function PublishedPrice(b: Book, side: Side, quantum: nat): Result<Option<int>, ViewError>
    requires quantum > 0
  {
    var total, weighted := b.SideTotal(side, false), b.SideTotal(side, true);
    if total == 0 then Ok(None)
    else
      var rounded :- RoundToQuantum(weighted, total, quantum);
      if rounded > MAX_I64 then Err(Arithmetic) else Ok(Some(rounded))
  }

  /** The price that a side publishes: none for an empty side, and otherwise the exact mean on the
      quantum's grid, half up; it fails exactly when that price, or a sum on the way, does not fit. */
  lemma PublishedExact(b: Book, side: Side, quantum: nat)
    requires quantum > 0
    ensures var total, weighted := b.SideTotal(side, false), b.SideTotal(side, true);
      var r := PublishedPrice(b, side, quantum);
      && (r == Ok(None) <==> total == 0)
      && (total > 0 ==>
           (r.Ok? <==>
             && total * quantum <= MAX_U128 && weighted + total * quantum / 2 <= MAX_U128
             && forall p: nat | HalfUp(p, weighted, total, quantum) :: p <= MAX_I64))
      && (r.Ok? && r.value.Some? ==>
           0 <= r.value.value <= MAX_I64 && HalfUp(r.value.value, weighted, total, quantum)
           && Quantize(quantum, r.value) == r.value)
  {
    hide Total, HalfUp, RoundToQuantum, Book.SideTotal;
    var total, weighted := b.SideTotal(side, false), b.SideTotal(side, true);
    if total > 0 {
      RoundToQuantumExact(weighted, total, quantum);
      if RoundToQuantum(weighted, total, quantum).Ok? {
        var rounded := RoundToQuantum(weighted, total, quantum).value;
        forall p: nat | HalfUp(p, weighted, total, quantum) ensures p == rounded {
          OneHalfUp(p, rounded, weighted, total, quantum);
        }
        HalfUpMultiple(rounded, weighted, total, quantum);
        QuantizeIdempotent(quantum, rounded);
      }
    }
  }

  lemma HalfUpMultiple(value: nat, weighted: nat, total: nat, unit: nat)
    requires unit > 0 && HalfUp(value, weighted, total, unit)
    ensures value % unit == 0
  {
  }

  /** No level lies so high that rounding to the quantum could leave the price's width. */
  ghost predicate Modest(b: Book, quantum: nat) {
    forall side, p: Price | p in b.LevelsOf(side) :: p <= MAX_I64 - quantum
  }

  /** A reachable book with modest prices always publishes. */
  lemma PublishedOk(b: Book, side: Side, quantum: nat)
    requires b.WellFormed() && quantum > 0 && Modest(b, quantum)
    ensures PublishedPrice(b, side, quantum).Ok?
  {
    hide Total, QueueTotal, LevelsWellFormed, Book.Structured, HalfUp, StatisticsBounded, RoundToQuantum;
    var depth := DepthOf(b.orders, b.LevelsOf(side));
    var total, weighted := Total(depth, false), Total(depth, true);
    if total > 0 {
      PublishedExact(b, side, quantum);
      if b.LevelsOf(side) == map[] {
        NoDepth(depth);
      }
      var p: Price :| p in b.LevelsOf(side);
      var high: Price := MAX_I64 - quantum;
      WeightedBounds(depth, 1, high);
      ModestFits(weighted, total, quantum);
      forall p: nat | HalfUp(p, weighted, total, quantum) ensures p <= MAX_I64 {
        ModestRounded(p, weighted, total, quantum);
      }
    }
  }

  lemma NoDepth(depth: map<Price, nat>)
    requires depth.Keys == {}
    ensures Total(depth, false) == 0
  {
    assert depth == map[];
  }

  lemma ModestFits(weighted: nat, total: nat, quantum: nat)
    requires 0 < total <= MAX_U64 && 0 < quantum < MAX_I64 && weighted <= (MAX_I64 - quantum) * total
    ensures total * quantum <= MAX_U128 && weighted + total * quantum / 2 <= MAX_U128
  {
    ScaleMonotone(quantum, MAX_I64, total);
    assert quantum * total == total * quantum && (MAX_I64 - quantum) * total == MAX_I64 * total - quantum * total;
    assert MAX_I64 * total <= MAX_I64 * MAX_U64 <= MAX_U128;
  }

  lemma ModestRounded(p: nat, weighted: nat, total: nat, quantum: nat)
    requires 0 < total && 0 < quantum < MAX_I64 && weighted <= (MAX_I64 - quantum) * total
    requires HalfUp(p, weighted, total, quantum)
    ensures p <= MAX_I64
  {
    assert (MAX_I64 - quantum) * total == MAX_I64 * total - total * quantum;
    if p > MAX_I64 {
      ScaleMonotone(MAX_I64 + 1, p, total);
    }
  }

  // ----- levels -----

  datatype Level = Level(price: int, quantity: nat, orderCount: nat)

  /** The `depth` best levels of a side among `prices`, best first. */
  function TopLevels(orders: Orders, levels: map<Price, seq<OrderKey>>, side: Side, prices: set<Price>,
                     depth: nat): seq<Level>
    requires prices <= levels.Keys
    decreases depth
  {
    if depth == 0 || prices == {} then []
    else
      var best: Price := BestOf(side, prices).value;
      [Level(best, QueueTotal(orders, levels[best]), |levels[best]|)]
        + TopLevels(orders, levels, side, prices - {best}, depth - 1)
  }

  ghost predicate Shown(shown: seq<Level>, p: Price) {
    exists i :: 0 <= i < |shown| && shown[i].price == p
  }

  ghost predicate WholeLevels(orders: Orders, levels: map<Price, seq<OrderKey>>, prices: set<Price>,
                              shown: seq<Level>) {
    forall i | 0 <= i < |shown| ::
      && 0 < shown[i].price <= MAX_I64 && shown[i].price in prices && shown[i].price in levels
      && shown[i].quantity == QueueTotal(orders, levels[shown[i].price])
      && shown[i].orderCount == |levels[shown[i].price]|
  }

  ghost predicate Ordered(side: Side, shown: seq<Level>) {
    && (forall i | 0 <= i < |shown| :: 0 < shown[i].price <= MAX_I64)
    && (forall i, j | 0 <= i < j < |shown| :: side.Better(shown[i].price, shown[j].price))
  }

  ghost predicate BestFirst(side: Side, shown: seq<Level>, prices: set<Price>)
    requires Ordered(side, shown)
  {
    forall i, p | 0 <= i < |shown| && p in prices && !Shown(shown, p) :: side.Better(shown[i].price, p)
  }

  /** What is shown is strictly ordered from the best price on, holds whole levels, and nothing at
      least as good as a shown price is missing; all levels are shown unless `depth` are. */
  lemma {:induction false} TopLevelsExact(orders: Orders, levels: map<Price, seq<OrderKey>>, side: Side,
                                          prices: set<Price>, depth: nat)
    requires prices <= levels.Keys
    ensures var shown := TopLevels(orders, levels, side, prices, depth);
            && |shown| <= depth
            && WholeLevels(orders, levels, prices, shown)
            && Ordered(side, shown) && BestFirst(side, shown, prices)
            && (|shown| < depth ==> forall p | p in prices :: Shown(shown, p))
    decreases depth
  {
    hide QueueTotal, WholeLevels, Ordered, BestFirst, Shown;
    if depth > 0 && prices != {} {
      var best: Price := BestOf(side, prices).value;
      var rest := TopLevels(orders, levels, side, prices - {best}, depth - 1);
      var shown := TopLevels(orders, levels, side, prices, depth);
      TopLevelsExact(orders, levels, side, prices - {best}, depth - 1);
      assert shown == [Level(best, QueueTotal(orders, levels[best]), |levels[best]|)] + rest;
      WholeStep(orders, levels, prices, best, rest);
      OrderedStep(orders, levels, side, prices, best, shown);
      ShownTail(shown);
    } else {
      NothingShown(orders, levels, side, prices);
    }
  }

  lemma NothingShown(orders: Orders, levels: map<Price, seq<OrderKey>>, side: Side, prices: set<Price>)
    ensures WholeLevels(orders, levels, prices, []) && Ordered(side, []) && BestFirst(side, [], prices)
  {
  }

  lemma WholeStep(orders: Orders, levels: map<Price, seq<OrderKey>>, prices: set<Price>, best: Price, rest: seq<Level>)
    requires best in prices && best in levels && WholeLevels(orders, levels, prices - {best}, rest)
    ensures WholeLevels(orders, levels, prices, [Level(best, QueueTotal(orders, levels[best]), |levels[best]|)] + rest)
  {
    hide QueueTotal;
  }

  lemma OrderedStep(orders: Orders, levels: map<Price, seq<OrderKey>>, side: Side, prices: set<Price>, best: Price,
                    shown: seq<Level>)
    requires IsBest(side, best, prices) && shown != [] && shown[0].price == best
    requires WholeLevels(orders, levels, prices - {best}, shown[1..])
    requires Ordered(side, shown[1..]) && BestFirst(side, shown[1..], prices - {best})
    ensures Ordered(side, shown) && BestFirst(side, shown, prices)
  {
    hide QueueTotal, Shown;
    ShownTail(shown);
    var rest := shown[1..];
    forall i | 0 < i < |shown| ensures 0 < shown[i].price <= MAX_I64 && side.Better(best, shown[i].price) {
      assert shown[i] == rest[i - 1];
    }
    forall i, j | 0 <= i < j < |shown| ensures side.Better(shown[i].price, shown[j].price) {
      if i > 0 {
        assert shown[i] == rest[i - 1] && shown[j] == rest[j - 1];
      }
    }
    forall i, p | 0 <= i < |shown| && p in prices && !Shown(shown, p) ensures side.Better(shown[i].price, p) {
      if i > 0 {
        assert shown[i] == rest[i - 1] && !Shown(rest, p);
      }
    }
  }

  lemma ShownTail(shown: seq<Level>)
    requires shown != []
    ensures forall p: Price :: Shown(shown, p) <==> shown[0].price == p || Shown(shown[1..], p)
  {
    forall p: Price | Shown(shown, p) ensures shown[0].price == p || Shown(shown[1..], p) {
      var i :| 0 <= i < |shown| && shown[i].price == p;
      if i > 0 {
        assert shown[1..][i - 1].price == p;
      }
    }
    forall p: Price | Shown(shown[1..], p) ensures Shown(shown, p) {
      var i :| 0 <= i < |shown[1..]| && shown[1..][i].price == p;
      assert shown[i + 1].price == p;
    }
  }

  const DEPTH := 10

  function DepthOfSide(b: Book, side: Side): seq<Level> {
    TopLevels(b.orders, b.LevelsOf(side), side, b.LevelsOf(side).Keys, DEPTH)
  }

  // ----- whole views -----

  datatype View = View(
    bids: seq<Level>, asks: seq<Level>,
    totalBid: nat, weightedBid: Option<int>, totalAsk: nat, weightedAsk: Option<int>,
    last: Option<int>, high: Option<int>, low: Option<int>,
    tradeCount: nat, tradeQuantity: nat, turnover: nat)

  /** The view without its levels. */
  function Scalars(b: Book, quantum: nat): Result<View, ViewError>
    requires quantum > 0
  {
    var bid :- PublishedPrice(b, Buy, quantum);
    var ask :- PublishedPrice(b, Sell, quantum);
    var s := b.statistics;
    Ok(View([], [], b.SideTotal(Buy, false), bid, b.SideTotal(Sell, false), ask,
            s.lastPrice, s.highPrice, s.lowPrice, s.tradeCount, s.totalQuantity, s.turnover))
  }

  function FillDepth(b: Book, view: View): View {
    view.(bids := DepthOfSide(b, Buy), asks := DepthOfSide(b, Sell))
  }

  // ----- compact references -----

  /** Fixed arrays of ten; only the first `count` entries mean anything. */
  datatype ReferenceLevels = ReferenceLevels(prices: seq<int>, quantities: seq<nat>, counts: seq<u32>, count: nat) {
    predicate Valid() {
      |prices| == DEPTH && |quantities| == DEPTH && |counts| == DEPTH && count <= DEPTH
    }

    predicate Matches(levels: seq<Level>)
      requires Valid()
    {
      && |levels| == count
      && forall i | 0 <= i < count ::
           prices[i] == levels[i].price && quantities[i] == levels[i].quantity && counts[i] == levels[i].orderCount
    }

    function Expand(): seq<Level>
      requires Valid()
    {
      seq(count, i requires 0 <= i < count => Level(prices[i], quantities[i], counts[i]))
    }
  }

  ghost predicate Compactable(levels: seq<Level>) {
    |levels| <= DEPTH && forall i | 0 <= i < |levels| :: levels[i].orderCount <= 0xFFFF_FFFF
  }

  /** Compacting keeps every level, and refuses exactly what its fixed widths cannot hold. */
  method FromLevels(levels: seq<Level>) returns (r: Result<ReferenceLevels, ViewError>)
    ensures r.Ok? <==> Compactable(levels)
    ensures r.Ok? ==> r.value.Valid() && r.value.Expand() == levels
    ensures r.Err? ==> r.error == if |levels| > DEPTH then Validation else Arithmetic
  {
    if |levels| > DEPTH {
      return Err(Validation);
    }
    var prices: seq<int>, quantities: seq<nat>, counts: seq<u32> := seq(DEPTH, _ => 0), seq(DEPTH, _ => 0),
      seq(DEPTH, _ => 0);
    for i := 0 to |levels|
      invariant |prices| == DEPTH && |quantities| == DEPTH && |counts| == DEPTH
      invariant forall k | 0 <= k < i :: levels[k].orderCount <= 0xFFFF_FFFF
      invariant forall k | 0 <= k < i :: Level(prices[k], quantities[k], counts[k]) == levels[k]
    {
      prices := prices[i := levels[i].price];
      quantities := quantities[i := levels[i].quantity];
      if levels[i].orderCount > 0xFFFF_FFFF {
        return Err(Arithmetic);
      }
      counts := counts[i := levels[i].orderCount];
    }
    return Ok(ReferenceLevels(prices, quantities, counts, |levels|));
  }

  /** Comparing with the compact form is comparing with the levels it was made from. */
  lemma MatchesIsExpansion(compact: ReferenceLevels, levels: seq<Level>)
    requires compact.Valid()
    ensures compact.Matches(levels) <==> compact.Expand() == levels
  {
    if compact.Matches(levels) {
      assert compact.Expand() == levels;
    } else if |levels| == compact.count {
      var i :| 0 <= i < compact.count
        && !(compact.prices[i] == levels[i].price && compact.quantities[i] == levels[i].quantity
             && compact.counts[i] == levels[i].orderCount);
      assert compact.Expand()[i] != levels[i];
    }
  }

  datatype ReferenceView = ReferenceView(
    bids: ReferenceLevels, asks: ReferenceLevels,
    totalBid: nat, weightedBid: Option<int>, totalAsk: nat, weightedAsk: Option<int>,
    last: Option<int>, high: Option<int>, low: Option<int>,
    tradeCount: nat, tradeQuantity: nat, turnover: nat)
  {
    predicate Valid() {
      bids.Valid() && asks.Valid()
    }

    function Expand(): View
      requires Valid()
    {
      View(bids.Expand(), asks.Expand(), totalBid, weightedBid, totalAsk, weightedAsk, last, high, low,
           tradeCount, tradeQuantity, turnover)
    }
  }
}
