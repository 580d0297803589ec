/** The executable audit of the storage (`check_invariants`, src/order_book/book.rs): it walks every
    level, recounts every total, and accepts exactly the storages that represent a structured book. */
module Invariants {
  import opened Wrappers
  import opened MarketData
  import opened Depth
  import opened Queues
  import opened Book
  import opened Arena

  // ----- the index -----

  ghost predicate EntrySound(s: Store, seen: set<OrderKey>, key: OrderKey)
    requires key in s.active
  {
    && s.active[key] in s.orders && s.orders[s.active[key]].key == key && key in seen
    && 0 < s.orders[s.active[key]].remainingQuantity <= s.orders[s.active[key]].originalQuantity
  }

  ghost predicate IndexSound(s: Store, seen: set<OrderKey>) {
    |s.active| == |s.orders| && forall k | k in s.active :: EntrySound(s, seen, k)
  }

  method CheckIndex(s: Store, seen: set<OrderKey>) returns (r: Result<(), BookError>)
    ensures r.Ok? <==> IndexSound(s, seen)
  {
    if |s.active| != |s.orders| {
      return Err(InvariantViolation(InconsistentStore));
    }
    var left := s.active.Keys;
    while left != {}
      invariant left <= s.active.Keys
      invariant forall k | k in s.active && k !in left :: EntrySound(s, seen, k)
      decreases |left|
    {
      var key :| key in left;
      var handle := s.active[key];
      if handle !in s.orders {
        assert !EntrySound(s, seen, key);
        return Err(InvariantViolation(MissingState));
      }
      var state := s.orders[handle];
      if state.key != key || key !in seen {
        assert !EntrySound(s, seen, key);
        return Err(InvariantViolation(InconsistentStore));
      }
      if state.remainingQuantity == 0 || state.remainingQuantity > state.originalQuantity {
        assert !EntrySound(s, seen, key);
        return Err(InvariantViolation(InconsistentStore));
      }
      left := left - {key};
    }
    return Ok(());
  }

  // ----- one level -----

  ghost function SumOf(states: States, chain: seq<Handle>): nat {
    if chain == [] then 0
    else
      var last := chain[|chain| - 1];
      SumOf(states, chain[..|chain| - 1]) + if last in states then states[last].remainingQuantity else 0
  }

  function Nth(chain: seq<Handle>, i: int): Option<Handle> {
    if 0 <= i < |chain| then Some(chain[i]) else None
  }

  /** The order at position `i` of a level's list rests there and is linked to its neighbours. */
  ghost predicate PlaceSound(states: States, side: Side, price: Price, chain: seq<Handle>, i: nat)
    requires i < |chain|
  {
    && chain[i] in states
    && states[chain[i]].key.side == side && states[chain[i]].effectivePrice == Some(price)
    && states[chain[i]].location.Resting?
    && states[chain[i]].previous == Nth(chain, i - 1) && states[chain[i]].next == Nth(chain, i + 1)
  }

  /** The level's list, from head to tail. */
  ghost predicate Chain(states: States, side: Side, price: Price, level: PriceLevel, chain: seq<Handle>) {
    && chain != [] && Distinct(chain)
    && level.head == Some(chain[0]) && level.tail == Some(chain[|chain| - 1])
    && level.orderCount == |chain| && level.totalQuantity == SumOf(states, chain) <= MAX_U64
    && forall i | 0 <= i < |chain| :: PlaceSound(states, side, price, chain, i)
  }

  /** The walk has checked this place; the last one leads on to `current`. */
  ghost predicate PlaceFollowed(states: States, side: Side, price: Price, walked: seq<Handle>, current: Option<Handle>,
                                i: nat)
    requires i < |walked|
  {
    && walked[i] in states
    && states[walked[i]].key.side == side && states[walked[i]].effectivePrice == Some(price)
    && states[walked[i]].location.Resting?
    && states[walked[i]].previous == Nth(walked, i - 1)
    && states[walked[i]].next == (if i + 1 < |walked| then Some(walked[i + 1]) else current)
  }

  /** What the walk has followed so far. */
  ghost predicate Followed(states: States, side: Side, price: Price, head: Option<Handle>, walked: seq<Handle>,
                           current: Option<Handle>) {
    && Distinct(walked)
    && head == (if walked == [] then current else Some(walked[0]))
    && forall i | 0 <= i < |walked| :: PlaceFollowed(states, side, price, walked, current, i)
  }

  lemma FollowedStep(states: States, side: Side, price: Price, head: Option<Handle>, walked: seq<Handle>,
                     current: Handle)
    requires Followed(states, side, price, head, walked, Some(current)) && current !in walked && current in states
    requires states[current].key.side == side && states[current].effectivePrice == Some(price)
    requires states[current].location.Resting? && states[current].previous == Nth(walked, |walked| - 1)
    ensures Followed(states, side, price, head, walked + [current], states[current].next)
    ensures SumOf(states, walked + [current]) == SumOf(states, walked) + states[current].remainingQuantity
  {
    var more := walked + [current];
    assert more[..|more| - 1] == walked;
    forall i | 0 <= i < |more| ensures PlaceFollowed(states, side, price, more, states[current].next, i) {
      if i < |walked| {
        assert PlaceFollowed(states, side, price, walked, Some(current), i);
      }
    }
  }

  /** The next handle continues the list that was followed so far. */
  ghost predicate Continues(states: States, side: Side, price: Price, walked: seq<Handle>, handle: Handle) {
    && handle !in walked && handle in states
    && states[handle].key.side == side && states[handle].effectivePrice == Some(price)
    && states[handle].location.Resting? && states[handle].previous == Nth(walked, |walked| - 1)
    && SumOf(states, walked) + states[handle].remainingQuantity <= MAX_U64
  }

  /** Whatever list the level has, the walk is following it. */
  ghost predicate Inevitable(states: States, side: Side, price: Price, level: PriceLevel, walked: seq<Handle>,
                             current: Option<Handle>) {
    forall c | Chain(states, side, price, level, c) :: walked <= c && current == Nth(c, |walked|)
  }

  ghost predicate NoChain(states: States, side: Side, price: Price, level: PriceLevel) {
    forall c :: !Chain(states, side, price, level, c)
  }

  lemma InevitableStep(states: States, side: Side, price: Price, level: PriceLevel, walked: seq<Handle>, handle: Handle)
    requires Inevitable(states, side, price, level, walked, Some(handle))
    ensures !Continues(states, side, price, walked, handle) ==> NoChain(states, side, price, level)
    ensures Continues(states, side, price, walked, handle) ==>
      Inevitable(states, side, price, level, walked + [handle], states[handle].next)
  {
    forall c | Chain(states, side, price, level, c)
      ensures Continues(states, side, price, walked, handle)
      ensures walked + [handle] <= c && states[handle].next == Nth(c, |walked| + 1)
    {
      assert PlaceSound(states, side, price, c, |walked|);
      SumGrows(states, c, |walked| + 1);
      assert c[..|walked| + 1] == walked + [handle];
      assert (walked + [handle])[..|walked|] == walked;
    }
  }

  lemma {:induction false} SumGrows(states: States, chain: seq<Handle>, n: nat)
    requires n <= |chain|
    ensures SumOf(states, chain[..n]) <= SumOf(states, chain)
  {
    if n == |chain| {
      assert chain[..n] == chain;
    } else {
      var before := chain[..|chain| - 1];
      SumGrows(states, before, n);
      assert before[..n] == chain[..n];
    }
  }

  /** Handles met earlier belong to another level. */
  ghost predicate Elsewhere(states: States, side: Side, price: Price, visited: set<Handle>) {
    forall h | h in visited :: h in states && (states[h].key.side != side || states[h].effectivePrice != Some(price))
  }

  /** The walk has met `chain` besides what was visited before. */
  ghost predicate Met(met: set<Handle>, visited: set<Handle>, chain: seq<Handle>) {
    forall h :: h in met <==> h in visited || h in chain
  }

  lemma Fewer(all: set<Handle>, met: set<Handle>, handle: Handle)
    requires handle in all && handle !in met
    ensures |all - (met + {handle})| < |all - met|
  {
    assert all - met == (all - (met + {handle})) + {handle};
  }

  /** Walk one level. It ends well exactly when the level has a list, and has then visited that list. */
  method WalkLevel(states: States, side: Side, price: Price, level: PriceLevel, visited: set<Handle>)
    returns (r: Result<set<Handle>, BookError>, ghost chain: seq<Handle>)
    requires Elsewhere(states, side, price, visited)
    ensures r.Ok? ==> Chain(states, side, price, level, chain) && Met(r.value, visited, chain)
    ensures r.Err? ==> NoChain(states, side, price, level)
  {
    hide Followed, Chain, SumOf, NoChain, Inevitable;
    chain := [];
    if level.orderCount == 0 || level.head.None? || level.tail.None? {
      NoEmptyChain(states, side, price, level);
      return Err(InvariantViolation(InconsistentStore)), [];
    }
    var total, count := 0, 0;
    var previous: Option<Handle>, current, met := None, level.head, visited;
    StartWalk(states, side, price, level);
    while current.Some?
      invariant Followed(states, side, price, level.head, chain, current)
      invariant Inevitable(states, side, price, level, chain, current)
      invariant previous == Nth(chain, |chain| - 1) && count == |chain| && total == SumOf(states, chain)
      invariant total <= MAX_U64 && Met(met, visited, chain) && met <= states.Keys
      decreases |states.Keys - met| + (if current.Some? then 1 else 0)
    {
      var handle := current.value;
      InevitableStep(states, side, price, level, chain, handle);
      if handle in met {
        return Err(InvariantViolation(BrokenLink)), chain;
      }
      if handle !in states {
        return Err(InvariantViolation(MissingState)), chain;
      }
      var state := states[handle];
      if state.key.side != side || state.effectivePrice != Some(price) || !state.location.Resting?
        || state.previous != previous {
        return Err(InvariantViolation(BrokenLink)), chain;
      }
      FollowedStep(states, side, price, level.head, chain, handle);
      if total + state.remainingQuantity > MAX_U64 {
        return Err(ArithmeticOverflow(LevelQuantity)), chain;
      }
      Fewer(states.Keys, met, handle);
      chain := chain + [handle];
      met := met + {handle};
      total := total + state.remainingQuantity;
      count := count + 1;
      previous := Some(handle);
      current := state.next;
    }
    EndWalk(states, side, price, level, chain);
    if total != level.totalQuantity || count != level.orderCount || previous != level.tail {
      return Err(InvariantViolation(InvalidLevelAggregate)), chain;
    }
    return Ok(met), chain;
  }

  lemma NoEmptyChain(states: States, side: Side, price: Price, level: PriceLevel)
    requires level.orderCount == 0 || level.head.None? || level.tail.None?
    ensures NoChain(states, side, price, level)
  {
  }

  lemma StartWalk(states: States, side: Side, price: Price, level: PriceLevel)
    ensures Followed(states, side, price, level.head, [], level.head) && SumOf(states, []) == 0
    ensures Inevitable(states, side, price, level, [], level.head)
  {
  }

  lemma EndWalk(states: States, side: Side, price: Price, level: PriceLevel, chain: seq<Handle>)
    requires Followed(states, side, price, level.head, chain, None) && level.head.Some?
    requires SumOf(states, chain) <= MAX_U64
    requires Inevitable(states, side, price, level, chain, None)
    ensures Chain(states, side, price, level, chain) <==>
      && level.totalQuantity == SumOf(states, chain) && level.orderCount == |chain|
      && level.tail == Nth(chain, |chain| - 1)
    ensures !Chain(states, side, price, level, chain) ==> NoChain(states, side, price, level)
  {
    forall i | 0 <= i < |chain| ensures PlaceSound(states, side, price, chain, i) {
      assert PlaceFollowed(states, side, price, chain, None, i);
    }
    forall c | Chain(states, side, price, level, c) ensures c == chain {
      assert c[..|chain|] == chain;
    }
  }

  // ----- one side -----

  type Chains = map<Price, seq<Handle>>

  function Quantities(levels: LevelMap): map<Price, nat> {
    map p | p in levels :: levels[p].totalQuantity
  }

  /** Every level has its list. */
  ghost predicate ChainsSound(states: States, side: Side, levels: LevelMap, chains: Chains) {
    chains.Keys == levels.Keys && forall p | p in levels :: Chain(states, side, p, levels[p], chains[p])
  }

  /** All levels have lists, and the aggregate is their recount. */
  ghost predicate SideSound(states: States, side: Side, levels: LevelMap, aggregate: SideAggregate, chains: Chains) {
    && ChainsSound(states, side, levels, chains)
    && aggregate == SideAggregate(Total(Quantities(levels), false), Total(Quantities(levels), true))
    && Total(Quantities(levels), false) <= MAX_U64
  }

  ghost predicate InChains(chains: Chains, h: Handle) {
    exists p :: p in chains && h in chains[p]
  }

  /** What was visited before this side belongs to the other one. */
  ghost predicate OtherSideOnly(states: States, side: Side, visited: set<Handle>) {
    forall h | h in visited :: h in states && states[h].key.side != side
  }

  ghost predicate Visited(before: set<Handle>, chains: Chains, visited: set<Handle>) {
    forall h :: h in visited <==> h in before || InChains(chains, h)
  }

  lemma VisitedElsewhere(states: States, side: Side, levels: LevelMap, left: set<Price>, before: set<Handle>,
                         chains: Chains,
                         visited: set<Handle>, price: Price)
    requires OtherSideOnly(states, side, before) && Visited(before, chains, visited)
    requires Walked(states, side, levels, left, chains) && price in left
    ensures Elsewhere(states, side, price, visited)
  {
    forall h | h in visited ensures h in states && (states[h].key.side != side
                                                    || states[h].effectivePrice != Some(price)) {
      if h !in before {
        var p :| p in chains && h in chains[p];
        var i :| 0 <= i < |chains[p]| && chains[p][i] == h;
        assert PlaceSound(states, side, p, chains[p], i);
      }
    }
  }

  lemma VisitedStep(before: set<Handle>, chains: Chains, visited: set<Handle>, price: Price, chain: seq<Handle>,
                    now: set<Handle>)
    requires Visited(before, chains, visited) && price !in chains && Met(now, visited, chain)
    ensures Visited(before, chains[price := chain], now)
  {
    var more := chains[price := chain];
    forall h: Handle ensures InChains(more, h) <==> InChains(chains, h) || h in chain {
      if h in chain {
        assert price in more && h in more[price];
      } else if InChains(chains, h) {
        var p :| p in chains && h in chains[p];
        assert p in more && h in more[p];
      }
    }
  }

  /** The levels that are no longer left have their lists. */
  ghost predicate Walked(states: States, side: Side, levels: LevelMap, left: set<Price>, chains: Chains) {
    && left <= levels.Keys && chains.Keys == levels.Keys - left
    && forall p | p in chains :: Chain(states, side, p, levels[p], chains[p])
  }

  lemma WalkedStep(states: States, side: Side, levels: LevelMap, left: set<Price>, chains: Chains, price: Price,
                   chain: seq<Handle>)
    requires Walked(states, side, levels, left, chains) && price in left
    requires Chain(states, side, price, levels[price], chain)
    ensures Walked(states, side, levels, left - {price}, chains[price := chain]) && price !in chains
  {
    hide Chain;
  }

  function QuantitiesAt(levels: LevelMap, prices: set<Price>): map<Price, nat>
    requires prices <= levels.Keys
  {
    map p | p in prices :: levels[p].totalQuantity
  }

  /** What is counted so far and what the levels left hold make up the side. */
  ghost predicate Counted(levels: LevelMap, left: set<Price>, total: nat, weighted: nat) {
    && left <= levels.Keys
    && total + Total(QuantitiesAt(levels, left), false) == Total(Quantities(levels), false)
    && weighted + Total(QuantitiesAt(levels, left), true) == Total(Quantities(levels), true)
  }

  lemma CountedStep(levels: LevelMap, left: set<Price>, total: nat, weighted: nat, price: Price)
    requires Counted(levels, left, total, weighted) && price in left
    ensures Counted(levels, left - {price}, total + levels[price].totalQuantity,
                    weighted + Share(price, levels[price].totalQuantity, true))
    ensures total + levels[price].totalQuantity <= Total(Quantities(levels), false)
    ensures weighted + Share(price, levels[price].totalQuantity, true) <= Total(Quantities(levels), true)
  {
    hide Total;
    var depth := QuantitiesAt(levels, left);
    TotalRemove(depth, price, false);
    TotalRemove(depth, price, true);
    assert depth - {price} == QuantitiesAt(levels, left - {price});
  }

  lemma CountedEnds(levels: LevelMap, total: nat, weighted: nat)
    ensures Counted(levels, levels.Keys, 0, 0)
    ensures Counted(levels, {}, total, weighted) ==>
      total == Total(Quantities(levels), false) && weighted == Total(Quantities(levels), true)
  {
    assert QuantitiesAt(levels, levels.Keys) == Quantities(levels);
    assert QuantitiesAt(levels, {}) == map[];
  }

  /** The weighted total cannot leave its width when the quantity does not. */
  lemma WeightedFits(depth: map<Price, nat>)
    ensures Total(depth, false) <= MAX_U64 ==> Total(depth, true) <= MAX_U128
  {
    if Total(depth, false) > MAX_U64 {
      return;
    }
    WeightedBounds(depth, 1, MAX_I64);
    ScaleMonotone(Total(depth, false), MAX_U64, MAX_I64);
    assert MAX_I64 * Total(depth, false) == Total(depth, false) * MAX_I64;
  }

  /** Walk every level of a side, recount its totals and compare them with the aggregate. */
  method CheckSide(states: States, side: Side, levels: LevelMap, aggregate: SideAggregate, before: set<Handle>)
    returns (r: Result<set<Handle>, BookError>, ghost chains: Chains)
    requires OtherSideOnly(states, side, before)
    ensures r.Ok? ==> SideSound(states, side, levels, aggregate, chains) && Visited(before, chains, r.value)
    ensures r.Err? ==> NoSide(states, side, levels, aggregate)
  {
    hide Chain, OtherSideOnly, Visited, Total, NoChain, Elsewhere, Share, Counted, Walked, NoSide;
    chains := map[];
    var left, visited := levels.Keys, before;
    var total: nat, weighted: nat := 0, 0;
    NothingWalked(states, side, levels, before);
    CountedEnds(levels, 0, 0);
    while left != {}
      invariant left <= levels.Keys && Walked(states, side, levels, left, chains) && Visited(before, chains, visited)
      invariant Counted(levels, left, total, weighted) && total <= MAX_U64
      decreases |left|
    {
      var price: Price := BestOf(Sell, left).value;
      var level := levels[price];
      VisitedElsewhere(states, side, levels, left, before, chains, visited, price);
      CountedStep(levels, left, total, weighted, price);
      var walked;
      ghost var chain;
      walked, chain := WalkLevel(states, side, price, level, visited);
      if walked.Err? {
        NoSideWithout(states, side, levels, aggregate, price);
        return Err(walked.error), chains;
      }
      if total + level.totalQuantity > MAX_U64 {
        NoSideCounted(states, side, levels, aggregate);
        return Err(ArithmeticOverflow(SideQuantity)), chains;
      }
      if weighted + Share(price, level.totalQuantity, true) > MAX_U128 {
        WeightedFits(Quantities(levels));
        NoSideCounted(states, side, levels, aggregate);
        return Err(ArithmeticOverflow(SideWeightedPrice)), chains;
      }
      WalkedStep(states, side, levels, left, chains, price, chain);
      VisitedStep(before, chains, visited, price, chain, walked.value);
      visited := walked.value;
      chains := chains[price := chain];
      left := left - {price};
      total := total + level.totalQuantity;
      weighted := weighted + Share(price, level.totalQuantity, true);
    }
    CountedEnds(levels, total, weighted);
    if aggregate != SideAggregate(total, weighted) {
      NoSideCounted(states, side, levels, aggregate);
      return Err(InvariantViolation(InvalidLevelAggregate)), chains;
    }
    AllWalked(states, side, levels, chains);
    return Ok(visited), chains;
  }

  ghost predicate NoSide(states: States, side: Side, levels: LevelMap, aggregate: SideAggregate) {
    forall c :: !SideSound(states, side, levels, aggregate, c)
  }

  lemma NothingWalked(states: States, side: Side, levels: LevelMap, before: set<Handle>)
    ensures Walked(states, side, levels, levels.Keys, map[]) && Visited(before, map[], before)
  {
  }

  lemma AllWalked(states: States, side: Side, levels: LevelMap, chains: Chains)
    requires Walked(states, side, levels, {}, chains)
    ensures ChainsSound(states, side, levels, chains)
  {
    hide Chain;
  }

  lemma NoSideWithout(states: States, side: Side, levels: LevelMap, aggregate: SideAggregate, price: Price)
    requires price in levels && NoChain(states, side, price, levels[price])
    ensures NoSide(states, side, levels, aggregate)
  {
    hide Chain;
  }

  lemma NoSideCounted(states: States, side: Side, levels: LevelMap, aggregate: SideAggregate)
    requires Total(Quantities(levels), false) > MAX_U64
      || aggregate != SideAggregate(Total(Quantities(levels), false), Total(Quantities(levels), true))
    ensures NoSide(states, side, levels, aggregate)
  {
    hide Chain, Total;
  }

  // ----- the whole storage -----

  /** Resting orders are in a level, the others neither there nor linked. */
  ghost predicate LocationSound(states: States, visited: set<Handle>, h: Handle)
    requires h in states
  {
    && (states[h].location.Resting? ==> h in visited)
    && (states[h].location.Aggressive? ==> h !in visited && states[h].previous.None? && states[h].next.None?)
  }

  method CheckLocations(states: States, visited: set<Handle>) returns (r: Result<(), BookError>)
    ensures r.Ok? <==> forall h | h in states :: LocationSound(states, visited, h)
  {
    var left := states.Keys;
    while left != {}
      invariant left <= states.Keys
      invariant forall h | h in states && h !in left :: LocationSound(states, visited, h)
      decreases |left|
    {
      var handle :| handle in left;
      var state := states[handle];
      if (state.location.Resting? && handle !in visited)
         || (state.location.Aggressive? && (handle in visited || state.previous.Some? || state.next.Some?)) {
        assert !LocationSound(states, visited, handle);
        return Err(InvariantViolation(InconsistentStore));
      }
      left := left - {handle};
    }
    return Ok(());
  }

  /** The storage represents a structured book whose side totals fit their width. */
  ghost predicate Sound(s: Store, seen: set<OrderKey>, b: Book) {
    && Represents(s, b) && b.Structured() && b.seen == seen
    && b.SideTotal(Buy, false) <= MAX_U64 && b.SideTotal(Sell, false) <= MAX_U64
  }

  /** What the audit has found when it ends well. */
  ghost predicate Audited(s: Store, seen: set<OrderKey>, bids: Chains, asks: Chains) {
    && IndexSound(s, seen)
    && SideSound(s.orders, Buy, s.bids, s.bidAggregate, bids)
    && SideSound(s.orders, Sell, s.asks, s.askAggregate, asks)
    && forall h | h in s.orders ::
         && (s.orders[h].location.Resting? ==> InChains(bids, h) || InChains(asks, h))
         && (s.orders[h].location.Aggressive? ==> s.orders[h].previous.None? && s.orders[h].next.None?)
  }

  lemma ChainHandle(states: States, side: Side, levels: LevelMap, chains: Chains, h: Handle)
    requires ChainsSound(states, side, levels, chains) && InChains(chains, h)
    ensures h in states && states[h].key.side == side && states[h].location.Resting? && states[h].effectivePrice.Some?
    ensures states[h].effectivePrice.value in chains && h in chains[states[h].effectivePrice.value]
  {
    var p :| p in chains && h in chains[p];
    var i :| 0 <= i < |chains[p]| && chains[p][i] == h;
    assert PlaceSound(states, side, p, chains[p], i);
  }

  // ----- a sound storage passes -----

  ghost function HandlesOf(active: Index, queue: seq<OrderKey>): seq<Handle>
    requires forall k | k in queue :: k in active
  {
    seq(|queue|, i requires 0 <= i < |queue| => active[queue[i]])
  }

  lemma {:induction false} SumIsQueueTotal(active: Index, states: States, orders: Orders, queue: seq<OrderKey>)
    requires forall k | k in queue ::
      k in active && active[k] in states && k in orders && states[active[k]].remainingQuantity == orders[k].remaining
    ensures SumOf(states, HandlesOf(active, queue)) == QueueTotal(orders, queue)
  {
    if queue != [] {
      var before, last := queue[..|queue| - 1], queue[|queue| - 1];
      SumIsQueueTotal(active, states, orders, before);
      QueueTotalConcat(orders, before, [last]);
      assert queue == before + [last];
      assert HandlesOf(active, queue)[..|queue| - 1] == HandlesOf(active, before);
      assert QueueTotal(orders, [last]) == orders[last].remaining;
    }
  }

  lemma QueueIsChain(s: Store, b: Book, side: Side, price: Price)
    requires IndexRepresents(s.active, s.orders, b.orders) && price in b.LevelsOf(side) && price in s.LevelsOf(side)
    requires LevelRepresents(s.active, s.orders, b.orders, b.LevelsOf(side)[price], s.LevelsOf(side)[price])
    requires QueueWellFormed(b.orders, side, price, b.LevelsOf(side)[price])
    requires QueueTotal(b.orders, b.LevelsOf(side)[price]) <= MAX_U64
    ensures forall k | k in b.LevelsOf(side)[price] :: k in s.active
    ensures Chain(s.orders, side, price, s.LevelsOf(side)[price], HandlesOf(s.active, b.LevelsOf(side)[price]))
  {
    hide QueueTotal, SumOf, PlaceSound, LinkedAt, IndexRepresents;
    var queue := b.LevelsOf(side)[price];
    QueueIndexed(s.active, s.orders, b.orders, queue);
    var chain := HandlesOf(s.active, queue);
    SumIsQueueTotal(s.active, s.orders, b.orders, queue);
    forall i, j | 0 <= i < j < |chain| ensures chain[i] != chain[j] {
      assert queue[i] in queue && queue[j] in queue;
      Injective(s.active, s.orders, b.orders, queue[i], queue[j]);
    }
    forall i | 0 <= i < |chain| ensures PlaceSound(s.orders, side, price, chain, i) {
      LinkIsPlace(s.active, s.orders, b.orders, side, price, queue, chain, i);
    }
  }

  lemma QueueIndexed(active: Index, states: States, orders: Orders, queue: seq<OrderKey>)
    requires IndexRepresents(active, states, orders) && forall k | k in queue :: k in orders
    ensures forall k | k in queue ::
      k in active && active[k] in states && states[active[k]].remainingQuantity == orders[k].remaining
  {}

  lemma LinkIsPlace(active: Index, states: States, orders: Orders, side: Side, price: Price, queue: seq<OrderKey>,
                    chain: seq<Handle>, i: nat)
    requires IndexRepresents(active, states, orders) && QueueWellFormed(orders, side, price, queue)
    requires |chain| == |queue| && forall k | 0 <= k < |queue| :: queue[k] in active && chain[k] == active[queue[k]]
    requires i < |queue| && LinkedAt(active, states, queue, i)
    ensures PlaceSound(states, side, price, chain, i)
  {
    assert queue[i] in queue;
  }

  ghost function ChainsOf(active: Index, queues: Levels): Chains
    requires forall p, k | p in queues && k in queues[p] :: k in active
  {
    map p | p in queues :: HandlesOf(active, queues[p])
  }

  lemma LevelsAreDepth(active: Index, states: States, orders: Orders, queues: Levels, levels: LevelMap)
    requires LevelsRepresent(active, states, orders, queues, levels)
    ensures Quantities(levels) == DepthOf(orders, queues)
  {
    hide Linked, QueueTotal;
  }

  lemma SideIsSound(s: Store, b: Book, side: Side)
    requires StructureRepresents(s, b) && b.SideTotal(side, false) <= MAX_U64
    requires LevelsWellFormed(b.orders, side, b.LevelsOf(side))
    requires s.AggregateOf(side) == SideAggregate(b.SideTotal(side, false), b.SideTotal(side, true))
    ensures forall p, k | p in b.LevelsOf(side) && k in b.LevelsOf(side)[p] :: k in s.active
    ensures SideSound(s.orders, side, s.LevelsOf(side), s.AggregateOf(side), ChainsOf(s.active, b.LevelsOf(side)))
  {
    hide Chain, Total, QueueTotal, IndexRepresents, QueueWellFormed, LevelRepresents;
    var queues, levels := b.LevelsOf(side), s.LevelsOf(side);
    var depth := DepthOf(b.orders, queues);
    LevelsAreDepth(s.active, s.orders, b.orders, queues, levels);
    forall p | p in queues
      ensures forall k | k in queues[p] :: k in s.active
      ensures Chain(s.orders, side, p, levels[p], HandlesOf(s.active, queues[p]))
    {
      assert depth[p] == QueueTotal(b.orders, queues[p]);
      LevelWithinTotal(depth, p);
      QueueIsChain(s, b, side, p);
    }
  }

  lemma {:induction false} SameSize(active: Index, handles: set<Handle>)
    requires forall k | k in active :: active[k] in handles
    requires forall h | h in handles :: exists k :: k in active && active[k] == h
    requires forall a, b | a in active && b in active && active[a] == active[b] :: a == b
    ensures |active| == |handles|
    decreases |handles|
  {
    if handles == {} {
      assert active == map[];
    } else {
      var h :| h in handles;
      var k :| k in active && active[k] == h;
      forall g | g in handles - {h} ensures exists j :: j in active - {k} && (active - {k})[j] == g {
        var j :| j in active && active[j] == g;
        assert j in active - {k};
      }
      SameSize(active - {k}, handles - {h});
      assert |active.Keys| == |active.Keys - {k}| + 1 && (active - {k}).Keys == active.Keys - {k};
    }
  }

  lemma IndexIsSound(s: Store, seen: set<OrderKey>, b: Book)
    requires IndexRepresents(s.active, s.orders, b.orders) && b.Structured() && b.seen == seen
    ensures IndexSound(s, seen)
  {
    hide LevelsWellFormed;
    forall h | h in s.orders.Keys ensures exists k :: k in s.active && s.active[k] == h {
      assert s.orders[h].key in s.active;
    }
    SameSize(s.active, s.orders.Keys);
    forall k | k in s.active ensures EntrySound(s, seen, k) {
      assert b.OrderWellFormed(k);
    }
  }

  lemma SoundMeansAudited(s: Store, seen: set<OrderKey>, b: Book) returns (bids: Chains, asks: Chains)
    requires Sound(s, seen, b)
    ensures Audited(s, seen, bids, asks)
  {
    hide Total, QueueTotal, SideSound, IndexSound, LevelsRepresent;
    IndexIsSound(s, seen, b);
    SideIsSound(s, b, Buy);
    SideIsSound(s, b, Sell);
    bids, asks := ChainsOf(s.active, b.bids), ChainsOf(s.active, b.asks);
    forall h | h in s.orders && s.orders[h].location.Resting? ensures InChains(bids, h) || InChains(asks, h) {
      var k := s.orders[h].key;
      assert b.OrderWellFormed(k);
      var p := b.orders[k].price.value;
      var queues := b.LevelsOf(k.side);
      var i :| 0 <= i < |queues[p]| && queues[p][i] == k;
      assert HandlesOf(s.active, queues[p])[i] == h;
      assert h in ChainsOf(s.active, queues)[p];
    }
  }

  // ----- an audited storage is sound -----

  function OrderOf(state: OrderState): Order {
    Order(state.effectivePrice, state.originalQuantity, state.remainingQuantity, state.location.Resting?,
          state.allowReentry, state.repriceFromTrade)
  }

  ghost function KeysOf(states: States, chain: seq<Handle>): seq<OrderKey>
    requires forall h | h in chain :: h in states
  {
    seq(|chain|, i requires 0 <= i < |chain| => states[chain[i]].key)
  }

  ghost function QueuesOf(states: States, chains: Chains): Levels
    requires forall p, h | p in chains && h in chains[p] :: h in states
  {
    map p | p in chains :: KeysOf(states, chains[p])
  }

  /** Every handle is indexed under its own key. */
  lemma {:induction false} IndexCovers(s: Store, seen: set<OrderKey>)
    requires IndexSound(s, seen)
    ensures forall h | h in s.orders :: s.orders[h].key in s.active && s.active[s.orders[h].key] == h
  {
    forall k | k in s.active ensures EntrySound(s, seen, k) {}
    var found := set k | k in s.active :: s.active[k];
    assert forall k | k in s.active :: s.active[k] in found;
    SameSize(s.active, found);
    assert found <= s.orders.Keys;
    Covers(found, s.orders.Keys);
    forall h | h in s.orders ensures s.orders[h].key in s.active && s.active[s.orders[h].key] == h {
      assert h in found;
      var k :| k in s.active && s.active[k] == h;
      assert EntrySound(s, seen, k);
    }
  }

  lemma Covers(part: set<Handle>, whole: set<Handle>)
    requires part <= whole && |part| == |whole|
    ensures part == whole
  {
    assert whole == part + (whole - part);
    assert |whole - part| == 0;
  }

  lemma ChainStates(states: States, side: Side, price: Price, level: PriceLevel, chain: seq<Handle>)
    requires Chain(states, side, price, level, chain)
    ensures forall h | h in chain :: h in states
    ensures forall h | h in chain ::
      states[h].key.side == side && states[h].location.Resting? && states[h].effectivePrice == Some(price)
  {
    forall h | h in chain
      ensures h in states && states[h].key.side == side && states[h].location.Resting?
      ensures states[h].effectivePrice == Some(price)
    {
      var i :| 0 <= i < |chain| && chain[i] == h;
      assert PlaceSound(states, side, price, chain, i);
    }
  }

  ghost predicate Indexed(s: Store) {
    && (forall k | k in s.active :: s.active[k] in s.orders && s.orders[s.active[k]].key == k)
    && (forall h | h in s.orders :: s.orders[h].key in s.active && s.active[s.orders[h].key] == h)
  }

  ghost function OrdersOf(s: Store): Orders
    requires Indexed(s)
  {
    map k | k in s.active :: OrderOf(s.orders[s.active[k]])
  }

  /** One audited level represents the queue of its keys. */
  lemma ChainIsQueue(s: Store, side: Side, price: Price, level: PriceLevel, chain: seq<Handle>)
    requires Indexed(s) && Chain(s.orders, side, price, level, chain)
    ensures forall h | h in chain :: h in s.orders
    ensures LevelRepresents(s.active, s.orders, OrdersOf(s), KeysOf(s.orders, chain), level)
    ensures QueueWellFormed(OrdersOf(s), side, price, KeysOf(s.orders, chain))
  {
    hide SumOf, QueueTotal, PlaceSound, LinkedAt, Indexed, OrdersOf;
    ChainStates(s.orders, side, price, level, chain);
    var queue := KeysOf(s.orders, chain);
    ChainIndexed(s, chain);
    SumIsQueueTotal(s.active, s.orders, OrdersOf(s), queue);
    forall i | 0 <= i < |queue| ensures LinkedAt(s.active, s.orders, queue, i) {
      PlaceIsLinked(s, side, price, chain, queue, i);
    }
  }

  /** The keys of a list lead back to it, and their orders are what it holds. */
  lemma ChainIndexed(s: Store, chain: seq<Handle>)
    requires Indexed(s) && forall h | h in chain :: h in s.orders
    ensures var queue := KeysOf(s.orders, chain);
            && (forall i | 0 <= i < |chain| :: queue[i] in s.active && s.active[queue[i]] == chain[i])
            && HandlesOf(s.active, queue) == chain
            && forall i | 0 <= i < |chain| ::
                 && queue[i] in OrdersOf(s) && queue[i] == s.orders[chain[i]].key
                 && OrdersOf(s)[queue[i]] == OrderOf(s.orders[chain[i]])
  {
    forall i | 0 <= i < |chain| ensures chain[i] in chain {
    }
  }

  lemma PlaceIsLinked(s: Store, side: Side, price: Price, chain: seq<Handle>, queue: seq<OrderKey>, i: nat)
    requires |queue| == |chain| && i < |chain| && PlaceSound(s.orders, side, price, chain, i)
    requires forall k | 0 <= k < |chain| :: queue[k] in s.active && s.active[queue[k]] == chain[k]
    ensures LinkedAt(s.active, s.orders, queue, i)
  {
  }

  /** One audited side represents its queues, and its aggregate their totals. */
  lemma ChainsAreQueues(s: Store, side: Side, levels: LevelMap, aggregate: SideAggregate, chains: Chains)
    requires Indexed(s) && SideSound(s.orders, side, levels, aggregate, chains)
    ensures forall p, h | p in chains && h in chains[p] :: h in s.orders
    ensures var queues := QueuesOf(s.orders, chains);
      && LevelsRepresent(s.active, s.orders, OrdersOf(s), queues, levels)
      && LevelsWellFormed(OrdersOf(s), side, queues)
      && aggregate == SideAggregate(Total(DepthOf(OrdersOf(s), queues), false),
                                    Total(DepthOf(OrdersOf(s), queues), true))
      && Total(DepthOf(OrdersOf(s), queues), false) <= MAX_U64
  {
    hide Chain, Total, QueueTotal, Indexed, LevelRepresents, QueueWellFormed, KeysOf;
    forall p, h | p in chains && h in chains[p] ensures h in s.orders {
      ChainIsQueue(s, side, p, levels[p], chains[p]);
    }
    var queues := QueuesOf(s.orders, chains);
    forall p | p in chains
      ensures LevelRepresents(s.active, s.orders, OrdersOf(s), queues[p], levels[p])
      ensures QueueWellFormed(OrdersOf(s), side, p, queues[p])
    {
      ChainIsQueue(s, side, p, levels[p], chains[p]);
    }
    LevelsAreDepth(s.active, s.orders, OrdersOf(s), queues, levels);
  }

  lemma AuditedIndex(s: Store, seen: set<OrderKey>, bids: Chains, asks: Chains)
    requires Audited(s, seen, bids, asks)
    ensures Indexed(s) && IndexRepresents(s.active, s.orders, OrdersOf(s))
  {
    hide SideSound;
    IndexCovers(s, seen);
    forall k | k in s.active ensures s.active[k] in s.orders && s.orders[s.active[k]].key == k {
      assert EntrySound(s, seen, k);
    }
  }

  lemma AuditedOrder(s: Store, seen: set<OrderKey>, bids: Chains, asks: Chains, b: Book, key: OrderKey)
    requires Audited(s, seen, bids, asks) && Indexed(s)
    requires forall p, h | p in bids && h in bids[p] :: h in s.orders
    requires forall p, h | p in asks && h in asks[p] :: h in s.orders
    requires b.orders == OrdersOf(s) && b.seen == seen && key in b.orders
    requires b.bids == QueuesOf(s.orders, bids) && b.asks == QueuesOf(s.orders, asks)
    ensures b.OrderWellFormed(key)
  {
    hide SideSound, QueuesOf;
    assert EntrySound(s, seen, key);
    if b.orders[key].resting {
      RestingIsQueued(s, bids, asks, s.active[key]);
    }
  }

  lemma AuditedMeansSound(s: Store, seen: set<OrderKey>, bids: Chains, asks: Chains) returns (b: Book)
    requires Audited(s, seen, bids, asks)
    ensures Sound(s, seen, b)
  {
    hide Total, QueueTotal, SideSound, LevelsRepresent, LevelsWellFormed, IndexRepresents, IndexSound, Indexed;
    hide QueuesOf, OrdersOf;
    hide Book.OrderWellFormed;
    AuditedIndex(s, seen, bids, asks);
    ChainsAreQueues(s, Buy, s.bids, s.bidAggregate, bids);
    ChainsAreQueues(s, Sell, s.asks, s.askAggregate, asks);
    b := Book(OrdersOf(s), QueuesOf(s.orders, bids), QueuesOf(s.orders, asks), seen, NO_TRADES, None, 0);
    forall k | k in b.orders ensures b.OrderWellFormed(k) {
      AuditedOrder(s, seen, bids, asks, b, k);
    }
  }

  lemma RestingIsQueued(s: Store, bids: Chains, asks: Chains, h: Handle)
    requires SideSound(s.orders, Buy, s.bids, s.bidAggregate, bids)
    requires SideSound(s.orders, Sell, s.asks, s.askAggregate, asks)
    requires h in s.orders && (InChains(bids, h) || InChains(asks, h))
    requires forall p, g | p in bids && g in bids[p] :: g in s.orders
    requires forall p, g | p in asks && g in asks[p] :: g in s.orders
    ensures s.orders[h].effectivePrice.Some?
    ensures s.orders[h].key in QueueAt(QueuesOf(s.orders, if s.orders[h].key.side.Buy? then bids else asks),
                                       s.orders[h].effectivePrice.value)
  {
    hide Chain, Total;
    var side := if InChains(bids, h) then Buy else Sell;
    var chains := if side.Buy? then bids else asks;
    ChainHandle(s.orders, side, if side.Buy? then s.bids else s.asks, chains, h);
    var price := s.orders[h].effectivePrice.value;
    var i :| 0 <= i < |chains[price]| && chains[price][i] == h;
    assert KeysOf(s.orders, chains[price])[i] == s.orders[h].key;
  }

  // ----- the audit -----

  /** There is a book that the storage represents. */
  ghost predicate Representable(s: Store, seen: set<OrderKey>) {
    exists b :: Sound(s, seen, b)
  }

  lemma {:induction false} ChainPrefix(states: States, side: Side, price: Price, level: PriceLevel, a: seq<Handle>,
                                       b: seq<Handle>, n: nat)
    requires Chain(states, side, price, level, a) && Chain(states, side, price, level, b) && n <= |a|
    ensures n <= |b| && a[..n] == b[..n]
  {
    if n == 1 {
    } else if n > 1 {
      ChainPrefix(states, side, price, level, a, b, n - 1);
      assert PlaceSound(states, side, price, a, n - 2) && PlaceSound(states, side, price, b, n - 2);
      assert a[n - 2] == a[..n - 1][n - 2] == b[..n - 1][n - 2] == b[n - 2];
    }
  }

  /** A side has at most one family of lists. */
  lemma SameChains(states: States, side: Side, levels: LevelMap, a: Chains, b: Chains)
    requires ChainsSound(states, side, levels, a) && ChainsSound(states, side, levels, b)
    ensures a == b
  {
    hide Chain;
    forall p | p in levels ensures a[p] == b[p] {
      ChainPrefix(states, side, p, levels[p], a[p], b[p], |a[p]|);
      ChainPrefix(states, side, p, levels[p], b[p], a[p], |b[p]|);
      assert a[p][..|a[p]|] == a[p] && b[p][..|b[p]|] == b[p];
    }
  }

  lemma FirstSideOnly(states: States, levels: LevelMap, bids: Chains, visited: set<Handle>)
    requires ChainsSound(states, Buy, levels, bids) && Visited({}, bids, visited)
    ensures OtherSideOnly(states, Sell, visited)
  {
    hide ChainsSound;
    forall h | h in visited ensures h in states && states[h].key.side != Sell {
      ChainHandle(states, Buy, levels, bids, h);
    }
  }

  /** After both sides were walked, the location check completes the audit. */
  lemma LocationsComplete(s: Store, seen: set<OrderKey>, bids: Chains, asks: Chains, first: set<Handle>,
                          visited: set<Handle>)
    requires IndexSound(s, seen)
    requires SideSound(s.orders, Buy, s.bids, s.bidAggregate, bids)
    requires SideSound(s.orders, Sell, s.asks, s.askAggregate, asks)
    requires Visited({}, bids, first) && Visited(first, asks, visited)
    ensures (forall h | h in s.orders :: LocationSound(s.orders, visited, h)) <==> Audited(s, seen, bids, asks)
  {
    hide IndexSound, ChainsSound, Total, InChains;
    forall h | h in s.orders && h in visited ensures s.orders[h].location.Resting? {
      if InChains(bids, h) {
        ChainHandle(s.orders, Buy, s.bids, bids, h);
      } else {
        ChainHandle(s.orders, Sell, s.asks, asks, h);
      }
    }
    assert forall h :: h in visited <==> InChains(bids, h) || InChains(asks, h);
    if forall h | h in s.orders :: LocationSound(s.orders, visited, h) {
      forall h | h in s.orders
        ensures s.orders[h].location.Resting? ==> InChains(bids, h) || InChains(asks, h)
        ensures s.orders[h].location.Aggressive? ==> s.orders[h].previous.None? && s.orders[h].next.None?
      {
        assert LocationSound(s.orders, visited, h);
      }
    }
  }

  /** The audit accepts a storage if and only if it represents a structured book. */
  method CheckInvariants(s: Store, seen: set<OrderKey>) returns (r: Result<(), BookError>)
    ensures r.Ok? <==> Representable(s, seen)
  {
    hide Sound, Audited, IndexSound, SideSound, Visited, OtherSideOnly, NoSide;
    ghost var a, c := AuditOf(s, seen);
    var index := CheckIndex(s, seen);
    if index.Err? {
      return index;
    }
    var bidsWalked;
    ghost var bids;
    NothingBefore(s.orders);
    bidsWalked, bids := CheckSide(s.orders, Buy, s.bids, s.bidAggregate, {});
    if bidsWalked.Err? {
      Rejected(s.orders, Buy, s.bids, s.bidAggregate, a);
      return Err(bidsWalked.error);
    }
    SideChains(s.orders, Buy, s.bids, s.bidAggregate, bids);
    FirstSideOnly(s.orders, s.bids, bids, bidsWalked.value);
    var asksWalked;
    ghost var asks;
    asksWalked, asks := CheckSide(s.orders, Sell, s.asks, s.askAggregate, bidsWalked.value);
    if asksWalked.Err? {
      Rejected(s.orders, Sell, s.asks, s.askAggregate, c);
      return Err(asksWalked.error);
    }
    LocationsComplete(s, seen, bids, asks, bidsWalked.value, asksWalked.value);
    OneAudit(s, seen, a, c, bids, asks);
    r := CheckLocations(s.orders, asksWalked.value);
  }

  /** A representable storage has an audit, and an audited one is representable. */
  lemma AuditOf(s: Store, seen: set<OrderKey>) returns (bids: Chains, asks: Chains)
    ensures Representable(s, seen) ==>
      && Audited(s, seen, bids, asks) && IndexSound(s, seen)
      && SideSound(s.orders, Buy, s.bids, s.bidAggregate, bids)
           && SideSound(s.orders, Sell, s.asks, s.askAggregate, asks)
    ensures forall x, y :: Audited(s, seen, x, y) ==> Representable(s, seen)
  {
    hide Sound, SideSound, IndexSound;
    forall x, y | Audited(s, seen, x, y) ensures Representable(s, seen) {
      var b := AuditedMeansSound(s, seen, x, y);
    }
    bids, asks := map[], map[];
    if Representable(s, seen) {
      var b :| Sound(s, seen, b);
      bids, asks := SoundMeansAudited(s, seen, b);
    }
  }

  lemma NothingBefore(states: States)
    ensures OtherSideOnly(states, Buy, {})
  {
  }

  lemma Rejected(states: States, side: Side, levels: LevelMap, aggregate: SideAggregate, chains: Chains)
    requires NoSide(states, side, levels, aggregate)
    ensures !SideSound(states, side, levels, aggregate, chains)
  {
  }

  lemma SideChains(states: States, side: Side, levels: LevelMap, aggregate: SideAggregate, chains: Chains)
    requires SideSound(states, side, levels, aggregate, chains)
    ensures ChainsSound(states, side, levels, chains)
  {
  }

  lemma OneAudit(s: Store, seen: set<OrderKey>, a: Chains, c: Chains, bids: Chains, asks: Chains)
    requires SideSound(s.orders, Buy, s.bids, s.bidAggregate, bids)
    requires SideSound(s.orders, Sell, s.asks, s.askAggregate, asks)
    ensures Audited(s, seen, a, c) ==> a == bids && c == asks
  {
    hide ChainsSound, Total, IndexSound;
    if Audited(s, seen, a, c) {
      SameChains(s.orders, Buy, s.bids, a, bids);
      SameChains(s.orders, Sell, s.asks, c, asks);
    }
  }
}
