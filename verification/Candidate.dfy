/** Comparing a symbol's reference frames with its book (src/production/validation/candidate.rs).
    The validator caches one view per book revision, rejects a candidate on its scalars alone and
    skips finalized references; the plain functions below rebuild everything every time. Only the
    opening and the continuous anchors are compared here. */
module Candidate {
  import opened Wrappers
  import opened MarketData
  import opened Book
  import opened BookRuns
  import opened Observations
  import opened History
  import opened Views

  // ----- differences -----

  datatype Field =
    | Bids | Asks | TotalBid | WeightedBid | TotalAsk | WeightedAsk
    | LastPrice | HighPrice | LowPrice | TradesCounted | TradeQuantity | Turnover

  datatype Value = Amount(n: nat) | MaybePrice(price: Option<int>) | Depth(levels: seq<Level>)

  datatype Difference = Difference(field: Field, expected: Value, actual: Value)

  /** The order in which the differences of two views are listed. */
  const FIELDS := [Bids, Asks, TotalBid, WeightedBid, TotalAsk, WeightedAsk,
                   LastPrice, HighPrice, LowPrice, TradesCounted, TradeQuantity, Turnover]

  const TOLERANCE := 10

  predicate WeightedPricesMatch(expected: Option<int>, actual: Option<int>) {
    match (expected, actual)
    case (None, None) => true
    case (Some(e), Some(a)) => -TOLERANCE <= e - a <= TOLERANCE
    case _ => false
  }

  function ValueOf(field: Field, view: View): Value {
    match field
    case Bids => Depth(view.bids)
    case Asks => Depth(view.asks)
    case TotalBid => Amount(view.totalBid)
    case WeightedBid => MaybePrice(view.weightedBid)
    case TotalAsk => Amount(view.totalAsk)
    case WeightedAsk => MaybePrice(view.weightedAsk)
    case LastPrice => MaybePrice(view.last)
    case HighPrice => MaybePrice(view.high)
    case LowPrice => MaybePrice(view.low)
    case TradesCounted => Amount(view.tradeCount)
    case TradeQuantity => Amount(view.tradeQuantity)
    case Turnover => Amount(view.turnover)
  }

  /** The published value of the actual view: weighted prices are quantized once more. */
  function PublishedValue(field: Field, quantum: nat, view: View): Value
    requires quantum > 0
  {
    match field
    case WeightedBid => MaybePrice(Quantize(quantum, view.weightedBid))
    case WeightedAsk => MaybePrice(Quantize(quantum, view.weightedAsk))
    case _ => ValueOf(field, view)
  }

  predicate Differs(field: Field, quantum: nat, expected: View, actual: View)
    requires quantum > 0
  {
    if field.WeightedBid? then !WeightedPricesMatch(expected.weightedBid, Quantize(quantum, actual.weightedBid))
    else if field.WeightedAsk? then !WeightedPricesMatch(expected.weightedAsk, Quantize(quantum, actual.weightedAsk))
    else ValueOf(field, expected) != ValueOf(field, actual)
  }

  function Differences(fields: seq<Field>, quantum: nat, expected: View, actual: View): seq<Difference>
    requires quantum > 0
  {
    if fields == [] then []
    else
      var rest := Differences(fields[1..], quantum, expected, actual);
      if Differs(fields[0], quantum, expected, actual)
      then [Difference(fields[0], ValueOf(fields[0], expected), PublishedValue(fields[0], quantum, actual))] + rest
      else rest
  }

  function CompareViews(quantum: nat, expected: View, actual: View): seq<Difference>
    requires quantum > 0
  {
    Differences(FIELDS, quantum, expected, actual)
  }

  /** The fast comparison only collects which fields differ. */
  function Mask(fields: set<Field>, quantum: nat, expected: View, actual: View): set<Field>
    requires quantum > 0
  {
    set f | f in fields && Differs(f, quantum, expected, actual)
  }

  const SCALARS := {TotalBid, WeightedBid, TotalAsk, WeightedAsk, LastPrice, HighPrice, LowPrice,
                    TradesCounted, TradeQuantity, Turnover}

  /** The scalar bits, computed from the compact reference. */
  function ScalarMask(quantum: nat, expected: ReferenceView, actual: View): set<Field>
    requires quantum > 0 && expected.Valid()
  {
    Mask(SCALARS, quantum, expected.Expand().(bids := [], asks := []), actual)
  }

  function DepthMask(expected: ReferenceView, actual: View): set<Field>
    requires expected.Valid()
  {
    (if expected.bids.Matches(actual.bids) then {} else {Bids})
    + (if expected.asks.Matches(actual.asks) then {} else {Asks})
  }

  function FieldSet(fields: seq<Field>): set<Field> {
    set f | f in fields
  }

  /** Listing the differences of some fields counts the bits of their mask. */
  lemma {:induction false} MaskCounts(fields: seq<Field>, quantum: nat, expected: View, actual: View)
    requires quantum > 0
    requires forall i, j | 0 <= i < j < |fields| :: fields[i] != fields[j]
    ensures |Mask(FieldSet(fields), quantum, expected, actual)| == |Differences(fields, quantum, expected, actual)|
  {
    hide Differs;
    var mask := Mask(FieldSet(fields), quantum, expected, actual);
    if fields == [] {
      assert mask == {};
    } else {
      MaskCounts(fields[1..], quantum, expected, actual);
      var rest := Mask(FieldSet(fields[1..]), quantum, expected, actual);
      assert fields == [fields[0]] + fields[1..];
      assert fields[0] !in fields[1..];
      if Differs(fields[0], quantum, expected, actual) {
        assert mask == rest + {fields[0]};
      } else {
        assert mask == rest;
      }
    }
  }

  // ----- the turnover of frames without a reception time -----

  datatype TurnoverPrecisionAudit = TurnoverPrecisionAudit(actualUnits: nat, referenceUnits: nat, quantumUnits: nat)

  function Digits(n: nat): nat {
    if n == 0 then 0 else 1 + Digits(n / 10)
  }

  function Pow10(k: nat): (p: nat)
    ensures p > 0
  {
    if k == 0 then 1 else 10 * Pow10(k - 1)
  }

  /** A twelve-digit reference turnover agrees with an actual one that rounds to it. */
  function TurnoverPrecision(missingReception: bool, expected: nat, actual: nat): Option<TurnoverPrecisionAudit> {
    if !missingReception || expected == actual || actual == 0 || Digits(actual) <= 12 then None
    else
      var quantum := Pow10(Digits(actual) - 12);
      var rounded := (actual / quantum + if actual % quantum >= quantum / 2 then 1 else 0) * quantum;
      if quantum > MAX_U128 || rounded > MAX_U128 then None
      else if rounded == expected then Some(TurnoverPrecisionAudit(actual, expected, quantum))
      else None
  }

  // ----- references -----

  datatype AnchorState = AnchorState(
    matched: bool, finalized: bool,
    matchedTime: Option<int>, matchedRaw: Option<nat>, matchedApply: Option<nat>,
    bestTime: Option<int>, bestRaw: Option<nat>, best: Option<seq<Difference>>,
    turnover: Option<TurnoverPrecisionAudit>)

  const FRESH := AnchorState(false, false, None, None, None, None, None, None, None)

  datatype Reference = Reference(time: i64, view: Option<ReferenceView>, missingReception: bool, state: AnchorState)

  /** How far before and after a reference's time its candidates may lie. */
  datatype Window = Window(lookback: nat, lookahead: nat)

  const PRE_OPEN_WINDOW := Window(0, SECOND)

  function RawOf(b: Book): Option<nat> {
    if b.lastMeta.None? then None else Some(b.lastMeta.value.rawSequence)
  }

  function ApplyOf(b: Book): Option<nat> {
    if b.lastMeta.None? then None else Some(b.lastMeta.value.applySequence)
  }

  ghost predicate ReferenceValid(r: Reference) {
    && (r.view.Some? ==> r.view.value.Valid())
    && (r.state.matched ==> r.state.finalized)
  }

  // ----- the plain comparison -----

  /** The whole view of the book, rebuilt. */
  function FullView(b: Book, quantum: nat): Result<View, ViewError>
    requires quantum > 0
  {
    var view :- Scalars(b, quantum);
    Ok(FillDepth(b, view))
  }

  /** What the rebuilt view says about a book: exact totals, mean prices on the quantum's grid rounded
      half up, on each side the best whole levels, best first, and the book's own
      statistics. */
  lemma FullViewExact(b: Book, quantum: nat, side: Side)
    requires quantum > 0 && FullView(b, quantum).Ok?
    ensures var view := FullView(b, quantum).value;
      var total := if side.Buy? then view.totalBid else view.totalAsk;
      var mean := if side.Buy? then view.weightedBid else view.weightedAsk;
      var shown := if side.Buy? then view.bids else view.asks;
      && total == b.SideTotal(side, false)
      && (mean.None? <==> total == 0)
      && (mean.Some? ==>
           0 <= mean.value <= MAX_I64 && HalfUp(mean.value, b.SideTotal(side, true), total, quantum))
      && WholeLevels(b.orders, b.LevelsOf(side), b.LevelsOf(side).Keys, shown)
      && Ordered(side, shown) && BestFirst(side, shown, b.LevelsOf(side).Keys)
      && |shown| <= 10 && (|shown| < 10 ==> forall p | p in b.LevelsOf(side) :: Shown(shown, p))
    ensures var view, s := FullView(b, quantum).value, b.statistics;
      && view.last == s.lastPrice && view.high == s.highPrice && view.low == s.lowPrice
      && view.tradeCount == s.tradeCount && view.tradeQuantity == s.totalQuantity && view.turnover == s.turnover
  {
    hide Book.SideTotal, TopLevels, WholeLevels, Ordered, BestFirst, Shown, HalfUp, RoundToQuantum;
    TopLevelsExact(b.orders, b.LevelsOf(side), side, b.LevelsOf(side).Keys, DEPTH);
    PublishedExact(b, side, quantum);
  }

  /** A book that any run reaches has a view, as long as its prices leave room to round up. */
  lemma FullViewOk(config: BookConfig, steps: seq<Step>, quantum: nat)
    requires quantum > 0 && Modest(Run(config, steps), quantum)
    ensures FullView(Run(config, steps), quantum).Ok?
  {
    hide Run, Book.WellFormed, PublishedPrice, Modest, TopLevels;
    var b := Run(config, steps);
    RunWellFormed(config, steps);
    PublishedOk(b, Buy, quantum);
    PublishedOk(b, Sell, quantum);
  }

  /** The fields that count: all, or all but a turnover that differs only by its precision. */
  function Counted(precise: bool): seq<Field> {
    if precise then FIELDS[..11] else FIELDS
  }

  /** Every difference that counts between a reference and a view. */
  function Found(quantum: nat, expected: ReferenceView, missingReception: bool, actual: View): seq<Difference>
    requires quantum > 0 && expected.Valid()
  {
    Differences(Counted(TurnoverPrecision(missingReception, expected.turnover, actual.turnover).Some?),
                quantum, expected.Expand(), actual)
  }

  function Matched(r: Reference, b: Book, time: int, precision: Option<TurnoverPrecisionAudit>): Reference {
    r.(state := r.state.(
      matched := true, finalized := true, best := None,
      turnover := if precision.Some? then precision else r.state.turnover,
      matchedTime := Some(time), matchedRaw := RawOf(b), matchedApply := ApplyOf(b)))
  }

  function Closer(r: Reference, b: Book, time: int, found: seq<Difference>): Reference {
    r.(state := r.state.(best := Some(found), bestTime := Some(time), bestRaw := RawOf(b)))
  }

  /** Compare a pending reference with the book, once, from scratch. */
  function Compared(quantum: nat, r: Reference, b: Book, time: int): Result<Reference, ViewError>
    requires quantum > 0 && ReferenceValid(r)
  {
    if r.state.matched || r.state.finalized || r.view.None? then Ok(r)
    else
      var actual :- FullView(b, quantum);
      var expected := r.view.value;
      var found := Found(quantum, expected, r.missingReception, actual);
      if found == [] then
        var precision := TurnoverPrecision(r.missingReception, expected.turnover, actual.turnover);
        Ok(Matched(r, b, time, precision))
      else if r.state.best.None? || |found| < |r.state.best.value| then Ok(Closer(r, b, time, found))
      else Ok(r)
  }

  function Finalized(r: Reference): Reference {
    r.(state := r.state.(finalized := true))
  }

  predicate FitsWindow(w: Window, r: Reference) {
    -MAX_I64 - 1 <= r.time - w.lookback && r.time + w.lookahead <= MAX_I64
  }

  /** What one observation of the book does to one reference that is still open. */
  function Observed(quantum: nat, w: Window, r: Reference, b: Book, point: Point): Result<Reference, ViewError>
    requires quantum > 0 && ReferenceValid(r)
  {
    if r.state.finalized || point.MarketClose? then Ok(r)
    else if point.ChannelFinished? then
      if r.time + (w.lookahead - MILLISECOND) > MAX_I64 then Err(Arithmetic)
      else
        var compared :- Compared(quantum, r, b, r.time + w.lookahead - MILLISECOND);
        Ok(Finalized(compared))
    else if r.time - w.lookback < -MAX_I64 - 1 then Err(Arithmetic)
    else if point.q < r.time - w.lookback then Ok(r)
    else if r.time + w.lookahead > MAX_I64 then Err(Arithmetic)
    else
      var end := r.time + w.lookahead;
      if point.q < end then Compared(quantum, r, b, point.q)
      else if point.BeforeEvent? then
        var compared :- Compared(quantum, r, b, end - MILLISECOND);
        Ok(Finalized(compared))
      else Ok(Finalized(r))
  }

  lemma ComparedKeepsValid(quantum: nat, r: Reference, b: Book)
    requires quantum > 0 && ReferenceValid(r)
    ensures forall time | Compared(quantum, r, b, time).Ok? ::
              var c := Compared(quantum, r, b, time).value;
              ReferenceValid(c) && c.time == r.time
    ensures r.state.finalized ==>
      forall time {:trigger Compared(quantum, r, b, time)} :: Compared(quantum, r, b, time) == Ok(r)
  {
    hide Found, FullView, TurnoverPrecision;
  }

  // ----- the fast comparison agrees -----

  function IndexOf(f: Field): (i: nat)
    ensures i < |FIELDS| && FIELDS[i] == f
  {
    match f
    case Bids => 0
    case Asks => 1
    case TotalBid => 2
    case WeightedBid => 3
    case TotalAsk => 4
    case WeightedAsk => 5
    case LastPrice => 6
    case HighPrice => 7
    case LowPrice => 8
    case TradesCounted => 9
    case TradeQuantity => 10
    case Turnover => 11
  }

  lemma IndexOfField(i: nat)
    requires i < |FIELDS|
    ensures IndexOf(FIELDS[i]) == i
  {
    var n: nat := i;
    if n < 6 {
      if n < 3 {
        assert n == 0 || n == 1 || n == 2;
      } else {
        assert n == 3 || n == 4 || n == 5;
      }
    } else if n < 9 {
      assert n == 6 || n == 7 || n == 8;
    } else {
      assert n == 9 || n == 10 || n == 11;
    }
  }

  lemma FieldsDistinct(precise: bool)
    ensures forall i, j | 0 <= i < j < |Counted(precise)| :: Counted(precise)[i] != Counted(precise)[j]
    ensures forall f: Field :: f in FieldSet(Counted(precise)) <==> f != Turnover || !precise
  {
    forall i, j | 0 <= i < j < |FIELDS| ensures FIELDS[i] != FIELDS[j] {
      IndexOfField(i);
      IndexOfField(j);
    }
    forall f: Field ensures f in FieldSet(Counted(precise)) <==> f != Turnover || !precise {
      var i := IndexOf(f);
      if f != Turnover || !precise {
        assert Counted(precise)[i] == f;
      }
    }
  }

  lemma ScalarBits(f: Field)
    ensures f in SCALARS <==> f != Bids && f != Asks
  {
  }

  lemma ScalarDiffers(f: Field, quantum: nat, expected: ReferenceView, actual: View)
    requires quantum > 0 && expected.Valid() && f != Bids && f != Asks
    ensures Differs(f, quantum, expected.Expand().(bids := [], asks := []), actual)
      == Differs(f, quantum, expected.Expand(), actual)
  {
    hide Quantize, WeightedPricesMatch;
  }

  lemma DepthDiffers(quantum: nat, expected: ReferenceView, actual: View)
    requires quantum > 0 && expected.Valid()
    ensures Differs(Bids, quantum, expected.Expand(), actual) <==> !expected.bids.Matches(actual.bids)
    ensures Differs(Asks, quantum, expected.Expand(), actual) <==> !expected.asks.Matches(actual.asks)
  {
    hide ReferenceLevels.Matches, ReferenceLevels.Expand;
    MatchesIsExpansion(expected.bids, actual.bids);
    MatchesIsExpansion(expected.asks, actual.asks);
  }

  /** The mask as the fast path has it after removing an explained turnover. */
  function Explained(mask: set<Field>, precise: bool): set<Field> {
    if precise then mask - {Turnover} else mask
  }

  /** The complete mask has one bit per listed difference; the scalar bits alone have no more. */
  lemma MaskMeansFound(quantum: nat, expected: ReferenceView, missingReception: bool, actual: View)
    requires quantum > 0 && expected.Valid()
    ensures var precise := TurnoverPrecision(missingReception, expected.turnover, actual.turnover).Some?;
            var scalar := Explained(ScalarMask(quantum, expected, actual), precise);
            var found := Found(quantum, expected, missingReception, actual);
            |scalar| <= |found| && |scalar + DepthMask(expected, actual)| == |found|
  {
    hide Differences, TurnoverPrecision, Differs, DepthMask, ScalarMask, Explained, FieldSet, Counted, Mask;
    var precise := TurnoverPrecision(missingReception, expected.turnover, actual.turnover).Some?;
    FieldsDistinct(precise);
    MaskCounts(Counted(precise), quantum, expected.Expand(), actual);
    var scalar := Explained(ScalarMask(quantum, expected, actual), precise);
    var all := Mask(FieldSet(Counted(precise)), quantum, expected.Expand(), actual);
    forall f: Field ensures f in scalar + DepthMask(expected, actual) <==> f in all {
      BitsAgree(f, precise, quantum, expected, actual);
    }
    assert scalar + DepthMask(expected, actual) == all;
    SubsetSize(scalar, all);
  }

  lemma BitsAgree(f: Field, precise: bool, quantum: nat, expected: ReferenceView, actual: View)
    requires quantum > 0 && expected.Valid()
    ensures f in Explained(ScalarMask(quantum, expected, actual), precise) + DepthMask(expected, actual)
      <==> f in Mask(FieldSet(Counted(precise)), quantum, expected.Expand(), actual)
  {
    hide Differs, FieldSet, Counted, ReferenceLevels.Matches, ReferenceLevels.Expand;
    FieldsDistinct(precise);
    ScalarBits(f);
    if f == Bids || f == Asks {
      DepthDiffers(quantum, expected, actual);
    } else {
      ScalarDiffers(f, quantum, expected, actual);
    }
  }

  lemma {:induction false} SubsetSize(a: set<Field>, b: set<Field>)
    requires a <= b
    ensures |a| <= |b|
  {
    assert b == a + (b - a);
  }

  /** The depth plays no part in the scalar bits, so they may be computed before it is filled in. */
  lemma ScalarsIgnoreDepth(quantum: nat, expected: ReferenceView, b: Book, view: View)
    requires quantum > 0 && expected.Valid()
    ensures ScalarMask(quantum, expected, view) == ScalarMask(quantum, expected, FillDepth(b, view))
  {
    hide Quantize, TopLevels;
  }

  /** Dropping the turnover from a list of all differences. */
  function WithoutTurnover(found: seq<Difference>): seq<Difference> {
    if found == [] then []
    else (if found[0].field == Turnover then [] else [found[0]]) + WithoutTurnover(found[1..])
  }

  lemma {:induction false} WithoutTurnoverFields(fields: seq<Field>, quantum: nat, expected: View, actual: View)
    requires quantum > 0 && Turnover !in fields
    ensures WithoutTurnover(Differences(fields + [Turnover], quantum, expected, actual))
         == Differences(fields, quantum, expected, actual)
  {
    hide Differs, ValueOf, PublishedValue;
    if fields == [] {
      assert [Turnover][1..] == [];
    } else {
      WithoutTurnoverFields(fields[1..], quantum, expected, actual);
      assert (fields + [Turnover])[1..] == fields[1..] + [Turnover];
      assert (fields + [Turnover])[0] == fields[0] && fields[0] != Turnover;
    }
  }

  /** The list the report keeps is the counted differences, however it is trimmed. */
  lemma TrimmedIsFound(quantum: nat, expected: ReferenceView, missingReception: bool, actual: View)
    requires quantum > 0 && expected.Valid()
    ensures var all := CompareViews(quantum, expected.Expand(), actual);
            var precise := TurnoverPrecision(missingReception, expected.turnover, actual.turnover).Some?;
            Found(quantum, expected, missingReception, actual) == if precise then WithoutTurnover(all) else all
  {
    hide TurnoverPrecision, Differences, Differs;
    assert FIELDS == FIELDS[..11] + [Turnover];
    FieldsDistinct(true);
    assert Turnover !in FIELDS[..11] by {
      assert Counted(true) == FIELDS[..11];
      assert Turnover !in FieldSet(Counted(true));
    }
    WithoutTurnoverFields(FIELDS[..11], quantum, expected.Expand(), actual);
  }

  datatype WindowConfig = WindowConfig(preOpenOnly: bool, continuous: Window)

  /** One symbol's references and the view cached for its book. The ghost run says which book is
      being observed; the cache remembers a state of it by the revision alone. */
  class SymbolValidation {
    const quantum: nat
    const windows: WindowConfig
    ghost const config: BookConfig

    var revision: Option<nat>
    var view: Option<View>
    var depthReady: bool
    var preOpen: Option<Reference>
    var continuous: seq<Reference>
    var continuousPosition: nat

    ghost var steps: seq<Step>
    ghost var cachedAt: nat

    /** The cached view is the one of `b`, with or without its levels. */
    ghost predicate ViewOf(b: Book)
      requires quantum > 0
      reads this`view, this`depthReady
    {
      && view.Some? && Scalars(b, quantum).Ok?
      && view.value == if depthReady then FillDepth(b, Scalars(b, quantum).value) else Scalars(b, quantum).value
    }

    ghost predicate CacheValid()
      requires quantum > 0
      reads this`revision, this`view, this`depthReady, this`steps, this`cachedAt
    {
      view.Some? && revision.Some? ==>
        && cachedAt <= |steps|
        && Run(config, steps[..cachedAt]).revision == revision.value < MAX_U64
        && ViewOf(Run(config, steps[..cachedAt]))
    }

    /** References are sorted, and everything before the position needs no more candidates. */
    ghost predicate ReferencesValid()
      reads this
    {
      && windows.continuous.lookahead >= MILLISECOND
      && (preOpen.Some? ==> ReferenceValid(preOpen.value))
      && Sorted(continuous)
      && continuousPosition <= |continuous|
      && (forall i | 0 <= i < continuousPosition :: continuous[i].state.finalized)
      && (forall i | continuousPosition <= i < |continuous| && continuous[i].state.finalized ::
           FitsWindow(windows.continuous, continuous[i]))
    }

    ghost predicate Valid()
      reads this
    {
      quantum > 0 && CacheValid() && ReferencesValid()
    }

    constructor (quantum: nat, windows: WindowConfig, ghost config: BookConfig, preOpen: Option<Reference>,
                 continuous: seq<Reference>)
      requires quantum > 0 && windows.continuous.lookahead >= MILLISECOND
      requires preOpen.Some? ==> ReferenceValid(preOpen.value) && preOpen.value.state == FRESH
      requires Sorted(continuous) && forall i | 0 <= i < |continuous| :: continuous[i].state == FRESH
      ensures Valid() && steps == [] && this.quantum == quantum && this.windows == windows && this.config == config
      ensures this.preOpen == preOpen && this.continuous == continuous
    {
      this.quantum, this.windows, this.config := quantum, windows, config;
      this.preOpen, this.continuous, continuousPosition := preOpen, continuous, 0;
      revision, view, depthReady := None, None, false;
      steps, cachedAt := [], 0;
    }

    /** The book has moved on: what is cached stays correct for the revision it was taken at. */
    ghost method Follow(more: seq<Step>)
      requires Valid() && steps <= more
      modifies this`steps
      ensures Valid() && steps == more
    {
      hide Run, Scalars;
      assert forall n: nat :: n <= |steps| ==> steps[..n] == more[..n];
      steps := more;
    }

    /** Reuse the cached view when the revision is known and unchanged, or take the scalars anew. */
    method Prepare(b: Book) returns (r: Result<(), ViewError>)
      requires quantum > 0 && CacheValid() && b == Run(config, steps)
      modifies this`revision, this`view, this`depthReady, this`cachedAt
      ensures CacheValid()
      ensures r == match Scalars(b, quantum) case Ok(_) => Ok(()) case Err(e) => Err(e)
      ensures r.Ok? ==> ViewOf(b) && (revision.Some? ==> cachedAt <= |steps| && Run(config, steps[..cachedAt]) == b)
    {
      hide Run, Scalars, FillDepth;
      assert steps[..|steps|] == steps;
      RevisionBound(config, steps);
      var current := if b.revision == MAX_U64 then None else Some(b.revision);
      if current.Some? && revision == current && view.Some? {
        RevisionNamesBook(config, steps, cachedAt, |steps|);
        return Ok(());
      }
      var taken := Scalars(b, quantum);
      if taken.Err? {
        return Err(taken.error);
      }
      view := Some(taken.value);
      revision := current;
      depthReady := false;
      cachedAt := |steps|;
      return Ok(());
    }

    /** The cached, pruned comparison gives exactly the plain one. */
    method CompareCandidate(b: Book, reference: Reference, time: int) returns (r: Result<Reference, ViewError>)
      requires quantum > 0 && CacheValid() && b == Run(config, steps) && ReferenceValid(reference)
      modifies this`revision, this`view, this`depthReady, this`cachedAt
      ensures CacheValid()
      ensures r == Compared(quantum, reference, b, time)
    {
      hide Run, Scalars, DepthOfSide, ScalarMask, DepthMask, Matched, Closer, Found, CompareViews, TurnoverPrecision;
      hide WithoutTurnover;
      if reference.state.matched || reference.state.finalized || reference.view.None? {
        return Ok(reference);
      }
      var expected := reference.view.value;
      var prepared := Prepare(b);
      if prepared.Err? {
        return Err(prepared.error);
      }
      ghost var full := FillDepth(b, Scalars(b, quantum).value);
      ScalarsIgnoreDepth(quantum, expected, b, view.value);
      MaskMeansFound(quantum, expected, reference.missingReception, full);
      TrimmedIsFound(quantum, expected, reference.missingReception, full);
      var mask := ScalarMask(quantum, expected, view.value);
      var precision := TurnoverPrecision(reference.missingReception, expected.turnover, view.value.turnover);
      mask := Explained(mask, precision.Some?);
      if mask != {} && reference.state.best.Some? && |mask| >= |reference.state.best.value| {
        return Ok(reference);
      }
      if !depthReady {
        view := Some(FillDepth(b, view.value));
        depthReady := true;
      }
      assert view.value == full;
      mask := mask + DepthMask(expected, view.value);
      ghost var found := Found(quantum, expected, reference.missingReception, full);
      assert FullView(b, quantum) == Ok(full) && |mask| == |found|;
      assert mask == {} <==> found == [];
      if mask == {} {
        return Ok(Matched(reference, b, time, precision));
      }
      if reference.state.best.None? || |mask| < |reference.state.best.value| {
        var differences := CompareViews(quantum, expected.Expand(), view.value);
        if precision.Some? {
          differences := WithoutTurnover(differences);
        }
        assert differences == found;
        return Ok(Closer(reference, b, time, differences));
      }
      return Ok(reference);
    }

    /** One observation of the opening reference; it is finalized once its second is over. */
    method ObservePreOpen(b: Book, point: Point) returns (r: Result<(), ViewError>)
      requires Valid() && b == Run(config, steps) && preOpen.Some?
      modifies this`revision, this`view, this`depthReady, this`cachedAt, this`preOpen
      ensures quantum > 0 && CacheValid()
      ensures r.Ok? <==>
        old(preOpen.value.time) + SECOND <= MAX_I64
          && Observed(quantum, PRE_OPEN_WINDOW, old(preOpen.value), b, point).Ok?
      ensures r.Ok? ==>
        Valid() && preOpen == Some(Observed(quantum, PRE_OPEN_WINDOW, old(preOpen.value), b, point).value)
    {
      hide Run, Compared;
      ComparedKeepsValid(quantum, preOpen.value, b);
      var reference := preOpen.value;
      if reference.time + SECOND > MAX_I64 {
        return Err(Arithmetic);
      }
      var end := reference.time + SECOND;
      if point.BeforeEvent? || point.AfterEvent? {
        if point.q >= reference.time && (point.q < end || point.BeforeEvent?) {
          var time := if point.q >= end then end - MILLISECOND else point.q;
          var compared := CompareCandidate(b, reference, time);
          if compared.Err? {
            return Err(compared.error);
          }
          reference := compared.value;
        }
        if point.q >= end {
          reference := Finalized(reference);
        }
      } else if point.ChannelFinished? {
        var compared := CompareCandidate(b, reference, end - MILLISECOND);
        if compared.Err? {
          return Err(compared.error);
        }
        reference := Finalized(compared.value);
      }
      preOpen := Some(reference);
      return Ok(());
    }

    /** One timed observation of the continuous references from the position on. Those before it are
        finalized and those behind the first future window are not due, so none is missed. */
    method ObserveContinuous(b: Book, point: Point) returns (r: Result<(), ViewError>)
      requires Valid() && b == Run(config, steps) && (point.BeforeEvent? || point.AfterEvent?)
      modifies this`revision, this`view, this`depthReady, this`cachedAt, this`continuous, this`continuousPosition
      ensures quantum > 0 && CacheValid()
      ensures r.Ok? <==> AllObserved(quantum, windows.continuous, old(continuous), b, point)
      ensures r.Ok? ==>
        Valid() && Visited(quantum, windows.continuous, old(continuous), continuous, |continuous|, b, point)
    {
      hide Run, Compared, ViewOf, Observed, Visited, CacheValid, AllObserved, Pending;
      ghost var was, start := continuous, continuousPosition;
      var firstPending: Option<nat> := None;
      var position := continuousPosition;
      VisitedStart(quantum, windows.continuous, was, position, b, point);
      PendingStart(windows.continuous, was, position);
      while position < |continuous|
        invariant quantum > 0 && CacheValid() && |continuous| == |was| && start <= position <= |was|
        invariant continuousPosition == start
        invariant Visited(quantum, windows.continuous, was, continuous, position, b, point)
        invariant Pending(windows.continuous, continuous, start, position, firstPending)
      {
        var reference := continuous[position];
        VisitedAt(quantum, windows.continuous, was, continuous, position, b, point);
        ComparedKeepsValid(quantum, reference, b);
        ObservedTimed(quantum, windows.continuous, reference, b, point);
        if reference.time - windows.continuous.lookback < -MAX_I64 - 1 {
          return Err(Arithmetic);
        }
        if point.q < reference.time - windows.continuous.lookback {
          break;
        }
        if reference.time + windows.continuous.lookahead > MAX_I64 {
          return Err(Arithmetic);
        }
        var end := reference.time + windows.continuous.lookahead;
        if point.q < end || point.BeforeEvent? {
          var compared := CompareCandidate(b, reference, if point.q >= end then end - MILLISECOND else point.q);
          if compared.Err? {
            return Err(compared.error);
          }
          reference := compared.value;
        }
        if point.q >= end {
          reference := Finalized(reference);
        }
        VisitedStep(quantum, windows.continuous, was, continuous, position, b, point, reference);
        PendingStep(windows.continuous, continuous, start, position, firstPending, reference);
        continuous := continuous[position := reference];
        if !reference.state.finalized && firstPending.None? {
          firstPending := Some(position);
        }
        position := position + 1;
      }
      NotDue(quantum, windows.continuous, was, continuous, position, b, point);
      VisitedSorted(quantum, windows.continuous, was, continuous, b, point);
      PendingPosition(windows.continuous, was, continuous, start, position, firstPending);
      continuousPosition := firstPending.GetOr(position);
      return Ok(());
    }

    /** The end of the channel closes every window that is still open. */
    method FinishContinuous(b: Book) returns (r: Result<(), ViewError>)
      requires Valid() && b == Run(config, steps)
      modifies this`revision, this`view, this`depthReady, this`cachedAt, this`continuous, this`continuousPosition
      ensures quantum > 0 && CacheValid()
      ensures r.Ok? <==> AllObserved(quantum, windows.continuous, old(continuous), b, ChannelFinished)
      ensures r.Ok? ==>
        Valid() && Visited(quantum, windows.continuous, old(continuous), continuous, |continuous|, b, ChannelFinished)
    {
      hide Run, Compared, ViewOf, Observed, Visited, CacheValid, AllObserved;
      ghost var was := continuous;
      var position := continuousPosition;
      VisitedStart(quantum, windows.continuous, was, position, b, ChannelFinished);
      while position < |continuous|
        invariant quantum > 0 && CacheValid() && |continuous| == |was| && position <= |was|
        invariant Visited(quantum, windows.continuous, was, continuous, position, b, ChannelFinished)
        invariant forall k | position <= k < |continuous| && continuous[k].state.finalized ::
          FitsWindow(windows.continuous, continuous[k])
        invariant forall k | 0 <= k < position :: continuous[k].state.finalized
      {
        var reference := continuous[position];
        VisitedAt(quantum, windows.continuous, was, continuous, position, b, ChannelFinished);
        ComparedKeepsValid(quantum, reference, b);
        ObservedAtEnd(quantum, windows.continuous, reference, b);
        if reference.time + (windows.continuous.lookahead - MILLISECOND) > MAX_I64 {
          return Err(Arithmetic);
        }
        var compared := CompareCandidate(b, reference, reference.time + windows.continuous.lookahead - MILLISECOND);
        if compared.Err? {
          return Err(compared.error);
        }
        reference := Finalized(compared.value);
        VisitedStep(quantum, windows.continuous, was, continuous, position, b, ChannelFinished, reference);
        continuous := continuous[position := reference];
        position := position + 1;
      }
      VisitedSorted(quantum, windows.continuous, was, continuous, b, ChannelFinished);
      continuousPosition := |continuous|;
      return Ok(());
    }

    /** Every observation leaves each reference exactly as comparing it from scratch would. */
    method ObserveCandidates(b: Book, point: Point) returns (r: Result<(), ViewError>)
      requires Valid() && b == Run(config, steps)
      modifies this`revision, this`view, this`depthReady, this`cachedAt, this`preOpen, this`continuous,
        this`continuousPosition
      ensures r.Ok? <==>
        && (old(preOpen).Some? ==>
             old(preOpen).value.time + SECOND <= MAX_I64
               && Observed(quantum, PRE_OPEN_WINDOW, old(preOpen).value, b, point).Ok?)
        && (windows.preOpenOnly || AllObserved(quantum, windows.continuous, old(continuous), b, point))
      ensures r.Ok? ==> Valid()
      ensures r.Ok? ==> preOpen == match old(preOpen)
        case None => None
        case Some(was) => Some(Observed(quantum, PRE_OPEN_WINDOW, was, b, point).value)
      ensures r.Ok? && windows.preOpenOnly ==> continuous == old(continuous)
      ensures r.Ok? && !windows.preOpenOnly ==>
        Visited(quantum, windows.continuous, old(continuous), continuous, |continuous|, b, point)
    {
      hide Run, Compared, ViewOf, Observed, Visited, CacheValid, AllObserved;
      ghost var before := preOpen;
      if preOpen.Some? {
        var observed := ObservePreOpen(b, point);
        if observed.Err? {
          return observed;
        }
      }
      if windows.preOpenOnly {
        return Ok(());
      }
      if point.BeforeEvent? || point.AfterEvent? {
        r := ObserveContinuous(b, point);
      } else if point.ChannelFinished? {
        r := FinishContinuous(b);
      } else {
        UnmovedByClose(quantum, windows.continuous, continuous, b, point);
        return Ok(());
      }
    }
  }

  ghost predicate Sorted(references: seq<Reference>) {
    && (forall i | 0 <= i < |references| :: ReferenceValid(references[i]))
    && (forall i, j | 0 <= i < j < |references| :: references[i].time <= references[j].time)
  }

  /** No reference's observation fails. */
  ghost predicate AllObserved(quantum: nat, w: Window, references: seq<Reference>, b: Book, point: Point)
    requires quantum > 0 && Sorted(references)
  {
    forall k | 0 <= k < |references| :: Observed(quantum, w, references[k], b, point).Ok?
  }

  /** The first `i` references hold what the plain observation gives them; the others are untouched. */
  ghost predicate Visited(quantum: nat, w: Window, was: seq<Reference>, now: seq<Reference>, i: nat, b: Book,
                          point: Point)
    requires quantum > 0 && Sorted(was)
  {
    && |now| == |was| && i <= |was|
    && (forall k | 0 <= k < i ::
         var seen := Observed(quantum, w, was[k], b, point);
         seen.Ok? && now[k] == seen.value)
    && (forall k | i <= k < |was| :: now[k] == was[k])
  }

  lemma VisitedStart(quantum: nat, w: Window, was: seq<Reference>, i: nat, b: Book, point: Point)
    requires quantum > 0 && Sorted(was) && i <= |was|
    requires forall k | 0 <= k < i :: was[k].state.finalized
    ensures Visited(quantum, w, was, was, i, b, point)
  {
    hide Observed;
    forall k | 0 <= k < i ensures Observed(quantum, w, was[k], b, point) == Ok(was[k]) {
      ObservedFinalized(quantum, w, was[k], b, point);
    }
  }

  lemma VisitedAt(quantum: nat, w: Window, was: seq<Reference>, now: seq<Reference>, i: nat, b: Book, point: Point)
    requires quantum > 0 && Sorted(was) && Visited(quantum, w, was, now, i, b, point) && i < |was|
    ensures |now| == |was| && now[i] == was[i] && ReferenceValid(now[i])
    ensures Observed(quantum, w, now[i], b, point).Err? ==> !AllObserved(quantum, w, was, b, point)
  {
    hide Observed;
  }

  lemma VisitedStep(quantum: nat, w: Window, was: seq<Reference>, now: seq<Reference>, i: nat, b: Book, point: Point,
                    next: Reference)
    requires quantum > 0 && Sorted(was) && Visited(quantum, w, was, now, i, b, point) && i < |now|
    requires Observed(quantum, w, now[i], b, point) == Ok(next)
    ensures Visited(quantum, w, was, now[i := next], i + 1, b, point)
  {
    hide Observed;
  }

  /** Where the loop found the first reference that still waits. */
  ghost predicate Pending(w: Window, now: seq<Reference>, start: nat, i: nat, first: Option<nat>) {
    && start <= i <= |now|
    && (forall k | start <= k < i :: FitsWindow(w, now[k]))
    && (forall k | 0 <= k < first.GetOr(i) :: k < |now| ==> now[k].state.finalized)
    && (first.Some? ==> start <= first.value < i)
  }

  lemma PendingStart(w: Window, now: seq<Reference>, start: nat)
    requires start <= |now| && forall k | 0 <= k < start :: now[k].state.finalized
    ensures Pending(w, now, start, start, None)
  {
  }

  lemma PendingStep(w: Window, now: seq<Reference>, start: nat, i: nat, first: Option<nat>, next: Reference)
    requires Pending(w, now, start, i, first) && i < |now| && FitsWindow(w, next)
    ensures Pending(w, now[i := next], start, i + 1, if !next.state.finalized && first.None? then Some(i) else first)
  {
  }

  lemma PendingPosition(w: Window, was: seq<Reference>, now: seq<Reference>, start: nat, i: nat, first: Option<nat>)
    requires Pending(w, now, start, i, first) && |was| == |now|
    requires forall k | start <= k < |was| && was[k].state.finalized :: FitsWindow(w, was[k])
    requires forall k | i <= k < |was| :: now[k] == was[k]
    ensures var position := first.GetOr(i);
      && position <= |now|
      && (forall k | 0 <= k < position :: now[k].state.finalized)
      && (forall k | position <= k < |now| && now[k].state.finalized :: FitsWindow(w, now[k]))
  {
  }

  /** Observing changes neither a reference's time nor its shape, so the list stays sorted. */
  lemma VisitedSorted(quantum: nat, w: Window, was: seq<Reference>, now: seq<Reference>, b: Book, point: Point)
    requires quantum > 0 && Sorted(was) && Visited(quantum, w, was, now, |was|, b, point)
    ensures Sorted(now) && AllObserved(quantum, w, was, b, point)
  {
    hide Observed;
    forall k | 0 <= k < |was| ensures now[k].time == was[k].time && ReferenceValid(now[k]) {
      ObservedShape(quantum, w, was[k], b, point);
    }
  }

  lemma ObservedShape(quantum: nat, w: Window, r: Reference, b: Book, point: Point)
    requires quantum > 0 && ReferenceValid(r) && Observed(quantum, w, r, b, point).Ok?
    ensures var seen := Observed(quantum, w, r, b, point).value;
            seen.time == r.time && ReferenceValid(seen) && (r.state.finalized ==> seen == r)
  {
    hide Compared;
    ComparedKeepsValid(quantum, r, b);
  }

  lemma NotDue(quantum: nat, w: Window, was: seq<Reference>, now: seq<Reference>, i: nat, b: Book, point: Point)
    requires quantum > 0 && (point.BeforeEvent? || point.AfterEvent?) && Sorted(was)
    requires Visited(quantum, w, was, now, i, b, point)
    requires i < |was| ==> -MAX_I64 - 1 <= was[i].time - w.lookback && point.q < was[i].time - w.lookback
    ensures Visited(quantum, w, was, now, |was|, b, point)
    ensures forall k | i <= k < |was| :: now[k] == was[k]
  {
    forall k | i <= k < |was| ensures Observed(quantum, w, was[k], b, point) == Ok(was[k]) {
      assert was[i].time <= was[k].time;
    }
  }

  lemma ObservedFinalized(quantum: nat, w: Window, r: Reference, b: Book, point: Point)
    requires quantum > 0 && ReferenceValid(r) && r.state.finalized
    ensures Observed(quantum, w, r, b, point) == Ok(r)
  {
  }

  lemma ObservedAtEnd(quantum: nat, w: Window, r: Reference, b: Book)
    requires quantum > 0 && ReferenceValid(r) && w.lookahead >= MILLISECOND
    requires r.state.finalized ==> FitsWindow(w, r)
    ensures var time := r.time + (w.lookahead - MILLISECOND);
            Observed(quantum, w, r, b, ChannelFinished) ==
              (if time > MAX_I64 then Err(Arithmetic)
               else if Compared(quantum, r, b, time).Err? then Compared(quantum, r, b, time)
               else Ok(Finalized(Compared(quantum, r, b, time).value)))
  {
    hide Compared;
    ComparedKeepsValid(quantum, r, b);
  }

  lemma UnmovedByClose(quantum: nat, w: Window, references: seq<Reference>, b: Book, point: Point)
    requires quantum > 0 && Sorted(references) && point.MarketClose?
    ensures Visited(quantum, w, references, references, |references|, b, point)
    ensures AllObserved(quantum, w, references, b, point)
  {
  }

  /** The steps of the loop body, for any reference whose window is representable when finalized. */
  lemma ObservedTimed(quantum: nat, w: Window, r: Reference, b: Book, point: Point)
    requires quantum > 0 && ReferenceValid(r) && (point.BeforeEvent? || point.AfterEvent?)
    requires r.state.finalized ==> FitsWindow(w, r)
    ensures r.time - w.lookback < -MAX_I64 - 1 ==> Observed(quantum, w, r, b, point).Err?
    ensures FitsWindow(w, r) && point.q >= r.time - w.lookback ==>
      var end := r.time + w.lookahead;
      var time := if point.q >= end then end - MILLISECOND else point.q;
      var compared := if point.q < end || point.BeforeEvent? then Compared(quantum, r, b, time) else Ok(r);
      Observed(quantum, w, r, b, point) ==
        (if compared.Err? then compared
         else Ok(if point.q >= end then Finalized(compared.value) else compared.value))
    ensures -MAX_I64 - 1 <= r.time - w.lookback <= point.q && r.time + w.lookahead > MAX_I64 ==>
      Observed(quantum, w, r, b, point).Err?
  {
    hide Compared;
    ComparedKeepsValid(quantum, r, b);
  }
}
