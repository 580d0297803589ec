/** What a difference between a reference and the book's view is, told field by field
    (src/production/validation/candidate.rs), and that the comparison lists exactly those. */
module Comparison {
  import opened Wrappers
  import opened MarketData
  import opened Views
  import opened Candidate

  // ----- weighted prices -----

  /** `q` is the multiple of the quantum that the price is published as: half a quantum rounds away
      from where truncation ends. */
  ghost predicate IsQuantized(quantum: nat, price: int, q: int)
    requires quantum > 0
  {
    var shifted := price + quantum / 2;
    q % quantum == 0 && if shifted >= 0 then q <= shifted < q + quantum else q - quantum < shifted <= q
  }

  lemma QuantizeIs(quantum: nat, price: int)
    requires quantum > 0
    ensures Quantize(quantum, Some(price)).Some?
    ensures forall q: int :: IsQuantized(quantum, price, q) <==> Quantize(quantum, Some(price)).value == q
  {
    var shifted := price + quantum / 2;
    var q := Quantize(quantum, Some(price)).value;
    var k := Truncated(shifted, quantum);
    assert q == k * quantum;
    MultipleIs(k, quantum);
    if shifted >= 0 {
      DivisionBounds(shifted, quantum);
    } else {
      DivisionBounds(-shifted, quantum);
      assert -shifted / quantum * quantum == -q;
    }
    forall other: int | IsQuantized(quantum, price, other) ensures other == q {
      OneMultiple(quantum, q, other);
    }
  }

  lemma MultipleIs(k: int, quantum: int)
    requires quantum > 0
    ensures k * quantum % quantum == 0
  {
    var n := k * quantum;
    var d := n / quantum;
    assert n == d * quantum + n % quantum;
    assert (k - d) * quantum == k * quantum - d * quantum;
    SmallMultiple(k - d, quantum);
  }

  /** Two multiples less than a quantum apart are one. */
  lemma OneMultiple(quantum: int, a: int, b: int)
    requires quantum > 0 && a % quantum == 0 && b % quantum == 0 && -quantum < a - b < quantum
    ensures a == b
  {
    var i, j := a / quantum, b / quantum;
    assert a == i * quantum + a % quantum && b == j * quantum + b % quantum;
    assert (i - j) * quantum == i * quantum - j * quantum;
    SmallMultiple(i - j, quantum);
  }

  ghost predicate WithinTolerance(quantum: nat, expected: int, actual: int)
    requires quantum > 0
  {
    exists q: int :: IsQuantized(quantum, actual, q) && expected - 10 <= q <= expected + 10
  }

  /** Weighted prices agree when both are absent, or within ten units once the actual one is published. */
  ghost predicate PricesAgree(quantum: nat, expected: Option<int>, actual: Option<int>)
    requires quantum > 0
  {
    && (expected.None? <==> actual.None?)
    && (expected.Some? && actual.Some? ==> WithinTolerance(quantum, expected.value, actual.value))
  }

  lemma PricesMatch(quantum: nat, expected: Option<int>, actual: Option<int>)
    requires quantum > 0
    ensures WeightedPricesMatch(expected, Quantize(quantum, actual)) <==> PricesAgree(quantum, expected, actual)
  {
    hide Truncated, IsQuantized;
    if actual.Some? {
      QuantizeIs(quantum, actual.value);
      var q := Quantize(quantum, actual).value;
      assert IsQuantized(quantum, actual.value, q);
    }
  }

  // ----- turnover -----

  predicate IsPowerOfTen(n: nat) {
    n == 1 || (n > 1 && n % 10 == 0 && IsPowerOfTen(n / 10))
  }

  /** `expected` is `actual` rounded half up to twelve significant digits with this last digit's unit. */
  ghost predicate RoundsTo(unit: nat, expected: nat, actual: nat) {
    && unit >= 10 && IsPowerOfTen(unit) && 100_000_000_000 * unit <= actual < 1_000_000_000_000 * unit
    && expected % unit == 0 && expected <= actual + unit / 2 < expected + unit
  }

  /** A frame without a reception time may give the turnover with twelve digits. */
  ghost predicate TurnoverExplained(missingReception: bool, expected: nat, actual: nat) {
    && missingReception && expected != actual && expected <= MAX_U128
    && exists unit: nat :: RoundsTo(unit, expected, actual)
  }

  lemma {:induction false} PowerIs(k: nat)
    ensures IsPowerOfTen(Pow10(k))
  {
    if k > 0 {
      PowerIs(k - 1);
      assert Pow10(k) / 10 == Pow10(k - 1);
    }
  }

  lemma {:induction false} PowerFound(n: nat) returns (k: nat)
    requires IsPowerOfTen(n)
    ensures n == Pow10(k)
  {
    if n == 1 {
      k := 0;
    } else {
      k := PowerFound(n / 10);
      k := k + 1;
    }
  }

  /** A number has `d` digits when it lies between two neighbouring powers of ten. */
  lemma {:induction false} DigitsBetween(n: nat, d: nat)
    requires n > 0 && d > 0
    ensures Digits(n) == d <==> Pow10(d - 1) <= n < Pow10(d)
  {
    if d == 1 {
      assert Pow10(0) == 1 && Pow10(1) == 10;
      assert Digits(n) == 1 + Digits(n / 10);
    } else if n < 10 {
      assert n / 10 == 0;
      assert Pow10(d - 1) == 10 * Pow10(d - 2);
    } else {
      DigitsBetween(n / 10, d - 1);
    }
  }

  lemma {:induction false} PowersMultiply(j: nat, k: nat)
    ensures Pow10(j + k) == Pow10(j) * Pow10(k)
  {
    if j > 0 {
      PowersMultiply(j - 1, k);
      assert 10 * Pow10(j - 1) * Pow10(k) == 10 * (Pow10(j - 1) * Pow10(k));
    }
  }

  /** What the rounding of the source computes is the multiple that half up means. */
  lemma RoundedHalfUp(unit: nat, actual: nat)
    requires unit >= 10 && unit % 2 == 0
    ensures var rounded := (actual / unit + if actual % unit >= unit / 2 then 1 else 0) * unit;
      && rounded % unit == 0 && rounded <= actual + unit / 2 < rounded + unit
  {
    var k := actual / unit + if actual % unit >= unit / 2 then 1 else 0;
    DivisionBounds(actual, unit);
    assert actual % unit == actual - actual / unit * unit;
    assert (actual / unit + 1) * unit == actual / unit * unit + unit;
    MultipleIs(k, unit);
  }

  lemma UnitFound(actual: nat, unit: nat)
    requires unit >= 10 && IsPowerOfTen(unit) && 100_000_000_000 * unit <= actual < 1_000_000_000_000 * unit
    ensures Digits(actual) > 12 && unit == Pow10(Digits(actual) - 12)
  {
    var k := PowerFound(unit);
    Twelve();
    PowersMultiply(11, k);
    PowersMultiply(12, k);
    DigitsBetween(actual, 12 + k);
    assert k > 0;
  }

  lemma Twelve()
    ensures Pow10(11) == 100_000_000_000 && Pow10(12) == 1_000_000_000_000
  {
    assert Pow10(4) == 10_000;
    assert Pow10(8) == 10_000 * Pow10(4);
    assert Pow10(11) == 1_000 * Pow10(8);
  }

  lemma UnitOf(actual: nat)
    requires Digits(actual) > 12
    ensures var unit := Pow10(Digits(actual) - 12);
      && unit >= 10 && unit % 2 == 0 && IsPowerOfTen(unit)
      && 100_000_000_000 * unit <= actual < 1_000_000_000_000 * unit
  {
    var k := Digits(actual) - 12;
    Twelve();
    PowerIs(k);
    PowersMultiply(11, k);
    PowersMultiply(12, k);
    DigitsBetween(actual, 12 + k);
    assert Pow10(k) == 10 * Pow10(k - 1);
  }

  /** The twelve-digit rule of the source is the one told here. */
  lemma PrecisionExplains(missingReception: bool, expected: nat, actual: nat)
    ensures TurnoverPrecision(missingReception, expected, actual).Some?
      <==> TurnoverExplained(missingReception, expected, actual)
  {
    hide Digits, Pow10, IsPowerOfTen;
    if actual > 0 && Digits(actual) > 12 {
      var unit := Pow10(Digits(actual) - 12);
      UnitOf(actual);
      RoundedHalfUp(unit, actual);
      var rounded: nat := (actual / unit + if actual % unit >= unit / 2 then 1 else 0) * unit;
      if rounded == expected {
        assert RoundsTo(unit, expected, actual);
        UnitWithin(unit, rounded, actual);
      }
    }
    if exists unit: nat :: RoundsTo(unit, expected, actual) {
      var unit: nat :| RoundsTo(unit, expected, actual);
      UnitFound(actual, unit);
      RoundedHalfUp(unit, actual);
      OneMultiple(unit, expected, (actual / unit + if actual % unit >= unit / 2 then 1 else 0) * unit);
      UnitWithin(unit, expected, actual);
    }
  }

  /** What is noted of an explained turnover: both values, and the unit of the last of twelve digits. */
  lemma PrecisionTold(missingReception: bool, expected: nat, actual: nat)
    ensures var noted := TurnoverPrecision(missingReception, expected, actual);
      noted.Some? ==>
        && noted.value.actualUnits == actual && noted.value.referenceUnits == expected
        && RoundsTo(noted.value.quantumUnits, expected, actual)
  {
    hide Digits, Pow10, IsPowerOfTen;
    if actual > 0 && Digits(actual) > 12 {
      UnitOf(actual);
      RoundedHalfUp(Pow10(Digits(actual) - 12), actual);
    }
  }

  lemma UnitWithin(unit: nat, rounded: nat, actual: nat)
    requires 100_000_000_000 * unit <= actual && actual + unit / 2 < rounded + unit
    ensures unit <= rounded
  {
  }

  // ----- whole views -----

  /** A reference agrees with the book's view: everything that is counted exactly is equal, weighted
      prices agree, and the turnover is equal or explained. */
  ghost predicate Agrees(quantum: nat, expected: View, missingReception: bool, actual: View)
    requires quantum > 0
  {
    && expected.bids == actual.bids && expected.asks == actual.asks
    && expected.totalBid == actual.totalBid && expected.totalAsk == actual.totalAsk
    && PricesAgree(quantum, expected.weightedBid, actual.weightedBid)
    && PricesAgree(quantum, expected.weightedAsk, actual.weightedAsk)
    && expected.last == actual.last && expected.high == actual.high && expected.low == actual.low
    && expected.tradeCount == actual.tradeCount && expected.tradeQuantity == actual.tradeQuantity
    && (expected.turnover == actual.turnover
        || TurnoverExplained(missingReception, expected.turnover, actual.turnover))
  }

  /** The two views disagree on the field. */
  ghost predicate Disagrees(field: Field, quantum: nat, expected: View, missingReception: bool, actual: View)
    requires quantum > 0
  {
    match field
    case Bids => expected.bids != actual.bids
    case Asks => expected.asks != actual.asks
    case TotalBid => expected.totalBid != actual.totalBid
    case WeightedBid => !PricesAgree(quantum, expected.weightedBid, actual.weightedBid)
    case TotalAsk => expected.totalAsk != actual.totalAsk
    case WeightedAsk => !PricesAgree(quantum, expected.weightedAsk, actual.weightedAsk)
    case LastPrice => expected.last != actual.last
    case HighPrice => expected.high != actual.high
    case LowPrice => expected.low != actual.low
    case TradesCounted => expected.tradeCount != actual.tradeCount
    case TradeQuantity => expected.tradeQuantity != actual.tradeQuantity
    case Turnover =>
      expected.turnover != actual.turnover && !TurnoverExplained(missingReception, expected.turnover, actual.turnover)
  }

  /** A published weighted price. */
  ghost predicate Publishes(quantum: nat, price: Option<int>, value: Value)
    requires quantum > 0
  {
    && value.MaybePrice? && (value.price.None? <==> price.None?)
    && (price.Some? ==> IsQuantized(quantum, price.value, value.price.value))
  }

  /** The difference carries the two values of its own field. */
  ghost predicate Carries(d: Difference, quantum: nat, expected: View, actual: View)
    requires quantum > 0
  {
    match d.field
    case Bids => d.expected == Depth(expected.bids) && d.actual == Depth(actual.bids)
    case Asks => d.expected == Depth(expected.asks) && d.actual == Depth(actual.asks)
    case TotalBid => d.expected == Amount(expected.totalBid) && d.actual == Amount(actual.totalBid)
    case WeightedBid =>
      d.expected == MaybePrice(expected.weightedBid) && Publishes(quantum, actual.weightedBid, d.actual)
    case TotalAsk => d.expected == Amount(expected.totalAsk) && d.actual == Amount(actual.totalAsk)
    case WeightedAsk =>
      d.expected == MaybePrice(expected.weightedAsk) && Publishes(quantum, actual.weightedAsk, d.actual)
    case LastPrice => d.expected == MaybePrice(expected.last) && d.actual == MaybePrice(actual.last)
    case HighPrice => d.expected == MaybePrice(expected.high) && d.actual == MaybePrice(actual.high)
    case LowPrice => d.expected == MaybePrice(expected.low) && d.actual == MaybePrice(actual.low)
    case TradesCounted => d.expected == Amount(expected.tradeCount) && d.actual == Amount(actual.tradeCount)
    case TradeQuantity => d.expected == Amount(expected.tradeQuantity) && d.actual == Amount(actual.tradeQuantity)
    case Turnover => d.expected == Amount(expected.turnover) && d.actual == Amount(actual.turnover)
  }

  ghost predicate Listed(field: Field, found: seq<Difference>) {
    exists i :: 0 <= i < |found| && found[i].field == field
  }

  /** The list holds one difference for each field that disagrees, in the order of the fields. */
  ghost predicate ListsExactly(found: seq<Difference>, quantum: nat, expected: View, missingReception: bool,
                               actual: View)
    requires quantum > 0
  {
    && (forall field: Field :: Listed(field, found) <==> Disagrees(field, quantum, expected, missingReception, actual))
    && (forall i | 0 <= i < |found| :: Carries(found[i], quantum, expected, actual))
    && (forall i, j | 0 <= i < j < |found| :: IndexOf(found[i].field) < IndexOf(found[j].field))
  }

  lemma DiffersTold(field: Field, quantum: nat, expected: View, missingReception: bool, actual: View)
    requires quantum > 0
    ensures var precise := TurnoverPrecision(missingReception, expected.turnover, actual.turnover).Some?;
      (Differs(field, quantum, expected, actual) && (field != Turnover || !precise))
        <==> Disagrees(field, quantum, expected, missingReception, actual)
  {
    hide Quantize, PricesAgree, WeightedPricesMatch, TurnoverPrecision, TurnoverExplained;
    PricesMatch(quantum, expected.weightedBid, actual.weightedBid);
    PricesMatch(quantum, expected.weightedAsk, actual.weightedAsk);
    PrecisionExplains(missingReception, expected.turnover, actual.turnover);
  }

  lemma DifferenceTold(field: Field, quantum: nat, expected: View, actual: View)
    requires quantum > 0
    ensures Carries(Difference(field, ValueOf(field, expected), PublishedValue(field, quantum, actual)), quantum,
                    expected, actual)
  {
    hide Truncated, IsQuantized;
    if actual.weightedBid.Some? {
      QuantizeIs(quantum, actual.weightedBid.value);
    }
    if actual.weightedAsk.Some? {
      QuantizeIs(quantum, actual.weightedAsk.value);
    }
  }

  /** Listing some fields in their order lists those of them that differ. */
  lemma {:induction false} DifferencesListed(fields: seq<Field>, quantum: nat, expected: View, actual: View)
    requires quantum > 0 && forall i, j | 0 <= i < j < |fields| :: IndexOf(fields[i]) < IndexOf(fields[j])
    ensures var found := Differences(fields, quantum, expected, actual);
      && (forall i | 0 <= i < |found| :: found[i].field in fields && Carries(found[i], quantum, expected, actual))
      && (forall field: Field :: Listed(field, found) <==> field in fields && Differs(field, quantum, expected, actual))
      && (forall i, j | 0 <= i < j < |found| :: IndexOf(found[i].field) < IndexOf(found[j].field))
  {
    hide Differs, ValueOf, PublishedValue, Carries, Listed, IndexOf;
    var found := Differences(fields, quantum, expected, actual);
    if fields == [] {
      NothingListed();
    } else {
      var rest := Differences(fields[1..], quantum, expected, actual);
      DifferencesListed(fields[1..], quantum, expected, actual);
      DifferenceTold(fields[0], quantum, expected, actual);
      assert fields == [fields[0]] + fields[1..];
      if Differs(fields[0], quantum, expected, actual) {
        ListedFirst(found);
        assert found[1..] == rest;
        forall i | 0 < i < |found| ensures IndexOf(found[0].field) < IndexOf(found[i].field) {
          assert found[i] == rest[i - 1] && rest[i - 1].field in fields[1..];
        }
      }
    }
  }

  lemma NothingListed()
    ensures forall field: Field :: !Listed(field, [])
  {
  }

  lemma ListedFirst(found: seq<Difference>)
    requires found != []
    ensures forall field: Field :: Listed(field, found) <==> field == found[0].field || Listed(field, found[1..])
  {
    forall field: Field | Listed(field, found) ensures field == found[0].field || Listed(field, found[1..]) {
      var i :| 0 <= i < |found| && found[i].field == field;
      if i > 0 {
        assert found[1..][i - 1].field == field;
      }
    }
    forall field: Field | Listed(field, found[1..]) ensures Listed(field, found) {
      var i :| 0 <= i < |found[1..]| && found[1..][i].field == field;
      assert found[i + 1].field == field;
    }
  }

  /** The comparison lists exactly the fields on which the reference and the view disagree, each with its
      own two values and in their order; it finds nothing exactly when the two agree. */
  lemma FoundExact(quantum: nat, expected: ReferenceView, missingReception: bool, actual: View)
    requires quantum > 0 && expected.Valid()
    ensures var found := Found(quantum, expected, missingReception, actual);
      && ListsExactly(found, quantum, expected.Expand(), missingReception, actual)
      && (found == [] <==> Agrees(quantum, expected.Expand(), missingReception, actual))
  {
    hide Differs, Carries, TurnoverPrecision, PricesAgree, TurnoverExplained, IndexOf;
    var precise := TurnoverPrecision(missingReception, expected.turnover, actual.turnover).Some?;
    var fields, found := Counted(precise), Found(quantum, expected, missingReception, actual);
    hide Listed, ListsExactly, Counted;
    FieldsDistinct(precise);
    FieldsInOrder(precise);
    DifferencesListed(fields, quantum, expected.Expand(), actual);
    assert found == Differences(fields, quantum, expected.Expand(), actual);
    forall field: Field ensures Listed(field, found)
      <==> Disagrees(field, quantum, expected.Expand(), missingReception, actual) {
      assert field in fields <==> field in FieldSet(fields);
      DiffersTold(field, quantum, expected.Expand(), missingReception, actual);
    }
    ListedExactly(found, quantum, expected.Expand(), missingReception, actual);
    NoFieldDisagrees(quantum, expected.Expand(), missingReception, actual, found);
  }

  lemma ListedExactly(found: seq<Difference>, quantum: nat, expected: View, missingReception: bool, actual: View)
    requires quantum > 0
    requires forall field: Field ::
      Listed(field, found) <==> Disagrees(field, quantum, expected, missingReception, actual)
    requires forall i | 0 <= i < |found| :: Carries(found[i], quantum, expected, actual)
    requires forall i, j | 0 <= i < j < |found| :: IndexOf(found[i].field) < IndexOf(found[j].field)
    ensures ListsExactly(found, quantum, expected, missingReception, actual)
  {
    hide Listed, Disagrees, Carries, IndexOf;
  }

  lemma FieldsInOrder(precise: bool)
    ensures forall i, j | 0 <= i < j < |Counted(precise)| :: IndexOf(Counted(precise)[i]) < IndexOf(Counted(precise)[j])
  {
    forall i: nat | i < |Counted(precise)| ensures IndexOf(Counted(precise)[i]) == i {
      IndexOfField(i);
      assert Counted(precise)[i] == FIELDS[i];
    }
  }

  lemma NoFieldDisagrees(quantum: nat, expected: View, missingReception: bool, actual: View, found: seq<Difference>)
    requires quantum > 0
    requires forall field: Field ::
      Listed(field, found) <==> Disagrees(field, quantum, expected, missingReception, actual)
    ensures found == [] <==> Agrees(quantum, expected, missingReception, actual)
  {
    hide PricesAgree, TurnoverExplained;
    if found == [] {
      forall field: Field ensures !Disagrees(field, quantum, expected, missingReception, actual) {
        assert !Listed(field, found);
      }
      assert !Disagrees(Bids, quantum, expected, missingReception, actual);
      assert !Disagrees(Asks, quantum, expected, missingReception, actual);
      assert !Disagrees(TotalBid, quantum, expected, missingReception, actual);
      assert !Disagrees(WeightedBid, quantum, expected, missingReception, actual);
      assert !Disagrees(TotalAsk, quantum, expected, missingReception, actual);
      assert !Disagrees(WeightedAsk, quantum, expected, missingReception, actual);
      assert !Disagrees(LastPrice, quantum, expected, missingReception, actual);
      assert !Disagrees(HighPrice, quantum, expected, missingReception, actual);
      assert !Disagrees(LowPrice, quantum, expected, missingReception, actual);
      assert !Disagrees(TradesCounted, quantum, expected, missingReception, actual);
      assert !Disagrees(TradeQuantity, quantum, expected, missingReception, actual);
      assert !Disagrees(Turnover, quantum, expected, missingReception, actual);
    } else {
      assert Listed(found[0].field, found);
    }
  }
}
