/** The closing-price tracker (src/production/validation/sz_close_price.rs): a sliding minute of
    trades with running sums, and the last trade before the closing call. */
module ClosePrice {
  import opened Wrappers
  import opened MarketData
  import opened Views
  import Depth

  const MINUTE := 60_000_000_000
  const CLOSE_CALL_START := 14 * 3_600_000_000_000 + 57 * 60_000_000_000
  const MARKET_CLOSE := 15 * 3_600_000_000_000

  /** Nanoseconds after midnight in the exchange's zone, eight hours ahead of UTC. */
  function TimeOfDay(time: int): int {
    (time + 8 * 3_600_000_000_000) % 86_400_000_000_000
  }

  datatype Sample = Sample(time: i64, price: nat, quantity: u64)

  function Milliseconds(time: int): int {
    time / 1_000_000
  }

  predicate BeforeClosingCall(time: int) {
    TimeOfDay(time) < CLOSE_CALL_START
  }

  predicate InClosingCall(time: int) {
    CLOSE_CALL_START <= TimeOfDay(time) <= MARKET_CLOSE
  }

  /** On any day, told by the exchange's clock, the closing call begins at 14:57 and ends at 15:00. */
  lemma ClosingClock(day: int, clock: int)
    requires 0 <= clock < 86_400_000_000_000
    ensures var time := day * 86_400_000_000_000 + clock - 28_800_000_000_000;
      && (BeforeClosingCall(time) <==> clock < 53_820_000_000_000)
      && (InClosingCall(time) <==> 53_820_000_000_000 <= clock <= 54_000_000_000_000)
  {
    RemainderIs(day, 86_400_000_000_000, clock);
  }

  lemma RemainderIs(k: int, d: int, r: int)
    requires 0 <= r < d
    ensures (k * d + r) % d == r
  {
    var n := k * d + r;
    var q := n / d;
    assert n == q * d + n % d;
    assert (q - k) * d == q * d - k * d;
    SmallMultiple(q - k, d);
  }

  datatype RangeBase = RangeBase(price: nat, timeMs: int)

  function Worth(s: Sample): nat {
    s.price * s.quantity
  }

  ghost function Value(samples: seq<Sample>): nat {
    if samples == [] then 0 else Worth(samples[0]) + Value(samples[1..])
  }

  ghost function Volume(samples: seq<Sample>): nat {
    if samples == [] then 0 else samples[0].quantity + Volume(samples[1..])
  }

  lemma {:induction false} SumsAppend(samples: seq<Sample>, last: Sample)
    ensures Value(samples + [last]) == Value(samples) + Worth(last)
    ensures Volume(samples + [last]) == Volume(samples) + last.quantity
  {
    if samples == [] {
      assert [last][1..] == [];
    } else {
      assert (samples + [last])[1..] == samples[1..] + [last];
      SumsAppend(samples[1..], last);
    }
  }

  /** The trades of the last minute up to the latest one, oldest first. */
  ghost function LastMinute(history: seq<Sample>): seq<Sample> {
    if history == [] then [] else Since(history, history[|history| - 1].time - MINUTE)
  }

  ghost predicate IsLastMinute(history: seq<Sample>, window: seq<Sample>) {
    window == LastMinute(history)
  }

  ghost function Since(history: seq<Sample>, cutoff: int): seq<Sample> {
    if history == [] then []
    else
      var last := history[|history| - 1];
      Since(history[..|history| - 1], cutoff) + if last.time >= cutoff then [last] else []
  }

  /** The latest trade before the closing call. */
  ghost function BaseOf(history: seq<Sample>): Option<RangeBase> {
    if history == [] then None
    else
      var last := history[|history| - 1];
      if BeforeClosingCall(last.time) then Some(RangeBase(last.price, Milliseconds(last.time)))
      else BaseOf(history[..|history| - 1])
  }

  ghost predicate ClosingSeen(history: seq<Sample>) {
    exists k :: 0 <= k < |history| && InClosingCall(history[k].time)
  }

  ghost predicate InOrder(history: seq<Sample>) {
    forall i, j | 0 <= i < j < |history| :: history[i].time <= history[j].time
  }

  /** Of trades in time order, those since a cutoff are a suffix. */
  lemma {:induction false} SinceIsSuffix(history: seq<Sample>, cutoff: int, n: nat)
    requires n <= |history|
    requires forall k | 0 <= k < n :: history[k].time < cutoff
    requires forall k | n <= k < |history| :: history[k].time >= cutoff
    ensures Since(history, cutoff) == history[n..]
  {
    if history == [] {
    } else if n == |history| {
      SinceIsSuffix(history[..n - 1], cutoff, n - 1);
    } else {
      var before := history[..|history| - 1];
      SinceIsSuffix(before, cutoff, n);
      assert history[n..] == before[n..] + [history[|history| - 1]];
    }
  }

  /** Of trades in time order, the last minute is what remains behind the last one that lies more than
      sixty seconds before the newest. */
  lemma LastMinuteExact(history: seq<Sample>) returns (n: nat)
    requires InOrder(history) && history != []
    ensures n < |history| && LastMinute(history) == history[n..]
    ensures forall k | 0 <= k < |history| ::
              k < n <==> history[|history| - 1].time - history[k].time > 60_000_000_000
  {
    var cutoff := history[|history| - 1].time - MINUTE;
    n := 0;
    while history[n].time < cutoff
      invariant n < |history| && forall k | 0 <= k < n :: history[k].time < cutoff
      decreases |history| - n
    {
      n := n + 1;
    }
    SinceIsSuffix(history, cutoff, n);
  }

  /** The base is the newest trade before the closing call, if there is one. */
  lemma {:induction false} BaseExact(history: seq<Sample>)
    ensures BaseOf(history).None? <==> forall k | 0 <= k < |history| :: !BeforeClosingCall(history[k].time)
    ensures BaseOf(history).Some? ==> exists k :: 0 <= k < |history| && IsBase(history, BaseOf(history).value, k)
  {
    hide BeforeClosingCall;
    if history != [] {
      var front, last := history[..|history| - 1], history[|history| - 1];
      if BeforeClosingCall(last.time) {
        assert IsBase(history, BaseOf(history).value, |history| - 1);
      } else {
        BaseExact(front);
        assert forall k | 0 <= k < |front| :: front[k] == history[k];
        if BaseOf(front).Some? {
          var k :| 0 <= k < |front| && IsBase(front, BaseOf(front).value, k);
          assert IsBase(history, BaseOf(history).value, k);
        }
      }
    }
  }

  ghost predicate IsBase(history: seq<Sample>, base: RangeBase, k: nat)
    requires k < |history|
  {
    && BeforeClosingCall(history[k].time) && (forall j | k < j < |history| :: !BeforeClosingCall(history[j].time))
    && base.price == history[k].price
    && base.timeMs * 1_000_000 <= history[k].time < base.timeMs * 1_000_000 + 1_000_000
  }

  /** The window is the history without its first `n` trades, all of them before the cutoff. */
  ghost predicate Dropped(history: seq<Sample>, n: nat, window: seq<Sample>, cutoff: int) {
    n < |history| && window == history[n..] && forall k | 0 <= k < n :: history[k].time < cutoff
  }

  /** The next trade of a history can be taken. */
  ghost predicate Observable(history: seq<Sample>, time: int, price: int, traded: nat) {
    && price >= 0 && (history == [] || history[|history| - 1].time <= time)
    && Value(LastMinute(history)) + price * traded <= MAX_U128
    && Volume(LastMinute(history)) + traded <= MAX_U128
    && time - MINUTE >= -MAX_I64 - 1
  }

  class SzClosePriceTracker {
    var rangeBase: Option<RangeBase>
    var lastMinute: seq<Sample>
    var weighted: nat
    var quantity: nat
    var hasClosingTrade: bool
    ghost var history: seq<Sample>
    ghost var dropped: nat

    /** The deque is the last minute of all trades, both sums are its sums, and the two closing
        facts are those of the whole history. */
    ghost predicate Valid()
      reads this
    {
      && InOrder(history) && dropped <= |history| && lastMinute == history[dropped..]
      && (history != [] ==> lastMinute != [])
      && IsLastMinute(history, lastMinute)
      && weighted == Value(lastMinute) && quantity == Volume(lastMinute)
      && rangeBase == BaseOf(history)
      && (hasClosingTrade <==> ClosingSeen(history))
    }

    constructor ()
      ensures Valid() && history == []
    {
      rangeBase, lastMinute, weighted, quantity, hasClosingTrade := None, [], 0, 0, false;
      history, dropped := [], 0;
    }

    /** Drop the trades before the cutoff from the front, with their share of the sums. */
    method Evict(cutoff: int)
      requires Dropped(history, dropped, lastMinute, cutoff) && history[|history| - 1].time >= cutoff
      requires weighted == Value(lastMinute) && quantity == Volume(lastMinute)
      modifies this`lastMinute, this`weighted, this`quantity, this`dropped
      ensures Dropped(history, dropped, lastMinute, cutoff) && lastMinute != [] && lastMinute[0].time >= cutoff
      ensures weighted == Value(lastMinute) && quantity == Volume(lastMinute)
    {
      hide Value, Volume, Worth;
      while lastMinute[0].time < cutoff
        invariant Dropped(history, dropped, lastMinute, cutoff)
        invariant weighted == Value(lastMinute) && quantity == Volume(lastMinute)
        decreases |lastMinute|
      {
        var oldest := lastMinute[0];
        SumsHead(lastMinute);
        weighted := weighted - Worth(oldest);
        quantity := quantity - oldest.quantity;
        dropped := dropped + 1;
        assert history[dropped..] == lastMinute[1..];
        lastMinute := lastMinute[1..];
      }
    }

    /** The trade joins the deque and both sums, unless a sum leaves its width. */
    method Push(sample: Sample) returns (r: Result<(), ViewError>)
      requires weighted == Value(lastMinute) && quantity == Volume(lastMinute)
      modifies this`lastMinute, this`weighted, this`quantity
      ensures r.Ok? <==> old(weighted) + Worth(sample) <= MAX_U128 && old(quantity) + sample.quantity <= MAX_U128
      ensures r.Ok? ==>
        lastMinute == old(lastMinute) + [sample] && weighted == Value(lastMinute) && quantity == Volume(lastMinute)
    {
      hide Value, Volume, Worth;
      SumsAppend(lastMinute, sample);
      lastMinute := lastMinute + [sample];
      if weighted + Worth(sample) > MAX_U128 {
        return Err(Arithmetic);
      }
      weighted := weighted + Worth(sample);
      if quantity + sample.quantity > MAX_U128 {
        return Err(Arithmetic);
      }
      quantity := quantity + sample.quantity;
      return Ok(());
    }

    /** Let the minute end at the newest trade, and note what it means for the close. */
    method Slide(ghost was: seq<Sample>, sample: Sample)
      requires history == was + [sample] && Dropped(history, dropped, lastMinute, sample.time - MINUTE)
      requires InOrder(was) && (was != [] ==> was[|was| - 1].time <= sample.time)
      requires weighted == Value(lastMinute) && quantity == Volume(lastMinute)
      requires rangeBase == BaseOf(was) && (hasClosingTrade <==> ClosingSeen(was))
      modifies this`lastMinute, this`weighted, this`quantity, this`dropped, this`rangeBase, this`hasClosingTrade
      ensures Valid()
    {
      hide Dropped, Value, Volume, IsLastMinute, LastMinute, Since, BaseOf, ClosingSeen, Worth, InOrder;
      hide BeforeClosingCall, InClosingCall, Milliseconds;
      Evict(sample.time - MINUTE);
      if BeforeClosingCall(sample.time) {
        rangeBase := Some(RangeBase(sample.price, Milliseconds(sample.time)));
      }
      if InClosingCall(sample.time) {
        hasClosingTrade := true;
      }
      InOrderAppend(was, sample);
      HistoryAppend(was, sample);
      ClosingFacts(was, sample);
      LastMinuteIs(was, sample, dropped, lastMinute);
    }

    /** One successful trade enters the minute and pushes out what it leaves behind. It is taken exactly
        when its price is not negative, time goes on, and no number leaves its width. */
    method Observe(time: i64, price: i64, traded: u64) returns (r: Result<(), ViewError>)
      requires Valid()
      modifies this
      ensures r.Ok? <==> Observable(old(history), time, price, traded)
      ensures r.Ok? ==> Valid() && price >= 0 && history == old(history) + [Sample(time, price, traded)]
    {
      hide Value, Volume, LastMinute, Since, BaseOf, ClosingSeen, InOrder, BeforeClosingCall;
      hide InClosingCall, Milliseconds;
      if price < 0 {
        return Err(Arithmetic);
      }
      var sample := Sample(time, price, traded);
      ProductBound(sample);
      if history != [] {
        LastDropped(history, dropped);
      }
      if lastMinute != [] && time < lastMinute[|lastMinute| - 1].time {
        return Err(Validation);
      }
      ghost var was := history;
      CutoffKept(was, sample, dropped, lastMinute);
      var pushed := Push(sample);
      if pushed.Err? {
        return pushed;
      }
      var cutoff := time - MINUTE;
      if cutoff < -MAX_I64 - 1 {
        return Err(Arithmetic);
      }
      LastOf(was, sample, dropped);
      history := history + [sample];
      Slide(was, sample);
      return Ok(());
    }

    /** The published average is the mean price of the last minute's trades on the quantum's grid, half
        up. It fails exactly when that price, or a sum on the way to it, does not fit. */
    method AverageClosePrice(quantum: nat) returns (r: Result<Option<int>, ViewError>)
      requires Valid() && quantum > 0
      ensures r == Ok(None) <==> Volume(LastMinute(history)) == 0
      ensures r.Ok? <==> AverageFits(history, quantum)
      ensures r.Ok? && r.value.Some? ==>
        && 0 <= r.value.value <= MAX_I64
        && HalfUp(r.value.value, Value(LastMinute(history)), Volume(LastMinute(history)), quantum)
    {
      hide Value, Volume, LastMinute, HalfUp, BaseOf;
      if quantity == 0 {
        return Ok(None);
      }
      var units := RoundToQuantum(weighted, quantity, quantum);
      RoundToQuantumExact(weighted, quantity, quantum);
      if units.Err? {
        return Err(units.error);
      }
      OneRounded(units.value, weighted, quantity, quantum);
      if units.value > MAX_I64 {
        return Err(Arithmetic);
      }
      return Ok(Some(units.value));
    }
  }

  /** The sums of the rounding and the rounded price itself are within their widths. */
  ghost predicate AverageFits(history: seq<Sample>, quantum: nat)
    requires quantum > 0
  {
    var value, volume := Value(LastMinute(history)), Volume(LastMinute(history));
    volume == 0 || RoundedFits(value, volume, quantum)
  }

  ghost predicate RoundedFits(value: nat, volume: nat, quantum: nat)
    requires quantum > 0
  {
    && volume * quantum <= MAX_U128 && value + volume * quantum / 2 <= MAX_U128
    && forall p: nat | HalfUp(p, value, volume, quantum) :: p <= MAX_I64
  }

  lemma OneRounded(units: nat, weighted: nat, quantity: nat, quantum: nat)
    requires quantity > 0 && quantum > 0 && HalfUp(units, weighted, quantity, quantum)
    ensures (forall p: nat | HalfUp(p, weighted, quantity, quantum) :: p <= MAX_I64) <==> units <= MAX_I64
  {
    hide HalfUp;
    forall p: nat | HalfUp(p, weighted, quantity, quantum) ensures p == units {
      OneHalfUp(p, units, weighted, quantity, quantum);
    }
  }

  lemma {:induction false} ValueBound(samples: seq<Sample>, high: nat)
    requires forall i | 0 <= i < |samples| :: samples[i].price <= high
    ensures Value(samples) <= high * Volume(samples)
  {
    if samples != [] {
      ValueBound(samples[1..], high);
      Depth.ScaleMonotone(samples[0].price, high, samples[0].quantity);
      assert high * Volume(samples) == high * samples[0].quantity + high * Volume(samples[1..]);
    }
  }

  lemma {:induction false} SinceFrom(history: seq<Sample>, cutoff: int)
    ensures forall i | 0 <= i < |Since(history, cutoff)| :: Since(history, cutoff)[i] in history
  {
    if history != [] {
      SinceFrom(history[..|history| - 1], cutoff);
    }
  }

  /** An average always exists while the minute's volume is a 64-bit number and its prices leave room
      to round up to the quantum, which is ten or a hundred. */
  lemma AverageExists(history: seq<Sample>, quantum: nat)
    requires 0 < quantum < MAX_I64 && Volume(LastMinute(history)) <= MAX_U64
    requires forall i | 0 <= i < |history| :: history[i].price <= MAX_I64 - quantum
    ensures AverageFits(history, quantum)
  {
    hide Value, Volume, HalfUp;
    var value, volume := Value(LastMinute(history)), Volume(LastMinute(history));
    if history != [] {
      SinceFrom(history, history[|history| - 1].time - MINUTE);
    }
    ValueBound(LastMinute(history), MAX_I64 - quantum);
    if volume > 0 {
      ModestFits(value, volume, quantum);
      forall p: nat | HalfUp(p, value, volume, quantum) ensures p <= MAX_I64 {
        ModestRounded(p, value, volume, quantum);
      }
    }
  }

  /** The product of a price and a quantity always fits. */
  lemma ProductBound(s: Sample)
    requires s.price <= MAX_I64
    ensures Worth(s) <= MAX_U128
  {
    Depth.ScaleMonotone(s.price, MAX_I64, s.quantity);
    assert MAX_I64 * s.quantity <= MAX_U128;
  }

  lemma SumsHead(samples: seq<Sample>)
    requires samples != []
    ensures Value(samples) == Worth(samples[0]) + Value(samples[1..])
    ensures Volume(samples) == samples[0].quantity + Volume(samples[1..])
  {
  }

  lemma LastDropped(history: seq<Sample>, dropped: nat)
    requires dropped < |history|
    ensures history[dropped..][|history| - dropped - 1] == history[|history| - 1]
  {
  }

  lemma LastOf(history: seq<Sample>, sample: Sample, dropped: nat)
    requires dropped <= |history|
    ensures (history + [sample])[|history|] == sample
    ensures (history + [sample])[dropped..] == history[dropped..] + [sample]
  {
  }

  lemma InOrderAppend(history: seq<Sample>, sample: Sample)
    requires InOrder(history) && (history != [] ==> history[|history| - 1].time <= sample.time)
    ensures InOrder(history + [sample])
  {
  }

  lemma HistoryAppend(history: seq<Sample>, sample: Sample)
    ensures BaseOf(history + [sample]) ==
      (if BeforeClosingCall(sample.time) then Some(RangeBase(sample.price, Milliseconds(sample.time)))
       else BaseOf(history))
  {
    hide BeforeClosingCall, InClosingCall, Milliseconds;
    assert (history + [sample])[..|history|] == history;
  }

  /** What an earlier cutoff dropped, a later one drops too. */
  lemma CutoffKept(history: seq<Sample>, sample: Sample, dropped: nat, window: seq<Sample>)
    requires InOrder(history) && dropped <= |history| && window == history[dropped..] && IsLastMinute(history, window)
    requires history != [] ==> dropped < |history| && history[|history| - 1].time <= sample.time
    ensures forall k | 0 <= k < dropped :: (history + [sample])[k].time < sample.time - MINUTE
  {
    if history != [] {
      var cutoff := history[|history| - 1].time - MINUTE;
      if dropped > 0 && history[dropped - 1].time >= cutoff {
        var n := dropped - 1;
        SinceLonger(history, cutoff, n);
      }
    }
  }

  lemma {:induction false} SinceLonger(history: seq<Sample>, cutoff: int, n: nat)
    requires InOrder(history) && n < |history| && history[n].time >= cutoff
    ensures |Since(history, cutoff)| >= |history| - n
  {
    if n < |history| - 1 {
      SinceLonger(history[..|history| - 1], cutoff, n);
    }
  }

  lemma LastMinuteIs(was: seq<Sample>, sample: Sample, dropped: nat, window: seq<Sample>)
    requires var history := was + [sample];
      InOrder(history) && Dropped(history, dropped, window, sample.time - MINUTE)
    requires window != [] && window[0].time >= sample.time - MINUTE
    ensures var history := was + [sample];
      IsLastMinute(history, window) && dropped <= |history| && window == history[dropped..]
  {
    SinceIsSuffix(was + [sample], sample.time - MINUTE, dropped);
  }

  lemma ClosingFacts(history: seq<Sample>, sample: Sample)
    ensures ClosingSeen(history + [sample]) <==> ClosingSeen(history) || InClosingCall(sample.time)
  {
    hide BeforeClosingCall, InClosingCall, Milliseconds;
    var all := history + [sample];
    assert all[|history|] == sample && forall k | 0 <= k < |history| :: all[k] == history[k];
    if ClosingSeen(history) {
      var k :| 0 <= k < |history| && InClosingCall(history[k].time);
      assert InClosingCall(all[k].time);
    }
  }
}
