/** Scheduled snapshots (src/production/snapshot.rs, src/production/replay.rs): a cursor over the
    grid of two sessions, drained before every business event, so that the snapshot at T shows the
    book after exactly the events quoted before T. */
module Snapshot {
  import opened Wrappers
  import opened MarketData
  import opened Book
  import opened BookRuns
  import opened Observations
  import opened Views

  const NANOS := 1_000_000_000

  /** 09:15 to 11:30 and 13:00 to 15:00, in nanoseconds after midnight. */
  const SESSIONS := [(33_300 * NANOS, 41_400 * NANOS), (46_800 * NANOS, 54_000 * NANOS)]

  // ----- the grid -----

  /** The grid times of one session from `next` on. */
  ghost function SessionRest(next: int, end: int, interval: int): seq<int>
    requires interval > 0
    decreases end - next
  {
    if next > end then [] else [next] + SessionRest(next + interval, end, interval)
  }

  /** All grid times of the sessions from `session` on. */
  ghost function Grid(day: int, session: nat, interval: int): seq<int>
    requires interval > 0 && session <= |SESSIONS|
    decreases |SESSIONS| - session
  {
    if session == |SESSIONS| then []
    else
      var (start, end) := (day + SESSIONS[session].0, day + SESSIONS[session].1);
      SessionRest(start + interval, end, interval) + Grid(day, session + 1, interval)
  }

  ghost predicate Ascending(times: seq<int>) {
    forall i, j | 0 <= i < j < |times| :: times[i] < times[j]
  }

  lemma Multiples(k: int, interval: int)
    ensures (k + 1) * interval == k * interval + interval
  {
  }

  lemma MultiplesGrow(a: int, b: int, interval: int)
    requires a < b && interval > 0
    ensures a * interval < b * interval
  {
    assert b * interval == a * interval + (b - a) * interval;
  }

  lemma {:induction false} SessionRestAt(next: int, end: int, interval: int, k: nat)
    requires interval > 0
    ensures k < |SessionRest(next, end, interval)| ==> SessionRest(next, end, interval)[k] == next + k * interval <= end
    ensures k == |SessionRest(next, end, interval)| ==> next + k * interval > end
    decreases k
  {
    if next <= end && k > 0 {
      SessionRestAt(next + interval, end, interval, k - 1);
      Multiples(k - 1, interval);
    }
  }

  /** A session's grid is every start + k * interval up to its end, once each and in order. */
  lemma SessionRestExact(next: int, end: int, interval: int)
    requires interval > 0
    ensures forall k: nat | k < |SessionRest(next, end, interval)| ::
      SessionRest(next, end, interval)[k] == next + k * interval <= end
    ensures next + |SessionRest(next, end, interval)| * interval > end
    ensures Ascending(SessionRest(next, end, interval))
    ensures forall k: nat | k < |SessionRest(next, end, interval)| :: SessionRest(next, end, interval)[k] >= next
  {
    hide SessionRest;
    var all := SessionRest(next, end, interval);
    SessionRestAt(next, end, interval, |all|);
    forall k: nat | k < |all| ensures all[k] == next + k * interval <= end && all[k] >= next {
      SessionRestAt(next, end, interval, k);
      if k > 0 {
        MultiplesGrow(0, k, interval);
      }
    }
    forall i, j | 0 <= i < j < |all| ensures all[i] < all[j] {
      MultiplesGrow(i, j, interval);
    }
  }

  lemma GridAscends(day: int, interval: int)
    requires interval > 0
    ensures Ascending(Grid(day, 0, interval))
  {
    hide SessionRest;
    var morning := SessionRest(day + SESSIONS[0].0 + interval, day + SESSIONS[0].1, interval);
    var afternoon := SessionRest(day + SESSIONS[1].0 + interval, day + SESSIONS[1].1, interval);
    SessionRestExact(day + SESSIONS[0].0 + interval, day + SESSIONS[0].1, interval);
    SessionRestExact(day + SESSIONS[1].0 + interval, day + SESSIONS[1].1, interval);
    assert Grid(day, 1, interval) == afternoon + [] == afternoon by { assert Grid(day, 2, interval) == []; }
    var all := Grid(day, 0, interval);
    assert all == morning + afternoon;
    forall i, j | 0 <= i < j < |all| ensures all[i] < all[j] {
      if i < |morning| <= j {
        assert all[j] == afternoon[j - |morning|];
      }
    }
  }

  /** The k-th tick of a session. */
  ghost predicate Tick(start: int, end: int, interval: int, t: int, k: int) {
    k >= 1 && t == start + k * interval && t <= end
  }

  ghost predicate Ticks(start: int, end: int, interval: int, t: int) {
    exists k: int :: Tick(start, end, interval, t, k)
  }

  lemma SessionTicks(start: int, end: int, interval: int, t: int)
    requires interval > 0
    ensures t in SessionRest(start + interval, end, interval) <==> Ticks(start, end, interval, t)
  {
    hide SessionRest;
    var all := SessionRest(start + interval, end, interval);
    SessionRestExact(start + interval, end, interval);
    if t in all {
      var i: nat :| i < |all| && all[i] == t;
      Multiples(i, interval);
      assert Tick(start, end, interval, t, i + 1);
    }
    if Ticks(start, end, interval, t) {
      var k: int :| Tick(start, end, interval, t, k);
      Multiples(k - 1, interval);
      if |all| < k - 1 {
        MultiplesGrow(|all|, k - 1, interval);
      }
      assert k - 1 < |all| && all[k - 1] == t;
    }
  }

  /** The grid of a day: every interval after 09:15 up to 11:30, and every interval after 13:00 up to
      15:00, in nanoseconds after the day's midnight. */
  lemma GridTimes(day: int, interval: int, t: int)
    requires interval > 0
    ensures t in Grid(day, 0, interval) <==>
      || Ticks(day + 33_300_000_000_000, day + 41_400_000_000_000, interval, t)
      || Ticks(day + 46_800_000_000_000, day + 54_000_000_000_000, interval, t)
  {
    hide SessionRest, Ticks;
    GridStep(day, 0, interval);
    GridStep(day, 1, interval);
    GridStep(day, 2, interval);
    SessionTicks(day + 33_300_000_000_000, day + 41_400_000_000_000, interval, t);
    SessionTicks(day + 46_800_000_000_000, day + 54_000_000_000_000, interval, t);
  }

  lemma SessionRestStep(next: int, end: int, interval: int)
    requires interval > 0
    ensures next <= end ==> SessionRest(next, end, interval) == [next] + SessionRest(next + interval, end, interval)
    ensures next > end ==> SessionRest(next, end, interval) == []
  {
  }

  lemma GridStep(day: int, session: nat, interval: int)
    requires interval > 0 && session <= |SESSIONS|
    ensures session == |SESSIONS| ==> Grid(day, session, interval) == []
    ensures session < |SESSIONS| ==>
      Grid(day, session, interval) ==
        SessionRest(day + SESSIONS[session].0 + interval, day + SESSIONS[session].1, interval)
          + Grid(day, session + 1, interval)
  {
  }

  /** A grid time is due when it does not lie behind the event. */
  class SnapshotCursor {
    const day: int
    const interval: int
    var session: nat
    var next: Option<int>

    ghost predicate Valid()
      reads this
    {
      && interval > 0
      && (next.Some? ==> session < |SESSIONS| && next.value <= day + SESSIONS[session].1)
      && (next.None? ==> session == |SESSIONS|)
    }

    /** The grid times that are still to come. */
    ghost function Ahead(): seq<int>
      requires Valid()
      reads this
    {
      if next.None? then []
      else SessionRest(next.value, day + SESSIONS[session].1, interval) + Grid(day, session + 1, interval)
    }

    /** No grid time of the day can leave the range of time stamps. */
    predicate Roomy() {
      day + SESSIONS[1].1 + interval <= MAX_I64
    }

    constructor (day: int, interval: int)
      requires 0 < interval <= MAX_I64
      ensures this.day == day && this.interval == interval && session == 0 && next.None?
    {
      this.day, this.interval, session, next := day, interval, 0, None;
    }

    static method Create(day: int, interval: int) returns (r: Result<SnapshotCursor, ViewError>)
      requires 0 < interval <= MAX_I64
      ensures r.Ok? ==>
        && fresh(r.value) && r.value.Valid() && r.value.day == day && r.value.interval == interval
        && r.value.Ahead() == Grid(day, 0, interval)
      ensures day + SESSIONS[1].0 + interval <= MAX_I64 ==> r.Ok?
    {
      var cursor := new SnapshotCursor(day, interval);
      var started := cursor.StartSession();
      if started.Err? {
        return Err(started.error);
      }
      return Ok(cursor);
    }

    /** The first grid time of the current session, or of the first later one that has any. */
    method StartSession() returns (r: Result<(), ViewError>)
      requires interval > 0 && session <= |SESSIONS|
      modifies this`session, this`next
      ensures r.Ok? ==> Valid() && Ahead() == Grid(day, old(session), interval)
      ensures day + SESSIONS[1].0 + interval <= MAX_I64 ==> r.Ok?
      ensures r.Err? ==> r.error == Arithmetic
      decreases |SESSIONS| - session
    {
      hide SessionRest, Grid;
      GridStep(day, session, interval);
      if session >= |SESSIONS| {
        next := None;
        return Ok(());
      }
      var first := day + SESSIONS[session].0 + interval;
      if first > MAX_I64 {
        return Err(Arithmetic);
      }
      next := if first <= day + SESSIONS[session].1 then Some(first) else None;
      if next.None? {
        SessionRestStep(first, day + SESSIONS[session].1, interval);
        session := session + 1;
        r := StartSession();
        return r;
      }
      return Ok(());
    }

    method Advance() returns (r: Result<(), ViewError>)
      requires Valid()
      modifies this`session, this`next
      ensures r.Ok? ==> Valid() && (old(next).None? ==> Ahead() == [])
      ensures r.Ok? && old(next).Some? ==> [old(next).value] + Ahead() == old(Ahead())
      ensures Roomy() ==> r.Ok?
    {
      hide SessionRest;
      if next.None? {
        return Ok(());
      }
      SessionRestStep(next.value + interval, day + SESSIONS[session].1, interval);
      var candidate := next.value + interval;
      if candidate > MAX_I64 {
        return Err(Arithmetic);
      }
      ghost var end := day + SESSIONS[session].1;
      SessionRestStep(next.value, end, interval);
      if candidate <= day + SESSIONS[session].1 {
        next := Some(candidate);
        return Ok(());
      }
      session := session + 1;
      r := StartSession();
    }

    /** Everything due at `q` is emitted, in order, and nothing else. */
    method DrainDue(q: int) returns (r: Result<seq<int>, ViewError>)
      requires Valid()
      modifies this`session, this`next
      ensures r.Ok? ==> Valid() && r.value + Ahead() == old(Ahead())
      ensures r.Ok? ==> (forall t | t in r.value :: t <= q) && (next.Some? ==> next.value > q)
      ensures Roomy() ==> r.Ok?
    {
      hide SnapshotCursor.Ahead, SessionRest, Grid;
      var due: seq<int> := [];
      assert due + Ahead() == Ahead();
      while next.Some? && next.value <= q
        invariant Valid() && due + Ahead() == old(Ahead())
        invariant forall t | t in due :: t <= q
        decreases |Ahead()|
      {
        ghost var ahead := Ahead();
        due := due + [next.value];
        var advanced := Advance();
        if advanced.Err? {
          return Err(advanced.error);
        }
        assert |ahead| == 1 + |Ahead()| && due[..|due| - 1] + ahead == due + Ahead();
      }
      return Ok(due);
    }

    /** Nothing still to come lies before the next grid time. */
    lemma AheadFromNext()
      requires Valid()
      ensures next.None? ==> Ahead() == []
      ensures next.Some? ==> forall t | t in Ahead() :: t >= next.value
    {
      hide SessionRest;
      if next.Some? {
        SessionRestExact(next.value, day + SESSIONS[session].1, interval);
        SessionRestExact(day + SESSIONS[1].0 + interval, day + SESSIONS[1].1, interval);
        assert Grid(day, 2, interval) == [];
        assert session == 0 || session == 1;
        SessionsOrdered(day);
      }
    }

    method Finish() returns (r: Result<seq<int>, ViewError>)
      requires Valid() && day + SESSIONS[1].1 <= MAX_I64
      modifies this`session, this`next
      ensures r.Ok? ==> Valid() && r.value == old(Ahead()) && Ahead() == []
      ensures Roomy() ==> r.Ok?
    {
      r := DrainDue(MAX_I64);
      if r.Ok? {
        assert next.None? by { SessionsOrdered(day); }
      }
    }
  }

  lemma SessionsOrdered(day: int)
    ensures day + SESSIONS[0].0 < day + SESSIONS[0].1 < day + SESSIONS[1].0 < day + SESSIONS[1].1
  {
  }

  // ----- the captured view -----

  /** `SnapshotBookView::from_book`: unquantized means and the `depth` best levels. */
  function Captured(b: Book, depth: nat): Result<View, ViewError> {
    var (totalBid, meanBid) :- AggregateSide(b, Buy);
    var (totalAsk, meanAsk) :- AggregateSide(b, Sell);
    var s := b.statistics;
    Ok(View(TopLevels(b.orders, b.bids, Buy, b.bids.Keys, depth), TopLevels(b.orders, b.asks, Sell, b.asks.Keys, depth),
            totalBid, meanBid, totalAsk, meanAsk,
            s.lastPrice, s.highPrice, s.lowPrice, s.tradeCount, s.totalQuantity, s.turnover))
  }

  /** Capturing a reachable book never fails. */
  lemma CapturedOk(config: BookConfig, steps: seq<Step>, depth: nat)
    ensures Captured(Run(config, steps), depth).Ok?
  {
    hide Run, Book.WellFormed, TopLevels, AggregateSide;
    RunWellFormed(config, steps);
    AggregateSideMean(Run(config, steps), Buy, 1, MAX_I64);
    AggregateSideMean(Run(config, steps), Sell, 1, MAX_I64);
  }

  /** What a captured view says about a reachable book: exact totals, the unquantized mean within
      half a unit and between the side's prices, the best whole levels, best first and all of them
      when there are fewer than `depth`, and the statistics as they are. */
  lemma CapturedExact(config: BookConfig, steps: seq<Step>, depth: nat, side: Side, low: Price, high: Price)
    requires forall p | p in Run(config, steps).LevelsOf(side) :: low <= p <= high
    ensures var b := Run(config, steps);
      var captured := Captured(b, depth);
      && captured.Ok?
      && var view := captured.value;
         var total := if side.Buy? then view.totalBid else view.totalAsk;
         var mean := if side.Buy? then view.weightedBid else view.weightedAsk;
         var shown := if side.Buy? then view.bids else view.asks;
         && total == b.SideTotal(side, false) && (mean.None? <==> total == 0)
         && (mean.Some? ==> low <= mean.value <= high && HalfUp(mean.value, b.SideTotal(side, true), total, 1))
         && |shown| <= depth && WholeLevels(b.orders, b.LevelsOf(side), b.LevelsOf(side).Keys, shown)
         && Ordered(side, shown) && BestFirst(side, shown, b.LevelsOf(side).Keys)
         && (|shown| < depth ==> forall p | p in b.LevelsOf(side) :: Shown(shown, p))
         && view.last == b.statistics.lastPrice && view.high == b.statistics.highPrice
              && view.low == b.statistics.lowPrice
         && view.tradeCount == b.statistics.tradeCount && view.tradeQuantity == b.statistics.totalQuantity
         && view.turnover == b.statistics.turnover
  {
    hide Run, Book.WellFormed, Book.SideTotal, TopLevels, AggregateSide, WholeLevels, Ordered, BestFirst, Shown;
    hide HalfUp;
    var b := Run(config, steps);
    RunWellFormed(config, steps);
    CapturedOk(config, steps, depth);
    AggregateSideMean(b, side, low, high);
    TopLevelsExact(b.orders, b.LevelsOf(side), side, b.LevelsOf(side).Keys, depth);
  }

  // ----- one symbol's snapshots -----

  datatype Snapshot = Snapshot(boundary: int, view: View)

  function Boundaries(snapshots: seq<Snapshot>): seq<int> {
    seq(|snapshots|, i requires 0 <= i < |snapshots| => snapshots[i].boundary)
  }

  /** The view at `boundary` is the one of the run's prefix of exactly the steps timed before it. */
  ghost predicate LeftLimit(config: BookConfig, steps: seq<Step>, times: seq<int>, depth: nat, snapshot: Snapshot)
    requires |times| == |steps|
  {
    exists n: nat :: n <= |steps| && LimitAt(config, steps, times, depth, snapshot, n)
  }

  ghost predicate LimitAt(config: BookConfig, steps: seq<Step>, times: seq<int>, depth: nat, snapshot: Snapshot, n: nat)
    requires |times| == |steps| && n <= |steps|
  {
    && Captured(Run(config, steps[..n]), depth) == Ok(snapshot.view)
    && (forall k | 0 <= k < n :: times[k] < snapshot.boundary)
    && (forall k | n <= k < |times| :: times[k] >= snapshot.boundary)
  }

  /** Every event of the run was quoted at its recorded time. */
  ghost predicate Timed(steps: seq<Step>, times: seq<int>) {
    |times| == |steps| && forall k | 0 <= k < |steps| :: steps[k].Event? ==> steps[k].event.meta.quoteTime == times[k]
  }

  /** Steps timed at or after a snapshot do not disturb it. */
  lemma LeftLimitKept(config: BookConfig, steps: seq<Step>, times: seq<int>, depth: nat, snapshot: Snapshot,
                      more: seq<Step>, later: seq<int>)
    requires |times| == |steps| && |later| == |more| && LeftLimit(config, steps, times, depth, snapshot)
    requires forall k | 0 <= k < |later| :: later[k] >= snapshot.boundary
    ensures LeftLimit(config, steps + more, times + later, depth, snapshot)
  {
    hide Run, Captured;
    var n: nat :| n <= |steps| && LimitAt(config, steps, times, depth, snapshot, n);
    assert (steps + more)[..n] == steps[..n];
    assert LimitAt(config, steps + more, times + later, depth, snapshot, n);
  }

  lemma BoundariesMore(output: seq<Snapshot>, snapshot: Snapshot)
    ensures Boundaries(output + [snapshot]) == Boundaries(output) + [snapshot.boundary]
  {
  }

  /** A book with a snapshot schedule. The ghost run records when each of its steps was quoted. */
  class ScheduledBook {
    ghost const config: BookConfig
    const cursor: SnapshotCursor
    const depth: nat
    var book: Book
    var lastQuote: Option<i64>
    var output: seq<Snapshot>
    ghost var steps: seq<Step>
    ghost var times: seq<int>

    ghost predicate Valid()
      reads this, cursor
    {
      && cursor.Valid() && cursor.day + SESSIONS[1].1 <= MAX_I64
      && book == Run(config, steps)
      && Boundaries(output) + cursor.Ahead() == Grid(cursor.day, 0, cursor.interval)
      && |times| == |steps| && Timed(steps, times)
      && (forall k | 0 <= k < |times| :: lastQuote.Some? && times[k] <= lastQuote.value)
      && (forall i | 0 <= i < |output| :: LeftLimit(config, steps, times, depth, output[i]))
      && (forall i | 0 <= i < |output| :: lastQuote.Some? && output[i].boundary <= lastQuote.value)
      && (cursor.next.Some? && lastQuote.Some? ==> lastQuote.value < cursor.next.value)
    }

    constructor (ghost config: BookConfig, cursor: SnapshotCursor, depth: nat)
      requires cursor.Valid() && cursor.Ahead() == Grid(cursor.day, 0, cursor.interval)
      requires cursor.day + SESSIONS[1].1 <= MAX_I64
      ensures Valid() && output == [] && steps == [] && lastQuote.None?
      ensures this.config == config && this.cursor == cursor && this.depth == depth
    {
      this.config, this.cursor, this.depth := config, cursor, depth;
      book, lastQuote, output := EMPTY, None, [];
      steps, times := [], [];
    }

    /** Capture the book for every boundary due. */
    method Capture(due: seq<int>)
      requires book == Run(config, steps) && |times| == |steps|
      requires forall t, k | t in due && 0 <= k < |times| :: times[k] < t
      requires forall i | 0 <= i < |output| :: LeftLimit(config, steps, times, depth, output[i])
      modifies this`output
      ensures |output| == |old(output)| + |due| && Boundaries(output) == Boundaries(old(output)) + due
      ensures forall i | 0 <= i < |old(output)| :: output[i] == old(output)[i]
      ensures forall i | |old(output)| <= i < |output| :: output[i].boundary in due
      ensures forall i | 0 <= i < |output| :: LeftLimit(config, steps, times, depth, output[i])
    {
      hide Run, Captured, Boundaries;
      CapturedOk(config, steps, depth);
      assert steps[..|steps|] == steps;
      ghost var before := output;
      assert Boundaries(before) + due[..0] == Boundaries(before);
      for i := 0 to |due|
        invariant |output| == |before| + i && Boundaries(output) == Boundaries(before) + due[..i]
        invariant forall k | 0 <= k < |before| :: output[k] == before[k]
        invariant forall k | |before| <= k < |output| :: output[k].boundary in due
        invariant forall k | 0 <= k < |output| :: LeftLimit(config, steps, times, depth, output[k])
      {
        var view := Captured(book, depth);
        var snapshot := Snapshot(due[i], view.value);
        assert due[i] in due;
        assert LimitAt(config, steps, times, depth, snapshot, |steps|);
        BoundariesMore(output, snapshot);
        assert due[..i + 1] == due[..i] + [due[i]];
        output := output + [snapshot];
      }
      assert due[..|due|] == due;
    }

    /** Before each business event or group: with a schedule no time may go back, and every boundary
        up to the event is captured from the book without it. */
    method BeforeBusinessEvent(q: i64) returns (r: Result<(), ViewError>)
      requires Valid()
      modifies this, cursor
      ensures r.Ok? ==> Valid() && lastQuote == Some(q) && steps == old(steps) && times == old(times)
      ensures r.Ok? ==> old(lastQuote).None? || old(lastQuote).value <= q
      ensures cursor.Roomy() && (old(lastQuote).None? || old(lastQuote).value <= q) ==> r.Ok?
    {
      hide Run, LeftLimit, Grid, SessionRest, Timed, Boundaries, SnapshotCursor.Ahead;
      if lastQuote.Some? && q < lastQuote.value {
        return Err(Validation);
      }
      cursor.AheadFromNext();
      ghost var ahead, shown := cursor.Ahead(), Boundaries(output);
      var due := cursor.DrainDue(q);
      if due.Err? {
        return Err(due.error);
      }
      forall t, k | t in due.value && 0 <= k < |times| ensures times[k] < t {
        assert t in ahead;
      }
      Capture(due.value);
      assert shown + ahead == (shown + due.value) + cursor.Ahead();
      lastQuote := Some(q);
      return Ok(());
    }

    /** The event, or all steps of a group: one moment of the announced quote time. */
    method ApplyMoment(next: Book, ghost more: seq<Step>)
      requires Valid() && lastQuote.Some? && next == Run(config, steps + more)
      requires forall k | 0 <= k < |more| :: more[k].Event? ==> more[k].event.meta.quoteTime == lastQuote.value
      modifies this`book, this`steps, this`times
      ensures Valid() && steps == old(steps) + more
    {
      hide Run, LeftLimit, Grid, SessionRest, Boundaries;
      ghost var q: int := lastQuote.value;
      ghost var later := seq(|more|, _ => q);
      forall i | 0 <= i < |output| ensures LeftLimit(config, steps + more, times + later, depth, output[i]) {
        LeftLimitKept(config, steps, times, depth, output[i], more, later);
      }
      book := next;
      steps, times := steps + more, times + later;
    }

    /** The end of the channel: every grid time of the day has its snapshot, once and in order, and
        each shows the book after exactly the events quoted before it. */
    method FinishChannel() returns (r: Result<(), ViewError>)
      requires Valid()
      modifies this`output, cursor
      ensures r.Ok? ==>
        && Boundaries(output) == Grid(cursor.day, 0, cursor.interval) && Ascending(Boundaries(output))
        && Timed(steps, times)
        && forall i | 0 <= i < |output| :: LeftLimit(config, steps, times, depth, output[i])
      ensures cursor.Roomy() ==> r.Ok?
    {
      hide Run, LeftLimit, Grid, SessionRest, Timed, Boundaries;
      cursor.AheadFromNext();
      var due := cursor.Finish();
      if due.Err? {
        return Err(due.error);
      }
      GridAscends(cursor.day, cursor.interval);
      Capture(due.value);
      return Ok(());
    }
  }

  // ----- a whole replay -----

  /** The steps behind the first `n` observations. */
  ghost function StepsAfter(log: seq<Observation>, n: nat): seq<Step>
    requires n <= |log|
  {
    if n == 0 then [] else log[n - 1].steps
  }

  lemma Moment(log: seq<Observation>, n: nat)
    requires Protocol(log) && n < |log|
    ensures log[n].point.AfterEvent? ==>
              && n > 0 && log[n - 1].point == BeforeEvent(log[n].point.q) && StepsAfter(log, n) <= log[n].steps
              && forall k | |StepsAfter(log, n)| <= k < |log[n].steps| :: At(log[n].steps[k], log[n].point.q)
    ensures !log[n].point.AfterEvent? ==> log[n].steps == StepsAfter(log, n)
  {
    assert FollowsAt(log, n);
  }

  /** After `n` observations, none of which went back, the last business time was `last`. */
  ghost predicate TimedUpTo(log: seq<Observation>, n: nat, last: Option<i64>)
    requires n <= |log|
  {
    && InTime(log[..n], last)
    && (n > 0 && log[n - 1].point.BeforeEvent? ==> last == Some(log[n - 1].point.q))
    && (last.Some? ==> exists i :: 0 <= i < n && Quoted(log[i].point) && log[i].point.q == last.value)
  }

  lemma BeforeTimed(log: seq<Observation>, n: nat, last: Option<i64>)
    requires n < |log| && TimedUpTo(log, n, last) && log[n].point.BeforeEvent?
    ensures last.None? || last.value <= log[n].point.q ==> TimedUpTo(log, n + 1, Some(log[n].point.q))
    ensures last.Some? && log[n].point.q < last.value ==> !NeverBack(log)
  {
    assert log[..n + 1] == log[..n] + [log[n]];
    if last.None? || last.value <= log[n].point.q {
      TimedMore(log[..n], last, log[n], Some(log[n].point.q));
    }
  }

  lemma TimedMore(log: seq<Observation>, last: Option<int>, o: Observation, now: Option<int>)
    requires InTime(log, last) && (last.Some? ==> now.Some? && last.value <= now.value)
    requires Quoted(o.point) ==> now == Some(o.point.q) && (last.Some? ==> last.value <= o.point.q)
    ensures InTime(log + [o], now)
  {
    var all := log + [o];
    forall i | 0 <= i < |log| ensures all[i] == log[i] {
    }
  }

  lemma AfterTimed(log: seq<Observation>, n: nat, last: Option<i64>)
    requires n < |log| && TimedUpTo(log, n, last) && Protocol(log) && !log[n].point.BeforeEvent?
    ensures TimedUpTo(log, n + 1, last)
    ensures log[n].point.AfterEvent? ==> last == Some(log[n].point.q)
  {
    hide Protocol;
    Moment(log, n);
    assert log[..n + 1] == log[..n] + [log[n]];
    TimedMore(log[..n], last, log[n], last);
  }

  lemma AllTimed(log: seq<Observation>, last: Option<i64>)
    requires TimedUpTo(log, |log|, last)
    ensures NeverBack(log)
  {
    assert log[..|log|] == log;
  }

  /** Taking the snapshots of a whole replay, from what its observers are shown: it succeeds exactly
      when no business time goes back, and then every grid time of the day has its snapshot, once and
      in order, and each shows the book after exactly the events quoted before it. */
  method Schedule(book: ScheduledBook, log: seq<Observation>, books: seq<Book>) returns (r: Result<(), ViewError>)
    requires book.Valid() && book.steps == [] && book.lastQuote.None? && book.cursor.Roomy() && Protocol(log)
    requires |books| == |log| && forall i | 0 <= i < |log| :: books[i] == Run(book.config, log[i].steps)
    modifies book, book.cursor
    ensures r.Ok? <==> NeverBack(log)
    ensures r.Ok? ==>
      && Boundaries(book.output) == Grid(book.cursor.day, 0, book.cursor.interval) && Ascending(Boundaries(book.output))
      && book.steps == StepsAfter(log, |log|) && Timed(book.steps, book.times)
      && forall i | 0 <= i < |book.output| :: LeftLimit(book.config, book.steps, book.times, book.depth, book.output[i])
  {
    hide Run, LeftLimit, Grid, SessionRest, Timed, Boundaries, Protocol, ScheduledBook.Valid, Ascending, TimedUpTo;
    hide NeverBack;
    NothingTimed(log);
    for n := 0 to |log|
      invariant book.Valid() && book.steps == StepsAfter(log, n) && TimedUpTo(log, n, book.lastQuote)
    {
      Moment(log, n);
      match log[n].point {
        case BeforeEvent(q) =>
          BeforeTimed(log, n, book.lastQuote);
          var announced := book.BeforeBusinessEvent(q);
          if announced.Err? {
            return announced;
          }
        case AfterEvent(q) =>
          AfterTimed(log, n, book.lastQuote);
          ghost var more := log[n].steps[|book.steps|..];
          assert book.steps + more == log[n].steps;
          book.ApplyMoment(books[n], more);
        case _ =>
          AfterTimed(log, n, book.lastQuote);
      }
    }
    AllTimed(log, book.lastQuote);
    r := book.FinishChannel();
  }

  lemma NothingTimed(log: seq<Observation>)
    ensures TimedUpTo(log, 0, None)
  {
  }
}
