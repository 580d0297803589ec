/** One symbol's book while its channel is replayed (src/production/replay.rs): single rows, and the
    group of an order whose fate is open, inside of which observers never look. */
module Runtime {
  import opened Wrappers
  import opened MarketData
  import opened Book
  import opened BookRuns
  import opened Observations
  import opened Spool
  import opened Pending
  import opened Rows
  import opened RowEffects
  import opened Tracking

  /** Floor division: the second a nanosecond time stamp belongs to. */
  function SecondOf(time: int): int {
    time / SECOND
  }

  /** Business times do not go back, except within one second when no snapshots are scheduled. */
  predicate TimeFits(last: Option<i64>, q: i64, hasCursor: bool) {
    last.None? || last.value <= q || (!hasCursor && SecondOf(last.value) == SecondOf(q))
  }

  ghost predicate InSecond(s: int, time: int) {
    s * 1_000_000_000 <= time < s * 1_000_000_000 + 1_000_000_000
  }

  lemma SameSecond(a: int, b: int)
    ensures SecondOf(a) == SecondOf(b) <==> exists s: int :: InSecond(s, a) && InSecond(s, b)
  {
    if SecondOf(a) == SecondOf(b) {
      assert InSecond(SecondOf(a), a) && InSecond(SecondOf(a), b);
    }
  }

  /** The latest business time of the rows. */
  ghost function Watermark(rows: seq<SpoolRow>): Option<i64> {
    if rows == [] then None else Moved(Watermark(rows[..|rows| - 1]), rows[|rows| - 1].common.quoteTime)
  }

  function Moved(last: Option<i64>, q: i64): Option<i64> {
    if last.None? || last.value <= q then Some(q) else last
  }

  lemma {:induction false} WatermarkMore(rows: seq<SpoolRow>, more: seq<SpoolRow>, q: i64)
    requires more != [] && forall row | row in more :: row.common.quoteTime == q
    ensures Watermark(rows + more) == Moved(Watermark(rows), q)
    decreases |more|
  {
    var front, row := more[..|more| - 1], more[|more| - 1];
    assert (rows + more)[..|rows + more| - 1] == rows + front && row in more;
    if front != [] {
      WatermarkMore(rows, front, q);
    } else {
      assert rows + front == rows;
    }
  }

  /** What observers are shown around one event. */
  ghost function Around(q: i64, before: seq<Step>, after: seq<Step>): seq<Observation> {
    [Observation(BeforeEvent(q), before), Observation(AfterEvent(q), after)]
  }

  /** How far a symbol's replay has come. */
  datatype Memory = Memory(steps: seq<Step>, rows: seq<SpoolRow>)

  /** The run with the events of `more` behind it, when each is accepted in its turn. */
  ghost function Extended(env: Env, steps: seq<Step>, rows: seq<SpoolRow>, more: seq<SpoolRow>): Option<seq<Step>> {
    if more == [] then Some(steps)
    else
      var front, row := more[..|more| - 1], more[|more| - 1];
      var reached := Extended(env, steps, rows, front);
      if reached.None? then None
      else
        var b, directory := Run(env.Config(), reached.value), DirectoryOf(env.channel, rows + front);
        if Takes(env, b, directory, row) then Some(reached.value + [Event(EventOf(env, b, directory, row))]) else None
  }

  /** Nothing happened since the observers last saw the book; with a schedule, times never went back. */
  ghost predicate ShownAt(hasCursor: bool, m: Memory, log: seq<Observation>, last: Option<i64>) {
    && Protocol(log) && m.steps == (if log == [] then [] else log[|log| - 1].steps)
    && last == Watermark(m.rows) && (hasCursor ==> InTime(log, last))
  }

  /** An inferred rest is accepted. */
  ghost predicate Restable(env: Env, steps: seq<Step>, row: OrderRow, disposition: Disposition)
    requires row.common.sequence > 0
  {
    disposition.RestAt? ==>
      && disposition.price > 0
      && Run(env.Config(), steps).RestPending(KeyOf(env.channel, row), disposition.price).Ok?
  }

  /** The step that lets a remainder rest. */
  ghost function Completing(env: Env, row: OrderRow, disposition: Disposition): seq<Step>
    requires row.common.sequence > 0
  {
    if disposition.RestAt? && disposition.price > 0 then [Completion(KeyOf(env.channel, row), disposition.price)]
      else []
  }

  ghost predicate RowFits(env: Env, hasCursor: bool, m: Memory, row: SpoolRow) {
    && TimeFits(Watermark(m.rows), row.common.quoteTime, hasCursor)
    && Takes(env, Run(env.Config(), m.steps), DirectoryOf(env.channel, m.rows), row)
  }

  ghost predicate GroupFits(env: Env, hasCursor: bool, m: Memory, row: OrderRow, responses: seq<ExecutionRow>,
                            disposition: Disposition) {
    var reached := Extended(env, m.steps, m.rows, [row] + responses);
    && TimeFits(Watermark(m.rows), row.common.quoteTime, hasCursor)
    && reached.Some? && row.common.sequence > 0 && Restable(env, reached.value, row, disposition)
  }

  lemma {:induction false} ExtendedNone(env: Env, steps: seq<Step>, rows: seq<SpoolRow>, more: seq<SpoolRow>, k: nat)
    requires k <= |more| && Extended(env, steps, rows, more[..k]).None?
    ensures Extended(env, steps, rows, more).None?
    decreases |more|
  {
    hide Run, Takes, EventOf, DirectoryOf;
    if k == |more| {
      assert more[..k] == more;
    } else {
      assert more[..|more| - 1][..k] == more[..k];
      ExtendedNone(env, steps, rows, more[..|more| - 1], k);
    }
  }

  /** Among rows that bring at most one order, nobody else is added. */
  lemma {:induction false} ExtendedAdds(env: Env, steps: seq<Step>, rows: seq<SpoolRow>, more: seq<SpoolRow>,
                                        key: OrderKey)
    requires Extended(env, steps, rows, more).Some?
    requires forall row | row in more && row.OrderRecord? :: row.common.sequence > 0 && KeyOf(env.channel, row) == key
    ensures var reached := Extended(env, steps, rows, more).value;
            steps <= reached && forall k | |steps| <= k < |reached| && AddsHidden(reached[k]) ::
              reached[k].event.orderKey == key
    decreases |more|
  {
    hide Run, DirectoryOf, Book.Apply, Available;
    if more != [] {
      ExtendedAdds(env, steps, rows, more[..|more| - 1], key);
      assert more[|more| - 1] in more;
    }
  }

  /** One more row is accepted or nothing further is. */
  lemma ExtendedMore(env: Env, steps: seq<Step>, rows: seq<SpoolRow>, more: seq<SpoolRow>, k: nat)
    requires k < |more| && Extended(env, steps, rows, more[..k]).Some?
    ensures
      var reached := Extended(env, steps, rows, more[..k]).value;
      var b, directory := Run(env.Config(), reached), DirectoryOf(env.channel, rows + more[..k]);
      if Takes(env, b, directory, more[k])
      then Extended(env, steps, rows, more[..k + 1]) == Some(reached + [Event(EventOf(env, b, directory, more[k]))])
      else Extended(env, steps, rows, more).None?
  {
    hide Run, Takes, EventOf, DirectoryOf;
    assert more[..k + 1][..k] == more[..k];
    if Extended(env, steps, rows, more[..k + 1]).None? {
      ExtendedNone(env, steps, rows, more, k + 1);
    }
  }

  lemma ExtendedFirst(env: Env, steps: seq<Step>, rows: seq<SpoolRow>, row: SpoolRow, more: seq<SpoolRow>)
    ensures var b, directory := Run(env.Config(), steps), DirectoryOf(env.channel, rows);
            if Takes(env, b, directory, row)
            then Extended(env, steps, rows, ([row] + more)[..1])
              == Some(steps + [Event(EventOf(env, b, directory, row))])
            else Extended(env, steps, rows, [row] + more).None?
  {
    hide Run, Takes, EventOf, DirectoryOf;
    var all := [row] + more;
    assert all[..0] == [] && rows + all[..0] == rows;
    ExtendedMore(env, steps, rows, all, 0);
  }

  /** One symbol's book with what the replay remembers beside it. The ghost run is how the book came
      about, the ghost rows are what drove it, and the ghost log is what observers were shown. */
  class BookRuntime {
    const env: Env
    const hasCursor: bool
    var book: Book
    var references: Directory
    var lastQuote: Option<i64>
    ghost var steps: seq<Step>
    ghost var rows: seq<SpoolRow>
    ghost var log: seq<Observation>

    /** The book is the run of exactly the events of the rows and of inferred rests. */
    ghost predicate Valid()
      reads this`book, this`references, this`steps, this`rows
    {
      Driven() && references == DirectoryOf(env.channel, rows)
    }

    ghost predicate Driven()
      reads this`book, this`steps, this`rows
    {
      book == Run(env.Config(), steps) && Drives(env, steps, rows)
    }

    ghost predicate Shown()
      reads this`steps, this`rows, this`log, this`lastQuote
    {
      ShownAt(hasCursor, Recall(), log, lastQuote)
    }

    constructor (env: Env, hasCursor: bool)
      ensures Valid() && Shown() && steps == [] && rows == [] && book == EMPTY && log == [] && lastQuote.None?
      ensures this.env == env && this.hasCursor == hasCursor
    {
      this.env, this.hasCursor := env, hasCursor;
      book, references, lastQuote := EMPTY, map[], None;
      steps, rows, log := [], [], [];
    }

    /** Check a business time; a regression is accepted without moving the watermark. */
    method CheckQuoteTime(q: i64) returns (r: Result<bool, ReplayError>)
      modifies this`lastQuote
      ensures r.Ok? <==> TimeFits(old(lastQuote), q, hasCursor)
      ensures r.Ok? <==>
        || old(lastQuote).None? || old(lastQuote).value <= q
        || (!hasCursor && exists s: int :: InSecond(s, old(lastQuote).value) && InSecond(s, q))
      ensures r.Ok? ==> (r.value <==> old(lastQuote).Some? && q < old(lastQuote).value)
      ensures r.Err? ==> r.error == QuoteTimeRegression
      ensures lastQuote == if r.Ok? && !r.value then Some(q) else old(lastQuote)
    {
      if lastQuote.Some? {
        SameSecond(lastQuote.value, q);
      }
      if lastQuote.Some? && q < lastQuote.value {
        if hasCursor || SecondOf(lastQuote.value) != SecondOf(q) {
          return Err(QuoteTimeRegression);
        }
        return Ok(true);
      }
      lastQuote := Some(q);
      return Ok(false);
    }

    /** Observers see the book before the event; inside a group nobody is told. */
    method BeforeBusinessEvent(q: i64, observed: bool) returns (r: Result<(), ReplayError>)
      modifies this`lastQuote, this`log
      ensures r.Ok? <==> TimeFits(old(lastQuote), q, hasCursor)
      ensures log == old(log) + if r.Ok? && observed then [Observation(BeforeEvent(q), steps)] else []
      ensures lastQuote == if r.Ok? then Moved(old(lastQuote), q) else old(lastQuote)
      ensures r.Err? ==> r.error.QuoteTimeRegression?
    {
      var checked := CheckQuoteTime(q);
      if checked.Err? {
        return Err(checked.error);
      }
      if observed {
        log := log + [Observation(BeforeEvent(q), steps)];
      }
      return Ok(());
    }

    method Meta(c: Common) returns (r: Result<EventMeta, ReplayError>)
      ensures r.Ok? <==> c.sequence > 0 && book.NextApplySequence().Ok?
      ensures r.Ok? ==>
        r.value == EventMeta(env.bookKey, c.sequence, book.NextApplySequence().value, c.localTime, c.quoteTime)
      ensures r.Err? ==> !r.error.AmbiguousSequence?
    {
      if c.sequence == 0 {
        return Err(Normalize);
      }
      var next := book.NextApplySequence();
      if next.Err? {
        return Err(ApplyFailed(next.error));
      }
      return Ok(EventMeta(env.bookKey, c.sequence, next.value, c.localTime, c.quoteTime));
    }

    /** Apply the event of a row; a refused one leaves everything as it was. */
    method ApplyEvent(event: BookEvent, ghost row: SpoolRow) returns (r: Result<(), ReplayError>)
      requires Valid() && Usable(env, book, references, row) && event == EventOf(env, book, references, row)
      modifies this`book, this`steps, this`rows
      ensures Driven()
      ensures r.Ok? <==> Takes(env, old(book), references, row)
      ensures r.Ok? ==> steps == old(steps) + [Event(event)] && rows == old(rows) + [row]
      ensures r.Ok? ==> book == old(book).Apply(env.Config(), event).value.0
      ensures r.Ok? ==> DirectoryOf(env.channel, rows) == Noted(env.channel, references, row)
      ensures r.Err? ==> book == old(book) && steps == old(steps) && rows == old(rows) && r.error.ApplyFailed?
    {
      hide Run, Book.Apply, Drives, Usable, EventOf, DirectoryOf;
      RunStep(env.Config(), steps, Event(event));
      var applied := book.Apply(BookConfig(env.bookKey, Reject), event);
      if applied.Err? {
        return Err(ApplyFailed(applied.error));
      }
      DrivesEvent(env, steps, rows, row, event);
      DirectoryMore(env.channel, rows, row);
      book := applied.value.0;
      steps, rows := steps + [Event(event)], rows + [row];
      return Ok(());
    }

    /** One order row: applied exactly when its time fits and the book accepts its event. */
    method ProcessOrder(row: OrderRow, available: bool, observed: bool) returns (r: Result<(), ReplayError>)
      requires Valid() && available == Available(book, row)
      modifies this
      ensures Valid()
      ensures r.Ok? <==>
        TimeFits(old(lastQuote), row.common.quoteTime, hasCursor) && Takes(env, old(book), old(references), row)
      ensures r.Ok? ==> Applied(row, old(book), old(references), old(steps), old(rows))
      ensures r.Ok? ==> log == old(log) + if observed then Around(row.common.quoteTime, old(steps), steps) else []
      ensures r.Ok? ==> lastQuote == Moved(old(lastQuote), row.common.quoteTime)
      ensures r.Ok? <==> TimeFits(old(lastQuote), row.common.quoteTime, hasCursor) && RowAcceptable(env, old(book), row)
      ensures r.Ok? ==> RowTaken(env, old(book), row, book)
      ensures r.Err? ==> rows == old(rows) && !r.error.AmbiguousSequence?
    {
      hide Run, Book.Apply, Drives, DirectoryOf, Book.Best;
      hide RowAcceptable, RowTaken, Traceable, Book.WellFormed;
      RowAccepted(env, steps, rows, row);
      var before := BeforeBusinessEvent(row.common.quoteTime, observed);
      if before.Err? {
        return before;
      }
      if env.channel == 0 || row.common.sequence == 0 {
        return Err(Normalize);
      }
      var key := KeyOf(env.channel, row);
      if row.orderKind.Limit? && row.price <= 0 {
        return Err(Normalize);
      }
      var meta := Meta(row.common);
      if meta.Err? {
        return Err(meta.error);
      }
      if row.quantity == 0 {
        return Err(Normalize);
      }
      var event := AddOrder(meta.value, key, PricingOf(row, available), CrossingOf(env.policy, row, available),
                            row.quantity);
      var applied := ApplyEvent(event, row);
      if applied.Err? {
        return applied;
      }
      references := references[(SideOf(row.side), row.common.sequence) := key];
      if observed {
        log := log + [Observation(AfterEvent(row.common.quoteTime), steps)];
      }
      return Ok(());
    }

    /** The run went on by exactly the event of `row`. */
    ghost predicate Applied(row: SpoolRow, b: Book, directory: Directory, before: seq<Step>, earlier: seq<SpoolRow>)
      reads this`book, this`references, this`steps, this`rows
    {
      && Takes(env, b, directory, row)
      && steps == before + [Event(EventOf(env, b, directory, row))] && rows == earlier + [row]
      && book == b.Apply(env.Config(), EventOf(env, b, directory, row)).value.0
      && references == Noted(env.channel, directory, row)
    }

    /** One execution row: a trade, or a cancellation of exactly what the order still holds. */
    method ProcessExecution(row: ExecutionRow, observed: bool) returns (r: Result<(), ReplayError>)
      requires Valid()
      modifies this
      ensures Valid()
      ensures r.Ok? <==>
        TimeFits(old(lastQuote), row.common.quoteTime, hasCursor) && Takes(env, old(book), old(references), row)
      ensures r.Ok? ==> Applied(row, old(book), old(references), old(steps), old(rows))
      ensures r.Ok? ==> log == old(log) + if observed then Around(row.common.quoteTime, old(steps), steps) else []
      ensures r.Ok? ==> lastQuote == Moved(old(lastQuote), row.common.quoteTime)
      ensures r.Ok? <==> TimeFits(old(lastQuote), row.common.quoteTime, hasCursor) && RowAcceptable(env, old(book), row)
      ensures r.Ok? ==> RowTaken(env, old(book), row, book)
      ensures r.Err? ==> rows == old(rows) && !r.error.AmbiguousSequence?
    {
      hide Run, Book.Apply, Drives, DirectoryOf;
      hide RowAcceptable, RowTaken, Traceable, Book.WellFormed;
      RowAccepted(env, steps, rows, row);
      var before := BeforeBusinessEvent(row.common.quoteTime, observed);
      if before.Err? {
        return before;
      }
      var event: BookEvent;
      if row.executionKind.Trade? {
        var meta := Meta(row.common);
        if meta.Err? {
          return Err(meta.error);
        }
        if row.price <= 0 || row.quantity == 0 {
          return Err(Normalize);
        }
        event := BookEvent.Trade(meta.value, ReferenceTo(references, Buy, row.bidOrderNo),
                                 ReferenceTo(references, Sell, row.askOrderNo), row.price, row.quantity);
      } else {
        if (row.bidOrderNo == 0) == (row.askOrderNo == 0) {
          return Err(Normalize);
        }
        var at := if row.bidOrderNo > 0 then (Buy, row.bidOrderNo) else (Sell, row.askOrderNo);
        if at !in references || references[at] !in book.orders {
          return Err(Normalize);
        }
        var key := references[at];
        if book.orders[key].remaining != row.quantity {
          return Err(Normalize);
        }
        var meta := Meta(row.common);
        if meta.Err? {
          return Err(meta.error);
        }
        event := OrderCancel(meta.value, key);
      }
      var applied := ApplyEvent(event, row);
      if applied.Err? {
        return applied;
      }
      if observed {
        log := log + [Observation(AfterEvent(row.common.quoteTime), steps)];
      }
      return Ok(());
    }

    /** The order and its responses, one after the other, until one is refused. The shadow quantity
        of the collector and the book's own never part. */
    method ApplyResponses(row: OrderRow, responses: seq<ExecutionRow>, available: bool)
      returns (r: Result<(), ReplayError>)
      requires Valid() && Calm(env.policy, book) && available == Available(book, row)
      requires lastQuote.Some? && row.common.quoteTime <= lastQuote.value
      requires TimeFits(lastQuote, row.common.quoteTime, hasCursor)
      requires CrossingOf(env.policy, row, available).AlwaysHide? && Answers(row, responses)
      modifies this
      ensures Valid() && (r.Ok? ==> log == old(log) && lastQuote == old(lastQuote))
      ensures r.Ok? <==> Extended(env, old(steps), old(rows), [row] + responses).Some?
      ensures r.Err? ==> !r.error.AmbiguousSequence? && StartedOf(rows, old(rows), [row] + responses)
      ensures r.Ok? ==>
        rows == old(rows) + [row] + responses && Some(steps) == Extended(env, old(steps), old(rows), [row] + responses)
      ensures r.Ok? ==> AllAt(old(steps), steps, row.common.quoteTime) && |steps| == |old(steps)| + 1 + |responses|
      ensures r.Ok? ==>
        && row.common.sequence > 0
        && Tracks(book, env.policy != RestAtLastPrice, Some(KeyOf(env.channel, row)),
                  row.quantity - Answered(responses))
    {
      hide Run, Book.Apply, Tracks, AllResting, Answers, Drives, DirectoryOf, Takes, EventOf, Extended;
      hide RowAcceptable, RowTaken;
      hide AllAt, Answered, TakenBy, Registered, CrossingOf, Available, StartedOf;
      ghost var start, earlier, first := steps, rows, book;
      ghost var calm, all := env.policy != RestAtLastPrice, [row] + responses;
      ExtendedFirst(env, start, earlier, row, responses);
      var added := ProcessOrder(row, available, false);
      if added.Err? {
        StartedNothing(rows, all);
        return added;
      }
      OrderHides(env, calm, first, DirectoryOf(env.channel, earlier), row);
      OrderRegistered(env, first, DirectoryOf(env.channel, earlier), row);
      StartAt(start, row.common.quoteTime);
      EventAt(env, first, DirectoryOf(env.channel, earlier), row, start, start);
      var key := KeyOf(env.channel, row);
      NothingAnswered(responses);
      assert rows == earlier + all[..1] && responses[..0] == [];
      for i := 0 to |responses|
        invariant Valid() && Registered(references, Some(key))
        invariant Answered(responses[..i]) <= row.quantity
        invariant Tracks(book, calm, Some(key), row.quantity - Answered(responses[..i]))
        invariant AllAt(start, steps, row.common.quoteTime) && |steps| == |start| + 1 + i
        invariant rows == earlier + all[..i + 1] && Extended(env, start, earlier, all[..i + 1]) == Some(steps)
        invariant log == old(log) && lastQuote == old(lastQuote)
      {
        ghost var reached, middle, had := steps, rows, book;
        assert all[i + 1] == responses[i];
        ResponseTakes(row, responses, i, key);
        ExtendedMore(env, start, earlier, all, i + 1);
        var processed := ProcessExecution(responses[i], false);
        if processed.Err? {
          StartedSome(rows, earlier, all, i + 1);
          return processed;
        }
        ExecutionTakes(env, calm, reached, middle, responses[i], Some(key), row.quantity - Answered(responses[..i]));
        EventAt(env, had, DirectoryOf(env.channel, middle), responses[i], start, reached);
        assert all[..i + 2] == all[..i + 1] + [responses[i]];
      }
      assert responses[..|responses|] == responses && all[..|responses| + 1] == all;
      assert earlier + all == earlier + [row] + responses;
      return Ok(());
    }

    /** What becomes of the remainder: done, or resting where the policy infers it. */
    method Dispose(row: OrderRow, responses: seq<ExecutionRow>, disposition: Disposition, ghost start: seq<Step>,
                   ghost earlier: seq<SpoolRow>)
      returns (r: Result<(), ReplayError>)
      requires Valid() && row.common.sequence > 0 && rows == earlier + [row] + responses
      requires AllAt(start, steps, row.common.quoteTime) && |steps| == |start| + 1 + |responses|
      requires Answered(responses) <= row.quantity
      requires Tracks(book, env.policy != RestAtLastPrice, Some(KeyOf(env.channel, row)),
                      row.quantity - Answered(responses))
      requires disposition.Terminal? <==> Answered(responses) == row.quantity
      requires disposition.RestAt? ==>
        Inferable(env.policy, row, PriceAcross(Run(env.Config(), start), row), responses, disposition.price)
      modifies this`book, this`steps
      ensures Valid()
      ensures r.Ok? <==> Restable(env, old(steps), row, disposition)
      ensures r.Ok? ==>
        steps == old(steps) + Completing(env, row, disposition) && AllAt(start, steps, row.common.quoteTime)
      ensures r.Ok? ==>
        Calm(env.policy, book) && Ended(KeyOf(env.channel, row), row.quantity - Answered(responses), disposition)
      ensures r.Err? ==> !r.error.AmbiguousSequence?
    {
      hide Run, Tracks, AllResting, Book.RestPending, Drives, DirectoryOf, AllAt, Answered, Inferable, Inferred;
      hide PriceAcross;
      var key := KeyOf(env.channel, row);
      if disposition.Terminal? {
        NothingPending(env.policy != RestAtLastPrice, book, key);
        return Ok(());
      }
      if disposition.price <= 0 {
        return Err(Normalize);
      }
      RunStep(env.Config(), steps, Completion(key, disposition.price));
      var rested := book.RestPending(key, disposition.price);
      if rested.Err? {
        return Err(ApplyFailed(rested.error));
      }
      CompletionRests(env.policy != RestAtLastPrice, book, key, disposition.price, row.quantity - Answered(responses));
      InferredRest(env, start, steps, rows, earlier, row, responses, disposition.price);
      DrivesRest(env, steps, rows, key, disposition.price);
      CompletionAt(start, steps, Completion(key, disposition.price), row.common.quoteTime);
      book := rested.value;
      steps := steps + [Completion(key, disposition.price)];
      return Ok(());
    }

    /** An order and its responses, applied as one, exactly when all of them can be: observers see the
        book before the order and after the last response, and at the end the order is gone or rests
        at the inferred price, so that no hidden order outlives its group. What a failed group already
        applied stays applied. */
    method ApplyPendingGroup(row: OrderRow, responses: seq<ExecutionRow>, disposition: Disposition, available: bool)
      returns (r: Result<(), ReplayError>)
      requires Valid() && Shown() && Calm(env.policy, book) && available == Available(book, row)
      requires CrossingOf(env.policy, row, available).AlwaysHide? && Answers(row, responses)
      requires disposition.Terminal? <==> Answered(responses) == row.quantity
      requires disposition.RestAt? ==> Inferable(env.policy, row, PriceAcross(book, row), responses, disposition.price)
      modifies this
      ensures Valid()
      ensures r.Ok? <==> GroupFits(env, hasCursor, old(Recall()), row, responses, disposition)
      ensures r.Err? ==> !r.error.AmbiguousSequence? && StartedOf(rows, old(rows), [row] + responses)
      ensures r.Ok? ==> Shown() && Calm(env.policy, book) && rows == old(rows) + [row] + responses
      ensures r.Ok? ==>
        row.common.sequence > 0 && Ended(KeyOf(env.channel, row), row.quantity - Answered(responses), disposition)
      ensures r.Ok? ==>
        steps == Extended(env, old(steps), old(rows), [row] + responses).value + Completing(env, row, disposition)
      ensures r.Ok? ==> log == old(log) + Around(row.common.quoteTime, old(steps), steps) && old(steps) <= steps
    {
      hide Run, Tracks, AllResting, Answers, Protocol, Drives, DirectoryOf, Takes, Extended, Restable, Completing;
      hide AllAt, Answered, CrossingOf, Inferable, Available, PriceAcross, InTime, StartedOf, Watermark;
      ghost var start, shown, earlier, last := steps, log, rows, lastQuote;
      var q := row.common.quoteTime;
      var before := BeforeBusinessEvent(q, true);
      if before.Err? {
        StartedNothing(rows, [row] + responses);
        return before;
      }
      var answered := ApplyResponses(row, responses, available);
      if answered.Err? {
        return answered;
      }
      AnsweredWithin(row, responses);
      var done := Dispose(row, responses, disposition, start, earlier);
      if done.Err? {
        StartedAll(earlier, row, responses);
        return done;
      }
      log := log + [Observation(AfterEvent(q), steps)];
      GroupShown(shown, start, steps, q);
      GroupTimed(earlier, row, responses);
      StartsThere(start, steps, q);
      if hasCursor {
        TimeGoesOn(shown, last, q, start, steps);
      }
      assert log == shown + Around(q, start, steps);
      return Ok(());
    }

    ghost function Recall(): Memory
      reads this`steps, this`rows
    {
      Memory(steps, rows)
    }

    /** How a group leaves its order. */
    ghost predicate Ended(key: OrderKey, left: int, disposition: Disposition)
      reads this`book
    {
      match disposition
      case Terminal => key !in book.orders
      case RestAt(price) =>
        && key in book.orders && book.orders[key].resting
        && book.orders[key].remaining == left && book.orders[key].price == Some(price)
    }
  }

  /** Nobody is hidden, unless orders may rest at their last trade price. */
  ghost predicate Calm(policy: Policy, b: Book) {
    policy != RestAtLastPrice ==> AllResting(b)
  }

  /** `all` was started on, and some of it is done. */
  ghost predicate StartedOf(now: seq<SpoolRow>, before: seq<SpoolRow>, all: seq<SpoolRow>) {
    exists k: nat :: k <= |all| && now == before + all[..k]
  }

  lemma StartedNothing(now: seq<SpoolRow>, all: seq<SpoolRow>)
    ensures StartedOf(now, now, all)
  {
    assert now == now + all[..0];
  }

  lemma StartedSome(now: seq<SpoolRow>, before: seq<SpoolRow>, all: seq<SpoolRow>, k: nat)
    requires k <= |all| && now == before + all[..k]
    ensures StartedOf(now, before, all)
  {
  }

  lemma StartedAll(before: seq<SpoolRow>, row: OrderRow, responses: seq<ExecutionRow>)
    ensures StartedOf(before + [row] + responses, before, [row] + responses)
  {
    var all: seq<SpoolRow> := [row] + responses;
    assert before + [row] + responses == before + all[..|all|];
  }

  lemma AnsweredWithin(row: OrderRow, responses: seq<ExecutionRow>)
    requires Answers(row, responses)
    ensures Answered(responses) <= row.quantity
  {
  }

  lemma NothingAnswered(rows: seq<ExecutionRow>)
    ensures Answered(rows[..0]) == 0
  {
  }

  /** The run went on from `start` with steps of quote time `q` only. */
  ghost predicate AllAt(start: seq<Step>, now: seq<Step>, q: i64) {
    start <= now && forall k | |start| <= k < |now| :: At(now[k], q)
  }

  /** A row's event is quoted at the row's time. */
  lemma EventAt(env: Env, b: Book, directory: Directory, row: SpoolRow, start: seq<Step>, reached: seq<Step>)
    requires Takes(env, b, directory, row) && AllAt(start, reached, row.common.quoteTime)
    ensures AllAt(start, reached + [Event(EventOf(env, b, directory, row))], row.common.quoteTime)
  {
    hide Book.Apply, Available;
  }

  lemma StartAt(start: seq<Step>, q: i64)
    ensures AllAt(start, start, q)
  {
  }

  lemma StartsThere(start: seq<Step>, now: seq<Step>, q: i64)
    requires AllAt(start, now, q)
    ensures start <= now
  {
  }

  lemma CompletionAt(start: seq<Step>, reached: seq<Step>, step: Step, q: i64)
    requires AllAt(start, reached, q) && step.Completion?
    ensures AllAt(start, reached + [step], q)
  {
  }

  lemma OrderRegistered(env: Env, b: Book, directory: Directory, row: OrderRow)
    requires Takes(env, b, directory, row)
    ensures row.common.sequence > 0 && Registered(Noted(env.channel, directory, row), Some(KeyOf(env.channel, row)))
  {
    hide Book.Apply, EventOf;
  }

  lemma InferredRest(env: Env, start: seq<Step>, steps: seq<Step>, rows: seq<SpoolRow>, earlier: seq<SpoolRow>,
                     order: OrderRow,
                     responses: seq<ExecutionRow>, price: Price)
    requires order.common.sequence > 0 && AllAt(start, steps, order.common.quoteTime)
    requires |steps| == |start| + 1 + |responses| && rows == earlier + [order] + responses
    requires Inferable(env.policy, order, PriceAcross(Run(env.Config(), start), order), responses, price)
    ensures Inferred(env, steps, rows, KeyOf(env.channel, order), price)
  {
    hide Run, Inferable, PriceAcross;
    assert steps[..|steps| - 1 - |responses|] == start;
    assert InferredFrom(env, steps, rows, earlier, order, responses, KeyOf(env.channel, order), price);
  }

  lemma GroupShown(log: seq<Observation>, start: seq<Step>, now: seq<Step>, q: i64)
    requires Protocol(log) && start == (if log == [] then [] else log[|log| - 1].steps) && AllAt(start, now, q)
    ensures Protocol(log + Around(q, start, now))
  {
    var all := log + Around(q, start, now);
    forall i | 0 <= i < |all| ensures FollowsAt(all, i) {
      if i < |log| {
        assert FollowsAt(log, i);
      }
    }
  }

  lemma GroupTimed(rows: seq<SpoolRow>, row: OrderRow, responses: seq<ExecutionRow>)
    requires Answers(row, responses)
    ensures Watermark(rows + [row] + responses) == Moved(Watermark(rows), row.common.quoteTime)
  {
    hide Watermark, Answered, References;
    var all: seq<SpoolRow> := [row] + responses;
    WatermarkMore(rows, all, row.common.quoteTime);
    assert rows + all == rows + [row] + responses;
  }

  lemma TimeGoesOn(log: seq<Observation>, last: Option<i64>, q: i64, start: seq<Step>, now: seq<Step>)
    requires InTime(log, last) && (last.None? || last.value <= q)
    ensures InTime(log + Around(q, start, now), Some(q))
  {
    var all := log + Around(q, start, now);
    forall i, j | 0 <= i < j < |all| && Quoted(all[i].point) && Quoted(all[j].point)
      ensures all[i].point.q <= all[j].point.q
    {
      assert i < |log| ==> all[i] == log[i];
      assert j < |log| ==> all[j] == log[j];
    }
  }
}
