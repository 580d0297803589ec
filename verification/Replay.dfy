/** Replaying one Shenzhen channel (src/production/replay.rs): orders and executions come from two
    streams and are applied in native order, each to the runtime of its symbol. */
module Replay {
  import opened Wrappers
  import opened MarketData
  import opened Book
  import opened BookRuns
  import opened Observations
  import opened Spool
  import opened Pending
  import opened Rows
  import opened Groups
  import opened Runtime
  import RowEffects
  import opened Tracking
  import opened Merging

  function BookKeyOf(tradingDay: nat, symbol: Symbol): BookKey {
    BookKey(Market.Szse, tradingDay, seq(6, i requires 0 <= i < 6 => symbol[i] as char))
  }

  /** An order row, with the executions up to `next` as its group when its fate is open, is accepted. */
  ghost predicate OrderFits(env: Env, hasCursor: bool, m: Memory, row: OrderRow, order: Option<OrderRow>,
                            executions: seq<ExecutionRow>, at: nat, next: nat)
  {
    var b := Run(env.Config(), m.steps);
    if CrossingOf(env.policy, row, Available(b, row)).AlwaysHide? then
      exists d: Disposition ::
        && IsGroup(env.policy, row, PriceAcross(b, row), order, executions, at, next, d)
        && GroupFits(env, hasCursor, m, row, executions[at..next], d)
    else next == at && RowFits(env, hasCursor, m, row)
  }

  /** The order and the executions up to `next` are taken, which all come before the next order. */
  ghost predicate TakenUpTo(now: seq<SpoolRow>, before: seq<SpoolRow>, row: OrderRow, order: Option<OrderRow>,
                            executions: seq<ExecutionRow>, at: nat, next: nat)
  {
    && at <= next <= |executions| && now == before + [row] + executions[at..next]
    && (order.Some? ==> forall k | at <= k < next :: executions[k].common.sequence < order.value.common.sequence)
  }

  /** The runtime's rows are exactly those applied for its symbol. */
  ghost predicate Traced(env: Env, applied: seq<SpoolRow>, symbol: Symbol, rt: BookRuntime)
    reads rt
  {
    rt.env == env && rt.Valid() && rt.rows == Of(applied, symbol)
  }

  /** Between two groups: observers saw everything, nobody is hidden, and unless rests are inferred
      every order that had to take what it found has left. */
  ghost predicate AtRest(env: Env, hasCursor: bool, m: Memory, log: seq<Observation>, last: Option<i64>) {
    && ShownAt(hasCursor, m, log, last) && Calm(env.policy, Run(env.Config(), m.steps))
    && (!env.policy.AssumeContiguous? ==> HiddenGone(m.steps, Run(env.Config(), m.steps)))
  }

  ghost predicate Rested(hasCursor: bool, rt: BookRuntime)
    reads rt
  {
    rt.hasCursor == hasCursor && AtRest(rt.env, hasCursor, rt.Recall(), rt.log, rt.lastQuote)
  }

  lemma Unfold(env: Env, hasCursor: bool, applied: seq<SpoolRow>, symbol: Symbol, rt: BookRuntime)
    requires Traced(env, applied, symbol, rt) && Rested(hasCursor, rt)
    ensures rt.env == env && rt.Valid() && rt.rows == Of(applied, symbol) && rt.hasCursor == hasCursor
    ensures rt.book == Run(env.Config(), rt.steps) && Drives(env, rt.steps, rt.rows)
    ensures rt.references == DirectoryOf(env.channel, rt.rows)
    ensures AtRest(env, hasCursor, rt.Recall(), rt.log, rt.lastQuote) && rt.Shown() && Calm(env.policy, rt.book)
    ensures !env.policy.AssumeContiguous? ==> HiddenGone(rt.steps, rt.book)
  {
    hide Run, Drives, DirectoryOf, Of, Calm, HiddenGone, ShownAt;
  }

  lemma Fold(env: Env, hasCursor: bool, applied: seq<SpoolRow>, symbol: Symbol, rt: BookRuntime)
    requires rt.env == env && rt.Valid() && rt.rows == Of(applied, symbol) && rt.hasCursor == hasCursor
    requires AtRest(env, hasCursor, rt.Recall(), rt.log, rt.lastQuote)
    ensures Traced(env, applied, symbol, rt) && Rested(hasCursor, rt)
  {
    hide AtRest, Of, BookRuntime.Valid;
  }

  lemma FoldRest(env: Env, hasCursor: bool, rt: BookRuntime)
    requires rt.env == env && rt.hasCursor == hasCursor && AtRest(env, hasCursor, rt.Recall(), rt.log, rt.lastQuote)
    ensures Rested(hasCursor, rt)
  {
    hide AtRest;
  }

  lemma NothingRests(env: Env, hasCursor: bool)
    ensures AtRest(env, hasCursor, Memory([], []), [], None)
  {
  }

  /** A row outside any group leaves nobody hidden. */
  lemma RowKeepsCalm(env: Env, m: Memory, row: SpoolRow)
    requires var b := Run(env.Config(), m.steps);
             && Takes(env, b, DirectoryOf(env.channel, m.rows), row) && Calm(env.policy, b)
             && (row.OrderRecord? ==> !CrossingOf(env.policy, row, Available(b, row)).AlwaysHide?)
    ensures var b, directory := Run(env.Config(), m.steps), DirectoryOf(env.channel, m.rows);
            Calm(env.policy, b.Apply(env.Config(), EventOf(env, b, directory, row)).value.0)
  {
    hide Run, Book.Apply, DirectoryOf, EventOf, Takes, AllResting, Available;
    var b, directory := Run(env.Config(), m.steps), DirectoryOf(env.channel, m.rows);
    var calm := env.policy != RestAtLastPrice;
    TakesKind(env, b, directory, row);
    if row.OrderRecord? {
      OrderHides(env, calm, b, directory, row);
    } else {
      CalmTracks(calm, b);
      ExecutionTakes(env, calm, m.steps, m.rows, row, None, 0);
      CalmTracks(calm, b.Apply(env.Config(), EventOf(env, b, directory, row)).value.0);
    }
  }

  lemma TakesKind(env: Env, b: Book, directory: Directory, row: SpoolRow)
    requires Takes(env, b, directory, row)
    ensures row.OrderRecord? || row.ExecutionRecord?
    ensures Usable(env, b, directory, row) && b.Apply(env.Config(), EventOf(env, b, directory, row)).Ok?
  {
    hide Book.Apply, EventOf;
  }

  lemma CalmTracks(calm: bool, b: Book)
    ensures Tracks(b, calm, None, 0) <==> (calm ==> AllResting(b))
  {
  }

  /** Whoever was hidden and is gone stays away when nobody else is hidden behind. */
  lemma StillGone(env: Env, m: Memory, later: seq<Step>)
    requires Drives(env, m.steps, m.rows) && m.steps <= later && HiddenGone(m.steps, Run(env.Config(), m.steps))
    requires forall k | |m.steps| <= k < |later| && AddsHidden(later[k]) ::
      later[k].event.orderKey !in Run(env.Config(), later).orders
    ensures HiddenGone(later, Run(env.Config(), later))
  {
    hide Run, Drives, AddsHidden;
    GoneForGood(env, m.steps, m.rows, later);
    assert forall i | 0 <= i < |m.steps| :: later[i] == m.steps[i];
  }

  /** The event of a row that hides nobody. */
  lemma RowHidesNobody(env: Env, b: Book, directory: Directory, row: SpoolRow)
    requires Usable(env, b, directory, row)
    requires row.OrderRecord? ==> !CrossingOf(env.policy, row, Available(b, row)).AlwaysHide?
    ensures !AddsHidden(Event(EventOf(env, b, directory, row)))
  {
    hide Available;
  }

  /** The run goes on by the events of a row that hides nobody. */
  lemma RowRests(env: Env, hasCursor: bool, m: Memory, log: seq<Observation>, last: Option<i64>, row: SpoolRow,
                 now: Memory)
    requires AtRest(env, hasCursor, m, log, last) && Drives(env, m.steps, m.rows) && RowFits(env, hasCursor, m, row)
    requires row.OrderRecord? ==> !CrossingOf(env.policy, row, Available(Run(env.Config(), m.steps), row)).AlwaysHide?
    requires var event := EventOf(env, Run(env.Config(), m.steps), DirectoryOf(env.channel, m.rows), row);
             now == Memory(m.steps + [Event(event)], m.rows + [row])
    ensures AtRest(env, hasCursor, now, log + Around(row.common.quoteTime, m.steps, now.steps),
                   Moved(last, row.common.quoteTime))
  {
    hide Run, Drives, Protocol, DirectoryOf, EventOf, Takes, InTime, Watermark, Calm, AllAt, HiddenGone, Book.Apply;
    var q := row.common.quoteTime;
    var b, directory := Run(env.Config(), m.steps), DirectoryOf(env.channel, m.rows);
    TakesKind(env, b, directory, row);
    RunStep(env.Config(), m.steps, Event(EventOf(env, b, directory, row)));
    StartAt(m.steps, q);
    EventAt(env, b, directory, row, m.steps, m.steps);
    GroupShown(log, m.steps, now.steps, q);
    WatermarkMore(m.rows, [row], q);
    if hasCursor {
      TimeGoesOn(log, last, q, m.steps, now.steps);
    }
    RowKeepsCalm(env, m, row);
    if !env.policy.AssumeContiguous? {
      RowHidesNobody(env, b, directory, row);
      StillGone(env, m, now.steps);
    }
  }

  /** An order that hides nobody fits on its own. */
  lemma PlainFits(env: Env, hasCursor: bool, m: Memory, row: OrderRow, order: Option<OrderRow>,
                  executions: seq<ExecutionRow>, at: nat)
    requires !CrossingOf(env.policy, row, Available(Run(env.Config(), m.steps), row)).AlwaysHide?
    ensures forall next: nat ::
      OrderFits(env, hasCursor, m, row, order, executions, at, next) <==> next == at && RowFits(env, hasCursor, m, row)
  {
    hide Run, RowFits, Available, CrossingOf;
  }

  lemma TakenAlone(before: seq<SpoolRow>, row: OrderRow, order: Option<OrderRow>, executions: seq<ExecutionRow>,
                   at: nat)
    requires at <= |executions|
    ensures TakenUpTo(before + [row], before, row, order, executions, at, at)
  {
    assert before + [row] + executions[at..at] == before + [row];
  }

  /** Without a group the order does not fit. */
  lemma GroupMisfits(env: Env, hasCursor: bool, m: Memory, row: OrderRow, order: Option<OrderRow>,
                     executions: seq<ExecutionRow>, at: nat)
    requires var b := Run(env.Config(), m.steps);
             && CrossingOf(env.policy, row, Available(b, row)).AlwaysHide?
             && !exists n: nat, d: Disposition ::
                  IsGroup(env.policy, row, PriceAcross(b, row), order, executions, at, n, d)
    ensures forall next: nat :: !OrderFits(env, hasCursor, m, row, order, executions, at, next)
  {
    hide Run, IsGroup, GroupFits, PriceAcross, Available, CrossingOf;
  }

  /** With its group, the order fits when the group does, and in no other way. */
  lemma GroupDecides(env: Env, hasCursor: bool, m: Memory, row: OrderRow, order: Option<OrderRow>,
                     executions: seq<ExecutionRow>,
                     at: nat, next: nat, d: Disposition)
    requires var b := Run(env.Config(), m.steps);
             && CrossingOf(env.policy, row, Available(b, row)).AlwaysHide? && at <= next <= |executions|
             && IsGroup(env.policy, row, PriceAcross(b, row), order, executions, at, next, d)
    ensures GroupFits(env, hasCursor, m, row, executions[at..next], d) ==>
              OrderFits(env, hasCursor, m, row, order, executions, at, next)
    ensures !GroupFits(env, hasCursor, m, row, executions[at..next], d) ==>
              forall n: nat :: !OrderFits(env, hasCursor, m, row, order, executions, at, n)
  {
    hide Run, IsGroup, GroupFits, PriceAcross, Available, CrossingOf;
    var across := PriceAcross(Run(env.Config(), m.steps), row);
    forall n: nat, d': Disposition | IsGroup(env.policy, row, across, order, executions, at, n, d')
      ensures n == next && d' == d
    {
      GroupUnique(env.policy, row, across, order, executions, at, next, d, n, d');
    }
  }

  /** A finished group leaves everything at rest. */
  lemma GroupRests(env: Env, hasCursor: bool, was: Memory, now: Memory, log: seq<Observation>, last: Option<i64>,
                   row: OrderRow,
                   responses: seq<ExecutionRow>, d: Disposition)
    requires Drives(env, was.steps, was.rows) && row.common.sequence > 0
    requires Extended(env, was.steps, was.rows, [row] + responses).Some?
    requires now.steps == Extended(env, was.steps, was.rows, [row] + responses).value + Completing(env, row, d)
    requires !env.policy.AssumeContiguous? ==> HiddenGone(was.steps, Run(env.Config(), was.steps))
    requires ShownAt(hasCursor, now, log, last) && Calm(env.policy, Run(env.Config(), now.steps))
    requires d.Terminal? ==> KeyOf(env.channel, row) !in Run(env.Config(), now.steps).orders
    requires d.RestAt? ==> env.policy.AssumeContiguous?
    ensures AtRest(env, hasCursor, now, log, last)
  {
    hide Run, Drives, ShownAt, Calm, HiddenGone, Extended;
    if !env.policy.AssumeContiguous? {
      ExtendedAdds(env, was.steps, was.rows, [row] + responses, KeyOf(env.channel, row));
      StillGone(env, was, now.steps);
    }
  }

  /** What a group that failed midway had applied. */
  lemma PartTaken(now: seq<SpoolRow>, before: seq<SpoolRow>, row: OrderRow, executions: seq<ExecutionRow>, at: nat,
                  next: nat) returns (part: seq<SpoolRow>, n: nat)
    requires at <= next <= |executions| && StartedOf(now, before, [row] + executions[at..next])
    ensures at <= n <= next && now == before + part && (part == [] || part == [row] + executions[at..n])
  {
    var all: seq<SpoolRow> := [row] + executions[at..next];
    var k: nat :| k <= |all| && now == before + all[..k];
    part, n := all[..k], if k == 0 then at else at + k - 1;
    assert k > 0 ==> part == [row] + executions[at..n];
  }

  class SzChannel {
    const channel: u32
    const policy: Policy
    const tradingDay: nat
    const hasCursor: bool
    var runtimes: map<Symbol, BookRuntime>
    ghost var applied: seq<SpoolRow>
    ghost var repr: set<BookRuntime>

    function EnvOf(symbol: Symbol): Env {
      Env(channel, BookKeyOf(tradingDay, symbol), policy)
    }

    /** Each symbol has its own runtime, whose book is driven by exactly the symbol's applied rows. */
    ghost predicate Intact()
      reads this, repr
    {
      Apart() && (forall s | s in runtimes :: Traced(EnvOf(s), applied, s, runtimes[s]))
    }

    ghost predicate Apart()
      reads this
    {
      && (forall s | s in runtimes :: runtimes[s] in repr)
      && (forall s, t | s in runtimes && t in runtimes && s != t :: runtimes[s] != runtimes[t])
      && (forall s | s !in runtimes :: Of(applied, s) == [])
    }

    ghost predicate Valid()
      reads this, repr
    {
      Intact() && forall s | s in runtimes :: Rested(hasCursor, runtimes[s])
    }

    ghost function Elsewhere(symbol: Symbol): set<BookRuntime>
      reads this
    {
      set s | s in runtimes && s != symbol :: runtimes[s]
    }

    /** All symbols but one are in order. */
    ghost predicate OthersIntact(symbol: Symbol)
      reads this, Elsewhere(symbol)
    {
      Apart() && forall s | s in runtimes && s != symbol :: Traced(EnvOf(s), applied, s, runtimes[s])
    }

    ghost predicate OthersValid(symbol: Symbol)
      reads this, Elsewhere(symbol)
    {
      OthersIntact(symbol) && forall s | s in runtimes && s != symbol :: Rested(hasCursor, runtimes[s])
    }

    lemma Isolate(symbol: Symbol)
      requires Valid() && symbol in runtimes
      ensures OthersValid(symbol) && OthersIntact(symbol) && runtimes[symbol] !in Elsewhere(symbol)
      ensures runtimes[symbol] in repr
      ensures Traced(EnvOf(symbol), applied, symbol, runtimes[symbol]) && Rested(hasCursor, runtimes[symbol])
    {
      hide Traced, Rested, Of;
    }

    lemma IntactToo()
      requires Valid()
      ensures Intact()
    {
    }

    lemma Rejoin(symbol: Symbol)
      requires symbol in runtimes && OthersValid(symbol) && Intact() && Rested(hasCursor, runtimes[symbol])
      ensures Valid()
    {
      hide Traced, Rested, Of;
    }

    ghost function MemoryOf(symbol: Symbol): Memory
      reads this, repr
    {
      if symbol in runtimes && runtimes[symbol] in repr then runtimes[symbol].Recall() else Memory([], [])
    }

    constructor (channel: u32, policy: Policy, tradingDay: nat, hasCursor: bool)
      ensures Valid() && applied == [] && fresh(repr)
      ensures this.channel == channel && this.policy == policy && this.tradingDay == tradingDay
      ensures this.hasCursor == hasCursor
    {
      this.channel, this.policy, this.tradingDay, this.hasCursor := channel, policy, tradingDay, hasCursor;
      runtimes, applied, repr := map[], [], {};
    }

    /** The runtime of a symbol, made when the symbol is first met. */
    method RuntimeOf(symbol: Symbol) returns (rt: BookRuntime)
      requires Valid()
      modifies this`runtimes, this`repr
      ensures Valid() && fresh(repr - old(repr))
      ensures symbol in runtimes && runtimes[symbol] == rt && rt.Recall() == old(MemoryOf(symbol))
    {
      hide Of, Traced, Rested, AtRest, BookRuntime.Valid, BookRuntime.Shown, SzChannel.Valid;
      ApartToo();
      if symbol in runtimes {
        return runtimes[symbol];
      }
      rt := new BookRuntime(EnvOf(symbol), hasCursor);
      NothingRests(EnvOf(symbol), hasCursor);
      Fold(EnvOf(symbol), hasCursor, applied, symbol, rt);
      runtimes := runtimes[symbol := rt];
      repr := repr + {rt};
      Created(symbol, rt);
    }

    lemma ApartToo()
      requires Valid()
      ensures Apart()
    {
      hide Of;
    }

    /** A new runtime leaves the others alone. */
    twostate lemma Created(symbol: Symbol, new rt: BookRuntime)
      requires old(Valid()) && symbol !in old(runtimes) && fresh(rt)
      requires runtimes == old(runtimes)[symbol := rt] && repr == old(repr) + {rt} && applied == old(applied)
      requires forall known | known in old(repr) :: unchanged(known)
      requires Traced(EnvOf(symbol), applied, symbol, rt) && Rested(hasCursor, rt)
      ensures Valid()
    {
      hide Of, Traced, Rested;
    }

    /** Log what one runtime has taken. */
    ghost method Append(symbol: Symbol, rt: BookRuntime, more: seq<SpoolRow>)
      requires symbol in runtimes && runtimes[symbol] == rt && rt.env == EnvOf(symbol) && OthersIntact(symbol)
      requires rt.Valid() && rt.rows == Of(applied, symbol) + more
      requires forall row | row in more :: row.common.symbol == symbol
      modifies this`applied
      ensures Intact() && applied == old(applied) + more
      ensures old(OthersValid(symbol)) ==> OthersValid(symbol)
    {
      hide Of, BookRuntime.Valid, Rested;
      forall s ensures Of(applied + more, s) == Of(applied, s) + if symbol == s then more else [] {
        OfMore(applied, more, symbol, s);
      }
      applied := applied + more;
    }

    /** An execution that no pending order was waiting for. */
    method TakeExecution(row: ExecutionRow) returns (r: Result<(), ReplayError>)
      requires Valid()
      modifies this, repr
      ensures Intact() && fresh(repr - old(repr))
      ensures r.Ok? <==> RowFits(EnvOf(row.common.symbol), hasCursor, old(MemoryOf(row.common.symbol)), row)
      ensures r.Ok? ==> Valid() && applied == old(applied) + [row]
      ensures r.Err? ==> applied == old(applied) && !r.error.AmbiguousSequence?
    {
      hide SzChannel.Valid, SzChannel.Intact, SzChannel.OthersIntact, SzChannel.OthersValid;
      hide Of, Traced, Rested, AtRest, Drives, DirectoryOf, Run, Takes, EventOf, Book.Apply, Watermark, Protocol;
      hide InTime;
      var symbol := row.common.symbol;
      var rt := RuntimeOf(symbol);
      Isolate(symbol);
      Unfold(EnvOf(symbol), hasCursor, applied, symbol, rt);
      ghost var was, shown, last := rt.Recall(), rt.log, rt.lastQuote;
      var processed := rt.ProcessExecution(row, true);
      if processed.Err? {
        Append(symbol, rt, []);
        return processed;
      }
      RowRests(rt.env, hasCursor, was, shown, last, row, rt.Recall());
      Append(symbol, rt, [row]);
      FoldRest(EnvOf(symbol), hasCursor, rt);
      Rejoin(symbol);
      return Ok(());
    }

    /** Apply a collected group; what a failed one already applied stays applied. */
    method CompleteGroup(rt: BookRuntime, row: OrderRow, executions: seq<ExecutionRow>, at: nat, next: nat,
                         group: PendingGroup, available: bool)
      returns (r: Result<(), ReplayError>)
      requires Valid() && at <= next <= |executions| && row.common.symbol in runtimes
      requires runtimes[row.common.symbol] == rt
      requires available == Available(rt.book, row) && CrossingOf(policy, row, available).AlwaysHide?
      requires group.responses == executions[at..next] && Answers(row, group.responses)
      requires group.disposition.Terminal? <==> Answered(group.responses) == row.quantity
      requires group.disposition.RestAt? ==>
        policy.AssumeContiguous? && Inferable(policy, row, PriceAcross(rt.book, row), group.responses,
                                              group.disposition.price)
      requires forall k | at <= k < next :: executions[k].common.symbol == row.common.symbol
      modifies this`applied, rt
      ensures Intact()
      ensures r.Ok? <==>
        GroupFits(EnvOf(row.common.symbol), hasCursor, old(rt.Recall()), row, group.responses, group.disposition)
      ensures r.Ok? ==> Valid() && applied == old(applied) + [row] + executions[at..next]
      ensures r.Err? ==> !r.error.AmbiguousSequence?
      ensures r.Err? ==>
        applied == old(applied) || exists n: nat ::
          at <= n <= next && applied == old(applied) + [row] + executions[at..n]
    {
      hide SzChannel.Valid, SzChannel.Intact, SzChannel.OthersIntact, SzChannel.OthersValid;
      hide Of, Traced, Rested, AtRest, Drives, DirectoryOf, Run, Takes, EventOf, Extended, Watermark, Protocol, InTime;
      hide Completing, Restable, HiddenGone, StartedOf, Answers, Answered, Inferable, CrossingOf, Book.Best, Available;
      hide PriceAcross;
      var symbol := row.common.symbol;
      Isolate(symbol);
      Unfold(EnvOf(symbol), hasCursor, applied, symbol, rt);
      ghost var was, before, all: seq<SpoolRow> := rt.Recall(), applied, [row] + group.responses;
      var done := rt.ApplyPendingGroup(row, group.responses, group.disposition, available);
      if done.Err? {
        ghost var part, n := PartTaken(rt.rows, was.rows, row, executions, at, next);
        Append(symbol, rt, part);
        assert part == [] || applied == before + [row] + executions[at..n];
        return done;
      }
      GroupRests(rt.env, hasCursor, was, rt.Recall(), rt.log, rt.lastQuote, row, group.responses, group.disposition);
      assert was.rows + all == was.rows + [row] + group.responses;
      Append(symbol, rt, all);
      FoldRest(EnvOf(symbol), hasCursor, rt);
      Rejoin(symbol);
      return Ok(());
    }

    /** An order whose fate is open, with its group. */
    method TakeGroup(rt: BookRuntime, row: OrderRow, order: Option<OrderRow>, executions: seq<ExecutionRow>, at: nat,
                     available: bool)
      returns (r: Result<nat, ReplayError>)
      requires Valid() && at <= |executions| && row.common.symbol in runtimes && runtimes[row.common.symbol] == rt
      requires available == Available(rt.book, row) && CrossingOf(policy, row, available).AlwaysHide?
      modifies this`applied, rt
      ensures Intact()
      ensures r.Ok? ==>
        OrderFits(EnvOf(row.common.symbol), hasCursor, old(rt.Recall()), row, order, executions, at, r.value)
      ensures r.Err? ==> forall next: nat ::
        !OrderFits(EnvOf(row.common.symbol), hasCursor, old(rt.Recall()), row, order, executions, at, next)
      ensures r.Ok? ==> Valid() && TakenUpTo(applied, old(applied), row, order, executions, at, r.value)
      ensures r.Err? ==>
        applied == old(applied) || exists next: nat ::
          TakenUpTo(applied, old(applied), row, order, executions, at, next)
      ensures r.Err? && r.error.AmbiguousSequence? ==>
        order.Some? && exists e :: e in executions && e.common.sequence == order.value.common.sequence
    {
      hide SzChannel.Valid, SzChannel.Intact, SzChannel.OthersIntact, SzChannel.OthersValid;
      hide Of, Traced, Rested, AtRest, Drives, DirectoryOf, Run, OrderFits;
      hide IsGroup, GroupFits, Answers, Answered, Inferable, CrossingOf, Book.Best;
      var symbol := row.common.symbol;
      Isolate(symbol);
      Unfold(EnvOf(symbol), hasCursor, applied, symbol, rt);
      IntactToo();
      ghost var was, before, env := rt.Recall(), applied, rt.env;
      var best := rt.book.Best(SideOf(row.side).Opposite());
      ghost var across := PriceAcross(rt.book, row);
      var collected := CollectPendingGroup(policy, row, if best.Some? then Some(best.value as i64) else None, order,
                                           executions, at);
      if collected.Err? {
        GroupMisfits(env, hasCursor, was, row, order, executions, at);
        return Err(collected.error);
      }
      var group, next := collected.value.0, collected.value.1;
      GroupOf(policy, row, across, order, executions, at, next, group.disposition);
      GroupDecides(env, hasCursor, was, row, order, executions, at, next, group.disposition);
      var done := CompleteGroup(rt, row, executions, at, next, group, available);
      if done.Err? {
        if applied != before {
          ghost var n: nat :| at <= n <= next && applied == before + [row] + executions[at..n];
          assert TakenUpTo(applied, before, row, order, executions, at, n);
        }
        return Err(done.error);
      }
      return Ok(next);
    }

    /** An order, with its group when its fate is open; answers how far the executions were used. */
    method TakeOrder(row: OrderRow, order: Option<OrderRow>, executions: seq<ExecutionRow>, at: nat)
      returns (r: Result<nat, ReplayError>)
      requires Valid() && at <= |executions|
      modifies this, repr
      ensures Intact() && fresh(repr - old(repr))
      ensures r.Ok? ==>
        OrderFits(EnvOf(row.common.symbol), hasCursor, old(MemoryOf(row.common.symbol)), row, order, executions, at,
                  r.value)
      ensures r.Err? ==> forall next: nat ::
        !OrderFits(EnvOf(row.common.symbol), hasCursor, old(MemoryOf(row.common.symbol)), row, order, executions, at,
                   next)
      ensures r.Ok? ==> Valid() && TakenUpTo(applied, old(applied), row, order, executions, at, r.value)
      ensures r.Err? ==>
        applied == old(applied) || exists next: nat ::
          TakenUpTo(applied, old(applied), row, order, executions, at, next)
      ensures r.Err? && r.error.AmbiguousSequence? ==>
        order.Some? && exists e :: e in executions && e.common.sequence == order.value.common.sequence
    {
      hide SzChannel.Valid, SzChannel.Intact, SzChannel.OthersIntact, SzChannel.OthersValid, OrderFits, TakenUpTo;
      hide Of, Traced, Rested, AtRest, Drives, DirectoryOf, Run, Takes, EventOf, Book.Apply, Watermark, Protocol;
      hide InTime;
      hide Book.Best;
      var symbol := row.common.symbol;
      var rt := RuntimeOf(symbol);
      Isolate(symbol);
      Unfold(EnvOf(symbol), hasCursor, applied, symbol, rt);
      ghost var was, shown, last := rt.Recall(), rt.log, rt.lastQuote;
      var available := row.orderKind.SameSideBest? && rt.book.Best(SideOf(row.side)).Some?;
      if (row.orderKind.Market? && policy != RestAtLastPrice) || (row.orderKind.SameSideBest? && !available) {
        r := TakeGroup(rt, row, order, executions, at, available);
      } else {
        PlainFits(rt.env, hasCursor, was, row, order, executions, at);
        TakenAlone(applied, row, order, executions, at);
        var done := rt.ProcessOrder(row, available, true);
        if done.Err? {
          Append(symbol, rt, []);
          return Err(done.error);
        }
        RowRests(rt.env, hasCursor, was, shown, last, row, rt.Recall());
        Append(symbol, rt, [row]);
        FoldRest(EnvOf(symbol), hasCursor, rt);
        Rejoin(symbol);
        return Ok(at);
      }
    }

    /** The next row is an order. */
    method NextOrder(orders: seq<OrderRow>, i: nat, executions: seq<ExecutionRow>, j: nat)
      returns (r: Result<(nat, nat), ReplayError>)
      requires Valid() && Merged(applied, orders, i, executions, j) && Increasing(orders) && Increasing(executions)
      requires i < |orders| && j <= |executions|
      requires (j < |executions| ==> orders[i].common.sequence < executions[j].common.sequence)
      modifies this, repr
      ensures Intact() && fresh(repr - old(repr))
      ensures r.Ok? ==> Valid() && r.value.0 == i + 1 && j <= r.value.1 <= |executions|
      ensures r.Ok? ==> Merged(applied, orders, r.value.0, executions, r.value.1)
      ensures r.Err? ==> PartlyMerged(applied, orders, executions) && RefusedOrder(
          EnvOf(orders[i].common.symbol), hasCursor, orders, executions,
            Stop(old(applied), i, j, old(MemoryOf(orders[i].common.symbol))))
      ensures r.Err? && r.error.AmbiguousSequence? ==> !Disjoint(orders, executions)
    {
      hide SzChannel.Valid, SzChannel.Intact, Merged, Disjoint, Increasing, OrderFits, RefusedOrder, TakenUpTo;
      hide PartlyMerged;
      IntactToo();
      ghost var symbol, before := orders[i].common.symbol, applied;
      ghost var stop := Stop(applied, i, j, MemoryOf(symbol));
      MemoryTraced(symbol);
      var next := TakeOrder(orders[i], Following(orders, i), executions, j);
      if next.Err? {
        OrderStops(before, applied, orders, i, executions, j);
        OrderRefused(EnvOf(symbol), hasCursor, orders, executions, stop);
        if next.error.AmbiguousSequence? {
          SharedFollowing(orders, i, executions);
        }
        return Err(next.error);
      }
      OrderMerges(before, applied, orders, i, executions, j, next.value);
      UpToBounds(applied, before, orders[i], Following(orders, i), executions, j, next.value);
      return Ok((i + 1, next.value));
    }

    /** The next row is an execution. */
    method NextExecution(orders: seq<OrderRow>, i: nat, executions: seq<ExecutionRow>, j: nat)
      returns (r: Result<(nat, nat), ReplayError>)
      requires Valid() && Merged(applied, orders, i, executions, j) && Increasing(executions)
      requires i <= |orders| && j < |executions|
      requires (i < |orders| ==> executions[j].common.sequence < orders[i].common.sequence)
      modifies this, repr
      ensures Intact() && fresh(repr - old(repr))
      ensures r.Ok? ==> Valid() && r.value == (i, j + 1) && Merged(applied, orders, i, executions, j + 1)
      ensures r.Err? ==> !r.error.AmbiguousSequence? && PartlyMerged(applied, orders, executions)
      ensures r.Err? ==> RefusedExecution(
          EnvOf(executions[j].common.symbol), hasCursor, executions,
            Stop(old(applied), i, j, old(MemoryOf(executions[j].common.symbol))))
    {
      hide SzChannel.Valid, SzChannel.Intact, Merged, Increasing, RowFits, RefusedExecution, PartlyMerged;
      IntactToo();
      ghost var symbol := executions[j].common.symbol;
      ghost var stop := Stop(applied, i, j, MemoryOf(symbol));
      MergedExecution(applied, orders, i, executions, j);
      MergedPartly(applied, orders, i, executions, j);
      MemoryTraced(symbol);
      var taken := TakeExecution(executions[j]);
      if taken.Err? {
        ExecutionRefused(EnvOf(symbol), hasCursor, executions, stop);
        return Err(taken.error);
      }
      return Ok((i, j + 1));
    }

    /** The lower of the next rows of both streams, an order with its group. */
    method TakeNext(orders: seq<OrderRow>, i: nat, executions: seq<ExecutionRow>, j: nat)
      returns (r: Result<(nat, nat), ReplayError>, ghost stop: Stop)
      requires Valid() && Merged(applied, orders, i, executions, j) && Increasing(orders) && Increasing(executions)
      requires i <= |orders| && j <= |executions| && (i < |orders| || j < |executions|)
      modifies this, repr
      ensures Intact() && fresh(repr - old(repr))
      ensures r.Ok? ==>
        Valid() && i <= r.value.0 <= |orders| && j <= r.value.1 <= |executions| && i + j < r.value.0 + r.value.1
      ensures r.Ok? ==> Merged(applied, orders, r.value.0, executions, r.value.1)
      ensures r.Err? ==> PartlyMerged(applied, orders, executions)
      ensures r.Err? ==> Refused(channel, tradingDay, policy, hasCursor, orders, executions, stop)
      ensures r.Err? && r.error.AmbiguousSequence? ==> !Disjoint(orders, executions)
    {
      hide SzChannel.Valid, SzChannel.Intact, Merged, Disjoint, Increasing, RefusedOrder, RefusedExecution;
      hide PartlyMerged;
      IntactToo();
      MergedPartly(applied, orders, i, executions, j);
      stop := Stop(applied, i, j, Memory([], []));
      if i < |orders| && j < |executions| && orders[i].common.sequence == executions[j].common.sequence {
        SharedRow(orders, executions, i, j);
        return Err(AmbiguousSequence(orders[i].common.sequence)), stop;
      }
      if i < |orders| && (j == |executions| || orders[i].common.sequence < executions[j].common.sequence) {
        stop := Stop(applied, i, j, MemoryOf(orders[i].common.symbol));
        r := NextOrder(orders, i, executions, j);
      } else {
        stop := Stop(applied, i, j, MemoryOf(executions[j].common.symbol));
        r := NextExecution(orders, i, executions, j);
      }
    }

    /** The whole channel. A replay that ends well has applied exactly the rows of both streams, which
        then share no sequence, in strictly increasing order, and every symbol's book is the run of
        exactly its own rows' events. One that fails has a reason: the streams overlap, or the next
        row cannot be accepted after the rows before it; what was applied is still the merged front
        of both streams, and the books are still those of their rows. */
    method ReplayRows(orders: seq<OrderRow>, executions: seq<ExecutionRow>)
      returns (r: Result<(), ReplayError>, ghost stop: Stop)
      requires Valid() && applied == [] && Increasing(orders) && Increasing(executions)
      modifies this, repr
      ensures Intact() && PartlyMerged(applied, orders, executions)
      ensures r.Ok? ==> Valid() && SortedUnion(applied, orders, executions) && Disjoint(orders, executions)
      ensures r.Err? ==> Refused(channel, tradingDay, policy, hasCursor, orders, executions, stop)
      ensures r.Err? && r.error.AmbiguousSequence? ==> !Disjoint(orders, executions)
    {
      hide SzChannel.Valid, SzChannel.Intact, Merged, SortedUnion, Disjoint, Increasing, Refused;
      var i: nat, j: nat := 0, 0;
      stop := Stop([], 0, 0, Memory([], []));
      NothingMerged(orders, executions);
      while i < |orders| || j < |executions|
        invariant Valid() && fresh(repr - old(repr)) && i <= |orders| && j <= |executions|
        invariant Merged(applied, orders, i, executions, j)
        decreases |orders| - i + |executions| - j
      {
        var next;
        next, stop := TakeNext(orders, i, executions, j);
        if next.Err? {
          return Err(next.error), stop;
        }
        i, j := next.value.0, next.value.1;
      }
      IntactToo();
      AllMerged(applied, orders, executions);
      UnionDisjoint(applied, orders, executions);
      return Ok(()), stop;
    }

    /** What a symbol remembers was driven by its rows. */
    lemma MemoryTraced(symbol: Symbol)
      requires Intact()
      ensures MemoryOf(symbol).rows == Of(applied, symbol)
      ensures Drives(EnvOf(symbol), MemoryOf(symbol).steps, MemoryOf(symbol).rows)
    {
      hide Of, Run, DirectoryOf, Becomes, Inferred;
    }
  }

  /** Where a replay stopped: the rows taken, the next of each stream, and what the symbol of the
      refused row remembered. */
  datatype Stop = Stop(taken: seq<SpoolRow>, i: nat, j: nat, m: Memory)

  ghost predicate Remembers(env: Env, stop: Stop, symbol: Symbol) {
    stop.m.rows == Of(stop.taken, symbol) && Drives(env, stop.m.steps, stop.m.rows)
  }

  function Following(orders: seq<OrderRow>, i: nat): Option<OrderRow> {
    if i + 1 < |orders| then Some(orders[i + 1]) else None
  }

  ghost predicate RefusedOrder(env: Env, hasCursor: bool, orders: seq<OrderRow>, executions: seq<ExecutionRow>,
                               stop: Stop)
    requires stop.i < |orders|
  {
    && Remembers(env, stop, orders[stop.i].common.symbol)
    && forall next: nat ::
         !OrderFits(env, hasCursor, stop.m, orders[stop.i], Following(orders, stop.i), executions, stop.j, next)
  }

  ghost predicate RefusedExecution(env: Env, hasCursor: bool, executions: seq<ExecutionRow>, stop: Stop)
    requires stop.j < |executions|
  {
    && Remembers(env, stop, executions[stop.j].common.symbol)
    && !RowFits(env, hasCursor, stop.m, executions[stop.j])
  }

  /** The replay could not go on: the next rows share a sequence, or the lower one is not accepted. */
  ghost predicate Refused(channel: u32, day: nat, policy: Policy, hasCursor: bool, orders: seq<OrderRow>,
                          executions: seq<ExecutionRow>,
                          stop: Stop)
  {
    var i, j := stop.i, stop.j;
    && Merged(stop.taken, orders, i, executions, j) && (i < |orders| || j < |executions|)
    && (if i < |orders| && j < |executions| && orders[i].common.sequence == executions[j].common.sequence then true
        else if i < |orders| && (j == |executions| || orders[i].common.sequence < executions[j].common.sequence) then
          RefusedOrder(Env(channel, BookKeyOf(day, orders[i].common.symbol), policy), hasCursor, orders, executions,
                       stop)
        else
          RefusedExecution(Env(channel, BookKeyOf(day, executions[j].common.symbol), policy), hasCursor, executions,
                           stop))
  }

  lemma UpToBounds(now: seq<SpoolRow>, before: seq<SpoolRow>, row: OrderRow, order: Option<OrderRow>,
                   executions: seq<ExecutionRow>,
                   at: nat, next: nat)
    requires TakenUpTo(now, before, row, order, executions, at, next)
    ensures at <= next <= |executions|
  {
  }

  lemma MergedPartly(applied: seq<SpoolRow>, orders: seq<SpoolRow>, i: nat, executions: seq<SpoolRow>, j: nat)
    requires Merged(applied, orders, i, executions, j)
    ensures PartlyMerged(applied, orders, executions)
  {
  }

  lemma OrderRefused(env: Env, hasCursor: bool, orders: seq<OrderRow>, executions: seq<ExecutionRow>, stop: Stop)
    requires stop.i < |orders| && Remembers(env, stop, orders[stop.i].common.symbol)
    requires forall next: nat ::
      !OrderFits(env, hasCursor, stop.m, orders[stop.i], Following(orders, stop.i), executions, stop.j, next)
    ensures RefusedOrder(env, hasCursor, orders, executions, stop)
  {
    hide OrderFits, Remembers;
  }

  lemma ExecutionRefused(env: Env, hasCursor: bool, executions: seq<ExecutionRow>, stop: Stop)
    requires stop.j < |executions| && Remembers(env, stop, executions[stop.j].common.symbol)
    requires !RowFits(env, hasCursor, stop.m, executions[stop.j])
    ensures RefusedExecution(env, hasCursor, executions, stop)
  {
    hide RowFits, Remembers;
  }

  lemma SharedFollowing(orders: seq<OrderRow>, i: nat, executions: seq<ExecutionRow>)
    requires Following(orders, i).Some?
    requires exists e :: e in executions && e.common.sequence == Following(orders, i).value.common.sequence
    ensures !Disjoint(orders, executions)
  {
    var e :| e in executions && e.common.sequence == orders[i + 1].common.sequence;
    var k :| 0 <= k < |executions| && executions[k] == e;
    SharedRow(orders, executions, i + 1, k);
  }

  lemma OrderMerges(before: seq<SpoolRow>, now: seq<SpoolRow>, orders: seq<OrderRow>, i: nat,
                    executions: seq<ExecutionRow>, j: nat, next: nat)
    requires Merged(before, orders, i, executions, j) && Increasing(orders) && Increasing(executions) && i < |orders|
    requires j < |executions| ==> orders[i].common.sequence < executions[j].common.sequence
    requires TakenUpTo(now, before, orders[i], Following(orders, i), executions, j, next)
    ensures Merged(now, orders, i + 1, executions, next)
  {
    hide Merged, Increasing;
    MergedOrder(before, orders, i, executions, j);
    MergedGroup(before + [orders[i]], orders, i + 1, executions, j, next);
  }

  lemma OrderStops(before: seq<SpoolRow>, now: seq<SpoolRow>, orders: seq<OrderRow>, i: nat,
                   executions: seq<ExecutionRow>, j: nat)
    requires Merged(before, orders, i, executions, j) && Increasing(orders) && Increasing(executions) && i < |orders|
    requires j < |executions| ==> orders[i].common.sequence < executions[j].common.sequence
    requires now == before || exists next: nat ::
      TakenUpTo(now, before, orders[i], Following(orders, i), executions, j, next)
    ensures PartlyMerged(now, orders, executions)
  {
    hide Merged, Increasing, TakenUpTo;
    if now != before {
      var next: nat :| TakenUpTo(now, before, orders[i], Following(orders, i), executions, j, next);
      OrderMerges(before, now, orders, i, executions, j, next);
    }
  }

  /** A finished replay is a function of its two streams: unless rests are inferred, replaying them
      again gives every symbol the same run and the same book. */
  lemma SameStreamsSameBooks(c: SzChannel, d: SzChannel, orders: seq<OrderRow>, executions: seq<ExecutionRow>,
                             symbol: Symbol)
    requires c.Valid() && d.Valid() && c.channel == d.channel && c.tradingDay == d.tradingDay && c.policy == d.policy
    requires !c.policy.AssumeContiguous? && symbol in c.runtimes && symbol in d.runtimes
    requires SortedUnion(c.applied, orders, executions) && SortedUnion(d.applied, orders, executions)
    ensures c.applied == d.applied && c.runtimes[symbol].steps == d.runtimes[symbol].steps
    ensures c.runtimes[symbol].book == d.runtimes[symbol].book
  {
    hide Of, Rested, Drives, Run, DirectoryOf, Increasing;
    UnionUnique(c.applied, d.applied);
    RowsDecide(c.EnvOf(symbol), c.runtimes[symbol].steps, d.runtimes[symbol].steps, c.runtimes[symbol].rows);
  }

  /** The book of a symbol after a replay is what the symbol's rows of both streams add up to: their last
      row, the statistics of their trades, and of every order what its row brought less what the
      executions took. */
  lemma BookAccounts(c: SzChannel, symbol: Symbol)
    requires c.Intact() && symbol in c.runtimes
    ensures RowEffects.Accounts(c.EnvOf(symbol), c.runtimes[symbol].book, Of(c.applied, symbol))
    ensures var key := c.EnvOf(symbol).bookKey;
            key.market == Market.Szse && key.tradingDay == c.tradingDay && |key.symbol| == 6
            && forall i | 0 <= i < 6 :: key.symbol[i] == symbol[i] as char
  {
    hide Of, Rested, Drives, Run, DirectoryOf;
    RowEffects.RunAccounts(c.EnvOf(symbol), c.runtimes[symbol].steps, c.runtimes[symbol].rows);
  }
}
