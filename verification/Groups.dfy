/** The immediate executions of an order whose fate is open (src/production/replay.rs): which ones
    they are, and that they are collected without touching a book. */
module Groups {
  import opened Wrappers
  import opened MarketData
  import opened Pending
  import opened Rows

  datatype PendingGroup = PendingGroup(responses: seq<ExecutionRow>, disposition: Disposition)

  /** The executions from `at` to `next` answer the order, and come before the next order. */
  ghost predicate Responds(row: OrderRow, oppositeBest: Option<i64>, order: Option<OrderRow>,
                           executions: seq<ExecutionRow>,
                           at: nat, next: nat)
  {
    && at <= next <= |executions| && Answers(row, executions[at..next])
    && (oppositeBest.None? ==> forall k | at <= k < next :: executions[k].executionKind.Cancel?)
    && (order.Some? ==> forall k | at <= k < next :: executions[k].common.sequence < order.value.common.sequence)
  }

  /** The group can take no more: everything is answered, or the next execution is not its own. */
  ghost predicate Ends(row: OrderRow, order: Option<OrderRow>, executions: seq<ExecutionRow>, at: nat, next: nat)
    requires at <= next <= |executions|
  {
    next == |executions| ||
    (&& (order.Some? ==> order.value.common.sequence != executions[next].common.sequence)
     && (|| Answered(executions[at..next]) == row.quantity
         || (order.Some? && order.value.common.sequence < executions[next].common.sequence)
         || !References(row, executions[next])))
  }

  /** The least sequence left in both streams. */
  ghost predicate IsBoundary(order: Option<OrderRow>, executions: seq<ExecutionRow>, next: nat, sequence: nat) {
    && (order.Some? ==> sequence <= order.value.common.sequence)
    && (next < |executions| ==> sequence <= executions[next].common.sequence)
    && ((order.Some? && order.value.common.sequence == sequence)
        || (next < |executions| && executions[next].common.sequence == sequence))
  }

  /** What is to become of the order: it is done, or the policy may infer where the rest stands. */
  ghost predicate Decided(policy: Policy, row: OrderRow, oppositeBest: Option<i64>, order: Option<OrderRow>,
                          executions: seq<ExecutionRow>, at: nat, next: nat, disposition: Disposition)
    requires at <= next <= |executions|
  {
    match disposition
    case Terminal => Answered(executions[at..next]) == row.quantity
    case RestAt(price) =>
      && Inferable(policy, row, oppositeBest, executions[at..next], price)
      && IsBoundary(order, executions, next, row.common.sequence + (next - at) + 1)
  }

  /** The one group that belongs to the order. */
  ghost predicate IsGroup(policy: Policy, row: OrderRow, oppositeBest: Option<i64>, order: Option<OrderRow>,
                          executions: seq<ExecutionRow>, at: nat, next: nat, disposition: Disposition)
  {
    && Responds(row, oppositeBest, order, executions, at, next)
    && Ends(row, order, executions, at, next)
    && Decided(policy, row, oppositeBest, order, executions, at, next, disposition)
  }

  lemma {:induction false} AnsweredGrows(responses: seq<ExecutionRow>, k: nat)
    requires k <= |responses| && forall i | 0 <= i < |responses| :: responses[i].quantity > 0
    ensures k < |responses| ==> Answered(responses[..k]) < Answered(responses)
    decreases |responses|
  {
    if k < |responses| {
      var before := responses[..|responses| - 1];
      AnsweredGrows(before, k);
      assert before[..k] == responses[..k];
      assert k == |before| ==> before[..k] == before;
    }
  }

  /** The front of an answer is an answer that is not yet complete. */
  lemma AnswersFront(row: OrderRow, responses: seq<ExecutionRow>, k: nat)
    requires Answers(row, responses) && k < |responses|
    ensures Answers(row, responses[..k]) && Answered(responses[..k]) < row.quantity
  {
    hide Answered, References, OtherReference;
    AnsweredGrows(responses, k);
    var front := responses[..k];
    assert forall i | 0 <= i < |front| :: front[i] == responses[i];
  }

  /** The front of a group's responses responds, and does not end it. */
  lemma RespondsFront(row: OrderRow, oppositeBest: Option<i64>, order: Option<OrderRow>, executions: seq<ExecutionRow>,
                      at: nat, k: nat, next: nat)
    requires Responds(row, oppositeBest, order, executions, at, next) && at <= k < next
    ensures Responds(row, oppositeBest, order, executions, at, k) && !Ends(row, order, executions, at, k)
    ensures Responds(row, oppositeBest, order, executions, at, k + 1)
  {
    hide Answers, Answered, References;
    var all := executions[at..next];
    AnswersFront(row, all, k - at);
    assert all[..k - at] == executions[at..k] && all[k - at] == executions[k];
    AnswerReferences(row, all, k - at);
    if k + 1 < next {
      AnswersFront(row, all, k + 1 - at);
      assert all[..k + 1 - at] == executions[at..k + 1];
    }
  }

  lemma AnswerReferences(row: OrderRow, responses: seq<ExecutionRow>, k: nat)
    requires Answers(row, responses) && k < |responses|
    ensures References(row, responses[k])
  {
  }

  /** No group ends behind `next` when the responses must end there or cannot go on. */
  lemma NoGroupBehind(row: OrderRow, oppositeBest: Option<i64>, order: Option<OrderRow>, executions: seq<ExecutionRow>,
                      at: nat, next: nat)
    requires at <= next <= |executions|
    requires Ends(row, order, executions, at, next) || !Responds(row, oppositeBest, order, executions, at, next + 1)
    ensures forall n: nat | Responds(row, oppositeBest, order, executions, at, n) :: n <= next
  {
    hide Responds, Ends;
    forall n: nat | Responds(row, oppositeBest, order, executions, at, n) ensures n <= next {
      if n > next {
        RespondsFront(row, oppositeBest, order, executions, at, next, n);
      }
    }
  }

  /** A group does not end where one more response follows. */
  lemma NotEndedEarlier(row: OrderRow, oppositeBest: Option<i64>, order: Option<OrderRow>,
                        executions: seq<ExecutionRow>, at: nat, next: nat)
    requires Responds(row, oppositeBest, order, executions, at, next)
    ensures forall n: nat | at <= n < next :: !Ends(row, order, executions, at, n)
  {
    hide Responds, Ends;
    RespondsAt(row, oppositeBest, order, executions, at, next);
    forall n: nat | at <= n < next ensures !Ends(row, order, executions, at, n) {
      RespondsFront(row, oppositeBest, order, executions, at, n, next);
    }
  }

  /** Consume exactly the responses of one order from the execution stream: well when there is a
      group of the order, which then is the only one. The books are not touched. */
  method CollectPendingGroup(policy: Policy, row: OrderRow, oppositeBest: Option<i64>, order: Option<OrderRow>,
                             executions: seq<ExecutionRow>, at: nat)
    returns (r: Result<(PendingGroup, nat), ReplayError>)
    requires at <= |executions|
    ensures r.Ok? <==> exists n: nat, d: Disposition :: IsGroup(policy, row, oppositeBest, order, executions, at, n, d)
    ensures r.Ok? ==>
      var (group, next) := r.value;
      && IsGroup(policy, row, oppositeBest, order, executions, at, next, group.disposition)
      && group.responses == executions[at..next]
    ensures r.Err? && r.error.AmbiguousSequence? ==>
      order.Some? && exists e :: e in executions && e.common.sequence == order.value.common.sequence
  {
    hide Answers, Answered, References, IsBoundary, Responds, Inferable;
    var pending := new PendingOrder(row, oppositeBest);
    var next := at;
    RespondsNothing(row, oppositeBest, order, executions, at);
    while next < |executions|
      invariant at <= next <= |executions| && fresh(pending) && pending.Valid()
      invariant pending.order == row && pending.initialBest == oppositeBest
      invariant pending.history == executions[at..next]
      invariant Responds(row, oppositeBest, order, executions, at, next)
      decreases |executions| - next
    {
      var execution := executions[next];
      if order.Some? && order.value.common.sequence == execution.common.sequence {
        assert execution in executions;
        NotRespondsMore(row, oppositeBest, order, executions, at, next);
        NoGroup(policy, row, oppositeBest, order, executions, at, next);
        return Err(AmbiguousSequence(execution.common.sequence));
      }
      if pending.remaining == 0 || (order.Some? && order.value.common.sequence < execution.common.sequence)
         || !References(row, execution) {
        break;
      }
      var observed := pending.Observe(execution);
      RespondsMore(row, oppositeBest, order, executions, at, next);
      if observed.Err? {
        NoGroup(policy, row, oppositeBest, order, executions, at, next);
        return Err(UnresolvedOrder(observed.error));
      }
      next := next + 1;
    }
    assert Ends(row, order, executions, at, next);
    var following: Option<u64> :=
      if order.Some? && (next == |executions| || order.value.common.sequence < executions[next].common.sequence)
      then Some(order.value.common.sequence)
      else if next < |executions| then Some(executions[next].common.sequence) else None;
    var disposition := pending.Finish(policy, following);
    FinishDecides(policy, row, oppositeBest, order, executions, at, next, following, disposition);
    if disposition.Err? {
      OneGroup(policy, row, oppositeBest, order, executions, at, next);
      return Err(UnresolvedOrder(disposition.error));
    }
    assert IsGroup(policy, row, oppositeBest, order, executions, at, next, disposition.value);
    return Ok((PendingGroup(executions[at..next], disposition.value), next));
  }

  lemma RespondsNothing(row: OrderRow, oppositeBest: Option<i64>, order: Option<OrderRow>,
                        executions: seq<ExecutionRow>, at: nat)
    requires at <= |executions|
    ensures Responds(row, oppositeBest, order, executions, at, at)
  {
    assert executions[at..at] == [];
  }

  /** One more execution responds exactly when it continues the answer. */
  lemma RespondsMore(row: OrderRow, oppositeBest: Option<i64>, order: Option<OrderRow>, executions: seq<ExecutionRow>,
                     at: nat, next: nat)
    requires next < |executions| && Responds(row, oppositeBest, order, executions, at, next)
    ensures Responds(row, oppositeBest, order, executions, at, next + 1) <==>
      && Answers(row, executions[at..next] + [executions[next]])
      && (executions[next].executionKind.Trade? ==> oppositeBest.Some?)
      && (order.Some? ==> executions[next].common.sequence < order.value.common.sequence)
    ensures executions[at..next + 1] == executions[at..next] + [executions[next]]
  {
    hide Answers;
    assert executions[at..next + 1] == executions[at..next] + [executions[next]];
  }

  lemma NotRespondsMore(row: OrderRow, oppositeBest: Option<i64>, order: Option<OrderRow>,
                        executions: seq<ExecutionRow>, at: nat, next: nat)
    requires next < |executions| && Responds(row, oppositeBest, order, executions, at, next)
    requires order.Some? && order.value.common.sequence == executions[next].common.sequence
    ensures !Responds(row, oppositeBest, order, executions, at, next + 1)
  {
    hide Answers;
  }

  /** When the responses can neither end nor go on, there is no group. */
  lemma NoGroup(policy: Policy, row: OrderRow, oppositeBest: Option<i64>, order: Option<OrderRow>,
                executions: seq<ExecutionRow>,
                at: nat, next: nat)
    requires at <= next <= |executions|
    requires Responds(row, oppositeBest, order, executions, at, next) && !Ends(row, order, executions, at, next)
    requires !Responds(row, oppositeBest, order, executions, at, next + 1)
    ensures !exists n: nat, d: Disposition :: IsGroup(policy, row, oppositeBest, order, executions, at, n, d)
  {
    hide Responds, Ends, Decided;
    RespondsAt(row, oppositeBest, order, executions, at, next);
    NoGroupBehind(row, oppositeBest, order, executions, at, next);
    NotEndedEarlier(row, oppositeBest, order, executions, at, next);
    forall n: nat, d: Disposition ensures !IsGroup(policy, row, oppositeBest, order, executions, at, n, d) {
      RespondsAt(row, oppositeBest, order, executions, at, n);
    }
  }

  lemma RespondsAt(row: OrderRow, oppositeBest: Option<i64>, order: Option<OrderRow>, executions: seq<ExecutionRow>,
                   at: nat, n: nat)
    ensures Responds(row, oppositeBest, order, executions, at, n) ==> at <= n <= |executions|
  {
  }

  /** Where the responses end, any group ends. */
  lemma OneGroup(policy: Policy, row: OrderRow, oppositeBest: Option<i64>, order: Option<OrderRow>,
                 executions: seq<ExecutionRow>,
                 at: nat, next: nat)
    requires at <= next <= |executions|
    requires Responds(row, oppositeBest, order, executions, at, next) && Ends(row, order, executions, at, next)
    requires forall d: Disposition :: !Decided(policy, row, oppositeBest, order, executions, at, next, d)
    ensures !exists n: nat, d: Disposition :: IsGroup(policy, row, oppositeBest, order, executions, at, n, d)
  {
    hide Responds, Ends, Decided;
    RespondsAt(row, oppositeBest, order, executions, at, next);
    NoGroupBehind(row, oppositeBest, order, executions, at, next);
    NotEndedEarlier(row, oppositeBest, order, executions, at, next);
    forall n: nat, d: Disposition ensures !IsGroup(policy, row, oppositeBest, order, executions, at, n, d) {
      RespondsAt(row, oppositeBest, order, executions, at, n);
    }
  }

  /** The disposition found is the one there is. */
  lemma FinishDecides(policy: Policy, row: OrderRow, oppositeBest: Option<i64>, order: Option<OrderRow>,
                      executions: seq<ExecutionRow>,
                      at: nat, next: nat, following: Option<u64>, r: Result<Disposition, Unresolved>)
    requires at <= next <= |executions| && Answers(row, executions[at..next])
    requires following == if order.Some? && (next == |executions|
                                             || order.value.common.sequence < executions[next].common.sequence)
                          then Some(order.value.common.sequence)
                          else if next < |executions| then Some(executions[next].common.sequence) else None
    requires r == Ok(Terminal) <==> Answered(executions[at..next]) == row.quantity
    requires r.Ok? && r.value.RestAt? <==>
      && oppositeBest.Some? && Inferable(policy, row, oppositeBest, executions[at..next], oppositeBest.value)
      && following == Some(row.common.sequence + (next - at) + 1)
    requires r.Ok? && r.value.RestAt? ==> r.value.price == oppositeBest.value
    ensures r.Ok? ==> Decided(policy, row, oppositeBest, order, executions, at, next, r.value)
    ensures r.Err? ==> forall d: Disposition :: !Decided(policy, row, oppositeBest, order, executions, at, next, d)
  {
    hide Answers, Answered, TradedAt;
    assert |executions[at..next]| == next - at;
  }

  /** There is one group at most. */
  lemma GroupUnique(policy: Policy, row: OrderRow, oppositeBest: Option<i64>, order: Option<OrderRow>,
                    executions: seq<ExecutionRow>,
                    at: nat, next: nat, d: Disposition, next': nat, d': Disposition)
    requires IsGroup(policy, row, oppositeBest, order, executions, at, next, d)
    requires IsGroup(policy, row, oppositeBest, order, executions, at, next', d')
    ensures next == next' && d == d'
  {
    hide Responds, Ends, Answers, Answered, TradedAt;
    RespondsAt(row, oppositeBest, order, executions, at, next);
    RespondsAt(row, oppositeBest, order, executions, at, next');
    NoGroupBehind(row, oppositeBest, order, executions, at, next);
    NoGroupBehind(row, oppositeBest, order, executions, at, next');
  }

  /** What a group's responses are. */
  lemma GroupOf(policy: Policy, row: OrderRow, oppositeBest: Option<i64>, order: Option<OrderRow>,
                executions: seq<ExecutionRow>,
                at: nat, next: nat, d: Disposition)
    requires IsGroup(policy, row, oppositeBest, order, executions, at, next, d)
    ensures at <= next <= |executions| && Answers(row, executions[at..next])
    ensures d.Terminal? <==> Answered(executions[at..next]) == row.quantity
    ensures d.RestAt? ==>
      policy.AssumeContiguous? && Inferable(policy, row, oppositeBest, executions[at..next], d.price)
    ensures order.Some? ==> forall k | at <= k < next :: executions[k].common.sequence < order.value.common.sequence
    ensures forall k | at <= k < next :: executions[k].common.symbol == row.common.symbol
  {
    hide Answered, TradedAt;
    var responses := executions[at..next];
    forall k | at <= k < next ensures executions[k].common.symbol == row.common.symbol {
      assert References(row, responses[k - at]);
    }
  }
}
