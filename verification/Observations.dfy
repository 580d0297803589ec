/** What observers of a replay are shown (src/production/replay.rs): the book before and after each
    business event or group, and at which business time. */
module Observations {
  import opened Wrappers
  import opened MarketData
  import opened BookRuns

  const MILLISECOND := 1_000_000
  const SECOND := 1_000_000_000

  datatype Point = BeforeEvent(q: i64) | AfterEvent(q: i64) | MarketClose(boundary: i64) | ChannelFinished

  /** The book is observed after the run `steps`. */
  datatype Observation = Observation(point: Point, steps: seq<Step>)

  /** Each observation sees the same run, further on. */
  ghost predicate Growing(observations: seq<Observation>) {
    forall i | 0 < i < |observations| :: observations[i - 1].steps <= observations[i].steps
  }

  ghost predicate Within(step: Step, end: int) {
    step.Event? ==> step.event.meta.quoteTime < end
  }

  ghost predicate At(step: Step, q: int) {
    step.Event? ==> step.event.meta.quoteTime == q
  }

  /** The replay's protocol: the book is observed before and after each business event (or group)
      with quote time `q`, which applies steps of that time, and does not move otherwise. */
  ghost predicate Protocol(observations: seq<Observation>) {
    forall i | 0 <= i < |observations| :: FollowsAt(observations, i)
  }

  ghost predicate FollowsAt(observations: seq<Observation>, i: nat)
    requires i < |observations|
  {
    Follows(if i == 0 then None else Some(observations[i - 1]), observations[i])
  }

  ghost predicate Follows(previous: Option<Observation>, o: Observation) {
    var before := if previous.None? then [] else previous.value.steps;
    match o.point
    case AfterEvent(q) =>
      && previous.Some? && previous.value.point == BeforeEvent(q)
      && before <= o.steps
      && forall k | |before| <= k < |o.steps| :: At(o.steps[k], q)
    case _ => o.steps == before
  }

  predicate Quoted(point: Point) {
    point.BeforeEvent? || point.AfterEvent?
  }

  /** No business time of the log lies before an earlier one. */
  ghost predicate NeverBack(log: seq<Observation>) {
    forall i, j | 0 <= i < j < |log| && Quoted(log[i].point) && Quoted(log[j].point) :: log[i].point.q <= log[j].point.q
  }

  /** ... nor behind `last`. */
  ghost predicate InTime(log: seq<Observation>, last: Option<int>) {
    NeverBack(log) && forall i | 0 <= i < |log| && Quoted(log[i].point) :: last.Some? && log[i].point.q <= last.value
  }
}
