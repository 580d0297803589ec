/** What a whole sequence of observations decides about one reference: which states of the book
    were candidates, which of them is recorded, and that none of them looks past the window. */
module Windows {
  import opened Wrappers
  import opened MarketData
  import opened Book
  import opened BookRuns
  import opened Observations
  import opened Views
  import opened Candidate
  import opened Comparison

  datatype CandidateState = CandidateState(steps: seq<Step>, time: int)

  predicate InWindow(w: Window, time: int, point: Point) {
    match point
    case BeforeEvent(q) => time - w.lookback <= q
    case AfterEvent(q) => time - w.lookback <= q < time + w.lookahead
    case MarketClose(_) => false
    case ChannelFinished => true
  }

  predicate Closes(w: Window, time: int, point: Point) {
    match point
    case BeforeEvent(q) => time - w.lookback <= q && time + w.lookahead <= q
    case AfterEvent(q) => time - w.lookback <= q && time + w.lookahead <= q
    case MarketClose(_) => false
    case ChannelFinished => true
  }

  function CandidateTime(w: Window, time: int, point: Point): int {
    if (point.BeforeEvent? || point.AfterEvent?) && point.q < time + w.lookahead then point.q
    else time + w.lookahead - MILLISECOND
  }

  ghost predicate Closed(w: Window, time: int, observations: seq<Observation>) {
    exists i :: 0 <= i < |observations| && Closes(w, time, observations[i].point)
  }

  /** The states of the book observed inside the window, up to the observation that closes it. */
  ghost function Candidates(w: Window, time: int, observations: seq<Observation>): seq<CandidateState> {
    if observations == [] then []
    else
      var before, last := observations[..|observations| - 1], observations[|observations| - 1];
      Candidates(w, time, before)
        + if !Closed(w, time, before) && InWindow(w, time, last.point)
          then [CandidateState(last.steps, CandidateTime(w, time, last.point))] else []
  }

  /** All observations, one after the other, by the plain comparison. */
  ghost function Outcome(quantum: nat, config: BookConfig, w: Window, r: Reference,
                         observations: seq<Observation>): (o: Result<Reference, ViewError>)
    requires quantum > 0 && ReferenceValid(r)
    ensures o.Ok? ==> ReferenceValid(o.value) && o.value.time == r.time
  {
    if observations == [] then Ok(r)
    else
      var last := observations[|observations| - 1];
      var before :- Outcome(quantum, config, w, r, observations[..|observations| - 1]);
      var o := Observed(quantum, w, before, Run(config, last.steps), last.point);
      if o.Ok? then ObservedShape(quantum, w, before, Run(config, last.steps), last.point); o else o
  }

  // ----- which candidate is recorded -----

  /** The differences between a reference and one candidate state. */
  ghost function DifferencesAt(quantum: nat, config: BookConfig, r: Reference, c: CandidateState): seq<Difference>
    requires quantum > 0 && ReferenceValid(r) && r.view.Some?
  {
    var full := FullView(Run(config, c.steps), quantum);
    if full.Err? then [] else Found(quantum, r.view.value, r.missingReception, full.value)
  }

  /** The candidate's view agrees with the reference in every field. */
  ghost predicate Clean(quantum: nat, config: BookConfig, r: Reference, c: CandidateState)
    requires quantum > 0 && ReferenceValid(r) && r.view.Some?
  {
    var full := FullView(Run(config, c.steps), quantum);
    full.Ok? && Agrees(quantum, r.view.value.Expand(), r.missingReception, full.value)
  }

  /** What is found at a candidate lists its disagreements, and is nothing when there is none. */
  lemma FoundAt(quantum: nat, config: BookConfig, r: Reference, c: CandidateState)
    requires quantum > 0 && ReferenceValid(r) && r.view.Some? && FullView(Run(config, c.steps), quantum).Ok?
    ensures var view := FullView(Run(config, c.steps), quantum).value;
            ListsExactly(DifferencesAt(quantum, config, r, c), quantum, r.view.value.Expand(), r.missingReception, view)
    ensures DifferencesAt(quantum, config, r, c) == [] <==> Clean(quantum, config, r, c)
  {
    hide Run, FullView, Found, Agrees, ListsExactly;
    FoundExact(quantum, r.view.value, r.missingReception, FullView(Run(config, c.steps), quantum).value);
  }

  ghost predicate MatchedAt(quantum: nat, config: BookConfig, r: Reference, s: AnchorState, c: seq<CandidateState>,
                            k: nat)
    requires quantum > 0 && ReferenceValid(r) && r.view.Some?
  {
    && k < |c| && Clean(quantum, config, r, c[k])
    && (forall j | 0 <= j < k :: !Clean(quantum, config, r, c[j]))
    && s.matchedTime == Some(c[k].time) && Recorded(s, Run(config, c[k].steps).lastMeta)
    && s.best.None? && PrecisionNoted(s.turnover, r, FullView(Run(config, c[k].steps), quantum).value)
  }

  /** The match remembers the last event of its book. */
  ghost predicate Recorded(s: AnchorState, last: Option<EventMeta>) {
    match last
    case None => s.matchedRaw.None? && s.matchedApply.None?
    case Some(meta) => s.matchedRaw == Some(meta.rawSequence) && s.matchedApply == Some(meta.applySequence)
  }

  /** A turnover that was explained by its precision is noted with both values and the unit. */
  ghost predicate PrecisionNoted(noted: Option<TurnoverPrecisionAudit>, r: Reference, actual: View)
    requires r.view.Some?
  {
    if TurnoverExplained(r.missingReception, r.view.value.turnover, actual.turnover) then
      && noted.Some? && noted.value.actualUnits == actual.turnover
      && noted.value.referenceUnits == r.view.value.turnover
      && RoundsTo(noted.value.quantumUnits, r.view.value.turnover, actual.turnover)
    else noted.None?
  }

  ghost predicate BestAt(quantum: nat, config: BookConfig, r: Reference, s: AnchorState, c: seq<CandidateState>, k: nat)
    requires quantum > 0 && ReferenceValid(r) && r.view.Some?
  {
    && k < |c| && s.best == Some(DifferencesAt(quantum, config, r, c[k]))
    && (forall j | 0 <= j < k :: |DifferencesAt(quantum, config, r, c[k])| < |DifferencesAt(quantum, config, r, c[j])|)
    && (forall j | k < j < |c| ::
        |DifferencesAt(quantum, config, r, c[k])| <= |DifferencesAt(quantum, config, r, c[j])|)
    && s.bestTime == Some(c[k].time) && BestRecorded(s, Run(config, c[k].steps).lastMeta)
  }

  ghost predicate BestRecorded(s: AnchorState, last: Option<EventMeta>) {
    match last
    case None => s.bestRaw.None?
    case Some(meta) => s.bestRaw == Some(meta.rawSequence)
  }

  /** A reference is matched when some candidate agrees with it, and by the first that does; until
      then it remembers the first of the candidates with the fewest differences. */
  ghost predicate Judged(quantum: nat, config: BookConfig, r: Reference, s: AnchorState, c: seq<CandidateState>)
    requires quantum > 0 && ReferenceValid(r) && r.view.Some?
  {
    && (s.matched <==> exists k: nat :: k < |c| && Clean(quantum, config, r, c[k]))
    && (s.matched ==> exists k: nat :: MatchedAt(quantum, config, r, s, c, k))
    && (!s.matched ==> s.turnover.None? && (s.best.None? <==> c == []))
    && (!s.matched && c != [] ==> exists k: nat :: BestAt(quantum, config, r, s, c, k))
  }

  lemma JudgedMatched(quantum: nat, config: BookConfig, r: Reference, s: AnchorState, c: seq<CandidateState>,
                      x: CandidateState)
    requires quantum > 0 && ReferenceValid(r) && r.view.Some? && s.matched && Judged(quantum, config, r, s, c)
    ensures Judged(quantum, config, r, s, c + [x])
  {
    hide Clean, DifferencesAt, Run;
    var k: nat :| MatchedAt(quantum, config, r, s, c, k);
    assert (c + [x])[k] == c[k];
    assert MatchedAt(quantum, config, r, s, c + [x], k);
  }

  lemma PrecisionIsNoted(r: Reference, actual: View)
    requires r.view.Some?
    ensures PrecisionNoted(TurnoverPrecision(r.missingReception, r.view.value.turnover, actual.turnover), r, actual)
  {
    hide TurnoverPrecision, TurnoverExplained, RoundsTo;
    PrecisionExplains(r.missingReception, r.view.value.turnover, actual.turnover);
    PrecisionTold(r.missingReception, r.view.value.turnover, actual.turnover);
  }

  lemma JudgedStep(quantum: nat, config: BookConfig, r: Reference, now: Reference, c: seq<CandidateState>,
                   x: CandidateState)
    requires quantum > 0 && ReferenceValid(r) && r.view.Some?
    requires ReferenceValid(now) && now == r.(state := now.state) && !now.state.finalized
    requires Judged(quantum, config, r, now.state, c)
    requires Compared(quantum, now, Run(config, x.steps), x.time).Ok?
    ensures var next := Compared(quantum, now, Run(config, x.steps), x.time).value;
            next == r.(state := next.state) && Judged(quantum, config, r, next.state, c + [x])
            && next.state.finalized == next.state.matched
  {
    hide FullView, Found, TurnoverPrecision, Run, Agrees, ListsExactly;
    hide PrecisionNoted;
    FoundAt(quantum, config, r, x);
    PrecisionIsNoted(r, FullView(Run(config, x.steps), quantum).value);
    var next := Compared(quantum, now, Run(config, x.steps), x.time).value;
    var found := DifferencesAt(quantum, config, r, x);
    var all := c + [x];
    assert all[|c|] == x && forall j | 0 <= j < |c| :: all[j] == c[j];
    if found == [] {
      assert MatchedAt(quantum, config, r, next.state, all, |c|);
    } else if c == [] {
      assert BestAt(quantum, config, r, next.state, all, 0);
    } else {
      var k: nat :| BestAt(quantum, config, r, now.state, c, k);
      if |found| < |DifferencesAt(quantum, config, r, c[k])| {
        assert BestAt(quantum, config, r, next.state, all, |c|);
      } else {
        assert BestAt(quantum, config, r, next.state, all, k);
      }
    }
  }

  /** The outcome of any observations, told by their candidates alone. */
  lemma {:induction false} OutcomeJudged(quantum: nat, config: BookConfig, w: Window, r: Reference,
                                         observations: seq<Observation>)
    requires quantum > 0 && ReferenceValid(r) && r.view.Some? && r.state == FRESH
    requires Outcome(quantum, config, w, r, observations).Ok?
    ensures var o := Outcome(quantum, config, w, r, observations).value;
      && o == r.(state := o.state)
      && Judged(quantum, config, r, o.state, Candidates(w, r.time, observations))
      && (o.state.finalized <==> o.state.matched || Closed(w, r.time, observations))
  {
    hide Judged, Compared, Run;
    if observations == [] {
      Unjudged(quantum, config, r);
    } else {
      var before, last := observations[..|observations| - 1], observations[|observations| - 1];
      OutcomeJudged(quantum, config, w, r, before);
      var now := Outcome(quantum, config, w, r, before).value;
      var c := Candidates(w, r.time, before);
      var x := CandidateState(last.steps, CandidateTime(w, r.time, last.point));
      ClosedStep(w, r.time, observations);
      if now.state.finalized {
        if now.state.matched {
          JudgedMatched(quantum, config, r, now.state, c, x);
        }
        assert c + [] == c;
      } else if InWindow(w, r.time, last.point) {
        ObservedCompares(quantum, w, now, Run(config, last.steps), last.point);
        JudgedStep(quantum, config, r, now, c, x);
        var next := Compared(quantum, now, Run(config, x.steps), x.time).value;
        JudgedFinal(quantum, config, r, next.state, c + [x]);
      } else {
        assert c + [] == c;
        JudgedFinal(quantum, config, r, now.state, c);
      }
    }
  }

  lemma Unjudged(quantum: nat, config: BookConfig, r: Reference)
    requires quantum > 0 && ReferenceValid(r) && r.view.Some?
    ensures Judged(quantum, config, r, FRESH, [])
  {
  }

  lemma JudgedFinal(quantum: nat, config: BookConfig, r: Reference, s: AnchorState, c: seq<CandidateState>)
    requires quantum > 0 && ReferenceValid(r) && r.view.Some? && Judged(quantum, config, r, s, c)
    ensures Judged(quantum, config, r, s.(finalized := true), c)
  {
    hide Clean, DifferencesAt, Run;
    if s.matched {
      var k: nat :| MatchedAt(quantum, config, r, s, c, k);
      assert MatchedAt(quantum, config, r, s.(finalized := true), c, k);
    } else if c != [] {
      var k: nat :| BestAt(quantum, config, r, s, c, k);
      assert BestAt(quantum, config, r, s.(finalized := true), c, k);
    }
  }

  lemma ClosedStep(w: Window, time: int, observations: seq<Observation>)
    requires observations != []
    ensures Closed(w, time, observations) <==>
      Closed(w, time, observations[..|observations| - 1]) || Closes(w, time, observations[|observations| - 1].point)
  {
    var before := observations[..|observations| - 1];
    if Closed(w, time, before) {
      var i :| 0 <= i < |before| && Closes(w, time, before[i].point);
      assert observations[i] == before[i];
    }
    if Closed(w, time, observations) {
      var i :| 0 <= i < |observations| && Closes(w, time, observations[i].point);
      assert i < |before| ==> before[i] == observations[i];
    }
  }

  /** An observation inside the window compares once, at the candidate's time, and may close. */
  lemma ObservedCompares(quantum: nat, w: Window, r: Reference, b: Book, point: Point)
    requires quantum > 0 && ReferenceValid(r) && !r.state.finalized && InWindow(w, r.time, point)
    requires Observed(quantum, w, r, b, point).Ok?
    ensures var compared := Compared(quantum, r, b, CandidateTime(w, r.time, point));
            && compared.Ok?
            && Observed(quantum, w, r, b, point).value
                 == if Closes(w, r.time, point) then Finalized(compared.value) else compared.value
  {
    hide Compared;
  }

  /** Once finalized, a reference never changes again. */
  lemma {:induction false} FinalizedForever(quantum: nat, config: BookConfig, w: Window, r: Reference,
                                            observations: seq<Observation>, n: nat)
    requires quantum > 0 && ReferenceValid(r) && n <= |observations|
    requires Outcome(quantum, config, w, r, observations[..n]).Ok?
    requires Outcome(quantum, config, w, r, observations[..n]).value.state.finalized
    ensures Outcome(quantum, config, w, r, observations) == Outcome(quantum, config, w, r, observations[..n])
    decreases |observations|
  {
    hide Observed;
    if n == |observations| {
      assert observations[..n] == observations;
    } else {
      var before, last := observations[..|observations| - 1], observations[|observations| - 1];
      assert before[..n] == observations[..n];
      FinalizedForever(quantum, config, w, r, before, n);
      ObservedFinalized(quantum, w, Outcome(quantum, config, w, r, before).value, Run(config, last.steps), last.point);
    }
  }

  // ----- nothing outside the window is used -----

  /** While the window is open, only events before its end have been applied, whatever their order. */
  lemma {:induction false} OpenMeansBeforeEnd(w: Window, time: int, observations: seq<Observation>, i: nat)
    requires Protocol(observations) && i < |observations| && !Closed(w, time, observations[..i])
    ensures forall step | step in observations[i].steps :: Within(step, time + w.lookahead)
  {
    if i > 0 {
      assert forall j | 0 <= j < i - 1 :: observations[..i - 1][j] == observations[..i][j];
      OpenMeansBeforeEnd(w, time, observations, i - 1);
      assert observations[..i][i - 1] == observations[i - 1];
      assert !Closes(w, time, observations[i - 1].point);
      assert FollowsAt(observations, i);
      var before, after := observations[i - 1].steps, observations[i].steps;
      forall step | step in after ensures Within(step, time + w.lookahead) {
        var k :| 0 <= k < |after| && after[k] == step;
        if k < |before| {
          assert before[k] == step && step in observations[i - 1].steps;
        } else {
          var q := observations[i].point.q;
          assert observations[i - 1].point == BeforeEvent(q) && q < time + w.lookahead;
          assert At(after[k], q);
        }
      }
    } else {
      assert FollowsAt(observations, 0);
    }
  }

  /** Every candidate lies in [start, end) and its book holds only events quoted before the end. */
  lemma {:induction false} CandidatesInside(w: Window, time: int, observations: seq<Observation>, c: CandidateState)
    requires Protocol(observations) && w.lookahead >= MILLISECOND
    requires c in Candidates(w, time, observations)
    ensures time - w.lookback <= c.time < time + w.lookahead
    ensures forall step | step in c.steps :: Within(step, time + w.lookahead)
  {
    var n := |observations| - 1;
    var before := observations[..n];
    if c in Candidates(w, time, before) {
      forall i | 0 <= i < |before| ensures FollowsAt(before, i) {
        assert FollowsAt(observations, i);
      }
      CandidatesInside(w, time, before, c);
    } else {
      OpenMeansBeforeEnd(w, time, observations, n);
    }
  }

  /** A match is made by a book that holds only events quoted before the window's end. */
  lemma MatchIsSafe(quantum: nat, config: BookConfig, w: Window, r: Reference, observations: seq<Observation>)
    returns (c: CandidateState)
    requires quantum > 0 && ReferenceValid(r) && r.view.Some? && r.state == FRESH && w.lookahead >= MILLISECOND
    requires Protocol(observations) && Outcome(quantum, config, w, r, observations).Ok?
    requires Outcome(quantum, config, w, r, observations).value.state.matched
    ensures Clean(quantum, config, r, c)
    ensures Outcome(quantum, config, w, r, observations).value.state.matchedTime == Some(c.time)
    ensures r.time - w.lookback <= c.time < r.time + w.lookahead
    ensures forall step | step in c.steps :: Within(step, r.time + w.lookahead)
  {
    hide Outcome, Clean, Candidates, Protocol;
    OutcomeJudged(quantum, config, w, r, observations);
    var s := Outcome(quantum, config, w, r, observations).value.state;
    var all := Candidates(w, r.time, observations);
    var k: nat :| MatchedAt(quantum, config, r, s, all, k);
    c := all[k];
    CandidatesInside(w, r.time, observations, c);
  }

  // ----- every state inside the window is used -----

  /** The window's end has not been reached. */
  predicate Open(w: Window, time: int, point: Point) {
    match point
    case BeforeEvent(q) => q < time + w.lookahead
    case AfterEvent(q) => q < time + w.lookahead
    case MarketClose(_) => true
    case ChannelFinished => false
  }

  /** The i-th observation is a candidate: it is quoted inside the window, or is the first to show the
      window's end, in front of an event or of nothing more. */
  ghost predicate Chosen(w: Window, time: int, observations: seq<Observation>, c: CandidateState, i: nat) {
    && i < |observations| && c.steps == observations[i].steps
    && (forall j | 0 <= j < i :: Open(w, time, observations[j].point))
    && var point := observations[i].point;
       if Quoted(point) && point.q < time + w.lookahead then time - w.lookback <= point.q == c.time
       else (point.BeforeEvent? || point.ChannelFinished?) && c.time == time + w.lookahead - 1_000_000
  }

  /** The candidates are exactly the states so chosen. */
  lemma {:induction false} CandidatesExact(w: Window, time: int, observations: seq<Observation>, c: CandidateState)
    ensures c in Candidates(w, time, observations) <==> exists i: nat :: Chosen(w, time, observations, c, i)
  {
    hide Chosen, Closed, InWindow, CandidateTime;
    if observations == [] {
      NothingChosen(w, time, c);
    } else {
      var n := |observations| - 1;
      var before := observations[..n];
      CandidatesExact(w, time, before, c);
      LastChosen(w, time, observations, c);
      forall i: nat ensures Chosen(w, time, before, c, i) <==> i < n && Chosen(w, time, observations, c, i) {
        EarlierChosen(w, time, observations, c, i);
      }
      if exists i: nat :: Chosen(w, time, observations, c, i) {
        var i: nat :| Chosen(w, time, observations, c, i);
        EarlierChosen(w, time, observations, c, i);
      }
    }
  }

  lemma NothingChosen(w: Window, time: int, c: CandidateState)
    ensures forall i: nat :: !Chosen(w, time, [], c, i)
  {
  }

  lemma LastChosen(w: Window, time: int, observations: seq<Observation>, c: CandidateState)
    requires observations != []
    ensures var n := |observations| - 1;
      Chosen(w, time, observations, c, n) <==>
        && !Closed(w, time, observations[..n]) && InWindow(w, time, observations[n].point)
        && c == CandidateState(observations[n].steps, CandidateTime(w, time, observations[n].point))
  {
    hide Closed;
    var before := observations[..|observations| - 1];
    NotClosed(w, time, before);
    assert forall j | 0 <= j < |before| :: before[j] == observations[j];
  }

  lemma EarlierChosen(w: Window, time: int, observations: seq<Observation>, c: CandidateState, i: nat)
    requires observations != []
    ensures var n := |observations| - 1;
      && (Chosen(w, time, observations[..n], c, i) <==> i < n && Chosen(w, time, observations, c, i))
      && (Chosen(w, time, observations, c, i) ==> i <= n)
  {
    hide Open;
    var before := observations[..|observations| - 1];
    assert forall j | 0 <= j < |before| :: before[j] == observations[j];
  }

  lemma NotClosed(w: Window, time: int, observations: seq<Observation>)
    ensures Closed(w, time, observations) <==>
      exists i :: 0 <= i < |observations| && !Open(w, time, observations[i].point)
  {
    if exists i :: 0 <= i < |observations| && !Open(w, time, observations[i].point) {
      var i :| 0 <= i < |observations| && !Open(w, time, observations[i].point);
      assert Closes(w, time, observations[i].point);
    }
  }

  // ----- when the plain comparison fails -----

  /** Every book that is observed has prices that leave room to round up. */
  ghost predicate AllModest(quantum: nat, config: BookConfig, observations: seq<Observation>) {
    forall i | 0 <= i < |observations| :: Modest(Run(config, observations[i].steps), quantum)
  }

  /** The observation asks for an edge of the window that is not a time. */
  ghost predicate AsksBeyond(w: Window, time: int, point: Point) {
    match point
    case MarketClose(_) => false
    case ChannelFinished => time + w.lookahead - 1_000_000 > MAX_I64
    case _ => time - w.lookback < -MAX_I64 - 1 || (time - w.lookback <= point.q && time + w.lookahead > MAX_I64)
  }

  /** ... and the channel was not finished before. */
  ghost predicate Escapes(w: Window, time: int, observations: seq<Observation>, i: nat) {
    && i < |observations| && AsksBeyond(w, time, observations[i].point)
    && forall j | 0 <= j < i :: !observations[j].point.ChannelFinished?
  }

  ghost predicate Finished(observations: seq<Observation>) {
    exists i :: 0 <= i < |observations| && observations[i].point.ChannelFinished?
  }

  lemma ObservedFails(quantum: nat, w: Window, r: Reference, b: Book, point: Point)
    requires quantum > 0 && ReferenceValid(r) && !r.state.finalized && FullView(b, quantum).Ok?
    ensures Observed(quantum, w, r, b, point).Err? <==> AsksBeyond(w, r.time, point)
    ensures point.ChannelFinished? && Observed(quantum, w, r, b, point).Ok? ==>
      Observed(quantum, w, r, b, point).value.state.finalized
    ensures !point.ChannelFinished? && Observed(quantum, w, r, b, point).Ok? && !FitsWindow(w, r) ==>
      Observed(quantum, w, r, b, point).value == r
  {
    hide FullView, Found, TurnoverPrecision;
  }

  /** With modest prices, comparing a fresh reference with all candidates fails exactly when, before the
      channel is finished, an edge of its window is asked for that lies outside the range of times. */
  lemma {:induction false} OutcomeFails(quantum: nat, config: BookConfig, w: Window, r: Reference,
                                        observations: seq<Observation>)
    requires quantum > 0 && ReferenceValid(r) && r.state == FRESH && AllModest(quantum, config, observations)
    ensures Outcome(quantum, config, w, r, observations).Err? <==>
      exists i: nat :: Escapes(w, r.time, observations, i)
    ensures Outcome(quantum, config, w, r, observations).Ok? && !FitsWindow(w, r) ==>
      (Outcome(quantum, config, w, r, observations).value.state.finalized <==> Finished(observations))
  {
    hide Run, FullView, Observed, Modest, AsksBeyond;
    if observations != [] {
      var n := |observations| - 1;
      var before, last := observations[..n], observations[n];
      assert forall j | 0 <= j < n :: before[j] == observations[j];
      OutcomeFails(quantum, config, w, r, before);
      EscapesMore(w, r.time, observations);
      if Outcome(quantum, config, w, r, before).Ok? {
        var now := Outcome(quantum, config, w, r, before).value;
        var b := Run(config, last.steps);
        assert Modest(Run(config, observations[n].steps), quantum);
        FullViewOk(config, last.steps, quantum);
        if now.state.finalized {
          ObservedFinalized(quantum, w, now, b, last.point);
        } else {
          ObservedFails(quantum, w, now, b, last.point);
        }
        if FitsWindow(w, r) {
          FitsNeverEscapes(w, r, last.point);
        }
      }
    }
  }

  lemma EscapesMore(w: Window, time: int, observations: seq<Observation>)
    requires observations != []
    ensures var n := |observations| - 1;
      var before := observations[..n];
      && ((exists i: nat :: Escapes(w, time, observations, i)) <==>
           (exists i: nat :: Escapes(w, time, before, i))
           || (!Finished(before) && AsksBeyond(w, time, observations[n].point)))
      && (Finished(observations) <==> Finished(before) || observations[n].point.ChannelFinished?)
  {
    hide AsksBeyond;
    var n := |observations| - 1;
    var before := observations[..n];
    assert forall j | 0 <= j < n :: before[j] == observations[j];
    if exists i: nat :: Escapes(w, time, before, i) {
      var i: nat :| Escapes(w, time, before, i);
      assert Escapes(w, time, observations, i);
    }
    if exists i: nat :: Escapes(w, time, observations, i) {
      var i: nat :| Escapes(w, time, observations, i);
      assert i < n ==> Escapes(w, time, before, i);
    }
    if !Finished(before) && AsksBeyond(w, time, observations[n].point) {
      assert Escapes(w, time, observations, n);
    }
    if Finished(before) {
      var i :| 0 <= i < |before| && before[i].point.ChannelFinished?;
      assert observations[i].point.ChannelFinished?;
    }
  }

  lemma FitsNeverEscapes(w: Window, r: Reference, point: Point)
    requires FitsWindow(w, r)
    ensures !AsksBeyond(w, r.time, point)
  {
  }

  // ----- the validator over a whole run -----

  /** Every reference holds the outcome of the first `n` observations. */
  ghost predicate Outcomes(quantum: nat, config: BookConfig, w: Window, was: seq<Reference>, now: seq<Reference>,
                           seen: seq<Observation>)
    requires quantum > 0 && forall k | 0 <= k < |was| :: ReferenceValid(was[k])
  {
    |now| == |was| && forall k | 0 <= k < |was| :: Outcome(quantum, config, w, was[k], seen) == Ok(now[k])
  }

  lemma OutcomesStep(quantum: nat, config: BookConfig, w: Window, was: seq<Reference>, now: seq<Reference>,
                     next: seq<Reference>,
                     seen: seq<Observation>, o: Observation)
    requires quantum > 0 && Sorted(was) && Sorted(now) && Outcomes(quantum, config, w, was, now, seen)
    requires Visited(quantum, w, now, next, |next|, Run(config, o.steps), o.point)
    ensures Outcomes(quantum, config, w, was, next, seen + [o])
  {
    hide Observed, Run;
    forall k | 0 <= k < |was| ensures Outcome(quantum, config, w, was[k], seen + [o]) == Ok(next[k]) {
      OutcomeStep(quantum, config, w, was[k], now[k], seen, o);
    }
  }

  lemma OutcomeStep(quantum: nat, config: BookConfig, w: Window, was: Reference, now: Reference, seen: seq<Observation>,
                    o: Observation)
    requires quantum > 0 && ReferenceValid(was) && ReferenceValid(now)
    requires Outcome(quantum, config, w, was, seen) == Ok(now)
    ensures Outcome(quantum, config, w, was, seen + [o]) == Observed(quantum, w, now, Run(config, o.steps), o.point)
  {
    hide Observed, Run;
    assert (seen + [o])[..|seen|] == seen;
  }

  /** No observation of a failed prefix repairs it. */
  lemma {:induction false} FailedForGood(quantum: nat, config: BookConfig, w: Window, r: Reference,
                                         observations: seq<Observation>, n: nat)
    requires quantum > 0 && ReferenceValid(r) && n <= |observations|
    requires Outcome(quantum, config, w, r, observations[..n]).Err?
    ensures Outcome(quantum, config, w, r, observations).Err?
    decreases |observations|
  {
    hide Observed, Run;
    if n == |observations| {
      assert observations[..n] == observations;
    } else {
      assert observations[..|observations| - 1][..n] == observations[..n];
      FailedForGood(quantum, config, w, r, observations[..|observations| - 1], n);
    }
  }

  /** The plain comparison gets through all observations for every reference. */
  ghost predicate AllJudged(quantum: nat, config: BookConfig, w: Window, references: seq<Reference>,
                            observations: seq<Observation>)
    requires quantum > 0 && forall k | 0 <= k < |references| :: ReferenceValid(references[k])
  {
    forall k | 0 <= k < |references| :: Outcome(quantum, config, w, references[k], observations).Ok?
  }

  lemma OutcomesJudged(quantum: nat, config: BookConfig, w: Window, was: seq<Reference>, now: seq<Reference>,
                       seen: seq<Observation>)
    requires quantum > 0 && Sorted(was) && Outcomes(quantum, config, w, was, now, seen)
    ensures AllJudged(quantum, config, w, was, seen)
  {
    hide Outcome;
  }

  /** A reference that fails now has failed the whole run. */
  lemma SomeFails(quantum: nat, config: BookConfig, w: Window, was: seq<Reference>, now: seq<Reference>,
                  observations: seq<Observation>, i: nat)
    requires quantum > 0 && Sorted(was) && Sorted(now) && i < |observations|
    requires Outcomes(quantum, config, w, was, now, observations[..i])
    requires !AllObserved(quantum, w, now, Run(config, observations[i].steps), observations[i].point)
    ensures !AllJudged(quantum, config, w, was, observations)
  {
    hide Observed, Run, Outcome;
    var k :| 0 <= k < |now| && Observed(quantum, w, now[k], Run(config, observations[i].steps),
                                        observations[i].point).Err?;
    OneFails(quantum, config, w, was[k], now[k], observations, i);
  }

  lemma OneFails(quantum: nat, config: BookConfig, w: Window, was: Reference, now: Reference,
                 observations: seq<Observation>, i: nat)
    requires quantum > 0 && ReferenceValid(was) && ReferenceValid(now) && i < |observations|
    requires Outcome(quantum, config, w, was, observations[..i]) == Ok(now)
    requires Observed(quantum, w, now, Run(config, observations[i].steps), observations[i].point).Err?
    ensures Outcome(quantum, config, w, was, observations).Err?
  {
    hide Observed, Run;
    OutcomeStep(quantum, config, w, was, now, observations[..i], observations[i]);
    assert observations[..i + 1] == observations[..i] + [observations[i]];
    FailedForGood(quantum, config, w, was, observations, i + 1);
  }

  /** The end of an opening window is a time. */
  predicate EndFits(opening: Option<Reference>, observed: nat) {
    opening.Some? && observed > 0 ==> opening.value.time + SECOND <= MAX_I64
  }

  /** Nothing was compared yet, and every window lies within the range of times. */
  ghost predicate AllFit(w: Window, opening: Option<Reference>, references: seq<Reference>) {
    && (opening.Some? ==> opening.value.state == FRESH && FitsWindow(PRE_OPEN_WINDOW, opening.value))
    && forall k | 0 <= k < |references| :: references[k].state == FRESH && FitsWindow(w, references[k])
  }

  lemma FitsGetThrough(quantum: nat, config: BookConfig, w: Window, opening: Option<Reference>,
                       references: seq<Reference>, observations: seq<Observation>)
    requires quantum > 0 && Sorted(references) && (opening.Some? ==> ReferenceValid(opening.value))
    requires AllFit(w, opening, references) && AllModest(quantum, config, observations)
    ensures EndFits(opening, |observations|) && AllJudged(quantum, config, w, references, observations)
    ensures opening.Some? ==> Outcome(quantum, config, PRE_OPEN_WINDOW, opening.value, observations).Ok?
  {
    hide Outcome, AllModest, Modest;
    if opening.Some? {
      FitGetsThrough(quantum, config, PRE_OPEN_WINDOW, opening.value, observations);
    }
    forall k | 0 <= k < |references| ensures Outcome(quantum, config, w, references[k], observations).Ok? {
      FitGetsThrough(quantum, config, w, references[k], observations);
    }
  }

  lemma FitGetsThrough(quantum: nat, config: BookConfig, w: Window, r: Reference, observations: seq<Observation>)
    requires quantum > 0 && ReferenceValid(r) && r.state == FRESH && FitsWindow(w, r)
    requires AllModest(quantum, config, observations)
    ensures Outcome(quantum, config, w, r, observations).Ok?
  {
    hide Outcome, AllModest;
    OutcomeFails(quantum, config, w, r, observations);
    forall i: nat ensures !Escapes(w, r.time, observations, i) {
      if i < |observations| {
        FitsNeverEscapes(w, r, observations[i].point);
      }
    }
  }

  /** Whatever is observed along one run, the cached, pruned and skipping validator ends with the
      outcome of comparing every open reference with every candidate from scratch, and it fails
      exactly when one of those comparisons does (or the opening window has no end): never, where the
      windows lie within the range of times and prices leave room to round up. */
  method ObserveRun(v: SymbolValidation, observations: seq<Observation>, books: seq<Book>)
    returns (r: Result<(), ViewError>)
    requires v.Valid() && v.steps == [] && Growing(observations)
    requires |books| == |observations|
    requires forall i | 0 <= i < |books| :: books[i] == Run(v.config, observations[i].steps)
    modifies v
    ensures r.Ok? <==>
      && EndFits(old(v.preOpen), |observations|)
      && (old(v.preOpen).Some? ==>
          Outcome(v.quantum, v.config, PRE_OPEN_WINDOW, old(v.preOpen).value, observations).Ok?)
      && (v.windows.preOpenOnly || AllJudged(v.quantum, v.config, v.windows.continuous, old(v.continuous),
                                             observations))
    ensures AllFit(v.windows.continuous, old(v.preOpen), old(v.continuous)) ==>
      AllModest(v.quantum, v.config, observations) ==> r.Ok?
    ensures r.Ok? ==> v.Valid() && (v.preOpen.Some? <==> old(v.preOpen).Some?)
    ensures r.Ok? && old(v.preOpen).Some? ==>
      Outcome(v.quantum, v.config, PRE_OPEN_WINDOW, old(v.preOpen).value, observations) == Ok(v.preOpen.value)
    ensures r.Ok? && !v.windows.preOpenOnly ==>
      Outcomes(v.quantum, v.config, v.windows.continuous, old(v.continuous), v.continuous, observations)
  {
    hide Run, Observed, Visited, SymbolValidation.CacheValid, AllJudged, AllObserved, Outcome, Outcomes;
    hide AllModest, AllFit;
    ghost var opening, was := v.preOpen, v.continuous;
    if AllModest(v.quantum, v.config, observations) && AllFit(v.windows.continuous, opening, was) {
      FitsGetThrough(v.quantum, v.config, v.windows.continuous, opening, was, observations);
    }
    NothingOutcome(v.quantum, v.config, PRE_OPEN_WINDOW, v.windows.continuous, opening, was);
    assert observations[..0] == [];
    for i := 0 to |observations|
      invariant v.Valid() && v.steps == (if i == 0 then [] else observations[i - 1].steps)
      invariant v.preOpen.Some? <==> opening.Some?
      invariant opening.Some? ==> v.preOpen.value.time == opening.value.time && EndFits(opening, i)
      invariant opening.Some? ==>
        Outcome(v.quantum, v.config, PRE_OPEN_WINDOW, opening.value, observations[..i]) == Ok(v.preOpen.value)
      invariant !v.windows.preOpenOnly ==>
        Outcomes(v.quantum, v.config, v.windows.continuous, was, v.continuous, observations[..i])
    {
      ghost var preOpen, now := v.preOpen, v.continuous;
      v.Follow(observations[i].steps);
      assert observations[..i + 1] == observations[..i] + [observations[i]];
      var observed := v.ObserveCandidates(books[i], observations[i].point);
      if opening.Some? {
        OutcomeStep(v.quantum, v.config, PRE_OPEN_WINDOW, opening.value, preOpen.value, observations[..i],
                    observations[i]);
      }
      if observed.Err? {
        if opening.Some? && Observed(v.quantum, PRE_OPEN_WINDOW, preOpen.value, books[i], observations[i].point).Err? {
          OneFails(v.quantum, v.config, PRE_OPEN_WINDOW, opening.value, preOpen.value, observations, i);
        } else if !v.windows.preOpenOnly && !AllObserved(v.quantum, v.windows.continuous, now, books[i],
                                                         observations[i].point) {
          SomeFails(v.quantum, v.config, v.windows.continuous, was, now, observations, i);
        }
        return observed;
      }
      if opening.Some? {
        ObservedShape(v.quantum, PRE_OPEN_WINDOW, preOpen.value, books[i], observations[i].point);
      }
      if !v.windows.preOpenOnly {
        OutcomesStep(v.quantum, v.config, v.windows.continuous, was, now, v.continuous, observations[..i],
                     observations[i]);
      }
    }
    assert observations[..|observations|] == observations;
    if !v.windows.preOpenOnly {
      OutcomesJudged(v.quantum, v.config, v.windows.continuous, was, v.continuous, observations);
    }
    return Ok(());
  }

  lemma NothingOutcome(quantum: nat, config: BookConfig, w: Window, w': Window, opening: Option<Reference>,
                       was: seq<Reference>)
    requires quantum > 0 && Sorted(was) && (opening.Some? ==> ReferenceValid(opening.value))
    ensures opening.Some? ==> Outcome(quantum, config, w, opening.value, []) == Ok(opening.value)
    ensures Outcomes(quantum, config, w', was, was, [])
  {
  }
}
