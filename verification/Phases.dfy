/** Which reference frames are worth comparing (src/production/validation/phases.rs): a frame is an
    anchor or is skipped for a reason, depending on the phases seen before it, and every frame is
    counted once (src/production/validation/loader.rs). */
module Phases {
  import opened Wrappers
  import opened MarketData

  datatype Anchor = PreOpen | Continuous | MarketClose {
    function Rank(): nat {
      match this case PreOpen => 0 case Continuous => 1 case MarketClose => 2
    }
  }

  datatype SkipReason =
    | StatusNotApplicable | MissingNormalPredecessor | OutsideSelectionWindow
    | UnexpectedPhaseTransition | AdditionalStaticFrame

  datatype Coverage = NoReferenceRecords | NoEligibleReferences | Selected

  datatype SelectionSample = SelectionSample(timeMs: int, sourceRow: nat, previousStatus: Option<string>,
      status: string)

  /** An anchor, or the reason to skip the frame. */
  type Decision = Result<Anchor, SkipReason>

  /** Counters per key are multisets: the count of a key is its multiplicity. */
  datatype SelectionAudit = SelectionAudit(
    referenceRecords: nat, statuses: multiset<string>, selected: multiset<Anchor>, skipped: multiset<SkipReason>,
    firstSamples: map<SkipReason, SelectionSample>, coverage: Coverage)

  const EMPTY_AUDIT := SelectionAudit(0, multiset{}, multiset{}, multiset{}, map[], NoReferenceRecords)

  const SAMPLED := {MissingNormalPredecessor, OutsideSelectionWindow, UnexpectedPhaseTransition}

  /** The equations that the campaign controller demands of every audit. */
  ghost predicate AuditBalanced(audit: SelectionAudit) {
    && audit.referenceRecords == |audit.statuses| == |audit.selected| + |audit.skipped|
    && audit.coverage == (if |audit.selected| > 0 then Selected
                          else if audit.referenceRecords > 0 then NoEligibleReferences else NoReferenceRecords)
    && audit.firstSamples.Keys <= SAMPLED && |audit.firstSamples| <= 3
  }

  // ----- which frames are selected -----

  datatype Frame = Frame(position: (i64, u64), status: string)

  /** What the selection depends on besides the frames. */
  datatype Rules = Rules(market: Market, historicalEtf: bool, openingStart: i64, continuousStart: i64)

  /** Some frame of `h` had this status. */
  ghost predicate Seen(h: seq<Frame>, status: string) {
    exists k :: 0 <= k < |h| && h[k].status == status
  }

  /** The last frame of `h` had this status. */
  ghost predicate Last(h: seq<Frame>, status: string) {
    h != [] && h[|h| - 1].status == status
  }

  /** Some frame of `h` was traded in continuous time. */
  ghost predicate Reached(rules: Rules, h: seq<Frame>) {
    exists k :: 0 <= k < |h| && h[k].status == "TRADE" && h[k].position.0 >= rules.continuousStart
  }

  /** Behind `h`, the frame could be the opening anchor: right behind the call auction, before any
      continuous trading. */
  ghost predicate Opens(rules: Rules, h: seq<Frame>, f: Frame) {
    if rules.market.Szse? then
      f.status == "B0" && Last(h, "O0") && !Seen(h, "T0") && !Seen(h, "C0")
    else
      && f.status == "TRADE" && rules.openingStart <= f.position.0 < rules.continuousStart
      && Last(h, "OCALL") && !Seen(h, "CCALL")
  }

  /** Behind `h`, the frame could be the close: right behind the closing auction, or for an old
      fund, which has none, right behind continuous trading. */
  ghost predicate Closes(rules: Rules, h: seq<Frame>, f: Frame) {
    if rules.market.Szse? then f.status == "E0" && Last(h, "C0")
    else if rules.historicalEtf then
      f.status == "CLOSE" && Last(h, "TRADE") && !Seen(h, "CCALL") && Reached(rules, h)
    else f.status == "CLOSE" && Last(h, "CCALL")
  }

  ghost predicate Opened(rules: Rules, h: seq<Frame>) {
    exists k :: 0 <= k < |h| && Opens(rules, h[..k], h[k])
  }

  ghost predicate Closed(rules: Rules, h: seq<Frame>) {
    exists k :: 0 <= k < |h| && Closes(rules, h[..k], h[k])
  }

  /** Behind `h`, the frame belongs to continuous trading. */
  ghost predicate Continues(rules: Rules, h: seq<Frame>, f: Frame) {
    if rules.market.Szse? then f.status == "T0" && !Seen(h, "C0")
    else
      && f.status == "TRADE" && f.position.0 >= rules.continuousStart
      && !Seen(h, "CCALL") && !Closed(rules, h)
  }

  ghost predicate Continued(rules: Rules, h: seq<Frame>) {
    exists k :: 0 <= k < |h| && Continues(rules, h[..k], h[k])
  }

  /** The selection: the first frame that opens, all that continue, and the first that closes. */
  ghost function Select(rules: Rules, h: seq<Frame>, f: Frame): Option<Anchor> {
    if Opens(rules, h, f) && !Opened(rules, h) then Some(PreOpen)
    else if Continues(rules, h, f) then Some(Continuous)
    else if Closes(rules, h, f) && !Closed(rules, h) then Some(MarketClose)
    else None
  }

  /** An opening-only run keeps nothing but the opening anchor. */
  ghost function Chosen(rules: Rules, preOpenOnly: bool, h: seq<Frame>, f: Frame): Option<Anchor> {
    var selected := Select(rules, h, f);
    if preOpenOnly && selected != Some(PreOpen) then None else selected
  }

  /** The anchors selected among `h`, in order. */
  ghost function Selection(rules: Rules, preOpenOnly: bool, h: seq<Frame>): seq<Anchor> {
    if h == [] then []
    else
      var before := h[..|h| - 1];
      Selection(rules, preOpenOnly, before) + Listed(Chosen(rules, preOpenOnly, before, h[|h| - 1]))
  }

  /** The times of the frames selected as `anchor` among `h`, in order. */
  ghost function TimesOf(rules: Rules, preOpenOnly: bool, h: seq<Frame>, anchor: Anchor): seq<i64> {
    if h == [] then []
    else
      var before, last := h[..|h| - 1], h[|h| - 1];
      TimesOf(rules, preOpenOnly, before, anchor)
        + if Chosen(rules, preOpenOnly, before, last) == Some(anchor) then [last.position.0] else []
  }

  // ----- why the others are skipped -----

  /** Behind `h` the day is over, or its closing auction has begun. */
  ghost predicate Ended(rules: Rules, h: seq<Frame>) {
    Closed(rules, h) || Seen(h, if rules.market.Szse? then "C0" else "CCALL")
  }

  /** A second frame of an anchor that stands alone is additional, one out of the day's order is
      unexpected, one without its predecessor lacks it, and any other status does not apply. */
  ghost function RefusalSh(rules: Rules, h: seq<Frame>, f: Frame): SkipReason {
    var inWindow := rules.openingStart <= f.position.0 < rules.continuousStart;
    if f.status == "CLOSE" then
      if Closed(rules, h) then AdditionalStaticFrame else MissingNormalPredecessor
    else if f.status == "TRADE" then
      if Ended(rules, h) then UnexpectedPhaseTransition
      else if !inWindow then OutsideSelectionWindow
      else if Opened(rules, h) && !Continued(rules, h) then AdditionalStaticFrame
      else MissingNormalPredecessor
    else if (f.status == "OCALL" && (Continued(rules, h) || Ended(rules, h)))
            || (f.status == "CCALL" && Closed(rules, h)) then UnexpectedPhaseTransition
    else StatusNotApplicable
  }

  ghost function RefusalSz(rules: Rules, h: seq<Frame>, f: Frame): SkipReason {
    if f.status == "E0" then
      if Closed(rules, h) then AdditionalStaticFrame else MissingNormalPredecessor
    else if f.status == "B0" then
      if Ended(rules, h) then UnexpectedPhaseTransition
      else if Continued(rules, h) then StatusNotApplicable
      else if Opened(rules, h) then AdditionalStaticFrame
      else MissingNormalPredecessor
    else if (f.status == "O0" && (Continued(rules, h) || Ended(rules, h))) || f.status == "T0"
            || (f.status == "C0" && Closed(rules, h)) then UnexpectedPhaseTransition
    else StatusNotApplicable
  }

  /** Why a frame that is not chosen is skipped; to an opening-only run, later anchors do not apply. */
  ghost function Refusal(rules: Rules, h: seq<Frame>, f: Frame): SkipReason {
    if Select(rules, h, f).Some? then StatusNotApplicable
    else if rules.market.Szse? then RefusalSz(rules, h, f) else RefusalSh(rules, h, f)
  }

  /** The reasons for which frames of `h` were skipped, in order. */
  ghost function Refusals(rules: Rules, preOpenOnly: bool, h: seq<Frame>): seq<SkipReason> {
    if h == [] then []
    else
      var before, last := h[..|h| - 1], h[|h| - 1];
      Refusals(rules, preOpenOnly, before)
        + if Chosen(rules, preOpenOnly, before, last).None? then [Refusal(rules, before, last)] else []
  }

  ghost function Statuses(h: seq<Frame>): seq<string> {
    seq(|h|, i requires 0 <= i < |h| => h[i].status)
  }

  /** Rust's division truncates toward zero. */
  function Milliseconds(time: int): int {
    if time >= 0 then time / 1_000_000 else -(-time / 1_000_000)
  }

  /** The first frame skipped for a reason, with the status before it. */
  ghost function FirstSkipped(rules: Rules, preOpenOnly: bool, h: seq<Frame>,
                              reason: SkipReason): Option<SelectionSample> {
    if h == [] then None
    else
      var before, last := h[..|h| - 1], h[|h| - 1];
      var earlier := FirstSkipped(rules, preOpenOnly, before, reason);
      if earlier.Some? then earlier
      else if Chosen(rules, preOpenOnly, before, last).None? && Refusal(rules, before, last) == reason then
        Some(SelectionSample(Milliseconds(last.position.0), last.position.1, LastStatus(before), last.status))
      else None
  }

  ghost function LastStatus(h: seq<Frame>): Option<string> {
    if h == [] then None else Some(h[|h| - 1].status)
  }

  /** The audit counts every frame once under its status and once as an anchor or under its reason, and
      keeps the first frame of every reason that is worth a sample. */
  ghost predicate Audited(audit: SelectionAudit, rules: Rules, preOpenOnly: bool, h: seq<Frame>) {
    && audit.referenceRecords == |h| && audit.statuses == multiset(Statuses(h))
    && audit.selected == multiset(Selection(rules, preOpenOnly, h))
    && audit.skipped == multiset(Refusals(rules, preOpenOnly, h))
    && forall reason: SkipReason :: SampleKept(audit.firstSamples, rules, preOpenOnly, h, reason)
  }

  ghost predicate SampleKept(samples: map<SkipReason, SelectionSample>, rules: Rules, preOpenOnly: bool, h: seq<Frame>,
                             reason: SkipReason)
  {
    var first := FirstSkipped(rules, preOpenOnly, h, reason);
    (reason in samples <==> reason in SAMPLED && first.Some?) && (reason in samples ==> first == Some(samples[reason]))
  }

  /** What counting one more frame has to do. */
  ghost predicate CountsFrame(was: SelectionAudit, now: SelectionAudit, f: Frame, previous: Option<string>,
                              decision: Decision) {
    && now.referenceRecords == was.referenceRecords + 1 && now.statuses == was.statuses + multiset{f.status}
    && now.selected == was.selected + (if decision.Ok? then multiset{decision.value} else multiset{})
    && now.skipped == was.skipped + (if decision.Err? then multiset{decision.error} else multiset{})
    && now.firstSamples ==
         if decision.Err? && decision.error in SAMPLED && decision.error !in was.firstSamples then
           was.firstSamples[decision.error :=
             SelectionSample(Milliseconds(f.position.0), f.position.1, previous, f.status)]
         else was.firstSamples
  }

  lemma RefusalsMore(rules: Rules, preOpenOnly: bool, h: seq<Frame>, f: Frame)
    ensures Statuses(h + [f]) == Statuses(h) + [f.status]
    ensures Refusals(rules, preOpenOnly, h + [f]) == Refusals(rules, preOpenOnly, h)
      + if Chosen(rules, preOpenOnly, h, f).None? then [Refusal(rules, h, f)] else []
    ensures Selection(rules, preOpenOnly, h + [f]) == Selection(rules, preOpenOnly, h)
      + Listed(Chosen(rules, preOpenOnly, h, f))
  {
    hide Chosen, Refusal;
    assert (h + [f])[..|h|] == h;
  }

  lemma SampleMore(was: SelectionAudit, now: SelectionAudit, rules: Rules, preOpenOnly: bool, h: seq<Frame>, f: Frame,
                   decision: Decision, reason: SkipReason)
    requires SampleKept(was.firstSamples, rules, preOpenOnly, h, reason)
    requires CountsFrame(was, now, f, LastStatus(h), decision)
    requires Chosen(rules, preOpenOnly, h, f) == if decision.Ok? then Some(decision.value) else None
    requires decision.Err? ==> decision.error == Refusal(rules, h, f)
    ensures SampleKept(now.firstSamples, rules, preOpenOnly, h + [f], reason)
  {
    hide Chosen, Refusal, LastStatus, Milliseconds;
    assert (h + [f])[..|h|] == h && (h + [f])[|h|] == f;
  }

  lemma AuditedMore(was: SelectionAudit, now: SelectionAudit, rules: Rules, preOpenOnly: bool, h: seq<Frame>, f: Frame,
                    decision: Decision)
    requires Audited(was, rules, preOpenOnly, h) && CountsFrame(was, now, f, LastStatus(h), decision)
    requires Chosen(rules, preOpenOnly, h, f) == if decision.Ok? then Some(decision.value) else None
    requires decision.Err? ==> decision.error == Refusal(rules, h, f)
    ensures Audited(now, rules, preOpenOnly, h + [f])
  {
    hide Chosen, Refusal, LastStatus, Milliseconds, SampleKept, Refusals, Selection, Statuses, SAMPLED;
    RefusalsMore(rules, preOpenOnly, h, f);
    forall reason: SkipReason ensures SampleKept(now.firstSamples, rules, preOpenOnly, h + [f], reason) {
      assert SampleKept(was.firstSamples, rules, preOpenOnly, h, reason);
      SampleMore(was, now, rules, preOpenOnly, h, f, decision, reason);
    }
  }

  function Listed<T>(o: Option<T>): seq<T> {
    if o.Some? then [o.value] else []
  }

  lemma SeenMore(h: seq<Frame>, f: Frame)
    ensures forall s :: Seen(h + [f], s) <==> Seen(h, s) || f.status == s
    ensures forall s :: Last(h + [f], s) <==> f.status == s
    ensures forall s | Last(h, s) :: Seen(h, s)
    ensures (h + [f])[|h + [f]| - 1] == f
  {
    forall s ensures Seen(h + [f], s) <==> Seen(h, s) || f.status == s {
      assert (h + [f])[|h|] == f;
      if Seen(h, s) {
        var k :| 0 <= k < |h| && h[k].status == s;
        assert (h + [f])[k].status == s;
      }
    }
  }

  lemma ReachedMore(rules: Rules, h: seq<Frame>, f: Frame)
    ensures Reached(rules, h + [f]) <==>
      Reached(rules, h) || (f.status == "TRADE" && f.position.0 >= rules.continuousStart)
  {
    assert (h + [f])[|h|] == f;
    if Reached(rules, h) {
      var k :| 0 <= k < |h| && h[k].status == "TRADE" && h[k].position.0 >= rules.continuousStart;
      assert (h + [f])[k] == h[k];
    }
  }

  lemma PhasesMore(rules: Rules, h: seq<Frame>, f: Frame)
    ensures Opened(rules, h + [f]) <==> Opened(rules, h) || Opens(rules, h, f)
    ensures Closed(rules, h + [f]) <==> Closed(rules, h) || Closes(rules, h, f)
    ensures Continued(rules, h + [f]) <==> Continued(rules, h) || Continues(rules, h, f)
  {
    hide Opens, Closes, Continues;
    var all := h + [f];
    assert all[|h|] == f && all[..|h|] == h;
    forall k | 0 <= k < |h| ensures all[..k] == h[..k] && all[k] == h[k] {
    }
    if Opened(rules, h) {
      var k :| 0 <= k < |h| && Opens(rules, h[..k], h[k]);
      assert Opens(rules, all[..k], all[k]);
    }
    if Closed(rules, h) {
      var k :| 0 <= k < |h| && Closes(rules, h[..k], h[k]);
      assert Closes(rules, all[..k], all[k]);
    }
    if Continued(rules, h) {
      var k :| 0 <= k < |h| && Continues(rules, h[..k], h[k]);
      assert Continues(rules, all[..k], all[k]);
    }
  }

  lemma SelectionMore(rules: Rules, preOpenOnly: bool, h: seq<Frame>, f: Frame)
    ensures Selection(rules, preOpenOnly, h + [f]) == Selection(rules, preOpenOnly, h)
      + Listed(Chosen(rules, preOpenOnly, h, f))
    ensures forall a :: TimesOf(rules, preOpenOnly, h + [f], a) == TimesOf(rules, preOpenOnly, h, a)
                          + if Chosen(rules, preOpenOnly, h, f) == Some(a) then [f.position.0] else []
  {
    hide Chosen;
    assert (h + [f])[..|h|] == h;
  }

  /** The frames stand in native order. */
  ghost predicate InPosition(frames: seq<Frame>) {
    forall i | 0 < i < |frames| ::
      frames[i - 1].position.0 <= frames[i].position.0 && frames[i - 1].position.1 < frames[i].position.1
  }

  lemma InPositionStep(h: seq<Frame>, f: Frame)
    requires InPosition(h)
    ensures InPosition(h + [f]) <==>
      h == [] || (h[|h| - 1].position.0 <= f.position.0 && h[|h| - 1].position.1 < f.position.1)
  {
    var all := h + [f];
    assert all[|h|] == f && forall i | 0 <= i < |h| :: all[i] == h[i];
    if InPosition(all) && h != [] {
      assert all[|h| - 1].position.0 <= all[|h|].position.0;
    }
  }

  lemma InPositionPrefix(frames: seq<Frame>, n: nat)
    requires n <= |frames| && InPosition(frames)
    ensures InPosition(frames[..n])
  {
  }

  /** PreOpen? Continuous* MarketClose? */
  ghost predicate Shaped(anchors: seq<Anchor>) {
    forall i, j | 0 <= i < j < |anchors| ::
      anchors[i].Rank() < anchors[j].Rank() || (anchors[i].Continuous? && anchors[j].Continuous?)
  }

  lemma ShapedAppend(anchors: seq<Anchor>, next: Anchor)
    requires Shaped(anchors)
    requires forall a | a in anchors :: a.Rank() < next.Rank() || (a.Continuous? && next.Continuous?)
    ensures Shaped(anchors + [next])
  {
    var all := anchors + [next];
    forall i, j | 0 <= i < j < |all| ensures all[i].Rank() < all[j].Rank()
      || (all[i].Continuous? && all[j].Continuous?) {
      assert all[i] in anchors;
    }
  }

  /** What an anchor among the selected ones tells of the frames. */
  lemma {:induction false} SelectionTells(rules: Rules, preOpenOnly: bool, h: seq<Frame>)
    ensures PreOpen in Selection(rules, preOpenOnly, h) ==> Opened(rules, h)
    ensures Continuous in Selection(rules, preOpenOnly, h) ==> Continued(rules, h)
    ensures MarketClose in Selection(rules, preOpenOnly, h) ==> Closed(rules, h)
  {
    hide Opens, Closes, Continues, Opened, Closed, Continued;
    if h != [] {
      var before, last := h[..|h| - 1], h[|h| - 1];
      SelectionTells(rules, preOpenOnly, before);
      PhasesMore(rules, before, last);
      assert h == before + [last];
    }
  }

  /** In Shenzhen whoever closed had a closing auction; in Shanghai whoever continued, or closed
      without one, had reached continuous time, where the frames stay. */
  lemma PhasesFollow(rules: Rules, h: seq<Frame>)
    requires InPosition(h)
    ensures rules.market.Szse? && Closed(rules, h) ==> Seen(h, "C0")
    ensures rules.market.Szse? && Continued(rules, h) ==> Seen(h, "T0")
    ensures rules.market.Sse? && Closed(rules, h) ==> Seen(h, "CCALL") || Reached(rules, h)
    ensures rules.market.Sse? && Continued(rules, h) ==> Reached(rules, h)
    ensures Reached(rules, h) ==> h[|h| - 1].position.0 >= rules.continuousStart
  {
    if Closed(rules, h) {
      var k :| 0 <= k < |h| && Closes(rules, h[..k], h[k]);
      forall i | 0 <= i < k ensures h[..k][i] == h[i] {
      }
      assert Last(h[..k], "C0") ==> h[k - 1].status == "C0";
      assert Last(h[..k], "CCALL") ==> h[k - 1].status == "CCALL";
    }
    if Reached(rules, h) {
      var k :| 0 <= k < |h| && h[k].status == "TRADE" && h[k].position.0 >= rules.continuousStart;
      TimesGoOn(h, k, |h| - 1);
    }
  }

  lemma {:induction false} TimesGoOn(h: seq<Frame>, i: nat, j: nat)
    requires InPosition(h) && i <= j < |h|
    ensures h[i].position.0 <= h[j].position.0
    decreases j - i
  {
    if i < j {
      TimesGoOn(h, i, j - 1);
    }
  }

  /** The selected anchors of every sequence of frames in native order have the shape
      PreOpen? Continuous* MarketClose?. */
  lemma {:induction false} SelectionShaped(rules: Rules, preOpenOnly: bool, h: seq<Frame>)
    requires InPosition(h)
    ensures Shaped(Selection(rules, preOpenOnly, h))
  {
    hide Opened, Closed, Continued, Seen, Reached, Shaped, InPosition;
    if h == [] {
      NothingShaped();
    } else {
      var before, last := h[..|h| - 1], h[|h| - 1];
      InPositionPrefix(h, |h| - 1);
      SelectionShaped(rules, preOpenOnly, before);
      SelectionTells(rules, preOpenOnly, before);
      PhasesFollow(rules, before);
      if before != [] {
        TimesGoOn(h, |h| - 2, |h| - 1);
      }
      var next := Chosen(rules, preOpenOnly, before, last);
      assert Selection(rules, preOpenOnly, before) + [] == Selection(rules, preOpenOnly, before);
      if next.Some? {
        ShapedAppend(Selection(rules, preOpenOnly, before), next.value);
      }
    }
  }

  lemma NothingShaped()
    ensures Shaped([])
  {
  }

  class PhaseTracker {
    const rules: Rules
    const preOpenOnly: bool
    var audit: SelectionAudit
    var lastPosition: Option<(i64, u64)>
    var lastStatus: Option<string>
    var opening: bool
    var traded: bool
    var closing: bool
    var closingValid: bool
    var preOpenSelected: bool
    var closeSelected: bool
    /** The accepted frames. */
    ghost var history: seq<Frame>

    /** What each flag remembers of the frames `h`. */
    ghost predicate Remember(h: seq<Frame>)
      reads this`opening, this`traded, this`closing, this`closingValid, this`preOpenSelected, this`closeSelected
    {
      && (preOpenSelected <==> Opened(rules, h))
      && (traded <==> Continued(rules, h))
      && (closeSelected <==> Closed(rules, h))
      && (rules.market.Szse? ==> RememberSz(h))
      && (rules.market.Sse? ==> RememberSh(h))
    }

    ghost predicate RememberSz(h: seq<Frame>)
      reads this`opening, this`traded, this`closing, this`closingValid, this`closeSelected
    {
      && (closing <==> Seen(h, "C0"))
      && (closeSelected ==> closing)
      && (!closing ==> (traded <==> Seen(h, "T0")))
      && (Last(h, "O0") && !traded && !closing ==> opening)
      && (Last(h, "C0") && !closeSelected ==> closingValid)
    }

    /** A traded Shanghai symbol has reached continuous time for good. */
    ghost predicate RememberSh(h: seq<Frame>)
      reads this`opening, this`traded, this`closing, this`closingValid, this`closeSelected
    {
      && (!closeSelected ==> (closing <==> Seen(h, "CCALL")))
      && (!closing && !closeSelected ==> (traded <==> Reached(rules, h)))
      && (closeSelected && !closing ==> traded)
      && (Last(h, "OCALL") && !traded && !closing && !closeSelected ==> opening)
      && (Last(h, "CCALL") && !closeSelected ==> closingValid)
      && (traded ==> h != [] && h[|h| - 1].position.0 >= rules.continuousStart)
      && (closeSelected && !Seen(h, "CCALL") ==> Reached(rules, h))
      && (Reached(rules, h) ==> h != [] && h[|h| - 1].position.0 >= rules.continuousStart)
    }

    ghost predicate Valid()
      reads this
    {
      && Remember(history) && InPosition(history)
      && lastPosition == (if history == [] then None else Some(history[|history| - 1].position))
      && lastStatus == LastStatus(history)
      && AuditBalanced(audit) && Audited(audit, rules, preOpenOnly, history)
    }

    constructor (rules: Rules, preOpenOnly: bool)
      ensures Valid() && history == []
      ensures this.preOpenOnly == preOpenOnly && this.rules == rules
    {
      this.rules, this.preOpenOnly := rules, preOpenOnly;
      audit, lastPosition, lastStatus := EMPTY_AUDIT, None, None;
      opening, traded, closing, closingValid, preOpenSelected, closeSelected := false, false, false, false, false,
        false;
      history := [];
      hide Audited, AuditBalanced;
      NothingAudited(rules, preOpenOnly);
    }

    /** The phase automaton of Shanghai. */
    method ObserveSh(time: i64, status: string, ghost f: Frame) returns (r: Decision)
      requires Remember(history) && rules.market.Sse? && f.position.0 == time && f.status == status
      requires lastStatus == LastStatus(history)
      requires history != [] ==> history[|history| - 1].position.0 <= time
      modifies this`opening, this`traded, this`closing, this`closingValid, this`preOpenSelected, this`closeSelected
      ensures Remember(history + [f])
      ensures Select(rules, history, f) == if r.Ok? then Some(r.value) else None
      ensures r.Err? ==> r.error == RefusalSh(rules, history, f)
    {
      SeenMore(history, f);
      ReachedMore(rules, history, f);
      PhasesMore(rules, history, f);
      hide Opened, Closed, Continued, Seen, Reached;
      var inWindow := rules.openingStart <= time < rules.continuousStart;
      if status == "CLOSE" && closeSelected {
        return Err(AdditionalStaticFrame);
      } else if status == "TRADE" && inWindow && preOpenSelected && !traded && !closing && !closeSelected {
        return Err(AdditionalStaticFrame);
      } else if status == "OCALL" {
        if traded || closing || closeSelected {
          return Err(UnexpectedPhaseTransition);
        }
        opening := true;
      } else if status == "TRADE" {
        if closing || closeSelected {
          return Err(UnexpectedPhaseTransition);
        }
        if inWindow {
          if !opening || lastStatus != Some("OCALL") {
            return Err(MissingNormalPredecessor);
          }
          preOpenSelected := true;
          return Ok(PreOpen);
        } else if time >= rules.continuousStart {
          traded := true;
          return Ok(Continuous);
        }
        return Err(OutsideSelectionWindow);
      } else if status == "CCALL" {
        if closeSelected {
          return Err(UnexpectedPhaseTransition);
        }
        closing, closingValid := true, true;
      } else if status == "CLOSE" {
        var valid := if rules.historicalEtf then traded && !closing && lastStatus == Some("TRADE")
                     else closingValid && lastStatus == Some("CCALL");
        if !valid {
          return Err(MissingNormalPredecessor);
        }
        closeSelected := true;
        return Ok(MarketClose);
      } else {
        opening, closingValid := false, false;
      }
      return Err(StatusNotApplicable);
    }

    /** The phase automaton of Shenzhen, which needs no clock. */
    method ObserveSz(status: string, ghost f: Frame) returns (r: Decision)
      requires Remember(history) && rules.market.Szse? && f.status == status
      requires lastStatus == LastStatus(history)
      modifies this`opening, this`traded, this`closing, this`closingValid, this`preOpenSelected, this`closeSelected
      ensures Remember(history + [f])
      ensures Select(rules, history, f) == if r.Ok? then Some(r.value) else None
      ensures r.Err? ==> r.error == RefusalSz(rules, history, f)
    {
      SeenMore(history, f);
      PhasesMore(rules, history, f);
      hide Opened, Closed, Continued, Seen;
      if status == "E0" && closeSelected {
        return Err(AdditionalStaticFrame);
      } else if status == "B0" && preOpenSelected && !traded && !closing && !closeSelected {
        return Err(AdditionalStaticFrame);
      } else if status == "O0" {
        if traded || closing || closeSelected {
          return Err(UnexpectedPhaseTransition);
        }
        opening := true;
      } else if status == "B0" {
        if closing || closeSelected {
          return Err(UnexpectedPhaseTransition);
        }
        if traded {
          return Err(StatusNotApplicable);
        }
        if !opening || lastStatus != Some("O0") {
          return Err(MissingNormalPredecessor);
        }
        preOpenSelected := true;
        return Ok(PreOpen);
      } else if status == "T0" {
        if closing || closeSelected {
          return Err(UnexpectedPhaseTransition);
        }
        traded := true;
        return Ok(Continuous);
      } else if status == "C0" {
        if closeSelected {
          return Err(UnexpectedPhaseTransition);
        }
        closing, closingValid := true, true;
      } else if status == "E0" {
        if !closingValid || lastStatus != Some("C0") {
          return Err(MissingNormalPredecessor);
        }
        closeSelected := true;
        return Ok(MarketClose);
      } else {
        opening, closingValid := false, false;
      }
      return Err(StatusNotApplicable);
    }

    /** The market's automaton, of which an opening-only run keeps the opening. */
    method Decide(f: Frame) returns (r: Decision)
      requires Remember(history)
      requires lastStatus == LastStatus(history)
      requires history != [] ==> history[|history| - 1].position.0 <= f.position.0
      modifies this`opening, this`traded, this`closing, this`closingValid, this`preOpenSelected, this`closeSelected
      ensures Remember(history + [f])
      ensures Chosen(rules, preOpenOnly, history, f) == if r.Ok? then Some(r.value) else None
      ensures r.Err? ==> r.error == Refusal(rules, history, f)
    {
      hide Select, PhaseTracker.Remember;
      if rules.market.Sse? {
        r := ObserveSh(f.position.0, f.status, f);
      } else {
        r := ObserveSz(f.status, f);
      }
      if r.Ok? && preOpenOnly && r.value != PreOpen {
        r := Err(StatusNotApplicable);
      }
    }

    /** Count one frame, as an anchor or under the reason it is skipped for. */
    method Count(f: Frame, decision: Decision)
      requires AuditBalanced(audit)
      modifies this`audit
      ensures AuditBalanced(audit) && CountsFrame(old(audit), audit, f, lastStatus, decision)
    {
      hide AuditBalanced, Milliseconds;
      var counted := audit.(referenceRecords := audit.referenceRecords + 1,
                            statuses := audit.statuses + multiset{f.status});
      match decision {
        case Ok(anchor) =>
          counted := counted.(selected := counted.selected + multiset{anchor}, coverage := Selected);
        case Err(reason) =>
          counted := counted.(skipped := counted.skipped + multiset{reason});
          if counted.coverage == NoReferenceRecords {
            counted := counted.(coverage := NoEligibleReferences);
          }
          if reason in SAMPLED && reason !in counted.firstSamples {
            counted := counted.(firstSamples := counted.firstSamples[reason :=
              SelectionSample(Milliseconds(f.position.0), f.position.1, lastStatus, f.status)]);
          }
      }
      StillBalanced(audit, counted, f, lastStatus, decision);
      audit := counted;
    }

    /** One frame at its native position: selected exactly when the phases before it say so. Time may
        not go back and rows must go on, or nothing changes. */
    method Observe(position: (i64, u64), status: string) returns (r: Result<Option<Anchor>, ()>)
      requires Valid()
      modifies this
      ensures Valid()
      ensures r.Ok? <==> InPosition(old(history) + [Frame(position, status)])
      ensures r.Err? ==> unchanged(this)
      ensures r.Ok? ==> history == old(history) + [Frame(position, status)]
      ensures r.Ok? ==> r.value == Chosen(rules, preOpenOnly, old(history), Frame(position, status))
    {
      hide AuditBalanced, PhaseTracker.Remember, Chosen, InPosition, Selection, TimesOf, Audited, CountsFrame, Refusal;
      ghost var f := Frame(position, status);
      InPositionStep(history, f);
      if lastPosition.Some? && (position.0 < lastPosition.value.0 || position.1 <= lastPosition.value.1) {
        return Err(());
      }
      SelectionMore(rules, preOpenOnly, history, f);
      var decision := Decide(Frame(position, status));
      Count(Frame(position, status), decision);
      AuditedMore(old(audit), audit, rules, preOpenOnly, history, f, decision);
      lastPosition := Some(position);
      lastStatus := Some(status);
      history := history + [f];
      if decision.Err? {
        return Ok(None);
      }
      return Ok(Some(decision.value));
    }
  }

  lemma NothingAudited(rules: Rules, preOpenOnly: bool)
    ensures Audited(EMPTY_AUDIT, rules, preOpenOnly, []) && AuditBalanced(EMPTY_AUDIT)
  {
  }

  /** Counting a frame keeps the audit's equations, when its coverage moves along. */
  lemma StillBalanced(was: SelectionAudit, now: SelectionAudit, f: Frame, previous: Option<string>, decision: Decision)
    requires AuditBalanced(was) && CountsFrame(was, now, f, previous, decision)
    requires now.coverage == if decision.Ok? then Selected
                             else if was.coverage.NoReferenceRecords? then NoEligibleReferences else was.coverage
    ensures AuditBalanced(now)
  {
    hide Milliseconds;
    if decision.Err? && decision.error in SAMPLED && decision.error !in was.firstSamples {
      SampleFits(was.firstSamples, decision.error);
    }
  }

  lemma SampleFits(samples: map<SkipReason, SelectionSample>, reason: SkipReason)
    requires samples.Keys <= SAMPLED && reason in SAMPLED && reason !in samples
    ensures |samples| <= 2
  {
    var others := SAMPLED - {reason};
    assert samples.Keys <= others;
    assert others == samples.Keys + (others - samples.Keys);
  }

  // ----- loading one symbol's frames -----

  /** The references kept for one symbol, by the time of their frames. */
  datatype Loaded = Loaded(preOpen: Option<i64>, continuous: seq<i64>, marketClose: Option<i64>)

  /** Exactly the selected frames are kept, each under its anchor: no anchor that stands alone
      overwrote an earlier one. */
  ghost predicate KeepsAll(l: Loaded, rules: Rules, preOpenOnly: bool, h: seq<Frame>) {
    && Listed(l.preOpen) == TimesOf(rules, preOpenOnly, h, PreOpen)
    && l.continuous == TimesOf(rules, preOpenOnly, h, Continuous)
    && Listed(l.marketClose) == TimesOf(rules, preOpenOnly, h, MarketClose)
  }

  /** The next selected frame joins what is kept. */
  function Keep(l: Loaded, anchor: Anchor, time: i64): Loaded {
    match anchor
    case PreOpen => l.(preOpen := Some(time))
    case Continuous => l.(continuous := l.continuous + [time])
    case MarketClose => l.(marketClose := Some(time))
  }

  /** As many frames are kept for an anchor as are counted for it. */
  lemma {:induction false} TimesCounted(rules: Rules, preOpenOnly: bool, h: seq<Frame>, anchor: Anchor)
    ensures |TimesOf(rules, preOpenOnly, h, anchor)| == multiset(Selection(rules, preOpenOnly, h))[anchor]
  {
    hide Chosen;
    if h != [] {
      TimesCounted(rules, preOpenOnly, h[..|h| - 1], anchor);
    }
  }

  lemma ShapedOnce(anchors: seq<Anchor>, next: Anchor)
    requires Shaped(anchors + [next]) && !next.Continuous?
    ensures next !in anchors
  {
    var all := anchors + [next];
    assert all[|anchors|] == next;
    forall i | 0 <= i < |anchors| ensures anchors[i] != next {
      assert all[i] == anchors[i];
    }
  }

  lemma KeepStep(l: Loaded, rules: Rules, preOpenOnly: bool, h: seq<Frame>, f: Frame)
    requires KeepsAll(l, rules, preOpenOnly, h) && InPosition(h + [f])
    ensures var next := Chosen(rules, preOpenOnly, h, f);
            KeepsAll(if next.Some? then Keep(l, next.value, f.position.0) else l, rules, preOpenOnly, h + [f])
  {
    hide Chosen, InPosition, Shaped, Selection, TimesOf;
    InPositionPrefix(h + [f], |h|);
    SelectionMore(rules, preOpenOnly, h, f);
    var next := Chosen(rules, preOpenOnly, h, f);
    if next.Some? && !next.value.Continuous? {
      SelectionShaped(rules, preOpenOnly, h + [f]);
      ShapedOnce(Selection(rules, preOpenOnly, h), next.value);
      TimesCounted(rules, preOpenOnly, h, next.value);
    }
  }

  ghost predicate SortedTimes(times: seq<i64>) {
    forall i, j | 0 <= i < j < |times| :: times[i] <= times[j]
  }

  /** Frames in native order are kept by time. */
  lemma {:induction false} TimesSorted(rules: Rules, preOpenOnly: bool, h: seq<Frame>, anchor: Anchor)
    requires InPosition(h)
    ensures var times := TimesOf(rules, preOpenOnly, h, anchor);
            SortedTimes(times) && forall t | t in times :: h != [] && t <= h[|h| - 1].position.0
  {
    hide Chosen;
    if h != [] {
      var before, last := h[..|h| - 1], h[|h| - 1];
      TimesSorted(rules, preOpenOnly, before, anchor);
      assert before != [] ==> before[|before| - 1] == h[|h| - 2] && h[|h| - 2].position.0 <= last.position.0;
      var times := TimesOf(rules, preOpenOnly, before, anchor);
      forall i | 0 <= i < |times| ensures times[i] <= last.position.0 {
        assert times[i] in times;
      }
    }
  }

  /** The loader's loop over the frames of one symbol: it ends well exactly for frames in native
      order, and then keeps the times of exactly the frames that the phases select, and the continuous
      ones by time. */
  method Load(tracker: PhaseTracker, frames: seq<Frame>) returns (r: Result<Loaded, ()>)
    requires tracker.Valid() && tracker.history == []
    modifies tracker
    ensures tracker.Valid() && Shaped(Selection(tracker.rules, tracker.preOpenOnly, tracker.history))
    ensures r.Ok? <==> InPosition(frames)
    ensures r.Ok? ==> tracker.history == frames && KeepsAll(r.value, tracker.rules, tracker.preOpenOnly, frames)
    ensures r.Ok? ==> SortedTimes(r.value.continuous)
    ensures r.Err? ==> tracker.history < frames
  {
    hide Shaped, AuditBalanced, PhaseTracker.Remember, InPosition, SortedTimes, Chosen, Selection, TimesOf, KeepsAll;
    hide Audited, LastStatus;
    var l := Loaded(None, [], None);
    NothingKept(tracker.rules, tracker.preOpenOnly);
    for n := 0 to |frames|
      invariant tracker.Valid() && tracker.history == frames[..n] && InPosition(frames[..n])
      invariant KeepsAll(l, tracker.rules, tracker.preOpenOnly, frames[..n])
    {
      var f := frames[n];
      assert frames[..n + 1] == frames[..n] + [f] && Frame(f.position, f.status) == f;
      SelectionShaped(tracker.rules, tracker.preOpenOnly, frames[..n]);
      var observed := tracker.Observe(f.position, f.status);
      if observed.Err? {
        if InPosition(frames) {
          InPositionPrefix(frames, n + 1);
        }
        return Err(());
      }
      KeepStep(l, tracker.rules, tracker.preOpenOnly, frames[..n], f);
      if observed.value.Some? {
        l := Keep(l, observed.value.value, f.position.0);
      }
    }
    assert frames[..|frames|] == frames;
    SelectionShaped(tracker.rules, tracker.preOpenOnly, frames);
    KeptSorted(l, tracker.rules, tracker.preOpenOnly, frames);
    return Ok(l);
  }

  lemma NothingKept(rules: Rules, preOpenOnly: bool)
    ensures KeepsAll(Loaded(None, [], None), rules, preOpenOnly, []) && InPosition([])
  {
  }

  lemma KeptSorted(l: Loaded, rules: Rules, preOpenOnly: bool, h: seq<Frame>)
    requires KeepsAll(l, rules, preOpenOnly, h) && InPosition(h)
    ensures SortedTimes(l.continuous)
  {
    TimesSorted(rules, preOpenOnly, h, Continuous);
  }
}
