/** The validation report (src/production/validation/report.rs) and the equations the campaign
    controller demands of every report it accepts (analysis/run_full_market_validation.py). */
module Report {
  import opened Wrappers
  import opened Phases

  datatype Outcome = Matched | Mismatched | DataError | MissingSource

  datatype RunOutcome = Passed | NoEligible | Failed

  datatype Counts = Counts(total: nat, comparable: nat, matched: nat, mismatched: nat, dataErrors: nat,
      missingSource: nat) {
    function Observe(outcome: Outcome): Counts {
      match outcome
      case Matched => this.(total := total + 1, comparable := comparable + 1, matched := matched + 1)
      case Mismatched => this.(total := total + 1, comparable := comparable + 1, mismatched := mismatched + 1)
      case DataError => this.(total := total + 1, dataErrors := dataErrors + 1)
      case MissingSource => this.(total := total + 1, missingSource := missingSource + 1)
    }

    function Plus(other: Counts): Counts {
      Counts(total + other.total, comparable + other.comparable, matched + other.matched,
             mismatched + other.mismatched, dataErrors + other.dataErrors, missingSource + other.missingSource)
    }

    ghost predicate Consistent() {
      total == matched + mismatched + dataErrors + missingSource && comparable == matched + mismatched
    }
  }

  const ZERO := Counts(0, 0, 0, 0, 0, 0)

  /** One breakdown or coverage key: instrument class and anchor. */
  type Key = (bool, Anchor)

  type Breakdown = map<Key, Counts>

  function CountsAt(breakdown: Breakdown, key: Key): Counts {
    if key in breakdown then breakdown[key] else ZERO
  }

  ghost function ClassSum(breakdown: Breakdown, etf: bool): Counts {
    CountsAt(breakdown, (etf, PreOpen)).Plus(CountsAt(breakdown, (etf, Continuous))).Plus(CountsAt(breakdown,
                                                                                                   (etf, MarketClose)))
  }

  /** The sum over all keys there can be. */
  ghost function BreakdownSum(breakdown: Breakdown): Counts {
    ClassSum(breakdown, false).Plus(ClassSum(breakdown, true))
  }

  lemma ObservePlus(a: Counts, b: Counts, outcome: Outcome)
    ensures a.Observe(outcome).Plus(b) == a.Plus(b).Observe(outcome) == a.Plus(b.Observe(outcome))
  {
  }

  lemma ClassObserve(breakdown: Breakdown, key: Key, outcome: Outcome)
    ensures var more := breakdown[key := CountsAt(breakdown, key).Observe(outcome)];
            && ClassSum(more, key.0) == ClassSum(breakdown, key.0).Observe(outcome)
            && ClassSum(more, !key.0) == ClassSum(breakdown, !key.0)
  {
    hide Counts.Plus, Counts.Observe;
    var (etf, anchor) := key;
    var p, c, m := CountsAt(breakdown, (etf, PreOpen)), CountsAt(breakdown, (etf, Continuous)),
      CountsAt(breakdown, (etf, MarketClose));
    var more := breakdown[key := CountsAt(breakdown, key).Observe(outcome)];
    ObservePlus(p.Plus(c), m, outcome);
    ObservePlus(p, c, outcome);
    assert forall k: Key :: CountsAt(more, k) == if k == key then CountsAt(breakdown, k).Observe(outcome)
      else CountsAt(breakdown, k);
    match anchor {
      case PreOpen => assert ClassSum(more, etf) == p.Observe(outcome).Plus(c).Plus(m);
      case Continuous => assert ClassSum(more, etf) == p.Plus(c.Observe(outcome)).Plus(m);
      case MarketClose => assert ClassSum(more, etf) == p.Plus(c).Plus(m.Observe(outcome));
    }
  }

  lemma BreakdownObserve(breakdown: Breakdown, key: Key, outcome: Outcome)
    ensures BreakdownSum(breakdown[key := CountsAt(breakdown, key).Observe(outcome)])
      == BreakdownSum(breakdown).Observe(outcome)
  {
    hide Counts.Plus, Counts.Observe, ClassSum, CountsAt;
    ClassObserve(breakdown, key, outcome);
    ObservePlus(ClassSum(breakdown, false), ClassSum(breakdown, true), outcome);
  }

  lemma ZeroPlus(z: Counts)
    requires z == Counts(0, 0, 0, 0, 0, 0)
    ensures z.Plus(z) == z && z.Consistent()
  {
  }

  lemma NothingCounted()
    ensures BreakdownSum(map[]) == ZERO && ZERO.Consistent()
  {
    hide Counts.Plus, Counts.Consistent;
    ZeroPlus(ZERO);
    assert forall k: Key :: CountsAt(map[], k) == ZERO;
  }

  // ----- one reference -----

  datatype Case = Case(loadError: bool, comparisonError: bool, matched: bool)

  /** A source error outranks everything a comparison found, and an unreviewed late event outranks that. */
  function Classify(afterClose: Option<nat>, c: Case, seen: bool): (o: Outcome)
    ensures o.Matched? <==> afterClose.None? && !c.loadError && seen && !c.comparisonError && c.matched
    ensures o.MissingSource? <==> afterClose.None? && !c.loadError && !seen
    ensures o.DataError? <==> afterClose.Some? || c.loadError || (seen && c.comparisonError)
  {
    if afterClose.Some? then DataError
    else if c.loadError then DataError
    else if !seen then MissingSource
    else if c.comparisonError then DataError
    else if c.matched then Matched
    else Mismatched
  }

  /** One classified reference. */
  datatype Verdict = Verdict(symbol: string, etf: bool, anchor: Anchor, outcome: Outcome)

  ghost function Number(verdicts: seq<Verdict>, outcome: Outcome): nat {
    if verdicts == [] then 0
    else Number(verdicts[..|verdicts| - 1], outcome) + if verdicts[|verdicts| - 1].outcome == outcome then 1 else 0
  }

  /** How many verdicts there are of each kind. */
  ghost function Tally(verdicts: seq<Verdict>): Counts {
    Counts(|verdicts|, Number(verdicts, Matched) + Number(verdicts, Mismatched), Number(verdicts, Matched),
           Number(verdicts, Mismatched), Number(verdicts, DataError), Number(verdicts, MissingSource))
  }

  /** The verdicts on one instrument class and anchor. */
  ghost function At(verdicts: seq<Verdict>, key: Key): seq<Verdict> {
    if verdicts == [] then []
    else
      var last := verdicts[|verdicts| - 1];
      At(verdicts[..|verdicts| - 1], key) + if (last.etf, last.anchor) == key then [last] else []
  }

  /** The breakdown counts the verdicts of every key. */
  ghost predicate Broken(breakdown: Breakdown, verdicts: seq<Verdict>) {
    forall key: Key :: CountsAt(breakdown, key) == Tally(At(verdicts, key))
  }

  lemma TallyMore(verdicts: seq<Verdict>, v: Verdict)
    ensures Tally(verdicts + [v]) == Tally(verdicts).Observe(v.outcome)
    ensures forall key: Key ::
      At(verdicts + [v], key) == At(verdicts, key) + if (v.etf, v.anchor) == key then [v] else []
  {
    assert (verdicts + [v])[..|verdicts|] == verdicts;
    var all := verdicts + [v];
    assert forall o :: Number(all, o) == Number(verdicts, o) + if v.outcome == o then 1 else 0;
  }

  lemma BrokenMore(breakdown: Breakdown, verdicts: seq<Verdict>, v: Verdict)
    requires Broken(breakdown, verdicts)
    ensures var key := (v.etf, v.anchor);
            Broken(breakdown[key := CountsAt(breakdown, key).Observe(v.outcome)], verdicts + [v])
  {
    hide Tally, At, Counts.Observe;
    var at := (v.etf, v.anchor);
    var more := breakdown[at := CountsAt(breakdown, at).Observe(v.outcome)];
    TallyMore(verdicts, v);
    forall key: Key ensures CountsAt(more, key) == Tally(At(verdicts + [v], key)) {
      if key == at {
        TallyMore(At(verdicts, key), v);
      } else {
        assert At(verdicts, key) + [] == At(verdicts, key);
      }
    }
  }

  /** The verdicts kept in detail, in order: matches when they are retained at all, failures as long
      as the list is short. */
  ghost function Detailed(retainMatched: bool, maxDetail: Option<nat>, verdicts: seq<Verdict>): seq<Verdict> {
    if verdicts == [] then []
    else
      var before, last := Detailed(retainMatched, maxDetail, verdicts[..|verdicts| - 1]), verdicts[|verdicts| - 1];
      before + if Keeps(retainMatched, maxDetail, |before|, last) then [last] else []
  }

  predicate Keeps(retainMatched: bool, maxDetail: Option<nat>, kept: nat, v: Verdict) {
    if v.outcome.Matched? then retainMatched else maxDetail.None? || kept < maxDetail.value
  }

  lemma DetailedMore(retainMatched: bool, maxDetail: Option<nat>, verdicts: seq<Verdict>, v: Verdict)
    ensures var before := Detailed(retainMatched, maxDetail, verdicts);
            Detailed(retainMatched, maxDetail, verdicts + [v]) == before
              + if Keeps(retainMatched, maxDetail, |before|, v) then [v] else []
  {
    assert (verdicts + [v])[..|verdicts|] == verdicts;
  }

  lemma NumberMore(verdicts: seq<Verdict>, v: Verdict, outcome: Outcome)
    ensures Number(verdicts + [v], outcome) == Number(verdicts, outcome) + if v.outcome == outcome then 1 else 0
  {
    assert (verdicts + [v])[..|verdicts|] == verdicts;
  }

  lemma {:induction false} MatchedAtMost(verdicts: seq<Verdict>)
    ensures Number(verdicts, Matched) <= |verdicts|
  {
    if verdicts != [] {
      MatchedAtMost(verdicts[..|verdicts| - 1]);
    }
  }

  ghost function Failures(verdicts: seq<Verdict>): nat {
    MatchedAtMost(verdicts);
    |verdicts| - Number(verdicts, Matched)
  }

  /** What is kept in detail: all matches or none, failures within the cap, and none is left out before
      the list is full. */
  lemma {:induction false} DetailedCapped(retainMatched: bool, maxDetail: Option<nat>, verdicts: seq<Verdict>)
    ensures var kept := Detailed(retainMatched, maxDetail, verdicts);
      && Number(kept, Matched) == (if retainMatched then Number(verdicts, Matched) else 0)
      && Failures(kept) <= Failures(verdicts)
      && (maxDetail.Some? ==> Failures(kept) <= maxDetail.value)
      && (Failures(kept) < Failures(verdicts) ==> maxDetail.Some? && |kept| >= maxDetail.value)
  {
    hide Number;
    if verdicts == [] {
      NothingDetailed();
    } else {
      var before, last := verdicts[..|verdicts| - 1], verdicts[|verdicts| - 1];
      DetailedCapped(retainMatched, maxDetail, before);
      var kept := Detailed(retainMatched, maxDetail, before);
      assert verdicts == before + [last];
      NumberMore(before, last, Matched);
      NumberMore(kept, last, Matched);
      assert kept + [] == kept;
    }
  }

  lemma NothingDetailed()
    ensures Number([], Matched) == 0
  {
  }

  // ----- one symbol -----

  datatype SymbolResult = SymbolResult(
    symbol: string, etf: bool, audit: SelectionAudit, seen: bool, afterClose: Option<nat>,
    preOpen: Option<Case>, continuous: seq<Case>, marketClose: Option<Case>)
  {
    function Cases(preOpenOnly: bool): seq<(Anchor, Case)> {
      var first := if preOpen.Some? then [(PreOpen, preOpen.value)] else [];
      var middle := seq(|continuous|, i requires 0 <= i < |continuous| => (Continuous, continuous[i]));
      var last := if marketClose.Some? then [(MarketClose, marketClose.value)] else [];
      if preOpenOnly then first else first + middle + last
    }

    /** Every reference of the symbol, classified; a late event taints the Shenzhen close alone. */
    ghost function Verdicts(szMarket: bool, preOpenOnly: bool): seq<Verdict> {
      var cases := Cases(preOpenOnly);
      seq(|cases|, i requires 0 <= i < |cases| => VerdictOn(szMarket, cases[i]))
    }

    function VerdictOn(szMarket: bool, c: (Anchor, Case)): Verdict {
      var late := if szMarket && c.0.MarketClose? then afterClose else None;
      Verdict(symbol, etf, c.0, Classify(late, c.1, seen))
    }

    /** The loader kept one reference per selected frame, and an opening run selects nothing else. */
    ghost predicate Valid(preOpenOnly: bool) {
      && AuditBalanced(audit)
      && audit.selected[PreOpen] == (if preOpen.Some? then 1 else 0)
      && audit.selected[Continuous] == |continuous|
      && audit.selected[MarketClose] == (if marketClose.Some? then 1 else 0)
      && (preOpenOnly ==> continuous == [] && marketClose.None?)
    }
  }

  /** What one reference comes to: a late event, a load error or a failed comparison is a data error,
      in front of a source that was never seen; otherwise the comparison decides. */
  ghost predicate JudgedAs(v: Verdict, r: SymbolResult, anchor: Anchor, late: bool, c: Case) {
    && v.symbol == r.symbol && v.etf == r.etf && v.anchor == anchor
    && (v.outcome == DataError <==> late || c.loadError || (r.seen && c.comparisonError))
    && (v.outcome == MissingSource <==> !late && !c.loadError && !r.seen)
    && (v.outcome == Matched <==> !late && !c.loadError && r.seen && !c.comparisonError && c.matched)
  }

  /** Each reference of a symbol has its verdict, in the order of the anchors, and events after the close
      taint the close of a Shenzhen symbol and no other reference. */
  lemma SymbolVerdicts(r: SymbolResult, szMarket: bool, preOpenOnly: bool)
    ensures var vs := r.Verdicts(szMarket, preOpenOnly);
      var opens, continues := if r.preOpen.Some? then 1 else 0, |r.continuous|;
      && |vs| == (if preOpenOnly then opens else opens + continues + if r.marketClose.Some? then 1 else 0)
      && (r.preOpen.Some? ==> JudgedAs(vs[0], r, PreOpen, false, r.preOpen.value))
      && (!preOpenOnly ==>
           && (forall k | 0 <= k < continues :: JudgedAs(vs[opens + k], r, Continuous, false, r.continuous[k]))
           && (r.marketClose.Some? ==>
                JudgedAs(vs[opens + continues], r, MarketClose, szMarket && r.afterClose.Some?, r.marketClose.value)))
  {
    hide SymbolResult.VerdictOn, JudgedAs;
    var cases := r.Cases(preOpenOnly);
    forall i | 0 <= i < |cases|
      ensures JudgedAs(r.VerdictOn(szMarket, cases[i]), r, cases[i].0,
                       szMarket && cases[i].0.MarketClose? && r.afterClose.Some?, cases[i].1)
    {
      CaseJudged(r, szMarket, cases[i]);
    }
  }

  lemma CaseJudged(r: SymbolResult, szMarket: bool, c: (Anchor, Case))
    ensures JudgedAs(r.VerdictOn(szMarket, c), r, c.0, szMarket && c.0.MarketClose? && r.afterClose.Some?, c.1)
  {
  }

  lemma {:induction false} SelectedSum(selected: multiset<Anchor>)
    ensures |selected| == selected[PreOpen] + selected[Continuous] + selected[MarketClose]
    decreases |selected|
  {
    if |selected| == 0 {
      assert selected == multiset{};
    } else {
      var a :| a in selected;
      var fewer := selected - multiset{a};
      SelectedSum(fewer);
      assert selected == fewer + multiset{a} && |selected| == |fewer| + 1;
      match a {
        case PreOpen => assert selected[PreOpen] == fewer[PreOpen] + 1;
        case Continuous => assert selected[Continuous] == fewer[Continuous] + 1;
        case MarketClose => assert selected[MarketClose] == fewer[MarketClose] + 1;
      }
    }
  }

  /** All references of all symbols. */
  ghost function AllVerdicts(results: seq<SymbolResult>, szMarket: bool, preOpenOnly: bool): seq<Verdict> {
    if results == [] then []
    else
      AllVerdicts(results[..|results| - 1], szMarket, preOpenOnly)
        + results[|results| - 1].Verdicts(szMarket, preOpenOnly)
  }

  /** A symbol's audit as the report lists it. */
  type Audits = seq<(string, SelectionAudit)>

  ghost function AuditSum(audits: Audits): nat {
    if audits == [] then 0
    else AuditSum(audits[..|audits| - 1]) + |audits[|audits| - 1].1.selected|
  }

  ghost function CoverageCount(audits: Audits, coverage: Coverage): nat {
    if audits == [] then 0
    else CoverageCount(audits[..|audits| - 1], coverage) + if audits[|audits| - 1].1.coverage == coverage then 1 else 0
  }

  datatype StageCounts = StageCounts(symbols: nat, covered: nat, selected: nat)

  type Stages = map<Key, StageCounts>

  function StageAt(stages: Stages, key: Key): StageCounts {
    if key in stages then stages[key] else StageCounts(0, 0, 0)
  }

  ghost function StageClassSum(stages: Stages, etf: bool): nat {
    StageAt(stages, (etf, PreOpen)).selected + StageAt(stages, (etf, Continuous)).selected
      + StageAt(stages, (etf, MarketClose)).selected
  }

  ghost function StageSum(stages: Stages): nat {
    StageClassSum(stages, false) + StageClassSum(stages, true)
  }

  function Staged(stages: Stages, key: Key, count: nat): Stages {
    var stage := StageAt(stages, key);
    stages[key := StageCounts(stage.symbols + 1, stage.covered + (if count > 0 then 1 else 0), stage.selected + count)]
  }

  lemma StagedAt(stages: Stages, key: Key, count: nat, other: Key)
    ensures StageAt(Staged(stages, key, count), other) ==
      var stage := StageAt(stages, other);
      if other != key then stage
      else StageCounts(stage.symbols + 1, stage.covered + (if count > 0 then 1 else 0), stage.selected + count)
  {
  }

  lemma StagedSum(stages: Stages, key: Key, count: nat)
    ensures StageSum(Staged(stages, key, count)) == StageSum(stages) + count
  {
    hide StageAt, Staged;
    StagedClassSum(stages, key, count, false);
    StagedClassSum(stages, key, count, true);
  }

  lemma StagedClassSum(stages: Stages, key: Key, count: nat, etf: bool)
    ensures StageClassSum(Staged(stages, key, count), etf) ==
      StageClassSum(stages, etf) + if key.0 == etf then count else 0
  {
    hide StageAt, Staged;
    StagedAt(stages, key, count, (etf, PreOpen));
    StagedAt(stages, key, count, (etf, Continuous));
    StagedAt(stages, key, count, (etf, MarketClose));
    assert key == (key.0, key.1) && (key.1 == PreOpen || key.1 == Continuous || key.1 == MarketClose);
  }

  /** What one stage counts: the symbols of its class, those with references there, and these. */
  ghost function StageOf(results: seq<SymbolResult>, preOpenOnly: bool, key: Key): StageCounts {
    if results == [] then StageCounts(0, 0, 0)
    else
      var before, last := StageOf(results[..|results| - 1], preOpenOnly, key), results[|results| - 1];
      if last.etf != key.0 || (preOpenOnly && !key.1.PreOpen?) then before
      else
        var count := last.audit.selected[key.1];
        StageCounts(before.symbols + 1, before.covered + (if count > 0 then 1 else 0), before.selected + count)
  }

  ghost predicate StagesExact(stages: Stages, results: seq<SymbolResult>, preOpenOnly: bool) {
    forall key: Key :: StageAt(stages, key) == StageOf(results, preOpenOnly, key)
  }

  /** One more symbol at all its stages. */
  function StagedAll(stages: Stages, r: SymbolResult, preOpenOnly: bool): Stages {
    var first := Staged(stages, (r.etf, PreOpen), r.audit.selected[PreOpen]);
    if preOpenOnly then first
    else
      Staged(Staged(first, (r.etf, Continuous), r.audit.selected[Continuous]), (r.etf, MarketClose),
             r.audit.selected[MarketClose])
  }

  lemma StagesMore(results: seq<SymbolResult>, r: SymbolResult, preOpenOnly: bool, stages: Stages)
    requires StagesExact(stages, results, preOpenOnly)
    ensures StagesExact(StagedAll(stages, r, preOpenOnly), results + [r], preOpenOnly)
  {
    hide StageOf, Staged;
    var p, c, m := (r.etf, PreOpen), (r.etf, Continuous), (r.etf, MarketClose);
    var first := Staged(stages, p, r.audit.selected[PreOpen]);
    var second := Staged(first, c, r.audit.selected[Continuous]);
    forall key: Key
      ensures StageAt(StagedAll(stages, r, preOpenOnly), key) == StageOf(results + [r], preOpenOnly, key)
    {
      StageOfMore(results, r, preOpenOnly, key);
      StagedAt(stages, p, r.audit.selected[PreOpen], key);
      StagedAt(first, c, r.audit.selected[Continuous], key);
      StagedAt(second, m, r.audit.selected[MarketClose], key);
      assert key == (key.0, key.1) && (key.1 == PreOpen || key.1 == Continuous || key.1 == MarketClose);
      assert StageAt(stages, key) == StageOf(results, preOpenOnly, key);
    }
  }

  lemma StageOfMore(results: seq<SymbolResult>, r: SymbolResult, preOpenOnly: bool, key: Key)
    ensures StageOf(results + [r], preOpenOnly, key) ==
      var before := StageOf(results, preOpenOnly, key);
      if r.etf != key.0 || (preOpenOnly && !key.1.PreOpen?) then before
      else
        var count := r.audit.selected[key.1];
        StageCounts(before.symbols + 1, before.covered + (if count > 0 then 1 else 0), before.selected + count)
  {
    assert (results + [r])[..|results|] == results;
  }

  lemma StagedAllSum(stages: Stages, r: SymbolResult, preOpenOnly: bool)
    requires r.Valid(preOpenOnly)
    ensures StageSum(StagedAll(stages, r, preOpenOnly)) == StageSum(stages) + |r.audit.selected|
  {
    hide StageSum, Staged, AuditBalanced;
    SelectedSum(r.audit.selected);
    var first := Staged(stages, (r.etf, PreOpen), r.audit.selected[PreOpen]);
    StagedSum(stages, (r.etf, PreOpen), r.audit.selected[PreOpen]);
    if !preOpenOnly {
      StagedSum(first, (r.etf, Continuous), r.audit.selected[Continuous]);
      StagedSum(Staged(first, (r.etf, Continuous), r.audit.selected[Continuous]), (r.etf, MarketClose),
                r.audit.selected[MarketClose]);
    }
  }

  lemma NothingStaged()
    ensures StageSum(map[]) == 0
  {
    assert StageAt(map[], (false, PreOpen)).selected == 0;
  }

  datatype CoverageSummary = CoverageSummary(symbols: nat, selected: nat, withoutRecords: nat, withoutEligible: nat,
      byStage: Stages)

  datatype ValidationReport = ValidationReport(
    outcome: RunOutcome, coverage: CoverageSummary, audits: Audits, totals: Counts, breakdown: Breakdown,
    omittedMatched: nat, omittedFailures: nat, records: seq<Verdict>)

  /** Every equation that the controller checks before it trusts a report. */
  ghost predicate Accepted(report: ValidationReport, afterCloseEvents: nat) {
    && report.totals.Consistent()
    && BreakdownSum(report.breakdown) == report.totals
    && Distinct(report.audits) && (forall a | a in report.audits :: AuditBalanced(a.1))
    && AuditSum(report.audits) == report.totals.total
    && CoverageBalanced(report.coverage, report.audits) && StageSum(report.coverage.byStage) == report.totals.total
    && DetailBalanced(report.totals, report.records, report.omittedMatched, report.omittedFailures)
    && report.outcome == OutcomeOf(report.totals, afterCloseEvents)
  }

  ghost predicate Distinct(audits: Audits) {
    forall i, j | 0 <= i < j < |audits| :: audits[i].0 != audits[j].0
  }

  /** Every reference is kept in detail or counted as omitted. */
  ghost predicate DetailBalanced(totals: Counts, records: seq<Verdict>, omittedMatched: nat, omittedFailures: nat) {
    && Number(records, Matched) + omittedMatched == totals.matched
    && |records| - Number(records, Matched) + omittedFailures == totals.total - totals.matched
  }

  /** A run fails by any reference that did not match or by an unreviewed late event; otherwise it
      passes if it compared anything. */
  ghost function OutcomeOf(totals: Counts, afterCloseEvents: nat): RunOutcome {
    if totals.matched < totals.total || afterCloseEvents > 0 then Failed
    else if totals.total > 0 then Passed else NoEligible
  }

  /** What the outcome says about the references. */
  ghost predicate OutcomeTells(outcome: RunOutcome, verdicts: seq<Verdict>, afterCloseEvents: nat) {
    && (outcome == Failed <==> afterCloseEvents > 0 || exists v :: v in verdicts && v.outcome != Matched)
    && (outcome == NoEligible <==> afterCloseEvents == 0 && verdicts == [])
  }

  lemma {:induction false} AllMatched(verdicts: seq<Verdict>)
    ensures Number(verdicts, Matched) == |verdicts| <==> forall v | v in verdicts :: v.outcome == Matched
  {
    if verdicts != [] {
      var before, last := verdicts[..|verdicts| - 1], verdicts[|verdicts| - 1];
      assert verdicts == before + [last];
      AllMatched(before);
      MatchedAtMost(before);
    }
  }

  lemma OutcomeTold(verdicts: seq<Verdict>, afterCloseEvents: nat)
    ensures OutcomeTells(OutcomeOf(Tally(verdicts), afterCloseEvents), verdicts, afterCloseEvents)
  {
    AllMatched(verdicts);
    MatchedAtMost(verdicts);
  }

  ghost predicate CoverageBalanced(coverage: CoverageSummary, audits: Audits) {
    && coverage.symbols == |audits|
    && coverage.selected == CoverageCount(audits, Selected)
    && coverage.withoutRecords == CoverageCount(audits, NoReferenceRecords)
    && coverage.withoutEligible == CoverageCount(audits, NoEligibleReferences)
    && StageSum(coverage.byStage) == AuditSum(audits)
  }

  /** The report says what the references came to: totals, breakdown and details are those of their
      classification, audits and stages those of the symbols. */
  ghost predicate Reports(report: ValidationReport, results: seq<SymbolResult>, szMarket: bool, preOpenOnly: bool,
                          retainMatched: bool, maxDetail: Option<nat>)
  {
    var verdicts := AllVerdicts(results, szMarket, preOpenOnly);
    && report.totals == Tally(verdicts) && Broken(report.breakdown, verdicts)
    && report.records == Detailed(retainMatched, maxDetail, verdicts)
    && report.audits == AuditsOf(results) && StagesExact(report.coverage.byStage, results, preOpenOnly)
  }

  ghost function AuditsOf(results: seq<SymbolResult>): Audits {
    seq(|results|, i requires 0 <= i < |results| => (results[i].symbol, results[i].audit))
  }

  lemma SummariesAppend(audits: Audits, a: (string, SelectionAudit))
    ensures AuditSum(audits + [a]) == AuditSum(audits) + |a.1.selected|
    ensures forall c :: CoverageCount(audits + [a], c) == CoverageCount(audits, c) + if a.1.coverage == c then 1 else 0
  {
    assert (audits + [a])[..|audits|] == audits;
  }

  lemma NothingJudged(retainMatched: bool, maxDetail: Option<nat>)
    ensures Tally([]) == ZERO && Broken(map[], []) && Detailed(retainMatched, maxDetail, []) == []
    ensures DetailBalanced(ZERO, [], 0, 0)
  {
    assert forall key: Key :: CountsAt(map[], key) == ZERO && At([], key) == [];
  }

  lemma NothingCovered(preOpenOnly: bool)
    ensures CoverageBalanced(CoverageSummary(0, 0, 0, 0, map[]), []) && StagesExact(map[], [], preOpenOnly)
    ensures AuditSum([]) == 0 && AuditsOf([]) == []
  {
    hide StageSum;
    NothingStaged();
  }

  class ReportBuilder {
    const preOpenOnly: bool
    const retainMatched: bool
    const maxDetail: Option<nat>
    var totals: Counts
    var breakdown: Breakdown
    var records: seq<Verdict>
    var omittedMatched: nat
    var omittedFailures: nat
    var audits: Audits
    var coverage: CoverageSummary
    ghost var done: seq<SymbolResult>
    ghost var verdicts: seq<Verdict>

    /** All counters are those of the verdicts observed. */
    ghost predicate CountsValid()
      reads this`totals, this`breakdown, this`records, this`omittedMatched, this`omittedFailures, this`verdicts
    {
      && totals == Tally(verdicts) && Broken(breakdown, verdicts)
      && totals.Consistent() && BreakdownSum(breakdown) == totals
      && records == Detailed(retainMatched, maxDetail, verdicts)
      && DetailBalanced(totals, records, omittedMatched, omittedFailures)
    }

    lemma TotalsCount()
      requires CountsValid()
      ensures totals.total == |verdicts|
    {
    }

    ghost predicate Valid()
      reads this
    {
      && CountsValid() && CoverageBalanced(coverage, audits) && StagesExact(coverage.byStage, done, preOpenOnly)
      && audits == AuditsOf(done) && totals.total == AuditSum(audits) && forall r | r in done :: AuditBalanced(r.audit)
    }

    constructor (preOpenOnly: bool, retainMatched: bool, maxDetail: Option<nat>)
      ensures Valid() && done == [] && verdicts == []
      ensures this.preOpenOnly == preOpenOnly && this.retainMatched == retainMatched && this.maxDetail == maxDetail
    {
      hide BreakdownSum, StageSum, Counts.Consistent, Tally, Broken, Detailed, DetailBalanced, CoverageBalanced;
      hide StagesExact, AuditSum;
      NothingCounted();
      NothingJudged(retainMatched, maxDetail);
      NothingCovered(preOpenOnly);
      this.preOpenOnly, this.retainMatched, this.maxDetail := preOpenOnly, retainMatched, maxDetail;
      totals, breakdown, records, omittedMatched, omittedFailures := ZERO, map[], [], 0, 0;
      audits, coverage := [], CoverageSummary(0, 0, 0, 0, map[]);
      done, verdicts := [], [];
    }

    /** One classified reference: counted once in the totals and once under its class and anchor, and
        kept in detail or counted as omitted. */
    method ObserveCase(v: Verdict)
      requires CountsValid()
      modifies this`totals, this`breakdown, this`records, this`omittedMatched, this`omittedFailures, this`verdicts
      ensures CountsValid() && verdicts == old(verdicts) + [v]
    {
      hide BreakdownSum, Number, Broken, Tally, Detailed, CountsAt;
      var key := (v.etf, v.anchor);
      BreakdownObserve(breakdown, key, v.outcome);
      TallyMore(verdicts, v);
      BrokenMore(breakdown, verdicts, v);
      DetailedMore(retainMatched, maxDetail, verdicts, v);
      NumberMore(records, v, Matched);
      MatchedAtMost(records);
      totals := totals.Observe(v.outcome);
      breakdown := breakdown[key := CountsAt(breakdown, key).Observe(v.outcome)];
      var matched := v.outcome.Matched?;
      var keep := maxDetail.None? || |records| < maxDetail.value;
      if (matched && retainMatched) || (!matched && keep) {
        records := records + [v];
      } else if matched {
        omittedMatched := omittedMatched + 1;
      } else {
        omittedFailures := omittedFailures + 1;
      }
      verdicts := verdicts + [v];
    }

    /** Coverage counts the symbol once, and its references at each stage. */
    method ObserveCoverage(r: SymbolResult)
      requires CoverageBalanced(coverage, audits) && StagesExact(coverage.byStage, done, preOpenOnly)
      requires r.Valid(preOpenOnly)
      modifies this`coverage, this`audits
      ensures audits == old(audits) + [(r.symbol, r.audit)]
      ensures CoverageBalanced(coverage, audits) && StagesExact(coverage.byStage, done + [r], preOpenOnly)
    {
      hide StageSum, CoverageCount, AuditSum, StagesExact, SymbolResult.Valid;
      SummariesAppend(audits, (r.symbol, r.audit));
      StagesMore(done, r, preOpenOnly, coverage.byStage);
      StagedAllSum(coverage.byStage, r, preOpenOnly);
      var stages := Staged(coverage.byStage, (r.etf, PreOpen), r.audit.selected[PreOpen]);
      if !preOpenOnly {
        stages := Staged(stages, (r.etf, Continuous), r.audit.selected[Continuous]);
        stages := Staged(stages, (r.etf, MarketClose), r.audit.selected[MarketClose]);
      }
      var c := coverage.(symbols := coverage.symbols + 1, byStage := stages);
      coverage := match r.audit.coverage
        case NoReferenceRecords => c.(withoutRecords := c.withoutRecords + 1)
        case NoEligibleReferences => c.(withoutEligible := c.withoutEligible + 1)
        case Selected => c.(selected := c.selected + 1);
      audits := audits + [(r.symbol, r.audit)];
    }

    /** All references of one symbol, each under its classification. */
    method ObserveSymbol(r: SymbolResult, szMarket: bool)
      requires Valid() && r.Valid(preOpenOnly)
      modifies this
      ensures Valid() && done == old(done) + [r] && verdicts == old(verdicts) + r.Verdicts(szMarket, preOpenOnly)
    {
      hide CoverageBalanced, AuditSum, AuditBalanced, ReportBuilder.CountsValid, StagesExact;
      ghost var before, all := verdicts, r.Verdicts(szMarket, preOpenOnly);
      TotalsCount();
      SummariesAppend(audits, (r.symbol, r.audit));
      ObserveCoverage(r);
      var cases := r.Cases(preOpenOnly);
      CasesCounted(r, preOpenOnly);
      for i := 0 to |cases|
        invariant CountsValid() && verdicts == before + all[..i]
        invariant done == old(done) && audits == old(audits) + [(r.symbol, r.audit)]
        invariant CoverageBalanced(coverage, audits) && StagesExact(coverage.byStage, done + [r], preOpenOnly)
      {
        var anchor := cases[i].0;
        var late := if szMarket && anchor.MarketClose? then r.afterClose else None;
        assert all[..i + 1] == all[..i] + [all[i]];
        ObserveCase(Verdict(r.symbol, r.etf, anchor, Classify(late, cases[i].1, r.seen)));
      }
      assert all[..|cases|] == all;
      TotalsCount();
      AuditsMore(done, r);
      done := done + [r];
    }
  }

  lemma AuditsMore(results: seq<SymbolResult>, r: SymbolResult)
    ensures AuditsOf(results + [r]) == AuditsOf(results) + [(r.symbol, r.audit)]
  {
  }

  lemma CasesCounted(r: SymbolResult, preOpenOnly: bool)
    requires r.Valid(preOpenOnly)
    ensures |r.Cases(preOpenOnly)| == |r.audit.selected| && AuditBalanced(r.audit)
  {
    SelectedSum(r.audit.selected);
  }

  /** Every report satisfies every equation the controller checks, and says exactly what the
      references of the symbols came to. */
  method BuildReport(results: seq<SymbolResult>, szMarket: bool, preOpenOnly: bool, retainMatched: bool,
                     maxDetail: Option<nat>,
                     afterCloseEvents: nat) returns (report: ValidationReport)
    requires forall r | r in results :: r.Valid(preOpenOnly)
    requires forall i, j | 0 <= i < j < |results| :: results[i].symbol != results[j].symbol
    ensures Accepted(report, afterCloseEvents)
    ensures Reports(report, results, szMarket, preOpenOnly, retainMatched, maxDetail)
    ensures OutcomeTells(report.outcome, AllVerdicts(results, szMarket, preOpenOnly), afterCloseEvents)
    ensures maxDetail.Some? ==> |report.records| - Number(report.records, Matched) <= maxDetail.value
  {
    hide SymbolResult.Valid, AuditBalanced, CoverageCount, AuditSum, BreakdownSum, StageSum, Number, Tally, Broken;
    hide Detailed, StagesExact;
    hide SymbolResult.Verdicts, AuditsOf, Distinct, AllVerdicts, DetailBalanced;
    var builder := new ReportBuilder(preOpenOnly, retainMatched, maxDetail);
    NoVerdicts(szMarket, preOpenOnly);
    assert results[..0] == [];
    for i := 0 to |results|
      invariant fresh(builder) && builder.Valid() && builder.done == results[..i]
      invariant builder.verdicts == AllVerdicts(results[..i], szMarket, preOpenOnly)
      invariant builder.preOpenOnly == preOpenOnly && builder.retainMatched == retainMatched
      invariant builder.maxDetail == maxDetail
    {
      assert results[i] in results;
      builder.ObserveSymbol(results[i], szMarket);
      AllVerdictsMore(results[..i], results[i], szMarket, preOpenOnly);
      assert results[..i + 1] == results[..i] + [results[i]];
    }
    assert results[..|results|] == results;
    DetailedCapped(retainMatched, maxDetail, builder.verdicts);
    OutcomeTold(builder.verdicts, afterCloseEvents);
    hide OutcomeTells;
    var t := builder.totals;
    var outcome := if t.mismatched > 0 || t.dataErrors > 0 || t.missingSource > 0 || afterCloseEvents > 0 then Failed
                   else if t.total == 0 then NoEligible else Passed;
    report := ValidationReport(outcome, builder.coverage, builder.audits, t, builder.breakdown,
                               builder.omittedMatched, builder.omittedFailures, builder.records);
    AllBalanced(results);
  }

  lemma AllBalanced(results: seq<SymbolResult>)
    requires forall r | r in results :: AuditBalanced(r.audit)
    ensures forall a | a in AuditsOf(results) :: AuditBalanced(a.1)
    ensures (forall i, j | 0 <= i < j < |results| :: results[i].symbol != results[j].symbol) ==>
      Distinct(AuditsOf(results))
  {
    hide AuditBalanced;
    forall a | a in AuditsOf(results) ensures AuditBalanced(a.1) {
      var i :| 0 <= i < |results| && a == (results[i].symbol, results[i].audit);
      assert results[i] in results;
    }
  }

  lemma NoVerdicts(szMarket: bool, preOpenOnly: bool)
    ensures AllVerdicts([], szMarket, preOpenOnly) == []
  {
  }

  lemma AllVerdictsMore(results: seq<SymbolResult>, r: SymbolResult, szMarket: bool, preOpenOnly: bool)
    ensures AllVerdicts(results + [r], szMarket, preOpenOnly) ==
      AllVerdicts(results, szMarket, preOpenOnly) + r.Verdicts(szMarket, preOpenOnly)
  {
    assert (results + [r])[..|results|] == results;
  }
}
