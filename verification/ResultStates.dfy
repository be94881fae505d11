/**
  How the three executors of `engine.py` choose the state of a report and its exit code, from coverage,
  dynamic testing, performance and causal assessment.
 */
module ResultStates {
  import opened Prelude
  import opened Models
  import Causal
  import CausalTheorems
  import Orchestration
  import opened Suppressions
  import StaticCache

  // ----- dynamic outcomes ------------------------------------------------------------------------------------

  /** What the executors read of a `DynamicOutcome`. */
  datatype DynamicOutcome = DynamicOutcome(results: seq<Causal.TestResult>, failed: seq<string>, indeterminate: bool)

  function OutcomeOf(report: Orchestration.Report): DynamicOutcome {
    match report
    case NotRun(_) => DynamicOutcome([], [], false)
    case Stopped(_, results) => DynamicOutcome(results, ["dynamic"], true)
    case Completed(results) =>
      DynamicOutcome(results, [], exists r <- results :: exists t <- r.trials :: !t.control && !t.passed)
  }

  /** The dynamic part of a diagnosis, when it was asked for. */
  function DynamicOf(report: Option<Orchestration.Report>): Option<DynamicOutcome> {
    if report.Some? then Some(OutcomeOf(report.value)) else None
  }

  /** `_merge_dynamic_coverage`, as far as failures go. */
  method MergeDynamic(c: Coverage, o: DynamicOutcome) returns (merged: Coverage)
    ensures merged.failed == [] <==> c.failed == [] && o.failed == []
    ensures forall x :: x in merged.failed <==> x in c.failed || x in o.failed
  {
    merged := c.(failed := Distinct(c.failed + o.failed));
    DistinctKeeps(c.failed + o.failed);
    if c.failed + o.failed != [] { assert (c.failed + o.failed)[0] in merged.failed; }
    if merged.failed != [] { assert merged.failed[0] in c.failed + o.failed; }
  }

  /** Performance adds to what was completed or unsupported, never to what failed. */
  method MergePerformance(c: Coverage, completed: seq<string>, unsupported: seq<string>) returns (merged: Coverage)
    ensures merged.failed == c.failed && merged.skipped == c.skipped
    ensures forall x :: x in merged.completed <==> x in c.completed || x in completed
    ensures forall x :: x in merged.unsupported <==> x in c.unsupported || x in unsupported
  {
    merged :=
      c.(completed := Distinct(c.completed + completed), unsupported := Distinct(c.unsupported + unsupported));
    DistinctKeeps(c.completed + completed);
    DistinctKeeps(c.unsupported + unsupported);
  }

  /** What was tried, read off the report itself. */
  function TriedIn(report: Option<Orchestration.Report>): seq<Causal.Keyed> {
    match report
    case None => []
    case Some(NotRun(_)) => []
    case Some(Stopped(_, results)) => Causal.Flatten(results)
    case Some(Completed(results)) => Causal.Flatten(results)
  }

  function Results(dynamic: Option<DynamicOutcome>): seq<Causal.TestResult> {
    if dynamic.Some? then dynamic.value.results else []
  }

  // ----- path and inventory checks --------------------------------------------------------------------------

  /** `_result_state` */
  function StaticState(failed: seq<string>, findings: nat): ResultState {
    if failed != [] then AnalysisIncomplete else if findings > 0 then Indeterminate else NoConfirmedIssues
  }

  /** The last assignments to `result_state`, which every executor repeats. */
  function Concluded(
    state: ResultState, complete: bool, performanceFindings: nat, causal: Causal.Outcome): ResultState
  {
    var measured := if performanceFindings > 0 && state == NoConfirmedIssues then Indeterminate else state;
    if causal.confirmed && complete then ConfirmedIssues
    else if causal.indeterminate && measured == NoConfirmedIssues then Indeterminate
    else measured
  }

  /**
    The assignments to `result_state` that `execute_check` and `execute_discovered_check` share. A check is
    clean exactly if nothing failed, nothing was found and nothing was tried: even a run in which every trial
    passes leaves the report indeterminate.
   */
  method CheckState(
    base: Coverage, staticFindings: nat, report: Option<Orchestration.Report>, performanceFindings: nat,
    performanceCompleted: seq<string>, performanceUnsupported: seq<string>)
    returns (state: ResultState, coverage: Coverage, causal: Causal.Outcome)
    ensures Causal.Explains(causal, TriedIn(report), staticFindings + performanceFindings, [])
    ensures coverage.failed != [] <==> base.failed != [] || (report.Some? && report.value.Stopped?)
    ensures forall x <- base.failed :: x in coverage.failed
    ensures forall x <- performanceCompleted :: x in coverage.completed
    ensures forall x <- performanceUnsupported :: x in coverage.unsupported
    ensures state == AnalysisIncomplete <==> coverage.failed != []
    ensures state == ConfirmedIssues <==> coverage.failed == [] && causal.confirmed
    ensures state == NoConfirmedIssues <==>
              coverage.failed == [] && staticFindings == 0 && performanceFindings == 0
              && TriedIn(report) == []
    ensures report.Some? && report.value.Stopped? ==> forall blocking :: ExitCode(state, blocking) == 2
    ensures state in {AnalysisIncomplete, ConfirmedIssues, NoConfirmedIssues, Indeterminate}
  {
    var dynamic := DynamicOf(report);
    if report.Some? { IndeterminateOutcomes(report.value); }
    coverage := base;
    state := StaticState(base.failed, staticFindings);
    if dynamic.Some? {
      coverage := MergeDynamic(coverage, dynamic.value);
      state := StaticState(coverage.failed, staticFindings);
      if dynamic.value.indeterminate && state == NoConfirmedIssues { state := Indeterminate; }
    }
    coverage := MergePerformance(coverage, performanceCompleted, performanceUnsupported);
    causal := Causal.AssessCausality(Results(dynamic), staticFindings + performanceFindings, []);
    ConclusionsExclude(causal, TriedIn(report), staticFindings + performanceFindings, []);
    state := Concluded(state, coverage.failed == [], performanceFindings, causal);
  }

  /** A confirmation needs trials; whatever was looked at is otherwise indeterminate. */
  lemma ConclusionsExclude(
    o: Causal.Outcome, items: seq<Causal.Keyed>, existing: nat, hypotheses: seq<Option<Causal.Category>>)
    requires Causal.Explains(o, items, existing, hypotheses)
    ensures o.confirmed ==> items != []
    ensures !o.confirmed ==> (o.indeterminate <==> items != [] || existing > 0 || hypotheses != [])
  {
    assert items == [] ==> Causal.Keys(items) == {};
  }

  /** A dynamic outcome is indeterminate only if something failed or some trial ran. */
  lemma IndeterminateOutcomes(report: Orchestration.Report)
    ensures var o := OutcomeOf(report);
      o.indeterminate ==> o.failed != [] || Causal.Flatten(o.results) != []
  {
    if report.Completed? && OutcomeOf(report).indeterminate {
      var r :| r in report.results && exists t <- r.trials :: !t.control && !t.passed;
      var t :| t in r.trials && !t.control && !t.passed;
      var i :| 0 <= i < |report.results| && report.results[i] == r;
      var j :| 0 <= j < |r.trials| && r.trials[j] == t;
      CausalTheorems.FlattenHas(report.results, Causal.KeyedTrials(r)[j]);
    }
  }

  // ----- session diagnoses ----------------------------------------------------------------------------------

  /** What `_quick_hypotheses` looks at. */
  datatype SessionFacts = SessionFacts(
    collectionFailed: bool, errors: set<Causal.Category>, staticFindings: nat,
    targets: nat, unresolvedTargets: nat, candidates: nat)

  function ErrorHypotheses(facts: SessionFacts): seq<Option<Causal.Category>> {
    (if Causal.Permission in facts.errors then [Some(Causal.Permission)] else [])
    + (if Causal.Dependency in facts.errors then [Some(Causal.Dependency)] else [])
    + (if Causal.Configuration in facts.errors then [Some(Causal.Configuration)] else [])
    + if Causal.Runtime in facts.errors then [Some(Causal.Runtime)] else []
  }

  /** The categories of the hypotheses, in order of rank; `None` is a category outside the causal graph. */
  method QuickHypotheses(facts: SessionFacts) returns (h: seq<Option<Causal.Category>>)
    ensures h != []
    ensures facts.collectionFailed ==> h == [None]
    ensures !facts.collectionFailed ==>
              (Some(Causal.Skill) in h <==> facts.staticFindings > 0)
              && (Some(Causal.Permission) in h <==> Causal.Permission in facts.errors)
              && (Some(Causal.Dependency) in h <==> Causal.Dependency in facts.errors)
              && (Some(Causal.Runtime) in h <==> Causal.Runtime in facts.errors)
              && (Some(Causal.Configuration) in h <==>
                    Causal.Configuration in facts.errors || facts.unresolvedTargets > 0)
  {
    if facts.collectionFailed { return [None]; }
    h := ErrorHypotheses(facts);
    if facts.staticFindings > 0 { h := h + [Some(Causal.Skill)]; }
    if facts.unresolvedTargets > 0 { h := h + [Some(Causal.Configuration)]; }
    if facts.targets == 0 && facts.candidates > 0 { h := h + [None]; }
    if h == [] && facts.targets > 0 { h := h + [None]; }
    if h == [] { h := h + [None]; }
  }

  /** The causal part of a session: it starts from the quick hypotheses, and so always leaves something open. */
  method AssessSession(report: Option<Orchestration.Report>, facts: SessionFacts, performanceFindings: nat)
    returns (causal: Causal.Outcome, hypotheses: seq<Option<Causal.Category>>)
    ensures hypotheses != [] && (causal.indeterminate <==> !causal.confirmed)
    ensures Causal.Explains(causal, TriedIn(report), facts.staticFindings + performanceFindings, hypotheses)
  {
    hypotheses := QuickHypotheses(facts);
    var results := Results(DynamicOf(report));
    assert Causal.Flatten(results) == TriedIn(report);
    causal := Causal.AssessCausality(results, facts.staticFindings + performanceFindings, hypotheses);
    ConclusionsExclude(causal, TriedIn(report), facts.staticFindings + performanceFindings, hypotheses);
  }

  /** A session whose evidence could not be collected says so. */
  method SessionCoverage(base: Coverage, facts: SessionFacts) returns (c: Coverage)
    ensures c.failed != [] <==> facts.collectionFailed || base.failed != []
    ensures forall x <- base.failed :: x in c.failed
  {
    var failed := base.failed + if facts.collectionFailed then ["current_session_evidence"] else [];
    c := base.(failed := Distinct(failed));
    DistinctKeeps(failed);
    if failed != [] { assert failed[0] in c.failed; }
    if c.failed != [] { assert c.failed[0] in failed; }
  }

  /** The assignments to `result_state` in `execute_session_diagnosis`. */
  method SessionState(
    base: Coverage, facts: SessionFacts, sessionErrors: bool, report: Option<Orchestration.Report>,
    performanceFindings: nat,
    performanceCompleted: seq<string>, performanceUnsupported: seq<string>)
    returns (state: ResultState, coverage: Coverage, causal: Causal.Outcome, hypotheses: seq<Option<Causal.Category>>)
    ensures hypotheses != []
    ensures Causal.Explains(causal, TriedIn(report), facts.staticFindings + performanceFindings, hypotheses)
    ensures coverage.failed != [] <==>
              facts.collectionFailed || base.failed != [] || (report.Some? && report.value.Stopped?)
    ensures forall x <- base.failed :: x in coverage.failed
    ensures forall x <- performanceCompleted :: x in coverage.completed
    ensures forall x <- performanceUnsupported :: x in coverage.unsupported
    ensures state == AnalysisIncomplete <==> coverage.failed != []
    ensures state == ConfirmedIssues <==> coverage.failed == [] && causal.confirmed
    ensures state == Indeterminate <==> coverage.failed == [] && !causal.confirmed
    ensures report.Some? && report.value.Stopped? ==> forall blocking :: ExitCode(state, blocking) == 2
    ensures state != NoConfirmedIssues
  {
    var dynamic := DynamicOf(report);
    coverage := SessionCoverage(base, facts);
    if coverage.failed != [] {
      state := AnalysisIncomplete;
    } else if facts.staticFindings > 0 || sessionErrors || facts.candidates > 0 {
      state := Indeterminate;
    } else {
      state := NoConfirmedIssues;
    }
    if dynamic.Some? {
      coverage := MergeDynamic(coverage, dynamic.value);
      if coverage.failed != [] {
        state := AnalysisIncomplete;
      } else if dynamic.value.indeterminate && state == NoConfirmedIssues {
        state := Indeterminate;
      }
    }
    coverage := MergePerformance(coverage, performanceCompleted, performanceUnsupported);
    causal, hypotheses := AssessSession(report, facts, performanceFindings);
    state := Concluded(state, coverage.failed == [], performanceFindings, causal);
  }

  // ----- exit codes ----------------------------------------------------------------------------------------

  /** The exit code of a report that was written. */
  function ExitCode(state: ResultState, blocking: seq<string>): nat {
    if state == AnalysisIncomplete then 2 else if blocking != [] then 1 else 0
  }

  ghost predicate Flags(flagged: set<string>, findings: seq<Finding>, evidence: seq<Evidence>) {
    forall id :: id in flagged <==> exists f <- findings :: f.id == id && IsFlagged(f, KindsById(evidence))
  }

  lemma OneKind(f: Finding, kinds: map<string, string>)
    requires |f.evidence| <= 1
    ensures |KindsOf(f, kinds)| <= 1
  {
    if f.evidence == [] {
      assert KindsOf(f, kinds) == {};
    } else {
      var id := f.evidence[0];
      assert f.evidence == [id];
      assert KindsOf(f, kinds) == if id in kinds then {kinds[id]} else {};
    }
  }

  /** Static and declarative rules cite one piece of evidence; a budget finding has low severity and its own names. */
  ghost predicate FoundWithoutTrials(rules: seq<Finding>, budget: seq<Finding>) {
    && (forall f <- rules :: |f.evidence| <= 1)
    && (forall g <- budget :: g.severity == LowSeverity && g.rule != CAUSAL_RULE)
    && (forall f <- rules, g <- budget :: f.id != g.id)
  }

  /** A severe finding that no suppression covers and whose identifier the causal rule's own name flags. */
  ghost predicate BlocksByName(rules: seq<Finding>, suppressed: set<string>) {
    exists f <- rules :: Severe(f) && f.id !in suppressed && exists g <- rules :: g.id == f.id && g.rule == CAUSAL_RULE
  }

  /**
    Without trials a report blocks exactly if a static rule bears the name of the causal rule: two kinds of
    evidence are never at hand.
   */
  lemma BlockingWithoutTrials(
    rules: seq<Finding>, budget: seq<Finding>, evidence: seq<Evidence>, suppressed: set<string>, flagged: set<string>)
    requires FoundWithoutTrials(rules, budget) && Flags(flagged, rules + budget, evidence)
    ensures BlockingIds(rules + budget, suppressed, flagged) != [] <==> BlocksByName(rules, suppressed)
  {
    var all, blocking := rules + budget, BlockingIds(rules + budget, suppressed, flagged);
    if blocking != [] {
      var id := blocking[0];
      assert id in blocking;
      BlockingIff(all, suppressed, flagged, id);
      var f :| f in all && f.id == id && Severe(f);
      var g :| g in all && g.id == id && IsFlagged(g, KindsById(evidence));
      assert f in rules && g in rules;
      OneKind(g, KindsById(evidence));
    }
    if BlocksByName(rules, suppressed) {
      var f :| f in rules && Severe(f) && f.id !in suppressed
               && exists g <- rules :: g.id == f.id && g.rule == CAUSAL_RULE;
      var g :| g in rules && g.id == f.id && g.rule == CAUSAL_RULE;
      assert f in all && g in all;
      BlockingIff(all, suppressed, flagged, f.id);
    }
  }

  /** So the exit code is never 1 without trials, unless a rule pack uses the causal rule's name. */
  lemma ExitCodeWithoutTrials(
    rules: seq<Finding>, budget: seq<Finding>, evidence: seq<Evidence>, suppressed: set<string>, flagged: set<string>,
    state: ResultState)
    requires FoundWithoutTrials(rules, budget) && Flags(flagged, rules + budget, evidence)
    ensures ExitCode(state, BlockingIds(rules + budget, suppressed, flagged)) == 1
       <==> state != AnalysisIncomplete && BlocksByName(rules, suppressed)
  {
    BlockingWithoutTrials(rules, budget, evidence, suppressed, flagged);
  }

  // ----- rules of a signed pack ----------------------------------------------------------------------------------

  /** How the blocking rule reads a severity or a confidence; what it does not ask for blocks nothing. */
  function SeverityFrom(j: StaticCache.Json): Severity {
    if j == StaticCache.String("critical") then Critical
    else if j == StaticCache.String("high") then HighSeverity
    else Info
  }

  function ConfidenceFrom(j: StaticCache.Json): Confidence {
    if j == StaticCache.String("high") then HighConfidence else LowConfidence
  }

  function Reported(f: StaticCache.Finding): Finding {
    Finding(f.id, f.ruleId, SeverityFrom(f.severity), ConfidenceFrom(f.confidence), f.evidenceIds)
  }

  function AllReported(findings: seq<StaticCache.Finding>): (s: seq<Finding>)
    ensures |s| == |findings|
  {
    seq(|findings|, i requires 0 <= i < |findings| => Reported(findings[i]))
  }

  /** In the answer of an analysis, a rule that hits has a finding under its name with one piece of evidence. */
  lemma MatchIsReported(
    w: StaticCache.World, r: StaticCache.Request, a: StaticCache.StaticAnalysis, rule: StaticCache.Rule, text: string)
    returns (f: StaticCache.Finding)
    requires StaticCache.Composed(w, r, a) && r.pack.Some? && rule in r.pack.value.rules
    requires StaticCache.ReadsText(w, r.snapshot, text) && StaticCache.Hits(w, rule, text)
    ensures f in a.findings && f.ruleId == rule.id && f.severity == rule.severity
    ensures f.confidence == StaticCache.String("high") && |f.evidenceIds| == 1
  {
    var core, p := w.analyze(r.installation, r.snapshot), r.pack.value;
    var added, cited := a.findings[|core.findings|..], a.evidence[|core.evidence|..];
    var hits :| StaticCache.ReportsHits(added, cited, hits, w, p, p.rules, text);
    var i: nat :| i < |p.rules| && p.rules[i] == rule;
    assert i in hits;
    var k :| 0 <= k < |hits| && hits[k] == i;
    assert StaticCache.ReportsHit(added[k], cited[k], w, p, p.rules[hits[k]], text);
    f := added[k];
    assert f == a.findings[|core.findings| + k];
  }

  predicate SevereRule(rule: StaticCache.Rule) {
    rule.severity == StaticCache.String("high") || rule.severity == StaticCache.String("critical")
  }

  /**
    Whatever the core analysis finds: a severe rule that hits and is named like the causal rule makes the report of
    the answer block, without any trial and with one piece of evidence.
   */
  lemma SignedRuleBlocks(
    w: StaticCache.World, r: StaticCache.Request, a: StaticCache.StaticAnalysis, rule: StaticCache.Rule, text: string,
    evidence: seq<Evidence>, flagged: set<string>, state: ResultState)
    requires StaticCache.Composed(w, r, a) && r.pack.Some? && rule in r.pack.value.rules
    requires StaticCache.ReadsText(w, r.snapshot, text) && StaticCache.Hits(w, rule, text)
    requires rule.id == "ASD600" && SevereRule(rule) && state != AnalysisIncomplete
    requires Flags(flagged, AllReported(a.findings), evidence)
    ensures ExitCode(state, BlockingIds(AllReported(a.findings), {}, flagged)) == 1
  {
    var all := AllReported(a.findings);
    var f := MatchIsReported(w, r, a, rule, text);
    var i :| 0 <= i < |a.findings| && a.findings[i] == f;
    var g := Reported(f);
    assert all[i] == g && g in all && IsFlagged(g, KindsById(evidence)) && Severe(g);
    assert g.id in flagged;
    BlockingIff(all, {}, flagged, g.id);
  }

  /** A signed pack with one severe rule that is named like the causal rule. */
  function CausalRulePack(sha: string, literal: string): StaticCache.Pack {
    StaticCache.Pack("1", sha, [StaticCache.Rule("ASD600", "t", "m", literal, StaticCache.String("high"), true)])
  }

  /** A check of a skill whose document is the literal of that rule. */
  function ProbeRequest(w: StaticCache.World, sha: string, literal: string): StaticCache.Request {
    var p := CausalRulePack(sha, literal);
    StaticCache.Request(StaticCache.Installation("", "", "", ""), StaticCache.Probe(w, p), Some(p), false)
  }

  /** Such a pack passes verification, whose names need only be `ASD` and three digits; and it matches some skill. */
  lemma SignedRuleCanBlock(
    w: StaticCache.World, sha: string, literal: string, a: StaticCache.StaticAnalysis, evidence: seq<Evidence>,
    flagged: set<string>)
    requires StaticCache.Sensible(w) && |sha| == 64 && StaticCache.Composed(w, ProbeRequest(w, sha, literal), a)
    requires Flags(flagged, AllReported(a.findings), evidence)
    ensures ExitCode(Indeterminate, BlockingIds(AllReported(a.findings), {}, flagged)) == 1
  {
    var r := ProbeRequest(w, sha, literal);
    var rule, files := r.pack.value.rules[0], r.snapshot.manifest.files;
    assert rule in r.pack.value.rules && files[0].path == "SKILL.md";
    assert StaticCache.IsDocument(files, w.encode(literal)) && StaticCache.ReadsText(w, r.snapshot, literal);
    assert StaticCache.OccursAt(literal, literal, 0) && StaticCache.HitsAt(w, rule, literal, 0);
    SignedRuleBlocks(w, r, a, rule, literal, evidence, flagged, Indeterminate);
  }
}
