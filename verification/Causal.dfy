/**
  Causal assessment (`causal.py`): trials are grouped by skill, snapshot and case; a group confirms a cause
  when every repetition fails and every control passes.
 */
module Causal {
  import opened Prelude
  import opened Models

  datatype Category = Skill | Runtime | Model | Dependency | Permission | Configuration | Environment | Unrelated

  datatype NodeStatus = Confirmed | Remaining | Eliminated

  datatype Missing = RepeatedReproduction | ControlledCounterfactual | TrustedContract | DynamicReproduction

  datatype Relation = Caused | UnrelatedRole | Contributed | Exposed

  datatype Trial = Trial(
    caseId: string, repetition: int, control: bool, trusted: bool, passed: bool,
    exposed: bool,      // a canary leaked, or a sandbox process was left behind
    timedOut: bool)

  datatype TestResult = TestResult(skill: string, snapshot: string, trials: seq<Trial>)

  datatype Key = Key(skill: string, snapshot: string, caseId: string)

  datatype Keyed = Keyed(key: Key, trial: Trial)

  /** The SHA-256 identities, as values that differ exactly when their inputs do. */
  datatype EvidenceId =
    | StaticEvidence(name: string)
    | TrialEvidence(snapshot: string, caseId: string, control: bool, repetition: int)

  datatype EvidenceKind = ControlledCounterfactualKind | DynamicReproductionKind | OtherKind(name: string)

  datatype Evidence = Evidence(id: EvidenceId, kind: EvidenceKind)

  /** A causal finding; its identity is made from the snapshot and the case alone. */
  datatype CausalFinding = CausalFinding(
    snapshot: string, caseId: string, severity: Severity, evidence: seq<EvidenceId>)

  datatype Outcome = Outcome(
    findings: seq<CausalFinding>, eliminated: set<Key>, remaining: set<Category>, missing: set<Missing>,
    roles: set<Relation>, nodes: map<Category, NodeStatus>, confirmed: bool, indeterminate: bool)

  // ----- groups ---------------------------------------------------------------------------------------------

  function KeyedTrials(r: TestResult): (s: seq<Keyed>)
    ensures |s| == |r.trials|
  {
    seq(|r.trials|, i requires 0 <= i < |r.trials| =>
      Keyed(Key(r.skill, r.snapshot, r.trials[i].caseId), r.trials[i]))
  }

  function Flatten(results: seq<TestResult>): seq<Keyed> {
    if results == [] then [] else Flatten(results[..|results| - 1]) + KeyedTrials(results[|results| - 1])
  }

  function Group(items: seq<Keyed>, key: Key): seq<Trial> {
    if items == [] then []
    else Group(items[..|items| - 1], key)
         + if items[|items| - 1].key == key then [items[|items| - 1].trial] else []
  }

  function Keep(trials: seq<Trial>, p: Trial -> bool): seq<Trial> {
    if trials == [] then []
    else Keep(trials[..|trials| - 1], p) + if p(trials[|trials| - 1]) then [trials[|trials| - 1]] else []
  }

  function IsControl(): Trial -> bool { (t: Trial) => t.control }

  function IsTreatment(): Trial -> bool { (t: Trial) => !t.control }

  function HasPassed(): Trial -> bool { (t: Trial) => t.passed }

  function HasFailed(): Trial -> bool { (t: Trial) => !t.passed }

  function Treatments(trials: seq<Trial>): seq<Trial> { Keep(trials, IsTreatment()) }

  function Controls(trials: seq<Trial>): seq<Trial> { Keep(trials, IsControl()) }

  // ----- what a group means -----------------------------------------------------------------------------------

  ghost predicate AllTreatments(trials: seq<Trial>, p: Trial -> bool) { forall t <- trials :: !t.control ==> p(t) }

  ghost predicate AllControls(trials: seq<Trial>, p: Trial -> bool) { forall t <- trials :: t.control ==> p(t) }

  function IsTrusted(): Trial -> bool { (t: Trial) => t.trusted }

  function IsUnexposed(): Trial -> bool { (t: Trial) => !t.exposed }

  /** All that the assessment looks at in a group. */
  datatype Facts = Facts(
    treatments: nat, controls: nat, trusted: bool, allFailed: bool, allPassed: bool,
    controlsPassed: bool, controlsFailed: bool, treatmentsUnexposed: bool, controlsUnexposed: bool)

  ghost function FactsOf(trials: seq<Trial>): Facts {
    Facts(|Treatments(trials)|, |Controls(trials)|,
          AllTreatments(trials, IsTrusted()), AllTreatments(trials, HasFailed()), AllTreatments(trials, HasPassed()),
          AllControls(trials, HasPassed()), AllControls(trials, HasFailed()),
          AllTreatments(trials, IsUnexposed()), AllControls(trials, IsUnexposed()))
  }

  /** Two or more treatments, all trusted and failing, and a control, all passing. */
  predicate Confirms(f: Facts) {
    f.treatments >= 2 && f.trusted && f.allFailed && f.controls >= 1 && f.controlsPassed
  }

  /** The skill works in every treatment while its absence fails every control. */
  predicate Exonerates(f: Facts) { f.treatments >= 1 && f.allPassed && f.controls >= 1 && f.controlsFailed }

  /** A failure that is neither confirmed nor explained away. */
  predicate Open(f: Facts) { !Confirms(f) && !Exonerates(f) && !f.allPassed }

  /** What an open group still lacks for a confirmation. */
  function Lacking(f: Facts): set<Missing> {
    if !Open(f) then {}
    else (if f.treatments < 2 then {RepeatedReproduction} else {})
         + (if f.controls == 0 then {ControlledCounterfactual} else {})
         + if f.trusted then {} else {TrustedContract}
  }

  /** The causal roles of the skill that a group shows. */
  function Roles(f: Facts): set<Relation> {
    (if Confirms(f) then {Caused} else {})
    + (if Exonerates(f) then {UnrelatedRole} else {})
    + (if Open(f) && !f.allFailed then {Contributed} else {})
    + if Open(f) && !f.treatmentsUnexposed && f.controlsUnexposed then {Exposed} else {}
  }

  function SeverityOf(trials: seq<Trial>): Severity {
    if exists t <- trials :: t.exposed then Critical
    else if exists t <- trials :: t.timedOut then HighSeverity
    else MediumSeverity
  }

  function EvidenceIds(snapshot: string, trials: seq<Trial>): (s: seq<EvidenceId>)
    ensures |s| == |trials|
  {
    seq(|trials|, i requires 0 <= i < |trials| =>
      TrialEvidence(snapshot, trials[i].caseId, trials[i].control, trials[i].repetition))
  }

  function FindingOf(key: Key, trials: seq<Trial>): CausalFinding {
    CausalFinding(key.snapshot, key.caseId, SeverityOf(trials),
                  EvidenceIds(key.snapshot, Treatments(trials)) + EvidenceIds(key.snapshot, Controls(trials)))
  }

  function Keys(items: seq<Keyed>): set<Key> { set i | 0 <= i < |items| :: items[i].key }

  datatype Verdict = Verdict(
    finding: Option<CausalFinding>, exonerated: bool, missing: set<Missing>, roles: set<Relation>)

  ghost function VerdictOf(key: Key, trials: seq<Trial>): Verdict {
    var f := FactsOf(trials);
    Verdict(if Confirms(f) then Some(FindingOf(key, trials)) else None, Exonerates(f), Lacking(f), Roles(f))
  }

  ghost function Verdicts(items: seq<Keyed>): map<Key, Verdict> {
    map k <- Keys(items) :: VerdictOf(k, Group(items, k))
  }

  ghost function Confirming(verdicts: map<Key, Verdict>, keys: set<Key>): set<Key>
    requires keys <= verdicts.Keys
  {
    set k <- keys | verdicts[k].finding.Some?
  }

  ghost function Exonerating(verdicts: map<Key, Verdict>, keys: set<Key>): set<Key>
    requires keys <= verdicts.Keys
  {
    set k <- keys | verdicts[k].exonerated
  }

  // ----- what the assessment must say ---------------------------------------------------------------------------

  const SUSPECTS: set<Category> := {Skill, Runtime, Model, Dependency, Permission, Configuration, Environment}

  ghost function RemainingOf(verdicts: map<Key, Verdict>, hypotheses: seq<Option<Category>>): set<Category> {
    (if Confirming(verdicts, verdicts.Keys) == {} && Exonerating(verdicts, verdicts.Keys) == {}
     then SUSPECTS else SUSPECTS - {Skill})
    + set h <- hypotheses | h.Some? :: h.value
  }

  function NodeOf(c: Category, confirmed: bool, remaining: set<Category>): NodeStatus {
    if c == Skill && confirmed then Confirmed else if c in remaining then Remaining else Eliminated
  }

  /** What the loop over the groups has gathered from those in `done`. */
  datatype Tally = Tally(
    findings: seq<CausalFinding>, eliminated: set<Key>, missing: set<Missing>, roles: set<Relation>)

  ghost predicate Gathers(t: Tally, verdicts: map<Key, Verdict>, done: set<Key>)
    requires done <= verdicts.Keys
  {
    && (forall f :: f in t.findings <==> exists k :: k in done && verdicts[k].finding == Some(f))
    && |t.findings| == |Confirming(verdicts, done)|
    && t.eliminated == Exonerating(verdicts, done)
    && (forall m :: m in t.missing <==> exists k :: k in done && m in verdicts[k].missing)
    && (forall role :: role in t.roles <==> exists k :: k in done && role in verdicts[k].roles)
  }

  /** The outcome follows from what the groups say, and from nothing else. */
  ghost predicate Follows(
    o: Outcome, verdicts: map<Key, Verdict>, noTrials: bool, existing: nat, hypotheses: seq<Option<Category>>)
  {
    && (exists missing ::
          && Gathers(Tally(o.findings, o.eliminated, missing, o.roles), verdicts, verdicts.Keys)
          && o.missing == missing + if noTrials then {DynamicReproduction, ControlledCounterfactual} else {})
    && o.remaining == RemainingOf(verdicts, hypotheses)
    && (o.confirmed <==> Confirming(verdicts, verdicts.Keys) != {})
    && (forall c :: c in o.nodes && o.nodes[c] == NodeOf(c, o.confirmed, o.remaining))
    && (o.indeterminate <==> (!noTrials || existing > 0 || hypotheses != []) && !o.confirmed)
  }

  ghost predicate Explains(o: Outcome, items: seq<Keyed>, existing: nat, hypotheses: seq<Option<Category>>) {
    Follows(o, Verdicts(items), items == [], existing, hypotheses)
  }

  // ----- the algorithm ------------------------------------------------------------------------------------------

  lemma {:induction false} KeptAll(trials: seq<Trial>, p: Trial -> bool)
    ensures |Keep(trials, p)| <= |trials|
    ensures |Keep(trials, p)| == |trials| <==> forall t <- trials :: p(t)
    ensures Keep(trials, p) == [] <==> forall t <- trials :: !p(t)
  {
    if trials != [] {
      KeptAll(trials[..|trials| - 1], p);
      assert forall t :: t in trials <==> t in trials[..|trials| - 1] || t == trials[|trials| - 1];
    }
  }

  lemma {:induction false} KeptMembers(trials: seq<Trial>, p: Trial -> bool, t: Trial)
    ensures t in Keep(trials, p) <==> t in trials && p(t)
  {
    if trials != [] {
      KeptMembers(trials[..|trials| - 1], p, t);
      assert t in trials <==> t in trials[..|trials| - 1] || t == trials[|trials| - 1];
    }
  }

  /** Counting the kept treatments and controls is the same as asking about all of them. */
  lemma KeptParts(trials: seq<Trial>, p: Trial -> bool, q: Trial -> bool)
    requires forall t :: q(t) <==> !p(t)
    ensures |Keep(Treatments(trials), p)| == |Treatments(trials)| <==> AllTreatments(trials, p)
    ensures |Keep(Controls(trials), p)| == |Controls(trials)| <==> AllControls(trials, p)
    ensures Keep(Treatments(trials), p) == [] <==> AllTreatments(trials, q)
    ensures Keep(Controls(trials), p) == [] <==> AllControls(trials, q)
  {
    KeptAll(Treatments(trials), p);
    KeptAll(Controls(trials), p);
    forall t ensures t in Treatments(trials) <==> t in trials && !t.control { KeptMembers(trials, IsTreatment(), t); }
    forall t ensures t in Controls(trials) <==> t in trials && t.control { KeptMembers(trials, IsControl(), t); }
  }

  ghost predicate Groups(grouped: map<Key, seq<Trial>>, items: seq<Keyed>) {
    grouped.Keys == Keys(items) && forall k :: k in grouped ==> grouped[k] == Group(items, k)
  }

  lemma GroupsGrow(grouped: map<Key, seq<Trial>>, items: seq<Keyed>, key: Key, trial: Trial)
    requires Groups(grouped, items)
    ensures Groups(grouped[key := (if key in grouped then grouped[key] else []) + [trial]], items + [Keyed(key, trial)])
  {
    GroupOfMore(items, Keyed(key, trial));
  }

  lemma GroupOfMore(items: seq<Keyed>, item: Keyed)
    ensures Keys(items + [item]) == Keys(items) + {item.key}
    ensures forall k :: Group(items + [item], k) == Group(items, k) + if k == item.key then [item.trial] else []
    ensures item.key !in Keys(items) ==> Group(items, item.key) == []
  {
    var more := items + [item];
    assert more[..|more| - 1] == items;
    assert forall i :: 0 <= i < |items| ==> more[i] == items[i];
    assert more[|items|] == item;
    if item.key !in Keys(items) { NoKeyNoGroup(items, item.key); }
  }

  lemma {:induction false} NoKeyNoGroup(items: seq<Keyed>, key: Key)
    requires key !in Keys(items)
    ensures Group(items, key) == []
  {
    if items != [] {
      assert items[|items| - 1].key != key;
      assert forall i :: 0 <= i < |items| - 1 ==> items[..|items| - 1][i].key == items[i].key;
      NoKeyNoGroup(items[..|items| - 1], key);
    }
  }

  /** The groups, and their keys in the order in which a dictionary keeps them. */
  method GroupTrials(results: seq<TestResult>) returns (grouped: map<Key, seq<Trial>>, order: seq<Key>)
    ensures Groups(grouped, Flatten(results)) && Lists(order, grouped.Keys)
  {
    grouped, order := map[], [];
    for r := 0 to |results|
      invariant Groups(grouped, Flatten(results[..r])) && Lists(order, grouped.Keys)
    {
      grouped, order := GroupResult(grouped, order, results[r], Flatten(results[..r]));
      assert results[..r + 1][..r] == results[..r];
    }
    assert results[..|results|] == results;
  }

  ghost predicate Lists(order: seq<Key>, keys: set<Key>) {
    NoDuplicates(order) && forall k :: k in order <==> k in keys
  }

  method GroupResult(before: map<Key, seq<Trial>>, orderBefore: seq<Key>, result: TestResult, ghost items: seq<Keyed>)
    returns (grouped: map<Key, seq<Trial>>, order: seq<Key>)
    requires Groups(before, items) && Lists(orderBefore, before.Keys)
    ensures Groups(grouped, items + KeyedTrials(result)) && Lists(order, grouped.Keys)
  {
    grouped, order := before, orderBefore;
    ghost var added := [];
    assert items + added == items;
    for t := 0 to |result.trials|
      invariant added == KeyedTrials(result)[..t]
      invariant Groups(grouped, items + added) && Lists(order, grouped.Keys)
    {
      var trial := result.trials[t];
      var key := Key(result.skill, result.snapshot, trial.caseId);
      GroupsGrow(grouped, items + added, key, trial);
      if key !in grouped { order := order + [key]; }
      grouped := grouped[key := (if key in grouped then grouped[key] else []) + [trial]];
      assert items + (added + [Keyed(key, trial)]) == items + added + [Keyed(key, trial)];
      added := added + [Keyed(key, trial)];
    }
    assert KeyedTrials(result)[..|result.trials|] == KeyedTrials(result);
  }

  method Observe(trials: seq<Trial>) returns (f: Facts)
    ensures f == FactsOf(trials)
  {
    var treatments, controls := Treatments(trials), Controls(trials);
    f := Facts(|treatments|, |controls|,
               |Keep(treatments, IsTrusted())| == |treatments|, |Keep(treatments, HasFailed())| == |treatments|,
               |Keep(treatments, HasPassed())| == |treatments|,
               |Keep(controls, HasPassed())| == |controls|, Keep(controls, HasPassed()) == [],
               |Keep(treatments, IsUnexposed())| == |treatments|, |Keep(controls, IsUnexposed())| == |controls|);
    KeptParts(trials, IsTrusted(), (t: Trial) => !t.trusted);
    KeptParts(trials, HasPassed(), HasFailed());
    KeptParts(trials, HasFailed(), HasPassed());
    KeptParts(trials, IsUnexposed(), (t: Trial) => t.exposed);
  }

  /** The facts of a real group: there is no failing treatment without a treatment, and so on. */
  lemma NoTreatmentsPass(trials: seq<Trial>)
    ensures FactsOf(trials).treatments == 0 ==> FactsOf(trials).allPassed
    ensures FactsOf(trials).treatments > 0 ==> !(FactsOf(trials).allPassed && FactsOf(trials).allFailed)
    ensures FactsOf(trials).controls > 0 ==> !(FactsOf(trials).controlsPassed && FactsOf(trials).controlsFailed)
  {
    forall t ensures t in Treatments(trials) <==> t in trials && !t.control { KeptMembers(trials, IsTreatment(), t); }
    forall t ensures t in Controls(trials) <==> t in trials && t.control { KeptMembers(trials, IsControl(), t); }
    if |Treatments(trials)| > 0 { assert Treatments(trials)[0] in trials; }
    if |Controls(trials)| > 0 { assert Controls(trials)[0] in trials; }
  }

  /** What one group adds: its branch of the program's chain of conditions. */
  method AssessGroup(key: Key, trials: seq<Trial>) returns (v: Verdict)
    ensures v == VerdictOf(key, trials)
  {
    var f := Observe(trials);
    NoTreatmentsPass(trials);
    var reproducible := f.trusted && f.treatments >= 2 && f.allFailed;
    var counterfactual := f.controls > 0 && f.controlsPassed;
    if reproducible && counterfactual {
      v := Verdict(Some(FindingOf(key, trials)), false, {}, {Caused});
    } else if f.treatments > 0 && f.allPassed && f.controls > 0 && f.controlsFailed {
      v := Verdict(None, true, {}, {UnrelatedRole});
    } else if !f.allPassed {
      var missing: set<Missing>, roles: set<Relation> := {}, {};
      if !f.allFailed { roles := {Contributed}; }
      if !f.treatmentsUnexposed && f.controlsUnexposed { roles := roles + {Exposed}; }
      if f.treatments < 2 { missing := missing + {RepeatedReproduction}; }
      if f.controls == 0 { missing := missing + {ControlledCounterfactual}; }
      if !f.trusted { missing := missing + {TrustedContract}; }
      v := Verdict(None, false, missing, roles);
    } else {
      v := Verdict(None, false, {}, {});
    }
  }

  function Added(t: Tally, key: Key, v: Verdict): Tally {
    Tally(t.findings + (if v.finding.Some? then [v.finding.value] else []),
          t.eliminated + (if v.exonerated then {key} else {}), t.missing + v.missing, t.roles + v.roles)
  }

  ghost function TallyOf(order: seq<Key>, judge: Key -> Verdict): Tally {
    if order == [] then Tally([], {}, {}, {})
    else
      var key := order[|order| - 1];
      Added(TallyOf(order[..|order| - 1], judge), key, judge(key))
  }

  /** The loop over the groups, in dictionary order. */
  method AssessGroups(grouped: map<Key, seq<Trial>>, order: seq<Key>, ghost judge: Key -> Verdict)
    returns (t: Tally, remaining: set<Category>)
    requires forall k :: k in order ==> k in grouped && judge(k) == VerdictOf(k, grouped[k])
    ensures t == TallyOf(order, judge)
    ensures remaining == if t.findings == [] && t.eliminated == {} then SUSPECTS else SUSPECTS - {Skill}
  {
    t, remaining := Tally([], {}, {}, {}), SUSPECTS;
    for i := 0 to |order|
      invariant t == TallyOf(order[..i], judge)
      invariant remaining == if t.findings == [] && t.eliminated == {} then SUSPECTS else SUSPECTS - {Skill}
    {
      var v := AssessGroup(order[i], grouped[order[i]]);
      if v.finding.Some? || v.exonerated { remaining := remaining - {Skill}; }
      t := Added(t, order[i], v);
      assert order[..i + 1][..i] == order[..i];
    }
    assert order[..|order|] == order;
  }

  lemma KeysMore(verdicts: map<Key, Verdict>, done: set<Key>, key: Key)
    requires done <= verdicts.Keys && key in verdicts.Keys - done
    ensures Confirming(verdicts, done + {key})
         == if verdicts[key].finding.Some? then Confirming(verdicts, done) + {key} else Confirming(verdicts, done)
    ensures Exonerating(verdicts, done + {key})
         == if verdicts[key].exonerated then Exonerating(verdicts, done) + {key} else Exonerating(verdicts, done)
  {
  }

  lemma GathersMore(t: Tally, verdicts: map<Key, Verdict>, done: set<Key>, key: Key)
    requires done <= verdicts.Keys && key in verdicts.Keys - done && Gathers(t, verdicts, done)
    ensures Gathers(Added(t, key, verdicts[key]), verdicts, done + {key})
  {
    var after, v := Added(t, key, verdicts[key]), verdicts[key];
    KeysMore(verdicts, done, key);
    forall f ensures f in after.findings <==> f in t.findings || v.finding == Some(f) { }
    forall m ensures m in after.missing <==> m in t.missing || m in v.missing { }
    forall role ensures role in after.roles <==> role in t.roles || role in v.roles { }
  }

  lemma {:induction false} TallyGathers(order: seq<Key>, judge: Key -> Verdict, verdicts: map<Key, Verdict>)
    requires NoDuplicates(order) && forall k :: k in order ==> k in verdicts && judge(k) == verdicts[k]
    ensures (set k <- order) <= verdicts.Keys && Gathers(TallyOf(order, judge), verdicts, set k <- order)
  {
    if order != [] {
      var n := |order| - 1;
      TallyGathers(order[..n], judge, verdicts);
      assert (set k <- order) == (set k <- order[..n]) + {order[n]};
      GathersMore(TallyOf(order[..n], judge), verdicts, (set k <- order[..n]), order[n]);
    }
  }

  /** The summary of what was gathered. */
  function Concluded(
    t: Tally, suspects: set<Category>, existing: nat, hypotheses: seq<Option<Category>>, noTrials: bool): Outcome
  {
    var remaining := suspects + set h <- hypotheses | h.Some? :: h.value;
    var missing := t.missing + if noTrials then {DynamicReproduction, ControlledCounterfactual} else {};
    var confirmed := t.findings != [];
    var nodes := map c: Category | true :: NodeOf(c, confirmed, remaining);
    Outcome(t.findings, t.eliminated, remaining, missing, t.roles, nodes, confirmed,
            (!noTrials || existing > 0 || hypotheses != []) && !confirmed)
  }

  method AssessCausality(results: seq<TestResult>, existing: nat, hypotheses: seq<Option<Category>>)
    returns (o: Outcome)
    ensures Explains(o, Flatten(results), existing, hypotheses)
  {
    var grouped, order := GroupTrials(results);
    var t, suspects := AssessGroups(grouped, order, JudgeOf(Flatten(results)));
    o := Concluded(t, suspects, existing, hypotheses, |order| == 0);
    TallyExplains(order, Flatten(results), t);
    ConcludedFollows(t, suspects, existing, hypotheses, |order| == 0, Verdicts(Flatten(results)));
  }

  ghost function JudgeOf(items: seq<Keyed>): Key -> Verdict { (k: Key) => VerdictOf(k, Group(items, k)) }

  lemma TallyExplains(order: seq<Key>, items: seq<Keyed>, t: Tally)
    requires Lists(order, Keys(items)) && t == TallyOf(order, JudgeOf(items))
    ensures Gathers(t, Verdicts(items), Verdicts(items).Keys)
    ensures order == [] <==> items == []
  {
    var verdicts := Verdicts(items);
    forall k | k in order ensures k in verdicts && JudgeOf(items)(k) == verdicts[k] { }
    TallyGathers(order, JudgeOf(items), verdicts);
    assert (set k <- order) == verdicts.Keys;
    if items != [] { assert items[0].key in Keys(items); }
    if order != [] { assert order[0] in Keys(items); }
  }

  lemma ConcludedFollows(
    t: Tally, suspects: set<Category>, existing: nat, hypotheses: seq<Option<Category>>, noTrials: bool,
    verdicts: map<Key, Verdict>)
    requires Gathers(t, verdicts, verdicts.Keys)
    requires suspects == if t.findings == [] && t.eliminated == {} then SUSPECTS else SUSPECTS - {Skill}
    ensures Follows(Concluded(t, suspects, existing, hypotheses, noTrials), verdicts, noTrials, existing, hypotheses)
  {
    var o := Concluded(t, suspects, existing, hypotheses, noTrials);
    assert t == Tally(o.findings, o.eliminated, t.missing, o.roles);
    assert t.findings == [] <==> Confirming(verdicts, verdicts.Keys) == {};
  }
}
