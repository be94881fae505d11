/** When a cause is confirmed, and that the order of results and trials decides nothing. */
module CausalTheorems {
  import opened Prelude
  import opened Models
  import opened Causal

  // ----- confirmation, read off the trials ----------------------------------------------------------------

  predicate IsTreatmentOf(items: seq<Keyed>, key: Key, i: nat) {
    i < |items| && items[i].key == key && !items[i].trial.control
  }

  predicate IsControlOf(items: seq<Keyed>, key: Key, i: nat) {
    i < |items| && items[i].key == key && items[i].trial.control
  }

  /** Two treatments of one skill, snapshot and case; every one trusted and failing; a control, each passing. */
  ghost predicate Reproduced(items: seq<Keyed>, key: Key) {
    && (exists i: nat, j: nat :: i < j && IsTreatmentOf(items, key, i) && IsTreatmentOf(items, key, j))
    && (forall i: nat :: IsTreatmentOf(items, key, i) ==> items[i].trial.trusted && !items[i].trial.passed)
    && (exists i: nat :: IsControlOf(items, key, i))
    && (forall i: nat :: IsControlOf(items, key, i) ==> items[i].trial.passed)
  }

  lemma {:induction false} GroupHas(items: seq<Keyed>, key: Key, t: Trial)
    ensures t in Group(items, key) <==> Keyed(key, t) in items
  {
    if items != [] {
      var n := |items| - 1;
      GroupHas(items[..n], key, t);
      assert items == items[..n] + [items[n]];
    }
  }

  predicate Selects(p: Trial -> bool, items: seq<Keyed>, key: Key, i: nat) {
    i < |items| && items[i].key == key && p(items[i].trial)
  }

  lemma KeepSplits(a: seq<Trial>, t: Trial, p: Trial -> bool)
    ensures Keep(a + [t], p) == Keep(a, p) + if p(t) then [t] else []
  {
    assert (a + [t])[..|a|] == a;
  }

  /** The kept trials of a group are as many as the items that put them there. */
  lemma {:induction false} KeptOne(items: seq<Keyed>, key: Key, p: Trial -> bool)
    ensures |Keep(Group(items, key), p)| >= 1 <==> exists i: nat :: Selects(p, items, key, i)
  {
    if items != [] {
      var n := |items| - 1;
      var front := items[..n];
      KeptOne(front, key, p);
      KeepSplits(Group(front, key), items[n].trial, p);
      assert Group(front, key) + [] == Group(front, key);
      if i: nat :| Selects(p, items, key, i) && i < n { assert Selects(p, front, key, i); }
      if i: nat :| Selects(p, front, key, i) { assert Selects(p, items, key, i); }
      assert Selects(p, items, key, n) <==> items[n].key == key && p(items[n].trial);
    }
  }

  lemma {:induction false} KeptTwo(items: seq<Keyed>, key: Key, p: Trial -> bool)
    ensures |Keep(Group(items, key), p)| >= 2
       <==> exists i: nat, j: nat :: i < j && Selects(p, items, key, i) && Selects(p, items, key, j)
  {
    if items != [] {
      var n := |items| - 1;
      var front := items[..n];
      KeptTwo(front, key, p);
      KeptOne(front, key, p);
      KeepSplits(Group(front, key), items[n].trial, p);
      assert Group(front, key) + [] == Group(front, key);
      assert forall i: nat :: i < n ==> (Selects(p, front, key, i) <==> Selects(p, items, key, i));
      assert forall i: nat :: Selects(p, front, key, i) ==> i < n;
      assert forall i: nat :: Selects(p, items, key, i) ==> i <= n;
      assert Selects(p, items, key, n) <==> items[n].key == key && p(items[n].trial);
    }
  }

  lemma AllOfGroup(items: seq<Keyed>, key: Key, p: Trial -> bool)
    ensures AllTreatments(Group(items, key), p) <==> forall i: nat :: IsTreatmentOf(items, key, i) ==> p(items[i].trial)
    ensures AllControls(Group(items, key), p) <==> forall i: nat :: IsControlOf(items, key, i) ==> p(items[i].trial)
  {
    forall i: nat | i < |items| && items[i].key == key ensures items[i].trial in Group(items, key) {
      GroupHas(items, key, items[i].trial);
      assert items[i] == Keyed(key, items[i].trial);
    }
    forall t | t in Group(items, key) ensures exists i: nat :: i < |items| && items[i] == Keyed(key, t) {
      GroupHas(items, key, t);
    }
  }

  lemma TreatmentCount(items: seq<Keyed>, key: Key)
    ensures |Treatments(Group(items, key))| >= 2
       <==> exists i: nat, j: nat :: i < j && IsTreatmentOf(items, key, i) && IsTreatmentOf(items, key, j)
    ensures |Controls(Group(items, key))| >= 1 <==> exists i: nat :: IsControlOf(items, key, i)
  {
    KeptTwo(items, key, IsTreatment());
    KeptOne(items, key, IsControl());
    assert forall i: nat :: Selects(IsTreatment(), items, key, i) <==> IsTreatmentOf(items, key, i);
    assert forall i: nat :: Selects(IsControl(), items, key, i) <==> IsControlOf(items, key, i);
  }

  lemma ConfirmsIffReproduced(items: seq<Keyed>, key: Key)
    ensures Confirms(FactsOf(Group(items, key))) <==> Reproduced(items, key)
  {
    TreatmentCount(items, key);
    AllOfGroup(items, key, IsTrusted());
    AllOfGroup(items, key, HasFailed());
    AllOfGroup(items, key, HasPassed());
  }

  lemma ReproducedHasKey(items: seq<Keyed>, key: Key)
    requires Reproduced(items, key)
    ensures key in Keys(items)
  {
    var i: nat :| IsControlOf(items, key, i);
    assert items[i].key in Keys(items);
  }

  lemma VerdictConfirms(items: seq<Keyed>, key: Key)
    ensures key in Verdicts(items) && Verdicts(items)[key].finding.Some? <==> Reproduced(items, key)
  {
    ConfirmsIffReproduced(items, key);
    if Reproduced(items, key) { ReproducedHasKey(items, key); }
  }

  lemma FollowsConfirmed(
    o: Outcome, verdicts: map<Key, Verdict>, noTrials: bool, existing: nat, hypotheses: seq<Option<Category>>)
    requires Follows(o, verdicts, noTrials, existing, hypotheses)
    ensures o.confirmed <==> exists k :: k in verdicts && verdicts[k].finding.Some?
    ensures o.confirmed <==> o.findings != []
    ensures o.confirmed <==> o.nodes[Skill] == Confirmed
  {
    if k :| k in verdicts && verdicts[k].finding.Some? { assert k in Confirming(verdicts, verdicts.Keys); }
    if o.confirmed { var k :| k in Confirming(verdicts, verdicts.Keys); }
  }

  /** Some skill, snapshot and case is. */
  ghost predicate IsReproduced(items: seq<Keyed>) { exists key :: Reproduced(items, key) }

  lemma ConfirmedBy(o: Outcome, items: seq<Keyed>, existing: nat, hypotheses: seq<Option<Category>>)
    requires Explains(o, items, existing, hypotheses)
    ensures o.confirmed <==> IsReproduced(items)
    ensures o.confirmed <==> o.nodes[Skill] == Confirmed
    ensures o.confirmed <==> o.findings != []
  {
    FollowsConfirmed(o, Verdicts(items), items == [], existing, hypotheses);
    if o.confirmed { SomeConfirms(items, Verdicts(items)); }
    if key :| Reproduced(items, key) { VerdictConfirms(items, key); }
  }

  /** A diagnosis confirms a cause exactly if some skill, snapshot and case was reproduced with a counterfactual. */
  lemma ConfirmedIff(o: Outcome, results: seq<TestResult>, existing: nat, hypotheses: seq<Option<Category>>)
    requires Explains(o, Flatten(results), existing, hypotheses)
    ensures o.confirmed <==> IsReproduced(Flatten(results))
    ensures o.confirmed <==> o.nodes[Skill] == Confirmed
    ensures o.confirmed <==> o.findings != []
  {
    ConfirmedBy(o, Flatten(results), existing, hypotheses);
  }

  lemma SomeConfirms(items: seq<Keyed>, verdicts: map<Key, Verdict>)
    requires verdicts == Verdicts(items) && exists k :: k in verdicts && verdicts[k].finding.Some?
    ensures exists key :: Reproduced(items, key)
  {
    var k :| k in verdicts && verdicts[k].finding.Some?;
    VerdictConfirms(items, k);
  }

  lemma {:induction false} FlattenHas(results: seq<TestResult>, item: Keyed)
    ensures item in Flatten(results)
       <==> exists r, t :: 0 <= r < |results| && 0 <= t < |results[r].trials| && item == KeyedTrials(results[r])[t]
  {
    if results != [] {
      var n := |results| - 1;
      FlattenHas(results[..n], item);
      assert forall r :: 0 <= r < n ==> results[..n][r] == results[r];
      if item in KeyedTrials(results[n]) {
        var t :| 0 <= t < |results[n].trials| && item == KeyedTrials(results[n])[t];
      }
    }
  }

  /** Without a control, as at quick depth, no number of failures confirms anything. */
  lemma NoControlNoConfirmation(o: Outcome, results: seq<TestResult>, existing: nat, hypotheses: seq<Option<Category>>)
    requires Explains(o, Flatten(results), existing, hypotheses)
    requires forall r, t :: 0 <= r < |results| && 0 <= t < |results[r].trials| ==> !results[r].trials[t].control
    ensures !o.confirmed && o.findings == [] && o.nodes[Skill] != Confirmed
  {
    ConfirmedIff(o, results, existing, hypotheses);
    forall key ensures !Reproduced(Flatten(results), key) {
      NoControlOf(results, key);
    }
  }

  lemma NoControlOf(results: seq<TestResult>, key: Key)
    requires forall r, t :: 0 <= r < |results| && 0 <= t < |results[r].trials| ==> !results[r].trials[t].control
    ensures forall i: nat :: !IsControlOf(Flatten(results), key, i)
  {
    forall i: nat ensures !IsControlOf(Flatten(results), key, i) {
      if i < |Flatten(results)| { FlattenHas(results, Flatten(results)[i]); }
    }
  }

  // ----- the summary, read off the trials ----------------------------------------------------------------------

  /** The skill works in every treatment of the key, and its absence fails every control. */
  ghost predicate Exonerated(items: seq<Keyed>, key: Key) {
    && (exists i: nat :: IsTreatmentOf(items, key, i))
    && (forall i: nat :: IsTreatmentOf(items, key, i) ==> items[i].trial.passed)
    && (exists i: nat :: IsControlOf(items, key, i))
    && (forall i: nat :: IsControlOf(items, key, i) ==> !items[i].trial.passed)
  }

  /** Some treatment of the key failed, and the failure was not reproduced against a control. */
  ghost predicate Unexplained(items: seq<Keyed>, key: Key) {
    !Reproduced(items, key) && exists i: nat :: IsTreatmentOf(items, key, i) && !items[i].trial.passed
  }

  ghost predicate Twice(items: seq<Keyed>, key: Key) {
    exists i: nat, j: nat :: i < j && IsTreatmentOf(items, key, i) && IsTreatmentOf(items, key, j)
  }

  lemma ExoneratesIff(items: seq<Keyed>, key: Key)
    ensures Exonerates(FactsOf(Group(items, key))) <==> Exonerated(items, key)
  {
    KeptOne(items, key, IsTreatment());
    TreatmentCount(items, key);
    AllOfGroup(items, key, HasFailed());
    AllOfGroup(items, key, HasPassed());
    assert forall i: nat :: Selects(IsTreatment(), items, key, i) <==> IsTreatmentOf(items, key, i);
  }

  lemma OpenIff(items: seq<Keyed>, key: Key)
    ensures Open(FactsOf(Group(items, key))) <==> Unexplained(items, key)
  {
    ConfirmsIffReproduced(items, key);
    AllOfGroup(items, key, HasPassed());
  }

  /** An unexplained failure of fewer than two treatments. */
  ghost predicate LacksReproduction(items: seq<Keyed>, key: Key) { Unexplained(items, key) && !Twice(items, key) }

  ghost predicate LacksControl(items: seq<Keyed>, key: Key) {
    Unexplained(items, key) && forall i: nat :: !IsControlOf(items, key, i)
  }

  ghost predicate LacksTrust(items: seq<Keyed>, key: Key) {
    Unexplained(items, key) && exists i: nat :: IsTreatmentOf(items, key, i) && !items[i].trial.trusted
  }

  /** An unexplained failure of some treatments only. */
  ghost predicate Contributes(items: seq<Keyed>, key: Key) {
    Unexplained(items, key) && exists i: nat :: IsTreatmentOf(items, key, i) && items[i].trial.passed
  }

  /** An unexplained failure in which treatments exposed something and controls did not. */
  ghost predicate ExposesAlone(items: seq<Keyed>, key: Key) {
    && Unexplained(items, key)
    && (exists i: nat :: IsTreatmentOf(items, key, i) && items[i].trial.exposed)
    && forall i: nat :: IsControlOf(items, key, i) ==> !items[i].trial.exposed
  }

  lemma LackingIff(items: seq<Keyed>, key: Key)
    ensures var lacking := Lacking(FactsOf(Group(items, key)));
      && (RepeatedReproduction in lacking <==> LacksReproduction(items, key))
      && (ControlledCounterfactual in lacking <==> LacksControl(items, key))
      && (TrustedContract in lacking <==> LacksTrust(items, key))
      && DynamicReproduction !in lacking
  {
    OpenIff(items, key);
    TreatmentCount(items, key);
    LackingTrustIff(items, key);
  }

  lemma LackingTrustIff(items: seq<Keyed>, key: Key)
    ensures TrustedContract in Lacking(FactsOf(Group(items, key))) <==> LacksTrust(items, key)
  {
    OpenIff(items, key);
    AllOfGroup(items, key, IsTrusted());
  }

  lemma RolesIff(items: seq<Keyed>, key: Key)
    ensures var roles := Roles(FactsOf(Group(items, key)));
      && (Caused in roles <==> Reproduced(items, key))
      && (UnrelatedRole in roles <==> Exonerated(items, key))
      && (Contributed in roles <==> Contributes(items, key))
  {
    ConfirmsIffReproduced(items, key);
    ExoneratesIff(items, key);
    OpenIff(items, key);
    AllOfGroup(items, key, HasFailed());
  }

  lemma ExposedIff(items: seq<Keyed>, key: Key)
    ensures Exposed in Roles(FactsOf(Group(items, key))) <==> ExposesAlone(items, key)
  {
    OpenIff(items, key);
    AllOfGroup(items, key, IsUnexposed());
  }

  lemma HasKey(items: seq<Keyed>, key: Key, i: nat)
    requires i < |items| && items[i].key == key
    ensures key in Keys(items) && key in Verdicts(items)
  {
  }

  lemma VerdictsExplain(items: seq<Keyed>, verdicts: map<Key, Verdict>)
    requires verdicts == Verdicts(items)
    ensures forall k :: k in Exonerating(verdicts, verdicts.Keys) <==> Exonerated(items, k)
    ensures forall k :: k in Confirming(verdicts, verdicts.Keys) <==> Reproduced(items, k)
  {
    forall k ensures k in verdicts && verdicts[k].exonerated <==> Exonerated(items, k)
             ensures k in verdicts && verdicts[k].finding.Some? <==> Reproduced(items, k)
    {
      ExoneratesIff(items, k);
      VerdictConfirms(items, k);
      if i: nat :| IsControlOf(items, k, i) { HasKey(items, k, i); }
    }
  }

  /** No group decides about the skill. */
  ghost predicate IsOpen(items: seq<Keyed>) { forall k :: !Reproduced(items, k) && !Exonerated(items, k) }

  lemma EliminatedBy(
    o: Outcome, items: seq<Keyed>, verdicts: map<Key, Verdict>, existing: nat, hypotheses: seq<Option<Category>>)
    requires verdicts == Verdicts(items) && Follows(o, verdicts, items == [], existing, hypotheses)
    ensures forall key :: key in o.eliminated <==> Exonerated(items, key)
    ensures Skill in o.remaining <==> Some(Skill) in hypotheses || IsOpen(items)
    ensures forall c :: c != Skill ==> (c in o.remaining <==> c != Unrelated || Some(c) in hypotheses)
  {
    VerdictsExplain(items, verdicts);
    assert o.eliminated == Exonerating(verdicts, verdicts.Keys);
    RemainsIfNoneDecides(verdicts, hypotheses);
    NoneDecides(items, verdicts);
  }

  lemma RemainsIfNoneDecides(verdicts: map<Key, Verdict>, hypotheses: seq<Option<Category>>)
    ensures var remaining := RemainingOf(verdicts, hypotheses);
      && (forall c :: c != Skill ==> (c in remaining <==> c != Unrelated || Some(c) in hypotheses))
      && (Skill in remaining <==>
            || Some(Skill) in hypotheses
            || (Confirming(verdicts, verdicts.Keys) == {} && Exonerating(verdicts, verdicts.Keys) == {}))
  {
  }

  lemma NoneDecides(items: seq<Keyed>, verdicts: map<Key, Verdict>)
    requires verdicts == Verdicts(items)
    ensures Confirming(verdicts, verdicts.Keys) == {} && Exonerating(verdicts, verdicts.Keys) == {} <==> IsOpen(items)
  {
    VerdictsExplain(items, verdicts);
    assert IsOpen(items) ==> Confirming(verdicts, verdicts.Keys) == {};
    assert IsOpen(items) ==> Exonerating(verdicts, verdicts.Keys) == {};
  }

  /** Exactly the exonerated groups are eliminated; the skill remains a suspect exactly while no group decides. */
  lemma EliminatedIff(o: Outcome, results: seq<TestResult>, existing: nat, hypotheses: seq<Option<Category>>, key: Key)
    requires Explains(o, Flatten(results), existing, hypotheses)
    ensures key in o.eliminated <==> Exonerated(Flatten(results), key)
    ensures Skill in o.remaining <==> Some(Skill) in hypotheses || IsOpen(Flatten(results))
    ensures forall c :: c != Skill ==> (c in o.remaining <==> c != Unrelated || Some(c) in hypotheses)
  {
    var items := Flatten(results);
    EliminatedBy(o, items, Verdicts(items), existing, hypotheses);
  }

  lemma Gathered(
    o: Outcome, verdicts: map<Key, Verdict>, noTrials: bool, existing: nat, hypotheses: seq<Option<Category>>)
    requires Follows(o, verdicts, noTrials, existing, hypotheses)
    ensures forall m :: m in o.missing <==>
              || (noTrials && m in {DynamicReproduction, ControlledCounterfactual})
              || exists k :: k in verdicts && m in verdicts[k].missing
    ensures forall role :: role in o.roles <==> exists k :: k in verdicts && role in verdicts[k].roles
  {
  }

  lemma LackedBy(items: seq<Keyed>, key: Key)
    ensures key in Verdicts(items) && RepeatedReproduction in Verdicts(items)[key].missing
       <==> LacksReproduction(items, key)
    ensures key in Verdicts(items) && ControlledCounterfactual in Verdicts(items)[key].missing
       <==> LacksControl(items, key)
    ensures key in Verdicts(items) && TrustedContract in Verdicts(items)[key].missing <==> LacksTrust(items, key)
    ensures key in Verdicts(items) ==> DynamicReproduction !in Verdicts(items)[key].missing
  {
    LackingIff(items, key);
    if i: nat :| IsTreatmentOf(items, key, i) { HasKey(items, key, i); }
  }

  lemma ShownBy(items: seq<Keyed>, key: Key)
    ensures key in Verdicts(items) && Caused in Verdicts(items)[key].roles <==> Reproduced(items, key)
    ensures key in Verdicts(items) && UnrelatedRole in Verdicts(items)[key].roles <==> Exonerated(items, key)
    ensures key in Verdicts(items) && Contributed in Verdicts(items)[key].roles <==> Contributes(items, key)
    ensures key in Verdicts(items) && Exposed in Verdicts(items)[key].roles <==> ExposesAlone(items, key)
  {
    RolesIff(items, key);
    ExposedIff(items, key);
    if i: nat :| IsTreatmentOf(items, key, i) { HasKey(items, key, i); }
  }

  /** What is missing is what some unexplained failure lacks, or a reproduction and a control if nothing was tried. */
  lemma MissingIff(o: Outcome, results: seq<TestResult>, existing: nat, hypotheses: seq<Option<Category>>)
    requires Explains(o, Flatten(results), existing, hypotheses)
    ensures var items := Flatten(results);
      && (RepeatedReproduction in o.missing <==> exists k :: LacksReproduction(items, k))
      && (ControlledCounterfactual in o.missing <==> items == [] || exists k :: LacksControl(items, k))
      && (TrustedContract in o.missing <==> exists k :: LacksTrust(items, k))
      && (DynamicReproduction in o.missing <==> items == [])
  {
    var items := Flatten(results);
    Gathered(o, Verdicts(items), items == [], existing, hypotheses);
    forall k
      ensures k in Verdicts(items) && RepeatedReproduction in Verdicts(items)[k].missing
         <==> LacksReproduction(items, k)
      ensures k in Verdicts(items) && ControlledCounterfactual in Verdicts(items)[k].missing <==> LacksControl(items, k)
      ensures k in Verdicts(items) && TrustedContract in Verdicts(items)[k].missing <==> LacksTrust(items, k)
      ensures k in Verdicts(items) ==> DynamicReproduction !in Verdicts(items)[k].missing
    {
      LackedBy(items, k);
    }
  }

  /** The roles that the skill is said to have had are those that some group shows. */
  lemma RolesObservedIff(o: Outcome, results: seq<TestResult>, existing: nat, hypotheses: seq<Option<Category>>)
    requires Explains(o, Flatten(results), existing, hypotheses)
    ensures var items := Flatten(results);
      && (Caused in o.roles <==> exists k :: Reproduced(items, k))
      && (UnrelatedRole in o.roles <==> exists k :: Exonerated(items, k))
      && (Contributed in o.roles <==> exists k :: Contributes(items, k))
      && (Exposed in o.roles <==> exists k :: ExposesAlone(items, k))
  {
    var items := Flatten(results);
    Gathered(o, Verdicts(items), items == [], existing, hypotheses);
    forall k
      ensures k in Verdicts(items) && Caused in Verdicts(items)[k].roles <==> Reproduced(items, k)
      ensures k in Verdicts(items) && UnrelatedRole in Verdicts(items)[k].roles <==> Exonerated(items, k)
      ensures k in Verdicts(items) && Contributed in Verdicts(items)[k].roles <==> Contributes(items, k)
      ensures k in Verdicts(items) && Exposed in Verdicts(items)[k].roles <==> ExposesAlone(items, k)
    {
      ShownBy(items, k);
    }
  }

  /**
    A finding of this group: critical if a trial of it exposed something, high if one timed out, else medium; it
    cites the trials of the group and nothing else.
   */
  ghost predicate Reports(f: CausalFinding, items: seq<Keyed>, key: Key) {
    && f.snapshot == key.snapshot && f.caseId == key.caseId
    && (f.severity == Critical <==> exists i: nat :: i < |items| && items[i].key == key && items[i].trial.exposed)
    && (f.severity == HighSeverity <==>
          && (forall i: nat :: i < |items| && items[i].key == key ==> !items[i].trial.exposed)
          && exists i: nat :: i < |items| && items[i].key == key && items[i].trial.timedOut)
    && f.severity in {Critical, HighSeverity, MediumSeverity}
    && (forall id :: id in f.evidence <==> exists i: nat :: IdentifiesTrial(id, items, key, i))
  }

  predicate IdentifiesTrial(id: EvidenceId, items: seq<Keyed>, key: Key, i: nat) {
    i < |items| && items[i].key == key
    && id == TrialEvidence(key.snapshot, items[i].trial.caseId, items[i].trial.control, items[i].trial.repetition)
  }

  /** The evidence of a finding is that of the treatments and the controls of its group, and so of all its trials. */
  lemma FindingCites(items: seq<Keyed>, key: Key, id: EvidenceId)
    ensures id in FindingOf(key, Group(items, key)).evidence <==> exists i: nat :: IdentifiesTrial(id, items, key, i)
  {
    var trials := Group(items, key);
    var ids, more := EvidenceIds(key.snapshot, Treatments(trials)), EvidenceIds(key.snapshot, Controls(trials));
    if id in ids + more {
      var t: Trial;
      if id in ids {
        var k :| 0 <= k < |ids| && ids[k] == id;
        t := Treatments(trials)[k];
        KeptMembers(trials, IsTreatment(), t);
      } else {
        var k :| 0 <= k < |more| && more[k] == id;
        t := Controls(trials)[k];
        KeptMembers(trials, IsControl(), t);
      }
      GroupHas(items, key, t);
      var i: nat :| i < |items| && items[i] == Keyed(key, t);
      assert IdentifiesTrial(id, items, key, i);
    }
    if i: nat :| IdentifiesTrial(id, items, key, i) {
      var t := items[i].trial;
      assert items[i] == Keyed(key, t);
      GroupHas(items, key, t);
      KeptMembers(trials, IsTreatment(), t);
      KeptMembers(trials, IsControl(), t);
      if t.control {
        var k :| 0 <= k < |Controls(trials)| && Controls(trials)[k] == t;
        assert more[k] == id;
      } else {
        var k :| 0 <= k < |Treatments(trials)| && Treatments(trials)[k] == t;
        assert ids[k] == id;
      }
    }
  }

  lemma FindingReports(items: seq<Keyed>, key: Key)
    ensures Reports(FindingOf(key, Group(items, key)), items, key)
  {
    forall t ensures t in Group(items, key) <==> exists i: nat :: i < |items| && items[i] == Keyed(key, t) {
      GroupHas(items, key, t);
    }
    var trials := Group(items, key);
    forall i: nat | i < |items| && items[i].key == key ensures items[i].trial in trials {
      assert items[i] == Keyed(key, items[i].trial);
    }
    forall id ensures id in FindingOf(key, trials).evidence <==> exists i: nat :: IdentifiesTrial(id, items, key, i) {
      FindingCites(items, key, id);
    }
  }

  lemma FoundBy(
    o: Outcome, verdicts: map<Key, Verdict>, noTrials: bool, existing: nat, hypotheses: seq<Option<Category>>)
    requires Follows(o, verdicts, noTrials, existing, hypotheses)
    ensures forall f :: f in o.findings <==> exists k :: k in verdicts && verdicts[k].finding == Some(f)
    ensures |o.findings| == |Confirming(verdicts, verdicts.Keys)|
  {
  }

  lemma VerdictReports(items: seq<Keyed>, key: Key)
    ensures key in Verdicts(items) && Verdicts(items)[key].finding.Some? <==> Reproduced(items, key)
    ensures key in Verdicts(items) && Verdicts(items)[key].finding.Some? ==>
              Reports(Verdicts(items)[key].finding.value, items, key)
  {
    VerdictConfirms(items, key);
    FindingReports(items, key);
  }

  lemma ReporterOf(f: CausalFinding, items: seq<Keyed>, verdicts: map<Key, Verdict>) returns (k: Key)
    requires verdicts == Verdicts(items) && exists k :: k in verdicts && verdicts[k].finding == Some(f)
    ensures Reproduced(items, k) && Reports(f, items, k)
  {
    k :| k in verdicts && verdicts[k].finding == Some(f);
    VerdictReports(items, k);
  }

  lemma ReportOf(k: Key, items: seq<Keyed>, verdicts: map<Key, Verdict>, findings: seq<CausalFinding>)
    requires verdicts == Verdicts(items) && Reproduced(items, k)
    requires forall f :: f in findings <==> exists k :: k in verdicts && verdicts[k].finding == Some(f)
    ensures exists f <- findings :: Reports(f, items, k)
  {
    VerdictReports(items, k);
    assert verdicts[k].finding.value in findings;
  }

  lemma CountReproduced(items: seq<Keyed>)
    ensures Confirming(Verdicts(items), Verdicts(items).Keys) == set k | k in Keys(items) && Reproduced(items, k)
  {
    forall k ensures k in Verdicts(items) && Verdicts(items)[k].finding.Some? <==> Reproduced(items, k) {
      VerdictConfirms(items, k);
    }
  }

  /** Some finding reports this group. */
  ghost predicate IsReported(o: Outcome, items: seq<Keyed>, key: Key) {
    exists f :: f in o.findings && Reports(f, items, key)
  }

  /** Some reproduced group is what this finding reports. */
  ghost predicate IsGrounded(f: CausalFinding, items: seq<Keyed>) {
    exists k :: Reproduced(items, k) && Reports(f, items, k)
  }

  lemma Grounded(o: Outcome, items: seq<Keyed>, existing: nat, hypotheses: seq<Option<Category>>, f: CausalFinding)
    requires Explains(o, items, existing, hypotheses) && f in o.findings
    ensures IsGrounded(f, items)
  {
    FoundBy(o, Verdicts(items), items == [], existing, hypotheses);
    var k := ReporterOf(f, items, Verdicts(items));
  }

  lemma Reported(o: Outcome, items: seq<Keyed>, existing: nat, hypotheses: seq<Option<Category>>, key: Key)
    requires Explains(o, items, existing, hypotheses) && Reproduced(items, key)
    ensures IsReported(o, items, key)
  {
    FoundBy(o, Verdicts(items), items == [], existing, hypotheses);
    ReportOf(key, items, Verdicts(items), o.findings);
  }

  /** The findings are those of the reproduced groups, as many as there are such groups. */
  lemma FindingsIff(o: Outcome, results: seq<TestResult>, existing: nat, hypotheses: seq<Option<Category>>)
    requires Explains(o, Flatten(results), existing, hypotheses)
    ensures var items := Flatten(results);
      && (forall f <- o.findings :: IsGrounded(f, items))
      && (forall k :: Reproduced(items, k) ==> IsReported(o, items, k))
      && |o.findings| == |set k | k in Keys(items) && Reproduced(items, k)|
  {
    var items := Flatten(results);
    forall f | f in o.findings ensures IsGrounded(f, items) { Grounded(o, items, existing, hypotheses, f); }
    forall k | Reproduced(items, k) ensures IsReported(o, items, k) { Reported(o, items, existing, hypotheses, k); }
    FoundBy(o, Verdicts(items), items == [], existing, hypotheses);
    CountReproduced(items);
  }

  /** What each factor's node says follows from what was confirmed and what remains. */
  lemma NodesIff(o: Outcome, results: seq<TestResult>, existing: nat, hypotheses: seq<Option<Category>>, c: Category)
    requires Explains(o, Flatten(results), existing, hypotheses)
    ensures c in o.nodes
    ensures o.nodes[c] == Confirmed <==> c == Skill && o.findings != []
    ensures o.nodes[c] == Eliminated <==> c !in o.remaining && !(c == Skill && o.findings != [])
    ensures o.indeterminate <==> o.findings == [] && (Flatten(results) != [] || existing > 0 || hypotheses != [])
  {
    FollowsConfirmed(o, Verdicts(Flatten(results)), Flatten(results) == [], existing, hypotheses);
  }

  // ----- order ------------------------------------------------------------------------------------------

  lemma {:induction false} GroupCounts(items: seq<Keyed>, key: Key, t: Trial)
    ensures multiset(Group(items, key))[t] == multiset(items)[Keyed(key, t)]
  {
    if items != [] {
      var n := |items| - 1;
      GroupCounts(items[..n], key, t);
      assert items == items[..n] + [items[n]];
    }
  }

  lemma {:induction false} KeepCounts(trials: seq<Trial>, p: Trial -> bool, t: Trial)
    ensures multiset(Keep(trials, p))[t] == if p(t) then multiset(trials)[t] else 0
  {
    if trials != [] {
      var n := |trials| - 1;
      KeepCounts(trials[..n], p, t);
      assert trials == trials[..n] + [trials[n]];
    }
  }

  lemma KeepPermutes(a: seq<Trial>, b: seq<Trial>, p: Trial -> bool)
    requires multiset(a) == multiset(b)
    ensures multiset(Keep(a, p)) == multiset(Keep(b, p)) && |Keep(a, p)| == |Keep(b, p)|
  {
    forall t ensures multiset(Keep(a, p))[t] == multiset(Keep(b, p))[t] {
      KeepCounts(a, p, t);
      KeepCounts(b, p, t);
    }
    assert |Keep(a, p)| == |multiset(Keep(a, p))| && |Keep(b, p)| == |multiset(Keep(b, p))|;
  }

  lemma SameMembers(a: seq<Trial>, b: seq<Trial>)
    requires multiset(a) == multiset(b)
    ensures forall t :: t in a <==> t in b
  {
    assert forall t :: t in a <==> t in multiset(a);
    assert forall t :: t in b <==> t in multiset(b);
  }

  lemma WithoutTrial(snapshot: string, trials: seq<Trial>, i: nat) returns (rest: seq<Trial>)
    requires i < |trials|
    ensures |rest| == |trials| - 1 && multiset(rest) == multiset(trials) - multiset{trials[i]}
    ensures multiset(EvidenceIds(snapshot, trials))
         == multiset(EvidenceIds(snapshot, rest)) + multiset{EvidenceIds(snapshot, trials)[i]}
  {
    var ids := EvidenceIds(snapshot, trials);
    rest := trials[..i] + trials[i + 1..];
    assert ids[..i] + ids[i + 1..] == EvidenceIds(snapshot, rest);
    RemoveAt(ids, i);
    RemoveAt(trials, i);
  }

  lemma {:induction false} EvidenceCounts(snapshot: string, trials: seq<Trial>, more: seq<Trial>)
    requires multiset(trials) == multiset(more)
    ensures multiset(EvidenceIds(snapshot, trials)) == multiset(EvidenceIds(snapshot, more))
    decreases |trials|
  {
    if trials == [] {
      assert |more| == |multiset(more)| == 0;
    } else {
      var i := IndexIn(trials[0], trials, more);
      var rest := WithoutTrial(snapshot, trials, 0);
      var others := WithoutTrial(snapshot, more, i);
      EvidenceCounts(snapshot, rest, others);
    }
  }

  lemma IndexIn<T>(x: T, s: seq<T>, t: seq<T>) returns (i: nat)
    requires x in s && multiset(s) == multiset(t)
    ensures i < |t| && t[i] == x
  {
    assert x in multiset(t);
    i :| i < |t| && t[i] == x;
  }

  predicate SameFinding(f: CausalFinding, g: CausalFinding) {
    f.snapshot == g.snapshot && f.caseId == g.caseId && f.severity == g.severity
    && multiset(f.evidence) == multiset(g.evidence)
  }

  predicate SameVerdict(v: Verdict, w: Verdict) {
    && v.exonerated == w.exonerated && v.missing == w.missing && v.roles == w.roles
    && v.finding.Some? == w.finding.Some?
    && (v.finding.Some? ==> SameFinding(v.finding.value, w.finding.value))
  }

  lemma FactsPermute(a: seq<Trial>, b: seq<Trial>)
    requires multiset(a) == multiset(b)
    ensures FactsOf(a) == FactsOf(b)
  {
    KeepPermutes(a, b, IsTreatment());
    KeepPermutes(a, b, IsControl());
    SameMembers(a, b);
  }

  lemma FindingsPermute(key: Key, a: seq<Trial>, b: seq<Trial>)
    requires multiset(a) == multiset(b)
    ensures SameFinding(FindingOf(key, a), FindingOf(key, b))
  {
    KeepPermutes(a, b, IsTreatment());
    KeepPermutes(a, b, IsControl());
    SameMembers(a, b);
    EvidenceCounts(key.snapshot, Treatments(a), Treatments(b));
    EvidenceCounts(key.snapshot, Controls(a), Controls(b));
  }

  lemma VerdictsPermute(a: seq<Keyed>, b: seq<Keyed>)
    requires multiset(a) == multiset(b)
    ensures Keys(a) == Keys(b) && (a == [] <==> b == [])
    ensures forall k :: k in Keys(a) ==> SameVerdict(VerdictOf(k, Group(a, k)), VerdictOf(k, Group(b, k)))
  {
    assert forall item :: item in a <==> item in multiset(a);
    assert forall item :: item in b <==> item in multiset(b);
    forall k ensures k in Keys(a) <==> k in Keys(b) {
      KeysAreMembers(a, k);
      KeysAreMembers(b, k);
    }
    assert |a| == |multiset(a)| && |b| == |multiset(b)|;
    forall k | k in Keys(a) ensures SameVerdict(VerdictOf(k, Group(a, k)), VerdictOf(k, Group(b, k))) {
      GroupsPermute(a, b, k);
      FactsPermute(Group(a, k), Group(b, k));
      FindingsPermute(k, Group(a, k), Group(b, k));
    }
  }

  lemma KeysAreMembers(items: seq<Keyed>, key: Key)
    ensures key in Keys(items) <==> exists item :: item in items && item.key == key
  {
  }

  lemma GroupsPermute(a: seq<Keyed>, b: seq<Keyed>, key: Key)
    requires multiset(a) == multiset(b)
    ensures multiset(Group(a, key)) == multiset(Group(b, key))
  {
    forall t ensures multiset(Group(a, key))[t] == multiset(Group(b, key))[t] {
      GroupCounts(a, key, t);
      GroupCounts(b, key, t);
    }
  }

  predicate SameConclusion(o: Outcome, p: Outcome) {
    && o.confirmed == p.confirmed && o.indeterminate == p.indeterminate && o.eliminated == p.eliminated
    && o.remaining == p.remaining && o.missing == p.missing && o.roles == p.roles && o.nodes == p.nodes
    && |o.findings| == |p.findings| && forall f <- o.findings :: exists g <- p.findings :: SameFinding(f, g)
  }

  lemma SameSets(verdicts: map<Key, Verdict>, others: map<Key, Verdict>)
    requires verdicts.Keys == others.Keys
    requires forall k :: k in verdicts ==> verdicts[k].finding.Some? == others[k].finding.Some?
    requires forall k :: k in verdicts ==> verdicts[k].exonerated == others[k].exonerated
    ensures Confirming(verdicts, verdicts.Keys) == Confirming(others, others.Keys)
    ensures Exonerating(verdicts, verdicts.Keys) == Exonerating(others, others.Keys)
  {
    forall k ensures k in Confirming(verdicts, verdicts.Keys) <==> k in Confirming(others, others.Keys) { }
    forall k ensures k in Exonerating(verdicts, verdicts.Keys) <==> k in Exonerating(others, others.Keys) { }
  }

  lemma SameKeys(t: Tally, verdicts: map<Key, Verdict>, u: Tally, others: map<Key, Verdict>)
    requires Gathers(t, verdicts, verdicts.Keys) && Gathers(u, others, others.Keys) && verdicts.Keys == others.Keys
    requires forall k :: k in verdicts ==> verdicts[k].finding.Some? == others[k].finding.Some?
    requires forall k :: k in verdicts ==> verdicts[k].exonerated == others[k].exonerated
    ensures t.eliminated == u.eliminated && |t.findings| == |u.findings|
    ensures Confirming(verdicts, verdicts.Keys) == Confirming(others, others.Keys)
  {
    SameSets(verdicts, others);
  }

  lemma SameMissing(t: Tally, verdicts: map<Key, Verdict>, u: Tally, others: map<Key, Verdict>)
    requires Gathers(t, verdicts, verdicts.Keys) && Gathers(u, others, others.Keys) && verdicts.Keys == others.Keys
    requires forall k :: k in verdicts ==> verdicts[k].missing == others[k].missing
    ensures t.missing == u.missing
  {
  }

  lemma SameRoles(t: Tally, verdicts: map<Key, Verdict>, u: Tally, others: map<Key, Verdict>)
    requires Gathers(t, verdicts, verdicts.Keys) && Gathers(u, others, others.Keys) && verdicts.Keys == others.Keys
    requires forall k :: k in verdicts ==> verdicts[k].roles == others[k].roles
    ensures t.roles == u.roles
  {
  }

  lemma SameFindings(t: Tally, verdicts: map<Key, Verdict>, u: Tally, others: map<Key, Verdict>)
    requires Gathers(t, verdicts, verdicts.Keys) && Gathers(u, others, others.Keys)
    requires verdicts.Keys == others.Keys && forall k :: k in verdicts ==> SameVerdict(verdicts[k], others[k])
    ensures forall f <- t.findings :: exists g <- u.findings :: SameFinding(f, g)
  {
    forall f | f in t.findings ensures exists g <- u.findings :: SameFinding(f, g) {
      var k :| k in verdicts && verdicts[k].finding == Some(f);
      assert others[k].finding == Some(others[k].finding.value);
    }
  }

  /** Outcomes that follow from verdicts that agree up to the order of cited evidence. */
  lemma SameVerdictsSameOutcome(
    o: Outcome, verdicts: map<Key, Verdict>, p: Outcome, others: map<Key, Verdict>,
    noTrials: bool, existing: nat, hypotheses: seq<Option<Category>>)
    requires Follows(o, verdicts, noTrials, existing, hypotheses) && Follows(p, others, noTrials, existing, hypotheses)
    requires verdicts.Keys == others.Keys && forall k :: k in verdicts ==> SameVerdict(verdicts[k], others[k])
    ensures SameConclusion(o, p)
  {
    var none := if noTrials then {DynamicReproduction, ControlledCounterfactual} else {};
    var m :| Gathers(Tally(o.findings, o.eliminated, m, o.roles), verdicts, verdicts.Keys) && o.missing == m + none;
    var n :| Gathers(Tally(p.findings, p.eliminated, n, p.roles), others, others.Keys) && p.missing == n + none;
    var t, u := Tally(o.findings, o.eliminated, m, o.roles), Tally(p.findings, p.eliminated, n, p.roles);
    SameKeys(t, verdicts, u, others);
    SameMissing(t, verdicts, u, others);
    SameRoles(t, verdicts, u, others);
    SameFindings(t, verdicts, u, others);
  }

  /** Permuting trials, or moving them between results of the same skill and snapshot, changes no conclusion. */
  lemma OrderDoesNotMatter(
    o: Outcome, results: seq<TestResult>, p: Outcome, others: seq<TestResult>,
    existing: nat, hypotheses: seq<Option<Category>>)
    requires Explains(o, Flatten(results), existing, hypotheses) && Explains(p, Flatten(others), existing, hypotheses)
    requires multiset(Flatten(results)) == multiset(Flatten(others))
    ensures SameConclusion(o, p)
  {
    var a, b := Flatten(results), Flatten(others);
    VerdictsPermute(a, b);
    SameVerdictsSameOutcome(o, Verdicts(a), p, Verdicts(b), a == [], existing, hypotheses);
  }

  lemma {:induction false} FlattenAppend(a: seq<TestResult>, b: seq<TestResult>)
    ensures Flatten(a + b) == Flatten(a) + Flatten(b)
  {
    if b == [] {
      assert a + b == a;
    } else {
      assert (a + b)[..|a + b| - 1] == a + b[..|b| - 1];
      FlattenAppend(a, b[..|b| - 1]);
    }
  }

  lemma WithoutResult(results: seq<TestResult>, i: nat) returns (rest: seq<TestResult>)
    requires i < |results|
    ensures |rest| == |results| - 1 && multiset(rest) == multiset(results) - multiset{results[i]}
    ensures multiset(Flatten(results)) == multiset(Flatten(rest)) + multiset(KeyedTrials(results[i]))
  {
    var front, back := results[..i], results[i + 1..];
    rest := front + back;
    RemoveAt(results, i);
    FlattenAppend(front, [results[i]] + back);
    FlattenAppend([results[i]], back);
    FlattenAppend(front, back);
    assert results == front + ([results[i]] + back);
    assert Flatten([results[i]]) == KeyedTrials(results[i]) by { assert [results[i]][..0] == []; }
  }

  /** Permuting whole results is such a permutation. */
  lemma {:induction false} ResultsPermute(results: seq<TestResult>, others: seq<TestResult>)
    requires multiset(results) == multiset(others)
    ensures multiset(Flatten(results)) == multiset(Flatten(others))
    decreases |results|
  {
    if results == [] {
      assert |others| == |multiset(others)| == 0;
    } else {
      var i := IndexIn(results[0], results, others);
      var rest := WithoutResult(results, 0);
      var more := WithoutResult(others, i);
      ResultsPermute(rest, more);
    }
  }

  // ----- flagged findings ----------------------------------------------------------------------------------

  /** The kind under which a trial's evidence is stored. */
  function KindOf(id: EvidenceId): Option<EvidenceKind> {
    match id
    case StaticEvidence(_) => None
    case TrialEvidence(_, _, control, _) =>
      Some(if control then ControlledCounterfactualKind else DynamicReproductionKind)
  }

  lemma FindingFrom(
    o: Outcome, verdicts: map<Key, Verdict>, f: CausalFinding, noTrials: bool, existing: nat,
    hypotheses: seq<Option<Category>>) returns (k: Key)
    requires Follows(o, verdicts, noTrials, existing, hypotheses) && f in o.findings
    ensures k in verdicts && verdicts[k].finding == Some(f)
  {
    k :| k in verdicts && verdicts[k].finding == Some(f);
  }

  predicate CitesTwoKinds(f: CausalFinding) {
    exists i, j :: 0 <= i < |f.evidence| && 0 <= j < |f.evidence|
      && KindOf(f.evidence[i]) == Some(DynamicReproductionKind)
      && KindOf(f.evidence[j]) == Some(ControlledCounterfactualKind)
  }

  lemma FindingCitesTwoKinds(key: Key, trials: seq<Trial>, f: CausalFinding)
    requires |Treatments(trials)| > 0 && |Controls(trials)| > 0 && f == FindingOf(key, trials)
    ensures CitesTwoKinds(f)
  {
    KeptMembers(trials, IsTreatment(), Treatments(trials)[0]);
    KeptMembers(trials, IsControl(), Controls(trials)[0]);
    assert KindOf(f.evidence[0]) == Some(DynamicReproductionKind);
    assert KindOf(f.evidence[|Treatments(trials)|]) == Some(ControlledCounterfactualKind);
  }

  /** Every causal finding rests on two kinds of evidence, so it would be flagged by that rule alone. */
  lemma CausalFindingsCiteTwoKinds(
    o: Outcome, results: seq<TestResult>, existing: nat, hypotheses: seq<Option<Category>>, f: CausalFinding)
    requires Explains(o, Flatten(results), existing, hypotheses) && f in o.findings
    ensures CitesTwoKinds(f)
  {
    var k := FindingFrom(o, Verdicts(Flatten(results)), f, Flatten(results) == [], existing, hypotheses);
    FindingCitesTwoKinds(k, Group(Flatten(results), k), f);
  }
}
