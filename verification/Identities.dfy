/**
  The identities of trial evidence and causal findings.  They are made from the content and the case, not from
  the name of the skill: exactly when does a report use one of them twice?
 */
module Identities {
  import opened Prelude
  import opened Causal
  import opened CausalTheorems
  import opened DynamicPlan
  import opened Orchestration

  // ----- lists and sets ---------------------------------------------------------------------------------------

  function Members<T>(s: seq<T>): set<T> { set x <- s }

  lemma {:induction false} DistinctIffAsLarge<T>(s: seq<T>)
    ensures |Members(s)| <= |s|
    ensures NoDuplicates(s) <==> |Members(s)| == |s|
  {
    if s != [] {
      var n := |s| - 1;
      DistinctIffAsLarge(s[..n]);
      assert s == s[..n] + [s[n]];
      assert Members(s) == Members(s[..n]) + {s[n]};
      if s[n] in Members(s[..n]) {
        assert Members(s) == Members(s[..n]);
      } else {
        assert forall i :: 0 <= i < n ==> s[..n][i] == s[i];
      }
    }
  }

  function Image<S, T>(f: S -> T, c: set<S>): set<T> { set x <- c :: f(x) }

  ghost predicate InjectiveOn<S(!new), T>(f: S -> T, c: set<S>) {
    forall x, y :: x in c && y in c && f(x) == f(y) ==> x == y
  }

  lemma {:induction false} InjectiveIffAsLarge<S(!new), T>(f: S -> T, c: set<S>)
    ensures |Image(f, c)| <= |c|
    ensures InjectiveOn(f, c) <==> |Image(f, c)| == |c|
    decreases |c|
  {
    if x :| x in c {
      var rest := c - {x};
      InjectiveIffAsLarge(f, rest);
      assert c == rest + {x};
      assert Image(f, c) == Image(f, rest) + {f(x)};
      if f(x) in Image(f, rest) {
        var y :| y in rest && f(y) == f(x);
        assert Image(f, c) == Image(f, rest);
      }
    }
  }

  // ----- findings ---------------------------------------------------------------------------------------------

  datatype FindingId = FindingId(snapshot: string, caseId: string)

  function IdOfKey(): Key -> FindingId { (k: Key) => FindingId(k.snapshot, k.caseId) }

  function FindingIds(findings: seq<CausalFinding>): (s: seq<FindingId>)
    ensures |s| == |findings|
  {
    seq(|findings|, i requires 0 <= i < |findings| => FindingId(findings[i].snapshot, findings[i].caseId))
  }

  ghost function Confirmers(items: seq<Keyed>): set<Key> { set k <- Keys(items) | Confirms(FactsOf(Group(items, k))) }

  /** A finding bears the identity of its group. */
  ghost predicate NamedAlike(verdicts: map<Key, Verdict>) {
    forall k :: k in verdicts && verdicts[k].finding.Some? ==>
      FindingId(verdicts[k].finding.value.snapshot, verdicts[k].finding.value.caseId) == FindingId(k.snapshot, k.caseId)
  }

  lemma IdsOfConfirming(t: Tally, verdicts: map<Key, Verdict>)
    requires NamedAlike(verdicts) && Gathers(t, verdicts, verdicts.Keys)
    ensures Members(FindingIds(t.findings)) == Image(IdOfKey(), Confirming(verdicts, verdicts.Keys))
  {
    var ids, confirming := FindingIds(t.findings), Confirming(verdicts, verdicts.Keys);
    forall id | id in Members(ids) ensures id in Image(IdOfKey(), confirming) {
      var i :| 0 <= i < |ids| && ids[i] == id;
      assert t.findings[i] in t.findings;
      var k :| k in verdicts.Keys && verdicts[k].finding == Some(t.findings[i]);
      assert k in confirming && IdOfKey()(k) == id;
    }
    forall id | id in Image(IdOfKey(), confirming) ensures id in Members(ids) {
      var k :| k in confirming && IdOfKey()(k) == id;
      var f := verdicts[k].finding.value;
      assert f in t.findings;
      var i :| 0 <= i < |t.findings| && t.findings[i] == f;
      assert ids[i] == id;
    }
  }

  lemma VerdictsAreNamedAlike(items: seq<Keyed>)
    ensures NamedAlike(Verdicts(items))
    ensures Confirming(Verdicts(items), Verdicts(items).Keys) == Confirmers(items)
  {
  }

  lemma CountedDistinct(t: Tally, verdicts: map<Key, Verdict>)
    requires NamedAlike(verdicts) && Gathers(t, verdicts, verdicts.Keys)
    ensures NoDuplicates(FindingIds(t.findings)) <==> InjectiveOn(IdOfKey(), Confirming(verdicts, verdicts.Keys))
  {
    IdsOfConfirming(t, verdicts);
    DistinctIffAsLarge(FindingIds(t.findings));
    InjectiveIffAsLarge(IdOfKey(), Confirming(verdicts, verdicts.Keys));
  }

  /** No two findings share an identity exactly if no two confirming groups differ in the skill's name alone. */
  lemma FindingIdsAreDistinctIff(o: Outcome, items: seq<Keyed>, existing: nat, hypotheses: seq<Option<Category>>)
    requires Explains(o, items, existing, hypotheses)
    ensures NoDuplicates(FindingIds(o.findings)) <==> InjectiveOn(IdOfKey(), Confirmers(items))
  {
    VerdictsAreNamedAlike(items);
    var verdicts := Verdicts(items);
    var missing :| Gathers(Tally(o.findings, o.eliminated, missing, o.roles), verdicts, verdicts.Keys);
    CountedDistinct(Tally(o.findings, o.eliminated, missing, o.roles), verdicts);
  }

  // ----- evidence ---------------------------------------------------------------------------------------------

  /** The identities of the evidence that a list of trials gives rise to, in order. */
  function TrialIds(items: seq<Keyed>): (s: seq<EvidenceId>)
    ensures |s| == |items|
  {
    seq(|items|, i requires 0 <= i < |items| =>
      TrialEvidence(items[i].key.snapshot, items[i].trial.caseId, items[i].trial.control, items[i].trial.repetition))
  }

  type Tag = (string, string)

  /** Content by content, the cases that are tested on it. */
  function CaseTags(digest: string, cases: seq<Case>): (s: seq<Tag>)
    ensures |s| == |cases|
  {
    seq(|cases|, i requires 0 <= i < |cases| => (digest, cases[i].id))
  }

  function Tested(items: seq<Prepared>, depth: Depth): seq<Tag> {
    if items == [] then []
    else
      var item := items[|items| - 1];
      Tested(items[..|items| - 1], depth) + CaseTags(item.target.digest, Selected(item.contracts, depth))
  }

  function SlotIds(digest: string, slots: seq<Slot>): (s: seq<EvidenceId>)
    ensures |s| == |slots|
  {
    seq(|slots|, i requires 0 <= i < |slots| =>
      TrialEvidence(digest, slots[i].case_.id, slots[i].control, slots[i].repetition))
  }

  predicate Bears(id: EvidenceId, tag: Tag) { id.TrialEvidence? && (id.snapshot, id.caseId) == tag }

  /** The identity of the first treatment of a case. */
  function First(tag: Tag): EvidenceId { TrialEvidence(tag.0, tag.1, false, 1) }

  /** The identities belong to the tags, and one list repeats something exactly if the other does. */
  ghost predicate Tagged(ids: seq<EvidenceId>, tags: seq<Tag>) {
    && (NoDuplicates(ids) <==> NoDuplicates(tags))
    && (forall id <- ids :: exists tag <- tags :: Bears(id, tag))
    && (forall tag <- tags :: First(tag) in ids)
  }

  lemma AppendDistinct<T(!new)>(a: seq<T>, b: seq<T>)
    ensures NoDuplicates(a + b) <==> NoDuplicates(a) && NoDuplicates(b) && forall x :: !(x in a && x in b)
  {
    var all := a + b;
    if NoDuplicates(all) {
      assert forall i :: 0 <= i < |a| ==> all[i] == a[i];
      assert forall i :: 0 <= i < |b| ==> all[|a| + i] == b[i];
      forall i, j | 0 <= i < |a| && 0 <= j < |b| ensures a[i] != b[j] { assert all[i] != all[|a| + j]; }
    }
    if NoDuplicates(a) && NoDuplicates(b) && forall x :: !(x in a && x in b) {
      forall i, j | 0 <= i < j < |all| ensures all[i] != all[j] {
        if i < |a| <= j { assert a[i] in a && b[j - |a|] in b; }
      }
    }
  }

  lemma TaggedMore(ids: seq<EvidenceId>, tags: seq<Tag>, block: seq<EvidenceId>, tag: Tag)
    requires Tagged(ids, tags)
    requires First(tag) in block && NoDuplicates(block) && forall id <- block :: Bears(id, tag)
    ensures Tagged(ids + block, tags + [tag])
  {
    AppendDistinct(ids, block);
    AppendDistinct(tags, [tag]);
    if tag !in tags {
      forall id | id in ids ensures id !in block {
        var own :| own in tags && Bears(id, own);
      }
    }
    forall id | id in ids + block ensures exists own <- tags + [tag] :: Bears(id, own) {
      if id in ids {
        var own :| own in tags && Bears(id, own);
        assert own in tags + [tag];
      } else {
        assert tag in tags + [tag];
      }
    }
  }

  /** The uses of one case have distinct identities, all of that case. */
  lemma CaseBlock(digest: string, c: Case, repetitions: nat, control: bool)
    requires repetitions > 0
    ensures var block := SlotIds(digest, CaseSlots(c, repetitions, control));
      && First((digest, c.id)) in block && NoDuplicates(block) && forall id <- block :: Bears(id, (digest, c.id))
  {
    var slots := CaseSlots(c, repetitions, control);
    var block := SlotIds(digest, slots);
    assert slots[0] == Slot(c, 1, false) && block[0] == First((digest, c.id));
    assert forall i :: 0 <= i < |slots| ==> slots[i].case_ == c;
  }

  lemma SlotIdsConcat(digest: string, a: seq<Slot>, b: seq<Slot>)
    ensures SlotIds(digest, a + b) == SlotIds(digest, a) + SlotIds(digest, b)
  {
  }

  lemma Associates<T>(a: seq<T>, b: seq<T>, c: seq<T>)
    ensures a + b + c == a + (b + c)
  {
  }

  lemma {:induction false} SlotsTagged(
    ids: seq<EvidenceId>, tags: seq<Tag>, digest: string, cases: seq<Case>, repetitions: nat, control: bool)
    requires Tagged(ids, tags) && repetitions > 0
    ensures Tagged(ids + SlotIds(digest, Slots(cases, repetitions, control)), tags + CaseTags(digest, cases))
  {
    if cases == [] {
      assert ids + [] == ids && tags + [] == tags;
    } else {
      var n := |cases| - 1;
      var front, block := Slots(cases[..n], repetitions, control), CaseSlots(cases[n], repetitions, control);
      SlotsTagged(ids, tags, digest, cases[..n], repetitions, control);
      CaseBlock(digest, cases[n], repetitions, control);
      TaggedMore(ids + SlotIds(digest, front), tags + CaseTags(digest, cases[..n]), SlotIds(digest, block),
                 (digest, cases[n].id));
      SlotIdsConcat(digest, front, block);
      Associates(ids, SlotIds(digest, front), SlotIds(digest, block));
      assert CaseTags(digest, cases[..n]) + [(digest, cases[n].id)] == CaseTags(digest, cases);
      Associates(tags, CaseTags(digest, cases[..n]), [(digest, cases[n].id)]);
    }
  }

  lemma ResultTagged(ids: seq<EvidenceId>, tags: seq<Tag>, r: TestResult, item: Prepared, depth: Depth)
    requires Tagged(ids, tags)
    requires r.snapshot == item.target.digest && Fills(r.trials, Schedule(item.contracts, depth))
    ensures Tagged(ids + TrialIds(KeyedTrials(r)), tags + CaseTags(item.target.digest, Selected(item.contracts, depth)))
  {
    SlotsTagged(ids, tags, item.target.digest, Selected(item.contracts, depth), Repetitions(depth), depth != Quick);
    assert TrialIds(KeyedTrials(r)) == SlotIds(item.target.digest, Schedule(item.contracts, depth));
  }

  lemma TrialIdsOfMore(results: seq<TestResult>)
    requires results != []
    ensures var n := |results| - 1;
      TrialIds(Flatten(results)) == TrialIds(Flatten(results[..n])) + TrialIds(KeyedTrials(results[n]))
  {
  }

  lemma {:induction false} ResultsTagged(results: seq<TestResult>, items: seq<Prepared>, depth: Depth)
    requires Performs(results, items, depth)
    ensures Tagged(TrialIds(Flatten(results)), Tested(items, depth))
  {
    if items != [] {
      var n := |items| - 1;
      ResultsTagged(results[..n], items[..n], depth);
      ResultTagged(TrialIds(Flatten(results[..n])), Tested(items[..n], depth), results[n], items[n], depth);
      TrialIdsOfMore(results);
    }
  }

  /** In a complete report no evidence shares an identity exactly if no case was tested twice on one content. */
  lemma TrialIdsAreDistinctIff(results: seq<TestResult>, items: seq<Prepared>, depth: Depth)
    requires Performs(results, items, depth)
    ensures NoDuplicates(TrialIds(Flatten(results))) <==> NoDuplicates(Tested(items, depth))
  {
    ResultsTagged(results, items, depth);
  }

  // ----- one content under two names --------------------------------------------------------------------------

  lemma FirstTreatment(results: seq<TestResult>, items: seq<Prepared>, depth: Depth, key: Key) returns (i: nat)
    requires Performs(results, items, depth) && depth != Quick && key in Keys(Flatten(results))
    ensures i < |Flatten(results)| && Flatten(results)[i].key == key
    ensures TrialIds(Flatten(results))[i] == TrialEvidence(key.snapshot, key.caseId, false, 1)
  {
    var r, s := SlotOfKey(results, items, depth, key);
    ScheduleHas(items[r].contracts, depth, s);
    i := SlotPerformed(results, items, depth, r, Slot(s.case_, 1, false));
  }

  /** Then no two findings share an identity either. */
  lemma FindingIdsAreDistinct(
    results: seq<TestResult>, items: seq<Prepared>, depth: Depth, o: Outcome, existing: nat,
    hypotheses: seq<Option<Category>>)
    requires Performs(results, items, depth) && NoDuplicates(Tested(items, depth))
    requires Explains(o, Flatten(results), existing, hypotheses)
    ensures NoDuplicates(FindingIds(o.findings))
  {
    var all := Flatten(results);
    TrialIdsAreDistinctIff(results, items, depth);
    FindingIdsAreDistinctIff(o, all, existing, hypotheses);
    if depth == Quick {
      QuickRunConfirmsNothing(QuickRequest(), items, Completed(results), o, existing, hypotheses);
      assert FindingIds(o.findings) == [];
    } else {
      forall k, l | k in Confirmers(all) && l in Confirmers(all) && IdOfKey()(k) == IdOfKey()(l) ensures k == l {
        var i := FirstTreatment(results, items, depth, k);
        var j := FirstTreatment(results, items, depth, l);
        assert TrialIds(all)[i] == TrialIds(all)[j];
        assert i == j;
      }
    }
  }

  lemma TagsHave(digest: string, cases: seq<Case>, c: Case)
    requires c in cases
    ensures (digest, c.id) in CaseTags(digest, cases)
  {
    var k :| 0 <= k < |cases| && cases[k] == c;
    assert CaseTags(digest, cases)[k] == (digest, c.id);
  }

  lemma {:induction false} TestedHas(items: seq<Prepared>, depth: Depth, i: nat, c: Case)
    requires i < |items| && c in Selected(items[i].contracts, depth)
    ensures (items[i].target.digest, c.id) in Tested(items, depth)
  {
    var n := |items| - 1;
    if i < n {
      TestedHas(items[..n], depth, i, c);
    } else {
      TagsHave(items[n].target.digest, Selected(items[n].contracts, depth), c);
    }
  }

  lemma {:induction false} TestedSplits(items: seq<Prepared>, depth: Depth, j: nat) returns (rest: seq<Tag>)
    requires j < |items|
    ensures Tested(items, depth) == Tested(items[..j + 1], depth) + rest
  {
    var n := |items| - 1;
    if j == n {
      assert items[..j + 1] == items;
      rest := [];
    } else {
      var more := TestedSplits(items[..n], depth, j);
      var last := CaseTags(items[n].target.digest, Selected(items[n].contracts, depth));
      assert items[..n][..j + 1] == items[..j + 1];
      Associates(Tested(items[..j + 1], depth), more, last);
      rest := more + last;
    }
  }

  lemma RepeatedLater<T(!new)>(a: seq<T>, b: seq<T>, rest: seq<T>, x: T)
    requires x in a && x in b
    ensures !NoDuplicates(a + b + rest)
  {
    AppendDistinct(a, b);
    AppendDistinct(a + b, rest);
  }

  /** Copies of one content that share a case share its evidence, whatever their names are. */
  lemma SharedContentRepeats(
    items: seq<Prepared>, depth: Depth, i: nat, j: nat, digest: string, c: Case, d: Case)
    requires i < j < |items| && items[i].target.digest == items[j].target.digest == digest && c.id == d.id
    requires c in Selected(items[i].contracts, depth) && d in Selected(items[j].contracts, depth)
    ensures !NoDuplicates(Tested(items, depth))
  {
    TestedHas(items[..j], depth, i, c);
    TagsHave(digest, Selected(items[j].contracts, depth), d);
    var rest := TestedSplits(items, depth, j);
    assert items[..j + 1][..j] == items[..j];
    RepeatedLater(Tested(items[..j], depth), CaseTags(digest, Selected(items[j].contracts, depth)), rest,
                  (digest, c.id));
  }

  /** Two names for one content: at every depth a complete report repeats identities of its evidence. */
  lemma OneContentTwoNames(depth: Depth) returns (targets: seq<Target>, request: Request, contents: Contents)
    ensures |targets| == 2 && targets[0].skillName != targets[1].skillName && request.depth == depth
    ensures forall results :: Performs(results, Prepare(targets, request, contents), depth) ==>
              !NoDuplicates(TrialIds(Flatten(results)))
  {
    targets, request, contents :=
      [Target("digest", Codex, "a"), Target("digest", Codex, "b")], QuickRequest().(depth := depth), OneCase();
    var items, c := Prepare(targets, request, contents), Case("case", true);
    forall i | 0 <= i < 2 ensures c in Selected(items[i].contracts, depth) {
      assert items[i].contracts[0].cases == ["case"] && items[i].contracts[0].trusted;
      assert AllCases(items[i].contracts)[0] == c;
      assert Selected(items[i].contracts, depth)[0] == c;
    }
    SharedContentRepeats(items, depth, 0, 1, "digest", c, c);
    forall results | Performs(results, items, depth) ensures !NoDuplicates(TrialIds(Flatten(results))) {
      TrialIdsAreDistinctIff(results, items, depth);
    }
  }
}
