/**
  Suppressions and blocking findings (`suppressions.py`), with the flagging rule of `causal.py` that decides
  which findings may block at all.
 */
module Suppressions {
  import opened Prelude
  import opened Models

  /** The fields of a finding that decide whether it blocks. */
  datatype Finding = Finding(
    id: string, rule: string, severity: Severity, confidence: Confidence, evidence: seq<string>)

  datatype Evidence = Evidence(id: string, kind: string)

  datatype Suppression = Suppression(
    id: string, rule: string, finding: Option<string>, expires: int, snapshot: string, ruleset: string)

  // ----- flagged findings -----------------------------------------------------------------------------------

  /** A dictionary from evidence to its kind: the last entry of an identifier wins. */
  function KindsById(evidence: seq<Evidence>): map<string, string> {
    if evidence == [] then map[]
    else KindsById(evidence[..|evidence| - 1])[evidence[|evidence| - 1].id := evidence[|evidence| - 1].kind]
  }

  function KindsOf(f: Finding, kinds: map<string, string>): set<string> {
    set id | id in f.evidence && id in kinds :: kinds[id]
  }

  const CAUSAL_RULE := "ASD600"

  predicate IsFlagged(f: Finding, kinds: map<string, string>) { f.rule == CAUSAL_RULE || |KindsOf(f, kinds)| >= 2 }

  /** The last piece of evidence with this identifier is of this kind. */
  ghost predicate HasKind(evidence: seq<Evidence>, id: string, kind: string) {
    exists i :: 0 <= i < |evidence| && evidence[i] == Evidence(id, kind)
      && forall j :: i < j < |evidence| ==> evidence[j].id != id
  }

  /** Named like the causal rule, or citing evidence of two kinds. */
  ghost predicate Corroborated(f: Finding, evidence: seq<Evidence>) {
    || f.rule == "ASD600"
    || exists a, b, x, y :: a in f.evidence && b in f.evidence && x != y
         && HasKind(evidence, a, x) && HasKind(evidence, b, y)
  }

  lemma {:induction false} KindIff(evidence: seq<Evidence>, id: string)
    ensures id in KindsById(evidence) ==> HasKind(evidence, id, KindsById(evidence)[id])
    ensures forall kind :: HasKind(evidence, id, kind) ==> id in KindsById(evidence) && KindsById(evidence)[id] == kind
  {
    if evidence != [] {
      var n := |evidence| - 1;
      KindIff(evidence[..n], id);
      if evidence[n].id == id {
        assert HasKind(evidence, id, evidence[n].kind);
      } else {
        forall kind ensures HasKind(evidence, id, kind) <==> HasKind(evidence[..n], id, kind) {
          if i :| 0 <= i < |evidence| && evidence[i] == Evidence(id, kind)
                  && forall j :: i < j < |evidence| ==> evidence[j].id != id {
            assert evidence[..n][i] == evidence[i];
            assert forall j :: i < j < n ==> evidence[..n][j] == evidence[j];
          }
          if i :| 0 <= i < n && evidence[..n][i] == Evidence(id, kind)
                  && forall j :: i < j < n ==> evidence[..n][j].id != id {
            assert evidence[i] == evidence[..n][i];
            assert forall j :: i < j < n ==> evidence[j] == evidence[..n][j];
          }
        }
      }
    }
  }

  lemma AtLeastTwo(s: set<string>)
    ensures |s| >= 2 <==> exists x, y :: x in s && y in s && x != y
  {
    if x, y :| x in s && y in s && x != y { assert |s| == |s - {x} - {y}| + 2; }
    if |s| >= 2 {
      var x :| x in s;
      assert |s - {x}| >= 1;
      var y :| y in s - {x};
    }
  }

  lemma FlaggedIff(f: Finding, evidence: seq<Evidence>)
    ensures IsFlagged(f, KindsById(evidence)) <==> Corroborated(f, evidence)
  {
    var kinds := KindsById(evidence);
    AtLeastTwo(KindsOf(f, kinds));
    forall id ensures id in kinds ==> HasKind(evidence, id, kinds[id])
              ensures forall kind :: HasKind(evidence, id, kind) ==> id in kinds && kinds[id] == kind
    {
      KindIff(evidence, id);
    }
    if x, y :| x in KindsOf(f, kinds) && y in KindsOf(f, kinds) && x != y {
      var a :| a in f.evidence && a in kinds && kinds[a] == x;
      var b :| b in f.evidence && b in kinds && kinds[b] == y;
      assert HasKind(evidence, a, x) && HasKind(evidence, b, y);
    }
    if a, b, x, y :|
      a in f.evidence && b in f.evidence && x != y && HasKind(evidence, a, x) && HasKind(evidence, b, y)
    {
      assert kinds[a] in KindsOf(f, kinds) && kinds[b] in KindsOf(f, kinds);
    }
  }

  method FlaggedIds(findings: seq<Finding>, evidence: seq<Evidence>) returns (flagged: set<string>)
    ensures forall id :: id in flagged <==> exists f <- findings :: f.id == id && IsFlagged(f, KindsById(evidence))
    ensures forall id :: id in flagged <==> exists f <- findings :: f.id == id && Corroborated(f, evidence)
  {
    forall f ensures IsFlagged(f, KindsById(evidence)) <==> Corroborated(f, evidence) { FlaggedIff(f, evidence); }
    var kinds: map<string, string> := map[];
    for i := 0 to |evidence|
      invariant kinds == KindsById(evidence[..i])
    {
      kinds := kinds[evidence[i].id := evidence[i].kind];
      assert evidence[..i + 1][..i] == evidence[..i];
    }
    assert evidence[..|evidence|] == evidence;
    flagged := {};
    for i := 0 to |findings|
      invariant forall id :: id in flagged <==> exists f <- findings[..i] :: f.id == id && IsFlagged(f, kinds)
    {
      if IsFlagged(findings[i], kinds) { flagged := flagged + {findings[i].id}; }
      assert findings[..i + 1] == findings[..i] + [findings[i]];
    }
    assert findings[..|findings|] == findings;
  }

  // ----- suppressions ---------------------------------------------------------------------------------------

  /** The suppressions of both files by identifier; a later one, and so the project's, overrides. */
  function ById(items: seq<Suppression>): map<string, Suppression> {
    if items == [] then map[]
    else ById(items[..|items| - 1])[items[|items| - 1].id := items[|items| - 1]]
  }

  /** What a suppression is compared with. */
  datatype Situation = Situation(now: int, snapshot: string, ruleset: string, findings: seq<Finding>)

  predicate Expired(s: Suppression, at: Situation) { s.expires <= at.now }

  predicate Stale(s: Suppression, at: Situation) {
    !Expired(s, at) && (s.snapshot != at.snapshot || s.ruleset != at.ruleset)
  }

  predicate Matches(s: Suppression, f: Finding) { f.rule == s.rule && (s.finding.None? || s.finding.value == f.id) }

  predicate Applies(s: Suppression, at: Situation) {
    !Expired(s, at) && !Stale(s, at) && exists f <- at.findings :: Matches(s, f)
  }

  predicate Unmatched(s: Suppression, at: Situation) {
    !Expired(s, at) && !Stale(s, at) && forall f <- at.findings :: !Matches(s, f)
  }

  ghost predicate IsSuppressed(id: string, items: seq<Suppression>, at: Situation) {
    exists f, k :: f in at.findings && f.id == id && k in ById(items)
      && Applies(ById(items)[k], at) && Matches(ById(items)[k], f)
  }

  predicate Severe(f: Finding) {
    (f.severity == HighSeverity || f.severity == Critical) && f.confidence == HighConfidence
  }

  function BlockingIds(findings: seq<Finding>, suppressed: set<string>, flagged: set<string>): seq<string> {
    if findings == [] then []
    else
      var f := findings[|findings| - 1];
      BlockingIds(findings[..|findings| - 1], suppressed, flagged)
      + if f.id !in suppressed && f.id in flagged && Severe(f) then [f.id] else []
  }

  function MatchingIds(s: Suppression, findings: seq<Finding>): set<string> {
    set f | f in findings && Matches(s, f) :: f.id
  }

  datatype Audit = Audit(active: set<string>, stale: set<string>, expired: set<string>, unmatched: set<string>)

  ghost predicate Audits(audit: Audit, items: map<string, Suppression>, done: set<string>, at: Situation)
    requires done <= items.Keys
  {
    && (forall k :: k in audit.active <==> k in done && Applies(items[k], at))
    && (forall k :: k in audit.stale <==> k in done && Stale(items[k], at))
    && (forall k :: k in audit.expired <==> k in done && Expired(items[k], at))
    && (forall k :: k in audit.unmatched <==> k in done && Unmatched(items[k], at))
  }

  /** The classification loop: one suppression into one list, and its matches into the suppressed set. */
  method Classify(items: map<string, Suppression>, at: Situation) returns (suppressed: set<string>, audit: Audit)
    ensures Audits(audit, items, items.Keys, at)
    ensures forall id :: id in suppressed <==>
              exists k :: k in items && Applies(items[k], at) && id in MatchingIds(items[k], at.findings)
  {
    suppressed, audit := {}, Audit({}, {}, {}, {});
    var todo, done := items.Keys, {};
    while todo != {}
      invariant todo !! done && todo + done == items.Keys && Audits(audit, items, done, at)
      invariant forall id :: id in suppressed <==>
                  exists k :: k in done && Applies(items[k], at) && id in MatchingIds(items[k], at.findings)
      decreases todo
    {
      var k :| k in todo;
      var item := items[k];
      todo, done := todo - {k}, done + {k};
      if item.expires <= at.now {
        audit := audit.(expired := audit.expired + {k});
        continue;
      }
      if item.snapshot != at.snapshot || item.ruleset != at.ruleset {
        audit := audit.(stale := audit.stale + {k});
        continue;
      }
      var matches := MatchingIds(item, at.findings);
      assert matches == {} <==> forall f <- at.findings :: !Matches(item, f) by {
        if f :| f in at.findings && Matches(item, f) { assert f.id in matches; }
      }
      if matches == {} {
        audit := audit.(unmatched := audit.unmatched + {k});
        continue;
      }
      audit := audit.(active := audit.active + {k});
      suppressed := suppressed + matches;
    }
  }

  /** `resolve_suppressions` */
  method ResolveSuppressions(user: seq<Suppression>, project: seq<Suppression>, at: Situation, flagged: set<string>)
    returns (suppressed: set<string>, blocking: seq<string>, audit: Audit)
    ensures Audits(audit, ById(user + project), ById(user + project).Keys, at)
    ensures forall id :: id in suppressed <==> IsSuppressed(id, user + project, at)
    ensures blocking == BlockingIds(at.findings, suppressed, flagged)
    ensures forall id :: id in suppressed <==> IsHidden(id, user + project, at)
    ensures AuditSays(audit, user + project, at)
    ensures forall id :: id in blocking <==> id !in suppressed && id in flagged && exists f <- at.findings ::
              f.id == id && (f.severity == HighSeverity || f.severity == Critical) && f.confidence == HighConfidence
  {
    forall id ensures IsSuppressed(id, user + project, at) <==> IsHidden(id, user + project, at) {
      HiddenIff(id, user + project, at);
    }
    var all := user + project;
    var byId: map<string, Suppression> := map[];
    for i := 0 to |all|
      invariant byId == ById(all[..i])
    {
      byId := byId[all[i].id := all[i]];
      assert all[..i + 1][..i] == all[..i];
    }
    assert all[..|all|] == all;
    suppressed, audit := Classify(byId, at);
    forall id ensures id in suppressed <==> IsSuppressed(id, all, at) {
      if k :| k in byId && Applies(byId[k], at) && id in MatchingIds(byId[k], at.findings) {
        var f :| f in at.findings && Matches(byId[k], f) && f.id == id;
      }
      if IsSuppressed(id, all, at) {
        var f, k :| f in at.findings && f.id == id && k in ById(all)
                    && Applies(ById(all)[k], at) && Matches(ById(all)[k], f);
        assert id in MatchingIds(byId[k], at.findings);
      }
    }
    blocking := [];
    for i := 0 to |at.findings|
      invariant blocking == BlockingIds(at.findings[..i], suppressed, flagged)
    {
      var f := at.findings[i];
      if f.id !in suppressed && f.id in flagged && Severe(f) { blocking := blocking + [f.id]; }
      assert at.findings[..i + 1][..i] == at.findings[..i];
    }
    assert at.findings[..|at.findings|] == at.findings;
    AuditMeans(audit, all, at);
    forall id ensures id in blocking <==>
                        id !in suppressed && id in flagged && exists f <- at.findings :: f.id == id && Severe(f)
    {
      BlockingIff(at.findings, suppressed, flagged, id);
    }
  }

  // ----- what the loop means ----------------------------------------------------------------------------------

  /** The suppression is the last one with its identifier, and so the one that counts. */
  ghost predicate Counts(s: Suppression, items: seq<Suppression>) {
    exists i :: 0 <= i < |items| && items[i] == s && forall j :: i < j < |items| ==> items[j].id != s.id
  }

  /** Not expired, made for this snapshot and ruleset, and for the finding's rule if not for the finding itself. */
  ghost predicate Hides(s: Suppression, f: Finding, at: Situation) {
    && at.now < s.expires && s.snapshot == at.snapshot && s.ruleset == at.ruleset
    && s.rule == f.rule && s.finding in {None, Some(f.id)}
  }

  ghost predicate IsHidden(id: string, items: seq<Suppression>, at: Situation) {
    exists s, f :: Counts(s, items) && f in at.findings && f.id == id && Hides(s, f, at)
  }

  /** What the four lists of the audit mean. */
  ghost predicate AuditSays(audit: Audit, items: seq<Suppression>, at: Situation) {
    && (forall k :: k in audit.expired <==> exists s :: Counts(s, items) && s.id == k && s.expires <= at.now)
    && (forall k :: k in audit.stale <==>
          exists s :: Counts(s, items) && s.id == k && at.now < s.expires
                      && !(s.snapshot == at.snapshot && s.ruleset == at.ruleset))
    && (forall k :: k in audit.active <==>
          exists s, f :: Counts(s, items) && s.id == k && f in at.findings && Hides(s, f, at))
    && audit.active + audit.stale + audit.expired + audit.unmatched == ById(items).Keys
    && audit.unmatched !! audit.active + audit.stale + audit.expired
  }

  lemma CountsMore(front: seq<Suppression>, last: Suppression, s: Suppression)
    ensures Counts(s, front + [last]) <==> last == s || (last.id != s.id && Counts(s, front))
  {
    var all := front + [last];
    if last == s {
      assert all[|front|] == s;
    } else if i :| 0 <= i < |front| && front[i] == s && forall j :: i < j < |front| ==> front[j].id != s.id {
      assert all[i] == s && forall j :: i < j < |front| ==> all[j] == front[j];
    }
    if i :| 0 <= i < |all| && all[i] == s && forall j :: i < j < |all| ==> all[j].id != s.id {
      assert i < |front| ==> all[|front|].id != s.id && front[i] == s;
      assert forall j :: i < j < |front| ==> front[j] == all[j];
    }
  }

  lemma {:induction false} CountsIff(items: seq<Suppression>, s: Suppression)
    ensures Counts(s, items) <==> s.id in ById(items) && ById(items)[s.id] == s
  {
    if items != [] {
      var n := |items| - 1;
      CountsIff(items[..n], s);
      CountsMore(items[..n], items[n], s);
      assert items == items[..n] + [items[n]];
    }
  }

  lemma {:induction false} IdsAreOwn(items: seq<Suppression>, k: string)
    requires k in ById(items)
    ensures ById(items)[k].id == k && Counts(ById(items)[k], items)
  {
    var n := |items| - 1;
    if items[n].id != k { IdsAreOwn(items[..n], k); }
    CountsIff(items, ById(items)[k]);
  }

  lemma HiddenIff(id: string, items: seq<Suppression>, at: Situation)
    ensures IsSuppressed(id, items, at) <==> IsHidden(id, items, at)
  {
    if f, k :| f in at.findings && f.id == id && k in ById(items)
               && Applies(ById(items)[k], at) && Matches(ById(items)[k], f) {
      IdsAreOwn(items, k);
      assert Hides(ById(items)[k], f, at);
    }
    if s, f :| Counts(s, items) && f in at.findings && f.id == id && Hides(s, f, at) {
      CountsIff(items, s);
      assert Applies(s, at) && Matches(s, f);
    }
  }

  lemma AuditMeans(audit: Audit, items: seq<Suppression>, at: Situation)
    requires Audits(audit, ById(items), ById(items).Keys, at)
    ensures AuditSays(audit, items, at)
  {
    AuditPartitions(audit, ById(items), at);
    forall s ensures Counts(s, items) <==> s.id in ById(items) && ById(items)[s.id] == s { CountsIff(items, s); }
    forall k | k in ById(items) ensures ById(items)[k].id == k && Counts(ById(items)[k], items) {
      IdsAreOwn(items, k);
    }
    forall s, f | f in at.findings ensures Hides(s, f, at) <==> Applies(s, at) && Matches(s, f) { }
  }

  /** Every suppression ends up in exactly one of the four lists. */
  lemma AuditPartitions(audit: Audit, items: map<string, Suppression>, at: Situation)
    requires Audits(audit, items, items.Keys, at)
    ensures audit.active + audit.stale + audit.expired + audit.unmatched == items.Keys
    ensures audit.active !! audit.stale && audit.active !! audit.expired && audit.active !! audit.unmatched
    ensures audit.stale !! audit.expired && audit.stale !! audit.unmatched && audit.expired !! audit.unmatched
  {
  }

  /** For each identifier the last suppression counts: the project's if it has one, else the user's. */
  lemma {:induction false} ProjectOverridesUser(user: seq<Suppression>, project: seq<Suppression>, id: string)
    ensures id in ById(user + project) <==> id in ById(user) || id in ById(project)
    ensures id in ById(project) ==> ById(user + project)[id] == ById(project)[id]
    ensures id in ById(user) && id !in ById(project) ==> ById(user + project)[id] == ById(user)[id]
  {
    if project == [] {
      assert user + project == user;
    } else {
      var n := |project| - 1;
      assert (user + project)[..|user + project| - 1] == user + project[..n];
      ProjectOverridesUser(user, project[..n], id);
    }
  }

  lemma {:induction false} BlockingIff(
    findings: seq<Finding>, suppressed: set<string>, flagged: set<string>, id: string)
    ensures id in BlockingIds(findings, suppressed, flagged)
       <==> id !in suppressed && id in flagged && exists f <- findings :: f.id == id && Severe(f)
  {
    if findings != [] {
      var n := |findings| - 1;
      BlockingIff(findings[..n], suppressed, flagged, id);
      assert findings == findings[..n] + [findings[n]];
    }
  }

  /** No finding blocks while an applicable suppression names its rule. */
  lemma SuppressedNeverBlocks(
    items: seq<Suppression>, at: Situation, suppressed: set<string>, flagged: set<string>, k: string, f: Finding)
    requires forall id :: id in suppressed <==> IsSuppressed(id, items, at)
    requires k in ById(items) && Applies(ById(items)[k], at) && f in at.findings && Matches(ById(items)[k], f)
    ensures f.id !in BlockingIds(at.findings, suppressed, flagged)
  {
    assert IsSuppressed(f.id, items, at);
    BlockingIff(at.findings, suppressed, flagged, f.id);
  }
}
