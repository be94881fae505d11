/**
  Analysing the copies of an inventory (`engine.py`): copies are grouped by content hash, each content is
  analysed once, and its findings and evidence are renamed apart.
 */
module Inventory {
  import opened Prelude
  import opened StaticCache

  datatype Copy = Copy(id: string, selector: string)

  /** What happens when a copy is read. */
  datatype Reading = Read(digest: string) | Unread(cause: string, reason: string)

  type Reader = Copy -> Reading

  datatype Record = Record(
    copyIds: seq<string>, selectors: set<string>, digest: Option<string>, analyzed: bool, reused: bool,
    reason: Option<string>)

  /** An analysis and whether the cache served it. */
  type Analyzer = string -> (StaticAnalysis, bool)

  datatype Inventory = Inventory(
    records: seq<Record>, findings: seq<Finding>, evidence: seq<Evidence>, failed: seq<string>, digests: seq<string>)

  // ----- grouping ----------------------------------------------------------------------------------------

  /** The distinct contents, in the order in which they were first read. */
  function Digests(copies: seq<Copy>, read: Reader): seq<string> {
    if copies == [] then []
    else
      var front, r := Digests(copies[..|copies| - 1], read), read(copies[|copies| - 1]);
      if r.Read? && r.digest !in front then front + [r.digest] else front
  }

  function GroupOf(copies: seq<Copy>, read: Reader, digest: string): seq<Copy> {
    if copies == [] then []
    else
      GroupOf(copies[..|copies| - 1], read, digest)
      + if read(copies[|copies| - 1]) == Read(digest) then [copies[|copies| - 1]] else []
  }

  function NotAnalyzed(c: Copy, reason: string): Record {
    Record([c.id], {c.selector}, None, false, false, Some(reason))
  }

  function UnreadRecords(copies: seq<Copy>, read: Reader): seq<Record> {
    if copies == [] then []
    else
      var front, last := UnreadRecords(copies[..|copies| - 1], read), copies[|copies| - 1];
      match read(last)
      case Read(_) => front
      case Unread(_, reason) => front + [NotAnalyzed(last, reason)]
  }

  function UnreadFailures(copies: seq<Copy>, read: Reader): seq<string> {
    if copies == [] then []
    else
      var front, last := UnreadFailures(copies[..|copies| - 1], read), copies[|copies| - 1];
      match read(last)
      case Read(_) => front
      case Unread(cause, _) => front + [cause + ":" + last.id]
  }

  function Ids(copies: seq<Copy>): (s: seq<string>)
    ensures |s| == |copies|
  {
    seq(|copies|, i requires 0 <= i < |copies| => copies[i].id)
  }

  function SelectorsOf(copies: seq<Copy>): set<string> { set c | c in copies :: c.selector }

  function AnalyzedRecord(digest: string, group: seq<Copy>, served: bool): Record {
    Record(Ids(group), SelectorsOf(group), Some(digest), true, served || |group| > 1, None)
  }

  function AnalyzedRecords(digests: seq<string>, copies: seq<Copy>, read: Reader, analyze: Analyzer): (s: seq<Record>)
    ensures |s| == |digests|
  {
    seq(|digests|, i requires 0 <= i < |digests| =>
      AnalyzedRecord(digests[i], GroupOf(copies, read, digests[i]), analyze(digests[i]).1))
  }

  // ----- renaming ----------------------------------------------------------------------------------------

  const PREFIX_LENGTH: nat := 16

  function Prefix(digest: string): string { digest[..Min(PREFIX_LENGTH, |digest|)] }

  function Renamed(digest: string, id: string): string { Prefix(digest) + "-" + id }

  function RenamedIds(digest: string, ids: seq<string>): (s: seq<string>)
    ensures |s| == |ids|
  {
    seq(|ids|, i requires 0 <= i < |ids| => Renamed(digest, ids[i]))
  }

  /** The dictionary of new evidence names; a cited name that it lacks gets the prefix all the same. */
  function NameMap(digest: string, evidence: seq<Evidence>): map<string, string> {
    map id | id in (set e | e in evidence :: e.id) :: Renamed(digest, id)
  }

  method Namespace(analysis: StaticAnalysis, digest: string) returns (findings: seq<Finding>, evidence: seq<Evidence>)
    ensures findings == NamespacedFindings(analysis, digest) && evidence == NamespacedEvidence(analysis, digest)
  {
    var names := NameMap(digest, analysis.evidence);
    evidence := seq(|analysis.evidence|, i requires 0 <= i < |analysis.evidence| =>
      var e := analysis.evidence[i]; assert e in analysis.evidence; e.(id := names[e.id]));
    findings := seq(|analysis.findings|, i requires 0 <= i < |analysis.findings| =>
      var f := analysis.findings[i];
      f.(id := Renamed(digest, f.id),
         evidenceIds := seq(|f.evidenceIds|, k requires 0 <= k < |f.evidenceIds| =>
           if f.evidenceIds[k] in names then names[f.evidenceIds[k]] else Renamed(digest, f.evidenceIds[k]))));
    forall i | 0 <= i < |findings| ensures findings[i] == NamespacedFindings(analysis, digest)[i] {
      assert findings[i].evidenceIds == RenamedIds(digest, analysis.findings[i].evidenceIds);
    }
  }

  function NamespacedFindings(a: StaticAnalysis, digest: string): (s: seq<Finding>)
    ensures |s| == |a.findings|
  {
    seq(|a.findings|, i requires 0 <= i < |a.findings| =>
      a.findings[i].(id := Renamed(digest, a.findings[i].id),
                     evidenceIds := RenamedIds(digest, a.findings[i].evidenceIds)))
  }

  function NamespacedEvidence(a: StaticAnalysis, digest: string): (s: seq<Evidence>)
    ensures |s| == |a.evidence|
  {
    seq(|a.evidence|, i requires 0 <= i < |a.evidence| => a.evidence[i].(id := Renamed(digest, a.evidence[i].id)))
  }

  function AllFindings(digests: seq<string>, analyze: Analyzer): seq<Finding> {
    if digests == [] then []
    else
      var d := digests[|digests| - 1];
      AllFindings(digests[..|digests| - 1], analyze) + NamespacedFindings(analyze(d).0, d)
  }

  function AllEvidence(digests: seq<string>, analyze: Analyzer): seq<Evidence> {
    if digests == [] then []
    else
      var d := digests[|digests| - 1];
      AllEvidence(digests[..|digests| - 1], analyze) + NamespacedEvidence(analyze(d).0, d)
  }

  function AllFailures(digests: seq<string>, analyze: Analyzer): seq<string> {
    if digests == [] then []
    else AllFailures(digests[..|digests| - 1], analyze) + analyze(digests[|digests| - 1]).0.coverage.failed
  }

  // ----- the two loops -------------------------------------------------------------------------------------

  ghost predicate Grouped(groups: map<string, seq<Copy>>, order: seq<string>, copies: seq<Copy>, read: Reader) {
    && order == Digests(copies, read)
    && (forall d :: d in groups <==> d in order)
    && (forall d :: d in groups ==> groups[d] == GroupOf(copies, read, d))
  }

  lemma GroupedLonger(
    groups: map<string, seq<Copy>>, order: seq<string>, copies: seq<Copy>, read: Reader, c: Copy, digest: string)
    requires Grouped(groups, order, copies, read) && read(c) == Read(digest)
    ensures Grouped(groups[digest := (if digest in groups then groups[digest] else []) + [c]],
                    if digest in groups then order else order + [digest], copies + [c], read)
  {
    assert (copies + [c])[..|copies|] == copies;
    if digest !in groups { NoDigestNoGroup(copies, read, digest); }
  }

  lemma UnreadLonger(
    groups: map<string, seq<Copy>>, order: seq<string>, copies: seq<Copy>, read: Reader, c: Copy)
    requires Grouped(groups, order, copies, read)
    ensures read(c).Unread? ==> Grouped(groups, order, copies + [c], read)
    ensures UnreadRecords(copies + [c], read)
         == UnreadRecords(copies, read) + if read(c).Unread? then [NotAnalyzed(c, read(c).reason)] else []
    ensures UnreadFailures(copies + [c], read)
         == UnreadFailures(copies, read) + if read(c).Unread? then [read(c).cause + ":" + c.id] else []
  {
    assert (copies + [c])[..|copies|] == copies;
  }

  method ReadCopies(copies: seq<Copy>, read: Reader)
    returns (groups: map<string, seq<Copy>>, order: seq<string>, records: seq<Record>, failed: seq<string>)
    ensures Grouped(groups, order, copies, read)
    ensures records == UnreadRecords(copies, read) && failed == UnreadFailures(copies, read)
  {
    groups, order, records, failed := map[], [], [], [];
    for i := 0 to |copies|
      invariant Grouped(groups, order, copies[..i], read)
      invariant records == UnreadRecords(copies[..i], read) && failed == UnreadFailures(copies[..i], read)
    {
      var copy := copies[i];
      assert copies[..i + 1] == copies[..i] + [copy];
      UnreadLonger(groups, order, copies[..i], read, copy);
      match read(copy)
      case Unread(cause, reason) =>
        records, failed := records + [NotAnalyzed(copy, reason)], failed + [cause + ":" + copy.id];
      case Read(digest) =>
        GroupedLonger(groups, order, copies[..i], read, copy, digest);
        if digest !in groups { order := order + [digest]; }
        groups := groups[digest := (if digest in groups then groups[digest] else []) + [copy]];
    }
    assert copies[..|copies|] == copies;
  }

  lemma {:induction false} NoDigestNoGroup(copies: seq<Copy>, read: Reader, digest: string)
    requires digest !in Digests(copies, read)
    ensures GroupOf(copies, read, digest) == []
  {
    if copies != [] { NoDigestNoGroup(copies[..|copies| - 1], read, digest); }
  }

  /** The second loop: one analysis and one record for each content. */
  method AnalyzeGroups(groups: map<string, seq<Copy>>, order: seq<string>, analyze: Analyzer, ghost all: seq<Record>)
    returns (records: seq<Record>, findings: seq<Finding>, evidence: seq<Evidence>, failed: seq<string>)
    requires |all| == |order| && forall i :: 0 <= i < |order| ==>
               order[i] in groups && all[i] == AnalyzedRecord(order[i], groups[order[i]], analyze(order[i]).1)
    ensures records == all
    ensures findings == AllFindings(order, analyze) && evidence == AllEvidence(order, analyze)
    ensures failed == AllFailures(order, analyze)
  {
    records, findings, evidence, failed := [], [], [], [];
    for i := 0 to |order|
      invariant records == all[..i]
      invariant findings == AllFindings(order[..i], analyze) && evidence == AllEvidence(order[..i], analyze)
      invariant failed == AllFailures(order[..i], analyze)
    {
      var digest := order[i];
      var (analysis, served) := analyze(digest);
      var newFindings, newEvidence := Namespace(analysis, digest);
      assert order[..i + 1][..i] == order[..i];
      findings, evidence := findings + newFindings, evidence + newEvidence;
      failed := failed + analysis.coverage.failed;
      records := records + [AnalyzedRecord(digest, groups[digest], served)];
    }
    assert order[..|order|] == order;
  }

  /** `_analyze_inventory_copies` */
  method AnalyzeCopies(copies: seq<Copy>, read: Reader, analyze: Analyzer) returns (r: Inventory)
    ensures r.digests == Digests(copies, read)
    ensures r.records == UnreadRecords(copies, read) + AnalyzedRecords(r.digests, copies, read, analyze)
    ensures r.findings == AllFindings(r.digests, analyze) && r.evidence == AllEvidence(r.digests, analyze)
    ensures r.failed == Distinct(UnreadFailures(copies, read) + AllFailures(r.digests, analyze))
    ensures Holds(r, copies, read, analyze)
  {
    var groups, order, unread, unreadFailed := ReadCopies(copies, read);
    var records, findings, evidence, failed :=
      AnalyzeGroups(groups, order, analyze, AnalyzedRecords(order, copies, read, analyze));
    r := Inventory(unread + records, findings, evidence, Distinct(unreadFailed + failed), order);
    InventoryHolds(r, copies, read, analyze);
  }

  // ----- what an inventory contains ------------------------------------------------------------------------------

  ghost predicate IsContent(d: string, copies: seq<Copy>, read: Reader) {
    exists c :: c in copies && read(c) == Read(d)
  }

  /** A name apart: sixteen digits of the content in front of it. */
  predicate Names(name: string, d: string, id: string) { name == d[..Min(16, |d|)] + "-" + id }

  /** The finding under its new names, and otherwise as it was. */
  ghost predicate IsRenamed(f: Finding, g: Finding, d: string) {
    && f == g.(id := f.id, evidenceIds := f.evidenceIds) && Names(f.id, d, g.id)
    && |f.evidenceIds| == |g.evidenceIds|
    && forall k :: 0 <= k < |g.evidenceIds| ==> Names(f.evidenceIds[k], d, g.evidenceIds[k])
  }

  ghost predicate IsRenamedEvidence(e: Evidence, g: Evidence, d: string) { e == g.(id := e.id) && Names(e.id, d, g.id) }

  ghost predicate FindsIn(f: Finding, d: string, analyze: Analyzer) {
    exists g :: g in analyze(d).0.findings && IsRenamed(f, g, d)
  }

  ghost predicate CitesIn(e: Evidence, d: string, analyze: Analyzer) {
    exists g :: g in analyze(d).0.evidence && IsRenamedEvidence(e, g, d)
  }

  /** A copy that was not read, for its own reason. */
  ghost predicate RecordsUnread(record: Record, c: Copy, read: Reader) {
    && read(c).Unread? && record.copyIds == [c.id] && record.selectors == {c.selector} && record.digest.None?
    && !record.analyzed && !record.reused && record.reason == Some(read(c).reason)
  }

  /** A content that was analysed; it was reused if the cache served it or several copies have it. */
  ghost predicate RecordsContent(record: Record, d: string, copies: seq<Copy>, read: Reader, served: bool) {
    && record.digest == Some(d) && record.analyzed && record.reason.None?
    && (forall name ::
          name in record.selectors <==> exists c :: c in copies && read(c) == Read(d) && c.selector == name)
    && (record.reused <==>
          served || exists i, j :: 0 <= i < j < |copies| && read(copies[i]) == read(copies[j]) == Read(d))
  }

  /** Nothing that was found is lost, and nothing else is in the inventory. */
  ghost predicate Holds(r: Inventory, copies: seq<Copy>, read: Reader, analyze: Analyzer) {
    && (forall f :: f in r.findings <==> exists d :: IsContent(d, copies, read) && FindsIn(f, d, analyze))
    && (forall e :: e in r.evidence <==> exists d :: IsContent(d, copies, read) && CitesIn(e, d, analyze))
    && NoDuplicates(r.failed)
    && (forall x :: x in r.failed <==>
          || (exists c :: c in copies && read(c).Unread? && x == read(c).cause + ":" + c.id)
          || (exists d :: IsContent(d, copies, read) && x in analyze(d).0.coverage.failed))
    && (forall record <- r.records ::
          || (exists c :: c in copies && RecordsUnread(record, c, read))
          || (exists d :: IsContent(d, copies, read) && RecordsContent(record, d, copies, read, analyze(d).1)))
  }

  lemma DigestsAreContents(copies: seq<Copy>, read: Reader, d: string)
    ensures d in Digests(copies, read) <==> IsContent(d, copies, read)
  {
    DigestsAreDistinct(copies, read);
    if c :| c in copies && read(c) == Read(d) {
      var i :| 0 <= i < |copies| && copies[i] == c;
    }
  }

  lemma RenamedFindings(a: StaticAnalysis, d: string, f: Finding)
    ensures f in NamespacedFindings(a, d) <==> exists g :: g in a.findings && IsRenamed(f, g, d)
  {
    var named := NamespacedFindings(a, d);
    if f in named {
      var i :| 0 <= i < |named| && named[i] == f;
      assert a.findings[i] in a.findings && IsRenamed(f, a.findings[i], d);
    }
    if g :| g in a.findings && IsRenamed(f, g, d) {
      var i :| 0 <= i < |a.findings| && a.findings[i] == g;
      assert f.evidenceIds == RenamedIds(d, g.evidenceIds);
      assert named[i] == f;
    }
  }

  lemma RenamedEvidence(a: StaticAnalysis, d: string, e: Evidence)
    ensures e in NamespacedEvidence(a, d) <==> exists g :: g in a.evidence && IsRenamedEvidence(e, g, d)
  {
    var named := NamespacedEvidence(a, d);
    if e in named {
      var i :| 0 <= i < |named| && named[i] == e;
      assert a.evidence[i] in a.evidence && IsRenamedEvidence(e, a.evidence[i], d);
    }
    if g :| g in a.evidence && IsRenamedEvidence(e, g, d) {
      var i :| 0 <= i < |a.evidence| && a.evidence[i] == g;
      assert named[i] == e;
    }
  }

  lemma {:induction false} FoundIn(digests: seq<string>, analyze: Analyzer, f: Finding)
    ensures f in AllFindings(digests, analyze) <==> exists d :: d in digests && FindsIn(f, d, analyze)
  {
    if digests != [] {
      var n := |digests| - 1;
      FoundIn(digests[..n], analyze, f);
      RenamedFindings(analyze(digests[n]).0, digests[n], f);
      assert f in NamespacedFindings(analyze(digests[n]).0, digests[n]) <==> FindsIn(f, digests[n], analyze);
      assert digests[n] in digests;
      assert forall d :: d in digests <==> d in digests[..n] || d == digests[n];
    }
  }

  lemma {:induction false} CitedIn(digests: seq<string>, analyze: Analyzer, e: Evidence)
    ensures e in AllEvidence(digests, analyze) <==> exists d :: d in digests && CitesIn(e, d, analyze)
  {
    if digests != [] {
      var n := |digests| - 1;
      CitedIn(digests[..n], analyze, e);
      RenamedEvidence(analyze(digests[n]).0, digests[n], e);
      assert e in NamespacedEvidence(analyze(digests[n]).0, digests[n]) <==> CitesIn(e, digests[n], analyze);
      assert digests[n] in digests;
      assert forall d :: d in digests <==> d in digests[..n] || d == digests[n];
    }
  }

  lemma {:induction false} FailedIn(digests: seq<string>, analyze: Analyzer, x: string)
    ensures x in AllFailures(digests, analyze) <==> exists d :: d in digests && x in analyze(d).0.coverage.failed
  {
    if digests != [] {
      var n := |digests| - 1;
      FailedIn(digests[..n], analyze, x);
      assert forall d :: d in digests <==> d in digests[..n] || d == digests[n];
    }
  }

  lemma {:induction false} UnreadIn(copies: seq<Copy>, read: Reader)
    ensures forall x :: x in UnreadFailures(copies, read) <==>
              exists c :: c in copies && read(c).Unread? && x == read(c).cause + ":" + c.id
    ensures forall record <- UnreadRecords(copies, read) :: exists c :: c in copies && RecordsUnread(record, c, read)
  {
    if copies != [] {
      var n := |copies| - 1;
      UnreadIn(copies[..n], read);
      assert forall c :: c in copies <==> c in copies[..n] || c == copies[n];
      if read(copies[n]).Unread? {
        assert RecordsUnread(NotAnalyzed(copies[n], read(copies[n]).reason), copies[n], read);
      }
    }
  }

  lemma {:induction false} SharedIff(copies: seq<Copy>, read: Reader, d: string)
    ensures |GroupOf(copies, read, d)| >= 1 <==> exists i :: 0 <= i < |copies| && read(copies[i]) == Read(d)
    ensures |GroupOf(copies, read, d)| >= 2 <==>
              exists i, j :: 0 <= i < j < |copies| && read(copies[i]) == read(copies[j]) == Read(d)
  {
    if copies != [] {
      var n := |copies| - 1;
      SharedIff(copies[..n], read, d);
      assert forall i :: 0 <= i < n ==> copies[..n][i] == copies[i];
    }
  }

  lemma ContentIsRecorded(d: string, copies: seq<Copy>, read: Reader, served: bool)
    ensures RecordsContent(AnalyzedRecord(d, GroupOf(copies, read, d), served), d, copies, read, served)
  {
    GroupHas(copies, read, d);
    SharedIff(copies, read, d);
  }

  lemma InventoryHolds(r: Inventory, copies: seq<Copy>, read: Reader, analyze: Analyzer)
    requires r.digests == Digests(copies, read)
    requires r.records == UnreadRecords(copies, read) + AnalyzedRecords(r.digests, copies, read, analyze)
    requires r.findings == AllFindings(r.digests, analyze) && r.evidence == AllEvidence(r.digests, analyze)
    requires r.failed == Distinct(UnreadFailures(copies, read) + AllFailures(r.digests, analyze))
    ensures Holds(r, copies, read, analyze)
  {
    forall d ensures d in r.digests <==> IsContent(d, copies, read) { DigestsAreContents(copies, read, d); }
    forall f ensures f in r.findings <==> exists d :: d in r.digests && FindsIn(f, d, analyze) {
      FoundIn(r.digests, analyze, f);
    }
    forall e ensures e in r.evidence <==> exists d :: d in r.digests && CitesIn(e, d, analyze) {
      CitedIn(r.digests, analyze, e);
    }
    DistinctKeeps(UnreadFailures(copies, read) + AllFailures(r.digests, analyze));
    forall x ensures x in AllFailures(r.digests, analyze) <==>
                       exists d :: d in r.digests && x in analyze(d).0.coverage.failed
    {
      FailedIn(r.digests, analyze, x);
    }
    UnreadIn(copies, read);
    var unread, analyzed := UnreadRecords(copies, read), AnalyzedRecords(r.digests, copies, read, analyze);
    forall record | record in analyzed
      ensures exists d :: IsContent(d, copies, read) && RecordsContent(record, d, copies, read, analyze(d).1)
    {
      var i :| 0 <= i < |analyzed| && analyzed[i] == record;
      ContentIsRecorded(r.digests[i], copies, read, analyze(r.digests[i]).1);
      assert r.digests[i] in r.digests;
    }
  }

  // ----- conservation ----------------------------------------------------------------------------------------

  function CopyCount(copies: seq<Copy>, id: string): nat {
    if copies == [] then 0
    else CopyCount(copies[..|copies| - 1], id) + if copies[|copies| - 1].id == id then 1 else 0
  }

  /** How often an identifier stands in the records. */
  function RecordedCount(records: seq<Record>, id: string): nat {
    if records == [] then 0
    else RecordedCount(records[..|records| - 1], id) + multiset(records[|records| - 1].copyIds)[id]
  }

  function GroupedCount(digests: seq<string>, copies: seq<Copy>, read: Reader, id: string): nat {
    if digests == [] then 0
    else GroupedCount(digests[..|digests| - 1], copies, read, id)
         + CopyCount(GroupOf(copies, read, digests[|digests| - 1]), id)
  }

  lemma {:induction false} RecordedAppend(a: seq<Record>, b: seq<Record>, id: string)
    ensures RecordedCount(a + b, id) == RecordedCount(a, id) + RecordedCount(b, id)
  {
    if b == [] {
      assert a + b == a;
    } else {
      assert (a + b)[..|a + b| - 1] == a + b[..|b| - 1];
      RecordedAppend(a, b[..|b| - 1], id);
    }
  }

  lemma {:induction false} IdsAreCounted(copies: seq<Copy>, id: string)
    ensures multiset(Ids(copies))[id] == CopyCount(copies, id)
  {
    if copies != [] {
      var n := |copies| - 1;
      IdsAreCounted(copies[..n], id);
      assert Ids(copies) == Ids(copies[..n]) + [copies[n].id];
    }
  }

  lemma {:induction false} GroupsAreRecorded(
    digests: seq<string>, copies: seq<Copy>, read: Reader, analyze: Analyzer, id: string)
    ensures RecordedCount(AnalyzedRecords(digests, copies, read, analyze), id)
         == GroupedCount(digests, copies, read, id)
  {
    if digests != [] {
      var n := |digests| - 1;
      GroupsAreRecorded(digests[..n], copies, read, analyze, id);
      var all := AnalyzedRecords(digests, copies, read, analyze);
      assert all[..n] == AnalyzedRecords(digests[..n], copies, read, analyze);
      IdsAreCounted(GroupOf(copies, read, digests[n]), id);
    }
  }

  lemma {:induction false} DigestsAreDistinct(copies: seq<Copy>, read: Reader)
    ensures NoDuplicates(Digests(copies, read))
    ensures forall d :: d in Digests(copies, read) <==> exists i :: 0 <= i < |copies| && read(copies[i]) == Read(d)
  {
    if copies != [] {
      var n := |copies| - 1;
      DigestsAreDistinct(copies[..n], read);
      assert forall i :: 0 <= i < n ==> copies[..n][i] == copies[i];
    }
  }

  lemma CountSplits(copies: seq<Copy>, c: Copy, id: string)
    ensures CopyCount(copies + [c], id) == CopyCount(copies, id) + if c.id == id then 1 else 0
  {
    assert (copies + [c])[..|copies|] == copies;
  }

  predicate ReadsInto(c: Copy, read: Reader, digest: string) { read(c) == Read(digest) }

  /** `more` has one copy more, and so has the one group that this copy is read into. */
  ghost predicate Extends(more: seq<Copy>, copies: seq<Copy>, c: Copy, read: Reader, id: string) {
    forall d :: CopyCount(GroupOf(more, read, d), id)
             == CopyCount(GroupOf(copies, read, d), id) + if ReadsInto(c, read, d) && c.id == id then 1 else 0
  }

  lemma GroupsExtend(copies: seq<Copy>, c: Copy, read: Reader, id: string)
    ensures Extends(copies + [c], copies, c, read, id)
  {
    assert (copies + [c])[..|copies|] == copies;
    forall d ensures CopyCount(GroupOf(copies + [c], read, d), id)
             == CopyCount(GroupOf(copies, read, d), id) + if ReadsInto(c, read, d) && c.id == id then 1 else 0
    {
      CountSplits(GroupOf(copies, read, d), c, id);
      assert GroupOf(copies, read, d) + [] == GroupOf(copies, read, d);
    }
  }

  lemma {:induction false} GroupedUnchanged(
    digests: seq<string>, more: seq<Copy>, copies: seq<Copy>, c: Copy, read: Reader, id: string)
    requires Extends(more, copies, c, read, id) && forall k :: 0 <= k < |digests| ==> !ReadsInto(c, read, digests[k])
    ensures GroupedCount(digests, more, read, id) == GroupedCount(digests, copies, read, id)
  {
    if digests != [] {
      GroupedUnchanged(digests[..|digests| - 1], more, copies, c, read, id);
    }
  }

  /** One more copy lengthens the one group of its content. */
  lemma {:induction false} GroupedMore(
    digests: seq<string>, more: seq<Copy>, copies: seq<Copy>, c: Copy, read: Reader, k: nat, id: string)
    requires Extends(more, copies, c, read, id) && k < |digests| && ReadsInto(c, read, digests[k])
    requires forall i :: 0 <= i < |digests| && i != k ==> !ReadsInto(c, read, digests[i])
    ensures GroupedCount(digests, more, read, id)
         == GroupedCount(digests, copies, read, id) + if c.id == id then 1 else 0
  {
    var n := |digests| - 1;
    if k < n {
      GroupedMore(digests[..n], more, copies, c, read, k, id);
    } else {
      GroupedUnchanged(digests[..n], more, copies, c, read, id);
    }
  }

  lemma UnreadMore(copies: seq<Copy>, c: Copy, read: Reader, id: string)
    ensures RecordedCount(UnreadRecords(copies + [c], read), id)
         == RecordedCount(UnreadRecords(copies, read), id) + if read(c).Unread? && c.id == id then 1 else 0
  {
    assert (copies + [c])[..|copies|] == copies;
    if read(c).Unread? {
      var record := NotAnalyzed(c, read(c).reason);
      RecordedAppend(UnreadRecords(copies, read), [record], id);
      assert [record][..0] == [];
    }
  }

  lemma DigestsMore(copies: seq<Copy>, c: Copy, read: Reader)
    ensures Digests(copies + [c], read)
         == Digests(copies, read)
            + if read(c).Read? && read(c).digest !in Digests(copies, read) then [read(c).digest] else []
  {
    assert (copies + [c])[..|copies|] == copies;
  }

  lemma KnownMore(digests: seq<string>, copies: seq<Copy>, c: Copy, read: Reader, id: string)
    requires NoDuplicates(digests) && (read(c).Unread? || read(c).digest in digests)
    ensures GroupedCount(digests, copies + [c], read, id)
         == GroupedCount(digests, copies, read, id) + if read(c).Read? && c.id == id then 1 else 0
  {
    GroupsExtend(copies, c, read, id);
    if read(c).Unread? {
      GroupedUnchanged(digests, copies + [c], copies, c, read, id);
    } else {
      var k: nat :| k < |digests| && digests[k] == read(c).digest;
      GroupedMore(digests, copies + [c], copies, c, read, k, id);
    }
  }

  lemma NewMore(digests: seq<string>, copies: seq<Copy>, c: Copy, read: Reader, d: string, id: string)
    requires digests == Digests(copies, read) && read(c) == Read(d) && d !in digests
    ensures GroupedCount(digests + [d], copies + [c], read, id)
         == GroupedCount(digests, copies, read, id) + if c.id == id then 1 else 0
  {
    GroupsExtend(copies, c, read, id);
    GroupedUnchanged(digests, copies + [c], copies, c, read, id);
    NoDigestNoGroup(copies, read, d);
    assert ReadsInto(c, read, d);
    assert CopyCount(GroupOf(copies + [c], read, d), id) == if c.id == id then 1 else 0;
    assert (digests + [d])[..|digests|] == digests;
  }

  lemma ReadMore(copies: seq<Copy>, c: Copy, read: Reader, id: string)
    ensures GroupedCount(Digests(copies + [c], read), copies + [c], read, id)
         == GroupedCount(Digests(copies, read), copies, read, id) + if read(c).Read? && c.id == id then 1 else 0
  {
    var digests := Digests(copies, read);
    DigestsAreDistinct(copies, read);
    DigestsMore(copies, c, read);
    if read(c).Read? && read(c).digest !in digests {
      NewMore(digests, copies, c, read, read(c).digest, id);
    } else {
      KnownMore(digests, copies, c, read, id);
    }
  }

  ghost predicate Counted(copies: seq<Copy>, read: Reader, id: string) {
    RecordedCount(UnreadRecords(copies, read), id) + GroupedCount(Digests(copies, read), copies, read, id)
    == CopyCount(copies, id)
  }

  lemma CountedMore(copies: seq<Copy>, c: Copy, read: Reader, id: string)
    requires Counted(copies, read, id)
    ensures Counted(copies + [c], read, id)
  {
    UnreadMore(copies, c, read, id);
    ReadMore(copies, c, read, id);
    CountSplits(copies, c, id);
  }

  lemma CountedLonger(front: seq<Copy>, c: Copy, copies: seq<Copy>, read: Reader, id: string)
    requires Counted(front, read, id) && copies == front + [c]
    ensures Counted(copies, read, id)
  {
    CountedMore(front, c, read, id);
  }

  lemma {:induction false} CopiesAreCounted(copies: seq<Copy>, read: Reader, id: string)
    ensures Counted(copies, read, id)
  {
    if copies != [] {
      var n := |copies| - 1;
      CopiesAreCounted(copies[..n], read, id);
      CountedLonger(copies[..n], copies[n], copies, read, id);
    }
  }

  /** Every selected copy stands in the records exactly once: no identifier is lost or repeated. */
  lemma CopiesAreConserved(copies: seq<Copy>, read: Reader, analyze: Analyzer, id: string)
    ensures RecordedCount(
              UnreadRecords(copies, read) + AnalyzedRecords(Digests(copies, read), copies, read, analyze), id)
         == CopyCount(copies, id)
  {
    RecordedAppend(UnreadRecords(copies, read), AnalyzedRecords(Digests(copies, read), copies, read, analyze), id);
    GroupsAreRecorded(Digests(copies, read), copies, read, analyze, id);
    CopiesAreCounted(copies, read, id);
  }

  /** One analysed record for each distinct content, naming the copies that have it. */
  lemma OneRecordPerContent(copies: seq<Copy>, read: Reader, analyze: Analyzer, i: nat, j: nat)
    requires i < |Digests(copies, read)| && j < |Digests(copies, read)|
    ensures var records := AnalyzedRecords(Digests(copies, read), copies, read, analyze);
      && (records[i].digest == records[j].digest <==> i == j)
      && records[i].copyIds != []
      && forall id :: id in records[i].copyIds <==>
           exists c :: c in copies && c.id == id && read(c) == Read(records[i].digest.value)
  {
    DigestsAreDistinct(copies, read);
    var d := Digests(copies, read)[i];
    GroupHas(copies, read, d);
    var group := GroupOf(copies, read, d);
    forall id ensures id in Ids(group) <==> exists c :: c in group && c.id == id {
      if id in Ids(group) {
        var k :| 0 <= k < |group| && Ids(group)[k] == id;
        assert group[k] in group;
      }
      if c :| c in group && c.id == id {
        var k :| 0 <= k < |group| && group[k] == c;
        assert Ids(group)[k] == id;
      }
    }
    var k :| 0 <= k < |copies| && read(copies[k]) == Read(d);
    assert copies[k] in group;
  }

  lemma {:induction false} GroupHas(copies: seq<Copy>, read: Reader, digest: string)
    ensures forall c :: c in GroupOf(copies, read, digest) <==> c in copies && read(c) == Read(digest)
  {
    if copies != [] {
      var n := |copies| - 1;
      GroupHas(copies[..n], read, digest);
      assert copies == copies[..n] + [copies[n]];
    }
  }

  // ----- evidence --------------------------------------------------------------------------------------------

  ghost predicate Cites(findings: seq<Finding>, evidence: seq<Evidence>) {
    forall f <- findings :: forall id <- f.evidenceIds :: exists e <- evidence :: e.id == id
  }

  lemma RenamedTellsApart(d: string, x: string, y: string)
    ensures Renamed(d, x) == Renamed(d, y) <==> x == y
  {
    var n := |Prefix(d)| + 1;
    assert Renamed(d, x)[n..] == x && Renamed(d, y)[n..] == y;
  }

  /** Renaming neither loses nor creates a dangling citation. */
  lemma RenamingKeepsCitations(a: StaticAnalysis, digest: string)
    ensures Cites(NamespacedFindings(a, digest), NamespacedEvidence(a, digest)) <==> Cites(a.findings, a.evidence)
  {
    var findings, evidence := NamespacedFindings(a, digest), NamespacedEvidence(a, digest);
    if Cites(a.findings, a.evidence) {
      forall f, id | f in findings && id in f.evidenceIds ensures exists e <- evidence :: e.id == id {
        var i :| 0 <= i < |findings| && findings[i] == f;
        var k :| 0 <= k < |f.evidenceIds| && f.evidenceIds[k] == id;
        var was := a.findings[i];
        assert was in a.findings && was.evidenceIds[k] in was.evidenceIds;
        var e :| e in a.evidence && e.id == was.evidenceIds[k];
        var m :| 0 <= m < |a.evidence| && a.evidence[m] == e;
        assert evidence[m] in evidence;
      }
    }
    if Cites(findings, evidence) {
      forall f, id | f in a.findings && id in f.evidenceIds ensures exists e <- a.evidence :: e.id == id {
        var i :| 0 <= i < |a.findings| && a.findings[i] == f;
        var k :| 0 <= k < |f.evidenceIds| && f.evidenceIds[k] == id;
        assert findings[i] in findings && findings[i].evidenceIds[k] in findings[i].evidenceIds;
        var e :| e in evidence && e.id == Renamed(digest, id);
        var m :| 0 <= m < |evidence| && evidence[m] == e;
        RenamedTellsApart(digest, a.evidence[m].id, id);
        assert a.evidence[m] in a.evidence;
      }
    }
  }

  lemma CitesBoth(a: seq<Finding>, x: seq<Evidence>, b: seq<Finding>, y: seq<Evidence>)
    requires Cites(a, x) && Cites(b, y)
    ensures Cites(a + b, x + y)
  {
    forall f, id | f in a + b && id in f.evidenceIds ensures exists e <- x + y :: e.id == id {
      if f in a {
        var e :| e in x && e.id == id;
        assert e in x + y;
      } else {
        var e :| e in y && e.id == id;
        assert e in x + y;
      }
    }
  }

  /** In the whole inventory every cited piece of evidence exists, if each analysis cites only its own. */
  lemma {:induction false} InventoryCitesItsEvidence(digests: seq<string>, analyze: Analyzer)
    requires forall d <- digests :: Cites(analyze(d).0.findings, analyze(d).0.evidence)
    ensures Cites(AllFindings(digests, analyze), AllEvidence(digests, analyze))
  {
    if digests != [] {
      var n := |digests| - 1;
      InventoryCitesItsEvidence(digests[..n], analyze);
      RenamingKeepsCitations(analyze(digests[n]).0, digests[n]);
      CitesBoth(AllFindings(digests[..n], analyze), AllEvidence(digests[..n], analyze),
                NamespacedFindings(analyze(digests[n]).0, digests[n]),
                NamespacedEvidence(analyze(digests[n]).0, digests[n]));
    }
  }

  /** Names from two contents can only meet if the first sixteen digits of their hashes agree. */
  lemma NamesMeetIffPrefixesAgree(d: string, e: string)
    requires |d| >= PREFIX_LENGTH && |e| >= PREFIX_LENGTH
    ensures (exists x, y :: Renamed(d, x) == Renamed(e, y)) <==> d[..PREFIX_LENGTH] == e[..PREFIX_LENGTH]
  {
    if x, y :| Renamed(d, x) == Renamed(e, y) {
      assert Renamed(d, x)[..PREFIX_LENGTH] == Prefix(d);
      assert Renamed(e, y)[..PREFIX_LENGTH] == Prefix(e);
    }
    if d[..PREFIX_LENGTH] == e[..PREFIX_LENGTH] { assert Renamed(d, "") == Renamed(e, ""); }
  }
}
