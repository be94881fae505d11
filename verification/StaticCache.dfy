/**
  The static-analysis cache: its payloads (`models.py`), its rows (`store.py`), its key and its use
  (`engine.py`), and the declarative rules of a signed pack (`supply_chain.py`).
 */
module StaticCache {
  import opened Prelude
  import opened Models

  // ----- analyses ----------------------------------------------------------------------------------------

  /** The keys of a payload's dictionaries; any other string is a key that nothing asks for. */
  datatype Name =
    | Id | RuleId | Title | Message | SeverityName | ConfidenceName | CausalRole | EvidenceIds | PathName | LineName
    | KindName | Description | ArtifactHash | Completed | Skipped | Unsupported | FailedName
    | Findings | EvidenceName | CoverageName | AnyOther(name: string)

  datatype Json =
    | Null | Int(i: int) | String(s: string) | Array(items: seq<Json>) | Object(fields: map<Name, Json>)
    | Other(text: string)   // numbers with a fraction, and booleans

  /** The vocabulary fields are whatever the payload holds: reading them back checks nothing. */
  datatype Finding = Finding(
    id: string, ruleId: string, title: string, message: string, severity: Json, confidence: Json, causalRole: Json,
    evidenceIds: seq<string>, path: Option<string>, line: Option<int>)

  datatype Evidence = Evidence(
    id: string, kind: string, description: string, artifactHash: Option<string>, path: Option<string>,
    line: Option<int>)

  datatype StaticAnalysis = StaticAnalysis(findings: seq<Finding>, evidence: seq<Evidence>, coverage: Coverage)

  // ----- payloads ----------------------------------------------------------------------------------------

  function Strings(s: seq<string>): Json { Array(seq(|s|, i requires 0 <= i < |s| => String(s[i]))) }

  function OptString(o: Option<string>): Json { if o.Some? then String(o.value) else Null }

  function OptInt(o: Option<int>): Json { if o.Some? then Int(o.value) else Null }

  function FindingToDict(f: Finding): Json {
    Object(map[Id := String(f.id), RuleId := String(f.ruleId), Title := String(f.title),
               Message := String(f.message), SeverityName := f.severity, ConfidenceName := f.confidence,
               CausalRole := f.causalRole, EvidenceIds := Strings(f.evidenceIds),
               PathName := OptString(f.path), LineName := OptInt(f.line)])
  }

  function EvidenceToDict(e: Evidence): Json {
    Object(map[Id := String(e.id), KindName := String(e.kind), Description := String(e.description),
               ArtifactHash := OptString(e.artifactHash), PathName := OptString(e.path), LineName := OptInt(e.line)])
  }

  function CoverageToDict(c: Coverage): Json {
    Object(map[Completed := Strings(c.completed), Skipped := Strings(c.skipped),
               Unsupported := Strings(c.unsupported), FailedName := Strings(c.failed)])
  }

  /** `StaticAnalysis.to_dict`, after a trip through JSON text. */
  function ToDict(a: StaticAnalysis): Json {
    Object(map[Findings := Array(seq(|a.findings|, i requires 0 <= i < |a.findings| => FindingToDict(a.findings[i]))),
               EvidenceName := Array(seq(|a.evidence|, i requires 0 <= i < |a.evidence| =>
                 EvidenceToDict(a.evidence[i]))),
               CoverageName := CoverageToDict(a.coverage)])
  }

  /** Python's conversions of values that are not already of the type asked for. */
  datatype Conversions = Conversions(
    str: Json -> string,            // `str(value)` of anything but a string
    toInt: Json -> Option<int>,       // `int(value)` of anything but an integer; `None` if it raises
    keys: map<Name, Json> -> seq<string>)

  function Str(j: Json, py: Conversions): string { if j.String? then j.s else py.str(j) }

  function ToInt(j: Json, py: Conversions): Option<int> { if j.Int? then Some(j.i) else py.toInt(j) }

  /** `item[key]`, which raises unless the item is a dictionary with that key. */
  function Get(j: Json, key: Name): Option<Json> {
    if j.Object? && key in j.fields then Some(j.fields[key]) else None
  }

  /** What a loop over the value sees; a string has its characters, a dictionary its keys. */
  function Elements(j: Json, py: Conversions): Option<seq<Json>> {
    match j
    case Array(items) => Some(items)
    case String(s) => Some(seq(|s|, i requires 0 <= i < |s| => String([s[i]])))
    case Object(fields) =>
      var keys := py.keys(fields);
      Some(seq(|keys|, i requires 0 <= i < |keys| => String(keys[i])))
    case _ => None
  }

  function GetString(j: Json, key: Name, py: Conversions): Option<string> {
    var v := Get(j, key);
    if v.None? then None else Some(Str(v.value, py))
  }

  function GetStrings(j: Json, key: Name, py: Conversions): Option<seq<string>> {
    var v := Get(j, key);
    if v.None? then None
    else
      var items := Elements(v.value, py);
      if items.None? then None
      else Some(seq(|items.value|, i requires 0 <= i < |items.value| => Str(items.value[i], py)))
  }

  predicate Absent(j: Json, key: Name) { Get(j, key).None? || Get(j, key).value.Null? }

  /** `None if item.get(key) is None else str(item[key])` */
  function MaybeString(j: Json, key: Name, py: Conversions): Option<string> {
    if Absent(j, key) then None else GetString(j, key, py)
  }

  function MaybeInt(j: Json, key: Name, py: Conversions): Option<Option<int>> {
    if Absent(j, key) then Some(None)
    else
      var i := ToInt(Get(j, key).value, py);
      if i.None? then None else Some(Some(i.value))
  }

  function FindingFromDict(j: Json, py: Conversions): Option<Finding> {
    var id, rule := GetString(j, Id, py), GetString(j, RuleId, py);
    var title, message := GetString(j, Title, py), GetString(j, Message, py);
    var severity, confidence, role := Get(j, SeverityName), Get(j, ConfidenceName), Get(j, CausalRole);
    var ids, line := GetStrings(j, EvidenceIds, py), MaybeInt(j, LineName, py);
    if id.None? || rule.None? || title.None? || message.None? || severity.None? || confidence.None? || role.None?
       || ids.None? || line.None?
    then None
    else Some(Finding(id.value, rule.value, title.value, message.value, severity.value, confidence.value, role.value,
                      ids.value, MaybeString(j, PathName, py), line.value))
  }

  function EvidenceFromDict(j: Json, py: Conversions): Option<Evidence> {
    var id, kind, description := GetString(j, Id, py), GetString(j, KindName, py), GetString(j, Description, py);
    var line := MaybeInt(j, LineName, py);
    if id.None? || kind.None? || description.None? || line.None? then None
    else Some(Evidence(id.value, kind.value, description.value, MaybeString(j, ArtifactHash, py),
                       MaybeString(j, PathName, py), line.value))
  }

  function CoverageFromDict(j: Json, py: Conversions): Option<Coverage> {
    var completed, skipped := GetStrings(j, Completed, py), GetStrings(j, Skipped, py);
    var unsupported, failed := GetStrings(j, Unsupported, py), GetStrings(j, FailedName, py);
    if completed.None? || skipped.None? || unsupported.None? || failed.None? then None
    else Some(Coverage(completed.value, skipped.value, unsupported.value, failed.value))
  }

  /** All of them, or nothing if one of them raises. */
  function All<T>(items: seq<Json>, read: Json -> Option<T>): Option<seq<T>> {
    if items == [] then Some([])
    else
      var front, last := All(items[..|items| - 1], read), read(items[|items| - 1]);
      if front.None? || last.None? then None else Some(front.value + [last.value])
  }

  function ReadFinding(py: Conversions): Json -> Option<Finding> { j => FindingFromDict(j, py) }

  function ReadEvidence(py: Conversions): Json -> Option<Evidence> { j => EvidenceFromDict(j, py) }

  /** `StaticAnalysis.from_dict`; `None` stands for its one error. */
  function FromDict(j: Json, py: Conversions): Option<StaticAnalysis> {
    var rawFindings, rawEvidence, rawCoverage := Get(j, Findings), Get(j, EvidenceName), Get(j, CoverageName);
    if rawFindings.None? || rawEvidence.None? || rawCoverage.None? then None
    else
      var findingItems, evidenceItems := Elements(rawFindings.value, py), Elements(rawEvidence.value, py);
      if findingItems.None? || evidenceItems.None? then None
      else
        var findings, evidence := All(findingItems.value, ReadFinding(py)), All(evidenceItems.value, ReadEvidence(py));
        var coverage := CoverageFromDict(rawCoverage.value, py);
        if findings.None? || evidence.None? || coverage.None? then None
        else Some(StaticAnalysis(findings.value, evidence.value, coverage.value))
  }

  lemma {:induction false} AllBack<T>(items: seq<T>, written: seq<Json>, read: Json -> Option<T>)
    requires |written| == |items| && forall i :: 0 <= i < |items| ==> read(written[i]) == Some(items[i])
    ensures All(written, read) == Some(items)
  {
    if items != [] {
      var n := |items| - 1;
      AllBack(items[..n], written[..n], read);
      assert items == items[..n] + [items[n]];
    }
  }

  lemma StringsBack(j: Json, key: Name, s: seq<string>, py: Conversions)
    requires Get(j, key) == Some(Strings(s))
    ensures GetStrings(j, key, py) == Some(s)
  {
    var items := Elements(Strings(s), py).value;
    assert forall i :: 0 <= i < |s| ==> Str(items[i], py) == s[i];
    assert seq(|items|, i requires 0 <= i < |items| => Str(items[i], py)) == s;
  }

  lemma FindingBack(f: Finding, py: Conversions)
    ensures FindingFromDict(FindingToDict(f), py) == Some(f)
  {
    StringsBack(FindingToDict(f), EvidenceIds, f.evidenceIds, py);
  }

  lemma CoverageBack(c: Coverage, py: Conversions)
    ensures CoverageFromDict(CoverageToDict(c), py) == Some(c)
  {
    var j := CoverageToDict(c);
    StringsBack(j, Completed, c.completed, py);
    StringsBack(j, Skipped, c.skipped, py);
    StringsBack(j, Unsupported, c.unsupported, py);
    StringsBack(j, FailedName, c.failed, py);
  }

  lemma FindingsBack(a: StaticAnalysis, py: Conversions)
    ensures var j := Get(ToDict(a), Findings);
      j.Some? && j.value.Array? && All(j.value.items, ReadFinding(py)) == Some(a.findings)
  {
    var items := Get(ToDict(a), Findings).value.items;
    forall i | 0 <= i < |a.findings| ensures ReadFinding(py)(items[i]) == Some(a.findings[i]) {
      FindingBack(a.findings[i], py);
    }
    AllBack(a.findings, items, ReadFinding(py));
  }

  lemma EvidenceBack(a: StaticAnalysis, py: Conversions)
    ensures var j := Get(ToDict(a), EvidenceName);
      j.Some? && j.value.Array? && All(j.value.items, ReadEvidence(py)) == Some(a.evidence)
  {
    AllBack(a.evidence, Get(ToDict(a), EvidenceName).value.items, ReadEvidence(py));
  }

  /** What is cached reads back as the analysis that was cached. */
  lemma AnalysisRoundTrip(a: StaticAnalysis, py: Conversions)
    ensures FromDict(ToDict(a), py) == Some(a)
  {
    FindingsBack(a, py);
    EvidenceBack(a, py);
    CoverageBack(a.coverage, py);
  }

  // ----- snapshots and rule packs ----------------------------------------------------------------------------

  datatype File = File(path: string, data: string)

  /** All that the snapshot digest is made from, and so all that the digest tells apart. */
  datatype Manifest = Manifest(kind: string, files: seq<File>, skipped: seq<(string, string)>)

  datatype Snapshot = Snapshot(rootName: string, manifest: Manifest)

  datatype Rule = Rule(id: string, title: string, message: string, literal: string, severity: Json, caseSensitive: bool)

  datatype Pack = Pack(rulesetVersion: string, documentSha: string, rules: seq<Rule>)

  /** Interpreter, schema, snapshot format and tool version. */
  datatype Installation = Installation(python: string, schema: string, format: string, tool: string)

  /** The code and libraries that the cache relies on but does not contain. */
  datatype World = World(
    analyze: (Installation, Snapshot) -> StaticAnalysis,
    decode: string -> Option<string>,      // UTF-8
    encode: string -> string,
    fold: string -> string,                // `casefold`
    identity: (string, string, string, nat) -> string,
    py: Conversions)

  ghost predicate Sensible(w: World) { forall text :: w.decode(w.encode(text)) == Some(text) }

  /** Verified packs: hexadecimal hashes that name the document, and at least one rule. */
  ghost predicate PacksOk(packs: set<Pack>) {
    && (forall p <- packs :: |p.documentSha| == 64 && p.rules != [])
    && (forall p <- packs, q <- packs :: p.documentSha == q.documentSha ==> p == q)
  }

  const HASH_PREFIX: nat := 12
  const BUILTIN_RULES := "builtin"

  function EffectiveVersion(p: Pack): string
    requires |p.documentSha| == 64
  {
    p.rulesetVersion + "+" + p.documentSha[..HASH_PREFIX]
  }

  function RulesetVersion(pack: Option<Pack>): string
    requires pack.Some? ==> |pack.value.documentSha| == 64
  {
    if pack.None? then BUILTIN_RULES else BUILTIN_RULES + "+signed." + EffectiveVersion(pack.value)
  }

  function Find(text: string, needle: string): Option<nat> {
    if |needle| > |text| then None
    else if needle <= text then Some(0)
    else
      var rest := Find(text[1..], needle);
      if rest.None? then None else Some(rest.value + 1)
  }

  function LineBreaks(text: string): nat {
    if text == [] then 0 else LineBreaks(text[..|text| - 1]) + if text[|text| - 1] == '\n' then 1 else 0
  }

  function Document(files: seq<File>): Option<string> {
    if files == [] then None else if files[0].path == "SKILL.md" then Some(files[0].data) else Document(files[1..])
  }

  /** Where a rule's literal first occurs, if it does. */
  function MatchOf(w: World, rule: Rule, text: string): Option<nat> {
    if rule.caseSensitive then Find(text, rule.literal) else Find(w.fold(text), w.fold(rule.literal))
  }

  function RuleMatches(w: World, p: Pack, rules: seq<Rule>, data: string, text: string)
    : (r: (seq<Finding>, seq<Evidence>))
    ensures forall e <- r.1 :: e.artifactHash == Some(p.documentSha)
  {
    if rules == [] then ([], [])
    else
      var (findings, evidence) := RuleMatches(w, p, rules[..|rules| - 1], data, text);
      var rule := rules[|rules| - 1];
      var offset := MatchOf(w, rule, text);
      if offset.None? then (findings, evidence)
      else
        var line := LineBreaks(text[..Min(offset.value, |text|)]) + 1;
        var identity := w.identity(p.documentSha, rule.id, data, line);
        (findings + [Finding("finding-" + identity, rule.id, rule.title, rule.message, rule.severity, String("high"),
                             String("indeterminate"), ["signed-rule-" + identity], Some("SKILL.md"), Some(line))],
         evidence + [Evidence("signed-rule-" + identity, "verified_signed_declarative_rule",
                              p.rulesetVersion + rule.literal, Some(p.documentSha), Some("SKILL.md"), Some(line))])
  }

  const NO_COVERAGE := Coverage([], [], [], [])

  /** `analyze_declarative_rules` */
  function AnalyzeRules(w: World, s: Snapshot, p: Pack): StaticAnalysis
    requires |p.documentSha| == 64
  {
    var data := Document(s.manifest.files);
    if data.None? then StaticAnalysis([], [], NO_COVERAGE.(skipped := ["signed_declarative_rules:no_SKILL.md"]))
    else
      var text := w.decode(data.value);
      if text.None? then StaticAnalysis([], [], NO_COVERAGE.(skipped := ["signed_declarative_rules:non_utf8"]))
      else
        var (findings, evidence) := RuleMatches(w, p, p.rules, data.value, text.value);
        StaticAnalysis(findings, evidence,
                       NO_COVERAGE.(completed := ["signed_declarative_rules:" + EffectiveVersion(p)]))
  }

  function Together(a: StaticAnalysis, b: StaticAnalysis): StaticAnalysis {
    StaticAnalysis(
      a.findings + b.findings, a.evidence + b.evidence,
      Coverage(Distinct(a.coverage.completed + b.coverage.completed), Distinct(a.coverage.skipped + b.coverage.skipped),
               Distinct(a.coverage.unsupported + b.coverage.unsupported),
               Distinct(a.coverage.failed + b.coverage.failed)))
  }

  // ----- the cache -----------------------------------------------------------------------------------------

  datatype Request = Request(installation: Installation, snapshot: Snapshot, pack: Option<Pack>, cancelled: bool)

  /** The SHA-256 of the sorted dimensions, as a value that differs whenever they do. */
  datatype Key = Key(installation: Installation, ruleset: string, rootName: string, manifest: Manifest)

  predicate RequestOk(r: Request) { r.pack.Some? ==> |r.pack.value.documentSha| == 64 }

  function KeyOf(r: Request): Key
    requires RequestOk(r)
  {
    Key(r.installation, RulesetVersion(r.pack), r.snapshot.rootName, r.snapshot.manifest)
  }

  /** What an analysis would say now. */
  function Fresh(w: World, r: Request): StaticAnalysis
    requires RequestOk(r)
  {
    var core := w.analyze(r.installation, r.snapshot);
    if r.pack.None? then core else Together(core, AnalyzeRules(w, r.snapshot, r.pack.value))
  }

  /** Stored text; `None` is text that is not JSON. */
  type Rows = map<Key, Option<Json>>

  function Loaded(rows: Rows, key: Key): Option<Json> {
    if key in rows && rows[key].Some? && rows[key].value.Object? then rows[key] else None
  }

  /** `INSERT OR IGNORE` */
  function Inserted(rows: Rows, key: Key, payload: Json): Rows {
    if key in rows then rows else rows[key := Some(payload)]
  }

  /** The analysis that the cache can serve. */
  function Served(w: World, rows: Rows, key: Key): Option<StaticAnalysis> {
    var payload := Loaded(rows, key);
    if payload.None? then None else FromDict(payload.value, w.py)
  }

  /** The new rows and the answer, which is `None` for a cancelled analysis. */
  function Answer(w: World, rows: Rows, r: Request): (Rows, Option<StaticAnalysis>)
    requires RequestOk(r)
  {
    var served := Served(w, rows, KeyOf(r));
    if served.Some? then (rows, served)
    else if r.cancelled then (rows, None)
    else (Inserted(rows, KeyOf(r), ToDict(Fresh(w, r))), Some(Fresh(w, r)))
  }

  class Cache {
    var rows: Rows

    constructor ()
      ensures rows == map[]
    {
      rows := map[];
    }

    /** Only a dictionary is ever handed out, and only for the key under which it is stored. */
    method Load(key: Key) returns (payload: Option<Json>)
      ensures payload == Loaded(rows, key)
      ensures payload.Some? <==> key in rows && rows[key].Some? && rows[key].value.Object?
      ensures payload.Some? ==> payload.value.Object? && payload == rows[key]
    {
      if key !in rows { return None; }
      payload := rows[key];
      if payload.Some? && !payload.value.Object? { payload := None; }
    }

    /** The first payload of a key stays: it is what every later load of the key returns. */
    method Insert(key: Key, payload: Json)
      modifies this
      ensures rows == Inserted(old(rows), key, payload)
      ensures key in old(rows) ==> rows == old(rows)
      ensures key !in old(rows) && payload.Object? ==> Loaded(rows, key) == Some(payload)
      ensures forall other :: other != key ==> Loaded(rows, other) == Loaded(old(rows), other)
    {
      if key !in rows { rows := rows[key := Some(payload)]; }
    }

    /**
      `_analyze_snapshot`: on sound rows the answer is the fresh analysis, or none for a cancelled one, and
      the rows stay sound; what was computed for a new key is what the next request with that key is served.
     */
    method AnalyzeSnapshot(w: World, r: Request)
      returns (analysis: Option<StaticAnalysis>, reused: bool)
      requires RequestOk(r)
      modifies this
      ensures (rows, analysis) == Answer(w, old(rows), r)
      ensures reused <==> Served(w, old(rows), KeyOf(r)).Some?
      ensures forall packs :: Reliable(w, packs, old(rows)) && UsesPacks(r, packs) ==>
                Reliable(w, packs, rows) && AnswerOk(w, analysis, r)
      ensures KeyOf(r) !in old(rows) && !r.cancelled ==> Served(w, rows, KeyOf(r)) == analysis == Some(Fresh(w, r))
      ensures KeyOf(r) !in old(rows) && !r.cancelled ==> Composed(w, r, analysis.value)
      ensures analysis.None? ==> rows == old(rows)
    {
      AnswerMeans(w, rows, r);
      FreshIsComposed(w, r);
      var key := KeyOf(r);
      var cached := Load(key);
      analysis := if cached.Some? then FromDict(cached.value, w.py) else None;
      if analysis.Some? { return analysis, true; }
      reused := false;
      var computed := w.analyze(r.installation, r.snapshot);
      if r.pack.Some? {
        var supplemental := AnalyzeRules(w, r.snapshot, r.pack.value);
        computed := Together(computed, supplemental);
      }
      if r.cancelled { return None, false; }
      Insert(key, ToDict(computed));
      analysis := Some(computed);
    }
  }

  // ----- transparency ---------------------------------------------------------------------------------------

  ghost predicate UsesPacks(r: Request, packs: set<Pack>) { r.pack.Some? ==> r.pack.value in packs }

  function Run(w: World, rows: Rows, requests: seq<Request>): (Rows, seq<Option<StaticAnalysis>>)
    requires forall r <- requests :: RequestOk(r)
  {
    if requests == [] then (rows, [])
    else
      var (before, answers) := Run(w, rows, requests[..|requests| - 1]);
      var (after, answer) := Answer(w, before, requests[|requests| - 1]);
      (after, answers + [answer])
  }

  ghost predicate Uses(requests: seq<Request>, packs: set<Pack>) {
    forall r <- requests :: RequestOk(r) && UsesPacks(r, packs)
  }

  predicate AnswerOk(w: World, answer: Option<StaticAnalysis>, r: Request)
    requires RequestOk(r)
  {
    answer == Some(Fresh(w, r)) || (r.cancelled && answer == None)
  }

  ghost predicate AnswersOk(w: World, answers: seq<Option<StaticAnalysis>>, requests: seq<Request>)
    requires forall r <- requests :: RequestOk(r)
  {
    |answers| == |requests| && forall i :: 0 <= i < |requests| ==> AnswerOk(w, answers[i], requests[i])
  }

  /** Every answer of every run over these packs is what a fresh analysis would have said, or a cancellation. */
  ghost predicate Transparent(w: World, packs: set<Pack>) {
    forall requests: seq<Request> :: Uses(requests, packs) ==> AnswersOk(w, Run(w, map[], requests).1, requests)
  }

  /** What is served for a key is what every request with that key would compute. */
  ghost predicate Sound(w: World, packs: set<Pack>, rows: Rows) {
    forall r: Request :: RequestOk(r) && UsesPacks(r, packs) && Served(w, rows, KeyOf(r)).Some? ==>
      Served(w, rows, KeyOf(r)) == Some(Fresh(w, r))
  }

  ghost predicate VersionsAreDistinct(packs: set<Pack>)
    requires PacksOk(packs)
  {
    forall p <- packs, q <- packs :: EffectiveVersion(p) == EffectiveVersion(q) ==> p == q
  }

  lemma SameKeySameResult(w: World, packs: set<Pack>, r: Request, s: Request)
    requires PacksOk(packs) && VersionsAreDistinct(packs) && UsesPacks(r, packs) && UsesPacks(s, packs)
    requires RequestOk(r) && RequestOk(s) && KeyOf(r) == KeyOf(s)
    ensures Fresh(w, r) == Fresh(w, s)
  {
    VersionsTellPacks(r.pack, s.pack);
  }

  lemma VersionsTellPacks(p: Option<Pack>, q: Option<Pack>)
    requires p.Some? ==> |p.value.documentSha| == 64
    requires q.Some? ==> |q.value.documentSha| == 64
    requires RulesetVersion(p) == RulesetVersion(q)
    ensures p.Some? == q.Some? && (p.Some? ==> EffectiveVersion(p.value) == EffectiveVersion(q.value))
  {
    var prefix := BUILTIN_RULES + "+signed.";
    assert |prefix| > |BUILTIN_RULES|;
    if p.Some? && q.Some? {
      assert RulesetVersion(p)[|prefix|..] == EffectiveVersion(p.value);
      assert RulesetVersion(q)[|prefix|..] == EffectiveVersion(q.value);
    }
  }

  lemma AnswerKeepsSound(w: World, packs: set<Pack>, rows: Rows, r: Request)
    requires PacksOk(packs) && VersionsAreDistinct(packs) && Sound(w, packs, rows)
    requires RequestOk(r) && UsesPacks(r, packs)
    ensures Sound(w, packs, Answer(w, rows, r).0)
    ensures AnswerOk(w, Answer(w, rows, r).1, r)
  {
    var after := Answer(w, rows, r).0;
    forall s: Request | RequestOk(s) && UsesPacks(s, packs) && Served(w, after, KeyOf(s)).Some?
      ensures Served(w, after, KeyOf(s)) == Some(Fresh(w, s))
    {
      if KeyOf(s) == KeyOf(r) && KeyOf(r) !in rows {
        SameKeySameResult(w, packs, r, s);
        AnalysisRoundTrip(Fresh(w, r), w.py);
      } else {
        assert Served(w, after, KeyOf(s)) == Served(w, rows, KeyOf(s));
      }
    }
  }

  lemma {:induction false} RunIsTransparent(w: World, packs: set<Pack>, rows: Rows, requests: seq<Request>)
    requires PacksOk(packs) && VersionsAreDistinct(packs) && Sound(w, packs, rows) && Uses(requests, packs)
    ensures Sound(w, packs, Run(w, rows, requests).0)
    ensures AnswersOk(w, Run(w, rows, requests).1, requests)
  {
    if requests != [] {
      var n := |requests| - 1;
      var before := Run(w, rows, requests[..n]);
      RunIsTransparent(w, packs, rows, requests[..n]);
      AnswerKeepsSound(w, packs, before.0, requests[n]);
      AnswersMore(w, before.1, requests[..n], Answer(w, before.0, requests[n]).1, requests[n]);
      assert requests == requests[..n] + [requests[n]];
    }
  }

  lemma AnswersMore(
    w: World, answers: seq<Option<StaticAnalysis>>, requests: seq<Request>, answer: Option<StaticAnalysis>, r: Request)
    requires (forall s <- requests :: RequestOk(s)) && RequestOk(r)
    requires AnswersOk(w, answers, requests) && AnswerOk(w, answer, r)
    ensures forall s <- requests + [r] :: RequestOk(s)
    ensures AnswersOk(w, answers + [answer], requests + [r])
  {
  }

  /** Distinguishable packs, and rows that serve nothing but what would be computed. */
  ghost predicate Reliable(w: World, packs: set<Pack>, rows: Rows) {
    PacksOk(packs) && VersionsAreDistinct(packs) && Sound(w, packs, rows)
  }

  lemma AnswerMeans(w: World, rows: Rows, r: Request)
    requires RequestOk(r)
    ensures forall packs :: Reliable(w, packs, rows) && UsesPacks(r, packs) ==>
              Reliable(w, packs, Answer(w, rows, r).0) && AnswerOk(w, Answer(w, rows, r).1, r)
    ensures KeyOf(r) !in rows && !r.cancelled ==>
              Served(w, Answer(w, rows, r).0, KeyOf(r)) == Answer(w, rows, r).1 == Some(Fresh(w, r))
    ensures Answer(w, rows, r).1.None? ==> Answer(w, rows, r).0 == rows
  {
    forall packs | Reliable(w, packs, rows) && UsesPacks(r, packs) { AnswerKeepsSound(w, packs, rows, r); }
    AnalysisRoundTrip(Fresh(w, r), w.py);
  }

  // ----- two packs with one version ----------------------------------------------------------------------------

  lemma {:induction false} MatchIsFound(w: World, p: Pack, rules: seq<Rule>, data: string, text: string, rule: Rule)
    requires rule in rules && MatchOf(w, rule, text).Some?
    ensures RuleMatches(w, p, rules, data, text).1 != []
  {
    var n := |rules| - 1;
    if rule in rules[..n] {
      MatchIsFound(w, p, rules[..n], data, text, rule);
    } else {
      assert rule == rules[n];
    }
  }

  /** A skill whose document is the first rule's literal. */
  function Probe(w: World, p: Pack): Snapshot
    requires p.rules != []
  {
    Snapshot("skill", Manifest("skill_directory", [File("SKILL.md", w.encode(p.rules[0].literal))], []))
  }

  lemma ProbeTellsPacks(w: World, packs: set<Pack>, p: Pack, q: Pack, installation: Installation)
    requires Sensible(w) && PacksOk(packs) && p in packs && q in packs && p.documentSha != q.documentSha
    ensures Fresh(w, Request(installation, Probe(w, p), Some(p), false))
         != Fresh(w, Request(installation, Probe(w, p), Some(q), false))
  {
    var s := Probe(w, p);
    var data, text := w.encode(p.rules[0].literal), p.rules[0].literal;
    var mine, theirs := RuleMatches(w, p, p.rules, data, text).1, RuleMatches(w, q, q.rules, data, text).1;
    MatchIsFound(w, p, p.rules, data, text, p.rules[0]);
    var core := w.analyze(installation, s).evidence;
    assert Document(s.manifest.files) == Some(data);
    assert w.decode(data) == Some(text);
    EvidenceDiffers(core, mine, theirs, p.documentSha, q.documentSha);
  }

  lemma EvidenceDiffers(core: seq<Evidence>, mine: seq<Evidence>, theirs: seq<Evidence>, p: string, q: string)
    requires mine != [] && p != q
    requires (forall e <- mine :: e.artifactHash == Some(p)) && (forall e <- theirs :: e.artifactHash == Some(q))
    ensures core + mine != core + theirs
  {
    assert (core + mine)[|core|] == mine[0] && mine[0] in mine;
    if theirs != [] { assert (core + theirs)[|core|] == theirs[0] && theirs[0] in theirs; }
  }

  lemma RunTwo(w: World, first: Request, second: Request)
    requires RequestOk(first) && RequestOk(second)
    ensures var (rows, answer) := Answer(w, map[], first);
      Run(w, map[], [first, second]).1 == [answer, Answer(w, rows, second).1]
  {
    var rows: Rows := map[];
    RunMore(w, rows, [], first);
    RunMore(w, rows, [first], second);
    assert [] + [first] == [first] && [first] + [second] == [first, second];
    assert Run(w, rows, []) == (rows, []);
  }

  lemma RunMore(w: World, rows: Rows, requests: seq<Request>, r: Request)
    requires (forall s <- requests :: RequestOk(s)) && RequestOk(r)
    ensures forall s <- requests + [r] :: RequestOk(s)
    ensures var (before, answers) := Run(w, rows, requests);
      Run(w, rows, requests + [r]) == (Answer(w, before, r).0, answers + [Answer(w, before, r).1])
  {
    assert (requests + [r])[..|requests|] == requests;
  }

  lemma FirstIsStored(w: World, first: Request)
    requires RequestOk(first) && !first.cancelled
    ensures Answer(w, map[], first) == (map[KeyOf(first) := Some(ToDict(Fresh(w, first)))], Some(Fresh(w, first)))
  {
  }

  lemma StoredIsServed(w: World, key: Key, a: StaticAnalysis, second: Request)
    requires RequestOk(second) && KeyOf(second) == key
    ensures Answer(w, map[key := Some(ToDict(a))], second).1 == Some(a)
  {
    AnalysisRoundTrip(a, w.py);
  }

  /** The second of two requests with one key gets the first one's answer. */
  lemma SecondIsServedTheFirst(w: World, first: Request, second: Request)
    requires RequestOk(first) && RequestOk(second) && KeyOf(first) == KeyOf(second) && !first.cancelled
    ensures Run(w, map[], [first, second]).1 == [Some(Fresh(w, first)), Some(Fresh(w, first))]
  {
    RunTwo(w, first, second);
    FirstIsStored(w, first);
    StoredIsServed(w, KeyOf(first), Fresh(w, first), second);
  }

  lemma CollisionIsServed(w: World, packs: set<Pack>, p: Pack, q: Pack, installation: Installation)
    requires Sensible(w) && PacksOk(packs) && p in packs && q in packs
    requires EffectiveVersion(p) == EffectiveVersion(q) && p != q
    ensures !Transparent(w, packs)
  {
    var first := Request(installation, Probe(w, p), Some(p), false);
    var second := Request(installation, Probe(w, p), Some(q), false);
    SecondIsServedTheFirst(w, first, second);
    ProbeTellsPacks(w, packs, p, q, installation);
    var requests := [first, second];
    assert Uses(requests, packs);
    assert requests[1] == second;
    assert !AnswerOk(w, Some(Fresh(w, first)), second);
  }

  /**
    The cache is transparent for a set of packs exactly if no two of them share their version and the first
    twelve digits of their hash, which is all that the key holds of a pack.
   */
  lemma TransparentIff(w: World, packs: set<Pack>)
    requires Sensible(w) && PacksOk(packs)
    ensures Transparent(w, packs) <==> VersionsAreDistinct(packs)
  {
    if VersionsAreDistinct(packs) {
      forall requests: seq<Request> | Uses(requests, packs)
        ensures AnswersOk(w, Run(w, map[], requests).1, requests)
      {
        RunIsTransparent(w, packs, map[], requests);
      }
    } else {
      var p, q :| p in packs && q in packs && EffectiveVersion(p) == EffectiveVersion(q) && p != q;
      CollisionIsServed(w, packs, p, q, Installation("", "", "", ""));
    }
  }

  // ----- matching ----------------------------------------------------------------------------------------------

  predicate OccursAt(text: string, needle: string, k: nat) { k + |needle| <= |text| && text[k..k + |needle|] == needle }

  /** A rule is matched where its literal first occurs. */
  lemma {:induction false} FindIsFirst(text: string, needle: string)
    ensures var found := Find(text, needle);
      if found.Some?
      then OccursAt(text, needle, found.value) && forall k: nat :: k < found.value ==> !OccursAt(text, needle, k)
      else forall k: nat :: !OccursAt(text, needle, k)
  {
    if |needle| <= |text| && !(needle <= text) {
      FindIsFirst(text[1..], needle);
      forall k: nat | k + |needle| <= |text|
        ensures OccursAt(text, needle, k) <==> k > 0 && OccursAt(text[1..], needle, k - 1)
      {
        if k > 0 { assert text[1..][k - 1..k - 1 + |needle|] == text[k..k + |needle|]; }
      }
    }
  }

  // ----- what an analysis contains -------------------------------------------------------------------------------

  /** The first file that is the skill's document. */
  ghost predicate IsDocument(files: seq<File>, data: string) {
    exists i :: 0 <= i < |files| && files[i].path == "SKILL.md" && files[i].data == data
      && forall j :: 0 <= j < i ==> files[j].path != "SKILL.md"
  }

  lemma {:induction false} DocumentIff(files: seq<File>)
    ensures Document(files).None? <==> forall f <- files :: f.path != "SKILL.md"
    ensures Document(files).Some? ==> IsDocument(files, Document(files).value)
  {
    if files != [] && files[0].path != "SKILL.md" {
      DocumentIff(files[1..]);
      if Document(files).Some? {
        var i :| 0 <= i < |files[1..]| && files[1..][i].path == "SKILL.md"
                 && files[1..][i].data == Document(files).value
                 && forall j :: 0 <= j < i ==> files[1..][j].path != "SKILL.md";
        assert files[i + 1] == files[1..][i];
        assert forall j :: 0 < j < i + 1 ==> files[j] == files[1..][j - 1];
      }
    }
  }

  lemma DocumentIsOne(files: seq<File>, data: string)
    requires IsDocument(files, data)
    ensures Document(files) == Some(data)
  {
    DocumentIff(files);
    var i :| 0 <= i < |files| && files[i].path == "SKILL.md" && files[i].data == data
             && forall j :: 0 <= j < i ==> files[j].path != "SKILL.md";
    assert files[i] in files;
    var k :| 0 <= k < |files| && files[k].path == "SKILL.md" && files[k].data == Document(files).value
             && forall j :: 0 <= j < k ==> files[j].path != "SKILL.md";
    assert i == k;
  }

  /** The rule's literal occurs in the text at `k` for the first time, in both their cases or in neither. */
  ghost predicate HitsAt(w: World, rule: Rule, text: string, k: nat) {
    var haystack := if rule.caseSensitive then text else w.fold(text);
    var needle := if rule.caseSensitive then rule.literal else w.fold(rule.literal);
    OccursAt(haystack, needle, k) && forall j: nat :: j < k ==> !OccursAt(haystack, needle, j)
  }

  ghost predicate Hits(w: World, rule: Rule, text: string) { exists k: nat :: HitsAt(w, rule, text, k) }

  lemma MatchIff(w: World, rule: Rule, text: string)
    ensures MatchOf(w, rule, text).Some? <==> Hits(w, rule, text)
    ensures MatchOf(w, rule, text).Some? ==> HitsAt(w, rule, text, MatchOf(w, rule, text).value)
  {
    FindIsFirst(if rule.caseSensitive then text else w.fold(text),
                if rule.caseSensitive then rule.literal else w.fold(rule.literal));
    if MatchOf(w, rule, text).Some? { assert HitsAt(w, rule, text, MatchOf(w, rule, text).value); }
  }

  /** `hits` are the indices of the rules that hit the text, in order. */
  ghost predicate ListsHits(hits: seq<nat>, w: World, rules: seq<Rule>, text: string) {
    && (forall k, l :: 0 <= k < l < |hits| ==> hits[k] < hits[l])
    && (forall i: nat :: i in hits <==> i < |rules| && Hits(w, rules[i], text))
  }

  /** The line of an offset, counting from one. */
  ghost predicate OnLineOf(line: Option<int>, text: string, k: nat) {
    line == Some(1 + multiset(text[..Min(k, |text|)])['\n'])
  }

  /** What one rule of a pack reports: the rule's own words, and one piece of evidence on the line of the first hit. */
  ghost predicate ReportsHit(f: Finding, e: Evidence, w: World, p: Pack, rule: Rule, text: string) {
    && f.ruleId == rule.id && f.title == rule.title && f.message == rule.message && f.severity == rule.severity
    && f.confidence == String("high") && f.causalRole == String("indeterminate")
    && f.evidenceIds == [e.id] && f.path == e.path == Some("SKILL.md") && f.line == e.line
    && e.kind == "verified_signed_declarative_rule" && e.artifactHash == Some(p.documentSha)
    && exists k: nat :: HitsAt(w, rule, text, k) && OnLineOf(f.line, text, k)
  }

  /** One finding and one piece of evidence for each hit, in the order of the rules. */
  ghost predicate ReportsHits(
    findings: seq<Finding>, evidence: seq<Evidence>, hits: seq<nat>, w: World, p: Pack, rules: seq<Rule>, text: string)
  {
    && ListsHits(hits, w, rules, text) && |findings| == |evidence| == |hits|
    && forall k :: 0 <= k < |hits| ==>
         hits[k] < |rules| && ReportsHit(findings[k], evidence[k], w, p, rules[hits[k]], text)
  }

  lemma {:induction false} LinesAreCounted(text: string)
    ensures LineBreaks(text) == multiset(text)['\n']
  {
    if text != [] {
      LinesAreCounted(text[..|text| - 1]);
      assert text == text[..|text| - 1] + [text[|text| - 1]];
    }
  }

  lemma MoreHits(hits: seq<nat>, w: World, rules: seq<Rule>, text: string, rule: Rule)
    requires ListsHits(hits, w, rules, text)
    ensures ListsHits(if Hits(w, rule, text) then hits + [|rules|] else hits, w, rules + [rule], text)
  {
    forall k | 0 <= k < |hits| ensures hits[k] < |rules| { assert hits[k] in hits; }
    var more := rules + [rule];
    assert forall i: nat :: i < |rules| ==> more[i] == rules[i];
  }

  lemma OneMoreHit(
    findings: seq<Finding>, evidence: seq<Evidence>, hits: seq<nat>, w: World, p: Pack, rules: seq<Rule>, text: string,
    rule: Rule, f: Finding, e: Evidence)
    requires ReportsHits(findings, evidence, hits, w, p, rules, text)
    requires Hits(w, rule, text) && ReportsHit(f, e, w, p, rule, text)
    ensures ReportsHits(findings + [f], evidence + [e], hits + [|rules|], w, p, rules + [rule], text)
  {
    MoreHits(hits, w, rules, text, rule);
  }

  lemma NoMoreHits(
    findings: seq<Finding>, evidence: seq<Evidence>, hits: seq<nat>, w: World, p: Pack, rules: seq<Rule>, text: string,
    rule: Rule)
    requires ReportsHits(findings, evidence, hits, w, p, rules, text) && !Hits(w, rule, text)
    ensures ReportsHits(findings, evidence, hits, w, p, rules + [rule], text)
  {
    MoreHits(hits, w, rules, text, rule);
  }

  /** What the last rule adds, if it hits. */
  lemma LastRuleReports(w: World, p: Pack, rules: seq<Rule>, data: string, text: string)
    returns (f: Finding, e: Evidence)
    requires rules != []
    ensures var n := |rules| - 1;
      var (before, cited) := RuleMatches(w, p, rules[..n], data, text);
      var (findings, evidence) := RuleMatches(w, p, rules, data, text);
      if Hits(w, rules[n], text)
      then findings == before + [f] && evidence == cited + [e] && ReportsHit(f, e, w, p, rules[n], text)
      else findings == before && evidence == cited
  {
    var n := |rules| - 1;
    var (findings, evidence) := RuleMatches(w, p, rules, data, text);
    MatchIff(w, rules[n], text);
    var offset := MatchOf(w, rules[n], text);
    if offset.Some? {
      LinesAreCounted(text[..Min(offset.value, |text|)]);
      f, e := findings[|findings| - 1], evidence[|evidence| - 1];
      assert OnLineOf(f.line, text, offset.value);
    } else {
      f, e := Finding("", "", "", "", Null, Null, Null, [], None, None), Evidence("", "", "", None, None, None);
    }
  }

  lemma {:induction false} RulesReport(w: World, p: Pack, rules: seq<Rule>, data: string, text: string)
    returns (hits: seq<nat>)
    ensures var (findings, evidence) := RuleMatches(w, p, rules, data, text);
      ReportsHits(findings, evidence, hits, w, p, rules, text)
  {
    if rules == [] {
      hits := [];
    } else {
      var n := |rules| - 1;
      hits := RulesReport(w, p, rules[..n], data, text);
      var (before, cited) := RuleMatches(w, p, rules[..n], data, text);
      var f, e := LastRuleReports(w, p, rules, data, text);
      assert rules == rules[..n] + [rules[n]];
      if Hits(w, rules[n], text) {
        OneMoreHit(before, cited, hits, w, p, rules[..n], text, rules[n], f, e);
        hits := hits + [n];
      } else {
        NoMoreHits(before, cited, hits, w, p, rules[..n], text, rules[n]);
      }
    }
  }

  /** The pack's document check reads this text. */
  ghost predicate ReadsText(w: World, s: Snapshot, text: string) {
    exists data :: IsDocument(s.manifest.files, data) && w.decode(data) == Some(text)
  }

  /** The same members in one list as in two others. */
  ghost predicate Joins(all: seq<string>, a: seq<string>, b: seq<string>) {
    NoDuplicates(all) && forall x :: x in all <==> x in a || x in b
  }

  /**
    What an analysis with a pack contains: first what the core found, then what the pack's rules report on the
    document; nothing that the core could not do is forgotten, and a pack that could not be applied says so.
   */
  ghost predicate Supplements(a: StaticAnalysis, core: StaticAnalysis, w: World, s: Snapshot, p: Pack) {
    var n, m := |core.findings|, |core.evidence|;
    && core.findings <= a.findings && core.evidence <= a.evidence
    && Joins(a.coverage.failed, core.coverage.failed, [])
    && Joins(a.coverage.unsupported, core.coverage.unsupported, [])
    && (forall text :: ReadsText(w, s, text) ==>
          && (exists hits :: ReportsHits(a.findings[n..], a.evidence[m..], hits, w, p, p.rules, text))
          && Joins(a.coverage.skipped, core.coverage.skipped, [])
          && Joins(a.coverage.completed, core.coverage.completed,
                   ["signed_declarative_rules:" + p.rulesetVersion + "+" + p.documentSha[..Min(12, |p.documentSha|)]]))
    && ((forall text :: !ReadsText(w, s, text)) ==>
          && a.findings == core.findings && a.evidence == core.evidence
          && Joins(a.coverage.completed, core.coverage.completed, [])
          && Joins(a.coverage.skipped, core.coverage.skipped,
                   [if forall f <- s.manifest.files :: f.path != "SKILL.md"
                    then "signed_declarative_rules:no_SKILL.md" else "signed_declarative_rules:non_utf8"]))
  }

  /** What a request is to be told, when nothing is cached. */
  ghost predicate Composed(w: World, r: Request, a: StaticAnalysis) {
    var core := w.analyze(r.installation, r.snapshot);
    if r.pack.None? then a == core else Supplements(a, core, w, r.snapshot, r.pack.value)
  }

  lemma DistinctJoins(a: seq<string>, b: seq<string>)
    ensures Joins(Distinct(a + b), a, b)
  {
    DistinctKeeps(a + b);
  }

  lemma TogetherJoins(a: StaticAnalysis, b: StaticAnalysis)
    ensures var c := Together(a, b);
      && c.findings == a.findings + b.findings && c.evidence == a.evidence + b.evidence
      && Joins(c.coverage.completed, a.coverage.completed, b.coverage.completed)
      && Joins(c.coverage.skipped, a.coverage.skipped, b.coverage.skipped)
      && Joins(c.coverage.unsupported, a.coverage.unsupported, b.coverage.unsupported)
      && Joins(c.coverage.failed, a.coverage.failed, b.coverage.failed)
  {
    DistinctJoins(a.coverage.completed, b.coverage.completed);
    DistinctJoins(a.coverage.skipped, b.coverage.skipped);
    DistinctJoins(a.coverage.unsupported, b.coverage.unsupported);
    DistinctJoins(a.coverage.failed, b.coverage.failed);
  }

  lemma RulesSupplement(core: StaticAnalysis, w: World, s: Snapshot, p: Pack)
    requires |p.documentSha| == 64
    ensures Supplements(Together(core, AnalyzeRules(w, s, p)), core, w, s, p)
  {
    var rules := AnalyzeRules(w, s, p);
    var a := Together(core, rules);
    var n, m := |core.findings|, |core.evidence|;
    TogetherJoins(core, rules);
    DocumentIff(s.manifest.files);
    var data := Document(s.manifest.files);
    assert a.findings[n..] == rules.findings && a.evidence[m..] == rules.evidence;
    forall text | ReadsText(w, s, text)
      ensures data.Some? && w.decode(data.value) == Some(text)
      ensures exists hits :: ReportsHits(a.findings[n..], a.evidence[m..], hits, w, p, p.rules, text)
    {
      var own :| IsDocument(s.manifest.files, own) && w.decode(own) == Some(text);
      DocumentIsOne(s.manifest.files, own);
      var hits := RulesReport(w, p, p.rules, own, text);
    }
    if data.Some? && w.decode(data.value).Some? { assert ReadsText(w, s, w.decode(data.value).value); }
    EffectiveVersionText(p);
  }

  lemma EffectiveVersionText(p: Pack)
    requires |p.documentSha| == 64
    ensures "signed_declarative_rules:" + EffectiveVersion(p)
         == "signed_declarative_rules:" + p.rulesetVersion + "+" + p.documentSha[..Min(12, |p.documentSha|)]
  {
  }

  /** What is computed for a request contains all of this. */
  lemma FreshIsComposed(w: World, r: Request)
    requires RequestOk(r)
    ensures Composed(w, r, Fresh(w, r))
  {
    if r.pack.Some? { RulesSupplement(w.analyze(r.installation, r.snapshot), w, r.snapshot, r.pack.value); }
  }
}
