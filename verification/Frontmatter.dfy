/**
  The frontmatter of a SKILL.md file (`frontmatter.py`): the parser, its lines and quotes, and a writer
  whose documents it reads back.
 */
module Frontmatter {
  import opened Prelude

  /** `json.loads` on text that begins with a double quote: a string, or no JSON. */
  type Json = string -> Option<string>

  const FRONTMATTER_LINES: nat := 100

  datatype Value = Text(text: string) | Table(entries: map<string, string>)

  datatype Document = Document(
    metadata: map<string, Value>, fieldLines: map<string, nat>, body: string, bodyStartLine: nat)

  datatype Fault =
    | EmptyString | BadDoubleQuotes | BadSingleQuotes | UnsupportedValue | NotAString
    | NoColon | BadKey
    | TabIndentation | UnexpectedIndentation | InconsistentIndentation | DuplicateMapKey | DuplicateKey

  datatype Error = NoOpening | NotClosed | AtLine(fault: Fault, line: nat)

  // ----- characters ---------------------------------------------------------------------------------------

  /** `str.isspace`, which is also what `strip` removes. */
  predicate IsSpace(c: char) {
    || '\t' <= c <= '\r' || '\U{1c}' <= c <= ' ' || c in "\U{85}\U{a0}\U{1680}"
    || '\U{2000}' <= c <= '\U{200a}' || c in "\U{2028}\U{2029}\U{202f}\U{205f}\U{3000}"
  }

  /** Where `str.splitlines` cuts. */
  predicate IsBreak(c: char) {
    '\n' <= c <= '\r' || '\U{1c}' <= c <= '\U{1e}' || c in "\U{85}\U{2028}\U{2029}"
  }

  predicate IsDigit(c: char) { '0' <= c <= '9' }

  predicate IsLetter(c: char) { 'a' <= c <= 'z' || 'A' <= c <= 'Z' }

  predicate IsKey(s: string) {
    s != [] && IsLetter(s[0]) && forall i :: 0 <= i < |s| ==> IsLetter(s[i]) || IsDigit(s[i]) || s[i] in "_-"
  }

  // ----- strings ------------------------------------------------------------------------------------------

  function LStrip(s: string): (r: string)
    ensures |r| <= |s|
  {
    if s != [] && IsSpace(s[0]) then LStrip(s[1..]) else s
  }

  function RStrip(s: string): string {
    if s != [] && IsSpace(s[|s| - 1]) then RStrip(s[..|s| - 1]) else s
  }

  function Strip(s: string): string { RStrip(LStrip(s)) }

  function LeadingSpaces(s: string): nat { if s != [] && s[0] == ' ' then 1 + LeadingSpaces(s[1..]) else 0 }

  function FirstLine(s: string): (n: nat)
    ensures n <= |s| && (n < |s| ==> IsBreak(s[n])) && forall i :: 0 <= i < n ==> !IsBreak(s[i])
  {
    if s == [] || IsBreak(s[0]) then 0
    else
      var n := 1 + FirstLine(s[1..]);
      assert forall i :: 1 <= i < n ==> s[i] == s[1..][i - 1];
      n
  }

  function SplitLines(s: string): seq<string>
    decreases |s|
  {
    var n := FirstLine(s);
    if s == [] then []
    else if n == |s| then [s]
    else if n + 1 < |s| && s[n] == '\r' && s[n + 1] == '\n' then [s[..n]] + SplitLines(s[n + 2..])
    else [s[..n]] + SplitLines(s[n + 1..])
  }

  function Join(lines: seq<string>): string {
    if lines == [] then "" else if |lines| == 1 then lines[0] else lines[0] + "\n" + Join(lines[1..])
  }

  predicate IsDelimiter(s: string) { Strip(s) == "---" }

  // ----- values -------------------------------------------------------------------------------------------

  function NextQuote(quote: Option<char>, c: char, escaped: bool): Option<char> {
    if c !in "'\"" || escaped then quote
    else if quote.None? then Some(c)
    else if quote == Some(c) then None
    else quote
  }

  /** Where the comment begins; `spaced` says that nothing or white space comes before. */
  function CommentAt(s: string, spaced: bool, quote: Option<char>, escaped: bool): (n: nat)
    ensures n <= |s|
  {
    if s == [] then 0
    else if quote == Some('"') && s[0] == '\\' && !escaped then
      1 + CommentAt(s[1..], IsSpace(s[0]), quote, true)
    else
      var next := NextQuote(quote, s[0], escaped);
      if s[0] == '#' && next.None? && spaced then 0
      else 1 + CommentAt(s[1..], IsSpace(s[0]), next, false)
  }

  function Uncommented(s: string): string { RStrip(s[..CommentAt(s, true, None, false)]) }

  method WithoutComment(value: string) returns (r: string)
    ensures r == Uncommented(value)
  {
    var quote: Option<char>, escaped := None, false;
    var i := 0;
    while i < |value|
      invariant 0 <= i <= |value|
      invariant CommentAt(value, true, None, false)
             == i + CommentAt(value[i..], i == 0 || IsSpace(value[i - 1]), quote, escaped)
    {
      var c := value[i];
      assert value[i..][1..] == value[i + 1..];
      if quote == Some('"') && c == '\\' && !escaped {
        escaped := true;
      } else {
        if c in "'\"" && !escaped {
          if quote.None? { quote := Some(c); } else if quote == Some(c) { quote := None; }
        }
        if c == '#' && quote.None? && (i == 0 || IsSpace(value[i - 1])) { return RStrip(value[..i]); }
        escaped := false;
      }
      i := i + 1;
    }
    r := RStrip(value);
    assert value[..|value|] == value;
  }

  /** `value.replace("''", "'")` */
  function Undoubled(s: string): string {
    if s == [] then ""
    else if |s| > 1 && s[0] == '\'' && s[1] == '\'' then "'" + Undoubled(s[2..])
    else [s[0]] + Undoubled(s[1..])
  }

  /** A letter as `(?i)` compares it; the long s is the one other letter that matters here. */
  function Folded(c: char): char {
    if 'A' <= c <= 'Z' then c - 'A' + 'a' else if c == '\U{17f}' then 's' else c
  }

  function FoldedWord(s: string): string { seq(|s|, i requires 0 <= i < |s| => Folded(s[i])) }

  function DigitRun(s: string, alsoUnderscore: bool): (n: nat)
    ensures n <= |s|
  {
    if s != [] && (IsDigit(s[0]) || (alsoUnderscore && s[0] == '_')) then 1 + DigitRun(s[1..], alsoUnderscore)
    else 0
  }

  function Unsigned(s: string): string { if s != [] && s[0] in "+-" then s[1..] else s }

  predicate IsExponent(s: string) {
    s == [] || (s[0] in "eE" && Unsigned(s[1..]) != [] && DigitRun(Unsigned(s[1..]), false) == |Unsigned(s[1..])|)
  }

  predicate IsFraction(s: string) {
    if s != [] && s[0] == '.' then
      var n := DigitRun(s[1..], true);
      n > 0 && IsExponent(s[1 + n..])
    else IsExponent(s)
  }

  predicate IsNumber(s: string) {
    var u := Unsigned(s);
    u != [] && IsDigit(u[0]) && IsFraction(if u[0] == '0' then u[1..] else u[DigitRun(u, true)..])
  }

  /** What YAML would not read as a string. */
  predicate IsNonString(s: string) {
    FoldedWord(s) in {"null", "true", "false", "yes", "no", "on", "off", "~"} || IsNumber(s)
  }

  function ParseString(raw: string, line: nat, json: Json): Result<string, Error> {
    var v := Strip(Uncommented(raw));
    if v == [] then Err(AtLine(EmptyString, line))
    else if v[0] == '"' then
      (match json(v) case None => Err(AtLine(BadDoubleQuotes, line)) case Some(s) => Ok(s))
    else if v[0] == '\'' then
      (if |v| < 2 || v[|v| - 1] != '\'' then Err(AtLine(BadSingleQuotes, line))
       else Ok(Undoubled(v[1..|v| - 1])))
    else if v[0] in "[{|>&*!@`" then Err(AtLine(UnsupportedValue, line))
    else if IsNonString(v) then Err(AtLine(NotAString, line))
    else Ok(v)
  }

  /** Index of the first colon, or the length. */
  function Colon(s: string): (n: nat)
    ensures n <= |s|
  {
    if s == [] || s[0] == ':' then 0 else 1 + Colon(s[1..])
  }

  function SplitEntry(raw: string, line: nat): Result<(string, string), Error> {
    var n := Colon(raw);
    if n == |raw| then Err(AtLine(NoColon, line))
    else if !IsKey(Strip(raw[..n])) then Err(AtLine(BadKey, line))
    else Ok((Strip(raw[..n]), raw[n + 1..]))
  }

  // ----- the document ------------------------------------------------------------------------------------

  /** What the loop carries from line to line. */
  datatype State = State(
    metadata: map<string, Value>, fieldLines: map<string, nat>,
    table: Option<string>,   // the key whose map is still open
    indent: Option<nat>)     // the indentation of that map

  datatype Scanned = Unfinished(state: State) | Closed(state: State, line: nat) | Failed(error: Error)

  /** The open map, which `current_map` names in the program. */
  function OpenTable(st: State): Option<map<string, string>> {
    if st.table.Some? && st.table.value in st.metadata && st.metadata[st.table.value].Table?
    then Some(st.metadata[st.table.value].entries) else None
  }

  function IndentedLine(st: State, raw: string, line: nat, json: Json): Result<State, Error> {
    var indent := LeadingSpaces(raw);
    if OpenTable(st).None? then Err(AtLine(UnexpectedIndentation, line))
    else if st.indent.Some? && st.indent.value != indent then Err(AtLine(InconsistentIndentation, line))
    else
      match SplitEntry(Strip(raw), line)
      case Err(e) => Err(e)
      case Ok((key, rawValue)) =>
        if key in OpenTable(st).value then Err(AtLine(DuplicateMapKey, line))
        else
          match ParseString(rawValue, line, json)
          case Err(e) => Err(e)
          case Ok(v) =>
            Ok(st.(metadata := st.metadata[st.table.value := Table(OpenTable(st).value[key := v])],
                   indent := Some(indent)))
  }

  function FieldLine(st: State, raw: string, line: nat, json: Json): Result<State, Error> {
    match SplitEntry(raw, line)
    case Err(e) => Err(e)
    case Ok((key, rawValue)) =>
      if key in st.metadata then Err(AtLine(DuplicateKey, line))
      else if Strip(Uncommented(rawValue)) == [] then
        Ok(State(st.metadata[key := Table(map[])], st.fieldLines[key := line], Some(key), None))
      else
        match ParseString(rawValue, line, json)
        case Err(e) => Err(e)
        case Ok(v) => Ok(State(st.metadata[key := Text(v)], st.fieldLines[key := line], None, None))
  }

  function Line(st: State, raw: string, line: nat, json: Json): Result<State, Error> {
    if '\t' in raw[..|raw| - |LStrip(raw)|] then Err(AtLine(TabIndentation, line))
    else if Strip(raw) == [] || LStrip(raw)[..1] == "#" then Ok(st)
    else if LeadingSpaces(raw) > 0 then IndentedLine(st, raw, line, json)
    else FieldLine(st, raw, line, json)
  }

  /** What one line does: the parser goes on in a new state, stops at the closing line, or fails. */
  datatype Turn = GoOn(next: State) | Stop | Refuse(error: Error)

  type Reader = (State, string, nat) -> Turn

  function ReadTurn(st: State, raw: string, line: nat, json: Json): Turn {
    if IsDelimiter(raw) then Stop
    else match Line(st, raw, line, json) case Err(e) => Refuse(e) case Ok(next) => GoOn(next)
  }

  function LineReader(json: Json): Reader { (st: State, raw: string, line: nat) => ReadTurn(st, raw, line, json) }

  function Scan(lines: seq<string>, line: nat, st: State, read: Reader): Scanned {
    if lines == [] then Unfinished(st)
    else
      match read(st, lines[0], line)
      case Stop => Closed(st, line)
      case Refuse(e) => Failed(e)
      case GoOn(next) => Scan(lines[1..], line + 1, next, read)
  }

  function Parse(lines: seq<string>, json: Json): Result<Document, Error> {
    if lines == [] || !IsDelimiter(lines[0]) then Err(NoOpening)
    else
      match Scan(Head(lines[1..]), 2, State(map[], map[], None, None), LineReader(json))
      case Failed(e) => Err(e)
      case Unfinished(_) => Err(NotClosed)
      case Closed(st, line) => Ok(Document(st.metadata, st.fieldLines, Join(Drop(lines, line)), line + 1))
  }

  function Head(lines: seq<string>): seq<string> { lines[..Min(FRONTMATTER_LINES, |lines|)] }

  function Drop(lines: seq<string>, n: nat): seq<string> { lines[Min(n, |lines|)..] }

  /** One turn of the parser's loop, for a line that does not close the frontmatter. */
  method ReadLine(before: State, raw: string, line: nat, json: Json) returns (r: Result<State, Error>)
    ensures r == Line(before, raw, line, json)
  {
    var st := before;
    if '\t' in raw[..|raw| - |LStrip(raw)|] { return Err(AtLine(TabIndentation, line)); }
    if Strip(raw) == [] || LStrip(raw)[..1] == "#" { return Ok(st); }

    var indent := LeadingSpaces(raw);
    if indent > 0 {
      if OpenTable(st).None? { return Err(AtLine(UnexpectedIndentation, line)); }
      if st.indent.None? {
        st := st.(indent := Some(indent));
      } else if indent != st.indent.value {
        return Err(AtLine(InconsistentIndentation, line));
      }
      var entry := SplitEntry(Strip(raw), line);
      if entry.Err? { return Err(entry.error); }
      var (key, rawValue) := entry.value;
      if key in OpenTable(st).value { return Err(AtLine(DuplicateMapKey, line)); }
      var value := ParseString(rawValue, line, json);
      if value.Err? { return Err(value.error); }
      st := st.(metadata := st.metadata[st.table.value := Table(OpenTable(st).value[key := value.value])]);
      return Ok(st);
    }

    st := st.(table := None, indent := None);
    var entry := SplitEntry(raw, line);
    if entry.Err? { return Err(entry.error); }
    var (key, rawValue) := entry.value;
    if key in st.metadata { return Err(AtLine(DuplicateKey, line)); }
    st := st.(fieldLines := st.fieldLines[key := line]);
    if Strip(Uncommented(rawValue)) == [] {
      st := st.(metadata := st.metadata[key := Table(map[])], table := Some(key));
    } else {
      var value := ParseString(rawValue, line, json);
      if value.Err? { return Err(value.error); }
      st := st.(metadata := st.metadata[key := Text(value.value)]);
    }
    r := Ok(st);
  }

  lemma ScanTurn(block: seq<string>, i: nat, st: State, json: Json)
    requires i < |block|
    ensures Scan(block[i..], i + 2, st, LineReader(json))
         == if IsDelimiter(block[i]) then Closed(st, i + 2)
            else var next := Line(st, block[i], i + 2, json);
                 if next.Err? then Failed(next.error) else Scan(block[i + 1..], i + 3, next.value, LineReader(json))
  {
    assert block[i..][1..] == block[i + 1..];
  }

  method ParseSkillDocument(text: string, json: Json) returns (r: Result<Document, Error>)
    ensures r == Parse(SplitLines(text), json)
  {
    var lines := SplitLines(text);
    if lines == [] || !IsDelimiter(lines[0]) { return Err(NoOpening); }
    var st := State(map[], map[], None, None);
    ghost var scanned := Scan(Head(lines[1..]), 2, st, LineReader(json));
    var block := Head(lines[1..]);
    var i := 0;
    while i < |block|
      invariant 0 <= i <= |block|
      invariant scanned == Scan(block[i..], i + 2, st, LineReader(json))
    {
      ScanTurn(block, i, st, json);
      if IsDelimiter(block[i]) {
        return Ok(Document(st.metadata, st.fieldLines, Join(Drop(lines, i + 2)), i + 3));
      }
      var next := ReadLine(st, block[i], i + 2, json);
      if next.Err? { return Err(next.error); }
      st := next.value;
      i := i + 1;
    }
    r := Err(NotClosed);
  }

  // ----- what every accepted document has ----------------------------------------------------------------------

  predicate SpellsKey(raw: string, line: nat, key: string) {
    SplitEntry(raw, line).Ok? && SplitEntry(raw, line).value.0 == key
  }

  /** How a line may be related to a key, and which lines may close; the proofs need no more of them. */
  datatype Reading = Reading(spells: (string, nat, string) -> bool, closes: string -> bool)

  function LineReading(): Reading {
    Reading((raw: string, line: nat, key: string) => SpellsKey(raw, line, key), (raw: string) => IsDelimiter(raw))
  }

  /** Before line `line`: every key is recorded once, at an earlier line of its own that spells it. */
  ghost predicate Consistent(st: State, lines: seq<string>, line: nat, how: Reading) {
    st.fieldLines.Keys == st.metadata.Keys && Spelled(st.fieldLines, lines, line, how) && OwnLines(st.fieldLines)
  }

  ghost predicate Spelled(fieldLines: map<string, nat>, lines: seq<string>, line: nat, how: Reading) {
    forall k <- fieldLines :: 2 <= fieldLines[k] < line && fieldLines[k] <= |lines|
      && how.spells(lines[fieldLines[k] - 1], fieldLines[k], k)
  }

  ghost predicate OwnLines(fieldLines: map<string, nat>) {
    forall j <- fieldLines, k <- fieldLines :: j != k ==> fieldLines[j] != fieldLines[k]
  }

  /** What has been read stays: fields keep line and text, and maps only grow. */
  ghost predicate Extends(next: State, st: State) {
    && (forall k <- st.fieldLines :: k in next.fieldLines && next.fieldLines[k] == st.fieldLines[k])
    && (forall k <- st.metadata :: k in next.metadata
          && match st.metadata[k]
             case Text(_) => next.metadata[k] == st.metadata[k]
             case Table(entries) =>
               next.metadata[k].Table? && forall e <- entries :: e in next.metadata[k].entries
                                                                 && next.metadata[k].entries[e] == entries[e])
  }

  /** An accepted line keeps all that was read, and records at most its own key at its own number. */
  lemma LineAdds(st: State, lines: seq<string>, line: nat, json: Json)
    requires 1 < line <= |lines| && Consistent(st, lines, line, LineReading())
    requires Line(st, lines[line - 1], line, json).Ok?
    ensures var next := Line(st, lines[line - 1], line, json).value;
      && Consistent(next, lines, line + 1, LineReading()) && Extends(next, st)
      && next.fieldLines.Keys - st.fieldLines.Keys <= set k <- next.fieldLines | next.fieldLines[k] == line
  {
    var raw := lines[line - 1];
    if '\t' in raw[..|raw| - |LStrip(raw)|] || Strip(raw) == [] || LStrip(raw)[..1] == "#" {
    } else if LeadingSpaces(raw) > 0 {
      IndentedAdds(st, raw, lines, line, json);
    } else {
      FieldAdds(st, raw, lines, line, json);
    }
  }

  lemma TableGrows(
    st: State, name: string, entry: string, v: string, indent: nat, lines: seq<string>, line: nat, next: State,
    how: Reading)
    requires Consistent(st, lines, line, how) && name in st.metadata && st.metadata[name].Table?
    requires entry !in st.metadata[name].entries
    requires next == st.(metadata := st.metadata[name := Table(st.metadata[name].entries[entry := v])],
                         indent := Some(indent))
    ensures Consistent(next, lines, line + 1, how) && Extends(next, st) && next.fieldLines == st.fieldLines
  {
  }

  lemma IndentedAdds(st: State, raw: string, lines: seq<string>, line: nat, json: Json)
    requires Consistent(st, lines, line, LineReading()) && IndentedLine(st, raw, line, json).Ok?
    ensures var next := IndentedLine(st, raw, line, json).value;
      Consistent(next, lines, line + 1, LineReading()) && Extends(next, st) && next.fieldLines == st.fieldLines
  {
    var next := IndentedLine(st, raw, line, json).value;
    var (key, rawValue) := SplitEntry(Strip(raw), line).value;
    TableGrows(st, st.table.value, key, ParseString(rawValue, line, json).value, LeadingSpaces(raw), lines, line, next,
               LineReading());
  }

  lemma KeySpelled(before: map<string, nat>, key: string, lines: seq<string>, line: nat, how: Reading)
    requires 1 < line <= |lines| && Spelled(before, lines, line, how) && how.spells(lines[line - 1], line, key)
    ensures Spelled(before[key := line], lines, line + 1, how)
  {
  }

  lemma KeyHasItsLine(before: map<string, nat>, key: string, lines: seq<string>, line: nat, how: Reading)
    requires Spelled(before, lines, line, how) && OwnLines(before) && key !in before
    ensures OwnLines(before[key := line])
  {
    assert forall k <- before :: before[k] < line;
  }

  lemma FieldRecorded(
    st: State, key: string, value: Value, lines: seq<string>, line: nat, next: State, how: Reading)
    requires 1 < line <= |lines| && Consistent(st, lines, line, how) && key !in st.metadata
    requires how.spells(lines[line - 1], line, key)
    requires next.metadata == st.metadata[key := value] && next.fieldLines == st.fieldLines[key := line]
    ensures Consistent(next, lines, line + 1, how)
  {
    KeySpelled(st.fieldLines, key, lines, line, how);
    KeyHasItsLine(st.fieldLines, key, lines, line, how);
  }

  lemma FieldExtends(st: State, key: string, value: Value, line: nat, next: State)
    requires key !in st.metadata && key !in st.fieldLines
    requires next.metadata == st.metadata[key := value] && next.fieldLines == st.fieldLines[key := line]
    ensures Extends(next, st)
    ensures next.fieldLines.Keys - st.fieldLines.Keys <= set k <- next.fieldLines | next.fieldLines[k] == line
  {
  }

  lemma FieldAdds(st: State, raw: string, lines: seq<string>, line: nat, json: Json)
    requires 1 < line <= |lines| && lines[line - 1] == raw && Consistent(st, lines, line, LineReading())
    requires FieldLine(st, raw, line, json).Ok?
    ensures var next := FieldLine(st, raw, line, json).value;
      && Consistent(next, lines, line + 1, LineReading()) && Extends(next, st)
      && next.fieldLines.Keys - st.fieldLines.Keys <= set k <- next.fieldLines | next.fieldLines[k] == line
  {
    var key, next := SplitEntry(raw, line).value.0, FieldLine(st, raw, line, json).value;
    assert LineReading().spells(raw, line, key);
    FieldRecorded(st, key, next.metadata[key], lines, line, next, LineReading());
    FieldExtends(st, key, next.metadata[key], line, next);
  }

  /** What one turn must keep for a whole scan to be consistent. */
  ghost predicate TurnKeeps(read: Reader, lines: seq<string>, line: nat, st: State, how: Reading) {
    1 < line <= |lines| && Consistent(st, lines, line, how) ==>
      match read(st, lines[line - 1], line)
      case GoOn(next) => Consistent(next, lines, line + 1, how)
      case Stop => how.closes(lines[line - 1])
      case Refuse(_) => true
  }

  lemma LineTurnKeeps(lines: seq<string>, line: nat, st: State, json: Json)
    ensures TurnKeeps(LineReader(json), lines, line, st, LineReading())
  {
    if 1 < line <= |lines| && Consistent(st, lines, line, LineReading()) && Line(st, lines[line - 1], line, json).Ok? {
      LineAdds(st, lines, line, json);
    }
  }

  lemma {:induction false} ScanIsConsistent(
    lines: seq<string>, block: seq<string>, line: nat, st: State, read: Reader, how: Reading)
    requires 1 < line && line + |block| <= |lines| + 1 && block == lines[line - 1..line - 1 + |block|]
    requires Consistent(st, lines, line, how) && forall at, s :: TurnKeeps(read, lines, at, s, how)
    ensures var r := Scan(block, line, st, read);
      r.Closed? ==> line <= r.line < line + |block| && how.closes(lines[r.line - 1])
                    && Consistent(r.state, lines, r.line, how)
    decreases |block|
  {
    if block != [] {
      assert TurnKeeps(read, lines, line, st, how) && block[0] == lines[line - 1];
      var turn := read(st, block[0], line);
      if turn.GoOn? {
        assert block[1..] == lines[line..line + |block[1..]|];
        ScanIsConsistent(lines, block[1..], line + 1, turn.next, read, how);
      }
    }
  }

  /**
    In every document that is accepted, a delimiter within the first 101 lines closes the frontmatter, each
    key has one line before it that spells the key, no two keys share a line, and the body is the rest.
   */
  lemma DocumentIsConsistent(lines: seq<string>, json: Json)
    requires Parse(lines, json).Ok?
    ensures var doc := Parse(lines, json).value; var closing := doc.bodyStartLine - 1;
      && 2 <= closing <= |lines| && closing <= FRONTMATTER_LINES + 1 && IsDelimiter(lines[closing - 1])
      && doc.fieldLines.Keys == doc.metadata.Keys
      && Spelled(doc.fieldLines, lines, closing, LineReading()) && OwnLines(doc.fieldLines)
      && doc.body == Join(lines[closing..])
  {
    BlockIsConsistent(lines, json);
  }

  lemma BlockIsConsistent(lines: seq<string>, json: Json)
    requires lines != []
    ensures var r := Scan(Head(lines[1..]), 2, State(map[], map[], None, None), LineReader(json));
      r.Closed? ==> 2 <= r.line <= |lines| && r.line <= FRONTMATTER_LINES + 1 && IsDelimiter(lines[r.line - 1])
                    && Consistent(r.state, lines, r.line, LineReading())
  {
    forall at, s ensures TurnKeeps(LineReader(json), lines, at, s, LineReading()) { LineTurnKeeps(lines, at, s, json); }
    ScanIsConsistent(lines, Head(lines[1..]), 2, State(map[], map[], None, None), LineReader(json), LineReading());
  }
}
