/**
  A writer for frontmatter, with free choice of comments, padding and indentation, and the proof that the
  parser reads every document it writes back to the map it was written from.
 */
module FrontmatterRoundTrip {
  import opened Prelude
  import opened Frontmatter

  /** What may follow a value: spaces, and after at least one space a comment. */
  datatype Tail = Tail(pad: nat, comment: Option<string>)

  datatype Entry = Entry(key: string, value: string, tail: Tail)

  datatype Item = Scalar(entry: Entry) | Section(key: string, tail: Tail, indent: nat, entries: seq<Entry>)

  predicate OneLine(s: string) { forall i :: 0 <= i < |s| ==> !IsBreak(s[i]) }

  ghost predicate AllOneLine(lines: seq<string>) { forall i :: 0 <= i < |lines| ==> OneLine(lines[i]) }

  predicate TailOk(t: Tail) { t.comment.Some? ==> t.pad > 0 && OneLine(t.comment.value) }

  predicate EntryOk(e: Entry) { IsKey(e.key) && OneLine(e.value) && TailOk(e.tail) }

  ghost predicate ItemOk(item: Item) {
    match item
    case Scalar(e) => EntryOk(e)
    case Section(key, tail, indent, entries) =>
      && IsKey(key) && TailOk(tail) && indent > 0 && (forall i :: 0 <= i < |entries| ==> EntryOk(entries[i]))
      && forall i, j :: 0 <= i < j < |entries| ==> entries[i].key != entries[j].key
  }

  function KeyOf(item: Item): string { match item case Scalar(e) => e.key case Section(key, _, _, _) => key }

  ghost predicate ItemsOk(items: seq<Item>) {
    && (forall i :: 0 <= i < |items| ==> ItemOk(items[i]))
    && forall i, j :: 0 <= i < j < |items| ==> KeyOf(items[i]) != KeyOf(items[j])
  }

  // ----- the writer --------------------------------------------------------------------------------------

  function Spaces(n: nat): (s: string)
    ensures |s| == n && forall i :: 0 <= i < n ==> s[i] == ' '
  {
    seq(n, _ => ' ')
  }

  function Doubled(s: string): string {
    if s == [] then "" else (if s[0] == '\'' then "''" else [s[0]]) + Doubled(s[1..])
  }

  function Quoted(s: string): string { "'" + Doubled(s) + "'" }

  function TailText(t: Tail): string {
    Spaces(t.pad) + if t.comment.Some? then "#" + t.comment.value else ""
  }

  function EntryLine(e: Entry): string { e.key + ":" + (" " + Quoted(e.value) + TailText(e.tail)) }

  function EntryLines(indent: nat, entries: seq<Entry>): (r: seq<string>)
    ensures |r| == |entries|
  {
    seq(|entries|, i requires 0 <= i < |entries| => Spaces(indent) + EntryLine(entries[i]))
  }

  function ItemLines(item: Item): seq<string> {
    match item
    case Scalar(e) => [EntryLine(e)]
    case Section(key, tail, indent, entries) => [key + ":" + TailText(tail)] + EntryLines(indent, entries)
  }

  function Lines(items: seq<Item>): seq<string> {
    if items == [] then [] else Lines(items[..|items| - 1]) + ItemLines(items[|items| - 1])
  }

  function ItemLineCount(item: Item): nat { if item.Scalar? then 1 else 1 + |item.entries| }

  function LineCount(items: seq<Item>): nat {
    if items == [] then 0 else LineCount(items[..|items| - 1]) + ItemLineCount(items[|items| - 1])
  }

  lemma {:induction false} LinesAreCounted(items: seq<Item>)
    ensures |Lines(items)| == LineCount(items)
  {
    if items != [] { LinesAreCounted(items[..|items| - 1]); }
  }

  /** Every line with a line feed after it, and then the body. */
  function Text(lines: seq<string>, body: string): string {
    if lines == [] then body else lines[0] + "\n" + Text(lines[1..], body)
  }

  function Written(items: seq<Item>, body: string): string { Text(["---"] + Lines(items) + ["---"], body) }

  // ----- what a document says ------------------------------------------------------------------------------

  function EntryMap(entries: seq<Entry>): map<string, string> {
    if entries == [] then map[]
    else EntryMap(entries[..|entries| - 1])[entries[|entries| - 1].key := entries[|entries| - 1].value]
  }

  function Meaning(item: Item): Value {
    match item
    case Scalar(e) => Value.Text(e.value)
    case Section(_, _, _, entries) => Table(EntryMap(entries))
  }

  function Metadata(items: seq<Item>): map<string, Value> {
    if items == [] then map[]
    else Metadata(items[..|items| - 1])[KeyOf(items[|items| - 1]) := Meaning(items[|items| - 1])]
  }

  function FieldLines(items: seq<Item>): map<string, nat> {
    if items == [] then map[]
    else FieldLines(items[..|items| - 1])[KeyOf(items[|items| - 1]) := 2 + LineCount(items[..|items| - 1])]
  }

  /** The state of the parser after some items. */
  function After(items: seq<Item>): State {
    if items == [] then State(map[], map[], None, None)
    else
      var front := items[..|items| - 1];
      AfterItem(After(front), items[|items| - 1], 2 + LineCount(front))
  }

  // ----- stripping ---------------------------------------------------------------------------------------

  lemma {:induction false} RStripAfter(a: string, b: string)
    requires a != [] && !IsSpace(a[|a| - 1])
    ensures RStrip(a + b) == a + RStrip(b)
  {
    if b == [] {
      assert a + b == a;
    } else if IsSpace(b[|b| - 1]) {
      assert (a + b)[..|a + b| - 1] == a + b[..|b| - 1];
      RStripAfter(a, b[..|b| - 1]);
    }
  }

  lemma {:induction false} RStripSpaces(n: nat)
    ensures RStrip(Spaces(n)) == ""
  {
    if n > 0 {
      assert Spaces(n)[..n - 1] == Spaces(n - 1);
      RStripSpaces(n - 1);
    }
  }

  lemma {:induction false} LStripSpaces(n: nat, s: string)
    requires s != [] && !IsSpace(s[0])
    ensures LStrip(Spaces(n) + s) == s && LeadingSpaces(Spaces(n) + s) == n
  {
    if n > 0 {
      assert (Spaces(n) + s)[1..] == Spaces(n - 1) + s;
      LStripSpaces(n - 1, s);
    } else {
      assert Spaces(n) + s == s;
    }
  }

  lemma StripKeepsFirst(s: string)
    requires s != [] && !IsSpace(s[0])
    ensures Strip(s) == RStrip(s) && Strip(s) != [] && Strip(s)[0] == s[0]
  {
    RStripAfter(s[..1], s[1..]);
    assert s[..1] + s[1..] == s;
  }

  lemma LetterIsPlain(c: char)
    requires IsLetter(c) || IsDigit(c) || c in "_-"
    ensures !IsSpace(c) && c != ':' && !IsBreak(c)
  {
  }

  // ----- quotes and comments -------------------------------------------------------------------------------

  lemma {:induction false} UndoubledDoubled(s: string)
    ensures Undoubled(Doubled(s)) == s
  {
    if s != [] {
      var rest := Doubled(s[1..]);
      UndoubledDoubled(s[1..]);
      if s[0] == '\'' {
        assert Doubled(s)[2..] == rest;
      } else {
        assert Doubled(s)[1..] == rest;
      }
    }
  }

  lemma {:induction false} InsideQuotes(s: string, rest: string, spaced: bool)
    ensures CommentAt(Doubled(s) + "'" + rest, spaced, Some('\''), false)
         == |Doubled(s)| + 1 + CommentAt(rest, false, None, false)
  {
    var text := Doubled(s) + "'" + rest;
    if s == [] {
      assert text[1..] == rest;
    } else {
      var next := Doubled(s[1..]) + "'" + rest;
      InsideQuotes(s[1..], rest, IsSpace(s[0]));
      if s[0] == '\'' {
        assert text[1..][1..] == next;
        assert text[1..][0] == '\'';
      } else {
        assert text[1..] == next;
      }
    }
  }

  lemma {:induction false} TailIsComment(t: Tail, spaced: bool)
    requires TailOk(t)
    ensures t.pad > 0 || spaced || t.comment.None?
    ensures CommentAt(TailText(t), spaced, None, false) == t.pad
    decreases t.pad
  {
    if t.pad > 0 {
      assert TailText(t)[1..] == Spaces(t.pad - 1) + TailText(t)[t.pad..];
      SpacesBeforeComment(t.pad - 1, TailText(t)[t.pad..]);
    }
  }

  lemma {:induction false} SpacesBeforeComment(n: nat, rest: string)
    requires rest == [] || rest[0] == '#'
    ensures CommentAt(Spaces(n) + rest, true, None, false) == n
  {
    if n > 0 {
      assert (Spaces(n) + rest)[1..] == Spaces(n - 1) + rest;
      SpacesBeforeComment(n - 1, rest);
    } else {
      assert Spaces(n) + rest == rest;
    }
  }

  lemma EmptyTail(t: Tail)
    requires TailOk(t)
    ensures Strip(Uncommented(TailText(t))) == ""
  {
    TailIsComment(t, true);
    assert TailText(t)[..t.pad] == Spaces(t.pad);
    RStripSpaces(t.pad);
  }

  lemma QuotedComment(v: string, t: Tail)
    requires TailOk(t)
    ensures CommentAt(" " + Quoted(v) + TailText(t), true, None, false) == 1 + |Quoted(v)| + t.pad
  {
    var raw := " " + Quoted(v) + TailText(t);
    var inside := Doubled(v) + "'" + TailText(t);
    InsideQuotes(v, TailText(t), false);
    TailIsComment(t, false);
    assert raw[1..] == "'" + inside;
    assert raw[1..][1..] == inside;
    assert CommentAt(raw[1..], true, None, false) == 1 + CommentAt(inside, false, Some('\''), false);
  }

  lemma FrontAlone(front: string, rest: string, n: nat)
    requires front != [] && !IsSpace(front[|front| - 1]) && n <= |rest| && rest[..n] == Spaces(n)
    requires CommentAt(front + rest, true, None, false) == |front| + n
    ensures Uncommented(front + rest) == front
  {
    assert (front + rest)[..|front| + n] == front + Spaces(n);
    RStripAfter(front, Spaces(n));
    RStripSpaces(n);
  }

  /** A value that begins and ends in no white space stands alone once its tail is taken for one. */
  lemma ValueAlone(q: string, t: Tail)
    requires TailOk(t) && q != [] && !IsSpace(q[0]) && !IsSpace(q[|q| - 1])
    requires CommentAt(" " + q + TailText(t), true, None, false) == 1 + |q| + t.pad
    ensures Strip(Uncommented(" " + q + TailText(t))) == q
  {
    assert (" " + q)[|q|] == q[|q| - 1];
    assert TailText(t)[..t.pad] == Spaces(t.pad);
    FrontAlone(" " + q, TailText(t), t.pad);
    assert " " + q == Spaces(1) + q;
    LStripSpaces(1, q);
    RStripAfter(q, "");
    assert q + "" == q;
  }

  lemma QuotedAlone(v: string, t: Tail)
    requires TailOk(t)
    ensures Strip(Uncommented(" " + Quoted(v) + TailText(t))) == Quoted(v)
  {
    QuotedComment(v, t);
    ValueAlone(Quoted(v), t);
  }

  lemma QuotedParses(v: string, t: Tail, line: nat, json: Json)
    requires TailOk(t)
    ensures ParseString(" " + Quoted(v) + TailText(t), line, json) == Ok(v)
  {
    QuotedAlone(v, t);
    UndoubledDoubled(v);
    assert Quoted(v)[1..|Quoted(v)| - 1] == Doubled(v);
  }

  // ----- lines -------------------------------------------------------------------------------------------

  lemma {:induction false} ColonAfter(a: string, rest: string)
    requires forall i :: 0 <= i < |a| ==> a[i] != ':'
    ensures Colon(a + ":" + rest) == |a|
  {
    if a != [] {
      assert (a + ":" + rest)[1..] == a[1..] + ":" + rest;
      ColonAfter(a[1..], rest);
    }
  }

  lemma EntrySplits(key: string, rest: string, line: nat)
    requires IsKey(key)
    ensures SplitEntry(key + ":" + rest, line) == Ok((key, rest))
  {
    var raw := key + ":" + rest;
    forall i | 0 <= i < |key| ensures key[i] != ':' { LetterIsPlain(key[i]); }
    ColonAfter(key, rest);
    assert raw[..|key|] == key && raw[|key| + 1..] == rest;
    LetterIsPlain(key[0]);
    LetterIsPlain(key[|key| - 1]);
    RStripAfter(key, "");
    assert key + "" == key;
  }

  /** Stripping a written line on the right shortens its tail, and leaves it a written line. */
  lemma StrippedEntry(e: Entry) returns (t: Tail)
    requires EntryOk(e)
    ensures TailOk(t) && RStrip(EntryLine(e)) == EntryLine(e.(tail := t))
  {
    var front := e.key + ":" + (" " + Quoted(e.value));
    if e.tail.comment.None? {
      t := Tail(0, None);
      assert EntryLine(e) == front + Spaces(e.tail.pad);
      assert EntryLine(e.(tail := t)) == front;
      RStripAfter(front, Spaces(e.tail.pad));
      RStripSpaces(e.tail.pad);
    } else {
      var comment := e.tail.comment.value;
      t := Tail(e.tail.pad, Some(RStrip(comment)));
      RStripIsPrefix(comment);
      var longer := front + Spaces(e.tail.pad) + "#";
      assert EntryLine(e) == longer + comment;
      assert EntryLine(e.(tail := t)) == longer + RStrip(comment);
      RStripAfter(longer, comment);
    }
  }

  lemma {:induction false} RStripIsPrefix(s: string)
    ensures RStrip(s) <= s
  {
    if s != [] && IsSpace(s[|s| - 1]) { RStripIsPrefix(s[..|s| - 1]); }
  }

  lemma FieldStart(key: string, rest: string)
    requires IsKey(key)
    ensures var raw := key + ":" + rest;
            !IsDelimiter(raw) && LStrip(raw) == raw && Strip(raw) != "" && raw[0] != '#' && LeadingSpaces(raw) == 0
  {
    var raw := key + ":" + rest;
    assert raw[0] == key[0];
    LetterIsPlain(key[0]);
    StripKeepsFirst(raw);
  }

  lemma ScalarLine(e: Entry, st: State, line: nat, json: Json)
    requires EntryOk(e) && e.key !in st.metadata
    ensures !IsDelimiter(EntryLine(e))
    ensures Line(st, EntryLine(e), line, json)
         == Ok(State(st.metadata[e.key := Value.Text(e.value)], st.fieldLines[e.key := line], None, None))
  {
    var rest := " " + Quoted(e.value) + TailText(e.tail);
    FieldStart(e.key, rest);
    EntrySplits(e.key, rest, line);
    QuotedAlone(e.value, e.tail);
    QuotedParses(e.value, e.tail, line, json);
  }

  lemma SectionLine(key: string, tail: Tail, st: State, line: nat, json: Json)
    requires IsKey(key) && TailOk(tail) && key !in st.metadata
    ensures !IsDelimiter(key + ":" + TailText(tail))
    ensures Line(st, key + ":" + TailText(tail), line, json)
         == Ok(State(st.metadata[key := Table(map[])], st.fieldLines[key := line], Some(key), None))
  {
    FieldStart(key, TailText(tail));
    EntrySplits(key, TailText(tail), line);
    EmptyTail(tail);
  }

  lemma IndentedText(text: string, indent: nat)
    requires text != "" && IsLetter(text[0]) && indent > 0
    ensures var raw := Spaces(indent) + text;
            && LStrip(raw) == text && LeadingSpaces(raw) == indent
            && '\t' !in raw[..|raw| - |LStrip(raw)|] && Strip(raw) == RStrip(text)
            && Strip(raw) != [] && IsLetter(Strip(raw)[0]) && LStrip(raw)[..1] != "#"
  {
    var raw := Spaces(indent) + text;
    LetterIsPlain(text[0]);
    LStripSpaces(indent, text);
    StripKeepsFirst(text);
    assert raw[..|raw| - |LStrip(raw)|] == Spaces(indent);
  }

  lemma MemberText(e: Entry, indent: nat)
    requires EntryOk(e) && indent > 0
    ensures var raw := Spaces(indent) + EntryLine(e);
            && LStrip(raw) == EntryLine(e) && LeadingSpaces(raw) == indent
            && '\t' !in raw[..|raw| - |LStrip(raw)|] && Strip(raw) == RStrip(EntryLine(e))
            && Strip(raw) != [] && IsLetter(Strip(raw)[0]) && LStrip(raw)[..1] != "#"
  {
    assert EntryLine(e)[0] == e.key[0];
    IndentedText(EntryLine(e), indent);
  }

  lemma MemberLine(e: Entry, indent: nat, st: State, line: nat, json: Json)
    requires EntryOk(e) && indent > 0 && (st.indent.Some? ==> st.indent.value == indent)
    requires OpenTable(st).Some? && e.key !in OpenTable(st).value
    ensures !IsDelimiter(Spaces(indent) + EntryLine(e))
    ensures Line(st, Spaces(indent) + EntryLine(e), line, json)
         == Ok(st.(metadata := st.metadata[st.table.value := Table(OpenTable(st).value[e.key := e.value])],
                   indent := Some(indent)))
  {
    MemberText(e, indent);
    var t := StrippedEntry(e);
    EntrySplits(e.key, " " + Quoted(e.value) + TailText(t), line);
    QuotedParses(e.value, t, line, json);
  }

  // ----- scanning ------------------------------------------------------------------------------------------

  lemma {:induction false} ScanAppend(a: seq<string>, b: seq<string>, line: nat, st: State, read: Reader)
    requires Scan(a, line, st, read).Unfinished?
    ensures Scan(a + b, line, st, read) == Scan(b, line + |a|, Scan(a, line, st, read).state, read)
  {
    if a == [] {
      assert a + b == b;
    } else {
      assert (a + b)[1..] == a[1..] + b;
      ScanAppend(a[1..], b, line + 1, read(st, a[0], line).next, read);
    }
  }

  lemma {:induction false} ScanPrefix(lines: seq<string>, k: nat, line: nat, st: State, read: Reader)
    requires k <= |lines| && Scan(lines, line, st, read).Unfinished?
    ensures Scan(lines[..k], line, st, read).Unfinished?
  {
    if k > 0 {
      assert lines[..k][1..] == lines[1..][..k - 1];
      ScanPrefix(lines[1..], k - 1, line + 1, read(st, lines[0], line).next, read);
    }
  }

  lemma ScanOne(raw: string, line: nat, st: State, next: State, read: Reader)
    requires read(st, raw, line) == GoOn(next)
    ensures Scan([raw], line, st, read) == Unfinished(next)
  {
    assert [raw][1..] == [];
  }

  lemma {:induction false} EntryMapKeys(entries: seq<Entry>, key: string)
    ensures key in EntryMap(entries) <==> exists i :: 0 <= i < |entries| && entries[i].key == key
  {
    if entries != [] {
      EntryMapKeys(entries[..|entries| - 1], key);
    }
  }

  /** A key whose map is open and still empty. */
  predicate JustOpened(st: State, key: string) {
    key in st.metadata && st.metadata[key] == Table(map[]) && st.table == Some(key) && st.indent == None
  }

  /** What the open map has become after some of its lines. */
  function WithEntries(st: State, key: string, indent: nat, entries: seq<Entry>): State {
    if entries == [] then st
    else st.(metadata := st.metadata[key := Table(EntryMap(entries))], indent := Some(indent))
  }

  ghost predicate ReadsEntry(
    read: Reader, key: string, indent: nat, front: seq<Entry>, last: Entry, line: nat, st: State)
  {
    JustOpened(st, key) && EntryOk(last) && last.key !in EntryMap(front) ==>
      Scan([Spaces(indent) + EntryLine(last)], line, WithEntries(st, key, indent, front), read)
      == Unfinished(WithEntries(st, key, indent, front + [last]))
  }

  /** A member line adds its entry to the open map. */
  lemma WithOneMore(key: string, indent: nat, front: seq<Entry>, last: Entry, st: State)
    requires JustOpened(st, key)
    ensures var mid, next := WithEntries(st, key, indent, front), WithEntries(st, key, indent, front + [last]);
      && OpenTable(mid) == Some(EntryMap(front)) && mid.table == Some(key)
      && (mid.indent.Some? ==> mid.indent.value == indent)
      && next == mid.(metadata := mid.metadata[key := Table(EntryMap(front)[last.key := last.value])],
                      indent := Some(indent))
  {
    assert (front + [last])[..|front|] == front;
    var mid, next := WithEntries(st, key, indent, front), WithEntries(st, key, indent, front + [last]);
    assert mid.metadata[key := Table(EntryMap(front + [last]))] == next.metadata;
  }

  lemma MemberTurn(e: Entry, indent: nat, st: State, line: nat, json: Json)
    requires EntryOk(e) && indent > 0 && (st.indent.Some? ==> st.indent.value == indent)
    requires OpenTable(st).Some? && e.key !in OpenTable(st).value
    ensures LineReader(json)(st, Spaces(indent) + EntryLine(e), line)
         == GoOn(st.(metadata := st.metadata[st.table.value := Table(OpenTable(st).value[e.key := e.value])],
                     indent := Some(indent)))
  {
    MemberLine(e, indent, st, line, json);
  }

  lemma EntryIsRead(key: string, indent: nat, front: seq<Entry>, last: Entry, line: nat, st: State, json: Json)
    requires indent > 0
    ensures ReadsEntry(LineReader(json), key, indent, front, last, line, st)
  {
    if JustOpened(st, key) && EntryOk(last) && last.key !in EntryMap(front) {
      WithOneMore(key, indent, front, last, st);
      var mid, next := WithEntries(st, key, indent, front), WithEntries(st, key, indent, front + [last]);
      MemberTurn(last, indent, mid, line, json);
      ScanOne(Spaces(indent) + EntryLine(last), line, mid, next, LineReader(json));
    }
  }

  lemma LastEntryLine(indent: nat, entries: seq<Entry>)
    requires entries != []
    ensures var n := |entries| - 1;
      && entries == entries[..n] + [entries[n]]
      && EntryLines(indent, entries) == EntryLines(indent, entries[..n]) + [Spaces(indent) + EntryLine(entries[n])]
  {
  }

  lemma {:induction false} ScanEntries(
    key: string, indent: nat, entries: seq<Entry>, line: nat, st: State, read: Reader)
    requires forall i :: 0 <= i < |entries| ==> EntryOk(entries[i])
    requires forall i, j :: 0 <= i < j < |entries| ==> entries[i].key != entries[j].key
    requires JustOpened(st, key)
    requires forall front, last, at :: ReadsEntry(read, key, indent, front, last, at, st)
    ensures Scan(EntryLines(indent, entries), line, st, read) == Unfinished(WithEntries(st, key, indent, entries))
    decreases |entries|
  {
    if entries != [] {
      var n := |entries| - 1;
      var front, last := entries[..n], entries[n];
      ScanEntries(key, indent, front, line, st, read);
      EntryMapKeys(front, last.key);
      LastEntryLine(indent, entries);
      assert ReadsEntry(read, key, indent, front, last, line + n, st);
      ScanAppend(EntryLines(indent, front), [Spaces(indent) + EntryLine(last)], line, st, read);
    }
  }

  /** The state after an item, when it starts on `line`. */
  function AfterItem(st: State, item: Item, line: nat): State {
    State(st.metadata[KeyOf(item) := Meaning(item)], st.fieldLines[KeyOf(item) := line],
          if item.Scalar? then None else Some(KeyOf(item)),
          if item.Scalar? || item.entries == [] then None else Some(item.indent))
  }

  /** The parser reads these lines from one state into the other, whatever follows them. */
  ghost predicate Advances(read: Reader, lines: seq<string>, at: nat, st: State, next: State) {
    forall rest :: Scan(lines + rest, at, st, read) == Scan(rest, at + |lines|, next, read)
  }

  lemma ScanAdvances(read: Reader, lines: seq<string>, at: nat, st: State, next: State)
    requires Scan(lines, at, st, read) == Unfinished(next)
    ensures Advances(read, lines, at, st, next)
  {
    forall rest ensures Scan(lines + rest, at, st, read) == Scan(rest, at + |lines|, next, read) {
      ScanAppend(lines, rest, at, st, read);
    }
  }

  lemma AdvancesBoth(
    read: Reader, a: seq<string>, b: seq<string>, all: seq<string>, at: nat, st: State, mid: State, next: State)
    requires all == a + b && Advances(read, a, at, st, mid) && Advances(read, b, at + |a|, mid, next)
    ensures Advances(read, all, at, st, next)
  {
    forall rest ensures Scan(all + rest, at, st, read) == Scan(rest, at + |all|, next, read) {
      assert all + rest == a + (b + rest);
    }
  }

  ghost predicate ReadsItem(read: Reader, item: Item, line: nat, st: State) {
    ItemOk(item) && KeyOf(item) !in st.metadata ==> Advances(read, ItemLines(item), line, st, AfterItem(st, item, line))
  }

  lemma ItemIsRead(item: Item, line: nat, st: State, json: Json)
    ensures ReadsItem(LineReader(json), item, line, st)
  {
    if ItemOk(item) && KeyOf(item) !in st.metadata {
      match item
      case Scalar(e) =>
        ScalarLine(e, st, line, json);
        ScanOne(EntryLine(e), line, st, AfterItem(st, item, line), LineReader(json));
        ScanAdvances(LineReader(json), [EntryLine(e)], line, st, AfterItem(st, item, line));
      case Section(key, tail, indent, entries) =>
        SectionLine(key, tail, st, line, json);
        SectionIsRead(key, tail, indent, entries, line, st, json);
        ScanAdvances(LineReader(json), ItemLines(item), line, st, AfterItem(st, item, line));
    }
  }

  lemma SectionIsRead(
    key: string, tail: Tail, indent: nat, entries: seq<Entry>, line: nat, st: State, json: Json)
    requires ItemOk(Section(key, tail, indent, entries)) && key !in st.metadata
    ensures Scan(ItemLines(Section(key, tail, indent, entries)), line, st, LineReader(json))
         == Unfinished(AfterItem(st, Section(key, tail, indent, entries), line))
  {
    var next := State(st.metadata[key := Table(map[])], st.fieldLines[key := line], Some(key), None);
    var first, more := key + ":" + TailText(tail), EntryLines(indent, entries);
    SectionLine(key, tail, st, line, json);
    ScanOne(first, line, st, next, LineReader(json));
    ScanAppend([first], more, line, st, LineReader(json));
    EntriesAreRead(key, indent, entries, line + 1, next, json);
    assert next.metadata[key := Table(EntryMap(entries))] == st.metadata[key := Table(EntryMap(entries))];
  }

  lemma EntriesAreRead(key: string, indent: nat, entries: seq<Entry>, line: nat, st: State, json: Json)
    requires ItemOk(Section(key, Tail(0, None), indent, entries)) && JustOpened(st, key)
    ensures Scan(EntryLines(indent, entries), line, st, LineReader(json))
         == Unfinished(WithEntries(st, key, indent, entries))
  {
    forall front, last, at ensures ReadsEntry(LineReader(json), key, indent, front, last, at, st) {
      EntryIsRead(key, indent, front, last, at, st, json);
    }
    ScanEntries(key, indent, entries, line, st, LineReader(json));
  }

  lemma {:induction false} MetadataKeys(items: seq<Item>, key: string)
    ensures key in Metadata(items) <==> exists i :: 0 <= i < |items| && KeyOf(items[i]) == key
  {
    if items != [] {
      MetadataKeys(items[..|items| - 1], key);
    }
  }

  lemma {:induction false} AfterIsMeaning(items: seq<Item>)
    ensures After(items).metadata == Metadata(items) && After(items).fieldLines == FieldLines(items)
  {
    if items != [] { AfterIsMeaning(items[..|items| - 1]); }
  }

  lemma LinesLonger(items: seq<Item>, front: seq<Item>, last: Item)
    requires items == front + [last]
    ensures Lines(items) == Lines(front) + ItemLines(last)
    ensures After(items) == AfterItem(After(front), last, 2 + |Lines(front)|)
  {
    assert items[..|items| - 1] == front;
    LinesAreCounted(front);
  }

  const START: State := State(map[], map[], None, None)

  /** The parser reads the lines of these items into the state that they stand for. */
  ghost predicate ReadsItems(items: seq<Item>, read: Reader) { Advances(read, Lines(items), 2, START, After(items)) }

  lemma NextItemIsRead(front: seq<Item>, last: Item, at: nat, json: Json)
    requires ItemOk(last) && KeyOf(last) !in Metadata(front)
    ensures Advances(LineReader(json), ItemLines(last), at, After(front), AfterItem(After(front), last, at))
  {
    AfterIsMeaning(front);
    ItemIsRead(last, at, After(front), json);
  }

  lemma FrontOk(items: seq<Item>) returns (front: seq<Item>, last: Item)
    requires ItemsOk(items) && items != []
    ensures |front| < |items| && items == front + [last]
    ensures ItemsOk(front) && ItemOk(last) && KeyOf(last) !in Metadata(front)
  {
    front, last := items[..|items| - 1], items[|items| - 1];
    MetadataKeys(front, KeyOf(last));
  }

  lemma ReadsOneMore(items: seq<Item>, front: seq<Item>, last: Item, read: Reader)
    requires items == front + [last] && ReadsItems(front, read)
    requires Advances(read, ItemLines(last), 2 + |Lines(front)|, After(front),
                      AfterItem(After(front), last, 2 + |Lines(front)|))
    ensures ReadsItems(items, read)
  {
    LinesLonger(items, front, last);
    AdvancesBoth(read, Lines(front), ItemLines(last), Lines(items), 2, START, After(front), After(items));
  }

  lemma {:induction false} ScanItems(items: seq<Item>, json: Json)
    requires ItemsOk(items)
    ensures ReadsItems(items, LineReader(json))
    decreases |items|
  {
    if items == [] {
      ReadsNothing(LineReader(json));
    } else {
      var front, last := FrontOk(items);
      ScanItems(front, json);
      NextItemIsRead(front, last, 2 + |Lines(front)|, json);
      ReadsOneMore(items, front, last, LineReader(json));
    }
  }

  lemma ReadsNothing(read: Reader)
    ensures ReadsItems([], read)
  {
    forall rest: seq<string> ensures Scan([] + rest, 2, START, read) == Scan(rest, 2, START, read) {
      assert [] + rest == rest;
    }
  }

  // ----- the theorems ------------------------------------------------------------------------------------

  lemma FirstLineIs(a: string, rest: string)
    requires OneLine(a)
    ensures FirstLine(a + "\n" + rest) == |a|
  {
    var s := a + "\n" + rest;
    assert s[|a|] == '\n';
    assert forall i :: 0 <= i < |a| ==> s[i] == a[i];
  }

  lemma FirstLineSplits(a: string, rest: string)
    requires OneLine(a)
    ensures SplitLines(a + "\n" + rest) == [a] + SplitLines(rest)
  {
    var s := a + "\n" + rest;
    FirstLineIs(a, rest);
    assert s[..|a|] == a && s[|a|] == '\n' && s[|a| + 1..] == rest;
  }

  lemma JoinedSeq(lines: seq<string>, more: seq<string>)
    requires lines != []
    ensures [lines[0]] + (lines[1..] + more) == lines + more
  {
  }

  lemma {:induction false} TextSplits(lines: seq<string>, body: string)
    requires AllOneLine(lines)
    ensures SplitLines(Text(lines, body)) == lines + SplitLines(body)
  {
    if lines == [] {
      assert lines + SplitLines(body) == SplitLines(body);
    } else {
      var rest := Text(lines[1..], body);
      FirstLineSplits(lines[0], rest);
      TextSplits(lines[1..], body);
      JoinedSeq(lines, SplitLines(body));
    }
  }

  lemma {:induction false} DoubledIsOneLine(s: string)
    requires OneLine(s)
    ensures OneLine(Doubled(s))
  {
    if s != [] { DoubledIsOneLine(s[1..]); }
  }

  lemma EntryIsOneLine(e: Entry, indent: nat)
    requires EntryOk(e)
    ensures OneLine(EntryLine(e)) && OneLine(Spaces(indent) + EntryLine(e))
  {
    DoubledIsOneLine(e.value);
    KeyIsOneLine(e.key);
    TailIsOneLine(e.tail);
  }

  lemma KeyIsOneLine(key: string)
    requires IsKey(key)
    ensures OneLine(key)
  {
    forall i | 0 <= i < |key| ensures !IsBreak(key[i]) { LetterIsPlain(key[i]); }
  }

  lemma TailIsOneLine(t: Tail)
    requires TailOk(t)
    ensures OneLine(TailText(t))
  {
  }

  lemma ItemIsOneLines(item: Item)
    requires ItemOk(item)
    ensures AllOneLine(ItemLines(item))
  {
    match item
    case Scalar(e) => EntryIsOneLine(e, 0);
    case Section(key, tail, indent, entries) =>
      KeyIsOneLine(key);
      TailIsOneLine(tail);
      forall i | 0 <= i < |entries| ensures OneLine(EntryLines(indent, entries)[i]) {
        EntryIsOneLine(entries[i], indent);
      }
  }

  lemma {:induction false} LinesAreOneLines(items: seq<Item>)
    requires ItemsOk(items)
    ensures AllOneLine(Lines(items))
  {
    if items != [] {
      LinesAreOneLines(items[..|items| - 1]);
      ItemIsOneLines(items[|items| - 1]);
    }
  }

  /** The lines of a written document, as the parser splits them. */
  lemma WrittenSplits(items: seq<Item>, body: string)
    requires ItemsOk(items)
    ensures SplitLines(Written(items, body)) == ["---"] + (Lines(items) + (["---"] + SplitLines(body)))
  {
    LinesAreOneLines(items);
    SplitWritten(Lines(items), body, "---");
  }

  lemma EdgesAreOneLine(block: seq<string>, mark: string)
    requires AllOneLine(block) && OneLine(mark)
    ensures AllOneLine([mark] + block + [mark])
  {
  }

  lemma Regroup<T>(a: seq<T>, b: seq<T>, c: seq<T>, d: seq<T>)
    ensures a + b + c + d == a + (b + (c + d))
  {
  }

  lemma SplitWritten(block: seq<string>, body: string, mark: string)
    requires AllOneLine(block) && OneLine(mark)
    ensures SplitLines(Text([mark] + block + [mark], body)) == [mark] + (block + ([mark] + SplitLines(body)))
  {
    EdgesAreOneLine(block, mark);
    TextSplits([mark] + block + [mark], body);
    Regroup([mark], block, [mark], SplitLines(body));
  }

  /**
    A written document of at most 99 metadata lines reads back as the map it was written from, with the
    body's lines and its first line number; a longer one is refused.
   */
  lemma RoundTrip(items: seq<Item>, body: string, json: Json)
    requires ItemsOk(items)
    ensures Parse(SplitLines(Written(items, body)), json)
         == if |Lines(items)| < FRONTMATTER_LINES
            then Ok(Document(Metadata(items), FieldLines(items), Join(SplitLines(body)), |Lines(items)| + 3))
            else Err(NotClosed)
  {
    WrittenSplits(items, body);
    ScanItems(items, json);
    AfterIsMeaning(items);
    DashesAreDelimiter();
    BlockParses(Lines(items), SplitLines(body), After(items), json);
  }

  lemma BlockParses(block: seq<string>, rest: seq<string>, st: State, json: Json)
    requires Advances(LineReader(json), block, 2, START, st) && IsDelimiter("---")
    ensures Parse(["---"] + (block + (["---"] + rest)), json)
         == if |block| < FRONTMATTER_LINES
            then Ok(Document(st.metadata, st.fieldLines, Join(rest), |block| + 3)) else Err(NotClosed)
  {
    var inner := block + (["---"] + rest);
    var lines := ["---"] + inner;
    assert lines[1..] == inner;
    HeadOfBlock(block, rest, "---", st, LineReader(json));
    if |block| < FRONTMATTER_LINES {
      assert Drop(lines, |block| + 2) == rest;
    }
  }

  lemma HeadOfBlock(block: seq<string>, rest: seq<string>, mark: string, st: State, read: Reader)
    requires Advances(read, block, 2, START, st) && forall st, line :: read(st, mark, line) == Stop
    ensures var scanned := Scan(Head(block + ([mark] + rest)), 2, START, read);
      if |block| < FRONTMATTER_LINES then scanned == Closed(st, |block| + 2) else scanned.Unfinished?
  {
    var inner := block + ([mark] + rest);
    if |block| < FRONTMATTER_LINES {
      var more := Head(inner)[|block|..];
      assert Head(inner) == block + more && more[0] == mark;
      assert Scan(block + more, 2, START, read) == Scan(more, 2 + |block|, st, read);
    } else {
      assert block + [] == block;
      assert Scan(block + [], 2, START, read) == Scan([], 2 + |block|, st, read);
      assert Head(inner) == block[..FRONTMATTER_LINES];
      ScanPrefix(block, FRONTMATTER_LINES, 2, START, read);
    }
  }

  lemma DashesAreDelimiter()
    ensures IsDelimiter("---")
  {
    RStripAfter("---", "");
    assert "---" + "" == "---";
  }

  /** The map written: every key of an item, and nothing else, with the item's meaning and its first line. */
  lemma MetadataIsWhatWasWritten(items: seq<Item>)
    requires ItemsOk(items)
    ensures forall key :: key in Metadata(items) <==> exists i :: 0 <= i < |items| && KeyOf(items[i]) == key
    ensures forall i :: 0 <= i < |items| ==>
              && KeyOf(items[i]) in Metadata(items)
              && Metadata(items)[KeyOf(items[i])] == Meaning(items[i])
              && KeyOf(items[i]) in FieldLines(items)
              && FieldLines(items)[KeyOf(items[i])] == LineOf(items, i)
  {
    forall key ensures key in Metadata(items) <==> exists i :: 0 <= i < |items| && KeyOf(items[i]) == key {
      MetadataKeys(items, key);
    }
    forall i | 0 <= i < |items|
      ensures && KeyOf(items[i]) in Metadata(items)
              && Metadata(items)[KeyOf(items[i])] == Meaning(items[i])
              && KeyOf(items[i]) in FieldLines(items)
              && FieldLines(items)[KeyOf(items[i])] == LineOf(items, i)
    {
      MetadataAt(items, i);
    }
  }

  /** The key of item `i` does not come again. */
  ghost predicate KeyIsLast(items: seq<Item>, i: nat)
    requires i < |items|
  {
    forall k :: i < k < |items| ==> KeyOf(items[k]) != KeyOf(items[i])
  }

  lemma {:induction false} MetadataOf(items: seq<Item>, i: nat)
    requires i < |items| && KeyIsLast(items, i)
    ensures KeyOf(items[i]) in Metadata(items) && Metadata(items)[KeyOf(items[i])] == Meaning(items[i])
  {
    var n := |items| - 1;
    if i < n {
      assert KeyOf(items[n]) != KeyOf(items[i]);
      MetadataOf(items[..n], i);
    }
  }

  /** The line on which item `i` begins. */
  function LineOf(items: seq<Item>, i: nat): (n: nat)
    requires i < |items|
    ensures n >= 2
  {
    var n := |items| - 1;
    if i == n then 2 + LineCount(items[..n]) else LineOf(items[..n], i)
  }

  lemma {:induction false} FieldLineOf(items: seq<Item>, i: nat)
    requires i < |items| && KeyIsLast(items, i)
    ensures KeyOf(items[i]) in FieldLines(items) && FieldLines(items)[KeyOf(items[i])] == LineOf(items, i)
  {
    var n := |items| - 1;
    if i < n {
      assert KeyOf(items[n]) != KeyOf(items[i]);
      FieldLineOf(items[..n], i);
    }
  }

  lemma {:induction false} LineOfIsAfterFront(items: seq<Item>, i: nat)
    requires i < |items|
    ensures LineOf(items, i) == 2 + LineCount(items[..i])
  {
    var n := |items| - 1;
    if i < n {
      LineOfIsAfterFront(items[..n], i);
      assert items[..n][..i] == items[..i];
    }
  }

  lemma MetadataAt(items: seq<Item>, i: nat)
    requires i < |items| && KeyIsLast(items, i)
    ensures KeyOf(items[i]) in Metadata(items) && Metadata(items)[KeyOf(items[i])] == Meaning(items[i])
    ensures KeyOf(items[i]) in FieldLines(items) && FieldLines(items)[KeyOf(items[i])] == LineOf(items, i)
  {
    MetadataOf(items, i);
    FieldLineOf(items, i);
  }

  lemma {:induction false} EntryMapIsWhatWasWritten(entries: seq<Entry>)
    requires forall i, j :: 0 <= i < j < |entries| ==> entries[i].key != entries[j].key
    ensures EntryMap(entries).Keys == set e <- entries :: e.key
    ensures forall e <- entries :: EntryMap(entries)[e.key] == e.value
  {
    if entries != [] {
      var n := |entries| - 1;
      EntryMapIsWhatWasWritten(entries[..n]);
      assert entries == entries[..n] + [entries[n]];
    }
  }

  /** In the lines of a written document, the recorded line of an item is the one on which it was written. */
  lemma FieldLineIsWhereItWasWritten(items: seq<Item>, i: nat, first: string, rest: seq<string>)
    requires i < |items|
    ensures ItemLines(items[i]) != []
    ensures LineOf(items, i) <= |[first] + (Lines(items) + rest)|
    ensures ([first] + (Lines(items) + rest))[LineOf(items, i) - 1] == ItemLines(items[i])[0]
  {
    LinesSplit(items, i);
    LinesAreCounted(items[..i]);
    LineOfIsAfterFront(items, i);
  }

  lemma {:induction false} LinesSplit(items: seq<Item>, i: nat)
    requires i < |items|
    ensures ItemLines(items[i]) != []
    ensures |Lines(items[..i])| < |Lines(items)| && Lines(items)[|Lines(items[..i])|] == ItemLines(items[i])[0]
  {
    var n := |items| - 1;
    var front := items[..n];
    assert Lines(items) == Lines(front) + ItemLines(items[n]);
    if i < n {
      LinesSplit(front, i);
      assert front[..i] == items[..i];
      assert Lines(items)[|Lines(items[..i])|] == Lines(front)[|Lines(items[..i])|];
    }
  }

  /** A body whose only line breaks are line feeds, and that does not end in one, comes back unchanged. */
  lemma {:induction false} BodySurvives(body: string)
    requires forall i :: 0 <= i < |body| ==> IsBreak(body[i]) ==> body[i] == '\n'
    requires body != [] ==> body[|body| - 1] != '\n'
    ensures Join(SplitLines(body)) == body
    decreases |body|
  {
    var n := FirstLine(body);
    if n < |body| {
      BodySurvives(body[n + 1..]);
      assert body[n + 1..] != [];
      assert body == body[..n] + "\n" + body[n + 1..];
    }
  }
}
