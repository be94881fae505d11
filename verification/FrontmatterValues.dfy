/**
  What the frontmatter parser makes of values and lines: which unquoted text it takes as it stands, what YAML would
  read otherwise, where a quoted value ends, and which fault every bad line has. The grammar is stated apart from
  the scan that recognises it.
 */
module FrontmatterValues {
  import opened Prelude
  import opened Frontmatter
  import opened FrontmatterRoundTrip

  // ----- characters ---------------------------------------------------------------------------------------

  predicate Code(c: char, low: int, high: int) { low <= c as int <= high }

  /** White space is what Unicode 15 calls so, with the four separators of ASCII. */
  lemma SpacesAre(c: char)
    ensures IsSpace(c)
       <==> || Code(c, 9, 13) || Code(c, 28, 32) || c as int in {133, 160, 5760, 8239, 8287, 12288}
            || Code(c, 8192, 8202) || Code(c, 8232, 8233)
    ensures IsBreak(c) <==> Code(c, 10, 13) || Code(c, 28, 30) || c as int in {133, 8232, 8233}
    ensures IsBreak(c) ==> IsSpace(c)
  {
  }

  /** A key is a letter, and then letters, digits, hyphens and underscores, all of ASCII. */
  lemma KeysAre(s: string)
    ensures IsKey(s) <==>
      && |s| > 0 && (Code(s[0], 65, 90) || Code(s[0], 97, 122))
      && forall c <- s :: Code(c, 65, 90) || Code(c, 97, 122) || Code(c, 48, 57) || c == '-' || c == '_'
  {
    if IsKey(s) {
      forall c | c in s ensures Code(c, 65, 90) || Code(c, 97, 122) || Code(c, 48, 57) || c == '-' || c == '_' {
        var i :| 0 <= i < |s| && s[i] == c;
      }
    } else if |s| > 0 && IsLetter(s[0]) {
      var i :| 0 <= i < |s| && !(IsLetter(s[i]) || IsDigit(s[i]) || s[i] in "_-");
      assert s[i] in s;
    }
  }

  // ----- numbers ------------------------------------------------------------------------------------------

  ghost predicate Digits(s: string, alsoUnderscore: bool) {
    forall i :: 0 <= i < |s| ==> Code(s[i], 48, 57) || (alsoUnderscore && s[i] == '_')
  }

  ghost predicate Sign(s: string) { s == "" || s == "+" || s == "-" }

  /** No leading zeros; later digits may be set off by underscores. */
  ghost predicate Whole(s: string) { s == "0" || (|s| > 0 && Code(s[0], 49, 57) && Digits(s[1..], true)) }

  ghost predicate Fraction(s: string) { s == "" || (|s| > 1 && s[0] == '.' && Digits(s[1..], true)) }

  ghost predicate Power(s: string) {
    s == "" || exists sign, digits :: Sign(sign) && digits != "" && Digits(digits, false) && IsPower(s, sign, digits)
  }

  ghost predicate IsPower(s: string, sign: string, digits: string) {
    s != "" && (s[0] == 'e' || s[0] == 'E') && s[1..] == sign + digits
  }

  ghost predicate Spells(s: string, sign: string, whole: string, fraction: string, power: string) {
    s == sign + (whole + (fraction + power)) && Sign(sign) && Whole(whole) && Fraction(fraction) && Power(power)
  }

  lemma {:induction false} DigitRunIsLongest(a: string, b: string, u: bool)
    requires Digits(a, u) && (b != "" ==> !Digits(b[..1], u))
    ensures DigitRun(a + b, u) == |a|
  {
    if a == "" {
      assert a + b == b;
      if b != "" { assert b[..1][0] == b[0]; }
    } else {
      assert (a + b)[1..] == a[1..] + b;
      DigitRunIsLongest(a[1..], b, u);
    }
  }

  lemma {:induction false} ScannedDigits(s: string, u: bool)
    ensures Digits(s[..DigitRun(s, u)], u)
  {
    if DigitRun(s, u) > 0 {
      ScannedDigits(s[1..], u);
      var n := DigitRun(s, u);
      forall i | 0 <= i < n ensures Code(s[..n][i], 48, 57) || (u && s[..n][i] == '_') {
        if i > 0 { assert s[..n][i] == s[1..][..n - 1][i - 1]; }
      }
    }
  }

  lemma UnsignedDrops(sign: string, rest: string)
    requires Sign(sign) && (rest != "" ==> rest[0] !in "+-")
    ensures Unsigned(sign + rest) == rest
  {
    if sign == "" { assert sign + rest == rest; } else { assert (sign + rest)[1..] == rest; }
  }

  lemma SignOf(s: string) returns (sign: string)
    ensures Sign(sign) && s == sign + Unsigned(s)
  {
    if s != "" && s[0] in "+-" {
      sign := s[..1];
      assert s[0] == '+' || s[0] == '-';
    } else {
      sign := "";
    }
  }

  lemma PowerIsScanned(s: string, sign: string, digits: string)
    requires Sign(sign) && digits != "" && Digits(digits, false) && IsPower(s, sign, digits)
    ensures IsExponent(s)
  {
    UnsignedDrops(sign, digits);
    DigitRunIsLongest(digits, "", false);
    assert digits + "" == digits;
  }

  lemma ScannedIsPower(s: string)
    requires s != "" && IsExponent(s)
    ensures Power(s)
  {
    var sign := SignOf(s[1..]);
    var digits := Unsigned(s[1..]);
    ScannedDigits(digits, false);
    assert digits[..|digits|] == digits;
    assert IsPower(s, sign, digits);
  }

  lemma PowerIff(s: string)
    ensures IsExponent(s) <==> Power(s)
  {
    if s != "" && IsExponent(s) { ScannedIsPower(s); }
    if s != "" && Power(s) {
      var sign, digits :| Sign(sign) && digits != "" && Digits(digits, false) && IsPower(s, sign, digits);
      PowerIsScanned(s, sign, digits);
    }
  }

  lemma PowerStart(s: string)
    requires Power(s) && s != ""
    ensures s[0] == 'e' || s[0] == 'E'
  {
  }

  ghost predicate Tailed(s: string, fraction: string, power: string) {
    s == fraction + power && Fraction(fraction) && Power(power)
  }

  lemma ScannedIsTailed(s: string)
    requires IsFraction(s)
    ensures exists fraction, power :: Tailed(s, fraction, power)
  {
    if s != "" && s[0] == '.' {
      var n := DigitRun(s[1..], true);
      ScannedDigits(s[1..], true);
      PowerIff(s[1 + n..]);
      assert s[..1 + n][1..] == s[1..][..n];
      assert Tailed(s, s[..1 + n], s[1 + n..]);
    } else {
      PowerIff(s);
      assert Tailed(s, "", s);
    }
  }

  lemma TailedIsScanned(s: string, fraction: string, power: string)
    requires Tailed(s, fraction, power)
    ensures IsFraction(s)
  {
    PowerIff(power);
    if power != "" { PowerStart(power); }
    if fraction == "" {
      assert s == power;
    } else {
      DigitRunIsLongest(fraction[1..], power, true);
      assert s[1..] == fraction[1..] + power;
      assert s[|fraction|..] == power;
    }
  }

  /** The part before the fraction, as the scan cuts it off. */
  lemma WholeIsScanned(u: string) returns (whole: string, tail: string)
    requires u != "" && IsDigit(u[0])
    ensures u == whole + tail && Whole(whole)
    ensures tail == if u[0] == '0' then u[1..] else u[DigitRun(u, true)..]
  {
    var n := if u[0] == '0' then 1 else DigitRun(u, true);
    whole, tail := u[..n], u[n..];
    assert whole[0] == u[0];
    if u[0] != '0' {
      ScannedDigits(u, true);
      assert Digits(whole[1..], true);
    }
  }

  lemma NumberParts(s: string) returns (sign: string, whole: string, tail: string)
    requires IsNumber(s)
    ensures s == sign + (whole + tail) && Sign(sign) && Whole(whole) && IsFraction(tail)
  {
    sign := SignOf(s);
    whole, tail := WholeIsScanned(Unsigned(s));
  }

  lemma NumberIsSpelled(s: string)
    requires IsNumber(s)
    ensures exists sign, whole, fraction, power :: Spells(s, sign, whole, fraction, power)
  {
    var sign, whole, tail := NumberParts(s);
    ScannedIsTailed(tail);
    var fraction, power :| Tailed(tail, fraction, power);
    assert Spells(s, sign, whole, fraction, power);
  }

  lemma SpelledIsNumber(s: string, sign: string, whole: string, fraction: string, power: string)
    requires Spells(s, sign, whole, fraction, power)
    ensures IsNumber(s)
  {
    var tail := fraction + power;
    var u := whole + tail;
    UnsignedDrops(sign, u);
    TailedIsScanned(tail, fraction, power);
    if whole == "0" {
      assert u[1..] == tail;
    } else {
      assert whole == whole[..1] + whole[1..];
      if tail != "" && fraction == "" { PowerStart(power); assert tail[0] == power[0]; }
      assert tail != "" ==> tail[..1][0] == tail[0];
      assert Digits(whole, true);
      DigitRunIsLongest(whole, tail, true);
      assert u[|whole|..] == tail;
    }
  }

  /** The scan recognises exactly the numbers of the grammar. */
  lemma NumberIff(s: string)
    ensures IsNumber(s) <==> exists sign, whole, fraction, power :: Spells(s, sign, whole, fraction, power)
  {
    if IsNumber(s) { NumberIsSpelled(s); }
    if sign, whole, fraction, power :| Spells(s, sign, whole, fraction, power) {
      SpelledIsNumber(s, sign, whole, fraction, power);
    }
  }

  // ----- words --------------------------------------------------------------------------------------------

  /** Letter by letter the same or in upper case, where the long s stands for an s too. */
  ghost predicate Cased(s: string, word: string) {
    |s| == |word| && forall i :: 0 <= i < |s| ==>
      || s[i] == word[i] || (Code(word[i], 97, 122) && s[i] as int == word[i] as int - 32)
      || (word[i] == 's' && s[i] as int == 383)
  }

  lemma CasedIff(s: string, word: string)
    requires forall i :: 0 <= i < |word| ==> Code(word[i], 97, 122) || word[i] == '~'
    ensures FoldedWord(s) == word <==> Cased(s, word)
  {
    if FoldedWord(s) == word {
      forall i | 0 <= i < |s|
        ensures s[i] == word[i] || (Code(word[i], 97, 122) && s[i] as int == word[i] as int - 32)
             || (word[i] == 's' && s[i] as int == 383)
      {
        assert word[i] == Folded(s[i]);
      }
    }
    if Cased(s, word) {
      forall i | 0 <= i < |s| ensures Folded(s[i]) == word[i] { }
      assert FoldedWord(s) == word;
    }
  }

  /** What YAML reads as nothing, as a truth value or as a number. */
  ghost predicate OtherInYaml(s: string) {
    || Cased(s, "null") || Cased(s, "~") || Cased(s, "true") || Cased(s, "false")
    || Cased(s, "yes") || Cased(s, "no") || Cased(s, "on") || Cased(s, "off")
    || exists sign, whole, fraction, power :: Spells(s, sign, whole, fraction, power)
  }

  lemma OtherIff(s: string)
    ensures IsNonString(s) <==> OtherInYaml(s)
  {
    CasedIff(s, "null"); CasedIff(s, "~"); CasedIff(s, "true"); CasedIff(s, "false");
    CasedIff(s, "yes"); CasedIff(s, "no"); CasedIff(s, "on"); CasedIff(s, "off");
    NumberIff(s);
  }

  // ----- plain values ---------------------------------------------------------------------------------------

  /** Text without quotes and white space that is not a comment. */
  predicate IsPlain(v: string) {
    v != [] && v[0] != '#' && forall i :: 0 <= i < |v| ==> !IsSpace(v[i]) && v[i] !in "'\""
  }

  lemma {:induction false} InsidePlain(v: string, rest: string, spaced: bool)
    requires forall i :: 0 <= i < |v| ==> !IsSpace(v[i]) && v[i] !in "'\""
    requires spaced ==> v != [] && v[0] != '#'
    ensures CommentAt(v + rest, spaced, None, false) == |v| + CommentAt(rest, false, None, false)
  {
    if v == [] {
      assert v + rest == rest;
    } else {
      assert (v + rest)[1..] == v[1..] + rest;
      InsidePlain(v[1..], rest, false);
    }
  }

  lemma AfterSpace(inner: string)
    ensures CommentAt(" " + inner, true, None, false) == 1 + CommentAt(inner, true, None, false)
  {
    assert (" " + inner)[1..] == inner;
  }

  lemma PlainComment(v: string, t: Tail)
    requires IsPlain(v) && TailOk(t)
    ensures CommentAt(" " + v + TailText(t), true, None, false) == 1 + |v| + t.pad
  {
    InsidePlain(v, TailText(t), true);
    TailIsComment(t, false);
    AfterSpace(v + TailText(t));
    assert " " + v + TailText(t) == " " + (v + TailText(t));
  }

  lemma PlainAlone(v: string, t: Tail)
    requires IsPlain(v) && TailOk(t)
    ensures Strip(Uncommented(" " + v + TailText(t))) == v
  {
    PlainComment(v, t);
    ValueAlone(v, t);
  }

  /** The characters with which YAML begins something else than a plain string. */
  predicate IsReserved(c: char) {
    c == '[' || c == '{' || c == '|' || c == '>' || c == '&' || c == '*' || c == '!' || c == '@' || c == '`'
  }

  /**
    A plain value is taken as it stands, unless YAML reserves its first character or would read it as a number,
    a truth value or nothing.
   */
  lemma PlainParses(v: string, t: Tail, line: nat, json: Json)
    requires IsPlain(v) && TailOk(t)
    ensures ParseString(" " + v + TailText(t), line, json)
         == if IsReserved(v[0]) then Err(AtLine(UnsupportedValue, line))
            else if OtherInYaml(v) then Err(AtLine(NotAString, line)) else Ok(v)
  {
    PlainAlone(v, t);
    OtherIff(v);
  }

  lemma SingleQuotes(v: string)
    ensures |v| > 1 && v[0] == '\'' && v[|v| - 1] == '\'' <==> exists inner :: v == "'" + inner + "'"
    ensures forall inner :: v == "'" + Doubled(inner) + "'" ==> |v| > 1 && Undoubled(v[1..|v| - 1]) == inner
  {
    if |v| > 1 && v[0] == '\'' && v[|v| - 1] == '\'' { assert v == "'" + v[1..|v| - 1] + "'"; }
    forall inner | v == "'" + Doubled(inner) + "'" ensures Undoubled(v[1..|v| - 1]) == inner {
      assert v[1..|v| - 1] == Doubled(inner);
      UndoubledDoubled(inner);
    }
  }

  /** A value without quotes in front is empty, reserved, not a string to YAML, or read as it stands. */
  lemma UnquotedValuesAre(raw: string, v: string, line: nat, json: Json)
    requires v == Strip(Uncommented(raw)) && (|v| > 0 ==> v[0] != '"' && v[0] != '\'')
    ensures ParseString(raw, line, json)
         == if |v| == 0 then Err(AtLine(EmptyString, line))
            else if IsReserved(v[0]) then Err(AtLine(UnsupportedValue, line))
            else if OtherInYaml(v) then Err(AtLine(NotAString, line)) else Ok(v)
  {
    OtherIff(v);
  }

  /** Behind a single quote the value has to end in one, and doubled quotes stand for one. */
  lemma SingleQuotedValuesAre(raw: string, v: string, line: nat, json: Json)
    requires v == Strip(Uncommented(raw)) && |v| > 0 && v[0] == '\''
    ensures ParseString(raw, line, json).Ok? <==> exists inner :: v == "'" + inner + "'"
    ensures ParseString(raw, line, json).Err? ==> ParseString(raw, line, json).error == AtLine(BadSingleQuotes, line)
    ensures forall inner :: v == "'" + Doubled(inner) + "'" ==> ParseString(raw, line, json) == Ok(inner)
  {
    SingleQuotes(v);
  }

  /** Behind a double quote the value has to be JSON, and is what JSON makes of it. */
  lemma DoubleQuotedValuesAre(raw: string, v: string, line: nat, json: Json)
    requires v == Strip(Uncommented(raw)) && |v| > 0 && v[0] == '"'
    ensures ParseString(raw, line, json).Ok? ==> json(v) == Some(ParseString(raw, line, json).value)
    ensures ParseString(raw, line, json).Err? ==>
              json(v).None? && ParseString(raw, line, json).error == AtLine(BadDoubleQuotes, line)
  {
  }

  // ----- double quotes -----------------------------------------------------------------------------------------

  /** The inside of a double-quoted string: after a backslash any character stands, and else no quotation mark. */
  predicate Escaped(s: string) {
    || s == ""
    || (s[0] == '\\' && |s| > 1 && Escaped(s[2..]))
    || (s[0] != '\\' && s[0] != '"' && Escaped(s[1..]))
  }

  lemma {:induction false} InsideDoubleQuotes(s: string, rest: string, spaced: bool)
    requires Escaped(s)
    ensures CommentAt(s + "\"" + rest, spaced, Some('"'), false) == |s| + 1 + CommentAt(rest, false, None, false)
  {
    var text := s + "\"" + rest;
    if s == "" {
      assert text[1..] == rest;
    } else if s[0] == '\\' {
      InsideDoubleQuotes(s[2..], rest, IsSpace(s[1]));
      assert text[1..][0] == s[1];
      assert text[1..][1..] == s[2..] + "\"" + rest;
    } else {
      InsideDoubleQuotes(s[1..], rest, IsSpace(s[0]));
      assert text[1..] == s[1..] + "\"" + rest;
    }
  }

  lemma AfterQuote(inner: string)
    ensures CommentAt("\"" + inner, true, None, false) == 1 + CommentAt(inner, false, Some('"'), false)
  {
    assert ("\"" + inner)[1..] == inner;
  }

  lemma Enclosed(a: string, q: string, s: string, rest: string)
    ensures a + (q + s + q) + rest == a + (q + (s + q + rest))
  {
  }

  lemma DoubleQuotedComment(s: string, rest: string)
    requires Escaped(s)
    ensures CommentAt(" " + ("\"" + s + "\"") + rest, true, None, false)
         == 1 + (|s| + 2) + CommentAt(rest, false, None, false)
  {
    var inside := s + "\"" + rest;
    InsideDoubleQuotes(s, rest, false);
    AfterQuote(inside);
    AfterSpace("\"" + inside);
    Enclosed(" ", "\"", s, rest);
  }

  /** A double-quoted value reaches the JSON reader whole, whatever hash signs and quotation marks are inside. */
  lemma DoubleQuotedParses(s: string, t: Tail, line: nat, json: Json)
    requires Escaped(s) && TailOk(t)
    ensures var v := "\"" + s + "\"";
      ParseString(" " + v + TailText(t), line, json)
      == if json(v).Some? then Ok(json(v).value) else Err(AtLine(BadDoubleQuotes, line))
  {
    var v := "\"" + s + "\"";
    DoubleQuotedComment(s, TailText(t));
    TailIsComment(t, false);
    assert v[|v| - 1] == '"';
    ValueAlone(v, t);
    var raw := " " + v + TailText(t);
    if json(v).Some? { DoubleQuotedValuesAre(raw, v, line, json); } else { DoubleQuotedValuesAre(raw, v, line, json); }
  }

  // ----- what stands in front ---------------------------------------------------------------------------------

  lemma {:induction false} StripSpace(p: string)
    ensures Strip(RStrip(" " + p)) == Strip(RStrip(p))
  {
    var s := " " + p;
    if p == "" {
      assert s[..0] == "";
    } else if IsSpace(p[|p| - 1]) {
      assert s[..|p|] == " " + p[..|p| - 1];
      StripSpace(p[..|p| - 1]);
    } else {
      assert s[1..] == p;
    }
  }

  /** A space in front of a value changes nothing, and a hash sign in front makes it all a comment. */
  lemma FrontDoesNotMatter(s: string)
    ensures Strip(Uncommented(" " + s)) == Strip(Uncommented(s))
    ensures Uncommented("#" + s) == ""
  {
    AfterSpace(s);
    var n := CommentAt(s, true, None, false);
    assert (" " + s)[..1 + n] == " " + s[..n];
    StripSpace(s[..n]);
  }

  // ----- lines ---------------------------------------------------------------------------------------------

  /** Text is cut at every break, where a carriage return and a line feed are one. */
  lemma LinesAreCut(a: string, c: char, rest: string)
    requires OneLine(a) && IsBreak(c)
    ensures SplitLines(a) == if a == "" then [] else [a]
    ensures SplitLines(a + [c] + rest)
         == if c == '\r' && rest != "" && rest[0] == '\n' then [a] + SplitLines(rest[1..])
            else [a] + SplitLines(rest)
  {
    CutAt(a, c, rest);
    var s := a + [c] + rest;
    if rest != "" { assert s[|a| + 1] == rest[0] && s[|a| + 2..] == rest[1..]; }
  }

  lemma CutAt(a: string, c: char, rest: string)
    requires OneLine(a) && IsBreak(c)
    ensures var s := a + [c] + rest;
      FirstLine(s) == |a| && s[..|a|] == a && s[|a|] == c && s[|a| + 1..] == rest
  {
    var s := a + [c] + rest;
    assert s[|a|] == c;
    assert forall i :: 0 <= i < |a| ==> s[i] == a[i];
  }

  ghost predicate AllSpace(s: string) { forall i :: 0 <= i < |s| ==> IsSpace(s[i]) }

  lemma {:induction false} LStripAll(white: string, text: string)
    requires AllSpace(white) && (text != "" ==> !IsSpace(text[0]))
    ensures LStrip(white + text) == text
  {
    if white == "" {
      assert white + text == text;
    } else {
      assert (white + text)[1..] == white[1..] + text;
      LStripAll(white[1..], text);
    }
  }

  lemma {:induction false} RStripAll(text: string, white: string)
    requires AllSpace(white) && (text != "" ==> !IsSpace(text[|text| - 1]))
    ensures RStrip(text + white) == text
  {
    if white == "" {
      assert text + white == text;
    } else {
      assert (text + white)[..|text| + |white| - 1] == text + white[..|white| - 1];
      RStripAll(text, white[..|white| - 1]);
    }
  }

  /** Stripping leaves what stands between white space. */
  lemma StripIs(front: string, text: string, back: string)
    requires AllSpace(front) && AllSpace(back)
    requires text != "" ==> !IsSpace(text[0]) && !IsSpace(text[|text| - 1])
    ensures Strip(front + (text + back)) == text
  {
    if text == "" {
      assert front + (text + back) == front + back + "";
      LStripAll(front + back, "");
    } else {
      LStripAll(front, text + back);
      RStripAll(text, back);
    }
  }

  lemma {:induction false} NoColonFound(s: string)
    requires ':' !in s
    ensures Colon(s) == |s|
  {
    if s != "" { NoColonFound(s[1..]); }
  }

  /** An entry is split at its first colon, and what is in front of it, stripped, has to be a key. */
  lemma EntriesAre(front: string, rest: string, line: nat)
    requires ':' !in front
    ensures SplitEntry(front, line) == Err(AtLine(NoColon, line))
    ensures SplitEntry(front + ":" + rest, line)
         == if IsKey(Strip(front)) then Ok((Strip(front), rest)) else Err(AtLine(BadKey, line))
  {
    var raw := front + ":" + rest;
    NoColonFound(front);
    ColonAfter(front, rest);
    assert raw[..|front|] == front && raw[|front| + 1..] == rest;
  }

  /** Lines of white space and comments are skipped, but not if a tab stands among the white space in front. */
  lemma SkippedLines(white: string, text: string, st: State, line: nat, json: Json)
    requires AllSpace(white) && (text != "" ==> !IsSpace(text[0]))
    ensures '\t' in white ==> Line(st, white + text, line, json) == Err(AtLine(TabIndentation, line))
    ensures '\t' !in white && (text == "" || text[0] == '#') ==> Line(st, white + text, line, json) == Ok(st)
  {
    LStripAll(white, text);
    assert (white + text)[..|white|] == white;
  }

  /** A line that is not indented closes the open map and records its key, which has to be new. */
  lemma FieldLines(front: string, rest: string, st: State, line: nat, json: Json)
    requires front != "" && !IsSpace(front[0]) && front[0] != '#' && ':' !in front
    ensures Line(st, front, line, json) == Err(AtLine(NoColon, line))
    ensures var r, key, value := Line(st, front + ":" + rest, line, json), Strip(front), ParseString(rest, line, json);
      if !IsKey(key) then r == Err(AtLine(BadKey, line))
      else if key in st.metadata then r == Err(AtLine(DuplicateKey, line))
      else if Strip(Uncommented(rest)) == "" then
        r == Ok(State(st.metadata[key := Table(map[])], st.fieldLines[key := line], Some(key), None))
      else if value.Err? then r == Err(value.error)
      else r == Ok(State(st.metadata[key := Text(value.value)], st.fieldLines[key := line], None, None))
  {
    EntriesAre(front, rest, line);
    var raw := front + ":" + rest;
    assert raw[0] == front[0];
    StripKeepsFirst(raw);
    StripKeepsFirst(front);
  }

  /** A line behind `n` spaces belongs to the open map, where all lines have the same indentation and other keys. */
  lemma IndentedLines(n: nat, text: string, st: State, line: nat, json: Json)
    requires n > 0 && text != "" && !IsSpace(text[0]) && text[0] != '#'
    ensures var r, open, entry := Line(st, Spaces(n) + text, line, json), OpenTable(st), SplitEntry(RStrip(text), line);
      if open.None? then r == Err(AtLine(UnexpectedIndentation, line))
      else if st.indent.Some? && st.indent != Some(n) then r == Err(AtLine(InconsistentIndentation, line))
      else if entry.Err? then r == Err(entry.error)
      else if entry.value.0 in open.value then r == Err(AtLine(DuplicateMapKey, line))
      else match ParseString(entry.value.1, line, json)
           case Err(e) => r == Err(e)
           case Ok(v) =>
             r == Ok(State(st.metadata[st.table.value := Table(open.value[entry.value.0 := v])],
                           st.fieldLines, st.table, Some(n)))
  {
    var raw := Spaces(n) + text;
    LStripSpaces(n, text);
    StripKeepsFirst(text);
    assert raw[..|raw| - |LStrip(raw)|] == Spaces(n);
  }

  /** The open map is the one whose key came last, until a line that is not indented. */
  lemma OpenTables(st: State, key: string, entries: map<string, string>)
    ensures OpenTable(st.(table := None)) == None
    ensures OpenTable(st.(table := Some(key), metadata := st.metadata[key := Table(entries)])) == Some(entries)
  {
  }
}
