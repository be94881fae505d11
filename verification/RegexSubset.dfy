/**
  The output-regex checker of `evals.py` against the way Python reads the same pattern.
  The checker closes a character class at every `]`; Python takes a leading `]` literally.
 */
module RegexSubset {
  import opened Prelude

  /** `str.isdigit` for one character, whose Unicode table is not part of this model. */
  type DigitTest = char -> bool

  datatype Verdict = Accepted | Backreference | ActiveOperator

  predicate IsOperator(c: char) { c in "()*+?{|}" }

  // ----- the checker ------------------------------------------------------------------------------------

  function Check(p: string, inClass: bool, escaped: bool, isDigit: DigitTest): Verdict {
    if p == [] then Accepted
    else if escaped then (if isDigit(p[0]) then Backreference else Check(p[1..], inClass, false, isDigit))
    else if p[0] == '\\' then Check(p[1..], inClass, true, isDigit)
    else if p[0] == '[' then Check(p[1..], true, false, isDigit)
    else if p[0] == ']' then Check(p[1..], false, false, isDigit)
    else if !inClass && IsOperator(p[0]) then ActiveOperator
    else Check(p[1..], inClass, false, isDigit)
  }

  method CheckPattern(pattern: string, isDigit: DigitTest) returns (verdict: Verdict)
    ensures verdict == Check(pattern, false, false, isDigit)
  {
    var inClass, escaped := false, false;
    var i := 0;
    while i < |pattern|
      invariant 0 <= i <= |pattern|
      invariant Check(pattern[i..], inClass, escaped, isDigit) == Check(pattern, false, false, isDigit)
    {
      var c := pattern[i];
      assert pattern[i..][1..] == pattern[i + 1..];
      i := i + 1;
      if escaped {
        if isDigit(c) { return Backreference; }
        escaped := false;
      } else if c == '\\' {
        escaped := true;
      } else if c == '[' {
        inClass := true;
      } else if c == ']' {
        inClass := false;
      } else if !inClass && IsOperator(c) {
        return ActiveOperator;
      }
    }
    verdict := Accepted;
  }

  // ----- how Python reads a pattern -----------------------------------------------------------------------

  datatype Token =
    | Plain(c: char)           // one literal, `.`, `^` or `$`
    | Escape(text: string)     // `\d`, `\.`, `\x41`, ...
    | Class(text: string)      // `[...]`
    | Operator(op: char)       // group, alternation or quantifier
    | Broken                   // `re.compile` refuses the pattern here

  /** A group, an alternative, or a quantifier; a brace may belong to a quantifier. */
  predicate StartsOperator(c: char) {
    || c == '(' || c == ')' || c == '|'
    || c == '*' || c == '+' || c == '?' || c == '{' || c == '}'
  }

  /** The checker's list of characters is exactly that. */
  lemma OperatorsAgree()
    ensures forall c :: IsOperator(c) <==> StartsOperator(c)
  {
    var listed := "()*+?{|}";
    assert listed[0] == '(' && listed[1] == ')' && listed[2] == '*' && listed[3] == '+';
    assert listed[4] == '?' && listed[5] == '{' && listed[6] == '|' && listed[7] == '}';
  }

  /** Length of the rest of a class body, with its closing `]`, once the class has a member. */
  function BodyLength(p: string): Option<nat> {
    if p == [] then None
    else if p[0] == ']' then Some(1)
    else if p[0] == '\\' then (if |p| == 1 then None else Longer(2, BodyLength(p[2..])))
    else Longer(1, BodyLength(p[1..]))
  }

  function Longer(n: nat, rest: Option<nat>): Option<nat> {
    match rest case None => None case Some(m) => Some(n + m)
  }

  /** After `[` or `[^`: the first member is literal even if it is `]`. */
  function MembersLength(p: string): Option<nat> {
    if p == [] then None
    else if p[0] == '\\' then (if |p| == 1 then None else Longer(2, BodyLength(p[2..])))
    else Longer(1, BodyLength(p[1..]))
  }

  function ClassLength(p: string): Option<nat>
    requires p != [] && p[0] == '['
  {
    if |p| > 1 && p[1] == '^' then Longer(2, MembersLength(p[2..])) else Longer(1, MembersLength(p[1..]))
  }

  function CodeDigits(c: char): nat {
    if c == 'x' then 2 else if c == 'u' then 4 else if c == 'U' then 8 else 0
  }

  predicate IsHex(c: char) { '0' <= c <= '9' || 'a' <= c <= 'f' || 'A' <= c <= 'F' }

  /** Length of a name with its closing brace. */
  function NameLength(p: string): (n: Option<nat>)
    ensures n.Some? ==> 0 < n.value <= |p|
  {
    if p == [] then None else if p[0] == '}' then Some(1) else Longer(1, NameLength(p[1..]))
  }

  /** A named character, a code in hexadecimal digits, or one escaped character. */
  function EscapeLength(p: string): (r: Option<nat>)
    requires p != [] && p[0] == '\\'
    ensures r.Some? ==> 2 <= r.value <= |p|
  {
    if |p| == 1 then None
    else if p[1] == 'N' then (if |p| > 2 && p[2] == '{' then Longer(3, NameLength(p[3..])) else None)
    else
      var n := 2 + CodeDigits(p[1]);
      if n <= |p| && forall i :: 2 <= i < n ==> IsHex(p[i]) then Some(n) else None
  }

  lemma {:induction false} BodyFits(p: string)
    ensures BodyLength(p).Some? ==> 1 <= BodyLength(p).value <= |p|
  {
    if p != [] && p[0] != ']' {
      if p[0] == '\\' { if |p| > 1 { BodyFits(p[2..]); } } else { BodyFits(p[1..]); }
    }
  }

  lemma ClassFits(p: string)
    requires p != [] && p[0] == '['
    ensures ClassLength(p).Some? ==> 2 < ClassLength(p).value <= |p|
  {
    var q := if |p| > 1 && p[1] == '^' then p[2..] else p[1..];
    if q != [] {
      if q[0] == '\\' { if |q| > 1 { BodyFits(q[2..]); } } else { BodyFits(q[1..]); }
    }
  }

  function Tokens(p: string): seq<Token> {
    if p == [] then []
    else if p[0] == '\\' then
      (match EscapeLength(p)
       case None => [Broken]
       case Some(n) => [Escape(p[..n])] + Tokens(p[n..]))
    else if p[0] == '[' then
      ClassFits(p);
      (match ClassLength(p)
       case None => [Broken]
       case Some(n) => [Class(p[..n])] + Tokens(p[n..]))
    else if StartsOperator(p[0]) then [Operator(p[0])] + Tokens(p[1..])
    else [Plain(p[0])] + Tokens(p[1..])
  }

  ghost predicate NoOperator(tokens: seq<Token>) {
    forall i :: 0 <= i < |tokens| ==> !tokens[i].Operator?
  }

  // ----- soundness: a simulation ----------------------------------------------------------------------------

  /** Wherever Python is still inside a class, an accepting check goes on to accept what follows it. */
  lemma {:induction false} ThroughBody(p: string, inClass: bool, isDigit: DigitTest)
    requires Check(p, inClass, false, isDigit) == Accepted && BodyLength(p).Some?
    ensures BodyLength(p).value <= |p| && Check(p[BodyLength(p).value..], false, false, isDigit) == Accepted
    decreases |p|
  {
    BodyFits(p);
    var n := BodyLength(p).value;
    if p[0] == ']' {
    } else if p[0] == '\\' {
      assert p[1..][1..] == p[2..] && p[2..][n - 2..] == p[n..];
      ThroughBody(p[2..], inClass, isDigit);
    } else {
      assert p[1..][n - 1..] == p[n..];
      ThroughBody(p[1..], inClass || p[0] == '[', isDigit);
    }
  }

  lemma ThroughMembers(p: string, isDigit: DigitTest)
    requires Check(p, true, false, isDigit) == Accepted && MembersLength(p).Some?
    ensures MembersLength(p).value <= |p| && Check(p[MembersLength(p).value..], false, false, isDigit) == Accepted
  {
    var n := MembersLength(p).value;
    if p[0] == '\\' {
      assert p[1..][1..] == p[2..];
      ThroughBody(p[2..], true, isDigit);
      assert p[2..][n - 2..] == p[n..];
    } else {
      ThroughBody(p[1..], p[0] != ']', isDigit);
      assert p[1..][n - 1..] == p[n..];
    }
  }

  lemma ThroughClass(p: string, isDigit: DigitTest)
    requires p != [] && p[0] == '[' && ClassLength(p).Some?
    requires Check(p, false, false, isDigit) == Accepted
    ensures ClassLength(p).value <= |p| && Check(p[ClassLength(p).value..], false, false, isDigit) == Accepted
  {
    ClassFits(p);
    var n := ClassLength(p).value;
    if |p| > 1 && p[1] == '^' {
      assert p[1..][1..] == p[2..] && p[2..][n - 2..] == p[n..];
      ThroughMembers(p[2..], isDigit);
    } else {
      assert p[1..][n - 1..] == p[n..];
      ThroughMembers(p[1..], isDigit);
    }
  }

  lemma {:induction false} ThroughHex(p: string, n: nat, isDigit: DigitTest)
    requires n <= |p| && forall i :: 0 <= i < n ==> IsHex(p[i])
    ensures Check(p, false, false, isDigit) == Check(p[n..], false, false, isDigit)
  {
    if n > 0 {
      ThroughHex(p[1..], n - 1, isDigit);
      assert p[1..][n - 1..] == p[n..];
    }
  }

  lemma ThroughEscape(p: string, isDigit: DigitTest)
    requires p != [] && p[0] == '\\' && EscapeLength(p).Some? && p[1] != 'N'
    ensures Check(p, false, false, isDigit)
         == if isDigit(p[1]) then Backreference else Check(p[EscapeLength(p).value..], false, false, isDigit)
  {
    var n := EscapeLength(p).value;
    assert p[1..][1..] == p[2..] && p[2..][n - 2..] == p[n..];
    assert forall i :: 0 <= i < n - 2 ==> p[2..][i] == p[i + 2];
    ThroughHex(p[2..], n - 2, isDigit);
  }

  /** The brace of a named character looks like a quantifier to the checker. */
  lemma NamedIsRefused(p: string, isDigit: DigitTest)
    requires p != [] && p[0] == '\\' && EscapeLength(p).Some? && p[1] == 'N'
    ensures Check(p, false, false, isDigit) != Accepted
  {
    assert p[1..][1..] == p[2..] && p[2..][0] == '{';
    assert "()*+?{|}"[5] == '{' && IsOperator('{');
    assert Check(p, false, false, isDigit) == Check(p[1..], false, true, isDigit) && p[1..][0] == 'N';
    assert Check(p[2..], false, false, isDigit) == ActiveOperator;
  }

  /** An accepted pattern has no active group, alternation or quantifier in Python's reading. */
  lemma {:induction false} AcceptedHasNoOperator(p: string, isDigit: DigitTest)
    requires Check(p, false, false, isDigit) == Accepted
    ensures NoOperator(Tokens(p))
    decreases |p|
  {
    if p == [] {
    } else if p[0] == '\\' {
      if EscapeLength(p).Some? {
        if p[1] == 'N' { NamedIsRefused(p, isDigit); }
        ThroughEscape(p, isDigit);
        AcceptedHasNoOperator(p[EscapeLength(p).value..], isDigit);
      }
    } else if p[0] == '[' {
      if ClassLength(p).Some? {
        ClassFits(p);
        ThroughClass(p, isDigit);
        AcceptedHasNoOperator(p[ClassLength(p).value..], isDigit);
      }
    } else {
      AcceptedHasNoOperator(p[1..], isDigit);
    }
  }

  // ----- bounded matches -------------------------------------------------------------------------------------

  /** Which character an item takes, and which items may take none, is left open. */
  datatype Meaning = Meaning(takes: (Token, char) -> bool, empty: Token -> bool)

  /** The items match one after the other; under an operator anything may be matched. */
  ghost predicate Matches(m: Meaning, tokens: seq<Token>, text: string) {
    if tokens == [] then text == []
    else
      match tokens[0]
      case Operator(_) => exists k :: 0 <= k <= |text| && Matches(m, tokens[1..], text[k..])
      case Broken => false
      case item =>
        || (m.empty(item) && Matches(m, tokens[1..], text))
        || (text != [] && m.takes(item, text[0]) && Matches(m, tokens[1..], text[1..]))
  }

  lemma {:induction false} MatchFits(m: Meaning, tokens: seq<Token>, text: string)
    requires NoOperator(tokens) && Matches(m, tokens, text)
    ensures |text| <= |tokens|
  {
    if tokens != [] {
      var item := tokens[0];
      if m.empty(item) && Matches(m, tokens[1..], text) {
        MatchFits(m, tokens[1..], text);
      } else {
        MatchFits(m, tokens[1..], text[1..]);
      }
    }
  }

  lemma {:induction false} TokensFit(p: string)
    ensures |Tokens(p)| <= |p|
    decreases |p|
  {
    if p == [] {
    } else if p[0] == '\\' {
      if EscapeLength(p).Some? { TokensFit(p[EscapeLength(p).value..]); }
    } else if p[0] == '[' {
      ClassFits(p);
      if ClassLength(p).Some? { TokensFit(p[ClassLength(p).value..]); }
    } else {
      TokensFit(p[1..]);
    }
  }

  /** What an accepted pattern matches is never longer than its items, nor than the pattern. */
  lemma AcceptedMatchesAreShort(m: Meaning, p: string, text: string, isDigit: DigitTest)
    requires Check(p, false, false, isDigit) == Accepted && Matches(m, Tokens(p), text)
    ensures |text| <= |Tokens(p)| <= |p|
  {
    AcceptedHasNoOperator(p, isDigit);
    MatchFits(m, Tokens(p), text);
    TokensFit(p);
  }

  // ----- exactness ---------------------------------------------------------------------------------------------

  /** Some escaped character of the pattern is a digit. */
  predicate EscapesDigit(p: string, isDigit: DigitTest) {
    if |p| <= 1 then false
    else if p[0] == '\\' then isDigit(p[1]) || EscapesDigit(p[2..], isDigit)
    else EscapesDigit(p[1..], isDigit)
  }

  predicate LeadingBracket(text: string) {
    |text| > 1 && (text[1] == ']' || (text[1] == '^' && |text| > 2 && text[2] == ']'))
  }

  /** An operator stands before the class, as the checker sees it, opens again or ends. */
  predicate Exposed(p: string) {
    if p == [] then false
    else if p[0] == '\\' then |p| > 1 && Exposed(p[2..])
    else if p[0] == '[' || p[0] == ']' then false
    else IsOperator(p[0]) || Exposed(p[1..])
  }

  /** The class begins with a literal `]`, and an operator follows outside what the checker takes for a class. */
  predicate ExposesOperator(text: string) {
    LeadingBracket(text) && Exposed(if text[1] == ']' then text[2..] else text[3..])
  }

  /** What the checker refuses: operators, and two items that it takes for operators. */
  predicate Refuses(t: Token) {
    match t
    case Operator(_) => true
    case Escape(text) => |text| > 1 && text[1] == 'N'
    case Class(text) => ExposesOperator(text)
    case _ => false
  }

  ghost predicate Compiles(tokens: seq<Token>) { Broken !in tokens }

  ghost predicate NothingRefused(tokens: seq<Token>) { forall t <- tokens :: !Refuses(t) }

  /** Inside a class that both sides see, only an escaped digit stops the checker. */
  lemma {:induction false} BodyIsExact(p: string, isDigit: DigitTest)
    requires BodyLength(p).Some?
    ensures BodyLength(p).value <= |p|
    ensures Check(p, true, false, isDigit) == Accepted <==>
              !EscapesDigit(p[..BodyLength(p).value], isDigit)
              && Check(p[BodyLength(p).value..], false, false, isDigit) == Accepted
    decreases |p|
  {
    BodyFits(p);
    var n := BodyLength(p).value;
    if p[0] == ']' {
      assert |p[..1]| == 1;
    } else if p[0] == '\\' {
      BodyFits(p[2..]);
      assert p[1..][1..] == p[2..] && p[2..][n - 2..] == p[n..] && p[..n][2..] == p[2..][..n - 2];
      BodyIsExact(p[2..], isDigit);
    } else {
      BodyFits(p[1..]);
      assert p[1..][n - 1..] == p[n..] && p[..n][1..] == p[1..][..n - 1];
      BodyIsExact(p[1..], isDigit);
    }
  }

  /** Behind a literal `]` the checker is outside the class until a `[` lets it in again. */
  lemma {:induction false} BracketIsExact(p: string, isDigit: DigitTest)
    requires BodyLength(p).Some?
    ensures BodyLength(p).value <= |p|
    ensures Check(p, false, false, isDigit) == Accepted <==>
              !EscapesDigit(p[..BodyLength(p).value], isDigit) && !Exposed(p[..BodyLength(p).value])
              && Check(p[BodyLength(p).value..], false, false, isDigit) == Accepted
    decreases |p|
  {
    BodyFits(p);
    var n := BodyLength(p).value;
    if p[0] == ']' {
      assert |p[..1]| == 1 && p[..1][0] == ']';
    } else if p[0] == '\\' {
      BodyFits(p[2..]);
      assert p[1..][1..] == p[2..] && p[2..][n - 2..] == p[n..] && p[..n][2..] == p[2..][..n - 2];
      BracketIsExact(p[2..], isDigit);
    } else {
      BodyFits(p[1..]);
      assert p[1..][n - 1..] == p[n..] && p[..n][1..] == p[1..][..n - 1];
      if p[0] == '[' { BodyIsExact(p[1..], isDigit); } else { BracketIsExact(p[1..], isDigit); }
    }
  }

  lemma PlainClassIsExact(p: string, isDigit: DigitTest)
    requires p != [] && p[0] == '[' && ClassLength(p).Some?
    requires ClassLength(p).value <= |p| && !LeadingBracket(p[..ClassLength(p).value])
    ensures Check(p, false, false, isDigit) == Accepted <==>
              !EscapesDigit(p[..ClassLength(p).value], isDigit)
              && Check(p[ClassLength(p).value..], false, false, isDigit) == Accepted
  {
    ClassFits(p);
    var n := ClassLength(p).value;
    var skip := if |p| > 1 && p[1] == '^' then 2 else 1;
    var q := p[skip..];
    assert q[0] == p[skip] == p[..n][skip];
    assert MembersLength(q) == BodyLength(q);
    BodyIsExact(q, isDigit);
    assert q[n - skip..] == p[n..] && q[..n - skip] == p[..n][skip..];
    assert p[1..][1..] == p[2..] && p[..n][1..][1..] == p[..n][2..];
  }

  /** A class that begins with `[]`, read behind its `[`. */
  lemma AfterBracketIsExact(q: string, isDigit: DigitTest)
    requires q != [] && q[0] == ']' && MembersLength(q).Some?
    ensures MembersLength(q).value <= |q|
    ensures Check(q, true, false, isDigit) == Accepted <==>
              !EscapesDigit(q[..MembersLength(q).value], isDigit) && !Exposed(q[1..MembersLength(q).value])
              && Check(q[MembersLength(q).value..], false, false, isDigit) == Accepted
  {
    var n := MembersLength(q).value;
    BracketIsExact(q[1..], isDigit);
    assert q[1..][n - 1..] == q[n..] && q[1..][..n - 1] == q[..n][1..] == q[1..n];
    SkipPlain(q[..n], isDigit);
  }

  lemma BracketClassIsExact(p: string, isDigit: DigitTest)
    requires p != [] && p[0] == '[' && ClassLength(p).Some?
    requires ClassLength(p).value <= |p| && LeadingBracket(p[..ClassLength(p).value])
    ensures Check(p, false, false, isDigit) == Accepted <==>
              !EscapesDigit(p[..ClassLength(p).value], isDigit) && !ExposesOperator(p[..ClassLength(p).value])
              && Check(p[ClassLength(p).value..], false, false, isDigit) == Accepted
  {
    ClassFits(p);
    var n := ClassLength(p).value;
    var text := p[..n];
    SkipPlain(text, isDigit);
    if |p| > 1 && p[1] == '^' {
      var q := p[2..];
      assert text[2] == p[2] == q[0];
      AfterBracketIsExact(q, isDigit);
      assert p[1..][1..] == q && text[1..][1..] == q[..n - 2] && q[n - 2..] == p[n..] && text[3..] == q[1..n - 2];
      SkipPlain(text[1..], isDigit);
    } else {
      var q := p[1..];
      assert text[1] == p[1] == q[0];
      AfterBracketIsExact(q, isDigit);
      assert text[1..] == q[..n - 1] && q[n - 1..] == p[n..] && text[2..] == q[1..n - 1];
    }
  }

  lemma ClassIsExact(p: string, isDigit: DigitTest)
    requires p != [] && p[0] == '[' && ClassLength(p).Some? && ClassLength(p).value <= |p|
    ensures Check(p, false, false, isDigit) == Accepted <==>
              !EscapesDigit(p[..ClassLength(p).value], isDigit) && !ExposesOperator(p[..ClassLength(p).value])
              && Check(p[ClassLength(p).value..], false, false, isDigit) == Accepted
  {
    if LeadingBracket(p[..ClassLength(p).value]) {
      BracketClassIsExact(p, isDigit);
    } else {
      PlainClassIsExact(p, isDigit);
    }
  }

  /** The pattern may be cut after `n` characters without cutting an escape in two. */
  ghost predicate SplitsAt(p: string, n: nat, isDigit: DigitTest) {
    && n <= |p|
    && (EscapesDigit(p, isDigit) <==> EscapesDigit(p[..n], isDigit) || EscapesDigit(p[n..], isDigit))
  }

  lemma SkipPlain(p: string, isDigit: DigitTest)
    requires p != [] && p[0] != '\\'
    ensures EscapesDigit(p, isDigit) <==> EscapesDigit(p[1..], isDigit)
  {
  }

  lemma SplitAfterPlain(p: string, n: nat, isDigit: DigitTest)
    requires 1 <= n <= |p| && p[0] != '\\' && SplitsAt(p[1..], n - 1, isDigit)
    ensures SplitsAt(p, n, isDigit)
  {
    assert p[1..][n - 1..] == p[n..] && p[..n][1..] == p[1..][..n - 1];
    SkipPlain(p, isDigit);
    SkipPlain(p[..n], isDigit);
  }

  lemma SplitAfterEscape(p: string, n: nat, isDigit: DigitTest)
    requires 2 <= n <= |p| && p[0] == '\\' && SplitsAt(p[2..], n - 2, isDigit)
    ensures SplitsAt(p, n, isDigit)
  {
    assert p[2..][n - 2..] == p[n..] && p[..n][2..] == p[2..][..n - 2];
  }

  lemma {:induction false} HexSplits(p: string, n: nat, isDigit: DigitTest)
    requires n <= |p| && forall i :: 0 <= i < n ==> p[i] != '\\'
    ensures SplitsAt(p, n, isDigit)
  {
    if n > 0 {
      HexSplits(p[1..], n - 1, isDigit);
      SplitAfterPlain(p, n, isDigit);
    } else {
      assert p[..0] == [] && p[0..] == p;
    }
  }

  lemma {:induction false} BodySplits(p: string, isDigit: DigitTest)
    requires BodyLength(p).Some?
    ensures SplitsAt(p, BodyLength(p).value, isDigit)
    decreases |p|
  {
    BodyFits(p);
    if p[0] == ']' {
      HexSplits(p, 1, isDigit);
    } else if p[0] == '\\' {
      BodySplits(p[2..], isDigit);
      SplitAfterEscape(p, BodyLength(p).value, isDigit);
    } else {
      BodySplits(p[1..], isDigit);
      SplitAfterPlain(p, BodyLength(p).value, isDigit);
    }
  }

  lemma MembersSplit(p: string, isDigit: DigitTest)
    requires MembersLength(p).Some?
    ensures SplitsAt(p, MembersLength(p).value, isDigit)
  {
    if p[0] == '\\' {
      BodySplits(p[2..], isDigit);
      SplitAfterEscape(p, MembersLength(p).value, isDigit);
    } else {
      BodySplits(p[1..], isDigit);
      SplitAfterPlain(p, MembersLength(p).value, isDigit);
    }
  }

  lemma ClassSplits(p: string, isDigit: DigitTest)
    requires p != [] && p[0] == '[' && ClassLength(p).Some?
    ensures SplitsAt(p, ClassLength(p).value, isDigit)
  {
    var n := ClassLength(p).value;
    if |p| > 1 && p[1] == '^' {
      assert p[1..][1..] == p[2..];
      MembersSplit(p[2..], isDigit);
      SplitAfterPlain(p[1..], n - 1, isDigit);
    } else {
      MembersSplit(p[1..], isDigit);
    }
    SplitAfterPlain(p, n, isDigit);
  }

  lemma EscapeSplits(p: string, isDigit: DigitTest)
    requires p != [] && p[0] == '\\' && EscapeLength(p).Some? && p[1] != 'N'
    ensures SplitsAt(p, EscapeLength(p).value, isDigit)
    ensures EscapesDigit(p[..EscapeLength(p).value], isDigit) <==> isDigit(p[1])
  {
    var n := EscapeLength(p).value;
    assert forall i :: 0 <= i < n - 2 ==> p[2..][i] == p[i + 2];
    HexSplits(p[2..], n - 2, isDigit);
    SplitAfterEscape(p, n, isDigit);
    NoBackslashNoEscape(p[..n][2..], isDigit);
  }

  lemma {:induction false} NoBackslashNoEscape(p: string, isDigit: DigitTest)
    requires forall i :: 0 <= i < |p| ==> p[i] != '\\'
    ensures !EscapesDigit(p, isDigit)
  {
    if |p| > 1 { NoBackslashNoEscape(p[1..], isDigit); }
  }

  lemma FirstToken(first: Token, rest: seq<Token>)
    ensures Compiles([first] + rest) <==> first != Broken && Compiles(rest)
    ensures NothingRefused([first] + rest) <==> !Refuses(first) && NothingRefused(rest)
  {
    var all := [first] + rest;
    assert all[0] == first && all[1..] == rest;
    assert forall t :: t in all <==> t == first || t in rest;
  }

  /**
    The checker, exactly: it accepts a pattern if and only if no escaped character is a digit and no item is
    an operator, a named character, or a class with a leading `]` that leaves an operator exposed.
   */
  lemma {:induction false} CheckerIsExact(p: string, isDigit: DigitTest)
    requires Compiles(Tokens(p))
    ensures Check(p, false, false, isDigit) == Accepted <==>
              NothingRefused(Tokens(p)) && !EscapesDigit(p, isDigit)
    decreases |p|
  {
    if p == [] {
    } else if p[0] == '\\' {
      assert Tokens(p)[0] != Broken;
      var n := EscapeLength(p).value;
      FirstToken(Escape(p[..n]), Tokens(p[n..]));
      if p[1] == 'N' {
        NamedIsRefused(p, isDigit);
      } else {
        CheckerIsExact(p[n..], isDigit);
        EscapeSplits(p, isDigit);
        ThroughEscape(p, isDigit);
      }
    } else if p[0] == '[' {
      ClassFits(p);
      assert Tokens(p)[0] != Broken;
      var n := ClassLength(p).value;
      FirstToken(Class(p[..n]), Tokens(p[n..]));
      CheckerIsExact(p[n..], isDigit);
      ClassSplits(p, isDigit);
      ClassIsExact(p, isDigit);
    } else {
      FirstToken(if IsOperator(p[0]) then Operator(p[0]) else Plain(p[0]), Tokens(p[1..]));
      SkipPlain(p, isDigit);
      CheckerIsExact(p[1..], isDigit);
    }
  }

  /** No class begins with a literal `]`, and no character is named. */
  ghost predicate PlainItems(tokens: seq<Token>) {
    forall t <- tokens :: (t.Class? ==> !LeadingBracket(t.text)) && (t.Escape? ==> |t.text| > 1 && t.text[1] != 'N')
  }

  /** Where both sides see the same items, acceptance means: no active operator and no escaped digit. */
  lemma CheckerAgreesOnPlainItems(p: string, isDigit: DigitTest)
    requires Compiles(Tokens(p)) && PlainItems(Tokens(p))
    ensures Check(p, false, false, isDigit) == Accepted <==> NoOperator(Tokens(p)) && !EscapesDigit(p, isDigit)
  {
    CheckerIsExact(p, isDigit);
    assert NothingRefused(Tokens(p)) <==> NoOperator(Tokens(p)) by {
      if NoOperator(Tokens(p)) {
        forall t | t in Tokens(p) ensures !Refuses(t) {
          var i :| 0 <= i < |Tokens(p)| && Tokens(p)[i] == t;
        }
      }
      if NothingRefused(Tokens(p)) {
        forall i | 0 <= i < |Tokens(p)| ensures !Tokens(p)[i].Operator? { assert Tokens(p)[i] in Tokens(p); }
      }
    }
  }

  /** Python takes the star of this class literally; the checker refuses it. */
  lemma LeadingBracketIsOverRejected(isDigit: DigitTest)
    ensures Check("[]*]", false, false, isDigit) == ActiveOperator
    ensures Tokens("[]*]") == [Class("[]*]")]
  {
    var p := "[]*]";
    assert p[1..] == "]*]" && p[1..][1..] == "*]" && p[1..][1..][1..] == "]";
    assert BodyLength("]") == Some(1) && BodyLength("*]") == Some(2);
    assert MembersLength("]*]") == Some(3) && ClassLength(p) == Some(4);
    assert p[..4] == p && p[4..] == "";
  }
}
