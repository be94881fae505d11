/** What the inventory of each platform promises, for every list of candidates. */
module DiscoveryTheorems {
  import opened Prelude
  import opened Discovery

  // ----- which copies to count -----------------------------------------------------------------------------

  /** What no pass may change about a copy, up to its selector. */
  predicate Describes(c: Copy, candidate: Candidate) {
    && c.source == candidate.source && c.path == candidate.path && c.precedence == candidate.precedence
    && c.enabled == candidate.enabled && c.target == candidate.target
  }

  predicate Chosen(c: Copy, target: string) {
    c.target == Some(target) && (c.status == Active || c.status == Ambiguous)
  }

  predicate ActiveAs(c: Copy, name: string) { c.status == Active && c.selector == name }

  function Describing(like: Candidate): Copy -> bool { (c: Copy) => Describes(c, like) }

  function Choosing(target: string): Copy -> bool { (c: Copy) => Chosen(c, target) }

  function Naming(name: string): Copy -> bool { (c: Copy) => Selectable(c, name) }

  function Answering(name: string): Copy -> bool { (c: Copy) => ActiveAs(c, name) }

  function MarkedCopy(): Copy -> bool { (c: Copy) => c.status == Ambiguous }

  lemma DeduplicatedAt(candidates: seq<Candidate>, i: nat)
    requires i < |candidates|
    ensures var c := Deduplicated(candidates)[i];
      && Describes(c, candidates[i]) && c.selector == candidates[i].selector && c.status != Ambiguous
      && (c.status == Active ==> candidates[i].readable && candidates[i].enabled && candidates[i].target.Some?)
      && (c.status == Active <==> CopyOf(candidates[i]).status == Active && !Loses(CopiesOf(candidates), ByTarget, i))
  {
    var demote: Copy -> Copy := Aliased;
    assert demote(CopyOf(candidates[i])) == Aliased(CopyOf(candidates[i]));
  }

  lemma ShadowedAt(copies: seq<Copy>, i: nat)
    requires i < |copies|
    ensures Demoted(copies, BySelector, Outranked)[i]
         == if Loses(copies, BySelector, i) then copies[i].(status := Shadowed) else copies[i]
    ensures Loses(copies, BySelector, i) ==> copies[i].status == Active
  {
    var demote: Copy -> Copy := Outranked;
    assert demote(copies[i]) == Outranked(copies[i]);
  }

  lemma FinalAt(candidates: seq<Candidate>, i: nat)
    requires i < |candidates|
    ensures var before := Deduplicated(candidates)[i];
      var codex, claude := CodexCopies(candidates)[i], ClaudeCopies(candidates)[i];
      && Describes(codex, candidates[i]) && Describes(claude, candidates[i])
      && codex.selector == candidates[i].selector && claude.status != Ambiguous
      && (before.status == Active <==> codex.status == Active || codex.status == Ambiguous)
      && (claude.status == Active ==> before.status == Active)
  {
    DeduplicatedAt(candidates, i);
    ShadowedAt(AllRequalified(Deduplicated(candidates)), i);
  }

  lemma Contenders(candidates: seq<Candidate>)
    ensures var before := Deduplicated(candidates); var after := AllRequalified(before);
      forall i :: 0 <= i < |candidates| ==>
        && before[i].source == after[i].source == candidates[i].source
        && before[i].selector == candidates[i].selector
        && before[i].status == after[i].status != Ambiguous
  {
    forall i | 0 <= i < |candidates|
      ensures Describes(Deduplicated(candidates)[i], candidates[i]) && Deduplicated(candidates)[i].status != Ambiguous
      ensures Deduplicated(candidates)[i].selector == candidates[i].selector
    {
      DeduplicatedAt(candidates, i);
    }
  }

  // ----- counting copies ---------------------------------------------------------------------------------

  function Count(s: seq<Copy>, p: Copy -> bool): nat {
    if s == [] then 0 else Count(s[..|s| - 1], p) + if p(s[|s| - 1]) then 1 else 0
  }

  lemma {:induction false} CountAppend(a: seq<Copy>, b: seq<Copy>, p: Copy -> bool)
    ensures Count(a + b, p) == Count(a, p) + Count(b, p)
  {
    if b == [] {
      assert a + b == a;
    } else {
      assert (a + b)[..|a + b| - 1] == a + b[..|b| - 1];
      CountAppend(a, b[..|b| - 1], p);
    }
  }

  lemma {:induction false} CountSame(a: seq<Copy>, p: Copy -> bool, b: seq<Copy>, q: Copy -> bool)
    requires |a| == |b| && forall i :: 0 <= i < |a| ==> (p(a[i]) <==> q(b[i]))
    ensures Count(a, p) == Count(b, q)
  {
    if a != [] { CountSame(a[..|a| - 1], p, b[..|b| - 1], q); }
  }

  lemma {:induction false} CountAtLeastOne(s: seq<Copy>, p: Copy -> bool)
    ensures Count(s, p) >= 1 <==> exists i :: 0 <= i < |s| && p(s[i])
  {
    if s != [] { CountAtLeastOne(s[..|s| - 1], p); }
  }

  lemma {:induction false} CountAtLeastTwo(s: seq<Copy>, p: Copy -> bool)
    ensures Count(s, p) >= 2 <==> exists i, j :: 0 <= i < j < |s| && p(s[i]) && p(s[j])
  {
    if s != [] {
      var n := |s| - 1;
      CountAtLeastTwo(s[..n], p);
      CountAtLeastOne(s[..n], p);
      if exists i, j :: 0 <= i < j < |s| && p(s[i]) && p(s[j]) {
        var i, j :| 0 <= i < j < |s| && p(s[i]) && p(s[j]);
        assert s[..n][i] == s[i];
        if j < n { assert s[..n][j] == s[j]; }
      }
    }
  }

  lemma {:induction false} InsertedCount(c: Copy, s: seq<Copy>, p: Copy -> bool)
    ensures Count(Inserted(c, s), p) == Count(s, p) + if p(c) then 1 else 0
  {
    if s == [] || SortsBefore(c, s[0]) {
      CountAppend([c], s, p);
    } else {
      InsertedCount(c, s[1..], p);
      CountAppend([s[0]], Inserted(c, s[1..]), p);
      CountAppend([s[0]], s[1..], p);
      assert s == [s[0]] + s[1..];
    }
  }

  /** Sorting changes no count. */
  lemma {:induction false} SortedCount(s: seq<Copy>, p: Copy -> bool)
    ensures Count(Sorted(s), p) == Count(s, p)
  {
    if s != [] {
      SortedCount(s[..|s| - 1], p);
      InsertedCount(s[|s| - 1], Sorted(s[..|s| - 1]), p);
    }
  }

  lemma {:induction false} SelectableCount(s: seq<Copy>, name: string)
    ensures |SelectableCopies(s, name)| == Count(s, Naming(name))
    ensures forall c <- SelectableCopies(s, name) :: c in s && Selectable(c, name)
  {
    if s != [] {
      SelectableCount(s[1..], name);
      CountAppend([s[0]], s[1..], Naming(name));
      assert s == [s[0]] + s[1..];
    }
  }

  lemma {:induction false} SortedMembers(s: seq<Copy>)
    ensures |Sorted(s)| == |s| && forall c :: c in Sorted(s) <==> c in s
  {
    if s != [] {
      SortedMembers(s[..|s| - 1]);
      InsertedMembers(s[|s| - 1], Sorted(s[..|s| - 1]));
      assert s == s[..|s| - 1] + [s[|s| - 1]];
    }
  }

  lemma {:induction false} InsertedMembers(c: Copy, s: seq<Copy>)
    ensures |Inserted(c, s)| == |s| + 1 && forall d :: d in Inserted(c, s) <==> d == c || d in s
  {
    if s != [] && !SortsBefore(c, s[0]) { InsertedMembers(c, s[1..]); }
  }

  // ----- one entry per candidate --------------------------------------------------------------------------

  predicate SameEntry(a: Candidate, b: Candidate) {
    a.(selector := "", readable := true) == b.(selector := "", readable := true)
  }

  function CandidateCount(s: seq<Candidate>, like: Candidate): nat {
    if s == [] then 0 else CandidateCount(s[..|s| - 1], like) + if SameEntry(s[|s| - 1], like) then 1 else 0
  }

  lemma {:induction false} CountDescribed(copies: seq<Copy>, candidates: seq<Candidate>, like: Candidate)
    requires |copies| == |candidates| && forall i :: 0 <= i < |copies| ==> Describes(copies[i], candidates[i])
    ensures Count(copies, Describing(like)) == CandidateCount(candidates, like)
  {
    if copies != [] { CountDescribed(copies[..|copies| - 1], candidates[..|candidates| - 1], like); }
  }

  /** Both inventories hold every candidate exactly as often as it was found, and nothing else. */
  lemma OneEntryPerCandidate(candidates: seq<Candidate>, like: Candidate)
    ensures |Sorted(CodexCopies(candidates))| == |Sorted(ClaudeCopies(candidates))| == |candidates|
    ensures Count(Sorted(CodexCopies(candidates)), Describing(like)) == CandidateCount(candidates, like)
    ensures Count(Sorted(ClaudeCopies(candidates)), Describing(like)) == CandidateCount(candidates, like)
  {
    var codex, claude := CodexCopies(candidates), ClaudeCopies(candidates);
    SortedMembers(codex);
    SortedMembers(claude);
    SortedCount(codex, Describing(like));
    SortedCount(claude, Describing(like));
    forall i | 0 <= i < |candidates| ensures Describes(codex[i], candidates[i]) && Describes(claude[i], candidates[i]) {
      FinalAt(candidates, i);
    }
    CountDescribed(codex, candidates, like);
    CountDescribed(claude, candidates, like);
  }

  // ----- resolved targets ----------------------------------------------------------------------------------

  predicate Alias(candidates: seq<Candidate>, target: string, i: nat) {
    i < |candidates| && candidates[i].target == Some(target) && candidates[i].readable
  }

  /** Among the readable aliases of a target, the first of least precedence. */
  ghost predicate IsKeeper(candidates: seq<Candidate>, target: string, k: nat) {
    && Alias(candidates, target, k)
    && forall i: nat :: Alias(candidates, target, i) ==>
         i == k || candidates[k].precedence < candidates[i].precedence
         || (candidates[k].precedence == candidates[i].precedence && k < i)
  }

  lemma {:induction false} SomeAliasIsKeeper(candidates: seq<Candidate>, target: string, n: nat)
    requires n <= |candidates|
    ensures (exists i: nat :: i < n && Alias(candidates[..n], target, i)) ==>
              exists k: nat :: IsKeeper(candidates[..n], target, k)
  {
    if n > 0 {
      SomeAliasIsKeeper(candidates, target, n - 1);
      var shorter, longer := candidates[..n - 1], candidates[..n];
      assert forall i: nat :: i < n - 1 ==> shorter[i] == longer[i];
      assert forall i: nat :: i < n - 1 ==> (Alias(longer, target, i) <==> Alias(shorter, target, i));
      if k: nat :| IsKeeper(shorter, target, k) {
        if Alias(longer, target, n - 1) && longer[n - 1].precedence < longer[k].precedence {
          assert IsKeeper(longer, target, n - 1);
        } else {
          assert IsKeeper(longer, target, k);
        }
      } else if Alias(longer, target, n - 1) {
        assert IsKeeper(longer, target, n - 1);
      }
    }
  }

  lemma KeeperStays(candidates: seq<Candidate>, target: string, k: nat)
    requires IsKeeper(candidates, target, k)
    ensures !Loses(CopiesOf(candidates), ByTarget, k)
  {
    var copies := CopiesOf(candidates);
    forall j | 0 <= j < |copies| && ByTarget(copies[j]) == ByTarget(copies[k]) ensures !Beats(copies, j, k) {
      assert Alias(candidates, target, j);
    }
  }

  lemma DeduplicatedStatus(candidates: seq<Candidate>, target: string, k: nat, i: nat)
    requires IsKeeper(candidates, target, k) && i < |candidates|
    ensures Deduplicated(candidates)[i].target == candidates[i].target
    ensures candidates[i].target == Some(target) ==>
              (Deduplicated(candidates)[i].status == Active <==> i == k && candidates[k].enabled)
  {
    var copies := CopiesOf(candidates);
    DeduplicatedAt(candidates, i);
    if Alias(candidates, target, i) {
      if i != k {
        assert ByTarget(copies[k]) == ByTarget(copies[i]) && Beats(copies, k, i);
      } else {
        KeeperStays(candidates, target, k);
      }
    }
  }

  /** `w` has the name and comes before every other active copy with that name. */
  ghost predicate Wins(copies: seq<Copy>, name: string, w: nat) {
    && w < |copies| && ActiveAs(copies[w], name)
    && forall i :: 0 <= i < |copies| && i != w && ActiveAs(copies[i], name) ==> Beats(copies, w, i)
  }

  lemma OnlyOne(copies: seq<Copy>, p: Copy -> bool, k: nat, holds: bool)
    requires k < |copies| && forall i :: 0 <= i < |copies| ==> (p(copies[i]) <==> i == k && holds)
    ensures Count(copies, p) == if holds then 1 else 0
  {
    assert holds ==> p(copies[k]);
    CountAtLeastOne(copies, p);
    CountAtLeastTwo(copies, p);
  }

  /** A contender stays active exactly if it wins its selector. */
  lemma StaysActiveIffWins(contenders: seq<Copy>, k: nat)
    requires k < |contenders| && contenders[k].status != Ambiguous
    ensures Demoted(contenders, BySelector, Outranked)[k].status == Active <==>
              Wins(contenders, contenders[k].selector, k)
    ensures Demoted(contenders, BySelector, Outranked)[k].status != Ambiguous
  {
    var name := contenders[k].selector;
    ShadowedAt(contenders, k);
    if contenders[k].status == Active {
      forall i | 0 <= i < |contenders|
        ensures ActiveAs(contenders[i], name) <==> BySelector(contenders[i]) == BySelector(contenders[k])
      {
      }
    }
  }

  /**
    On Codex a target is active or ambiguous exactly once if its keeper is enabled, and not at all otherwise: an
    alias that is enabled does not help when the alias of least precedence is disabled.  On Claude the keeper
    must also win its selector.
   */
  lemma TargetLoadsIffKeeperIsEnabled(candidates: seq<Candidate>, target: string, k: nat)
    requires IsKeeper(candidates, target, k)
    ensures Count(Sorted(CodexCopies(candidates)), Choosing(target)) == if candidates[k].enabled then 1 else 0
    ensures var contenders := AllRequalified(Deduplicated(candidates));
      Count(Sorted(ClaudeCopies(candidates)), Choosing(target))
      == if candidates[k].enabled && Wins(contenders, contenders[k].selector, k) then 1 else 0
  {
    var codex, claude, p := CodexCopies(candidates), ClaudeCopies(candidates), Choosing(target);
    var contenders := AllRequalified(Deduplicated(candidates));
    var wins := candidates[k].enabled && Wins(contenders, contenders[k].selector, k);
    SortedCount(codex, p);
    SortedCount(claude, p);
    Contenders(candidates);
    forall i | 0 <= i < |candidates|
      ensures p(codex[i]) <==> i == k && candidates[k].enabled
      ensures p(claude[i]) <==> i == k && wins
    {
      DeduplicatedStatus(candidates, target, k, i);
      FinalAt(candidates, i);
      StaysActiveIffWins(contenders, i);
    }
    OnlyOne(codex, p, k, candidates[k].enabled);
    OnlyOne(claude, p, k, wins);
  }

  lemma NoAliasNoTarget(candidates: seq<Candidate>, target: string)
    requires forall i: nat :: !Alias(candidates, target, i)
    ensures Count(Sorted(CodexCopies(candidates)), Choosing(target)) == 0
    ensures Count(Sorted(ClaudeCopies(candidates)), Choosing(target)) == 0
  {
    var codex, claude, p := CodexCopies(candidates), ClaudeCopies(candidates), Choosing(target);
    SortedCount(codex, p);
    SortedCount(claude, p);
    forall i | 0 <= i < |candidates| ensures !p(codex[i]) && !p(claude[i]) {
      assert !Alias(candidates, target, i);
      FinalAt(candidates, i);
      DeduplicatedAt(candidates, i);
    }
    CountAtLeastOne(codex, p);
    CountAtLeastOne(claude, p);
  }

  /** No two active or ambiguous copies of an inventory have the same resolved target. */
  lemma NoSharedTarget(candidates: seq<Candidate>, target: string)
    ensures Count(Sorted(CodexCopies(candidates)), Choosing(target)) <= 1
    ensures Count(Sorted(ClaudeCopies(candidates)), Choosing(target)) <= 1
  {
    assert candidates[..|candidates|] == candidates;
    SomeAliasIsKeeper(candidates, target, |candidates|);
    if k: nat :| IsKeeper(candidates, target, k) {
      TargetLoadsIffKeeperIsEnabled(candidates, target, k);
    } else {
      assert forall i: nat :: Alias(candidates, target, i) ==> i < |candidates|;
      NoAliasNoTarget(candidates, target);
    }
  }

  /** Of two candidates the one of less precedence is the keeper of whatever it resolves to. */
  lemma FirstOfTwo(candidates: seq<Candidate>, target: string, k: nat)
    requires |candidates| == 2 && Alias(candidates, target, k)
    requires Alias(candidates, target, 1 - k) ==> candidates[k].precedence < candidates[1 - k].precedence
    ensures IsKeeper(candidates, target, k)
  {
    forall i: nat | Alias(candidates, target, i) && i != k ensures candidates[k].precedence < candidates[i].precedence {
      assert i == 1 - k;
    }
  }

  /** Two aliases, the first disabled: the target is not loaded although the second is enabled. */
  lemma DisabledAliasHidesEnabledOne(target: string)
    ensures var candidates := [Candidate(Ordinary, "/a/s", "s", 0, false, Some(target), true),
                               Candidate(Ordinary, "/b/s", "s", 1, true, Some(target), true)];
      && Resolve(Sorted(CodexCopies(candidates)), "s") == NotFound
      && Resolve(Sorted(ClaudeCopies(candidates)), "s") == NotFound
  {
    var candidates := [Candidate(Ordinary, "/a/s", "s", 0, false, Some(target), true),
                       Candidate(Ordinary, "/b/s", "s", 1, true, Some(target), true)];
    var codex, claude, p := CodexCopies(candidates), ClaudeCopies(candidates), Naming("s");
    forall i | 0 <= i < 2 ensures !p(codex[i]) && !p(claude[i]) {
      FirstOfTwo(candidates, target, 0);
      DeduplicatedStatus(candidates, target, 0, i);
      FinalAt(candidates, i);
    }
    NoneSelectable(codex, "s");
    NoneSelectable(claude, "s");
  }

  lemma NoneSelectable(copies: seq<Copy>, name: string)
    requires forall i :: 0 <= i < |copies| ==> !Selectable(copies[i], name)
    ensures Resolve(Sorted(copies), name) == NotFound
  {
    SelectableCount(Sorted(copies), name);
    SortedCount(copies, Naming(name));
    CountAtLeastOne(copies, Naming(name));
  }

  // ----- Codex ----------------------------------------------------------------------------------------------

  lemma CodexSelectable(candidates: seq<Candidate>, name: string, i: nat)
    requires i < |candidates|
    ensures ActiveAs(Deduplicated(candidates)[i], name) <==> Selectable(CodexCopies(candidates)[i], name)
    ensures ActiveAs(Deduplicated(candidates)[i], name) ==>
              if Count(Deduplicated(candidates), Answering(name)) >= 2
              then CodexCopies(candidates)[i].status == Ambiguous
              else CodexCopies(candidates)[i] == Deduplicated(candidates)[i]
  {
    DeduplicatedAt(candidates, i);
    FinalAt(candidates, i);
    if ActiveAs(Deduplicated(candidates)[i], name) { AmbiguousIffTwo(Deduplicated(candidates), name, i); }
  }

  /** Codex never chooses: one active copy of a name is found, several are all reported as ambiguous. */
  lemma CodexResolves(candidates: seq<Candidate>, name: string)
    ensures var before, found := Deduplicated(candidates), Resolve(Sorted(CodexCopies(candidates)), name);
      var n := Count(before, Answering(name));
      && (n == 0 ==> found == NotFound)
      && (n == 1 ==> found.Found? && found.copy in before && ActiveAs(found.copy, name))
      && (n >= 2 ==> found.IsAmbiguous? && |found.copies| == n
                     && forall c <- found.copies :: c.selector == name && c.status == Ambiguous)
  {
    var before, after := Deduplicated(candidates), CodexCopies(candidates);
    var n, chosen := Count(before, Answering(name)), SelectableCopies(Sorted(after), name);
    forall i | 0 <= i < |before| ensures Answering(name)(before[i]) <==> Naming(name)(after[i]) {
      CodexSelectable(candidates, name, i);
    }
    CountSame(before, Answering(name), after, Naming(name));
    SortedCount(after, Naming(name));
    SelectableCount(Sorted(after), name);
    SortedMembers(after);
    assert |chosen| == n;
    forall c <- chosen
      ensures if n >= 2 then c.selector == name && c.status == Ambiguous else c in before && ActiveAs(c, name)
    {
      var i: nat :| i < |after| && after[i] == c;
      CodexSelectable(candidates, name, i);
    }
    if n == 1 { assert chosen[0] in chosen; }
  }

  lemma AmbiguousIffTwo(copies: seq<Copy>, name: string, i: nat)
    requires i < |copies| && ActiveAs(copies[i], name)
    ensures HasTwin(copies, BySelector, i) <==> Count(copies, Answering(name)) >= 2
  {
    var p := Answering(name);
    CountAtLeastTwo(copies, p);
    if HasTwin(copies, BySelector, i) {
      var j :| 0 <= j < |copies| && j != i && BySelector(copies[j]) == BySelector(copies[i]);
      assert p(copies[i]) && p(copies[j]);
    }
    if Count(copies, p) >= 2 {
      var a, b :| 0 <= a < b < |copies| && p(copies[a]) && p(copies[b]);
      var j := if a == i then b else a;
      assert BySelector(copies[j]) == BySelector(copies[i]);
    }
  }

  // ----- Claude ---------------------------------------------------------------------------------------------

  lemma {:induction false} SomeCopyWins(copies: seq<Copy>, name: string)
    ensures (exists i :: 0 <= i < |copies| && ActiveAs(copies[i], name)) ==> exists w: nat :: Wins(copies, name, w)
  {
    if copies != [] {
      var n := |copies| - 1;
      var front := copies[..n];
      SomeCopyWins(front, name);
      if w: nat :| Wins(front, name, w) {
        var better := ActiveAs(copies[n], name) && copies[n].precedence < copies[w].precedence;
        assert Wins(copies, name, if better then n else w);
      } else if ActiveAs(copies[n], name) {
        assert Wins(copies, name, n);
      }
    }
  }

  lemma OnlyWinnersStayActive(copies: seq<Copy>, name: string, w: nat, i: nat)
    requires Wins(copies, name, w) && i < |copies|
    requires forall j :: 0 <= j < |copies| ==> copies[j].status != Ambiguous
    ensures Selectable(Demoted(copies, BySelector, Outranked)[i], name) <==> i == w
    ensures Demoted(copies, BySelector, Outranked)[w] == copies[w]
  {
    assert copies[i].status != Ambiguous;
    ShadowedAt(copies, i);
    ShadowedAt(copies, w);
    forall j | 0 <= j < |copies| && BySelector(copies[j]) == BySelector(copies[w]) ensures !Beats(copies, j, w) {
      assert ActiveAs(copies[j], name);
    }
    if i != w && ActiveAs(copies[i], name) {
      assert BySelector(copies[w]) == BySelector(copies[i]) && Beats(copies, w, i);
    }
  }

  /** Claude always chooses: a name is found exactly if some copy contends for it, and the winner is least. */
  lemma ClaudeResolves(candidates: seq<Candidate>, name: string)
    ensures var contenders := AllRequalified(Deduplicated(candidates));
      var found := Resolve(Sorted(ClaudeCopies(candidates)), name);
      if exists i :: 0 <= i < |contenders| && ActiveAs(contenders[i], name)
      then exists w: nat :: Wins(contenders, name, w) && found == Found(contenders[w])
      else found == NotFound
  {
    var contenders, after := AllRequalified(Deduplicated(candidates)), ClaudeCopies(candidates);
    Contenders(candidates);
    SomeCopyWins(contenders, name);
    if w: nat :| Wins(contenders, name, w) {
      OneSelectable(contenders, name, w);
    } else {
      forall i | 0 <= i < |after| ensures !Selectable(after[i], name) {
        assert !ActiveAs(contenders[i], name);
        ShadowedAt(contenders, i);
      }
      NoneSelectable(after, name);
    }
  }

  lemma OneSelectable(contenders: seq<Copy>, name: string, w: nat)
    requires Wins(contenders, name, w)
    requires forall j :: 0 <= j < |contenders| ==> contenders[j].status != Ambiguous
    ensures Resolve(Sorted(Demoted(contenders, BySelector, Outranked)), name) == Found(contenders[w])
  {
    var after, p := Demoted(contenders, BySelector, Outranked), Naming(name);
    forall i | 0 <= i < |after| ensures p(after[i]) <==> i == w {
      OnlyWinnersStayActive(contenders, name, w, i);
    }
    OnlyWinnersStayActive(contenders, name, w, w);
    CountAtLeastOne(after, p);
    CountAtLeastTwo(after, p);
    SortedCount(after, p);
    SortedMembers(after);
    SelectableCount(Sorted(after), name);
    var chosen := SelectableCopies(Sorted(after), name);
    assert chosen[0] in after && p(chosen[0]);
  }

  /** After all passes no two active copies of a Claude inventory have the same selector. */
  lemma ClaudeSelectorsAreDistinct(candidates: seq<Candidate>, name: string)
    ensures Count(Sorted(ClaudeCopies(candidates)), Answering(name)) <= 1
  {
    var contenders := AllRequalified(Deduplicated(candidates));
    SortedCount(ClaudeCopies(candidates), Answering(name));
    DemotionLeavesOne(contenders, name);
  }

  lemma DemotionLeavesOne(contenders: seq<Copy>, name: string)
    ensures Count(Demoted(contenders, BySelector, Outranked), Answering(name)) <= 1
  {
    var after := Demoted(contenders, BySelector, Outranked);
    CountAtLeastTwo(after, Answering(name));
    if i, j :| 0 <= i < j < |after| && ActiveAs(after[i], name) && ActiveAs(after[j], name) {
      ShadowedAt(contenders, i);
      ShadowedAt(contenders, j);
      assert BySelector(contenders[i]) == BySelector(contenders[j]) == Some(name);
      assert Beats(contenders, i, j) || Beats(contenders, j, i);
    }
  }

  /** Nothing is ambiguous on Claude. */
  lemma ClaudeIsNeverAmbiguous(candidates: seq<Candidate>, name: string)
    ensures Count(Sorted(ClaudeCopies(candidates)), MarkedCopy()) == 0
    ensures !Resolve(Sorted(ClaudeCopies(candidates)), name).IsAmbiguous?
  {
    var after := ClaudeCopies(candidates);
    SortedCount(after, MarkedCopy());
    CountAtLeastOne(after, MarkedCopy());
    forall i | 0 <= i < |after| ensures after[i].status != Ambiguous { FinalAt(candidates, i); }
    ClaudeResolves(candidates, name);
  }

  // ----- nested selectors -----------------------------------------------------------------------------------

  /** A nested and an ordinary copy, both active under one bare name. */
  ghost predicate Compete(copies: seq<Copy>, i: nat, j: nat) {
    && i < |copies| && j < |copies| && copies[i].source == Nested && copies[i].status == Active
    && IsBaseName(copies[j]) && copies[j].selector == copies[i].selector
  }

  /** An active nested copy whose selector has no text before its last colon, or no colon. */
  predicate Unqualified(c: Copy) {
    c.source == Nested && c.status == Active
    && (LastColon(c.selector).None? || Qualifier(c.selector) == "")
  }

  function BareName(s: string): string { if LastColon(s).Some? then BaseName(s) else s }

  /** Requalification lets a nested copy meet an ordinary one only if the nested one came without a qualifier. */
  lemma NestedCompetesIff(copies: seq<Copy>)
    ensures (exists i: nat, j: nat :: Compete(AllRequalified(copies), i, j))
       <==> exists i :: 0 <= i < |copies| && Unqualified(copies[i]) && BareName(copies[i].selector) in BaseNames(copies)
  {
    var after, names := AllRequalified(copies), BaseNames(copies);
    if i: nat, j: nat :| Compete(after, i, j) {
      assert IsBaseName(copies[j]) && copies[j].selector in names;
      assert Unqualified(copies[i]);
    }
    if i: nat :| i < |copies| && Unqualified(copies[i]) && BareName(copies[i].selector) in names {
      var j :| 0 <= j < |copies| && IsBaseName(copies[j]) && copies[j].selector == BareName(copies[i].selector);
      assert Compete(after, i, j);
    }
  }

  /** Nested roots always carry a qualifier, so a nested copy never takes a bare name from an ordinary one. */
  lemma NestedNeverCompetes(candidates: seq<Candidate>, i: nat, j: nat)
    requires forall c <- candidates :: c.source == Nested ==> LastColon(c.selector).Some? && Qualifier(c.selector) != ""
    ensures !Compete(AllRequalified(Deduplicated(candidates)), i, j)
  {
    var copies := Deduplicated(candidates);
    Contenders(candidates);
    forall k | 0 <= k < |copies| ensures !Unqualified(copies[k]) {
      assert copies[k].selector == candidates[k].selector && candidates[k] in candidates;
    }
    NestedCompetesIff(copies);
  }

  /**
    A nested copy answers to its qualified selector exactly if an ordinary active copy has the bare name;
    otherwise that selector finds nothing, whatever becomes of the copy under its bare name.
   */
  lemma NestedKeepsQualifiedName(candidates: seq<Candidate>, i: nat)
    requires i < |candidates| && LastColon(candidates[i].selector).Some? && Qualifier(candidates[i].selector) != ""
    requires NestedQualified(Deduplicated(candidates)[i])
    requires forall j :: 0 <= j < |candidates| && j != i ==> candidates[j].selector != candidates[i].selector
    ensures Resolve(Sorted(ClaudeCopies(candidates)), candidates[i].selector)
         == if BaseName(candidates[i].selector) in BaseNames(Deduplicated(candidates))
            then Found(Deduplicated(candidates)[i]) else NotFound
  {
    var copies, name := Deduplicated(candidates), candidates[i].selector;
    var contenders := AllRequalified(copies);
    Contenders(candidates);
    forall j | 0 <= j < |copies| && ActiveAs(contenders[j], name)
      ensures j == i && BaseName(name) in BaseNames(copies)
    {
      assert copies[j].selector == candidates[j].selector;
      RequalifiedAs(copies[j], BaseNames(copies));
    }
    ClaudeResolves(candidates, name);
    if BaseName(name) in BaseNames(copies) {
      assert ActiveAs(contenders[i], name) && contenders[i] == copies[i];
    }
  }

  lemma RequalifiedAs(c: Copy, names: set<string>)
    ensures ':' in Requalified(c, names).selector ==> Requalified(c, names) == c
  {
  }

  /** Two nested variants of one name without an ordinary copy: neither qualified selector is available. */
  lemma NestedVariantIsNotAvailable()
    ensures var candidates := [Candidate(Nested, "/r/a/s", "a:s", 400, true, Some("/r/a/s"), true),
                               Candidate(Nested, "/r/b/s", "b:s", 401, true, Some("/r/b/s"), true)];
      && Resolve(Sorted(ClaudeCopies(candidates)), "a:s") == NotFound
      && Resolve(Sorted(ClaudeCopies(candidates)), "b:s") == NotFound
  {
    var candidates := [Candidate(Nested, "/r/a/s", "a:s", 400, true, Some("/r/a/s"), true),
                       Candidate(Nested, "/r/b/s", "b:s", 401, true, Some("/r/b/s"), true)];
    FirstOfTwo(candidates, "/r/a/s", 0);
    FirstOfTwo(candidates, "/r/b/s", 1);
    DeduplicatedStatus(candidates, "/r/a/s", 0, 0);
    DeduplicatedStatus(candidates, "/r/b/s", 1, 1);
    DeduplicatedAt(candidates, 0);
    DeduplicatedAt(candidates, 1);
    assert LastColon("a:s") == Some(1) by { assert "a:s"[..2] == "a:"; }
    assert LastColon("b:s") == Some(1) by { assert "b:s"[..2] == "b:"; }
    NestedKeepsQualifiedName(candidates, 0);
    NestedKeepsQualifiedName(candidates, 1);
  }

  /** A nested copy whose bare name nobody else has is found under the bare name. */
  lemma UniqueNestedIsUnqualified(candidates: seq<Candidate>, i: nat)
    requires i < |candidates| && LastColon(candidates[i].selector).Some?
    requires NestedQualified(Deduplicated(candidates)[i])
    requires forall j :: 0 <= j < |candidates| && j != i ==>
               BareName(candidates[j].selector) != BaseName(candidates[i].selector)
    ensures var name := BaseName(candidates[i].selector);
      Resolve(Sorted(ClaudeCopies(candidates)), name) == Found(Deduplicated(candidates)[i].(selector := name))
  {
    var copies, name := Deduplicated(candidates), BaseName(candidates[i].selector);
    var contenders := AllRequalified(copies);
    Contenders(candidates);
    forall j | 0 <= j < |copies| && j != i
      ensures contenders[j].selector != name && !(IsBaseName(copies[j]) && copies[j].selector == name)
    {
      assert copies[j].selector == candidates[j].selector;
      BareNames(copies[j], BaseNames(copies));
    }
    assert name !in BaseNames(copies);
    assert contenders[i] == copies[i].(selector := name);
    assert Wins(contenders, name, i);
    OneSelectable(contenders, name, i);
  }

  lemma BareNames(c: Copy, names: set<string>)
    ensures Requalified(c, names).selector == c.selector || Requalified(c, names).selector == BareName(c.selector)
    ensures ':' !in c.selector ==> BareName(c.selector) == c.selector
    ensures ':' in Requalified(c, names).selector || Requalified(c, names).selector == BareName(c.selector)
  {
    if LastColon(c.selector).Some? { assert c.selector[LastColon(c.selector).value] in c.selector; }
  }

  // ----- the status of every copy ------------------------------------------------------------------------------

  predicate Resolves(c: Candidate) { c.target.Some? && c.readable }

  /** Of the copies with its target that resolve, the one of least precedence, and of these the first. */
  ghost predicate IsFirst(candidates: seq<Candidate>, i: nat) {
    && i < |candidates| && Resolves(candidates[i])
    && forall j ::
         0 <= j < |candidates| && j != i && Resolves(candidates[j]) && candidates[j].target == candidates[i].target ==>
         candidates[i].precedence < candidates[j].precedence
         || (candidates[i].precedence == candidates[j].precedence && i < j)
  }

  /** What is left of the candidates before their names are compared. */
  ghost predicate Loads(candidates: seq<Candidate>, i: nat) { IsFirst(candidates, i) && candidates[i].enabled }

  lemma FirstIff(candidates: seq<Candidate>, i: nat)
    requires i < |candidates| && Resolves(candidates[i])
    ensures IsFirst(candidates, i) <==> !Loses(CopiesOf(candidates), ByTarget, i)
  {
    var copies := CopiesOf(candidates);
    forall j | 0 <= j < |candidates|
      ensures ByTarget(copies[j]) == ByTarget(copies[i]) <==>
                Resolves(candidates[j]) && candidates[j].target == candidates[i].target
    {
    }
    if !Loses(copies, ByTarget, i) {
      forall j |
        0 <= j < |candidates| && j != i && Resolves(candidates[j]) && candidates[j].target == candidates[i].target
        ensures candidates[i].precedence < candidates[j].precedence
                || (candidates[i].precedence == candidates[j].precedence && i < j)
      {
        assert !Beats(copies, j, i);
      }
    }
  }

  lemma DeduplicatedStatusIff(candidates: seq<Candidate>, i: nat)
    requires i < |candidates|
    ensures var status := Deduplicated(candidates)[i].status;
      && (status == Unresolved <==> !Resolves(candidates[i]))
      && (status == Inactive <==> Resolves(candidates[i]) && !candidates[i].enabled)
      && (status == Shadowed <==> Resolves(candidates[i]) && candidates[i].enabled && !IsFirst(candidates, i))
      && (status == Active <==> Loads(candidates, i))
  {
    if Resolves(candidates[i]) { FirstIff(candidates, i); }
    var demote: Copy -> Copy := Aliased;
    assert demote(CopyOf(candidates[i])) == Aliased(CopyOf(candidates[i]));
  }

  /** Every status of the Codex inventory, read off the candidates. */
  lemma CodexStatusIff(candidates: seq<Candidate>, i: nat)
    requires i < |candidates|
    ensures var status := CodexCopies(candidates)[i].status;
      && (status == Unresolved <==> !Resolves(candidates[i]))
      && (status == Inactive <==> Resolves(candidates[i]) && !candidates[i].enabled)
      && (status == Shadowed <==> Resolves(candidates[i]) && candidates[i].enabled && !IsFirst(candidates, i))
      && (status == Ambiguous <==>
            Loads(candidates, i)
            && exists j :: 0 <= j < |candidates| && j != i && Loads(candidates, j)
                 && candidates[j].selector == candidates[i].selector)
  {
    var copies := Deduplicated(candidates);
    forall j | 0 <= j < |candidates|
      ensures copies[j].status == Active <==> Loads(candidates, j)
      ensures copies[j].selector == candidates[j].selector
    {
      DeduplicatedStatusIff(candidates, j);
      DeduplicatedAt(candidates, j);
    }
    DeduplicatedStatusIff(candidates, i);
    if Loads(candidates, i) {
      assert forall j :: 0 <= j < |copies| ==>
        (BySelector(copies[j]) == BySelector(copies[i]) <==>
           Loads(candidates, j) && candidates[j].selector == candidates[i].selector);
    }
  }

  /** A qualifier and a bare name. */
  predicate Splits(s: string, qualifier: string, base: string) { s == qualifier + ":" + base && ':' !in base }

  lemma SplitsIff(s: string, qualifier: string, base: string)
    ensures Splits(s, qualifier, base) <==> LastColon(s).Some? && qualifier == Qualifier(s) && base == BaseName(s)
  {
    if LastColon(s).Some? {
      var k := LastColon(s).value;
      assert s == s[..k] + [s[k]] + s[k + 1..];
      assert forall i :: k < i < |s| ==> s[i] != ':';
      if Splits(s, qualifier, base) {
        assert s[|qualifier|] == ':' && forall i :: |qualifier| < i < |s| ==> s[i] == base[i - |qualifier| - 1];
        assert k == |qualifier|;
      }
    } else {
      var t := qualifier + ":" + base;
      assert t[|qualifier|] == ':' && t[|qualifier|] in t;
    }
  }

  /** An ordinary copy that loads has this bare name. */
  ghost predicate IsTaken(candidates: seq<Candidate>, base: string) {
    exists j :: 0 <= j < |candidates| && candidates[j].source == Ordinary && Loads(candidates, j)
      && candidates[j].selector == base && ':' !in base
  }

  /** A nested copy that loads drops its qualifier unless the rest is taken. */
  ghost predicate Drops(candidates: seq<Candidate>, i: nat, qualifier: string, base: string)
    requires i < |candidates|
  {
    && Splits(candidates[i].selector, qualifier, base) && candidates[i].source == Nested && Loads(candidates, i)
    && (qualifier == "" || !IsTaken(candidates, base))
  }

  /** The name under which Claude lists a copy. */
  ghost predicate IsListedAs(candidates: seq<Candidate>, i: nat, name: string)
    requires i < |candidates|
  {
    || (exists q :: Drops(candidates, i, q, name))
    || (name == candidates[i].selector && forall q, b :: !Drops(candidates, i, q, b))
  }

  lemma TakenIff(candidates: seq<Candidate>, base: string)
    ensures base in BaseNames(Deduplicated(candidates)) <==> IsTaken(candidates, base)
  {
    forall j | 0 <= j < |candidates|
      ensures IsBaseName(Deduplicated(candidates)[j]) <==>
                candidates[j].source == Ordinary && Loads(candidates, j) && ':' !in candidates[j].selector
      ensures Deduplicated(candidates)[j].selector == candidates[j].selector
    {
      DeduplicatedStatusIff(candidates, j);
      DeduplicatedAt(candidates, j);
    }
  }

  lemma ListedAs(candidates: seq<Candidate>, i: nat)
    requires i < |candidates|
    ensures IsListedAs(candidates, i, AllRequalified(Deduplicated(candidates))[i].selector)
  {
    var c := Deduplicated(candidates)[i];
    DeduplicatedStatusIff(candidates, i);
    DeduplicatedAt(candidates, i);
    forall q, b ensures Splits(c.selector, q, b) <==>
                          LastColon(c.selector).Some? && q == Qualifier(c.selector) && b == BaseName(c.selector)
    {
      SplitsIff(c.selector, q, b);
    }
    if LastColon(c.selector).Some? {
      var q, b := Qualifier(c.selector), BaseName(c.selector);
      TakenIff(candidates, b);
      assert Drops(candidates, i, q, b) <==>
        NestedQualified(c) && (b !in BaseNames(Deduplicated(candidates)) || q == "");
    }
  }

  /** Every status and every name of the Claude inventory, read off the candidates. */
  lemma ClaudeStatusIff(candidates: seq<Candidate>, i: nat)
    requires i < |candidates|
    ensures var copies := ClaudeCopies(candidates); var status := copies[i].status;
      && IsListedAs(candidates, i, copies[i].selector)
      && (status == Unresolved <==> !Resolves(candidates[i]))
      && (status == Inactive <==> Resolves(candidates[i]) && !candidates[i].enabled)
      && (status == Active <==>
            Loads(candidates, i)
            && forall j ::
                 0 <= j < |candidates| && j != i && Loads(candidates, j) && copies[j].selector == copies[i].selector ==>
                 candidates[i].precedence < candidates[j].precedence
                 || (candidates[i].precedence == candidates[j].precedence && i < j))
      && status != Ambiguous
  {
    var contenders := AllRequalified(Deduplicated(candidates));
    Contenders(candidates);
    forall j | 0 <= j < |candidates|
      ensures ClaudeCopies(candidates)[j].selector == contenders[j].selector
      ensures contenders[j].status == Active <==> Loads(candidates, j)
      ensures contenders[j].precedence == candidates[j].precedence
      ensures contenders[j].status == Deduplicated(candidates)[j].status
    {
      ShadowedAt(contenders, j);
      DeduplicatedStatusIff(candidates, j);
      DeduplicatedAt(candidates, j);
    }
    ListedAs(candidates, i);
    ShadowedAt(contenders, i);
    DeduplicatedStatusIff(candidates, i);
    StaysActiveIffWins(contenders, i);
  }

  lemma {:induction false} SelectableMembers(inventory: seq<Copy>, name: string)
    ensures forall c :: c in SelectableCopies(inventory, name) <==>
              c in inventory && c.selector == name && (c.status == Active || c.status == Ambiguous)
  {
    if inventory != [] {
      SelectableMembers(inventory[1..], name);
      assert inventory == [inventory[0]] + inventory[1..];
    }
  }

  /** What a name resolves to in any inventory: nothing, the one active copy, or all that could be meant. */
  lemma ResolveMeans(inventory: seq<Copy>, name: string)
    ensures var r := Resolve(inventory, name);
      match r
      case NotFound => forall c <- inventory :: !(c.selector == name && (c.status == Active || c.status == Ambiguous))
      case Found(copy) =>
        && copy in inventory && copy.selector == name && copy.status == Active
        && forall c <- inventory :: c.selector == name && (c.status == Active || c.status == Ambiguous) ==> c == copy
      case IsAmbiguous(copies) =>
        && (|copies| > 1 || copies[0].status == Ambiguous)
        && forall c ::
             c in copies <==> c in inventory && c.selector == name && (c.status == Active || c.status == Ambiguous)
  {
    SelectableMembers(inventory, name);
    var selectable := SelectableCopies(inventory, name);
    if selectable != [] { assert selectable[0] in selectable; }
  }

  // ----- order of the inventory -------------------------------------------------------------------------------

  lemma {:induction false} TextOrder(a: string, b: string)
    ensures TextLess(a, b) ==> a != b && !TextLess(b, a)
    ensures a != b ==> TextLess(a, b) || TextLess(b, a)
  {
    if a != [] && b != [] && a[0] == b[0] {
      TextOrder(a[1..], b[1..]);
      assert a == [a[0]] + a[1..] && b == [b[0]] + b[1..];
    }
  }

  lemma {:induction false} TextOrderIsTransitive(a: string, b: string, c: string)
    requires TextLess(a, b) && TextLess(b, c)
    ensures TextLess(a, c)
  {
    if a != [] && a[0] == b[0] == c[0] { TextOrderIsTransitive(a[1..], b[1..], c[1..]); }
  }

  lemma OrderIsTransitive(a: Copy, b: Copy, c: Copy)
    requires !SortsBefore(b, a) && !SortsBefore(c, b)
    ensures !SortsBefore(c, a)
  {
    TextOrder(a.selector, b.selector);
    TextOrder(b.selector, c.selector);
    TextOrder(a.selector, c.selector);
    TextOrder(a.path, b.path);
    TextOrder(b.path, c.path);
    TextOrder(a.path, c.path);
    if SortsBefore(c, a) && a.precedence == b.precedence == c.precedence {
      if TextLess(a.selector, b.selector) && TextLess(b.selector, c.selector) {
        TextOrderIsTransitive(a.selector, b.selector, c.selector);
      }
      if TextLess(a.path, b.path) && TextLess(b.path, c.path) { TextOrderIsTransitive(a.path, b.path, c.path); }
    }
  }

  ghost predicate InOrder(s: seq<Copy>) { forall i, j :: 0 <= i < j < |s| ==> !SortsBefore(s[j], s[i]) }

  lemma SortsBeforeOneWay(a: Copy, b: Copy)
    requires SortsBefore(a, b)
    ensures !SortsBefore(b, a)
  {
    TextOrder(a.selector, b.selector);
    TextOrder(a.path, b.path);
  }

  lemma {:induction false} InsertedInOrder(c: Copy, s: seq<Copy>)
    requires InOrder(s)
    ensures InOrder(Inserted(c, s))
  {
    if s == [] {
    } else if SortsBefore(c, s[0]) {
      forall j | 0 <= j < |s| ensures !SortsBefore(s[j], c) {
        SortsBeforeOneWay(c, s[0]);
        if j > 0 { OrderIsTransitive(c, s[0], s[j]); }
      }
    } else {
      InsertedInOrder(c, s[1..]);
      InsertedMembers(c, s[1..]);
      var rest := Inserted(c, s[1..]);
      forall j | 0 <= j < |rest| ensures !SortsBefore(rest[j], s[0]) {
        assert rest[j] in rest;
        if rest[j] != c {
          var k :| 0 <= k < |s[1..]| && s[1..][k] == rest[j];
          assert s[k + 1] == rest[j];
        }
      }
    }
  }

  /** The inventory is listed by precedence, then selector, then path. */
  lemma {:induction false} InventoryIsInOrder(s: seq<Copy>)
    ensures InOrder(Sorted(s))
  {
    if s != [] {
      InventoryIsInOrder(s[..|s| - 1]);
      InsertedInOrder(s[|s| - 1], Sorted(s[..|s| - 1]));
    }
  }
}
