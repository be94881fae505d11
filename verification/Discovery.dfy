/**
  Skill resolution (`discovery.py`): the passes that overwrite one list of copies, and what the inventory
  they leave behind promises.
 */
module Discovery {
  import opened Prelude

  /** Where a copy was found; only nested roots are treated apart. */
  datatype Source = Nested | Ordinary

  datatype Status = Active | Inactive | Shadowed | Ambiguous | Unresolved

  /** A place that may hold a skill, with what the file system says about it. */
  datatype Candidate = Candidate(
    source: Source, path: string, selector: string, precedence: int, enabled: bool,
    target: Option<string>,   // the resolved path in its normal case, if it resolves
    readable: bool)           // the manifest resolves inside the target, and nothing forced it off

  datatype Copy = Copy(
    source: Source, path: string, selector: string, precedence: int, enabled: bool,
    target: Option<string>, status: Status)

  /** An optional grouping key; copies without one belong to no group. */
  type Key = Copy -> Option<string>

  // ----- specification -----------------------------------------------------------------------------------

  function CopyOf(c: Candidate): Copy {
    Copy(c.source, c.path, c.selector, c.precedence, c.enabled, c.target,
         if c.target.None? || !c.readable then Unresolved else if c.enabled then Active else Inactive)
  }

  function CopiesOf(candidates: seq<Candidate>): seq<Copy> {
    seq(|candidates|, i requires 0 <= i < |candidates| => CopyOf(candidates[i]))
  }

  function ByTarget(c: Copy): Option<string> { if c.status == Unresolved then None else c.target }

  function BySelector(c: Copy): Option<string> { if c.status == Active then Some(c.selector) else None }

  function Aliased(c: Copy): Copy { c.(status := if c.enabled then Shadowed else Inactive) }

  function Outranked(c: Copy): Copy { c.(status := Shadowed) }

  /** `j` comes before `i` when a group is sorted by precedence; the sort is stable. */
  predicate Beats(copies: seq<Copy>, j: nat, i: nat)
    requires i < |copies| && j < |copies|
  {
    copies[j].precedence < copies[i].precedence || (copies[j].precedence == copies[i].precedence && j < i)
  }

  ghost predicate Loses(copies: seq<Copy>, key: Key, i: nat)
    requires i < |copies|
  {
    key(copies[i]).Some? && exists j :: 0 <= j < |copies| && key(copies[j]) == key(copies[i]) && Beats(copies, j, i)
  }

  ghost function Demoted(copies: seq<Copy>, key: Key, demote: Copy -> Copy): (r: seq<Copy>)
    ensures |r| == |copies|
  {
    seq(|copies|, i requires 0 <= i < |copies| =>
      if Loses(copies, key, i) then demote(copies[i]) else copies[i])
  }

  ghost predicate HasTwin(copies: seq<Copy>, key: Key, i: nat)
    requires i < |copies|
  {
    key(copies[i]).Some? && exists j :: 0 <= j < |copies| && j != i && key(copies[j]) == key(copies[i])
  }

  ghost function MarkedAmbiguous(copies: seq<Copy>): (r: seq<Copy>)
    ensures |r| == |copies|
  {
    seq(|copies|, i requires 0 <= i < |copies| =>
      if HasTwin(copies, BySelector, i) then copies[i].(status := Ambiguous) else copies[i])
  }

  ghost function Deduplicated(candidates: seq<Candidate>): (r: seq<Copy>)
    ensures |r| == |candidates|
  {
    Demoted(CopiesOf(candidates), ByTarget, Aliased)
  }

  /** Index of the last colon, if there is one: `rsplit(":", 1)`. */
  function LastColon(s: string): (k: Option<nat>)
    ensures k.Some? ==> k.value < |s| && s[k.value] == ':' && forall i :: k.value < i < |s| ==> s[i] != ':'
    ensures k.None? ==> ':' !in s
  {
    if s == [] then None
    else if s[|s| - 1] == ':' then Some(|s| - 1)
    else LastColon(s[..|s| - 1])
  }

  function Qualifier(s: string): string
    requires LastColon(s).Some?
  {
    s[..LastColon(s).value]
  }

  function BaseName(s: string): string
    requires LastColon(s).Some?
  {
    s[LastColon(s).value + 1..]
  }

  predicate IsBaseName(c: Copy) { c.source != Nested && c.status == Active && ':' !in c.selector }

  predicate NestedQualified(c: Copy) { c.source == Nested && c.status == Active && LastColon(c.selector).Some? }

  function BaseNames(copies: seq<Copy>): set<string> {
    set i | 0 <= i < |copies| && IsBaseName(copies[i]) :: copies[i].selector
  }

  function Requalified(c: Copy, names: set<string>): Copy {
    if NestedQualified(c) && (BaseName(c.selector) !in names || Qualifier(c.selector) == "")
    then c.(selector := BaseName(c.selector)) else c
  }

  function AllRequalified(copies: seq<Copy>): (r: seq<Copy>)
    ensures |r| == |copies|
  {
    seq(|copies|, i requires 0 <= i < |copies| => Requalified(copies[i], BaseNames(copies)))
  }

  ghost function ClaudeCopies(candidates: seq<Candidate>): (r: seq<Copy>)
    ensures |r| == |candidates|
  {
    Demoted(AllRequalified(Deduplicated(candidates)), BySelector, Outranked)
  }

  ghost function CodexCopies(candidates: seq<Candidate>): (r: seq<Copy>)
    ensures |r| == |candidates|
  {
    MarkedAmbiguous(Deduplicated(candidates))
  }

  // ----- the passes ---------------------------------------------------------------------------------------

  /** `group` lists the indexes below `n` whose key is `k`, in order. */
  ghost predicate IsGroup(copies: seq<Copy>, key: Key, k: string, group: seq<nat>, n: nat)
    requires n <= |copies|
  {
    && group != []
    && (forall i :: i in group <==> 0 <= i < n && key(copies[i]) == Some(k))
    && (forall m, l :: 0 <= m < l < |group| ==> group[m] < group[l])
  }

  lemma GroupGrows(copies: seq<Copy>, key: Key, k: string, group: seq<nat>, n: nat)
    requires n < |copies| && (if group == [] then forall i :: 0 <= i < n ==> key(copies[i]) != Some(k)
                              else IsGroup(copies, key, k, group, n))
    requires key(copies[n]) == Some(k)
    ensures IsGroup(copies, key, k, group + [n], n + 1)
  {
    forall m | 0 <= m < |group| ensures group[m] < n { assert group[m] in group; }
  }

  /** The index lists that the program collects in a dictionary, in order of appearance. */
  method GroupBy(copies: seq<Copy>, key: Key) returns (groups: map<string, seq<nat>>)
    ensures forall k :: k in groups ==> IsGroup(copies, key, k, groups[k], |copies|)
    ensures forall i :: 0 <= i < |copies| && key(copies[i]).Some? ==> key(copies[i]).value in groups
  {
    groups := map[];
    for index := 0 to |copies|
      invariant forall k :: k in groups ==> IsGroup(copies, key, k, groups[k], index)
      invariant forall i :: 0 <= i < index && key(copies[i]).Some? ==> key(copies[i]).value in groups
    {
      var k := key(copies[index]);
      if k.Some? {
        var group := if k.value in groups then groups[k.value] else [];
        GroupGrows(copies, key, k.value, group, index);
        groups := groups[k.value := group + [index]];
      }
    }
  }

  ghost predicate Ascending(copies: array<Copy>, indexes: seq<nat>) {
    && (forall m :: 0 <= m < |indexes| ==> indexes[m] < copies.Length)
    && (forall m, n :: 0 <= m < n < |indexes| ==> indexes[m] < indexes[n])
  }

  lemma GroupAscends(copies: array<Copy>, before: seq<Copy>, key: Key, k: string, group: seq<nat>)
    requires |before| == copies.Length && IsGroup(before, key, k, group, |before|)
    ensures Ascending(copies, group)
  {
    forall m | 0 <= m < |group| ensures group[m] < copies.Length { assert group[m] in group; }
  }

  /** The first index of least precedence: what `sorted` by precedence puts in front. */
  method Keeper(copies: array<Copy>, indexes: seq<nat>) returns (keeper: nat)
    requires indexes != [] && Ascending(copies, indexes)
    ensures keeper in indexes && keeper < copies.Length
    ensures forall n :: 0 <= n < |indexes| ==> indexes[n] == keeper || Beats(copies[..], keeper, indexes[n])
  {
    keeper := indexes[0];
    for m := 1 to |indexes|
      invariant exists n :: 0 <= n < m && indexes[n] == keeper
      invariant forall n :: 0 <= n < m ==> indexes[n] == keeper || Beats(copies[..], keeper, indexes[n])
    {
      if copies[indexes[m]].precedence < copies[keeper].precedence { keeper := indexes[m]; }
    }
  }

  method DemoteGroup(copies: array<Copy>, indexes: seq<nat>, demote: Copy -> Copy)
    requires indexes != [] && Ascending(copies, indexes)
    modifies copies
    ensures forall i :: 0 <= i < copies.Length && i !in indexes ==> copies[i] == old(copies[i])
    ensures forall n :: 0 <= n < |indexes| ==>
              copies[indexes[n]]
              == if exists m :: 0 <= m < |indexes| && Beats(old(copies[..]), indexes[m], indexes[n])
                 then demote(old(copies[indexes[n]])) else old(copies[indexes[n]])
  {
    var keeper := Keeper(copies, indexes);
    ghost var before := copies[..];
    for m := 0 to |indexes|
      invariant forall i :: 0 <= i < copies.Length && i !in indexes ==> copies[i] == before[i]
      invariant forall n :: 0 <= n < |indexes| ==>
                  copies[indexes[n]]
                  == if n < m && indexes[n] != keeper then demote(before[indexes[n]]) else before[indexes[n]]
    {
      if indexes[m] != keeper { copies[indexes[m]] := demote(copies[indexes[m]]); }
    }
  }

  /** Every group keeps its first copy of least precedence and gives up the others. */
  method KeepLeast(copies: array<Copy>, key: Key, demote: Copy -> Copy)
    modifies copies
    ensures copies[..] == Demoted(old(copies[..]), key, demote)
  {
    ghost var before := copies[..];
    var groups := GroupBy(copies[..], key);
    var todo := groups.Keys;
    while todo != {}
      invariant todo <= groups.Keys
      invariant forall i :: 0 <= i < copies.Length ==>
                  copies[i] == if key(before[i]).Some? && key(before[i]).value !in todo
                               then Demoted(before, key, demote)[i] else before[i]
      decreases todo
    {
      var k :| k in todo;
      ghost var was := copies[..];
      GroupAscends(copies, before, key, k, groups[k]);
      DemoteGroup(copies, groups[k], demote);
      forall n | 0 <= n < |groups[k]|
        ensures (exists m :: 0 <= m < |groups[k]| && Beats(was, groups[k][m], groups[k][n]))
                <==> Loses(before, key, groups[k][n])
      {
        GroupDecides(before, was, key, groups[k], k, n);
      }
      todo := todo - {k};
    }
  }

  lemma GroupDecides(before: seq<Copy>, was: seq<Copy>, key: Key, group: seq<nat>, k: string, n: nat)
    requires |was| == |before| && n < |group| && IsGroup(before, key, k, group, |before|)
    requires forall m :: 0 <= m < |group| ==> group[m] < |before| && was[group[m]] == before[group[m]]
    ensures (exists m :: 0 <= m < |group| && Beats(was, group[m], group[n])) <==> Loses(before, key, group[n])
  {
    var i := group[n];
    assert i in group;
    if m :| 0 <= m < |group| && Beats(was, group[m], i) {
      assert group[m] in group;
      assert Beats(before, group[m], i);
    }
    if Loses(before, key, i) {
      var j :| 0 <= j < |before| && key(before[j]) == key(before[i]) && Beats(before, j, i);
      assert j in group;
      var m :| 0 <= m < |group| && group[m] == j;
      assert Beats(was, group[m], i);
    }
  }

  method MarkGroup(copies: array<Copy>, indexes: seq<nat>)
    requires Ascending(copies, indexes)
    modifies copies
    ensures forall i :: 0 <= i < copies.Length ==>
              copies[i] == if i in indexes then old(copies[i]).(status := Ambiguous) else old(copies[i])
  {
    ghost var before := copies[..];
    for m := 0 to |indexes|
      invariant forall i :: 0 <= i < copies.Length ==>
                  copies[i] == if i in indexes[..m] then before[i].(status := Ambiguous) else before[i]
    {
      copies[indexes[m]] := copies[indexes[m]].(status := Ambiguous);
      assert indexes[..m + 1] == indexes[..m] + [indexes[m]];
    }
    assert indexes[..|indexes|] == indexes;
  }

  lemma GroupHasTwins(before: seq<Copy>, key: Key, group: seq<nat>, k: string, i: nat)
    requires IsGroup(before, key, k, group, |before|) && i in group
    ensures HasTwin(before, key, i) <==> |group| >= 2
  {
    if |group| >= 2 {
      var j := if group[0] == i then group[1] else group[0];
      assert j in group;
    }
    if HasTwin(before, key, i) {
      var j :| 0 <= j < |before| && j != i && key(before[j]) == key(before[i]);
      assert j in group;
    }
  }

  /** Codex: every active copy that shares its selector becomes ambiguous. */
  method MarkAmbiguous(copies: array<Copy>)
    modifies copies
    ensures copies[..] == MarkedAmbiguous(old(copies[..]))
  {
    ghost var before := copies[..];
    var groups := GroupBy(copies[..], BySelector);
    var todo := groups.Keys;
    while todo != {}
      invariant todo <= groups.Keys
      invariant forall i :: 0 <= i < copies.Length ==>
                  copies[i] == if BySelector(before[i]).Some? && BySelector(before[i]).value !in todo
                               then MarkedAmbiguous(before)[i] else before[i]
      decreases todo
    {
      var k :| k in todo;
      GroupAscends(copies, before, BySelector, k, groups[k]);
      if |groups[k]| >= 2 { MarkGroup(copies, groups[k]); }
      forall i | i in groups[k] ensures HasTwin(before, BySelector, i) <==> |groups[k]| >= 2 {
        GroupHasTwins(before, BySelector, groups[k], k, i);
      }
      todo := todo - {k};
    }
  }

  /** Claude: nested copies drop their qualifier unless an ordinary copy has the bare name. */
  method Requalify(copies: array<Copy>)
    modifies copies
    ensures copies[..] == AllRequalified(old(copies[..]))
  {
    ghost var before := copies[..];
    var names := BaseNames(copies[..]);
    for index := 0 to copies.Length
      invariant forall i :: 0 <= i < copies.Length ==>
                  copies[i] == if i < index then Requalified(before[i], names) else before[i]
    {
      var copy := copies[index];
      if copy.source != Nested || copy.status != Active || ':' !in copy.selector { continue; }
      if BaseName(copy.selector) !in names {
        copies[index] := copy.(selector := BaseName(copy.selector));
      } else if Qualifier(copy.selector) == "" {
        copies[index] := copy.(selector := BaseName(copy.selector));
      }
    }
  }

  method Materialize(candidates: seq<Candidate>) returns (copies: array<Copy>)
    ensures fresh(copies) && copies[..] == Deduplicated(candidates)
  {
    copies := new Copy[|candidates|](i requires 0 <= i < |candidates| => CopyOf(candidates[i]));
    assert copies[..] == CopiesOf(candidates);
    KeepLeast(copies, ByTarget, Aliased);
  }

  method DiscoverCodex(candidates: seq<Candidate>) returns (inventory: seq<Copy>)
    ensures inventory == Sorted(CodexCopies(candidates))
  {
    var copies := Materialize(candidates);
    MarkAmbiguous(copies);
    inventory := Sorted(copies[..]);
  }

  method DiscoverClaude(candidates: seq<Candidate>) returns (inventory: seq<Copy>)
    ensures inventory == Sorted(ClaudeCopies(candidates))
  {
    var copies := Materialize(candidates);
    Requalify(copies);
    KeepLeast(copies, BySelector, Outranked);
    inventory := Sorted(copies[..]);
  }

  // ----- the sorted inventory -------------------------------------------------------------------------------

  predicate TextLess(a: string, b: string) {
    b != [] && (a == [] || a[0] < b[0] || (a[0] == b[0] && TextLess(a[1..], b[1..])))
  }

  predicate SortsBefore(a: Copy, b: Copy) {
    || a.precedence < b.precedence
    || (a.precedence == b.precedence
        && (TextLess(a.selector, b.selector)
            || (a.selector == b.selector && TextLess(a.path, b.path))))
  }

  function Inserted(c: Copy, s: seq<Copy>): seq<Copy> {
    if s == [] || SortsBefore(c, s[0]) then [c] + s else [s[0]] + Inserted(c, s[1..])
  }

  /** A stable sort by precedence, selector and path. */
  function Sorted(s: seq<Copy>): seq<Copy> {
    if s == [] then [] else Inserted(s[|s| - 1], Sorted(s[..|s| - 1]))
  }

  datatype Resolution = Found(copy: Copy) | NotFound | IsAmbiguous(copies: seq<Copy>)

  predicate Selectable(c: Copy, name: string) { c.selector == name && (c.status == Active || c.status == Ambiguous) }

  function SelectableCopies(inventory: seq<Copy>, name: string): seq<Copy> {
    if inventory == [] then []
    else (if Selectable(inventory[0], name) then [inventory[0]] else []) + SelectableCopies(inventory[1..], name)
  }

  /** `Inventory.resolve` */
  function Resolve(inventory: seq<Copy>, name: string): Resolution {
    var selectable := SelectableCopies(inventory, name);
    if selectable == [] then NotFound
    else if |selectable| == 1 && selectable[0].status == Active then Found(selectable[0])
    else IsAmbiguous(selectable)
  }
}
