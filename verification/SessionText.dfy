/** `_bounded_strings` of `session.py`: the text that is collected from one nested trace value. */
module SessionText {
  import opened Prelude

  const MAX_SIGNAL_TEXT_CHARS: nat := 200_000
  const MAX_ENTRIES := 1_000
  const MAX_DEPTH := 5

  datatype Value =
    | Text(chars: string)
    | List(items: seq<Value>)
    | Dict(fields: seq<(string, Value)>)
    | Scalar

  function Take<T>(s: seq<T>, n: nat): seq<T> { if |s| <= n then s else s[..n] }

  function TextLength(texts: seq<string>): nat {
    if texts == [] then 0 else TextLength(texts[..|texts| - 1]) + |texts[|texts| - 1]|
  }

  predicate IsOpaqueKey(key: string) { key in {"encrypted_content", "thinking", "signature"} }

  function VisibleValues(fields: seq<(string, Value)>): seq<Value> {
    if fields == [] then []
    else (if IsOpaqueKey(fields[0].0) then [] else [fields[0].1]) + VisibleValues(fields[1..])
  }

  function Bounded(value: Value, depth: nat): seq<string>
    decreases MAX_DEPTH + 1 - depth, 0
  {
    if depth > MAX_DEPTH then []
    else
      match value
      case Text(chars) => [Take(chars, MAX_SIGNAL_TEXT_CHARS)]
      case List(items) => Gather(Take(items, MAX_ENTRIES), depth + 1, [])
      case Dict(fields) => Gather(VisibleValues(Take(fields, MAX_ENTRIES)), depth + 1, [])
      case Scalar => []
  }

  /** Collects from one entry after the other and stops once enough text is there. */
  function Gather(items: seq<Value>, depth: nat, texts: seq<string>): seq<string>
    decreases MAX_DEPTH + 1 - depth, |items| + 1
  {
    if items == [] then texts
    else
      var more := texts + Bounded(items[0], depth);
      if TextLength(more) >= MAX_SIGNAL_TEXT_CHARS then more else Gather(items[1..], depth, more)
  }

  /** The same collection without the stop. */
  function Unstopped(value: Value, depth: nat): seq<string>
    decreases MAX_DEPTH + 1 - depth, 0
  {
    if depth > MAX_DEPTH then []
    else
      match value
      case Text(chars) => [Take(chars, MAX_SIGNAL_TEXT_CHARS)]
      case List(items) => UnstoppedAll(Take(items, MAX_ENTRIES), depth + 1)
      case Dict(fields) => UnstoppedAll(VisibleValues(Take(fields, MAX_ENTRIES)), depth + 1)
      case Scalar => []
  }

  function UnstoppedAll(items: seq<Value>, depth: nat): seq<string>
    decreases MAX_DEPTH + 1 - depth, |items| + 1
  {
    if items == [] then [] else Unstopped(items[0], depth) + UnstoppedAll(items[1..], depth)
  }

  /** The recursive method with its two loops and their early `break`. */
  method BoundedStrings(value: Value, depth: nat) returns (result: seq<string>)
    ensures result == Bounded(value, depth)
    decreases MAX_DEPTH + 1 - depth, 0
  {
    if depth > MAX_DEPTH { return []; }
    result := [];
    match value
    case Text(chars) => result := [Take(chars, MAX_SIGNAL_TEXT_CHARS)];
    case Scalar =>
    case List(items) =>
      var entries := Take(items, MAX_ENTRIES);
      var i := 0;
      while i < |entries|
        invariant 0 <= i <= |entries|
        invariant Gather(entries[i..], depth + 1, result) == Gather(entries, depth + 1, [])
      {
        var more := BoundedStrings(entries[i], depth + 1);
        result := result + more;
        if TextLength(result) >= MAX_SIGNAL_TEXT_CHARS { return; }
        assert entries[i..][1..] == entries[i + 1..];
        i := i + 1;
      }
    case Dict(fields) =>
      var entries := Take(fields, MAX_ENTRIES);
      var i := 0;
      while i < |entries|
        invariant 0 <= i <= |entries|
        invariant Gather(VisibleValues(entries[i..]), depth + 1, result)
               == Gather(VisibleValues(entries), depth + 1, [])
      {
        assert entries[i..][1..] == entries[i + 1..];
        if !IsOpaqueKey(entries[i].0) {
          assert VisibleValues(entries[i..])[1..] == VisibleValues(entries[i + 1..]);
          var more := BoundedStrings(entries[i].1, depth + 1);
          result := result + more;
          if TextLength(result) >= MAX_SIGNAL_TEXT_CHARS { return; }
        } else {
          assert VisibleValues(entries[i..]) == VisibleValues(entries[i + 1..]);
        }
        i := i + 1;
      }
  }

  // ----- how much text ------------------------------------------------------------------------------------

  lemma {:induction false} TextLengthAdds(a: seq<string>, b: seq<string>)
    ensures TextLength(a + b) == TextLength(a) + TextLength(b)
  {
    if b == [] {
      assert a + b == a;
    } else {
      TextLengthAdds(a, b[..|b| - 1]);
      assert (a + b)[..|a + b| - 1] == a + b[..|b| - 1];
    }
  }

  /** Each level above the deepest adds at most one character less than the limit. */
  function Budget(depth: nat): int {
    if depth > MAX_DEPTH then 0
    else MAX_SIGNAL_TEXT_CHARS + (MAX_DEPTH - depth) * (MAX_SIGNAL_TEXT_CHARS - 1)
  }

  lemma {:induction false} BoundedFits(value: Value, depth: nat)
    ensures TextLength(Bounded(value, depth)) <= Budget(depth)
    decreases MAX_DEPTH + 1 - depth, 0
  {
    if depth <= MAX_DEPTH {
      match value
      case Text(chars) => assert [Take(chars, MAX_SIGNAL_TEXT_CHARS)][..0] == [];
      case List(items) => GatherFits(Take(items, MAX_ENTRIES), depth + 1, []);
      case Dict(fields) => GatherFits(VisibleValues(Take(fields, MAX_ENTRIES)), depth + 1, []);
      case Scalar =>
    }
  }

  lemma {:induction false} GatherFits(items: seq<Value>, depth: nat, texts: seq<string>)
    requires TextLength(texts) < MAX_SIGNAL_TEXT_CHARS
    ensures TextLength(Gather(items, depth, texts)) <= MAX_SIGNAL_TEXT_CHARS - 1 + Budget(depth)
    decreases MAX_DEPTH + 1 - depth, |items| + 1
  {
    if items != [] {
      BoundedFits(items[0], depth);
      var more := texts + Bounded(items[0], depth);
      TextLengthAdds(texts, Bounded(items[0], depth));
      if TextLength(more) < MAX_SIGNAL_TEXT_CHARS { GatherFits(items[1..], depth, more); }
    }
  }

  /** From depth 0 at most 6 * MAX_SIGNAL_TEXT_CHARS - 5 characters are collected from any value. */
  lemma CollectedTextIsBounded(value: Value)
    ensures TextLength(Bounded(value, 0)) <= 6 * MAX_SIGNAL_TEXT_CHARS - 5
  {
    BoundedFits(value, 0);
  }

  // ----- the bound is attained ------------------------------------------------------------------------------

  function Letters(n: nat): (s: string)
    ensures |s| == n
  {
    seq(n, _ => 'x')
  }

  /** At every level one text just below the limit, then one level deeper. */
  function Tower(depth: nat): Value
    decreases MAX_DEPTH - depth
  {
    if depth >= MAX_DEPTH then Text(Letters(MAX_SIGNAL_TEXT_CHARS))
    else List([Text(Letters(MAX_SIGNAL_TEXT_CHARS - 1)), Tower(depth + 1)])
  }

  lemma {:induction false} TowerFills(depth: nat)
    requires depth <= MAX_DEPTH
    ensures TextLength(Bounded(Tower(depth), depth)) == Budget(depth)
    decreases MAX_DEPTH - depth
  {
    if depth == MAX_DEPTH {
      assert Bounded(Tower(depth), depth) == [Letters(MAX_SIGNAL_TEXT_CHARS)];
      assert [Letters(MAX_SIGNAL_TEXT_CHARS)][..0] == [];
    } else {
      TowerFills(depth + 1);
      var first, deeper := Text(Letters(MAX_SIGNAL_TEXT_CHARS - 1)), Tower(depth + 1);
      var head, tail := Bounded(first, depth + 1), Bounded(deeper, depth + 1);
      assert head == [Letters(MAX_SIGNAL_TEXT_CHARS - 1)];
      assert head[..0] == [] && TextLength(head) == MAX_SIGNAL_TEXT_CHARS - 1;
      assert Take([first, deeper], MAX_ENTRIES) == [first, deeper];
      assert [first, deeper][1..] == [deeper] && [deeper][1..] == [];
      assert [] + head == head;
      TextLengthAdds(head, tail);
      assert Gather([deeper], depth + 1, head) == head + tail;
      assert Gather([first, deeper], depth + 1, []) == head + tail;
    }
  }

  /** No smaller bound holds for all values. */
  lemma BoundIsAttained()
    ensures TextLength(Bounded(Tower(0), 0)) == 6 * MAX_SIGNAL_TEXT_CHARS - 5
  {
    TowerFills(0);
  }

  // ----- what is collected ------------------------------------------------------------------------------------

  predicate PrefixOf<T(==)>(a: seq<T>, b: seq<T>) { |a| <= |b| && b[..|a|] == a }

  /** The stop only ever cuts the tail off, and only when the limit has been reached. */
  lemma {:induction false} BoundedIsPrefix(value: Value, depth: nat)
    ensures PrefixOf(Bounded(value, depth), Unstopped(value, depth))
    ensures Bounded(value, depth) == Unstopped(value, depth)
            || TextLength(Bounded(value, depth)) >= MAX_SIGNAL_TEXT_CHARS
    decreases MAX_DEPTH + 1 - depth, 0
  {
    if depth <= MAX_DEPTH {
      match value
      case List(items) => GatherAllIsPrefix(Take(items, MAX_ENTRIES), depth + 1);
      case Dict(fields) => GatherAllIsPrefix(VisibleValues(Take(fields, MAX_ENTRIES)), depth + 1);
      case _ =>
    }
  }

  lemma {:induction false} GatherAllIsPrefix(items: seq<Value>, depth: nat)
    ensures var texts, all := Gather(items, depth, []), UnstoppedAll(items, depth);
            PrefixOf(texts, all) && (texts == all || TextLength(texts) >= MAX_SIGNAL_TEXT_CHARS)
    decreases MAX_DEPTH + 1 - depth, |items| + 2
  {
    GatherIsPrefix(items, depth, []);
    assert [] + UnstoppedAll(items, depth) == UnstoppedAll(items, depth);
  }

  lemma {:induction false} GatherIsPrefix(items: seq<Value>, depth: nat, texts: seq<string>)
    ensures var all := texts + UnstoppedAll(items, depth);
            PrefixOf(Gather(items, depth, texts), all)
            && (Gather(items, depth, texts) == all || TextLength(Gather(items, depth, texts)) >= MAX_SIGNAL_TEXT_CHARS)
    decreases MAX_DEPTH + 1 - depth, |items| + 1
  {
    if items != [] {
      BoundedIsPrefix(items[0], depth);
      var here, full := Bounded(items[0], depth), Unstopped(items[0], depth);
      var more := texts + here;
      var all := texts + UnstoppedAll(items, depth);
      assert all == texts + full + UnstoppedAll(items[1..], depth);
      TextLengthAdds(texts, here);
      if TextLength(more) >= MAX_SIGNAL_TEXT_CHARS {
        assert all[..|more|] == more;
      } else {
        assert here == full;
        GatherIsPrefix(items[1..], depth, more);
      }
    }
  }

  // ----- opaque fields ----------------------------------------------------------------------------------------

  lemma {:induction false} HiddenFieldIsSkipped(fields: seq<(string, Value)>, i: nat, value: Value)
    requires i < |fields| && fields[i].0 in ["encrypted_content", "thinking", "signature"]
    ensures VisibleValues(fields[i := (fields[i].0, value)]) == VisibleValues(fields)
  {
    var changed := fields[i := (fields[i].0, value)];
    if i == 0 {
      assert changed[1..] == fields[1..];
    } else {
      assert changed[1..] == fields[1..][i - 1 := (fields[i].0, value)];
      HiddenFieldIsSkipped(fields[1..], i - 1, value);
    }
  }

  /** Whatever stands under one of the three opaque keys, the collected text is the same. */
  lemma OpaqueFieldsLeakNothing(fields: seq<(string, Value)>, i: nat, value: Value, depth: nat)
    requires i < |fields| && fields[i].0 in ["encrypted_content", "thinking", "signature"]
    ensures Bounded(Dict(fields[i := (fields[i].0, value)]), depth) == Bounded(Dict(fields), depth)
  {
    var changed := fields[i := (fields[i].0, value)];
    if i < MAX_ENTRIES {
      assert Take(changed, MAX_ENTRIES) == Take(fields, MAX_ENTRIES)[i := (fields[i].0, value)];
      HiddenFieldIsSkipped(Take(fields, MAX_ENTRIES), i, value);
    } else {
      assert Take(changed, MAX_ENTRIES) == Take(fields, MAX_ENTRIES);
    }
  }

  lemma {:induction false} OtherFieldsAreKept(fields: seq<(string, Value)>)
    requires forall i :: 0 <= i < |fields| ==> fields[i].0 !in ["encrypted_content", "thinking", "signature"]
    ensures |VisibleValues(fields)| == |fields|
    ensures forall i :: 0 <= i < |fields| ==> VisibleValues(fields)[i] == fields[i].1
  {
    if fields != [] { OtherFieldsAreKept(fields[1..]); }
  }

  /** Under any other keys a dictionary is collected like the list of its values. */
  lemma OtherKeysDoNotMatter(fields: seq<(string, Value)>, values: seq<Value>, depth: nat)
    requires |values| == |fields| && forall i :: 0 <= i < |fields| ==> fields[i].1 == values[i]
    requires forall i :: 0 <= i < |fields| ==> fields[i].0 !in ["encrypted_content", "thinking", "signature"]
    ensures Bounded(Dict(fields), depth) == Bounded(List(values), depth)
  {
    OtherFieldsAreKept(Take(fields, MAX_ENTRIES));
    assert VisibleValues(Take(fields, MAX_ENTRIES)) == Take(values, MAX_ENTRIES);
  }
}
