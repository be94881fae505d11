/** Small value types and sequence facts that the other modules share. */
module Prelude {
  datatype Option<+T> = None | Some(value: T)

  datatype Result<+T, +E> = Ok(value: T) | Err(error: E)

  function Min(a: int, b: int): int { if a <= b then a else b }

  function Max(a: int, b: int): int { if a >= b then a else b }

  ghost predicate NoDuplicates<T>(s: seq<T>) {
    forall i, j :: 0 <= i < j < |s| ==> s[i] != s[j]
  }

  /** A list without repetitions that covers a finite set is as long as the set is large. */
  lemma {:induction false} ListingLength<T>(s: seq<T>, c: set<T>)
    requires NoDuplicates(s)
    requires forall x :: x in s <==> x in c
    ensures |s| == |c|
  {
    if s == [] {
      assert c == {};
    } else {
      var last := s[|s| - 1];
      var rest := s[..|s| - 1];
      assert forall x :: x in rest <==> x in c - {last} by {
        forall x | x in c - {last} ensures x in rest {
          var i :| 0 <= i < |s| && s[i] == x;
          assert rest[i] == x;
        }
      }
      ListingLength(rest, c - {last});
      assert last in c;
    }
  }

  lemma RemoveAt<T>(s: seq<T>, i: nat)
    requires i < |s|
    ensures multiset(s[..i] + s[i + 1..]) == multiset(s) - multiset{s[i]}
    ensures multiset(s) == multiset(s[..i] + s[i + 1..]) + multiset{s[i]}
  {
    assert s == s[..i] + ([s[i]] + s[i + 1..]);
  }

  /** `tuple(dict.fromkeys(...))`: the first of each. */
  function Distinct<T(==)>(s: seq<T>): seq<T> {
    if s == [] then []
    else
      var rest, last := Distinct(s[..|s| - 1]), s[|s| - 1];
      if last in rest then rest else rest + [last]
  }

  lemma {:induction false} DistinctKeeps<T>(s: seq<T>)
    ensures NoDuplicates(Distinct(s)) && forall x :: x in Distinct(s) <==> x in s
  {
    if s != [] {
      DistinctKeeps(s[..|s| - 1]);
      assert s == s[..|s| - 1] + [s[|s| - 1]];
    }
  }
}
