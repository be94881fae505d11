/** The flight recorder of `store.py`: a byte-bounded ring of encrypted records that also expire. */
module FlightRecorder {
  import opened Prelude

  const FLIGHT_MAX_BYTES := 50 * 1024 * 1024

  /**
    A stored time in the order in which SQL compares its text: first the date, then the text of the
    time of day.  Adding the retention of 24 hours moves the date by one and keeps the rest.
   */
  datatype Stamp = Stamp(day: int, timeText: int)

  predicate AtMost(a: Stamp, b: Stamp) {
    a.day < b.day || (a.day == b.day && a.timeText <= b.timeText)
  }

  function Expiry(recorded: Stamp): Stamp { Stamp(recorded.day + 1, recorded.timeText) }

  /** A row; its file is `<id>.enc`.  Identifiers are keys in the order of their text. */
  datatype Row = Row(id: nat, recordedAt: Stamp, bytes: nat)

  predicate Expired(r: Row, now: Stamp) { AtMost(Expiry(r.recordedAt), now) }

  /** `ORDER BY recorded_at, id` */
  predicate InOrder(a: Row, b: Row) {
    if a.recordedAt == b.recordedAt then a.id <= b.id else AtMost(a.recordedAt, b.recordedAt)
  }

  function Unexpired(rows: seq<Row>, now: Stamp): seq<Row> {
    if rows == [] then []
    else (if Expired(rows[0], now) then [] else [rows[0]]) + Unexpired(rows[1..], now)
  }

  function Insert(r: Row, sorted: seq<Row>): seq<Row> {
    if sorted == [] || InOrder(r, sorted[0]) then [r] + sorted
    else [sorted[0]] + Insert(r, sorted[1..])
  }

  function Sort(rows: seq<Row>): seq<Row> {
    if rows == [] then [] else Insert(rows[0], Sort(rows[1..]))
  }

  function Total(rows: seq<Row>): nat {
    if rows == [] then 0 else rows[0].bytes + Total(rows[1..])
  }

  /** What is left when the oldest rows go until the rest fits. */
  function FittingSuffix(rows: seq<Row>): seq<Row> {
    if Total(rows) <= FLIGHT_MAX_BYTES then rows else FittingSuffix(rows[1..])
  }

  function Survivors(rows: seq<Row>, now: Stamp): seq<Row> {
    FittingSuffix(Sort(Unexpired(rows, now)))
  }

  ghost predicate Ordered(rows: seq<Row>) {
    forall i, j :: 0 <= i < j < |rows| ==> InOrder(rows[i], rows[j])
  }

  ghost predicate DistinctIds(rows: seq<Row>) {
    forall i, j :: 0 <= i < j < |rows| ==> rows[i].id != rows[j].id
  }

  // ----- facts about the order and the sums ------------------------------------------------------

  lemma {:induction false} InsertSorts(r: Row, sorted: seq<Row>)
    requires Ordered(sorted)
    ensures Ordered(Insert(r, sorted)) && multiset(Insert(r, sorted)) == multiset(sorted) + multiset{r}
  {
    if sorted == [] || InOrder(r, sorted[0]) {
    } else {
      var rest := Insert(r, sorted[1..]);
      InsertSorts(r, sorted[1..]);
      assert sorted == [sorted[0]] + sorted[1..];
      forall x | x in rest ensures InOrder(sorted[0], x) {
        assert x in multiset(rest);
        assert x == r || x in multiset(sorted[1..]);
      }
    }
  }

  lemma {:induction false} SortSorts(rows: seq<Row>)
    ensures Ordered(Sort(rows)) && multiset(Sort(rows)) == multiset(rows)
  {
    if rows != [] {
      SortSorts(rows[1..]);
      InsertSorts(rows[0], Sort(rows[1..]));
      assert rows == [rows[0]] + rows[1..];
    }
  }

  lemma {:induction false} UnexpiredMembers(rows: seq<Row>, now: Stamp)
    ensures forall r :: r in Unexpired(rows, now) <==> r in rows && !Expired(r, now)
    ensures DistinctIds(rows) ==> DistinctIds(Unexpired(rows, now))
  {
    if rows != [] {
      UnexpiredMembers(rows[1..], now);
      var rest := Unexpired(rows[1..], now);
      assert DistinctIds(rows) ==> DistinctIds(rows[1..]);
      assert DistinctIds(rows) ==> forall r :: r in rows[1..] ==> r.id != rows[0].id;
      assert forall i :: 0 <= i < |rest| ==> rest[i] in rest;
    }
  }

  lemma {:induction false} TotalRemove(rows: seq<Row>, i: nat)
    requires i < |rows|
    ensures Total(rows) == rows[i].bytes + Total(rows[..i] + rows[i + 1..])
  {
    var without := rows[..i] + rows[i + 1..];
    if i == 0 {
      assert without == rows[1..];
    } else {
      TotalRemove(rows[1..], i - 1);
      assert rows[1..][..i - 1] + rows[1..][i..] == without[1..];
    }
  }

  lemma WithoutRow(rows: seq<Row>, i: nat) returns (rest: seq<Row>)
    requires i < |rows|
    ensures |rest| == |rows| - 1 && multiset(rest) == multiset(rows) - multiset{rows[i]}
    ensures Total(rows) == rows[i].bytes + Total(rest)
  {
    rest := rows[..i] + rows[i + 1..];
    RemoveAt(rows, i);
    TotalRemove(rows, i);
  }

  /** Equal contents, equal bytes, whatever the order. */
  lemma {:induction false} TotalOfMultiset(a: seq<Row>, b: seq<Row>)
    requires multiset(a) == multiset(b)
    ensures Total(a) == Total(b)
    decreases |a|
  {
    if a == [] {
      assert |b| == |multiset(b)| == 0;
    } else {
      assert a[0] in multiset(b);
      var i :| 0 <= i < |b| && b[i] == a[0];
      var rest := WithoutRow(a, 0);
      var others := WithoutRow(b, i);
      TotalOfMultiset(rest, others);
    }
  }

  lemma {:induction false} SameMembers(a: seq<Row>, b: seq<Row>)
    requires DistinctIds(a) && DistinctIds(b)
    requires forall r :: r in a <==> r in b
    ensures multiset(a) == multiset(b)
  {
    forall r ensures multiset(a)[r] == multiset(b)[r] {
      OnceAtMost(a, r);
      OnceAtMost(b, r);
    }
  }

  lemma {:induction false} OnceAtMost(rows: seq<Row>, r: Row)
    requires DistinctIds(rows)
    ensures multiset(rows)[r] == if r in rows then 1 else 0
  {
    if rows != [] {
      assert rows == [rows[0]] + rows[1..];
      OnceAtMost(rows[1..], r);
      assert forall i :: 0 <= i < |rows[1..]| ==> rows[1..][i].id != rows[0].id;
    }
  }

  /** The kept suffix fits, and every longer one does not. */
  lemma {:induction false} SuffixIsLongest(rows: seq<Row>)
    ensures Total(FittingSuffix(rows)) <= FLIGHT_MAX_BYTES
    ensures |FittingSuffix(rows)| <= |rows| && FittingSuffix(rows) == rows[|rows| - |FittingSuffix(rows)|..]
    ensures forall k :: 0 <= k < |rows| - |FittingSuffix(rows)| ==> Total(rows[k..]) > FLIGHT_MAX_BYTES
  {
    if Total(rows) > FLIGHT_MAX_BYTES {
      SuffixIsLongest(rows[1..]);
      forall k | 0 <= k < |rows| - |FittingSuffix(rows)| ensures Total(rows[k..]) > FLIGHT_MAX_BYTES {
        if k == 0 { assert rows[0..] == rows; } else { assert rows[k..] == rows[1..][k - 1..]; }
      }
    } else {
      assert rows[0..] == rows;
    }
  }

  lemma {:induction false} SuffixTotalShrinks(rows: seq<Row>, i: nat, j: nat)
    requires i <= j <= |rows|
    decreases j - i
    ensures Total(rows[j..]) <= Total(rows[i..])
  {
    if i < j {
      SuffixTotalShrinks(rows, i + 1, j);
      assert rows[i..][1..] == rows[i + 1..];
    }
  }

  // ----- which records survive --------------------------------------------------------------------

  /**
    An unexpired record survives an eviction exactly when it and all newer unexpired records fit
    into the ring together.
   */
  lemma SurvivesIffSuffixFits(rows: seq<Row>, now: Stamp, i: nat)
    requires DistinctIds(rows) && i < |Sort(Unexpired(rows, now))|
    ensures var ordered := Sort(Unexpired(rows, now));
            ordered[i] in Survivors(rows, now) <==> Total(ordered[i..]) <= FLIGHT_MAX_BYTES
  {
    var ordered := Sort(Unexpired(rows, now));
    var cut := |ordered| - |FittingSuffix(ordered)|;
    SuffixIsLongest(ordered);
    DistinctAfterSort(rows, now);
    if cut <= i {
      SuffixTotalShrinks(ordered, cut, i);
      assert FittingSuffix(ordered)[i - cut] == ordered[i];
    } else {
      NotInLaterPart(ordered, i, cut);
    }
  }

  lemma NotInLaterPart(rows: seq<Row>, i: nat, cut: nat)
    requires DistinctIds(rows) && i < cut <= |rows|
    ensures rows[i] !in rows[cut..]
  {
    forall k | 0 <= k < |rows[cut..]| ensures rows[cut..][k] != rows[i] {
      assert rows[cut..][k] == rows[cut + k];
    }
  }

  lemma DistinctAfterSort(rows: seq<Row>, now: Stamp)
    requires DistinctIds(rows)
    ensures DistinctIds(Sort(Unexpired(rows, now))) && DistinctIds(Survivors(rows, now))
    ensures forall r :: r in Survivors(rows, now) ==> r in rows && !Expired(r, now)
  {
    var kept := Unexpired(rows, now);
    UnexpiredMembers(rows, now);
    SortSorts(kept);
    var ordered := Sort(kept);
    PermutationKeepsDistinct(kept, ordered);
    SuffixIsLongest(ordered);
    forall r | r in Survivors(rows, now) ensures r in rows && !Expired(r, now) {
      assert r in ordered;
      assert r in multiset(ordered) && r in multiset(kept);
    }
  }

  lemma TwiceAtLeast(rows: seq<Row>, i: nat, j: nat)
    requires i < j < |rows| && rows[i] == rows[j]
    ensures multiset(rows)[rows[i]] >= 2
  {
    assert rows == rows[..i] + [rows[i]] + rows[i + 1..j] + [rows[j]] + rows[j + 1..];
  }

  lemma PermutationKeepsDistinct(a: seq<Row>, b: seq<Row>)
    requires DistinctIds(a) && multiset(a) == multiset(b)
    ensures DistinctIds(b)
  {
    forall i, j | 0 <= i < j < |b| ensures b[i].id != b[j].id {
      assert b[i] in multiset(a) && b[j] in multiset(a);
      OnceAtMost(a, b[i]);
      if b[i] == b[j] {
        TwiceAtLeast(b, i, j);
        assert false;
      }
    }
  }

  lemma Antisymmetric(a: Row, b: Row)
    ensures InOrder(a, b) && InOrder(b, a) ==> a.id == b.id
  {
  }

  lemma GreatestIsLast(rows: seq<Row>, i: nat)
    requires Ordered(rows) && DistinctIds(rows) && i < |rows|
    requires forall r :: r in rows ==> InOrder(r, rows[i])
    ensures i == |rows| - 1
  {
    if i + 1 < |rows| { Antisymmetric(rows[i], rows[i + 1]); }
  }

  lemma NewestIsLast(all: seq<Row>, record: Row, now: Stamp) returns (i: nat)
    requires DistinctIds(all) && record in all && !Expired(record, now)
    requires forall r :: r in all && !Expired(r, now) ==> InOrder(r, record)
    ensures i < |Sort(Unexpired(all, now))| && Sort(Unexpired(all, now))[i] == record
    ensures i == |Sort(Unexpired(all, now))| - 1
  {
    var kept := Unexpired(all, now);
    var ordered := Sort(kept);
    UnexpiredMembers(all, now);
    SortSorts(kept);
    assert record in multiset(kept);
    assert record in multiset(ordered);
    i :| 0 <= i < |ordered| && ordered[i] == record;
    DistinctAfterSort(all, now);
    forall r | r in ordered ensures InOrder(r, record) {
      assert r in multiset(ordered) && r in multiset(kept);
    }
    GreatestIsLast(ordered, i);
  }

  /** A record with the greatest ordering key is never evicted by its own append. */
  lemma NewestSurvives(rows: seq<Row>, record: Row, now: Stamp)
    requires DistinctIds(rows + [record])
    requires record.recordedAt == now && record.bytes <= FLIGHT_MAX_BYTES
    requires forall r :: r in rows && !Expired(r, now) ==> InOrder(r, record)
    ensures record in Survivors(rows + [record], now)
  {
    var all := rows + [record];
    assert all[|rows|] == record;
    var i := NewestIsLast(all, record, now);
    var ordered := Sort(Unexpired(all, now));
    assert ordered[i..] == [record];
    SurvivesIffSuffixFits(all, now, i);
  }

  // ----- survival, read off the rows ------------------------------------------------------------------------

  /** Not yet a day old. */
  predicate Alive(r: Row, now: Stamp) {
    now.day <= r.recordedAt.day || (now.day == r.recordedAt.day + 1 && now.timeText < r.recordedAt.timeText)
  }

  /** The record itself or a newer one; of records of one time, the one with the greater identifier is newer. */
  predicate NotOlder(q: Row, r: Row) {
    || q.recordedAt.day > r.recordedAt.day
    || (q.recordedAt.day == r.recordedAt.day && q.recordedAt.timeText > r.recordedAt.timeText)
    || (q.recordedAt == r.recordedAt && q.id >= r.id)
  }

  function Newer(rows: seq<Row>, r: Row, now: Stamp): seq<Row> {
    if rows == [] then []
    else (if Alive(rows[0], now) && NotOlder(rows[0], r) then [rows[0]] else []) + Newer(rows[1..], r, now)
  }

  /** The record is not a day old, and together with the newer ones of which this is true it fits into 50 MB. */
  ghost predicate Stays(r: Row, rows: seq<Row>, now: Stamp) {
    r in rows && Alive(r, now) && Total(Newer(rows, r, now)) <= 52_428_800
  }

  lemma {:induction false} NewerMembers(rows: seq<Row>, r: Row, now: Stamp)
    ensures forall q :: q in Newer(rows, r, now) <==> q in rows && Alive(q, now) && NotOlder(q, r)
    ensures DistinctIds(rows) ==> DistinctIds(Newer(rows, r, now))
  {
    if rows != [] {
      NewerMembers(rows[1..], r, now);
      var rest := Newer(rows[1..], r, now);
      assert DistinctIds(rows) ==> DistinctIds(rows[1..]);
      assert DistinctIds(rows) ==> forall q :: q in rows[1..] ==> q.id != rows[0].id;
      assert forall i :: 0 <= i < |rest| ==> rest[i] in rest;
    }
  }

  lemma OrderedMembers(rows: seq<Row>, now: Stamp)
    requires DistinctIds(rows)
    ensures var ordered := Sort(Unexpired(rows, now));
      && Ordered(ordered) && DistinctIds(ordered)
      && forall q :: q in ordered <==> q in rows && Alive(q, now)
  {
    var kept := Unexpired(rows, now);
    var ordered := Sort(kept);
    UnexpiredMembers(rows, now);
    SortSorts(kept);
    DistinctAfterSort(rows, now);
    forall q ensures q in ordered <==> q in rows && Alive(q, now) {
      assert q in ordered <==> q in multiset(ordered);
      assert q in kept <==> q in multiset(kept);
    }
  }

  lemma LaterIsNotOlder(ordered: seq<Row>, i: nat, q: Row)
    requires Ordered(ordered) && DistinctIds(ordered) && i < |ordered|
    ensures q in ordered[i..] <==> q in ordered && NotOlder(q, ordered[i])
  {
    if q in ordered {
      var k :| 0 <= k < |ordered| && ordered[k] == q;
      if i <= k {
        assert ordered[i..][k - i] == q;
        assert i < k ==> InOrder(ordered[i], ordered[k]);
      } else {
        assert InOrder(ordered[k], ordered[i]) && ordered[k].id != ordered[i].id;
        NotInLaterPart(ordered, k, i);
      }
    }
  }

  lemma SuffixIsNewer(rows: seq<Row>, now: Stamp, i: nat)
    requires DistinctIds(rows) && i < |Sort(Unexpired(rows, now))|
    ensures var ordered := Sort(Unexpired(rows, now)); Total(ordered[i..]) == Total(Newer(rows, ordered[i], now))
  {
    var ordered := Sort(Unexpired(rows, now));
    var newer := Newer(rows, ordered[i], now);
    OrderedMembers(rows, now);
    NewerMembers(rows, ordered[i], now);
    forall q ensures q in ordered[i..] <==> q in newer { LaterIsNotOlder(ordered, i, q); }
    SameMembers(ordered[i..], newer);
    TotalOfMultiset(ordered[i..], newer);
  }

  /** Exactly these records survive. */
  lemma SurvivesIffStays(rows: seq<Row>, now: Stamp, r: Row)
    requires DistinctIds(rows)
    ensures r in Survivors(rows, now) <==> Stays(r, rows, now)
  {
    var ordered := Sort(Unexpired(rows, now));
    OrderedMembers(rows, now);
    DistinctAfterSort(rows, now);
    if r in ordered {
      var i :| 0 <= i < |ordered| && ordered[i] == r;
      SurvivesIffSuffixFits(rows, now, i);
      SuffixIsNewer(rows, now, i);
    } else {
      SuffixIsLongest(ordered);
    }
  }

  // ----- the recorder itself ------------------------------------------------------------------------

  class Recorder {
    var rows: seq<Row>
    var files: set<nat>

    /** The `.enc` files are exactly those of the rows, and the rows fit. */
    ghost predicate Valid()
      reads this
    {
      && DistinctIds(rows)
      && files == (set r | r in rows :: r.id)
      && Total(rows) <= FLIGHT_MAX_BYTES
    }

    constructor ()
      ensures Valid() && rows == []
    {
      rows, files := [], {};
    }

    method DeleteRows(gone: seq<Row>)
      requires DistinctIds(rows) && files == (set r | r in rows :: r.id)
      requires forall r :: r in gone ==> r in rows
      modifies this
      ensures DistinctIds(rows) && files == (set r | r in rows :: r.id)
      ensures forall r :: r in rows <==> r in old(rows) && r !in gone
    {
      files := files - set r | r in gone :: r.id;
      rows := Keep(rows, gone);
      KeepMembers(old(rows), gone);
      forall r, g | r in rows && g in gone ensures r.id != g.id {
        var i :| 0 <= i < |old(rows)| && old(rows)[i] == r;
        var j :| 0 <= j < |old(rows)| && old(rows)[j] == g;
      }
    }

    method Evict(now: Stamp)
      requires DistinctIds(rows) && files == (set r | r in rows :: r.id)
      modifies this
      ensures Valid()
      ensures multiset(rows) == multiset(Survivors(old(rows), now))
      ensures forall r :: r in rows <==> Stays(r, old(rows), now)
    {
      UnexpiredMembers(rows, now);
      var expired := ExpiredRows(rows, now);
      DeleteRows(expired);
      SameMembers(rows, Unexpired(old(rows), now));
      SortIsCanonical(rows, Unexpired(old(rows), now));
      DropOldest();
      forall r ensures r in rows <==> Stays(r, old(rows), now) {
        SurvivesIffStays(old(rows), now, r);
        assert r in rows <==> r in multiset(rows);
        assert r in Survivors(old(rows), now) <==> r in multiset(Survivors(old(rows), now));
      }
    }

    /** The loop over the rows in order: drop the oldest until the rest fits. */
    method DropOldest()
      requires DistinctIds(rows) && files == (set r | r in rows :: r.id)
      modifies this
      ensures Valid()
      ensures multiset(rows) == multiset(FittingSuffix(Sort(old(rows))))
    {
      var ordered := Sort(rows);
      SortSorts(rows);
      TotalOfMultiset(rows, ordered);
      var total := Total(rows);
      var remove: seq<Row> := [];
      var i := 0;
      while i < |ordered| && total > FLIGHT_MAX_BYTES
        invariant 0 <= i <= |ordered| && remove == ordered[..i] && total == Total(ordered[i..])
        invariant FittingSuffix(ordered) == FittingSuffix(ordered[i..])
      {
        assert ordered[i..][1..] == ordered[i + 1..];
        total := total - ordered[i].bytes;
        remove := remove + [ordered[i]];
        i := i + 1;
      }
      PermutationKeepsDistinct(rows, ordered);
      SplitMembers(rows, ordered, i);
      DeleteRows(remove);
      SameMembers(rows, ordered[i..]);
      TotalOfMultiset(rows, ordered[i..]);
    }

    /** Refuses a record larger than the ring; otherwise stores it and evicts. */
    method Append(id: nat, now: Stamp, bytes: nat) returns (ok: bool)
      requires Valid() && id !in files
      modifies this
      ensures Valid()
      ensures ok <==> bytes <= FLIGHT_MAX_BYTES
      ensures !ok ==> rows == old(rows)
      ensures ok ==> multiset(rows) == multiset(Survivors(old(rows) + [Row(id, now, bytes)], now))
      ensures ok ==> forall r :: r in rows <==> Stays(r, old(rows) + [Row(id, now, bytes)], now)
    {
      ok := bytes <= FLIGHT_MAX_BYTES;
      if ok {
        files := files + {id};
        rows := rows + [Row(id, now, bytes)];
        forall i | 0 <= i < |old(rows)| ensures rows[i].id != id { assert old(rows)[i] in old(rows); }
        Evict(now);
      }
    }

    method Purge() returns (deleted: nat)
      requires Valid()
      modifies this
      ensures Valid() && rows == [] && files == {} && deleted == |old(rows)|
    {
      deleted := |rows|;
      rows, files := [], {};
    }
  }

  /** Cutting a permutation in two splits its members. */
  lemma SplitMembers(rows: seq<Row>, ordered: seq<Row>, i: nat)
    requires multiset(rows) == multiset(ordered) && DistinctIds(ordered) && i <= |ordered|
    ensures forall r :: r in ordered[..i] ==> r in rows
    ensures forall r :: r in ordered[i..] <==> r in rows && r !in ordered[..i]
    ensures DistinctIds(ordered[i..])
  {
    forall r ensures r in ordered[i..] <==> r in rows && r !in ordered[..i] {
      assert r in rows <==> r in multiset(ordered);
      assert ordered == ordered[..i] + ordered[i..];
    }
    forall r | r in ordered[..i] ensures r in rows {
      assert r in multiset(ordered);
    }
  }

  function ExpiredRows(rows: seq<Row>, now: Stamp): (r: seq<Row>)
    ensures forall x :: x in r <==> x in rows && Expired(x, now)
  {
    if rows == [] then []
    else (if Expired(rows[0], now) then [rows[0]] else []) + ExpiredRows(rows[1..], now)
  }

  function Keep(rows: seq<Row>, gone: seq<Row>): seq<Row> {
    if rows == [] then []
    else (if rows[0] in gone then [] else [rows[0]]) + Keep(rows[1..], gone)
  }

  lemma {:induction false} KeepMembers(rows: seq<Row>, gone: seq<Row>)
    ensures forall r :: r in Keep(rows, gone) <==> r in rows && r !in gone
    ensures DistinctIds(rows) ==> DistinctIds(Keep(rows, gone))
  {
    if rows != [] {
      KeepMembers(rows[1..], gone);
      var rest := Keep(rows[1..], gone);
      assert DistinctIds(rows) ==> DistinctIds(rows[1..]);
      assert DistinctIds(rows) ==> forall r :: r in rows[1..] ==> r.id != rows[0].id;
      assert forall i :: 0 <= i < |rest| ==> rest[i] in rest;
    }
  }

  /** With distinct identifiers the order is total, so sorting does not depend on the table order. */
  lemma SortIsCanonical(a: seq<Row>, b: seq<Row>)
    requires multiset(a) == multiset(b) && DistinctIds(a)
    ensures Sort(a) == Sort(b)
  {
    SortSorts(a);
    SortSorts(b);
    PermutationKeepsDistinct(a, Sort(a));
    OrderedIsUnique(Sort(a), Sort(b));
  }

  lemma FirstsAgree(a: seq<Row>, b: seq<Row>)
    requires Ordered(a) && Ordered(b) && multiset(a) == multiset(b) && DistinctIds(a) && a != []
    ensures b != [] && a[0] == b[0]
  {
    assert a[0] in multiset(b);
    assert b[0] in multiset(a);
    var i :| 0 <= i < |b| && b[i] == a[0];
    var j :| 0 <= j < |a| && a[j] == b[0];
    assert InOrder(a[0], b[0]) && InOrder(b[0], a[0]);
    Antisymmetric(a[0], a[j]);
  }

  lemma OrderedTail(a: seq<Row>) returns (x: seq<Row>)
    requires Ordered(a) && DistinctIds(a) && a != []
    ensures |x| == |a| - 1 && a == [a[0]] + x && multiset(x) == multiset(a) - multiset{a[0]}
    ensures Ordered(x) && DistinctIds(x)
  {
    x := a[1..];
    assert a == [a[0]] + x;
  }

  lemma {:induction false} OrderedIsUnique(a: seq<Row>, b: seq<Row>)
    requires Ordered(a) && Ordered(b) && multiset(a) == multiset(b) && DistinctIds(a)
    ensures a == b
    decreases |a|
  {
    if a == [] {
      assert |b| == |multiset(b)| == 0;
    } else {
      FirstsAgree(a, b);
      PermutationKeepsDistinct(a, b);
      var x := OrderedTail(a);
      var y := OrderedTail(b);
      OrderedIsUnique(x, y);
    }
  }
}
