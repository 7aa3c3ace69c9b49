/**
 Interval tables: an SQL table whose primary key is the first id of a closed interval.
 Such a table stands for a partial map from ids to values. A canonical table is disjoint
 and maximally coalesced; two canonical tables that stand for the same map are equal.
 */
module Intervals {
  import opened Wrappers

  /** The columns of an interval row other than its key `first`. */
  datatype Span<+V> = Span(last: int, value: V)

  datatype Row<+V> = Row(first: int, last: int, value: V)

  type Table<V> = map<int, Span<V>>

  ghost predicate Covers<V>(t: Table<V>, f: int, k: int) {
    f in t && f <= k <= t[f].last
  }

  ghost predicate Disjoint<V>(t: Table<V>) {
    && (forall f :: f in t ==> f <= t[f].last)
    && (forall f, g :: f in t && g in t && f < g ==> t[f].last < g)
  }

  /** No row touches a later row that carries the same value. */
  ghost predicate Coalesced<V>(t: Table<V>) {
    forall f, g :: f in t && g in t && t[f].last + 1 == g ==> t[f].value != t[g].value
  }

  ghost predicate Canonical<V>(t: Table<V>) {
    Disjoint(t) && Coalesced(t)
  }

  /** The value the table gives to id `k`. */
  ghost function At<V>(t: Table<V>, k: int): Option<V> {
    if f :| Covers(t, f, k) then Some(t[f].value) else None
  }

  lemma AtIs<V>(t: Table<V>, f: int, k: int)
    requires Disjoint(t) && Covers(t, f, k)
    ensures At(t, k) == Some(t[f].value)
  {
    assert exists g :: Covers(t, g, k) && At(t, k) == Some(t[g].value);
    var g :| Covers(t, g, k) && At(t, k) == Some(t[g].value);
    assert Covers(t, g, k);
    assert !(f < g) && !(g < f);
  }

  /** Two canonical tables that agree at every id agree on each row of the first. */
  lemma SameRow<V>(a: Table<V>, b: Table<V>, f: int)
    requires Canonical(a) && Canonical(b)
    requires forall k :: At(a, k) == At(b, k)
    requires f in a
    ensures f in b && a[f].last <= b[f].last && a[f].value == b[f].value
  {
    AtIs(a, f, f);
    var g :| Covers(b, g, f);
    AtIs(b, g, f);
    if g < f {
      AtIs(b, g, f - 1);
      var h :| Covers(a, h, f - 1);
      AtIs(a, h, f - 1);
      assert false;
    }
    if b[g].last < a[f].last {
      var k := b[g].last + 1;
      AtIs(a, f, k);
      var h :| Covers(b, h, k);
      AtIs(b, h, k);
      assert false;
    }
  }

  /** A canonical table is determined by the map it stands for. */
  lemma CanonicalUnique<V>(a: Table<V>, b: Table<V>)
    requires Canonical(a) && Canonical(b)
    requires forall k :: At(a, k) == At(b, k)
    ensures a == b
  {
    forall f | f in a ensures f in b && a[f] == b[f] { SameRow(a, b, f); SameRow(b, a, f); }
    forall f | f in b ensures f in a { SameRow(b, a, f); }
  }

  // ---- Queries ----

  /** `WHERE first_id<=? ORDER BY first_id DESC LIMIT 1`. */
  function Predecessor<V>(t: Table<V>, k: int): (r: Option<int>)
    ensures r.None? <==> forall f :: f in t ==> k < f
    ensures r.Some? ==> r.value in t && r.value <= k && forall f :: f in t && f <= k ==> f <= r.value
  {
    var below := set f | f in t && f <= k;
    if below == {} then assert forall f :: f in t ==> f in below || k < f; None
    else
      MaximumExists(below);
      var m :| m in below && forall f :: f in below ==> f <= m;
      assert forall f :: f in t && f <= k ==> f in below;
      Some(m)
  }

  lemma {:induction false} MaximumExists(s: set<int>)
    requires s != {}
    ensures exists m :: m in s && forall f :: f in s ==> f <= m
    decreases s
  {
    Inhabited(s);
    var x :| x in s;
    if s != {x} {
      var rest := s - {x};
      MaximumExists(rest);
      var m :| m in rest && forall f :: f in rest ==> f <= m;
      var best := if m < x then x else m;
      forall f | f in s ensures f <= best { assert f == x || f in rest; }
      assert best in s;
    }
  }

  /** The one-row predecessor lookup reads the table's map, gaps included. */
  lemma PredecessorReads<V>(t: Table<V>, k: int)
    requires Disjoint(t)
    ensures At(t, k) == match Predecessor(t, k)
                        case None => None
                        case Some(f) => if k <= t[f].last then Some(t[f].value) else None
  {
    match Predecessor(t, k) {
      case None =>
      case Some(f) =>
        if k <= t[f].last {
          AtIs(t, f, k);
        } else if g :| Covers(t, g, k) {
          assert false;
        }
    }
  }

  /** `WHERE first_id BETWEEN from AND upto AND last_id>=least ORDER BY first_id`. */
  function Select<V>(t: Table<V>, from: int, upto: int, least: int): (rows: seq<Row<V>>)
    ensures forall i :: 0 <= i < |rows| ==>
      && rows[i].first in t && from <= rows[i].first <= upto && least <= rows[i].last
      && t[rows[i].first] == Span(rows[i].last, rows[i].value)
    ensures forall i, j :: 0 <= i < j < |rows| ==> rows[i].first < rows[j].first
    decreases if upto < from then 0 else upto - from + 1
  {
    if upto < from then [] else
      Select(t, from, upto - 1, least)
      + if upto in t && least <= t[upto].last then [Row(upto, t[upto].last, t[upto].value)] else []
  }

  lemma {:induction false} SelectAll<V>(t: Table<V>, from: int, upto: int, least: int, f: int)
    requires from <= f <= upto && f in t && least <= t[f].last
    ensures Row(f, t[f].last, t[f].value) in Select(t, from, upto, least)
    decreases upto - f
  {
    if f == upto {
    } else {
      SelectAll(t, from, upto - 1, least, f);
    }
  }

  // ---- Updates ----

  /** Rows in key order that do not overlap; touching rows carry different values. */
  ghost predicate Ordered<V>(rows: seq<Row<V>>) {
    && (forall i :: 0 <= i < |rows| ==> rows[i].first <= rows[i].last)
    && (forall i, j :: 0 <= i < j < |rows| ==> rows[i].last < rows[j].first)
    && (forall i, j :: 0 <= i < j < |rows| && rows[i].last + 1 == rows[j].first ==> rows[i].value != rows[j].value)
  }

  /** INSERT the rows; a key already present would be an IntegrityError. */
  function Insert<V>(t: Table<V>, rows: seq<Row<V>>): (r: Table<V>)
    requires forall i :: 0 <= i < |rows| ==> rows[i].first !in t
    requires forall i, j :: 0 <= i < j < |rows| ==> rows[i].first != rows[j].first
    ensures forall f :: f in t ==> f in r && r[f] == t[f]
    ensures forall i :: 0 <= i < |rows| ==> rows[i].first in r && r[rows[i].first] == Span(rows[i].last, rows[i].value)
    ensures forall f :: f in r ==> f in t || exists i :: 0 <= i < |rows| && rows[i].first == f
    decreases |rows|
  {
    if rows == [] then t else
      var row := rows[|rows| - 1];
      Insert(t, rows[..|rows| - 1])[row.first := Span(row.last, row.value)]
  }

  /** What is left of `t` after deleting `removed` lies outside the interval [a, b]. */
  ghost predicate Outside<V>(t: Table<V>, removed: set<int>, a: int, b: int) {
    forall f :: f in t && f !in removed ==> t[f].last < a || b < f
  }

  /** No kept row touches, with the same value, an end of the rows that replace [a, b]. */
  ghost predicate Parted<V>(t: Table<V>, removed: set<int>, rows: seq<Row<V>>) {
    forall f, i :: f in t && f !in removed && 0 <= i < |rows| ==>
      && (t[f].last + 1 == rows[i].first ==> t[f].value != rows[i].value)
      && (rows[i].last + 1 == f ==> t[f].value != rows[i].value)
  }

  ghost predicate Within<V>(rows: seq<Row<V>>, a: int, b: int) {
    forall i :: 0 <= i < |rows| ==> a <= rows[i].first && rows[i].last <= b
  }

  lemma SpliceDisjoint<V>(t: Table<V>, removed: set<int>, rows: seq<Row<V>>, a: int, b: int)
    requires Disjoint(t) && Ordered(rows) && Within(rows, a, b) && Outside(t, removed, a, b)
    ensures (forall i :: 0 <= i < |rows| ==> rows[i].first !in t - removed)
    ensures Disjoint(Insert(t - removed, rows))
  {
    var kept := t - removed;
    forall i | 0 <= i < |rows| ensures rows[i].first !in kept {}
    var r := Insert(kept, rows);
    forall f, g | f in r && g in r && f < g ensures r[f].last < g {
      if f in kept {
        if g !in kept { var j :| 0 <= j < |rows| && rows[j].first == g; }
      } else {
        var i :| 0 <= i < |rows| && rows[i].first == f;
        if g !in kept { var j :| 0 <= j < |rows| && rows[j].first == g; }
      }
    }
    forall f | f in r ensures f <= r[f].last {
      if f !in kept { var i :| 0 <= i < |rows| && rows[i].first == f; }
    }
  }

  /** Replacing the rows inside [a, b] keeps a table canonical. */
  lemma SpliceCanonical<V>(t: Table<V>, removed: set<int>, rows: seq<Row<V>>, a: int, b: int)
    requires Canonical(t) && Ordered(rows) && Within(rows, a, b)
    requires Outside(t, removed, a, b) && Parted(t, removed, rows)
    requires forall i :: 0 <= i < |rows| ==> rows[i].first !in t - removed
    ensures Canonical(Insert(t - removed, rows))
  {
    SpliceDisjoint(t, removed, rows, a, b);
    var kept := t - removed;
    var r := Insert(kept, rows);
    hide Insert, Disjoint, Within, Outside, Ordered, Parted;
    forall f, g | f in r && g in r && r[f].last + 1 == g ensures r[f].value != r[g].value {
      SplicedApart(t, removed, rows, f, g);
    }
  }

  lemma KeptApart<V>(t: Table<V>, f: int, g: int)
    requires Canonical(t) && f in t && g in t && f < g
    ensures t[f].last + 1 == g ==> t[f].value != t[g].value
  {
  }

  lemma PartedApart<V>(t: Table<V>, removed: set<int>, rows: seq<Row<V>>, f: int, i: nat)
    requires Parted(t, removed, rows) && f in t && f !in removed && i < |rows|
    ensures t[f].last + 1 == rows[i].first ==> t[f].value != rows[i].value
    ensures rows[i].last + 1 == f ==> t[f].value != rows[i].value
  {
  }

  lemma OrderedApart<V>(rows: seq<Row<V>>, i: nat, j: nat)
    requires Ordered(rows) && i < |rows| && j < |rows|
    ensures rows[i].last + 1 == rows[j].first ==> rows[i].value != rows[j].value
  {
    assert j < i ==> rows[j].last < rows[i].first;
  }

  lemma SplicedApart<V>(t: Table<V>, removed: set<int>, rows: seq<Row<V>>, f: int, g: int)
    requires Canonical(t) && Ordered(rows) && Parted(t, removed, rows)
    requires forall i :: 0 <= i < |rows| ==> rows[i].first !in t - removed
    requires var r := Insert(t - removed, rows); f in r && g in r && f <= r[f].last && r[f].last + 1 == g
    ensures var r := Insert(t - removed, rows); r[f].value != r[g].value
  {
    var kept := t - removed;
    var r := Insert(kept, rows);
    hide Insert;
    if f in kept && g in kept {
      KeptApart(t, f, g);
    } else if f in kept {
      var j :| 0 <= j < |rows| && rows[j].first == g;
      hide *;
      PartedApart(t, removed, rows, f, j);
    } else if g in kept {
      var i :| 0 <= i < |rows| && rows[i].first == f;
      hide *;
      PartedApart(t, removed, rows, g, i);
    } else {
      var i :| 0 <= i < |rows| && rows[i].first == f;
      var j :| 0 <= j < |rows| && rows[j].first == g;
      hide *;
      OrderedApart(rows, i, j);
    }
  }

  /** Outside [a, b] the map is unchanged; inside, it is what the new rows say. */
  lemma SpliceAt<V>(t: Table<V>, removed: set<int>, rows: seq<Row<V>>, a: int, b: int, k: int)
    requires Disjoint(t) && Ordered(rows) && Within(rows, a, b) && Outside(t, removed, a, b)
    requires forall f :: f in removed && f in t ==> a <= f && t[f].last <= b
    requires forall i :: 0 <= i < |rows| ==> rows[i].first !in t - removed
    ensures !(a <= k <= b) ==> At(Insert(t - removed, rows), k) == At(t, k)
    ensures forall i :: 0 <= i < |rows| && rows[i].first <= k <= rows[i].last ==>
      At(Insert(t - removed, rows), k) == Some(rows[i].value)
    ensures a <= k <= b && (forall i :: 0 <= i < |rows| ==> !(rows[i].first <= k <= rows[i].last)) ==>
      At(Insert(t - removed, rows), k) == None
  {
    SpliceDisjoint(t, removed, rows, a, b);
    var kept := t - removed;
    var r := Insert(kept, rows);
    forall i | 0 <= i < |rows| && rows[i].first <= k <= rows[i].last ensures At(r, k) == Some(rows[i].value) {
      AtIs(r, rows[i].first, k);
    }
    if !(a <= k <= b) {
      if f :| Covers(t, f, k) {
        AtIs(t, f, k);
        AtIs(r, f, k);
      } else if f :| Covers(r, f, k) {
        assert f in kept && Covers(t, f, k);
      }
    } else if f :| Covers(r, f, k) {
      AtIs(r, f, k);
      if f in kept { assert false; }
    }
  }

  // ---- Row lists ----

  ghost predicate Listed<V>(rows: seq<Row<V>>) {
    && (forall i :: 0 <= i < |rows| ==> rows[i].first <= rows[i].last)
    && (forall i, j :: 0 <= i < j < |rows| ==> rows[i].last < rows[j].first)
  }

  /** Rows that follow one another without a gap. */
  ghost predicate Contiguous<V>(rows: seq<Row<V>>) {
    && Listed(rows)
    && (forall i :: 0 <= i < |rows| - 1 ==> rows[i].last + 1 == rows[i + 1].first)
  }

  ghost predicate Hits<V>(rows: seq<Row<V>>, i: int, k: int) {
    0 <= i < |rows| && rows[i].first <= k <= rows[i].last
  }

  ghost function RowAt<V>(rows: seq<Row<V>>, k: int): Option<V> {
    if i :| Hits(rows, i, k) then Some(rows[i].value) else None
  }

  lemma RowAtIs<V>(rows: seq<Row<V>>, i: int, k: int)
    requires Listed(rows) && Hits(rows, i, k)
    ensures RowAt(rows, k) == Some(rows[i].value)
  {
    assert exists j :: Hits(rows, j, k) && RowAt(rows, k) == Some(rows[j].value);
    var j :| Hits(rows, j, k) && RowAt(rows, k) == Some(rows[j].value);
    assert Hits(rows, j, k);
    assert !(i < j) && !(j < i);
  }

  lemma {:induction false} ContiguousHits<V>(rows: seq<Row<V>>, k: int) returns (i: int)
    requires Contiguous(rows) && rows != [] && rows[0].first <= k <= rows[|rows| - 1].last
    ensures Hits(rows, i, k)
    decreases |rows|
  {
    if rows[|rows| - 1].first <= k { i := |rows| - 1; } else { i := ContiguousHits(rows[..|rows| - 1], k); }
  }

  /** What is left of a row when one of its ids is cut out. */
  function Remnants<V>(first: int, last: int, value: V, key: int): seq<Row<V>> {
    (if first < key then [Row(first, key - 1, value)] else []) + (if key < last then [Row(key + 1, last, value)] else [])
  }

  ghost predicate HitsValue<V>(rows: seq<Row<V>>, k: int, v: V) {
    exists i :: Hits(rows, i, k) && rows[i].value == v
  }

  lemma RemnantsFit<V>(t: Table<V>, first: int, key: int)
    requires Canonical(t) && Covers(t, first, key)
    ensures var rows := Remnants(first, t[first].last, t[first].value, key);
            && Ordered(rows) && Within(rows, first, t[first].last)
            && Outside(t, {first}, first, t[first].last) && Parted(t, {first}, rows)
            && (forall k :: first <= k <= t[first].last && k != key ==> HitsValue(rows, k, t[first].value))
            && (forall i :: 0 <= i < |rows| ==> !(rows[i].first <= key <= rows[i].last))
  {
    var rows := Remnants(first, t[first].last, t[first].value, key);
    forall k | first <= k <= t[first].last && k != key ensures HitsValue(rows, k, t[first].value) {
      assert Hits(rows, if k < key then 0 else |rows| - 1, k);
    }
  }

  lemma PuncturedAt<V>(t: Table<V>, first: int, key: int, k: int)
    requires Canonical(t) && Covers(t, first, key)
    requires var rows := Remnants(first, t[first].last, t[first].value, key);
             && (forall i :: 0 <= i < |rows| ==> rows[i].first !in t - {first})
             && (forall i, j :: 0 <= i < j < |rows| ==> rows[i].first != rows[j].first)
    ensures var rows := Remnants(first, t[first].last, t[first].value, key);
            At(Insert(t - {first}, rows), k) == if k == key then None else At(t, k)
  {
    hide Remnants, Outside, Parted, Within, Insert, At;
    var last, v := t[first].last, t[first].value;
    var rows := Remnants(first, last, v, key);
    RemnantsFit(t, first, key);
    SpliceAt(t, {first}, rows, first, last, k);
    if first <= k <= last {
      AtIs(t, first, k);
      if k != key {
        assert HitsValue(rows, k, v);
        var i :| Hits(rows, i, k) && rows[i].value == v;
      }
    }
  }

  /** Cutting one id out of its row removes that id from the map and nothing else. */
  lemma Punctured<V>(t: Table<V>, first: int, key: int)
    requires Canonical(t) && Covers(t, first, key)
    ensures var rows := Remnants(first, t[first].last, t[first].value, key);
            && (forall i :: 0 <= i < |rows| ==> rows[i].first !in t - {first})
            && (forall i, j :: 0 <= i < j < |rows| ==> rows[i].first != rows[j].first)
            && Canonical(Insert(t - {first}, rows))
            && forall k :: At(Insert(t - {first}, rows), k) == if k == key then None else At(t, k)
  {
    var last := t[first].last;
    var rows := Remnants(first, last, t[first].value, key);
    RemnantsFit(t, first, key);
    SpliceDisjoint(t, {first}, rows, first, last);
    SpliceCanonical(t, {first}, rows, first, last);
    hide *;
    forall k ensures At(Insert(t - {first}, rows), k) == if k == key then None else At(t, k) {
      PuncturedAt(t, first, key, k);
    }
  }

  lemma RowsWithin<V>(rows: seq<Row<V>>)
    requires Ordered(rows) && rows != []
    ensures Within(rows, rows[0].first, rows[|rows| - 1].last)
  {
    forall i | 0 <= i < |rows| ensures rows[0].first <= rows[i].first && rows[i].last <= rows[|rows| - 1].last {
      assert i == 0 || rows[0].last < rows[i].first;
      assert i == |rows| - 1 || rows[i].last < rows[|rows| - 1].first;
    }
  }

  /** A table filled from ordered rows is canonical. */
  lemma FilledCanonical<V>(rows: seq<Row<V>>)
    requires Ordered(rows)
    ensures Canonical(Insert(map[], rows))
  {
    var empty: Table<V> := map[];
    assert empty - {} == empty;
    if rows != [] {
      RowsWithin(rows);
      SpliceCanonical(empty, {}, rows, rows[0].first, rows[|rows| - 1].last);
    }
  }

  lemma FilledAt<V>(rows: seq<Row<V>>, k: int)
    requires Ordered(rows)
    ensures At(Insert(map[], rows), k) == RowAt(rows, k)
  {
    FilledCanonical(rows);
    var r := Insert(map[], rows);
    if i :| Hits(rows, i, k) {
      RowAtIs(rows, i, k);
      AtIs(r, rows[i].first, k);
    } else {
      forall f ensures !Covers(r, f, k) {
        if f in r {
          var i :| 0 <= i < |rows| && rows[i].first == f;
          assert !Hits(rows, i, k);
        }
      }
    }
  }
}
