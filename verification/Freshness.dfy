/**
 Latest-sighting intervals. The table stands for a map from ids to sightings; stamping a span
 keeps a strictly newer sighting and overwrites every other id of the span.
 */
module Freshness {
  import opened Wrappers
  import opened Intervals

  datatype Sighting = Sighting(at: int, run: Option<string>)

  /** What one id holds after a stamp: a strictly newer sighting survives. */
  function Keep(prior: Option<Sighting>, s: Sighting): Sighting {
    if prior.Some? && s.at < prior.value.at then prior.value else s
  }

  ghost predicate InSpans(spans: seq<(int, int)>, k: int) {
    exists i :: 0 <= i < |spans| && spans[i].0 <= k <= spans[i].1
  }

  /** The interval rows that overlap [lo, hi], in key order. */
  ghost predicate IsOverlap<V>(t: Table<V>, rows: seq<Row<V>>, lo: int, hi: int) {
    && Listed(rows)
    && (forall i :: 0 <= i < |rows| ==>
         rows[i].first in t && t[rows[i].first] == Span(rows[i].last, rows[i].value) && rows[i].first <= hi && lo <= rows[i].last)
    && (forall f :: f in t && f <= hi && lo <= t[f].last ==> Row(f, t[f].last, t[f].value) in rows)
  }

  lemma OverlapAt<V>(t: Table<V>, rows: seq<Row<V>>, lo: int, hi: int, k: int)
    requires Disjoint(t) && IsOverlap(t, rows, lo, hi)
    requires lo <= k <= hi || exists i :: Hits(rows, i, k)
    ensures At(t, k) == RowAt(rows, k)
  {
    if i :| Hits(rows, i, k) {
      RowAtIs(rows, i, k);
      AtIs(t, rows[i].first, k);
    } else {
      forall f ensures !Covers(t, f, k) {
        var held := f in t && f <= hi && lo <= t[f].last;
        if held {
          var i :| 0 <= i < |rows| && rows[i] == Row(f, t[f].last, t[f].value);
          assert Covers(t, f, k) <==> Hits(rows, i, k);
        }
      }
    }
  }

  /** The value an id of the repainted stretch must carry. */
  ghost function Painted(prior: seq<Row<Sighting>>, lo: int, hi: int, s: Sighting, k: int): Option<Sighting> {
    if lo <= k <= hi then Some(Keep(RowAt(prior, k), s)) else RowAt(prior, k)
  }

  ghost predicate Paints(rows: seq<Row<Sighting>>, prior: seq<Row<Sighting>>, lo: int, hi: int, s: Sighting) {
    forall i, k :: Hits(rows, i, k) ==> Painted(prior, lo, hi, s, k) == Some(rows[i].value)
  }

  /** The pieces cut so far tile [start, end] and carry the painted values. */
  ghost predicate Tiles(pieces: seq<Row<Sighting>>, prior: seq<Row<Sighting>>, lo: int, hi: int, s: Sighting,
                        start: int, end: int) {
    && Contiguous(pieces) && Paints(pieces, prior, lo, hi, s)
    && (if pieces == [] then end == start - 1 else pieces[0].first == start && pieces[|pieces| - 1].last == end)
  }

  lemma Tile(pieces: seq<Row<Sighting>>, row: Row<Sighting>, v: Option<Sighting>, prior: seq<Row<Sighting>>, lo: int, hi: int, s: Sighting,
             start: int, end: int)
    requires Tiles(pieces, prior, lo, hi, s, start, end)
    requires row.first == end + 1 && row.first <= row.last
    requires AllAt(prior, row.first, row.last, v)
    requires if lo <= row.first && row.last <= hi then row.value == Keep(v, s) else (row.last < lo || hi < row.first) && v == Some(row.value)
    ensures Tiles(pieces + [row], prior, lo, hi, s, start, row.last)
  {
    var more := pieces + [row];
    forall i, k | Hits(more, i, k) ensures Painted(prior, lo, hi, s, k) == Some(more[i].value) {
      if i < |pieces| { assert Hits(pieces, i, k); }
    }
    forall i, j | 0 <= i < j < |more| ensures more[i].last < more[j].first {
      if j == |pieces| { assert pieces[i].last <= pieces[|pieces| - 1].last; }
    }
  }

  ghost predicate AllAt(prior: seq<Row<Sighting>>, a: int, b: int, v: Option<Sighting>) {
    forall k :: a <= k <= b ==> RowAt(prior, k) == v
  }

  /** Ids between two neighbouring rows of the list carry no sighting yet. */
  lemma GapIsEmpty(prior: seq<Row<Sighting>>, n: nat, a: int, b: int)
    requires Listed(prior) && n <= |prior|
    requires n > 0 ==> prior[n - 1].last < a
    requires n < |prior| ==> b < prior[n].first
    ensures AllAt(prior, a, b, None)
  {
    forall k, i | a <= k <= b && 0 <= i < |prior| ensures !Hits(prior, i, k) {
      if i < n { assert i == n - 1 || prior[i].last < prior[n - 1].first; } else { assert i == n || prior[n].last < prior[i].first; }
    }
  }

  lemma NoTiles(prior: seq<Row<Sighting>>, lo: int, hi: int, s: Sighting, start: int)
    ensures Tiles([], prior, lo, hi, s, start, start - 1)
  {
  }

  lemma NextListed(prior: seq<Row<Sighting>>, n: nat)
    requires Listed(prior) && n < |prior|
    ensures prior[n].first <= prior[n].last && (n > 0 ==> prior[n - 1].last < prior[n].first)
  {
  }

  /** Rows from `lo` up to `hi`, with what the first and last overlapped row have beyond. */
  method Cut(prior: seq<Row<Sighting>>, lo: int, hi: int, s: Sighting) returns (pieces: seq<Row<Sighting>>)
    requires Listed(prior) && lo <= hi
    requires forall i :: 0 <= i < |prior| ==> prior[i].first <= hi && lo <= prior[i].last
    ensures pieces != []
    ensures Tiles(pieces, prior, lo, hi, s,
                  if prior != [] && prior[0].first < lo then prior[0].first else lo,
                  if prior != [] && hi < prior[|prior| - 1].last then prior[|prior| - 1].last else hi)
  {
    hide Tiles, Listed, RowAt;
    pieces := [];
    var position := lo;
    var n := 0;
    ghost var start := if prior != [] && prior[0].first < lo then prior[0].first else lo;
    ghost var end := start - 1;
    NoTiles(prior, lo, hi, s, start);
    while n < |prior|
      invariant 0 <= n <= |prior|
      invariant n == 0 ==> position == lo && pieces == [] && end == start - 1
      invariant n > 0 ==> pieces != [] && end == prior[n - 1].last
      invariant n > 0 ==> position == (if hi < prior[n - 1].last then hi else prior[n - 1].last) + 1
      invariant Tiles(pieces, prior, lo, hi, s, start, end)
    {
      var row := prior[n];
      NextListed(prior, n);
      CoveredValue(prior, n);
      var v := Some(row.value);
      if row.first < lo {
        Tile(pieces, Row(row.first, lo - 1, row.value), v, prior, lo, hi, s, start, end);
        pieces, end := pieces + [Row(row.first, lo - 1, row.value)], lo - 1;
      }
      if position < row.first {
        GapIsEmpty(prior, n, position, row.first - 1);
        Tile(pieces, Row(position, row.first - 1, s), None, prior, lo, hi, s, start, end);
        pieces, end := pieces + [Row(position, row.first - 1, s)], row.first - 1;
      }
      var a := if row.first < lo then lo else row.first;
      var b := if hi < row.last then hi else row.last;
      var piece := Row(a, b, if s.at < row.value.at then row.value else s);
      Tile(pieces, piece, v, prior, lo, hi, s, start, end);
      pieces, end, position := pieces + [piece], b, b + 1;
      if hi < row.last {
        Tile(pieces, Row(hi + 1, row.last, row.value), v, prior, lo, hi, s, start, end);
        pieces, end := pieces + [Row(hi + 1, row.last, row.value)], row.last;
      }
      n := n + 1;
    }
    if position <= hi {
      GapIsEmpty(prior, n, position, hi);
      Tile(pieces, Row(position, hi, s), None, prior, lo, hi, s, start, end);
      pieces := pieces + [Row(position, hi, s)];
    }
  }

  lemma CoveredValue(prior: seq<Row<Sighting>>, n: nat)
    requires Listed(prior) && n < |prior|
    ensures AllAt(prior, prior[n].first, prior[n].last, Some(prior[n].value))
  {
    forall k | prior[n].first <= k <= prior[n].last ensures RowAt(prior, k) == Some(prior[n].value) {
      RowAtIs(prior, n, k);
    }
  }

  /** `merged` joins the first `n` pieces: same ends, same values at every id, neighbours differ. */
  ghost predicate Joins<V>(merged: seq<Row<V>>, pieces: seq<Row<V>>, n: nat) {
    && n <= |pieces| && (n == 0 <==> merged == [])
    && (n > 0 ==>
         && merged[0].first == pieces[0].first && merged[0].value == pieces[0].value
         && merged[|merged| - 1].last == pieces[n - 1].last
         && merged[|merged| - 1].value == pieces[n - 1].value)
    && Contiguous(merged)
    && (forall i :: 0 <= i < |merged| - 1 ==> merged[i].value != merged[i + 1].value)
    && (forall i, k :: Hits(merged, i, k) ==> RowAt(pieces, k) == Some(merged[i].value))
  }

  lemma JoinLast<V>(merged: seq<Row<V>>, pieces: seq<Row<V>>, n: nat)
    requires Contiguous(pieces) && Joins(merged, pieces, n) && 0 < n < |pieces|
    requires merged[|merged| - 1].value == pieces[n].value
    ensures Joins(merged[..|merged| - 1] + [Row(merged[|merged| - 1].first, pieces[n].last, pieces[n].value)], pieces, n + 1)
  {
    var more := merged[..|merged| - 1] + [Row(merged[|merged| - 1].first, pieces[n].last, pieces[n].value)];
    forall i, k | Hits(more, i, k) ensures RowAt(pieces, k) == Some(more[i].value) {
      if k <= pieces[n - 1].last { assert Hits(merged, i, k); } else { RowAtIs(pieces, n, k); }
    }
  }

  lemma JoinNext<V>(merged: seq<Row<V>>, pieces: seq<Row<V>>, n: nat)
    requires Contiguous(pieces) && Joins(merged, pieces, n) && n < |pieces|
    requires n > 0 ==> merged[|merged| - 1].value != pieces[n].value
    ensures Joins(merged + [pieces[n]], pieces, n + 1)
  {
    var more := merged + [pieces[n]];
    forall i, k | Hits(more, i, k) ensures RowAt(pieces, k) == Some(more[i].value) {
      if i < |merged| { assert Hits(merged, i, k); } else { RowAtIs(pieces, n, k); }
    }
    forall i, j | 0 <= i < j < |more| ensures more[i].last < more[j].first {
      if j == |merged| { assert merged[i].last <= merged[|merged| - 1].last; }
    }
  }

  /** Joins neighbours that carry equal values. */
  method Merge<V(==)>(pieces: seq<Row<V>>) returns (merged: seq<Row<V>>)
    requires Contiguous(pieces)
    ensures Joins(merged, pieces, |pieces|) && Ordered(merged)
  {
    merged := [];
    var n := 0;
    while n < |pieces|
      invariant Joins(merged, pieces, n)
    {
      var piece := pieces[n];
      if merged != [] && merged[|merged| - 1].last + 1 == piece.first && merged[|merged| - 1].value == piece.value {
        JoinLast(merged, pieces, n);
        var previous := merged[|merged| - 1];
        merged := merged[..|merged| - 1] + [Row(previous.first, piece.last, piece.value)];
      } else {
        JoinNext(merged, pieces, n);
        merged := merged + [piece];
      }
      n := n + 1;
    }
    ContiguousOrdered(merged);
  }

  lemma ContiguousOrdered<V>(rows: seq<Row<V>>)
    requires Contiguous(rows) && forall i :: 0 <= i < |rows| - 1 ==> rows[i].value != rows[i + 1].value
    ensures Ordered(rows)
  {
    forall i, j | 0 <= i < j < |rows| && rows[i].last + 1 == rows[j].first ensures rows[i].value != rows[j].value {
      assert rows[i].value != rows[i + 1].value;
    }
  }

  // ---- One stamp on one span ----

  ghost function Want(t: Table<Sighting>, lo: int, hi: int, s: Sighting, k: int): Option<Sighting> {
    if lo <= k <= hi then Some(Keep(At(t, k), s)) else At(t, k)
  }

  /** Every id covered by `rows` carries there what the stamp must leave on it. */
  ghost predicate Shows(t: Table<Sighting>, rows: seq<Row<Sighting>>, lo: int, hi: int, s: Sighting) {
    forall i, k :: Hits(rows, i, k) ==> Want(t, lo, hi, s, k) == Some(rows[i].value)
  }

  /** `rows` tile [a, b], which holds the removed table rows and cuts no other. */
  ghost predicate Stretch(t: Table<Sighting>, removed: set<int>, rows: seq<Row<Sighting>>, a: int, b: int) {
    && rows != [] && Contiguous(rows) && rows[0].first == a && rows[|rows| - 1].last == b
    && Outside(t, removed, a, b)
    && (forall f :: f in removed ==> f in t && a <= f && t[f].last <= b)
  }

  /** No kept row touches the left (right) end of the stretch with an equal value. */
  ghost predicate LeftParted(t: Table<Sighting>, removed: set<int>, a: int, v: Sighting) {
    forall f :: f in t && f !in removed && t[f].last + 1 == a ==> t[f].value != v
  }

  ghost predicate RightParted(t: Table<Sighting>, removed: set<int>, b: int, v: Sighting) {
    b + 1 in t && b + 1 !in removed ==> t[b + 1].value != v
  }

  lemma SelectOverlaps(t: Table<Sighting>, lo: int, hi: int)
    requires Disjoint(t) && lo <= hi
    ensures var p := Predecessor(t, lo);
            IsOverlap(t, Select(t, if p.Some? then p.value else lo, hi, lo), lo, hi)
  {
    var p := Predecessor(t, lo);
    var start := if p.Some? then p.value else lo;
    forall f | f in t && f <= hi && lo <= t[f].last ensures Row(f, t[f].last, t[f].value) in Select(t, start, hi, lo) {
      assert start <= f;
      SelectAll(t, start, hi, lo, f);
    }
    var rows := Select(t, start, hi, lo);
    forall i, j | 0 <= i < j < |rows| ensures rows[i].last < rows[j].first {
      assert rows[i].first < rows[j].first;
    }
  }

  lemma CutShows(t: Table<Sighting>, prior: seq<Row<Sighting>>, pieces: seq<Row<Sighting>>, lo: int, hi: int, s: Sighting)
    requires Disjoint(t) && IsOverlap(t, prior, lo, hi) && Paints(pieces, prior, lo, hi, s)
    ensures Shows(t, pieces, lo, hi, s)
  {
    forall i, k | Hits(pieces, i, k) ensures Want(t, lo, hi, s, k) == Some(pieces[i].value) {
      assert Painted(prior, lo, hi, s, k) == Some(pieces[i].value);
      OverlapAt(t, prior, lo, hi, k);
    }
  }

  lemma CutStretch(t: Table<Sighting>, prior: seq<Row<Sighting>>, pieces: seq<Row<Sighting>>, lo: int, hi: int, s: Sighting,
                   a: int, b: int, removed: set<int>)
    requires Disjoint(t) && IsOverlap(t, prior, lo, hi) && lo <= hi
    requires pieces != [] && Tiles(pieces, prior, lo, hi, s, a, b)
    requires a == (if prior != [] && prior[0].first < lo then prior[0].first else lo)
    requires b == (if prior != [] && hi < prior[|prior| - 1].last then prior[|prior| - 1].last else hi)
    requires removed == set i | 0 <= i < |prior| :: prior[i].first
    ensures Stretch(t, removed, pieces, a, b)
  {
    forall f | f in t ensures f in removed || t[f].last < a || b < f {
      if f <= hi && lo <= t[f].last {
        var i :| 0 <= i < |prior| && prior[i] == Row(f, t[f].last, t[f].value);
        assert prior[i].first in removed;
      }
    }
    forall f | f in removed ensures f in t && a <= f && t[f].last <= b {
      var i :| 0 <= i < |prior| && prior[i].first == f;
      assert prior[0].first <= f && prior[i].last <= prior[|prior| - 1].last;
    }
  }

  /** A row that ends just before the stretch may join it. */
  lemma WidenLeft(t: Table<Sighting>, removed: set<int>, rows: seq<Row<Sighting>>, a: int, b: int, f: int, lo: int, hi: int, s: Sighting)
    requires Disjoint(t) && Stretch(t, removed, rows, a, b) && Shows(t, rows, lo, hi, s) && a <= lo
    requires f in t && t[f].last == a - 1
    ensures Stretch(t, removed + {f}, [Row(f, t[f].last, t[f].value)] + rows, f, b)
    ensures Shows(t, [Row(f, t[f].last, t[f].value)] + rows, lo, hi, s)
  {
    var more := [Row(f, t[f].last, t[f].value)] + rows;
    assert forall i :: 0 < i < |more| ==> more[i] == rows[i - 1];
    forall i, j | 0 <= i < j < |more| ensures more[i].last < more[j].first {
      if i == 0 { assert a <= rows[j - 1].first; }
    }
    forall i, k | Hits(more, i, k) ensures Want(t, lo, hi, s, k) == Some(more[i].value) {
      if i == 0 { AtIs(t, f, k); } else { assert Hits(rows, i - 1, k); }
    }
  }

  lemma WidenRight(t: Table<Sighting>, removed: set<int>, rows: seq<Row<Sighting>>, a: int, b: int, lo: int, hi: int, s: Sighting)
    requires Disjoint(t) && Stretch(t, removed, rows, a, b) && Shows(t, rows, lo, hi, s) && hi <= b
    requires b + 1 in t
    ensures Stretch(t, removed + {b + 1}, rows + [Row(b + 1, t[b + 1].last, t[b + 1].value)], a, t[b + 1].last)
    ensures Shows(t, rows + [Row(b + 1, t[b + 1].last, t[b + 1].value)], lo, hi, s)
  {
    var more := rows + [Row(b + 1, t[b + 1].last, t[b + 1].value)];
    forall i, j | 0 <= i < j < |more| ensures more[i].last < more[j].first {
      if j == |rows| { assert rows[i].last <= b; }
    }
    forall i, k | Hits(more, i, k) ensures Want(t, lo, hi, s, k) == Some(more[i].value) {
      if i == |rows| { AtIs(t, b + 1, k); } else { assert Hits(rows, i, k); }
    }
  }

  lemma MergedStretch(t: Table<Sighting>, removed: set<int>, pieces: seq<Row<Sighting>>, merged: seq<Row<Sighting>>,
                      a: int, b: int, lo: int, hi: int, s: Sighting)
    requires Stretch(t, removed, pieces, a, b) && Shows(t, pieces, lo, hi, s) && Joins(merged, pieces, |pieces|)
    ensures Stretch(t, removed, merged, a, b) && Shows(t, merged, lo, hi, s)
  {
    forall i, k | Hits(merged, i, k) ensures Want(t, lo, hi, s, k) == Some(merged[i].value) {
      assert RowAt(pieces, k) == Some(merged[i].value);
      var j :| Hits(pieces, j, k);
      RowAtIs(pieces, j, k);
    }
  }

  lemma StretchFits(t: Table<Sighting>, removed: set<int>, rows: seq<Row<Sighting>>, a: int, b: int)
    requires Disjoint(t) && Stretch(t, removed, rows, a, b)
    requires LeftParted(t, removed, a, rows[0].value) && RightParted(t, removed, b, rows[|rows| - 1].value)
    ensures Within(rows, a, b) && Parted(t, removed, rows)
  {
    forall i | 0 <= i < |rows| ensures a <= rows[i].first && rows[i].last <= b {
      assert rows[0].first <= rows[i].first && rows[i].last <= rows[|rows| - 1].last;
    }
    forall f, i | f in t && f !in removed && 0 <= i < |rows|
      ensures t[f].last + 1 == rows[i].first ==> t[f].value != rows[i].value
      ensures rows[i].last + 1 == f ==> t[f].value != rows[i].value
    {
      assert t[f].last < a || b < f;
      if 0 < i { assert rows[i - 1].last + 1 == rows[i].first && a <= rows[i - 1].first <= rows[i - 1].last; }
      if i < |rows| - 1 { assert rows[i].last + 1 == rows[i + 1].first && rows[i + 1].first <= rows[i + 1].last <= b; }
    }
  }

  /** The rows that replace a stretch leave a canonical table that stands for the stamped map. */
  lemma Replaced(t: Table<Sighting>, removed: set<int>, rows: seq<Row<Sighting>>, a: int, b: int, lo: int, hi: int, s: Sighting)
    requires Canonical(t) && Stretch(t, removed, rows, a, b) && Shows(t, rows, lo, hi, s) && Ordered(rows)
    requires a <= lo <= hi <= b
    requires LeftParted(t, removed, a, rows[0].value) && RightParted(t, removed, b, rows[|rows| - 1].value)
    ensures forall i :: 0 <= i < |rows| ==> rows[i].first !in t - removed
    ensures forall i, j :: 0 <= i < j < |rows| ==> rows[i].first != rows[j].first
    ensures Canonical(Insert(t - removed, rows))
    ensures forall k :: At(Insert(t - removed, rows), k) == Want(t, lo, hi, s, k)
  {
    StretchFits(t, removed, rows, a, b);
    SpliceDisjoint(t, removed, rows, a, b);
    SpliceCanonical(t, removed, rows, a, b);
    forall k ensures At(Insert(t - removed, rows), k) == Want(t, lo, hi, s, k) {
      SpliceAt(t, removed, rows, a, b, k);
      if a <= k <= b { var i := ContiguousHits(rows, k); }
    }
  }

  /** Nothing to write: the table already stands for the stamped map. */
  lemma AlreadyStamped(t: Table<Sighting>, prior: seq<Row<Sighting>>, lo: int, hi: int, s: Sighting)
    requires Disjoint(t) && IsOverlap(t, prior, lo, hi) && Shows(t, prior, lo, hi, s) && Contiguous(prior)
    requires prior != [] && prior[0].first <= lo && hi <= prior[|prior| - 1].last
    ensures forall k :: At(t, k) == Want(t, lo, hi, s, k)
  {
    forall k | lo <= k <= hi ensures At(t, k) == Want(t, lo, hi, s, k) {
      var i := ContiguousHits(prior, k);
      AtIs(t, prior[i].first, k);
    }
  }

  // ---- The table ----

  lemma SpansPrefix(spans: seq<(int, int)>, n: nat, k: int)
    requires n < |spans|
    ensures InSpans(spans[..n + 1], k) <==> InSpans(spans[..n], k) || spans[n].0 <= k <= spans[n].1
  {
    var more := spans[..n + 1];
    if InSpans(spans[..n], k) {
      var i :| 0 <= i < n && spans[..n][i].0 <= k <= spans[..n][i].1;
      assert more[i] == spans[..n][i];
    }
    if spans[n].0 <= k <= spans[n].1 { assert more[n] == spans[n]; }
    if InSpans(more, k) {
      var i :| 0 <= i <= n && more[i].0 <= k <= more[i].1;
      if i < n { assert spans[..n][i] == more[i]; }
    }
  }

  /** The row that ends at `k`, if any: `WHERE last_id=?`. */
  function EndingAt<V>(t: Table<V>, k: int): (r: Option<int>)
    requires Disjoint(t)
    ensures r.None? <==> forall f :: f in t ==> t[f].last != k
    ensures r.Some? ==> r.value in t && t[r.value].last == k
  {
    if f :| f in t && t[f].last == k then
      assert forall g :: g in t && t[g].last == k ==> g == f;
      Some(f)
    else None
  }

  /** Takes in the row that touches the stretch on the left with an equal value, so that batches coalesce. */
  method AdjoinLeft(t: Table<Sighting>, firsts: set<int>, cut: seq<Row<Sighting>>, ghost b: int,
                    ghost lo: int, ghost hi: int, ghost s: Sighting)
    returns (removed: set<int>, pieces: seq<Row<Sighting>>, ghost a: int)
    requires Canonical(t) && cut != [] && Stretch(t, firsts, cut, cut[0].first, b)
    requires Shows(t, cut, lo, hi, s) && cut[0].first <= lo
    ensures Stretch(t, removed, pieces, a, b) && Shows(t, pieces, lo, hi, s) && a <= lo
    ensures LeftParted(t, removed, a, pieces[0].value)
  {
    removed, pieces, a := firsts, cut, cut[0].first;
    var left := EndingAt(t, cut[0].first - 1);
    if left.Some? && t[left.value].value == pieces[0].value {
      WidenLeft(t, removed, pieces, a, b, left.value, lo, hi, s);
      removed := removed + {left.value};
      pieces := [Row(left.value, t[left.value].last, t[left.value].value)] + pieces;
      a := left.value;
    }
  }

  method AdjoinRight(t: Table<Sighting>, firsts: set<int>, cut: seq<Row<Sighting>>, ghost a: int,
                     ghost lo: int, ghost hi: int, ghost s: Sighting)
    returns (removed: set<int>, pieces: seq<Row<Sighting>>, ghost b: int)
    requires Canonical(t) && cut != [] && Stretch(t, firsts, cut, a, cut[|cut| - 1].last)
    requires Shows(t, cut, lo, hi, s) && hi <= cut[|cut| - 1].last
    requires LeftParted(t, firsts, a, cut[0].value)
    ensures Stretch(t, removed, pieces, a, b) && Shows(t, pieces, lo, hi, s) && hi <= b
    ensures LeftParted(t, removed, a, pieces[0].value)
    ensures RightParted(t, removed, b, pieces[|pieces| - 1].value)
  {
    removed, pieces, b := firsts, cut, cut[|cut| - 1].last;
    var right := cut[|cut| - 1].last + 1;
    if right in t && t[right].value == pieces[|pieces| - 1].value {
      WidenRight(t, removed, pieces, a, b, lo, hi, s);
      removed := removed + {right};
      pieces := pieces + [Row(right, t[right].last, t[right].value)];
      b := t[right].last;
    }
  }

  /** Reads the overlapped rows and cuts the stretch that will replace them. */
  method Gather(t: Table<Sighting>, lo: int, hi: int, s: Sighting)
    returns (prior: seq<Row<Sighting>>, removed: set<int>, pieces: seq<Row<Sighting>>, ghost a: int, ghost b: int)
    requires Canonical(t) && lo <= hi
    ensures IsOverlap(t, prior, lo, hi)
    ensures Stretch(t, removed, pieces, a, b) && Shows(t, pieces, lo, hi, s) && a <= lo && hi <= b
    ensures LeftParted(t, removed, a, pieces[0].value) && RightParted(t, removed, b, pieces[|pieces| - 1].value)
  {
    var p := Predecessor(t, lo);
    prior := Select(t, if p.Some? then p.value else lo, hi, lo);
    SelectOverlaps(t, lo, hi);
    pieces := Cut(prior, lo, hi, s);
    a, b := pieces[0].first, pieces[|pieces| - 1].last;
    removed := set i | 0 <= i < |prior| :: prior[i].first;
    CutShows(t, prior, pieces, lo, hi, s);
    CutStretch(t, prior, pieces, lo, hi, s, a, b, removed);
    removed, pieces, a := AdjoinLeft(t, removed, pieces, b, lo, hi, s);
    removed, pieces, b := AdjoinRight(t, removed, pieces, a, lo, hi, s);
  }

  /** The rows to delete and the rows to insert for one stamped span. */
  method Repaint(t: Table<Sighting>, lo: int, hi: int, s: Sighting) returns (removed: set<int>, merged: seq<Row<Sighting>>)
    requires Canonical(t) && lo <= hi
    ensures forall i :: 0 <= i < |merged| ==> merged[i].first !in t - removed
    ensures forall i, j :: 0 <= i < j < |merged| ==> merged[i].first != merged[j].first
    ensures Canonical(Insert(t - removed, merged))
    ensures forall k :: At(Insert(t - removed, merged), k) == Want(t, lo, hi, s, k)
  {
    var prior, pieces;
    ghost var a, b;
    prior, removed, pieces, a, b := Gather(t, lo, hi, s);
    merged := Merge(pieces);
    MergedStretch(t, removed, pieces, merged, a, b, lo, hi, s);
    if merged == prior {
      AlreadyStamped(t, prior, lo, hi, s);
      assert t - {} == t;
      return {}, [];
    }
    Replaced(t, removed, merged, a, b, lo, hi, s);
  }

  /** The sightings of one kind of id; the field is the SQL table keyed by `first_id`. */
  class FreshnessRanges {
    var ranges: Table<Sighting>

    ghost predicate Valid()
      reads this
    {
      Canonical(ranges)
    }

    constructor ()
      ensures Valid() && ranges == map[]
    {
      ranges := map[];
    }

    /** The newer of what the caller holds and what the table holds; a tie goes to the table. */
    method Lookup(key: int, observation: Sighting) returns (r: Sighting)
      requires Valid()
      ensures r == match At(ranges, key)
                   case Some(s) => if observation.at <= s.at then s else observation
                   case None => observation
    {
      PredecessorReads(ranges, key);
      var p := Predecessor(ranges, key);
      if p.Some? && key <= ranges[p.value].last && observation.at <= ranges[p.value].value.at {
        return ranges[p.value].value;
      }
      return observation;
    }

    method Stamp(spans: seq<(int, int)>, at: int, run: Option<string>)
      requires Valid()
      requires forall i :: 0 <= i < |spans| ==> spans[i].0 <= spans[i].1
      modifies this
      ensures Valid()
      ensures forall k :: At(ranges, k) == if InSpans(spans, k) then Some(Keep(At(old(ranges), k), Sighting(at, run))) else At(old(ranges), k)
    {
      var n := 0;
      while n < |spans|
        invariant 0 <= n <= |spans|
        invariant Valid()
        invariant forall k :: At(ranges, k) == if InSpans(spans[..n], k) then Some(Keep(At(old(ranges), k), Sighting(at, run))) else At(old(ranges), k)
      {
        StampSpan(spans[n].0, spans[n].1, Sighting(at, run));
        forall k ensures InSpans(spans[..n + 1], k) <==> InSpans(spans[..n], k) || spans[n].0 <= k <= spans[n].1 {
          SpansPrefix(spans, n, k);
        }
        n := n + 1;
      }
      assert spans[..n] == spans;
    }

    /** A whole history of calls leaves the fold of its stamps. */
    method StampAll(stamps: seq<Stamping>)
      requires Valid()
      requires forall x, i :: x in stamps && 0 <= i < |x.spans| ==> x.spans[i].0 <= x.spans[i].1
      modifies this
      ensures Valid()
      ensures forall k :: At(ranges, k) == Stamped(At(old(ranges), k), stamps, k)
    {
      for n := 0 to |stamps|
        invariant Valid()
        invariant forall k :: At(ranges, k) == Stamped(At(old(ranges), k), stamps[..n], k)
      {
        assert stamps[..n + 1][..n] == stamps[..n] && stamps[n] in stamps;
        Stamp(stamps[n].spans, stamps[n].sighting.at, stamps[n].sighting.run);
      }
      assert stamps[..|stamps|] == stamps;
    }

    /** One iteration of the loop over spans. */
    method StampSpan(lo: int, hi: int, s: Sighting)
      requires Valid() && lo <= hi
      modifies this
      ensures Valid()
      ensures forall k :: At(ranges, k) == if lo <= k <= hi then Some(Keep(At(old(ranges), k), s)) else At(old(ranges), k)
    {
      var removed, rows := Repaint(ranges, lo, hi, s);
      ranges := Insert(ranges - removed, rows);
    }

    method Forget(keys: set<int>)
      requires Valid()
      modifies this
      ensures Valid()
      ensures forall k :: At(ranges, k) == if k in keys then None else At(old(ranges), k)
    {
      var left := keys;
      while left != {}
        invariant left <= keys
        invariant Valid()
        invariant forall k :: At(ranges, k) == if k in keys && k !in left then None else At(old(ranges), k)
        decreases |left|
      {
        Inhabited(left);
        var key :| key in left;
        ForgetKey(key);
        left := left - {key};
      }
    }

    method ForgetKey(key: int)
      requires Valid()
      modifies this
      ensures Valid()
      ensures forall k :: At(ranges, k) == if k == key then None else At(old(ranges), k)
    {
      PredecessorReads(ranges, key);
      var p := Predecessor(ranges, key);
      if p.None? || ranges[p.value].last < key {
        return;
      }
      var first := p.value;
      Punctured(ranges, first, key);
      var rows := Remnants(first, ranges[first].last, ranges[first].value, key);
      ranges := Insert(ranges - {first}, rows);
    }
  }

  // ---- Whole histories of stamps ----

  datatype Stamping = Stamping(spans: seq<(int, int)>, sighting: Sighting)

  /** What id `k` holds after the stamps, applied in list order to `initial`. */
  ghost function Stamped(initial: Option<Sighting>, stamps: seq<Stamping>, k: int): Option<Sighting> {
    if stamps == [] then initial else
      var x := stamps[|stamps| - 1];
      var before := Stamped(initial, stamps[..|stamps| - 1], k);
      if InSpans(x.spans, k) then Some(Keep(before, x.sighting)) else before
  }

  /** `r` is the latest sighting among `initial` and the stamps on `k`; the table's own loses a tie. */
  ghost predicate Latest(initial: Option<Sighting>, stamps: seq<Stamping>, k: int, r: Option<Sighting>) {
    && (r == initial || exists x :: x in stamps && InSpans(x.spans, k) && r == Some(x.sighting))
    && (initial.Some? ==> r.Some? && initial.value.at <= r.value.at)
    && (forall x :: x in stamps && InSpans(x.spans, k) ==>
         r.Some? && x.sighting.at <= r.value.at
         && (x.sighting.at == r.value.at ==> exists y :: y in stamps && InSpans(y.spans, k) && r == Some(y.sighting)))
  }

  lemma {:induction false} StampedIsLatest(initial: Option<Sighting>, stamps: seq<Stamping>, k: int)
    ensures Latest(initial, stamps, k, Stamped(initial, stamps, k))
    decreases |stamps|
  {
    if stamps != [] {
      var before := stamps[..|stamps| - 1];
      var last := stamps[|stamps| - 1];
      StampedIsLatest(initial, before, k);
      assert forall x :: x in stamps <==> x in before || x == last;
    }
  }

  /** No two stamps leave different sightings with the same time on one id. */
  ghost predicate Compatible(stamps: seq<Stamping>) {
    forall x, y, k ::
      (x in stamps && y in stamps && InSpans(x.spans, k) && InSpans(y.spans, k) && x.sighting.at == y.sighting.at)
      ==> x.sighting == y.sighting
  }

  /** Any order of the same compatible stamps ends in the identical table. */
  lemma StampOrderIrrelevant(t: Table<Sighting>, p: seq<Stamping>, q: seq<Stamping>, a: Table<Sighting>, b: Table<Sighting>)
    requires multiset(p) == multiset(q) && Compatible(p)
    requires Canonical(a) && forall k :: At(a, k) == Stamped(At(t, k), p, k)
    requires Canonical(b) && forall k :: At(b, k) == Stamped(At(t, k), q, k)
    ensures a == b
  {
    assert forall x :: x in p <==> x in multiset(p);
    assert forall x :: x in q <==> x in multiset(q);
    forall k ensures At(a, k) == At(b, k) {
      StampedIsLatest(At(t, k), p, k);
      StampedIsLatest(At(t, k), q, k);
    }
    CanonicalUnique(a, b);
  }

  ghost function Over(initial: Option<Sighting>, x: Stamping, k: int): Option<Sighting> {
    if InSpans(x.spans, k) then Some(Keep(initial, x.sighting)) else initial
  }

  lemma TwoStamps(initial: Option<Sighting>, x: Stamping, y: Stamping, k: int)
    ensures Stamped(initial, [x, y], k) == Over(Over(initial, x, k), y, k)
  {
    assert [x][..0] == [] && Stamped(initial, [x], k) == Over(initial, x, k);
    assert [x, y][..1] == [x];
  }

  /** Two stamps may be swapped on every table exactly when they are compatible. */
  lemma CompatibleSwap(initial: Option<Sighting>, x: Stamping, y: Stamping, k: int)
    requires Compatible([x, y])
    ensures Stamped(initial, [x, y], k) == Stamped(initial, [y, x], k)
  {
    TwoStamps(initial, x, y, k);
    TwoStamps(initial, y, x, k);
    assert x in [x, y] && y in [x, y];
  }

  lemma IncompatibleDiffer(x: Stamping, y: Stamping)
    requires !Compatible([x, y])
    ensures exists k :: Stamped(None, [x, y], k) != Stamped(None, [y, x], k)
  {
    var u, v, k :| u in [x, y] && v in [x, y] && InSpans(u.spans, k) && InSpans(v.spans, k)
                   && u.sighting.at == v.sighting.at && u.sighting != v.sighting;
    assert (u == x && v == y) || (u == y && v == x);
    TwoStamps(None, x, y, k);
    TwoStamps(None, y, x, k);
    assert Stamped(None, [x, y], k) != Stamped(None, [y, x], k);
  }
}
