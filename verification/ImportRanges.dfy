/**
 Incremental producer-key translation. Mappings bind a producer's key to a local id and to the
 content the producer last saw there; the interval index stands for key -> (offset, eligible).
 Triggers mark every key whose projection a write may change; translation first refreshes those keys.
 One model serves both kinds: for records the tag is a revision digest, for observations the evidence tuple.
 */
module ImportRanges {
  import opened Wrappers
  import opened Intervals
  import opened Ranges

  type Producer = string

  /** A row of entity_ids (observation_ids): the local id and the producer's own view of its content. */
  datatype Mapping<+Tag> = Mapping(local: int, head: Option<Tag>)

  datatype Target = Target(offset: int, eligible: bool)

  datatype TranslateError = UnknownProducerKeys

  /** What the index must hold for one key: nothing if unmapped, else the affine target. */
  function Project<Tag(==)>(m: Option<Mapping<Tag>>, locals: map<int, Tag>, key: int): Option<Target> {
    match m
    case None => None
    case Some(row) => Some(Target(row.local - key, row.local in locals && row.head == Some(locals[row.local])))
  }

  /** The table after key `key` is set to `value`, or removed: the refresh of one dirty key. */
  method Replace(t: Table<Target>, key: int, value: Option<Target>) returns (r: Table<Target>)
    requires Canonical(t)
    ensures Canonical(r)
    ensures forall k :: At(r, k) == if k == key then value else At(t, k)
  {
    r := t;
    var p := Predecessor(r, key);
    PredecessorReads(r, key);
    if p.Some? && key <= r[p.value].last {
      Punctured(r, p.value, key);
      r := Insert(r - {p.value}, Remnants(p.value, r[p.value].last, r[p.value].value, key));
    }
    if value.Some? {
      r := Place(r, key, value.value);
    }
  }

  /** Inserts one free key, joining a neighbour on either side that carries the same value. */
  method Place(t: Table<Target>, key: int, value: Target) returns (r: Table<Target>)
    requires Canonical(t) && At(t, key) == None
    ensures Canonical(r)
    ensures forall k :: At(r, k) == if k == key then Some(value) else At(t, k)
  {
    hide Predecessor, Canonical, At, Insert;
    var left := Predecessor(t, key - 1);
    OnlyLeft(t, key, left);
    var lo, hi := key, key;
    var removed := {};
    if left.Some? && t[left.value].last == key - 1 && t[left.value].value == value {
      lo, removed := left.value, removed + {left.value};
    }
    if key + 1 in t && t[key + 1].value == value {
      hi, removed := t[key + 1].last, removed + {key + 1};
    }
    Joined(t, key, value, lo, hi, removed);
    r := Insert(t - removed, [Row(lo, hi, value)]);
  }

  /** Only the predecessor row can end right before a key, and only a row that starts there can begin right after it. */
  lemma OnlyLeft(t: Table<Target>, key: int, left: Option<int>)
    requires Canonical(t) && left == Predecessor(t, key - 1)
    ensures forall f :: f in t && t[f].last == key - 1 ==> left == Some(f)
    ensures left.Some? ==> left.value in t && left.value < key
    ensures key + 1 in t ==> key < t[key + 1].last
  {
    hide Predecessor;
    forall f | f in t && t[f].last == key - 1 ensures left == Some(f) {
      assert f <= key - 1;
      assert left.Some?;
      assert left.value <= f;
    }
  }

  /** The row [lo, hi] joins the free key with the neighbours, if any, that are removed for it. */
  ghost predicate Joins(t: Table<Target>, key: int, value: Target, lo: int, hi: int, removed: set<int>) {
    && lo <= key <= hi
    && (lo != key ==> lo in t && t[lo] == Span(key - 1, value) && lo in removed)
    && (lo == key ==> forall f :: f in t && t[f].last == key - 1 ==> t[f].value != value)
    && (hi != key ==> key + 1 in t && t[key + 1] == Span(hi, value) && key + 1 in removed)
    && (hi == key ==> key + 1 !in t || t[key + 1].value != value)
    && (forall f :: f in removed ==> (f == lo && lo != key) || (f == key + 1 && hi != key))
  }

  lemma JoinFits(t: Table<Target>, key: int, value: Target, lo: int, hi: int, removed: set<int>)
    requires Canonical(t) && At(t, key) == None && Joins(t, key, value, lo, hi, removed)
    ensures Outside(t, removed, lo, hi) && Parted(t, removed, [Row(lo, hi, value)])
    ensures forall f :: f in removed && f in t ==> lo <= f && t[f].last <= hi
  {
    forall f | f in t && f !in removed ensures t[f].last < lo || hi < f {
      if Covers(t, f, key) { AtIs(t, f, key); }
      assert t[f].last < key || key < f;
    }
  }

  lemma JoinedAt(t: Table<Target>, key: int, value: Target, lo: int, hi: int, removed: set<int>, k: int)
    requires Canonical(t) && At(t, key) == None && Joins(t, key, value, lo, hi, removed)
    requires lo !in t - removed
    ensures At(Insert(t - removed, [Row(lo, hi, value)]), k) == if k == key then Some(value) else At(t, k)
  {
    var rows := [Row(lo, hi, value)];
    JoinFits(t, key, value, lo, hi, removed);
    SpliceAt(t, removed, rows, lo, hi, k);
    hide Insert, At, Outside, Parted;
    if lo <= k <= hi {
      assert rows[0].first <= k <= rows[0].last;
      if k < key { AtIs(t, lo, k); }
      if key < k { AtIs(t, key + 1, k); }
    }
  }

  lemma Joined(t: Table<Target>, key: int, value: Target, lo: int, hi: int, removed: set<int>)
    requires Canonical(t) && At(t, key) == None && Joins(t, key, value, lo, hi, removed)
    ensures lo !in t - removed
    ensures Canonical(Insert(t - removed, [Row(lo, hi, value)]))
    ensures forall k :: At(Insert(t - removed, [Row(lo, hi, value)]), k) == if k == key then Some(value) else At(t, k)
  {
    var rows := [Row(lo, hi, value)];
    JoinFits(t, key, value, lo, hi, removed);
    assert lo <= hi;
    SpliceDisjoint(t, removed, rows, lo, hi);
    assert rows[0].first !in t - removed;
    SpliceCanonical(t, removed, rows, lo, hi);
    hide *;
    forall k ensures At(Insert(t - removed, rows), k) == if k == key then Some(value) else At(t, k) {
      JoinedAt(t, key, value, lo, hi, removed, k);
    }
  }

  // ---- From-scratch projection ----

  /** The value of every key of an ascending list of (key, target) pairs. */
  ghost predicate Lists(keys: seq<int>, value: map<int, Target>) {
    && (forall k :: k in keys <==> k in value)
    && (forall i, j :: 0 <= i < j < |keys| ==> keys[i] < keys[j])
  }

  ghost function Value(value: map<int, Target>, k: int): Option<Target> {
    if k in value then Some(value[k]) else None
  }

  /** `rows` stand for the first `n` keys. */
  ghost predicate Projects(rows: seq<Row<Target>>, keys: seq<int>, value: map<int, Target>, n: nat) {
    && n <= |keys| && Ordered(rows)
    && (rows == [] <==> n == 0)
    && (n > 0 ==> rows[|rows| - 1].last == keys[n - 1])
    && (forall i, k :: Hits(rows, i, k) ==> k in value && value[k] == rows[i].value)
    && (forall j :: 0 <= j < n ==> HitsAny(rows, keys[j]))
  }

  ghost predicate HitsAny(rows: seq<Row<Target>>, k: int) {
    exists i :: Hits(rows, i, k)
  }

  /** The pending row grows by the next key. */
  lemma ProjectGrow(rows: seq<Row<Target>>, keys: seq<int>, value: map<int, Target>, n: nat)
    requires Lists(keys, value) && Projects(rows, keys, value, n) && 0 < n < |keys|
    requires keys[n] in value
    requires rows[|rows| - 1].last + 1 == keys[n] && value[keys[n]] == rows[|rows| - 1].value
    ensures Projects(rows[..|rows| - 1] + [rows[|rows| - 1].(last := keys[n])], keys, value, n + 1)
  {
    var top := rows[|rows| - 1];
    var more := rows[..|rows| - 1] + [top.(last := keys[n])];
    forall i, k | Hits(more, i, k) ensures k in value && value[k] == more[i].value {
      if k != keys[n] { assert Hits(rows, i, k); }
    }
    forall j | 0 <= j < n + 1 ensures HitsAny(more, keys[j]) {
      if j < n { var i :| Hits(rows, i, keys[j]); assert Hits(more, i, keys[j]); } else { assert Hits(more, |more| - 1, keys[n]); }
    }
  }

  /** The next key starts a row of its own. */
  lemma NoneProjected(keys: seq<int>, value: map<int, Target>)
    requires (forall k :: k in keys <==> k in value) && forall i, j :: 0 <= i < j < |keys| ==> keys[i] < keys[j]
    ensures Lists(keys, value) && Projects([], keys, value, 0)
  {
  }

  lemma OrderedMore(rows: seq<Row<Target>>, row: Row<Target>)
    requires Ordered(rows) && row.first <= row.last
    requires rows != [] ==> var last := rows[|rows| - 1]; last.last < row.first && !(last.last + 1 == row.first && last.value == row.value)
    ensures Ordered(rows + [row])
  {
    var more := rows + [row];
    forall i, j | 0 <= i < j < |more|
      ensures more[i].last < more[j].first
      ensures more[i].last + 1 == more[j].first ==> more[i].value != more[j].value
    {
      if j == |rows| && i < |rows| - 1 { assert rows[i].last < rows[|rows| - 1].first; }
    }
  }

  lemma ProjectNext(rows: seq<Row<Target>>, keys: seq<int>, value: map<int, Target>, n: nat)
    requires Lists(keys, value) && Projects(rows, keys, value, n) && n < |keys|
    requires keys[n] in value
    requires n > 0 ==> !(rows[|rows| - 1].last + 1 == keys[n] && value[keys[n]] == rows[|rows| - 1].value)
    ensures Projects(rows + [Row(keys[n], keys[n], value[keys[n]])], keys, value, n + 1)
  {
    var more := rows + [Row(keys[n], keys[n], value[keys[n]])];
    assert n > 0 ==> keys[n - 1] < keys[n];
    OrderedMore(rows, more[|rows|]);
    hide Ordered;
    forall i, k | Hits(more, i, k) ensures k in value && value[k] == more[i].value {
      if i < |rows| { assert Hits(rows, i, k); }
    }
    forall j | 0 <= j < n + 1 ensures HitsAny(more, keys[j]) {
      if j < n { var i :| Hits(rows, i, keys[j]); assert Hits(more, i, keys[j]); } else { assert Hits(more, |more| - 1, keys[n]); }
    }
  }

  /** The table of a full projection is canonical and stands for it. */
  lemma ProjectedTable(rows: seq<Row<Target>>, keys: seq<int>, value: map<int, Target>)
    requires Lists(keys, value) && Projects(rows, keys, value, |keys|)
    ensures forall i, j :: 0 <= i < j < |rows| ==> rows[i].first != rows[j].first
    ensures Canonical(Insert(map[], rows))
    ensures forall k :: At(Insert(map[], rows), k) == Value(value, k)
  {
    FilledCanonical(rows);
    forall k ensures At(Insert(map[], rows), k) == Value(value, k) {
      FilledAt(rows, k);
      if k in value {
        var j :| 0 <= j < |keys| && keys[j] == k;
        assert HitsAny(rows, keys[j]);
        var i :| Hits(rows, i, k);
        RowAtIs(rows, i, k);
      }
    }
  }

  /** One key of the query: it extends the pending row or starts the next. */
  method ProjectKey(rows: seq<Row<Target>>, keys: seq<int>, value: map<int, Target>, n: nat) returns (more: seq<Row<Target>>)
    requires Lists(keys, value) && Projects(rows, keys, value, n) && n < |keys|
    ensures Projects(more, keys, value, n + 1)
  {
    var key := keys[n];
    assert key in value && (rows == [] <==> n == 0);
    hide *;
    if rows != [] && rows[|rows| - 1].last + 1 == key && value[key] == rows[|rows| - 1].value {
      ProjectGrow(rows, keys, value, n);
      more := rows[..|rows| - 1] + [rows[|rows| - 1].(last := key)];
    } else {
      ProjectNext(rows, keys, value, n);
      more := rows + [Row(key, key, value[key])];
    }
  }

  /** The one-time projection for a database imported before the index existed. */
  method Build(value: map<int, Target>) returns (t: Table<Target>)
    ensures Canonical(t)
    ensures forall k :: At(t, k) == Value(value, k)
  {
    hide Ascend, Lists, Canonical, At, Value, Projects, Insert;
    var keys := Ascend(value.Keys);
    var rows: seq<Row<Target>> := [];  // the last one is still pending
    NoneProjected(keys, value);
    for n := 0 to |keys|
      invariant Projects(rows, keys, value, n)
    {
      rows := ProjectKey(rows, keys, value, n);
    }
    ProjectedTable(rows, keys, value);
    t := Insert(map[], rows);
  }

  // ---- Translation of one producer's ranges ----

  /** Every key of the span is mapped (a span may also be empty, one short of its start). */
  ghost predicate Mapped(t: Table<Target>, span: Range) {
    span.0 <= span.1 + 1 && AllMapped(t, span.0, span.1)
  }

  /** Local id `x` is the eligible target of some key in [lo, hi]. */
  ghost predicate Reaches(t: Table<Target>, lo: int, hi: int, x: int) {
    exists k :: lo <= k <= hi && ReachesFrom(t, k, x)
  }

  ghost predicate ReachesFrom(t: Table<Target>, k: int, x: int) {
    At(t, k).Some? && At(t, k).value.eligible && x == k + At(t, k).value.offset
  }

  ghost predicate AllMapped(t: Table<Target>, a: int, b: int) {
    forall k :: a <= k <= b ==> At(t, k).Some?
  }

  /** `translated` covers exactly the eligible local ids of the keys in [lo, hi]. */
  ghost predicate Translates(t: Table<Target>, lo: int, hi: int, translated: seq<Range>) {
    && (forall i :: 0 <= i < |translated| ==> translated[i].0 <= translated[i].1)
    && (forall x :: Covered(translated, x) <==> Reaches(t, lo, hi, x))
  }

  /** The rows that may overlap the span: from the predecessor of its start on. */
  function Candidates(t: Table<Target>, lo: int, hi: int): seq<Row<Target>> {
    var p := Predecessor(t, lo);
    var start := if p.Some? then p.value else lo;
    Select(t, start, hi, start)
  }

  /** The loop over rows has read the first `n` of them. */
  ghost predicate Clipping(t: Table<Target>, lo: int, hi: int, n: nat, covered: int, translated: seq<Range>) {
    var rows := Candidates(t, lo, hi);
    && n <= |rows|
    && lo <= covered && (covered <= hi + 1 || covered == lo)
    && (lo < covered ==> n > 0 && (rows[n - 1].last + 1 == covered || (covered == hi + 1 && hi < rows[n - 1].last)))
    && (lo == covered ==> hi < lo || forall i :: 0 <= i < n ==> rows[i].last < lo)
    && AllMapped(t, lo, covered - 1) && Translates(t, lo, covered - 1, translated)
  }

  /** Row `n` lies before the span, or the span is empty. */
  lemma ClipSkip(t: Table<Target>, lo: int, hi: int, n: nat, covered: int, translated: seq<Range>)
    requires Disjoint(t) && Clipping(t, lo, hi, n, covered, translated) && n < |Candidates(t, lo, hi)|
    requires var row := Candidates(t, lo, hi)[n]; row.last < lo || hi < lo
    ensures Clipping(t, lo, hi, n + 1, covered, translated)
  {
    var rows := Candidates(t, lo, hi);
    assert n > 0 ==> rows[n - 1].first < rows[n].first && rows[n - 1].last < rows[n].first;
  }

  /** Row `n` continues the covered part. */
  lemma ClipStep(t: Table<Target>, lo: int, hi: int, n: nat, covered: int, translated: seq<Range>, b: int)
    requires Disjoint(t) && Clipping(t, lo, hi, n, covered, translated) && n < |Candidates(t, lo, hi)|
    requires var row := Candidates(t, lo, hi)[n];
             row.first <= covered <= b && b == (if hi < row.last then hi else row.last)
    ensures var v := Candidates(t, lo, hi)[n].value;
            Clipping(t, lo, hi, n + 1, b + 1, if v.eligible then translated + [(covered + v.offset, b + v.offset)] else translated)
  {
    var row := Candidates(t, lo, hi)[n];
    ReachMore(t, lo, covered, b, row.first, translated);
    forall k | lo <= k <= b ensures At(t, k).Some? {}
  }

  /** Every row that starts by `covered` ends before it, when the next candidate does not continue it. */
  lemma GapRow(t: Table<Target>, lo: int, hi: int, n: nat, covered: int, translated: seq<Range>, f: int)
    requires Disjoint(t) && Clipping(t, lo, hi, n, covered, translated) && covered <= hi
    requires n < |Candidates(t, lo, hi)| ==> covered < Candidates(t, lo, hi)[n].first
    requires f in t && f <= covered
    ensures t[f].last < covered
  {
    hide Translates, AllMapped, Candidates;
    var rows := Candidates(t, lo, hi);
    if lo <= t[f].last {
      CandidateThere(t, lo, hi, f);
      var i :| 0 <= i < |rows| && rows[i] == Row(f, t[f].last, t[f].value);
      CandidatesAscend(t, lo, hi, i, n);
    }
  }

  /** Every row that reaches into the span is a candidate. */
  lemma CandidateThere(t: Table<Target>, lo: int, hi: int, f: int)
    requires Disjoint(t) && f in t && f <= hi && lo <= t[f].last
    ensures Row(f, t[f].last, t[f].value) in Candidates(t, lo, hi)
  {
    var p := Predecessor(t, lo);
    var start := if p.Some? then p.value else lo;
    hide Select, Predecessor;
    assert start <= f;
    SelectAll(t, start, hi, start, f);
  }

  lemma CandidatesAscend(t: Table<Target>, lo: int, hi: int, i: nat, n: nat)
    requires Disjoint(t) && i < |Candidates(t, lo, hi)| && n <= |Candidates(t, lo, hi)|
    ensures var rows := Candidates(t, lo, hi);
            if i < n then rows[i].last <= rows[n - 1].last else n == i || rows[n].first < rows[i].first
  {
    hide Predecessor;
    var rows := Candidates(t, lo, hi);
    if i < n - 1 { assert rows[i].first < rows[n - 1].first && rows[n - 1].first in t; }
  }

  /** Row `n` starts after a gap, or the rows end before the span does. */
  lemma ClipGap(t: Table<Target>, lo: int, hi: int, n: nat, covered: int, translated: seq<Range>)
    requires Disjoint(t) && Clipping(t, lo, hi, n, covered, translated) && covered <= hi
    requires n < |Candidates(t, lo, hi)| ==> covered < Candidates(t, lo, hi)[n].first
    ensures At(t, covered) == None
  {
    forall f ensures !Covers(t, f, covered) {
      if f in t && f <= covered { GapRow(t, lo, hi, n, covered, translated, f); }
    }
  }

  lemma FirstFits(t: Table<Target>, lo: int, hi: int, n: nat, covered: int, translated: seq<Range>)
    requires Disjoint(t) && Clipping(t, lo, hi, n, covered, translated) && n < |Candidates(t, lo, hi)|
    requires var row := Candidates(t, lo, hi)[n]; lo <= row.last && lo <= hi
    ensures var row := Candidates(t, lo, hi)[n];
            && lo <= covered <= hi
            && covered <= (if row.first < lo then lo else row.first)
  {
    var rows := Candidates(t, lo, hi);
    assert n > 0 ==> rows[n - 1].first < rows[n].first && rows[n - 1].last < rows[n].first;
  }

  lemma CandidateStored(t: Table<Target>, lo: int, hi: int, n: nat)
    requires Disjoint(t) && n < |Candidates(t, lo, hi)|
    ensures var row := Candidates(t, lo, hi)[n]; row.first <= row.last && row.first <= hi
  {
    hide Predecessor;
  }

  /** One row: skipped, clipped and translated, or found to start after a gap. */
  method ClipRow(t: Table<Target>, lo: int, hi: int, n: nat, from: int, before: seq<Range>)
    returns (gap: bool, covered: int, translated: seq<Range>)
    requires Disjoint(t) && Clipping(t, lo, hi, n, from, before) && n < |Candidates(t, lo, hi)|
    ensures gap ==> lo <= from <= hi && At(t, from) == None
    ensures !gap ==> Clipping(t, lo, hi, n + 1, covered, translated)
  {
    hide Candidates, Clipping, Disjoint, At;
    CandidateStored(t, lo, hi, n);
    var rows := Candidates(t, lo, hi);
    var row := rows[n];
    var a, b := row.first, row.last;
    if a < lo { a := lo; }
    if hi < b { b := hi; }
    if b < a {
      ClipSkip(t, lo, hi, n, from, before);
      return false, from, before;
    }
    FirstFits(t, lo, hi, n, from, before);
    if a != from {
      ClipGap(t, lo, hi, n, from, before);
      return true, from, before;
    }
    ClipStep(t, lo, hi, n, from, before, b);
    var more := if row.value.eligible then before + [(from + row.value.offset, b + row.value.offset)] else before;
    return false, b + 1, more;
  }

  /** After the last row: either the whole span is covered or some key of it is unmapped. */
  lemma ClipEnd(t: Table<Target>, lo: int, hi: int, covered: int, translated: seq<Range>)
    requires Disjoint(t) && Clipping(t, lo, hi, |Candidates(t, lo, hi)|, covered, translated)
    ensures covered == hi + 1 <==> Mapped(t, (lo, hi))
    ensures covered == hi + 1 ==> Translates(t, lo, hi, translated)
  {
    if covered <= hi { ClipGap(t, lo, hi, |Candidates(t, lo, hi)|, covered, translated); }
  }

  /** Clips the index rows to one requested span; refuses a gap. */
  method TranslateSpan(t: Table<Target>, lo: int, hi: int) returns (r: Result<seq<Range>, TranslateError>)
    requires Disjoint(t)
    ensures r.Ok? <==> Mapped(t, (lo, hi))
    ensures r.Ok? ==> Translates(t, lo, hi, r.value)
  {
    var rows := Candidates(t, lo, hi);
    var covered, translated, gap := lo, [], false;
    for n := 0 to |rows|
      invariant Clipping(t, lo, hi, n, covered, translated)
    {
      ghost var from := covered;
      gap, covered, translated := ClipRow(t, lo, hi, n, covered, translated);
      if gap {
        assert At(t, from) == None;
        return Err(UnknownProducerKeys);
      }
    }
    ClipEnd(t, lo, hi, covered, translated);
    if covered != hi + 1 {
      return Err(UnknownProducerKeys);
    }
    return Ok(translated);
  }

  lemma ReachMore(t: Table<Target>, lo: int, a: int, b: int, first: int, translated: seq<Range>)
    requires Disjoint(t) && lo <= a <= b && Covers(t, first, a) && Covers(t, first, b)
    requires Translates(t, lo, a - 1, translated)
    ensures AllMapped(t, a, b)
    ensures var v := t[first].value;
            Translates(t, lo, b, if v.eligible then translated + [(a + v.offset, b + v.offset)] else translated)
  {
    var v := t[first].value;
    forall k | a <= k <= b ensures At(t, k) == Some(v) { AtIs(t, first, k); }
    forall x
      ensures Reaches(t, lo, b, x) <==> Covered(if v.eligible then translated + [(a + v.offset, b + v.offset)] else translated, x)
    {
      CoveredAppend(translated, (a + v.offset, b + v.offset), x);
      if v.eligible && a + v.offset <= x <= b + v.offset { assert ReachesFrom(t, x - v.offset, x); }
      if Reaches(t, lo, b, x) {
        var k :| lo <= k <= b && ReachesFrom(t, k, x);
        assert k <= a - 1 || k == x - v.offset;
      }
      if Reaches(t, lo, a - 1, x) { var k :| lo <= k <= a - 1 && ReachesFrom(t, k, x); }
    }
  }

  // ---- The index and the tables it is derived from ----

  ghost predicate SpansMapped(t: Table<Target>, spans: seq<Range>) {
    forall i :: 0 <= i < |spans| ==> Mapped(t, spans[i])
  }

  /** Local id `x` is the eligible target of some requested key. */
  ghost predicate Requested(t: Table<Target>, spans: seq<Range>, x: int) {
    exists i :: 0 <= i < |spans| && Reaches(t, spans[i].0, spans[i].1, x)
  }

  /** Clips every span, then sorts and merges: local ids need not keep the producer's order. */
  method TranslateSpans(t: Table<Target>, spans: seq<Range>) returns (r: Result<seq<Range>, TranslateError>)
    requires Disjoint(t)
    ensures r.Ok? <==> SpansMapped(t, spans)
    ensures r.Ok? ==> Normal(r.value) && forall x :: Covered(r.value, x) <==> Requested(t, spans, x)
  {
    var translated: seq<Range> := [];
    for n := 0 to |spans|
      invariant SpansMapped(t, spans[..n])
      invariant forall i :: 0 <= i < |translated| ==> translated[i].0 <= translated[i].1
      invariant forall x :: Covered(translated, x) <==> Requested(t, spans[..n], x)
    {
      var part := TranslateSpan(t, spans[n].0, spans[n].1);
      if part.Err? { return Err(part.error); }
      RequestMore(t, spans, n, translated, part.value);
      translated := translated + part.value;
    }
    assert spans[..|spans|] == spans;
    SortedCovers(translated);
    var ascending := Sorted(translated);
    assert forall i :: 0 <= i < |ascending| ==> ascending[i] in translated;
    var merged := Coalesce(ascending);
    return Ok(merged);
  }

  lemma RequestMore(t: Table<Target>, spans: seq<Range>, n: nat, translated: seq<Range>, part: seq<Range>)
    requires n < |spans| && Translates(t, spans[n].0, spans[n].1, part)
    requires forall x :: Covered(translated, x) <==> Requested(t, spans[..n], x)
    ensures forall x :: Covered(translated + part, x) <==> Requested(t, spans[..n + 1], x)
  {
    var more := translated + part;
    assert forall i :: 0 <= i < |translated| ==> more[i] == translated[i];
    assert forall i :: 0 <= i < |part| ==> more[|translated| + i] == part[i];
    assert forall i :: 0 <= i < n ==> spans[..n + 1][i] == spans[..n][i];
    forall x ensures Covered(more, x) <==> Requested(t, spans[..n + 1], x) {
      if Covered(more, x) {
        var i :| 0 <= i < |more| && more[i].0 <= x <= more[i].1;
        if i < |translated| { assert Covered(translated, x); } else { assert part[i - |translated|] == more[i] && Covered(part, x); }
      }
      if Requested(t, spans[..n + 1], x) {
        var i :| 0 <= i < n + 1 && Reaches(t, spans[..n + 1][i].0, spans[..n + 1][i].1, x);
        if i < n { assert Requested(t, spans[..n], x); } else { assert Covered(part, x); }
      }
      assert Requested(t, spans[..n], x) ==> Requested(t, spans[..n + 1], x);
      assert Reaches(t, spans[n].0, spans[n].1, x) ==> Reaches(t, spans[..n + 1][n].0, spans[..n + 1][n].1, x);
    }
  }

  function DirtyKeys(dirty: set<(Producer, int)>, p: Producer): (r: set<int>)
    ensures forall k :: k in r <==> (p, k) in dirty
  {
    set d | d in dirty && d.0 == p :: d.1
  }

  lemma DirtyWithout(dirty: set<(Producer, int)>, p: Producer)
    ensures var rest := set d | d in dirty && d.0 != p;
            DirtyKeys(rest, p) == {} && forall q :: q != p ==> DirtyKeys(rest, q) == DirtyKeys(dirty, q)
  {
    var rest := set d | d in dirty && d.0 != p;
    forall q | q != p ensures DirtyKeys(rest, q) == DirtyKeys(dirty, q) {
      forall k ensures k in DirtyKeys(rest, q) <==> k in DirtyKeys(dirty, q) {}
    }
  }

  class RangeIndex<Tag(==)> {
    var mappings: map<(Producer, int), Mapping<Tag>>
    var locals: map<int, Tag>             // current content of each local id
    var dirty: set<(Producer, int)>
    var ranges: map<Producer, Table<Target>>  // a producer is ready when it has a table

    function Projection(p: Producer, k: int): Option<Target>
      reads `mappings, `locals
    {
      Project(if (p, k) in mappings then Some(mappings[(p, k)]) else None, locals, k)
    }

    /** Every clean key of a ready producer reads as its projection. */
    ghost predicate Valid()
      reads `mappings, `locals, `dirty, `ranges
    {
      forall p :: p in ranges ==> Agrees(p, ranges[p], DirtyKeys(dirty, p))
    }

    ghost predicate Agrees(p: Producer, t: Table<Target>, stale: set<int>)
      reads `mappings, `locals
    {
      Canonical(t) && forall k :: k !in stale ==> At(t, k) == Projection(p, k)
    }

    constructor ()
      ensures Valid() && mappings == map[] && locals == map[] && dirty == {} && ranges == map[]
    {
      mappings, locals, dirty, ranges := map[], map[], {}, map[];
    }

    /** INSERT or UPDATE of a mapping row; the trigger marks its key. */
    method Bind(p: Producer, key: int, row: Mapping<Tag>)
      requires Valid()
      modifies this
      ensures Valid() && mappings == old(mappings)[(p, key) := row]
      ensures locals == old(locals) && ranges == old(ranges) && dirty == old(dirty) + {(p, key)}
    {
      mappings := mappings[(p, key) := row];
      dirty := dirty + {(p, key)};
    }

    method Unbind(p: Producer, key: int)
      requires Valid()
      modifies this
      ensures Valid() && mappings == old(mappings) - {(p, key)}
      ensures locals == old(locals) && ranges == old(ranges)
      ensures dirty == if (p, key) in old(mappings) then old(dirty) + {(p, key)} else old(dirty)
    {
      if (p, key) in mappings {
        dirty := dirty + {(p, key)};
      }
      mappings := mappings - {(p, key)};
    }

    /** Every key, of every producer, that is bound to the local id. */
    function KeysOf(local: int): set<(Producer, int)>
      reads `mappings
    {
      set m | m in mappings && mappings[m].local == local
    }

    /** INSERT of a local row, or an UPDATE: its trigger fires only when the content differs. */
    method SetLocal(local: int, tag: Tag)
      requires Valid()
      modifies this
      ensures Valid() && locals == old(locals)[local := tag]
      ensures mappings == old(mappings) && ranges == old(ranges)
      ensures dirty == old(dirty) + if local in old(locals) && old(locals)[local] == tag then {} else old(KeysOf(local))
    {
      if local !in locals || locals[local] != tag {
        dirty := dirty + KeysOf(local);
      }
      locals := locals[local := tag];
    }

    method DeleteLocal(local: int)
      requires Valid()
      modifies this
      ensures Valid() && locals == old(locals) - {local}
      ensures mappings == old(mappings) && ranges == old(ranges)
      ensures dirty == old(dirty) + if local in old(locals) then old(KeysOf(local)) else {}
    {
      if local in locals {
        dirty := dirty + KeysOf(local);
      }
      locals := locals - {local};
    }

    /** The projection of all of a producer's mappings, as the one-time query lists it. */
    function AllOf(p: Producer): (value: map<int, Target>)
      reads `mappings, `locals
      ensures forall k :: Value(value, k) == Projection(p, k)
    {
      var keys := set m | m in mappings && m.0 == p :: m.1;
      map k | k in keys && (p, k) in mappings :: Project(Some(mappings[(p, k)]), locals, k).value
    }

    /** Replaces the value of every dirty key by its projection. */
    method RefreshDirty(p: Producer) returns (t: Table<Target>)
      requires Valid() && p in ranges
      ensures Agrees(p, t, {})
    {
      var stale := DirtyKeys(dirty, p);
      t := ranges[p];
      while stale != {}
        invariant Agrees(p, t, stale)
        decreases |stale|
      {
        var key := Least(stale);
        t := Replace(t, key, Projection(p, key));
        stale := stale - {key};
      }
    }

    /** The table of a producer that has none yet. */
    method BuildAll(p: Producer) returns (t: Table<Target>)
      ensures Agrees(p, t, {})
    {
      t := Build(AllOf(p));
    }

    /** Afterwards the producer's table is, row for row, the from-scratch projection. */
    method Refresh(p: Producer)
      requires Valid()
      modifies this
      ensures Valid() && mappings == old(mappings) && locals == old(locals)
      ensures p in ranges && dirty == set d | d in old(dirty) && d.0 != p
      ensures forall q :: q != p ==> (q in ranges <==> q in old(ranges)) && (q in ranges ==> ranges[q] == old(ranges)[q])
      ensures Agrees(p, ranges[p], {})
    {
      var t;
      hide Valid, Agrees, Projection;
      if p !in ranges {
        t := BuildAll(p);
      } else {
        t := RefreshDirty(p);
      }
      Write(p, t);
    }

    method Write(p: Producer, t: Table<Target>)
      requires Valid() && Agrees(p, t, {})
      modifies `ranges, `dirty
      ensures Valid() && ranges == old(ranges)[p := t] && dirty == set d | d in old(dirty) && d.0 != p
    {
      DirtyWithout(dirty, p);
      hide Canonical, At, Projection, DirtyKeys, Agrees;
      ranges := ranges[p := t];
      dirty := set d | d in dirty && d.0 != p;
    }

    ghost predicate AllBound(p: Producer, spans: seq<Range>)
      reads `mappings
    {
      forall i :: 0 <= i < |spans| ==>
        spans[i].0 <= spans[i].1 + 1 && forall k :: spans[i].0 <= k <= spans[i].1 ==> (p, k) in mappings
    }

    /** `x` is the local id of a requested key whose local content is still what the producer last saw. */
    ghost predicate Eligible(p: Producer, spans: seq<Range>, x: int)
      reads `mappings, `locals
    {
      exists k :: Covered(spans, k) && EligibleKey(p, k, x)
    }

    ghost predicate EligibleKey(p: Producer, k: int, x: int)
      reads `mappings, `locals
    {
      (p, k) in mappings && mappings[(p, k)].local == x && x in locals && mappings[(p, k)].head == Some(locals[x])
    }

    /** Succeeds exactly when every requested key is bound; then yields exactly the eligible local ids. */
    method Translate(p: Producer, spans: seq<Range>) returns (r: Result<seq<Range>, TranslateError>)
      requires Valid()
      modifies this
      ensures Valid() && mappings == old(mappings) && locals == old(locals)
      ensures p in ranges && Agrees(p, ranges[p], {})
      ensures r.Ok? <==> AllBound(p, spans)
      ensures r.Ok? ==> Normal(r.value) && forall x :: Covered(r.value, x) <==> Eligible(p, spans, x)
    {
      Refresh(p);
      r := TranslateSpans(ranges[p], spans);
      forall i | 0 <= i < |spans| ensures Mapped(ranges[p], spans[i]) <==>
        spans[i].0 <= spans[i].1 + 1 && forall k :: spans[i].0 <= k <= spans[i].1 ==> (p, k) in mappings
      {
        forall k ensures At(ranges[p], k).Some? <==> (p, k) in mappings {}
      }
      forall x ensures Requested(ranges[p], spans, x) <==> Eligible(p, spans, x) {
        forall k ensures ReachesFrom(ranges[p], k, x) <==> EligibleKey(p, k, x) {}
        if Requested(ranges[p], spans, x) {
          var i :| 0 <= i < |spans| && Reaches(ranges[p], spans[i].0, spans[i].1, x);
          var k :| spans[i].0 <= k <= spans[i].1 && ReachesFrom(ranges[p], k, x);
          assert Covered(spans, k) && EligibleKey(p, k, x);
        }
        if Eligible(p, spans, x) {
          var k :| Covered(spans, k) && EligibleKey(p, k, x);
          var i :| 0 <= i < |spans| && spans[i].0 <= k <= spans[i].1;
          assert ReachesFrom(ranges[p], k, x) && Reaches(ranges[p], spans[i].0, spans[i].1, x);
        }
      }
    }

    /** The refreshed table is the only one that a from-scratch build could give. */
    lemma ProjectionUnique(p: Producer, t: Table<Target>, u: Table<Target>)
      requires Agrees(p, t, {}) && Agrees(p, u, {})
      ensures t == u
    {
      CanonicalUnique(t, u);
    }
  }
}
