/** Lists of closed integer ranges and the sets of ids that they cover. */
module Ranges {
  type Range = (int, int)

  ghost predicate Covered(spans: seq<Range>, k: int) {
    exists i :: 0 <= i < |spans| && spans[i].0 <= k <= spans[i].1
  }

  /** Nonempty ranges in ascending order with a gap between neighbours. */
  ghost predicate Normal(spans: seq<Range>) {
    && (forall i :: 0 <= i < |spans| ==> spans[i].0 <= spans[i].1)
    && (forall i, j :: 0 <= i < j < |spans| ==> spans[i].1 + 1 < spans[j].0)
  }

  lemma CoveredAppend(spans: seq<Range>, x: Range, k: int)
    ensures Covered(spans + [x], k) <==> Covered(spans, k) || x.0 <= k <= x.1
  {
    var more := spans + [x];
    assert more[|spans|] == x;
    if Covered(spans, k) {
      var i :| 0 <= i < |spans| && spans[i].0 <= k <= spans[i].1;
      assert more[i] == spans[i];
    }
  }

  lemma CoveredTail(spans: seq<Range>, k: int)
    requires Normal(spans) && spans != []
    ensures Covered(spans[1..], k) <==> Covered(spans, k) && spans[0].1 < k
  {
    if Covered(spans[1..], k) {
      var i :| 0 <= i < |spans| - 1 && spans[1..][i].0 <= k <= spans[1..][i].1;
      assert spans[i + 1] == spans[1..][i] && spans[0].1 + 1 < spans[i + 1].0;
    }
    if Covered(spans, k) && spans[0].1 < k {
      var i :| 0 <= i < |spans| && spans[i].0 <= k <= spans[i].1;
      assert spans[1..][i - 1] == spans[i];
    }
  }

  lemma CoversFirst(spans: seq<Range>)
    requires Normal(spans)
    ensures spans == [] <==> forall k :: !Covered(spans, k)
  {
    assert spans != [] ==> Covered(spans, spans[0].0);
  }

  /** A normal list is determined by the ids that it covers. */
  lemma {:induction false} NormalUnique(a: seq<Range>, b: seq<Range>)
    requires Normal(a) && Normal(b)
    requires forall k :: Covered(a, k) <==> Covered(b, k)
    ensures a == b
    decreases |a|
  {
    CoversFirst(a);
    CoversFirst(b);
    if a != [] {
      SameFirst(a, b);
      hide Normal, Covered;
      NormalUnique(a[1..], b[1..]);
      assert a == [a[0]] + a[1..] && b == [b[0]] + b[1..];
    }
  }

  lemma SameFirst(a: seq<Range>, b: seq<Range>)
    requires Normal(a) && Normal(b) && a != [] && b != []
    requires forall k :: Covered(a, k) <==> Covered(b, k)
    ensures a[0] == b[0] && Normal(a[1..]) && Normal(b[1..])
    ensures forall k :: Covered(a[1..], k) <==> Covered(b[1..], k)
  {
    assert Covered(a, a[0].0) && Covered(b, a[0].0) && Covered(b, b[0].0);
    assert a[0].0 == b[0].0;
    FirstEnds(a, b);
    FirstEnds(b, a);
    forall k ensures Covered(a[1..], k) <==> Covered(b[1..], k) {
      CoveredTail(a, k);
      CoveredTail(b, k);
    }
  }

  lemma FirstEnds(a: seq<Range>, b: seq<Range>)
    requires Normal(a) && Normal(b) && a != [] && b != [] && a[0].0 == b[0].0
    requires forall k :: Covered(a, k) <==> Covered(b, k)
    ensures a[0].1 <= b[0].1
  {
    var k := b[0].1 + 1;
    assert Covered(b, k) <==> Covered(a, k);
    assert a[0].0 <= k <= a[0].1 ==> Covered(a, k);
  }

  // ---- Sorting, as Python's sorted() on pairs ----

  predicate Before(a: Range, b: Range) {
    a.0 < b.0 || (a.0 == b.0 && a.1 <= b.1)
  }

  ghost predicate Ascending(spans: seq<Range>) {
    forall i, j :: 0 <= i < j < |spans| ==> Before(spans[i], spans[j])
  }

  function Place(spans: seq<Range>, x: Range): (r: seq<Range>)
    ensures multiset(r) == multiset(spans) + multiset{x}
  {
    if spans == [] || Before(x, spans[0]) then [x] + spans else
      assert spans == [spans[0]] + spans[1..];
      [spans[0]] + Place(spans[1..], x)
  }

  lemma {:induction false} PlaceAscends(spans: seq<Range>, x: Range)
    requires Ascending(spans)
    ensures Ascending(Place(spans, x))
  {
    if spans != [] && !Before(x, spans[0]) {
      PlaceAscends(spans[1..], x);
      var rest := Place(spans[1..], x);
      forall y | y in rest ensures Before(spans[0], y) {
        assert y in multiset(rest);
        assert y == x || y in spans[1..];
      }
      assert forall j :: 0 <= j < |rest| ==> rest[j] in rest;
    }
  }

  function Sorted(spans: seq<Range>): (r: seq<Range>)
    ensures multiset(r) == multiset(spans)
    ensures Ascending(r)
  {
    if spans == [] then [] else
      assert spans == [spans[0]] + spans[1..];
      var rest := Sorted(spans[1..]);
      PlaceAscends(rest, spans[0]);
      Place(rest, spans[0])
  }

  lemma SortedCovers(spans: seq<Range>)
    ensures forall x :: x in Sorted(spans) <==> x in spans
    ensures forall k :: Covered(Sorted(spans), k) <==> Covered(spans, k)
  {
    var r := Sorted(spans);
    assert forall x :: x in r <==> x in multiset(r);
    assert forall x :: x in spans <==> x in multiset(spans);
    forall k ensures Covered(r, k) <==> Covered(spans, k) {
      if Covered(r, k) {
        var i :| 0 <= i < |r| && r[i].0 <= k <= r[i].1;
        assert r[i] in spans;
      }
      if Covered(spans, k) {
        var i :| 0 <= i < |spans| && spans[i].0 <= k <= spans[i].1;
        assert spans[i] in r;
      }
    }
  }

  /** Extends the last range or starts a new one. */
  function Extend(merged: seq<Range>, x: Range): (r: seq<Range>) {
    if merged != [] && x.0 <= merged[|merged| - 1].1 + 1 then
      var top := merged[|merged| - 1];
      merged[..|merged| - 1] + [(top.0, if top.1 < x.1 then x.1 else top.1)]
    else merged + [x]
  }

  lemma ExtendNormal(merged: seq<Range>, x: Range)
    requires Normal(merged) && x.0 <= x.1
    requires merged != [] ==> merged[|merged| - 1].0 <= x.0
    ensures Normal(Extend(merged, x))
    ensures Extend(merged, x) != [] && Extend(merged, x)[|Extend(merged, x)| - 1].0 <= x.0
    ensures forall k :: Covered(Extend(merged, x), k) <==> Covered(merged, k) || x.0 <= k <= x.1
  {
    if merged != [] && x.0 <= merged[|merged| - 1].1 + 1 {
      var top := merged[|merged| - 1];
      var front := merged[..|merged| - 1];
      assert merged == front + [top];
      forall k ensures Covered(Extend(merged, x), k) <==> Covered(merged, k) || x.0 <= k <= x.1 {
        CoveredAppend(front, top, k);
        CoveredAppend(front, (top.0, if top.1 < x.1 then x.1 else top.1), k);
      }
    } else {
      forall k ensures Covered(Extend(merged, x), k) <==> Covered(merged, k) || x.0 <= k <= x.1 {
        CoveredAppend(merged, x, k);
      }
    }
  }

  /** The merge pass shared by coverage lists and translated ranges. */
  method Coalesce(ascending: seq<Range>) returns (merged: seq<Range>)
    requires Ascending(ascending) && forall i :: 0 <= i < |ascending| ==> ascending[i].0 <= ascending[i].1
    ensures Normal(merged)
    ensures forall k :: Covered(merged, k) <==> Covered(ascending, k)
  {
    merged := [];
    for n := 0 to |ascending|
      invariant Normal(merged)
      invariant merged != [] ==> n > 0 && merged[|merged| - 1].0 <= ascending[n - 1].0
      invariant forall k :: Covered(merged, k) <==> Covered(ascending[..n], k)
    {
      assert n > 0 ==> Before(ascending[n - 1], ascending[n]);
      ExtendNormal(merged, ascending[n]);
      assert ascending[..n + 1] == ascending[..n] + [ascending[n]];
      forall k ensures Covered(ascending[..n + 1], k) <==> Covered(ascending[..n], k) || ascending[n].0 <= k <= ascending[n].1 {
        CoveredAppend(ascending[..n], ascending[n], k);
      }
      merged := Extend(merged, ascending[n]);
    }
    assert ascending[..|ascending|] == ascending;
  }
}
