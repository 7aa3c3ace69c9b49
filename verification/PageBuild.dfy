/**
 When a build can succeed: a tree hangs from every table root, no page is used twice by the tables and their overflow
 chains together, and no page lies deeper than the visits may go. The visits are followed through the walk of each table.
 */
module PageBuild {
  import opened Wrappers
  import opened Varint
  import opened Pages
  import opened PageImages
  import opened PageGraph
  import opened PageRun
  import opened PageBaseline
  import opened PageOutcome

  // ---- The walk, part by part ----

  /** A walk of `b` after that of some pages before it. */
  ghost function Then(image: Image, first: Result<seq<TreePage>, PageError>, b: seq<Pending>, seen: set<int>): Result<seq<TreePage>, PageError>
    requires GoodImage(image)
  {
    if first.Ok? then After(first.value, Walk(image, b, seen + Numbers(first.value))) else first
  }

  /** The walk of two lists of pending pages is that of the first and then of the second. */
  lemma {:induction false} WalkSplit(image: Image, a: seq<Pending>, b: seq<Pending>, seen: set<int>)
    requires GoodImage(image)
    ensures Walk(image, a + b, seen) == Then(image, Walk(image, a, seen), b, seen)
    decreases |image.tree.Keys - seen|, |a|
  {
    hide InBounds, PageKeys, Push, Pushed, Numbers, Walk, GoodImage, Then;
    if a == [] {
      SplitNone(image, b, seen);
    } else {
      WalkNext(image, a, seen);
      WalkNext(image, a + b, seen);
      if MayRead(image, a, seen) {
        var more := Pushed(image, a) + a[1..];
        WalkSplit(image, more, b, seen + {a[0].page});
        SplitStep(image, a, b);
        ThenAfter(image, image.tree[a[0].page], Walk(image, more, seen + {a[0].page}), b, seen);
      } else {
        NoThen(image, b, seen);
      }
    }
  }

  lemma SplitStep(image: Image, a: seq<Pending>, b: seq<Pending>)
    requires GoodImage(image) && a != [] && a[0].page in image.tree
    ensures Pushed(image, a + b) + (a + b)[1..] == Pushed(image, a) + a[1..] + b
  {
    hide Push, GoodImage;
    assert (a + b)[1..] == a[1..] + b && (a + b)[0] == a[0];
  }

  lemma SplitNone(image: Image, b: seq<Pending>, seen: set<int>)
    requires GoodImage(image)
    ensures Walk(image, [] + b, seen) == Then(image, Walk(image, [], seen), b, seen)
  {
    assert [] + b == b;
    NoNumbers();
    WalkNone(image, seen);
    assert seen + Numbers([]) == seen;
    hide Walk, Numbers, GoodImage;
    AfterNone(Walk(image, b, seen));
  }

  lemma NoThen(image: Image, b: seq<Pending>, seen: set<int>)
    requires GoodImage(image)
    ensures Then(image, Err(PageUnavailable), b, seen) == Err(PageUnavailable)
  {
  }

  lemma WalkNone(image: Image, seen: set<int>)
    requires GoodImage(image)
    ensures Walk(image, [], seen) == Ok([])
  {
  }

  lemma NoNumbers()
    ensures Numbers([]) == {}
  {
  }

  /** One step of the walk. */
  lemma WalkNext(image: Image, stack: seq<Pending>, seen: set<int>)
    requires GoodImage(image) && stack != []
    ensures MayRead(image, stack, seen) ==>
      && |image.tree.Keys - (seen + {stack[0].page})| < |image.tree.Keys - seen|
      && image.tree[stack[0].page].number == stack[0].page
      && Walk(image, stack, seen)
         == After([image.tree[stack[0].page]], Walk(image, Pushed(image, stack) + stack[1..], seen + {stack[0].page}))
    ensures !MayRead(image, stack, seen) ==> Walk(image, stack, seen) == Err(PageUnavailable)
  {
    WalkUnfolds(image, stack, seen);
    if MayRead(image, stack, seen) { assert ShapedPage(image.tree[stack[0].page], stack[0].page, image.usable); }
  }

  lemma ThenAfter(image: Image, t: TreePage, first: Result<seq<TreePage>, PageError>, b: seq<Pending>, seen: set<int>)
    requires GoodImage(image)
    ensures After([t], Then(image, first, b, seen + {t.number})) == Then(image, After([t], first), b, seen)
  {
    hide Walk, Numbers;
    if first.Ok? {
      NumbersFirst(t, first.value);
      assert seen + {t.number} + Numbers(first.value) == seen + Numbers([t] + first.value);
      var rest := Walk(image, b, seen + Numbers([t] + first.value));
      if rest.Ok? { assert [t] + (first.value + rest.value) == [t] + first.value + rest.value; }
    }
  }

  lemma NumbersFirst(t: TreePage, first: seq<TreePage>)
    ensures Numbers([t] + first) == {t.number} + Numbers(first)
  {
    NumbersJoin([t], first);
    assert Numbers([t]) == {t.number} by { NumbersMore([], t); assert [] + [t] == [t]; NoNumbers(); }
  }

  lemma NumbersJoin(a: seq<TreePage>, b: seq<TreePage>)
    ensures Numbers(a + b) == Numbers(a) + Numbers(b)
  {
    var c := a + b;
    forall x ensures x in Numbers(c) <==> x in Numbers(a) || x in Numbers(b) {
      if i :| 0 <= i < |a| && a[i].number == x { assert c[i].number == x; }
      if i :| 0 <= i < |b| && b[i].number == x { assert c[|a| + i].number == x; }
    }
  }

  /** What a walk reads it has not seen before, and it reads the same after having seen any other pages instead. */
  lemma {:induction false} WalkElsewhere(image: Image, stack: seq<Pending>, seen: set<int>, other: set<int>)
    requires GoodImage(image) && Walk(image, stack, seen).Ok?
    ensures Numbers(Walk(image, stack, seen).value) !! seen
    ensures Numbers(Walk(image, stack, seen).value) !! other ==> Walk(image, stack, other) == Walk(image, stack, seen)
    decreases |image.tree.Keys - seen|, |stack|
  {
    hide InBounds, PageKeys, Push, Numbers;
    if stack == [] {
      NoNumbers();
    } else {
      WalkNext(image, stack, seen);
      WalkNext(image, stack, other);
      var t, more, p := image.tree[stack[0].page], Pushed(image, stack) + stack[1..], stack[0].page;
      WalkElsewhere(image, more, seen + {p}, other + {p});
      NumbersFirst(t, Walk(image, more, seen + {p}).value);
    }
  }

  /** Every page that a walk reads is one of the image's, and it reads none twice. */
  lemma {:induction false} WalkVisits(image: Image, stack: seq<Pending>, seen: set<int>)
    requires GoodImage(image) && Walk(image, stack, seen).Ok?
    ensures Visited(image, Walk(image, stack, seen).value)
    decreases |image.tree.Keys - seen|, |stack|
  {
    hide InBounds, PageKeys, Push, Pushed, Walk, GoodImage, Visited, Numbers;
    if stack == [] {
      WalkNone(image, seen);
      NoneVisited(image);
    } else {
      WalkNext(image, stack, seen);
      var more := Pushed(image, stack) + stack[1..];
      WalkVisits(image, more, seen + {stack[0].page});
      WalkElsewhere(image, more, seen + {stack[0].page}, {});
      FirstVisited(image, image.tree[stack[0].page], Walk(image, more, seen + {stack[0].page}).value);
    }
  }

  lemma NoneVisited(image: Image)
    ensures Visited(image, [])
  {
  }

  lemma FirstVisited(image: Image, t: TreePage, pages: seq<TreePage>)
    requires Visited(image, pages) && t.number in image.tree && t == image.tree[t.number] && t.number !in Numbers(pages)
    ensures Visited(image, [t] + pages)
  {
    forall i | 0 <= i < |pages| ensures pages[i].number != t.number { assert pages[i].number in Numbers(pages); }
  }

  // ---- Overflow pages of some pages ----

  /** The overflow chain of some cell of these pages uses page `x`. */
  ghost predicate Spilled(image: Image, pages: seq<TreePage>, x: int)
    requires 480 <= image.usable
  {
    exists i, j :: IsCell(pages, i, j) && x in Spill(image, pages, i, j)
  }

  lemma SpillJoin(image: Image, a: seq<TreePage>, b: seq<TreePage>, i: int, j: int)
    requires 480 <= image.usable
    ensures IsCell(a, i, j) ==> IsCell(a + b, i, j) && ChainAt(image, a + b, i, j) == ChainAt(image, a, i, j)
    ensures IsCell(b, i, j) ==> IsCell(a + b, |a| + i, j) && ChainAt(image, a + b, |a| + i, j) == ChainAt(image, b, i, j)
    ensures IsCell(a + b, i, j) ==> IsCell(a, i, j) || IsCell(b, i - |a|, j)
  {
    hide Chain;
  }

  lemma SpilledJoin(image: Image, a: seq<TreePage>, b: seq<TreePage>, x: int)
    requires 480 <= image.usable
    ensures Spilled(image, a + b, x) <==> Spilled(image, a, x) || Spilled(image, b, x)
  {
    hide ChainAt, IsCell;
    if i, j :| IsCell(a + b, i, j) && x in Spill(image, a + b, i, j) {
      SpillJoin(image, a, b, i, j);
      SpillJoin(image, a, b, i - |a|, j);
    }
    if i, j :| IsCell(a, i, j) && x in Spill(image, a, i, j) { SpillJoin(image, a, b, i, j); }
    if i, j :| IsCell(b, i, j) && x in Spill(image, b, i, j) { SpillJoin(image, a, b, i, j); }
  }

  /** Parts of a table that uses no page twice. */
  lemma PrivateParts(image: Image, a: seq<TreePage>, b: seq<TreePage>)
    requires 480 <= image.usable && Private(image, a + b)
    ensures Private(image, a) && Private(image, b)
    ensures forall x :: Spilled(image, a, x) ==> x !in Numbers(b) && !Spilled(image, b, x)
    ensures forall x :: Spilled(image, b, x) ==> x !in Numbers(a)
  {
    PrivateApart(image, a, b);
    NumbersJoin(a, b);
    hide ChainAt, IsCell, Numbers;
    forall i, j | IsCell(a, i, j) ensures ChainAt(image, a, i, j).Ok? && Spill(image, a, i, j) !! Numbers(a) { SpillJoin(image, a, b, i, j); }
    forall i, j | IsCell(b, i, j) ensures ChainAt(image, b, i, j).Ok? && Spill(image, b, i, j) !! Numbers(b) { SpillJoin(image, a, b, i, j); }
    forall x | Spilled(image, a, x) ensures x !in Numbers(b) && !Spilled(image, b, x) {
      var i, j :| IsCell(a, i, j) && x in Spill(image, a, i, j);
      SpillJoin(image, a, b, i, j);
      forall k, l | IsCell(b, k, l) ensures x !in Spill(image, b, k, l) {
        SpillJoin(image, a, b, k, l);
        CellsApart(a, b, i, j, k, l);
      }
    }
    forall x | Spilled(image, b, x) ensures x !in Numbers(a) {
      var i, j :| IsCell(b, i, j) && x in Spill(image, b, i, j);
      SpillJoin(image, a, b, i, j);
    }
  }

  lemma CellsApart(a: seq<TreePage>, b: seq<TreePage>, i: int, j: int, k: int, l: int)
    requires IsCell(a, i, j) && IsCell(b, k, l)
    ensures (i, j) != (|a| + k, l)
  {
  }

  lemma PrivateApart(image: Image, a: seq<TreePage>, b: seq<TreePage>)
    requires 480 <= image.usable && Private(image, a + b)
    ensures forall i, j, k, l :: IsCell(a, i, j) && IsCell(a, k, l) && (i, j) != (k, l) ==> Spill(image, a, i, j) !! Spill(image, a, k, l)
    ensures forall i, j, k, l :: IsCell(b, i, j) && IsCell(b, k, l) && (i, j) != (k, l) ==> Spill(image, b, i, j) !! Spill(image, b, k, l)
  {
    hide ChainAt, IsCell, Numbers;
    forall i, j, k, l | IsCell(a, i, j) && IsCell(a, k, l) && (i, j) != (k, l) ensures Spill(image, a, i, j) !! Spill(image, a, k, l) {
      SpillJoin(image, a, b, i, j);
      SpillJoin(image, a, b, k, l);
    }
    forall i, j, k, l | IsCell(b, i, j) && IsCell(b, k, l) && (i, j) != (k, l) ensures Spill(image, b, i, j) !! Spill(image, b, k, l) {
      SpillJoin(image, a, b, i, j);
      SpillJoin(image, a, b, k, l);
      assert (|a| + i, j) != (|a| + k, l);
    }
  }

  // ---- Depth and bounds ----

  /** The page and what lies below it take at most `levels` levels. */
  ghost predicate Shallow(image: Image, page: int, levels: int)
    decreases levels
  {
    0 < levels && page in image.tree && forall c :: c in image.tree[page].children ==> Shallow(image, c, levels - 1)
  }

  /** Whether rows between `low` and `high` lie in (lower, upper]. */
  predicate BoundsOk(low: Option<int>, high: Option<int>, lower: Option<int>, upper: Option<int>) {
    !(low.Some? && lower.Some? && low.value <= lower.value) && !(high.Some? && upper.Some? && high.value > upper.value)
  }

  predicate KeysOk(t: TreePage, lower: Option<int>, upper: Option<int>) {
    var keys := PageKeys(t);
    keys == [] || BoundsOk(Some(keys[0]), Some(keys[|keys| - 1]), lower, upper)
  }

  /** The first and the last key of a page stand for all of them. */
  lemma KeysWithin(image: Image, page: int, lower: Option<int>, upper: Option<int>)
    requires GoodImage(image) && page in image.tree
    ensures KeysOk(image.tree[page], lower, upper) <==> InBounds(PageKeys(image.tree[page]), lower, upper)
  {
    var t := image.tree[page];
    var keys := PageKeys(t);
    assert ShapedPage(t, page, image.usable);
    assert forall i, j :: 0 <= i < j < |keys| ==> keys[i] < keys[j];
    if keys != [] && KeysOk(t, lower, upper) {
      forall i | 0 <= i < |keys| ensures Above(keys[i], lower) && Below(keys[i], upper) {
        assert keys[0] <= keys[i] <= keys[|keys| - 1];
      }
    }
    if keys != [] && InBounds(keys, lower, upper) {
      assert Above(keys[0], lower) && Below(keys[|keys| - 1], upper);
    }
  }

  /** Rows within a child's bounds are within those of its page. */
  lemma ChildWithin(image: Image, page: int, lower: Option<int>, upper: Option<int>, i: nat, low: Option<int>, high: Option<int>)
    requires GoodImage(image) && page in image.tree && KeysOk(image.tree[page], lower, upper) && i < |image.tree[page].children|
    requires i <= |image.tree[page].separators|
    requires BoundsOk(low, high, BoundAt(image.tree[page], lower, upper, i), BoundAt(image.tree[page], lower, upper, i + 1))
    ensures BoundsOk(low, high, lower, upper)
  {
    var t := image.tree[page];
    KeysWithin(image, page, lower, upper);
    assert ShapedPage(t, page, image.usable) && PageKeys(t) == t.separators;
    if i > 0 { assert Above(t.separators[i - 1], lower); }
    if i < |t.separators| { assert Below(t.separators[i], upper); }
  }

  lemma WidenWithin(extent: Extent, more: Extent, lower: Option<int>, upper: Option<int>)
    requires BoundsOk(extent.0, extent.1, lower, upper) && BoundsOk(more.0, more.1, lower, upper)
    ensures BoundsOk(Widen(extent, more).0, Widen(extent, more).1, lower, upper)
  {
  }

  lemma NoRows(lower: Option<int>, upper: Option<int>)
    ensures BoundsOk(None, None, lower, upper)
  {
  }

  lemma {:induction false} RowsWithin(rows: seq<int>, lower: Option<int>, upper: Option<int>)
    requires InBounds(rows, lower, upper)
    ensures BoundsOk(LowRow(rows), HighRow(rows), lower, upper)
  {
    if rows != [] {
      var front := rows[..|rows| - 1];
      forall i | 0 <= i < |front| ensures Above(front[i], lower) && Below(front[i], upper) { assert front[i] == rows[i]; }
      RowsWithin(front, lower, upper);
      assert Above(rows[|rows| - 1], lower) && Below(rows[|rows| - 1], upper);
    }
  }

  lemma LeafWithin(image: Image, page: int, lower: Option<int>, upper: Option<int>)
    requires GoodImage(image) && page in image.tree && KeysOk(image.tree[page], lower, upper) && image.tree[page].children == []
    ensures var rows := CellRows(image.tree[page].cells); BoundsOk(LowRow(rows), HighRow(rows), lower, upper)
  {
    KeysWithin(image, page, lower, upper);
    var t := image.tree[page];
    assert CellRows(t.cells) == PageKeys(t);
    RowsWithin(CellRows(t.cells), lower, upper);
  }

  // ---- Visits as walks ----

  /** Between `r` and `s` exactly the pages of this walk were visited. */
  ghost predicate Walked(r: Run, s: Run, image: Image, stack: seq<Pending>)
    requires GoodImage(image)
  {
    var w := Walk(image, stack, r.visited);
    w.Ok? && s.visited == r.visited + Numbers(w.value)
  }

  /** And only their chains were recorded, and only visited pages are children. */
  ghost predicate Tidy(r: Run, s: Run, image: Image, stack: seq<Pending>)
    requires GoodImage(image) && Walk(image, stack, r.visited).Ok?
  {
    && s.edges.Keys <= s.visited
    && forall x :: x in s.overflow ==> x in r.overflow || Spilled(image, Walk(image, stack, r.visited).value, x)
  }

  /** Nothing stands in the way of visiting these pages and what lies below them. */
  ghost predicate Clear(r: Run, image: Image, barred: set<int>, stack: seq<Pending>, levels: int)
    requires GoodImage(image)
  {
    var w := Walk(image, stack, r.visited);
    && w.Ok? && (forall e :: e in stack ==> Shallow(image, e.page, levels)) && Private(image, w.value)
    && Numbers(w.value) !! barred && Numbers(w.value) !! r.overflow.Keys
    && forall x :: Spilled(image, w.value, x) ==> x !in r.overflow && x !in r.visited
  }

  lemma WalkedNone(r: Run, image: Image)
    requires GoodImage(image)
    ensures Walked(r, r, image, [])
  {
    WalkNone(image, r.visited);
    NoNumbers();
  }

  lemma WalkedJoin(r: Run, m: Run, s: Run, image: Image, a: seq<Pending>, b: seq<Pending>)
    requires GoodImage(image) && Walked(r, m, image, a) && Walked(m, s, image, b)
    ensures Walked(r, s, image, a + b)
    ensures Tidy(r, m, image, a) && Tidy(m, s, image, b) ==> Tidy(r, s, image, a + b)
  {
    hide Walk, Numbers, Spilled;
    WalkSplit(image, a, b, r.visited);
    var x, y := Walk(image, a, r.visited).value, Walk(image, b, m.visited).value;
    NumbersJoin(x, y);
    forall p ensures Spilled(image, x + y, p) <==> Spilled(image, x, p) || Spilled(image, y, p) { SpilledJoin(image, x, y, p); }
  }

  /** The first of several pages may be visited. */
  lemma ClearFirst(r: Run, image: Image, barred: set<int>, a: seq<Pending>, b: seq<Pending>, levels: int)
    requires GoodImage(image) && Clear(r, image, barred, a + b, levels)
    ensures Clear(r, image, barred, a, levels)
  {
    hide Walk, Numbers, Spilled, Private, Shallow;
    WalkSplit(image, a, b, r.visited);
    var x := Walk(image, a, r.visited).value;
    var y := Walk(image, b, r.visited + Numbers(x)).value;
    NumbersJoin(x, y);
    PrivateParts(image, x, y);
    forall p ensures Spilled(image, x + y, p) <==> Spilled(image, x, p) || Spilled(image, y, p) { SpilledJoin(image, x, y, p); }
    assert forall e :: e in a ==> e in a + b;
  }

  /** And after it the others. */
  lemma ClearRest(r: Run, s: Run, image: Image, barred: set<int>, a: seq<Pending>, b: seq<Pending>, levels: int)
    requires GoodImage(image) && Clear(r, image, barred, a + b, levels) && Walked(r, s, image, a) && Tidy(r, s, image, a)
    ensures Clear(s, image, barred, b, levels)
  {
    hide Walk, Numbers, Spilled, Private, Shallow;
    WalkSplit(image, a, b, r.visited);
    var x := Walk(image, a, r.visited).value;
    var y := Walk(image, b, s.visited).value;
    NumbersJoin(x, y);
    PrivateParts(image, x, y);
    forall p ensures Spilled(image, x + y, p) <==> Spilled(image, x, p) || Spilled(image, y, p) { SpilledJoin(image, x, y, p); }
    assert forall e :: e in b ==> e in a + b;
    forall p | Spilled(image, y, p) ensures p !in s.overflow && p !in s.visited { assert Spilled(image, x + y, p); }
    forall p | p in s.overflow ensures p !in Numbers(y) {}
  }

  /** The walk of one page: the page itself and then its children. */
  lemma WalkOne(image: Image, e: Pending, seen: set<int>)
    requires GoodImage(image)
    ensures MayRead(image, [e], seen) ==>
      && image.tree[e.page].number == e.page
      && Walk(image, [e], seen) == After([image.tree[e.page]], Walk(image, Pushed(image, [e]), seen + {e.page}))
    ensures !MayRead(image, [e], seen) ==> Walk(image, [e], seen) == Err(PageUnavailable)
  {
    hide InBounds, PageKeys, Push, Pushed, Walk, GoodImage;
    WalkNext(image, [e], seen);
    if MayRead(image, [e], seen) { assert Pushed(image, [e]) + [e][1..] == Pushed(image, [e]); }
  }

  /** A page that may be visited is read, passes its bounds, and has been used for nothing. */
  lemma ClearReads(r: Run, image: Image, barred: set<int>, e: Pending, levels: int)
    requires GoodImage(image) && Clear(r, image, barred, [e], levels)
    ensures MayRead(image, [e], r.visited) && e.page !in r.overflow && e.page !in barred && 0 < levels
    ensures KeysOk(image.tree[e.page], e.lower, e.upper)
  {
    hide InBounds, PageKeys, Pushed, Walk, Numbers, Spilled, Private;
    WalkOne(image, e, r.visited);
    assert e in [e] && Shallow(image, e.page, levels);
    var t := image.tree[e.page];
    NumbersFirst(t, Walk(image, Pushed(image, [e]), r.visited + {e.page}).value);
    KeysWithin(image, e.page, e.lower, e.upper);
  }

  /** Then its children may be visited. */
  lemma ClearBelow(r: Run, s: Run, image: Image, barred: set<int>, tops: set<int>, e: Pending, levels: int)
    requires GoodImage(image) && Clear(r, image, barred, [e], levels) && tops <= barred + {e.page}
    requires s.visited == r.visited + {e.page} && s.overflow.Keys <= r.overflow.Keys
    ensures MayRead(image, [e], r.visited) && Clear(s, image, tops, Pushed(image, [e]), levels - 1)
  {
    ClearReads(r, image, barred, e, levels);
    hide InBounds, PageKeys, Pushed, Walk, Numbers, Spilled, Private;
    WalkOne(image, e, r.visited);
    PushedCovers(image, [e]);
    assert e in [e] && Shallow(image, e.page, levels);
    var t, rest := image.tree[e.page], Walk(image, Pushed(image, [e]), s.visited).value;
    WalkElsewhere(image, Pushed(image, [e]), s.visited, {});
    NumbersFirst(t, rest);
    PrivateParts(image, [t], rest);
    NumbersOne(t);
    forall p | Spilled(image, rest, p) ensures p !in s.overflow && p !in s.visited { SpilledJoin(image, [t], rest, p); }
  }

  lemma NumbersOne(t: TreePage)
    ensures Numbers([t]) == {t.number}
  {
    NumbersFirst(t, []);
    NoNumbers();
    assert [t] + [] == [t];
  }

  /** A page and then its children are the walk of the page. */
  lemma WalkedUp(r: Run, m: Run, s: Run, image: Image, e: Pending)
    requires GoodImage(image) && MayRead(image, [e], r.visited) && m.visited == r.visited + {e.page}
    requires Walked(m, s, image, Pushed(image, [e]))
    ensures Walked(r, s, image, [e])
    ensures Tidy(m, s, image, Pushed(image, [e])) && m.overflow.Keys <= r.overflow.Keys ==> Tidy(r, s, image, [e])
  {
    hide InBounds, PageKeys, Pushed, Walk, Numbers, Spilled;
    WalkOne(image, e, r.visited);
    var t, rest := image.tree[e.page], Walk(image, Pushed(image, [e]), m.visited).value;
    NumbersFirst(t, rest);
    forall p | Spilled(image, rest, p) ensures Spilled(image, [t] + rest, p) { SpilledJoin(image, [t], rest, p); }
  }

  // ---- The chains of one leaf ----

  /** The chains of these cells can be read, and no page of them is in use. */
  ghost predicate Storable(image: Image, page: int, cells: seq<Cell>, used: set<int>)
    requires 480 <= image.usable
  {
    && (forall j :: 0 <= j < |cells| ==> Chain(image, cells[j], page).Ok? && AsSet(Chain(image, cells[j], page).value) !! used)
    && (forall j, k :: 0 <= j < k < |cells| ==> !(exists x :: InChain(image, page, cells[j], x) && InChain(image, page, cells[k], x)))
  }

  lemma LeafWalk(image: Image, e: Pending, seen: set<int>)
    requires GoodImage(image) && MayRead(image, [e], seen) && image.tree[e.page].children == []
    ensures image.tree[e.page].number == e.page && Walk(image, [e], seen) == Ok([image.tree[e.page]])
  {
    hide InBounds, PageKeys, Push, Pushed, Walk, GoodImage;
    WalkOne(image, e, seen);
    assert Pushed(image, [e]) == [];
    WalkNone(image, seen + {e.page});
    assert [image.tree[e.page]] + [] == [image.tree[e.page]];
  }

  lemma LeafSpill(image: Image, t: TreePage, j: nat)
    requires 480 <= image.usable && j < |t.cells|
    ensures IsCell([t], 0, j) && ChainAt(image, [t], 0, j) == Chain(image, t.cells[j], t.number)
    ensures forall x :: x in Spill(image, [t], 0, j) <==> InChain(image, t.number, t.cells[j], x)
  {
    hide Chain;
    var c := Chain(image, t.cells[j], t.number);
    if c.Ok? { assert forall x :: x in c.value <==> x in AsSet(c.value); }
  }

  lemma LeafSpills(image: Image, t: TreePage, x: int)
    requires 480 <= image.usable
    ensures Spilled(image, [t], x) <==> Serves(image, t.number, t.cells, x)
  {
    hide Spill, ChainAt, InChain;
    if i, j :| IsCell([t], i, j) && x in Spill(image, [t], i, j) { LeafSpill(image, t, j); }
    if j :| 0 <= j < |t.cells| && InChain(image, t.number, t.cells[j], x) { LeafSpill(image, t, j); }
  }

  /** A leaf that may be visited has chains that can be recorded. */
  lemma ClearLeaf(r: Run, image: Image, barred: set<int>, e: Pending, levels: int)
    requires GoodImage(image) && Clear(r, image, barred, [e], levels) && e.page in image.tree && image.tree[e.page].children == []
    ensures Storable(image, e.page, image.tree[e.page].cells, r.overflow.Keys + r.visited + {e.page})
  {
    ClearReads(r, image, barred, e, levels);
    LeafWalk(image, e, r.visited);
    var t := image.tree[e.page];
    NumbersOne(t);
    hide Chain, ChainAt, Spill, Walk, Numbers, InBounds, PageKeys, GoodImage;
    var used := r.overflow.Keys + r.visited + {e.page};
    forall j | 0 <= j < |t.cells| ensures Chain(image, t.cells[j], e.page).Ok? && AsSet(Chain(image, t.cells[j], e.page).value) !! used {
      LeafSpill(image, t, j);
      forall x | x in AsSet(Chain(image, t.cells[j], e.page).value) ensures x !in used {
        assert x in Spill(image, [t], 0, j) && Spilled(image, [t], x);
      }
    }
    forall j, k | 0 <= j < k < |t.cells|
      ensures !(exists x :: InChain(image, e.page, t.cells[j], x) && InChain(image, e.page, t.cells[k], x))
    {
      LeafSpill(image, t, j);
      LeafSpill(image, t, k);
    }
  }

  /** A leaf and its chains are the walk of the leaf. */
  lemma WalkedLeaf(r: Run, s: Run, image: Image, e: Pending)
    requires GoodImage(image) && MayRead(image, [e], r.visited) && image.tree[e.page].children == [] && s.visited == r.visited + {e.page}
    ensures Walked(r, s, image, [e])
    ensures s.edges.Keys <= s.visited
            && (forall x :: x in s.overflow ==> x in r.overflow || Serves(image, e.page, image.tree[e.page].cells, x))
            ==> Tidy(r, s, image, [e])
  {
    hide InBounds, PageKeys, Walk, Numbers, Serves, Spilled;
    LeafWalk(image, e, r.visited);
    var t := image.tree[e.page];
    NumbersOne(t);
    forall x ensures Spilled(image, [t], x) <==> Serves(image, e.page, t.cells, x) { LeafSpills(image, t, x); }
  }

  /** Besides what was there, only pages of the first `n` chains. */
  ghost predicate ChainsOnly(was: set<int>, now: set<int>, image: Image, page: int, cells: seq<Cell>, n: nat)
    requires 480 <= image.usable && n <= |cells|
  {
    forall x :: x in now && x !in was ==> exists j :: 0 <= j < n && InChain(image, page, cells[j], x)
  }

  lemma ChainFree(image: Image, page: int, cells: seq<Cell>, n: nat, was: set<int>, now: set<int>, nodes: set<int>)
    requires 480 <= image.usable && n < |cells| && Storable(image, page, cells, was + nodes) && ChainsOnly(was, now, image, page, cells, n)
    ensures Chain(image, cells[n], page).Ok? && AsSet(Chain(image, cells[n], page).value) !! now + nodes
  {
    hide Chain;
    var chain := Chain(image, cells[n], page).value;
    forall x | x in AsSet(chain) ensures x !in now && x !in nodes {
      assert InChain(image, page, cells[n], x);
      assert x !in was + nodes;
    }
  }

  lemma ChainsMore(image: Image, page: int, cells: seq<Cell>, n: nat, was: set<int>, now: set<int>, more: set<int>)
    requires 480 <= image.usable && n < |cells| && ChainsOnly(was, now, image, page, cells, n)
    requires Chain(image, cells[n], page).Ok? && more == now + AsSet(Chain(image, cells[n], page).value)
    ensures ChainsOnly(was, more, image, page, cells, n + 1)
  {
    hide Chain;
    forall x | x in more && x !in was ensures exists j :: 0 <= j < n + 1 && InChain(image, page, cells[j], x) {
      if x in now {
        var j :| 0 <= j < n && InChain(image, page, cells[j], x);
      } else {
        assert InChain(image, page, cells[n], x);
      }
    }
  }

  /** Recording a page that has no node adds it to the chain pages and touches nothing else. */
  lemma RecordedNew(r: Run, x: int, page: int, rowId: int, previous: Option<int>)
    requires x !in r.nodes && (previous.Some? ==> previous.value in r.overflow)
    ensures var s := Recorded(r, x, page, rowId, previous);
            s.nodes == r.nodes && s.edges == r.edges && s.overflow.Keys == r.overflow.Keys + {x}
  {
  }

  lemma ChainDistinct(image: Image, cell: Cell, page: int)
    requires 480 <= image.usable && ShapedCell(cell, image.usable)
    ensures cell.local <= cell.payload && (Chain(image, cell, page).Ok? ==> Distinct(Chain(image, cell, page).value))
  {
    LocalBounds(cell.payload, image.usable);
    if Chain(image, cell, page).Ok? {
      ChainSound(image, if cell.overflow.Some? then cell.overflow.value else 0, cell.payload - cell.local, {page});
    }
  }

  /** Since `r`, exactly the first `k` pages of the chain were recorded. */
  ghost predicate LinksOnly(r: Run, s: Run, chain: seq<int>, k: nat)
    requires k <= |chain|
  {
    s.nodes == r.nodes && s.edges == r.edges && s.overflow.Keys == r.overflow.Keys + AsSet(chain[..k])
  }

  lemma NoLinks(r: Run, chain: seq<int>)
    ensures LinksOnly(r, r, chain, 0)
  {
    assert AsSet(chain[..0]) == {};
  }

  lemma NextLink(r: Run, s: Run, chain: seq<int>, k: nat)
    requires k < |chain| && Distinct(chain) && AsSet(chain) !! r.overflow.Keys + r.nodes.Keys && LinksOnly(r, s, chain, k)
    ensures chain[k] !in s.overflow && chain[k] !in s.nodes
  {
    NextFree(chain, k);
    assert chain[k] in AsSet(chain);
  }

  lemma MoreLinks(r: Run, s: Run, t: Run, chain: seq<int>, k: nat)
    requires k < |chain| && Distinct(chain) && LinksOnly(r, s, chain, k)
    requires t.nodes == s.nodes && t.edges == s.edges && t.overflow.Keys == s.overflow.Keys + {chain[k]}
    ensures LinksOnly(r, t, chain, k + 1)
  {
    NextFree(chain, k);
  }

  lemma AllLinks(r: Run, s: Run, chain: seq<int>)
    requires LinksOnly(r, s, chain, |chain|)
    ensures s.nodes == r.nodes && s.edges == r.edges && s.overflow.Keys == r.overflow.Keys + AsSet(chain)
  {
    assert chain[..|chain|] == chain;
  }

  lemma NoChains(was: set<int>, image: Image, page: int, cells: seq<Cell>)
    requires 480 <= image.usable
    ensures ChainsOnly(was, was, image, page, cells, 0)
  {
  }

  lemma NextFree(chain: seq<int>, k: nat)
    requires k < |chain| && Distinct(chain)
    ensures chain[k] !in AsSet(chain[..k]) && AsSet(chain[..k + 1]) == AsSet(chain[..k]) + {chain[k]}
  {
    assert chain[..k + 1] == chain[..k] + [chain[k]];
    forall x ensures x in AsSet(chain[..k + 1]) <==> x in AsSet(chain[..k]) || x == chain[k] {
      if i :| 0 <= i < k && chain[..k][i] == x { assert chain[..k + 1][i] == x; }
      if x == chain[k] { assert chain[..k + 1][k] == x; }
    }
  }

  // ---- Visits of one page, and of several ----

  /** A visit of `e` is not refused. */
  ghost predicate Open(r: Run, image: Image, tops: set<int>, e: Pending)
    requires GoodImage(image)
  {
    Clear(r, image, tops - {e.page}, [e], 64 - |r.visiting|) && r.edges.Keys <= r.visited + {e.page}
  }

  /** A visit of `e` was the walk below it, within the levels left. */
  ghost predicate Went(r: Run, s: Run, image: Image, e: Pending, levels: int)
    requires GoodImage(image)
  {
    Walked(r, s, image, [e]) && Shallow(image, e.page, levels)
  }

  /** The visit of `e` has begun. */
  ghost predicate Started(r0: Run, r: Run, image: Image, e: Pending) {
    && MayRead(image, [e], r0.visited) && r.visited == r0.visited + {e.page} && |r.visiting| == |r0.visiting| + 1 <= 64
    && r.overflow.Keys <= r0.overflow.Keys && r.edges.Keys <= r0.edges.Keys
  }

  lemma BegunStarted(r: Run, image: Image, page: int, name: string, lower: Option<int>, upper: Option<int>)
    requires GoodImage(image) && page in image.tree && page !in r.visited && |r.visiting| < 64
    requires KeysOk(image.tree[page], lower, upper) && |r.visiting + {page}| == |r.visiting| + 1
    ensures Started(r, Begun(r, page, name, image.tree[page]), image, Pending(page, lower, upper))
    ensures page !in r.visiting && Begun(r, page, name, image.tree[page]).visiting == r.visiting + {page}
  {
    KeysWithin(image, page, lower, upper);
    hide InBounds, PageKeys;
  }

  lemma OpenReads(r: Run, image: Image, tops: set<int>, e: Pending)
    requires GoodImage(image) && Open(r, image, tops, e)
    ensures e.page !in r.visited && e.page in image.tree && e.page !in r.overflow && |r.visiting| < 64
    ensures KeysOk(image.tree[e.page], e.lower, e.upper)
  {
    ClearReads(r, image, tops - {e.page}, e, 64 - |r.visiting|);
    hide Clear, InBounds, PageKeys;
  }

  // ---- One child after another ----

  /** Since `b`, the first `i` pages were visited. */
  ghost predicate Upto(b: Run, m: Run, image: Image, stack: seq<Pending>, i: nat, levels: int)
    requires GoodImage(image) && i <= |stack|
  {
    Walked(b, m, image, stack[..i]) && forall j :: 0 <= j < i ==> Shallow(image, stack[j].page, levels)
  }

  /** And the others may be. */
  ghost predicate Onwards(b: Run, m: Run, image: Image, tops: set<int>, stack: seq<Pending>, i: nat, levels: int)
    requires GoodImage(image) && i <= |stack|
  {
    Clear(m, image, tops, stack[i..], levels) && Walk(image, stack[..i], b.visited).Ok? && Tidy(b, m, image, stack[..i])
  }

  lemma BeginUpto(b: Run, image: Image, tops: set<int>, stack: seq<Pending>, levels: int)
    requires GoodImage(image)
    ensures Upto(b, b, image, stack, 0, levels)
    ensures Clear(b, image, tops, stack, levels) && b.edges.Keys <= b.visited ==> Onwards(b, b, image, tops, stack, 0, levels)
  {
    hide Walk, Clear, Spilled;
    assert stack[..0] == [] && stack[0..] == stack;
    WalkedNone(b, image);
  }

  lemma NextUp(b: Run, m: Run, image: Image, tops: set<int>, stack: seq<Pending>, i: nat, levels: int)
    requires GoodImage(image) && i < |stack| && Onwards(b, m, image, tops, stack, i, levels)
    ensures Clear(m, image, tops, [stack[i]], levels) && m.edges.Keys <= m.visited
  {
    hide Walk, Clear, Spilled;
    assert stack[i..] == [stack[i]] + stack[i + 1..];
    ClearFirst(m, image, tops, [stack[i]], stack[i + 1..], levels);
  }

  lemma StepUp(b: Run, m: Run, s: Run, image: Image, tops: set<int>, stack: seq<Pending>, i: nat, levels: int)
    requires GoodImage(image) && i < |stack| && Upto(b, m, image, stack, i, levels) && Went(m, s, image, stack[i], levels)
    ensures Upto(b, s, image, stack, i + 1, levels)
    ensures Onwards(b, m, image, tops, stack, i, levels) && Tidy(m, s, image, [stack[i]]) ==> Onwards(b, s, image, tops, stack, i + 1, levels)
  {
    hide Walk, Clear, Tidy, Shallow, Numbers;
    assert stack[..i + 1] == stack[..i] + [stack[i]];
    WalkedJoin(b, m, s, image, stack[..i], [stack[i]]);
    if Onwards(b, m, image, tops, stack, i, levels) && Tidy(m, s, image, [stack[i]]) {
      assert stack[i..] == [stack[i]] + stack[i + 1..];
      ClearRest(m, s, image, tops, [stack[i]], stack[i + 1..], levels);
    }
  }

  lemma AllUp(b: Run, s: Run, image: Image, tops: set<int>, stack: seq<Pending>, levels: int)
    requires GoodImage(image) && Upto(b, s, image, stack, |stack|, levels)
    ensures Walked(b, s, image, stack) && forall e :: e in stack ==> Shallow(image, e.page, levels)
    ensures Onwards(b, s, image, tops, stack, |stack|, levels) ==> Tidy(b, s, image, stack)
  {
    hide Walk, Clear, Tidy, Shallow, Walked;
    assert stack[..|stack|] == stack;
  }

  // ---- A whole page ----

  /** Once the visit of a page has begun, its children may be visited. */
  lemma OpenBelow(r0: Run, m: Run, image: Image, tops: set<int>, e: Pending)
    requires GoodImage(image) && Started(r0, m, image, e) && Open(r0, image, tops, e)
    ensures Clear(m, image, tops, Pushed(image, [e]), 64 - |m.visiting|) && m.edges.Keys <= m.visited
  {
    ClearBelow(r0, m, image, tops - {e.page}, tops, e, 64 - |r0.visiting|);
    hide Clear, InBounds, PageKeys, Pushed;
  }

  lemma OpenLeaf(r0: Run, m: Run, image: Image, tops: set<int>, e: Pending)
    requires GoodImage(image) && Started(r0, m, image, e) && Open(r0, image, tops, e) && image.tree[e.page].children == []
    requires m.nodes.Keys == m.visited
    ensures Storable(image, e.page, image.tree[e.page].cells, m.overflow.Keys + m.nodes.Keys) && m.edges.Keys <= m.visited
  {
    ClearLeaf(r0, image, tops - {e.page}, e, 64 - |r0.visiting|);
    FewerUsed(image, e.page, image.tree[e.page].cells, r0.overflow.Keys + r0.visited + {e.page}, m.overflow.Keys + m.nodes.Keys);
    hide Clear, InBounds, PageKeys, Storable;
  }

  lemma FewerUsed(image: Image, page: int, cells: seq<Cell>, used: set<int>, fewer: set<int>)
    requires 480 <= image.usable && fewer <= used
    ensures Storable(image, page, cells, used) ==> Storable(image, page, cells, fewer)
  {
    hide Chain, AsSet;
  }

  lemma InteriorWent(r0: Run, m: Run, s: Run, image: Image, e: Pending)
    requires GoodImage(image) && Started(r0, m, image, e) && Walked(m, s, image, Pushed(image, [e]))
    requires forall c :: c in Pushed(image, [e]) ==> Shallow(image, c.page, 64 - |m.visiting|)
    ensures Went(r0, s, image, e, 64 - |r0.visiting|)
    ensures Tidy(m, s, image, Pushed(image, [e])) ==> Tidy(r0, s, image, [e])
  {
    hide Walked, Tidy, InBounds, PageKeys, Pushed;
    WalkedUp(r0, m, s, image, e);
    PushedCovers(image, [e]);
  }

  lemma LeafWent(r0: Run, m: Run, s: Run, image: Image, e: Pending)
    requires GoodImage(image) && Started(r0, m, image, e) && image.tree[e.page].children == [] && s.visited == m.visited
    ensures Went(r0, s, image, e, 64 - |r0.visiting|)
    ensures s.edges == m.edges && m.edges.Keys <= m.visited
            && ChainsOnly(m.overflow.Keys, s.overflow.Keys, image, e.page, image.tree[e.page].cells, |image.tree[e.page].cells|)
            ==> Tidy(r0, s, image, [e])
  {
    WalkedLeaf(r0, s, image, e);
    hide Walked, Tidy, InBounds, PageKeys, InChain;
  }

  /** In a build every stored page has been visited. */
  lemma AllNew(r: Run, image: Image, tops: set<int>)
    requires Inv(r, image, tops, map[])
    ensures r.nodes.Keys == r.visited
  {
    hide Finished, Linked, Apart, Remembered;
    assert Traced(r, map[]) && Tracked(r, tops);
    forall p | p in r.nodes ensures p in r.visited { assert !Untouched(r, map[], p); }
    assert forall p :: p in r.nodes.Keys <==> p in r.visited;
  }

  // ---- The steps of a visit ----

  /** Child number `i` of a page, with its bounds. */
  function ChildPending(t: TreePage, lower: Option<int>, upper: Option<int>, i: nat): Pending
    requires i < |t.children| && i <= |t.separators|
  {
    Pending(t.children[i], BoundAt(t, lower, upper, i), BoundAt(t, lower, upper, i + 1))
  }

  lemma PushedAre(image: Image, page: int, lower: Option<int>, upper: Option<int>)
    requires GoodImage(image) && page in image.tree && image.tree[page].children != []
    ensures var t, stack := image.tree[page], Pushed(image, [Pending(page, lower, upper)]);
            && |stack| == |t.children| == |t.separators| + 1
            && forall i :: 0 <= i < |stack| ==> stack[i] == ChildPending(t, lower, upper, i)
  {
    assert ShapedPage(image.tree[page], page, image.usable);
    hide BoundAt;
  }

  lemma ClearChild(r: Run, image: Image, tops: set<int>, e: Pending)
    requires GoodImage(image) && Clear(r, image, tops, [e], 64 - |r.visiting|) && r.edges.Keys <= r.visited
    ensures e.page !in tops && e.page !in r.edges
  {
    ClearReads(r, image, tops, e, 64 - |r.visiting|);
    hide Clear, InBounds, PageKeys;
  }

  lemma AttachedIs(r: Run, child: int, e: Edge, chain: set<int>)
    ensures var s := Attached(r, child, e, chain);
            && s.visited == r.visited && s.visiting == r.visiting && s.overflow == r.overflow && s.edges == r.edges[child := e]
  {
  }

  /** Linking a page leaves its visit open. */
  lemma LinkOpens(a: Run, b: Run, image: Image, tops: set<int>, e: Pending)
    requires GoodImage(image) && Clear(a, image, tops, [e], 64 - |a.visiting|) && a.edges.Keys <= a.visited
    requires b.visited == a.visited && b.visiting == a.visiting && b.overflow == a.overflow && b.edges.Keys == a.edges.Keys + {e.page}
    ensures Open(b, image, tops, e)
  {
    ClearReads(a, image, tops, e, 64 - |a.visiting|);
    hide InBounds, PageKeys, Walk, Private, Spilled, Numbers, Shallow;
    assert tops - {e.page} == tops;
  }

  lemma LinkWent(a: Run, b: Run, s: Run, image: Image, e: Pending, levels: int)
    requires GoodImage(image) && b.visited == a.visited && b.overflow == a.overflow && Went(b, s, image, e, levels)
    ensures Went(a, s, image, e, levels) && (Tidy(b, s, image, [e]) ==> Tidy(a, s, image, [e]))
  {
    hide Walk, Spilled, Numbers, Shallow;
  }

  lemma EndWent(r: Run, s: Run, t: Run, image: Image, e: Pending)
    requires GoodImage(image) && t.visited == s.visited && t.overflow == s.overflow && t.edges == s.edges
    requires Went(r, s, image, e, 64 - |r.visiting|)
    ensures Went(r, t, image, e, 64 - |r.visiting|) && (Tidy(r, s, image, [e]) ==> Tidy(r, t, image, [e]))
  {
    hide Walk, Spilled, Numbers, Shallow;
  }

  // ---- Whole tables ----

  /** The pages of the table at `root`; none, if no tree hangs from it. */
  ghost function Table(image: Image, root: int): seq<TreePage>
    requires GoodImage(image)
  {
    var w := Walk(image, [Pending(root, None, None)], {});
    if w.Ok? then w.value else []
  }

  /** A tree hangs from the root, no deeper than 64 levels, and no page of the table or its chains is used twice. */
  ghost predicate TableOk(image: Image, root: int)
    requires GoodImage(image)
  {
    Walk(image, [Pending(root, None, None)], {}).Ok? && Shallow(image, root, 64) && Private(image, Table(image, root))
  }

  /** That is: its rows can be listed, as `Rows` lists them, and it is shallow enough. */
  lemma TableMeans(image: Image, root: int)
    requires GoodImage(image)
    ensures TableOk(image, root) <==> TreeBelow(image, root) && Private(image, Table(image, root)) && Shallow(image, root, 64)
  {
    WalkAccepts(image, [Pending(root, None, None)], {});
    hide Walk, Forest, Private, Shallow;
  }

  /** The table at `root` uses page `x`, in its tree or in an overflow chain. */
  ghost predicate Uses(image: Image, root: int, x: int)
    requires GoodImage(image)
  {
    x in Numbers(Table(image, root)) || Spilled(image, Table(image, root), x)
  }

  ghost predicate Share(image: Image, a: int, b: int)
    requires GoodImage(image)
  {
    exists x :: Uses(image, a, x) && Uses(image, b, x)
  }

  /** Every table is accepted on its own, and no two tables share a page. */
  ghost predicate Buildable(image: Image, roots: map<string, int>)
    requires GoodImage(image)
  {
    && (forall name :: name in roots ==> TableOk(image, roots[name]))
    && (forall a, b :: a in roots && b in roots && a != b ==> !Share(image, roots[a], roots[b]))
  }

  lemma RootUsed(image: Image, root: int)
    requires GoodImage(image) && Walk(image, [Pending(root, None, None)], {}).Ok?
    ensures Uses(image, root, root)
  {
    hide Walk, Numbers, Spilled, InBounds, PageKeys, Pushed;
    var e := Pending(root, None, None);
    WalkOne(image, e, {});
    NumbersFirst(image.tree[root], Walk(image, Pushed(image, [e]), {} + {root}).value);
  }

  /** The tables named so far have been walked. */
  ghost predicate RootsGone(image: Image, roots: map<string, int>, done: set<string>, visited: set<int>)
    requires GoodImage(image)
  {
    && (forall a :: a in done ==>
         a in roots && Walk(image, [Pending(roots[a], None, None)], {}).Ok? && Shallow(image, roots[a], 64)
         && Numbers(Table(image, roots[a])) <= visited)
    && (forall a, b :: a in done && b in done && a != b ==> Numbers(Table(image, roots[a])) !! Numbers(Table(image, roots[b])))
  }

  /** And only their pages are in use. */
  ghost predicate RootsOnly(image: Image, roots: map<string, int>, done: set<string>, r: Run)
    requires GoodImage(image)
  {
    && done <= roots.Keys && r.edges.Keys <= r.visited
    && forall x :: x in r.visited || x in r.overflow ==> exists a :: a in done && Uses(image, roots[a], x)
  }

  lemma RootOpens(image: Image, roots: map<string, int>, done: set<string>, r: Run, name: string)
    requires GoodImage(image) && Buildable(image, roots) && RootsOnly(image, roots, done, r) && name in roots && name !in done
    requires r.visiting == {}
    ensures Open(r, image, roots.Values, Pending(roots[name], None, None))
  {
    hide Walk, Numbers, Spilled, Private, Shallow;
    var root, e := roots[name], Pending(roots[name], None, None);
    assert TableOk(image, root);
    var pages := Table(image, root);
    forall x | x in Numbers(pages) ensures x !in r.visited && x !in r.overflow { NotShared(image, roots, done, r, name, x); }
    forall x | Spilled(image, pages, x) ensures x !in r.visited && x !in r.overflow { NotShared(image, roots, done, r, name, x); }
    WalkElsewhere(image, [e], {}, r.visited);
    forall x | x in roots.Values - {root} ensures x !in Numbers(Table(image, root)) {
      var b :| b in roots && roots[b] == x;
      RootUsed(image, x);
      assert !Share(image, root, x);
    }
  }

  lemma NoneGone(image: Image, roots: map<string, int>, visited: set<int>)
    requires GoodImage(image)
    ensures RootsGone(image, roots, {}, visited)
  {
  }

  lemma NothingUsed(image: Image, roots: map<string, int>)
    requires GoodImage(image)
    ensures RootsOnly(image, roots, {}, Run(map[], map[], map[], {}, {}, {}, {}, {}, map[]))
  {
  }

  lemma NotShared(image: Image, roots: map<string, int>, done: set<string>, r: Run, name: string, x: int)
    requires GoodImage(image) && Buildable(image, roots) && RootsOnly(image, roots, done, r) && name in roots && name !in done
    requires Uses(image, roots[name], x)
    ensures x !in r.visited && x !in r.overflow
  {
    hide Uses, TableOk;
    forall a | a in done ensures !Uses(image, roots[a], x) { assert !Share(image, roots[name], roots[a]); }
  }

  lemma RootWent(image: Image, roots: map<string, int>, done: set<string>, r: Run, s: Run, name: string)
    requires GoodImage(image) && RootsGone(image, roots, done, r.visited) && name in roots
    requires Went(r, s, image, Pending(roots[name], None, None), 64)
    ensures RootsGone(image, roots, done + {name}, s.visited)
    ensures RootsOnly(image, roots, done, r) && Tidy(r, s, image, [Pending(roots[name], None, None)]) ==>
      RootsOnly(image, roots, done + {name}, s)
  {
    hide Walk, Numbers, Spilled, Shallow;
    var e := Pending(roots[name], None, None);
    WalkElsewhere(image, [e], r.visited, {});
    if name in done { assert done + {name} == done; }
    if RootsOnly(image, roots, done, r) && Tidy(r, s, image, [e]) {
      forall x | x in s.visited || x in s.overflow ensures exists a :: a in done + {name} && Uses(image, roots[a], x) {
        if x in r.visited || x in r.overflow {
          var a :| a in done && Uses(image, roots[a], x);
          assert a in done + {name};
        } else {
          assert Uses(image, roots[name], x) && name in done + {name};
        }
      }
    }
  }

  /** Where the loop over the roots stands: `left` is still to be looked at, `clear` says that nothing can go wrong. */
  ghost predicate AtRoots(start: Run, r: Run, image: Image, roots: map<string, int>, left: set<string>, full: bool, clear: bool)
    requires GoodImage(image)
  {
    && Frame(start, r, roots.Values)
    && (forall name :: name in roots && name !in left ==> RootKnown(r, roots[name], name))
    && (forall name :: name in left && name in roots ==> full || roots[name] in r.needed || RootKnown(r, roots[name], name))
    && (full ==> RootsGone(image, roots, roots.Keys - left, r.visited))
    && (clear ==> full && Buildable(image, roots) && RootsOnly(image, roots, roots.Keys - left, r))
    && (!full && start.needed == {} ==> r.needed == {})
  }

  lemma AtStart(r: Run, image: Image, roots: map<string, int>, before: map<int, Node>, full: bool, clear: bool)
    requires Inv(r, image, roots.Values, before) && GoodImage(image) && (full || RootsReady(r, roots))
    requires clear ==> full && Buildable(image, roots) && RootsOnly(image, roots, {}, r)
    ensures AtRoots(r, r, image, roots, roots.Keys, full, clear)
  {
    NoChange(r, image, roots.Values, before);
    NoneGone(image, roots, r.visited);
    hide Inv, Frame, GoodImage, RootsGone, RootsOnly, Buildable;
    assert roots.Keys - roots.Keys == {};
  }

  /** A root that is looked at: if it may be visited at all, nothing stands in its way; if not, it is known already. */
  lemma AtRoot(start: Run, r: Run, image: Image, roots: map<string, int>, left: set<string>, full: bool, clear: bool, name: string)
    requires GoodImage(image) && AtRoots(start, r, image, roots, left, full, clear) && name in left && left <= roots.Keys && r.visiting == {}
    ensures roots[name] in roots.Values
    ensures clear ==> full && Open(r, image, roots.Values, Pending(roots[name], None, None))
    ensures !full && start.needed == {} ==> r.needed == {}
    ensures !full && roots[name] !in r.needed ==> AtRoots(start, r, image, roots, left - {name}, full, clear)
  {
    hide Frame, GoodImage, RootsGone, RootsOnly, Buildable, Open, RootKnown;
    if clear { RootOpens(image, roots, roots.Keys - left, r, name); }
  }

  lemma AtNext(start: Run, r: Run, s: Run, image: Image, roots: map<string, int>, left: set<string>, full: bool, clear: bool, name: string)
    requires GoodImage(image) && AtRoots(start, r, image, roots, left, full, clear) && name in left && left <= roots.Keys
    requires Frame(r, s, roots.Values) && Settled(s, roots[name]) && s.nodes[roots[name]].name == name
    requires full || roots[name] in r.needed
    requires full ==> Went(r, s, image, Pending(roots[name], None, None), 64)
    requires clear ==> Tidy(r, s, image, [Pending(roots[name], None, None)])
    ensures AtRoots(start, s, image, roots, left - {name}, full, clear)
  {
    hide GoodImage, RootsGone, RootsOnly, Buildable, Went, Tidy, Walk, Frame, RootKnown, Settled;
    if full { RootWent(image, roots, roots.Keys - left, r, s, name); }
    assert roots.Keys - (left - {name}) == (roots.Keys - left) + {name};
    FrameTrans(start, r, s, roots.Values);
    RootsStay(r, s, roots);
    KnownRoot(s, roots[name], name);
  }

  lemma AtEnd(start: Run, r: Run, image: Image, roots: map<string, int>, full: bool, clear: bool)
    requires GoodImage(image) && AtRoots(start, r, image, roots, {}, full, clear)
    ensures RootsSettled(r, roots) && start.needed <= r.needed && (full ==> RootsGone(image, roots, roots.Keys, r.visited))
  {
    hide GoodImage, RootsGone, RootsOnly, Buildable, Frame, RootKnown;
    KnownRoots(r, roots);
    NeededGrow(start, r, roots.Values);
    assert roots.Keys - {} == roots.Keys;
  }

  // ---- What a finished build shows of its image ----

  /** In an exact graph each chain page belongs to one cell and is no tree page. */
  lemma ExactSpill(g: Graph, image: Image, roots: map<string, int>, rank: map<int, nat>, pages: seq<TreePage>, i: int, j: int)
    requires Exact(g, image, roots, rank) && Visited(image, pages) && IsCell(pages, i, j) && pages[i].number in g.nodes
    ensures ChainAt(image, pages, i, j).Ok?
    ensures forall x :: x in Spill(image, pages, i, j) ==>
      x !in g.nodes && x in g.overflow && g.overflow[x].leaf == pages[i].number && g.overflow[x].rowId == pages[i].cells[j].rowId
  {
    var p, cell := pages[i].number, pages[i].cells[j];
    assert Done(g.nodes, g.edges, g.overflow, image, p);
    ExactApart(g, image, roots, rank);
    assert CellStored(g.overflow, image, p, g.nodes[p].cells[j]);
    hide Exact, Done, Chain;
    var chain := Chain(image, cell, p).value;
    forall x | x in AsSet(chain)
      ensures x !in g.nodes && x in g.overflow && g.overflow[x].leaf == p && g.overflow[x].rowId == cell.rowId
    {
      var k :| 0 <= k < |chain| && chain[k] == x;
      assert g.overflow[chain[k]] == Owner(p, cell.rowId, NextIn(chain, k));
    }
  }

  lemma ExactApart(g: Graph, image: Image, roots: map<string, int>, rank: map<int, nat>)
    requires Exact(g, image, roots, rank)
    ensures GoodImage(image) && forall x :: x in g.overflow ==> x !in g.nodes
  {
    hide Done;
  }

  lemma RowsDiffer(image: Image, pages: seq<TreePage>, i: int, j: int, k: int, l: int)
    requires GoodImage(image) && Visited(image, pages) && IsCell(pages, i, j) && IsCell(pages, k, l) && (i, j) != (k, l)
    ensures pages[i].number != pages[k].number || pages[i].cells[j].rowId != pages[k].cells[l].rowId
  {
    assert ShapedPage(pages[i], pages[i].number, image.usable);
  }

  lemma ExactPrivate(g: Graph, image: Image, roots: map<string, int>, rank: map<int, nat>, pages: seq<TreePage>)
    requires Exact(g, image, roots, rank) && Visited(image, pages) && Numbers(pages) <= g.nodes.Keys
    ensures Private(image, pages)
  {
    ExactApart(g, image, roots, rank);
    hide Exact, ShapedPage, Visited, Spill, ChainAt;
    forall i, j | IsCell(pages, i, j) ensures ChainAt(image, pages, i, j).Ok? && Spill(image, pages, i, j) !! Numbers(pages) {
      CellNumber(pages, i, j);
      ExactSpill(g, image, roots, rank, pages, i, j);
    }
    forall i, j, k, l | IsCell(pages, i, j) && IsCell(pages, k, l) && (i, j) != (k, l)
      ensures Spill(image, pages, i, j) !! Spill(image, pages, k, l)
    {
      CellNumber(pages, i, j);
      CellNumber(pages, k, l);
      ExactSpill(g, image, roots, rank, pages, i, j);
      ExactSpill(g, image, roots, rank, pages, k, l);
      RowsDiffer(image, pages, i, j, k, l);
    }
  }

  lemma CellNumber(pages: seq<TreePage>, i: int, j: int)
    requires IsCell(pages, i, j)
    ensures pages[i].number in Numbers(pages)
  {
  }

  lemma ExactSpilled(g: Graph, image: Image, roots: map<string, int>, rank: map<int, nat>, pages: seq<TreePage>, x: int)
    requires Exact(g, image, roots, rank) && Visited(image, pages) && Numbers(pages) <= g.nodes.Keys && Spilled(image, pages, x)
    ensures x !in g.nodes && x in g.overflow && g.overflow[x].leaf in Numbers(pages)
  {
    hide Exact, Visited, Spill, ChainAt, IsCell, Numbers, ShapedPage;
    ExactApart(g, image, roots, rank);
    var i, j :| IsCell(pages, i, j) && x in Spill(image, pages, i, j);
    CellNumber(pages, i, j);
    ExactSpill(g, image, roots, rank, pages, i, j);
  }

  lemma GoneBuildable(g: Graph, image: Image, roots: map<string, int>, rank: map<int, nat>, visited: set<int>)
    requires Exact(g, image, roots, rank) && GoodImage(image) && RootsGone(image, roots, roots.Keys, visited) && visited <= g.nodes.Keys
    ensures Buildable(image, roots)
  {
    hide Exact, ShapedPage, Walk, Numbers, Spilled, Private, Shallow;
    forall a | a in roots ensures Visited(image, Table(image, roots[a])) && TableOk(image, roots[a]) {
      WalkVisits(image, [Pending(roots[a], None, None)], {});
      ExactPrivate(g, image, roots, rank, Table(image, roots[a]));
    }
    forall a, b | a in roots && b in roots && a != b ensures !Share(image, roots[a], roots[b]) {
      forall x ensures !(Uses(image, roots[a], x) && Uses(image, roots[b], x)) {
        if Spilled(image, Table(image, roots[a]), x) { ExactSpilled(g, image, roots, rank, Table(image, roots[a]), x); }
        if Spilled(image, Table(image, roots[b]), x) { ExactSpilled(g, image, roots, rank, Table(image, roots[b]), x); }
      }
    }
  }

  // ---- One root page a table ----

  lemma BuildableDistinct(image: Image, roots: map<string, int>)
    requires GoodImage(image) && Buildable(image, roots)
    ensures |roots.Values| == |roots.Keys|
  {
    hide Uses, GoodImage, Walk, Private, Shallow;
    forall a, b | a in roots && b in roots && roots[a] == roots[b] ensures a == b {
      assert TableOk(image, roots[a]);
      RootUsed(image, roots[a]);
      assert a != b ==> !Share(image, roots[a], roots[b]);
    }
    Injective(roots);
  }

  lemma {:induction false} Injective(m: map<string, int>)
    requires forall a, b :: a in m && b in m && m[a] == m[b] ==> a == b
    ensures |m.Values| == |m.Keys|
    decreases |m.Keys|
  {
    InhabitedNames(m.Keys);
    if m.Keys == {} {
      assert m.Values == {};
    } else {
      var a :| a in m.Keys;
      var rest := m - {a};
      assert rest.Keys == m.Keys - {a};
      Injective(rest);
      ValuesWithout(m, a, rest);
    }
  }

  lemma ValuesWithout(m: map<string, int>, a: string, rest: map<string, int>)
    requires a in m && rest == m - {a} && forall b, c :: b in m && c in m && m[b] == m[c] ==> b == c
    ensures |m.Values| == |rest.Values| + 1
  {
    forall x ensures x in m.Values <==> x in rest.Values || x == m[a] {
      if x in m.Values && x != m[a] {
        var b :| b in m && m[b] == x;
        assert b in rest && rest[b] == x;
      }
      if x in rest.Values {
        var b :| b in rest && rest[b] == x;
        assert b in m && m[b] == x;
      }
    }
    assert m.Values == rest.Values + {m[a]} && m[a] !in rest.Values;
  }

  // ---- An update with nothing to do ----

  /** No page that the tables use has changed or lies beyond the image. */
  ghost predicate Untroubled(g: Graph, pageCount: int, changed: set<int>) {
    forall p :: p in g.nodes || p in g.overflow ==> p !in changed && p <= pageCount
  }

  lemma NothingDirty(g: Graph, pageCount: int, changed: set<int>)
    ensures Untroubled(g, pageCount, changed) ==> Dirty(g, pageCount, changed) == {}
  {
    if Untroubled(g, pageCount, changed) {
      forall p ensures p !in Dirty(g, pageCount, changed) {}
    }
  }
}
