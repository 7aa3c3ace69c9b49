/**
 What an incremental run starts from: a graph exact for the old image, and a new image that agrees
 with the old one off the changed pages. Pages outside the needed closure are exact for both.
 */
module PageBaseline {
  import opened Wrappers
  import opened Bytes
  import opened Pages
  import opened PageImages
  import opened PageGraph
  import opened PageRun

  /**
   On the pages that the graph knows, the new image agrees with the old one off the changed pages,
   as far as its size lets it.
   */
  ghost predicate Agree(g: Graph, a: Image, b: Image, changed: set<int>) {
    && a.usable == b.usable
    && (forall p :: p in g.nodes && p in a.tree && p !in changed && p <= b.pageCount && Fits(a.tree[p], b.usable, b.pageCount) ==>
          p in b.tree && b.tree[p] == a.tree[p])
    && (forall x :: x in g.overflow && x in a.next && x !in changed && x <= b.pageCount ==> x in b.next && b.next[x] == a.next[x])
  }

  /** Equal bytes off the changed pages are enough. */
  lemma BodiesAgree(g: Graph, a: Bodies, b: Bodies, changed: set<int>)
    requires GoodBodies(a) && GoodBodies(b) && a.usable == b.usable
    requires forall p :: p in a.pages && p in b.pages && p !in changed ==> a.pages[p] == b.pages[p]
    ensures Agree(g, Decoded(a), Decoded(b), changed)
  {
    var x, y := Decoded(a), Decoded(b);
    forall p | p in x.tree && p !in changed && p <= y.pageCount && Fits(x.tree[p], y.usable, y.pageCount)
      ensures p in y.tree && y.tree[p] == x.tree[p]
    {
      assert p in b.pages;
      DecodeDependsOnFit(a.pages[p], p, a.usable, a.pageCount, b.pageCount);
    }
  }

  /** Everything that must be visited anew: changed or vanished pages, owners of such chain pages, and all above them. */
  ghost predicate NeedsClosed(g: Graph, pageCount: int, changed: set<int>, needed: set<int>) {
    && (forall p :: p in g.nodes && (p in changed || p > pageCount) ==> p in needed)
    && (forall x :: x in g.overflow && (x in changed || x > pageCount) ==> g.overflow[x].leaf in needed)
    && (forall c :: c in needed && c in g.edges ==> g.edges[c].parent in needed)
  }

  /** Pages still to be closed upwards are `pending`. */
  ghost predicate Closing(g: Graph, first: set<int>, needed: set<int>, pending: set<int>) {
    && first <= needed + pending <= g.nodes.Keys
    && (forall c :: c in needed && c in g.edges ==> g.edges[c].parent in needed + pending)
  }

  lemma StartClosing(g: Graph, pageCount: int, changed: set<int>)
    requires forall x :: x in g.overflow ==> g.overflow[x].leaf in g.nodes
    ensures Closing(g, Dirty(g, pageCount, changed), {}, Dirty(g, pageCount, changed))
  {
  }

  lemma CloseStep(g: Graph, first: set<int>, needed: set<int>, pending: set<int>, page: int, up: set<int>)
    requires Closing(g, first, needed, pending) && page in pending && forall c :: c in g.edges ==> g.edges[c].parent in g.nodes
    requires up == if page in g.edges then {g.edges[page].parent} else {}
    ensures page in needed ==> Closing(g, first, needed, pending - {page})
    ensures page !in needed ==>
      && |g.nodes.Keys - (needed + {page})| < |g.nodes.Keys - needed|
      && Closing(g, first, needed + {page}, pending - {page} + up)
  {
    if page !in needed {
      Shrinks(g.nodes.Keys - needed, page);
      assert g.nodes.Keys - (needed + {page}) == g.nodes.Keys - needed - {page};
    }
  }

  function Dirty(g: Graph, pageCount: int, changed: set<int>): set<int> {
    (set p | p in g.nodes && (p in changed || p > pageCount))
    + (set x | x in g.overflow && (x in changed || x > pageCount) :: g.overflow[x].leaf)
  }

  lemma Closed(g: Graph, pageCount: int, changed: set<int>, needed: set<int>)
    requires Closing(g, Dirty(g, pageCount, changed), needed, {})
    ensures NeedsClosed(g, pageCount, changed, needed) && needed <= g.nodes.Keys
  {
    forall x | x in g.overflow && (x in changed || x > pageCount) ensures g.overflow[x].leaf in needed {
      assert g.overflow[x].leaf in Dirty(g, pageCount, changed);
    }
    assert needed + {} == needed;
  }

  lemma ParentsKnown(g: Graph, was: Image, roots: map<string, int>, rank: map<int, nat>)
    requires Exact(g, was, roots, rank)
    ensures forall c :: c in g.edges ==> g.edges[c].parent in g.nodes
    ensures forall x :: x in g.overflow ==> g.overflow[x].leaf in g.nodes
    ensures GoodImage(was)
  {
    forall c | c in g.edges ensures g.edges[c].parent in g.nodes { assert EdgeHeld(g.nodes, g.edges[c], c); }
  }

  // ---- Chains and capacity ----

  lemma {:induction false} ChainSame(a: Image, b: Image, page: int, remaining: int, seen: set<int>)
    requires 480 <= a.usable == b.usable && ChainFrom(a, page, remaining, seen).Ok?
    requires forall x :: x in ChainFrom(a, page, remaining, seen).value ==> x <= b.pageCount && x in b.next && x in a.next && b.next[x] == a.next[x]
    ensures ChainFrom(b, page, remaining, seen) == ChainFrom(a, page, remaining, seen)
    decreases remaining
  {
    if remaining > 0 {
      var rest := remaining - PageImages.Least(remaining, a.usable - 4);
      var more := ChainFrom(a, a.next[page], rest, seen + {page}).value;
      var all := ChainFrom(a, page, remaining, seen).value;
      assert all == [page] + more;
      assert page in all;
      assert forall x :: x in more ==> x in all;
      ChainSame(a, b, a.next[page], rest, seen + {page});
    }
  }

  lemma {:induction false} DistinctCount(pages: seq<int>, n: nat)
    requires Distinct(pages) && forall i :: 0 <= i < |pages| ==> 1 < pages[i] <= n
    ensures pages != [] ==> |pages| <= n - 1
  {
    if pages != [] {
      var s := AsSet(pages);
      SetOfDistinct(pages);
      CardinalityBound(s + {1}, n);
    }
  }

  lemma {:induction false} SetOfDistinct(pages: seq<int>)
    requires Distinct(pages)
    ensures |AsSet(pages)| == |pages|
    decreases |pages|
  {
    if pages != [] {
      var front, last := pages[..|pages| - 1], pages[|pages| - 1];
      SetOfDistinct(front);
      assert pages == front + [last];
      assert AsSet(pages) == AsSet(front) + {last};
    }
  }

  lemma Capacity(payload: int, local: int, n: int, pageCount: int, usable: int)
    requires 480 <= usable && local <= usable - 35 && payload - local <= n * (usable - 4) && 0 <= n <= pageCount - 1
    ensures payload <= pageCount * (usable - 4)
  {
    var u := usable - 4;
    assert n * u <= (pageCount - 1) * u by { NoLess(n, pageCount - 1, u); }
    assert (pageCount - 1) * u + u == pageCount * u;
  }

  lemma NoLess(a: int, b: int, u: int)
    requires a <= b && 0 <= u
    ensures a * u <= b * u
  {
  }

  /** A cell whose chain pages all survive still fits the new image. */
  lemma CellStillFits(a: Image, b: Image, cell: Cell, leaf: int)
    requires GoodImage(a) && a.usable == b.usable && ShapedCell(cell, a.usable) && 1 <= leaf <= b.pageCount
    requires Chain(a, cell, leaf).Ok? && forall x :: x in Chain(a, cell, leaf).value ==> x <= b.pageCount
    ensures CellFits(cell, b.usable, b.pageCount)
  {
    LocalBounds(cell.payload, a.usable);
    var pages := Chain(a, cell, leaf).value;
    var first := if cell.overflow.Some? then cell.overflow.value else 0;
    ChainSound(a, first, cell.payload - cell.local, {leaf});
    forall i | 0 <= i < |pages| ensures 1 < pages[i] <= b.pageCount { assert pages[i] in pages; }
    DistinctCount(pages, b.pageCount);
    Capacity(cell.payload, cell.local, |pages|, b.pageCount, b.usable);
    if cell.overflow.Some? { assert pages != [] && pages[0] in pages; }
  }

  // ---- A page outside the closure is exact for the new image ----

  ghost predicate Baseline(g: Graph, was: Image, image: Image, roots: map<string, int>, rank: map<int, nat>, changed: set<int>, needed: set<int>) {
    Exact(g, was, roots, rank) && GoodImage(image) && Agree(g, was, image, changed) && NeedsClosed(g, image.pageCount, changed, needed)
  }

  lemma CleanChain(g: Graph, was: Image, image: Image, roots: map<string, int>, rank: map<int, nat>, changed: set<int>, needed: set<int>, p: int, cell: Cell)
    requires Baseline(g, was, image, roots, rank, changed, needed)
    requires p in g.nodes && p !in needed && cell in g.nodes[p].cells
    ensures Chain(was, cell, p).Ok? && Chain(image, cell, p) == Chain(was, cell, p)
    ensures CellFits(cell, image.usable, image.pageCount)
    ensures forall x :: x in Chain(was, cell, p).value ==> x !in changed && x <= image.pageCount
  {
    LeafCell(g, was, roots, rank, p, cell);
    StoredChain(g.overflow, was, p, cell);
    CleanLinks(g, was, image, roots, rank, changed, needed, p, Chain(was, cell, p).value);
    hide Exact, Baseline, Agree, NeedsClosed, Chain, CellStored, GoodImage, ShapedCell, CellFits;
    CellChainSame(was, image, cell, p);
    CellStillFits(was, image, cell, p);
  }

  lemma CellChainSame(a: Image, b: Image, cell: Cell, leaf: int)
    requires 480 <= a.usable == b.usable && Chain(a, cell, leaf).Ok?
    requires forall x :: x in Chain(a, cell, leaf).value ==> x <= b.pageCount && x in b.next && x in a.next && b.next[x] == a.next[x]
    ensures Chain(b, cell, leaf) == Chain(a, cell, leaf)
  {
    hide ChainFrom;
    ChainSame(a, b, if cell.overflow.Some? then cell.overflow.value else 0, cell.payload - cell.local, {leaf});
  }

  /** A cell of a stored leaf is well formed and its chain is stored. */
  lemma LeafCell(g: Graph, was: Image, roots: map<string, int>, rank: map<int, nat>, p: int, cell: Cell)
    requires Exact(g, was, roots, rank) && p in g.nodes && cell in g.nodes[p].cells
    ensures GoodImage(was) && CellStored(g.overflow, was, p, cell) && ShapedCell(cell, was.usable) && 1 <= p && 480 <= was.usable
  {
    hide CellStored, ShapedCell;
    assert Done(g.nodes, g.edges, g.overflow, was, p);
    var j :| 0 <= j < |g.nodes[p].cells| && g.nodes[p].cells[j] == cell;
    assert CellStored(g.overflow, was, p, cell);
    assert ShapedPage(was.tree[p], p, was.usable);
  }

  lemma StoredChain(overflow: map<int, Owner>, was: Image, p: int, cell: Cell)
    requires GoodImage(was) && CellStored(overflow, was, p, cell) && ShapedCell(cell, was.usable)
    ensures Chain(was, cell, p).Ok?
    ensures forall x :: x in Chain(was, cell, p).value ==> x in overflow && overflow[x].leaf == p && x in was.next
  {
    var chain := Chain(was, cell, p).value;
    LocalBounds(cell.payload, was.usable);
    ChainSound(was, if cell.overflow.Some? then cell.overflow.value else 0, cell.payload - cell.local, {p});
    hide ChainFrom;
    forall x | x in chain ensures x in overflow && overflow[x].leaf == p && x in was.next {
      var i :| 0 <= i < |chain| && chain[i] == x;
      assert overflow[chain[i]] == Owner(p, cell.rowId, NextIn(chain, i));
    }
  }

  /** Pages owned by a leaf outside the closure did not change and lie in the new image. */
  lemma CleanLinks(g: Graph, was: Image, image: Image, roots: map<string, int>, rank: map<int, nat>, changed: set<int>, needed: set<int>,
                   p: int, chain: seq<int>)
    requires Baseline(g, was, image, roots, rank, changed, needed) && p in g.nodes && p !in needed
    requires forall x :: x in chain ==> x in g.overflow && g.overflow[x].leaf == p && x in was.next
    ensures was.usable == image.usable && 480 <= was.usable && p <= image.pageCount
    ensures forall x :: x in chain ==> x !in changed && x <= image.pageCount && x in image.next && image.next[x] == was.next[x]
  {
    hide Exact;
    assert GoodImage(image);
  }

  lemma CleanPage(g: Graph, was: Image, image: Image, roots: map<string, int>, rank: map<int, nat>, changed: set<int>, needed: set<int>, p: int)
    requires Baseline(g, was, image, roots, rank, changed, needed) && p in g.nodes && p !in needed
    ensures p in was.tree && p in image.tree && image.tree[p] == was.tree[p] && p !in changed
  {
    assert Done(g.nodes, g.edges, g.overflow, was, p);
    var t := was.tree[p];
    forall i | 0 <= i < |t.children| ensures t.children[i] <= image.pageCount {
      assert ChildDone(g.nodes, g.edges, was, p, i);
    }
    forall i | 0 <= i < |t.cells| ensures CellFits(t.cells[i], image.usable, image.pageCount) {
      assert t.cells[i] in t.cells;
      CleanChain(g, was, image, roots, rank, changed, needed, p, t.cells[i]);
    }
  }

  lemma CleanLeaf(g: Graph, was: Image, image: Image, roots: map<string, int>, rank: map<int, nat>, changed: set<int>, needed: set<int>, p: int)
    requires Baseline(g, was, image, roots, rank, changed, needed) && p in g.nodes && p !in needed
    ensures LeafStored(g.overflow, image, p, g.nodes[p].cells)
  {
    assert Done(g.nodes, g.edges, g.overflow, was, p);
    var cells := g.nodes[p].cells;
    forall j | 0 <= j < |cells|
      ensures CellStored(g.overflow, image, p, cells[j]) && forall x :: InChain(was, p, cells[j], x) ==> InChain(image, p, cells[j], x)
    {
      assert CellStored(g.overflow, was, p, cells[j]);
      assert cells[j] in cells;
      CleanChain(g, was, image, roots, rank, changed, needed, p, cells[j]);
    }
    forall x | x in g.overflow && g.overflow[x].leaf == p ensures Serves(image, p, cells, x) {
      assert Serves(was, p, cells, x);
      var j :| 0 <= j < |cells| && InChain(was, p, cells[j], x);
      assert InChain(image, p, cells[j], x);
    }
  }

  lemma CleanDone(g: Graph, was: Image, image: Image, roots: map<string, int>, rank: map<int, nat>, changed: set<int>, needed: set<int>, p: int)
    requires Baseline(g, was, image, roots, rank, changed, needed) && p in g.nodes && p !in needed
    ensures Done(g.nodes, g.edges, g.overflow, image, p)
  {
    assert Done(g.nodes, g.edges, g.overflow, was, p);
    CleanPage(g, was, image, roots, rank, changed, needed, p);
    CleanLeaf(g, was, image, roots, rank, changed, needed, p);
    forall i | 0 <= i < |g.nodes[p].children| ensures ChildDone(g.nodes, g.edges, image, p, i) {
      assert ChildDone(g.nodes, g.edges, was, p, i);
    }
  }

  // ---- The state in which the visits begin ----

  function ParentedBy(edges: map<int, Edge>, pages: set<int>): set<int> {
    set c | c in edges && edges[c].parent in pages
  }

  function CutAll(edges: map<int, Edge>, pages: set<int>): map<int, Edge> {
    map c | c in edges && edges[c].parent !in pages :: edges[c]
  }

  function DropAll(overflow: map<int, Owner>, pages: set<int>): map<int, Owner> {
    map x | x in overflow && overflow[x].leaf !in pages :: overflow[x]
  }

  function RowsAmong(nodes: map<int, Node>, pages: set<int>): set<(string, int)> {
    set p, row | p in nodes && p in pages && row in RowsOf(nodes[p]) :: row
  }

  ghost function Deepened(g: Graph, rank: map<int, nat>): map<int, nat> {
    map p | p in g.nodes :: Rank(rank, p) + 64
  }

  ghost function Start(g: Graph, rank: map<int, nat>, needed: set<int>): Run {
    Run(g.nodes, CutAll(g.edges, needed), DropAll(g.overflow, needed), needed, ParentedBy(g.edges, needed), {}, {},
        RowsAmong(g.nodes, needed), Deepened(g, rank))
  }

  lemma StartSettled(g: Graph, was: Image, image: Image, roots: map<string, int>, rank: map<int, nat>, changed: set<int>, needed: set<int>, p: int)
    requires Baseline(g, was, image, roots, rank, changed, needed) && p in g.nodes && p !in needed
    ensures var s := Start(g, rank, needed); Done(s.nodes, s.edges, s.overflow, image, p) && ChildrenSettled(s, p)
  {
    CleanDone(g, was, image, roots, rank, changed, needed, p);
    var all := Run(g.nodes, g.edges, g.overflow, needed, {}, {}, {}, {}, rank);
    var s := Start(g, rank, needed);
    forall c | c in g.nodes[p].children ensures c in g.nodes && c in g.edges && g.edges[c].parent == p && c !in needed {
      var i :| 0 <= i < |g.nodes[p].children| && g.nodes[p].children[i] == c;
      assert ChildDone(g.nodes, g.edges, image, p, i);
    }
    assert SameAt(all, s, p);
    DoneKept(all, s, image, p);
  }

  lemma StartTraced(g: Graph, rank: map<int, nat>, needed: set<int>)
    ensures Traced(Start(g, rank, needed), g.nodes)
  {
    var s := Start(g, rank, needed);
    forall p | p in g.nodes ensures Untouched(s, g.nodes, p) {}
  }

  lemma StartTracked(g: Graph, was: Image, roots: map<string, int>, rank: map<int, nat>, needed: set<int>)
    requires Exact(g, was, roots, rank)
    ensures Tracked(Start(g, rank, needed), roots.Values)
  {
    hide Done, EdgeHeld;
    var s := Start(g, rank, needed);
    forall p | p in roots.Values ensures p !in s.edges { var name :| name in roots && roots[name] == p; }
  }

  lemma StartAccounted(g: Graph, was: Image, roots: map<string, int>, rank: map<int, nat>, needed: set<int>)
    requires Exact(g, was, roots, rank)
    ensures var s := Start(g, rank, needed); Accounted(s, roots.Values) && Apart(s)
  {
    hide Done, EdgeHeld;
  }

  lemma StartLinked(g: Graph, was: Image, roots: map<string, int>, rank: map<int, nat>, needed: set<int>)
    requires Exact(g, was, roots, rank)
    ensures Linked(Start(g, rank, needed))
  {
    hide Done;
    var s := Start(g, rank, needed);
    forall c | c in s.edges ensures EdgeHeld(s.nodes, s.edges[c], c) && Rank(s.rank, s.edges[c].parent) < Rank(s.rank, c) {
      assert EdgeHeld(g.nodes, g.edges[c], c) && Rank(rank, g.edges[c].parent) < Rank(rank, c);
    }
  }

  lemma StartKeeps(g: Graph, was: Image, image: Image, roots: map<string, int>, rank: map<int, nat>, changed: set<int>, needed: set<int>)
    requires Baseline(g, was, image, roots, rank, changed, needed)
    ensures Inv(Start(g, rank, needed), image, roots.Values, g.nodes)
  {
    var s := Start(g, rank, needed);
    forall p | Settled(s, p) ensures Done(s.nodes, s.edges, s.overflow, image, p) && ChildrenSettled(s, p) {
      StartSettled(g, was, image, roots, rank, changed, needed, p);
    }
    StartTraced(g, rank, needed);
    StartTracked(g, was, roots, rank, needed);
    StartAccounted(g, was, roots, rank, needed);
    StartLinked(g, was, roots, rank, needed);
  }

  /** Cutting page by page cuts them all. */
  lemma CutOne(edges: map<int, Edge>, overflow: map<int, Owner>, nodes: map<int, Node>, pages: set<int>, page: int)
    ensures CutAll(edges, pages + {page}) == WithoutParent(CutAll(edges, pages), page)
    ensures ParentedBy(edges, pages + {page}) == ParentedBy(edges, pages) + ChildrenOf(CutAll(edges, pages), page)
    ensures DropAll(overflow, pages + {page}) == WithoutLeaf(DropAll(overflow, pages), page)
    ensures RowsAmong(nodes, pages + {page}) == RowsAmong(nodes, pages) + if page in nodes then RowsOf(nodes[page]) else {}
  {
  }

  lemma CutNone(edges: map<int, Edge>, overflow: map<int, Owner>, nodes: map<int, Node>)
    ensures CutAll(edges, {}) == edges && ParentedBy(edges, {}) == {} && DropAll(overflow, {}) == overflow && RowsAmong(nodes, {}) == {}
  {
  }

  // ---- The roots ----

  ghost predicate RootKnown(r: Run, root: int, name: string) {
    Settled(r, root) && r.nodes[root].name == name
  }

  lemma RootStays(r: Run, s: Run, tops: set<int>, root: int, name: string)
    requires Frame(r, s, tops) && root in tops && RootKnown(r, root, name)
    ensures RootKnown(s, root, name)
  {
    assert Pinned(r, tops, root);
  }

  /** Before any visit a root of the baseline is needed or known. */
  ghost predicate RootsReady(r: Run, roots: map<string, int>) {
    forall name :: name in roots ==> roots[name] in r.needed || RootKnown(r, roots[name], name)
  }

  lemma RootsAtStart(g: Graph, was: Image, roots: map<string, int>, rank: map<int, nat>, needed: set<int>)
    requires Exact(g, was, roots, rank)
    ensures RootsReady(Start(g, rank, needed), roots)
  {
    var s := Start(g, rank, needed);
    forall name | name in roots ensures roots[name] in needed || RootKnown(s, roots[name], name) {
      assert roots[name] in g.nodes && g.nodes[roots[name]].name == name;
    }
  }

  lemma StartEmpty(image: Image, tops: set<int>)
    requires GoodImage(image)
    ensures Inv(Run(map[], map[], map[], {}, {}, {}, {}, {}, map[]), image, tops, map[])
  {
  }
}
