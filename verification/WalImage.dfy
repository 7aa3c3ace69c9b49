/**
 The new image read without its file: changed pages from the write-ahead log, everything else from the
 pinned ownership graph of the old image.
 */
module WalImage {
  import opened Wrappers
  import opened Bytes
  import opened Varint
  import Ranges
  import opened Pages
  import opened PageImages
  import opened PageGraph
  import opened PageRun
  import opened PageBaseline
  import opened PageOutcome
  import PageIndex
  import opened PageBuild

  datatype Overlay = Overlay(pageCount: int, usable: nat, changed: map<int, seq<byte>>, stored: Graph)

  /** The stored edges below the page, by position, are exactly its children, with every inner bound known. */
  predicate Listed(edges: map<int, Edge>, page: int, children: seq<int>) {
    && |ChildrenOf(edges, page)| == |children|
    && (forall i :: 0 <= i < |children| ==>
          children[i] in edges && edges[children[i]].parent == page && edges[children[i]].position == i)
    && (forall i :: 0 <= i < |children| - 1 ==> edges[children[i]].upper.Some?)
  }

  function Separators(edges: map<int, Edge>, page: int, children: seq<int>): (r: seq<int>)
    requires Listed(edges, page, children)
    ensures |r| == if children == [] then 0 else |children| - 1
  {
    seq(if children == [] then 0 else |children| - 1, i requires 0 <= i < |children| - 1 => edges[children[i]].upper.value)
  }

  function TreePageAt(o: Overlay, page: int): Result<TreePage, PageError>
    requires 480 <= o.usable
  {
    if !(1 <= page <= o.pageCount) then Err(PageUnavailable)
    else if page in o.changed then DecodePage(o.changed[page], page, o.usable, o.pageCount)
    else if page !in o.stored.nodes then Err(PageUnavailable)
    else
      var n := o.stored.nodes[page];
      if !Listed(o.stored.edges, page, n.children) then Err(PageUnavailable)
      else Ok(TreePage(page, n.children, n.cells, Separators(o.stored.edges, page, n.children)))
  }

  predicate Readable(o: Overlay, x: int) { x in o.changed || x in o.stored.overflow }

  function NextAt(o: Overlay, x: int): int
    requires Readable(o, x) && forall p :: p in o.changed ==> 4 <= |o.changed[p]|
  {
    if x in o.changed then Big(o.changed[x], 0) else o.stored.overflow[x].next
  }

  /** The overlay as an image. */
  function ImageOf(o: Overlay): Image
    requires 480 <= o.usable && forall p :: p in o.changed ==> 4 <= |o.changed[p]|
  {
    Image(o.pageCount, o.usable,
          map p | 1 <= p <= o.pageCount && TreePageAt(o, p).Ok? :: TreePageAt(o, p).value,
          map x | x in o.changed.Keys + o.stored.overflow.Keys :: NextAt(o, x))
  }

  method OverflowPages(o: Overlay, cell: Cell, leaf: int) returns (r: Result<seq<int>, PageError>)
    requires 480 <= o.usable && cell.local <= cell.payload && forall p :: p in o.changed ==> 4 <= |o.changed[p]|
    ensures r == Chain(ImageOf(o), cell, leaf)
  {
    ghost var image := ImageOf(o);
    var remaining := cell.payload - cell.local;
    var page := if cell.overflow.Some? then cell.overflow.value else 0;
    var seen := {leaf};
    var pages: seq<int> := [];
    assert forall more: seq<int> :: pages + more == more;
    while remaining != 0
      invariant 0 <= remaining
      invariant Chain(image, cell, leaf) == match ChainFrom(image, page, remaining, seen)
                                            case Err(e) => Err(e)
                                            case Ok(more) => Ok(pages + more)
    {
      if page == 0 || page in seen || !(1 < page <= o.pageCount) || !Readable(o, page) { return Err(PageUnavailable); }
      seen := seen + {page};
      var next := NextAt(o, page);
      assert page in image.next && image.next[page] == next;
      assert forall more :: pages + ([page] + more) == (pages + [page]) + more;
      pages := pages + [page];
      remaining := remaining - PageImages.Least(remaining, o.usable - 4);
      if remaining == 0 && next != 0 { return Err(PageUnavailable); }
      page := next;
    }
    if page != 0 { return Err(PageUnavailable); }
    assert pages + [] == pages;
    return Ok(pages);
  }

  // ---- Against the full new image ----

  /** The stored graph is exact for the old bodies, and the changes are all that tells the new bodies from them. */
  ghost predicate Between(o: Overlay, a: Bodies, b: Bodies, roots: map<string, int>, rank: map<int, nat>) {
    && GoodBodies(a) && GoodBodies(b) && a.usable == b.usable == o.usable && o.pageCount == b.pageCount
    && Exact(o.stored, Decoded(a), roots, rank)
    && (forall p :: p in o.changed ==> 480 <= |o.changed[p]|)
    && (forall p :: p in o.changed && p in b.pages ==> o.changed[p] == b.pages[p])
    && (forall p :: p in b.pages && p !in o.changed && p in a.pages ==> b.pages[p] == a.pages[p])
    && (forall p :: p in b.pages && p !in o.changed ==> p in a.pages)
  }

  lemma EdgesListed(edges: map<int, Edge>, page: int, children: seq<int>)
    requires Distinct(children)
    requires forall i :: 0 <= i < |children| ==> children[i] in edges && edges[children[i]].parent == page
    requires forall c :: c in edges && edges[c].parent == page ==> c in children
    ensures |ChildrenOf(edges, page)| == |children|
  {
    SetOfDistinct(children);
    forall c ensures c in ChildrenOf(edges, page) <==> c in AsSet(children) {}
    assert ChildrenOf(edges, page) == AsSet(children);
  }

  lemma StoredEdges(g: Graph, image: Image, roots: map<string, int>, rank: map<int, nat>, page: int)
    requires Exact(g, image, roots, rank) && page in g.nodes
    ensures page in image.tree && ShapedPage(image.tree[page], page, image.usable)
    ensures g.nodes[page].children == image.tree[page].children && g.nodes[page].cells == image.tree[page].cells
    ensures forall i :: 0 <= i < |image.tree[page].children| ==> EdgeStored(g.edges, image.tree[page], page, i)
    ensures forall c :: c in g.edges && g.edges[c].parent == page ==> c in image.tree[page].children
  {
    assert Done(g.nodes, g.edges, g.overflow, image, page);
    var t := image.tree[page];
    assert ShapedPage(t, page, image.usable);
    forall i | 0 <= i < |t.children| ensures EdgeStored(g.edges, t, page, i) {
      assert ChildDone(g.nodes, g.edges, image, page, i);
    }
    forall c | c in g.edges && g.edges[c].parent == page ensures c in t.children {
      assert EdgeHeld(g.nodes, g.edges[c], c);
    }
  }

  ghost predicate EdgeStored(edges: map<int, Edge>, t: TreePage, page: int, i: nat)
    requires i < |t.children| <= |t.separators| + 1
  {
    && t.children[i] in edges && edges[t.children[i]].parent == page && edges[t.children[i]].position == i
    && (i < |t.children| - 1 ==> edges[t.children[i]].upper == Some(t.separators[i]))
  }

  lemma ListedStored(edges: map<int, Edge>, t: TreePage, page: int)
    requires Distinct(t.children) && (if t.children == [] then t.separators == [] else |t.children| == |t.separators| + 1)
    requires forall i :: 0 <= i < |t.children| ==> EdgeStored(edges, t, page, i)
    requires forall c :: c in edges && edges[c].parent == page ==> c in t.children
    ensures Listed(edges, page, t.children) && Separators(edges, page, t.children) == t.separators
  {
    forall i | 0 <= i < |t.children| ensures t.children[i] in edges && edges[t.children[i]].parent == page {
      assert EdgeStored(edges, t, page, i);
    }
    EdgesListed(edges, page, t.children);
    forall i | 0 <= i < |t.children|
      ensures edges[t.children[i]].position == i && (i < |t.children| - 1 ==> edges[t.children[i]].upper == Some(t.separators[i]))
    {
      assert EdgeStored(edges, t, page, i);
    }
  }

  /** The separators of an unchanged page are rebuilt from its children's upper bounds. */
  lemma StoredPage(o: Overlay, a: Bodies, b: Bodies, roots: map<string, int>, rank: map<int, nat>, page: int)
    requires Between(o, a, b, roots, rank) && page in o.stored.nodes && page !in o.changed && 1 <= page <= o.pageCount
    ensures page in Decoded(a).tree && TreePageAt(o, page) == Ok(Decoded(a).tree[page])
  {
    hide Exact;
    var g, image := o.stored, Decoded(a);
    StoredEdges(g, image, roots, rank, page);
    var t := image.tree[page];
    ListedStored(g.edges, t, page);
  }

  /** What a page decodes to does not depend on the page count, as long as it decodes. */
  lemma DecodeUnique(data: seq<byte>, page: int, usable: nat, m: int, n: int)
    requires 480 <= usable && DecodePage(data, page, usable, m).Ok? && DecodePage(data, page, usable, n).Ok?
    ensures DecodePage(data, page, usable, m) == DecodePage(data, page, usable, n)
  {
    DecodeSound(data, page, usable, m);
    DecodeSound(data, page, usable, n);
    if m <= n {
      StillFits(DecodePage(data, page, usable, m).value, usable, m, n);
      DecodeDependsOnFit(data, page, usable, m, n);
    } else {
      StillFits(DecodePage(data, page, usable, n).value, usable, n, m);
      DecodeDependsOnFit(data, page, usable, n, m);
    }
  }

  lemma StillFits(t: TreePage, usable: int, m: int, n: int)
    requires Fits(t, usable, m) && m <= n && 480 <= usable
    ensures Fits(t, usable, n)
  {
    NoLess(m, n, usable - 4);
  }

  /**
   A tree page read through the overlay is the full image's, except that an unchanged page that no longer
   fits is still returned where the full decode refuses it. A page that is neither changed nor stored is refused.
   */
  lemma TreePageRefines(o: Overlay, a: Bodies, b: Bodies, roots: map<string, int>, rank: map<int, nat>, page: int)
    requires Between(o, a, b, roots, rank) && 1 <= page <= o.pageCount
    ensures page in o.changed || page in o.stored.nodes ==>
              (TreePageAt(o, page) == DecodePage(b.pages[page], page, b.usable, b.pageCount)
               <==> page in o.changed || Fits(Decoded(a).tree[page], b.usable, b.pageCount))
    ensures page in o.changed || page in o.stored.nodes ==>
              DecodePage(b.pages[page], page, b.usable, b.pageCount).Ok? ==>
                TreePageAt(o, page) == DecodePage(b.pages[page], page, b.usable, b.pageCount)
    ensures !(page in o.changed || page in o.stored.nodes) ==> TreePageAt(o, page).Err?
  {
    if page !in o.changed && page in o.stored.nodes {
      StoredPage(o, a, b, roots, rank, page);
      DecodeDependsOnFit(a.pages[page], page, a.usable, a.pageCount, b.pageCount);
      if DecodePage(b.pages[page], page, b.usable, b.pageCount).Ok? {
        DecodeUnique(b.pages[page], page, b.usable, a.pageCount, b.pageCount);
      }
    }
  }

  /** A stored chain page links to the page that the image says. */
  lemma StoredLink(g: Graph, image: Image, roots: map<string, int>, rank: map<int, nat>, x: int)
    requires Exact(g, image, roots, rank) && x in g.overflow
    ensures x in image.next && image.next[x] == g.overflow[x].next
  {
    var p := g.overflow[x].leaf;
    assert Done(g.nodes, g.edges, g.overflow, image, p);
    var cells := g.nodes[p].cells;
    assert Serves(image, p, cells, x);
    var j :| 0 <= j < |cells| && InChain(image, p, cells[j], x);
    assert CellStored(g.overflow, image, p, cells[j]);
    assert ShapedPage(image.tree[p], p, image.usable);
    hide Exact, Done;
    CellLink(g.overflow, image, p, cells[j], x);
  }

  lemma CellLink(overflow: map<int, Owner>, image: Image, p: int, cell: Cell, x: int)
    requires 480 <= image.usable && ShapedCell(cell, image.usable) && CellStored(overflow, image, p, cell) && InChain(image, p, cell, x)
    ensures x in overflow && x in image.next && image.next[x] == overflow[x].next
  {
    LocalBounds(cell.payload, image.usable);
    ChainSound(image, if cell.overflow.Some? then cell.overflow.value else 0, cell.payload - cell.local, {p});
    hide ChainFrom;
    var chain := Chain(image, cell, p).value;
    var i :| 0 <= i < |chain| && chain[i] == x;
    assert overflow[chain[i]] == Owner(p, cell.rowId, NextIn(chain, i));
  }

  /** The first word of an unchanged chain page is the stored successor. */
  lemma StoredNext(o: Overlay, a: Bodies, b: Bodies, roots: map<string, int>, rank: map<int, nat>, x: int)
    requires Between(o, a, b, roots, rank) && x in o.stored.overflow && x !in o.changed && x <= o.pageCount
    ensures x in b.pages && Decoded(b).next[x] == o.stored.overflow[x].next
  {
    hide Exact;
    StoredLink(o.stored, Decoded(a), roots, rank, x);
  }

  /** The two images agree wherever both can be read. */
  ghost predicate SameLinks(o: Overlay, mine: Image, full: Image) {
    && mine.usable == full.usable && mine.pageCount == full.pageCount
    && (forall x :: x in mine.next <==> Readable(o, x))
    && (forall x :: 1 < x <= full.pageCount ==> x in full.next)
    && (forall x :: 1 < x <= full.pageCount && Readable(o, x) ==> x in mine.next && x in full.next && mine.next[x] == full.next[x])
  }

  lemma LinksAgree(o: Overlay, a: Bodies, b: Bodies, roots: map<string, int>, rank: map<int, nat>)
    requires Between(o, a, b, roots, rank)
    ensures SameLinks(o, ImageOf(o), Decoded(b))
  {
    hide Exact;
    var mine, full := ImageOf(o), Decoded(b);
    forall x | 1 < x <= full.pageCount && Readable(o, x) ensures x in mine.next && x in full.next && mine.next[x] == full.next[x] {
      assert x in b.pages;
      if x !in o.changed { StoredNext(o, a, b, roots, rank, x); }
    }
  }

  lemma {:induction false} ChainThrough(o: Overlay, mine: Image, full: Image, page: int, remaining: int, seen: set<int>)
    requires SameLinks(o, mine, full) && 480 <= mine.usable
    ensures var m, f := ChainFrom(mine, page, remaining, seen), ChainFrom(full, page, remaining, seen);
            && (m.Ok? ==> f == m && forall x :: x in m.value ==> Readable(o, x))
            && (f.Ok? && (forall x :: x in f.value ==> Readable(o, x)) ==> m == f)
    decreases remaining
  {
    if remaining > 0 && page != 0 && page !in seen && 1 < page <= mine.pageCount {
      var rest := remaining - PageImages.Least(remaining, mine.usable - 4);
      var f := ChainFrom(full, page, remaining, seen);
      if Readable(o, page) {
        ChainThrough(o, mine, full, full.next[page], rest, seen + {page});
        if f.Ok? {
          var more := ChainFrom(full, full.next[page], rest, seen + {page}).value;
          assert f.value == [page] + more;
          assert forall x :: x in f.value <==> x == page || x in more;
        }
      } else if f.Ok? {
        assert f.value[0] == page;
      }
    }
  }

  /** A chain read through the overlay is the full image's; reading fails only where that fails or a page is in neither source. */
  lemma ChainRefines(o: Overlay, a: Bodies, b: Bodies, roots: map<string, int>, rank: map<int, nat>, cell: Cell, leaf: int)
    requires Between(o, a, b, roots, rank)
    ensures var mine, full := Chain(ImageOf(o), cell, leaf), Chain(Decoded(b), cell, leaf);
            && (mine.Ok? ==> full == mine)
            && (mine.Ok? <==> full.Ok? && forall x :: x in full.value ==> Readable(o, x))
  {
    hide Exact, ChainFrom, SameLinks;
    LinksAgree(o, a, b, roots, rank);
    ChainThrough(o, ImageOf(o), Decoded(b), if cell.overflow.Some? then cell.overflow.value else 0, cell.payload - cell.local, {leaf});
  }

  // ---- An update through the overlay ----

  lemma OverlayGood(o: Overlay, a: Bodies, b: Bodies, roots: map<string, int>, rank: map<int, nat>)
    requires Between(o, a, b, roots, rank)
    ensures GoodImage(ImageOf(o))
  {
    hide Exact;
    var image := ImageOf(o);
    forall p | p in image.tree ensures ShapedPage(image.tree[p], p, o.usable) {
      if p in o.changed {
        DecodeSound(o.changed[p], p, o.usable, o.pageCount);
      } else {
        StoredPage(o, a, b, roots, rank, p);
        assert ShapedPage(Decoded(a).tree[p], p, a.usable);
      }
    }
  }

  lemma BetweenHas(o: Overlay, a: Bodies, b: Bodies, roots: map<string, int>, rank: map<int, nat>)
    requires Between(o, a, b, roots, rank)
    ensures GoodBodies(a) && GoodBodies(b) && Decoded(a).usable == Decoded(b).usable == o.usable && (forall p :: p in o.changed ==> 4 <= |o.changed[p]|)
  {
  }

  lemma OverlayAgrees(o: Overlay, a: Bodies, b: Bodies, roots: map<string, int>, rank: map<int, nat>)
    requires Between(o, a, b, roots, rank)
    ensures Agree(o.stored, Decoded(a), ImageOf(o), o.changed.Keys)
  {
    hide Exact;
    var x, image := Decoded(a), ImageOf(o);
    forall p | p in o.stored.nodes && p in x.tree && p !in o.changed.Keys && p <= image.pageCount
      ensures p in image.tree && image.tree[p] == x.tree[p]
    {
      assert p in a.pages;
      StoredPage(o, a, b, roots, rank, p);
    }
    forall q | q in o.stored.overflow && q in x.next && q !in o.changed.Keys && q <= image.pageCount
      ensures q in image.next && image.next[q] == x.next[q]
    {
      StoredNext(o, a, b, roots, rank, q);
      assert q in image.next;
    }
  }

  /** A page of a graph that is exact for the overlay decodes the same in full. */
  lemma WholePage(o: Overlay, a: Bodies, b: Bodies, roots: map<string, int>, rank: map<int, nat>, h: Graph, depth: map<int, nat>, p: int)
    requires Between(o, a, b, roots, rank) && GoodImage(ImageOf(o))
    requires Exact(h, ImageOf(o), roots, depth) && p in h.nodes
    ensures p in ImageOf(o).tree && p in Decoded(b).tree && Decoded(b).tree[p] == ImageOf(o).tree[p]
  {
    StoredFits(h, ImageOf(o), roots, depth, p);
    hide Exact, Fits;
    if p in o.changed {
      assert p in b.pages;
    } else {
      StoredPage(o, a, b, roots, rank, p);
      DecodeDependsOnFit(a.pages[p], p, a.usable, a.pageCount, b.pageCount);
    }
  }

  /** Every page of an exact graph lies in the image and names only pages of the image. */
  lemma StoredFits(h: Graph, image: Image, roots: map<string, int>, depth: map<int, nat>, p: int)
    requires GoodImage(image) && Exact(h, image, roots, depth) && p in h.nodes
    ensures p in image.tree && 1 <= p <= image.pageCount && 480 <= image.usable && Fits(image.tree[p], image.usable, image.pageCount)
  {
    assert Done(h.nodes, h.edges, h.overflow, image, p);
    var t := image.tree[p];
    assert ShapedPage(t, p, image.usable);
    assert 1 <= p <= image.pageCount;
    forall i | 0 <= i < |t.children| ensures t.children[i] <= image.pageCount {
      assert ChildDone(h.nodes, h.edges, image, p, i);
      assert Matches(h.nodes, image, t.children[i]);
    }
    forall j | 0 <= j < |t.cells| ensures CellFits(t.cells[j], image.usable, image.pageCount) {
      assert CellStored(h.overflow, image, p, t.cells[j]);
      CellWithin(image, t.cells[j], p);
    }
  }

  lemma CellWithin(image: Image, cell: Cell, leaf: int)
    requires GoodImage(image) && ShapedCell(cell, image.usable) && Chain(image, cell, leaf).Ok? && 1 <= leaf <= image.pageCount
    ensures CellFits(cell, image.usable, image.pageCount)
  {
    LocalBounds(cell.payload, image.usable);
    ChainSound(image, if cell.overflow.Some? then cell.overflow.value else 0, cell.payload - cell.local, {leaf});
    CellStillFits(image, image, cell, leaf);
  }

  lemma WholeLeaf(o: Overlay, a: Bodies, b: Bodies, roots: map<string, int>, rank: map<int, nat>, overflow: map<int, Owner>, p: int, cells: seq<Cell>)
    requires Between(o, a, b, roots, rank) && LeafStored(overflow, ImageOf(o), p, cells)
    ensures LeafStored(overflow, Decoded(b), p, cells)
  {
    hide Exact, Chain;
    var image, whole := ImageOf(o), Decoded(b);
    forall j | 0 <= j < |cells| ensures CellStored(overflow, whole, p, cells[j]) && Chain(whole, cells[j], p) == Chain(image, cells[j], p) {
      assert CellStored(overflow, image, p, cells[j]);
      ChainRefines(o, a, b, roots, rank, cells[j], p);
    }
    forall x | x in overflow && overflow[x].leaf == p ensures Serves(whole, p, cells, x) {
      assert Serves(image, p, cells, x);
      var j :| 0 <= j < |cells| && InChain(image, p, cells[j], x);
      assert InChain(whole, p, cells[j], x);
    }
  }

  lemma WholeDone(o: Overlay, a: Bodies, b: Bodies, roots: map<string, int>, rank: map<int, nat>, h: Graph, depth: map<int, nat>, p: int)
    requires Between(o, a, b, roots, rank) && GoodImage(ImageOf(o))
    requires Exact(h, ImageOf(o), roots, depth) && p in h.nodes
    ensures Done(h.nodes, h.edges, h.overflow, Decoded(b), p)
  {
    WholePage(o, a, b, roots, rank, h, depth, p);
    var image := ImageOf(o);
    assert Done(h.nodes, h.edges, h.overflow, image, p);
    hide Exact;
    WholeLeaf(o, a, b, roots, rank, h.overflow, p, h.nodes[p].cells);
    SameDone(h, image, Decoded(b), p);
  }

  lemma SameDone(h: Graph, image: Image, whole: Image, p: int)
    requires GoodImage(image) && GoodImage(whole) && Done(h.nodes, h.edges, h.overflow, image, p)
    requires p in whole.tree && whole.tree[p] == image.tree[p] && LeafStored(h.overflow, whole, p, h.nodes[p].cells)
    ensures Done(h.nodes, h.edges, h.overflow, whole, p)
  {
    forall i | 0 <= i < |h.nodes[p].children| ensures ChildDone(h.nodes, h.edges, whole, p, i) {
      assert ChildDone(h.nodes, h.edges, image, p, i);
    }
  }

  /** A graph exact for the overlay is exact for the full new image. */
  lemma ExactThroughOverlay(o: Overlay, a: Bodies, b: Bodies, roots: map<string, int>, rank: map<int, nat>, h: Graph, depth: map<int, nat>)
    requires Between(o, a, b, roots, rank) && Exact(h, ImageOf(o), roots, depth)
    ensures Exact(h, Decoded(b), roots, depth)
  {
    OverlayGood(o, a, b, roots, rank);
    forall p | p in h.nodes ensures Done(h.nodes, h.edges, h.overflow, Decoded(b), p) {
      WholeDone(o, a, b, roots, rank, h, depth, p);
    }
  }

  /** The rows left out of the candidates are untouched in the full image too. */
  lemma MissedThroughOverlay(o: Overlay, a: Bodies, b: Bodies, roots: map<string, int>, rank: map<int, nat>, h: Graph, candidates: set<(string, int)>)
    requires Between(o, a, b, roots, rank)
    requires NoneMissed(o.stored, h, Decoded(a), ImageOf(o), o.changed.Keys, candidates)
    ensures NoneMissed(o.stored, h, Decoded(a), Decoded(b), o.changed.Keys, candidates)
  {
    hide Exact, Chain;
    forall name, rowId ensures (name, rowId) in candidates || Unmoved(o.stored, h, Decoded(a), Decoded(b), o.changed.Keys, name, rowId) {
      if (name, rowId) !in candidates {
        UnmovedThroughOverlay(o, a, b, roots, rank, h, name, rowId);
      }
    }
  }

  lemma UnmovedThroughOverlay(o: Overlay, a: Bodies, b: Bodies, roots: map<string, int>, rank: map<int, nat>, h: Graph, name: string, rowId: int)
    requires Between(o, a, b, roots, rank) && Unmoved(o.stored, h, Decoded(a), ImageOf(o), o.changed.Keys, name, rowId)
    ensures Unmoved(o.stored, h, Decoded(a), Decoded(b), o.changed.Keys, name, rowId)
  {
    hide Exact, Chain;
    forall leaf, j | Holds(o.stored, name, leaf, j) && o.stored.nodes[leaf].cells[j].rowId == rowId
      ensures Chain(Decoded(b), o.stored.nodes[leaf].cells[j], leaf) == Chain(Decoded(a), o.stored.nodes[leaf].cells[j], leaf)
    {
      ChainRefines(o, a, b, roots, rank, o.stored.nodes[leaf].cells[j], leaf);
    }
  }

  /** An update that never opens the new file: afterwards the index is exact for the file's full image. */
  method UpdateThroughLog(index: PageIndex.PageIndex, o: Overlay, newRoots: map<string, int>, expected: string, point: string,
                          pageSize: int, schemaTag: string, stable: bool, ghost a: Bodies, ghost b: Bodies)
    returns (r: Result<set<(string, int)>, PageError>)
    requires index.Valid() && o.stored == index.Stored() && index.state.Some?
    requires Between(o, a, b, index.roots, index.rank) && index.source == Decoded(a)
    modifies index
    ensures r.Err? ==> index.Stored() == o.stored && index.state == old(index.state) && index.Valid()
    ensures r.Err? ==> index.roots == old(index.roots) && index.source == old(index.source)
    ensures r.Ok? ==> index.state == Some(PageIndex.State(point, pageSize, o.usable, schemaTag))
    ensures r.Ok? ==> old(index.state) == Some(PageIndex.State(expected, pageSize, o.usable, schemaTag))
    ensures r.Ok? ==> index.Valid() && index.source == Decoded(b) && index.roots == newRoots == old(index.roots)
    ensures r.Ok? ==> Exact(index.Stored(), Decoded(b), newRoots, index.rank)
    ensures r.Ok? ==> NoneMissed(o.stored, index.Stored(), Decoded(a), Decoded(b), o.changed.Keys, r.value)
    ensures r.Ok? ==> stable
    ensures stable && old(index.state) == Some(PageIndex.State(expected, pageSize, o.usable, schemaTag)) ==>
      old(index.roots) == newRoots && Untroubled(o.stored, o.pageCount, o.changed.Keys) ==> r.Ok?
  {
    hide Exact, NoneMissed, Agree, Between, Untroubled, Buildable, Decoded, ShapedPage, GoodBodies, TreePageAt, NextAt;
    ghost var roots, rank := index.roots, index.rank;
    BetweenHas(o, a, b, roots, rank);
    OverlayGood(o, a, b, roots, rank);
    OverlayAgrees(o, a, b, roots, rank);
    r := index.Update(ImageOf(o), newRoots, o.changed.Keys, expected, point, pageSize, schemaTag, stable);
    if r.Ok? {
      ExactThroughOverlay(o, a, b, roots, rank, index.Stored(), index.rank);
      MissedThroughOverlay(o, a, b, roots, rank, index.Stored(), r.value);
      index.source := Decoded(b);
    }
  }

  // ---- The disagreement is real ----

  /** A tree page of 512 bytes with no separator and one child, page 4. */
  function Dangling(): seq<byte> {
    [5, 0, 0, 0, 0, 2, 0, 0, 0, 0, 0, 4] + seq(500, i => 0)
  }

  lemma DanglingLayout()
    ensures ReadLayout(Dangling(), 2, 512) == Ok(Layout(0, true, 0, 512)) && Big(Dangling(), 8) == 4
  {
    var d := Dangling();
    assert d[0] == 5 && d[3] == 0 && d[4] == 0 && d[5] == 2 && d[6] == 0 && d[7] == 0;
    assert d[8] == 0 && d[9] == 0 && d[10] == 0 && d[11] == 4;
  }

  lemma DanglingDecodes()
    ensures DecodePage(Dangling(), 2, 512, 4) == Ok(TreePage(2, [4], [], []))
  {
    DanglingLayout();
    hide Dangling, ReadLayout, Big;
    var d := Dangling();
    var l := Layout(0, true, 0, 512);
    assert ReadCells(d, l, 0, 512, 4) == Ok([]);
    assert Keys([]) == [] && Extents([]) == [] && Ranges.Sorted([]) == [];
    assert Children([]) + [Big(d, 8)] == [4];
    assert Assemble(d, 2, l, [], 4) == Ok(TreePage(2, [4], [], []));
  }

  /** A leaf of 512 bytes with no cells. */
  function Bare(): seq<byte> {
    [13, 0, 0, 0, 0, 2, 0, 0] + seq(504, i => 0)
  }

  lemma BareDecodes()
    ensures DecodePage(Bare(), 4, 512, 4) == Ok(TreePage(4, [], [], []))
  {
    var d := Bare();
    assert d[0] == 13 && d[3] == 0 && d[4] == 0 && d[5] == 2 && d[6] == 0 && d[7] == 0;
    var l := Layout(0, false, 0, 512);
    assert ReadLayout(d, 4, 512) == Ok(l);
    hide Bare, ReadLayout;
    assert ReadCells(d, l, 0, 512, 4) == Ok([]);
    assert Keys([]) == [] && Extents([]) == [] && Ranges.Sorted([]) == [];
  }

  function OldBodies(): Bodies { Bodies(4, 512, map[1 := Dangling(), 2 := Dangling(), 3 := Bare(), 4 := Bare()]) }

  function NewBodies(): Bodies { Bodies(3, 512, map[1 := Bare(), 2 := Dangling(), 3 := Bare()]) }

  /** Page 2 is a table's root; its one child, page 4, is empty. */
  function OldGraph(): Graph {
    Graph(map[2 := Node("t", None, None, [4], [], []), 4 := Node("t", None, None, [], [], [])],
          map[4 := Edge(2, 0, None, None)], map[])
  }

  /** The graph is exact for any image that holds these two pages. */
  lemma OldGraphExact(image: Image)
    requires GoodImage(image) && 2 in image.tree && 4 in image.tree
    requires image.tree[2] == TreePage(2, [4], [], []) && image.tree[4] == TreePage(4, [], [], [])
    ensures Exact(OldGraph(), image, map["t" := 2], map[2 := 0, 4 := 1])
  {
    var g, rank: map<int, nat> := OldGraph(), map[2 := 0, 4 := 1];
    hide GoodImage, Chain;
    assert CellRows([]) == [];
    assert Done(g.nodes, g.edges, g.overflow, image, 4);
    OneEmptyChild(g.nodes);
    assert ChildDone(g.nodes, g.edges, image, 2, 0);
    assert Done(g.nodes, g.edges, g.overflow, image, 2);
    hide Done;
    var roots := map["t" := 2];
    assert roots["t"] == 2 && 2 in roots.Values;
    assert forall p :: p in g.nodes ==> p == 2 || p == 4;
    assert forall c :: c in g.edges ==> c == 4;
    assert EdgeHeld(g.nodes, g.edges[4], 4) && Rank(rank, 2) < Rank(rank, 4);
  }

  lemma OldBodiesDecode()
    ensures GoodBodies(OldBodies()) && GoodBodies(NewBodies())
    ensures var image := Decoded(OldBodies());
            && 2 in image.tree && 4 in image.tree
            && image.tree[2] == TreePage(2, [4], [], []) && image.tree[4] == TreePage(4, [], [], [])
  {
    DanglingSize();
    DanglingDecodes();
    BareDecodes();
    hide DecodePage, Dangling, Bare;
  }

  lemma DanglingSize()
    ensures |Dangling()| == 512 && |Bare()| == 512
  {
  }

  lemma OneEmptyChild(nodes: map<int, Node>)
    requires 4 in nodes && nodes[4].minimum.None? && nodes[4].maximum.None?
    ensures LowChild(nodes, [4]) == None && HighChild(nodes, [4]) == None
  {
  }

  /**
   An image shrinks from four pages to three and leaves a stored page as it was: the overlay still returns that page,
   and the full decode refuses it.
   */
  lemma ShrunkImageDiffers() returns (o: Overlay, a: Bodies, b: Bodies, roots: map<string, int>, rank: map<int, nat>)
    ensures Between(o, a, b, roots, rank) && 2 in o.stored.nodes && 2 !in o.changed && 2 in b.pages
    ensures TreePageAt(o, 2) == Ok(TreePage(2, [4], [], [])) && DecodePage(b.pages[2], 2, b.usable, b.pageCount).Err?
  {
    o, a, b := Overlay(3, 512, map[1 := Bare()], OldGraph()), OldBodies(), NewBodies();
    roots, rank := map["t" := 2], map[2 := 0, 4 := 1];
    DanglingSize();
    hide Dangling, Bare, DecodePage, Between, TreePageAt;
    ShrunkBetween();
    DanglingRefused();
    StoredRoot(o);
  }

  lemma ShrunkBetween()
    ensures Between(Overlay(3, 512, map[1 := Bare()], OldGraph()), OldBodies(), NewBodies(), map["t" := 2], map[2 := 0, 4 := 1])
  {
    OldExact();
    DanglingSize();
    hide Dangling, Bare, DecodePage, Exact, Decoded, OldGraph;
  }

  lemma OldExact()
    ensures GoodBodies(OldBodies()) && GoodBodies(NewBodies())
    ensures Exact(OldGraph(), Decoded(OldBodies()), map["t" := 2], map[2 := 0, 4 := 1])
  {
    OldBodiesDecode();
    hide *;
    OldGraphExact(Decoded(OldBodies()));
  }

  lemma DanglingRefused()
    ensures DecodePage(Dangling(), 2, 512, 3).Err?
  {
    DanglingDecodes();
    hide Dangling, DecodePage;
    var t := TreePage(2, [4], [], []);
    assert t.children[0] == 4;
    DecodeDependsOnFit(Dangling(), 2, 512, 4, 3);
    if DecodePage(Dangling(), 2, 512, 3).Ok? { DecodeUnique(Dangling(), 2, 512, 3, 4); }
  }

  lemma StoredRoot(o: Overlay)
    requires o.pageCount == 3 && o.usable == 512 && 2 !in o.changed && o.stored == OldGraph()
    ensures TreePageAt(o, 2) == Ok(TreePage(2, [4], [], []))
  {
    var edges := o.stored.edges;
    assert ChildrenOf(edges, 2) == {4};
    assert Listed(edges, 2, [4]) && Separators(edges, 2, [4]) == [];
  }
}
