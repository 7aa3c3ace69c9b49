/**
 From pages to rows: the bytes that a table row is read from, and why a row outside the candidates of
 an index update reads the same before and after.
 */
module RowContent {
  import opened Wrappers
  import opened Bytes
  import opened Varint
  import opened Pages
  import opened PageImages
  import opened PageGraph
  import opened PageRun
  import opened PageOutcome
  import opened MirrorRows

  /** Everything that a row is decoded from: its leaf page, which cell of it, and its overflow pages. */
  datatype Content = Content(leaf: seq<byte>, cell: int, overflow: seq<seq<byte>>)

  function PageBytes(b: Bodies, p: int): seq<byte> {
    if p in b.pages then b.pages[p] else []
  }

  function ChainBytes(b: Bodies, chain: seq<int>): seq<seq<byte>> {
    seq(|chain|, i requires 0 <= i < |chain| => PageBytes(b, chain[i]))
  }

  ghost predicate StoresAt(b: Bodies, g: Graph, name: string, id: int, c: Content, leaf: int, j: int)
    requires GoodBodies(b)
  {
    && Holds(g, name, leaf, j) && g.nodes[leaf].cells[j].rowId == id
    && Chain(Decoded(b), g.nodes[leaf].cells[j], leaf).Ok?
    && c == Content(PageBytes(b, leaf), j, ChainBytes(b, Chain(Decoded(b), g.nodes[leaf].cells[j], leaf).value))
  }

  /** Row `id` of table `name` is stored as `c`. */
  ghost predicate Stores(b: Bodies, g: Graph, name: string, id: int, c: Content)
    requires GoodBodies(b)
  {
    exists leaf, j :: StoresAt(b, g, name, id, c, leaf, j)
  }

  /** The rows that SQL reads from the table. */
  ghost predicate SourceOf(rows: Rows, b: Bodies, g: Graph, name: string, read: Content -> Row)
    requires GoodBodies(b)
  {
    && (forall id, c :: Stores(b, g, name, id, c) ==> id in rows && rows[id] == read(c))
    && (forall id :: id in rows ==> exists c :: Stores(b, g, name, id, c))
  }

  ghost predicate UnchangedOff(a: Bodies, b: Bodies, changed: set<int>) {
    forall p :: p in b.pages && p !in changed ==> p in a.pages && b.pages[p] == a.pages[p]
  }

  lemma SameBytes(a: Bodies, b: Bodies, changed: set<int>, g: Graph, h: Graph, roots: map<string, int>, depth: map<int, nat>,
                  name: string, id: int, leaf: int, j: int)
    requires GoodBodies(a) && GoodBodies(b) && UnchangedOff(a, b, changed) && Exact(h, Decoded(b), roots, depth)
    requires Unmoved(g, h, Decoded(a), Decoded(b), changed, name, id)
    requires Holds(g, name, leaf, j) && g.nodes[leaf].cells[j].rowId == id
    ensures leaf in h.nodes && h.nodes[leaf] == g.nodes[leaf] && PageBytes(a, leaf) == PageBytes(b, leaf)
    ensures var x, y := Chain(Decoded(a), g.nodes[leaf].cells[j], leaf), Chain(Decoded(b), g.nodes[leaf].cells[j], leaf);
            x.Ok? && y.Ok? && ChainBytes(a, x.value) == ChainBytes(b, y.value)
  {
    assert Done(h.nodes, h.edges, h.overflow, Decoded(b), leaf);
    assert leaf in b.pages;
    hide Exact, Done;
    var cell := g.nodes[leaf].cells[j];
    var chain := Chain(Decoded(b), cell, leaf).value;
    ChainReadable(b, cell, leaf);
    forall i | 0 <= i < |chain| ensures PageBytes(a, chain[i]) == PageBytes(b, chain[i]) {
      assert chain[i] in chain;
    }
  }

  lemma ChainReadable(b: Bodies, cell: Cell, leaf: int)
    requires GoodBodies(b) && Chain(Decoded(b), cell, leaf).Ok?
    ensures forall x :: x in Chain(Decoded(b), cell, leaf).value ==> x in b.pages
  {
    FromReadable(Decoded(b), if cell.overflow.Some? then cell.overflow.value else 0, cell.payload - cell.local, {leaf});
  }

  lemma {:induction false} FromReadable(image: Image, page: int, remaining: int, seen: set<int>)
    requires 480 <= image.usable && ChainFrom(image, page, remaining, seen).Ok?
    ensures forall x :: x in ChainFrom(image, page, remaining, seen).value ==> x in image.next
    decreases remaining
  {
    if remaining > 0 {
      var rest := remaining - PageImages.Least(remaining, image.usable - 4);
      FromReadable(image, image.next[page], rest, seen + {page});
      var more := ChainFrom(image, image.next[page], rest, seen + {page}).value;
      assert ChainFrom(image, page, remaining, seen).value == [page] + more;
    }
  }

  /** A row outside the candidates is stored as the same bytes before and after. */
  lemma SameContent(a: Bodies, b: Bodies, changed: set<int>, g: Graph, h: Graph, roots: map<string, int>, depth: map<int, nat>,
                    candidates: set<(string, int)>, name: string, id: int, c: Content)
    requires GoodBodies(a) && GoodBodies(b) && UnchangedOff(a, b, changed) && Exact(h, Decoded(b), roots, depth)
    requires NoneMissed(g, h, Decoded(a), Decoded(b), changed, candidates) && (name, id) !in candidates
    ensures Stores(a, g, name, id, c) <==> Stores(b, h, name, id, c)
  {
    hide Exact, Chain;
    assert Unmoved(g, h, Decoded(a), Decoded(b), changed, name, id);
    if Stores(a, g, name, id, c) {
      var leaf, j :| StoresAt(a, g, name, id, c, leaf, j);
      SameBytes(a, b, changed, g, h, roots, depth, name, id, leaf, j);
      assert StoresAt(b, h, name, id, c, leaf, j);
    }
    if Stores(b, h, name, id, c) {
      var leaf, j :| StoresAt(b, h, name, id, c, leaf, j);
      SameBytes(a, b, changed, g, h, roots, depth, name, id, leaf, j);
      assert StoresAt(a, g, name, id, c, leaf, j);
    }
  }

  /** Every row that was inserted, deleted or changed is a candidate. */
  lemma CandidatesCover(a: Bodies, b: Bodies, changed: set<int>, g: Graph, h: Graph, roots: map<string, int>, depth: map<int, nat>,
                        candidates: set<(string, int)>, name: string, before: Rows, after: Rows, read: Content -> Row, id: int)
    requires GoodBodies(a) && GoodBodies(b) && UnchangedOff(a, b, changed) && Exact(h, Decoded(b), roots, depth)
    requires NoneMissed(g, h, Decoded(a), Decoded(b), changed, candidates)
    requires SourceOf(before, a, g, name, read) && SourceOf(after, b, h, name, read)
    ensures RowOf(before, id) != RowOf(after, id) ==> (name, id) in candidates
  {
    hide Exact, Stores, NoneMissed;
    if (name, id) !in candidates {
      forall c ensures Stores(a, g, name, id, c) <==> Stores(b, h, name, id, c) {
        SameContent(a, b, changed, g, h, roots, depth, candidates, name, id, c);
      }
      if id in before { var c :| Stores(a, g, name, id, c); assert Stores(b, h, name, id, c); }
      if id in after { var c :| Stores(b, h, name, id, c); assert Stores(a, g, name, id, c); }
    }
  }
}
