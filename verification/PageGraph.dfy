/**
 The page-ownership graph of an image: which table each tree page belongs to, which page is its
 parent, and which leaf row each overflow page serves. A graph that is exact for an image is
 determined by it, up to the outer bounds that edges inherit.
 */
module PageGraph {
  import opened Wrappers
  import opened Pages
  import opened PageImages

  datatype Node = Node(name: string, minimum: Option<int>, maximum: Option<int>,
                       children: seq<int>, rows: seq<int>, cells: seq<Cell>)

  datatype Edge = Edge(parent: int, position: int, lower: Option<int>, upper: Option<int>)

  datatype Owner = Owner(leaf: int, rowId: int, next: int)

  /** The three tables, keyed by page. */
  datatype Graph = Graph(nodes: map<int, Node>, edges: map<int, Edge>, overflow: map<int, Owner>)

  function CellRows(cells: seq<Cell>): (r: seq<int>)
    ensures |r| == |cells|
  {
    seq(|cells|, i requires 0 <= i < |cells| => cells[i].rowId)
  }

  // ---- Least and greatest row ids ----

  function Lower(a: Option<int>, b: Option<int>): Option<int> {
    if a.None? then b else if b.None? then a else if b.value < a.value then b else a
  }

  function Higher(a: Option<int>, b: Option<int>): Option<int> {
    if a.None? then b else if b.None? then a else if a.value < b.value then b else a
  }

  function LowRow(rows: seq<int>): Option<int> {
    if rows == [] then None else Lower(LowRow(rows[..|rows| - 1]), Some(rows[|rows| - 1]))
  }

  function HighRow(rows: seq<int>): Option<int> {
    if rows == [] then None else Higher(HighRow(rows[..|rows| - 1]), Some(rows[|rows| - 1]))
  }

  function LowChild(nodes: map<int, Node>, children: seq<int>): Option<int> {
    if children == [] then None else
      var c := children[|children| - 1];
      Lower(LowChild(nodes, children[..|children| - 1]), if c in nodes then nodes[c].minimum else None)
  }

  function HighChild(nodes: map<int, Node>, children: seq<int>): Option<int> {
    if children == [] then None else
      var c := children[|children| - 1];
      Higher(HighChild(nodes, children[..|children| - 1]), if c in nodes then nodes[c].maximum else None)
  }

  lemma {:induction false} ExtremesTogether(rows: seq<int>)
    ensures (LowRow(rows).None? <==> rows == []) && (HighRow(rows).None? <==> rows == [])
    decreases |rows|
  {
    if rows != [] { ExtremesTogether(rows[..|rows| - 1]); }
  }

  lemma OneChild(nodes: map<int, Node>, children: seq<int>, i: nat)
    requires i < |children| && children[i] in nodes
    ensures LowChild(nodes, children[..i + 1]) == Lower(LowChild(nodes, children[..i]), nodes[children[i]].minimum)
    ensures HighChild(nodes, children[..i + 1]) == Higher(HighChild(nodes, children[..i]), nodes[children[i]].maximum)
  {
    assert children[..i + 1][..i] == children[..i];
  }

  lemma {:induction false} SameExtremes(a: map<int, Node>, b: map<int, Node>, children: seq<int>)
    requires forall c :: c in children ==> c in a && c in b && a[c].minimum == b[c].minimum && a[c].maximum == b[c].maximum
    ensures LowChild(a, children) == LowChild(b, children) && HighChild(a, children) == HighChild(b, children)
    decreases |children|
  {
    if children != [] {
      assert forall c :: c in children[..|children| - 1] ==> c in children;
      SameExtremes(a, b, children[..|children| - 1]);
    }
  }

  // ---- One page of an exact graph ----

  ghost predicate Matches(nodes: map<int, Node>, image: Image, p: int) {
    && p in nodes && p in image.tree
    && nodes[p].children == image.tree[p].children && nodes[p].cells == image.tree[p].cells
    && nodes[p].rows == CellRows(nodes[p].cells)
  }

  /** The bounds that the page itself fixes: all but the first lower and the last upper one. */
  ghost predicate InnerBounds(e: Edge, t: TreePage, i: nat)
    requires i < |t.children| == |t.separators| + 1
  {
    && (0 < i ==> e.lower == Some(t.separators[i - 1]))
    && (i < |t.separators| ==> e.upper == Some(t.separators[i]))
  }

  ghost predicate ChildDone(nodes: map<int, Node>, edges: map<int, Edge>, image: Image, p: int, i: nat)
    requires GoodImage(image) && p in nodes && p in image.tree && nodes[p].children == image.tree[p].children
    requires i < |nodes[p].children|
  {
    var c := nodes[p].children[i];
    assert ShapedPage(image.tree[p], p, image.usable);
    && c in nodes && nodes[c].name == nodes[p].name
    && c in edges && edges[c].parent == p && edges[c].position == i
    && InnerBounds(edges[c], image.tree[p], i)
  }

  ghost predicate EdgesDone(nodes: map<int, Node>, edges: map<int, Edge>, image: Image, p: int)
    requires GoodImage(image) && Matches(nodes, image, p)
  {
    forall i :: 0 <= i < |nodes[p].children| ==> ChildDone(nodes, edges, image, p, i)
  }

  ghost predicate ExtremesDone(nodes: map<int, Node>, p: int)
    requires p in nodes
  {
    var n := nodes[p];
    && (n.minimum.None? <==> n.maximum.None?)
    && (if n.children == [] then n.minimum == LowRow(n.rows) && n.maximum == HighRow(n.rows)
        else n.minimum == LowChild(nodes, n.children) && n.maximum == HighChild(nodes, n.children))
  }

  function NextIn(chain: seq<int>, i: nat): int
    requires i < |chain|
  {
    if i + 1 < |chain| then chain[i + 1] else 0
  }

  ghost predicate ChainStored(overflow: map<int, Owner>, chain: seq<int>, leaf: int, rowId: int) {
    forall i :: 0 <= i < |chain| ==> chain[i] in overflow && overflow[chain[i]] == Owner(leaf, rowId, NextIn(chain, i))
  }

  ghost predicate CellStored(overflow: map<int, Owner>, image: Image, p: int, cell: Cell)
    requires 480 <= image.usable
  {
    Chain(image, cell, p).Ok? && ChainStored(overflow, Chain(image, cell, p).value, p, cell.rowId)
  }

  ghost predicate InChain(image: Image, p: int, cell: Cell, x: int)
    requires 480 <= image.usable
  {
    Chain(image, cell, p).Ok? && x in Chain(image, cell, p).value
  }

  ghost predicate Serves(image: Image, p: int, cells: seq<Cell>, x: int)
    requires 480 <= image.usable
  {
    exists j :: 0 <= j < |cells| && InChain(image, p, cells[j], x)
  }

  ghost predicate LeafStored(overflow: map<int, Owner>, image: Image, p: int, cells: seq<Cell>)
    requires 480 <= image.usable
  {
    && (forall j :: 0 <= j < |cells| ==> CellStored(overflow, image, p, cells[j]))
    && (forall x :: x in overflow && overflow[x].leaf == p ==> Serves(image, p, cells, x))
  }

  ghost predicate Done(nodes: map<int, Node>, edges: map<int, Edge>, overflow: map<int, Owner>, image: Image, p: int)
    requires GoodImage(image)
  {
    && Matches(nodes, image, p) && EdgesDone(nodes, edges, image, p) && ExtremesDone(nodes, p)
    && LeafStored(overflow, image, p, nodes[p].cells)
  }

  // ---- Whole graphs ----

  function Rank(rank: map<int, nat>, p: int): nat {
    if p in rank then rank[p] else 64
  }

  /** A child lies on its parent's list, and deeper. */
  ghost predicate EdgeHeld(nodes: map<int, Node>, e: Edge, c: int) {
    e.parent in nodes && 0 <= e.position < |nodes[e.parent].children| && nodes[e.parent].children[e.position] == c
  }

  /** The graph of exactly the pages that the image reaches from the table roots. */
  ghost predicate Exact(g: Graph, image: Image, roots: map<string, int>, rank: map<int, nat>) {
    && GoodImage(image)
    && (forall p :: p in g.nodes ==> Done(g.nodes, g.edges, g.overflow, image, p))
    && (forall name :: name in roots ==> roots[name] in g.nodes && g.nodes[roots[name]].name == name && roots[name] !in g.edges)
    && (forall p :: p in g.nodes ==> p in roots.Values || p in g.edges)
    && (forall c :: c in g.edges ==> c in g.nodes && EdgeHeld(g.nodes, g.edges[c], c) && Rank(rank, g.edges[c].parent) < Rank(rank, c))
    && (forall x :: x in g.overflow ==> g.overflow[x].leaf in g.nodes && x !in g.nodes)
  }

  /** Equal except for the first child's lower bound and the last child's upper bound. */
  ghost predicate SameEdge(a: Edge, b: Edge, siblings: int) {
    && a.parent == b.parent && a.position == b.position
    && (0 < a.position ==> a.lower == b.lower)
    && (a.position < siblings - 1 ==> a.upper == b.upper)
  }

  ghost predicate SameGraph(a: Graph, b: Graph) {
    && a.nodes == b.nodes && a.overflow == b.overflow && a.edges.Keys == b.edges.Keys
    && forall c :: c in a.edges ==> a.edges[c].parent in a.nodes && SameEdge(a.edges[c], b.edges[c], |a.nodes[a.edges[c].parent].children|)
  }

  lemma {:induction false} SameNode(a: Graph, b: Graph, image: Image, roots: map<string, int>, ra: map<int, nat>, rb: map<int, nat>, p: int)
    requires Exact(a, image, roots, ra) && Exact(b, image, roots, rb) && p in a.nodes
    ensures p in b.nodes && a.nodes[p].name == b.nodes[p].name
    ensures p in a.edges ==> p in b.edges && SameEdge(a.edges[p], b.edges[p], |a.nodes[a.edges[p].parent].children|)
    decreases Rank(ra, p)
  {
    if p in a.edges {
      var e := a.edges[p];
      assert EdgeHeld(a.nodes, e, p);
      SameNode(a, b, image, roots, ra, rb, e.parent);
      assert Done(a.nodes, a.edges, a.overflow, image, e.parent) && Done(b.nodes, b.edges, b.overflow, image, e.parent);
      assert ChildDone(a.nodes, a.edges, image, e.parent, e.position) && ChildDone(b.nodes, b.edges, image, e.parent, e.position);
      assert ShapedPage(image.tree[e.parent], e.parent, image.usable);
    } else {
      var name :| name in roots && roots[name] == p;
    }
  }

  lemma {:induction false} RankBound(rank: map<int, nat>, pages: set<int>) returns (top: nat)
    ensures 64 <= top && forall p :: p in pages ==> Rank(rank, p) <= top
    decreases |pages|
  {
    top := 64;
    Inhabited(pages);
    if pages != {} {
      var p :| p in pages;
      var rest := RankBound(rank, pages - {p});
      top := if rest < Rank(rank, p) then Rank(rank, p) else rest;
      assert forall q :: q in pages ==> q == p || q in pages - {p};
    }
  }

  /** Stored extremes agree from the leaves up. */
  lemma {:induction false} SameBounds(a: Graph, b: Graph, image: Image, roots: map<string, int>, ra: map<int, nat>, rb: map<int, nat>, p: int, top: nat)
    requires Exact(a, image, roots, ra) && Exact(b, image, roots, rb) && p in a.nodes && p in b.nodes
    requires forall q :: q in a.nodes ==> Rank(ra, q) <= top
    ensures a.nodes[p].minimum == b.nodes[p].minimum && a.nodes[p].maximum == b.nodes[p].maximum
    decreases top - Rank(ra, p)
  {
    assert Done(a.nodes, a.edges, a.overflow, image, p) && Done(b.nodes, b.edges, b.overflow, image, p);
    forall c | c in a.nodes[p].children
      ensures c in a.nodes && c in b.nodes && a.nodes[c].minimum == b.nodes[c].minimum && a.nodes[c].maximum == b.nodes[c].maximum
    {
      var i :| 0 <= i < |a.nodes[p].children| && a.nodes[p].children[i] == c;
      assert ChildDone(a.nodes, a.edges, image, p, i) && ChildDone(b.nodes, b.edges, image, p, i);
      SameBounds(a, b, image, roots, ra, rb, c, top);
    }
    SameExtremes(a.nodes, b.nodes, a.nodes[p].children);
  }

  lemma {:induction false} SameOwner(a: Graph, b: Graph, image: Image, roots: map<string, int>, ra: map<int, nat>, rb: map<int, nat>, x: int)
    requires Exact(a, image, roots, ra) && Exact(b, image, roots, rb) && x in a.overflow
    ensures x in b.overflow && b.overflow[x] == a.overflow[x]
  {
    var p := a.overflow[x].leaf;
    SameNode(a, b, image, roots, ra, rb, p);
    assert Done(a.nodes, a.edges, a.overflow, image, p) && Done(b.nodes, b.edges, b.overflow, image, p);
    var cells := a.nodes[p].cells;
    assert Serves(image, p, cells, x);
    var j :| 0 <= j < |cells| && InChain(image, p, cells[j], x);
    assert CellStored(a.overflow, image, p, cells[j]) && CellStored(b.overflow, image, p, cells[j]);
    var chain := Chain(image, cells[j], p).value;
    var i :| 0 <= i < |chain| && chain[i] == x;
    assert a.overflow[chain[i]] == Owner(p, cells[j].rowId, NextIn(chain, i));
    assert b.overflow[chain[i]] == Owner(p, cells[j].rowId, NextIn(chain, i));
  }

  /** At most one graph is exact for an image, up to the inherited outer bounds. */
  lemma {:induction false} ExactUnique(a: Graph, b: Graph, image: Image, roots: map<string, int>, ra: map<int, nat>, rb: map<int, nat>)
    requires Exact(a, image, roots, ra) && Exact(b, image, roots, rb)
    ensures SameGraph(a, b)
  {
    SameNodes(a, b, image, roots, ra, rb);
    SameEdges(a, b, image, roots, ra, rb);
    SameEdges(b, a, image, roots, rb, ra);
    hide Exact, SameEdge;
    forall x | x in a.overflow ensures x in b.overflow && b.overflow[x] == a.overflow[x] { SameOwner(a, b, image, roots, ra, rb, x); }
    forall x | x in b.overflow ensures x in a.overflow { SameOwner(b, a, image, roots, rb, ra, x); }
    assert a.edges.Keys == b.edges.Keys by {
      forall c ensures c in a.edges <==> c in b.edges {}
    }
  }

  lemma {:induction false} SameNodes(a: Graph, b: Graph, image: Image, roots: map<string, int>, ra: map<int, nat>, rb: map<int, nat>)
    requires Exact(a, image, roots, ra) && Exact(b, image, roots, rb)
    ensures a.nodes == b.nodes
  {
    var top := RankBound(ra, a.nodes.Keys);
    forall p | p in a.nodes ensures p in b.nodes && a.nodes[p] == b.nodes[p] {
      SameNode(a, b, image, roots, ra, rb, p);
      SameContents(a, b, image, roots, ra, rb, p);
      SameBounds(a, b, image, roots, ra, rb, p, top);
    }
    hide Exact;
    forall p | p in b.nodes ensures p in a.nodes { SameNode(b, a, image, roots, rb, ra, p); }
  }

  lemma SameContents(a: Graph, b: Graph, image: Image, roots: map<string, int>, ra: map<int, nat>, rb: map<int, nat>, p: int)
    requires Exact(a, image, roots, ra) && Exact(b, image, roots, rb) && p in a.nodes && p in b.nodes
    ensures var m, n := a.nodes[p], b.nodes[p]; m.children == n.children && m.rows == n.rows && m.cells == n.cells
  {
    assert Done(a.nodes, a.edges, a.overflow, image, p) && Done(b.nodes, b.edges, b.overflow, image, p);
  }

  lemma {:induction false} SameEdges(a: Graph, b: Graph, image: Image, roots: map<string, int>, ra: map<int, nat>, rb: map<int, nat>)
    requires Exact(a, image, roots, ra) && Exact(b, image, roots, rb)
    ensures forall c :: c in a.edges ==>
      a.edges[c].parent in a.nodes && c in b.edges && SameEdge(a.edges[c], b.edges[c], |a.nodes[a.edges[c].parent].children|)
  {
    hide Done, SameEdge;
    forall c | c in a.edges ensures a.edges[c].parent in a.nodes && c in b.edges
                                    && SameEdge(a.edges[c], b.edges[c], |a.nodes[a.edges[c].parent].children|)
    {
      assert EdgeHeld(a.nodes, a.edges[c], c);
      SameNode(a, b, image, roots, ra, rb, c);
    }
  }
}
