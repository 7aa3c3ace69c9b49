/**
 One run over the page tables: what holds between any two of its steps. A page is settled when it
 needs no further visit; a settled page is exact for the new image and so are its children.
 */
module PageRun {
  import opened Wrappers
  import opened Pages
  import opened PageImages
  import opened PageGraph

  datatype Run = Run(nodes: map<int, Node>, edges: map<int, Edge>, overflow: map<int, Owner>,
                     needed: set<int>, orphaned: set<int>, visiting: set<int>, visited: set<int>,
                     candidates: set<(string, int)>, rank: map<int, nat>)

  type Extent = (Option<int>, Option<int>)

  ghost predicate Settled(r: Run, p: int) {
    p in r.nodes && p !in r.visiting && (p in r.visited || p !in r.needed)
  }

  ghost predicate ChildrenSettled(r: Run, p: int)
    requires p in r.nodes
  {
    forall c :: c in r.nodes[p].children ==> Settled(r, c)
  }

  // ---- What every step keeps ----

  ghost predicate Finished(r: Run, image: Image)
    requires GoodImage(image)
  {
    forall p :: Settled(r, p) ==> Done(r.nodes, r.edges, r.overflow, image, p) && ChildrenSettled(r, p)
  }

  ghost predicate Linked(r: Run) {
    forall c :: c in r.edges ==>
      && r.edges[c].parent in r.nodes
      && Rank(r.rank, r.edges[c].parent) < Rank(r.rank, c)
      && (Settled(r, r.edges[c].parent) || r.edges[c].parent in r.visiting ==> EdgeHeld(r.nodes, r.edges[c], c))
  }

  ghost predicate Accounted(r: Run, tops: set<int>) {
    forall p :: p in r.nodes ==> p in r.edges || p in tops || p in r.orphaned
  }

  ghost predicate Tracked(r: Run, tops: set<int>) {
    && r.visiting <= r.visited
    && (forall p :: p in r.visited ==> p in r.nodes && Rank(r.rank, p) <= 63)
    && (forall p :: p !in r.visited ==> Rank(r.rank, p) >= 64)
    && (forall p :: p in tops ==> p !in r.edges)
    && (forall p :: p in r.visited ==> p in tops || (p in r.edges && r.edges[p].parent in r.visited))
  }

  ghost predicate Apart(r: Run) {
    forall x :: x in r.overflow ==> r.overflow[x].leaf in r.nodes && x !in r.nodes
  }

  ghost predicate Remembered(candidates: set<(string, int)>, n: Node) {
    forall i :: 0 <= i < |n.rows| ==> (n.name, n.rows[i]) in candidates
  }

  /** A page outside the visits is the one that the baseline `before` recorded. */
  ghost predicate Untouched(r: Run, before: map<int, Node>, p: int) {
    p in r.nodes && p !in r.visited && p in before && r.nodes[p] == before[p]
  }

  ghost predicate Traced(r: Run, before: map<int, Node>) {
    && (forall p :: p in before ==> Untouched(r, before, p) || Remembered(r.candidates, before[p]))
    && (forall p :: p in r.nodes ==> if p in r.visited then Remembered(r.candidates, r.nodes[p]) else Untouched(r, before, p))
  }

  ghost predicate Inv(r: Run, image: Image, tops: set<int>, before: map<int, Node>) {
    GoodImage(image) && Finished(r, image) && Linked(r) && Accounted(r, tops) && Tracked(r, tops) && Apart(r) && Traced(r, before)
  }

  // ---- What a step leaves alone ----

  ghost predicate Pinned(r: Run, tops: set<int>, c: int) {
    c in tops || (c in r.edges && r.edges[c].parent in r.visited)
  }

  ghost predicate PinsHeld(r: Run, s: Run, tops: set<int>) {
    forall c :: Pinned(r, tops, c) && Settled(r, c) ==> Settled(s, c) && s.nodes[c] == r.nodes[c]
  }

  ghost predicate VisitsHeld(r: Run, s: Run) {
    && r.visited <= s.visited && r.needed <= s.needed
    && (forall p :: p in r.visited ==> p in r.nodes && p in s.nodes && s.nodes[p] == r.nodes[p] && Rank(s.rank, p) == Rank(r.rank, p))
  }

  ghost predicate EdgesHeld(r: Run, s: Run) {
    && (forall c :: c in r.edges && r.edges[c].parent in r.visited ==> c in s.edges && s.edges[c] == r.edges[c])
    && (forall c :: c in s.edges && s.edges[c].parent in r.visited ==> c in r.edges && s.edges[c] == r.edges[c])
  }

  ghost predicate OverflowHeld(r: Run, s: Run) {
    && (forall x :: x in r.overflow && r.overflow[x].leaf in r.visited ==> x in s.overflow && s.overflow[x] == r.overflow[x])
    && (forall x :: x in s.overflow && s.overflow[x].leaf in r.visited ==> x in r.overflow && s.overflow[x] == r.overflow[x])
  }

  /** Visited pages, their edges, chains and settled children are as they were. */
  ghost predicate Frame(r: Run, s: Run, tops: set<int>) {
    PinsHeld(r, s, tops) && VisitsHeld(r, s) && EdgesHeld(r, s) && OverflowHeld(r, s)
  }

  lemma FrameTrans(a: Run, b: Run, c: Run, tops: set<int>)
    requires Frame(a, b, tops) && Frame(b, c, tops)
    ensures Frame(a, c, tops)
  {
    forall x | Pinned(a, tops, x) && Settled(a, x) ensures Settled(c, x) && c.nodes[x] == a.nodes[x] {
      assert Pinned(b, tops, x) && Settled(b, x);
    }
  }

  // ---- A page stays done while what it stands on stays ----

  ghost predicate SameAt(r: Run, s: Run, p: int)
    requires p in r.nodes
  {
    && p in s.nodes && s.nodes[p] == r.nodes[p]
    && (forall c :: c in r.nodes[p].children ==>
          c in r.nodes && c in s.nodes && s.nodes[c] == r.nodes[c] && c in r.edges && c in s.edges && s.edges[c] == r.edges[c])
    && (forall x :: x in r.overflow && r.overflow[x].leaf == p ==> x in s.overflow && s.overflow[x] == r.overflow[x])
    && (forall x :: x in s.overflow && s.overflow[x].leaf == p ==> x in r.overflow && s.overflow[x] == r.overflow[x])
  }

  lemma StoredKept(r: map<int, Owner>, s: map<int, Owner>, chain: seq<int>, p: int, rowId: int)
    requires ChainStored(r, chain, p, rowId)
    requires forall x :: x in r && r[x].leaf == p ==> x in s && s[x] == r[x]
    ensures ChainStored(s, chain, p, rowId)
  {
    forall i | 0 <= i < |chain| ensures chain[i] in s && s[chain[i]] == Owner(p, rowId, NextIn(chain, i)) {
      var x := chain[i];
      assert x in r && r[x].leaf == p;
      assert x in s && s[x] == r[x];
    }
  }

  lemma EdgesKept(r: Run, s: Run, image: Image, p: int)
    requires GoodImage(image) && Matches(r.nodes, image, p) && EdgesDone(r.nodes, r.edges, image, p) && SameAt(r, s, p)
    ensures Matches(s.nodes, image, p) && EdgesDone(s.nodes, s.edges, image, p)
  {
    forall i | 0 <= i < |s.nodes[p].children| ensures ChildDone(s.nodes, s.edges, image, p, i) {
      assert ChildDone(r.nodes, r.edges, image, p, i);
      assert r.nodes[p].children[i] in r.nodes[p].children;
    }
  }

  lemma LeafKept(r: Run, s: Run, image: Image, p: int)
    requires GoodImage(image) && p in r.nodes && LeafStored(r.overflow, image, p, r.nodes[p].cells) && SameAt(r, s, p)
    ensures LeafStored(s.overflow, image, p, r.nodes[p].cells)
  {
    var cells := r.nodes[p].cells;
    forall j | 0 <= j < |cells| ensures CellStored(s.overflow, image, p, cells[j]) {
      assert CellStored(r.overflow, image, p, cells[j]);
      StoredKept(r.overflow, s.overflow, Chain(image, cells[j], p).value, p, cells[j].rowId);
    }
  }

  lemma DoneKept(r: Run, s: Run, image: Image, p: int)
    requires GoodImage(image) && Done(r.nodes, r.edges, r.overflow, image, p) && SameAt(r, s, p)
    ensures Done(s.nodes, s.edges, s.overflow, image, p)
  {
    SameExtremes(r.nodes, s.nodes, r.nodes[p].children);
    EdgesKept(r, s, image, p);
    LeafKept(r, s, image, p);
  }

  lemma SettledExtremes(r: Run, image: Image, p: int)
    requires GoodImage(image) && Finished(r, image) && Settled(r, p)
    ensures r.nodes[p].minimum.None? <==> r.nodes[p].maximum.None?
  {
    assert ExtremesDone(r.nodes, p);
  }

  lemma InvApart(r: Run, image: Image, tops: set<int>, before: map<int, Node>, page: int)
    requires Inv(r, image, tops, before) && page in r.visiting
    ensures Apart(r) && page in r.visited && page in r.nodes
  {
  }

  /** What a settled page stands on. */
  lemma SettledHolds(r: Run, image: Image, p: int, c: int)
    requires GoodImage(image) && Finished(r, image) && Settled(r, p) && c in r.nodes[p].children
    ensures Settled(r, c) && c in r.edges && r.edges[c].parent == p
  {
    var i :| 0 <= i < |r.nodes[p].children| && r.nodes[p].children[i] == c;
    assert ChildDone(r.nodes, r.edges, image, p, i);
  }

  // ---- Steps ----

  function ChildrenOf(edges: map<int, Edge>, page: int): set<int> {
    set c | c in edges && edges[c].parent == page
  }

  function WithoutParent(edges: map<int, Edge>, page: int): map<int, Edge> {
    map c | c in edges && edges[c].parent != page :: edges[c]
  }

  function WithoutLeaf(overflow: map<int, Owner>, page: int): map<int, Owner> {
    map x | x in overflow && overflow[x].leaf != page :: overflow[x]
  }

  function RowsOf(n: Node): set<(string, int)> {
    set i | 0 <= i < |n.rows| :: (n.name, n.rows[i])
  }

  /** The edges below a page, its chains and its node all go; its children lose their parent. */
  function Forgotten(r: Run, page: int): Run {
    if page !in r.nodes then r else
      r.(candidates := r.candidates + RowsOf(r.nodes[page]),
         orphaned := r.orphaned + ChildrenOf(r.edges, page),
         edges := WithoutParent(r.edges, page),
         overflow := WithoutLeaf(r.overflow, page),
         nodes := r.nodes - {page})
  }

  lemma ForgetSettled(r: Run, page: int, image: Image, tops: set<int>, before: map<int, Node>, p: int)
    requires Inv(r, image, tops, before) && page !in r.edges && page !in tops && page !in r.visited
    requires Settled(r, p) && p != page
    ensures var s := Forgotten(r, page);
            Settled(s, p) && Done(s.nodes, s.edges, s.overflow, image, p) && ChildrenSettled(s, p)
  {
    var s := Forgotten(r, page);
    forall c | c in r.nodes[p].children ensures Settled(s, c) && c in r.edges && r.edges[c].parent == p && s.nodes[c] == r.nodes[c] {
      SettledHolds(r, image, p, c);
    }
    DoneKept(r, s, image, p);
  }

  lemma ForgetFinished(r: Run, page: int, image: Image, tops: set<int>, before: map<int, Node>)
    requires Inv(r, image, tops, before) && page !in r.edges && page !in tops && page !in r.visited
    ensures Finished(Forgotten(r, page), image)
  {
    var s := Forgotten(r, page);
    forall p | Settled(s, p) ensures Done(s.nodes, s.edges, s.overflow, image, p) && ChildrenSettled(s, p) {
      assert Settled(r, p);
      ForgetSettled(r, page, image, tops, before, p);
    }
  }

  lemma ForgetLinked(r: Run, page: int)
    requires Linked(r) && page !in r.visited
    ensures Linked(Forgotten(r, page))
  {
    var s := Forgotten(r, page);
    forall c | c in s.edges ensures Settled(s, s.edges[c].parent) ==> Settled(r, s.edges[c].parent) {}
  }

  lemma ForgetTracked(r: Run, page: int, tops: set<int>)
    requires Accounted(r, tops) && Tracked(r, tops) && Apart(r) && page !in r.edges && page !in tops && page !in r.visited
    ensures var s := Forgotten(r, page); Accounted(s, tops) && Tracked(s, tops) && Apart(s)
  {
  }

  lemma ForgetTraced(r: Run, page: int, before: map<int, Node>)
    requires Traced(r, before) && page !in r.visited
    ensures Traced(Forgotten(r, page), before)
  {
    var s := Forgotten(r, page);
    forall p | p in before ensures Untouched(s, before, p) || Remembered(s.candidates, before[p]) {
      assert Untouched(r, before, p) ==> p != page ==> Untouched(s, before, p);
    }
    forall p | p in s.nodes ensures if p in s.visited then Remembered(s.candidates, s.nodes[p]) else Untouched(s, before, p) {}
  }

  lemma ForgetFrame(r: Run, page: int, tops: set<int>)
    requires Tracked(r, tops) && page !in r.edges && page !in tops && page !in r.visited
    ensures Frame(r, Forgotten(r, page), tops)
  {
    var s := Forgotten(r, page);
    forall c | Pinned(r, tops, c) && Settled(r, c) ensures Settled(s, c) && s.nodes[c] == r.nodes[c] {}
  }

  lemma ForgetKeeps(r: Run, page: int, image: Image, tops: set<int>, before: map<int, Node>)
    requires Inv(r, image, tops, before) && page !in r.edges && page !in tops && page !in r.visited
    ensures var s := Forgotten(r, page); page !in s.nodes && Inv(s, image, tops, before) && Frame(r, s, tops)
  {
    ForgetFinished(r, page, image, tops, before);
    ForgetLinked(r, page);
    ForgetTracked(r, page, tops);
    ForgetTraced(r, page, before);
    ForgetFrame(r, page, tops);
  }

  /** A page taken off the orphan list is a root, is linked, or goes. */
  function Swept(r: Run, page: int, tops: set<int>): Run {
    var s := r.(orphaned := r.orphaned - {page});
    if page !in tops && page !in r.edges then Forgotten(s, page) else s
  }

  lemma SweepKeeps(r: Run, page: int, image: Image, tops: set<int>, before: map<int, Node>)
    requires Inv(r, image, tops, before)
    ensures var s := Swept(r, page, tops); Inv(s, image, tops, before) && Frame(r, s, tops)
  {
    hide Finished, Linked, Apart, Traced, Frame;
    FrameSelf(r, tops);
    if page !in tops && page !in r.edges {
      ForgetKeeps(r, page, image, tops, before);
      SweptForgotten(r, page, tops);
      hide Inv, Tracked, Accounted;
      Relisted(r, Forgotten(r, page), Swept(r, page, tops).orphaned, image, tops, before);
    } else {
      Relisted(r, r, Swept(r, page, tops).orphaned, image, tops, before);
    }
  }

  lemma FrameSelf(r: Run, tops: set<int>)
    requires Tracked(r, tops)
    ensures Frame(r, r, tops)
  {
  }

  lemma SweptForgotten(r: Run, page: int, tops: set<int>)
    requires Accounted(r, tops) && page !in tops && page !in r.edges
    ensures var f, s := Forgotten(r, page), Swept(r, page, tops);
            s == f.(orphaned := s.orphaned) && forall p :: p in f.nodes ==> p in f.edges || p in tops || p in s.orphaned
  {
  }

  lemma Relisted(r: Run, f: Run, orphaned: set<int>, image: Image, tops: set<int>, before: map<int, Node>)
    requires Inv(f, image, tops, before) && Frame(r, f, tops)
    requires forall p :: p in f.nodes ==> p in f.edges || p in tops || p in orphaned
    ensures Inv(f.(orphaned := orphaned), image, tops, before) && Frame(r, f.(orphaned := orphaned), tops)
  {
    RelistedFinished(f, orphaned, image);
    RelistedFrame(r, f, orphaned, tops);
    RelistedLinked(f, orphaned);
    RelistedTraced(f, orphaned, before);
    hide Finished, Frame, Linked, Traced;
  }

  lemma RelistedLinked(f: Run, orphaned: set<int>)
    requires Linked(f)
    ensures Linked(f.(orphaned := orphaned))
  {
    var s := f.(orphaned := orphaned);
    forall c | c in s.edges ensures Settled(s, s.edges[c].parent) ==> Settled(f, s.edges[c].parent) {}
  }

  lemma RelistedTraced(f: Run, orphaned: set<int>, before: map<int, Node>)
    requires Traced(f, before)
    ensures Traced(f.(orphaned := orphaned), before)
  {
    forall p ensures Untouched(f.(orphaned := orphaned), before, p) == Untouched(f, before, p) {}
  }

  lemma RelistedFinished(f: Run, orphaned: set<int>, image: Image)
    requires GoodImage(image) && Finished(f, image)
    ensures Finished(f.(orphaned := orphaned), image)
  {
    hide Done;
    var s := f.(orphaned := orphaned);
    forall p | Settled(s, p) ensures Done(s.nodes, s.edges, s.overflow, image, p) && ChildrenSettled(s, p) {
      assert Settled(f, p);
      forall c | c in s.nodes[p].children ensures Settled(s, c) { assert Settled(f, c); }
    }
  }

  lemma RelistedFrame(r: Run, f: Run, orphaned: set<int>, tops: set<int>)
    requires Frame(r, f, tops)
    ensures Frame(r, f.(orphaned := orphaned), tops)
  {
    var s := f.(orphaned := orphaned);
    forall c | Pinned(r, tops, c) && Settled(r, c) ensures Settled(s, c) && s.nodes[c] == r.nodes[c] { assert Settled(f, c); }
  }

  // ---- A visit begins ----

  function Fresh(name: string, t: TreePage): Node {
    Node(name, None, None, t.children, CellRows(t.cells), t.cells)
  }

  /** The page's old rows, edges and chains go; the decoded page replaces its node. */
  function Begun(r: Run, page: int, name: string, t: TreePage): Run {
    Run(r.nodes[page := Fresh(name, t)], WithoutParent(r.edges, page), WithoutLeaf(r.overflow, page),
        r.needed, r.orphaned + ChildrenOf(r.edges, page), r.visiting + {page}, r.visited + {page},
        r.candidates + (if page in r.nodes then RowsOf(r.nodes[page]) else {}) + RowsOf(Fresh(name, t)),
        r.rank[page := |r.visiting|])
  }

  lemma BegunIs(r: Run, s: Run, page: int, name: string, t: TreePage)
    requires s.nodes == r.nodes[page := Fresh(name, t)] && s.edges == WithoutParent(r.edges, page)
    requires s.overflow == WithoutLeaf(r.overflow, page) && s.orphaned == r.orphaned + ChildrenOf(r.edges, page)
    requires s.needed == r.needed && s.visiting == r.visiting + {page} && s.visited == r.visited + {page}
    requires s.candidates == r.candidates + (if page in r.nodes then RowsOf(r.nodes[page]) else {}) + RowsOf(Fresh(name, t))
    requires s.rank == r.rank[page := |r.visiting|]
    ensures s == Begun(r, page, name, t)
  {
  }

  /** When a visit may begin: the page is not settled, belongs to no chain, and hangs below visited pages. */
  ghost predicate Ready(r: Run, page: int, tops: set<int>) {
    && page !in r.visited && !Settled(r, page) && page !in r.overflow && |r.visiting| < 64
    && (page in tops || (page in r.edges && r.edges[page].parent in r.visited && Rank(r.rank, r.edges[page].parent) < |r.visiting|))
  }

  lemma BeginSettled(r: Run, page: int, name: string, t: TreePage, image: Image, tops: set<int>, before: map<int, Node>, p: int)
    requires Inv(r, image, tops, before) && Ready(r, page, tops) && Settled(r, p)
    ensures var s := Begun(r, page, name, t);
            Settled(s, p) && Done(s.nodes, s.edges, s.overflow, image, p) && ChildrenSettled(s, p)
  {
    var s := Begun(r, page, name, t);
    forall c | c in r.nodes[p].children ensures Settled(s, c) && c in r.edges && r.edges[c].parent == p && s.nodes[c] == r.nodes[c] {
      SettledHolds(r, image, p, c);
    }
    DoneKept(r, s, image, p);
  }

  lemma BeginFinished(r: Run, page: int, name: string, t: TreePage, image: Image, tops: set<int>, before: map<int, Node>)
    requires Inv(r, image, tops, before) && Ready(r, page, tops)
    ensures Finished(Begun(r, page, name, t), image)
  {
    var s := Begun(r, page, name, t);
    forall p | Settled(s, p) ensures Done(s.nodes, s.edges, s.overflow, image, p) && ChildrenSettled(s, p) {
      assert Settled(r, p);
      BeginSettled(r, page, name, t, image, tops, before, p);
    }
  }

  lemma BeginLinked(r: Run, page: int, name: string, t: TreePage, tops: set<int>)
    requires Linked(r) && Tracked(r, tops) && Ready(r, page, tops)
    ensures Linked(Begun(r, page, name, t))
  {
    var s := Begun(r, page, name, t);
    forall c | c in s.edges ensures Settled(s, s.edges[c].parent) ==> Settled(r, s.edges[c].parent) {}
  }

  lemma BeginTracked(r: Run, page: int, name: string, t: TreePage, tops: set<int>)
    requires Accounted(r, tops) && Tracked(r, tops) && Apart(r) && Ready(r, page, tops)
    ensures var s := Begun(r, page, name, t); Accounted(s, tops) && Tracked(s, tops) && Apart(s)
  {
  }

  lemma BeginTraced(r: Run, page: int, name: string, t: TreePage, before: map<int, Node>)
    requires Traced(r, before) && page !in r.visited
    ensures Traced(Begun(r, page, name, t), before)
  {
    var s := Begun(r, page, name, t);
    forall p | p in before ensures Untouched(s, before, p) || Remembered(s.candidates, before[p]) {
      assert Untouched(r, before, p) ==> p != page ==> Untouched(s, before, p);
    }
    forall p | p in s.nodes ensures if p in s.visited then Remembered(s.candidates, s.nodes[p]) else Untouched(s, before, p) {
      assert p != page ==> p in r.nodes;
    }
  }

  lemma BeginFrame(r: Run, page: int, name: string, t: TreePage, tops: set<int>)
    requires Tracked(r, tops) && Ready(r, page, tops)
    ensures Frame(r, Begun(r, page, name, t), tops)
  {
    var s := Begun(r, page, name, t);
    forall c | Pinned(r, tops, c) && Settled(r, c) ensures Settled(s, c) && s.nodes[c] == r.nodes[c] {}
  }

  lemma BeginKeeps(r: Run, page: int, name: string, t: TreePage, image: Image, tops: set<int>, before: map<int, Node>)
    requires Inv(r, image, tops, before) && Ready(r, page, tops)
    ensures var s := Begun(r, page, name, t); Inv(s, image, tops, before) && Frame(r, s, tops)
  {
    BeginFinished(r, page, name, t, image, tops, before);
    BeginLinked(r, page, name, t, tops);
    BeginTracked(r, page, name, t, tops);
    BeginTraced(r, page, name, t, before);
    BeginFrame(r, page, name, t, tops);
  }

  // ---- A child is linked, stolen from an orphaned tree if need be ----

  /** The ancestors of a page that hang from no table root, up to the topmost one. */
  ghost predicate Ancestry(edges: map<int, Edge>, tops: set<int>, child: int, chain: set<int>) {
    && (child in edges ==> edges[child].parent in chain)
    && (forall a :: a in chain ==> a !in tops && (a in edges ==> edges[a].parent in chain))
  }

  function Attached(r: Run, child: int, e: Edge, chain: set<int>): Run {
    r.(needed := r.needed + chain, edges := r.edges[child := e])
  }

  /** No visited page lies on such a chain: visited pages hang from a root. */
  lemma {:induction false} ChainUnvisited(r: Run, tops: set<int>, chain: set<int>, child: int, a: int)
    requires Linked(r) && Tracked(r, tops) && Ancestry(r.edges, tops, child, chain) && a in chain
    ensures a !in r.visited
    decreases Rank(r.rank, a)
  {
    if a in r.visited {
      ChainUnvisited(r, tops, chain, child, r.edges[a].parent);
    }
  }

  ghost predicate MayLink(r: Run, tops: set<int>, child: int, e: Edge, chain: set<int>) {
    && child !in tops && Ancestry(r.edges, tops, child, chain) && (child !in r.edges ==> chain == {})
    && e.parent in r.visiting && EdgeHeld(r.nodes, e, child)
  }

  lemma LinkUnvisited(r: Run, tops: set<int>, child: int, e: Edge, chain: set<int>)
    requires Linked(r) && Tracked(r, tops) && MayLink(r, tops, child, e, chain)
    ensures child !in r.visited && chain !! r.visited
  {
    forall a | a in chain ensures a !in r.visited { ChainUnvisited(r, tops, chain, child, a); }
  }

  lemma LinkSettled(r: Run, child: int, e: Edge, chain: set<int>, image: Image, tops: set<int>, before: map<int, Node>, p: int)
    requires Inv(r, image, tops, before) && MayLink(r, tops, child, e, chain) && child !in r.visited && chain !! r.visited
    requires Settled(Attached(r, child, e, chain), p)
    ensures var s := Attached(r, child, e, chain);
            Settled(r, p) && Done(s.nodes, s.edges, s.overflow, image, p) && ChildrenSettled(s, p)
  {
    var s := Attached(r, child, e, chain);
    assert Settled(r, p) && p !in chain;
    forall c | c in r.nodes[p].children ensures Settled(s, c) && c in r.nodes && c in r.edges && c != child {
      SettledHolds(r, image, p, c);
    }
    DoneKept(r, s, image, p);
  }

  lemma LinkFinished(r: Run, child: int, e: Edge, chain: set<int>, image: Image, tops: set<int>, before: map<int, Node>)
    requires Inv(r, image, tops, before) && MayLink(r, tops, child, e, chain) && child !in r.visited && chain !! r.visited
    ensures Finished(Attached(r, child, e, chain), image)
  {
    var s := Attached(r, child, e, chain);
    forall p | Settled(s, p) ensures Done(s.nodes, s.edges, s.overflow, image, p) && ChildrenSettled(s, p) {
      LinkSettled(r, child, e, chain, image, tops, before, p);
    }
  }

  lemma LinkLinked(r: Run, child: int, e: Edge, chain: set<int>, tops: set<int>)
    requires Linked(r) && Tracked(r, tops) && MayLink(r, tops, child, e, chain) && child !in r.visited
    ensures Linked(Attached(r, child, e, chain))
  {
    var s := Attached(r, child, e, chain);
    forall c | c in s.edges ensures Settled(s, s.edges[c].parent) ==> Settled(r, s.edges[c].parent) {}
  }

  lemma LinkKeeps(r: Run, child: int, e: Edge, chain: set<int>, image: Image, tops: set<int>, before: map<int, Node>)
    requires Inv(r, image, tops, before) && MayLink(r, tops, child, e, chain)
    ensures child !in r.visited && chain !! r.visited && Inv(Attached(r, child, e, chain), image, tops, before)
  {
    LinkUnvisited(r, tops, child, e, chain);
    LinkFinished(r, child, e, chain, image, tops, before);
    LinkLinked(r, child, e, chain, tops);
  }

  /** A link disturbs no page visited before its new parent was. */
  lemma LinkFrame(r0: Run, r: Run, child: int, e: Edge, chain: set<int>, tops: set<int>)
    requires Frame(r0, r, tops) && MayLink(r, tops, child, e, chain) && child !in r.visited && chain !! r.visited
    requires e.parent !in r0.visited
    ensures Frame(r0, Attached(r, child, e, chain), tops)
  {
    var s := Attached(r, child, e, chain);
    forall c | Pinned(r0, tops, c) && Settled(r0, c) ensures Settled(s, c) && s.nodes[c] == r0.nodes[c] {
      assert Settled(r, c) && Pinned(r, tops, c);
    }
  }

  // ---- A chain page is recorded ----

  function Stored(r: Run, x: int, owner: Owner): Run {
    r.(overflow := r.overflow[x := owner])
  }

  lemma StoreSettled(r: Run, x: int, owner: Owner, image: Image, p: int)
    requires GoodImage(image) && Finished(r, image) && owner.leaf in r.visiting && Settled(r, p)
    requires x in r.overflow ==> r.overflow[x].leaf == owner.leaf
    ensures var s := Stored(r, x, owner);
            Settled(s, p) && Done(s.nodes, s.edges, s.overflow, image, p) && ChildrenSettled(s, p)
  {
    var s := Stored(r, x, owner);
    forall c | c in r.nodes[p].children ensures Settled(s, c) && c in r.edges {
      SettledHolds(r, image, p, c);
    }
    DoneKept(r, s, image, p);
  }

  lemma StoreKeeps(r0: Run, r: Run, x: int, owner: Owner, image: Image, tops: set<int>, before: map<int, Node>)
    requires Inv(r, image, tops, before) && x !in r.nodes && owner.leaf in r.visiting
    requires x in r.overflow ==> r.overflow[x].leaf == owner.leaf
    requires Frame(r0, r, tops) && owner.leaf !in r0.visited
    ensures Inv(Stored(r, x, owner), image, tops, before) && Frame(r0, Stored(r, x, owner), tops)
  {
    StoreFinished(r, x, owner, image);
    StoreFrame(r0, r, x, owner, tops);
    StoreRest(r, x, owner, tops, before);
    hide Finished, Linked, Accounted, Tracked, Apart, Traced, Frame;
  }

  lemma StoreFinished(r: Run, x: int, owner: Owner, image: Image)
    requires GoodImage(image) && Finished(r, image) && owner.leaf in r.visiting && (x in r.overflow ==> r.overflow[x].leaf == owner.leaf)
    ensures Finished(Stored(r, x, owner), image)
  {
    hide Done;
    var s := Stored(r, x, owner);
    forall p | Settled(s, p) ensures Done(s.nodes, s.edges, s.overflow, image, p) && ChildrenSettled(s, p) {
      assert Settled(r, p);
      StoreSettled(r, x, owner, image, p);
    }
  }

  lemma StoreFrame(r0: Run, r: Run, x: int, owner: Owner, tops: set<int>)
    requires Frame(r0, r, tops) && owner.leaf !in r0.visited && (x in r.overflow ==> r.overflow[x].leaf == owner.leaf)
    ensures Frame(r0, Stored(r, x, owner), tops)
  {
    var s := Stored(r, x, owner);
    forall c | Pinned(r0, tops, c) && Settled(r0, c) ensures Settled(s, c) && s.nodes[c] == r0.nodes[c] {
      assert Settled(r, c);
    }
  }

  lemma StoreRest(r: Run, x: int, owner: Owner, tops: set<int>, before: map<int, Node>)
    requires Linked(r) && Accounted(r, tops) && Tracked(r, tops) && Apart(r) && Traced(r, before)
    requires x !in r.nodes && owner.leaf in r.visiting
    ensures var s := Stored(r, x, owner); Linked(s) && Accounted(s, tops) && Tracked(s, tops) && Apart(s) && Traced(s, before)
  {
  }

  // ---- A visit ends ----

  function Ended(r: Run, page: int, low: Option<int>, high: Option<int>): Run
    requires page in r.nodes
  {
    r.(nodes := r.nodes[page := r.nodes[page].(minimum := low, maximum := high)], visiting := r.visiting - {page})
  }

  ghost predicate Complete(r: Run, image: Image, page: int, low: Option<int>, high: Option<int>)
    requires GoodImage(image)
  {
    && page in r.visiting && Matches(r.nodes, image, page) && EdgesDone(r.nodes, r.edges, image, page) && ChildrenSettled(r, page)
    && LeafStored(r.overflow, image, page, r.nodes[page].cells)
    && (low.None? <==> high.None?)
    && (var n := r.nodes[page];
        if n.children == [] then low == LowRow(n.rows) && high == HighRow(n.rows)
        else low == LowChild(r.nodes, n.children) && high == HighChild(r.nodes, n.children))
  }

  lemma EndPage(r: Run, page: int, low: Option<int>, high: Option<int>, image: Image)
    requires GoodImage(image) && Complete(r, image, page, low, high)
    ensures var s := Ended(r, page, low, high);
            Done(s.nodes, s.edges, s.overflow, image, page) && ChildrenSettled(s, page)
  {
    var s := Ended(r, page, low, high);
    forall c | c in r.nodes[page].children ensures c != page && Settled(s, c) { assert Settled(r, c); }
    SameExtremes(r.nodes, s.nodes, r.nodes[page].children);
    forall i | 0 <= i < |s.nodes[page].children| ensures ChildDone(s.nodes, s.edges, image, page, i) {
      assert ChildDone(r.nodes, r.edges, image, page, i);
      assert r.nodes[page].children[i] in r.nodes[page].children;
    }
  }

  lemma EndSettled(r: Run, page: int, low: Option<int>, high: Option<int>, image: Image, p: int)
    requires GoodImage(image) && Finished(r, image) && page in r.visiting && page in r.nodes && Settled(r, p)
    ensures var s := Ended(r, page, low, high);
            Settled(s, p) && Done(s.nodes, s.edges, s.overflow, image, p) && ChildrenSettled(s, p)
  {
    var s := Ended(r, page, low, high);
    forall c | c in r.nodes[p].children ensures c != page && Settled(s, c) && c in r.edges {
      SettledHolds(r, image, p, c);
    }
    DoneKept(r, s, image, p);
  }

  lemma EndFinished(r: Run, page: int, low: Option<int>, high: Option<int>, image: Image)
    requires GoodImage(image) && Finished(r, image) && Complete(r, image, page, low, high)
    ensures Finished(Ended(r, page, low, high), image)
  {
    var s := Ended(r, page, low, high);
    forall p | Settled(s, p) ensures Done(s.nodes, s.edges, s.overflow, image, p) && ChildrenSettled(s, p) {
      if p == page { EndPage(r, page, low, high, image); }
      else { assert Settled(r, p); EndSettled(r, page, low, high, image, p); }
    }
  }

  lemma EndKeeps(r0: Run, r: Run, page: int, low: Option<int>, high: Option<int>, image: Image, tops: set<int>, before: map<int, Node>)
    requires Inv(r, image, tops, before) && Complete(r, image, page, low, high)
    requires Frame(r0, r, tops) && page !in r0.visited
    ensures var s := Ended(r, page, low, high); Inv(s, image, tops, before) && Frame(r0, s, tops) && Settled(s, page)
  {
    EndFinished(r, page, low, high, image);
    EndLinked(r, page, low, high);
    EndFrame(r0, r, page, low, high, tops);
    hide Finished, Linked, Frame, Complete;
    EndTraced(r, page, low, high, tops, before);
    hide Traced;
  }

  lemma EndTraced(r: Run, page: int, low: Option<int>, high: Option<int>, tops: set<int>, before: map<int, Node>)
    requires Traced(r, before) && Tracked(r, tops) && page in r.visiting && page in r.nodes
    ensures Traced(Ended(r, page, low, high), before)
  {
    var s := Ended(r, page, low, high);
    forall p | p in before ensures Untouched(s, before, p) || Remembered(s.candidates, before[p]) {
      assert Untouched(r, before, p) ==> Untouched(s, before, p);
    }
    forall p | p in s.nodes ensures if p in s.visited then Remembered(s.candidates, s.nodes[p]) else Untouched(s, before, p) {}
  }

  lemma EndLinked(r: Run, page: int, low: Option<int>, high: Option<int>)
    requires Linked(r) && page in r.visiting && page in r.nodes
    ensures Linked(Ended(r, page, low, high))
  {
    var s := Ended(r, page, low, high);
    forall c | c in s.edges
      ensures Settled(s, s.edges[c].parent) || s.edges[c].parent in s.visiting ==> EdgeHeld(s.nodes, s.edges[c], c)
    {
      assert Settled(s, s.edges[c].parent) && s.edges[c].parent != page ==> Settled(r, s.edges[c].parent);
    }
  }

  lemma EndFrame(r0: Run, r: Run, page: int, low: Option<int>, high: Option<int>, tops: set<int>)
    requires Frame(r0, r, tops) && page !in r0.visited && page in r.visiting && page in r.nodes
    ensures Frame(r0, Ended(r, page, low, high), tops)
  {
    var s := Ended(r, page, low, high);
    forall c | Pinned(r0, tops, c) && Settled(r0, c) ensures Settled(s, c) && s.nodes[c] == r0.nodes[c] {
      assert Settled(r, c);
    }
  }

  // ---- The children of a page, one by one ----

  /** The first `i` children are linked with their bounds, and settled. */
  ghost predicate Partial(r: Run, image: Image, page: int, i: nat)
    requires GoodImage(image)
  {
    && page in r.visiting && page in r.visited && Matches(r.nodes, image, page) && i <= |r.nodes[page].children|
    && forall j :: 0 <= j < i ==> ChildDone(r.nodes, r.edges, image, page, j) && Settled(r, r.nodes[page].children[j])
  }

  lemma LinkPartial(r: Run, e: Edge, chain: set<int>, image: Image, tops: set<int>, i: nat)
    requires GoodImage(image) && Linked(r) && Tracked(r, tops) && Partial(r, image, e.parent, i) && i < |r.nodes[e.parent].children|
    requires MayLink(r, tops, r.nodes[e.parent].children[i], e, chain) && chain !! r.visited
    ensures var s := Attached(r, r.nodes[e.parent].children[i], e, chain);
            && Partial(s, image, e.parent, i)
            && LowChild(s.nodes, r.nodes[e.parent].children[..i]) == LowChild(r.nodes, r.nodes[e.parent].children[..i])
  {
    var page, children := e.parent, r.nodes[e.parent].children;
    var s := Attached(r, children[i], e, chain);
    assert ShapedPage(image.tree[page], page, image.usable);
    forall j | 0 <= j < i ensures ChildDone(s.nodes, s.edges, image, page, j) && Settled(s, children[j]) {
      assert ChildDone(r.nodes, r.edges, image, page, j) && Settled(r, children[j]);
      assert children[j] != children[i];
      assert r.edges[children[j]].parent == page;
      assert children[j] !in chain;
    }
  }

  lemma VisitPartial(s: Run, u: Run, image: Image, tops: set<int>, page: int, i: nat)
    requires GoodImage(image) && Frame(s, u, tops) && Partial(s, image, page, i) && i < |s.nodes[page].children|
    requires page in u.visiting
    requires var c := s.nodes[page].children[i];
             && c in s.edges && s.edges[c].parent == page && s.edges[c].position == i
             && ShapedPage(image.tree[page], page, image.usable) && InnerBounds(s.edges[c], image.tree[page], i)
             && Settled(u, c) && u.nodes[c].name == s.nodes[page].name
    ensures u.nodes[page] == s.nodes[page] && Partial(u, image, page, i + 1)
    ensures LowChild(u.nodes, u.nodes[page].children[..i]) == LowChild(s.nodes, u.nodes[page].children[..i])
    ensures HighChild(u.nodes, u.nodes[page].children[..i]) == HighChild(s.nodes, u.nodes[page].children[..i])
  {
    var children := s.nodes[page].children;
    forall j | 0 <= j < i
      ensures ChildDone(u.nodes, u.edges, image, page, j) && Settled(u, children[j]) && u.nodes[children[j]] == s.nodes[children[j]]
    {
      assert ChildDone(s.nodes, s.edges, image, page, j) && Settled(s, children[j]);
      assert Pinned(s, tops, children[j]);
    }
    assert ChildDone(u.nodes, u.edges, image, page, i);
    forall c | c in children[..i] ensures c in s.nodes && c in u.nodes && s.nodes[c] == u.nodes[c] {
      var j :| 0 <= j < i && children[j] == c;
      assert Settled(s, children[j]);
    }
    SameExtremes(s.nodes, u.nodes, children[..i]);
  }

  lemma NoneStored(r: Run, s: Run, tops: set<int>, page: int)
    requires Frame(r, s, tops) && page in r.visited && forall x :: x in r.overflow ==> r.overflow[x].leaf != page
    ensures forall x :: x in s.overflow ==> s.overflow[x].leaf != page
  {
  }

  /** The state in which the children of `page` are visited, since `r0`. */
  ghost predicate Inside(r: Run, image: Image, tops: set<int>, page: int, name: string, t: TreePage, r0: Run, before: map<int, Node>) {
    && Inv(r, image, tops, before) && Frame(r0, r, tops) && page in r.visiting && page !in r0.visited
    && Matches(r.nodes, image, page) && t == image.tree[page] && r.nodes[page].name == name
    && Rank(r.rank, page) < |r.visiting| <= 64
    && (forall x :: x in r.overflow ==> r.overflow[x].leaf != page)
  }

  /** The first `i` children are done, and their rows range from `extent.0` to `extent.1`. */
  ghost predicate Surveyed(r: Run, image: Image, page: int, i: nat, extent: Extent) {
    && GoodImage(image) && Partial(r, image, page, i)
    && extent.0 == LowChild(r.nodes, r.nodes[page].children[..i]) && extent.1 == HighChild(r.nodes, r.nodes[page].children[..i])
    && (extent.0.None? <==> extent.1.None?)
  }

  function Widen(extent: Extent, more: Extent): Extent {
    if more.0.None? then extent else (Lower(extent.0, more.0), Higher(extent.1, more.1))
  }

  function ChildEdge(page: int, t: TreePage, lower: Option<int>, upper: Option<int>, i: nat): Edge
    requires i <= |t.separators|
  {
    Edge(page, i, BoundAt(t, lower, upper, i), BoundAt(t, lower, upper, i + 1))
  }

  lemma BeginInside(r: Run, image: Image, tops: set<int>, page: int, name: string, before: map<int, Node>)
    requires Inv(r, image, tops, before) && Ready(r, page, tops) && page in image.tree
    ensures var t := image.tree[page];
            Inside(Begun(r, page, name, t), image, tops, page, name, t, r, before) && |r.visiting + {page}| == |r.visiting| + 1
  {
    BeginKeeps(r, page, name, image.tree[page], image, tops, before);
  }

  lemma ReadyToVisit(r: Run, image: Image, tops: set<int>, page: int, before: map<int, Node>)
    requires Inv(r, image, tops, before) && page !in r.visited && page !in r.overflow && |r.visiting| < 64
    requires page in r.nodes ==> page in r.needed || before == map[]
    requires page in tops || (page in r.edges && r.edges[page].parent in r.visited && Rank(r.rank, r.edges[page].parent) < |r.visiting|)
    ensures Ready(r, page, tops)
  {
    assert page in r.nodes ==> Untouched(r, before, page);
  }

  lemma SettledAlready(r: Run, image: Image, tops: set<int>, page: int, before: map<int, Node>)
    requires Inv(r, image, tops, before) && page in r.nodes && page !in r.visited && page !in r.needed
    ensures Settled(r, page) && Frame(r, r, tops)
  {
  }

  lemma BeginSurvey(r: Run, image: Image, tops: set<int>, page: int, name: string, t: TreePage, r0: Run, before: map<int, Node>)
    requires Inside(r, image, tops, page, name, t, r0, before)
    ensures Surveyed(r, image, page, 0, (None, None))
    ensures t.children != [] ==> |t.children| == |t.separators| + 1
  {
    assert ShapedPage(t, page, image.usable);
  }

  lemma Linking(r0: Run, a: Run, image: Image, tops: set<int>, page: int, name: string, t: TreePage, i: nat, extent: Extent,
                e: Edge, chain: set<int>, before: map<int, Node>)
    requires Inside(a, image, tops, page, name, t, r0, before) && Surveyed(a, image, page, i, extent) && i < |t.children|
    requires e.parent == page && e.position == i && t.children[i] !in tops
    requires Ancestry(a.edges, tops, t.children[i], chain) && (t.children[i] !in a.edges ==> chain == {})
    ensures var s := Attached(a, t.children[i], e, chain);
            && Inside(s, image, tops, page, name, t, r0, before) && Surveyed(s, image, page, i, extent)
            && Inv(s, image, tops, before) && page in s.visited && Rank(s.rank, page) < |s.visiting|
  {
    LinkKeeps(a, t.children[i], e, chain, image, tops, before);
    LinkFrame(r0, a, t.children[i], e, chain, tops);
    LinkPartial(a, e, chain, image, tops, i);
  }

  lemma ChildVisited(r0: Run, a: Run, b: Run, image: Image, tops: set<int>, page: int, name: string, t: TreePage, i: nat, extent: Extent,
                     lower: Option<int>, upper: Option<int>, before: map<int, Node>)
    requires Inside(a, image, tops, page, name, t, r0, before) && Surveyed(a, image, page, i, extent)
    requires i < |t.children| && i <= |t.separators| && t.children[i] in a.edges && a.edges[t.children[i]] == ChildEdge(page, t, lower, upper, i)
    requires Inv(b, image, tops, before) && Frame(a, b, tops) && b.visiting == a.visiting
    requires Settled(b, t.children[i]) && b.nodes[t.children[i]].name == name
    ensures Inside(b, image, tops, page, name, t, r0, before)
    ensures var n := b.nodes[t.children[i]]; Surveyed(b, image, page, i + 1, Widen(extent, (n.minimum, n.maximum)))
  {
    assert ShapedPage(t, page, image.usable);
    FrameTrans(r0, a, b, tops);
    VisitPartial(a, b, image, tops, page, i);
    NoneStored(a, b, tops, page);
    SettledExtremes(b, image, t.children[i]);
    OneChild(b.nodes, b.nodes[page].children, i);
  }

  lemma NoCells(overflow: map<int, Owner>, image: Image, page: int)
    requires 480 <= image.usable && forall x :: x in overflow ==> overflow[x].leaf != page
    ensures LeafStored(overflow, image, page, [])
  {
  }

  lemma LeafInside(r: Run, image: Image, tops: set<int>, page: int, name: string, t: TreePage, r0: Run, before: map<int, Node>)
    requires Inside(r, image, tops, page, name, t, r0, before)
    ensures Inv(r, image, tops, before) && Frame(r0, r, tops) && page in r.visiting && page !in r0.visited && page in r.nodes
    ensures GoodImage(image) && page in image.tree && t == image.tree[page] && ShapedPage(t, page, image.usable)
    ensures forall j :: 0 <= j < |t.cells| ==> ShapedCell(t.cells[j], image.usable)
    ensures forall x :: x in r.overflow ==> r.overflow[x].leaf != page
    ensures Matches(r.nodes, image, page) && r.nodes[page].name == name
  {
    hide Inv, Frame;
    assert GoodImage(image) by { InvGood(r, image, tops, before); }
    assert ShapedPage(t, page, image.usable);
  }

  lemma InvGood(r: Run, image: Image, tops: set<int>, before: map<int, Node>)
    requires Inv(r, image, tops, before)
    ensures GoodImage(image)
  {
  }

  /** A leaf whose chains are stored is complete. */
  lemma LeafComplete(r: Run, image: Image, page: int, t: TreePage, node: Node)
    requires GoodImage(image) && page in r.visiting && page in r.nodes && r.nodes[page] == node
    requires page in image.tree && t == image.tree[page] && ShapedPage(t, page, image.usable) && t.children == []
    requires Matches(map[page := node], image, page) && LeafStored(r.overflow, image, page, t.cells)
    ensures Complete(r, image, page, LowRow(CellRows(t.cells)), HighRow(CellRows(t.cells)))
  {
    hide LeafStored;
    ExtremesTogether(node.rows);
  }

  lemma AllVisited(r: Run, image: Image, tops: set<int>, page: int, name: string, t: TreePage, r0: Run, extent: Extent, before: map<int, Node>)
    requires Inside(r, image, tops, page, name, t, r0, before) && Surveyed(r, image, page, |t.children|, extent) && t.children != []
    ensures Complete(r, image, page, extent.0, extent.1) && page in r.nodes && r.nodes[page].name == name
    ensures Inv(r, image, tops, before) && Frame(r0, r, tops)
  {
    assert ShapedPage(t, page, image.usable);
    assert t.children[..|t.children|] == t.children;
    NoCells(r.overflow, image, page);
  }

  // ---- The chains of a leaf, cell by cell ----

  ghost predicate CellsStored(overflow: map<int, Owner>, image: Image, page: int, cells: seq<Cell>, n: nat)
    requires 480 <= image.usable && n <= |cells|
  {
    && (forall j :: 0 <= j < n ==> CellStored(overflow, image, page, cells[j]))
    && (forall x :: x in overflow && overflow[x].leaf == page ==> Serves(image, page, cells[..n], x))
  }

  /** Above what `was` holds for the page, exactly the first `k` pages of the chain, linked in order. */
  ghost predicate PartChain(was: map<int, Owner>, overflow: map<int, Owner>, chain: seq<int>, k: nat, page: int, rowId: int)
    requires k <= |chain|
  {
    && (forall x :: x in was && was[x].leaf == page ==> x in overflow && overflow[x] == was[x])
    && (forall x :: x in overflow && overflow[x].leaf == page ==> (x in was && was[x].leaf == page) || x in chain[..k])
    && (forall i :: 0 <= i < k ==> !(chain[i] in was && was[chain[i]].leaf == page))
    && (forall i :: 0 <= i < k ==> chain[i] in overflow && overflow[chain[i]].leaf == page)
    && (forall i :: 0 <= i < k ==> chain[i] in overflow && overflow[chain[i]] == Owner(page, rowId, if i + 1 < k then chain[i + 1] else 0))
  }

  /** What recording one more page of the chain does to the pages of this leaf. */
  ghost predicate OneMore(r: map<int, Owner>, s: map<int, Owner>, x: int, previous: Option<int>, page: int, rowId: int) {
    && x !in r && x in s && s[x] == Owner(page, rowId, 0)
    && (forall y :: y in r && r[y].leaf == page ==> y in s && s[y] == if previous == Some(y) then r[y].(next := x) else r[y])
    && (forall y :: y in s && s[y].leaf == page ==> y == x || (y in r && r[y].leaf == page))
  }

  /** Page `x` becomes the last page of the chain after `previous`; a stale node for it goes first. */
  function Recorded(r: Run, x: int, page: int, rowId: int, previous: Option<int>): Run {
    var s := Stored(Forgotten(r, x), x, Owner(page, rowId, 0));
    if previous.Some? && previous.value in s.overflow
    then Stored(s, previous.value, s.overflow[previous.value].(next := x)) else s
  }

  lemma NoneRecorded(overflow: map<int, Owner>, chain: seq<int>, page: int, rowId: int)
    ensures PartChain(overflow, overflow, chain, 0, page, rowId)
  {
  }

  lemma RecordedAt(was: map<int, Owner>, overflow: map<int, Owner>, chain: seq<int>, k: nat, page: int, rowId: int, i: nat)
    requires i < k <= |chain| && PartChain(was, overflow, chain, k, page, rowId)
    ensures chain[i] in overflow && overflow[chain[i]].leaf == page
  {
  }

  lemma RecordedMore(r: Run, x: int, page: int, rowId: int, previous: Option<int>)
    requires x !in r.overflow && (x in r.nodes ==> x != page) && Apart(r)
    requires previous.Some? ==> previous.value in r.overflow && r.overflow[previous.value].leaf == page
    ensures OneMore(r.overflow, Recorded(r, x, page, rowId, previous).overflow, x, previous, page, rowId)
  {
  }

  lemma RecordKeeps(r0: Run, r: Run, x: int, page: int, rowId: int, previous: Option<int>, image: Image, tops: set<int>, before: map<int, Node>)
    requires Inv(r, image, tops, before) && page in r.visiting && Frame(r0, r, tops) && page !in r0.visited
    requires x in r.nodes ==> x !in tops && x !in r.visited && x !in r.edges
    requires x !in r.overflow && (previous.Some? ==> previous.value in r.overflow && r.overflow[previous.value].leaf == page)
    ensures var s := Recorded(r, x, page, rowId, previous);
            Inv(s, image, tops, before) && Frame(r0, s, tops) && s.nodes[page] == r.nodes[page]
  {
    var f := Forgotten(r, x);
    if x in r.nodes {
      ForgetKeeps(r, x, image, tops, before);
      FrameTrans(r0, r, f, tops);
    }
    var owner := Owner(page, rowId, 0);
    StoreKeeps(r0, f, x, owner, image, tops, before);
    var s := Stored(f, x, owner);
    if previous.Some? {
      StoreKeeps(r0, s, previous.value, s.overflow[previous.value].(next := x), image, tops, before);
    }
  }

  lemma ChainGrows(was: map<int, Owner>, r: map<int, Owner>, s: map<int, Owner>, chain: seq<int>, k: nat, page: int, rowId: int)
    requires k < |chain| && PartChain(was, r, chain, k, page, rowId) && Distinct(chain)
    requires OneMore(r, s, chain[k], if k == 0 then None else Some(chain[k - 1]), page, rowId)
    ensures PartChain(was, s, chain, k + 1, page, rowId)
  {
    assert chain[..k + 1] == chain[..k] + [chain[k]];
    forall i | 0 <= i < k ensures chain[i] in s && s[chain[i]] == Owner(page, rowId, chain[i + 1]) {
      var y := chain[i];
      assert y in r && r[y] == Owner(page, rowId, if i + 1 < k then chain[i + 1] else 0);
      if i < k - 1 { assert y != chain[k - 1]; } else { assert y == chain[k - 1]; }
    }
  }

  lemma CellGrows(was: map<int, Owner>, r: map<int, Owner>, image: Image, page: int, cells: seq<Cell>, n: nat)
    requires GoodImage(image) && n < |cells| && CellsStored(was, image, page, cells, n) && Chain(image, cells[n], page).Ok?
    requires var chain := Chain(image, cells[n], page).value; PartChain(was, r, chain, |chain|, page, cells[n].rowId)
    ensures CellsStored(r, image, page, cells, n + 1)
  {
    var chain := Chain(image, cells[n], page).value;
    forall j | 0 <= j < n + 1 ensures CellStored(r, image, page, cells[j]) {
      if j < n {
        assert CellStored(was, image, page, cells[j]);
        StoredKept(was, r, Chain(image, cells[j], page).value, page, cells[j].rowId);
      }
    }
    forall x | x in r && r[x].leaf == page ensures Serves(image, page, cells[..n + 1], x) {
      if x in was && was[x].leaf == page {
        assert Serves(image, page, cells[..n], x);
        var j :| 0 <= j < n && InChain(image, page, cells[..n][j], x);
        assert cells[..n + 1][j] == cells[..n][j];
      } else {
        assert chain[..|chain|] == chain && x in chain;
        assert cells[..n + 1][n] == cells[n] && InChain(image, page, cells[n], x);
      }
    }
  }
}
