/**
 Transactional row and overflow ownership. A build visits every page; an update visits only the needed
 closure of the changed pages, may take children over from orphaned trees, and sweeps what is left over.
 */
module PageIndex {
  import opened Wrappers
  import opened Varint
  import opened Pages
  import opened PageImages
  import opened PageGraph
  import opened PageRun
  import opened PageBaseline
  import opened PageBuild
  import opened PageOutcome

  datatype State = State(point: string, pageSize: int, usable: int, schemaTag: string)

  class PageIndex {
    var nodes: map<int, Node>
    var edges: map<int, Edge>
    var overflow: map<int, Owner>
    var roots: map<string, int>
    var state: Option<State>
    // The sets of the running transaction.
    var needed: set<int>
    var orphaned: set<int>
    var visiting: set<int>
    var visited: set<int>
    var candidates: set<(string, int)>
    ghost var rank: map<int, nat>
    // The image that the committed tables describe.
    ghost var source: Image

    ghost function Now(): Run
      reads `nodes, `edges, `overflow, `needed, `orphaned, `visiting, `visited, `candidates, `rank
    {
      Run(nodes, edges, overflow, needed, orphaned, visiting, visited, candidates, rank)
    }

    ghost function Stored(): Graph
      reads `nodes, `edges, `overflow
    {
      Graph(nodes, edges, overflow)
    }

    ghost predicate Valid()
      reads `nodes, `edges, `overflow, `roots, `state, `rank, `source
    {
      state.Some? ==> Exact(Stored(), source, roots, rank) && state.value.usable == source.usable
    }

    constructor ()
      ensures Valid() && state.None?
    {
      nodes, edges, overflow, roots, state := map[], map[], map[], map[], None;
      needed, orphaned, visiting, visited, candidates := {}, {}, {}, {}, {};
      rank := map[];
      source := Image(0, 480, map[], map[]);
    }

    // ---- Steps on the tables ----

    method CutEdges(page: int)
      modifies `edges, `orphaned
      ensures orphaned == old(orphaned) + ChildrenOf(old(edges), page) && edges == WithoutParent(old(edges), page)
    {
      orphaned := orphaned + ChildrenOf(edges, page);
      edges := WithoutParent(edges, page);
    }

    method Forget(page: int)
      modifies `nodes, `edges, `overflow, `orphaned, `candidates
      ensures Now() == Forgotten(old(Now()), page)
    {
      if page in nodes {
        candidates := candidates + RowsOf(nodes[page]);
        CutEdges(page);
        overflow := WithoutLeaf(overflow, page);
        nodes := nodes - {page};
      }
    }

    /** Makes `child` a child of `e.parent`, unless it already hangs from a table root. */
    method Link(tops: set<int>, child: int, e: Edge) returns (r: Result<set<int>, PageError>)
      modifies `needed, `edges
      ensures r.Ok? ==> Now() == Attached(old(Now()), child, e, r.value)
      ensures r.Ok? ==> Ancestry(old(edges), tops, child, r.value) && (child !in old(edges) ==> r.value == {})
      ensures r.Err? ==> child in old(edges) && Now() == old(Now())
    {
      var chain: set<int> := {};
      if child in edges {
        var ancestor := edges[child].parent;
        while ancestor !in tops
          invariant forall a :: a in chain ==> a !in tops && (a in edges ==> edges[a].parent in chain || edges[a].parent == ancestor)
          invariant edges[child].parent in chain || edges[child].parent == ancestor
          decreases 64 - |chain|
        {
          if ancestor in chain || |chain| >= 64 { return Err(PageUnavailable); }
          chain := chain + {ancestor};
          if ancestor !in edges { break; }
          ancestor := edges[ancestor].parent;
        }
        if ancestor in tops { return Err(PageUnavailable); }
        needed := needed + chain;
        edges := edges - {child};
      }
      edges := edges[child := e];
      return Ok(chain);
    }

    /** Records one page of a chain; a stale node for that page goes first. */
    method StorePage(tops: set<int>, x: int, page: int, rowId: int, previous: Option<int>) returns (ok: bool)
      requires previous.Some? ==> previous.value in overflow && overflow[previous.value].leaf == page
      requires Apart(Now()) && page in visited
      modifies `nodes, `edges, `overflow, `orphaned, `candidates
      ensures ok ==> Now() == Recorded(old(Now()), x, page, rowId, previous)
      ensures ok <==> x !in old(overflow) && (x in old(nodes) ==> x !in tops && x !in visited && x !in old(edges))
    {
      if x in nodes {
        if x in tops || x in visited || x in edges { return false; }
        Forget(x);
      }
      if x in overflow { return false; }
      overflow := overflow[x := Owner(page, rowId, 0)];
      if previous.Some? {
        overflow := overflow[previous.value := overflow[previous.value].(next := x)];
      }
      return true;
    }

    /** Records the chains of all cells of a leaf. */
    method StoreChains(image: Image, tops: set<int>, page: int, cells: seq<Cell>, ghost r0: Run, ghost before: map<int, Node>)
      returns (ok: bool)
      requires Inv(Now(), image, tops, before) && page in visiting && Frame(r0, Now(), tops) && page !in r0.visited
      requires forall j :: 0 <= j < |cells| ==> ShapedCell(cells[j], image.usable)
      requires forall x :: x in overflow ==> overflow[x].leaf != page
      modifies `nodes, `edges, `overflow, `orphaned, `candidates
      ensures ok ==> Inv(Now(), image, tops, before) && Frame(r0, Now(), tops)
      ensures ok ==> page in nodes && nodes[page] == old(nodes[page]) && LeafStored(overflow, image, page, cells)
      ensures Storable(image, page, cells, old(overflow).Keys + old(nodes).Keys) ==>
        ok && edges == old(edges) && ChainsOnly(old(overflow).Keys, overflow.Keys, image, page, cells, |cells|)
    {
      hide Storable, ChainsOnly, Inv, Frame, PartChain, CellStored, Serves, ShapedCell, ShapedPage, Chain, AsSet;
      InvApart(Now(), image, tops, before, page);
      InvGood(Now(), image, tops, before);
      ghost var node, was := nodes[page], Now();
      ghost var free := Storable(image, page, cells, was.overflow.Keys + was.nodes.Keys);
      NoChains(was.overflow.Keys, image, page, cells);
      for j := 0 to |cells|
        invariant Inv(Now(), image, tops, before) && Frame(r0, Now(), tops) && page in nodes && nodes[page] == node
        invariant CellsStored(overflow, image, page, cells, j)
        invariant free ==> nodes == was.nodes && edges == was.edges && ChainsOnly(was.overflow.Keys, overflow.Keys, image, page, cells, j)
      {
        ghost var r := overflow;
        if free { ChainFree(image, page, cells, j, was.overflow.Keys, r.Keys, was.nodes.Keys); }
        ok := StoreChain(image, tops, page, cells[j], r0, before);
        if !ok { return false; }
        if free { ChainsMore(image, page, cells, j, was.overflow.Keys, r.Keys, overflow.Keys); }
        CellGrows(r, overflow, image, page, cells, j);
      }
      assert cells[..|cells|] == cells;
      return true;
    }

    method StoreChain(image: Image, tops: set<int>, page: int, cell: Cell, ghost r0: Run, ghost before: map<int, Node>)
      returns (ok: bool)
      requires Inv(Now(), image, tops, before) && page in visiting && Frame(r0, Now(), tops) && page !in r0.visited
      requires ShapedCell(cell, image.usable)
      modifies `nodes, `edges, `overflow, `orphaned, `candidates
      ensures ok ==> Inv(Now(), image, tops, before) && Frame(r0, Now(), tops) && page in nodes && nodes[page] == old(nodes[page])
      ensures ok ==> Chain(image, cell, page).Ok?
      ensures ok ==> var chain := Chain(image, cell, page).value;
                     PartChain(old(overflow), overflow, chain, |chain|, page, cell.rowId)
      ensures Chain(image, cell, page).Ok? && AsSet(Chain(image, cell, page).value) !! old(overflow).Keys + old(nodes).Keys ==>
        ok && nodes == old(nodes) && edges == old(edges) && overflow.Keys == old(overflow).Keys + AsSet(Chain(image, cell, page).value)
    {
      hide Inv, Frame, Apart, PartChain, OneMore, Recorded, Chain, ChainFrom, AsSet, LinksOnly, ShapedCell, LocalSize, ShapedPage;
      InvGood(Now(), image, tops, before);
      ChainDistinct(image, cell, page);
      var read := OverflowPages(image, cell, page);
      if read.Err? { return false; }
      var chain := read.value;
      InvApart(Now(), image, tops, before, page);
      ghost var was, node := overflow, nodes[page];
      NoneRecorded(was, chain, page, cell.rowId);
      ghost var free, start := AsSet(chain) !! overflow.Keys + nodes.Keys, Now();
      NoLinks(start, chain);
      for k := 0 to |chain|
        invariant Inv(Now(), image, tops, before) && Frame(r0, Now(), tops) && page in nodes && nodes[page] == node
        invariant PartChain(was, overflow, chain, k, page, cell.rowId)
        invariant free ==> LinksOnly(start, Now(), chain, k)
      {
        ghost var r := Now();
        if free { NextLink(start, r, chain, k); }
        ok := StoreLink(image, tops, chain, k, page, cell.rowId, r0, before, was);
        if !ok { return false; }
        if free { MoreLinks(start, r, Now(), chain, k); }
      }
      if free { AllLinks(start, Now(), chain); }
      return true;
    }

    /** Records page number `k` of a chain. */
    method StoreLink(image: Image, tops: set<int>, chain: seq<int>, k: nat, page: int, rowId: int,
                     ghost r0: Run, ghost before: map<int, Node>, ghost was: map<int, Owner>) returns (ok: bool)
      requires Inv(Now(), image, tops, before) && page in visiting && page in nodes && Frame(r0, Now(), tops) && page !in r0.visited
      requires k < |chain| && Distinct(chain) && PartChain(was, overflow, chain, k, page, rowId)
      modifies `nodes, `edges, `overflow, `orphaned, `candidates
      ensures ok ==> Inv(Now(), image, tops, before) && Frame(r0, Now(), tops) && page in nodes && nodes[page] == old(nodes[page])
      ensures ok ==> PartChain(was, overflow, chain, k + 1, page, rowId)
      ensures chain[k] !in old(overflow) && chain[k] !in old(nodes) ==>
        ok && nodes == old(nodes) && edges == old(edges) && overflow.Keys == old(overflow).Keys + {chain[k]}
    {
      hide Inv, Frame, Apart, PartChain, OneMore, Recorded;
      var previous := if k == 0 then None else Some(chain[k - 1]);
      ghost var r := Now();
      if k > 0 { RecordedAt(was, overflow, chain, k, page, rowId, k - 1); }
      InvApart(r, image, tops, before, page);
      ok := StorePage(tops, chain[k], page, rowId, previous);
      if !ok { return false; }
      if chain[k] !in r.nodes { RecordedNew(r, chain[k], page, rowId, previous); }
      RecordKeeps(r0, r, chain[k], page, rowId, previous, image, tops, before);
      RecordedMore(r, chain[k], page, rowId, previous);
      ChainGrows(was, r.overflow, overflow, chain, k, page, rowId);
      InvApart(Now(), image, tops, before, page);
    }

    // ---- Visits ----

    /** Visits a page and everything below it that is not already settled; gives its least and greatest row ids. */
    method Visit(image: Image, tops: set<int>, page: int, name: string, lower: Option<int>, upper: Option<int>,
                 full: bool, ghost before: map<int, Node>) returns (r: Result<Extent, PageError>)
      requires Inv(Now(), image, tops, before) && (full ==> before == map[])
      requires page in tops || (page in edges && edges[page].parent in visited && Rank(rank, edges[page].parent) < |visiting|)
      modifies `nodes, `edges, `overflow, `needed, `orphaned, `visiting, `visited, `candidates, `rank
      ensures r.Ok? ==> Inv(Now(), image, tops, before) && Frame(old(Now()), Now(), tops) && visiting == old(visiting)
      ensures r.Ok? ==> Settled(Now(), page) && nodes[page].name == name && r.value == (nodes[page].minimum, nodes[page].maximum)
      ensures r.Ok? ==> BoundsOk(r.value.0, r.value.1, lower, upper)
      ensures full && r.Ok? ==> Went(old(Now()), Now(), image, Pending(page, lower, upper), 64 - |visiting|)
      ensures full && Open(old(Now()), image, tops, Pending(page, lower, upper)) ==>
        r.Ok? && Tidy(old(Now()), Now(), image, [Pending(page, lower, upper)])
      decreases 64 - |visiting|, 1
    {
      hide Inv, Frame, Ready, Open, Went, Tidy, GoodImage;
      InvGood(Now(), image, tops, before);
      if full && Open(Now(), image, tops, Pending(page, lower, upper)) { OpenReads(Now(), image, tops, Pending(page, lower, upper)); }
      if page in visited || |visiting| >= 64 { return Err(PageUnavailable); }
      if !full && page in nodes && page !in needed {
        if nodes[page].name != name || !BoundsOk(nodes[page].minimum, nodes[page].maximum, lower, upper) {
          return Err(PageUnavailable);
        }
        SettledAlready(Now(), image, tops, page, before);
        return Ok((nodes[page].minimum, nodes[page].maximum));
      }
      if page in overflow { return Err(PageUnavailable); }
      ReadyToVisit(Now(), image, tops, page, before);
      r := Read(image, tops, page, name, lower, upper, full, before);
    }

    /** Reads a page anew, and everything below it. */
    method Read(image: Image, tops: set<int>, page: int, name: string, lower: Option<int>, upper: Option<int>,
                full: bool, ghost before: map<int, Node>) returns (r: Result<Extent, PageError>)
      requires Inv(Now(), image, tops, before) && (full ==> before == map[]) && Ready(Now(), page, tops)
      modifies `nodes, `edges, `overflow, `needed, `orphaned, `visiting, `visited, `candidates, `rank
      ensures r.Ok? ==> Inv(Now(), image, tops, before) && Frame(old(Now()), Now(), tops) && visiting == old(visiting)
      ensures r.Ok? ==> Settled(Now(), page) && nodes[page].name == name && r.value == (nodes[page].minimum, nodes[page].maximum)
      ensures r.Ok? ==> BoundsOk(r.value.0, r.value.1, lower, upper)
      ensures full && r.Ok? ==> Went(old(Now()), Now(), image, Pending(page, lower, upper), 64 - |visiting|)
      ensures full && Open(old(Now()), image, tops, Pending(page, lower, upper)) ==>
        r.Ok? && Tidy(old(Now()), Now(), image, [Pending(page, lower, upper)])
      decreases 64 - |visiting|, 0
    {
      hide Inv, Frame, Inside, Complete, Open, Went, Tidy, KeysOk, BoundsOk, Started, Shallow, GoodImage, Begun, InBounds, PageKeys;
      InvGood(Now(), image, tops, before);
      ghost var e := Pending(page, lower, upper);
      if full && Open(Now(), image, tops, e) { OpenReads(Now(), image, tops, e); }
      if page !in image.tree { return Err(PageUnavailable); }
      var t := image.tree[page];
      if !KeysOk(t, lower, upper) { return Err(PageUnavailable); }
      ghost var r0 := Now();
      BeginInside(r0, image, tops, page, name, before);
      BegunStarted(r0, image, page, name, lower, upper);
      Begin(page, name, t);
      r := Expand(image, tops, page, name, t, lower, upper, full, r0, before);
      if r.Err? { return r; }
      if !BoundsOk(r.value.0, r.value.1, lower, upper) { return Err(PageUnavailable); }
      EndKeeps(r0, Now(), page, r.value.0, r.value.1, image, tops, before);
      ghost var s := Now();
      End(page, r.value.0, r.value.1);
      if full { EndWent(r0, s, Now(), image, e); }
    }

    method End(page: int, low: Option<int>, high: Option<int>)
      requires page in nodes
      modifies `nodes, `visiting
      ensures Now() == Ended(old(Now()), page, low, high)
    {
      nodes := nodes[page := nodes[page].(minimum := low, maximum := high)];
      visiting := visiting - {page};
    }

    /** Records everything below a page whose visit has begun. */
    method Expand(image: Image, tops: set<int>, page: int, name: string, t: TreePage, lower: Option<int>, upper: Option<int>,
                  full: bool, ghost r0: Run, ghost before: map<int, Node>) returns (r: Result<Extent, PageError>)
      requires Inside(Now(), image, tops, page, name, t, r0, before) && (full ==> before == map[])
      requires Started(r0, Now(), image, Pending(page, lower, upper)) && KeysOk(t, lower, upper)
      modifies `nodes, `edges, `overflow, `needed, `orphaned, `visiting, `visited, `candidates, `rank
      ensures r.Ok? ==> Inv(Now(), image, tops, before) && Frame(r0, Now(), tops) && visiting == old(visiting)
      ensures r.Ok? ==> Complete(Now(), image, page, r.value.0, r.value.1) && page in nodes && nodes[page].name == name
      ensures r.Ok? ==> BoundsOk(r.value.0, r.value.1, lower, upper)
      ensures full && r.Ok? ==> Went(r0, Now(), image, Pending(page, lower, upper), 64 - |r0.visiting|)
      ensures full && Open(r0, image, tops, Pending(page, lower, upper)) ==>
        r.Ok? && Tidy(r0, Now(), image, [Pending(page, lower, upper)])
      decreases 64 - |visiting|, 4
    {
      hide Inside, Inv, Frame, Complete, Surveyed, LeafStored, ShapedPage, ShapedCell, KeysOk, BoundsOk, Started, Open, Went, Tidy,
           Shallow, Storable, ChainsOnly, Walked, Clear, Pushed, GoodImage;
      LeafInside(Now(), image, tops, page, name, t, r0, before);
      ghost var e, m := Pending(page, lower, upper), Now();
      if t.children != [] {
        if full && Open(r0, image, tops, e) { OpenBelow(r0, m, image, tops, e); }
        r := VisitChildren(image, tops, page, name, t, lower, upper, full, r0, before);
        if r.Ok? {
          AllVisited(Now(), image, tops, page, name, t, r0, r.value, before);
          if full { InteriorWent(r0, m, Now(), image, e); }
        }
      } else {
        ghost var node := nodes[page];
        if full { AllNew(m, image, tops); }
        if full && Open(r0, image, tops, e) { OpenLeaf(r0, m, image, tops, e); }
        var ok := StoreChains(image, tops, page, t.cells, r0, before);
        if !ok { return Err(PageUnavailable); }
        LeafComplete(Now(), image, page, t, node);
        LeafWithin(image, page, lower, upper);
        LeafWent(r0, m, Now(), image, e);
        return Ok((LowRow(CellRows(t.cells)), HighRow(CellRows(t.cells))));
      }
    }

    method Begin(page: int, name: string, t: TreePage)
      modifies `nodes, `edges, `overflow, `orphaned, `visiting, `visited, `candidates, `rank
      ensures Now() == Begun(old(Now()), page, name, t)
    {
      hide RowsOf, WithoutParent, WithoutLeaf, ChildrenOf, Fresh, Begun;
      ghost var r := Now();
      rank := rank[page := |visiting|];
      visiting := visiting + {page};
      visited := visited + {page};
      candidates := candidates + if page in nodes then RowsOf(nodes[page]) else {};
      Replace(page, name, t);
      BegunIs(r, Now(), page, name, t);
    }

    /** The page's edges, chains and node give way to the decoded page. */
    method Replace(page: int, name: string, t: TreePage)
      modifies `nodes, `edges, `overflow, `orphaned, `candidates
      ensures nodes == old(nodes)[page := Fresh(name, t)] && edges == WithoutParent(old(edges), page)
      ensures overflow == WithoutLeaf(old(overflow), page) && orphaned == old(orphaned) + ChildrenOf(old(edges), page)
      ensures candidates == old(candidates) + RowsOf(Fresh(name, t))
    {
      CutEdges(page);
      overflow := WithoutLeaf(overflow, page);
      nodes := nodes[page := Fresh(name, t)];
      candidates := candidates + RowsOf(nodes[page]);
    }

    method VisitChildren(image: Image, tops: set<int>, page: int, name: string, t: TreePage, lower: Option<int>, upper: Option<int>,
                         full: bool, ghost r0: Run, ghost before: map<int, Node>) returns (r: Result<Extent, PageError>)
      requires Inside(Now(), image, tops, page, name, t, r0, before) && (full ==> before == map[])
      requires GoodImage(image) && page in image.tree && t == image.tree[page] && KeysOk(t, lower, upper) && t.children != []
      modifies `nodes, `edges, `overflow, `needed, `orphaned, `visiting, `visited, `candidates, `rank
      ensures r.Ok? ==> Inside(Now(), image, tops, page, name, t, r0, before) && visiting == old(visiting)
      ensures r.Ok? ==> Surveyed(Now(), image, page, |t.children|, r.value) && BoundsOk(r.value.0, r.value.1, lower, upper)
      ensures full && r.Ok? ==> Walked(old(Now()), Now(), image, Pushed(image, [Pending(page, lower, upper)]))
      ensures full && r.Ok? ==> forall c :: c in Pushed(image, [Pending(page, lower, upper)]) ==> Shallow(image, c.page, 64 - |visiting|)
      ensures full && Clear(old(Now()), image, tops, Pushed(image, [Pending(page, lower, upper)]), 64 - |old(visiting)|)
              && old(edges).Keys <= old(visited) ==>
        r.Ok? && Tidy(old(Now()), Now(), image, Pushed(image, [Pending(page, lower, upper)]))
      decreases 64 - |visiting|, 3
    {
      hide Inside, Surveyed, KeysOk, BoundsOk, Upto, Onwards, Clear, Tidy, Walked, Went, Shallow, GoodImage, Pushed, ChildPending;
      NoRows(lower, upper);
      var extent: Extent := (None, None);
      BeginSurvey(Now(), image, tops, page, name, t, r0, before);
      ghost var b, stack, levels := Now(), Pushed(image, [Pending(page, lower, upper)]), 64 - |visiting|;
      ghost var open := full && Clear(b, image, tops, stack, levels) && b.edges.Keys <= b.visited;
      BeginUpto(b, image, tops, stack, levels);
      PushedAre(image, page, lower, upper);
      for i := 0 to |t.children|
        invariant Inside(Now(), image, tops, page, name, t, r0, before) && visiting == old(visiting)
        invariant Surveyed(Now(), image, page, i, extent) && BoundsOk(extent.0, extent.1, lower, upper)
        invariant full ==> Upto(b, Now(), image, stack, i, levels)
        invariant open ==> Onwards(b, Now(), image, tops, stack, i, levels)
      {
        ghost var m := Now();
        if open { NextUp(b, m, image, tops, stack, i, levels); }
        var one := VisitChild(image, tops, page, name, t, i, extent, lower, upper, full, r0, before);
        if one.Err? { return one; }
        if full { StepUp(b, m, Now(), image, tops, stack, i, levels); }
        extent := one.value;
      }
      if full { AllUp(b, Now(), image, tops, stack, levels); }
      return Ok(extent);
    }

    method VisitChild(image: Image, tops: set<int>, page: int, name: string, t: TreePage, i: nat, extent: Extent,
                      lower: Option<int>, upper: Option<int>, full: bool, ghost r0: Run, ghost before: map<int, Node>)
      returns (r: Result<Extent, PageError>)
      requires Inside(Now(), image, tops, page, name, t, r0, before) && (full ==> before == map[])
      requires i < |t.children| && i <= |t.separators| && Surveyed(Now(), image, page, i, extent)
      requires GoodImage(image) && page in image.tree && t == image.tree[page] && KeysOk(t, lower, upper)
      requires BoundsOk(extent.0, extent.1, lower, upper)
      modifies `nodes, `edges, `overflow, `needed, `orphaned, `visiting, `visited, `candidates, `rank
      ensures r.Ok? ==> Inside(Now(), image, tops, page, name, t, r0, before) && visiting == old(visiting)
      ensures r.Ok? ==> Surveyed(Now(), image, page, i + 1, r.value) && BoundsOk(r.value.0, r.value.1, lower, upper)
      ensures full && r.Ok? ==> Went(old(Now()), Now(), image, ChildPending(t, lower, upper, i), 64 - |visiting|)
      ensures full && Clear(old(Now()), image, tops, [ChildPending(t, lower, upper, i)], 64 - |old(visiting)|)
              && old(edges).Keys <= old(visited) ==>
        r.Ok? && Tidy(old(Now()), Now(), image, [ChildPending(t, lower, upper, i)])
      decreases 64 - |visiting|, 2
    {
      hide Inside, Inv, Frame, Surveyed, Ancestry, Widen, KeysOk, BoundsOk, BoundAt, Clear, Open, GoodImage, Shallow, Attached;
      var child := t.children[i];
      ghost var clear := full && Clear(Now(), image, tops, [ChildPending(t, lower, upper, i)], 64 - |visiting|) && edges.Keys <= visited;
      if clear { ClearChild(Now(), image, tops, ChildPending(t, lower, upper, i)); }
      if child in tops { return Err(PageUnavailable); }
      var e := ChildEdge(page, t, lower, upper, i);
      ghost var a := Now();
      var linked := Link(tops, child, e);
      if linked.Err? { return Err(linked.error); }
      ghost var b := Now();
      Linking(r0, a, image, tops, page, name, t, i, extent, e, linked.value, before);
      AttachedIs(a, child, e, linked.value);
      if clear { LinkOpens(a, b, image, tops, ChildPending(t, lower, upper, i)); }
      r := Visit(image, tops, child, name, e.lower, e.upper, full, before);
      if r.Err? { return r; }
      if full { LinkWent(a, b, Now(), image, ChildPending(t, lower, upper, i), 64 - |visiting|); }
      ChildVisited(r0, b, Now(), image, tops, page, name, t, i, extent, lower, upper, before);
      ChildWithin(image, page, lower, upper, i, r.value.0, r.value.1);
      WidenWithin(extent, r.value, lower, upper);
      return Ok(Widen(extent, r.value));
    }

    // ---- A run ----

    /** The upward closure of the pages that changed or vanished and of the owners of such chain pages. */
    method Close(changed: set<int>, pageCount: int)
      requires forall c :: c in edges ==> edges[c].parent in nodes
      requires forall x :: x in overflow ==> overflow[x].leaf in nodes
      modifies `needed
      ensures NeedsClosed(Stored(), pageCount, changed, needed) && needed <= nodes.Keys
      ensures Untroubled(Stored(), pageCount, changed) ==> needed == {}
    {
      hide Closing, Dirty, NeedsClosed, Untroubled;
      var pending := Dirty(Graph(nodes, edges, overflow), pageCount, changed);
      ghost var g, first := Stored(), pending;
      needed := {};
      StartClosing(g, pageCount, changed);
      NothingDirty(g, pageCount, changed);
      while pending != {}
        invariant first == {} ==> pending == {} && needed == {}
        invariant Closing(g, first, needed, pending)
        decreases |g.nodes.Keys - needed|, |pending|
      {
        Inhabited(pending);
        var page :| page in pending;
        var up := if page in edges then {edges[page].parent} else {};
        CloseStep(g, first, needed, pending, page, up);
        if page in needed {
          pending := pending - {page};
        } else {
          needed, pending := needed + {page}, pending - {page} + up;
        }
      }
      Closed(g, pageCount, changed, needed);
    }

    /** Everything below the needed pages is cut loose; their rows are candidates. */
    method CutNeeded()
      requires orphaned == {} && candidates == {}
      modifies `edges, `overflow, `orphaned, `candidates
      ensures edges == CutAll(old(edges), needed) && overflow == DropAll(old(overflow), needed)
      ensures orphaned == ParentedBy(old(edges), needed) && candidates == RowsAmong(nodes, needed)
    {
      hide CutAll, DropAll, ParentedBy, RowsAmong, WithoutParent, WithoutLeaf, ChildrenOf;
      var left := needed;
      ghost var cut: set<int> := {};
      CutNone(edges, overflow, nodes);
      while left != {}
        invariant cut + left == needed
        invariant edges == CutAll(old(edges), cut) && overflow == DropAll(old(overflow), cut)
        invariant orphaned == ParentedBy(old(edges), cut) && candidates == RowsAmong(nodes, cut)
        decreases |left|
      {
        Inhabited(left);
        var page :| page in left;
        CutOne(old(edges), old(overflow), nodes, cut, page);
        candidates := candidates + if page in nodes then RowsOf(nodes[page]) else {};
        CutEdges(page);
        overflow := WithoutLeaf(overflow, page);
        cut, left := cut + {page}, left - {page};
      }
    }

    /** Visits the roots that need it. */
    method VisitRoots(image: Image, newRoots: map<string, int>, full: bool, ghost before: map<int, Node>) returns (ok: bool)
      requires Inv(Now(), image, newRoots.Values, before) && visiting == {} && (full ==> before == map[])
      requires full || RootsReady(Now(), newRoots)
      modifies `nodes, `edges, `overflow, `needed, `orphaned, `visiting, `visited, `candidates, `rank
      ensures ok ==> Inv(Now(), image, newRoots.Values, before) && visiting == {} && old(needed) <= needed
      ensures ok ==> RootsSettled(Now(), newRoots)
      ensures full && ok ==> RootsGone(image, newRoots, newRoots.Keys, visited)
      ensures full && RootsOnly(image, newRoots, {}, old(Now())) && Buildable(image, newRoots) ==> ok
      ensures !full && old(needed) == {} ==> ok
    {
      hide Inv, Frame, RootsReady, RootsSettled, RootsGone, RootsOnly, Buildable, AtRoots, ShapedPage;
      var left := newRoots.Keys;
      ghost var start := Now();
      InvGood(start, image, newRoots.Values, before);
      ghost var clear := full && RootsOnly(image, newRoots, {}, start) && Buildable(image, newRoots);
      AtStart(start, image, newRoots, before, full, clear);
      while left != {}
        invariant Inv(Now(), image, newRoots.Values, before) && visiting == {} && left <= newRoots.Keys
        invariant AtRoots(start, Now(), image, newRoots, left, full, clear)
        decreases |left|
      {
        InhabitedNames(left);
        var name :| name in left;
        ok := VisitRoot(image, newRoots, name, full, before, start, left, clear);
        if !ok { return; }
        left := left - {name};
      }
      AtEnd(start, Now(), image, newRoots, full, clear);
      return true;
    }

    /** Visits one root, if it needs it. */
    method VisitRoot(image: Image, newRoots: map<string, int>, name: string, full: bool, ghost before: map<int, Node>,
                     ghost start: Run, ghost left: set<string>, ghost clear: bool) returns (ok: bool)
      requires Inv(Now(), image, newRoots.Values, before) && visiting == {} && (full ==> before == map[])
      requires name in left && left <= newRoots.Keys && GoodImage(image) && AtRoots(start, Now(), image, newRoots, left, full, clear)
      modifies `nodes, `edges, `overflow, `needed, `orphaned, `visiting, `visited, `candidates, `rank
      ensures ok ==> Inv(Now(), image, newRoots.Values, before) && visiting == {}
      ensures ok ==> AtRoots(start, Now(), image, newRoots, left - {name}, full, clear)
      ensures clear || (!full && start.needed == {}) ==> ok
    {
      hide Inv, Frame, AtRoots, Open, Went, Tidy, ShapedPage, BoundsOk;
      ghost var r := Now();
      AtRoot(start, r, image, newRoots, left, full, clear, name);
      if full || newRoots[name] in needed {
        var one := Visit(image, newRoots.Values, newRoots[name], name, None, None, full, before);
        if one.Err? { return false; }
        AtNext(start, r, Now(), image, newRoots, left, full, clear, name);
      }
      return true;
    }

    /** Forgets what hangs from nothing. */
    method Sweep(image: Image, newRoots: map<string, int>, ghost before: map<int, Node>)
      requires Inv(Now(), image, newRoots.Values, before) && visiting == {} && RootsSettled(Now(), newRoots)
      modifies `nodes, `edges, `overflow, `orphaned, `candidates
      ensures Inv(Now(), image, newRoots.Values, before) && orphaned == {} && RootsSettled(Now(), newRoots)
    {
      hide Inv, Frame, RootsSettled, Forgotten;
      while orphaned != {}
        invariant Inv(Now(), image, newRoots.Values, before) && RootsSettled(Now(), newRoots)
        decreases |nodes|, |orphaned|
      {
        Inhabited(orphaned);
        var page :| page in orphaned;
        ghost var r := Now();
        SweepKeeps(r, page, image, newRoots.Values, before);
        RootsHeld(r, Swept(r, page, newRoots.Values), newRoots);
        SweepShrinks(r, page, newRoots.Values);
        orphaned := orphaned - {page};
        if page !in newRoots.Values && page !in edges { Forget(page); }
      }
    }

    // ---- Build and update ----

    /** Visits and sweep over cleared tables. */
    method Rebuild(image: Image, newRoots: map<string, int>) returns (ok: bool)
      requires GoodImage(image)
      modifies `nodes, `edges, `overflow, `needed, `orphaned, `visiting, `visited, `candidates, `rank
      ensures ok ==> Exact(Stored(), image, newRoots, rank) && AllListed(Stored(), candidates)
      ensures ok <==> Buildable(image, newRoots)
    {
      nodes, edges, overflow, rank := map[], map[], map[], map[];
      needed, orphaned, visiting, visited, candidates := {}, {}, {}, {}, {};
      hide *;
      assert Inv(Now(), image, newRoots.Values, map[]) && RootsOnly(image, newRoots, {}, Now()) by {
        assert Now() == Run(map[], map[], map[], {}, {}, {}, {}, {}, map[]);
        StartEmpty(image, newRoots.Values);
        NothingUsed(image, newRoots);
      }
      ok := VisitRoots(image, newRoots, true, map[]);
      if !ok { return; }
      Sweep(image, newRoots, map[]);
      BuildOutcome(Now(), image, newRoots);
      AllNew(Now(), image, newRoots.Values);
      GoneBuildable(Stored(), image, newRoots, rank, visited);
    }

    /** Leaves the tables without anything that hangs from a needed page. */
    method Prepare(changed: set<int>, pageCount: int, ghost was: Image)
      requires Exact(Stored(), was, roots, rank)
      modifies `edges, `overflow, `needed, `orphaned, `visiting, `visited, `candidates, `rank
      ensures NeedsClosed(old(Stored()), pageCount, changed, needed) && Now() == Start(old(Stored()), old(rank), needed)
      ensures Untroubled(old(Stored()), pageCount, changed) ==> needed == {}
    {
      hide Untroubled, Exact, CutAll, DropAll, ParentedBy, RowsAmong, Deepened, NeedsClosed;
      ParentsKnown(Stored(), was, roots, rank);
      orphaned, visiting, visited, candidates := {}, {}, {}, {};
      Close(changed, pageCount);
      ghost var g := Stored();
      CutNeeded();
      rank := Deepened(g, rank);
    }

    /** Visits and sweep over the needed closure of the changed pages. */
    method Repair(image: Image, changed: set<int>) returns (ok: bool)
      requires Exact(Stored(), source, roots, rank) && GoodImage(image) && Agree(Stored(), source, image, changed)
      modifies `nodes, `edges, `overflow, `needed, `orphaned, `visiting, `visited, `candidates, `rank
      ensures ok ==> Exact(Stored(), image, roots, rank)
      ensures ok ==> GoodImage(source) && NoneMissed(old(Stored()), Stored(), source, image, changed, candidates)
      ensures Untroubled(old(Stored()), image.pageCount, changed) ==> ok
    {
      hide Inv, RootsSettled, Exact, Agree, RootsReady, CutAll, DropAll, ParentedBy, RowsAmong, Deepened, NoneMissed, NeedsClosed,
           Untroubled, ShapedPage, RootsGone, RootsOnly, Buildable;
      ghost var g, depth := Stored(), rank;
      ParentsKnown(g, source, roots, rank);
      Prepare(changed, image.pageCount, source);
      ghost var first := needed;
      StartKeeps(g, source, image, roots, depth, changed, needed);
      RootsAtStart(g, source, roots, depth, needed);
      ok := VisitRoots(image, roots, false, g.nodes);
      if !ok { return; }
      Sweep(image, roots, g.nodes);
      UpdateOutcome(g, Now(), source, image, roots, depth, changed, first);
    }

    /** One transaction: on any failure the tables are as before. */
    method Apply(image: Image, newRoots: map<string, int>, changed: Option<set<int>>, expected: string,
                 point: string, pageSize: int, schemaTag: string, stable: bool)
      returns (r: Result<set<(string, int)>, PageError>)
      requires Valid() && GoodImage(image)
      requires changed.Some? && state.Some? && image.usable == source.usable ==> Agree(Stored(), source, image, changed.value)
      modifies this
      ensures Valid()
      ensures r.Err? ==> Stored() == old(Stored()) && state == old(state) && roots == old(roots) && source == old(source)
      ensures r.Ok? ==> state == Some(State(point, pageSize, image.usable, schemaTag)) && roots == newRoots && source == image
      ensures r.Ok? ==> Exact(Stored(), image, newRoots, rank)
      ensures r.Ok? && changed.None? ==> AllListed(Stored(), r.value)
      ensures r.Ok? && changed.Some? ==>
        && old(state) == Some(State(expected, pageSize, image.usable, schemaTag)) && old(roots) == newRoots
        && GoodImage(old(source)) && NoneMissed(old(Stored()), Stored(), old(source), image, changed.value, r.value)
      ensures changed.None? ==> (r.Ok? <==> stable && Buildable(image, newRoots))
      ensures r.Ok? ==> stable
      ensures changed.Some? && stable && old(state) == Some(State(expected, pageSize, image.usable, schemaTag)) ==>
        old(roots) == newRoots && Untroubled(old(Stored()), image.pageCount, changed.value) ==> r.Ok?
    {
      hide Exact, Agree, NoneMissed, AllListed, Buildable, Untroubled;
      if changed.Some? && (state != Some(State(expected, pageSize, image.usable, schemaTag)) || roots != newRoots) {
        return Err(PageUnavailable);
      }
      var savedNodes, savedEdges, savedOverflow := nodes, edges, overflow;
      ghost var savedRank := rank;
      var ok;
      if changed.None? {
        if Buildable(image, newRoots) { BuildableDistinct(image, newRoots); }
        ok := |newRoots.Values| == |newRoots.Keys|;
        if ok { ok := Rebuild(image, newRoots); }
      } else {
        ok := Repair(image, changed.value);
      }
      if !ok || !stable {
        nodes, edges, overflow, rank := savedNodes, savedEdges, savedOverflow, savedRank;
        return Err(PageUnavailable);
      }
      state, roots, source := Some(State(point, pageSize, image.usable, schemaTag)), newRoots, image;
      return Ok(candidates);
    }

    /**
     Afterwards the tables are exact for the image, and every row of every table is a candidate. A build returns exactly when
     the image stayed stable, every table is accepted on its own, and no two tables share a page.
     */
    method Build(image: Image, newRoots: map<string, int>, point: string, pageSize: int, schemaTag: string, stable: bool)
      returns (r: Result<set<(string, int)>, PageError>)
      requires Valid() && GoodImage(image)
      modifies this
      ensures Valid()
      ensures r.Err? ==> Stored() == old(Stored()) && state == old(state) && roots == old(roots) && source == old(source)
      ensures r.Ok? ==> state == Some(State(point, pageSize, image.usable, schemaTag)) && roots == newRoots && source == image
      ensures r.Ok? ==> Exact(Stored(), image, newRoots, rank) && AllListed(Stored(), r.value)
      ensures r.Ok? <==> stable && Buildable(image, newRoots)
    {
      hide Exact, AllListed, Buildable;
      r := Apply(image, newRoots, None, "", point, pageSize, schemaTag, stable);
    }

    /**
     Afterwards the tables are exact for the new image, and a row outside the result is where it was,
     on pages that did not change. An update never returns from an image that changed meanwhile, and always returns
     from the expected state when no page that the tables use has changed or vanished.
     */
    method Update(image: Image, newRoots: map<string, int>, changed: set<int>, expected: string,
                  point: string, pageSize: int, schemaTag: string, stable: bool)
      returns (r: Result<set<(string, int)>, PageError>)
      requires Valid() && GoodImage(image)
      requires state.Some? && image.usable == source.usable ==> Agree(Stored(), source, image, changed)
      modifies this
      ensures Valid()
      ensures r.Err? ==> Stored() == old(Stored()) && state == old(state) && roots == old(roots) && source == old(source)
      ensures r.Ok? ==> state == Some(State(point, pageSize, image.usable, schemaTag)) && roots == newRoots && source == image
      ensures r.Ok? ==> Exact(Stored(), image, newRoots, rank)
      ensures r.Ok? ==>
        && old(state) == Some(State(expected, pageSize, image.usable, schemaTag)) && old(roots) == newRoots
        && GoodImage(old(source)) && NoneMissed(old(Stored()), Stored(), old(source), image, changed, r.value)
      ensures r.Ok? ==> stable
      ensures stable && old(state) == Some(State(expected, pageSize, image.usable, schemaTag)) ==>
        old(roots) == newRoots && Untroubled(old(Stored()), image.pageCount, changed) ==> r.Ok?
    {
      hide Exact, Agree, NoneMissed, Untroubled;
      r := Apply(image, newRoots, Some(changed), expected, point, pageSize, schemaTag, stable);
    }
  }
}
