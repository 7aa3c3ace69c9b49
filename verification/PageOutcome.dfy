/** What a finished run proves: its tables are exact for the new image, and its candidates miss no change. */
module PageOutcome {
  import opened Wrappers
  import opened Pages
  import opened PageImages
  import opened PageGraph
  import opened PageRun
  import opened PageBaseline

  function Tables(r: Run): Graph { Graph(r.nodes, r.edges, r.overflow) }

  ghost predicate RootsSettled(r: Run, roots: map<string, int>) {
    forall name :: name in roots ==> Settled(r, roots[name]) && r.nodes[roots[name]].name == name
  }

  lemma RootsHeld(r: Run, s: Run, roots: map<string, int>)
    requires Frame(r, s, roots.Values) && RootsSettled(r, roots)
    ensures RootsSettled(s, roots)
  {
    forall name | name in roots ensures Settled(s, roots[name]) && s.nodes[roots[name]].name == name {
      assert roots[name] in roots.Values;
      assert Pinned(r, roots.Values, roots[name]);
    }
  }

  lemma RootsStay(r: Run, s: Run, roots: map<string, int>)
    requires Frame(r, s, roots.Values)
    ensures r.needed <= s.needed
    ensures forall name :: name in roots && RootKnown(r, roots[name], name) ==> RootKnown(s, roots[name], name)
  {
    forall name | name in roots && RootKnown(r, roots[name], name) ensures RootKnown(s, roots[name], name) {
      assert roots[name] in roots.Values;
      RootStays(r, s, roots.Values, roots[name], name);
    }
  }

  lemma KnownRoot(r: Run, root: int, name: string)
    requires Settled(r, root) && r.nodes[root].name == name
    ensures RootKnown(r, root, name)
  {
  }

  lemma KnownRoots(r: Run, roots: map<string, int>)
    requires forall name :: name in roots ==> RootKnown(r, roots[name], name)
    ensures RootsSettled(r, roots)
  {
    assert forall name :: name in roots ==> RootKnown(r, roots[name], name);
  }

  lemma NeededGrow(r: Run, s: Run, tops: set<int>)
    requires Frame(r, s, tops)
    ensures r.needed <= s.needed
  {
  }

  lemma NoChange(r: Run, image: Image, tops: set<int>, before: map<int, Node>)
    requires Inv(r, image, tops, before)
    ensures Frame(r, r, tops)
  {
  }

  lemma SweepShrinks(r: Run, page: int, tops: set<int>)
    requires page in r.orphaned
    ensures var s := Swept(r, page, tops);
            |s.nodes| < |r.nodes| || (s.nodes == r.nodes && |s.orphaned| < |r.orphaned|)
  {
    var s := Swept(r, page, tops);
    if s.nodes != r.nodes {
      Shrinks(r.nodes.Keys, page);
      assert s.nodes.Keys == r.nodes.Keys - {page};
      Sizes(s.nodes);
      Sizes(r.nodes);
    }
  }

  lemma Sizes(m: map<int, Node>)
    ensures |m| == |m.Keys|
  {
  }

  /** Nothing is left that a needed page would hang from but a table root. */
  lemma {:induction false} NodeSettled(r: Run, image: Image, roots: map<string, int>, before: map<int, Node>, p: int)
    requires Inv(r, image, roots.Values, before) && RootsSettled(r, roots) && r.visiting == {} && r.orphaned == {}
    requires p in r.nodes
    ensures Settled(r, p)
    decreases Rank(r.rank, p)
  {
    if p in r.edges {
      var e := r.edges[p];
      NodeSettled(r, image, roots, before, e.parent);
      assert EdgeHeld(r.nodes, e, p) && ChildrenSettled(r, e.parent);
    } else {
      var name :| name in roots && roots[name] == p;
    }
  }

  lemma FinalEdges(r: Run, image: Image, roots: map<string, int>, before: map<int, Node>, c: int)
    requires Inv(r, image, roots.Values, before) && (forall p :: p in r.nodes ==> Settled(r, p)) && c in r.edges
    ensures c in r.nodes && r.edges[c].parent in r.nodes && EdgeHeld(r.nodes, r.edges[c], c)
  {
    var e := r.edges[c];
    assert e.parent in r.nodes;
    assert Settled(r, e.parent) && EdgeHeld(r.nodes, e, c) && ChildrenSettled(r, e.parent);
    assert c in r.nodes[e.parent].children;
  }

  lemma FinalNodes(r: Run, image: Image, roots: map<string, int>, before: map<int, Node>)
    requires Inv(r, image, roots.Values, before) && RootsSettled(r, roots) && r.visiting == {} && r.orphaned == {}
    ensures forall p :: p in r.nodes ==> Settled(r, p) && Done(r.nodes, r.edges, r.overflow, image, p)
    ensures forall p :: p in r.nodes ==> p in roots.Values || p in r.edges
  {
    forall p | p in r.nodes ensures Settled(r, p) { NodeSettled(r, image, roots, before, p); }
  }

  lemma FinalExact(r: Run, image: Image, roots: map<string, int>, before: map<int, Node>)
    requires Inv(r, image, roots.Values, before) && RootsSettled(r, roots) && r.visiting == {} && r.orphaned == {}
    ensures Exact(Tables(r), image, roots, r.rank)
    ensures forall p :: p in r.nodes ==> p in r.visited || p !in r.needed
  {
    FinalNodes(r, image, roots, before);
    forall c | c in r.edges ensures c in r.nodes && EdgeHeld(r.nodes, r.edges[c], c) { FinalEdges(r, image, roots, before, c); }
    forall name | name in roots ensures Settled(r, roots[name]) && roots[name] !in r.edges { assert roots[name] in roots.Values; }
    assert forall p :: p in r.nodes ==> Settled(r, p);
  }

  // ---- Candidates ----

  /** Table `name` holds row `rowId` as this cell of this leaf. */
  ghost predicate Holds(g: Graph, name: string, leaf: int, j: int) {
    leaf in g.nodes && g.nodes[leaf].name == name && 0 <= j < |g.nodes[leaf].cells|
  }

  /**
   Row `rowId` sits at the same place in both graphs, if anywhere, and no byte of it can have changed:
   neither its leaf nor any page of its chain is a changed page.
   */
  ghost predicate Unmoved(g: Graph, h: Graph, was: Image, image: Image, changed: set<int>, name: string, rowId: int)
    requires 480 <= was.usable && 480 <= image.usable
  {
    forall leaf, j ::
      && ((Holds(g, name, leaf, j) && g.nodes[leaf].cells[j].rowId == rowId) <==> (Holds(h, name, leaf, j) && h.nodes[leaf].cells[j].rowId == rowId))
      && (Holds(g, name, leaf, j) && g.nodes[leaf].cells[j].rowId == rowId ==>
            && leaf in h.nodes && h.nodes[leaf] == g.nodes[leaf] && leaf !in changed
            && Chain(was, g.nodes[leaf].cells[j], leaf).Ok?
            && Chain(image, g.nodes[leaf].cells[j], leaf) == Chain(was, g.nodes[leaf].cells[j], leaf)
            && forall x :: x in Chain(was, g.nodes[leaf].cells[j], leaf).value ==> x !in changed)
  }

  lemma CandidatesComplete(g: Graph, r: Run, was: Image, image: Image, roots: map<string, int>, rank: map<int, nat>,
                           changed: set<int>, needed: set<int>, name: string, rowId: int)
    requires Baseline(g, was, image, roots, rank, changed, needed) && needed <= r.needed
    requires Inv(r, image, roots.Values, g.nodes) && RootsSettled(r, roots) && r.visiting == {} && r.orphaned == {}
    requires (name, rowId) !in r.candidates
    ensures Unmoved(g, Tables(r), was, image, changed, name, rowId)
  {
    FinalExact(r, image, roots, g.nodes);
    var h := Tables(r);
    forall leaf, j | Holds(g, name, leaf, j) && g.nodes[leaf].cells[j].rowId == rowId
      ensures leaf in h.nodes && h.nodes[leaf] == g.nodes[leaf] && leaf !in needed
    {
      assert Done(g.nodes, g.edges, g.overflow, was, leaf);
      assert g.nodes[leaf].rows[j] == rowId;
      assert !Remembered(r.candidates, g.nodes[leaf]);
      assert Untouched(r, g.nodes, leaf);
    }
    forall leaf, j | Holds(h, name, leaf, j) && h.nodes[leaf].cells[j].rowId == rowId
      ensures leaf in g.nodes && h.nodes[leaf] == g.nodes[leaf]
    {
      assert Done(r.nodes, r.edges, r.overflow, image, leaf);
      assert r.nodes[leaf].rows[j] == rowId;
      assert !Remembered(r.candidates, r.nodes[leaf]);
    }
    forall leaf, j | Holds(g, name, leaf, j) && g.nodes[leaf].cells[j].rowId == rowId
      ensures leaf !in changed && Chain(was, g.nodes[leaf].cells[j], leaf).Ok?
      ensures Chain(image, g.nodes[leaf].cells[j], leaf) == Chain(was, g.nodes[leaf].cells[j], leaf)
      ensures forall x :: x in Chain(was, g.nodes[leaf].cells[j], leaf).value ==> x !in changed
    {
      CleanPage(g, was, image, roots, rank, changed, needed, leaf);
      assert g.nodes[leaf].cells[j] in g.nodes[leaf].cells;
      CleanChain(g, was, image, roots, rank, changed, needed, leaf, g.nodes[leaf].cells[j]);
    }
  }

  ghost predicate NoneMissed(g: Graph, h: Graph, was: Image, image: Image, changed: set<int>, candidates: set<(string, int)>)
    requires 480 <= was.usable && 480 <= image.usable
  {
    forall name, rowId :: (name, rowId) in candidates || Unmoved(g, h, was, image, changed, name, rowId)
  }

  /** Every row of the graph is a candidate. */
  ghost predicate AllListed(g: Graph, candidates: set<(string, int)>) {
    forall p :: p in g.nodes ==> Remembered(candidates, g.nodes[p])
  }

  lemma UpdateOutcome(g: Graph, r: Run, was: Image, image: Image, roots: map<string, int>, rank: map<int, nat>,
                      changed: set<int>, needed: set<int>)
    requires Baseline(g, was, image, roots, rank, changed, needed) && needed <= r.needed
    requires Inv(r, image, roots.Values, g.nodes) && RootsSettled(r, roots) && r.visiting == {} && r.orphaned == {}
    ensures Exact(Tables(r), image, roots, r.rank) && NoneMissed(g, Tables(r), was, image, changed, r.candidates)
  {
    FinalExact(r, image, roots, g.nodes);
    forall name, rowId ensures (name, rowId) in r.candidates || Unmoved(g, Tables(r), was, image, changed, name, rowId) {
      if (name, rowId) !in r.candidates {
        CandidatesComplete(g, r, was, image, roots, rank, changed, needed, name, rowId);
      }
    }
  }

  lemma BuildOutcome(r: Run, image: Image, roots: map<string, int>)
    requires Inv(r, image, roots.Values, map[]) && RootsSettled(r, roots) && r.visiting == {} && r.orphaned == {}
    ensures Exact(Tables(r), image, roots, r.rank) && AllListed(Tables(r), r.candidates)
  {
    FinalExact(r, image, roots, map[]);
    forall p | p in r.nodes ensures Remembered(r.candidates, r.nodes[p]) {
      assert !Untouched(r, map[], p);
    }
  }

  /** An update that returns leaves what a build of the new image would, up to inherited outer bounds. */
  lemma UpdateEqualsBuild(updated: Graph, built: Graph, image: Image, roots: map<string, int>, ra: map<int, nat>, rb: map<int, nat>)
    requires Exact(updated, image, roots, ra) && Exact(built, image, roots, rb)
    ensures SameGraph(updated, built)
    ensures forall p :: p in updated.nodes ==> p in roots.Values || p in updated.edges
  {
    ExactUnique(updated, built, image, roots, ra, rb);
  }
}
