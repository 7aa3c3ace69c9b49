/**
 The native mirror: page ownership, row copy and one state row, moved together from one source image to
 the next. Each move commits a point that canonical capture must finish before the next one.
 */
module NativeMirror {
  import opened Wrappers
  import opened Bytes
  import opened Pages
  import opened PageImages
  import opened PageGraph
  import opened PageOutcome
  import opened PageBuild
  import opened MirrorRows
  import opened RowContent
  import opened Captures
  import PageIndex
  import WalImage

  /** A pinned source view: the new image, its rows as SQL reads them, and the log pages since the last point. */
  datatype View = View(bodies: Bodies, pageSize: int, rows: map<string, Rows>, roots: map<string, int>, cursor: SourceCursor,
                       schemaVersion: int, since: string, changed: map<int, seq<byte>>, pinned: bool)

  function Decimal(n: int): string
    decreases if n < 0 then 1 else 0, if n < 0 then -n else n
  {
    if n < 0 then "-" + Decimal(-n)
    else (if n < 10 then "" else Decimal(n / 10)) + ["0123456789"[n % 10]]
  }

  function SchemaTag(schemaVersion: int, policyTag: string): string {
    Decimal(schemaVersion) + ":" + policyTag
  }

  /** The view is the one that continues the acknowledged point. */
  predicate Continues(state: Option<Point>, view: View, expected: string, namespace: string, policyTag: string) {
    && AcknowledgedAt(state, expected, namespace)
    && var c := state.value.capture;
    && c.policyTag == policyTag && c.schemaVersion == view.schemaVersion && !c.context.rebaseRequired
    && c.cursor.identity == view.cursor.identity && c.cursor.wal == view.since
  }

  /** The mirror's rows and private indexes can be kept although log continuity is lost. */
  predicate CanReconcile(state: Option<Point>, tables: map<string, Rows>, view: View, expected: string, namespace: string, policyTag: string) {
    && AcknowledgedAt(state, expected, namespace)
    && (var c := state.value.capture;
        c.policyTag == policyTag && c.schemaVersion == view.schemaVersion && !c.context.rebaseRequired
        && c.cursor.identity == view.cursor.identity)
    && tables.Keys == view.rows.Keys
  }

  /** What `changes` yields for one prepared point. */
  datatype NativeChange = NativeChange(before: Option<Row>, after: Option<Row>)

  /** SQL reads the rows that the image stores, and they keep the table's UNIQUE constraints. */
  ghost predicate Sourced(view: View, uniques: map<string, set<seq<nat>>>, read: Content -> Row) {
    && GoodBodies(view.bodies) && view.rows.Keys == view.roots.Keys
    && (forall name :: name in view.rows ==> Unique(if name in uniques then uniques[name] else {}, view.rows[name]))
    && (forall h: Graph, depth: map<int, nat>, name ::
          name in view.rows && Exact(h, Decoded(view.bodies), view.roots, depth) ==> SourceOf(view.rows[name], view.bodies, h, name, read))
  }

  /** Page ownership and row copy both describe the image. */
  ghost predicate Describes(b: Bodies, source: Image, g: Graph, roots: map<string, int>, tables: map<string, Rows>, read: Content -> Row) {
    && GoodBodies(b) && source == Decoded(b) && tables.Keys == roots.Keys
    && forall name :: name in tables ==> SourceOf(tables[name], b, g, name, read)
  }

  lemma Described(b: Bodies, source: Image, g: Graph, roots: map<string, int>, tables: map<string, Rows>, read: Content -> Row)
    requires Describes(b, source, g, roots, tables, read)
    ensures GoodBodies(b) && source == Decoded(b) && tables.Keys == roots.Keys
    ensures forall name :: name in tables ==> SourceOf(tables[name], b, g, name, read)
  {
  }

  lemma NowDescribes(view: View, source: Image, g: Graph, depth: map<int, nat>, uniques: map<string, set<seq<nat>>>, read: Content -> Row)
    requires Sourced(view, uniques, read) && source == Decoded(view.bodies) && Exact(g, Decoded(view.bodies), view.roots, depth)
    ensures Describes(view.bodies, source, g, view.roots, view.rows, read)
  {
    forall name | name in view.rows ensures SourceOf(view.rows[name], view.bodies, g, name, read) {}
  }

  lemma SourcedHas(view: View, uniques: map<string, set<seq<nat>>>, read: Content -> Row)
    requires Sourced(view, uniques, read)
    ensures GoodBodies(view.bodies) && view.rows.Keys == view.roots.Keys
    ensures forall name :: name in view.rows ==> Unique(if name in uniques then uniques[name] else {}, view.rows[name])
  {
  }

  function Next(view: View, token: string, parent: Option<string>, namespace: string, policyTag: string, observedAt: string,
                context: Context, baseline: bool, count: nat): Capture
  {
    Capture(token, parent, view.cursor, view.schemaVersion, namespace, policyTag, observedAt, context, baseline, count)
  }

  /**
   A point that was prepared from a view and acknowledged is continued by exactly the views of the same source and schema
   whose log pages begin where that view ended, under its own token, namespace and policy.
   */
  lemma PreparedContinues(view: View, token: string, parent: Option<string>, namespace: string, policyTag: string, observedAt: string,
                          context: Context, baseline: bool, count: nat, receipt: Option<Receipt>,
                          later: View, expected: string, space: string, policy: string)
    ensures Continues(Some(Point(Next(view, token, parent, namespace, policyTag, observedAt, context, baseline, count), true, receipt)),
                      later, expected, space, policy)
            <==> expected == token && space == namespace && policy == policyTag && !context.rebaseRequired
                 && later.schemaVersion == view.schemaVersion && later.cursor.identity == view.cursor.identity && later.since == view.cursor.wal
  {
  }

  /** A reconcile needs the same, except that the log may have been lost, and the same tables. */
  lemma PreparedReconciles(view: View, token: string, parent: Option<string>, namespace: string, policyTag: string, observedAt: string,
                           context: Context, baseline: bool, count: nat, receipt: Option<Receipt>, tables: map<string, Rows>,
                           later: View, expected: string, space: string, policy: string)
    ensures CanReconcile(Some(Point(Next(view, token, parent, namespace, policyTag, observedAt, context, baseline, count), true, receipt)),
                         tables, later, expected, space, policy)
            <==> expected == token && space == namespace && policy == policyTag && !context.rebaseRequired
                 && later.schemaVersion == view.schemaVersion && later.cursor.identity == view.cursor.identity
                 && tables.Keys == later.rows.Keys
  {
  }

  /** While a point is pending nothing continues from it. */
  lemma PendingBlocks(state: Option<Point>, tables: map<string, Rows>, view: View, expected: string, namespace: string, policy: string)
    requires state.None? || PendingPoint(state).Some?
    ensures !Continues(state, view, expected, namespace, policy) && !CanReconcile(state, tables, view, expected, namespace, policy)
  {
  }

  /** A recovered point, once acknowledged, can only be followed by a new baseline. */
  lemma RecoveredRebases(c: Capture, token: string, policyTag: string, fileName: string, binding: string, receipt: Option<Receipt>,
                         tables: map<string, Rows>, view: View, expected: string, namespace: string, policy: string)
    ensures var state := Some(Point(Recovered(c, token, policyTag, fileName, binding), true, receipt));
            !Continues(state, view, expected, namespace, policy) && !CanReconcile(state, tables, view, expected, namespace, policy)
  {
  }

  class NativeMirror {
    const index: PageIndex.PageIndex
    const rows: MirrorTables
    // How a row is read from its bytes.
    ghost const read: Content -> Row
    var state: Option<Point>
    // The image that the tables describe.
    ghost var bodies: Bodies

    ghost predicate Valid()
      reads this, index, rows
    {
      index.Valid() && (state.Some? ==>
        index.state.Some? && index.state.value.point == state.value.capture.token
        && Describes(bodies, index.source, index.Stored(), index.roots, rows.tables, read))
    }

    constructor (uniques: map<string, set<seq<nat>>>, ghost read: Content -> Row)
      ensures Valid() && state.None? && fresh(index) && fresh(rows) && rows.uniques == uniques && this.read == read
    {
      index := new PageIndex.PageIndex();
      rows := new MirrorTables(uniques);
      this.read := read;
      state, bodies := None, Bodies(0, 480, map[]);
    }

    ghost predicate Unchanged(stored: Graph, tables: map<string, Rows>, changes: Changes, was: Option<Point>)
      reads this, index, rows
    {
      index.Stored() == stored && rows.tables == tables && rows.changes == changes && state == was
    }

    /** The candidates of an index update cover every difference of the rows. */
    lemma Covered(a: Bodies, b: Bodies, changed: set<int>, g: Graph, h: Graph, depth: map<int, nat>, candidates: set<(string, int)>,
                  before: map<string, Rows>, view: View)
      requires GoodBodies(a) && b == view.bodies && Sourced(view, rows.uniques, read) && UnchangedOff(a, b, changed)
      requires Exact(h, Decoded(b), view.roots, depth) && NoneMissed(g, h, Decoded(a), Decoded(b), changed, candidates)
      requires forall name :: name in before ==> SourceOf(before[name], a, g, name, read)
      ensures Covering(candidates, before, view.rows)
      ensures forall name :: name in view.rows ==> SourceOf(view.rows[name], b, h, name, read)
    {
      hide NoneMissed, SourceOf, UnchangedOff;
      forall name | name in view.rows ensures SourceOf(view.rows[name], b, h, name, read) {}
      hide Exact, Sourced;
      forall name, id | name in before && name in view.rows && RowOf(before[name], id) != RowOf(view.rows[name], id)
        ensures (name, id) in candidates
      {
        CandidatesCover(a, b, changed, g, h, view.roots, depth, candidates, name, before[name], view.rows[name], read, id);
      }
    }

    /**
     From the acknowledged point to the view's, reading only the changed pages. Afterwards the mirror rows are
     the source's, the change rows are exactly the differences, and the point awaits canonical capture.
     */
    method Prepare(view: View, expected: string, namespace: string, policyTag: string, observedAt: string, context: Context,
                   token: string, valid: bool) returns (r: Result<Capture, MirrorError>)
      requires Valid() && Sourced(view, rows.uniques, read)
      requires Continues(state, view, expected, namespace, policyTag) ==>
        && view.roots == index.roots && bodies.usable == index.state.value.usable
        && WalImage.Between(WalImage.Overlay(view.bodies.pageCount, bodies.usable, view.changed, index.Stored()), bodies, view.bodies,
                            index.roots, index.rank)
      modifies this, index, rows
      ensures Valid()
      ensures r.Err? ==> Unchanged(old(index.Stored()), old(rows.tables), old(rows.changes), old(state))
      ensures r.Ok? ==> old(Continues(state, view, expected, namespace, policyTag)) && bodies == view.bodies
      ensures r.Ok? ==> rows.tables == view.rows && DeltaAll(rows.changes, old(rows.tables), view.rows)
      ensures r.Ok? ==>
        && state == Some(Point(r.value, false, None))
        && r.value == Next(view, token, Some(expected), namespace, policyTag, observedAt, context, false, |rows.changes|)
      ensures r.Ok? ==> valid && view.pinned
      ensures old(Continues(state, view, expected, namespace, policyTag)) && valid && view.pinned
              && Untroubled(old(index.Stored()), view.bodies.pageCount, view.changed.Keys) ==>
        old(index.state.value) == PageIndex.State(expected, view.pageSize, old(bodies.usable), SchemaTag(view.schemaVersion, policyTag)) ==> r.Ok?
    {
      // One transaction: a refusal by the caller's validation undoes everything.
      if !Continues(state, view, expected, namespace, policyTag) || !valid { return Err(MirrorUnavailable); }
      assert state.Some?;
      hide Exact, WalImage.Between, DeltaAll, Describes, Sourced, Continues, Untroubled;
      var count := Advance(view, expected, SchemaTag(view.schemaVersion, policyTag), token);
      if count.Err? { return Err(MirrorUnavailable); }
      NowDescribes(view, index.source, index.Stored(), index.rank, rows.uniques, read);
      var capture := Next(view, token, Some(expected), namespace, policyTag, observedAt, context, false, count.value);
      Publish(view, capture);
      return Ok(capture);
    }

    /** As a prepare, but from a full image and complete ordered reads of the rows. */
    method Reconcile(view: View, expected: string, namespace: string, policyTag: string, observedAt: string, context: Context,
                     token: string, valid: bool) returns (r: Result<Capture, MirrorError>)
      requires Valid() && Sourced(view, rows.uniques, read)
      modifies this, index, rows
      ensures Valid()
      ensures r.Err? ==> Unchanged(old(index.Stored()), old(rows.tables), old(rows.changes), old(state))
      ensures r.Ok? ==> old(CanReconcile(state, rows.tables, view, expected, namespace, policyTag)) && bodies == view.bodies
      ensures r.Ok? ==> rows.tables == view.rows && DeltaAll(rows.changes, old(rows.tables), view.rows)
      ensures r.Ok? ==>
        && state == Some(Point(r.value, false, None))
        && r.value == Next(view, token, Some(expected), namespace, policyTag, observedAt, context.(reconciled := true), false, |rows.changes|)
      ensures r.Ok? <==> old(CanReconcile(state, rows.tables, view, expected, namespace, policyTag)) && valid && view.pinned
                         && Buildable(Decoded(view.bodies), view.roots)
    {
      if !CanReconcile(state, rows.tables, view, expected, namespace, policyTag) || !valid { return Err(MirrorUnavailable); }
      assert rows.tables.Keys == view.rows.Keys;
      hide Exact, DeltaAll, Describes, Sourced, CanReconcile, SchemaTag, Decoded, AllListed, Unique, PendingPoint, Buildable;
      var count := Regather(view, SchemaTag(view.schemaVersion, policyTag), token);
      if count.Err? { return Err(MirrorUnavailable); }
      NowDescribes(view, index.source, index.Stored(), index.rank, rows.uniques, read);
      var capture := Next(view, token, Some(expected), namespace, policyTag, observedAt, context.(reconciled := true), false, count.value);
      Publish(view, capture);
      return Ok(capture);
    }

    /** The new point, pending until the canonical side acknowledges it. */
    method Publish(view: View, capture: Capture)
      requires index.Valid() && index.state.Some? && index.state.value.point == capture.token
      requires Describes(view.bodies, index.source, index.Stored(), index.roots, rows.tables, read)
      modifies `state, `bodies
      ensures Valid() && state == Some(Point(capture, false, None)) && bodies == view.bodies
    {
      hide Exact, Describes;
      bodies := view.bodies;
      state := Some(Point(capture, false, None));
    }

    /** Page ownership and row delta of a reconcile. */
    method Regather(view: View, schemaTag: string, token: string) returns (r: Result<nat, MirrorError>)
      requires index.Valid() && Sourced(view, rows.uniques, read) && rows.tables.Keys == view.rows.Keys
      modifies index, rows
      ensures index.Valid()
      ensures r.Err? ==> index.Stored() == old(index.Stored()) && index.state == old(index.state) && index.roots == old(index.roots)
                         && index.source == old(index.source) && rows.tables == old(rows.tables) && rows.changes == old(rows.changes)
      ensures r.Ok? ==> index.state.Some? && index.state.value.point == token && index.roots == view.roots
      ensures r.Ok? ==> index.source == Decoded(view.bodies) && Exact(index.Stored(), Decoded(view.bodies), view.roots, index.rank)
      ensures r.Ok? ==> rows.tables == view.rows && DeltaAll(rows.changes, old(rows.tables), view.rows) && r.value == |rows.changes|
      ensures r.Ok? <==> view.pinned && Buildable(Decoded(view.bodies), view.roots)
    {
      SourcedHas(view, rows.uniques, read);
      hide Exact, DeltaAll, Sourced, AllListed, Unique, Decoded, Buildable;
      var built := index.Build(Decoded(view.bodies), view.roots, token, view.pageSize, schemaTag, view.pinned);
      if built.Err? { return Err(MirrorUnavailable); }
      var count := rows.ReconcileAll(view.rows);
      return Ok(count);
    }

    /** A full row copy: the first point of a mirror, or a replacement of an acknowledged one. */
    method Baseline(view: View, expected: Option<string>, namespace: string, policyTag: string, observedAt: string, context: Context,
                    token: string, valid: bool) returns (r: Result<Capture, MirrorError>)
      requires Valid() && Sourced(view, rows.uniques, read)
      modifies this, index, rows
      ensures Valid()
      ensures r.Err? ==> Unchanged(old(index.Stored()), old(rows.tables), old(rows.changes), old(state))
      ensures r.Ok? ==> if expected.None? then old(state).None? else AcknowledgedAt(old(state), expected.value, namespace)
      ensures r.Ok? ==> bodies == view.bodies && rows.tables == view.rows && rows.changes == map[]
      ensures r.Ok? ==>
        && state == Some(Point(r.value, false, None))
        && r.value == Next(view, token, expected, namespace, policyTag, observedAt, context, true, |AllIds(view.rows, view.rows.Keys)|)
      ensures r.Ok? <==> view.pinned && valid && Buildable(Decoded(view.bodies), view.roots)
                         && if expected.None? then old(state).None? else AcknowledgedAt(old(state), expected.value, namespace)
    {
      hide Exact, Describes, Sourced, AllListed, Unique, Buildable, Decoded, SchemaTag;
      if !view.pinned || !valid { return Err(MirrorUnavailable); }
      if expected.None? && state.Some? { return Err(MirrorUnavailable); }
      if expected.Some? && !AcknowledgedAt(state, expected.value, namespace) { return Err(MirrorUnavailable); }
      SourcedHas(view, rows.uniques, read);
      var built := index.Build(Decoded(view.bodies), view.roots, token, view.pageSize, SchemaTag(view.schemaVersion, policyTag), view.pinned);
      if built.Err? { return Err(MirrorUnavailable); }
      var count := rows.CopyAll(view.rows);
      NowDescribes(view, index.source, index.Stored(), index.rank, rows.uniques, read);
      var capture := Next(view, token, expected, namespace, policyTag, observedAt, context, true, count);
      Publish(view, capture);
      return Ok(capture);
    }

    /** The pending point reinterpreted under another policy: same rows, same source cut, same parent. */
    method RecoverPendingPolicy(expected: Capture, token: string, policyTag: string, fileName: string, binding: string, rebound: bool)
      returns (r: Result<Capture, MirrorError>)
      requires Valid()
      modifies this, index
      ensures Valid() && index.Stored() == old(index.Stored()) && bodies == old(bodies)
      ensures r.Err? ==> state == old(state)
      ensures r.Ok? <==> PendingPoint(old(state)) == Some(expected) && policyTag != "" && policyTag != expected.policyTag && rebound
      ensures r.Ok? ==> r.value == Recovered(expected, token, policyTag, fileName, binding) && state == Some(Point(r.value, false, None))
    {
      hide Exact, Describes;
      if PendingPoint(state) != Some(expected) || policyTag == "" || policyTag == expected.policyTag || !rebound { return Err(MirrorUnavailable); }
      var recovered := Recovered(expected, token, policyTag, fileName, binding);
      index.state := Some(index.state.value.(point := token));
      state := Some(Point(recovered, false, None));
      return Ok(recovered);
    }

    /** Only after the canonical receipt has been committed; repeating it changes nothing. */
    method Acknowledge(token: string, receipt: Option<Receipt>) returns (ok: bool)
      requires Valid()
      modifies `state
      ensures Valid()
      ensures ok <==> receipt.Some? && old(state).Some? && old(state).value.capture.token == token
                      && (old(state).value.acknowledged ==> old(state).value.receipt == receipt)
      ensures state == if ok then Some(Point(old(state).value.capture, true, receipt)) else old(state)
    {
      hide Exact, Describes;
      if receipt.None? || state.None? || state.value.capture.token != token { return false; }
      if state.value.acknowledged && state.value.receipt != receipt { return false; }
      state := Some(Point(state.value.capture, true, receipt));
      return true;
    }

    /** The point that the next capture continues, once nothing is pending. */
    function Continuation(): (r: Result<Option<Capture>, MirrorError>)
      reads `state
      ensures r.Ok? <==> PendingPoint(state).None?
      ensures r.Ok? && r.value.Some? ==> state.Some? && state.value.acknowledged && r.value.value == state.value.capture
    {
      if state.Some? && !state.value.acknowledged then Err(MirrorUnavailable)
      else Ok(if state.Some? then Some(state.value.capture) else None)
    }

    /** Before and after of every changed row of the selected tables, while the point is pending. */
    function ChangesAt(token: string, names: Option<set<string>>): Result<map<(string, int), NativeChange>, MirrorError>
      reads this, rows
    {
      if state.None? || state.value.capture.token != token || state.value.acknowledged then Err(MirrorUnavailable)
      else Ok(map k | k in rows.changes && (names.None? || k.0 in names.value) ::
                NativeChange(rows.changes[k], if k.0 in rows.tables then RowOf(rows.tables[k.0], k.1) else None))
    }

    /** They are exactly the rows that the move changed. */
    lemma ChangesExact(token: string, names: Option<set<string>>, before: map<string, Rows>, name: string, id: int)
      requires before.Keys == rows.tables.Keys && DeltaAll(rows.changes, before, rows.tables) && ChangesAt(token, names).Ok?
      requires name in rows.tables && (names.None? || name in names.value)
      ensures (name, id) in ChangesAt(token, names).value <==> RowOf(before[name], id) != RowOf(rows.tables[name], id)
      ensures (name, id) in ChangesAt(token, names).value ==>
                ChangesAt(token, names).value[(name, id)] == NativeChange(RowOf(before[name], id), RowOf(rows.tables[name], id))
    {
      assert Delta(rows.changes, name, before[name], rows.tables[name]);
    }

    /** Page ownership and row delta of a prepare. */
    method Advance(view: View, expected: string, schemaTag: string, token: string) returns (r: Result<nat, MirrorError>)
      requires index.Valid() && index.state.Some? && Sourced(view, rows.uniques, read)
      requires Describes(bodies, index.source, index.Stored(), index.roots, rows.tables, read)
      requires view.roots == index.roots && bodies.usable == index.state.value.usable
      requires WalImage.Between(WalImage.Overlay(view.bodies.pageCount, bodies.usable, view.changed, index.Stored()), bodies, view.bodies,
                                index.roots, index.rank)
      modifies index, rows
      ensures index.Valid()
      ensures r.Err? ==> index.Stored() == old(index.Stored()) && index.state == old(index.state) && index.roots == old(index.roots)
                         && index.source == old(index.source) && rows.tables == old(rows.tables) && rows.changes == old(rows.changes)
      ensures r.Ok? ==> index.state.Some? && index.state.value.point == token && index.roots == view.roots
      ensures r.Ok? ==> index.source == Decoded(view.bodies) && Exact(index.Stored(), Decoded(view.bodies), view.roots, index.rank)
      ensures r.Ok? ==> rows.tables == view.rows && DeltaAll(rows.changes, old(rows.tables), view.rows) && r.value == |rows.changes|
      ensures r.Ok? ==> view.pinned
      ensures view.pinned && Untroubled(old(index.Stored()), view.bodies.pageCount, view.changed.Keys) ==>
        old(index.state.value) == PageIndex.State(expected, view.pageSize, old(bodies.usable), schemaTag) ==> r.Ok?
    {
      SourcedHas(view, rows.uniques, read);
      Described(bodies, index.source, index.Stored(), index.roots, rows.tables, read);
      var overlay := WalImage.Overlay(view.bodies.pageCount, index.state.value.usable, view.changed, Graph(index.nodes, index.edges, index.overflow));
      assert UnchangedOff(bodies, view.bodies, view.changed.Keys);
      hide Exact, NoneMissed, WalImage.Between, SourceOf, Covering, DeltaAll, UnchangedOff, Describes, Sourced, Unique, Untroubled;
      var selected := WalImage.UpdateThroughLog(index, overlay, index.roots, expected, token, view.pageSize, schemaTag,
                                                view.pinned, bodies, view.bodies);
      if selected.Err? { return Err(MirrorUnavailable); }
      Covered(bodies, view.bodies, view.changed.Keys, overlay.stored, index.Stored(), index.rank, selected.value, rows.tables, view);
      var count := rows.PrepareAll(view.rows, selected.value);
      return Ok(count);
    }
  }
}
