/**
 The private row copy of the mirrored tables: an exact row delta between two states of a source, applied
 so that no intermediate state can break a UNIQUE constraint that the source keeps.
 */
module MirrorRows {
  import opened Wrappers
  import opened Bytes

  /** A stored SQL value; a float is its hexadecimal text, so that equality is exact. */
  datatype Value = Null | Integer(n: int) | Float(hex: string) | Text(s: string) | Blob(b: seq<byte>)

  type Row = seq<Value>

  type Rows = map<int, Row>

  type Changes = map<(string, int), Option<Row>>

  function RowOf(rows: Rows, id: int): Option<Row> {
    if id in rows then Some(rows[id]) else None
  }

  // ---- Row comparison ----

  predicate SameKind(a: Value, b: Value) {
    (a.Null? && b.Null?) || (a.Integer? && b.Integer?) || (a.Float? && b.Float?) || (a.Text? && b.Text?) || (a.Blob? && b.Blob?)
  }

  predicate SameValue(a: Value, b: Value) {
    SameKind(a, b) && if a.Float? then a.hex == b.hex else a == b
  }

  predicate SameRow(before: Option<Row>, after: Option<Row>) {
    if before.None? || after.None? then before.None? && after.None? else
      |before.value| == |after.value| && forall i :: 0 <= i < |before.value| ==> SameValue(before.value[i], after.value[i])
  }

  lemma SameRowIsEqual(before: Option<Row>, after: Option<Row>)
    ensures SameRow(before, after) <==> before == after
  {
    if before.Some? && after.Some? && SameRow(before, after) {
      assert forall i :: 0 <= i < |before.value| ==> SameValue(before.value[i], after.value[i]) && before.value[i] == after.value[i];
      assert before.value == after.value;
    }
  }

  // ---- Unique constraints ----

  /** Two rows agree on the columns of a unique key; a NULL never agrees. */
  predicate Clash(columns: seq<nat>, a: Row, b: Row) {
    && (forall c :: c in columns ==> c < |a| && c < |b|)
    && (forall c :: c in columns ==> a[c] == b[c] && a[c] != Null)
  }

  ghost predicate Unique(uniques: set<seq<nat>>, rows: Rows) {
    forall columns, i, j :: columns in uniques && i in rows && j in rows && i != j ==> !Clash(columns, rows[i], rows[j])
  }

  predicate MayInsert(uniques: set<seq<nat>>, rows: Rows, id: int, row: Row) {
    id !in rows && forall columns, j :: columns in uniques && j in rows ==> !Clash(columns, row, rows[j])
  }

  /** Part of the source's rows: no constraint that the source keeps is broken. */
  ghost predicate PartOf(rows: Rows, source: Rows) {
    forall id :: id in rows ==> id in source && rows[id] == source[id]
  }

  lemma PartMayInsert(uniques: set<seq<nat>>, rows: Rows, source: Rows, id: int)
    requires PartOf(rows, source) && Unique(uniques, source) && id in source && id !in rows
    ensures MayInsert(uniques, rows, id, source[id])
  {
    forall columns, j | columns in uniques && j in rows ensures !Clash(columns, source[id], rows[j]) {
      assert !Clash(columns, source[id], source[j]);
    }
  }

  // ---- The delta ----

  function Differing(before: Rows, after: Rows): set<int> {
    set id | id in before.Keys + after.Keys && RowOf(before, id) != RowOf(after, id)
  }

  function DifferingIn(before: Rows, after: Rows, ids: set<int>): set<int> {
    set id | id in ids && RowOf(before, id) != RowOf(after, id)
  }

  /** `changes` for table `name` holds exactly the differing row ids, with what stood there before. */
  ghost predicate Delta(changes: Changes, name: string, before: Rows, after: Rows) {
    forall id :: ((name, id) in changes <==> RowOf(before, id) != RowOf(after, id))
              && ((name, id) in changes ==> changes[(name, id)] == RowOf(before, id))
  }

  ghost predicate OthersKept(changes: Changes, was: Changes, name: string) {
    forall k :: k in changes || k in was ==> k.0 != name ==> k in changes && k in was && changes[k] == was[k]
  }

  /** After comparing the ids in `done`: the recorded changes, the staged new rows and the count. */
  ghost predicate Compared(changes: Changes, was: Changes, staged: Rows, count: nat, name: string, before: Rows, after: Rows, done: set<int>) {
    && OthersKept(changes, was, name)
    && (forall id :: ((name, id) in changes <==> id in done && RowOf(before, id) != RowOf(after, id))
                  && ((name, id) in changes ==> changes[(name, id)] == RowOf(before, id)))
    && (forall id :: (id in staged <==> (name, id) in changes && id in after) && (id in staged ==> staged[id] == after[id]))
    && count == |DifferingIn(before, after, done)|
  }

  lemma NoneCompared(changes: Changes, name: string, before: Rows, after: Rows)
    requires forall k :: k in changes ==> k.0 != name
    ensures Compared(changes, changes, map[], 0, name, before, after, {})
  {
    assert DifferingIn(before, after, {}) == {};
  }

  lemma CountMore(before: Rows, after: Rows, done: set<int>, id: int)
    requires id !in done
    ensures |DifferingIn(before, after, done + {id})| == |DifferingIn(before, after, done)| + if RowOf(before, id) == RowOf(after, id) then 0 else 1
  {
    var counted, more := DifferingIn(before, after, done), DifferingIn(before, after, done + {id});
    assert more == if RowOf(before, id) == RowOf(after, id) then counted else counted + {id};
  }

  /** One more id compared: the change and the staged row that belong to it. */
  lemma ComparedMore(changes: Changes, was: Changes, staged: Rows, count: nat, name: string, before: Rows, after: Rows, done: set<int>, id: int)
    requires Compared(changes, was, staged, count, name, before, after, done) && id !in done
    ensures RowOf(before, id) == RowOf(after, id) ==> Compared(changes, was, staged, count, name, before, after, done + {id})
    ensures RowOf(before, id) != RowOf(after, id) ==>
      Compared(changes[(name, id) := RowOf(before, id)], was, if id in after then staged[id := after[id]] else staged, count + 1,
               name, before, after, done + {id})
  {
    CountMore(before, after, done, id);
    hide DifferingIn;
  }

  class MirrorTables {
    var tables: map<string, Rows>
    var changes: Changes
    const uniques: map<string, set<seq<nat>>>

    constructor (uniques: map<string, set<seq<nat>>>)
      ensures tables == map[] && changes == map[] && this.uniques == uniques
    {
      this.uniques, tables, changes := uniques, map[], map[];
    }

    function Keys(name: string): set<seq<nat>> {
      if name in uniques then uniques[name] else {}
    }

    /** One id: nothing if the row is the same, else a change row and perhaps a staged row. */
    method CompareOne(name: string, id: int, before: Option<Row>, after: Option<Row>, staged: Rows, count: nat,
                      ghost was: Changes, ghost old0: Rows, ghost new0: Rows, ghost done: set<int>)
      returns (staged': Rows, count': nat)
      requires Compared(changes, was, staged, count, name, old0, new0, done) && id !in done
      requires before == RowOf(old0, id) && after == RowOf(new0, id)
      modifies `changes
      ensures Compared(changes, was, staged', count', name, old0, new0, done + {id})
    {
      SameRowIsEqual(before, after);
      staged', count' := staged, count;
      ComparedMore(changes, was, staged, count, name, old0, new0, done, id);
      hide Compared;
      if !SameRow(before, after) {
        changes := changes[(name, id) := before];
        if after.Some? { staged' := staged[id := after.value]; }
        count' := count + 1;
      }
    }

    /** Deletes first, so that swapped unique keys cannot meet; then inserts one row at a time. */
    method Replace(name: string, staged: Rows, ghost source: Rows)
      requires name in tables && Delta(changes, name, tables[name], source) && Unique(Keys(name), source)
      requires forall id :: (id in staged <==> (name, id) in changes && id in source) && (id in staged ==> staged[id] == source[id])
      modifies `tables
      ensures tables == old(tables)[name := source]
    {
      var before := tables[name];
      var rows := map id | id in before && (name, id) !in changes :: before[id];
      assert PartOf(rows, source) by {
        forall id | id in rows ensures id in source && rows[id] == source[id] {
          assert RowOf(before, id) == RowOf(source, id);
        }
      }
      var left := staged.Keys;
      while left != {}
        invariant left <= staged.Keys && PartOf(rows, source) && tables == old(tables)
        invariant forall id :: id in rows <==> (id in before && (name, id) !in changes) || (id in staged && id !in left)
        decreases |left|
      {
        Inhabited(left);
        var id :| id in left;
        assert (name, id) in changes;
        PartMayInsert(Keys(name), rows, source, id);
        assert MayInsert(Keys(name), rows, id, staged[id]);  // the insert cannot fail
        rows := rows[id := staged[id]];
        left := left - {id};
      }
      forall id ensures RowOf(rows, id) == RowOf(source, id) {
        assert (name, id) !in changes ==> RowOf(before, id) == RowOf(source, id);
      }
      SameTables(rows, source);
      tables := tables[name := rows];
    }

    /** One table of a prepare: candidates in batches of 400, each read from both sides. */
    method PrepareTable(name: string, source: Rows, candidates: seq<int>) returns (count: nat)
      requires name in tables && Unique(Keys(name), source)
      requires forall i, j :: 0 <= i < j < |candidates| ==> candidates[i] < candidates[j]
      requires forall id :: RowOf(tables[name], id) != RowOf(source, id) ==> id in candidates
      requires forall k :: k in changes ==> k.0 != name
      modifies `tables, `changes
      ensures tables == old(tables)[name := source]
      ensures Delta(changes, name, old(tables)[name], source) && OthersKept(changes, old(changes), name)
      ensures count == |Differing(old(tables)[name], source)|
    {
      ghost var rows, was := tables[name], changes;
      var staged: Rows := map[];
      count := 0;
      var offset := 0;
      assert Compared(changes, was, staged, count, name, rows, source, Firsts(candidates, 0)) by {
        assert DifferingIn(rows, source, Firsts(candidates, 0)) == {};
      }
      hide Compared, Firsts, Unique;
      while offset < |candidates|
        invariant 0 <= offset <= |candidates| && tables == old(tables)
        invariant Compared(changes, was, staged, count, name, rows, source, Firsts(candidates, offset))
      {
        var end := if offset + 400 < |candidates| then offset + 400 else |candidates|;
        staged, count := PrepareBatch(name, source, candidates, offset, end, staged, count, was);
        offset := end;
      }
      AllFirst(candidates);
      AllCompared(changes, was, staged, count, name, rows, source, Firsts(candidates, |candidates|));
      Replace(name, staged, source);
    }

    method PrepareBatch(name: string, source: Rows, candidates: seq<int>, offset: nat, end: nat, staged: Rows, count: nat, ghost was: Changes)
      returns (staged': Rows, count': nat)
      requires name in tables && offset <= end <= |candidates|
      requires forall i, j :: 0 <= i < j < |candidates| ==> candidates[i] < candidates[j]
      requires Compared(changes, was, staged, count, name, tables[name], source, Firsts(candidates, offset))
      modifies `changes
      ensures Compared(changes, was, staged', count', name, tables[name], source, Firsts(candidates, end))
    {
      hide Compared, Firsts;
      var rows := tables[name];
      var batch := candidates[offset..end];
      var before := map id | id in rows && id in batch :: rows[id];
      var after := map id | id in source && id in batch :: source[id];
      staged', count' := staged, count;
      for n := offset to end
        invariant tables == old(tables) && Compared(changes, was, staged', count', name, rows, source, Firsts(candidates, n))
      {
        var id := batch[n - offset];
        NextFirst(candidates, n);
        staged', count' := CompareOne(name, id, RowOf(before, id), RowOf(after, id), staged', count', was, rows, source, Firsts(candidates, n));
      }
    }

    /** One table of a reconcile: an ordered merge of the old and the new rows. */
    method ReconcileTable(name: string, source: Rows) returns (count: nat)
      requires name in tables && Unique(Keys(name), source)
      requires forall k :: k in changes ==> k.0 != name
      modifies `tables, `changes
      ensures tables == old(tables)[name := source]
      ensures Delta(changes, name, old(tables)[name], source) && OthersKept(changes, old(changes), name)
      ensures count == |Differing(old(tables)[name], source)|
    {
      var rows := tables[name];
      ghost var was := changes;
      var olds, news := Ascend(rows.Keys), Ascend(source.Keys);
      var i, j := 0, 0;
      var staged: Rows := map[];
      count := 0;
      ghost var done: set<int> := {};
      NoneCompared(changes, name, rows, source);
      NoneMerged(olds, news);
      hide Compared, Merging, DifferingIn, Delta, OthersKept, Unique;
      while i < |olds| || j < |news|
        invariant Merging(olds, news, i, j, done) && tables == old(tables)
        invariant Compared(changes, was, staged, count, name, rows, source, done)
        decreases |olds| - i + |news| - j
      {
        var id, before, after;
        id, before, after, i, j := NextPair(rows, source, olds, news, i, j, done);
        staged, count := CompareOne(name, id, before, after, staged, count, was, rows, source, done);
        done := done + {id};
      }
      MergeEnds(olds, news, i, j, done);
      forall id | RowOf(rows, id) != RowOf(source, id) ensures id in done {
        assert id in olds || id in news;
      }
      AllCompared(changes, was, staged, count, name, rows, source, done);
      Replace(name, staged, source);
    }

    // ---- All tables ----

    /** The row delta of a prepare, from candidates that cover every difference. */
    method PrepareAll(sources: map<string, Rows>, candidates: set<(string, int)>) returns (count: nat)
      requires tables.Keys == sources.Keys && forall name :: name in sources ==> Unique(Keys(name), sources[name])
      requires Covering(candidates, tables, sources)
      modifies `tables, `changes
      ensures tables == sources && DeltaAll(changes, old(tables), sources) && count == |changes|
    {
      changes := map[];
      count := 0;
      var left := sources.Keys;
      TablesBegin(tables, sources);
      hide Unique, Delta, Half, DeltaSome, DeltaAll, OthersKept, Differing, IdsOf, Covering, RowOf;
      while left != {}
        invariant left <= sources.Keys && count == |changes|
        invariant Half(tables, old(tables), sources, left) && DeltaSome(changes, old(tables), sources, left)
        decreases |left|
      {
        InhabitedNames(left);
        var name :| name in left;
        var n := PrepareNext(sources, candidates, name, old(tables), left);
        count, left := count + n, left - {name};
      }
      TablesDone(tables, changes, old(tables), sources);
    }

    method ReconcileNext(sources: map<string, Rows>, name: string, ghost before: map<string, Rows>, ghost left: set<string>)
      returns (n: nat)
      requires Half(tables, before, sources, left) && DeltaSome(changes, before, sources, left)
      requires name in left && name in sources && Unique(Keys(name), sources[name])
      modifies `tables, `changes
      ensures Half(tables, before, sources, left - {name}) && DeltaSome(changes, before, sources, left - {name})
      ensures |changes| == old(|changes|) + n
    {
      ghost var was, half := changes, tables;
      TableReady(half, was, before, sources, left, name);
      hide Unique, Delta, Half, DeltaSome, OthersKept, Differing, RowOf;
      n := ReconcileTable(name, sources[name]);
      DeltaCounted(changes, was, name, before[name], sources[name]);
      TableDone(half, was, changes, before, sources, left, name);
    }

    method PrepareNext(sources: map<string, Rows>, candidates: set<(string, int)>, name: string, ghost before: map<string, Rows>, ghost left: set<string>)
      returns (n: nat)
      requires Half(tables, before, sources, left) && DeltaSome(changes, before, sources, left) && Covering(candidates, before, sources)
      requires name in left && name in sources && Unique(Keys(name), sources[name])
      modifies `tables, `changes
      ensures Half(tables, before, sources, left - {name}) && DeltaSome(changes, before, sources, left - {name})
      ensures |changes| == old(|changes|) + n
    {
      ghost var was, half := changes, tables;
      TableReady(half, was, before, sources, left, name);
      CandidatesOf(candidates, before, sources, name);
      hide Unique, Delta, Half, DeltaSome, OthersKept, Differing, IdsOf, Covering, RowOf;
      n := PrepareTable(name, sources[name], Ascend(IdsOf(candidates, name)));
      DeltaCounted(changes, was, name, before[name], sources[name]);
      TableDone(half, was, changes, before, sources, left, name);
    }

    /** The row delta of a reconcile, from complete ordered reads. */
    method ReconcileAll(sources: map<string, Rows>) returns (count: nat)
      requires tables.Keys == sources.Keys && forall name :: name in sources ==> Unique(Keys(name), sources[name])
      modifies `tables, `changes
      ensures tables == sources && DeltaAll(changes, old(tables), sources) && count == |changes|
    {
      changes := map[];
      count := 0;
      var left := sources.Keys;
      TablesBegin(tables, sources);
      hide Unique, Delta, Half, DeltaSome, DeltaAll, OthersKept, Differing, IdsOf, Covering, RowOf;
      while left != {}
        invariant left <= sources.Keys && count == |changes|
        invariant Half(tables, old(tables), sources, left) && DeltaSome(changes, old(tables), sources, left)
        decreases |left|
      {
        InhabitedNames(left);
        var name :| name in left;
        var n := ReconcileNext(sources, name, old(tables), left);
        count, left := count + n, left - {name};
      }
      TablesDone(tables, changes, old(tables), sources);
    }

    /** A baseline: fresh tables, filled row by row. */
    method CopyAll(sources: map<string, Rows>) returns (count: nat)
      requires forall name :: name in sources ==> Unique(Keys(name), sources[name])
      modifies `tables, `changes
      ensures tables == sources && changes == map[] && count == |AllIds(sources, sources.Keys)|
    {
      CopyEnds(sources);
      hide Unique, AllIds, Except;
      tables, changes, count := map[], map[], 0;
      var left := sources.Keys;
      while left != {}
        invariant left <= sources.Keys && changes == map[] && tables == Except(sources, left)
        invariant count == |AllIds(sources, sources.Keys - left)|
        decreases |left|
      {
        InhabitedNames(left);
        var name :| name in left;
        var n := CopyTable(name, sources[name]);
        CopyStep(sources, left, name);
        count, left := count + n, left - {name};
      }
    }

    method CopyTable(name: string, source: Rows) returns (count: nat)
      requires Unique(Keys(name), source)
      modifies `tables
      ensures tables == old(tables)[name := source] && count == |source|
    {
      var rows: Rows := map[];
      count := 0;
      var left := source.Keys;
      while left != {}
        invariant left <= source.Keys && rows == map id | id in source && id !in left :: source[id]
        invariant count == |rows| && tables == old(tables)
        decreases |left|
      {
        Inhabited(left);
        var id :| id in left;
        PartMayInsert(Keys(name), rows, source, id);
        rows := rows[id := source[id]];
        count, left := count + 1, left - {id};
      }
      assert rows == source;
      tables := tables[name := rows];
    }
  }

  /** Exactly the differing rows of all tables, each with what stood there before. */
  ghost predicate DeltaAll(changes: Changes, before: map<string, Rows>, after: map<string, Rows>) {
    && (forall k :: k in changes ==> k.0 in after)
    && (forall name :: name in after ==> name in before && Delta(changes, name, before[name], after[name]))
  }

  ghost predicate Half(tables: map<string, Rows>, before: map<string, Rows>, after: map<string, Rows>, left: set<string>) {
    && tables.Keys == before.Keys == after.Keys && left <= after.Keys
    && forall name :: name in after ==> tables[name] == if name in left then before[name] else after[name]
  }

  ghost predicate DeltaSome(changes: Changes, before: map<string, Rows>, after: map<string, Rows>, left: set<string>) {
    && (forall k :: k in changes ==> k.0 in after && k.0 !in left)
    && (forall name :: name in after && name !in left ==> name in before && Delta(changes, name, before[name], after[name]))
  }

  function IdsOf(candidates: set<(string, int)>, name: string): set<int> {
    set c | c in candidates && c.0 == name :: c.1
  }

  /** Every row that differs is a candidate. */
  ghost predicate Covering(candidates: set<(string, int)>, before: map<string, Rows>, after: map<string, Rows>) {
    forall name, id :: name in before && name in after && RowOf(before[name], id) != RowOf(after[name], id) ==> (name, id) in candidates
  }

  lemma CandidatesOf(candidates: set<(string, int)>, before: map<string, Rows>, after: map<string, Rows>, name: string)
    requires Covering(candidates, before, after) && name in before && name in after
    ensures forall id :: RowOf(before[name], id) != RowOf(after[name], id) ==> id in IdsOf(candidates, name)
  {
    forall id | RowOf(before[name], id) != RowOf(after[name], id) ensures id in IdsOf(candidates, name) {
      assert (name, id) in candidates;
    }
  }

  function Except(sources: map<string, Rows>, left: set<string>): map<string, Rows> {
    map name | name in sources && name !in left :: sources[name]
  }

  lemma CopyStep(sources: map<string, Rows>, left: set<string>, name: string)
    requires name in sources && name in left
    ensures Except(sources, left)[name := sources[name]] == Except(sources, left - {name})
    ensures |AllIds(sources, sources.Keys - (left - {name}))| == |AllIds(sources, sources.Keys - left)| + |sources[name]|
  {
    IdsCounted(sources, sources.Keys - left, name);
    assert sources.Keys - (left - {name}) == sources.Keys - left + {name};
  }

  lemma CopyEnds(sources: map<string, Rows>)
    ensures Except(sources, {}) == sources && Except(sources, sources.Keys) == map[]
    ensures AllIds(sources, sources.Keys - sources.Keys) == {} && sources.Keys - {} == sources.Keys
  {
  }

  lemma TablesBegin(before: map<string, Rows>, after: map<string, Rows>)
    requires before.Keys == after.Keys
    ensures Half(before, before, after, after.Keys) && DeltaSome(map[], before, after, after.Keys)
  {
  }

  lemma TableReady(tables: map<string, Rows>, changes: Changes, before: map<string, Rows>, after: map<string, Rows>, left: set<string>, name: string)
    requires Half(tables, before, after, left) && DeltaSome(changes, before, after, left) && name in left
    ensures name in tables && name in before && name in after && tables[name] == before[name] && forall k :: k in changes ==> k.0 != name
  {
  }

  lemma TableDone(tables: map<string, Rows>, was: Changes, changes: Changes, before: map<string, Rows>, after: map<string, Rows>,
                  left: set<string>, name: string)
    requires Half(tables, before, after, left) && DeltaSome(was, before, after, left) && name in left && name in after
    requires name in before && Delta(changes, name, before[name], after[name]) && OthersKept(changes, was, name)
    ensures Half(tables[name := after[name]], before, after, left - {name}) && DeltaSome(changes, before, after, left - {name})
  {
    forall other | other in after && other !in left - {name} ensures other in before && Delta(changes, other, before[other], after[other]) {
      if other != name {
        assert Delta(was, other, before[other], after[other]);
        assert forall id :: (other, id) in changes <==> (other, id) in was;
      }
    }
  }

  lemma TablesDone(tables: map<string, Rows>, changes: Changes, before: map<string, Rows>, after: map<string, Rows>)
    requires Half(tables, before, after, {}) && DeltaSome(changes, before, after, {})
    ensures tables == after && DeltaAll(changes, before, after)
  {
  }

  function Pairs(ids: set<int>, name: string): set<(string, int)> {
    set id | id in ids :: (name, id)
  }

  lemma DeltaKeys(changes: Changes, was: Changes, name: string, before: Rows, after: Rows)
    requires Delta(changes, name, before, after) && OthersKept(changes, was, name) && forall k :: k in was ==> k.0 != name
    ensures changes.Keys == was.Keys + Pairs(Differing(before, after), name)
  {
    forall k ensures k in changes <==> k in was || k in Pairs(Differing(before, after), name) {
      var id := k.1;
      assert k == (k.0, id);
      assert k.0 == name ==> k == (name, id);
      assert (name, id) in changes <==> RowOf(before, id) != RowOf(after, id);
      assert id in Differing(before, after) <==> RowOf(before, id) != RowOf(after, id);
    }
  }

  lemma DeltaCounted(changes: Changes, was: Changes, name: string, before: Rows, after: Rows)
    requires Delta(changes, name, before, after) && OthersKept(changes, was, name) && forall k :: k in was ==> k.0 != name
    ensures |changes| == |was| + |Differing(before, after)|
  {
    DeltaKeys(changes, was, name, before, after);
    hide Delta, OthersKept, Differing;
    var pairs := Pairs(Differing(before, after), name);
    PairsCount(Differing(before, after), name);
    assert was.Keys !! pairs;
    assert |changes.Keys| == |changes| && |was.Keys| == |was|;
  }

  lemma {:induction false} PairsCount(ids: set<int>, name: string)
    ensures |Pairs(ids, name)| == |ids|
    decreases |ids|
  {
    var pairs := Pairs(ids, name);
    Inhabited(ids);
    if ids != {} {
      var x :| x in ids;
      PairsCount(ids - {x}, name);
      assert pairs == Pairs(ids - {x}, name) + {(name, x)};
    }
  }

  function AllIds(sources: map<string, Rows>, names: set<string>): set<(string, int)> {
    set name, id | name in names && name in sources && id in sources[name] :: (name, id)
  }

  lemma IdsCounted(sources: map<string, Rows>, names: set<string>, name: string)
    requires name in sources && name !in names
    ensures |AllIds(sources, names + {name})| == |AllIds(sources, names)| + |sources[name]|
  {
    var pairs := Pairs(sources[name].Keys, name);
    PairsCount(sources[name].Keys, name);
    assert AllIds(sources, names + {name}) == AllIds(sources, names) + pairs;
    assert AllIds(sources, names) !! pairs;
    assert |sources[name].Keys| == |sources[name]|;
  }

  /** Two ascending id lists, merged up to `i` and `j`: exactly the ids below were handled. */
  ghost predicate Merging(olds: seq<int>, news: seq<int>, i: nat, j: nat, done: set<int>) {
    && i <= |olds| && j <= |news|
    && (forall a, b :: 0 <= a < b < |olds| ==> olds[a] < olds[b])
    && (forall a, b :: 0 <= a < b < |news| ==> news[a] < news[b])
    && (forall k :: 0 <= k < |olds| ==> (olds[k] in done <==> k < i))
    && (forall k :: 0 <= k < |news| ==> (news[k] in done <==> k < j))
  }

  lemma NoneMerged(olds: seq<int>, news: seq<int>)
    requires forall a, b :: 0 <= a < b < |olds| ==> olds[a] < olds[b]
    requires forall a, b :: 0 <= a < b < |news| ==> news[a] < news[b]
    ensures Merging(olds, news, 0, 0, {})
  {
  }

  lemma MergeEnds(olds: seq<int>, news: seq<int>, i: nat, j: nat, done: set<int>)
    requires Merging(olds, news, i, j, done) && i >= |olds| && j >= |news|
    ensures forall id :: id in olds || id in news ==> id in done
  {
  }

  lemma MergeStep(olds: seq<int>, news: seq<int>, i: nat, j: nat, done: set<int>)
    requires Merging(olds, news, i, j, done) && (i < |olds| || j < |news|)
    ensures if j == |news| || (i < |olds| && olds[i] < news[j]) then
              Merging(olds, news, i + 1, j, done + {olds[i]}) && olds[i] !in news && olds[i] !in done
            else if i == |olds| || news[j] < olds[i] then
              Merging(olds, news, i, j + 1, done + {news[j]}) && news[j] !in olds && news[j] !in done
            else
              Merging(olds, news, i + 1, j + 1, done + {olds[i]}) && olds[i] == news[j] && olds[i] !in done
  {
    if j == |news| || (i < |olds| && olds[i] < news[j]) {
      forall k | 0 <= k < |news| ensures news[k] != olds[i] {
        assert k < j || news[j] <= news[k];
      }
    } else if i == |olds| || news[j] < olds[i] {
      forall k | 0 <= k < |olds| ensures olds[k] != news[j] {
        assert k < i || olds[i] <= olds[k];
      }
    }
  }

  /** One step of the two cursors: the least id that is left, with its rows on both sides. */
  method NextPair(rows: Rows, source: Rows, olds: seq<int>, news: seq<int>, i: nat, j: nat, ghost done: set<int>)
    returns (id: int, before: Option<Row>, after: Option<Row>, i': nat, j': nat)
    requires Merging(olds, news, i, j, done) && (i < |olds| || j < |news|)
    requires (forall k :: k in olds <==> k in rows) && (forall k :: k in news <==> k in source)
    ensures Merging(olds, news, i', j', done + {id}) && id !in done && i + j < i' + j' && i <= i' <= |olds| && j <= j' <= |news|
    ensures before == RowOf(rows, id) && after == RowOf(source, id)
  {
    MergeStep(olds, news, i, j, done);
    if j == |news| || (i < |olds| && olds[i] < news[j]) {
      return olds[i], Some(rows[olds[i]]), None, i + 1, j;
    } else if i == |olds| || news[j] < olds[i] {
      return news[j], None, Some(source[news[j]]), i, j + 1;
    } else {
      return olds[i], Some(rows[olds[i]]), Some(source[olds[i]]), i + 1, j + 1;
    }
  }

  lemma SameTables(a: Rows, b: Rows)
    requires forall id :: RowOf(a, id) == RowOf(b, id)
    ensures a == b
  {
    forall id ensures (id in a <==> id in b) && (id in a ==> a[id] == b[id]) {
      assert RowOf(a, id) == RowOf(b, id);
    }
  }

  function Firsts(ids: seq<int>, n: nat): set<int>
    requires n <= |ids|
  {
    set i | 0 <= i < n :: ids[i]
  }

  lemma NextFirst(ids: seq<int>, n: nat)
    requires n < |ids| && forall i, j :: 0 <= i < j < |ids| ==> ids[i] < ids[j]
    ensures ids[n] !in Firsts(ids, n) && Firsts(ids, n + 1) == Firsts(ids, n) + {ids[n]}
  {
    assert ids[n] in Firsts(ids, n + 1);
    forall i | 0 <= i < n ensures ids[i] in Firsts(ids, n + 1) && ids[i] != ids[n] {}
  }

  lemma AllFirst(ids: seq<int>)
    ensures forall id :: id in ids ==> id in Firsts(ids, |ids|)
  {
  }

  lemma AllCompared(changes: Changes, was: Changes, staged: Rows, count: nat, name: string, before: Rows, after: Rows, done: set<int>)
    requires Compared(changes, was, staged, count, name, before, after, done)
    requires forall id :: RowOf(before, id) != RowOf(after, id) ==> id in done
    ensures Delta(changes, name, before, after) && count == |Differing(before, after)| && OthersKept(changes, was, name)
    ensures forall id :: (id in staged <==> (name, id) in changes && id in after) && (id in staged ==> staged[id] == after[id])
  {
    assert DifferingIn(before, after, done) == Differing(before, after);
  }
}
