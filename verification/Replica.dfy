/**
 Record heads and their replication. A producer's writes leave journal events behind; replaying them into another
 cache, under the import rules, gives every record the producer's head and effective observation time, as long as
 no write goes back in time or moves a time without leaving an event.
 */
module Replica {
  import opened Wrappers

  /** The current view of one record: its content digest, its stored text and when it was written. */
  datatype Rec = Rec(digest: string, text: string, observed: int)

  /** Records, their stable keys, and the latest sighting of every key that has been refreshed. */
  datatype Store = Store(recs: map<string, Rec>, keys: map<string, int>, sights: map<int, int>, nextKey: int)

  datatype Outcome = Inserted | Updated | Unchanged | Older | Conflict

  /** Local capture, or an import that knows which prior heads belong to the same history. */
  datatype Origin = Local | Import(prior: set<string>)

  datatype Event =
    | Record(id: int, urn: string, digest: string, text: string, at: int, previous: Option<string>)
    | Refresh(ids: set<int>, at: int)

  datatype ReplayError = InvalidArchive

  function Later(a: int, b: int): int { if a < b then b else a }

  /** The effective observation time of a record: its own, or a later sighting. */
  function Effective(s: Store, urn: string): int
    requires urn in s.recs
  {
    if urn in s.keys && s.keys[urn] in s.sights then Later(s.recs[urn].observed, s.sights[s.keys[urn]]) else s.recs[urn].observed
  }

  /** Keep a strictly newer sighting, else take this one. */
  function Stamped(sights: map<int, int>, ids: set<int>, at: int): map<int, int> {
    map id | id in sights.Keys + ids ::
      if id !in ids then sights[id] else if id in sights && sights[id] > at then sights[id] else at
  }

  /** A record gets a key when first written; keys are never reused. */
  function Keyed(s: Store, urn: string): Store {
    if urn in s.keys then s else s.(keys := s.keys[urn := s.nextKey], nextKey := s.nextKey + 1)
  }

  function Refreshed(s: Store, ids: set<int>, at: int): Store {
    s.(sights := Stamped(s.sights, ids, at))
  }

  /** `upsert`: the new state, its outcome and the journal events. */
  function Upserted(s: Store, urn: string, digest: string, text: string, at: int, origin: Origin): (Store, Outcome, seq<Event>) {
    if urn !in s.recs then
      var t := Keyed(s.(recs := s.recs[urn := Rec(digest, text, at)]), urn);
      (t, Inserted, [Record(t.keys[urn], urn, digest, text, at, None)])
    else if s.recs[urn].digest == digest then
      if at >= Effective(s, urn) && urn in s.keys
      then (Refreshed(s, {s.keys[urn]}, at), Unchanged, [Refresh({s.keys[urn]}, at)])
      else (s, Unchanged, [])
    else if origin.Import? && s.recs[urn].digest !in origin.prior then (s, Conflict, [])
    else if origin.Import? && at < Effective(s, urn) then (s, Older, [])
    else
      var t := s.(recs := s.recs[urn := Rec(digest, text, at)]);
      (t, Updated, if urn in s.keys then [Record(s.keys[urn], urn, digest, text, at, Some(s.recs[urn].digest))] else [])
  }

  // ---- Producer ----

  datatype Op =
    | Upsert(urn: string, digest: string, text: string, at: int)
    | SetHead(urn: string, digest: string, revision: Option<string>, at: int)   // conflict resolution; the stored revision text
    | Sight(urns: set<string>, at: int)                                         // the batched refresh of unchanged records

  /** The journal trigger: only a changed digest or a changed text leaves an event. */
  function HeadSet(s: Store, urn: string, digest: string, revision: Option<string>, at: int): (Store, seq<Event>) {
    if revision.None? || urn !in s.recs then (s, []) else
      var was := s.recs[urn];
      var t := s.(recs := s.recs[urn := Rec(digest, revision.value, at)]);
      (t, if urn in s.keys && (was.digest != digest || was.text != revision.value)
          then [Record(s.keys[urn], urn, digest, revision.value, at, Some(was.digest))] else [])
  }

  function IdsOf(s: Store, urns: set<string>): set<int> {
    set urn | urn in urns && urn in s.keys :: s.keys[urn]
  }

  function Sighted(s: Store, urns: set<string>, at: int): (Store, seq<Event>) {
    var ids := IdsOf(s, urns);
    if ids == {} then (s, []) else (Refreshed(s, ids, at), [Refresh(ids, at)])
  }

  function Produced(s: Store, op: Op): (Store, seq<Event>) {
    match op
    case Upsert(urn, digest, text, at) => var r := Upserted(s, urn, digest, text, at, Local); (r.0, r.2)
    case SetHead(urn, digest, revision, at) => HeadSet(s, urn, digest, revision, at)
    case Sight(urns, at) => Sighted(s, urns, at)
  }

  // ---- Replica ----

  /** What a producer's key stands for here, and the producer's last head for it. */
  datatype Binding = Binding(local: int, head: string)

  datatype Copy = Copy(store: Store, bound: map<int, Binding>)

  /** The local records whose content is still what the producer last saw. */
  function Eligible(c: Copy, ids: set<int>): set<int> {
    set urn, id | id in ids && id in c.bound && urn in c.store.recs && urn in c.store.keys
                  && c.store.keys[urn] == c.bound[id].local && c.store.recs[urn].digest == c.bound[id].head :: c.bound[id].local
  }

  function Bound(c: Copy, id: int, urn: string, digest: string): Result<Copy, ReplayError> {
    var s := Keyed(c.store, urn);
    if id in c.bound && c.bound[id].local != s.keys[urn] then Err(InvalidArchive)
    else Ok(Copy(s, c.bound[id := Binding(s.keys[urn], digest)]))
  }

  function Replayed(c: Copy, e: Event): Result<(Copy, Option<Outcome>), ReplayError> {
    match e
    case Record(id, urn, digest, text, at, previous) =>
      var r := Upserted(c.store, urn, digest, text, at, Import(if previous.Some? then {previous.value} else {}));
      (match Bound(Copy(r.0, c.bound), id, urn, digest)
       case Err(x) => Err(x)
       case Ok(d) => Ok((d, Some(r.1))))
    case Refresh(ids, at) =>
      if exists id :: id in ids && id !in c.bound then Err(InvalidArchive)
      else Ok((Copy(Refreshed(c.store, Eligible(c, ids), at), c.bound), None))
  }

  // ---- In step ----

  ghost predicate StoreOk(s: Store) {
    && s.keys.Keys == s.recs.Keys
    && (forall u, v :: u in s.keys && v in s.keys && s.keys[u] == s.keys[v] ==> u == v)
    && (forall u :: u in s.keys ==> s.keys[u] < s.nextKey)
    && (forall id :: id in s.sights ==> id < s.nextKey)
  }

  /** The producer's key of every record stands here for the same record with the producer's head. */
  ghost predicate KeysBound(p: Store, c: Copy) {
    && (forall u :: u in p.recs && u in p.keys && u in c.store.keys ==>
          p.keys[u] in c.bound && c.bound[p.keys[u]] == Binding(c.store.keys[u], p.recs[u].digest))
    && (forall id :: id in c.bound ==> id < p.nextKey)
  }

  ghost predicate SameHeads(p: Store, s: Store) {
    p.recs.Keys == s.recs.Keys
    && forall u :: u in p.recs && u in s.recs ==> p.recs[u].digest == s.recs[u].digest && Effective(p, u) == Effective(s, u)
  }

  ghost predicate InStep(p: Store, c: Copy) {
    StoreOk(p) && StoreOk(c.store) && SameHeads(p, c.store) && KeysBound(p, c)
  }

  function Empty(): Store { Store(map[], map[], map[], 1) }

  // ---- One event ----

  function Added(s: Store, urn: string, digest: string, text: string, at: int): Store {
    Keyed(s.(recs := s.recs[urn := Rec(digest, text, at)]), urn)
  }

  lemma AddedOk(s: Store, urn: string, digest: string, text: string, at: int)
    requires StoreOk(s) && urn !in s.recs
    ensures var t := Added(s, urn, digest, text, at);
            && StoreOk(t) && Effective(t, urn) == at && t.keys[urn] == s.nextKey
            && forall u :: u in s.recs ==> t.recs[u] == s.recs[u] && t.keys[u] == s.keys[u] && Effective(t, u) == Effective(s, u)
  {
  }

  lemma AddReplayed(p: Store, c: Copy, urn: string, digest: string, text: string, at: int)
    requires InStep(p, c) && urn !in p.recs
    ensures var r := Replayed(c, Record(p.nextKey, urn, digest, text, at, None));
            r == Ok((Copy(Added(c.store, urn, digest, text, at), c.bound[p.nextKey := Binding(c.store.nextKey, digest)]), Some(Inserted)))
  {
    assert p.nextKey !in c.bound && urn !in c.store.recs;
  }

  /** Heads stay the same when both sides change one record alike. */
  lemma HeadsFrom(p: Store, s: Store, t: Store, d: Store, urn: string)
    requires SameHeads(p, s) && t.recs.Keys == p.recs.Keys + {urn} && d.recs.Keys == s.recs.Keys + {urn}
    requires forall u :: u in p.recs && u != urn ==> t.recs[u].digest == p.recs[u].digest && Effective(t, u) == Effective(p, u)
    requires forall u :: u in s.recs && u != urn ==> d.recs[u].digest == s.recs[u].digest && Effective(d, u) == Effective(s, u)
    requires t.recs[urn].digest == d.recs[urn].digest && Effective(t, urn) == Effective(d, urn)
    ensures SameHeads(t, d)
  {
    hide Effective;
    forall u | u in t.recs && u in d.recs ensures t.recs[u].digest == d.recs[u].digest && Effective(t, u) == Effective(d, u) {
      if u != urn { assert p.recs[u].digest == s.recs[u].digest && Effective(p, u) == Effective(s, u); }
    }
  }

  lemma NotInStep(p: Store, c: Copy, urn: string)
    requires urn in p.recs && urn in c.store.recs && (Effective(p, urn) != Effective(c.store, urn) || p.recs[urn].digest != c.store.recs[urn].digest)
    ensures !InStep(p, c)
  {
  }

  lemma InsertInStep(p: Store, c: Copy, urn: string, digest: string, text: string, at: int)
    requires InStep(p, c) && urn !in p.recs
    ensures var t := Added(p, urn, digest, text, at);
            var r := Replayed(c, Record(t.keys[urn], urn, digest, text, at, None));
            r.Ok? && r.value.1 == Some(Inserted) && InStep(t, r.value.0)
  {
    AddReplayed(p, c, urn, digest, text, at);
    AddKeys(p, c, urn, digest, text, at);
    AddHeads(p, c.store, urn, digest, text, at);
    hide StoreOk, Replayed, Effective, KeysBound, Added, SameHeads;
    var t := Added(p, urn, digest, text, at);
  }

  lemma AddedRecs(s: Store, urn: string, digest: string, text: string, at: int)
    requires StoreOk(s) && urn !in s.recs
    ensures var t := Added(s, urn, digest, text, at);
            t.recs == s.recs[urn := Rec(digest, text, at)] && t.recs.Keys == s.recs.Keys + {urn}
  {
  }

  lemma AddHeads(p: Store, s: Store, urn: string, digest: string, text: string, at: int)
    requires StoreOk(p) && StoreOk(s) && SameHeads(p, s) && urn !in p.recs
    ensures var t, d := Added(p, urn, digest, text, at), Added(s, urn, digest, text, at);
            StoreOk(t) && StoreOk(d) && SameHeads(t, d) && t.keys[urn] == p.nextKey
  {
    var t, d := Added(p, urn, digest, text, at), Added(s, urn, digest, text, at);
    assert urn !in s.recs;
    hide *;
    AddedOk(p, urn, digest, text, at);
    AddedOk(s, urn, digest, text, at);
    AddedRecs(p, urn, digest, text, at);
    AddedRecs(s, urn, digest, text, at);
    HeadsFrom(p, s, t, d, urn);
  }

  lemma AddKeys(p: Store, c: Copy, urn: string, digest: string, text: string, at: int)
    requires InStep(p, c) && urn !in p.recs
    ensures KeysBound(Added(p, urn, digest, text, at),
                      Copy(Added(c.store, urn, digest, text, at), c.bound[p.nextKey := Binding(c.store.nextKey, digest)]))
  {
    assert urn !in p.keys && urn !in c.store.keys;
    hide Effective, SameHeads;
  }

  /** The stored row changes; the effective time becomes the later of the new time and the last sighting. */
  function Rewritten(s: Store, urn: string, digest: string, text: string, at: int): Store {
    s.(recs := s.recs[urn := Rec(digest, text, at)])
  }

  lemma RewriteEffective(s: Store, urn: string, digest: string, text: string, at: int)
    requires urn in s.recs
    ensures var t := Rewritten(s, urn, digest, text, at);
            && (at >= Effective(s, urn) ==> Effective(t, urn) == at)
            && (forall u :: u in s.recs && u != urn ==> Effective(t, u) == Effective(s, u))
  {
  }

  lemma RewriteOk(p: Store, c: Copy, s: Store, urn: string, digest: string, text: string, at: int)
    requires InStep(p, c) && urn in p.recs && StoreOk(s) && s.keys == c.store.keys && s.recs.Keys == c.store.recs.Keys
    requires forall u :: u in s.recs && u != urn ==> s.recs[u] == c.store.recs[u] && Effective(s, u) == Effective(c.store, u)
    requires s.recs[urn].digest == digest && Effective(s, urn) == Effective(Rewritten(p, urn, digest, text, at), urn)
    ensures InStep(Rewritten(p, urn, digest, text, at), Copy(s, c.bound[p.keys[urn] := Binding(s.keys[urn], digest)]))
  {
    RewriteKeys(p, c, s, urn, digest, text, at);
    RewriteStore(p, urn, digest, text, at);
    RewriteHeads(p, c.store, s, urn, digest, text, at);
    hide StoreOk, Effective, KeysBound, SameHeads, Rewritten;
  }

  lemma RewriteHeads(p: Store, was: Store, s: Store, urn: string, digest: string, text: string, at: int)
    requires SameHeads(p, was) && urn in p.recs && s.recs.Keys == was.recs.Keys
    requires forall u :: u in s.recs && u != urn ==> s.recs[u] == was.recs[u] && Effective(s, u) == Effective(was, u)
    requires s.recs[urn].digest == digest && Effective(s, urn) == Effective(Rewritten(p, urn, digest, text, at), urn)
    ensures SameHeads(Rewritten(p, urn, digest, text, at), s)
  {
    RewriteEffective(p, urn, digest, text, at);
    var t := Rewritten(p, urn, digest, text, at);
    assert t.recs.Keys == p.recs.Keys + {urn} && s.recs.Keys == was.recs.Keys + {urn};
    hide Effective, SameHeads;
    HeadsFrom(p, was, t, s, urn);
  }

  lemma RewriteStore(p: Store, urn: string, digest: string, text: string, at: int)
    requires StoreOk(p) && urn in p.recs
    ensures StoreOk(Rewritten(p, urn, digest, text, at))
  {
    assert p.recs[urn := Rec(digest, text, at)].Keys == p.recs.Keys;
  }

  lemma RewriteKeys(p: Store, c: Copy, s: Store, urn: string, digest: string, text: string, at: int)
    requires StoreOk(p) && KeysBound(p, c) && urn in p.recs && s.keys == c.store.keys && urn in s.keys
    ensures KeysBound(Rewritten(p, urn, digest, text, at), Copy(s, c.bound[p.keys[urn] := Binding(s.keys[urn], digest)]))
  {
  }

  lemma UpdateReplayed(p: Store, c: Copy, urn: string, digest: string, text: string, at: int)
    requires InStep(p, c) && urn in p.recs && p.recs[urn].digest != digest
    ensures var r := Replayed(c, Record(p.keys[urn], urn, digest, text, at, Some(p.recs[urn].digest)));
            var bound := c.bound[p.keys[urn] := Binding(c.store.keys[urn], digest)];
            r == if at >= Effective(p, urn) then Ok((Copy(Rewritten(c.store, urn, digest, text, at), bound), Some(Updated)))
                 else Ok((Copy(c.store, bound), Some(Older)))
  {
    assert Effective(p, urn) == Effective(c.store, urn);
    assert c.bound[p.keys[urn]].local == c.store.keys[urn];
  }

  lemma InStepRecord(p: Store, c: Copy, urn: string)
    requires InStep(p, c) && urn in p.recs
    ensures StoreOk(p) && StoreOk(c.store) && urn in p.keys && urn in c.store.recs && urn in c.store.keys
    ensures c.store.recs[urn].digest == p.recs[urn].digest && Effective(p, urn) == Effective(c.store, urn)
    ensures c.bound[p.keys[urn] := Binding(c.store.keys[urn], p.recs[urn].digest)] == c.bound
  {
    hide Effective;
    assert c.bound[p.keys[urn]] == Binding(c.store.keys[urn], p.recs[urn].digest);
  }

  lemma RewriteRecs(s: Store, urn: string, digest: string, text: string, at: int)
    requires urn in s.recs
    ensures var t := Rewritten(s, urn, digest, text, at);
            && t.keys == s.keys && t.recs.Keys == s.recs.Keys && t.recs[urn] == Rec(digest, text, at)
            && forall u :: u in s.recs && u != urn ==> t.recs[u] == s.recs[u]
  {
  }

  lemma UpdateInStep(p: Store, c: Copy, urn: string, digest: string, text: string, at: int)
    requires InStep(p, c) && urn in p.recs && p.recs[urn].digest != digest
    ensures var t := Rewritten(p, urn, digest, text, at);
            var r := Replayed(c, Record(p.keys[urn], urn, digest, text, at, Some(p.recs[urn].digest)));
            && r.Ok? && (InStep(t, r.value.0) <==> at >= Effective(p, urn))
            && r.value.1 == Some(if at >= Effective(p, urn) then Updated else Older)
  {
    UpdateReplayed(p, c, urn, digest, text, at);
    RewriteEffective(p, urn, digest, text, at);
    RewriteEffective(c.store, urn, digest, text, at);
    var s, t := Rewritten(c.store, urn, digest, text, at), Rewritten(p, urn, digest, text, at);
    InStepRecord(p, c, urn);
    hide Replayed, Effective, KeysBound, SameHeads;
    if at >= Effective(p, urn) {
      RewriteStore(c.store, urn, digest, text, at);
      RewriteRecs(c.store, urn, digest, text, at);
      hide InStep, StoreOk;
      RewriteOk(p, c, s, urn, digest, text, at);
    } else {
      RewriteRecs(p, urn, digest, text, at);
      hide InStep, StoreOk;
      NotInStep(t, Copy(c.store, c.bound[p.keys[urn] := Binding(c.store.keys[urn], digest)]), urn);
    }
  }

  lemma StampEffective(s: Store, ids: set<int>, at: int, urn: string)
    requires urn in s.recs && urn in s.keys
    ensures Effective(Refreshed(s, ids, at), urn) == if s.keys[urn] in ids then Later(Effective(s, urn), at) else Effective(s, urn)
  {
  }

  lemma EligibleIs(p: Store, c: Copy, ids: set<int>, urn: string)
    requires InStep(p, c) && urn in p.recs && forall id :: id in ids ==> exists u :: u in p.keys && p.keys[u] == id
    ensures c.store.keys[urn] in Eligible(c, ids) <==> p.keys[urn] in ids
  {
    if p.keys[urn] in ids {
      assert c.bound[p.keys[urn]] == Binding(c.store.keys[urn], p.recs[urn].digest);
    }
    if c.store.keys[urn] in Eligible(c, ids) {
      var v, id :| id in ids && id in c.bound && v in c.store.recs && v in c.store.keys
                   && c.store.keys[v] == c.bound[id].local && c.bound[id].local == c.store.keys[urn];
      var u :| u in p.keys && p.keys[u] == id;
      assert c.bound[id].local == c.store.keys[u];
      assert u == urn;
    }
  }

  lemma RefreshInStep(p: Store, c: Copy, ids: set<int>, at: int)
    requires InStep(p, c) && forall id :: id in ids ==> exists u :: u in p.keys && p.keys[u] == id
    ensures var r := Replayed(c, Refresh(ids, at)); r.Ok? && r.value.1.None? && InStep(Refreshed(p, ids, at), r.value.0)
  {
    forall id | id in ids ensures id in c.bound {
      var u :| u in p.keys && p.keys[u] == id;
      assert u in p.recs && u in c.store.keys;
    }
    var t := Refreshed(p, ids, at);
    var local := Eligible(c, ids);
    var d := Replayed(c, Refresh(ids, at)).value.0;
    assert d.store == Refreshed(c.store, local, at);
    forall u | u in t.recs && u in d.store.recs ensures Effective(t, u) == Effective(d.store, u) {
      EligibleIs(p, c, ids, u);
      StampEffective(p, ids, at, u);
      StampEffective(c.store, local, at, u);
    }
    forall id | id in t.sights ensures id < t.nextKey {
      if id in ids { var u :| u in p.keys && p.keys[u] == id; }
    }
    forall id | id in d.store.sights ensures id < d.store.nextKey {
      if id in local {
        var v, k :| k in ids && k in c.bound && v in c.store.recs && v in c.store.keys && c.store.keys[v] == c.bound[k].local == id;
      }
    }
  }

  lemma TouchReplayed(p: Store, c: Copy, urn: string, text: string, at: int)
    requires InStep(p, c) && urn in p.recs
    ensures var r := Replayed(c, Record(p.keys[urn], urn, p.recs[urn].digest, text, at, Some(p.recs[urn].digest)));
            var s := if at >= Effective(p, urn) then Refreshed(c.store, {c.store.keys[urn]}, at) else c.store;
            r == Ok((Copy(s, c.bound), Some(Unchanged)))
  {
    var digest := p.recs[urn].digest;
    assert Effective(p, urn) == Effective(c.store, urn);
    assert c.bound[p.keys[urn]] == Binding(c.store.keys[urn], digest);
    assert c.bound[p.keys[urn] := Binding(c.store.keys[urn], digest)] == c.bound;
    var s := if at >= Effective(p, urn) then Refreshed(c.store, {c.store.keys[urn]}, at) else c.store;
    hide Effective, StoreOk, KeysBound;
    assert Upserted(c.store, urn, digest, text, at, Import({digest})).0 == s;
    assert Keyed(s, urn) == s;
    assert Bound(Copy(s, c.bound), p.keys[urn], urn, digest) == Ok(Copy(s, c.bound));
  }

  lemma RefreshedOk(s: Store, urn: string, at: int)
    requires StoreOk(s) && urn in s.recs
    ensures StoreOk(Refreshed(s, {s.keys[urn]}, at))
    ensures forall u :: u in s.recs ==>
      Effective(Refreshed(s, {s.keys[urn]}, at), u) == if u == urn then Later(Effective(s, u), at) else Effective(s, u)
  {
  }

  /** A rewritten row with the same digest travels only as a sighting. */
  lemma TouchInStep(p: Store, c: Copy, urn: string, text: string, at: int)
    requires InStep(p, c) && urn in p.recs
    ensures var t := Rewritten(p, urn, p.recs[urn].digest, text, at);
            var r := Replayed(c, Record(p.keys[urn], urn, p.recs[urn].digest, text, at, Some(p.recs[urn].digest)));
            && r.Ok? && r.value.1 == Some(Unchanged)
            && (InStep(t, r.value.0) <==> at >= Effective(p, urn) || Effective(t, urn) == Effective(p, urn))
  {
    var digest := p.recs[urn].digest;
    var t := Rewritten(p, urn, digest, text, at);
    var s := if at >= Effective(p, urn) then Refreshed(c.store, {c.store.keys[urn]}, at) else c.store;
    InStepRecord(p, c, urn);
    hide InStep, StoreOk, SameHeads, KeysBound, Replayed, Effective;
    TouchReplayed(p, c, urn, text, at);
    RewriteEffective(p, urn, digest, text, at);
    RefreshedOk(c.store, urn, at);
    Touched(p, c, s, urn, text, at);
  }

  lemma Touched(p: Store, c: Copy, s: Store, urn: string, text: string, at: int)
    requires InStep(p, c) && urn in p.recs && StoreOk(s) && s.keys == c.store.keys && s.recs == c.store.recs
    requires forall u :: u in s.recs && u != urn ==> Effective(s, u) == Effective(c.store, u)
    requires c.bound[p.keys[urn] := Binding(s.keys[urn], p.recs[urn].digest)] == c.bound
    ensures var t := Rewritten(p, urn, p.recs[urn].digest, text, at);
            InStep(t, Copy(s, c.bound)) <==> Effective(t, urn) == Effective(s, urn)
  {
    var t := Rewritten(p, urn, p.recs[urn].digest, text, at);
    assert urn in s.recs && s.recs[urn].digest == p.recs[urn].digest;
    if Effective(t, urn) == Effective(s, urn) {
      RewriteOk(p, c, s, urn, p.recs[urn].digest, text, at);
    } else {
      NotInStep(t, Copy(s, c.bound), urn);
    }
  }

  // ---- One write ----

  function ReplayAll(c: Copy, events: seq<Event>): Result<Copy, ReplayError> {
    if events == [] then Ok(c) else
      match ReplayAll(c, events[..|events| - 1])
      case Err(e) => Err(e)
      case Ok(d) =>
        match Replayed(d, events[|events| - 1])
        case Err(e) => Err(e)
        case Ok(r) => Ok(r.0)
  }

  /** What every record event did: a conflict or an older record would leave the replica behind. */
  function Outcomes(c: Copy, events: seq<Event>): seq<Outcome> {
    if events == [] then [] else
      var front := events[..|events| - 1];
      var last := if ReplayAll(c, front).Ok? then Replayed(ReplayAll(c, front).value, events[|events| - 1]) else Err(InvalidArchive);
      Outcomes(c, front) + if last.Ok? && last.value.1.Some? then [last.value.1.value] else []
  }

  /** No replayed record met a conflict or a later one. */
  predicate Smooth(c: Copy, events: seq<Event>) {
    Conflict !in Outcomes(c, events) && Older !in Outcomes(c, events)
  }

  /** A rewrite at time `at` is covered: the stored time is the same, or the record was sighted since both. */
  predicate Covered(s: Store, urn: string, at: int)
    requires urn in s.recs
  {
    at == s.recs[urn].observed
    || (urn in s.keys && s.keys[urn] in s.sights && at <= s.sights[s.keys[urn]] && s.recs[urn].observed <= s.sights[s.keys[urn]])
  }

  /**
   When a write travels: changed content is not older than what is there; a head set to content that is there already
   is covered, unless its text differs, which leaves a journal event, and its time is not older.
   */
  predicate Travels(s: Store, op: Op) {
    match op
    case Upsert(urn, digest, text, at) => urn in s.recs && s.recs[urn].digest != digest ==> at >= Effective(s, urn)
    case SetHead(urn, digest, revision, at) =>
      revision.Some? && urn in s.recs ==>
        (s.recs[urn].digest == digest && Covered(s, urn, at))
        || (at >= Effective(s, urn) && (s.recs[urn].digest != digest || s.recs[urn].text != revision.value))
    case Sight(urns, at) => true
  }

  lemma CoveredKeepsTime(s: Store, urn: string, digest: string, text: string, at: int)
    requires urn in s.recs
    ensures Covered(s, urn, at) <==> Effective(Rewritten(s, urn, digest, text, at), urn) == Effective(s, urn)
  {
  }

  /** A sighting moves the effective time of exactly the sighted records, and never back. */
  lemma SightedLater(s: Store, ids: set<int>, at: int, urn: string)
    requires urn in s.recs
    ensures Effective(Refreshed(s, ids, at), urn)
            == if urn in s.keys && s.keys[urn] in ids then Later(Effective(s, urn), at) else Effective(s, urn)
  {
  }

  lemma OneEvent(c: Copy, e: Event)
    ensures ReplayAll(c, [e]) == match Replayed(c, e) case Err(x) => Err(x) case Ok(r) => Ok(r.0)
    ensures ReplayAll(c, []) == Ok(c) && Outcomes(c, []) == []
    ensures Outcomes(c, [e]) == match Replayed(c, e) case Err(x) => [] case Ok(r) => if r.1.Some? then [r.1.value] else []
  {
    var none: seq<Event> := [];
    assert [e][..0] == none;
    assert ReplayAll(c, none) == Ok(c) && Outcomes(c, none) == [];
  }

  lemma NoEvent(c: Copy)
    ensures ReplayAll(c, []) == Ok(c) && Outcomes(c, []) == []
  {
  }

  /** Replaying the events ends in step with `t` exactly if the write travels; it never meets a conflict, nor then a later record. */
  ghost predicate Carries(c: Copy, t: Store, events: seq<Event>, travels: bool) {
    && ReplayAll(c, events).Ok? && (InStep(t, ReplayAll(c, events).value) <==> travels)
    && Conflict !in Outcomes(c, events) && (travels ==> Smooth(c, events))
  }

  lemma CarriesOne(c: Copy, t: Store, e: Event, travels: bool)
    requires var r := Replayed(c, e);
             && r.Ok? && (InStep(t, r.value.0) <==> travels)
             && r.value.1 != Some(Conflict) && (travels ==> r.value.1 != Some(Older))
    ensures Carries(c, t, [e], travels)
  {
    OneEvent(c, e);
    hide InStep, Replayed, ReplayAll, Outcomes;
  }

  lemma CarriesNone(c: Copy, t: Store, travels: bool)
    requires InStep(t, c) <==> travels
    ensures Carries(c, t, [], travels)
  {
    NoEvent(c);
    hide InStep, ReplayAll, Outcomes;
  }

  lemma UpsertTravels(p: Store, c: Copy, urn: string, digest: string, text: string, at: int)
    requires InStep(p, c)
    ensures var op := Upsert(urn, digest, text, at);
            Carries(c, Produced(p, op).0, Produced(p, op).1, Travels(p, op))
  {
    if urn in p.recs { InStepRecord(p, c, urn); }
    hide Carries, InStep, StoreOk, Replayed, Effective, Keyed;
    var t := Produced(p, Upsert(urn, digest, text, at)).0;
    if urn !in p.recs {
      InsertInStep(p, c, urn, digest, text, at);
      InsertEvents(p, urn, digest, text, at);
      hide Produced;
      CarriesOne(c, t, Record(t.keys[urn], urn, digest, text, at, None), true);
    } else if p.recs[urn].digest == digest {
      if at >= Effective(p, urn) {
        RefreshInStep(p, c, {p.keys[urn]}, at);
        CarriesOne(c, t, Refresh({p.keys[urn]}, at), true);
      } else {
        CarriesNone(c, t, true);
      }
    } else {
      UpdateInStep(p, c, urn, digest, text, at);
      CarriesOne(c, t, Record(p.keys[urn], urn, digest, text, at, Some(p.recs[urn].digest)), at >= Effective(p, urn));
    }
  }

  lemma InsertEvents(p: Store, urn: string, digest: string, text: string, at: int)
    requires urn !in p.recs
    ensures var t := Added(p, urn, digest, text, at);
            Produced(p, Upsert(urn, digest, text, at)) == (t, [Record(t.keys[urn], urn, digest, text, at, None)])
            && Travels(p, Upsert(urn, digest, text, at))
  {
  }

  /** A changed time alone leaves no event, so it travels only if it changes nothing. */
  lemma SilentHead(p: Store, c: Copy, urn: string, at: int)
    requires InStep(p, c) && urn in p.recs
    ensures InStep(Rewritten(p, urn, p.recs[urn].digest, p.recs[urn].text, at), c)
            <==> Effective(Rewritten(p, urn, p.recs[urn].digest, p.recs[urn].text, at), urn) == Effective(p, urn)
  {
    assert Effective(p, urn) == Effective(c.store, urn);
    assert c.bound[p.keys[urn] := Binding(c.store.keys[urn], p.recs[urn].digest)] == c.bound;
    Touched(p, c, c.store, urn, p.recs[urn].text, at);
  }

  lemma HeadTravels(p: Store, c: Copy, urn: string, digest: string, revision: Option<string>, at: int)
    requires InStep(p, c)
    ensures var op := SetHead(urn, digest, revision, at);
            Carries(c, Produced(p, op).0, Produced(p, op).1, Travels(p, op))
  {
    if urn in p.recs { InStepRecord(p, c, urn); }
    hide Carries, InStep, StoreOk, Replayed, Effective, Covered;
    var op := SetHead(urn, digest, revision, at);
    var t := Produced(p, op).0;
    if revision.Some? && urn in p.recs {
      CoveredKeepsTime(p, urn, digest, revision.value, at);
      var e := Record(p.keys[urn], urn, digest, revision.value, at, Some(p.recs[urn].digest));
      if p.recs[urn].digest != digest {
        UpdateInStep(p, c, urn, digest, revision.value, at);
        CarriesOne(c, t, e, Travels(p, op));
      } else if p.recs[urn].text != revision.value {
        TouchInStep(p, c, urn, revision.value, at);
        CarriesOne(c, t, e, Travels(p, op));
      } else {
        SilentHead(p, c, urn, at);
        CarriesNone(c, t, Travels(p, op));
      }
    } else {
      CarriesNone(c, t, true);
    }
  }

  lemma SightTravels(p: Store, c: Copy, urns: set<string>, at: int)
    requires InStep(p, c)
    ensures var (t, events) := Produced(p, Sight(urns, at));
            ReplayAll(c, events).Ok? && InStep(t, ReplayAll(c, events).value) && Outcomes(c, events) == []
  {
    hide InStep, Replayed, Effective, ReplayAll, Outcomes;
    NoEvent(c);
    var ids := IdsOf(p, urns);
    if ids != {} {
      forall id | id in ids ensures exists u :: u in p.keys && p.keys[u] == id {}
      hide IdsOf;
      RefreshInStep(p, c, ids, at);
      OneEvent(c, Refresh(ids, at));
    }
  }

  /** After any write, replaying its events keeps the copy in step exactly when the write travels. */
  lemma WriteTravels(p: Store, c: Copy, op: Op)
    requires InStep(p, c)
    ensures var (t, events) := Produced(p, op);
            ReplayAll(c, events).Ok? && (InStep(t, ReplayAll(c, events).value) <==> Travels(p, op))
            && Conflict !in Outcomes(c, events) && (Travels(p, op) ==> Smooth(c, events))
  {
    match op
    case Upsert(urn, digest, text, at) => UpsertTravels(p, c, urn, digest, text, at);
    case SetHead(urn, digest, revision, at) => HeadTravels(p, c, urn, digest, revision, at);
    case Sight(urns, at) => SightTravels(p, c, urns, at);
  }

  /** Keeping the current head in a conflict stamps it as of now, and no journal event says so. */
  lemma KeptHeadDoesNotTravel()
    ensures var (p, events) := Produced(Empty(), Upsert("u", "d", "t", 10));
            && Produced(p, SetHead("u", "d", Some("t"), 20)).1 == []
            && Effective(Produced(p, SetHead("u", "d", Some("t"), 20)).0, "u") == 20
            && ReplayAll(Copy(Empty(), map[]), events).Ok?
            && "u" in ReplayAll(Copy(Empty(), map[]), events).value.store.recs
            && Effective(ReplayAll(Copy(Empty(), map[]), events).value.store, "u") == 10
  {
    var (p, events) := Produced(Empty(), Upsert("u", "d", "t", 10));
    OneEvent(Copy(Empty(), map[]), events[0]);
  }

  // ---- Whole histories ----

  /** The producer after a history of writes, with its journal. */
  function History(ops: seq<Op>): (Store, seq<Event>) {
    if ops == [] then (Empty(), []) else
      var (s, journal) := History(ops[..|ops| - 1]);
      var (t, events) := Produced(s, ops[|ops| - 1]);
      (t, journal + events)
  }

  predicate AllTravel(ops: seq<Op>) {
    ops == [] || (AllTravel(ops[..|ops| - 1]) && Travels(History(ops[..|ops| - 1]).0, ops[|ops| - 1]))
  }

  lemma {:induction false} ReplayJoined(c: Copy, a: seq<Event>, b: seq<Event>)
    requires ReplayAll(c, a).Ok?
    ensures ReplayAll(c, a + b) == ReplayAll(ReplayAll(c, a).value, b)
    ensures Outcomes(c, a + b) == Outcomes(c, a) + Outcomes(ReplayAll(c, a).value, b)
    decreases |b|
  {
    hide Replayed;
    if b == [] {
      assert a + b == a;
    } else {
      ReplayJoined(c, a, b[..|b| - 1]);
      assert (a + b)[..|a + b| - 1] == a + b[..|b| - 1];
    }
  }

  /**
   Replaying a whole journal into an empty cache reproduces every head and every effective time, and no record meets a
   conflict or a later one on the way.
   */
  lemma {:induction false} ReplicaFollows(ops: seq<Op>)
    requires AllTravel(ops)
    ensures var (s, journal) := History(ops);
            var r := ReplayAll(Copy(Empty(), map[]), journal);
            r.Ok? && InStep(s, r.value) && Smooth(Copy(Empty(), map[]), journal)
    decreases |ops|
  {
    if ops != [] {
      var front, op := ops[..|ops| - 1], ops[|ops| - 1];
      ReplicaFollows(front);
      var (s, journal) := History(front);
      var c := ReplayAll(Copy(Empty(), map[]), journal).value;
      hide InStep, Produced, Travels;
      WriteTravels(s, c, op);
      ReplayJoined(Copy(Empty(), map[]), journal, Produced(s, op).1);
    }
  }
}
