/** The cache's record writes, step by step, against the replication model's functions. */
module RecordCache {
  import opened Wrappers
  import opened Replica

  datatype Incoming = Incoming(urn: string, digest: string, text: string)

  /** The batch written record by record. */
  function OneByOne(s: Store, recs: seq<Incoming>, at: int): Store {
    if recs == [] then s else
      var r := recs[|recs| - 1];
      Upserted(OneByOne(s, recs[..|recs| - 1], at), r.urn, r.digest, r.text, at, Local).0
  }

  /** `upsert`, but for the refresh of an unchanged record. */
  function Quiet(s: Store, r: Incoming, at: int): (Store, Outcome, seq<Event>) {
    if r.urn in s.recs && s.recs[r.urn].digest == r.digest then (s, Unchanged, [])
    else Upserted(s, r.urn, r.digest, r.text, at, Local)
  }

  /** What the batch remembers of a head still tells whether a sighting at `at` would be news. */
  ghost predicate HeadKnown(o: Store, urn: string, digest: string, observed: int, at: int) {
    && urn in o.recs && urn in o.keys && o.recs[urn].digest == digest
    && (observed <= at ==> Effective(o, urn) <= at || (o.keys[urn] in o.sights && o.sights[o.keys[urn]] > at))
    && (observed > at ==> Effective(o, urn) > at)
  }

  /** `b` is the batch's store before the closing refresh of the `same` records, `o` the one-by-one store. */
  ghost predicate Behind(b: Store, o: Store, same: set<string>, at: int) {
    && b.recs == o.recs && b.keys == o.keys && b.nextKey == o.nextKey && StoreOk(o)
    && same <= o.recs.Keys
    && o.sights == Stamped(b.sights, IdsOf(b, same), at)
  }

  lemma StampedMore(sights: map<int, int>, ids: set<int>, id: int, at: int)
    ensures Stamped(Stamped(sights, ids, at), {id}, at) == Stamped(sights, ids + {id}, at)
    ensures id in sights && sights[id] > at ==> Stamped(sights, ids + {id}, at) == Stamped(sights, ids, at)
  {
  }

  lemma IdsMore(s: Store, urns: set<string>, urn: string)
    requires urn in s.keys
    ensures IdsOf(s, urns + {urn}) == IdsOf(s, urns) + {s.keys[urn]}
  {
  }

  /** An unchanged record: refreshed now or at the end, or not at all, comes to the same. */
  lemma SameBehind(b: Store, o: Store, same: set<string>, r: Incoming, observed: int, at: int)
    requires Behind(b, o, same, at) && HeadKnown(o, r.urn, r.digest, observed, at)
    ensures Behind(b, Upserted(o, r.urn, r.digest, r.text, at, Local).0, if observed <= at then same + {r.urn} else same, at)
    ensures HeadKnown(Upserted(o, r.urn, r.digest, r.text, at, Local).0, r.urn, r.digest, Later(observed, at), at)
  {
    SameSights(b, o, same, r, observed, at);
    SameHead(o, r, observed, at);
    assert StoreOk(Upserted(o, r.urn, r.digest, r.text, at, Local).0) by { UpsertOk(o, r.urn, r.digest, r.text, at, Local); }
    hide StoreOk, Stamped, HeadKnown, Effective;
  }

  lemma SameHead(o: Store, r: Incoming, observed: int, at: int)
    requires HeadKnown(o, r.urn, r.digest, observed, at)
    ensures HeadKnown(Upserted(o, r.urn, r.digest, r.text, at, Local).0, r.urn, r.digest, Later(observed, at), at)
  {
  }

  /** A record refreshed at its time has the sights of one refreshed at the end, and a later one needs no refresh. */
  lemma SameSights(b: Store, o: Store, same: set<string>, r: Incoming, observed: int, at: int)
    requires Behind(b, o, same, at) && HeadKnown(o, r.urn, r.digest, observed, at)
    ensures Upserted(o, r.urn, r.digest, r.text, at, Local).0.sights
            == Stamped(b.sights, IdsOf(b, if observed <= at then same + {r.urn} else same), at)
  {
    hide StoreOk;
    var id := o.keys[r.urn];
    IdsMore(b, same, r.urn);
    StampedMore(b.sights, IdsOf(b, same), id, at);
    if observed <= at && Effective(o, r.urn) > at {
      assert id in o.sights && o.sights[id] > at;
      assert id in b.sights && b.sights[id] > at;
    }
  }

  /** A written record: both stores change alike, and the batch knows the new head. */
  lemma WrittenBehind(b: Store, o: Store, same: set<string>, r: Incoming, at: int)
    requires Behind(b, o, same, at) && (r.urn in o.recs ==> o.recs[r.urn].digest != r.digest)
    ensures var x, y := Upserted(b, r.urn, r.digest, r.text, at, Local), Upserted(o, r.urn, r.digest, r.text, at, Local);
            && Behind(x.0, y.0, same, at) && x.1 == y.1 && (x.1.Inserted? || x.1.Updated?) && x.2 == y.2
            && HeadKnown(y.0, r.urn, r.digest, at, at)
  {
    WrittenHead(o, r, at);
    UpsertOk(o, r.urn, r.digest, r.text, at, Local);
    SameKeys(o);
    hide StoreOk, Effective, HeadKnown, Stamped;
    var x, y := Upserted(b, r.urn, r.digest, r.text, at, Local).0, Upserted(o, r.urn, r.digest, r.text, at, Local).0;
    assert IdsOf(x, same) == IdsOf(b, same);
  }

  lemma SameKeys(s: Store)
    requires StoreOk(s)
    ensures s.keys.Keys == s.recs.Keys
  {
  }

  lemma WrittenHead(o: Store, r: Incoming, at: int)
    requires StoreOk(o) && (r.urn in o.recs ==> o.recs[r.urn].digest != r.digest)
    ensures HeadKnown(Upserted(o, r.urn, r.digest, r.text, at, Local).0, r.urn, r.digest, at, at)
  {
  }

  /** The heads of other records are not touched. */
  lemma HeadStill(o: Store, r: Incoming, at: int, urn: string, digest: string, observed: int)
    requires StoreOk(o) && HeadKnown(o, urn, digest, observed, at) && urn != r.urn
    ensures HeadKnown(Upserted(o, r.urn, r.digest, r.text, at, Local).0, urn, digest, observed, at)
  {
  }

  lemma UpsertOk(s: Store, urn: string, digest: string, text: string, at: int, origin: Origin)
    requires StoreOk(s)
    ensures StoreOk(Upserted(s, urn, digest, text, at, origin).0)
  {
    SameKeys(s);
    UpsertCases(s, urn, digest, text, at, origin);
    hide *;
    if urn !in s.recs {
      AddedOk(s, urn, digest, text, at);
    } else {
      RewriteStore(s, urn, digest, text, at);
      StampStore(s, {s.keys[urn]}, at);
    }
  }

  lemma UpsertCases(s: Store, urn: string, digest: string, text: string, at: int, origin: Origin)
    ensures var t := Upserted(s, urn, digest, text, at, origin).0;
            if urn !in s.recs then t == Added(s, urn, digest, text, at)
            else t == s || t == Rewritten(s, urn, digest, text, at) || (urn in s.keys && t == Refreshed(s, {s.keys[urn]}, at))
  {
    hide Effective, Stamped, Keyed;
  }

  lemma StampStore(s: Store, ids: set<int>, at: int)
    requires StoreOk(s) && ids <= s.keys.Values
    ensures StoreOk(Refreshed(s, ids, at))
  {
  }

  class RecordCache {
    var recs: map<string, Rec>
    var keys: map<string, int>
    var sights: map<int, int>
    var nextKey: int
    var journal: seq<Event>

    function Now(): Store
      reads `recs, `keys, `sights, `nextKey
    {
      Store(recs, keys, sights, nextKey)
    }

    constructor ()
      ensures Now() == Empty() && journal == []
    {
      recs, keys, sights, nextKey, journal := map[], map[], map[], 1, [];
    }

    method RefreshRecords(urns: set<string>, at: int)
      modifies `sights, `journal
      ensures Now() == Sighted(old(Now()), urns, at).0 && journal == old(journal) + Sighted(old(Now()), urns, at).1
    {
      var ids := set urn | urn in urns && urn in keys :: keys[urn];
      if ids != {} {
        sights := Stamped(sights, ids, at);
        journal := journal + [Refresh(ids, at)];
      }
    }

    /** `_upsert`: with the refresh of an unchanged record, or leaving it to the batch. */
    method Write(r: Incoming, at: int, origin: Origin, refresh: bool) returns (outcome: Outcome)
      requires StoreOk(Now())
      modifies this
      ensures StoreOk(Now())
      ensures refresh ==> var u := Upserted(old(Now()), r.urn, r.digest, r.text, at, origin);
                          Now() == u.0 && outcome == u.1 && journal == old(journal) + u.2
      ensures !refresh && origin.Local? ==> var u := Quiet(old(Now()), r, at);
                          Now() == u.0 && outcome == u.1 && journal == old(journal) + u.2
      // Which outcome it is: an import replaces only a head that it knows, by an observation that is not older.
      ensures outcome.Inserted? <==> r.urn !in old(recs)
      ensures outcome.Unchanged? <==> r.urn in old(recs) && old(recs)[r.urn].digest == r.digest
      ensures outcome.Conflict? <==>
        r.urn in old(recs) && old(recs)[r.urn].digest != r.digest && origin.Import? && old(recs)[r.urn].digest !in origin.prior
      ensures outcome.Older? ==> origin.Import? && r.urn in old(recs) && at < Effective(old(Now()), r.urn)
      ensures outcome.Updated? ==> r.urn in old(recs) && (origin.Import? ==>
                old(recs)[r.urn].digest in origin.prior && Effective(old(Now()), r.urn) <= at)
      ensures outcome.Conflict? || outcome.Older? ==> Now() == old(Now()) && journal == old(journal)
      ensures recs == if outcome.Inserted? || outcome.Updated? then old(recs)[r.urn := Rec(r.digest, r.text, at)] else old(recs)
    {
      hide StoreOk, Effective, Stamped;
      ghost var was := Now();
      UpsertOk(was, r.urn, r.digest, r.text, at, origin);
      SameKeys(was);
      if r.urn !in recs {
        keys, nextKey := keys[r.urn := nextKey], nextKey + 1;
        recs := recs[r.urn := Rec(r.digest, r.text, at)];
        journal := journal + [Record(keys[r.urn], r.urn, r.digest, r.text, at, None)];
        assert Now() == Upserted(was, r.urn, r.digest, r.text, at, origin).0;
        return Inserted;
      }
      if recs[r.urn].digest == r.digest {
        if refresh && at >= Effective(Now(), r.urn) {
          sights := Stamped(sights, {keys[r.urn]}, at);
          journal := journal + [Refresh({keys[r.urn]}, at)];
          assert Now() == Refreshed(was, {was.keys[r.urn]}, at);
        }
        return Unchanged;
      }
      if origin.Import? && recs[r.urn].digest !in origin.prior { return Conflict; }
      if origin.Import? && at < Effective(Now(), r.urn) { return Older; }
      var previous := recs[r.urn].digest;
      recs := recs[r.urn := Rec(r.digest, r.text, at)];
      journal := journal + [Record(keys[r.urn], r.urn, r.digest, r.text, at, Some(previous))];
      assert Now() == Rewritten(was, r.urn, r.digest, r.text, at);
      return Updated;
    }

    /** Conflict resolution: a stored revision becomes the head. */
    method SetHead(urn: string, digest: string, revision: Option<string>, at: int) returns (done: bool)
      requires StoreOk(Now())
      modifies `recs, `journal
      ensures StoreOk(Now()) && done == revision.Some?
      ensures var h := HeadSet(old(Now()), urn, digest, revision, at); Now() == h.0 && journal == old(journal) + h.1
    {
      if revision.None? { return false; }
      if urn in recs {
        var was := recs[urn];
        assert recs[urn := Rec(digest, revision.value, at)].Keys == recs.Keys;
        recs := recs[urn := Rec(digest, revision.value, at)];
        if was.digest != digest || was.text != revision.value {
          journal := journal + [Record(keys[urn], urn, digest, revision.value, at, Some(was.digest))];
        }
      }
      return true;
    }

    /** One lookup of the heads for the whole batch; records found unchanged are refreshed together at the end. */
    method UpsertMany(batch: seq<Incoming>, at: int)
      requires StoreOk(Now())
      modifies this
      ensures StoreOk(Now()) && Now() == OneByOne(old(Now()), batch, at)
    {
      var heads: map<string, (string, int)> := map urn | urn in recs :: (recs[urn].digest, Effective(Now(), urn));
      var same: set<string> := {};
      ghost var o := Now();
      BeginBatch(Now(), at);
      hide Behind, HeadKnown, AllKnown, StoreOk, Upserted, Sighted;
      for i := 0 to |batch|
        invariant o == OneByOne(old(Now()), batch[..i], at) && Behind(Now(), o, same, at)
        invariant AllKnown(o, heads, recs.Keys, at) && StoreOk(Now())
      {
        var r := batch[i];
        OneRecord(old(Now()), batch, i, at);
        same, heads := WriteNext(r, at, same, heads, o);
        o := Upserted(o, r.urn, r.digest, r.text, at, Local).0;
      }
      assert batch[..|batch|] == batch;
      EndBatch(Now(), o, same, at);
      RefreshRecords(same, at);
    }

    method WriteNext(r: Incoming, at: int, same: set<string>, heads: map<string, (string, int)>, ghost o: Store)
      returns (same': set<string>, heads': map<string, (string, int)>)
      requires Behind(Now(), o, same, at) && StoreOk(Now()) && AllKnown(o, heads, recs.Keys, at)
      modifies this
      ensures var next := Upserted(o, r.urn, r.digest, r.text, at, Local).0;
              Behind(Now(), next, same', at) && StoreOk(Now()) && AllKnown(next, heads', recs.Keys, at)
    {
      StepKnown(Now(), o, same, r, at, heads);
      hide Behind, AllKnown, StoreOk, Upserted, Quiet;
      var outcome := Write(r, at, Local, false);
      if outcome == Unchanged {
        same' := if heads[r.urn].1 <= at then same + {r.urn} else same;
        heads' := heads[r.urn := (r.digest, Later(heads[r.urn].1, at))];
      } else {
        same' := same;
        heads' := heads[r.urn := (r.digest, at)];
      }
    }
  }

  ghost predicate AllKnown(o: Store, heads: map<string, (string, int)>, urns: set<string>, at: int) {
    heads.Keys == urns && forall urn :: urn in heads ==> HeadKnown(o, urn, heads[urn].0, heads[urn].1, at)
  }

  lemma OthersKnown(o: Store, r: Incoming, at: int, heads: map<string, (string, int)>, head: (string, int))
    requires StoreOk(o) && AllKnown(o, heads, heads.Keys, at)
    requires HeadKnown(Upserted(o, r.urn, r.digest, r.text, at, Local).0, r.urn, head.0, head.1, at)
    ensures var next := Upserted(o, r.urn, r.digest, r.text, at, Local).0;
            AllKnown(next, heads[r.urn := head], heads.Keys + {r.urn}, at)
  {
    hide StoreOk, Upserted;
    var next := Upserted(o, r.urn, r.digest, r.text, at, Local).0;
    var more := heads[r.urn := head];
    forall urn | urn in more ensures HeadKnown(next, urn, more[urn].0, more[urn].1, at) {
      if urn != r.urn {
        assert HeadKnown(o, urn, heads[urn].0, heads[urn].1, at);
        HeadStill(o, r, at, urn, heads[urn].0, heads[urn].1);
      }
    }
  }

  /** One record of the batch, whichever way it goes. */
  lemma StepKnown(b: Store, o: Store, same: set<string>, r: Incoming, at: int, heads: map<string, (string, int)>)
    requires Behind(b, o, same, at) && AllKnown(o, heads, b.recs.Keys, at)
    ensures var q := Quiet(b, r, at);
            var next := Upserted(o, r.urn, r.digest, r.text, at, Local).0;
            if q.1.Unchanged? then
              && r.urn in heads
              && Behind(q.0, next, if heads[r.urn].1 <= at then same + {r.urn} else same, at)
              && AllKnown(next, heads[r.urn := (r.digest, Later(heads[r.urn].1, at))], q.0.recs.Keys, at)
            else Behind(q.0, next, same, at) && AllKnown(next, heads[r.urn := (r.digest, at)], q.0.recs.Keys, at)
  {
    assert b.recs == o.recs && StoreOk(o) && heads.Keys == b.recs.Keys;
    assert Quiet(b, r, at).0.recs.Keys == b.recs.Keys + {r.urn};
    if Quiet(b, r, at).1.Unchanged? {
      SameKnown(b, o, r, at, heads);
      hide Behind, AllKnown, HeadKnown, StoreOk, Effective;
      SameBehind(b, o, same, r, heads[r.urn].1, at);
      OthersKnown(o, r, at, heads, (r.digest, Later(heads[r.urn].1, at)));
    } else {
      hide Behind, AllKnown, HeadKnown, StoreOk, Effective;
      WrittenBehind(b, o, same, r, at);
      OthersKnown(o, r, at, heads, (r.digest, at));
    }
  }

  lemma SameKnown(b: Store, o: Store, r: Incoming, at: int, heads: map<string, (string, int)>)
    requires AllKnown(o, heads, b.recs.Keys, at) && b.recs == o.recs && Quiet(b, r, at).1.Unchanged?
    ensures r.urn in heads && HeadKnown(o, r.urn, r.digest, heads[r.urn].1, at)
  {
  }

  lemma OneRecord(s: Store, batch: seq<Incoming>, i: nat, at: int)
    requires i < |batch|
    ensures OneByOne(s, batch[..i + 1], at)
            == Upserted(OneByOne(s, batch[..i], at), batch[i].urn, batch[i].digest, batch[i].text, at, Local).0
  {
    assert batch[..i + 1][..i] == batch[..i] && batch[..i + 1][i] == batch[i];
  }

  lemma BeginBatch(s: Store, at: int)
    requires StoreOk(s)
    ensures Behind(s, s, {}, at)
    ensures AllKnown(s, map urn | urn in s.recs :: (s.recs[urn].digest, Effective(s, urn)), s.recs.Keys, at)
  {
    assert IdsOf(s, {}) == {};
    assert Stamped(s.sights, {}, at) == s.sights;
  }

  lemma EndBatch(b: Store, o: Store, same: set<string>, at: int)
    requires Behind(b, o, same, at)
    ensures Sighted(b, same, at).0 == o
  {
    assert IdsOf(b, same) == {} ==> Stamped(b.sights, {}, at) == b.sights;
  }
}
