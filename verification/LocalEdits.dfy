/**
 What an import may do to records that are there already. A head gives way only to a change that names it as the one it
 replaces; everything else that differs is a conflict, and the local record stays as it is.
 */
module LocalEdits {
  import opened Wrappers
  import opened Replica

  /** The event carries a head of record `urn`. */
  predicate Of(e: Event, urn: string) {
    e.Record? && e.urn == urn
  }

  /** The replica's own journal rows for one replayed event. */
  function Echo(c: Copy, e: Event): seq<Event> {
    match e
    case Record(id, urn, digest, text, at, previous) =>
      Upserted(c.store, urn, digest, text, at, Import(if previous.Some? then {previous.value} else {})).2
    case Refresh(ids, at) => if Eligible(c, ids) == {} then [] else [Refresh(Eligible(c, ids), at)]
  }

  /** And for a whole journal, as far as it is replayed. */
  function Echoes(c: Copy, events: seq<Event>): seq<Event> {
    if events == [] then [] else
      var front := events[..|events| - 1];
      Echoes(c, front) + if ReplayAll(c, front).Ok? then Echo(ReplayAll(c, front).value, events[|events| - 1]) else []
  }

  /** How the record of one event is received, exactly. */
  lemma Received(c: Copy, e: Event)
    requires e.Record? && Replayed(c, e).Ok?
    ensures var (d, outcome) := Replayed(c, e).value;
            var known := e.urn in c.store.recs;
            var differs := known && c.store.recs[e.urn].digest != e.digest;
            var named := known && e.previous == Some(c.store.recs[e.urn].digest);
            var late := known && e.at < Effective(c.store, e.urn);
            && (outcome == Some(Inserted) <==> !known)
            && (outcome == Some(Unchanged) <==> known && !differs)
            && (outcome == Some(Conflict) <==> differs && !named)
            && (outcome == Some(Older) <==> differs && named && late)
            && (outcome == Some(Updated) <==> differs && named && !late)
            && d.store.recs == (if outcome in {Some(Inserted), Some(Updated)} then c.store.recs[e.urn := Rec(e.digest, e.text, e.at)]
                                else c.store.recs)
            && (outcome in {Some(Conflict), Some(Older)} ==> d.store.sights == c.store.sights && Echo(c, e) == [])
  {
    hide Effective, Stamped, Eligible;
  }

  /** A head changes only to an event that names it as the previous one and is not older. */
  lemma HeadGivesWay(c: Copy, e: Event, urn: string)
    requires Replayed(c, e).Ok? && urn in c.store.recs
    ensures var was, d := c.store.recs[urn], Replayed(c, e).value.0;
            && urn in d.store.recs
            && (d.store.recs[urn] != was <==>
                  Of(e, urn) && e.previous == Some(was.digest) && e.digest != was.digest && Effective(c.store, urn) <= e.at)
            && (d.store.recs[urn] != was ==> d.store.recs[urn] == Rec(e.digest, e.text, e.at))
  {
    if e.Record? {
      Received(c, e);
      hide Replayed, Effective;
    }
  }

  /** No event of these replaces the head `digest` of record `urn`. */
  ghost predicate Unnamed(events: seq<Event>, urn: string, digest: string) {
    forall i :: 0 <= i < |events| ==> !(Of(events[i], urn) && events[i].previous == Some(digest))
  }

  /** The outcome of event number `i` of a replay. */
  ghost function OutcomeAt(c: Copy, events: seq<Event>, i: nat): Option<Outcome>
    requires i < |events|
  {
    if ReplayAll(c, events[..i]).Ok? && Replayed(ReplayAll(c, events[..i]).value, events[i]).Ok?
    then Replayed(ReplayAll(c, events[..i]).value, events[i]).value.1 else None
  }

  /** A journal row of record `urn`. */
  ghost predicate NoRowOf(rows: seq<Event>, urn: string) {
    forall i :: 0 <= i < |rows| ==> !Of(rows[i], urn)
  }

  lemma ReplayedFront(c: Copy, events: seq<Event>)
    requires events != [] && ReplayAll(c, events).Ok?
    ensures var d := ReplayAll(c, events[..|events| - 1]);
            d.Ok? && Replayed(d.value, events[|events| - 1]).Ok? && ReplayAll(c, events) == Ok(Replayed(d.value, events[|events| - 1]).value.0)
  {
    hide Replayed;
  }

  /**
   A local edit survives any imports whose changes do not name it: the record keeps its digest, text and time; every event
   that carries other content for it is a conflict; and no journal row of it is written.
   */
  lemma {:induction false} LocalEditSurvives(c: Copy, events: seq<Event>, urn: string)
    requires ReplayAll(c, events).Ok? && urn in c.store.recs && Unnamed(events, urn, c.store.recs[urn].digest)
    ensures var s := ReplayAll(c, events).value.store;
            urn in s.recs && s.recs[urn] == c.store.recs[urn]
    ensures forall i :: 0 <= i < |events| && Of(events[i], urn) ==>
      OutcomeAt(c, events, i) == Some(if events[i].digest == c.store.recs[urn].digest then Unchanged else Conflict)
    ensures NoRowOf(Echoes(c, events), urn)
    decreases |events|
  {
    hide Replayed, ReplayAll, Echo, Effective;
    if events == [] {
      NoEvent(c);
    } else {
      var front, e := events[..|events| - 1], events[|events| - 1];
      ReplayedFront(c, events);
      LocalEditSurvives(c, front, urn);
      var d := ReplayAll(c, front).value;
      HeadGivesWay(d, e, urn);
      EchoKeeps(d, e, urn);
      if Of(e, urn) { Received(d, e); }
      forall i | 0 <= i < |events| && Of(events[i], urn)
        ensures OutcomeAt(c, events, i) == Some(if events[i].digest == c.store.recs[urn].digest then Unchanged else Conflict)
      {
        if i < |front| { assert front[..i] == events[..i] && front[i] == events[i]; }
      }
    }
  }

  lemma EchoKeeps(c: Copy, e: Event, urn: string)
    requires urn in c.store.recs && !(Of(e, urn) && e.previous == Some(c.store.recs[urn].digest))
    ensures NoRowOf(Echo(c, e), urn)
  {
    hide Effective, Stamped, Eligible;
  }

  // ---- The effective time ----

  /** The key of record `urn` is its own. */
  ghost predicate OwnKey(s: Store, urn: string) {
    && urn in s.recs && urn in s.keys && s.keys[urn] < s.nextKey
    && forall v :: v in s.keys && v != urn ==> s.keys[v] != s.keys[urn]
  }

  /** The producer's content for record `urn`, where it is bound, is not what is stored here. */
  ghost predicate Foreign(c: Copy, urn: string)
    requires urn in c.store.recs && urn in c.store.keys
  {
    forall id :: id in c.bound && c.bound[id].local == c.store.keys[urn] ==> c.bound[id].head != c.store.recs[urn].digest
  }

  /** An event that neither carries nor replaces the head of a foreign record leaves its time alone. */
  lemma TimeKept(c: Copy, e: Event, urn: string)
    requires Replayed(c, e).Ok? && OwnKey(c.store, urn) && Foreign(c, urn)
    requires Of(e, urn) ==> e.digest != c.store.recs[urn].digest && e.previous != Some(c.store.recs[urn].digest)
    ensures var d := Replayed(c, e).value.0;
            && OwnKey(d.store, urn) && Foreign(d, urn)
            && d.store.recs[urn] == c.store.recs[urn] && Effective(d.store, urn) == Effective(c.store, urn)
  {
    HeadGivesWay(c, e, urn);
    match e
    case Record(_, _, _, _, _, _) =>
      KeyKept(c, e, urn);
      SightKept(c, e, urn);
    case Refresh(ids, at) => assert c.store.keys[urn] !in Eligible(c, ids);
  }

  lemma KeyKept(c: Copy, e: Event, urn: string)
    requires e.Record? && Replayed(c, e).Ok? && OwnKey(c.store, urn) && Foreign(c, urn)
    requires e.urn == urn ==> e.digest != c.store.recs[urn].digest && e.previous != Some(c.store.recs[urn].digest)
    ensures var d := Replayed(c, e).value.0;
            OwnKey(d.store, urn) && d.store.keys[urn] == c.store.keys[urn] && Foreign(d, urn)
  {
    hide Eligible, Stamped, Effective;
    HeadGivesWay(c, e, urn);
  }

  lemma SightKept(c: Copy, e: Event, urn: string)
    requires e.Record? && Replayed(c, e).Ok? && OwnKey(c.store, urn)
    requires e.urn == urn ==> e.digest != c.store.recs[urn].digest && e.previous != Some(c.store.recs[urn].digest)
    ensures var d := Replayed(c, e).value.0;
            urn in d.store.recs && Effective(d.store, urn) == Effective(c.store, urn)
  {
    HeadGivesWay(c, e, urn);
    hide Eligible;
  }

  /**
   And a record whose content the producer never had keeps its effective time too: no refresh of the producer's record is
   taken for a sighting of it.
   */
  lemma {:induction false} LocalTimeSurvives(c: Copy, events: seq<Event>, urn: string)
    requires ReplayAll(c, events).Ok? && OwnKey(c.store, urn) && Foreign(c, urn)
    requires Unnamed(events, urn, c.store.recs[urn].digest)
    requires forall i :: 0 <= i < |events| && Of(events[i], urn) ==> events[i].digest != c.store.recs[urn].digest
    ensures var d := ReplayAll(c, events).value;
            && OwnKey(d.store, urn) && Foreign(d, urn)
            && d.store.recs[urn] == c.store.recs[urn] && Effective(d.store, urn) == Effective(c.store, urn)
    decreases |events|
  {
    hide Replayed, ReplayAll, Effective, Foreign, OwnKey;
    if events == [] {
      NoEvent(c);
    } else {
      ReplayedFront(c, events);
      LocalTimeSurvives(c, events[..|events| - 1], urn);
      TimeKept(ReplayAll(c, events[..|events| - 1]).value, events[|events| - 1], urn);
    }
  }
}
