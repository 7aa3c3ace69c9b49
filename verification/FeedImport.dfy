/**
 Replaying changefeed batches. Several streams of one producer may overlap; every journal entry takes effect
 once, in journal order, and what has been applied is always a prefix of the producer's journal.
 */
module FeedImport {
  import opened Wrappers
  import opened Changefeed

  /** Where an import stands on one stream, and whose stream it is. */
  datatype Head = Head(producer: string, place: Place)

  datatype Action = Imported | AlreadyImported | BranchConflict | Invalid

  /** The digest of one numbered change. */
  type Hash = (nat, Change) -> string

  /** The sequences of a batch with their digests. */
  function Digests(b: Batch, hash: Hash): map<(string, nat), string>
    requires WellFormed(b)
  {
    map n | b.after < n <= b.through :: (b.producer, n) := hash(n, b.changes[n - b.after - 1])
  }

  /** A sequence applied before was applied with the same evidence. */
  predicate Consistent(applied: map<(string, nat), string>, b: Batch, hash: Hash)
    requires WellFormed(b)
  {
    forall n :: b.after < n <= b.through && (b.producer, n) in applied ==> applied[(b.producer, n)] == hash(n, b.changes[n - b.after - 1])
  }

  /** A change that took effect, under its sequence number. */
  datatype Effect = Effect(sequence: nat, change: Change)

  /** The changes of a batch whose sequences were not applied before, in order, up to number `n` of the batch. */
  function NewChanges(applied: map<(string, nat), string>, b: Batch, n: nat): seq<Effect>
    requires WellFormed(b) && n <= |b.changes|
  {
    if n == 0 then [] else
      NewChanges(applied, b, n - 1) + if (b.producer, b.after + n) in applied then [] else [Effect(b.after + n, b.changes[n - 1])]
  }

  // ---- One producer's journal ----

  /** The first `m` entries of a journal, numbered from 1. */
  function Numbered(journal: seq<Change>, m: nat): seq<Effect>
    requires m <= |journal|
  {
    if m == 0 then [] else Numbered(journal, m - 1) + [Effect(m, journal[m - 1])]
  }

  /** What was applied for the producer is exactly the first `m` entries of its journal, each once, in order. */
  ghost predicate IsPrefix(applied: map<(string, nat), string>, effects: seq<Effect>, producer: string, journal: seq<Change>, hash: Hash, m: nat) {
    && m <= |journal| && effects == Numbered(journal, m)
    && (forall n :: (producer, n) in applied <==> 1 <= n <= m)
    && (forall n :: 1 <= n <= m && (producer, n) in applied ==> applied[(producer, n)] == hash(n, journal[n - 1]))
  }

  lemma DigestsPrefix(applied: map<(string, nat), string>, effects: seq<Effect>, b: Batch, journal: seq<Change>, hash: Hash, m: nat, n: nat)
    requires IsPrefix(applied, effects, b.producer, journal, hash, m) && Honest(b, journal) && b.after <= m
    ensures var k := if b.through < m then m else b.through;
            ((b.producer, n) in applied + Digests(b, hash) <==> 1 <= n <= k)
            && (1 <= n <= k ==> (applied + Digests(b, hash))[(b.producer, n)] == hash(n, journal[n - 1]))
  {
    hide Numbered;
    if b.after < n <= b.through {
      assert (b.producer, n) in Digests(b, hash);
      assert b.changes[n - b.after - 1] == journal[n - 1];
    }
  }

  lemma HonestConsistent(applied: map<(string, nat), string>, effects: seq<Effect>, b: Batch, journal: seq<Change>, hash: Hash, m: nat)
    requires IsPrefix(applied, effects, b.producer, journal, hash, m) && Honest(b, journal)
    ensures Consistent(applied, b, hash)
  {
    forall n | b.after < n <= b.through && (b.producer, n) in applied ensures applied[(b.producer, n)] == hash(n, b.changes[n - b.after - 1]) {
      assert b.changes[n - b.after - 1] == journal[n - 1];
    }
  }

  lemma PrefixFrom(all: map<(string, nat), string>, effects: seq<Effect>, producer: string, journal: seq<Change>, hash: Hash, k: nat)
    requires k <= |journal| && effects == Numbered(journal, k)
    requires forall n: nat :: ((producer, n) in all <==> 1 <= n <= k) && (1 <= n <= k ==> all[(producer, n)] == hash(n, journal[n - 1]))
    ensures IsPrefix(all, effects, producer, journal, hash, k)
  {
  }

  lemma AllDigests(applied: map<(string, nat), string>, effects: seq<Effect>, b: Batch, journal: seq<Change>, hash: Hash, m: nat, k: nat)
    requires IsPrefix(applied, effects, b.producer, journal, hash, m) && Honest(b, journal) && b.after <= m
    requires k == if b.through < m then m else b.through
    ensures k <= |journal|
    ensures var all := applied + Digests(b, hash);
            forall n: nat :: ((b.producer, n) in all <==> 1 <= n <= k) && (1 <= n <= k ==> all[(b.producer, n)] == hash(n, journal[n - 1]))
  {
    var all := applied + Digests(b, hash);
    assert k <= |journal|;
    hide *;
    forall n: nat ensures ((b.producer, n) in all <==> 1 <= n <= k) && (1 <= n <= k ==> all[(b.producer, n)] == hash(n, journal[n - 1])) {
      DigestsPrefix(applied, effects, b, journal, hash, m, n);
    }
  }

  /** An honest batch that starts within the prefix extends it to whichever ends later. */
  lemma PrefixExtends(applied: map<(string, nat), string>, effects: seq<Effect>, b: Batch, journal: seq<Change>, hash: Hash, m: nat)
    requires IsPrefix(applied, effects, b.producer, journal, hash, m) && Honest(b, journal) && b.after <= m
    ensures Consistent(applied, b, hash)
    ensures var k := if b.through < m then m else b.through;
            IsPrefix(applied + Digests(b, hash), effects + NewChanges(applied, b, |b.changes|), b.producer, journal, hash, k)
  {
    hide IsPrefix, Consistent, Digests, NewChanges, Numbered;
    var k := if b.through < m then m else b.through;
    assert b.after + |b.changes| == b.through;
    hide Honest;
    AllDigests(applied, effects, b, journal, hash, m, k);
    NewInOrder(applied, effects, b, journal, hash, m, |b.changes|);
    HonestConsistent(applied, effects, b, journal, hash, m);
    PrefixFrom(applied + Digests(b, hash), effects + NewChanges(applied, b, |b.changes|), b.producer, journal, hash, k);
  }

  /** Another producer's batch touches nothing of this one. */
  lemma PrefixKept(applied: map<(string, nat), string>, effects: seq<Effect>, producer: string, b: Batch, journal: seq<Change>, hash: Hash, m: nat)
    requires IsPrefix(applied, effects, producer, journal, hash, m) && WellFormed(b) && b.producer != producer
    ensures IsPrefix(applied + Digests(b, hash), effects, producer, journal, hash, m)
  {
  }

  lemma {:induction false} NewInOrder(applied: map<(string, nat), string>, effects: seq<Effect>, b: Batch, journal: seq<Change>, hash: Hash, m: nat, n: nat)
    requires IsPrefix(applied, effects, b.producer, journal, hash, m) && Honest(b, journal) && b.after <= m && n <= |b.changes|
    ensures effects + NewChanges(applied, b, n) == Numbered(journal, if b.after + n < m then m else b.after + n)
    decreases n
  {
    if n == 0 {
      assert effects + [] == effects;
    } else {
      NewInOrder(applied, effects, b, journal, hash, m, n - 1);
      var at := b.after + n;
      assert b.changes[n - 1] == journal[at - 1];
      assert at > m <==> (b.producer, at) !in applied;
      assert effects + (NewChanges(applied, b, n - 1) + [Effect(at, b.changes[n - 1])]) == (effects + NewChanges(applied, b, n - 1)) + [Effect(at, b.changes[n - 1])];
    }
  }

  // ---- The import ledger ----

  /** The importer's tables; `effects` is what took effect, by producer, in order. */
  datatype Ledger = Ledger(heads: map<string, Head>, imports: map<string, Batch>, applied: map<(string, nat), string>,
                           effects: map<string, seq<Effect>>)

  function Effects(l: Ledger, producer: string): seq<Effect> {
    if producer in l.effects then l.effects[producer] else []
  }

  /** The parent that the batch names is the stream's head here. */
  predicate ParentPresent(heads: map<string, Head>, b: Batch) {
    if b.stream !in heads then b.after == 0 else heads[b.stream] == Head(b.producer, ParentOf(b))
  }

  function Decide(l: Ledger, b: Batch, hash: Hash): Action
    requires WellFormed(b)
  {
    if b.id in l.imports then if l.imports[b.id] == b then AlreadyImported else Invalid
    else if !ParentPresent(l.heads, b) then BranchConflict
    else if !Consistent(l.applied, b, hash) then Invalid
    else Imported
  }

  /** What one import transaction leaves behind. */
  function Received(l: Ledger, b: Batch, hash: Hash): Ledger
    requires WellFormed(b)
  {
    if Decide(l, b, hash) != Imported then l else
      Ledger(Moved(l.heads, b), l.imports[b.id := b],
             l.applied + Digests(b, hash), l.effects[b.producer := Effects(l, b.producer) + NewChanges(l.applied, b, |b.changes|)])
  }

  /** How far the streams of the producer have come: the largest of their heads. */
  ghost predicate Furthest(heads: map<string, Head>, producer: string, m: nat) {
    && (forall stream :: stream in heads && heads[stream].producer == producer ==> heads[stream].place.sequence <= m)
    && (m == 0 || exists stream :: stream in heads && heads[stream].producer == producer && heads[stream].place.sequence == m)
  }

  /** Applied are exactly 1 to m, m the furthest stream head, each in effect once and in journal order. */
  ghost predicate Follows(l: Ledger, producer: string, journal: seq<Change>, hash: Hash, m: nat) {
    Furthest(l.heads, producer, m) && IsPrefix(l.applied, Effects(l, producer), producer, journal, hash, m)
  }

  function Moved(heads: map<string, Head>, b: Batch): map<string, Head> {
    heads[b.stream := Head(b.producer, Place(b.through, Some(b.id), Some(b.sha)))]
  }

  lemma FurthestMoves(heads: map<string, Head>, b: Batch, m: nat)
    requires Furthest(heads, b.producer, m) && ParentPresent(heads, b) && WellFormed(b)
    ensures b.after <= m && Furthest(Moved(heads, b), b.producer, if b.through < m then m else b.through)
  {
    var more := Moved(heads, b);
    if m > b.through {
      var stream :| stream in heads && heads[stream].producer == b.producer && heads[stream].place.sequence == m;
      assert stream != b.stream && stream in more && more[stream] == heads[stream];
    } else {
      assert b.stream in more;
    }
  }

  /** A stream never changes its producer. */
  lemma FurthestKept(heads: map<string, Head>, b: Batch, producer: string, m: nat)
    requires Furthest(heads, producer, m) && ParentPresent(heads, b) && b.producer != producer
    ensures Furthest(Moved(heads, b), producer, m)
  {
    var more := Moved(heads, b);
    if m > 0 {
      var stream :| stream in heads && heads[stream].producer == producer && heads[stream].place.sequence == m;
      assert stream != b.stream && stream in more && more[stream] == heads[stream];
    }
  }

  lemma OwnBatchFollows(l: Ledger, b: Batch, hash: Hash, journal: seq<Change>, m: nat)
    requires Follows(l, b.producer, journal, hash, m) && Honest(b, journal) && b.id !in l.imports && ParentPresent(l.heads, b)
    ensures Decide(l, b, hash) == Imported
    ensures Follows(Received(l, b, hash), b.producer, journal, hash, if b.through < m then m else b.through)
  {
    FurthestMoves(l.heads, b, m);
    PrefixExtends(l.applied, Effects(l, b.producer), b, journal, hash, m);
    hide IsPrefix, Digests, NewChanges, Consistent, ParentPresent, Furthest, Moved;
  }

  lemma OtherBatchFollows(l: Ledger, b: Batch, hash: Hash, producer: string, journal: seq<Change>, m: nat)
    requires Follows(l, producer, journal, hash, m) && WellFormed(b) && b.producer != producer && Decide(l, b, hash) == Imported
    ensures Follows(Received(l, b, hash), producer, journal, hash, m)
  {
    FurthestKept(l.heads, b, producer, m);
    PrefixKept(l.applied, Effects(l, producer), producer, b, journal, hash, m);
    hide IsPrefix, Digests, NewChanges, Consistent, ParentPresent, Furthest, Moved;
  }

  /** Importing an honest batch keeps every producer's prefix, and extends its own if the batch is new. */
  lemma ReceiveFollows(l: Ledger, b: Batch, hash: Hash, producer: string, journal: seq<Change>, m: nat)
    requires Follows(l, producer, journal, hash, m) && WellFormed(b) && (b.producer == producer ==> Honest(b, journal))
    ensures exists k :: m <= k && Follows(Received(l, b, hash), producer, journal, hash, k)
    ensures b.producer == producer && b.id !in l.imports && ParentPresent(l.heads, b) ==> Decide(l, b, hash) == Imported
  {
    hide Follows, Consistent, ParentPresent, Digests, NewChanges;
    var after := Received(l, b, hash);
    if b.producer == producer && b.id !in l.imports && ParentPresent(l.heads, b) {
      OwnBatchFollows(l, b, hash, journal, m);
      assert Follows(after, producer, journal, hash, if b.through < m then m else b.through);
    } else if Decide(l, b, hash) == Imported {
      OtherBatchFollows(l, b, hash, producer, journal, m);
      assert Follows(after, producer, journal, hash, m);
    } else {
      assert after == l && Follows(after, producer, journal, hash, m);
    }
  }

  // ---- Whole runs ----

  ghost predicate AllHonest(batches: seq<Batch>, journals: map<string, seq<Change>>) {
    forall i :: 0 <= i < |batches| ==>
      WellFormed(batches[i]) && batches[i].producer in journals && Honest(batches[i], journals[batches[i].producer])
  }

  function ReceiveAll(batches: seq<Batch>, hash: Hash): Ledger
    requires forall i :: 0 <= i < |batches| ==> WellFormed(batches[i])
  {
    if batches == [] then Ledger(map[], map[], map[], map[])
    else Received(ReceiveAll(batches[..|batches| - 1], hash), batches[|batches| - 1], hash)
  }

  /**
   Any batches of any streams of any producers, in any order and any number of times, orphans included: what was applied
   of each producer is a prefix of its journal, as long as the furthest of its stream heads, in order and once each.
   */
  lemma {:induction false} AppliedIsPrefix(batches: seq<Batch>, journals: map<string, seq<Change>>, hash: Hash, producer: string)
    requires AllHonest(batches, journals) && producer in journals
    ensures exists m :: Follows(ReceiveAll(batches, hash), producer, journals[producer], hash, m)
    decreases |batches|
  {
    if batches == [] {
      var l := ReceiveAll(batches, hash);
      assert Effects(l, producer) == Numbered(journals[producer], 0);
      assert Follows(l, producer, journals[producer], hash, 0);
    } else {
      var front := batches[..|batches| - 1];
      AppliedIsPrefix(front, journals, hash, producer);
      var m :| Follows(ReceiveAll(front, hash), producer, journals[producer], hash, m);
      hide Follows, Received;
      ReceiveFollows(ReceiveAll(front, hash), batches[|batches| - 1], hash, producer, journals[producer], m);
      assert ReceiveAll(batches, hash) == Received(ReceiveAll(front, hash), batches[|batches| - 1], hash);
    }
  }

  /** Every applied sequence took effect exactly once, with the change whose digest is on record, and no other did. */
  ghost predicate OnceEach(applied: map<(string, nat), string>, effects: seq<Effect>, producer: string, hash: Hash) {
    && (forall i, j :: 0 <= i < j < |effects| ==> effects[i].sequence != effects[j].sequence)
    && (forall i :: 0 <= i < |effects| ==>
          (producer, effects[i].sequence) in applied && applied[(producer, effects[i].sequence)] == hash(effects[i].sequence, effects[i].change))
    && (forall n :: (producer, n) in applied ==> TookEffect(effects, n))
  }

  ghost predicate TookEffect(effects: seq<Effect>, n: nat) {
    exists i :: 0 <= i < |effects| && effects[i].sequence == n
  }

  function NumberOf(b: Batch, k: nat): Change
    requires WellFormed(b) && b.after < k <= b.through
  {
    b.changes[k - b.after - 1]
  }

  /** The new changes of a batch, as far as its number `n`: ascending, not applied before, and none left out. */
  ghost predicate NewOnce(applied: map<(string, nat), string>, b: Batch, n: nat, added: seq<Effect>)
    requires WellFormed(b) && n <= |b.changes|
  {
    && (forall i, j :: 0 <= i < j < |added| ==> added[i].sequence < added[j].sequence)
    && (forall i :: 0 <= i < |added| ==>
          b.after < added[i].sequence <= b.after + n && (b.producer, added[i].sequence) !in applied
          && added[i].change == NumberOf(b, added[i].sequence))
    && (forall k :: b.after < k <= b.after + n && (b.producer, k) !in applied ==> TookEffect(added, k))
  }

  lemma TookMore(effects: seq<Effect>, more: seq<Effect>, n: nat)
    ensures TookEffect(effects + more, n) <==> TookEffect(effects, n) || TookEffect(more, n)
  {
    var all := effects + more;
    if TookEffect(effects, n) { var i :| 0 <= i < |effects| && effects[i].sequence == n; assert all[i] == effects[i]; }
    if TookEffect(more, n) { var i :| 0 <= i < |more| && more[i].sequence == n; assert all[|effects| + i] == more[i]; }
    if TookEffect(all, n) {
      var i :| 0 <= i < |all| && all[i].sequence == n;
      assert if i < |effects| then effects[i] == all[i] else more[i - |effects|] == all[i];
    }
  }

  lemma NewOnceTaken(applied: map<(string, nat), string>, b: Batch, n: nat, before: seq<Effect>, last: Effect)
    requires WellFormed(b) && 0 < n <= |b.changes| && NewOnce(applied, b, n - 1, before)
    requires last.sequence == b.after + n && last.change == NumberOf(b, b.after + n) && (b.producer, b.after + n) !in applied
    ensures NewOnce(applied, b, n, before + [last])
  {
    hide TookEffect, NumberOf;
    var more := before + [last];
    forall k | b.after < k <= b.after + n && (b.producer, k) !in applied ensures TookEffect(more, k) {
      TookMore(before, [last], k);
      Takes(last);
    }
    forall i | 0 <= i < |more| ensures more[i] == if i < |before| then before[i] else last {}
  }

  lemma NewOnceSkipped(applied: map<(string, nat), string>, b: Batch, n: nat, before: seq<Effect>)
    requires WellFormed(b) && 0 < n <= |b.changes| && NewOnce(applied, b, n - 1, before) && (b.producer, b.after + n) in applied
    ensures NewOnce(applied, b, n, before)
  {
    hide TookEffect, NumberOf;
  }

  lemma {:induction false} NewChangesOnce(applied: map<(string, nat), string>, b: Batch, n: nat)
    requires WellFormed(b) && n <= |b.changes|
    ensures NewOnce(applied, b, n, NewChanges(applied, b, n))
    decreases n
  {
    hide NewOnce, WellFormed;
    if n == 0 {
      NewOnceNone(applied, b);
    } else {
      NewChangesOnce(applied, b, n - 1);
      var before := NewChanges(applied, b, n - 1);
      if (b.producer, b.after + n) in applied {
        NewOnceSkipped(applied, b, n, before);
        assert before + [] == before;
      } else {
        NewOnceTaken(applied, b, n, before, Effect(b.after + n, b.changes[n - 1]));
      }
    }
  }

  lemma NewOnceNone(applied: map<(string, nat), string>, b: Batch)
    requires WellFormed(b)
    ensures NewOnce(applied, b, 0, [])
  {
  }

  lemma Takes(e: Effect)
    ensures TookEffect([e], e.sequence)
  {
    assert [e][0] == e;
  }

  /** Joining the new changes keeps each sequence to one effect, whatever the batch claims about sequences applied before. */
  lemma OnceMore(applied: map<(string, nat), string>, effects: seq<Effect>, b: Batch, hash: Hash)
    requires OnceEach(applied, effects, b.producer, hash) && WellFormed(b) && Consistent(applied, b, hash)
    ensures OnceEach(applied + Digests(b, hash), effects + NewChanges(applied, b, |b.changes|), b.producer, hash)
  {
    var added := NewChanges(applied, b, |b.changes|);
    NewChangesOnce(applied, b, |b.changes|);
    hide NewChanges, TookEffect;
    OnceTold(applied, effects, b, hash, added);
    OnceApart(applied, effects, b, hash, added);
    OnceTook(applied, effects, b, hash, added);
    hide Digests, Consistent, WellFormed, NewOnce;
  }

  lemma OnceTook(applied: map<(string, nat), string>, effects: seq<Effect>, b: Batch, hash: Hash, added: seq<Effect>)
    requires OnceEach(applied, effects, b.producer, hash) && WellFormed(b) && NewOnce(applied, b, |b.changes|, added)
    ensures forall n :: (b.producer, n) in applied + Digests(b, hash) ==> TookEffect(effects + added, n)
  {
    hide TookEffect;
    var all, more := applied + Digests(b, hash), effects + added;
    forall n | (b.producer, n) in all ensures TookEffect(more, n) { TookMore(effects, added, n); }
  }

  lemma OnceTold(applied: map<(string, nat), string>, effects: seq<Effect>, b: Batch, hash: Hash, added: seq<Effect>)
    requires OnceEach(applied, effects, b.producer, hash) && WellFormed(b) && Consistent(applied, b, hash)
    requires NewOnce(applied, b, |b.changes|, added)
    ensures var all, more := applied + Digests(b, hash), effects + added;
            forall i :: 0 <= i < |more| ==>
              (b.producer, more[i].sequence) in all && all[(b.producer, more[i].sequence)] == hash(more[i].sequence, more[i].change)
  {
    hide TookEffect;
    var all, more := applied + Digests(b, hash), effects + added;
    forall i | 0 <= i < |more|
      ensures (b.producer, more[i].sequence) in all && all[(b.producer, more[i].sequence)] == hash(more[i].sequence, more[i].change)
    {
      assert if i < |effects| then more[i] == effects[i] else more[i] == added[i - |effects|];
    }
  }

  lemma OnceApart(applied: map<(string, nat), string>, effects: seq<Effect>, b: Batch, hash: Hash, added: seq<Effect>)
    requires OnceEach(applied, effects, b.producer, hash) && WellFormed(b) && NewOnce(applied, b, |b.changes|, added)
    ensures var more := effects + added; forall i, j :: 0 <= i < j < |more| ==> more[i].sequence != more[j].sequence
  {
    hide TookEffect, Digests;
    var more := effects + added;
    forall i, j | 0 <= i < j < |more| ensures more[i].sequence != more[j].sequence {
      assert i < |effects| ==> more[i] == effects[i] && (b.producer, effects[i].sequence) in applied;
      assert if j < |effects| then more[j] == effects[j] else more[j] == added[j - |effects|];
    }
  }

  /**
   Even from producers that contradict themselves, in any order and any number of times: each sequence of each producer
   takes effect at most once, and what took effect is what its recorded digest stands for.
   */
  lemma {:induction false} AtMostOnce(batches: seq<Batch>, hash: Hash, producer: string)
    requires forall i :: 0 <= i < |batches| ==> WellFormed(batches[i])
    ensures var l := ReceiveAll(batches, hash); OnceEach(l.applied, Effects(l, producer), producer, hash)
    decreases |batches|
  {
    if batches != [] {
      var l, b := ReceiveAll(batches[..|batches| - 1], hash), batches[|batches| - 1];
      AtMostOnce(batches[..|batches| - 1], hash, producer);
      if Decide(l, b, hash) == Imported {
        hide OnceEach, NewChanges, Consistent, ParentPresent;
        if b.producer == producer { OnceMore(l.applied, Effects(l, producer), b, hash); }
        else { OnceOther(l.applied, Effects(l, producer), b, hash, producer); }
      }
    }
  }

  lemma OnceOther(applied: map<(string, nat), string>, effects: seq<Effect>, b: Batch, hash: Hash, producer: string)
    requires OnceEach(applied, effects, producer, hash) && WellFormed(b) && b.producer != producer
    ensures OnceEach(applied + Digests(b, hash), effects, producer, hash)
  {
  }

  /** Changed evidence for an applied sequence is refused, if the digest tells the two apart. */
  lemma ContradictionRefused(l: Ledger, b: Batch, hash: Hash, n: nat)
    requires WellFormed(b) && b.after < n <= b.through && (b.producer, n) in l.applied && b.id !in l.imports
    requires l.applied[(b.producer, n)] != hash(n, b.changes[n - b.after - 1])
    ensures Received(l, b, hash) == l && Decide(l, b, hash) in {BranchConflict, Invalid}
  {
  }

  /** An archive on record stays there, whatever is received after it. */
  lemma {:induction false} ImportStays(batches: seq<Batch>, n: nat, hash: Hash, id: string)
    requires (forall i :: 0 <= i < |batches| ==> WellFormed(batches[i])) && n <= |batches| && id in ReceiveAll(batches[..n], hash).imports
    ensures id in ReceiveAll(batches, hash).imports
            && ReceiveAll(batches, hash).imports[id] == ReceiveAll(batches[..n], hash).imports[id]
    decreases |batches|
  {
    if n == |batches| {
      assert batches[..n] == batches;
    } else {
      var front := batches[..|batches| - 1];
      assert front[..n] == batches[..n];
      ImportStays(front, n, hash, id);
      hide Consistent, ParentPresent, Digests, NewChanges;
    }
  }

  /**
   Once a batch has been imported, and after whatever came since, the same archive is recognised and any other archive
   under its id is invalid; either way nothing changes.
   */
  lemma RetriesRecognised(batches: seq<Batch>, n: nat, hash: Hash, again: Batch)
    requires (forall i :: 0 <= i < |batches| ==> WellFormed(batches[i])) && n < |batches| && WellFormed(again)
    requires Decide(ReceiveAll(batches[..n], hash), batches[n], hash) == Imported && again.id == batches[n].id
    ensures var l := ReceiveAll(batches, hash);
            Decide(l, again, hash) == (if again == batches[n] then AlreadyImported else Invalid) && Received(l, again, hash) == l
  {
    hide Consistent, ParentPresent, Digests, NewChanges;
    var first := batches[..n + 1];
    assert first[..n] == batches[..n];
    ImportStays(batches, n + 1, hash, again.id);
  }

  // ---- The importer ----

  class Importer {
    const hash: Hash
    var heads: map<string, Head>
    var imports: map<string, Batch>
    var applied: map<(string, nat), string>
    ghost var effects: map<string, seq<Effect>>

    ghost function Now(): Ledger
      reads `heads, `imports, `applied, `effects
    {
      Ledger(heads, imports, applied, effects)
    }

    constructor (hash: Hash)
      ensures this.hash == hash && Now() == ReceiveAll([], hash)
    {
      this.hash := hash;
      heads, imports, applied, effects := map[], map[], map[], map[];
    }

    /** Whether every sequence applied before was applied with the same evidence. */
    method SameEvidence(b: Batch) returns (ok: bool)
      requires WellFormed(b)
      ensures ok <==> Consistent(applied, b, hash)
    {
      for n := b.after + 1 to b.through + 1
        invariant forall k :: b.after < k < n && (b.producer, k) in applied ==> applied[(b.producer, k)] == hash(k, b.changes[k - b.after - 1])
      {
        if (b.producer, n) in applied && applied[(b.producer, n)] != hash(n, b.changes[n - b.after - 1]) { return false; }
      }
      return true;
    }

    /** The changes that are new, in order. */
    method Fresh(b: Batch) returns (changes: seq<Effect>)
      requires WellFormed(b)
      ensures changes == NewChanges(applied, b, |b.changes|)
    {
      changes := [];
      for i := 0 to |b.changes|
        invariant changes == NewChanges(applied, b, i)
      {
        if (b.producer, b.after + i + 1) !in applied { changes := changes + [Effect(b.after + i + 1, b.changes[i])]; }
      }
    }

    /** Replays the changes of a batch that were not applied before, unless one contradicts its first evidence. */
    method ApplyEvents(b: Batch) returns (ok: bool)
      requires WellFormed(b)
      modifies `applied, `effects
      ensures ok <==> Consistent(old(applied), b, hash)
      ensures applied == if ok then old(applied) + Digests(b, hash) else old(applied)
      ensures effects == if ok then old(effects)[b.producer := Effects(old(Now()), b.producer) + NewChanges(old(applied), b, |b.changes|)]
                         else old(effects)
    {
      hide Consistent, Digests, NewChanges;
      ok := SameEvidence(b);
      if !ok { return; }
      var changes := Fresh(b);
      effects := effects[b.producer := Effects(Now(), b.producer) + changes];
      applied := applied + Digests(b, hash);
    }

    /** One archive, in one transaction: retries are recognised, a missing parent is refused, the rest is replayed. */
    method ImportDelta(b: Batch) returns (action: Action)
      requires WellFormed(b)
      modifies `heads, `imports, `applied, `effects
      ensures action == Decide(old(Now()), b, hash) && Now() == Received(old(Now()), b, hash)
    {
      if b.id in imports {
        return if imports[b.id] != b then Invalid else AlreadyImported;
      }
      if !ParentPresent(heads, b) { return BranchConflict; }
      hide Consistent, Digests, NewChanges;
      var ok := ApplyEvents(b);
      if !ok { return Invalid; }
      imports := imports[b.id := b];
      heads := Moved(heads, b);
      return Imported;
    }
  }
}
