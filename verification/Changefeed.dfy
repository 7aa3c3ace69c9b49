/**
 Changefeed archives: one producer journal cut into immutable batches on any number of independent streams.
 Publication and cursor commit are separate steps, so a crash can leave an orphan batch behind.
 */
module Changefeed {
  import opened Wrappers

  /** A journal entry; its sequence number is one more than its place in the journal. */
  datatype Change = Change(operation: string, data: string)

  /** An immutable published archive. */
  datatype Batch = Batch(id: string, producer: string, stream: string, after: nat, through: nat,
                         parent: Option<string>, parentSha: Option<string>, sha: string, changes: seq<Change>)

  datatype FeedError = EventTooLarge | RecoveryFailed | UnknownConsumer | PrecedingMissing | RemoteMismatch | InvalidArchive

  /** What loading a changefeed archive has checked. */
  predicate WellFormed(b: Batch) {
    && b.after < b.through && |b.changes| == b.through - b.after
    && (if b.after == 0 then b.parent.None? && b.parentSha.None? else b.parent.Some? && b.parentSha.Some?)
  }

  /** The batch holds what its producer's journal holds there. */
  predicate Honest(b: Batch, journal: seq<Change>) {
    WellFormed(b) && b.through <= |journal| && b.changes == journal[b.after..b.through]
  }

  lemma HonestGrows(b: Batch, journal: seq<Change>, more: seq<Change>)
    requires Honest(b, journal)
    ensures Honest(b, journal + more)
  {
    assert (journal + more)[b.after..b.through] == journal[b.after..b.through];
  }

  // ---- Chains ----

  /** Where a stream stands: how far, and by which object. */
  datatype Place = Place(sequence: nat, id: Option<string>, sha: Option<string>)

  function EndOf(chain: seq<Batch>): Place {
    if chain == [] then Place(0, None, None)
    else var b := chain[|chain| - 1]; Place(b.through, Some(b.id), Some(b.sha))
  }

  function ParentOf(b: Batch): Place { Place(b.after, b.parent, b.parentSha) }

  /** Batches of one stream from the start of the journal, each naming the one before. */
  ghost predicate IsChain(chain: seq<Batch>, stream: string) {
    forall i :: 0 <= i < |chain| ==> chain[i].stream == stream && WellFormed(chain[i]) && ParentOf(chain[i]) == EndOf(chain[..i])
  }

  lemma EndShape(chain: seq<Batch>, stream: string)
    requires IsChain(chain, stream)
    ensures var e := EndOf(chain); if e.sequence == 0 then e.id.None? && e.sha.None? else e.id.Some? && e.sha.Some?
  {
  }

  lemma ChainGrows(chain: seq<Batch>, stream: string, b: Batch)
    requires IsChain(chain, stream) && b.stream == stream && WellFormed(b) && ParentOf(b) == EndOf(chain)
    ensures IsChain(chain + [b], stream) && EndOf(chain + [b]) == Place(b.through, Some(b.id), Some(b.sha))
  {
    var more := chain + [b];
    forall i | 0 <= i < |more| ensures more[i].stream == stream && WellFormed(more[i]) && ParentOf(more[i]) == EndOf(more[..i]) {
      assert more[..i] == chain[..i];
      assert chain[..|chain|] == chain;
    }
  }

  lemma {:induction false} ChainAscends(chain: seq<Batch>, stream: string, i: nat, j: nat)
    requires IsChain(chain, stream) && i <= j <= |chain|
    ensures EndOf(chain[..i]).sequence <= EndOf(chain[..j]).sequence
    ensures i < j ==> EndOf(chain[..i]).sequence < EndOf(chain[..j]).sequence
    decreases j
  {
    if i < j {
      ChainAscends(chain, stream, i, j - 1);
      assert chain[..j][j - 1] == chain[j - 1] && ParentOf(chain[j - 1]) == EndOf(chain[..j - 1]);
    }
  }

  /** Prefixes of one chain that end at the same sequence are the same prefix. */
  lemma {:induction false} PrefixByEnd(chain: seq<Batch>, stream: string, i: nat, j: nat)
    requires IsChain(chain, stream) && i <= |chain| && j <= |chain| && EndOf(chain[..i]).sequence == EndOf(chain[..j]).sequence
    ensures i == j
  {
    if i < j { ChainAscends(chain, stream, i, j); }
    if j < i { ChainAscends(chain, stream, j, i); }
  }

  // ---- Publishing ----

  datatype Cursor = Cursor(stream: string, place: Place)

  datatype Label = Label(stream: string, after: nat, through: nat)

  function LabelOf(b: Batch): Label { Label(b.stream, b.after, b.through) }

  /** The published files, the committed exports, and the committed chain of every stream. */
  datatype Published = Published(producer: string, journal: seq<Change>, files: map<Label, Batch>, verified: map<string, Batch>,
                                 chains: map<string, seq<Batch>>)

  ghost predicate Continues(chains: map<string, seq<Batch>>, b: Batch) {
    b.stream in chains && exists n :: 0 <= n <= |chains[b.stream]| && ParentOf(b) == EndOf(chains[b.stream][..n])
  }

  ghost predicate FileOk(producer: string, journal: seq<Change>, chains: map<string, seq<Batch>>, l: Label, b: Batch) {
    l == LabelOf(b) && b.producer == producer && Honest(b, journal) && Continues(chains, b)
  }

  ghost predicate ChainOk(chain: seq<Batch>, stream: string, files: map<Label, Batch>, verified: map<string, Batch>) {
    && IsChain(chain, stream)
    && forall i :: 0 <= i < |chain| ==>
         && chain[i].id in verified && verified[chain[i].id] == chain[i]
         && LabelOf(chain[i]) in files && files[LabelOf(chain[i])] == chain[i]
  }

  ghost predicate FilesOk(p: Published) {
    IdsOk(p.files) && forall l :: l in p.files ==> FileOk(p.producer, p.journal, p.chains, l, p.files[l])
  }

  ghost predicate IdsOk(files: map<Label, Batch>) {
    forall l, m :: l in files && m in files && files[l].id == files[m].id ==> l == m
  }

  ghost predicate ChainsOk(p: Published) {
    forall stream :: stream in p.chains ==> ChainOk(p.chains[stream], stream, p.files, p.verified)
  }

  ghost predicate VerifiedOk(p: Published) {
    forall id :: id in p.verified ==>
      p.verified[id].id == id && p.verified[id].stream in p.chains && p.verified[id] in p.chains[p.verified[id].stream]
  }

  ghost predicate PublishedOk(p: Published) { FilesOk(p) && ChainsOk(p) && VerifiedOk(p) }

  lemma ChainsKept(chains: map<string, seq<Batch>>, files: map<Label, Batch>, verified: map<string, Batch>, more: map<Label, Batch>)
    requires forall stream :: stream in chains ==> ChainOk(chains[stream], stream, files, verified)
    requires forall l :: l in files ==> l in more && more[l] == files[l]
    ensures forall stream :: stream in chains ==> ChainOk(chains[stream], stream, more, verified)
  {
    hide IsChain;
    forall stream | stream in chains ensures ChainOk(chains[stream], stream, more, verified) {
      assert ChainOk(chains[stream], stream, files, verified);
    }
  }

  lemma IdsKept(files: map<Label, Batch>, b: Batch)
    requires IdsOk(files) && LabelOf(b) !in files && forall l :: l in files ==> files[l].id != b.id
    ensures IdsOk(files[LabelOf(b) := b])
  {
  }

  /** A new file beside the old ones. */
  lemma AddedFits(p: Published, b: Batch)
    requires b.producer == p.producer && Honest(b, p.journal) && b.stream in p.chains && ParentOf(b) == EndOf(p.chains[b.stream])
    ensures FileOk(p.producer, p.journal, p.chains, LabelOf(b), b)
  {
    assert p.chains[b.stream][..|p.chains[b.stream]|] == p.chains[b.stream];
    assert Continues(p.chains, b);
  }

  lemma FileAdded(p: Published, b: Batch)
    requires PublishedOk(p) && b.producer == p.producer && Honest(b, p.journal) && b.stream in p.chains
    requires ParentOf(b) == EndOf(p.chains[b.stream]) && LabelOf(b) !in p.files && forall l :: l in p.files ==> p.files[l].id != b.id
    ensures PublishedOk(p.(files := p.files[LabelOf(b) := b]))
  {
    hide IdsOk, ChainOk, FileOk, Continues, Honest, EndOf, ParentOf;
    var q := p.(files := p.files[LabelOf(b) := b]);
    AddedFits(p, b);
    IdsKept(p.files, b);
    ChainsKept(p.chains, p.files, p.verified, q.files);
  }

  /** A committed batch of the stream ends no later than the stream does. */
  lemma CommittedEnds(p: Published, v: Batch)
    requires PublishedOk(p) && v.id in p.verified && p.verified[v.id] == v
    ensures v.stream in p.chains && v.through <= EndOf(p.chains[v.stream]).sequence
    ensures LabelOf(v) in p.files && p.files[LabelOf(v)] == v
  {
    assert ChainOk(p.chains[v.stream], v.stream, p.files, p.verified) && v in p.chains[v.stream];
    hide PublishedOk;
    MemberEnds(p.chains[v.stream], v.stream, p.files, p.verified, v);
  }

  lemma EndAt(chain: seq<Batch>, i: nat)
    requires i < |chain|
    ensures EndOf(chain[..i + 1]).sequence == chain[i].through
  {
    assert chain[..i + 1][i] == chain[i];
  }

  lemma MemberEnds(chain: seq<Batch>, stream: string, files: map<Label, Batch>, verified: map<string, Batch>, v: Batch)
    requires ChainOk(chain, stream, files, verified) && v in chain
    ensures v.through <= EndOf(chain).sequence && LabelOf(v) in files && files[LabelOf(v)] == v
  {
    hide IsChain;
    var i :| 0 <= i < |chain| && chain[i] == v;
    hide *;
    EndAt(chain, i);
    ChainAscends(chain, stream, i + 1, |chain|);
    assert chain[..|chain|] == chain;
  }

  /** A file continuing its stream has the committed end as its parent, whoever published it. */
  lemma FileContinues(p: Published, l: Label)
    requires PublishedOk(p) && l in p.files && l.stream in p.chains && l.after == EndOf(p.chains[l.stream]).sequence
    ensures ParentOf(p.files[l]) == EndOf(p.chains[l.stream]) && p.files[l].id !in p.verified
    ensures l == LabelOf(p.files[l]) && p.files[l].producer == p.producer && Honest(p.files[l], p.journal)
  {
    var b := p.files[l];
    var chain := p.chains[l.stream];
    assert FileOk(p.producer, p.journal, p.chains, l, b) && ChainOk(chain, l.stream, p.files, p.verified);
    var n :| 0 <= n <= |chain| && ParentOf(b) == EndOf(chain[..n]);
    assert chain[..|chain|] == chain;
    PrefixByEnd(chain, l.stream, n, |chain|);
    if b.id in p.verified {
      CommittedEnds(p, p.verified[b.id]);
    }
  }

  lemma StillContinues(chains: map<string, seq<Batch>>, b: Batch, f: Batch)
    requires Continues(chains, f) && b.stream in chains
    ensures Continues(chains[b.stream := chains[b.stream] + [b]], f)
  {
    var n :| 0 <= n <= |chains[f.stream]| && ParentOf(f) == EndOf(chains[f.stream][..n]);
    var more := chains[b.stream := chains[b.stream] + [b]];
    assert more[f.stream][..n] == chains[f.stream][..n];
  }

  function Commit(p: Published, b: Batch): Published
    requires b.stream in p.chains
  {
    p.(verified := p.verified[b.id := b], chains := p.chains[b.stream := p.chains[b.stream] + [b]])
  }

  lemma ChainMore(chain: seq<Batch>, stream: string, files: map<Label, Batch>, verified: map<string, Batch>, b: Batch)
    requires ChainOk(chain, stream, files, verified) && b.stream == stream && ParentOf(b) == EndOf(chain) && WellFormed(b)
    requires LabelOf(b) in files && files[LabelOf(b)] == b && b.id !in verified
    ensures ChainOk(chain + [b], stream, files, verified[b.id := b])
  {
    ChainGrows(chain, stream, b);
  }

  lemma ChainOther(chain: seq<Batch>, stream: string, files: map<Label, Batch>, verified: map<string, Batch>, b: Batch)
    requires ChainOk(chain, stream, files, verified) && b.id !in verified
    ensures ChainOk(chain, stream, files, verified[b.id := b])
  {
  }

  lemma CommitChains(p: Published, b: Batch)
    requires PublishedOk(p) && LabelOf(b) in p.files && p.files[LabelOf(b)] == b && b.stream in p.chains
    requires ParentOf(b) == EndOf(p.chains[b.stream]) && WellFormed(b) && b.id !in p.verified
    ensures ChainsOk(Commit(p, b))
  {
    assert ChainsOk(p);
    hide ChainOk, PublishedOk, EndOf, WellFormed;
    var q := Commit(p, b);
    forall stream | stream in q.chains ensures ChainOk(q.chains[stream], stream, q.files, q.verified) {
      assert ChainOk(p.chains[stream], stream, p.files, p.verified);
      if stream == b.stream { ChainMore(p.chains[stream], stream, p.files, p.verified, b); }
      else { ChainOther(p.chains[stream], stream, p.files, p.verified, b); }
    }
  }

  lemma CommitVerified(p: Published, b: Batch)
    requires VerifiedOk(p) && b.stream in p.chains
    ensures VerifiedOk(Commit(p, b))
  {
    var q := Commit(p, b);
    forall id | id in q.verified ensures q.verified[id].id == id && q.verified[id].stream in q.chains && q.verified[id] in q.chains[q.verified[id].stream] {
      if id == b.id { assert q.chains[b.stream][|p.chains[b.stream]|] == b; }
      else { assert p.verified[id] in p.chains[p.verified[id].stream]; }
    }
  }

  /** Committing it extends the stream's chain. */
  lemma Committed(p: Published, b: Batch)
    requires PublishedOk(p) && LabelOf(b) in p.files && p.files[LabelOf(b)] == b && b.stream in p.chains
    requires b.after == EndOf(p.chains[b.stream]).sequence
    ensures PublishedOk(Commit(p, b)) && EndOf(Commit(p, b).chains[b.stream]) == Place(b.through, Some(b.id), Some(b.sha))
  {
    FileContinues(p, LabelOf(b));
    CommitChains(p, b);
    CommitVerified(p, b);
    var q := Commit(p, b);
    hide IsChain, ChainsOk, VerifiedOk, Continues;
    forall l | l in q.files ensures FileOk(q.producer, q.journal, q.chains, l, q.files[l]) {
      assert FileOk(p.producer, p.journal, p.chains, l, p.files[l]);
      StillContinues(p.chains, b, p.files[l]);
    }
  }

  /** Every consumer has its own stream and stands at its committed end. */
  ghost predicate ConsumersOk(consumers: map<string, Cursor>, chains: map<string, seq<Batch>>) {
    && (forall c :: c in consumers ==> consumers[c].stream in chains && consumers[c].place == EndOf(chains[consumers[c].stream]))
    && (forall c, d :: c in consumers && d in consumers && consumers[c].stream == consumers[d].stream ==> c == d)
  }

  lemma ConsumerAdded(consumers: map<string, Cursor>, chains: map<string, seq<Batch>>, consumer: string, stream: string)
    requires ConsumersOk(consumers, chains) && stream !in chains && consumer !in consumers
    ensures ConsumersOk(consumers[consumer := Cursor(stream, Place(0, None, None))], chains[stream := []])
  {
  }

  lemma ConsumerMoved(consumers: map<string, Cursor>, chains: map<string, seq<Batch>>, consumer: string, b: Batch)
    requires ConsumersOk(consumers, chains) && consumer in consumers && consumers[consumer].stream == b.stream
    ensures ConsumersOk(consumers[consumer := Cursor(b.stream, Place(b.through, Some(b.id), Some(b.sha)))],
                        chains[b.stream := chains[b.stream] + [b]])
  {
  }

  lemma StreamAdded(p: Published, stream: string)
    requires PublishedOk(p) && stream !in p.chains
    ensures PublishedOk(p.(chains := p.chains[stream := []]))
  {
    var q := p.(chains := p.chains[stream := []]);
    assert ChainOk([], stream, p.files, p.verified);
    hide IsChain, ChainOk, Honest, IdsOk;
    forall l | l in q.files ensures FileOk(q.producer, q.journal, q.chains, l, q.files[l]) {
      ContinuesStill(p.chains, stream, p.files[l]);
    }
  }

  lemma ContinuesStill(chains: map<string, seq<Batch>>, stream: string, b: Batch)
    requires Continues(chains, b) && stream !in chains
    ensures Continues(chains[stream := []], b)
  {
    var n :| 0 <= n <= |chains[b.stream]| && ParentOf(b) == EndOf(chains[b.stream][..n]);
    assert chains[stream := []][b.stream][..n] == chains[b.stream][..n];
  }

  /** The batch continues the consumer's stream with what the journal holds, and becomes its end. */
  ghost predicate Advances(consumers: map<string, Cursor>, consumers': map<string, Cursor>, verified: map<string, Batch>,
                           verified': map<string, Batch>, consumer: string, producer: string, journal: seq<Change>, b: Batch)
    requires consumer in consumers
  {
    var c := consumers[consumer];
    && b.producer == producer && b.stream == c.stream && ParentOf(b) == c.place && Honest(b, journal)
    && consumers' == consumers[consumer := Cursor(c.stream, Place(b.through, Some(b.id), Some(b.sha)))]
    && b.id !in verified && verified' == verified[b.id := b]
  }

  /** Published files are never replaced. */
  ghost predicate Kept(files: map<Label, Batch>, files': map<Label, Batch>) {
    forall l :: l in files ==> l in files' && files'[l] == files[l]
  }

  lemma KeptMore(files: map<Label, Batch>, slot: Label, b: Batch)
    requires slot !in files
    ensures Kept(files, files[slot := b])
  {
  }

  lemma KeptSelf(files: map<Label, Batch>)
    ensures Kept(files, files)
  {
  }

  ghost predicate NewId(files: map<Label, Batch>, id: string) {
    forall l :: l in files ==> files[l].id != id
  }

  /**
   What an export does. It never fails to recover a file left behind; only a written batch moves anything but the
   files; it reports no change only at the journal's end.
   */
  ghost predicate Reports(p: Published, consumers: map<string, Cursor>, q: Published, consumers': map<string, Cursor>, consumer: string,
                          r: Result<Exported, FeedError>)
  {
    && r != Err(RecoveryFailed) && Kept(p.files, q.files)
    && (if r.Ok? && r.value.Written? then
          consumer in consumers && Advances(consumers, consumers', p.verified, q.verified, consumer, p.producer, p.journal, r.value.batch)
        else consumers' == consumers && q.verified == p.verified && q.chains == p.chains)
    && (r == Ok(Unchanged) ==> consumer in consumers && consumers[consumer].place.sequence >= |p.journal| && q.files == p.files)
  }

  /** The batch is the file under the label of its changes, whether it was there before or not. */
  ghost predicate Adopts(files: map<Label, Batch>, files': map<Label, Batch>, c: Cursor, b: Batch) {
    && Slot(c, b.changes) in files' && files'[Slot(c, b.changes)] == b
    && (Slot(c, b.changes) in files ==> files[Slot(c, b.changes)] == b)
  }

  function Bytes(events: seq<Change>, size: Change -> nat): nat {
    if events == [] then 0 else Bytes(events[..|events| - 1], size) + size(events[|events| - 1])
  }

  /** No more of the journal's next changes fit both limits. */
  predicate Longest(journal: seq<Change>, start: nat, events: seq<Change>, limit: nat, size: Change -> nat, maxBytes: nat) {
    var end := start + |events|;
    && end <= |journal| && events == journal[start..end] && |events| <= limit && Bytes(events, size) <= maxBytes
    && (|events| == limit || end == |journal| || maxBytes < Bytes(events, size) + size(journal[end]))
  }

  function Slot(c: Cursor, events: seq<Change>): Label {
    Label(c.stream, c.place.sequence, c.place.sequence + |events|)
  }

  function Next(producer: string, c: Cursor, events: seq<Change>, id: string, sha: string): Batch {
    Batch(id, producer, c.stream, c.place.sequence, c.place.sequence + |events|, c.place.id, c.place.sha, sha, events)
  }

  function Filed(p: Published, c: Cursor, events: seq<Change>, id: string, sha: string): map<Label, Batch> {
    if Slot(c, events) in p.files then p.files else p.files[Slot(c, events) := Next(p.producer, c, events, id, sha)]
  }

  ghost predicate Ahead(journal: seq<Change>, c: Cursor, events: seq<Change>) {
    var start := c.place.sequence;
    events != [] && start + |events| <= |journal| && events == journal[start..start + |events|]
  }

  lemma NextHonest(producer: string, journal: seq<Change>, c: Cursor, events: seq<Change>, id: string, sha: string)
    requires Ahead(journal, c, events) && (if c.place.sequence == 0 then c.place.id.None? && c.place.sha.None? else c.place.id.Some? && c.place.sha.Some?)
    ensures Honest(Next(producer, c, events, id, sha), journal)
  {
  }

  lemma SameChanges(b: Batch, journal: seq<Change>, c: Cursor, events: seq<Change>)
    requires Honest(b, journal) && Ahead(journal, c, events) && LabelOf(b) == Slot(c, events)
    ensures b.changes == events
  {
  }

  /** The file of the cursor's slot continues the cursor. */
  ghost predicate ContinuesCursor(p: Published, files: map<Label, Batch>, c: Cursor, events: seq<Change>) {
    && PublishedOk(p.(files := files)) && Kept(p.files, files) && Slot(c, events) in files
    && var b := files[Slot(c, events)];
       LabelOf(b) == Slot(c, events) && b.changes == events && b.producer == p.producer && ParentOf(b) == c.place
  }

  lemma FileLeftBehind(p: Published, c: Cursor, events: seq<Change>)
    requires PublishedOk(p) && c.stream in p.chains && c.place == EndOf(p.chains[c.stream]) && Ahead(p.journal, c, events)
    requires Slot(c, events) in p.files
    ensures ContinuesCursor(p, p.files, c, events)
  {
    var l := Slot(c, events);
    KeptSelf(p.files);
    assert p.(files := p.files) == p && l.stream == c.stream && l.after == c.place.sequence;
    hide PublishedOk, EndOf, Kept, Honest, Ahead, Slot, LabelOf, ParentOf;
    FileContinues(p, l);
    SameChanges(p.files[l], p.journal, c, events);
  }

  lemma FileWritten(p: Published, c: Cursor, events: seq<Change>, b: Batch)
    requires PublishedOk(p) && c.stream in p.chains && c.place == EndOf(p.chains[c.stream])
    requires Slot(c, events) !in p.files && NewId(p.files, b.id) && b == Next(p.producer, c, events, b.id, b.sha) && Honest(b, p.journal)
    ensures ContinuesCursor(p, p.files[Slot(c, events) := b], c, events)
  {
    assert LabelOf(b) == Slot(c, events) && ParentOf(b) == c.place && b.producer == p.producer && b.changes == events && b.stream == c.stream;
    assert forall l :: l in p.files ==> p.files[l].id != b.id;
    hide PublishedOk, EndOf, Kept, Honest, Slot, LabelOf, ParentOf, Next, NewId;
    KeptMore(p.files, Slot(c, events), b);
    FileAdded(p, b);
  }

  /** Whether the file is new or was left behind, it is the batch that continues the cursor. */
  lemma FiledOk(p: Published, c: Cursor, events: seq<Change>, id: string, sha: string)
    requires PublishedOk(p) && c.stream in p.chains && c.place == EndOf(p.chains[c.stream]) && Ahead(p.journal, c, events) && NewId(p.files, id)
    ensures ContinuesCursor(p, Filed(p, c, events, id, sha), c, events)
  {
    assert ChainOk(p.chains[c.stream], c.stream, p.files, p.verified);
    EndShape(p.chains[c.stream], c.stream);
    hide PublishedOk, ChainOk, IsChain, EndOf, Ahead, ContinuesCursor, NewId;
    if Slot(c, events) in p.files {
      FileLeftBehind(p, c, events);
    } else {
      NextHonest(p.producer, p.journal, c, events, id, sha);
      FileWritten(p, c, events, Next(p.producer, c, events, id, sha));
    }
  }

  /** The file under the label of the changes, adopted or new, is what the cursor needs. */
  lemma SlotFound(p: Published, c: Cursor, events: seq<Change>, id: string, sha: string)
    requires ContinuesCursor(p, Filed(p, c, events, id, sha), c, events)
    ensures var files := Filed(p, c, events, id, sha);
            && PublishedOk(p.(files := files)) && Kept(p.files, files) && Slot(c, events) in files
            && var b := files[Slot(c, events)];
               LabelOf(b) == Slot(c, events) && b.stream == c.stream && b.after == c.place.sequence && b.changes == events
               && Adopts(p.files, files, c, b)
  {
    hide PublishedOk;
  }

  /** What an export reports. */
  datatype Exported = Unchanged | Interrupted | Written(batch: Batch)

  lemma CursorAt(consumers: map<string, Cursor>, chains: map<string, seq<Batch>>, consumer: string)
    requires ConsumersOk(consumers, chains) && consumer in consumers
    ensures consumers[consumer].stream in chains && consumers[consumer].place == EndOf(chains[consumers[consumer].stream])
  {
  }

  lemma ReportsInterrupted(p: Published, consumers: map<string, Cursor>, q: Published, consumer: string)
    requires Kept(p.files, q.files) && q.verified == p.verified && q.chains == p.chains
    ensures Reports(p, consumers, q, consumers, consumer, Ok(Interrupted))
  {
    hide Kept;
  }

  lemma ReportsWritten(p: Published, consumers: map<string, Cursor>, q: Published, consumers': map<string, Cursor>, consumer: string, b: Batch)
    requires Kept(p.files, q.files) && consumer in consumers
    requires Advances(consumers, consumers', p.verified, q.verified, consumer, p.producer, p.journal, b)
    ensures Reports(p, consumers, q, consumers', consumer, Ok(Written(b)))
  {
    hide Kept, Advances;
  }

  /** Committing the batch at a consumer's cursor moves the cursor to its end. */
  lemma CommitAdvances(p: Published, consumers: map<string, Cursor>, consumer: string, b: Batch)
    requires PublishedOk(p) && ConsumersOk(consumers, p.chains) && consumer in consumers
    requires LabelOf(b) in p.files && p.files[LabelOf(b)] == b
    requires b.stream == consumers[consumer].stream && b.after == consumers[consumer].place.sequence
    ensures b.stream in p.chains && PublishedOk(Commit(p, b))
    ensures var moved := consumers[consumer := Cursor(b.stream, Place(b.through, Some(b.id), Some(b.sha)))];
            ConsumersOk(moved, Commit(p, b).chains)
            && Advances(consumers, moved, p.verified, Commit(p, b).verified, consumer, p.producer, p.journal, b)
  {
    assert b.stream in p.chains && consumers[consumer].place == EndOf(p.chains[b.stream]);
    FileContinues(p, LabelOf(b));
    Committed(p, b);
    ConsumerMoved(consumers, p.chains, consumer, b);
    hide PublishedOk, ConsumersOk, EndOf, Honest;
  }

  class Exporter {
    const producer: string
    var journal: seq<Change>
    var consumers: map<string, Cursor>
    var files: map<Label, Batch>
    var verified: map<string, Batch>
    ghost var chains: map<string, seq<Batch>>

    ghost function Now(): Published
      reads this
    {
      Published(producer, journal, files, verified, chains)
    }

    ghost predicate Valid()
      reads this
    {
      PublishedOk(Now()) && ConsumersOk(consumers, chains)
    }

    constructor (producer: string)
      ensures Valid() && this.producer == producer && journal == [] && consumers == map[]
    {
      this.producer := producer;
      journal, consumers, files, verified, chains := [], map[], map[], map[], map[];
    }

    /** Any write to the cache appends to the journal. */
    method Append(more: seq<Change>)
      requires Valid()
      modifies `journal
      ensures Valid() && journal == old(journal) + more
    {
      ghost var p := Now();
      journal := journal + more;
      forall l | l in files ensures FileOk(producer, journal, chains, l, files[l]) {
        HonestGrows(files[l], p.journal, more);
      }
    }

    method AddConsumer(consumer: string, stream: string)
      requires Valid() && (consumer !in consumers ==> stream !in chains)
      modifies `consumers, `chains
      ensures Valid() && consumer in consumers && (consumer in old(consumers) ==> consumers == old(consumers))
    {
      if consumer in consumers { return; }
      StreamAdded(Now(), stream);
      ConsumerAdded(consumers, chains, consumer, stream);
      hide PublishedOk, ConsumersOk;
      consumers := consumers[consumer := Cursor(stream, Place(0, None, None))];
      chains := chains[stream := []];
    }

    /** The next changes after `start`, bounded in number and in bytes. */
    method Gather(c: Cursor, limit: nat, size: Change -> nat, maxBytes: nat) returns (r: Result<seq<Change>, FeedError>)
      requires c.place.sequence < |journal| && 1 <= limit
      ensures r.Ok? ==> Ahead(journal, c, r.value) && Longest(journal, c.place.sequence, r.value, limit, size, maxBytes)
      ensures r.Err? <==> size(journal[c.place.sequence]) > maxBytes
      ensures r.Err? ==> r.error == EventTooLarge
    {
      var start := c.place.sequence;
      var events: seq<Change> := [];
      var bytes := 0;
      while |events| < limit && start + |events| < |journal|
        invariant start + |events| <= |journal| && |events| <= limit && events == journal[start..start + |events|]
        invariant bytes == Bytes(events, size) <= maxBytes && (events != [] ==> size(journal[start]) <= maxBytes)
      {
        var e := journal[start + |events|];
        if bytes + size(e) > maxBytes {
          if events == [] { return Err(EventTooLarge); }
          break;
        }
        assert (events + [e])[..|events|] == events;
        bytes := bytes + size(e);
        events := events + [e];
      }
      return Ok(events);
    }

    /**
     One batch for one consumer. The file is published before the cursor moves. After a crash in between, an export of
     the same changes finds the file under its label and adopts it, which always succeeds; an export of other changes,
     since the journal grew or the limits differ, leaves it behind as an orphan.
     */
    method ExportChanges(consumer: string, limit: nat, size: Change -> nat, maxBytes: nat, id: string, sha: string, crash: bool)
      returns (r: Result<Exported, FeedError>)
      requires Valid() && 1 <= limit && NewId(files, id)
      modifies `consumers, `files, `verified, `chains
      ensures Valid() && Reports(old(Now()), old(consumers), Now(), consumers, consumer, r)
      ensures r.Ok? && r.value.Written? ==> Adopts(old(files), files, old(consumers)[consumer], r.value.batch) && |r.value.batch.changes| <= limit
      ensures r.Ok? && r.value.Interrupted? ==> crash && consumers == old(consumers)
      // What comes out, exactly, and that a written batch is as long as the limits allow.
      ensures r == Err(UnknownConsumer) <==> consumer !in old(consumers)
      ensures r == Ok(Unchanged) <==> consumer in old(consumers) && |journal| <= old(consumers)[consumer].place.sequence
      ensures consumer in old(consumers) && old(consumers)[consumer].place.sequence < |journal| ==>
        (r.Err? <==> maxBytes < size(journal[old(consumers)[consumer].place.sequence])) && (r.Ok? && !crash ==> r.value.Written?)
      ensures r.Ok? && r.value.Written? ==> Longest(journal, old(consumers)[consumer].place.sequence, r.value.batch.changes, limit, size, maxBytes)
    {
      if consumer !in consumers { KeptSelf(files); return Err(UnknownConsumer); }
      KeptSelf(files);
      hide PublishedOk, ConsumersOk, Advances, Kept, NewId, Ahead, Longest;
      var start := consumers[consumer].place.sequence;
      if start >= |journal| { return Ok(Unchanged); }
      var gathered := Gather(consumers[consumer], limit, size, maxBytes);
      if gathered.Err? { return Err(gathered.error); }
      r := ExportNext(consumer, gathered.value, id, sha, crash);
    }

    /** Publication, then the cursor commit. */
    method ExportNext(consumer: string, events: seq<Change>, id: string, sha: string, crash: bool) returns (r: Result<Exported, FeedError>)
      requires Valid() && consumer in consumers && NewId(files, id) && Ahead(journal, consumers[consumer], events)
      modifies `consumers, `files, `verified, `chains
      ensures Valid() && r.Ok? && !r.value.Unchanged? && (r.value.Interrupted? ==> crash)
      ensures Reports(old(Now()), old(consumers), Now(), consumers, consumer, r)
      ensures r.value.Written? ==> r.value.batch.changes == events && Adopts(old(files), files, old(consumers)[consumer], r.value.batch)
    {
      hide PublishedOk, ConsumersOk, EndOf, Advances, Kept, NewId, Ahead, Filed, Slot, Reports, Adopts, ContinuesCursor, LabelOf, ParentOf;
      var c := consumers[consumer];
      ghost var p := Now();
      CursorAt(consumers, chains, consumer);
      FiledOk(p, c, events, id, sha);
      SlotFound(p, c, events, id, sha);
      var ok, created := Publish(c, events, id, sha);
      ReportsInterrupted(p, consumers, Now(), consumer);
      if !ok { return Err(RecoveryFailed); }
      if created && crash { return Ok(Interrupted); }
      var b := files[Slot(c, events)];
      ghost var was := consumers;
      CommitCursor(consumer, b);
      ReportsWritten(p, was, Now(), consumers, consumer, b);
      return Ok(Written(b));
    }

    /** The immutable file: a new one, or the one that an interrupted export left behind. */
    method Publish(c: Cursor, events: seq<Change>, id: string, sha: string) returns (ok: bool, created: bool)
      requires PublishedOk(Now()) && c.stream in chains && c.place == EndOf(chains[c.stream])
      requires Ahead(journal, c, events) && NewId(files, id)
      modifies `files
      ensures files == Filed(old(Now()), c, events, id, sha) && ok && (!created ==> files == old(files))
    {
      FiledOk(Now(), c, events, id, sha);
      hide PublishedOk, EndOf, Kept, NewId, Ahead;
      var slot := Slot(c, events);
      if slot in files {
        var b := files[slot];
        return b.changes == events && b.producer == producer && ParentOf(b) == c.place, false;
      }
      files := files[slot := Next(producer, c, events, id, sha)];
      return true, true;
    }

    /** The cursor commit: the export, its receipt and the cursor move together. */
    method CommitCursor(consumer: string, b: Batch)
      requires Valid() && consumer in consumers && LabelOf(b) in files && files[LabelOf(b)] == b
      requires b.stream == consumers[consumer].stream && b.after == consumers[consumer].place.sequence
      modifies `consumers, `verified, `chains
      ensures Valid()
      ensures Advances(old(consumers), consumers, old(verified), verified, consumer, producer, journal, b)
    {
      hide PublishedOk, ConsumersOk, Advances, LabelOf;
      CommitAdvances(Now(), consumers, consumer, b);
      chains := chains[b.stream := chains[b.stream] + [b]];
      verified := verified[b.id := b];
      consumers := consumers[consumer := Cursor(b.stream, Place(b.through, Some(b.id), Some(b.sha)))];
    }
  }
}
