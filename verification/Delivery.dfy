/** Durability acknowledgement: a destination's checkpoint on a stream, advanced one proven batch at a time. */
module Delivery {
  import opened Wrappers
  import opened Changefeed

  datatype Checkpoint = Checkpoint(sequence: nat, id: string, sha: string)

  /** What was retrieved from the destination for one export. */
  datatype Remote = Remote(receipt: Batch, bytes: nat, sha: string)

  /** Committed exports of a stream that end after `through`, in order. */
  ghost predicate IsPending(list: seq<Batch>, verified: map<string, Batch>, stream: string, through: nat) {
    && (forall i :: 0 <= i < |list| ==>
          list[i].id in verified && verified[list[i].id] == list[i] && list[i].stream == stream && list[i].through > through)
    && (forall id :: id in verified && verified[id].stream == stream && verified[id].through > through ==> verified[id] in list)
    && (forall i, j :: 0 <= i < j < |list| ==> list[i].through < list[j].through)
  }

  /** The confirmed batches of one destination and stream: a chain from 0, each committed and proven. */
  ghost predicate Confirmed(chain: seq<Batch>, destination: string, stream: string, verified: map<string, Batch>, proofs: set<(string, string)>) {
    && IsChain(chain, stream)
    && forall i :: 0 <= i < |chain| ==>
         chain[i].id in verified && verified[chain[i].id] == chain[i] && (destination, chain[i].id) in proofs
  }

  class Destinations {
    var checkpoints: map<(string, string), Checkpoint>
    var proofs: set<(string, string)>
    // The confirmed chain behind every checkpoint.
    ghost var confirmed: map<(string, string), seq<Batch>>

    /** The delivery tables beside the exports committed so far. */
    ghost function Now(verified: map<string, Batch>): Tables
      reads this
    {
      Tables(verified, checkpoints, proofs, confirmed)
    }

    /** A checkpoint at n means an unbroken, proven chain from 0 to n. */
    ghost predicate Valid(verified: map<string, Batch>)
      reads this
    {
      TablesOk(Now(verified))
    }

    constructor ()
      ensures Now(map[]) == Start()
    {
      checkpoints, proofs, confirmed := map[], {}, map[];
    }

    function Through(destination: string, stream: string): Place
      reads `checkpoints
    {
      if (destination, stream) in checkpoints then
        var c := checkpoints[(destination, stream)];
        Place(c.sequence, Some(c.id), Some(c.sha))
      else Place(0, None, None)
    }

    /**
     Confirms one export at one destination. A proof already stored is only repeated; otherwise the export must
     continue the destination's own chain.
     */
    method Confirm(verified: map<string, Batch>, destination: string, id: string, ciphertextBytes: nat, remote: Remote)
      returns (r: Result<bool, FeedError>)
      requires Valid(verified)
      modifies this
      ensures Valid(verified)
      ensures var a := Accepted(old(Now(verified)), destination, id, ciphertextBytes, remote);
              (r.Ok? <==> a.Ok?) && Now(verified) == if a.Ok? then a.value else old(Now(verified))
      ensures r.Err? ==> checkpoints == old(checkpoints) && proofs == old(proofs)
      ensures r == Ok(false) ==> (destination, id) in old(proofs) && checkpoints == old(checkpoints) && proofs == old(proofs)
      ensures r == Ok(true) ==>
        && id in verified && remote.receipt == verified[id] && remote.bytes == ciphertextBytes && remote.sha == verified[id].sha
        && (destination, id) !in old(proofs) && proofs == old(proofs) + {(destination, id)}
        && old(Through(destination, verified[id].stream)) == ParentOf(verified[id])
        && checkpoints == old(checkpoints)[(destination, verified[id].stream) := Checkpoint(verified[id].through, id, remote.sha)]
      ensures old(proofs) <= proofs
    {
      hide CheckpointsOk;
      if id !in verified { return Err(UnknownConsumer); }
      var b := verified[id];
      if remote.receipt != b || remote.bytes != ciphertextBytes || remote.sha != b.sha { return Err(RemoteMismatch); }
      if (destination, id) in proofs { return Ok(false); }
      var k := (destination, b.stream);
      if k !in checkpoints {
        if b.after != 0 { return Err(PrecedingMissing); }
      } else {
        var head := checkpoints[k];
        if head.sequence != b.after || Some(head.id) != b.parent || Some(head.sha) != b.parentSha { return Err(PrecedingMissing); }
      }
      Advanced(checkpoints, confirmed, verified, proofs, destination, b);
      proofs := proofs + {(destination, id)};
      checkpoints := checkpoints[k := Checkpoint(b.through, id, remote.sha)];
      confirmed := confirmed[k := (if k in confirmed then confirmed[k] else []) + [b]];
      return Ok(true);
    }

    /** The next committed export leaves every checkpoint what it was. */
    lemma StillValid(verified: map<string, Batch>, b: Batch)
      requires Valid(verified) && b.id !in verified && WellFormed(b)
      ensures Valid(verified[b.id := b])
    {
      ExportKeeps(Now(verified), b);
    }
  }

  // ---- Runs of exports and confirmations ----

  /** Committed exports, checkpoints, stored proofs, and the confirmed chain behind every checkpoint. */
  datatype Tables = Tables(verified: map<string, Batch>, checkpoints: map<(string, string), Checkpoint>, proofs: set<(string, string)>,
                           confirmed: map<(string, string), seq<Batch>>)

  datatype Event =
    | Export(batch: Batch)
    | Confirm(destination: string, id: string, ciphertextBytes: nat, remote: Remote)

  ghost predicate TablesOk(t: Tables) {
    && CheckpointsOk(t.checkpoints, t.confirmed, t.verified, t.proofs)
    && forall id :: id in t.verified ==> t.verified[id].id == id && WellFormed(t.verified[id])
  }

  function Start(): Tables { Tables(map[], map[], {}, map[]) }

  /** `confirm`: the tables after a confirmation that is accepted. */
  function Accepted(t: Tables, destination: string, id: string, ciphertextBytes: nat, remote: Remote): Result<Tables, FeedError> {
    if id !in t.verified then Err(UnknownConsumer)
    else
      var b := t.verified[id];
      var k := (destination, b.stream);
      if remote.receipt != b || remote.bytes != ciphertextBytes || remote.sha != b.sha then Err(RemoteMismatch)
      else if (destination, id) in t.proofs then Ok(t)
      else if if k !in t.checkpoints then b.after != 0
              else ParentOf(b) != Place(t.checkpoints[k].sequence, Some(t.checkpoints[k].id), Some(t.checkpoints[k].sha)) then Err(PrecedingMissing)
      else Ok(Tables(t.verified, t.checkpoints[k := Checkpoint(b.through, id, remote.sha)], t.proofs + {(destination, id)},
                     t.confirmed[k := (if k in t.confirmed then t.confirmed[k] else []) + [b]]))
  }

  function Step(t: Tables, e: Event): Tables {
    match e
    case Export(b) => if b.id in t.verified || !WellFormed(b) then t else t.(verified := t.verified[b.id := b])
    case Confirm(destination, id, ciphertextBytes, remote) =>
      var a := Accepted(t, destination, id, ciphertextBytes, remote);
      if a.Ok? then a.value else t
  }

  function After(events: seq<Event>): Tables {
    if events == [] then Start() else Step(After(events[..|events| - 1]), events[|events| - 1])
  }

  lemma ExportKeeps(t: Tables, b: Batch)
    requires TablesOk(t) && b.id !in t.verified && WellFormed(b)
    ensures TablesOk(t.(verified := t.verified[b.id := b]))
  {
    var more := t.verified[b.id := b];
    hide IsChain;
    forall k | k in t.checkpoints ensures CheckpointOk(t.checkpoints[k], t.confirmed[k], k.0, k.1, more, t.proofs) {
      assert CheckpointOk(t.checkpoints[k], t.confirmed[k], k.0, k.1, t.verified, t.proofs);
    }
  }

  lemma StepKeeps(t: Tables, e: Event)
    requires TablesOk(t)
    ensures TablesOk(Step(t, e))
  {
    hide CheckpointsOk;
    match e
    case Export(b) => if b.id !in t.verified && WellFormed(b) { ExportKeeps(t, b); }
    case Confirm(destination, id, ciphertextBytes, remote) =>
      var a := Accepted(t, destination, id, ciphertextBytes, remote);
      if a.Ok? && a.value != t { Advanced(t.checkpoints, t.confirmed, t.verified, t.proofs, destination, t.verified[id]); }
  }

  lemma {:induction false} RunKeeps(events: seq<Event>)
    ensures TablesOk(After(events))
    decreases |events|
  {
    hide Step;
    if events != [] {
      RunKeeps(events[..|events| - 1]);
      StepKeeps(After(events[..|events| - 1]), events[|events| - 1]);
    }
  }

  /** The exporter's cursor commit is an export step. */
  lemma CommitIsExport(t: Tables, consumers: map<string, Cursor>, consumers': map<string, Cursor>, verified': map<string, Batch>,
                       consumer: string, producer: string, journal: seq<Change>, b: Batch)
    requires consumer in consumers && Advances(consumers, consumers', t.verified, verified', consumer, producer, journal, b)
    ensures Step(t, Export(b)) == t.(verified := verified')
  {
  }

  ghost predicate CheckpointOk(c: Checkpoint, chain: seq<Batch>, destination: string, stream: string, verified: map<string, Batch>, proofs: set<(string, string)>) {
    && Confirmed(chain, destination, stream, verified, proofs) && chain != []
    && EndOf(chain) == Place(c.sequence, Some(c.id), Some(c.sha))
  }

  ghost predicate CheckpointsOk(checkpoints: map<(string, string), Checkpoint>, confirmed: map<(string, string), seq<Batch>>,
                                verified: map<string, Batch>, proofs: set<(string, string)>) {
    && confirmed.Keys == checkpoints.Keys
    && forall k :: k in checkpoints ==> CheckpointOk(checkpoints[k], confirmed[k], k.0, k.1, verified, proofs)
  }

  lemma OneAdvanced(chain: seq<Batch>, verified: map<string, Batch>, proofs: set<(string, string)>, destination: string, b: Batch)
    requires b.id in verified && verified[b.id] == b && WellFormed(b)
    requires Confirmed(chain, destination, b.stream, verified, proofs) && ParentOf(b) == EndOf(chain)
    ensures CheckpointOk(Checkpoint(b.through, b.id, b.sha), chain + [b], destination, b.stream, verified, proofs + {(destination, b.id)})
  {
    hide IsChain, EndOf;
    ChainGrows(chain, b.stream, b);
  }

  lemma NoChain(stream: string)
    ensures IsChain([], stream)
  {
  }

  lemma Advanced(checkpoints: map<(string, string), Checkpoint>, confirmed: map<(string, string), seq<Batch>>,
                 verified: map<string, Batch>, proofs: set<(string, string)>, destination: string, b: Batch)
    requires CheckpointsOk(checkpoints, confirmed, verified, proofs) && b.id in verified && verified[b.id] == b && WellFormed(b)
    requires var k := (destination, b.stream);
             if k !in checkpoints then b.after == 0
             else ParentOf(b) == Place(checkpoints[k].sequence, Some(checkpoints[k].id), Some(checkpoints[k].sha))
    ensures var k := (destination, b.stream);
            CheckpointsOk(checkpoints[k := Checkpoint(b.through, b.id, b.sha)],
                          confirmed[k := (if k in confirmed then confirmed[k] else []) + [b]], verified, proofs + {(destination, b.id)})
  {
    var k := (destination, b.stream);
    var chain := if k in confirmed then confirmed[k] else [];
    var more := proofs + {(destination, b.id)};
    assert k in checkpoints ==> CheckpointOk(checkpoints[k], chain, destination, b.stream, verified, proofs);
    if k !in checkpoints { NoChain(b.stream); }
    OneAdvanced(chain, verified, proofs, destination, b);
    hide IsChain, EndOf;
    forall j | j in checkpoints && j != k ensures CheckpointOk(checkpoints[j], confirmed[j], j.0, j.1, verified, more) {
      assert CheckpointOk(checkpoints[j], confirmed[j], j.0, j.1, verified, proofs);
    }
  }

  /** An unbroken parent chain from 0 to `sequence`, each batch committed and proven for the destination. */
  ghost predicate ProvenChain(t: Tables, chain: seq<Batch>, destination: string, stream: string, sequence: nat) {
    && chain != [] && chain[0].after == 0 && chain[|chain| - 1].through == sequence
    && (forall i :: 0 <= i < |chain| ==>
          && chain[i].stream == stream && chain[i].id in t.verified && t.verified[chain[i].id] == chain[i]
          && (destination, chain[i].id) in t.proofs)
    && (forall i :: 0 < i < |chain| ==>
          && chain[i].parent == Some(chain[i - 1].id) && chain[i].parentSha == Some(chain[i - 1].sha)
          && chain[i].after == chain[i - 1].through)
  }

  /**
   After any exports and confirmations in any order, the checkpoint of a destination on a stream stands for an unbroken
   parent chain of proven, committed batches.
   */
  lemma CheckpointMeansChain(events: seq<Event>, k: (string, string))
    requires k in After(events).checkpoints
    ensures var t := After(events);
            k in t.confirmed && IsChain(t.confirmed[k], k.1) && ProvenChain(t, t.confirmed[k], k.0, k.1, t.checkpoints[k].sequence)
  {
    RunKeeps(events);
    var t := After(events);
    hide After;
    var chain := t.confirmed[k];
    assert CheckpointOk(t.checkpoints[k], chain, k.0, k.1, t.verified, t.proofs);
    assert ParentOf(chain[0]) == EndOf(chain[..0]);
    forall i | 0 < i < |chain|
      ensures chain[i].parent == Some(chain[i - 1].id) && chain[i].parentSha == Some(chain[i - 1].sha) && chain[i].after == chain[i - 1].through
    {
      assert chain[..i][i - 1] == chain[i - 1];
    }
  }

  /** The committed batch that continues a prefix of the chain is the next one. */
  lemma NextCommitted(p: Published, stream: string, n: nat, b: Batch)
    requires PublishedOk(p) && stream in p.chains && n <= |p.chains[stream]| && b.stream == stream
    requires b.id in p.verified && p.verified[b.id] == b && ParentOf(b).sequence == EndOf(p.chains[stream][..n]).sequence
    ensures n < |p.chains[stream]| && p.chains[stream][n] == b
  {
    var whole := p.chains[stream];
    assert ChainOk(whole, stream, p.files, p.verified) && p.verified[b.id] in whole;
    var i :| 0 <= i < |whole| && whole[i] == b;
    hide PublishedOk;
    PrefixByEnd(whole, stream, i, n);
  }

  lemma ShorterChain(chain: seq<Batch>, destination: string, stream: string, verified: map<string, Batch>, proofs: set<(string, string)>)
    requires Confirmed(chain, destination, stream, verified, proofs) && chain != []
    ensures Confirmed(chain[..|chain| - 1], destination, stream, verified, proofs)
    ensures ParentOf(chain[|chain| - 1]) == EndOf(chain[..|chain| - 1])
    ensures var b := chain[|chain| - 1]; b.stream == stream && b.id in verified && verified[b.id] == b
  {
    var front := chain[..|chain| - 1];
    forall i | 0 <= i < |front| ensures front[i].stream == stream && WellFormed(front[i]) && ParentOf(front[i]) == EndOf(front[..i]) {
      assert front[..i] == chain[..i];
    }
  }

  /** A confirmed chain is a prefix of the stream's committed chain. */
  lemma {:induction false} ConfirmedIsPrefix(p: Published, chain: seq<Batch>, destination: string, stream: string, proofs: set<(string, string)>)
    requires PublishedOk(p) && stream in p.chains && Confirmed(chain, destination, stream, p.verified, proofs)
    ensures |chain| <= |p.chains[stream]| && p.chains[stream][..|chain|] == chain
    decreases |chain|
  {
    hide PublishedOk, Confirmed, EndOf, ParentOf;
    if chain != [] {
      var n := |chain| - 1;
      ShorterChain(chain, destination, stream, p.verified, proofs);
      ConfirmedIsPrefix(p, chain[..n], destination, stream, proofs);
      NextCommitted(p, stream, n, chain[n]);
      assert chain == chain[..n] + [chain[n]] && p.chains[stream][..n + 1] == p.chains[stream][..n] + [chain[n]];
    }
  }

  /** What is pending for a destination is exactly the rest of the committed chain, in order. */
  lemma PendingIsTheRest(p: Published, chain: seq<Batch>, destination: string, stream: string, proofs: set<(string, string)>)
    requires PublishedOk(p) && stream in p.chains && Confirmed(chain, destination, stream, p.verified, proofs)
    ensures |chain| <= |p.chains[stream]|
    ensures IsPending(p.chains[stream][|chain|..], p.verified, stream, EndOf(chain).sequence)
  {
    ConfirmedIsPrefix(p, chain, destination, stream, proofs);
    var whole := p.chains[stream];
    assert ChainOk(whole, stream, p.files, p.verified);
    forall id | id in p.verified && p.verified[id].stream == stream ensures p.verified[id] in whole {}
    hide PublishedOk;
    RestPending(whole, |chain|, stream, p.files, p.verified);
  }

  lemma RestPending(whole: seq<Batch>, n: nat, stream: string, files: map<Label, Batch>, verified: map<string, Batch>)
    requires n <= |whole| && ChainOk(whole, stream, files, verified)
    requires forall id :: id in verified && verified[id].stream == stream ==> verified[id] in whole
    ensures IsPending(whole[n..], verified, stream, EndOf(whole[..n]).sequence)
  {
    hide IsChain, EndOf, WellFormed, ParentOf;
    var rest := whole[n..];
    forall i | 0 <= i < |rest| ensures rest[i].stream == stream && rest[i].through > EndOf(whole[..n]).sequence {
      EndsAfter(whole, stream, n, n + i);
    }
    forall id | id in verified && verified[id].stream == stream && verified[id].through > EndOf(whole[..n]).sequence ensures verified[id] in rest {
      var i :| 0 <= i < |whole| && whole[i] == verified[id];
      EndsAfter(whole, stream, n, i);
      assert i >= n ==> rest[i - n] == whole[i];
    }
    forall i, j | 0 <= i < j < |rest| ensures rest[i].through < rest[j].through {
      EndsAfter(whole, stream, n + i + 1, n + j);
      EndAt(whole, n + i);
    }
  }

  /** Batch number `i` ends beyond the first `n` exactly when it is not one of them. */
  lemma EndsAfter(whole: seq<Batch>, stream: string, n: nat, i: nat)
    requires IsChain(whole, stream) && n <= |whole| && i < |whole|
    ensures whole[i].stream == stream && (whole[i].through > EndOf(whole[..n]).sequence <==> n <= i)
  {
    EndAt(whole, i);
    if n <= i { ChainAscends(whole, stream, n, i + 1); } else { ChainAscends(whole, stream, i + 1, n); }
  }
}
