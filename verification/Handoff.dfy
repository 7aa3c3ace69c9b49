/**
 The two-database handoff. The mirror prepares a source point; the cache captures it canonically, commits
 the complete run together with a receipt, and only then is the point acknowledged in the mirror. One process at a
 time holds the capture lock and goes through its steps; any step may be the last one before a crash, which releases
 the lock. Policy recovery may replace a pending point in place; a restored archive keeps runs but loses receipts.
 */
module Handoff {
  import opened Wrappers
  import opened Captures

  datatype Manifest = Manifest(binding: string, fileName: string, capture: Capture)

  datatype Status = Running | Failed | Partial | Finished

  datatype Run = Run(status: Status, source: string, scope: string, manifest: Option<Manifest>, detail: string)

  /** A run record: its current content and every retained revision, by digest. */
  datatype RunRecord = RunRecord(head: Run, revisions: map<string, Run>)

  datatype ReceiptRow = ReceiptRow(binding: string, source: string, scope: string, receipt: Receipt)

  /** The collector's fixed surroundings; `hash` binds a capture to its file name, `digest` names run contents. */
  datatype Env = Env(source: string, scope: string, namespace: string, fileName: string,
                     hash: (Capture, string) -> string, digest: Run -> string)

  ghost predicate Injective(digest: Run -> string) {
    forall a, b :: digest(a) == digest(b) ==> a == b
  }

  /** How far the holder of the capture lock has come; everything but the lock itself is that process's own memory. */
  datatype Phase =
    | Entered
    | Unreceipted(capture: Capture)                    // the lookup found no receipt
    | Receipted(capture: Capture, receipt: Receipt)    // the lookup found one
    | Validated(capture: Capture)
    | Cleared(capture: Capture)                        // the attempts it supersedes are closed
    | Parented(capture: Capture)                       // its parent is complete
    | Opened(capture: Capture)                         // its run is recorded as running
    | Completed(capture: Capture)                      // its run is recorded as complete

  datatype Holder = Holder(process: nat, phase: Phase)

  /**
   The capture lock and the durable state of both databases. The last four components are history: every point ever published, points
   replaced by recovery, receipts ever committed, tokens whose receipt row was lost.
   */
  datatype System = System(lock: Option<Holder>, mirror: Option<Point>, runs: map<string, RunRecord>,
                           receipts: map<string, ReceiptRow>, points: map<string, Capture>, superseded: set<string>,
                           seen: set<(string, Receipt)>, lost: set<string>)

  function Binding(env: Env, c: Capture): string { env.hash(c, env.fileName) }

  function ManifestOf(env: Env, c: Capture): Manifest { Manifest(Binding(env, c), env.fileName, c) }

  function ReceiptOf(env: Env, c: Capture, run: Run): Receipt { Receipt(Binding(env, c), env.digest(run)) }

  predicate Complete(s: System, token: string) {
    token in s.runs && s.runs[token].head.status == Finished
  }

  // ---- Cache operations ----

  /** Changed content becomes the head; a revision once retained is never replaced. */
  function Upserted(env: Env, runs: map<string, RunRecord>, token: string, run: Run): map<string, RunRecord> {
    var d := env.digest(run);
    if token !in runs then runs[token := RunRecord(run, map[d := run])]
    else if env.digest(runs[token].head) == d then runs
    else
      var past := runs[token].revisions;
      runs[token := RunRecord(run, if d in past then past else past[d := run])]
  }

  /** `commit_receipt`: one row a token, and never another one. */
  function CommitReceipt(env: Env, s: System, c: Capture, run: Run): Result<System, MirrorError> {
    var receipt := ReceiptOf(env, c, run);
    if c.token in s.receipts && (s.receipts[c.token].binding, s.receipts[c.token].receipt) != (Binding(env, c), receipt)
    then Err(MirrorUnavailable)
    else
      var rows := if c.token in s.receipts then s.receipts
                  else s.receipts[c.token := ReceiptRow(Binding(env, c), env.source, env.scope, receipt)];
      Ok(s.(receipts := rows, seen := s.seen + {(c.token, receipt)}))
  }

  /** `receipt`: the committed receipt of a capture, rebuilt from its complete run if only the row is gone. */
  function FindReceipt(env: Env, s: System, c: Capture): Result<(Option<Receipt>, System), MirrorError> {
    if c.token in s.receipts then
      var row := s.receipts[c.token];
      if (row.binding, row.source, row.scope) != (Binding(env, c), env.source, env.scope) then Err(MirrorUnavailable)
      else if !(c.token in s.runs && row.receipt.digest in s.runs[c.token].revisions) then Err(MirrorUnavailable)
      else
        var run := s.runs[c.token].revisions[row.receipt.digest];
        if run.status != Finished || run.manifest != Some(ManifestOf(env, c)) then Err(MirrorUnavailable)
        else Ok((Some(row.receipt), s))
    else if Complete(s, c.token) then
      var run := s.runs[c.token].head;
      if (run.source, run.scope, run.manifest) != (env.source, env.scope, Some(ManifestOf(env, c))) then Err(MirrorUnavailable)
      else
        match CommitReceipt(env, s, c, run)
        case Err(e) => Err(e)
        case Ok(t) => Ok((Some(ReceiptOf(env, c, run)), t))
    else Ok((None, s))
  }

  /** `check_parent`: the parent is canonically complete and is the capture that its run says. */
  predicate ParentOk(env: Env, s: System, c: Capture) {
    c.parent.None? ||
      (Complete(s, c.parent.value)
       && var run := s.runs[c.parent.value].head;
          run.source == env.source && run.scope == env.scope
          && run.manifest.Some? && run.manifest.value.capture.token == c.parent.value)
  }

  /** `validate`: exactly the pending point, under the policy it was prepared for. */
  predicate MayCapture(env: Env, s: System, c: Capture, policy: string) {
    PendingPoint(s.mirror) == Some(c) && c.namespace == env.namespace && c.policyTag == policy
  }

  // ---- Steps ----

  datatype Event =
    | Acquire                                                     // blocks while another process holds the lock
    | Publish(capture: Capture)                                   // initialize, prepare, reconcile or rebase
    | Lookup(capture: Capture)                                    // find or rebuild the receipt
    | Acknowledge
    | Validate(policy: string)
    | Recover(token: string, policy: string)
    | Retire(detail: string)
    | CheckParent
    | Save(status: Status, policy: string, covered: bool, detail: string)  // `covered`: the coverage attempt can finish
    | Restore(kept: set<string>)                                  // a cold archive import: only these receipt rows survive
    | Crash

  /** One process takes one step. */
  datatype Action = Action(who: nat, event: Event)

  function Moved(s: System, who: nat, phase: Phase): System { s.(lock := Some(Holder(who, phase))) }

  /** Leaving the lock's scope, by return, exception or crash. */
  function Released(s: System): System { s.(lock := None) }

  predicate MayPublish(env: Env, s: System, c: Capture) {
    && c.token !in s.points && c.namespace == env.namespace && c.context.recovery.None?
    && (if c.parent.None? then s.mirror.None? else AcknowledgedAt(s.mirror, c.parent.value, c.namespace))
  }

  function Published(s: System, c: Capture): System {
    s.(mirror := Some(Point(c, false, None)), points := s.points[c.token := c])
  }

  /**
   `save_run`: only a complete run is checked, in the transaction that stores it and its receipt; any other status is
   stored over whatever is there. The manifest is known from the second call on.
   */
  function Saved(env: Env, s: System, c: Capture, status: Status, policy: string, covered: bool, detail: string): Result<System, MirrorError> {
    if status == Finished && !(MayCapture(env, s, c, policy) && ParentOk(env, s, c) && covered) then Err(MirrorUnavailable) else
      var run := Run(status, env.source, env.scope, if status == Running then None else Some(ManifestOf(env, c)), detail);
      var t := s.(runs := Upserted(env, s.runs, c.token, run));
      if status == Finished then CommitReceipt(env, t, c, run) else Ok(t)
  }

  /** The mirror's own check: the current point, and the same receipt if it has one. */
  function Acked(s: System, c: Capture, receipt: Receipt): Result<System, MirrorError> {
    if s.mirror.None? || s.mirror.value.capture.token != c.token then Err(MirrorUnavailable)
    else if s.mirror.value.acknowledged && s.mirror.value.receipt != Some(receipt) then Err(MirrorUnavailable)
    else Ok(s.(mirror := Some(Point(s.mirror.value.capture, true, Some(receipt)))))
  }

  /** Policy recovery replaces the pending point in place; tokens are never minted twice. */
  function Recovering(env: Env, s: System, c: Capture, token: string, policy: string): Result<(Capture, System), MirrorError> {
    if PendingPoint(s.mirror) != Some(c) || c.namespace != env.namespace || policy == "" || policy == c.policyTag || token in s.points
    then Err(MirrorUnavailable)
    else
      var next := Recovered(c, token, policy, env.fileName, Binding(env, c));
      Ok((next, s.(mirror := Some(Point(next, false, None)),
                   points := s.points[token := next], superseded := s.superseded + {c.token})))
  }

  /** The recovery provenance of a capture, newest first; a forged link is refused. */
  function Ancestors(env: Env, c: Capture): Result<seq<Capture>, MirrorError>
    decreases c
  {
    match c.context.recovery
    case None => Ok([])
    case Some(r) =>
      if r.fileName != env.fileName || r.capture.namespace != env.namespace || r.binding != Binding(env, r.capture) then Err(MirrorUnavailable)
      else
        match Ancestors(env, r.capture)
        case Err(e) => Err(e)
        case Ok(more) => Ok([r.capture] + more)
  }

  /** Runs of superseded attempts are closed as failed; complete ones are left alone. */
  function Retired(env: Env, runs: map<string, RunRecord>, ancestors: seq<Capture>, detail: string): Result<map<string, RunRecord>, MirrorError> {
    if ancestors == [] then Ok(runs) else
      var a := ancestors[0];
      if a.token !in runs || runs[a.token].head.status == Finished then Retired(env, runs, ancestors[1..], detail)
      else
        var run := runs[a.token].head;
        if run.source != env.source || run.scope != env.scope || (run.manifest.Some? && run.manifest.value.binding != Binding(env, a))
        then Err(MirrorUnavailable)
        else Retired(env, Upserted(env, runs, a.token, run.(status := Failed, detail := detail)), ancestors[1..], detail)
  }

  function RetireAll(env: Env, s: System, c: Capture, detail: string): Result<System, MirrorError> {
    match Ancestors(env, c)
    case Err(e) => Err(e)
    case Ok(ancestors) =>
      match Retired(env, s.runs, ancestors, detail)
      case Err(e) => Err(e)
      case Ok(runs) => Ok(s.(runs := runs))
  }

  /** The state after a transaction, and the phase that the process goes on with; a refused one is an exception. */
  function Then(r: Result<System, MirrorError>, s: System, who: nat, phase: Phase): System {
    if r.Ok? then Moved(r.value, who, phase) else Released(s)
  }

  function LookedUp(env: Env, s: System, who: nat, c: Capture): System {
    match FindReceipt(env, s, c)
    case Err(_) => Released(s)
    case Ok((None, t)) => Moved(t, who, Unreceipted(c))
    case Ok((Some(receipt), t)) => Moved(t, who, Receipted(c, receipt))
  }

  /** What the process that holds the lock may do next, in the order of its program; anything else is no step of it. */
  function Act(env: Env, s: System, who: nat, phase: Phase, e: Event): System {
    match phase
    case Entered =>
      if e.Publish? then if MayPublish(env, s, e.capture) then Published(s, e.capture) else Released(s)
      else if e.Lookup? then LookedUp(env, s, who, e.capture)
      else s
    case Unreceipted(c) =>
      if e.Validate? then if MayCapture(env, s, c, e.policy) then Moved(s, who, Validated(c)) else s
      else if e.Recover? then
        var r := Recovering(env, s, c, e.token, e.policy);
        if r.Ok? then Moved(r.value.1, who, Unreceipted(r.value.0)) else Released(s)
      else s
    case Receipted(c, receipt) =>
      if e.Acknowledge? then if Acked(s, c, receipt).Ok? then Released(Acked(s, c, receipt).value) else Released(s) else s
    case Validated(c) => if e.Retire? then Then(RetireAll(env, s, c, e.detail), s, who, Cleared(c)) else s
    case Cleared(c) => if e.CheckParent? then if ParentOk(env, s, c) then Moved(s, who, Parented(c)) else Released(s) else s
    case Parented(c) =>
      if e.Save? && e.status == Running then Then(Saved(env, s, c, Running, e.policy, e.covered, e.detail), s, who, Opened(c)) else s
    case Opened(c) =>
      if e.Save? && e.status == Finished then Then(Saved(env, s, c, Finished, e.policy, e.covered, e.detail), s, who, Completed(c))
      else if e.Save? && e.status != Running then Released(Saved(env, s, c, e.status, e.policy, e.covered, e.detail).value)
      else s
    case Completed(c) => if e == Lookup(c) then LookedUp(env, s, who, c) else s
  }

  /** One step of any process. Only the holder of the lock acts on the two databases; an archive import needs no lock. */
  function Step(env: Env, s: System, a: Action): System {
    match a.event
    case Restore(kept) =>
      s.(receipts := map t | t in s.receipts && t in kept :: s.receipts[t], lost := s.lost + (s.receipts.Keys - kept))
    case Acquire => if s.lock.None? then Moved(s, a.who, Entered) else s
    case Crash => if s.lock.Some? && s.lock.value.process == a.who then Released(s) else s
    case _ => if s.lock.Some? && s.lock.value.process == a.who then Act(env, s, a.who, s.lock.value.phase, a.event) else s
  }

  // ---- What every step keeps ----

  /** Every published point is known by its own token and has a canonically complete parent. */
  ghost predicate PointOk(env: Env, s: System, t: string)
    requires t in s.points
  {
    var c := s.points[t];
    && c.token == t && c.namespace == env.namespace
    && (c.parent.Some? ==> c.parent.value in s.points && Complete(s, c.parent.value))
    && (c.context.recovery.Some? ==>
          var r := c.context.recovery.value;
          && r.fileName == env.fileName && r.binding == Binding(env, r.capture)
          && r.capture.token in s.superseded && r.capture.token in s.points && s.points[r.capture.token] == r.capture && r.capture.parent == c.parent)
  }

  ghost predicate RunOk(env: Env, s: System, t: string)
    requires t in s.runs
  {
    var rec := s.runs[t];
    && t in s.points && rec.head.source == env.source && rec.head.scope == env.scope
    && (rec.head.manifest.Some? ==> rec.head.manifest == Some(ManifestOf(env, s.points[t])))
    && (rec.head.status == Finished ==> rec.head.manifest.Some?)
    && RecordOk(env, rec)
  }

  /** The one receipt that a complete capture can have. */
  ghost predicate Witnesses(env: Env, s: System, t: string, receipt: Receipt) {
    t in s.points && Complete(s, t) && receipt == ReceiptOf(env, s.points[t], s.runs[t].head)
  }

  ghost predicate MirrorOk(env: Env, s: System) {
    s.mirror.Some? ==>
      var c := s.mirror.value.capture;
      && c.token in s.points && s.points[c.token] == c && c.token !in s.superseded
      && (s.mirror.value.acknowledged ==>
            s.mirror.value.receipt.Some? && Witnesses(env, s, c.token, s.mirror.value.receipt.value) && (c.token in s.receipts || c.token in s.lost))
  }

  ghost predicate PointsOk(env: Env, s: System) { forall t :: t in s.points ==> PointOk(env, s, t) }

  ghost predicate RunsOk(env: Env, s: System) { forall t :: t in s.runs ==> RunOk(env, s, t) }

  ghost predicate ReceiptsOk(env: Env, s: System) {
    forall t :: t in s.receipts ==>
      Witnesses(env, s, t, s.receipts[t].receipt)
      && s.receipts[t] == ReceiptRow(Binding(env, s.points[t]), env.source, env.scope, s.receipts[t].receipt)
  }

  ghost predicate SeenOk(env: Env, s: System) { forall w :: w in s.seen ==> Witnesses(env, s, w.0, w.1) }

  ghost predicate SupersededOk(s: System) { forall t :: t in s.superseded ==> t in s.points && !Complete(s, t) }

  /** What the two databases keep. */
  ghost predicate DataOk(env: Env, s: System) {
    && PointsOk(env, s) && RunsOk(env, s) && ReceiptsOk(env, s) && SeenOk(env, s) && SupersededOk(s) && MirrorOk(env, s)
    && (s.mirror.None? ==> s.points == map[])
  }

  /** The capture is the pending point, and nobody has completed it. */
  ghost predicate Open(s: System, c: Capture) { PendingPoint(s.mirror) == Some(c) && !Complete(s, c.token) }

  /** What the holder of the lock may rely on, since nobody else acts meanwhile. */
  ghost predicate PhaseOk(env: Env, s: System, phase: Phase) {
    match phase
    case Entered => true
    case Unreceipted(c) => !Complete(s, c.token)
    case Receipted(c, receipt) =>
      c.token in s.points && s.points[c.token] == c && Witnesses(env, s, c.token, receipt) && (c.token in s.receipts || c.token in s.lost)
    case Validated(c) => Open(s, c)
    case Cleared(c) => Open(s, c)
    case Parented(c) => Open(s, c)
    case Opened(c) => Open(s, c)
    case Completed(c) => PendingPoint(s.mirror) == Some(c) && Complete(s, c.token)
  }

  ghost predicate Inv(env: Env, s: System) {
    DataOk(env, s) && (s.lock.Some? ==> PhaseOk(env, s, s.lock.value.phase))
  }

  /** Before the first capture. */
  function Start(): System {
    System(None, None, map[], map[], map[], {}, {}, {})
  }

  /** What a step of the cache may do: complete runs stay as they are. */
  ghost predicate RunsKept(s: System, t: System) {
    forall k :: Complete(s, k) ==> k in t.runs && t.runs[k].head == s.runs[k].head
  }

  lemma WitnessKept(env: Env, s: System, t: System, k: string, receipt: Receipt)
    requires Witnesses(env, s, k, receipt) && RunsKept(s, t) && k in t.points && t.points[k] == s.points[k]
    ensures Witnesses(env, t, k, receipt)
  {
  }

  lemma PointsKept(env: Env, s: System, t: System)
    requires PointsOk(env, s) && RunsKept(s, t) && t.points == s.points && s.superseded <= t.superseded
    ensures PointsOk(env, t)
  {
    forall k | k in t.points ensures PointOk(env, t, k) { assert PointOk(env, s, k); }
  }

  lemma WitnessesKept(env: Env, s: System, t: System)
    requires SeenOk(env, s) && ReceiptsOk(env, s) && RunsKept(s, t)
    requires (forall k :: k in s.points ==> k in t.points && t.points[k] == s.points[k])
    ensures t.seen == s.seen ==> SeenOk(env, t)
    ensures t.receipts == s.receipts ==> ReceiptsOk(env, t)
  {
    forall w | w in s.seen ensures Witnesses(env, t, w.0, w.1) { WitnessKept(env, s, t, w.0, w.1); }
    forall k | k in s.receipts ensures Witnesses(env, t, k, s.receipts[k].receipt) { WitnessKept(env, s, t, k, s.receipts[k].receipt); }
  }

  lemma MirrorKept(env: Env, s: System, t: System)
    requires MirrorOk(env, s) && RunsKept(s, t) && t.points == s.points && t.superseded == s.superseded
    requires t.mirror == s.mirror && s.receipts.Keys + s.lost <= t.receipts.Keys + t.lost
    ensures MirrorOk(env, t)
  {
    if t.mirror.Some? && t.mirror.value.acknowledged {
      WitnessKept(env, s, t, t.mirror.value.capture.token, t.mirror.value.receipt.value);
      assert t.mirror.value.capture.token in s.receipts.Keys + s.lost;
    }
  }

  ghost predicate RecordOk(env: Env, rec: RunRecord) {
    && env.digest(rec.head) in rec.revisions && rec.revisions[env.digest(rec.head)] == rec.head
    && (forall d :: d in rec.revisions ==> env.digest(rec.revisions[d]) == d)
  }

  lemma RecordUpserted(env: Env, runs: map<string, RunRecord>, token: string, run: Run)
    requires Injective(env.digest) && (token in runs ==> RecordOk(env, runs[token]))
    ensures var more := Upserted(env, runs, token, run);
            && token in more && more[token].head == run && RecordOk(env, more[token])
            && forall k :: k != token ==> (k in more <==> k in runs) && (k in runs ==> more[k] == runs[k])
  {
    var d := env.digest(run);
    if token in runs {
      assert env.digest(runs[token].head) == d ==> runs[token].head == run;
      if d in runs[token].revisions { assert env.digest(runs[token].revisions[d]) == d; }
    }
  }

  lemma UpsertOk(env: Env, s: System, c: Capture, run: Run)
    requires Injective(env.digest) && RunsOk(env, s) && c.token in s.points && s.points[c.token] == c && !Complete(s, c.token)
    requires run.source == env.source && run.scope == env.scope && (run.manifest.Some? ==> run.manifest == Some(ManifestOf(env, c)))
    requires run.status == Finished ==> run.manifest.Some?
    ensures var t := s.(runs := Upserted(env, s.runs, c.token, run));
            RunsKept(s, t) && c.token in t.runs && t.runs[c.token].head == run && RunsOk(env, t)
  {
    hide RecordOk, Upserted, Injective;
    assert c.token in s.runs ==> RunOk(env, s, c.token);
    RecordUpserted(env, s.runs, c.token, run);
    var t := s.(runs := Upserted(env, s.runs, c.token, run));
    forall k | k in t.runs ensures RunOk(env, t, k) {
      if k != c.token { assert RunOk(env, s, k); }
    }
  }

  /** A changed run of a point that is not complete disturbs nothing else. */
  lemma RunChanged(env: Env, s: System, c: Capture, run: Run)
    requires Injective(env.digest) && DataOk(env, s) && c.token in s.points && s.points[c.token] == c && !Complete(s, c.token)
    requires run.source == env.source && run.scope == env.scope && (run.manifest.Some? ==> run.manifest == Some(ManifestOf(env, c)))
    requires run.status == Finished ==> run.manifest.Some? && c.token !in s.superseded
    ensures var t := s.(runs := Upserted(env, s.runs, c.token, run));
            RunsKept(s, t) && c.token in t.runs && t.runs[c.token].head == run && DataOk(env, t)
  {
    hide PointsOk, RunsOk, ReceiptsOk, SeenOk, Witnesses, ManifestOf, Injective, RecordOk;
    UpsertOk(env, s, c, run);
    var t := s.(runs := Upserted(env, s.runs, c.token, run));
    PointsKept(env, s, t);
    WitnessesKept(env, s, t);
    MirrorKept(env, s, t);
  }

  /** A point added to the history. */
  lemma PointAdded(env: Env, s: System, t: System, c: Capture)
    requires DataOk(env, s) && c.token !in s.points && t.points == s.points[c.token := c] && t.runs == s.runs && t.receipts == s.receipts
    requires t.seen == s.seen && t.lost == s.lost && s.superseded <= t.superseded <= s.superseded + s.points.Keys
    requires forall k :: k in t.superseded ==> !Complete(s, k)
    requires PointOk(env, t, c.token) && t.mirror == Some(Point(c, false, None)) && c.token !in t.superseded
    ensures DataOk(env, t)
  {
    forall k | k in t.points ensures PointOk(env, t, k) {
      if k != c.token { assert PointOk(env, s, k); }
    }
    forall k | k in t.runs ensures RunOk(env, t, k) { assert RunOk(env, s, k); }
    WitnessesKept(env, s, t);
  }

  lemma PublishKeeps(env: Env, s: System, c: Capture)
    requires DataOk(env, s) && MayPublish(env, s, c)
    ensures DataOk(env, Published(s, c))
  {
    PointAdded(env, s, Published(s, c), c);
  }

  /** The receipt of a complete run can always be committed: no other one can be there. */
  lemma CommitKeeps(env: Env, t: System, c: Capture)
    requires DataOk(env, t) && c.token in t.points && t.points[c.token] == c && Complete(t, c.token)
    ensures var r := CommitReceipt(env, t, c, t.runs[c.token].head);
            r.Ok? && DataOk(env, r.value) && r.value.mirror == t.mirror && c.token in r.value.receipts
  {
    var run := t.runs[c.token].head;
    Committable(env, t, c);
    var u := CommitReceipt(env, t, c, run).value;
    hide RunsOk, PointsOk, ReceiptsOk, SeenOk, Binding, ReceiptOf, CommitReceipt;
    PointsKept(env, t, u);
    MirrorKept(env, t, u);
    RunsStay(env, t, u);
    ReceiptAdded(env, t, u, c, ReceiptOf(env, c, run));
  }

  lemma Committable(env: Env, t: System, c: Capture)
    requires ReceiptsOk(env, t) && c.token in t.points && t.points[c.token] == c && Complete(t, c.token)
    ensures var run := t.runs[c.token].head;
            var receipt := ReceiptOf(env, c, run);
            var r := CommitReceipt(env, t, c, run);
            && r.Ok? && r.value == t.(receipts := r.value.receipts, seen := t.seen + {(c.token, receipt)})
            && (r.value.receipts == t.receipts
                || r.value.receipts == t.receipts[c.token := ReceiptRow(Binding(env, c), env.source, env.scope, receipt)])
            && c.token in r.value.receipts && t.receipts.Keys <= r.value.receipts.Keys && RunsKept(t, r.value)
  {
    hide Binding, ReceiptOf;
    if c.token in t.receipts { assert Witnesses(env, t, c.token, t.receipts[c.token].receipt); }
  }

  lemma RunsStay(env: Env, s: System, t: System)
    requires RunsOk(env, s) && t.runs == s.runs && t.points == s.points
    ensures RunsOk(env, t)
  {
    forall k | k in t.runs ensures RunOk(env, t, k) { assert RunOk(env, s, k); }
  }

  /** One receipt more, of a complete capture. */
  lemma ReceiptAdded(env: Env, t: System, u: System, c: Capture, receipt: Receipt)
    requires SeenOk(env, t) && ReceiptsOk(env, t) && Witnesses(env, t, c.token, receipt) && t.points[c.token] == c
    requires u.points == t.points && u.runs == t.runs && u.seen == t.seen + {(c.token, receipt)}
    requires u.receipts == t.receipts || u.receipts == t.receipts[c.token := ReceiptRow(Binding(env, c), env.source, env.scope, receipt)]
    ensures SeenOk(env, u) && ReceiptsOk(env, u)
  {
    hide Binding, ReceiptOf;
    forall w | w in u.seen ensures Witnesses(env, u, w.0, w.1) {
      if w in t.seen { assert Witnesses(env, t, w.0, w.1); }
    }
    forall k | k in u.receipts
      ensures Witnesses(env, u, k, u.receipts[k].receipt)
      ensures u.receipts[k] == ReceiptRow(Binding(env, u.points[k]), env.source, env.scope, u.receipts[k].receipt)
    {
      if k in t.receipts { assert Witnesses(env, t, k, t.receipts[k].receipt); }
    }
  }

  /**
   Storing a run never touches a complete one: in the phases that store, the point is pending and not complete. A
   complete run is refused only by its own checks, and its receipt can always be committed with it.
   */
  lemma SaveKeeps(env: Env, s: System, c: Capture, status: Status, policy: string, covered: bool, detail: string)
    requires Injective(env.digest) && DataOk(env, s) && Open(s, c)
    ensures var r := Saved(env, s, c, status, policy, covered, detail);
            && (r.Ok? <==> (status == Finished ==> MayCapture(env, s, c, policy) && ParentOk(env, s, c) && covered))
            && (r.Ok? ==> DataOk(env, r.value) && RunsKept(s, r.value) && r.value.mirror == s.mirror
                          && (Complete(r.value, c.token) <==> status == Finished))
  {
    hide DataOk, Upserted, ParentOk, MayCapture, CommitReceipt, ManifestOf;
    if status == Finished {
      if MayCapture(env, s, c, policy) && ParentOk(env, s, c) && covered { CompleteSaved(env, s, c, detail); }
    } else {
      var run := Run(status, env.source, env.scope, if status == Running then None else Some(ManifestOf(env, c)), detail);
      RunStored(env, s, c, run);
    }
  }

  lemma RunStored(env: Env, s: System, c: Capture, run: Run)
    requires Injective(env.digest) && DataOk(env, s) && Open(s, c)
    requires run.source == env.source && run.scope == env.scope && (run.manifest.Some? ==> run.manifest == Some(ManifestOf(env, c)))
    requires run.status == Finished ==> run.manifest.Some?
    ensures var t := s.(runs := Upserted(env, s.runs, c.token, run));
            && DataOk(env, t) && RunsKept(s, t) && c.token in t.runs && t.runs[c.token].head == run
            && (Complete(t, c.token) <==> run.status == Finished)
  {
    hide PointsOk, RunsOk, ReceiptsOk, SeenOk, Upserted, ManifestOf;
    RunChanged(env, s, c, run);
  }

  /** A complete run is stored with its receipt. */
  lemma CompleteSaved(env: Env, s: System, c: Capture, detail: string)
    requires Injective(env.digest) && DataOk(env, s) && Open(s, c)
    ensures var run := Run(Finished, env.source, env.scope, Some(ManifestOf(env, c)), detail);
            var r := CommitReceipt(env, s.(runs := Upserted(env, s.runs, c.token, run)), c, run);
            r.Ok? && DataOk(env, r.value) && RunsKept(s, r.value) && r.value.mirror == s.mirror && Complete(r.value, c.token)
  {
    var run := Run(Finished, env.source, env.scope, Some(ManifestOf(env, c)), detail);
    RunStored(env, s, c, run);
    assert c.token in s.points && s.points[c.token] == c by { hide PointsOk, RunsOk, ReceiptsOk, SeenOk; }
    hide DataOk, Upserted, ManifestOf;
    CommitKeeps(env, s.(runs := Upserted(env, s.runs, c.token, run)), c);
  }

  /** The lookup never fails on a point of the mirror's history, and succeeds exactly when the run is complete. */
  lemma LookupKeeps(env: Env, s: System, c: Capture)
    requires DataOk(env, s) && c.token in s.points && s.points[c.token] == c
    ensures FindReceipt(env, s, c).Ok? && DataOk(env, FindReceipt(env, s, c).value.1)
    ensures FindReceipt(env, s, c).value.0 == if Complete(s, c.token) then Some(ReceiptOf(env, c, s.runs[c.token].head)) else None
    ensures FindReceipt(env, s, c).value.1.mirror == s.mirror
    ensures Complete(s, c.token) ==> c.token in FindReceipt(env, s, c).value.1.receipts
  {
    if c.token in s.receipts {
      assert Witnesses(env, s, c.token, s.receipts[c.token].receipt);
      assert RunOk(env, s, c.token);
    } else if Complete(s, c.token) {
      assert RunOk(env, s, c.token);
      CommitKeeps(env, s, c);
    }
  }

  lemma LookupAny(env: Env, s: System, c: Capture)
    requires DataOk(env, s)
    ensures FindReceipt(env, s, c).Ok? ==> DataOk(env, FindReceipt(env, s, c).value.1)
    ensures FindReceipt(env, s, c).Ok? && FindReceipt(env, s, c).value.0.Some? ==> c.token in s.points && s.points[c.token] == c
  {
    if c.token in s.points && s.points[c.token] == c {
      LookupKeeps(env, s, c);
    } else if c.token in s.receipts {
      assert Witnesses(env, s, c.token, s.receipts[c.token].receipt) && RunOk(env, s, c.token);
    } else if Complete(s, c.token) {
      assert RunOk(env, s, c.token);
    }
  }

  /** A receipt that witnesses the mirror's own point can be acknowledged. */
  lemma AckKeeps(env: Env, s: System, c: Capture, receipt: Receipt)
    requires DataOk(env, s) && PhaseOk(env, s, Receipted(c, receipt))
    ensures Acked(s, c, receipt).Ok? <==> s.mirror.Some? && s.mirror.value.capture == c
    ensures Acked(s, c, receipt).Ok? ==>
      DataOk(env, Acked(s, c, receipt).value) && Acked(s, c, receipt).value.mirror == Some(Point(c, true, Some(receipt)))
  {
    hide PointsOk, RunsOk, ReceiptsOk, SeenOk, ReceiptOf;
    if s.mirror.Some? && s.mirror.value.capture == c {
      var u := Acked(s, c, receipt).value;
      assert RunsKept(s, u);
      PointsKept(env, s, u);
      WitnessesKept(env, s, u);
      RunsStay(env, s, u);
      WitnessKept(env, s, u, c.token, receipt);
    }
  }

  lemma RecoverKeeps(env: Env, s: System, c: Capture, token: string, policy: string)
    requires DataOk(env, s) && !Complete(s, c.token)
    ensures var r := Recovering(env, s, c, token, policy);
            r.Ok? ==> DataOk(env, r.value.1) && Open(r.value.1, r.value.0)
  {
    var r := Recovering(env, s, c, token, policy);
    if r.Ok? {
      assert PointOk(env, s, c.token);
      assert PointOk(env, r.value.1, token);
      assert token in s.runs ==> RunOk(env, s, token);
      PointAdded(env, s, r.value.1, r.value.0);
    }
  }

  /** The provenance of a point is genuine, and none of it ever completed. */
  lemma {:induction false} AncestorsKnown(env: Env, s: System, c: Capture)
    requires DataOk(env, s) && c.token in s.points && s.points[c.token] == c
    ensures Ancestors(env, c).Ok?
    ensures forall a :: a in Ancestors(env, c).value ==> a.token in s.superseded && s.points[a.token] == a && a.parent == c.parent
    decreases c
  {
    assert PointOk(env, s, c.token);
    if c.context.recovery.Some? {
      var a := c.context.recovery.value.capture;
      assert PointOk(env, s, a.token);
      AncestorsKnown(env, s, a);
    }
  }

  /** Closing runs leaves complete ones as they are, and completes none. */
  lemma {:induction false} RetiredKeeps(env: Env, s: System, ancestors: seq<Capture>, detail: string)
    requires Retired(env, s.runs, ancestors, detail).Ok?
    ensures var t := s.(runs := Retired(env, s.runs, ancestors, detail).value);
            RunsKept(s, t) && forall k :: Complete(t, k) ==> Complete(s, k)
    decreases |ancestors|
  {
    if ancestors != [] {
      var a := ancestors[0];
      if a.token !in s.runs || s.runs[a.token].head.status == Finished {
        RetiredKeeps(env, s, ancestors[1..], detail);
      } else {
        RetiredKeeps(env, s.(runs := Upserted(env, s.runs, a.token, s.runs[a.token].head.(status := Failed, detail := detail))), ancestors[1..], detail);
      }
    }
  }

  lemma RetireOne(env: Env, s: System, a: Capture, detail: string)
    requires Injective(env.digest) && DataOk(env, s) && a.token in s.superseded && s.points[a.token] == a
    requires a.token in s.runs && s.runs[a.token].head.status != Finished
    ensures var run := s.runs[a.token].head;
            && run.source == env.source && run.scope == env.scope && (run.manifest.Some? ==> run.manifest.value.binding == Binding(env, a))
            && DataOk(env, s.(runs := Upserted(env, s.runs, a.token, run.(status := Failed, detail := detail))))
  {
    assert RunOk(env, s, a.token);
    hide RunsOk, PointsOk, ReceiptsOk, SeenOk, Injective, RecordOk;
    RunChanged(env, s, a, s.runs[a.token].head.(status := Failed, detail := detail));
  }

  lemma {:induction false} RetireKeeps(env: Env, s: System, ancestors: seq<Capture>, detail: string)
    requires Injective(env.digest) && DataOk(env, s)
    requires forall a :: a in ancestors ==> a.token in s.superseded && s.points[a.token] == a
    ensures Retired(env, s.runs, ancestors, detail).Ok?
    ensures DataOk(env, s.(runs := Retired(env, s.runs, ancestors, detail).value))
    decreases |ancestors|
  {
    if ancestors != [] {
      var a := ancestors[0];
      var rest := ancestors[1..];
      assert a in ancestors && forall x :: x in rest ==> x in ancestors;
      if a.token !in s.runs || s.runs[a.token].head.status == Finished {
        RetireKeeps(env, s, rest, detail);
      } else {
        var run := s.runs[a.token].head.(status := Failed, detail := detail);
        RetireOne(env, s, a, detail);
        hide DataOk, ManifestOf, Binding, Injective, Upserted;
        var t := s.(runs := Upserted(env, s.runs, a.token, run));
        RetireKeeps(env, t, rest, detail);
        assert t.(runs := Retired(env, t.runs, rest, detail).value) == s.(runs := Retired(env, s.runs, ancestors, detail).value);
      }
    }
  }

  /** Capture `c` took the place of `a`, directly or through further recoveries. */
  ghost predicate Supersedes(c: Capture, a: Capture)
    decreases c
  {
    match c.context.recovery
    case None => false
    case Some(r) => a == r.capture || Supersedes(r.capture, a)
  }

  lemma {:induction false} AncestorsAre(env: Env, c: Capture)
    requires Ancestors(env, c).Ok?
    ensures forall a :: a in Ancestors(env, c).value <==> Supersedes(c, a)
    decreases c
  {
    match c.context.recovery
    case None =>
    case Some(r) => AncestorsAre(env, r.capture);
  }

  /** What closing the runs of these captures leaves of one run. */
  function Closed(run: Run, attempt: bool, detail: string): Run {
    if attempt && run.status != Finished then run.(status := Failed, detail := detail) else run
  }

  lemma UpsertedHead(env: Env, runs: map<string, RunRecord>, token: string, run: Run)
    requires Injective(env.digest) && token in runs
    ensures var r := Upserted(env, runs, token, run);
            r.Keys == runs.Keys && r[token].head == run && forall t :: t in runs && t != token ==> r[t] == runs[t]
  {
  }

  lemma {:induction false} RetiredCloses(env: Env, runs: map<string, RunRecord>, ancestors: seq<Capture>, detail: string)
    requires Injective(env.digest) && Retired(env, runs, ancestors, detail).Ok?
    ensures var r := Retired(env, runs, ancestors, detail).value;
            && r.Keys == runs.Keys
            && forall t :: t in runs ==> r[t].head == Closed(runs[t].head, exists a :: a in ancestors && a.token == t, detail)
    decreases |ancestors|
  {
    if ancestors != [] {
      var a, rest := ancestors[0], ancestors[1..];
      assert forall x :: x in ancestors <==> x == a || x in rest;
      if a.token !in runs || runs[a.token].head.status == Finished {
        RetiredCloses(env, runs, rest, detail);
      } else {
        var run := runs[a.token].head.(status := Failed, detail := detail);
        UpsertedHead(env, runs, a.token, run);
        hide Upserted, Injective;
        RetiredCloses(env, Upserted(env, runs, a.token, run), rest, detail);
      }
    }
  }

  /** Retiring closes exactly the unfinished runs of the attempts that the point took the place of, as failed. */
  lemma RetireCloses(env: Env, s: System, c: Capture, detail: string)
    requires Injective(env.digest) && RetireAll(env, s, c, detail).Ok?
    ensures var t := RetireAll(env, s, c, detail).value;
            && t == s.(runs := t.runs) && t.runs.Keys == s.runs.Keys
            && forall k :: k in s.runs ==> t.runs[k].head == Closed(s.runs[k].head, exists a :: Supersedes(c, a) && a.token == k, detail)
  {
    AncestorsAre(env, c);
    RetiredCloses(env, s.runs, Ancestors(env, c).value, detail);
    hide Ancestors, Retired;
  }

  lemma RestoreKeeps(env: Env, s: System, kept: set<string>)
    requires Inv(env, s)
    ensures Inv(env, Step(env, s, Action(0, Restore(kept))))
  {
    var t := Step(env, s, Action(0, Restore(kept)));
    assert t.receipts.Keys + t.lost >= s.receipts.Keys + s.lost;
    hide DataOk, PhaseOk;
    DataRestored(env, s, t);
    if s.lock.Some? { PhaseRestored(env, s, t, s.lock.value.phase); }
  }

  /** The same points and runs, and every receipt row that is gone is known to be lost. */
  ghost predicate RowsLost(s: System, t: System) {
    && t == s.(receipts := t.receipts, lost := t.lost) && s.receipts.Keys + s.lost <= t.receipts.Keys + t.lost
    && (forall k :: k in t.receipts ==> k in s.receipts && t.receipts[k] == s.receipts[k])
  }

  lemma DataRestored(env: Env, s: System, t: System)
    requires DataOk(env, s) && RowsLost(s, t)
    ensures DataOk(env, t)
  {
    hide PointsOk, RunsOk, ReceiptsOk, SeenOk, ReceiptOf;
    PointsKept(env, s, t);
    WitnessesKept(env, s, t);
    MirrorKept(env, s, t);
    RunsStay(env, s, t);
    ReceiptsDropped(env, s, t);
  }

  lemma PhaseRestored(env: Env, s: System, t: System, phase: Phase)
    requires PhaseOk(env, s, phase) && RowsLost(s, t)
    ensures PhaseOk(env, t, phase)
  {
    hide ReceiptOf;
    if phase.Receipted? { assert phase.capture.token in s.receipts.Keys + s.lost; }
  }

  lemma ReceiptsDropped(env: Env, s: System, t: System)
    requires ReceiptsOk(env, s) && t.points == s.points && t.runs == s.runs
    requires forall k :: k in t.receipts ==> k in s.receipts && t.receipts[k] == s.receipts[k]
    ensures ReceiptsOk(env, t)
  {
    hide ReceiptOf, Binding;
    forall k | k in t.receipts ensures Witnesses(env, t, k, t.receipts[k].receipt) { assert Witnesses(env, s, k, s.receipts[k].receipt); }
  }

  lemma Unlocked(env: Env, s: System, t: System)
    requires DataOk(env, s) && t == s.(lock := t.lock)
    ensures DataOk(env, t)
  {
    forall k | k in t.points ensures PointOk(env, t, k) { assert PointOk(env, s, k); }
    forall k | k in t.runs ensures RunOk(env, t, k) { assert RunOk(env, s, k); }
    assert RunsKept(s, t);
    WitnessesKept(env, s, t);
    MirrorKept(env, s, t);
  }

  /** What a lookup finds is what the process may rely on from then on. */
  lemma LookupAnswers(env: Env, s: System, c: Capture)
    requires DataOk(env, s) && FindReceipt(env, s, c).Ok?
    ensures var (found, t) := FindReceipt(env, s, c).value;
            DataOk(env, t) && PhaseOk(env, t, if found.Some? then Receipted(c, found.value) else Unreceipted(c))
  {
    LookupAny(env, s, c);
    LookupLeavesMirror(env, s, c);
    var (found, t) := FindReceipt(env, s, c).value;
    if found.Some? {
      hide DataOk, FindReceipt, ReceiptOf;
      LookupKeeps(env, s, c);
    } else {
      hide DataOk, ReceiptOf, CommitReceipt, Binding, ManifestOf;
    }
  }

  /** A lookup leaves its answer in the process's memory. */
  lemma LookupMoves(env: Env, s: System, who: nat, c: Capture)
    requires DataOk(env, s)
    ensures Inv(env, LookedUp(env, s, who, c)) && LookedUp(env, s, who, c).mirror == s.mirror
  {
    LookupLeavesMirror(env, s, c);
    hide DataOk, FindReceipt;
    if FindReceipt(env, s, c).Ok? {
      LookupAnswers(env, s, c);
      Unlocked(env, FindReceipt(env, s, c).value.1, LookedUp(env, s, who, c));
    } else {
      Unlocked(env, s, Released(s));
    }
  }

  lemma LookupLeavesMirror(env: Env, s: System, c: Capture)
    ensures FindReceipt(env, s, c).Ok? ==>
              var t := FindReceipt(env, s, c).value.1; t.mirror == s.mirror && t.runs == s.runs && t.points == s.points
  {
    hide Binding, ManifestOf, ReceiptOf;
  }

  /** Every step of the holder of the lock keeps the databases and leaves it where its next step may rely on them. */
  lemma ActKeeps(env: Env, s: System, who: nat, phase: Phase, e: Event)
    requires Injective(env.digest) && DataOk(env, s) && PhaseOk(env, s, phase) && s.lock == Some(Holder(who, phase))
    ensures Inv(env, Act(env, s, who, phase, e))
  {
    hide DataOk, Injective, RetireAll, Saved, FindReceipt, LookedUp, Recovering, Acked, ParentOk, MayCapture, MayPublish, Published, Witnesses;
    Unlocked(env, s, Released(s));
    match phase
    case Entered =>
      if e.Publish? { if MayPublish(env, s, e.capture) { PublishMoves(env, s, e.capture); } }
      if e.Lookup? { LookupMoves(env, s, who, e.capture); }
    case Unreceipted(c) =>
      if e.Validate? { ValidateMoves(env, s, who, c, e.policy); }
      if e.Recover? {
        RecoverKeeps(env, s, c, e.token, e.policy);
        var r := Recovering(env, s, c, e.token, e.policy);
        if r.Ok? { Unlocked(env, r.value.1, Moved(r.value.1, who, Unreceipted(r.value.0))); }
      }
    case Receipted(c, receipt) =>
      if e.Acknowledge? {
        AckKeeps(env, s, c, receipt);
        if Acked(s, c, receipt).Ok? { Unlocked(env, Acked(s, c, receipt).value, Released(Acked(s, c, receipt).value)); }
      }
    case Validated(c) =>
      if e.Retire? {
        RetiresKeep(env, s, c, e.detail);
        Unlocked(env, RetireAll(env, s, c, e.detail).value, Moved(RetireAll(env, s, c, e.detail).value, who, Cleared(c)));
      }
    case Cleared(c) => if e.CheckParent? { Unlocked(env, s, Moved(s, who, Parented(c))); }
    case Parented(c) => if e.Save? { SaveMoves(env, s, who, c, e, Opened(c)); }
    case Opened(c) => if e.Save? { SaveMoves(env, s, who, c, e, Completed(c)); }
    case Completed(c) => if e == Lookup(c) { LookupMoves(env, s, who, c); }
  }

  lemma PublishMoves(env: Env, s: System, c: Capture)
    requires DataOk(env, s) && MayPublish(env, s, c)
    ensures DataOk(env, Published(s, c)) && Published(s, c).lock == s.lock
  {
    PublishKeeps(env, s, c);
  }

  lemma ValidateMoves(env: Env, s: System, who: nat, c: Capture, policy: string)
    requires DataOk(env, s) && !Complete(s, c.token)
    ensures DataOk(env, Moved(s, who, Validated(c))) && (MayCapture(env, s, c, policy) ==> Open(s, c))
  {
    Unlocked(env, s, Moved(s, who, Validated(c)));
  }

  lemma SaveMoves(env: Env, s: System, who: nat, c: Capture, e: Event, next: Phase)
    requires Injective(env.digest) && DataOk(env, s) && Open(s, c) && e.Save?
    ensures var r := Saved(env, s, c, e.status, e.policy, e.covered, e.detail);
            && (e.status != Finished ==> r.Ok?)
            && (r.Ok? ==> DataOk(env, Moved(r.value, who, next)) && DataOk(env, Released(r.value)))
            && (r.Ok? && e.status != Finished ==> Open(r.value, c))
            && (r.Ok? && e.status == Finished ==> PendingPoint(r.value.mirror) == Some(c) && Complete(r.value, c.token))
  {
    SaveKeeps(env, s, c, e.status, e.policy, e.covered, e.detail);
    var r := Saved(env, s, c, e.status, e.policy, e.covered, e.detail);
    if r.Ok? {
      Unlocked(env, r.value, Moved(r.value, who, next));
      Unlocked(env, r.value, Released(r.value));
    }
  }

  /** Closing the attempts that a pending point supersedes leaves the point itself alone. */
  lemma RetiresKeep(env: Env, s: System, c: Capture, detail: string)
    requires Injective(env.digest) && DataOk(env, s) && Open(s, c)
    ensures var r := RetireAll(env, s, c, detail); r.Ok? && DataOk(env, r.value) && Open(r.value, c) && RunsKept(s, r.value) && r.value.mirror == s.mirror
  {
    assert MirrorOk(env, s);
    AncestorsKnown(env, s, c);
    RetireKeeps(env, s, Ancestors(env, c).value, detail);
    RetiredKeeps(env, s, Ancestors(env, c).value, detail);
    hide DataOk;
  }

  lemma StepKeeps(env: Env, s: System, a: Action)
    requires Injective(env.digest) && Inv(env, s)
    ensures Inv(env, Step(env, s, a))
  {
    hide DataOk, Act;
    match a.event
    case Restore(kept) => RestoreKeeps(env, s, kept);
    case Acquire => if s.lock.None? { Unlocked(env, s, Moved(s, a.who, Entered)); }
    case Crash => Unlocked(env, s, Released(s));
    case _ => if s.lock.Some? && s.lock.value.process == a.who { ActKeeps(env, s, a.who, s.lock.value.phase, a.event); }
  }

  // ---- Whole runs ----

  function From(env: Env, s: System, actions: seq<Action>): System {
    if actions == [] then s else Step(env, From(env, s, actions[..|actions| - 1]), actions[|actions| - 1])
  }

  function After(env: Env, actions: seq<Action>): System { From(env, Start(), actions) }

  lemma OneMore(env: Env, s: System, actions: seq<Action>, a: Action)
    ensures From(env, s, actions + [a]) == Step(env, From(env, s, actions), a)
  {
    assert (actions + [a])[..|actions|] == actions;
  }

  /** Every step of any processes in any order. */
  lemma {:induction false} RunKeeps(env: Env, actions: seq<Action>)
    requires Injective(env.digest)
    ensures Inv(env, After(env, actions))
    decreases |actions|
  {
    if actions != [] {
      RunKeeps(env, actions[..|actions| - 1]);
      StepKeeps(env, After(env, actions[..|actions| - 1]), actions[|actions| - 1]);
    }
  }

  ghost predicate NoRestore(actions: seq<Action>) {
    forall i :: 0 <= i < |actions| ==> !actions[i].event.Restore?
  }

  /** Only a restore loses receipt rows. */
  lemma ActLoses(env: Env, s: System, who: nat, phase: Phase, e: Event)
    ensures Act(env, s, who, phase, e).lost == s.lost
  {
    hide Upserted, Retired, Ancestors, ParentOk, MayCapture, Recovered, Binding, ManifestOf, ReceiptOf, MayPublish, FindReceipt, Saved, LookedUp;
    match phase
    case Entered => if e.Lookup? { LookupLoses(env, s, who, e.capture); }
    case Completed(c) => LookupLoses(env, s, who, c);
    case Parented(c) => if e.Save? { SaveLoses(env, s, c, e.status, e.policy, e.covered, e.detail); }
    case Opened(c) => if e.Save? { SaveLoses(env, s, c, e.status, e.policy, e.covered, e.detail); }
    case _ =>
  }

  lemma LookupLoses(env: Env, s: System, who: nat, c: Capture)
    ensures LookedUp(env, s, who, c).lost == s.lost
  {
    hide Binding, ManifestOf, ReceiptOf;
  }

  lemma SaveLoses(env: Env, s: System, c: Capture, status: Status, policy: string, covered: bool, detail: string)
    ensures status != Finished ==> Saved(env, s, c, status, policy, covered, detail).Ok?
    ensures Saved(env, s, c, status, policy, covered, detail).Ok? ==> Saved(env, s, c, status, policy, covered, detail).value.lost == s.lost
  {
    hide Upserted, ParentOk, MayCapture, Binding, ManifestOf, ReceiptOf;
  }

  lemma {:induction false} NothingLost(env: Env, actions: seq<Action>)
    requires NoRestore(actions)
    ensures After(env, actions).lost == {}
    decreases |actions|
  {
    if actions != [] {
      var front, a := actions[..|actions| - 1], actions[|actions| - 1];
      NothingLost(env, front);
      var s := After(env, front);
      hide Act;
      if s.lock.Some? { ActLoses(env, s, a.who, s.lock.value.phase, a.event); }
    }
  }

  /**
   In every reachable state an acknowledged point has a complete canonical run holding exactly its capture, and
   one receipt; the receipt row is there unless a restore dropped it.
   */
  lemma AcknowledgedIsCaptured(env: Env, actions: seq<Action>)
    requires Injective(env.digest)
    ensures var s := After(env, actions);
            s.mirror.Some? && s.mirror.value.acknowledged ==>
              var c := s.mirror.value.capture;
              && Complete(s, c.token) && s.runs[c.token].head.manifest == Some(ManifestOf(env, c))
              && s.mirror.value.receipt == Some(ReceiptOf(env, c, s.runs[c.token].head))
              && (c.token in s.receipts ==> Some(s.receipts[c.token].receipt) == s.mirror.value.receipt)
              && (NoRestore(actions) ==> c.token in s.receipts)
  {
    RunKeeps(env, actions);
    var s := After(env, actions);
    if s.mirror.Some? && s.mirror.value.acknowledged {
      var c := s.mirror.value.capture;
      assert RunOk(env, s, c.token);
      if c.token in s.receipts { assert Witnesses(env, s, c.token, s.receipts[c.token].receipt); }
      if NoRestore(actions) { NothingLost(env, actions); }
    }
  }

  /** At most one receipt is ever committed for a token. */
  lemma OneReceipt(env: Env, actions: seq<Action>, token: string, a: Receipt, b: Receipt)
    requires Injective(env.digest) && (token, a) in After(env, actions).seen && (token, b) in After(env, actions).seen
    ensures a == b
  {
    RunKeeps(env, actions);
    var s := After(env, actions);
    assert Witnesses(env, s, token, a) && Witnesses(env, s, token, b);
  }

  /** Every parent, up to the first capture, is canonically complete with the content its child names. */
  lemma ParentsComplete(env: Env, actions: seq<Action>, token: string)
    requires Injective(env.digest) && token in After(env, actions).points
    ensures var s := After(env, actions);
            s.points[token].parent.Some? ==>
              var p := s.points[token].parent.value;
              p in s.points && Complete(s, p) && s.runs[p].head.manifest == Some(ManifestOf(env, s.points[p])) && s.points[p].token == p
  {
    RunKeeps(env, actions);
    var s := After(env, actions);
    assert PointOk(env, s, token);
    if s.points[token].parent.Some? { assert RunOk(env, s, s.points[token].parent.value) && PointOk(env, s, s.points[token].parent.value); }
  }

  lemma ParentIsOk(env: Env, s: System, c: Capture)
    requires DataOk(env, s) && c.token in s.points && s.points[c.token] == c
    ensures ParentOk(env, s, c)
  {
    assert PointOk(env, s, c.token);
    if c.parent.Some? { assert RunOk(env, s, c.parent.value) && PointOk(env, s, c.parent.value); }
  }

  ghost predicate Continued(s: System, t: System, c: Capture) {
    || t.mirror == s.mirror
    || (t.mirror.Some? && t.mirror.value.capture == c && t.mirror.value.acknowledged && Complete(t, c.token))
    || (PendingPoint(t.mirror).Some?
        && var d := PendingPoint(t.mirror).value;
           d.parent == c.parent && d.cursor == c.cursor && d.context.recovery.Some? && d.context.recovery.value.capture == c)
  }

  /** What a step leaves alone: complete runs, and a pending point but for its own next state. */
  ghost predicate Leaves(s: System, t: System) {
    RunsKept(s, t) && (PendingPoint(s.mirror).Some? ==> Continued(s, t, PendingPoint(s.mirror).value))
  }

  lemma SameMirror(s: System, t: System)
    requires t.mirror == s.mirror && RunsKept(s, t)
    ensures Leaves(s, t)
  {
  }

  lemma ActLeaves(env: Env, s: System, who: nat, phase: Phase, e: Event)
    requires Injective(env.digest) && DataOk(env, s) && PhaseOk(env, s, phase) && s.lock == Some(Holder(who, phase))
    ensures Leaves(s, Act(env, s, who, phase, e))
  {
    hide DataOk, Injective, RetireAll, Saved, FindReceipt, LookedUp, ParentOk, Recovering, Acked, MayCapture, Leaves;
    SameMirror(s, s);
    SameMirror(s, Released(s));
    match phase
    case Entered =>
      if e.Lookup? { LookupLeaves(env, s, who, e.capture); }
      if e.Publish? { PublishLeaves(env, s, e.capture); }
    case Unreceipted(c) =>
      if e.Validate? { SameMirror(s, Moved(s, who, Validated(c))); }
      if e.Recover? { RecoverLeaves(env, s, who, c, e.token, e.policy); }
    case Receipted(c, receipt) => if e.Acknowledge? { AckLeaves(env, s, c, receipt); }
    case Validated(c) =>
      if e.Retire? {
        RetiresKeep(env, s, c, e.detail);
        SameMirror(s, Moved(RetireAll(env, s, c, e.detail).value, who, Cleared(c)));
      }
    case Cleared(c) => if e.CheckParent? { SameMirror(s, Moved(s, who, Parented(c))); }
    case Parented(c) => if e.Save? { SaveLeaves(env, s, who, c, e, Opened(c)); }
    case Opened(c) => if e.Save? { SaveLeaves(env, s, who, c, e, Completed(c)); }
    case Completed(c) => LookupLeaves(env, s, who, c);
  }

  lemma PublishLeaves(env: Env, s: System, c: Capture)
    ensures MayPublish(env, s, c) ==> Leaves(s, Published(s, c))
  {
  }

  lemma RecoverLeaves(env: Env, s: System, who: nat, c: Capture, token: string, policy: string)
    ensures var r := Recovering(env, s, c, token, policy);
            r.Ok? ==> Leaves(s, Moved(r.value.1, who, Unreceipted(r.value.0)))
  {
  }

  lemma AckLeaves(env: Env, s: System, c: Capture, receipt: Receipt)
    requires DataOk(env, s) && PhaseOk(env, s, Receipted(c, receipt))
    ensures Acked(s, c, receipt).Ok? ==> Leaves(s, Released(Acked(s, c, receipt).value))
  {
    AckKeeps(env, s, c, receipt);
    hide DataOk;
  }

  lemma SaveLeaves(env: Env, s: System, who: nat, c: Capture, e: Event, next: Phase)
    requires Injective(env.digest) && DataOk(env, s) && Open(s, c) && e.Save?
    ensures var r := Saved(env, s, c, e.status, e.policy, e.covered, e.detail);
            && (e.status != Finished ==> r.Ok?)
            && (r.Ok? ==> Leaves(s, Moved(r.value, who, next)) && Leaves(s, Released(r.value)))
  {
    SaveKeeps(env, s, c, e.status, e.policy, e.covered, e.detail);
    hide DataOk, Saved, Leaves, MayCapture, ParentOk, Injective;
    var r := Saved(env, s, c, e.status, e.policy, e.covered, e.detail);
    if r.Ok? {
      SameMirror(s, Moved(r.value, who, next));
      SameMirror(s, Released(r.value));
    }
  }

  lemma LookupLeaves(env: Env, s: System, who: nat, c: Capture)
    ensures Leaves(s, LookedUp(env, s, who, c))
    ensures LookedUp(env, s, who, c).mirror == s.mirror && LookedUp(env, s, who, c).runs == s.runs
  {
    LookupLeavesMirror(env, s, c);
    hide FindReceipt;
  }

  lemma StepLeaves(env: Env, s: System, a: Action)
    requires Injective(env.digest) && Inv(env, s)
    ensures Leaves(s, Step(env, s, a))
  {
    hide Act, Leaves;
    SameMirror(s, s);
    SameMirror(s, Moved(s, a.who, Entered));
    SameMirror(s, Released(s));
    if a.event.Restore? { SameMirror(s, Step(env, s, a)); }
    else if s.lock.Some? && s.lock.value.process == a.who { ActLeaves(env, s, a.who, s.lock.value.phase, a.event); }
  }

  /** No run that is complete ever changes again, whoever stores runs in whatever order. */
  lemma CompleteStays(env: Env, actions: seq<Action>, a: Action)
    requires Injective(env.digest)
    ensures RunsKept(After(env, actions), Step(env, After(env, actions), a))
  {
    RunKeeps(env, actions);
    hide Inv, Step, From;
    StepLeaves(env, After(env, actions), a);
  }

  /** A pending point stays, is acknowledged as complete, or is recovered in place with the same parent and source cut. */
  lemma PendingIsNeverDropped(env: Env, actions: seq<Action>, a: Action, c: Capture)
    requires Injective(env.digest) && PendingPoint(After(env, actions).mirror) == Some(c)
    ensures Continued(After(env, actions), Step(env, After(env, actions), a), c)
  {
    RunKeeps(env, actions);
    hide Inv, Step, From;
    StepLeaves(env, After(env, actions), a);
  }

  // ---- A crash loses nothing ----

  /** A process holds the lock in this phase, with `c` pending. */
  ghost predicate Stands(env: Env, s: System, who: nat, phase: Phase, c: Capture) {
    Inv(env, s) && s.lock == Some(Holder(who, phase)) && PendingPoint(s.mirror) == Some(c)
  }

  lemma PendingKnown(env: Env, s: System, c: Capture)
    requires DataOk(env, s) && PendingPoint(s.mirror) == Some(c)
    ensures c.token in s.points && s.points[c.token] == c && MayCapture(env, s, c, c.policyTag) && ParentOk(env, s, c)
  {
    assert PointOk(env, s, c.token);
    ParentIsOk(env, s, c);
  }

  lemma LookupStands(env: Env, s: System, who: nat, phase: Phase, c: Capture)
    requires Injective(env.digest) && Stands(env, s, who, phase, c) && (phase == Entered || phase == Completed(c))
    ensures var t := Step(env, s, Action(who, Lookup(c)));
            if Complete(s, c.token) then Stands(env, t, who, Receipted(c, ReceiptOf(env, c, s.runs[c.token].head)), c)
            else Stands(env, t, who, Unreceipted(c), c)
  {
    PendingKnown(env, s, c);
    LookupKeeps(env, s, c);
    StepKeeps(env, s, Action(who, Lookup(c)));
    hide Inv, DataOk, FindReceipt;
  }

  lemma AckStands(env: Env, s: System, who: nat, c: Capture, receipt: Receipt)
    requires Injective(env.digest) && Stands(env, s, who, Receipted(c, receipt), c)
    ensures Step(env, s, Action(who, Acknowledge)).mirror == Some(Point(c, true, Some(receipt)))
  {
    AckKeeps(env, s, c, receipt);
    hide Inv, DataOk;
  }

  /** From an empty lookup to the open run, and from there to the complete one. */
  lemma ValidateStands(env: Env, s: System, who: nat, c: Capture)
    requires Injective(env.digest) && Stands(env, s, who, Unreceipted(c), c)
    ensures Stands(env, Step(env, s, Action(who, Validate(c.policyTag))), who, Validated(c), c)
  {
    PendingKnown(env, s, c);
    StepKeeps(env, s, Action(who, Validate(c.policyTag)));
    hide Inv, DataOk;
  }

  lemma RetireStands(env: Env, s: System, who: nat, c: Capture, detail: string)
    requires Injective(env.digest) && Stands(env, s, who, Validated(c), c)
    ensures Stands(env, Step(env, s, Action(who, Retire(detail))), who, Cleared(c), c)
  {
    RetiresKeep(env, s, c, detail);
    StepKeeps(env, s, Action(who, Retire(detail)));
    hide Inv, DataOk, RetireAll;
  }

  lemma CheckStands(env: Env, s: System, who: nat, c: Capture)
    requires Injective(env.digest) && Stands(env, s, who, Cleared(c), c)
    ensures Stands(env, Step(env, s, Action(who, CheckParent)), who, Parented(c), c)
  {
    PendingKnown(env, s, c);
    StepKeeps(env, s, Action(who, CheckParent));
    hide Inv, DataOk, ParentOk;
  }

  lemma OpenStands(env: Env, s: System, who: nat, c: Capture, policy: string, covered: bool, detail: string)
    requires Injective(env.digest) && Stands(env, s, who, Parented(c), c)
    ensures Stands(env, Step(env, s, Action(who, Save(Running, policy, covered, detail))), who, Opened(c), c)
  {
    hide DataOk, Saved, ParentOk, MayCapture, Injective, RetireAll, LookedUp, Acked, Recovering, Published, MayPublish;
    SaveKeeps(env, s, c, Running, policy, covered, detail);
    StepKeeps(env, s, Action(who, Save(Running, policy, covered, detail)));
    hide Inv;
  }

  lemma FinishStands(env: Env, s: System, who: nat, c: Capture, detail: string)
    requires Injective(env.digest) && Stands(env, s, who, Opened(c), c)
    ensures var t := Step(env, s, Action(who, Save(Finished, c.policyTag, true, detail)));
            Stands(env, t, who, Completed(c), c) && Complete(t, c.token)
  {
    hide DataOk, Saved, ParentOk, MayCapture, Injective, RetireAll, LookedUp, Acked, Recovering, Published, MayPublish;
    PendingKnown(env, s, c);
    SaveKeeps(env, s, c, Finished, c.policyTag, true, detail);
    StepKeeps(env, s, Action(who, Save(Finished, c.policyTag, true, detail)));
    hide Inv;
  }

  /** A complete status is refused under another policy, or if the coverage attempt cannot finish. */
  lemma FinishRefused(env: Env, s: System, who: nat, c: Capture, policy: string, covered: bool, detail: string)
    requires Stands(env, s, who, Opened(c), c) && !(covered && policy == c.policyTag)
    ensures Step(env, s, Action(who, Save(Finished, policy, covered, detail))) == Released(s)
  {
    hide Inv, ParentOk;
  }

  // ---- What a process finds at the mirror's own point ----

  /** It knows the outcome of the lookup, from any state that the protocol reaches. */
  lemma LookupFinds(env: Env, s: System, who: nat, phase: Phase, c: Capture)
    requires Inv(env, s) && s.lock == Some(Holder(who, phase)) && (phase == Entered || phase == Completed(c))
    requires s.mirror.Some? && s.mirror.value.capture == c
    ensures var t := Step(env, s, Action(who, Lookup(c)));
            && t.mirror == s.mirror
            && t.lock == Some(Holder(who, if Complete(s, c.token) then Receipted(c, ReceiptOf(env, c, s.runs[c.token].head))
                                          else Unreceipted(c)))
  {
    LookupKeeps(env, s, c);
    hide FindReceipt, PointsOk, RunsOk, ReceiptsOk, SeenOk, SupersededOk;
  }

  lemma AckExactly(env: Env, s: System, who: nat, c: Capture, receipt: Receipt)
    requires Inv(env, s) && s.lock == Some(Holder(who, Receipted(c, receipt)))
    ensures Acked(s, c, receipt).Ok? <==> s.mirror.Some? && s.mirror.value.capture == c
  {
    AckKeeps(env, s, c, receipt);
    hide DataOk, Acked;
  }

  lemma StandsIs(env: Env, s: System, who: nat, phase: Phase, c: Capture)
    requires Stands(env, s, who, phase, c)
    ensures Inv(env, s) && s.lock == Some(Holder(who, phase)) && PendingPoint(s.mirror) == Some(c)
  {
  }

  /** The process may go on with a pending point that is not complete. */
  lemma PendingStands(env: Env, s: System, who: nat, phase: Phase, c: Capture)
    requires Inv(env, s) && s.lock == Some(Holder(who, phase)) && PendingPoint(s.mirror) == Some(c)
    ensures Stands(env, s, who, phase, c) && c.namespace == env.namespace
    ensures phase == Unreceipted(c) ==> !Complete(s, c.token)
  {
    PendingKnown(env, s, c);
    hide DataOk;
  }

  lemma ValidatedStands(env: Env, s: System, who: nat, c: Capture)
    requires Inv(env, s) && s.lock == Some(Holder(who, Validated(c)))
    ensures Stands(env, s, who, Validated(c), c)
  {
    hide DataOk;
  }

  /** The result of an attempt whose point is pending under the right policy. */
  function Reached(outcome: Status, covered: bool): Result<bool, MirrorError> {
    if outcome != Finished then Ok(false) else if covered then Ok(true) else Err(MirrorUnavailable)
  }

  lemma Entering(env: Env, s: System, who: nat, c: Capture)
    requires Injective(env.digest) && Inv(env, s) && PendingPoint(s.mirror) == Some(c)
    ensures var t := if s.lock.Some? then Step(env, s, Action(s.lock.value.process, Crash)) else s;
            var u := Step(env, t, Action(who, Acquire));
            Stands(env, u, who, Entered, c) && u.runs == s.runs
  {
    var t := if s.lock.Some? then Step(env, s, Action(s.lock.value.process, Crash)) else s;
    if s.lock.Some? { StepKeeps(env, s, Action(s.lock.value.process, Crash)); }
    StepKeeps(env, t, Action(who, Acquire));
    hide Inv, DataOk;
  }

  lemma Grow(env: Env, s: System, plan: seq<Action>, a: Action) returns (more: seq<Action>)
    requires NoRestore(plan) && !a.event.Restore?
    ensures NoRestore(more) && From(env, s, more) == Step(env, From(env, s, plan), a)
  {
    more := plan + [a];
    OneMore(env, s, plan, a);
  }

  /** From a lookup of a complete capture to its acknowledgement. */
  lemma Acknowledging(env: Env, s: System, plan: seq<Action>, who: nat, phase: Phase, c: Capture) returns (more: seq<Action>)
    requires Injective(env.digest) && NoRestore(plan) && Stands(env, From(env, s, plan), who, phase, c)
    requires Complete(From(env, s, plan), c.token) && (phase == Entered || phase == Completed(c))
    ensures NoRestore(more) && From(env, s, more).mirror.Some?
    ensures From(env, s, more).mirror.value.acknowledged && From(env, s, more).mirror.value.capture == c
  {
    hide Stands, Step, NoRestore;
    LookupStands(env, From(env, s, plan), who, phase, c);
    var receipt := ReceiptOf(env, c, From(env, s, plan).runs[c.token].head);
    more := Grow(env, s, plan, Action(who, Lookup(c)));
    AckStands(env, From(env, s, more), who, c, receipt);
    more := Grow(env, s, more, Action(who, Acknowledge));
  }

  /** From an empty lookup to the complete run. */
  lemma Capturing(env: Env, s: System, plan: seq<Action>, who: nat, c: Capture, detail: string) returns (more: seq<Action>)
    requires Injective(env.digest) && NoRestore(plan) && Stands(env, From(env, s, plan), who, Unreceipted(c), c)
    ensures NoRestore(more) && Stands(env, From(env, s, more), who, Completed(c), c) && Complete(From(env, s, more), c.token)
  {
    hide Stands, Step, NoRestore;
    ValidateStands(env, From(env, s, plan), who, c);
    more := Grow(env, s, plan, Action(who, Validate(c.policyTag)));
    RetireStands(env, From(env, s, more), who, c, detail);
    more := Grow(env, s, more, Action(who, Retire(detail)));
    CheckStands(env, From(env, s, more), who, c);
    more := Grow(env, s, more, Action(who, CheckParent));
    OpenStands(env, From(env, s, more), who, c, c.policyTag, true, detail);
    more := Grow(env, s, more, Action(who, Save(Running, c.policyTag, true, detail)));
    FinishStands(env, From(env, s, more), who, c, detail);
    more := Grow(env, s, more, Action(who, Save(Finished, c.policyTag, true, detail)));
  }

  /**
   Wherever a crash strikes, the pending point can still be finished: once the holder of the lock is gone, there are
   steps of any process `who` that end in its acknowledgement.
   */
  lemma AlwaysResumable(env: Env, actions: seq<Action>, c: Capture, who: nat, detail: string) returns (plan: seq<Action>)
    requires Injective(env.digest) && PendingPoint(After(env, actions).mirror) == Some(c)
    ensures NoRestore(plan) && From(env, After(env, actions), plan).mirror.Some?
    ensures var p := From(env, After(env, actions), plan).mirror.value; p.acknowledged && p.capture == c
  {
    RunKeeps(env, actions);
    var s := After(env, actions);
    Entering(env, s, who, c);
    plan := [];
    if s.lock.Some? { plan := Grow(env, s, plan, Action(s.lock.value.process, Crash)); }
    plan := Grow(env, s, plan, Action(who, Acquire));
    hide Stands, Step, NoRestore, Inv;
    if Complete(From(env, s, plan), c.token) {
      plan := Acknowledging(env, s, plan, who, Entered, c);
    } else {
      LookupStands(env, From(env, s, plan), who, Entered, c);
      plan := Grow(env, s, plan, Action(who, Lookup(c)));
      plan := Capturing(env, s, plan, who, c, detail);
      plan := Acknowledging(env, s, plan, who, Completed(c), c);
    }
  }

  // ---- The collector's own order of steps ----

  /** One process; the fields other than `env` and `process` are the state that it shares with all others. */
  class Collector {
    const env: Env
    const process: nat
    var lock: Option<Holder>
    var mirror: Option<Point>
    var runs: map<string, RunRecord>
    var receipts: map<string, ReceiptRow>
    ghost var points: map<string, Capture>
    ghost var superseded: set<string>
    ghost var seen: set<(string, Receipt)>
    ghost var lost: set<string>

    ghost function Now(): System
      reads this
    {
      System(lock, mirror, runs, receipts, points, superseded, seen, lost)
    }

    /** The next step of this process. */
    ghost function Next(s: System, e: Event): System { Step(env, s, Action(process, e)) }

    ghost predicate Stays(phase: Phase)
      reads this
    {
      lock == Some(Holder(process, phase))
    }

    constructor (env: Env, process: nat)
      ensures this.env == env && this.process == process && Now() == Start()
    {
      this.env, this.process := env, process;
      lock, mirror, runs, receipts, points, superseded, seen, lost := None, None, map[], map[], map[], {}, {}, {};
    }

    method Enter()
      requires lock.None?
      modifies `lock
      ensures Now() == Next(old(Now()), Acquire) && Stays(Entered)
    {
      lock := Some(Holder(process, Entered));
    }

    method CommitReceiptRow(c: Capture, run: Run) returns (ok: bool)
      modifies `receipts, `seen
      ensures ok <==> CommitReceipt(env, old(Now()), c, run).Ok?
      ensures Now() == if ok then CommitReceipt(env, old(Now()), c, run).value else old(Now())
    {
      var receipt := ReceiptOf(env, c, run);
      if c.token in receipts && (receipts[c.token].binding, receipts[c.token].receipt) != (Binding(env, c), receipt) { return false; }
      if c.token !in receipts {
        receipts := receipts[c.token := ReceiptRow(Binding(env, c), env.source, env.scope, receipt)];
      }
      seen := seen + {(c.token, receipt)};
      return true;
    }

    method FindOrRebuild(c: Capture) returns (r: Result<Option<Receipt>, MirrorError>)
      modifies `receipts, `seen
      ensures r.Ok? <==> FindReceipt(env, old(Now()), c).Ok?
      ensures r.Ok? ==> (r.value, Now()) == FindReceipt(env, old(Now()), c).value
      ensures r.Err? ==> Now() == old(Now())
    {
      if c.token in receipts {
        var row := receipts[c.token];
        if (row.binding, row.source, row.scope) != (Binding(env, c), env.source, env.scope) { return Err(MirrorUnavailable); }
        if !(c.token in runs && row.receipt.digest in runs[c.token].revisions) { return Err(MirrorUnavailable); }
        var run := runs[c.token].revisions[row.receipt.digest];
        if run.status != Finished || run.manifest != Some(ManifestOf(env, c)) { return Err(MirrorUnavailable); }
        return Ok(Some(row.receipt));
      }
      if !(c.token in runs && runs[c.token].head.status == Finished) { return Ok(None); }
      var run := runs[c.token].head;
      if (run.source, run.scope, run.manifest) != (env.source, env.scope, Some(ManifestOf(env, c))) { return Err(MirrorUnavailable); }
      var ok := CommitReceiptRow(c, run);
      if !ok { return Err(MirrorUnavailable); }
      return Ok(Some(ReceiptOf(env, c, run)));
    }

    method LookupReceipt(c: Capture) returns (r: Result<Option<Receipt>, MirrorError>)
      requires Stays(Entered) || Stays(Completed(c))
      modifies `lock, `receipts, `seen
      ensures Now() == Next(old(Now()), Lookup(c))
      ensures r == Ok(None) ==> Stays(Unreceipted(c))
      ensures r.Ok? && r.value.Some? ==> Stays(Receipted(c, r.value.value))
      ensures r.Err? ==> lock.None?
    {
      r := FindOrRebuild(c);
      hide FindReceipt;
      match r {
        case Err(_) => lock := None;
        case Ok(None) => lock := Some(Holder(process, Unreceipted(c)));
        case Ok(Some(receipt)) => lock := Some(Holder(process, Receipted(c, receipt)));
      }
    }

    /** `validate`; a refusal leads to policy recovery. */
    method ValidateCapture(c: Capture, policy: string) returns (ok: bool)
      requires Stays(Unreceipted(c))
      modifies `lock
      ensures Now() == Next(old(Now()), Validate(policy))
      ensures Stays(if ok then Validated(c) else Unreceipted(c)) && (ok <==> MayCapture(env, old(Now()), c, policy))
    {
      ok := PendingPoint(mirror) == Some(c) && c.namespace == env.namespace && c.policyTag == policy;
      if ok { lock := Some(Holder(process, Validated(c))); }
    }

    /** The transaction of `save_run`: the run as it stands now, stored over the run stored before. */
    method StoreRun(c: Capture, status: Status, policy: string, covered: bool, detail: string) returns (ok: bool)
      modifies `runs, `receipts, `seen
      ensures var r := Saved(env, old(Now()), c, status, policy, covered, detail);
              (ok <==> r.Ok?) && Now() == if ok then r.value else old(Now())
    {
      if status == Finished && !(PendingPoint(mirror) == Some(c) && c.namespace == env.namespace && c.policyTag == policy
                                 && ParentOk(env, System(lock, mirror, runs, receipts, map[], {}, {}, {}), c) && covered) {
        return false;
      }
      hide Upserted;
      var before := runs;
      var run := Run(status, env.source, env.scope, if status == Running then None else Some(ManifestOf(env, c)), detail);
      runs := Upserted(env, runs, c.token, run);
      ok := true;
      if status == Finished {
        ok := CommitReceiptRow(c, run);
        if !ok { runs := before; }
      }
    }

    /** `save_run`, at the two places where this process calls it. */
    method SaveRun(c: Capture, status: Status, policy: string, covered: bool, detail: string) returns (ok: bool)
      requires if status == Running then Stays(Parented(c)) else Stays(Opened(c))
      modifies `lock, `runs, `receipts, `seen
      ensures Now() == Next(old(Now()), Save(status, policy, covered, detail)) && mirror == old(mirror)
      ensures (status != Finished ==> ok) && (status == Running ==> Stays(Opened(c)))
      ensures status == Finished && ok ==> Stays(Completed(c))
      ensures status == Failed || status == Partial || !ok ==> lock.None?
    {
      ok := StoreRun(c, status, policy, covered, detail);
      assert status != Finished ==> ok;
      hide Saved;
      lock := if !ok then None else if status == Running then Some(Holder(process, Opened(c)))
              else if status == Finished then Some(Holder(process, Completed(c))) else None;
    }

    method CheckParentRun(c: Capture) returns (ok: bool)
      requires Stays(Cleared(c))
      modifies `lock
      ensures Now() == Next(old(Now()), CheckParent)
      ensures if ok then Stays(Parented(c)) else lock.None?
    {
      ok := ParentOk(env, System(lock, mirror, runs, receipts, map[], {}, {}, {}), c);
      lock := if ok then Some(Holder(process, Parented(c))) else None;
    }

    method AcknowledgeMirror(c: Capture, receipt: Receipt) returns (ok: bool)
      requires Stays(Receipted(c, receipt))
      modifies `lock, `mirror
      ensures Now() == Next(old(Now()), Event.Acknowledge) && lock.None?
      ensures ok <==> Acked(old(Now()), c, receipt).Ok?
      ensures ok ==> old(mirror).Some? && old(mirror).value.capture.token == c.token
      ensures mirror == if ok then Some(Point(old(mirror).value.capture, true, Some(receipt))) else old(mirror)
    {
      lock := None;
      if mirror.None? || mirror.value.capture.token != c.token { return false; }
      if mirror.value.acknowledged && mirror.value.receipt != Some(receipt) { return false; }
      mirror := Some(Point(mirror.value.capture, true, Some(receipt)));
      return true;
    }

    method RecoverPolicy(c: Capture, token: string, policy: string) returns (r: Result<Capture, MirrorError>)
      requires Stays(Unreceipted(c)) && token !in points
      modifies `lock, `mirror, `points, `superseded
      ensures Now() == Next(old(Now()), Recover(token, policy))
      ensures r.Ok? ==> r.value == Recovered(c, token, policy, env.fileName, Binding(env, c)) && PendingPoint(mirror) == Some(r.value)
      ensures if r.Ok? then Stays(Unreceipted(r.value)) else lock.None? && mirror == old(mirror)
      ensures r.Ok? <==> PendingPoint(old(mirror)) == Some(c) && c.namespace == env.namespace && policy != "" && policy != c.policyTag
    {
      if PendingPoint(mirror) != Some(c) || c.namespace != env.namespace || policy == "" || policy == c.policyTag {
        lock := None;
        return Err(MirrorUnavailable);
      }
      var next := Recovered(c, token, policy, env.fileName, Binding(env, c));
      mirror := Some(Point(next, false, None));
      points, superseded := points[token := next], superseded + {c.token};
      lock := Some(Holder(process, Unreceipted(next)));
      return Ok(next);
    }

    /** Closes the runs of the attempts that this point supersedes, one by one. */
    method RetireAttempts(c: Capture, detail: string) returns (ok: bool)
      requires Stays(Validated(c))
      modifies `lock, `runs
      ensures Now() == Next(old(Now()), Retire(detail))
      ensures if ok then Stays(Cleared(c)) else lock.None?
    {
      var ancestors := Ancestors(env, c);
      var closed := Err(MirrorUnavailable);
      if ancestors.Ok? { closed := CloseRuns(ancestors.value, detail); }
      hide Ancestors, Retired;
      if closed.Err? {
        lock := None;
        return false;
      }
      runs := closed.value;
      lock := Some(Holder(process, Cleared(c)));
      return true;
    }

    method CloseRuns(ancestors: seq<Capture>, detail: string) returns (r: Result<map<string, RunRecord>, MirrorError>)
      ensures r == Retired(env, runs, ancestors, detail)
    {
      var result := runs;
      var i := 0;
      assert ancestors[0..] == ancestors;
      while i < |ancestors|
        invariant 0 <= i <= |ancestors|
        invariant Retired(env, result, ancestors[i..], detail) == Retired(env, runs, ancestors, detail)
      {
        var a := ancestors[i];
        assert ancestors[i..][1..] == ancestors[i + 1..];
        if a.token in result && result[a.token].head.status != Finished {
          var run := result[a.token].head;
          if run.source != env.source || run.scope != env.scope || (run.manifest.Some? && run.manifest.value.binding != Binding(env, a)) {
            return Err(MirrorUnavailable);
          }
          result := Upserted(env, result, a.token, run.(status := Failed, detail := detail));
        }
        i := i + 1;
      }
      assert ancestors[i..] == [];
      return Ok(result);
    }

    ghost method Extend(s: System, actions: seq<Action>, e: Event) returns (more: seq<Action>)
      requires Injective(env.digest) && Inv(env, From(env, s, actions)) && Now() == Next(From(env, s, actions), e)
      ensures more == actions + [Action(process, e)] && Now() == From(env, s, more) && Inv(env, Now())
    {
      more := actions + [Action(process, e)];
      OneMore(env, s, actions, Action(process, e));
      StepKeeps(env, From(env, s, actions), Action(process, e));
    }

    /** Looks a capture up and acknowledges the mirror's point with the receipt found. */
    method AcknowledgeIfCaptured(c: Capture) returns (r: Result<bool, MirrorError>, ghost actions: seq<Action>)
      requires Injective(env.digest) && Inv(env, Now()) && (Stays(Entered) || Stays(Completed(c)))
      modifies `lock, `mirror, `receipts, `seen
      ensures Now() == From(env, old(Now()), actions) && Inv(env, Now())
      ensures r == Ok(true) ==> mirror.Some? && mirror.value.acknowledged && mirror.value.capture == c && Complete(Now(), c.token)
      ensures if r == Ok(false) then Stays(Unreceipted(c)) else lock.None?
      ensures r == Ok(true) ==> old(mirror).Some? && old(mirror).value.capture == c
      ensures r != Ok(true) ==> mirror == old(mirror)
      ensures old(mirror).Some? && old(mirror).value.capture == c ==> r == Ok(Complete(old(Now()), c.token))
    {
      hide Inv, Step, Acked, ReceiptOf;
      ghost var s := Now();
      if mirror.Some? && mirror.value.capture == c { LookupFinds(env, s, process, s.lock.value.phase, c); }
      var found := LookupReceipt(c);
      actions := Extend(s, [], Lookup(c));
      if found.Err? { return Err(MirrorUnavailable), actions; }
      if found.value.None? { return Ok(false), actions; }
      Known(env, Now(), process, c, found.value.value);
      AckExactly(env, Now(), process, c, found.value.value);
      var acked := AcknowledgeMirror(c, found.value.value);
      actions := Extend(s, actions, Event.Acknowledge);
      if !acked { return Err(MirrorUnavailable), actions; }
      AckedIsComplete(env, Now(), c);
      return Ok(true), actions;
    }

    /** Closes superseded attempts, checks the parent and records the run as running: none of this can fail for a validated point. */
    method OpenRun(c: Capture, policy: string, covered: bool, detail: string) returns (ok: bool, ghost actions: seq<Action>)
      requires Injective(env.digest) && Inv(env, Now()) && Stays(Validated(c))
      modifies `lock, `runs, `receipts, `seen
      ensures Now() == From(env, old(Now()), actions) && Inv(env, Now())
      ensures ok && Stands(env, Now(), process, Opened(c), c) && mirror == old(mirror)
    {
      hide Inv, Step, Stands, Injective;
      ghost var s := Now();
      ValidatedStands(env, Now(), process, c);
      RetireStands(env, Now(), process, c, detail);
      ok := RetireAttempts(c, detail);
      StandsIs(env, Now(), process, Cleared(c), c);
      actions := Extend(s, [], Retire(detail));
      if !ok { return; }
      CheckStands(env, Now(), process, c);
      ok := CheckParentRun(c);
      StandsIs(env, Now(), process, Parented(c), c);
      actions := Extend(s, actions, CheckParent);
      if !ok { return; }
      OpenStands(env, Now(), process, c, policy, covered, detail);
      ok := SaveRun(c, Running, policy, covered, detail);
      actions := Extend(s, actions, Save(Running, policy, covered, detail));
    }

    /** Stores the final status of an open run; only a complete one can be refused. */
    method CloseRun(c: Capture, policy: string, outcome: Status, covered: bool, detail: string) returns (ok: bool, ghost actions: seq<Action>)
      requires Injective(env.digest) && Stands(env, Now(), process, Opened(c), c) && outcome != Running
      modifies `lock, `runs, `receipts, `seen
      ensures Now() == From(env, old(Now()), actions) && Inv(env, Now()) && mirror == old(mirror) && PendingPoint(mirror) == Some(c)
      ensures ok <==> (outcome == Finished ==> covered && policy == c.policyTag)
      ensures if outcome == Finished && ok then Stays(Completed(c)) && Complete(Now(), c.token) else lock.None?
    {
      hide Inv, Step, Stands, Injective;
      ghost var s := Now();
      StandsIs(env, s, process, Opened(c), c);
      if outcome == Finished {
        if covered && policy == c.policyTag { FinishStands(env, s, process, c, detail); }
        else { FinishRefused(env, s, process, c, policy, covered, detail); }
      }
      ok := SaveRun(c, outcome, policy, covered, detail);
      if outcome == Finished && covered && policy == c.policyTag { StandsIs(env, Now(), process, Completed(c), c); }
      actions := Extend(s, [], Save(outcome, policy, covered, detail));
    }

    /**
     One attempt to capture the pending point, after the lookup came back empty. A complete capture is acknowledged in the
     end, an incomplete one leaves the point pending.
     */
    method Attempt(c: Capture, policy: string, outcome: Status, covered: bool, detail: string)
      returns (r: Result<bool, MirrorError>, ghost actions: seq<Action>)
      requires Injective(env.digest) && Inv(env, Now()) && Stays(Validated(c)) && outcome != Running
      modifies `lock, `mirror, `runs, `receipts, `seen
      ensures Now() == From(env, old(Now()), actions) && Inv(env, Now())
      ensures r == Ok(true) ==> mirror.Some? && mirror.value.acknowledged && mirror.value.capture == c && Complete(Now(), c.token)
      ensures lock.None?
      ensures r == Reached(outcome, covered && policy == c.policyTag)
      ensures r != Ok(true) ==> PendingPoint(mirror) == Some(c)
    {
      hide Inv, Step, Stands, Injective;
      ghost var s := Now();
      var ok;
      ok, actions := OpenRun(c, policy, covered, detail);
      ghost var more;
      ok, more := CloseRun(c, policy, outcome, covered, detail);
      Joined(env, s, actions, more);
      actions := actions + more;
      if !ok { return Err(MirrorUnavailable), actions; }
      if outcome != Finished { return Ok(false), actions; }
      r, more := AcknowledgeIfCaptured(c);
      Joined(env, s, actions, more);
      actions := actions + more;
      // The lookup always finds the receipt that was stored with the run.
      assert r == Ok(true);
    }

    /** The point to capture: `first`, if it is valid under this policy, or else its recovery. */
    method Admit(first: Capture, policy: string, token: string) returns (r: Result<Capture, MirrorError>, ghost actions: seq<Action>)
      requires Injective(env.digest) && Inv(env, Now()) && Stays(Unreceipted(first)) && token !in points
      modifies `lock, `mirror, `points, `superseded
      ensures Now() == From(env, old(Now()), actions) && Inv(env, Now())
      ensures r.Ok? <==> PendingPoint(old(mirror)) == Some(first) && (policy == first.policyTag || policy != "")
      ensures if r.Ok? then Stays(Validated(r.value)) && PendingPoint(mirror) == Some(r.value) && r.value.policyTag == policy
              else lock.None? && mirror == old(mirror)
      ensures r.Ok? ==> r.value == if policy == first.policyTag then first
                                   else Recovered(first, token, policy, env.fileName, Binding(env, first))
    {
      hide Inv, Step, Binding, Injective;
      ghost var s := Now();
      if PendingPoint(mirror) == Some(first) { PendingStands(env, s, process, Unreceipted(first), first); }
      var valid := ValidateCapture(first, policy);
      actions := Extend(s, [], Validate(policy));
      if valid { return Ok(first), actions; }
      r := RecoverPolicy(first, token, policy);
      actions := Extend(s, actions, Recover(token, policy));
      if r.Err? { return; }
      valid := ValidateCapture(r.value, policy);
      actions := Extend(s, actions, Validate(policy));
      // A recovered point is always valid under the policy that it was recovered for.
      assert valid;
    }

    /**
     Everything done about the mirror's current point, under the capture lock. It is a sequence of single transactions,
     so a crash between any two of them leaves a reachable state; success means that the point, or its recovery, is
     acknowledged.
     */
    method RunPreparedSync(first: Capture, policy: string, token: string, outcome: Status, covered: bool, detail: string)
      returns (r: Result<bool, MirrorError>, ghost actions: seq<Action>)
      requires Injective(env.digest) && Inv(env, Now()) && token !in points && lock.None? && outcome != Running
      modifies this
      ensures Now() == From(env, old(Now()), actions) && Inv(env, Now())
      ensures r == Ok(true) ==>
        && mirror.Some? && mirror.value.acknowledged && Complete(Now(), mirror.value.capture.token)
        && (mirror.value.capture == first || mirror.value.capture == Recovered(first, token, policy, env.fileName, Binding(env, first)))
      ensures lock.None?
      // The outcome, exactly: it depends on the point that the mirror holds, its run, the policy and the capture's own success.
      ensures old(mirror).None? || old(mirror).value.capture != first ==> r.Err? && mirror == old(mirror)
      ensures old(mirror).Some? && old(mirror).value.capture == first && Complete(old(Now()), first.token) ==>
        r == Ok(true) && mirror.value.capture == first
      ensures PendingPoint(old(mirror)) == Some(first) && !Complete(old(Now()), first.token) ==>
        if policy == first.policyTag then
          r == Reached(outcome, covered) && (if r == Ok(true) then mirror.value.capture == first else PendingPoint(mirror) == Some(first))
        else if policy == "" then r.Err? && PendingPoint(mirror) == Some(first)
        else
          var next := Recovered(first, token, policy, env.fileName, Binding(env, first));
          r == Reached(outcome, covered) && (if r == Ok(true) then mirror.value.capture == next else PendingPoint(mirror) == Some(next))
    {
      hide Inv, Step, Binding, Injective, From, Recovered, Reached;
      ghost var s := Now();
      NoActions(env, s);
      Enter();
      actions := Extend(s, [], Acquire);
      ghost var more;
      r, more := AcknowledgeIfCaptured(first);
      Joined(env, s, actions, more);
      actions := actions + more;
      if r.Err? || r.value { return; }
      var admitted;
      admitted, more := Admit(first, policy, token);
      Joined(env, s, actions, more);
      actions := actions + more;
      if admitted.Err? { return Err(MirrorUnavailable), actions; }
      r, more := Attempt(admitted.value, policy, outcome, covered, detail);
      Joined(env, s, actions, more);
      actions := actions + more;
    }
  }

  /** The receipt that a process has found is of a known point. */
  lemma Known(env: Env, s: System, who: nat, c: Capture, receipt: Receipt)
    requires Inv(env, s) && s.lock == Some(Holder(who, Receipted(c, receipt)))
    ensures s.mirror.Some? && s.mirror.value.capture.token == c.token ==> s.mirror.value.capture == c
  {
    hide PointsOk, RunsOk;
  }

  lemma NoActions(env: Env, s: System)
    ensures From(env, s, []) == s
  {
  }

  lemma {:induction false} Joined(env: Env, s: System, a: seq<Action>, b: seq<Action>)
    ensures From(env, From(env, s, a), b) == From(env, s, a + b)
    decreases |b|
  {
    hide Step;
    if b == [] {
      assert a + b == a;
    } else {
      Joined(env, s, a, b[..|b| - 1]);
      assert (a + b)[..|a + b| - 1] == a + b[..|b| - 1];
    }
  }

  lemma AckedIsComplete(env: Env, s: System, c: Capture)
    requires Inv(env, s) && s.mirror.Some? && s.mirror.value.acknowledged && s.mirror.value.capture == c
    ensures Complete(s, c.token)
  {
  }
}
