/**
 Re-reading only the files that may have changed: stored `lstat` fingerprints, a racy window, and reads bracketed
 by fingerprints. Which file a path shows is arbitrary at every instant; what ties the ledger to the files is
 that the kernel stamps a file's `ctime` whenever it changes the file, and that device, inode and birth time name one file.
 */
module MediaLedger {
  import opened Wrappers

  const RACY_WINDOW := 2_000_000_000

  const REGULAR := 8  // S_IFREG, the top bits of the mode

  /** Device, inode and birth time name one file for good. */
  datatype FileId = FileId(dev: int, ino: int, birth: int)

  /** A file at one instant: what `lstat` shows of it, whether it may be read, and its bytes. */
  datatype File = File(mode: int, size: int, mtime: int, ctime: int, readable: bool, content: string)

  datatype Shown = Missing(errno: int) | Shows(id: FileId)

  /** What every path shows and what every file holds, at every instant, in nanoseconds of the scan clock. */
  datatype World = World(path: (string, int) -> Shown, file: (FileId, int) -> File)

  datatype Stat = Stat(dev: int, ino: int, mode: int, size: int, mtime: int, ctime: int, birth: int)

  function StatOf(id: FileId, f: File): Stat { Stat(id.dev, id.ino, f.mode, f.size, f.mtime, f.ctime, id.birth) }

  function IdOf(s: Stat): FileId { FileId(s.dev, s.ino, s.birth) }

  /** ENOENT, ENOTDIR, ELOOP, EACCES and EPERM are stable observations of absence. */
  predicate StablyAbsent(errno: int) { errno in {1, 2, 13, 20, 62} }

  datatype Fingerprint = Errno(errno: int) | Of(stat: Stat)

  function FingerprintAt(w: World, path: string, at: int): Fingerprint {
    match w.path(path, at)
    case Missing(errno) => Errno(errno)
    case Shows(id) => Of(StatOf(id, w.file(id, at)))
  }

  predicate Volatile(f: Fingerprint) { f.Errno? && !StablyAbsent(f.errno) }

  /** Too close to the scan to prove cleanliness. */
  predicate Recent(f: Fingerprint, started: int) {
    f.Of? && (if f.stat.mtime < f.stat.ctime then f.stat.ctime else f.stat.mtime) >= started - RACY_WINDOW
  }

  datatype Observation = Absent | Available(content: string)

  predicate Regular(mode: int) { mode / 0x1000 % 0x10 == REGULAR }

  function CaptureFile(f: File): Observation {
    if Regular(f.mode) && f.readable then Available(f.content) else Absent
  }

  function CaptureErrno(errno: int): Option<Observation> {
    if StablyAbsent(errno) then Some(Absent) else None
  }

  /** `capture_attachment`: retained bytes, a stable absence, or no observation at all. */
  function CaptureAt(w: World, path: string, at: int): Option<Observation> {
    match w.path(path, at)
    case Missing(errno) => CaptureErrno(errno)
    case Shows(id) => Some(CaptureFile(w.file(id, at)))
  }

  // ---- The kernel's rule ----

  /** Whenever a file changes, its new ctime is within the window of the change. */
  ghost predicate Kernel(w: World) {
    forall id, at :: w.file(id, at) != w.file(id, at - 1) ==> w.file(id, at).ctime >= at - RACY_WINDOW
  }

  ghost predicate Constant(w: World, id: FileId, s: int, t: int) {
    forall u :: s <= u <= t ==> w.file(id, u) == w.file(id, t)
  }

  /** A file whose ctime at `t` is older than `s` less the window has not changed since `s`. */
  lemma {:induction false} OldMeansConstant(w: World, id: FileId, s: int, t: int)
    requires Kernel(w) && s <= t && w.file(id, t).ctime < s - RACY_WINDOW
    ensures Constant(w, id, s, t)
    decreases t - s
  {
    if s < t {
      assert w.file(id, t) == w.file(id, t - 1);
      OldMeansConstant(w, id, s, t - 1);
    }
  }

  // ---- The ledger ----

  datatype Entry = Entry(path: string, fingerprint: Fingerprint, racy: bool)

  /** When an entry was made: poll start, fingerprint before, read, fingerprint after. */
  datatype Witness = Witness(started: int, before: int, read: int, after: int)

  /** The observation was read at an instant bracketed by the entry's fingerprint. */
  ghost predicate Bracketed(h: World, e: Entry, obs: Observation, w: Witness) {
    && w.started <= w.before && w.started <= w.read && w.started <= w.after && w.before <= w.read <= w.after
    && FingerprintAt(h, e.path, w.before) == e.fingerprint && FingerprintAt(h, e.path, w.after) == e.fingerprint
    && CaptureAt(h, e.path, w.read) == Some(obs) && e.racy == Recent(e.fingerprint, w.started)
  }

  /** The read met another file than the fingerprint names, or a file where the fingerprint says that there is none. */
  predicate Elsewhere(h: World, e: Entry, at: int) {
    match h.path(e.path, at)
    case Missing(_) => e.fingerprint.Of?
    case Shows(id) => e.fingerprint.Errno? || id != IdOf(e.fingerprint.stat)
  }

  /** What a read of the fingerprint's own subject gives at that instant. */
  function Subject(h: World, f: Fingerprint, at: int): Option<Observation> {
    match f
    case Errno(errno) => CaptureErrno(errno)
    case Of(stat) => Some(CaptureFile(h.file(IdOf(stat), at)))
  }

  /** The case that the ledger cannot tell: the fingerprint's own subject would have given another observation. */
  predicate Stray(h: World, e: Entry, obs: Observation, at: int) {
    Subject(h, e.fingerprint, at) != Some(obs)
  }

  /** A clean entry whose fingerprint is seen again describes the path as it is then, if and only if its read was not stray. */
  lemma RetainedDescribes(h: World, e: Entry, obs: Observation, w: Witness, t: int)
    requires Kernel(h) && Bracketed(h, e, obs, w) && !e.racy && !Volatile(e.fingerprint)
    requires w.started <= t && FingerprintAt(h, e.path, t) == e.fingerprint
    ensures CaptureAt(h, e.path, t) == Some(obs) <==> !Stray(h, e, obs, w.read)
  {
    if e.fingerprint.Of? {
      var id := IdOf(e.fingerprint.stat);
      assert h.path(e.path, t) == Shows(id) && h.path(e.path, w.after) == Shows(id);
      assert e.fingerprint.stat.ctime < w.started - RACY_WINDOW;
      OldMeansConstant(h, id, w.started, t);
      OldMeansConstant(h, id, w.started, w.after);
      assert h.file(id, w.read) == h.file(id, t);
    }
  }

  /**
   A check that the ledger could make, and does not: a read that is known to have met the fingerprinted file, or absence
   if that is what the fingerprint says, describes the path for as long as the fingerprint is seen.
   */
  lemma ComparedReadDescribes(h: World, e: Entry, obs: Observation, w: Witness, t: int)
    requires Kernel(h) && Bracketed(h, e, obs, w) && !e.racy && !Volatile(e.fingerprint)
    requires w.started <= t && FingerprintAt(h, e.path, t) == e.fingerprint
    requires !Elsewhere(h, e, w.read)
    ensures CaptureAt(h, e.path, t) == Some(obs)
  {
    RetainedDescribes(h, e, obs, w, t);
  }

  function Steady(id: FileId, at: int): File { File(0x8000, 1, -9_000_000_000, -9_000_000_000, true, if id.ino == 1 then "x" else "y") }

  /** A file that the path shows for one instant. */
  function Glimpse(path: string, at: int): Shown {
    if at == 5 then Shows(FileId(1, 1, 1)) else Missing(2)
  }

  /** Absent before and after the read, it is retained as available for good. */
  lemma GlimpsedFileStaysAvailable(t: int)
    requires 100 <= t
    ensures var h, e := World(Glimpse, Steady), Entry("p", Errno(2), false);
            && Kernel(h) && Bracketed(h, e, Available("x"), Witness(3, 4, 5, 6)) && Stray(h, e, Available("x"), 5)
            && FingerprintAt(h, "p", t) == e.fingerprint && CaptureAt(h, "p", t) == Some(Absent)
  {
  }

  /** A parent directory is swapped for the instant of the read; every file is old and never changes. */
  function Swapped(path: string, at: int): Shown {
    Shows(FileId(1, if at == 5 then 2 else 1, 1))
  }

  /** The other file's bytes are retained for good. */
  lemma SwappedParentKeepsOtherFile(t: int)
    requires 100 <= t
    ensures var h := World(Swapped, Steady);
            var e := Entry("p", Of(StatOf(FileId(1, 1, 1), Steady(FileId(1, 1, 1), 4))), false);
            && Kernel(h) && Bracketed(h, e, Available("y"), Witness(3, 4, 5, 6)) && Stray(h, e, Available("y"), 5)
            && FingerprintAt(h, "p", t) == e.fingerprint && CaptureAt(h, "p", t) == Some(Available("x"))
  {
    assert 0x8000 / 0x1000 % 0x10 == REGULAR;
  }

  // ---- Polls ----

  /** The instants of one poll: its start, then fingerprints, and per attempt reads and fingerprints again. */
  datatype Schedule = Schedule(started: int, look: int -> int, read: (int, int) -> int, check: (int, int) -> int)

  ghost predicate Ordered(s: Schedule) {
    && (forall row :: s.started <= s.look(row))
    && (forall row :: s.look(row) <= s.read(0, row) <= s.check(0, row) && s.look(row) <= s.read(1, row))
    && (forall row :: s.check(0, row) <= s.read(1, row) <= s.check(1, row))
  }

  /** A read of the first attempt, or of the second: then the row had moved during the first, or had not. */
  predicate OfAttempt(sch: Schedule, row: int, w: Witness) {
    || w == Witness(sch.started, sch.look(row), sch.read(0, row), sch.check(0, row))
    || w == Witness(sch.started, sch.look(row), sch.read(1, row), sch.check(1, row))
    || w == Witness(sch.started, sch.check(0, row), sch.read(1, row), sch.check(1, row))
  }

  /** Row `row` was read in this poll, by one of its two attempts. */
  ghost predicate Reread(h: World, sch: Schedule, row: int, e: Entry, obs: Observation, w: Witness) {
    OfAttempt(sch, row, w) && Bracketed(h, e, obs, w)
  }

  /** Within one poll: the row has a bracketed read of this poll. */
  ghost predicate ReadInPoll(h: World, sch: Schedule, row: int, path: string, value: Fingerprint, obs: Observation) {
    exists w: Witness :: Reread(h, sch, row, Entry(path, value, Recent(value, sch.started)), obs, w)
  }

  datatype Captured = Captured(ok: bool, moved: map<int, Fingerprint>, observations: map<int, Observation>)

  /** The entry and its observation stem from the read `w`, bracketed in a poll that started by `captured`. */
  ghost predicate RowOk(h: World, e: Entry, obs: Observation, w: Witness, captured: int) {
    w.started <= captured && Bracketed(h, e, obs, w)
  }

  ghost predicate RowsOk(h: World, entries: map<int, Entry>, observations: map<int, Observation>, origins: map<int, Witness>, captured: Option<int>) {
    && (captured.None? ==> entries == map[])
    && entries.Keys == origins.Keys
    && (captured.Some? ==> forall row :: row in entries ==>
          row in observations && RowOk(h, entries[row], observations[row], origins[row], captured.value))
  }

  predicate Clean(entries: map<int, Entry>, rows: map<int, string>, seen: map<int, Fingerprint>, row: int) {
    && row in rows && row in seen && row in entries
    && var e := entries[row];
       rows[row] == e.path && seen[row] == e.fingerprint && !e.racy && !Volatile(e.fingerprint)
  }

  /** What a poll looks at first. */
  function SeenBy(h: World, rows: map<int, string>, sch: Schedule): map<int, Fingerprint> {
    map row | row in rows :: FingerprintAt(h, rows[row], sch.look(row))
  }

  /** The rows that a poll must read: all of them, or those reported changed and those that are not clean. */
  function Due(rows: map<int, string>, seen: map<int, Fingerprint>, changed: set<int>, all: bool, entries: map<int, Entry>): set<int> {
    set row | row in rows && (all || row in changed || !Clean(entries, rows, seen, row))
  }

  /** Nothing can be retained in a full poll, after a gap, before the first, or if the clock went back. */
  predicate Everything(full: bool, continues: bool, captured: Option<int>, started: int) {
    full || !continues || captured.None? || started < captured.value
  }

  /** Attempt `n` can read every selected row. */
  ghost predicate AllReadable(h: World, rows: map<int, string>, selected: set<int>, sch: Schedule, n: int)
    requires selected <= rows.Keys
  {
    forall row :: row in selected ==> CaptureAt(h, rows[row], sch.read(n, row)).Some?
  }

  /** The reads succeed, between equal fingerprints at the first attempt or, taking what moved as seen, at the second. */
  ghost predicate Settles(h: World, rows: map<int, string>, selected: set<int>, sch: Schedule)
    requires selected <= rows.Keys
  {
    && AllReadable(h, rows, selected, sch, 0)
    && ((forall row :: row in selected ==> FingerprintAt(h, rows[row], sch.check(0, row)) == FingerprintAt(h, rows[row], sch.look(row)))
        || (AllReadable(h, rows, selected, sch, 1)
            && forall row :: row in selected ==> FingerprintAt(h, rows[row], sch.check(1, row)) == FingerprintAt(h, rows[row], sch.check(0, row))))
  }

  lemma NoneMoved(moved: map<int, Fingerprint>)
    ensures moved == map[] <==> forall row :: row !in moved
  {
    if forall row :: row !in moved { assert moved.Keys == {}; }
  }

  /** A read between the first look and the first check, of the same fingerprint. */
  lemma ReadFirst(h: World, sch: Schedule, row: int, path: string, obs: Observation)
    requires Ordered(sch) && CaptureAt(h, path, sch.read(0, row)) == Some(obs)
    requires FingerprintAt(h, path, sch.check(0, row)) == FingerprintAt(h, path, sch.look(row))
    ensures ReadInPoll(h, sch, row, path, FingerprintAt(h, path, sch.look(row)), obs)
  {
    var value := FingerprintAt(h, path, sch.look(row));
    assert Reread(h, sch, row, Entry(path, value, Recent(value, sch.started)), obs,
                  Witness(sch.started, sch.look(row), sch.read(0, row), sch.check(0, row)));
  }

  /** Or between the first check and the second. */
  lemma ReadSecond(h: World, sch: Schedule, row: int, path: string, obs: Observation)
    requires Ordered(sch) && CaptureAt(h, path, sch.read(1, row)) == Some(obs)
    requires FingerprintAt(h, path, sch.check(1, row)) == FingerprintAt(h, path, sch.check(0, row))
    ensures ReadInPoll(h, sch, row, path, FingerprintAt(h, path, sch.check(0, row)), obs)
  {
    var value := FingerprintAt(h, path, sch.check(0, row));
    assert Reread(h, sch, row, Entry(path, value, Recent(value, sch.started)), obs,
                  Witness(sch.started, sch.check(0, row), sch.read(1, row), sch.check(1, row)));
  }

  /** A row that was not read again: it describes the path as this poll saw it, if and only if its read was not stray. */
  lemma RowRetained(h: World, e: Entry, obs: Observation, w: Witness, captured: int, sch: Schedule, row: int)
    requires Kernel(h) && Ordered(sch) && captured <= sch.started && RowOk(h, e, obs, w, captured)
    requires FingerprintAt(h, e.path, sch.look(row)) == e.fingerprint && !e.racy && !Volatile(e.fingerprint)
    ensures RowOk(h, e, obs, w, sch.started)
    ensures CaptureAt(h, e.path, sch.look(row)) == Some(obs) <==> !Stray(h, e, obs, w.read)
  {
    assert w.started <= sch.started <= sch.look(row);
    RetainedDescribes(h, e, obs, w, sch.look(row));
  }

  class MediaLedger {
    const history: World
    var entries: map<int, Entry>
    var observations: map<int, Observation>
    // When each entry was read.
    ghost var origins: map<int, Witness>
    // The start of the last poll; none before the first.
    var captured: Option<int>

    /** Every entry and its observation stem from one bracketed read of some poll up to the last. */
    ghost predicate Valid()
      reads this
    {
      Kernel(history) && RowsOk(history, entries, observations, origins, captured)
    }

    constructor (history: World)
      requires Kernel(history)
      ensures Valid() && this.history == history && captured.None?
    {
      this.history := history;
      entries, observations, origins, captured := map[], map[], map[], None;
    }

    method Look(rows: map<int, string>, sch: Schedule) returns (seen: map<int, Fingerprint>)
      ensures seen == SeenBy(history, rows, sch)
    {
      seen := map row | row in rows :: FingerprintAt(history, rows[row], sch.look(row));
    }

    /** Rows that must be read again. */
    method Dirty(rows: map<int, string>, seen: map<int, Fingerprint>) returns (dirty: set<int>)
      requires seen.Keys == rows.Keys
      ensures forall row :: row in dirty <==> (row in rows || row in entries) && !Clean(entries, rows, seen, row)
    {
      dirty := rows.Keys;
      var left := entries.Keys;
      while left != {}
        invariant left <= entries.Keys
        invariant forall row :: row in dirty <==> if row in entries && row !in left then !Clean(entries, rows, seen, row) else row in rows
        decreases |left|
      {
        Inhabited(left);
        var row :| row in left;
        var e := entries[row];
        if row in rows && rows[row] == e.path && seen[row] == e.fingerprint && !e.racy && !Volatile(e.fingerprint) {
          dirty := dirty - {row};
        } else {
          dirty := dirty + {row};
        }
        left := left - {row};
      }
    }

    method ReadAll(rows: map<int, string>, selected: set<int>, sch: Schedule, n: int) returns (read: Option<map<int, Observation>>)
      requires selected <= rows.Keys
      ensures read.Some? <==> AllReadable(history, rows, selected, sch, n)
      ensures read.Some? ==> read.value.Keys == selected
      ensures read.Some? ==> forall row :: row in selected ==> CaptureAt(history, rows[row], sch.read(n, row)) == Some(read.value[row])
    {
      hide CaptureAt;
      var left := selected;
      var done: map<int, Observation> := map[];
      while left != {}
        invariant left <= selected && done.Keys == selected - left
        invariant forall row :: row in done ==> CaptureAt(history, rows[row], sch.read(n, row)) == Some(done[row])
        decreases |left|
      {
        Inhabited(left);
        var row :| row in left;
        var one := CaptureAt(history, rows[row], sch.read(n, row));
        if one.None? { return None; }
        done := done[row := one.value];
        left := left - {row};
      }
      return Some(done);
    }

    /** Reads the selected rows and looks again: `moved` are those whose fingerprint changed meanwhile. */
    method Attempt(rows: map<int, string>, selected: set<int>, seen: map<int, Fingerprint>, sch: Schedule, n: int) returns (c: Captured)
      requires selected <= rows.Keys == seen.Keys
      ensures c.ok <==> AllReadable(history, rows, selected, sch, n)
      ensures c.ok ==>
        && c.observations.Keys == selected
        && (forall row :: row in selected ==> CaptureAt(history, rows[row], sch.read(n, row)) == Some(c.observations[row]))
        && (forall row :: row in c.moved <==> row in selected && FingerprintAt(history, rows[row], sch.check(n, row)) != seen[row])
        && (forall row :: row in c.moved ==> c.moved[row] == FingerprintAt(history, rows[row], sch.check(n, row)))
    {
      hide CaptureAt, FingerprintAt, AllReadable;
      var read := ReadAll(rows, selected, sch, n);
      if read.None? { return Captured(false, map[], map[]); }
      var moved := map row | row in selected && FingerprintAt(history, rows[row], sch.check(n, row)) != seen[row]
                     :: FingerprintAt(history, rows[row], sch.check(n, row));
      return Captured(true, moved, read.value);
    }

    /** Two attempts to read the selected rows between equal fingerprints. */
    method ReadRows(rows: map<int, string>, selected: set<int>, first: map<int, Fingerprint>, sch: Schedule)
      returns (ok: bool, seen: map<int, Fingerprint>, read: map<int, Observation>)
      requires selected <= rows.Keys && first == SeenBy(history, rows, sch) && Ordered(sch)
      ensures ok ==> seen.Keys == rows.Keys && read.Keys == selected
      ensures ok ==> forall row :: row in selected ==> ReadInPoll(history, sch, row, rows[row], seen[row], read[row])
      ensures ok <==> Settles(history, rows, selected, sch)
    {
      hide CaptureAt, FingerprintAt, ReadInPoll, Ordered, AllReadable;
      seen, read := first, map[];
      var one := Attempt(rows, selected, first, sch, 0);
      if !one.ok { return false, seen, read; }
      NoneMoved(one.moved);
      if one.moved == map[] {
        forall row | row in selected ensures ReadInPoll(history, sch, row, rows[row], first[row], one.observations[row]) {
          ReadFirst(history, sch, row, rows[row], one.observations[row]);
        }
        return true, seen, one.observations;
      }
      seen := first + one.moved;
      assert seen.Keys == rows.Keys by { assert forall row :: row in one.moved ==> row in selected; }
      assert forall row :: row in selected ==> seen[row] == FingerprintAt(history, rows[row], sch.check(0, row));
      var two := Attempt(rows, selected, seen, sch, 1);
      if !two.ok { return false, seen, read; }
      NoneMoved(two.moved);
      if two.moved != map[] { return false, seen, read; }
      forall row | row in selected ensures ReadInPoll(history, sch, row, rows[row], seen[row], two.observations[row]) {
        ReadSecond(history, sch, row, rows[row], two.observations[row]);
      }
      return true, seen, two.observations;
    }

    /** The rows to read in this poll. */
    method Select(rows: map<int, string>, seen: map<int, Fingerprint>, changed: set<int>, full: bool, continues: bool, sch: Schedule)
      returns (selected: set<int>)
      requires seen == SeenBy(history, rows, sch)
      ensures selected == Due(rows, seen, changed, Everything(full, continues, captured, sch.started), entries)
    {
      selected := rows.Keys;
      if !Everything(full, continues, captured, sch.started) {
        var dirty := Dirty(rows, seen);
        selected := (dirty + changed) * rows.Keys;
      }
    }

    /**
     One poll. Afterwards every row with a path that was due has an observation read by an attempt of this poll, and every
     other one has that of an earlier read, which describes the path in this poll if and only if that read was not stray.
     */
    method Poll(rows: map<int, string>, changed: set<int>, full: bool, continues: bool, sch: Schedule) returns (ok: bool)
      requires Valid() && Ordered(sch)
      modifies this
      ensures Valid()
      ensures !ok ==> entries == old(entries) && observations == old(observations) && captured == old(captured) && origins == old(origins)
      ensures ok ==> captured == Some(sch.started)
      ensures ok ==> Polled(history, rows, sch, Due(rows, SeenBy(history, rows, sch), changed,
                                                    Everything(full, continues, old(captured), sch.started), old(entries)),
                            old(entries), old(observations), old(origins), entries, observations, origins)
      ensures ok <==> Settles(history, rows, Due(rows, SeenBy(history, rows, sch), changed,
                                                 Everything(full, continues, old(captured), sch.started), old(entries)), sch)
    {
      hide Settles, Due, RowsOk, Polled, Clean, Reread, ReadInPoll, SeenBy, Everything, Kernel, Ordered, NextEntries, NextObservations, NextOrigins;
      var seen := Look(rows, sch);
      var selected := Select(rows, seen, changed, full, continues, sch);
      DueKnown(history, rows, seen, changed, full, continues, captured, sch, entries);
      var done, values, read := ReadRows(rows, selected, seen, sch);
      if !done { return false; }
      ghost var instants := ReadWhen(history, rows, selected, sch, values, read);
      PollEnds(history, rows, selected, sch, seen, values, read, instants, entries, observations, origins, captured);
      entries, observations, origins, captured :=
        NextEntries(rows, selected, values, entries, sch.started), NextObservations(rows, selected, read, observations),
        NextOrigins(rows, selected, instants, origins), Some(sch.started);
      return true;
    }
  }

  function NextEntries(rows: map<int, string>, selected: set<int>, values: map<int, Fingerprint>, entries: map<int, Entry>, started: int): map<int, Entry>
    requires selected <= rows.Keys == values.Keys && rows.Keys - selected <= entries.Keys
  {
    map row | row in rows :: if row in selected then Entry(rows[row], values[row], Recent(values[row], started)) else entries[row]
  }

  function NextObservations(rows: map<int, string>, selected: set<int>, read: map<int, Observation>, observations: map<int, Observation>): map<int, Observation>
    requires read.Keys == selected <= rows.Keys && rows.Keys - selected <= observations.Keys
  {
    map row | row in rows :: if row in selected then read[row] else observations[row]
  }

  ghost function NextOrigins(rows: map<int, string>, selected: set<int>, instants: map<int, Witness>, origins: map<int, Witness>): map<int, Witness>
    requires instants.Keys == selected <= rows.Keys && rows.Keys - selected <= origins.Keys
  {
    map row | row in rows :: if row in selected then instants[row] else origins[row]
  }

  /** The instants at which this poll's reads were made. */
  lemma ReadWhen(h: World, rows: map<int, string>, selected: set<int>, sch: Schedule, values: map<int, Fingerprint>, read: map<int, Observation>)
    returns (instants: map<int, Witness>)
    requires selected <= rows.Keys == values.Keys && read.Keys == selected
    requires forall row :: row in selected ==> ReadInPoll(h, sch, row, rows[row], values[row], read[row])
    ensures instants.Keys == selected
    ensures forall row :: row in selected ==>
      Reread(h, sch, row, Entry(rows[row], values[row], Recent(values[row], sch.started)), read[row], instants[row])
  {
    hide Reread;
    instants := map row | row in selected ::
      var w: Witness :| Reread(h, sch, row, Entry(rows[row], values[row], Recent(values[row], sch.started)), read[row], w); w;
  }

  /** Row `row` was retained: it describes what this poll saw exactly unless its read was stray. */
  ghost predicate Retained(h: World, sch: Schedule, row: int, e: Entry, obs: Observation, w: Witness) {
    && FingerprintAt(h, e.path, sch.look(row)) == e.fingerprint
    && (CaptureAt(h, e.path, sch.look(row)) == Some(obs) <==> !Stray(h, e, obs, w.read))
  }

  /** Rows that are not due are clean, and there are none unless an earlier poll is there to stand on. */
  lemma DueKnown(h: World, rows: map<int, string>, seen: map<int, Fingerprint>, changed: set<int>, full: bool, continues: bool,
                 captured: Option<int>, sch: Schedule, entries: map<int, Entry>)
    requires seen == SeenBy(h, rows, sch)
    ensures var due := Due(rows, seen, changed, Everything(full, continues, captured, sch.started), entries);
            && due <= rows.Keys && (due != rows.Keys ==> captured.Some? && captured.value <= sch.started)
            && forall row :: row in rows && row !in due ==> Clean(entries, rows, seen, row)
  {
    hide Clean, SeenBy;
  }

  /** What a poll leaves: each row that was due was read again, and every other one with a path is retained unchanged. */
  ghost predicate Polled(h: World, rows: map<int, string>, sch: Schedule, due: set<int>,
                         was: map<int, Entry>, seen: map<int, Observation>, read: map<int, Witness>,
                         entries: map<int, Entry>, observations: map<int, Observation>, origins: map<int, Witness>)
  {
    && entries.Keys == observations.Keys == origins.Keys == rows.Keys
    && forall row :: row in rows ==>
         && entries[row].path == rows[row]
         && (if row in due then Reread(h, sch, row, entries[row], observations[row], origins[row])
             else row in was && row in seen && row in read && entries[row] == was[row] && observations[row] == seen[row] && origins[row] == read[row]
                  && Retained(h, sch, row, entries[row], observations[row], origins[row]))
  }

  /** The observation describes what the path showed at one of the instants at which this poll looked at the row or read it. */
  predicate Describes(h: World, sch: Schedule, row: int, path: string, obs: Observation) {
    || CaptureAt(h, path, sch.look(row)) == Some(obs)
    || CaptureAt(h, path, sch.read(0, row)) == Some(obs)
    || CaptureAt(h, path, sch.read(1, row)) == Some(obs)
  }

  /** A row that was read in this poll, between two looks of this poll that gave its fingerprint. */
  lemma RowRead(h: World, sch: Schedule, row: int, e: Entry, obs: Observation, w: Witness)
    requires Ordered(sch) && Reread(h, sch, row, e, obs, w)
    ensures Describes(h, sch, row, e.path, obs)
    ensures w.started == sch.started && sch.look(row) <= w.before <= w.read <= w.after <= sch.check(1, row)
  {
    hide CaptureAt, FingerprintAt, Recent;
  }

  /** After a poll every observation describes its path during that poll, unless its read was stray. */
  lemma PolledDescribes(h: World, rows: map<int, string>, sch: Schedule, due: set<int>,
                        was: map<int, Entry>, seen: map<int, Observation>, read: map<int, Witness>,
                        entries: map<int, Entry>, observations: map<int, Observation>, origins: map<int, Witness>, row: int)
    requires Ordered(sch) && Polled(h, rows, sch, due, was, seen, read, entries, observations, origins) && row in rows
    ensures Describes(h, sch, row, rows[row], observations[row]) || (row !in due && Stray(h, entries[row], observations[row], origins[row].read))
  {
    hide CaptureAt, FingerprintAt, Stray, Reread;
    if row in due {
      RowRead(h, sch, row, entries[row], observations[row], origins[row]);
    }
  }

  lemma PollEnds(h: World, rows: map<int, string>, selected: set<int>, sch: Schedule, seen: map<int, Fingerprint>,
                 values: map<int, Fingerprint>, read: map<int, Observation>, instants: map<int, Witness>,
                 entries: map<int, Entry>, observations: map<int, Observation>, origins: map<int, Witness>, captured: Option<int>)
    requires Kernel(h) && Ordered(sch) && RowsOk(h, entries, observations, origins, captured)
    requires selected <= rows.Keys == values.Keys && read.Keys == selected == instants.Keys
    requires selected != rows.Keys ==> captured.Some? && captured.value <= sch.started
    requires seen == SeenBy(h, rows, sch)
    requires forall row :: row in rows && row !in selected ==> Clean(entries, rows, seen, row)
    requires forall row :: row in selected ==>
      Reread(h, sch, row, Entry(rows[row], values[row], Recent(values[row], sch.started)), read[row], instants[row])
    ensures rows.Keys - selected <= entries.Keys && rows.Keys - selected <= observations.Keys && rows.Keys - selected <= origins.Keys
    ensures var e, o, w := NextEntries(rows, selected, values, entries, sch.started), NextObservations(rows, selected, read, observations),
                           NextOrigins(rows, selected, instants, origins);
            RowsOk(h, e, o, w, Some(sch.started)) && Polled(h, rows, sch, selected, entries, observations, origins, e, o, w)
  {
    hide Bracketed, Ordered, Stray, FingerprintAt, CaptureAt, Kernel, RowsOk, Polled, Clean, Reread, Kept;
    KeptRows(h, rows, selected, sch, seen, entries, observations, origins, captured);
    KeptKnown(h, rows, selected, sch, entries, observations, origins);
    PollRows(h, rows, selected, sch, values, read, instants, entries, observations, origins);
    PollPolled(h, rows, selected, sch, values, read, instants, entries, observations, origins);
  }

  /** The row was read in an earlier poll, under the same path, and stays. */
  ghost predicate Kept(h: World, sch: Schedule, row: int, path: string,
                       entries: map<int, Entry>, observations: map<int, Observation>, origins: map<int, Witness>)
  {
    && row in entries && row in observations && row in origins && entries[row].path == path
    && RowOk(h, entries[row], observations[row], origins[row], sch.started)
    && Retained(h, sch, row, entries[row], observations[row], origins[row])
  }

  lemma KeptRows(h: World, rows: map<int, string>, selected: set<int>, sch: Schedule, seen: map<int, Fingerprint>,
                 entries: map<int, Entry>, observations: map<int, Observation>, origins: map<int, Witness>, captured: Option<int>)
    requires Kernel(h) && Ordered(sch) && RowsOk(h, entries, observations, origins, captured)
    requires selected != rows.Keys ==> captured.Some? && captured.value <= sch.started
    requires seen == SeenBy(h, rows, sch)
    requires selected <= rows.Keys && forall row :: row in rows && row !in selected ==> Clean(entries, rows, seen, row)
    ensures forall row :: row in rows && row !in selected ==> Kept(h, sch, row, rows[row], entries, observations, origins)
  {
    hide Bracketed, Ordered, Stray, FingerprintAt, CaptureAt, Kernel;
    forall row | row in rows && row !in selected ensures Kept(h, sch, row, rows[row], entries, observations, origins) {
      assert Clean(entries, rows, seen, row);
      RowRetained(h, entries[row], observations[row], origins[row], captured.value, sch, row);
    }
  }

  lemma KeptKnown(h: World, rows: map<int, string>, selected: set<int>, sch: Schedule,
                  entries: map<int, Entry>, observations: map<int, Observation>, origins: map<int, Witness>)
    requires forall row :: row in rows && row !in selected ==> Kept(h, sch, row, rows[row], entries, observations, origins)
    ensures rows.Keys - selected <= entries.Keys && rows.Keys - selected <= observations.Keys && rows.Keys - selected <= origins.Keys
  {
    hide RowOk, Retained;
  }

  lemma RereadOk(h: World, sch: Schedule, row: int, e: Entry, obs: Observation, w: Witness)
    requires Reread(h, sch, row, e, obs, w)
    ensures RowOk(h, e, obs, w, sch.started)
  {
    hide Bracketed;
  }

  lemma PollRows(h: World, rows: map<int, string>, selected: set<int>, sch: Schedule, values: map<int, Fingerprint>,
                 read: map<int, Observation>, instants: map<int, Witness>,
                 entries: map<int, Entry>, observations: map<int, Observation>, origins: map<int, Witness>)
    requires selected <= rows.Keys == values.Keys && read.Keys == selected == instants.Keys
    requires rows.Keys - selected <= entries.Keys && rows.Keys - selected <= observations.Keys && rows.Keys - selected <= origins.Keys
    requires forall row :: row in rows && row !in selected ==> Kept(h, sch, row, rows[row], entries, observations, origins)
    requires forall row :: row in selected ==>
      Reread(h, sch, row, Entry(rows[row], values[row], Recent(values[row], sch.started)), read[row], instants[row])
    ensures RowsOk(h, NextEntries(rows, selected, values, entries, sch.started), NextObservations(rows, selected, read, observations),
                   NextOrigins(rows, selected, instants, origins), Some(sch.started))
  {
    hide Bracketed, Retained, Recent, Reread;
    var e, o, w := NextEntries(rows, selected, values, entries, sch.started), NextObservations(rows, selected, read, observations),
                   NextOrigins(rows, selected, instants, origins);
    forall row | row in rows ensures RowOk(h, e[row], o[row], w[row], sch.started) {
      if row in selected { RereadOk(h, sch, row, e[row], read[row], instants[row]); }
      else { assert Kept(h, sch, row, rows[row], entries, observations, origins); }
    }
  }

  lemma PollPolled(h: World, rows: map<int, string>, selected: set<int>, sch: Schedule, values: map<int, Fingerprint>,
                   read: map<int, Observation>, instants: map<int, Witness>,
                   entries: map<int, Entry>, observations: map<int, Observation>, origins: map<int, Witness>)
    requires selected <= rows.Keys == values.Keys && read.Keys == selected == instants.Keys
    requires rows.Keys - selected <= entries.Keys && rows.Keys - selected <= observations.Keys && rows.Keys - selected <= origins.Keys
    requires forall row :: row in rows && row !in selected ==> Kept(h, sch, row, rows[row], entries, observations, origins)
    requires forall row :: row in selected ==>
      Reread(h, sch, row, Entry(rows[row], values[row], Recent(values[row], sch.started)), read[row], instants[row])
    ensures Polled(h, rows, sch, selected, entries, observations, origins,
                   NextEntries(rows, selected, values, entries, sch.started), NextObservations(rows, selected, read, observations),
                   NextOrigins(rows, selected, instants, origins))
  {
    hide Reread, Retained, Recent, RowOk;
    forall row | row in rows && row !in selected
      ensures entries[row].path == rows[row] && Retained(h, sch, row, entries[row], observations[row], origins[row])
    {
      assert Kept(h, sch, row, rows[row], entries, observations, origins);
    }
  }
}
