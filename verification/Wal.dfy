/**
 Reading committed page changes from a write-ahead log (SQLite "Database File Format", sections 4.1,
 4.2 and 4.5). Reading up to a commit and then on from its cursor gives what one reading gives.
 */
module Wal {
  import opened Wrappers
  import opened Bytes

  type Sum = (int, int)

  const WORD := 0x1_0000_0000

  const HEADER: nat := 32

  const FRAME_HEADER: nat := 24

  datatype WalError = WalUnavailable

  /** The log as one stable read sees it. */
  datatype WalFile = WalFile(device: int, inode: int, bytes: seq<byte>)

  datatype Cursor = Cursor(device: int, inode: int, pageSize: int, salts: (int, int), frame: int, checksum: Sum,
                           databasePages: Option<int>)

  datatype Frame = Frame(number: int, page: int, databasePages: int, prior: Sum, checksum: Sum)

  datatype Changes = Changes(cursor: Cursor, pages: set<int>, commits: nat, pendingFrames: nat, framesRead: int,
                             bigEndian: bool, frames: map<int, Frame>, after: Option<Cursor>)

  // ---- Words and checksums ----

  function Word(data: seq<byte>, at: nat, big: bool): int
    requires at + 4 <= |data|
  {
    if big then Big(data, at) else Little(data, at)
  }

  /** One pair of words; each sum wraps at 32 bits. */
  function Step(data: seq<byte>, at: nat, big: bool, prior: Sum): Sum
    requires at + 8 <= |data|
  {
    var first := (prior.0 + Word(data, at, big) + prior.1) % WORD;
    (first, (prior.1 + Word(data, at + 4, big) + first) % WORD)
  }

  /** The checksum of whole word pairs, as a left fold. */
  function Fold(data: seq<byte>, big: bool, prior: Sum): Sum
    requires |data| % 8 == 0
  {
    if data == [] then prior else Step(data, |data| - 8, big, Fold(data[..|data| - 8], big, prior))
  }

  method Checksum(data: seq<byte>, big: bool, prior: Sum) returns (r: Sum)
    requires |data| % 8 == 0
    ensures r == Fold(data, big, prior)
  {
    hide Word;
    r := prior;
    var n := 0;
    while n < |data|
      invariant 0 <= n <= |data| && n % 8 == 0
      invariant r == Fold(data[..n], big, prior)
    {
      var first := (r.0 + Word(data, n, big) + r.1) % WORD;
      var second := (r.1 + Word(data, n + 4, big) + first) % WORD;
      FoldStep(data, n, big, prior);
      r := (first, second);
      n := n + 8;
    }
    assert data[..n] == data;
  }

  lemma FoldStep(data: seq<byte>, n: nat, big: bool, prior: Sum)
    requires n % 8 == 0 && n + 8 <= |data|
    ensures Fold(data[..n + 8], big, prior) == Step(data, n, big, Fold(data[..n], big, prior))
  {
    hide Step;
    var front := data[..n + 8];
    assert front[..n] == data[..n];
    assert front[n..n + 8] == data[n..n + 8];
    SameStep(front, data, n, n, big, Fold(data[..n], big, prior));
  }

  lemma SameWord(a: seq<byte>, b: seq<byte>, i: nat, j: nat, big: bool)
    requires i + 4 <= |a| && j + 4 <= |b| && a[i..i + 4] == b[j..j + 4]
    ensures Word(a, i, big) == Word(b, j, big)
  {
    var x, y := a[i..i + 4], b[j..j + 4];
    assert a[i] == x[0] && a[i + 1] == x[1] && a[i + 2] == x[2] && a[i + 3] == x[3];
    assert b[j] == y[0] && b[j + 1] == y[1] && b[j + 2] == y[2] && b[j + 3] == y[3];
  }

  /** A step depends only on its eight bytes. */
  lemma SameStep(a: seq<byte>, b: seq<byte>, i: nat, j: nat, big: bool, prior: Sum)
    requires i + 8 <= |a| && j + 8 <= |b| && a[i..i + 8] == b[j..j + 8]
    ensures Step(a, i, big, prior) == Step(b, j, big, prior)
  {
    var x, y := a[i..i + 8], b[j..j + 8];
    assert a[i..i + 4] == x[..4] && a[i + 4..i + 8] == x[4..];
    assert b[j..j + 4] == y[..4] && b[j + 4..j + 8] == y[4..];
    SameWord(a, b, i, j, big);
    SameWord(a, b, i + 4, j + 4, big);
    hide Word;
  }

  /** The checksum continues over concatenation: this is what lets a reader resume. */
  lemma {:induction false} FoldConcat(a: seq<byte>, b: seq<byte>, big: bool, prior: Sum)
    requires |a| % 8 == 0 && |b| % 8 == 0
    ensures Fold(a + b, big, prior) == Fold(b, big, Fold(a, big, prior))
    decreases |b|
  {
    hide Step;
    if b == [] {
      assert a + b == a;
    } else {
      var front := b[..|b| - 8];
      FoldConcat(a, front, big, prior);
      assert (a + b)[..|a + b| - 8] == a + front;
      SameStep(a + b, b, |a + b| - 8, |b| - 8, big, Fold(a + front, big, prior));
    }
  }

  // ---- Header ----

  datatype Header = Header(pageSize: int, big: bool, salts: (int, int), running: Sum)

  predicate PowerOfTwo(n: int) {
    n in {512, 1024, 2048, 4096, 8192, 16384, 32768, 65536}
  }

  function ReadHeader(file: WalFile): (r: Result<Header, WalError>)
    ensures r.Ok? ==> PowerOfTwo(r.value.pageSize) && HEADER <= |file.bytes|
  {
    if |file.bytes| < HEADER then Err(WalUnavailable) else
      var b := file.bytes;
      var magic := Big(b, 0);
      var pageSize := Big(b, 8);
      var running := Fold(b[..24], magic == 0x377F0683, (0, 0));
      if (magic != 0x377F0682 && magic != 0x377F0683) || Big(b, 4) != 3007000 then Err(WalUnavailable)
      else if !PowerOfTwo(pageSize) then Err(WalUnavailable)
      else if running != (Big(b, 24), Big(b, 28)) then Err(WalUnavailable)
      else Ok(Header(pageSize, magic == 0x377F0683, (Big(b, 16), Big(b, 20)), running))
  }

  // ---- Frames ----

  function FrameSize(h: Header): int {
    FRAME_HEADER + h.pageSize
  }

  function Start(h: Header, n: int): int {
    HEADER + (n - 1) * FrameSize(h)
  }

  /** How many whole frames the sampled extent holds. */
  function Extent(file: WalFile, h: Header): int
    requires 0 < FrameSize(h)
  {
    (|file.bytes| - HEADER) / FrameSize(h)
  }

  ghost predicate Readable(file: WalFile, h: Header, n: int) {
    && PowerOfTwo(h.pageSize) && 0 < n && HEADER <= Start(h, n) && Start(h, n) + FrameSize(h) <= |file.bytes|
  }

  lemma WithinExtent(file: WalFile, h: Header, n: int)
    requires PowerOfTwo(h.pageSize) && HEADER <= |file.bytes| && 0 < n <= Extent(file, h)
    ensures Readable(file, h, n)
  {
    var size := FrameSize(h);
    assert (n - 1) * size >= 0;
    assert n * size <= Extent(file, h) * size;
    assert n * size == (n - 1) * size + size;
  }

  /** Frame `n`, counted from 1. */
  function Raw(file: WalFile, h: Header, n: int): (r: seq<byte>)
    requires Readable(file, h, n)
    ensures |r| == FrameSize(h)
  {
    file.bytes[Start(h, n)..Start(h, n) + FrameSize(h)]
  }

  /** Where the frame loop stands. */
  datatype Scan = Scan(running: Sum, pending: map<int, Frame>, committed: map<int, Frame>, pendingFrames: nat, commits: nat,
                       cursor: Cursor)

  /** One frame: refused, left pending, or the commit of everything pending. */
  function Take(raw: seq<byte>, number: int, h: Header, s: Scan): (r: Result<Scan, WalError>)
    requires |raw| == FrameSize(h) && PowerOfTwo(h.pageSize)
  {
    var page, databasePages := Big(raw, 0), Big(raw, 4);
    if !(0 < page <= 0xFFFF_FFFE) || databasePages > 0xFFFF_FFFE || (Big(raw, 8), Big(raw, 12)) != h.salts then
      Err(WalUnavailable)
    else
      var running := Fold(raw[24..], h.big, Fold(raw[..8], h.big, s.running));
      if running != (Big(raw, 16), Big(raw, 20)) then Err(WalUnavailable) else
        var pending := s.pending[page := Frame(number, page, databasePages, s.running, running)];
        if databasePages != 0 then
          Ok(Scan(running, map[], s.committed + pending, 0, s.commits + 1,
                  s.cursor.(pageSize := h.pageSize, salts := h.salts, frame := number, checksum := running, databasePages := Some(databasePages))))
        else
          Ok(s.(running := running, pending := pending, pendingFrames := s.pendingFrames + 1))
  }

  ghost predicate AllReadable(file: WalFile, h: Header, a: int, b: int) {
    forall n :: a < n <= b ==> Readable(file, h, n)
  }

  /** Frames a+1 .. b taken in order from state `s`. */
  function ScanFrames(file: WalFile, h: Header, s: Scan, a: int, b: int): Result<Scan, WalError>
    requires AllReadable(file, h, a, b)
    decreases if b <= a then 0 else b - a
  {
    if b <= a then Ok(s) else
      match ScanFrames(file, h, s, a, b - 1)
      case Err(e) => Err(e)
      case Ok(before) => Take(Raw(file, h, b), b, h, before)
  }

  function Origin(file: WalFile, h: Header): Cursor {
    Cursor(file.device, file.inode, h.pageSize, h.salts, 0, h.running, None)
  }

  function Resume(cursor: Cursor): Scan {
    Scan(cursor.checksum, map[], map[], 0, 0, cursor)
  }

  /** The cursor still names the commit it was taken from. */
  predicate Continues(file: WalFile, h: Header, after: Cursor, frames: int)
    requires PowerOfTwo(h.pageSize) && HEADER <= |file.bytes| && frames <= Extent(file, h)
  {
    && (after.device, after.inode, after.pageSize, after.salts) == (file.device, file.inode, h.pageSize, h.salts)
    && 0 <= after.frame <= frames
    && (if after.frame != 0 then
          WithinExtent(file, h, after.frame);
          var raw := Raw(file, h, after.frame);
          && (Big(raw, 8), Big(raw, 12)) == h.salts && (Big(raw, 16), Big(raw, 20)) == after.checksum
          && after.databasePages == Some(Big(raw, 4)) && Big(raw, 4) != 0
        else after.checksum == h.running && after.databasePages.None?)
  }

  /** The number of frames to read, or a refusal of the bound or the extent. */
  function Bound(file: WalFile, h: Header, through: Option<int>): (r: Result<int, WalError>)
    requires PowerOfTwo(h.pageSize) && HEADER <= |file.bytes|
    ensures r.Ok? ==> 0 <= r.value <= Extent(file, h)
  {
    match through
    case None => if (|file.bytes| - HEADER) % FrameSize(h) != 0 then Err(WalUnavailable) else Ok(Extent(file, h))
    case Some(n) => if 0 <= n <= Extent(file, h) then Ok(n) else Err(WalUnavailable)
  }

  /** The reading once header and bound are known. */
  function ReadFrames(file: WalFile, h: Header, after: Option<Cursor>, maxFrames: Option<int>, through: Option<int>, frames: int)
    : Result<Changes, WalError>
    requires PowerOfTwo(h.pageSize) && HEADER <= |file.bytes| && 0 <= frames <= Extent(file, h)
  {
    var start := if after.Some? then after.value.frame else 0;
    if maxFrames.Some? && frames - start > maxFrames.value then Err(WalUnavailable)
    else if after.Some? && !Continues(file, h, after.value, frames) then Err(WalUnavailable)
    else
      AllWithin(file, h, start, frames);
      match ScanFrames(file, h, Resume(if after.Some? then after.value else Origin(file, h)), start, frames)
      case Err(e) => Err(e)
      case Ok(s) =>
        if through.Some? && s.cursor.frame != through.value then Err(WalUnavailable)
        else Ok(Changes(s.cursor, s.committed.Keys, s.commits, s.pendingFrames, frames - start, h.big, s.committed, after))
  }

  /** The whole reading as a function of the stable file. */
  function Read(file: WalFile, after: Option<Cursor>, maxFrames: Option<int>, through: Option<int>): Result<Changes, WalError> {
    match ReadHeader(file)
    case Err(e) => Err(e)
    case Ok(h) =>
      match Bound(file, h, through)
      case Err(e) => Err(e)
      case Ok(frames) => ReadFrames(file, h, after, maxFrames, through, frames)
  }

  lemma AllWithin(file: WalFile, h: Header, a: int, b: int)
    requires PowerOfTwo(h.pageSize) && HEADER <= |file.bytes| && 0 <= a && b <= Extent(file, h)
    ensures AllReadable(file, h, a, b)
  {
    forall n | a < n <= b ensures Readable(file, h, n) { WithinExtent(file, h, n); }
  }

  method ScanLoop(file: WalFile, h: Header, initial: Scan, start: int, frames: int) returns (r: Result<Scan, WalError>)
    requires start <= frames && AllReadable(file, h, start, frames)
    ensures r == ScanFrames(file, h, initial, start, frames)
  {
    var s := initial;
    for n := start to frames
      invariant ScanFrames(file, h, initial, start, n) == Ok(s)
    {
      var taken := Take(Raw(file, h, n + 1), n + 1, h, s);
      if taken.Err? {
        Refused(file, h, initial, start, n + 1, frames);
        return Err(taken.error);
      }
      s := taken.value;
    }
    return Ok(s);
  }

  method ReadBounded(file: WalFile, h: Header, after: Option<Cursor>, maxFrames: Option<int>, through: Option<int>, frames: int)
    returns (r: Result<Changes, WalError>)
    requires PowerOfTwo(h.pageSize) && HEADER <= |file.bytes| && 0 <= frames <= Extent(file, h)
    ensures r == ReadFrames(file, h, after, maxFrames, through, frames)
  {
    var start := if after.Some? then after.value.frame else 0;
    if maxFrames.Some? && frames - start > maxFrames.value { return Err(WalUnavailable); }
    if after.Some? && !Continues(file, h, after.value, frames) { return Err(WalUnavailable); }
    AllWithin(file, h, start, frames);
    var scanned := ScanLoop(file, h, Resume(if after.Some? then after.value else Origin(file, h)), start, frames);
    if scanned.Err? { return Err(scanned.error); }
    var s := scanned.value;
    if through.Some? && s.cursor.frame != through.value { return Err(WalUnavailable); }
    return Ok(Changes(s.cursor, s.committed.Keys, s.commits, s.pendingFrames, frames - start, h.big, s.committed, after));
  }

  /** One reading of the log. */
  method ReadChanges(file: WalFile, after: Option<Cursor>, maxFrames: Option<int>, through: Option<int>)
    returns (r: Result<Changes, WalError>)
    ensures r == Read(file, after, maxFrames, through)
  {
    var header := ReadHeader(file);
    if header.Err? { return Err(header.error); }
    var bound := Bound(file, header.value, through);
    if bound.Err? { return Err(bound.error); }
    r := ReadBounded(file, header.value, after, maxFrames, through, bound.value);
  }

  /** A refused frame refuses every longer scan. */
  lemma {:induction false} Refused(file: WalFile, h: Header, s: Scan, a: int, b: int, c: int)
    requires AllReadable(file, h, a, c) && a <= b <= c
    requires ScanFrames(file, h, s, a, b).Err?
    ensures ScanFrames(file, h, s, a, c) == ScanFrames(file, h, s, a, b)
    decreases c - b
  {
    if b < c { Refused(file, h, s, a, b, c - 1); }
  }

  // ---- Composition ----

  /** A scan to `c` passes through its state at `b`. */
  lemma {:induction false} Split(file: WalFile, h: Header, s: Scan, a: int, b: int, c: int)
    requires a <= b <= c && AllReadable(file, h, a, c)
    ensures ScanFrames(file, h, s, a, c) == match ScanFrames(file, h, s, a, b)
                                            case Err(e) => Err(e)
                                            case Ok(m) => ScanFrames(file, h, m, b, c)
    decreases c - b
  {
    if b < c { Split(file, h, s, a, b, c - 1); }
  }

  /** What a resumed scan adds to what was committed before it. */
  function After(base: Scan, more: Scan): Scan {
    Scan(more.running, more.pending, base.committed + more.committed, more.pendingFrames, base.commits + more.commits, more.cursor)
  }

  /** Scanning from a commit state is scanning from its cursor, on top of what was committed. */
  lemma {:induction false} ResumeScan(file: WalFile, h: Header, base: Scan, b: int, c: int)
    requires b <= c && AllReadable(file, h, b, c)
    requires base.pending == map[] && base.pendingFrames == 0 && base.running == base.cursor.checksum
    ensures ScanFrames(file, h, base, b, c) == match ScanFrames(file, h, Resume(base.cursor), b, c)
                                               case Err(e) => Err(e)
                                               case Ok(more) => Ok(After(base, more))
    decreases c - b
  {
    if b == c {
      assert base.committed + map[] == base.committed;
    } else {
      ResumeScan(file, h, base, b, c - 1);
      var more := ScanFrames(file, h, Resume(base.cursor), b, c - 1);
      if more.Ok? { TakeAfter(Raw(file, h, c), c, h, base, more.value); }
    }
  }

  lemma TakeAfter(raw: seq<byte>, n: int, h: Header, base: Scan, more: Scan)
    requires |raw| == FrameSize(h) && PowerOfTwo(h.pageSize)
    ensures Take(raw, n, h, After(base, more)) == match Take(raw, n, h, more)
                                                  case Err(e) => Err(e)
                                                  case Ok(s) => Ok(After(base, s))
  {
    hide Fold, Big;
    var running := Fold(raw[24..], h.big, Fold(raw[..8], h.big, more.running));
    var pending := more.pending[Big(raw, 0) := Frame(n, Big(raw, 0), Big(raw, 4), more.running, running)];
    assert (base.committed + more.committed) + pending == base.committed + (more.committed + pending);
  }

  /** The state at the cursor's own frame: nothing pending, everything committed already there. */
  ghost predicate AtCommit(file: WalFile, h: Header, s: Scan, a: int, b: int, end: Scan)
    requires AllReadable(file, h, a, b)
  {
    && a <= end.cursor.frame <= b
    && ScanFrames(file, h, s, a, end.cursor.frame)
       == Ok(Scan(end.cursor.checksum, map[], end.committed, 0, end.commits, end.cursor))
  }

  /** Every scan is its last commit followed by an uncommitted tail, which moves only the running sum and the pending part. */
  lemma {:induction false} LastCommit(file: WalFile, h: Header, cursor: Cursor, b: int)
    requires cursor.frame <= b && AllReadable(file, h, cursor.frame, b)
    requires ScanFrames(file, h, Resume(cursor), cursor.frame, b).Ok?
    ensures AtCommit(file, h, Resume(cursor), cursor.frame, b, ScanFrames(file, h, Resume(cursor), cursor.frame, b).value)
    decreases b - cursor.frame
  {
    if cursor.frame < b {
      LastCommit(file, h, cursor, b - 1);
    }
  }

  // ---- A log that only grows ----

  ghost predicate Extends(f: WalFile, g: WalFile) {
    f.device == g.device && f.inode == g.inode && f.bytes <= g.bytes
  }

  lemma RawSame(f: WalFile, g: WalFile, h: Header, n: int)
    requires Extends(f, g) && Readable(f, h, n)
    ensures Readable(g, h, n) && Raw(g, h, n) == Raw(f, h, n)
  {
  }

  lemma {:induction false} ScanSame(f: WalFile, g: WalFile, h: Header, s: Scan, a: int, b: int)
    requires Extends(f, g) && AllReadable(f, h, a, b)
    ensures AllReadable(g, h, a, b) && ScanFrames(g, h, s, a, b) == ScanFrames(f, h, s, a, b)
    decreases if b <= a then 0 else b - a
  {
    forall n | a < n <= b ensures Readable(g, h, n) { RawSame(f, g, h, n); }
    if a < b {
      ScanSame(f, g, h, s, a, b - 1);
      RawSame(f, g, h, b);
    }
  }

  lemma HeaderSame(f: WalFile, g: WalFile)
    requires Extends(f, g) && ReadHeader(f).Ok?
    ensures ReadHeader(g) == ReadHeader(f)
  {
    assert f.bytes[..24] == g.bytes[..24];
  }

  lemma ExtentGrows(f: WalFile, g: WalFile, h: Header)
    requires Extends(f, g) && PowerOfTwo(h.pageSize)
    ensures Extent(f, h) <= Extent(g, h)
  {
    var size := FrameSize(h);
    var x, y := |f.bytes| - HEADER, |g.bytes| - HEADER;
    DivideMono(x, y, size);
  }

  lemma {:induction false} DivideMono(x: int, y: int, d: int)
    requires 0 < d && x <= y
    ensures x / d <= y / d
  {
    assert (y / d) * d + d > y;
    assert (y / d + 1) * d > x;
    var q, r := x / d, y / d;
    assert q >= r + 1 ==> q * d >= (r + 1) * d;
  }

  /** The frame that a cursor stands on repeats the cursor's own fields. */
  ghost predicate Names(file: WalFile, h: Header, cursor: Cursor) {
    && Readable(file, h, cursor.frame)
    && (cursor.pageSize, cursor.salts) == (h.pageSize, h.salts)
    && var raw := Raw(file, h, cursor.frame);
       && (Big(raw, 8), Big(raw, 12)) == h.salts && (Big(raw, 16), Big(raw, 20)) == cursor.checksum
       && cursor.databasePages == Some(Big(raw, 4)) && Big(raw, 4) != 0
  }

  /** A scan leaves the cursor alone or puts it on a commit frame that it names. */
  lemma {:induction false} CursorNames(file: WalFile, h: Header, from: Cursor, b: int)
    requires from.frame <= b && AllReadable(file, h, from.frame, b) && 0 <= from.frame
    requires ScanFrames(file, h, Resume(from), from.frame, b).Ok?
    ensures var c := ScanFrames(file, h, Resume(from), from.frame, b).value.cursor;
            c == from || (from.frame < c.frame <= b && (c.device, c.inode) == (from.device, from.inode) && Names(file, h, c))
    decreases b - from.frame
  {
    if from.frame < b {
      CursorNames(file, h, from, b - 1);
    }
  }

  lemma ContinuesWhenNamed(g: WalFile, h: Header, c: Cursor, frames: int)
    requires PowerOfTwo(h.pageSize) && HEADER <= |g.bytes| && 0 < c.frame <= frames <= Extent(g, h)
    requires (c.device, c.inode) == (g.device, g.inode) && Names(g, h, c)
    ensures Continues(g, h, c, frames)
  {
  }

  /** A cursor accepted on a log is accepted on every extension of it, up to any later bound. */
  lemma ContinuesLater(f: WalFile, g: WalFile, h: Header, c: Cursor, few: int, many: int)
    requires Extends(f, g) && PowerOfTwo(h.pageSize) && HEADER <= |f.bytes|
    requires few <= Extent(f, h) && many <= Extent(g, h) && c.frame <= many
    requires Continues(f, h, c, few)
    ensures Continues(g, h, c, many)
  {
    if c.frame != 0 {
      WithinExtent(f, h, c.frame);
      RawSame(f, g, h, c.frame);
    }
  }

  /** The state a reading starts its scan from. */
  function From(file: WalFile, h: Header, after: Option<Cursor>): Cursor {
    if after.Some? then after.value else Origin(file, h)
  }

  lemma FromContinues(file: WalFile, h: Header, frames: int)
    requires PowerOfTwo(h.pageSize) && HEADER <= |file.bytes| && 0 <= frames <= Extent(file, h)
    ensures Continues(file, h, Origin(file, h), frames)
  {
  }

  /** What a successful reading did, in terms of the scan. */
  lemma ReadScans(file: WalFile, after: Option<Cursor>, maxFrames: Option<int>, through: Option<int>)
    requires Read(file, after, maxFrames, through).Ok?
    ensures ReadHeader(file).Ok? && Bound(file, ReadHeader(file).value, through).Ok?
    ensures var h, frames := ReadHeader(file).value, Bound(file, ReadHeader(file).value, through).value;
            var from := From(file, h, after);
            var c := Read(file, after, maxFrames, through).value;
            && 0 <= from.frame <= frames && Continues(file, h, from, frames) && AllReadable(file, h, from.frame, frames)
            && ScanFrames(file, h, Resume(from), from.frame, frames)
               == Ok(Scan(ScanFrames(file, h, Resume(from), from.frame, frames).value.running,
                          ScanFrames(file, h, Resume(from), from.frame, frames).value.pending,
                          c.frames, c.pendingFrames, c.commits, c.cursor))
            && c.pages == c.frames.Keys
  {
    var h, frames := ReadHeader(file).value, Bound(file, ReadHeader(file).value, through).value;
    FromContinues(file, h, frames);
    AllWithin(file, h, From(file, h, after).frame, frames);
  }

  /** A cursor that a log continues from is the one that a reading up to its frame would have given. */
  lemma OnlyOwnCursors(file: WalFile, c: Cursor, through: Option<int>)
    requires Read(file, None, None, None).Ok? && Read(file, Some(c), None, through).Ok?
    ensures 0 <= c.frame && Read(file, None, None, Some(c.frame)).Ok? && Read(file, None, None, Some(c.frame)).value.cursor == c
  {
    ReadScans(file, None, None, None);
    ReadScans(file, Some(c), None, through);
    var h := ReadHeader(file).value;
    var whole := Bound(file, h, None).value;
    Split(file, h, Resume(Origin(file, h)), 0, c.frame, whole);
    CursorAt(file, h, c);
    hide ReadHeader, Continues, ScanFrames;
  }

  /** The state of a scan at a frame that a cursor continues from. */
  lemma CursorAt(file: WalFile, h: Header, c: Cursor)
    requires PowerOfTwo(h.pageSize) && HEADER <= |file.bytes| && Continues(file, h, c, Extent(file, h)) && AllReadable(file, h, 0, c.frame)
    requires ScanFrames(file, h, Resume(Origin(file, h)), 0, c.frame).Ok?
    ensures ScanFrames(file, h, Resume(Origin(file, h)), 0, c.frame).value.cursor == c
  {
    if c.frame > 0 {
      var s := ScanFrames(file, h, Resume(Origin(file, h)), 0, c.frame - 1).value;
      CursorNames(file, h, Origin(file, h), c.frame - 1);
    }
  }

  /** A reading and the reading resumed from its cursor, against one straight reading of the grown log. */
  ghost predicate Composes(first: Changes, rest: Result<Changes, WalError>, whole: Result<Changes, WalError>) {
    && (rest.Ok? <==> whole.Ok?)
    && (rest.Ok? ==>
         && whole.value.cursor == rest.value.cursor
         && whole.value.frames == first.frames + rest.value.frames
         && whole.value.pages == first.pages + rest.value.pages
         && whole.value.commits == first.commits + rest.value.commits
         && whole.value.pendingFrames == rest.value.pendingFrames)
  }

  lemma ComposeScans(f: WalFile, g: WalFile, h: Header, from: Cursor, few: int, many: int, base: Scan)
    requires Extends(f, g) && 0 <= from.frame <= few && AllReadable(f, h, from.frame, few) && AllReadable(g, h, from.frame, many)
    requires AtCommit(f, h, Resume(from), from.frame, few, base) && base.cursor.frame <= many
    ensures ScanFrames(g, h, Resume(from), from.frame, many)
            == match ScanFrames(g, h, Resume(base.cursor), base.cursor.frame, many)
               case Err(e) => Err(e)
               case Ok(more) => Ok(After(base, more))
  {
    var c := base.cursor.frame;
    var mid := Scan(base.cursor.checksum, map[], base.committed, 0, base.commits, base.cursor);
    ScanSame(f, g, h, Resume(from), from.frame, c);
    Split(g, h, Resume(from), from.frame, c, many);
    ResumeScan(g, h, mid, c, many);
    assert forall more :: After(mid, more) == After(base, more);
  }

  lemma CursorContinues(f: WalFile, g: WalFile, h: Header, from: Cursor, few: int, many: int)
    requires Extends(f, g) && PowerOfTwo(h.pageSize) && HEADER <= |f.bytes| && few <= Extent(f, h) && many <= Extent(g, h)
    requires 0 <= from.frame <= few && Continues(f, h, from, few) && AllReadable(f, h, from.frame, few)
    requires ScanFrames(f, h, Resume(from), from.frame, few).Ok?
    requires ScanFrames(f, h, Resume(from), from.frame, few).value.cursor.frame <= many
    ensures Continues(g, h, ScanFrames(f, h, Resume(from), from.frame, few).value.cursor, many)
  {
    var c := ScanFrames(f, h, Resume(from), from.frame, few).value.cursor;
    CursorNames(f, h, from, few);
    if c == from {
      ContinuesLater(f, g, h, from, few, many);
    } else {
      RawSame(f, g, h, c.frame);
      ContinuesWhenNamed(g, h, c, many);
    }
  }

  /** Reading on from a cursor gives what reading straight through gives, however the log grew meanwhile. */
  lemma Compose(f: WalFile, g: WalFile, after: Option<Cursor>, m: Option<int>, n: Option<int>)
    requires Extends(f, g) && Read(f, after, None, m).Ok?
    requires n.Some? ==> Read(f, after, None, m).value.cursor.frame <= n.value
    ensures var first := Read(f, after, None, m).value;
            Composes(first, Read(g, Some(first.cursor), None, n), Read(g, after, None, n))
  {
    hide ScanFrames, Extends, AllReadable, Readable, Extent, ReadHeader;
    var first := Read(f, after, None, m).value;
    ReadScans(f, after, None, m);
    HeaderSame(f, g);
    var h := ReadHeader(f).value;
    var few := Bound(f, h, m).value;
    var from := From(f, h, after);
    LastCommit(f, h, from, few);
    ExtentGrows(f, g, h);
    if Bound(g, h, n).Ok? {
      var many := Bound(g, h, n).value;
      ContinuesLater(f, g, h, from, few, many);
      CursorContinues(f, g, h, from, few, many);
      AllWithin(g, h, from.frame, many);
      ComposeScans(f, g, h, from, few, many, ScanFrames(f, h, Resume(from), from.frame, few).value);
    }
  }

  /** A frame limit refuses exactly the readings that are longer, and changes no other. */
  lemma LimitOnly(file: WalFile, after: Option<Cursor>, limit: Option<int>, through: Option<int>)
    ensures var free, r := Read(file, after, None, through), Read(file, after, limit, through);
            (r.Ok? <==> free.Ok? && (limit.Some? ==> free.value.framesRead <= limit.value)) && (r.Ok? ==> r == free)
  {
    hide Continues, ScanFrames, Bound, ReadHeader;
  }

  /** A reading spans the frames from its start to its bound. */
  lemma SpanRead(f: WalFile, g: WalFile, after: Option<Cursor>, m: Option<int>, n: Option<int>)
    requires Extends(f, g) && Read(f, after, None, m).Ok?
    requires Read(g, Some(Read(f, after, None, m).value.cursor), None, n).Ok? && Read(g, after, None, n).Ok?
    ensures Read(g, Some(Read(f, after, None, m).value.cursor), None, n).value.framesRead <= Read(g, after, None, n).value.framesRead
  {
    ReadScans(f, after, None, m);
    HeaderSame(f, g);
    var h := ReadHeader(f).value;
    LastCommit(f, h, From(f, h, after), Bound(f, h, m).value);
    assert From(f, h, after).frame <= Read(f, after, None, m).value.cursor.frame;
    hide Continues, ScanFrames, ReadHeader, Bound, AtCommit;
  }

  /**
   With frame limits: whenever the straight reading is within its limit, the resumed one is too, and they agree. The
   resumed reading succeeds where the straight one is refused exactly when only the straight one exceeds the limit.
   */
  lemma ComposeBounded(f: WalFile, g: WalFile, after: Option<Cursor>, first: Option<int>, limit: Option<int>, m: Option<int>, n: Option<int>)
    requires Extends(f, g) && Read(f, after, first, m).Ok?
    requires n.Some? ==> Read(f, after, first, m).value.cursor.frame <= n.value
    ensures var early := Read(f, after, first, m).value;
            var rest, whole, free := Read(g, Some(early.cursor), limit, n), Read(g, after, limit, n), Read(g, after, None, n);
            && (whole.Ok? ==> rest.Ok? && Composes(early, rest, whole))
            && (rest.Ok? ==> free.Ok? && Composes(early, rest, free))
            && (rest.Ok? && whole.Err? <==> rest.Ok? && limit.Some? && limit.value < free.value.framesRead)
  {
    LimitOnly(f, after, first, m);
    var early := Read(f, after, None, m).value;
    Compose(f, g, after, m, n);
    LimitOnly(g, Some(early.cursor), limit, n);
    LimitOnly(g, after, limit, n);
    if Read(g, after, None, n).Ok? { SpanRead(f, g, after, m, n); }
    hide Read;
  }

  // ---- Which frame a page is read from ----

  ghost function PageOf(file: WalFile, h: Header, n: int): int
    requires Readable(file, h, n)
  {
    Big(Raw(file, h, n), 0)
  }

  /** `d` describes frame `d.number`, and the frame verifies from the sum that `d` remembers. */
  ghost predicate Describes(file: WalFile, h: Header, d: Frame) {
    && Readable(file, h, d.number)
    && var raw := Raw(file, h, d.number);
       && Big(raw, 0) == d.page && Big(raw, 4) == d.databasePages
       && (Big(raw, 8), Big(raw, 12)) == h.salts && (Big(raw, 16), Big(raw, 20)) == d.checksum
       && Fold(raw[24..], h.big, Fold(raw[..8], h.big, d.prior)) == d.checksum
  }

  ghost predicate AllDescribed(file: WalFile, h: Header, frames: map<int, Frame>) {
    forall p :: p in frames ==> Describes(file, h, frames[p])
  }

  /** Every page written in (a, b] maps to its last frame there. */
  ghost predicate Indexes(file: WalFile, h: Header, frames: map<int, Frame>, a: int, b: int)
    requires AllReadable(file, h, a, b)
  {
    && (forall p :: p in frames ==>
         && a < frames[p].number <= b && frames[p].page == p && PageOf(file, h, frames[p].number) == p
         && forall n :: frames[p].number < n <= b ==> PageOf(file, h, n) != p)
    && (forall n :: a < n <= b ==> PageOf(file, h, n) in frames)
  }

  lemma IndexMore(file: WalFile, h: Header, frames: map<int, Frame>, a: int, b: int, d: Frame)
    requires a <= b && AllReadable(file, h, a, b + 1) && Indexes(file, h, frames, a, b)
    requires d.number == b + 1 && Readable(file, h, b + 1) && PageOf(file, h, b + 1) == d.page
    ensures Indexes(file, h, frames[d.page := d], a, b + 1)
  {
  }

  lemma IndexJoin(file: WalFile, h: Header, early: map<int, Frame>, late: map<int, Frame>, a: int, b: int, c: int)
    requires a <= b <= c && AllReadable(file, h, a, c) && Indexes(file, h, early, a, b) && Indexes(file, h, late, b, c)
    ensures Indexes(file, h, early + late, a, c)
  {
    var both := early + late;
    forall p | p in both
      ensures a < both[p].number <= c && both[p].page == p && PageOf(file, h, both[p].number) == p
      ensures forall n :: both[p].number < n <= c ==> PageOf(file, h, n) != p
    {
      if p !in late {
        forall n | both[p].number < n <= c ensures PageOf(file, h, n) != p {
          if n <= b {} else { assert PageOf(file, h, n) in late; }
        }
      }
    }
  }

  lemma {:induction false} ScanIndexes(file: WalFile, h: Header, from: Cursor, b: int)
    requires from.frame <= b && AllReadable(file, h, from.frame, b)
    requires ScanFrames(file, h, Resume(from), from.frame, b).Ok?
    ensures var s := ScanFrames(file, h, Resume(from), from.frame, b).value;
            && from.frame <= s.cursor.frame <= b
            && Indexes(file, h, s.committed, from.frame, s.cursor.frame)
            && Indexes(file, h, s.pending, s.cursor.frame, b)
            && AllDescribed(file, h, s.committed) && AllDescribed(file, h, s.pending)
    decreases b - from.frame
  {
    hide Indexes, Describes, Take, Raw;
    if from.frame < b {
      ScanIndexes(file, h, from, b - 1);
      var before := ScanFrames(file, h, Resume(from), from.frame, b - 1).value;
      var d := TakenFrame(file, h, before, b);
      IndexMore(file, h, before.pending, before.cursor.frame, b - 1, d);
      if d.databasePages != 0 {
        IndexJoin(file, h, before.committed, before.pending[d.page := d], from.frame, before.cursor.frame, b);
        NoIndexes(file, h, b);
      }
    } else {
      NoIndexes(file, h, from.frame);
    }
  }

  lemma NoIndexes(file: WalFile, h: Header, a: int)
    ensures AllReadable(file, h, a, a) && Indexes(file, h, map[], a, a)
  {
  }

  /** The frame that a step of the scan records. */
  lemma TakenFrame(file: WalFile, h: Header, s: Scan, n: int) returns (d: Frame)
    requires Readable(file, h, n) && Take(Raw(file, h, n), n, h, s).Ok?
    ensures Describes(file, h, d) && d.number == n && PageOf(file, h, n) == d.page
    ensures var t := Take(Raw(file, h, n), n, h, s).value;
            if d.databasePages != 0 then t.pending == map[] && t.committed == s.committed + s.pending[d.page := d] && t.cursor.frame == n
            else t.pending == s.pending[d.page := d] && t.committed == s.committed && t.cursor == s.cursor
  {
    hide Fold, Big;
    var raw := Raw(file, h, n);
    d := Frame(n, Big(raw, 0), Big(raw, 4), s.running, (Big(raw, 16), Big(raw, 20)));
  }

  /** A reading maps each committed page to its last committed frame; an uncommitted tail adds nothing. */
  lemma ReadIndexes(file: WalFile, after: Option<Cursor>, maxFrames: Option<int>, through: Option<int>)
    requires Read(file, after, maxFrames, through).Ok?
    ensures var h := ReadHeader(file).value;
            var c := Read(file, after, maxFrames, through).value;
            var start := From(file, h, after).frame;
            && 0 <= start <= c.cursor.frame && AllReadable(file, h, start, c.cursor.frame)
            && Indexes(file, h, c.frames, start, c.cursor.frame) && AllDescribed(file, h, c.frames)
  {
    ReadScans(file, after, maxFrames, through);
    var h, frames := ReadHeader(file).value, Bound(file, ReadHeader(file).value, through).value;
    ScanIndexes(file, h, From(file, h, after), frames);
  }

  /** A reading stops at the last commit within its bound. */
  lemma {:induction false} CursorIsLastCommit(file: WalFile, h: Header, from: Cursor, b: int, n: int)
    requires 0 <= from.frame <= b && AllReadable(file, h, from.frame, b)
    requires ScanFrames(file, h, Resume(from), from.frame, b).Ok?
    requires ScanFrames(file, h, Resume(from), from.frame, b).value.cursor.frame < n <= b && from.frame < n
    ensures Big(Raw(file, h, n), 4) == 0
    decreases b
  {
    if n < b {
      CursorIsLastCommit(file, h, from, b - 1, n);
    }
  }

  /** The body of a committed page, checked against the candidate that named it. */
  function ReadPage(file: WalFile, changes: Changes, page: int): Result<seq<byte>, WalError> {
    if page !in changes.frames then Err(WalUnavailable) else
      var d := changes.frames[page];
      var c := changes.cursor;
      if d.page != page || !(0 < d.number <= c.frame) || !PowerOfTwo(c.pageSize) then Err(WalUnavailable) else
        var at := HEADER + (d.number - 1) * (c.pageSize + FRAME_HEADER);
        if at < HEADER || |file.bytes| < at + c.pageSize + FRAME_HEADER then Err(WalUnavailable) else
          var raw := file.bytes[at..at + c.pageSize + FRAME_HEADER];
          var checksum := Fold(raw[24..], changes.bigEndian, Fold(raw[..8], changes.bigEndian, d.prior));
          if (Big(raw, 0), Big(raw, 4)) != (page, d.databasePages) || (Big(raw, 8), Big(raw, 12)) != c.salts
             || (Big(raw, 16), Big(raw, 20)) != d.checksum || checksum != d.checksum then Err(WalUnavailable)
          else Ok(raw[24..])
  }

  lemma DescribedReads(g: WalFile, h: Header, changes: Changes, page: int)
    requires page in changes.frames && Describes(g, h, changes.frames[page]) && PowerOfTwo(h.pageSize)
    requires changes.frames[page].page == page && 0 < changes.frames[page].number <= changes.cursor.frame
    requires (changes.cursor.pageSize, changes.cursor.salts, changes.bigEndian) == (h.pageSize, h.salts, h.big)
    ensures ReadPage(g, changes, page) == Ok(Raw(g, h, changes.frames[page].number)[24..])
  {
  }

  lemma ReadFields(file: WalFile, after: Option<Cursor>, maxFrames: Option<int>, through: Option<int>)
    requires Read(file, after, maxFrames, through).Ok?
    ensures var c, h := Read(file, after, maxFrames, through).value, ReadHeader(file).value;
            (c.cursor.pageSize, c.cursor.salts, c.bigEndian) == (h.pageSize, h.salts, h.big)
  {
    ReadScans(file, after, maxFrames, through);
    var h := ReadHeader(file).value;
    CursorNames(file, h, From(file, h, after), Bound(file, h, through).value);
  }

  /** On any extension of the log, a committed page reads as the body of its last committed frame. */
  lemma ReadPageIsLastFrame(f: WalFile, g: WalFile, after: Option<Cursor>, maxFrames: Option<int>, through: Option<int>, page: int)
    requires Extends(f, g) && Read(f, after, maxFrames, through).Ok?
    requires page in Read(f, after, maxFrames, through).value.frames
    ensures var c := Read(f, after, maxFrames, through).value;
            var h := ReadHeader(f).value;
            var n := c.frames[page].number;
            && Readable(f, h, n) && PageOf(f, h, n) == page
            && ReadPage(g, c, page) == Ok(Raw(f, h, n)[24..])
  {
    ReadIndexes(f, after, maxFrames, through);
    ReadFields(f, after, maxFrames, through);
    var h := ReadHeader(f).value;
    var c := Read(f, after, maxFrames, through).value;
    RawSame(f, g, h, c.frames[page].number);
    DescribedReads(g, h, c, page);
  }
}
