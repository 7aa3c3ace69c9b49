/**
 A writer of write-ahead logs (SQLite "Database File Format", sections 4.1 and 4.2), stated on its own, and what the
 reader makes of every log it writes.
 */
module WalWriter {
  import opened Wrappers
  import opened Bytes
  import opened Wal

  /** What a log carries apart from its frames: word order, page size as a power of two, checkpoint sequence, salts. */
  datatype Log = Log(big: bool, exponent: nat, sequence: int, salts: (int, int))

  /** One page written to the log; a commit carries the size of the database after it, any other frame 0. */
  datatype Write = Write(page: int, commit: int, body: seq<byte>)

  // ---- The format ----

  function Power2(n: nat): nat {
    if n == 0 then 1 else 2 * Power2(n - 1)
  }

  /** Four bytes as one word: the most significant byte first, or last. */
  function WordOf(a: byte, b: byte, c: byte, d: byte, big: bool): int {
    if big then a * 0x100_0000 + b * 0x1_0000 + c * 0x100 + d else d * 0x100_0000 + c * 0x1_0000 + b * 0x100 + a
  }

  /** The 32-bit words of some bytes in the log's word order, two by two. */
  function Pairs(data: seq<byte>, big: bool): seq<(int, int)>
    requires |data| % 8 == 0
  {
    if data == [] then [] else [FirstPair(data, big)] + Pairs(data[8..], big)
  }

  function FirstPair(data: seq<byte>, big: bool): (int, int)
    requires 8 <= |data|
  {
    (WordOf(data[0], data[1], data[2], data[3], big), WordOf(data[4], data[5], data[6], data[7], big))
  }

  /** The checksum: each sum takes its word of the pair and the other sum, modulo 2^32. */
  function Sums(pairs: seq<(int, int)>, s: (int, int)): (r: (int, int))
    requires Word32(s.0) && Word32(s.1)
    ensures Word32(r.0) && Word32(r.1)
  {
    if pairs == [] then s else Sums(pairs[1..], Add(pairs[0], s))
  }

  function Add(pair: (int, int), s: (int, int)): (r: (int, int))
    ensures Word32(r.0) && Word32(r.1)
  {
    var s0 := (s.0 + pair.0 + s.1) % 0x1_0000_0000;
    (s0, (s.1 + pair.1 + s0) % 0x1_0000_0000)
  }

  predicate WritableLog(log: Log) {
    && 9 <= log.exponent <= 16 && Word32(log.sequence) && Word32(log.salts.0) && Word32(log.salts.1)
  }

  predicate Writable(log: Log, frames: seq<Write>) {
    && WritableLog(log)
    && forall i :: 0 <= i < |frames| ==> WritableFrame(log, frames[i])
  }

  predicate WritableFrame(log: Log, w: Write) {
    0 < w.page < 0xFFFF_FFFF && 0 <= w.commit < 0xFFFF_FFFF && |w.body| == Power2(log.exponent)
  }

  /** The first six fields of the header, which its checksum covers. */
  function Head(log: Log): (r: seq<byte>)
    requires WritableLog(log)
    ensures |r| == 24
  {
    PageSize(log);
    Be(if log.big then 0x377F0683 else 0x377F0682) + Be(3007000) + Be(Power2(log.exponent)) + Be(log.sequence)
    + Be(log.salts.0) + Be(log.salts.1)
  }

  lemma PageSize(log: Log)
    requires WritableLog(log)
    ensures PowerOfTwo(Power2(log.exponent)) && Word32(Power2(log.exponent)) && Power2(log.exponent) % 8 == 0
  {
    assert Power2(4) == 16 && Power2(8) == 256 && Power2(12) == 4096;
    assert log.exponent in {9, 10, 11, 12, 13, 14, 15, 16};
  }

  /** The sums after a frame: its page number, its commit field and its body are added to those before it. */
  function SumsOver(log: Log, w: Write, before: (int, int)): (r: (int, int))
    requires WritableLog(log) && WritableFrame(log, w) && Word32(before.0) && Word32(before.1)
    ensures Word32(r.0) && Word32(r.1)
  {
    PageSize(log);
    Sums(Pairs(Be(w.page) + Be(w.commit) + w.body, log.big), before)
  }

  function HeaderSums(log: Log): (r: (int, int))
    requires WritableLog(log)
    ensures Word32(r.0) && Word32(r.1)
  {
    Sums(Pairs(Head(log), log.big), (0, 0))
  }

  /** The sums after the header and some frames. */
  function SumsAfter(log: Log, frames: seq<Write>): (r: (int, int))
    requires Writable(log, frames)
    ensures Word32(r.0) && Word32(r.1)
  {
    if frames == [] then HeaderSums(log)
    else SumsOver(log, frames[|frames| - 1], SumsAfter(log, frames[..|frames| - 1]))
  }

  /** The bytes of the log. */
  function Written(log: Log, frames: seq<Write>): (r: seq<byte>)
    requires Writable(log, frames)
    ensures |r| == 32 + |frames| * (24 + Power2(log.exponent))
  {
    var sums := SumsAfter(log, frames);
    if frames == [] then Head(log) + Be(sums.0) + Be(sums.1) else
      var w, front := frames[|frames| - 1], frames[..|frames| - 1];
      Longer(|frames|, 24 + Power2(log.exponent));
      Written(log, front) + FrameBytes(log, w, sums)
  }

  /** One frame: its header of six fields and its body. */
  function FrameBytes(log: Log, w: Write, sums: (int, int)): (r: seq<byte>)
    requires WritableLog(log) && WritableFrame(log, w) && Word32(sums.0) && Word32(sums.1)
    ensures |r| == 24 + Power2(log.exponent)
  {
    Be(w.page) + Be(w.commit) + Be(log.salts.0) + Be(log.salts.1) + Be(sums.0) + Be(sums.1) + w.body
  }

  lemma Longer(n: nat, size: nat)
    requires 0 < n
    ensures n * size == (n - 1) * size + size
  {
  }

  /** The number of the last commit frame, counted from 1; 0 if nothing was committed. */
  function LastCommitted(frames: seq<Write>): (n: nat)
    ensures n <= |frames| && (n > 0 ==> frames[n - 1].commit != 0)
    ensures forall i :: n <= i < |frames| ==> frames[i].commit == 0
  {
    if frames == [] then 0
    else if frames[|frames| - 1].commit != 0 then |frames| else LastCommitted(frames[..|frames| - 1])
  }

  function CommitCount(frames: seq<Write>): nat {
    if frames == [] then 0 else
      CommitCount(frames[..|frames| - 1]) + if frames[|frames| - 1].commit != 0 then 1 else 0
  }

  // ---- The reader's checksum ----

  /** The reader's fold over byte pairs from the back is the checksum over words from the front. */
  lemma {:induction false} FoldSums(data: seq<byte>, big: bool, s: (int, int))
    requires |data| % 8 == 0 && Word32(s.0) && Word32(s.1)
    ensures Fold(data, big, s) == Sums(Pairs(data, big), s)
    decreases |data|
  {
    hide Add, FirstPair, Step;
    if data != [] {
      var pair, rest := data[..8], data[8..];
      assert data == pair + rest;
      FoldConcat(pair, rest, big, s);
      FoldOne(pair, big, s);
      AddStep(data, big, s);
      FoldSums(rest, big, Add(FirstPair(data, big), s));
    }
  }

  lemma FoldOne(pair: seq<byte>, big: bool, prior: Sum)
    requires |pair| == 8
    ensures Fold(pair, big, prior) == Step(pair, 0, big, prior)
  {
    hide Step;
    assert pair[..0] == [];
  }

  lemma AddStep(data: seq<byte>, big: bool, s: (int, int))
    requires 8 <= |data|
    ensures Add(FirstPair(data, big), s) == Step(data[..8], 0, big, s)
  {
    hide WordOf, Word;
    SameWord(data[0], data[1], data[2], data[3], big, data[..8], 0);
    SameWord(data[4], data[5], data[6], data[7], big, data[..8], 4);
  }

  lemma SameWord(a: byte, b: byte, c: byte, d: byte, big: bool, data: seq<byte>, at: nat)
    requires at + 4 <= |data| && data[at] == a && data[at + 1] == b && data[at + 2] == c && data[at + 3] == d
    ensures WordOf(a, b, c, d, big) == Word(data, at, big)
  {
  }

  // ---- What the reader sees ----

  function FileOf(log: Log, frames: seq<Write>, device: int, inode: int): WalFile
    requires Writable(log, frames)
  {
    WalFile(device, inode, Written(log, frames))
  }

  function HeaderOf(log: Log): Header
    requires WritableLog(log)
  {
    Header(Power2(log.exponent), log.big, log.salts, SumsAfter(log, []))
  }

  lemma Six(data: seq<byte>, a: int, b: int, c: int, d: int, e: int, f: int, rest: seq<byte>)
    requires Word32(a) && Word32(b) && Word32(c) && Word32(d) && Word32(e) && Word32(f)
    requires data == Be(a) + Be(b) + Be(c) + Be(d) + Be(e) + Be(f) + rest
    ensures Big(data, 0) == a && Big(data, 4) == b && Big(data, 8) == c && Big(data, 12) == d
    ensures Big(data, 16) == e && Big(data, 20) == f
    ensures data[..8] == Be(a) + Be(b) && data[24..] == rest
  {
    hide Be, Big;
    BeBig(data, 0, a);
    BeBig(data, 4, b);
    BeBig(data, 8, c);
    BeBig(data, 12, d);
    BeBig(data, 16, e);
    BeBig(data, 20, f);
  }

  /** The header of a log in either word order is accepted and read for what it says. */
  lemma HeaderReads(log: Log, device: int, inode: int)
    requires WritableLog(log)
    ensures ReadHeader(FileOf(log, [], device, inode)) == Ok(HeaderOf(log))
  {
    hide Be, Big, Fold, Sums, Pairs, Power2, PowerOfTwo;
    PageSize(log);
    var b, sums := Written(log, []), SumsAfter(log, []);
    var magic := if log.big then 0x377F0683 else 0x377F0682;
    Six(b, magic, 3007000, Power2(log.exponent), log.sequence, log.salts.0, log.salts.1, Be(sums.0) + Be(sums.1));
    BeBig(b, 24, sums.0);
    BeBig(b, 28, sums.1);
    assert b[..24] == Head(log);
    FoldSums(Head(log), log.big, (0, 0));
  }

  /** The sums that the reader takes over one frame. */
  lemma FrameSums(log: Log, w: Write, before: (int, int), raw: seq<byte>)
    requires WritableLog(log) && WritableFrame(log, w) && Word32(before.0) && Word32(before.1)
    requires |raw| == 24 + Power2(log.exponent) && raw[..8] == Be(w.page) + Be(w.commit) && raw[24..] == w.body
    ensures |w.body| % 8 == 0
    ensures Fold(raw[24..], log.big, Fold(raw[..8], log.big, before)) == SumsOver(log, w, before)
  {
    hide Be, Fold, Sums, Pairs, Power2;
    PageSize(log);
    FoldConcat(raw[..8], raw[24..], log.big, before);
    FoldSums(Be(w.page) + Be(w.commit) + w.body, log.big, before);
  }

  /** The scan's state after one more frame. */
  lemma TakeReads(log: Log, w: Write, n: int, s: Scan, sums: (int, int), t: Scan)
    requires WritableLog(log) && WritableFrame(log, w) && Word32(s.running.0) && Word32(s.running.1)
    requires sums == SumsOver(log, w, s.running)
    requires var d := Frame(n, w.page, w.commit, s.running, sums);
             var pending := s.pending[w.page := d];
             t == if w.commit == 0 then s.(running := sums, pending := pending, pendingFrames := s.pendingFrames + 1)
                  else Scan(sums, map[], s.committed + pending, 0, s.commits + 1,
                            s.cursor.(pageSize := Power2(log.exponent), salts := log.salts, frame := n, checksum := sums,
                                      databasePages := Some(w.commit)))
    ensures PowerOfTwo(Power2(log.exponent)) && Take(FrameBytes(log, w, sums), n, HeaderOf(log), s) == Ok(t)
  {
    hide Be, Big, Fold, SumsOver, SumsAfter, Power2, PowerOfTwo;
    PageSize(log);
    var raw := FrameBytes(log, w, sums);
    Six(raw, w.page, w.commit, log.salts.0, log.salts.1, sums.0, sums.1, w.body);
    FrameSums(log, w, s.running, raw);
  }

  /** `d` is the descriptor of its frame. */
  ghost predicate DescriptorOf(log: Log, frames: seq<Write>, d: Frame)
    requires Writable(log, frames)
  {
    && 0 < d.number <= |frames|
    && var w := frames[d.number - 1];
       d == Frame(d.number, w.page, w.commit, SumsAfter(log, frames[..d.number - 1]), SumsAfter(log, frames[..d.number]))
  }

  ghost predicate DescriptorsOf(log: Log, frames: seq<Write>, m: map<int, Frame>)
    requires Writable(log, frames)
  {
    forall p :: p in m ==> DescriptorOf(log, frames, m[p])
  }

  /** The cursor of the last commit. */
  function CursorOf(log: Log, frames: seq<Write>, device: int, inode: int): Cursor
    requires Writable(log, frames)
  {
    var n := LastCommitted(frames);
    Cursor(device, inode, Power2(log.exponent), log.salts, n, SumsAfter(log, frames[..n]),
           if n == 0 then None else Some(frames[n - 1].commit))
  }

  ghost predicate Scanned(log: Log, frames: seq<Write>, device: int, inode: int, s: Scan)
    requires Writable(log, frames)
  {
    && s.running == SumsAfter(log, frames) && s.cursor == CursorOf(log, frames, device, inode)
    && s.commits == CommitCount(frames) && s.pendingFrames == |frames| - LastCommitted(frames)
    && DescriptorsOf(log, frames, s.pending) && DescriptorsOf(log, frames, s.committed)
  }

  /** A prefix of the frames is a prefix of the log. */
  lemma {:induction false} PrefixWritten(log: Log, frames: seq<Write>, m: nat, device: int, inode: int)
    requires Writable(log, frames) && m <= |frames|
    ensures Extends(FileOf(log, frames[..m], device, inode), FileOf(log, frames, device, inode))
    decreases |frames|
  {
    hide SumsAfter, FrameBytes, WritableLog, WritableFrame;
    if m == |frames| {
      assert frames[..m] == frames;
    } else {
      var front := frames[..|frames| - 1];
      PrefixWritten(log, front, m, device, inode);
      assert front[..m] == frames[..m];
    }
  }

  lemma Whole(log: Log, frames: seq<Write>, device: int, inode: int)
    requires Writable(log, frames)
    ensures var file, h := FileOf(log, frames, device, inode), HeaderOf(log);
            && PowerOfTwo(h.pageSize) && HEADER <= |file.bytes| && Extent(file, h) == |frames|
            && (|file.bytes| - HEADER) % FrameSize(h) == 0 && AllReadable(file, h, 0, |frames|)
  {
    hide Power2, Written, Readable, PowerOfTwo, SumsAfter, Extent, WritableLog, WritableFrame;
    PageSize(log);
    ExtentOf(FileOf(log, frames, device, inode), HeaderOf(log), |frames|);
    AllWithin(FileOf(log, frames, device, inode), HeaderOf(log), 0, |frames|);
  }

  lemma ExtentOf(file: WalFile, h: Header, n: nat)
    requires 0 < FrameSize(h) && |file.bytes| == HEADER + n * FrameSize(h)
    ensures Extent(file, h) == n && (|file.bytes| - HEADER) % FrameSize(h) == 0
  {
    Divides(n, FrameSize(h));
  }

  lemma Divides(n: nat, size: nat)
    requires 0 < size
    ensures n * size / size == n && n * size % size == 0
  {
    var x := n * size;
    Quotient(x / size, x % size, n, size);
  }

  lemma Quotient(q: int, r: int, n: int, size: int)
    requires 0 <= r < size && q * size + r == n * size
    ensures q == n && r == 0
  {
    var k := n - q;
    assert k * size == r;
    assert k >= 1 ==> k * size >= size;
    assert k <= -1 ==> k * size <= -size;
  }

  lemma LastRaw(log: Log, frames: seq<Write>, device: int, inode: int)
    requires Writable(log, frames) && frames != []
    ensures var file, h, n := FileOf(log, frames, device, inode), HeaderOf(log), |frames|;
            Readable(file, h, n) && Raw(file, h, n) == FrameBytes(log, frames[n - 1], SumsAfter(log, frames))
  {
    hide FrameBytes, SumsAfter, Power2, PowerOfTwo, Readable, Raw;
    Whole(log, frames, device, inode);
    var n := |frames|;
    RawAt(FileOf(log, frames, device, inode), HeaderOf(log), n, Written(log, frames[..n - 1]),
          FrameBytes(log, frames[n - 1], SumsAfter(log, frames)));
  }

  lemma RawAt(file: WalFile, h: Header, n: int, before: seq<byte>, raw: seq<byte>)
    requires Readable(file, h, n) && file.bytes == before + raw && |before| == Start(h, n) && |raw| == FrameSize(h)
    ensures Raw(file, h, n) == raw
  {
  }

  /** Descriptors of a shorter log describe the same frames of a longer one. */
  lemma DescriptorsStay(log: Log, frames: seq<Write>, m: map<int, Frame>)
    requires Writable(log, frames) && frames != [] && DescriptorsOf(log, frames[..|frames| - 1], m)
    ensures DescriptorsOf(log, frames, m)
  {
    hide SumsAfter, WritableLog, WritableFrame;
    var front := frames[..|frames| - 1];
    forall p | p in m ensures DescriptorOf(log, frames, m[p]) {
      var d := m[p];
      assert DescriptorOf(log, front, d);
      assert front[..d.number - 1] == frames[..d.number - 1] && front[..d.number] == frames[..d.number];
    }
  }

  lemma LastDescriptor(log: Log, frames: seq<Write>)
    requires Writable(log, frames) && frames != []
    ensures var n, w := |frames|, frames[|frames| - 1];
            DescriptorOf(log, frames, Frame(n, w.page, w.commit, SumsAfter(log, frames[..n - 1]), SumsAfter(log, frames)))
  {
    hide SumsAfter;
    assert frames[..|frames|] == frames;
  }

  /** What the last frame adds to a scan of those before it. */
  function Next(log: Log, frames: seq<Write>, s: Scan): Scan
    requires Writable(log, frames) && frames != []
  {
    var n, w, sums := |frames|, frames[|frames| - 1], SumsAfter(log, frames);
    var pending := s.pending[w.page := Frame(n, w.page, w.commit, s.running, sums)];
    if w.commit == 0 then s.(running := sums, pending := pending, pendingFrames := s.pendingFrames + 1)
    else Scan(sums, map[], s.committed + pending, 0, s.commits + 1,
              s.cursor.(pageSize := Power2(log.exponent), salts := log.salts, frame := n, checksum := sums, databasePages := Some(w.commit)))
  }

  lemma NextScanned(log: Log, frames: seq<Write>, device: int, inode: int, s: Scan)
    requires Writable(log, frames) && frames != [] && Scanned(log, frames[..|frames| - 1], device, inode, s)
    ensures Scanned(log, frames, device, inode, Next(log, frames, s))
  {
    hide SumsAfter, DescriptorOf, WritableLog, WritableFrame;
    var front, n := frames[..|frames| - 1], LastCommitted(frames);
    DescriptorsStay(log, frames, s.pending);
    DescriptorsStay(log, frames, s.committed);
    LastDescriptor(log, frames);
    assert frames[..|frames|] == frames;
    if n < |frames| { assert front[..n] == frames[..n]; }
  }

  lemma {:induction false} ScanReads(log: Log, frames: seq<Write>, device: int, inode: int)
    requires Writable(log, frames)
    ensures var file, h := FileOf(log, frames, device, inode), HeaderOf(log);
            && AllReadable(file, h, 0, |frames|) && ScanFrames(file, h, Resume(Origin(file, h)), 0, |frames|).Ok?
            && Scanned(log, frames, device, inode, ScanFrames(file, h, Resume(Origin(file, h)), 0, |frames|).value)
    decreases |frames|
  {
    hide SumsAfter, SumsOver, Written, Scanned, Take, Raw, FrameBytes, Readable, WritableLog, WritableFrame;
    Whole(log, frames, device, inode);
    var file, h := FileOf(log, frames, device, inode), HeaderOf(log);
    if frames == [] {
      NoneScanned(log, device, inode);
    } else {
      var front, n := frames[..|frames| - 1], |frames|;
      var short := FileOf(log, front, device, inode);
      ScanReads(log, front, device, inode);
      PrefixWritten(log, frames, n - 1, device, inode);
      ScanSame(short, file, h, Resume(Origin(file, h)), 0, n - 1);
      var s := ScanFrames(file, h, Resume(Origin(file, h)), 0, n - 1).value;
      LastRaw(log, frames, device, inode);
      LastTaken(log, frames, device, inode, s);
      NextScanned(log, frames, device, inode, s);
    }
  }

  lemma NoneScanned(log: Log, device: int, inode: int)
    requires WritableLog(log)
    ensures Scanned(log, [], device, inode, Resume(Cursor(device, inode, Power2(log.exponent), log.salts, 0, SumsAfter(log, []), None)))
  {
    hide SumsAfter, WritableLog;
    var none: seq<Write> := [];
    assert none[..0] == none;
  }

  lemma LastTaken(log: Log, frames: seq<Write>, device: int, inode: int, s: Scan)
    requires Writable(log, frames) && frames != [] && Scanned(log, frames[..|frames| - 1], device, inode, s)
    ensures PowerOfTwo(Power2(log.exponent))
    ensures Take(FrameBytes(log, frames[|frames| - 1], SumsAfter(log, frames)), |frames|, HeaderOf(log), s) == Ok(Next(log, frames, s))
  {
    hide SumsOver, Take, FrameBytes, Power2, PowerOfTwo, DescriptorOf;
    TakeReads(log, frames[|frames| - 1], |frames|, s, SumsAfter(log, frames), Next(log, frames, s));
  }

  /** Every frame of the log holds its page number and its body. */
  lemma FrameAt(log: Log, frames: seq<Write>, n: nat, device: int, inode: int)
    requires Writable(log, frames) && 0 < n <= |frames|
    ensures var file, h := FileOf(log, frames, device, inode), HeaderOf(log);
            Readable(file, h, n) && Big(Raw(file, h, n), 0) == frames[n - 1].page && Raw(file, h, n)[24..] == frames[n - 1].body
  {
    hide Be, Big, SumsAfter, SumsOver, Written, Readable, Raw, Power2;
    var some := frames[..n];
    var w, sums := frames[n - 1], SumsAfter(log, some);
    LastRaw(log, some, device, inode);
    PrefixWritten(log, frames, n, device, inode);
    RawSame(FileOf(log, some, device, inode), FileOf(log, frames, device, inode), HeaderOf(log), n);
    Six(FrameBytes(log, w, sums), w.page, w.commit, log.salts.0, log.salts.1, sums.0, sums.1, w.body);
  }

  // ---- Round trip ----

  /** Frame `k` is the last of the first `n` frames that writes page `p`. */
  ghost predicate LastWrite(frames: seq<Write>, n: nat, p: int, k: int)
    requires n <= |frames|
  {
    0 < k <= n && frames[k - 1].page == p && forall i :: k <= i < n ==> frames[i].page != p
  }

  /** The pages of a reading: each page written up to the last commit, at its last frame there. */
  ghost predicate PagesBack(log: Log, frames: seq<Write>, m: map<int, Frame>)
    requires Writable(log, frames)
  {
    var n := LastCommitted(frames);
    && (forall i :: 0 <= i < n ==> frames[i].page in m)
    && (forall p :: p in m ==> DescriptorOf(log, frames, m[p]) && LastWrite(frames, n, p, m[p].number))
  }

  /** A reading that says exactly what was written. */
  ghost predicate ReadsBack(log: Log, frames: seq<Write>, device: int, inode: int, c: Changes)
    requires Writable(log, frames)
  {
    && c.cursor == CursorOf(log, frames, device, inode) && c.commits == CommitCount(frames)
    && c.pendingFrames == |frames| - LastCommitted(frames) && c.framesRead == |frames|
    && c.bigEndian == log.big && c.after == None && c.pages == c.frames.Keys && PagesBack(log, frames, c.frames)
  }

  lemma CommittedPages(log: Log, frames: seq<Write>, device: int, inode: int)
    requires Writable(log, frames)
    requires AllReadable(FileOf(log, frames, device, inode), HeaderOf(log), 0, |frames|)
    requires var file, h := FileOf(log, frames, device, inode), HeaderOf(log);
             var s := ScanFrames(file, h, Resume(Origin(file, h)), 0, |frames|);
             s.Ok? && Scanned(log, frames, device, inode, s.value)
    ensures var file, h := FileOf(log, frames, device, inode), HeaderOf(log);
            PagesBack(log, frames, ScanFrames(file, h, Resume(Origin(file, h)), 0, |frames|).value.committed)
  {
    hide DescriptorOf, Describes, SumsAfter, Written, Raw, Readable, WritableLog, WritableFrame, ScanFrames;
    var file, h := FileOf(log, frames, device, inode), HeaderOf(log);
    ScanIndexes(file, h, Origin(file, h), |frames|);
    forall i: int | 0 < i <= |frames| ensures Readable(file, h, i) && PageOf(file, h, i) == frames[i - 1].page {
      FrameAt(log, frames, i, device, inode);
    }
    var m, n := ScanFrames(file, h, Resume(Origin(file, h)), 0, |frames|).value.committed, LastCommitted(frames);
    forall i | 0 <= i < n ensures frames[i].page in m { assert PageOf(file, h, i + 1) in m; }
    forall p | p in m ensures LastWrite(frames, n, p, m[p].number) {
      forall i | m[p].number <= i < n ensures frames[i].page != p { assert PageOf(file, h, i + 1) != p; }
    }
  }

  /** A scan of the first `m` frames of a log. */
  lemma ScanSome(log: Log, frames: seq<Write>, m: nat, device: int, inode: int)
    requires Writable(log, frames) && m <= |frames|
    ensures var file, h := FileOf(log, frames, device, inode), HeaderOf(log);
            && AllReadable(file, h, 0, m) && ScanFrames(file, h, Resume(Origin(file, h)), 0, m).Ok?
            && var s := ScanFrames(file, h, Resume(Origin(file, h)), 0, m).value;
               Scanned(log, frames[..m], device, inode, s) && PagesBack(log, frames[..m], s.committed)
  {
    hide SumsAfter, Written, Scanned, PagesBack, ScanFrames, Readable, WritableLog, WritableFrame;
    var some, file, h := frames[..m], FileOf(log, frames, device, inode), HeaderOf(log);
    ScanReads(log, some, device, inode);
    CommittedPages(log, some, device, inode);
    PrefixWritten(log, frames, m, device, inode);
    ScanSame(FileOf(log, some, device, inode), file, h, Resume(Origin(file, h)), 0, m);
  }

  lemma HeaderOfLog(log: Log, frames: seq<Write>, device: int, inode: int)
    requires Writable(log, frames)
    ensures ReadHeader(FileOf(log, frames, device, inode)) == Ok(HeaderOf(log))
  {
    hide ReadHeader, Written, SumsAfter, HeaderOf;
    HeaderReads(log, device, inode);
    PrefixWritten(log, frames, 0, device, inode);
    assert frames[..0] == [];
    HeaderSame(FileOf(log, [], device, inode), FileOf(log, frames, device, inode));
  }

  /** The first `m` frames end a transaction, or there are none. */
  predicate EndsCommitted(frames: seq<Write>, m: nat)
    requires m <= |frames|
  {
    m == 0 || frames[m - 1].commit != 0
  }

  lemma EndsAt(frames: seq<Write>, m: nat)
    requires m <= |frames|
    ensures EndsCommitted(frames, m) <==> LastCommitted(frames[..m]) == m
  {
  }

  /**
   A log in either word order, of any page size, salts and frames, is read whenever its bound is the end of the log or of a
   transaction, and within the frame limit; the reading says exactly what was written up to the bound.
   */
  lemma LogRoundTrip(log: Log, frames: seq<Write>, device: int, inode: int, limit: Option<int>, through: Option<int>)
    requires Writable(log, frames)
    ensures var r := Read(FileOf(log, frames, device, inode), None, limit, through);
            var m := if through.Some? then through.value else |frames|;
            && (r.Ok? <==> 0 <= m <= |frames| && (limit.Some? ==> m <= limit.value) && (through.Some? ==> EndsCommitted(frames, m)))
            && (r.Ok? ==> ReadsBack(log, frames[..m], device, inode, r.value))
  {
    hide SumsAfter, Written, PagesBack, ScanFrames, ReadHeader, Extent, Readable, WritableLog, WritableFrame, EndsCommitted;
    HeaderOfLog(log, frames, device, inode);
    Whole(log, frames, device, inode);
    var m := if through.Some? then through.value else |frames|;
    if 0 <= m <= |frames| {
      ScanSome(log, frames, m, device, inode);
      EndsAt(frames, m);
    }
  }

  /** Each committed page is then read as the body last committed, however much the log has grown. */
  lemma BodiesBack(log: Log, frames: seq<Write>, file: WalFile, limit: Option<int>, through: Option<int>, p: int)
    requires Writable(log, frames) && Extends(FileOf(log, frames, file.device, file.inode), file)
    requires Read(FileOf(log, frames, file.device, file.inode), None, limit, through).Ok?
    requires p in Read(FileOf(log, frames, file.device, file.inode), None, limit, through).value.frames
    ensures var c := Read(FileOf(log, frames, file.device, file.inode), None, limit, through).value;
            var k := c.frames[p].number;
            0 <= c.cursor.frame <= |frames| && LastWrite(frames, c.cursor.frame, p, k) && ReadPage(file, c, p) == Ok(frames[k - 1].body)
  {
    hide Read, ReadPage, SumsAfter, Written, Raw, Readable, WritableLog, WritableFrame, DescriptorOf, ReadHeader;
    var short := FileOf(log, frames, file.device, file.inode);
    LogRoundTrip(log, frames, file.device, file.inode, limit, through);
    ReadPageIsLastFrame(short, file, None, limit, through, p);
    HeaderOfLog(log, frames, file.device, file.inode);
    FrameAt(log, frames, Read(short, None, limit, through).value.frames[p].number, file.device, file.inode);
  }

  // ---- Only written logs are read ----

  lemma SixBack(data: seq<byte>)
    requires 24 <= |data|
    ensures data[..24] == Be(Big(data, 0)) + Be(Big(data, 4)) + Be(Big(data, 8)) + Be(Big(data, 12)) + Be(Big(data, 16)) + Be(Big(data, 20))
    ensures data[..8] == Be(Big(data, 0)) + Be(Big(data, 4))
  {
    hide Be, Big;
    BigBe(data, 0);
    BigBe(data, 4);
    BigBe(data, 8);
    BigBe(data, 12);
    BigBe(data, 16);
    BigBe(data, 20);
  }

  lemma Exponent(n: int) returns (e: nat)
    requires PowerOfTwo(n)
    ensures 9 <= e <= 16 && Power2(e) == n
  {
    assert Power2(4) == 16 && Power2(8) == 256 && Power2(12) == 4096;
    e :| e in {9, 10, 11, 12, 13, 14, 15, 16} && Power2(e) == n;
  }

  /** An accepted header is that of a log. */
  lemma HeaderWritten(file: WalFile) returns (log: Log)
    requires ReadHeader(file).Ok?
    ensures WritableLog(log) && ReadHeader(file).value == HeaderOf(log) && Written(log, []) == file.bytes[..32]
  {
    hide Be, Big, Fold, Sums, Pairs, Power2, PowerOfTwo;
    var b := file.bytes;
    var e := Exponent(Big(b, 8));
    log := Log(Big(b, 0) == 0x377F0683, e, Big(b, 12), (Big(b, 16), Big(b, 20)));
    SixBack(b);
    BigBe(b, 24);
    BigBe(b, 28);
    PageSize(log);
    assert Head(log) == b[..24];
    FoldSums(Head(log), log.big, (0, 0));
    assert b[..32] == b[..24] + b[24..28] + b[28..32];
  }

  /** An accepted frame is that of a write. */
  lemma FrameWritten(log: Log, raw: seq<byte>, n: int, s: Scan) returns (w: Write)
    requires WritableLog(log) && PowerOfTwo(Power2(log.exponent)) && |raw| == 24 + Power2(log.exponent)
    requires Take(raw, n, HeaderOf(log), s).Ok? && Word32(s.running.0) && Word32(s.running.1)
    ensures WritableFrame(log, w) && Take(raw, n, HeaderOf(log), s).value.running == SumsOver(log, w, s.running)
    ensures raw == FrameBytes(log, w, SumsOver(log, w, s.running))
  {
    hide Be, Big, Fold, SumsOver, SumsAfter, Power2, PowerOfTwo;
    w := Write(Big(raw, 0), Big(raw, 4), raw[24..]);
    SixBack(raw);
    FrameSums(log, w, s.running, raw);
    assert raw == raw[..24] + raw[24..];
  }

  lemma {:induction false} FramesWritten(file: WalFile, log: Log, n: nat) returns (frames: seq<Write>)
    requires ReadHeader(file).Ok? && WritableLog(log) && ReadHeader(file).value == HeaderOf(log) && Written(log, []) == file.bytes[..32]
    requires var h := HeaderOf(log);
             AllReadable(file, h, 0, n) && ScanFrames(file, h, Resume(Origin(file, h)), 0, n).Ok?
    ensures Writable(log, frames) && |frames| == n && Written(log, frames) <= file.bytes
    ensures var h := HeaderOf(log);
            ScanFrames(file, h, Resume(Origin(file, h)), 0, n).value.running == SumsAfter(log, frames)
    decreases n
  {
    hide SumsOver, FrameBytes, Take, Readable, ReadHeader, Power2, PowerOfTwo, WritableFrame, WritableLog;
    if n == 0 {
      frames := [];
    } else {
      var h := HeaderOf(log);
      assert Readable(file, h, n);
      var front := FramesWritten(file, log, n - 1);
      var s := ScanFrames(file, h, Resume(Origin(file, h)), 0, n - 1).value;
      PageSize(log);
      var w := FrameWritten(log, Raw(file, h, n), n, s);
      frames := front + [w];
      assert frames[..n - 1] == front;
      FollowedBy(file, h, n, Written(log, front), Written(log, frames), Raw(file, h, n));
    }
  }

  lemma FollowedBy(file: WalFile, h: Header, n: int, before: seq<byte>, after: seq<byte>, raw: seq<byte>)
    requires Readable(file, h, n) && before <= file.bytes && |before| == Start(h, n) && raw == Raw(file, h, n) && after == before + raw
    ensures after <= file.bytes
  {
  }

  /** Whatever is read from its beginning was written: the bytes up to the bound are those of a log of that many frames. */
  lemma OnlyWritten(file: WalFile, limit: Option<int>, through: Option<int>) returns (log: Log, frames: seq<Write>)
    requires Read(file, None, limit, through).Ok?
    ensures Writable(log, frames) && Extends(FileOf(log, frames, file.device, file.inode), file)
    ensures |frames| == Read(file, None, limit, through).value.framesRead
    ensures through == None ==> file.bytes == Written(log, frames)
  {
    hide ReadHeader, Written, ScanFrames, SumsAfter, WritableLog;
    log := HeaderWritten(file);
    var h := HeaderOf(log);
    ReadScans(file, None, limit, through);
    frames := FramesWritten(file, log, Bound(file, h, through).value);
    if through == None { WholeFrames(file, h, |frames|); }
  }

  lemma WholeFrames(file: WalFile, h: Header, n: int)
    requires 0 < FrameSize(h) && (|file.bytes| - HEADER) % FrameSize(h) == 0 && Extent(file, h) == n
    ensures |file.bytes| == HEADER + n * FrameSize(h)
  {
  }

  // ---- Fixed logs ----

  lemma Three(b: seq<byte>, big: bool, s: (int, int))
    requires |b| == 24 && Word32(s.0) && Word32(s.1)
    ensures Sums(Pairs(b, big), s) == Add(FirstPair(b[16..], big), Add(FirstPair(b[8..], big), Add(FirstPair(b, big), s)))
  {
    hide Add, FirstPair;
    var x, y := b[8..], b[16..];
    assert x[8..] == y && y[8..] == [];
    assert Pairs(y, big) == [FirstPair(y, big)] && Pairs(x, big) == [FirstPair(x, big)] + Pairs(y, big);
    SumsFrom(FirstPair(b, big), Pairs(x, big), s);
    SumsFrom(FirstPair(x, big), Pairs(y, big), Add(FirstPair(b, big), s));
    SumsFrom(FirstPair(y, big), [], Add(FirstPair(x, big), Add(FirstPair(b, big), s)));
  }

  lemma SumsFrom(pair: (int, int), rest: seq<(int, int)>, s: (int, int))
    requires Word32(s.0) && Word32(s.1)
    ensures Sums([pair] + rest, s) == Sums(rest, Add(pair, s))
  {
    hide Add;
    assert ([pair] + rest)[1..] == rest;
  }

  /** A header with little-endian words: page size 4096, sequence 0, salts 1 and 2. */
  lemma LittleHeader(device: int, inode: int)
    ensures var bytes: seq<byte> :=
              [0x37, 0x7F, 6, 0x82, 0, 0x2D, 0xE2, 0x18, 0, 0, 0x10, 0, 0, 0, 0, 0, 0, 0, 0, 1, 0, 0, 0, 2]
              + [0xD5, 0xE7, 3, 0x13, 0x8F, 0xCE, 0xDA, 0xB8];
            && Written(Log(false, 12, 0, (1, 2)), []) == bytes
            && ReadHeader(WalFile(device, inode, bytes)) == Ok(Header(4096, false, (1, 2), (0xD5E70313, 0x8FCEDAB8)))
  {
    hide ReadHeader, Head, Sums, Pairs, Power2, Be, Add, FirstPair, Fold, Big;
    var log := Log(false, 12, 0, (1, 2));
    HeaderReads(log, device, inode);
    LittleHeaderHead(log);
    Three(Head(log), false, (0, 0));
    LittleHeaderSums(Head(log));
    LittleHeaderEnds();
  }

  lemma LittleHeaderHead(log: Log)
    requires log == Log(false, 12, 0, (1, 2))
    ensures Power2(12) == 4096 && Head(log) == [0x37, 0x7F, 6, 0x82, 0, 0x2D, 0xE2, 0x18, 0, 0, 0x10, 0, 0, 0, 0, 0, 0, 0, 0, 1, 0, 0, 0, 2]
  {
    assert Power2(4) == 16 && Power2(8) == 256;
  }

  lemma LittleHeaderEnds()
    ensures Be(0xD5E70313) + Be(0x8FCEDAB8) == [0xD5, 0xE7, 3, 0x13, 0x8F, 0xCE, 0xDA, 0xB8]
  {
    assert 0xD5E70313 / 256 == 0xD5E703 && 0xD5E703 / 256 == 0xD5E7 && 0xD5E7 / 256 == 0xD5;
    assert 0x8FCEDAB8 / 256 == 0x8FCEDA && 0x8FCEDA / 256 == 0x8FCE && 0x8FCE / 256 == 0x8F;
  }

  lemma LittleHeaderSums(b: seq<byte>)
    requires b == [0x37, 0x7F, 6, 0x82, 0, 0x2D, 0xE2, 0x18, 0, 0, 0x10, 0, 0, 0, 0, 0, 0, 0, 0, 1, 0, 0, 0, 2]
    ensures Add(FirstPair(b[16..], false), Add(FirstPair(b[8..], false), Add(FirstPair(b, false), (0, 0)))) == (0xD5E70313, 0x8FCEDAB8)
  {
    assert FirstPair(b, false) == (0x82067F37, 0x18E22D00);
    assert FirstPair(b[8..], false) == (0x100000, 0);
    assert FirstPair(b[16..], false) == (0x1000000, 0x2000000);
    assert Add((0x82067F37, 0x18E22D00), (0, 0)) == (0x82067F37, 0x9AE8AC37);
    assert Add((0x100000, 0), (0x82067F37, 0x9AE8AC37)) == (0x1CFF2B6E, 0xB7E7D7A5);
  }

  /** The same header with big-endian words. */
  lemma BigHeader(device: int, inode: int)
    ensures var bytes: seq<byte> :=
              [0x37, 0x7F, 6, 0x83, 0, 0x2D, 0xE2, 0x18, 0, 0, 0x10, 0, 0, 0, 0, 0, 0, 0, 0, 1, 0, 0, 0, 2]
              + [0x16, 4, 0xE6, 0xD8, 0xBC, 0xDD, 0xCE, 0x93];
            && Written(Log(true, 12, 0, (1, 2)), []) == bytes
            && ReadHeader(WalFile(device, inode, bytes)) == Ok(Header(4096, true, (1, 2), (0x1604E6D8, 0xBCDDCE93)))
  {
    hide ReadHeader, Head, Sums, Pairs, Power2, Be, Add, FirstPair, Fold, Big;
    var log := Log(true, 12, 0, (1, 2));
    HeaderReads(log, device, inode);
    BigHeaderHead(log);
    Three(Head(log), true, (0, 0));
    BigHeaderSums(Head(log));
    BigHeaderEnds();
  }

  lemma BigHeaderHead(log: Log)
    requires log == Log(true, 12, 0, (1, 2))
    ensures Power2(12) == 4096 && Head(log) == [0x37, 0x7F, 6, 0x83, 0, 0x2D, 0xE2, 0x18, 0, 0, 0x10, 0, 0, 0, 0, 0, 0, 0, 0, 1, 0, 0, 0, 2]
  {
    assert Power2(4) == 16 && Power2(8) == 256;
  }

  lemma BigHeaderEnds()
    ensures Be(0x1604E6D8) + Be(0xBCDDCE93) == [0x16, 4, 0xE6, 0xD8, 0xBC, 0xDD, 0xCE, 0x93]
  {
    assert 0x1604E6D8 / 256 == 0x1604E6 && 0x1604E6 / 256 == 0x1604 && 0x1604 / 256 == 0x16;
    assert 0xBCDDCE93 / 256 == 0xBCDDCE && 0xBCDDCE / 256 == 0xBCDD && 0xBCDD / 256 == 0xBC;
  }

  lemma BigHeaderSums(b: seq<byte>)
    requires b == [0x37, 0x7F, 6, 0x83, 0, 0x2D, 0xE2, 0x18, 0, 0, 0x10, 0, 0, 0, 0, 0, 0, 0, 0, 1, 0, 0, 0, 2]
    ensures Add(FirstPair(b[16..], true), Add(FirstPair(b[8..], true), Add(FirstPair(b, true), (0, 0)))) == (0x1604E6D8, 0xBCDDCE93)
  {
    assert FirstPair(b, true) == (0x377F0683, 0x2DE218);
    assert FirstPair(b[8..], true) == (0x1000, 0);
    assert FirstPair(b[16..], true) == (1, 2);
    assert Add((0x377F0683, 0x2DE218), (0, 0)) == (0x377F0683, 0x37ACE89B);
    assert Add((0x1000, 0), (0x377F0683, 0x37ACE89B)) == (0x6F2BFF1E, 0xA6D8E7B9);
  }
}
