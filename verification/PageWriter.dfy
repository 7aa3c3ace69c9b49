/**
 Table B-tree pages as the format lays them out (SQLite "Database File Format", section 1.6), stated on its own: the decoder
 accepts exactly these pages and returns what they hold.
 */
module PageWriter {
  import opened Wrappers
  import opened Bytes
  import opened Ranges
  import opened Varint
  import opened Pages

  // ---- Variable-length integers ----

  /** Seven bits a byte, most significant first. */
  function Septets(code: seq<byte>): nat {
    if code == [] then 0 else Septets(code[..|code| - 1]) * 128 + code[|code| - 1] as int % 128
  }

  /** One to nine bytes: every byte but the last has its top bit set, and a ninth byte counts with all eight bits. */
  ghost predicate CodeOf(code: seq<byte>, v: nat) {
    && 1 <= |code| <= 9 && (forall i :: 0 <= i < |code| - 1 ==> 128 <= code[i])
    && (if |code| < 9 then code[|code| - 1] < 128 && v == Septets(code) else v == Septets(code[..8]) * 256 + code[8] as int)
  }

  /** One more byte with its top bit set. */
  lemma Onward(data: seq<byte>, at: nat, end: int, i: nat, value: nat)
    requires at < end <= |data| && i < 8 && 128 <= data[at]
    ensures DecodeFrom(data, at, end, i, value) == DecodeFrom(data, at + 1, end, i + 1, value * 128 + data[at] as int % 128)
  {
  }

  /** The last byte: one without its top bit, or a ninth. */
  lemma Closed(data: seq<byte>, at: nat, end: int, i: nat, value: nat)
    requires at < end <= |data| && i <= 8 && (i < 8 ==> data[at] < 128)
    ensures DecodeFrom(data, at, end, i, value) == Ok((if i < 8 then value * 128 + data[at] as int else value * 256 + data[at] as int, at + 1))
  {
  }

  lemma Truncated(data: seq<byte>, at: nat, end: int, i: nat, value: nat)
    requires end <= |data| && i <= 8 && DecodeFrom(data, at, end, i, value).Ok?
    ensures at < end
  {
  }

  lemma Septet(code: seq<byte>, n: nat)
    requires n < |code|
    ensures Septets(code[..n + 1]) == Septets(code[..n]) * 128 + code[n] as int % 128
  {
    var some := code[..n + 1];
    assert some[..n] == code[..n];
  }

  /** The decoder after some bytes with their top bit set. */
  lemma {:induction false} DecodeContinues(data: seq<byte>, at: nat, end: int, n: nat)
    requires end <= |data| && n <= 8 && at + n <= end && forall i :: at <= i < at + n ==> 128 <= data[i]
    ensures DecodeFrom(data, at, end, 0, 0) == DecodeFrom(data, at + n, end, n, Septets(data[at..][..n]))
  {
    hide DecodeFrom, Septets;
    if n > 0 {
      DecodeContinues(data, at, end, n - 1);
      Onward(data, at + n - 1, end, n - 1, Septets(data[at..][..n - 1]));
      Septet(data[at..], n - 1);
    } else {
      NoSeptets(data[at..]);
    }
  }

  lemma NoSeptets(code: seq<byte>)
    ensures Septets(code[..0]) == 0
  {
  }

  /** Every code of a number decodes to it. */
  lemma DecodeCode(data: seq<byte>, at: nat, end: int, code: seq<byte>, v: nat)
    requires end <= |data| && CodeOf(code, v) && at + |code| <= end && data[at..at + |code|] == code
    ensures DecodeFrom(data, at, end, 0, 0) == Ok((v, at + |code|))
  {
    hide DecodeFrom, Septets;
    var n := |code| - 1;
    forall i | at <= i < at + n ensures 128 <= data[i] { assert data[i] == code[i - at]; }
    DecodeContinues(data, at, end, n);
    assert data[at..][..n] == code[..n] && data[at + n] == code[n];
    Closed(data, at + n, end, n, Septets(code[..n]));
    Septet(code, n);
    assert code[..n + 1] == code;
  }

  /** Whatever decodes is a code. */
  lemma CodeDecoded(data: seq<byte>, at: nat, end: int)
    requires end <= |data| && DecodeFrom(data, at, end, 0, 0).Ok?
    ensures var (v, next) := DecodeFrom(data, at, end, 0, 0).value;
            at < next <= end && CodeOf(data[at..next], v)
  {
    DecodedAfter(data, at, end, 0);
  }

  lemma {:induction false} DecodedAfter(data: seq<byte>, at: nat, end: int, n: nat)
    requires end <= |data| && n <= 8 && at + n <= end && (forall i :: at <= i < at + n ==> 128 <= data[i])
    requires DecodeFrom(data, at, end, 0, 0).Ok?
    ensures var (v, next) := DecodeFrom(data, at, end, 0, 0).value;
            at < next <= end && CodeOf(data[at..next], v)
    decreases 8 - n
  {
    hide DecodeFrom, Septets;
    DecodeContinues(data, at, end, n);
    var value := Septets(data[at..][..n]);
    Truncated(data, at + n, end, n, value);
    if n < 8 && 128 <= data[at + n] {
      DecodedAfter(data, at, end, n + 1);
    } else {
      Closed(data, at + n, end, n, value);
      Septet(data[at..], n);
      var code := data[at..at + n + 1];
      assert code[..n] == data[at..][..n] && code == data[at..][..n + 1];
    }
  }

  /** The shortest encoding is a code. */
  lemma EncodeIsCode(v: nat)
    requires v < TWO_64
    ensures CodeOf(Encode(v), v)
  {
    var code := Encode(v);
    assert code[0..|code|] == code;
    DecodeEncode(code, 0, |code|, v);
    CodeDecoded(code, 0, |code|);
  }

  /** A code of a signed 64-bit number, as two's complement. */
  ghost predicate CodeOfId(code: seq<byte>, id: int) {
    -0x8000_0000_0000_0000 <= id < 0x8000_0000_0000_0000 && CodeOf(code, if id < 0 then id + 0x1_0000_0000_0000_0000 else id)
  }

  lemma {:induction false} SeptetsBound(code: seq<byte>)
    ensures Septets(code) < Power128(|code|)
  {
    if code != [] { SeptetsBound(code[..|code| - 1]); }
  }

  /** Codes are 64-bit numbers, and each is the code of the id that the decoder makes of it. */
  lemma CodeIsId(code: seq<byte>, v: nat)
    requires CodeOf(code, v)
    ensures CodeOfId(code, RowId(v))
  {
    assert Power128(8) == 0x100_0000_0000_0000 by { assert Power128(4) == 0x1000_0000; }
    if |code| < 9 {
      SeptetsBound(code);
      PowerGrows(|code|);
    } else {
      SeptetsBound(code[..8]);
    }
  }

  lemma {:induction false} PowerGrows(n: nat)
    requires n <= 8
    ensures Power128(n) <= Power128(8)
    decreases 8 - n
  {
    if n < 8 { PowerGrows(n + 1); }
  }

  // ---- The page format ----

  type PageNumber = n: int | Word32(n)

  /** A leaf row: its id and payload size with the codes they are written as, the payload kept on the page, the overflow page. */
  datatype Row = Row(rowId: int, idCode: seq<byte>, payload: nat, sizeCode: seq<byte>, local: seq<byte>, overflow: PageNumber)

  /** An entry of an interior page: a left child and the greatest row id below it. */
  datatype Entry = Entry(child: PageNumber, key: int, keyCode: seq<byte>)

  /** The payload bytes kept on a leaf. */
  function Kept(payload: nat, usable: nat): int
    requires 480 <= usable
  {
    var x := usable - 35;
    var m := (usable - 12) * 32 / 255 - 23;
    var k := m + (payload - m) % (usable - 4);
    if payload <= x then payload else if k <= x then k else m
  }

  function RowBytes(r: Row): seq<byte> {
    r.sizeCode + r.idCode + r.local + if |r.local| < r.payload then Be(r.overflow) else []
  }

  ghost predicate GoodRow(r: Row, usable: nat, pageCount: int)
    requires 480 <= usable
  {
    && CodeOf(r.sizeCode, r.payload) && CodeOfId(r.idCode, r.rowId)
    && |r.local| == Kept(r.payload, usable) && r.payload <= pageCount * (usable - 4)
    && (|r.local| < r.payload ==> 1 < r.overflow <= pageCount)
  }

  function EntryBytes(e: Entry): seq<byte> {
    Be(e.child) + e.keyCode
  }

  /** The page header, up to the cell pointers; the content begins at `area`, and 0 stands for 65536. */
  predicate Headed(data: seq<byte>, start: nat, kind: byte, size: nat, count: nat, area: nat, usable: nat) {
    && start + 8 <= |data| && data[start] == kind && count < 0x1_0000 && data[start + 3..start + 5] == Be16(count)
    && 0 < area <= 0x1_0000 && data[start + 5..start + 7] == Be16(area % 0x1_0000) && data[start + 7] <= 60
    && start + size + 2 * count <= area <= usable
  }

  /** Cell pointer `i` leads to these bytes inside the content area. */
  predicate Lies(data: seq<byte>, pointers: nat, i: nat, place: nat, bytes: seq<byte>, area: nat, usable: nat) {
    && place < 0x1_0000 && pointers + 2 * i + 2 <= |data| && data[pointers + 2 * i..pointers + 2 * i + 2] == Be16(place)
    && area <= place && place + |bytes| <= usable <= |data| && data[place..place + |bytes|] == bytes
  }

  /** No two cells share a byte. */
  predicate Apart(places: seq<nat>, cells: seq<seq<byte>>)
    requires |places| == |cells|
  {
    forall i, j :: 0 <= i < j < |places| ==> places[i] + |cells[i]| <= places[j] || places[j] + |cells[j]| <= places[i]
  }

  /** Cells placed anywhere in the content area, in any order, with pointers to them in key order. */
  predicate Placed(data: seq<byte>, pointers: nat, places: seq<nat>, cells: seq<seq<byte>>, area: nat, usable: nat) {
    && |places| == |cells| && (forall i :: 0 <= i < |cells| ==> Lies(data, pointers, i, places[i], cells[i], area, usable))
    && Apart(places, cells)
  }

  /** Where the B-tree header of a page begins. */
  function HeaderAt(page: int): nat {
    if page == 1 then 100 else 0
  }

  function AllRowBytes(rows: seq<Row>): (r: seq<seq<byte>>)
    ensures |r| == |rows| && forall i :: 0 <= i < |rows| ==> r[i] == RowBytes(rows[i])
  {
    seq(|rows|, i requires 0 <= i < |rows| => RowBytes(rows[i]))
  }

  function AllEntryBytes(entries: seq<Entry>): (r: seq<seq<byte>>)
    ensures |r| == |entries| && forall i :: 0 <= i < |entries| ==> r[i] == EntryBytes(entries[i])
  {
    seq(|entries|, i requires 0 <= i < |entries| => EntryBytes(entries[i]))
  }

  /** A table leaf. */
  ghost predicate LeafPage(data: seq<byte>, page: int, usable: nat, pageCount: int, area: nat, rows: seq<Row>, places: seq<nat>)
    requires 480 <= usable
  {
    && 1 <= page <= pageCount && usable <= |data| && Headed(data, HeaderAt(page), 13, 8, |rows|, area, usable)
    && Placed(data, HeaderAt(page) + 8, places, AllRowBytes(rows), area, usable)
    && (forall i :: 0 <= i < |rows| ==> GoodRow(rows[i], usable, pageCount))
    && (forall i, j :: 0 <= i < j < |rows| ==> rows[i].rowId < rows[j].rowId)
  }

  function ChildrenOf(entries: seq<Entry>, right: int): (r: seq<int>)
    ensures |r| == |entries| + 1
  {
    seq(|entries|, i requires 0 <= i < |entries| => entries[i].child as int) + [right]
  }

  /** A table interior page; its right-most child is in the header. */
  ghost predicate InteriorPage(data: seq<byte>, page: int, usable: nat, pageCount: int, area: nat, entries: seq<Entry>, right: PageNumber,
                               places: seq<nat>)
    requires 480 <= usable
  {
    && 1 <= page <= pageCount && usable <= |data| && Headed(data, HeaderAt(page), 5, 12, |entries|, area, usable)
    && data[HeaderAt(page) + 8..HeaderAt(page) + 12] == Be(right)
    && Placed(data, HeaderAt(page) + 12, places, AllEntryBytes(entries), area, usable)
    && (forall i :: 0 <= i < |entries| ==> CodeOfId(entries[i].keyCode, entries[i].key))
    && (forall i, j :: 0 <= i < j < |entries| ==> entries[i].key < entries[j].key)
    && GoodLinks(ChildrenOf(entries, right), page, pageCount)
  }

  /** Children are distinct other pages of the image, and none is page 1. */
  predicate GoodLinks(children: seq<int>, page: int, pageCount: int) {
    && (forall i :: 0 <= i < |children| ==> 2 <= children[i] <= pageCount && children[i] != page)
    && (forall i, j :: 0 <= i < j < |children| ==> children[i] != children[j])
  }

  /** What a leaf says of a row. */
  function CellOf(r: Row): Cell {
    Cell(r.rowId, r.payload, |r.local|, if |r.local| < r.payload then Some(r.overflow as int) else None)
  }

  function LeafTree(page: int, rows: seq<Row>): TreePage {
    TreePage(page, [], seq(|rows|, i requires 0 <= i < |rows| => CellOf(rows[i])), [])
  }

  function InteriorTree(page: int, entries: seq<Entry>, right: PageNumber): TreePage {
    TreePage(page, ChildrenOf(entries, right), [], seq(|entries|, i requires 0 <= i < |entries| => entries[i].key))
  }

  // ---- Written pages are read back ----

  lemma HeadReads(data: seq<byte>, page: int, kind: byte, size: nat, count: nat, area: nat, usable: nat)
    requires 480 <= usable <= |data| && Headed(data, HeaderAt(page), kind, size, count, area, usable)
    requires (kind == 5 && size == 12) || (kind == 13 && size == 8)
    ensures ReadLayout(data, page, usable) == Ok(Layout(HeaderAt(page), kind == 5, count, area))
  {
    hide Be16, Big16;
    Be16Big(data, HeaderAt(page) + 3, count);
    Be16Big(data, HeaderAt(page) + 5, area % 0x1_0000);
  }

  /** The bytes of a cell, one field after another. */
  lemma RowParts(data: seq<byte>, at: nat, r: Row)
    requires at + |RowBytes(r)| <= |data| && data[at..at + |RowBytes(r)|] == RowBytes(r)
    ensures var a, b := at + |r.sizeCode|, at + |r.sizeCode| + |r.idCode|;
            && data[at..a] == r.sizeCode && data[a..b] == r.idCode && data[b..b + |r.local|] == r.local
            && (|r.local| < r.payload ==> data[b + |r.local|..b + |r.local| + 4] == Be(r.overflow))
  {
    hide Be;
    var link := if |r.local| < r.payload then Be(r.overflow) else [];
    FourParts(r.sizeCode, r.idCode, r.local, link);
    var a, b, n := |r.sizeCode|, |r.sizeCode| + |r.idCode|, |RowBytes(r)|;
    Slice(data, at, n, 0, a);
    Slice(data, at, n, a, b);
    Slice(data, at, n, b, b + |r.local|);
    Slice(data, at, n, b + |r.local|, n);
  }

  lemma FourParts(a: seq<byte>, b: seq<byte>, c: seq<byte>, d: seq<byte>)
    ensures var x := a + b + c + d;
            && x[0..|a|] == a && x[|a|..|a| + |b|] == b && x[|a| + |b|..|a| + |b| + |c|] == c
            && x[|a| + |b| + |c|..|x|] == d
  {
  }

  lemma Slice(data: seq<byte>, at: nat, n: nat, i: nat, j: nat)
    requires i <= j <= n && at + n <= |data|
    ensures data[at + i..at + j] == data[at..at + n][i..j]
  {
    var x, y := data[at + i..at + j], data[at..at + n][i..j];
    assert |x| == |y| && forall k :: 0 <= k < |x| ==> x[k] == y[k];
  }

  lemma KeptLocal(payload: nat, usable: nat)
    requires 480 <= usable
    ensures Kept(payload, usable) == LocalSize(payload, usable) && 0 <= Kept(payload, usable) <= payload
  {
    LocalBounds(payload, usable);
  }

  lemma RowSizes(r: Row, usable: nat, pageCount: int)
    requires 480 <= usable && GoodRow(r, usable, pageCount)
    ensures 0 < |r.sizeCode| && |RowBytes(r)| == |r.sizeCode| + |r.idCode| + |r.local| + if |r.local| < r.payload then 4 else 0
  {
    hide Kept, Septets;
  }

  lemma RowReads(data: seq<byte>, at: nat, usable: nat, pageCount: int, r: Row)
    requires 480 <= usable <= |data| && GoodRow(r, usable, pageCount)
    requires at + |RowBytes(r)| <= usable && data[at..at + |RowBytes(r)|] == RowBytes(r)
    ensures at < usable && 0 < |RowBytes(r)|
    ensures ReadLeaf(data, at, usable) == Ok(CellRead(None, Some(CellOf(r)), r.rowId, (at, at + |RowBytes(r)|)))
    ensures CellFits(CellOf(r), usable, pageCount)
  {
    hide Be, Big, DecodeFrom, Septets, Kept, LocalSize, CodeOf;
    RowSizes(r, usable, pageCount);
    KeptLocal(r.payload, usable);
    RowParts(data, at, r);
    var a, b := at + |r.sizeCode|, at + |r.sizeCode| + |r.idCode|;
    DecodeCode(data, at, usable, r.sizeCode, r.payload);
    DecodeCode(data, a, usable, r.idCode, if r.rowId < 0 then r.rowId + 0x1_0000_0000_0000_0000 else r.rowId);
    if |r.local| < r.payload { BeBig(data, b + |r.local|, r.overflow); }
  }

  lemma EntryReads(data: seq<byte>, at: nat, usable: nat, e: Entry)
    requires 480 <= usable <= |data| && CodeOfId(e.keyCode, e.key)
    requires at + |EntryBytes(e)| <= usable && data[at..at + |EntryBytes(e)|] == EntryBytes(e)
    ensures at < usable && 0 < |EntryBytes(e)|
    ensures ReadInterior(data, at, usable) == Ok(CellRead(Some(e.child), None, e.key, (at, at + |EntryBytes(e)|)))
  {
    hide Be, Big, DecodeFrom, Septets;
    var x := data[at..at + |EntryBytes(e)|];
    assert data[at..at + 4] == x[..4] && data[at + 4..at + 4 + |e.keyCode|] == x[4..];
    BeBig(data, at, e.child);
    DecodeCode(data, at + 4, usable, e.keyCode, if e.key < 0 then e.key + 0x1_0000_0000_0000_0000 else e.key);
  }

  /** Every cell pointer reads as given. */
  ghost predicate Reads(data: seq<byte>, l: Layout, usable: nat, pageCount: int, seen: seq<CellRead>)
    requires 480 <= usable <= |data| && PointersEnd(l) <= usable && |seen| <= l.count
  {
    forall i :: 0 <= i < |seen| ==>
      ReadCell(data, l, i, usable) == Ok(seen[i]) && (seen[i].cell.Some? ==> CellFits(seen[i].cell.value, usable, pageCount))
  }

  lemma {:induction false} ReadsAll(data: seq<byte>, l: Layout, usable: nat, pageCount: int, seen: seq<CellRead>)
    requires 480 <= usable <= |data| && PointersEnd(l) <= usable && |seen| <= l.count && Reads(data, l, usable, pageCount, seen)
    ensures ReadCells(data, l, |seen|, usable, pageCount) == Ok(seen)
    decreases |seen|
  {
    hide ReadCell, CellFits;
    if seen != [] {
      var front := seen[..|seen| - 1];
      ReadsAll(data, l, usable, pageCount, front);
      assert seen == front + [seen[|seen| - 1]];
    }
  }

  /** The other half of the overlap test: extents that share no byte pass it, in whatever order they are listed. */
  lemma ApartPacked(extents: seq<Range>, previous: int)
    requires forall i :: 0 <= i < |extents| ==> previous <= extents[i].0 < extents[i].1
    requires forall i, j :: 0 <= i < j < |extents| ==> extents[i].1 <= extents[j].0 || extents[j].1 <= extents[i].0
    ensures Packed(Sorted(extents), previous)
  {
    hide Sorted, Packed, Covered;
    var sorted := Sorted(extents);
    SortedCovers(extents);
    forall i, j | 0 <= i < j < |sorted| ensures sorted[i].1 <= sorted[j].0 {
      SortedApart(extents, i, j);
    }
    forall i | 0 <= i < |sorted| ensures previous <= sorted[i].0 {
      assert sorted[i] in extents;
    }
    PackedOf(sorted, previous);
  }

  lemma SortedApart(extents: seq<Range>, i: nat, j: nat)
    requires i < j < |Sorted(extents)|
    requires forall i :: 0 <= i < |extents| ==> extents[i].0 < extents[i].1
    requires forall i, j :: 0 <= i < j < |extents| ==> extents[i].1 <= extents[j].0 || extents[j].1 <= extents[i].0
    ensures Sorted(extents)[i].1 <= Sorted(extents)[j].0
  {
    hide Sorted, Covered;
    var sorted := Sorted(extents);
    var x, y := sorted[i], sorted[j];
    assert Before(x, y);
    SortedCovers(extents);
    assert x in extents && y in extents;
    if x == y {
      Twice(sorted, i, j);
      TwoPlaces(extents, x);
      assert false;
    }
    var a :| 0 <= a < |extents| && extents[a] == x;
    var b :| 0 <= b < |extents| && extents[b] == y;
    assert a < b || b < a;
  }

  lemma {:induction false} PackedOf(spans: seq<Range>, previous: int)
    requires spans != [] ==> previous <= spans[0].0
    requires forall i, j :: 0 <= i < j < |spans| ==> spans[i].1 <= spans[j].0
    ensures Packed(spans, previous)
    decreases |spans|
  {
    if spans != [] { PackedOf(spans[1..], spans[0].1); }
  }

  function RowsSeen(rows: seq<Row>, places: seq<nat>): (r: seq<CellRead>)
    requires |places| == |rows|
    ensures |r| == |rows|
    ensures forall i :: 0 <= i < |rows| ==>
      r[i] == CellRead(None, Some(CellOf(rows[i])), rows[i].rowId, (places[i], places[i] + |RowBytes(rows[i])|))
  {
    seq(|rows|, i requires 0 <= i < |rows| =>
      CellRead(None, Some(CellOf(rows[i])), rows[i].rowId, (places[i], places[i] + |RowBytes(rows[i])|)))
  }

  function EntriesSeen(entries: seq<Entry>, places: seq<nat>): (r: seq<CellRead>)
    requires |places| == |entries|
    ensures |r| == |entries|
    ensures forall i :: 0 <= i < |entries| ==>
      r[i] == CellRead(Some(entries[i].child), None, entries[i].key, (places[i], places[i] + |EntryBytes(entries[i])|))
  {
    seq(|entries|, i requires 0 <= i < |entries| =>
      CellRead(Some(entries[i].child), None, entries[i].key, (places[i], places[i] + |EntryBytes(entries[i])|)))
  }

  lemma RowCell(data: seq<byte>, l: Layout, usable: nat, pageCount: int, i: nat, place: nat, r: Row)
    requires 480 <= usable <= |data| && PointersEnd(l) <= usable && i < l.count && !l.interior
    requires GoodRow(r, usable, pageCount) && Lies(data, l.start + 8, i, place, RowBytes(r), l.area, usable)
    ensures ReadCell(data, l, i, usable) == Ok(CellRead(None, Some(CellOf(r)), r.rowId, (place, place + |RowBytes(r)|)))
    ensures CellFits(CellOf(r), usable, pageCount) && 0 < |RowBytes(r)|
  {
    hide GoodRow, RowBytes, CellOf, ReadLeaf, CellFits, Big16, Be16;
    Be16Big(data, l.start + 8 + 2 * i, place);
    RowReads(data, place, usable, pageCount, r);
  }

  lemma EntryCell(data: seq<byte>, l: Layout, usable: nat, i: nat, place: nat, e: Entry)
    requires 480 <= usable <= |data| && PointersEnd(l) <= usable && i < l.count && l.interior
    requires CodeOfId(e.keyCode, e.key) && Lies(data, l.start + 12, i, place, EntryBytes(e), l.area, usable)
    ensures ReadCell(data, l, i, usable) == Ok(CellRead(Some(e.child), None, e.key, (place, place + |EntryBytes(e)|)))
    ensures 0 < |EntryBytes(e)|
  {
    hide CodeOfId, EntryBytes, ReadInterior, Big16, Be16;
    Be16Big(data, l.start + 12 + 2 * i, place);
    EntryReads(data, place, usable, e);
  }

  /** Cells that lie apart pass the overlap test. */
  lemma PlacedPacked(data: seq<byte>, pointers: nat, places: seq<nat>, cells: seq<seq<byte>>, area: nat, usable: nat, previous: int,
                     seen: seq<CellRead>)
    requires Placed(data, pointers, places, cells, area, usable) && previous <= area && |seen| == |cells|
    requires forall i :: 0 <= i < |cells| ==> 0 < |cells[i]| && seen[i].extent == (places[i] as int, places[i] + |cells[i]|)
    ensures Packed(Sorted(Extents(seen)), previous)
  {
    ApartPacked(Extents(seen), previous);
  }

  lemma {:induction false} ChildrenSeen(seen: seq<CellRead>)
    requires forall i :: 0 <= i < |seen| ==> seen[i].child.Some?
    ensures |Children(seen)| == |seen| && forall i :: 0 <= i < |seen| ==> Children(seen)[i] == seen[i].child.value
  {
    if seen != [] { ChildrenSeen(seen[..|seen| - 1]); }
  }

  lemma {:induction false} CellsSeen(seen: seq<CellRead>)
    requires forall i :: 0 <= i < |seen| ==> seen[i].cell.Some?
    ensures |Cells(seen)| == |seen| && forall i :: 0 <= i < |seen| ==> Cells(seen)[i] == seen[i].cell.value
  {
    if seen != [] { CellsSeen(seen[..|seen| - 1]); }
  }

  lemma KeysSeen(seen: seq<CellRead>)
    requires forall i, j :: 0 <= i < j < |seen| ==> seen[i].key < seen[j].key
    ensures Increasing(Keys(seen)) && forall i :: 0 <= i < |seen| ==> Keys(seen)[i] == seen[i].key
  {
  }

  /**
   Every leaf of the format is decoded, and to exactly its rows: their ids, payload sizes, the bytes kept on the page and
   the overflow page of those that spill.
   */
  lemma LeafRoundTrip(data: seq<byte>, page: int, usable: nat, pageCount: int, area: nat, rows: seq<Row>, places: seq<nat>)
    requires 480 <= usable && LeafPage(data, page, usable, pageCount, area, rows, places)
    ensures DecodePage(data, page, usable, pageCount) == Ok(LeafTree(page, rows))
  {
    hide GoodRow, RowBytes, CellOf, CellFits, ReadLayout, ReadCell, ReadCells, Lies, Packed, Sorted, Cells, Keys;
    HeadReads(data, page, 13, 8, |rows|, area, usable);
    var l := Layout(HeaderAt(page), false, |rows|, area);
    var seen := RowsSeen(rows, places);
    forall i: nat | i < |rows|
      ensures ReadCell(data, l, i, usable) == Ok(seen[i]) && CellFits(CellOf(rows[i]), usable, pageCount) && 0 < |RowBytes(rows[i])|
    {
      RowCell(data, l, usable, pageCount, i, places[i], rows[i]);
    }
    ReadsAll(data, l, usable, pageCount, seen);
    PlacedPacked(data, HeaderAt(page) + 8, places, AllRowBytes(rows), area, usable, PointersEnd(l), seen);
    KeysSeen(seen);
    CellsSeen(seen);
    assert Cells(seen) == LeafTree(page, rows).cells;
  }

  /** Every interior page of the format is decoded, and to exactly its left children, keys and right-most child. */
  lemma InteriorRoundTrip(data: seq<byte>, page: int, usable: nat, pageCount: int, area: nat, entries: seq<Entry>, right: PageNumber,
                          places: seq<nat>)
    requires 480 <= usable && InteriorPage(data, page, usable, pageCount, area, entries, right, places)
    ensures DecodePage(data, page, usable, pageCount) == Ok(InteriorTree(page, entries, right))
  {
    hide CodeOfId, EntryBytes, ReadLayout, ReadCell, ReadCells, Lies, Packed, Sorted, Children, Keys, Be, Big;
    HeadReads(data, page, 5, 12, |entries|, area, usable);
    BeBig(data, HeaderAt(page) + 8, right);
    var l := Layout(HeaderAt(page), true, |entries|, area);
    var seen := EntriesSeen(entries, places);
    forall i: nat | i < |entries| ensures ReadCell(data, l, i, usable) == Ok(seen[i]) && 0 < |EntryBytes(entries[i])| {
      EntryCell(data, l, usable, i, places[i], entries[i]);
    }
    ReadsAll(data, l, usable, pageCount, seen);
    PlacedPacked(data, HeaderAt(page) + 12, places, AllEntryBytes(entries), area, usable, PointersEnd(l), seen);
    KeysSeen(seen);
    ChildrenSeen(seen);
    assert Children(seen) + [right as int] == ChildrenOf(entries, right);
    assert Keys(seen) == InteriorTree(page, entries, right).separators;
  }

  // ---- Only written pages are read ----

  lemma LayoutHeaded(data: seq<byte>, page: int, usable: nat)
    requires 480 <= usable <= |data| && ReadLayout(data, page, usable).Ok?
    ensures var l := ReadLayout(data, page, usable).value;
            && l.start == HeaderAt(page)
            && Headed(data, HeaderAt(page), if l.interior then 5 else 13, HeaderSize(l), l.count, l.area, usable)
  {
    hide Be16, Big16;
    BigBe16(data, HeaderAt(page) + 3);
    BigBe16(data, HeaderAt(page) + 5);
  }

  function PlaceOf(data: seq<byte>, l: Layout, i: nat): nat
    requires PointersEnd(l) <= |data| && i < l.count
  {
    Big16(data, l.start + HeaderSize(l) + i * 2)
  }

  /** A leaf cell that is read is a row of the format. */
  lemma RowRead(data: seq<byte>, at: nat, usable: nat, pageCount: int) returns (r: Row)
    requires 480 <= usable <= |data| && at < usable && ReadLeaf(data, at, usable).Ok?
    requires CellFits(ReadLeaf(data, at, usable).value.cell.value, usable, pageCount)
    ensures GoodRow(r, usable, pageCount) && at + |RowBytes(r)| <= usable && data[at..at + |RowBytes(r)|] == RowBytes(r)
  {
    hide Be, Big, DecodeFrom, Septets, Kept, LocalSize, CodeOf;
    CodeDecoded(data, at, usable);
    var (payload, afterPayload) := DecodeFrom(data, at, usable, 0, 0).value;
    CodeDecoded(data, afterPayload, usable);
    var (key, body) := DecodeFrom(data, afterPayload, usable, 0, 0).value;
    CodeIsId(data[afterPayload..body], key);
    KeptLocal(payload, usable);
    var end := body + LocalSize(payload, usable);
    var overflow: PageNumber := if end < body + payload then Big(data, end) else 0;
    r := Row(RowId(key), data[afterPayload..body], payload, data[at..afterPayload], data[body..end], overflow);
    Joined(data, at, afterPayload, body, end);
    if end < body + payload {
      BigBe(data, end);
      Joined(data, at, body, end, end + 4);
    }
  }

  lemma Joined(data: seq<byte>, a: nat, b: nat, c: nat, d: nat)
    requires a <= b <= c <= d <= |data|
    ensures data[a..b] + data[b..c] + data[c..d] == data[a..d] && data[a..b] + data[b..c] == data[a..c]
    ensures data[a..c] + data[c..d] == data[a..d]
  {
  }

  lemma EntryRead(data: seq<byte>, at: nat, usable: nat) returns (e: Entry)
    requires 480 <= usable <= |data| && at < usable && ReadInterior(data, at, usable).Ok?
    ensures CodeOfId(e.keyCode, e.key) && at + |EntryBytes(e)| <= usable && data[at..at + |EntryBytes(e)|] == EntryBytes(e)
  {
    hide Be, Big, DecodeFrom, Septets, CodeOf;
    CodeDecoded(data, at + 4, usable);
    var (key, end) := DecodeFrom(data, at + 4, usable, 0, 0).value;
    CodeIsId(data[at + 4..end], key);
    BigBe(data, at);
    e := Entry(Big(data, at), RowId(key), data[at + 4..end]);
    Joined(data, at, at + 4, end, end);
  }

  /** What has been read so far, as rows of the format. */
  ghost predicate RowsRead(data: seq<byte>, l: Layout, usable: nat, pageCount: int, rows: seq<Row>)
    requires 480 <= usable <= |data| && PointersEnd(l) <= usable && |rows| <= l.count
  {
    forall i :: 0 <= i < |rows| ==>
      && GoodRow(rows[i], usable, pageCount)
      && Lies(data, l.start + HeaderSize(l), i, PlaceOf(data, l, i), RowBytes(rows[i]), l.area, usable)
  }

  ghost predicate EntriesRead(data: seq<byte>, l: Layout, usable: nat, entries: seq<Entry>)
    requires 480 <= usable <= |data| && PointersEnd(l) <= usable && |entries| <= l.count
  {
    forall i :: 0 <= i < |entries| ==>
      && CodeOfId(entries[i].keyCode, entries[i].key)
      && Lies(data, l.start + HeaderSize(l), i, PlaceOf(data, l, i), EntryBytes(entries[i]), l.area, usable)
  }

  lemma LeafHasCell(data: seq<byte>, at: nat, usable: nat)
    requires 480 <= usable <= |data| && at < usable && ReadLeaf(data, at, usable).Ok?
    ensures ReadLeaf(data, at, usable).value.cell.Some?
  {
  }

  lemma {:induction false} ReadRows(data: seq<byte>, l: Layout, n: nat, usable: nat, pageCount: int) returns (rows: seq<Row>)
    requires 480 <= usable <= |data| && PointersEnd(l) <= usable && n <= l.count && !l.interior
    requires ReadCells(data, l, n, usable, pageCount).Ok?
    ensures |rows| == n && RowsRead(data, l, usable, pageCount, rows)
  {
    hide GoodRow, RowBytes, CellFits, ReadLeaf, Big16, Be16;
    rows := [];
    if n > 0 {
      rows := ReadRows(data, l, n - 1, usable, pageCount);
      LeafHasCell(data, PlaceOf(data, l, n - 1), usable);
      var r := RowRead(data, PlaceOf(data, l, n - 1), usable, pageCount);
      BigBe16(data, l.start + HeaderSize(l) + (n - 1) * 2);
      rows := rows + [r];
    }
  }

  lemma {:induction false} ReadEntries(data: seq<byte>, l: Layout, n: nat, usable: nat, pageCount: int) returns (entries: seq<Entry>)
    requires 480 <= usable <= |data| && PointersEnd(l) <= usable && n <= l.count && l.interior
    requires ReadCells(data, l, n, usable, pageCount).Ok?
    ensures |entries| == n && EntriesRead(data, l, usable, entries)
  {
    hide CodeOfId, EntryBytes, CellFits, ReadInterior, Big16, Be16;
    entries := [];
    if n > 0 {
      entries := ReadEntries(data, l, n - 1, usable, pageCount);
      var e := EntryRead(data, PlaceOf(data, l, n - 1), usable);
      BigBe16(data, l.start + HeaderSize(l) + (n - 1) * 2);
      entries := entries + [e];
    }
  }

  function Places(data: seq<byte>, l: Layout): (r: seq<nat>)
    requires PointersEnd(l) <= |data|
    ensures |r| == l.count && forall i :: 0 <= i < l.count ==> r[i] == PlaceOf(data, l, i)
  {
    seq(l.count, i requires 0 <= i < l.count => PlaceOf(data, l, i))
  }

  lemma RowsSeenAll(data: seq<byte>, l: Layout, usable: nat, pageCount: int, rows: seq<Row>)
    requires 480 <= usable <= |data| && PointersEnd(l) <= usable && !l.interior && |rows| == l.count
    requires RowsRead(data, l, usable, pageCount, rows)
    ensures ReadCells(data, l, l.count, usable, pageCount) == Ok(RowsSeen(rows, Places(data, l)))
    ensures forall i :: 0 <= i < |rows| ==> 0 < |RowBytes(rows[i])|
  {
    hide GoodRow, RowBytes, CellFits, CellOf, ReadCell, ReadCells, Lies;
    forall i: nat | i < |rows|
      ensures ReadCell(data, l, i, usable) == Ok(RowsSeen(rows, Places(data, l))[i])
      ensures CellFits(CellOf(rows[i]), usable, pageCount) && 0 < |RowBytes(rows[i])|
    {
      RowCell(data, l, usable, pageCount, i, PlaceOf(data, l, i), rows[i]);
    }
    ReadsAll(data, l, usable, pageCount, RowsSeen(rows, Places(data, l)));
  }

  lemma EntriesSeenAll(data: seq<byte>, l: Layout, usable: nat, pageCount: int, entries: seq<Entry>)
    requires 480 <= usable <= |data| && PointersEnd(l) <= usable && l.interior && |entries| == l.count
    requires EntriesRead(data, l, usable, entries)
    ensures ReadCells(data, l, l.count, usable, pageCount) == Ok(EntriesSeen(entries, Places(data, l)))
    ensures forall i :: 0 <= i < |entries| ==> 0 < |EntryBytes(entries[i])|
  {
    hide CodeOfId, EntryBytes, ReadCell, ReadCells, Lies;
    forall i: nat | i < |entries|
      ensures ReadCell(data, l, i, usable) == Ok(EntriesSeen(entries, Places(data, l))[i]) && 0 < |EntryBytes(entries[i])|
    {
      EntryCell(data, l, usable, i, PlaceOf(data, l, i), entries[i]);
    }
    ReadsAll(data, l, usable, pageCount, EntriesSeen(entries, Places(data, l)));
  }

  /** Cells that pass the overlap test lie apart. */
  lemma PackedApart(places: seq<nat>, cells: seq<seq<byte>>, seen: seq<CellRead>, previous: int)
    requires |places| == |cells| == |seen| && Packed(Sorted(Extents(seen)), previous)
    requires forall i :: 0 <= i < |cells| ==> 0 < |cells[i]| && seen[i].extent == (places[i] as int, places[i] + |cells[i]|)
    ensures Apart(places, cells)
  {
    hide Packed, Sorted;
    ExtentsAt(seen);
    forall i, j | 0 <= i < j < |places| ensures places[i] + |cells[i]| <= places[j] || places[j] + |cells[j]| <= places[i] {
      CellsDisjoint(Extents(seen), previous, i, j);
    }
  }

  lemma KeysRise(seen: seq<CellRead>)
    requires Increasing(Keys(seen))
    ensures forall i, j :: 0 <= i < j < |seen| ==> seen[i].key < seen[j].key
  {
    assert forall i :: 0 <= i < |seen| ==> Keys(seen)[i] == seen[i].key;
  }

  lemma LeafBack(data: seq<byte>, page: int, usable: nat, pageCount: int) returns (area: nat, rows: seq<Row>, places: seq<nat>)
    requires 480 <= usable && DecodePage(data, page, usable, pageCount).Ok? && !ReadLayout(data, page, usable).value.interior
    ensures LeafPage(data, page, usable, pageCount, area, rows, places)
  {
    hide GoodRow, RowBytes, CellOf, ReadLayout, ReadCells, Lies, Packed, Sorted, Cells, Keys, Headed, Increasing;
    var l := ReadLayout(data, page, usable).value;
    rows := ReadRows(data, l, l.count, usable, pageCount);
    area, places := l.area, Places(data, l);
    LayoutHeaded(data, page, usable);
    RowsSeenAll(data, l, usable, pageCount, rows);
    var seen := RowsSeen(rows, places);
    KeysRise(seen);
    PackedApart(places, AllRowBytes(rows), seen, PointersEnd(l));
  }

  lemma InteriorBack(data: seq<byte>, page: int, usable: nat, pageCount: int)
    returns (area: nat, entries: seq<Entry>, right: PageNumber, places: seq<nat>)
    requires 480 <= usable && DecodePage(data, page, usable, pageCount).Ok? && ReadLayout(data, page, usable).value.interior
    ensures InteriorPage(data, page, usable, pageCount, area, entries, right, places)
  {
    hide CodeOfId, EntryBytes, ReadLayout, ReadCells, Lies, Packed, Sorted, Children, Keys, Headed, Increasing, Be, Big;
    var l := ReadLayout(data, page, usable).value;
    entries := ReadEntries(data, l, l.count, usable, pageCount);
    area, places, right := l.area, Places(data, l), Big(data, l.start + 8);
    LayoutHeaded(data, page, usable);
    BigBe(data, l.start + 8);
    EntriesSeenAll(data, l, usable, pageCount, entries);
    var seen := EntriesSeen(entries, places);
    KeysRise(seen);
    ChildrenSeen(seen);
    assert Children(seen) + [right as int] == ChildrenOf(entries, right);
    PackedApart(places, AllEntryBytes(entries), seen, PointersEnd(l));
  }

  ghost predicate IsLeaf(data: seq<byte>, page: int, usable: nat, pageCount: int, t: TreePage)
    requires 480 <= usable
  {
    exists area: nat, rows, places :: LeafPage(data, page, usable, pageCount, area, rows, places) && t == LeafTree(page, rows)
  }

  ghost predicate IsInterior(data: seq<byte>, page: int, usable: nat, pageCount: int, t: TreePage)
    requires 480 <= usable
  {
    exists area: nat, entries, right, places ::
      InteriorPage(data, page, usable, pageCount, area, entries, right, places) && t == InteriorTree(page, entries, right)
  }

  /** The decoder accepts exactly the table pages of the format, each as what it holds. */
  lemma DecodesExactly(data: seq<byte>, page: int, usable: nat, pageCount: int, t: TreePage)
    requires 480 <= usable
    ensures DecodePage(data, page, usable, pageCount) == Ok(t)
            <==> IsLeaf(data, page, usable, pageCount, t) || IsInterior(data, page, usable, pageCount, t)
  {
    hide LeafPage, InteriorPage, DecodePage, LeafTree, InteriorTree;
    if DecodePage(data, page, usable, pageCount) == Ok(t) {
      HasLayout(data, page, usable, pageCount);
      if ReadLayout(data, page, usable).value.interior {
        var area, entries, right, places := InteriorBack(data, page, usable, pageCount);
        InteriorRoundTrip(data, page, usable, pageCount, area, entries, right, places);
      } else {
        var area, rows, places := LeafBack(data, page, usable, pageCount);
        LeafRoundTrip(data, page, usable, pageCount, area, rows, places);
      }
    }
    if IsLeaf(data, page, usable, pageCount, t) {
      var area: nat, rows, places :| LeafPage(data, page, usable, pageCount, area, rows, places) && t == LeafTree(page, rows);
      LeafRoundTrip(data, page, usable, pageCount, area, rows, places);
    }
    if IsInterior(data, page, usable, pageCount, t) {
      var area: nat, entries, right, places :|
        InteriorPage(data, page, usable, pageCount, area, entries, right, places) && t == InteriorTree(page, entries, right);
      InteriorRoundTrip(data, page, usable, pageCount, area, entries, right, places);
    }
  }

  lemma HasLayout(data: seq<byte>, page: int, usable: nat, pageCount: int)
    requires 480 <= usable && DecodePage(data, page, usable, pageCount).Ok?
    ensures usable <= |data| && ReadLayout(data, page, usable).Ok?
  {
  }

  // ---- Shortest codes, and one cell ----

  /** A row written with the shortest codes. */
  lemma ShortestRow(rowId: int, payload: nat, local: seq<byte>, overflow: PageNumber, usable: nat, pageCount: int)
    requires 480 <= usable && -TWO_63 <= rowId < TWO_63 && payload < TWO_64
    requires |local| == Kept(payload, usable) && payload <= pageCount * (usable - 4) && (|local| < payload ==> 1 < overflow <= pageCount)
    ensures GoodRow(Row(rowId, Encode(Unsigned(rowId)), payload, Encode(payload), local, overflow), usable, pageCount)
  {
    hide Kept, CodeOf;
    EncodeIsCode(payload);
    EncodeIsCode(Unsigned(rowId));
  }

  /** The payload size comes before the row id: the bytes 5, 1 begin the cell of row 1 with five bytes of payload. */
  lemma SizeThenId(data: seq<byte>, at: nat, usable: nat)
    requires 480 <= usable <= |data| && at + 7 <= usable && data[at] == 5 && data[at + 1] == 1
    ensures ReadLeaf(data, at, usable) == Ok(CellRead(None, Some(Cell(1, 5, 5, None)), 1, (at, at + 7)))
  {
    Closed(data, at, usable, 0, 0);
    Closed(data, at + 1, usable, 0, 0);
    hide DecodeFrom;
  }
}
