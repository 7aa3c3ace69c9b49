/**
 Decoding of rowid-table B-tree pages (SQLite "Database File Format", sections 1.6 and 1.7): cell
 headers, keys, child pointers and how many payload bytes stay on the page.
 */
module Pages {
  import opened Wrappers
  import opened Bytes
  import opened Ranges
  import opened Varint

  /** A table cell: its key, its payload, the payload bytes kept on the page, and the first overflow page. */
  datatype Cell = Cell(rowId: int, payload: int, local: int, overflow: Option<int>)

  datatype TreePage = TreePage(number: int, children: seq<int>, cells: seq<Cell>, separators: seq<int>)

  // ---- Payload arithmetic ----

  /** The most (X) and the least (M) payload bytes a spilled leaf cell keeps. */
  function MaxLocal(usable: int): int { usable - 35 }

  function MinLocal(usable: int): int { (usable - 12) * 32 / 255 - 23 }

  function LocalSize(payload: int, usable: int): int
    requires 480 <= usable
  {
    if payload <= MaxLocal(usable) then payload else
      var surplus := MinLocal(usable) + (payload - MinLocal(usable)) % (usable - 4);
      if surplus <= MaxLocal(usable) then surplus else MinLocal(usable)
  }

  /** Pages of usable-4 bytes that hold `remaining` bytes. */
  function OverflowCount(remaining: int, usable: int): (n: int)
    requires 480 <= usable && 0 <= remaining
    ensures 0 <= n && (n == 0 <==> remaining == 0)
    ensures n > 0 ==> (n - 1) * (usable - 4) < remaining <= n * (usable - 4)
    decreases remaining
  {
    if remaining == 0 then 0
    else if remaining <= usable - 4 then 1
    else 1 + OverflowCount(remaining - (usable - 4), usable)
  }

  /** A spilled cell keeps between M and X bytes. */
  lemma LocalBounds(payload: int, usable: int)
    requires 480 <= usable && 0 <= payload
    ensures 35 <= MinLocal(usable) <= MaxLocal(usable) < usable - 4
    ensures payload <= MaxLocal(usable) ==> LocalSize(payload, usable) == payload
    ensures payload > MaxLocal(usable) ==>
      MinLocal(usable) <= LocalSize(payload, usable) <= MaxLocal(usable) && LocalSize(payload, usable) < payload
  {
  }

  /** A spilled cell that keeps more than the least fills its overflow pages to the last byte. */
  lemma LocalFills(payload: int, usable: int)
    requires 480 <= usable && MaxLocal(usable) < payload && LocalSize(payload, usable) != MinLocal(usable)
    ensures var rest := payload - LocalSize(payload, usable);
            0 <= rest && rest == OverflowCount(rest, usable) * (usable - 4)
  {
    LocalBounds(payload, usable);
    var q := (payload - MinLocal(usable)) / (usable - 4);
    DivisionParts(payload - MinLocal(usable), usable - 4);
    WholePages(q, usable);
  }

  lemma DivisionParts(x: int, d: int)
    requires 0 < d
    ensures x == (x / d) * d + x % d
  {
  }

  lemma WholePages(q: int, usable: int)
    requires 480 <= usable && 0 <= q * (usable - 4)
    ensures q == OverflowCount(q * (usable - 4), usable)
  {
    var n := OverflowCount(q * (usable - 4), usable);
    Ordered(q, n, usable - 4);
    Ordered(n, q, usable - 4);
  }

  lemma Ordered(a: int, b: int, u: int)
    requires 0 < u
    ensures a < b ==> a * u <= (b - 1) * u
    ensures a * u == (a - 1) * u + u
  {
  }

  // ---- Cells ----

  /** What one cell pointer leads to. */
  datatype CellRead = CellRead(child: Option<int>, cell: Option<Cell>, key: int, extent: Range)

  function ReadInterior(data: seq<byte>, at: nat, usable: nat): Result<CellRead, PageError>
    requires at < usable <= |data|
  {
    if at + 4 > usable then Err(PageUnavailable) else
      match DecodeFrom(data, at + 4, usable, 0, 0)
      case Err(e) => Err(e)
      case Ok((key, end)) => Ok(CellRead(Some(Big(data, at)), None, RowId(key), (at, end)))
  }

  function ReadLeaf(data: seq<byte>, at: nat, usable: nat): Result<CellRead, PageError>
    requires at < usable <= |data| && 480 <= usable
  {
    match DecodeFrom(data, at, usable, 0, 0)
    case Err(e) => Err(e)
    case Ok((payload, afterPayload)) =>
      match DecodeFrom(data, afterPayload, usable, 0, 0)
      case Err(e) => Err(e)
      case Ok((key, body)) =>
        var local := LocalSize(payload, usable);
        LocalBounds(payload, usable);
        var end := body + local + if local < payload then 4 else 0;
        if end > usable then Err(PageUnavailable)
        else
          var overflow := if local < payload then Some(Big(data, body + local)) else None;
          Ok(CellRead(None, Some(Cell(RowId(key), payload, local, overflow)), RowId(key), (at, end)))
  }

  /** The checks of a cell against the size of the image. */
  predicate CellFits(cell: Cell, usable: int, pageCount: int) {
    cell.payload <= pageCount * (usable - 4) && (cell.overflow.Some? ==> 1 < cell.overflow.value <= pageCount)
  }

  datatype Layout = Layout(start: nat, interior: bool, count: nat, area: nat)

  function HeaderSize(l: Layout): nat { if l.interior then 12 else 8 }

  function PointersEnd(l: Layout): nat { l.start + HeaderSize(l) + l.count * 2 }

  /** The page header. */
  function ReadLayout(data: seq<byte>, page: int, usable: nat): (r: Result<Layout, PageError>)
    requires 480 <= usable <= |data|
    ensures r.Ok? ==> PointersEnd(r.value) <= r.value.area <= usable
  {
    var start := if page == 1 then 100 else 0;
    var kind := data[start];
    if kind != 5 && kind != 13 then Err(PageUnavailable) else
      var area := Big16(data, start + 5);
      var l := Layout(start, kind == 5, Big16(data, start + 3), if area == 0 then 65536 else area);
      if PointersEnd(l) > usable || data[start + 7] > 60 || !(PointersEnd(l) <= l.area <= usable) then Err(PageUnavailable)
      else Ok(l)
  }

  function ReadCell(data: seq<byte>, l: Layout, i: nat, usable: nat): Result<CellRead, PageError>
    requires 480 <= usable <= |data| && PointersEnd(l) <= usable && i < l.count
  {
    var at := Big16(data, l.start + HeaderSize(l) + i * 2);
    if !(l.area <= at < usable) then Err(PageUnavailable)
    else if l.interior then ReadInterior(data, at, usable)
    else ReadLeaf(data, at, usable)
  }

  /** The first `n` cells in pointer order. */
  function ReadCells(data: seq<byte>, l: Layout, n: nat, usable: nat, pageCount: int): (r: Result<seq<CellRead>, PageError>)
    requires 480 <= usable <= |data| && PointersEnd(l) <= usable && n <= l.count
    ensures r.Ok? ==> |r.value| == n
  {
    if n == 0 then Ok([]) else
      match ReadCells(data, l, n - 1, usable, pageCount)
      case Err(e) => Err(e)
      case Ok(cells) =>
        match ReadCell(data, l, n - 1, usable)
        case Err(e) => Err(e)
        case Ok(c) =>
          if c.cell.Some? && !CellFits(c.cell.value, usable, pageCount) then Err(PageUnavailable) else Ok(cells + [c])
  }

  // ---- Page checks ----

  predicate Increasing(keys: seq<int>) {
    forall i, j :: 0 <= i < j < |keys| ==> keys[i] < keys[j]
  }

  /** Extents in ascending order, each beginning at or after the end of the one before. */
  predicate Packed(extents: seq<Range>, previous: int)
    decreases |extents|
  {
    extents == [] || (previous <= extents[0].0 && Packed(extents[1..], extents[0].1))
  }

  predicate Distinct(pages: seq<int>) {
    forall i, j :: 0 <= i < j < |pages| ==> pages[i] != pages[j]
  }

  predicate GoodChildren(children: seq<int>, page: int, pageCount: int) {
    Distinct(children) && page !in children && forall i :: 0 <= i < |children| ==> 1 < children[i] <= pageCount
  }

  function Keys(cells: seq<CellRead>): (r: seq<int>)
    ensures |r| == |cells|
  {
    seq(|cells|, i requires 0 <= i < |cells| => cells[i].key)
  }

  function Extents(cells: seq<CellRead>): (r: seq<Range>)
    ensures |r| == |cells|
  {
    seq(|cells|, i requires 0 <= i < |cells| => cells[i].extent)
  }

  function Children(cells: seq<CellRead>): seq<int> {
    if cells == [] then [] else
      var c := cells[|cells| - 1];
      Children(cells[..|cells| - 1]) + if c.child.Some? then [c.child.value] else []
  }

  function Cells(cells: seq<CellRead>): seq<Cell> {
    if cells == [] then [] else
      var c := cells[|cells| - 1];
      Cells(cells[..|cells| - 1]) + if c.cell.Some? then [c.cell.value] else []
  }

  /** The decoded page, or a refusal. */
  function DecodePage(data: seq<byte>, page: int, usable: nat, pageCount: int): Result<TreePage, PageError>
    requires 480 <= usable
  {
    if |data| < usable || !(1 <= page <= pageCount) then Err(PageUnavailable) else
      match ReadLayout(data, page, usable)
      case Err(e) => Err(e)
      case Ok(l) =>
        match ReadCells(data, l, l.count, usable, pageCount)
        case Err(e) => Err(e)
        case Ok(cells) => Assemble(data, page, l, cells, pageCount)
  }

  function Assemble(data: seq<byte>, page: int, l: Layout, cells: seq<CellRead>, pageCount: int): Result<TreePage, PageError>
    requires PointersEnd(l) <= |data|
  {
    var keys := Keys(cells);
    if !Increasing(keys) || !Packed(Sorted(Extents(cells)), PointersEnd(l)) then Err(PageUnavailable)
    else if !l.interior then Ok(TreePage(page, [], Cells(cells), []))
    else
      var children := Children(cells) + [Big(data, l.start + 8)];
      if GoodChildren(children, page, pageCount) then Ok(TreePage(page, children, [], keys)) else Err(PageUnavailable)
  }

  /** The decoder's loop over cell pointers. */
  method ReadCellLoop(data: seq<byte>, l: Layout, usable: nat, pageCount: int) returns (r: Result<seq<CellRead>, PageError>)
    requires 480 <= usable <= |data| && PointersEnd(l) <= usable
    ensures r == ReadCells(data, l, l.count, usable, pageCount)
  {
    hide CellFits;
    var cells := [];
    for i := 0 to l.count
      invariant ReadCells(data, l, i, usable, pageCount) == Ok(cells)
    {
      var c := ReadCell(data, l, i, usable);
      if c.Err? || (c.value.cell.Some? && !CellFits(c.value.cell.value, usable, pageCount)) {
        StopsAt(data, l, i + 1, l.count, usable, pageCount);
        return Err(PageUnavailable);
      }
      cells := cells + [c.value];
    }
    return Ok(cells);
  }

  lemma {:induction false} StopsAt(data: seq<byte>, l: Layout, a: nat, b: nat, usable: nat, pageCount: int)
    requires 480 <= usable <= |data| && PointersEnd(l) <= usable && a <= b <= l.count
    requires ReadCells(data, l, a, usable, pageCount) == Err(PageUnavailable)
    ensures ReadCells(data, l, b, usable, pageCount) == Err(PageUnavailable)
    decreases b
  {
    if a < b { StopsAt(data, l, a, b - 1, usable, pageCount); }
  }

  method DecodeTreePage(data: seq<byte>, page: int, usable: nat, pageCount: int) returns (r: Result<TreePage, PageError>)
    requires 480 <= usable
    ensures r == DecodePage(data, page, usable, pageCount)
  {
    if |data| < usable || !(1 <= page <= pageCount) { return Err(PageUnavailable); }
    var layout := ReadLayout(data, page, usable);
    if layout.Err? { return Err(layout.error); }
    var cells := ReadCellLoop(data, layout.value, usable, pageCount);
    if cells.Err? { return Err(cells.error); }
    r := Assemble(data, page, layout.value, cells.value, pageCount);
  }

  // ---- What an accepted page guarantees ----

  ghost predicate ShapedCell(c: Cell, usable: int)
    requires 480 <= usable
  {
    && 0 <= c.payload && c.local == LocalSize(c.payload, usable)
    && (c.overflow.Some? <==> MaxLocal(usable) < c.payload)
  }

  ghost predicate SoundCell(c: Cell, usable: int, pageCount: int)
    requires 480 <= usable
  {
    CellFits(c, usable, pageCount) && ShapedCell(c, usable)
  }

  /** What an accepted page guarantees, whatever the size of its image. */
  ghost predicate ShapedPage(t: TreePage, page: int, usable: int)
    requires 480 <= usable
  {
    && t.number == page
    && (if t.children == [] then
          && t.separators == []
          && (forall i :: 0 <= i < |t.cells| ==> ShapedCell(t.cells[i], usable))
          && (forall i, j :: 0 <= i < j < |t.cells| ==> t.cells[i].rowId < t.cells[j].rowId)
        else
          t.cells == [] && |t.children| == |t.separators| + 1 && Increasing(t.separators)
          && Distinct(t.children) && page !in t.children)
  }

  ghost predicate SoundPage(t: TreePage, page: int, usable: int, pageCount: int)
    requires 480 <= usable
  {
    && ShapedPage(t, page, usable) && 1 <= page <= pageCount && Fits(t, usable, pageCount)
    && (forall i :: 0 <= i < |t.children| ==> 1 < t.children[i])
  }

  /** Cell reads of one kind, as the page kind says. */
  ghost predicate ReadsOf(l: Layout, cells: seq<CellRead>, usable: int, pageCount: int)
    requires 480 <= usable
  {
    forall i :: 0 <= i < |cells| ==>
      && (cells[i].child.Some? <==> l.interior) && (cells[i].cell.Some? <==> !l.interior)
      && (cells[i].cell.Some? ==> SoundCell(cells[i].cell.value, usable, pageCount) && cells[i].cell.value.rowId == cells[i].key)
  }

  lemma {:induction false} CellsRead(data: seq<byte>, l: Layout, n: nat, usable: nat, pageCount: int)
    requires 480 <= usable <= |data| && PointersEnd(l) <= usable && n <= l.count
    requires ReadCells(data, l, n, usable, pageCount).Ok?
    ensures ReadsOf(l, ReadCells(data, l, n, usable, pageCount).value, usable, pageCount)
  {
    if n > 0 {
      CellsRead(data, l, n - 1, usable, pageCount);
      var c := ReadCell(data, l, n - 1, usable).value;
      if c.cell.Some? { LocalBounds(c.cell.value.payload, usable); }
    }
  }

  lemma {:induction false} Gathered(l: Layout, cells: seq<CellRead>, usable: int, pageCount: int)
    requires 480 <= usable && ReadsOf(l, cells, usable, pageCount)
    ensures |Children(cells)| == if l.interior then |cells| else 0
    ensures |Cells(cells)| == if l.interior then 0 else |cells|
    ensures !l.interior ==> forall i :: 0 <= i < |cells| ==> Some(Cells(cells)[i]) == cells[i].cell
    decreases |cells|
  {
    if cells != [] { Gathered(l, cells[..|cells| - 1], usable, pageCount); }
  }

  lemma DecodeSound(data: seq<byte>, page: int, usable: nat, pageCount: int)
    requires 480 <= usable && DecodePage(data, page, usable, pageCount).Ok?
    ensures SoundPage(DecodePage(data, page, usable, pageCount).value, page, usable, pageCount)
  {
    var l := ReadLayout(data, page, usable).value;
    var cells := ReadCells(data, l, l.count, usable, pageCount).value;
    CellsRead(data, l, l.count, usable, pageCount);
    AssembleSound(data, page, l, cells, usable, pageCount);
  }

  lemma AssembleSound(data: seq<byte>, page: int, l: Layout, cells: seq<CellRead>, usable: int, pageCount: int)
    requires PointersEnd(l) <= |data| && 480 <= usable && ReadsOf(l, cells, usable, pageCount) && 1 <= page <= pageCount
    requires Assemble(data, page, l, cells, pageCount).Ok?
    ensures SoundPage(Assemble(data, page, l, cells, pageCount).value, page, usable, pageCount)
  {
    Gathered(l, cells, usable, pageCount);
    var t := Assemble(data, page, l, cells, pageCount).value;
    if !l.interior {
      forall i, j | 0 <= i < j < |t.cells| ensures t.cells[i].rowId < t.cells[j].rowId {
        assert Keys(cells)[i] < Keys(cells)[j];
        assert Some(t.cells[i]) == cells[i].cell && Some(t.cells[j]) == cells[j].cell;
      }
      forall i | 0 <= i < |t.cells| ensures SoundCell(t.cells[i], usable, pageCount) {
        assert Some(t.cells[i]) == cells[i].cell;
      }
    }
  }

  /** Packed extents do not overlap, and none begins before the cell pointers end. */
  lemma {:induction false} PackedDisjoint(extents: seq<Range>, previous: int)
    requires Packed(extents, previous) && forall i :: 0 <= i < |extents| ==> extents[i].0 <= extents[i].1
    ensures forall i :: 0 <= i < |extents| ==> previous <= extents[i].0
    ensures forall i, j :: 0 <= i < j < |extents| ==> extents[i].1 <= extents[j].0
    decreases |extents|
  {
    if extents != [] {
      PackedDisjoint(extents[1..], extents[0].1);
      assert forall i :: 1 <= i < |extents| ==> extents[i] == extents[1..][i - 1];
    }
  }

  lemma TwoPlaces(s: seq<Range>, x: Range)
    requires multiset(s)[x] >= 2
    ensures exists a, b :: 0 <= a < b < |s| && s[a] == x && s[b] == x
  {
    assert x in s;
    var a :| 0 <= a < |s| && s[a] == x;
    assert s == s[..a] + [x] + s[a + 1..];
    var rest := s[..a] + s[a + 1..];
    assert multiset(s) == multiset(rest) + multiset{x};
    assert x in rest;
    var b :| 0 <= b < |rest| && rest[b] == x;
    var c := if b < a then b else b + 1;
    assert s[c] == x && c != a;
  }

  /** On an accepted page no two cells share a byte, in whatever order the pointers list them. */
  lemma CellsDisjoint(extents: seq<Range>, previous: int, i: nat, j: nat)
    requires Packed(Sorted(extents), previous) && i < j < |extents|
    requires forall n :: 0 <= n < |extents| ==> extents[n].0 < extents[n].1
    ensures extents[i].1 <= extents[j].0 || extents[j].1 <= extents[i].0
    ensures previous <= extents[i].0 && previous <= extents[j].0
  {
    var sorted := Sorted(extents);
    SortedCovers(extents);
    forall n | 0 <= n < |sorted| ensures sorted[n].0 < sorted[n].1 { assert sorted[n] in extents; }
    var x, y := extents[i], extents[j];
    assert x in sorted && y in sorted;
    if x == y {
      Twice(extents, i, j);
      TwoPlaces(sorted, x);
    }
    hide Sorted;
    ExtentsApart(sorted, previous, x, y);
  }

  lemma ExtentsAt(cells: seq<CellRead>)
    ensures forall n :: 0 <= n < |cells| ==> Extents(cells)[n] == cells[n].extent
  {}

  lemma CellWithin(data: seq<byte>, l: Layout, i: nat, usable: nat)
    requires 480 <= usable <= |data| && PointersEnd(l) <= usable && i < l.count && ReadCell(data, l, i, usable).Ok?
    ensures var x := ReadCell(data, l, i, usable).value.extent; l.area <= x.0 < x.1 <= usable
  {
    var at := Big16(data, l.start + HeaderSize(l) + i * 2);
    hide Big16;
    if l.interior {
      DecodeWithin(data, at + 4, usable, 0, 0);
    } else {
      DecodeWithin(data, at, usable, 0, 0);
      var (payload, next) := DecodeFrom(data, at, usable, 0, 0).value;
      DecodeWithin(data, next, usable, 0, 0);
      LocalBounds(payload, usable);
      hide DecodeFrom, LocalSize;
    }
  }

  lemma {:induction false} CellsWithin(data: seq<byte>, l: Layout, n: nat, usable: nat, pageCount: int)
    requires 480 <= usable <= |data| && PointersEnd(l) <= usable && n <= l.count && ReadCells(data, l, n, usable, pageCount).Ok?
    ensures forall c :: c in ReadCells(data, l, n, usable, pageCount).value ==> l.area <= c.extent.0 < c.extent.1 <= usable
    decreases n
  {
    hide ReadCell, CellFits;
    if n > 0 {
      CellsWithin(data, l, n - 1, usable, pageCount);
      CellWithin(data, l, n - 1, usable);
    }
  }

  /** The cells of an accepted page lie inside its content area, and no two of them share a byte. */
  lemma AcceptedCellsApart(data: seq<byte>, page: int, usable: nat, pageCount: int, i: nat, j: nat)
    requires 480 <= usable && DecodePage(data, page, usable, pageCount).Ok?
    requires i < j < ReadLayout(data, page, usable).value.count
    ensures var l := ReadLayout(data, page, usable).value;
            ReadCells(data, l, l.count, usable, pageCount).Ok?
    ensures var l := ReadLayout(data, page, usable).value;
            var cells := ReadCells(data, l, l.count, usable, pageCount).value;
            var x, y := cells[i].extent, cells[j].extent;
            && PointersEnd(l) <= l.area <= x.0 < x.1 <= usable && l.area <= y.0 < y.1 <= usable
            && (x.1 <= y.0 || y.1 <= x.0)
  {
    var l := ReadLayout(data, page, usable).value;
    var cells := ReadCells(data, l, l.count, usable, pageCount).value;
    assert Packed(Sorted(Extents(cells)), PointersEnd(l));
    ExtentsAt(cells);
    hide *;
    CellsWithin(data, l, l.count, usable, pageCount);
    assert forall n :: 0 <= n < |cells| ==> cells[n] in cells;
    CellsDisjoint(Extents(cells), PointersEnd(l), i, j);
  }

  /** Two entries of a packed list, at two places if they are equal, do not overlap. */
  lemma ExtentsApart(sorted: seq<Range>, previous: int, x: Range, y: Range)
    requires Packed(sorted, previous) && (forall n :: 0 <= n < |sorted| ==> sorted[n].0 < sorted[n].1) && x in sorted && y in sorted
    requires x == y ==> exists a, b :: 0 <= a < b < |sorted| && sorted[a] == x && sorted[b] == x
    ensures (x.1 <= y.0 || y.1 <= x.0) && previous <= x.0 && previous <= y.0
  {
    PackedDisjoint(sorted, previous);
    hide Packed;
    var a :| 0 <= a < |sorted| && sorted[a] == x;
    var b :| 0 <= b < |sorted| && sorted[b] == y;
  }

  lemma Twice(s: seq<Range>, i: nat, j: nat)
    requires i < j < |s| && s[i] == s[j]
    ensures multiset(s)[s[i]] >= 2
  {
    var x := s[i];
    assert s == s[..i] + [x] + s[i + 1..j] + [x] + s[j + 1..];
  }

  // ---- Dependence on the size of the image ----

  /** Everything the page points to lies inside an image of `pageCount` pages. */
  ghost predicate Fits(t: TreePage, usable: int, pageCount: int) {
    && (forall i :: 0 <= i < |t.children| ==> t.children[i] <= pageCount)
    && (forall i :: 0 <= i < |t.cells| ==> CellFits(t.cells[i], usable, pageCount))
  }

  ghost predicate AllFit(cells: seq<CellRead>, usable: int, pageCount: int) {
    forall i :: 0 <= i < |cells| && cells[i].cell.Some? ==> CellFits(cells[i].cell.value, usable, pageCount)
  }

  lemma {:induction false} SameCells(data: seq<byte>, l: Layout, n: nat, usable: nat, before: int, after: int)
    requires 480 <= usable <= |data| && PointersEnd(l) <= usable && n <= l.count
    requires ReadCells(data, l, n, usable, before).Ok?
    requires AllFit(ReadCells(data, l, n, usable, before).value, usable, after)
    ensures ReadCells(data, l, n, usable, after) == ReadCells(data, l, n, usable, before)
  {
    if n > 0 {
      var cells := ReadCells(data, l, n, usable, before).value;
      var front := ReadCells(data, l, n - 1, usable, before).value;
      var c := ReadCell(data, l, n - 1, usable).value;
      assert cells == front + [c];
      FrontFits(front, c, usable, after);
      SameCells(data, l, n - 1, usable, before, after);
    }
  }

  lemma FrontFits(front: seq<CellRead>, c: CellRead, usable: int, pageCount: int)
    requires AllFit(front + [c], usable, pageCount)
    ensures AllFit(front, usable, pageCount)
    ensures c.cell.Some? ==> CellFits(c.cell.value, usable, pageCount)
  {
    var all := front + [c];
    assert all[|front|] == c;
    assert forall i :: 0 <= i < |front| ==> all[i] == front[i];
  }

  /** A page that decodes in one image decodes to the same in another exactly when it fits there. */
  lemma DecodeDependsOnFit(data: seq<byte>, page: int, usable: nat, before: int, after: int)
    requires 480 <= usable && DecodePage(data, page, usable, before).Ok? && page <= after
    ensures var t := DecodePage(data, page, usable, before).value;
            DecodePage(data, page, usable, after) == Ok(t) <==> Fits(t, usable, after)
  {
    var t := DecodePage(data, page, usable, before).value;
    var l := ReadLayout(data, page, usable).value;
    var cells := ReadCells(data, l, l.count, usable, before).value;
    CellsRead(data, l, l.count, usable, before);
    Gathered(l, cells, usable, before);
    if Fits(t, usable, after) {
      forall i | 0 <= i < l.count && cells[i].cell.Some? ensures CellFits(cells[i].cell.value, usable, after) {
        assert Some(t.cells[i]) == cells[i].cell;
      }
      SameCells(data, l, l.count, usable, before, after);
    } else if DecodePage(data, page, usable, after) == Ok(t) {
      DecodeSound(data, page, usable, after);
      assert false;
    }
  }
}
