# chatstore: what its fast paths promise, proved

chatstore copies message databases into a canonical cache. Most of its machinery is a fast incremental form that
must agree with a slow simple one, or a two-party protocol that must neither lose nor repeat evidence after a crash.
This project models six such mechanisms and proves that agreement for every input, every run and every reachable
state. Each stateful object of the program is a class whose methods are proved against functions on values; what the
program promises is then proved about those functions.

| files | mechanism |
|---|---|
| `Bytes`, `Varint`, `Pages`, `PageWriter`, `PageImages`, `Wal`, `WalWriter` | parsing of B-tree pages, overflow chains and the write-ahead log (SQLite "Database File Format", sections 1.6, 1.7, 4.1, 4.2 and 4.5), against the formats stated on their own |
| `PageGraph`, `PageRun`, `PageBaseline`, `PageOutcome`, `PageBuild`, `PageIndex`, `WalImage`, `RowContent` | the page-ownership index: an update from the changed pages alone leaves what a rebuild would, and reports every changed row |
| `MirrorRows`, `Captures`, `NativeMirror`, `Handoff` | the native mirror, its exact row deltas, and the crash-safe handoff to the cache |
| `Intervals`, `Freshness`, `ImportRanges`, `Ranges`, `UnitCoverage`, `CaptureCoverage` | interval tables that stand for pointwise maps, and the accounting of what a capture covers |
| `Changefeed`, `Delivery`, `FeedImport`, `Replica`, `LocalEdits`, `RecordCache` | journal export, durable delivery, import and replication |
| `Routing`, `MediaLedger` | the arguments that let untouched messages and files be skipped |

`dafny verify dfyconfig.toml` checks the whole project.

## Main results

* **Update equals rebuild.** If the stored graph is exact for the old image, every update that returns leaves a graph
  exact for the new image, and at most one graph is exact for an image, up to the two inherited outer bounds that
  nothing reads (`PageIndex.PageIndex.Update`, `PageGraph.ExactUnique`, `PageOutcome.UpdateEqualsBuild`). Every row
  outside the reported candidates has the same leaf, the same chain and the same bytes as before
  (`PageOutcome.CandidatesComplete`, `RowContent.CandidatesCover`). Both hold for updates that read the new pages
  through the log overlay only (`WalImage.UpdateThroughLog`).
* **When a build returns.** A build returns exactly when the image stayed stable, every table is accepted by the row reader
  and no deeper than 64 levels, and no two tables share a tree or overflow page (`PageIndex.PageIndex.Build`,
  `PageBuild.Buildable`). From that follows exactly when a baseline or a reconcile of the mirror succeeds. An update never
  returns from an image that changed meanwhile, and always when nothing that the tables use has changed.
* **The formats, both ways.** The page decoder accepts exactly the table pages of the format, whatever the order and
  placement of their cells, and returns what they hold (`PageWriter.DecodesExactly`, with `LeafRoundTrip` and
  `InteriorRoundTrip`). The log reader reads every written log of either word order for exactly what was written, and
  whatever it reads was written (`WalWriter.LogRoundTrip`, `WalWriter.OnlyWritten`). Pages and logs are stated by a writer of
  their own, and fixed bytes pin it.
* **Accepted tables.** The traversal accepts an image exactly when a tree with nested bounds hangs from the root, and
  the row reader accepts it exactly when, besides, every chain can be read and no page is used twice
  (`PageImages.WalkAccepts`, `PageImages.Rows`).
* **Exact mirror delta.** After a prepare or a reconcile the mirror's rows are the source's rows and the change rows
  are exactly the differences with their before-images; no intermediate insert can break a UNIQUE constraint that the
  source keeps.
* **Crash-safe handoff.** Processes contend for the capture lock, and its holder goes through the program's own steps
  with no other guard than the code's. Over all interleavings of steps, crashes and archive imports an acknowledged
  point has a complete canonical run and one receipt, no complete run is ever overwritten, a pending point is never
  dropped, every parent is complete, and from every reachable state there are steps that end in the acknowledgement of
  the pending point. One call of the collector has exactly the outcome that the mirror's point, its run, the policy and the
  capture's own success decide: in particular a complete capture of the pending point, or of its recovery under a new
  policy, is acknowledged (`Handoff.Collector.RunPreparedSync`).
* **Log reading composes**, with and without frame limits, every page is read from its last committed frame, and no cursor
  is continued but the one that a reading up to its frame would have given.
* **Replication.** What an importer has applied of each producer is exactly a prefix of its journal, once each and in
  order, and even contradictory producers cannot make a sequence take effect twice. One write keeps a replica in step
  if and only if it travels; a journal of writes that all travel reproduces every head and effective time without a
  conflict or an older record on the way. Whatever is imported, a head gives way only to a change that names it: any other
  local edit keeps its text and times, and what differs from it is a conflict (`LocalEdits.LocalEditSurvives`).
* **Delivery.** After any exports and confirmations in any order a checkpoint stands for an unbroken chain of committed,
  proven batches from the start of the journal.
* **Frame theorem for routing.** A message outside the routed selection has identical decoder inputs before and after,
  and a chat key that is not reported has the same holders and candidates.
* **Interval tables** stand for pointwise maps and are canonical, so equal maps mean equal tables.

## Where the code falls short of its own account

The code is modelled as it is; each case below has a concrete witness and the exact condition under which the promise holds.

* `wal_image.py` returns an unchanged page that still names pages beyond the end of an image that has shrunk, where a
  full decode refuses it. The two agree exactly when the page changed or still fits (`WalImage.TreePageRefines`,
  `WalImage.ShrunkImageDiffers`).
* Two freshness stamps with the same time and different runs on a shared id do not commute; any others do
  (`Freshness.CompatibleSwap`, `Freshness.IncompatibleDiffer`).
* Resolving a conflict in favour of the current head moves its observation time without a journal event, so a replica
  keeps the older time (`Replica.KeptHeadDoesNotTravel`); `Replica.WriteTravels` says exactly which writes travel.
* The media ledger brackets a read with fingerprints of the path, but never compares them with the file that was
  opened. A file that exists only while it is read is retained as available for good
  (`MediaLedger.GlimpsedFileStaysAvailable`), and so are another file's bytes if a parent directory is swapped for the
  instant of the read (`MediaLedger.SwappedParentKeepsOtherFile`). A retained observation is right if and only if its
  read was not of this kind (`MediaLedger.RetainedDescribes`); comparing the opened file with the fingerprint would
  exclude it (`MediaLedger.ComparedReadDescribes`).
* Routing reports a chat key, and so withdraws its stub chat, whenever a selected message carries it, but selects the
  messages that the stub stands on only if one of them came, left or changed its key. An edit of a message that has a chat
  of its own can leave the stub of another message withdrawn and not emitted again (`Routing.EditForsakesStub`).
  `Routing.KeyForsaken` says exactly which keys of the tables this can happen to, and `Routing.EditForsakes` exactly
  when the edit of a row does it.

## Assumptions

SQL transactions are atomic steps. Digests of runs are injective where the handoff compares them. A reader's view is
stable and its set of changed pages is complete. Device, inode and birth time name one file, and after any change to a
file its ctime is at most two seconds older than the change; which file a path shows is arbitrary at every instant. The
decoder of a row is an uninterpreted function of the row's bytes.

## Model

| member | source | states |
|---|---|---|
| `Varint.Decode` | src/chatstore/adapters/pages.py:45-57 | the loop reads what the recursive decoder reads, including the nine-byte form and truncation at `end` |
| `Varint.DecodeWithin` | src/chatstore/adapters/pages.py:45-57 | an accepted number ends after its start and not beyond `end` |
| `Varint.DecodeEncode` | src/chatstore/adapters/pages.py:45-57 | decoding inverts the one-to-nine-byte encoding of every 64-bit value, anywhere in a buffer |
| `Varint.RowIdRoundTrip` | src/chatstore/adapters/pages.py:60-61 | every signed 64-bit row id survives encoding, decoding and sign recovery |
| `Pages.LocalBounds` | src/chatstore/adapters/pages.py:99-104 | for every usable size from 480 a spilled cell keeps between the minimum and the maximum local bytes, and fewer than its payload |
| `Pages.LocalFills` | src/chatstore/adapters/pages.py:99-104 | a spilled cell that keeps more than the minimum fills its overflow pages to the last byte |
| `Pages.OverflowCount` | src/chatstore/adapters/pages.py:185-201 | the number of overflow pages is the ceiling of the remaining bytes over usable minus four |
| `Pages.ReadCellLoop` | src/chatstore/adapters/pages.py:84-114 | the loop over cell pointers yields all cells in pointer order, or refuses when one cell is refused |
| `Pages.DecodeTreePage` | src/chatstore/adapters/pages.py:64-127 | the decoder with its loop, as the function that `PageWriter.DecodesExactly` characterises by the page format |
| `Pages.DecodeSound` | src/chatstore/adapters/pages.py:64-127 | an accepted page has strictly ordered keys, distinct children other than itself, one more child than separators, and cells whose sizes and pointers fit the image |
| `Pages.AcceptedCellsApart` | src/chatstore/adapters/pages.py:115-120 | the cells of an accepted page lie inside the content area and no two share a byte |
| `Pages.CellsDisjoint` | src/chatstore/adapters/pages.py:117-120 | the sorted sweep refuses every overlap, in whatever order the pointers list the cells |
| `Pages.DecodeDependsOnFit` | src/chatstore/adapters/pages.py:64-127 | the same bytes decode alike in an image of another size exactly when everything they point to lies inside it |
| `PageWriter.DecodeCode` | src/chatstore/adapters/pages.py:45-57 | every one-to-nine-byte code of a number, shortest or not, decodes to it at any place of a buffer |
| `PageWriter.CodeDecoded` | src/chatstore/adapters/pages.py:45-57 | and whatever decodes is such a code |
| `PageWriter.KeptLocal` | src/chatstore/adapters/pages.py:99-104 | the payload kept on a leaf is what the format prescribes, for every payload and usable size |
| `PageWriter.ApartPacked` | src/chatstore/adapters/pages.py:117-120 | cells that share no byte pass the overlap test, in whatever order the pointers list them |
| `PageWriter.LeafRoundTrip` | src/chatstore/adapters/pages.py:64-127 | every leaf of the format, in any placement and pointer order, page 1 and a content start of 65536 included, decodes to exactly its row ids, payload sizes, kept bytes and overflow pages |
| `PageWriter.InteriorRoundTrip` | src/chatstore/adapters/pages.py:64-127 | every interior page decodes to exactly its left children, keys and the right-most child of its header |
| `PageWriter.DecodesExactly` | src/chatstore/adapters/pages.py:64-127 | a buffer decodes to a page if and only if it is a leaf or interior page of the format that holds just that |
| `PageWriter.ShortestRow` | src/chatstore/adapters/pages.py:95-108 | a row written with the shortest codes is a row of the format |
| `PageWriter.SizeThenId` | src/chatstore/adapters/pages.py:95-96 | the bytes 5, 1 begin the cell of row 1 with five bytes of payload |
| `PageImages.OverflowPages` | src/chatstore/adapters/pages.py:185-201 | the chain loop yields the chain or refuses, as the recursive reader does |
| `PageImages.ChainSound` | src/chatstore/adapters/pages.py:185-201 | what is read is a chain: distinct pages off the leaf, each linked to the next, exactly as many as the bytes need, properly ended |
| `PageImages.ChainComplete` | src/chatstore/adapters/pages.py:185-201 | every such chain is read without refusal |
| `PageImages.TreePages` | src/chatstore/adapters/pages.py:203-219 | the walk terminates, accepts exactly the images with a tree below the root, visits every reachable page once and meets row ids in strictly increasing order |
| `PageImages.WalkAccepts` | src/chatstore/adapters/pages.py:203-219 | a walk is accepted if and only if its pending pages root a forest: one parent a page, bounds handed down by separators, keys within bounds |
| `PageImages.CardinalityBound` | src/chatstore/adapters/pages.py:203-219 | the measure of the walk: pages seen never outnumber the pages of the image |
| `PageImages.CellRow` | src/chatstore/adapters/pages.py:226-232 | a cell is located exactly when its chain can be read and none of its pages is taken |
| `PageImages.LeafRows` | src/chatstore/adapters/pages.py:226-232 | a leaf's rows are located in order, or the table is not private |
| `PageImages.Rows` | src/chatstore/adapters/pages.py:221-232 | strictly increasing row ids over the whole table and no tree or overflow page used twice; refused exactly when no tree hangs from the root, a chain cannot be read or a page would be used twice |
| `Wal.Checksum` | src/chatstore/adapters/wal.py:57-62 | the running-sum loop is the fold of word pairs with 32-bit wrap-around |
| `Wal.FoldConcat` | src/chatstore/adapters/wal.py:57-62 | the checksum of a concatenation continues the checksum of its first part |
| `Wal.ReadChanges` | src/chatstore/adapters/wal.py:65-159 | one reading of the log, as the function that `WalWriter.LogRoundTrip` and `WalWriter.OnlyWritten` characterise by the log format |
| `Wal.Compose` | src/chatstore/adapters/wal.py:101-159 | reading to m and on from that cursor gives the cursor, frames, pages and commit count of reading straight on, however the log grew meanwhile, and fails exactly when it fails |
| `Wal.ComposeBounded` | src/chatstore/adapters/wal.py:92-94 | with frame limits a straight reading within its limit agrees with the resumed one, which succeeds where the straight one is refused exactly when the straight one alone exceeds the limit |
| `Wal.LimitOnly` | src/chatstore/adapters/wal.py:92-94 | a frame limit refuses exactly the longer readings and changes no other |
| `Wal.CursorIsLastCommit` | src/chatstore/adapters/wal.py:124-159 | no frame between the cursor and the end of the reading is a commit: a tail never advances the cursor |
| `Wal.ReadIndexes` | src/chatstore/adapters/wal.py:124-159 | every page written since the start maps to its last committed frame, and nothing else is mapped |
| `Wal.ReadPageIsLastFrame` | src/chatstore/adapters/wal.py:202-223 | on any extension of the log a committed page reads as the body of its last committed frame |
| `Wal.OnlyOwnCursors` | src/chatstore/adapters/wal.py:101-115 | a readable log continues from no cursor but the one that reading up to its frame gives |
| `WalWriter.FoldSums` | src/chatstore/adapters/wal.py:57-62 | the reader's checksum is the recurrence of the format over explicit words in the log's order |
| `WalWriter.LogRoundTrip` | src/chatstore/adapters/wal.py:65-159 | every written log, of either word order and any page size, salts and frames, is read exactly when the bound is its end or the end of a transaction and the limit allows; the reading holds the committed pages at their last frames with their sums, the commit count, the pending tail and the cursor of the last commit |
| `WalWriter.BodiesBack` | src/chatstore/adapters/wal.py:202-223 | each committed page is then read as the body last committed, however much the log has grown |
| `WalWriter.OnlyWritten` | src/chatstore/adapters/wal.py:65-159 | whatever is read from the beginning was written: the bytes up to the bound are those of a log of the format |
| `WalWriter.LittleHeader` | src/chatstore/adapters/wal.py:77-88 | fixed bytes of a header with little-endian words: what a writer writes and the reader accepts |
| `WalWriter.BigHeader` | src/chatstore/adapters/wal.py:77-88 | the same with big-endian words |
| `PageGraph.ExactUnique` | src/chatstore/adapters/page_index.py:83-241 | at most one graph is exact for an image, up to the first child's lower and the last child's upper bound |
| `PageGraph.SameNode` | src/chatstore/adapters/page_index.py:170-228 | two exact graphs have the same pages, owners and edges |
| `PageGraph.SameBounds` | src/chatstore/adapters/page_index.py:170-228 | and the same stored least and greatest row ids, from the leaves up |
| `PageGraph.SameOwner` | src/chatstore/adapters/page_index.py:208-223 | and the same owner and next page for every overflow page |
| `PageRun.ForgetKeeps` | src/chatstore/adapters/page_index.py:112-118 | forgetting a page that nothing owns keeps the invariant of a run |
| `PageRun.BeginKeeps` | src/chatstore/adapters/page_index.py:178-195 | starting a visit cuts the old children loose, replaces the node and keeps the invariant |
| `PageRun.LinkKeeps` | src/chatstore/adapters/page_index.py:145-163 | taking a child over from a tree that no root reaches keeps the invariant, and neither it nor the abandoned ancestors were visited |
| `PageRun.RecordKeeps` | src/chatstore/adapters/page_index.py:208-223 | recording one page of a chain keeps the invariant |
| `PageRun.EndKeeps` | src/chatstore/adapters/page_index.py:224-228 | finishing a visit settles the page |
| `PageRun.SweepKeeps` | src/chatstore/adapters/page_index.py:233-236 | sweeping one orphan keeps the invariant |
| `PageRun.FrameTrans` | src/chatstore/adapters/page_index.py:170-228 | what a visit leaves alone composes over nested visits |
| `PageBaseline.BodiesAgree` | src/chatstore/adapters/page_index.py:79-81 | equal bytes off the changed pages suffice for the update's precondition |
| `PageBaseline.Closed` | src/chatstore/adapters/page_index.py:120-138 | the worklist ends in the upward closure of the dirty pages, all of them known |
| `PageBaseline.CleanChain` | src/chatstore/adapters/page_index.py:120-138 | a chain of an unneeded leaf is unchanged, readable and inside the new image |
| `PageBaseline.CleanDone` | src/chatstore/adapters/page_index.py:174-177 | a page outside the closure is already exact for the new image, so skipping it is right |
| `PageBaseline.StartKeeps` | src/chatstore/adapters/page_index.py:120-143 | cutting the needed pages loose establishes the invariant |
| `PageOutcome.NodeSettled` | src/chatstore/adapters/page_index.py:170-241 | after the sweep every remaining page is settled: none needed was left unvisited |
| `PageOutcome.FinalExact` | src/chatstore/adapters/page_index.py:230-241 | a run that ends leaves the exact graph, with no stale or orphaned page |
| `PageOutcome.CandidatesComplete` | src/chatstore/adapters/page_index.py:105-143 | a row that is not a candidate sits in the same leaf with the same unchanged chain, or nowhere, before and after |
| `PageOutcome.UpdateOutcome` | src/chatstore/adapters/page_index.py:83-255 | exactness and candidate completeness of a finished update together |
| `PageOutcome.UpdateEqualsBuild` | src/chatstore/adapters/page_index.py:76-81 | an update leaves nodes, overflow rows and edges equal to a build's, up to inherited outer bounds |
| `PageBuild.WalkSplit` | src/chatstore/adapters/pages.py:203-219 | walking two lists of pages is walking the first and then the second |
| `PageBuild.ClearRest` | src/chatstore/adapters/page_index.py:198-206 | if nothing stands in the way of several pages, the visit of the first leaves nothing in the way of the others |
| `PageBuild.RootOpens` | src/chatstore/adapters/page_index.py:230-232 | where the tables share no page, the visits of some roots leave nothing in the way of another |
| `PageBuild.ExactPrivate` | src/chatstore/adapters/page_index.py:208-223 | in an exact graph every chain can be read, and no page serves two cells or is a tree page too |
| `PageBuild.GoneBuildable` | src/chatstore/adapters/page_index.py:170-241 | a finished build shows that each of its tables is accepted on its own and that no two share a page |
| `PageBuild.TableMeans` | src/chatstore/adapters/pages.py:203-232 | a table is accepted exactly when a tree hangs from its root, its chains are private and it is at most 64 levels deep |
| `PageIndex.PageIndex.Link` | src/chatstore/adapters/page_index.py:145-163 | a child is taken over, with its abandoned ancestors needed, or refused with nothing changed; a child without a parent is never refused |
| `PageIndex.PageIndex.StorePage` | src/chatstore/adapters/page_index.py:212-223 | a page is recorded exactly when it is no overflow page yet and no reachable tree page; a stale node is forgotten first |
| `PageIndex.PageIndex.StoreChains` | src/chatstore/adapters/page_index.py:208-223 | the overflow rows of a leaf are exactly the chains of its cells; they are always stored, and nothing else changes, if the chains can be read and no page of them is in use |
| `PageIndex.PageIndex.Visit` | src/chatstore/adapters/page_index.py:170-228 | a visit settles the page and everything below it and returns its least and greatest row id, within its bounds; in a build it is the walk below the page, and it is never refused where nothing stands in the way |
| `PageIndex.PageIndex.Close` | src/chatstore/adapters/page_index.py:120-138 | the needed set is the upward closure of the changed or vanished pages and of the owners of such chain pages |
| `PageIndex.PageIndex.CutNeeded` | src/chatstore/adapters/page_index.py:139-143 | exactly the edges and overflow rows of needed pages are cut, their children orphaned and their rows remembered |
| `PageIndex.PageIndex.Sweep` | src/chatstore/adapters/page_index.py:233-236 | nothing unreachable is left |
| `PageIndex.PageIndex.VisitRoots` | src/chatstore/adapters/page_index.py:230-232 | every root is settled; in a build its table was walked, and no visit is refused if the tables are acceptable and share no page |
| `PageIndex.PageIndex.Rebuild` | src/chatstore/adapters/page_index.py:93-96 | over cleared tables the visits and the sweep succeed exactly when each table is accepted and no two share a page |
| `PageIndex.PageIndex.Apply` | src/chatstore/adapters/page_index.py:83-255 | one transaction: exact tables and complete candidates, or everything as before; only from a stable image, and always where the build or the untroubled update allows |
| `PageIndex.PageIndex.Build` | src/chatstore/adapters/page_index.py:76-77 | tables exact for the image, every row a candidate; it returns exactly when the image stayed stable, every table is accepted and no two share a page |
| `PageIndex.PageIndex.Update` | src/chatstore/adapters/page_index.py:79-81 | tables exact for the new image, no changed row missed, only from the state it expects and a stable image; always from there if no page that the tables use changed or vanished |
| `WalImage.TreePageRefines` | src/chatstore/adapters/wal_image.py:46-61 | a changed or stored page read through the overlay is the full image's, if and only if it changed or still fits; any other page is refused |
| `WalImage.ShrunkImageDiffers` | src/chatstore/adapters/wal_image.py:46-61 | an old image with its exact graph, a new image shrunk by one page and the overlay between them: the overlay returns a page that the full decode refuses |
| `WalImage.OverflowPages` | src/chatstore/adapters/wal_image.py:63-84 | the overlay's chain loop yields the chain of changed pages and stored links |
| `WalImage.ChainRefines` | src/chatstore/adapters/wal_image.py:63-84 | a chain read through the overlay is the full image's, and reading fails exactly where that fails or a page is in neither source |
| `WalImage.ExactThroughOverlay` | src/chatstore/adapters/wal_image.py:46-84 | a graph exact for the overlay is exact for the full new image |
| `WalImage.MissedThroughOverlay` | src/chatstore/adapters/wal_image.py:46-84 | a row untouched as the overlay sees it is untouched in the full image |
| `WalImage.UpdateThroughLog` | src/chatstore/adapters/wal_image.py:46-84 | an update that never opens the new file leaves the index exact for its full image and misses no changed row; only while the view is stable, and always if no page in use changed |
| `RowContent.SameContent` | src/chatstore/adapters/page_index.py:105-143 | a row outside the candidates is stored as the same bytes before and after |
| `RowContent.CandidatesCover` | src/chatstore/adapters/page_index.py:105-143 | every inserted, deleted or changed row is a candidate, for any decoder of row bytes |
| `MirrorRows.SameRowIsEqual` | src/chatstore/adapters/native_mirror.py:50-56 | the typed comparison is equality of rows |
| `MirrorRows.PartMayInsert` | src/chatstore/adapters/native_mirror.py:416-422 | while the mirror holds a part of the source's rows, no insert of a source row can break a UNIQUE constraint |
| `MirrorRows.MergeStep` | src/chatstore/adapters/native_mirror.py:247-280 | each step of the ordered merge takes the least unread id and pairs it with its counterpart, if any |
| `MirrorRows.DeltaCounted` | src/chatstore/adapters/native_mirror.py:388-423 | the change count of a table is the number of differing rows |
| `MirrorRows.MirrorTables.CompareOne` | src/chatstore/adapters/native_mirror.py:402-415 | one id adds a change row and a staged row exactly when the two sides differ |
| `MirrorRows.MirrorTables.Replace` | src/chatstore/adapters/native_mirror.py:416-422 | deleting the changed rows and inserting the staged ones one by one ends in the source's rows, and no insert can fail |
| `MirrorRows.MirrorTables.PrepareTable` | src/chatstore/adapters/native_mirror.py:388-423 | from any candidates that cover the differences: rows equal the source's, changes are exactly the differences with before-images, the count matches |
| `MirrorRows.MirrorTables.ReconcileTable` | src/chatstore/adapters/native_mirror.py:247-280 | the same from two complete ordered reads |
| `MirrorRows.MirrorTables.PrepareAll` | src/chatstore/adapters/native_mirror.py:388-423 | the same over all tables |
| `MirrorRows.MirrorTables.ReconcileAll` | src/chatstore/adapters/native_mirror.py:247-280 | the same over all tables |
| `MirrorRows.MirrorTables.CopyAll` | src/chatstore/adapters/native_mirror.py:295-363 | a baseline holds the source's rows, no change rows, and counts all rows |
| `NativeMirror.NativeMirror.Prepare` | src/chatstore/adapters/native_mirror.py:365-435 | only from the acknowledged point it names: page index, rows and changes move to the new view together and exactly, or nothing moves; always if the view is pinned, valid and leaves the pages in use alone |
| `NativeMirror.NativeMirror.Reconcile` | src/chatstore/adapters/native_mirror.py:218-293 | the same from a full image; it succeeds exactly when a reconcile is allowed, the view is pinned and valid, and its image can be built |
| `NativeMirror.NativeMirror.Baseline` | src/chatstore/adapters/native_mirror.py:295-363 | the first point, or a replacement of an acknowledged one, never of a pending one; exactly when the view is pinned and valid and its image can be built |
| `NativeMirror.NativeMirror.Publish` | src/chatstore/adapters/native_mirror.py:165-173 | the new point is pending and describes the view |
| `NativeMirror.NativeMirror.RecoverPendingPolicy` | src/chatstore/adapters/native_mirror.py:130-163 | exactly the expected pending point, and exactly under another policy, is reinterpreted in place: same rows, same source cut, same parent |
| `NativeMirror.NativeMirror.Acknowledge` | src/chatstore/adapters/native_mirror.py:456-469 | succeeds exactly for the stored token and, if repeated, the stored receipt; repeating changes nothing |
| `NativeMirror.NativeMirror.Continuation` | src/chatstore/adapters/native_mirror.py:118-128 | refused exactly while a point is pending; otherwise the acknowledged capture |
| `NativeMirror.PreparedContinues` | src/chatstore/adapters/native_mirror.py:374-381 | a prepared and acknowledged point is continued by exactly the views of its source and schema whose log begins where it ended, under its token, namespace and policy |
| `NativeMirror.PreparedReconciles` | src/chatstore/adapters/native_mirror.py:194-216 | it can be reconciled under the same conditions but for the log, if the tables are the same |
| `NativeMirror.PendingBlocks` | src/chatstore/adapters/native_mirror.py:194-216 | nothing continues from a point that is pending |
| `NativeMirror.RecoveredRebases` | src/chatstore/adapters/native_mirror.py:130-163 | a recovered point, once acknowledged, can only be followed by a new baseline |
| `NativeMirror.NativeMirror.ChangesExact` | src/chatstore/adapters/native_mirror.py:437-454 | the changes handed out are exactly the differing rows of the selected tables, with before and after |
| `Handoff.StepKeeps` | src/chatstore/prepared_sync.py:440-492 | every step of every process, under the lock or waiting for it, and every crash and archive import, keeps the databases and what the holder of the lock relies on |
| `Handoff.RunKeeps` | src/chatstore/prepared_sync.py:440-492 | so does every run of any processes in any order |
| `Handoff.ActKeeps` | src/chatstore/prepared_sync.py:446-492 | each step of the holder of the lock, in the order of the program, ends where the next one may rely on: a point about to be captured is pending and not complete |
| `Handoff.CompleteStays` | src/chatstore/sync.py:76-102 | no step ever changes a complete run, although runs are stored without looking at what they replace |
| `Handoff.AcknowledgedIsCaptured` | src/chatstore/prepared_sync.py:136-179 | an acknowledged point has a complete canonical run with its manifest, and the receipt that the cache holds |
| `Handoff.OneReceipt` | src/chatstore/prepared_sync.py:169-179 | at most one receipt is ever committed for a token |
| `Handoff.ParentsComplete` | src/chatstore/prepared_sync.py:157-167 | the parent of every point ever published is canonically complete with the content its child names |
| `Handoff.PendingIsNeverDropped` | src/chatstore/prepared_sync.py:182-245 | a step leaves a pending point, acknowledges it as complete, or recovers it in place with the same parent and source cut |
| `Handoff.AlwaysResumable` | src/chatstore/prepared_sync.py:440-492 | from every reachable state with a pending point, once the holder of the lock is gone, steps of any process lead to its acknowledgement |
| `Handoff.AncestorsKnown` | src/chatstore/prepared_sync.py:248-285 | the recovery ancestors of a pending point can be read, and all are superseded and incomplete |
| `Handoff.RetireKeeps` | src/chatstore/prepared_sync.py:248-285 | closing the runs of superseded attempts succeeds and completes none |
| `Handoff.RetireCloses` | src/chatstore/prepared_sync.py:248-285 | retiring closes as failed exactly the unfinished runs of the captures that the point took the place of, however many recoveries lie between |
| `Handoff.LookupFinds` | src/chatstore/prepared_sync.py:136-155 | at the mirror's own point the lookup finds a receipt exactly when the run is complete |
| `Handoff.SaveKeeps` | src/chatstore/sync.py:76-102 | for a pending point that is not complete a run is stored, and a complete one is refused exactly by its validation, parent check or coverage; its receipt can always be committed with it |
| `Handoff.AckKeeps` | src/chatstore/adapters/native_mirror.py:456-469 | a receipt that witnesses the mirror's own point can be acknowledged, and that keeps the invariant |
| `Handoff.Collector.CommitReceiptRow` | src/chatstore/prepared_sync.py:169-179 | a receipt is inserted once and only ever repeated identically |
| `Handoff.Collector.LookupReceipt` | src/chatstore/prepared_sync.py:136-155 | the lookup, as the step of the process that it is, with its answer |
| `Handoff.Collector.FindOrRebuild` | src/chatstore/prepared_sync.py:136-155 | the lookup's result and effect, including a receipt rebuilt from a complete run |
| `Handoff.Collector.ValidateCapture` | src/chatstore/prepared_sync.py:128-134 | accepts exactly the pending point of this namespace under the current policy |
| `Handoff.Collector.SaveRun` | src/chatstore/sync.py:76-102 | `save_run` at the two places of a prepared sync that call it; the caller proves where it stands |
| `Handoff.Collector.StoreRun` | src/chatstore/sync.py:88-102 | the transaction: only a complete run is checked, coverage entering as the outcome of its finish, and stored with its receipt or not at all |
| `Handoff.Collector.CheckParentRun` | src/chatstore/prepared_sync.py:157-167 | goes on exactly when the parent is complete and is the capture that its run says |
| `Handoff.Collector.AcknowledgeMirror` | src/chatstore/prepared_sync.py:487-491 | the mirror is acknowledged with the receipt that was found |
| `Handoff.Collector.RecoverPolicy` | src/chatstore/prepared_sync.py:182-245 | recovery replaces the pending point in place, exactly under another non-empty policy, or changes nothing |
| `Handoff.Collector.RetireAttempts` | src/chatstore/prepared_sync.py:248-285 | the loop over ancestors closes exactly their unfinished runs, or nothing |
| `Handoff.Collector.AcknowledgeIfCaptured` | src/chatstore/prepared_sync.py:451-462 | the mirror's own point is acknowledged exactly when its run is complete; any other capture is refused, and nothing is acknowledged without its run |
| `Handoff.Collector.Admit` | src/chatstore/prepared_sync.py:463-469 | the pending point under its own policy, or its recovery under another non-empty one; refused for anything else |
| `Handoff.Collector.OpenRun` | src/chatstore/prepared_sync.py:470-473 | for a validated point the superseded attempts are closed, the parent is complete and the run is recorded as running, without fail |
| `Handoff.Collector.CloseRun` | src/chatstore/sync.py:76-102 | only a complete status can be refused, exactly without coverage or under another policy |
| `Handoff.Collector.Attempt` | src/chatstore/prepared_sync.py:485-491 | a finished and covered capture of a validated point is acknowledged; any other leaves it pending |
| `Handoff.Collector.RunPreparedSync` | src/chatstore/prepared_sync.py:440-492 | a whole sync is a sequence of protocol steps that leaves the lock free, with its outcome for every mirror state: a complete point is acknowledged; a pending one, or its recovery under another policy, is acknowledged if the capture finished and is covered and stays pending if not; a capture that is not the mirror's point is refused |
| `Intervals.CanonicalUnique` | src/chatstore/cache/freshness.py:26-73 | a disjoint, maximally coalesced table is determined by the map it stands for |
| `Intervals.PredecessorReads` | src/chatstore/cache/freshness.py:18-23 | the one-row predecessor query reads the table's map, gaps included |
| `Intervals.Punctured` | src/chatstore/cache/import_ranges.py:69-83 | cutting one key out of its row removes that key and nothing else, and stays canonical |
| `Intervals.FilledCanonical` | src/chatstore/cache/import_ranges.py:103-116 | a table filled from ordered rows is canonical |
| `Intervals.FilledAt` | src/chatstore/cache/import_ranges.py:103-116 | and reads as its rows |
| `Freshness.FreshnessRanges.Lookup` | src/chatstore/cache/freshness.py:18-23 | the newer of what the caller and the table hold; a tie goes to the table |
| `Freshness.FreshnessRanges.Stamp` | src/chatstore/cache/freshness.py:26-73 | pointwise: keep what is strictly newer, else overwrite; outside the spans nothing changes; the table stays canonical |
| `Freshness.FreshnessRanges.StampAll` | src/chatstore/cache/freshness.py:26-73 | a history of stamps leaves the fold of the pointwise rule |
| `Freshness.FreshnessRanges.Forget` | src/chatstore/cache/freshness.py:76-88 | exactly the given keys are removed |
| `Freshness.StampedIsLatest` | src/chatstore/cache/freshness.py:26-73 | after any history an id holds the latest sighting it was given |
| `Freshness.StampOrderIrrelevant` | src/chatstore/cache/freshness.py:26-73 | any permutation of stamps without ties ends in the identical table |
| `Freshness.CompatibleSwap` | src/chatstore/cache/freshness.py:26-73 | two stamps commute from every start if they leave no tie of different sightings |
| `Freshness.IncompatibleDiffer` | src/chatstore/cache/freshness.py:26-73 | and they do not commute otherwise |
| `Ranges.NormalUnique` | src/chatstore/cache/unit_coverage.py:24-33 | a merged list is determined by the ids it covers |
| `Ranges.Coalesce` | src/chatstore/cache/import_ranges.py:143-150 | the merge pass yields disjoint, non-adjacent ranges over the same ids |
| `UnitCoverage.Merge` | src/chatstore/cache/unit_coverage.py:24-33 | accepts exactly valid spans and covers exactly their ids, in normal form |
| `UnitCoverage.SubtractOne` | src/chatstore/cache/unit_coverage.py:36-55 | the inner pointer loop keeps exactly the uncut ids of one range |
| `UnitCoverage.Subtract` | src/chatstore/cache/unit_coverage.py:36-55 | covers exactly the ids of the first list that the second does not cover, in normal form |
| `UnitCoverage.Retained` | src/chatstore/cache/unit_coverage.py:126-131 | accepts exactly withdrawals inside the prior coverage, and keeps the rest |
| `CaptureCoverage.IdRanges` | src/chatstore/cache/changefeed.py:154-161 | the ids as maximal runs |
| `CaptureCoverage.CoverageStore.Begin` | src/chatstore/cache/capture_coverage.py:41-71 | an attempt starts or resumes exactly when its parent, epoch and withdrawal allow it |
| `CaptureCoverage.CoverageStore.RestartFull` | src/chatstore/cache/capture_coverage.py:82-92 | a full attempt replaces the caller's own |
| `CaptureCoverage.CoverageStore.Writing` | src/chatstore/cache/capture_coverage.py:108-113 | allowed exactly when no unrelated write moved the epoch; then the attempt follows it |
| `CaptureCoverage.CoverageStore.Stage` | src/chatstore/cache/capture_coverage.py:115-120 | the staged ranges grow by exactly the given ids |
| `CaptureCoverage.CoverageStore.Finish` | src/chatstore/cache/capture_coverage.py:148-166 | success exactly when every semantic write since the start was the attempt's own; new coverage and absences are disjoint and together equal prior coverage and staged ids; a full capture stages or marks absent everything that was present |
| `CaptureCoverage.Mark` | src/chatstore/cache/unit_coverage.py:133-150 | exactly the present ids inside the absent ranges are marked, one epoch step each |
| `ImportRanges.Replace` | src/chatstore/cache/import_ranges.py:69-92 | one key takes the given value or none, all others keep theirs, and the table stays canonical |
| `ImportRanges.Build` | src/chatstore/cache/import_ranges.py:103-116 | the one-time projection is canonical and reads as the mapping |
| `ImportRanges.TranslateSpan` | src/chatstore/cache/import_ranges.py:124-142 | succeeds exactly when every key of the span is mapped, and yields exactly the eligible ids |
| `ImportRanges.RangeIndex.Bind` | src/chatstore/cache/import_ranges.py:8-46 | binding a key marks it, so clean keys still read as their projection |
| `ImportRanges.RangeIndex.SetLocal` | src/chatstore/cache/import_ranges.py:8-46 | a content change marks every key of every producer bound to that id |
| `ImportRanges.RangeIndex.DeleteLocal` | src/chatstore/cache/import_ranges.py:8-46 | so does a deletion |
| `ImportRanges.RangeIndex.Refresh` | src/chatstore/cache/import_ranges.py:100-122 | afterwards the producer's table is the projection of all its mappings, and other producers' marks and tables are as before |
| `ImportRanges.RangeIndex.Translate` | src/chatstore/cache/import_ranges.py:95-150 | succeeds exactly when every requested key is bound, and returns exactly the eligible local ids, sorted, disjoint and non-adjacent |
| `ImportRanges.RangeIndex.ProjectionUnique` | src/chatstore/cache/import_ranges.py:100-122 | the refreshed table is row for row the from-scratch one |
| `Changefeed.Exporter.Gather` | src/chatstore/archive/incremental.py:52-75 | the longest run of next changes within the count and byte limits; refused exactly when the first is too large |
| `Changefeed.Exporter.ExportChanges` | src/chatstore/archive/incremental.py:35-159 | a batch continues its consumer's stream with what the journal holds, as long as the limits allow, and is the file under the label of its changes, adopted if it was there; refused exactly for an unknown consumer or a first change that is too large, empty exactly at the end of the journal |
| `Changefeed.Exporter.Publish` | src/chatstore/archive/incremental.py:76-148 | the new file, or the one that an interrupted export left under the same label |
| `Changefeed.Exporter.CommitCursor` | src/chatstore/archive/incremental.py:148-154 | export row and cursor move together, by one batch that names the previous one |
| `Changefeed.FileContinues` | src/chatstore/archive/incremental.py:85-96 | a file that starts where its stream stands has the stream's end as parent and is uncommitted, whoever wrote it |
| `Changefeed.PrefixByEnd` | src/chatstore/archive/incremental.py:148-154 | a stream's chain never returns to a sequence |
| `Changefeed.ChainAscends` | src/chatstore/archive/incremental.py:148-154 | along a chain the sequence strictly ascends |
| `Delivery.Destinations.Confirm` | src/chatstore/archive/delivery.py:43-93 | a checkpoint moves by exactly one committed, verified batch that continues it; a stored proof is only repeated |
| `Delivery.Destinations.StillValid` | src/chatstore/archive/delivery.py:43-93 | the next committed export leaves every checkpoint what it was |
| `Delivery.CheckpointMeansChain` | src/chatstore/archive/delivery.py:79-93 | after any run of exports and confirmations a checkpoint at n stands for an unbroken parent chain from 0 to n, each batch committed and proven for that destination |
| `Delivery.RunKeeps` | src/chatstore/archive/delivery.py:43-93 | every run of exports and confirmations keeps a confirmed chain behind every checkpoint |
| `Delivery.CommitIsExport` | src/chatstore/archive/incremental.py:148-154 | the exporter's cursor commit is an export step of such a run |
| `Delivery.ConfirmedIsPrefix` | src/chatstore/archive/delivery.py:79-93 | what is confirmed is a prefix of the committed chain |
| `Delivery.PendingIsTheRest` | src/chatstore/archive/delivery.py:17-28 | what is pending is exactly the rest of it, in order |
| `FeedImport.PrefixExtends` | src/chatstore/archive/incremental.py:212-223 | an honest batch that starts within the applied prefix extends it to the later end |
| `FeedImport.ReceiveFollows` | src/chatstore/archive/import_.py:227-268 | importing any batch keeps every producer's prefix, and a new honest batch whose parent is there is imported |
| `FeedImport.AppliedIsPrefix` | src/chatstore/archive/import_.py:227-268 | for any streams, orders, retries and overlaps the applied sequences are exactly 1 to the furthest stream head, once each and in journal order |
| `FeedImport.AtMostOnce` | src/chatstore/archive/incremental.py:214-223 | for any batches of any producers, contradictory ones included, each sequence takes effect at most once, exactly the applied ones did, and each with the change that its digest was taken of |
| `FeedImport.NewChangesOnce` | src/chatstore/archive/incremental.py:214-223 | the new changes of a batch are ascending, not applied before, and none is left out |
| `FeedImport.ContradictionRefused` | src/chatstore/archive/incremental.py:214-223 | other evidence for an applied sequence is refused and nothing changes |
| `FeedImport.RetriesRecognised` | src/chatstore/archive/import_.py:227-268 | once a batch is imported, and after anything else, the same archive is recognised and any other under its id is invalid |
| `FeedImport.Importer.ApplyEvents` | src/chatstore/archive/incremental.py:212-283 | exactly the changes not applied before take effect, in order, unless one contradicts its first evidence |
| `FeedImport.Importer.ImportDelta` | src/chatstore/archive/import_.py:227-268 | one archive in one transaction: repeated, refused or replayed as the ledger decides |
| `Replica.InsertInStep` | src/chatstore/archive/incremental.py:224-283 | an inserted record replays as inserted and keeps the copy in step |
| `Replica.UpdateInStep` | src/chatstore/cache/store.py:172-215 | a changed record replays as updated, never as a conflict, exactly when its time is not older than the effective one |
| `Replica.TouchInStep` | src/chatstore/cache/changefeed.py:69-116 | a rewrite with the same digest replays as unchanged, and keeps the copy in step exactly when its time is not older or the effective time stays |
| `Replica.RefreshInStep` | src/chatstore/cache/changefeed.py:130-151 | a refresh event moves the same records' times on both sides |
| `Replica.WriteTravels` | src/chatstore/archive/incremental.py:212-295 | after any write, replaying its events keeps the copy in step if and only if the write travels, never meets a conflict, and meets no later record if it travels |
| `Replica.CoveredKeepsTime` | src/chatstore/curation.py:181-206 | a rewrite leaves the effective time alone exactly when its time is the stored one, or the record was sighted since both |
| `Replica.KeptHeadDoesNotTravel` | src/chatstore/curation.py:181-206 | keeping the current head in a conflict moves its time here and not in a replica |
| `Replica.ReplicaFollows` | src/chatstore/archive/incremental.py:212-295 | replaying a journal whose writes all travel into an empty cache gives every record the producer's head and effective time, with no conflict or older outcome |
| `Replica.SightedLater` | src/chatstore/cache/changefeed.py:173-183 | a sighting moves the effective time of exactly the sighted records, never back |
| `LocalEdits.Received` | src/chatstore/archive/incremental.py:229-237 | the outcome of an imported record, exactly: by whether it is known, differs, names the head here as its previous one, and is not older |
| `LocalEdits.HeadGivesWay` | src/chatstore/cache/store.py:195-215 | a head changes exactly to a different record that names it as the previous one and is not older |
| `LocalEdits.LocalEditSurvives` | src/chatstore/archive/incremental.py:231-237 | over any imports that never name it a head keeps its text and time, each record that differs from it is a conflict, and no journal row of it is written |
| `LocalEdits.LocalTimeSurvives` | src/chatstore/archive/incremental.py:270-283 | and if the producer never had its content its effective time stays too, whatever is refreshed |
| `RecordCache.RecordCache.Write` | src/chatstore/cache/store.py:172-215 | one upsert: inserted, updated, older, conflicting or unchanged, each exactly when it must be, with the journal rows its triggers write; a conflicting or older import changes nothing |
| `RecordCache.RecordCache.RefreshRecords` | src/chatstore/cache/changefeed.py:173-183 | sightings of known records and one refresh event |
| `RecordCache.RecordCache.SetHead` | src/chatstore/cache/store.py:237-247 | a stored revision becomes the head; an unknown one changes nothing |
| `RecordCache.RecordCache.UpsertMany` | src/chatstore/cache/store.py:151-170 | a batch with one head lookup and one deferred refresh leaves the store that one-by-one upserts leave |
| `MediaLedger.OldMeansConstant` | src/chatstore/adapters/media_ledger.py:8-16 | a file whose ctime is older than an instant less the window has not changed since that instant |
| `MediaLedger.RetainedDescribes` | src/chatstore/adapters/media_ledger.py:94-137 | a clean entry seen again with its fingerprint describes the path as it is, if and only if the fingerprint's own subject, the file that it names or absence, would have given the observation when it was read |
| `MediaLedger.ComparedReadDescribes` | src/chatstore/adapters/media_ledger.py:116-136 | a read known to have met the file that the fingerprint names, or absence, describes the path for as long as the fingerprint is seen |
| `MediaLedger.GlimpsedFileStaysAvailable` | src/chatstore/adapters/media_ledger.py:40-52 | a file that the path shows only during the read is retained as available |
| `MediaLedger.SwappedParentKeepsOtherFile` | src/chatstore/adapters/media_ledger.py:116-136 | a parent directory swapped for the instant of the read: every file is old and unchanged, and the other file's bytes are retained |
| `MediaLedger.RowRetained` | src/chatstore/adapters/media_ledger.py:94-137 | a row that is not read again describes the path as this poll sees it, if and only if its read was not stray |
| `MediaLedger.RowRead` | src/chatstore/adapters/media_ledger.py:146-158 | a row read between equal fingerprints of this poll has its whole bracket between the first look at it and the last check, and describes the path at the instant that an attempt read it |
| `MediaLedger.PolledDescribes` | src/chatstore/adapters/media_ledger.py:94-158 | after a poll every observation is what the path showed when that poll looked at the row or read it, unless it was retained from a stray read |
| `MediaLedger.MediaLedger.Dirty` | src/chatstore/adapters/media_ledger.py:94-137 | exactly the moved, unknown, racy, volatile or vanished rows are dirty |
| `MediaLedger.MediaLedger.ReadRows` | src/chatstore/adapters/media_ledger.py:120-136 | success exactly when all selected rows can be read between equal fingerprints, at the first attempt or at the second; each row was then read between the equal fingerprints of that attempt |
| `MediaLedger.MediaLedger.Poll` | src/chatstore/adapters/media_ledger.py:94-158 | a poll succeeds exactly when the rows that are due can be read between equal fingerprints within two attempts; it then reads exactly the rows that are due, by one of its two attempts: all in a full one, else those reported changed or not clean; every other row is retained unchanged and right if and only if its read was not stray; a failed poll changes nothing |
| `Routing.CkIdentifierIsTail` | src/chatstore/adapters/messages/dependencies.py:13-17 | the SQL expression picks what the adapter's `split(';', 2)[-1]` picks, on every string |
| `Routing.RouteChanges` | src/chatstore/adapters/messages/dependencies.py:57-186 | refused exactly for a baseline, an unpinned point or an unknown table; otherwise the selection of the gathered changes |
| `Routing.DiffCovers` | src/chatstore/adapters/messages/dependencies.py:98-142 | the changes of an exact diff contribute every message, handle, chat, attachment and guid that moved |
| `Routing.Frame` | src/chatstore/adapters/messages/dependencies.py:98-186 | a message outside the selection has the same row, joins, attachments, replies, handle keys, chats and inferred chats before and after, and none of its files was reported changed |
| `Routing.ClosedUnderGuid` | src/chatstore/adapters/messages/dependencies.py:167-169 | the selection is closed under equal guid in the old and in the new tables |
| `Routing.OldKeysExact` | src/chatstore/adapters/messages/dependencies.py:170-181 | the old keys are exactly the old guids of selected rows |
| `Routing.UnitsCovered` | src/chatstore/adapters/messages/adapter.py:181-284 | a unit whose key is neither old nor new has the same rows and the same inputs before and after |
| `Routing.UnreportedKeyStays` | src/chatstore/adapters/messages/dependencies.py:150-186 | a chat key that is not reported is held by the same rows before and after, none of them selected, and has the same candidates |
| `Routing.HoldersSelected` | src/chatstore/adapters/messages/dependencies.py:158-166 | when a row begins or ceases to hold a key, every row that holds it afterwards is selected |
| `Routing.ForsakenHasDecoy` | src/chatstore/adapters/messages/dependencies.py:150-182 | whatever changed, a reported key is emitted again if it is held, unless a row with a chat of its own carries it that shares its guid with no holder |
| `Routing.KeyForsaken` | src/chatstore/adapters/messages/dependencies.py:150-182 | some change into the tables reports a held key without selecting a holder, if and only if the tables have such a row |
| `Routing.EditForsakes` | src/chatstore/adapters/messages/dependencies.py:98-182 | an edit of one row does so exactly when the row, or one with its guid or its parent's, carries the key with a chat of its own, and every holder is none of these |
| `Routing.EditForsakesStub` | src/chatstore/adapters/messages/adapter.py:238-266 | an edit for which that happens: the stub chat of an unselected message is withdrawn |
| `Routing.HeadersExact` | src/chatstore/adapters/messages/dependencies.py:121-142 | a header table is reported exactly when one of its rows changed |

## Left out

- PageIndex.PageIndex.Update: beyond the case that nothing in use has changed, when an update returns is not stated. The code refuses some images that a build accepts, such as an unchanged overflow chain whose cell moved to another leaf while the old leaf is unreachable but unchanged; the caller then reconciles.
- Handoff.RunKeeps: runs are keyed by token, since the run's URN is an injective function of it; the batches written between two stores of a run, and the coverage attempt beyond the outcome of its finish, are not part of its state.
- CaptureCoverage.CoverageStore.Finish: one coverage namespace; several are independent rows of the same tables. The refresh of retained ranges, one stamp of the freshness table, is not repeated here.
- Replica.ReplicaFollows: purged journals, legacy key upgrades and observation events are not part of the replayed journal; sightings are a map from id to time, which the freshness table is proved to be.
- MediaLedger.MediaLedger.Poll: opening and reading one file is one instant; rows without a path are skipped.
- Routing.RouteChanges: errors for column values of a wrong type are not modelled, nor the order in which changes arrive.
- MirrorRows.PartMayInsert: UNIQUE constraints compare values exactly; collations are not modelled, and before-images are values rather than their JSON text.
- Wal.ReadChanges: page-read counters and statistics, here and in the other readers.
- Nested savepoints: every SQL transaction is one atomic step that is undone as a whole.
- Files, sockets, locks, hashing, encryption, ZIP and TAR containers, JSON Schema and SQLite's own engine.
- Reading the WAL index and pinning a source view: a stable view with a complete set of changed pages is assumed.
- The body of the message decoder and of record formatting: an uninterpreted function of the inputs that are proved unchanged.
- The WhatsApp adapter, projection epochs, the batching of an ordinary sync, and the dispatch over continuation attempts.
- Full-snapshot archives, monthly buckets, retirement, schema migrations, search, queries, the command line and configuration.
