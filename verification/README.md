# BlobSeer: a verified model

BlobSeer is a versioned blob store. A write never overwrites data: it stores new pages, takes a
version ticket, weaves a copy-on-write segment tree into a DHT while earlier writers may still be
unfinished, and then asks for publication. This project models that protocol and the layers under
it in Dafny and proves what they promise, for every input, every interleaving and every reachable
state.

## Main results

1. **The protocol refines an array of pages.** In every interleaving of tickets at any offset,
   single fetches, single puts, publications and clones by any number of writers, the version that
   a write makes reads, from the offset asked for on, what was written (`WriteRead.WrittenIsRead`),
   no later step changes what a published version reads (`Refinement.SnapshotIsolation`), and a
   page that is read was written there by some version of the history
   (`Refinement.ReadsAreWrites`). While every ticket of the history was in reach, every version has
   a complete tree (`Refinement.PublishedTreesAreComplete`) and reads exactly as the array of pages
   with its writes applied in ticket order (`Refinement.ReadsRefineFlatStore`).
2. **The exact conditions on offsets, on every run.** A ticket is in reach if its write is the first
   of the history or starts below twice the root size in force; appends always are
   (`OffsetLimits.TicketInReachIff`). All versions of a published history read as their own flat
   histories if and only if every ticket was in reach (`OffsetLimits.HistoryReadsFlatIff`). Their
   trees are free of dangling links if and only if no writer linked a pending write with a smaller
   root as its left brother at offset 0 (`OffsetLimits.HistoryPresentIff`).
3. **End to end, in bytes.** `BlobRead.ReadBlob` runs the whole read path in any reachable state:
   it fails exactly when the range leaves the root or meets a page that the version does not have,
   and otherwise puts byte `offset + x` of the version into `buffer[x]`. The walk is proved for
   every order in which its gets are answered (`ReadLocations.AnyOrderSucceedsIff`).
4. **Publication and sizes.** On every run a version is visible exactly when it and all older ones
   were asked to be published (`Progress.VisibleIffPublished`); every run can be continued until
   all tickets are published, and every write a client may ask for can be made and read back
   (`Progress.EveryTicketCanBePublished`, `Progress.WriteCanBeRead`). Appends tile new blobs and
   clones (`BlobSizes.NewBlobAppends`, `BlobSizes.CloneAppends`), and if tickets are granted one by
   one, sizes and append offsets are the largest end written so far (`BlobSizes.RunSizes`,
   `BlobSizes.AppendStartsAtEnd`).
5. **The layers below**: the FUSE mirror equals a plain byte array, and a commit of it is certain to
   be right exactly when the marked pages are known in full (`LocalMirror.CommitCertainIff`); the
   LRU cache evicts the least recently used key and conserves dirty values; the provider's
   three-tier store keeps every accepted page in exactly one responsible place; the allocator takes
   for every replica the provider with the lowest score and then the most free space outside its
   group (`Allocator.AdvManager.Get`), and keeps scores balanced; one DHT replica per gateway lands
   on distinct gateways for every key exactly when their number is a power of two
   (`DhtPlacement.DistinctIffPower`); packed put counters report once; no RPC callback runs twice
   exactly when no late connection error looks like the reuse marker (`RpcClient.OwedOnceIff`), and
   no connection carries two requests (`RpcSockets.SocketsConserved`).

## How it is organised

Positions in the segment tree are pairs (level, index); `Dyadic` ties them to the byte arithmetic
of the code and every proof about trees is done on positions. `History` defines both meanings of a
blob's log of writes, the flat one and the tree one. `Siblings`, `Descent`, `Weave`, `NodeDeque` and
`WriteLocations` are the write path as the code runs it; `ReadLocations`, `ByteRead` and `BlobRead`
the read path; `VersionManager` and `VersionService` the version manager. `Protocol` puts them
together as a step system, `ProtocolInvariant`, `ProtocolSteps` and `ProtocolGrant` prove its
invariant, `WriterCode` ties its writers to the code, and `Refinement` holds the theorems. `Shape`
says what holds of stored trees whatever the offsets; `Reach`, `Dangling` and `OffsetLimits` hold
the conditions on offsets, `BlobSizes` what the version manager promises about sizes, and
`WriteRead` and `Progress` the way from a write to its readers.
`Arithmetic` and `Basics` are shared helpers. Objects that the code updates in place are classes
(`VersionService`, `LocalMirror`, `CacheService`, `PageService`, `Allocator`, `DhtClient`,
`RequestQueue`); their methods are proved against the functions that the theorems are about.

## What the model assumes

- Offsets, sizes, versions and request numbers are unbounded; only the DHT hash and the packed
  counter are 32-bit.
- DHT gets and puts are reliable in the protocol; page contents and provider lists are kept apart
  from tree nodes, which is the assumption that random page tags collide neither with each other
  nor with versions.
- Writes are whole, page-aligned, non-empty pages, as the client asserts. Their offsets are not
  restricted: the theorems that need every ticket of a history in reach say so.
- A writer asks for publication after all its nodes are stored; one that dies never does.
- The version manager's doubling loop is entered with a root size above 0; a clone of a blob that
  was never written has root size 0 (`VersionService.CloneOfUnwrittenStuck`), and
  `VersionManager.DoublingEndsIff` says exactly when the loop ends.
- A host lookup that fails is taken to run the request's callback, see below.

## Where the code does not do what one might expect

- A write that starts at or beyond twice the current root size loses pages of the blob for readers
  of its version and possibly of later ones (`Reach.OutOfReachLosesPage`;
  `Reach.TwoWritesLosePage` is the smallest case: page 0, then page 2). If a smaller write is
  pending at that moment, the new tree even links a node that nobody ever stores
  (`Dangling.UnsafeDangles`).
- Shrinking a cache has no effect: the new size is never stored. After `resize(n)` the cache stays
  within n entries if and only if n was no smaller than the size in force
  (`CacheResize.ResizeHoldsIff`; `CacheResize.ShrinkKeepsBoth` is an instance).
- An allocation request whose size is not a multiple of the replica count fails after raising
  scores, and with fewer providers than replicas a request for exactly all of them succeeds
  (`Allocator.AdvManager.Get`).
- With a number of gateways that is not a power of two, the key of four zero bytes or the key
  16, 47, 110, 78 has two replicas on one gateway (`DhtPlacement.OthersCollide`); with three
  gateways the first two replicas of every two-byte key share one
  (`DhtPlacement.ThreeGatewaysCollide`).
- `waiting_count` is too high by the number of stolen requests, so `run()` reports failure after a
  steal and new connections stop after 128 steals (`RpcClient.WaitingCountDrift`).
- A connection error that equals the reuse marker and meets a request that is no longer connecting
  starts a second chain of handlers for it, so that its callback runs twice, whether the request
  is still in flight or already finished (`RpcClient.MarkerOwesTwice`,
  `RpcClient.MarkerRunsCallbackTwice`).
- A failed host lookup calls handle_callback before the request has a socket, and closing the
  unset socket dereferences a null pointer (rpc/rpc_client.hpp:297-302, 440-448).
- A mirror write whose gap read fails returns 0 although some of its bytes have become visible
  (`LocalMirror.Mirrored.Write`).
- A mirror commit sends whole pages even when only a prefix is known; `LocalMirror.CommitCertainIff`
  says exactly when the result is right whatever the buffer holds elsewhere, and
  `LocalMirror.PartialPageIsLost` shows a loss.

## Model

| member | source | states |
|---|---|---|
| Refinement.PublishedTreesAreComplete | client/range_query.cpp:91-211 | in every run, no link reachable from the root of a published version whose history was in reach dangles, whatever order writers stored their nodes in |
| Refinement.ReadsRefineFlatStore | client/range_query.cpp:229-263 | in every run, reading a page of a published version whose history was in reach finds the page of the newest covering write of that history, holding what the flat array of pages holds, or finds it unwritten; it never meets a missing node |
| Refinement.ReadsAreWrites | client/range_query.cpp:229-263 | whatever offsets were written, a page read in a published version is stored and holds what some write of its history put there |
| Refinement.CompleteIfInReach | client/range_query.cpp:91-211 | in a reachable state, the published trees of a history in reach consist of the canonical nodes |
| Refinement.SeenIsFlat | client/range_query.cpp:229-263 | a version whose history was in reach is the array of pages with its writes applied in ticket order |
| Refinement.SnapshotIsolation | vmanager/vmanagement.cpp:74-170 | in every run, at any offsets, no later step of any writer or blob changes the page key or contents that a published version reads; writes to a clone and its source never affect each other |
| WriteRead.WrittenIsRead | client/object_handler.cpp:324-431 | in every run, once a write's version is published, page k of what was written is read k pages after the offset asked for, or for an append after the progress size at its ticket, in every later state |
| WriteRead.ContentsKept | client/object_handler.cpp:352-366 | the contents given with a ticket are never changed |
| WriteRead.TicketStays | vmanager/vmanagement.cpp:94-110 | the log entry of a ticket keeps its version and the pages asked for, in every later state |
| WriteRead.OwnWriteRead | client/range_query.cpp:229-253 | a published version reads the pages of its own write, whatever the offset |
| Progress.WriteCanBeRead | client/object_handler.cpp:324-431 | in every state of every run, every write that a client may ask for can be carried out so that its version is published and holds what was written |
| Progress.EveryTicketCanBePublished | client/range_query.cpp:91-211 | every run can be continued, without new tickets, until all tickets of a blob are published |
| Progress.VisibleIffPublished | vmanager/vmanagement.cpp:142-158 | in every run a version is visible if and only if the steps so far asked to publish it and every older own version of the blob |
| Progress.FinishWriter | client/range_query.cpp:139-208 | whatever the others have done, a writer can finish both walks and store its whole plan |
| BlobSizes.CreatedFor | vmanager/vmanagement.cpp:172-189 | in every run all roots of a blob keep the page size and replica count given at its creation, and its first append starts at 0 |
| BlobSizes.ClonedFor | vmanager/vmanagement.cpp:52-65 | all roots of a clone keep its source's page size and replica count, and its first append starts where the version it was made from ended |
| BlobSizes.RunSizes | vmanager/vmanagement.cpp:102-110 | in every run a version's size covers its own write and is at most the largest end of its history; with tickets granted one by one it is that largest end, and so is the progress size |
| BlobSizes.AppendStartsAtEnd | vmanager/vmanagement.cpp:94-110 | with tickets granted one by one an append starts at the largest end of all writes of the log |
| BlobSizes.TicketLogged | vmanager/vmanagement.cpp:94-110 | a ticket logs the pages asked for, from the offset asked for or from the progress size on, under the next version |
| BlobSizes.NewBlobAppends | vmanager/vmanagement.cpp:94-110 | append-only runs on a new blob tile it from 0 |
| BlobSizes.CloneAppends | common/structures.hpp:150-153 | append-only runs on a clone tile it from the size of the version it was made from |
| Refinement.CloneReadsSource | vmanager/vmanagement.cpp:52-65 | a fresh clone reads every page exactly as the version it was made from |
| Refinement.RangeReadsSucceedIffWritten | client/range_query.cpp:214-263 | in every reachable state and every order of answers a range read fills every slot if and only if the version has every page of the range, which in reach are the pages written |
| OffsetLimits.HistoryReadsFlatIff | client/range_query.cpp:149-152 | in every run, all versions of a published history read as their own flat logs if and only if every ticket was in reach |
| OffsetLimits.HistoryPresentIff | client/range_query.cpp:82-87 | in every run, the trees of a published history have no dangling link if and only if no left brother at offset 0 was a pending write with a smaller root |
| OffsetLimits.TicketInReachIff | vmanager/vmanagement.cpp:94-99 | a ticket keeps a history in reach if and only if it is an append, the first write, or starts below twice the root size in force |
| Dangling.UnsafeDangles | client/range_query.cpp:82-87 | a left brother at offset 0 taken from a pending write with a smaller root leaves a link that no one ever stores below the writer's root |
| Dangling.InReachIsSafe | client/range_query.cpp:67-89 | in reach, no such brother is ever linked |
| Dangling.NothingPendingIsSafe | client/range_query.cpp:82-87 | a ticket granted while nothing was pending links no such brother, whatever its offset |
| Dangling.SafeFits | client/range_query.cpp:133-208 | with safe tickets every linked node is no larger than the root of the version it belongs to |
| Shape.ReadSettled | client/range_query.cpp:229-263 | nodes stored after a tree was published change nothing that it reads, even where its links lead nowhere |
| Shape.ReadIsWritten | client/range_query.cpp:229-263 | a published tree only ever leads to pages that its history wrote at that place |
| Shape.PlanShape | client/range_query.cpp:133-208 | at any offset, every child a writer links is a hole or a node that some write of its history touches there |
| Shape.FinalShape | client/range_query.cpp:133-162 | the same for every brother in a writer's two lists |
| Refinement.StepInv | client/object_handler.cpp:324-431 | every step of create, clone, ticket, fetch, put and publish keeps the protocol invariant |
| Refinement.RunInv | client/object_handler.cpp:324-431 | the invariant holds in every reachable state |
| Refinement.RunGrows | vmanager/vmanagement.cpp:142-158 | published roots, logs and written data only ever grow along a run |
| Refinement.FlattenIsNewest | client/range_query.cpp:67-89 | applying the writes of a log in order leaves on each page the newest covering write's data |
| BlobRead.ReadBlob | client/object_handler.cpp:204-314 | the whole read in any reachable state: it fails for exactly the ranges beyond the root or with a page the version does not have; otherwise buffer[x] is byte offset + x of the version, the flat one if its history was in reach, and bytes past size are untouched |
| BlobRead.ReadAt | client/object_handler.cpp:204-221 | a read of a version number: refused exactly if it is newer than the root the version manager selects for it, else a read of that root |
| BlobRead.Locate | client/object_handler.cpp:223-235 | the locations of a byte range are found if and only if the version has all pages it meets |
| BlobRead.RangePages | client/object_handler.cpp:223-229 | the pages asked for are exactly those that the byte range meets |
| WriterCode.RepliesDescribeLog | vmanager/vmanagement.cpp:101-116 | every ticket reply describes the blob's log: the pending intervals in order, the root size, and the root of the tree of the published writes |
| WriterCode.ReplyIsWriters | vmanager/vmanagement.cpp:112-114 | a new writer goes by the stable root of its own reply, whose queue ends with its own write |
| WriterCode.StepPutsAreCodePuts | client/range_query.cpp:97-208 | whatever others stored meanwhile, a writer's put in the step system stores exactly one of the puts that the code computes |
| ProtocolGrant.GrantInv | vmanager/vmanagement.cpp:91-116 | granting a ticket keeps the invariant for its blob, all other blobs and all unfinished writers |
| ProtocolGrant.GrantArithmetic | vmanager/vmanagement.cpp:94-110 | a granted page-aligned range is the pages first..last, fits under the new root, and is in reach if and only if it is the first or starts below twice the old root size |
| ProtocolGrant.ReplyDescribes | vmanager/vmanagement.cpp:112-114 | the reply's intervals are the unpublished writes in order, its root size covers them, and its stable root is the last published tree's |
| ProtocolSteps.PutInv | client/range_query.cpp:202-206 | a put by one writer keeps every other writer's view and every published tree right |
| ProtocolSteps.FetchInv | client/range_query.cpp:35-65 | a fetch by one writer keeps the invariant: finishing the walk still gives the list weaving needs |
| ProtocolSteps.PublishInv | vmanager/vmanagement.cpp:142-158 | publication, also of a version behind an unfinished one, leaves every published tree wholly stored |
| ProtocolSteps.CloneInv | vmanager/vmanagement.cpp:52-65 | a clone starts with the source's history, its writers and its stored trees |
| ProtocolSteps.PutPlanned | client/range_query.cpp:166-208 | whatever was stored meanwhile, a node put is the one the writer's ticket determines |
| Shape.FinalListGrows | client/range_query.cpp:141-164 | the brothers found do not depend on when the stable tree is read |
| History.TreeReadsLog | client/range_query.cpp:229-263 | below any position of a complete tree, walking the tree finds what the flat log says |
| History.CompleteIsPresent | client/range_query.cpp:166-208 | in a complete tree every non-hole child is present down to the leaves |
| History.LinkFits | client/range_query.cpp:82-87 | the size linked for a version never exceeds that version's own root size |
| History.LinkedNodeStored | client/range_query.cpp:166-208 | the node linked at a position is stored and canonical for its own version |
| Reach.ReadableIffInReach | client/range_query.cpp:149-152 | after a history in reach, the next version's tree reads every page of the flat log if and only if its own write was in reach |
| Reach.TwoWritesLosePage | client/range_query.cpp:149-152 | page 0 and then page 2 of a fresh blob: the second version cannot read page 0 |
| Reach.LostPage | client/range_query.cpp:149-152 | every page below the left brother at offset 0 is lost if that brother is larger than every older root |
| Reach.OutOfReachLosesPage | client/range_query.cpp:149-152 | the first write out of reach loses a page of the previous write for readers of its version |
| Reach.LostBrother | client/range_query.cpp:82-87 | out of reach, the left brother at offset 0 is larger than every older root and links to nothing stored |
| Weave.WeaveIsCanonical | client/range_query.cpp:133-208 | every node a writer stores links, on both sides, the newest older or own write touching that child |
| Weave.LeftBrotherLinks | client/range_query.cpp:139-152 | every left brother of the left edge is the newest older write touching it: pending first, else the stable tree's node, else the stable root itself |
| Weave.RightBrotherLinks | client/range_query.cpp:154-162 | the same for right brothers of the right edge, without any bound on the offset |
| Weave.UnfilledOutside | client/range_query.cpp:149-152 | beyond the stable root, what no pending write touches is the stable root or a hole |
| Descent.SiblingsCallback | client/range_query.cpp:35-65 | the chain of callbacks computes the walk down the stable tree |
| Descent.DescendAt | client/range_query.cpp:35-65 | the walk fills every wanted brother that was still empty with the stable tree's own link and changes nothing else |
| Shape.DescendGrows | client/range_query.cpp:54-63 | nodes stored meanwhile by anyone do not change what the walk finds |
| Siblings.ComputeSiblingVersions | client/range_query.cpp:67-89 | the climb records exactly the brothers of the edge that pending writes touch |
| Siblings.PendingSiblingsAt | client/range_query.cpp:67-89 | each recorded brother carries the newest pending write touching it, and no other position is recorded |
| Siblings.NewestPendingIsNewest | client/range_query.cpp:82-87 | the reverse scan over byte intervals finds the newest write touching the position |
| Siblings.ParentAndBrother | client/range_query.cpp:73-80 | the offset arithmetic yields the parent and the brother position |
| NodeDeque.ProcessNodes | client/range_query.cpp:166-208 | the deque loop ends and puts exactly the touched nodes of levels 1 to root, level by level, left to right |
| NodeDeque.ProcessFront | client/range_query.cpp:168-206 | one iteration pairs the front node with its brother in the queue or looks the brother up, and stores their parent |
| NodeDeque.TreePutsHas | client/range_query.cpp:166-208 | every touched position above the leaves is put |
| NodeDeque.TreePutsDistinct | client/range_query.cpp:202-206 | no key is put twice |
| NodeDeque.UnpairedOnlyAtEdges | client/range_query.cpp:175-185 | a touched node lacks its brother if and only if it is a right child and first of its level or a left child and last of it |
| WriteLocations.WriteRecordLocations | client/range_query.cpp:91-211 | fails on no pages; otherwise binds every page key to its block of providers and puts the leaves and then the planned tree |
| WriteLocations.WriteLeaves | client/range_query.cpp:99-121 | leaf i sits at page first + i, points to page key i, and page key i gets providers i*r to i*r + r |
| WriteLocations.EdgeLeaves | client/range_query.cpp:124-128 | the byte arithmetic yields the first and last leaf of the write |
| WriteLocations.FindSiblings | client/range_query.cpp:130-164 | both sibling lists are the ones weaving is proved about |
| ReadLocations.ReadRecordLocations | client/range_query.cpp:255-263 | whatever order answers come in, it ends, and succeeds with all slots filled if and only if the tree has all pages; then slot i holds page a + i's key |
| ReadLocations.Callback | client/range_query.cpp:214-253 | one callback, on a node or on a page's provider list, is one step of the pool of outstanding gets |
| ReadLocations.ServeKeeps | client/range_query.cpp:214-253 | every callback, in any order, keeps: a slot only ever gets its own page's key, no page is asked for or filled twice, and none that the tree has is forgotten |
| ReadLocations.ServeWeighsLess | client/range_query.cpp:229-253 | every callback brings the walk closer to its end, on any map of nodes |
| ReadLocations.AnyOrderSucceedsIff | client/range_query.cpp:214-263 | on any well-formed tree and in every order of answers, a request succeeds if and only if every page of its range is found by walking the tree, and then each slot was filled exactly once with its own page's key |
| Dyadic.IntersectsIsTouches | common/structures.hpp:53-58 | byte intersection of a tree range and a page range is equality of positions at that level |
| Dyadic.ParentPosition | common/structures.hpp:73-84 | getParent halves the index, and odd indices are right children |
| Metadata.SearchList | common/structures.hpp:164-169 | the scan returns the first entry with the given range, or the empty query |
| VersionService.VManagement.Create | vmanager/vmanagement.cpp:172-194 | adds exactly one fresh blob and returns its root, with the page size and replica count asked for |
| VersionService.VManagement.Clone | vmanager/vmanagement.cpp:39-72 | the new blob keeps the selected root of the source and goes on from its size; only the answer carries the new id; an unknown id changes nothing |
| VersionService.VManagement.GetRoot | vmanager/vmanagement.cpp:12-37 | a published version gives the root of that very version, version 0 and unpublished ones the latest root, an unknown blob the empty root |
| VersionService.VManagement.GetTicket | vmanager/vmanagement.cpp:74-127 | the reply holds the queue so far and then the new entry at the offset asked for or the progress size, and the last published root; the table changes as the ticket function says; an unknown blob is refused |
| VersionService.VManagement.Publish | vmanager/vmanagement.cpp:129-170 | accepted exactly for pending versions; the queue drains as far as it is finished |
| VersionManager.DoublingEndsIff | vmanager/vmanagement.cpp:97-99 | the doubling loop ends if and only if it starts above zero or has nothing to cover |
| VersionService.CloneOfUnwrittenStuck | vmanager/vmanagement.cpp:52-65 | a clone of a blob that was never written starts at root size 0, so each non-empty ticket on it, and no other, never ends |
| VersionManager.GrowMaxSize | vmanager/vmanagement.cpp:97-99 | the loop computes the grown root size |
| VersionManager.GrowIsLeast | vmanager/vmanagement.cpp:97-99 | the grown size is the first doubling that covers the write |
| VersionManager.GrantAppends | vmanager/vmanagement.cpp:101-110 | a ticket goes to the end of the queue, pending versions stay consecutive and the head unfinished |
| VersionManager.PublishKeepsValid | vmanager/vmanagement.cpp:142-158 | publishing keeps numbering and head, loses and reorders no root, and extends the published ones |
| Publication.VisibleIffPrefixPublished | vmanager/vmanagement.cpp:142-158 | in every run version v is visible, as root number v, if and only if tickets 1..v were all published, in any order |
| Publication.RunTracks | vmanager/vmanagement.cpp:129-170 | published roots and finished queue entries are exactly the accepted requests, each once |
| Publication.AppendsTile | vmanager/vmanagement.cpp:94-110 | in append-only runs the granted ranges tile the blob and version v's size is the initial size plus the first v appends |
| Publication.GrantKeepsDyadic | vmanager/vmanagement.cpp:97-105 | root sizes stay page size times a power of two, grow only, and cover every grant |
| ByteRead.Read | client/object_handler.cpp:240-309 | the left, right and whole-page copies leave byte offset + x in buffer[x] and touch nothing past size |
| ByteRead.ReadPieces | client/object_handler.cpp:223-308 | the requests issued are the planned pieces: unaligned first page, unaligned last page, then whole pages |
| ByteRead.PiecesTile | client/object_handler.cpp:241-308 | every buffer byte is written by exactly one piece, from its own place in its own page |
| LocalMirror.Mirrored.Read | bindings/blob-fuse/local_mirror.hpp:108-141 | the returned slice equals the plain array, cut at the end of the blob; it returns nothing only if a remote read fails and a byte of the pages asked for is not known |
| LocalMirror.Mirrored.Write | bindings/blob-fuse/local_mirror.hpp:143-165 | the plain array takes exactly the written bytes, pages are marked written; a failed read of a gap before the write is a torn write |
| LocalMirror.Mirrored.FetchUnknown | bindings/blob-fuse/local_mirror.hpp:116-137 | the loop ends with every byte of the range known and equal to the plain array |
| LocalMirror.Mirrored.UnknownRun | bindings/blob-fuse/local_mirror.hpp:119-126 | one remote read covers the first unknown byte up to the end of the run of unknown pages that the request reaches |
| LocalMirror.FetchKeeps | bindings/blob-fuse/local_mirror.hpp:129-134 | a remote fetch never overwrites a locally written byte |
| LocalMirror.WriteKeeps | bindings/blob-fuse/local_mirror.hpp:147-163 | a local write keeps valid prefixes and the mirrored array consistent |
| LocalMirror.Mirrored.Commit | bindings/blob-fuse/local_mirror.hpp:167-188 | the runs of marked pages are sent from the buffer and unmarked, up to the first write that fails, one write per run; with the marked pages fully known the blob becomes the plain array, and after a failure the blob differs from it only in pages still marked |
| LocalMirror.Mirrored.CommitAll | bindings/blob-fuse/local_mirror.hpp:171-187 | skipping the page after each run and passing over unmarked pages sends every marked page exactly where it belongs and leaves no mark |
| LocalMirror.Mirrored.MarkedRun | bindings/blob-fuse/local_mirror.hpp:173-175 | a run is the maximal block of marked pages |
| LocalMirror.CommitCertainIff | bindings/blob-fuse/local_mirror.hpp:172-183 | a whole commit makes the blob the plain array whatever the buffer holds where nothing is known, if and only if every marked page is known in full |
| LocalMirror.CommitRightIff | bindings/blob-fuse/local_mirror.hpp:172-183 | for one given buffer, it does iff the marked pages' unknown bytes already agree with the version |
| LocalMirror.CommitKeeps | bindings/blob-fuse/local_mirror.hpp:172-183 | a commit of fully known pages, finished or not, leaves differences from the plain array in marked pages only |
| LocalMirror.PartialPageIsLost | bindings/blob-fuse/local_mirror.hpp:172-183 | a page written in its first byte only and then committed loses its other bytes |
| LocalMirror.CleanWrite | bindings/blob-fuse/local_mirror.hpp:157-163 | every page a write touches is marked, so unmarked pages are as at the last commit |
| LocalMirror.TornKeeps | bindings/blob-fuse/local_mirror.hpp:147-155 | after a failed gap read exactly the written bytes inside valid prefixes are visible |
| LruCache.QueueIsRecencyOrder | common/cache_mt.hpp:77-99 | in every run keys and queue agree without duplicates within capacity, and the queue is in order of last use |
| LruCache.EvictsLeastRecentlyUsed | common/cache_mt.hpp:237-259 | a write evicts the least recently used key and nothing else |
| LruCache.DirtyConserved | common/cache_mt.hpp:237-295 | every dirty value ever accepted is cached, was handed to the evict callback, or was overwritten, freed or cleared: each exactly once |
| LruCache.CachedIsLastWritten | common/cache_mt.hpp:237-295 | in every run what is cached for a key is what was last written to it, and nothing is cached for a key dropped since |
| LruCache.ApplyKeepsValid | common/cache_mt.hpp:204-295 | every operation keeps map and queue in agreement and the size within capacity |
| LruCache.WriteKeepsValid | common/cache_mt.hpp:237-259 | a write is refused exactly by a cache of capacity 0 |
| CacheResize.ResizeHoldsIff | common/cache_mt.hpp:204-229 | in every run, after resize(n) the cache stays within n entries until its size is set again if and only if n was no smaller than the size in force |
| CacheResize.ResizeIff | common/cache_mt.hpp:204-229 | the size asked for is stored iff it is no smaller than the old one, and the call removes nothing, so n bounds the entries after it iff it did before |
| CacheResize.ShrinkKeepsBoth | common/cache_mt.hpp:204-229 | a cache of two entries told to hold one keeps both |
| CacheService.LruPolicy.Invalidate | common/cache_mt.hpp:77-84 | removes the key's place from the queue and its map entry |
| CacheService.LruPolicy.Touch | common/cache_mt.hpp:92-99 | moves the key to the back |
| CacheService.LruPolicy.EvictEntry | common/cache_mt.hpp:106-113 | takes the front key, or reports that there is none |
| CacheService.CacheMt.Write | common/cache_mt.hpp:237-259 | new state, acceptance and the value handed to the callback are those of the cache functions |
| CacheService.CacheMt.Read | common/cache_mt.hpp:268-281 | returns the cached value and marks it used, or misses without a change |
| CacheService.CacheMt.FreeEntry | common/cache_mt.hpp:289-295 | drops the entry and its place in the queue |
| PageStore.RunInv | provider/bdb_bw_map.cpp:33-106 | in every interleaving each accepted page has exactly one responsible place, copies are right, free space plus accepted bytes is constant |
| PageStore.HitsAreRight | provider/bdb_bw_map.cpp:73-91 | a cache or database hit returns the accepted value |
| PageStore.WrittenIsFound | provider/bdb_bw_map.cpp:73-106 | with a cache slot, a page written while it fits is accepted, stays in exactly one responsible place, and every copy later found in cache or database holds what was written |
| PageStore.AcceptedIffFits | provider/bdb_bw_map.cpp:99-106 | a write is accepted if and only if there is a cache and the page fits into the space left by the accepted ones |
| PageStore.QueueIsFifo | provider/bdb_bw_map.cpp:33-71 | in every run the writer thread takes pages in the order in which they were queued |
| PageStore.MissMeansInTransit | provider/bdb_bw_map.cpp:73-87 | if both looks of a read miss an accepted page, it is in transit to the database or its put failed |
| PageStore.PutsNeverOverwrite | provider/bdb_bw_map.cpp:46-57 | no put of the writer thread replaces a record |
| PageStore.StepPlaces | provider/bdb_bw_map.cpp:33-106 | only an accepted write adds a responsible place; all other steps move pages |
| PageService.BdbBwMap.Write | provider/bdb_bw_map.cpp:99-106 | accepted exactly when space and cache allow, and then recorded; the victim is queued |
| PageService.BdbBwMap.Read | provider/bdb_bw_map.cpp:73-91 | returns only accepted values, leaves what it returns cached, and misses an accepted page only in transit or lost |
| PageService.BdbBwMap.WriterTake | provider/bdb_bw_map.cpp:36-44 | the writer thread takes the oldest queued page |
| PageService.BdbBwMap.WriterPut | provider/bdb_bw_map.cpp:45-57 | the page in hand is stored, or lost if the put fails |
| Allocator.AdvManager.Get | pmanager/adv_manager.cpp:86-144 | every provider allocated had, outside its group and given the groups before, the lowest score and among those the most free space; every aligned block holds distinct providers, every score rises by exactly its allocations, a spread of one is kept, and the exact condition for success |
| Allocator.FirstIsBest | pmanager/adv_manager.hpp:39-47 | in the order of the index, the first provider outside a group has the lowest score and then the most free space |
| Allocator.AdvManager.TakeOne | pmanager/adv_manager.cpp:105-130 | one turn takes the best provider outside the group and raises its score, or finds all before the first full provider taken |
| Allocator.AdvManager.TakeGroup | pmanager/adv_manager.cpp:105-130 | a group takes distinct providers, each the best outside those before it, and is full if and only if there are enough |
| Allocator.AdvManager.FindProvider | pmanager/adv_manager.cpp:106-118 | the first provider, before any without free space, that the group does not hold |
| Allocator.TakeWithin | pmanager/adv_manager.cpp:107-128 | taking the lowest provider outside the group keeps scores within bounds |
| Allocator.ReplaceSorted | pmanager/adv_manager.hpp:39-47 | replacing an entry keeps the index sorted by score and free space |
| Allocator.BlocksAppend | pmanager/adv_manager.cpp:109-118 | a distinct group appended to whole blocks makes a new block |
| DhtPlacement.DistinctIffPower | common/simple_dht.hpp:157-183 | one replica per gateway lands on pairwise distinct gateways for every key if and only if the number of gateways is a power of two |
| DhtPlacement.OthersCollide | common/simple_dht.hpp:157-183 | any other number of gateways makes two replicas of one of two given keys of four bytes collide |
| DhtPlacement.ReplicasDistinct | common/simple_dht.hpp:157-183 | with a power of two of gateways and no more replicas than gateways, the replicas of every key of any length lie on distinct gateways |
| DhtPlacement.ThreeGatewaysCollide | common/simple_dht.hpp:157-167 | with three gateways the first two replicas of every two-byte key collide |
| DhtPlacement.ChooseGateway | common/simple_dht.hpp:157-167 | the hashing loop computes the hash modulo 2^32 |
| DhtPlacement.MixIsAffine | common/simple_dht.hpp:162-164 | a hashing step is multiplication by 65599 and an addition, modulo 2^32 |
| DhtPlacement.HashInjective | common/simple_dht.hpp:157-167 | the hash is injective in the replica number modulo every power of two up to 2^32 |
| DhtClient.PutReportedOnceIff | common/simple_dht.hpp:60-73 | for every order of results the callback runs once, on the last, with ok iff a replica succeeded: if and only if 1 <= replication < 2^16 |
| DhtClient.PutStatus.HandlePutCallback | common/simple_dht.hpp:60-73 | the shared counter and the report are those of the counting functions |
| DhtClient.StatusCounts | common/simple_dht.hpp:64-67 | below 2^16 results the halves of the counter do not disturb each other |
| DhtClient.QueuePut | common/simple_dht.hpp:170-183 | each gateway gets one entry per replica that belongs to it |
| DhtClient.AtMostOneCopy | common/simple_dht.hpp:170-183 | with a power of two of gateways no gateway gets a second copy |
| DhtClient.CopiesAt | common/simple_dht.hpp:192-199 | get attempt n looks where put stored replica n |
| DhtClient.GetWithFailover | common/simple_dht.hpp:83-94 | gateways are tried in replica order until one does not fail, within the replication factor, and the callback gets that answer |
| DhtClient.OutcomeIsFirst | common/simple_dht.hpp:83-94 | the value reported is that of the first answer that is not a failure |
| DhtClient.OutcomeIsNothing | common/simple_dht.hpp:89-90 | if every attempt fails, the empty value is reported |
| RpcClient.CallbackAtMostOnce | rpc/rpc_client.hpp:269-334 | in every run without a late reuse marker a request is in exactly one of queued, connecting, in flight and done, and its callback runs at most once |
| RpcClient.OwedOnceIff | rpc/rpc_client.hpp:310-320 | in every run, no callback has run or is bound to run twice if and only if every reuse marker reported by a connection attempt met a request that was still connecting |
| RpcClient.MarkerOwesTwice | rpc/rpc_client.hpp:310-320 | a marker that meets any other request, in flight or done, makes its callback due twice |
| RpcClient.OwedIsPaid | rpc/rpc_client.hpp:440-451 | completing a request's chains of handlers runs its callback as often as it was due |
| RpcClient.WaitingCountDrift | rpc/rpc_client.hpp:270-295 | waiting_count is too high by exactly the number of steals, and what follows once all is quiet |
| RpcSockets.SocketsConserved | rpc/rpc_client.hpp:269-334 | in every run without a late marker, for every host, idle sockets plus requests in flight plus connections closed are the connections that succeeded |
| RpcSockets.WaitingCountsSteals | rpc/rpc_client.hpp:270-288 | waiting_count is the number of connecting and in-flight requests plus the number of steal steps of the run |
| RpcSockets.RequestCanFinish | rpc/rpc_client.hpp:269-334 | a dispatched request can be finished, always once it has left the queue, and from the queue if a socket to its host is idle or the limit is not reached |
| RpcSockets.DispatchCanFinish | rpc/rpc_client.hpp:258-266 | a new request goes to its own host and, below the limit, can be finished with one callback |
| RpcClient.MarkerRunsCallbackTwice | rpc/rpc_client.hpp:310-320 | a run in which a connection error equal to the reuse marker runs a callback twice |
| RpcClient.StepInv | rpc/rpc_client.hpp:249-451 | every handler keeps the one-place invariant, also when a stolen request's own connection completes later |
| RequestQueue.Requests.DequeueAny | rpc/rpc_client.hpp:110-126 | finds a queued request if there is one, past any empty inner maps, and removes just it |
| RequestQueue.Requests.DequeueHost | rpc/rpc_client.hpp:70-84 | takes some request of the host, or says that there is none |
| RequestQueue.Requests.DequeuePendingHost | rpc/rpc_client.hpp:93-108 | takes some connecting request of the host, or says that there is none |
| RequestQueue.Requests.DequeuePending | rpc/rpc_client.hpp:86-91 | tells whether the request was still connecting, and removes it |
| RequestQueue.Requests.Enqueue | rpc/rpc_client.hpp:53-60 | gives the request a fresh number and queues it |

## Left out

- Replica lists of pages, provider failover and the per-page replica check of a write (client/object_handler.cpp:75-121, 376-388): page stores are maps from page keys to pages.
- The client's version cache and the client side of clone (client/object_handler.cpp:138-154): roots are read at the version manager.
- Writer failures before the ticket, and retries: a writer that stops simply takes no further step.
- Clone-and-commit of the mirror, its index file, locking and mmap (bindings/blob-fuse/local_mirror.hpp:44-106, 190-205).
- LocalMirror.Mirrored.Commit: tests the bound of a run before the page's mark, where the code reads one mark past its table first; a remote write replaces the pages it names in the blob's newest content, given as an argument.
- LocalMirror.Mirrored.MarkedRun: tests the bound before the mark, see above.
- BlobRead.ReadAt: version 0, which reads the client's cached latest root, is modelled as ReadBlob on the latest version.
- LocalMirror.Mirrored.Write: does not model a write of length 0 at the very end of the blob, where the code reads one past its page table.
- ReadLocations.ReadRecordLocations: an outstanding get records the tree position of its node, which bounds the walk on trees that are not well-formed; getting a page's provider list always succeeds.
- LruCache.ApplyKeepsValid: resizing models the stored capacity only; the eviction loop for smaller sizes never runs, because the size never exceeds the old capacity.
- Allocator.AdvManager.Get: order and balance are stated for providers that all have free space; otherwise the comparison is not an order. A replica count of 0, with which the code loops forever, is not modelled, nor are provider updates and the watchdog.
- DhtClient.GetWithFailover: a replication factor of 0, with which the code would retry forever, is not modelled, nor is the batching of requests per gateway.
- RpcClient.StepInv: a failed host lookup runs the callback and stops, where the code goes on to an unset socket.
- RpcClient.CallbackAtMostOnce: handlers are modelled as steps on values, not on the client object; sockets, timers, partial transfers and resolver caching are not modelled, and neither is the clearing of queues at the end of run().
- PageStore.RunInv: the unlocked update of the free-space counter is one step with the cache write it follows.
- The Bamboo DHT, the language bindings, the FUSE callbacks, the RPC server, serialization, deployment scripts and configuration: wrappers or foreign calls.
