# Snapshots and changed-block tracking, proved in Dafny

A model of the kernel module's copy-on-write snapshots and changed-block tracking, with proofs. Sectors
are values, devices are sequences of sectors, what a lock holds together is one step, and a test made
before a lock is taken is a step of its own.

## What is modelled

1. **The snapshot engine.** `CowEngine.dfy` says what the operations on block map, snapstore and
   original device do. `SnapshotMachine.dfy` is a state machine whose steps are those the threads take
   between locks: bios arriving at any moment, the worker filling, copying, issuing and draining, the image
   thread testing the corrupted flag, then reading or (in two critical sections) writing, other devices of
   the snapstore taking blocks and storing into them and the pool growing, also between two blocks one
   request takes, release and stop, and any pool exhaustion, read or store failure. `SnapshotProofs.dfy` and `SnapshotTheorems.dfy` prove the
   invariant and what follows for every run. `SnapshotFamilies.dfy` shows that runs come in families that
   differ in contents alone, `SnapshotMarks.dfy` has a run in each family whose contents tell where they
   came from, and `SnapshotLosses.dfy` uses both to say exactly which sectors of the image are right.
   `SnapshotExamples.dfy` has complete runs in which a promise fails. `CowHealth.dfy` says exactly when
   preparing and copying succeed and what they take and store, `SnapshotHealth.dfy` that runs without I/O
   faults lose nothing, and `SnapshotThrift.dfy` that nothing is copied that no write asked for.
   `Snapstore.dfy`, `BlkDescrPool.dfy`, `BlkDescrArray.dfy`,
   `DeferredPages.dfy`, `BioWalk.dfy`, `Layout.dfy`, `ImageRequests.dfy`, `SnapstoreDevice.dfy`,
   `Queue.dfy`, `DeferIo.dfy` and `Tracker.dfy` are the code itself, changing objects and arrays in place.
   Each of their operations is proved to do what the engine's functions say; the worker's and the tracker's
   methods are proved to take the machine's own steps, with the I/O they are given: they stay inside every
   set of machine states that just these steps do not leave (`WorkerSteps.dfy`), so the theorems about
   runs hold for them, and inside every set of tracking states that no tracking event leaves, so the
   theorems about backups hold for them too.
2. **The sparse bitmap.** `SparseTree.dfy` gives blocks as values and what set and clear do to them,
   `SparseBitmap.dfy` is the pointer structure with its counters, `SparseRuns.dfy` and `RunScan.dfy` the
   extraction of ranges, `SparseTheorems.dfy` the whole bitmap over any sequence of operations.
   `PageArrays.dfy` and `FlatBitmap.dfy` are the flat form it replaces.
3. **The changed-block map.** `CbtMap.dfy` is the map on pages, `CbtTheorems.dfy` the meaning of its
   entries over any sequence of operations, `CbtTracking.dfy` what incremental backups rely on,
   `CbtTracker.dfy` the tracker's marking and issuing, of device writes and of image writes, and the check
   that a snapshot starts with. `CbtPrecision.dfy` says exactly which entries an event raises, when tracking
   ends, and that untouched blocks are left out of a backup. `SnapshotBackups.dfy` runs snapshots and tracker of one device together
   and proves that backups put together from image reads are the images.
4. **The range vector.** `RangeLists.dfy` on lists of ranges, `RangeVector.dfy` on chunks in memory,
   `ZeroRanges.dfy` the list of zero ranges and the lookup in it.
5. **The paged stream store.** `CbtStream.dfy` and `CbtStreamTheorems.dfy` on values, `CbtStorage.dfy` on a
   page buffer and a device.

`Basics.dfy`, `Ranges.dfy` and `Chunked.dfy` hold what several of these share.

## Where the code does less than its names promise

Each of these is stated with the exact condition under which the code is right.

- The corrupted flag is tested before the lock is taken. A read that passed the test is served even if the
  device is corrupted by then (`SnapshotExamples.AdmittedReadExample`); it is right for whatever data exactly
  when none of its sectors was lost (`SnapshotLosses.ServedRightIff`).
- A failed read of the original is reported to nobody: the device is not marked corrupted
  (`SnapshotLosses.ImageKeptIffReadWorks`, with a run in `SnapshotExamples.LostReadExample`). The last
  block is always read whole, so on a capacity that is no multiple of the block size that read must fail
  (`SnapshotTheorems.WholeBlocksIffAligned`). Only the sectors of such blocks are affected
  (`SnapshotLosses.RightIffNotLost`).
- A write the queue refuses, because the device is corrupted, the snapshot released or the queue inactive,
  goes ahead of those still queued (`SnapshotTheorems.RefusedIsHarmlessIff`, with runs in
  `SnapshotExamples.OvertakingExample` and `SnapshotExamples.ReleasedExample`).
- Making a snapshot starts with a check that replaces the map of a device that changed its size. Where the
  device grows after that check and before the capture, an image write behind the last block the device had at
  the check is done although it could not be marked (`CbtTracking.UnmarkedIffGrownSince`, with a run in
  `CbtTracking.GrownImageExample`).
- A capture begins to defer bios before it closes the map's epoch. A deferred write issued in between is
  marked in the epoch of the snapshot that does not hold it, and the next incremental backup misses it
  (`CbtTracking.TornCaptureExample`). That is avoided, whatever is written, exactly when nothing is written
  in between (`CbtTracking.WholeIffStill`, `CbtTracking.NextBackupIff`).
- A tree may be too small for its length: the level is found by truncating shifts
  (`SparseTree.CoversIff`, `SparseTheorems.IsASetIffCovered`). With 64 slots a length of 4097 is served by a
  tree of 4096 bits, and index 4096 shares its bit with index 0 (`SparseTheorems.Length4097`).
- Ranges listed from a fully set root have the size of one of its children
  (`SparseRuns.WalkIsScanIffNotFull`); setting every index gets there (`SparseTheorems.FullRootExample`).
- Clearing a clear bit reports EALREADY only where its leaf exists (`SparseTree.LeafIffGroupUsed`).
- The search for the first hit never looks at the first of several ranges
  (`RangeVectors.Element.FindFirstHit`, `ZeroRanges.FirstRangeUnseen`).
- Virtual-to-physical mapping leaves only the inner loop when it has found its range
  (`RangeLists.V2PRightIff`); one range more than a chunk takes is enough (`RangeVectors.V2PExample`).
- A stream read that crosses a page copies each portion to the start of its buffer (`CbtStream.ReadRightIff`).
- The overflow flag is never cleared: after one exhaustion the pool gives nothing even when it has grown
  (`SnapstoreFile.Snapstore.GetEmptyBlock`).

## Assumptions

Memory allocation succeeds. Device I/O is synchronous. An original device and the device of its snapstore
differ, and the block layer passes only non-empty bios that end within the capacity. Sector numbers are
unbounded integers, except where the map's arithmetic wraps at 64 bits. The checksum of a page is any
function. Identifiers drawn for new generations are new. Class methods run one at a time: interleavings
are the machine's. A bio that stores to the snapstore takes at least one page, as the code demands with a
check that stops the kernel.

## Model

| member | source | states |
|---|---|---|
| SnapshotTheorems.CorrectOrCorrupted | source/snapstore_device.c:319-416 | After any run from a capture, an image read that passed the test of the flag and now gets the lock returns, in every sector not lost, the contents at capture overlaid with the image writes in order. While the snapshot is held, the worker is not stopping and the flag is clear at that point, a sector is lost only in a block whose reading failed. |
| SnapshotLosses.RightIffNotLost | source/snapstore_device.c:345-401 | After any run, whatever failed, was refused or let through: a sector of the image is right in every run that differs in contents alone exactly when it is not lost. A sector is lost when a write reaches it before its block is stored, or when preparing, reading or storing its block fails, until an image write replaces it. |
| SnapshotLosses.ServedRightIff | source/snapstore_device.c:338-354 | A read that passed the test and gets the lock, the device being corrupted by then or not, is right for whatever data exactly when none of its sectors is lost. |
| SnapshotExamples.AdmittedReadExample | source/snapstore_device.c:338-354 | A complete run on a device of one eight-sector block: a read passes the test, the worker exhausts the pool and lets a write through, the read gets the lock and returns the new contents with success. |
| SnapshotFamilies.RunSame | source/defer_io.c:101-181 | Which steps are possible, what is copied, what fails and what is lost does not depend on any contents. |
| SnapshotMarks.StepMarked | source/snapstore_device.c:225-543 | If what the image should show is never negative and all else is, lost sectors show a negative value after every step, so they are wrong. |
| SnapshotTheorems.NothingIsUndone | source/snapstore_device.c:561-570 | Whatever happens next, a set corrupted flag stays set with its first error code, the pool stays exhausted once it was, the block map only grows, and the log of copied blocks only gains entries. |
| SnapshotTheorems.OverflowReportedOnce | source/snapstore.c:548-574 | Over any run, with other devices of the snapstore taking blocks at any moment, also between two blocks of one request, pool exhaustion is notified at most once for all of them, and exactly when there was one and a pipe is attached. |
| SnapshotTheorems.NothingShared | source/snapstore.c:548-574 | Over any run no snapstore sector of a mapped block lies in a block that another device of the snapstore was given. |
| SnapshotTheorems.CorruptedRefusesWrites | source/snapstore_device.c:475-476 | From any corrupted state on, over every continuation, no image request passes the test: without one under way none is done, and otherwise at most the one image write under way. |
| SnapshotTheorems.CopiedBeforeChanged | source/defer_io.c:117-172 | In every uncorrupted state reached in service, a sector that differs from capture has its place in the snapstore, its block was taken for copying with its contents at capture, and unless that block could not be read its place holds what the image shows. |
| SnapshotTheorems.CopiedOnce | source/snapstore_device.c:283-308 | No run copies one block from the original twice, however many bios or image writes meet it and whatever fails. |
| SnapshotTheorems.DeferralIsTransparent | source/defer_io.c:101-181 | At every point accepted bios are the issued ones, the batch and the queue in order; as long as no write was refused, the device with batch and queue applied is all accepted bios applied to the capture; nothing is left when the worker is done. |
| SnapshotTheorems.DeferredReadIsInOrder | source/defer_io.c:30-68 | When a deferred read is issued, it returns what the accepted bios before it, applied to the capture, left in its sectors, as long as no write was refused. |
| SnapshotTheorems.OvertakingHarmlessIff | source/tracking.c:193-225 | A write issued ahead of queued bios leaves the device as in-order issue would exactly when no queued bio leaves another value in a sector of it. |
| SnapshotTheorems.OvertakesSafelyIff | source/tracking.c:193-225 | For whatever data, overtaking is harmless exactly when no queued write meets the sectors. |
| SnapshotTheorems.RefusedGoesFirst | source/tracking.c:186-225 | In every reachable state in which the queue refuses a bio (corrupted device, released snapshot, inactive queue), submitting a write leaves device, batch and queue together as in-order issue would exactly when no bio in batch or queue leaves another value in a sector of it. |
| SnapshotTheorems.RefusedIsHarmlessIff | source/tracking.c:186-225 | In all these states a submitted write to given sectors is harmless for whatever data exactly when no write in batch or queue meets them. |
| SnapshotTheorems.AcceptedStaysInOrder | source/defer_io.c:304-347 | A bio the queue accepts leaves device, batch and queue together as in-order issue would. |
| SnapshotExamples.OvertakingExample | source/defer_io.c:304-347 | A complete run: the device is corrupted while one write waits in the batch, a second write to the same sector goes first, and the older data ends up on the device. |
| SnapshotExamples.ReleasedExample | source/tracker.c:550-596 | A complete run with no corruption: a write is queued, the snapshot released, a second write to the same sectors goes first, and the older data is what will end up on the device. |
| SnapshotLosses.ImageKeptIffReadWorks | source/defer_io.c:138-152 | After any run, copying a batch keeps a sector of it right for whatever data exactly when reading the original works. |
| SnapshotExamples.LostReadExample | source/defer_io.c:138-142 | A complete run on a device of one eight-sector block: one write, one failed read, and an image that is wrong while nothing is flagged. |
| SnapshotTheorems.WholeBlocksIffAligned | source/blk_deferred.c:104-105 | Every touched block lies wholly on the device exactly when the capacity is a multiple of the block size. |
| SnapshotHealth.HealthyLosesNothing | source/defer_io.c:117-162 | On a device of whole blocks, in every run in which no read or store fails and image bios can be built: no block is missed, the device is corrupted only if the pool ran out, and in service an uncorrupted one has lost no sector. |
| SnapshotHealth.StockedNeverOverflows | source/snapstore.c:548-574 | A pool that has a descriptor for each block of the device at the capture, no other device taking any, never runs out, whatever else fails. |
| SnapshotHealth.HealthyIsRight | source/snapstore_device.c:319-416 | So in such runs with a stocked pool the device is never corrupted, and in service nothing is lost, every sector is shown as the image has it, and every read that gets the lock returns its slice of the image. |
| SnapshotHealth.HealthyIsServed | source/snapstore_device.c:458-543 | At any unlocked point of such a run an image read is admitted, and an image write goes through its three steps and is done in full. |
| SnapshotThrift.CopiedOnlyIfWritten | source/defer_io.c:84-95 | Over any run, each block that is mapped or was taken for copying is met by some write that arrived or some image write. |
| SnapshotThrift.BatchIsBounded | source/defer_io.c:70-99 | At each point of a run the batch holds at most 250 bios, and while it is made, neither stopping nor corrupted, fewer than 20480 sectors to write ahead of its last bio. |
| SnapshotProofs.StepKeepsCore | source/defer_io.c:70-172 | Every step of every thread and of the other devices keeps the invariant: well-formed engine, deferral order, every sector not lost shown right, and while clean every write in the batch covered, every change copied first and losses only in unread blocks. |
| SnapshotProofs.IssueRefines | source/defer_io.c:30-68 | Issuing a write of a clean batch exposes nothing: what differs from capture stays stored, and nothing new is lost. |
| SnapshotProofs.CopyRight | source/snapstore_device.c:310-317 | Storing the request, or failing to read or store it, leaves every sector not lost shown right. |
| SnapshotProofs.CopyRefines | source/defer_io.c:138-152 | Without corruption it keeps the batch covered and loses sectors only in blocks that could not be read. |
| SnapshotProofs.PopRight | source/defer_io.c:70-99 | Preparing shows what was shown; where it fails only blocks mapped and not stored are lost. |
| SnapshotProofs.WritePopRefines | source/defer_io.c:70-99 | Preparing a write without failure covers all blocks it touches. |
| SnapshotProofs.ImageCowRight | source/snapstore_device.c:418-455 | The copying half of an image write leaves every sector not lost shown right, on a corrupted device too. |
| SnapshotProofs.ImageCowRefines | source/snapstore_device.c:418-455 | Without corruption it covers the write and loses sectors only in blocks that could not be read. |
| SnapshotProofs.ImagePutRight | source/snapstore_device.c:478-543 | The overwriting half makes the image the old one overlaid with the data in every sector not lost, even with bios issued in between. |
| SnapshotProofs.CowKeeps | source/snapstore_device.c:418-455 | Copy-on-write, also on a corrupted device, keeps the engine well formed, never changes the original, maps all touched blocks when preparation works and leaves the device corrupted when it does not; a failure that leaves it uncorrupted is a failed read. |
| SnapshotProofs.CopyOutKeeps | source/snapstore_device.c:310-317 | Copying a request keeps map, pool and original; without a failure the result is the fully stored engine. |
| CowEngine.PrepareKeeps | source/snapstore_device.c:283-308 | Whatever happens to the snapstore between two blocks, preparing maps every block of the request or corrupts the device, never remaps a block, shares no descriptor with another device, and the map stays injective. |
| CowEngine.PrepareAdds | source/snapstore_device.c:225-308 | The request keeps what it held and gains exactly the newly mapped blocks, all of them in the touched range and not mapped before. |
| CowEngine.PrepareShows | source/snapstore_device.c:225-308 | Preparing changes nothing an image read can see, as long as pending blocks read the original. |
| CowEngine.StoreAllShows | source/blk_deferred.c:541-598 | Once a request is stored, every device sector is shown as it was while the blocks were pending. |
| CowEngine.CellsDiffer | source/snapstore_device.c:232-243 | Two device sectors of mapped blocks never share a snapstore sector. |
| CowEngine.OverwriteShows | source/snapstore_device.c:491-526 | An image overwrite shows the data inside the request and everything else unchanged. |
| CowHealth.PrepareWorksIff | source/snapstore_device.c:283-308 | When nothing else happens to the snapstore in between, preparing succeeds exactly when every block of the range is mapped already, or the pool never ran out and has a descriptor left for each block that is not, and these have a place in the map. |
| CowHealth.PrepareTakes | source/snapstore_device.c:225-308 | Preparing that succeeds takes the next descriptors of the pool in order, one for each block that had none, and changes nothing but the map. |
| CowHealth.PrepareFailsOnlyIf | source/snapstore_device.c:283-308 | Whatever happens to the snapstore in between, preparing fails with ENODATA only when the pool has run out, and with EINVAL only when the last block is behind the map. |
| CowHealth.WriteIsPreparedIff | source/snapstore_device.c:283-308 | The blocks of a write on the device always have a place in the map, so it is prepared exactly when they are mapped or the pool suffices. |
| CowHealth.CopyOutWorksIff | source/blk_deferred.c:499-539 | Copying a request succeeds exactly when neither the read nor the store fails and each of its blocks, the last of the device included, lies wholly on the device. |
| CowHealth.CopyOutStores | source/blk_deferred.c:541-598 | Copying that succeeds leaves each device sector of each block in its place in the snapstore, and changes nothing else. |
| SnapstoreDevices.SnapstoreDevice.constructor | source/snapstore_device.c:142-210 | A new device maps nothing, is not corrupted, and has a map for one block past the ceiling of its capacity. |
| SnapstoreDevices.SnapstoreDevice.IsCorrupted | source/snapstore_device.c:545-559 | The answer is the flag, and a positive one adds one to the refused requests. |
| SnapstoreDevices.SnapstoreDevice.MarkCorrupted | source/snapstore_device.c:561-570 | The first error sets flag and code and clears the count of refused requests; later ones change nothing. |
| SnapstoreDevices.SnapstoreDevice.IsBlockStored | source/snapstore_device.c:212-223 | True exactly for mapped blocks. |
| SnapstoreDevices.SnapstoreDevice.AddRequest | source/snapstore_device.c:225-281 | Takes the next descriptor, maps the block to it and adds it to the request, with ENODATA and EINVAL as the engine has them. |
| SnapstoreDevices.SnapstoreDevice.PrepareRequests | source/snapstore_device.c:283-308 | The loop over blocks does what the engine's preparation says, stopping at the first failure with the device corrupted; for a write on the device it succeeds exactly when each block is mapped or the pool, never exhausted, has descriptors for all that are not. |
| SnapstoreDevices.SnapstoreDevice.ReadBlock | source/blk_deferred.c:499-539 | Page arrays filled bio by bio hold exactly the block's sectors of the original, or EIO; it works when the block lies on the device and every bio takes a page. |
| SnapstoreDevices.ReadWhole | source/blk_deferred.c:326-347 | All of a run of sectors in fresh pages, or EIO: past the end of the device always, and otherwise only when a bio takes no page. |
| SnapstoreDevices.StoreRanges | source/blk_deferred.c:569-586 | Walking a block's ranges writes the buffer's sectors to the block's sectors in order. |
| SnapstoreDevices.SnapstoreDevice.StoreFile | source/blk_deferred.c:541-598 | Storing all buffers gives the engine's stored state. |
| SnapstoreDevices.SnapstoreDevice.Store | source/snapstore_device.c:310-317 | A failed store leaves any snapstore contents and a corrupted device. |
| SnapstoreDevices.SnapstoreDevice.CopyOut | source/defer_io.c:138-152 | Reading and storing a request is the engine's copy; a bio that takes no page makes it the copy with a failed read. With no fault, roomy reads and whole blocks it succeeds, and success means that the places of each block hold the device's sectors and nothing is corrupted. |
| SnapstoreDevices.SnapstoreDevice.CopyOnWrite | source/snapstore_device.c:418-455 | Prepare, read and store is the engine's copy-on-write, with the same failed reads. |
| SnapstoreDevices.SnapstoreDevice.BuildRead | source/snapstore_device.c:345-401 | The bios built over all blocks load into the buffer just what the image shows; EIO only when an empty segment or a bio that refuses sectors stops it. |
| SnapstoreDevices.SnapstoreDevice.ReadAdmitted | source/snapstore_device.c:353-416 | Under the lock, the flag not looked at again: the image's slice for any segment sizes and bio splits, or EIO and no data. |
| SnapstoreDevices.SnapstoreDevice.Read | source/snapstore_device.c:319-416 | ENODATA and a counted failure exactly when corrupted, and otherwise the same. |
| SnapstoreDevices.SnapstoreDevice.BuildWrite | source/snapstore_device.c:491-526 | The bios built scatter the data over the blocks' snapstore sectors; EIO when a block is not mapped or a bio refuses sectors. |
| SnapstoreDevices.SnapstoreDevice.PutImage | source/snapstore_device.c:485-543 | All bios built are submitted, or none, and then the device is corrupted with EIO. |
| SnapstoreDevices.SnapstoreDevice.Write | source/snapstore_device.c:458-543 | ENODATA when corrupted; otherwise copy-on-write first, then, whatever came of it, the overwrite of the snapstore blocks. |
| ImageRequests.PiecesExact | source/snapstore_device.c:351-401 | Pieces are not empty, stay in their block, follow each other without gap and end with the request. |
| ImageRequests.PieceInBlock | source/snapstore_device.c:351-371 | Every sector of a piece belongs to the piece's block. |
| ImageRequests.RedirectStore | source/snapstore.c:619-656 | The bios for a piece move its sectors, once and in order, to or from the block's sectors; EIO only when an empty segment or a bio that refuses sectors stops it. |
| Layout.WalkRanges | source/snapstore.c:626-653 | Any list of ranges is walked so that request sectors meet the block's sectors from the offset on, in order. |
| Layout.StoreThenRead | source/snapstore.c:619-656 | Store a buffer through a block's ranges, read block offsets [o, o+n): buffer sectors [o, o+n). |
| Layout.WriteThenRead | source/snapstore.c:711-751 | Writing part of a block and reading the block gives the written sectors back and leaves the others. |
| BioWalk.RedirectPart | source/blk_redirect.c:165-295 | Whatever segment sizes and wherever bios fill up, each sector of the piece moves once and in order; it can fail only when a segment is empty or an empty bio refuses sectors. |
| BioWalk.MemcpyRead | source/blk_redirect.c:333-391 | The piece of the bio becomes the buffer's first sectors, all else stays. |
| BioWalk.MemcpyWrite | source/blk_redirect.c:333-391 | The buffer's first sectors become the piece of the bio, as far as the bio reaches, and the rest of the buffer stays. |
| BioWalk.ZeroedPart | source/blk_redirect.c:393-441 | The piece of the bio becomes zeros, all else stays. |
| DeferredPages.SubmitPortion | source/blk_deferred.c:249-323 | One bio moves a beginning of the request between pages and device, nothing else, and makes progress unless halving reached zero or no page fits. |
| DeferredPages.SubmitPages | source/blk_deferred.c:326-347 | However bios fill up, what is moved is the beginning of the request, and all of it when each bio moves something. |
| SnapstoreFile.AddFile | source/snapstore.c:353-442 | EINVAL without ranges, ENODATA without the snapstore, EFAULT without its file, and then nothing changes; otherwise the file is cut into blocks, and the zero ranges of the snapshot on its device gain the ranges, sorted. |
| SnapstoreFile.Snapstore.CutFile | source/snapstore.c:375-424 | Blocks of exactly the block size whose sectors, with a tail shorter than a block, are the input ranges' sectors in order. |
| SnapstoreFile.Snapstore.NextPiece | source/snapstore.c:386-416 | One turn cuts up to the end of the range or of the open block and always makes progress. |
| SnapstoreFile.FileKeepsPool | source/snapstore.c:353-442 | Disjoint input ranges keep all descriptors' sectors disjoint and on the device. |
| SnapstoreFile.FileIsGrowth | source/snapstore.c:353-442 | For each device of the snapstore, adding a file of fresh, disjoint ranges is the machine's growth of the pool. |
| SnapstoreFile.BlocksDisjoint | source/snapstore.c:353-442 | No sector belongs to two blocks or to one block twice. |
| SnapstoreFile.Snapstore.GetEmptyBlock | source/snapstore.c:548-574 | The next descriptor, unless the pool is or ever was exhausted; the first exhaustion is notified. |
| BlkDescrPool.Pool.Alloc | source/blk_descr_pool.c:67-100 | Appends one descriptor whatever the chunk capacities. |
| BlkDescrPool.Pool.At | source/blk_descr_pool.c:113-130 | The descriptor at an index over all chunks, none past the end. |
| BlkDescrPool.Pool.Take | source/blk_descr_pool.c:132-152 | The next descriptor exactly while fewer were taken than added. |
| BlkDescrPool.TakenInOrder | source/blk_descr_pool.c:67-152 | Over any adds and takes, what was taken is a prefix of what was added, so nothing is handed out twice. |
| BlkDescrArray.DescrArray.constructor | source/blk_descr_array.c:10-33 | An empty partial map over [first, last]. |
| BlkDescrArray.DescrArray.Set | source/blk_descr_array.c:63-113 | Updates one key of the partial map and no other; EINVAL outside the range. |
| BlkDescrArray.DescrArray.Get | source/blk_descr_array.c:115-154 | The map's value, ENODATA for a key not set, EINVAL outside the range. |
| Queues.Queue.PushBack | source/queue_spinlocking.c:79-92 | Appends while active, refuses with EACCES and changes nothing otherwise. |
| Queues.Queue.GetFirst | source/queue_spinlocking.c:101-113 | Removes the oldest entry. |
| Queues.Queue.SetActive | source/queue_spinlocking.c:115-125 | Switches the queue and returns what it was; entries stay. |
| WorkerSteps.RunsAreClosed | source/defer_io.c:101-181 | No step leaves the states of all runs from a capture, and they keep the invariant, so the methods below can be taken inside them. |
| WorkerSteps.HealthyIsWell | source/defer_io.c:117-162 | After every run without I/O faults in service, on a device of whole blocks with a stocked pool, the worker's next batch finds all well: its image outlasts a healthy batch. |
| DeferIos.DeferIo.constructor | source/defer_io.c:212-283 | Starts in the machine's initial state of a captured device. |
| DeferIos.DeferIo.RedirectBio | source/defer_io.c:304-347 | ENODATA when corrupted, EFAULT when the queue is inactive, otherwise the bio joins the queue's end. |
| DeferIos.DeferIo.PrepareBio | source/defer_io.c:78-92 | Copy preparation of one bio: none when stopping or corrupted or for reads, and otherwise the engine's. |
| DeferIos.DeferIo.CopyPrepare | source/defer_io.c:70-99 | Takes bios until 250 bios, 20480 sectors or an empty queue, one machine step each; the first failure ends the batch. |
| DeferIos.DeferIo.CopyBatch | source/defer_io.c:138-152 | One copying step of the machine with just the faults given. With no fault, roomy reads and whole blocks it succeeds; success means that nothing gets corrupted and the places of each block hold the device's sectors of it. |
| DeferIos.DeferIo.PrepareAndCopy | source/defer_io.c:128-152 | Prepares and copies a batch along machine steps; it takes at least one bio. With all well and no I/O fault the device stays uncorrupted, the image is shown the same, and every write of the batch has all its blocks in the snapstore. |
| DeferIos.DeferIo.IssueBio | source/defer_io.c:39-59 | A data write is marked in the map before it reaches the device, in one tracking event; other bios leave the map alone. |
| DeferIos.DeferIo.FinishBatch | source/defer_io.c:30-68 | Issues the whole batch in order, one machine step and one tracking event each, and ends idle with the batch empty. |
| DeferIos.DeferIo.WorkBatch | source/defer_io.c:117-162 | One turn of the worker along machine steps and tracking events: the bios it takes reach the device in order and the others still wait. With all well and no I/O fault the device stays uncorrupted and the image shows every sector, those overwritten included, as before. |
| DeferIos.DeferIo.StopWork | source/defer_io.c:164-172 | The end of the worker: queue closed, then everything left in it marked and issued. |
| DeferIos.DeferIo.WorkToTheEnd | source/defer_io.c:117-172 | A worker told to stop ends, with an empty, inactive queue, along machine steps and tracking events only, and every bio that waited has reached the device in order. |
| Trackers.Tracker.IssueAtOnce | source/tracking.c:207-225 | Without a snapshot a bio is marked, cut at the end of the device, and issued. |
| Trackers.Tracker.RedirectOrPass | source/tracking.c:193-225 | A bio is queued and not marked, or marked and issued at once, the latter exactly when the device is corrupted or the queue inactive. |
| Trackers.Tracker.MakeRequest | source/tracking.c:186-225 | Under a snapshot one submit step of the machine, marked exactly when refused; without one, mark and issue. |
| Trackers.Tracker.CaptureSnapshot | source/tracker.c:416-453 | EALREADY under a snapshot, with tracker and map as they were; otherwise the machine's initial state, the device contents frozen for the image, and then a closed epoch in the map, two events of tracking. |
| Trackers.Tracker.Attach | source/tracker.c:427-440 | Deferred I/O is in place and bios are deferred from here on, in the machine's initial state; the map's epoch is still open. |
| Trackers.Tracker.ReleaseSnapshot | source/tracker.c:550-596 | Without a snapshot nothing happens; with one, from here bios pass at once, and the worker goes on along machine steps and tracking events until it is done and all that waited has reached the device in order. |
| CbtTrackers.CbtTracker.BitmapLock | source/tracker.c:395-408 | The map is marked only while active. |
| CbtTrackers.CbtTracker.BitmapSet | source/tracker.c:377-393 | Marks the range, or ends tracking when the device was resized or the range leaves the map; `CbtPrecision.WriteTracked` says when. |
| CbtTrackers.CbtTracker.Issue | source/tracking.c:207-225 | Marking comes before the write, in one event of the tracking model. |
| CbtTrackers.CbtTracker.Close | source/tracker.c:442-449 | Closes the epoch; the image is what was frozen when deferring began. |
| CbtTrackers.TrackingAdd | source/tracking.c:290-308 | A tracker whose map is active and fits the device stays; any other is replaced by one with a new, empty map that fits, of a new generation. |
| CbtTrackers.CbtTracker.MarkImageWrite | source/snapimage.c:481-523 | An image write raises both maps, and it is remembered when that failed, since the write goes on. |
| CbtTrackers.TracksAreClosed | source/tracking.c:186-225 | The states tracking passes through from a start are closed under events, so the methods above can be taken inside them and the two theorems on backups hold for the worker and the tracker. |
| CbtMap.CheckSize | source/cbt_map.c:116-132 | The least shift not below the requested one whose block count is at most 2^28; the search ends. |
| CbtMap.MapSize | source/cbt_map.c:42-58 | The map size is the ceiling of capacity over block size. |
| CbtMap.SectorInMap | source/cbt_map.c:108-114 | Every sector of the device has a block in the map. |
| CbtMap.RangeMarks | source/cbt_map.c:194-220 | A non-empty range is accepted exactly when its last block is in the map, else refused with EINVAL; either way the entries of the blocks it meets become at least the active number and no others change. |
| CbtMap.Map.constructor | source/cbt_map.c:42-86 | A zeroed map of the least fitting shift, epoch 1 of a generation. |
| CbtMap.Map.Raise | source/cbt_map.c:194-220 | Entry by entry, stopping with EINVAL at the map's end with the entries before it raised. |
| CbtMap.Map.Set | source/cbt_map.c:222-235 | Raises the entries being written to the active number. |
| CbtMap.Map.SetBoth | source/cbt_map.c:237-250 | Also raises the readable entries to the previous number, unless the first map refused. |
| CbtMap.Map.Switch | source/cbt_map.c:169-192 | Publishes the map, advances the number, and starts a new generation at 1 past 255. |
| CbtTheorems.EntriesAreLatest | source/cbt_map.c:169-250 | After any operations an entry is the latest epoch of the current generation in which its block was marked, 0 if none, and never above the active number. |
| CbtTheorems.ReadableDescribesClosedEpoch | source/cbt_map.c:169-192 | Until the next switch, readable map, number and generation are those of the closed epoch, across the wrap too. |
| CbtTheorems.GenerationsMatch | source/cbt_map.c:169-192 | Beyond its first epoch a generation reports its own identifier. |
| CbtTheorems.MarkEffect | source/cbt_map.c:222-250 | A mark raises a block it meets to the active number and changes no other entry, number or generation. |
| CbtTheorems.SwitchEffect | source/cbt_map.c:169-192 | A switch moves to the next epoch or, past 255, to epoch 1 with cleared entries. |
| CbtTracking.UnmarkedMeansUnchanged | source/tracker.c:440-449 | Of two captures of one generation, a block not numbered above the earlier one has the same contents at both, while tracking stayed active; and the same in both images with all their image writes, if those could be marked and no write fell into the earlier capture. |
| CbtTracking.IncrementalBackupIsExact | source/tracking.c:186-225 | Taking only the blocks numbered above the earlier capture rebuilds the later capture exactly, and likewise its image with all image writes, across checks, resizes and generations. |
| CbtTracking.ImageWriteFits | source/snapimage.c:505-513 | An image write goes unmarked exactly when it ends in a block the map does not have, which never happens within the capacity the map was made for. |
| CbtTracking.UnmarkedIffGrownSince | source/tracking.c:290-308 | However long ago the check was, an image write goes unmarked exactly when it ends behind the last block the device had at the check, and only if the device has grown since. |
| CbtTracking.WholeIffStill | source/tracker.c:440-449 | The image of a capture is what the epoch is closed with, whatever data are written, exactly when no write and no growth falls between its two steps. |
| CbtTracking.NextBackupIff | source/tracker.c:440-449 | The incremental backup of a capture that follows at once is exact just when the earlier image has, in all blocks of the map, what its epoch was closed with. |
| CbtTracking.TornCaptureExample | source/tracker.c:440-449 | A write falls between the two steps of a capture: the next capture does not number its block above this one, although the two images differ there. |
| SnapshotBackups.SeenIsPossible | source/tracking.c:186-225 | Over any run of tracker and snapshots together the tracker never blocks a step of the snapshot. |
| SnapshotBackups.SeenReachesDevice | source/defer_io.c:39-59 | The original device changes by just the writes the tracker sees, whatever the step. |
| SnapshotBackups.SeenReachesImage | source/snapimage.c:481-523 | The image changes by just the image writes the tracker sees, whatever the step. |
| SnapshotBackups.ViewIsImage | source/tracker.c:416-453 | After any run over any number of snapshots, the image the tracker knows is the contents at capture with the image writes of the snapshot held, and its device is the snapshot's original. |
| SnapshotBackups.FullBackupIsImage | source/snapstore_device.c:319-416 | Sectors read from the image at whatever moments, none of them lost and no image write done in between, put together are the image. |
| SnapshotBackups.IncrementalBackupIsImage | source/snapstore_device.c:319-416 | A backup that takes the blocks not numbered above an earlier snapshot from that one's backup, and reads the others from the later image at whatever moments, is the later image. |
| CbtTracking.GrownImageExample | source/snapimage.c:505-513 | A device of eight sectors is checked, grows by eight and is captured, with tracking blocks of eight sectors; a write to the second half of the image is done and goes unmarked. |
| CbtTracking.WriteElsewhere | source/tracking.c:186-191 | A write outside a block's sectors leaves the block alone. |
| CbtPrecision.WriteTracked | source/tracker.c:377-393 | A write that reaches the device leaves tracking on exactly when it was on and the device has the size its map was made for. |
| CbtPrecision.WriteEffect | source/tracking.c:186-191 | Such a write raises the entries of the blocks it meets, cut at the end of the device, and changes nothing else of the map; one that ends tracking changes no entry. |
| CbtPrecision.ImageWriteEffect | source/snapimage.c:481-523 | Whether tracking is on or not, an image write raises the met blocks of the written map, and those of the readable one if it ends in the map, is remembered if it does not, and is done in any case. |
| CbtPrecision.DirtyEffect | source/snapimage.c:1303-1345 | Blocks marked by request are raised in both maps in the same way, and nothing else changes. |
| CbtPrecision.EndsIffWritesGrown | source/tracker.c:377-393 | Between two checks, over any events, tracking that is on ends exactly at the first write behind a growth of the device. |
| CbtPrecision.OnUntilGrown | source/tracking.c:290-308 | After the check that precedes a snapshot tracking is on and fits, and it stays on as long as the device does not grow. |
| CbtPrecision.UntouchedIsLeftOut | source/cbt_map.c:194-220 | A block that no write, image write or request has met since a capture is not numbered above it by any later capture of the generation. |
| SparseTree.SetMeaning | source/sparse_bitmap.c:223-319 | Setting sets that bit and no other, keeps the tree canonical, and reports EALREADY exactly when it was set. |
| SparseTree.ClearMeaning | source/sparse_bitmap.c:129-219 | Clearing clears that bit and no other, keeps the tree canonical, and reports EALREADY exactly when the leaf exists and the bit is clear. |
| SparseTree.LeafIffGroupUsed | source/sparse_bitmap.c:151-176 | The leaf of a clear index exists exactly when its group of 64 holds a set bit. |
| SparseTree.GetIsBit | source/sparse_bitmap.c:321-346 | The descent returns the bit. |
| SparseTree.CanonicalUnique | source/sparse_bitmap.c:151-311 | Equal bits mean equal trees: below the root no block stays wholly empty or wholly full. |
| SparseTree.CoversIff | source/sparse_bitmap.c:348-356 | The tree covers its length exactly when the length is not in a gap the truncating shifts open. |
| SparseTree.ShiftAgain | source/sparse_bitmap.c:348-356 | Shifting level by level is dividing by the level's unit. |
| SparseBitmap.CalcLevel | source/sparse_bitmap.c:348-356 | The level found is the least whose truncated quotient is at most 64. |
| SparseBitmap.SparseBlock.constructor | source/sparse_bitmap.c:67-91 | A new block is wholly empty or wholly full. |
| SparseBitmap.SparseBlock.Set | source/sparse_bitmap.c:223-319 | In place, with counters and child pointers, what the tree function says. |
| SparseBitmap.SparseBlock.Clear | source/sparse_bitmap.c:129-219 | In place, with counters and child pointers, what the tree function says. |
| SparseBitmap.SparseBlock.Get | source/sparse_bitmap.c:321-346 | The read-only descent. |
| SparseBitmap.SparseBlock.GetRanges | source/sparse_bitmap.c:409-495 | The recursive walk carries the open run through subtrees as a scan of the emitted bits does. |
| SparseBitmap.Bitmap.Set | source/sparse_bitmap.c:376-390 | EINVAL exactly outside the range; one bit changes; EALREADY as the tree reports it. |
| SparseBitmap.Bitmap.Get | source/sparse_bitmap.c:392-400 | EINVAL exactly outside the range, the bit otherwise. |
| SparseBitmap.Bitmap.ConvertToRangeList | source/sparse_bitmap.c:497-509 | The runs of the emitted bits, the last open run closed. |
| SparseBitmap.ClearReport | source/sparse_bitmap.c:159-176 | The exact return code of clearing. |
| SparseRuns.WalkIsScanIffNotFull | source/sparse_bitmap.c:433-487 | The walk lists the runs of the flat bits exactly when the root is not collapsed to full. |
| SparseTheorems.GetIsMember | source/sparse_bitmap.c:321-346 | After any operations Get is membership modulo the tree's size. |
| SparseTheorems.IsASetIffCovered | source/sparse_bitmap.c:359-400 | Get is membership after every sequence of operations below the length exactly when the tree covers the length. |
| SparseTheorems.AliasFound | source/sparse_bitmap.c:348-356 | A longer length makes index 0 and the first index beyond share a bit. |
| SparseTheorems.Length4097 | source/sparse_bitmap.c:348-356 | A length of 4097 gets a tree of 4096 bits: setting index 4096 makes index 0 read as set. |
| SparseTheorems.SetReportsMembers | source/sparse_bitmap.c:223-244 | Setting reports EALREADY exactly for members. |
| SparseTheorems.FullIff | source/sparse_bitmap.c:246-311 | A canonical block is collapsed to full exactly when all its bits are set. |
| SparseTheorems.RangesAgreeIffNotFull | source/sparse_bitmap.c:497-509 | After any operations the tree's ranges are those of the flat scan exactly when the root is not collapsed to full. |
| SparseTheorems.FullRootExample | source/sparse_bitmap.c:433-487 | On every tree of several levels, setting all indices one after the other makes the root full, and the ranges listed then are not those of the bits. |
| RunScan.RunsAreMaximal | source/snapdata_collect.c:283-317 | The scan's ranges are sorted, separated, cover exactly the set bits, and their lengths sum to their number. |
| RunScan.RunsUnique | source/snapdata_collect.c:283-317 | There is only one such list. |
| FlatBitmap.ConvertToRangeList | source/snapdata_collect.c:283-317 | The bit-by-bit loop lists the runs of the bytes' bits, ENODATA when the pages end early. |
| FlatBitmap.BitGet | source/page_array.c:332-345 | The bit, ENODATA past the pages. |
| FlatBitmap.BitSet | source/page_array.c:347-375 | Sets or clears one bit and no other; EALREADY exactly when it had the value. |
| PageArrays.PageArray.Get | source/page_array.c:279-317 | The element over all pages, ENODATA past them. |
| PageArrays.PageArray.Set | source/page_array.c:293-330 | Changes one element and no other, ENODATA past the pages. |
| PageArrays.PageArray.Memset | source/page_array.c:248-255 | Every element becomes the value. |
| PageArrays.PageArray.Memcpy | source/page_array.c:257-267 | As many pages as both have become those of the source; the rest of the target and all of the source stay. |
| PageArrays.PageArray.Pages2Mem | source/page_array.c:81-108 | Copies from the offset until length or pages end, the rest of the buffer stays. |
| RangeVectors.Vector.Add | source/rangevector.c:38-76 | Appends to the last chunk, or to a new one when it is full. |
| RangeVectors.AddedAppends | source/rangevector.c:38-76 | The list gains one range at its end; all chunks but the last stay full. |
| RangeVectors.PackedIsBuilt | source/rangevector.c:38-76 | Every packed list of chunks is what adding its ranges one by one builds. |
| RangeVectors.Vector.VirtToPhys | source/rangevector.c:78-108 | The nested loops compute the lookup with its early end of the inner loop only. |
| RangeLists.LocateNamesSectors | source/rangevector.c:78-108 | The intended lookup names consecutive sectors of the concatenated ranges, and succeeds exactly below their total. |
| RangeLists.OneChunkV2P | source/rangevector.c:78-108 | With one chunk the code's lookup is the intended one, for every offset. |
| RangeLists.V2PRightIff | source/rangevector.c:91-103 | With several chunks of disjoint ranges it is right exactly when the chunks behind hold no more sectors than lie before the offset in its range. |
| RangeVectors.V2PExample | source/rangevector.c:91-103 | A vector built by adding 1001 ranges looks its first sector up in the last range. |
| RangeVectors.Vector.Sort | source/rangevector.c:133-169 | Ends; sorted by offset over chunk borders, a permutation, chunk sizes and total length kept, and as many swaps as there were inversions. |
| RangeVectors.Vector.Pass | source/rangevector.c:140-166 | One pass removes one inversion with each swap and stops the loop exactly when it swapped nothing. |
| RangeLists.SwapRemovesOne | source/rangevector.c:149-158 | Swapping a wrong neighbouring pair removes exactly one inversion. |
| RangeVectors.Vector.Length | source/rangevector.c:171-183 | The sum over all chunks. |
| RangeVectors.Element.FindFirstHit | source/rangevector.c:200-254 | A range found is the first hit; none is found exactly when there is no hit or only the first of several ranges is hit. |
| ZeroRanges.ZerosCover | source/blk_redirect.c:457-491 | Zeros are served exactly when one zero range covers the piece and is not the first of several in its chunk. |
| ZeroRanges.FirstRangeUnseen | source/rangevector.c:212-234 | A covering range that starts a chunk of several is not used. |
| ZeroRanges.AddZeroRanges | source/snapstore.c:323-349 | EINVAL without ranges; with zeroing on, the list gains the ranges and is sorted by offset, and otherwise it stays. |
| ZeroRanges.SortedIsOrderedIff | source/rangevector.c:200-254 | Non-empty ranges sorted by offset lie one behind the other, as the bisection needs them, exactly when they share no sector. |
| CbtStream.PageRoundTrip | source/cbt_storage.c:17-71 | A page decoded from its bytes is the page encoded. |
| CbtStream.StampIsRead | source/cbt_storage.c:73-122 | A stamped page passes the checks of reading, for any checksum function. |
| CbtStream.ReadAcceptsIff | source/cbt_storage.c:17-71 | A page that can be transferred is accepted exactly when its magic number is right, its checksum is that of its number, time, padding and data, and its number is the one asked for; any other is refused with EINVAL. |
| CbtStream.PrepareFinds | source/cbt_storage.c:261-317 | Preparing to read is ready exactly when the first page is good and carries a time mark, preparing to write exactly when it is good; a bad first page gives EINVAL in both. |
| CbtStream.WritesIff | source/cbt_storage.c:73-122 | A page is written, stamped and with the data in memory, exactly if it can be transferred; otherwise the status tells and no page changes. |
| CbtStream.WriteReports | source/cbt_storage.c:371-434 | A write that reports success has written out every page it filled; an error of a transfer is that of the page it stops at. |
| CbtStream.FinishReports | source/cbt_storage.c:436-477 | Finishing succeeds exactly when every page from the current one on can be transferred. |
| CbtStream.ReadFitsIff | source/cbt_storage.c:319-369 | A read of stored pages succeeds exactly when that much is left to read, across any pages, and else fails with ENODATA. |
| CbtStream.WriteAppends | source/cbt_storage.c:371-434 | A write that fits appends its bytes to the stream across pages. |
| CbtStream.WriteFitsIff | source/cbt_storage.c:371-434 | A non-empty write succeeds exactly when it fits, otherwise ENODATA. |
| CbtStream.FinishStores | source/cbt_storage.c:436-477 | Finishing writes the last page; all pages behind are zero and carry a zero time mark. |
| CbtStream.ReadInsidePage | source/cbt_storage.c:319-369 | A read inside one page returns the next bytes and advances by them. |
| CbtStream.LastByteUntouched | source/cbt_storage.c:363-366 | A read of several portions never writes its buffer's last byte. |
| CbtStream.ReadRightIff | source/cbt_storage.c:319-369 | A read is right for every buffer exactly when it stays inside one page. |
| CbtStreamTheorems.WrittenIsStored | source/cbt_storage.c:298-477 | Any writes that fit and a finish leave exactly their concatenation in the pages. |
| CbtStreamTheorems.PrepareTakesMark | source/cbt_storage.c:261-296 | Preparing to read finds a stored stream and wipes its mark. |
| CbtStreamTheorems.NothingLeft | source/cbt_storage.c:261-296 | Without a mark nothing is there to read. |
| CbtStreamTheorems.StreamRoundTrip | source/cbt_storage.c:261-477 | Write, finish, prepare, read with the same sizes inside pages returns the parts; a second prepare finds nothing. |
| CbtStreamTheorems.DamageFoundIff | source/cbt_storage.c:319-369 | With one page damaged, reads that end before it return what they would have returned, and exactly those that come to it fail, with EINVAL. |
| CbtStorage.OneChunkPlacesAll | source/cbt_storage.c:124-160 | Disjoint ranges of whole pages in one chunk give each page its own place on the device. |
| CbtStorage.Accessor.ReadPage | source/cbt_storage.c:17-71 | Reads the page at the place of its number into memory and accepts it exactly when magic number, checksum and number are right, else EINVAL; a lookup that fails, a place of another length or a place the device cannot transfer gives its error and no page. |
| CbtStorage.Accessor.WritePage | source/cbt_storage.c:73-122 | Writes one stamped page and no other, or fails with one of the same three errors and leaves the device as it was. |
| CbtStorage.Accessor.PrepareForRead | source/cbt_storage.c:261-296 | On buffer and device what the stream model says. |
| CbtStorage.Accessor.PrepareForWrite | source/cbt_storage.c:298-317 | On buffer and device what the stream model says. |
| CbtStorage.Accessor.Write | source/cbt_storage.c:371-434 | The loop over portions does what the stream model says. |
| CbtStorage.Accessor.Finish | source/cbt_storage.c:436-477 | The loop over the pages left does what the stream model says. |
| CbtStorage.Accessor.Read | source/cbt_storage.c:319-369 | The loop over portions fills the buffer as the stream model says, to its start each time. |

## Left out

- SnapshotTheorems.CorrectOrCorrupted: after a stop or a release it does not say where sectors are lost; those let writes pass uncopied by design, and SnapshotLosses.RightIffNotLost then says which sectors stay right.
- SnapshotTheorems.CorruptedRefusesWrites: the image write under way when the flag is set may still be done, as in the code.
- SnapstoreDevices.SnapstoreDevice.constructor: the retry with larger blocks when memory for the block map is short.
- SnapstoreDevices.SnapstoreDevice.Store: a store that fails leaves anything in the blocks of its request, and nothing else changes.
- Trackers.Tracker.ReleaseSnapshot: the worker is stopped between two batches.
- DeferIos.DeferIo.WorkBatch: runs alone; bios and image requests arriving during a batch are in the machine's runs.
- CbtTracking.UnmarkedMeansUnchanged: devices that shrink, which end tracking at the next write.
- CbtTracking.UnmarkedIffGrownSince: a device that grows after the capture and before its image takes its size from it (source/snapimage.c:849).
- SnapshotBackups.IncrementalBackupIsImage: a device that changes its size, or is added to another snapshot, while its snapshot is held.
- DeferIos.DeferIo.PopBio: prepares all blocks of a bio at a stretch; what happens outside between two of them is in the machine's `Pop`.
- SparseBitmap.CalcLevel: blocks of 64 slots only, not the 32 of 32-bit machines.
- BioWalk.RedirectPart: devices whose logical block is larger than a sector, refused with EFAULT.
- CbtStorage.Accessor.ReadPage: a place of the device fails always or never; what a failed transfer leaves in the page buffer; stores smaller than one page.
- SnapstoreFile.AddFile: the half-fill mark it clears, and an allocation that fails on the way.
- Interrupted or failed memory allocation, apart from an exhausted descriptor pool.
- Completion races and time-outs of device I/O: submit and wait are one step.
- Bios without data: flush, discard and write-zeroes pass without copying and carry nothing the image depends on.
- Snapstores in memory and on several devices: the same walk with another place for a block's sectors.
- Zero-sector mode inside image reads: only the list of zero ranges and the decision to serve zeros are modelled.
- A snapstore on the device it snapshots.
- The check of a whole store before use, the choice of its checksum, and the file system lookups around it.
- Half-fill notifications, statistics counters, freezing, reference counts, threads, ioctl, sysfs and the character device.
