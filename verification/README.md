# Verified models of the emulator's core protocols

This project models six parts of the emulator's inherited core and proves what they are for. The
models follow the source's own form: objects with fields that methods change, loops with
invariants, and step machines where several coroutines or threads interleave.

* **Overlapping requests** (`Image`, `TrackedRequests`, `TrackedProtocol`, `TrackedHistory`,
  `TrackedTheorems`, `TrackedProgress`, `BlockDevice`, `Multiwrite`, `Commit`). Coroutines register tracked requests, mark unaligned
  writes serialising, sleep on conflicting requests, read what surrounds an unaligned write and
  write it back. A step is a piece of a coroutine that cannot yield. Every run is shown to be
  equivalent to doing the successful writes one after the other, in an order that respects time,
  with each caller's bytes, and a run without new requests
  to be over after a number of steps that depends on how many are outstanding. `BlockDevice`
  carries out the same steps on mutable lists and counters. `Multiwrite` and `Commit` show that merging requests
  and committing an overlay preserve what the guest sees.
* **Physical page map** (`Radix`, `PhysMap`, `PhysCompact`, `Flat`, `FlatSteps`, `Dispatch`). The
  radix tree built by recursion, its path compression, subpages, and the splitting of sections
  are tied to a flat map from address to region and offset, for every address and every list of
  disjoint sections.
* **RAM migration** (`LongWords`, `Xbzrle`, `PageCache`, `DirtyPages`, `RamStream`, `RamWire`,
  `RamSave`, `RamMigration`, `Endian`). A sender with its dirty log, bitmap, page cache and
  delta codec writes a byte stream; a receiver loads it. The receiver's memory is compared with
  the guest's after any run of guest writes, synchronisations and sends.
* **Event loop** (`BottomHalves`, `NodeLists`, `AioEvents`, `AioWalk`). The wakeup handshake as interleaved
  reads and writes of one poller and any number of schedulers; and the two list walks with
  callbacks that set handlers, create, schedule, cancel and delete bottom halves, and poll again,
  nested to any depth. What callbacks do is read from a tape, so that every sequence of these is
  covered.
* **Software TLB** (`Tlb`). Large pages are remembered as one mask and address; entries move to a
  victim table; flushing a page is shown to be sound for both.
* **ELF dump** (`Dump`). Offsets computed for the program headers against the bytes written.

`Arith`, `Lists` and `Wrappers` hold arithmetic on multiples, lists of names and an option type.

Three claims one might make turned out false of the code. Each is shown by a run, and the exact
condition under which the code does what is claimed is proved for all runs:

* A migration does not always end with the guest's memory on the other side. Leaving the bulk stage
  drops a page when the last page of the last block has just been sent, is dirty again, and is the
  only dirty page (`RamMigration.LosesAPage`). Whether that happens, and whether the receiver ends
  with something else on that page, is a predicate on the blocks, the initial memory and the steps;
  the memory arrives if and only if it is false (`RamMigration.Migrate`).
* A bottom half first scheduled with `qemu_bh_schedule_idle` and then with `qemu_bh_schedule` does
  not wake a blocked poller (`BottomHalves.IdleLosesWakeup`). One that `qemu_bh_schedule_idle` has
  not left scheduled is never missed, in any interleaving (`BottomHalves.NoLostWakeup`), and a call
  wakes a blocked poller if and only if the bottom half was not scheduled before
  (`BottomHalves.ScheduleWakes`).
* A dump with 32-bit program headers can have a header that points elsewhere than to its memory.
  The i386 target chooses 32-bit headers as long as no block ends above 4 GiB, but the headers and
  notes before the memory count too. `Dump.CutHeader` shows it at a list of blocks that `dump.c` may
  be given; no PC board produces this one, since their low memory stops well below 4 GiB. A header reads back as meant if and only if
  the place in the file is below the limit of its class (`Dump.HeaderReadable`), and on that target
  one that does not points into the headers and notes (`Dump.CutIntoHeaders`).

Numbers are unbounded unless stated; disk, guest and stream bytes are sequences. What drivers,
allocators, the kernel and callbacks do is a parameter or an arbitrary choice.

## Model

| member | source | states |
|---|---|---|
| `TrackedRequests.AlignmentTests` | block.c:3417-3480 | the bit tests on offset and length agree with comparing the request to its range rounded out to the alignment, and the head and tail sectors read are the ones at its two ends |
| `TrackedRequests.FirstBlocker` | block.c:2483-2503 | the request slept on overlaps, one of the two is serialising, it is not itself waiting, and none before it in the list is like that; none is returned only when every conflicting request waits |
| `TrackedRequests.EveryIoWaits` | block.c:3336-3339 | every driver call comes right after the wait of the aligned read or write it is in, and those that read around an unaligned write also after a mark and a wait of their own |
| `Lists.Without` | block.c:2375-2383 | removing a request from the list leaves exactly the others |
| `TrackedRequests.WakeAll` | block.c:2381-2381 | every request asleep on the ended one is woken, no other is, and nothing else about any request changes |
| `TrackedProtocol.BlockerAdmitted` | block.c:2472-2514 | a request one would sleep on has itself come through a wait, and the sleeper has not |
| `TrackedProtocol.OthersBuffers` | block.c:3381-3503 | a driver write leaves what every other request in a read-modify-write cycle has read as the image still is |
| `TrackedProtocol.Sandwich` | block.c:3417-3480 | writing back what surrounds a range, with the range replaced, changes only the range |
| `TrackedProtocol.PaddedIsSandwich` | block.c:3439-3485 | the padded write of a request is its data between what the image holds on both sides |
| `TrackedProtocol.WriteReturns` | block.c:3321-3372 | the padded driver write is, for a reader of the zero-extended image, the caller's write and nothing else |
| `TrackedProtocol.StepKeepsInv` | block.c:2375-2514 | every step of any coroutine keeps the invariant: exclusion, buffers that show the image, counters that match, assertions that hold |
| `TrackedHistory.RunRecords` | block.c:3381-3415 | over any run every caller's write is on record with its offset and its bytes, every read with its range rounded out to the alignment, and nothing else is |
| `TrackedHistory.RunOutcomes` | block.c:3381-3503 | over any run the writes reported as failed are those with a driver call that failed; a read that is over has returned its bytes or had one, never both |
| `TrackedTheorems.Linearisable` | block.c:3381-3503 | every run is equivalent to doing its successful writes one at a time, each once and with the bytes its caller gave, with every read between two of them; a write that has ended took effect if and only if no driver call of it failed, and a read that has ended and did not fail holds, at the caller's offset, the bytes the writes before it left there; no assertion fires and no two admitted requests overlap when one is serialising |
| `TrackedTheorems.RealTime` | block.c:3381-3503 | a request begun after some writes have taken effect comes after them in that order, and what a read was given does not change |
| `TrackedTheorems.NoLostUpdate` | block.c:3381-3503 | once all requests of a run have ended, a byte that at most one of its writes covers holds what the caller of that write gave, if no driver call of it failed, and its original value otherwise |
| `TrackedTheorems.NoDeadlock` | block.c:2483-2511 | nobody sleeps on a sleeping request, and while requests are outstanding some step is possible |
| `TrackedTheorems.SleepsOnConflict` | block.c:2483-2503 | a request goes to sleep only on one whose range, rounded out, shares a byte with its own, one of the two being unaligned; a request for no bytes may sleep without one |
| `TrackedTheorems.WriteInWindow` | block.c:3336-3340 | what the driver is given to write lies in the window by which other requests wait for this one |
| `TrackedTheorems.AdmittedNeverBlocks` | block.c:3336-3339 | a request that has come through one wait comes through every later one at once |
| `TrackedProgress.StepDecreases` | block.c:2375-2514 | every step but a new request lowers a measure of what is left to do, also where a request is woken only to sleep again |
| `TrackedProgress.AllEnd` | block.c:2483-2511 | from any state of any run, with n requests outstanding, going on without new ones is over after n * (n + 33) steps at most, and when nothing more can happen every request has ended |
| `BlockDevice.BlockDriverState.TrackedRequestBegin` | block.c:2388-2407 | the new request goes to the head of the list with its own range as overlap window |
| `BlockDevice.BlockDriverState.MarkRequestSerialising` | block.c:2409-2422 | the overlap window becomes the range rounded out to the alignment, never smaller than before, and the count of serialising requests goes up once |
| `BlockDevice.BlockDriverState.FindBlocker` | block.c:2472-2503 | the loop finds the blocker that the protocol's definition names |
| `BlockDevice.BlockDriverState.RestartAll` | block.c:2375-2383 | the loop over the wait queue wakes whom the protocol says |
| `BlockDevice.BlockDriverState.TrackedRequestEnd` | block.c:2375-2386 | the request leaves the list, the count goes down if it was serialising, and its waiters are woken |
| `BlockDevice.BlockDriverState.RunCoroutine` | block.c:2472-2514 | a coroutine run from one yield point to the next does the protocol's step |
| `BlockDevice.BlockDriverState.FinishIo` | block.c:3425-3503 | a driver call that returns, or fails, does the protocol's step |
| `BlockDevice.BlockDriverState.Resume` | block.c:2502-2504 | entering a woken coroutine again does the protocol's step |
| `BlockDevice.BlockDriverState.TakeStep` | block.c:2375-2514 | in every state of the invariant the code does each of the protocol's steps, with nothing asked of the caller beyond the step being possible |
| `BlockDevice.BlockDriverState.Drive` | block.c:3381-3503 | the code takes any run of the protocol from start to end; the image is then what the applied writes give one after the other, with the bytes their callers gave, and every request that has ended is answered as Linearisable says |
| `Image.AlignedPreadv` | block.c:3076-3115 | an aligned read leaves the zero-extended image in the buffers, whatever the driver does and the buffers hold past the end; the driver is asked for the whole range, or for what there is of the image rounded up to the alignment at most |
| `Image.IovecZero` | util/iov.c:60-77 | the loop over the buffers leaves the bytes of the whole vector as they were with that range zeroed, as far as the vector goes, each buffer keeps its length, the assertion at the end holds, and the number of bytes filled is returned |
| `Multiwrite.IovecConcat` | util/iov.c:298-338 | the loop appends the elements that cover the bytes asked for |
| `Multiwrite.FlatSlice` | util/iov.c:298-322 | the elements appended hold exactly the bytes from skip on |
| `Multiwrite.SliceCount` | util/iov.c:298-322 | a prefix and a suffix that do not overlap share at most one element |
| `Multiwrite.MergedBytes` | block.c:4626-4641 | a merged vector holds the second request's bytes laid over the first's |
| `Multiwrite.Merge2Sized` | block.c:4626-4643 | the merged request is as long as the two together reach |
| `Multiwrite.Merge2Count` | block.c:4611-4624 | a merged vector has at most one element more than the two it came from |
| `Multiwrite.Merge2Meaning` | block.c:4620-4644 | one merged write leaves the disk as the two writes in order do |
| `Multiwrite.MergedWithin` | block.c:4606-4618 | merged requests respect the transfer and element limits that the given ones respect |
| `Multiwrite.MergedMeaning` | block.c:4591-4658 | issuing the merged array writes the same disk as issuing the sorted requests in order |
| `Multiwrite.TouchingMerge` | block.c:4606-4618 | requests that each start in or right after one before, and are together within the limits, come out as one that covers them all |
| `Multiwrite.MergedApart` | block.c:4606-4618 | two requests that come out one after the other have a gap between them, or the one that starts the second could not join the first within the limits |
| `Multiwrite.MergePair` | block.c:4620-4644 | the merged request is built as specified |
| `Multiwrite.MultiwriteMerge` | block.c:4591-4658 | the array ends with the merged requests in front, and their number is returned |
| `Commit.ViewStays` | block.c:2304-2320 | at no point of the copy loop does the view through the overlay change, whatever a write that failed has left in the sectors it was to write |
| `Commit.ViewWithout` | block.c:2322-2328 | once all is copied the view does not depend on which sectors are left in the overlay |
| `Commit.RunCopied` | block.c:2309-2319 | copying a run of allocated sectors advances the copied part |
| `Commit.Overlay.CopyLoop` | block.c:2304-2320 | the loop succeeds if and only if no status, read or write call fails at a run it comes to; whether it ends or fails, the sectors passed are copied; only those of a write that failed may hold anything, and the rest are as they were |
| `Commit.Overlay.Commit` | block.c:2284-2329 | it succeeds if and only if growing the backing image, where it has to grow, the calls of the loop and emptying the overlay all do; on every return the guest sees what it saw, also when one of them failed half way; after success the backing image alone shows it for every sector of the overlay |
| `Radix.WalkFrame` | exec.c:298-311 | a walk depends only on the nodes inside the pages its entry covers |
| `PhysMap.PhysPageMap.Reserve` | exec.c:167-174 | after a reservation that many nodes can be allocated without moving the array |
| `PhysMap.PhysPageMap.NodeAlloc` | exec.c:176-189 | allocation inside the reservation never meets its two assertions |
| `PhysMap.PaintSlot` | exec.c:211-223 | changing one entry of a node changes the walk for the pages of that entry only |
| `PhysMap.PhysPageMap.SetSlot` | exec.c:213-222 | one round of the loop gives the pages of the range in one entry their section, and allocates within its budget |
| `PhysMap.PhysPageMap.SetLevel` | exec.c:191-224 | the recursion gives every page of the range its section and no other page anything, never goes below level 0, and allocates within its budget |
| `PhysMap.PhysPageMap.SetPages` | exec.c:226-234 | the pages of the range get the section, all others keep theirs, and at most 2 * P_L2_LEVELS - 1 nodes are allocated of the 3 * P_L2_LEVELS reserved |
| `PhysCompact.WalkDigits` | exec.c:298-311 | a walk in a compacted tree looks only at the index bits below the height it starts from |
| `PhysCompact.BypassAgreesAt` | exec.c:263-286 | skipping a node with one child sends a lookup to the same section, or from unassigned to a section that has pages elsewhere |
| `PhysCompact.CompactSlot` | exec.c:250-261 | one round of the loop keeps the lookups under the node |
| `PhysCompact.CompactEntry` | exec.c:239-287 | compaction keeps every lookup, but that an unassigned page may lead to a section that does not hold it, and leaves no node with a single child on any walk |
| `Flat.FreePage` | exec.c:298-320 | a page no byte of which resolves to a section has no entry |
| `FlatSteps.MultipageShows` | exec.c:1022-1032 | giving pages to a section makes exactly its addresses resolve to it |
| `FlatSteps.SubpageUnseen` | exec.c:1004-1012 | giving an unassigned page an empty subpage changes no translation |
| `FlatSteps.SubpageShows` | exec.c:1015-1018 | filling part of a subpage makes exactly those addresses resolve to the section |
| `Dispatch.AddressSpaceDispatch.constructor` | exec.c:2097-2121 | a new dispatch structure leads every address to unassigned |
| `Dispatch.AddressSpaceDispatch.RegisterMultipage` | exec.c:1022-1032 | the addresses of the section, and no others, come to show it |
| `Dispatch.AddressSpaceDispatch.SubpageRegister` | exec.c:2023-2041 | the loop fills exactly the entries from start to end, and refuses a range outside the page |
| `Dispatch.AddressSpaceDispatch.RegisterSubpage` | exec.c:991-1019 | a piece within one page comes to be shown, whether the page had a subpage or not |
| `Dispatch.AddressSpaceDispatch.AddPiece` | exec.c:1050-1064 | a round of the loop adds whole pages or the rest of one, and the branch for a whole unaligned page is not reached |
| `Dispatch.AddressSpaceDispatch.MemAdd` | exec.c:1034-1065 | the loop ends, and the addresses of the section, and no others, come to show it at its offsets; at most five table entries are used |
| `Dispatch.CompactFind` | exec.c:298-320 | where compaction leads an unassigned page astray the final range test gives unassigned again |
| `Dispatch.AddressSpaceDispatch.MemCommit` | exec.c:2123-2135 | compaction keeps the translation of every address, and no walk passes through a node with a single child any more |
| `Dispatch.AddressSpaceDispatch.PhysPageFind` | exec.c:298-320 | the lookup loop computes the section that the tree and the range test give |
| `Dispatch.AddressSpaceDispatch.Translate` | exec.c:329-362 | lookup through subpages gives the region and offset specified |
| `Dispatch.BuildDispatch` | exec.c:2097-2135 | for every list of disjoint sections and every address, translation through the compacted structure is what the flat list says |
| `LongWords.ZeroByteTestExact` | migration/xbzrle.c:96-101 | the word test fires if and only if some byte of the word is zero |
| `LongWords.HasEqualByte` | migration/xbzrle.c:96-101 | on two buffers the word test finds an equal byte exactly when there is one |
| `LongWords.SameLong` | migration/xbzrle.c:52-57 | comparing words is comparing their bytes |
| `Xbzrle.RunUnique` | migration/xbzrle.c:43-74 | a run of equal bytes that cannot be extended is the one the encoder takes |
| `Xbzrle.SkipEqual` | migration/xbzrle.c:43-64 | skipping by bytes and by words counts exactly the equal bytes ahead |
| `Xbzrle.SkipDiff` | migration/xbzrle.c:85-113 | skipping by bytes and by words counts exactly the differing bytes ahead |
| `Xbzrle.UlebRange` | util/cutils.c:516-531 | a length is refused exactly when its second byte says that a third follows, and what is read has 14 bits at most |
| `Xbzrle.UlebRoundTrip` | util/cutils.c:504-531 | a length of up to 14 bits is read back as written |
| `Xbzrle.DecDelta` | migration/xbzrle.c:128-175 | decoding the bytes of a delta does what the delta does |
| `Xbzrle.RoundTrip` | migration/xbzrle.c:26-175 | decoding an encoded page over the old page gives the new page, and the encoding is empty if and only if nothing changed |
| `Xbzrle.EncodeBuffer` | migration/xbzrle.c:26-125 | the loop produces the encoding, 0 exactly for equal pages, and -1 exactly when the encoding does not fit, or does not with two bytes to spare when the pages end with an equal byte |
| `Xbzrle.DecodeBuffer` | migration/xbzrle.c:128-175 | the loop decodes, and returns -1 exactly for malformed input |
| `PageCaches.PageCache.IsCached` | page_cache.c:145-158 | a hit if and only if the page is cached; the entry of a hit gets the age of the lookup and keeps its page, and every other entry is as it was |
| `PageCaches.PageCache.Insert` | page_cache.c:160-189 | succeeds if and only if the slot is the page's own, free with memory to be had, or holds a page old enough; success puts the page and the age into its slot and changes no other, and failure changes nothing |
| `DirtyPages.AllSet` | arch_init.c:890-898 | with all bits set the bits in use are as many as the blocks have pages |
| `DirtyPages.WordCount` | arch_init.c:495-503 | adding the population count of the new bits of a word keeps count of the dirty pages |
| `DirtyPages.DirtyBitmap.constructor` | arch_init.c:890-898 | every page starts dirty and the count is right, gaps not counted |
| `DirtyPages.DirtyBitmap.FindAndResetDirty` | arch_init.c:446-468 | the next dirty page, or in the bulk stage the next page, is taken, its bit cleared and the count lowered |
| `DirtyPages.DirtyBitmap.SetDirty` | arch_init.c:470-481 | the bit is set and the count raised only if it was clear |
| `DirtyPages.DirtyBitmap.SyncWord` | arch_init.c:494-504 | a word of the log is moved to the bitmap and the count kept |
| `DirtyPages.DirtyBitmap.SyncRange` | arch_init.c:483-516 | by words or page by page, every logged page of the range is moved to the bitmap and the count kept |
| `DirtyPages.DirtyBitmap.Sync` | arch_init.c:555-559 | the whole log is moved to the bitmap |
| `RamStream.LocateHeader` | arch_init.c:1073-1103 | the receiver resolves the sender's header to the sender's block, named or continued |
| `RamStream.DeltaRebuilds` | arch_init.c:1035-1068 | a delta against the page the receiver has rebuilds the page sent |
| `RamWire.WireLayout` | arch_init.c:331-345 | on the wire are a big-endian word of page address and flags, the name with its length unless the block continues, and the fill byte, the page, or encoding, length and bytes of a delta, with the flag values of the format |
| `RamWire.RecordRoundTrip` | arch_init.c:331-345 | a record is read back from its bytes, with offset, flags, name and body, and nothing of what follows |
| `RamWire.RecordExact` | arch_init.c:1073-1103 | only what a record that can be sent looks like on the wire is read as that record |
| `RamWire.LoadSection` | arch_init.c:1116-1234 | loading the bytes of a section does what its records say |
| `RamWire.LoadUpTo` | arch_init.c:1135-1146 | records load up to any word with the end flag, whatever address comes with it and whether or not it has the continue flag |
| `RamWire.LoadOnly` | arch_init.c:1135-1228 | nothing else is accepted: bytes that load are those of records that can be sent, which all load, and of an end marker |
| `RamWire.SectionsRoundTrip` | arch_init.c:1073-1091 | however the records are cut into sections, loading the sections does what the records say, since the block is kept between them |
| `RamWire.HostFromStreamOffset` | arch_init.c:1073-1103 | the search finds the first block of that name and length, and refuses a bad continuation |
| `RamWire.LoadRecord` | arch_init.c:1174-1213 | a record is refused exactly when its page cannot be found or its delta is malformed; a fill record makes every byte of its page the fill byte, a plain one makes the page the bytes sent, a delta is applied to the page, and no other page changes |
| `RamWire.RamLoad` | arch_init.c:1135-1228 | the loop does what the records of a section say, up to the end marker, and leaves the rest; it refuses when one of them is refused |
| `RamSave.RamSaver.constructor` | arch_init.c:843-898 | the initial state satisfies the invariant |
| `RamSave.RamSaver.SaveXbzrlePage` | arch_init.c:382-444 | a delta is sent and rebuilds the page, or the page is already as the receiver has it, or it has to go whole; a delta goes exactly when the old page is cached and the encoding is not too long for xbzrle_encode_buffer; before the last stage a cached page is brought up to date and another is put in if the cache has room, in the last stage the cache is left alone, and cached pages stay the receiver's until then |
| `RamSave.RamSaver.SavePage` | arch_init.c:617-693 | afterwards the receiver has the page as it is; what is sent is a fill if and only if every byte is zero, nothing for a cached page that has not changed, a delta when the old page is cached and the encoding is not too long, and otherwise the whole page |
| `RamSave.WalkOn` | arch_init.c:727-735 | going to the next block keeps the account of what has been looked at |
| `RamSave.WalkEnds` | arch_init.c:720-726 | a round ends with nothing dirty, after dropping the one page it passed over if that is |
| `RamSave.WalkFinds` | arch_init.c:736-745 | a search that finds a page to send is not one that drops a page, and in the bulk stage takes the pages in order |
| `RamSave.RamSaver.FindAndSaveBlock` | arch_init.c:708-751 | the search ends, keeps every differing page marked or known as lost, leaves pages that are not dirty alone, returns 0 only when no page of any block is dirty, loses a page if and only if it is entered in the state described, and in the bulk stage sends the next page in order |
| `RamMigration.GuestWrite` | include/exec/ram_addr.h:117-128 | a guest write is logged, so the invariant holds |
| `RamMigration.BitmapSync` | arch_init.c:532-560 | a synchronisation moves the log to the bitmap, counts itself, and keeps the invariant, also into the last stage |
| `RamMigration.SaveComplete` | arch_init.c:988-1016 | the receiver ends with the guest's memory if and only if it has each page lost before, or dropped by completion itself, as the guest has it; completion drops a page if and only if it is entered, after the final synchronisation, in the state that drops one |
| `RamMigration.SendTracks` | arch_init.c:708-751 | where a search leaves the bulk stage, and what it does to the last page, follows from the steps so far and not from what is on the pages |
| `RamMigration.FateDecides` | arch_init.c:988-1016 | whether completion drops or loses the last page follows from the steps before it |
| `RamMigration.Run` | arch_init.c:923-985 | any sequence of guest writes, synchronisations and sends keeps every differing page marked or known as lost, and comes to where its steps say |
| `RamMigration.Migrate` | arch_init.c:843-1016 | for every run, loading the bytes of the stream, in one section or cut into sections anywhere, gives the guest's final memory but for at most the last page of the last block; it gives all of it if and only if a predicate on blocks, initial memory and steps does not hold, and a page is dropped if and only if another such predicate holds |
| `RamMigration.LosesAPage` | arch_init.c:455-465 | a whole migration of two pages, sent, sent, and the second written again: completion drops that page and the receiver's memory differs |
| `BottomHalves.StepKeeps` | async.c:63-180 | every step of the poller and of every thread keeps the invariant |
| `BottomHalves.NoLostWakeup` | async.c:119-134 | in any run, when the poller is blocked and the notifier clear, a live scheduled bottom half that qemu_bh_schedule_idle has not left scheduled, and is not in the middle of scheduling, has a thread between setting it and notifying |
| `BottomHalves.NeverIdle` | async.c:110-117 | a bottom half on which qemu_bh_schedule_idle is never called never counts as left scheduled by it, so that NoLostWakeup is about it at all times |
| `BottomHalves.ThenWoken` | async.c:270-277 | the next one or two steps of such a thread, and no steps of others, set the notifier |
| `BottomHalves.PollerGoesOn` | aio-posix.c:189-254 | in any run the poller can go on by itself until it is back in callbacks |
| `BottomHalves.ReturnsToDispatch` | aio-posix.c:244-249 | a poll that returns goes on to dispatch, with the dispatching flag set |
| `BottomHalves.ScheduleWakes` | async.c:119-134 | a whole call, in any state of the poller, sets the notifier if and only if the bottom half was not scheduled already and the poller is not dispatching; what an earlier qemu_bh_schedule_idle left is over then |
| `BottomHalves.ScanSees` | async.c:151-178 | a bottom half that stays scheduled through a scan is not overlooked: if it is idle the poller blocks for ten milliseconds at most, and if it is not the poller does not block |
| `BottomHalves.ShortOnlyForIdle` | async.c:160-166 | the poller blocks with the ten millisecond timeout only when some bottom half has been idle |
| `BottomHalves.PollTakes` | async.c:80-86 | the poller takes a bottom half if and only if it is scheduled and not deleted, and leaves it neither scheduled nor idle; only a qemu_bh_schedule_idle still under way is left of earlier ones |
| `BottomHalves.NoSpuriousWake` | async.c:270-290 | once the notifier is cleared it stays so, in any run, until a thread sets it |
| `BottomHalves.DispatchingMeans` | aio-posix.c:189-254 | in any run, with polls nested to any depth, the dispatching flag is set while callbacks of a poll run, clear outside of all polls, and clear from before the scan until the poller is back from blocking |
| `BottomHalves.IdleLosesWakeup` | async.c:110-117 | a run in which qemu_bh_schedule_idle and then qemu_bh_schedule leave a blocked poller with a scheduled non-idle bottom half and nobody about to notify |
| `AioWalk.AioContext.FindAioHandler` | aio-posix.c:32-43 | the live handler of the descriptor, if there is one |
| `AioWalk.AioContext.SetFdHandler` | aio-posix.c:45-93 | afterwards the descriptor has a live handler if and only if a callback was given, never two, and it has just these callbacks; handlers of other descriptors are as they were, a callback that was to be called still is unless it was taken away; a walk in progress loses no node, and without one a deleted handler is gone |
| `AioWalk.AioContext.RemoveDeletedBhs` | async.c:91-105 | exactly the deleted bottom halves leave the list |
| `AioWalk.AioContext.PollBh` | async.c:71-86 | the callback is called if and only if the bottom half is scheduled and not deleted, when it is still in the list, and progress is reported for a non-idle one |
| `AioWalk.AioContext.ScheduleBh` | async.c:110-134 | the bottom half, unless deleted, is due afterwards and as idle as asked, and no other changes |
| `AioWalk.AioContext.CancelBh` | async.c:139-142 | the bottom half is not due any more, and nothing else that was due is forgotten |
| `AioWalk.AioContext.DeleteBh` | async.c:147-151 | the bottom half is marked deleted and not due any more, and no other changes |
| `AioWalk.AioContext.AioBhPoll` | async.c:63-108 | whatever callbacks do, however deep they nest, the next node is still in the list and every bottom half due on entry has been called, by this walk or one inside it, or was cancelled, or is deleted; one that no script cancels has been called or is deleted; outside any other walk no deleted bottom half is left; when callbacks do nothing, exactly the bottom halves due are called, once each, none is left scheduled, and progress is reported if and only if one of them was not idle |
| `AioWalk.AioContext.CallHandler` | aio-posix.c:150-167 | the read callback is called when its event is reported; so is the write callback, unless the read callback deleted the handler or took the write callback away; nothing is called for a handler with no event it has a callback for, and the events are taken; when callbacks do nothing, progress is reported if and only if one was called that is not the notifier's read callback |
| `AioWalk.AioContext.Visit` | aio-posix.c:146-177 | the events of the node are taken, what followed it in the list is what is left to visit, also when it was removed, and the next node is in the list |
| `AioEvents.ToldWants` | aio-posix.c:234-242 | once events are stored, exactly the callbacks of live handlers are to be called whose descriptors are ready for them |
| `AioWalk.AioContext.AioDispatch` | aio-posix.c:127-181 | whatever callbacks do, the walk ends, keeps every node that outer walks hold, takes every event reported, and every callback due on entry has been called, or its handler is deleted, or it was taken away, or a poll from a callback found its descriptor not ready; every bottom half due on entry has been called or cancelled, or is deleted; when callbacks do nothing, exactly the callbacks due are called, once each, and progress is reported if and only if one of them counts |
| `AioWalk.AioContext.AioPoll` | aio-posix.c:189-254 | every callback of a live handler whose descriptor is ready for it has been called, or a callback deleted the handler, took the callback away, or polled again and found the descriptor not ready; a nested poll keeps every node that outer walks hold, leaves no event behind, and every bottom half due on entry has been called or cancelled, or is deleted; when callbacks do nothing, no other callback is called, and each once |
| `AioWalk.AioContext.RunAction` | aio-posix.c:45-93 | what a callback does has its effect: the handler is set, the bottom half is created, due, not due or deleted, or the poll has reported |
| `AioWalk.AioContext.Use` | aio-posix.c:127-254 | after any use from outside the lists are in order, no walk is left, and the last thing asked for has been done |
| `Tlb.CoverMore` | cputlb.c:236-242 | widening the mask keeps every earlier large page in the region and takes in the new one |
| `Tlb.SameIndex` | cputlb.c:108-108 | two pages have the same index if and only if they are a multiple of 256 pages apart |
| `Tlb.EntryMaps` | cputlb.c:304-331 | what tlb_set_page writes for a page is found for that page, with or without flags, as far as a field is not empty |
| `Tlb.CpuTlb.Widened` | cputlb.c:237-240 | the widening loop ends with the finest mask, no finer than the two given, under which the addresses agree |
| `Tlb.CpuTlb.AddLargePage` | cputlb.c:224-243 | the region remembered holds the new large page and all before it, and is the smallest such |
| `Tlb.CpuTlb.SetPage` | cputlb.c:252-331 | the entry in the way becomes a victim, in the next slot in turn, and the new one is put at its page's index, where every entry of the main table is |
| `Tlb.CpuTlb.Flush` | cputlb.c:51-70 | nothing is left in any table, and no large page is remembered |
| `Tlb.CpuTlb.FlushMain` | cputlb.c:109-113 | looking at one index is enough: no entry of the main table for the page is left, and others stay |
| `Tlb.CpuTlb.FlushVictims` | cputlb.c:115-121 | no victim for the page is left, and others stay |
| `Tlb.CpuTlb.FlushPage` | cputlb.c:84-122 | nothing translates the page any more in any mode and table, nor any page of a large page seen since the last flush that holds the address |
| `DumpLayout.StoredBytes` | dump.c:603-628 | the bytes stored for a run of addresses inside one block are that block's |
| `Dump.PhdrRoundTrip` | dump.c:165-210 | a reader of a program header gets every field from its place in the layout of its class, cut to the width of the field |
| `Dump.OffsetReadable` | dump.c:165-210 | offset and size read from a header are the ones meant if and only if they fit its class |
| `Dump.LoadDescribes` | dump.c:165-210 | the header of a mapping reads as loadable memory at the mapping's virtual and physical address, with its length |
| `Dump.NoteReads` | dump.c:212-230 | the header of the notes reads as a note at the place before the memory, with the size of the notes and no address |
| `Dump.RangeFits` | dump.c:412-424 | the size in the file exceeds neither the mapping nor what is left of the clipped block |
| `Dump.RangeAgrees` | dump.c:369-428 | the file bytes a header points to are the guest's at the mapping's address |
| `Dump.ReaderFinds` | dump.c:430-465 | who goes by the offset and size read from a mapping's header finds the guest's bytes, as far as the mapping or its block goes, when they fit the class; and nothing for a mapping that no block holds |
| `Dump.HeaderReadable` | dump.c:188-203 | for every list of blocks, a header in the file reads back as meant if and only if memory_offset, what the blocks before store, and the place in the block are together below the limit of its class |
| `Dump.CpuGetDumpInfo` | target-i386/arch_dump.c:385-419 | 64-bit headers exactly in long mode or when a block ends above 4 GiB |
| `Dump.CutIntoHeaders` | target-i386/arch_dump.c:404-416 | with the 32-bit headers chosen for ascending blocks sizes always fit, and a header whose offset does not fit points before the memory |
| `Dump.CutHeader` | dump.c:1549-1589 | a dump of memory that ends a page below 4 GiB, with fourteen CPUs or more, through the class choice, dump_init and create_vmcore: 32-bit headers are chosen and the header of the last page points into the notes |
| `Dump.DumpState.GetStartBlock` | dump.c:1399-1425 | the first block inside the filter, or failure exactly when there is none |
| `Dump.DumpState.GetNextBlock` | dump.c:575-600 | the next block inside the filter, or the end exactly when there is none |
| `Dump.DumpState.WriteMemory` | dump.c:343-366 | page by page and then the rest, exactly the bytes asked for are written |
| `Dump.DumpState.DumpIterate` | dump.c:603-628 | the memory written is that of all blocks as far as the filter admits it |
| `Dump.DumpState.GetOffsetRange` | dump.c:369-428 | the loop computes the offset and size specified |
| `Dump.DumpState.Init` | dump.c:1549-1589 | the header count is the number of mappings and the note, within the field limits, and memory_offset is the size of all headers and notes |
| `Dump.DumpState.WriteElfLoads` | dump.c:430-465 | one header is written for each mapping, as many as announced; each reads as loadable memory with the addresses and the length of its mapping, cut to the class |
| `Dump.DumpState.DumpBegin` | dump.c:468-568 | everything before the memory is there in order, the ELF header, the note's header, those of the mappings, the section header if there is one and the notes, and takes exactly memory_offset bytes |
| `Dump.DumpState.CreateVmcore` | dump.c:630-641 | in the file written, the memory starts at memory_offset and the notes end there, where the note's header says; unless there are too many, every mapping's header is at its place and reads as loadable memory with its addresses and length cut to the class, and the bytes found with the offset and size read from it are the guest's when they fit its class; it fails only when a write does |

## Left out

- Copy-on-read, write notifiers, discard, throttling and the write-zeroes path of block.c: a driver call is an atomic read or write that may fail, without partial writes.
- The `zero_beyond_eof == false` case of bdrv_aligned_preadv, used for saved VM state.
- The sort before multiwrite_merge, the flags of a BlockRequest and freeing of vectors.
- The read-only reopening around bdrv_commit and flushing after it.
- IOMMU translation and the length that address_space_translate returns; only region and offset are claimed.
- Memory listeners other than begin, add and commit; freeing of a dispatch structure; TARGET_PAGE_BITS is 12 and the address space 64 bits.
- Coroutine backends; a coroutine is its steps between two yields.
- RDMA hooks, RAM hot-plug during migration, the MEM_SIZE record that opens a stream, auto-converge, rate limits and statistics.
- RamSave.RamSaver.SavePage: a page queued by qemu_put_buffer_async is taken with the contents it has when it is queued; the source may send later contents.
- RamMigration.GuestWrite: writing a page and logging it is one step.
- BottomHalves.StepKeeps: aio_bh_poll reads `idle` for its result where it clears it, in one step; the value read plays no part in the handshake.
- BottomHalves.NoLostWakeup: memory fences are not modelled, steps interleave one at a time; timers and other descriptors may end a poll at any time; deleted bottom halves stay in the list there.
- AioWalk.AioContext.AioPoll: leaves out the wait itself, timers and the GLib source callbacks, and aio_notify, which `BottomHalves` models; file descriptor events are reduced to readable and writable.
- AioWalk.AioContext.RunScript: what callbacks do is a finite tape, one entry for each call.
- The victim swap of the softmmu load and store templates, dirty tracking in TLB entries, addends and I/O mappings: only the comparators are modelled.
- Tlb.CpuTlb.SetPage: takes the entry's comparators as given by the protection and the memory region, with the page address aligned as callers pass it.
- The contents of the ELF header, of the notes and of the section header: only their sizes and places are claimed. The note size of the i386 target is that of its 32-bit notes.
- Dump.DumpState.Init: begin + length and file offsets are not bounded to 64 bits; the header class is given, as the target chooses it.
- Kdump-compressed dumps, guest page table walks and the filter on the mapping list.
- The tracing plugin, monitors, sockets and device code: thin or outside these parts.
