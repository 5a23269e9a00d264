# NANOX-OS in Dafny

A model of the C core of NANOX-OS, with proofs. It covers the crash-safe object store and the write cache
below it, the TCP endpoint, the kernel's page tables, address spaces, user copies, capabilities, message
queues and scheduler, and the arithmetic and codecs: Montgomery exponentiation, Poly1305, the incremental
HTTP response parser and the JSON string writer and reader.

`dafny verify dfyconfig.toml` checks everything. Code that changes things step by step is a class or a
method with loops, and its contract ties the new state to a specification function, an invariant or an
independent definition; about those the lemmas state what the system promises.

| area | files |
|---|---|
| store | StoreFormat, StoreRecovery, StoreInvariant, StoreTransaction, NxStore, StoreGuarantees, StoreHistory, StoreCheck, StoreCrowd |
| store runs | StoreLog, StoreSpace, StoreClient, StoreAgreement, StoreRuns, StoreRetention |
| disk | VolatileDisk, BlkCache, BlkRefines |
| TCP | SeqNum, TcpSender, TcpReceiver, TcpRing, TcpSteps, TcpConn, TcpLink, TcpRepair |
| memory | PhysMem, PageTree, PageRights, PageUpdate, PageTeardown, PageTables, LargePages, AddressSpace, Spaces, SpaceLife, UserAccess, VmoMapping |
| capabilities, scheduler | Handles, References, Capabilities, CapabilitySteps, CapabilityRuns, CapabilityQueues, IpcQueue, Scheduler, SchedulerRuns |
| arithmetic | Congruence, Bignum, Montgomery, ModArith, PolyArith, PolyBytes, Poly1305 |
| codecs | HttpSteps, HttpFeed, HttpMessages, HttpChunked, HttpBodies, Utf8, JsonText, JsonRoundTrip, JsonStrings, JsonEscapes |
| shared | Common |

A predicate that says "behind a key" is a conjunction of many quantifiers, stated once more behind a
trigger of its own so that a proof unfolds it only where it asks for it. It means what it would mean
without the key.

## Findings

Places where the code does not do what its comments or a reader would expect. Each has a proof of exactly
when it does.

- **A version number that wraps makes a committed store unmountable.** `st_put` counts versions of a name
  in 32 bits and `root_sane` refuses version 0. `StoreTransaction.NewRootSane`: the root a commit writes is
  sane if and only if no version of the transaction has wrapped to 0. `NxStore.Store.SavedIsMountable`: what
  a successful commit wrote can be mounted if and only if that holds. It takes 2^32 - 1 puts of one name,
  and `StoreRuns.Run` stops exactly there.
- **Remounting over a superblock that was never flushed can lose retained history.** If a commit reports an
  unknown outcome, a later mount may accept its superblock from the cache, reuse the blocks of generations
  which that commit dropped, and then a crash may bring the older superblock back.
  `StoreHistory.HistorySurvivesIff` gives the exact condition, `StoreHistory.UnflushedRemountLosesHistory` a
  store made of a format and two empty commits for which it fails. The newest objects are never lost
  (`StoreGuarantees.CrashRecovers`).
- **The consistency check reports sound stores as corrupt.** `st_check` has room for 13 * 49 = 637 extents,
  as many as the objects of thirteen generations, but enters the thirteen root blocks in the same table.
  `StoreCheck.Check` is that loop; `StoreCheck.SoundPassesIff`: a sound store passes if and only if its
  distinct root blocks and extents are at most 637; `StoreCheck.TwelvePass`: with twelve generations it
  always does. `StoreCrowd.SoundStoreFails` builds one that does not, by a format and thirteen commits that
  each put all 49 objects anew, four of them pinned.
- **A failed eviction loses a write that was acknowledged.** `cache_evict_oldest` forgets the entry even if
  the device refused it. `BlkCache.FailedEvictionLoses`: reads stay the same if and only if a newer cached
  write covers that block or the device already held the data. Without a failed request the cache is the
  disk the store assumes (`BlkRefines`).
- **The receive window test refuses a segment that sticks out on both sides.** The comment speaks of
  overlap. `TcpReceiver.WindowTest` says which overlapping segments are accepted, and
  `TcpReceiver.OverlapRefused` shows one that is not.
- **A fast retransmission may carry bytes that were never sent, and their acknowledgement is then ignored.**
  `resend_first` takes as much of the buffer as a segment holds, past what was sent and past the peer's window;
  `process_ack` refuses what is beyond `snd_max`. `TcpRepair.ResendAckedIff`: the acknowledgement of all of it
  counts if and only if no more than that had been sent. `TcpRepair.ResendAhead` is a sender for which it does
  not; the bytes then go out once more.
- **`tcp_read` with a zero capacity returns 0 although data is buffered**, so that 0 is a sign of the end
  only if the capacity was positive (`TcpConn.Conn.Read`).
- **A copy to user memory need not read back.** If one physical page is mapped at two addresses of the
  range, later bytes overwrite earlier ones. `UserAccess.ReadsBackIff`: it reads back if and only if the
  bytes meant for one address agree. `UserAccess.TwoValues` is a range of 4097 bytes, one frame mapped at
  both its pages, that passes every check and does not. Physical page 0 never serves, since address 0 stands
  for failure.
- **The parser reports no bytes for a piece it refuses.** The total a caller adds up for a refused response
  is that of the pieces before, less than what was taken; for any other it is independent of the cutting
  (`HttpMessages.FeedPieces`). `HttpMessages.CountTwoLines`: two line ends count 0 in one piece and 1 in two.
- **JSON strings come back unchanged if and only if they are valid UTF-8 without NUL**
  (`JsonRoundTrip.RoundTrip`); a NUL makes the reader refuse what the writer wrote.
- **Mapping a 2 MiB page fails where only an empty page table is in the way.** `PageTables.Tables.Map`: for
  acceptable arguments it reports EExists if and only if a translation is there already or, for a large page,
  a page table is there, empty or not. `LargePages.MapUnmapMap`: a block that would take a large page does
  not any more after a small page was mapped in it and unmapped. `LargePages.EmptyTableTakes` is the smallest
  such memory.
- **A second task that waits for the same end leaves the first one blocked for ever.** `nx_task_wait_reap`
  notes down one waiter and the next one takes its place. `SchedulerRuns.WokenIff`: when a task ends, whoever
  waits for it can run if and only if it is the one noted down. `SchedulerRuns.SecondWaiter` and
  `SchedulerRuns.ForgottenForEver`: the other one never runs again. `SchedulerRuns.TwoWaiters` shows it at
  five tasks.

## Model

| member | source | states |
|---|---|---|
| `StoreRuns.Run` | lib/store.c:447-810 | any script of transactions, reads, prunes, pins, remounts and crashes after a format: every command is answered (unless a name has been put 2^32 - 1 times), and each answer is the one that the commands and answers before it leave possible: which objects and pins there are, which generations are retained (by `retain`, prunes and pins) and so can be read or pinned, and no refusal for space unless there is none among the blocks that the retained generations and the transaction can have taken; a device failure is reported exactly when there was one; each restart finds a generation between the last one confirmed and the last one attempted, and each read of a generation that is not lost gives what was committed to it |
| `StoreRuns.Serve` | lib/store.c:516-810 | the same for one session, from any client that agrees with the store |
| `StoreClient.NextSame` | lib/store.c:706-725 | the generation that a commit writes retains what the client expects: the first `retain` - 1 of its predecessor and those before it, only its predecessor after a prune, and the pins |
| `StoreRetention.CommitRetains` | lib/store.c:708-718 | in any run, generation g that a commit wrote lists g - 1, g - 2, ... down: one of them if a prune was asked for since the transaction began, else one more than its predecessor lists, but at most `retain` - 1 |
| `StoreRetention.UnprunedRetains` | lib/store.c:708-718 | in any run without prunes, each generation g lists exactly g - 1 down to g - `retain` + 1, or to 1 |
| `StoreRetention.UnprunedReads` | lib/store.c:615-641 | and a read of a generation is answered with Pruned exactly if it is not among the `retain` newest and not pinned |
| `StoreSpace.UsedSize` | lib/store.c:274-293 | the blocks in use are no more than the superblocks and, for the current and each retained generation, a root and the blocks of the objects committed to it |
| `StoreClient.OneBlockFits` | lib/store.c:305-325 | a put of up to 4096 bytes and a commit are not refused for space while the store is larger, by the block and the reserve, than what the client expects to be taken |
| `StoreGuarantees.CrashRecovers` | lib/store.c:447-507 | after a crash that keeps, drops or tears any cached writes, a mount finds a generation between the last durable one and the one being committed, with exactly the objects committed to it |
| `StoreGuarantees.FallbackFindsPrevious` | lib/store.c:387-445 | if the current superblock cannot be read or is torn, a mount finds the generation before it, complete |
| `StoreRecovery.FallbackIff` | lib/store.c:473-506 | a mount reports a fallback if and only if the newest candidate was not the one it accepted, and names that one with its generation and state |
| `StoreRecovery.MountAccepts` | lib/store.c:387-445 | whatever is on the device: the root that a mount accepts has the generation, store and checksum noted down, its objects pass their checksums and share no block, and no newer slot can be mounted |
| `StoreRecovery.SaneApart` | lib/store.c:179-221 | the objects of a root that passes have names and blocks of their own, and the blocks are on the device behind the superblocks |
| `StoreRecovery.SaneHistory` | lib/store.c:179-221 | its retained generations are older than it and differ from one another |
| `StoreRecovery.DamagedCount` | lib/store.c:271-293 | the damage reported is the number of retained generations whose root does not verify |
| `StoreCheck.SoundReport` | lib/store.c:473-506 | on every state the invariant allows, with nothing lost, a mount reports the newest generation, as the highest seen, and no damage |
| `StoreCheck.Check` | lib/store.c:853-923 | Ok exactly if the store is mounted, superblock, roots and extents verify, there are at most 637 distinct root blocks and extents, no two overlap, and the blocks in use are exactly theirs; of a sound store exactly if there are at most 637 |
| `StoreCheck.AddExtent` | lib/store.c:833-851 | the table with the extent, which is refused exactly if it is new and the table is full |
| `StoreCheck.SoundPassesIff` | lib/store.c:853-923 | on every state the invariant allows, with nothing lost, the check passes if and only if the table takes all distinct root blocks and extents |
| `StoreCheck.TwelvePass` | lib/include/nanox/store.h:177 | it passes whenever at most twelve generations are retained |
| `StoreCrowd.SoundStoreFails` | lib/include/nanox/store.h:177 | on every device of 700 blocks or more there is a sound store, made by a format and thirteen commits, that does not pass |
| `StoreHistory.HistorySurvivesIff` | lib/store.c:274-293 | with a superblock not yet flushed, whatever is written until the next commit reaches a superblock and whatever a crash then keeps, the history of the generation mounted afterwards reads back if and only if that superblock is on the medium or every block of the older generation's history is in use under the newer one |
| `StoreHistory.RetainingAllCovers` | lib/store.c:710-725 | a commit that retains all that the generation before it retained meets that condition |
| `StoreHistory.UnflushedRemountLosesHistory` | lib/store.c:693-768 | two commits to an empty store that do not |
| `StoreTransaction.NewRootSane` | lib/store.c:693-742 | the root of a commit passes the mount's checks if and only if no version has wrapped |
| `StoreTransaction.ReadyToPublish` | lib/store.c:710-746 | once the root is on the medium, everything the new generation retains is there and apart, so its superblock may be written |
| `StoreTransaction.WrappedRootRejected` | lib/store.c:179-221 | a root with a wrapped version is never mounted |
| `StoreInvariant.MountFindsTop` | lib/store.c:447-507 | on every disk the invariant allows, a mount takes the newest generation reads show |
| `StoreInvariant.SafeWriteFree` | lib/store.c:305-325 | writing to blocks no retained generation uses keeps the invariant, whatever becomes of the write |
| `StoreInvariant.SafeCrashed` | lib/store.c:4-20 | the invariant survives every crash |
| `StoreInvariant.SafeRetained` | lib/store.c:616-635 | every retained generation loads and holds what was committed to it |
| `StoreFormat.PutReadsBack` | lib/store.c:550-598 | data cut into blocks passes its checksum and joins to the same bytes |
| `NxStore.FindIndex` | lib/store.c:536-542 | the index of the object with a name, or none has it |
| `NxStore.Store.Alloc` | lib/store.c:305-325 | the first run of free blocks that is long enough; none exactly if there is none or the reserve would be touched |
| `NxStore.Store.VerifyExtent` | lib/store.c:242-259 | reads an extent block by block and accepts it exactly if its checksum holds |
| `NxStore.Store.RecomputeUsed` | lib/store.c:274-293 | the used set is the superblocks and the blocks of the current and of all retained generations that load; returns how many of them do not |
| `NxStore.Store.Format` | lib/store.c:346-382 | on success generation 1 without objects is the only thing a mount can find; refused exactly for a bad size or retention |
| `NxStore.Store.Mount` | lib/store.c:447-507 | succeeds exactly if some slot is mountable, and loads the newest such; reports the state and generation of each slot, what was mounted, the highest generation seen, a rejected newer one, and the damaged history |
| `NxStore.Store.Begin` | lib/store.c:516-526 | a transaction that holds what the current generation holds |
| `NxStore.Store.Abort` | lib/store.c:528-534 | the transaction is gone and nothing else changes |
| `NxStore.Store.Put` | lib/store.c:550-598 | the exact refusal, else the transaction holds the data under the name; no block in use is touched |
| `NxStore.Store.Del` | lib/store.c:600-613 | removes exactly that name, or says that it is not there |
| `NxStore.Store.AddPin` | lib/store.c:643-663 | pins a retained generation; every refusal with its exact condition |
| `NxStore.Store.Unpin` | lib/store.c:665-679 | removes the pin of that name |
| `NxStore.Store.Commit` | lib/store.c:693-768 | Ok makes the transaction's objects the next generation for good, an unknown outcome leaves both possible, any other refusal changes nothing; no block of a retained generation and no current superblock is written |
| `NxStore.Store.SavedIsMountable` | lib/store.c:179-221 | after a successful commit a mount accepts it if and only if no version has wrapped |
| `NxStore.Store.Read` | lib/store.c:787-810 | the bytes last put under the name in the transactions leading to that generation, or the exact refusal |
| `VolatileDisk.Device.Write` | kernel/dev/blk.h:9-15 | the written range reads back and everything else is untouched; after an error each block of the range is old, new or torn |
| `VolatileDisk.Device.PowerCycle` | kernel/dev/blk.h:9-15 | each block holds the medium's content, one of its cached writes, or something torn |
| `BlkCache.BlkDev.Read` | kernel/dev/blk.c:147-162 | the last write to every block, cached or not |
| `BlkCache.BlkDev.Write` | kernel/dev/blk.c:164-183 | the blocks join the cache in order, the oldest going out for want of room; an error at block i leaves those before it in the cache and loses the oldest entry of a full cache |
| `BlkCache.BlkDev.EvictOldest` | kernel/dev/blk.c:91-99 | the oldest entry leaves and its page is free again |
| `BlkCache.BlkDev.Flush` | kernel/dev/blk.c:185-200 | on success exactly what reads showed is on the device and every page is free; on failure reads are the same |
| `BlkCache.BlkDev.Crash` | kernel/dev/blk.c:103-127 | what each crash policy leaves on the device |
| `BlkCache.PushAllWrote` | kernel/dev/blk.c:164-183 | a write with its evictions is one write of the disk model |
| `BlkCache.CrashPolicyAllowed` | kernel/dev/blk.c:103-127 | every crash policy leaves a disk that the crash model allows, if checksums detect torn blocks |
| `BlkCache.FailedEvictionLoses` | kernel/dev/blk.c:91-99 | a failed eviction changes no read if and only if a newer write covers the block or the device held the data |
| `BlkRefines.ReadRefines` | kernel/dev/blk.c:147-162 | what the cache reads is what the disk model shows |
| `BlkRefines.WriteRefines` | kernel/dev/blk.c:164-183 | a write that succeeds is one the disk model allows |
| `BlkRefines.DirectRefines` | kernel/dev/blk.c:164-183 | so is one without a cache |
| `BlkRefines.FlushRefines` | kernel/dev/blk.c:185-200 | so is a flush that succeeds |
| `BlkRefines.FailedFlushRefines` | kernel/dev/blk.c:185-200 | and one that fails half way |
| `BlkRefines.CrashRefines` | kernel/dev/blk.c:103-127 | and a crash point, for every policy |
| `SeqNum.Compare` | lib/net/inet.h:47-54 | the signed 32-bit comparisons order two sequence numbers as their stream positions, if these are within 2^31 |
| `TcpLink.Link.Delivered` | lib/net/tcp.c:286-605 | over a network that loses, repeats and reorders: what one end has read and buffered is a prefix of what the other wrote, the whole of it once the FIN is in, and no byte left the send buffer before it was there |
| `TcpLink.Link.CloseComplete` | lib/net/tcp.c:279-284 | an end in TIME_WAIT has everything and knows that the other end has everything |
| `TcpLink.Link.Deliver` | lib/net/tcp.c:417-605 | delivering any segment ever sent, within the segment-lifetime bound of section 3.4 of RFC 9293, keeps that, and does to the end it reaches exactly what `TcpConn.Conn.Input` says |
| `TcpLink.Link.Read` | lib/net/tcp.c:769-797 | reads return the peer's stream in order; 0 for a positive capacity only after all of it and the FIN |
| `TcpRepair.Repair` | lib/net/tcp.c:607-648 | one timeout and one round trip repair a loss: if the segment that the timer sends arrives, and the answer to it, the sender knows of all that the receiver has, which is more than before, provided that the receiver has room and nothing reached it that does not count as sent; only a receiver that waits for no more than the end of its own stream may stay silent, and it has everything |
| `TcpRepair.ResendAckedIff` | lib/net/tcp.c:205-227 | the acknowledgement of all that a fast retransmission carried counts if and only if no more than that had been sent before |
| `TcpRepair.ResendAhead` | lib/net/tcp.c:205-227 | a sender that has sent 100 of 1100 bytes, for which it does not |
| `TcpSteps.HandledMeans` | lib/net/tcp.c:417-605 | what a segment does to a live connection: an acknowledgement of something new is taken, inside the window or outside, and with it the peer's window; the text of an acceptable segment is received as far as there is room, or kept beyond a gap, and its FIN counts; what carries data is answered with the position reached and the window; only a SYN in the window or the acknowledgement of the last FIN ends the connection |
| `TcpSteps.NoAnswer` | lib/net/tcp.c:417-605 | an empty segment that acknowledges all there is gets no answer, so two ends do not acknowledge each other for ever |
| `TcpSender.Output` | lib/net/tcp.c:106-189 | exactly what is sent: full segments, one after the other, while window and data last, each with the stream bytes at its number; a probe of one byte for a closed window; the FIN at the end; a bare acknowledgement if one is owed and nothing else went; and the state, positions and timers afterwards |
| `TcpSender.WithinWindow` | lib/net/tcp.c:106-189 | no segment is longer than a full one or ends beyond the peer's window or the limit of segments in flight, but for the one byte that probes a closed window |
| `TcpSender.ProcessAck` | lib/net/tcp.c:232-277 | exactly the new sender: an acknowledgement of new data moves it there, releases exactly those bytes and restarts or stops the timer, the third repetition of one sends the first segment again, any other leaves its position alone |
| `TcpSender.ResendFirst` | lib/net/tcp.c:207-227 | one segment with the bytes from the first unacknowledged one on, as many as a segment takes, or the FIN, and the timer is set |
| `TcpSender.Timeout` | lib/net/tcp.c:607-652 | fails exactly after the allowed retries, else the timeout doubles up to its limit and it sends again from the first unacknowledged position |
| `TcpReceiver.WindowTest` | lib/net/tcp.c:503-514 | exactly which segments the window test accepts |
| `TcpReceiver.OverlapRefused` | lib/net/tcp.c:503-514 | an overlapping segment that it does not |
| `TcpReceiver.Store` | lib/net/tcp.c:296-312 | a segment beyond a gap is kept as what it is, bytes of the peer's stream, unless it is too long, its number is there already or no slot is free |
| `TcpReceiver.Merge` | lib/net/tcp.c:315-338 | what has become contiguous is appended until nothing is or the buffer is full |
| `TcpReceiver.TakeSegment` | lib/net/tcp.c:541-605 | the text of a segment extends the received prefix exactly as far as it and what is kept are contiguous and the buffer reaches, and a FIN counts exactly at the end of it |
| `TcpReceiver.WindowEdge` | lib/net/tcp.c:30-34 | the right edge of the window offered is a buffer's length behind what the application has read, so it never draws back |
| `TcpRing.Ring.Append` | lib/net/tcp.c:286-293 | the ring buffer holds the old bytes and then the new ones |
| `TcpRing.Ring.Take` | lib/net/tcp.c:769-797 | the ring buffer gives up its first bytes in order |
| `TcpConn.Conn.Input` | lib/net/tcp.c:417-605 | a segment in any state keeps the connection's invariant, produces only segments that are true, and does exactly what the step relation says: new state, both halves, error code and the segments sent |
| `TcpConn.Conn.Tick` | lib/net/tcp.c:607-652 | so do the timers, of retransmission and TIME_WAIT |
| `TcpConn.Conn.Write` | lib/net/tcp.c:741-767 | appends exactly as much to the stream as the buffer takes, and sends what may be sent |
| `TcpConn.Conn.Shutdown` | lib/net/tcp.c:799-806 | the stream is closed for writing, and the FIN follows the last byte |
| `TcpConn.Conn.Read` | lib/net/tcp.c:769-797 | takes the oldest buffered bytes; every negative result and every 0 with its exact condition |
| `TcpConn.Conn.Connect` | lib/net/tcp.c:664-705 | a SYN is on its way and the timer runs |
| `PhysMem.Pmm.Alloc` | kernel/mm/pmm.c:118-132 | the next free page from the hint on, going round; none exactly if no page is free |
| `PhysMem.Pmm.Release` | kernel/mm/pmm.c:134-146 | the page is free again, or it was not allocated |
| `PhysMem.Pmm.AddPages` | kernel/mm/pmm.c:55-73 | exactly the pages of the range join |
| `PageTables.Tables.Map` | kernel/mm/pt.c:63-86 | the status is a function of the tables before the call and the number of free pages; success changes the translation of exactly that page, in every root that shares it; failure changes none; the flag for user access is on every level above a page that has it and nowhere else in a space's own part |
| `PageTables.Tables.MapRange` | kernel/mm/pt.c:88-107 | success maps exactly the range with the given addresses and flags; an error leaves exactly a prefix mapped and says why, for both page sizes |
| `PageTables.Tables.Unmap` | kernel/mm/pt.c:129-139 | removes exactly the page that translates the address, in every root that shares it |
| `LargePages.MapUnmapMap` | kernel/mm/pt.c:63-86 | a block that could take a large page gives EExists after a small page was mapped in it and unmapped, although nothing in it is translated |
| `LargePages.EmptyTableTakes` | kernel/mm/pt.c:40-61 | four tables, the last one empty, for which that is so |
| `PageTables.Tables.Translate` | kernel/mm/pt.c:141-152 | what a walk of the tables finds |
| `PageTables.Tables.WalkCreate` | kernel/mm/pt.c:40-61 | new tables change no translation; the tables on the way are there with the access asked for |
| `PageRights.AllowedIff` | kernel/mm/pt.c:40-61 | what the processor permits at an address, the rights of all levels together, is exactly what the leaf says |
| `PageRights.HangNested` | kernel/mm/pt.c:40-61 | a new table below entries that permit as much keeps that so |
| `PageTables.Tables.DestroyTable` | kernel/mm/pt.c:154-194 | each table below is freed once and each leaf reported once |
| `PageTables.SamePageIff` | kernel/mm/pt.c:5-14 | for canonical addresses, the same entry serves exactly the addresses of one aligned block |
| `AddressSpace.RootWalk` | kernel/mm/vmm.c:238-249 | a new root translates the kernel's part as the kernel does, and nothing else |
| `Spaces.Create` | kernel/mm/vmm.c:238-249 | a new space: one page taken, no other translation changed |
| `Spaces.MapNewPage` | kernel/task.c:327-340 | a fresh page at the address, marked as the space's own, or no translation changes and no page is lost; the status is a function of the tables before, the page and the number of free pages |
| `Spaces.DestroySlots` | kernel/mm/pt.c:154-194 | the user half is gone, every table freed once, every leaf reported once |
| `Spaces.FreeOwned` | kernel/task.c:320-325 | of the reported pages exactly the space's own are freed, each once |
| `Spaces.Destroy` | kernel/mm/vmm.c:251-257 | tables, root and own pages are free again; every leaf was reported once; other spaces translate as before |
| `SpaceLife.MapObject` | kernel/syscall.c:126-174 | all pages of a memory object are mapped in order, or no translation changes; every refusal with its exact condition |
| `SpaceLife.SharedByte` | kernel/syscall.c:126-174 | afterwards each byte of the i-th page translates to that byte of the i-th frame, for the user, not executable, writable exactly if asked for |
| `SpaceLife.Life` | kernel/mm/vmm.c:238-257 | a space is created exactly if a page is free; then each request for own or shared pages has its exact outcome and effect, at every moment of the run; at every moment leaves decide about access (`SpaceLife.RightsOfLeaf`); destruction reports every leaf there is at the end, the own pages once each; and free pages, tables, table count and all other translations are as before the creation |
| `SpaceLife.RightsOfLeaf` | kernel/mm/pt.c:40-86 | at every such moment, in every space, the processor permits exactly what the leaf says |
| `UserAccess.UserMemory.Check` | kernel/mm/uaccess.c:21-33 | passes exactly if every page of the range is user-accessible, and writable for a write |
| `UserAccess.RangeOkIff` | kernel/mm/uaccess.c:5-8 | a range passes exactly if all its bytes are at addresses of the slots that each space has for itself |
| `UserAccess.UserMemory.Copy` | kernel/mm/uaccess.c:35-58 | refused and nothing changed, or exactly the bytes the page tables give for the range are transferred |
| `UserAccess.UserByteIff` | kernel/mm/uaccess.c:10-19 | the kernel accesses a user byte exactly where the processor would let the user's own code read or write it |
| `UserAccess.PageByte` | kernel/mm/uaccess.c:11-19 | the address of a byte is that of its page plus the offset, whatever the page size |
| `UserAccess.ReadsBackIff` | kernel/mm/uaccess.c:35-58 | what was copied out reads back if and only if bytes for one physical address agree |
| `UserAccess.TwoValues` | kernel/mm/uaccess.c:35-58 | a range whose two pages are one frame: every check passes, and two values for one byte do not read back |
| `Handles.ResolveIff` | kernel/obj/handle.c:51-60 | a value resolves to a slot if and only if the slot is taken and the value was made for its generation |
| `Handles.StaleIff` | kernel/obj/handle.c:16-24 | a value whose slot has been closed or moved since resolves if and only if the slot is taken and the generations have come round |
| `References.MappedStays` | kernel/obj/objects.c:15-22 | no page of a memory object that is mapped somewhere is free |
| `References.InstallKeeps` | kernel/obj/handle.c:35-49 | a handle more: counts, rights and ties stay right |
| `References.PushKeeps` | kernel/syscall.c:176-235 | a reference that moves into a message stays counted |
| `References.VmoGoneKeeps` | kernel/obj/objects.c:15-22 | the last reference frees the pages, and nobody else had them |
| `Capabilities.Kernel.Install` | kernel/obj/handle.c:35-49 | the first free slot gets the object with exactly these rights, and its value is new |
| `Capabilities.Kernel.Close` | kernel/obj/handle.c:79-90 | the value stops resolving and its reference is dropped |
| `Capabilities.Kernel.Dup` | kernel/obj/handle.c:92-102 | another handle for what the first one names, its rights among those of the first; every refusal exactly |
| `Capabilities.Kernel.Take` | kernel/obj/handle.c:104-117 | the value stops resolving and its reference is the caller's |
| `Capabilities.Kernel.Unref` | kernel/obj/handle.c:8-14 | the object goes exactly with its last reference; tasks that live keep their tables and mappings |
| `Capabilities.Kernel.Drain` | kernel/obj/ipc.c:33-41 | the queue is empty and the references in it are dropped |
| `Capabilities.Kernel.CreateVmo` | kernel/syscall.c:111-124 | a new object of distinct free pages with one handle, or everything is as before |
| `Capabilities.Kernel.MapVmo` | kernel/syscall.c:128-174 | the mapping holds a reference; only with the rights for it |
| `VmoMapping.Map` | kernel/syscall.c:128-174 | the whole call over both: every refusal in its order with its exact condition and without effect; on success all pages of the object are at the address in order, not executable, writable only through a handle with that right, and the mapping holds a reference |
| `Capabilities.Kernel.Send` | kernel/syscall.c:176-235 | only through a handle with the right to send: the message is the last of the queue, a handle that went along is gone, and the rights sent are among those it had; every refusal exactly and without effect |
| `Capabilities.Kernel.Receive` | kernel/syscall.c:237-277 | only through a handle with the right to receive: the oldest message, its object now a handle with the rights sent; until all checks pass it stays |
| `Capabilities.Kernel.OpenTask` | kernel/syscall.c:294-309 | a task handle for the holder of the sovereign right only |
| `Capabilities.Kernel.Reap` | kernel/task.c:538-555 | the task holds nothing any more |
| `CapabilityRuns.Serve` | kernel/syscall.c:702-735 | one call of any kind: its code, its answer and the whole new state, as the specification of that call says |
| `CapabilityRuns.RightsBound` | kernel/obj/handle.c:92-117 | no handle has a right that its kind of object does not have |
| `CapabilityRuns.Run` | kernel/syscall.c:111-309 | any calls: the answers, and the states of the kernel one call after the other, each of them sound |
| `CapabilityRuns.Always` | kernel/obj/handle.c:8-117 | in each of them: each count is the number of handles, messages, mappings and kernel references, and no page of a mapped object is free |
| `CapabilitySteps.StepGains` | kernel/obj/handle.c:92-117 | no call brings a right to an object into being, in handles and messages together, but those that the kernel gives out: to who makes a memory object or, with the sovereign right, makes or opens a task, and at the start |
| `CapabilityRuns.RightsOverRun` | kernel/syscall.c:111-309 | over any run: a right that some handle or message has, and none had before, was given out by the kernel in between |
| `CapabilityRuns.StaleOverRun` | kernel/obj/handle.c:51-60 | over any run: a value that has been closed or moved resolves again, while its task lives, if and only if its slot is taken and has been closed or moved a multiple of 2^23 - 1 times since, so for that many calls never |
| `CapabilityQueues.Authorized` | kernel/obj/handle.c:62-77 | whatever call is carried out, each handle value it names is a slot with the right that call needs, to send, receive, duplicate, transfer, map, write, or as sovereign; and where a call is refused access, one is missing |
| `CapabilityQueues.MessagesOverRun` | kernel/syscall.c:176-277 | over any run: the messages received from an endpoint are, in order and each once, those that were in its queue and then those that were sent to it, up to those still there |
| `IpcQueue.Queue.Push` | kernel/obj/ipc.c:9-18 | the ring holds the old messages and then the new one; refused exactly when full |
| `IpcQueue.Queue.Peek` | kernel/obj/ipc.c:20-23 | the oldest message, if any |
| `IpcQueue.Queue.Pop` | kernel/obj/ipc.c:25-31 | all but the oldest |
| `IpcQueue.Queue.Drain` | kernel/obj/ipc.c:33-41 | every message once, in order |
| `Scheduler.Sched.PickNext` | kernel/task.c:147-158 | the ready task nearest ahead of the current one; the current one or the idle thread only if none is ready |
| `Scheduler.Sched.Schedule` | kernel/task.c:160-177 | that task runs, with a full slice, and nobody else |
| `Scheduler.Sched.Tick` | kernel/task.c:194-219 | due sleepers wake; the current task gives way to the one that is due exactly if it may be preempted, its slice is used up and another is ready |
| `Scheduler.Sched.Send` | kernel/syscall.c:224-233 | whoever waits for a message is ready afterwards |
| `Scheduler.Sched.Receive` | kernel/syscall.c:237-250 | takes a message, or becomes the endpoint's only waiter, or is told that there is one |
| `Scheduler.Sched.EndTask` | kernel/task.c:458-476 | the task waits for nothing any more, and whoever will reap it can run |
| `Scheduler.Sched.Sleep` | kernel/task.c:236-240 | the task stops until its time |
| `Scheduler.Sched.Yield` | kernel/task.c:221-227 | the task gives way to the one that is due |
| `Scheduler.Sched.Kill` | kernel/task.c:487-501 | the task is dead, it is nobody's waiter, and its own waiter or the reaper is awake; nothing for a task that had ended |
| `Scheduler.Sched.Join` | kernel/task.c:557-570 | waits as the task's registered waiter, or finds it ended and reaps it |
| `Scheduler.Sched.ReapAll` | kernel/task.c:590-601 | afterwards nothing is left to reap |
| `SchedulerRuns.Run` | kernel/task.c:147-601 | any run: the events are done one after the other, each with its exact effect on tasks, endpoints and who runs, and every moment is safe |
| `SchedulerRuns.Between` | kernel/task.c:147-601 | at every moment exactly the current task runs; a waiter of an endpoint is blocked on it and the queue is empty, and whoever is blocked on an endpoint is its waiter; of a task that has ended the waiter, or else the reaper, can run |
| `SchedulerRuns.ChosenBySwitches` | kernel/task.c:147-177 | over any stretch of any run with 31 switches, a task that stays ready or running is chosen |
| `SchedulerRuns.ChosenByTicks` | kernel/task.c:194-219 | with preemption, so it is over any stretch with 62 ticks that find user code or the idle thread running |
| `SchedulerRuns.WakesOnTime` | kernel/task.c:194-240 | over any run, a task that sleeps for n ticks and is not killed is blocked until then, though for one tick at least, and can run from that very tick on |
| `SchedulerRuns.WokenIff` | kernel/task.c:458-476 | when a task ends, whoever waits for it can run if and only if it is the one noted down |
| `SchedulerRuns.SecondWaiter` | kernel/task.c:557-563 | the waiter before is no longer noted down |
| `SchedulerRuns.ForgottenForEver` | kernel/task.c:557-563 | and stays blocked over every run |
| `SchedulerRuns.TwoWaiters` | kernel/task.c:557-563 | five tasks, two of which wait for a third |
| `Bignum.Cmp` | lib/crypto/bn.c:26-32 | orders the numbers |
| `Bignum.AddN` | lib/crypto/bn.c:61-70 | the sum and its carry |
| `Bignum.SubN` | lib/crypto/bn.c:50-59 | the difference and its borrow |
| `Bignum.FromBe` | lib/crypto/bn.c:5-18 | reads a number of any length exactly if it fits |
| `Bignum.ToBe` | lib/crypto/bn.c:20-24 | writes its low bytes |
| `ModArith.Bits` | lib/crypto/bn.c:42-48 | the number of bits |
| `Montgomery.NegInverse` | lib/crypto/bn.c:83-108 | five Newton steps give the negative inverse modulo 2^32 |
| `Montgomery.Double` | lib/crypto/bn.c:73-81 | twice the number modulo m |
| `Montgomery.MontMul` | lib/crypto/bn.c:110-139 | the product divided by 2^(32n) modulo m, below m after one subtraction |
| `ModArith.Modulus.Init` | lib/crypto/bn.c:83-108 | accepts exactly the odd moduli from 3 up to the size limit |
| `ModArith.Modulus.Exp` | lib/crypto/bn.c:167-180 | base^exp mod m for every exponent and every base below m |
| `ModArith.Modulus.Add` | lib/crypto/bn.c:154-159 | the sum modulo m |
| `ModArith.Modulus.Sub` | lib/crypto/bn.c:161-165 | the difference modulo m |
| `PolyArith.Multiply` | lib/crypto/chacha.c:112-121 | the columns are the product modulo 2^130 - 5, and no 64-bit sum overflows |
| `PolyArith.Carry` | lib/crypto/chacha.c:122-139 | the limbs settle without changing the value modulo the prime |
| `PolyBytes.LoadValue` | lib/crypto/chacha.c:107-111 | the five limbs are the number the sixteen bytes denote |
| `PolyBytes.ClampValue` | lib/crypto/chacha.c:88-100 | the limbs of r are those of the clamped key |
| `Poly1305.Block` | lib/crypto/chacha.c:102-145 | (h + block) * r modulo 2^130 - 5 |
| `Poly1305.Reduce` | lib/crypto/chacha.c:198-223 | the unique remainder below the prime |
| `Poly1305.Poly.Update` | lib/crypto/chacha.c:147-162 | the state is that of all bytes fed so far, however cut |
| `Poly1305.Poly.Final` | lib/crypto/chacha.c:175-240 | the tag of section 2.5 of RFC 8439 |
| `Poly1305.Tag` | lib/crypto/chacha.c:242-249 | pieces of any sizes give the tag of the whole message |
| `Poly1305.AeadTag` | lib/crypto/chacha.c:251-270 | the tag of the construction of section 2.8 of RFC 8439 |
| `Poly1305.PaddedNumber` | lib/crypto/chacha.c:251-270 | padding is shorter than a block and does not change the number that the bytes stand for |
| `Poly1305.LengthsNumber` | lib/crypto/chacha.c:251-270 | the last block is the two lengths, each a number of eight bytes |
| `Poly1305.AeadInputInjective` | lib/crypto/chacha.c:251-270 | different associated data or ciphertexts authenticate different inputs |
| `HttpSteps.SplitAnywhere` | lib/http/http.c:159-307 | parsing a then b is parsing a + b, for every state and every split |
| `HttpFeed.Response.Feed` | lib/http/http.c:159-307 | the loop over a piece is the byte-by-byte machine: body, state, result and bytes used |
| `HttpMessages.FeedPieces` | lib/http/http.c:159-307 | any cutting gives the same body, final state and result, and for a response that is not refused the same total |
| `HttpMessages.CountTwoLines` | lib/http/http.c:159-307 | two line ends that the head parser refuses count for nothing in one piece and for one byte in two |
| `HttpChunked.ChunkedBody` | lib/http/http.c:214-298 | every chunked coding of section 7.1 of RFC 9112 whose chunk sizes are below 2^32 and whose trailer lines are at most 1024 bytes delivers its chunks joined and stops behind it |
| `HttpChunked.ChunkedResponse` | lib/http/http.c:159-298 | so does a whole response, followed by anything |
| `HttpMessages.FeedChunked` | lib/http/http.c:159-307 | and so does one that arrives in pieces |
| `HttpBodies.BodilessResponse` | lib/http/http.c:180-190 | a response of status 204 or 304 or of length 0 is complete with its header section, and nothing behind it is taken |
| `HttpBodies.LengthResponse` | lib/http/http.c:196-208 | one of a known length delivers exactly so many bytes and is complete with the last |
| `HttpBodies.CloseResponse` | lib/http/http.c:209-213 | one without a length delivers all there is and stays open |
| `HttpBodies.InterimResponse` | lib/http/http.c:180-185 | an interim response is skipped: what follows is parsed as if it had not been there |
| `HttpBodies.RefusedResponse` | lib/http/http.c:178-182 | a header section that cannot be read, or status 101, is refused |
| `Utf8.Utf8Seq` | lib/http/json.c:44-73 | the length of the sequence at the front, 0 if it is none |
| `Utf8.AcceptsEncoded` | lib/http/json.c:44-73 | every encoded scalar value is accepted, and read as that value |
| `Utf8.AcceptsOnlyEncoded` | lib/http/json.c:44-73 | and nothing else is |
| `JsonStrings.Writer.Raw` | lib/http/json.c:26-36 | appends, or marks the overflow and leaves the text as it was |
| `JsonStrings.Writer.Str` | lib/http/json.c:75-111 | appends the literal of the string exactly if it fits |
| `JsonStrings.SkipString` | lib/http/json.c:156-188 | finds the end of a well-formed string, and accepts no other |
| `JsonStrings.DecodeString` | lib/http/json.c:325-395 | the decoded bytes, exactly if the text is well formed and they fit |
| `JsonRoundTrip.RoundTrip` | lib/http/json.c:75-111 | decoding what was written gives the string with every invalid byte replaced, and the string itself if and only if it is valid UTF-8 without NUL |
| `JsonRoundTrip.RepairedIff` | lib/http/json.c:75-111 | the replacement changes nothing if and only if the bytes are valid UTF-8 |
| `JsonRoundTrip.DecodedUtf8` | lib/http/json.c:325-395 | valid UTF-8 decodes to valid UTF-8 without NUL |
| `JsonEscapes.AnySpelling` | lib/http/json.c:340-364 | a string in which each character is spelt as a short escape or with \u, in any case of its digits and as a pair beyond U+FFFF, decodes to the UTF-8 of its characters |
| `JsonEscapes.LoneHalf` | lib/http/json.c:352-362 | half a surrogate pair decodes to U+FFFD |

## Left out

Parts of the repository that are not modelled:

- Device drivers, interrupts, the loader, context switches, address-space registers and TLB operations: hardware.
- TLS, X.509, elliptic curves, AES, RSA padding and the ChaCha20 cipher itself.
- ELF loading, the initial file system, the event log, DNS, ARP, IP and UDP, the SSE parser, and JSON values other than strings: they would add easier members.
- The deliberately broken test variants (injected faults, test flags) are off.
- tcp_close and tcp_abort, orphaned connections, ports, checksums, the RSTs sent for unknown connections, and blocking inside read and write.

What the models assume or do not capture:

- StoreRuns.Run: the client has an upper bound on the blocks taken, not the blocks themselves. Reads do not fail. A superblock that cannot be read is treated by the source like a torn one, so a mount falls back as FallbackFindsPrevious says; a retained root that cannot be read at a mount counts as gone, and its blocks may be reused.
- VolatileDisk.Device: a failed write may leave each block of its range old, new or torn, and loses no other write. The write cache does so unless an eviction fails (FailedEvictionLoses, BlkRefines).
- Checksums are arbitrary functions and a torn block never passes for a whole one; generations and object numbers are unbounded, versions have 32 bits.
- TcpConn.Conn.Input: the round-trip estimate and the peer's maximum segment size are arbitrary positive numbers; the count of repeated acknowledgements does not wrap.
- TcpLink.Link.Deliver: assumes the lifetime bound of section 3.4 of RFC 9293 for the segment delivered; nothing is assumed of segments the receiver keeps.
- TcpRepair.Repair: an end in SYN_RCVD is taken to have received no text yet, and nothing is said of a receiver to which a fast retransmission brought more than counts as sent.
- TcpRing.Ring.Append: the ring buffer is proved equal to a byte sequence on its own; TcpConn uses the sequence.
- BlkCache.BlkDev.Write: a request that the device fails has no effect on the device.
- PageTables.Tables.Map: an entry is a frame number and a set of flag bits. A top-level slot that a task's root shares with the kernel is taken to be present; vmm.c fills all of them before there is a task. What the upper levels permit is stated for user pages in a space's own part, where the kernel puts them.
- Spaces.Destroy: pages are given back after the walk, where the source's callback frees them during it.
- UserAccess.UserMemory.Copy: the memory that holds page tables is apart from the memory copied to.
- Capabilities.Kernel.MapVmo: the outcome of the page-table part is an input here; VmoMapping.Map joins the two. Reference counts are unbounded numbers.
- VmoMapping.Map: pages of memory objects and pages of tables come from sets of their own, where the source has one allocator for both.
- Capabilities.Kernel.CreateVmo: the page allocator is the set of free pages, any of which may be taken; PhysMem.Pmm shows that the allocator is one.
- Scheduler.Sched.Kill: user tasks only, and only kernel threads wait for a task's end, as in the source; a waiting thread that could itself be killed would be left behind as a waiter.
- Scheduler.Sched.Tick: the watchdog and the counters are left out.
- Montgomery.MontMul: disjoint bit fields are joined by addition where the source uses bitwise or.
- PolyArith.Carry: masks and shifts are remainders and quotients.
- HttpFeed.Response.Feed: parse_head is any function of the header bytes, the sink never fails, and the byte count of the body does not wrap at 2^64.
