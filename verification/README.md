# A verified model of StaxFS metadata servers

StaxFS keeps file system metadata on CXL memory shared by several metadata servers and persists it
to a CXL-SSD. This project models five parts of it in Dafny and proves what they are for:

1. **The level hash table with progressive resize** (`Buckets`, `TagHint`, `LevelTable`,
   `ProgressiveResize`, `LostServer`, `BucketProtocol`). Buckets, displacement, lookup with tag hints, and the
   multi-server resize are classes whose methods are proved against the multiset of stored entries.
   The bucket word protocol is a state machine over single 64-byte accesses.
2. **Inode slots** (`InodeSlot`): the locked update and erase of one slot, as a state machine.
3. **Log and clock** (`HybridClock`, `WalCodec`, `RingIndex`, `WalRing`, `WalDecode`, `Snapshot`): the
   hybrid logical clock over servers and clients, the record codec, the ring of slots shared by appenders
   and the checkpointer, the entries read out of it, and the stability of a listing cutoff.
4. **Persistence** (`PageCache`, `InodeRegion`, `DentRegion`, `WalEvents`, `RemoteChanges`,
   `Coalesce`, `Forwarding`, `SplitRpc`, `Checkpoint`, `InodeStory`): the write-back page stores, the
   checkpoint cycle with its deadlines and group commit, coalescing and deferral of remote changes, their
   forwarding between servers, and what a persisted inode holds in terms of the log entries.
5. **Directory listing** (`Directory`, `Listing`, `Paging`, `MetaServer`, `DirectoryListing`): collection on each
   server, record-aligned paging from staged listings, the client's drain of all servers while they go on
   working, and its k-way merge.

`dafny verify dfyconfig.toml` checks all of it.

## What the model takes as one step, and what it assumes

- A public hash table operation, with its polling before and its migration work after, is one step of
  a run; operations of different servers interleave. In `BucketProtocol` each 64-byte access and each
  compare-and-swap is a step of its own.
- A compare-and-swap retry loop that touches one word (reserving log slots, merging the clock, appending
  to the remote log) is one step.
- One collection of a directory listing is one step, and so is clearing a log range together with
  advancing its checkpoint.
- The flash device is total: every page can be read and written. The directory region has room for the
  pages it needs; the source only logs an error when it has not.
- Hashes are arbitrary functions of the key. Keys, values and inode contents are opaque where their
  content does not matter. Integers are unbounded except where the width shows: the 7-bit bucket
  version, the 42-bit physical time, the 32-bit child count, the sequence word, the ring index.
- Log positions in `Checkpoint` are counted in published entries; `WalDecoding.ReadWal` is what turns ring
  slots into that sequence.
- The coalescing key of the source packs the inode id shifted by four bits with the operation; the model
  uses the pair, which is the same for ids below 2^60.
- Changes of one inode from other servers carry different versions, and inodes with such changes waiting
  occupy different region slots.
  `Coalescing.RemoteReplay` tracks whether this has held so far; its conclusions depend on it, its
  methods do not require it.
- A listing takes every server to have its own id, its cutoff to be final on every server, and no stale copy
  of the same listing to be staged. A request that carries a clock of at least the cutoff, as every request
  of the client that opened the directory does, makes the cutoff final if and only if no operation is in
  flight at or below it (`MetaServers.MetaServer.Admit`). No copy is stale as long as nobody else has listed
  at that cutoff, which is a version handed out to that client.

Where the code and a comment or a plausible promise disagree, the model follows the code:

- **Snapshot of a listing.** That the events at or below a cutoff are final once the server has served
  a request carrying it is false in general: an operation that took its version earlier can publish
  later. `Snapshot.LatePublish` is such a run from a fresh server, `Snapshot.SnapshotStability` the exact
  condition.
- **Renaming a name onto itself.** The one record is a tombstone and a put of one name and one version, and
  the order of an unstable sort decides whether the name is listed: `Listing.SelfRenameUndecided`.
  `Listing.DecidedIff` gives the exact condition on the log, `Listing.WinnersUnique` and
  `Listing.TwoListings` what it decides.
- **Child counts.** Adding a net delta once is not the same as adding the deltas one by one, because a
  count below zero is clamped. `RemoteChanges.NetLosesClamp` is an example, `RemoteChanges.NetCount` the
  exact condition.
- **Chunk size.** A listing chunk smaller than the next record ends the stream early and silently;
  `DirectoryListing.Drain` says how much the client then gets.
- **Missed finalize.** A server that has not seen the end of one resize before the next one begins is
  not brought up to date by polling: `ProgressiveResize.PollCatchesUp` is the exact condition, and
  `LostServer.MissedFinalize` gets there with public operations of two servers. Up to a second resize every
  run is complete: `ProgressiveResize.Cluster.Run`.
- **Version width.** With 128 commits between a snapshot and its compare-and-swap a stale snapshot wins:
  `BucketProtocol.BoundIsTight`. At 2^42 ms versions stop growing: `HybridClock.VersionWraps`.
- **Table size.** The table asserts at least two top-level buckets. Its bottom level, half as large, then
  has a single bucket, and the index of an entry's first bucket there is a hash modulo zero
  (include/server/level_hashtable.h:1307); the model starts from four.

## Model

| member | source | states |
|---|---|---|
| `Buckets.AllSet` | include/server/level_hashtable.h:1203-1219 | rewriting one bucket exchanges that bucket's entries, and no others, in the contents of the table |
| `Buckets.AllMember` | include/server/level_hashtable.h:1177-1201 | a value is in the contents if and only if some full slot of some bucket holds it |
| `LevelTables.Table.PlaceDirect` | include/server/level_hashtable.h:974-998 | filling the first empty slot of a candidate bucket adds exactly the new entry and keeps every entry at home |
| `LevelTables.Table.SameLevelMove` | include/server/level_hashtable.h:1862-1972 | a same-level displacement adds exactly the new entry, or leaves every slot as it was; it fails only if the bucket is locked or no occupant's other bucket on the level has a free slot; buckets locked by a caller are not touched; the count rises only if asked |
| `LevelTables.Table.Relocate` | include/server/level_hashtable.h:1905-1954 | a victim is placed in its other bucket, directly or by one extra hop, with the same guarantees; it fails only if that bucket takes nothing |
| `LevelTables.Table.PromoteMove` | include/server/level_hashtable.h:1980-2072 | a bottom-to-top displacement, with the same guarantees; it fails only if the bucket is locked or no occupant's two top-level buckets have a free slot |
| `LevelTables.Table.Lift` | include/server/level_hashtable.h:2014-2060 | a victim goes to one of its two top-level buckets, directly or by one extra move, unless neither takes anything |
| `LevelTables.Table.CandidatesComplete` | include/server/level_hashtable.h:1338-1401 | every bucket where an entry of a key may live is among the candidates probed for that key |
| `LevelTables.Table.RoomAtTop` | include/server/level_hashtable.h:499-528 | with an empty top level an insert finds room |
| `LevelTables.Table.TryMigrateAndInsert` | include/server/level_hashtable.h:1790-1854 | both displacement phases, and their resize-only repetition, insert exactly the new entry and count it once, or change no slot; they fail only if no occupant of any candidate bucket can make room by one move |
| `LevelTables.Table.InsertImpl` | include/server/level_hashtable.h:881-956 | an insert adds exactly its entry and one to the counter, or changes no slot, and then no candidate bucket had a free slot to take and no occupant of one could move |
| `LevelTables.Table.InsertToNewLayout` | include/server/level_hashtable.h:727-820 | a migrated entry lands in the new layout exactly once, without being counted again, unless there is no place for it |
| `LevelTables.Table.MigrateBucket` | include/server/level_hashtable.h:660-712 | migrating a bucket keeps the contents, puts nothing new into the old bottom level, and reports done if and only if the bucket is empty; an entry stays behind only if there was no place for it when it was tried |
| `LevelTables.Table.FindImpl` | include/server/level_hashtable.h:1404-1500 | a lookup finds a value of the key if and only if one is stored, whatever the hints say |
| `LevelTables.Table.EditImpl` | include/server/level_hashtable.h:1565-1705 | an update or erase edits one slot of the key if and only if the key is stored, whatever the hints say, and keeps the counter exact |
| `LevelTables.Table.TryEdit` | include/server/level_hashtable.h:1134-1175 | the locked edit of one bucket changes the first matching slot and nothing else |
| `LevelTables.EditContents` | include/server/level_hashtable.h:1000-1132 | an edit exchanges one value of the contents for its image, or removes it |
| `LevelTables.HintTransparency` | include/server/tag_hint.h:48-97 | on a table with unique keys, find, update and erase have only one possible outcome, so hints cannot change it |
| `ProgressiveResize.RangesPartition` | include/server/level_hashtable.h:852-879 | the per-server ranges cover every old bucket exactly once |
| `ProgressiveResize.AllReportedEmpty` | include/server/level_hashtable.h:622-658 | once every server has reported, the old bottom level holds nothing |
| `ProgressiveResize.GrowStep` | include/server/level_hashtable.h:547-619 | starting a resize keeps the contents and the cluster invariant |
| `ProgressiveResize.FinalizeStep` | include/server/level_hashtable.h:823-850 | switching back to normal loses no entry and keeps the cluster invariant |
| `ProgressiveResize.PollCatchesUp` | include/server/level_hashtable.h:450-496 | polling brings a server up to date if and only if it has not missed a finalize |
| `ProgressiveResize.Cluster.DoResize` | include/server/level_hashtable.h:499-528 | a resize adds an empty top level, keeps the contents and makes all other servers stale |
| `ProgressiveResize.Cluster.MigrateStep` | include/server/level_hashtable.h:622-712 | contents and counters are unchanged; the cursor moves on if and only if its bucket is now empty, the end of the range is reported, and what is left in the bucket had no place to go |
| `ProgressiveResize.Cluster.CheckFinalize` | include/server/level_hashtable.h:823-850 | the resize ends if and only if the server is the initiator, is done and has every report |
| `ProgressiveResize.Cluster.Insert` | include/server/level_hashtable.h:193-217 | an insert, with its possible resize, is an abstract insert; it is refused only while a migration is under way, and only if no candidate bucket of the key has a free slot and no occupant of one can move |
| `ProgressiveResize.Cluster.Find` | include/server/level_hashtable.h:219-230 | a find answers as the abstract multiset does |
| `ProgressiveResize.Cluster.Change` | include/server/level_hashtable.h:242-276 | update and erase act as on the abstract multiset |
| `ProgressiveResize.Cluster.Run` | include/server/level_hashtable.h:437-448 | every schedule of operations by any servers, through any number of resizes, refines the abstract multiset step by step, and refuses an insert only when at that moment there was no place for it; a run that starts with every server up to date and idle, or anywhere in its first resize, can stop short only after a second resize has begun; with one server it never does, and the counter is the number of entries |
| `ProgressiveResize.EpisodeStep` | include/server/level_hashtable.h:437-528 | no operation of the first resize, up to its end, loses a server |
| `LostServer.KeyBound` | include/server/level_hashtable.h:1338-1401 | outside a migration a key has at most 32 entries, four buckets full |
| `LostServer.MissedFinalize` | include/server/level_hashtable.h:450-496 | for every hash and key a run of inserts, finds and erases by two servers ends with one of them two versions behind, and polling leaves it there |
| `BucketProtocol.WordExact` | include/server/level_hashtable.h:958-972 | if the word still matches a snapshot, the snapshot is exact if and only if fewer than 128 commits happened since |
| `BucketProtocol.StepInv` | include/server/level_hashtable.h:974-998 | every timely access keeps the protocol invariant |
| `BucketProtocol.ProtocolSound` | include/server/level_hashtable.h:1530-1562 | in every timely run a winning compare-and-swap had an exact snapshot and is the only holder, and an accepted read is untorn and current, also when the key did not match and it goes on to the next slot with the same snapshot |
| `BucketProtocol.CommitRecords` | include/server/level_hashtable.h:974-998 | in every timely run a commit records its fingerprints and, in every slot, what the holder last wrote there since it took the lock, or else what the commit before recorded |
| `BucketProtocol.ReaderSucceeds` | include/server/level_hashtable.h:1530-1562 | a reader left alone on a free bucket accepts what the slot holds |
| `BucketProtocol.WriterSucceeds` | include/server/level_hashtable.h:974-998 | a writer left alone on a free bucket commits its value and fingerprints, and nothing else changes |
| `BucketProtocol.BoundIsTight` | include/server/level_hashtable.h:958-966 | after exactly 128 commits a stale snapshot wins |
| `InodeSlots.StepInv` | include/server/inode_array.h:170-214 | every access of an update or erase keeps the slot invariant |
| `InodeSlots.NoLostUpdate` | include/server/inode_array.h:170-250 | for every interleaving the free slot holds the fold of the completed calls in lock order, and its version counts them; a call answers false only if the inode is erased; nothing completes after an erase |
| `InodeSlots.AloneSucceeds` | include/server/inode_array.h:170-250 | on a free slot a call left alone completes on a live inode, with its entry in the log and its image in the slot, and is refused on an erased one |
| `InodeSlots.NobodyIsStuck` | include/server/inode_array.h:170-250 | from every reachable state every call can be brought to its answer |
| `HybridClock.TickIsMax` | include/server/compact_wal.h:469-512 | merging, incrementing and logical overflow together are one maximum |
| `HybridClock.VersionValue` | include/server/compact_wal.h:118-122 | below 2^42 ms a version is the clock state followed by the server id |
| `HybridClock.VersionWraps` | include/server/compact_wal.h:118-122 | at 2^42 ms a later state packs to a smaller version |
| `HybridClock.StepInv` | include/server/compact_wal.h:402-467 | every step of a server or client keeps the clock invariant |
| `HybridClock.Causality` | include/client/rpc_client.h:81-91 | in every run versions are unique, and along every chain of operations, each sent by a client to which the answer of the one before had been delivered, all versions of the later operation exceed all of the earlier one |
| `HybridClock.EveryLogRecorded` | include/server/compact_wal.h:428-467 | in every run an operation has one version for each time it logged, and an answer if and only if it responded |
| `HybridClock.ClockAdvances` | include/server/compact_wal.h:428-512 | every step that hands out a version moves the clock strictly forward |
| `Snapshot.RequestPasses` | src/server_main.cc:937-945 | serving a request that carries at least the cutoff moves the clock past it |
| `Snapshot.RequestQuiet` | src/server_main.cc:70-91 | such a request neither puts an operation in flight at or below the cutoff nor completes one |
| `Snapshot.StepInv` | include/server/compact_wal.h:402-467 | every step keeps each version in one place, an operation or a slot of the server that handed it out |
| `Snapshot.LateOnly` | include/server/compact_wal.h:402-467 | once the clock has passed the cutoff and nothing is in flight below it, readable records stay and new ones lie above the cutoff |
| `Snapshot.ShownDistinct` | include/server/compact_wal.h:402-467 | no version is readable twice, on one server or on servers with different ids |
| `Snapshot.LatePublish` | include/server/compact_wal.h:428-467 | a run from a fresh server that passes a cutoff and then publishes at it |
| `Snapshot.SnapshotStability` | include/server/compact_wal.h:402-467 | once the clock has passed the cutoff, the listing at it is final if and only if no operation or reserved slot can still publish at or below it |
| `WalCodec.SeqRoundTrip` | include/server/compact_wal.h:91-116 | the sequence word decodes to what was encoded, and neither a zero slot nor a continuation looks ready |
| `WalCodec.NameRoundTrip` | include/server/compact_wal.h:156-183 | a single-name record gives back its name |
| `WalCodec.RenameRoundTrip` | include/server/compact_wal.h:194-216 | a rename record gives back both names |
| `WalRing.StepInv` | include/server/compact_wal.h:311-385 | reserving, writing a continuation, publishing and clearing each keep the ring invariant |
| `WalRing.RingSafety` | include/server/compact_wal.h:311-385 | for every interleaving the live window stays below the capacity, slots outside it are zero, and a published primary has all its continuations |
| `WalRing.ReserveExact` | include/server/compact_wal.h:311-325 | a reservation takes its slots if and only if at least one stays free, and otherwise changes nothing |
| `WalRing.Publishes` | include/server/compact_wal.h:327-385 | every reserved record can be written and published, whatever the others are doing, and then has all its continuations |
| `WalRing.CheckpointFrees` | include/server/compact_wal.h:311-385 | clearing up to a record gives back exactly the slots of the records before it |
| `WalRing.Scan` | src/server/cxl_persistence.cc:339-348 | from any entry the scan reports exactly the published entries up to the first unpublished one or the deadline, across wrap-around |
| `WalRing.ExtractPayload` | src/server/cxl_persistence.cc:208-248 | the checkpoint's extractor returns the names given to the builder, at every ring position |
| `WalRing.ExtractWalPayload` | src/server/metadata.cc:62-96 | the listing's extractor returns the same names |
| `WalDecoding.DecodeEncode` | include/server/compact_wal.h:130-216 | every log entry whose fields fit comes back from its record: ids, packed owner and group, type, mode, names and version |
| `WalDecoding.ReadableGrows` | include/server/compact_wal.h:311-385 | whatever appenders and checkpointer do, readable entries stay readable and in place, and the checkpoint never passes them |
| `WalDecoding.ReadWal` | src/server/metadata.cc:519-581 | scanning the ring from the checkpoint and decoding every record gives exactly the checkpointer's log tail |
| `PageCaches.PageCache.LruUnlink` | include/server/cxl_persistence.h:146-158 | taking an entry out leaves a well-formed list of the others, in order |
| `PageCaches.PageCache.LruPushFront` | include/server/cxl_persistence.h:160-169 | the entry becomes the head of a well-formed list |
| `PageCaches.PageCache.LoadPage` | include/server/cxl_persistence.h:171-210 | the page is cached, no page's content changes, and frames are given up least recently used first, for any pool of at least one frame |
| `PageCaches.PageCache.LoadFresh` | include/server/dent_region.h:516-548 | a fresh page, cached before or not, replaces the content of its own offset only |
| `PageCaches.PageCache.FlushDirty` | include/server/cxl_persistence.h:97-113 | afterwards flash alone holds every page |
| `InodeRegions.InodeRegion.WriteInode` | include/server/cxl_persistence.h:59-63 | the flat array changes at the inode's slot only |
| `InodeRegions.InodeRegion.ReadInode` | include/server/cxl_persistence.h:65-69 | a read returns the slot of the flat array, across evictions |
| `InodeRegions.InodeRegion.MutateInode` | include/server/cxl_persistence.h:70-84 | the slot is replaced by its image, or false is returned and nothing changes if it is empty |
| `InodeRegions.InodeRegion.FlushDirty` | include/server/cxl_persistence.h:97-113 | flash equals the flat array |
| `DentRegions.ReadRecords` | include/server/dent_region.h:262-293 | the bounded record walk of a page meets every record |
| `DentRegions.DentRegion.AppendEntries` | include/server/dent_region.h:195-239 | all events go, in order, to the end of the directory's log, and no other log changes |
| `DentRegions.DentRegion.ReadDirLatestFlat` | include/server/dent_region.h:301-351 | the reply is exactly the directory's events up to the cutoff, each as often as appended |
| `DentRegions.DentRegion.ReadDirLatest` | include/server/dent_region.h:250-297 | the reply maps each name to its highest-version event up to the cutoff |
| `DentRegions.DentRegion.FlushDirty` | include/server/dent_region.h:357-374 | afterwards every chain is intact on flash |
| `WalEvents.HistoryOverlap` | src/server/metadata.cc:495-523 | entries replayed but not cleared, seen twice, add no event |
| `Directories.EventsMean` | src/server/cxl_persistence.cc:350-470 | an entry's directory events, played in order, bind and unbind names as the entry does: a rename takes the old name away and sets the new one |
| `Directories.HistoryMeans` | src/server/cxl_persistence.cc:350-470 | so does a whole log |
| `Directories.InOrderMember` | src/client/posix_wrapper.cc:658-690 | the entries of all servers in version order are exactly those up to the cutoff |
| `Directories.InOrderIncreasing` | src/client/posix_wrapper.cc:658-690 | and in that order versions strictly increase |
| `Directories.Newest` | src/server/metadata.cc:583-614 | after entries in version order a name is bound if and only if its newest event is a put, and to what that event says |
| `RemoteChanges.SortedReplay` | src/server/cxl_persistence.cc:57-97 | one inode's changes applied in version order are determined by the steps of the link count, the newest mode, the newest touch and the deltas |
| `RemoteChanges.SecondsOf` | include/server/compact_wal.h:118-130 | the seconds of a version are those of the clock that handed it out |
| `RemoteChanges.SortItems` | src/server/cxl_persistence.cc:559-570 | sorting a batch keeps every change as often as it occurs |
| `RemoteChanges.LinkReplay` | src/server/cxl_persistence.cc:57-73 | the link count a batch leaves, as steps up and down that stop at zero |
| `RemoteChanges.LinkCount` | src/server/cxl_persistence.cc:57-73 | with L links and U unlinks it is the old count plus L minus U if and only if no prefix in order goes below zero, and otherwise the count since it last stopped there |
| `RemoteChanges.CountShape` | src/server/cxl_persistence.cc:88-97 | the child count is the plain sum since the last clamp, in 32 bits |
| `RemoteChanges.NetCount` | src/server/cxl_persistence.cc:88-97 | adding the net delta once equals adding the deltas one by one if and only if nothing clamps, or the stated cancellation holds |
| `RemoteChanges.NetLosesClamp` | src/server/cxl_persistence.cc:88-97 | an empty directory with -1 and then +1 shows the difference |
| `RemoteChanges.CoalescedReplay` | src/server/cxl_persistence.cc:495-518 | a coalesced batch makes the inode of its entries in version order, but for adding the net delta at once; the same inode if and only if that is exact |
| `Coalescing.Coalesce` | src/server/cxl_persistence.cc:489-545 | at most one change per inode and coalescable kind remains, with the meaning of all entries for every inode |
| `Coalescing.BucketByPage` | src/server/cxl_persistence.cc:551-558 | each bucket holds exactly the changes of its page, in order |
| `Coalescing.ApplyBucket` | src/server/cxl_persistence.cc:571-609 | every occupied slot gets all its changes, its link count moved by the links and unlinks among them; every empty slot keeps all of them deferred |
| `Coalescing.ApplyBuckets` | src/server/cxl_persistence.cc:559-622 | for every deadline, each inode is either applied whole or deferred whole |
| `Coalescing.RemoteReplay.Cycle` | src/server/cxl_persistence.cc:489-622 | after any number of deferrals an inode gets all changes drained since its last application, in version order: its link count, mode, change time and child count are stated in terms of the changes alone; or it gets none. A slot that no change is for stays as it is, whatever the other changes are like |
| `Forwarding.RemoteWal.TryAppendPartial` | include/server/cxl_persistence.h:268-294 | the longest prefix that fits is appended, and only a full ring accepts less than everything |
| `Forwarding.RemoteWal.Drain` | src/server/cxl_persistence.cc:526-535 | draining returns exactly the changes from the position to the head |
| `Forwarding.RemoteWal.Release` | include/server/cxl_persistence.h:300-309 | clearing and advancing leave the rest of the ring intact |
| `Forwarding.Forwarder.Queue` | src/server/cxl_persistence.cc:316-327 | one more change is produced for its owner |
| `Forwarding.Forwarder.Commit` | src/server/cxl_persistence.cc:713-726 | every waiting change joins the end of its forward queue |
| `Forwarding.Forwarder.Take` | src/server/rpc_server.cc:305-323 | up to a cap's worth is taken from the front of every queue |
| `Forwarding.Forwarder.Send` | src/server/rpc_server.cc:27-81 | a prefix of the batch is accepted, exactly as the receiver's answer says, and all of it unless the receiver's log is full |
| `Forwarding.Forwarder.Settle` | src/server/rpc_server.cc:334-355 | what was not accepted returns to the front; the cap doubles up to the ceiling on a full accept and otherwise falls to what was accepted, down to the floor |
| `Forwarding.Cluster.ServiceRound` | src/server/rpc_server.cc:295-356 | a whole round leaves nothing in flight, and every target has the first of its queued changes, a cap's worth or all of them unless its log is full, with the others queued as before |
| `Forwarding.Cluster.Step` | src/server/rpc_server.cc:295-356 | what each step of a server does if it is possible: queue, commit, take, send, settle, clear |
| `Forwarding.Cluster.AlwaysConserved` | src/server/rpc_server.cc:295-356 | for every pair, produced is received, in flight, queued and waiting, in order, and the cap is in [512, 65536] |
| `Forwarding.Cluster.Run` | src/server/rpc_server.cc:295-356 | conservation holds after any interleaving of any servers' steps |
| `SplitRpc.Split` | src/server/rpc_server.cc:194-238 | the chunks fit, concatenate to the message, and only the last is marked |
| `SplitRpc.SplitHandler.OnChunk` | src/server_main.cc:1379-1445 | a message is delivered when its last chunk arrives, and other senders' buffers are untouched |
| `SplitRpc.Reassembled` | src/server_main.cc:1394-1419 | whatever other senders send in between, a sender's messages come out whole and in order |
| `Checkpoints.Dispatch` | src/server/cxl_persistence.cc:307-327 | a change goes to the region, the delta map or its owner's queue, and nowhere else |
| `Checkpoints.ReplayEntry` | src/server/cxl_persistence.cc:350-474 | one entry's effect on inodes, deltas, queues and the dent buffer, whose meaning for inodes is `InodeStories.EntrySlot` and for directories `Directories.EventsMean` |
| `Checkpoints.ReplayMain` | src/server/cxl_persistence.cc:338-481 | every entry from the start once and in order, up to the deadline |
| `Checkpoints.FlushDents` | src/server/cxl_persistence.cc:483-487 | every buffered directory's events reach its log in order |
| `Checkpoints.FlushBlocks` | src/server/cxl_persistence.cc:651-659 | only child counts change, and only in the slots of the directories with a delta; a directory that has its slot to itself gets its net delta once |
| `Checkpoints.Checkpointer.MainPhase` | src/server/cxl_persistence.cc:338-487 | directory events and forwarded changes stay those of the replayed prefix |
| `Checkpoints.Checkpointer.SyncPhase` | src/server/cxl_persistence.cc:706-742 | the logs are cleared only after both regions are on flash, and exactly up to what was replayed |
| `Checkpoints.Checkpointer.DoCheckpoint` | src/server/cxl_persistence.cc:251-742 | for every deadline and sync decision when a cycle does anything, its whole effect, and that entries leave the log only when flash holds their effect |
| `Checkpoints.Checkpointer.Publish` | src/server/cxl_persistence.cc:147-206 | one more entry at the end of the log, nothing else |
| `Checkpoints.Checkpointer.Receive` | include/server/cxl_persistence.h:268-294 | the accepted prefix joins the remote log, all of it unless the log is full; nothing else changes |
| `Checkpoints.Checkpointer.CycleStep` | src/server/cxl_persistence.cc:251-742 | a cycle as a step between two moments: everything logged is replayed, or as much as the deadline allows, everything received is drained, and a due sync clears both logs; the inode effect of what was replayed, and flash holding it wherever the cleared position moved |
| `Checkpoints.Checkpointer.Run` | src/server/cxl_persistence.cc:257-267 | after any sequence of appends, receipts and cycles, directory events and forwarded changes are exactly those of the entries before the pending position, which is never behind the cleared one; between any two events the inodes change by exactly the cycle's effect, and the log is cleared only up to what flash holds |
| `Checkpoints.OwnsItsIds` | src/server/metadata.cc:104-108 | a server owns exactly the inode ids it hands out |
| `InodeStories.CreateSlot` | src/server/cxl_persistence.cc:43-48 | a create leaves an inode with its id, owner, group, mode and times, one link and no children |
| `InodeStories.EntrySlot` | src/server/cxl_persistence.cc:350-470 | one more entry: a link or unlink moves the link count, a setattr sets the mode, each sets the change time, and nothing else changes the inode |
| `InodeStories.LocalMatches` | src/server/cxl_persistence.cc:350-470 | a directory's own deltas add up to the entries put into it minus those removed |
| `InodeStories.RunStory` | src/server/cxl_persistence.cc:251-742 | at every moment of every run the slot of an inode created in it is what the entries replayed so far say |
| `InodeStories.InodeAfter` | include/server/cxl_persistence.h:65-69 | after any run a read of an inode that is this server's, has its slot to itself and got no change from another server returns: the create's id, owner and group, the mode of the last setattr, one plus links minus unlinks, stopping at zero, the times of the create and of the last change, and as many children as were put minus removed |
| `InodeStories.ForwardedStory` | src/server/cxl_persistence.cc:307-327 | what a server forwards for another server's inode says exactly what its entries say: links and unlinks, last mode and stamp, children |
| `Checkpoints.CountsMatchEvents` | src/server/cxl_persistence.cc:350-470 | over any log the child count deltas of a directory add up to the entries put minus the entries removed |
| `Listing.SortViews` | src/server/metadata.cc:583-598 | the result is sorted and a permutation |
| `Listing.LessMeans` | src/client/posix_wrapper.cc:666-690 | the name order is by the first character that differs, a proper prefix first |
| `Listing.Dedup` | src/server/metadata.cc:600-614 | one highest-version entry per name remains |
| `Listing.WinnersExist` | src/server/metadata.cc:583-614 | every collection of events has such a listing |
| `Listing.WinnersUnique` | src/server/metadata.cc:583-614 | and only one, if no name has two different newest events |
| `Listing.TwoListings` | src/server/metadata.cc:583-614 | and otherwise a second one |
| `Listing.DecidedIff` | src/server/metadata.cc:547-566 | on a log with its own version for every entry the listing is unique if and only if every rename of a name onto itself is followed by a newer event of that name |
| `Listing.SelfRenameUndecided` | src/server/metadata.cc:1057-1145 | after a rename of a name onto itself one possible listing has the name and another does not |
| `Listing.ScanTail` | src/server/metadata.cc:519-581 | the log tail gives exactly its events of the directory up to the cutoff, which played in order leave what the entries leave |
| `Listing.CollectDentViews` | src/server/metadata.cc:472-614 | one highest-version entry for every name of the server's whole history up to the cutoff, in name order; on a settled log its puts are exactly the names the entries leave bound, with inode and type |
| `Listing.Merge` | src/client/posix_wrapper.cc:666-750 | the merge yields, in strictly increasing name order, the names whose highest-version record is not a tombstone |
| `Listing.WinnersSuffice` | src/client/posix_wrapper.cc:658-690 | the newest of the servers' winners are the newest of their whole histories |
| `Listing.MergedShows` | src/client/posix_wrapper.cc:658-750 | what is visible over all servers' events is the directory that all their entries leave in version order |
| `Paging.BuildOffsets` | src/server/metadata.cc:697-710 | the record boundaries |
| `Paging.Slice` | src/server/metadata.cc:716-757 | a record-aligned request gets as many whole records as fit, any other nothing |
| `Paging.SliceProgress` | src/server/metadata.cc:737-757 | an answer never crosses a record that does not fit, and is empty only there or at the end |
| `Paging.PendingListings.Stage` | include/server/metadata.h:171-176 | the copy under this key is replaced, no other |
| `Paging.PendingListings.Release` | src/server/metadata.cc:630-633 | the copy under this key is dropped, no other |
| `Paging.PendingListings.Sweep` | src/server/metadata.cc:635-645 | exactly the expired copies are dropped |
| `Paging.Advance` | src/client/posix_wrapper.cc:618-652 | an answer to a stream at a record moves it to a later record, and the stream is done only when nothing more can be sent |
| `MetaServers.PriorKept` | src/server/metadata.cc:519-581 | entries above a cutoff add nothing to a listing at it |
| `MetaServers.MetaServer.GetOrStage` | include/server/metadata.h:146-177 | a staged copy is served as it is, and otherwise the listing is collected from the regions and the log as they are now |
| `MetaServers.MetaServer.GetDentViews` | src/server/metadata.cc:679-770 | the answer is a slice of that listing, which stays staged if and only if records were served and some remain |
| `MetaServers.MetaServer.Build` | include/server/metadata.h:160-171 | a racing request builds its own copy, in which nothing is stale |
| `MetaServers.MetaServer.Park` | include/server/metadata.h:171-176 | the last racing request to finish owns the staged copy |
| `MetaServers.MetaServer.Sweep` | src/server/metadata.cc:345-352 | expiry disturbs no final cutoff |
| `MetaServers.MetaServer.Operate` | include/server/compact_wal.h:402-467 | every step of an operation in flight that the state allows, with the entries it makes readable, happens and leaves all final cutoffs undisturbed |
| `MetaServers.MetaServer.Admit` | src/server_main.cc:70-91 | the clock guard of a request carrying at least the cutoff makes it final if and only if nothing was in flight at or below it |
| `MetaServers.MetaServer.Do` | src/server_main.cc:965-1003 | whatever a server does next (operations, changes received, checkpoint cycles, other clients' requests, expiry): a final cutoff stays final, no directory gains or loses an event at it, and no staged listing of it goes stale |
| `DirectoryListing.Fetch` | include/server/metadata.h:146-177 | after any steps of the server, and however often the listing is dropped and collected again, a request is answered from one and the same listing |
| `DirectoryListing.Round` | src/client/posix_wrapper.cc:588-655 | every stream that is not done gets further or is done, and a server's steps disturb no other |
| `DirectoryListing.Drain` | src/client/posix_wrapper.cc:576-656 | the loop terminates, and each stream is the server's listing at the start, up to the first record larger than a chunk, whatever the servers do between the requests |
| `DirectoryListing.NoShared` | include/server/compact_wal.h:118-122 | servers with different ids have no version in common in their listings |
| `DirectoryListing.UniqueLogs` | include/server/compact_wal.h:118-122 | no version occurs twice in the servers' logs |
| `DirectoryListing.ListDirectory` | src/client/posix_wrapper.cc:576-750 | while every server goes on with operations, checkpoints and other requests, the client sees, in strictly increasing name order, exactly the names that all servers' entries up to the cutoff, in version order, leave bound in the directory, each with its inode and type |

## Left out

- Forced unlocking of a bucket after a timeout, and orphan-slot skipping by the checkpoint loop: both give up the invariants on purpose.
- Dropping of deferred changes past the hard limit, and the loss of in-memory queues in a crash: there is no recovery code to prove anything about.
- Linearizability of a table-wide find under concurrent displacement, and reads of an inode slot across its two cache lines: the code does not provide them.
- The early write of the resize descriptor with a zero top-level size, and retries of contended buckets in the second probing pass: not observable when an operation is one step.
- A listing whose collection overlaps a checkpoint clear: outside the stated granularity.
- ProgressiveResize.Cluster.Run: after a second resize it stops when it is the turn of a server that missed a finalize, because the code never brings that server up to date.
- DentRegions.DentRegion.AppendEntries: requires room in the region and names of at most 63 bytes. The source has no error path: out of pages it logs an error and indexes past its page table, which is undefined.
- Checkpoints.FlushDents: requires room in the region, for the same reason.
- Checkpoints.Checkpointer.MainPhase: requires room in the region, for the same reason.
- Checkpoints.Checkpointer.DoCheckpoint: requires room in the region, for the same reason; the three reasons to sync (forced, batch size, timer) are one input, because their times and thresholds do not affect what is stated.
- Checkpoints.Checkpointer.CycleStep: requires room in the region, for the same reason.
- Checkpoints.Checkpointer.Run: requires room in the region, for the same reason.
- InodeStories.InodeAfter: requires room in the region, for the same reason. It says nothing of an inode that shares its slot with another, and leaves changes from other servers to `Coalescing.RemoteReplay.Cycle`.
- Forwarding.Cluster.Run: states conservation, not which steps of the schedule were possible; what each possible step does is `Forwarding.Cluster.Step`.
- MetaServers.MetaServer.Do: skips a cycle for which the region has no room, for the same reason, and a step of an operation that the state does not allow.
- LevelTables.Table.InsertImpl: does not say which hints are set afterwards, and neither do find and edit, because every operation is proved for arbitrary hints.
- InodeRegions.InodeRegion.MutateInode: a failed local change is not deferred, as in the source; the root inode, which is never logged, therefore never gets a child count.
- Inode id reuse within one checkpoint cycle.
- The encoding of change batches in requests, sessions and transport: library code.
- Eviction counters, telemetry, logging, delay injection, the baseline hash table, object store, file descriptors, allocators and the POSIX wrappers other than directory listing: easy members or wrappers.
