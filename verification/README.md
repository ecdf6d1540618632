# YFS: proofs about the lock service, RPC, extent cache, inode store and formats

YFS is a small distributed file system: clients cache locks and file contents, talk
to a lock server and an extent server over a home-made RPC layer, and the extent
server keeps files in a block store. This project models the parts whose correctness
needs an argument over whole runs or over every input, and proves it.

* **Lock service** (`LockServer`, `LockClient`, `LockProtocol`, `LockInvariant`,
  `LockTheorems`, `LockProgress`, `LockFairness`, `LockSleepers`, `LockObjects`). The server
  and client objects are classes whose methods are the mutex-held sections of the source.
  `LockProtocol` composes any number of clients and threads with the server; a step is
  one section on one side, and revokes, retries and answers overtake each other freely;
  `LockObjects` runs these steps through the objects. One inductive invariant gives: no
  assertion of either side ever fails, mutual exclusion, first come first served, and one
  revoke per contended tenure. Although callback RPCs are nested, some activity always
  owes the next move and can make it, no step undoes progress, and in every infinite run
  with fair scheduling each client that asks for the lock gets it.
* **Extent cache** (`ExtentClient`, `Coherence`, `ExtentAttributes`). The write-back caches
  of all clients run on top of the lock service; they and the server behave like one
  variable until the extent is removed, and a removal reaches the server before the lock
  moves on. The runs use the section functions that the methods of the cache class are
  proved to compute.
* **RPC** (`RpcClientWindow`, `RpcReplyWindow`, `RpcServerRuns`, `RpcSystem`,
  `RpcCompletion`). The two in-place lists refine a set and an unbounded log; client, server
  and a network that loses, repeats and reorders messages are then run together. Calls are
  executed at most once, and with retransmission they complete.
* **Inode store** (`DiskLayout`, `DiskImage`, `FileView`, `FileFrame`, `FileSteps`,
  `InodeStore`, `FileAccounting`). A class over an array of 512-byte blocks, down to
  bitmap bits and inode bytes, refines a map from inode numbers to typed, time-stamped
  files.
* **Directories** (`Directory`, `DirectorySlots`, `DirectoryRuns`, `DirectoryHistory`,
  `DirectorySplit`, `DirectoryListing`). The byte format and the loops over it refine an ordered dictionary
  as long as creates append, and so do the replies. Creating a name by splitting an entry never gives the
  intended listing.
* **Marshalling** (`Codec`, `Marshall`). The growing buffer and the reader round-trip
  every argument value and header.

Where the code differs from what it is meant to do, the code is modelled and the
difference is stated as an exact condition: `LockSleepers.ForgetsIffReleaseEnds` (when a
sleeping thread is not woken), `ExtentAttributes.StaleAttrIff` (when cached attributes
outlive a flush), `RpcSystem.FinishCrashes` (when a reply slot
is missing after a timeout), `RpcClientWindow.CopiesIffRepeated` (when the client's list
repeats an xid), `InodeStore.Store.WriteFile` (when the block list or the bitmap
overflows), `DirectoryListing.CreateListsIffAppends` (when a create gives the intended
listing) and `DirectorySplit.CreateKeepsFormat` (when it keeps the byte format).

`dafny verify dfyconfig.toml` checks everything.

## Model

| member | source | states |
|---|---|---|
| `LockServer.LockServerCache.Acquire` | lock_server_cache.cc:40-111 | the section of acquire under the server mutex, on the record of one lock: grant, queue, whom to revoke, and which assertion fails |
| `LockServer.LockServerCache.Release` | lock_server_cache.cc:118-157 | the section of release: free the lock or hand it to the head of the queue |
| `LockClient.LockClientCache.Enter` | lock_client_cache.cc:165-208 | acquire up to its first RPC, sleep or return, and each return from the condition wait |
| `LockClient.LockClientCache.AfterFirstAcquire` | lock_client_cache.cc:177-194 | what the answer to the first acquire RPC does, including a retry that overtook it |
| `LockClient.LockClientCache.Release` | lock_client_cache.cc:251-267 | release up to its RPC: keep the lock cached, or give it back when a revoke is pending |
| `LockClient.LockClientCache.Revoke` | lock_client_cache.cc:318-339 | revoke_handler up to its RPC |
| `LockClient.LockClientCache.RetryCall` | lock_client_cache.cc:372-385 | retry_handler up to its RPC |
| `LockClient.LockClientCache.AfterRpc` | lock_client_cache.cc:189-392 | the closing sections of acquire, release, revoke_handler and retry_handler, with their assertions |
| `LockInvariant.StepKeeps` | lock_client_cache.cc:165-395 | every step of any client, thread or the server from a state of the invariant succeeds and keeps the invariant |
| `LockTheorems.RunNeverCrashes` | lock_client_cache.cc:165-395 | over every run of the service no assertion on either side fails |
| `LockTheorems.MutualExclusion` | lock_client_cache.cc:165-277 | in every reachable state at most one client owns, uses or is giving back the lock, it is the server's holder, and at most one thread of the system is between acquire and release |
| `LockTheorems.QueueIsClean` | lock_server_cache.cc:36-144 | the queue has no duplicates and never the holder; send_rpc holds iff somebody waits; free iff no holder |
| `LockTheorems.QueueStep` | lock_server_cache.cc:61-144 | one step changes the queue only by appending the client told to wait or dropping the head that is granted |
| `LockTheorems.GrantsInOrder` | lock_server_cache.cc:61-144 | over every run the clients told to wait are exactly those granted so far followed by the queue, in order |
| `LockTheorems.NoOvertaking` | lock_server_cache.cc:50-144 | a client becomes holder only if nobody held or waited, or from the head of the queue |
| `LockTheorems.RevokeStep` | lock_server_cache.cc:63-85 | a step sends a revoke exactly when it starts a contention of the present tenure |
| `LockTheorems.OneRevokePerTenure` | lock_server_cache.cc:61-106 | over every run a contended tenure has had exactly one revoke, an uncontended one none |
| `LockProgress.WaitsStep` | lock_server_cache.cc:98-153 | what a held-back answer can wait for is kept by every step: nested callbacks never wait in a circle |
| `LockProgress.SomeoneOwesTheNextMove` | lock_client_cache.cc:184-390 | whenever somebody waits, an activity under way, and not an unsignalled sleeper, can move at once and the number of moves owed falls |
| `LockProgress.HandOverReachable` | lock_server_cache.cc:61-153 | from every contended state moves of activities under way, no unsignalled wake-up among them, reach the next hand-over |
| `LockProgress.EveryWaiterCanBeServed` | lock_server_cache.cc:61-153 | from every reachable state every queued or expected client can get the lock by such moves alone |
| `LockFairness.NoStepUndoesProgress` | lock_client_cache.cc:165-395 | during contention every step of anybody brings the hand-over, or keeps status, holder and the order of the queue and does not raise the number of moves owed |
| `LockFairness.DueStays` | lock_client_cache.cc:165-395 | the owed step is still owed after any other step that does not bring the hand-over nearer |
| `LockFairness.HandOverInevitable` | lock_server_cache.cc:61-153 | in every infinite run with fair scheduling every contention ends with a hand-over |
| `LockFairness.EveryWaiterIsServed` | lock_server_cache.cc:36-153 | no starvation: in every infinite run with fair scheduling every client in the queue becomes the holder |
| `LockFairness.AskingIsHeard` | lock_client_cache.cc:174-177 | in every fair infinite run a thread that moved its client from NONE to ACQUIRING is heard: its client becomes the holder or joins the queue |
| `LockFairness.EnteringIsServed` | lock_client_cache.cc:165-208 | in every fair infinite run, after a thread enters acquire its client becomes the holder, whatever the client's state but RELEASING |
| `LockSleepers.FreeLockIsAcquired` | lock_client_cache.cc:169-182 | from every reachable state with the lock free and unheld at a client, entering acquire, one RPC and its answer end with the thread holding the lock |
| `LockSleepers.OwnedHasNoSleeper` | lock_client_cache.cc:259-262 | in every reachable state a client that keeps the lock cached has no thread asleep without a signal |
| `LockSleepers.ForgetsIffReleaseEnds` | lock_client_cache.cc:263-274 | a step leaves a thread asleep at a client without the lock and with nothing under way, if and only if it ends a release that went to the server while a thread of that client sleeps |
| `LockSleepers.StaysForgotten` | lock_client_cache.cc:198-206 | such a thread sleeps on through every step but a new acquire or an unsignalled return at its client |
| `LockSleepers.SleeperForgotten` | lock_client_cache.cc:263-274 | a run in which a thread is so forgotten |
| `LockObjects.LockService.constructor` | lock_server_cache.cc:28-34 | a fresh server object and no clients are the initial state of the protocol |
| `LockObjects.LockService.Perform` | lock_client_cache.cc:165-395 | from a reachable state every step of the protocol is carried out by one method call on the server or a client object, never fails, and leaves the objects in the next reachable state |
| `LockObjects.LockService.RunSection` | lock_client_cache.cc:45-70 | the client object runs the section its thread is at, and only its record of the lock changes |
| `LockObjects.LockService.ServeRpc` | lock_server_cache.cc:40-157 | the server object executes an RPC and starts its callback |
| `ExtentClient.ExtentCache.Lookup` | extent_client.cc:79-86 | get returns the cached data on a hit |
| `ExtentClient.ExtentCache.Fill` | extent_client.cc:89-96 | get stores the server's answer as a clean entry |
| `ExtentClient.ExtentCache.LookupAttr` | extent_client.cc:44-51 | getattr returns the cached attributes on a hit |
| `ExtentClient.ExtentCache.FillAttr` | extent_client.cc:55-60 | getattr caches the server's answer |
| `ExtentClient.ExtentCache.Put` | extent_client.cc:99-114 | put writes a dirty entry and the cached size, and does not talk to the server |
| `ExtentClient.ExtentCache.Remove` | extent_client.cc:116-137 | remove only marks the entry deleted |
| `ExtentClient.ExtentCache.Flush` | extent_client.cc:139-169 | flush drops the entry and sends remove, put or nothing; attributes are dropped only if there was a data entry |
| `Coherence.RunsStayCoherent` | extent_client.cc:10-169 | over every run of gets, puts, removes and flushes, with a server that has the extent or not: an entry is the last put or marked removed, its client holds the lock and has not begun to flush, and a server copy that is out of date is about to be overwritten or removed |
| `Coherence.EveryGetReturnsTheLastPut` | extent_client.cc:73-114 | in every run without a remove every get at any client returns the data of the last put by any client |
| `Coherence.OnlyTheHolderCaches` | extent_client.cc:139-169 | in every run only the lock holder caches the extent; without a remove its entry is the last put, and a clean one equals the server's copy |
| `Coherence.WritesBackIffPut` | extent_client.cc:159-167 | a flush of an extent that was not removed sends the last put if and only if there was a put since the last flush, else nothing |
| `Coherence.NotRemovedUnasked` | extent_client.cc:159-163 | in every run without a remove the server keeps the extent and is never asked to remove it |
| `Coherence.RemovedIsGoneOrPending` | extent_client.cc:116-163 | once removed, the extent is gone from the server or its removal is pending at the lock holder, and no put of data from before the removal is sent |
| `Coherence.RemovedBeforeReleased` | extent_client.cc:10-163 | once the server no longer has the removing client as lock holder it has no such extent, and never gets it back |
| `Coherence.HolderCanGet` | extent_client.cc:73-97 | a thread with the lock can always complete a get, from its cache or the server, and gets the last put if there was no remove |
| `Coherence.ReleaseCanFlush` | lock_client_cache.cc:54-63 | a release can always finish its flush and be executed, and the flush leaves the server up to date and no entry anywhere |
| `ExtentAttributes.ReadsOwnWrites` | extent_client.cc:38-114 | between a put and the flush get returns the data put and getattr its size, whatever else is called |
| `ExtentAttributes.CachedIff` | extent_client.cc:38-152 | over every run of calls at a client, data is cached iff touched since the last flush, attributes iff known since the last flush that found data |
| `ExtentAttributes.StaleAttrIff` | extent_client.cc:146-152 | after a flush getattr repeats the old attributes if they were known and the data untouched, and asks the server otherwise |
| `RpcClientWindow.XidWindow.UpdateXidRep` | rpc/rpc.cc:387-411 | the in-place insertion and compression computes `Report`, and keeps the list sorted |
| `RpcClientWindow.XidWindow.CompressFront` | rpc/rpc.cc:405-411 | the compress loop computes `Compress` and never pops the element under its iterator |
| `RpcClientWindow.ReportRepresents` | rpc/rpc.cc:387-411 | a report keeps the window standing for the set of reported xids: front = largest n with 1..n reported, above it exactly the reported ones |
| `RpcClientWindow.WindowIsTheReportedSet` | rpc/rpc.cc:387-411 | the same after any sequence of reports, in any order and with repetitions |
| `RpcClientWindow.CopiesAboveFront` | rpc/rpc.cc:387-411 | after any sequence of reports the list holds each xid above its front exactly as often as it was reported |
| `RpcClientWindow.CopiesOfFront` | rpc/rpc.cc:387-411 | it holds its front as often as that xid had been reported when it became the front |
| `RpcClientWindow.CopiesIffRepeated` | rpc/rpc.cc:387-411 | the list repeats an xid if and only if that xid was reported more than once before the front passed it |
| `RpcClientWindow.RepeatedReportsStay` | rpc/rpc.cc:397-410 | a family of runs in which both copies of a repeated xid stay |
| `RpcReplyWindow.ReplyWindow.CheckDuplicateAndUpdate` | rpc/rpc.cc:662-720 | the in-place trim, search and insertion computes `Check`: verdict, new list, freed buffers |
| `RpcReplyWindow.ReplyWindow.FreeAcknowledged` | rpc/rpc.cc:679-691 | the trimming loop frees exactly the buffers below xid_rep and leaves xid_rep at the front |
| `RpcReplyWindow.ReplyWindow.FindOrInsert` | rpc/rpc.cc:693-714 | append, find or insert at the sorted place |
| `RpcReplyWindow.ReplyWindow.RecordReply` | rpc/rpc.cc:727-744 | add_reply fills the slot of the xid; it fails iff there is none or it is filled |
| `RpcReplyWindow.ReplyWindow.FreeReplyWindow` | rpc/rpc.cc:746-760 | every stored buffer of every client is freed once and no list is left |
| `RpcReplyWindow.CheckRefines` | rpc/rpc.cc:662-720 | the trimmed list answers like an unbounded log: forgotten iff at or below the largest acknowledgement, else new iff never executed, else the recorded reply or in progress; and it refines the new log |
| `RpcReplyWindow.AddReplyRefines` | rpc/rpc.cc:727-744 | add_reply finds the slot of a running request iff no acknowledgement beyond it has arrived, and then records it in the log |
| `RpcServerRuns.AtMostOnce` | rpc/rpc.cc:662-744 | over the server's life no request is handed to a handler twice, whatever the client acknowledges |
| `RpcServerRuns.BuffersFreedOnce` | rpc/rpc.cc:679-760 | each stored reply buffer is freed, or still in the list, exactly once |
| `RpcSystem.RequestsNeverCrash` | rpc/rpc.cc:196-215 | under loss, duplication and reordering every delivered request has xid_rep < xid, so the assertion on arrival holds |
| `RpcSystem.PendingIsNeverForgotten` | rpc/rpc.cc:581-643 | a call still pending is never answered FORGOTTEN |
| `RpcSystem.ReturnsItsOnlyExecution` | rpc/rpc.cc:351-385 | the answer a call returns is the recorded result of its execution, which happened exactly once |
| `RpcSystem.FinishCrashes` | rpc/rpc.cc:727-744 | when a handler returns, add_reply fails iff the server has seen an acknowledgement beyond the request |
| `RpcSystem.WithoutTimeoutsNoCrash` | rpc/rpc.cc:286-293 | without timeouts no assertion of the server fails in any run |
| `RpcSystem.SlotDropped` | rpc/rpc.cc:679-691 | accepting a request that acknowledges more than a running one makes the running one's add_reply fail |
| `RpcSystem.TimeoutCanCrash` | rpc/rpc.cc:286-293 | a run with two timeouts in which add_reply fails |
| `RpcCompletion.AnswersAsLogged` | rpc/rpc.cc:581-643 | a delivered request is answered as the log says: refusal if acknowledged, the recorded result if finished, nothing yet if new or running |
| `RpcCompletion.PendingCanComplete` | rpc/rpc.cc:227-385 | from every reachable state, whatever was lost, retransmission, delivery, the handler's return and one reply, as far as still needed, bring a pending call to its recorded result, and it can leave with it |
| `RpcCompletion.OneCall` | rpc/rpc.cc:188-326 | a call sent, delivered, executed and answered once returns the handler's result |
| `RpcCompletion.AcknowledgesExactly` | rpc/rpc.cc:211-214 | in every run the acknowledgement sent next is exact: every call up to it is answered or over, the one after it is waiting |
| `RpcCompletion.EveryCallEnds` | rpc/rpc.cc:227-326 | in every infinite run in which retransmissions and replies are not lost for ever and handlers return, every call times out or returns the result of its only execution |
| `DiskLayout.Regions` | inode_manager.h:47-61 | bitmap blocks, inode table and data blocks are disjoint and in that order |
| `DiskLayout.BitAddress` | inode_manager.h:53-62 | the bit address of a block is in range exactly up to block 4098, and no two blocks share a bit |
| `DiskLayout.WithBlockBit` | inode_manager.cc:45-46 | setting or clearing a bit of a bitmap block changes that bit only |
| `DiskLayout.WithWords` | inode_manager.cc:213-214 | storing words in a block makes them readable there and changes no other word |
| `DiskImage.ImageInode` | inode_manager.cc:202-216 | on the raw bytes, writing one inode record changes that record, no other record, bit or data block |
| `DiskImage.ImageMark` | inode_manager.cc:57-72 | on the raw bytes, changing one bitmap bit changes no other bit, inode or data block |
| `DiskImage.ImageWrite` | inode_manager.cc:19-26 | writing one data block changes no bit and no inode |
| `DiskImage.OneImage` | inode_manager.h:40-67 | a disk determines its inodes, used blocks and data blocks |
| `FileFrame.OtherSame` | inode_manager.cc:274-345 | while an operation runs on one file, every other live file keeps its inode, its blocks and its contents |
| `FileFrame.FrameEnd` | inode_manager.cc:306-342 | writing the inode that lists exactly the blocks held restores the invariant and changes one file |
| `FileFrame.FrameDead` | inode_manager.cc:372-402 | freeing the inode after all its blocks restores the invariant and removes one file |
| `InodeStore.Store.constructor` | inode_manager.cc:101-109 | a formatted disk holds exactly one file, inode 1, an empty directory |
| `InodeStore.Store.AllocBlock` | inode_manager.cc:32-55 | returns and marks the least free data block; runs off the bitmap iff every addressable block is used |
| `InodeStore.Store.FreeBlock` | inode_manager.cc:57-72 | clears exactly that block's bit, for every block whose bit can be addressed |
| `InodeStore.Store.WriteBlock` | inode_manager.cc:19-26 | replaces one block and no other, ignores numbers beyond the disk; on the image, one data block |
| `InodeStore.Store.GetInode` | inode_manager.cc:174-200 | the record of a live inode, nothing for a free or out-of-range one |
| `InodeStore.Store.PutInode` | inode_manager.cc:202-216 | replaces one record and nothing else; says where a number beyond the table lands |
| `InodeStore.Store.FirstFree` | inode_manager.cc:125-145 | the least free inode from 1 on, 0 iff all are live |
| `InodeStore.Store.AllocInode` | inode_manager.cc:113-146 | the least free inode becomes an empty file of the given type and times, others unchanged; a type that is 0 in 16 bits creates no file |
| `InodeStore.Store.FreeInode` | inode_manager.cc:148-169 | marks a live record free and leaves the rest of it |
| `InodeStore.Store.ReadFile` | inode_manager.cc:225-272 | returns exactly the file's bytes; only the atime of a non-empty file changes, no type, contents or other file |
| `InodeStore.Store.GetAttr` | inode_manager.cc:347-370 | the recorded type, size and times; for a live file those of the abstract file, with the length of its contents |
| `InodeStore.Store.ReadBlocks` | inode_manager.cc:244-265 | the copy loop over direct and indirect blocks assembles the contents |
| `InodeStore.Store.WriteFile` | inode_manager.cc:275-345 | for every old and new size: succeeds iff the new size needs at most MAXFILE blocks and enough blocks are free; then exactly this file has exactly the new bytes, its mtime and ctime are stamped, its type and atime stay, and blocks are conserved |
| `InodeStore.Store.Overwrite` | inode_manager.cc:302-304 | rewrites the blocks both sizes share, and not the indirect block |
| `InodeStore.Store.Shrink` | inode_manager.cc:313-321 | gives back exactly the blocks beyond the new size, and the indirect block iff it is no longer needed |
| `InodeStore.Store.Grow` | inode_manager.cc:326-337 | takes exactly the blocks needed, an indirect one first when the file outgrows its direct entries, and stores the block list; fails iff too few are free or the list is full |
| `InodeStore.Store.RemoveFile` | inode_manager.cc:372-402 | removes exactly this file and gives back all its blocks |
| `InodeStore.Store.FreeAll` | inode_manager.cc:388-396 | the loop gives back the indirect block and every data block of the file, and no other |
| `FileAccounting.SpaceConserved` | inode_manager.cc:33-72 | in every valid state free blocks plus the blocks that the file sizes require are the whole region: nothing leaks and nothing is counted twice |
| `Directory.ReadDir` | yfs_client.cc:342-383 | the scan loop returns exactly the live entries of the byte string, or fails when an entry is bad or the scan would not end |
| `Directory.Lookup` | yfs_client.cc:317-339 | finds a name iff it is listed, with the inode number of its first entry |
| `Directory.FindSpot` | yfs_client.cc:294-303 | the loop of create: the end, or the first entry that passes the room test |
| `Directory.Create` | yfs_client.cc:234-315 | create on the bytes of the parent: refuses a listed name, appends, or splits at the offset the source uses |
| `Directory.FindEntry` | yfs_client.cc:493-502 | the loop of unlink: the first live entry with the name |
| `Directory.FindAgrees` | yfs_client.cc:462-502 | the loop of unlink stops at the entry that lookup reported |
| `Directory.Unlink` | yfs_client.cc:438-513 | unlink on the bytes of the parent: refuses unknown names and directories, else blanks the entry |
| `DirectorySlots.ParseFill` | yfs_client.cc:38-97 | parsedir reads back what filldir wrote, wherever it stands |
| `DirectorySlots.SlotChain` | yfs_client.cc:78-97 | a scan over entries laid end to end visits exactly them |
| `DirectoryRuns.StepKeeps` | yfs_client.cc:234-512 | one appending create or one unlink changes the listing exactly as the dictionary operation, keeps names distinct and never fails |
| `DirectoryRuns.BlankLive` | yfs_client.cc:504-507 | blanking an entry removes that pair and no other |
| `DirectoryRuns.RunsAreDictionaries` | yfs_client.cc:27-512 | from newdir, after every run of appending creates and unlinks the listing is the intended dictionary, names are distinct and entries tile the content |
| `DirectoryRuns.ReplyIsRight` | yfs_client.cc:260-481 | on a directory that lists a dictionary, create says EXIST iff the name is listed; unlink says NOENT iff it is not and ENOTEMPTY iff it is listed and a directory |
| `DirectoryRuns.RepliesAreRight` | yfs_client.cc:234-513 | the same against the intended dictionary after every run of appending creates and unlinks |
| `DirectoryHistory.AppendsIffNoLongerNameRemoved` | yfs_client.cc:294-307 | after such a run a create appends if and only if no name more than 12 bytes longer was ever removed |
| `DirectorySplit.SplitBreaks` | yfs_client.cc:296-300 | what a create that splits an entry writes into a directory so built: the content no longer tiles, and is unreadable if the entry before has no name, except behind a 13-byte blank, from which the scan then skips 3085 bytes |
| `DirectorySplit.CreateKeepsFormat` | yfs_client.cc:294-307 | after any run of appending creates and unlinks of C-string names a further create leaves tiled content if and only if it appends, or splits behind a 13-byte blank and the scan tiles from 3085 bytes behind the start of that blank |
| `DirectorySplit.ShortDirectoryKeepsFormatIffAppends` | yfs_client.cc:294-307 | in a directory of less than 3097 bytes: if and only if it appends |
| `DirectorySplit.CreateKeepsFormatFromOld` | yfs_client.cc:294-307 | for names of up to 3060 bytes the condition is one on the content before the call |
| `DirectorySplit.SplitCanTile` | yfs_client.cc:296-300 | a family of runs in which a split behind a 13-byte blank does leave tiled content |
| `DirectorySplit.ShorterNameAfterRemovalFails` | yfs_client.cc:296-300 | create a name, remove it, create one at least 13 bytes shorter: the directory cannot be read any more |
| `DirectoryListing.NotReadAt` | yfs_client.cc:78-97 | wherever a scan starts in a directory so built, it reads no usual entry that is not listed there |
| `DirectoryListing.OddEntry` | yfs_client.cc:78-97 | behind an entry whose length was overwritten, the scan goes on inside the name and reads no usual entry |
| `DirectoryListing.SplitMissesMeaning` | yfs_client.cc:296-300 | after a split the listing is not the intended one |
| `DirectoryListing.CreateListsIffAppends` | yfs_client.cc:234-315 | after any such run, with inode numbers of the store and names of 1 to 255 bytes, a create gives the intended listing if and only if no entry passes the room test |
| `Codec.NumberBack` | rpc/rpc.cc:832-884 | numbers of any width are read back |
| `Codec.HighByteFirst` | rpc/rpc.cc:818-865 | a number on the wire is its bytes in positional notation, high byte first |
| `Codec.TruncatedIsNotOk` | rpc/rpc.cc:906-1006 | a message that ends before its value does never decodes as ok |
| `Codec.RoundTrip` | rpc/marshall.h:211-259 | every value of every type (numbers, strings, pairs, vectors, maps, nested) is decoded to itself and decoding stops right behind it |
| `Marshall.Writer.constructor` | rpc/marshall.h:53-58 | an empty body behind a header-sized gap |
| `Marshall.Writer.RawByte` | rpc/rpc.cc:771-781 | writes at the position, growing the buffer when full; position within capacity; nothing else changes |
| `Marshall.Writer.RawBytes` | rpc/rpc.cc:783-794 | the same for a run of bytes with the other growth rule |
| `Marshall.Writer.PutNumber` | rpc/rpc.cc:818-874 | a number goes out high byte first |
| `Marshall.Writer.Put` | rpc/marshall.h:211-243 | a value of any type is written as its encoding at the position |
| `Marshall.Writer.PutItems` | rpc/marshall.h:211-243 | the loops over vectors and maps write count and items |
| `Marshall.Writer.PackRequestHeader` | rpc/marshall.h:83-96 | the request header goes in front and the body stays as it is |
| `Marshall.Writer.PackReplyHeader` | rpc/marshall.h:98-108 | the reply header goes in front and the body stays as it is |
| `Marshall.Reader.RawByte` | rpc/rpc.cc:906-915 | one byte, or 0 and not ok past the end |
| `Marshall.Reader.Get` | rpc/marshall.h:220-259 | reading a value moves position and ok flag exactly as `Decode` |
| `Marshall.Reader.GetItems` | rpc/marshall.h:220-259 | the loops filling vectors and maps |
| `Marshall.Reader.OkDone` | rpc/rpc.cc:896-904 | true iff everything was read and nothing failed |
| `Marshall.Reader.UnpackRequestHeader` | rpc/marshall.h:175-187 | reads the five fields and stands behind the header |
| `Marshall.Reader.UnpackReplyHeader` | rpc/marshall.h:189-198 | reads the two fields and stands behind the header |
| `Marshall.RequestHeaderBack` | rpc/marshall.h:175-187 | a packed request header is read back |
| `Marshall.ReplyHeaderBack` | rpc/marshall.h:189-198 | a packed reply header is read back |
| `Marshall.Request` | rpc/rpc.cc:188-215 | arguments marshalled first and the header packed in front: the receiver gets both back and nothing is left over |

## Left out

- Lock service: one lock is modelled; each RPC is executed once and answered once; client ids are unique and non-empty (the empty holder id is `None`). Wake-ups meant for other locks on the shared condition variable are covered, since a sleeping thread may return at any time.
- LockFairness.EveryWaiterIsServed: is about clients in the server's queue; which thread of a client gets the lock is open, since threads that wake up compete. Fairness includes that a thread holding the lock calls release.
- LockFairness.EnteringIsServed: leaves out a thread that enters while its client is RELEASING, because it can be forgotten (`LockSleepers.ForgetsIffReleaseEnds`).
- The non-caching lock server and client, `handle_mgr`, `stat`, thread pools, sockets and polling.
- Coherence.EveryGetReturnsTheLastPut: one extent, accessed only by threads that hold its lock. Creating the extent anew after its removal is not modelled, so a put after a remove stays lost.
- ExtentAttributes.StaleAttrIff: is about one client's cache; between clients cached attributes are not coherent, because of the case it states.
- RPC: xids do not wrap around; one server instance; cancel, rebinding and the repetition of remembered old requests (a duplicate, hence covered by the network) are not separate steps.
- InodeStore.Store.WriteFile: promises nothing about the disk when it fails, because the source then writes outside its buffers; `beyond` stands for the memory behind the caller's buffer, from which the source copies the rest of the last block.
- InodeStore.Store.FreeBlock: requires a block whose bit is addressable; for other numbers the source changes bytes outside its buffer.
- Negative sizes and the order of the single field assignments of a record are not modelled.
- DirectoryListing.CreateListsIffAppends: with inode number 0 (no inode left) the intended listing is the old one, which a split can leave; with unbounded names a scan can land inside the new entry.
- Directory.Create: the inode number is a parameter; allocation of the inode, the put of a new directory's content and the locking around it are left out. Names are shorter than 2^30 bytes.
- Directory.Unlink: whether the entry is a directory is a parameter; the early returns that keep the parent lock are not modelled.
- `setattr`, `read` and `write` of yfs_client.cc except writing directory bytes, FUSE glue, and mkdir's own checks.
- Marshall.Reader.RawBytes: a string length within the buffer position of 2^32 makes the bound test of the source wrap around; the model fails there instead.
- Codec.RoundTrip: a map is the list of its entries in key order; the optional checksum in the header is left out.
- Logging, clocks and file times other than as parameters; program entry points and testers.
