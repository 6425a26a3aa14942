# A verified model of the procfs kernel extension

This project models the stateful, concurrent and parsing parts of a macOS procfs kernel extension in
Dafny and proves what they are for. `dafny verify dfyconfig.toml` checks all of it.

| files | what they model |
|---|---|
| `NodeHash`, `NodeCache`, `NodeCacheSteps`, `NodeCacheRuns`, `NodeCacheFinds` | the pfsnode/vnode cache: `procfsnode_find` and reclaim as a step system, one step per segment run under the hash mutex, any number of threads, any interleaving; and what a find returns |
| `CtlBridge`, `CtlBridgeRuns`, `CtlBridgeReplies`, `CtlTable` | the kernel-control request/reply bridge: a step system with timeouts, disconnects, slot reuse and late replies, and the slot table as an array updated in place |
| `Structure`, `StructureInit`, `FileIds`, `Numbers`, `Lookup`, `Agreement`, `Resolution`, `Listings`, `Paths`, `Layout` | the layout tree as it is built at every mount, node ids and file ids, lookup, what readdir shows, and how they fit together |
| `Readdir`, `Paging`, `SysctlReaddir`, `SysctlTree` | listing a directory by pages, the sysctl tree behind /proc/sys and its listing |
| `SbufSpec`, `Sbuf`, `SbufRoom` | the growable string buffer, as a value and as stored on a tracked heap |
| `PhysCopy`, `ProcArgs` | reading user memory through physical pages; the argument region and its parser |
| `LoadAvg` | the load-average sampler |
| `KSyms`, `KLookup` | the staged symbol file, written by the tool and read back with the slide in the kernel |
| `Kcb` | the compare-and-swap reference counter |

Kernel interfaces enter as contracts. `vnode_create` hands out a vnode that is new or fully reclaimed.
`vnode_getwithvid` succeeds exactly when the vnode is live and still has the given vid. Reclaim starts only at
iocount 0, marks the vnode, runs the reclaim operation under the mutex and then bumps the vid.
`pmap_find_phys` is a page map, `ml_phys_read` a function from addresses to bytes, `proc_find` a map from pids,
`uiomove` succeeds, allocations succeed or fail as a parameter says, and a timeout is a step that may happen at
any time, and so is a sleeper's running without a wakeup. `vsnprintf` is given the text it would produce.

Properties that the code does not have are stated as what the code does, with the exact condition.

- A failed `vnode_getwithvid` in a call that holds an unused allocation drops that allocation
  (kext/procfs_node.c:187-197). `AllocationsConserved` shows that nothing else does, and
  `DroppedAllocationIsReachable` gives a run that does.
- A directory of threads or descriptors whose process is gone breaks off with ENOENT (`LostListing`).
- A readdir call without space moves the reader back (`NoSpaceRewinds`), and a directory of threads or
  descriptors never reports its end (`SubsNeverEnd`), although the comment at kext/procfs_vnops.c:661-663 says
  the end-of-file flag is set correctly; that holds for process lists only.
- The base ids of the layout are unique for the first 862 mounts since load. The counter has 16 bits and goes on
  from mount to mount, and the next build gives a node the root's id (`BuildIsUnique`, `LaterBuildCollides`).
- Two nodes can share a file id. Pids below 2^16 have different ids under one base id exactly when the base id is
  below 256 (`PidsShareNoFileId`), and a pid of 2^16 or more can look like an object of another process
  (`WidePidLooksLikeObject`).
- A thread's listed name looks up to that thread exactly when its id is below 2^31 (`ThreadIsFound`);
  `NegativeNameIsLost` and `ThreadLostAtTop` show some that do not.
- A pid is listed in the root exactly when it looks up, the pid list can be allocated and fewer than 1024 visible
  pids come before it (`RootListsWhatItResolves`).
- Names look up that are never listed: other numerals of the same number, pseudo-entries, and text behind a
  descriptor's number (`ResolvesIff`, `SpellingIgnored`, `UnlistedNumeral`, `TrailingTextIgnored`).
- At and below /proc/sys ".." leads to the root of the file system from every level (`SysctlDotDotIsRoot`).
- A reply that carries less than it claims makes the request return what its slot held before (`OwnBytesIffFull`);
  `ShortReplyGivesEarlierByte` gives a run in which that is an earlier request's byte.
- The argument parser inverts the layout exactly when argv[0] is not empty and no environment string starts with
  the key (`ParseInvertsLayout`).
- Under constant load an average that starts below rests up to 12, 60 or 186 units of 1/2048 short of it
  (`ConstantLoadSettles`).

## Model

| member | source | states |
|---|---|---|
| NodeHash.InsertKeepsTable | kext/procfs_node.c:133-154 | inserting a node at the head of its key's bucket keeps every hashed node on the one list its hash selects, each once |
| NodeHash.UnlinkKeepsTable | kext/procfs_node.c:285-290 | removing and freeing a node keeps the table good and removes exactly that node |
| NodeHash.SearchIsComplete | kext/procfs_node.c:98-110 | on a good table the bucket walk finds the node with the key if and only if one is hashed |
| NodeHash.SearchBucket | kext/procfs_node.c:101-109 | the list walk returns the first node of the chain with all four fields equal |
| NodeCacheRuns.StepKeeps | kext/procfs_node.c:72-290 | every step of every thread, of reclaim, of other vnode users and of sleepers that run unasked keeps the cache invariant |
| NodeCacheRuns.RunKeeps | kext/procfs_node.c:72-290 | the invariant holds after any run |
| NodeCacheRuns.OneNodePerKey | kext/procfs_node.c:93-256 | in every reachable state at most one node per mount id and node id is hashed, and the lists hold exactly the hashed nodes, each in its own bucket |
| NodeCacheRuns.ExactlyOneAttacher | kext/procfs_node.c:165-247 | every hashed node has its vnode and no attacher, or no vnode and exactly one attaching thread |
| NodeCacheRuns.NodesKeepStructure | kext/procfs_node.c:144-154 | when all calls for a key name one structure node, every hashed node, in every reachable state, carries the structure node that goes with its key |
| NodeCacheRuns.FindReturnsPair | kext/procfs_node.c:178-256 | a find that succeeded holds a live, hashed node with exactly its key and structure node, linked both ways with the returned live vnode, whose iocount is the number of such finds plus what others hold, whatever reclaim did in between |
| NodeCacheRuns.SleepersAreWatched | kext/procfs_node.c:165-176 | a sleeping thread sleeps on a live hashed node that another thread is attaching with the waiting flag up, and no step frees that node while the thread stays asleep |
| NodeCacheRuns.NoFault | kext/procfs_vnops.c:1134-1163 | no reachable step touches, unlinks or frees anything dead, and no count underflows |
| NodeCacheRuns.RunLeaks | kext/procfs_node.c:187-197 | a run drops an allocation if and only if some vnode get fails in a call that holds an unused one |
| NodeCacheRuns.AllocationsConserved | kext/procfs_node.c:115-271 | allocations equal frees plus live nodes; each live node is hashed, or the unused spare of a call, or dropped, and never two of these; nothing is dropped on runs without the exceptional step |
| NodeCacheRuns.DroppedAllocationIsReachable | kext/procfs_node.c:187-197 | for every hash function there is a run from the empty cache that drops an allocation |
| NodeCacheFinds.CachedIsReturned | kext/procfs_node.c:93-207 | in every reachable state an undisturbed find for a cached key with a live vnode returns that node and vnode with one more iocount, and changes nothing else |
| NodeCacheFinds.AbsentIsCreated | kext/procfs_node.c:111-256 | an undisturbed find for an absent key hashes a new node with the requested key and structure node, links it with the callback's vnode and returns both, with one iocount and one filesystem reference |
| NodeCacheFinds.CreateErrorIsReturned | kext/procfs_node.c:216-247 | if the create callback fails the find returns its error, and lists, nodes and vnodes are as before |
| NodeCacheFinds.NoMemoryIsReturned | kext/procfs_node.c:115-127 | if the allocation fails the find returns ENOMEM and changes nothing |
| NodeCacheFinds.SleeperGetsNode | kext/procfs_node.c:165-256 | in every reachable state, once the thread a sleeper waits for has linked its vnode, the sleeper's next two steps find that node and get that vnode |
| NodeCacheFinds.SleeperStartsOver | kext/procfs_node.c:222-247 | after a failed attach the sleepers are awake and the key is no longer cached |
| NodeCacheFinds.StaleVnodeStartsOver | kext/procfs_node.c:186-197 | a find that loses its vnode does not fail: it goes around for the same key, and allocates anew when the node is gone |
| CtlBridgeRuns.CounterStep | kext/procfs_ctl.c:131-154 | the wrapping counter that skips zero gives the k-th allocation the sequence number k modulo 2^32 - 1, plus one |
| CtlBridgeRuns.SeqOfRepeats | kext/procfs_ctl.c:131-154 | sequence numbers are never 0, and two allocations share one if and only if they are a multiple of 2^32 - 1 apart |
| CtlBridgeRuns.SeqOfWindow | kext/procfs_ctl.c:131-154 | any 2^32 - 1 consecutive allocations get pairwise distinct numbers |
| CtlBridgeRuns.SlotsMatchRequests | kext/procfs_ctl.c:131-199 | in every reachable state slots in use and requests between allocation and release are in one-to-one correspondence, and each such slot carries its request's number |
| CtlBridgeRuns.BusyExactlyWhenFull | kext/procfs_ctl.c:131-154 | EBUSY is returned if and only if all sixteen slots are held; otherwise a slot nobody holds is taken |
| CtlBridgeRuns.DisconnectLeavesNoneWaiting | kext/procfs_ctl.c:63-80 | after a disconnect every slot in use is done and every waiter can go on |
| CtlBridgeRuns.DataCarriesOwnSeq | kext/procfs_ctl.c:83-199 | a request that succeeds was completed by a reply with its own sequence number, and any mix-up is a multiple of 2^32 - 1 allocations away |
| CtlBridgeRuns.ReplyMatchesRequest | kext/procfs_ctl.c:83-199 | while nothing outlives 2^32 - 1 allocations, a request that succeeds was completed by the daemon's answer to that very request, and delivers its first min(len, outcap) bytes if the packet carried them, and what the slot held when it was claimed otherwise |
| CtlBridgeRuns.PendingSeqsDistinct | kext/procfs_ctl.c:131-199 | pending requests have pairwise distinct sequence numbers |
| CtlBridgeRuns.OwnBytesIffFull | kext/procfs_ctl.c:83-199 | for any reply that echoes the number, whatever length its header claims, the bytes delivered are the reply's own if and only if the packet carried all it claimed or the slot happened to hold the same bytes |
| CtlBridgeRuns.ShortReplyGivesEarlierByte | kext/procfs_ctl.c:101-106 | there is a run in which a reply that claims a byte and carries none makes a request return the byte of an earlier request's reply |
| CtlBridgeReplies.ReplyIsReturned | kext/procfs_ctl.c:83-191 | in every reachable state of the window, a reply with a waiting request's number ends that request's wait at once: with the reply's error if it has one, otherwise with the first min(len, 2048, outcap) bytes of the reply, or of what the slot held if the packet is shorter than it claims |
| CtlBridgeReplies.DisconnectIsReported | kext/procfs_ctl.c:63-80 | a request that waits when the daemon goes away fails with ENOTCONN |
| CtlBridgeReplies.SilenceIsReported | kext/procfs_ctl.c:171-191 | a request that stops waiting without an answer fails with ETIMEDOUT |
| CtlBridgeReplies.ReleaseGivesBack | kext/procfs_ctl.c:195-198 | a release keeps the result, frees the request's own slot, and changes no other |
| CtlBridgeReplies.RefusalIsReported | kext/procfs_ctl.c:165-168 | a request the socket refuses fails with the socket's error |
| CtlBridgeReplies.RequestIsSent | kext/procfs_ctl.c:156-166 | a request sends its own query under the non-zero number its slot carries |
| CtlBridgeReplies.AllocationIsClean | kext/procfs_ctl.c:143-151 | a claimed slot is not completed, has no error and no length, and has the next number |
| CtlTable.Table.constructor | kext/procfs_ctl.c:36-61 | the table starts with sixteen free slots, disconnected |
| CtlTable.Table.Disconnect | kext/procfs_ctl.c:63-80 | the in-place loop aborts exactly the pending slots |
| CtlTable.Table.Send | kext/procfs_ctl.c:83-115 | the in-place loop completes at most the first pending slot with the packet's number |
| CtlTable.Table.Allocate | kext/procfs_ctl.c:131-154 | the in-place loop claims the first free slot with the next number, or reports busy and changes no slot |
| CtlTable.Table.Release | kext/procfs_ctl.c:195-198 | releasing a slot frees that slot and no other |
| Structure.AddedKeepsTree | kext/procfs_structure.c:269-300 | adding a node with a new name below a directory without a dynamic child keeps links both ways, flags passed down, distinct sibling names and the dynamic child last; the tree stays well formed if and only if the id is new too |
| Structure.ParentOfChild | kext/procfs_node.c:298-318 | going to a child and computing its parent id returns the directory's id if and only if the directory has a pid only with the process flag and an object only with the thread flag |
| Structure.ChildIsSound | kext/procfs_structure.c:295-299 | children of a node that fits its flags fit theirs |
| Structure.DotDotInvertsLookup | kext/procfs_node.c:298-318 | at any node that fits its flags the parent id of a child is the node's own full id, except exactly below a descriptor entry, which holds an object without the thread flag |
| StructureInit.AdditionReady | kext/procfs_structure.c:269-300 | an addition with the next id whose conditions hold keeps the build going and changes only the parent's child list |
| StructureInit.Builder.AddNode | kext/procfs_structure.c:269-300 | the new node goes to the tail of its parent's children with the parent's process and thread flags added |
| StructureInit.Builder.NewDirectory | kext/procfs_structure.c:302-320 | for every counter value a directory takes the next id and its dot entries the two after it, modulo 2^16; only the parent's children change |
| StructureInit.Builder.Init | kext/procfs_structure.c:72-243 | from every value of the 16-bit counter the initialisation builds, once, 77 nodes with consecutive ids, names, types, flags and parents as recorded, whose root ends in the process entry; it is a well-formed tree if and only if the counter lies between 2 and 2^16 - 75 |
| StructureInit.BuildIsUnique | kext/procfs_structure.c:44-47 | the ids of a build are unique if and only if the counter does not come round to the root's id on the way |
| StructureInit.LaterBuildCollides | kext/procfs_vfsops.c:183-204 | of the builds since load, the first 862 have unique ids and the next one has not |
| StructureInit.Builder.Free | kext/procfs_structure.c:245-259 | freeing the layout leaves the counter where it is |
| StructureInit.Builder.Remount | kext/procfs_vfsops.c:183-204 | after any number of mounts and unmounts the next layout is built from where the counter stopped, well formed exactly under that condition |
| Layout.InitBuildsLayout | kext/procfs_structure.c:72-243 | each of the 77 nodes has the name, type, flags and parent of the documented layout, at its place in the order of building |
| Layout.LeafKinds | kext/procfs_structure.c:86-226 | among the leaves exactly "sys" is the sysctl directory, "curproc" and "self" are links to the caller's process, and "exe", "cwd" and "root" are links of a process |
| Layout.RootPath | kext/procfs_structure.c:86-147 | every leaf of the root is found under its name, at its node |
| Layout.SysPath | kext/procfs_structure.c:140-142 | "sys" leads to the sysctl node directly below the root |
| Layout.ProcFilePath | kext/procfs_structure.c:155-226 | a visible process's number and the name of one of its files lead to that file of that process |
| Layout.DescriptorPath | kext/procfs_structure.c:159-168 | the path of an open descriptor leads to the descriptor entry with that pid and number |
| Layout.ThreadPath | kext/procfs_structure.c:181-190 | the path of a thread with an id below 2^31 leads to the thread entry with that pid and id |
| FileIds.SmallFileIdsDiffer | kext/procfs_subr.c:137-145 | with pids below 2^16, base ids below 2^8 and objects below 2^40, two file ids are equal if and only if pid, object and base id are |
| FileIds.PidsShareNoFileId | kext/procfs_subr.c:137-145 | pids below 2^16 have pairwise different file ids under one base id if and only if the base id is below 256 |
| FileIds.WidePidLooksLikeObject | kext/procfs_subr.c:137-145 | process 65536 has the file id of object 1 of process 0 |
| FileIds.FileIdWithoutPid | kext/procfs_subr.c:137-145 | without a pid the id is the base id plus the low 40 bits of the object above bit 24 |
| Numbers.ParseInt | kext/procfs_subr.c:155-167 | the digit loop returns the 32-bit value of the leading digits, or -1 without any, and where they end |
| Numbers.DecimalReadsBack | kext/procfs_subr.c:155-167 | a printed number is read back, up to 32-bit wrap-around |
| Lookup.GetPids | kext/procfs_subr.c:207-241 | the walk over the pid space returns the first 1024 visible pids in order, and none when the list cannot be allocated |
| Lookup.PidsMembers | kext/procfs_subr.c:219-241 | a pid is among them if and only if there is a list, it is visible and fewer than 1024 visible pids precede it |
| Lookup.WhoSees | kext/procfs_subr.c:513-538 | an unchecked caller sees every process; a checked one sees those with their effective user or group id among the process's effective and real ones, and no others |
| Lookup.MatchChild | kext/procfs_vnops.c:279-413 | the matching loop, with its literal, descriptor, process and thread cases, returns what the ordered scan of the children gives |
| Lookup.LookupName | kext/procfs_vnops.c:200-440 | anything but a directory, and the empty name, give EINVAL; "..", ".", the names of a sysctl directory and every other name resolve as specified, or give ENOENT |
| Agreement.ProcIsFound | kext/procfs_vnops.c:327-379 | the decimal name of a pid looks up if and only if the process exists and is accessible, to the node with that pid |
| Agreement.ThreadIsFound | kext/procfs_vnops.c:327-413 | a thread is found, as itself, under the signed decimal name it is listed with if and only if its id is below 2^31 |
| Agreement.NegativeNameIsLost | kext/procfs_vnops.c:678-685 | the listed name of a thread with an id of 2^63 or more starts with a minus sign and looks up to nothing |
| Agreement.ThreadLostAtTop | kext/procfs_vnops.c:678-685 | thread 2^64 - 2 is listed as "-2", which does not look up |
| Agreement.ListedIsLine | kext/procfs_vnops.c:501-758 | every entry readdir lists comes from a child of the directory and stands for a node |
| Agreement.LineIsListed | kext/procfs_vnops.c:501-758 | every node a child contributes is listed |
| Agreement.ListedIsFound | kext/procfs_vnops.c:279-413 | every listed entry carries the file id of the node it stands for, and its name looks up to that node if and only if it is not a thread with an id of 2^31 or more |
| Resolution.ResolvesIff | kext/procfs_vnops.c:279-413 | a name looks up if and only if it is a dot name, the name of a child in the layout, pseudo-entries included, or one the last child takes: a whole numeral for processes and threads, a leading numeral for descriptors, the exact by-name form |
| Resolution.RootListsWhatItResolves | kext/procfs_vnops.c:618-672 | a pid in 0..99999 is listed in the root if and only if it looks up, the list can be allocated and fewer than 1024 visible pids precede it; with at most 1024 visible processes, if and only if it looks up |
| Resolution.SpellingIgnored | kext/procfs_vnops.c:290-345 | any numeral of a pid, and any name that starts with a numeral of a descriptor, looks up to exactly what the decimal number does |
| Resolution.UnlistedNumeral | kext/procfs_vnops.c:327-345 | "007" looks up to what "7" does and is never listed |
| Resolution.TrailingTextIgnored | kext/procfs_vnops.c:290-322 | "3abc" looks up to what "3" does |
| Listings.DescriptorListing | kext/procfs_vnops.c:707-741 | a descriptor directory lists its layout's entries and then the open descriptors of its process, in table order, each once, by number and with its own file id |
| Listings.DescriptorListed | kext/procfs_vnops.c:707-741 | a number is listed if and only if that descriptor is open |
| Listings.ThreadListing | kext/procfs_vnops.c:671-706 | a thread directory lists its layout's entries and then the threads of its process, in order, each once |
| Listings.ThreadListed | kext/procfs_vnops.c:671-706 | a thread's name is listed if and only if the process has the thread |
| Listings.LostListing | kext/procfs_vnops.c:700-741 | for a process that is gone the plain entries are all that is listed, and the reader at their end gets ENOENT and no end of file |
| Listings.ProcessListing | kext/procfs_vnops.c:618-670 | the root lists its layout's entries and then the listed pids, each once, by number and with its own file id |
| Listings.PidsIncrease | kext/procfs_subr.c:227-237 | the listed pids increase |
| Listings.NameListed | kext/procfs_vnops.c:618-670 | the by-name directory lists a process under its number and command name if and only if there is a list, it is visible and fewer than 1024 visible pids precede it |
| Listings.ListedToWhomItMay | kext/procfs_vnops.c:496-514 | a directory of a process is listed in full to callers with access, and to others it is empty and over at once |
| Resolution.SysctlListedIsFound | kext/procfs_vnops.c:779-833 | with distinct sibling names every entry of a sysctl directory but ".." looks up to a node with the listed file id |
| Paths.MountedRoot | kext/procfs_structure.c:76-79 | the root of the built tree satisfies what the path theorems ask of their start |
| Paths.FindIsSound | kext/procfs_vnops.c:230-345 | every lookup, also of "..", leads to a node whose id fits its flags |
| Paths.PathIsSound | kext/procfs_vnops.c:200-440 | so does every path |
| Paths.SameIdSameNode | include/fs/procfs/procfs.h:209-218 | two paths that end at the same id end at the same node |
| Paths.DotDotReturns | kext/procfs_vnops.c:200-252 | from any node a path reaches outside /proc/sys, looking up a name and then ".." returns that very node if the name leads to a directory, and fails if it leads to a file or a link |
| Paths.SysctlDotDotIsRoot | kext/procfs_vnops.c:233-277 | at and below /proc/sys ".." leads to the root from every level, never to the directory one came from |
| Readdir.Size | kext/procfs_vnops.c:841-846 | an entry's size is a multiple of 8 with room for the fixed part, the name and its terminator, and less than 8 bytes more |
| Readdir.StartOfOff | kext/procfs_vnops.c:471-480 | every offset handed out resumes at its own entry |
| Readdir.Uio.CopyOut | kext/procfs_vnops.c:854-877 | a record is copied whole or not at all |
| Readdir.CopyRun | kext/procfs_vnops.c:630-670 | the inner loop over processes, threads or descriptors continues the listing at its byte offset and is exhausted if and only if every entry has been walked past |
| Readdir.Readdir | kext/procfs_vnops.c:471-771 | a call returns exactly the longest run of entries from the offset that fits, the offset after it, and end of file exactly under a condition on the directory, the offset and the space |
| Paging.PagesAreListing | kext/procfs_vnops.c:462-470 | the pages of any chain of calls that always have space, put together, are the listing from where the reader began, in order, nothing lost or repeated |
| Paging.PagedEqualsOneShot | kext/procfs_vnops.c:462-470 | with space for the next entry in every call, after at most one call per entry the pages equal one listing of everything |
| Paging.PageIsFull | kext/procfs_vnops.c:471-480 | a page holds the names and file ids of the entries from the reader's place on, as many as fit whole and no fewer |
| Paging.SeekoffResumes | kext/procfs_vnops.c:854-877 | each record's seek offset is where the next entry starts, and resuming there goes on with that entry |
| Paging.NoSpaceRewinds | kext/procfs_vnops.c:501-502 | a call keeps the reader's place if and only if it has space or the place is among the entries visited without looking at the space |
| Paging.EofIsTheEnd | kext/procfs_vnops.c:763-768 | end of file is reported only at the end of all entries of all children |
| Paging.ClosedDirectoryEnds | kext/procfs_vnops.c:661-667 | a directory of plain entries and processes reports its end to the first call with space after its last entry |
| Paging.SubsNeverEnd | kext/procfs_vnops.c:671-741 | a directory that lists threads or descriptors never reports its end |
| SysctlReaddir.SysctlReaddir | kext/procfs_vnops.c:779-833 | the same for /proc/sys directories, with end of file exactly when the list ended with space to spare |
| SysctlReaddir.SysctlListedIsFound | kext/procfs_vnops.c:803-825 | with distinct sibling names every listed child is found under its name, with the listed file id |
| SysctlReaddir.SysctlListsChildren | kext/procfs_vnops.c:803-825 | every named child is listed, with the file id of its oid, and nothing but the dot entries and the named children |
| SysctlReaddir.SysctlEnds | kext/procfs_vnops.c:803-833 | the end is reported only when nothing is left, and by the first call with space after everything has been read |
| SysctlTree.Find | kext/procfs_sysctl.c:60-76 | the loop returns the first child with the name, nothing for leaves |
| SysctlTree.ChildAt | kext/procfs_sysctl.c:84-106 | the loop returns the index-th named child, if any |
| SysctlTree.EnumerationAgreesWithFind | kext/procfs_sysctl.c:60-106 | everything find returns is enumerated, and everything enumerated is found if and only if named siblings have distinct names |
| SysctlTree.BuildName | kext/procfs_sysctl.c:111-138 | the recursive loop returns what the ordered depth-first search gives, cut to the output buffer |
| SysctlTree.SearchFindsWay | kext/procfs_sysctl.c:111-138 | a found name is the dotted name of a way down through named nodes to the target, cut at 255 characters |
| SysctlTree.SearchSucceedsIffReachable | kext/procfs_sysctl.c:111-138 | the search succeeds if and only if the target can be reached through named nodes |
| SysctlTree.NamingInvertsWalking | kext/procfs_sysctl.c:60-138 | finding the components of the recovered name one after the other ends at the target |
| SbufSpec.RoundedCovers | kext/lib/sbuf.c:121-147 | the extended size covers the wanted one and is less than twice it or a page beyond it |
| SbufSpec.ApplyKeepsFits | kext/lib/sbuf.c:248-673 | every operation keeps 0 <= length < size <= INT_MAX, failed appends keep the text, fixed buffers keep their size |
| SbufSpec.RunKeepsFits | kext/lib/sbuf.c:94-673 | so does every sequence of operations |
| SbufSpec.BufferHoldsText | kext/lib/sbuf.c:248-673 | after any sequence of operations the buffer holds the successful appends since the last clear, as cut by trim and setpos |
| SbufSpec.OverflowSticks | kext/lib/sbuf.c:399-414 | after a failed append no append succeeds until a clear or finish |
| SbufRoom.SucceedsIff | kext/lib/sbuf.c:121-673 | each operation succeeds exactly under a condition on lengths alone: text is taken when it fits with its terminator, or when the buffer may grow, memory is there and the new length with its terminator is within the largest whole number of pages below 2^31 |
| SbufRoom.FixedTakesWhatFits | kext/lib/sbuf.c:292-414 | a buffer that cannot grow takes text if and only if it is shorter than the space left, and overflows otherwise |
| SbufRoom.GrowingTakesAll | kext/lib/sbuf.c:292-414 | a buffer that can grow takes every text that leaves a page below INT_MAX, if memory is there |
| SbufRoom.CreatesIff | kext/lib/sbuf.c:179-230 | a buffer is created if and only if flags and memory allow and the length is in range; its size is the length asked for, or for a growing one at most a page more |
| SbufRoom.OverflowedIff | kext/lib/sbuf.c:248-673 | after any sequence of calls an overflow is reported if and only if an append has failed, or it was so before, with no clear or finish since |
| Sbuf.ExtendSize | kext/lib/sbuf.c:121-147 | the doubling loop and the page rounding give the specified size, or fail beyond INT_MAX |
| Sbuf.Sbuf.Extend | kext/lib/sbuf.c:292-328 | growth keeps the text, frees the old buffer if and only if it came from the heap, and touches nobody else's memory |
| Sbuf.Sbuf.EnsureCapacity | kext/lib/sbuf.c:367-378 | the capacity is met exactly when the specification says it can be |
| Sbuf.Sbuf.Bcat | kext/lib/sbuf.c:399-414 | appending refines the specification in result, text, size and flags |
| Sbuf.Sbuf.Vprintf | kext/lib/sbuf.c:508-540 | printing refines the specification and formats at most twice |
| Sbuf.Sbuf.Putc | kext/lib/sbuf.c:587-606 | so does putting a character; a nul adds nothing |
| Sbuf.Sbuf.TrimSpace | kext/lib/sbuf.c:608-638 | trimming removes exactly the trailing spaces, tabs and newlines |
| Sbuf.Sbuf.Setpos | kext/lib/sbuf.c:248-256 | the position moves back within the text or not at all |
| Sbuf.Sbuf.Terminate | kext/lib/sbuf.c:667-673 | the terminator goes into the reserved byte behind the unchanged text |
| Sbuf.Sbuf.Delete | kext/lib/sbuf.c:95-105 | everything the buffer owns on the heap is freed, and nothing else |
| Sbuf.New | kext/lib/sbuf.c:179-230 | creation succeeds exactly under the stated condition, leaves the heap as it was if it fails, and gives a valid empty buffer unless the caller's buffer has no bytes |
| Sbuf.Session | kext/lib/sbuf.c:94-673 | over a whole life of any calls the heap ends as it began, every free is of a live block, and the text is what the specification gives |
| PhysCopy.WordByte | kext/procfs_cmdline.c:93-103 | the b-th byte shifted out of an aligned word is the physical byte b places further |
| PhysCopy.ByteOfPage | kext/procfs_cmdline.c:79-111 | a byte is resident if and only if its page is mapped, and is then the byte at the same offset into the frame |
| PhysCopy.CopyUserPhys | kext/procfs_cmdline.c:79-111 | the copy is the longest prefix in consecutive resident pages, byte for byte at any alignment and across the end of the address space, and nothing else changes |
| PhysCopy.ReadPage | kext/procfs_mem.c:154-181 | a round delivers the resident prefix of the rest of the page or of the room |
| PhysCopy.ReadLoop | kext/procfs_mem.c:154-181 | the loop delivers the resident prefix of the whole room, whatever the page boundaries |
| PhysCopy.Domem | kext/procfs_mem.c:112-186 | a read delivers exactly min(resid, prefix) bytes, with EIO if and only if there is room and the first byte is absent, and each refusal before that |
| ProcArgs.Parse | kext/procfs_cmdline.c:187-228 | for every buffer argv, env and apple offsets are in order within it and are those of the three scans |
| ProcArgs.ParseInvertsLayout | kext/procfs_cmdline.c:187-228 | for a laid-out region the offsets are exactly those of its sections if and only if argv[0] is not empty and no environment string starts with the key |
| ProcArgs.SpansAreSections | kext/procfs_cmdline.c:236-250 | the three spans are then the original argv, environment and apple bytes |
| ProcArgs.ReadProcArgs | kext/procfs_cmdline.c:149-229 | reading a process gives the parsed region or the error of the first check that fails |
| ProcArgs.ReadsBelowStack | kext/procfs_cmdline.c:157-185 | what is read ends just below the stack pointer, wrapping at 2^64, and is the longest resident run of at most the argument length without the key and 256 KiB; EINVAL, ENOMEM and EIO exactly when a check, the allocation or the first byte fails |
| ProcArgs.NodesEmitSections | kext/procfs_cmdline.c:294-323 | a region that lies resident in memory with its last byte just below the stack pointer, wrapping at 2^64, and fits the read limit comes out of the three nodes as its argv, environment and apple strings |
| ProcArgs.FlatInjective | kext/procfs_auxv.c:58-60 | the emitted bytes determine the strings |
| LoadAvg.Sampler.Run | kext/procfs_linux.c:530-578 | the sampler's fields become what the sample as a value gives, in 64- and 32-bit arithmetic |
| LoadAvg.SumsAreTotals | kext/procfs_linux.c:536-552 | the two sums are the user, system and nice ticks, and the idle ticks, of all CPUs that report, modulo 2^64 |
| LoadAvg.LoadOfTwoReadings | kext/procfs_linux.c:554-577 | the first reading leaves the averages alone; the second folds in the share of busy ticks among all ticks in between, times the number of CPUs |
| LoadAvg.FoldIsEwma | kext/procfs_linux.c:573-576 | an update lies between the old average and the sample, so no width is exceeded |
| LoadAvg.LoadBounded | kext/procfs_linux.c:566-571 | without 64-bit overflow the load is the busy share times the number of CPUs, at most that number |
| LoadAvg.RunStaysBounded | kext/procfs_linux.c:530-578 | over every run with non-decreasing totals all averages stay in [0, ncpu * FSCALE] |
| LoadAvg.FallsToLoad | kext/procfs_linux.c:573-576 | under constant load an average above falls strictly, never below the load, and reaches it exactly |
| LoadAvg.GapShrinks | kext/procfs_linux.c:573-576 | below the load a gap is kept if and only if it is less than FSCALE / (FSCALE - cexp), and otherwise shrinks |
| LoadAvg.RisesToRest | kext/procfs_linux.c:573-576 | from below an average never overshoots and comes to rest at the smaller of its first gap and the largest kept gap |
| LoadAvg.ConstantLoadSettles | kext/procfs_linux.c:530-578 | after as many samples at one load as an average was away from it, an average that was above is exactly that load, and one below rests at most 12, 60 or 186 units short of it |
| KSyms.FindValue | lib/libklookup/klookup.c:69-105 | the line scan returns the value of the first line that bears the name, or 0 |
| KSyms.OtherNameIsSkipped | lib/libklookup/klookup.c:79-83 | a line is skipped for every other name, also when one name is a prefix of the other |
| KSyms.StagingRoundTrip | tools/procfs_ksyms.c:202-211 | reading the written file gives each symbol its address and every other name 0 |
| KLookup.FirstDefinedIsFirst | tools/procfs_ksyms.c:177-188 | a collected address is that of the first non-zero definition of the name, and 0 means there is none |
| KLookup.Collect | tools/procfs_ksyms.c:176-188 | the nested loops give every wanted name its first definition |
| KLookup.Stage | tools/procfs_ksyms.c:190-211 | the file is written if and only if both anchors are defined, with one line per symbol found |
| KLookup.Resolve | lib/libklookup/klookup.c:111-170 | results are the slid values of the staged names, or all null when the file is missing, has no anchor or does not match |
| KLookup.SlideRecovered | lib/libklookup/klookup.c:146-160 | the slide recovered from the version anchor, modulo 2^64, is the kernel's |
| KLookup.ResolvesToRuntime | lib/libklookup/klookup.c:141-170 | if the kernel moved by one slide, the file is accepted and every staged symbol resolves to its runtime address |
| KLookup.AbsentIsNull | lib/libklookup/klookup.c:157-163 | names that are not staged resolve to null |
| KLookup.MismatchIsRejected | lib/libklookup/klookup.c:146-153 | with a staged kernel_pmap the file is accepted if and only if that anchor moved by the same slide |
| KLookup.NoAnchorIsRejected | lib/libklookup/klookup.c:141-148 | a file without a version anchor is rejected, whatever else is in it |
| KLookup.CountIsStaged | lib/libklookup/klookup.c:157-169 | the count returned is the number of wanted names staged with an address |
| Kcb.CounterCountsHolders | lib/libkext/libkext.c:132-171 | over all interleavings the counter is the number of holders until invalidation, and -1 with no holder afterwards; no assertion of the code fails |
| Kcb.SwapNeedsNoHolder | lib/libkext/libkext.c:150-171 | invalidation takes effect only when nobody holds, and a get reports the holders before it |
| Kcb.InvalidForever | lib/libkext/libkext.c:132-171 | after invalidation the counter stays -1 and no get ever succeeds |
| Kcb.GetSucceeds | lib/libkext/libkext.c:143-146 | in every reachable state a get whose swap follows its load undisturbed holds a reference, however many there are, and returns their number; after invalidation it is refused with -1 |
| Kcb.PutGivesBack | lib/libkext/libkext.c:148-151 | a put takes exactly its own reference away and returns how many there were |
| Kcb.InvalidateSucceeds | lib/libkext/libkext.c:153-158 | an invalidation waits while there is a holder, and takes effect undisturbed when there is none |

## Left out

- The hash macros of the node cache: its theorems hold for every assignment of keys to buckets.
- The vid of a vnode and the counter of `Kcb` are unbounded; their 32-bit wrap-around is not modelled.
- StructureInit.Builder.AddNode, StructureInit.Builder.NewDirectory: size and read functions of nodes are not modelled; the Linux-compatible root files share one kind.
- PhysCopy.CopyUserPhys: `Sane` asks for pages that hold whole words and divide the address space evenly, as powers of two do.
- PhysCopy.Domem, Readdir.Readdir: a failing `uiomove` is not modelled.
- Readdir.Readdir: d_type values are not modelled, nor the node type that marks a structure error and makes the loop run for ever; names are short enough for the 16-bit record length.
- The oid behind an object id is given by a map from addresses; an id that no longer names an oid is not followed.
- KSyms.StagingRoundTrip: the wording of the first comment line is a parameter.
- Sbuf.New: the capacity of a buffer over a caller's block of zero bytes is not followed further; such a buffer is not valid.
- `sbuf_bcpy`, `sbuf_cpy`, `sbuf_cat`, `sbuf_printf` and the accessors: one-line compositions of modelled operations.
- Reading a sysctl value, formatting of every text file, permission modes, timestamps and sizes in getattr: table lookups and printf layouts.
- Mounting, registration, kernelcache decompression, the Mach-O walk, pointer authentication and thread-structure offsets: start-up code and foreign formats.
- Liveness under interference: that the retry loop of a find ends whatever others do, or that a reply arrives in time, is not claimed.
- SbufRoom.SucceedsIff, SbufRoom.CreatesIff: the page size is 16 bytes doubled some number of times, as every page size is.
