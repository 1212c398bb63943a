# Verified models of a FUSE library and a chunk server's job pool

The modules model libfuse 3.10.4 and the job pool of the MooseFS 3.0.115 chunk server: the inode
tree of the high-level library with its hash tables, reference counts and path locks, the record
locks, the slab allocator and the directory pages, the scatter/gather copy, the option parser, the
interrupt protocol, the two worker pools, and the lookup counting of one example filesystem.

Objects that the sources update in place are classes here, and chains of pointers are sequences.
Where threads meet, every section that the source runs under a mutex is one method, and what other
threads can see in between is kept in fields; the predicate `Valid` of the class is then an
invariant of every interleaving. Operations are tied to specification functions, and what these
mean is stated by lemmas. What a system call, an allocation or thread creation reports is a
parameter or an arbitrary value.

| module | models |
|---|---|
| `RecordLocks` | POSIX record locks of an inode: a list of ranges for one lock type per owner and byte |
| `NodeTables` | the linear-hash tables for ids and names, as finite maps |
| `NodeTree` | parent pointers, paths, moving and unlinking nodes, looking paths up |
| `PathBuffers` | building a path from its end to its start in a growing buffer |
| `PathLocks` | the signed lock word of each node, path locks over every interleaving, the wait queue |
| `QueueProgress` | when the head of that queue is served |
| `Interleavings` | path locks over whole runs: what others do between the sections of a request |
| `Deadlock` | two waiters that block each other for ever, and a run that gets there |
| `NodeLifetime` | lookups, names and pins that keep nodes alive; cascading deletion; ids |
| `LockedNodes` | that deleting nodes and holding path locks do not get in each other's way |
| `WholeMount` | counts, tree and path locks as one machine |
| `BufCopy` | `fuse_buf_copy` over memory and descriptors with arbitrary short transfers |
| `Options` | gathering options, the escaped list, in-place unescaping |
| `JobPool` | the job pool of the chunk server: jobs, statuses, the wake-up pipe, the workers |
| `Interrupts` | requests, interrupts, callbacks and who frees what |
| `Paging` | directory records, pages, and reading a directory page by page |
| `Slabs` | the allocator for nodes |
| `Passthrough` | lookup counts of the passthrough example |
| `WorkerLoop` | the counters of the multi-threaded session loop |

Where the code does something other than one would expect, that is stated as it is:

- a rename into the subtree of the moved node is not refused by the tree operations, and moving a
  node there would close a cycle (`NodeTree.MoveKeepsAcyclic`, an equivalence); but the two path
  locks of a rename can never both be taken then (`PathLocks.RenameIsSafe`);
- two waiters can block each other for ever: a writer marks a node that only the head of the queue
  reads through, and the mark keeps the head from its second path. `QueueProgress.HeadServed` says
  exactly when the head is served, `Deadlock.ReachBlocked` is a run that gets there, and by
  `Deadlock.BlockedForever` no later call helps;
- unlinking a node that is not write-locked breaks held paths exactly when somebody reads through it
  (`PathLocks.UnlinkIsSafeWhenUnread`);
- a trailing `--` is meant to be removed by `fuse_opt_parse`, as the comment in the source says, but
  it stays whenever options were gathered, because inserting them shifts the count that it is
  compared with (`Options.TrailingSeparator`, an equivalence, and an example);
- leading empty options vanish from the gathered list (`Options.RoundTrip`, an equivalence), and a
  directory whose next entry is larger than the page ends there for the reader
  (`Paging.ReadsEverything`, an equivalence).

## Model

| member | source | states |
|---|---|---|
| `RecordLocks.Inode.LocksInsert` | source/libfuse-3.10.4/lib/fuse.c:3985-4057 | the new list is canonical and means the old per-byte map with the request written over its range, for every owner; entries of other owners stay as they are, and those of the owner keep their process but for the one that stands for the request; it grows by at most two entries; it fails without effect exactly when spare nodes are needed and missing |
| `RecordLocks.Inode.LocksConflict` | source/libfuse-3.10.4/lib/fuse.c:3959-3970 | returns the first entry of another owner that overlaps with a write lock on either side, or nothing if there is none |
| `RecordLocks.ReportedProcesses` | source/libfuse-3.10.4/lib/fuse.c:4069-4076 | what a get-lock request can report after a grant: an entry of another owner is there exactly if it was there before, and an entry of the owner names the process of the request or is a piece of one that named this process before |
| `RecordLocks.Splice` | source/libfuse-3.10.4/lib/fuse.c:4019-4047 | replacing an entry by what remains of it after a trim, a split or a deletion keeps the list canonical and its meaning outside the request |
| `RecordLocks.Absorb` | source/libfuse-3.10.4/lib/fuse.c:4000-4016 | merging an adjacent or overlapping entry of the same type into the request keeps all meaning |
| `RecordLocks.Contained` | source/libfuse-3.10.4/lib/fuse.c:4004-4006 | a request inside an entry of its own type is already granted |
| `RecordLocks.Finish` | source/libfuse-3.10.4/lib/fuse.c:4048-4057 | where the loop stops, inserting the widened request grants it |
| `RecordLocks.ExcludesMeaning` | source/libfuse-3.10.4/lib/fuse.c:3959-3970 | the search on ranges finds an entry if and only if some byte of the range is held by another owner in an excluding type |
| `RecordLocks.ConflictFreeAfter` | source/libfuse-3.10.4/lib/fuse.c:3959-4057 | granting a request keeps all owners compatible on every byte if and only if it is an unlock or the conflict search found nothing |
| `RecordLocks.CanonicalUnique` | source/libfuse-3.10.4/lib/fuse.c:3985-4057 | two canonical lists with the same per-byte meaning have the same entries |
| `RecordLocks.UnlockAll` | source/libfuse-3.10.4/lib/fuse.c:4078-4108 | the unlock of 0 to the largest offset at a flush removes all entries of its owner and leaves every other owner's entries as they were |
| `RecordLocks.LastRequestWins` | source/libfuse-3.10.4/lib/fuse.c:3985-4057 | over any run of granted requests, what an owner holds on a byte is the type of its last request that covers the byte |
| `RecordLocks.OwnersAreIndependent` | source/libfuse-3.10.4/lib/fuse.c:3985-4057 | an owner's entries depend on its own requests only, however the others interleave |
| `RecordLocks.RunConflictFree` | source/libfuse-3.10.4/lib/fuse.c:3959-4057 | over any run in which every lock was granted after a conflict search without result, no two owners exclude each other |
| `RecordLocks.FlockRoundTrip` | source/libfuse-3.10.4/lib/fuse.c:4059-4076 | the two conversions between `struct flock` and a range undo each other, length 0 standing for the end of the file |
| `NodeTables.NodeTable.Find` | source/libfuse-3.10.4/lib/fuse.c:528-538 | a lookup in the chains is a lookup in the finite map, through every state of division |
| `NodeTables.NodeTable.Insert` | source/libfuse-3.10.4/lib/fuse.c:681-690 | adds one binding to the map; the table stays balanced if memory suffices |
| `NodeTables.NodeTable.Rehash` | source/libfuse-3.10.4/lib/fuse.c:652-679 | one bucket becomes two, and after the last one the table doubles if memory suffices; a table whose doubling failed stays as it is; no binding changes |
| `NodeTables.NodeTable.Divide` | source/libfuse-3.10.4/lib/fuse.c:661-675 | the in-place division of a chain moves exactly the entries whose bucket is now the upper one |
| `NodeTables.NodeTable.Resize` | source/libfuse-3.10.4/lib/fuse.c:635-650 | doubling keeps all bindings and starts a new round of division; a failed realloc changes nothing |
| `NodeTables.NodeTable.Unlink` | source/libfuse-3.10.4/lib/fuse.c:620-633 | removes exactly the binding of this node, if it is there |
| `NodeTables.NodeTable.Subtract` | source/libfuse-3.10.4/lib/fuse.c:627-630 | the entry count follows the bindings, and a balanced table stays balanced through the shrinking it may cause |
| `NodeTables.NodeTable.Remerge` | source/libfuse-3.10.4/lib/fuse.c:594-618 | an undivided table is halved, and then divided buckets are folded back, at most eight and none beyond the first that holds something; no binding changes, and the table stays balanced |
| `NodeTables.NodeTable.FoldBack` | source/libfuse-3.10.4/lib/fuse.c:600-616 | the last divided bucket joins its lower half; whether it was empty is reported |
| `NodeTables.NodeTable.Reduce` | source/libfuse-3.10.4/lib/fuse.c:578-592 | the size is halved exactly if that does not go below the minimum, whatever realloc reports; no binding changes |
| `NodeTables.RemIsRemainder` | source/libfuse-3.10.4/lib/fuse.c:517-526 | what the proofs use as `%` is the remainder of the C operator on unsigned numbers |
| `NodeTables.BucketCases` | source/libfuse-3.10.4/lib/fuse.c:517-526 | the bucket of a key is its remainder by half the size, or by the size once that bucket is divided, and lies among the active ones |
| `NodeTables.BucketResize` | source/libfuse-3.10.4/lib/fuse.c:635-650 | doubling a fully divided table and halving an undivided one move no key |
| `NodeTables.BucketDivide` | source/libfuse-3.10.4/lib/fuse.c:652-679 | advancing `split` moves keys of that bucket only, and only to its upper half |
| `NodeTables.HoldsDivide` | source/libfuse-3.10.4/lib/fuse.c:661-675 | a completed division holds the same map under the new buckets |
| `NodeTables.HoldsMerge` | source/libfuse-3.10.4/lib/fuse.c:600-616 | appending the upper chain to the lower one holds the same map under the old buckets |
| `NodeTables.NewTables` | source/libfuse-3.10.4/lib/fuse.c:4833-4845 | the two tables of a mount start empty, with the two raw hashes |
| `NodeTree.MoveKeepsAcyclic` | source/libfuse-3.10.4/lib/fuse.c:1468-1502 | moving a node keeps the tree without cycles if and only if the new directory is outside its subtree |
| `NodeTree.MoveKeepsPath` | source/libfuse-3.10.4/lib/fuse.c:1468-1502 | a rename leaves the path of every node outside the moved subtree alone |
| `NodeTree.MoveRewritesPrefix` | source/libfuse-3.10.4/lib/fuse.c:1468-1502 | a rename replaces the prefix of every path in the moved subtree by the path of the new directory and the new name |
| `NodeTree.PathSplit` | source/libfuse-3.10.4/lib/fuse.c:943-974 | the path of a node is that of any ancestor followed by the names in between |
| `NodeTree.UnlinkCuts` | source/libfuse-3.10.4/lib/fuse.c:737-763 | unlinking a node leaves no cycle: it only cuts ways up |
| `NodeTree.WalkFinds` | source/libfuse-3.10.4/lib/fuse.c:913-941 | walking names from the root reaches an attached node by the names along its way up, and by no others |
| `NodeTree.LookupPathInCache` | source/libfuse-3.10.4/lib/fuse.c:913-941 | the tokenising loop walks the slash-separated names of the path through the name table |
| `NodeTree.PathRoundTrip` | source/libfuse-3.10.4/lib/fuse.c:913-974 | a path leads to a node if and only if it has the tokens of the path built for the node, for all names that are not empty and have no slash |
| `NodeTree.TokensSnoc` | source/libfuse-3.10.4/lib/fuse.c:925-936 | a slash and a good name at the end of a path add one token |
| `NodeTree.HashNamed` | source/libfuse-3.10.4/lib/fuse.c:794-818 | linking a nameless node below a directory outside its subtree keeps tree and name table in agreement |
| `NodeTree.UnlinkNamed` | source/libfuse-3.10.4/lib/fuse.c:737-763 | taking a name away keeps tree and name table in agreement |
| `NodeTree.DeleteNamed` | source/libfuse-3.10.4/lib/fuse.c:820-832 | freeing a nameless node without children leaves no dangling parent |
| `PathBuffers.PathBuffer.AddName` | source/libfuse-3.10.4/lib/fuse.c:943-974 | puts a slash and the name in front of the text, in bounds, growing the buffer when needed; a failed realloc changes nothing |
| `PathBuffers.PathBuffer.Grow` | source/libfuse-3.10.4/lib/fuse.c:952-967 | the larger buffer holds the same text at its end |
| `PathBuffers.TryGetPath` | source/libfuse-3.10.4/lib/fuse.c:997-1077 | without locks, returns the path of the node, with a last name if asked for, exactly for nodes attached to the root; it lacks memory only if an allocation fails |
| `PathLocks.Mount.TryGetPath` | source/libfuse-3.10.4/lib/fuse.c:997-1077 | locks the way up and the node behind the name exactly when nobody writes or waits on the way and the node is free, and records the path with its name and that node; EAGAIN means that the node is taken or that a writer has or waits for a node below the top of the climb, and ENOENT that neither is so and no way leads to the root; on failure every lock word is as before but for the mark of a waiting writer; it lacks memory only if an allocation fails |
| `PathLocks.AttemptAnswer` | source/libfuse-3.10.4/lib/fuse.c:1024-1077 | with enough memory the answer is determined: the locks exactly if the path is open, EAGAIN exactly if it is busy, and ENOENT exactly if nobody has to be waited for and the climb ends away from the root |
| `PathLocks.BusyIf` | source/libfuse-3.10.4/lib/fuse.c:1038-1056 | once the node behind the name is free, the request has to wait exactly if a node below the top of its climb has a negative word |
| `PathLocks.Mount.Ascend` | source/libfuse-3.10.4/lib/fuse.c:1038-1056 | the climb raises one word per node, and stops at the first writer, cut or failed allocation |
| `PathLocks.Mount.UnlockPath` | source/libfuse-3.10.4/lib/fuse.c:976-995 | its three asserts hold and every word on the way is lowered, a mark without readers being cleared |
| `PathLocks.Mount.UnlockHeld` | source/libfuse-3.10.4/lib/fuse.c:976-995 | releases exactly what was taken for the path, whatever was locked, unlocked or moved in between |
| `PathLocks.Acquire` | source/libfuse-3.10.4/lib/fuse.c:1024-1055 | after taking a path every lock word still says how many read, who writes and whether a writer waits |
| `PathLocks.Release` | source/libfuse-3.10.4/lib/fuse.c:976-995 | for every holder in every state, the asserts hold and the words are right without it |
| `PathLocks.MarkWaiting` | source/libfuse-3.10.4/lib/fuse.c:1028-1030 | a writer that finds readers leaves a mark that keeps the reader count |
| `PathLocks.MarkKeepsReadersOut` | source/libfuse-3.10.4/lib/fuse.c:1028-1051 | a writer that finds readers marks exactly this node, and from then on every request whose way leads through it has to wait |
| `PathLocks.MarkOutlasts` | source/libfuse-3.10.4/lib/fuse.c:983-994 | the mark stays until the last reader of the node gives its path back, and goes then |
| `PathLocks.UnlinkIsSafeWhenUnread` | source/libfuse-3.10.4/lib/fuse.c:737-763 | unlinking a node leaves all held paths in place if and only if its lock word is 0 or says write-locked |
| `PathLocks.Written` | source/libfuse-3.10.4/lib/fuse.c:1034-1054 | a write-locked node is read through by nobody |
| `PathLocks.RenameIsSafe` | source/libfuse-3.10.4/lib/fuse.c:1310-1330 | a request that holds both locks of a rename cannot close a cycle |
| `PathLocks.OnePartlyLocked` | source/libfuse-3.10.4/lib/fuse.c:1130-1138 | a waiter that holds a lock without being done is the head of the queue |
| `PathLocks.Mount.Retry` | source/libfuse-3.10.4/lib/fuse.c:1108-1148 | what the two attempts of a turn did and how it ended: with an error and no lock, with all locks, or waiting on, and then only the first element keeps what it got; other requests keep their locks |
| `PathLocks.Mount.TryFirst` | source/libfuse-3.10.4/lib/fuse.c:1108-1115 | the first path is locked exactly when it can be, memory permitting, with its name and the node behind it |
| `PathLocks.Mount.TrySecond` | source/libfuse-3.10.4/lib/fuse.c:1116-1123 | the same for the second path |
| `PathLocks.Mount.QueueElementUnlock` | source/libfuse-3.10.4/lib/fuse.c:1079-1093 | gives back exactly what the element holds: both paths, if locked, and nothing else |
| `PathLocks.Mount.QueueElementWakeup` | source/libfuse-3.10.4/lib/fuse.c:1095-1149 | the element has had its turn, for one path, two paths or a forget, and is signalled if it is done or its node is free; all other elements and all other locks are as before |
| `PathLocks.TurnEnds` | source/libfuse-3.10.4/lib/fuse.c:1108-1148 | a turn leaves an element waiting only if one of its paths was busy when it was tried, and then it keeps what it got exactly if it is the first; it fails only without memory or for a directory that is cut off with nobody to wait for, and without a lock |
| `PathLocks.CutOffLeaves` | source/libfuse-3.10.4/lib/fuse.c:1108-1148 | a waiter for a directory that is cut off, with nobody to wait for, leaves the queue with ENOENT at its turn |
| `PathLocks.Mount.WakeUpQueued` | source/libfuse-3.10.4/lib/fuse.c:1151-1157 | every waiter gets its turn in order, each on the locks that the one before left; those that failed leave, and requests that are not queued keep their locks |
| `PathLocks.NoWaiterLost` | source/libfuse-3.10.4/lib/fuse.c:1151-1157 | a pass keeps every waiter that did not fail, with its request, behind exactly those that were in front of it and did not fail |
| `PathLocks.Mount.GetPath` | source/libfuse-3.10.4/lib/fuse.c:1213-1234 | locks the path with its name and the node behind it, if it can be locked and no allocation fails; with enough memory it queues the request at the end, without a lock, exactly if the path is busy, and answers ENOENT exactly if the directory is cut off with nobody to wait for |
| `PathLocks.Mount.GetPath2` | source/libfuse-3.10.4/lib/fuse.c:1310-1378 | locks both paths, each with its name and the node behind it, the second on what the first left; or none, and then only the mark of the attempt that failed stays; with enough memory it waits exactly if the first path is busy or the second one is after the first, and answers ENOENT exactly if one of the directories is cut off then; it lacks memory only if an allocation fails |
| `PathLocks.BackToMarks` | source/libfuse-3.10.4/lib/fuse.c:1311-1330 | giving the first path back after the second could not be locked restores all words but for the mark of the second attempt, and that goes too if it only counted the first path |
| `PathLocks.GivenBack` | source/libfuse-3.10.4/lib/fuse.c:1397-1408 | two paths that were locked one after the other and are given back leave the holders and all words as they were before, whatever became of the nodes |
| `PathLocks.Mount.FreePath` | source/libfuse-3.10.4/lib/fuse.c:1380-1395 | exactly this path is given back, and then the queue has its pass on what is left; requests that are not queued keep their locks |
| `PathLocks.Mount.FreePath2` | source/libfuse-3.10.4/lib/fuse.c:1397-1408 | exactly these two paths are given back, and then the queue has its pass on what is left; requests that are not queued keep their locks |
| `PathLocks.Mount.DequeuePath` | source/libfuse-3.10.4/lib/fuse.c:1191-1198 | an element leaves the queue; the order of the others stays |
| `PathLocks.Mount.AwaitUnlocked` | source/libfuse-3.10.4/lib/fuse.c:1423-1440 | the wait of a forget: it goes on only if its node keeps lookups or nobody holds it, and otherwise stays in the queue, without a lock; once it goes on nobody reads through the node or writes it |
| `PathLocks.Mount.UnhashNode` | source/libfuse-3.10.4/lib/fuse.c:737-763 | the tree and the name table lose the link of the node; all held paths stay if and only if nobody reads through it |
| `PathLocks.Mount.HashNode` | source/libfuse-3.10.4/lib/fuse.c:794-818 | with the node unread, it gets its link and every held path stays |
| `PathLocks.Mount.NewNode` | source/libfuse-3.10.4/lib/fuse.c:880-904 | a new child disturbs no held path |
| `PathLocks.Mount.RenameNode` | source/libfuse-3.10.4/lib/fuse.c:1468-1502 | with both paths locked, the tree is moved exactly as asked for, and all held paths stay; the write-locked nodes are still behind their names, as the locks alone guarantee |
| `PathLocks.Mount.RemoveNode` | source/libfuse-3.10.4/lib/fuse.c:1457-1466 | with the path locked, the node behind the name is unlinked, and all held paths stay |
| `PathLocks.LockedNode` | source/libfuse-3.10.4/lib/fuse.c:1024-1034 | the node behind the name of a locked path is the one that was write-locked, nobody reads through it, and nobody else writes it, until its holder moves it |
| `PathLocks.Mount.Rename` | source/libfuse-3.10.4/lib/fuse.c:3084-3107 | a whole rename request, when nothing runs in between: locks, the change of the tree, and the queue's pass on exactly the locks that were held before |
| `PathLocks.Mount.DeleteNode` | source/libfuse-3.10.4/lib/fuse.c:820-832 | freeing an unlocked, nameless, childless node disturbs no held path, and no waiter that does not name it |
| `QueueProgress.HeadServed` | source/libfuse-3.10.4/lib/fuse.c:1130-1138 | if only the head of the queue holds locks and its directories are joined to the root, its turn ends with both locks, memory permitting, if and only if its two paths are apart and no waiting writer has marked a node on both |
| `QueueProgress.SingleServed` | source/libfuse-3.10.4/lib/fuse.c:1130-1138 | under the same conditions a head that wants one path is served |
| `QueueProgress.StuckAllowed` | source/libfuse-3.10.4/lib/fuse.c:1311-1317 | a head and a writer behind it, in a state that all invariants allow, with paths that are apart |
| `QueueProgress.StuckWaiters` | source/libfuse-3.10.4/lib/fuse.c:1028-1050 | in that state a pass with enough memory changes nothing: the writer's mark keeps the head from its second path, and the head's lock keeps the writer waiting |
| `Deadlock.ReachBlocked` | source/libfuse-3.10.4/lib/fuse.c:1310-1408 | a run of calls from a new mount that ends with two requests that block each other |
| `Deadlock.BlockedStays` | source/libfuse-3.10.4/lib/fuse.c:1024-1157 | no call of any thread helps two such requests, as long as no allocation fails |
| `Deadlock.BlockedForever` | source/libfuse-3.10.4/lib/fuse.c:1024-1157 | so they are blocked in every later state of every run |
| `Interleavings.Perform` | source/libfuse-3.10.4/lib/fuse.c:976-1533 | every call of a mount is a step of the machine over which runs are stated, and leaves a sound state |
| `Interleavings.OthersKeepRun` | source/libfuse-3.10.4/lib/fuse.c:1213-1408 | over any run of calls of other requests, what a request has locked stays exactly as it was |
| `Interleavings.RenameFindsItsNodes` | source/libfuse-3.10.4/lib/fuse.c:3084-3101 | whatever others do between locking the two paths and `rename_node`, the paths given to the filesystem are still those of the two names, and the nodes behind them are the locked ones |
| `Interleavings.RenameGivesBack` | source/libfuse-3.10.4/lib/fuse.c:3100-3106 | whatever others do between `rename_node` and `free_path2`, the two paths can be given back as they were got |
| `NodeLifetime.Fuse.UnrefNode` | source/libfuse-3.10.4/lib/fuse.c:834-840 | drops one reference: nodes and names change exactly as the specification of the cascade says, and all counts stay right |
| `NodeLifetime.Fuse.DeleteNode` | source/libfuse-3.10.4/lib/fuse.c:820-832 | the mutual recursion with unhashing ends, and deletes the node and the ancestors that it alone kept |
| `NodeLifetime.Fuse.UnhashName` | source/libfuse-3.10.4/lib/fuse.c:737-763 | the node loses its name and its parent one reference, with what follows from that |
| `NodeLifetime.ReapsExactly` | source/libfuse-3.10.4/lib/fuse.c:820-840 | dropping a last reference deletes exactly the run of ancestors that this leaves without one; the next ancestor loses one reference and nothing else changes |
| `NodeLifetime.ReapsNames` | source/libfuse-3.10.4/lib/fuse.c:737-763 | the deleted nodes lose their names and no other name goes |
| `NodeLifetime.ReapsSpares` | source/libfuse-3.10.4/lib/fuse.c:834-840 | a node with lookups is never among the deleted |
| `NodeLifetime.ReapsAlive` | source/libfuse-3.10.4/lib/fuse.c:820-840 | whatever a cascade deletes, all counts, names and parents that are left fit together |
| `NodeLifetime.Fuse.FindNode` | source/libfuse-3.10.4/lib/fuse.c:874-911 | one more lookup on the named child, or a new child with a fresh id and one lookup, or no change when memory is missing; in every state a node counts the lookups that were given out for it and not given back; the pair of id and generation goes to the end of those issued, and the counter only moves forward |
| `NodeLifetime.Fuse.IncLookup` | source/libfuse-3.10.4/lib/fuse.c:867-872 | one more lookup is given out for the node and counted by it; the first takes one reference |
| `NodeLifetime.Fuse.HashName` | source/libfuse-3.10.4/lib/fuse.c:794-818 | links a nameless node and takes one reference on its directory, unless a long name cannot be copied |
| `NodeLifetime.Fuse.ForgetNode` | source/libfuse-3.10.4/lib/fuse.c:1410-1446 | so many lookups are given back and no more counted; the last one drops the reference that all lookups share |
| `NodeLifetime.TalliedForgotten` | source/libfuse-3.10.4/lib/fuse.c:1438-1439 | a node counts as many lookups as are out for it, before and after some are given back |
| `NodeLifetime.TalliedReaps` | source/libfuse-3.10.4/lib/fuse.c:820-840 | whatever a cascade deletes, nobody had lookups on it, so every lookup that is out is still counted by a living node |
| `NodeLifetime.Fuse.PinDot` | source/libfuse-3.10.4/lib/fuse.c:2694-2716 | a lookup of "." holds one more reference on its node while it runs |
| `NodeLifetime.Fuse.UnpinDot` | source/libfuse-3.10.4/lib/fuse.c:2734-2738 | the end of such a lookup drops the reference, with the deletions that this causes |
| `NodeLifetime.Fuse.RemoveNode` | source/libfuse-3.10.4/lib/fuse.c:1457-1466 | the entry goes, with the ancestors that this leaves without a reference; unknown names change nothing |
| `NodeLifetime.Fuse.RenameNode` | source/libfuse-3.10.4/lib/fuse.c:1468-1502 | the node has the new name and no longer the old one, a node that had it is unlinked, other names stay unless their nodes are deleted; busy and out-of-memory results exactly when the code gives them |
| `NodeLifetime.Fuse.ExchangeNode` | source/libfuse-3.10.4/lib/fuse.c:1504-1533 | two entries change places, either of which may be missing, and no other entry changes; no node is deleted; a failure leaves the old entry unnamed |
| `NodeLifetime.ExchangedTwice` | source/libfuse-3.10.4/lib/fuse.c:1504-1533 | exchanging twice restores the name table |
| `NodeLifetime.HashedTwice` | source/libfuse-3.10.4/lib/fuse.c:1504-1533 | exchanging an entry with itself would hash its node twice, and then the directory's count is wrong |
| `NodeLifetime.DirectoryStays` | source/libfuse-3.10.4/lib/fuse.c:737-763 | the directory outlives its entry if and only if it has another reference, which a lookup guarantees |
| `NodeLifetime.Fuse.NextId` | source/libfuse-3.10.4/lib/fuse.c:842-851 | ends when an id is free, returns neither 0 nor 0xffffffff nor a live id, and (generation, id) grows until the generation wraps |
| `NodeLifetime.NoPairRepeats` | source/libfuse-3.10.4/lib/fuse.c:842-885 | over any run, no two nodes get the same pair of generation and id while the generation has not wrapped |
| `NodeLifetime.FreeId` | source/libfuse-3.10.4/lib/fuse.c:842-851 | fewer nodes than ids leave a free id |
| `LockedNodes.ReapingSparesLocks` | source/libfuse-3.10.4/lib/fuse.c:820-840 | if every node that a request under way names has a lookup, dropping a reference deletes only nodes whose lock word is 0, so the assert of `delete_node` holds for the whole run, and every locked path keeps its chain and its text |
| `LockedNodes.DoomedUnread` | source/libfuse-3.10.4/lib/fuse.c:820-840 | no locked path runs through a node of the run that a last reference deletes |
| `LockedNodes.OnlyChild` | source/libfuse-3.10.4/lib/fuse.c:809-840 | a node of that run has no named child but the node of the run below it |
| `LockedNodes.ForgottenIsNotNamed` | source/libfuse-3.10.4/lib/fuse.c:1423-1443 | when the wait of `forget_node` is over, no request under way names a node that loses its last lookup |
| `LockedNodes.ForgetSparesLocks` | source/libfuse-3.10.4/lib/fuse.c:1423-1446 | after its wait, a forget deletes only nodes whose lock word is 0, and every locked path stays |
| `LockedNodes.UnhashSparesLocks` | source/libfuse-3.10.4/lib/fuse.c:737-763 | unhashing a node that nobody reads through deletes only ancestors whose lock word is 0, and every locked path stays |
| `LockedNodes.RenameSparesLocks` | source/libfuse-3.10.4/lib/fuse.c:1483-1495 | the same for the steps of a rename, over an existing name or not |
| `WholeMount.StepKeeps` | source/libfuse-3.10.4/lib/fuse.c:737-1533 | every change of counts, names, nodes and locks keeps all three in agreement; every node that a request names keeps a lookup, and whatever is deleted has the lock word 0, as `delete_node` asserts |
| `WholeMount.RunKeeps` | source/libfuse-3.10.4/lib/fuse.c:737-1533 | so it is in every state of every run |
| `WholeMount.LockedUnhashable` | source/libfuse-3.10.4/lib/fuse.c:1457-1495 | `remove_node` and `rename_node` unhash nodes only as such a step may |
| `WholeMount.LockedHashable` | source/libfuse-3.10.4/lib/fuse.c:1483-1495 | after that, `rename_node` can hash the node: the locked way up from the new directory avoids it |
| `BufCopy.Machine.BufCopy` | source/libfuse-3.10.4/lib/buffer.c:284-324 | the bytes that arrive are the first bytes of the source stream, as many as the result says, and none on an error; the result is the smaller of the two remainders, and a vector has come to its end, exactly if no read or write was cut short (it moved less than it was asked for and, with the retry flag, nothing); otherwise it is less, an error is that of the last call, and 0 means that the last call moved nothing; the source cursor advances by the result, and the destination cursor too unless the source ends first |
| `BufCopy.Machine.Turn` | source/libfuse-3.10.4/lib/buffer.c:292-321 | one turn of the loop moves both cursors by what was transferred; it goes on unless a vector is at its end or a call was cut short, and never after one that was |
| `BufCopy.Machine.CopyOne` | source/libfuse-3.10.4/lib/buffer.c:227-255 | one buffer to another: memcpy only on regions that do not overlap, and the same result for all four kinds; the whole length comes through exactly if no call was cut short |
| `BufCopy.Machine.FdToFd` | source/libfuse-3.10.4/lib/buffer.c:110-158 | through the array on the stack, a prefix of the source arrives, all of it exactly if no call was cut short; bytes read but not written end the copy, are at most the size of the array, and are skipped in a source that is a stream |
| `BufCopy.Machine.Chunk` | source/libfuse-3.10.4/lib/buffer.c:124-157 | one read into the array and the write of what was read |
| `BufCopy.Machine.Repeat` | source/libfuse-3.10.4/lib/buffer.c:42-108 | the retry loops of reading and writing: a prefix arrives, all of it exactly if no call was cut short; with the retry flag less arrives only if the last call moved nothing or failed, and without it there is one call; an error after some bytes is not reported, and one before any is |
| `BufCopy.BufVec.Advance` | source/libfuse-3.10.4/lib/buffer.c:265-282 | moves the cursor by a length, to the next buffer at the end of one; its asserts hold |
| `BufCopy.BufVec.Size` | source/libfuse-3.10.4/lib/buffer.c:22-35 | the total size, if it fits below SIZE_MAX |
| `BufCopy.SlotsStep` | source/libfuse-3.10.4/lib/buffer.c:265-282 | advancing cursor and stream drops exactly the first bytes of what a vector offers |
| `BufCopy.SlotAt` | source/libfuse-3.10.4/lib/buffer.c:42-108 | where each byte of a vector lies: behind the address of its buffer, behind the position of its buffer, or in a stream behind what the earlier buffers of the vector take of it |
| `BufCopy.StreamedTwice` | source/libfuse-3.10.4/lib/buffer.c:292-321 | two copies in a row are one copy, if no destination byte is a later source byte |
| `BufCopy.StreamedThrough` | source/libfuse-3.10.4/lib/buffer.c:128-145 | copying through the array is a copy |
| `BufCopy.BothStep` | source/libfuse-3.10.4/lib/buffer.c:315-317 | after a complete transfer both vectors offer the rest, if they share no stream |
| `Options.FuseOptParse` | source/libfuse-3.10.4/lib/fuse_opt.c:398-423 | the arguments become the first one, one -o with the gathered list, and the others in order; a last -o without a group is the only error and changes nothing |
| `Options.ParseContext.OptParse` | source/libfuse-3.10.4/lib/fuse_opt.c:371-396 | the context's arguments become the first one, the gathered list and the others, or a missing argument is reported |
| `Options.ParseContext.ProcessOne` | source/libfuse-3.10.4/lib/fuse_opt.c:348-369 | how each kind of argument changes the context |
| `Options.ParseContext.ProcessRealOptionGroup` | source/libfuse-3.10.4/lib/fuse_opt.c:294-332 | the in-place unescaping adds exactly the options that the group encodes; the write cursor never passes the read cursor |
| `Options.ParseContext.ProcessToken` | source/libfuse-3.10.4/lib/fuse_opt.c:306-310 | the token in front of the write cursor is added, up to its first NUL |
| `Options.AddOptCommon` | source/libfuse-3.10.4/lib/fuse_opt.c:115-137 | writes the escaped option behind a comma into the space that was reserved for it |
| `Options.ParseContext.InsertArg` | source/libfuse-3.10.4/lib/fuse_opt.c:79-98 | inserts an argument at a position |
| `Options.ParseTwice` | source/libfuse-3.10.4/lib/fuse_opt.c:371-396 | a second parse succeeds and changes nothing |
| `Options.RoundTrip` | source/libfuse-3.10.4/lib/fuse_opt.c:115-152 | unescaping the gathered list gives the options back if and only if the list does not start with an empty option followed by another |
| `Options.LeadingEmptyVanishes` | source/libfuse-3.10.4/lib/fuse_opt.c:117-127 | an input for which they are not: an empty option in front of another is lost |
| `Options.DecodeAddAll` | source/libfuse-3.10.4/lib/fuse_opt.c:115-152 | unescaping gives the gathered options without leading empty ones, for every list |
| `Options.Gathered` | source/libfuse-3.10.4/lib/fuse_opt.c:115-152 | gathering the options of a gathered list gives the same list |
| `Options.SplitEscape` | source/libfuse-3.10.4/lib/fuse_opt.c:129-133 | an escaped option is read back whatever follows it, octal-looking digits included |
| `Options.OctalRoundTrip` | source/libfuse-3.10.4/lib/fuse_opt.c:313-320 | a backslash and the three octal digits of any byte are read as that byte, whatever follows |
| `Options.OthersParse` | source/libfuse-3.10.4/lib/fuse_opt.c:348-369 | the arguments that are kept contain no group and parse as themselves |
| `Options.TrailingSeparator` | source/libfuse-3.10.4/lib/fuse_opt.c:388-393 | a trailing separator stays if and only if options were gathered |
| `Options.SeparatorStaysBehindOptions` | source/libfuse-3.10.4/lib/fuse_opt.c:388-393 | an input for which it stays |
| `JobPool.Conservation` | source/moosefs-3.0.115/mfschunkserver/bgjobs.c:258-481 | every job is in exactly one place, once: with its submitter, queued, with a worker, or with its status waiting |
| `JobPool.NothingLost` | source/moosefs-3.0.115/mfschunkserver/bgjobs.c:258-605 | when all threads rest and all statuses are taken, every job was refused or has had its status delivered |
| `JobPool.Pool.NewJob` | source/moosefs-3.0.115/mfschunkserver/bgjobs.c:433-452 | a record with the next id enters the hash table |
| `JobPool.Pool.Decide` | source/moosefs-3.0.115/mfschunkserver/bgjobs.c:453-478 | the limit and the mode decide between taking back, reporting and queueing |
| `JobPool.Pool.TakeBack` | source/moosefs-3.0.115/mfschunkserver/bgjobs.c:454-472 | the refused job leaves the table and is freed; no worker uses it |
| `JobPool.Pool.ReportError` | source/moosefs-3.0.115/mfschunkserver/bgjobs.c:474 | the error status goes straight to the status queue |
| `JobPool.Pool.EnqueueJob` | source/moosefs-3.0.115/mfschunkserver/bgjobs.c:477 | the job goes to the end of the job queue |
| `JobPool.Pool.GetTask` | source/moosefs-3.0.115/mfschunkserver/bgjobs.c:269 | a free worker gets the first job of the queue |
| `JobPool.Pool.TakeUp` | source/moosefs-3.0.115/mfschunkserver/bgjobs.c:272-290 | the job is in progress from now on unless it was disabled; the last free worker spawns another one if the limit allows |
| `JobPool.Pool.Finish` | source/moosefs-3.0.115/mfschunkserver/bgjobs.c:291-398 | a disabled job is not carried out; the status of the job is sent once |
| `JobPool.Pool.Rest` | source/moosefs-3.0.115/mfschunkserver/bgjobs.c:399-406 | the worker waits again, or ends if more than the idle limit are free |
| `JobPool.Pool.Mark` | source/moosefs-3.0.115/mfschunkserver/bgjobs.c:545-574 | after disabling no record with the id is enabled, one in progress stays so, and those that were enabled are from now on jobs that were disabled in time; a callback is replaced exactly in the record with the id; nothing else changes |
| `JobPool.DisabledIsNotDone` | source/moosefs-3.0.115/mfschunkserver/bgjobs.c:272-398 | over every run, a job that was disabled before a worker took it up is never carried out, and if it is one of the real operations its worker sends that it was not done, which is the status that waits for the main thread |
| `JobPool.Pool.Unlink` | source/moosefs-3.0.115/mfschunkserver/bgjobs.c:455-469 | the walk along the chain finds and frees exactly the record with the id |
| `JobPool.Pool.BeginCheck` | source/moosefs-3.0.115/mfschunkserver/bgjobs.c:576-583 | starts when the pipe can be read, which means that a status waits |
| `JobPool.Pool.CheckOne` | source/moosefs-3.0.115/mfschunkserver/bgjobs.c:584-603 | the first status, which is the one that the worker has sent if one has, goes to the callback of its job, at most once, and the job is freed while no worker uses it |
| `JobPool.Pool.SendStatus` | source/moosefs-3.0.115/mfschunkserver/bgjobs.c:187-195 | the pipe holds one byte exactly when a status waits |
| `JobPool.Pool.ReceiveStatus` | source/moosefs-3.0.115/mfschunkserver/bgjobs.c:197-209 | the last status empties the pipe |
| `JobPool.StaffedBusy` | source/moosefs-3.0.115/mfschunkserver/bgjobs.c:450 | total minus available is the number of workers that are busy |
| `JobPool.StaffedStart` | source/moosefs-3.0.115/mfschunkserver/bgjobs.c:278-281 | taking a job up keeps the limit, and some worker free below it unless one could not be created |
| `JobPool.StaffedRest` | source/moosefs-3.0.115/mfschunkserver/bgjobs.c:399-405 | a worker that ends leaves at least one, with an idle limit of at least one |
| `JobPool.HashedRemove` | source/moosefs-3.0.115/mfschunkserver/bgjobs.c:458-469 | unlinking a record keeps every other one in the chain of its id |
| `Interrupts.FuseSession.Arrive` | source/libfuse-3.10.4/lib/fuse_lowlevel.c:2625-2636 | the request is listed, and marked as interrupted exactly if an interrupt with its id was waiting; that interrupt is consumed, with this request as its fate; otherwise the first waiting interrupt is handed out to be answered EAGAIN; nothing else changes |
| `Interrupts.FuseSession.CheckInterrupt` | source/libfuse-3.10.4/lib/fuse_lowlevel.c:1747-1768 | the waiting interrupt for the request is consumed, or the first one is handed out |
| `Interrupts.FuseSession.Interrupt` | source/libfuse-3.10.4/lib/fuse_lowlevel.c:1688-1744 | an interrupt holds its listed request, or waits, or is dropped because another one, which is recorded, was waiting for the same request |
| `Interrupts.FuseSession.Mark` | source/libfuse-3.10.4/lib/fuse_lowlevel.c:1699-1704 | the request is marked and its callback read |
| `Interrupts.FuseSession.Call` | source/libfuse-3.10.4/lib/fuse_lowlevel.c:1705-1708 | the callback that was read runs, under the lock of the request |
| `Interrupts.FuseSession.Release` | source/libfuse-3.10.4/lib/fuse_lowlevel.c:1710-1716 | the request is destroyed here exactly if its owner has freed it and no other handler holds it |
| `Interrupts.FuseSession.Free` | source/libfuse-3.10.4/lib/fuse_lowlevel.c:130-145 | the owner's reference goes; the request is destroyed unless a handler holds it |
| `Interrupts.FuseSession.Register` | source/libfuse-3.10.4/lib/fuse_lowlevel.c:2437-2441 | the callback is replaced while no handler is about to run the old one |
| `Interrupts.FuseSession.FinishRegister` | source/libfuse-3.10.4/lib/fuse_lowlevel.c:2442-2444 | a request that is interrupted already has its callback run |
| `Interrupts.FuseSession.Answer` | source/libfuse-3.10.4/lib/fuse_lowlevel.c:2634-2635 | the interrupt that was sent back is destroyed once |
| `Interrupts.CallbacksRun` | source/libfuse-3.10.4/lib/fuse_lowlevel.c:1688-1708 | whenever the request is not locked, being interrupted and having a callback means that the callback has run |
| `Interrupts.EveryInterruptEnds` | source/libfuse-3.10.4/lib/fuse_lowlevel.c:1688-1768 | an interrupt is waiting, being handled or being answered, and none waits for a listed request; once gone it has marked a request with its id, was a duplicate of an earlier one with its id, or was handed out to be sent back |
| `Interrupts.Arrives` | source/libfuse-3.10.4/lib/fuse_lowlevel.c:1747-1768 | at most one interrupt waits for a request that arrives, and taking it up, sending the first one back or neither keeps every invariant |
| `Interrupts.Releases` | source/libfuse-3.10.4/lib/fuse_lowlevel.c:1710-1716 | destroying a request leaves no list and no handler with it, and neither address was destroyed before |
| `Interrupts.Frees` | source/libfuse-3.10.4/lib/fuse_lowlevel.c:130-145 | the owner's freeing of a request destroys it only if no handler holds it, and only once |
| `Interrupts.WaitingTaken` | source/libfuse-3.10.4/lib/fuse_lowlevel.c:1747-1767 | taking one waiting interrupt leaves none with the same target |
| `Interrupts.CountedReleased` | source/libfuse-3.10.4/lib/fuse_lowlevel.c:1710-1714 | the count of a request is its place in the list plus its handlers |
| `Paging.ReadsEverything` | source/libfuse-3.10.4/lib/fuse.c:3674-3716 | asking for page after page gives the whole directory in order and once if and only if every record fits a page |
| `Paging.LargeEntryHidesTheRest` | source/libfuse-3.10.4/lib/fuse.c:3690-3716 | an input for which the listing ends early: an entry larger than the page hides a smaller one behind it |
| `Paging.ReadsUpTo` | source/libfuse-3.10.4/lib/fuse.c:3674-3716 | asking for page after page gives the entries up to the first one whose record does not fit a page, in order and once |
| `Paging.DecodePage` | source/libfuse-3.10.4/include/fuse_kernel.h:764-768 | walking the records of a page gives the entries that fit, each with the offset behind it |
| `Paging.DecodeRecord` | source/libfuse-3.10.4/lib/fuse_lowlevel.c:266-291 | a record is read back with its inode, offset, name and type, whatever follows, and a readdirplus record starts with the attributes |
| `Paging.AddDirentry` | source/libfuse-3.10.4/lib/fuse_lowlevel.c:266-291 | returns the aligned size, and writes the record exactly if it fits |
| `Paging.FillFromList` | source/libfuse-3.10.4/lib/fuse.c:3674-3716 | fills the buffer with the page that starts at the offset; a negative offset counts as 0 |
| `Paging.Align` | source/libfuse-3.10.4/include/fuse_kernel.h:765-766 | the smallest multiple of 8 that is not below |
| `Paging.KindOfMode` | source/libfuse-3.10.4/lib/fuse_lowlevel.c:287 | the type in a record is that of the mode, whatever the permission bits |
| `Slabs.Sizes.MaskFindsSlab` | source/libfuse-3.10.4/lib/fuse.c:417-420 | masking the address of any cell gives its slab |
| `Slabs.Sizes.MaskIsSlabOf` | source/libfuse-3.10.4/lib/fuse.c:417-420 | for a page size that is a power of two, the mask with `&` and `~` on words of any width is the remainder that the model uses |
| `Slabs.Sizes.CellsApart` | source/libfuse-3.10.4/lib/fuse.c:437-447 | the cells lie between header and end of the page and do not overlap |
| `Slabs.Sizes.CountOk` | source/libfuse-3.10.4/lib/fuse.c:437-440 | a page has as many cells as fit behind the header: at least one, and one more would not fit |
| `Slabs.NodeSlabs.AllocSlab` | source/libfuse-3.10.4/lib/fuse.c:422-452 | a fresh page becomes a partial slab whose cells are all free |
| `Slabs.NodeSlabs.AllocNode` | source/libfuse-3.10.4/lib/fuse.c:454-475 | hands out a cell that nobody has; fails exactly when no cell is free and no page can be mapped |
| `Slabs.NodeSlabs.FreeNodeMem` | source/libfuse-3.10.4/lib/fuse.c:477-503 | takes a cell back, and unmaps the page exactly with its last live cell |
| `Slabs.TakeOk` | source/libfuse-3.10.4/lib/fuse.c:462-471 | each slab counts its live cells, and every cell is free or live but not both |
| `Slabs.GiveOk` | source/libfuse-3.10.4/lib/fuse.c:488-499 | a cell that comes back is free again, and each slab still counts its live cells |
| `Slabs.Relisted` | source/libfuse-3.10.4/lib/fuse.c:493-502 | a slab is on the partial list if and only if it has a free cell |
| `Passthrough.LoData.DoReaddir` | source/libfuse-3.10.4/example/passthrough_ll.c:626-717 | for all outcomes of readdir and of the lookups, the reply goes on to the end of the stream or to the first entry that does not fit, unless one of them fails; the kernel gets one lookup for exactly the entries of the reply that are not dots, also on overflow or error; the reply holds consecutive entries, an error is reported only without any and changes no inode, and every inode keeps its file |
| `Passthrough.LoData.NextEntry` | source/libfuse-3.10.4/example/passthrough_ll.c:649-704 | a lookup for an entry that does not fit is given back, so that all inodes are as before, and the entry is kept for the next call |
| `Passthrough.LoData.Find` | source/libfuse-3.10.4/example/passthrough_ll.c:276-292 | one more reference on the inode of a known file, and no other inode changes |
| `Passthrough.LoData.DoLookup` | source/libfuse-3.10.4/example/passthrough_ll.c:294-354 | one more lookup on the one inode of the file, new or not, and no other inode changes; it succeeds exactly if the file is there and has an inode or memory suffices, and otherwise changes nothing at all |
| `Passthrough.LoData.Unref` | source/libfuse-3.10.4/example/passthrough_ll.c:497-520 | the count goes down and the inode goes with its last lookup, and no other inode changes; the assert holds as long as the kernel forgets what it has |
| `Passthrough.LoData.ForgetMulti` | source/libfuse-3.10.4/example/passthrough_ll.c:543-551 | several inodes are forgotten, each by its number of lookups, and those that stay keep their files |
| `Passthrough.ForgottenTogether` | source/libfuse-3.10.4/example/passthrough_ll.c:543-551 | forgetting several inodes takes from each what is said of it, in any number of parts |
| `Passthrough.LoData.Link` | source/libfuse-3.10.4/example/passthrough_ll.c:444-447 | a new link gives the kernel one more lookup on the inode, and no other inode changes |
| `Passthrough.CountedLess` | source/libfuse-3.10.4/example/passthrough_ll.c:497-520 | the list holds exactly the inodes with lookups left, one for each file |
| `Passthrough.SameFileSameInode` | source/libfuse-3.10.4/example/passthrough_ll.c:276-354 | two lookups of one file give the same inode, as long as it is not forgotten in between |
| `Passthrough.HeldDetermines` | source/libfuse-3.10.4/example/passthrough_ll.c:276-354 | the lookups that the kernel holds determine the inodes and their counts |
| `Passthrough.Continues` | source/libfuse-3.10.4/example/passthrough_ll.c:644-648 | asking again with the offset of the last entry continues behind it |
| `WorkerLoop.FuseMt.Take` | source/libfuse-3.10.4/lib/fuse_loop_mt.c:138-160 | the request has its thread, no other thread changes, at least one stays available unless one could not be created, and a new one that receives is started exactly if it was the last |
| `WorkerLoop.FuseMt.Finish` | source/libfuse-3.10.4/lib/fuse_loop_mt.c:164-183 | a thread ends exactly if more than the idle limit would be available |
| `WorkerLoop.FuseMt.StartThread` | source/libfuse-3.10.4/lib/fuse_loop_mt.c:258-293 | a new thread is listed and counted |
| `WorkerLoop.Available` | source/libfuse-3.10.4/lib/fuse_loop_mt.c:144-160 | the available threads are those that receive or carry out a FORGET; so none receives exactly when FORGETs hold all of them |

## Left out

- The LRU list of nodes (`remember` above 0): nodes without a name can then stay alive without a reference.
- The `is_hidden` and `open_count` fields and hiding of open files: `hide` in `rename_node` appears only as the check that returns EBUSY.
- `check_dir_loop`: it is compiled on FreeBSD only. What it is for is covered by `PathLocks.RenameIsSafe`.
- `PathLocks` treats allocation of nodes, names and the two hash tables as maps; `NodeTables` and `NodeLifetime` model these, and `NodeTables` names are bytes while the others use strings.
- PathLocks.Mount.RenameNode: demands, for a name that had no node when it was locked, that a node which has come there since has the lock word 0. `get_path2` locks the nodes that have the names at that time; the kernel keeps others from creating the names meanwhile. `PathLocks.UnlinkIsSafeWhenUnread` says exactly when unlinking such a node is safe. The same goes for PathLocks.Mount.RemoveNode.
- PathLocks.Mount.RemoveNode: see the line before.
- PathLocks.Mount.Rename: no other thread runs between its sections; `Interleavings.RenameFindsItsNodes` and `Interleavings.RenameGivesBack` are about what others do there. The exchange of two names and the hiding of open files are left out.
- PathLocks.Mount.WakeUpQueued: elements that failed leave the queue in the same step; in the source such an element is tried again if another wake-up comes before its thread runs.
- PathLocks.Mount.DeleteNode: keeps the queue's invariant only if no waiter names the node, which the kernel guarantees by keeping its lookups while requests are under way.
- PathLocks.Mount.TryGetPath: demands fewer than 2^31 - 1 locked paths, so that no lock word overflows.
- NodeLifetime.Fuse.NextId: demands fewer than 2^32 - 2 nodes, without which its loop does not end.
- NodeLifetime.Fuse.RenameNode: demands that the new directory has a lookup and is outside the moved subtree; the kernel guarantees the first and the path locks the second. Without the first the directory may go with its last entry (`NodeLifetime.DirectoryStays`), and the source aborts; without the second the tree gets a cycle (`NodeTree.MoveKeepsAcyclic`).
- NodeLifetime.Fuse.ExchangeNode: demands two different entries; exchanging an entry with itself would hash its node twice, which breaks the counts (`NodeLifetime.HashedTwice`). Both directories must have lookups, for the reason given for RenameNode.
- NodeLifetime.Fuse.UnhashName: clears the two fields of the node before the recursive call, which does not look at them, and not after it.
- NodeLifetime.Fuse.ForgetNode: the wait for a locked node is `PathLocks.Mount.AwaitUnlocked`, and `LockedNodes.ForgetSparesLocks` puts the two together.
- LockedNodes.ReapingSparesLocks: demands that the kernel keeps a lookup on the directory and the write-locked node of every request under way. `WholeMount.StepKeeps` needs that only when a node is first named, and for a forget that no request waits for the node; the rest follows from the wait in `forget_node`.
- WholeMount.StepKeeps: that a call on the locks leaves them sound is taken from the contract of `Interleavings.Perform`.
- BufCopy.Machine.BufCopy: splice is left out, as with the flag FUSE_BUF_NO_SPLICE. What arrives is stated for destinations that do not repeat a byte, that no source byte follows, and for streams that are not on both sides; the cursor of the destination may lag behind when the source ends first.
- BufCopy.Machine.CopyOne: splice is left out, likewise.
- BufCopy: the file behind a descriptor is given with the buffer, and a descriptor has one position for reading and writing.
- Options: templates, callbacks, parameters with `sscanf`, and failing allocations.
- JobPool: the exit operation, shutdown and changing limits. The queues of `pcqueue.c` are sequences; that file is not part of this model. An id is assumed not to be live when it is handed out again after 2^32 jobs.
- Interrupts: requests that are answered before they are listed, and the channel references of cloned descriptors.
- Paging: the timeouts and attributes in a readdirplus record are bytes given with the entry; filling the list by the filesystem is left out.
- Passthrough: two lookups that run at the same time can make two inodes for one file; requests are sequential here. The root inode is not counted.
- WorkerLoop: exit and cancellation of threads; the receiving of requests.
- System calls, mounting, signals, the forwarding wrappers, the other examples, and the rest of both code bases.
