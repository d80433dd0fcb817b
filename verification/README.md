# LiveGraph-SNB in Dafny

A model of the LiveGraph store that is bundled with this implementation of the LDBC Social
Network Benchmark, and of the hardest of the queries and updates on top of it. Edge lists are
multi-version blocks that many transactions read while one of them writes in place; commits
are grouped by a server thread; vertex locks are futexes; and the Interactive workload keeps
lists sorted and values stored redundantly so that its queries can stop early. Each of these
is written out step by step, and what it promises is proved for every input, every run and
every interleaving of single writes.

The project is self-contained. `dafny verify dfyconfig.toml` checks all of it.

## How it is organised

* `sequences`: reversal.
* `timestamps`, `edge_log`: the visibility order, and what a reader makes of the slots of one
  block. The ordered edge list of `EdgeLog.ApplyOp` is the specification of put_edge and
  del_edge.
* `versioned_list`, `list_invariant`: one (source, label) list with its chain of blocks, and
  what every single write of an operation, a commit, an abort or a compaction keeps.
* `store`, `store_invariant`, `snapshot_isolation`: all lists, transactions, locks and epochs
  as one state machine of 24 kinds of steps, and the guarantees over whole runs.
* `held_blocks`, `held_block_ends`: the block an iterator stands on, over a whole run: its slots,
  and when it goes.
* `operation_effects`: what a transaction gets from its own put_edge and del_edge calls.
* `progress`: whose next step can be taken when.
* `overlapping_commits`: two transactions on different lists, neither of which sees the other.
* `chain_walks`: the loops over a chain, in place.
* `group_commit`, `futex`: the two small concurrent protocols, with a program counter for each
  thread. `commit_epochs`: the first of them does to epochs what the store allows. `sessions`: both
  together, and what a caller of commit may rely on.
* `block_sizing`, `entry_codec`, `bloom_filter`, `block_layout`, `edge_block`,
  `edge_iterator`: the bytes of an edge block, down to slots and payload, refining `EdgeLog`.
* `graphs`, `shortest_path`, `routes`, `all_shortest_paths`, `neighbourhoods`: graph search.
* `top_k`, `recent_likers`, `recent_messages`, `message_container`: early-stopping top-k.
* `sorted_lists`, `derived_values`: what updates 5 to 8 keep up to date. `kept_order`: the order
  they keep against the one query 9 relies on. `overlapping_updates`: the same updates under the
  store's isolation instead of one after the other.

How the model reads the code in some places:

* deps/LiveGraph/core/transaction.hpp:412 asserts false before the lookup of the cached sizes.
  The model follows the lines after it, which is what a build without assertions does.
* Loading the global epoch and publishing it in the table of readers is one step, and each
  thread has one live transaction. That the commit manager keeps to the store's guards for giving
  out and advancing epochs is proved in `CommitEpochs.ManagerRefines`.
* A step of the store is one write that another thread can notice. Writes in one step are those
  that nobody can reach yet or any more: the bytes of an entry behind the published count, the
  copy that compaction swings to, and the blocks that a cut has left behind.
* Compaction may use any readable epoch that no reader is below; the code takes the least of the
  published read epochs and of the id of the transaction that starts it.
* The stamps that a commit or an abort writes are taken list by list, and the lists interleave
  in any order; the code has one fixed order across lists, which is one of these.
* Whether put_edge reallocates is left open in the protocol, and is the exact `HasSpace` in the
  block layout. The end of an abort drops the transaction's private blocks.
* Dates in the batch form of query 9 and in the sorted lists are non-negative: the code compares
  them with unsigned numbers.
* Epochs and transaction ids stay below 2^63 - 2. Vertex ids stay below 2^48, as the slots of
  an edge block demand.

## What does not hold

Where a promise fails, the model keeps the code and says exactly when.

* Both shortest-path searches only test neighbours, so for equal endpoints they never answer
  with the empty path: their contracts hold if and only if the endpoints differ or not even
  zero hops are allowed.
* A payload of 65536 bytes or more is cut to its length modulo 65536 (`EdgeBlocks.ClippedWhole`).
* Looking a list up never yields a freed block, but an iterator that was opened earlier can
  lose its block. For a live reader that happens if and only if a compaction that leaves something
  out is followed by one at a greater epoch (`HeldBlockEnds.LiveReaderLosesBlock`);
  `HeldBlockEnds.HeldBlockCanBeFreed` is a run of it, with both compactions at the least epoch
  that anybody reads at.
* With equal dates in one list, the single-pass top-k of queries 7 and 9 can return the wrong
  one of the tied entries (`RecentLikers.TiesCanLose`, `RecentMessages.TiesCanLose`), and no
  worse than that (`RecentLikers.ScanUpToTies`, `RecentMessages.ScanTop`). Call a list orderly if,
  for query 9, it comes in the order of date and id, and, for query 7, its likes, as far as they
  count, have strictly descending dates. After any orderly lists a list is scanned right for every
  limit if and only if it is orderly itself (`RecentMessages.TrustedIff`, `RecentLikers.TrustedIff`).
  The batch form of query 9 is exact.
* The lists that updates 6 and 7 keep have later entries of one date in front, so they are in
  the order that query 9 relies on if and only if, of any two entries of one date, the later one
  had the smaller id (`KeptOrder.KeptForQueryIff`).
* The stored weights of a pair are right over all serial runs if and only if the two are different
  persons (`DerivedValues.WeightsRightIff`). The friendship of a person with themselves drifts
  in just one kind of step (`DerivedValues.SelfFriendshipDrifts`).
* Conflicts are found per list, so a new friendship and a reply between the two, or a new
  membership and a post of the member, both commit from one snapshot, and the reply or the post is
  missing from the stored value. `OverlappingUpdates.OverlapIff` says for which pairs this
  happens, `OverlappingUpdates.HistoriesKeepDefinitions` that it does not when one of such a pair
  always has the other in its snapshot, and `OverlappingCommits.OverlapHappens` is a run of the
  store in which neither has.

## Model

| member | source | states |
|---|---|---|
| Timestamps.ReachedMeaning | deps/LiveGraph/core/utils.hpp:102-127 | visibility is decided by comparison alone: a stamp has taken effect for a reader if it is the reader's own mark or a commit epoch at or below its own |
| EdgeLog.ViewDelete | deps/LiveGraph/src/transaction.cpp:627-638 | marking the entry that find_edge returns removes the first edge to that vertex from the reader's ordered list and nothing else |
| EdgeLog.FindIsLookup | deps/LiveGraph/src/transaction.cpp:259-284 | the payload find_edge answers with is that of the first edge to the vertex in iteration order |
| EdgeLog.GrowthKeepsView | deps/LiveGraph/src/transaction.cpp:598-616 | leaving out entries deleted for the writer when a block grows changes nobody's list at any epoch for which they are deleted too |
| EdgeLog.CompactionKeepsView | deps/LiveGraph/src/graph.cpp:126-173 | leaving out entries that died up to the compaction epoch changes no list at or above that epoch |
| ListInvariant.TouchKeeps | deps/LiveGraph/src/transaction.cpp:438-460 | a transaction that passes the conflict check finds the newest block as its own, and the list invariant holds with it as writer |
| ListInvariant.GrowKeeps | deps/LiveGraph/src/transaction.cpp:566-624 | reallocating into a private block keeps the invariant: readers, published head, the writer's own view |
| ListInvariant.MarkKeeps | deps/LiveGraph/src/transaction.cpp:627-638 | writing the deletion mark in place keeps the invariant while readers go on reading |
| ListInvariant.WriteKeeps | deps/LiveGraph/src/transaction.cpp:640-643 | writing the new entry behind the published count keeps the invariant and completes one more operation |
| ListInvariant.EndDeleteKeeps | deps/LiveGraph/src/transaction.cpp:693-731 | del_edge, found or not, keeps the invariant and completes one more operation |
| ListInvariant.PublishSizeKeeps | deps/LiveGraph/src/transaction.cpp:1046-1048 | publishing the sizes of a block in the middle of a commit is invisible to every reader |
| ListInvariant.MarkTailKeeps | deps/LiveGraph/src/transaction.cpp:1049-1050 | so is the mark on its committed time, which no other writer meets before the stamps are final |
| ListInvariant.CommitHeadKeeps | deps/LiveGraph/src/transaction.cpp:1053-1060 | so is swinging the label entry to the new block |
| ListInvariant.FinishStampKeeps | deps/LiveGraph/src/transaction.cpp:1062-1065 | so is each single stamp, of a commit or of an abort |
| ListInvariant.FinishCommitKeeps | deps/LiveGraph/src/transaction.cpp:1067-1067 | once all stamps are written the list shows the commit to every epoch from its own on, and to none before |
| ListInvariant.FinishAbortKeeps | deps/LiveGraph/src/transaction.cpp:818-838 | after an abort, grown blocks or not, the history and the head of the list are what they were |
| ListInvariant.CutKeeps | deps/LiveGraph/src/graph.cpp:68-103 | cutting a version chain keeps every reader's list at or above the compaction epoch |
| ListInvariant.RewriteKeeps | deps/LiveGraph/src/graph.cpp:111-181 | so does replacing the head by a copy without dead entries; no deletion precedes its block's creation |
| StoreInvariant.NextKeeps | deps/LiveGraph/src/transaction.cpp:513-1072 | every step of every transaction, reader and compactor keeps the invariant of the whole store |
| SnapshotIsolation.SnapshotRead | deps/LiveGraph/src/transaction.cpp:840-884 | in every run, after every single write, a reader at epoch e sees in each list exactly the bulk-loaded list with the updates committed by e applied in strictly increasing epoch order |
| SnapshotIsolation.AtomicVisibility | deps/LiveGraph/src/transaction.cpp:1023-1072 | a transaction committed by the reader's epoch is in every list it wrote, once and in full, and only committed transactions are in any |
| SnapshotIsolation.RepeatableRead | deps/LiveGraph/src/graph.cpp:21-36 | a reader sees the same list at any two moments of its life, whatever commits, aborts and compactions come between |
| SnapshotIsolation.BeginsCurrent | deps/LiveGraph/src/graph.cpp:21-28 | a transaction that begins between two moments of a run reads at an epoch no older than the global one at the first and no newer than that at the second |
| SnapshotIsolation.ReaderBeginsCurrent | deps/LiveGraph/src/graph.cpp:31-36 | so does a read-only transaction |
| SnapshotIsolation.SeesAllBefore | deps/LiveGraph/src/graph.cpp:21-36 | whatever was readable before a transaction or a reader began is in its snapshot, in every list that was written |
| SnapshotIsolation.ConflictIffCommitted | deps/LiveGraph/src/transaction.cpp:438-460 | the first write to a list meets a conflict if and only if somebody has committed to that list after the epoch that the transaction reads at |
| SnapshotIsolation.FirstCommitterWins | deps/LiveGraph/src/transaction.cpp:438-460 | of two committed transactions that wrote the same list, the later one began reading at or after the earlier one's commit epoch: no committed update is lost |
| SnapshotIsolation.OwnView | deps/LiveGraph/src/transaction.cpp:513-771 | a transaction sees its begin-time snapshot with its own puts moved to the front and its own deletes removed, in order, across reallocations and also on a list without a block; get_edge answers from the same list |
| OperationEffects.RecordsCall | deps/LiveGraph/src/transaction.cpp:513-731 | over all runs, what is recorded when put_edge or del_edge has made its last write is the operation that was called, with its destination and payload |
| OperationEffects.OperationApplied | deps/LiveGraph/src/transaction.cpp:513-771 | whatever happens between a call and its last write, the transaction's list is then the old one with exactly that operation applied, and get_edge answers a put with the payload that was put |
| OperationEffects.DeleteAnswer | deps/LiveGraph/src/transaction.cpp:727-730 | del_edge finds an edge to mark if and only if get_edge would have answered with one |
| SnapshotIsolation.NoFreedBlockFound | deps/LiveGraph/src/graph.cpp:76-95 | no lookup by any reader ever returns a block that compaction has freed |
| SnapshotIsolation.CompactionInvisible | deps/LiveGraph/src/graph.cpp:47-181 | for an epoch no greater than the reader's, both halves of compaction leave the reader's ordered list and payloads as they were |
| Progress.NobodyStuck | deps/LiveGraph/src/transaction.cpp:513-1072 | over all runs a running transaction can lock any free vertex, come to any list of its vertices on which there is no conflict, start and go on with any operation, give up, and ask for the next epoch; a commit or an abort that has begun can always take its next write |
| Progress.CompactionCanGo | deps/LiveGraph/src/graph.cpp:47-181 | over all runs both halves of compaction can be done to a list whose vertex nobody has locked, at any epoch that no reader is below |
| HeldBlocks.ScatteredRead | deps/LiveGraph/core/edge_iterator.hpp:328-358 | a live reader that looks its block up once and reads each slot at a moment of its own, between anybody's writes, puts together the snapshot at its epoch as long as the block is not freed |
| HeldBlocks.HeldBlockFreed | deps/LiveGraph/src/graph.cpp:68-103 | over any run, a block that was looked up has been freed if and only if some cut in between, at an epoch e, found that a reader at e - 1 stops above it |
| HeldBlocks.CutSparesLookup | deps/LiveGraph/src/graph.cpp:47-103 | no cut frees the block that a live reader, read-only or a running transaction, would look up at that moment |
| HeldBlockEnds.LiveReaderLosesBlock | deps/LiveGraph/src/graph.cpp:47-181 | over any run, a live reader loses the block that it looked up if and only if a compaction that leaves entries out is followed by a compaction at a greater epoch |
| HeldBlockEnds.HeldBlockCanBeFreed | deps/LiveGraph/src/graph.cpp:47-53 | a run in which that happens, with each compaction at the least published read epoch |
| OverlappingCommits.OverlapIsDisjoint | deps/LiveGraph/src/transaction.cpp:438-460 | two committed transactions neither of which has the other in its snapshot have written no list in common |
| OverlappingCommits.SeesCommit | deps/LiveGraph/src/transaction.cpp:840-884 | a snapshot is the list as left by a prefix of its commits, and another transaction is in it if and only if its commit epoch is at most the read epoch |
| OverlappingCommits.OverlapHappens | deps/LiveGraph/src/transaction.cpp:438-460 | a run in which two transactions write different lists of one vertex from one snapshot and both commit |
| ChainWalks.LocateBlock | deps/LiveGraph/src/transaction.cpp:297-305 | the loop finds a block of the chain that has been created for the reader, and none of the newer ones has; without one it finds nothing |
| ChainWalks.CompactChain | deps/LiveGraph/src/graph.cpp:68-103 | the loop does to heap and head what the compaction step of the protocol does, frees exactly the blocks that the step takes out of the list, each block once, and asks to come back exactly when the head is not the block it cuts at and has a predecessor |
| GroupCommit.EpochSafety | deps/LiveGraph/core/commit_manager.hpp:137-236 | over all runs the global epoch never decreases, and stays below the epoch of every client that has been given one and has not called finish_commit |
| GroupCommit.CounterOutlivesClient | deps/LiveGraph/core/commit_manager.hpp:73-110 | the counter that register_commit returned is queued and positive until that client decrements it |
| GroupCommit.OwnBatchEpoch | deps/LiveGraph/core/commit_manager.hpp:82-98 | a client that may stop waiting finds the epoch that its own queue entry was given, and it is not readable yet |
| GroupCommit.ReturnKeeps | deps/LiveGraph/core/commit_manager.hpp:91-98 | returning hands the client exactly that epoch and keeps the invariant over both queues |
| GroupCommit.AssignKeeps | deps/LiveGraph/core/commit_manager.hpp:190-199 | the server gives the front client the writing epoch, above everything readable, and its counter is in the queue |
| GroupCommit.PopKeeps | deps/LiveGraph/core/commit_manager.hpp:137-152 | publishing an epoch raises the global epoch strictly and keeps the invariant |
| GroupCommit.ReturnsReadable | deps/LiveGraph/core/commit_manager.hpp:102-110 | when finish_commit with `wait` has returned, the epoch of the commit is readable, and it stays so |
| GroupCommit.NewcomersGoElsewhere | deps/LiveGraph/core/commit_manager.hpp:73-80 | while a batch is being given out and written, whoever comes is sent to the other queue |
| GroupCommit.FinishedEpochPops | deps/LiveGraph/core/commit_manager.hpp:137-152 | once all clients of the oldest open epoch have called finish_commit, the server can publish it between two batches |
| GroupCommit.MutexHeldInside | deps/LiveGraph/core/commit_manager.hpp:73-236 | over all runs, who holds the mutex of a queue is in the section that releases it |
| GroupCommit.CommitHappens | deps/LiveGraph/core/commit_manager.hpp:73-236 | a run in which a single client commits: it gets the next epoch and finds it readable when it returns |
| GroupCommit.StopsWhenClosed | deps/LiveGraph/core/commit_manager.hpp:157-182 | the server stops only after the manager has been closed, and as soon as it then finds the queue empty |
| GroupCommit.NobodyStuck | deps/LiveGraph/core/commit_manager.hpp:73-236 | over all runs the server and every client can take their next step, unless the mutex they want is held, their batch is not through, or, with `wait`, their epoch is not readable yet |
| CommitEpochs.ManagerRefines | deps/LiveGraph/core/commit_manager.hpp:73-236 | every step of the commit manager is a step of the store or nothing to it: handing out an epoch registers a commit, a decrement finishes one, and popping a finished epoch advances the global one, with the store's guards met |
| Sessions.CommitSeenAfter | deps/LiveGraph/src/transaction.cpp:1023-1072 | over all runs of manager and store together, whatever begins after a commit has returned, a transaction or a reader, has that commit in its snapshot, in every list that it wrote |
| Futex.MutualExclusion | deps/LiveGraph/core/futex.hpp:31-75 | for any number of threads and any interleaving at most one holds the lock, and one does exactly while the word is 1 |
| Futex.UsersCounted | deps/LiveGraph/core/futex.hpp:35-39 | num_using is the number of threads that are counted in |
| Futex.WakeupNotLost | deps/LiveGraph/core/futex.hpp:65-75 | while the lock is free and a thread sleeps, another thread is mid-unlock or awake and about to retry; when nobody is, there is a holder |
| Futex.HelperSucceeds | deps/LiveGraph/core/futex.hpp:31-75 | at most six steps of such a thread, and of the sleeper once that thread has woken it, take the lock without anybody else moving |
| Futex.CallAnswers | deps/LiveGraph/core/futex.hpp:31-63 | over all runs, a call comes back with the lock exactly when it holds it, with false exactly when its wait has run out, which lock never does, and with an exception exactly when the wait has failed |
| Futex.NoRetryAfterTimeout | deps/LiveGraph/core/futex.hpp:45-63 | after a time-out the thread neither counts itself in nor tries to take the lock before its next call |
| Futex.SleepsWhileHeld | deps/LiveGraph/core/futex.hpp:39-40 | a thread that waits goes to sleep if and only if somebody holds the lock |
| Futex.NobodyStuck | deps/LiveGraph/core/futex.hpp:31-75 | every thread can always take its next step; a sleeper is woken by an unlock that goes on to wake, and in try_lock_for its wait can also run out |
| Futex.WakesWhileUsed | deps/LiveGraph/core/futex.hpp:65-75 | unlock goes on to wake a sleeper if and only if somebody else is counted in |
| BlockSizing.SizeToOrder | deps/LiveGraph/core/utils.hpp:91-100 | the least order whose block holds the size, for every size including 0 |
| BlockSizing.PowerOfTwo | deps/LiveGraph/core/utils.hpp:93-93 | the bit test recognises exactly the powers of two |
| BlockSizing.BlockOrderSuffices | deps/LiveGraph/src/transaction.cpp:568-576 | the two-stage order always gives a block that holds the content and the Bloom filter that comes with that order |
| BlockSizing.BlockOrderLeast | deps/LiveGraph/src/transaction.cpp:568-576 | and no smaller block would |
| BlockSizing.GrowthFits | deps/LiveGraph/core/blocks.hpp:302-316 | in a block sized for growth every copied entry and then the new one passes has_space |
| BlockSizing.CompactionFits | deps/LiveGraph/src/graph.cpp:150-173 | in a block sized by compaction every copied entry passes has_space |
| BloomFilters.FilterFits | deps/LiveGraph/core/bloom_filter.hpp:45-73 | for every order from the threshold on the filter fills its 1/16 of the block exactly |
| BloomFilters.BloomFilter.Insert | deps/LiveGraph/core/bloom_filter.hpp:101-108 | inserting an id loses no other id and sets no bit but its own |
| BloomFilters.BloomFilter.Find | deps/LiveGraph/core/bloom_filter.hpp:110-123 | find is true for every id inserted since the last clear, and otherwise only if the inserted ids of the same bucket have set all eight bits of the id between them |
| BloomFilters.UnionCovers | deps/LiveGraph/core/bloom_filter.hpp:83-108 | a bucket that covers a mask in all lanes still does after any other mask is added |
| EntryCodec.RoundTrip | deps/LiveGraph/core/blocks.hpp:191-225 | an entry's length, 48-bit destination and signed times are read back from its 24 bytes as they were stored |
| EntryCodec.PatchDeletion | deps/LiveGraph/core/blocks.hpp:211-213 | storing a deletion time in place is the same as storing the entry with it |
| EntryCodec.LengthField | deps/LiveGraph/core/blocks.hpp:215-217 | a payload length survives if and only if it fits 16 bits |
| BlockLayout.LayoutAppend | deps/LiveGraph/core/blocks.hpp:341-352 | the two writes of an append extend the stored log by one entry and touch no other slot or payload |
| BlockLayout.LayoutDelete | deps/LiveGraph/src/transaction.cpp:633-633 | a deletion mark changes that field of that entry only |
| BlockLayout.LayoutPrefix | deps/LiveGraph/core/blocks.hpp:365-373 | a reader with smaller sizes finds the shorter log in the same bytes |
| EdgeBlocks.EdgeBlock.constructor | deps/LiveGraph/core/blocks.hpp:375-381 | a filled block holds the empty log whatever its memory held |
| EdgeBlocks.EdgeBlock.AppendWithoutUpdateSize | deps/LiveGraph/core/blocks.hpp:341-352 | succeeds exactly when there is space, and then the block holds the log with the entry and its clipped payload, and the filter knows its destination |
| EdgeBlocks.EdgeBlock.Append | deps/LiveGraph/core/blocks.hpp:318-339 | the same with the block's own sizes advanced to the longer log |
| EdgeBlocks.EdgeBlock.SetDeletionTime | deps/LiveGraph/core/blocks.hpp:211-213 | the block holds the log with that one deletion time changed |
| EdgeBlocks.EdgeBlock.FindEdge | deps/LiveGraph/src/transaction.cpp:259-284 | returns the newest visible entry to the vertex with its payload, or nothing; the filter never hides one |
| EdgeBlocks.EdgeBlock.HoldsPrefix | deps/LiveGraph/core/blocks.hpp:365-373 | readers that know smaller sizes still find their shorter log, filter included |
| EdgeBlocks.ClippedWhole | deps/LiveGraph/src/transaction.cpp:543-543 | a payload reaches the block whole if and only if it is shorter than 65536 bytes |
| EdgeIteration.EdgeIterator.constructor | deps/LiveGraph/core/edge_iterator.hpp:260-314 | in either direction, what is still to come is the whole view of the reader |
| EdgeIteration.EdgeIterator.Next | deps/LiveGraph/core/edge_iterator.hpp:328-358 | passes exactly one visible edge, whatever is found in the place next to the last entry |
| EdgeIteration.EdgeIterator.Resume | deps/LiveGraph/core/edge_iterator.hpp:328-358 | when stamps in the block have moved between two calls, to nothing that the reader would see differently, what is still to come is the same |
| EdgeIteration.EdgeIterator.DstId | deps/LiveGraph/core/edge_iterator.hpp:360-368 | the destination of the next edge to come, or the tombstone at the end |
| EdgeIteration.EdgeIterator.EdgeData | deps/LiveGraph/core/edge_iterator.hpp:370-378 | the bytes that edge was appended with |
| EdgeIteration.ReadAll | deps/LiveGraph/core/edge_iterator.hpp:257-390 | a walk to the end yields exactly the visible edges, newest first or, in reverse, oldest first |
| EdgeIteration.OldestFirstIsReversed | deps/LiveGraph/core/edge_iterator.hpp:299-313 | the two directions are each other's reversal |
| EdgeIteration.CountLive | deps/LiveGraph/src/graph.cpp:126-141 | the first scan of compaction finds the exact sizes of the copy |
| EdgeIteration.Grow | deps/LiveGraph/src/transaction.cpp:598-624 | copying into the block sized for it never fails, stores exactly the entries not deleted for the writer, and leaves space for the new one |
| EdgeIteration.Compact | deps/LiveGraph/src/graph.cpp:150-173 | copying into the block sized for it never fails and stores exactly the entries alive after the epoch |
| Graphs.Meeting | src/manual.hpp:541-593 | two searches that have not met are one step further apart exactly when the outermost level of one has a neighbour in the ball of the other |
| ShortestPath.Expand | src/manual.hpp:544-563 | one round reports a hit exactly when a neighbour of the frontier has been seen by the other side, and otherwise takes in exactly the new neighbours |
| ShortestPath.PairwiseShortestPath | src/manual.hpp:524-596 | returns the length of the shortest walk if it is at most max_hops and -1 otherwise, if and only if the endpoints differ or max_hops is negative; every surviving round adds an unseen vertex |
| Routes.DescentsExact | src/manual.hpp:998-1048 | from a vertex at distance d the depth-first search enumerates every walk of length d to the root exactly once, with its weight |
| Routes.JoinedExact | src/manual.hpp:1050-1059 | combining two such lists over a middle edge lists every combination exactly once with the sum of the weights |
| AllShortestPaths.ExpandAll | src/manual.hpp:938-962 | a round completes its hits: every arc into the other side once, with the weight of that arc, and every new vertex with its depth |
| AllShortestPaths.Search | src/manual.hpp:922-991 | the hits are exactly the middle edges of the shortest walks, or nothing when there is none within max_hops |
| AllShortestPaths.DepthFirst.Visit | src/manual.hpp:998-1048 | adds every descent from a vertex to the results and restores the shared path |
| AllShortestPaths.PairwiseShortestPaths | src/manual.hpp:916-1062 | every shortest path of at most max_hops edges exactly once, with the sum of its weights, and nothing else, if and only if the endpoints differ or max_hops is negative |
| Neighbourhoods.Multihop | src/manual.hpp:190-219 | strictly ascending, exactly the vertices other than root reached by following the labels in turn without coming back to root |
| Neighbourhoods.CollectedIsWithin | src/manual.hpp:190-219 | for one repeated label these are exactly the other vertices at distance 1 to num_hops |
| Neighbourhoods.MultihopAnother | src/manual.hpp:279-320 | strictly ascending, exactly the vertices one other hop away from those within num_hops - 1 hops; stopping at an empty frontier loses nothing |
| Neighbourhoods.LowerBound | src/query11.cpp:165-165 | the first position not below the id |
| Neighbourhoods.IsMember | src/query11.cpp:145-165 | with the sentinel behind the list the test never runs off the end, and decides membership for every id below UINT64_MAX |
| TopK.KeepTop | src/query9.cpp:222-228 | emplacing a key and dropping the last one keeps the smallest keys of all seen, and a key that is not smaller than the last of a full map can be ignored |
| TopK.TopUnique | src/query9.cpp:222-228 | there is only one set of the smallest `limit` keys |
| RecentLikers.TopLikers | src/query7.cpp:182-275 | the loops compute `Scan`, keep person_hash and idx in bijection, store with every key the vertices of the person and the message of a like with that date and person, and on tie-free lists, strictly descending ones among them, keep exactly the `limit` smallest of the persons' best keys |
| RecentLikers.ScanExact | src/query7.cpp:185-275 | the same of the scan as a function: early stop drops nothing |
| RecentLikers.TrustedIff | src/query7.cpp:200-226 | after any tie-free lists and for every limit the scan is exact if and only if the list is tie-free itself; with one like per person, if and only if its dates strictly descend |
| RecentLikers.ScanUpToTies | src/query7.cpp:223-226 | with equal dates nothing left out is newer than anything kept |
| RecentLikers.ScanReal | src/query7.cpp:200-207 | every result carries, in their places, the person and the message vertex of a like with its date and person |
| RecentLikers.TiesCanLose | src/query7.cpp:223-226 | with three likes on one date the scan misses the right one |
| RecentMessages.TopMessages | src/query9.cpp:205-264 | the loops compute `Scan`, and so return, with their vertices, min(limit, total) messages before max_date none of which is older than any left out, and exactly the first by date and id on lists in that order |
| RecentMessages.ScanTop | src/query9.cpp:205-264 | the same of the scan as a function, for lists by date and for lists by date and id |
| RecentMessages.TrustedIff | src/query9.cpp:222-232 | after any lists in the order of date and id, for every limit and date bound, the pass is exact if and only if the list comes in that order itself |
| RecentMessages.TiesCanLose | src/query9.cpp:229-232 | with equal dates the single pass can miss the message with the smallest id |
| MessageContainer.Take | src/query9.cpp:41-74 | one message keeps the container, its oldest date and the count of that date right, size_t arithmetic included |
| MessageContainer.Collect | src/query9.cpp:26-133 | the container holds exactly the messages at or above the limit-th largest date |
| MessageContainer.Trim | src/query9.cpp:153-154 | erasing the last key again and again leaves the smallest `limit` |
| MessageContainer.BatchTopMessages | src/query9.cpp:26-155 | the result is the exact first `limit` by date and id, equal dates included, each with its vertex |
| SortedLists.InsertSorted | src/update7.cpp:35-49 | delete, insert, reverse and put back leave the old list with the new entry behind all newer ones |
| SortedLists.RunsStaySorted | src/update6.cpp:33-47 | over all runs the list stays newest first and holds exactly the old (vertex, date) pairs and the new ones |
| KeptOrder.KeptForQueryIff | src/update6.cpp:33-47 | a list kept from the start can be trusted to the single pass of query 9 if and only if, of any two entries of one date, the later one had the smaller id |
| DerivedValues.CountLoop | src/update5.cpp:16-23 | the loop counts exactly the posts of the person in the forum |
| DerivedValues.SumLoop | src/update8.cpp:17-39 | the loop adds exactly 1.0 per reply to a post and 0.5 per reply to a comment of the other person, by what the parent is |
| DerivedValues.JoinKeeps | src/update5.cpp:16-30 | a new membership starts with its defined count, in both directions |
| DerivedValues.AddPostKeeps | src/update6.cpp:49-58 | a new post keeps every membership count and every weight equal to its definition |
| DerivedValues.AddCommentKeeps | src/update7.cpp:67-77 | a new reply keeps every count and every weight between different persons equal to its definition |
| DerivedValues.BefriendKeeps | src/update8.cpp:16-45 | a new friendship starts with its defined weight, in both directions |
| DerivedValues.RunsKeepDefinitions | src/update5.cpp:16-30 | over all serial runs of the four updates all stored counts and weights equal their definitions |
| DerivedValues.DatesAreLatest | src/update5.cpp:26-30 | over all serial runs, memberships and friendships are exactly those that were made, in both directions, each since the date of the latest update that made it |
| DerivedValues.WeightsRightIff | src/update8.cpp:16-45 | from an empty graph on, the stored weights of a pair are right over all runs if and only if the two are different persons |
| DerivedValues.SelfFriendshipDrifts | src/update7.cpp:67-77 | the weight of a friendship with oneself stays right in every step but a reply to an own post or comment, which update 7 adds once and the loops of update 8 count twice |
| OverlappingUpdates.OverlapIff | src/update8.cpp:16-45 | two updates from one snapshot that write different lists leave all stored values right if and only if they are not a friendship of two persons with a reply between them, nor a membership with a post of the member |
| OverlappingUpdates.ReplyCanBeLost | src/update7.cpp:67-77 | whichever of a friendship and a reply commits first, the reply is missing from the weight |
| OverlappingUpdates.HistoriesKeepDefinitions | src/update5.cpp:16-30 | as long as such pairs have one in the snapshot of the other, a history under the store's isolation equals the serial run in commit order, and all stored values are right |

## Left out

- AllShortestPaths.PairwiseShortestPaths: does not claim an order of the results; the hits are taken in any order, where the code takes them in the order of a std::map.
- RecentLikers.TopLikers: the two passes over posts and comments, which have the same body, are one loop over both groups of lists.
- EdgeIteration.EdgeIterator.Next: reads a log that does not change during one call; between calls it may (`Resume`), and that slots read at any moments still add up to the snapshot is `HeldBlocks.ScatteredRead`, on the slots of the protocol and not on bytes.
- Vertex blocks and their version chains: a vertex that is written without being read first behaves like a list with one entry; get_vertex fills the cache that commit publishes, so reading first is outside the model.
- The edge-label directory of a vertex: a map from (source, label) to the head of the list; its reallocation is not modelled.
- The block allocator: a fresh, disjoint block of 2^order bytes.
- EdgeIterator_gbp and the other `_gbp` reads, which depend on the GoCache library; the model of EdgeIterator stands for the walk over a block.
- The write-ahead log, save and reload, mmap, RocksDB indexes, the Thrift server, logging and CSV import.
- The batch loader and batch del_vertex: bulk load gives the initial state only.
- Retry loops of the update handlers and vertex-id recycling: each update is one successful attempt.
- Memory order and torn reads: each pointer, timestamp or 128-bit size write is one step.
- Futex.clear, unlock by a thread that does not hold the lock, and the exceptions that end a waiting thread other than by leaving the lock.
- Timeouts of the commit manager's spin interval other than as a release and a new acquisition of the queue mutex.
- The unused const form of get_bloom_filter, which passes a byte count where a log size is expected.
- int overflow of the hop counters and size_t overflow of block sizes.
- Floating-point rounding: weights are reals.
- The remaining queries and short queries: response field copying, or repeats of the top-k and membership patterns.
