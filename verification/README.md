# Concurrent hash tables: a verified model

The repository benchmarks concurrent hash tables. This project models the two families of tables whose
correctness is hard to see, and the ticket lock that several of them can be built with, and proves for all
inputs, all runs and any number of threads what their code and documentation promise.

## The cuckoo table

A key lives in one of two buckets, its index bucket and the alternate bucket computed from an upper byte of its
hash value. A full pair of buckets is relieved by a breadth-first search for a short eviction path, whose items
are then moved one hop at a time, backwards, under locks that are taken again for every hop. A table that is full
doubles in place and gives its locks back while it is still splitting buckets.

* `Hashing.dfy`: masks, exclusive or, the tag hash and the two candidate buckets.
* `BfsQueue.dfy`: the ring of 512 search entries, as a class over an array.
* `CuckooLayout.dfy`: the bucket array as a value: shape, placement, uniqueness, the finite map it stands for, and
  what one slot write, one hop and one doubling do to these.
* `CuckooPath.dfy`: path codes, walks, recorded paths.
* `CuckooSearch.dfy`: the breadth-first search look by look: which entry is in the queue when, which slots are looked
  at before the queue is full, and what the search knows when it ends.
* `CuckooTable.dfy`: the class `CuckooMap` with the bucket array, the hashpower, the set of taken locks and the
  per-core counters. All operations, run by one thread, are proved against the ghost map `model`. A bucket is read
  only under its lock (`Read` demands it), and a lock is never taken twice (`Lock` demands that).
* `Doubling.dfy`, `DoublingProof.dfy`: the doubling as a step machine. Workers look at one slot per step and unlock
  one lock per step; other threads take released locks and insert, delete, store or move items under them.
  `DoublingEnds.dfy` bounds the steps of the doubling.
* `LockOrder.dfy`: the lock protocol of all threads, with the hashpower check and the expansion lock.
  `LockProgress.dfy` says that what a thread has begun ends, and which requests are granted.
* `TbbSlotSearch.dfy`: the search of the older copy of the table, which gives back all its locks only because of a
  counting argument about the queue. What it finds in the table is an arbitrary sequence of looks; which slot it
  looks at when, and when it gives up, is said exactly.

## The cache-line tables (CLHT)

Buckets have three slots. The variants differ in how updates are synchronised.

* `ClhtLf.dfy`, `ClhtLfProof.dfy`, `ClhtLfRace.dfy`: the lock-free bucket, a step machine of single loads, stores
  and compare-and-swaps with get, put and remove. The state records the bucket after every step and what each step
  did to the abstract map, so that linearizability can be stated about the run itself. `ClhtLfSolo.dfy` says what an
  operation answers, and after how many steps, when its thread steps alone.
* `ClhtLbRes.dfy`, `ClhtLbResProof.dfy`: the lock-based table with migration. A bucket lock is free, taken for an
  update, or turned into RESIZE for good. `ClhtLbResGet.dfy` puts a get beside any run of the updaters and resizers:
  each of its loads sees one state of the run, of a table that may be an old one by then, and `ClhtLbResGetRace.dfy`
  shows which runs mislead it. `ClhtLbResStale.dfy` and `ClhtLbResOverlap.dfy` show what two overlapping resizes do.
  `ClhtLbResSolo.dfy` says what an operation does whose thread steps alone, and what a resize answers in any run.
* `ClhtMapRem.dfy`: lock-free removal by tagging one byte of the packed word. `ClhtMapRemZero.dfy` says what a remove
  that returns zero has seen, and `ClhtMapRemMissed.dfy` gives a run in which it has missed its key;
  `ClhtMapRemFalse.dfy` does both for a put that returns false. `ClhtMapRemScenes.dfy` holds the pieces of these runs.
  `ClhtMapRemSolo.dfy` says what an operation answers whose thread steps alone.
* `ClhtLockIns.dfy`: locked insertion against lock-free removal through the blocked key. `ClhtLockInsAnswers.dfy` says
  what a put that returns false and a remove that returns zero have seen, and `ClhtLockInsSolo.dfy` what an operation
  answers whose thread steps alone.
* `ClhtPacked.dfy`: the packed chains, as classes with arrays, with removal that swaps in the last entry.
* `ClhtGrowth.dfy`: the quiescent copy of the two tables without overflow chains, and the growth factor.
* `History.dfy`: events of a run, and what it means that an operation did nothing or exactly one thing.

`TicketLock.dfy` models the ticket lock with both 32-bit counters wrapping around.

## Reading the step machines

A run is a non-empty sequence of states whose first state is initial and in which each state follows from the one
before by one step of one thread, or by a thread that begins an operation. Theorems about runs take the run and a
position in it. Theorems about a thread that steps alone say from which states of which runs it does; the other
threads may be in the middle of something, unless the theorem says that they rest. Steps are sequentially consistent:
one load, store or compare-and-swap each. Keys and values of the cache-line tables are not zero, since the code uses 0
for an empty slot and an absent key. The version counter of the packed word is a natural number, that is, it does not
come round between a thread's copy of the word and its compare-and-swap. Fields that only record something (`num`,
`owner`, `hist`, `events`, `used`, `distinct`, `start`) are read by no step.

Where the code and its comments differ, the model follows the code. `reserve_calc` promises the smallest hashpower
with room for n elements, but never returns less than 1, and that is why the two candidate buckets of a key always
differ. The path search is said to fail when the queue runs out of space, but it fails as well when the queue runs
empty. `upsert` is said to succeed always, but it throws: exactly when its key is unbound, both its buckets are full,
no look of the search finds a free slot, and the table, after the doublings that it may make, may not double again
(`CuckooTable.Fate`). In the older copy of the table the two buckets of a key may coincide, although its comments
speak of the other possible bucket: they do exactly when the tag, counted from one, is a multiple of the number of
buckets.

## Model

| member | source | states |
|---|---|---|
| Hashing.TagHashIsOdd | src/cuckoo/include/cuckoohash_map.hh:925-934 | The tag multiplied by the hash constant in 64-bit arithmetic is odd for every tag, negative ones included |
| Hashing.AltIndexInvolution | src/cuckoo/include/cuckoohash_map.hh:919-935 | The alternate of the alternate bucket is the bucket itself, and no bucket is its own alternate, for every hashpower of at least 1 |
| Hashing.CandidatesAreBuckets | src/cuckoo/include/cuckoohash_map.hh:914-942 | Both candidate buckets of a hash value are buckets of the table, they differ, and each is the alternate of the other |
| Hashing.CandidatesAfterDoubling | src/cuckoo/include/cuckoohash_map.hh:1646-1671 | One more bit of hashpower leaves each candidate where it was or moves it exactly 2^hp further |
| BfsQueue.IncrementWraps | src/cuckoo/include/cuckoohash_map.hh:1007-1011 | The masked increment is the next ring cell and wraps to 0 after the last |
| BfsQueue.BQueue.Full | src/cuckoo/include/cuckoohash_map.hh:1033-1035 | The ring is full exactly when it holds 511 entries |
| BfsQueue.BQueue.Empty | src/cuckoo/include/cuckoohash_map.hh:1029-1031 | The ring is empty exactly when its contents are the empty sequence |
| BfsQueue.BQueue.Enqueue | src/cuckoo/include/cuckoohash_map.hh:1016-1020 | Appends one entry to the contents, also across the wrap-around |
| BfsQueue.BQueue.Dequeue | src/cuckoo/include/cuckoohash_map.hh:1022-1027 | Takes the oldest entry off the contents |
| CuckooLayout.LookupInCandidates | src/cuckoo/include/cuckoohash_map.hh:1430-1442 | In a well-formed table a key is bound exactly when one of its two candidate buckets holds it |
| CuckooLayout.AddItem | src/cuckoo/include/cuckoohash_map.hh:1324-1331 | Writing an item with its partial key into a free slot of a candidate bucket adds exactly that binding and keeps shape, placement and uniqueness |
| CuckooLayout.RemoveItem | src/cuckoo/include/cuckoohash_map.hh:1365-1382 | Freeing an occupied slot removes exactly that binding |
| CuckooLayout.ReplaceValue | src/cuckoo/include/cuckoohash_map.hh:1387-1402 | Overwriting a value rebinds exactly that key |
| CuckooLayout.MoveItem | src/cuckoo/include/cuckoohash_map.hh:1197-1213 | Moving an item to a free slot of its alternate bucket changes no binding and keeps the table well formed |
| CuckooLayout.OccupiedCount | src/cuckoo/include/cuckoohash_map.hh:1622-1632 | A well-formed table has as many occupied slots as its map has bindings |
| CuckooLayout.DepartingIsFilter | src/cuckoo/include/cuckoohash_map.hh:1660-1676 | The items that leave a bucket are exactly those that pass the test, each once |
| CuckooLayout.SplitPlacement | src/cuckoo/include/cuckoohash_map.hh:1666-1676 | An item is in one of its two new buckets after the split, whether it stays or leaves |
| CuckooLayout.StayingItem | src/cuckoo/include/cuckoohash_map.hh:1670-1676 | The assertion in the branch for staying items never fails |
| CuckooLayout.DoublingKeepsMap | src/cuckoo/include/cuckoohash_map.hh:1640-1687 | Doubling keeps every binding and leaves a table that is well formed at the next hashpower |
| CuckooPath.CodeRoundTrip | src/cuckoo/include/cuckoohash_map.hh:1099-1115 | Taking digits off the end of a path code recovers the slot chosen at every depth and leaves the root |
| CuckooPath.CyclicScanIsComplete | src/cuckoo/include/cuckoohash_map.hh:1056-1060 | The cyclic scan from the starting slot looks at every slot of the bucket |
| CuckooPath.ShortestWalkIsSimple | src/cuckoo/include/cuckoohash_map.hh:1040-1084 | If every shorter walk ends in a full bucket and this one does not, it visits pairwise distinct buckets |
| CuckooSearch.NthCovers | src/cuckoo/include/cuckoohash_map.hh:1053-1083 | Every path code of a level is the code of the entry at some position of that level, in the order in which the queue gets them |
| CuckooSearch.LookFinds | src/cuckoo/include/cuckoohash_map.hh:1063-1067 | A free slot met during the scan ends a shortest walk, its code stands for that walk, and the search is not exhausted |
| CuckooSearch.SearchEnds | src/cuckoo/include/cuckoohash_map.hh:1053-1083 | When the queue has run full or empty, every look that is taken before the queue is full has found an item, none left out |
| CuckooSearch.SmallLevelsAreSearched | src/cuckoo/include/cuckoohash_map.hh:1053-1083 | After a failed search every walk of each depth whose successors fit in the queue ends in a full bucket |
| CuckooSearch.ReachOfFourSlots | src/cuckoo/include/cuckoohash_map.hh:1053-1083 | With four slots per bucket the search looks at every slot of levels 0 to 2 and at all but the very last slot of level 3, and at nothing beyond |
| CuckooSearch.SearchCodesFitWord | src/cuckoo/include/cuckoohash_map.hh:964-974 | Under the static_assert no code in the queue, nor one extended by a slot, overflows 64 bits |
| CuckooPath.FoundCodeFitsWord | src/cuckoo/include/cuckoohash_map.hh:964-974 | The code of a found path fits in 64 bits |
| CuckooPath.FollowedPathIsIntact | src/cuckoo/include/cuckoohash_map.hh:1092-1143 | On an unchanged table the path read back from a found code has its items in place, distinct buckets and a free end |
| CuckooPath.ShiftKeepsMap | src/cuckoo/include/cuckoohash_map.hh:1190-1213 | One move along a hop keeps every binding, however stale or cyclic the rest of the path is |
| CuckooPath.ShiftKeepsIntact | src/cuckoo/include/cuckoohash_map.hh:1171-1215 | After a move from the end of an intact path the shortened path is intact |
| CuckooTable.LockOfNewBucket | src/cuckoo/include/cuckoohash_map.hh:1715-1727 | The fresh partner of a bucket shares its lock when 2^hp has reached 2^16, and has an added lock of its own otherwise |
| CuckooTable.WorkerRange | src/cuckoo/include/cuckoohash_util.hh:163-174 | The range of each worker lies within what is left of the work |
| CuckooTable.CuckooMap.ReserveCalc | src/cuckoo/include/cuckoohash_map.hh:335-353 | The smallest hashpower of at least 1 with room for n elements |
| CuckooTable.CuckooMap.constructor | src/cuckoo/include/cuckoohash_map.hh:368-386 | A well-formed empty table with room for the elements asked for and no lock taken |
| CuckooTable.CuckooMap.Create | src/cuckoo/include/cuckoohash_map.hh:368-386 | The arguments are refused exactly when the load factor is not between 0 and 1 or a table of the maximum hashpower has no room for the elements; otherwise the table is empty, has that room, and has the limits asked for |
| CuckooTable.CuckooMap.CheckHashpower | src/cuckoo/include/cuckoohash_map.hh:756-762 | Gives the lock back exactly when the hashpower is not the expected one |
| CuckooTable.CuckooMap.LockOne | src/cuckoo/include/cuckoohash_map.hh:767-772 | Holds the lock of the bucket, or nothing when the hashpower has changed |
| CuckooTable.CuckooMap.LockTwo | src/cuckoo/include/cuckoohash_map.hh:778-791 | Holds exactly the locks of both buckets, or nothing when the hashpower has changed; takes no lock twice |
| CuckooTable.CuckooMap.LockThree | src/cuckoo/include/cuckoohash_map.hh:798-818 | Holds exactly the locks of three buckets; the third container is active exactly when it shares no lock with the first two |
| CuckooTable.CuckooMap.SnapshotAndLockTwo | src/cuckoo/include/cuckoohash_map.hh:826-841 | Holds the locks of the two candidate buckets for the current hashpower |
| CuckooTable.CuckooMap.SlotSearch | src/cuckoo/include/cuckoohash_map.hh:1046-1084 | Fails if and only if no look within the reach of the queue finds a free slot, and otherwise finds a free slot at the end of a shortest walk; gives every lock back |
| CuckooTable.CuckooMap.DecodePath | src/cuckoo/include/cuckoohash_map.hh:1099-1115 | The slots taken off the code, from its end to its beginning, are its digits, and the rest is the root, which is 0 or 1 |
| CuckooTable.CuckooMap.CuckooPathSearch | src/cuckoo/include/cuckoohash_map.hh:1092-1143 | On an unchanged table fails if and only if the search is exhausted, and otherwise returns an intact path whose hops are alternate buckets of the recorded hash values, starting in an insert bucket |
| CuckooTable.CuckooMap.CuckooPathMove | src/cuckoo/include/cuckoohash_map.hh:1153-1216 | For any path, stale and cyclic ones included: the bindings and the placement stay on every exit; on success the first slot is free and both insert buckets are locked, otherwise no lock is held; an intact path succeeds |
| CuckooTable.CuckooMap.RunCuckoo | src/cuckoo/include/cuckoohash_map.hh:1226-1275 | On a table that nobody else changes exactly one search is made; it fails if and only if that search is exhausted, and otherwise leaves a free slot in a locked insert bucket |
| CuckooTable.CuckooMap.TryFindInsertBucket | src/cuckoo/include/cuckoohash_map.hh:1338-1360 | Tells whether the bucket lacks the key and, if so, a free slot or that there is none |
| CuckooTable.CuckooMap.FindSlot | src/cuckoo/include/cuckoohash_map.hh:1280-1297 | A slot that holds the key, or the bucket has none |
| CuckooTable.CuckooMap.ScansDecide | src/cuckoo/include/cuckoohash_map.hh:1430-1456 | A key is unbound exactly when the scans of both candidate buckets, partial keys included, find nothing |
| CuckooTable.CuckooMap.AddToBucket | src/cuckoo/include/cuckoohash_map.hh:1324-1331 | Adds one binding and counts one insertion |
| CuckooTable.CuckooMap.CuckooFind | src/cuckoo/include/cuckoohash_map.hh:1430-1442 | The value bound to the key, or nothing |
| CuckooTable.CuckooMap.Find | src/cuckoo/include/cuckoohash_map.hh:477-482 | The value bound to the key, or nothing; no lock stays taken |
| CuckooTable.CuckooMap.Contains | src/cuckoo/include/cuckoohash_map.hh:501-506 | Whether the key is bound |
| CuckooTable.CuckooMap.CuckooUpdateFn | src/cuckoo/include/cuckoohash_map.hh:1596-1608 | Applies the function to the value of a bound key, and changes nothing otherwise |
| CuckooTable.CuckooMap.UpdateFn | src/cuckoo/include/cuckoohash_map.hh:556-561 | The map operation, with the answer that tells whether the key was bound |
| CuckooTable.CuckooMap.Update | src/cuckoo/include/cuckoohash_map.hh:541-547 | Rebinds a bound key; answers whether there was one |
| CuckooTable.CuckooMap.CuckooDelete | src/cuckoo/include/cuckoohash_map.hh:1561-1572 | Removes the binding and counts one deletion; answers whether there was one |
| CuckooTable.CuckooMap.Erase | src/cuckoo/include/cuckoohash_map.hh:531-536 | Removes the binding of the key; answers whether there was one |
| CuckooTable.CuckooMap.CuckooSize | src/cuckoo/include/cuckoohash_map.hh:1624-1632 | Insertions minus deletions over all cores are the number of bindings and of occupied slots |
| CuckooTable.CuckooMap.CuckooInsert | src/cuckoo/include/cuckoohash_map.hh:1468-1525 | Reports a duplicate exactly when the key is bound, a full table exactly when it is unbound, both its buckets are full and the search is exhausted, with the table as it was, and otherwise adds the binding; gives both locks up in all cases |
| CuckooTable.CuckooMap.SplitBucket | src/cuckoo/include/cuckoohash_map.hh:1655-1679 | Splits one bucket in place into what stays and, in slot order, what leaves, under both locks |
| CuckooTable.CuckooMap.MoveUnderLock | src/cuckoo/include/cuckoohash_map.hh:1643-1680 | Splits exactly the old buckets guarded by one lock |
| CuckooTable.CuckooMap.MoveBuckets | src/cuckoo/include/cuckoohash_map.hh:1640-1685 | Splits exactly the old buckets guarded by a range of locks and gives back exactly these locks |
| CuckooTable.CuckooMap.MoveAllBuckets | src/cuckoo/include/cuckoohash_map.hh:1726-1736 | The ranges of all workers together split every bucket guarded by the locks of the old table, once |
| CuckooTable.CuckooMap.CuckooFastDouble | src/cuckoo/include/cuckoohash_map.hh:1693-1747 | Doubles the table and raises the hashpower by one, keeping the map; on every other exit the table is as it was; no lock stays taken |
| CuckooTable.LoadFactorOf | src/cuckoo/include/cuckoohash_map.hh:1634-1638 | The load factor times the number of slots of the table is the number of elements |
| CuckooTable.CuckooMap.CuckooLoadFactor | src/cuckoo/include/cuckoohash_map.hh:1634-1638 | The load factor times the number of slots is the number of occupied slots |
| CuckooTable.CuckooMap.WhyRefused | src/cuckoo/include/cuckoohash_map.hh:1546-1556 | Which exception a refusal throws, by the occupied slots, the number of slots and the limits of the table: the load factor is looked at before the maximum hashpower |
| CuckooTable.CuckooMap.CuckooInsertLoop | src/cuckoo/include/cuckoohash_map.hh:1537-1556 | Reports a duplicate exactly when the key is bound, and otherwise ends as the table it starts with decides: with the binding added, or, the map unchanged, with the exception for which the first table that is stuck refuses to grow |
| CuckooTable.CuckooMap.Insert | src/cuckoo/include/cuckoohash_map.hh:522-525 | The map operation, with its answer and its exceptions; after an exception the key is stuck in the table at hand, which refuses to grow for that very reason: for its load factor if and only if its occupied slots are fewer than the minimum share of all its slots |
| CuckooTable.CuckooMap.Upsert | src/cuckoo/include/cuckoohash_map.hh:571-599 | Updates a bound key with the function and never throws then; an unbound one is inserted or refused as the table it starts with decides, the first growth without a look at the load factor; after an exception the key is stuck in the table at hand, which refuses to grow for that very reason: for its load factor if and only if it has grown and its occupied slots are fewer than the minimum share |
| CuckooTable.RefusedExactlyWhenStuck | src/cuckoo/include/cuckoohash_map.hh:562-599 | In a table that may not grow an insertion of an unbound key throws if and only if both buckets are full and the search is exhausted, and then with the exception of the refusal |
| CuckooSearch.FullTableIsStuck | src/cuckoo/include/cuckoohash_map.hh:1046-1084 | In a table without a free slot every insertion of an unbound key is stuck |
| CuckooTable.TwoFullBucketsAreValid | src/cuckoo/include/cuckoohash_map.hh:368-386 | For every hash function any two bucketfuls of different keys make a well-formed table of hashpower 1 |
| CuckooTable.FullTableRefuses | src/cuckoo/include/cuckoohash_map.hh:1537-1556 | In such a table, if 1 is the maximum hashpower, an insertion or upsert of any further key throws: for the maximum hashpower, unless the load factor is checked and its minimum lies above 1 |
| CuckooTable.CuckooMap.Clear | src/cuckoo/include/cuckoohash_map.hh:394-397 | The empty map, no occupied slot and no lock taken |
| Doubling.RangesApart | src/cuckoo/include/cuckoohash_util.hh:163-174 | The ranges handed to different threads do not overlap |
| Doubling.RangesCover | src/cuckoo/include/cuckoohash_util.hh:163-174 | The ranges handed to the threads together cover the whole range |
| DoublingProof.ReleasedLocksGuardFinalBuckets | src/cuckoo/include/cuckoohash_map.hh:1640-1747 | In every run a lock that the doubling no longer holds guards only buckets in their final layout |
| DoublingProof.HolderFindsExactlyTheBound | src/cuckoo/include/cuckoohash_map.hh:1719-1727 | While the doubling is going on, a thread with both locks of a key finds it in its two new buckets, by partial key first unless keys are simple, exactly when it is bound, with its value |
| DoublingProof.EveryLockReleasedOnce | src/cuckoo/include/cuckoohash_map.hh:1682-1745 | No lock is released twice, and in the end every lock of the doubled table has been released exactly once, whether 2^hp is below or above the number of locks |
| DoublingProof.MovesNeverOverflow | src/cuckoo/include/cuckoohash_map.hh:1652-1671 | Every item that a worker moves goes to a free slot inside the fresh bucket, while both locks are still held |
| DoublingProof.FinishedTableIsTheMap | src/cuckoo/include/cuckoohash_map.hh:1693-1747 | The finished table, with all edits of other threads, is well formed and stands for the abstract map |
| DoublingProof.ExpanderNeverStuck | src/cuckoo/include/cuckoohash_map.hh:1728-1745 | The doubling can always take its next step until it has finished |
| DoublingEnds.DoublingIsBounded | src/cuckoo/include/cuckoohash_map.hh:1640-1745 | In every run, however other threads step in between, the steps of the doubling so far and those left to do never exceed what it had to do at first |
| DoublingEnds.DoublingFinishes | src/cuckoo/include/cuckoohash_map.hh:1693-1747 | From every state of every run the doubling finishes within the steps it has left, with a well-formed table of the next hashpower that stands for the map as it was |
| LockOrder.OrderTwo | src/cuckoo/include/cuckoohash_map.hh:778-791 | Two lock indices are taken in strictly increasing order, equal ones once |
| LockOrder.OrderThree | src/cuckoo/include/cuckoohash_map.hh:798-818 | Three lock indices are taken in strictly increasing order, equal ones once |
| LockOrder.MutualExclusion | src/cuckoo/include/cuckoohash_map.hh:756-889 | No bucket lock is held by two threads, in every state of every run |
| LockOrder.LocksInOrder | src/cuckoo/include/cuckoohash_map.hh:774-818 | A thread waits only for a lock above all it holds, and for the expansion lock only while it holds none |
| LockOrder.HashpowerStays | src/cuckoo/include/cuckoohash_map.hh:752-762 | From its check to its release a thread works with the hashpower of the table, which no step of another thread can change |
| LockOrder.NoDeadlock | src/cuckoo/include/cuckoohash_map.hh:1705-1716 | Whenever some thread is under way, some thread can go on with what it has begun |
| LockProgress.NobodyGoesOnForEver | src/cuckoo/include/cuckoohash_map.hh:752-818 | In every run, while nobody begins anything new, the threads together take a bounded number of steps, in whatever order and whatever they wait for |
| LockProgress.AllComeToRest | src/cuckoo/include/cuckoohash_map.hh:1705-1716 | From every state of every run all threads come to rest, within that many steps, if nobody begins anything new |
| LockProgress.RequestIsGranted | src/cuckoo/include/cuckoohash_map.hh:764-818 | A thread that asks for free locks and is not disturbed gets exactly these if the hashpower it has read is current, and otherwise gives its first lock back and holds nothing |
| LockProgress.DoublingIsGranted | src/cuckoo/include/cuckoohash_map.hh:1705-1716 | A thread that wants to double while all locks are free, and is not disturbed, gets every lock of the bigger table if the hashpower it has read is current, and otherwise gives the expansion lock back |
| TbbSlotSearch.SameLockOrder | src/hashtable-tbb/concurrent_hash_map.h:700-768 | The case distinctions of the older copy take the same locks in the same increasing order as sorting does |
| TbbSlotSearch.AlternateTwice | src/hashtable-tbb/concurrent_hash_map.h:904-916 | The alternate of the alternate bucket is the bucket itself |
| TbbSlotSearch.AlternateIsItself | src/hashtable-tbb/concurrent_hash_map.h:909-916 | The two buckets of a key coincide if and only if the tag, counted from one, is a multiple of the number of buckets |
| TbbSlotSearch.AlternateMayBeItself | src/hashtable-tbb/concurrent_hash_map.h:909-916 | A concrete hash value whose two buckets coincide, which cannot happen in the newer copy |
| TbbSlotSearch.LastLevelOverflows | src/hashtable-tbb/concurrent_hash_map.h:976-983 | For every bucket size that the static_assert allows, a complete last level is larger than the queue |
| TbbSlotSearch.HeadIsShallow | src/hashtable-tbb/concurrent_hash_map.h:1034-1061 | The entry at the head of the queue never has the greatest depth |
| TbbSlotSearch.Search.SlotSearch | src/hashtable-tbb/concurrent_hash_map.h:1028-1067 | For every allowed bucket size and whatever the looks find: the looks go through both roots and then through the queue, entry by entry and slot by slot in cyclic order; the search fails if and only if no look before the queue is full finds a free slot; a found path leads to the slot that the last look has found empty, under the code of its entry; every lock that is taken is given back and no lock is taken twice |
| TbbSlotSearch.QueueGrows | src/hashtable-tbb/concurrent_hash_map.h:1028-1067 | More looks that find items never leave fewer entries in the queue, so that the looks before it is full are a first stretch of all |
| TbbSlotSearch.LooksOfFourSlots | src/hashtable-tbb/concurrent_hash_map.h:1028-1067 | With four slots per bucket the search gives up after exactly 679 looks that have found items |
| ClhtLf.SnapGetEmptyIndexLoop | src/clht/include/clht_lf.h:187-200 | The first slot that is not in use, or -1 when there is none |
| ClhtLfProof.BucketIsSafe | src/clht/src/clht_lf.c:181-344 | In every state of every run no key is VALID in two slots, each INSRT slot belongs to exactly one put, and every step is an atomic map operation or leaves the map alone |
| ClhtLfProof.ValidSlotsAreImmutable | src/clht/src/clht_lf.c:241-344 | A slot that stays VALID keeps its key and its value |
| ClhtLfProof.HistoryIsKept | src/clht/src/clht_lf.c:241-344 | The history of a state extends that of every earlier state of the run |
| ClhtLfProof.Linearizable | src/clht/src/clht_lf.c:181-344 | Every completed get, put and remove returned what an atomic map operation returns at a moment of its interval; a get that finds a value and a put that fails need every put to bring a value of its own |
| ClhtLfSolo.CallAlone | src/clht/src/clht_lf.c:181-344 | From any state of any run, whatever the others are in the middle of, a call whose thread steps alone answers within 17 steps and does to the map what it answers: get and remove the bound value or 0, put 1 with its binding added or 0 for a present key; only a put of a new key needs an unused slot |
| ClhtLfSolo.PutNeedsRoom | src/clht/src/clht_lf.c:241-310 | A put of a new key alone in a bucket without an unused slot never answers, after however many steps |
| ClhtLfSolo.OperationEndsAlone | src/clht/src/clht_lf.c:181-344 | From any point of any operation in any run, its thread stepping alone, it has answered after at most 37 steps, or is a put of a new key without an unused slot |
| ClhtLfSolo.RoomUnlessBound | src/clht/src/clht_lf.c:241-310 | While nobody else is under way and the thread has no slot of its own, there is an unused slot exactly when fewer than three keys are bound |
| ClhtLfRace.EqualValuesMisleadGet | src/clht/src/clht_lf.c:187-199 | For any two keys and any value: a run whose only puts bring this value for either key, and a get returns it although its key has not been bound since the get began |
| ClhtLfRace.EqualValuesMisleadPut | src/clht/src/clht_lf.c:187-199 | In such a run a put, whatever its own value, returns false although its key has not been present since it began |
| ClhtLfRace.SameKeyMisleadsGet | src/clht/src/clht_lf.c:187-199 | Two puts of the same value for one key mislead a get of that key as well, with a put of any value for any other key between them |
| ClhtLbResProof.PutSeqAdds | src/clht/src/clht_lb_res.c:436-467 | The sequential put into the new table adds exactly one binding, linking a bucket when the chain is full |
| ClhtLbResProof.RepresentsOneMap | src/clht/src/clht_lb_res.c:477-491 | A table stands for one map only |
| ClhtLbResProof.CurrentTableIsTheMap | src/clht/src/clht_lb_res.c:292-625 | In every state of every run the published table holds exactly the bindings of the abstract map |
| ClhtLbResProof.Linearizable | src/clht/src/clht_lb_res.c:272-434 | Every completed put and remove, the early failures without the lock included, answered as an atomic map operation at a moment of its interval |
| ClhtLbResProof.ResizeIsForever | src/clht/include/clht_lb_res.h:335-350 | A bucket lock in RESIZE stays so and the chain under it never changes again |
| ClhtLbResProof.UpdatersWorkOnCurrent | src/clht/include/clht_lb_res.h:298-333 | Whoever holds a bucket for an update works on the published table, alone in that bin |
| ClhtLbResProof.TurnedAwayGoesOn | src/clht/include/clht_lb_res.h:316-330 | An updater turned away from a table waits for a resizer at work on it, or can already go on to a newer table |
| ClhtLbResProof.SwapFindsEverythingCopied | src/clht/src/clht_lb_res.c:577-603 | When the resizer swaps, the new table holds every binding |
| ClhtLbResSolo.CallAlone | src/clht/src/clht_lb_res.c:292-625 | While no operation is under way, a call whose thread steps alone answers and performs its operation on the map: a put answers whether it has added its key, a remove the value it has taken out or 0, a resize 1 with the map as it was |
| ClhtLbResSolo.OperationEndsAlone | src/clht/src/clht_lb_res.c:292-625 | From any point of an operation, while no other is under way, it ends when its thread steps alone |
| ClhtLbResSolo.ResizeAnswers | src/clht/src/clht_lb_res.c:521-625 | In any run a resize that is over has answered 1 or 0: 1 if it has published exactly one table, with as many buckets as it was asked for, and 0 if it has published none |
| ClhtLbResGet.GetsFromCurrent | src/clht/src/clht_lb_res.c:219-268 | A get that reads a table left in RESIZE reads, load by load, what a get would that has made all its loads while that table was still published |
| ClhtLbResGet.GetIsLinearizable | src/clht/src/clht_lb_res.c:219-268 | Every get, of a table that may be an old one by then, that returns zero has seen a moment at which its key was not bound; one that returns a value has seen a moment at which its key was bound to it, provided that no two puts store that value |
| ClhtLbResGet.GetEnds | src/clht/src/clht_lb_res.c:219-268 | Whatever the others do, a get returns after seven loads for each bucket of the longest chain that it meets, and one more: it waits for nobody |
| ClhtLbResGet.GetAlone | src/clht/src/clht_lb_res.c:219-268 | In any state of any run a get during which nobody else steps returns the value that its key is bound to, or 0 if it is not bound |
| ClhtLbResGetRace.EqualValuesMisleadGet | src/clht/src/clht_lb_res.c:241-257 | For any two keys, equal ones included, and any two values: a run in which one value is stored twice and a get returns it, although its key is not bound to it from the first load of the get to its last |
| ClhtLbResStale.StaleResizerLosesTheMap | src/clht/src/clht_lb_res.c:528-605 | A resizer that gets the resize lock with a table that is no longer the published one goes on to publish an empty table, which stands for the map if and only if the map is empty |
| ClhtLbResOverlap.StaleResizerIsReached | src/clht/src/clht_lb_res.c:521-605 | From a fresh table of any size, for any put and any two new sizes: a run after which a resizer is about to take the free resize lock with a table that is no longer the published one, while the map is not empty |
| ClhtLbResOverlap.OverlapLosesTheBinding | src/clht/src/clht_lb_res.c:521-605 | When that resizer goes on, it publishes a table that does not stand for the map |
| ClhtMapRem.RemovedExactlyOnce | src/clht/src/clht_lf_only_map_rem.c:241-352 | The committed inserts are, as a multiset, the entries in the bucket and the removed entries together |
| ClhtMapRem.AnswersAreTrue | src/clht/src/clht_lf_only_map_rem.c:241-352 | A remove that returns a value took out one entry of its key with that value, one that returns 0 none; a put that returns true committed its own entry, one that returns false none |
| ClhtMapRemZero.ReturnMeansAbsentOrTagged | src/clht/src/clht_lf_only_map_rem.c:308-352 | A remove that has returned, zero in particular, has seen a moment since it began at which its key was absent or its entry was tagged by another thread |
| ClhtMapRemZero.TagsOwned | src/clht/src/clht_lf_only_map_rem.c:327-345 | In every state of every run each tagged slot has a remove at work that is between putting the tag on and taking it off |
| ClhtMapRemMissed.HeldKeyIsMissed | src/clht/src/clht_lf_only_map_rem.c:308-352 | For any two keys and any values: a run in which a remove returns zero while its key is in the bucket from its call to the end of the run, because a remove of the other key has tagged the entry, and has put it back in the end |
| ClhtMapRemFalse.FalseMeansPresent | src/clht/src/clht_lf_only_map_rem.c:183-304 | A put that has returned false has seen a moment since it began at which its key was present, provided that no two puts of the run store the same value |
| ClhtMapRemFalse.FalseWithoutPresence | src/clht/src/clht_lf_only_map_rem.c:183-304 | For any two keys and any values: a run in which one value is stored twice and a put returns false although its key is in no slot from its call to its return |
| ClhtMapRem.KeysAreHeldOnce | src/clht/src/clht_lf_only_map_rem.c:183-304 | No key is in two slots, VALID and REMOV slots together |
| ClhtMapRem.EntriesAreNotHarmed | src/clht/src/clht_lf_only_map_rem.c:327-345 | An entry keeps its key and value until a remove of that very key takes it out; a remover that tagged the entry of another key puts it back |
| ClhtMapRemSolo.CallAlone | src/clht/src/clht_lf_only_map_rem.c:183-352 | From any state of any run a call whose thread steps alone answers within 20 steps: a put adds exactly its entry and answers 1, or answers 0 for a present key; a remove takes out an untagged entry of its key and returns its value, or returns 0 if there is none; only a put of a new key needs an unused slot |
| ClhtMapRemSolo.PutNeedsRoom | src/clht/src/clht_lf_only_map_rem.c:241-304 | A put of a new key alone in a bucket without an unused slot never answers |
| ClhtMapRemSolo.OperationEndsAlone | src/clht/src/clht_lf_only_map_rem.c:183-352 | From any point of any operation in any run, its thread stepping alone, it has answered after at most 40 steps, or is a put of a new key without an unused slot |
| ClhtLockIns.RemovedExactlyOnce | src/clht/src/clht_lb_lock_ins.c:242-345 | The committed inserts are, as a multiset, the entries that can be found and the removed entries together |
| ClhtLockIns.AnswersAreTrue | src/clht/src/clht_lb_lock_ins.c:242-345 | Each answer tells what the operation did; the value read after the compare-and-swap is the value of the entry taken out |
| ClhtLockInsAnswers.RemoveReturnsAfterAbsence | src/clht/src/clht_lb_lock_ins.c:312-345 | A remove that has returned, zero in particular, has seen a moment since it began at which its key could not be found |
| ClhtLockInsAnswers.PutReturnsAfterPresence | src/clht/src/clht_lb_lock_ins.c:223-271 | A put that has returned, false in particular, has seen a moment since it began at which its key could be found |
| ClhtLockIns.KeysAreHeldOnce | src/clht/src/clht_lb_lock_ins.c:256-308 | No key can be found in two slots |
| ClhtLockIns.OnePutAtATime | src/clht/src/clht_lb_lock_ins.c:256-304 | At most one put is past the lock, and it holds the lock |
| ClhtLockIns.BlockedSlotsStay | src/clht/src/clht_lb_lock_ins.c:324-334 | A blocked slot stays blocked, with its value, until the remove that blocked it frees it |
| ClhtLockInsSolo.CallAlone | src/clht/src/clht_lb_lock_ins.c:223-345 | From any state of any run a call whose thread steps alone answers within 2 n + 7 steps on a chain of n slots: a put adds exactly its entry and answers 1, or answers 0 for a present key; a remove takes out the entry of its key and returns its value, or 0; only a put of a new key needs the lock to be free |
| ClhtLockInsSolo.OperationEndsAlone | src/clht/src/clht_lb_lock_ins.c:223-345 | From any point of any operation in any run, its thread stepping alone, it answers within a number of steps that the chain and the point give, or is a put that waits for a lock somebody else has |
| ClhtLockInsSolo.LockIsInUse | src/clht/src/clht_lb_lock_ins.c:256-308 | In every state of every run the lock is free or its holder is in its critical section |
| ClhtPacked.PackedShape | src/clht/src/clht_lb_packed.c:216-219 | Full buckets come first, then at most one partly filled one, then only empty ones |
| ClhtPacked.Exists | src/clht/src/clht_lb_packed.c:225-247 | Whether the chain holds the key, though the scan stops at the first bucket that is not full |
| ClhtPacked.Lookup | src/clht/src/clht_lb_packed.c:193-222 | The value of the key in the chain, or 0 |
| ClhtPacked.PutInChain | src/clht/src/clht_lb_packed.c:266-308 | Appends the entry, in the first gap or in a new bucket, exactly when the chain lacks the key; the chain stays packed |
| ClhtPacked.LastUsed | src/clht/src/clht_lb_packed.c:339-343 | The bucket with the last entry of the chain |
| ClhtPacked.FillHole | src/clht/src/clht_lb_packed.c:345-356 | Puts the last entry of the chain, which may lie several buckets further, in the place of the removed one |
| ClhtPacked.RemoveFromChain | src/clht/src/clht_lb_packed.c:330-369 | Takes out the entry of the key and returns its value, or changes nothing and returns 0; the chain stays packed |
| ClhtPacked.PackedTable.Get | src/clht/src/clht_lb_packed.c:187-223 | The value bound to the key, or 0 |
| ClhtPacked.PackedTable.Put | src/clht/src/clht_lb_packed.c:251-309 | Adds the binding exactly when the key is unbound, and answers so |
| ClhtPacked.PackedTable.Remove | src/clht/src/clht_lb_packed.c:314-370 | Removes the binding and returns its value, or 0 |
| ClhtPacked.PackedTable.Size | src/clht/src/clht_lb_packed.c:410-439 | The number of bindings, though each chain is counted only up to its first bucket that is not full |
| ClhtPacked.PackedTable.constructor | src/clht/src/clht_lb_packed.c:128-172 | An empty table |
| ClhtPacked.TotalIsSize | src/clht/src/clht_lb_packed.c:416-434 | The entries of the first bins are as many as the bindings whose keys fall there |
| ClhtGrowth.CopyKeepsFirstThree | src/clht/src/clht_lf_res.c:369-404 | Each bucket of the new table ends up with the first three entries that come to it |
| ClhtGrowth.CopyKeepsMapIffFits | src/clht/src/clht_lf_res.c:369-468 | The copy keeps the map if and only if no new bucket gets more than three entries |
| ClhtGrowth.OverflowsIffNotFits | src/clht/src/clht_lf_res.c:385-386 | The no-space exit is reached if and only if some new bucket would get more than three entries |
| ClhtGrowth.BinAfterGrowth | src/clht/src/clht_lf_res.c:437-441 | After growth by a power of two the bin of a key, modulo the old number of buckets, is its old bin |
| ClhtGrowth.GrowthFits | src/clht/src/clht_lb_res_no_next.c:460-508 | Growing a table with a power of two of buckets by a power of two always fits and keeps the map |
| ClhtGrowth.ShrinkingMayLose | src/clht/src/clht_lf_res.c:442-445 | A concrete table of two buckets whose bindings do not survive halving |
| ClhtGrowth.Pow2Roundup | src/clht/include/utils.h:428-437 | The least power of two that is not below x, for x up to 2^31, and 0 beyond |
| ClhtGrowth.GrowthFactor | src/clht/src/clht_lf_res.c:554-563 | The growth factor is the least power of two, from 2 on, that is not below the ratio |
| ClhtGrowth.ChainlessTable.PutSeq | src/clht/src/clht_lb_res_no_next.c:380-397 | Stores the entry in the first free slot of its bucket; reports no space exactly when the bucket is full; only the lock-free variant answers false then |
| ClhtGrowth.ChainlessTable.BucketCpy | src/clht/src/clht_lb_res_no_next.c:400-419 | Puts all live entries of the bucket into the new table, in order |
| ClhtGrowth.ResizeCopy | src/clht/src/clht_lf_res.c:463-468 | The copy loop computes the copy and runs out of space exactly when it does not fit |
| ClhtGrowth.Grow | src/clht/src/clht_lf_res.c:437-468 | With the computed growth factor, the least power of two from 2 on that is not below the ratio, the no-space exit is not reached, and the new table has that many times the buckets and stands for the same map |
| TicketLock.MutualExclusion | include/lock_if.h:285-364 | At most one thread is between getting the lock and having given it back |
| TicketLock.FirstComeFirstServed | include/lock_if.h:285-364 | Threads enter in the order in which they drew tickets, trylock included |
| TicketLock.TicketsAreAnInterval | include/lock_if.h:285-364 | The outstanding tickets are exactly the cyclic interval from curr to ticket, each with one thread, while both counters wrap |
| TicketLock.TryLockTakesAFreeLock | include/lock_if.h:337-353 | trylock succeeds only when nobody has the lock or waits for it |
| TicketLock.TryLockAlone | include/lock_if.h:337-353 | From every state of every run a trylock whose thread steps alone never waits: it gets the lock, with its two steps, if and only if nobody has the lock or waits for it, and otherwise gives up at its first look |
| TicketLock.LockAlone | include/lock_if.h:285-331 | A lock that nobody has or waits for is got with the ticket and one look |
| TicketLock.UnlockPassesOn | include/lock_if.h:355-364 | The two steps of unlock give the lock back to the thread that has waited longest, which gets it at its next look, or leave it free when nobody waits |
| TicketLock.NextInLineEnters | include/lock_if.h:325-331 | When a thread waits and nobody has the lock, the next one in line gets it at its next look |

## Left out

- CuckooTable.CuckooMap.CuckooInsertLoop: claims termination only through a bound on the hashpower for which memory can be had (`memoryLimit`); without one, keys with equal hash values can force endless doubling.
- CuckooTable.CuckooMap.SnapshotAndLockTwo: run by one thread the hashpower cannot change in between, so that the retry is not modelled here; `LockOrder` models the change.
- TbbSlotSearch.Search.SlotSearch: says exactly when the search gives up and where a found path leads by what the looks have found, one after the other; that the path is a shortest one in an unchanged table is proved for the newer copy.
- ClhtLbResGet.GetIsLinearizable: explains a returned value only if no two puts of the run store it; `ClhtLbResGetRace.EqualValuesMisleadGet` shows that it is false otherwise.
- ClhtLfProof.Linearizable: lets a get that finds a value and a put that fails be explained only in runs with distinct put values; the runs in `ClhtLfRace` show that equal values break both.
- ClhtMapRemFalse.FalseMeansPresent: assumes that no two puts store the same value; `ClhtMapRemFalse.FalseWithoutPresence` shows that it is false otherwise.
- ClhtPacked.PackedTable.Get: run alone; the unlocked reads of `clht_get` and `bucket_exists` racing with a removal are not modelled, nor are the bin locks themselves.
- LockOrder.MutualExclusion: threads lock one, two or three buckets, or double the table; `clear` and `lock_table`, which take all locks without the expansion lock, are not among the threads, because their unlocker counts the lock array anew and the array may have grown.
- Doubling by `cuckoo_expand_simple`, which `rehash`, `reserve` and maps with throwing move constructors use.
- The partial key is the upper byte as a signed char, as on x86; hash values are natural numbers of which the masks use the low 64 bits.
- Rounding: load factors are real numbers; the thresholds of `ht_status` are not modelled, so that a resize may begin at any time and with any number of buckets.
- Two overlapping calls of `ht_resize_pes` in the lock-based table: it reads the old table before it takes the resize lock, and the runs assume that this table is still the published one (`ClhtLbRes.FreshResizer`); what happens otherwise is shown in `ClhtLbResStale` and `ClhtLbResOverlap`; halving a table of one bucket; helpers of a resize (the code has CLHT_HELP_RESIZE = 0); status checks inside an update (the code has CLHT_DO_CHECK_STATUS = 0).
- Updates that race with the copy in the lock-free resizing table: the copy is modelled on a table at rest. The lock-based table without chains is modelled for its copy only.
- In the step machines of the lock-free, the byte-tagging and the blocked-key variants one bucket or one chain is modelled: bins share no memory. Of these three only the lock-free bucket has its `clht_get` modelled. A put that finds every slot of a lock-free bucket in use never answers (`ClhtLfSolo.PutNeedsRoom`): the resize that would help is another variant.
- Reuse of memory: hazard pointers, garbage collection and retired tables. Tables and buckets stay readable.
- Wrap-around of the version counter between a thread's copy of the word and its compare-and-swap, and bucket counts beyond 32 bits.
- Weak memory ordering, fences, prefetching, transactional memory and the back-off of the ticket lock.
- Iterators, `locked_table`, `reference`, allocators and exception plumbing; a failing allocation of the doubled array is modelled, with all locks given back.
- The linked lock-based variant, the TBB and RCU wrappers, the hopscotch stub, and everything that measures or prints.
