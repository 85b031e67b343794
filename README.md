# Amoeba repartition commit and access-method facades, in Dafny

This project models three pieces of the Amoeba adaptive-partitioning store.

- **The distributed repartition iterator's commit step.** `finish()` commits the new partitions built during a repartitioning scan. For each new partition it:
  1. takes a coordination-service lock named after the partition;
  2. stores the partition;
  3. adds its record count to the bucket counts;
  4. releases the lock.

  It then drops every old partition and removes its bucket count. It empties both partition maps, closes the bucket-count store and closes the lock helper. The lock helper (`PartitionLock`) keeps, for each partition id, the handle of the latest lock it took. Closing it releases every handle in that map and then closes the client.
- **The `core.access` access method.** `init` installs the stored index key and an optimizer. It replaces the configured predicates with their translation onto the key's virtual attributes, which changes each predicate's attribute and nothing else. `getPartitionSplits` asks the optimizer for the access plan or the adaptive plan. `isRelevant` admits everything. `PartitionSplit` holds partition ids and an iterator.
- **The `core.adapt` access method.** Its `init` installs a raw key on the global delimiter and an optimizer. It writes back the query array the configuration held before the optimizer was built. The other members behave as in `core.access`.

Everything the code hands to outside collaborators is recorded, in call order, as an event in an `Environment`'s trace:
- the coordination-service client: start, acquire, release and close;
- the partitions' file store: store and drop;
- the bucket-count store: open, add, remove and close.

`RepartitionTrace.FinishTrace` gives the exact trace `finish()` produces from the order in which the two partition maps, and later the lock map, were enumerated. The lemmas in `RepartitionTrace` prove the commit protocol's ordering properties about that trace.

Java's `HashMap` iteration order is unspecified. Each loop over a map therefore picks any key not yet visited (`NextKey`). The methods return the visiting order as a ghost result and prove that it lists every key exactly once (`Enumerates`).

A lock path is kept symbolically as `LockPath(partitionId)`. Its text, `LockPath.Text()`, is the prefix `/partition-lock-` followed by the id written as Java writes an `int`. `LockNames` proves that the id can be read back from that text, so distinct partitions never share a lock. A lock handle is `Lease(path, serial)`, where `serial` is the position in the trace of the acquiring call. Every acquisition therefore yields a handle distinct from all earlier ones.

Files:
- `lock_names.dfy` (module `LockNames`);
- `repartition_trace.dfy` (module `RepartitionTrace`);
- `repartition.dfy` (module `DistributedRepartition`);
- `core_access.dfy` (module `CoreAccess`);
- `core_adapt.dfy` (module `CoreAdapt`).

The two access-method packages are modelled in separate modules. Each has its own access method, key, configuration and split classes, as the two Java packages do. Both Java packages use the same optimizer class, from `core.adapt.opt`. Each module declares its own stand-in for that optimizer, over its own configuration class.

## Model

| member | source | states |
|---|---|---|
| LockNames.LockName | src/core/access/iterator/DistributedRepartitionIterator.java:55 | a partition's lock path starts with the fixed prefix `/partition-lock-` and has the id's text after it |
| LockNames.NatTextRoundTrip | src/core/access/iterator/DistributedRepartitionIterator.java:67 | the decimal text of a natural number reads back to that number |
| LockNames.IntTextRoundTrip | src/core/access/iterator/DistributedRepartitionIterator.java:67 | Java's rendering of an int, with a leading '-' for negatives, reads back to that int |
| LockNames.LockNameRoundTrip | src/core/access/iterator/DistributedRepartitionIterator.java:67 | the partition id can be recovered from its lock path |
| LockNames.LockNameInjective | src/core/access/iterator/DistributedRepartitionIterator.java:67 | two partition ids give the same lock path exactly when they are equal |
| LockNames.LockPathTextInjective | src/core/access/iterator/DistributedRepartitionIterator.java:67 | two symbolic lock paths have the same text exactly when they are the same path |
| DistributedRepartition.Environment.AcquireLock | src/core/access/iterator/DistributedRepartitionIterator.java:67 | acquiring a lock appends one lock event whose handle is told apart by its trace position |
| DistributedRepartition.NextKey | src/core/access/iterator/DistributedRepartitionIterator.java:82 | a map iteration step yields one of the keys not yet visited |
| DistributedRepartition.PartitionLock.constructor | src/core/access/iterator/DistributedRepartitionIterator.java:59-62 | a new lock helper starts its client (one start event) and has an empty lock map |
| DistributedRepartition.PartitionLock.LockPartition | src/core/access/iterator/DistributedRepartitionIterator.java:64-69 | one lock call on the partition's own path; the map entry for the id is set, or overwritten, to the new handle and no other entry changes |
| DistributedRepartition.PartitionLock.UnlockPartition | src/core/access/iterator/DistributedRepartitionIterator.java:71-78 | an id never locked through this helper is an error and releases nothing; otherwise exactly the recorded handle is released; the map is never changed |
| DistributedRepartition.PartitionLock.Close | src/core/access/iterator/DistributedRepartitionIterator.java:80-85 | releases the handle of every key of the map, each key once, in the map's enumeration order, and then closes the client |
| DistributedRepartition.DistributedRepartitionIterator.Finish | src/core/access/iterator/DistributedRepartitionIterator.java:29-48 | the trace gains exactly `FinishTrace` of the enumeration orders, each order lists its map's keys once each, and both partition maps end empty |
| DistributedRepartition.DistributedRepartitionIterator.CommitNewPartitions | src/core/access/iterator/DistributedRepartitionIterator.java:34-39 | the first loop visits every new partition once; the trace gains one commit block per partition; the lock map becomes `LocksAfter` of the visited partitions |
| DistributedRepartition.DistributedRepartitionIterator.CommitPartition | src/core/access/iterator/DistributedRepartitionIterator.java:35-38 | one round of the first loop appends lock, store, count-add and unlock of the same handle, and records that handle for the partition |
| DistributedRepartition.DistributedRepartitionIterator.DropOldPartitions | src/core/access/iterator/DistributedRepartitionIterator.java:40-43 | the second loop visits every old partition once and appends a drop then a count removal for each |
| RepartitionTrace.VisitStep | src/core/access/iterator/DistributedRepartitionIterator.java:34 | taking a pending key keeps a map walk free of repeats and loses no key |
| RepartitionTrace.VisitDone | src/core/access/iterator/DistributedRepartitionIterator.java:34 | a walk with nothing pending has enumerated every key exactly once |
| RepartitionTrace.CommitTraceBlockAt | src/core/access/iterator/DistributedRepartitionIterator.java:34-39 | the k-th new partition's store and count-add sit between a lock and an unlock of its own handle, at positions 4k to 4k+3 of the first loop's trace |
| RepartitionTrace.CommitTraceLocks | src/core/access/iterator/DistributedRepartitionIterator.java:35 | every lock call of the first loop locks the partition whose block it opens, with the handle of that call |
| RepartitionTrace.CommitTraceKinds | src/core/access/iterator/DistributedRepartitionIterator.java:34-39 | the first loop makes only lock, store, count-add and unlock calls |
| RepartitionTrace.DropTraceBlocks | src/core/access/iterator/DistributedRepartitionIterator.java:40-43 | the second loop is exactly one drop followed by one count removal per old partition, and nothing else |
| RepartitionTrace.LocksAfterKeys | src/core/access/iterator/DistributedRepartitionIterator.java:65-68 | after the first loop the lock map's keys are exactly the new partitions' ids |
| RepartitionTrace.LocksAfterLatest | src/core/access/iterator/DistributedRepartitionIterator.java:65-68 | re-locking overwrites: the map keeps the handle of the latest lock taken on each id |
| RepartitionTrace.ReleasesAt | src/core/access/iterator/DistributedRepartitionIterator.java:82-83 | the c-th release of `close()` releases the handle recorded for the c-th key enumerated |
| RepartitionTrace.FinishTraceAt | src/core/access/iterator/DistributedRepartitionIterator.java:29-48 | layout of `finish()`'s trace position by position: client start, count-store open, first loop, second loop, count-store close, releases, client close |
| RepartitionTrace.FinishCommitsEachNewPartition | src/core/access/iterator/DistributedRepartitionIterator.java:34-39 | in the whole trace, each new partition's store and count-add happen strictly between the lock and the unlock of its own handle |
| RepartitionTrace.FinishDropsEachOldPartition | src/core/access/iterator/DistributedRepartitionIterator.java:40-43 | each old partition is dropped and then has its count removed, after the first loop's calls |
| RepartitionTrace.NewCommittedBeforeOldDropped | src/core/access/iterator/DistributedRepartitionIterator.java:34-43 | every store or count-add of a new partition precedes every drop or count removal of an old one |
| RepartitionTrace.LocksOnlyNewPartitions | src/core/access/iterator/DistributedRepartitionIterator.java:34-39 | every lock taken by `finish()` is on a new partition's path, with a handle naming the acquiring call |
| RepartitionTrace.OldPartitionsNeverLocked | src/core/access/iterator/DistributedRepartitionIterator.java:40-43 | no lock taken by `finish()` has the path text of a partition that is not new |
| RepartitionTrace.FinishClosesCountsBeforeClient | src/core/access/iterator/DistributedRepartitionIterator.java:44-47 | the count store is closed, then one release per key of the lock map follows, and the client's close is the last event |
| RepartitionTrace.NothingClosedEarly | src/core/access/iterator/DistributedRepartitionIterator.java:44-47 | neither the count store nor the client is closed before every partition is committed and dropped |
| RepartitionTrace.LatestLockReleasedTwice | src/core/access/iterator/DistributedRepartitionIterator.java:80-85 | the latest handle of each new partition is released twice: at the end of its commit block and again when the helper closes, since unlocking never removes a map entry |
| CoreAccess.AccessMethod.constructor | src/main/java/core/access/AccessMethod.java:31-32 | a new access method has no optimizer and the default key |
| CoreAccess.AccessMethod.Init | src/main/java/core/access/AccessMethod.java:43-63 | installs the stored key and a fresh optimizer on `conf`; the configured predicates become a fresh array equal to `Virtualize` of the real predicates; index and queries are loaded |
| CoreAccess.Virtualize | src/main/java/core/access/AccessMethod.java:54 | the virtual predicate array has the real array's length |
| CoreAccess.VirtualizeAt | src/main/java/core/access/AccessMethod.java:55-58 | virtual predicate j has the key's image of real predicate j's attribute, and real predicate j's type, value and comparison |
| CoreAccess.VirtualizeEach | src/main/java/core/access/AccessMethod.java:54-59 | an array filled position by position with translated predicates is exactly the translation of the real array |
| CoreAccess.VirtualizeRoundTrip | src/main/java/core/access/AccessMethod.java:55-58 | with an inverse of the key's mapping, translating back restores the real predicates: nothing but attribute numbering changes, and order is kept |
| CoreAccess.AccessMethod.IsRelevant | src/main/java/core/access/AccessMethod.java:78-80 | every partition is relevant to every predicate |
| CoreAccess.AccessMethod.GetPartitionSplits | src/main/java/core/access/AccessMethod.java:95-101 | with `justAccess` the splits are exactly the optimizer's access plan for `q`, otherwise exactly its adaptive plan |
| CoreAccess.PartitionSplit.constructor | src/main/java/core/access/AccessMethod.java:115-126 | the getters return exactly the partition-id array and iterator the split was built with |
| CoreAdapt.AccessMethod.constructor | src/main/java/core/adapt/AccessMethod.java:26-27 | a new access method has neither an optimizer nor a key |
| CoreAdapt.AccessMethod.Init | src/main/java/core/adapt/AccessMethod.java:37-49 | installs a fresh raw key on the global delimiter and a fresh optimizer on `conf`; the configured query array is the same array as before, with the same contents; index and queries are loaded |
| CoreAdapt.AccessMethod.IsRelevant | src/main/java/core/adapt/AccessMethod.java:67-69 | every partition is relevant to every predicate |
| CoreAdapt.AccessMethod.GetPartitionSplits | src/main/java/core/adapt/AccessMethod.java:85-91 | with `justAccess` the splits are exactly the optimizer's access plan for `q`, otherwise exactly its adaptive plan |
| CoreAdapt.PartitionSplit.constructor | src/main/java/core/adapt/AccessMethod.java:104-115 | the getters return exactly the partition-id array and iterator the split was built with |

## Left out

- The coordination-service client (Curator) is recorded as start, acquire, release and close events. The model does not capture blocking on a held lock, lease expiry or mutual exclusion between nodes.
- `Partition.store(true)`, `Partition.drop()` and the `BucketCounts` store are recorded as calls only; their file-system effects are outside the model. The `true` flag of `store` is not recorded.
- HDFS access is not modelled: the file-system handle and the reading of the replica's `info` file. The key that `core.access` reads from that file enters `Init` as its attribute mapping (`storedAttrIndex`). `Globals.load` in `core.adapt` enters as the delimiter it loads.
- The index keys' parsing of their info text is not part of this model. `CartilageIndexKey` holds its attribute mapping as a function value; the key the `core.access` field initialiser builds from '|' receives its mapping as a constructor argument.
- The optimizer is not part of this model:
  - `buildAccessPlan` and `buildPlan` are function values (`Planner`);
  - `loadIndex` and `loadQueries` only set flags;
  - its constructor may reassign the fields of the configuration it is given; it is taken not to write the predicate array the configuration holds, nor that array's elements.
- The Java `Predicate` class is not part of this model. Its `type`, `value` and `predtype` fields are stand-ins (`ty: int`, `value: string`, `predtype: int`) that the model only copies.
- `getIndex`, `getKey` and `PartitionLock.getClient` are plain getters and are not modelled separately. The model reads the corresponding fields directly.
- The `RepartitionIterator` superclass and the constructors of `DistributedRepartitionIterator` are not modelled. The model has only the fields that `finish()` reads and resets.
- The empty `finish()` of the `core.access` access method is not modelled, because it does nothing.
- `CoreAccess.AccessMethod.Init` assumes the optimizer's constructor, whose code is not part of this model, leaves alone the predicate array the configuration holds and that array's elements. The promise that the installed predicates are the translation of the configured ones rests on that assumption.
- `CoreAdapt.AccessMethod.Init` assumes the optimizer's constructor leaves alone the query array the configuration holds and that array's elements. The promise that the same query contents are written back rests on that assumption.
- `CoreAccess.AccessMethod.GetPartitionSplits` and `CoreAdapt.AccessMethod.GetPartitionSplits` require an initialised access method. Java throws a `NullPointerException` when either is called before `init`; the model does not capture that exception.
- Partition ids and record counts are unbounded integers. Java's 32-bit `int` width is not modelled; no property here depends on it.
- `DistributedRepartition.PartitionLock.UnlockPartition`: Java's `RuntimeException` for an id that was never locked is returned as the `NotLocked` result, with no release. `close()` and `finish()` only unlock recorded ids. Both methods assert that every unlock they make returns `Unlocked`.
- `DistributedRepartition.DistributedRepartitionIterator.CommitNewPartitions` requires an empty lock map. In `finish()` the loop always runs on the lock helper created just before it, at line 31.
- Failure recovery in `finish()` is not modelled: there is no rollback and no release of locks on an exception, because the code has none.
- HashMap iteration order is unspecified. Each loop picks any pending key, so the model covers every order but names none.
- `src/main/java/core/adapt/spark/SparkJoinQuery.java` is not part of this model. It is Spark and Hadoop configuration.
