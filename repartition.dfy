/**
 * The distributed repartition iterator's commit step (`finish()`) and its
 * per-partition lock helper (`PartitionLock`), as classes whose methods update
 * their fields in place and record every call into an outside collaborator in
 * an `Environment`'s trace.
 */
module DistributedRepartition {
  import opened LockNames
  import opened RepartitionTrace

  /**
   * The collaborators outside the core: the coordination-service client, the
   * partitions' file-store operations and the bucket-count store. Their
   * behaviour is not modelled; each call is recorded, in order, in `trace`.
   */
  class Environment {
    var trace: seq<Event>

    method CreateAndStartClient(hosts: string)
      modifies this
      ensures trace == old(trace) + [StartClient(hosts)]
    {
      trace := trace + [StartClient(hosts)];
    }

    /** Acquires the lock at `path`; the handle is told apart by the position of this call. */
    method AcquireLock(path: LockPath) returns (lease: Lease)
      modifies this
      ensures lease == Lease(path, |old(trace)|)
      ensures trace == old(trace) + [Lock(lease)]
    {
      lease := Lease(path, |trace|);
      trace := trace + [Lock(lease)];
    }

    method ReleaseLock(lease: Lease)
      modifies this
      ensures trace == old(trace) + [Unlock(lease)]
    {
      trace := trace + [Unlock(lease)];
    }

    method CloseClient()
      modifies this
      ensures trace == old(trace) + [Event.CloseClient]
    {
      trace := trace + [Event.CloseClient];
    }

    method OpenBucketCounts()
      modifies this
      ensures trace == old(trace) + [OpenCounts]
    {
      trace := trace + [OpenCounts];
    }

    method StorePartition(partitionId: int)
      modifies this
      ensures trace == old(trace) + [Store(partitionId)]
    {
      trace := trace + [Store(partitionId)];
    }

    method AddToBucketCount(partitionId: int, count: int)
      modifies this
      ensures trace == old(trace) + [AddCount(partitionId, count)]
    {
      trace := trace + [AddCount(partitionId, count)];
    }

    method DropPartition(partitionId: int)
      modifies this
      ensures trace == old(trace) + [Drop(partitionId)]
    {
      trace := trace + [Drop(partitionId)];
    }

    method RemoveBucketCount(partitionId: int)
      modifies this
      ensures trace == old(trace) + [RemoveCount(partitionId)]
    {
      trace := trace + [RemoveCount(partitionId)];
    }

    method CloseBucketCounts()
      modifies this
      ensures trace == old(trace) + [CloseCounts]
    {
      trace := trace + [CloseCounts];
    }
  }

  lemma NonEmptyHasKey(s: set<int>)
    requires s != {}
    ensures exists k :: k in s
  {
    if forall k :: k !in s {
      assert false;
    }
  }

  /** The next key a map's iteration yields, among those not yet visited. */
  method NextKey(pending: set<int>) returns (k: int)
    requires pending != {}
    ensures k in pending
  {
    NonEmptyHasKey(pending);
    k :| k in pending;
  }

  /** Outcome of an unlock: `NotLocked` is the runtime error raised for an id never locked here. */
  datatype UnlockStatus = Unlocked | NotLocked(partitionId: int)

  /** Per-partition locks taken through one coordination-service client. */
  class PartitionLock {
    const client: Environment
    /** The handle of the latest lock taken on each partition id through this helper. */
    var partitionLocks: map<int, Lease>

    constructor (zookeeperHosts: string, env: Environment)
      modifies env
      ensures client == env
      ensures partitionLocks == map[]
      ensures env.trace == old(env.trace) + [StartClient(zookeeperHosts)]
    {
      client := env;
      partitionLocks := map[];
      new;
      env.CreateAndStartClient(zookeeperHosts);
    }

    /** Acquires the lock named after `partitionId` and records (or overwrites) its handle. */
    method LockPartition(partitionId: int)
      modifies this, client
      ensures partitionLocks == old(partitionLocks)[partitionId := LeaseOf(partitionId, |old(client.trace)|)]
      ensures client.trace == old(client.trace) + [Lock(LeaseOf(partitionId, |old(client.trace)|))]
    {
      var lease := client.AcquireLock(LockPath(partitionId));
      partitionLocks := partitionLocks[partitionId := lease];
    }

    /**
     * Releases the recorded handle of `partitionId`, which stays in the map;
     * an id never locked through this helper is an error and releases nothing.
     */
    method UnlockPartition(partitionId: int) returns (status: UnlockStatus)
      modifies client
      ensures partitionId !in partitionLocks ==>
        status == NotLocked(partitionId) && client.trace == old(client.trace)
      ensures partitionId in partitionLocks ==>
        status == Unlocked && client.trace == old(client.trace) + [Unlock(partitionLocks[partitionId])]
    {
      if partitionId !in partitionLocks {
        return NotLocked(partitionId);
      }
      client.ReleaseLock(partitionLocks[partitionId]);
      status := Unlocked;
    }

    /**
     * Releases the handle of every id in the map, once each and in the map's
     * key order (`order`), then closes the client.
     */
    method Close() returns (ghost order: seq<int>)
      modifies client
      ensures Enumerates(order, partitionLocks.Keys)
      ensures client.trace == old(client.trace) + Releases(order, partitionLocks) + [CloseClient]
    {
      var pending := partitionLocks.Keys;
      order := [];
      VisitStart(partitionLocks.Keys);
      while pending != {}
        invariant Visited(order, pending, partitionLocks.Keys)
        invariant client.trace == old(client.trace) + Releases(order, partitionLocks)
        decreases pending
      {
        var partitionId := NextKey(pending);
        var status := UnlockPartition(partitionId);
        assert status == Unlocked;
        ReleasesSnoc(order, partitionLocks, partitionId);
        VisitStep(order, pending, partitionLocks.Keys, partitionId);
        order := order + [partitionId];
        pending := pending - {partitionId};
      }
      VisitDone(order, partitionLocks.Keys);
      client.CloseClient();
    }
  }

  /** The repartition iterator's state that the commit step reads and resets. */
  class DistributedRepartitionIterator {
    const zookeeperHosts: string
    var oldPartitions: map<int, Partition>
    var newPartitions: map<int, Partition>

    /**
     * Commits the new partitions and retires the old ones. The ghost results
     * are the orders in which the two maps and the lock helper's keys were
     * enumerated; the trace produced is `FinishTrace` of those orders.
     */
    method Finish(env: Environment) returns (ghost newOrder: seq<int>, ghost oldOrder: seq<int>, ghost closeOrder: seq<int>)
      modifies this, env
      ensures Enumerates(newOrder, old(newPartitions).Keys)
      ensures Enumerates(oldOrder, old(oldPartitions).Keys)
      ensures Enumerates(closeOrder, LocksAfter(ValuesIn(newOrder, old(newPartitions)), |old(env.trace)| + 2).Keys)
      ensures env.trace == old(env.trace) + FinishTrace(zookeeperHosts,
                                                        ValuesIn(newOrder, old(newPartitions)),
                                                        ValuesIn(oldOrder, old(oldPartitions)),
                                                        closeOrder, |old(env.trace)|)
      ensures newPartitions == map[] && oldPartitions == map[]
    {
      ghost var before, at := env.trace, |env.trace|;
      ghost var news, olds := newPartitions, oldPartitions;
      var l := new PartitionLock(zookeeperHosts, env);
      env.OpenBucketCounts();
      ghost var done := [StartClient(zookeeperHosts), OpenCounts];
      assert env.trace == before + done;

      newOrder := CommitNewPartitions(l, newPartitions);
      ghost var committed := ValuesIn(newOrder, news);
      ghost var locks := LocksAfter(committed, at + 2);
      assert l.partitionLocks == locks;
      AppendAssoc(before, done, CommitTrace(committed, at + 2));
      done := done + CommitTrace(committed, at + 2);

      oldOrder := DropOldPartitions(env, oldPartitions);
      ghost var dropped := ValuesIn(oldOrder, olds);
      AppendAssoc(before, done, DropTrace(dropped));
      done := done + DropTrace(dropped);
      oldPartitions := map[];
      newPartitions := map[];
      env.CloseBucketCounts();
      AppendAssoc(before, done, [CloseCounts]);
      done := done + [CloseCounts];

      closeOrder := l.Close();
      AppendAssoc(before, done, Releases(closeOrder, locks));
      done := done + Releases(closeOrder, locks);
      AppendAssoc(before, done, [Event.CloseClient]);
      done := done + [Event.CloseClient];
      assert done == FinishTrace(zookeeperHosts, committed, dropped, closeOrder, at);
    }

    /**
     * The first loop of the commit step: for each new partition, lock it,
     * store it, add its record count, unlock it. The loop runs on the lock
     * helper `finish()` has just created, whose map is still empty.
     */
    static method CommitNewPartitions(l: PartitionLock, news: map<int, Partition>) returns (ghost order: seq<int>)
      requires l.partitionLocks == map[]
      modifies l, l.client
      ensures Enumerates(order, news.Keys)
      ensures l.partitionLocks == LocksAfter(ValuesIn(order, news), |old(l.client.trace)|)
      ensures l.client.trace == old(l.client.trace) + CommitTrace(ValuesIn(order, news), |old(l.client.trace)|)
    {
      ghost var start := l.client.trace;
      ghost var at := |start|;
      var pending := news.Keys;
      order := [];
      VisitStart(news.Keys);
      while pending != {}
        invariant Visited(order, pending, news.Keys)
        invariant l.partitionLocks == LocksAfter(ValuesIn(order, news), at)
        invariant l.client.trace == start + CommitTrace(ValuesIn(order, news), at)
        decreases pending
      {
        var id := NextKey(pending);
        var p := news[id];
        CommitStep(start, order, news, id, at);
        CommitPartition(l, p);
        VisitStep(order, pending, news.Keys, id);
        order := order + [id];
        pending := pending - {id};
      }
      VisitDone(order, news.Keys);
    }

    /** One round of the first loop: lock the partition, store it, add its record count, unlock it. */
    static method CommitPartition(l: PartitionLock, p: Partition)
      modifies l, l.client
      ensures l.partitionLocks == old(l.partitionLocks)[p.partitionId := LeaseOf(p.partitionId, |old(l.client.trace)|)]
      ensures l.client.trace == old(l.client.trace) + CommitBlock(p, |old(l.client.trace)|)
    {
      l.LockPartition(p.partitionId);
      l.client.StorePartition(p.partitionId);
      l.client.AddToBucketCount(p.partitionId, p.recordCount);
      var status := l.UnlockPartition(p.partitionId);
      assert status == Unlocked;
    }

    /** The second loop of the commit step: for each old partition, drop it, then remove its count. */
    static method DropOldPartitions(env: Environment, olds: map<int, Partition>) returns (ghost order: seq<int>)
      modifies env
      ensures Enumerates(order, olds.Keys)
      ensures env.trace == old(env.trace) + DropTrace(ValuesIn(order, olds))
    {
      ghost var start := env.trace;
      var pending := olds.Keys;
      order := [];
      VisitStart(olds.Keys);
      while pending != {}
        invariant Visited(order, pending, olds.Keys)
        invariant env.trace == start + DropTrace(ValuesIn(order, olds))
        decreases pending
      {
        var id := NextKey(pending);
        var p := olds[id];
        DropStep(start, order, olds, id);
        env.DropPartition(p.partitionId);
        env.RemoveBucketCount(p.partitionId);
        VisitStep(order, pending, olds.Keys, id);
        order := order + [id];
        pending := pending - {id};
      }
      VisitDone(order, olds.Keys);
    }
  }
}
