/**
 * The externally visible effects of the repartition commit step, as a trace
 * of calls into collaborators whose code is not part of this model: the
 * coordination-service client (start, lock acquire and release, close), the
 * partitions' file-store operations (store, drop) and the bucket-count store
 * (open, add, remove, close).
 *
 * This module defines the trace that `finish()` produces, as functions of the
 * partitions it enumerates, and proves the commit protocol's ordering
 * properties about that trace.
 */
module RepartitionTrace {
  import opened LockNames

  /**
   * A lock handle returned by the coordination service. `serial` is the
   * position in the trace of the call that acquired it, so every acquisition
   * yields a handle distinct from all earlier ones.
   */
  datatype Lease = Lease(path: LockPath, serial: nat)

  datatype Event =
    | StartClient(hosts: string)
    | Lock(lease: Lease)
    | Unlock(lease: Lease)
    | CloseClient
    | OpenCounts
    | Store(partitionId: int)
    | AddCount(partitionId: int, count: int)
    | Drop(partitionId: int)
    | RemoveCount(partitionId: int)
    | CloseCounts

  lemma AppendAssoc(a: seq<Event>, b: seq<Event>, c: seq<Event>)
    ensures a + b + c == a + (b + c)
  {
  }

  /** A partition as the commit step sees it: its id and its record count. */
  datatype Partition = Partition(partitionId: int, recordCount: int)

  predicate NoDuplicates(s: seq<int>)
  {
    forall i, j :: 0 <= i < j < |s| ==> s[i] != s[j]
  }

  /** `order` lists every element of `keys` exactly once (a HashMap's iteration order). */
  ghost predicate Enumerates(order: seq<int>, keys: set<int>)
  {
    && NoDuplicates(order)
    && (forall i :: 0 <= i < |order| ==> order[i] in keys)
    && (forall k :: k in keys ==> k in order)
  }

  /**
   * Loop state of a walk over a map's keys: `order` lists, without repeats,
   * the keys already visited, and `pending` holds exactly the others.
   */
  ghost predicate Visited(order: seq<int>, pending: set<int>, keys: set<int>)
  {
    && pending <= keys
    && NoDuplicates(order)
    && (forall i :: 0 <= i < |order| ==> order[i] in keys && order[i] !in pending)
    && (forall k :: k in keys ==> k in pending || k in order)
  }

  lemma VisitStart(keys: set<int>)
    ensures Visited([], keys, keys)
  {
  }

  lemma VisitStep(order: seq<int>, pending: set<int>, keys: set<int>, k: int)
    requires Visited(order, pending, keys)
    requires k in pending
    ensures Visited(order + [k], pending - {k}, keys)
  {
    var next := order + [k];
    forall i, j | 0 <= i < j < |next|
      ensures next[i] != next[j]
    {
      if j == |order| {
        assert next[i] == order[i];
      } else {
        assert next[i] == order[i] && next[j] == order[j];
      }
    }
  }

  /** A walk with nothing pending has enumerated every key exactly once. */
  lemma VisitDone(order: seq<int>, keys: set<int>)
    requires Visited(order, {}, keys)
    ensures Enumerates(order, keys)
  {
  }

  /** The values of `m`, in the order in which `order` lists their keys. */
  function ValuesIn(order: seq<int>, m: map<int, Partition>): (ps: seq<Partition>)
    requires forall i :: 0 <= i < |order| ==> order[i] in m
    ensures |ps| == |order|
    decreases |order|
  {
    if order == [] then [] else ValuesIn(order[..|order| - 1], m) + [m[order[|order| - 1]]]
  }

  lemma ValuesInSnoc(order: seq<int>, m: map<int, Partition>, k: int)
    requires forall i :: 0 <= i < |order| ==> order[i] in m
    requires k in m
    ensures ValuesIn(order + [k], m) == ValuesIn(order, m) + [m[k]]
  {
    assert (order + [k])[..|order|] == order;
  }

  /** The handle of the lock on `partitionId` acquired by the call at position `serial`. */
  function LeaseOf(partitionId: int, serial: nat): Lease
  {
    Lease(LockPath(partitionId), serial)
  }

  predicate IsCommitEvent(e: Event)
  {
    e.Lock? || e.Store? || e.AddCount? || e.Unlock?
  }

  predicate IsDropEvent(e: Event)
  {
    e.Drop? || e.RemoveCount?
  }

  /** The four calls made for one new partition, the first at trace position `at`. */
  function CommitBlock(p: Partition, at: nat): seq<Event>
  {
    [ Lock(LeaseOf(p.partitionId, at)),
      Store(p.partitionId),
      AddCount(p.partitionId, p.recordCount),
      Unlock(LeaseOf(p.partitionId, at)) ]
  }

  /** The first loop of `finish()`: one commit block per new partition, in enumeration order. */
  function CommitTrace(ps: seq<Partition>, at: nat): (t: seq<Event>)
    ensures |t| == 4 * |ps|
    decreases |ps|
  {
    if ps == [] then []
    else CommitTrace(ps[..|ps| - 1], at) + CommitBlock(ps[|ps| - 1], at + 4 * (|ps| - 1))
  }

  lemma CommitTraceSnoc(ps: seq<Partition>, p: Partition, at: nat)
    ensures CommitTrace(ps + [p], at) == CommitTrace(ps, at) + CommitBlock(p, at + 4 * |ps|)
  {
    assert (ps + [p])[..|ps|] == ps;
  }

  /** The second loop of `finish()`: drop, then remove the bucket count, per old partition. */
  function DropTrace(ps: seq<Partition>): (t: seq<Event>)
    ensures |t| == 2 * |ps|
    decreases |ps|
  {
    if ps == [] then []
    else DropTrace(ps[..|ps| - 1]) + [Drop(ps[|ps| - 1].partitionId), RemoveCount(ps[|ps| - 1].partitionId)]
  }

  lemma DropTraceSnoc(ps: seq<Partition>, p: Partition)
    ensures DropTrace(ps + [p]) == DropTrace(ps) + [Drop(p.partitionId), RemoveCount(p.partitionId)]
  {
    assert (ps + [p])[..|ps|] == ps;
  }

  /** The lock helper's map after the first loop: for each id, the handle of its latest lock. */
  function LocksAfter(ps: seq<Partition>, at: nat): map<int, Lease>
    decreases |ps|
  {
    if ps == [] then map[]
    else
      var p := ps[|ps| - 1];
      LocksAfter(ps[..|ps| - 1], at)[p.partitionId := LeaseOf(p.partitionId, at + 4 * (|ps| - 1))]
  }

  lemma LocksAfterSnoc(ps: seq<Partition>, p: Partition, at: nat)
    ensures LocksAfter(ps + [p], at) == LocksAfter(ps, at)[p.partitionId := LeaseOf(p.partitionId, at + 4 * |ps|)]
  {
    assert (ps + [p])[..|ps|] == ps;
  }

  /** The unlock calls `PartitionLock.close()` makes, one per key, in key enumeration order. */
  function Releases(order: seq<int>, locks: map<int, Lease>): seq<Event>
    requires forall i :: 0 <= i < |order| ==> order[i] in locks
    decreases |order|
  {
    if order == [] then [] else Releases(order[..|order| - 1], locks) + [Unlock(locks[order[|order| - 1]])]
  }

  lemma ReleasesSnoc(order: seq<int>, locks: map<int, Lease>, k: int)
    requires forall i :: 0 <= i < |order| ==> order[i] in locks
    requires k in locks
    ensures Releases(order + [k], locks) == Releases(order, locks) + [Unlock(locks[k])]
  {
    assert (order + [k])[..|order|] == order;
  }

  lemma {:induction false} ReleasesAt(order: seq<int>, locks: map<int, Lease>)
    requires forall i :: 0 <= i < |order| ==> order[i] in locks
    ensures |Releases(order, locks)| == |order|
    ensures forall c :: 0 <= c < |order| ==> Releases(order, locks)[c] == Unlock(locks[order[c]])
    decreases |order|
  {
    if order != [] {
      var init := order[..|order| - 1];
      ReleasesAt(init, locks);
      forall c | 0 <= c < |order| - 1
        ensures order[c] == init[c]
      {
      }
    }
  }

  /**
   * Everything `finish()` does, when the trace held `at` events before it,
   * `news` and `olds` are the new and old partitions in the order they were
   * enumerated, and `closeOrder` is the order in which the lock helper's
   * `close()` enumerated its keys.
   */
  function FinishTrace(hosts: string, news: seq<Partition>, olds: seq<Partition>,
                       closeOrder: seq<int>, at: nat): seq<Event>
    requires forall c :: 0 <= c < |closeOrder| ==> closeOrder[c] in LocksAfter(news, at + 2)
  {
    [StartClient(hosts), OpenCounts]
    + CommitTrace(news, at + 2)
    + DropTrace(olds)
    + [CloseCounts]
    + Releases(closeOrder, LocksAfter(news, at + 2))
    + [CloseClient]
  }

  /** How one more round of the first loop extends its trace and the lock helper's map. */
  lemma CommitStep(start: seq<Event>, order: seq<int>, news: map<int, Partition>, id: int, at: nat)
    requires forall i :: 0 <= i < |order| ==> order[i] in news
    requires id in news
    ensures forall i :: 0 <= i < |order + [id]| ==> (order + [id])[i] in news
    ensures var p, serial := news[id], at + 4 * |order|;
      && start + CommitTrace(ValuesIn(order + [id], news), at)
           == start + CommitTrace(ValuesIn(order, news), at) + CommitBlock(p, serial)
      && LocksAfter(ValuesIn(order + [id], news), at)
           == LocksAfter(ValuesIn(order, news), at)[p.partitionId := LeaseOf(p.partitionId, serial)]
  {
    var ps, p := ValuesIn(order, news), news[id];
    ValuesInSnoc(order, news, id);
    CommitTraceSnoc(ps, p, at);
    LocksAfterSnoc(ps, p, at);
    AppendAssoc(start, CommitTrace(ps, at), CommitBlock(p, at + 4 * |ps|));
  }

  /** How one more round of the second loop extends its trace. */
  lemma DropStep(start: seq<Event>, order: seq<int>, olds: map<int, Partition>, id: int)
    requires forall i :: 0 <= i < |order| ==> order[i] in olds
    requires id in olds
    ensures forall i :: 0 <= i < |order + [id]| ==> (order + [id])[i] in olds
    ensures var p := olds[id];
      start + DropTrace(ValuesIn(order + [id], olds))
        == start + DropTrace(ValuesIn(order, olds)) + [Drop(p.partitionId)] + [RemoveCount(p.partitionId)]
  {
    var ps, p := ValuesIn(order, olds), olds[id];
    ValuesInSnoc(order, olds, id);
    DropTraceSnoc(ps, p);
    AppendAssoc(start, DropTrace(ps), [Drop(p.partitionId), RemoveCount(p.partitionId)]);
    AppendAssoc(start + DropTrace(ps), [Drop(p.partitionId)], [RemoveCount(p.partitionId)]);
  }

  // ---------------------------------------------------------------------------
  // Shape of the two loops' traces

  /** Positions `i` to `i + 3` of `t` hold the commit block of `p` whose lock was acquired at `serial`. */
  predicate HasBlockAt(t: seq<Event>, i: nat, p: Partition, serial: nat)
  {
    && i + 4 <= |t|
    && t[i] == Lock(LeaseOf(p.partitionId, serial))
    && t[i + 1] == Store(p.partitionId)
    && t[i + 2] == AddCount(p.partitionId, p.recordCount)
    && t[i + 3] == Unlock(LeaseOf(p.partitionId, serial))
  }

  lemma HasBlockAtExtended(t: seq<Event>, more: seq<Event>, i: nat, p: Partition, serial: nat)
    requires HasBlockAt(t, i, p, serial)
    ensures HasBlockAt(t + more, i, p, serial)
  {
  }

  lemma CommitBlockAtEnd(t: seq<Event>, p: Partition, serial: nat)
    ensures HasBlockAt(t + CommitBlock(p, serial), |t|, p, serial)
  {
  }

  /** The first loop's trace holds, at position `4 * k`, the commit block of the `k`-th new partition. */
  lemma {:induction false} CommitTraceBlockAt(ps: seq<Partition>, at: nat, k: nat)
    requires k < |ps|
    ensures HasBlockAt(CommitTrace(ps, at), 4 * k, ps[k], at + 4 * k)
    decreases |ps|
  {
    var n := |ps| - 1;
    var init := ps[..n];
    var prefix := CommitTrace(init, at);
    var last := CommitBlock(ps[n], at + 4 * n);
    assert CommitTrace(ps, at) == prefix + last;
    if k < n {
      CommitTraceBlockAt(init, at, k);
      assert ps[k] == init[k];
      HasBlockAtExtended(prefix, last, 4 * k, init[k], at + 4 * k);
    } else {
      CommitBlockAtEnd(prefix, ps[n], at + 4 * n);
    }
  }

  /** A lock call of the first loop opens the block of the partition it locks. */
  lemma CommitTraceLocks(ps: seq<Partition>, at: nat, j: int)
    ensures 0 <= j < |CommitTrace(ps, at)| && CommitTrace(ps, at)[j].Lock? ==>
      && j / 4 < |ps|
      && CommitTrace(ps, at)[j] == Lock(LeaseOf(ps[j / 4].partitionId, at + j))
  {
    if 0 <= j < |CommitTrace(ps, at)| {
      var k := j / 4;
      CommitTraceBlockAt(ps, at, k);
      assert HasBlockAt(CommitTrace(ps, at), 4 * k, ps[k], at + 4 * k);
      assert j == 4 * k + j % 4;
    }
  }

  /** The first loop makes only lock, store, count-add and unlock calls. */
  lemma {:induction false} CommitTraceKinds(ps: seq<Partition>, at: nat)
    ensures forall i :: 0 <= i < |CommitTrace(ps, at)| ==> IsCommitEvent(CommitTrace(ps, at)[i])
    decreases |ps|
  {
    if ps != [] {
      CommitTraceKinds(ps[..|ps| - 1], at);
    }
  }

  /** The second loop is one drop-then-remove pair per old partition, and nothing else. */
  lemma {:induction false} DropTraceBlocks(ps: seq<Partition>)
    ensures |DropTrace(ps)| == 2 * |ps|
    ensures forall k :: 0 <= k < |ps| ==>
      DropTrace(ps)[2 * k] == Drop(ps[k].partitionId) && DropTrace(ps)[2 * k + 1] == RemoveCount(ps[k].partitionId)
    ensures forall i :: 0 <= i < |DropTrace(ps)| ==> IsDropEvent(DropTrace(ps)[i])
    decreases |ps|
  {
    if ps != [] {
      var init := ps[..|ps| - 1];
      DropTraceBlocks(init);
      forall k | 0 <= k < |ps| - 1
        ensures ps[k] == init[k]
      {
      }
    }
  }

  /** The lock helper holds exactly the ids of the new partitions after the first loop. */
  lemma {:induction false} LocksAfterKeys(ps: seq<Partition>, at: nat)
    ensures forall id :: id in LocksAfter(ps, at) <==> exists k :: 0 <= k < |ps| && ps[k].partitionId == id
    decreases |ps|
  {
    if ps != [] {
      var init := ps[..|ps| - 1];
      LocksAfterKeys(init, at);
      forall id | id in LocksAfter(ps, at)
        ensures exists k :: 0 <= k < |ps| && ps[k].partitionId == id
      {
        if id != ps[|ps| - 1].partitionId {
          assert id in LocksAfter(init, at);
          var k :| 0 <= k < |init| && init[k].partitionId == id;
          assert ps[k] == init[k];
        }
      }
      forall k | 0 <= k < |ps|
        ensures ps[k].partitionId in LocksAfter(ps, at)
      {
        if k < |ps| - 1 {
          assert ps[k] == init[k];
        }
      }
    }
  }

  /** For each id, the lock helper keeps the handle of the latest lock taken on it. */
  lemma {:induction false} LocksAfterLatest(ps: seq<Partition>, at: nat, k: nat)
    requires k < |ps|
    requires forall j :: k < j < |ps| ==> ps[j].partitionId != ps[k].partitionId
    ensures ps[k].partitionId in LocksAfter(ps, at)
    ensures LocksAfter(ps, at)[ps[k].partitionId] == LeaseOf(ps[k].partitionId, at + 4 * k)
    decreases |ps|
  {
    if k < |ps| - 1 {
      var init := ps[..|ps| - 1];
      assert init[k] == ps[k];
      LocksAfterLatest(init, at, k);
    }
  }

  // ---------------------------------------------------------------------------
  // Properties of the whole commit step

  /** Position by position, a trace laid out the way `finish()` lays out its calls. */
  lemma LayoutAt(hosts: string, commit: seq<Event>, drops: seq<Event>, releases: seq<Event>, i: nat)
    ensures var t := [StartClient(hosts), OpenCounts] + commit + drops + [CloseCounts] + releases + [CloseClient];
      var dropsAt := 2 + |commit|;
      var closeAt := dropsAt + |drops|;
      && |t| == closeAt + |releases| + 2
      && (i < |t| ==>
           t[i] == if i == 0 then StartClient(hosts)
                   else if i == 1 then OpenCounts
                   else if i < dropsAt then commit[i - 2]
                   else if i < closeAt then drops[i - dropsAt]
                   else if i == closeAt then CloseCounts
                   else if i < |t| - 1 then releases[i - closeAt - 1]
                   else CloseClient)
  {
    var p1 := [StartClient(hosts), OpenCounts] + commit;
    var p2 := p1 + drops;
    var p3 := p2 + [CloseCounts];
    var p4 := p3 + releases;
    var t := p4 + [CloseClient];
    if i < |p4| {
      assert t[i] == p4[i];
      if i < |p3| {
        assert p4[i] == p3[i];
        if i < |p2| {
          assert p3[i] == p2[i];
          if i < |p1| {
            assert p2[i] == p1[i];
          }
        }
      }
    }
  }

  /**
   * Layout of `finish()`'s trace, position by position: client start and
   * count-store open, the first loop's calls, the second loop's calls, the
   * count store's close, the lock helper's releases, the client's close.
   */
  lemma FinishTraceAt(hosts: string, news: seq<Partition>, olds: seq<Partition>,
                      closeOrder: seq<int>, at: nat, i: nat)
    requires forall c :: 0 <= c < |closeOrder| ==> closeOrder[c] in LocksAfter(news, at + 2)
    ensures var t := FinishTrace(hosts, news, olds, closeOrder, at);
      var dropsAt := 2 + 4 * |news|;
      var closeAt := dropsAt + 2 * |olds|;
      && |t| == closeAt + |closeOrder| + 2
      && (i < |t| ==>
           t[i] == if i == 0 then StartClient(hosts)
                   else if i == 1 then OpenCounts
                   else if i < dropsAt then CommitTrace(news, at + 2)[i - 2]
                   else if i < closeAt then DropTrace(olds)[i - dropsAt]
                   else if i == closeAt then CloseCounts
                   else if i < |t| - 1 then Releases(closeOrder, LocksAfter(news, at + 2))[i - closeAt - 1]
                   else CloseClient)
  {
    ReleasesAt(closeOrder, LocksAfter(news, at + 2));
    LayoutAt(hosts, CommitTrace(news, at + 2), DropTrace(olds), Releases(closeOrder, LocksAfter(news, at + 2)), i);
  }

  /** Each new partition gets exactly one block: lock, store, count-add, unlock of its own lease. */
  lemma {:induction false} FinishCommitsEachNewPartition(hosts: string, news: seq<Partition>, olds: seq<Partition>,
                                                         closeOrder: seq<int>, at: nat, k: nat)
    requires forall c :: 0 <= c < |closeOrder| ==> closeOrder[c] in LocksAfter(news, at + 2)
    requires k < |news|
    ensures var t := FinishTrace(hosts, news, olds, closeOrder, at);
      var lease := LeaseOf(news[k].partitionId, at + 2 + 4 * k);
      && 2 + 4 * k + 3 < |t|
      && t[2 + 4 * k] == Lock(lease)
      && t[2 + 4 * k + 1] == Store(news[k].partitionId)
      && t[2 + 4 * k + 2] == AddCount(news[k].partitionId, news[k].recordCount)
      && t[2 + 4 * k + 3] == Unlock(lease)
  {
    CommitTraceBlockAt(news, at + 2, k);
    FinishTraceAt(hosts, news, olds, closeOrder, at, 2 + 4 * k);
    FinishTraceAt(hosts, news, olds, closeOrder, at, 2 + 4 * k + 1);
    FinishTraceAt(hosts, news, olds, closeOrder, at, 2 + 4 * k + 2);
    FinishTraceAt(hosts, news, olds, closeOrder, at, 2 + 4 * k + 3);
  }

  /** Each old partition is dropped and then has its bucket count removed, after all commits. */
  lemma {:induction false} FinishDropsEachOldPartition(hosts: string, news: seq<Partition>, olds: seq<Partition>,
                                                       closeOrder: seq<int>, at: nat, k: nat)
    requires forall c :: 0 <= c < |closeOrder| ==> closeOrder[c] in LocksAfter(news, at + 2)
    requires k < |olds|
    ensures var t := FinishTrace(hosts, news, olds, closeOrder, at);
      var dropsAt := 2 + 4 * |news|;
      && dropsAt + 2 * k + 1 < |t|
      && t[dropsAt + 2 * k] == Drop(olds[k].partitionId)
      && t[dropsAt + 2 * k + 1] == RemoveCount(olds[k].partitionId)
  {
    DropTraceBlocks(olds);
    FinishTraceAt(hosts, news, olds, closeOrder, at, 2 + 4 * |news| + 2 * k);
    FinishTraceAt(hosts, news, olds, closeOrder, at, 2 + 4 * |news| + 2 * k + 1);
  }

  /** Positions in a trace that ends with the lock helper's releases and the client's close. */
  lemma ClosingAt(counted: seq<Event>, closeOrder: seq<int>, locks: map<int, Lease>)
    requires |counted| > 0
    requires forall c :: 0 <= c < |closeOrder| ==> closeOrder[c] in locks
    ensures var t := counted + Releases(closeOrder, locks) + [CloseClient];
      && |t| == |counted| + |closeOrder| + 1
      && t[|counted| - 1] == counted[|counted| - 1]
      && (forall c :: 0 <= c < |closeOrder| ==> t[|counted| + c] == Unlock(locks[closeOrder[c]]))
      && t[|t| - 1] == CloseClient
  {
    var releases := Releases(closeOrder, locks);
    ReleasesAt(closeOrder, locks);
    var t := counted + releases + [CloseClient];
    forall c | 0 <= c < |closeOrder|
      ensures t[|counted| + c] == Unlock(locks[closeOrder[c]])
    {
      assert t[|counted| + c] == (counted + releases)[|counted| + c] == releases[c];
    }
  }

  /**
   * The helpers are closed last: the bucket-count store first, then one
   * release per key of the lock helper's map, then the client.
   */
  lemma {:induction false} FinishClosesCountsBeforeClient(hosts: string, news: seq<Partition>, olds: seq<Partition>,
                                                          closeOrder: seq<int>, at: nat)
    requires forall c :: 0 <= c < |closeOrder| ==> closeOrder[c] in LocksAfter(news, at + 2)
    ensures var t := FinishTrace(hosts, news, olds, closeOrder, at);
      var closeAt := 2 + 4 * |news| + 2 * |olds|;
      && |t| == closeAt + |closeOrder| + 2
      && t[closeAt] == CloseCounts
      && (forall c :: 0 <= c < |closeOrder| ==>
            t[closeAt + 1 + c] == Unlock(LocksAfter(news, at + 2)[closeOrder[c]]))
      && t[|t| - 1] == CloseClient
  {
    var counted := [StartClient(hosts), OpenCounts] + CommitTrace(news, at + 2) + DropTrace(olds) + [CloseCounts];
    ClosingAt(counted, closeOrder, LocksAfter(news, at + 2));
  }

  /** Neither helper is closed before every partition has been committed and dropped. */
  lemma {:induction false} NothingClosedEarly(hosts: string, news: seq<Partition>, olds: seq<Partition>,
                                              closeOrder: seq<int>, at: nat)
    requires forall c :: 0 <= c < |closeOrder| ==> closeOrder[c] in LocksAfter(news, at + 2)
    ensures var t := FinishTrace(hosts, news, olds, closeOrder, at);
      forall i :: 0 <= i < |t| && (t[i] == CloseCounts || t[i] == CloseClient) ==>
        2 + 4 * |news| + 2 * |olds| <= i
  {
    var t := FinishTrace(hosts, news, olds, closeOrder, at);
    CommitTraceKinds(news, at + 2);
    DropTraceBlocks(olds);
    forall i | 0 <= i < |t| && (t[i] == CloseCounts || t[i] == CloseClient)
      ensures 2 + 4 * |news| + 2 * |olds| <= i
    {
      FinishTraceAt(hosts, news, olds, closeOrder, at, i);
    }
  }

  /**
   * Every store and count-add of a new partition comes before every drop and
   * count-removal of an old partition.
   */
  lemma {:induction false} NewCommittedBeforeOldDropped(hosts: string, news: seq<Partition>, olds: seq<Partition>,
                                                        closeOrder: seq<int>, at: nat)
    requires forall c :: 0 <= c < |closeOrder| ==> closeOrder[c] in LocksAfter(news, at + 2)
    ensures var t := FinishTrace(hosts, news, olds, closeOrder, at);
      forall i, j :: 0 <= i < |t| && 0 <= j < |t| && (t[i].Store? || t[i].AddCount?) && IsDropEvent(t[j]) ==> i < j
  {
    var t := FinishTrace(hosts, news, olds, closeOrder, at);
    var dropsAt := 2 + 4 * |news|;
    CommitTraceKinds(news, at + 2);
    DropTraceBlocks(olds);
    ReleasesAt(closeOrder, LocksAfter(news, at + 2));
    forall i | 0 <= i < |t| && (t[i].Store? || t[i].AddCount?)
      ensures i < dropsAt
    {
      FinishTraceAt(hosts, news, olds, closeOrder, at, i);
    }
    forall j | 0 <= j < |t| && IsDropEvent(t[j])
      ensures dropsAt <= j
    {
      FinishTraceAt(hosts, news, olds, closeOrder, at, j);
    }
  }

  /**
   * Every lock taken during the commit step is on a new partition, and its
   * handle's serial is the position of the acquiring call in the whole trace.
   */
  lemma {:induction false} LocksOnlyNewPartitions(hosts: string, news: seq<Partition>, olds: seq<Partition>,
                                                  closeOrder: seq<int>, at: nat)
    requires forall c :: 0 <= c < |closeOrder| ==> closeOrder[c] in LocksAfter(news, at + 2)
    ensures var t := FinishTrace(hosts, news, olds, closeOrder, at);
      forall i :: 0 <= i < |t| && t[i].Lock? ==>
        t[i].lease.serial == at + i
        && exists k :: 0 <= k < |news| && t[i].lease.path == LockPath(news[k].partitionId)
  {
    var t := FinishTrace(hosts, news, olds, closeOrder, at);
    DropTraceBlocks(olds);
    ReleasesAt(closeOrder, LocksAfter(news, at + 2));
    forall i | 0 <= i < |t| && t[i].Lock?
      ensures t[i].lease.serial == at + i
      ensures exists k :: 0 <= k < |news| && t[i].lease.path == LockPath(news[k].partitionId)
    {
      FinishTraceAt(hosts, news, olds, closeOrder, at, i);
      CommitTraceLocks(news, at + 2, i - 2);
    }
  }

  /** A partition that is not among the new ones is never locked by the commit step. */
  lemma {:induction false} OldPartitionsNeverLocked(hosts: string, news: seq<Partition>, olds: seq<Partition>,
                                                    closeOrder: seq<int>, at: nat, partitionId: int)
    requires forall c :: 0 <= c < |closeOrder| ==> closeOrder[c] in LocksAfter(news, at + 2)
    requires forall k :: 0 <= k < |news| ==> news[k].partitionId != partitionId
    ensures var t := FinishTrace(hosts, news, olds, closeOrder, at);
      forall i :: 0 <= i < |t| && t[i].Lock? ==> t[i].lease.path.Text() != LockName(partitionId)
  {
    LocksOnlyNewPartitions(hosts, news, olds, closeOrder, at);
    var t := FinishTrace(hosts, news, olds, closeOrder, at);
    forall i | 0 <= i < |t| && t[i].Lock?
      ensures t[i].lease.path.Text() != LockName(partitionId)
    {
      var k :| 0 <= k < |news| && t[i].lease.path == LockPath(news[k].partitionId);
      LockNameInjective(news[k].partitionId, partitionId);
    }
  }

  /**
   * The handle of a new partition's latest lock is released twice: at the end
   * of its own commit block, and again when the lock helper is closed, because
   * unlocking never removes an id from the helper's map.
   */
  lemma {:induction false} LatestLockReleasedTwice(hosts: string, news: seq<Partition>, olds: seq<Partition>,
                                                   closeOrder: seq<int>, at: nat, k: nat)
    requires Enumerates(closeOrder, LocksAfter(news, at + 2).Keys)
    requires k < |news|
    requires forall j :: k < j < |news| ==> news[j].partitionId != news[k].partitionId
    ensures forall c :: 0 <= c < |closeOrder| ==> closeOrder[c] in LocksAfter(news, at + 2)
    ensures var t := FinishTrace(hosts, news, olds, closeOrder, at);
      var release := Unlock(LeaseOf(news[k].partitionId, at + 2 + 4 * k));
      exists i, j :: 0 <= i < j < |t| && t[i] == release && t[j] == release
  {
    assert forall c :: 0 <= c < |closeOrder| ==> closeOrder[c] in LocksAfter(news, at + 2);
    var t := FinishTrace(hosts, news, olds, closeOrder, at);
    var lease := LeaseOf(news[k].partitionId, at + 2 + 4 * k);
    FinishCommitsEachNewPartition(hosts, news, olds, closeOrder, at, k);
    FinishClosesCountsBeforeClient(hosts, news, olds, closeOrder, at);
    LocksAfterLatest(news, at + 2, k);
    var i := 2 + 4 * k + 3;
    assert t[i] == Unlock(lease);
    var c :| 0 <= c < |closeOrder| && closeOrder[c] == news[k].partitionId;
    var j := 2 + 4 * |news| + 2 * |olds| + 1 + c;
    assert t[j] == Unlock(lease);
  }
}
