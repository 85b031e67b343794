/**
 * The access-method facade of the `core.access` package: `init` turns the
 * configured real-attribute predicates into virtual-attribute predicates
 * through the index key, `getPartitionSplits` hands the query to one of the
 * optimizer's two planners, `isRelevant` admits every partition, and
 * `PartitionSplit` holds a group of partition ids with their iterator.
 *
 * The optimizer's planners and the key's attribute mapping come from code
 * that is not part of this model; they appear as function values.
 */
module CoreAccess {

  /**
   * A selection predicate on one attribute. Only `attribute` is read or
   * written by the access method; the other fields are copied unchanged.
   */
  datatype Predicate = Predicate(attribute: int, ty: int, value: string, predtype: int)

  /** A query handed to the optimizer; its content is not inspected here. */
  class Query {
  }

  /** The iterator a split is read with; its behaviour is not part of this model. */
  class PartitionIterator {
  }

  /** A group of partitions to be read the same way, on one node. */
  class PartitionSplit {
    const partitionIds: array<int>
    const partitionIterator: PartitionIterator

    constructor (partitionIds: array<int>, partitionIterator: PartitionIterator)
      ensures GetPartitions() == partitionIds && GetIterator() == partitionIterator
    {
      this.partitionIds := partitionIds;
      this.partitionIterator := partitionIterator;
    }

    function GetPartitions(): array<int>
    {
      partitionIds
    }

    function GetIterator(): PartitionIterator
    {
      partitionIterator
    }
  }

  /**
   * The index key read from a replica's info file. `virtualAttrIndex` is
   * `getVirtualAttrIndex`: the position of a real attribute in the key's
   * virtual schema.
   */
  class CartilageIndexKey {
    const virtualAttrIndex: int -> int

    constructor (virtualAttrIndex: int -> int)
      ensures this.virtualAttrIndex == virtualAttrIndex
    {
      this.virtualAttrIndex := virtualAttrIndex;
    }
  }

  /** The query configuration the access method is initialised from. */
  class SparkQueryConf {
    var hadoopHome: string
    var workingDir: string
    var replicaId: int
    var predicates: array<Predicate>

    constructor (hadoopHome: string, workingDir: string, replicaId: int, predicates: array<Predicate>)
      ensures this.hadoopHome == hadoopHome && this.workingDir == workingDir
      ensures this.replicaId == replicaId && this.predicates == predicates
    {
      this.hadoopHome := hadoopHome;
      this.workingDir := workingDir;
      this.replicaId := replicaId;
      this.predicates := predicates;
    }
  }

  /** The optimizer's two plan builders: `buildAccessPlan` and `buildPlan`. */
  datatype Planner = Planner(accessPlan: Query -> seq<PartitionSplit>, plan: Query -> seq<PartitionSplit>)

  /**
   * The optimizer as the access method uses it. Its constructor may reassign
   * the fields of the configuration it is given (its code is not part of this
   * model); it is taken not to write the predicate array the configuration
   * holds.
   */
  class Optimizer {
    const conf: SparkQueryConf
    const planner: Planner
    var indexLoaded: bool
    var queriesLoaded: bool

    constructor (conf: SparkQueryConf, planner: Planner)
      modifies conf
      ensures this.conf == conf && this.planner == planner
      ensures !indexLoaded && !queriesLoaded
    {
      this.conf := conf;
      this.planner := planner;
      indexLoaded := false;
      queriesLoaded := false;
    }

    method LoadIndex()
      modifies this
      ensures indexLoaded && queriesLoaded == old(queriesLoaded)
    {
      indexLoaded := true;
    }

    method LoadQueries()
      modifies this
      ensures queriesLoaded && indexLoaded == old(indexLoaded)
    {
      queriesLoaded := true;
    }
  }

  /** A real predicate rewritten onto the virtual attribute the key maps it to. */
  function VirtualPredicate(p: Predicate, virtualAttrIndex: int -> int): Predicate
  {
    p.(attribute := virtualAttrIndex(p.attribute))
  }

  /** The real-to-virtual translation of a predicate array, position by position. */
  function Virtualize(reals: seq<Predicate>, virtualAttrIndex: int -> int): (virtuals: seq<Predicate>)
    ensures |virtuals| == |reals|
    decreases |reals|
  {
    if reals == [] then []
    else Virtualize(reals[..|reals| - 1], virtualAttrIndex) + [VirtualPredicate(reals[|reals| - 1], virtualAttrIndex)]
  }

  /** A sequence that translates `reals` position by position is their translation. */
  lemma {:induction false} VirtualizeEach(reals: seq<Predicate>, virtuals: seq<Predicate>, virtualAttrIndex: int -> int)
    requires |virtuals| == |reals|
    requires forall i :: 0 <= i < |reals| ==> virtuals[i] == VirtualPredicate(reals[i], virtualAttrIndex)
    ensures virtuals == Virtualize(reals, virtualAttrIndex)
    decreases |reals|
  {
    if reals != [] {
      var n := |reals| - 1;
      VirtualizeEach(reals[..n], virtuals[..n], virtualAttrIndex);
      assert virtuals == virtuals[..n] + [virtuals[n]];
    }
  }

  /**
   * Virtual predicate `j` is real predicate `j` on the attribute the key
   * maps it to, with its type, value and comparison kept.
   */
  lemma {:induction false} VirtualizeAt(reals: seq<Predicate>, virtualAttrIndex: int -> int, j: nat)
    requires j < |reals|
    ensures var v := Virtualize(reals, virtualAttrIndex)[j];
      && v.attribute == virtualAttrIndex(reals[j].attribute)
      && v.ty == reals[j].ty
      && v.value == reals[j].value
      && v.predtype == reals[j].predtype
    decreases |reals|
  {
    var n := |reals| - 1;
    if j < n {
      VirtualizeAt(reals[..n], virtualAttrIndex, j);
      assert reals[..n][j] == reals[j];
    }
  }

  /**
   * The translation loses nothing but the attribute numbering: mapping the
   * virtual attributes back through an inverse of the key's mapping restores
   * the real predicates.
   */
  lemma {:induction false} VirtualizeRoundTrip(reals: seq<Predicate>, virtualAttrIndex: int -> int, realAttrIndex: int -> int)
    requires forall a :: realAttrIndex(virtualAttrIndex(a)) == a
    ensures Virtualize(Virtualize(reals, virtualAttrIndex), realAttrIndex) == reals
    decreases |reals|
  {
    if reals != [] {
      var n := |reals| - 1;
      var virtuals := Virtualize(reals, virtualAttrIndex);
      VirtualizeRoundTrip(reals[..n], virtualAttrIndex, realAttrIndex);
      assert virtuals[..n] == Virtualize(reals[..n], virtualAttrIndex);
      assert reals == reals[..n] + [reals[n]];
    }
  }

  /** Filter access over the partitioned dataset. */
  class AccessMethod {
    var opt: Optimizer?
    var key: CartilageIndexKey

    /** `key` starts as the key built from the delimiter '|', whose attribute mapping is `defaultAttrIndex`. */
    constructor (defaultAttrIndex: int -> int)
      ensures opt == null && fresh(key) && key.virtualAttrIndex == defaultAttrIndex
    {
      opt := null;
      key := new CartilageIndexKey(defaultAttrIndex);
    }

    /**
     * Initialises the access method from `conf`: installs the key read from
     * the replica's info file (whose attribute mapping is `storedAttrIndex`),
     * creates the optimizer, replaces the configured predicates by a fresh
     * array of their virtual-attribute translations, and has the optimizer
     * load its index and queries.
     */
    method Init(conf: SparkQueryConf, storedAttrIndex: int -> int, planner: Planner)
      modifies this, conf
      ensures fresh(key) && key.virtualAttrIndex == storedAttrIndex
      ensures opt != null && fresh(opt) && opt.conf == conf && opt.planner == planner
      ensures opt.indexLoaded && opt.queriesLoaded
      ensures fresh(conf.predicates)
      ensures conf.predicates[..] == Virtualize(old(conf.predicates[..]), storedAttrIndex)
    {
      var realPredicates := conf.predicates;
      var storedKey := new CartilageIndexKey(storedAttrIndex);
      key := storedKey;
      var optimizer := new Optimizer(conf, planner);
      opt := optimizer;
      var virtualPredicates := new Predicate[realPredicates.Length];
      for j := 0 to virtualPredicates.Length
        modifies virtualPredicates
        invariant forall i :: 0 <= i < j ==> virtualPredicates[i] == VirtualPredicate(realPredicates[i], storedAttrIndex)
      {
        var p := realPredicates[j];
        virtualPredicates[j] := Predicate(storedKey.virtualAttrIndex(p.attribute), p.ty, p.value, p.predtype);
      }
      VirtualizeEach(realPredicates[..], virtualPredicates[..], storedAttrIndex);
      conf.predicates := virtualPredicates;
      optimizer.LoadIndex();
      optimizer.LoadQueries();
    }

    /** Every partition qualifies for every predicate. */
    function IsRelevant(partitionId: string, filter: Predicate): (relevant: bool)
      ensures relevant
    {
      true
    }

    /** The splits to read `q` with: the access plan when only reading, the adaptive plan otherwise. */
    function GetPartitionSplits(q: Query, justAccess: bool): (splits: seq<PartitionSplit>)
      reads this
      requires opt != null
      ensures justAccess ==> splits == opt.planner.accessPlan(q)
      ensures !justAccess ==> splits == opt.planner.plan(q)
    {
      if justAccess then opt.planner.accessPlan(q) else opt.planner.plan(q)
    }
  }
}
