/**
 * The access-method facade of the `core.adapt` package: `init` installs a raw
 * index key and an optimizer while keeping the configured query predicates,
 * `getPartitionSplits` hands the query to one of the optimizer's two
 * planners, `isRelevant` admits every partition, and `PartitionSplit` holds a
 * group of partition ids with their iterator.
 *
 * The global settings file, the optimizer's planners and the key's parsing
 * come from code that is not part of this model; they appear as parameters.
 */
module CoreAdapt {

  /** A selection predicate; the access method passes it through without reading it. */
  datatype Predicate = Predicate(attribute: int, ty: int, value: string, predtype: int)

  /** A query handed to the optimizer; its content is not inspected here. */
  class Query {
  }

  /** The iterator a split is read with; its behaviour is not part of this model. */
  class PartitionIterator {
  }

  /** A group of partitions to be read the same way, on one node. */
  class PartitionSplit {
    const partitionIds: array<int>
    const partitionIterator: PartitionIterator

    constructor (partitionIds: array<int>, partitionIterator: PartitionIterator)
      ensures GetPartitions() == partitionIds && GetIterator() == partitionIterator
    {
      this.partitionIds := partitionIds;
      this.partitionIterator := partitionIterator;
    }

    function GetPartitions(): array<int>
    {
      partitionIds
    }

    function GetIterator(): PartitionIterator
    {
      partitionIterator
    }
  }

  /** An index key over raw delimited records. */
  class RawIndexKey {
    const delimiter: char

    constructor (delimiter: char)
      ensures this.delimiter == delimiter
    {
      this.delimiter := delimiter;
    }
  }

  /** The query configuration the access method is initialised from. */
  class SparkQueryConf {
    var hadoopHome: string
    var workingDir: string
    var query: array<Predicate>

    constructor (hadoopHome: string, workingDir: string, query: array<Predicate>)
      ensures this.hadoopHome == hadoopHome && this.workingDir == workingDir && this.query == query
    {
      this.hadoopHome := hadoopHome;
      this.workingDir := workingDir;
      this.query := query;
    }
  }

  /** The optimizer's two plan builders: `buildAccessPlan` and `buildPlan`. */
  datatype Planner = Planner(accessPlan: Query -> seq<PartitionSplit>, plan: Query -> seq<PartitionSplit>)

  /**
   * The optimizer as the access method uses it. Its constructor may reassign
   * the fields of the configuration it is given (its code is not part of this
   * model); it is taken not to write the predicate array the configuration
   * holds.
   */
  class Optimizer {
    const conf: SparkQueryConf
    const planner: Planner
    var indexLoaded: bool
    var queriesLoaded: bool

    constructor (conf: SparkQueryConf, planner: Planner)
      modifies conf
      ensures this.conf == conf && this.planner == planner
      ensures !indexLoaded && !queriesLoaded
    {
      this.conf := conf;
      this.planner := planner;
      indexLoaded := false;
      queriesLoaded := false;
    }

    method LoadIndex()
      modifies this
      ensures indexLoaded && queriesLoaded == old(queriesLoaded)
    {
      indexLoaded := true;
    }

    method LoadQueries()
      modifies this
      ensures queriesLoaded && indexLoaded == old(indexLoaded)
    {
      queriesLoaded := true;
    }
  }

  /** Filter access over the partitioned dataset. */
  class AccessMethod {
    var opt: Optimizer?
    var key: RawIndexKey?

    constructor ()
      ensures opt == null && key == null
    {
      opt := null;
      key := null;
    }

    /**
     * Initialises the access method from `conf`: installs a raw key on the
     * record delimiter of the global settings read from `<workingDir>/info`
     * (`delimiter`), creates the optimizer, puts back the query array the
     * configuration held before the optimizer was created, and has the
     * optimizer load its index and queries.
     */
    method Init(conf: SparkQueryConf, delimiter: char, planner: Planner)
      modifies this, conf
      ensures key != null && fresh(key) && key.delimiter == delimiter
      ensures opt != null && fresh(opt) && opt.conf == conf && opt.planner == planner
      ensures opt.indexLoaded && opt.queriesLoaded
      ensures conf.query == old(conf.query) && conf.query[..] == old(conf.query[..])
    {
      key := new RawIndexKey(delimiter);
      var query := conf.query;
      var optimizer := new Optimizer(conf, planner);
      opt := optimizer;
      conf.query := query;
      optimizer.LoadIndex();
      optimizer.LoadQueries();
    }

    /** Every partition qualifies for every predicate. */
    function IsRelevant(partitionId: string, filter: Predicate): (relevant: bool)
      ensures relevant
    {
      true
    }

    /** The splits to read `q` with: the access plan when only reading, the adaptive plan otherwise. */
    function GetPartitionSplits(q: Query, justAccess: bool): (splits: seq<PartitionSplit>)
      reads this
      requires opt != null
      ensures justAccess ==> splits == opt.planner.accessPlan(q)
      ensures !justAccess ==> splits == opt.planner.plan(q)
    {
      if justAccess then opt.planner.accessPlan(q) else opt.planner.plan(q)
    }
  }
}
