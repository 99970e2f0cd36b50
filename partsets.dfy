/**
 * SINGLE_PARTITION_SETS, the table of one-element partition sets built by
 * preload, and how a plan holds partition sets: either a set of its own or
 * a reference to one shared entry of that table.
 */
module PartitionSets {

  /**
   * The value stored in a plan's fragment-to-partitions map. The fast path
   * stores the shared singleton set object itself (planner line 593), so
   * clearing it through the plan clears the table entry; every other set is
   * the plan's own.
   */
  datatype PartitionSetRef = Shared(partition: int) | Owned(partitions: set<int>)

  predicate RefInRange(r: PartitionSetRef, n: int)
  {
    r.Shared? ==> 0 <= r.partition < n
  }

  /** The partitions a reference currently denotes, given the table's contents. */
  function Resolve(r: PartitionSetRef, table: seq<set<int>>): set<int>
    requires RefInRange(r, |table|)
  {
    match r
    case Shared(p) => table[p]
    case Owned(s) => s
  }

  /** Set.clear() seen through the reference: an own set becomes empty; a shared one stays shared. */
  function Cleared(r: PartitionSetRef): PartitionSetRef
  {
    match r
    case Shared(p) => Shared(p)
    case Owned(_) => Owned({})
  }

  class PartitionSetCache {
    /** SINGLE_PARTITION_SETS: entry i is the set object for partition i. */
    const sets: array<set<int>>

    /**
     * What stays true of the table whatever plans do with it: entry i
     * holds at most partition i (finish can empty it).
     */
    ghost predicate Valid()
      reads this, sets
    {
      forall i :: 0 <= i < sets.Length ==> sets[i] <= {i}
    }

    /** preload: one set {i} per partition i. */
    constructor Preload(numPartitions: nat)
      ensures sets.Length == numPartitions && fresh(sets)
      ensures forall i :: 0 <= i < numPartitions ==> sets[i] == {i}
      ensures Valid()
    {
      var table := new set<int>[numPartitions];
      for i := 0 to numPartitions
        invariant forall k :: 0 <= k < i ==> table[k] == {k}
      {
        table[i] := {i};
      }
      sets := table;
    }
  }
}
