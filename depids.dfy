/**
 * NEXT_DEPENDENCY_ID: the process-wide counter that hands out synthetic
 * output dependency ids to every plan graph of every planner.
 */
module DependencyIds {
  import opened Catalog

  class DependencyIdAllocator {
    /** The id the next call hands out. */
    var next: int

    /** Ids only grow from the first one, so none is ever NULL_DEPENDENCY_ID. */
    ghost predicate Valid()
      reads this
    {
      next >= FIRST_DEPENDENCY_ID
    }

    constructor ()
      ensures next == FIRST_DEPENDENCY_ID && Valid()
    {
      next := FIRST_DEPENDENCY_ID;
    }

    /** AtomicInteger.getAndIncrement: the current value, then one more. */
    method GetAndIncrement() returns (id: int)
      modifies this
      ensures id == old(next) && next == old(next) + 1
      ensures old(Valid()) ==> Valid()
    {
      id := next;
      next := next + 1;
    }
  }
}
