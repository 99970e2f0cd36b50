/**
 * The catalog side of the batch planner: the statements of one stored
 * procedure batch, their plan fragments, the bounds the planner relies on,
 * and the foreign collaborators (partition estimator, parameter serializer)
 * given as oracle functions.
 */
module Catalog {

  datatype Option<T> = None | Some(value: T)

  /** A value, or the exception the operation raised instead. */
  datatype Result<T, E> = Ok(value: T) | Err(error: E)

  /** BatchPlanner.MAX_ROUND_SIZE: rows of the round x partition bucket table. */
  const MAX_ROUND_SIZE: nat := 10

  /** BatchPlanner.MAX_BATCH_SIZE: most statements in one batch. */
  const MAX_BATCH_SIZE: nat := 128

  /** The value NEXT_DEPENDENCY_ID starts from. */
  const FIRST_DEPENDENCY_ID: int := 9000

  /**
   * ExecutionSite.NULL_DEPENDENCY_ID, the "no input" marker. Its only
   * property the planner needs is that no allocated id equals it.
   */
  const NULL_DEPENDENCY_ID: int := -1

  /** Fragment ids fit in the low 16 bits of a vertex's packed hash code. */
  const FRAGMENT_ID_LIMIT: int := 0x1_0000

  /** A catalog PlanFragment: its id and whether it only reads. */
  datatype Fragment = Fragment(id: int, readOnly: bool)

  /**
   * A catalog Statement as the planner sees it. `fragments` and
   * `msFragments` are the single- and multi-partition fragment collections
   * (getFragments / getMs_fragments); `sortedSingle` and `sortedMulti` are
   * what PlanNodeUtil.getSortedPlanFragments returns for them.
   */
  datatype Statement = Statement(
    readOnly: bool,
    replicatedOnly: bool,
    hasSinglesited: bool,
    fragments: seq<Fragment>,
    msFragments: seq<Fragment>,
    sortedSingle: seq<Fragment>,
    sortedMulti: seq<Fragment>)

  /** Bound parameters of one statement: opaque to the planner. */
  datatype ParamSet = ParamSet(values: seq<int>)

  /** A serialized parameter buffer. */
  type Buffer = seq<bv8>

  /**
   * The partition estimator for one fragment: its target partitions given the
   * statement's parameters and the base partition, or None when the
   * estimator raises.
   */
  type Estimator = (Fragment, ParamSet, int) -> Option<set<int>>

  /** ParameterSet.writeExternal into a FastSerializer: None when it raises. */
  type Serializer = ParamSet -> Option<Buffer>

  /** The fragment collection the estimator is given (planner line 612). */
  function FragmentsFor(st: Statement, single: bool): seq<Fragment>
  {
    if single then st.fragments else st.msFragments
  }

  /** The execution ordering memoised per statement (planner lines 650-660). */
  function SortedFor(st: Statement, single: bool): seq<Fragment>
  {
    if single then st.sortedSingle else st.sortedMulti
  }

  /** A replicated-only read-only statement takes the fast path (planner line 588). */
  predicate IsReplicatedReadOnly(st: Statement)
  {
    st.replicatedOnly && st.readOnly
  }

  /** No fragment occurs twice: a catalog collection is keyed by name. */
  predicate Distinct(fs: seq<Fragment>)
  {
    forall i, j :: 0 <= i < j < |fs| ==> fs[i] != fs[j]
  }

  /** Fragment ids are non-negative and below 2^16. */
  predicate FragmentIdsInRange(fs: seq<Fragment>)
  {
    forall k :: 0 <= k < |fs| ==> 0 <= fs[k].id < FRAGMENT_ID_LIMIT
  }

  /**
   * The catalog guarantees buildPlanGraph's frag_partitions lookup relies on:
   * the fast path only happens for statements with a single-partition plan
   * (the assertion at planner line 590), and each sorted ordering lists
   * fragments of its own collection (getSortedPlanFragments orders the
   * statement's fragments).
   */
  predicate OrderingsCovered(st: Statement)
  {
    && (IsReplicatedReadOnly(st) ==> st.hasSinglesited)
    && (forall k :: 0 <= k < |st.sortedSingle| ==> st.sortedSingle[k] in st.fragments)
    && (forall k :: 0 <= k < |st.sortedMulti| ==> st.sortedMulti[k] in st.msFragments)
  }

  /**
   * What the catalog guarantees about a statement: its orderings are
   * covered; the fragment collections hold each fragment once; no chain is
   * longer than the bucket table has rows.
   */
  predicate WellFormedStatement(st: Statement)
  {
    && OrderingsCovered(st)
    && Distinct(st.fragments) && Distinct(st.msFragments)
    && |st.sortedSingle| <= MAX_ROUND_SIZE
    && |st.sortedMulti| <= MAX_ROUND_SIZE
    && FragmentIdsInRange(st.sortedSingle)
    && FragmentIdsInRange(st.sortedMulti)
  }

  predicate WellFormedBatch(stmts: seq<Statement>)
  {
    && |stmts| <= MAX_BATCH_SIZE
    && forall i :: 0 <= i < |stmts| ==> WellFormedStatement(stmts[i])
  }

  /** The orderings a bitmap selects: frag_list after planning. */
  function FragListsFor(stmts: seq<Statement>, bitmap: seq<bool>): (lists: seq<seq<Fragment>>)
    requires |bitmap| == |stmts|
    ensures |lists| == |stmts|
    ensures forall i :: 0 <= i < |stmts| ==> lists[i] == SortedFor(stmts[i], bitmap[i])
  {
    seq(|stmts|, i requires 0 <= i < |stmts| => SortedFor(stmts[i], bitmap[i]))
  }

  /** Java `int` arithmetic: wrap an integer into [-2^31, 2^31). */
  function Wrap32(x: int): (r: int)
    ensures -0x8000_0000 <= r < 0x8000_0000
    ensures (r - x) % 0x1_0000_0000 == 0
    ensures -0x8000_0000 <= x < 0x8000_0000 ==> r == x
  {
    (x + 0x8000_0000) % 0x1_0000_0000 - 0x8000_0000
  }
}
