/**
 * BatchPlan: the per-invocation state of one planned batch. The planner
 * fills it (plan), it turns its graph and partition maps into fragment
 * tasks on demand (getFragmentTaskMessages), and finish resets it so the
 * pool can hand it out again.
 */
module BatchPlans {
  import opened Catalog
  import opened PlanVertices
  import opened PartitionSets
  import opened PlanGraphs

  /** A FragmentTaskMessage: its header fields and one column entry per fragment. */
  datatype Task = Task(
    source: int,
    destination: int,
    txnId: int,
    clientHandle: int,
    readOnly: bool,
    fragmentIds: seq<int>,
    inputIds: seq<int>,
    outputIds: seq<int>,
    params: seq<Buffer>,
    stmtIndexes: seq<int>)

  /** MispredictionException: the transaction and the partitions it would touch. */
  datatype Misprediction = Misprediction(txnId: int, histogram: multiset<int>)

  /** What the statement loop of plan() writes: per-statement maps, orderings and bits, and the batch flags. */
  datatype PlanRecord = PlanRecord(
    fragPartitions: seq<map<Fragment, PartitionSetRef>>,
    stmtPartitions: seq<set<int>>,
    fragList: seq<Option<seq<Fragment>>>,
    bitmap: seq<bool>,
    flags: (bool, bool, bool, bool))

  /** The exceptions buildFragmentTaskMessages can raise. */
  datatype TaskError =
    | NoPlanGraph                        // the plan has no graph yet
    | MissingPartitions(stmt: int)       // a vertex whose fragment has no partition set in the plan
    | BucketOutOfRange(stmt: int)        // a round or a target partition outside the bucket table
    | RoundsOutOfRange                   // rounds_length beyond the bucket table's rows
    | MissingArguments                   // batchArgs cleared, or shorter than the batch
    | SerializationFailed(stmt: int)     // writing the statement's parameters raised
    | NoTasks                            // the closing assertion: no task at all

  // ---------------------------------------------------------------------
  // Buckets and tasks as functions of values
  // ---------------------------------------------------------------------

  /** The partitions v's fragment is sent to in this plan: its entry in frag_partitions, resolved. */
  function PartsOf(fps: seq<map<Fragment, PartitionSetRef>>, table: seq<set<int>>, v: PlanVertex): set<int>
  {
    if 0 <= v.stmtIndex < |fps| && v.frag in fps[v.stmtIndex] && RefInRange(fps[v.stmtIndex][v.frag], |table|)
    then Resolve(fps[v.stmtIndex][v.frag], table)
    else {}
  }

  /**
   * Placing v in the bucket table raises nothing: its set exists and every
   * bucket it goes to exists. The round is only looked up once a partition
   * is walked, so a vertex sent nowhere is never range-checked.
   */
  predicate Bucketable(fps: seq<map<Fragment, PartitionSetRef>>, table: seq<set<int>>, numPartitions: int, v: PlanVertex)
  {
    && 0 <= v.stmtIndex < |fps| && v.frag in fps[v.stmtIndex] && RefInRange(fps[v.stmtIndex][v.frag], |table|)
    && (PartsOf(fps, table, v) != {} ==> 0 <= v.round < MAX_ROUND_SIZE)
    && forall p :: p in PartsOf(fps, table, v) ==> 0 <= p < numPartitions
  }

  /** rounds[r][p] as the bucketing loop fills it: the vertices of round r that go to partition p. */
  function Bucket(vs: set<PlanVertex>, fps: seq<map<Fragment, PartitionSetRef>>, table: seq<set<int>>, r: int, p: int): set<PlanVertex>
  {
    set v | v in vs && v.round == r && p in PartsOf(fps, table, v)
  }

  /**
   * The occupied cells (r, p) of row r, partitions below n, in partition
   * order (a partition past the end of the row has no bucket).
   */
  function OccupiedInRow(grid: seq<seq<set<PlanVertex>>>, r: nat, n: nat): seq<(int, int)>
    requires r < |grid|
  {
    if n == 0 then []
    else OccupiedInRow(grid, r, n - 1) + (if n - 1 < |grid[r]| && grid[r][n - 1] != {} then [(r, n - 1)] else [])
  }

  /** The occupied cells of rows below m, partitions below width, in round-then-partition order. */
  function Occupied(grid: seq<seq<set<PlanVertex>>>, m: nat, width: nat): seq<(int, int)>
    requires m <= |grid|
  {
    if m == 0 then [] else Occupied(grid, m - 1, width) + OccupiedInRow(grid, m - 1, width)
  }

  /** vs lists every member of the bucket once. */
  ghost predicate Enumerates(vs: seq<PlanVertex>, bucket: set<PlanVertex>)
  {
    && (forall i, j :: 0 <= i < j < |vs| ==> vs[i] != vs[j])
    && (forall v :: v in bucket <==> v in vs)
  }

  function AllReadOnly(vs: seq<PlanVertex>): bool
  {
    forall i :: 0 <= i < |vs| ==> vs[i].frag.readOnly
  }

  /**
   * The task for a bucket at `partition` whose vertices are taken in the
   * order vs: column i describes vs[i], its parameters are its statement's
   * buffer, and it is read-only iff all its fragments are.
   */
  function TaskFor(vs: seq<PlanVertex>, base: int, partition: int, txnId: int, clientHandle: int, buffers: seq<Buffer>): (t: Task)
    requires forall i :: 0 <= i < |vs| ==> 0 <= vs[i].stmtIndex < |buffers|
    ensures |t.fragmentIds| == |t.inputIds| == |t.outputIds| == |t.params| == |t.stmtIndexes| == |vs|
  {
    Task(base, partition, txnId, clientHandle, AllReadOnly(vs),
      seq(|vs|, i requires 0 <= i < |vs| => vs[i].frag.id),
      seq(|vs|, i requires 0 <= i < |vs| => vs[i].inputId),
      seq(|vs|, i requires 0 <= i < |vs| => vs[i].outputId),
      seq(|vs|, i requires 0 <= i < |vs| => buffers[vs[i].stmtIndex]),
      seq(|vs|, i requires 0 <= i < |vs| => vs[i].stmtIndex))
  }

  /** How many tasks go to `partition` (getLocalFragmentCount's count). */
  function CountTo(tasks: seq<Task>, partition: int): nat
  {
    if tasks == [] then 0
    else CountTo(tasks[..|tasks| - 1], partition) + (if tasks[|tasks| - 1].destination == partition then 1 else 0)
  }

  /** How many tasks go elsewhere (getRemoteFragmentCount's count). */
  function CountAway(tasks: seq<Task>, partition: int): nat
  {
    if tasks == [] then 0
    else CountAway(tasks[..|tasks| - 1], partition) + (if tasks[|tasks| - 1].destination != partition then 1 else 0)
  }

  /** Every task is either local or remote: the two counts add up to the number of tasks. */
  lemma {:induction false} CountsAddUp(tasks: seq<Task>, partition: int)
    ensures CountTo(tasks, partition) + CountAway(tasks, partition) == |tasks|
  {
    if tasks != [] {
      CountsAddUp(tasks[..|tasks| - 1], partition);
    }
  }

  /** The local count is the number of tasks whose destination is the partition. */
  lemma {:induction false} CountToIsCardinality(tasks: seq<Task>, partition: int)
    ensures CountTo(tasks, partition) == |set k | 0 <= k < |tasks| && tasks[k].destination == partition|
  {
    if tasks != [] {
      var n := |tasks| - 1;
      CountToIsCardinality(tasks[..n], partition);
      var prefix := tasks[..n];
      var before := set k | 0 <= k < n && prefix[k].destination == partition;
      var after := set k | 0 <= k < |tasks| && tasks[k].destination == partition;
      var last: set<int> := if tasks[n].destination == partition then {n} else {};
      forall k: int
        ensures k in after <==> k in before + last
      {
        if 0 <= k < n {
          assert prefix[k] == tasks[k];
        }
      }
      assert after == before + last;
      assert n !in before;
    }
  }

  // ---------------------------------------------------------------------
  // finish as a function of values
  // ---------------------------------------------------------------------

  /** Every value set of the map cleared, keys kept. */
  function ClearedMap(m: map<Fragment, PartitionSetRef>): map<Fragment, PartitionSetRef>
  {
    map f | f in m :: Cleared(m[f])
  }

  function ClearedMaps(fps: seq<map<Fragment, PartitionSetRef>>): (r: seq<map<Fragment, PartitionSetRef>>)
    ensures |r| == |fps| && forall i :: 0 <= i < |fps| ==> r[i] == ClearedMap(fps[i])
  {
    seq(|fps|, i requires 0 <= i < |fps| => ClearedMap(fps[i]))
  }

  /** The singleton-table entries some map of the plan refers to. */
  function SharedTargets(fps: seq<map<Fragment, PartitionSetRef>>): set<int>
  {
    set i, f | 0 <= i < |fps| && f in fps[i] && fps[i][f].Shared? :: fps[i][f].partition
  }

  /** The table entries the map's values among `keys` refer to. */
  function SharedIn(m: map<Fragment, PartitionSetRef>, keys: set<Fragment>): set<int>
  {
    set f | f in keys && f in m && m[f].Shared? :: m[f].partition
  }

  lemma SharedTargetsSnoc(fps: seq<map<Fragment, PartitionSetRef>>, i: nat)
    requires i < |fps|
    ensures SharedTargets(fps[..i + 1]) == SharedTargets(fps[..i]) + SharedIn(fps[i], fps[i].Keys)
  {
    var a, b := fps[..i + 1], fps[..i];
    forall p | p in SharedTargets(a)
      ensures p in SharedTargets(b) + SharedIn(fps[i], fps[i].Keys)
    {
      var k, f :| 0 <= k < |a| && f in a[k] && a[k][f].Shared? && a[k][f].partition == p;
      if k < i {
        assert b[k] == a[k];
      }
    }
    forall p | p in SharedTargets(b) + SharedIn(fps[i], fps[i].Keys)
      ensures p in SharedTargets(a)
    {
      if p in SharedTargets(b) {
        var k, f :| 0 <= k < |b| && f in b[k] && b[k][f].Shared? && b[k][f].partition == p;
        assert a[k] == b[k];
      } else {
        var f :| f in fps[i] && fps[i][f].Shared? && fps[i][f].partition == p;
        assert a[i] == fps[i];
      }
    }
  }

  /** A sequence of n copies of x. */
  function Fill<T>(n: nat, x: T): (s: seq<T>)
    ensures |s| == n && forall i :: 0 <= i < n ==> s[i] == x
  {
    seq(n, _ => x)
  }

  /** Every vertex of the graph can be placed in the bucket table. */
  predicate AllBucketable(vs: set<PlanVertex>, fps: seq<map<Fragment, PartitionSetRef>>, table: seq<set<int>>, numPartitions: int)
  {
    forall v :: v in vs ==> Bucketable(fps, table, numPartitions, v)
  }

  /** The exception the bucketing loop raises at v, which is not bucketable. */
  function BucketError(fps: seq<map<Fragment, PartitionSetRef>>, table: seq<set<int>>, v: PlanVertex): TaskError
  {
    if 0 <= v.stmtIndex < |fps| && v.frag in fps[v.stmtIndex] && RefInRange(fps[v.stmtIndex][v.frag], |table|)
    then BucketOutOfRange(v.stmtIndex)
    else MissingPartitions(v.stmtIndex)
  }

  /** A bucket of a larger vertex set holds at least the bucket of a smaller one. */
  lemma BucketGrows(vs: set<PlanVertex>, ws: set<PlanVertex>, fps: seq<map<Fragment, PartitionSetRef>>, table: seq<set<int>>, r: int, p: int)
    requires vs <= ws
    ensures Bucket(vs, fps, table, r, p) <= Bucket(ws, fps, table, r, p)
  {
  }

  /** Adding one vertex to the bucketed set adds it to the buckets of its round and partitions. */
  lemma BucketAdd(vs: set<PlanVertex>, fps: seq<map<Fragment, PartitionSetRef>>, table: seq<set<int>>, v: PlanVertex, r: int, p: int)
    ensures Bucket(vs + {v}, fps, table, r, p)
      == Bucket(vs, fps, table, r, p) + (if v.round == r && p in PartsOf(fps, table, v) then {v} else {})
  {
  }

  /**
   * The parameter-serialization loop over statements 0 .. n-1: the buffers,
   * or the exception of the first statement whose arguments are missing or
   * whose serialization raises.
   */
  function SerializeUpTo(args: seq<ParamSet>, ser: Serializer, n: nat): Result<seq<Buffer>, TaskError>
  {
    if n == 0 then Ok([])
    else match SerializeUpTo(args, ser, n - 1)
      case Err(e) => Err(e)
      case Ok(bufs) =>
        if n - 1 >= |args| then Err(MissingArguments)
        else match ser(args[n - 1])
          case None => Err(SerializationFailed(n - 1))
          case Some(b) => Ok(bufs + [b])
  }

  /**
   * The loop succeeds exactly when every statement below n has arguments
   * that serialize, and then buffer i is statement i's; otherwise it
   * raises MissingArguments or the failure of some statement below n.
   */
  lemma {:induction false} SerializeUpToMeaning(args: seq<ParamSet>, ser: Serializer, n: nat)
    ensures var r := SerializeUpTo(args, ser, n);
      && (r.Ok? <==> n <= |args| && forall i :: 0 <= i < n ==> ser(args[i]).Some?)
      && (r.Ok? ==> |r.value| == n && forall i :: 0 <= i < n ==> ser(args[i]) == Some(r.value[i]))
      && (r.Err? ==> r.error == MissingArguments || exists i :: 0 <= i < n && r.error == SerializationFailed(i))
  {
    if n > 0 {
      SerializeUpToMeaning(args, ser, n - 1);
    }
  }

  /** Once a statement fails, the loop over more statements fails the same way. */
  lemma {:induction false} SerializeErrPersists(args: seq<ParamSet>, ser: Serializer, i: nat, n: nat)
    requires i <= n && SerializeUpTo(args, ser, i).Err?
    ensures SerializeUpTo(args, ser, n) == SerializeUpTo(args, ser, i)
    decreases n - i
  {
    if i < n {
      SerializeErrPersists(args, ser, i, n - 1);
    }
  }

  /** A buffer for every statement. */
  function Somes(bufs: seq<Buffer>): (r: seq<Option<Buffer>>)
    ensures |r| == |bufs| && forall i :: 0 <= i < |bufs| ==> r[i] == Some(bufs[i])
  {
    seq(|bufs|, i requires 0 <= i < |bufs| => Some(bufs[i]))
  }

  /** The rounds the emission loop gets through before it would index past the table. */
  function EmittedRounds(roundsLength: int): (m: nat)
    ensures m <= MAX_ROUND_SIZE
    ensures 0 <= roundsLength <= MAX_ROUND_SIZE ==> m == roundsLength
  {
    if roundsLength < 0 then 0 else if roundsLength > MAX_ROUND_SIZE then MAX_ROUND_SIZE else roundsLength
  }

  /** Iterating over a HashSet of vertices: every member once, in some order. */
  method Enumerate(s: set<PlanVertex>) returns (vs: seq<PlanVertex>)
    ensures Enumerates(vs, s)
    ensures |vs| == |s|
  {
    vs := [];
    var todo := s;
    while todo != {}
      invariant todo <= s
      invariant forall v :: v in s <==> v in todo || v in vs
      invariant forall i :: 0 <= i < |vs| ==> vs[i] !in todo
      invariant forall i, j :: 0 <= i < j < |vs| ==> vs[i] != vs[j]
      invariant |vs| + |todo| == |s|
      decreases |todo|
    {
      var v :| v in todo;
      vs := vs + [v];
      todo := todo - {v};
    }
  }

  /** A cell is listed in row r's first n cells iff it lies there and its bucket is not empty. */
  lemma {:induction false} OccupiedInRowMembers(grid: seq<seq<set<PlanVertex>>>, r: nat, n: nat, c: (int, int))
    requires r < |grid| && n <= |grid[r]|
    ensures c in OccupiedInRow(grid, r, n) <==> c.0 == r && 0 <= c.1 < n && grid[r][c.1] != {}
  {
    if n > 0 {
      OccupiedInRowMembers(grid, r, n - 1, c);
    }
  }

  /** A cell is listed iff it lies in the first m rows and its bucket is not empty. */
  lemma {:induction false} OccupiedMembers(grid: seq<seq<set<PlanVertex>>>, m: nat, width: nat, c: (int, int))
    requires m <= |grid| && forall r :: 0 <= r < |grid| ==> |grid[r]| == width
    ensures c in Occupied(grid, m, width) <==> 0 <= c.0 < m && 0 <= c.1 < width && grid[c.0][c.1] != {}
  {
    if m > 0 {
      OccupiedMembers(grid, m - 1, width, c);
      OccupiedInRowMembers(grid, m - 1, width, c);
      assert Occupied(grid, m, width) == Occupied(grid, m - 1, width) + OccupiedInRow(grid, m - 1, width);
    }
  }

  /** Cells come in strictly increasing (round, partition) order, so each bucket gives one task. */
  predicate CellsAscending(cells: seq<(int, int)>)
  {
    forall i, j :: 0 <= i < j < |cells| ==> cells[i].0 < cells[j].0 || (cells[i].0 == cells[j].0 && cells[i].1 < cells[j].1)
  }

  lemma {:induction false} OccupiedInRowAscending(grid: seq<seq<set<PlanVertex>>>, r: nat, n: nat)
    requires r < |grid| && n <= |grid[r]|
    ensures CellsAscending(OccupiedInRow(grid, r, n))
    ensures forall i :: 0 <= i < |OccupiedInRow(grid, r, n)| ==>
      OccupiedInRow(grid, r, n)[i].0 == r && 0 <= OccupiedInRow(grid, r, n)[i].1 < n
  {
    if n > 0 {
      OccupiedInRowAscending(grid, r, n - 1);
    }
  }

  lemma {:induction false} OccupiedAscending(grid: seq<seq<set<PlanVertex>>>, m: nat, width: nat)
    requires m <= |grid| && forall r :: 0 <= r < |grid| ==> |grid[r]| == width
    ensures CellsAscending(Occupied(grid, m, width))
    ensures forall i :: 0 <= i < |Occupied(grid, m, width)| ==> 0 <= Occupied(grid, m, width)[i].0 < m
  {
    if m > 0 {
      OccupiedAscending(grid, m - 1, width);
      OccupiedInRowAscending(grid, m - 1, width);
    }
  }

  class BatchPlan {
    /** The planner's batch size and partition count, fixed when the plan object is made. */
    const capacity: nat
    const numPartitions: nat
    /** SINGLE_PARTITION_SETS, shared by every plan. */
    const singletons: PartitionSetCache

    var txnId: int
    var clientHandle: int
    var batchSize: int
    var batchArgs: Option<seq<ParamSet>>
    var basePartition: int
    var graph: PlanGraph?
    var mispredict: Option<Misprediction>

    /** param_buffers: each statement's serialized parameters, once tasks are built. */
    var paramBuffers: seq<Option<Buffer>>
    /** frag_list: each statement's fragments in execution order, once planned. */
    var fragList: seq<Option<seq<Fragment>>>
    /** ftasks, and (ghost) the bucket each task came from and the order its vertices were taken in. */
    var ftasks: seq<Task>
    ghost var taskCells: seq<(int, int)>
    ghost var taskVertices: seq<seq<PlanVertex>>

    /** rounds: round x partition -> the vertices to run there in that round. */
    const rounds: array2<set<PlanVertex>>
    var roundsLength: int

    var stmtPartitions: seq<set<int>>
    var fragPartitions: seq<map<Fragment, PartitionSetRef>>
    const bitmap: array<bool>

    var readonly: bool
    var allLocal: bool
    var allSinglePartitioned: bool
    var localFragsAreNonTransactional: bool

    ghost predicate Valid()
      reads this
    {
      && Sized()
      && |taskCells| == |ftasks| && |taskVertices| == |ftasks|
    }

    /** The bucket table, the bitmap and the per-statement sequences have the plan's dimensions. */
    ghost predicate Sized()
      reads this`paramBuffers, this`fragList, this`stmtPartitions, this`fragPartitions
    {
      && rounds.Length0 == MAX_ROUND_SIZE && rounds.Length1 == numPartitions
      && bitmap.Length == capacity
      && |paramBuffers| == capacity && |fragList| == capacity
      && |stmtPartitions| == capacity && |fragPartitions| == capacity
    }

    /** The invocation's fields that finish leaves alone. */
    ghost function Header(): (int, int, int, int, PlanGraph?, int, seq<Option<Buffer>>)
      reads this
    {
      (txnId, clientHandle, batchSize, basePartition, graph, roundsLength, paramBuffers)
    }

    /** readonly, all_local, all_singlepartitioned, localFragsAreNonTransactional. */
    ghost function Flags(): (bool, bool, bool, bool)
      reads this
    {
      (readonly, allLocal, allSinglePartitioned, localFragsAreNonTransactional)
    }

    /** The plan's placement record, as a value. */
    ghost function Recorded(): PlanRecord
      reads this, bitmap
    {
      PlanRecord(fragPartitions, stmtPartitions, fragList, bitmap[..], Flags())
    }

    /** The bucket table's contents as nested sequences. */
    ghost function Grid(): (g: seq<seq<set<PlanVertex>>>)
      reads rounds
      ensures |g| == rounds.Length0 && forall r :: 0 <= r < |g| ==> |g[r]| == rounds.Length1
      ensures forall r, p :: 0 <= r < rounds.Length0 && 0 <= p < rounds.Length1 ==> g[r][p] == rounds[r, p]
    {
      seq(rounds.Length0, r requires 0 <= r < rounds.Length0 reads rounds =>
        seq(rounds.Length1, p requires 0 <= p < rounds.Length1 reads rounds => rounds[r, p]))
    }

    /** BatchPlan(): empty per-statement state, an empty bucket table, every flag true. */
    constructor (capacity: nat, numPartitions: nat, singletons: PartitionSetCache)
      requires singletons.Valid()
      ensures this.capacity == capacity && this.numPartitions == numPartitions && this.singletons == singletons
      ensures Valid() && fresh(rounds) && fresh(bitmap)
      ensures ftasks == [] && graph == null && mispredict == None && batchArgs == None
      ensures fragList == Fill(capacity, None) && paramBuffers == Fill(capacity, None)
      ensures stmtPartitions == Fill(capacity, {}) && fragPartitions == Fill(capacity, map[])
      ensures forall r, p :: 0 <= r < MAX_ROUND_SIZE && 0 <= p < numPartitions ==> rounds[r, p] == {}
      ensures Flags() == (true, true, true, true)
    {
      this.capacity := capacity;
      this.numPartitions := numPartitions;
      this.singletons := singletons;
      txnId, clientHandle, batchSize, basePartition := 0, 0, 0, 0;
      batchArgs, graph, mispredict := None, null, None;
      paramBuffers := Fill(capacity, None);
      fragList := Fill(capacity, None);
      ftasks, taskCells, taskVertices := [], [], [];
      rounds := new set<PlanVertex>[MAX_ROUND_SIZE, numPartitions]((r, p) => {});
      roundsLength := 0;
      stmtPartitions := Fill(capacity, {});
      fragPartitions := Fill(capacity, map[]);
      bitmap := new bool[capacity];
      readonly, allLocal, allSinglePartitioned, localFragsAreNonTransactional := true, true, true, true;
    }

    /** init: record the invocation; nothing else changes. */
    method Init(txnId: int, clientHandle: int, basePartition: int, batchSize: int, batchArgs: seq<ParamSet>)
      modifies this
      ensures this.txnId == txnId && this.clientHandle == clientHandle && this.basePartition == basePartition
      ensures this.batchSize == batchSize && this.batchArgs == Some(batchArgs)
      ensures graph == old(graph) && mispredict == old(mispredict) && roundsLength == old(roundsLength)
      ensures paramBuffers == old(paramBuffers) && fragList == old(fragList)
      ensures ftasks == old(ftasks) && taskCells == old(taskCells) && taskVertices == old(taskVertices)
      ensures stmtPartitions == old(stmtPartitions) && fragPartitions == old(fragPartitions)
      ensures Flags() == old(Flags())
    {
      this.txnId := txnId;
      this.clientHandle := clientHandle;
      this.batchSize := batchSize;
      this.batchArgs := Some(batchArgs);
      this.basePartition := basePartition;
    }

    /**
     * The writes plan() makes to statement i's entries once it is placed:
     * its partition maps and its execution ordering.
     */
    method Record(i: nat, frags: map<Fragment, PartitionSetRef>, parts: set<int>, sorted: seq<Fragment>)
      requires Valid() && i < capacity
      modifies this
      ensures Valid()
      ensures fragPartitions == old(fragPartitions)[i := frags] && stmtPartitions == old(stmtPartitions)[i := parts]
      ensures fragList == old(fragList)[i := Some(sorted)]
      ensures Flags() == old(Flags()) && Header() == old(Header())
      ensures batchArgs == old(batchArgs) && mispredict == old(mispredict)
      ensures ftasks == old(ftasks) && taskCells == old(taskCells) && taskVertices == old(taskVertices)
    {
      fragPartitions, stmtPartitions, fragList := fragPartitions[i := frags], stmtPartitions[i := parts], fragList[i := Some(sorted)];
    }

    /** The batch flags ANDed with a placed statement's read-only flag, final choice and locality. */
    method AndFlags(readOnly: bool, single: bool, local: bool)
      requires Valid()
      modifies this
      ensures Valid()
      ensures Flags() == (old(readonly) && readOnly, old(allLocal) && local,
                          old(allSinglePartitioned) && single, old(localFragsAreNonTransactional))
      ensures fragPartitions == old(fragPartitions) && stmtPartitions == old(stmtPartitions) && fragList == old(fragList)
      ensures Header() == old(Header()) && batchArgs == old(batchArgs) && mispredict == old(mispredict)
      ensures ftasks == old(ftasks) && taskCells == old(taskCells) && taskVertices == old(taskVertices)
    {
      readonly, allSinglePartitioned, allLocal := readonly && readOnly, allSinglePartitioned && single, allLocal && local;
    }

    /** The last writes of plan(): the graph, its round count and the misprediction record. */
    method SetGraph(g: PlanGraph, rounds: int, m: Option<Misprediction>)
      requires Valid()
      modifies this
      ensures Valid()
      ensures graph == g && roundsLength == rounds && mispredict == m
      ensures txnId == old(txnId) && clientHandle == old(clientHandle)
      ensures basePartition == old(basePartition) && batchSize == old(batchSize)
      ensures batchArgs == old(batchArgs) && ftasks == old(ftasks) && paramBuffers == old(paramBuffers)
      ensures fragPartitions == old(fragPartitions) && stmtPartitions == old(stmtPartitions)
      ensures fragList == old(fragList) && Flags() == old(Flags())
    {
      graph, roundsLength, mispredict := g, rounds, m;
    }

    /** Statement i's bit in the single-partition bitmap. */
    method MarkSingle(i: nat, single: bool)
      requires i < bitmap.Length
      modifies bitmap
      ensures bitmap[..] == old(bitmap[..])[i := single]
    {
      bitmap[i] := single;
    }

    /** isInitialized: no tasks built yet. */
    predicate IsInitialized()
      reads this
    {
      ftasks == []
    }

    predicate HasMisprediction()
      reads this
    {
      mispredict.Some?
    }

    predicate IsReadOnly()
      reads this
    {
      readonly
    }

    predicate IsLocal()
      reads this
    {
      allLocal
    }

    predicate IsSingleSited()
      reads this
    {
      allSinglePartitioned
    }

    predicate IsSingledPartitionedAndLocal()
      reads this
    {
      allSinglePartitioned && allLocal
    }

    /**
     * finish: drop the misprediction, the arguments and the tasks; empty
     * every frag_list entry, every statement partition set, every value set
     * of frag_partitions and every bucket. The value sets of the fast path
     * are the shared singleton sets, so those table entries are emptied
     * too. The graph, the buffers and the flags are left as they are.
     */
    method Finish()
      requires Valid() && singletons.Valid()
      modifies this, rounds, singletons.sets
      ensures Valid() && singletons.Valid()
      ensures mispredict == None && batchArgs == None && ftasks == []
      ensures fragList == Fill(capacity, None) && stmtPartitions == Fill(capacity, {})
      ensures fragPartitions == ClearedMaps(old(fragPartitions))
      ensures forall p :: 0 <= p < singletons.sets.Length ==>
        singletons.sets[p] == if p in SharedTargets(old(fragPartitions)) then {} else old(singletons.sets[p])
      ensures forall r, p :: 0 <= r < MAX_ROUND_SIZE && 0 <= p < numPartitions ==> rounds[r, p] == {}
      ensures Header() == old(Header())
      ensures Flags() == old(Flags())
    {
      ClearSharedSets(fragPartitions);
      Reset();
    }

    /**
     * finish as it is evidently meant: the same resets, except that the
     * shared singleton sets are left intact, and the batch-wide flags go
     * back to true so that the next batch planned with this object starts
     * from the constructor's values.
     */
    method FinishForReuse()
      requires Valid()
      modifies this, rounds
      ensures Valid()
      ensures mispredict == None && batchArgs == None && ftasks == []
      ensures fragList == Fill(capacity, None) && stmtPartitions == Fill(capacity, {})
      ensures fragPartitions == ClearedMaps(old(fragPartitions))
      ensures unchanged(singletons.sets)
      ensures forall r, p :: 0 <= r < MAX_ROUND_SIZE && 0 <= p < numPartitions ==> rounds[r, p] == {}
      ensures Header() == old(Header())
      ensures Flags() == (true, true, true, true)
    {
      Reset();
      readonly, allLocal, allSinglePartitioned, localFragsAreNonTransactional := true, true, true, true;
    }

    /** What finish does to the plan's own state and to the bucket table. */
    method Reset()
      requires Valid()
      modifies this`mispredict, this`batchArgs, this`ftasks, this`taskCells, this`taskVertices
      modifies this`fragList, this`stmtPartitions, this`fragPartitions, rounds
      ensures Valid()
      ensures mispredict == None && batchArgs == None && ftasks == []
      ensures fragList == Fill(capacity, None) && stmtPartitions == Fill(capacity, {})
      ensures fragPartitions == ClearedMaps(old(fragPartitions))
      ensures forall r, p :: 0 <= r < MAX_ROUND_SIZE && 0 <= p < numPartitions ==> rounds[r, p] == {}
      ensures Header() == old(Header())
      ensures Flags() == old(Flags())
    {
      ClearRounds();
      ClearStatements();
      ClearInvocation();
    }

    /** The misprediction, the arguments and the task list go back to their initial values. */
    method ClearInvocation()
      requires Valid()
      modifies this`mispredict, this`batchArgs, this`ftasks, this`taskCells, this`taskVertices
      ensures Valid()
      ensures mispredict == None && batchArgs == None && ftasks == []
    {
      mispredict := None;
      batchArgs := None;
      ftasks, taskCells, taskVertices := [], [], [];
    }

    /** The per-statement loop of finish, as it affects the plan's own state. */
    method ClearStatements()
      requires Valid()
      modifies this`fragList, this`stmtPartitions, this`fragPartitions
      ensures Valid()
      ensures fragList == Fill(capacity, None) && stmtPartitions == Fill(capacity, {})
      ensures fragPartitions == ClearedMaps(old(fragPartitions))
      ensures mispredict == old(mispredict) && batchArgs == old(batchArgs) && ftasks == old(ftasks)
      ensures taskCells == old(taskCells) && taskVertices == old(taskVertices)
      ensures Header() == old(Header())
      ensures Flags() == old(Flags())
    {
      for i := 0 to capacity
        invariant Valid()
        invariant forall k :: 0 <= k < capacity ==> fragList[k] == if k < i then None else old(fragList[k])
        invariant forall k :: 0 <= k < capacity ==> stmtPartitions[k] == if k < i then {} else old(stmtPartitions[k])
        invariant forall k :: 0 <= k < capacity ==>
          fragPartitions[k] == if k < i then ClearedMap(old(fragPartitions[k])) else old(fragPartitions[k])
      {
        fragList := fragList[i := None];
        stmtPartitions := stmtPartitions[i := {}];
        fragPartitions := fragPartitions[i := ClearedMap(fragPartitions[i])];
      }
    }

    /**
     * The same loop as it affects the singleton table: clearing a value
     * that is a shared set empties that table entry.
     */
    method ClearSharedSets(fps: seq<map<Fragment, PartitionSetRef>>)
      requires singletons.Valid()
      modifies singletons.sets
      ensures singletons.Valid()
      ensures forall p :: 0 <= p < singletons.sets.Length ==>
        singletons.sets[p] == if p in SharedTargets(fps) then {} else old(singletons.sets[p])
    {
      for i := 0 to |fps|
        invariant singletons.Valid()
        invariant forall p :: 0 <= p < singletons.sets.Length ==>
          singletons.sets[p] == if p in SharedTargets(fps[..i]) then {} else old(singletons.sets[p])
      {
        ClearSharedIn(fps[i]);
        SharedTargetsSnoc(fps, i);
      }
      assert fps[..|fps|] == fps;
    }

    /** `for (Set s : map.values()) s.clear()` on the shared values of one map. */
    method ClearSharedIn(m: map<Fragment, PartitionSetRef>)
      requires singletons.Valid()
      modifies singletons.sets
      ensures singletons.Valid()
      ensures forall p :: 0 <= p < singletons.sets.Length ==>
        singletons.sets[p] == if p in SharedIn(m, m.Keys) then {} else old(singletons.sets[p])
    {
      var todo := m.Keys;
      while todo != {}
        invariant todo <= m.Keys
        invariant forall p :: 0 <= p < singletons.sets.Length ==>
          singletons.sets[p] == if p in SharedIn(m, m.Keys - todo) then {} else old(singletons.sets[p])
        invariant singletons.Valid()
        decreases |todo|
      {
        var f :| f in todo;
        if m[f].Shared? && 0 <= m[f].partition < singletons.sets.Length {
          singletons.sets[m[f].partition] := {};
        }
        todo := todo - {f};
      }
    }

    /** The bucket loop of finish: every bucket emptied. */
    method ClearRounds()
      modifies rounds
      ensures forall r, p :: 0 <= r < rounds.Length0 && 0 <= p < rounds.Length1 ==> rounds[r, p] == {}
    {
      for r := 0 to rounds.Length0
        invariant forall r', p :: 0 <= r' < r && 0 <= p < rounds.Length1 ==> rounds[r', p] == {}
      {
        for p := 0 to rounds.Length1
          invariant forall r', p' :: 0 <= r' < r && 0 <= p' < rounds.Length1 ==> rounds[r', p'] == {}
          invariant forall p' :: 0 <= p' < p ==> rounds[r, p'] == {}
        {
          rounds[r, p] := {};
        }
      }
    }

    // -------------------------------------------------------------------
    // Building the fragment tasks
    // -------------------------------------------------------------------

    /** What plan() and init() produced: the build reads these and leaves them alone. */
    ghost function Planned(): (int, int, int, int, PlanGraph?, int, Option<seq<ParamSet>>, Option<Misprediction>,
                               seq<Option<seq<Fragment>>>, seq<set<int>>, seq<map<Fragment, PartitionSetRef>>)
      reads this
    {
      (txnId, clientHandle, batchSize, basePartition, graph, roundsLength, batchArgs, mispredict,
       fragList, stmtPartitions, fragPartitions)
    }

    /** batchArgs as the serialization loop indexes it: a cleared array has no entries. */
    ghost function Args(): seq<ParamSet>
      reads this
    {
      if batchArgs.Some? then batchArgs.value else []
    }

    /** Every vertex in the bucket table belongs to a statement of the batch. */
    ghost predicate BucketsInRange()
      reads rounds
    {
      forall r, p, v :: 0 <= r < rounds.Length0 && 0 <= p < rounds.Length1 && v in rounds[r, p] ==>
        0 <= v.stmtIndex < capacity
    }

    /**
     * t is the task for the bucket at `cell`, its vertices taken in the
     * order vs, for a plan with the given header.
     */
    ghost predicate TaskFrom(t: Task, cell: (int, int), vs: seq<PlanVertex>, bufs: seq<Buffer>,
                             base: int, txn: int, handle: int)
      reads rounds
    {
      && 0 <= cell.0 < rounds.Length0 && 0 <= cell.1 < rounds.Length1
      && Enumerates(vs, rounds[cell.0, cell.1])
      && (forall i :: 0 <= i < |vs| ==> 0 <= vs[i].stmtIndex < |bufs|)
      && t == TaskFor(vs, base, cell.1, txn, handle, bufs)
    }

    /** ftasks holds one task per non-empty bucket of the first m rounds, in round-then-partition order. */
    ghost predicate Emitted(m: nat, bufs: seq<Buffer>)
      reads this, rounds
      requires m <= rounds.Length0
    {
      && |taskCells| == |ftasks| && |taskVertices| == |ftasks|
      && taskCells == Occupied(Grid(), m, rounds.Length1)
      && forall k :: 0 <= k < |ftasks| ==>
           TaskFrom(ftasks[k], taskCells[k], taskVertices[k], bufs, basePartition, txnId, clientHandle)
    }

    /**
     * The bucketing loop of buildFragmentTaskMessages: each vertex goes into
     * the bucket of its round at every partition its fragment is sent to.
     * It raises at the first vertex it meets that cannot be bucketed; what
     * was added before stays, so every bucket then holds part of its share.
     */
    method FillBuckets(vs: set<PlanVertex>) returns (err: Option<TaskError>)
      requires Valid() && BucketsInRange()
      modifies rounds
      ensures BucketsInRange()
      ensures err.None? <==> AllBucketable(vs, fragPartitions, singletons.sets[..], numPartitions)
      ensures err.None? ==> forall r, p :: 0 <= r < MAX_ROUND_SIZE && 0 <= p < numPartitions ==>
        rounds[r, p] == old(rounds[r, p]) + Bucket(vs, fragPartitions, singletons.sets[..], r, p)
      ensures err.Some? ==>
        && (exists v :: v in vs && !Bucketable(fragPartitions, singletons.sets[..], numPartitions, v)
                        && err.value == BucketError(fragPartitions, singletons.sets[..], v))
        && forall r, p :: 0 <= r < MAX_ROUND_SIZE && 0 <= p < numPartitions ==>
             old(rounds[r, p]) <= rounds[r, p] <= old(rounds[r, p]) + Bucket(vs, fragPartitions, singletons.sets[..], r, p)
    {
      ghost var table := singletons.sets[..];
      var todo := vs;
      ghost var done: set<PlanVertex> := {};
      while todo != {}
        invariant todo <= vs && done == vs - todo
        invariant BucketsInRange()
        invariant AllBucketable(done, fragPartitions, table, numPartitions)
        invariant forall r, p :: 0 <= r < MAX_ROUND_SIZE && 0 <= p < numPartitions ==>
          rounds[r, p] == old(rounds[r, p]) + Bucket(done, fragPartitions, table, r, p)
        decreases |todo|
      {
        var v :| v in todo;
        if !Bucketable(fragPartitions, singletons.sets[..], numPartitions, v) {
          // the vertex's partitions may be walked in any order, so it may sit
          // in none of its buckets yet: the loop raises before adding it
          forall r, p | 0 <= r < MAX_ROUND_SIZE && 0 <= p < numPartitions
            ensures Bucket(done, fragPartitions, table, r, p) <= Bucket(vs, fragPartitions, table, r, p)
          {
            BucketGrows(done, vs, fragPartitions, table, r, p);
          }
          return Some(BucketError(fragPartitions, singletons.sets[..], v));
        }
        BucketVertex(v);
        forall r, p | 0 <= r < MAX_ROUND_SIZE && 0 <= p < numPartitions
          ensures rounds[r, p] == old(rounds[r, p]) + Bucket(done + {v}, fragPartitions, table, r, p)
        {
          BucketAdd(done, fragPartitions, table, v, r, p);
        }
        done := done + {v};
        todo := todo - {v};
      }
      err := None;
    }

    /** One iteration of the bucketing loop: v joins the bucket of its round at each of its partitions. */
    method BucketVertex(v: PlanVertex)
      requires Valid() && BucketsInRange()
      requires Bucketable(fragPartitions, singletons.sets[..], numPartitions, v)
      modifies rounds
      ensures BucketsInRange()
      ensures forall r, p :: 0 <= r < MAX_ROUND_SIZE && 0 <= p < numPartitions ==>
        rounds[r, p] == old(rounds[r, p]) + (if v.round == r && p in PartsOf(fragPartitions, singletons.sets[..], v) then {v} else {})
    {
      var ps := Resolve(fragPartitions[v.stmtIndex][v.frag], singletons.sets[..]);
      assert ps == PartsOf(fragPartitions, singletons.sets[..], v);
      AddToBuckets(v, ps);
    }

    /**
     * The serialization loop: param_buffers[i] becomes statement i's
     * serialized arguments, for every statement of the planner's batch size.
     */
    method SerializeParams(ser: Serializer) returns (res: Result<seq<Buffer>, TaskError>)
      requires Valid()
      modifies this`paramBuffers
      ensures Valid()
      ensures res == SerializeUpTo(Args(), ser, capacity)
      ensures res.Ok? ==> paramBuffers == Somes(res.value)
      ensures Planned() == old(Planned()) && Flags() == old(Flags())
      ensures ftasks == old(ftasks) && taskCells == old(taskCells) && taskVertices == old(taskVertices)
    {
      var bufs: seq<Buffer> := [];
      for i := 0 to capacity
        invariant Valid()
        invariant SerializeUpTo(Args(), ser, i) == Ok(bufs) && |bufs| == i
        invariant forall k :: 0 <= k < i ==> paramBuffers[k] == Some(bufs[k])
              {
        if batchArgs.None? || i >= |batchArgs.value| {
          SerializeErrPersists(Args(), ser, i + 1, capacity);
          return Err(MissingArguments);
        }
        match ser(batchArgs.value[i]) {
          case None =>
            SerializeErrPersists(Args(), ser, i + 1, capacity);
            return Err(SerializationFailed(i));
          case Some(b) =>
            paramBuffers := paramBuffers[i := Some(b)];
            bufs := bufs + [b];
        }
      }
      res := Ok(bufs);
    }

    /**
     * The emission loops: for rounds 0 .. m-1 and every partition, a
     * non-empty bucket becomes one task for that partition.
     */
    method EmitTasks(m: nat, bufs: seq<Buffer>)
      requires Valid() && BucketsInRange() && ftasks == []
      requires m <= MAX_ROUND_SIZE && |bufs| == capacity
      modifies this`ftasks, this`taskCells, this`taskVertices
      ensures Valid()
      ensures Emitted(m, bufs)
      ensures Planned() == old(Planned()) && Flags() == old(Flags()) && paramBuffers == old(paramBuffers)
    {
      taskCells, taskVertices := [], [];
      for r := 0 to m
        invariant Valid()
        invariant Emitted(r, bufs)
        invariant Planned() == old(Planned()) && Flags() == old(Flags()) && paramBuffers == old(paramBuffers)
      {
        EmitRow(r, bufs);
      }
    }

    /** One round of the emission loops: a task for each non-empty bucket of row r. */
    method EmitRow(r: nat, bufs: seq<Buffer>)
      requires Valid() && BucketsInRange()
      requires r < MAX_ROUND_SIZE && |bufs| == capacity
      requires Emitted(r, bufs)
      modifies this`ftasks, this`taskCells, this`taskVertices
      ensures Valid() && Emitted(r + 1, bufs)
      ensures Planned() == old(Planned()) && Flags() == old(Flags()) && paramBuffers == old(paramBuffers)
    {
      EmitCells(r, bufs);
      ghost var grid := Grid();
      assert Occupied(grid, r + 1, rounds.Length1) == Occupied(grid, r, rounds.Length1) + OccupiedInRow(grid, r, rounds.Length1);
    }

    /** The partition loop of round r: the tasks of its non-empty buckets, in partition order, go at the end of ftasks. */
    method EmitCells(r: nat, bufs: seq<Buffer>)
      requires BucketsInRange() && r < rounds.Length0 && |bufs| == capacity
      requires |taskCells| == |ftasks| && |taskVertices| == |ftasks|
      requires forall k :: 0 <= k < |ftasks| ==>
        TaskFrom(ftasks[k], taskCells[k], taskVertices[k], bufs, basePartition, txnId, clientHandle)
      modifies this`ftasks, this`taskCells, this`taskVertices
      ensures |taskCells| == |ftasks| && |taskVertices| == |ftasks|
      ensures forall k :: 0 <= k < |ftasks| ==>
        TaskFrom(ftasks[k], taskCells[k], taskVertices[k], bufs, basePartition, txnId, clientHandle)
      ensures taskCells == old(taskCells) + OccupiedInRow(Grid(), r, rounds.Length1)
    {
      ghost var grid := Grid();
      for p := 0 to rounds.Length1
        invariant |taskCells| == |ftasks| && |taskVertices| == |ftasks|
        invariant taskCells == old(taskCells) + OccupiedInRow(grid, r, p)
        invariant forall k :: 0 <= k < |ftasks| ==>
          TaskFrom(ftasks[k], taskCells[k], taskVertices[k], bufs, basePartition, txnId, clientHandle)
      {
        assert grid[r][p] == rounds[r, p];
        if rounds[r, p] != {} {
          AppendTask(r, p, bufs);
        }
      }
    }

    /** One iteration of the partition loop on a non-empty bucket: its task goes at the end of ftasks. */
    method AppendTask(r: nat, p: nat, bufs: seq<Buffer>)
      requires BucketsInRange() && r < rounds.Length0 && p < rounds.Length1 && |bufs| == capacity
      requires |taskCells| == |ftasks| && |taskVertices| == |ftasks|
      requires forall k :: 0 <= k < |ftasks| ==>
        TaskFrom(ftasks[k], taskCells[k], taskVertices[k], bufs, basePartition, txnId, clientHandle)
      modifies this`ftasks, this`taskCells, this`taskVertices
      ensures |taskCells| == |ftasks| && |taskVertices| == |ftasks|
      ensures |ftasks| == |old(ftasks)| + 1 && ftasks[..|old(ftasks)|] == old(ftasks)
      ensures taskCells == old(taskCells) + [(r, p)] && taskVertices[..|old(ftasks)|] == old(taskVertices)
      ensures forall k :: 0 <= k < |ftasks| ==>
        TaskFrom(ftasks[k], taskCells[k], taskVertices[k], bufs, basePartition, txnId, clientHandle)
      ensures Planned() == old(Planned()) && Flags() == old(Flags()) && paramBuffers == old(paramBuffers)
    {
      var vs := Enumerate(rounds[r, p]);
      var task := TaskFor(vs, basePartition, p, txnId, clientHandle, bufs);
      assert TaskFrom(task, (r, p), vs, bufs, basePartition, txnId, clientHandle);
      ftasks := ftasks + [task];
      taskCells := taskCells + [(r, p)];
      taskVertices := taskVertices + [vs];
    }

    /** Put v into the bucket of its round at each partition in ps. */
    method AddToBuckets(v: PlanVertex, ps: set<int>)
      requires ps != {} ==> 0 <= v.round < rounds.Length0
      requires forall p :: p in ps ==> 0 <= p < rounds.Length1
      modifies rounds
      ensures forall r, p :: 0 <= r < rounds.Length0 && 0 <= p < rounds.Length1 ==>
        rounds[r, p] == old(rounds[r, p]) + (if r == v.round && p in ps then {v} else {})
    {
      // The source walks the set itself; since every member is a column of
      // the table, walking the columns and testing membership adds the same.
      for q := 0 to rounds.Length1
        invariant forall r, p :: 0 <= r < rounds.Length0 && 0 <= p < rounds.Length1 ==>
          rounds[r, p] == old(rounds[r, p]) + (if r == v.round && p in ps && p < q then {v} else {})
      {
        if q in ps {
          rounds[v.round, q] := rounds[v.round, q] + {v};
        }
      }
    }

    /**
     * What building the tasks does, from the state before to the state
     * after: a missing graph, a vertex that cannot be bucketed, a
     * statement whose parameters cannot be serialized, too many rounds, no
     * task at all, or the tasks.
     */
    twostate predicate BuildSpec(ser: Serializer, new res: Result<seq<Task>, TaskError>)
      reads this, rounds, singletons, singletons.sets, graph
      requires Valid()
    {
      && Planned() == old(Planned()) && Flags() == old(Flags())
      && (graph == null <==> res == Err(NoPlanGraph))
      && (graph != null && !AllBucketable(graph.vertices, fragPartitions, singletons.sets[..], numPartitions) ==>
            && res.Err?
            && (exists v :: v in graph.vertices && !Bucketable(fragPartitions, singletons.sets[..], numPartitions, v)
                            && res.error == BucketError(fragPartitions, singletons.sets[..], v))
            && ftasks == [] && paramBuffers == old(paramBuffers)
            && forall r, p :: 0 <= r < MAX_ROUND_SIZE && 0 <= p < numPartitions ==>
                 old(rounds[r, p]) <= rounds[r, p] <= old(rounds[r, p]) + Bucket(graph.vertices, fragPartitions, singletons.sets[..], r, p))
      && (graph != null && AllBucketable(graph.vertices, fragPartitions, singletons.sets[..], numPartitions) ==>
            && (forall r, p :: 0 <= r < MAX_ROUND_SIZE && 0 <= p < numPartitions ==>
                  rounds[r, p] == old(rounds[r, p]) + Bucket(graph.vertices, fragPartitions, singletons.sets[..], r, p))
            && match SerializeUpTo(Args(), ser, capacity)
               case Err(e) => res == Err(e) && ftasks == []
               case Ok(bufs) =>
                 && paramBuffers == Somes(bufs)
                 && Emitted(EmittedRounds(roundsLength), bufs)
                 && res == (if roundsLength > MAX_ROUND_SIZE then Err(RoundsOutOfRange)
                            else if ftasks == [] then Err(NoTasks) else Ok(ftasks)))
    }

    /**
     * buildFragmentTaskMessages: bucket the graph's vertices, serialize the
     * parameters, then emit one task per non-empty bucket. The closing
     * assertion that some task was built is the NoTasks error.
     */
    method BuildFragmentTaskMessages(ser: Serializer) returns (res: Result<seq<Task>, TaskError>)
      requires Valid() && BucketsInRange() && ftasks == []
      modifies this, rounds
      ensures Valid() && BucketsInRange()
      ensures BuildSpec(ser, res)
    {
      if graph == null {
        return Err(NoPlanGraph);
      }
      var g := graph;
      var bucketErr := FillBuckets(g.vertices);
      if bucketErr.Some? {
        return Err(bucketErr.value);
      }
      var ser_res := SerializeParams(ser);
      if ser_res.Err? {
        // a serialization failure is never the missing-graph error
        SerializeUpToMeaning(Args(), ser, capacity);
        return Err(ser_res.error);
      }
      EmitTasks(EmittedRounds(roundsLength), ser_res.value);
      if roundsLength > MAX_ROUND_SIZE {
        return Err(RoundsOutOfRange);
      }
      if ftasks == [] {
        return Err(NoTasks);
      }
      res := Ok(ftasks);
    }

    /**
     * getFragmentTaskMessages: build the tasks unless some already exist;
     * once built they are returned as they are.
     */
    method GetFragmentTaskMessages(ser: Serializer) returns (res: Result<seq<Task>, TaskError>)
      requires Valid() && BucketsInRange()
      modifies this, rounds
      ensures Valid() && BucketsInRange()
      ensures old(ftasks) != [] ==> res == Ok(old(ftasks)) && unchanged(this) && unchanged(rounds)
      ensures old(ftasks) == [] ==> BuildSpec(ser, res)
    {
      if ftasks == [] {
        res := BuildFragmentTaskMessages(ser);
      } else {
        res := Ok(ftasks);
      }
    }

    /** getLocalFragmentCount: the number of tasks sent to `partition`. */
    method GetLocalFragmentCount(ser: Serializer, partition: int) returns (res: Result<nat, TaskError>)
      requires Valid() && BucketsInRange()
      modifies this, rounds
      ensures Valid() && BucketsInRange()
      ensures old(ftasks) != [] ==> res == Ok(CountTo(old(ftasks), partition)) && unchanged(this) && unchanged(rounds)
      ensures old(ftasks) == [] ==> exists t :: BuildSpec(ser, t) && res == if t.Ok? then Ok(CountTo(t.value, partition)) else Err(t.error)
    {
      var t := GetFragmentTaskMessages(ser);
      if t.Err? {
        return Err(t.error);
      }
      var tasks := t.value;
      var cnt := 0;
      for i := 0 to |tasks|
        invariant cnt == CountTo(tasks[..i], partition)
      {
        assert tasks[..i + 1][..i] == tasks[..i];
        if tasks[i].destination == partition {
          cnt := cnt + 1;
        }
      }
      assert tasks[..|tasks|] == tasks;
      res := Ok(cnt);
    }

    /** getRemoteFragmentCount: the number of tasks sent anywhere else. */
    method GetRemoteFragmentCount(ser: Serializer, partition: int) returns (res: Result<nat, TaskError>)
      requires Valid() && BucketsInRange()
      modifies this, rounds
      ensures Valid() && BucketsInRange()
      ensures old(ftasks) != [] ==> res == Ok(CountAway(old(ftasks), partition)) && unchanged(this) && unchanged(rounds)
      ensures old(ftasks) == [] ==> exists t :: BuildSpec(ser, t) && res == if t.Ok? then Ok(CountAway(t.value, partition)) else Err(t.error)
    {
      var t := GetFragmentTaskMessages(ser);
      if t.Err? {
        return Err(t.error);
      }
      var tasks := t.value;
      var cnt := 0;
      for i := 0 to |tasks|
        invariant cnt == CountAway(tasks[..i], partition)
      {
        assert tasks[..i + 1][..i] == tasks[..i];
        if tasks[i].destination != partition {
          cnt := cnt + 1;
        }
      }
      assert tasks[..|tasks|] == tasks;
      res := Ok(cnt);
    }
  }
}
