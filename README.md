# BatchPlanner, modelled in Dafny

This project models the batch fragment planner of the H-Store transaction
engine, `org.voltdb.BatchPlanner`. A stored procedure hands the planner a
batch of SQL statements with their bound parameters. The planner decides,
statement by statement, where each statement's plan fragments run, and records
the decision in a pooled `BatchPlan`. It then attaches a dependency graph of
plan vertices, cached per single-partition bitmap, and on demand turns the
graph into one fragment task per (round, partition) bucket.

The model follows the source's own structure:

| file | module | models |
|---|---|---|
| `catalog.dfy` | `Catalog` | statements, fragments, constants, and the partition estimator and parameter serializer as oracle functions |
| `vertex.dfy` | `PlanVertices` | `PlanVertex`, its packed `hash_code` / `equals`, and `PLANVERTEX_COMPARATOR` with Java `int` wrap-around |
| `depids.dfy` | `DependencyIds` | `NEXT_DEPENDENCY_ID` as an allocator object |
| `partsets.dfy` | `PartitionSets` | `SINGLE_PARTITION_SETS` (`preload`), and how a plan refers to a shared singleton set or owns its set |
| `graph.dfy` | `PlanGraphs` | `PlanGraph` (a class: vertices, edges, output-id cross reference, projection arrays) and `buildPlanGraph` |
| `placement.dfy` | `Placement` | the per-statement placement decision of `plan()` as a function, and the misprediction histogram |
| `batchplan.dfy` | `BatchPlans` | `BatchPlan` (a class with arrays for the bucket table and the bitmap), `finish`, and `buildFragmentTaskMessages` with its getters |
| `planner.dfy` | `BatchPlanners` | `BatchPlanner` (a class holding the memoised fragment orderings and the graph cache) and `plan()` |

State that the source updates in place is modelled imperatively:
- the plan's per-statement lists and flags, the bucket table `rounds` (an
  `array2`), the bitmap (an `array`), the singleton table, the dependency
  counter and the graph cache;
- each method's loops carry invariants that tie them to value-level
  specification functions.

The main specification functions, each with the properties proved about it:
- `Place` for one statement;
- `PlaceAll` over a batch;
- `HistogramUpTo` for the misprediction histogram;
- `Layout` and `BuiltGraph` for the graph;
- `Bucket`, `Occupied` and `TaskFor` for the tasks;
- `SerializeUpTo` for parameter serialization.

What the proofs establish:
- `plan()` records, for every statement, exactly the placement `Place`
  computes, and folds the flags as stated.
- The graph attached is the cached graph for the bitmap's `Arrays.hashCode`
  key, and a cache miss builds and files it.
- The built graph has one vertex per (statement, round), with consecutive
  fresh output ids.
- Every vertex past round 0 has exactly one edge, to the previous round of its
  own statement.
- The projection arrays list the vertices in comparator order. The sort leaves
  them unchanged, because they are already strictly sorted.
- The tasks are one per non-empty bucket, in round-then-partition order, and
  each task describes its bucket's vertices.

Two things follow the hash key faithfully but are worth knowing:
- the key does not determine the bitmap (`BitmapHashCollides` gives two
  17-statement bitmaps with the same key);
- vertex identity is the packed hash code, which merges distinct vertices once
  a fragment id reaches 2^16 (`SameVertexCollidesOutOfRange`).

The statement loop does not stop at a mispredicted statement. The `continue`
at line 690 only skips the debug dump: every statement is still placed, and a
later mispredicted statement adds its own partitions to the histogram.

## Model

| member | source | states |
|---|---|---|
| Catalog.Wrap32 | src/frontend/org/voltdb/BatchPlanner.java:950-952 | Java `int` arithmetic: the result is a 32-bit value congruent to the exact one modulo 2^32, and equal to it when no overflow occurs |
| DependencyIds.DependencyIdAllocator.constructor | src/frontend/org/voltdb/BatchPlanner.java:55 | the counter starts at 9000 |
| DependencyIds.DependencyIdAllocator.GetAndIncrement | src/frontend/org/voltdb/BatchPlanner.java:892 | returns the current id and advances by one, so ids never repeat and never reach NULL_DEPENDENCY_ID |
| PartitionSets.PartitionSetCache.Preload | src/frontend/org/voltdb/BatchPlanner.java:936-945 | a fresh table with entry i equal to {i} for every partition |
| PlanVertices.HashCodeInRange | src/frontend/org/voltdb/BatchPlanner.java:131 | with the id below 2^16 and round and statement below 2^8, `frag_id \| round<<16 \| stmt_index<<24` is their packed sum |
| PlanVertices.SameVertexIffSameKey | src/frontend/org/voltdb/BatchPlanner.java:134-143 | in range, `equals` (hash-code equality) holds exactly when fragment id, round and statement agree, in both directions |
| PlanVertices.SameVertexCollidesOutOfRange | src/frontend/org/voltdb/BatchPlanner.java:131-138 | out of range the packing merges distinct vertices: fragment 65536 in round 0 equals fragment 0 in round 1 |
| PlanVertices.CompareIsLexicographic | src/frontend/org/voltdb/BatchPlanner.java:947-954 | in range the comparator's sign is the lexicographic order on (statement, round, fragment id): negative, zero or positive exactly when before, same key, after |
| PlanVertices.SortOfStrictlySortedIsIdentity | src/frontend/org/voltdb/BatchPlanner.java:923 | any permutation of a strictly sorted vertex list that is sorted by the comparator is the list itself |
| PlanGraphs.AddIfAbsent | src/frontend/org/voltdb/BatchPlanner.java:194-198 | HashSet.add under `equals`: afterwards an equal vertex is present, and at most v was added |
| PlanGraphs.Chain | src/frontend/org/voltdb/BatchPlanner.java:887-903 | one vertex per fragment of the statement |
| PlanGraphs.Layout | src/frontend/org/voltdb/BatchPlanner.java:877-904 | sorted_vertices has one vertex per fragment of every statement |
| PlanGraphs.PlanGraph.constructor | src/frontend/org/voltdb/BatchPlanner.java:185-187 | an empty graph, empty xref, max_rounds 0 and empty projection arrays |
| PlanGraphs.PlanGraph.AddVertex | src/frontend/org/voltdb/BatchPlanner.java:190-199 | the vertex joins its output id's xref bucket (created if missing) and the vertex set; the result says whether the vertex set grew; edges, round count and projection are unchanged |
| PlanGraphs.PlanGraph.AddEdge | src/frontend/org/voltdb/BatchPlanner.java:912-913 | one edge more, nothing else about the graph changes |
| PlanGraphs.BuildPlanGraph | src/frontend/org/voltdb/BatchPlanner.java:871-933 | a fresh graph equal to BuiltGraph of the fragment lists, with fresh projection arrays equal to the columns of the layout; the counter advanced by the number of fragments |
| PlanGraphs.AddChains | src/frontend/org/voltdb/BatchPlanner.java:877-904 | the statement loop yields exactly the layout, collects its vertices and xref, sets max_rounds to the longest list, and takes one id per fragment |
| PlanGraphs.AddStatement | src/frontend/org/voltdb/BatchPlanner.java:878-903 | one more statement's chain is appended to sorted_vertices and the graph |
| PlanGraphs.PrefixSnoc | src/frontend/org/voltdb/BatchPlanner.java:883-903 | one more statement extends the layout by its chain and raises max_rounds to its length if longer |
| PlanGraphs.AddChain | src/frontend/org/voltdb/BatchPlanner.java:886-903 | the round loop yields the statement's chain with ids from the counter, each vertex added to the graph in order |
| PlanGraphs.ChainSnoc | src/frontend/org/voltdb/BatchPlanner.java:887-903 | one more round extends the chain by that round's vertex |
| PlanGraphs.SetupEdges | src/frontend/org/voltdb/BatchPlanner.java:907-915 | the edge loop leaves exactly EdgesOf(vertices, xref) and changes nothing else |
| PlanGraphs.AddEdgesFrom | src/frontend/org/voltdb/BatchPlanner.java:909-914 | the inner loop adds exactly v0's edges to every producer of its input id, skipping existing ones |
| PlanGraphs.EdgesOfAdd | src/frontend/org/voltdb/BatchPlanner.java:907-915 | visiting one more vertex adds exactly its edges, none for a vertex without input |
| PlanGraphs.LayoutInputsProduced | src/frontend/org/voltdb/BatchPlanner.java:908-909 | every laid-out vertex with an input id finds that id in the xref, so getOutputDependencies never returns null |
| PlanGraphs.InputHasProducer | src/frontend/org/voltdb/BatchPlanner.java:909 | a single vertex's input id is an xref key |
| PlanGraphs.FillProjection | src/frontend/org/voltdb/BatchPlanner.java:918-930 | fresh fragmentIds, input_ids and output_ids arrays whose entry i describes sorted vertex i; the rest of the graph unchanged |
| PlanGraphs.UpToAgree | src/frontend/org/voltdb/BatchPlanner.java:900 | adding a prefix of vertices depends only on that prefix |
| PlanGraphs.AddUpToAgree | src/frontend/org/voltdb/BatchPlanner.java:900 | the vertex set after a prefix depends only on that prefix |
| PlanGraphs.XrefUpToAgree | src/frontend/org/voltdb/BatchPlanner.java:194-197 | the xref after a prefix depends only on that prefix |
| PlanGraphs.AddAllSnoc | src/frontend/org/voltdb/BatchPlanner.java:900 | adding one vertex more at the end is one more addVertex |
| PlanGraphs.UpToAppend | src/frontend/org/voltdb/BatchPlanner.java:900 | adding a + b up to |a|+k is adding a, then the first k of b |
| PlanGraphs.AddUpToAppend | src/frontend/org/voltdb/BatchPlanner.java:900 | the same for the vertex set |
| PlanGraphs.XrefUpToAppend | src/frontend/org/voltdb/BatchPlanner.java:194-197 | the same for the xref |
| PlanGraphs.AddAllAppend | src/frontend/org/voltdb/BatchPlanner.java:900 | adding a + b is adding a, then b |
| PlanGraphs.PrefixLenMono | src/frontend/org/voltdb/BatchPlanner.java:877-904 | a longer prefix of statements holds at least as many fragments |
| PlanGraphs.OffsetMono | src/frontend/org/voltdb/BatchPlanner.java:877-904 | a statement's chain ends no later than any later statement's chain starts |
| PlanGraphs.PosOfPrefix | src/frontend/org/voltdb/BatchPlanner.java:877-904 | a statement's offset in sorted_vertices does not depend on later statements |
| PlanGraphs.LayoutAt | src/frontend/org/voltdb/BatchPlanner.java:877-904 | every laid-out vertex is round r of statement s, at s's offset plus r, built from that statement's r-th fragment |
| PlanGraphs.LayoutIndex | src/frontend/org/voltdb/BatchPlanner.java:877-904 | indexing the layout: earlier statements first, then the last statement's chain |
| PlanGraphs.LayoutAtStep | src/frontend/org/voltdb/BatchPlanner.java:877-904 | the positional description carries over from the earlier statements to one more |
| PlanGraphs.PlacedInPrefix | src/frontend/org/voltdb/BatchPlanner.java:877-904 | a position in the layout of a prefix is the same position in the whole layout |
| PlanGraphs.LayoutPos | src/frontend/org/voltdb/BatchPlanner.java:877-904 | conversely round r of statement s sits at s's offset plus r |
| PlanGraphs.LayoutOrder | src/frontend/org/voltdb/BatchPlanner.java:877-904 | (statement, round) strictly increases along sorted_vertices |
| PlanGraphs.LayoutChaining | src/frontend/org/voltdb/BatchPlanner.java:886-902 | output ids are consecutive from the counter; exactly round 0 has NULL_DEPENDENCY_ID as input; every later round consumes the previous round's output |
| PlanGraphs.AddUpToWithin | src/frontend/org/voltdb/BatchPlanner.java:198 | the vertex set holds only vertices that were added |
| PlanGraphs.CollectWithin | src/frontend/org/voltdb/BatchPlanner.java:198 | the graph's vertices are among the created ones |
| PlanGraphs.XrefUpToWithin | src/frontend/org/voltdb/BatchPlanner.java:194-197 | every added vertex's output id is a key, and each key lists only added vertices with that output id |
| PlanGraphs.CollectXrefWithin | src/frontend/org/voltdb/BatchPlanner.java:194-197 | the same for the whole list |
| PlanGraphs.AddUpToDistinct | src/frontend/org/voltdb/BatchPlanner.java:198 | in range and in increasing position order no vertex equals an earlier one, so every one is added |
| PlanGraphs.CollectDistinct | src/frontend/org/voltdb/BatchPlanner.java:198 | the vertex set is exactly the listed vertices |
| PlanGraphs.XrefUpToDistinct | src/frontend/org/voltdb/BatchPlanner.java:194-197 | with increasing output ids each key's bucket is its one producer and there are no other keys |
| PlanGraphs.CollectXrefDistinct | src/frontend/org/voltdb/BatchPlanner.java:194-197 | the same for the whole list |
| PlanGraphs.MaxLenIsLongest | src/frontend/org/voltdb/BatchPlanner.java:883 | max_rounds bounds every fragment list, is reached by one of them, and is 0 for an empty batch |
| PlanGraphs.LayoutInRange | src/frontend/org/voltdb/BatchPlanner.java:894-899 | under the catalog's bounds every created vertex keeps its fields apart in the packed hash code |
| PlanGraphs.LayoutSorted | src/frontend/org/voltdb/BatchPlanner.java:923 | the created vertices are strictly increasing and sorted under PLANVERTEX_COMPARATOR, so the sort returns them as they are |
| PlanGraphs.LayoutVertices | src/frontend/org/voltdb/BatchPlanner.java:900 | the graph's vertex set is exactly the created vertices: none is dropped as equal to another |
| PlanGraphs.LayoutXref | src/frontend/org/voltdb/BatchPlanner.java:171 | each output id's xref entry is its one producer, and no other key exists |
| PlanGraphs.LayoutEdges | src/frontend/org/voltdb/BatchPlanner.java:907-915 | the edges are exactly one per vertex past round 0, to the previous round of its statement, labelled with the id between them |
| PlanGraphs.EdgeOfLayout | src/frontend/org/voltdb/BatchPlanner.java:909-913 | each built edge leads from some vertex past round 0 to its predecessor |
| Placement.Estimates | src/frontend/org/voltdb/BatchPlanner.java:613-615 | the estimator's answer for each fragment, in order, or failure exactly when it fails on some fragment |
| Placement.UnionAllMembers | src/frontend/org/voltdb/BatchPlanner.java:613-616 | stmt_partitions gains exactly the partitions some fragment goes to |
| Placement.PutUpToValues | src/frontend/org/voltdb/BatchPlanner.java:613-615 | after the puts the keys are the old keys and the fragments; each distinct fragment maps to its own set; other keys keep their values |
| Placement.PutOwnedValues | src/frontend/org/voltdb/BatchPlanner.java:613-615 | the same for the whole fragment collection |
| Placement.FastPath | src/frontend/org/voltdb/BatchPlanner.java:588-595 | a replicated read-only statement never calls the estimator, is single-partition, local and not mispredicted, adds the base partition, and maps each fragment to the shared set |
| Placement.FastPathFromPreload | src/frontend/org/voltdb/BatchPlanner.java:588-595 | on a fresh plan with the table as preloaded, the statement's partitions and each fragment's partitions are exactly {base} |
| Placement.AtMostOneRetry | src/frontend/org/voltdb/BatchPlanner.java:607-637 | the estimation loop runs once or twice; twice exactly when the single-partition plan spans several partitions and no prediction was made; the retry is multi-partition with the cleared partition set |
| Placement.LocalIffBaseOnly | src/frontend/org/voltdb/BatchPlanner.java:617 | a statement is local exactly when its partition set is {base} |
| Placement.LocalIsSingleton | src/frontend/org/voltdb/BatchPlanner.java:617 | `size()==1 && contains(base)` is set equality with {base} |
| Placement.MispredictIff | src/frontend/org/voltdb/BatchPlanner.java:618-634 | mispredicted exactly when single-partition was predicted and the statement is not local; then the loop ran once and kept the catalog's choice |
| Placement.SingleIffNoFallback | src/frontend/org/voltdb/BatchPlanner.java:618-628 | the statement stays single-partition exactly when it has a single-partition plan and the loop did not retry |
| Placement.EstimatorFailureFails | src/frontend/org/voltdb/BatchPlanner.java:640-647 | an estimator exception on any fragment makes planning the statement raise |
| Placement.ListedFragmentsHaveEntries | src/frontend/org/voltdb/BatchPlanner.java:588-660 | on every path each fragment of the collection the final choice names gets a frag_partitions entry; with covered orderings so does each fragment of the sorted list frag_list takes |
| Placement.PlaceAll | src/frontend/org/voltdb/BatchPlanner.java:567-647 | k statements placed give k placements; a failure names a statement below k |
| Placement.PlaceAllOkIff | src/frontend/org/voltdb/BatchPlanner.java:567-647 | the batch plans exactly when every statement has arguments and places |
| Placement.PlaceAllValues | src/frontend/org/voltdb/BatchPlanner.java:567-647 | a planned batch holds each statement's own placement at its index |
| Placement.PlaceAllStep | src/frontend/org/voltdb/BatchPlanner.java:567-647 | one more statement: missing arguments, estimation failure, or one more placement |
| Placement.PlaceAllErrPersists | src/frontend/org/voltdb/BatchPlanner.java:640-647 | the first statement that raises decides the error of the whole batch |
| Placement.HistogramStep | src/frontend/org/voltdb/BatchPlanner.java:671-690 | the first mispredicted statement creates the histogram from every counted statement up to it; a later one adds its own partitions if counted |
| Placement.HistogramOfPrefix | src/frontend/org/voltdb/BatchPlanner.java:671-690 | the histogram only depends on the statements it has reached |
| Placement.FirstMispredict | src/frontend/org/voltdb/BatchPlanner.java:675-678 | the index of the first mispredicted statement, or none exactly when no statement mispredicted |
| Placement.HistogramClosedForm | src/frontend/org/voltdb/BatchPlanner.java:671-690 | no histogram exactly when nothing mispredicted; otherwise every counted statement up to the first misprediction plus every later counted mispredicted statement |
| Placement.SumUpToFirst | src/frontend/org/voltdb/BatchPlanner.java:677-689 | up to the first misprediction every counted statement contributes |
| Placement.ContributionsIncluded | src/frontend/org/voltdb/BatchPlanner.java:684-687 | each contributing statement's partitions are all counted in the histogram |
| BatchPlans.TaskFor | src/frontend/org/voltdb/BatchPlanner.java:791-848 | a task's five columns have one entry per fragment of its bucket |
| BatchPlans.CountsAddUp | src/frontend/org/voltdb/BatchPlanner.java:376-391 | local and remote counts add up to the number of tasks |
| BatchPlans.CountToIsCardinality | src/frontend/org/voltdb/BatchPlanner.java:376-383 | the local count is the number of tasks addressed to the partition |
| BatchPlans.SharedTargetsSnoc | src/frontend/org/voltdb/BatchPlanner.java:338-345 | the shared sets reached after one more statement are those reached before plus that statement's |
| BatchPlans.BucketAdd | src/frontend/org/voltdb/BatchPlanner.java:763-769 | one more vertex joins exactly the buckets of its round at its partitions |
| BatchPlans.SerializeUpToMeaning | src/frontend/org/voltdb/BatchPlanner.java:772-781 | serialization succeeds exactly when every statement has arguments that serialize, buffer i is statement i's; otherwise missing arguments or a failure at some statement |
| BatchPlans.SerializeErrPersists | src/frontend/org/voltdb/BatchPlanner.java:776-778 | the first failure decides the error of the loop |
| BatchPlans.EmittedRounds | src/frontend/org/voltdb/BatchPlanner.java:784 | the emission loop reaches rounds_length rounds, never more than the table's 10 rows |
| BatchPlans.Enumerate | src/frontend/org/voltdb/BatchPlanner.java:800 | iterating a bucket visits each of its vertices exactly once |
| BatchPlans.OccupiedInRowMembers | src/frontend/org/voltdb/BatchPlanner.java:787-789 | a cell of round r is listed exactly when its bucket is non-empty |
| BatchPlans.OccupiedMembers | src/frontend/org/voltdb/BatchPlanner.java:784-789 | a cell is listed exactly when it lies in the emitted rounds and its bucket is non-empty |
| BatchPlans.OccupiedInRowAscending | src/frontend/org/voltdb/BatchPlanner.java:787 | a round's cells come in increasing partition order |
| BatchPlans.OccupiedAscending | src/frontend/org/voltdb/BatchPlanner.java:784-787 | cells come in increasing (round, partition) order, so each bucket gives at most one task |
| BatchPlans.BatchPlan.constructor | src/frontend/org/voltdb/BatchPlanner.java:280-305 | empty per-statement state sized to the batch, an empty 10 x partitions bucket table, no tasks, all flags true |
| BatchPlans.BatchPlan.Init | src/frontend/org/voltdb/BatchPlanner.java:314-321 | records txn id, client handle, base partition, batch size and arguments; nothing else changes |
| BatchPlans.BatchPlan.Record | src/frontend/org/voltdb/BatchPlanner.java:574-660 | statement i's frag_partitions, stmt_partitions and frag_list entries take the given values; nothing else changes |
| BatchPlans.BatchPlan.AndFlags | src/frontend/org/voltdb/BatchPlanner.java:662-665 | readonly, all_local and all_singlepartitioned are ANDed with the statement's values; localFragsAreNonTransactional is unchanged |
| BatchPlans.BatchPlan.SetGraph | src/frontend/org/voltdb/BatchPlanner.java:738-745 | graph, rounds_length and mispredict take the given values; nothing else changes |
| BatchPlans.BatchPlan.MarkSingle | src/frontend/org/voltdb/BatchPlanner.java:668 | bit i of the bitmap is set, the others unchanged |
| BatchPlans.BatchPlan.Finish | src/frontend/org/voltdb/BatchPlanner.java:334-351 | as written: drops misprediction, arguments and tasks; empties frag_list, stmt_partitions, every value set and every bucket; empties each shared singleton set a fast-path fragment referred to; leaves graph, buffers and flags |
| BatchPlans.BatchPlan.FinishForReuse | src/frontend/org/voltdb/BatchPlanner.java:334-351 | corrected: the same resets, the singleton table untouched, and the flags back to true |
| BatchPlans.BatchPlan.Reset | src/frontend/org/voltdb/BatchPlanner.java:335-350 | finish's effect on the plan's own state and buckets |
| BatchPlans.BatchPlan.ClearInvocation | src/frontend/org/voltdb/BatchPlanner.java:335-337 | mispredict and batchArgs become null and ftasks empty |
| BatchPlans.BatchPlan.ClearStatements | src/frontend/org/voltdb/BatchPlanner.java:338-345 | every frag_list entry null, every statement partition set empty, every map's values cleared |
| BatchPlans.BatchPlan.ClearSharedSets | src/frontend/org/voltdb/BatchPlanner.java:338-345 | exactly the singleton entries some statement's map refers to become empty |
| BatchPlans.BatchPlan.ClearSharedIn | src/frontend/org/voltdb/BatchPlanner.java:342-344 | exactly the singleton entries one map refers to become empty |
| BatchPlans.BatchPlan.ClearRounds | src/frontend/org/voltdb/BatchPlanner.java:346-350 | every bucket becomes empty |
| BatchPlans.BatchPlan.FillBuckets | src/frontend/org/voltdb/BatchPlanner.java:763-769 | raises exactly when some vertex has no partition set, or goes to a partition outside the table, or has partitions and a round outside the table (a vertex sent nowhere is never range-checked); the error is that vertex's; on success each bucket (r, p) gains exactly the graph's round-r vertices whose fragment goes to p, and on a raise each bucket keeps what it had and gains part of that share |
| BatchPlans.BatchPlan.BucketVertex | src/frontend/org/voltdb/BatchPlanner.java:764-768 | a bucketable vertex joins exactly the buckets of its round at the partitions its fragment is sent to |
| BatchPlans.BatchPlan.SerializeParams | src/frontend/org/voltdb/BatchPlanner.java:772-781 | the result is SerializeUpTo of the arguments; on success param_buffers holds every statement's buffer |
| BatchPlans.BatchPlan.EmitTasks | src/frontend/org/voltdb/BatchPlanner.java:784-860 | ftasks holds one task per non-empty bucket of the emitted rounds, in round-then-partition order, each built from its bucket |
| BatchPlans.BatchPlan.EmitRow | src/frontend/org/voltdb/BatchPlanner.java:787-859 | one more round's tasks extend ftasks |
| BatchPlans.BatchPlan.EmitCells | src/frontend/org/voltdb/BatchPlanner.java:787-859 | the partition loop appends the tasks of the round's non-empty buckets in partition order |
| BatchPlans.BatchPlan.AppendTask | src/frontend/org/voltdb/BatchPlanner.java:788-850 | a non-empty bucket appends one task built from its vertices; earlier tasks unchanged |
| BatchPlans.BatchPlan.AddToBuckets | src/frontend/org/voltdb/BatchPlanner.java:766-768 | v joins exactly the buckets of its round at the given partitions; the round must be in range only when some partition is given |
| BatchPlans.BatchPlan.BuildFragmentTaskMessages | src/frontend/org/voltdb/BatchPlanner.java:758-863 | BuildSpec: no graph, an unbucketable vertex (whose error is returned, with buckets partly filled and no task), a serialization failure, too many rounds (after rounds 0-9 are emitted) or no task at all raise; otherwise buckets, buffers and tasks as specified |
| BatchPlans.BatchPlan.GetFragmentTaskMessages | src/frontend/org/voltdb/BatchPlanner.java:369-374 | existing tasks are returned unchanged; otherwise they are built as BuildSpec states |
| BatchPlans.BatchPlan.GetLocalFragmentCount | src/frontend/org/voltdb/BatchPlanner.java:376-383 | the number of tasks addressed to the partition, after building if needed |
| BatchPlans.BatchPlan.GetRemoteFragmentCount | src/frontend/org/voltdb/BatchPlanner.java:384-391 | the number of tasks addressed elsewhere, after building if needed |
| BatchPlanners.HashUpTo | src/frontend/org/voltdb/BatchPlanner.java:730 | Arrays.hashCode of a prefix is a Java int |
| BatchPlanners.BitmapHash | src/frontend/org/voltdb/BatchPlanner.java:730 | the cache key is a Java int |
| BatchPlanners.BitmapHashCollides | src/frontend/org/voltdb/BatchPlanner.java:730-736 | two different 17-statement bitmaps share the key 1348575092 |
| BatchPlanners.HashExactUpToFive | src/frontend/org/voltdb/BatchPlanner.java:730 | up to five statements Arrays.hashCode never wraps: it is the exact base-31 sum, below 2^31 |
| BatchPlanners.ExactHashInjective | src/frontend/org/voltdb/BatchPlanner.java:730 | equal exact sums of equally long bitmaps come from equal bitmaps |
| BatchPlanners.ShortBitmapsHaveDistinctKeys | src/frontend/org/voltdb/BatchPlanner.java:730-736 | for batches of at most five statements two bitmaps share a cache key exactly when they are equal |
| BatchPlanners.CacheExtend | src/frontend/org/voltdb/BatchPlanner.java:733-736 | filing a graph built for its key's bitmap keeps every cached graph correct |
| BatchPlanners.PutSharedSnoc | src/frontend/org/voltdb/BatchPlanner.java:592-594 | one more fast-path put maps one more fragment to the shared set |
| BatchPlanners.PlaceAtFirst | src/frontend/org/voltdb/BatchPlanner.java:607-636 | the placement when the first estimate settles the statement |
| BatchPlanners.PlaceAfterRetry | src/frontend/org/voltdb/BatchPlanner.java:607-636 | the placement after the fallback to the multi-partition fragments |
| BatchPlanners.FastPathAfterFinish | src/frontend/org/voltdb/BatchPlanner.java:342-344 | after finish empties the shared set, a fast-path statement records {base} but its vertices land in no bucket |
| BatchPlanners.FastPathAfterReuse | src/frontend/org/voltdb/BatchPlanner.java:588-595 | with the preloaded table kept, the statement's fragments resolve to its recorded {base} and land in the base partition's bucket |
| BatchPlanners.FlagsCarriedOver | src/frontend/org/voltdb/BatchPlanner.java:662-665 | a flag that was false before a batch is false after it, whatever the batch's statements |
| BatchPlanners.FlagsAfterReuse | src/frontend/org/voltdb/BatchPlanner.java:662-665 | from all-true flags, each flag is true exactly when all statements of the batch are read-only, local, single-partition respectively |
| BatchPlanners.MispredictionOf | src/frontend/org/voltdb/BatchPlanner.java:743-745 | a histogram becomes a new misprediction for the transaction; without one the plan keeps what it held |
| BatchPlanners.RecordedStep | src/frontend/org/voltdb/BatchPlanner.java:649-668 | recording statement i extends what is recorded by one statement |
| BatchPlanners.FlagsStep | src/frontend/org/voltdb/BatchPlanner.java:662-665 | folding statement i extends the flag conjunctions by one statement |
| BatchPlanners.RecordedLists | src/frontend/org/voltdb/BatchPlanner.java:650-660 | once all statements are recorded, frag_list is the orderings the bitmap selects |
| BatchPlanners.RecordedListsHaveEntries | src/frontend/org/voltdb/BatchPlanner.java:880-891 | after a planned batch with covered orderings, every statement has a frag_list and each of its fragments a frag_partitions entry, so the lookup at line 889 is never null |
| BatchPlanners.BatchPlanner.constructor | src/frontend/org/voltdb/BatchPlanner.java:473-501 | the batch's statements, an empty graph cache and empty memos |
| BatchPlanners.BatchPlanner.PlaceStatement | src/frontend/org/voltdb/BatchPlanner.java:586-647 | one statement's placement is Place: the fast path or the estimation loop |
| BatchPlanners.BatchPlanner.PutSharedAll | src/frontend/org/voltdb/BatchPlanner.java:592-594 | the fast path's loop maps every fragment to the base partition's shared singleton set and keeps every other key's value (PutShared) |
| BatchPlanners.BatchPlanner.EstimationLoop | src/frontend/org/voltdb/BatchPlanner.java:607-637 | the while loop with its one fallback yields Place's placement or failure |
| BatchPlanners.BatchPlanner.SortedFragments | src/frontend/org/voltdb/BatchPlanner.java:650-660 | the statement's ordering for the final choice, memoised in the matching array only |
| BatchPlanners.BatchPlanner.AddMispredicted | src/frontend/org/voltdb/BatchPlanner.java:671-690 | the histogram after a mispredicted statement i is HistogramUpTo(i + 1) |
| BatchPlanners.BatchPlanner.GraphFor | src/frontend/org/voltdb/BatchPlanner.java:729-737 | the graph cached under the bitmap's key; on a miss a fresh graph is built, cached and the counter advanced |
| BatchPlanners.BatchPlanner.CacheGraph | src/frontend/org/voltdb/BatchPlanner.java:735 | plan_graphs.put: one entry more, cache invariant kept |
| BatchPlanners.BatchPlanner.Plan | src/frontend/org/voltdb/BatchPlanner.java:540-750 | init; then either the first statement's error with the cache untouched, or every statement's placement recorded, every frag_list fragment given a frag_partitions entry (so buildPlanGraph's lookup succeeds), the flags folded, the misprediction set from the histogram and the cached graph for the bitmap attached with its round count |
| BatchPlanners.BatchPlanner.AttachGraph | src/frontend/org/voltdb/BatchPlanner.java:727-745 | plan.graph is the cached graph for the bitmap's key and rounds_length its max_rounds; the misprediction is set from the histogram |
| BatchPlanners.BatchPlanner.PlaceBatch | src/frontend/org/voltdb/BatchPlanner.java:567-725 | the statement loop fails exactly when PlaceAll fails, with its error; otherwise every placement is recorded, every frag_list fragment has a frag_partitions entry, flags are folded and the histogram collected |
| BatchPlanners.BatchPlanner.PlanStatement | src/frontend/org/voltdb/BatchPlanner.java:567-691 | one iteration: a statement that raises decides the batch's error; otherwise the loop state advances by one statement |
| BatchPlanners.BatchPlanner.CommitPlacement | src/frontend/org/voltdb/BatchPlanner.java:649-691 | a placed statement's ordering, record, flags and histogram update advance the loop state by one statement |
| BatchPlanners.BatchPlanner.RecordPlacement | src/frontend/org/voltdb/BatchPlanner.java:649-668 | the plan's maps, ordering, bit and flags advance by one statement |

## Left out

- Logging, debug and trace dumps (lines 541-561, 693-724, 748 and the LOG calls elsewhere) and `toString`: they do not affect the plan.
- The object pool (`plan_pool`, `BatchPlanFactory`, `borrowObject`): `Plan` takes the pooled plan as a parameter.
- Concurrency: the `synchronized` block, `AtomicInteger` and the `INITIALIZED` flag are modelled as sequential steps. `preload` is modelled as the `Preload` constructor called once.
- The partition estimator and `ParameterSet.writeExternal` are oracle functions. A thrown exception becomes a `None` answer.
- `PlanNodeUtil.getSortedPlanFragments` is a field of the catalog statement.
- The serialized buffer encoding is opaque bytes.
- The fragment task type tag (line 849) and the `final` flag of each task are left out.
- `f_local` (line 891) is computed and then ignored by the `PlanVertex` constructor, so its value is left out. The `frag_partitions` lookup that feeds it is covered by the next line.
- PlanGraphs.BuildPlanGraph: takes the fragment lists only and cannot fail. In the source, lines 889-891 raise when a frag_list fragment has no frag_partitions entry. `Plan` requires the catalog's covered orderings (`OrderingsCovered`: each sorted ordering lists fragments of its own collection), and under that it proves such an entry always exists (`RecordedListsHaveEntries`). So the raise cannot happen from `plan()`, and the model does not carry it.
- `getFragmentCount`, `getFragmentIds`, `getInputDependencyIds`, `getOutputDependencyIds`, `getParameterSets` and `getStatementPartitions` are plain field reads of the modelled state.
- `isReadOnly` and the other flag queries are predicates without contracts.
- `ExecutionSite.NULL_DEPENDENCY_ID` is not part of this model. It is taken as -1, and the model only relies on it differing from every allocated id.
- `RemoteTransactionState` and the `GetItem` procedure are callers, not part of this model.
- DependencyIds.DependencyIdAllocator.GetAndIncrement: ids are unbounded. The `AtomicInteger` would wrap after about 2^31 ids.
- BatchPlanners.BatchPlanner.CacheGraph: the cache invariant covers each cached graph's vertices, edges, xref and round count. It does not cover the graph's projection arrays.
- BatchPlans.BatchPlan.Finish: `param_serializers[i].clear()` (line 341) is not modelled, because the serializers are part of the oracle.
- PlanVertices.SortOfStrictlySortedIsIdentity: `Collections.sort` itself is not modelled step by step. The model proves that any comparator-sorted permutation of the built list equals the list, and keeps the list as built.
- HashSet iteration order (graph vertices, bucket contents) is an arbitrary choice in the model. Tasks are specified for any enumeration of each bucket.
- BatchPlans.BatchPlan.FillBuckets: when the loop raises, the contract bounds each bucket between its old contents and its full share, but does not say which vertices went in first; that depends on the order in which the graph and the partition sets are walked. The body stops before adding the offending vertex.

## Findings

| source | as written | input that shows it | evidently intended | confidence | as-written member | corrected member |
|---|---|---|---|---|---|---|
| src/frontend/org/voltdb/BatchPlanner.java:342-344 | `finish` clears every value set of `frag_partitions`. For a replicated read-only statement those sets are the shared `SINGLE_PARTITION_SETS[base]` objects stored at line 593, so the table entry itself is emptied | plan a batch whose statement 0 is replicated and read-only, at base partition 0; call `finish`; plan it again. Statement 0 records partitions {0}, but its fragments resolve to the empty set, and no bucket or task holds its vertices | leave the shared singleton sets intact (clear only the plan's own sets) | medium, not executed | BatchPlans.BatchPlan.Finish, BatchPlanners.FastPathAfterFinish | BatchPlans.BatchPlan.FinishForReuse, BatchPlanners.FastPathAfterReuse |
| src/frontend/org/voltdb/BatchPlanner.java:264-273 | `readonly`, `all_local` and `all_singlepartitioned` start true in the constructor and are only ever ANDed (lines 662-665). Neither `init` nor `finish` resets them | a pooled plan whose first batch had a statement on a remote partition; after `finish`, a second batch whose statements are all local still reports `isLocal()` false | reset the flags to true for each batch | low, not executed | BatchPlans.BatchPlan.Finish, BatchPlanners.FlagsCarriedOver | BatchPlans.BatchPlan.FinishForReuse, BatchPlanners.FlagsAfterReuse |
