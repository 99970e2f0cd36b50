/**
 * The per-statement placement decision of BatchPlanner.plan: the
 * replicated read-only fast path, the estimation loop that may fall back
 * once from the single- to the multi-partition plan, the locality and
 * misprediction tests, and the misprediction histogram over a batch.
 */
module Placement {
  import opened Catalog
  import opened PartitionSets

  /** The estimator's answers for a list of fragments, or None if it fails on any of them. */
  function Estimates(est: Estimator, frags: seq<Fragment>, params: ParamSet, base: int): (r: Option<seq<set<int>>>)
    ensures r.Some? <==> forall k :: 0 <= k < |frags| ==> est(frags[k], params, base).Some?
    ensures r.Some? ==> |r.value| == |frags|
    ensures r.Some? ==> forall k :: 0 <= k < |frags| ==> r.value[k] == est(frags[k], params, base).value
  {
    if frags == [] then Some([])
    else
      var n := |frags| - 1;
      match Estimates(est, frags[..n], params, base)
      case None => None
      case Some(prefix) =>
        match est(frags[n], params, base)
        case None => None
        case Some(parts) => Some(prefix + [parts])
  }

  /** Every partition any of the sets names. */
  function UnionAll(sets: seq<set<int>>): (u: set<int>)
  {
    if sets == [] then {}
    else
      var n := |sets| - 1;
      UnionAll(sets[..n]) + sets[n]
  }

  /** A partition is in the union exactly when one of the sets names it. */
  lemma {:induction false} UnionAllMembers(sets: seq<set<int>>)
    ensures forall p :: p in UnionAll(sets) <==> exists k :: 0 <= k < |sets| && p in sets[k]
  {
    if sets != [] {
      var n := |sets| - 1;
      UnionAllMembers(sets[..n]);
      assert forall k :: 0 <= k < n ==> sets[..n][k] == sets[k];
    }
  }

  /** frag_partitions.put(frag, set) for each fragment in order. */
  function PutOwned(m: map<Fragment, PartitionSetRef>, frags: seq<Fragment>, sets: seq<set<int>>): (r: map<Fragment, PartitionSetRef>)
    requires |frags| == |sets|
  {
    PutUpTo(m, frags, sets, |frags|)
  }

  /** The puts of the first n fragments. */
  function PutUpTo(m: map<Fragment, PartitionSetRef>, frags: seq<Fragment>, sets: seq<set<int>>, n: nat): map<Fragment, PartitionSetRef>
    requires n <= |frags| == |sets|
  {
    if n == 0 then m else PutUpTo(m, frags, sets, n - 1)[frags[n - 1] := Owned(sets[n - 1])]
  }

  /**
   * The keys afterwards are the old keys and the fragments; for a catalog
   * collection (no fragment twice) each fragment ends up with its own
   * answer, and every other key keeps its old value.
   */
  lemma {:induction false} PutUpToValues(m: map<Fragment, PartitionSetRef>, frags: seq<Fragment>, sets: seq<set<int>>, n: nat)
    requires n <= |frags| == |sets|
    ensures forall f :: f in PutUpTo(m, frags, sets, n) <==> f in m || exists k :: 0 <= k < n && frags[k] == f
    ensures Distinct(frags) ==> forall k :: 0 <= k < n ==> PutUpTo(m, frags, sets, n)[frags[k]] == Owned(sets[k])
    ensures forall f :: f in m && (forall k :: 0 <= k < n ==> frags[k] != f) ==> PutUpTo(m, frags, sets, n)[f] == m[f]
  {
    if n > 0 {
      PutUpToValues(m, frags, sets, n - 1);
    }
  }

  lemma PutOwnedValues(m: map<Fragment, PartitionSetRef>, frags: seq<Fragment>, sets: seq<set<int>>)
    requires |frags| == |sets|
    ensures forall f :: f in PutOwned(m, frags, sets) <==> f in m || f in frags
    ensures Distinct(frags) ==> forall k :: 0 <= k < |frags| ==> PutOwned(m, frags, sets)[frags[k]] == Owned(sets[k])
    ensures forall f :: f in m && f !in frags ==> PutOwned(m, frags, sets)[f] == m[f]
  {
    PutUpToValues(m, frags, sets, |frags|);
  }

  /** The fast path's puts: every fragment refers to the shared singleton set of the base partition. */
  function PutShared(m: map<Fragment, PartitionSetRef>, frags: seq<Fragment>, base: int): (r: map<Fragment, PartitionSetRef>)
    ensures forall f :: f in r <==> f in m || f in frags
    ensures forall f :: f in r ==> r[f] == if f in frags then Shared(base) else m[f]
  {
    map f | f in m.Keys + (set k | 0 <= k < |frags| :: frags[k]) :: if f in frags then Shared(base) else m[f]
  }

  /**
   * One statement's placement. `single` is the final is_singlepartition,
   * `local` the final is_local, `mispredict` whether the statement broke
   * the single-partition prediction; `fragParts` and `stmtParts` are the
   * statement's frag_partitions and stmt_partitions afterwards; `calls`
   * counts the estimator invocations.
   */
  datatype Placement = Placement(
    single: bool,
    local: bool,
    mispredict: bool,
    fragParts: map<Fragment, PartitionSetRef>,
    stmtParts: set<int>,
    calls: nat)

  /** is_local: exactly one partition, and it is the base partition. */
  predicate IsLocal(parts: set<int>, base: int)
  {
    |parts| == 1 && base in parts
  }

  /**
   * The placement plan() computes for one statement, given the statement's
   * maps as they were before (a pooled plan keeps them across batches), or
   * None when planning the statement raises: the estimator fails, or the
   * fast path indexes the singleton table out of range (which it only does
   * when the statement has a fragment).
   */
  function Place(st: Statement, params: ParamSet, base: int, numPartitions: int, predict: bool, est: Estimator,
                 frags0: map<Fragment, PartitionSetRef>, parts0: set<int>): Option<Placement>
  {
    if IsReplicatedReadOnly(st) then
      if st.fragments == [] || 0 <= base < numPartitions then
        Some(Placement(st.hasSinglesited, true, false, PutShared(frags0, st.fragments, base), parts0 + {base}, 0))
      else None
    else
      var single := st.hasSinglesited;
      var frs := FragmentsFor(st, single);
      match Estimates(est, frs, params, base)
      case None => None
      case Some(sets) =>
        var frags1 := PutOwned(frags0, frs, sets);
        var parts1 := parts0 + UnionAll(sets);
        var local1 := IsLocal(parts1, base);
        if single && |parts1| > 1 then
          if predict then Some(Placement(true, local1, true, frags1, parts1, 1))
          else
            // the retry: stmt_partitions is cleared, frag_partitions is not
            match Estimates(est, st.msFragments, params, base)
            case None => None
            case Some(sets2) =>
              var parts2 := UnionAll(sets2);
              Some(Placement(false, IsLocal(parts2, base), false, PutOwned(frags1, st.msFragments, sets2), parts2, 2))
        else if !local1 && predict then Some(Placement(single, false, true, frags1, parts1, 1))
        else Some(Placement(single, local1, false, frags1, parts1, 1))
  }

  // ---------------------------------------------------------------------
  // Properties of one statement's placement
  // ---------------------------------------------------------------------

  /**
   * A replicated read-only statement never reaches the estimator: in range
   * it is single-partition and local, every one of its fragments refers to
   * the base partition's shared singleton set, and the base partition joins
   * its partition set.
   */
  lemma FastPath(st: Statement, params: ParamSet, base: int, numPartitions: int, predict: bool, est: Estimator,
                 frags0: map<Fragment, PartitionSetRef>, parts0: set<int>)
    requires st.hasSinglesited && IsReplicatedReadOnly(st) && 0 <= base < numPartitions
    ensures var r := Place(st, params, base, numPartitions, predict, est, frags0, parts0);
      && r.Some? && r.value.calls == 0
      && r.value.single && r.value.local && !r.value.mispredict
      && r.value.stmtParts == parts0 + {base}
      && (forall k :: 0 <= k < |st.fragments| ==> r.value.fragParts[st.fragments[k]] == Shared(base))
  {
  }

  /**
   * The fast path's placement as a fresh plan sees it: with nothing carried
   * over and the table as preload left it, the statement's partition set
   * and every fragment's set are exactly {base}.
   */
  lemma FastPathFromPreload(st: Statement, params: ParamSet, base: int, table: seq<set<int>>, predict: bool, est: Estimator)
    requires st.hasSinglesited && IsReplicatedReadOnly(st) && 0 <= base < |table|
    requires forall i :: 0 <= i < |table| ==> table[i] == {i}
    ensures var r := Place(st, params, base, |table|, predict, est, map[], {});
      && r.Some? && r.value.stmtParts == {base}
      && (forall k :: 0 <= k < |st.fragments| ==>
            RefInRange(r.value.fragParts[st.fragments[k]], |table|) &&
            Resolve(r.value.fragParts[st.fragments[k]], table) == {base})
  {
    FastPath(st, params, base, |table|, predict, est, map[], {});
  }

  /**
   * The estimation loop runs at most twice, and twice exactly when the
   * single-partition plan spread over more than one partition and no
   * single-partition execution was predicted; the second round uses the
   * multi-partition fragments and leaves the statement multi-partition.
   */
  lemma AtMostOneRetry(st: Statement, params: ParamSet, base: int, numPartitions: int, predict: bool, est: Estimator,
                       frags0: map<Fragment, PartitionSetRef>, parts0: set<int>)
    requires !IsReplicatedReadOnly(st)
    ensures var r := Place(st, params, base, numPartitions, predict, est, frags0, parts0);
      r.Some? ==> 1 <= r.value.calls <= 2
    ensures var r := Place(st, params, base, numPartitions, predict, est, frags0, parts0);
      r.Some? ==>
        (r.value.calls == 2 <==>
          && st.hasSinglesited && !predict
          && |parts0 + UnionAll(Estimates(est, st.fragments, params, base).value)| > 1)
    ensures var r := Place(st, params, base, numPartitions, predict, est, frags0, parts0);
      r.Some? && r.value.calls == 2 ==>
        !r.value.single && r.value.stmtParts == UnionAll(Estimates(est, st.msFragments, params, base).value)
  {
  }

  /** A statement is local exactly when its final partition set is {base}, on either path. */
  lemma LocalIffBaseOnly(st: Statement, params: ParamSet, base: int, numPartitions: int, predict: bool, est: Estimator,
                         frags0: map<Fragment, PartitionSetRef>, parts0: set<int>)
    requires !IsReplicatedReadOnly(st) || parts0 <= {base}
    ensures var r := Place(st, params, base, numPartitions, predict, est, frags0, parts0);
      r.Some? ==> (r.value.local <==> r.value.stmtParts == {base})
  {
    var r := Place(st, params, base, numPartitions, predict, est, frags0, parts0);
    if r.Some? {
      LocalIsSingleton(r.value.stmtParts, base);
    }
  }

  lemma LocalIsSingleton(parts: set<int>, base: int)
    ensures IsLocal(parts, base) <==> parts == {base}
  {
    if IsLocal(parts, base) {
      var rest := parts - {base};
      assert |rest| == 0;
      assert parts == rest + {base};
    }
  }

  /**
   * A statement is mispredicted exactly when single-partition execution was
   * predicted and the statement is not local: either its single-partition
   * plan spread over several partitions, or it went to one other partition.
   */
  lemma MispredictIff(st: Statement, params: ParamSet, base: int, numPartitions: int, predict: bool, est: Estimator,
                      frags0: map<Fragment, PartitionSetRef>, parts0: set<int>)
    ensures var r := Place(st, params, base, numPartitions, predict, est, frags0, parts0);
      r.Some? ==> (r.value.mispredict <==> predict && !r.value.local)
    ensures var r := Place(st, params, base, numPartitions, predict, est, frags0, parts0);
      r.Some? && r.value.mispredict ==> r.value.calls == 1 && r.value.single == st.hasSinglesited
  {
  }

  /** The placement is still single-partition only if it started so and never fell back. */
  lemma SingleIffNoFallback(st: Statement, params: ParamSet, base: int, numPartitions: int, predict: bool, est: Estimator,
                            frags0: map<Fragment, PartitionSetRef>, parts0: set<int>)
    ensures var r := Place(st, params, base, numPartitions, predict, est, frags0, parts0);
      r.Some? ==> (r.value.single <==> st.hasSinglesited && r.value.calls <= 1)
  {
  }

  /**
   * The estimator's failure on any fragment of the collection it is given
   * first makes planning the statement fail.
   */
  lemma EstimatorFailureFails(st: Statement, params: ParamSet, base: int, numPartitions: int, predict: bool, est: Estimator,
                              frags0: map<Fragment, PartitionSetRef>, parts0: set<int>, k: int)
    requires !IsReplicatedReadOnly(st)
    requires 0 <= k < |FragmentsFor(st, st.hasSinglesited)|
    requires est(FragmentsFor(st, st.hasSinglesited)[k], params, base).None?
    ensures Place(st, params, base, numPartitions, predict, est, frags0, parts0).None?
  {
  }

  /**
   * Whatever path the statement took, every fragment of the collection its
   * final choice names has a frag_partitions entry, and so, with covered
   * orderings, has every fragment of the ordering buildPlanGraph walks
   * (the lookup at planner lines 889-891 finds an entry).
   */
  lemma ListedFragmentsHaveEntries(st: Statement, params: ParamSet, base: int, numPartitions: int, predict: bool,
                                   est: Estimator, frags0: map<Fragment, PartitionSetRef>, parts0: set<int>)
    requires OrderingsCovered(st)
    ensures var r := Place(st, params, base, numPartitions, predict, est, frags0, parts0);
      r.Some? ==> forall f :: f in FragmentsFor(st, r.value.single) ==> f in r.value.fragParts
    ensures var r := Place(st, params, base, numPartitions, predict, est, frags0, parts0);
      r.Some? ==> forall k :: 0 <= k < |SortedFor(st, r.value.single)| ==> SortedFor(st, r.value.single)[k] in r.value.fragParts
  {
    var r := Place(st, params, base, numPartitions, predict, est, frags0, parts0);
    if r.Some? && !IsReplicatedReadOnly(st) {
      var frs := FragmentsFor(st, st.hasSinglesited);
      var sets := Estimates(est, frs, params, base).value;
      var frags1 := PutOwned(frags0, frs, sets);
      PutOwnedValues(frags0, frs, sets);
      if r.value.calls == 2 {
        var sets2 := Estimates(est, st.msFragments, params, base).value;
        PutOwnedValues(frags1, st.msFragments, sets2);
      }
    }
  }

  // ---------------------------------------------------------------------
  // The statement loop of plan() over a batch
  // ---------------------------------------------------------------------

  /** What planning a batch raises. */
  datatype PlanError =
    | ArgumentsMissing(stmt: nat)   // batchArgs has no entry for the statement
    | EstimationFailed(stmt: nat)   // planning the statement raised (see Place)

  /**
   * The placements of statements 0..k-1, each from the plan's maps for that
   * statement as they were before, or the error of the first statement
   * that raises.
   */
  function PlaceAll(stmts: seq<Statement>, args: seq<ParamSet>, base: int, numPartitions: int, predict: bool, est: Estimator,
                    fps0: seq<map<Fragment, PartitionSetRef>>, sps0: seq<set<int>>, k: nat): (r: Result<seq<Placement>, PlanError>)
    requires k <= |stmts| && k <= |fps0| && k <= |sps0|
    ensures r.Ok? ==> |r.value| == k
    ensures r.Err? ==> r.error.stmt < k
  {
    if k == 0 then Ok([])
    else match PlaceAll(stmts, args, base, numPartitions, predict, est, fps0, sps0, k - 1)
      case Err(e) => Err(e)
      case Ok(ps) =>
        if k - 1 >= |args| then
          assert stmts[k - 1] == stmts[k - 1] && fps0[k - 1] == fps0[k - 1] && sps0[k - 1] == sps0[k - 1];
          Err(ArgumentsMissing(k - 1))
        else match Place(stmts[k - 1], args[k - 1], base, numPartitions, predict, est, fps0[k - 1], sps0[k - 1])
          case None => Err(EstimationFailed(k - 1))
          case Some(p) => Ok(ps + [p])
  }

  /** Statement i has its arguments and places. */
  predicate Plannable(stmts: seq<Statement>, args: seq<ParamSet>, base: int, numPartitions: int, predict: bool, est: Estimator,
                      fps0: seq<map<Fragment, PartitionSetRef>>, sps0: seq<set<int>>, i: nat)
    requires i < |stmts| && i < |fps0| && i < |sps0|
  {
    i < |args| && Place(stmts[i], args[i], base, numPartitions, predict, est, fps0[i], sps0[i]).Some?
  }

  /** The batch is planned exactly when every statement has its arguments and places. */
  lemma {:induction false} PlaceAllOkIff(stmts: seq<Statement>, args: seq<ParamSet>, base: int, numPartitions: int,
                                         predict: bool, est: Estimator,
                                         fps0: seq<map<Fragment, PartitionSetRef>>, sps0: seq<set<int>>, k: nat)
    requires k <= |stmts| && k <= |fps0| && k <= |sps0|
    ensures PlaceAll(stmts, args, base, numPartitions, predict, est, fps0, sps0, k).Ok? <==>
      forall i :: 0 <= i < k ==> Plannable(stmts, args, base, numPartitions, predict, est, fps0, sps0, i)
  {
    if k > 0 {
      PlaceAllOkIff(stmts, args, base, numPartitions, predict, est, fps0, sps0, k - 1);
      var j := k - 1;
      var prev := PlaceAll(stmts, args, base, numPartitions, predict, est, fps0, sps0, j);
      if prev.Ok? {
        assert PlaceAll(stmts, args, base, numPartitions, predict, est, fps0, sps0, k).Ok?
          <==> Plannable(stmts, args, base, numPartitions, predict, est, fps0, sps0, j);
      } else {
        assert PlaceAll(stmts, args, base, numPartitions, predict, est, fps0, sps0, k).Err?;
      }
    }
  }

  /** A planned batch holds, at each index i, statement i's own placement. */
  lemma {:induction false} PlaceAllValues(stmts: seq<Statement>, args: seq<ParamSet>, base: int, numPartitions: int,
                                          predict: bool, est: Estimator,
                                          fps0: seq<map<Fragment, PartitionSetRef>>, sps0: seq<set<int>>, k: nat)
    requires k <= |stmts| && k <= |fps0| && k <= |sps0|
    requires PlaceAll(stmts, args, base, numPartitions, predict, est, fps0, sps0, k).Ok?
    ensures var ps := PlaceAll(stmts, args, base, numPartitions, predict, est, fps0, sps0, k).value;
      forall i {:trigger Place(stmts[i], args[i], base, numPartitions, predict, est, fps0[i], sps0[i])} :: 0 <= i < k ==>
        i < |args| && Place(stmts[i], args[i], base, numPartitions, predict, est, fps0[i], sps0[i]) == Some(ps[i])
  {
    if k > 0 {
      var j := k - 1;
      var prev := PlaceAll(stmts, args, base, numPartitions, predict, est, fps0, sps0, j);
      assert prev.Ok? && j < |args|;
      var p := Place(stmts[j], args[j], base, numPartitions, predict, est, fps0[j], sps0[j]);
      assert p.Some?;
      var ps := prev.value + [p.value];
      assert PlaceAll(stmts, args, base, numPartitions, predict, est, fps0, sps0, k) == Ok(ps);
      PlaceAllValues(stmts, args, base, numPartitions, predict, est, fps0, sps0, j);
      forall i | 0 <= i < k
        ensures i < |args| && Place(stmts[i], args[i], base, numPartitions, predict, est, fps0[i], sps0[i]) == Some(ps[i])
      {
        if i < j {
          assert ps[i] == prev.value[i];
        }
      }
    }
  }

  /** Planning one more statement after k placed ones: its arguments, then its placement. */
  lemma PlaceAllStep(stmts: seq<Statement>, args: seq<ParamSet>, base: int, numPartitions: int,
                     predict: bool, est: Estimator,
                     fps0: seq<map<Fragment, PartitionSetRef>>, sps0: seq<set<int>>, k: nat, ps: seq<Placement>)
    requires k < |stmts| && k < |fps0| && k < |sps0|
    requires PlaceAll(stmts, args, base, numPartitions, predict, est, fps0, sps0, k) == Ok(ps)
    ensures k >= |args| ==> PlaceAll(stmts, args, base, numPartitions, predict, est, fps0, sps0, k + 1) == Err(ArgumentsMissing(k))
    ensures k < |args| ==>
      PlaceAll(stmts, args, base, numPartitions, predict, est, fps0, sps0, k + 1)
        == match Place(stmts[k], args[k], base, numPartitions, predict, est, fps0[k], sps0[k])
           case None => Err(EstimationFailed(k))
           case Some(p) => Ok(ps + [p])
  {
  }

  /** Once a statement raises, planning the rest of the batch raises the same error. */
  lemma {:induction false} PlaceAllErrPersists(stmts: seq<Statement>, args: seq<ParamSet>, base: int, numPartitions: int,
                                               predict: bool, est: Estimator,
                                               fps0: seq<map<Fragment, PartitionSetRef>>, sps0: seq<set<int>>, i: nat, n: nat)
    requires i <= n <= |stmts| && n <= |fps0| && n <= |sps0|
    requires PlaceAll(stmts, args, base, numPartitions, predict, est, fps0, sps0, i).Err?
    ensures PlaceAll(stmts, args, base, numPartitions, predict, est, fps0, sps0, n)
      == PlaceAll(stmts, args, base, numPartitions, predict, est, fps0, sps0, i)
    decreases n - i
  {
    if i < n {
      PlaceAllErrPersists(stmts, args, base, numPartitions, predict, est, fps0, sps0, i, n - 1);
    }
  }

  // ---------------------------------------------------------------------
  // The misprediction histogram over a batch
  // ---------------------------------------------------------------------

  /**
   * A statement's partitions are counted in the histogram unless it is
   * replicated-only and read-only (reading a replicated table locally).
   */
  predicate Counted(st: Statement)
  {
    !st.replicatedOnly || !st.readOnly
  }

  /** Histogram.putAll of a set: one more count for each of its partitions. */
  function Counts(parts: set<int>): multiset<int>
  {
    multiset(parts)
  }

  /**
   * The histogram after statements 0..n-1, as the planning loop updates
   * it: created at the first mispredicted statement with the counted
   * statements up to it, then each mispredicted statement adds its own.
   */
  function HistogramUpTo(stmts: seq<Statement>, ps: seq<Placement>, n: nat): Option<multiset<int>>
    requires n <= |stmts| && n <= |ps|
  {
    if n == 0 then None
    else
      var h := HistogramUpTo(stmts, ps, n - 1);
      var j := n - 1;
      if !ps[j].mispredict then h
      else match h
        case None => Some(CountedRange(stmts, ps, 0, n))
        case Some(m) => Some(m + (if Counted(stmts[j]) then Counts(ps[j].stmtParts) else multiset{}))
  }

  /** The counted statements among s..n-1, their partitions summed. */
  function CountedRange(stmts: seq<Statement>, ps: seq<Placement>, s: nat, n: nat): multiset<int>
    requires s <= n <= |stmts| && n <= |ps|
    decreases n
  {
    if n == s then multiset{}
    else CountedRange(stmts, ps, s, n - 1) + (if Counted(stmts[n - 1]) then Counts(ps[n - 1].stmtParts) else multiset{})
  }

  /**
   * The histogram after a mispredicted statement i: the counted statements
   * 0..i when none before mispredicted, otherwise the histogram so far plus
   * statement i's partitions if it is counted.
   */
  lemma HistogramStep(stmts: seq<Statement>, ps: seq<Placement>, i: nat)
    requires i < |stmts| && i < |ps| && ps[i].mispredict
    ensures HistogramUpTo(stmts, ps, i).None? ==>
      HistogramUpTo(stmts, ps, i + 1) == Some(multiset{} + CountedRange(stmts, ps, 0, i + 1))
    ensures HistogramUpTo(stmts, ps, i).Some? ==>
      HistogramUpTo(stmts, ps, i + 1) == Some(HistogramUpTo(stmts, ps, i).value + CountedRange(stmts, ps, i, i + 1))
  {
    var own := if Counted(stmts[i]) then Counts(ps[i].stmtParts) else multiset{};
    assert CountedRange(stmts, ps, i, i + 1) == CountedRange(stmts, ps, i, i) + own;
    assert CountedRange(stmts, ps, i, i + 1) == own;
    assert multiset{} + CountedRange(stmts, ps, 0, i + 1) == CountedRange(stmts, ps, 0, i + 1);
    match HistogramUpTo(stmts, ps, i)
    case None =>
      assert HistogramUpTo(stmts, ps, i + 1) == Some(CountedRange(stmts, ps, 0, i + 1));
    case Some(m) =>
      assert HistogramUpTo(stmts, ps, i + 1) == Some(m + own);
  }

  /** The histogram only looks at the placements it has reached: a longer list gives the same prefix histogram. */
  lemma {:induction false} HistogramOfPrefix(stmts: seq<Statement>, ps: seq<Placement>, qs: seq<Placement>, n: nat)
    requires n <= |stmts| && n <= |ps| <= |qs| && ps == qs[..|ps|]
    ensures HistogramUpTo(stmts, ps, n) == HistogramUpTo(stmts, qs, n)
    ensures CountedRange(stmts, ps, 0, n) == CountedRange(stmts, qs, 0, n)
  {
    if n > 0 {
      HistogramOfPrefix(stmts, ps, qs, n - 1);
      assert ps[n - 1] == qs[n - 1];
    }
  }

  /** Whether statement i contributes: counted, and at or before the first misprediction f or itself mispredicted. */
  predicate Contributes(stmts: seq<Statement>, ps: seq<Placement>, f: nat, i: nat)
    requires i < |stmts| == |ps|
  {
    Counted(stmts[i]) && (i <= f || ps[i].mispredict)
  }

  /** The sum over i < n of the contributing statements' partitions. */
  function SumContributions(stmts: seq<Statement>, ps: seq<Placement>, f: nat, n: nat): multiset<int>
    requires n <= |stmts| == |ps|
  {
    if n == 0 then multiset{}
    else SumContributions(stmts, ps, f, n - 1) + (if Contributes(stmts, ps, f, n - 1) then Counts(ps[n - 1].stmtParts) else multiset{})
  }

  /** Index of the first mispredicted statement among 0..n-1, if any. */
  function FirstMispredict(ps: seq<Placement>, n: nat): (r: Option<nat>)
    requires n <= |ps|
    ensures r.None? <==> forall i :: 0 <= i < n ==> !ps[i].mispredict
    ensures r.Some? ==> r.value < n && ps[r.value].mispredict && forall i :: 0 <= i < r.value ==> !ps[i].mispredict
  {
    if n == 0 then None
    else match FirstMispredict(ps, n - 1)
      case Some(f) => Some(f)
      case None => if ps[n - 1].mispredict then Some(n - 1) else None
  }

  /**
   * The histogram in closed form: none if no statement mispredicted;
   * otherwise, with f the first mispredicted statement, the counted
   * statements up to f plus every later counted mispredicted statement.
   */
  lemma {:induction false} HistogramClosedForm(stmts: seq<Statement>, ps: seq<Placement>, n: nat)
    requires n <= |stmts| == |ps|
    ensures HistogramUpTo(stmts, ps, n).None? <==> forall i :: 0 <= i < n ==> !ps[i].mispredict
    ensures FirstMispredict(ps, n).Some? ==>
      HistogramUpTo(stmts, ps, n) == Some(SumContributions(stmts, ps, FirstMispredict(ps, n).value, n))
  {
    if n > 0 {
      HistogramClosedForm(stmts, ps, n - 1);
      match FirstMispredict(ps, n - 1)
      case None =>
        if ps[n - 1].mispredict {
          SumUpToFirst(stmts, ps, n - 1, n);
        }
      case Some(f) =>
        assert FirstMispredict(ps, n) == Some(f);
        assert ps[f].mispredict && f < n - 1;
        var m := SumContributions(stmts, ps, f, n - 1);
        assert HistogramUpTo(stmts, ps, n - 1) == Some(m);
        assert Contributes(stmts, ps, f, n - 1) <==> Counted(stmts[n - 1]) && ps[n - 1].mispredict;
        assert SumContributions(stmts, ps, f, n) ==
          m + (if Contributes(stmts, ps, f, n - 1) then Counts(ps[n - 1].stmtParts) else multiset{});
        if ps[n - 1].mispredict {
          assert HistogramUpTo(stmts, ps, n) ==
            Some(m + (if Counted(stmts[n - 1]) then Counts(ps[n - 1].stmtParts) else multiset{}));
        } else {
          assert HistogramUpTo(stmts, ps, n) == Some(m);
          assert m + multiset{} == m;
        }
    }
  }

  /** Up to and including the first misprediction, every counted statement contributes. */
  lemma {:induction false} SumUpToFirst(stmts: seq<Statement>, ps: seq<Placement>, f: nat, n: nat)
    requires n <= |stmts| == |ps| && n <= f + 1
    ensures SumContributions(stmts, ps, f, n) == CountedRange(stmts, ps, 0, n)
  {
    if n > 0 {
      SumUpToFirst(stmts, ps, f, n - 1);
    }
  }

  /** A statement with a true count only adds: every contributing statement's partitions are in the histogram. */
  lemma {:induction false} ContributionsIncluded(stmts: seq<Statement>, ps: seq<Placement>, f: nat, n: nat, i: nat)
    requires i < n <= |stmts| == |ps| && Contributes(stmts, ps, f, i)
    ensures multiset(ps[i].stmtParts) <= SumContributions(stmts, ps, f, n)
  {
    if i < n - 1 {
      ContributionsIncluded(stmts, ps, f, n - 1, i);
    }
  }
}
