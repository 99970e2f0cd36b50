/**
 * BatchPlanner: plans one batch of statements for a transaction. For each
 * statement it decides where the statement's fragments run (placement),
 * records the decision in a pooled BatchPlan, collects the misprediction
 * histogram, and attaches the plan graph cached for the batch's
 * single-partition bitmap, building it on a miss.
 */
module BatchPlanners {
  import opened Catalog
  import opened PlanVertices
  import opened DependencyIds
  import opened PartitionSets
  import opened PlanGraphs
  import opened Placement
  import opened BatchPlans

  // ---------------------------------------------------------------------
  // The graph cache key: Arrays.hashCode(boolean[])
  // ---------------------------------------------------------------------

  /** One step of Arrays.hashCode: 31 * h plus Boolean.hashCode, in Java int arithmetic. */
  function HashStep(h: int, b: bool): int
  {
    Wrap32(31 * h + (if b then 1231 else 1237))
  }

  /** Arrays.hashCode over the first n entries. */
  function HashUpTo(bits: seq<bool>, n: nat): (h: int)
    requires n <= |bits|
    ensures -0x8000_0000 <= h < 0x8000_0000
  {
    if n == 0 then 1 else HashStep(HashUpTo(bits, n - 1), bits[n - 1])
  }

  /** Arrays.hashCode(singlepartition_bitmap): the key plan_graphs is looked up by. */
  function BitmapHash(bits: seq<bool>): (h: int)
    ensures -0x8000_0000 <= h < 0x8000_0000
  {
    HashUpTo(bits, |bits|)
  }

  /**
   * The key does not determine the bitmap: two batches of 17 statements
   * whose single-partition bitmaps differ share a key, so the second is
   * given the graph cached for the first.
   */
  lemma BitmapHashCollides()
    ensures var b1 := [false, true, true, false, false, true, false, true, true, false, false, true, true, false, false, false, true];
            var b2 := [true, false, false, false, false, false, true, false, false, true, false, false, false, false, false, true, false];
            b1 != b2 && |b1| == |b2| == 17 && BitmapHash(b1) == BitmapHash(b2) == 1348575092
  {
    var b1 := [false, true, true, false, false, true, false, true, true, false, false, true, true, false, false, false, true];
    var b2 := [true, false, false, false, false, false, true, false, false, true, false, false, false, false, false, true, false];
    assert b1[0] != b2[0];
    assert HashUpTo(b1, 1) == 1268;
    assert HashUpTo(b1, 2) == 40539;
    assert HashUpTo(b1, 3) == 1257940;
    assert HashUpTo(b1, 4) == 38997377;
    assert HashUpTo(b1, 5) == 1208919924;
    assert HashUpTo(b1, 6) == -1178186789;
    assert HashUpTo(b1, 7) == 2130916442;
    assert HashUpTo(b1, 8) == 1633901493;
    assert HashUpTo(b1, 9) == -888660038;
    assert HashUpTo(b1, 10) == -1778656165;
    assert HashUpTo(b1, 11) == 696234970;
    assert HashUpTo(b1, 12) == 108448821;
    assert HashUpTo(b1, 13) == -933052614;
    assert HashUpTo(b1, 14) == 1140141275;
    assert HashUpTo(b1, 15) == 984642394;
    assert HashUpTo(b1, 16) == 459144379;
    assert HashUpTo(b1, 17) == 1348575092;
    assert HashUpTo(b2, 1) == 1262;
    assert HashUpTo(b2, 2) == 40359;
    assert HashUpTo(b2, 3) == 1252366;
    assert HashUpTo(b2, 4) == 38824583;
    assert HashUpTo(b2, 5) == 1203563310;
    assert HashUpTo(b2, 6) == -1344241817;
    assert HashUpTo(b2, 7) == 1278177864;
    assert HashUpTo(b2, 8) == 968809357;
    assert HashUpTo(b2, 9) == -31679768;
    assert HashUpTo(b2, 10) == -982071577;
    assert HashUpTo(b2, 11) == -379446578;
    assert HashUpTo(b2, 12) == 1122059207;
    assert HashUpTo(b2, 13) == 424098286;
    assert HashUpTo(b2, 14) == 262146215;
    assert HashUpTo(b2, 15) == -463400690;
    assert HashUpTo(b2, 16) == -1480518271;
    assert HashUpTo(b2, 17) == 1348575092;
  }

  /** Arrays.hashCode over the first n entries in exact arithmetic, before any wrap. */
  function ExactHash(bits: seq<bool>, n: nat): int
    requires n <= |bits|
  {
    if n == 0 then 1 else 31 * ExactHash(bits, n - 1) + (if bits[n - 1] then 1231 else 1237)
  }

  /** Up to five entries the key does not wrap: it is the exact sum, below 2^31. */
  lemma {:induction false} HashExactUpToFive(bits: seq<bool>, n: nat)
    requires n <= |bits| && n <= 5
    ensures HashUpTo(bits, n) == ExactHash(bits, n)
    ensures 1 <= ExactHash(bits, n) <= [1, 1268, 40545, 1258132, 39003329, 1209104436][n]
  {
    if n > 0 {
      HashExactUpToFive(bits, n - 1);
    }
  }

  /** The two entry contributions differ by 6, which 31 does not divide. */
  lemma SixIsNoMultipleOf31(x: int)
    ensures 31 * x != 6 && 31 * x != -6
  {
    if x >= 1 {
      assert 31 * x >= 31;
    } else if x <= -1 {
      assert 31 * x <= -31;
    }
  }

  /**
   * Equal exact sums of equally long prefixes are equal prefixes: the last
   * entries contribute 1231 or 1237, whose difference 6 is no multiple of 31.
   */
  lemma {:induction false} ExactHashInjective(a: seq<bool>, b: seq<bool>, n: nat)
    requires n <= |a| && n <= |b| && ExactHash(a, n) == ExactHash(b, n)
    ensures a[..n] == b[..n]
  {
    if n > 0 {
      var x := ExactHash(a, n - 1) - ExactHash(b, n - 1);
      var da, db := (if a[n - 1] then 1231 else 1237), (if b[n - 1] then 1231 else 1237);
      assert 31 * x == db - da;
      SixIsNoMultipleOf31(x);
      assert a[n - 1] == b[n - 1];
      ExactHashInjective(a, b, n - 1);
      assert a[..n] == a[..n - 1] + [a[n - 1]];
      assert b[..n] == b[..n - 1] + [b[n - 1]];
    }
  }

  /**
   * Batches of up to five statements get a key per bitmap: two bitmaps of
   * the same length share a key only when they are equal, so below six
   * statements the cache never hands out a graph built for another bitmap.
   */
  lemma ShortBitmapsHaveDistinctKeys(a: seq<bool>, b: seq<bool>)
    requires |a| == |b| <= 5
    ensures BitmapHash(a) == BitmapHash(b) <==> a == b
  {
    HashExactUpToFive(a, |a|);
    HashExactUpToFive(b, |b|);
    if BitmapHash(a) == BitmapHash(b) {
      ExactHashInjective(a, b, |a|);
      assert a == a[..|a|] && b == b[..|b|];
    }
  }

  /**
   * The graph cached under key h was built, with the counter at `first`,
   * for a bitmap whose key is h.
   */
  ghost predicate CachedGraph(stmts: seq<Statement>, h: int, g: GraphValue, bits: seq<bool>, first: int)
  {
    && |bits| == |stmts| && BitmapHash(bits) == h
    && g == BuiltGraph(FragListsFor(stmts, bits), first)
  }

  /** Every graph value filed under a key is the one built for that key's bitmap. */
  ghost predicate AllCached(stmts: seq<Statement>, values: map<int, GraphValue>, bitmaps: map<int, seq<bool>>,
                            firsts: map<int, int>)
  {
    && values.Keys == bitmaps.Keys && values.Keys == firsts.Keys
    && forall h {:trigger CachedGraph(stmts, h, values[h], bitmaps[h], firsts[h])} ::
         h in values ==> CachedGraph(stmts, h, values[h], bitmaps[h], firsts[h])
  }

  /** Filing one more correctly built graph keeps every cached graph correctly built. */
  lemma CacheExtend(stmts: seq<Statement>, values: map<int, GraphValue>, bitmaps: map<int, seq<bool>>,
                    firsts: map<int, int>, key: int, g: GraphValue, bits: seq<bool>, first: int)
    requires AllCached(stmts, values, bitmaps, firsts)
    requires CachedGraph(stmts, key, g, bits, first)
    ensures AllCached(stmts, values[key := g], bitmaps[key := bits], firsts[key := first])
  {
    var values', bitmaps', firsts' := values[key := g], bitmaps[key := bits], firsts[key := first];
    forall h | h in values'
      ensures CachedGraph(stmts, h, values'[h], bitmaps'[h], firsts'[h])
    {
      if h != key {
        assert CachedGraph(stmts, h, values[h], bitmaps[h], firsts[h]);
      }
    }
  }

  // ---------------------------------------------------------------------
  // The fast path's puts, one fragment at a time
  // ---------------------------------------------------------------------

  lemma PutSharedSnoc(m: map<Fragment, PartitionSetRef>, frags: seq<Fragment>, k: nat, base: int)
    requires k < |frags|
    ensures PutShared(m, frags[..k + 1], base) == PutShared(m, frags[..k], base)[frags[k] := Shared(base)]
  {
    assert frags[..k + 1] == frags[..k] + [frags[k]];
    assert forall f :: f in frags[..k + 1] <==> f in frags[..k] || f == frags[k];
  }

  /** Place when the first estimate settles the statement. */
  lemma PlaceAtFirst(st: Statement, params: ParamSet, base: int, numPartitions: int, predict: bool, est: Estimator,
                     frags0: map<Fragment, PartitionSetRef>, parts0: set<int>, sets: seq<set<int>>)
    requires !IsReplicatedReadOnly(st)
    requires Estimates(est, FragmentsFor(st, st.hasSinglesited), params, base) == Some(sets)
    requires !(st.hasSinglesited && |parts0 + UnionAll(sets)| > 1)
    requires !(!IsLocal(parts0 + UnionAll(sets), base) && predict)
    ensures Place(st, params, base, numPartitions, predict, est, frags0, parts0)
      == Some(Placement(st.hasSinglesited, IsLocal(parts0 + UnionAll(sets), base), false,
                        PutOwned(frags0, FragmentsFor(st, st.hasSinglesited), sets), parts0 + UnionAll(sets), 1))
  {
  }

  /** Place when the single-partition estimate spans partitions and the multi-partition one is taken. */
  lemma PlaceAfterRetry(st: Statement, params: ParamSet, base: int, numPartitions: int, predict: bool, est: Estimator,
                        frags0: map<Fragment, PartitionSetRef>, parts0: set<int>, sets1: seq<set<int>>, sets2: seq<set<int>>)
    requires !IsReplicatedReadOnly(st) && st.hasSinglesited && !predict
    requires Estimates(est, st.fragments, params, base) == Some(sets1)
    requires |parts0 + UnionAll(sets1)| > 1
    requires Estimates(est, st.msFragments, params, base) == Some(sets2)
    ensures Place(st, params, base, numPartitions, predict, est, frags0, parts0)
      == Some(Placement(false, IsLocal(UnionAll(sets2), base), false,
                        PutOwned(PutOwned(frags0, st.fragments, sets1), st.msFragments, sets2), UnionAll(sets2), 2))
  {
  }

  // ---------------------------------------------------------------------
  // A pooled plan after finish
  // ---------------------------------------------------------------------

  /**
   * finish as written empties the shared singleton set of every partition a
   * fast-path statement referred to. A replicated read-only statement
   * planned afterwards still records {base} as its partitions, but each of
   * its fragments resolves to the emptied set, so its vertices land in no
   * bucket and no task runs them.
   */
  lemma FastPathAfterFinish(st: Statement, params: ParamSet, base: int, table: seq<set<int>>, predict: bool,
                            est: Estimator, v: PlanVertex)
    requires st.hasSinglesited && IsReplicatedReadOnly(st) && 0 <= base < |table| && table[base] == {}
    requires v.stmtIndex == 0 && v.frag in st.fragments
    ensures var r := Place(st, params, base, |table|, predict, est, map[], {});
      && r.Some? && r.value.stmtParts == {base}
      && PartsOf([r.value.fragParts], table, v) == {}
      && Bucket({v}, [r.value.fragParts], table, v.round, base) == {}
  {
    FastPath(st, params, base, |table|, predict, est, map[], {});
  }

  /**
   * With the table left as preload built it (what FinishForReuse keeps),
   * the same statement's fragments resolve to {base}, its recorded
   * partitions, and each vertex lands in the base partition's bucket.
   */
  lemma FastPathAfterReuse(st: Statement, params: ParamSet, base: int, table: seq<set<int>>, predict: bool,
                           est: Estimator, v: PlanVertex)
    requires st.hasSinglesited && IsReplicatedReadOnly(st) && 0 <= base < |table|
    requires forall i :: 0 <= i < |table| ==> table[i] == {i}
    requires v.stmtIndex == 0 && v.frag in st.fragments
    ensures var r := Place(st, params, base, |table|, predict, est, map[], {});
      && r.Some? && r.value.stmtParts == {base}
      && PartsOf([r.value.fragParts], table, v) == r.value.stmtParts
      && Bucket({v}, [r.value.fragParts], table, v.round, base) == {v}
  {
    FastPath(st, params, base, |table|, predict, est, map[], {});
  }

  /**
   * The flags finish leaves alone are ANDed into by the next batch: once a
   * batch had a statement that was not local, not single-partition or not
   * read-only, every later batch planned with the same object reports the
   * same, whatever its own statements are.
   */
  lemma FlagsCarriedOver(stmts: seq<Statement>, ps: seq<Placement>, k: nat,
                         flags0: (bool, bool, bool, bool), flags: (bool, bool, bool, bool))
    requires k <= |stmts| && k <= |ps|
    requires FlagsAfter(stmts, ps, k, flags0, flags)
    ensures !flags0.0 ==> !flags.0
    ensures !flags0.1 ==> !flags.1
    ensures !flags0.2 ==> !flags.2
  {
  }

  /**
   * From the values FinishForReuse restores, each flag after a batch
   * describes that batch alone: true exactly when all of its statements
   * are read-only, local, single-partition respectively.
   */
  lemma FlagsAfterReuse(stmts: seq<Statement>, ps: seq<Placement>, k: nat, flags: (bool, bool, bool, bool))
    requires k <= |stmts| && k <= |ps|
    requires FlagsAfter(stmts, ps, k, (true, true, true, true), flags)
    ensures flags.0 <==> forall i :: 0 <= i < k ==> stmts[i].readOnly
    ensures flags.1 <==> forall i :: 0 <= i < k ==> ps[i].local
    ensures flags.2 <==> forall i :: 0 <= i < k ==> ps[i].single
    ensures flags.3
  {
  }

  // ---------------------------------------------------------------------
  // What plan() leaves in the BatchPlan
  // ---------------------------------------------------------------------

  /**
   * The per-statement containers after statements 0..k-1 were planned with
   * placements ps: each planned statement holds its placement's maps, the
   * ordering memoised for its final single/multi choice and that choice in
   * the bitmap; every later statement still holds what it held before.
   */
  ghost predicate RecordedUpTo(stmts: seq<Statement>, ps: seq<Placement>, k: nat,
                               fps: seq<map<Fragment, PartitionSetRef>>, sps: seq<set<int>>,
                               fl: seq<Option<seq<Fragment>>>, bits: seq<bool>,
                               fps0: seq<map<Fragment, PartitionSetRef>>, sps0: seq<set<int>>,
                               fl0: seq<Option<seq<Fragment>>>, bits0: seq<bool>)
  {
    && k == |ps| <= |stmts|
    && |fps| == |sps| == |fl| == |bits| == |stmts|
    && |fps0| == |sps0| == |fl0| == |bits0| == |stmts|
    && (forall i :: 0 <= i < |stmts| ==> fps[i] == if i < k then ps[i].fragParts else fps0[i])
    && (forall i :: 0 <= i < |stmts| ==> sps[i] == if i < k then ps[i].stmtParts else sps0[i])
    && (forall i :: 0 <= i < |stmts| ==> fl[i] == if i < k then Some(SortedFor(stmts[i], ps[i].single)) else fl0[i])
    && (forall i :: 0 <= i < |stmts| ==> bits[i] == if i < k then ps[i].single else bits0[i])
  }

  /**
   * The batch-wide flags after statements 0..k-1: each of readonly,
   * all_local and all_singlepartitioned is its value before ANDed with the
   * statements' read-only flags, final localities and final choices;
   * localFragsAreNonTransactional is ORed with itself and so stays put.
   */
  ghost predicate FlagsAfter(stmts: seq<Statement>, ps: seq<Placement>, k: nat,
                             flags0: (bool, bool, bool, bool), flags: (bool, bool, bool, bool))
    requires k <= |stmts| && k <= |ps|
  {
    && flags.0 == (flags0.0 && forall i :: 0 <= i < k ==> stmts[i].readOnly)
    && flags.1 == (flags0.1 && forall i :: 0 <= i < k ==> ps[i].local)
    && flags.2 == (flags0.2 && forall i :: 0 <= i < k ==> ps[i].single)
    && flags.3 == flags0.3
  }

  /**
   * Every statement has a frag_list, and every fragment in it has a
   * frag_partitions entry: buildPlanGraph's lookup (lines 889-891) never
   * comes back null.
   */
  ghost predicate ListsHaveEntries(fl: seq<Option<seq<Fragment>>>, fps: seq<map<Fragment, PartitionSetRef>>)
  {
    && |fl| == |fps|
    && forall i :: 0 <= i < |fl| ==>
         fl[i].Some? && forall k :: 0 <= k < |fl[i].value| ==> fl[i].value[k] in fps[i]
  }

  /**
   * Once a batch with covered orderings is planned and recorded, the
   * fragment lists the graph is built from have their frag_partitions
   * entries, so buildPlanGraph cannot raise for a missing one.
   */
  lemma RecordedListsHaveEntries(stmts: seq<Statement>, args: seq<ParamSet>, base: int, numPartitions: int,
                                 predict: bool, est: Estimator, ps: seq<Placement>,
                                 fps: seq<map<Fragment, PartitionSetRef>>, sps: seq<set<int>>,
                                 fl: seq<Option<seq<Fragment>>>, bits: seq<bool>,
                                 fps0: seq<map<Fragment, PartitionSetRef>>, sps0: seq<set<int>>,
                                 fl0: seq<Option<seq<Fragment>>>, bits0: seq<bool>)
    requires forall i :: 0 <= i < |stmts| ==> OrderingsCovered(stmts[i])
    requires RecordedUpTo(stmts, ps, |stmts|, fps, sps, fl, bits, fps0, sps0, fl0, bits0)
    requires PlaceAll(stmts, args, base, numPartitions, predict, est, fps0, sps0, |stmts|) == Ok(ps)
    ensures ListsHaveEntries(fl, fps)
  {
    PlaceAllValues(stmts, args, base, numPartitions, predict, est, fps0, sps0, |stmts|);
    forall i | 0 <= i < |fl|
      ensures fl[i].Some? && forall k :: 0 <= k < |fl[i].value| ==> fl[i].value[k] in fps[i]
    {
      assert Place(stmts[i], args[i], base, numPartitions, predict, est, fps0[i], sps0[i]) == Some(ps[i]);
      ListedFragmentsHaveEntries(stmts[i], args[i], base, numPartitions, predict, est, fps0[i], sps0[i]);
    }
  }

  /** plan.mispredict afterwards: a new record when a histogram was built, otherwise what the plan held. */
  function MispredictionOf(txnId: int, h: Option<multiset<int>>, before: Option<Misprediction>): (m: Option<Misprediction>)
    ensures m.Some? <==> h.Some? || before.Some?
    ensures h.Some? ==> m == Some(Misprediction(txnId, h.value))
  {
    match h
    case Some(counts) => Some(Misprediction(txnId, counts))
    case None => before
  }

  /** frag_list as buildPlanGraph reads it, when every entry is set. */
  function Unwrapped(fl: seq<Option<seq<Fragment>>>): (lists: seq<seq<Fragment>>)
    requires forall i :: 0 <= i < |fl| ==> fl[i].Some?
    ensures |lists| == |fl| && forall i :: 0 <= i < |fl| ==> fl[i] == Some(lists[i])
  {
    seq(|fl|, i requires 0 <= i < |fl| => fl[i].value)
  }

  /** Recording statement i's placement extends what is recorded by one statement. */
  lemma RecordedStep(stmts: seq<Statement>, ps: seq<Placement>, pl: Placement, i: nat,
                     fps: seq<map<Fragment, PartitionSetRef>>, sps: seq<set<int>>,
                     fl: seq<Option<seq<Fragment>>>, bits: seq<bool>,
                     fps0: seq<map<Fragment, PartitionSetRef>>, sps0: seq<set<int>>,
                     fl0: seq<Option<seq<Fragment>>>, bits0: seq<bool>)
    requires i < |stmts|
    requires RecordedUpTo(stmts, ps, i, fps, sps, fl, bits, fps0, sps0, fl0, bits0)
    ensures RecordedUpTo(stmts, ps + [pl], i + 1, fps[i := pl.fragParts], sps[i := pl.stmtParts],
                         fl[i := Some(SortedFor(stmts[i], pl.single))], bits[i := pl.single], fps0, sps0, fl0, bits0)
  {
  }

  /** Folding statement i into the flags extends the conjunctions by one statement. */
  lemma FlagsStep(stmts: seq<Statement>, ps: seq<Placement>, pl: Placement, i: nat,
                  flags0: (bool, bool, bool, bool), flags: (bool, bool, bool, bool))
    requires i < |stmts| && |ps| == i
    requires FlagsAfter(stmts, ps, i, flags0, flags)
    ensures FlagsAfter(stmts, ps + [pl], i + 1, flags0,
                       (flags.0 && stmts[i].readOnly, flags.1 && pl.local, flags.2 && pl.single, flags.3))
  {
    var qs := ps + [pl];
    assert forall j :: 0 <= j < i ==> qs[j] == ps[j];
    assert qs[i] == pl;
    assert (forall j :: 0 <= j < i + 1 ==> qs[j].local) == ((forall j :: 0 <= j < i ==> ps[j].local) && pl.local);
    assert (forall j :: 0 <= j < i + 1 ==> qs[j].single) == ((forall j :: 0 <= j < i ==> ps[j].single) && pl.single);
  }

  /** Once every statement is recorded, frag_list holds the fragment lists of the bitmap's choices. */
  lemma RecordedLists(stmts: seq<Statement>, ps: seq<Placement>,
                      fps: seq<map<Fragment, PartitionSetRef>>, sps: seq<set<int>>,
                      fl: seq<Option<seq<Fragment>>>, bits: seq<bool>,
                      fps0: seq<map<Fragment, PartitionSetRef>>, sps0: seq<set<int>>,
                      fl0: seq<Option<seq<Fragment>>>, bits0: seq<bool>)
    requires RecordedUpTo(stmts, ps, |stmts|, fps, sps, fl, bits, fps0, sps0, fl0, bits0)
    ensures forall i :: 0 <= i < |fl| ==> fl[i].Some?
    ensures Unwrapped(fl) == FragListsFor(stmts, bits)
  {
    forall i | 0 <= i < |fl|
      ensures fl[i] == Some(SortedFor(stmts[i], bits[i]))
    {
      assert i < |ps| && bits[i] == ps[i].single;
    }
    var lists, want := Unwrapped(fl), FragListsFor(stmts, bits);
    assert |lists| == |want|;
    forall i | 0 <= i < |lists|
      ensures lists[i] == want[i]
    {
      assert fl[i] == Some(lists[i]);
    }
  }

  // ---------------------------------------------------------------------
  // The planner
  // ---------------------------------------------------------------------

  class BatchPlanner {
    /** catalog_stmts, and with them stmt_is_readonly / stmt_is_replicatedonly; batchSize is |stmts|. */
    const stmts: seq<Statement>
    const numPartitions: nat
    /** The partition estimator, as an oracle. */
    const estimator: Estimator
    /** SINGLE_PARTITION_SETS, as preload built it. */
    const singletons: PartitionSetCache
    /** NEXT_DEPENDENCY_ID, shared by every planner. */
    const counter: DependencyIdAllocator

    /** sorted_singlep_fragments / sorted_multip_fragments: memoised per statement. */
    var sortedSingle: seq<Option<seq<Fragment>>>
    var sortedMulti: seq<Option<seq<Fragment>>>

    /** plan_graphs: bitmap key -> graph. */
    var planGraphs: map<int, PlanGraph>
    /** For each cached graph, the bitmap it was built for and the first dependency id it took. */
    ghost var graphBitmaps: map<int, seq<bool>>
    ghost var graphFirst: map<int, int>
    /** The state of each cached graph, which nothing changes once it is cached. */
    ghost var graphValues: map<int, GraphValue>
    /** The cached graphs and their projection arrays. */
    ghost var Graphs: set<PlanGraph>

    ghost predicate Valid()
      reads this, Graphs, singletons, singletons.sets, counter
    {
      && MemoValid()
      && singletons.Valid() && singletons.sets.Length == numPartitions
      && counter.Valid()
      && CacheValid()
    }

    /** Each memoised execution ordering is the statement's own. */
    ghost predicate MemoValid()
      reads this`sortedSingle, this`sortedMulti
    {
      && |sortedSingle| == |stmts| && |sortedMulti| == |stmts|
      && (forall i {:trigger sortedSingle[i]} :: 0 <= i < |stmts| && sortedSingle[i].Some? ==> sortedSingle[i].value == stmts[i].sortedSingle)
      && (forall i {:trigger sortedMulti[i]} :: 0 <= i < |stmts| && sortedMulti[i].Some? ==> sortedMulti[i].value == stmts[i].sortedMulti)
    }

    /**
     * Each cached graph is owned by the cache, and is the graph
     * buildPlanGraph built for a bitmap whose key it is filed under.
     */
    ghost predicate CacheValid()
      reads this`planGraphs, this`graphBitmaps, this`graphFirst, this`graphValues, this`Graphs, Graphs
    {
      && planGraphs.Keys == graphValues.Keys
      && (forall h :: h in planGraphs ==> planGraphs[h] in Graphs)
      && (forall h :: h in planGraphs ==> planGraphs[h].Snapshot() == graphValues[h])
      && AllCached(stmts, graphValues, graphBitmaps, graphFirst)
    }

    /** The planner's cache state, which placing a statement leaves alone. */
    ghost function Cache(): (map<int, PlanGraph>, map<int, seq<bool>>, map<int, int>, map<int, GraphValue>, set<PlanGraph>)
      reads this
    {
      (planGraphs, graphBitmaps, graphFirst, graphValues, Graphs)
    }

    /** BatchPlanner(batchStmts, batchSize, catalog_proc, p_estimator), after preload. */
    constructor (stmts: seq<Statement>, numPartitions: nat, estimator: Estimator,
                 singletons: PartitionSetCache, counter: DependencyIdAllocator)
      requires singletons.Valid() && singletons.sets.Length == numPartitions && counter.Valid()
      ensures this.stmts == stmts && this.numPartitions == numPartitions && this.estimator == estimator
      ensures this.singletons == singletons && this.counter == counter
      ensures planGraphs == map[] && sortedSingle == Fill(|stmts|, None) && sortedMulti == Fill(|stmts|, None)
      ensures Valid()
    {
      this.stmts := stmts;
      this.numPartitions := numPartitions;
      this.estimator := estimator;
      this.singletons := singletons;
      this.counter := counter;
      sortedSingle := Fill(|stmts|, None);
      sortedMulti := Fill(|stmts|, None);
      planGraphs, graphBitmaps, graphFirst, graphValues, Graphs := map[], map[], map[], map[], {};
    }

    /**
     * The placement of one statement (the body of plan's statement loop up
     * to the sorted fragment list): the fast path, or the estimation loop
     * that falls back once to the multi-partition fragments.
     */
    method PlaceStatement(st: Statement, params: ParamSet, base: int, predict: bool,
                          frags0: map<Fragment, PartitionSetRef>, parts0: set<int>)
      returns (r: Option<Placement>)
      ensures r == Place(st, params, base, numPartitions, predict, estimator, frags0, parts0)
    {
      if IsReplicatedReadOnly(st) {
        if st.fragments != [] && !(0 <= base < numPartitions) {
          // the first fragment's SINGLE_PARTITION_SETS[base_partition] is out of bounds
          return None;
        }
        var frags := PutSharedAll(frags0, st.fragments, base);
        return Some(Placement(st.hasSinglesited, true, false, frags, parts0 + {base}, 0));
      }
      r := EstimationLoop(st, params, base, predict, frags0, parts0);
    }

    /** The fast path's loop: each fragment is mapped to the base partition's shared set. */
    static method PutSharedAll(frags0: map<Fragment, PartitionSetRef>, fragments: seq<Fragment>, base: int)
      returns (frags: map<Fragment, PartitionSetRef>)
      ensures frags == PutShared(frags0, fragments, base)
    {
      frags := frags0;
      for k := 0 to |fragments|
        invariant frags == PutShared(frags0, fragments[..k], base)
      {
        PutSharedSnoc(frags0, fragments, k, base);
        frags := frags[fragments[k] := Shared(base)];
      }
      assert fragments[..|fragments|] == fragments;
    }

    /** The estimation loop of a statement that does not take the fast path. */
    method EstimationLoop(st: Statement, params: ParamSet, base: int, predict: bool,
                          frags0: map<Fragment, PartitionSetRef>, parts0: set<int>)
      returns (r: Option<Placement>)
      requires !IsReplicatedReadOnly(st)
      ensures r == Place(st, params, base, numPartitions, predict, estimator, frags0, parts0)
    {
      var single := st.hasSinglesited;
      var first := true;
      var frags := frags0;
      var parts := parts0;
      var calls: nat := 0;
      ghost var sets1: seq<set<int>> := [];
      while true
        invariant first ==> single == st.hasSinglesited && frags == frags0 && parts == parts0 && calls == 0
        invariant !first ==>
          && st.hasSinglesited && !single && !predict && calls == 1
          && Estimates(estimator, st.fragments, params, base) == Some(sets1)
          && frags == PutOwned(frags0, st.fragments, sets1)
          && |parts0 + UnionAll(sets1)| > 1
        decreases if first then 1 else 0
      {
        ghost var retrying := !first;
        if !first {
          parts := {};
        }
        first := false;
        var frs := FragmentsFor(st, single);
        // p_estimator.getAllFragmentPartitions
        var answer := Estimates(estimator, frs, params, base);
        calls := calls + 1;
        if answer.None? {
          return None;
        }
        frags := PutOwned(frags, frs, answer.value);
        parts := parts + UnionAll(answer.value);
        var local := |parts| == 1 && base in parts;
        if single && |parts| > 1 {
          if predict {
            return Some(Placement(single, local, true, frags, parts, calls));
          }
          single := false;
          sets1 := answer.value;
          continue;
        } else if !local && predict {
          return Some(Placement(single, local, true, frags, parts, calls));
        }
        if retrying {
          assert parts == UnionAll(answer.value);
          assert frs == st.msFragments && calls == 2 && !single;
          assert frags == PutOwned(PutOwned(frags0, st.fragments, sets1), st.msFragments, answer.value);
          PlaceAfterRetry(st, params, base, numPartitions, predict, estimator, frags0, parts0, sets1, answer.value);
        } else {
          PlaceAtFirst(st, params, base, numPartitions, predict, estimator, frags0, parts0, answer.value);
        }
        return Some(Placement(single, local, false, frags, parts, calls));
      }
    }

    /**
     * The statement's fragments in execution order for the final choice,
     * computed on first use and memoised in sorted_singlep_fragments or
     * sorted_multip_fragments.
     */
    method SortedFragments(i: nat, single: bool) returns (sorted: seq<Fragment>)
      requires MemoValid() && i < |stmts|
      modifies this`sortedSingle, this`sortedMulti
      ensures MemoValid()
      ensures sorted == SortedFor(stmts[i], single)
      ensures single ==> sortedSingle == old(sortedSingle)[i := Some(sorted)] && sortedMulti == old(sortedMulti)
      ensures !single ==> sortedMulti == old(sortedMulti)[i := Some(sorted)] && sortedSingle == old(sortedSingle)
    {
      if single {
        if sortedSingle[i].None? {
          // PlanNodeUtil.getSortedPlanFragments(catalog_stmt, true)
          sortedSingle := sortedSingle[i := Some(stmts[i].sortedSingle)];
        }
        sorted := sortedSingle[i].value;
      } else {
        if sortedMulti[i].None? {
          sortedMulti := sortedMulti[i := Some(stmts[i].sortedMulti)];
        }
        sorted := sortedMulti[i].value;
      }
    }

    /**
     * The misprediction branch of the statement loop for statement i: the
     * first mispredicted statement creates the histogram and counts the
     * partitions of every counted statement 0..i; a later one adds its own.
     */
    method AddMispredicted(plan: BatchPlan, i: nat, h: Option<multiset<int>>, ghost ps: seq<Placement>)
      returns (h': Option<multiset<int>>)
      requires i < |stmts| && |ps| == i + 1 && |plan.stmtPartitions| == |stmts|
      requires forall j :: 0 <= j <= i ==> plan.stmtPartitions[j] == ps[j].stmtParts
      requires ps[i].mispredict
      requires h == HistogramUpTo(stmts, ps, i)
      ensures h' == HistogramUpTo(stmts, ps, i + 1)
    {
      HistogramStep(stmts, ps, i);
      var startIdx := i;
      var counts: multiset<int> := multiset{};
      if h.None? {
        startIdx := 0;
      } else {
        counts := h.value;
      }
      ghost var counts0 := counts;
      for j := startIdx to i + 1
        invariant counts == counts0 + CountedRange(stmts, ps, startIdx, j)
      {
        if !stmts[j].replicatedOnly || (stmts[j].replicatedOnly && !stmts[j].readOnly) {
          // Histogram.putAll(plan.stmt_partitions[j])
          counts := counts + multiset(plan.stmtPartitions[j]);
        }
      }
      h' := Some(counts);
    }

    /**
     * The synchronized block of plan(): the graph cached under the
     * bitmap's key, or a graph built from the batch's fragment lists and
     * cached under that key.
     */
    method GraphFor(bits: seq<bool>, lists: seq<seq<Fragment>>) returns (graph: PlanGraph)
      requires Valid() && |bits| == |stmts| && lists == FragListsFor(stmts, bits)
      modifies this, counter
      ensures Valid()
      ensures BitmapHash(bits) in planGraphs && graph == planGraphs[BitmapHash(bits)]
      ensures BitmapHash(bits) in old(planGraphs) ==> Cache() == old(Cache()) && counter.next == old(counter.next)
      ensures BitmapHash(bits) !in old(planGraphs) ==>
        && fresh(graph)
        && planGraphs == old(planGraphs)[BitmapHash(bits) := graph]
        && graphBitmaps == old(graphBitmaps)[BitmapHash(bits) := bits]
        && graphFirst == old(graphFirst)[BitmapHash(bits) := old(counter.next)]
        && counter.next == old(counter.next) + TotalLen(lists)
      ensures sortedSingle == old(sortedSingle) && sortedMulti == old(sortedMulti)
    {
      var key := BitmapHash(bits);
      if key in planGraphs {
        return planGraphs[key];
      }
      ghost var first := counter.next;
      graph := BuildPlanGraph(lists, counter);
      CacheExtend(stmts, graphValues, graphBitmaps, graphFirst, key, graph.Snapshot(), bits, first);
      CacheGraph(key, graph, bits, first);
    }

    /** plan_graphs.put(bitmap key, graph) for a graph just built for the bitmap. */
    method CacheGraph(key: int, graph: PlanGraph, ghost bits: seq<bool>, ghost first: int)
      requires CacheValid() && key !in planGraphs
      requires AllCached(stmts, graphValues[key := graph.Snapshot()], graphBitmaps[key := bits], graphFirst[key := first])
      modifies this`planGraphs, this`graphBitmaps, this`graphFirst, this`graphValues, this`Graphs
      ensures CacheValid()
      ensures planGraphs == old(planGraphs)[key := graph]
      ensures graphBitmaps == old(graphBitmaps)[key := bits]
      ensures graphFirst == old(graphFirst)[key := first]
    {
      planGraphs, graphBitmaps, graphFirst, graphValues, Graphs :=
        planGraphs[key := graph], graphBitmaps[key := bits], graphFirst[key := first],
        graphValues[key := graph.Snapshot()],
        Graphs + {graph};
      forall h | h in planGraphs
        ensures planGraphs[h].Snapshot() == graphValues[h]
      {
        if h != key {
          assert planGraphs[h] == old(planGraphs[h]);
        }
      }
    }

    /**
     * plan(): place every statement of the batch, record the placements,
     * fold the batch-wide flags, collect the misprediction histogram, and
     * attach the graph cached for the resulting single-partition bitmap.
     * A statement that raises makes the whole call raise.
     */
    method Plan(plan: BatchPlan, txnId: int, clientHandle: int, base: int, batchArgs: seq<ParamSet>, predict: bool)
      returns (res: Result<BatchPlan, PlanError>)
      requires Valid() && plan.Valid()
      requires plan.capacity == |stmts| && plan.numPartitions == numPartitions && plan.singletons == singletons
      requires forall i :: 0 <= i < |stmts| ==> OrderingsCovered(stmts[i])
      modifies this, plan, plan.bitmap, counter
      ensures Valid() && plan.Valid()
      ensures plan.txnId == txnId && plan.clientHandle == clientHandle && plan.basePartition == base
      ensures plan.batchSize == |stmts| && plan.batchArgs == Some(batchArgs)
      ensures plan.ftasks == old(plan.ftasks) && plan.paramBuffers == old(plan.paramBuffers)
      ensures var placed := PlaceAll(stmts, batchArgs, base, numPartitions, predict, estimator,
                                     old(plan.fragPartitions), old(plan.stmtPartitions), |stmts|);
        && (placed.Err? ==> res == Err(placed.error) && Cache() == old(Cache()))
        && (placed.Ok? ==>
              && res == Ok(plan)
              && RecordedUpTo(stmts, placed.value, |stmts|, plan.fragPartitions, plan.stmtPartitions, plan.fragList, plan.bitmap[..],
                              old(plan.fragPartitions), old(plan.stmtPartitions), old(plan.fragList), old(plan.bitmap[..]))
              && FlagsAfter(stmts, placed.value, |stmts|, old(plan.Flags()), plan.Flags())
              && ListsHaveEntries(plan.fragList, plan.fragPartitions)
              && plan.mispredict == MispredictionOf(txnId, HistogramUpTo(stmts, placed.value, |stmts|), old(plan.mispredict)))
      ensures res.Ok? ==>
        && BitmapHash(plan.bitmap[..]) in planGraphs
        && plan.graph == planGraphs[BitmapHash(plan.bitmap[..])]
        && plan.roundsLength == plan.graph.maxRounds
        && (BitmapHash(plan.bitmap[..]) in old(planGraphs) ==> Cache() == old(Cache()) && counter.next == old(counter.next))
        && (BitmapHash(plan.bitmap[..]) !in old(planGraphs) ==>
              && fresh(plan.graph)
              && planGraphs == old(planGraphs)[BitmapHash(plan.bitmap[..]) := plan.graph]
              && graphBitmaps[BitmapHash(plan.bitmap[..])] == plan.bitmap[..]
              && graphFirst[BitmapHash(plan.bitmap[..])] == old(counter.next))
    {
      plan.Init(txnId, clientHandle, base, |stmts|, batchArgs);
      var failed, mispredictH := PlaceBatch(plan, base, batchArgs, predict);
      if failed.Some? {
        return Err(failed.value);
      }
      ghost var placed := PlaceAll(stmts, batchArgs, base, numPartitions, predict, estimator,
                                   old(plan.fragPartitions), old(plan.stmtPartitions), |stmts|);
      RecordedLists(stmts, placed.value, plan.fragPartitions, plan.stmtPartitions, plan.fragList, plan.bitmap[..],
                    old(plan.fragPartitions), old(plan.stmtPartitions), old(plan.fragList), old(plan.bitmap[..]));
      AttachGraph(plan, txnId, mispredictH);
      res := Ok(plan);
    }

    /**
     * The end of plan() once every statement placed: the graph cached for
     * the single-partition bitmap, built on a miss, is attached with its
     * round count, and a histogram collected on the way becomes the plan's
     * misprediction record.
     */
    method AttachGraph(plan: BatchPlan, txnId: int, h: Option<multiset<int>>)
      requires Valid() && plan.Valid() && plan.capacity == |stmts|
      requires forall i :: 0 <= i < |plan.fragList| ==> plan.fragList[i].Some?
      requires Unwrapped(plan.fragList) == FragListsFor(stmts, plan.bitmap[..])
      modifies this, counter, plan
      ensures Valid() && plan.Valid()
      ensures plan.mispredict == MispredictionOf(txnId, h, old(plan.mispredict))
      ensures plan.txnId == old(plan.txnId) && plan.clientHandle == old(plan.clientHandle)
      ensures plan.basePartition == old(plan.basePartition) && plan.batchSize == old(plan.batchSize)
      ensures plan.batchArgs == old(plan.batchArgs) && plan.ftasks == old(plan.ftasks) && plan.paramBuffers == old(plan.paramBuffers)
      ensures plan.fragPartitions == old(plan.fragPartitions) && plan.stmtPartitions == old(plan.stmtPartitions)
      ensures plan.fragList == old(plan.fragList) && plan.Flags() == old(plan.Flags())
      ensures BitmapHash(plan.bitmap[..]) in planGraphs
      ensures plan.graph == planGraphs[BitmapHash(plan.bitmap[..])] && plan.roundsLength == plan.graph.maxRounds
      ensures BitmapHash(plan.bitmap[..]) in old(planGraphs) ==> Cache() == old(Cache()) && counter.next == old(counter.next)
      ensures BitmapHash(plan.bitmap[..]) !in old(planGraphs) ==>
        && fresh(plan.graph)
        && planGraphs == old(planGraphs)[BitmapHash(plan.bitmap[..]) := plan.graph]
        && graphBitmaps[BitmapHash(plan.bitmap[..])] == plan.bitmap[..]
        && graphFirst[BitmapHash(plan.bitmap[..])] == old(counter.next)
    {
      var lists := Unwrapped(plan.fragList);
      var graph := GraphFor(plan.bitmap[..], lists);
      var m := plan.mispredict;
      if h.Some? {
        m := Some(Misprediction(txnId, h.value));
      }
      plan.SetGraph(graph, graph.maxRounds, m);
    }

    /**
     * The statement loop of plan(): place statements 0, 1, ... in order
     * and record each placement in the plan, stopping at the first
     * statement that raises; the misprediction histogram is collected on
     * the way.
     */
    method PlaceBatch(plan: BatchPlan, base: int, batchArgs: seq<ParamSet>, predict: bool)
      returns (failed: Option<PlanError>, mispredictH: Option<multiset<int>>)
      requires MemoValid() && plan.Valid() && plan.capacity == |stmts|
      requires forall i :: 0 <= i < |stmts| ==> OrderingsCovered(stmts[i])
      modifies this`sortedSingle, this`sortedMulti, plan, plan.bitmap
      ensures MemoValid() && plan.Valid()
      ensures plan.Header() == old(plan.Header()) && plan.batchArgs == old(plan.batchArgs)
      ensures plan.mispredict == old(plan.mispredict) && plan.ftasks == old(plan.ftasks)
      ensures var placed := PlaceAll(stmts, batchArgs, base, numPartitions, predict, estimator,
                                     old(plan.fragPartitions), old(plan.stmtPartitions), |stmts|);
        && (placed.Err? <==> failed.Some?)
        && (placed.Err? ==> failed == Some(placed.error))
        && (placed.Ok? ==> Progress(plan.Recorded(), old(plan.Recorded()), base, batchArgs, predict, |stmts|, placed.value, mispredictH))
        && (placed.Ok? ==> ListsHaveEntries(plan.fragList, plan.fragPartitions))
    {
      ghost var st0 := plan.Recorded();
      mispredictH := None;
      ghost var ps: seq<Placement> := [];
      for i := 0 to |stmts|
        invariant MemoValid() && plan.Valid()
        invariant plan.Header() == old(plan.Header()) && plan.batchArgs == old(plan.batchArgs)
        invariant plan.mispredict == old(plan.mispredict) && plan.ftasks == old(plan.ftasks)
        invariant Progress(plan.Recorded(), st0, base, batchArgs, predict, i, ps, mispredictH)
      {
        var f, h, ps' := PlanStatement(plan, i, base, batchArgs, predict, mispredictH, ps, st0);
        if f.Some? {
          return f, mispredictH;
        }
        mispredictH, ps := h, ps';
      }
      failed := None;
      RecordedListsHaveEntries(stmts, batchArgs, base, numPartitions, predict, estimator, ps,
                               plan.fragPartitions, plan.stmtPartitions, plan.fragList, plan.bitmap[..],
                               st0.fragPartitions, st0.stmtPartitions, st0.fragList, st0.bitmap);
    }

    /**
     * The statement loop's state after statements 0..i-1 placed: their
     * placements, recorded in the plan and folded into the flags and the
     * histogram.
     */
    ghost predicate Progress(st: PlanRecord, st0: PlanRecord, base: int, batchArgs: seq<ParamSet>, predict: bool,
                             i: nat, ps: seq<Placement>, h: Option<multiset<int>>)
    {
      && RecordedUpTo(stmts, ps, i, st.fragPartitions, st.stmtPartitions, st.fragList, st.bitmap,
                      st0.fragPartitions, st0.stmtPartitions, st0.fragList, st0.bitmap)
      && PlaceAll(stmts, batchArgs, base, numPartitions, predict, estimator, st0.fragPartitions, st0.stmtPartitions, i) == Ok(ps)
      && FlagsAfter(stmts, ps, i, st0.flags, st.flags)
      && h == HistogramUpTo(stmts, ps, i)
    }

    /**
     * One iteration of the statement loop: statement i's arguments are
     * looked up and it is placed; a statement that raises stops the loop,
     * otherwise its placement is recorded in the plan and a mispredicted
     * statement updates the histogram.
     */
    method PlanStatement(plan: BatchPlan, i: nat, base: int, batchArgs: seq<ParamSet>, predict: bool,
                         h: Option<multiset<int>>, ghost ps: seq<Placement>, ghost st0: PlanRecord)
      returns (failed: Option<PlanError>, h': Option<multiset<int>>, ghost ps': seq<Placement>)
      requires MemoValid() && plan.Valid() && plan.capacity == |stmts| && i < |stmts|
      requires Progress(plan.Recorded(), st0, base, batchArgs, predict, i, ps, h)
      modifies this`sortedSingle, this`sortedMulti, plan, plan.bitmap
      ensures MemoValid() && plan.Valid()
      ensures plan.Header() == old(plan.Header()) && plan.batchArgs == old(plan.batchArgs)
      ensures plan.mispredict == old(plan.mispredict) && plan.ftasks == old(plan.ftasks)
      ensures failed.Some? ==>
        PlaceAll(stmts, batchArgs, base, numPartitions, predict, estimator, st0.fragPartitions, st0.stmtPartitions, |stmts|) == Err(failed.value)
      ensures failed.None? ==> Progress(plan.Recorded(), st0, base, batchArgs, predict, i + 1, ps', h')
    {
      PlaceAllStep(stmts, batchArgs, base, numPartitions, predict, estimator, st0.fragPartitions, st0.stmtPartitions, i, ps);
      h', ps' := h, ps;
      if i >= |batchArgs| {
        // batchArgs[stmt_index] is out of bounds
        failed := Some(ArgumentsMissing(i));
        PlaceAllErrPersists(stmts, batchArgs, base, numPartitions, predict, estimator, st0.fragPartitions, st0.stmtPartitions, i + 1, |stmts|);
        return;
      }
      var st := stmts[i];
      var placed := PlaceStatement(st, batchArgs[i], base, predict, plan.fragPartitions[i], plan.stmtPartitions[i]);
      if placed.None? {
        failed := Some(EstimationFailed(i));
        PlaceAllErrPersists(stmts, batchArgs, base, numPartitions, predict, estimator, st0.fragPartitions, st0.stmtPartitions, i + 1, |stmts|);
        return;
      }
      assert placed == Place(stmts[i], batchArgs[i], base, numPartitions, predict, estimator, st0.fragPartitions[i], st0.stmtPartitions[i]);
      h', ps' := CommitPlacement(plan, i, placed.value, base, batchArgs, predict, h, ps, st0);
      failed := None;
    }

    /**
     * The rest of an iteration for a statement that placed: its ordering is
     * looked up, the placement is recorded, and a mispredicted statement
     * updates the histogram.
     */
    method CommitPlacement(plan: BatchPlan, i: nat, pl: Placement, base: int, batchArgs: seq<ParamSet>, predict: bool,
                           h: Option<multiset<int>>, ghost ps: seq<Placement>, ghost st0: PlanRecord)
      returns (h': Option<multiset<int>>, ghost ps': seq<Placement>)
      requires MemoValid() && plan.Valid() && plan.capacity == |stmts| && i < |stmts|
      requires Progress(plan.Recorded(), st0, base, batchArgs, predict, i, ps, h)
      requires PlaceAll(stmts, batchArgs, base, numPartitions, predict, estimator, st0.fragPartitions, st0.stmtPartitions, i + 1) == Ok(ps + [pl])
      modifies this`sortedSingle, this`sortedMulti, plan, plan.bitmap
      ensures MemoValid() && plan.Valid()
      ensures plan.Header() == old(plan.Header()) && plan.batchArgs == old(plan.batchArgs)
      ensures plan.mispredict == old(plan.mispredict) && plan.ftasks == old(plan.ftasks)
      ensures ps' == ps + [pl]
      ensures Progress(plan.Recorded(), st0, base, batchArgs, predict, i + 1, ps', h')
    {
      var sorted := SortedFragments(i, pl.single);
      RecordPlacement(plan, i, pl, sorted, ps, st0.fragPartitions, st0.stmtPartitions, st0.fragList, st0.bitmap, st0.flags);
      HistogramOfPrefix(stmts, ps, ps + [pl], i);
      ps' := ps + [pl];
      h' := h;
      if pl.mispredict {
        h' := AddMispredicted(plan, i, h, ps');
      }
    }

    /**
     * The writes of the statement loop for a placed statement i: its maps,
     * its ordering and its bitmap bit go into the plan, and the batch flags
     * take in its read-only flag, locality and final choice.
     */
    method RecordPlacement(plan: BatchPlan, i: nat, pl: Placement, sorted: seq<Fragment>, ghost ps: seq<Placement>,
                           ghost fps0: seq<map<Fragment, PartitionSetRef>>, ghost sps0: seq<set<int>>,
                           ghost fl0: seq<Option<seq<Fragment>>>, ghost bits0: seq<bool>,
                           ghost flags0: (bool, bool, bool, bool))
      requires plan.Valid() && plan.capacity == |stmts| && i < |stmts| && sorted == SortedFor(stmts[i], pl.single)
      requires RecordedUpTo(stmts, ps, i, plan.fragPartitions, plan.stmtPartitions, plan.fragList, plan.bitmap[..],
                            fps0, sps0, fl0, bits0)
      requires FlagsAfter(stmts, ps, i, flags0, plan.Flags())
      modifies plan, plan.bitmap
      ensures plan.Valid()
      ensures plan.Header() == old(plan.Header()) && plan.batchArgs == old(plan.batchArgs)
      ensures plan.mispredict == old(plan.mispredict) && plan.ftasks == old(plan.ftasks)
      ensures RecordedUpTo(stmts, ps + [pl], i + 1, plan.fragPartitions, plan.stmtPartitions, plan.fragList, plan.bitmap[..],
                           fps0, sps0, fl0, bits0)
      ensures FlagsAfter(stmts, ps + [pl], i + 1, flags0, plan.Flags())
    {
      RecordedStep(stmts, ps, pl, i, plan.fragPartitions, plan.stmtPartitions, plan.fragList, plan.bitmap[..],
                   fps0, sps0, fl0, bits0);
      FlagsStep(stmts, ps, pl, i, flags0, plan.Flags());
      plan.Record(i, pl.fragParts, pl.stmtParts, sorted);
      plan.MarkSingle(i, pl.single);
      plan.AndFlags(stmts[i].readOnly, pl.single, pl.local);
    }
  }
}
