/**
 * PlanGraph: the fragment dependency graph of one batch shape, its
 * output-id cross reference, and buildPlanGraph, which lays out one chain
 * of vertices per statement and links every consumer to its producer.
 */
module PlanGraphs {
  import opened Catalog
  import opened PlanVertices
  import opened DependencyIds

  /** PlanEdge: from a consumer vertex to a producer of its input dependency, labelled with that id. */
  datatype PlanEdge = PlanEdge(consumer: PlanVertex, producer: PlanVertex, depId: int)

  // ---------------------------------------------------------------------
  // Hash-set behaviour under PlanVertex.equals
  // ---------------------------------------------------------------------

  /** The set already holds a vertex equal (by packed hash code) to v. */
  predicate HasEqual(s: set<PlanVertex>, v: PlanVertex)
  {
    exists u :: u in s && SameVertex(u, v)
  }

  /** HashSet.add / graph addVertex: v goes in unless an equal vertex is there already. */
  function AddIfAbsent(s: set<PlanVertex>, v: PlanVertex): (r: set<PlanVertex>)
    ensures HasEqual(r, v)
    ensures s <= r <= s + {v}
  {
    assert SameVertex(v, v);
    if HasEqual(s, v) then s else s + {v}
  }

  /** PlanGraph.addVertex's effect on the xref: create the bucket for v's output id if missing, then add v. */
  function XrefAdd(xref: map<int, set<PlanVertex>>, v: PlanVertex): (r: map<int, set<PlanVertex>>)
  {
    var bucket := if v.outputId in xref then xref[v.outputId] else {};
    xref[v.outputId := AddIfAbsent(bucket, v)]
  }

  /** The vertex set after adding vs[0], ..., vs[n-1] in order to s0. */
  function AddUpTo(s0: set<PlanVertex>, vs: seq<PlanVertex>, n: nat): set<PlanVertex>
    requires n <= |vs|
  {
    if n == 0 then s0 else AddIfAbsent(AddUpTo(s0, vs, n - 1), vs[n - 1])
  }

  /** The xref after adding vs[0], ..., vs[n-1] in order to x0. */
  function XrefUpTo(x0: map<int, set<PlanVertex>>, vs: seq<PlanVertex>, n: nat): map<int, set<PlanVertex>>
    requires n <= |vs|
  {
    if n == 0 then x0 else XrefAdd(XrefUpTo(x0, vs, n - 1), vs[n - 1])
  }

  function AddAll(s0: set<PlanVertex>, vs: seq<PlanVertex>): set<PlanVertex>
  {
    AddUpTo(s0, vs, |vs|)
  }

  function XrefAddAll(x0: map<int, set<PlanVertex>>, vs: seq<PlanVertex>): map<int, set<PlanVertex>>
  {
    XrefUpTo(x0, vs, |vs|)
  }

  /** The vertex set of a graph built from nothing by adding vs in order. */
  function Collect(vs: seq<PlanVertex>): set<PlanVertex>
  {
    AddAll({}, vs)
  }

  /** The xref of a graph built from nothing by adding vs in order. */
  function CollectXref(vs: seq<PlanVertex>): map<int, set<PlanVertex>>
  {
    XrefAddAll(map[], vs)
  }

  /**
   * The edges the edge-setup loop of buildPlanGraph creates: one from each
   * vertex with an input dependency to each vertex the xref lists under
   * that id.
   */
  function EdgesOf(vs: set<PlanVertex>, xref: map<int, set<PlanVertex>>): set<PlanEdge>
  {
    set v0, v1 | v0 in vs && v0.inputId != NULL_DEPENDENCY_ID && v0.inputId in xref && v1 in xref[v0.inputId]
      :: PlanEdge(v0, v1, v0.inputId)
  }

  // ---------------------------------------------------------------------
  // The layout buildPlanGraph produces
  // ---------------------------------------------------------------------

  /** The vertex for round `round` of statement `stmt` when round 0 received output id `first`. */
  function ChainVertex(frag: Fragment, stmt: int, round: int, first: int): PlanVertex
  {
    NewVertex(frag, stmt, round, if round == 0 then NULL_DEPENDENCY_ID else first + round - 1, first + round)
  }

  /** One statement's chain: round k consumes round k-1's output. */
  function Chain(frags: seq<Fragment>, stmt: int, first: int): (c: seq<PlanVertex>)
    ensures |c| == |frags|
  {
    seq(|frags|, k requires 0 <= k < |frags| => ChainVertex(frags[k], stmt, k, first))
  }

  /** Total number of fragments over all statements. */
  function TotalLen(lists: seq<seq<Fragment>>): nat
  {
    if lists == [] then 0 else TotalLen(lists[..|lists| - 1]) + |lists[|lists| - 1]|
  }

  /** Length of the longest fragment list (max_rounds). */
  function MaxLen(lists: seq<seq<Fragment>>): nat
  {
    if lists == [] then 0
    else
      var m := MaxLen(lists[..|lists| - 1]);
      if |lists[|lists| - 1]| > m then |lists[|lists| - 1]| else m
  }

  /**
   * sorted_vertices: the chains of all statements in statement order, ids
   * handed out consecutively from `first`.
   */
  function Layout(lists: seq<seq<Fragment>>, first: int): (l: seq<PlanVertex>)
    ensures |l| == TotalLen(lists)
  {
    if lists == [] then []
    else
      var n := |lists| - 1;
      Layout(lists[..n], first) + Chain(lists[n], n, first + TotalLen(lists[..n]))
  }

  function FragmentIdColumn(vs: seq<PlanVertex>): seq<int>
  {
    seq(|vs|, i requires 0 <= i < |vs| => vs[i].frag.id)
  }

  function InputIdColumn(vs: seq<PlanVertex>): seq<int>
  {
    seq(|vs|, i requires 0 <= i < |vs| => vs[i].inputId)
  }

  function OutputIdColumn(vs: seq<PlanVertex>): seq<int>
  {
    seq(|vs|, i requires 0 <= i < |vs| => vs[i].outputId)
  }

  /** The bounds the catalog and the batch limits put on fragment lists. */
  predicate ListsInRange(lists: seq<seq<Fragment>>)
  {
    && |lists| <= MAX_BATCH_SIZE
    && forall s :: 0 <= s < |lists| ==> |lists[s]| <= MAX_ROUND_SIZE && FragmentIdsInRange(lists[s])
  }

  // ---------------------------------------------------------------------
  // The graph object
  // ---------------------------------------------------------------------

  class PlanGraph {
    var vertices: set<PlanVertex>
    var edges: set<PlanEdge>
    /** output_dependency_xref: output id -> the vertices producing it. */
    var xref: map<int, set<PlanVertex>>
    var maxRounds: int
    /** The flattened single-partition projection, one entry per sorted vertex. */
    var fragmentIds: array<int>
    var inputIds: array<int>
    var outputIds: array<int>

    /** An empty graph; the projection arrays are empty until buildPlanGraph fills them. */
    constructor ()
      ensures vertices == {} && edges == {} && xref == map[] && maxRounds == 0
      ensures fragmentIds.Length == 0 && inputIds.Length == 0 && outputIds.Length == 0
    {
      vertices, edges, xref, maxRounds := {}, {}, map[], 0;
      fragmentIds := new int[0];
      inputIds := new int[0];
      outputIds := new int[0];
    }

    /**
     * addVertex: record v under its output id in the xref, and add it to the
     * vertex set; the answer tells whether the vertex set changed.
     */
    method AddVertex(v: PlanVertex) returns (added: bool)
      modifies this
      ensures added <==> !HasEqual(old(vertices), v)
      ensures vertices == AddIfAbsent(old(vertices), v)
      ensures xref == XrefAdd(old(xref), v)
      ensures edges == old(edges) && maxRounds == old(maxRounds)
      ensures Projection() == old(Projection())
    {
      var bucket := if v.outputId in xref then xref[v.outputId] else {};
      xref := xref[v.outputId := AddIfAbsent(bucket, v)];
      added := !HasEqual(vertices, v);
      vertices := AddIfAbsent(vertices, v);
    }

    /** findEdgeSet(v0, v1) is non-empty: some edge already links consumer v0 to producer v1. */
    predicate HasEdge(v0: PlanVertex, v1: PlanVertex)
      reads this
    {
      exists e :: e in edges && e.consumer == v0 && e.producer == v1
    }

    /** addEdge: one edge more; nothing else about the graph changes. */
    method AddEdge(e: PlanEdge)
      modifies this
      ensures edges == old(edges) + {e}
      ensures NonEdges() == old(NonEdges())
    {
      edges := edges + {e};
    }

    /** The single-partition projection arrays. */
    ghost function Projection(): (array<int>, array<int>, array<int>)
      reads this
    {
      (fragmentIds, inputIds, outputIds)
    }

    /** Everything about the graph except its edges. */
    ghost function NonEdges(): (set<PlanVertex>, map<int, set<PlanVertex>>, int, array<int>, array<int>, array<int>)
      reads this
    {
      (vertices, xref, maxRounds, fragmentIds, inputIds, outputIds)
    }

    /** The graph's vertices, edges, xref and round count, as a value. */
    ghost function Snapshot(): GraphValue
      reads this
    {
      GraphValue(vertices, edges, xref, maxRounds)
    }

    /** What buildPlanGraph leaves behind for fragment lists `lists` with the counter at `first`. */
    ghost predicate Built(lists: seq<seq<Fragment>>, first: int)
      reads this, fragmentIds, inputIds, outputIds
    {
      var l := Layout(lists, first);
      && Snapshot() == BuiltGraph(lists, first)
      && fragmentIds[..] == FragmentIdColumn(l)
      && inputIds[..] == InputIdColumn(l)
      && outputIds[..] == OutputIdColumn(l)
    }
  }

  /** A plan graph's vertices, edges, xref and round count. */
  datatype GraphValue = GraphValue(
    vertices: set<PlanVertex>, edges: set<PlanEdge>, xref: map<int, set<PlanVertex>>, maxRounds: int)

  /** The graph buildPlanGraph builds for fragment lists `lists` with the counter at `first`. */
  function BuiltGraph(lists: seq<seq<Fragment>>, first: int): GraphValue
  {
    var l := Layout(lists, first);
    var vs := Collect(l);
    var x := CollectXref(l);
    GraphValue(vs, EdgesOf(vs, x), x, MaxLen(lists))
  }

  /**
   * buildPlanGraph: one vertex per (statement, round) with a fresh output
   * id, chained inputs, consumer-to-producer edges, and the projection of
   * the vertices in comparator order.
   */
  method BuildPlanGraph(lists: seq<seq<Fragment>>, counter: DependencyIdAllocator) returns (graph: PlanGraph)
    requires counter.Valid()
    modifies counter
    ensures fresh(graph) && fresh(graph.fragmentIds) && fresh(graph.inputIds) && fresh(graph.outputIds)
    ensures counter.Valid() && counter.next == old(counter.next) + TotalLen(lists)
    ensures graph.Built(lists, old(counter.next))
  {
    graph := new PlanGraph();
    ghost var first := counter.next;
    var sorted := AddChains(graph, lists, counter);
    LayoutInputsProduced(lists, first);
    SetupEdges(graph);
    // Collections.sort leaves sorted_vertices as it is: the list is already
    // in comparator order (LayoutSorted) and the sort is stable.
    FillProjection(graph, sorted);
  }

  /** The statement loop of buildPlanGraph: each statement's chain, ids from the counter. */
  method AddChains(graph: PlanGraph, lists: seq<seq<Fragment>>, counter: DependencyIdAllocator)
    returns (sorted: seq<PlanVertex>)
    requires counter.Valid()
    requires graph.vertices == {} && graph.xref == map[] && graph.edges == {} && graph.maxRounds == 0
    modifies graph, counter
    ensures counter.Valid() && counter.next == old(counter.next) + TotalLen(lists)
    ensures sorted == Layout(lists, old(counter.next))
    ensures graph.vertices == Collect(sorted) && graph.xref == CollectXref(sorted)
    ensures graph.edges == {} && graph.maxRounds == MaxLen(lists)
    ensures graph.Projection() == old(graph.Projection())
  {
    ghost var first := counter.next;
    ghost var proj := graph.Projection();
    sorted := [];
    var stmt := 0;
    while stmt < |lists|
      invariant 0 <= stmt <= |lists|
      invariant ChainsUpTo(graph, counter, lists, stmt, first, sorted, proj)
    {
      sorted := AddStatement(graph, counter, lists, stmt, first, sorted, proj);
      stmt := stmt + 1;
    }
    assert lists[..stmt] == lists;
  }

  /** What the statement loop has built after the first stmt statements. */
  ghost predicate ChainsUpTo(graph: PlanGraph, counter: DependencyIdAllocator, lists: seq<seq<Fragment>>,
                             stmt: nat, first: int, sorted: seq<PlanVertex>,
                             proj: (array<int>, array<int>, array<int>))
    requires stmt <= |lists|
    reads graph, counter
  {
    && counter.Valid()
    && sorted == Layout(lists[..stmt], first)
    && counter.next == first + |sorted|
    && graph.vertices == Collect(sorted) && graph.xref == CollectXref(sorted)
    && graph.edges == {} && graph.maxRounds == MaxLen(lists[..stmt])
    && graph.Projection() == proj
  }

  /** One iteration of the statement loop: statement stmt's chain is laid out after the others. */
  method AddStatement(graph: PlanGraph, counter: DependencyIdAllocator, lists: seq<seq<Fragment>>,
                      stmt: nat, ghost first: int, sorted: seq<PlanVertex>,
                      ghost proj: (array<int>, array<int>, array<int>))
    returns (sorted': seq<PlanVertex>)
    requires stmt < |lists|
    requires ChainsUpTo(graph, counter, lists, stmt, first, sorted, proj)
    modifies graph, counter
    ensures ChainsUpTo(graph, counter, lists, stmt + 1, first, sorted', proj)
  {
    var fragments := lists[stmt];
    graph.maxRounds := if |fragments| > graph.maxRounds then |fragments| else graph.maxRounds;
    PrefixSnoc(lists, stmt, first, counter.next);
    var chain := AddChain(graph, counter, fragments, stmt);
    AddAllAppend({}, map[], sorted, chain);
    sorted' := sorted + chain;
  }

  /** One more statement extends the layout by its chain and may raise the longest length. */
  lemma PrefixSnoc(lists: seq<seq<Fragment>>, stmt: nat, first: int, start: int)
    requires stmt < |lists| && start == first + |Layout(lists[..stmt], first)|
    ensures Layout(lists[..stmt + 1], first) == Layout(lists[..stmt], first) + Chain(lists[stmt], stmt, start)
    ensures MaxLen(lists[..stmt + 1]) == if |lists[stmt]| > MaxLen(lists[..stmt]) then |lists[stmt]| else MaxLen(lists[..stmt])
  {
    assert lists[..stmt + 1][..stmt] == lists[..stmt];
    assert lists[..stmt + 1][stmt] == lists[stmt];
  }

  /** The round loop of buildPlanGraph for one statement: round k consumes round k-1's output. */
  method AddChain(graph: PlanGraph, counter: DependencyIdAllocator, fragments: seq<Fragment>, stmt: int)
    returns (chain: seq<PlanVertex>)
    requires counter.Valid()
    modifies graph, counter
    ensures counter.Valid() && counter.next == old(counter.next) + |fragments|
    ensures chain == Chain(fragments, stmt, old(counter.next))
    ensures graph.vertices == AddAll(old(graph.vertices), chain)
    ensures graph.xref == XrefAddAll(old(graph.xref), chain)
    ensures graph.edges == old(graph.edges) && graph.maxRounds == old(graph.maxRounds)
    ensures graph.Projection() == old(graph.Projection())
  {
    ghost var base := counter.next;
    chain := [];
    var lastOutputId := NULL_DEPENDENCY_ID;
    var round := 0;
    while round < |fragments|
      invariant 0 <= round <= |fragments|
      invariant counter.Valid() && counter.next == base + round
      invariant |chain| == round
      invariant forall k :: 0 <= k < round ==> chain[k] == ChainVertex(fragments[k], stmt, k, base)
      invariant lastOutputId == if round == 0 then NULL_DEPENDENCY_ID else base + round - 1
      invariant graph.vertices == AddAll(old(graph.vertices), chain)
      invariant graph.xref == XrefAddAll(old(graph.xref), chain)
      invariant graph.edges == old(graph.edges) && graph.maxRounds == old(graph.maxRounds)
      invariant graph.Projection() == old(graph.Projection())
    {
      var outputId := counter.GetAndIncrement();
      var v := NewVertex(fragments[round], stmt, round, lastOutputId, outputId);
      var _ := graph.AddVertex(v);
      AddAllSnoc(old(graph.vertices), old(graph.xref), chain, v);
      chain := chain + [v];
      lastOutputId := outputId;
      round := round + 1;
    }
    assert chain == Chain(fragments, stmt, base);
  }

  /** The edge loop of buildPlanGraph: each vertex with an input links to every producer of that id. */
  method SetupEdges(graph: PlanGraph)
    requires InputsProduced(graph.vertices, graph.xref)
    requires graph.edges == {}
    modifies graph
    ensures graph.edges == EdgesOf(graph.vertices, graph.xref)
    ensures graph.NonEdges() == old(graph.NonEdges())
  {
    var todo := graph.vertices;
    while todo != {}
      invariant todo <= graph.vertices
      invariant graph.edges == EdgesOf(graph.vertices - todo, graph.xref)
      invariant graph.NonEdges() == old(graph.NonEdges())
      decreases |todo|
    {
      var v0 :| v0 in todo;
      ghost var done := graph.vertices - todo;
      if v0.inputId != NULL_DEPENDENCY_ID {
        AddEdgesFrom(graph, v0, done);
      } else {
        EdgesOfAdd(done, v0, graph.xref);
      }
      todo := todo - {v0};
      assert graph.vertices - todo == done + {v0};
    }
    assert graph.vertices - todo == graph.vertices;
  }

  /** The inner edge loop: an edge from v0 to each producer of its input, unless one is there already. */
  method AddEdgesFrom(graph: PlanGraph, v0: PlanVertex, ghost done: set<PlanVertex>)
    requires v0 !in done && v0.inputId != NULL_DEPENDENCY_ID && v0.inputId in graph.xref
    requires graph.edges == EdgesOf(done, graph.xref)
    modifies graph
    ensures graph.edges == EdgesOf(done + {v0}, graph.xref)
    ensures graph.NonEdges() == old(graph.NonEdges())
  {
    var producers := graph.xref[v0.inputId];
    var rest := producers;
    while rest != {}
      invariant rest <= producers
      invariant graph.edges == EdgesOf(done, graph.xref) + (set v1 | v1 in producers - rest :: PlanEdge(v0, v1, v0.inputId))
      invariant graph.NonEdges() == old(graph.NonEdges())
      decreases |rest|
    {
      var v1 :| v1 in rest;
      // An edge v0 -> v1 can only come from this loop, which meets v1 once.
      if !graph.HasEdge(v0, v1) {
        graph.AddEdge(PlanEdge(v0, v1, v0.inputId));
      }
      rest := rest - {v1};
    }
    assert producers - rest == producers;
    EdgesOfAdd(done, v0, graph.xref);
  }

  /** Every vertex that consumes an id finds a producer of it in the xref. */
  predicate InputsProduced(vertices: set<PlanVertex>, xref: map<int, set<PlanVertex>>)
  {
    forall v :: v in vertices && v.inputId != NULL_DEPENDENCY_ID ==> v.inputId in xref
  }

  /** A laid-out graph has a producer for every input. */
  lemma LayoutInputsProduced(lists: seq<seq<Fragment>>, first: int)
    requires first >= 0
    ensures InputsProduced(Collect(Layout(lists, first)), CollectXref(Layout(lists, first)))
  {
    forall v | v in Collect(Layout(lists, first)) && v.inputId != NULL_DEPENDENCY_ID
      ensures v.inputId in CollectXref(Layout(lists, first))
    {
      InputHasProducer(lists, first, v);
    }
  }

  /** Every input id of a laid-out vertex is the output of some earlier vertex, so it is an xref key. */
  lemma InputHasProducer(lists: seq<seq<Fragment>>, first: int, v0: PlanVertex)
    requires first >= 0
    requires v0 in Collect(Layout(lists, first)) && v0.inputId != NULL_DEPENDENCY_ID
    ensures v0.inputId in CollectXref(Layout(lists, first))
  {
    var sorted := Layout(lists, first);
    LayoutChaining(lists, first);
    CollectWithin(sorted);
    CollectXrefWithin(sorted);
    var i :| 0 <= i < |sorted| && sorted[i] == v0;
    LayoutAt(lists, first);
    assert PlacedAt(lists, first, sorted[i], i);
    assert v0.inputId == sorted[i - 1].outputId;
  }

  /** The projection loop of buildPlanGraph: column i describes sorted vertex i. */
  method FillProjection(graph: PlanGraph, sorted: seq<PlanVertex>)
    modifies graph
    ensures fresh(graph.fragmentIds) && fresh(graph.inputIds) && fresh(graph.outputIds)
    ensures graph.fragmentIds[..] == FragmentIdColumn(sorted)
    ensures graph.inputIds[..] == InputIdColumn(sorted)
    ensures graph.outputIds[..] == OutputIdColumn(sorted)
    ensures graph.vertices == old(graph.vertices) && graph.xref == old(graph.xref)
    ensures graph.edges == old(graph.edges) && graph.maxRounds == old(graph.maxRounds)
  {
    var n := |sorted|;
    var fragmentIds := new int[n];
    var inputIds := new int[n];
    var outputIds := new int[n];
    for i := 0 to n
      modifies fragmentIds, inputIds, outputIds
      invariant forall k :: 0 <= k < i ==> fragmentIds[k] == sorted[k].frag.id
      invariant forall k :: 0 <= k < i ==> inputIds[k] == sorted[k].inputId
      invariant forall k :: 0 <= k < i ==> outputIds[k] == sorted[k].outputId
    {
      fragmentIds[i] := sorted[i].frag.id;
      outputIds[i] := sorted[i].outputId;
      inputIds[i] := sorted[i].inputId;
    }
    graph.fragmentIds, graph.inputIds, graph.outputIds := fragmentIds, inputIds, outputIds;
    assert fragmentIds[..] == FragmentIdColumn(sorted);
    assert inputIds[..] == InputIdColumn(sorted);
    assert outputIds[..] == OutputIdColumn(sorted);
  }

  // ---------------------------------------------------------------------
  // Lemmas
  // ---------------------------------------------------------------------

  /** Adding a prefix depends only on the prefix. */
  lemma {:induction false} UpToAgree(s0: set<PlanVertex>, x0: map<int, set<PlanVertex>>, vs: seq<PlanVertex>, ws: seq<PlanVertex>, n: nat)
    requires n <= |vs| && n <= |ws|
    requires forall k :: 0 <= k < n ==> vs[k] == ws[k]
    ensures AddUpTo(s0, vs, n) == AddUpTo(s0, ws, n)
    ensures XrefUpTo(x0, vs, n) == XrefUpTo(x0, ws, n)
  {
    AddUpToAgree(s0, vs, ws, n);
    XrefUpToAgree(x0, vs, ws, n);
  }

  lemma {:induction false} AddUpToAgree(s0: set<PlanVertex>, vs: seq<PlanVertex>, ws: seq<PlanVertex>, n: nat)
    requires n <= |vs| && n <= |ws|
    requires forall k :: 0 <= k < n ==> vs[k] == ws[k]
    ensures AddUpTo(s0, vs, n) == AddUpTo(s0, ws, n)
  {
    if n > 0 {
      AddUpToAgree(s0, vs, ws, n - 1);
    }
  }

  lemma {:induction false} XrefUpToAgree(x0: map<int, set<PlanVertex>>, vs: seq<PlanVertex>, ws: seq<PlanVertex>, n: nat)
    requires n <= |vs| && n <= |ws|
    requires forall k :: 0 <= k < n ==> vs[k] == ws[k]
    ensures XrefUpTo(x0, vs, n) == XrefUpTo(x0, ws, n)
  {
    if n > 0 {
      XrefUpToAgree(x0, vs, ws, n - 1);
    }
  }

  /** Adding one more vertex at the end of the list adds it to the vertex set and the xref. */
  lemma AddAllSnoc(s0: set<PlanVertex>, x0: map<int, set<PlanVertex>>, vs: seq<PlanVertex>, v: PlanVertex)
    ensures AddAll(s0, vs + [v]) == AddIfAbsent(AddAll(s0, vs), v)
    ensures XrefAddAll(x0, vs + [v]) == XrefAdd(XrefAddAll(x0, vs), v)
  {
    UpToAgree(s0, x0, vs + [v], vs, |vs|);
  }

  lemma UpToAppend(s0: set<PlanVertex>, x0: map<int, set<PlanVertex>>, a: seq<PlanVertex>, b: seq<PlanVertex>, k: nat)
    requires k <= |b|
    ensures AddUpTo(s0, a + b, |a| + k) == AddUpTo(AddAll(s0, a), b, k)
    ensures XrefUpTo(x0, a + b, |a| + k) == XrefUpTo(XrefAddAll(x0, a), b, k)
  {
    AddUpToAppend(s0, a, b, k);
    XrefUpToAppend(x0, a, b, k);
  }

  lemma {:induction false} AddUpToAppend(s0: set<PlanVertex>, a: seq<PlanVertex>, b: seq<PlanVertex>, k: nat)
    requires k <= |b|
    ensures AddUpTo(s0, a + b, |a| + k) == AddUpTo(AddAll(s0, a), b, k)
  {
    if k == 0 {
      AddUpToAgree(s0, a + b, a, |a|);
    } else {
      AddUpToAppend(s0, a, b, k - 1);
      assert (a + b)[|a| + k - 1] == b[k - 1];
    }
  }

  lemma {:induction false} XrefUpToAppend(x0: map<int, set<PlanVertex>>, a: seq<PlanVertex>, b: seq<PlanVertex>, k: nat)
    requires k <= |b|
    ensures XrefUpTo(x0, a + b, |a| + k) == XrefUpTo(XrefAddAll(x0, a), b, k)
  {
    if k == 0 {
      XrefUpToAgree(x0, a + b, a, |a|);
    } else {
      XrefUpToAppend(x0, a, b, k - 1);
      assert (a + b)[|a| + k - 1] == b[k - 1];
    }
  }

  /** Adding a + b is adding a, then b. */
  lemma AddAllAppend(s0: set<PlanVertex>, x0: map<int, set<PlanVertex>>, a: seq<PlanVertex>, b: seq<PlanVertex>)
    ensures AddAll(s0, a + b) == AddAll(AddAll(s0, a), b)
    ensures XrefAddAll(x0, a + b) == XrefAddAll(XrefAddAll(x0, a), b)
  {
    UpToAppend(s0, x0, a, b, |b|);
  }

  lemma ChainSnoc(frags: seq<Fragment>, r: int, stmt: int, first: int)
    requires 0 <= r < |frags|
    ensures Chain(frags[..r + 1], stmt, first) == Chain(frags[..r], stmt, first) + [ChainVertex(frags[r], stmt, r, first)]
  {
  }

  /** Adding one more visited vertex to the edge loop adds exactly that vertex's edges. */
  lemma EdgesOfAdd(done: set<PlanVertex>, v0: PlanVertex, xref: map<int, set<PlanVertex>>)
    ensures v0.inputId != NULL_DEPENDENCY_ID && v0.inputId in xref ==>
      EdgesOf(done + {v0}, xref) == EdgesOf(done, xref) + (set v1 | v1 in xref[v0.inputId] :: PlanEdge(v0, v1, v0.inputId))
    ensures v0.inputId == NULL_DEPENDENCY_ID ==> EdgesOf(done + {v0}, xref) == EdgesOf(done, xref)
  {
  }

  /** (statement, round) strictly increases along a sequence of vertices. */
  predicate Before(a: PlanVertex, b: PlanVertex)
  {
    a.stmtIndex < b.stmtIndex || (a.stmtIndex == b.stmtIndex && a.round < b.round)
  }

  lemma {:induction false} PrefixLenMono(lists: seq<seq<Fragment>>, a: nat, b: nat)
    requires a <= b <= |lists|
    ensures TotalLen(lists[..a]) <= TotalLen(lists[..b])
    decreases b - a
  {
    if a < b {
      assert lists[..b][..b - 1] == lists[..b - 1];
      PrefixLenMono(lists, a, b - 1);
    }
  }

  /** A statement's chain ends no later than where any later statement's chain starts. */
  lemma OffsetMono(lists: seq<seq<Fragment>>, s1: nat, s2: nat)
    requires s1 < s2 <= |lists|
    ensures TotalLen(lists[..s1]) + |lists[s1]| <= TotalLen(lists[..s2])
  {
    assert lists[..s1 + 1][..s1] == lists[..s1];
    PrefixLenMono(lists, s1 + 1, s2);
  }

  /** Index of round r of statement s in the layout: the fragments of earlier statements, plus r. */
  function Pos(lists: seq<seq<Fragment>>, s: nat, r: int): int
    requires s <= |lists|
  {
    TotalLen(lists[..s]) + r
  }

  /** v, at index i of the layout, is round r of statement s, built from that statement's r-th fragment. */
  ghost predicate PlacedAt(lists: seq<seq<Fragment>>, first: int, v: PlanVertex, i: int)
  {
    && 0 <= v.stmtIndex < |lists| && 0 <= v.round < |lists[v.stmtIndex]|
    && i == Pos(lists, v.stmtIndex, v.round)
    && v == ChainVertex(lists[v.stmtIndex][v.round], v.stmtIndex, v.round, first + Pos(lists, v.stmtIndex, 0))
  }

  /** Statement s's offset is the same in any longer list of statements. */
  lemma PosOfPrefix(lists: seq<seq<Fragment>>, n: nat, s: nat, r: int)
    requires s <= n <= |lists|
    ensures Pos(lists[..n], s, r) == Pos(lists, s, r)
  {
    assert lists[..n][..s] == lists[..s];
  }

  /** Every vertex of the layout is round r of statement s, at s's offset plus r. */
  lemma {:induction false} LayoutAt(lists: seq<seq<Fragment>>, first: int)
    ensures forall i :: 0 <= i < |Layout(lists, first)| ==> PlacedAt(lists, first, Layout(lists, first)[i], i)
  {
    if lists != [] {
      var n := |lists| - 1;
      var p := lists[..n];
      LayoutAt(p, first);
      forall i | 0 <= i < |Layout(lists, first)|
        ensures PlacedAt(lists, first, Layout(lists, first)[i], i)
      {
        LayoutAtStep(lists, first, i);
      }
    }
  }

  /** Indexing the layout: the earlier statements' layout, then the last statement's chain. */
  lemma LayoutIndex(lists: seq<seq<Fragment>>, first: int, i: int)
    requires lists != [] && 0 <= i < |Layout(lists, first)|
    ensures var n := |lists| - 1;
      var lp := Layout(lists[..n], first);
      Layout(lists, first)[i] == if i < |lp| then lp[i] else Chain(lists[n], n, first + TotalLen(lists[..n]))[i - |lp|]
  {
  }

  lemma LayoutAtStep(lists: seq<seq<Fragment>>, first: int, i: int)
    requires lists != [] && 0 <= i < |Layout(lists, first)|
    requires var p := lists[..|lists| - 1];
      forall k :: 0 <= k < |Layout(p, first)| ==> PlacedAt(p, first, Layout(p, first)[k], k)
    ensures PlacedAt(lists, first, Layout(lists, first)[i], i)
  {
    var n := |lists| - 1;
    var p := lists[..n];
    var lp := Layout(p, first);
    LayoutIndex(lists, first, i);
    if i < |lp| {
      assert PlacedAt(p, first, lp[i], i);
      PlacedInPrefix(lists, n, first, lp[i], i);
    } else {
      assert lists[..n] == p;
    }
  }

  lemma PlacedInPrefix(lists: seq<seq<Fragment>>, n: nat, first: int, v: PlanVertex, i: int)
    requires n <= |lists| && PlacedAt(lists[..n], first, v, i)
    ensures PlacedAt(lists, first, v, i)
  {
    PosOfPrefix(lists, n, v.stmtIndex, v.round);
    PosOfPrefix(lists, n, v.stmtIndex, 0);
    assert lists[..n][v.stmtIndex] == lists[v.stmtIndex];
  }

  /** Conversely, round r of statement s is at index s's offset plus r. */
  lemma LayoutPos(lists: seq<seq<Fragment>>, first: int, s: nat, r: int)
    requires s < |lists| && 0 <= r < |lists[s]|
    ensures 0 <= Pos(lists, s, r) < |Layout(lists, first)|
    ensures PlacedAt(lists, first, Layout(lists, first)[Pos(lists, s, r)], Pos(lists, s, r))
  {
    OffsetMono(lists, s, |lists|);
    assert lists[..|lists|] == lists;
    LayoutAt(lists, first);
  }

  /** Along the layout, (statement, round) strictly increases. */
  lemma LayoutOrder(lists: seq<seq<Fragment>>, first: int)
    ensures forall i, j :: 0 <= i < j < |Layout(lists, first)| ==> Before(Layout(lists, first)[i], Layout(lists, first)[j])
  {
    LayoutAt(lists, first);
    var l := Layout(lists, first);
    forall i, j | 0 <= i < j < |l|
      ensures Before(l[i], l[j])
    {
      assert PlacedAt(lists, first, l[i], i) && PlacedAt(lists, first, l[j], j);
      var s1, s2 := l[i].stmtIndex, l[j].stmtIndex;
      if s1 > s2 {
        OffsetMono(lists, s2, s1);
      }
    }
  }

  /**
   * Dependency ids of the layout: outputs are consecutive from `first` (so
   * fresh and increasing); round 0 has no input; every later round consumes
   * the output of the previous round of its own statement.
   */
  lemma LayoutChaining(lists: seq<seq<Fragment>>, first: int)
    requires first >= 0
    ensures IdsChained(Layout(lists, first), first)
  {
    LayoutAt(lists, first);
    var l := Layout(lists, first);
    forall i | 0 <= i < |l|
      ensures l[i].outputId == first + i
      ensures 0 <= l[i].round && (l[i].inputId == NULL_DEPENDENCY_ID <==> l[i].round == 0)
    {
      assert PlacedAt(lists, first, l[i], i);
    }
    forall i | 0 <= i < |l| && l[i].round > 0
      ensures && 0 < i
              && l[i - 1].stmtIndex == l[i].stmtIndex
              && l[i - 1].round + 1 == l[i].round
              && l[i].inputId == l[i - 1].outputId
    {
      assert PlacedAt(lists, first, l[i], i);
      var s, r := l[i].stmtIndex, l[i].round;
      LayoutPos(lists, first, s, r - 1);
    }
  }

  /**
   * Output ids are consecutive from `first`; exactly round 0 has no input;
   * every later round consumes the output of the vertex before it, the
   * previous round of its own statement.
   */
  ghost predicate IdsChained(l: seq<PlanVertex>, first: int)
  {
    && (forall i :: 0 <= i < |l| ==> l[i].outputId == first + i)
    && (forall i :: 0 <= i < |l| ==> 0 <= l[i].round && (l[i].inputId == NULL_DEPENDENCY_ID <==> l[i].round == 0))
    && (forall i :: 0 <= i < |l| && l[i].round > 0 ==>
          && 0 < i
          && l[i - 1].stmtIndex == l[i].stmtIndex
          && l[i - 1].round + 1 == l[i].round
          && l[i].inputId == l[i - 1].outputId)
  }

  lemma {:induction false} AddUpToWithin(vs: seq<PlanVertex>, n: nat)
    requires n <= |vs|
    ensures forall v :: v in AddUpTo({}, vs, n) ==> exists k :: 0 <= k < n && vs[k] == v
  {
    if n > 0 {
      AddUpToWithin(vs, n - 1);
    }
  }

  /** The vertex set holds only listed vertices. */
  lemma CollectWithin(vs: seq<PlanVertex>)
    ensures forall v :: v in Collect(vs) ==> v in vs
  {
    AddUpToWithin(vs, |vs|);
  }

  lemma {:induction false} XrefUpToWithin(vs: seq<PlanVertex>, n: nat)
    requires n <= |vs|
    ensures forall k :: 0 <= k < n ==> vs[k].outputId in XrefUpTo(map[], vs, n)
    ensures forall id, v :: id in XrefUpTo(map[], vs, n) && v in XrefUpTo(map[], vs, n)[id] ==>
      v.outputId == id && exists k :: 0 <= k < n && vs[k] == v
  {
    if n > 0 {
      XrefUpToWithin(vs, n - 1);
      var prev, cur, w := XrefUpTo(map[], vs, n - 1), XrefUpTo(map[], vs, n), vs[n - 1];
      assert cur == XrefAdd(prev, w);
      assert cur.Keys == prev.Keys + {w.outputId};
      forall k | 0 <= k < n
        ensures vs[k].outputId in cur
      {
        if k < n - 1 {
          assert vs[k].outputId in prev;
        }
      }
      forall id: int, v: PlanVertex | id in cur && v in cur[id]
        ensures v.outputId == id && exists k :: 0 <= k < n && vs[k] == v
      {
        if id == w.outputId {
          var bucket := if id in prev then prev[id] else {};
          assert cur[id] == AddIfAbsent(bucket, w);
          if v == w {
            assert vs[n - 1] == v;
          } else {
            assert id in prev && v in prev[id];
            var k :| 0 <= k < n - 1 && vs[k] == v;
            assert 0 <= k < n && vs[k] == v;
          }
        } else {
          assert id in prev && cur[id] == prev[id];
          var k :| 0 <= k < n - 1 && vs[k] == v;
          assert 0 <= k < n && vs[k] == v;
        }
      }
    }
  }

  /** Every output id of the list is a key of the xref, and each key lists only its own producers. */
  lemma CollectXrefWithin(vs: seq<PlanVertex>)
    ensures forall i :: 0 <= i < |vs| ==> vs[i].outputId in CollectXref(vs)
    ensures forall id, v :: id in CollectXref(vs) && v in CollectXref(vs)[id] ==> v in vs && v.outputId == id
  {
    XrefUpToWithin(vs, |vs|);
    forall id, v | id in CollectXref(vs) && v in CollectXref(vs)[id]
      ensures v in vs && v.outputId == id
    {
      var k :| 0 <= k < |vs| && vs[k] == v;
    }
  }

  lemma {:induction false} AddUpToDistinct(vs: seq<PlanVertex>, n: nat)
    requires n <= |vs| && AllInRange(vs)
    requires forall i, j :: 0 <= i < j < |vs| ==> Before(vs[i], vs[j])
    ensures forall v :: v in AddUpTo({}, vs, n) <==> exists k :: 0 <= k < n && vs[k] == v
  {
    if n > 0 {
      AddUpToDistinct(vs, n - 1);
      if HasEqual(AddUpTo({}, vs, n - 1), vs[n - 1]) {
        var u :| u in AddUpTo({}, vs, n - 1) && SameVertex(u, vs[n - 1]);
        var k :| 0 <= k < n - 1 && vs[k] == u;
        assert Before(vs[k], vs[n - 1]);
        SameVertexIffSameKey(u, vs[n - 1]);
        assert false;
      }
    }
  }

  /** In range and in strictly increasing position order, no two vertices are equal, so each is added. */
  lemma CollectDistinct(vs: seq<PlanVertex>)
    requires AllInRange(vs)
    requires forall i, j :: 0 <= i < j < |vs| ==> Before(vs[i], vs[j])
    ensures forall v :: v in Collect(vs) <==> v in vs
  {
    AddUpToDistinct(vs, |vs|);
  }

  lemma {:induction false} XrefUpToDistinct(vs: seq<PlanVertex>, n: nat)
    requires n <= |vs|
    requires forall i, j :: 0 <= i < j < |vs| ==> vs[i].outputId < vs[j].outputId
    ensures forall k :: 0 <= k < n ==>
      vs[k].outputId in XrefUpTo(map[], vs, n) && XrefUpTo(map[], vs, n)[vs[k].outputId] == {vs[k]}
    ensures forall id :: id in XrefUpTo(map[], vs, n) ==> exists k :: 0 <= k < n && vs[k].outputId == id
  {
    if n > 0 {
      XrefUpToDistinct(vs, n - 1);
      var x := XrefUpTo(map[], vs, n - 1);
      if vs[n - 1].outputId in x {
        assert false;
      }
    }
  }

  /** With strictly increasing output ids, each id's xref entry is exactly its one producer. */
  lemma CollectXrefDistinct(vs: seq<PlanVertex>)
    requires forall i, j :: 0 <= i < j < |vs| ==> vs[i].outputId < vs[j].outputId
    ensures forall i :: 0 <= i < |vs| ==> vs[i].outputId in CollectXref(vs) && CollectXref(vs)[vs[i].outputId] == {vs[i]}
    ensures forall id :: id in CollectXref(vs) ==> exists i :: 0 <= i < |vs| && vs[i].outputId == id
  {
    XrefUpToDistinct(vs, |vs|);
  }

  /** max_rounds is the length of the longest fragment list. */
  lemma {:induction false} MaxLenIsLongest(lists: seq<seq<Fragment>>)
    ensures forall s :: 0 <= s < |lists| ==> |lists[s]| <= MaxLen(lists)
    ensures lists != [] ==> exists s :: 0 <= s < |lists| && |lists[s]| == MaxLen(lists)
    ensures lists == [] ==> MaxLen(lists) == 0
  {
    if lists != [] {
      var n := |lists| - 1;
      MaxLenIsLongest(lists[..n]);
      assert forall s :: 0 <= s < n ==> lists[..n][s] == lists[s];
      if |lists[n]| <= MaxLen(lists[..n]) && n > 0 {
        var s :| 0 <= s < n && |lists[..n][s]| == MaxLen(lists[..n]);
        assert |lists[s]| == MaxLen(lists);
      }
    }
  }

  /** Under the catalog's bounds every laid-out vertex keeps its fields apart in the packed hash code. */
  lemma LayoutInRange(lists: seq<seq<Fragment>>, first: int)
    requires ListsInRange(lists)
    ensures AllInRange(Layout(lists, first))
  {
    LayoutAt(lists, first);
    var l := Layout(lists, first);
    forall i | 0 <= i < |l|
      ensures PackingInRange(l[i])
    {
      assert PlacedAt(lists, first, l[i], i);
      assert FragmentIdsInRange(lists[l[i].stmtIndex]);
    }
  }

  /**
   * The vertices buildPlanGraph creates are already in comparator order,
   * strictly increasing in (statement, round, fragment id), so the sort of
   * sorted_vertices returns them as they are (SortOfStrictlySortedIsIdentity).
   */
  lemma LayoutSorted(lists: seq<seq<Fragment>>, first: int)
    requires ListsInRange(lists)
    ensures AllInRange(Layout(lists, first))
    ensures StrictlySorted(Layout(lists, first))
    ensures SortedByComparator(Layout(lists, first))
  {
    LayoutInRange(lists, first);
    LayoutOrder(lists, first);
    var l := Layout(lists, first);
    forall i, j | 0 <= i < j < |l|
      ensures KeyLess(l[i], l[j]) && Compare(l[i], l[j]) <= 0
    {
      assert Before(l[i], l[j]);
      CompareIsLexicographic(l[i], l[j]);
    }
  }

  /** The vertex set as built is exactly the laid-out vertices: no two of them are equal. */
  lemma LayoutVertices(lists: seq<seq<Fragment>>, first: int)
    requires ListsInRange(lists)
    ensures forall v :: v in Collect(Layout(lists, first)) <==> v in Layout(lists, first)
  {
    LayoutInRange(lists, first);
    LayoutOrder(lists, first);
    CollectDistinct(Layout(lists, first));
  }

  /** Each output id's xref entry is its one producer, and there are no other keys. */
  lemma LayoutXref(lists: seq<seq<Fragment>>, first: int)
    requires first >= 0
    ensures forall i :: 0 <= i < |Layout(lists, first)| ==>
      && Layout(lists, first)[i].outputId in CollectXref(Layout(lists, first))
      && CollectXref(Layout(lists, first))[Layout(lists, first)[i].outputId] == {Layout(lists, first)[i]}
    ensures forall id :: id in CollectXref(Layout(lists, first)) ==>
      exists i :: 0 <= i < |Layout(lists, first)| && Layout(lists, first)[i].outputId == id
  {
    var l := Layout(lists, first);
    LayoutChaining(lists, first);
    assert forall i, j :: 0 <= i < j < |l| ==> l[i].outputId < l[j].outputId;
    CollectXrefDistinct(l);
  }

  /**
   * The edges as built: exactly one per vertex past round 0, from it to
   * the previous round of the same statement, labelled with the id that
   * passes between them.
   */
  lemma LayoutEdges(lists: seq<seq<Fragment>>, first: int)
    requires first >= 0 && ListsInRange(lists)
    ensures forall e :: e in EdgesOf(Collect(Layout(lists, first)), CollectXref(Layout(lists, first))) <==>
      exists i :: 0 < i < |Layout(lists, first)| && Layout(lists, first)[i].round > 0 &&
        e == PlanEdge(Layout(lists, first)[i], Layout(lists, first)[i - 1], Layout(lists, first)[i].inputId)
  {
    var l := Layout(lists, first);
    LayoutVertices(lists, first);
    LayoutXref(lists, first);
    LayoutChaining(lists, first);
    var edges := EdgesOf(Collect(l), CollectXref(l));
    forall e | e in edges
      ensures exists i :: 0 < i < |l| && l[i].round > 0 && e == PlanEdge(l[i], l[i - 1], l[i].inputId)
    {
      EdgeOfLayout(l, first, e);
    }
    forall i | 0 < i < |l| && l[i].round > 0
      ensures PlanEdge(l[i], l[i - 1], l[i].inputId) in edges
    {
      assert l[i] in Collect(l);
      assert l[i].inputId == l[i - 1].outputId;
      assert CollectXref(l)[l[i - 1].outputId] == {l[i - 1]};
    }
  }

  /** One built edge, traced back to its consumer's position. */
  lemma EdgeOfLayout(l: seq<PlanVertex>, first: int, e: PlanEdge)
    requires forall v :: v in Collect(l) <==> v in l
    requires forall i :: 0 <= i < |l| ==> l[i].outputId in CollectXref(l) && CollectXref(l)[l[i].outputId] == {l[i]}
    requires IdsChained(l, first)
    requires e in EdgesOf(Collect(l), CollectXref(l))
    ensures exists i :: 0 < i < |l| && l[i].round > 0 && e == PlanEdge(l[i], l[i - 1], l[i].inputId)
  {
    var xref := CollectXref(l);
    var v0, v1 :| v0 in Collect(l) && v0.inputId != NULL_DEPENDENCY_ID && v0.inputId in xref && v1 in xref[v0.inputId]
      && e == PlanEdge(v0, v1, v0.inputId);
    var i :| 0 <= i < |l| && l[i] == v0;
    assert v1 == l[i - 1];
  }
}
