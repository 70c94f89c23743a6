/** The CSR class: its arrays and dictionary, the two loaders, and the lookup of a weight. */
module CsrStore {
  import opened Csr
  import opened EdgeStreams
  import opened EdgeLists
  import opened SameGraph
  import opened Ranges
  import opened CsrRows
  import opened CsrHalf
  import opened CsrMerge
  import opened CsrLoader
  import opened CsrSentinel

  /** Even when a pass takes its first edge for the sentinel, all its edges share one vertex and stay sorted. */
  lemma MisplacedIsOrdered(key: Order, ids: seq<nat>, edges: seq<Edge>, log: Dictionary, cells: seq<nat>, i: nat,
      j: nat)
    requires Indexes(ids, log) && AllIndexed(edges, log) && !SentinelSafe(key, edges, log) && Sorted(key, edges)
    requires Words(edges)
    requires |cells| == |edges| && (forall k :: 0 <= k < |edges| ==> cells[k] == log[CellEnd(key, edges[k])])
    requires i < j < |edges|
    ensures cells[i] <= cells[j]
  {
    assert !Before(key, edges[i], edges[0]) || i == 0;
    assert !Before(key, edges[j], edges[0]);
    assert !Before(key, edges[j], edges[i]);
    IndexIsMonotone(ids, log, CellEnd(key, edges[i]), CellEnd(key, edges[j]));
  }

  lemma HalfAscends(key: Order, ids: seq<nat>, edges: seq<Edge>, log: Dictionary, rows: seq<nat>, cells: seq<nat>,
      weights: seq<int>)
    requires Indexes(ids, log) && Half(key, edges, log, rows, cells, weights) && Rows(|ids|, rows, cells)
    requires Sorted(key, edges) && Words(edges)
    ensures RowsAscend(rows, cells)
  {
    forall u: nat, i: nat, j: nat | u < |rows| && Lo(rows, u) <= i < j < Hi(rows, u) && j < |cells|
      ensures cells[i] <= cells[j]
    {
      if SentinelSafe(key, edges, log) {
        HalfIsOrdered(key, ids, edges, log, rows, cells, weights, u, i, j);
      } else {
        MisplacedIsOrdered(key, ids, edges, log, cells, i, j);
      }
    }
  }

  lemma WordsOfPermutation(edges: seq<Edge>, permuted: seq<Edge>)
    requires Words(edges) && multiset(permuted) == multiset(edges)
    ensures Words(permuted)
  {
    forall i | 0 <= i < |permuted|
      ensures permuted[i].source < WORD_LIMIT && permuted[i].destination < WORD_LIMIT
    {
      assert permuted[i] in multiset(edges);
      var j :| 0 <= j < |edges| && edges[j] == permuted[i];
    }
  }

  lemma AllHalvesAscend(ids: seq<nat>, log: Dictionary, edges: seq<Edge>, bySource: seq<Edge>,
      byDestination: seq<Edge>, h: Halves)
    requires BothHalves(ids, log, edges, bySource, byDestination, h) && HalvesOk(h) && Words(edges)
    ensures HalvesAscend(h)
  {
    WordsOfPermutation(edges, bySource);
    WordsOfPermutation(edges, byDestination);
    HalfAscends(BySource, ids, bySource, log, h.outV, h.outE, h.outW);
    HalfAscends(ByDestination, ids, byDestination, log, h.inV, h.inE, h.inW);
    HalvesToCells(h);
  }

  lemma AllIndexedOf(vertices: seq<nat>, log: Dictionary, edges: seq<Edge>, permuted: seq<Edge>)
    requires Indexes(vertices, log) && VerticesOf(vertices, edges) && multiset(permuted) == multiset(edges)
    ensures AllIndexed(permuted, log) && forall x :: x in log ==> log[x] < |vertices|
  {
    forall i: nat | i < |permuted| ensures permuted[i].source in log && permuted[i].destination in log {
      EndsAreIndexed(vertices, log, permuted, edges, i);
    }
    forall x | x in log ensures log[x] < |vertices| { IndexOfVertex(vertices, log, x); }
  }

  /** `m_ext2log` and `m_log2ext` from the sorted vertex list. */
  method BuildDictionary(vertices: seq<nat>) returns (log: Dictionary, ids: array<nat>)
    requires Increasing(vertices)
    ensures fresh(ids) && ids[..] == vertices && Indexes(vertices, log)
  {
    log := map[];
    ids := new nat[|vertices|](_ => 0);
    for i := 0 to |vertices|
      invariant forall x: nat :: x in log <==> x in vertices[..i]
      invariant forall j :: 0 <= j < i ==> vertices[j] in log && log[vertices[j]] == j && ids[j] == vertices[j]
    {
      assert vertices[..i + 1] == vertices[..i] + [vertices[i]];
      log := log[vertices[i] := i];
      ids[i] := vertices[i];
    }
    assert vertices[..|vertices|] == vertices;
  }

  /** The two passes of `load_directed`. */
  method BuildHalves(vertices: seq<nat>, log: Dictionary, ghost edges: seq<Edge>, bySource: seq<Edge>,
      byDestination: seq<Edge>)
    returns (outV: array<nat>, outE: array<nat>, outW: array<int>, inV: array<nat>, inE: array<nat>, inW: array<int>)
    requires Indexes(vertices, log) && VerticesOf(vertices, edges)
    requires Sorted(BySource, bySource) && multiset(bySource) == multiset(edges)
    requires Sorted(ByDestination, byDestination) && multiset(byDestination) == multiset(edges)
    ensures BothHalves(vertices, log, edges, bySource, byDestination,
      Halves(|vertices|, outV[..], outE[..], outW[..], inV[..], inE[..], inW[..]))
    ensures fresh(outV) && fresh(outE) && fresh(outW) && fresh(inV) && fresh(inE) && fresh(inW)
  {
    AllIndexedOf(vertices, log, edges, bySource);
    AllIndexedOf(vertices, log, edges, byDestination);
    hide Half, Indexes, VerticesOf, Sorted;
    outV, outE, outW := BuildHalf(BySource, bySource, log, |vertices|);
    inV, inE, inW := BuildHalf(ByDestination, byDestination, log, |vertices|);
  }

  /** `load_directed`, and for an undirected graph the merge of `load_undirected`, whose in-arrays are aliases. */
  method BuildArrays(directed: bool, vertices: seq<nat>, log: Dictionary, ghost edges: seq<Edge>, bySource: seq<Edge>,
      byDestination: seq<Edge>)
    returns (outV: array<nat>, outE: array<nat>, outW: array<int>, inV: array<nat>, inE: array<nat>, inW: array<int>,
        ghost g: Graph)
    requires Indexes(vertices, log) && VerticesOf(vertices, edges) && Words(edges)
    requires Sorted(BySource, bySource) && multiset(bySource) == multiset(edges)
    requires Sorted(ByDestination, byDestination) && multiset(byDestination) == multiset(edges)
    ensures g == Graph(|vertices|, directed, outV[..], outE[..], outW[..], inV[..], inE[..], inW[..], vertices)
    ensures BothSafe(log, bySource, byDestination) <==> Loaded(g, edges)
    ensures !directed ==> outV == inV && outE == inE && outW == inW
    ensures !directed && BothSafe(log, bySource, byDestination) ==> DoublePrefix(g, |edges|)
  {
    hide *;
    outV, outE, outW, inV, inE, inW := BuildHalves(vertices, log, edges, bySource, byDestination);
    var h := Halves(|vertices|, outV[..], outE[..], outW[..], inV[..], inE[..], inW[..]);
    HalvesAreRows(vertices, log, edges, bySource, byDestination, h);
    if directed {
      DirectedFrom(vertices, log, edges, bySource, byDestination, h);
    } else {
      AllHalvesAscend(vertices, log, edges, bySource, byDestination, h);
      outV, outE, outW := MergeAll(h);
      UndirectedFrom(vertices, log, edges, bySource, byDestination, h, outV[..], outE[..], outW[..]);
      inV, inE, inW := outV, outE, outW;
    }
    g := Graph(|vertices|, directed, outV[..], outE[..], outW[..], inV[..], inE[..], inW[..], vertices);
  }

  /** The last prefix sum, and so the number of cells, is twice the number of edges. */
  ghost predicate DoublePrefix(g: Graph, numEdges: nat)
  {
    |g.outE| == 2 * numEdges && (g.n > 0 ==> |g.outV| == g.n && g.outV[g.n - 1] == 2 * numEdges)
  }

  /** The first cell of a sorted row that matches, found by a scan that stops at the first larger cell. */
  method FindCell(cells: seq<nat>, lo: nat, hi: nat, target: nat) returns (at: Option<nat>)
    requires lo <= hi <= |cells| && forall i, j :: lo <= i < j < hi ==> cells[i] <= cells[j]
    ensures at.Some? ==> lo <= at.value < hi && cells[at.value] == target
    ensures at.None? ==> forall i :: lo <= i < hi ==> cells[i] != target
  {
    var i := lo;
    while i < hi && cells[i] <= target
      invariant lo <= i <= hi && forall j :: lo <= j < i ==> cells[j] != target
    {
      if cells[i] == target {
        return Some(i);
      }
      i := i + 1;
    }
    at := None;
  }

  /** The weight that a lookup must return. */
  ghost predicate Finds(g: Graph, log: Dictionary, source: nat, destination: nat, weight: Option<int>)
    requires WellFormed(g)
  {
    match weight
    case Some(w) => source in log && log[source] < g.n && (destination, w) in NamedOut(g, log[source])
    case None => source in log && log[source] < g.n ==> !Has(NamedOut(g, log[source]), destination)
  }

  lemma FoundCell(g: Graph, log: Dictionary, source: nat, destination: nat, at: nat)
    requires WellFormed(g) && Indexes(g.ids, log) && source in log && destination in log && log[source] < g.n
    requires Lo(g.outV, log[source]) <= at < Hi(g.outV, log[source]) && at < |g.outE| && g.outE[at] == log[destination]
    ensures (destination, g.outW[at]) in NamedOut(g, log[source])
  {
    IndexOfVertex(g.ids, log, destination);
    NamedEntry(g, log[source], at);
  }

  lemma MissingCell(g: Graph, log: Dictionary, source: nat, destination: nat)
    requires WellFormed(g) && Indexes(g.ids, log) && source in log && log[source] < g.n
    requires destination in log ==>
      forall i: nat :: Lo(g.outV, log[source]) <= i < Hi(g.outV, log[source]) && i < |g.outE| ==>
        g.outE[i] != log[destination]
    ensures !Has(NamedOut(g, log[source]), destination)
  {
    var list := NamedOut(g, log[source]);
    forall k | 0 <= k < |list|
      ensures list[k].0 != destination
    {
      var e := EntryOfNamed(g, log[source], list[k].0, list[k].1);
      assert g.ids[g.outE[e]] in log && log[g.ids[g.outE[e]]] == g.outE[e];
    }
  }

  class CSR {
    const directed: bool
    var loaded: bool
    var numVertices: nat
    var numEdges: nat
    var outV: array<nat>
    var outE: array<nat>
    var outW: array<int>
    var inV: array<nat>
    var inE: array<nat>
    var inW: array<int>
    var log2ext: array<nat>
    var ext2log: Dictionary

    ghost function AsGraph(): Graph
      reads this, outV, outE, outW, inV, inE, inW, log2ext
    {
      Graph(numVertices, directed, outV[..], outE[..], outW[..], inV[..], inE[..], inW[..], log2ext[..])
    }

    constructor (isDirected: bool)
      ensures directed == isDirected && !loaded && numVertices == numEdges == 0
    {
      directed := isDirected;
      loaded, numVertices, numEdges, ext2log := false, 0, 0, map[];
      outV, outE, outW := new nat[0], new nat[0], new int[0];
      inV, inE, inW, log2ext := new nat[0], new nat[0], new int[0], new nat[0];
    }

    /**
     Load the edges of a stream, given in the two orders that its sorts produce, and the sorted list of its vertices.
     A second load is refused. The arrays then hold the graph if and only if no pass mistakes its first edge for the
     sentinel.
     */
    method Load(vertices: seq<nat>, ghost edges: seq<Edge>, bySource: seq<Edge>, byDestination: seq<Edge>)
      returns (ok: bool)
      requires Increasing(vertices) && VerticesOf(vertices, edges) && Words(edges)
      requires Sorted(BySource, bySource) && multiset(bySource) == multiset(edges)
      requires Sorted(ByDestination, byDestination) && multiset(byDestination) == multiset(edges)
      modifies this
      ensures ok <==> !old(loaded)
      ensures !ok ==> loaded && AsGraph() == old(AsGraph())
      ensures ok ==> loaded && numEdges == |edges| && log2ext[..] == vertices && Indexes(vertices, ext2log)
      ensures ok ==> (BothSafe(ext2log, bySource, byDestination) <==> Loaded(AsGraph(), edges))
      ensures ok && !directed ==> outV == inV && outE == inE && outW == inW
      ensures ok && !directed && BothSafe(ext2log, bySource, byDestination) ==> DoublePrefix(AsGraph(), numEdges)
    {
      hide Loaded, Indexes, WellFormed, Sorted, BothSafe, Increasing, VerticesOf, Words, DoublePrefix;
      if loaded {
        return false;
      }
      SameLength(bySource, edges);
      var log, ids := BuildDictionary(vertices);
      var v, e, w, iv, ie, iw; ghost var g;
      v, e, w, iv, ie, iw, g := BuildArrays(directed, vertices, log, edges, bySource, byDestination);
      Adopt(v, e, w, iv, ie, iw, log, ids, |bySource|);
      assert AsGraph() == g;
      ok := true;
    }

    method Adopt(v: array<nat>, e: array<nat>, w: array<int>, iv: array<nat>, ie: array<nat>, iw: array<int>,
        log: Dictionary, ids: array<nat>, m: nat)
      modifies this
      ensures loaded && numVertices == ids.Length && numEdges == m && ext2log == log && log2ext == ids
      ensures outV == v && outE == e && outW == w && inV == iv && inE == ie && inW == iw
    {
      outV, outE, outW, inV, inE, inW := v, e, w, iv, ie, iw;
      loaded, numVertices, numEdges, ext2log, log2ext := true, ids.Length, m, log, ids;
    }

    /** The weight of an edge between two external vertices; an unknown vertex or a missing edge has none. */
    method GetWeight(source: nat, destination: nat) returns (weight: Option<int>)
      requires WellFormed(AsGraph()) && Indexes(log2ext[..], ext2log) && RowsAscend(outV[..], outE[..])
      ensures Finds(AsGraph(), ext2log, source, destination, weight)
    {
      ghost var g := AsGraph();
      if source !in ext2log {
        return None;
      }
      IndexOfVertex(g.ids, ext2log, source);
      if destination !in ext2log {
        MissingCell(g, ext2log, source, destination);
        return None;
      }
      var u := ext2log[source];
      var lo, hi := if u == 0 then 0 else outV[u - 1], outV[u];
      assert lo == Lo(g.outV, u) && hi == Hi(g.outV, u);
      var at := FindCell(outE[..], lo, hi, ext2log[destination]);
      if at.Some? {
        FoundCell(g, ext2log, source, destination, at.value);
        weight := Some(outW[at.value]);
      } else {
        MissingCell(g, ext2log, source, destination);
        weight := None;
      }
    }
  }

  lemma DirectedFrom(vertices: seq<nat>, log: Dictionary, edges: seq<Edge>, bySource: seq<Edge>,
      byDestination: seq<Edge>, h: Halves)
    requires BothHalves(vertices, log, edges, bySource, byDestination, h) && HalvesOk(h) && Words(edges)
    ensures BothSafe(log, bySource, byDestination) <==>
      Loaded(Graph(h.n, true, h.outV, h.outE, h.outW, h.inV, h.inE, h.inW, vertices), edges)
  {
    PartsOf(vertices, log, edges, bySource, byDestination, h);
    WordsOfPermutation(edges, bySource);
    WordsOfPermutation(edges, byDestination);
    if BothSafe(log, bySource, byDestination) {
      DirectedIsLoaded(vertices, log, edges, bySource, byDestination, h);
    } else {
      MisplacedDirected(vertices, log, edges, bySource, byDestination, h);
    }
    hide Loaded, BothHalves, BothSafe;
  }

  lemma UndirectedFrom(vertices: seq<nat>, log: Dictionary, edges: seq<Edge>, bySource: seq<Edge>,
      byDestination: seq<Edge>, h: Halves,
      rows: seq<nat>, cells: seq<nat>, weights: seq<int>)
    requires BothHalves(vertices, log, edges, bySource, byDestination, h) && HalvesOk(h)
    requires Undirected(h, rows, cells, weights)
    requires Words(edges)
    ensures BothSafe(log, bySource, byDestination) <==>
      Loaded(Graph(h.n, false, rows, cells, weights, rows, cells, weights, vertices), edges)
    ensures BothSafe(log, bySource, byDestination) ==>
      DoublePrefix(Graph(h.n, false, rows, cells, weights, rows, cells, weights, vertices), |edges|)
  {
    PartsOf(vertices, log, edges, bySource, byDestination, h);
    WordsOfPermutation(edges, bySource);
    WordsOfPermutation(edges, byDestination);
    if BothSafe(log, bySource, byDestination) {
      UndirectedIsLoaded(vertices, log, edges, bySource, byDestination, h, rows, cells, weights);
    } else {
      MisplacedUndirected(vertices, log, edges, bySource, byDestination, h, rows, cells, weights);
    }
    hide Loaded, BothHalves, BothSafe, Undirected;
  }

  /**
   After a load of a simple graph, a lookup returns the weight of the edge, in either direction if undirected, and
   nothing else.
   */
  lemma LookupIsExact(g: Graph, log: Dictionary, edges: seq<Edge>, source: nat, destination: nat, weight: Option<int>)
    requires Loaded(g, edges) && SimpleEdges(g.directed, edges) && Indexes(g.ids, log)
    requires Finds(g, log, source, destination, weight)
    ensures forall w: int :: weight == Some(w) <==> Copies(g.directed, edges, source, destination, w) > 0
  {
    hide *;
    forall w: int
      ensures weight == Some(w) <==> Copies(g.directed, edges, source, destination, w) > 0
    {
      LookupAt(g, log, edges, source, destination, weight, w);
    }
  }

  lemma LookupAt(g: Graph, log: Dictionary, edges: seq<Edge>, source: nat, destination: nat, weight: Option<int>,
      w: int)
    requires Loaded(g, edges) && SimpleEdges(g.directed, edges) && Indexes(g.ids, log)
    requires Finds(g, log, source, destination, weight)
    ensures weight == Some(w) <==> Copies(g.directed, edges, source, destination, w) > 0
  {
    assert WellFormed(g) && |g.ids| == g.n;
    hide Loaded, SimpleEdges, Indexes, WellFormed, NamedOut, Copies, Has;
    if source in log {
      IndexOfVertex(g.ids, log, source);
      InRowIff(g, log, edges, source, destination, w);
      if weight.Some? {
        InRowIff(g, log, edges, source, destination, weight.value);
        if Copies(g.directed, edges, source, destination, w) > 0 {
          OneWeight(g.directed, edges, source, destination, w, weight.value);
        }
      }
    } else {
      NoCopies(g, log, edges, source, destination, w);
    }
  }

  lemma InRowIff(g: Graph, log: Dictionary, edges: seq<Edge>, source: nat, destination: nat, w: int)
    requires Loaded(g, edges) && Indexes(g.ids, log) && source in log && log[source] < g.n
    requires g.ids[log[source]] == source
    ensures (destination, w) in NamedOut(g, log[source]) <==> Copies(g.directed, edges, source, destination, w) > 0
    ensures (destination, w) in NamedOut(g, log[source]) ==> Has(NamedOut(g, log[source]), destination)
  {
    var row := NamedOut(g, log[source]);
    assert multiset(row)[(destination, w)] == Copies(g.directed, edges, source, destination, w);
    assert (destination, w) in row <==> (destination, w) in multiset(row);
  }

  lemma NoCopies(g: Graph, log: Dictionary, edges: seq<Edge>, source: nat, destination: nat, w: int)
    requires Loaded(g, edges) && Indexes(g.ids, log) && source !in log
    ensures Copies(g.directed, edges, source, destination, w) == 0
  {
    assert !EndOf(edges, source);
    assert Edge(source, destination, w) !in edges && Edge(destination, source, w) !in edges;
    assert Edge(source, destination, w) !in multiset(edges) && Edge(destination, source, w) !in multiset(edges);
  }

  lemma OneWeight(directed: bool, edges: seq<Edge>, s: nat, d: nat, w1: int, w2: int)
    requires SimpleEdges(directed, edges) && Copies(directed, edges, s, d, w1) > 0
    requires Copies(directed, edges, s, d, w2) > 0
    ensures w1 == w2
  {
    var i := CopyAt(directed, edges, s, d, w1);
    var j := CopyAt(directed, edges, s, d, w2);
  }

  lemma CopyAt(directed: bool, edges: seq<Edge>, s: nat, d: nat, w: int) returns (i: nat)
    requires Copies(directed, edges, s, d, w) > 0
    ensures i < |edges| && (edges[i] == Edge(s, d, w) || (!directed && edges[i] == Edge(d, s, w)))
  {
    if Edge(s, d, w) in multiset(edges) {
      var k :| 0 <= k < |edges| && edges[k] == Edge(s, d, w);
      i := k;
    } else {
      assert Edge(d, s, w) in multiset(edges);
      var k :| 0 <= k < |edges| && edges[k] == Edge(d, s, w);
      i := k;
    }
  }
}
