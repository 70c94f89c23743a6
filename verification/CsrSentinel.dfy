/**
 When a load goes wrong: if the first edge of a pass is taken for the sentinel, all edges of the pass end up in the
 first row, which belongs to another vertex.
 */
module CsrSentinel {
  import opened Csr
  import opened EdgeStreams
  import opened EdgeLists
  import opened SameGraph
  import opened Ranges
  import opened CsrRows
  import opened CsrHalf
  import opened CsrMerge
  import opened CsrLoader

  /** All edges have the largest 64-bit integer as their row, and another vertex comes first. */
  lemma AllEndAtMax(key: Order, ids: seq<nat>, log: Dictionary, edges: seq<Edge>)
    requires Indexes(ids, log) && AllIndexed(edges, log) && !SentinelSafe(key, edges, log) && Sorted(key, edges)
    requires Words(edges)
    ensures edges != [] && |ids| > 0 && ids[0] != UINT64_MAX
    ensures forall e :: e in edges ==> RowEnd(key, e) == UINT64_MAX
  {
    RowAtStep(key, edges, log, 0);
    IndexOfVertex(ids, log, UINT64_MAX);
    forall i: nat | i < |edges|
      ensures RowEnd(key, edges[i]) == UINT64_MAX
    {
      assert !Before(key, edges[i], edges[0]) || i == 0;
    }
  }

  lemma {:induction false} AllInRowZero(key: Order, edges: seq<Edge>, log: Dictionary, i: nat)
    requires i < |edges| && AllIndexed(edges, log) && forall e :: e in edges ==> RowEnd(key, e) == UINT64_MAX
    ensures RowAt(key, edges, log, i) == 0
  {
    assert edges[i] in edges;
    if i > 0 {
      assert edges[i - 1] in edges;
      AllInRowZero(key, edges, log, i - 1);
    }
  }

  lemma {:induction false} RankOfZeros(l: seq<nat>)
    requires forall i :: 0 <= i < |l| ==> l[i] == 0
    ensures Rank(l, 0) == |l|
  {
    if l != [] {
      RankOfZeros(l[..|l| - 1]);
    }
  }

  /** The first row holds the first edge although it is not one of its vertex. */
  lemma MisplacedEntry(key: Order, ids: seq<nat>, log: Dictionary, edges: seq<Edge>, rows: seq<nat>, cells: seq<nat>,
      weights: seq<int>)
    requires Indexes(ids, log) && Half(key, edges, log, rows, cells, weights) && Rows(|ids|, rows, cells)
    requires !SentinelSafe(key, edges, log) && Sorted(key, edges) && Words(edges)
    ensures edges != [] && |ids| > 0 && |weights| == |cells|
    ensures multiset(NamedRow(ids, rows, cells, weights, 0))[(CellEnd(key, edges[0]), edges[0].weight)] > 0
  {
    AllEndAtMax(key, ids, log, edges);
    var l := RowList(key, edges, log);
    forall i: nat | i < |l| ensures l[i] == 0 { AllInRowZero(key, edges, log, i); }
    RankOfZeros(l);
    assert rows[0] == |edges|;
    CellIs(key, ids, edges, log, rows, cells, weights, 0);
    hide Half, Rows, Indexes, Rank;
    var row := NamedRow(ids, rows, cells, weights, 0);
    assert row[0] == (CellEnd(key, edges[0]), edges[0].weight);
    assert row[0] in multiset(row);
  }

  /** No edge has its row at the first vertex. */
  lemma NoneAtFirst(key: Order, ids: seq<nat>, log: Dictionary, edges: seq<Edge>, all: seq<Edge>, x: nat, w: int)
    requires Indexes(ids, log) && AllIndexed(edges, log) && !SentinelSafe(key, edges, log) && Sorted(key, edges)
    requires Words(edges)
    requires multiset(edges) == multiset(all)
    ensures |ids| > 0 && multiset(all)[MakeEdge(key, ids[0], x, w)] == 0
  {
    AllEndAtMax(key, ids, log, edges);
    var e := MakeEdge(key, ids[0], x, w);
    assert RowEnd(key, e) == ids[0];
    assert e !in edges;
    assert e !in multiset(edges);
  }

  /** An edge between the first vertex and `x` is counted in the first row at most by a pass that is safe. */
  lemma RowCovers(key: Order, ids: seq<nat>, log: Dictionary, edges: seq<Edge>, all: seq<Edge>, rows: seq<nat>,
      cells: seq<nat>, weights: seq<int>,
      x: nat, w: int)
    requires Indexes(ids, log) && Half(key, edges, log, rows, cells, weights) && Rows(|ids|, rows, cells) && |ids| > 0
    requires |weights| == |cells|
    requires Sorted(key, edges) && Words(edges) && multiset(edges) == multiset(all)
    ensures multiset(all)[MakeEdge(key, ids[0], x, w)] <= multiset(NamedRow(ids, rows, cells, weights, 0))[(x, w)]
  {
    assert AllIndexed(edges, log);
    if SentinelSafe(key, edges, log) {
      HalfCounts(key, ids, edges, log, rows, cells, weights, 0, x, w);
    } else {
      NoneAtFirst(key, ids, log, edges, all, x, w);
    }
  }

  lemma OutEntry(g: Graph, edges: seq<Edge>, x: nat, w: int)
    requires Loaded(g, edges) && g.n > 0
    ensures multiset(NamedOut(g, 0))[(x, w)] == Copies(g.directed, edges, g.ids[0], x, w)
    ensures multiset(NamedIn(g, 0))[(x, w)] == Copies(g.directed, edges, x, g.ids[0], w)
  {
  }

  lemma PartsOf(ids: seq<nat>, log: Dictionary, edges: seq<Edge>, bySource: seq<Edge>, byDestination: seq<Edge>,
      h: Halves)
    requires BothHalves(ids, log, edges, bySource, byDestination, h)
    ensures Indexes(ids, log) && h.n == |ids| && AllIndexed(bySource, log) && AllIndexed(byDestination, log)
    ensures Sorted(BySource, bySource) && multiset(bySource) == multiset(edges)
    ensures Sorted(ByDestination, byDestination) && multiset(byDestination) == multiset(edges)
    ensures Half(BySource, bySource, log, h.outV, h.outE, h.outW)
    ensures Half(ByDestination, byDestination, log, h.inV, h.inE, h.inW)
    ensures |h.outE| == |h.outW| && |h.inE| == |h.inW|
  {
  }

  /** A directed load with a misplaced pass does not hold the graph. */
  lemma MisplacedDirected(ids: seq<nat>, log: Dictionary, edges: seq<Edge>, bySource: seq<Edge>,
      byDestination: seq<Edge>, h: Halves)
    requires BothHalves(ids, log, edges, bySource, byDestination, h) && HalvesOk(h) && Words(edges)
    requires Words(bySource) && Words(byDestination) && !BothSafe(log, bySource, byDestination)
    ensures !Loaded(DirectedGraph(ids, h), edges)
  {
    PartsOf(ids, log, edges, bySource, byDestination, h);
    var g := DirectedGraph(ids, h);
    hide Half, Indexes, Sorted, Words, BothHalves, Loaded, NamedOut, NamedIn, WellFormed, AllIndexed;
    if Loaded(g, edges) {
      if !SentinelSafe(BySource, bySource, log) {
        MisplacedEntry(BySource, ids, log, bySource, h.outV, h.outE, h.outW);
        var e := bySource[0];
        NamedIsRow(ids, h, 0);
        OutEntry(g, edges, e.destination, e.weight);
        NoneAtFirst(BySource, ids, log, bySource, edges, e.destination, e.weight);
      } else {
        MisplacedEntry(ByDestination, ids, log, byDestination, h.inV, h.inE, h.inW);
        var e := byDestination[0];
        NamedIsRow(ids, h, 0);
        OutEntry(g, edges, e.source, e.weight);
        NoneAtFirst(ByDestination, ids, log, byDestination, edges, e.source, e.weight);
      }
    }
  }

  /** Nor does an undirected one: the merged first row has an entry too many. */
  lemma MisplacedUndirected(ids: seq<nat>, log: Dictionary, edges: seq<Edge>, bySource: seq<Edge>,
      byDestination: seq<Edge>, h: Halves,
      rows: seq<nat>, cells: seq<nat>, weights: seq<int>)
    requires BothHalves(ids, log, edges, bySource, byDestination, h) && HalvesOk(h)
    requires Undirected(h, rows, cells, weights)
    requires Words(bySource) && Words(byDestination) && !BothSafe(log, bySource, byDestination)
    ensures !Loaded(UndirectedGraph(ids, h.n, rows, cells, weights), edges)
  {
    PartsOf(ids, log, edges, bySource, byDestination, h);
    UndirectedIsRows(h, rows, cells, weights);
    var g := UndirectedGraph(ids, h.n, rows, cells, weights);
    hide Half, Indexes, Sorted, Words, BothHalves, Loaded, NamedOut, NamedIn, WellFormed, AllIndexed, Undirected;
    if Loaded(g, edges) {
      if !SentinelSafe(BySource, bySource, log) {
        MisplacedEntry(BySource, ids, log, bySource, h.outV, h.outE, h.outW);
        var e := bySource[0];
        NoneAtFirst(BySource, ids, log, bySource, edges, e.destination, e.weight);
        RowCovers(ByDestination, ids, log, byDestination, edges, h.inV, h.inE, h.inW, e.destination, e.weight);
        MergedTooMuch(ids, edges, h, rows, cells, weights, e.destination, e.weight);
      } else {
        MisplacedEntry(ByDestination, ids, log, byDestination, h.inV, h.inE, h.inW);
        var e := byDestination[0];
        NoneAtFirst(ByDestination, ids, log, byDestination, edges, e.source, e.weight);
        RowCovers(BySource, ids, log, bySource, edges, h.outV, h.outE, h.outW, e.source, e.weight);
        MergedTooMuch(ids, edges, h, rows, cells, weights, e.source, e.weight);
      }
    }
  }

  /** What a loaded graph would have to satisfy in the first row. */
  lemma MergedTooMuch(ids: seq<nat>, edges: seq<Edge>, h: Halves, rows: seq<nat>, cells: seq<nat>, weights: seq<int>,
      x: nat, w: int)
    requires HalvesOk(h) && |ids| == h.n > 0 && Undirected(h, rows, cells, weights) && Rows(h.n, rows, cells)
    requires |weights| == |cells|
    requires Loaded(UndirectedGraph(ids, h.n, rows, cells, weights), edges)
    ensures multiset(edges)[Edge(ids[0], x, w)] + multiset(edges)[Edge(x, ids[0], w)] ==
      multiset(NamedRow(ids, h.outV, h.outE, h.outW, 0))[(x, w)] + multiset(NamedRow(ids, h.inV, h.inE, h.inW, 0))[(x,
        w)]
  {
    hide Loaded, NamedOut, NamedIn, WellFormed, Undirected, Rows;
    NamedIsMergedRow(ids, h.n, rows, cells, weights, 0);
    MergedRowCounts(ids, h, rows, cells, weights, 0);
    OutEntry(UndirectedGraph(ids, h.n, rows, cells, weights), edges, x, w);
    CopiesAre(edges, ids[0], x, w);
  }
}
