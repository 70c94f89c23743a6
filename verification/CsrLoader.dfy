/** Loading a list of edges into the compressed sparse row arrays: what a directed and an undirected load yield. */
module CsrLoader {
  import opened Csr
  import opened EdgeStreams
  import opened EdgeLists
  import opened SameGraph
  import opened Ranges
  import opened Sequences
  import opened CsrRows
  import opened CsrHalf
  import opened CsrMerge
  import Lcc

  // ----- what a load yields

  /** How often the undirected or directed graph has an edge from `s` to `d` of weight `w`. */
  ghost function Copies(directed: bool, edges: seq<Edge>, s: nat, d: nat, w: int): nat
  {
    multiset(edges)[Edge(s, d, w)] + if directed then 0 else multiset(edges)[Edge(d, s, w)]
  }

  ghost function EndCopies(directed: bool, edges: seq<Edge>, s: nat, d: nat): nat
  {
    var ends := multiset(Mapped(edges, EndsOf()));
    ends[Ends(s, d)] + if directed then 0 else ends[Ends(d, s)]
  }

  ghost predicate OutNamed(g: Graph, edges: seq<Edge>)
    requires WellFormed(g)
  {
    forall u: nat, x: nat, w: int :: u < g.n ==>
      multiset(NamedOut(g, u))[(x, w)] == Copies(g.directed, edges, g.ids[u], x, w)
  }

  ghost predicate InNamed(g: Graph, edges: seq<Edge>)
    requires WellFormed(g)
  {
    forall u: nat, x: nat, w: int :: u < g.n ==>
      multiset(NamedIn(g, u))[(x, w)] == Copies(g.directed, edges, x, g.ids[u], w)
  }

  ghost predicate RowsAscend(rows: seq<nat>, cells: seq<nat>)
  {
    forall u: nat, i: nat, j: nat :: u < |rows| && Lo(rows, u) <= i < j < Hi(rows, u) && j < |cells| ==>
      cells[i] <= cells[j]
  }

  ghost predicate EndsCounted(g: Graph, edges: seq<Edge>)
    requires WellFormed(g)
  {
    forall u: nat, v: nat :: u < g.n && v < g.n ==>
      && multiset(Out(g, u))[v] == EndCopies(g.directed, edges, g.ids[u], g.ids[v])
      && multiset(In(g, v))[u] == EndCopies(g.directed, edges, g.ids[u], g.ids[v])
  }

  /** The arrays hold exactly the given edges, at both ends. */
  ghost predicate Loaded(g: Graph, edges: seq<Edge>)
  {
    && WellFormed(g) && Increasing(g.ids) && VerticesOf(g.ids, edges)
    && OutNamed(g, edges) && InNamed(g, edges) && EndsCounted(g, edges)
    && RowsAscend(g.outV, g.outE) && RowsAscend(g.inV, g.inE)
  }

  // ----- consequences

  /** The in-arrays are the transpose of the out-arrays. */
  lemma LoadedIsMirrored(g: Graph, edges: seq<Edge>)
    requires Loaded(g, edges)
    ensures Mirrored(g)
  {
    forall u: nat, v: nat | u < g.n && v < g.n
      ensures multiset(Out(g, u))[v] == multiset(In(g, v))[u]
    {
    }
  }

  /** No edge twice, no loop, and in an undirected graph no edge given in both directions. */
  ghost predicate SimpleEdges(directed: bool, edges: seq<Edge>)
  {
    && (forall i :: 0 <= i < |edges| ==> edges[i].source != edges[i].destination)
    && forall i, j :: 0 <= i < j < |edges| ==>
         && !(edges[i].source == edges[j].source && edges[i].destination == edges[j].destination)
         && (directed || !(edges[i].source == edges[j].destination && edges[i].destination == edges[j].source))
  }

  lemma {:induction false} CountAtMostOne<T>(s: seq<T>, x: T)
    requires forall i, j :: 0 <= i < j < |s| ==> !(s[i] == x && s[j] == x)
    ensures multiset(s)[x] <= 1
  {
    if s != [] {
      var front, last := s[..|s| - 1], s[|s| - 1];
      assert s == front + [last];
      CountAtMostOne(front, x);
      if last == x {
        assert x !in front;
        assert x !in multiset(front);
      }
    }
  }

  lemma EndsOnce(directed: bool, edges: seq<Edge>, s: nat, d: nat)
    requires SimpleEdges(directed, edges)
    ensures EndCopies(directed, edges, s, d) <= 1 && (s == d ==> EndCopies(directed, edges, s, d) == 0)
  {
    var ends := Mapped(edges, EndsOf());
    forall i | 0 <= i < |edges| ensures ends[i] == Ends(edges[i].source, edges[i].destination) {}
    CountAtMostOne(ends, Ends(s, d));
    CountAtMostOne(ends, Ends(d, s));
    if s == d {
      assert Ends(s, d) !in ends;
      assert Ends(s, d) !in multiset(ends);
    } else if !directed && Ends(s, d) in ends {
      var i :| 0 <= i < |ends| && ends[i] == Ends(s, d);
      assert forall j :: 0 <= j < |ends| ==> ends[j] != Ends(d, s);
      assert Ends(d, s) !in multiset(ends);
    } else {
      assert Ends(s, d) in ends <==> Ends(s, d) in multiset(ends);
    }
  }

  lemma {:induction false} CountTwice<T>(s: seq<T>, i: nat, j: nat)
    requires i < j < |s| && s[i] == s[j]
    ensures multiset(s)[s[i]] >= 2
  {
    assert s == s[..j] + [s[j]] + s[j + 1..];
    assert s[i] == s[..j][i] && s[i] in s[..j];
    assert s[i] in multiset(s[..j]);
  }

  /** Rows of a simple graph are strictly sorted. */
  lemma RowsIncrease(g: Graph, edges: seq<Edge>, u: nat)
    requires Loaded(g, edges) && SimpleEdges(g.directed, edges) && u < g.n
    ensures Increasing(Out(g, u)) && u !in Out(g, u)
  {
    var row, lo: nat := Out(g, u), Lo(g.outV, u);
    forall i: nat, j: nat | i < j < |row|
      ensures row[i] < row[j]
    {
      assert g.outE[lo + i] <= g.outE[lo + j];
      if row[i] == row[j] {
        CountTwice(row, i, j);
        EndsOnce(g.directed, edges, g.ids[u], g.ids[row[i]]);
      }
    }
    EndsOnce(g.directed, edges, g.ids[u], g.ids[u]);
    assert multiset(row)[u] == 0;
  }

  /** A simple undirected graph is what the triangle counters expect. */
  lemma LoadedIsSimpleGraph(g: Graph, edges: seq<Edge>)
    requires Loaded(g, edges) && !g.directed && SimpleEdges(false, edges)
    ensures Lcc.SimpleGraph(g)
  {
    var adj := Lcc.Neighbours(g);
    forall u: nat | u < g.n ensures Increasing(Out(g, u)) && u !in Out(g, u) { RowsIncrease(g, edges, u); }
    forall u, v | u in adj && v in adj[u]
      ensures u != v && v in adj && u in adj[v]
    {
      OutIsSymmetric(g, edges, u, v);
    }
  }

  lemma OutIsSymmetric(g: Graph, edges: seq<Edge>, u: nat, v: nat)
    requires Loaded(g, edges) && !g.directed && u < g.n && v in Out(g, u)
    ensures v < g.n && u in Out(g, v)
  {
    assert multiset(Out(g, u))[v] > 0;
    assert multiset(Out(g, v))[u] == EndCopies(false, edges, g.ids[v], g.ids[u]);
    assert u in multiset(Out(g, v));
  }

  // ----- the same graph in the adjacency list

  lemma CopiesOnce(directed: bool, edges: seq<Edge>, s: nat, d: nat, w: int)
    requires SimpleEdges(directed, edges)
    ensures Copies(directed, edges, s, d, w) <= 1
  {
    CountAtMostOne(edges, Edge(s, d, w));
    CountAtMostOne(edges, Edge(d, s, w));
    if !directed && Edge(s, d, w) in edges {
      var i :| 0 <= i < |edges| && edges[i] == Edge(s, d, w);
      assert forall j :: 0 <= j < |edges| ==> edges[j] != Edge(d, s, w);
      assert Edge(d, s, w) !in multiset(edges);
    } else {
      assert Edge(s, d, w) in edges <==> Edge(s, d, w) in multiset(edges);
    }
  }

  /** The adjacency list stores the given edges. */
  ghost predicate ListStores(directed: bool, nodes: NodeList, edges: seq<Edge>)
  {
    && Shape(directed, nodes)
    && (forall x: nat :: x in nodes <==> EndOf(edges, x))
    && forall s: nat, d: nat, w: int :: HasEdge(nodes, s, d, w) <==> Copies(directed, edges, s, d, w) > 0
  }

  lemma ListCount(list: EdgeList, x: nat, w: int)
    requires NoDuplicates(list)
    ensures multiset(list)[(x, w)] == if HasWith(list, x, w) then 1 else 0
  {
    assert Distinct(list);
    DistinctCount(list, (x, w));
  }

  lemma SameOut(g: Graph, nodes: NodeList, edges: seq<Edge>, u: nat)
    requires Loaded(g, edges) && SimpleEdges(g.directed, edges) && ListStores(g.directed, nodes, edges) && u < g.n
    ensures g.ids[u] in nodes && multiset(NamedOut(g, u)) == multiset(nodes[g.ids[u]].out)
  {
    var list := nodes[g.ids[u]].out;
    forall e: (nat, int)
      ensures multiset(NamedOut(g, u))[e] == multiset(list)[e]
    {
      CopiesOnce(g.directed, edges, g.ids[u], e.0, e.1);
      ListCount(list, e.0, e.1);
      assert HasEdge(nodes, g.ids[u], e.0, e.1) <==> Copies(g.directed, edges, g.ids[u], e.0, e.1) > 0;
    }
  }

  lemma SameIn(g: Graph, nodes: NodeList, edges: seq<Edge>, u: nat)
    requires Loaded(g, edges) && SimpleEdges(g.directed, edges) && ListStores(g.directed, nodes, edges) && u < g.n
    ensures g.ids[u] in nodes && multiset(NamedIn(g, u)) == multiset(Incoming(g.directed, nodes, g.ids[u]))
  {
    var list := Incoming(g.directed, nodes, g.ids[u]);
    forall e: (nat, int)
      ensures multiset(NamedIn(g, u))[e] == multiset(list)[e]
    {
      CopiesOnce(g.directed, edges, e.0, g.ids[u], e.1);
      ListCount(list, e.0, e.1);
      assert HasEdge(nodes, e.0, g.ids[u], e.1) <==> HasBackEdge(g.directed, nodes, g.ids[u], e.0, e.1);
      assert HasEdge(nodes, e.0, g.ids[u], e.1) <==> Copies(g.directed, edges, e.0, g.ids[u], e.1) > 0;
    }
  }

  /**
   Loading a simple graph and adding its edges to the adjacency list give the same graph, so all the kernels agree on
   it.
   */
  lemma LoadedIsSame(g: Graph, nodes: NodeList, edges: seq<Edge>)
    requires Loaded(g, edges) && SimpleEdges(g.directed, edges) && ListStores(g.directed, nodes, edges)
    ensures Same(g, g.directed, nodes)
  {
    LoadedKeys(g, nodes, edges);
    hide *;
    forall u: nat | u < g.n
      ensures g.ids[u] in nodes && multiset(NamedOut(g, u)) == multiset(nodes[g.ids[u]].out)
      ensures multiset(NamedIn(g, u)) == multiset(Incoming(g.directed, nodes, g.ids[u]))
    {
      SameOut(g, nodes, edges, u);
      SameIn(g, nodes, edges, u);
    }
    SameParts(g, nodes);
  }

  lemma LoadedKeys(g: Graph, nodes: NodeList, edges: seq<Edge>)
    requires Loaded(g, edges) && ListStores(g.directed, nodes, edges)
    ensures WellFormed(g) && |g.ids| == g.n && Increasing(g.ids) && forall x: nat :: x in nodes <==> x in g.ids
  {
  }

  lemma SameParts(g: Graph, nodes: NodeList)
    requires WellFormed(g) && |g.ids| == g.n && Increasing(g.ids) && forall x: nat :: x in nodes <==> x in g.ids
    requires forall u: nat :: u < g.n ==> g.ids[u] in nodes && multiset(NamedOut(g, u)) == multiset(nodes[g.ids[u]].out)
    requires forall u: nat :: u < g.n ==> multiset(NamedIn(g, u)) == multiset(Incoming(g.directed, nodes, g.ids[u]))
    ensures Same(g, g.directed, nodes)
  {
    hide WellFormed, NamedOut, NamedIn, Incoming;
  }

  // ----- from the halves to the graph

  /** Both passes over the edges, and neither mistakes its first edge. */
  ghost predicate BothHalves(ids: seq<nat>, log: Dictionary, edges: seq<Edge>, bySource: seq<Edge>,
      byDestination: seq<Edge>, h: Halves)
  {
    && Indexes(ids, log) && VerticesOf(ids, edges) && h.n == |ids| == |h.outV| == |h.inV|
    && Sorted(BySource, bySource) && multiset(bySource) == multiset(edges)
    && Sorted(ByDestination, byDestination) && multiset(byDestination) == multiset(edges)
    && Half(BySource, bySource, log, h.outV, h.outE, h.outW)
    && Half(ByDestination, byDestination, log, h.inV, h.inE, h.inW)
  }

  ghost predicate BothSafe(log: Dictionary, bySource: seq<Edge>, byDestination: seq<Edge>)
  {
    SentinelSafe(BySource, bySource, log) && SentinelSafe(ByDestination, byDestination, log)
  }

  lemma HalvesAreRows(ids: seq<nat>, log: Dictionary, edges: seq<Edge>, bySource: seq<Edge>, byDestination: seq<Edge>,
      h: Halves)
    requires BothHalves(ids, log, edges, bySource, byDestination, h)
    ensures HalvesOk(h)
  {
    HalfIsRows(BySource, ids, bySource, log, h.outV, h.outE, h.outW);
    HalfIsRows(ByDestination, ids, byDestination, log, h.inV, h.inE, h.inW);
  }

  /** The rows of both halves are sorted, so they can be merged. */
  lemma HalvesAscending(ids: seq<nat>, log: Dictionary, edges: seq<Edge>, bySource: seq<Edge>,
      byDestination: seq<Edge>, h: Halves)
    requires BothHalves(ids, log, edges, bySource, byDestination, h) && BothSafe(log, bySource, byDestination)
    requires HalvesOk(h)
    ensures RowsAscend(h.outV, h.outE) && RowsAscend(h.inV, h.inE)
  {
    forall u: nat, i: nat, j: nat | u < |h.outV| && Lo(h.outV, u) <= i < j < Hi(h.outV, u) && j < |h.outE|
      ensures h.outE[i] <= h.outE[j]
    {
      HalfIsOrdered(BySource, ids, bySource, log, h.outV, h.outE, h.outW, u, i, j);
    }
    forall u: nat, i: nat, j: nat | u < |h.inV| && Lo(h.inV, u) <= i < j < Hi(h.inV, u) && j < |h.inE|
      ensures h.inE[i] <= h.inE[j]
    {
      HalfIsOrdered(ByDestination, ids, byDestination, log, h.inV, h.inE, h.inW, u, i, j);
    }
  }

  lemma HalvesToCells(h: Halves)
    requires HalvesOk(h) && RowsAscend(h.outV, h.outE) && RowsAscend(h.inV, h.inE)
    ensures HalvesAscend(h)
  {
    forall u: nat | u < h.n ensures Ascends(OutCells(h, u)) && Ascends(InCells(h, u)) {
      var a, b := OutCells(h, u), InCells(h, u);
      forall i: nat, j: nat | i < j < |a| ensures a[i].v <= a[j].v {
        assert h.outE[Lo(h.outV, u) + i] <= h.outE[Lo(h.outV, u) + j];
      }
      forall i: nat, j: nat | i < j < |b| ensures b[i].v <= b[j].v {
        assert h.inE[Lo(h.inV, u) + i] <= h.inE[Lo(h.inV, u) + j];
      }
    }
  }

  /** What the two halves say about one pair of vertices. */
  lemma HalfCopies(ids: seq<nat>, log: Dictionary, edges: seq<Edge>, bySource: seq<Edge>, byDestination: seq<Edge>,
      h: Halves, u: nat, x: nat, w: int)
    requires BothHalves(ids, log, edges, bySource, byDestination, h) && BothSafe(log, bySource, byDestination)
    requires HalvesOk(h) && u < h.n
    ensures multiset(NamedRow(ids, h.outV, h.outE, h.outW, u))[(x, w)] == multiset(edges)[Edge(ids[u], x, w)]
    ensures multiset(NamedRow(ids, h.inV, h.inE, h.inW, u))[(x, w)] == multiset(edges)[Edge(x, ids[u], w)]
  {
    HalfCounts(BySource, ids, bySource, log, h.outV, h.outE, h.outW, u, x, w);
    HalfCounts(ByDestination, ids, byDestination, log, h.inV, h.inE, h.inW, u, x, w);
  }

  lemma HalfEndCopies(ids: seq<nat>, log: Dictionary, edges: seq<Edge>, bySource: seq<Edge>, byDestination: seq<Edge>,
      h: Halves, u: nat, v: nat)
    requires BothHalves(ids, log, edges, bySource, byDestination, h) && BothSafe(log, bySource, byDestination)
    requires HalvesOk(h) && u < h.n && v < h.n
    ensures multiset(Row<nat>(h.outV, h.outE, u))[v] == multiset(Mapped(edges, EndsOf()))[Ends(ids[u], ids[v])]
    ensures multiset(Row<nat>(h.inV, h.inE, u))[v] == multiset(Mapped(edges, EndsOf()))[Ends(ids[v], ids[u])]
  {
    HalfEnds(BySource, ids, bySource, log, h.outV, h.outE, h.outW, u, v);
    HalfEnds(ByDestination, ids, byDestination, log, h.inV, h.inE, h.inW, u, v);
    MappedPermuted(bySource, edges, EndsOf());
    MappedPermuted(byDestination, edges, EndsOf());
  }

  function DirectedGraph(ids: seq<nat>, h: Halves): Graph
  {
    Graph(h.n, true, h.outV, h.outE, h.outW, h.inV, h.inE, h.inW, ids)
  }

  lemma NamedIsRow(ids: seq<nat>, h: Halves, u: nat)
    requires HalvesOk(h) && |ids| == h.n && u < h.n
    ensures WellFormed(DirectedGraph(ids, h))
    ensures NamedOut(DirectedGraph(ids, h), u) == NamedRow(ids, h.outV, h.outE, h.outW, u)
    ensures NamedIn(DirectedGraph(ids, h), u) == NamedRow(ids, h.inV, h.inE, h.inW, u)
    ensures Out(DirectedGraph(ids, h), u) == Row<nat>(h.outV, h.outE, u)
    ensures In(DirectedGraph(ids, h), u) == Row<nat>(h.inV, h.inE, u)
  {
  }

  lemma DirectedNamed(ids: seq<nat>, log: Dictionary, edges: seq<Edge>, bySource: seq<Edge>, byDestination: seq<Edge>,
      h: Halves, u: nat, x: nat, w: int)
    requires BothHalves(ids, log, edges, bySource, byDestination, h) && BothSafe(log, bySource, byDestination)
    requires HalvesOk(h)
    requires |ids| == h.n && u < h.n && WellFormed(DirectedGraph(ids, h)) && DirectedGraph(ids, h).n == h.n
    ensures multiset(NamedOut(DirectedGraph(ids, h), u))[(x, w)] == Copies(true, edges, ids[u], x, w)
    ensures multiset(NamedIn(DirectedGraph(ids, h), u))[(x, w)] == Copies(true, edges, x, ids[u], w)
  {
    hide *;
    NamedIsRow(ids, h, u);
    HalfCopies(ids, log, edges, bySource, byDestination, h, u, x, w);
    CopiesAre(edges, ids[u], x, w);
    CopiesAre(edges, x, ids[u], w);
  }

  lemma DirectedEnds(ids: seq<nat>, log: Dictionary, edges: seq<Edge>, bySource: seq<Edge>, byDestination: seq<Edge>,
      h: Halves, u: nat, v: nat)
    requires BothHalves(ids, log, edges, bySource, byDestination, h) && BothSafe(log, bySource, byDestination)
    requires HalvesOk(h)
    requires |ids| == h.n && u < h.n && v < h.n && WellFormed(DirectedGraph(ids, h)) && DirectedGraph(ids, h).n == h.n
    ensures multiset(Out(DirectedGraph(ids, h), u))[v] == EndCopies(true, edges, ids[u], ids[v])
    ensures multiset(In(DirectedGraph(ids, h), v))[u] == EndCopies(true, edges, ids[u], ids[v])
  {
    hide *;
    NamedIsRow(ids, h, u);
    NamedIsRow(ids, h, v);
    HalfEndCopies(ids, log, edges, bySource, byDestination, h, u, v);
    HalfEndCopies(ids, log, edges, bySource, byDestination, h, v, u);
    EndCopiesAre(edges, ids[u], ids[v]);
  }

  lemma DirectedIsNamed(ids: seq<nat>, log: Dictionary, edges: seq<Edge>, bySource: seq<Edge>,
      byDestination: seq<Edge>, h: Halves, g: Graph)
    requires BothHalves(ids, log, edges, bySource, byDestination, h) && BothSafe(log, bySource, byDestination)
    requires HalvesOk(h)
    requires |ids| == h.n && WellFormed(g) && g == DirectedGraph(ids, h) && g.n == h.n && g.ids == ids && g.directed
    ensures OutNamed(g, edges) && InNamed(g, edges)
  {
    hide BothHalves, BothSafe, HalvesOk, WellFormed, NamedOut, NamedIn, Copies, DirectedGraph;
    forall u: nat, x: nat, w: int | u < g.n
      ensures multiset(NamedOut(g, u))[(x, w)] == Copies(g.directed, edges, g.ids[u], x, w)
      ensures multiset(NamedIn(g, u))[(x, w)] == Copies(g.directed, edges, x, g.ids[u], w)
    {
      DirectedNamed(ids, log, edges, bySource, byDestination, h, u, x, w);
    }
  }

  lemma DirectedIsCounted(ids: seq<nat>, log: Dictionary, edges: seq<Edge>, bySource: seq<Edge>,
      byDestination: seq<Edge>, h: Halves, g: Graph)
    requires BothHalves(ids, log, edges, bySource, byDestination, h) && BothSafe(log, bySource, byDestination)
    requires HalvesOk(h)
    requires |ids| == h.n && WellFormed(g) && g == DirectedGraph(ids, h) && g.n == h.n && g.ids == ids && g.directed
    ensures EndsCounted(g, edges)
  {
    hide BothHalves, BothSafe, HalvesOk, WellFormed, Out, In, EndCopies, DirectedGraph;
    forall u: nat, v: nat | u < g.n && v < g.n
      ensures multiset(Out(g, u))[v] == EndCopies(g.directed, edges, g.ids[u], g.ids[v])
      ensures multiset(In(g, v))[u] == EndCopies(g.directed, edges, g.ids[u], g.ids[v])
    {
      DirectedEnds(ids, log, edges, bySource, byDestination, h, u, v);
    }
  }

  /** CSR::load_directed preserves the graph. */
  lemma DirectedIsLoaded(ids: seq<nat>, log: Dictionary, edges: seq<Edge>, bySource: seq<Edge>,
      byDestination: seq<Edge>, h: Halves)
    requires BothHalves(ids, log, edges, bySource, byDestination, h) && BothSafe(log, bySource, byDestination)
    ensures Loaded(DirectedGraph(ids, h), edges)
  {
    hide *;
    HalvesAreRows(ids, log, edges, bySource, byDestination, h);
    HalvesAscending(ids, log, edges, bySource, byDestination, h);
    BothHalvesIs(ids, log, edges, bySource, byDestination, h);
    GraphIsWellFormed(ids, h);
    var g := DirectedGraph(ids, h);
    DirectedIsNamed(ids, log, edges, bySource, byDestination, h, g);
    DirectedIsCounted(ids, log, edges, bySource, byDestination, h, g);
    LoadedParts(g, edges);
  }

  lemma GraphIsWellFormed(ids: seq<nat>, h: Halves)
    requires HalvesOk(h) && |ids| == h.n
    ensures var g := DirectedGraph(ids, h);
      WellFormed(g) && g.ids == ids && g.n == h.n && g.directed && g.outV == h.outV && g.outE == h.outE
        && g.inV == h.inV && g.inE == h.inE
  {
  }

  lemma BothHalvesIs(ids: seq<nat>, log: Dictionary, edges: seq<Edge>, bySource: seq<Edge>, byDestination: seq<Edge>,
      h: Halves)
    requires BothHalves(ids, log, edges, bySource, byDestination, h)
    ensures Increasing(ids) && VerticesOf(ids, edges) && |ids| == h.n
  {
  }

  lemma CopiesAre(edges: seq<Edge>, s: nat, d: nat, w: int)
    ensures Copies(true, edges, s, d, w) == multiset(edges)[Edge(s, d, w)]
    ensures Copies(false, edges, s, d, w) == multiset(edges)[Edge(s, d, w)] + multiset(edges)[Edge(d, s, w)]
  {
  }

  lemma EndCopiesAre(edges: seq<Edge>, s: nat, d: nat)
    ensures EndCopies(true, edges, s, d) == multiset(Mapped(edges, EndsOf()))[Ends(s, d)]
    ensures EndCopies(false, edges, s, d) ==
      multiset(Mapped(edges, EndsOf()))[Ends(s, d)] + multiset(Mapped(edges, EndsOf()))[Ends(d, s)]
  {
  }

  lemma LoadedParts(g: Graph, edges: seq<Edge>)
    requires WellFormed(g) && Increasing(g.ids) && VerticesOf(g.ids, edges) && RowsAscend(g.outV, g.outE)
    requires RowsAscend(g.inV, g.inE)
    requires OutNamed(g, edges) && InNamed(g, edges) && EndsCounted(g, edges)
    ensures Loaded(g, edges)
  {
  }

  // ----- the merged graph

  function UndirectedGraph(ids: seq<nat>, n: nat, rows: seq<nat>, cells: seq<nat>, weights: seq<int>): Graph
  {
    Graph(n, false, rows, cells, weights, rows, cells, weights, ids)
  }

  /** Prefix sums up to the number of cells leave no cell out. */
  lemma {:induction false} RowOfIndex(rows: seq<nat>, i: nat, from: nat) returns (u: nat)
    requires from < |rows| && i < rows[from]
    ensures u <= from && Lo(rows, u) <= i < Hi(rows, u)
    decreases from
  {
    if Lo(rows, from) <= i {
      u := from;
    } else {
      u := RowOfIndex(rows, i, from - 1);
    }
  }

  function CellsOf(rows: seq<nat>, cells: seq<nat>, weights: seq<int>, u: nat): seq<Cell>
    requires u < |rows| && Lo(rows, u) <= Hi(rows, u) <= |cells| == |weights|
  {
    Cells(cells, weights, Lo(rows, u), Hi(rows, u))
  }

  lemma RowIsMerge(h: Halves, rows: seq<nat>, cells: seq<nat>, weights: seq<int>, u: nat)
    requires HalvesOk(h) && Undirected(h, rows, cells, weights) && u < h.n
    ensures |rows| == h.n && |cells| == |weights| && Lo(rows, u) <= Hi(rows, u) <= |cells|
    ensures Ascends(CellsOf(rows, cells, weights, u))
    ensures multiset(CellsOf(rows, cells, weights, u)) == multiset(OutCells(h, u)) + multiset(InCells(h, u))
  {
    assert IsMerge(h, u, Cells(cells, weights, Lo(rows, u), Hi(rows, u)));
  }

  lemma CellInRange(h: Halves, rows: seq<nat>, cells: seq<nat>, weights: seq<int>, u: nat, i: nat)
    requires HalvesOk(h) && Undirected(h, rows, cells, weights) && u < h.n && |rows| == h.n
    requires Lo(rows, u) <= i < Hi(rows, u) && i < |cells|
    ensures cells[i] < h.n
  {
    RowIsMerge(h, rows, cells, weights, u);
    var row := CellsOf(rows, cells, weights, u);
    var c := row[i - Lo(rows, u)];
    assert c in multiset(row);
    assert c in OutCells(h, u) || c in InCells(h, u);
  }

  lemma UndirectedIsRows(h: Halves, rows: seq<nat>, cells: seq<nat>, weights: seq<int>)
    requires HalvesOk(h) && Undirected(h, rows, cells, weights)
    ensures Rows(h.n, rows, cells) && |weights| == |cells|
  {
    forall i: nat | i < |cells| ensures cells[i] < h.n {
      assert h.n > 0 && rows[h.n - 1] == |cells|;
      var u := RowOfIndex(rows, i, h.n - 1);
      CellInRange(h, rows, cells, weights, u, i);
    }
  }

  function NameCell(ids: seq<nat>): Cell -> (nat, int)
  {
    (c: Cell) => (if c.v < |ids| then ids[c.v] else 0, c.w)
  }

  function Neighbour(): Cell -> nat
  {
    (c: Cell) => c.v
  }

  lemma MergeMaps<T>(m: seq<Cell>, a: seq<Cell>, b: seq<Cell>, f: Cell -> T)
    requires multiset(m) == multiset(a) + multiset(b)
    ensures multiset(Mapped(m, f)) == multiset(Mapped(a, f)) + multiset(Mapped(b, f))
  {
    assert multiset(a + b) == multiset(a) + multiset(b);
    MappedPermuted(m, a + b, f);
    MappedAppend(a, b, f);
  }

  lemma NamedRowIsMapped(ids: seq<nat>, rows: seq<nat>, cells: seq<nat>, weights: seq<int>, u: nat)
    requires Rows(|ids|, rows, cells) && |weights| == |cells| && u < |ids|
    ensures u < |rows| && Lo(rows, u) <= Hi(rows, u) <= |cells|
    ensures NamedRow(ids, rows, cells, weights, u) == Mapped(CellsOf(rows, cells, weights, u), NameCell(ids))
    ensures Row<nat>(rows, cells, u) == Mapped(CellsOf(rows, cells, weights, u), Neighbour())
  {
  }

  /** A merged row has the entries of both rows. */
  lemma MergedRowCounts(ids: seq<nat>, h: Halves, rows: seq<nat>, cells: seq<nat>, weights: seq<int>, u: nat)
    requires HalvesOk(h) && |ids| == h.n && Undirected(h, rows, cells, weights) && Rows(h.n, rows, cells)
    requires |weights| == |cells| && u < h.n
    ensures multiset(NamedRow(ids, rows, cells, weights, u)) ==
      multiset(NamedRow(ids, h.outV, h.outE, h.outW, u)) + multiset(NamedRow(ids, h.inV, h.inE, h.inW, u))
    ensures u < |rows| && Lo(rows, u) <= Hi(rows, u) <= |cells|
    ensures u < |h.outV| && Lo(h.outV, u) <= Hi(h.outV, u) <= |h.outE| && u < |h.inV|
    ensures Lo(h.inV, u) <= Hi(h.inV, u) <= |h.inE|
    ensures multiset(Row<nat>(rows, cells, u)) ==
      multiset(Row<nat>(h.outV, h.outE, u)) + multiset(Row<nat>(h.inV, h.inE, u))
  {
    RowIsMerge(h, rows, cells, weights, u);
    NamedRowIsMapped(ids, rows, cells, weights, u);
    NamedRowIsMapped(ids, h.outV, h.outE, h.outW, u);
    NamedRowIsMapped(ids, h.inV, h.inE, h.inW, u);
    assert OutCells(h, u) == CellsOf(h.outV, h.outE, h.outW, u) && InCells(h, u) == CellsOf(h.inV, h.inE, h.inW, u);
    hide *;
    MergeMaps(CellsOf(rows, cells, weights, u), OutCells(h, u), InCells(h, u), NameCell(ids));
    MergeMaps(CellsOf(rows, cells, weights, u), OutCells(h, u), InCells(h, u), Neighbour());
  }

  lemma UndirectedAscends(h: Halves, rows: seq<nat>, cells: seq<nat>, weights: seq<int>)
    requires HalvesOk(h) && Undirected(h, rows, cells, weights)
    ensures RowsAscend(rows, cells)
  {
    forall u: nat, i: nat, j: nat | u < |rows| && Lo(rows, u) <= i < j < Hi(rows, u) && j < |cells|
      ensures cells[i] <= cells[j]
    {
      RowIsMerge(h, rows, cells, weights, u);
      var row := CellsOf(rows, cells, weights, u);
      assert row[i - Lo(rows, u)].v <= row[j - Lo(rows, u)].v;
    }
  }

  lemma NamedIsMergedRow(ids: seq<nat>, n: nat, rows: seq<nat>, cells: seq<nat>, weights: seq<int>, u: nat)
    requires Rows(n, rows, cells) && |weights| == |cells| && |ids| == n && u < n
    ensures var g := UndirectedGraph(ids, n, rows, cells, weights);
      && WellFormed(g)
      && NamedOut(g, u) == NamedRow(ids, rows, cells, weights, u)
      && NamedIn(g, u) == NamedRow(ids, rows, cells, weights, u)
      && Out(g, u) == Row<nat>(rows, cells, u) && In(g, u) == Row<nat>(rows, cells, u)
  {
  }

  lemma UndirectedNamed(ids: seq<nat>, log: Dictionary, edges: seq<Edge>, bySource: seq<Edge>,
      byDestination: seq<Edge>, h: Halves, rows: seq<nat>, cells: seq<nat>, weights: seq<int>, g: Graph, u: nat,
      x: nat, w: int)
    requires BothHalves(ids, log, edges, bySource, byDestination, h) && BothSafe(log, bySource, byDestination)
    requires HalvesOk(h)
    requires Undirected(h, rows, cells, weights) && Rows(h.n, rows, cells) && |weights| == |cells| && |ids| == h.n
    requires u < h.n
    requires WellFormed(g) && g == UndirectedGraph(ids, h.n, rows, cells, weights) && g.n == h.n
    ensures multiset(NamedOut(g, u))[(x, w)] == Copies(false, edges, ids[u], x, w)
    ensures multiset(NamedIn(g, u))[(x, w)] == Copies(false, edges, x, ids[u], w)
  {
    hide *;
    NamedIsMergedRow(ids, h.n, rows, cells, weights, u);
    MergedRowCounts(ids, h, rows, cells, weights, u);
    HalfCopies(ids, log, edges, bySource, byDestination, h, u, x, w);
    CopiesAre(edges, ids[u], x, w);
    CopiesAre(edges, x, ids[u], w);
  }

  lemma UndirectedEnds(ids: seq<nat>, log: Dictionary, edges: seq<Edge>, bySource: seq<Edge>, byDestination: seq<Edge>,
      h: Halves, rows: seq<nat>, cells: seq<nat>, weights: seq<int>, g: Graph, u: nat, v: nat)
    requires BothHalves(ids, log, edges, bySource, byDestination, h) && BothSafe(log, bySource, byDestination)
    requires HalvesOk(h)
    requires Undirected(h, rows, cells, weights) && Rows(h.n, rows, cells) && |weights| == |cells| && |ids| == h.n
    requires u < h.n && v < h.n
    requires WellFormed(g) && g == UndirectedGraph(ids, h.n, rows, cells, weights) && g.n == h.n
    ensures multiset(Out(g, u))[v] == EndCopies(false, edges, ids[u], ids[v])
    ensures multiset(In(g, u))[v] == EndCopies(false, edges, ids[v], ids[u])
  {
    hide *;
    NamedIsMergedRow(ids, h.n, rows, cells, weights, u);
    MergedRowCounts(ids, h, rows, cells, weights, u);
    HalfEndCopies(ids, log, edges, bySource, byDestination, h, u, v);
    EndCopiesAre(edges, ids[u], ids[v]);
    EndCopiesAre(edges, ids[v], ids[u]);
  }

  lemma UndirectedIsNamed(ids: seq<nat>, log: Dictionary, edges: seq<Edge>, bySource: seq<Edge>,
      byDestination: seq<Edge>, h: Halves, rows: seq<nat>, cells: seq<nat>, weights: seq<int>, g: Graph)
    requires BothHalves(ids, log, edges, bySource, byDestination, h) && BothSafe(log, bySource, byDestination)
    requires HalvesOk(h)
    requires Undirected(h, rows, cells, weights) && Rows(h.n, rows, cells) && |weights| == |cells| && |ids| == h.n
    requires WellFormed(g) && g == UndirectedGraph(ids, h.n, rows, cells, weights) && g.n == h.n && g.ids == ids
    requires !g.directed
    ensures OutNamed(g, edges) && InNamed(g, edges) && EndsCounted(g, edges)
  {
    hide BothHalves, BothSafe, HalvesOk, WellFormed, NamedOut, NamedIn, Copies, UndirectedGraph, Out, In, EndCopies,
      Undirected, Rows;
    forall u: nat, x: nat, w: int | u < g.n
      ensures multiset(NamedOut(g, u))[(x, w)] == Copies(g.directed, edges, g.ids[u], x, w)
      ensures multiset(NamedIn(g, u))[(x, w)] == Copies(g.directed, edges, x, g.ids[u], w)
    {
      UndirectedNamed(ids, log, edges, bySource, byDestination, h, rows, cells, weights, g, u, x, w);
    }
    forall u: nat, v: nat | u < g.n && v < g.n
      ensures multiset(Out(g, u))[v] == EndCopies(g.directed, edges, g.ids[u], g.ids[v])
      ensures multiset(In(g, v))[u] == EndCopies(g.directed, edges, g.ids[u], g.ids[v])
    {
      UndirectedEnds(ids, log, edges, bySource, byDestination, h, rows, cells, weights, g, u, v);
      UndirectedEnds(ids, log, edges, bySource, byDestination, h, rows, cells, weights, g, v, u);
    }
  }

  lemma UndirectedIsWellFormed(ids: seq<nat>, h: Halves, rows: seq<nat>, cells: seq<nat>, weights: seq<int>)
    requires Rows(h.n, rows, cells) && |weights| == |cells| && |ids| == h.n
    ensures var g := UndirectedGraph(ids, h.n, rows, cells, weights);
      WellFormed(g) && g.n == h.n && g.ids == ids && !g.directed && g.outV == g.inV == rows && g.outE == g.inE == cells
  {
  }

  /**
   CSR::load_undirected preserves the graph, stores every edge at both ends, and fills twice as many cells as there are
   edges.
   */
  lemma UndirectedIsLoaded(ids: seq<nat>, log: Dictionary, edges: seq<Edge>, bySource: seq<Edge>,
      byDestination: seq<Edge>, h: Halves, rows: seq<nat>, cells: seq<nat>, weights: seq<int>)
    requires BothHalves(ids, log, edges, bySource, byDestination, h) && BothSafe(log, bySource, byDestination)
    requires HalvesOk(h)
    requires Undirected(h, rows, cells, weights)
    ensures Loaded(UndirectedGraph(ids, h.n, rows, cells, weights), edges)
    ensures |rows| == h.n && |cells| == 2 * |edges| && (h.n > 0 ==> rows[h.n - 1] == 2 * |edges|)
  {
    UndirectedIsRows(h, rows, cells, weights);
    HalfSizes(ids, log, edges, bySource, byDestination, h);
    LastRow(h, rows, cells, weights);
    hide *;
    BothHalvesIs(ids, log, edges, bySource, byDestination, h);
    UndirectedAscends(h, rows, cells, weights);
    UndirectedIsWellFormed(ids, h, rows, cells, weights);
    var g := UndirectedGraph(ids, h.n, rows, cells, weights);
    UndirectedIsNamed(ids, log, edges, bySource, byDestination, h, rows, cells, weights, g);
    LoadedParts(g, edges);
  }

  lemma HalfSizes(ids: seq<nat>, log: Dictionary, edges: seq<Edge>, bySource: seq<Edge>, byDestination: seq<Edge>,
      h: Halves)
    requires BothHalves(ids, log, edges, bySource, byDestination, h)
    ensures |h.outE| == |edges| && |h.inE| == |edges|
  {
    SameLength(bySource, edges);
    SameLength(byDestination, edges);
  }

  lemma LastRow(h: Halves, rows: seq<nat>, cells: seq<nat>, weights: seq<int>)
    requires HalvesOk(h) && Undirected(h, rows, cells, weights)
    ensures |rows| == h.n && |cells| == |h.outE| + |h.inE| && (h.n > 0 ==> rows[h.n - 1] == |cells|)
  {
  }
}
