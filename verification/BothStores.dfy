/** One list of edges in both stores: loaded into the CSR arrays, and inserted one by one into the adjacency list. */
module BothStores {
  import opened Csr
  import opened GraphState
  import opened EdgeLists
  import opened AdjacencyLists
  import opened EdgeStreams
  import opened SameGraph
  import opened CsrRows
  import opened CsrLoader
  import opened CsrStore
  import opened StreamLoader
  import opened ByteArrays

  /** The calls of `AdjacencyList::load`. */
  function Puts(edges: seq<Edge>): (ops: seq<Op>)
    ensures |ops| == |edges|
    ensures forall k :: 0 <= k < |edges| ==> ops[k] == Put(edges[k].source, edges[k].destination, edges[k].weight)
  {
    seq(|edges|, k requires 0 <= k < |edges| => Put(edges[k].source, edges[k].destination, edges[k].weight))
  }

  function Built(directed: bool, edges: seq<Edge>): State
  {
    Replay(directed, State({}, map[]), Puts(edges))
  }

  lemma BuiltNext(directed: bool, edges: seq<Edge>)
    requires edges != []
    ensures var e := edges[|edges| - 1];
      Built(directed, edges) == Apply(directed, Built(directed, edges[..|edges| - 1]),
        Put(e.source, e.destination, e.weight))
  {
    assert Puts(edges)[..|edges| - 1] == Puts(edges[..|edges| - 1]);
    hide Apply;
  }

  /** The input gives the edge from `s` to `d`, in either direction if undirected. */
  ghost predicate Given(directed: bool, edges: seq<Edge>, s: nat, d: nat, w: int)
  {
    Edge(s, d, w) in edges || (!directed && Edge(d, s, w) in edges)
  }

  lemma GivenIsCopied(directed: bool, edges: seq<Edge>, s: nat, d: nat, w: int)
    ensures Given(directed, edges, s, d, w) <==> Copies(directed, edges, s, d, w) > 0
  {
    assert Edge(s, d, w) in edges <==> Edge(s, d, w) in multiset(edges);
    assert Edge(d, s, w) in edges <==> Edge(d, s, w) in multiset(edges);
  }

  lemma GivenNext(directed: bool, edges: seq<Edge>, s: nat, d: nat, w: int)
    requires edges != []
    ensures var front, e := edges[..|edges| - 1], edges[|edges| - 1];
      Given(directed, edges, s, d, w) <==>
        Given(directed, front, s, d, w) || e == Edge(s, d, w) || (!directed && e == Edge(d, s, w))
  {
    assert edges == edges[..|edges| - 1] + [edges[|edges| - 1]];
  }

  /** Nothing earlier joins the ends of the last edge. */
  lemma LastIsNew(directed: bool, edges: seq<Edge>, w: int)
    requires SimpleEdges(directed, edges) && edges != []
    ensures var front, e := edges[..|edges| - 1], edges[|edges| - 1];
      !Given(directed, front, e.source, e.destination, w) && (!directed ==>
        !Given(directed, front, e.destination, e.source, w))
  {
    var front, e := edges[..|edges| - 1], edges[|edges| - 1];
    assert forall i :: 0 <= i < |front| ==> edges[i] == front[i];
    assert edges[|front|] == e;
  }

  ghost predicate Holds(s: State, a: nat, b: nat, w: int)
  {
    (a, b) in s.edges && s.edges[(a, b)] == w
  }

  lemma PutHolds(directed: bool, s: State, e: Edge, a: nat, b: nat, w: int)
    requires e.source != e.destination
    ensures Holds(Apply(directed, s, Put(e.source, e.destination, e.weight)), a, b, w) <==>
      if (a, b) == (e.source, e.destination) || (!directed && (a, b) == (e.destination, e.source))
        then w == e.weight else Holds(s, a, b, w)
  {
  }

  /** Inserting the edges of a simple graph builds an edge map with exactly these edges. */
  lemma {:induction false} BuiltEdges(directed: bool, edges: seq<Edge>, a: nat, b: nat, w: int)
    requires SimpleEdges(directed, edges)
    ensures Holds(Built(directed, edges), a, b, w) <==> Given(directed, edges, a, b, w)
    decreases |edges|
  {
    if edges != [] {
      var front, e := edges[..|edges| - 1], edges[|edges| - 1];
      FrontIsSimple(directed, edges);
      BuiltEdges(directed, front, a, b, w);
      BuiltNext(directed, edges);
      GivenNext(directed, edges, a, b, w);
      LastIsNew(directed, edges, w);
      assert e.source != e.destination;
      PutHolds(directed, Built(directed, front), e, a, b, w);
      hide *;
    }
  }

  lemma FrontIsSimple(directed: bool, edges: seq<Edge>)
    requires SimpleEdges(directed, edges) && edges != []
    ensures SimpleEdges(directed, edges[..|edges| - 1])
  {
  }

  lemma {:induction false} BuiltVertices(directed: bool, edges: seq<Edge>, x: nat)
    requires SimpleEdges(directed, edges)
    ensures x in Built(directed, edges).vertices <==> EndOf(edges, x)
    decreases |edges|
  {
    if edges != [] {
      var front, e := edges[..|edges| - 1], edges[|edges| - 1];
      FrontIsSimple(directed, edges);
      BuiltVertices(directed, front, x);
      BuiltNext(directed, edges);
      EndOfNext(edges, x);
      assert e.source != e.destination;
      hide Built, SimpleEdges, EndOf, PutEdge;
    }
  }

  lemma EndOfNext(edges: seq<Edge>, x: nat)
    requires edges != []
    ensures var e := edges[|edges| - 1]; EndOf(edges, x) <==>
      EndOf(edges[..|edges| - 1], x) || x == e.source || x == e.destination
  {
    var front := edges[..|edges| - 1];
    if i :| 0 <= i < |front| && (front[i].source == x || front[i].destination == x) {
      assert edges[i] == front[i];
    }
    if i :| 0 <= i < |edges| && (edges[i].source == x || edges[i].destination == x) {
      assert i < |front| ==> front[i] == edges[i];
    }
  }

  /** So the adjacency list that represents the insertions stores the edges. */
  lemma InsertedIsStored(directed: bool, nodes: NodeList, numEdges: nat, edges: seq<Edge>)
    requires SimpleEdges(directed, edges) && Represents(directed, nodes, numEdges, Built(directed, edges))
    ensures ListStores(directed, nodes, edges)
  {
    var s := Built(directed, edges);
    assert Shape(directed, nodes) && s.vertices == nodes.Keys && Stores(nodes, s.edges);
    hide Shape, Built, SimpleEdges, EndOf, Copies, Given;
    forall x: nat
      ensures x in nodes <==> EndOf(edges, x)
    {
      BuiltVertices(directed, edges, x);
    }
    forall a: nat, b: nat, w: int
      ensures HasEdge(nodes, a, b, w) <==> Copies(directed, edges, a, b, w) > 0
    {
      BuiltEdges(directed, edges, a, b, w);
      GivenIsCopied(directed, edges, a, b, w);
    }
  }

  /** After a load of a simple graph and a run of insertions of the same edges, both stores hold the same graph. */
  lemma StoresAgree(g: Graph, nodes: NodeList, numEdges: nat, edges: seq<Edge>)
    requires Loaded(g, edges) && SimpleEdges(g.directed, edges)
    requires Represents(g.directed, nodes, numEdges, Replay(g.directed, State({}, map[]), Puts(edges)))
    ensures Same(g, g.directed, nodes)
  {
    hide *;
    assert Built(g.directed, edges) == Replay(g.directed, State({}, map[]), Puts(edges)) by {
      BuiltIs(g.directed, edges);
    }
    InsertedIsStored(g.directed, nodes, numEdges, edges);
    LoadedIsSame(g, nodes, edges);
  }

  lemma BuiltIs(directed: bool, edges: seq<Edge>)
    ensures Built(directed, edges) == Replay(directed, State({}, map[]), Puts(edges))
  {
  }

  /** Fill both stores from one stream of a simple graph: the kernels of the two then work on the same graph. */
  method LoadBoth(csr: CSR, list: AdjacencyList, stream: WeightedEdgeStream, edges: seq<Edge>, order: seq<nat>,
      sortVertices: seq<nat> -> seq<nat>, bySource: seq<Edge> -> seq<nat>, byDestination: seq<Edge> -> seq<nat>,
        threads: nat)
    returns (ok: bool)
    requires stream.Valid() && IsMax(stream.Edges(), stream.maxVertexId) && Lists(order, stream.Edges())
    requires SortsWords(sortVertices) && SortsAlways(BySource, bySource) && SortsAlways(ByDestination, byDestination)
    requires stream.maxVertexId > 1 ==> !PowerOf256(stream.maxVertexId)
    requires edges == stream.Edges() && SimpleEdges(list.directed, edges) && list.directed == csr.directed
    requires list.Valid() && list.contents == State({}, map[])
    modifies csr, list, stream
    ensures ok <==> !old(csr.loaded) && old(stream.maxVertexId) > 1
    ensures ok && !Misplaces(BySource, edges) && !Misplaces(ByDestination, edges) ==>
      Same(csr.AsGraph(), list.directed, list.nodes)
    ensures ok && old(stream.maxVertexId) < 0xffff_ffff_ffff_ffff ==> Same(csr.AsGraph(), list.directed, list.nodes)
  {
    hide *;
    ok := LoadStream(csr, stream, order, sortVertices, bySource, byDestination, threads);
    list.Run(Puts(edges));
    if Loaded(csr.AsGraph(), edges) {
      ValidIs(list);
      DirectedIs(csr);
      StoresAgree(csr.AsGraph(), list.nodes, list.numEdges, edges);
    }
  }

  lemma ValidIs(list: AdjacencyList)
    requires list.Valid()
    ensures Represents(list.directed, list.nodes, list.numEdges, list.contents)
  {
  }

  lemma DirectedIs(csr: CSR)
    ensures csr.AsGraph().directed == csr.directed
  {
  }
}
