/** CSR::load(stream): the vertex list and the two sorts of the stream feed the arrays. */
module StreamLoader {
  import opened Csr
  import opened ByteArrays
  import opened EdgeStreams
  import opened Ranges
  import opened Sequences
  import opened CsrRows
  import opened CsrLoader
  import opened CsrStore

  // ----- when a pass takes its first edge for the sentinel

  /** All edges have the largest 64-bit integer as their row, and there is another vertex. */
  ghost predicate Misplaces(key: Order, edges: seq<Edge>)
  {
    && (forall e :: e in edges ==> RowEnd(key, e) == UINT64_MAX)
    && exists x: nat :: EndOf(edges, x) && x != UINT64_MAX
  }

  lemma SafeUnlessMisplaced(key: Order, vertices: seq<nat>, log: Dictionary, edges: seq<Edge>, sorted: seq<Edge>)
    requires Indexes(vertices, log) && VerticesOf(vertices, edges) && Words(edges)
    requires Sorted(key, sorted) && multiset(sorted) == multiset(edges)
    ensures SentinelSafe(key, sorted, log) <==> !Misplaces(key, edges)
  {
    forall e ensures e in sorted <==> e in edges {
      assert e in sorted <==> e in multiset(sorted);
      assert e in edges <==> e in multiset(edges);
    }
    hide Sorted, Indexes;
    if Misplaces(key, edges) {
      MisplacedIsUnsafe(key, vertices, log, edges, sorted);
    } else {
      PlacedIsSafe(key, vertices, log, edges, sorted);
    }
  }

  lemma MisplacedIsUnsafe(key: Order, vertices: seq<nat>, log: Dictionary, edges: seq<Edge>, sorted: seq<Edge>)
    requires Indexes(vertices, log) && VerticesOf(vertices, edges) && Words(edges) && Misplaces(key, edges)
    requires forall e :: e in sorted <==> e in edges
    ensures !SentinelSafe(key, sorted, log)
  {
    var x: nat :| EndOf(edges, x) && x != UINT64_MAX;
    var i :| 0 <= i < |edges| && (edges[i].source == x || edges[i].destination == x);
    assert edges[i] in sorted && sorted[0] in edges && x in vertices && x < UINT64_MAX;
    assert x in log;
    if UINT64_MAX in log {
      IndexIsMonotone(vertices, log, UINT64_MAX, x);
      IndexOfVertex(vertices, log, x);
    }
  }

  lemma PlacedIsSafe(key: Order, vertices: seq<nat>, log: Dictionary, edges: seq<Edge>, sorted: seq<Edge>)
    requires Indexes(vertices, log) && VerticesOf(vertices, edges) && Words(edges) && !Misplaces(key, edges)
    requires Sorted(key, sorted) && forall e :: e in sorted <==> e in edges
    ensures SentinelSafe(key, sorted, log)
  {
    if e :| e in edges && RowEnd(key, e) != UINT64_MAX {
      var i :| 0 <= i < |sorted| && sorted[i] == e;
      assert i > 0 ==> !Before(key, sorted[i], sorted[0]);
      var j :| 0 <= j < |edges| && edges[j] == e;
    } else if sorted != [] {
      assert sorted[0] in edges && RowEnd(key, sorted[0]) == UINT64_MAX;
      var j :| 0 <= j < |edges| && edges[j] == sorted[0];
      assert EndOf(edges, UINT64_MAX);
      IndexOfVertex(vertices, log, UINT64_MAX);
      assert EndOf(edges, vertices[0]);
    }
  }

  // ----- the load

  /** Every edge of the stream, read one by one. */
  method ReadEdges(stream: WeightedEdgeStream) returns (edges: seq<Edge>)
    requires stream.Valid()
    ensures edges == stream.Edges()
  {
    edges := [];
    for i := 0 to stream.numEdges
      invariant edges == stream.Edges()[..i]
    {
      var e := stream.Get(i);
      edges := edges + [e.value];
    }
    assert stream.Edges()[..stream.numEdges] == stream.Edges();
  }

  /** A sort: whatever the edges are, a permutation that puts them in order. */
  ghost predicate SortsAlways(key: Order, sort: seq<Edge> -> seq<nat>)
  {
    forall edges :: Permutation(sort(edges), |edges|) && Sorts(key, edges, sort(edges))
  }

  lemma MaxBounds(edges: seq<Edge>, m: nat)
    requires IsMax(edges, m) && m < WORD_LIMIT
    ensures Words(edges)
  {
  }

  lemma SortAt(key: Order, sort: seq<Edge> -> seq<nat>, edges: seq<Edge>)
    requires SortsAlways(key, sort)
    ensures Permutation(sort(edges), |edges|) && Sorts(key, edges, sort(edges))
  {
  }

  ghost predicate SortsWords(sort: seq<nat> -> seq<nat>)
  {
    forall s: seq<nat> :: multiset(sort(s)) == multiset(s) && forall i, j :: 0 <= i < j < |sort(s)| ==>
      sort(s)[i] <= sort(s)[j]
  }

  /** The sorted vertex list. */
  lemma SortedList(order: seq<nat>, sort: seq<nat> -> seq<nat>, edges: seq<Edge>)
    requires Lists(order, edges) && SortsWords(sort)
    ensures Increasing(sort(order)) && VerticesOf(sort(order), edges)
  {
    var ascending := sort(order);
    assert multiset(ascending) == multiset(order);
    forall x: nat ensures x in ascending <==> x in order {
      assert x in ascending <==> x in multiset(ascending);
      assert x in order <==> x in multiset(order);
    }
    assert Distinct(order);
    forall i: nat, j: nat | i < j < |ascending|
      ensures ascending[i] < ascending[j]
    {
      if ascending[i] == ascending[j] {
        CountTwice(ascending, i, j);
        DistinctCount(order, ascending[i]);
      }
    }
  }

  method ReadList(list: CByteArray) returns (s: seq<nat>)
    requires list.Valid()
    ensures s == list.Contents()
  {
    s := [];
    for i := 0 to list.capacity
      invariant s == list.Contents()[..i]
    {
      var x := list.GetValueAt(i);
      s := s + [x];
    }
    assert list.Contents()[..list.capacity] == list.Contents();
  }

  /** A list that went through elements too small for the largest vertex. */
  lemma MaxIsLost(order: seq<nat>, list: seq<nat>, sort: seq<nat> -> seq<nat>, m: nat)
    requires m > 1 && PowerOf256(m) && SortsWords(sort) && |list| == |order|
    requires forall i :: 0 <= i < |order| ==> list[i] == Truncated(order[i], BytesPerElement(m))
    ensures m !in sort(list)
  {
    forall x | x in list ensures x < m {
      var i :| 0 <= i < |list| && list[i] == x;
      FitsIsKept(order[i], BytesPerElement(m));
    }
    assert multiset(sort(list)) == multiset(list);
    assert m in sort(list) <==> m in multiset(sort(list));
    assert m in list <==> m in multiset(list);
  }

  /** Without its largest vertex a CSR does not hold the edges of the stream. */
  lemma PowerIsNotLoaded(g: Graph, edges: seq<Edge>, order: seq<nat>, list: seq<nat>, sort: seq<nat> -> seq<nat>,
      m: nat)
    requires IsMax(edges, m) && m > 1 && PowerOf256(m) && SortsWords(sort) && |list| == |order|
    requires forall i :: 0 <= i < |order| ==> list[i] == Truncated(order[i], BytesPerElement(m))
    requires g.ids == sort(list)
    ensures !Loaded(g, edges)
  {
    MaxIsLost(order, list, sort, m);
    MaxIsEnd(edges, m);
    hide OutNamed, InNamed, EndsCounted, WellFormed, RowsAscend, Increasing;
  }

  lemma MaxIsEnd(edges: seq<Edge>, m: nat)
    requires IsMax(edges, m) && m > 0
    ensures EndOf(edges, m)
  {
  }

  /**
   `vertices = stream.vertex_list(); vertices->sort()`; the largest vertex is refused if it is 0 or 1. If it is a power
   of 256, it turns into 0, and no CSR over these vertices holds the edges of the stream.
   */
  method SortedVertices(stream: WeightedEdgeStream, order: seq<nat>, sort: seq<nat> -> seq<nat>)
    returns (vertices: Option<seq<nat>>)
    requires stream.Valid() && IsMax(stream.Edges(), stream.maxVertexId) && Lists(order, stream.Edges())
    requires SortsWords(sort)
    ensures vertices.Some? <==> stream.maxVertexId > 1
    ensures vertices.Some? && !PowerOf256(stream.maxVertexId) ==>
      Increasing(vertices.value) && VerticesOf(vertices.value, stream.Edges())
    ensures vertices.Some? && PowerOf256(stream.maxVertexId) ==>
      forall g: Graph :: g.ids == vertices.value ==> !Loaded(g, stream.Edges())
  {
    hide *;
    ghost var edges, m := stream.Edges(), stream.maxVertexId;
    StreamBounds(stream);
    var list := stream.GetVertexList(order);
    AcceptedIff(m);
    if list.None? {
      return None;
    }
    SomeEdge(edges, m);
    VertexListIff(order, edges, m);
    var s := ReadList(list.value);
    vertices := Some(sort(s));
    if PowerOf256(m) {
      forall g: Graph | g.ids == sort(s) ensures !Loaded(g, edges) {
        PowerIsNotLoaded(g, edges, order, s, sort, m);
      }
    } else {
      assert s == order;
      SortedList(order, sort, edges);
    }
  }

  lemma StreamBounds(stream: WeightedEdgeStream)
    requires stream.Valid()
    ensures stream.maxVertexId < WORD_LIMIT
  {
  }

  lemma SmallIsPlaced(key: Order, edges: seq<Edge>, m: nat)
    requires IsMax(edges, m) && 0 < m < UINT64_MAX
    ensures !Misplaces(key, edges)
  {
    SomeEdge(edges, m);
    assert edges[0] in edges && RowEnd(key, edges[0]) <= m;
  }

  lemma SomeEdge(edges: seq<Edge>, m: nat)
    requires IsMax(edges, m) && m > 0
    ensures edges != []
  {
  }

  /** One sort, and then all the edges. */
  method SortAndRead(stream: WeightedEdgeStream, key: Order, sort: seq<Edge> -> seq<nat>, hardwareConcurrency: nat)
    returns (edges: seq<Edge>)
    requires stream.Valid() && IsMax(stream.Edges(), stream.maxVertexId) && SortsAlways(key, sort)
    requires stream.maxVertexId > 1 && !PowerOf256(stream.maxVertexId)
    modifies stream
    ensures stream.Valid() && IsMax(stream.Edges(), stream.maxVertexId) && stream.maxVertexId == old(stream.maxVertexId)
    ensures edges == stream.Edges() && Sorted(key, edges) && multiset(edges) == multiset(old(stream.Edges()))
  {
    hide *;
    var now := ReadEdges(stream);
    SortAt(key, sort, now);
    EdgeCount(stream);
    var ok := stream.Sort(key, sort(now), hardwareConcurrency);
    edges := ReadEdges(stream);
  }

  lemma EdgeCount(stream: WeightedEdgeStream)
    requires stream.Valid()
    ensures |stream.Edges()| == stream.numEdges
  {
  }

  /**
   Load a stream whose largest vertex survives compact storage. `order` is the order of its hash map of vertices, and
   the sorts are whatever `common::sort` does. A second load, and a largest vertex of 0 or 1, is refused.
   */
  method LoadStream(csr: CSR, stream: WeightedEdgeStream, order: seq<nat>, sortVertices: seq<nat> -> seq<nat>,
      bySource: seq<Edge> -> seq<nat>, byDestination: seq<Edge> -> seq<nat>, hardwareConcurrency: nat)
    returns (ok: bool)
    requires stream.Valid() && IsMax(stream.Edges(), stream.maxVertexId) && Lists(order, stream.Edges())
    requires SortsWords(sortVertices) && SortsAlways(BySource, bySource) && SortsAlways(ByDestination, byDestination)
    requires stream.maxVertexId > 1 ==> !PowerOf256(stream.maxVertexId)
    modifies csr, stream
    ensures ok <==> !old(csr.loaded) && old(stream.maxVertexId) > 1
    ensures ok ==> csr.loaded && csr.numEdges == |old(stream.Edges())| && Indexes(csr.log2ext[..], csr.ext2log)
    ensures ok ==> (Loaded(csr.AsGraph(), old(stream.Edges())) <==>
      !Misplaces(BySource, old(stream.Edges())) && !Misplaces(ByDestination, old(stream.Edges())))
    ensures ok && old(stream.maxVertexId) < 0xffff_ffff_ffff_ffff ==> Loaded(csr.AsGraph(), old(stream.Edges()))
  {
    ghost var edges, m := stream.Edges(), stream.maxVertexId;
    hide *;
    if csr.loaded {
      return false;
    }
    StreamBounds(stream);
    var vertices := SortedVertices(stream, order, sortVertices);
    if vertices.None? {
      return false;
    }
    MaxBounds(edges, m);
    var first := SortAndRead(stream, BySource, bySource, hardwareConcurrency);
    var second := SortAndRead(stream, ByDestination, byDestination, hardwareConcurrency);
    ok := csr.Load(vertices.value, edges, first, second);
    SafeUnlessMisplaced(BySource, vertices.value, csr.ext2log, edges, first);
    SafeUnlessMisplaced(ByDestination, vertices.value, csr.ext2log, edges, second);
    BothSafeIs(csr.ext2log, first, second);
    if m < UINT64_MAX {
      SmallIsPlaced(BySource, edges, m);
      SmallIsPlaced(ByDestination, edges, m);
    }
  }

  lemma BothSafeIs(log: Dictionary, bySource: seq<Edge>, byDestination: seq<Edge>)
    ensures BothSafe(log, bySource, byDestination) <==>
      SentinelSafe(BySource, bySource, log) && SentinelSafe(ByDestination, byDestination, log)
  {
  }
}
