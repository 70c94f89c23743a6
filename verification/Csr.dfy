/**
 The compressed sparse row representation once it is loaded: vertex arrays of
 prefix sums, edge arrays, and the dictionary from logical to external vertices.
 The kernels only read it, so here it is a value; `CsrLoader` builds it.
 */
module Csr {
  import opened Walks

  datatype Option<+T> = None | Some(value: T)

  datatype Graph = Graph(
    n: nat,               // m_num_vertices
    directed: bool,       // m_is_directed
    outV: seq<nat>,       // m_out_v, prefix sums of the out degrees
    outE: seq<nat>,       // m_out_e
    outW: seq<int>,       // m_out_w
    inV: seq<nat>,
    inE: seq<nat>,
    inW: seq<int>,
    ids: seq<nat>)        // m_log2ext

  // ----- intervals

  function Lo(rows: seq<nat>, u: nat): nat
    requires u < |rows|
  {
    if u == 0 then 0 else rows[u - 1]
  }

  function Hi(rows: seq<nat>, u: nat): nat
    requires u < |rows|
  {
    rows[u]
  }

  /** `rows` are prefix sums over `edges`, and every edge ends in a vertex. */
  ghost predicate Rows(n: nat, rows: seq<nat>, edges: seq<nat>)
  {
    && |rows| == n
    && (forall u, v :: 0 <= u <= v < n ==> rows[u] <= rows[v])
    && (if n == 0 then |edges| == 0 else rows[n - 1] == |edges|)
    && (forall i :: 0 <= i < |edges| ==> edges[i] < n)
  }

  ghost predicate WellFormed(g: Graph)
  {
    && Rows(g.n, g.outV, g.outE) && |g.outW| == |g.outE|
    && Rows(g.n, g.inV, g.inE) && |g.inW| == |g.inE|
    && |g.ids| == g.n
  }

  function Row<T>(rows: seq<nat>, cells: seq<T>, u: nat): (r: seq<T>)
    requires u < |rows| && Lo(rows, u) <= Hi(rows, u) <= |cells|
    ensures |r| == Hi(rows, u) - Lo(rows, u)
  {
    cells[Lo(rows, u)..Hi(rows, u)]
  }

  /** The logical out-neighbours of `u`, in storage order. */
  function Out(g: Graph, u: nat): seq<nat>
    requires WellFormed(g) && u < g.n
  {
    Row(g.outV, g.outE, u)
  }

  function In(g: Graph, u: nat): seq<nat>
    requires WellFormed(g) && u < g.n
  {
    Row(g.inV, g.inE, u)
  }

  function OutDegree(g: Graph, u: nat): nat
    requires WellFormed(g) && u < g.n
  {
    Hi(g.outV, u) - Lo(g.outV, u)
  }

  /** m_num_edges: an undirected edge is stored at both of its ends but counted once. */
  function NumEdges(g: Graph): nat
  {
    if g.directed then |g.outE| else |g.outE| / 2
  }

  /** The in-arrays are the transpose of the out-arrays, with multiplicities. */
  ghost predicate Mirrored(g: Graph)
    requires WellFormed(g)
  {
    forall u, v :: 0 <= u < g.n && 0 <= v < g.n ==> multiset(Out(g, u))[v] == multiset(In(g, v))[u]
  }

  lemma OutIffIn(g: Graph, u: nat, v: nat)
    requires WellFormed(g) && Mirrored(g) && u < g.n && v < g.n
    ensures v in Out(g, u) <==> u in In(g, v)
  {
    assert v in Out(g, u) <==> multiset(Out(g, u))[v] > 0;
    assert u in In(g, v) <==> multiset(In(g, v))[u] > 0;
  }

  // ----- the arcs of the graph, for the specifications over walks

  ghost function UnitArcs(g: Graph): set<Arc>
    requires WellFormed(g)
  {
    set u, i | 0 <= u < g.n && 0 <= i < |Out(g, u)| :: Arc(u, Out(g, u)[i], 1)
  }

  lemma UnitArcsAre(g: Graph, a: Arc)
    requires WellFormed(g)
    ensures a in UnitArcs(g) <==> a.src < g.n && a.weight == 1 && a.dst in Out(g, a.src)
  {
    if a.src < g.n && a.weight == 1 && a.dst in Out(g, a.src) {
      var i :| 0 <= i < |Out(g, a.src)| && Out(g, a.src)[i] == a.dst;
      assert a == Arc(a.src, Out(g, a.src)[i], 1);
    }
  }

  ghost predicate NonNegativeWeights(g: Graph)
  {
    forall i :: 0 <= i < |g.outW| ==> g.outW[i] >= 0
  }

  ghost function WeightedArcs(g: Graph): set<Arc>
    requires WellFormed(g) && NonNegativeWeights(g)
  {
    set u, i | 0 <= u < g.n && Lo(g.outV, u) <= i < Hi(g.outV, u) :: Arc(u, g.outE[i], g.outW[i])
  }
}
