/** Vertices that the checker cannot tell apart: two graphs of two edges, one of them accepted in one role only. */
module HighVertices {
  import opened Ranges
  import opened Walks
  import opened Connectivity
  import opened Csr
  import opened EdgeStreams
  import opened EdgeLists
  import opened SameGraph
  import opened Sequences
  import opened CsrRows
  import opened CsrHalf
  import opened CsrLoader
  import opened WccAgreement
  import Wcc
  import BaselineWcc
  import Validate

  /** The undirected edges from `a` to `c` and from `b` to `d`. */
  function TwoEdges(a: nat, b: nat, c: nat, d: nat): seq<Edge>
  {
    [Edge(a, c, 1), Edge(b, d, 1)]
  }

  function TwoEdgesCsr(a: nat, b: nat, c: nat, d: nat): Graph
  {
    Graph(4, false, [1, 2, 3, 4], [2, 3, 0, 1], [1, 1, 1, 1], [1, 2, 3, 4], [2, 3, 0, 1], [1, 1, 1, 1], [a, b, c, d])
  }

  function TwoEdgesList(a: nat, b: nat, c: nat, d: nat): NodeList
  {
    map[
      a := EdgePair([(c, 1)], []), b := EdgePair([(d, 1)], []),
      c := EdgePair([(a, 1)], []), d := EdgePair([(b, 1)], [])]
  }

  /** The other end of the edge at a vertex. */
  predicate Linked(a: nat, b: nat, c: nat, d: nat, x: nat, y: nat)
  {
    (x, y) in [(a, c), (c, a), (b, d), (d, b)]
  }

  lemma FourRows()
    ensures Rows(4, [1, 2, 3, 4], [2, 3, 0, 1])
  {
  }

  lemma FourRowsAscend()
    ensures RowsAscend([1, 2, 3, 4], [2, 3, 0, 1])
  {
  }

  lemma FourCells()
    ensures var rows: seq<nat>, cells: seq<nat> := [1, 2, 3, 4], [2, 3, 0, 1];
      && Row(rows, cells, 0) == [2] && Row(rows, cells, 1) == [3]
      && Row(rows, cells, 2) == [0] && Row(rows, cells, 3) == [1]
  {
  }

  lemma RowsOfTwo(a: nat, b: nat, c: nat, d: nat)
    ensures var g := TwoEdgesCsr(a, b, c, d);
      && WellFormed(g) && RowsAscend(g.outV, g.outE)
      && Out(g, 0) == In(g, 0) == [2] && Out(g, 1) == In(g, 1) == [3]
      && Out(g, 2) == In(g, 2) == [0] && Out(g, 3) == In(g, 3) == [1]
  {
    hide Rows, RowsAscend, Row;
    FourRows();
    FourRowsAscend();
    FourCells();
  }

  lemma NamedRowsOfTwo(a: nat, b: nat, c: nat, d: nat)
    ensures var g := TwoEdgesCsr(a, b, c, d);
      && WellFormed(g)
      && NamedOut(g, 0) == NamedIn(g, 0) == [(c, 1)] && NamedOut(g, 1) == NamedIn(g, 1) == [(d, 1)]
      && NamedOut(g, 2) == NamedIn(g, 2) == [(a, 1)] && NamedOut(g, 3) == NamedIn(g, 3) == [(b, 1)]
  {
    RowsOfTwo(a, b, c, d);
    hide WellFormed;
  }

  lemma TwoCopies(a: nat, b: nat, c: nat, d: nat, x: nat, y: nat, w: int)
    requires a < b < c < d
    ensures var edges := TwoEdges(a, b, c, d);
      && Copies(false, edges, x, y, w) == (if w == 1 && Linked(a, b, c, d, x, y) then 1 else 0)
      && EndCopies(false, edges, x, y) == (if Linked(a, b, c, d, x, y) then 1 else 0)
  {
    assert Mapped(TwoEdges(a, b, c, d), EndsOf()) == [Ends(a, c), Ends(b, d)];
  }

  lemma TwoEnds(a: nat, b: nat, c: nat, d: nat)
    requires a < b < c < d
    ensures forall x: nat :: EndOf(TwoEdges(a, b, c, d), x) <==> x in [a, b, c, d]
    ensures VerticesOf([a, b, c, d], TwoEdges(a, b, c, d))
  {
    var edges := TwoEdges(a, b, c, d);
    assert edges[0] == Edge(a, c, 1) && edges[1] == Edge(b, d, 1);
  }

  lemma TwoAreNamed(a: nat, b: nat, c: nat, d: nat)
    requires a < b < c < d && WellFormed(TwoEdgesCsr(a, b, c, d))
    ensures OutNamed(TwoEdgesCsr(a, b, c, d), TwoEdges(a, b, c, d))
    ensures InNamed(TwoEdgesCsr(a, b, c, d), TwoEdges(a, b, c, d))
  {
    var g, edges := TwoEdgesCsr(a, b, c, d), TwoEdges(a, b, c, d);
    NamedRowsOfTwo(a, b, c, d);
    hide WellFormed, NamedOut, NamedIn, Copies, TwoEdges;
    forall u: nat, x: nat, w: int | u < g.n
      ensures multiset(NamedOut(g, u))[(x, w)] == Copies(false, edges, g.ids[u], x, w)
      ensures multiset(NamedIn(g, u))[(x, w)] == Copies(false, edges, x, g.ids[u], w)
    {
      TwoCopies(a, b, c, d, g.ids[u], x, w);
      TwoCopies(a, b, c, d, x, g.ids[u], w);
    }
  }

  lemma TwoAreCounted(a: nat, b: nat, c: nat, d: nat)
    requires a < b < c < d && WellFormed(TwoEdgesCsr(a, b, c, d))
    ensures EndsCounted(TwoEdgesCsr(a, b, c, d), TwoEdges(a, b, c, d))
  {
    var g, edges := TwoEdgesCsr(a, b, c, d), TwoEdges(a, b, c, d);
    RowsOfTwo(a, b, c, d);
    hide WellFormed, Out, In, EndCopies, TwoEdges;
    forall u: nat, v: nat | u < g.n && v < g.n
      ensures multiset(Out(g, u))[v] == EndCopies(false, edges, g.ids[u], g.ids[v])
      ensures multiset(In(g, v))[u] == EndCopies(false, edges, g.ids[u], g.ids[v])
    {
      TwoCopies(a, b, c, d, g.ids[u], g.ids[v], 1);
    }
  }

  lemma TwoAreLoaded(a: nat, b: nat, c: nat, d: nat)
    requires a < b < c < d
    ensures Loaded(TwoEdgesCsr(a, b, c, d), TwoEdges(a, b, c, d))
  {
    var g := TwoEdgesCsr(a, b, c, d);
    RowsOfTwo(a, b, c, d);
    TwoEnds(a, b, c, d);
    TwoAreNamed(a, b, c, d);
    TwoAreCounted(a, b, c, d);
    assert Increasing(g.ids);
    hide WellFormed, Out, In, OutNamed, InNamed, EndsCounted, RowsAscend, VerticesOf, Increasing;
  }

  lemma TwoAreStored(a: nat, b: nat, c: nat, d: nat)
    requires a < b < c < d
    ensures ListStores(false, TwoEdgesList(a, b, c, d), TwoEdges(a, b, c, d))
  {
    var nodes, edges := TwoEdgesList(a, b, c, d), TwoEdges(a, b, c, d);
    TwoEnds(a, b, c, d);
    forall x: nat, y: nat, w: int ensures HasEdge(nodes, x, y, w) <==> w == 1 && Linked(a, b, c, d, x, y) {
    }
    assert forall v :: v in nodes ==> |nodes[v].out| == 1 && nodes[v].inc == [];
    hide TwoEdges, TwoEdgesList;
    forall x: nat, y: nat, w: int ensures HasEdge(nodes, x, y, w) <==> Copies(false, edges, x, y, w) > 0 {
      TwoCopies(a, b, c, d, x, y, w);
    }
    assert Shape(false, nodes) by {
      hide Copies, HasEdge;
    }
  }

  /** Both stores can hold the two edges. */
  lemma BothHoldTwo(a: nat, b: nat, c: nat, d: nat)
    requires a < b < c < d
    ensures Loaded(TwoEdgesCsr(a, b, c, d), TwoEdges(a, b, c, d))
    ensures ListStores(false, TwoEdgesList(a, b, c, d), TwoEdges(a, b, c, d))
    ensures Same(TwoEdgesCsr(a, b, c, d), false, TwoEdgesList(a, b, c, d))
  {
    TwoAreLoaded(a, b, c, d);
    TwoAreStored(a, b, c, d);
    assert SimpleEdges(false, TwoEdges(a, b, c, d));
    hide Loaded, ListStores, SimpleEdges, TwoEdges, TwoEdgesList, Same;
    LoadedIsSame(TwoEdgesCsr(a, b, c, d), TwoEdgesList(a, b, c, d), TwoEdges(a, b, c, d));
  }

  lemma TwoArcs(a: nat, b: nat, c: nat, d: nat, e: Arc)
    requires a < b < c < d
    ensures e in NodeArcs(TwoEdgesList(a, b, c, d)) <==> e.weight == 1 && Linked(a, b, c, d, e.src, e.dst)
  {
    var nodes := TwoEdgesList(a, b, c, d);
    NodeArcsAre(nodes, e);
    hide NodeArcs;
    if Linked(a, b, c, d, e.src, e.dst) {
      assert e.src in nodes && nodes[e.src].out[0].0 == e.dst;
    }
  }

  predicate SameEdge(a: nat, b: nat, c: nat, d: nat, x: nat, y: nat)
  {
    ((x == a || x == c) && (y == a || y == c)) || ((x == b || x == d) && (y == b || y == d))
  }

  lemma SameEdgeConnects(a: nat, b: nat, c: nat, d: nat, x: nat, y: nat)
    requires a < b < c < d && SameEdge(a, b, c, d, x, y)
    ensures Connected(NodeArcs(TwoEdgesList(a, b, c, d)), x, y)
  {
    var arcs := NodeArcs(TwoEdgesList(a, b, c, d));
    if x == y {
      ConnectedSelf(arcs, x);
    } else {
      TwoArcs(a, b, c, d, Arc(x, y, 1));
      ArcConnects(arcs, Arc(x, y, 1));
    }
  }

  lemma OnlySameEdgeConnects(a: nat, b: nat, c: nat, d: nat, x: nat, y: nat)
    requires a < b < c < d && x in TwoEdgesList(a, b, c, d) && Connected(NodeArcs(TwoEdgesList(a, b, c, d)), x, y)
    ensures SameEdge(a, b, c, d, x, y)
  {
    var arcs, inside := NodeArcs(TwoEdgesList(a, b, c, d)), if x == a || x == c then {a, c} else {b, d};
    hide NodeArcs, Connected;
    forall e | e in arcs ensures e.src in inside <==> e.dst in inside { TwoArcs(a, b, c, d, e); }
    StaysInside(arcs, inside, x, y);
  }

  /** The two components. */
  lemma TwoComponents(a: nat, b: nat, c: nat, d: nat)
    requires a < b < c < d
    ensures var nodes := TwoEdgesList(a, b, c, d);
      forall x: nat, y: nat :: x in nodes ==> (Connected(NodeArcs(nodes), x, y) <==> SameEdge(a, b, c, d, x, y))
  {
    var nodes := TwoEdgesList(a, b, c, d);
    hide NodeArcs, Connected, SameEdge, TwoEdgesList;
    forall x: nat, y: nat | x in nodes
      ensures Connected(NodeArcs(nodes), x, y) <==> SameEdge(a, b, c, d, x, y)
    {
      if SameEdge(a, b, c, d, x, y) {
        SameEdgeConnects(a, b, c, d, x, y);
      }
      if Connected(NodeArcs(nodes), x, y) {
        OnlySameEdgeConnects(a, b, c, d, x, y);
      }
    }
  }

  lemma WhoIsAbove(a: nat, b: nat, c: nat, d: nat, x: nat)
    requires a < b < c < d && c >= INT64_MAX && x in TwoEdgesList(a, b, c, d)
    ensures AboveCap(NodeArcs(TwoEdgesList(a, b, c, d)), x) <==>
      if x == a || x == c then a >= INT64_MAX else b >= INT64_MAX
  {
    TwoComponents(a, b, c, d);
    var arcs := NodeArcs(TwoEdgesList(a, b, c, d));
    hide NodeArcs, Connected;
    var y := if x == a || x == c then a else b;
    assert Connected(arcs, x, y);
  }

  lemma TwoConditions(a: nat, b: nat, c: nat, d: nat)
    requires a < b < c < d && c >= INT64_MAX
    ensures var nodes := TwoEdgesList(a, b, c, d);
      && !HighTogether(nodes) && (HighTogetherOrApart(nodes) <==> a >= INT64_MAX)
      && (OneAboveCap(nodes) <==> a < INT64_MAX)
  {
    var nodes := TwoEdgesList(a, b, c, d);
    var arcs := NodeArcs(nodes);
    assert nodes.Keys == {a, b, c, d};
    TwoComponents(a, b, c, d);
    forall x: nat | x in nodes
      ensures AboveCap(arcs, x) <==> if x == a || x == c then a >= INT64_MAX else b >= INT64_MAX
    {
      WhoIsAbove(a, b, c, d, x);
    }
    hide NodeArcs, Connected, AboveCap, TwoEdgesList;
    assert High(c) && High(d) && !Connected(arcs, c, d) && !Connected(arcs, a, b);
  }

  /**
   Take edges from `a` to `c` and from `b` to `d` with `c` not below the largest signed 64-bit integer. The checker
   takes `c` and `d` for one vertex: it never accepts the file of the adjacency list against that of the CSR, not even
   if the labels of both identify the components, and the reverse only if those of the adjacency list do not.
   */
  lemma TwoEdgesValidate(a: nat, b: nat, c: nat, d: nat, comp: seq<nat>, order: seq<nat>, labels: map<nat, nat>)
    requires a < b < c < d && c >= 0x7fff_ffff_ffff_ffff
    requires WellFormed(TwoEdgesCsr(a, b, c, d)) && Wcc.Components(TwoEdgesCsr(a, b, c, d), comp)
    requires BaselineWcc.CappedLeast(TwoEdgesList(a, b, c, d), labels)
    requires BaselineWcc.Visits(order, TwoEdgesList(a, b, c, d))
    ensures Loaded(TwoEdgesCsr(a, b, c, d), TwoEdges(a, b, c, d))
    ensures ListStores(false, TwoEdgesList(a, b, c, d), TwoEdges(a, b, c, d))
    ensures |comp| == 4 && forall x :: x in order ==> x in labels
    ensures var csr, list := CsrLines(TwoEdgesCsr(a, b, c, d), comp), BaselineLines(order, labels);
      && !Validate.IsAccepted(Validate.Parsed(list), Validate.Parsed(csr))
      && (Validate.IsAccepted(Validate.Parsed(csr), Validate.Parsed(list)) <==> a >= 0x7fff_ffff_ffff_ffff)
      && Identifies(NodeArcs(TwoEdgesList(a, b, c, d)), csr)
      && (Identifies(NodeArcs(TwoEdgesList(a, b, c, d)), list) <==> a < 0x7fff_ffff_ffff_ffff)
  {
    var g, nodes := TwoEdgesCsr(a, b, c, d), TwoEdgesList(a, b, c, d);
    assert |comp| == 4 == g.n;
    hide *;
    BothHoldTwo(a, b, c, d);
    TwoConditions(a, b, c, d);
    BaselineAcceptedIff(g, false, nodes, comp, order, labels);
    CsrAcceptedIff(g, false, nodes, comp, order, labels);
    CsrIdentifies(g, false, nodes, comp);
    BaselineIdentifiesIff(false, nodes, order, labels);
  }
}
