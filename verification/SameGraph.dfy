/** When a loaded CSR and an adjacency list hold the same graph. */
module SameGraph {
  import opened Walks
  import opened Csr
  import opened EdgeLists
  import opened Ranges

  /** The external vertex of a logical one. */
  function Name(g: Graph): nat -> nat
  {
    (v: nat) => if v < |g.ids| then g.ids[v] else 0
  }

  /** A row as the adjacency list would store it: external neighbours with weights. */
  function Named(g: Graph, rows: seq<nat>, cells: seq<nat>, weights: seq<int>, u: nat): (r: EdgeList)
    requires Rows(g.n, rows, cells) && |weights| == |cells| && |g.ids| == g.n && u < g.n
    ensures |r| == |Row(rows, cells, u)| == |Row(rows, weights, u)|
    ensures forall i :: 0 <= i < |r| ==>
      Row(rows, cells, u)[i] < g.n && r[i] == (g.ids[Row(rows, cells, u)[i]], Row(rows, weights, u)[i])
  {
    var row, ws := Row(rows, cells, u), Row(rows, weights, u);
    seq(|row|, i requires 0 <= i < |row| => (g.ids[row[i]], ws[i]))
  }

  function NamedOut(g: Graph, u: nat): EdgeList
    requires WellFormed(g) && u < g.n
  {
    Named(g, g.outV, g.outE, g.outW, u)
  }

  function NamedIn(g: Graph, u: nat): EdgeList
    requires WellFormed(g) && u < g.n
  {
    Named(g, g.inV, g.inE, g.inW, u)
  }

  /** The incoming edges of a vertex: its second list, or the only one if the graph is undirected. */
  function Incoming(directed: bool, nodes: NodeList, x: nat): EdgeList
    requires x in nodes
  {
    BackList(directed, nodes, x)
  }

  ghost predicate Same(g: Graph, directed: bool, nodes: NodeList)
  {
    && WellFormed(g) && g.directed == directed
    && (forall u, v :: 0 <= u < v < g.n ==> g.ids[u] < g.ids[v])
    && (forall x: nat :: x in nodes <==> x in g.ids)
    && (forall u: nat :: u < g.n ==> multiset(NamedOut(g, u)) == multiset(nodes[g.ids[u]].out))
    && (forall u: nat :: u < g.n ==> multiset(NamedIn(g, u)) == multiset(Incoming(directed, nodes, g.ids[u])))
  }

  /** The arcs of the out-lists, each of weight 1. */
  ghost function NodeArcs(nodes: NodeList): set<Arc>
  {
    set s, i | s in nodes && 0 <= i < |nodes[s].out| :: Arc(s, nodes[s].out[i].0, 1)
  }

  lemma NodeArcsAre(nodes: NodeList, a: Arc)
    ensures a in NodeArcs(nodes) <==> a.src in nodes && a.weight == 1 && Has(nodes[a.src].out, a.dst)
  {
    if a.src in nodes && a.weight == 1 && Has(nodes[a.src].out, a.dst) {
      var i :| 0 <= i < |nodes[a.src].out| && nodes[a.src].out[i].0 == a.dst;
      assert a == Arc(a.src, nodes[a.src].out[i].0, 1);
    }
  }

  lemma SameMembers<T>(a: seq<T>, b: seq<T>, x: T)
    requires multiset(a) == multiset(b)
    ensures x in a <==> x in b
  {
    assert x in a <==> multiset(a)[x] > 0;
    assert x in b <==> multiset(b)[x] > 0;
  }

  lemma SameLength<T>(a: seq<T>, b: seq<T>)
    requires multiset(a) == multiset(b)
    ensures |a| == |b|
  {
    assert |multiset(a)| == |a| && |multiset(b)| == |b|;
  }

  lemma NameIsInjective(g: Graph, directed: bool, nodes: NodeList)
    requires Same(g, directed, nodes)
    ensures Injective(Name(g), UpTo(g.n))
  {
  }

  lemma NamedArc(g: Graph, a: Arc) returns (i: nat)
    requires WellFormed(g) && a in UnitArcs(g) && a.src < g.n && a.dst < g.n
    ensures i < |NamedOut(g, a.src)| && NamedOut(g, a.src)[i].0 == g.ids[a.dst]
    ensures NamedOut(g, a.src)[i] in NamedOut(g, a.src)
  {
    UnitArcsAre(g, a);
    i :| 0 <= i < |Out(g, a.src)| && Out(g, a.src)[i] == a.dst;
    assert NamedOut(g, a.src)[i] == (g.ids[a.dst], NamedOut(g, a.src)[i].1);
  }

  lemma ArcHasName(g: Graph, directed: bool, nodes: NodeList, a: Arc)
    requires Same(g, directed, nodes) && a in UnitArcs(g)
    ensures a.src < g.n && a.dst < g.n && Arc(Name(g)(a.src), Name(g)(a.dst), a.weight) in NodeArcs(nodes)
  {
    UnitArcsAre(g, a);
    var named, list := NamedOut(g, a.src), nodes[g.ids[a.src]].out;
    var i := NamedArc(g, a);
    assert g.ids[a.src] in nodes && multiset(named) == multiset(list);
    hide *;
    SameMembers(named, list, named[i]);
    var j :| 0 <= j < |list| && list[j] == named[i];
    NodeArcsAre(nodes, Arc(g.ids[a.src], g.ids[a.dst], 1));
  }

  lemma ArcIsNamed(g: Graph, directed: bool, nodes: NodeList, b: Arc) returns (a: Arc)
    requires Same(g, directed, nodes) && b in NodeArcs(nodes)
    ensures a in UnitArcs(g) && b == Arc(Name(g)(a.src), Name(g)(a.dst), a.weight)
  {
    NodeArcsAre(nodes, b);
    assert b.src in g.ids;
    var u :| 0 <= u < g.n && g.ids[u] == b.src;
    var list, named := nodes[b.src].out, NamedOut(g, u);
    var i :| 0 <= i < |list| && list[i].0 == b.dst;
    assert multiset(named) == multiset(list);
    a := NamedIsArc(g, u, list, i);
  }

  lemma NamedIsArc(g: Graph, u: nat, list: EdgeList, i: nat) returns (a: Arc)
    requires WellFormed(g) && u < g.n && i < |list| && multiset(NamedOut(g, u)) == multiset(list)
    ensures a in UnitArcs(g) && a.src == u && a.weight == 1 && a.dst < g.n && g.ids[a.dst] == list[i].0
  {
    var named := NamedOut(g, u);
    SameMembers(named, list, list[i]);
    var j :| 0 <= j < |named| && named[j] == list[i];
    a := Arc(u, Out(g, u)[j], 1);
    UnitArcsAre(g, a);
  }

  /** The arcs of the two stores are the same up to the dictionary. */
  lemma ArcsCorrespond(g: Graph, directed: bool, nodes: NodeList)
    requires Same(g, directed, nodes)
    ensures Renamed(UnitArcs(g), Name(g), NodeArcs(nodes)) && ArcsOver(UnitArcs(g), UpTo(g.n))
  {
    assert WellFormed(g);
    hide Same, WellFormed, UnitArcs, NodeArcs, Name;
    forall a | a in UnitArcs(g)
      ensures a.src < g.n && a.dst < g.n && Arc(Name(g)(a.src), Name(g)(a.dst), a.weight) in NodeArcs(nodes)
    {
      ArcHasName(g, directed, nodes, a);
    }
    forall b | b in NodeArcs(nodes)
      ensures exists a :: a in UnitArcs(g) && b == Arc(Name(g)(a.src), Name(g)(a.dst), a.weight)
    {
      var a := ArcIsNamed(g, directed, nodes, b);
    }
  }

  // ----- the same with weights

  ghost predicate NonNegativeLists(nodes: NodeList)
  {
    forall s, i :: s in nodes && 0 <= i < |nodes[s].out| ==> nodes[s].out[i].1 >= 0
  }

  /** The arcs of the out-lists with their weights. */
  ghost function NodeWeightedArcs(nodes: NodeList): set<Arc>
    requires NonNegativeLists(nodes)
  {
    set s, i | s in nodes && 0 <= i < |nodes[s].out| :: Arc(s, nodes[s].out[i].0, nodes[s].out[i].1)
  }

  lemma NodeWeightedArcsAre(nodes: NodeList, a: Arc)
    requires NonNegativeLists(nodes)
    ensures a in NodeWeightedArcs(nodes) <==> a.src in nodes && (a.dst, a.weight as int) in nodes[a.src].out
  {
    if a.src in nodes && (a.dst, a.weight as int) in nodes[a.src].out {
      var i :| 0 <= i < |nodes[a.src].out| && nodes[a.src].out[i] == (a.dst, a.weight as int);
      assert a == Arc(a.src, nodes[a.src].out[i].0, nodes[a.src].out[i].1);
    }
  }

  /** The list of a vertex has exactly the edges of its row. */
  lemma SameRow(g: Graph, directed: bool, nodes: NodeList, u: nat, x: nat, w: int)
    requires Same(g, directed, nodes) && u < g.n
    ensures g.ids[u] in nodes
    ensures (x, w) in nodes[g.ids[u]].out <==> (x, w) in NamedOut(g, u)
  {
    assert g.ids[u] in nodes && multiset(NamedOut(g, u)) == multiset(nodes[g.ids[u]].out);
    hide *;
    SameMembers(NamedOut(g, u), nodes[g.ids[u]].out, (x, w));
  }

  lemma NamedEntry(g: Graph, u: nat, e: nat)
    requires WellFormed(g) && u < g.n && Lo(g.outV, u) <= e < Hi(g.outV, u)
    ensures e < |g.outE| && g.outE[e] < g.n && (g.ids[g.outE[e]], g.outW[e]) in NamedOut(g, u)
  {
    assert Hi(g.outV, u) <= |g.outE|;
    var k := e - Lo(g.outV, u);
    assert Row(g.outV, g.outE, u)[k] == g.outE[e] && Row(g.outV, g.outW, u)[k] == g.outW[e];
    assert NamedOut(g, u)[k] == (g.ids[g.outE[e]], g.outW[e]);
  }

  lemma EntryOfNamed(g: Graph, u: nat, x: nat, w: int) returns (e: nat)
    requires WellFormed(g) && u < g.n && (x, w) in NamedOut(g, u)
    ensures Lo(g.outV, u) <= e < Hi(g.outV, u) && e < |g.outE| && g.outE[e] < g.n && x == g.ids[g.outE[e]]
    ensures w == g.outW[e]
  {
    var k :| 0 <= k < |NamedOut(g, u)| && NamedOut(g, u)[k] == (x, w);
    e := Lo(g.outV, u) + k;
    assert Row(g.outV, g.outE, u)[k] == g.outE[e] && Row(g.outV, g.outW, u)[k] == g.outW[e];
  }

  lemma Logical(g: Graph, directed: bool, nodes: NodeList, x: nat) returns (u: nat)
    requires Same(g, directed, nodes) && x in nodes
    ensures WellFormed(g) && u < g.n && g.ids[u] == x
  {
    assert x in g.ids;
    u :| u < g.n && g.ids[u] == x;
  }

  lemma SameIsNonNegative(g: Graph, directed: bool, nodes: NodeList)
    requires Same(g, directed, nodes) && NonNegativeWeights(g)
    ensures NonNegativeLists(nodes)
  {
    hide Same, WellFormed, NamedOut;
    forall s, i | s in nodes && 0 <= i < |nodes[s].out|
      ensures nodes[s].out[i].1 >= 0
    {
      var u := Logical(g, directed, nodes, s);
      SameRow(g, directed, nodes, u, nodes[s].out[i].0, nodes[s].out[i].1);
      var e := EntryOfNamed(g, u, nodes[s].out[i].0, nodes[s].out[i].1);
    }
  }

  lemma WeightedArcHasName(g: Graph, directed: bool, nodes: NodeList, a: Arc)
    requires Same(g, directed, nodes) && NonNegativeWeights(g) && NonNegativeLists(nodes) && a in WeightedArcs(g)
    ensures a.src < g.n && a.dst < g.n && Arc(Name(g)(a.src), Name(g)(a.dst), a.weight) in NodeWeightedArcs(nodes)
  {
    assert WellFormed(g) && |g.ids| == g.n;
    var u, e :| 0 <= u < g.n && Lo(g.outV, u) <= e < Hi(g.outV, u) && a == Arc(u, g.outE[e], g.outW[e]);
    hide WellFormed, Same, NamedOut, Lo, Hi, NodeWeightedArcs;
    NamedEntry(g, u, e);
    SameRow(g, directed, nodes, u, g.ids[a.dst], a.weight);
    NodeWeightedArcsAre(nodes, Arc(g.ids[u], g.ids[a.dst], a.weight));
  }

  lemma WeightedArcIsNamed(g: Graph, directed: bool, nodes: NodeList, b: Arc) returns (a: Arc)
    requires Same(g, directed, nodes) && NonNegativeWeights(g) && NonNegativeLists(nodes)
    requires b in NodeWeightedArcs(nodes)
    ensures a in WeightedArcs(g) && b == Arc(Name(g)(a.src), Name(g)(a.dst), a.weight)
  {
    NodeWeightedArcsAre(nodes, b);
    assert WellFormed(g) && |g.ids| == g.n;
    hide WellFormed, Same, NamedOut, Lo, Hi, NodeWeightedArcs;
    var u := Logical(g, directed, nodes, b.src);
    SameRow(g, directed, nodes, u, b.dst, b.weight);
    var e := EntryOfNamed(g, u, b.dst, b.weight);
    a := Arc(u, g.outE[e], g.outW[e]);
  }

  /** The weighted arcs of the two stores are the same up to the dictionary. */
  lemma WeightedArcsCorrespond(g: Graph, directed: bool, nodes: NodeList)
    requires Same(g, directed, nodes) && NonNegativeWeights(g) && NonNegativeLists(nodes)
    ensures Renamed(WeightedArcs(g), Name(g), NodeWeightedArcs(nodes)) && ArcsOver(WeightedArcs(g), UpTo(g.n))
  {
    assert WellFormed(g);
    hide Same, WellFormed, WeightedArcs, NodeWeightedArcs, Name;
    forall a | a in WeightedArcs(g)
      ensures a.src < g.n && a.dst < g.n && Arc(Name(g)(a.src), Name(g)(a.dst), a.weight) in NodeWeightedArcs(nodes)
    {
      WeightedArcHasName(g, directed, nodes, a);
    }
    forall b | b in NodeWeightedArcs(nodes)
      ensures exists a :: a in WeightedArcs(g) && b == Arc(Name(g)(a.src), Name(g)(a.dst), a.weight)
    {
      var a := WeightedArcIsNamed(g, directed, nodes, b);
    }
  }
}
