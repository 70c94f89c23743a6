/** Weakly connected components of the adjacency list: propagate the smallest label until nothing changes. */
module BaselineWcc {
  import opened Ranges
  import opened Walks
  import opened Connectivity
  import opened GraphState
  import opened EdgeLists
  import opened SameGraph

  /** The order in which the hash map is visited: every vertex once. */
  ghost predicate Visits(order: seq<nat>, nodes: NodeList)
  {
    && (forall i, j :: 0 <= i < j < |order| ==> order[i] != order[j])
    && (forall x: nat :: x in order <==> x in nodes)
  }

  type Labels = map<nat, nat>

  /** Labels stay below the vertex, and are vertices of its component unless they hit the cap. */
  ghost predicate Sound(nodes: NodeList, labels: Labels)
  {
    && labels.Keys == nodes.Keys
    && forall v :: v in nodes ==> labels[v] <= v && (labels[v] == INT64_MAX || Connected(NodeArcs(nodes), v, labels[v]))
  }

  ghost predicate Closed(nodes: NodeList)
  {
    forall v :: v in nodes ==>
      (forall e :: e in nodes[v].out ==> e.0 in nodes) && (forall e :: e in nodes[v].inc ==> e.0 in nodes)
  }

  ghost predicate Neighbour(nodes: NodeList, v: nat, u: nat)
  {
    v in nodes && (Has(nodes[v].out, u) || Has(nodes[v].inc, u))
  }

  /** The minimum of the cap and the labels of the listed vertices. */
  method MinOver(list: EdgeList, labels: Labels, start: nat) returns (m: nat)
    requires forall i :: 0 <= i < |list| ==> list[i].0 in labels
    ensures m <= start && forall i :: 0 <= i < |list| ==> m <= labels[list[i].0]
    ensures m == start || exists i :: 0 <= i < |list| && m == labels[list[i].0]
  {
    m := start;
    for k := 0 to |list|
      invariant m <= start && forall i :: 0 <= i < k ==> m <= labels[list[i].0]
      invariant m == start || exists i :: 0 <= i < k && m == labels[list[i].0]
    {
      if labels[list[k].0] < m {
        m := labels[list[k].0];
      }
    }
  }

  method MinComponent(nodes: NodeList, labels: Labels, v: nat) returns (m: nat)
    requires Closed(nodes) && labels.Keys == nodes.Keys && v in nodes
    ensures m <= INT64_MAX && forall u :: Neighbour(nodes, v, u) ==> u in labels && m <= labels[u]
    ensures m == INT64_MAX || exists u :: Neighbour(nodes, v, u) && u in labels && m == labels[u]
  {
    var out, inc := nodes[v].out, nodes[v].inc;
    forall i | 0 <= i < |out| ensures out[i].0 in labels { assert out[i] in out; }
    forall i | 0 <= i < |inc| ensures inc[i].0 in labels { assert inc[i] in inc; }
    m := MinOver(out, labels, INT64_MAX);
    if i :| 0 <= i < |out| && m == labels[out[i].0] {
      assert Neighbour(nodes, v, out[i].0);
    }
    ghost var afterOut := m;
    m := MinOver(inc, labels, m);
    if m != afterOut {
      var i :| 0 <= i < |inc| && m == labels[inc[i].0];
      assert Neighbour(nodes, v, inc[i].0);
    }
  }

  /** Neighbours are ends of arcs, because every edge is mirrored. */
  lemma NeighbourConnects(directed: bool, nodes: NodeList, v: nat, u: nat)
    requires Shape(directed, nodes) && Neighbour(nodes, v, u)
    ensures u in nodes && Connected(NodeArcs(nodes), v, u)
    ensures Neighbour(nodes, u, v)
  {
    if Has(nodes[v].out, u) {
      var i :| 0 <= i < |nodes[v].out| && nodes[v].out[i].0 == u;
      assert HasEdge(nodes, v, u, nodes[v].out[i].1);
      assert HasBackEdge(directed, nodes, u, v, nodes[v].out[i].1);
      NodeArcsAre(nodes, Arc(v, u, 1));
      ArcConnects(NodeArcs(nodes), Arc(v, u, 1));
    } else {
      var i :| 0 <= i < |nodes[v].inc| && nodes[v].inc[i].0 == u;
      assert HasBackEdge(directed, nodes, v, u, nodes[v].inc[i].1);
      assert HasEdge(nodes, u, v, nodes[v].inc[i].1);
      NodeArcsAre(nodes, Arc(u, v, 1));
      ArcConnects(NodeArcs(nodes), Arc(u, v, 1));
    }
  }

  lemma ShapeIsClosed(directed: bool, nodes: NodeList)
    requires Shape(directed, nodes)
    ensures Closed(nodes)
  {
    forall v, e | v in nodes && e in nodes[v].out ensures e.0 in nodes {
      var i :| 0 <= i < |nodes[v].out| && nodes[v].out[i] == e;
      assert Neighbour(nodes, v, e.0);
      NeighbourConnects(directed, nodes, v, e.0);
    }
    forall v, e | v in nodes && e in nodes[v].inc ensures e.0 in nodes {
      var i :| 0 <= i < |nodes[v].inc| && nodes[v].inc[i] == e;
      assert Neighbour(nodes, v, e.0);
      NeighbourConnects(directed, nodes, v, e.0);
    }
  }

  lemma UpdateIsSound(directed: bool, nodes: NodeList, labels: Labels, v: nat, m: nat)
    requires Shape(directed, nodes) && Sound(nodes, labels) && v in nodes && m < labels[v]
    requires m == INT64_MAX || exists u :: Neighbour(nodes, v, u) && u in labels && m == labels[u]
    ensures Sound(nodes, labels[v := m])
  {
    if m != INT64_MAX {
      var u :| Neighbour(nodes, v, u) && u in labels && m == labels[u];
      NeighbourConnects(directed, nodes, v, u);
      ConnectedTransitive(NodeArcs(nodes), v, u, m);
    }
    hide Connected, NodeArcs, Neighbour, Shape;
    LowerIsSound(nodes, labels, v, m);
  }

  lemma LowerIsSound(nodes: NodeList, labels: Labels, v: nat, m: nat)
    requires Sound(nodes, labels) && v in nodes && m < labels[v] && (m == INT64_MAX || Connected(NodeArcs(nodes), v, m))
    ensures Sound(nodes, labels[v := m])
  {
    hide Connected, NodeArcs;
  }

  function SumOver(order: seq<nat>, labels: Labels): nat
    requires forall x :: x in order ==> x in labels
  {
    if order == [] then 0
    else
      assert forall x :: x in order[..|order| - 1] ==> x in order;
      SumOver(order[..|order| - 1], labels) + labels[order[|order| - 1]]
  }

  lemma {:induction false} SumShrinks(order: seq<nat>, labels: Labels, v: nat, m: nat)
    requires (forall x :: x in order ==> x in labels) && v in labels && m <= labels[v]
    ensures SumOver(order, labels[v := m]) <= SumOver(order, labels)
    ensures v in order && m < labels[v] ==> SumOver(order, labels[v := m]) < SumOver(order, labels)
  {
    if order != [] {
      var front, last := order[..|order| - 1], order[|order| - 1];
      assert order == front + [last];
      SumShrinks(front, labels, v, m);
    }
  }

  /** Vertex `v` would not be updated. */
  ghost predicate Still(nodes: NodeList, labels: Labels, v: nat)
    requires labels.Keys == nodes.Keys && v in nodes
  {
    labels[v] <= INT64_MAX && forall u :: Neighbour(nodes, v, u) && u in labels ==> labels[v] <= labels[u]
  }

  method Pass(directed: bool, nodes: NodeList, order: seq<nat>, labels: Labels)
    returns (labels': Labels, converged: bool)
    requires Shape(directed, nodes) && Visits(order, nodes) && Sound(nodes, labels)
    ensures Sound(nodes, labels')
    ensures converged ==> labels' == labels && forall v :: v in nodes ==> Still(nodes, labels, v)
    ensures (forall x :: x in order ==> x in labels && x in labels')
    ensures (!converged ==> SumOver(order, labels') < SumOver(order, labels))
  {
    hide Sound, SumOver, Still, Shape, Closed, Visits;
    ShapeIsClosed(directed, nodes);
    OrderInLabels(nodes, order, labels);
    labels', converged := labels, true;
    for k := 0 to |order|
      invariant Sound(nodes, labels') && labels'.Keys == nodes.Keys
      invariant converged ==> labels' == labels && forall i :: 0 <= i < k ==> Still(nodes, labels, order[i])
      invariant SumOver(order, labels') <= SumOver(order, labels)
      invariant !converged ==> SumOver(order, labels') < SumOver(order, labels)
    {
      assert order[k] in order;
      var changed;
      labels', changed := Visit(directed, nodes, order, labels', order[k]);
      converged := converged && !changed;
    }
    forall v | v in nodes ensures converged ==> Still(nodes, labels, v) { assert v in order; }
  }

  lemma OrderInLabels(nodes: NodeList, order: seq<nat>, labels: Labels)
    requires Visits(order, nodes) && Sound(nodes, labels)
    ensures labels.Keys == nodes.Keys && (forall x :: x in order ==> x in labels)
    ensures (forall x :: x in order <==> x in nodes)
  {
  }

  /** One vertex: take the minimum over its neighbours if that is smaller. */
  method Visit(directed: bool, nodes: NodeList, ghost order: seq<nat>, labels: Labels, v: nat)
    returns (labels': Labels, changed: bool)
    requires Shape(directed, nodes) && Closed(nodes) && Sound(nodes, labels) && labels.Keys == nodes.Keys && v in nodes
    requires v in order
    requires forall x :: x in order ==> x in labels
    ensures Sound(nodes, labels') && labels'.Keys == nodes.Keys
    ensures !changed ==> labels' == labels && Still(nodes, labels, v)
    ensures changed ==> SumOver(order, labels') < SumOver(order, labels)
  {
    var m := MinComponent(nodes, labels, v);
    changed := labels[v] > m;
    labels' := labels;
    if changed {
      UpdateIsSound(directed, nodes, labels, v, m);
      SumShrinks(order, labels, v, m);
      labels' := labels[v := m];
    }
  }

  ghost predicate CappedLeast(nodes: NodeList, labels: Labels)
  {
    && labels.Keys == nodes.Keys
    && forall v, m: nat :: v in nodes && IsLeast(NodeArcs(nodes), v, m) ==>
      labels[v] == if m < INT64_MAX then m else INT64_MAX
  }

  /**
   AdjacencyList::wcc terminates, and the label of a vertex is the least vertex of its component, but
   never more than the largest signed 64-bit integer.
   */
  method Wcc(directed: bool, nodes: NodeList, order: seq<nat>) returns (labels: Labels)
    requires Shape(directed, nodes) && Visits(order, nodes)
    ensures CappedLeast(nodes, labels)
  {
    labels := map v | v in nodes :: v;
    forall v | v in nodes ensures Connected(NodeArcs(nodes), v, v) { ConnectedSelf(NodeArcs(nodes), v); }
    var converged := false;
    while !converged
      invariant Sound(nodes, labels) && forall x :: x in order ==> x in labels
      invariant converged ==> forall v :: v in nodes ==> Still(nodes, labels, v)
      decreases !converged, SumOver(order, labels)
    {
      labels, converged := Pass(directed, nodes, order, labels);
    }
    FixpointIsCappedLeast(directed, nodes, labels);
  }

  lemma FixpointIsCappedLeast(directed: bool, nodes: NodeList, labels: Labels)
    requires Shape(directed, nodes) && Sound(nodes, labels)
    requires forall v :: v in nodes ==> Still(nodes, labels, v)
    ensures CappedLeast(nodes, labels)
  {
    var arcs := NodeArcs(nodes);
    var f: nat -> int := (x: nat) => if x in labels then labels[x] as int else -1;
    forall a | a in arcs
      ensures f(a.src) == f(a.dst) && a.src in nodes && a.dst in nodes
    {
      NodeArcsAre(nodes, a);
      assert Neighbour(nodes, a.src, a.dst);
      NeighbourConnects(directed, nodes, a.src, a.dst);
    }
    forall v, m: nat | v in nodes && IsLeast(arcs, v, m)
      ensures labels[v] == if m < INT64_MAX then m else INT64_MAX
    {
      LabelsFollow(arcs, f, v, m);
      assert m in nodes && labels[m] == labels[v];
      assert labels[m] <= m;
      if labels[v] != INT64_MAX {
        assert m <= labels[v];
      }
    }
  }

  /** Every component has a least vertex, so the specification fixes every label. */
  lemma LeastExists(arcs: set<Arc>, x: nat, from: nat) returns (m: nat)
    requires Connected(arcs, x, from)
    ensures IsLeast(arcs, x, m)
    decreases from
  {
    if y: nat :| y < from && Connected(arcs, x, y) {
      m := LeastExists(arcs, x, y);
    } else {
      m := from;
    }
  }
}
