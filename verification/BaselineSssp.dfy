/** Shortest paths in the adjacency list: Dijkstra's algorithm that leaves outdated entries in its priority queue. */
module BaselineSssp {
  import opened Walks
  import opened Csr
  import opened Ranges
  import opened EdgeLists
  import opened SameGraph
  import BaselineBfs
  import CsrSssp = Sssp

  type Distances = map<nat, Distance>

  // A vertex that was pushed with a tentative distance.
  datatype Elt = Elt(v: nat, d: nat)

  predicate Less(a: nat, b: Distance)
  {
    b.Infinite? || a < b.value
  }

  ghost predicate Exact(nodes: NodeList, s: nat, distances: Distances)
    requires NonNegativeLists(nodes)
  {
    && distances.Keys == nodes.Keys
    && forall v :: v in nodes ==> IsShortest(NodeWeightedArcs(nodes), s, v, distances[v])
  }

  /** The search visits the source even if it is not a vertex; the lookup of its edges then adds it. */
  function WithSource(nodes: NodeList, s: nat): NodeList
  {
    if s in nodes then nodes else nodes[s := EdgePair([], [])]
  }

  lemma WithSourceStays(nodes: NodeList, s: nat)
    requires BaselineBfs.EdgesStay(nodes) && NonNegativeLists(nodes)
    ensures BaselineBfs.EdgesStay(WithSource(nodes, s)) && NonNegativeLists(WithSource(nodes, s))
  {
  }

  // ----- the invariant

  ghost predicate Sound(nodes: NodeList, s: nat, distances: Distances)
    requires NonNegativeLists(nodes)
  {
    && distances.Keys == nodes.Keys && s in distances && distances[s] == Finite(0)
    && forall v :: v in distances && distances[v].Finite? ==>
      ReachedAt(NodeWeightedArcs(nodes), s, v, distances[v].value)
  }

  /** Entries are at least as far as every visited vertex, and at least as far as the best known distance. */
  ghost predicate QueueOk(distances: Distances, visited: set<nat>, queue: multiset<Elt>)
  {
    && (forall v :: v in visited ==> v in distances && distances[v].Finite?)
    && (forall x :: x in queue ==> x.v in distances && AtMost(distances[x.v], x.d))
    && (forall x, v :: x in queue && v in visited ==> AtMost(distances[v], x.d))
    && (forall v :: v in distances && v !in visited && distances[v].Finite? ==> Elt(v, distances[v].value) in queue)
  }

  /** The first `k` edges of `u` cannot improve a distance. */
  ghost predicate Settled(nodes: NodeList, distances: Distances, u: nat, k: nat)
    requires NonNegativeLists(nodes) && u in nodes && u in distances && k <= |nodes[u].out|
  {
    distances[u].Finite? && forall i :: 0 <= i < k ==>
      nodes[u].out[i].0 in distances && AtMost(distances[nodes[u].out[i].0], distances[u].value + nodes[u].out[i].1)
  }

  ghost predicate VisitedSettled(nodes: NodeList, distances: Distances, visited: set<nat>)
    requires NonNegativeLists(nodes) && distances.Keys == nodes.Keys && visited <= nodes.Keys
  {
    forall v :: v in visited ==> Settled(nodes, distances, v, |nodes[v].out|)
  }

  // ----- one edge

  lemma SettledStays(nodes: NodeList, distances: Distances, u: nat, k: nat, v: nat, x: nat)
    requires NonNegativeLists(nodes) && u in nodes && u in distances && k <= |nodes[u].out|
    requires Settled(nodes, distances, u, k)
    requires v in distances && Less(x, distances[v]) && v != u
    ensures Settled(nodes, distances[v := Finite(x)], u, k)
  {
  }

  /** A shorter distance is only ever found for a vertex that is not visited. */
  lemma ImprovedIsUnvisited(distances: Distances, visited: set<nat>, v: nat, d: nat, w: nat)
    requires forall x :: x in visited ==> x in distances && AtMost(distances[x], d)
    requires v in distances && Less(d + w, distances[v])
    ensures v !in visited
  {
  }

  lemma ImproveSound(nodes: NodeList, s: nat, distances: Distances, u: nat, i: nat)
    requires NonNegativeLists(nodes) && Sound(nodes, s, distances) && u in nodes && i < |nodes[u].out|
    requires distances[u].Finite?
    requires var x := distances[u].value + nodes[u].out[i].1;
      nodes[u].out[i].0 in distances && Less(x, distances[nodes[u].out[i].0])
    ensures var x := distances[u].value + nodes[u].out[i].1;
      Sound(nodes, s, distances[nodes[u].out[i].0 := Finite(x)])
  {
    var (v, w) := nodes[u].out[i];
    NodeWeightedArcsAre(nodes, Arc(u, v, w));
    Extend(NodeWeightedArcs(nodes), s, u, distances[u].value, v, w);
    hide ReachedAt, NodeWeightedArcs;
  }

  lemma ImproveQueue(distances: Distances, visited: set<nat>, queue: multiset<Elt>, v: nat, x: nat)
    requires QueueOk(distances, visited, queue) && v in distances && v !in visited && Less(x, distances[v])
    requires forall u :: u in visited ==> AtMost(distances[u], x)
    ensures QueueOk(distances[v := Finite(x)], visited, queue + multiset{Elt(v, x)})
  {
  }

  lemma ImproveSettled(nodes: NodeList, distances: Distances, visited: set<nat>, v: nat, x: nat)
    requires NonNegativeLists(nodes) && distances.Keys == nodes.Keys && visited <= nodes.Keys
    requires VisitedSettled(nodes, distances, visited) && v in distances && v !in visited && Less(x, distances[v])
    ensures VisitedSettled(nodes, distances[v := Finite(x)], visited)
  {
    forall u | u in visited
      ensures Settled(nodes, distances[v := Finite(x)], u, |nodes[u].out|)
    {
      SettledStays(nodes, distances, u, |nodes[u].out|, v, x);
    }
  }

  /** Nothing visited is farther than `d`. */
  ghost predicate Behind(distances: Distances, visited: set<nat>, d: nat)
  {
    forall v :: v in visited ==> v in distances && AtMost(distances[v], d)
  }

  /** Relax the edges of a vertex that was just visited at distance `d`. */
  method Relax(nodes: NodeList, ghost s: nat, distances: Distances, queue: multiset<Elt>, ghost visited: set<nat>,
      u: nat, d: nat)
    returns (distances': Distances, queue': multiset<Elt>)
    requires NonNegativeLists(nodes) && BaselineBfs.EdgesStay(nodes) && Sound(nodes, s, distances)
    requires distances.Keys == nodes.Keys && visited <= nodes.Keys
    requires u in nodes && u !in visited && distances[u] == Finite(d)
    requires QueueOk(distances, visited + {u}, queue) && Behind(distances, visited + {u}, d)
    requires VisitedSettled(nodes, distances, visited)
    ensures Sound(nodes, s, distances') && distances'.Keys == nodes.Keys && QueueOk(distances', visited + {u}, queue')
    ensures VisitedSettled(nodes, distances', visited + {u})
  {
    hide Sound, QueueOk, VisitedSettled, ReachedAt, Behind;
    distances', queue' := distances, queue;
    for i := 0 to |nodes[u].out|
      invariant Sound(nodes, s, distances') && distances'.Keys == nodes.Keys && distances'[u] == Finite(d)
      invariant QueueOk(distances', visited + {u}, queue') && VisitedSettled(nodes, distances', visited)
      invariant Settled(nodes, distances', u, i) && Behind(distances', visited + {u}, d)
    {
      var v, x := nodes[u].out[i].0, d + nodes[u].out[i].1;
      if Less(x, distances'[v]) {
        Unvisited(distances', visited + {u}, v, d, nodes[u].out[i].1);
        ImproveSound(nodes, s, distances', u, i);
        ImproveQueue(distances', visited + {u}, queue', v, x);
        ImproveSettled(nodes, distances', visited, v, x);
        SettledStays(nodes, distances', u, i, v, x);
        distances', queue' := distances'[v := Finite(x)], queue' + multiset{Elt(v, x)};
      }
    }
    OneMoreSettled(nodes, distances', visited, u);
  }

  lemma Unvisited(distances: Distances, visited: set<nat>, v: nat, d: nat, w: nat)
    requires Behind(distances, visited, d) && v in distances && Less(d + w, distances[v])
    ensures v !in visited && forall u :: u in visited ==> AtMost(distances[u], d + w)
    ensures Behind(distances[v := Finite(d + w)], visited, d)
  {
    ImprovedIsUnvisited(distances, visited, v, d, w);
  }

  lemma OneMoreSettled(nodes: NodeList, distances: Distances, visited: set<nat>, u: nat)
    requires NonNegativeLists(nodes) && distances.Keys == nodes.Keys && visited <= nodes.Keys && u in nodes
    requires VisitedSettled(nodes, distances, visited) && Settled(nodes, distances, u, |nodes[u].out|)
    ensures VisitedSettled(nodes, distances, visited + {u})
  {
  }

  // ----- the loop

  /** `Q.top`: an entry of the smallest distance. */
  method Top(queue: multiset<Elt>) returns (x: Elt)
    requires queue != multiset{}
    ensures x in queue && forall y :: y in queue ==> x.d <= y.d
  {
    x :| x in queue;
    var rest := queue;
    while rest != multiset{}
      invariant rest <= queue && x in queue
      invariant forall y :: y in queue ==> y in rest || x.d <= y.d
    {
      var y :| y in rest;
      if y.d < x.d {
        x := y;
      }
      rest := rest - multiset{y};
    }
  }

  /** An outdated entry is dropped: its vertex was visited. */
  lemma SkipKeeps(distances: Distances, visited: set<nat>, queue: multiset<Elt>, x: Elt)
    requires QueueOk(distances, visited, queue) && x in queue && x.v in visited
    ensures QueueOk(distances, visited, queue - multiset{x})
  {
    assert forall y :: y in queue && y != x ==> y in queue - multiset{x};
    assert forall y :: y in queue - multiset{x} ==> y in queue;
  }

  /** The nearest entry of an unvisited vertex carries its distance, which no later entry undercuts. */
  lemma TopIsCurrent(distances: Distances, visited: set<nat>, queue: multiset<Elt>, x: Elt)
    requires QueueOk(distances, visited, queue) && x in queue && x.v !in visited && forall y :: y in queue ==>
      x.d <= y.d
    ensures x.v in distances && distances[x.v] == Finite(x.d)
    ensures QueueOk(distances, visited + {x.v}, queue - multiset{x}) && Behind(distances, visited + {x.v}, x.d)
  {
    assert Elt(x.v, distances[x.v].value) in queue;
    assert forall y :: y in queue && y != x ==> y in queue - multiset{x};
    assert forall y :: y in queue - multiset{x} ==> y in queue;
  }

  lemma Begin(nodes: NodeList, s: nat, distances: Distances)
    requires NonNegativeLists(nodes) && s in nodes && distances.Keys == nodes.Keys
    requires forall v :: v in nodes ==> distances[v] == if v == s then Finite(0) else Infinite
    ensures Sound(nodes, s, distances) && QueueOk(distances, {}, multiset{Elt(s, 0)})
    ensures VisitedSettled(nodes, distances, {})
  {
    ReachedAtStart(NodeWeightedArcs(nodes), s);
  }

  /** The loop invariant. Only the first lookup, of the source, can add a vertex. */
  ghost predicate LoopInvariant(nodes: NodeList, s: nat, nodes': NodeList, distances: Distances, visited: set<nat>,
      queue: multiset<Elt>)
    requires NonNegativeLists(nodes)
  {
    var all := WithSource(nodes, s);
    && NonNegativeLists(all) && BaselineBfs.EdgesStay(all)
    && (if visited == {} then nodes' == nodes && queue == multiset{Elt(s, 0)} else nodes' == all)
    && distances.Keys == all.Keys && visited <= all.Keys && Sound(all, s, distances)
    && QueueOk(distances, visited, queue) && VisitedSettled(all, distances, visited)
  }

  lemma LoopParts(nodes: NodeList, s: nat, nodes': NodeList, distances: Distances, visited: set<nat>,
      queue: multiset<Elt>)
    requires NonNegativeLists(nodes) && LoopInvariant(nodes, s, nodes', distances, visited, queue)
    ensures var all := WithSource(nodes, s);
      && NonNegativeLists(all) && BaselineBfs.EdgesStay(all)
      && distances.Keys == all.Keys && visited <= all.Keys && Sound(all, s, distances)
      && QueueOk(distances, visited, queue) && VisitedSettled(all, distances, visited)
    ensures queue == multiset{} ==> nodes' == WithSource(nodes, s)
  {
    hide Sound, QueueOk, VisitedSettled, BaselineBfs.EdgesStay, NonNegativeLists, WithSource;
    if visited == {} {
      assert Elt(s, 0) in queue;
    }
  }

  lemma SkipLoop(nodes: NodeList, s: nat, nodes': NodeList, distances: Distances, visited: set<nat>,
      queue: multiset<Elt>, x: Elt)
    requires NonNegativeLists(nodes) && LoopInvariant(nodes, s, nodes', distances, visited, queue) && x in queue
    requires x.v in visited
    ensures LoopInvariant(nodes, s, nodes', distances, visited, queue - multiset{x})
  {
    SkipKeeps(distances, visited, queue, x);
    hide Sound, QueueOk, VisitedSettled, BaselineBfs.EdgesStay, NonNegativeLists, WithSource;
  }

  /** Looking up the edges of a vertex that is visited first. */
  lemma LookupIs(nodes: NodeList, s: nat, nodes': NodeList, distances: Distances, visited: set<nat>,
      queue: multiset<Elt>, x: Elt)
    requires NonNegativeLists(nodes) && LoopInvariant(nodes, s, nodes', distances, visited, queue) && x in queue
    ensures WithSource(nodes', x.v) == WithSource(nodes, s)
  {
    LoopParts(nodes, s, nodes', distances, visited, queue);
    hide Sound, VisitedSettled, BaselineBfs.EdgesStay, NonNegativeLists;
    assert x.v in distances;
  }

  lemma VisitLoop(nodes: NodeList, s: nat, distances: Distances, visited: set<nat>, queue: multiset<Elt>, v: nat)
    requires NonNegativeLists(nodes) && NonNegativeLists(WithSource(nodes, s))
    requires BaselineBfs.EdgesStay(WithSource(nodes, s))
    requires distances.Keys == WithSource(nodes, s).Keys && visited <= distances.Keys && v in distances
    requires Sound(WithSource(nodes, s), s, distances) && QueueOk(distances, visited + {v}, queue)
    requires VisitedSettled(WithSource(nodes, s), distances, visited + {v})
    ensures LoopInvariant(nodes, s, WithSource(nodes, s), distances, visited + {v}, queue)
  {
    hide Sound, QueueOk, VisitedSettled, BaselineBfs.EdgesStay, NonNegativeLists, WithSource;
    assert v in visited + {v};
  }

  lemma VisitShrinks(all: set<nat>, visited: set<nat>, v: nat)
    requires v in all && v !in visited
    ensures |all - (visited + {v})| < |all - visited|
  {
    assert all - (visited + {v}) == all - visited - {v};
  }

  lemma LoopBegin(nodes: NodeList, s: nat, distances: Distances)
    requires NonNegativeLists(nodes) && BaselineBfs.EdgesStay(nodes) && distances.Keys == nodes.Keys + {s}
    requires forall v :: v in distances ==> distances[v] == if v == s then Finite(0) else Infinite
    ensures LoopInvariant(nodes, s, nodes, distances, {}, multiset{Elt(s, 0)})
  {
    WithSourceStays(nodes, s);
    assert WithSource(nodes, s).Keys == nodes.Keys + {s};
    hide NonNegativeLists, BaselineBfs.EdgesStay, Sound, QueueOk, VisitedSettled;
    Begin(WithSource(nodes, s), s, distances);
  }

  /** AdjacencyList::sssp ends with the weights of shortest walks; an unknown source becomes a vertex without edges. */
  method Sssp(directed: bool, nodes: NodeList, s: nat) returns (distances: Distances, nodes': NodeList)
    requires Shape(directed, nodes) && NonNegativeLists(nodes)
    ensures nodes' == WithSource(nodes, s) && NonNegativeLists(nodes')
    ensures Exact(nodes', s, distances)
  {
    hide *;
    BaselineBfs.ShapeStays(directed, nodes);
    distances := map v | v in nodes :: Infinite;
    distances := distances[s := Finite(0)];
    nodes' := nodes;
    var visited: set<nat>, queue: multiset<Elt> := {}, multiset{Elt(s, 0)};
    LoopBegin(nodes, s, distances);
    while queue != multiset{}
      invariant LoopInvariant(nodes, s, nodes', distances, visited, queue)
      decreases |distances.Keys - visited|, |queue|
    {
      LoopParts(nodes, s, nodes', distances, visited, queue);
      var x := Top(queue);
      if x.v in visited {
        SkipLoop(nodes, s, nodes', distances, visited, queue, x);
        queue := queue - multiset{x};
      } else {
        LookupIs(nodes, s, nodes', distances, visited, queue, x);
        nodes' := WithSource(nodes', x.v);    // m_adjacency_list[x.v]
        TopIsCurrent(distances, visited, queue, x);
        VisitShrinks(distances.Keys, visited, x.v);
        distances, queue := Relax(nodes', s, distances, queue - multiset{x}, visited, x.v, x.d);
        VisitLoop(nodes, s, distances, visited, queue, x.v);
        visited := visited + {x.v};
      }
    }
    LoopParts(nodes, s, nodes', distances, visited, queue);
    SettledIsExact(nodes', s, distances, visited);
  }

  lemma SettledIsExact(nodes: NodeList, s: nat, distances: Distances, visited: set<nat>)
    requires NonNegativeLists(nodes) && BaselineBfs.EdgesStay(nodes) && Sound(nodes, s, distances)
    requires visited <= nodes.Keys
    requires QueueOk(distances, visited, multiset{}) && VisitedSettled(nodes, distances, visited)
    ensures Exact(nodes, s, distances)
  {
    var arcs, labels := NodeWeightedArcs(nodes), (v: nat) => if v in distances then distances[v] else Infinite;
    forall a | a in arcs && labels(a.src).Finite?
      ensures AtMost(labels(a.dst), labels(a.src).value + a.weight)
    {
      NodeWeightedArcsAre(nodes, a);
      assert a.src in visited;
      assert Settled(nodes, distances, a.src, |nodes[a.src].out|);
    }
    forall v | v in nodes
      ensures IsShortest(arcs, s, v, distances[v])
    {
      RelaxedIsShortest(arcs, s, v, labels);
    }
  }

  /** Delta-stepping in the CSR store and Dijkstra's algorithm here find the same distances. */
  lemma ShortestPathsAgree(g: Graph, directed: bool, nodes: NodeList, s: nat, dist: seq<Distance>, distances: Distances)
    requires Same(g, directed, nodes) && CsrSssp.Weighted(g) && s < g.n && CsrSssp.Exact(g, s, dist)
    requires (SameIsNonNegative(g, directed, nodes); Exact(nodes, g.ids[s], distances))
    ensures forall v: nat :: v < g.n ==> g.ids[v] in distances && distances[g.ids[v]] == dist[v]
  {
    SameIsNonNegative(g, directed, nodes);
    WeightedArcsCorrespond(g, directed, nodes);
    NameIsInjective(g, directed, nodes);
    forall v: nat | v < g.n
      ensures g.ids[v] in distances && distances[g.ids[v]] == dist[v]
    {
      assert g.ids[v] in nodes;
      ShortestUnderRenaming(WeightedArcs(g), Name(g), NodeWeightedArcs(nodes), UpTo(g.n), s, v, dist[v]);
      ShortestIsUnique(NodeWeightedArcs(nodes), g.ids[s], g.ids[v], dist[v], distances[g.ids[v]]);
    }
  }
}
