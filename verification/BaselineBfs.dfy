/** Breadth first search of the adjacency list: a queue and a map of distances. */
module BaselineBfs {
  import opened Walks
  import opened Csr
  import opened Ranges
  import opened EdgeLists
  import opened SameGraph
  import CsrBfs = Bfs

  type Distances = map<nat, nat>

  /** The label of a vertex; one that is not in the map was not reached. */
  ghost function Label(distances: Distances, v: nat): Distance
  {
    if v in distances then Finite(distances[v]) else Infinite
  }

  ghost predicate Exact(nodes: NodeList, s: nat, distances: Distances)
  {
    && distances.Keys <= nodes.Keys
    && forall v :: v in nodes ==> IsShortest(NodeArcs(nodes), s, v, Label(distances, v))
  }

  ghost predicate EdgesStay(nodes: NodeList)
  {
    forall v, i :: v in nodes && 0 <= i < |nodes[v].out| ==> nodes[v].out[i].0 in nodes
  }

  lemma ShapeStays(directed: bool, nodes: NodeList)
    requires Shape(directed, nodes)
    ensures EdgesStay(nodes)
  {
    forall v, i | v in nodes && 0 <= i < |nodes[v].out|
      ensures nodes[v].out[i].0 in nodes
    {
      var (d, w) := nodes[v].out[i];
      assert HasEdge(nodes, v, d, w);
      assert HasBackEdge(directed, nodes, d, v, w);
    }
  }

  /** The first `k` neighbours of `u` have a distance of at most one more. */
  ghost predicate Followed(nodes: NodeList, distances: Distances, u: nat, k: nat)
    requires u in nodes && u in distances && k <= |nodes[u].out|
  {
    forall i :: 0 <= i < k ==>
      nodes[u].out[i].0 in distances && distances[nodes[u].out[i].0] <= distances[u] + 1
  }

  /** The queue is sorted by distance, spans two levels, and holds the reached vertices that were not followed yet. */
  ghost predicate QueueOk(nodes: NodeList, distances: Distances, queue: seq<nat>, level: nat)
  {
    && (forall v :: v in distances ==> distances[v] <= level + 1)
    && (forall v :: v in queue ==> v in distances && distances[v] >= level)
    && (forall i, j :: 0 <= i < j < |queue| ==> distances[queue[i]] <= distances[queue[j]])
  }

  ghost predicate Sound(nodes: NodeList, s: nat, distances: Distances)
  {
    && distances.Keys <= nodes.Keys && s in distances && distances[s] == 0
    && forall v :: v in distances ==> ReachedAt(NodeArcs(nodes), s, v, distances[v])
  }

  /** Every reached vertex is queued or has all its edges followed. */
  ghost predicate RestFollowed(nodes: NodeList, distances: Distances, queue: seq<nat>, skip: set<nat>)
    requires distances.Keys <= nodes.Keys
  {
    forall v :: v in distances && v !in skip ==> v in queue || Followed(nodes, distances, v, |nodes[v].out|)
  }

  lemma FollowedStays(nodes: NodeList, distances: Distances, v: nat, d: nat, u: nat, k: nat)
    requires u in nodes && u in distances && k <= |nodes[u].out| && Followed(nodes, distances, u, k) && v !in distances
    ensures Followed(nodes, distances[v := d], u, k)
  {
  }

  /** `distances.emplace` and `queue.append` for one new vertex. */
  lemma EmplaceKeeps(nodes: NodeList, s: nat, distances: Distances, queue: seq<nat>, u: nat, i: nat)
    requires Sound(nodes, s, distances) && u in distances && i < |nodes[u].out|
    requires nodes[u].out[i].0 in nodes && nodes[u].out[i].0 !in distances
    requires QueueOk(nodes, distances, queue, distances[u]) && RestFollowed(nodes, distances, queue, {u})
    ensures var v := nodes[u].out[i].0;
      var after := distances[v := distances[u] + 1];
      && Sound(nodes, s, after) && QueueOk(nodes, after, queue + [v], distances[u])
      && RestFollowed(nodes, after, queue + [v], {u})
  {
    var v := nodes[u].out[i].0;
    EmplaceSound(nodes, s, distances, u, i);
    hide Sound, ReachedAt, NodeArcs;
    EmplaceQueue(nodes, distances, queue, v, distances[u]);
    EmplaceFollowed(nodes, distances, queue, u, v, distances[u] + 1);
  }

  lemma EmplaceSound(nodes: NodeList, s: nat, distances: Distances, u: nat, i: nat)
    requires Sound(nodes, s, distances) && u in distances && u in nodes && i < |nodes[u].out|
    requires nodes[u].out[i].0 in nodes && nodes[u].out[i].0 !in distances
    ensures Sound(nodes, s, distances[nodes[u].out[i].0 := distances[u] + 1])
  {
    var v := nodes[u].out[i].0;
    NodeArcsAre(nodes, Arc(u, v, 1));
    Extend(NodeArcs(nodes), s, u, distances[u], v, 1);
    hide ReachedAt, NodeArcs;
  }

  lemma EmplaceQueue(nodes: NodeList, distances: Distances, queue: seq<nat>, v: nat, level: nat)
    requires QueueOk(nodes, distances, queue, level) && v !in distances
    ensures QueueOk(nodes, distances[v := level + 1], queue + [v], level)
  {
  }

  lemma EmplaceFollowed(nodes: NodeList, distances: Distances, queue: seq<nat>, u: nat, v: nat, d: nat)
    requires distances.Keys <= nodes.Keys && v in nodes && v !in distances && RestFollowed(nodes, distances, queue, {u})
    ensures RestFollowed(nodes, distances[v := d], queue + [v], {u})
  {
    var after := distances[v := d];
    forall x | x in after && x != u
      ensures x in queue + [v] || Followed(nodes, after, x, |nodes[x].out|)
    {
      if x != v && x !in queue {
        FollowedStays(nodes, distances, v, d, x, |nodes[x].out|);
      }
    }
    hide Followed;
  }

  lemma AllFollowed(nodes: NodeList, distances: Distances, queue: seq<nat>, u: nat)
    requires distances.Keys <= nodes.Keys && u in distances
    requires RestFollowed(nodes, distances, queue, {u}) && Followed(nodes, distances, u, |nodes[u].out|)
    ensures RestFollowed(nodes, distances, queue, {})
  {
  }

  lemma NewKey(nodes: NodeList, distances: Distances, v: nat, d: nat)
    requires v !in distances && v in nodes && distances.Keys <= nodes.Keys
    ensures |nodes.Keys - distances[v := d].Keys| < |nodes.Keys - distances.Keys|
  {
    assert nodes.Keys - distances[v := d].Keys == nodes.Keys - distances.Keys - {v};
  }

  /** Follow the edges of one vertex. */
  method Follow(nodes: NodeList, ghost s: nat, distances: Distances, queue: seq<nat>, u: nat)
    returns (distances': Distances, queue': seq<nat>)
    requires EdgesStay(nodes) && Sound(nodes, s, distances) && u in distances && u in nodes
    requires distances.Keys <= nodes.Keys
    requires QueueOk(nodes, distances, queue, distances[u]) && RestFollowed(nodes, distances, queue, {u})
    ensures Sound(nodes, s, distances') && distances'.Keys <= nodes.Keys
    ensures QueueOk(nodes, distances', queue', distances[u]) && RestFollowed(nodes, distances', queue', {})
    ensures |nodes.Keys - distances'.Keys| < |nodes.Keys - distances.Keys|
      || (distances' == distances && queue' == queue)
  {
    hide Sound, QueueOk, RestFollowed, NodeArcs, ReachedAt;
    distances', queue' := distances, queue;
    for i := 0 to |nodes[u].out|
      invariant Sound(nodes, s, distances') && distances'.Keys <= nodes.Keys && u in distances'
      invariant distances'[u] == distances[u]
      invariant QueueOk(nodes, distances', queue', distances[u]) && RestFollowed(nodes, distances', queue', {u})
      invariant Followed(nodes, distances', u, i)
      invariant |nodes.Keys - distances'.Keys| < |nodes.Keys - distances.Keys|
        || (distances' == distances && queue' == queue)
    {
      var v := nodes[u].out[i].0;
      if v !in distances' {
        EmplaceKeeps(nodes, s, distances', queue', u, i);
        FollowedStays(nodes, distances', v, distances[u] + 1, u, i);
        NewKey(nodes, distances', v, distances[u] + 1);
        distances', queue' := distances'[v := distances[u] + 1], queue' + [v];
      } else {
        FollowedAlready(nodes, s, distances', queue', u, i);
      }
    }
    AllFollowed(nodes, distances', queue', u);
  }

  lemma FollowedAlready(nodes: NodeList, s: nat, distances: Distances, queue: seq<nat>, u: nat, i: nat)
    requires u in nodes && u in distances && i < |nodes[u].out| && nodes[u].out[i].0 in distances
    requires QueueOk(nodes, distances, queue, distances[u]) && Followed(nodes, distances, u, i)
    ensures Followed(nodes, distances, u, i + 1)
  {
  }

  lemma Begin(nodes: NodeList, s: nat)
    requires s in nodes
    ensures Sound(nodes, s, map[s := 0]) && QueueOk(nodes, map[s := 0], [s], 0)
    ensures RestFollowed(nodes, map[s := 0], [s], {})
  {
    ReachedAtStart(NodeArcs(nodes), s);
  }

  /**
   AdjacencyList::bfs: the distances of the vertices that are reached; there is no answer for a vertex that does not
   exist.
   */
  method Bfs(directed: bool, nodes: NodeList, s: nat) returns (result: Option<Distances>)
    requires Shape(directed, nodes)
    ensures result.None? <==> s !in nodes
    ensures result.Some? ==> Exact(nodes, s, result.value)
  {
    hide *;
    if s !in nodes {
      return None;    // m_adjacency_list.at(source) raises
    }
    ShapeStays(directed, nodes);
    Begin(nodes, s);
    var distances: Distances, queue: seq<nat> := map[s := 0], [s];
    ghost var level := 0;
    while queue != []
      invariant Sound(nodes, s, distances) && distances.Keys <= nodes.Keys
      invariant QueueOk(nodes, distances, queue, level) && RestFollowed(nodes, distances, queue, {})
      decreases |nodes.Keys - distances.Keys|, |queue|
    {
      var u := queue[0];
      PopKeeps(nodes, distances, queue, level);
      level := distances[u];
      distances, queue := Follow(nodes, s, distances, queue[1..], u);
    }
    FollowedIsExact(nodes, s, distances, level);
    result := Some(distances);
  }

  lemma PopKeeps(nodes: NodeList, distances: Distances, queue: seq<nat>, level: nat)
    requires distances.Keys <= nodes.Keys && queue != [] && QueueOk(nodes, distances, queue, level)
    requires RestFollowed(nodes, distances, queue, {})
    ensures queue[0] in distances && QueueOk(nodes, distances, queue[1..], distances[queue[0]])
    ensures RestFollowed(nodes, distances, queue[1..], {queue[0]})
  {
    assert queue == [queue[0]] + queue[1..];
  }

  lemma FollowedIsExact(nodes: NodeList, s: nat, distances: Distances, level: nat)
    requires EdgesStay(nodes) && Sound(nodes, s, distances) && RestFollowed(nodes, distances, [], {})
    ensures Exact(nodes, s, distances)
  {
    var arcs, labels := NodeArcs(nodes), (v: nat) => Label(distances, v);
    forall a | a in arcs && labels(a.src).Finite?
      ensures AtMost(labels(a.dst), labels(a.src).value + a.weight)
    {
      NodeArcsAre(nodes, a);
      assert Followed(nodes, distances, a.src, |nodes[a.src].out|);
    }
    forall v | v in nodes
      ensures IsShortest(arcs, s, v, Label(distances, v))
    {
      RelaxedIsShortest(arcs, s, v, labels);
    }
  }

  /** The direction-optimizing search of the CSR store and this one find the same distances. */
  lemma SearchesAgree(g: Graph, directed: bool, nodes: NodeList, root: nat, dist: seq<int>, distances: Distances)
    requires Same(g, directed, nodes) && root < g.n && CsrBfs.Exact(g, root, dist)
    requires Exact(nodes, g.ids[root], distances)
    ensures forall v: nat :: v < g.n ==> CsrBfs.AsDistance(dist[v]) == Label(distances, g.ids[v])
  {
    ArcsCorrespond(g, directed, nodes);
    NameIsInjective(g, directed, nodes);
    forall v: nat | v < g.n
      ensures CsrBfs.AsDistance(dist[v]) == Label(distances, g.ids[v])
    {
      assert g.ids[v] in nodes;
      ShortestUnderRenaming(UnitArcs(g), Name(g), NodeArcs(nodes), UpTo(g.n), root, v, CsrBfs.AsDistance(dist[v]));
      ShortestIsUnique(NodeArcs(nodes), g.ids[root], g.ids[v], CsrBfs.AsDistance(dist[v]), Label(distances, g.ids[v]));
    }
  }
}
