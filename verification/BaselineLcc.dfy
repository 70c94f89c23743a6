/** The local clustering coefficient of the undirected adjacency list (AdjacencyList::lcc_undirected). */
module BaselineLcc {
  import opened Csr
  import opened EdgeLists
  import opened SameGraph
  import opened BaselineWcc
  import opened Triangles
  import Ranges
  import CsrLcc = Lcc

  type Counters = map<nat, nat>

  function Get(counters: Counters, v: nat): nat
  {
    if v in counters then counters[v] else 0
  }

  function Ends(list: EdgeList): set<nat>
  {
    set e | e in list :: e.0
  }

  function Neighbours(nodes: NodeList): Adjacency
  {
    map v | v in nodes :: Ends(nodes[v].out)
  }

  lemma EndsAre(list: EdgeList, x: nat)
    ensures x in Ends(list) <==> Has(list, x)
  {
    if Has(list, x) {
      var i :| 0 <= i < |list| && list[i].0 == x;
      assert list[i] in list;
    }
  }

  /** Without repeated neighbours the degree is the number of neighbours. */
  lemma {:induction false} EndsSize(list: EdgeList)
    requires NoDuplicates(list)
    ensures |Ends(list)| == |list|
  {
    if list != [] {
      EndsOneMore(list, |list| - 1);
      EndsSize(list[..|list| - 1]);
      assert list[..|list| - 1 + 1] == list;
    }
  }

  lemma EndsOneMore(list: EdgeList, k: nat)
    requires NoDuplicates(list) && k < |list|
    ensures list[k].0 in Ends(list) && list[k].0 !in Ends(list[..k])
    ensures Ends(list[..k + 1]) == Ends(list[..k]) + {list[k].0}
  {
    assert list[..k + 1] == list[..k] + [list[k]];
    assert list[k] in list;
  }

  lemma ShapeIsSimple(nodes: NodeList)
    requires Shape(false, nodes)
    ensures Simple(Neighbours(nodes))
  {
    forall u, v | u in nodes && v in Ends(nodes[u].out)
      ensures u != v && v in nodes && u in Ends(nodes[v].out)
    {
      EndsAre(nodes[u].out, v);
      var i :| 0 <= i < |nodes[u].out| && nodes[u].out[i].0 == v;
      var w := nodes[u].out[i].1;
      assert HasEdge(nodes, u, v, w);
      assert HasBackEdge(false, nodes, v, u, w);
      assert (u, w) in nodes[v].out;
    }
  }

  // ----- probing one list

  /** Count the neighbours of `v2` that are in the hash table, also as triangles of `v2`. */
  method Probe(list: EdgeList, h: set<nat>, v2: nat, numTriangles: nat, alreadyVisited: Counters)
    returns (numTriangles': nat, alreadyVisited': Counters)
    requires NoDuplicates(list)
    ensures numTriangles' == numTriangles + |Ends(list) * h|
    ensures forall v: nat :: Get(alreadyVisited', v) == Get(alreadyVisited, v) + if v == v2 then |Ends(list) * h| else 0
  {
    hide Ends, NoDuplicates;
    numTriangles', alreadyVisited' := numTriangles, alreadyVisited;
    NoEnds(list);
    assert Ends(list[..0]) * h == {};
    for j := 0 to |list|
      invariant numTriangles' == numTriangles + |Ends(list[..j]) * h|
      invariant forall v: nat :: Get(alreadyVisited', v) == Get(alreadyVisited, v) + if v == v2
        then |Ends(list[..j]) * h| else 0
    {
      EndsOneMore(list, j);
      if list[j].0 in h {
        assert Ends(list[..j + 1]) * h == Ends(list[..j]) * h + {list[j].0};
        numTriangles' := numTriangles' + 1;
        alreadyVisited' := alreadyVisited'[v2 := Get(alreadyVisited', v2) + 1];
      } else {
        assert Ends(list[..j + 1]) * h == Ends(list[..j]) * h;
      }
    }
    assert list[..|list|] == list;
  }

  lemma NoEnds(list: EdgeList)
    ensures Ends(list[..0]) == {}
  {
  }

  // ----- one vertex

  /** For the vertices still to come, the pairs that start in a finished vertex have been counted. */
  ghost predicate Carried(adj: Adjacency, done: set<nat>, alreadyVisited: Counters)
  {
    forall v :: v in adj && v !in done ==> Get(alreadyVisited, v) == |PairsFrom(adj, v, done)|
  }

  /** While `v1` is processed, its neighbours in `seen` have received the pairs that start in `v1`. */
  ghost predicate Passing(adj: Adjacency, done: set<nat>, v1: nat, seen: set<nat>, alreadyVisited: Counters)
    requires v1 in adj
  {
    forall v :: v in adj && v !in done && v != v1 ==> Received(adj, done, v1, seen, alreadyVisited, v)
  }

  ghost predicate Received(adj: Adjacency, done: set<nat>, v1: nat, seen: set<nat>, alreadyVisited: Counters, v: nat)
    requires v1 in adj && v in adj
  {
    Get(alreadyVisited, v) == |PairsFrom(adj, v, done)| + if v in seen then |adj[v1] * adj[v]| else 0
  }

  lemma PassingDone(adj: Adjacency, done: set<nat>, v1: nat, alreadyVisited: Counters)
    requires Simple(adj) && v1 in adj && v1 !in done && Passing(adj, done, v1, adj[v1], alreadyVisited)
    ensures Carried(adj, done + {v1}, alreadyVisited)
  {
    forall v | v in adj && v !in done + {v1}
      ensures Get(alreadyVisited, v) == |PairsFrom(adj, v, done + {v1})|
    {
      CarryOne(adj, done, v1, v);
    }
  }

  lemma CarryOne(adj: Adjacency, done: set<nat>, v1: nat, v: nat)
    requires Simple(adj) && v1 in adj && v1 !in done && v in adj && v != v1
    ensures |PairsFrom(adj, v, done + {v1})| == |PairsFrom(adj, v, done)| + if v in adj[v1]
      then |adj[v1] * adj[v]| else 0
  {
    if v in adj[v1] {
      PairsFromOneMore(adj, v, done, v1);
    } else {
      assert v1 !in adj[v];
      assert PairsFrom(adj, v, done + {v1}) == PairsFrom(adj, v, done);
    }
  }

  /** A vertex with fewer than two neighbours closes no pair. */
  lemma NoSharedNeighbours(adj: Adjacency, v1: nat, v: nat)
    requires Simple(adj) && v1 in adj && |adj[v1]| < 2 && v in adj[v1] && v in adj
    ensures adj[v1] * adj[v] == {}
  {
    if x :| x in adj[v1] * adj[v] {
      assert {x, v} <= adj[v1] && x != v && |{x, v}| == 2;
      Ranges.SubsetSize({x, v}, adj[v1]);
    }
  }

  lemma SkippedCarries(adj: Adjacency, done: set<nat>, v1: nat, alreadyVisited: Counters)
    requires Simple(adj) && v1 in adj && v1 !in done && |adj[v1]| < 2 && Carried(adj, done, alreadyVisited)
    ensures Carried(adj, done + {v1}, alreadyVisited)
  {
    forall v | v in adj && v !in done && v != v1 && v in adj[v1]
      ensures adj[v1] * adj[v] == {}
    {
      NoSharedNeighbours(adj, v1, v);
    }
    PassingDone(adj, done, v1, alreadyVisited);
  }

  /** A smaller neighbour was finished before, a larger one brings the pairs that start in it. */
  lemma NextNeighbour(adj: Adjacency, done: set<nat>, v1: nat, seen: set<nat>, v2: nat)
    requires Simple(adj) && v1 in adj && v2 in adj[v1] && v2 in adj && v2 !in seen
    requires forall x :: x in adj ==> (x in done <==> x < v1)
    ensures |PairsFrom(adj, v1, done + (seen + {v2}))| ==
      |PairsFrom(adj, v1, done + seen)| + if v2 < v1 then 0 else |adj[v2] * adj[v1]|
  {
    if v2 < v1 {
      assert done + (seen + {v2}) == done + seen;
    } else {
      assert done + (seen + {v2}) == (done + seen) + {v2};
      PairsFromOneMore(adj, v1, done + seen, v2);
    }
  }

  /** One vertex of degree two or more. */
  method CountVertex(nodes: NodeList, v1: nat, alreadyVisited: Counters, ghost done: set<nat>)
    returns (numTriangles: nat, alreadyVisited': Counters)
    requires Shape(false, nodes) && v1 in nodes && Carried(Neighbours(nodes), done, alreadyVisited)
    requires forall x :: x in nodes ==> (x in done <==> x < v1)
    ensures v1 in Neighbours(nodes) && numTriangles == |Pairs(Neighbours(nodes), v1)|
    ensures Carried(Neighbours(nodes), done + {v1}, alreadyVisited')
  {
    ghost var adj := Neighbours(nodes);
    ShapeIsSimple(nodes);
    var list := nodes[v1].out;
    var h := Ends(list);
    assert adj.Keys == nodes.Keys && adj[v1] == h && NoDuplicates(list);
    hide *;
    numTriangles, alreadyVisited' := Get(alreadyVisited, v1), alreadyVisited;
    NoEnds(list);
    CarriedStarts(adj, done, v1, alreadyVisited);
    for i := 0 to |list|
      invariant numTriangles == |PairsFrom(adj, v1, done + Ends(list[..i]))|
      invariant Passing(adj, done, v1, Ends(list[..i]), alreadyVisited')
    {
      var v2 := list[i].0;
      EndsOneMore(list, i);
      NeighbourIs(nodes, v1, v2);
      NextNeighbour(adj, done, v1, Ends(list[..i]), v2);
      ghost var before := alreadyVisited';
      if v2 >= v1 {
        numTriangles, alreadyVisited' := Probe(nodes[v2].out, h, v2, numTriangles, alreadyVisited');
      }
      PassingStep(adj, done, v1, Ends(list[..i]), v2, before, alreadyVisited');
    }
    assert list[..|list|] == list;
    AllPairs(adj, v1, done);
    PassingDone(adj, done, v1, alreadyVisited');
  }

  lemma AllPairs(adj: Adjacency, v1: nat, done: set<nat>)
    requires v1 in adj
    ensures PairsFrom(adj, v1, done + adj[v1]) == Pairs(adj, v1)
  {
    PairsFromAll(adj, v1, done + adj[v1]);
  }

  lemma CarriedStarts(adj: Adjacency, done: set<nat>, v1: nat, alreadyVisited: Counters)
    requires v1 in adj && v1 !in done && Carried(adj, done, alreadyVisited)
    ensures Get(alreadyVisited, v1) == |PairsFrom(adj, v1, done + {})| && Passing(adj, done, v1, {}, alreadyVisited)
  {
    assert done + {} == done;
  }

  lemma NeighbourIs(nodes: NodeList, v1: nat, v2: nat)
    requires Shape(false, nodes) && v1 in nodes && v2 in Ends(nodes[v1].out)
    ensures v2 in nodes && v2 in Neighbours(nodes) && Neighbours(nodes)[v2] == Ends(nodes[v2].out)
    ensures NoDuplicates(nodes[v2].out) && v2 != v1
  {
    ShapeIsSimple(nodes);
    var adj := Neighbours(nodes);
    assert v1 in adj && v2 in adj[v1];
    assert v2 in adj && v2 in nodes;
  }

  lemma PassingStep(adj: Adjacency, done: set<nat>, v1: nat, seen: set<nat>, v2: nat, before: Counters, after: Counters)
    requires v1 in adj && v2 in adj && v2 !in seen && v2 != v1 && Passing(adj, done, v1, seen, before)
    requires forall x :: x in adj ==> (x in done <==> x < v1)
    requires if v2 < v1 then after == before
      else forall v: nat :: Get(after, v) == Get(before, v) + if v == v2 then |adj[v2] * adj[v1]| else 0
    ensures Passing(adj, done, v1, seen + {v2}, after)
  {
    assert adj[v2] * adj[v1] == adj[v1] * adj[v2];
    forall v | v in adj && v !in done && v != v1
      ensures Received(adj, done, v1, seen + {v2}, after, v)
    {
      assert Received(adj, done, v1, seen, before, v);
    }
  }

  /** The iteration for one vertex. */
  method ScoreVertex(nodes: NodeList, v1: nat, alreadyVisited: Counters, ghost done: set<nat>)
    returns (score: real, alreadyVisited': Counters)
    requires Shape(false, nodes) && v1 in nodes && v1 !in done && Carried(Neighbours(nodes), done, alreadyVisited)
    requires forall x :: x in nodes ==> (x in done <==> x < v1)
    ensures v1 in Neighbours(nodes) && score == Coefficient(Neighbours(nodes), v1)
    ensures Carried(Neighbours(nodes), done + {v1}, alreadyVisited')
  {
    hide *;
    ShapeIsSimple(nodes);
    VertexIs(nodes, v1);
    CoefficientIs(Neighbours(nodes), v1);
    var degree := |nodes[v1].out|;
    if degree >= 2 {
      var numTriangles;
      numTriangles, alreadyVisited' := CountVertex(nodes, v1, alreadyVisited, done);
      score := Score(numTriangles, degree);
    } else {
      SkippedCarries(Neighbours(nodes), done, v1, alreadyVisited);
      score, alreadyVisited' := 0.0, alreadyVisited;
    }
  }

  /** AdjacencyList::lcc_undirected; `vertices` is what `std::sort` makes of the keys of the map. */
  method LccUndirected(nodes: NodeList, vertices: seq<nat>) returns (result: map<nat, real>)
    requires Shape(false, nodes) && Visits(vertices, nodes) && Ranges.Increasing(vertices)
    ensures result.Keys == nodes.Keys
    ensures forall v :: v in nodes ==> v in Neighbours(nodes) && result[v] == Coefficient(Neighbours(nodes), v)
  {
    hide *;
    result := map[];
    var alreadyVisited: Counters := map[];
    CarriesNothing(nodes, vertices);
    for k := 0 to |vertices|
      invariant result.Keys == Prefix(vertices, k)
      invariant forall v :: v in result ==> v in Neighbours(nodes) && result[v] == Coefficient(Neighbours(nodes), v)
      invariant Carried(Neighbours(nodes), Prefix(vertices, k), alreadyVisited)
    {
      PrefixOneMore(nodes, vertices, k);
      var score;
      score, alreadyVisited := ScoreVertex(nodes, vertices[k], alreadyVisited, Prefix(vertices, k));
      result := result[vertices[k] := score];
    }
    AllVertices(nodes, vertices);
  }

  ghost function Prefix(vertices: seq<nat>, k: nat): set<nat>
    requires k <= |vertices|
  {
    set i | 0 <= i < k :: vertices[i]
  }

  lemma PrefixOneMore(nodes: NodeList, vertices: seq<nat>, k: nat)
    requires Visits(vertices, nodes) && Ranges.Increasing(vertices) && k < |vertices|
    ensures vertices[k] in nodes && vertices[k] !in Prefix(vertices, k)
    ensures Prefix(vertices, k + 1) == Prefix(vertices, k) + {vertices[k]}
    ensures forall x :: x in nodes ==> (x in Prefix(vertices, k) <==> x < vertices[k])
  {
    assert vertices[k] in vertices;
    forall x | x in nodes
      ensures x in Prefix(vertices, k) <==> x < vertices[k]
    {
      var i :| 0 <= i < |vertices| && vertices[i] == x;
    }
  }

  lemma VertexIs(nodes: NodeList, v: nat)
    requires Shape(false, nodes) && v in nodes
    ensures v in Neighbours(nodes) && |Neighbours(nodes)[v]| == |nodes[v].out|
  {
    EndsSize(nodes[v].out);
  }

  lemma CarriesNothing(nodes: NodeList, vertices: seq<nat>)
    ensures Prefix(vertices, 0) == {} && Carried(Neighbours(nodes), Prefix(vertices, 0), map[])
  {
    forall v | v in nodes ensures PairsFrom(Neighbours(nodes), v, {}) == {} { PairsFromNone(Neighbours(nodes), v); }
    assert Prefix(vertices, 0) == {};
    hide PairsFrom;
  }

  lemma AllVertices(nodes: NodeList, vertices: seq<nat>)
    requires Visits(vertices, nodes)
    ensures Prefix(vertices, |vertices|) == nodes.Keys
  {
    forall v | v in nodes ensures v in Prefix(vertices, |vertices|) {
      var i :| 0 <= i < |vertices| && vertices[i] == v;
    }
    forall i | 0 <= i < |vertices| ensures vertices[i] in nodes { assert vertices[i] in vertices; }
  }

  // ----- agreement

  ghost function IndexOf(g: Graph): nat -> nat
  {
    (x: nat) => if exists u: nat :: u < |g.ids| && g.ids[u] == x
      then (var u: nat :| u < |g.ids| && g.ids[u] == x; u) else 0
  }

  lemma IndexOfName(g: Graph, directed: bool, nodes: NodeList, u: nat)
    requires Same(g, directed, nodes) && u < g.n
    ensures IndexOf(g)(Name(g)(u)) == u && Name(g)(u) in nodes
  {
    assert g.ids[u] in nodes;
    var v := IndexOf(g)(g.ids[u]);
    assert v < |g.ids| && g.ids[v] == g.ids[u];
  }

  lemma OutEntry(g: Graph, u: nat, v: nat) returns (e: nat)
    requires WellFormed(g) && u < g.n && v in Out(g, u)
    ensures Lo(g.outV, u) <= e < Hi(g.outV, u) && e < |g.outE| && g.outE[e] == v
  {
    var k :| 0 <= k < |Out(g, u)| && Out(g, u)[k] == v;
    e := Lo(g.outV, u) + k;
  }

  lemma EntryIsOut(g: Graph, u: nat, e: nat)
    requires WellFormed(g) && u < g.n && Lo(g.outV, u) <= e < Hi(g.outV, u) && e < |g.outE|
    ensures g.outE[e] in Out(g, u)
  {
    assert Out(g, u)[e - Lo(g.outV, u)] == g.outE[e];
  }

  lemma IdsAre(g: Graph, directed: bool, nodes: NodeList)
    requires Same(g, directed, nodes)
    ensures WellFormed(g) && |g.ids| == g.n && forall u, v :: 0 <= u < v < g.n ==> g.ids[u] < g.ids[v]
  {
  }

  lemma RowsCorrespond(g: Graph, nodes: NodeList, u: nat, v: nat)
    requires Same(g, false, nodes) && u < g.n && v < g.n
    ensures WellFormed(g) && |g.ids| == g.n && g.ids[u] in nodes
    ensures v in Out(g, u) <==> g.ids[v] in Ends(nodes[g.ids[u]].out)
  {
    IdsAre(g, false, nodes);
    hide Same, WellFormed, Out, NamedOut, Lo, Hi;
    SameRow(g, false, nodes, u, 0, 0);
    if v in Out(g, u) {
      var e := OutEntry(g, u, v);
      NamedEntry(g, u, e);
      SameRow(g, false, nodes, u, g.ids[v], g.outW[e]);
      assert (g.ids[v], g.outW[e]) in nodes[g.ids[u]].out;
    }
    if g.ids[v] in Ends(nodes[g.ids[u]].out) {
      var pair :| pair in nodes[g.ids[u]].out && pair.0 == g.ids[v];
      SameRow(g, false, nodes, u, pair.0, pair.1);
      var e := EntryOfNamed(g, u, pair.0, pair.1);
      EntryIsOut(g, u, e);
      assert g.outE[e] == v;
    }
  }

  lemma AdjacencyRenamed(g: Graph, nodes: NodeList)
    requires Same(g, false, nodes)
    ensures WellFormed(g) && RenamedBy(CsrLcc.Neighbours(g), Name(g), IndexOf(g), Neighbours(nodes))
  {
    IdsAre(g, false, nodes);
    hide *;
    KeysOf(g, nodes);
    forall u: nat | u < g.n
      ensures g.ids[u] in nodes && Name(g)(u) == g.ids[u] && IndexOf(g)(g.ids[u]) == u
    {
      IndexOfName(g, false, nodes, u);
      NameIs(g, u);
    }
    forall x: nat | x in nodes
      ensures exists u: nat :: u < g.n && g.ids[u] == x
    {
      var u := Logical(g, false, nodes, x);
    }
    forall u: nat, v: nat | u < g.n && v < g.n
      ensures u in CsrLcc.Neighbours(g) && g.ids[u] in Neighbours(nodes)
      ensures v in CsrLcc.Neighbours(g)[u] <==> g.ids[v] in Neighbours(nodes)[g.ids[u]]
    {
      RowsCorrespond(g, nodes, u, v);
      LookupBoth(g, nodes, u, v);
    }
    Rename(g, CsrLcc.Neighbours(g), Name(g), IndexOf(g), Neighbours(nodes));
  }

  lemma NameIs(g: Graph, u: nat)
    requires u < |g.ids|
    ensures Name(g)(u) == g.ids[u]
  {
  }

  lemma KeysOf(g: Graph, nodes: NodeList)
    requires WellFormed(g)
    ensures forall u: nat :: u in CsrLcc.Neighbours(g) <==> u < g.n
    ensures forall x: nat :: x in Neighbours(nodes) <==> x in nodes
  {
  }

  lemma Rename(g: Graph, adj: Adjacency, name: nat -> nat, back: nat -> nat, other: Adjacency)
    requires |g.ids| == g.n && (forall u: nat :: u in adj <==> u < g.n)
    requires forall u: nat :: u < g.n ==> g.ids[u] in other && name(u) == g.ids[u] && back(g.ids[u]) == u
    requires forall x: nat :: x in other ==> exists u: nat :: u < g.n && g.ids[u] == x
    requires forall u: nat, v: nat :: u < g.n && v < g.n ==> (v in adj[u] <==> g.ids[v] in other[g.ids[u]])
    ensures RenamedBy(adj, name, back, other)
  {
    forall x: nat | x in other
      ensures back(x) in adj && name(back(x)) == x
    {
      var u: nat :| u < g.n && g.ids[u] == x;
    }
  }

  lemma LookupBoth(g: Graph, nodes: NodeList, u: nat, v: nat)
    requires WellFormed(g) && u < g.n && v < g.n && g.ids[u] in nodes
    ensures u in CsrLcc.Neighbours(g) && (v in CsrLcc.Neighbours(g)[u] <==> v in Out(g, u))
    ensures g.ids[u] in Neighbours(nodes) && Neighbours(nodes)[g.ids[u]] == Ends(nodes[g.ids[u]].out)
  {
  }

  /** The two stores give every vertex the same coefficient. */
  lemma CoefficientsAgree(g: Graph, nodes: NodeList, u: nat)
    requires Same(g, false, nodes) && CsrLcc.SimpleGraph(g) && Shape(false, nodes) && u < g.n
    ensures WellFormed(g) && u in CsrLcc.Neighbours(g) && g.ids[u] in Neighbours(nodes)
    ensures Coefficient(CsrLcc.Neighbours(g), u) == Coefficient(Neighbours(nodes), g.ids[u])
  {
    CsrLcc.SimpleIs(g);
    CsrLcc.RowOf(g, u);
    AdjacencyRenamed(g, nodes);
    ShapeIsSimple(nodes);
    NameIs(g, u);
    hide Same, WellFormed, CsrLcc.SimpleGraph, Shape, RenamedBy, Coefficient, CsrLcc.Neighbours, Neighbours, Name,
      IndexOf;
    CoefficientRenamed(CsrLcc.Neighbours(g), Name(g), IndexOf(g), Neighbours(nodes), u);
  }
}
