/** PageRank in the adjacency list (AdjacencyList::pagerank), over exact reals. */
module BaselinePageRank {
  import opened Csr
  import opened EdgeLists
  import opened SameGraph
  import opened Sequences
  import opened Sums
  import opened BaselineWcc
  import CsrRank = PageRank

  type Ranks = map<nat, real>

  /** What an incoming edge brings. */
  function Given(nodes: NodeList, rank: Ranks): ((nat, int)) -> real
  {
    (e: (nat, int)) =>
      if e.0 in nodes && e.0 in rank && |nodes[e.0].out| > 0 then rank[e.0] / |nodes[e.0].out| as real else 0.0
  }

  function Leak(nodes: NodeList, rank: Ranks): nat -> real
  {
    (v: nat) => if v in nodes && v in rank && |nodes[v].out| == 0 then rank[v] else 0.0
  }

  /** The next rank of `v`; `order` lists the vertices. */
  function Rank(directed: bool, nodes: NodeList, order: seq<nat>, damping: real, rank: Ranks, v: nat): real
    requires v in nodes
  {
    CsrRank.Share(1.0 - damping, |nodes|) + damping * Total(Incoming(directed, nodes, v), Given(nodes, rank))
      + CsrRank.Share(damping, |nodes|) * Total(order, Leak(nodes, rank))
  }

  function Step(directed: bool, nodes: NodeList, order: seq<nat>, damping: real, rank: Ranks): Ranks
  {
    map v | v in nodes :: Rank(directed, nodes, order, damping, rank, v)
  }

  function Iterate(directed: bool, nodes: NodeList, order: seq<nat>, damping: real, k: nat): (r: Ranks)
    ensures r.Keys == nodes.Keys
  {
    if k == 0 then map v | v in nodes :: CsrRank.Share(1.0, |nodes|)
    else Step(directed, nodes, order, damping, Iterate(directed, nodes, order, damping, k - 1))
  }

  // ----- the kernel

  /** The sum over the set of sinks, in any order. */
  function LeakWithout(nodes: NodeList, rank: Ranks, left: set<nat>): nat -> real
  {
    (v: nat) => if v in left then 0.0 else Leak(nodes, rank)(v)
  }

  lemma LeakOf(nodes: NodeList, rank: Ranks, v: nat)
    requires rank.Keys == nodes.Keys && v in nodes
    ensures v in rank && Leak(nodes, rank)(v) == if |nodes[v].out| == 0 then rank[v] else 0.0
  {
    assert v in rank;
  }

  method DanglingSum(nodes: NodeList, ghost order: seq<nat>, sinks: set<nat>, rank: Ranks) returns (sum: real)
    requires Visits(order, nodes) && rank.Keys == nodes.Keys
    requires forall v :: v in sinks <==> v in nodes && |nodes[v].out| == 0
    ensures sum == Total(order, Leak(nodes, rank))
  {
    sum := 0.0;
    var left := sinks;
    forall v | v in order
      ensures LeakWithout(nodes, rank, left)(v) == 0.0
    {
      LeakOf(nodes, rank, v);
    }
    TotalConstant(order, 0.0, LeakWithout(nodes, rank, left));
    while left != {}
      invariant left <= sinks && sum == Total(order, LeakWithout(nodes, rank, left))
    {
      var v :| v in left;
      LeakOf(nodes, rank, v);
      TotalChanged(order, LeakWithout(nodes, rank, left), LeakWithout(nodes, rank, left - {v}), v);
      sum := sum + rank[v];
      left := left - {v};
    }
    TotalSame(order, LeakWithout(nodes, rank, {}), Leak(nodes, rank));
  }

  method IncomingScore(nodes: NodeList, list: EdgeList, rank: Ranks) returns (score: real)
    requires rank.Keys == nodes.Keys && forall i :: 0 <= i < |list| ==> list[i].0 in nodes
    ensures score == Total(list, Given(nodes, rank))
  {
    score := 0.0;
    for i := 0 to |list|
      invariant score == Total(list[..i], Given(nodes, rank))
    {
      assert list[..i + 1][..i] == list[..i];
      SplitLast(list[..i + 1], Given(nodes, rank));
      var source := list[i].0;
      var nout := |nodes[source].out|;
      if nout > 0 {
        score := score + rank[source] / nout as real;
      }
    }
    assert list[..|list|] == list;
  }

  lemma IncomingStays(directed: bool, nodes: NodeList, v: nat)
    requires Shape(directed, nodes) && v in nodes
    ensures forall i :: 0 <= i < |Incoming(directed, nodes, v)| ==> Incoming(directed, nodes, v)[i].0 in nodes
  {
    forall i | 0 <= i < |Incoming(directed, nodes, v)|
      ensures Incoming(directed, nodes, v)[i].0 in nodes
    {
      var (u, w) := Incoming(directed, nodes, v)[i];
      assert HasBackEdge(directed, nodes, v, u, w);
      assert HasEdge(nodes, u, v, w);
    }
  }

  method Score(directed: bool, nodes: NodeList, ghost order: seq<nat>, damping: real, rank: Ranks, v: nat, sum: real)
    returns (score: real)
    requires Shape(directed, nodes) && rank.Keys == nodes.Keys && v in nodes && sum == Total(order, Leak(nodes, rank))
    ensures score == Rank(directed, nodes, order, damping, rank, v)
  {
    hide *;
    IncomingStays(directed, nodes, v);
    score := IncomingScore(nodes, Incoming(directed, nodes, v), rank);
    RankIs(directed, nodes, order, damping, rank, v);
    score := CsrRank.Share(1.0 - damping, |nodes|) + damping * score + CsrRank.Share(damping, |nodes|) * sum;
  }

  method Pass(directed: bool, nodes: NodeList, order: seq<nat>, damping: real, sinks: set<nat>, rank: Ranks,
      stale: Ranks) returns (next: Ranks)
    requires Shape(directed, nodes) && Visits(order, nodes) && rank.Keys == nodes.Keys && stale.Keys <= nodes.Keys
    requires forall v :: v in sinks <==> v in nodes && |nodes[v].out| == 0
    ensures next == Step(directed, nodes, order, damping, rank)
  {
    hide Shape, Rank, Total, Given, Leak, Incoming, CsrRank.Share, Visits;
    next := stale;
    OrderIs(nodes, order);
    var sum := DanglingSum(nodes, order, sinks, rank);
    for k := 0 to |order|
      invariant next.Keys <= nodes.Keys
      invariant forall i :: 0 <= i < k ==>
        order[i] in next && next[order[i]] == Rank(directed, nodes, order, damping, rank, order[i])
    {
      var score := Score(directed, nodes, order, damping, rank, order[k], sum);
      next := next[order[k] := score];
    }
    forall v | v in nodes
      ensures v in next && next[v] == Rank(directed, nodes, order, damping, rank, v)
    {
      var i :| 0 <= i < |order| && order[i] == v;
    }
  }

  lemma OrderIs(nodes: NodeList, order: seq<nat>)
    requires Visits(order, nodes)
    ensures forall i :: 0 <= i < |order| ==> order[i] in nodes
    ensures forall v :: v in nodes ==> v in order
  {
  }

  lemma RankIs(directed: bool, nodes: NodeList, order: seq<nat>, damping: real, rank: Ranks, v: nat)
    requires v in nodes
    ensures Rank(directed, nodes, order, damping, rank, v) ==
      CsrRank.Share(1.0 - damping, |nodes|) + damping * Total(Incoming(directed, nodes, v), Given(nodes, rank))
        + CsrRank.Share(damping, |nodes|) * Total(order, Leak(nodes, rank))
  {
  }

  /** AdjacencyList::pagerank */
  method Pagerank(directed: bool, nodes: NodeList, order: seq<nat>, iterations: nat, damping: real)
    returns (rank: Ranks)
    requires Shape(directed, nodes) && Visits(order, nodes)
    ensures rank == Iterate(directed, nodes, order, damping, iterations)
  {
    hide Shape, Step, Visits;
    rank := map v | v in nodes :: CsrRank.Share(1.0, |nodes|);
    var sinks := set v | v in nodes && |nodes[v].out| == 0;
    var next: Ranks := map[];
    for k := 0 to iterations
      invariant rank == Iterate(directed, nodes, order, damping, k) && next.Keys <= nodes.Keys
    {
      next := Pass(directed, nodes, order, damping, sinks, rank, next);
      rank, next := next, rank;
    }
  }

  // ----- agreement with the CSR kernel

  ghost predicate Related(g: Graph, x: CsrRank.Scores, rank: Ranks)
  {
    |x| == g.n && |g.ids| == g.n && forall u: nat :: u < g.n ==> g.ids[u] in rank && rank[g.ids[u]] == x[u]
  }

  lemma SameVertices(g: Graph, directed: bool, nodes: NodeList, order: seq<nat>)
    requires Same(g, directed, nodes) && Visits(order, nodes)
    ensures multiset(order) == multiset(g.ids) && |nodes| == g.n && |g.ids| == g.n
  {
    assert Distinct(order) && Distinct(g.ids) && |g.ids| == g.n;
    assert forall x :: x in order <==> x in g.ids;
    hide Same, Visits;
    DistinctPermutation(order, g.ids);
    IdsSize(g, directed, nodes);
  }

  lemma IdsSize(g: Graph, directed: bool, nodes: NodeList)
    requires Same(g, directed, nodes)
    ensures |nodes| == g.n
  {
    assert Distinct(g.ids) && |g.ids| == g.n && forall x :: x in g.ids <==> x in nodes.Keys;
    hide Same;
    DistinctSize(g.ids, nodes.Keys);
    assert |nodes.Keys| == |nodes|;
  }

  lemma SameDegree(g: Graph, directed: bool, nodes: NodeList, u: nat)
    requires Same(g, directed, nodes) && u < g.n
    ensures g.ids[u] in nodes && |nodes[g.ids[u]].out| == OutDegree(g, u)
  {
    assert g.ids[u] in nodes && multiset(NamedOut(g, u)) == multiset(nodes[g.ids[u]].out);
    SameLength(NamedOut(g, u), nodes[g.ids[u]].out);
  }

  lemma LeakAgrees(g: Graph, directed: bool, nodes: NodeList, x: CsrRank.Scores, rank: Ranks, u: nat)
    requires Same(g, directed, nodes) && WellFormed(g) && Related(g, x, rank) && u < g.n
    ensures |g.ids| == g.n && Leak(nodes, rank)(g.ids[u]) == CsrRank.Leak(g, x)(u)
  {
    SameDegree(g, directed, nodes, u);
    hide Same, WellFormed, OutDegree;
  }

  lemma LeaksAgree(g: Graph, directed: bool, nodes: NodeList, order: seq<nat>, x: CsrRank.Scores, rank: Ranks)
    requires Same(g, directed, nodes) && Visits(order, nodes) && Related(g, x, rank)
    ensures Total(order, Leak(nodes, rank)) == CsrRank.Dangling(g, x)
  {
    SameVertices(g, directed, nodes, order);
    assert WellFormed(g) && CsrRank.Dangling(g, x) == Total(Indices(g.n), CsrRank.Leak(g, x));
    hide *;
    TotalPermuted(order, g.ids, Leak(nodes, rank));
    forall u: nat | u < g.n
      ensures Leak(nodes, rank)(g.ids[u]) == CsrRank.Leak(g, x)(u)
    {
      LeakAgrees(g, directed, nodes, x, rank, u);
    }
    TotalMapped(g.ids, Leak(nodes, rank), Indices(g.n), CsrRank.Leak(g, x));
  }

  lemma GivenIsContribution(g: Graph, directed: bool, nodes: NodeList, x: CsrRank.Scores, rank: Ranks, u: nat,
      e: (nat, int))
    requires Same(g, directed, nodes) && Related(g, x, rank) && u < g.n && e.0 == g.ids[u]
    ensures Given(nodes, rank)(e) == CsrRank.Contribution(g, x)(u)
  {
    SameDegree(g, directed, nodes, u);
    assert WellFormed(g);
    hide Same, WellFormed, OutDegree;
  }

  lemma NamedInEntry(g: Graph, v: nat, i: nat)
    requires WellFormed(g) && v < g.n && i < |In(g, v)|
    ensures |NamedIn(g, v)| == |In(g, v)| && In(g, v)[i] < g.n && NamedIn(g, v)[i].0 == g.ids[In(g, v)[i]]
  {
  }

  lemma SameIncoming(g: Graph, directed: bool, nodes: NodeList, v: nat)
    requires Same(g, directed, nodes) && v < g.n
    ensures g.ids[v] in nodes && multiset(NamedIn(g, v)) == multiset(Incoming(directed, nodes, g.ids[v]))
    ensures |NamedIn(g, v)| == |In(g, v)|
  {
  }

  lemma IncomingAgrees(g: Graph, directed: bool, nodes: NodeList, x: CsrRank.Scores, rank: Ranks, v: nat)
    requires Same(g, directed, nodes) && Related(g, x, rank) && v < g.n && g.ids[v] in nodes
    ensures Total(Incoming(directed, nodes, g.ids[v]), Given(nodes, rank)) == CsrRank.Pulled(g, x, v)
  {
    assert WellFormed(g);
    hide Same, WellFormed, In, NamedIn, Given, CsrRank.Contribution, Related, Incoming, Total;
    SameIncoming(g, directed, nodes, v);
    TotalPermuted(NamedIn(g, v), Incoming(directed, nodes, g.ids[v]), Given(nodes, rank));
    forall i: nat | i < |In(g, v)|
      ensures Given(nodes, rank)(NamedIn(g, v)[i]) == CsrRank.Contribution(g, x)(In(g, v)[i])
    {
      NamedInEntry(g, v, i);
      GivenIsContribution(g, directed, nodes, x, rank, In(g, v)[i], NamedIn(g, v)[i]);
    }
    TotalMapped(NamedIn(g, v), Given(nodes, rank), In(g, v), CsrRank.Contribution(g, x));
  }

  /** The two formulas only place the damping factor differently. */
  lemma SameFormula(n: nat, damping: real, base: real, pulled: real, dangling: real, rank: real, score: real)
    requires n > 0
    requires rank == base + damping * pulled + CsrRank.Share(damping, n) * dangling
    requires score == base + damping * (pulled + CsrRank.Share(dangling, n))
    ensures rank == score
  {
    var m := n as real;
    assert damping / m * dangling == damping * (dangling / m);
    Distribute(damping, pulled, dangling / m);
  }

  lemma StepsAgree(g: Graph, directed: bool, nodes: NodeList, order: seq<nat>, damping: real, x: CsrRank.Scores,
      rank: Ranks)
    requires Same(g, directed, nodes) && Visits(order, nodes) && Related(g, x, rank)
    ensures WellFormed(g) && |x| == g.n
    ensures Related(g, CsrRank.Step(g, damping, x), Step(directed, nodes, order, damping, rank))
  {
    assert WellFormed(g) && |x| == g.n && |g.ids| == g.n;
    SameVertices(g, directed, nodes, order);
    LeaksAgree(g, directed, nodes, order, x, rank);
    hide *;
    forall u: nat | u < g.n
      ensures g.ids[u] in nodes
      ensures Rank(directed, nodes, order, damping, rank, g.ids[u]) == CsrRank.Score(g, damping, x, u)
    {
      SameIncoming(g, directed, nodes, u);
      RanksAgree(g, directed, nodes, order, damping, x, rank, u);
    }
    RelateSteps(g, directed, nodes, order, damping, x, rank);
  }

  lemma RelateSteps(g: Graph, directed: bool, nodes: NodeList, order: seq<nat>, damping: real, x: CsrRank.Scores,
      rank: Ranks)
    requires WellFormed(g) && |x| == g.n && |g.ids| == g.n
    requires forall u: nat :: u < g.n ==>
      g.ids[u] in nodes && Rank(directed, nodes, order, damping, rank, g.ids[u]) == CsrRank.Score(g, damping, x, u)
    ensures Related(g, CsrRank.Step(g, damping, x), Step(directed, nodes, order, damping, rank))
  {
    hide WellFormed, Rank, CsrRank.Score;
  }

  lemma RanksAgree(g: Graph, directed: bool, nodes: NodeList, order: seq<nat>, damping: real, x: CsrRank.Scores,
      rank: Ranks, u: nat)
    requires Same(g, directed, nodes) && WellFormed(g) && Related(g, x, rank) && u < g.n && |x| == g.n && |g.ids| == g.n
    requires |nodes| == g.n
    requires Total(order, Leak(nodes, rank)) == CsrRank.Dangling(g, x) && g.ids[u] in nodes
    ensures Rank(directed, nodes, order, damping, rank, g.ids[u]) == CsrRank.Score(g, damping, x, u)
  {
    hide *;
    IncomingAgrees(g, directed, nodes, x, rank, u);
    RankIs(directed, nodes, order, damping, rank, g.ids[u]);
    CsrRank.ScoreIs(g, damping, x, u);
    SameFormula(g.n, damping, CsrRank.Share(1.0 - damping, g.n), CsrRank.Pulled(g, x, u), CsrRank.Dangling(g, x),
                Rank(directed, nodes, order, damping, rank, g.ids[u]), CsrRank.Score(g, damping, x, u));
  }

  lemma RelateFirst(g: Graph, directed: bool, nodes: NodeList, order: seq<nat>, damping: real)
    requires Same(g, directed, nodes) && Visits(order, nodes)
    ensures WellFormed(g) && Related(g, CsrRank.Iterate(g, damping, 0), Iterate(directed, nodes, order, damping, 0))
  {
    SameVertices(g, directed, nodes, order);
    IdsAreNodes(g, directed, nodes);
    assert WellFormed(g);
    FirstScores(g, damping);
    FirstRanks(directed, nodes, order, damping);
    hide WellFormed, Visits, Same, CsrRank.Share, CsrRank.Iterate, Iterate;
    var x, rank := CsrRank.Iterate(g, damping, 0), Iterate(directed, nodes, order, damping, 0);
    forall u: nat | u < g.n
      ensures g.ids[u] in rank && rank[g.ids[u]] == x[u]
    {
      assert g.ids[u] in nodes;
    }
  }

  lemma FirstScores(g: Graph, damping: real)
    requires WellFormed(g)
    ensures forall u: nat :: u < g.n ==> CsrRank.Iterate(g, damping, 0)[u] == CsrRank.Share(1.0, g.n)
  {
    hide WellFormed, CsrRank.Share;
  }

  lemma FirstRanks(directed: bool, nodes: NodeList, order: seq<nat>, damping: real)
    ensures forall v :: v in nodes ==> Iterate(directed, nodes, order, damping, 0)[v] == CsrRank.Share(1.0, |nodes|)
  {
    hide CsrRank.Share;
  }

  lemma IdsAreNodes(g: Graph, directed: bool, nodes: NodeList)
    requires Same(g, directed, nodes)
    ensures WellFormed(g) && forall u: nat :: u < g.n ==> g.ids[u] in nodes
  {
  }

  /** Both stores compute the same ranks, whatever the order of the hash map and of the parallel loops. */
  lemma {:induction false} RankingsAgree(g: Graph, directed: bool, nodes: NodeList, order: seq<nat>, damping: real,
      k: nat)
    requires Same(g, directed, nodes) && Visits(order, nodes)
    ensures WellFormed(g) && Related(g, CsrRank.Iterate(g, damping, k), Iterate(directed, nodes, order, damping, k))
  {
    hide Same, WellFormed, Visits, Related, Step, CsrRank.Step;
    if k == 0 {
      RelateFirst(g, directed, nodes, order, damping);
    } else {
      RankingsAgree(g, directed, nodes, order, damping, k - 1);
      StepsAgree(g, directed, nodes, order, damping, CsrRank.Iterate(g, damping, k - 1),
        Iterate(directed, nodes, order, damping, k - 1));
    }
  }
}
