/** Label propagation in the adjacency list (AdjacencyList::cdlp), and when the two stores agree. */
module BaselineCdlp {
  import opened Ranges
  import opened Csr
  import opened EdgeLists
  import opened SameGraph
  import opened BaselineWcc
  import opened Sequences
  import opened Votes
  import opened EdgeStreams
  import opened CsrLoader
  import CsrCdlp = Cdlp

  function LabelOf(labels: Labels): ((nat, int)) -> nat
  {
    (e: (nat, int)) => if e.0 in labels then labels[e.0] else 0
  }

  ghost function Ballot(nodes: NodeList, labels: Labels, v: nat): multiset<nat>
    requires v in nodes
  {
    multiset(Mapped(nodes[v].out, LabelOf(labels))) + multiset(Mapped(nodes[v].inc, LabelOf(labels)))
  }

  /** A vertex without neighbours gets label 0. */
  ghost function Elected(nodes: NodeList, labels: Labels, v: nat): nat
    requires v in nodes
  {
    Winner(Ballot(nodes, labels, v), 0)
  }

  ghost function Step(nodes: NodeList, labels: Labels): Labels
  {
    map v | v in nodes :: Elected(nodes, labels, v)
  }

  ghost function Iterate(nodes: NodeList, k: nat): (r: Labels)
    ensures r.Keys == nodes.Keys
  {
    if k == 0 then map v | v in nodes :: v else Step(nodes, Iterate(nodes, k - 1))
  }

  lemma IterateOnce(nodes: NodeList, k: nat)
    ensures Iterate(nodes, k + 1) == Step(nodes, Iterate(nodes, k))
  {
    hide Step;
  }

  lemma {:induction false} StableStays(nodes: NodeList, k: nat, more: nat)
    requires Iterate(nodes, k + 1) == Iterate(nodes, k) && k <= more
    ensures Iterate(nodes, more) == Iterate(nodes, k)
  {
    hide *;
    if k < more {
      StableStays(nodes, k, more - 1);
      IterateOnce(nodes, more - 1);
      IterateOnce(nodes, k);
    }
  }

  // ----- the kernel

  method CountList(list: EdgeList, labels: Labels, start: Histogram, ghost votes: multiset<nat>)
    returns (histogram: Histogram)
    requires forall i :: 0 <= i < |list| ==> list[i].0 in labels
    requires Counts(start, votes) && NoEmptyBars(start)
    ensures Counts(histogram, votes + multiset(Mapped(list, LabelOf(labels)))) && NoEmptyBars(histogram)
  {
    histogram := start;
    ghost var f := LabelOf(labels);
    assert votes + multiset(Mapped(list[..0], f)) == votes;
    for i := 0 to |list|
      invariant Counts(histogram, votes + multiset(Mapped(list[..i], f))) && NoEmptyBars(histogram)
    {
      var l := labels[list[i].0];
      OneVoteMore(list, i, f, votes);
      IncrementCounts(histogram, votes + multiset(Mapped(list[..i], f)), l);
      histogram := Increment(histogram, l);
    }
    assert list[..|list|] == list;
  }

  lemma OneVoteMore(list: EdgeList, k: nat, f: ((nat, int)) -> nat, votes: multiset<nat>)
    requires k < |list|
    ensures votes + multiset(Mapped(list[..k + 1], f)) == votes + multiset(Mapped(list[..k], f)) + multiset{f(list[k])}
  {
    assert list[..k + 1] == list[..k] + [list[k]];
    MappedAppend(list[..k], [list[k]], f);
    assert Mapped([list[k]], f) == [f(list[k])];
  }

  /** `label_id`: the bars are visited in any order. */
  method LabelId(histogram: Histogram, ghost votes: multiset<nat>) returns (elected: nat)
    requires Counts(histogram, votes) && NoEmptyBars(histogram)
    ensures elected == Winner(votes, 0)
  {
    elected := 0;
    var count := 0;
    var left := histogram.Keys;
    while left != {}
      invariant left <= histogram.Keys
      invariant if left == histogram.Keys then elected == 0 && count == 0
                else BestOf(histogram, histogram.Keys - left, elected) && count == histogram[elected]
    {
      var l :| l in left;
      if histogram[l] > count {
        count, elected := histogram[l], l;
      } else if histogram[l] == count && l < elected {
        elected := l;
      }
      left := left - {l};
    }
    if histogram.Keys == {} {
      assert votes == multiset{};
    } else {
      BestWins(histogram, votes, elected);
      WinnerIsUnique(votes, elected, Winner(votes, 0));
    }
  }

  method Elect(nodes: NodeList, labels: Labels, v: nat) returns (elected: nat)
    requires Closed(nodes) && labels.Keys == nodes.Keys && v in nodes
    ensures elected == Elected(nodes, labels, v)
  {
    hide Counts, NoEmptyBars, Winner, Mapped, LabelOf;
    var out, inc := nodes[v].out, nodes[v].inc;
    forall i | 0 <= i < |out| ensures out[i].0 in labels { assert out[i] in out; }
    forall i | 0 <= i < |inc| ensures inc[i].0 in labels { assert inc[i] in inc; }
    CsrCdlp.NoVotes();
    ghost var votes: multiset<nat> := multiset(Mapped(out, LabelOf(labels)));
    var histogram := CountList(out, labels, map[], multiset{});
    assert multiset{} + votes == votes;
    histogram := CountList(inc, labels, histogram, votes);
    elected := LabelId(histogram, votes + multiset(Mapped(inc, LabelOf(labels))));
  }

  method Pass(nodes: NodeList, order: seq<nat>, labels: Labels, stale: Labels) returns (next: Labels, change: bool)
    requires Closed(nodes) && Visits(order, nodes) && labels.Keys == nodes.Keys && stale.Keys <= nodes.Keys
    ensures next == Step(nodes, labels) && (change <==> next != labels)
  {
    hide Elected, Closed;
    next, change := stale, false;
    for k := 0 to |order|
      invariant next.Keys <= nodes.Keys
      invariant forall i :: 0 <= i < k ==> order[i] in next && next[order[i]] == Elected(nodes, labels, order[i])
      invariant change <==> exists i :: 0 <= i < k && labels[order[i]] != Elected(nodes, labels, order[i])
    {
      var v := order[k];
      assert v in order && v in labels.Keys;
      var elected := Elect(nodes, labels, v);
      next := next[v := elected];
      change := change || labels[v] != elected;
    }
    forall v | v in nodes
      ensures v in next && next[v] == Elected(nodes, labels, v)
    {
      var i :| 0 <= i < |order| && order[i] == v;
    }
    assert next == Step(nodes, labels);
    if next != labels {
      assert next.Keys == labels.Keys;
      var v :| v in nodes && next[v] != labels[v];
      var i :| 0 <= i < |order| && order[i] == v;
    }
  }

  /** AdjacencyList::cdlp: exactly `maxIterations` synchronous steps, although it stops early. */
  method Cdlp(directed: bool, nodes: NodeList, order: seq<nat>, maxIterations: nat) returns (labels: Labels)
    requires Shape(directed, nodes) && Visits(order, nodes)
    ensures labels == Iterate(nodes, maxIterations)
  {
    hide Shape, Step, Visits, Closed;
    ShapeIsClosed(directed, nodes);
    labels := map v | v in nodes :: v;
    var next: Labels, change, k := map[], true, 0;
    while k < maxIterations && change
      invariant k <= maxIterations && labels == Iterate(nodes, k) && next.Keys <= nodes.Keys
      invariant !change ==> k > 0 && Iterate(nodes, k) == Iterate(nodes, k - 1)
    {
      next, change := Pass(nodes, order, labels, next);
      IterateOnce(nodes, k);
      labels, next := next, labels;
      k := k + 1;
    }
    if !change {
      StableStays(nodes, k - 1, maxIterations);
    }
  }

  // ----- agreement

  ghost predicate Related(g: Graph, a: CsrCdlp.Labels, labels: Labels)
  {
    |a| == g.n && |g.ids| == g.n && forall u: nat :: u < g.n ==> g.ids[u] in labels && labels[g.ids[u]] == a[u]
  }

  /** A vertex that would receive no votes. */
  ghost predicate Isolated(g: Graph, u: nat)
    requires WellFormed(g) && u < g.n
  {
    |Out(g, u)| == 0 && (g.directed ==> |In(g, u)| == 0)
  }

  lemma RowsAgree(g: Graph, rows: seq<nat>, cells: seq<nat>, weights: seq<int>, u: nat, list: EdgeList,
      a: CsrCdlp.Labels, labels: Labels)
    requires Rows(g.n, rows, cells) && |weights| == |cells| && |g.ids| == g.n && u < g.n && Related(g, a, labels)
    requires multiset(Named(g, rows, cells, weights, u)) == multiset(list)
    ensures multiset(Mapped(Row(rows, cells, u), CsrCdlp.LabelOf(a))) == multiset(Mapped(list, LabelOf(labels)))
  {
    var named: EdgeList, row: seq<nat> := Named(g, rows, cells, weights, u), Row(rows, cells, u);
    MappedPermuted(named, list, LabelOf(labels));
    forall i | 0 <= i < |row|
      ensures LabelOf(labels)(named[i]) == CsrCdlp.LabelOf(a)(row[i])
    {
      assert row[i] < g.n;
    }
    assert Mapped(row, CsrCdlp.LabelOf(a)) == Mapped(named, LabelOf(labels));
  }

  lemma BallotsAgree(g: Graph, directed: bool, nodes: NodeList, a: CsrCdlp.Labels, labels: Labels, u: nat)
    requires Same(g, directed, nodes) && Shape(directed, nodes) && Related(g, a, labels) && u < g.n
    ensures WellFormed(g) && g.ids[u] in nodes && CsrCdlp.Ballot(g, a, u) == Ballot(nodes, labels, g.ids[u])
  {
    var pair := nodes[g.ids[u]];
    assert Rows(g.n, g.outV, g.outE) && Rows(g.n, g.inV, g.inE) && multiset(NamedOut(g, u)) == multiset(pair.out);
    assert if directed then multiset(NamedIn(g, u)) == multiset(pair.inc) else pair.inc == [];
    hide Same, Shape, Rows, Related, Row;
    RowsAgree(g, g.outV, g.outE, g.outW, u, pair.out, a, labels);
    if directed {
      RowsAgree(g, g.inV, g.inE, g.inW, u, pair.inc, a, labels);
    } else {
      assert Mapped(pair.inc, LabelOf(labels)) == [];
    }
  }

  lemma IsolatedHasNoVotes(g: Graph, a: CsrCdlp.Labels, u: nat)
    requires WellFormed(g) && u < g.n
    ensures CsrCdlp.Ballot(g, a, u) == multiset{} <==> Isolated(g, u)
  {
    var out, inc := Mapped(Out(g, u), CsrCdlp.LabelOf(a)), Mapped(In(g, u), CsrCdlp.LabelOf(a));
    assert |multiset(out)| == |out| && |multiset(inc)| == |inc|;
    assert |CsrCdlp.Ballot(g, a, u)| == |out| + if g.directed then |inc| else 0;
  }

  /** A vertex with a neighbour gets the same label from both; an isolated one never does. */
  lemma StepAgreesAt(g: Graph, directed: bool, nodes: NodeList, a: CsrCdlp.Labels, labels: Labels, u: nat)
    requires Same(g, directed, nodes) && Shape(directed, nodes) && Related(g, a, labels) && u < g.n
    ensures WellFormed(g) && g.ids[u] in nodes
    ensures CsrCdlp.Elected(g, a, u) == Elected(nodes, labels, g.ids[u]) <==> !Isolated(g, u)
  {
    BallotsAgree(g, directed, nodes, a, labels, u);
    hide Same, Shape, WellFormed, Related, Wins, Isolated, CsrCdlp.Ballot, Ballot;
    IsolatedHasNoVotes(g, a, u);
    var votes := CsrCdlp.Ballot(g, a, u);
    if votes != multiset{} {
      WinnerIsUnique(votes, Winner(votes, INT64_MAX), Winner(votes, 0));
    }
  }

  lemma {:induction false} AgreeWithoutIsolated(g: Graph, directed: bool, nodes: NodeList, k: nat)
    requires Same(g, directed, nodes) && Shape(directed, nodes) && WellFormed(g)
    requires forall u: nat :: u < g.n ==> !Isolated(g, u)
    ensures Related(g, CsrCdlp.Iterate(g, k), Iterate(nodes, k))
  {
    hide *;
    if k == 0 {
      RelatedAtStart(g, directed, nodes);
    } else {
      AgreeWithoutIsolated(g, directed, nodes, k - 1);
      CsrCdlp.IterateOnce(g, k - 1);
      IterateOnce(nodes, k - 1);
      StepsAgree(g, directed, nodes, CsrCdlp.Iterate(g, k - 1), Iterate(nodes, k - 1));
    }
  }

  lemma StepsAgree(g: Graph, directed: bool, nodes: NodeList, a: CsrCdlp.Labels, labels: Labels)
    requires Same(g, directed, nodes) && Shape(directed, nodes) && WellFormed(g) && Related(g, a, labels)
    requires forall u: nat :: u < g.n ==> !Isolated(g, u)
    ensures Related(g, CsrCdlp.Step(g, a), Step(nodes, labels))
  {
    CsrCdlp.IdsLength(g);
    hide *;
    forall u: nat | u < g.n
      ensures g.ids[u] in nodes && CsrCdlp.Elected(g, a, u) == Elected(nodes, labels, g.ids[u])
    {
      StepAgreesAt(g, directed, nodes, a, labels, u);
    }
    RelatedSteps(g, nodes, a, labels);
  }

  lemma RelatedSteps(g: Graph, nodes: NodeList, a: CsrCdlp.Labels, labels: Labels)
    requires WellFormed(g) && |g.ids| == g.n
    requires forall u: nat :: u < g.n ==>
      g.ids[u] in nodes && CsrCdlp.Elected(g, a, u) == Elected(nodes, labels, g.ids[u])
    ensures Related(g, CsrCdlp.Step(g, a), Step(nodes, labels))
  {
    hide WellFormed, CsrCdlp.Elected, Elected;
  }

  lemma RelatedAtStart(g: Graph, directed: bool, nodes: NodeList)
    requires Same(g, directed, nodes) && WellFormed(g)
    ensures Related(g, CsrCdlp.Iterate(g, 0), Iterate(nodes, 0))
  {
    var labels := Iterate(nodes, 0);
    forall u: nat | u < g.n
      ensures g.ids[u] in labels && labels[g.ids[u]] == g.ids[u]
    {
      assert g.ids[u] in nodes;
    }
  }

  lemma DisagreeOnIsolated(g: Graph, directed: bool, nodes: NodeList, k: nat, u: nat)
    requires Same(g, directed, nodes) && Shape(directed, nodes) && WellFormed(g)
    requires u < g.n && Isolated(g, u) && k > 0
    ensures !Related(g, CsrCdlp.Iterate(g, k), Iterate(nodes, k))
  {
    var a, labels := CsrCdlp.Iterate(g, k - 1), Iterate(nodes, k - 1);
    CsrCdlp.IterateOnce(g, k - 1);
    IterateOnce(nodes, k - 1);
    IsolatedHasNoVotes(g, a, u);
    NoListNoVotes(g, directed, nodes, labels, u);
    assert CsrCdlp.Iterate(g, k)[u] == INT64_MAX && Iterate(nodes, k)[g.ids[u]] == 0;
  }

  lemma NoListNoVotes(g: Graph, directed: bool, nodes: NodeList, labels: Labels, u: nat)
    requires Same(g, directed, nodes) && Shape(directed, nodes) && WellFormed(g) && u < g.n && Isolated(g, u)
    ensures g.ids[u] in nodes && Ballot(nodes, labels, g.ids[u]) == multiset{}
  {
    var pair := nodes[g.ids[u]];
    SameLength(NamedOut(g, u), pair.out);
    if directed {
      SameLength(NamedIn(g, u), pair.inc);
    }
    assert |pair.out| == 0 && |pair.inc| == 0;
  }

  /**
   The two labelling rules give the same labels if and only if no iteration runs or every vertex has a neighbour: the
   rule of the CSR gives an isolated vertex the largest label, this one gives it 0.
   */
  lemma PropagationsAgreeIff(g: Graph, directed: bool, nodes: NodeList, k: nat)
    requires Same(g, directed, nodes) && Shape(directed, nodes) && WellFormed(g)
    ensures Related(g, CsrCdlp.Iterate(g, k), Iterate(nodes, k)) <==>
      k == 0 || forall u: nat :: u < g.n ==> !Isolated(g, u)
  {
    hide *;
    if k == 0 {
      RelatedAtStart(g, directed, nodes);
    } else if u: nat :| u < g.n && Isolated(g, u) {
      DisagreeOnIsolated(g, directed, nodes, k, u);
    } else {
      AgreeWithoutIsolated(g, directed, nodes, k);
    }
  }

  // ----- loaded graphs

  /** A CSR takes its vertices from the edges, so none of them is isolated. */
  lemma LoadedHasNoIsolated(g: Graph, edges: seq<Edge>, u: nat)
    requires Loaded(g, edges) && u < g.n
    ensures !Isolated(g, u)
  {
    var x := g.ids[u];
    assert x in g.ids && EndOf(edges, x);
    var i :| 0 <= i < |edges| && (edges[i].source == x || edges[i].destination == x);
    var e := edges[i];
    assert Edge(e.source, e.destination, e.weight) == e && e in multiset(edges);
    if e.source == x {
      assert multiset(NamedOut(g, u))[(e.destination, e.weight)] ==
        Copies(g.directed, edges, x, e.destination, e.weight);
      assert |NamedOut(g, u)| > 0 by { assert (e.destination, e.weight) in NamedOut(g, u); }
    } else {
      assert multiset(NamedIn(g, u))[(e.source, e.weight)] == Copies(g.directed, edges, e.source, x, e.weight);
      assert multiset(NamedOut(g, u))[(e.source, e.weight)] == Copies(g.directed, edges, x, e.source, e.weight);
    }
  }

  /** So from a loaded graph the two stores always compute the same labels. */
  lemma LoadedPropagationsAgree(g: Graph, nodes: NodeList, edges: seq<Edge>, k: nat)
    requires Loaded(g, edges) && Same(g, g.directed, nodes) && Shape(g.directed, nodes)
    ensures Related(g, CsrCdlp.Iterate(g, k), Iterate(nodes, k))
  {
    assert WellFormed(g);
    hide *;
    forall u: nat | u < g.n ensures !Isolated(g, u) {
      LoadedHasNoIsolated(g, edges, u);
    }
    AgreeWithoutIsolated(g, g.directed, nodes, k);
  }
}
