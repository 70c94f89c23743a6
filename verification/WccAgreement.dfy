/** When the outputs of the two component kernels validate against each other. */
module WccAgreement {
  import opened Ranges
  import opened Walks
  import opened Connectivity
  import opened Csr
  import opened EdgeLists
  import opened SameGraph
  import Wcc
  import BaselineWcc
  import opened Validate

  /** The file that CSR::wcc saves: one line per logical vertex, with its external id. */
  function CsrLines(g: Graph, comp: seq<nat>): (lines: seq<Line>)
    requires |g.ids| == |comp|
    ensures |lines| == |comp| && forall v :: 0 <= v < |comp| ==> lines[v] == (g.ids[v], comp[v])
  {
    seq(|comp|, v requires 0 <= v < |comp| => (g.ids[v], comp[v]))
  }

  /** The file that AdjacencyList::wcc saves, in the order of its hash map. */
  function BaselineLines(order: seq<nat>, labels: map<nat, nat>): (lines: seq<Line>)
    requires forall x :: x in order ==> x in labels
    ensures |lines| == |order| && forall k :: 0 <= k < |order| ==> lines[k] == (order[k], labels[order[k]])
  {
    seq(|order|, k requires 0 <= k < |order| => assert order[k] in order; (order[k], labels[order[k]]))
  }

  /** The label of every line identifies the weak component of its vertex. */
  ghost predicate Identifies(arcs: set<Arc>, lines: seq<Line>)
  {
    && (forall i :: 0 <= i < |lines| ==> lines[i].0 >= 0)
    && forall i, j :: 0 <= i < |lines| && 0 <= j < |lines| ==>
         (lines[i].1 == lines[j].1 <==> Connected(arcs, lines[i].0, lines[j].0))
  }

  lemma CsrPair(g: Graph, directed: bool, nodes: NodeList, comp: seq<nat>, i: nat, j: nat)
    requires Same(g, directed, nodes) && Wcc.Components(g, comp) && i < g.n && j < g.n
    ensures comp[i] == comp[j] <==> Connected(NodeArcs(nodes), g.ids[i], g.ids[j])
  {
    assert IsLeast(UnitArcs(g), i, comp[i]) && IsLeast(UnitArcs(g), j, comp[j]);
    ArcsCorrespond(g, directed, nodes);
    NameIsInjective(g, directed, nodes);
    hide Same, WellFormed, IsLeast, Connected, UnitArcs, NodeArcs, Renamed, Injective, ArcsOver;
    LeastIdentifies(UnitArcs(g), i, j, comp[i], comp[j]);
    ConnectedUnderRenaming(UnitArcs(g), Name(g), NodeArcs(nodes), UpTo(g.n), i, j);
  }

  lemma VertexNames(g: Graph, directed: bool, nodes: NodeList, comp: seq<nat>)
    requires Same(g, directed, nodes) && Wcc.Components(g, comp)
    ensures |comp| == g.n == |g.ids| && forall u, v :: 0 <= u < v < g.n ==> g.ids[u] != g.ids[v]
    ensures forall x: nat :: x in nodes <==> exists i :: 0 <= i < |comp| && g.ids[i] == x
  {
    hide NamedOut, NamedIn, NodeArcs, IsLeast;
  }

  lemma CsrPairs(g: Graph, directed: bool, nodes: NodeList, comp: seq<nat>)
    requires Same(g, directed, nodes) && Wcc.Components(g, comp) && |g.ids| == |comp| == g.n
    ensures Identifies(NodeArcs(nodes), CsrLines(g, comp))
  {
    hide Same, Connected, NodeArcs, Wcc.Components, CsrLines;
    var lines := CsrLines(g, comp);
    forall i, j | 0 <= i < |lines| && 0 <= j < |lines|
      ensures lines[i].1 == lines[j].1 <==> Connected(NodeArcs(nodes), lines[i].0, lines[j].0)
    {
      CsrPair(g, directed, nodes, comp, i, j);
    }
  }

  lemma DistinctLines(g: Graph, comp: seq<nat>)
    requires |g.ids| == |comp| == g.n && forall u, v :: 0 <= u < v < g.n ==> g.ids[u] != g.ids[v]
    ensures OneLinePerVertex(CsrLines(g, comp))
  {
    hide CsrLines;
  }

  lemma CsrIdentifies(g: Graph, directed: bool, nodes: NodeList, comp: seq<nat>)
    requires Same(g, directed, nodes) && Wcc.Components(g, comp)
    ensures |g.ids| == |comp| && Identifies(NodeArcs(nodes), CsrLines(g, comp)) && OneLinePerVertex(CsrLines(g, comp))
    ensures forall x: nat :: x in nodes <==> exists i :: 0 <= i < |comp| && g.ids[i] == x
  {
    hide *;
    VertexNames(g, directed, nodes, comp);
    CsrPairs(g, directed, nodes, comp);
    DistinctLines(g, comp);
  }

  /** The capped labels of two vertices agree iff the vertices are connected or both components lie above the cap. */
  lemma BaselinePair(nodes: NodeList, labels: map<nat, nat>, x: nat, y: nat)
    requires BaselineWcc.CappedLeast(nodes, labels) && x in nodes && y in nodes
    ensures labels[x] == labels[y] <==>
      Connected(NodeArcs(nodes), x, y) || (AboveCap(NodeArcs(nodes), x) && AboveCap(NodeArcs(nodes), y))
  {
    var arcs := NodeArcs(nodes);
    ConnectedSelf(arcs, x);
    ConnectedSelf(arcs, y);
    var m := BaselineWcc.LeastExists(arcs, x, x);
    var k := BaselineWcc.LeastExists(arcs, y, y);
    LeastIdentifies(arcs, x, y, m, k);
  }

  ghost predicate AboveCap(arcs: set<Arc>, x: nat)
  {
    forall y: nat :: Connected(arcs, x, y) ==> y >= INT64_MAX
  }

  /** At most one component lies wholly above the cap. */
  ghost predicate OneAboveCap(nodes: NodeList)
  {
    forall x, y :: x in nodes && y in nodes && AboveCap(NodeArcs(nodes), x) && AboveCap(NodeArcs(nodes), y) ==>
      Connected(NodeArcs(nodes), x, y)
  }

  /**
   The labels of the baseline identify components exactly if no two components lie above the largest signed 64-bit
   integer.
   */
  lemma BaselineIdentifiesIff(directed: bool, nodes: NodeList, order: seq<nat>, labels: map<nat, nat>)
    requires BaselineWcc.CappedLeast(nodes, labels) && BaselineWcc.Visits(order, nodes)
    ensures forall x :: x in order ==> x in labels
    ensures OneLinePerVertex(BaselineLines(order, labels))
    ensures Identifies(NodeArcs(nodes), BaselineLines(order, labels)) <==> OneAboveCap(nodes)
  {
    var arcs, lines := NodeArcs(nodes), BaselineLines(order, labels);
    forall x, y | x in nodes && y in nodes
      ensures labels[x] == labels[y] <==> Connected(arcs, x, y) || (AboveCap(arcs, x) && AboveCap(arcs, y))
    {
      BaselinePair(nodes, labels, x, y);
    }
    hide Connected, NodeArcs, AboveCap;
    if Identifies(arcs, lines) {
      forall x, y | x in nodes && y in nodes && AboveCap(arcs, x) && AboveCap(arcs, y)
        ensures Connected(arcs, x, y)
      {
        var i :| 0 <= i < |order| && order[i] == x;
        var j :| 0 <= j < |order| && order[j] == y;
        assert lines[i].1 == lines[j].1;
      }
    }
    if forall x, y :: x in nodes && y in nodes && AboveCap(arcs, x) && AboveCap(arcs, y) ==> Connected(arcs, x, y) {
      forall i, j | 0 <= i < |lines| && 0 <= j < |lines|
        ensures lines[i].1 == lines[j].1 <==> Connected(arcs, lines[i].0, lines[j].0)
      {
        assert order[i] in nodes && order[j] in nodes;
      }
    }
  }

  // ----- what the checker reads

  /** The file has a line for each of these vertices, with this label; the labels can be read. */
  ghost predicate Lists(lines: seq<Line>, labels: map<int, int>)
  {
    && (forall v :: v in labels ==> 0 <= v && 0 <= labels[v] <= INT64_MAX)
    && (forall i :: 0 <= i < |lines| ==> lines[i].0 in labels && lines[i].1 == labels[lines[i].0])
    && forall v :: v in labels ==> exists i :: 0 <= i < |lines| && lines[i].0 == v
  }

  /** What the checker takes for the label of `v`, if it read `h` last among the vertices that it cannot tell apart. */
  function LabelRead(labels: map<int, int>, h: int, v: int): int
    requires v in labels && (v >= INT64_MAX ==> h in labels)
  {
    if v < INT64_MAX then labels[v] else labels[h]
  }

  ghost predicate IsHigh(labels: map<int, int>, h: int)
  {
    h in labels && h >= INT64_MAX
  }

  /** The labels that the checker finds. */
  lemma ReadLabels(lines: seq<Line>, labels: map<int, int>) returns (h: int)
    requires Lists(lines, labels)
    ensures (exists v :: IsHigh(labels, v)) ==> IsHigh(labels, h)
    ensures forall v :: v in labels ==>
      (v >= INT64_MAX ==> h in labels) && Clamp(v) in Components(Parsed(lines)) &&
      Components(Parsed(lines))[Clamp(v)] == LabelRead(labels, h, v)
  {
    h := 0;
    var found := Components(Parsed(lines));
    if v :| IsHigh(labels, v) {
      var i := ReadLine(lines, labels, v);
      h := lines[i].0;
    }
    forall v | v in labels
      ensures (v >= INT64_MAX ==> h in labels) && Clamp(v) in found && found[Clamp(v)] == LabelRead(labels, h, v)
    {
      var i := ReadLine(lines, labels, v);
      hide Lists, Components;
      assert v >= INT64_MAX ==> IsHigh(labels, v);
    }
  }

  /** The line that the checker remembers for a vertex. */
  lemma ReadLine(lines: seq<Line>, labels: map<int, int>, v: int) returns (i: nat)
    requires Lists(lines, labels) && v in labels
    ensures i < |lines| && Clamp(lines[i].0) == Clamp(v) && lines[i].0 in labels && lines[i].1 == labels[lines[i].0]
    ensures Clamp(v) in Components(Parsed(lines)) && Components(Parsed(lines))[Clamp(v)] == labels[lines[i].0]
  {
    var j :| 0 <= j < |lines| && lines[j].0 == v;
    i := LastLine(Parsed(lines), j);
    assert Parsed(lines)[i] == Parse(lines[i]);
  }

  /** The checker decides by the labels as it reads them. */
  lemma AcceptedAsRead(result: seq<Line>, expected: seq<Line>, r: map<int, int>, q: map<int, int>, h: int)
    requires Lists(result, r) && Lists(expected, q) && r.Keys == q.Keys
    requires forall v :: v in r ==>
      (v >= INT64_MAX ==> h in r) && Clamp(v) in Components(Parsed(result)) &&
      Components(Parsed(result))[Clamp(v)] == LabelRead(r, h, v)
    ensures IsAccepted(Parsed(result), Parsed(expected)) <==>
      forall x, y :: x in q && y in q ==> (q[x] == q[y] <==> LabelRead(r, h, x) == LabelRead(r, h, y))
  {
    var a, b := Parsed(result), Parsed(expected);
    SameSize(result, expected, r, q);
    hide Components, Clamp, LabelRead;
    if IsAccepted(a, b) {
      forall x, y | x in q && y in q
        ensures q[x] == q[y] <==> LabelRead(r, h, x) == LabelRead(r, h, y)
      {
        var i :| 0 <= i < |expected| && expected[i].0 == x;
        var j :| 0 <= j < |expected| && expected[j].0 == y;
        ReadAs(expected, q, i);
        ReadAs(expected, q, j);
      }
    }
    if forall x, y :: x in q && y in q ==> (q[x] == q[y] <==> LabelRead(r, h, x) == LabelRead(r, h, y)) {
      forall i, j | 0 <= i < |b| && 0 <= j < |b|
        ensures b[i].0 in Components(a) && b[j].0 in Components(a)
        ensures b[i].1 == b[j].1 <==> Components(a)[b[i].0] == Components(a)[b[j].0]
      {
        ReadAs(expected, q, i);
        ReadAs(expected, q, j);
      }
    }
  }

  lemma ReadAs(lines: seq<Line>, labels: map<int, int>, i: nat)
    requires Lists(lines, labels) && i < |lines|
    ensures lines[i].0 in labels && Parsed(lines)[i] == (Clamp(lines[i].0), labels[lines[i].0])
  {
  }

  /** Two files about the same vertices: the checker finds no more vertices in one than the other has lines. */
  lemma SameSize(result: seq<Line>, expected: seq<Line>, r: map<int, int>, q: map<int, int>)
    requires Lists(result, r) && Lists(expected, q) && r.Keys == q.Keys
    ensures |Components(Parsed(result))| <= |Parsed(expected)|
  {
    var a, b := Parsed(result), Parsed(expected);
    ComponentsAre(a);
    RepeatedVerticesAreFewer(b);
    forall v | v in VerticesOf(a) ensures v in VerticesOf(b) {
      var i :| 0 <= i < |a| && a[i].0 == v;
      assert result[i].0 in r.Keys && result[i].0 in q;
      var j :| 0 <= j < |expected| && expected[j].0 == result[i].0;
      assert b[j].0 == v;
    }
    SubsetSize(VerticesOf(a), VerticesOf(b));
    assert |Components(a)| == |Components(a).Keys|;
  }

  // ----- the two files of one graph

  lemma ListsItself(lines: seq<Line>)
    requires OneLinePerVertex(lines) && forall i :: 0 <= i < |lines| ==> 0 <= lines[i].0 && 0 <= lines[i].1 <= INT64_MAX
    ensures Lists(lines, Components(lines))
    ensures forall i :: 0 <= i < |lines| ==>
      lines[i].0 in Components(lines) && Components(lines)[lines[i].0] == lines[i].1
  {
    ComponentsAre(lines);
    ComponentsOfDistinct(lines);
    hide Components, OneLinePerVertex;
    forall v | v in Components(lines) ensures exists i :: 0 <= i < |lines| && lines[i].0 == v {
      assert v in VerticesOf(lines);
    }
  }

  /** Components are numbered by their least logical vertices. */
  lemma ComponentsBelow(g: Graph, comp: seq<nat>)
    requires WellFormed(g) && Wcc.Components(g, comp)
    ensures |comp| == g.n && forall v: nat :: v < g.n ==> comp[v] <= v
  {
    forall v: nat | v < g.n ensures comp[v] <= v { ConnectedSelf(UnitArcs(g), v); }
    hide WellFormed, Connected, UnitArcs;
  }

  lemma CsrListed(g: Graph, directed: bool, nodes: NodeList, comp: seq<nat>)
    requires Same(g, directed, nodes) && Wcc.Components(g, comp) && g.n <= INT64_MAX + 1
    ensures |g.ids| == |comp| == g.n && Lists(CsrLines(g, comp), Components(CsrLines(g, comp)))
    ensures var q := Components(CsrLines(g, comp)); forall i: nat :: i < g.n ==> g.ids[i] in q && q[g.ids[i]] == comp[i]
  {
    VertexNames(g, directed, nodes, comp);
    ComponentsBelow(g, comp);
    DistinctLines(g, comp);
    hide Same, Wcc.Components, Components, OneLinePerVertex, WellFormed;
    var lines := CsrLines(g, comp);
    ListsItself(lines);
    forall i: nat | i < g.n ensures g.ids[i] in Components(lines) && Components(lines)[g.ids[i]] == comp[i] {
      assert lines[i] == (g.ids[i], comp[i]);
    }
  }

  lemma ListedKeys(lines: seq<Line>, labels: map<int, int>, x: int)
    requires Lists(lines, labels)
    ensures x in labels <==> exists i :: 0 <= i < |lines| && lines[i].0 == x
  {
  }

  lemma CsrKeys(g: Graph, directed: bool, nodes: NodeList, comp: seq<nat>, x: int)
    requires Same(g, directed, nodes) && Wcc.Components(g, comp) && |g.ids| == |comp|
    requires Lists(CsrLines(g, comp), Components(CsrLines(g, comp)))
    ensures x in Components(CsrLines(g, comp)) <==> x >= 0 && x in nodes
  {
    ListedKeys(CsrLines(g, comp), Components(CsrLines(g, comp)), x);
    VertexNames(g, directed, nodes, comp);
    assert x >= 0 && x in nodes <==> exists i :: 0 <= i < |comp| && g.ids[i] == x;
    hide *;
    LinesAreIds(g, comp, x);
  }

  lemma LinesAreIds(g: Graph, comp: seq<nat>, x: int)
    requires |g.ids| == |comp|
    ensures (exists i :: 0 <= i < |CsrLines(g, comp)| && CsrLines(g, comp)[i].0 == x) <==>
      exists i :: 0 <= i < |comp| && g.ids[i] == x
  {
    var lines := CsrLines(g, comp);
    hide CsrLines;
    if i :| 0 <= i < |comp| && g.ids[i] == x {
      assert lines[i].0 == x;
    }
  }

  lemma CsrLabelPair(g: Graph, directed: bool, nodes: NodeList, comp: seq<nat>, q: map<int, int>, x: nat, y: nat)
    requires Same(g, directed, nodes) && Wcc.Components(g, comp) && |g.ids| == |comp| == g.n && x in nodes && y in nodes
    requires forall i: nat :: i < g.n ==> g.ids[i] in q && q[g.ids[i]] == comp[i]
    ensures x in q && y in q && (q[x] == q[y] <==> Connected(NodeArcs(nodes), x, y))
  {
    VertexNames(g, directed, nodes, comp);
    hide *;
    var i: nat :| i < |comp| && g.ids[i] == x;
    var j: nat :| j < |comp| && g.ids[j] == y;
    CsrPair(g, directed, nodes, comp, i, j);
  }

  /** The labels in the file of the CSR tell the components apart. */
  lemma CsrLabels(g: Graph, directed: bool, nodes: NodeList, comp: seq<nat>)
    requires Same(g, directed, nodes) && Wcc.Components(g, comp) && g.n <= INT64_MAX + 1
    ensures |g.ids| == |comp| && Lists(CsrLines(g, comp), Components(CsrLines(g, comp)))
    ensures var q := Components(CsrLines(g, comp));
      && (forall x: int :: x in q <==> x >= 0 && x in nodes)
      && forall x: nat, y: nat :: x in nodes && y in nodes ==> (q[x] == q[y] <==> Connected(NodeArcs(nodes), x, y))
  {
    hide *;
    CsrListed(g, directed, nodes, comp);
    var q := Components(CsrLines(g, comp));
    forall x: int ensures x in q <==> x >= 0 && x in nodes { CsrKeys(g, directed, nodes, comp, x); }
    forall x: nat, y: nat | x in nodes && y in nodes
      ensures q[x] == q[y] <==> Connected(NodeArcs(nodes), x, y)
    {
      CsrLabelPair(g, directed, nodes, comp, q, x, y);
    }
  }

  lemma CappedBelow(nodes: NodeList, labels: map<nat, nat>, x: nat)
    requires BaselineWcc.CappedLeast(nodes, labels) && x in nodes
    ensures x in labels && labels[x] <= INT64_MAX
  {
    ConnectedSelf(NodeArcs(nodes), x);
    var m := BaselineWcc.LeastExists(NodeArcs(nodes), x, x);
  }

  /** Those in the file of the adjacency list do not, if two components lie above the cap. */
  lemma BaselineLabels(nodes: NodeList, order: seq<nat>, labels: map<nat, nat>)
    requires BaselineWcc.CappedLeast(nodes, labels) && BaselineWcc.Visits(order, nodes)
    ensures forall x :: x in order ==> x in labels
    ensures Lists(BaselineLines(order, labels), Components(BaselineLines(order, labels)))
    ensures var r, arcs := Components(BaselineLines(order, labels)), NodeArcs(nodes);
      && (forall x: int :: x in r <==> x >= 0 && x in nodes)
      && forall x: nat, y: nat :: x in nodes && y in nodes ==>
        (r[x] == r[y] <==> Connected(arcs, x, y) || (AboveCap(arcs, x) && AboveCap(arcs, y)))
  {
    forall x | x in order ensures x in labels && labels[x] <= INT64_MAX { CappedBelow(nodes, labels, x); }
    var lines, arcs := BaselineLines(order, labels), NodeArcs(nodes);
    assert OneLinePerVertex(lines);
    hide Connected, NodeArcs, AboveCap, BaselineLines, Components, OneLinePerVertex, BaselineWcc.CappedLeast;
    ListsItself(lines);
    var r := Components(lines);
    forall x: nat | x in nodes ensures x in r && r[x] == labels[x] {
      var i :| 0 <= i < |order| && order[i] == x;
      assert lines[i] == (x, labels[x]);
    }
    forall x: nat, y: nat | x in nodes && y in nodes
      ensures r[x] == r[y] <==> Connected(arcs, x, y) || (AboveCap(arcs, x) && AboveCap(arcs, y))
    {
      BaselinePair(nodes, labels, x, y);
    }
    forall x: int | x in r ensures x >= 0 && x in nodes {
      var i :| 0 <= i < |lines| && lines[i].0 == x;
      assert order[i] in order;
    }
  }

  // ----- who is accepted

  predicate High(x: nat)
  {
    x >= INT64_MAX
  }

  /** All vertices that the checker cannot tell apart lie in one component. */
  ghost predicate HighTogether(nodes: NodeList)
  {
    forall x, y :: x in nodes && y in nodes && High(x) && High(y) ==> Connected(NodeArcs(nodes), x, y)
  }

  /** They lie in one component, or in components of their own. */
  ghost predicate HighTogetherOrApart(nodes: NodeList)
  {
    forall x, y :: x in nodes && y in nodes && High(x) && High(y) ==>
      Connected(NodeArcs(nodes), x, y) || (AboveCap(NodeArcs(nodes), x) && AboveCap(NodeArcs(nodes), y))
  }

  /** The labels of the result, as they are read, agree with those of the reference. */
  ghost predicate ReadAlike(nodes: NodeList, r: map<int, int>, q: map<int, int>, h: int)
  {
    && (forall x: int :: x in r <==> x >= 0 && x in nodes) && (forall x: int :: x in q <==> x >= 0 && x in nodes)
    && ((exists x :: x in nodes && High(x)) ==> h >= INT64_MAX && h in r)
    && forall x: nat, y: nat :: x in nodes && y in nodes ==>
         (q[x] == q[y] <==> LabelRead(r, h, x) == LabelRead(r, h, y))
  }

  lemma AboveIsHigh(arcs: set<Arc>, x: nat, y: nat)
    ensures AboveCap(arcs, x) ==> High(x)
    ensures AboveCap(arcs, x) && Connected(arcs, x, y) ==> High(y)
  {
    ConnectedSelf(arcs, x);
  }

  /** The baseline as the result: all high vertices get the label of one of them. */
  lemma BaselineReadIff(nodes: NodeList, r: map<int, int>, q: map<int, int>, h: int)
    requires (forall x: int :: x in r <==> x >= 0 && x in nodes) && (forall x: int :: x in q <==> x >= 0 && x in nodes)
    requires (exists x :: x in nodes && High(x)) ==> h >= INT64_MAX && h in r
    requires forall x: nat, y: nat :: x in nodes && y in nodes ==> (q[x] == q[y] <==> Connected(NodeArcs(nodes), x, y))
    requires forall x: nat, y: nat :: x in nodes && y in nodes ==>
      (r[x] == r[y] <==>
       Connected(NodeArcs(nodes), x, y) || (AboveCap(NodeArcs(nodes), x) && AboveCap(NodeArcs(nodes), y)))
    ensures ReadAlike(nodes, r, q, h) <==> HighTogether(nodes)
  {
    var arcs := NodeArcs(nodes);
    forall x ensures AboveCap(arcs, x) ==> High(x) { AboveIsHigh(arcs, x, x); }
    hide NodeArcs, Connected, AboveCap;
    if HighTogether(nodes) {
      forall x: nat | x in nodes ensures LabelRead(r, h, x) == r[x] {
        if High(x) {
          assert h in nodes && Connected(arcs, x, h);
        }
      }
    }
  }

  /** The CSR as the result. */
  lemma CsrReadIff(nodes: NodeList, r: map<int, int>, q: map<int, int>, h: int)
    requires (forall x: int :: x in r <==> x >= 0 && x in nodes) && (forall x: int :: x in q <==> x >= 0 && x in nodes)
    requires (exists x :: x in nodes && High(x)) ==> h >= INT64_MAX && h in r
    requires forall x: nat, y: nat :: x in nodes && y in nodes ==> (r[x] == r[y] <==> Connected(NodeArcs(nodes), x, y))
    requires forall x: nat, y: nat :: x in nodes && y in nodes ==>
      (q[x] == q[y] <==>
       Connected(NodeArcs(nodes), x, y) || (AboveCap(NodeArcs(nodes), x) && AboveCap(NodeArcs(nodes), y)))
    ensures ReadAlike(nodes, r, q, h) <==> HighTogetherOrApart(nodes)
  {
    var arcs := NodeArcs(nodes);
    if HighTogetherOrApart(nodes) {
      forall x: nat, y: nat | x in nodes && y in nodes
        ensures q[x] == q[y] <==> LabelRead(r, h, x) == LabelRead(r, h, y)
      {
        if High(y) && !High(x) {
          LowAndHigh(nodes, r, q, h, x, y);
        } else if High(x) && !High(y) {
          LowAndHigh(nodes, r, q, h, y, x);
        } else {
          AboveIsHigh(arcs, x, y);
        }
      }
    }
    hide NodeArcs, Connected, AboveCap;
  }

  lemma LowAndHigh(nodes: NodeList, r: map<int, int>, q: map<int, int>, h: int, x: nat, y: nat)
    requires HighTogetherOrApart(nodes) && x in nodes && y in nodes && !High(x) && High(y)
    requires h >= INT64_MAX && h in nodes && x in r && y in r && h in r && x in q && y in q
    requires r[x] == r[h] <==> Connected(NodeArcs(nodes), x, h)
    requires q[x] == q[y] <==>
      Connected(NodeArcs(nodes), x, y) || (AboveCap(NodeArcs(nodes), x) && AboveCap(NodeArcs(nodes), y))
    ensures q[x] == q[y] <==> LabelRead(r, h, x) == LabelRead(r, h, y)
  {
    var arcs := NodeArcs(nodes);
    AboveIsHigh(arcs, x, x);
    assert High(h);
    hide NodeArcs;
    if Connected(arcs, x, y) {
      ConnectedSymmetric(arcs, x, y);
      AboveIsHigh(arcs, y, x);
      assert Connected(arcs, y, h);
      ConnectedTransitive(arcs, x, y, h);
    }
    if Connected(arcs, x, h) {
      ConnectedSymmetric(arcs, x, h);
      AboveIsHigh(arcs, h, x);
      assert Connected(arcs, h, y);
      ConnectedTransitive(arcs, x, h, y);
    }
  }

  lemma SameKeys(nodes: NodeList, r: map<int, int>, q: map<int, int>)
    requires (forall x: int :: x in r <==> x >= 0 && x in nodes) && (forall x: int :: x in q <==> x >= 0 && x in nodes)
    ensures r.Keys == q.Keys
  {
    forall x: int ensures x in r.Keys <==> x in q.Keys {
      assert x in r <==> x in q;
    }
  }

  /** From the files to what is read. */
  lemma FilesReadAlike(nodes: NodeList, result: seq<Line>, expected: seq<Line>, r: map<int, int>, q: map<int, int>)
    returns (h: int)
    requires Lists(result, r) && Lists(expected, q)
    requires (forall x: int :: x in r <==> x >= 0 && x in nodes) && (forall x: int :: x in q <==> x >= 0 && x in nodes)
    ensures (exists x :: x in nodes && High(x)) ==> h >= INT64_MAX && h in r
    ensures IsAccepted(Parsed(result), Parsed(expected)) <==> ReadAlike(nodes, r, q, h)
  {
    hide Lists, IsAccepted, Parsed, Components, Clamp, LabelRead;
    h := ReadLabels(result, r);
    if x :| x in nodes && High(x) {
      assert IsHigh(r, x);
    }
    SameKeys(nodes, r, q);
    AcceptedAsRead(result, expected, r, q, h);
    if ReadAlike(nodes, r, q, h) {
      forall x: int, y: int | x in q && y in q
        ensures q[x] == q[y] <==> LabelRead(r, h, x) == LabelRead(r, h, y)
      {
        var x', y': nat := x, y;
        assert x' in nodes && y' in nodes;
      }
    }
  }

  /**
   The components of the adjacency list are accepted against those of the CSR if and only if all vertices at or above
   the largest signed 64-bit integer, which the checker reads as one, lie in one component. The logical vertices are
   assumed to fit in such an integer, as their arrays have to fit in memory.
   */
  lemma BaselineAcceptedIff(g: Graph, directed: bool, nodes: NodeList, comp: seq<nat>, order: seq<nat>,
      labels: map<nat, nat>)
    requires Same(g, directed, nodes) && Wcc.Components(g, comp) && g.n <= INT64_MAX + 1
    requires BaselineWcc.CappedLeast(nodes, labels) && BaselineWcc.Visits(order, nodes)
    ensures |g.ids| == |comp| && forall x :: x in order ==> x in labels
    ensures IsAccepted(Parsed(BaselineLines(order, labels)), Parsed(CsrLines(g, comp))) <==> HighTogether(nodes)
  {
    hide *;
    CsrLabels(g, directed, nodes, comp);
    BaselineLabels(nodes, order, labels);
    var a, b := CsrLines(g, comp), BaselineLines(order, labels);
    var h := FilesReadAlike(nodes, b, a, Components(b), Components(a));
    BaselineReadIff(nodes, Components(b), Components(a), h);
  }

  /**
   In the other role the condition is weaker: they lie in one component, or all in components without smaller vertices,
   which have one label in the file of the adjacency list.
   */
  lemma CsrAcceptedIff(g: Graph, directed: bool, nodes: NodeList, comp: seq<nat>, order: seq<nat>,
      labels: map<nat, nat>)
    requires Same(g, directed, nodes) && Wcc.Components(g, comp) && g.n <= INT64_MAX + 1
    requires BaselineWcc.CappedLeast(nodes, labels) && BaselineWcc.Visits(order, nodes)
    ensures |g.ids| == |comp| && forall x :: x in order ==> x in labels
    ensures IsAccepted(Parsed(CsrLines(g, comp)), Parsed(BaselineLines(order, labels))) <==> HighTogetherOrApart(nodes)
  {
    hide *;
    CsrLabels(g, directed, nodes, comp);
    BaselineLabels(nodes, order, labels);
    var a, b := CsrLines(g, comp), BaselineLines(order, labels);
    var h := FilesReadAlike(nodes, a, b, Components(a), Components(b));
    CsrReadIff(nodes, Components(a), Components(b), h);
  }

  /** So with ids up to the largest signed 64-bit integer they always are accepted. */
  lemma ComponentsAlwaysValidate(g: Graph, directed: bool, nodes: NodeList, comp: seq<nat>, order: seq<nat>,
      labels: map<nat, nat>)
    requires Same(g, directed, nodes) && Wcc.Components(g, comp)
    requires BaselineWcc.CappedLeast(nodes, labels) && BaselineWcc.Visits(order, nodes)
    requires forall x :: x in nodes ==> x <= 0x7fff_ffff_ffff_ffff
    ensures |g.ids| == |comp| && forall x :: x in order ==> x in labels
    ensures var a, b := Parsed(CsrLines(g, comp)), Parsed(BaselineLines(order, labels));
      IsAccepted(a, b) && IsAccepted(b, a)
  {
    FewVertices(g, directed, nodes);
    forall x | x in nodes ensures Connected(NodeArcs(nodes), x, x) { ConnectedSelf(NodeArcs(nodes), x); }
    hide Same, WellFormed, Connected, NodeArcs, IsAccepted, Parsed, CsrLines, BaselineLines;
    BaselineAcceptedIff(g, directed, nodes, comp, order, labels);
    CsrAcceptedIff(g, directed, nodes, comp, order, labels);
  }

  lemma FewVertices(g: Graph, directed: bool, nodes: NodeList)
    requires Same(g, directed, nodes) && forall x :: x in nodes ==> x <= INT64_MAX
    ensures g.n <= INT64_MAX + 1
  {
    assert |g.ids| == g.n && Increasing(g.ids);
    if g.n > 0 {
      AtLeastItsIndex(g.ids, g.n - 1);
      assert g.ids[g.n - 1] in nodes;
    }
  }

  lemma {:induction false} AtLeastItsIndex(ids: seq<nat>, i: nat)
    requires Increasing(ids) && i < |ids|
    ensures ids[i] >= i
  {
    if i > 0 {
      AtLeastItsIndex(ids, i - 1);
    }
  }
}
