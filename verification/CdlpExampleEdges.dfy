/** The graph of `CdlpExample` is what a load of its edges yields. */
module CdlpExampleEdges {
  import opened Csr
  import opened EdgeStreams
  import opened SameGraph
  import opened Ranges
  import opened Sequences
  import opened CsrRows
  import opened CsrHalf
  import opened CsrLoader
  import opened CdlpExample

  /** In a clique with the smallest vertex c: c to the three others, c + 1 to the two after it, c + 2 to c + 3. */
  function EdgeAt(i: nat): Edge
  {
    if i < 96 then
      var c, k := i / 6 * 4, i % 6;
      if k < 3 then Edge(c, c + k + 1, 0) else if k < 5 then Edge(c + 1, c + k - 1, 0) else Edge(c + 2, c + 3, 0)
    else Edge(64, 65, 0)
  }

  function ExampleEdges(): (edges: seq<Edge>)
    ensures |edges| == 97 && forall i :: 0 <= i < 97 ==> edges[i] == EdgeAt(i)
  {
    seq(97, i requires 0 <= i < 97 => EdgeAt(i))
  }

  predicate Linked(s: nat, d: nat)
  {
    if s < 64 then d != s && Corner(d) == Corner(s) else (s, d) == (64, 65) || (s, d) == (65, 64)
  }

  lemma EdgesAreLinked(i: nat)
    requires i < 97
    ensures var e := EdgeAt(i); Linked(e.source, e.destination) && e.source < e.destination < 66 && e.weight == 0
  {
  }

  function IndexOf(s: nat, d: nat): nat
  {
    if s >= 64 then 96
    else s / 4 * 6 + if s % 4 == 0 then (if d % 4 == 0 then 0 else d % 4 - 1) else if s % 4 == 1 then d % 4 + 1 else 5
  }

  lemma LinkedAreEdges(s: nat, d: nat)
    requires Linked(s, d) && s < d
    ensures IndexOf(s, d) < 97 && EdgeAt(IndexOf(s, d)) == Edge(s, d, 0)
  {
    if s < 64 {
      var c, k := s / 4, IndexOf(s, d) - s / 4 * 6;
      assert d == 4 * c + d % 4 && s == 4 * c + s % 4 && s % 4 < d % 4;
      assert k < 6 && (6 * c + k) / 6 == c && (6 * c + k) % 6 == k;
    }
  }

  lemma LinkedIsSymmetric(s: nat, d: nat)
    ensures Linked(s, d) ==> Linked(d, s) && s != d
  {
  }

  lemma EdgesDiffer(i: nat, j: nat)
    requires i < j < 97
    ensures EdgeAt(i) != EdgeAt(j)
  {
  }

  lemma ExampleIsSimple()
    ensures SimpleEdges(false, ExampleEdges())
  {
    var edges := ExampleEdges();
    forall i: nat, j: nat | i < 97 && j < 97
      ensures edges[i].source < edges[i].destination && edges[j].source < edges[j].destination
      ensures edges[i].weight == edges[j].weight && (i < j ==> edges[i] != edges[j])
    {
      EdgesAreLinked(i);
      EdgesAreLinked(j);
      if i < j {
        EdgesDiffer(i, j);
      }
    }
    hide EdgeAt, ExampleEdges;
  }

  lemma EdgeIsListed(s: nat, d: nat, w: int)
    ensures Edge(s, d, w) in ExampleEdges() <==> w == 0 && s < d && Linked(s, d)
  {
    var edges := ExampleEdges();
    if Edge(s, d, w) in edges {
      var i :| 0 <= i < 97 && edges[i] == Edge(s, d, w);
      EdgesAreLinked(i);
    }
    hide EdgeAt, Linked;
    if w == 0 && s < d && Linked(s, d) {
      LinkedAreEdges(s, d);
      assert edges[IndexOf(s, d)] == Edge(s, d, 0);
    }
  }

  lemma EndsAreListed(s: nat, d: nat)
    ensures Ends(s, d) in Mapped(ExampleEdges(), EndsOf()) <==> s < d && Linked(s, d)
  {
    var edges, ends := ExampleEdges(), Mapped(ExampleEdges(), EndsOf());
    EdgeIsListed(s, d, 0);
    hide EdgeAt, Linked;
    if Ends(s, d) in ends {
      var i :| 0 <= i < 97 && ends[i] == Ends(s, d);
      EdgesAreLinked(i);
      assert edges[i] == Edge(s, d, 0);
    }
    if Edge(s, d, 0) in edges {
      var i :| 0 <= i < 97 && edges[i] == Edge(s, d, 0);
      assert ends[i] == Ends(s, d);
    }
  }

  lemma ExampleCopies(s: nat, d: nat, w: int)
    ensures Copies(false, ExampleEdges(), s, d, w) == if w == 0 && Linked(s, d) then 1 else 0
    ensures EndCopies(false, ExampleEdges(), s, d) == if Linked(s, d) then 1 else 0
  {
    ExampleIsSimple();
    CopiesOnce(false, ExampleEdges(), s, d, w);
    EndsOnce(false, ExampleEdges(), s, d);
    EdgeIsListed(s, d, w);
    EdgeIsListed(d, s, w);
    EndsAreListed(s, d);
    EndsAreListed(d, s);
    LinkedIsSymmetric(s, d);
    LinkedIsSymmetric(d, s);
    hide Linked, ExampleEdges, SimpleEdges;
    var edges, ends := ExampleEdges(), Mapped(ExampleEdges(), EndsOf());
    assert Edge(s, d, w) in edges <==> Edge(s, d, w) in multiset(edges);
    assert Edge(d, s, w) in edges <==> Edge(d, s, w) in multiset(edges);
    assert Ends(s, d) in ends <==> Ends(s, d) in multiset(ends);
    assert Ends(d, s) in ends <==> Ends(d, s) in multiset(ends);
  }

  // ----- the rows

  /** The neighbours of a vertex. */
  function Others(u: nat): seq<nat>
  {
    if u < 64 then [Other(u, 0), Other(u, 1), Other(u, 2)] else [if u == 64 then 65 else 64]
  }

  lemma OthersAreLinked(u: nat, x: nat)
    requires u < 66
    ensures multiset(Others(u))[x] == if Linked(u, x) then 1 else 0
  {
    if u < 64 {
      OthersBound(u, 0);
      OthersBound(u, 1);
      OthersBound(u, 2);
      assert Corner(x) == Corner(u) ==> x == u || x == Other(u, 0) || x == Other(u, 1) || x == Other(u, 2);
      hide Other, Corner;
    }
  }

  lemma ExampleIs()
    ensures var g := Example();
      && WellFormed(g) && g.n == |g.ids| == 66 && !g.directed && g.inV == g.outV && g.inE == g.outE && g.inW == g.outW
      && (forall v :: 0 <= v < 66 ==> g.ids[v] == v) && |g.outW| == 194 && forall i :: 0 <= i < 194 ==> g.outW[i] == 0
  {
    ExampleIsWellFormed();
    hide WellFormed, Cell;
  }

  lemma ExampleRows(u: nat)
    requires u < 66
    ensures WellFormed(Example()) && Out(Example(), u) == In(Example(), u) == Others(u)
  {
    ExampleIs();
    ExampleEdge();
    if u < 64 {
      ExampleRow(u);
    }
    hide WellFormed, Example, Other;
  }

  lemma ExampleNamed(u: nat, x: nat, w: int)
    requires u < 66
    ensures WellFormed(Example()) && NamedOut(Example(), u) == NamedIn(Example(), u)
    ensures multiset(NamedOut(Example(), u))[(x, w)] == if w == 0 && Linked(u, x) then 1 else 0
  {
    ExampleIs();
    ExampleRows(u);
    OthersAreLinked(u, x);
    OthersBelow(u);
    hide WellFormed, Example, Linked, Others;
    var g := Example();
    var row, named := Others(u), NamedOut(g, u);
    assert Row(g.outV, g.outE, u) == row;
    assert forall i :: 0 <= i < |row| ==> named[i] == (row[i], 0);
    hide NamedOut, NamedIn, Row;
    NamedCount(row, named, x, w);
  }

  lemma OthersBelow(u: nat)
    requires u < 66
    ensures forall i :: 0 <= i < |Others(u)| ==> Others(u)[i] < 66
  {
  }

  lemma {:induction false} NamedCount(row: seq<nat>, named: seq<(nat, int)>, x: nat, w: int)
    requires |named| == |row| && forall i :: 0 <= i < |row| ==> named[i] == (row[i], 0)
    ensures multiset(named)[(x, w)] == if w == 0 then multiset(row)[x] else 0
  {
    if row != [] {
      var k := |row| - 1;
      assert row == row[..k] + [row[k]] && named == named[..k] + [named[k]];
      NamedCount(row[..k], named[..k], x, w);
    }
  }

  lemma ExampleIsNamed()
    ensures WellFormed(Example()) && OutNamed(Example(), ExampleEdges()) && InNamed(Example(), ExampleEdges())
  {
    var g, edges := Example(), ExampleEdges();
    ExampleIs();
    hide WellFormed, Example, ExampleEdges, Copies, NamedOut, NamedIn, Linked;
    forall u: nat, x: nat, w: int | u < 66
      ensures multiset(NamedOut(g, u))[(x, w)] == Copies(false, edges, g.ids[u], x, w)
      ensures multiset(NamedIn(g, u))[(x, w)] == Copies(false, edges, x, g.ids[u], w)
    {
      ExampleNamed(u, x, w);
      ExampleCopies(u, x, w);
      ExampleCopies(x, u, w);
      LinkedIsSymmetric(u, x);
      LinkedIsSymmetric(x, u);
    }
  }

  lemma ExampleIsCounted()
    ensures WellFormed(Example()) && EndsCounted(Example(), ExampleEdges())
  {
    var g, edges := Example(), ExampleEdges();
    ExampleIs();
    hide WellFormed, Example, ExampleEdges, EndCopies, Out, In, Linked, Others;
    forall u: nat, v: nat | u < 66 && v < 66
      ensures multiset(Out(g, u))[v] == EndCopies(false, edges, g.ids[u], g.ids[v])
      ensures multiset(In(g, v))[u] == EndCopies(false, edges, g.ids[u], g.ids[v])
    {
      ExampleRows(u);
      ExampleRows(v);
      OthersAreLinked(u, v);
      OthersAreLinked(v, u);
      ExampleCopies(u, v, 0);
      LinkedIsSymmetric(u, v);
      LinkedIsSymmetric(v, u);
    }
  }

  lemma ExampleEnds(x: nat)
    ensures EndOf(ExampleEdges(), x) <==> x < 66
  {
    var edges := ExampleEdges();
    if EndOf(edges, x) {
      var i :| 0 <= i < 97 && (edges[i].source == x || edges[i].destination == x);
      EdgesAreLinked(i);
    }
    if x < 66 {
      var y := if x < 64 then Other(x, 0) else 129 - x;
      assert Linked(x, y) && Linked(y, x);
      if x < y {
        LinkedAreEdges(x, y);
        assert edges[IndexOf(x, y)].source == x;
      } else {
        LinkedAreEdges(y, x);
        assert edges[IndexOf(y, x)].destination == x;
      }
    }
  }

  lemma ExampleAscends()
    ensures RowsAscend(Example().outV, Example().outE)
  {
    var g := Example();
    ExampleIs();
    assert |g.outV| == 66;
    hide Example, Others;
    forall u: nat, i: nat, j: nat | u < 66 && Lo(g.outV, u) <= i < j < Hi(g.outV, u) && j < |g.outE|
      ensures g.outE[i] <= g.outE[j]
    {
      ExampleRows(u);
      OthersAscend(u);
      var row, lo := Out(g, u), Lo(g.outV, u);
      assert row[i - lo] == g.outE[i] && row[j - lo] == g.outE[j];
    }
  }

  lemma OthersAscend(u: nat)
    requires u < 66
    ensures forall i, j :: 0 <= i < j < |Others(u)| ==> Others(u)[i] <= Others(u)[j]
  {
  }

  lemma ExampleIsLoaded()
    ensures Loaded(Example(), ExampleEdges()) && SimpleEdges(false, ExampleEdges())
  {
    var g := Example();
    ExampleIsSimple();
    ExampleIsNamed();
    ExampleIsCounted();
    ExampleAscends();
    assert g.inV == g.outV && g.inE == g.outE && |g.ids| == 66 && forall v :: 0 <= v < 66 ==> g.ids[v] == v;
    forall x: nat ensures x in g.ids <==> EndOf(ExampleEdges(), x) {
      ExampleEnds(x);
      assert x < 66 ==> g.ids[x] == x;
    }
    assert Increasing(g.ids);
    hide WellFormed, Example, ExampleEdges, OutNamed, InNamed, EndsCounted, RowsAscend, Increasing, SimpleEdges;
  }
}
