/** A graph on which the label propagation can return too early: 16 cliques, the first chunk, and an edge. */
module CdlpExample {
  import opened Csr
  import opened Ranges
  import opened Votes
  import opened Sequences
  import opened Cdlp
  import opened CdlpSchedules

  // ----- the graph

  /** The smallest vertex of the clique of `u`. */
  function Corner(u: nat): nat
  {
    u / 4 * 4
  }

  /** The other vertices of the clique of `u`, in order. */
  function Other(u: nat, j: nat): nat
  {
    Corner(u) + if j < u % 4 then j else j + 1
  }

  function Cell(i: nat): nat
  {
    if i < 192 then Other(i / 3, i % 3) else if i == 192 then 65 else 64
  }

  /** The cliques {0, 1, 2, 3} to {60, 61, 62, 63} and the edge {64, 65}. */
  function Example(): Graph
  {
    var rows := seq(66, u requires 0 <= u < 66 => if u < 64 then 3 * u + 3 else 129 + u);
    var cells, weights := seq(194, i requires 0 <= i < 194 => Cell(i)), seq(194, i => 0);
    Graph(66, false, rows, cells, weights, rows, cells, weights, seq(66, u requires 0 <= u < 66 => u))
  }

  lemma OthersBound(u: nat, j: nat)
    requires u < 64 && j < 3
    ensures Other(u, j) < 64 && Other(u, j) != u && Corner(Other(u, j)) == Corner(u)
    ensures j > 0 ==> Other(u, j - 1) < Other(u, j)
  {
  }

  lemma ExampleIsWellFormed()
    ensures WellFormed(Example())
  {
    var g := Example();
    forall i: nat | i < 194 ensures g.outE[i] < 66 {
      if i < 192 {
        OthersBound(i / 3, i % 3);
      }
    }
    hide Cell;
  }

  lemma ExampleRow(u: nat)
    requires u < 64
    ensures WellFormed(Example()) && Out(Example(), u) == [Other(u, 0), Other(u, 1), Other(u, 2)]
  {
    ExampleIsWellFormed();
    var g := Example();
    assert Lo(g.outV, u) == 3 * u && Hi(g.outV, u) == 3 * u + 3;
    CellsOfRow(u);
    hide WellFormed, Cell, Other;
  }

  lemma CellsOfRow(u: nat)
    requires u < 64
    ensures Cell(3 * u) == Other(u, 0) && Cell(3 * u + 1) == Other(u, 1) && Cell(3 * u + 2) == Other(u, 2)
  {
    hide Other;
  }

  lemma ExampleEdge()
    ensures WellFormed(Example()) && Out(Example(), 64) == [65] && Out(Example(), 65) == [64]
  {
    ExampleIsWellFormed();
    hide WellFormed;
  }

  // ----- votes

  lemma SmallestWins(a: nat, b: nat, c: nat)
    requires a < b < c
    ensures Winner(multiset{a, b, c}, INT64_MAX) == a
  {
    assert Wins(multiset{a, b, c}, a);
    WinnerIsUnique(multiset{a, b, c}, a, Winner(multiset{a, b, c}, INT64_MAX));
  }

  lemma TwoOfThreeWin(a: nat, b: nat)
    ensures Winner(multiset{a, b, b}, INT64_MAX) == b
  {
    assert Wins(multiset{a, b, b}, b);
    WinnerIsUnique(multiset{a, b, b}, b, Winner(multiset{a, b, b}, INT64_MAX));
  }

  lemma VoteOfOne(a: nat)
    ensures Winner(multiset{a}, INT64_MAX) == a
  {
    assert Wins(multiset{a}, a);
    WinnerIsUnique(multiset{a}, a, Winner(multiset{a}, INT64_MAX));
  }

  lemma ElectedOfOne(g: Graph, labels: Labels, v: nat, a: nat)
    requires WellFormed(g) && !g.directed && v < g.n && Out(g, v) == [a] && a < |labels|
    ensures Elected(g, labels, v) == labels[a]
  {
    assert Mapped([a], LabelOf(labels)) == [labels[a]];
    VoteOfOne(labels[a]);
    hide WellFormed, Out, LabelOf, Mapped, Winner;
    assert Ballot(g, labels, v) == multiset{labels[a]};
  }

  lemma ElectedOfThree(g: Graph, labels: Labels, v: nat, a: nat, b: nat, c: nat)
    requires WellFormed(g) && !g.directed && v < g.n && Out(g, v) == [a, b, c]
    requires a < |labels| && b < |labels| && c < |labels|
    ensures Elected(g, labels, v) == Winner(multiset{labels[a], labels[b], labels[c]}, INT64_MAX)
  {
    assert Mapped([a, b, c], LabelOf(labels)) == [labels[a], labels[b], labels[c]];
    hide WellFormed, Out, LabelOf, Mapped, Winner;
    assert Ballot(g, labels, v) == multiset{labels[a], labels[b], labels[c]};
  }

  // ----- the iterations

  lemma ExampleSize()
    ensures Example().n == 66 && !Example().directed && |Example().ids| == 66
    ensures forall u: nat :: u < 66 ==> Example().ids[u] == u
  {
  }

  function Heard(labels: Labels, u: nat): multiset<nat>
    requires |labels| == 66 && u < 64
  {
    OthersBound(u, 0);
    OthersBound(u, 1);
    OthersBound(u, 2);
    multiset{labels[Other(u, 0)], labels[Other(u, 1)], labels[Other(u, 2)]}
  }

  lemma StepOfClique(labels: Labels, u: nat)
    requires |labels| == 66 && u < 64
    ensures WellFormed(Example()) && Example().n == 66
    ensures Step(Example(), labels)[u] == Winner(Heard(labels, u), INT64_MAX)
  {
    ExampleSize();
    OthersBound(u, 0);
    OthersBound(u, 1);
    OthersBound(u, 2);
    ExampleRow(u);
    hide WellFormed, Example, Elected, Other, Winner;
    ElectedOfThree(Example(), labels, u, Other(u, 0), Other(u, 1), Other(u, 2));
  }

  lemma StepOfEdge(labels: Labels)
    requires |labels| == 66
    ensures WellFormed(Example()) && Example().n == 66
    ensures Step(Example(), labels)[64] == labels[65] && Step(Example(), labels)[65] == labels[64]
  {
    ExampleSize();
    ExampleEdge();
    hide WellFormed, Example, Elected;
    ElectedOfOne(Example(), labels, 64, 65);
    ElectedOfOne(Example(), labels, 65, 64);
  }

  /** What the cliques have settled on from the second iteration on. */
  ghost predicate Settled(labels: Labels)
  {
    |labels| == 66 && forall u: nat :: u < 64 ==> labels[u] == Corner(u)
  }

  /** After the first iteration the smallest vertex of a clique has the label of the next one. */
  ghost predicate HalfSettled(labels: Labels)
  {
    |labels| == 66 && forall u: nat :: u < 64 ==> labels[u] == if u % 4 == 0 then u + 1 else Corner(u)
  }

  lemma FirstIteration()
    ensures var g := Example();
      WellFormed(g) && HalfSettled(Iterate(g, 1)) && Iterate(g, 1)[64] == 65 && Iterate(g, 1)[65] == 64
  {
    ExampleSize();
    ExampleIsWellFormed();
    IdsLength(Example());
    IterateOnce(Example(), 0);
    hide WellFormed, Example, Iterate, Step, Heard, Winner;
    var labels := Iterate(Example(), 0);
    StepOfEdge(labels);
    forall u: nat | u < 64 ensures Step(Example(), labels)[u] == if u % 4 == 0 then u + 1 else Corner(u) {
      StepOfClique(labels, u);
      FirstVotes(labels, u);
    }
  }

  lemma FirstVotes(labels: Labels, u: nat)
    requires |labels| == 66 && u < 64 && forall v: nat :: v < 66 ==> labels[v] == v
    ensures Winner(Heard(labels, u), INT64_MAX) == if u % 4 == 0 then u + 1 else Corner(u)
  {
    OthersBound(u, 0);
    OthersBound(u, 1);
    OthersBound(u, 2);
    SmallestWins(Other(u, 0), Other(u, 1), Other(u, 2));
    hide Winner;
  }

  lemma SettlesNext(labels: Labels)
    requires HalfSettled(labels) || Settled(labels)
    ensures WellFormed(Example()) && Settled(Step(Example(), labels))
  {
    ExampleSize();
    ExampleIsWellFormed();
    assert |labels| == 66;
    hide WellFormed, Example, Step, Corner, HalfSettled, Winner, Heard;
    assert |Step(Example(), labels)| == 66;
    forall u: nat | u < 64 ensures Step(Example(), labels)[u] == Corner(u) {
      StepOfClique(labels, u);
      CornerWins(labels, u);
    }
  }

  lemma CornerWins(labels: Labels, u: nat)
    requires |labels| == 66 && (HalfSettled(labels) || Settled(labels)) && u < 64
    ensures Winner(Heard(labels, u), INT64_MAX) == Corner(u)
  {
    OthersBound(u, 0);
    OthersBound(u, 1);
    OthersBound(u, 2);
    assert labels[Other(u, 1)] == Corner(u) && labels[Other(u, 2)] == Corner(u);
    TwoOfThreeWin(labels[Other(u, 0)], Corner(u));
    hide Winner, Other, Corner;
  }

  lemma LaterIteration(k: nat)
    requires WellFormed(Example()) && (HalfSettled(Iterate(Example(), k)) || Settled(Iterate(Example(), k)))
    ensures Settled(Iterate(Example(), k + 1))
    ensures Iterate(Example(), k + 1)[64] == Iterate(Example(), k)[65]
    ensures Iterate(Example(), k + 1)[65] == Iterate(Example(), k)[64]
  {
    hide WellFormed, Example, Step, Settled, HalfSettled, Iterate;
    IterateOnce(Example(), k);
    SizeOf(k);
    SettlesNext(Iterate(Example(), k));
    StepOfEdge(Iterate(Example(), k));
  }

  lemma SizeOf(k: nat)
    requires WellFormed(Example())
    ensures |Iterate(Example(), k)| == 66 && |Iterate(Example(), k + 1)| == 66
  {
    ExampleSize();
    hide WellFormed, Example, Iterate;
  }

  /**
   From the second iteration on the cliques, and with them the whole first chunk, are stable, while the labels of the
   edge keep swapping. With four iterations asked for, the first chunk can lower the flag in the third, which is then
   the last.
   */
  lemma StopsTooEarly() returns (run: seq<Kernel>)
    ensures WellFormed(Example()) && Example().n == 66 && Ends(Example(), 4, run)
    ensures Returned(run) == Iterate(Example(), 3) != Iterate(Example(), 4)
  {
    ExampleSize();
    FirstIteration();
    hide WellFormed, Example, Step, HalfSettled, Iterate, Ends, Returned;
    LaterIteration(1);
    LaterIteration(2);
    LaterIteration(3);
    var g := Example();
    forall u: nat | u < g.n && SameChunk(u, 0)
      ensures Iterate(g, 2)[u] == Iterate(g, 2 + 1)[u]
    {
      assert u < 64;
    }
    assert Iterate(g, 2 + 1)[64] != Iterate(g, 4)[64];
    run := WholeChunkStops(g, 4, 2, 0);
  }
}
