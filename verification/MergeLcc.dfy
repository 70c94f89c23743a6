/**
 The triangle counter that merges sorted rows (CSR_LCC). Workers fetch windows of vertices and
 report what they find by atomic additions, which take effect at any later moment.
 */
module MergeLcc {
  import opened Csr
  import opened Ranges
  import opened Triangles
  import opened Lcc

  // `m_num_triangles[v] += amount`
  datatype Add = Add(v: nat, amount: nat)

  function SumFor(adds: seq<Add>, v: nat): nat
  {
    if adds == [] then 0 else SumFor(adds[..|adds| - 1], v) + if adds[|adds| - 1].v == v
      then adds[|adds| - 1].amount else 0
  }

  lemma {:induction false} SumForAppend(a: seq<Add>, b: seq<Add>, v: nat)
    ensures SumFor(a + b, v) == SumFor(a, v) + SumFor(b, v)
  {
    if b == [] {
      assert a + b == a;
    } else {
      SumForAppend(a, b[..|b| - 1], v);
      assert (a + b)[..|a + b| - 1] == a + b[..|b| - 1];
    }
  }

  // ----- the triangles of one vertex

  /** The triangles with largest vertex `a` and second vertex in `seconds`. */
  ghost function Owned(adj: Adjacency, a: nat, seconds: set<nat>): set<Triangle>
  {
    set t | t in AllTriangles(adj) && t.a == a && t.b in seconds
  }

  /** Those with second vertex `b` and third vertex in `thirds`. */
  ghost function PartOf(adj: Adjacency, a: nat, b: nat, thirds: set<nat>): set<Triangle>
  {
    set t | t in AllTriangles(adj) && t.a == a && t.b == b && t.c in thirds
  }

  /** The additions made so far, and `num_triangles`, account for the triangles `found`. */
  ghost predicate Tally(found: set<Triangle>, a: nat, adds: seq<Add>, numTriangles: nat)
  {
    && (forall t :: t in found ==> t.a == a && t.a > t.b > t.c)
    && numTriangles == 2 * |found|
    && SumFor(adds, a) == 0 && (forall v: nat :: v != a ==> SumFor(adds, v) == 2 * |Through(found, v)|)
    && (forall i :: 0 <= i < |adds| ==> adds[i].v < a)
  }

  /** A match: both `n2` and `n3` get two more pairs. */
  lemma TallyMatch(found: set<Triangle>, a: nat, b: nat, c: nat, adds: seq<Add>, numTriangles: nat)
    requires Tally(found, a, adds, numTriangles) && a > b > c && Triangle(a, b, c) !in found
    ensures Tally(found + {Triangle(a, b, c)}, a, adds + [Add(b, 2), Add(c, 2)], numTriangles + 2)
  {
    var t := Triangle(a, b, c);
    forall v: nat
      ensures SumFor(adds + [Add(b, 2), Add(c, 2)], v) == SumFor(adds, v) + if v == b || v == c then 2 else 0
      ensures v != a ==> |Through(found + {t}, v)| == |Through(found, v)| + if v == b || v == c then 1 else 0
    {
      TwoAdds(adds, b, c, v);
      ThroughOneMore(found, t, v);
    }
    hide SumFor, Through;
  }

  lemma TwoAdds(adds: seq<Add>, b: nat, c: nat, v: nat)
    requires b != c
    ensures SumFor(adds + [Add(b, 2), Add(c, 2)], v) == SumFor(adds, v) + if v == b || v == c then 2 else 0
  {
    var one := adds + [Add(b, 2)];
    assert adds + [Add(b, 2), Add(c, 2)] == one + [Add(c, 2)];
    assert one[..|adds|] == adds && (one + [Add(c, 2)])[..|one|] == one;
  }

  lemma ThroughOneMore(found: set<Triangle>, t: Triangle, v: nat)
    requires t !in found
    ensures |Through(found + {t}, v)| == |Through(found, v)| + if Corner(t, v) then 1 else 0
  {
    if Corner(t, v) {
      assert Through(found + {t}, v) == Through(found, v) + {t};
    } else {
      assert Through(found + {t}, v) == Through(found, v);
    }
  }

  /** All additions for one vertex, with the final one for itself. */
  function WithOwn(adds: seq<Add>, a: nat, numTriangles: nat): seq<Add>
  {
    if numTriangles != 0 then adds + [Add(a, numTriangles)] else adds
  }

  lemma TallyDone(found: set<Triangle>, a: nat, adds: seq<Add>, numTriangles: nat, v: nat)
    requires Tally(found, a, adds, numTriangles)
    ensures SumFor(WithOwn(adds, a, numTriangles), v) == 2 * |Through(found, v)|
  {
    if v == a {
      assert Through(found, a) == found;
    }
    if numTriangles != 0 {
      var all := adds + [Add(a, numTriangles)];
      assert all[..|all| - 1] == adds;
    }
  }

  // ----- merging one row

  /** The neighbours of `n1` up to and including `n2`. */
  ghost predicate IsPrefix(adj: Adjacency, n1: nat, n2: nat, neighbours: seq<nat>)
    requires n1 in adj
  {
    && Increasing(neighbours) && neighbours != [] && neighbours[|neighbours| - 1] == n2
    && forall x: nat :: x in neighbours <==> x in adj[n1] && x <= n2
  }

  ghost predicate Passed(neighbours: seq<nat>, marker: nat, row: seq<nat>, j: nat)
  {
    marker < |neighbours| && forall m, k :: 0 <= m < marker && j <= k < |row| ==> neighbours[m] < row[k]
  }

  /** The do-while loop that advances the marker. It cannot run off the end, since the last entry is `n2 > n3`. */
  method Advance(neighbours: seq<nat>, marker: nat, n3: nat) returns (marker': nat)
    requires marker < |neighbours| && Increasing(neighbours) && n3 < neighbours[|neighbours| - 1]
    requires n3 > neighbours[marker]
    ensures marker < marker' < |neighbours| && n3 <= neighbours[marker'] && neighbours[marker' - 1] < n3
  {
    marker' := marker + 1;
    while marker' < |neighbours| && n3 > neighbours[marker']
      invariant marker < marker' < |neighbours| && neighbours[marker' - 1] < n3
    {
      marker' := marker' + 1;
    }
  }

  lemma AdvanceKeeps(neighbours: seq<nat>, marker: nat, marker': nat, row: seq<nat>, j: nat)
    requires Increasing(neighbours) && Increasing(row) && j < |row| && 0 < marker' < |neighbours|
    requires neighbours[marker' - 1] < row[j]
    ensures Passed(neighbours, marker', row, j)
  {
  }

  lemma MatchKeeps(neighbours: seq<nat>, marker: nat, row: seq<nat>, j: nat)
    requires Increasing(neighbours) && Increasing(row) && j < |row| && Passed(neighbours, marker, row, j)
    requires neighbours[marker] == row[j] && row[j] < neighbours[|neighbours| - 1]
    ensures Passed(neighbours, marker + 1, row, j + 1)
  {
  }

  /** Nothing before the marker can match any more, and nothing after a larger entry either. */
  lemma MatchIff(neighbours: seq<nat>, marker: nat, row: seq<nat>, j: nat)
    requires Increasing(neighbours) && j < |row| && Passed(neighbours, marker, row, j) && row[j] <= neighbours[marker]
    ensures row[j] in neighbours <==> row[j] == neighbours[marker]
  {
    if row[j] in neighbours {
      var m :| 0 <= m < |neighbours| && neighbours[m] == row[j];
      assert m >= marker;
    }
  }

  lemma TriangleIs(adj: Adjacency, a: nat, b: nat, c: nat)
    ensures Triangle(a, b, c) in AllTriangles(adj) <==> Closes(adj, a, b, c)
  {
    if Closes(adj, a, b, c) {
      assert a in adj && b in adj[a] && c in adj[a];
    }
  }

  /** The candidate at position `j` closes a triangle exactly when it is in the prefix. */
  lemma CandidateIs(adj: Adjacency, n1: nat, n2: nat, neighbours: seq<nat>, n3: nat)
    requires Simple(adj) && n1 in adj && n2 in adj[n1] && n2 in adj && n1 > n2 > n3 && n3 in adj[n2]
    requires IsPrefix(adj, n1, n2, neighbours)
    ensures n3 in neighbours <==> Triangle(n1, n2, n3) in AllTriangles(adj)
  {
    TriangleIs(adj, n1, n2, n3);
  }

  lemma PartOneMore(adj: Adjacency, a: nat, b: nat, row: seq<nat>, j: nat)
    requires Increasing(row) && j < |row|
    ensures var before, after := PartOf(adj, a, b, Members(row[..j])), PartOf(adj, a, b, Members(row[..j + 1]));
      && Triangle(a, b, row[j]) !in before
      && after == if Triangle(a, b, row[j]) in AllTriangles(adj) then before + {Triangle(a, b, row[j])} else before
  {
    OneMoreMember(row, j);
  }

  lemma PartPast(adj: Adjacency, a: nat, b: nat, row: seq<nat>, j: nat)
    requires Increasing(row) && j <= |row| && (j < |row| ==> row[j] > b)
    ensures PartOf(adj, a, b, Members(row)) == PartOf(adj, a, b, Members(row[..j]))
  {
    forall t | t in PartOf(adj, a, b, Members(row))
      ensures t.c in row[..j]
    {
      TriangleIs(adj, t.a, t.b, t.c);
      var k :| 0 <= k < |row| && row[k] == t.c;
      assert row[..j][k] == t.c;
    }
    assert forall x :: x in row[..j] ==> x in row;
  }

  lemma PartNone(adj: Adjacency, a: nat, b: nat, row: seq<nat>)
    ensures PartOf(adj, a, b, Members(row[..0])) == {}
  {
  }

  lemma Candidate(g: Graph, n1: nat, n2: nat, j: nat, neighbours: seq<nat>)
    requires SimpleGraph(g) && n1 < g.n && n1 in Neighbours(g) && n2 in Neighbours(g)[n1] && n2 < n1
    requires IsPrefix(Neighbours(g), n1, n2, neighbours)
    requires n2 < g.n && j < |Out(g, n2)| && Out(g, n2)[j] <= n2
    ensures Out(g, n2)[j] < n2
    ensures Out(g, n2)[j] in neighbours <==> Triangle(n1, n2, Out(g, n2)[j]) in AllTriangles(Neighbours(g))
  {
    var n3 := Out(g, n2)[j];
    RowOf(g, n2);
    SimpleIs(g);
    assert n3 in Members(Out(g, n2));
    hide *;
    EntryOf(g, n2, n3);
    CandidateIs(Neighbours(g), n1, n2, neighbours, n3);
  }

  lemma PartFresh(adj: Adjacency, found: set<Triangle>, n1: nat, n2: nat, n3: nat, thirds: set<nat>)
    requires (forall t :: t in found ==> t.b != n2) && Triangle(n1, n2, n3) !in PartOf(adj, n1, n2, thirds)
    ensures Triangle(n1, n2, n3) !in found + PartOf(adj, n1, n2, thirds)
    ensures found + (PartOf(adj, n1, n2, thirds) + {Triangle(n1, n2, n3)}) ==
      found + PartOf(adj, n1, n2, thirds) + {Triangle(n1, n2, n3)}
  {
  }

  /**
   At position `j` of the row of `n2`: the triangles before `j` are accounted for, and the marker has only passed
   smaller vertices.
   */
  ghost predicate Merging(g: Graph, n1: nat, n2: nat, neighbours: seq<nat>, found: set<Triangle>, marker: nat, j: nat,
      adds: seq<Add>, numTriangles: nat)
  {
    && SimpleGraph(g) && n2 < n1 < g.n && n1 in Neighbours(g) && n2 in Neighbours(g)[n1]
    && IsPrefix(Neighbours(g), n1, n2, neighbours) && Increasing(Out(g, n2)) && j <= |Out(g, n2)|
    && (forall t :: t in found ==> t.b != n2)
    && Passed(neighbours, marker, Out(g, n2), j)
    && Tally(found + PartOf(Neighbours(g), n1, n2, Members(Out(g, n2)[..j])), n1, adds, numTriangles)
  }

  lemma MergingStarts(g: Graph, n1: nat, n2: nat, neighbours: seq<nat>, found: set<Triangle>, adds: seq<Add>,
      numTriangles: nat)
    requires SimpleGraph(g) && n1 < g.n && n1 in Neighbours(g) && n2 in Neighbours(g)[n1] && n2 < n1
    requires IsPrefix(Neighbours(g), n1, n2, neighbours) && Tally(found, n1, adds, numTriangles)
    requires forall t :: t in found ==> t.b != n2
    ensures Merging(g, n1, n2, neighbours, found, 0, 0, adds, numTriangles)
  {
    EntryOf(g, n1, n2);
    RowOf(g, n2);
    hide SimpleGraph, Tally, Increasing, Members, PartOf, Neighbours;
    PartNone(Neighbours(g), n1, n2, Out(g, n2));
    assert found + {} == found;
  }

  /** The parts of the invariant that the steps need. */
  lemma MergingIs(g: Graph, n1: nat, n2: nat, neighbours: seq<nat>, found: set<Triangle>, marker: nat, j: nat,
      adds: seq<Add>, numTriangles: nat)
    requires Merging(g, n1, n2, neighbours, found, marker, j, adds, numTriangles)
    ensures WellFormed(g) && n2 < g.n && Increasing(neighbours) && Increasing(Out(g, n2)) && marker < |neighbours|
    ensures j <= |Out(g, n2)|
    ensures neighbours[|neighbours| - 1] == n2 && Passed(neighbours, marker, Out(g, n2), j)
    ensures j < |Out(g, n2)| && Out(g, n2)[j] <= n2 ==> Out(g, n2)[j] < n2
    ensures j < |Out(g, n2)| && Out(g, n2)[j] <= n2 ==>
      (Out(g, n2)[j] in neighbours <==> Triangle(n1, n2, Out(g, n2)[j]) in AllTriangles(Neighbours(g)))
  {
    EntryOf(g, n1, n2);
    if j < |Out(g, n2)| && Out(g, n2)[j] <= n2 {
      Candidate(g, n1, n2, j, neighbours);
    }
    hide SimpleGraph, Tally, Increasing, Members, PartOf, Neighbours;
  }

  lemma AdvanceStep(g: Graph, n1: nat, n2: nat, neighbours: seq<nat>, found: set<Triangle>, marker: nat, j: nat,
      adds: seq<Add>, numTriangles: nat, marker': nat)
    requires Merging(g, n1, n2, neighbours, found, marker, j, adds, numTriangles) && j < |Out(g, n2)|
    requires 0 < marker' < |neighbours| && neighbours[marker' - 1] < Out(g, n2)[j]
    ensures Merging(g, n1, n2, neighbours, found, marker', j, adds, numTriangles)
  {
    MergingIs(g, n1, n2, neighbours, found, marker, j, adds, numTriangles);
    AdvanceKeeps(neighbours, marker, marker', Out(g, n2), j);
    hide SimpleGraph, Tally, Increasing, Members, PartOf, Neighbours, Passed;
  }

  lemma MatchStep(g: Graph, n1: nat, n2: nat, neighbours: seq<nat>, found: set<Triangle>, marker: nat, j: nat,
      adds: seq<Add>, numTriangles: nat)
    requires Merging(g, n1, n2, neighbours, found, marker, j, adds, numTriangles)
    requires marker < |neighbours| && j < |Out(g, n2)| && Out(g, n2)[j] == neighbours[marker] && Out(g, n2)[j] <= n2
    ensures Merging(g, n1, n2, neighbours, found, marker + 1, j + 1, adds + [Add(n2, 2), Add(Out(g, n2)[j], 2)],
      numTriangles + 2)
  {
    var adj, row, n3 := Neighbours(g), Out(g, n2), Out(g, n2)[j];
    MergingIs(g, n1, n2, neighbours, found, marker, j, adds, numTriangles);
    hide SimpleGraph, Tally, Increasing, Members, PartOf, Neighbours, Passed, IsPrefix;
    var part := PartOf(adj, n1, n2, Members(row[..j]));
    PartOneMore(adj, n1, n2, row, j);
    PartFresh(adj, found, n1, n2, n3, Members(row[..j]));
    TallyMatch(found + part, n1, n2, n3, adds, numTriangles);
    MatchKeeps(neighbours, marker, row, j);
  }

  lemma SkipStep(g: Graph, n1: nat, n2: nat, neighbours: seq<nat>, found: set<Triangle>, marker: nat, j: nat,
      adds: seq<Add>, numTriangles: nat)
    requires Merging(g, n1, n2, neighbours, found, marker, j, adds, numTriangles)
    requires marker < |neighbours| && j < |Out(g, n2)| && Out(g, n2)[j] < neighbours[marker] && Out(g, n2)[j] <= n2
    ensures Merging(g, n1, n2, neighbours, found, marker, j + 1, adds, numTriangles)
  {
    var row := Out(g, n2);
    MergingIs(g, n1, n2, neighbours, found, marker, j, adds, numTriangles);
    MatchIff(neighbours, marker, row, j);
    hide SimpleGraph, Tally, Increasing, Members, PartOf, Neighbours, IsPrefix;
    PartOneMore(Neighbours(g), n1, n2, row, j);
  }

  lemma MergingEnds(g: Graph, n1: nat, n2: nat, neighbours: seq<nat>, found: set<Triangle>, marker: nat, j: nat,
      adds: seq<Add>, numTriangles: nat)
    requires Merging(g, n1, n2, neighbours, found, marker, j, adds, numTriangles)
    requires j < |Out(g, n2)| ==> Out(g, n2)[j] > n2
    ensures n2 in Neighbours(g)
    ensures Tally(found + PartOf(Neighbours(g), n1, n2, Neighbours(g)[n2]), n1, adds, numTriangles)
  {
    EntryOf(g, n1, n2);
    RowOf(g, n2);
    hide SimpleGraph, Tally, Increasing, Members, PartOf, Neighbours, Passed, IsPrefix;
    PartPast(Neighbours(g), n1, n2, Out(g, n2), j);
  }

  /** The scan of the row of `n2`: exactly the triangles `n1 > n2 > n3` are found, each once. */
  method MergeRow(g: Graph, n1: nat, n2: nat, neighbours: seq<nat>, adds: seq<Add>, numTriangles: nat,
      ghost found: set<Triangle>)
    returns (adds': seq<Add>, numTriangles': nat)
    requires SimpleGraph(g) && n1 < g.n && n1 in Neighbours(g) && n2 in Neighbours(g)[n1] && n2 < n1
    requires IsPrefix(Neighbours(g), n1, n2, neighbours) && Tally(found, n1, adds, numTriangles)
    requires forall t :: t in found ==> t.b != n2
    ensures n2 in Neighbours(g)
    ensures Tally(found + PartOf(Neighbours(g), n1, n2, Neighbours(g)[n2]), n1, adds', numTriangles')
  {
    hide *;
    MergingStarts(g, n1, n2, neighbours, found, adds, numTriangles);
    MergingIs(g, n1, n2, neighbours, found, 0, 0, adds, numTriangles);
    var row := Out(g, n2);
    adds', numTriangles' := adds, numTriangles;
    var marker, j := 0, 0;
    while j < |row|
      invariant Merging(g, n1, n2, neighbours, found, marker, j, adds', numTriangles')
    {
      var n3 := row[j];
      MergingIs(g, n1, n2, neighbours, found, marker, j, adds', numTriangles');
      if n3 > n2 {
        break;
      }
      if n3 > neighbours[marker] {
        ghost var before := marker;
        marker := Advance(neighbours, marker, n3);
        if marker >= |neighbours| {
          break;
        }
        AdvanceStep(g, n1, n2, neighbours, found, before, j, adds', numTriangles', marker);
      }
      if n3 == neighbours[marker] {
        MatchStep(g, n1, n2, neighbours, found, marker, j, adds', numTriangles');
        numTriangles' := numTriangles' + 2;
        adds' := adds' + [Add(n2, 2), Add(n3, 2)];
        marker := marker + 1;
        MergingIs(g, n1, n2, neighbours, found, marker, j + 1, adds', numTriangles');
        if marker >= |neighbours| {
          break;
        }
      } else {
        SkipStep(g, n1, n2, neighbours, found, marker, j, adds', numTriangles');
      }
      j := j + 1;
    }
    MergingEnds(g, n1, n2, neighbours, found, marker, j, adds', numTriangles');
  }

  // ----- one vertex

  lemma OwnedOneMore(adj: Adjacency, n1: nat, row: seq<nat>, i: nat)
    requires Simple(adj) && Increasing(row) && i < |row| && n1 in adj && Members(row) == adj[n1] && row[i] in adj
    ensures Owned(adj, n1, Members(row[..i + 1])) ==
      Owned(adj, n1, Members(row[..i])) + PartOf(adj, n1, row[i], adj[row[i]])
    ensures forall t :: t in Owned(adj, n1, Members(row[..i])) ==> t.b != row[i]
  {
    OneMoreMember(row, i);
    forall t | t in AllTriangles(adj) && t.a == n1 && t.b == row[i]
      ensures t.c in adj[row[i]]
    {
      TriangleIs(adj, t.a, t.b, t.c);
    }
  }

  ghost function AllOwned(adj: Adjacency, a: nat): set<Triangle>
  {
    set t | t in AllTriangles(adj) && t.a == a
  }

  lemma OwnedPast(adj: Adjacency, n1: nat, row: seq<nat>, i: nat)
    requires Increasing(row) && i <= |row| && (i < |row| ==> row[i] > n1) && n1 in adj && Members(row) == adj[n1]
    ensures Owned(adj, n1, Members(row[..i])) == AllOwned(adj, n1)
  {
    forall t | t in AllTriangles(adj) && t.a == n1
      ensures t.b in row[..i]
    {
      TriangleIs(adj, t.a, t.b, t.c);
      assert t.b in row;
      var k :| 0 <= k < |row| && row[k] == t.b;
      assert row[..i][k] == t.b;
    }
  }

  /** The triangles whose largest vertex is in `owners`. */
  ghost function OwnedBy(adj: Adjacency, owners: set<nat>): set<Triangle>
  {
    set t | t in AllTriangles(adj) && t.a in owners
  }

  /** The additions of one vertex count its triangles at all three corners. */
  ghost predicate Reports(adj: Adjacency, a: nat, adds: seq<Add>)
  {
    && (forall v: nat :: SumFor(adds, v) == 2 * |Through(OwnedBy(adj, {a}), v)|)
    && forall i :: 0 <= i < |adds| ==> adds[i].v <= a
  }

  lemma PrefixOf(adj: Adjacency, n1: nat, row: seq<nat>, i: nat)
    requires n1 in adj && Increasing(row) && Members(row) == adj[n1] && i < |row|
    ensures IsPrefix(adj, n1, row[i], row[..i + 1])
  {
    forall x: nat
      ensures x in row[..i + 1] <==> x in adj[n1] && x <= row[i]
    {
      if x in adj[n1] && x <= row[i] {
        var k :| 0 <= k < |row| && row[k] == x;
        assert row[..i + 1][k] == x;
      }
    }
  }

  /** The body of the outer loop, for the neighbour at position `i`. */
  method MergeNext(g: Graph, n1: nat, i: nat, neighbours: seq<nat>, adds: seq<Add>, numTriangles: nat)
    returns (adds': seq<Add>, numTriangles': nat)
    requires SimpleGraph(g) && n1 < g.n && i < |Out(g, n1)| && Out(g, n1)[i] <= n1 && neighbours == Out(g, n1)[..i + 1]
    requires Tally(Owned(Neighbours(g), n1, Members(Out(g, n1)[..i])), n1, adds, numTriangles)
    ensures Tally(Owned(Neighbours(g), n1, Members(Out(g, n1)[..i + 1])), n1, adds', numTriangles')
  {
    RowOf(g, n1);
    SimpleIs(g);
    hide *;
    ghost var adj := Neighbours(g);
    var row := Out(g, n1);
    InRow(g, n1, i);
    PrefixOf(adj, n1, row, i);
    OwnedOneMore(adj, n1, row, i);
    adds', numTriangles' := MergeRow(g, n1, row[i], neighbours, adds, numTriangles, Owned(adj, n1, Members(row[..i])));
  }

  lemma StartOf(g: Graph, n1: nat)
    requires SimpleGraph(g) && n1 < g.n
    ensures WellFormed(g) && n1 in Neighbours(g) && Increasing(Out(g, n1)) && Members(Out(g, n1)) == Neighbours(g)[n1]
  {
    RowOf(g, n1);
  }

  /** The loop over the smaller neighbours of `n1`. */
  method FindTriangles(g: Graph, n1: nat) returns (adds: seq<Add>, numTriangles: nat)
    requires SimpleGraph(g) && n1 < g.n && WellFormed(g)
    requires n1 in Neighbours(g) && Increasing(Out(g, n1)) && Members(Out(g, n1)) == Neighbours(g)[n1]
    ensures Tally(AllOwned(Neighbours(g), n1), n1, adds, numTriangles)
  {
    hide *;
    var row := Out(g, n1);
    var neighbours: seq<nat>, i := [], 0;
    adds, numTriangles := [], 0;
    TallyNone(Neighbours(g), n1, row);
    while i < |row|
      invariant i <= |row| && neighbours == row[..i]
      invariant Tally(Owned(Neighbours(g), n1, Members(row[..i])), n1, adds, numTriangles)
    {
      if row[i] > n1 {
        break;
      }
      neighbours := neighbours + [row[i]];
      assert neighbours == row[..i + 1];
      adds, numTriangles := MergeNext(g, n1, i, neighbours, adds, numTriangles);
      i := i + 1;
    }
    OwnedPast(Neighbours(g), n1, row, i);
  }

  /** CSR_LCC::Worker::process_vertex: the atomic additions it makes, in order. */
  method ProcessVertex(g: Graph, n1: nat) returns (adds: seq<Add>)
    requires SimpleGraph(g) && n1 < g.n
    ensures WellFormed(g) && Reports(Neighbours(g), n1, adds)
  {
    hide *;
    StartOf(g, n1);
    var numTriangles;
    adds, numTriangles := FindTriangles(g, n1);
    Finish(Neighbours(g), n1, adds, numTriangles);
    adds := WithOwn(adds, n1, numTriangles);
  }

  lemma InRow(g: Graph, n1: nat, i: nat)
    requires SimpleGraph(g) && n1 < g.n && i < |Out(g, n1)|
    ensures n1 in Neighbours(g) && Out(g, n1)[i] in Neighbours(g)[n1] && Out(g, n1)[i] in Neighbours(g)
    ensures Out(g, n1)[i] != n1
  {
    RowOf(g, n1);
    assert Out(g, n1)[i] in Members(Out(g, n1));
    hide *;
    EntryOf(g, n1, Out(g, n1)[i]);
  }

  lemma TallyNone(adj: Adjacency, n1: nat, row: seq<nat>)
    ensures Tally(Owned(adj, n1, Members(row[..0])), n1, [], 0)
  {
    var none := Owned(adj, n1, Members(row[..0]));
    assert none == {};
    forall v: nat ensures Through(none, v) == {} {}
  }

  lemma Finish(adj: Adjacency, n1: nat, adds: seq<Add>, numTriangles: nat)
    requires Tally(AllOwned(adj, n1), n1, adds, numTriangles)
    ensures Reports(adj, n1, WithOwn(adds, n1, numTriangles))
  {
    var found := AllOwned(adj, n1);
    assert OwnedBy(adj, {n1}) == found;
    forall v: nat ensures SumFor(WithOwn(adds, n1, numTriangles), v) == 2 * |Through(found, v)| {
      TallyDone(found, n1, adds, numTriangles, v);
    }
    hide AllOwned, OwnedBy, SumFor;
  }
}
