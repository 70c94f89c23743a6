/**
 The local clustering coefficient of an undirected graph in the CSR store, by the plain kernel (CSR::do_lcc_undirected).
 */
module Lcc {
  import opened Csr
  import opened Ranges
  import opened Triangles

  const LCC_TASK_SIZE: nat := 1024

  function Members(s: seq<nat>): set<nat>
  {
    set x | x in s
  }

  function Neighbours(g: Graph): Adjacency
    requires WellFormed(g)
  {
    map u | u in UpTo(g.n) :: Members(Out(g, u))
  }

  /** What loading an undirected simple graph yields. */
  ghost predicate SimpleGraph(g: Graph)
  {
    && WellFormed(g) && !g.directed && Simple(Neighbours(g))
    && forall u: nat :: u < g.n ==> Increasing(Out(g, u))
  }

  lemma {:induction false} IncreasingSize(s: seq<nat>)
    requires Increasing(s)
    ensures |Members(s)| == |s|
  {
    if s != [] {
      var front, last := s[..|s| - 1], s[|s| - 1];
      IncreasingSize(front);
      assert Members(s) == Members(front) + {last};
    }
  }

  lemma RowOf(g: Graph, u: nat)
    requires SimpleGraph(g) && u < g.n
    ensures WellFormed(g) && Increasing(Out(g, u)) && |Out(g, u)| == OutDegree(g, u)
    ensures u in Neighbours(g) && Neighbours(g)[u] == Members(Out(g, u)) && |Neighbours(g)[u]| == OutDegree(g, u)
  {
    IncreasingSize(Out(g, u));
  }

  lemma EntryOf(g: Graph, u: nat, x: nat)
    requires SimpleGraph(g) && u < g.n && u in Neighbours(g) && x in Neighbours(g)[u]
    ensures x < g.n && x in Neighbours(g) && x != u && u in Neighbours(g)[x]
  {
  }

  // ----- the plain kernel

  /** How many of the cells of a row are in `neighbours`. */
  method CountShared(row: seq<nat>, neighbours: set<nat>) returns (count: nat)
    requires Increasing(row)
    ensures count == |Members(row) * neighbours|
  {
    hide Increasing, Members;
    count := 0;
    EmptyMembers(row);
    assert Members(row[..0]) * neighbours == {};
    for j := 0 to |row|
      invariant count == |Members(row[..j]) * neighbours|
    {
      OneMoreMember(row, j);
      if row[j] in neighbours {
        assert Members(row[..j + 1]) * neighbours == Members(row[..j]) * neighbours + {row[j]};
        count := count + 1;
      } else {
        assert Members(row[..j + 1]) * neighbours == Members(row[..j]) * neighbours;
      }
    }
    assert row[..|row|] == row;
  }

  lemma PairsStep(g: Graph, v: nat, i: nat)
    requires SimpleGraph(g) && v < g.n && v in Neighbours(g) && i < |Out(g, v)|
    ensures var row := Out(g, v);
      && row[i] < g.n && Increasing(Out(g, row[i]))
      && |PairsFrom(Neighbours(g), v, Members(row[..i + 1]))|
         == |PairsFrom(Neighbours(g), v, Members(row[..i]))| + |Members(Out(g, row[i])) * Members(row)|
  {
    RowOf(g, v);
    hide *;
    var row := Out(g, v);
    OneMoreMember(row, i);
    EntryOf(g, v, row[i]);
    RowOf(g, row[i]);
    PairsFromOneMore(Neighbours(g), v, Members(row[..i]), row[i]);
  }

  /** `num_triangles` of one vertex. */
  method CountPairs(g: Graph, v: nat) returns (numTriangles: nat)
    requires SimpleGraph(g) && v < g.n
    ensures WellFormed(g) && v in Neighbours(g) && numTriangles == |Pairs(Neighbours(g), v)|
  {
    RowOf(g, v);
    hide *;
    var row := Out(g, v);
    ghost var adj := Neighbours(g);
    var neighbours := Members(row);
    numTriangles := 0;
    PairsFromNone(adj, v);
    EmptyMembers(row);
    for i := 0 to |row|
      invariant numTriangles == |PairsFrom(adj, v, Members(row[..i]))|
    {
      PairsStep(g, v, i);
      var count := CountShared(Out(g, row[i]), neighbours);
      numTriangles := numTriangles + count;
    }
    assert row[..|row|] == row;
    PairsFromAll(adj, v, Members(row));
  }

  lemma EmptyMembers(row: seq<nat>)
    ensures Members(row[..0]) == {}
  {
  }

  lemma OneMoreMember(row: seq<nat>, k: nat)
    requires Increasing(row) && k < |row|
    ensures row[k] in Members(row) && row[k] !in Members(row[..k])
    ensures Members(row[..k + 1]) == Members(row[..k]) + {row[k]}
  {
    assert row[..k + 1] == row[..k] + [row[k]];
  }

  /** One iteration of the parallel loop. */
  method ScoreOf(g: Graph, v: nat) returns (score: real)
    requires SimpleGraph(g) && v < g.n
    ensures WellFormed(g) && v in Neighbours(g) && score == Coefficient(Neighbours(g), v)
  {
    RowOf(g, v);
    hide *;
    CoefficientIs(Neighbours(g), v);
    score := 0.0;
    var degree := OutDegree(g, v);
    if degree >= 2 {
      var numTriangles := CountPairs(g, v);
      score := Score(numTriangles, degree);
    }
  }

  /** CSR::do_lcc_undirected, with its vertices in any order. */
  method LccUndirected(g: Graph) returns (lcc: array<real>)
    requires SimpleGraph(g)
    ensures WellFormed(g) && fresh(lcc) && lcc.Length == g.n
    ensures forall v: nat :: v < g.n ==> v in Neighbours(g) && lcc[v] == Coefficient(Neighbours(g), v)
  {
    SimpleIs(g);
    hide *;
    lcc := new real[g.n](_ => 0.0);
    var left := UpTo(g.n);
    while left != {}
      invariant left <= UpTo(g.n) && fresh(lcc)
      invariant forall v: nat :: v < g.n && v !in left ==> v in Neighbours(g) && lcc[v] == Coefficient(Neighbours(g), v)
    {
      var v :| v in left;
      lcc[v] := ScoreOf(g, v);
      left := left - {v};
    }
  }

  lemma SimpleIs(g: Graph)
    requires SimpleGraph(g)
    ensures WellFormed(g) && Simple(Neighbours(g))
  {
  }
}
