/** Prefix sums over a sorted list of edges: how a compressed sparse row array finds the edges of a vertex. */
module CsrRows {
  import opened Csr
  import opened EdgeStreams
  import opened Ranges

  const UINT64_MAX: nat := 0xffff_ffff_ffff_ffff

  /** The end of an edge that selects its row, and the one that is stored in the row. */
  function RowEnd(key: Order, e: Edge): nat
  {
    match key
    case BySource => e.source
    case ByDestination => e.destination
  }

  function CellEnd(key: Order, e: Edge): nat
  {
    match key
    case BySource => e.destination
    case ByDestination => e.source
  }

  function MakeEdge(key: Order, row: nat, cell: nat, weight: int): Edge
  {
    match key
    case BySource => Edge(row, cell, weight)
    case ByDestination => Edge(cell, row, weight)
  }

  type Dictionary = map<nat, nat>

  /** `log` maps the vertices, in ascending order, to their positions. */
  ghost predicate Indexes(vertices: seq<nat>, log: Dictionary)
  {
    && Increasing(vertices)
    && (forall x: nat :: x in log <==> x in vertices)
    && forall i :: 0 <= i < |vertices| ==> vertices[i] in log && log[vertices[i]] == i
  }

  /** Every endpoint of an edge is a vertex, and nothing else is. */
  ghost predicate VerticesOf(vertices: seq<nat>, edges: seq<Edge>)
  {
    forall x: nat :: x in vertices <==> EndOf(edges, x)
  }

  lemma IndexOfVertex(vertices: seq<nat>, log: Dictionary, x: nat)
    requires Indexes(vertices, log) && x in log
    ensures log[x] < |vertices| && vertices[log[x]] == x
  {
    var i :| 0 <= i < |vertices| && vertices[i] == x;
  }

  lemma IndexIsMonotone(vertices: seq<nat>, log: Dictionary, x: nat, y: nat)
    requires Indexes(vertices, log) && x in log && y in log
    ensures x <= y <==> log[x] <= log[y]
  {
    IndexOfVertex(vertices, log, x);
    IndexOfVertex(vertices, log, y);
  }

  lemma EndsAreIndexed(vertices: seq<nat>, log: Dictionary, edges: seq<Edge>, all: seq<Edge>, i: nat)
    requires Indexes(vertices, log) && VerticesOf(vertices, all) && multiset(edges) == multiset(all) && i < |edges|
    ensures edges[i].source in log && edges[i].destination in log
  {
    assert edges[i] in multiset(all);
    var j :| 0 <= j < |all| && all[j] == edges[i];
    assert EndOf(all, edges[i].source) && EndOf(all, edges[i].destination);
  }

  // ----- the rows that the loop uses

  ghost predicate AllIndexed(edges: seq<Edge>, log: Dictionary)
  {
    forall i :: 0 <= i < |edges| ==> edges[i].source in log && edges[i].destination in log
  }

  /**
   The logical vertex that the loop uses for edge `i`: it looks a vertex up only when it differs from that of the
   previous edge, and before the first edge it pretends to have seen the largest 64-bit integer, as vertex 0.
   */
  function RowAt(key: Order, edges: seq<Edge>, log: Dictionary, i: nat): nat
    requires i < |edges| && AllIndexed(edges, log)
  {
    if RowEnd(key, edges[i]) == (if i == 0 then UINT64_MAX else RowEnd(key, edges[i - 1]))
    then (if i == 0 then 0 else RowAt(key, edges, log, i - 1))
    else log[RowEnd(key, edges[i])]
  }

  /** The first edge does not mistake its vertex for the one pretended. */
  predicate SentinelSafe(key: Order, edges: seq<Edge>, log: Dictionary)
  {
    edges == [] || RowEnd(key, edges[0]) != UINT64_MAX || (UINT64_MAX in log && log[UINT64_MAX] == 0)
  }

  lemma {:induction false} RowAtIs(key: Order, edges: seq<Edge>, log: Dictionary, i: nat)
    requires i < |edges| && AllIndexed(edges, log) && SentinelSafe(key, edges, log)
    ensures RowAt(key, edges, log, i) == log[RowEnd(key, edges[i])]
  {
    if i > 0 {
      RowAtIs(key, edges, log, i - 1);
    }
  }

  /** Every edge is put into the row of its vertex if and only if the first one is not taken for the sentinel. */
  lemma RowsAreRightIff(key: Order, edges: seq<Edge>, log: Dictionary)
    requires AllIndexed(edges, log)
    ensures SentinelSafe(key, edges, log) <==>
      forall i: nat :: i < |edges| ==> RowAt(key, edges, log, i) == log[RowEnd(key, edges[i])]
  {
    if SentinelSafe(key, edges, log) {
      forall i: nat | i < |edges| ensures RowAt(key, edges, log, i) == log[RowEnd(key, edges[i])] {
        RowAtIs(key, edges, log, i);
      }
    } else {
      assert RowAt(key, edges, log, 0) == 0;
    }
  }

  /** A single edge out of the largest 64-bit integer is put into the row of the other vertex. */
  lemma SentinelMisplaces(w: int)
    ensures var x := 0xffff_ffff_ffff_ffff;
      var edges, log := [Edge(x, 3, w)], map[3 := 0, x := 1];
      Indexes([3, x], log) && AllIndexed(edges, log) && RowAt(BySource, edges, log, 0) == 0
  {
  }

  // ----- ranks

  /** How many entries are at most `u`. */
  function Rank(l: seq<nat>, u: int): nat
  {
    if l == [] then 0 else Rank(l[..|l| - 1], u) + if l[|l| - 1] <= u then 1 else 0
  }

  function Count(l: seq<nat>, u: nat): nat
  {
    multiset(l)[u]
  }

  lemma CountNext(l: seq<nat>, i: nat, u: nat)
    requires i < |l|
    ensures Count(l[..i + 1], u) == Count(l[..i], u) + if l[i] == u then 1 else 0
  {
    assert l[..i + 1] == l[..i] + [l[i]];
  }

  lemma {:induction false} RankStep(l: seq<nat>, u: nat)
    ensures Rank(l, u) == Rank(l, u - 1) + Count(l, u)
  {
    if l != [] {
      RankStep(l[..|l| - 1], u);
      CountNext(l, |l| - 1, u);
      assert l[..|l| - 1 + 1] == l;
    }
  }

  lemma {:induction false} RankNone(l: seq<nat>)
    ensures Rank(l, -1) == 0
  {
    if l != [] {
      RankNone(l[..|l| - 1]);
    }
  }

  lemma {:induction false} RankAll(l: seq<nat>, u: nat)
    requires forall i :: 0 <= i < |l| ==> l[i] <= u
    ensures Rank(l, u) == |l|
  {
    if l != [] {
      RankAll(l[..|l| - 1], u);
    }
  }

  lemma {:induction false} RankMonotone(l: seq<nat>, u: int, v: int)
    requires u <= v
    ensures Rank(l, u) <= Rank(l, v) <= |l|
  {
    if l != [] {
      RankMonotone(l[..|l| - 1], u, v);
    }
  }

  ghost predicate Ordered(l: seq<nat>)
  {
    forall i, j :: 0 <= i < j < |l| ==> l[i] <= l[j]
  }

  /** In a sorted list the rank is where the larger entries start. */
  lemma {:induction false} RankSplits(l: seq<nat>, u: int, i: nat)
    requires Ordered(l) && i < |l|
    ensures i < Rank(l, u) <==> l[i] <= u
  {
    var front, last := l[..|l| - 1], l[|l| - 1];
    RankMonotone(front, u, u);
    if i < |front| {
      RankSplits(front, u, i);
    } else if last <= u {
      RankAll(front, u);
    }
  }

  /** Rows that are the ranks of `l`. */
  ghost predicate IsRanks(rows: seq<nat>, l: seq<nat>)
  {
    forall u: nat :: u < |rows| ==> rows[u] == Rank(l, u)
  }

  /** The interval of `u` holds exactly the positions whose entry is `u`. */
  lemma IntervalIs(rows: seq<nat>, l: seq<nat>, u: nat, i: nat)
    requires IsRanks(rows, l) && Ordered(l) && u < |rows| && i < |l|
    ensures Lo(rows, u) <= i < Hi(rows, u) <==> l[i] == u
  {
    RankSplits(l, u, i);
    RankSplits(l, u - 1, i);
    RankNone(l);
  }

  lemma RanksAreRows(n: nat, rows: seq<nat>, l: seq<nat>, cells: seq<nat>)
    requires |rows| == n && |cells| == |l| && IsRanks(rows, l)
    requires (forall i :: 0 <= i < |l| ==> l[i] < n) && forall i :: 0 <= i < |cells| ==> cells[i] < n
    ensures Rows(n, rows, cells)
  {
    forall u, v | 0 <= u <= v < n ensures rows[u] <= rows[v] {
      RankMonotone(l, u, v);
    }
    assert l != [] ==> l[0] < n;
    if n > 0 {
      RankAll(l, n - 1);
    }
  }

  // ----- counting the edges of a row

  lemma {:induction false} SameCount<A, B>(a: seq<A>, b: seq<B>, x: A, y: B)
    requires |a| == |b| && forall k :: 0 <= k < |a| ==> (a[k] == x <==> b[k] == y)
    ensures multiset(a)[x] == multiset(b)[y]
  {
    if a != [] {
      var fa, fb := a[..|a| - 1], b[..|b| - 1];
      SameCount(fa, fb, x, y);
      assert a == fa + [a[|a| - 1]] && b == fb + [b[|b| - 1]];
    }
  }

  lemma CountInside<T>(edges: seq<T>, lo: nat, hi: nat, e: T)
    requires lo <= hi <= |edges| && forall i :: 0 <= i < |edges| && edges[i] == e ==> lo <= i < hi
    ensures multiset(edges)[e] == multiset(edges[lo..hi])[e]
  {
    assert edges == edges[..lo] + edges[lo..hi] + edges[hi..];
    assert e !in edges[..lo] && e !in edges[hi..];
    assert e !in multiset(edges[..lo]) && e !in multiset(edges[hi..]);
  }
}
