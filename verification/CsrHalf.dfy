/** One half of the loader: the pass over the sorted edges that fills the out-arrays or the in-arrays. */
module CsrHalf {
  import opened Csr
  import opened EdgeStreams
  import opened EdgeLists
  import opened Ranges
  import opened Sequences
  import opened CsrRows

  ghost function RowList(key: Order, edges: seq<Edge>, log: Dictionary): (l: seq<nat>)
    requires AllIndexed(edges, log)
    ensures |l| == |edges| && forall i :: 0 <= i < |l| ==> l[i] == RowAt(key, edges, log, i)
  {
    seq(|edges|, i requires 0 <= i < |edges| => RowAt(key, edges, log, i))
  }

  /** What the loop over the edges, sorted by `key`, leaves in the arrays. */
  ghost predicate Half(key: Order, edges: seq<Edge>, log: Dictionary, rows: seq<nat>, cells: seq<nat>,
      weights: seq<int>)
  {
    && AllIndexed(edges, log) && IsRanks(rows, RowList(key, edges, log))
    && |cells| == |weights| == |edges|
    && forall i :: 0 <= i < |edges| ==> cells[i] == log[CellEnd(key, edges[i])] && weights[i] == edges[i].weight
  }

  lemma {:induction false} RowAtBound(key: Order, edges: seq<Edge>, log: Dictionary, n: nat, i: nat)
    requires i < |edges| && AllIndexed(edges, log) && forall x :: x in log ==> log[x] < n
    ensures RowAt(key, edges, log, i) < n
  {
    assert edges[i].source in log;
    if i > 0 {
      RowAtBound(key, edges, log, n, i - 1);
    }
  }

  /** The prefix sum on a vertex array of counters. */
  method PrefixSum(v: array<nat>, ghost l: seq<nat>)
    requires forall u: nat :: u < v.Length ==> v[u] == Count(l, u)
    modifies v
    ensures IsRanks(v[..], l)
  {
    hide Rank, Count;
    if v.Length > 0 {
      RankStep(l, 0);
      RankNone(l);
    }
    var i := 1;
    while i < v.Length
      invariant 1 <= i
      invariant forall u: nat :: u < i && u < v.Length ==> v[u] == Rank(l, u)
      invariant forall u: nat :: i <= u < v.Length ==> v[u] == Count(l, u)
    {
      RankStep(l, i);
      v[i] := v[i] + v[i - 1];
      i := i + 1;
    }
  }

  /** The counters after `i` edges. */
  ghost predicate Counted(v: seq<nat>, l: seq<nat>, i: nat)
    requires i <= |l|
  {
    forall u: nat :: u < |v| ==> v[u] == Count(l[..i], u)
  }

  lemma CountedNext(v: seq<nat>, l: seq<nat>, i: nat)
    requires i < |l| && Counted(v, l, i) && l[i] < |v|
    ensures Counted(v[l[i] := v[l[i]] + 1], l, i + 1)
  {
    forall u: nat | u < |v|
      ensures Count(l[..i + 1], u) == Count(l[..i], u) + if l[i] == u then 1 else 0
    {
      CountNext(l, i, u);
    }
  }

  lemma CountedEnds(v: seq<nat>, l: seq<nat>)
    requires Counted(v, l, |l|)
    ensures forall u: nat :: u < |v| ==> v[u] == Count(l, u)
  {
    assert l[..|l|] == l;
  }

  lemma CountedStarts(v: seq<nat>, l: seq<nat>)
    requires forall u :: 0 <= u < |v| ==> v[u] == 0
    ensures Counted(v, l, 0)
  {
  }

  ghost predicate Filled(key: Order, edges: seq<Edge>, log: Dictionary, e: seq<nat>, w: seq<int>, i: nat)
    requires AllIndexed(edges, log) && i <= |edges| == |e| == |w|
  {
    forall j :: 0 <= j < i ==> e[j] == log[CellEnd(key, edges[j])] && w[j] == edges[j].weight
  }

  lemma FilledNext(key: Order, edges: seq<Edge>, log: Dictionary, e: seq<nat>, w: seq<int>, i: nat)
    requires AllIndexed(edges, log) && i < |edges| == |e| == |w| && Filled(key, edges, log, e, w, i)
    ensures CellEnd(key, edges[i]) in log
    ensures Filled(key, edges, log, e[i := log[CellEnd(key, edges[i])]], w[i := edges[i].weight], i + 1)
  {
  }

  /** The row of the next edge: its vertex is looked up unless it is that of the previous edge. */
  method RowOfEdge(key: Order, edges: seq<Edge>, log: Dictionary, ghost n: nat, i: nat, external: nat, logical: nat)
    returns (row: nat)
    requires AllIndexed(edges, log) && (forall x :: x in log ==> log[x] < n) && i < |edges|
    requires external == if i == 0 then UINT64_MAX else RowEnd(key, edges[i - 1])
    requires i < |RowList(key, edges, log)| && logical == if i == 0 then 0 else RowList(key, edges, log)[i - 1]
    ensures row == RowList(key, edges, log)[i] && row < n
  {
    RowListAt(key, edges, log, i);
    if i > 0 {
      RowListAt(key, edges, log, i - 1);
    }
    RowAtStep(key, edges, log, i);
    RowAtBound(key, edges, log, n, i);
    row := logical;
    if RowEnd(key, edges[i]) != external {
      row := log[RowEnd(key, edges[i])];
    }
  }

  method CountEdge(v: array<nat>, ghost l: seq<nat>, ghost i: nat, row: nat)
    requires i < |l| && Counted(v[..], l, i) && row == l[i] && row < v.Length
    modifies v
    ensures Counted(v[..], l, i + 1)
  {
    hide *;
    CountedNext(v[..], l, i);
    ghost var before := v[..];
    v[row] := v[row] + 1;
    assert v[..] == before[row := before[row] + 1];
  }

  method StoreCell(key: Order, edges: seq<Edge>, log: Dictionary, e: array<nat>, w: array<int>, i: nat)
    requires AllIndexed(edges, log) && i < |edges| == e.Length == w.Length && Filled(key, edges, log, e[..], w[..], i)
    modifies e, w
    ensures Filled(key, edges, log, e[..], w[..], i + 1)
  {
    hide *;
    FilledNext(key, edges, log, e[..], w[..], i);
    ghost var e0, w0 := e[..], w[..];
    e[i] := log[CellEnd(key, edges[i])];
    w[i] := edges[i].weight;
    assert e[..] == e0[i := log[CellEnd(key, edges[i])]] && w[..] == w0[i := edges[i].weight];
  }

  /** Count the edges of each row, store the other ends, and sum up the counts. */
  method BuildHalf(key: Order, edges: seq<Edge>, log: Dictionary, n: nat)
    returns (v: array<nat>, e: array<nat>, w: array<int>)
    requires AllIndexed(edges, log) && forall x :: x in log ==> log[x] < n
    ensures fresh(v) && fresh(e) && fresh(w) && v.Length == n
    ensures Half(key, edges, log, v[..], e[..], w[..])
  {
    v := new nat[n](_ => 0);
    e := new nat[|edges|](_ => 0);
    w := new int[|edges|](_ => 0);
    ghost var l := RowList(key, edges, log);
    RowListSize(key, edges, log);
    CountedStarts(v[..], l);
    assert Filled(key, edges, log, e[..], w[..], 0);
    var external, logical: nat := UINT64_MAX, 0;
    hide *;
    for i := 0 to |edges|
      invariant external == if i == 0 then UINT64_MAX else RowEnd(key, edges[i - 1])
      invariant i <= |l| && logical == if i == 0 then 0 else l[i - 1]
      invariant Counted(v[..], l, i) && Filled(key, edges, log, e[..], w[..], i)
    {
      logical := RowOfEdge(key, edges, log, n, i, external, logical);
      external := RowEnd(key, edges[i]);
      CountEdge(v, l, i, logical);
      StoreCell(key, edges, log, e, w, i);
    }
    RowListSize(key, edges, log);
    CountedEnds(v[..], l);
    PrefixSum(v, l);
    HalfBuilt(key, edges, log, v[..], e[..], w[..]);
  }

  lemma RowListAt(key: Order, edges: seq<Edge>, log: Dictionary, i: nat)
    requires AllIndexed(edges, log) && i < |edges|
    ensures |RowList(key, edges, log)| == |edges| && RowList(key, edges, log)[i] == RowAt(key, edges, log, i)
  {
  }

  lemma RowListSize(key: Order, edges: seq<Edge>, log: Dictionary)
    requires AllIndexed(edges, log)
    ensures |RowList(key, edges, log)| == |edges|
  {
  }

  lemma HalfBuilt(key: Order, edges: seq<Edge>, log: Dictionary, rows: seq<nat>, cells: seq<nat>, weights: seq<int>)
    requires AllIndexed(edges, log) && IsRanks(rows, RowList(key, edges, log)) && |cells| == |weights| == |edges|
    requires Filled(key, edges, log, cells, weights, |edges|)
    ensures Half(key, edges, log, rows, cells, weights)
  {
  }

  lemma RowAtStep(key: Order, edges: seq<Edge>, log: Dictionary, i: nat)
    requires i < |edges| && AllIndexed(edges, log)
    ensures RowEnd(key, edges[i]) in log && CellEnd(key, edges[i]) in log
    ensures RowAt(key, edges, log, i) ==
      if RowEnd(key, edges[i]) == (if i == 0 then UINT64_MAX else RowEnd(key, edges[i - 1]))
      then (if i == 0 then 0 else RowAt(key, edges, log, i - 1)) else log[RowEnd(key, edges[i])]
  {
  }

  // ----- what a half means

  /** A row with external vertices. */
  function NamedRow(ids: seq<nat>, rows: seq<nat>, cells: seq<nat>, weights: seq<int>, u: nat): (r: EdgeList)
    requires Rows(|ids|, rows, cells) && |weights| == |cells| && u < |ids|
    ensures |r| == Hi(rows, u) - Lo(rows, u)
    ensures forall k :: 0 <= k < |r| ==> r[k] == (ids[cells[Lo(rows, u) + k]], weights[Lo(rows, u) + k])
  {
    seq(Hi(rows, u) - Lo(rows, u), k requires 0 <= k < Hi(rows, u) - Lo(rows, u) =>
      (ids[cells[Lo(rows, u) + k]], weights[Lo(rows, u) + k]))
  }

  lemma RowListIs(key: Order, ids: seq<nat>, edges: seq<Edge>, log: Dictionary)
    requires Indexes(ids, log) && AllIndexed(edges, log) && SentinelSafe(key, edges, log) && Sorted(key, edges)
    ensures Ordered(RowList(key, edges, log))
    ensures forall i :: 0 <= i < |edges| ==>
      RowList(key, edges, log)[i] < |ids| && ids[RowList(key, edges, log)[i]] == RowEnd(key, edges[i])
  {
    var l := RowList(key, edges, log);
    forall i: nat | i < |edges|
      ensures RowEnd(key, edges[i]) in log && l[i] == log[RowEnd(key, edges[i])]
      ensures l[i] < |ids| && ids[l[i]] == RowEnd(key, edges[i])
    {
      RowAtIs(key, edges, log, i);
      RowAtStep(key, edges, log, i);
      IndexOfVertex(ids, log, RowEnd(key, edges[i]));
    }
    forall i: nat, j: nat | i < j < |edges|
      ensures l[i] <= l[j]
    {
      assert !Before(key, edges[j], edges[i]);
      IndexIsMonotone(ids, log, RowEnd(key, edges[i]), RowEnd(key, edges[j]));
    }
  }

  lemma CellIs(key: Order, ids: seq<nat>, edges: seq<Edge>, log: Dictionary, rows: seq<nat>, cells: seq<nat>,
      weights: seq<int>, i: nat)
    requires Indexes(ids, log) && Half(key, edges, log, rows, cells, weights) && i < |edges|
    ensures cells[i] < |ids| && ids[cells[i]] == CellEnd(key, edges[i])
  {
    RowAtStep(key, edges, log, i);
    IndexOfVertex(ids, log, CellEnd(key, edges[i]));
  }

  lemma HalfIsRows(key: Order, ids: seq<nat>, edges: seq<Edge>, log: Dictionary, rows: seq<nat>, cells: seq<nat>,
      weights: seq<int>)
    requires Indexes(ids, log) && Half(key, edges, log, rows, cells, weights) && |rows| == |ids|
    ensures Rows(|ids|, rows, cells)
  {
    forall x | x in log ensures log[x] < |ids| { IndexOfVertex(ids, log, x); }
    forall i: nat | i < |edges| ensures cells[i] < |ids| && RowList(key, edges, log)[i] < |ids| {
      CellIs(key, ids, edges, log, rows, cells, weights, i);
      RowAtBound(key, edges, log, |ids|, i);
    }
    RanksAreRows(|ids|, rows, RowList(key, edges, log), cells);
  }

  /** The row of a vertex lists its edges, each as often as it occurs. */
  lemma HalfCounts(key: Order, ids: seq<nat>, edges: seq<Edge>, log: Dictionary, rows: seq<nat>, cells: seq<nat>,
      weights: seq<int>,
      u: nat, x: nat, w: int)
    requires Indexes(ids, log) && Half(key, edges, log, rows, cells, weights) && Rows(|ids|, rows, cells)
    requires SentinelSafe(key, edges, log) && Sorted(key, edges) && u < |ids|
    ensures multiset(NamedRow(ids, rows, cells, weights, u))[(x, w)] == multiset(edges)[MakeEdge(key, ids[u], x, w)]
  {
    hide *;
    RowFits(rows, cells, |ids|, u);
    var lo, hi, e := Lo(rows, u), Hi(rows, u), MakeEdge(key, ids[u], x, w);
    SizesOf(key, edges, log, rows, cells, weights);
    var row := NamedRow(ids, rows, cells, weights, u);
    NamedRowSize(ids, rows, cells, weights, u);
    forall i: nat | i < |edges| && edges[i] == e
      ensures lo <= i < hi
    {
      EdgeInRow(key, ids, edges, log, rows, cells, weights, u, x, w, i);
    }
    CountInside(edges, lo, hi, e);
    forall k | 0 <= k < |row|
      ensures row[k] == (x, w) <==> edges[lo..hi][k] == e
    {
      EdgeInRow(key, ids, edges, log, rows, cells, weights, u, x, w, lo + k);
      NamedRowAt(ids, rows, cells, weights, u, k);
    }
    SameCount(row, edges[lo..hi], (x, w), e);
  }

  lemma RowFits(rows: seq<nat>, cells: seq<nat>, n: nat, u: nat)
    requires Rows(n, rows, cells) && u < n
    ensures u < |rows| && Lo(rows, u) <= Hi(rows, u) <= |cells|
  {
  }

  lemma SizesOf(key: Order, edges: seq<Edge>, log: Dictionary, rows: seq<nat>, cells: seq<nat>, weights: seq<int>)
    requires Half(key, edges, log, rows, cells, weights)
    ensures |cells| == |weights| == |edges|
  {
  }

  lemma NamedRowSize(ids: seq<nat>, rows: seq<nat>, cells: seq<nat>, weights: seq<int>, u: nat)
    requires Rows(|ids|, rows, cells) && |weights| == |cells| && u < |ids|
    ensures |rows| == |ids| && |NamedRow(ids, rows, cells, weights, u)| == Hi(rows, u) - Lo(rows, u)
  {
  }

  lemma NamedRowAt(ids: seq<nat>, rows: seq<nat>, cells: seq<nat>, weights: seq<int>, u: nat, k: nat)
    requires Rows(|ids|, rows, cells) && |weights| == |cells| && u < |ids|
    requires k < |NamedRow(ids, rows, cells, weights, u)|
    ensures |rows| == |ids| && Lo(rows, u) + k < |cells| && cells[Lo(rows, u) + k] < |ids|
    ensures NamedRow(ids, rows, cells, weights, u)[k] == (ids[cells[Lo(rows, u) + k]], weights[Lo(rows, u) + k])
  {
  }

  /** Edge `i` is in the interval of its vertex, with its other end and its weight in the cells. */
  lemma EdgeInRow(key: Order, ids: seq<nat>, edges: seq<Edge>, log: Dictionary, rows: seq<nat>, cells: seq<nat>,
      weights: seq<int>,
      u: nat, x: nat, w: int, i: nat)
    requires Indexes(ids, log) && Half(key, edges, log, rows, cells, weights) && Rows(|ids|, rows, cells)
    requires SentinelSafe(key, edges, log) && Sorted(key, edges) && u < |ids| && i < |edges|
    ensures |rows| == |ids| && |cells| == |weights| == |edges| && cells[i] < |ids|
    ensures ids[cells[i]] == CellEnd(key, edges[i])
    ensures Lo(rows, u) <= i < Hi(rows, u) <==> RowEnd(key, edges[i]) == ids[u]
    ensures edges[i] == MakeEdge(key, ids[u], x, w) <==>
      RowEnd(key, edges[i]) == ids[u] && (ids[cells[i]], weights[i]) == (x, w)
  {
    RowListIs(key, ids, edges, log);
    IntervalIs(rows, RowList(key, edges, log), u, i);
    CellIs(key, ids, edges, log, rows, cells, weights, i);
    IncreasingIsInjective(ids, RowList(key, edges, log)[i], u);
  }

  // An edge without its weight.
  datatype Ends = Ends(source: nat, destination: nat)

  function EndsOf(): Edge -> Ends
  {
    (e: Edge) => Ends(e.source, e.destination)
  }

  function MakeEnds(key: Order, row: nat, cell: nat): Ends
  {
    match key
    case BySource => Ends(row, cell)
    case ByDestination => Ends(cell, row)
  }

  /** The same without weights, over logical vertices. */
  lemma HalfEnds(key: Order, ids: seq<nat>, edges: seq<Edge>, log: Dictionary, rows: seq<nat>, cells: seq<nat>,
      weights: seq<int>, u: nat, v: nat)
    requires Indexes(ids, log) && Half(key, edges, log, rows, cells, weights) && Rows(|ids|, rows, cells)
    requires SentinelSafe(key, edges, log) && Sorted(key, edges) && u < |ids| && v < |ids|
    ensures u < |rows| && Lo(rows, u) <= Hi(rows, u) <= |cells|
    ensures multiset(Row<nat>(rows, cells, u))[v] == multiset(Mapped(edges, EndsOf()))[MakeEnds(key, ids[u], ids[v])]
  {
    hide *;
    RowFits(rows, cells, |ids|, u);
    SizesOf(key, edges, log, rows, cells, weights);
    var ends, e, lo, hi := Mapped(edges, EndsOf()), MakeEnds(key, ids[u], ids[v]), Lo(rows, u), Hi(rows, u);
    RowIs(rows, cells, u);
    forall i: nat | i < |ends|
      ensures i < |cells| && cells[i] < |ids|
      ensures ends[i] == e <==> lo <= i < hi && cells[i] == v
    {
      EdgeInRow(key, ids, edges, log, rows, cells, weights, u, ids[v], edges[i].weight, i);
      EndsAre(key, ids[u], ids[v], edges[i]);
      IndexesIs(ids, log);
      IncreasingIsInjective(ids, cells[i], v);
    }
    CountInside<Ends>(ends, lo, hi, e);
    var row: seq<nat> := Row<nat>(rows, cells, u);
    forall k | 0 <= k < hi - lo
      ensures row[k] == v <==> ends[lo..hi][k] == e
    {
      assert ends[lo + k] == e <==> cells[lo + k] == v;
    }
    SameCount<nat, Ends>(row, ends[lo..hi], v, e);
  }

  lemma RowIs(rows: seq<nat>, cells: seq<nat>, u: nat)
    requires u < |rows| && Lo(rows, u) <= Hi(rows, u) <= |cells|
    ensures Row<nat>(rows, cells, u) == cells[Lo(rows, u)..Hi(rows, u)]
  {
  }

  lemma IndexesIs(ids: seq<nat>, log: Dictionary)
    requires Indexes(ids, log)
    ensures Increasing(ids)
  {
  }

  lemma EndsAre(key: Order, row: nat, cell: nat, e: Edge)
    ensures EndsOf()(e) == MakeEnds(key, row, cell) <==> e == MakeEdge(key, row, cell, e.weight)
    ensures EndsOf()(e) == MakeEnds(key, row, cell) <==> RowEnd(key, e) == row && CellEnd(key, e) == cell
  {
  }

  lemma IncreasingIsInjective(s: seq<nat>, i: nat, j: nat)
    requires Increasing(s) && i < |s| && j < |s|
    ensures s[i] == s[j] <==> i == j
    ensures s[i] <= s[j] <==> i <= j
  {
  }

  /** No two entries join the same two vertices in the same direction. */
  ghost predicate NoRepeats(edges: seq<Edge>)
  {
    forall i, j :: 0 <= i < j < |edges| ==>
      edges[i].source != edges[j].source || edges[i].destination != edges[j].destination
  }

  /** Rows are sorted, strictly if no edge is repeated. */
  lemma HalfIsOrdered(key: Order, ids: seq<nat>, edges: seq<Edge>, log: Dictionary, rows: seq<nat>, cells: seq<nat>,
      weights: seq<int>,
      u: nat, i: nat, j: nat)
    requires Indexes(ids, log) && Half(key, edges, log, rows, cells, weights) && Rows(|ids|, rows, cells)
    requires SentinelSafe(key, edges, log) && Sorted(key, edges) && u < |ids| && Lo(rows, u) <= i < j < Hi(rows, u)
    ensures j < |cells| && cells[i] <= cells[j] && (NoRepeats(edges) ==> cells[i] < cells[j])
  {
    RowListIs(key, ids, edges, log);
    IntervalIs(rows, RowList(key, edges, log), u, i);
    IntervalIs(rows, RowList(key, edges, log), u, j);
    CellIs(key, ids, edges, log, rows, cells, weights, i);
    CellIs(key, ids, edges, log, rows, cells, weights, j);
    assert !Before(key, edges[j], edges[i]);
    IncreasingIsInjective(ids, cells[i], cells[j]);
  }
}
