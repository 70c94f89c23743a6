/** The merge of the out-arrays and the in-arrays into those of an undirected graph (CSR::load_undirected). */
module CsrMerge {
  import opened Csr

  // A logical neighbour and the weight of the edge to it.
  datatype Cell = Cell(v: nat, w: int)

  function Cells(edges: seq<nat>, weights: seq<int>, lo: nat, hi: nat): (r: seq<Cell>)
    requires lo <= hi <= |edges| == |weights|
    ensures |r| == hi - lo && forall k :: 0 <= k < |r| ==> r[k] == Cell(edges[lo + k], weights[lo + k])
  {
    seq(hi - lo, k requires 0 <= k < hi - lo => Cell(edges[lo + k], weights[lo + k]))
  }

  ghost predicate Ascends(row: seq<Cell>)
  {
    forall i, j :: 0 <= i < j < |row| ==> row[i].v <= row[j].v
  }

  /** `m` merges the first `i` cells of `a` and the first `j` of `b`. */
  ghost predicate Merged(a: seq<Cell>, b: seq<Cell>, i: nat, j: nat, m: seq<Cell>)
  {
    && i <= |a| && j <= |b| && |m| == i + j && Ascends(m)
    && multiset(m) == multiset(a[..i]) + multiset(b[..j])
    && (forall x :: 0 <= x < |m| ==> (i < |a| ==> m[x].v <= a[i].v) && (j < |b| ==> m[x].v <= b[j].v))
  }

  lemma TakeFirst(a: seq<Cell>, b: seq<Cell>, i: nat, j: nat, m: seq<Cell>)
    requires Merged(a, b, i, j, m) && Ascends(a) && Ascends(b) && i < |a| && (j < |b| ==> a[i].v <= b[j].v)
    ensures Merged(a, b, i + 1, j, m + [a[i]])
  {
    assert a[..i + 1] == a[..i] + [a[i]];
  }

  lemma TakeSecond(a: seq<Cell>, b: seq<Cell>, i: nat, j: nat, m: seq<Cell>)
    requires Merged(a, b, i, j, m) && Ascends(a) && Ascends(b) && j < |b| && (i < |a| ==> b[j].v <= a[i].v)
    ensures Merged(a, b, i, j + 1, m + [b[j]])
  {
    assert b[..j + 1] == b[..j] + [b[j]];
  }

  lemma MergedAll(a: seq<Cell>, b: seq<Cell>, m: seq<Cell>)
    requires Merged(a, b, |a|, |b|, m)
    ensures Ascends(m) && multiset(m) == multiset(a) + multiset(b)
  {
    assert a[..|a|] == a && b[..|b|] == b;
  }

  // The arrays being filled, as the sequences of what was written so far.
  class Output {
    var edges: array<nat>
    var weights: array<int>
    var k: nat

    constructor (size: nat)
      ensures k == 0 && edges.Length == weights.Length == size && fresh(edges) && fresh(weights)
    {
      edges := new nat[size](_ => 0);
      weights := new int[size](_ => 0);
      k := 0;
    }

    ghost predicate Valid()
      reads this
    {
      edges.Length == weights.Length && k <= edges.Length
    }

    ghost function Written(): seq<Cell>
      reads this, edges, weights
      requires Valid()
    {
      Cells(edges[..], weights[..], 0, k)
    }

    method Put(v: nat, w: int)
      requires Valid() && k < edges.Length
      modifies `k, edges, weights
      ensures Valid() && k == old(k) + 1 && Written() == old(Written()) + [Cell(v, w)]
    {
      edges[k] := v;
      weights[k] := w;
      k := k + 1;
    }
  }

  /** The output after the first `i` and `j` cells of the two rows. */
  ghost predicate Progress(output: Output, before: seq<Cell>, a: seq<Cell>, b: seq<Cell>, i: nat, j: nat, m: seq<Cell>)
    reads output, output.edges, output.weights
  {
    && Ascends(a) && Ascends(b) && Merged(a, b, i, j, m)
    && output.Valid() && |before| + |a| + |b| <= output.edges.Length
    && output.k == |before| + i + j && output.Written() == before + m
  }

  method PutFirst(output: Output, v: nat, w: int, ghost before: seq<Cell>, ghost a: seq<Cell>, ghost b: seq<Cell>,
      ghost i: nat, ghost j: nat, ghost m: seq<Cell>)
    returns (ghost m': seq<Cell>)
    requires Progress(output, before, a, b, i, j, m) && i < |a| && a[i] == Cell(v, w) && (j < |b| ==> v <= b[j].v)
    modifies output`k, output.edges, output.weights
    ensures Progress(output, before, a, b, i + 1, j, m')
  {
    TakeFirst(a, b, i, j, m);
    hide Merged, Ascends;
    MergedSize(a, b, i, j, m);
    m' := m + [a[i]];
    output.Put(v, w);
  }

  method PutSecond(output: Output, v: nat, w: int, ghost before: seq<Cell>, ghost a: seq<Cell>, ghost b: seq<Cell>,
      ghost i: nat, ghost j: nat, ghost m: seq<Cell>)
    returns (ghost m': seq<Cell>)
    requires Progress(output, before, a, b, i, j, m) && j < |b| && b[j] == Cell(v, w) && (i < |a| ==> v <= a[i].v)
    modifies output`k, output.edges, output.weights
    ensures Progress(output, before, a, b, i, j + 1, m')
  {
    TakeSecond(a, b, i, j, m);
    hide Merged, Ascends;
    MergedSize(a, b, i, j, m);
    m' := m + [b[j]];
    output.Put(v, w);
  }

  lemma MergedSize(a: seq<Cell>, b: seq<Cell>, i: nat, j: nat, m: seq<Cell>)
    requires Merged(a, b, i, j, m)
    ensures i <= |a| && j <= |b| && |m| == i + j
  {
  }

  lemma Starts(output: Output, a: seq<Cell>, b: seq<Cell>)
    requires Ascends(a) && Ascends(b) && output.Valid() && output.k + |a| + |b| <= output.edges.Length
    ensures Progress(output, output.Written(), a, b, 0, 0, [])
  {
    assert output.Written() + [] == output.Written();
  }

  lemma Ends(output: Output, before: seq<Cell>, a: seq<Cell>, b: seq<Cell>, m: seq<Cell>)
    requires Progress(output, before, a, b, |a|, |b|, m)
    ensures output.Valid() && output.Written() == before + m && output.k == |before| + |a| + |b|
    ensures Ascends(m) && multiset(m) == multiset(a) + multiset(b)
  {
    MergedAll(a, b, m);
  }

  /** The second loop: what is left of the out-row. */
  method CopyFirst(output: Output, edges: seq<nat>, weights: seq<int>, lo: nat, hi: nat, from: nat,
      ghost before: seq<Cell>, ghost a: seq<Cell>, ghost b: seq<Cell>, ghost m: seq<Cell>)
    returns (ghost m': seq<Cell>)
    requires lo <= from <= hi <= |edges| == |weights| && a == Cells(edges, weights, lo, hi)
    requires Progress(output, before, a, b, from - lo, |b|, m)
    modifies output`k, output.edges, output.weights
    ensures Progress(output, before, a, b, |a|, |b|, m')
  {
    hide Progress;
    m' := m;
    for out := from to hi
      invariant Progress(output, before, a, b, out - lo, |b|, m')
    {
      m' := PutFirst(output, edges[out], weights[out], before, a, b, out - lo, |b|, m');
    }
  }

  /** The third loop: what is left of the in-row. */
  method CopySecond(output: Output, edges: seq<nat>, weights: seq<int>, lo: nat, hi: nat, from: nat,
      ghost before: seq<Cell>, ghost a: seq<Cell>, ghost b: seq<Cell>, ghost m: seq<Cell>)
    returns (ghost m': seq<Cell>)
    requires lo <= from <= hi <= |edges| == |weights| && b == Cells(edges, weights, lo, hi)
    requires Progress(output, before, a, b, |a|, from - lo, m)
    modifies output`k, output.edges, output.weights
    ensures Progress(output, before, a, b, |a|, |b|, m')
  {
    hide Progress;
    m' := m;
    for inn := from to hi
      invariant Progress(output, before, a, b, |a|, inn - lo, m')
    {
      m' := PutSecond(output, edges[inn], weights[inn], before, a, b, |a|, inn - lo, m');
    }
  }

  /** The first loop, until one of the two rows is used up. */
  method MergeBoth(output: Output, outE: seq<nat>, outW: seq<int>, out0: nat, out1: nat, inE: seq<nat>, inW: seq<int>,
      in0: nat, in1: nat,
      ghost before: seq<Cell>, ghost a: seq<Cell>, ghost b: seq<Cell>)
    returns (out: nat, inn: nat, ghost m: seq<Cell>)
    requires out0 <= out1 <= |outE| == |outW| && in0 <= in1 <= |inE| == |inW|
    requires a == Cells(outE, outW, out0, out1) && b == Cells(inE, inW, in0, in1)
    requires Progress(output, before, a, b, 0, 0, [])
    modifies output`k, output.edges, output.weights
    ensures out0 <= out <= out1 && in0 <= inn <= in1 && (out == out1 || inn == in1)
    ensures Progress(output, before, a, b, out - out0, inn - in0, m)
  {
    hide Progress;
    out, inn, m := out0, in0, [];
    while out < out1 && inn < in1
      invariant out0 <= out <= out1 && in0 <= inn <= in1
      invariant Progress(output, before, a, b, out - out0, inn - in0, m)
    {
      if outE[out] < inE[inn] {
        m := PutFirst(output, outE[out], outW[out], before, a, b, out - out0, inn - in0, m);
        out := out + 1;
      } else {
        m := PutSecond(output, inE[inn], inW[inn], before, a, b, out - out0, inn - in0, m);
        inn := inn + 1;
      }
    }
  }

  /** The loops for one vertex: its out-row and its in-row are merged. */
  method MergeRow(output: Output, outE: seq<nat>, outW: seq<int>, out0: nat, out1: nat, inE: seq<nat>, inW: seq<int>,
      in0: nat, in1: nat)
    returns (ghost m: seq<Cell>)
    requires output.Valid() && out0 <= out1 <= |outE| == |outW| && in0 <= in1 <= |inE| == |inW|
    requires Ascends(Cells(outE, outW, out0, out1)) && Ascends(Cells(inE, inW, in0, in1))
    requires output.k + (out1 - out0) + (in1 - in0) <= output.edges.Length
    modifies output`k, output.edges, output.weights
    ensures output.Valid() && output.Written() == old(output.Written()) + m
    ensures Ascends(m) && multiset(m) == multiset(Cells(outE, outW, out0, out1)) + multiset(Cells(inE, inW, in0, in1))
    ensures output.k == old(output.k) + (out1 - out0) + (in1 - in0)
  {
    hide Progress, Ascends, Merged;
    ghost var a, b, before := Cells(outE, outW, out0, out1), Cells(inE, inW, in0, in1), output.Written();
    Starts(output, a, b);
    var out, inn;
    out, inn, m := MergeBoth(output, outE, outW, out0, out1, inE, inW, in0, in1, before, a, b);
    if out < out1 {
      m := CopyFirst(output, outE, outW, out0, out1, out, before, a, b, m);
    } else {
      m := CopySecond(output, inE, inW, in0, in1, inn, before, a, b, m);
    }
    Ends(output, before, a, b, m);
  }

  // ----- all vertices

  // The directed graph that is merged.
  datatype Halves = Halves(n: nat, outV: seq<nat>, outE: seq<nat>, outW: seq<int>, inV: seq<nat>, inE: seq<nat>,
      inW: seq<int>)

  ghost predicate HalvesOk(h: Halves)
  {
    && Rows(h.n, h.outV, h.outE) && |h.outW| == |h.outE| && Rows(h.n, h.inV, h.inE) && |h.inW| == |h.inE|
  }

  /** Where the merged row of `u` starts and ends. */
  function MergedLo(h: Halves, u: nat): nat
    requires HalvesOk(h) && u < h.n
  {
    Lo(h.outV, u) + Lo(h.inV, u)
  }

  function MergedHi(h: Halves, u: nat): nat
    requires HalvesOk(h) && u < h.n
  {
    Hi(h.outV, u) + Hi(h.inV, u)
  }

  ghost predicate HalvesAscend(h: Halves)
    requires HalvesOk(h)
  {
    forall u: nat :: u < h.n ==> Ascends(OutCells(h, u)) && Ascends(InCells(h, u))
  }

  function OutCells(h: Halves, u: nat): seq<Cell>
    requires HalvesOk(h) && u < h.n
  {
    Cells(h.outE, h.outW, Lo(h.outV, u), Hi(h.outV, u))
  }

  function InCells(h: Halves, u: nat): seq<Cell>
    requires HalvesOk(h) && u < h.n
  {
    Cells(h.inE, h.inW, Lo(h.inV, u), Hi(h.inV, u))
  }

  ghost predicate IsMerge(h: Halves, u: nat, row: seq<Cell>)
    requires HalvesOk(h) && u < h.n
  {
    Ascends(row) && multiset(row) == multiset(OutCells(h, u)) + multiset(InCells(h, u))
  }

  /** The rows of the vertices below `v` have been written. */
  ghost predicate RowsWritten(h: Halves, v: nat, written: seq<Cell>)
    requires HalvesOk(h) && v <= h.n
  {
    && |written| == (if v == 0 then 0 else MergedHi(h, v - 1))
    && forall u: nat :: u < v ==>
         MergedLo(h, u) <= MergedHi(h, u) <= |written|
         && IsMerge(h, u, written[MergedLo(h, u)..MergedHi(h, u)])
  }

  lemma WriteRow(h: Halves, v: nat, written: seq<Cell>, row: seq<Cell>)
    requires HalvesOk(h) && v < h.n && RowsWritten(h, v, written) && IsMerge(h, v, row)
    requires |row| == |OutCells(h, v)| + |InCells(h, v)|
    ensures RowsWritten(h, v + 1, written + row)
  {
    RowFitsIn(h, v);
    forall u: nat | u < v
      ensures MergedLo(h, u) <= MergedHi(h, u) <= |written|
      ensures IsMerge(h, u, (written + row)[MergedLo(h, u)..MergedHi(h, u)])
    {
      SliceOfFirst(written, row, MergedLo(h, u), MergedHi(h, u));
    }
    SliceOfSecond(written, row);
    hide IsMerge, MergedLo, MergedHi, HalvesOk;
  }

  lemma SliceOfFirst(a: seq<Cell>, b: seq<Cell>, lo: nat, hi: nat)
    requires lo <= hi <= |a|
    ensures (a + b)[lo..hi] == a[lo..hi]
  {
  }

  lemma SliceOfSecond(a: seq<Cell>, b: seq<Cell>)
    ensures (a + b)[|a|..|a| + |b|] == b
  {
  }

  lemma RowFitsIn(h: Halves, v: nat)
    requires HalvesOk(h) && v < h.n
    ensures v < |h.outV| && v < |h.inV| && |h.outW| == |h.outE| && |h.inW| == |h.inE|
    ensures Lo(h.outV, v) <= Hi(h.outV, v) <= |h.outE| && Lo(h.inV, v) <= Hi(h.inV, v) <= |h.inE|
    ensures MergedLo(h, v) <= MergedHi(h, v) <= |h.outE| + |h.inE|
    ensures MergedHi(h, v) - MergedLo(h, v) == (Hi(h.outV, v) - Lo(h.outV, v)) + (Hi(h.inV, v) - Lo(h.inV, v))
    ensures |OutCells(h, v)| + |InCells(h, v)| == MergedHi(h, v) - MergedLo(h, v)
    ensures (if v == 0 then 0 else MergedHi(h, v - 1)) == MergedLo(h, v)
  {
  }

  /** The degrees that are stored first, and their prefix sum. */
  method MergedRows(h: Halves, v: array<nat>)
    requires HalvesOk(h) && v.Length == h.n
    requires forall u: nat :: u < h.n ==> v[u] == MergedHi(h, u) - MergedLo(h, u)
    modifies v
    ensures forall u: nat :: u < h.n ==> v[u] == MergedHi(h, u)
  {
    hide HalvesOk, MergedLo, MergedHi;
    if h.n > 0 {
      RowFitsIn(h, 0);
    }
    var i := 1;
    while i < v.Length
      invariant 1 <= i
      invariant forall u: nat :: u < i && u < v.Length ==> v[u] == MergedHi(h, u)
      invariant forall u: nat :: i <= u < v.Length ==> v[u] == MergedHi(h, u) - MergedLo(h, u)
    {
      RowFitsIn(h, i);
      v[i] := v[i] + v[i - 1];
      i := i + 1;
    }
  }

  /** One iteration over the vertices. */
  method MergeVertex(h: Halves, output: Output, v: array<nat>, u: nat)
    requires HalvesOk(h) && HalvesAscend(h) && output.Valid() && u < h.n == v.Length && v != output.edges
    requires output.edges.Length == |h.outE| + |h.inE| && output.k == MergedLo(h, u)
    requires RowsWritten(h, u, output.Written())
    modifies v, output`k, output.edges, output.weights
    ensures output.Valid() && RowsWritten(h, u + 1, output.Written()) && output.k == MergedHi(h, u)
    ensures v[u] == MergedHi(h, u) - MergedLo(h, u) && forall x: nat :: x < h.n && x != u ==> v[x] == old(v[x])
  {
    hide *;
    RowFitsIn(h, u);
    CellsAscend(h, u);
    v[u] := (Hi(h.outV, u) - Lo(h.outV, u)) + (Hi(h.inV, u) - Lo(h.inV, u));
    ghost var written := output.Written();
    ghost var m := MergeRow(output, h.outE, h.outW, Lo(h.outV, u), Hi(h.outV, u), h.inE, h.inW, Lo(h.inV, u),
      Hi(h.inV, u));
    MergeIs(h, u, m);
    WriteRow(h, u, written, m);
  }

  /** The loop over the vertices. */
  method MergeRows(h: Halves, output: Output, v: array<nat>)
    requires HalvesOk(h) && HalvesAscend(h) && output.Valid() && output.k == 0 && v.Length == h.n
    requires output.edges.Length == |h.outE| + |h.inE| && v != output.edges
    modifies v, output`k, output.edges, output.weights
    ensures output.Valid() && RowsWritten(h, h.n, output.Written())
    ensures forall u: nat :: u < h.n ==> v[u] == MergedHi(h, u) - MergedLo(h, u)
  {
    assert RowsWritten(h, 0, output.Written());
    hide *;
    for u := 0 to h.n
      invariant output.Valid() && RowsWritten(h, u, output.Written())
      invariant output.k == (if u == 0 then 0 else MergedHi(h, u - 1))
      invariant forall x: nat :: x < u ==> v[x] == MergedHi(h, x) - MergedLo(h, x)
    {
      RowFitsIn(h, u);
      MergeVertex(h, output, v, u);
    }
  }

  lemma CellsAscend(h: Halves, u: nat)
    requires HalvesOk(h) && HalvesAscend(h) && u < h.n
    ensures |h.outW| == |h.outE| && |h.inW| == |h.inE| && u < |h.outV| && u < |h.inV|
    ensures Lo(h.outV, u) <= Hi(h.outV, u) <= |h.outE| && Lo(h.inV, u) <= Hi(h.inV, u) <= |h.inE|
    ensures Ascends(Cells(h.outE, h.outW, Lo(h.outV, u), Hi(h.outV, u)))
    ensures Ascends(Cells(h.inE, h.inW, Lo(h.inV, u), Hi(h.inV, u)))
  {
    assert Ascends(OutCells(h, u)) && Ascends(InCells(h, u));
  }

  lemma MergeIs(h: Halves, u: nat, m: seq<Cell>)
    requires HalvesOk(h) && u < h.n && Ascends(m)
    requires u < |h.outV| && u < |h.inV| && Lo(h.outV, u) <= Hi(h.outV, u) <= |h.outE| == |h.outW|
    requires Lo(h.inV, u) <= Hi(h.inV, u) <= |h.inE| == |h.inW|
    requires multiset(m) == multiset(Cells(h.outE, h.outW, Lo(h.outV, u), Hi(h.outV, u))) + multiset(Cells(h.inE, h.inW,
      Lo(h.inV, u), Hi(h.inV, u)))
    ensures IsMerge(h, u, m) && |m| == |OutCells(h, u)| + |InCells(h, u)|
  {
    hide Ascends, HalvesOk;
    var a, b := OutCells(h, u), InCells(h, u);
    assert |m| == |multiset(m)| && |a| == |multiset(a)| && |b| == |multiset(b)|;
  }

  /** The arrays of the undirected graph. */
  ghost predicate Undirected(h: Halves, rows: seq<nat>, cells: seq<nat>, weights: seq<int>)
    requires HalvesOk(h)
  {
    && |rows| == h.n && |cells| == |weights| == |h.outE| + |h.inE|
    && (forall u: nat :: u < h.n ==> rows[u] == MergedHi(h, u))
    && forall u: nat :: u < h.n ==>
      Lo(rows, u) <= Hi(rows, u) <= |cells| && IsMerge(h, u, Cells(cells, weights, Lo(rows, u), Hi(rows, u)))
  }

  lemma WrittenIsUndirected(h: Halves, rows: seq<nat>, cells: seq<nat>, weights: seq<int>, written: seq<Cell>)
    requires HalvesOk(h) && |rows| == h.n && |cells| == |weights| == |h.outE| + |h.inE|
    requires forall u: nat :: u < h.n ==> rows[u] == MergedHi(h, u)
    requires |written| <= |cells| && written == Cells(cells, weights, 0, |written|) && RowsWritten(h, h.n, written)
    ensures Undirected(h, rows, cells, weights)
  {
    hide IsMerge;
    forall u: nat | u < h.n
      ensures Lo(rows, u) <= Hi(rows, u) <= |cells| && IsMerge(h, u, Cells(cells, weights, Lo(rows, u), Hi(rows, u)))
    {
      RowFitsIn(h, u);
      assert Lo(rows, u) == MergedLo(h, u) && Hi(rows, u) == MergedHi(h, u);
      assert Cells(cells, weights, Lo(rows, u), Hi(rows, u)) == written[Lo(rows, u)..Hi(rows, u)];
    }
  }

  /** CSR::load_undirected after the directed graph was loaded. */
  method MergeAll(h: Halves) returns (v: array<nat>, e: array<nat>, w: array<int>)
    requires HalvesOk(h) && HalvesAscend(h)
    ensures fresh(v) && fresh(e) && fresh(w) && Undirected(h, v[..], e[..], w[..])
  {
    v := new nat[h.n](_ => 0);
    var output := new Output(|h.outE| + |h.inE|);
    hide *;
    OutputStarts(output);
    MergeRows(h, output, v);
    MergedRows(h, v);
    e, w := output.edges, output.weights;
    OutputEnds(output);
    WrittenIsUndirected(h, v[..], e[..], w[..], output.Written());
  }

  lemma OutputStarts(output: Output)
    requires output.k == 0 && output.edges.Length == output.weights.Length
    ensures output.Valid()
  {
  }

  lemma OutputEnds(output: Output)
    requires output.Valid()
    ensures |output.Written()| <= output.edges.Length == output.weights.Length
    ensures output.Written() == Cells(output.edges[..], output.weights[..], 0, |output.Written()|)
  {
  }
}
