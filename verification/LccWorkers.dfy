/** The workers of CSR_LCC: they fetch windows of vertices until none is left, and their additions interleave freely. */
module LccWorkers {
  import opened Csr
  import opened Ranges
  import opened Triangles
  import opened Lcc
  import opened MergeLcc

  // The vertices of the current window of a worker that it has not processed yet.
  datatype Window = Window(lo: nat, hi: nat)

  // A worker without a window has left its loop.
  type Workers = seq<Option<Window>>

  ghost predicate Holds(workers: Workers, w: nat, v: nat)
  {
    w < |workers| && workers[w].Some? && workers[w].value.lo <= v < workers[w].value.hi
  }

  /** Every vertex below `m_next` is processed or in exactly one window. */
  ghost predicate Tiled(n: nat, next: nat, workers: Workers, processed: set<nat>)
  {
    && (forall w: nat :: w < |workers| && workers[w].Some? ==>
      workers[w].value.lo <= workers[w].value.hi <= n && workers[w].value.hi <= next)
    && (forall w: nat :: w < |workers| && workers[w].None? ==> next >= n)
    && (forall v :: v in processed ==> v < n && v < next)
    && (forall v: nat :: v < n && v < next && v !in processed ==> exists w :: Holds(workers, w, v))
    && (forall w: nat, v: nat :: Holds(workers, w, v) ==> v !in processed)
    && (forall w: nat, x: nat, v: nat :: Holds(workers, w, v) && Holds(workers, x, v) ==> w == x)
  }

  /** A worker takes the next vertex of its window. */
  lemma ProcessTiles(n: nat, next: nat, workers: Workers, processed: set<nat>, w: nat)
    requires Tiled(n, next, workers, processed)
    requires w < |workers| && workers[w].Some? && workers[w].value.lo < workers[w].value.hi
    ensures var win := workers[w].value;
      && win.lo < n && win.lo !in processed
      && Tiled(n, next, workers[w := Some(Window(win.lo + 1, win.hi))], processed + {win.lo})
  {
    var win := workers[w].value;
    var after := workers[w := Some(Window(win.lo + 1, win.hi))];
    assert Holds(workers, w, win.lo);
    forall x: nat, v: nat
      ensures Holds(after, x, v) <==> Holds(workers, x, v) && v != win.lo
    {
      if Holds(workers, x, v) && v == win.lo {
        assert x == w;
      }
    }
    forall v: nat | v < n && v < next && v !in processed + {win.lo}
      ensures exists x :: Holds(after, x, v)
    {
      var x :| Holds(workers, x, v);
      assert Holds(after, x, v);
    }
  }

  /** `next_task` hands out a window that nobody else has. */
  lemma FetchTiles(n: nat, next: nat, workers: Workers, processed: set<nat>, w: nat)
    requires Tiled(n, next, workers, processed) && next < n
    requires w < |workers| && workers[w].Some? && workers[w].value.lo == workers[w].value.hi
    ensures var hi := if next + LCC_TASK_SIZE < n then next + LCC_TASK_SIZE else n;
      Tiled(n, next + LCC_TASK_SIZE, workers[w := Some(Window(next, hi))], processed)
  {
    var hi := if next + LCC_TASK_SIZE < n then next + LCC_TASK_SIZE else n;
    var after := workers[w := Some(Window(next, hi))];
    forall x: nat, v: nat
      ensures Holds(after, x, v) <==> (x == w && next <= v < hi) || Holds(workers, x, v)
    {
    }
    forall v: nat | v < n && v < next + LCC_TASK_SIZE && v !in processed
      ensures exists x :: Holds(after, x, v)
    {
      if v < next {
        var x :| Holds(workers, x, v);
        assert Holds(after, x, v);
      } else {
        assert Holds(after, w, v);
      }
    }
  }

  lemma LeaveTiles(n: nat, next: nat, workers: Workers, processed: set<nat>, w: nat)
    requires Tiled(n, next, workers, processed) && next >= n
    requires w < |workers| && workers[w].Some? && workers[w].value.lo == workers[w].value.hi
    ensures Tiled(n, next + LCC_TASK_SIZE, workers[w := None], processed)
  {
    var after := workers[w := None];
    forall x: nat, v: nat
      ensures Holds(after, x, v) <==> Holds(workers, x, v)
    {
    }
    forall v: nat | v < n && v !in processed
      ensures exists x :: Holds(after, x, v)
    {
      var x :| Holds(workers, x, v);
      assert Holds(after, x, v);
    }
  }

  // ----- the counters

  /** A counter and the additions still to come account for the triangles of the processed vertices. */
  ghost predicate Balanced(adj: Adjacency, n: nat, counters: seq<nat>, pending: seq<Add>, processed: set<nat>)
  {
    && |counters| == n
    && (forall i :: 0 <= i < |pending| ==> pending[i].v < n)
    && forall v: nat :: v < n ==> counters[v] + SumFor(pending, v) == 2 * |Through(OwnedBy(adj, processed), v)|
  }

  lemma OwnedByOneMore(adj: Adjacency, processed: set<nat>, a: nat, v: nat)
    requires a !in processed
    ensures |Through(OwnedBy(adj, processed + {a}), v)| ==
      |Through(OwnedBy(adj, processed), v)| + |Through(OwnedBy(adj, {a}), v)|
  {
    assert Through(OwnedBy(adj, processed + {a}), v) == Through(OwnedBy(adj, processed),
      v) + Through(OwnedBy(adj, {a}), v);
    assert Through(OwnedBy(adj, processed), v) !! Through(OwnedBy(adj, {a}), v);
  }

  lemma ReportBalances(adj: Adjacency, n: nat, counters: seq<nat>, pending: seq<Add>, processed: set<nat>, a: nat,
      adds: seq<Add>)
    requires Balanced(adj, n, counters, pending, processed) && a < n && a !in processed && Reports(adj, a, adds)
    ensures Balanced(adj, n, counters, pending + adds, processed + {a})
  {
    forall v: nat | v < n
      ensures counters[v] + SumFor(pending + adds, v) == 2 * |Through(OwnedBy(adj, processed + {a}), v)|
    {
      SumForAppend(pending, adds, v);
      OwnedByOneMore(adj, processed, a, v);
    }
    hide SumFor, Through, OwnedBy;
  }

  /** `pending` without the addition at `k`. */
  function Without(pending: seq<Add>, k: nat): seq<Add>
    requires k < |pending|
  {
    pending[..k] + pending[k + 1..]
  }

  lemma WithoutSum(pending: seq<Add>, k: nat, v: nat)
    requires k < |pending|
    ensures SumFor(pending, v) == SumFor(Without(pending, k), v) + if pending[k].v == v then pending[k].amount else 0
  {
    var front, one, back := pending[..k], [pending[k]], pending[k + 1..];
    assert pending == (front + one) + back;
    SumForAppend(front + one, back, v);
    SumForAppend(front, one, v);
    SumForAppend(front, back, v);
    assert one[..0] == [];
  }

  /** An atomic addition takes effect. */
  lemma ApplyBalances(adj: Adjacency, n: nat, counters: seq<nat>, pending: seq<Add>, processed: set<nat>, k: nat)
    requires Balanced(adj, n, counters, pending, processed) && k < |pending|
    ensures pending[k].v < n
    ensures Balanced(adj, n, counters[pending[k].v := counters[pending[k].v] + pending[k].amount], Without(pending, k),
      processed)
  {
    var at := pending[k].v;
    var after := counters[at := counters[at] + pending[k].amount];
    forall v: nat | v < n
      ensures after[v] + SumFor(Without(pending, k), v) == 2 * |Through(OwnedBy(adj, processed), v)|
    {
      WithoutSum(pending, k, v);
    }
    hide SumFor, Through, OwnedBy;
  }

  /** The counters once everything has been processed and added. */
  ghost predicate Counted(g: Graph, counters: seq<nat>)
    requires WellFormed(g)
  {
    |counters| == g.n && forall v: nat :: v < g.n ==> v in Neighbours(g) && counters[v] == |Pairs(Neighbours(g), v)|
  }

  lemma AllCounted(g: Graph, next: nat, workers: Workers, processed: set<nat>, counters: seq<nat>)
    requires SimpleGraph(g) && Balanced(Neighbours(g), g.n, counters, [], processed)
    requires Tiled(g.n, next, workers, processed)
    requires workers != [] && forall w :: 0 <= w < |workers| ==> workers[w].None?
    ensures Counted(g, counters)
  {
    var adj := Neighbours(g);
    assert workers[0].None?;
    forall w: nat, v: nat ensures !Holds(workers, w, v) {}
    assert forall v: nat :: v < g.n ==> v in processed;
    forall t | t in AllTriangles(adj) ensures t.a in processed {
      TriangleIs(adj, t.a, t.b, t.c);
    }
    assert OwnedBy(adj, processed) == AllTriangles(adj);
    forall v: nat | v < g.n ensures v in adj && counters[v] == |Pairs(adj, v)| {
      PairsAreTriangles(adj, v);
    }
  }

  // ----- the interleaved run

  function Running(workers: Workers): nat
  {
    if workers == [] then 0 else Running(workers[..|workers| - 1]) + if workers[|workers| - 1].Some? then 1 else 0
  }

  lemma {:induction false} RunningUpdate(workers: Workers, w: nat, to: Option<Window>)
    requires w < |workers| && workers[w].Some?
    ensures Running(workers[w := to]) == if to.Some? then Running(workers) else Running(workers) - 1
  {
    var last := |workers| - 1;
    if w == last {
      assert workers[w := to][..last] == workers[..last];
    } else {
      RunningUpdate(workers[..last], w, to);
      assert workers[w := to][..last] == workers[..last][w := to];
    }
  }

  lemma {:induction false} NobodyRuns(workers: Workers)
    requires Running(workers) == 0
    ensures forall w :: 0 <= w < |workers| ==> workers[w].None?
  {
    if workers != [] {
      NobodyRuns(workers[..|workers| - 1]);
      assert workers == workers[..|workers| - 1] + [workers[|workers| - 1]];
    }
  }

  lemma {:induction false} SomebodyRuns(workers: Workers) returns (w: nat)
    requires Running(workers) > 0
    ensures w < |workers| && workers[w].Some?
  {
    var last := |workers| - 1;
    if workers[last].Some? {
      w := last;
    } else {
      w := SomebodyRuns(workers[..last]);
    }
  }

  /** The vertices that no task was made for. */
  function Untouched(n: nat, next: nat): nat
  {
    if next < n then n - next else 0
  }

  ghost function Unprocessed(n: nat, processed: set<nat>): nat
  {
    |UpTo(n) - processed|
  }

  lemma FewerLeft(n: nat, processed: set<nat>, v: nat)
    requires v < n && v !in processed
    ensures Unprocessed(n, processed + {v}) < Unprocessed(n, processed)
  {
    assert UpTo(n) - (processed + {v}) == UpTo(n) - processed - {v};
  }

  /**
   CSR_LCC::Master::next_task, for worker `w`, which is done with its window: it gets at most LCC_TASK_SIZE vertices
   that nobody else has, without leaving any out, or is told that none are left.
   */
  method NextTask(n: nat, next: nat, ghost workers: Workers, ghost processed: set<nat>, ghost w: nat)
    returns (next': nat, task: Option<Window>)
    requires Tiled(n, next, workers, processed)
    requires w < |workers| && workers[w].Some? && workers[w].value.lo == workers[w].value.hi
    ensures Tiled(n, next', workers[w := task], processed)
    ensures next' > next && (task.Some? <==> next < n)
    ensures task.Some? ==> 0 < task.value.hi - task.value.lo <= LCC_TASK_SIZE
  {
    next' := next + LCC_TASK_SIZE;    // fetch_add
    if next >= n {
      LeaveTiles(n, next, workers, processed, w);
      task := None;
    } else {
      FetchTiles(n, next, workers, processed, w);
      task := Some(Window(next, if next + LCC_TASK_SIZE < n then next + LCC_TASK_SIZE else n));
    }
    hide Tiled;
  }

  lemma WindowOf(n: nat, next: nat, workers: Workers, processed: set<nat>, w: nat)
    requires Tiled(n, next, workers, processed) && w < |workers| && workers[w].Some?
    ensures workers[w].value.lo <= workers[w].value.hi
  {
  }

  /** One step of worker `w`: process a vertex, or ask for the next window. */
  method WorkerStep(g: Graph, next: nat, workers: Workers, pending: seq<Add>, ghost processed: set<nat>,
      ghost counters: seq<nat>, w: nat)
    returns (next': nat, workers': Workers, pending': seq<Add>, ghost processed': set<nat>)
    requires SimpleGraph(g) && w < |workers| && workers[w].Some? && Tiled(g.n, next, workers, processed)
    requires WellFormed(g) && Balanced(Neighbours(g), g.n, counters, pending, processed)
    ensures Tiled(g.n, next', workers', processed') && |workers'| == |workers|
    ensures Balanced(Neighbours(g), g.n, counters, pending', processed')
    ensures (Unprocessed(g.n, processed), Untouched(g.n, next), Running(workers)
      decreases to Unprocessed(g.n, processed'), Untouched(g.n, next'), Running(workers'))
  {
    hide Tiled, Balanced, SimpleGraph, WellFormed, Neighbours, Running, Reports;
    var win := workers[w].value;
    WindowOf(g.n, next, workers, processed, w);
    next', workers', pending', processed' := next, workers, pending, processed;
    if win.lo < win.hi {
      ProcessTiles(g.n, next, workers, processed, w);
      FewerLeft(g.n, processed, win.lo);
      var adds := ProcessVertex(g, win.lo);
      ReportBalances(Neighbours(g), g.n, counters, pending, processed, win.lo, adds);
      workers', pending', processed' := workers[w := Some(Window(win.lo + 1, win.hi))], pending + adds,
        processed + {win.lo};
    } else {
      var task;
      next', task := NextTask(g.n, next, workers, processed, w);
      RunningUpdate(workers, w, task);
      workers' := workers[w := task];
    }
  }

  /** Workers that have not asked for a task yet. */
  function Idle(numWorkers: nat): Workers
  {
    seq(numWorkers, _ => Some(Window(0, 0)))
  }

  lemma Begin(adj: Adjacency, n: nat, counters: seq<nat>, numWorkers: nat)
    requires |counters| == n && (forall v :: 0 <= v < n ==> counters[v] == 0)
    ensures |Idle(numWorkers)| == numWorkers && Tiled(n, 0, Idle(numWorkers), {}) && Balanced(adj, n, counters, [], {})
  {
    forall v: nat ensures Through(OwnedBy(adj, {}), v) == {} {}
  }

  lemma AddInRange(adj: Adjacency, n: nat, counters: seq<nat>, pending: seq<Add>, processed: set<nat>, k: nat)
    requires Balanced(adj, n, counters, pending, processed) && k < |pending|
    ensures pending[k].v < n
  {
  }

  /** Any worker that is still running. */
  method SomeWorker(workers: Workers) returns (w: nat)
    requires Running(workers) > 0
    ensures w < |workers| && workers[w].Some?
  {
    ghost var some := SomebodyRuns(workers);
    w :| w < |workers| && workers[w].Some?;
  }

  /** Any outstanding addition takes effect. */
  method Apply(ghost adj: Adjacency, counters: array<nat>, pending: seq<Add>, ghost processed: set<nat>)
    returns (pending': seq<Add>)
    requires Balanced(adj, counters.Length, counters[..], pending, processed) && pending != []
    modifies counters
    ensures Balanced(adj, counters.Length, counters[..], pending', processed) && |pending'| < |pending|
  {
    hide *;
    var k: nat :| k < |pending|;
    AddInRange(adj, counters.Length, counters[..], pending, processed, k);
    ApplyBalances(adj, counters.Length, counters[..], pending, processed, k);
    var at := pending[k].v;
    ghost var before := counters[..];
    counters[at] := counters[at] + pending[k].amount;
    assert counters[..] == before[at := before[at] + pending[k].amount];
    WithoutSize(pending, k);
    pending' := Without(pending, k);
  }

  /** One event of the run: a step of any running worker, or an outstanding addition taking effect. */
  method Event(g: Graph, next: nat, workers: Workers, counters: array<nat>, pending: seq<Add>,
      ghost processed: set<nat>)
    returns (next': nat, workers': Workers, pending': seq<Add>, ghost processed': set<nat>)
    requires SimpleGraph(g) && WellFormed(g) && counters.Length == g.n && (Running(workers) > 0 || |pending| > 0)
    requires Tiled(g.n, next, workers, processed) && Balanced(Neighbours(g), g.n, counters[..], pending, processed)
    modifies counters
    ensures Tiled(g.n, next', workers', processed') && |workers'| == |workers|
    ensures Balanced(Neighbours(g), g.n, counters[..], pending', processed')
    ensures (Unprocessed(g.n, processed), Untouched(g.n, next), Running(workers), |pending|
      decreases to Unprocessed(g.n, processed'), Untouched(g.n, next'), Running(workers'), |pending'|)
  {
    hide *;
    next', workers', pending', processed' := next, workers, pending, processed;
    if
    case Running(workers) > 0 =>
      var w := SomeWorker(workers);
      next', workers', pending', processed' := WorkerStep(g, next, workers, pending, processed, counters[..], w);
    case |pending| > 0 =>
      pending' := Apply(Neighbours(g), counters, pending, processed);
  }

  /** The workers run, their steps and additions interleaved in any way, until all of them have left their loop. */
  method RunWorkers(g: Graph, counters: array<nat>, numWorkers: nat)
    requires SimpleGraph(g) && WellFormed(g) && numWorkers >= 1
    requires counters.Length == g.n && forall v :: 0 <= v < g.n ==> counters[v] == 0
    modifies counters
    ensures Counted(g, counters[..])
  {
    hide *;
    var next, workers, pending: seq<Add> := 0, Idle(numWorkers), [];
    ghost var processed: set<nat> := {};
    Begin(Neighbours(g), g.n, counters[..], numWorkers);
    while Running(workers) > 0 || |pending| > 0
      invariant |workers| == numWorkers && Tiled(g.n, next, workers, processed)
      invariant Balanced(Neighbours(g), g.n, counters[..], pending, processed)
      decreases Unprocessed(g.n, processed), Untouched(g.n, next), Running(workers), |pending|
    {
      next, workers, pending, processed := Event(g, next, workers, counters, pending, processed);
    }
    NobodyRuns(workers);
    AllCounted(g, next, workers, processed, counters[..]);
  }

  /**
   CSR_LCC::Master::execute up to `compute_scores`: any number of workers, whose steps and additions
   interleave in any way, count the ordered pairs that the plain kernel counts.
   */
  method CountAll(g: Graph, numWorkers: nat) returns (counters: array<nat>)
    requires SimpleGraph(g) && numWorkers >= 1
    ensures WellFormed(g) && fresh(counters) && Counted(g, counters[..])
  {
    SimpleIs(g);
    hide *;
    counters := new nat[g.n](_ => 0);
    RunWorkers(g, counters, numWorkers);
  }

  lemma WithoutSize(pending: seq<Add>, k: nat)
    requires k < |pending|
    ensures |Without(pending, k)| < |pending|
  {
  }

  lemma CountedAt(g: Graph, counters: seq<nat>, v: nat)
    requires SimpleGraph(g) && WellFormed(g) && Counted(g, counters) && v < g.n
    ensures v < |counters| && v in Neighbours(g) && OutDegree(g, v) == |Neighbours(g)[v]|
    ensures counters[v] == |Pairs(Neighbours(g), v)|
    ensures counters[v] > 0 ==> OutDegree(g, v) >= 2
    ensures Coefficient(Neighbours(g), v) == if counters[v] > 0 then Score(counters[v], OutDegree(g, v)) else 0.0
  {
    RowOf(g, v);
    SimpleIs(g);
    hide WellFormed, SimpleGraph, Pairs, Score, OutDegree, Members, Out, Increasing;
    PairsBound(Neighbours(g), v);
    CoefficientIs(Neighbours(g), v);
    if OutDegree(g, v) >= 2 {
      ZeroScore(OutDegree(g, v));
    }
  }

  /** A counter never exceeds the number of ordered pairs of neighbours, so scores lie between 0 and 1. */
  lemma CounterBound(g: Graph, counters: seq<nat>, v: nat)
    requires SimpleGraph(g) && WellFormed(g) && Counted(g, counters) && v < g.n
    ensures v < |counters| && counters[v] <= OutDegree(g, v) * (OutDegree(g, v) - 1)
    ensures v in Neighbours(g) && 0.0 <= Coefficient(Neighbours(g), v) <= 1.0
  {
    CountedAt(g, counters, v);
    SimpleIs(g);
    PairsBound(Neighbours(g), v);
    CoefficientInUnit(Neighbours(g), v);
  }

  lemma ZeroScore(degree: nat)
    requires degree >= 2
    ensures Score(0, degree) == 0.0
  {
    assert degree * (degree - 1) > 0;
  }

  /** CSR_LCC::Master::compute_scores */
  method ComputeScores(g: Graph, counters: array<nat>, scores: array<real>)
    requires SimpleGraph(g) && WellFormed(g) && Counted(g, counters[..]) && counters.Length == g.n
    requires scores.Length == g.n
    requires forall v: nat :: v < g.n ==> scores[v] == 0.0
    modifies scores
    ensures forall v: nat :: v < g.n ==> v in Neighbours(g) && scores[v] == Coefficient(Neighbours(g), v)
  {
    hide *;
    ghost var totals := counters[..];
    for i := 0 to g.n
      invariant forall v: nat :: i <= v < g.n ==> scores[v] == 0.0
      invariant forall v: nat :: v < i ==> v in Neighbours(g) && scores[v] == Coefficient(Neighbours(g), v)
    {
      CountedAt(g, totals, i);
      var numTriangles := counters[i];
      if numTriangles > 0 {
        scores[i] := Score(numTriangles, OutDegree(g, i));
      }
    }
  }

  /** CSR_LCC::Master::execute */
  method Execute(g: Graph, numWorkers: nat) returns (scores: array<real>)
    requires SimpleGraph(g) && numWorkers >= 1
    ensures WellFormed(g) && fresh(scores) && scores.Length == g.n
    ensures forall v: nat :: v < g.n ==> v in Neighbours(g) && scores[v] == Coefficient(Neighbours(g), v)
  {
    SimpleIs(g);
    hide *;
    scores := new real[g.n](_ => 0.0);
    var counters := CountAll(g, numWorkers);
    CountedSize(g, counters[..]);
    ComputeScores(g, counters, scores);
  }

  lemma CountedSize(g: Graph, counters: seq<nat>)
    requires WellFormed(g) && Counted(g, counters)
    ensures |counters| == g.n
  {
  }
}
