/**
 Delta-stepping single source shortest paths (CSR::do_sssp), over natural weights.

 The relaxations of one bucket run in parallel: the reads of `dist[v]` and `dist[u]`, the
 compare-and-swap and the re-read after a failed one are separate steps that interleave at will.
 A thread's local bins are read by no other thread, so they are kept together as one multiset.
 */
module Sssp {
  import opened Walks
  import opened Csr
  import opened Ranges

  // `v` was pushed into bin `bin`.
  datatype Entry = Entry(bin: nat, v: nat)

  // The relaxation of edge `e` for the vertex at position `i` of the frontier.
  datatype Task = Task(i: nat, e: nat)

  datatype Attempt = Attempt(expected: Distance, desired: nat)

  // The relaxations of the current bucket that are not finished.
  datatype Progress = Progress(
    unopened: set<nat>,              // positions of the frontier not looked at yet
    todo: set<Task>,                 // nothing was read yet
    oldRead: map<Task, Distance>,    // dist[v] was read
    trying: map<Task, Attempt>,      // about to compare and swap
    rereading: map<Task, nat>)       // the swap failed

  // ----- distances

  predicate Less(a: Distance, b: Distance)
  {
    a.Finite? && (b.Infinite? || a.value < b.value)
  }

  predicate AtLeast(d: Distance, k: nat)
  {
    d.Infinite? || d.value >= k
  }

  predicate InRow(g: Graph, u: nat, e: nat)
    requires WellFormed(g)
  {
    u < g.n && Lo(g.outV, u) <= e < Hi(g.outV, u) && e < |g.outE|
  }

  ghost predicate Weighted(g: Graph)
  {
    WellFormed(g) && NonNegativeWeights(g)
  }

  function Weight(g: Graph, e: nat): nat
    requires Weighted(g) && e < |g.outE|
  {
    g.outW[e]
  }

  ghost predicate RelaxedEdge(g: Graph, dist: seq<Distance>, u: nat, e: nat)
    requires Weighted(g) && |dist| == g.n && InRow(g, u, e)
  {
    dist[u].Finite? ==> AtMost(dist[g.outE[e]], dist[u].value + Weight(g, e))
  }

  /** Every label is the cost of a walk. */
  ghost predicate Labels(g: Graph, s: nat, dist: seq<Distance>)
    requires Weighted(g)
  {
    && |dist| == g.n && s < g.n && dist[s] == Finite(0)
    && forall v: nat :: v < g.n && dist[v].Finite? ==> ReachedAt(WeightedArcs(g), s, v, dist[v].value)
  }

  lemma WeightedArcsAre(g: Graph, a: Arc)
    requires Weighted(g)
    ensures a in WeightedArcs(g) <==>
      exists e: nat :: InRow(g, a.src, e) && a.dst == g.outE[e] && a.weight == Weight(g, e)
  {
    if e: nat :| InRow(g, a.src, e) && a.dst == g.outE[e] && a.weight == Weight(g, e) {
      assert a == Arc(a.src, g.outE[e], g.outW[e]);
    }
    if a in WeightedArcs(g) {
      var u, e :| 0 <= u < g.n && Lo(g.outV, u) <= e < Hi(g.outV, u) && a == Arc(u, g.outE[e], g.outW[e]);
      assert InRow(g, a.src, e);
    }
  }

  ghost predicate Exact(g: Graph, s: nat, dist: seq<Distance>)
    requires Weighted(g)
  {
    |dist| == g.n && forall v: nat :: v < g.n ==> IsShortest(WeightedArcs(g), s, v, dist[v])
  }

  /** Labels that no edge improves are the shortest distances. */
  lemma NothingLeftIsExact(g: Graph, s: nat, dist: seq<Distance>)
    requires Weighted(g) && Labels(g, s, dist)
    requires forall u: nat, e: nat :: InRow(g, u, e) ==> RelaxedEdge(g, dist, u, e)
    ensures Exact(g, s, dist)
  {
    var arcs := WeightedArcs(g);
    var labels := (v: nat) => if v < |dist| then dist[v] else Infinite;
    forall a | a in arcs && labels(a.src).Finite?
      ensures AtMost(labels(a.dst), labels(a.src).value + a.weight)
    {
      WeightedArcsAre(g, a);
      var e: nat :| InRow(g, a.src, e) && a.dst == g.outE[e] && a.weight == Weight(g, e);
      assert RelaxedEdge(g, dist, a.src, e);
    }
    forall v: nat | v < g.n
      ensures IsShortest(arcs, s, v, dist[v])
    {
      RelaxedIsShortest(arcs, s, v, labels);
    }
  }

  // ----- what the parallel relaxation keeps

  ghost predicate Queued(delta: nat, dist: seq<Distance>, bins: multiset<Entry>, u: nat)
    requires delta > 0 && u < |dist|
  {
    dist[u].Finite? && Entry(dist[u].value / delta, u) in bins
  }

  /** The relaxation of `e` from position `i` is still to come, with an up-to-date distance of its source. */
  ghost predicate CoveredBy(g: Graph, dist: seq<Distance>, p: Progress, u: nat, e: nat, i: nat)
    requires Weighted(g) && |dist| == g.n && InRow(g, u, e)
  {
    var t := Task(i, e);
    || i in p.unopened || t in p.todo || t in p.oldRead
    || (t in p.trying && dist[u] != Infinite && p.trying[t].desired == dist[u].value + Weight(g, e))
    || (t in p.rereading && dist[u] != Infinite && p.rereading[t] == dist[u].value + Weight(g, e))
  }

  ghost predicate Covered(g: Graph, frontier: seq<nat>, dist: seq<Distance>, p: Progress, u: nat, e: nat)
    requires Weighted(g) && |dist| == g.n && InRow(g, u, e)
  {
    exists i: nat :: i < |frontier| && frontier[i] == u && CoveredBy(g, dist, p, u, e, i)
  }

  /** An edge that is not relaxed has its source in the bin of its distance, or its relaxation is still to come. */
  ghost predicate EdgeOk(g: Graph, delta: nat, frontier: seq<nat>, dist: seq<Distance>, bins: multiset<Entry>,
      p: Progress, u: nat, e: nat)
    requires Weighted(g) && |dist| == g.n && InRow(g, u, e) && delta > 0
  {
    RelaxedEdge(g, dist, u, e) || Queued(delta, dist, bins, u) || Covered(g, frontier, dist, p, u, e)
  }

  /** The source of a task has a finite distance in the current bucket or above. */
  ghost predicate TaskOk(g: Graph, lo: nat, frontier: seq<nat>, dist: seq<Distance>, t: Task)
    requires Weighted(g) && |dist| == g.n
  {
    && t.i < |frontier| && InRow(g, frontier[t.i], t.e)
    && dist[frontier[t.i]].Finite? && dist[frontier[t.i]].value >= lo
  }

  /** A value that a task is going to store is the cost of a walk and not below the current bucket. */
  ghost predicate ValueOk(g: Graph, s: nat, lo: nat, t: Task, x: nat)
    requires Weighted(g) && t.e < |g.outE|
  {
    x >= lo && ReachedAt(WeightedArcs(g), s, g.outE[t.e], x)
  }

  ghost predicate TasksOk(g: Graph, s: nat, lo: nat, frontier: seq<nat>, dist: seq<Distance>, p: Progress)
    requires Weighted(g) && |dist| == g.n
  {
    && (forall i :: i in p.unopened ==> i < |frontier|)
    && (forall t :: t in p.todo ==> TaskOk(g, lo, frontier, dist, t))
    && (forall t :: t in p.oldRead ==> TaskOk(g, lo, frontier, dist, t) && !Less(p.oldRead[t], dist[g.outE[t.e]]))
    && (forall t :: t in p.trying ==> TaskOk(g, lo, frontier, dist, t) && ValueOk(g, s, lo, t, p.trying[t].desired))
    && (forall t :: t in p.trying ==> Less(Finite(p.trying[t].desired), p.trying[t].expected))
    && (forall t :: t in p.rereading ==> TaskOk(g, lo, frontier, dist, t) && ValueOk(g, s, lo, t, p.rereading[t]))
  }

  /** Distances only shrink, and those below the current bucket are final. */
  ghost predicate Lowered(start: seq<Distance>, dist: seq<Distance>, lo: nat)
  {
    && |dist| == |start|
    && forall v: nat :: v < |dist| ==>
         && !Less(start[v], dist[v])
         && (if AtLeast(start[v], lo) then AtLeast(dist[v], lo) else dist[v] == start[v])
  }

  ghost predicate LowRelaxed(g: Graph, dist: seq<Distance>, lo: nat)
    requires Weighted(g) && |dist| == g.n
  {
    forall u: nat, e: nat :: InRow(g, u, e) && !AtLeast(dist[u], lo) ==> RelaxedEdge(g, dist, u, e)
  }

  ghost predicate BinsOk(delta: nat, bin: nat, dist: seq<Distance>, bins: multiset<Entry>)
  {
    forall x :: x in bins ==> x.v < |dist| && dist[x.v].Finite? && x.bin >= bin
  }

  ghost predicate FrontierOk(dist: seq<Distance>, frontier: seq<nat>)
  {
    forall i :: 0 <= i < |frontier| ==> frontier[i] < |dist| && dist[frontier[i]].Finite?
  }

  // What stays fixed while one bucket is relaxed.
  datatype Context = Context(
    g: Graph,
    s: nat,                     // the source vertex
    delta: nat,
    bin: nat,                   // curr_bin_index
    start: seq<Distance>,       // the distances and the bins before
    bins0: multiset<Entry>,
    frontier: seq<nat>)

  ghost predicate Good(c: Context)
  {
    Weighted(c.g) && c.delta > 0 && |c.start| == c.g.n
  }

  function Floor(c: Context): nat
  {
    c.delta * c.bin
  }

  ghost predicate EdgesOk(c: Context, dist: seq<Distance>, bins: multiset<Entry>, p: Progress)
    requires Good(c) && |dist| == c.g.n
  {
    forall u: nat, e: nat :: InRow(c.g, u, e) ==> EdgeOk(c.g, c.delta, c.frontier, dist, bins, p, u, e)
  }

  /** A task is in one stage, and its position of the frontier has been opened. */
  ghost predicate Stages(p: Progress)
  {
    && p.todo !! p.oldRead.Keys && p.todo !! p.trying.Keys && p.todo !! p.rereading.Keys
    && p.oldRead.Keys !! p.trying.Keys && p.oldRead.Keys !! p.rereading.Keys && p.trying.Keys !! p.rereading.Keys
    && forall t :: t in p.todo || t in p.oldRead || t in p.trying || t in p.rereading ==> t.i !in p.unopened
  }

  ghost predicate RelaxInvariant(c: Context, dist: seq<Distance>, bins: multiset<Entry>, p: Progress)
    requires Good(c)
  {
    && Labels(c.g, c.s, dist) && Lowered(c.start, dist, Floor(c)) && LowRelaxed(c.g, dist, Floor(c))
    && FrontierOk(dist, c.frontier) && BinsOk(c.delta, c.bin, dist, bins)
    && TasksOk(c.g, c.s, Floor(c), c.frontier, dist, p)
    && Stages(p) && EdgesOk(c, dist, bins, p)
    && (dist == c.start ==> bins == c.bins0)
  }

  // ----- steps that do not store a distance

  /** `p'` differs from `p` only in where task `t` is. */
  ghost predicate SameOtherTasks(p: Progress, p': Progress, t: Task)
  {
    && p'.unopened == p.unopened
    && p'.todo - {t} == p.todo - {t}
    && p'.oldRead - {t} == p.oldRead - {t}
    && p'.trying - {t} == p.trying - {t}
    && p'.rereading - {t} == p.rereading - {t}
  }

  lemma OtherTask(p: Progress, p': Progress, t: Task, r: Task)
    requires SameOtherTasks(p, p', t) && r != t
    ensures r in p.todo <==> r in p'.todo
    ensures r in p.oldRead <==> r in p'.oldRead
    ensures r in p.trying <==> r in p'.trying
    ensures r in p.rereading <==> r in p'.rereading
    ensures r in p.trying ==> p'.trying[r] == p.trying[r]
    ensures r in p.rereading ==> p'.rereading[r] == p.rereading[r]
  {
    assert r in p.todo <==> r in p.todo - {t};
    assert r in p'.todo <==> r in p'.todo - {t};
    assert r in p.oldRead <==> r in p.oldRead - {t};
    assert r in p'.oldRead <==> r in p'.oldRead - {t};
    assert r in p.trying ==> r in p.trying - {t} && (p.trying - {t})[r] == p.trying[r];
    assert r in p'.trying ==> r in p'.trying - {t} && (p'.trying - {t})[r] == p'.trying[r];
    assert r in p.rereading ==> r in p.rereading - {t} && (p.rereading - {t})[r] == p.rereading[r];
    assert r in p'.rereading ==> r in p'.rereading - {t} && (p'.rereading - {t})[r] == p'.rereading[r];
  }

  ghost predicate TaskSettled(c: Context, dist: seq<Distance>, bins: multiset<Entry>, p: Progress, t: Task)
    requires Good(c) && |dist| == c.g.n && TaskOk(c.g, Floor(c), c.frontier, dist, t)
  {
    var u := c.frontier[t.i];
    RelaxedEdge(c.g, dist, u, t.e) || Queued(c.delta, dist, bins, u) || CoveredBy(c.g, dist, p, u, t.e, t.i)
  }

  /** The task covered the edge it was made for. */
  ghost predicate TaskCovers(c: Context, dist: seq<Distance>, p: Progress, t: Task)
    requires Good(c) && |dist| == c.g.n && TaskOk(c.g, Floor(c), c.frontier, dist, t)
  {
    CoveredBy(c.g, dist, p, c.frontier[t.i], t.e, t.i)
  }

  lemma CoveredElsewhere(g: Graph, dist: seq<Distance>, p: Progress, p': Progress, t: Task, u: nat, e: nat, i: nat)
    requires Weighted(g) && |dist| == g.n && InRow(g, u, e) && CoveredBy(g, dist, p, u, e, i)
    requires SameOtherTasks(p, p', t) && Task(i, e) != t
    ensures CoveredBy(g, dist, p', u, e, i)
  {
    OtherTask(p, p', t, Task(i, e));
  }

  /**
   What covered an edge before still does, unless it was `t` itself; so only the edge of `t` has to stay accounted for.
   */
  lemma TaskMoves(c: Context, dist: seq<Distance>, bins: multiset<Entry>, p: Progress, p': Progress, t: Task)
    requires Good(c) && RelaxInvariant(c, dist, bins, p) && |dist| == c.g.n && SameOtherTasks(p, p', t)
    requires TaskOk(c.g, Floor(c), c.frontier, dist, t) && TasksOk(c.g, c.s, Floor(c), c.frontier, dist, p')
    requires Stages(p')
    requires TaskCovers(c, dist, p, t) ==> TaskSettled(c, dist, bins, p', t)
    ensures RelaxInvariant(c, dist, bins, p')
  {
    assert WellFormed(c.g) && Weighted(c.g) && c.delta > 0;
    hide TasksOk, Stages, Labels, Lowered, LowRelaxed, FrontierOk, BinsOk, InRow, Good, TaskOk, SameOtherTasks,
      Weighted, WellFormed, CoveredBy, RelaxedEdge, Queued;
    forall u: nat, e: nat | InRow(c.g, u, e)
      ensures EdgeOk(c.g, c.delta, c.frontier, dist, bins, p', u, e)
    {
      if !RelaxedEdge(c.g, dist, u, e) && !Queued(c.delta, dist, bins, u) {
        var i: nat :| i < |c.frontier| && c.frontier[i] == u && CoveredBy(c.g, dist, p, u, e, i);
        if Task(i, e) != t {
          CoveredElsewhere(c.g, dist, p, p', t, u, e, i);
        }
      }
    }
  }

  /** The conjuncts of the invariant. */
  lemma Parts(c: Context, dist: seq<Distance>, bins: multiset<Entry>, p: Progress)
    requires Good(c) && RelaxInvariant(c, dist, bins, p)
    ensures |dist| == c.g.n && Weighted(c.g) && WellFormed(c.g) && c.delta > 0 && |c.start| == c.g.n
    ensures Labels(c.g, c.s, dist) && Lowered(c.start, dist, Floor(c)) && LowRelaxed(c.g, dist, Floor(c))
    ensures FrontierOk(dist, c.frontier) && BinsOk(c.delta, c.bin, dist, bins)
    ensures TasksOk(c.g, c.s, Floor(c), c.frontier, dist, p) && Stages(p) && EdgesOk(c, dist, bins, p)
    ensures dist == c.start ==> bins == c.bins0
  {
  }

  function RowTasks(i: nat, lo: nat, hi: nat): (tasks: set<Task>)
    requires lo <= hi
    ensures forall t: Task :: t in tasks <==> t.i == i && lo <= t.e < hi
    decreases hi - lo
  {
    if lo == hi then {} else RowTasks(i, lo, hi - 1) + {Task(i, hi - 1)}
  }

  /** Look at position `i`: a vertex of an earlier bucket is skipped, else its edges are to be relaxed. */
  function Open(c: Context, dist: seq<Distance>, p: Progress, i: nat): Progress
    requires Good(c) && |dist| == c.g.n && i < |c.frontier| && c.frontier[i] < c.g.n
  {
    var u := c.frontier[i];
    p.(unopened := p.unopened - {i},
       todo := if AtLeast(dist[u], Floor(c)) then p.todo + RowTasks(i, Lo(c.g.outV, u), Hi(c.g.outV, u)) else p.todo)
  }

  lemma OpenEdge(c: Context, dist: seq<Distance>, bins: multiset<Entry>, p: Progress, i: nat, u: nat, e: nat)
    requires Good(c) && |dist| == c.g.n && i < |c.frontier| && c.frontier[i] < c.g.n
    requires InRow(c.g, u, e) && EdgeOk(c.g, c.delta, c.frontier, dist, bins, p, u, e)
    requires !AtLeast(dist[u], Floor(c)) ==> RelaxedEdge(c.g, dist, u, e)
    ensures EdgeOk(c.g, c.delta, c.frontier, dist, bins, Open(c, dist, p, i), u, e)
  {
    if !RelaxedEdge(c.g, dist, u, e) && !Queued(c.delta, dist, bins, u) {
      var j: nat :| j < |c.frontier| && c.frontier[j] == u && CoveredBy(c.g, dist, p, u, e, j);
      assert CoveredBy(c.g, dist, Open(c, dist, p, i), u, e, j);
    }
  }

  lemma OpenTasks(c: Context, dist: seq<Distance>, p: Progress, i: nat)
    requires Good(c) && |dist| == c.g.n && FrontierOk(dist, c.frontier) && i < |c.frontier|
    requires TasksOk(c.g, c.s, Floor(c), c.frontier, dist, p)
    ensures TasksOk(c.g, c.s, Floor(c), c.frontier, dist, Open(c, dist, p, i))
  {
    var p', u := Open(c, dist, p, i), c.frontier[i];
    forall t | t in p'.todo
      ensures TaskOk(c.g, Floor(c), c.frontier, dist, t)
    {
      if t !in p.todo {
        assert t.i == i && Lo(c.g.outV, u) <= t.e < Hi(c.g.outV, u);
        assert Hi(c.g.outV, u) <= c.g.outV[c.g.n - 1];
      }
    }
    hide TaskOk, ValueOk, FrontierOk;
  }

  lemma OpenKeeps(c: Context, dist: seq<Distance>, bins: multiset<Entry>, p: Progress, i: nat)
    requires Good(c) && RelaxInvariant(c, dist, bins, p) && |dist| == c.g.n && i in p.unopened
    ensures i < |c.frontier| && c.frontier[i] < c.g.n
    ensures RelaxInvariant(c, dist, bins, Open(c, dist, p, i))
  {
    assert i < |c.frontier|;
    OpenTasks(c, dist, p, i);
    assert WellFormed(c.g) && Weighted(c.g) && c.delta > 0 && c.frontier[i] < c.g.n;
    OpenStages(c, dist, p, i);
    hide TasksOk, Stages, EdgeOk, Labels, Lowered, FrontierOk, BinsOk, InRow, Good, Weighted, WellFormed, Open,
      RelaxedEdge;
    forall u: nat, e: nat | InRow(c.g, u, e)
      ensures u < |dist| && EdgeOk(c.g, c.delta, c.frontier, dist, bins, Open(c, dist, p, i), u, e)
    {
      InRowIndex(c.g, u, e);
      OpenEdge(c, dist, bins, p, i, u, e);
    }
  }

  lemma OpenStages(c: Context, dist: seq<Distance>, p: Progress, i: nat)
    requires Good(c) && |dist| == c.g.n && i < |c.frontier| && c.frontier[i] < c.g.n && Stages(p) && i in p.unopened
    ensures Stages(Open(c, dist, p, i))
  {
  }

  lemma InRowIndex(g: Graph, u: nat, e: nat)
    requires WellFormed(g) && InRow(g, u, e)
    ensures u < g.n && e < |g.outE| && g.outE[e] < g.n
  {
  }

  lemma TaskIndex(c: Context, dist: seq<Distance>, p: Progress, t: Task)
    requires Good(c) && |dist| == c.g.n && TasksOk(c.g, c.s, Floor(c), c.frontier, dist, p)
    requires t in p.todo || t in p.oldRead || t in p.trying || t in p.rereading
    ensures TaskOk(c.g, Floor(c), c.frontier, dist, t)
    ensures t.i < |c.frontier| && c.frontier[t.i] < c.g.n && t.e < |c.g.outE| && c.g.outE[t.e] < c.g.n
    ensures dist[c.frontier[t.i]].Finite? && dist[c.frontier[t.i]].value >= Floor(c)
  {
  }

  /** `old_dist = dist[v]` */
  function AfterReadOld(p: Progress, t: Task, seen: Distance): Progress
  {
    p.(todo := p.todo - {t}, oldRead := p.oldRead[t := seen])
  }

  lemma ReadOldTasks(c: Context, dist: seq<Distance>, p: Progress, t: Task)
    requires Good(c) && |dist| == c.g.n && TasksOk(c.g, c.s, Floor(c), c.frontier, dist, p) && Stages(p) && t in p.todo
    requires t.e < |c.g.outE| && c.g.outE[t.e] < c.g.n
    ensures TasksOk(c.g, c.s, Floor(c), c.frontier, dist, AfterReadOld(p, t, dist[c.g.outE[t.e]]))
    ensures SameOtherTasks(p, AfterReadOld(p, t, dist[c.g.outE[t.e]]), t)
    ensures Stages(AfterReadOld(p, t, dist[c.g.outE[t.e]]))
  {
    hide TaskOk, ValueOk, WellFormed;
  }

  lemma ReadOldKeeps(c: Context, dist: seq<Distance>, bins: multiset<Entry>, p: Progress, t: Task)
    requires Good(c) && RelaxInvariant(c, dist, bins, p) && |dist| == c.g.n && t in p.todo && t.e < |c.g.outE|
    requires c.g.outE[t.e] < c.g.n
    ensures RelaxInvariant(c, dist, bins, AfterReadOld(p, t, dist[c.g.outE[t.e]]))
  {
    hide *;
    Parts(c, dist, bins, p);
    TaskIndex(c, dist, p, t);
    var p' := AfterReadOld(p, t, dist[c.g.outE[t.e]]);
    ReadOldTasks(c, dist, p, t);
    ReadOldSettles(c, dist, bins, p, t, dist[c.g.outE[t.e]]);
    TaskMoves(c, dist, bins, p, p', t);
  }

  lemma ReadOldSettles(c: Context, dist: seq<Distance>, bins: multiset<Entry>, p: Progress, t: Task, x: Distance)
    requires Good(c) && |dist| == c.g.n && TaskOk(c.g, Floor(c), c.frontier, dist, t)
    ensures TaskSettled(c, dist, bins, AfterReadOld(p, t, x), t)
  {
  }

  /** `new_dist = dist[u] + w`, and the comparison with the value read before */
  function AfterReadNew(p: Progress, t: Task, desired: nat): Progress
    requires t in p.oldRead
  {
    if Less(Finite(desired), p.oldRead[t])
    then p.(oldRead := p.oldRead - {t}, trying := p.trying[t := Attempt(p.oldRead[t], desired)])
    else p.(oldRead := p.oldRead - {t})
  }

  lemma NewValueOk(c: Context, dist: seq<Distance>, t: Task)
    requires Good(c) && Labels(c.g, c.s, dist) && TaskOk(c.g, Floor(c), c.frontier, dist, t)
    ensures ValueOk(c.g, c.s, Floor(c), t, dist[c.frontier[t.i]].value + Weight(c.g, t.e))
  {
    var u := c.frontier[t.i];
    WeightedArcsAre(c.g, Arc(u, c.g.outE[t.e], Weight(c.g, t.e)));
    Extend(WeightedArcs(c.g), c.s, u, dist[u].value, c.g.outE[t.e], Weight(c.g, t.e));
  }

  lemma ReadNewTasks(c: Context, dist: seq<Distance>, p: Progress, t: Task, desired: nat)
    requires Good(c) && |dist| == c.g.n && TasksOk(c.g, c.s, Floor(c), c.frontier, dist, p) && Stages(p)
    requires t in p.oldRead
    requires t.e < |c.g.outE| && ValueOk(c.g, c.s, Floor(c), t, desired)
    ensures TasksOk(c.g, c.s, Floor(c), c.frontier, dist, AfterReadNew(p, t, desired))
    ensures SameOtherTasks(p, AfterReadNew(p, t, desired), t) && Stages(AfterReadNew(p, t, desired))
  {
    hide TaskOk, ValueOk, WellFormed;
  }

  lemma ReadNewSettles(c: Context, dist: seq<Distance>, bins: multiset<Entry>, p: Progress, t: Task)
    requires Good(c) && |dist| == c.g.n && TaskOk(c.g, Floor(c), c.frontier, dist, t) && t in p.oldRead
    requires t.e < |c.g.outE| && c.g.outE[t.e] < c.g.n && !Less(p.oldRead[t], dist[c.g.outE[t.e]])
    ensures TaskSettled(c, dist, bins, AfterReadNew(p, t, dist[c.frontier[t.i]].value + Weight(c.g, t.e)), t)
  {
  }

  lemma ReadNewKeeps(c: Context, dist: seq<Distance>, bins: multiset<Entry>, p: Progress, t: Task)
    requires Good(c) && RelaxInvariant(c, dist, bins, p) && |dist| == c.g.n && t in p.oldRead
    requires Weighted(c.g) && t.i < |c.frontier| && c.frontier[t.i] < c.g.n && t.e < |c.g.outE|
    requires dist[c.frontier[t.i]].Finite?
    ensures RelaxInvariant(c, dist, bins, AfterReadNew(p, t, dist[c.frontier[t.i]].value + Weight(c.g, t.e)))
  {
    hide *;
    Parts(c, dist, bins, p);
    TaskIndex(c, dist, p, t);
    NewValueOk(c, dist, t);
    ReadNewTasks(c, dist, p, t, dist[c.frontier[t.i]].value + Weight(c.g, t.e));
    ReadNewSettles(c, dist, bins, p, t);
    TaskMoves(c, dist, bins, p, AfterReadNew(p, t, dist[c.frontier[t.i]].value + Weight(c.g, t.e)), t);
  }

  /** The compare-and-swap fails. */
  function AfterFailedSwap(p: Progress, t: Task): Progress
    requires t in p.trying
  {
    p.(trying := p.trying - {t}, rereading := p.rereading[t := p.trying[t].desired])
  }

  lemma FailedSwapTasks(c: Context, dist: seq<Distance>, bins: multiset<Entry>, p: Progress, t: Task)
    requires Good(c) && |dist| == c.g.n && TasksOk(c.g, c.s, Floor(c), c.frontier, dist, p) && Stages(p)
    requires t in p.trying
    ensures TasksOk(c.g, c.s, Floor(c), c.frontier, dist, AfterFailedSwap(p, t))
    ensures SameOtherTasks(p, AfterFailedSwap(p, t), t) && Stages(AfterFailedSwap(p, t))
    ensures TaskOk(c.g, Floor(c), c.frontier, dist, t)
  {
    hide TaskOk, ValueOk, WellFormed;
  }

  lemma FailedSwapSettles(c: Context, dist: seq<Distance>, bins: multiset<Entry>, p: Progress, t: Task)
    requires Good(c) && |dist| == c.g.n && TaskOk(c.g, Floor(c), c.frontier, dist, t) && t in p.trying
    requires Stages(p) && TaskCovers(c, dist, p, t)
    ensures TaskSettled(c, dist, bins, AfterFailedSwap(p, t), t)
  {
  }

  lemma FailedSwapKeeps(c: Context, dist: seq<Distance>, bins: multiset<Entry>, p: Progress, t: Task)
    requires Good(c) && RelaxInvariant(c, dist, bins, p) && |dist| == c.g.n && t in p.trying
    ensures RelaxInvariant(c, dist, bins, AfterFailedSwap(p, t))
  {
    hide *;
    Parts(c, dist, bins, p);
    FailedSwapTasks(c, dist, bins, p, t);
    if TaskCovers(c, dist, p, t) {
      FailedSwapSettles(c, dist, bins, p, t);
    }
    TaskMoves(c, dist, bins, p, AfterFailedSwap(p, t), t);
  }

  /** The re-read after a failed swap: give up if somebody else stored something as good, else try again. */
  function AfterReread(p: Progress, t: Task, seen: Distance): Progress
    requires t in p.rereading
  {
    if Less(Finite(p.rereading[t]), seen)
    then p.(rereading := p.rereading - {t}, trying := p.trying[t := Attempt(seen, p.rereading[t])])
    else p.(rereading := p.rereading - {t})
  }

  lemma RereadTasks(c: Context, dist: seq<Distance>, p: Progress, t: Task, x: Distance)
    requires Good(c) && |dist| == c.g.n && TasksOk(c.g, c.s, Floor(c), c.frontier, dist, p) && Stages(p)
    requires t in p.rereading
    ensures TasksOk(c.g, c.s, Floor(c), c.frontier, dist, AfterReread(p, t, x))
    ensures SameOtherTasks(p, AfterReread(p, t, x), t) && Stages(AfterReread(p, t, x))
    ensures TaskOk(c.g, Floor(c), c.frontier, dist, t)
  {
    hide TaskOk, ValueOk, WellFormed;
  }

  lemma RereadSettles(c: Context, dist: seq<Distance>, bins: multiset<Entry>, p: Progress, t: Task)
    requires Good(c) && |dist| == c.g.n && TaskOk(c.g, Floor(c), c.frontier, dist, t) && t in p.rereading
    requires Stages(p) && TaskCovers(c, dist, p, t) && c.g.outE[t.e] < c.g.n
    ensures TaskSettled(c, dist, bins, AfterReread(p, t, dist[c.g.outE[t.e]]), t)
  {
  }

  lemma RereadKeeps(c: Context, dist: seq<Distance>, bins: multiset<Entry>, p: Progress, t: Task)
    requires Good(c) && RelaxInvariant(c, dist, bins, p) && |dist| == c.g.n && t in p.rereading
    requires t.e < |c.g.outE| && c.g.outE[t.e] < c.g.n
    ensures RelaxInvariant(c, dist, bins, AfterReread(p, t, dist[c.g.outE[t.e]]))
  {
    hide *;
    Parts(c, dist, bins, p);
    RereadTasks(c, dist, p, t, dist[c.g.outE[t.e]]);
    if TaskCovers(c, dist, p, t) {
      RereadSettles(c, dist, bins, p, t);
    }
    TaskMoves(c, dist, bins, p, AfterReread(p, t, dist[c.g.outE[t.e]]), t);
  }

  // ----- storing a distance

  lemma StoreLabels(c: Context, dist: seq<Distance>, v: nat, x: nat)
    requires Good(c) && Labels(c.g, c.s, dist) && v < c.g.n && Less(Finite(x), dist[v])
    requires ReachedAt(WeightedArcs(c.g), c.s, v, x)
    ensures Labels(c.g, c.s, dist[v := Finite(x)])
  {
    hide WeightedArcs, ReachedAt, WellFormed;
  }

  lemma StoreLowered(c: Context, dist: seq<Distance>, v: nat, x: nat)
    requires Good(c) && Lowered(c.start, dist, Floor(c)) && v < |dist| && Less(Finite(x), dist[v]) && x >= Floor(c)
    ensures Lowered(c.start, dist[v := Finite(x)], Floor(c)) && dist[v := Finite(x)] != c.start
  {
  }

  lemma StoreLowRelaxed(c: Context, dist: seq<Distance>, v: nat, x: nat)
    requires Good(c) && |dist| == c.g.n && LowRelaxed(c.g, dist, Floor(c)) && v < |dist| && Less(Finite(x), dist[v])
    requires x >= Floor(c)
    ensures LowRelaxed(c.g, dist[v := Finite(x)], Floor(c))
  {
    var dist' := dist[v := Finite(x)];
    forall u: nat, e: nat | InRow(c.g, u, e) && !AtLeast(dist'[u], Floor(c))
      ensures RelaxedEdge(c.g, dist', u, e)
    {
      assert RelaxedEdge(c.g, dist, u, e);
    }
  }

  /** `new_dist/delta` is the current bin or a later one. */
  lemma DestinationBin(delta: nat, bin: nat, x: nat)
    requires delta > 0 && x >= delta * bin
    ensures x / delta >= bin
  {
    var q, r := x / delta, x % delta;
    assert x == delta * q + r && r < delta;
    if q < bin {
      BelowBin(delta, bin, q, r);
    }
  }

  lemma BelowBin(delta: nat, bin: nat, q: nat, r: nat)
    requires r < delta && q < bin
    ensures delta * q + r < delta * bin
  {
    MulMonotone(delta, q + 1, bin);
    assert delta * (q + 1) == delta * q + delta;
  }

  lemma StoreBins(c: Context, dist: seq<Distance>, bins: multiset<Entry>, v: nat, x: nat)
    requires Good(c) && BinsOk(c.delta, c.bin, dist, bins) && FrontierOk(dist, c.frontier) && v < |dist|
    requires x >= Floor(c)
    ensures BinsOk(c.delta, c.bin, dist[v := Finite(x)], Push(c, bins, v, x))
    ensures FrontierOk(dist[v := Finite(x)], c.frontier)
  {
    DestinationBin(c.delta, c.bin, x);
  }

  function AfterSwap(p: Progress, t: Task): Progress
  {
    p.(trying := p.trying - {t})
  }

  lemma StoreTasks(c: Context, dist: seq<Distance>, p: Progress, t: Task, v: nat, x: nat)
    requires Good(c) && |dist| == c.g.n && TasksOk(c.g, c.s, Floor(c), c.frontier, dist, p) && Stages(p)
    requires v < |dist| && Less(Finite(x), dist[v]) && x >= Floor(c)
    ensures TasksOk(c.g, c.s, Floor(c), c.frontier, dist[v := Finite(x)], AfterSwap(p, t)) && Stages(AfterSwap(p, t))
    ensures SameOtherTasks(p, AfterSwap(p, t), t)
  {
    hide *;
    LowerTasks(c, dist, p, v, x);
    DropTrying(c, dist[v := Finite(x)], p, t);
  }

  lemma DropTrying(c: Context, dist: seq<Distance>, p: Progress, t: Task)
    requires Good(c) && |dist| == c.g.n && TasksOk(c.g, c.s, Floor(c), c.frontier, dist, p) && Stages(p)
    ensures TasksOk(c.g, c.s, Floor(c), c.frontier, dist, AfterSwap(p, t)) && Stages(AfterSwap(p, t))
    ensures SameOtherTasks(p, AfterSwap(p, t), t)
  {
    hide TaskOk, ValueOk, WellFormed, Less;
  }

  lemma LowerTasks(c: Context, dist: seq<Distance>, p: Progress, v: nat, x: nat)
    requires Good(c) && |dist| == c.g.n && TasksOk(c.g, c.s, Floor(c), c.frontier, dist, p)
    requires v < |dist| && Less(Finite(x), dist[v]) && x >= Floor(c)
    ensures TasksOk(c.g, c.s, Floor(c), c.frontier, dist[v := Finite(x)], p)
  {
    var dist' := dist[v := Finite(x)];
    forall r: Task | TaskOk(c.g, Floor(c), c.frontier, dist, r)
      ensures TaskOk(c.g, Floor(c), c.frontier, dist', r)
    {
      StoreTask(c, dist, v, x, r);
    }
    forall r | r in p.oldRead
      ensures r.e < |c.g.outE| && c.g.outE[r.e] < c.g.n && !Less(p.oldRead[r], dist'[c.g.outE[r.e]])
    {
      assert TaskOk(c.g, Floor(c), c.frontier, dist, r) && !Less(p.oldRead[r], dist[c.g.outE[r.e]]);
    }
    hide TaskOk, ValueOk, WellFormed, Less, Good;
  }

  lemma StoreTask(c: Context, dist: seq<Distance>, v: nat, x: nat, r: Task)
    requires Good(c) && |dist| == c.g.n && v < |dist| && x >= Floor(c)
    requires TaskOk(c.g, Floor(c), c.frontier, dist, r)
    ensures TaskOk(c.g, Floor(c), c.frontier, dist[v := Finite(x)], r)
  {
  }

  /**
   An edge after the store: edges out of `v` wait in the new bin, others are as before, and the edge of `t` is relaxed.
   */
  lemma StoreEdge(c: Context, dist: seq<Distance>, bins: multiset<Entry>, p: Progress, t: Task, v: nat, x: nat, u: nat,
      e: nat)
    requires Good(c) && |dist| == c.g.n && InRow(c.g, u, e) && EdgeOk(c.g, c.delta, c.frontier, dist, bins, p, u, e)
    requires t in p.trying && p.trying[t].desired == x && t.e < |c.g.outE| && v == c.g.outE[t.e] && v < c.g.n
    requires Less(Finite(x), dist[v])
    requires Stages(p)
    ensures EdgeOk(c.g, c.delta, c.frontier, dist[v := Finite(x)], Push(c, bins, v, x), AfterSwap(p, t), u, e)
  {
    var dist', bins', p' := dist[v := Finite(x)], Push(c, bins, v, x), AfterSwap(p, t);
    if u == v {
      assert Queued(c.delta, dist', bins', u);
    } else if RelaxedEdge(c.g, dist, u, e) {
      assert RelaxedEdge(c.g, dist', u, e);
    } else if Queued(c.delta, dist, bins, u) {
      assert Queued(c.delta, dist', bins', u);
    } else {
      var i: nat :| i < |c.frontier| && c.frontier[i] == u && CoveredBy(c.g, dist, p, u, e, i);
      StoreCovered(c.g, dist, p, t, x, u, e, i);
    }
  }

  lemma StoreCovered(g: Graph, dist: seq<Distance>, p: Progress, t: Task, x: nat, u: nat, e: nat, i: nat)
    requires Weighted(g) && |dist| == g.n && InRow(g, u, e) && CoveredBy(g, dist, p, u, e, i) && Stages(p)
    requires t in p.trying && p.trying[t].desired == x && t.e < |g.outE| && g.outE[t.e] < g.n && u != g.outE[t.e]
    ensures var dist' := dist[g.outE[t.e] := Finite(x)];
      RelaxedEdge(g, dist', u, e) || CoveredBy(g, dist', AfterSwap(p, t), u, e, i)
  {
  }

  function Push(c: Context, bins: multiset<Entry>, v: nat, x: nat): multiset<Entry>
    requires c.delta > 0
  {
    bins + multiset{Entry(x / c.delta, v)}
  }

  /** The compare-and-swap succeeds, and the vertex is pushed into the bin of its new distance. */
  lemma SwapKeeps(c: Context, dist: seq<Distance>, bins: multiset<Entry>, p: Progress, t: Task, v: nat, x: nat)
    requires t in p.trying && x == p.trying[t].desired && c.delta > 0 && |dist| == c.g.n
    requires t.e < |c.g.outE| && v == c.g.outE[t.e] && v < c.g.n && dist[v] == p.trying[t].expected
    requires Good(c) && RelaxInvariant(c, dist, bins, p)
    ensures Less(Finite(x), dist[v])
    ensures RelaxInvariant(c, dist[v := Finite(x)], Push(c, bins, v, x), AfterSwap(p, t))
  {
    hide *;
    Parts(c, dist, bins, p);
    TryingIs(c, dist, p, t);
    StoreLabels(c, dist, v, x);
    StoreLowered(c, dist, v, x);
    StoreLowRelaxed(c, dist, v, x);
    StoreBins(c, dist, bins, v, x);
    StoreTasks(c, dist, p, t, v, x);
    StoreEdges(c, dist, bins, p, t, v, x);
    Assemble(c, dist[v := Finite(x)], Push(c, bins, v, x), AfterSwap(p, t));
  }

  lemma TryingIs(c: Context, dist: seq<Distance>, p: Progress, t: Task)
    requires Good(c) && |dist| == c.g.n && TasksOk(c.g, c.s, Floor(c), c.frontier, dist, p) && t in p.trying
    ensures t.e < |c.g.outE| && p.trying[t].desired >= Floor(c)
    ensures ReachedAt(WeightedArcs(c.g), c.s, c.g.outE[t.e], p.trying[t].desired)
    ensures Less(Finite(p.trying[t].desired), p.trying[t].expected)
  {
  }

  lemma StoreEdges(c: Context, dist: seq<Distance>, bins: multiset<Entry>, p: Progress, t: Task, v: nat, x: nat)
    requires Good(c) && |dist| == c.g.n && EdgesOk(c, dist, bins, p) && Stages(p)
    requires t in p.trying && p.trying[t].desired == x && t.e < |c.g.outE| && v == c.g.outE[t.e] && v < c.g.n
    requires Less(Finite(x), dist[v])
    ensures EdgesOk(c, dist[v := Finite(x)], Push(c, bins, v, x), AfterSwap(p, t))
  {
    assert WellFormed(c.g) && c.delta > 0;
    hide EdgeOk, Stages, Less, WellFormed, InRow;
    forall u: nat, e: nat | InRow(c.g, u, e)
      ensures EdgeOk(c.g, c.delta, c.frontier, dist[v := Finite(x)], Push(c, bins, v, x), AfterSwap(p, t), u, e)
    {
      StoreEdge(c, dist, bins, p, t, v, x, u, e);
    }
  }

  lemma Assemble(c: Context, dist: seq<Distance>, bins: multiset<Entry>, p: Progress)
    requires Good(c) && |dist| == c.g.n
    requires Labels(c.g, c.s, dist) && Lowered(c.start, dist, Floor(c)) && LowRelaxed(c.g, dist, Floor(c))
    requires FrontierOk(dist, c.frontier) && BinsOk(c.delta, c.bin, dist, bins)
    requires TasksOk(c.g, c.s, Floor(c), c.frontier, dist, p) && Stages(p) && EdgesOk(c, dist, bins, p)
    requires dist == c.start ==> bins == c.bins0
    ensures RelaxInvariant(c, dist, bins, p)
  {
  }

  // ----- the steps of a bucket end

  function Infinites(dist: seq<Distance>): nat
  {
    if dist == [] then 0 else Infinites(dist[..|dist| - 1]) + if dist[|dist| - 1].Infinite? then 1 else 0
  }

  function Sum(dist: seq<Distance>): nat
  {
    if dist == [] then 0 else Sum(dist[..|dist| - 1]) + if dist[|dist| - 1].Finite? then dist[|dist| - 1].value else 0
  }

  /** Fewer unreached vertices, or as many and a smaller sum. */
  predicate Smaller(after: seq<Distance>, before: seq<Distance>)
  {
    Infinites(after) < Infinites(before) || (Infinites(after) == Infinites(before) && Sum(after) < Sum(before))
  }

  lemma {:induction false} LowerIsSmaller(before: seq<Distance>, after: seq<Distance>)
    requires |before| == |after| && forall v :: 0 <= v < |before| ==> !Less(before[v], after[v])
    ensures Infinites(after) <= Infinites(before)
    ensures Infinites(after) == Infinites(before) ==> Sum(after) <= Sum(before)
    ensures after == before || Smaller(after, before)
  {
    if before != [] {
      var last := |before| - 1;
      LowerIsSmaller(before[..last], after[..last]);
      assert before == before[..last] + [before[last]] && after == after[..last] + [after[last]];
      assert !Less(before[last], after[last]);
    }
  }

  lemma StoreIsSmaller(dist: seq<Distance>, v: nat, x: nat)
    requires v < |dist| && Less(Finite(x), dist[v])
    ensures Smaller(dist[v := Finite(x)], dist)
  {
    LowerIsSmaller(dist, dist[v := Finite(x)]);
  }

  /** Tasks whose compare-and-swap is going to fail. */
  ghost function Stale(g: Graph, dist: seq<Distance>, p: Progress): set<Task>
  {
    set t | t in p.trying && t.e < |g.outE| && g.outE[t.e] < |dist| && dist[g.outE[t.e]] != p.trying[t].expected
  }

  lemma OpenShrinks(c: Context, dist: seq<Distance>, p: Progress, i: nat)
    requires Good(c) && |dist| == c.g.n && i < |c.frontier| && c.frontier[i] < c.g.n && i in p.unopened
    ensures |Open(c, dist, p, i).unopened| < |p.unopened|
  {
  }

  lemma ReadOldShrinks(p: Progress, t: Task, seen: Distance)
    requires t in p.todo
    ensures AfterReadOld(p, t, seen).unopened == p.unopened && |AfterReadOld(p, t, seen).todo| < |p.todo|
  {
  }

  lemma ReadNewShrinks(p: Progress, t: Task, desired: nat)
    requires t in p.oldRead
    ensures AfterReadNew(p, t, desired).unopened == p.unopened && AfterReadNew(p, t, desired).todo == p.todo
    ensures |AfterReadNew(p, t, desired).oldRead| < |p.oldRead|
  {
    var rest := p.oldRead - {t};
    assert rest.Keys == p.oldRead.Keys - {t};
    assert |rest| == |rest.Keys| && |p.oldRead| == |p.oldRead.Keys|;
  }

  lemma FailedSwapShrinks(g: Graph, dist: seq<Distance>, p: Progress, t: Task)
    requires t in Stale(g, dist, p)
    ensures AfterFailedSwap(p, t).unopened == p.unopened && AfterFailedSwap(p, t).todo == p.todo
    ensures AfterFailedSwap(p, t).oldRead == p.oldRead
    ensures |Stale(g, dist, AfterFailedSwap(p, t))| < |Stale(g, dist, p)|
  {
    assert Stale(g, dist, AfterFailedSwap(p, t)) == Stale(g, dist, p) - {t};
  }

  lemma RereadShrinks(g: Graph, dist: seq<Distance>, p: Progress, t: Task)
    requires Stages(p) && t in p.rereading && t.e < |g.outE| && g.outE[t.e] < |dist|
    ensures var p' := AfterReread(p, t, dist[g.outE[t.e]]);
      && p'.unopened == p.unopened && p'.todo == p.todo && p'.oldRead == p.oldRead
      && Stale(g, dist, p') == Stale(g, dist, p) && |p'.rereading| < |p.rereading|
  {
    var rest := p.rereading - {t};
    assert rest.Keys == p.rereading.Keys - {t};
    assert |rest| == |rest.Keys| && |p.rereading| == |p.rereading.Keys|;
  }

  predicate Finished(p: Progress)
  {
    p.unopened == {} && p.todo == {} && |p.oldRead| == 0 && |p.trying| == 0 && |p.rereading| == 0
  }

  /** Every edge that is not relaxed has its source in the bin of its distance, or in the frontier. */
  ghost predicate UnrelaxedAreKnown(g: Graph, delta: nat, dist: seq<Distance>, bins: multiset<Entry>,
      frontier: seq<nat>)
    requires Weighted(g) && |dist| == g.n && delta > 0
  {
    forall u: nat, e: nat :: InRow(g, u, e) ==>
      RelaxedEdge(g, dist, u, e) || Queued(delta, dist, bins, u) || u in frontier
  }

  lemma StartBucket(c: Context, p: Progress)
    requires Good(c) && Labels(c.g, c.s, c.start) && LowRelaxed(c.g, c.start, Floor(c))
    requires FrontierOk(c.start, c.frontier) && BinsOk(c.delta, c.bin, c.start, c.bins0)
    requires UnrelaxedAreKnown(c.g, c.delta, c.start, c.bins0, c.frontier)
    requires p == Progress(UpTo(|c.frontier|), {}, map[], map[], map[])
    ensures RelaxInvariant(c, c.start, c.bins0, p)
  {
    forall u: nat, e: nat | InRow(c.g, u, e)
      ensures EdgeOk(c.g, c.delta, c.frontier, c.start, c.bins0, p, u, e)
    {
      if u in c.frontier {
        var i: nat :| i < |c.frontier| && c.frontier[i] == u;
        assert CoveredBy(c.g, c.start, p, u, e, i);
      }
    }
    assert TasksOk(c.g, c.s, Floor(c), c.frontier, c.start, p);
  }

  lemma EndBucket(c: Context, dist: seq<Distance>, bins: multiset<Entry>, p: Progress)
    requires Good(c) && |dist| == c.g.n && RelaxInvariant(c, dist, bins, p) && Finished(p)
    ensures UnrelaxedAreKnown(c.g, c.delta, dist, bins, [])
  {
    forall u: nat, e: nat | InRow(c.g, u, e)
      ensures RelaxedEdge(c.g, dist, u, e) || Queued(c.delta, dist, bins, u)
    {
      assert EdgeOk(c.g, c.delta, c.frontier, dist, bins, p, u, e);
      forall i: nat | i < |c.frontier| && c.frontier[i] == u
        ensures !CoveredBy(c.g, dist, p, u, e, i)
      {
      }
    }
  }

  lemma EndIsSmaller(c: Context, dist: seq<Distance>, bins: multiset<Entry>, p: Progress)
    requires Good(c) && RelaxInvariant(c, dist, bins, p)
    ensures Smaller(dist, c.start) || (dist == c.start && bins == c.bins0)
  {
    LowerIsSmaller(c.start, dist);
  }

  /** One compare-and-swap on `dist[v]`; the vertex is pushed when it succeeds. */
  method TrySwap(c: Context, dist: array<Distance>, bins: multiset<Entry>, p: Progress, t: Task)
    returns (bins': multiset<Entry>, p': Progress)
    requires Good(c) && dist.Length == c.g.n && RelaxInvariant(c, dist[..], bins, p) && t in p.trying
    modifies dist
    ensures RelaxInvariant(c, dist[..], bins', p')
    ensures Smaller(dist[..], old(dist[..]))
      || (dist[..] == old(dist[..]) && t in Stale(c.g, dist[..], p) && p' == AfterFailedSwap(p, t))
  {
    hide *;
    Parts(c, dist[..], bins, p);
    TaskIndex(c, dist[..], p, t);
    var v, a := c.g.outE[t.e], p.trying[t];
    if dist[v] == a.expected {
      SwapKeeps(c, dist[..], bins, p, t, v, a.desired);
      StoreIsSmaller(dist[..], v, a.desired);
      bins', p' := Push(c, bins, v, a.desired), AfterSwap(p, t);
      ghost var before := dist[..];
      dist[v] := Finite(a.desired);
      assert dist[..] == before[v := Finite(a.desired)];
    } else {
      FailedSwapKeeps(c, dist[..], bins, p, t);
      StaleIs(c.g, dist[..], p, t);
      bins', p' := bins, AfterFailedSwap(p, t);
    }
  }

  lemma StaleIs(g: Graph, dist: seq<Distance>, p: Progress, t: Task)
    requires t in p.trying && t.e < |g.outE| && g.outE[t.e] < |dist| && dist[g.outE[t.e]] != p.trying[t].expected
    ensures t in Stale(g, dist, p)
  {
  }

  lemma NotFinished(p: Progress)
    requires !Finished(p)
    ensures p.unopened != {} || p.todo != {} || |p.oldRead| > 0 || |p.trying| > 0 || |p.rereading| > 0
  {
  }

  lemma SomeKey<K, V>(m: map<K, V>) returns (k: K)
    requires |m| > 0
    ensures k in m
  {
    assert |m| == |m.Keys|;
    k :| k in m.Keys;
  }

  lemma SmallerIs(after: seq<Distance>, before: seq<Distance>)
    requires Smaller(after, before)
    ensures Infinites(after) < Infinites(before) || (Infinites(after) == Infinites(before) && Sum(after) < Sum(before))
  {
  }

  /** The measure of the steps that only read. */
  ghost predicate Fewer(g: Graph, dist: seq<Distance>, p: Progress, p': Progress)
  {
    (|p.unopened|, |p.todo|, |p.oldRead|, |Stale(g, dist, p)|, |p.rereading| decreases to
      |p'.unopened|, |p'.todo|, |p'.oldRead|, |Stale(g, dist, p')|, |p'.rereading|)
  }

  method OpenStep(c: Context, dist: array<Distance>, ghost bins: multiset<Entry>, p: Progress) returns (p': Progress)
    requires Good(c) && dist.Length == c.g.n && RelaxInvariant(c, dist[..], bins, p) && p.unopened != {}
    ensures RelaxInvariant(c, dist[..], bins, p') && Fewer(c.g, dist[..], p, p')
  {
    hide *;
    Parts(c, dist[..], bins, p);
    var i :| i in p.unopened;
    OpenKeeps(c, dist[..], bins, p, i);
    OpenShrinks(c, dist[..], p, i);
    p' := Open(c, dist[..], p, i);
    FewerUnopened(c.g, dist[..], p, p');
  }

  lemma FewerUnopened(g: Graph, dist: seq<Distance>, p: Progress, p': Progress)
    requires |p'.unopened| < |p.unopened|
    ensures Fewer(g, dist, p, p')
  {
    hide Stale;
  }

  method ReadOldStep(c: Context, dist: array<Distance>, ghost bins: multiset<Entry>, p: Progress) returns (p': Progress)
    requires Good(c) && dist.Length == c.g.n && RelaxInvariant(c, dist[..], bins, p) && p.todo != {}
    ensures RelaxInvariant(c, dist[..], bins, p') && Fewer(c.g, dist[..], p, p')
  {
    hide *;
    Parts(c, dist[..], bins, p);
    var t :| t in p.todo;
    TaskIndex(c, dist[..], p, t);
    var seen := dist[c.g.outE[t.e]];
    ReadOldKeeps(c, dist[..], bins, p, t);
    ReadOldShrinks(p, t, seen);
    p' := AfterReadOld(p, t, seen);
    FewerTodo(c.g, dist[..], p, p');
  }

  lemma FewerTodo(g: Graph, dist: seq<Distance>, p: Progress, p': Progress)
    requires p'.unopened == p.unopened && |p'.todo| < |p.todo|
    ensures Fewer(g, dist, p, p')
  {
    hide Stale;
  }

  lemma FewerOld(g: Graph, dist: seq<Distance>, p: Progress, p': Progress)
    requires p'.unopened == p.unopened && p'.todo == p.todo && |p'.oldRead| < |p.oldRead|
    ensures Fewer(g, dist, p, p')
  {
    hide Stale;
  }

  lemma FewerRereading(g: Graph, dist: seq<Distance>, p: Progress, p': Progress)
    requires p'.unopened == p.unopened && p'.todo == p.todo && p'.oldRead == p.oldRead
    requires Stale(g, dist, p') == Stale(g, dist, p) && |p'.rereading| < |p.rereading|
    ensures Fewer(g, dist, p, p')
  {
    hide Stale;
  }

  method ReadNewStep(c: Context, dist: array<Distance>, ghost bins: multiset<Entry>, p: Progress) returns (p': Progress)
    requires Good(c) && dist.Length == c.g.n && RelaxInvariant(c, dist[..], bins, p) && |p.oldRead| > 0
    ensures RelaxInvariant(c, dist[..], bins, p') && Fewer(c.g, dist[..], p, p')
  {
    hide *;
    Parts(c, dist[..], bins, p);
    ghost var some := SomeKey(p.oldRead);
    var t :| t in p.oldRead;
    TaskIndex(c, dist[..], p, t);
    var desired := dist[c.frontier[t.i]].value + Weight(c.g, t.e);
    ReadNewKeeps(c, dist[..], bins, p, t);
    ReadNewShrinks(p, t, desired);
    p' := AfterReadNew(p, t, desired);
    FewerOld(c.g, dist[..], p, p');
  }

  method RereadStep(c: Context, dist: array<Distance>, ghost bins: multiset<Entry>, p: Progress) returns (p': Progress)
    requires Good(c) && dist.Length == c.g.n && RelaxInvariant(c, dist[..], bins, p) && |p.rereading| > 0
    ensures RelaxInvariant(c, dist[..], bins, p') && Fewer(c.g, dist[..], p, p')
  {
    hide *;
    Parts(c, dist[..], bins, p);
    ghost var some := SomeKey(p.rereading);
    var t :| t in p.rereading;
    TaskIndex(c, dist[..], p, t);
    var seen := dist[c.g.outE[t.e]];
    RereadKeeps(c, dist[..], bins, p, t);
    RereadShrinks(c.g, dist[..], p, t);
    p' := AfterReread(p, t, seen);
    FewerRereading(c.g, dist[..], p, p');
  }

  lemma FewerIs(g: Graph, dist: seq<Distance>, p: Progress, p': Progress)
    requires Fewer(g, dist, p, p')
    ensures (|p.unopened|, |p.todo|, |p.oldRead|, |Stale(g, dist, p)|, |p.rereading| decreases to
      |p'.unopened|, |p'.todo|, |p'.oldRead|, |Stale(g, dist, p')|, |p'.rereading|)
  {
  }

  /** Any step of any edge that only reads `dist`. */
  method ReadStep(c: Context, dist: array<Distance>, ghost bins: multiset<Entry>, p: Progress) returns (p': Progress)
    requires Good(c) && dist.Length == c.g.n && RelaxInvariant(c, dist[..], bins, p)
    requires p.unopened != {} || p.todo != {} || |p.oldRead| > 0 || |p.rereading| > 0
    ensures RelaxInvariant(c, dist[..], bins, p') && Fewer(c.g, dist[..], p, p')
  {
    hide *;
    if
    case p.unopened != {} =>
      p' := OpenStep(c, dist, bins, p);
    case p.todo != {} =>
      p' := ReadOldStep(c, dist, bins, p);
    case |p.oldRead| > 0 =>
      p' := ReadNewStep(c, dist, bins, p);
    case |p.rereading| > 0 =>
      p' := RereadStep(c, dist, bins, p);
  }

  /** The parallel relaxation of one bucket, as interleaved steps of all its edges. */
  method RelaxBucket(c: Context, dist: array<Distance>, bins: multiset<Entry>) returns (bins': multiset<Entry>)
    requires Good(c) && dist.Length == c.g.n && dist[..] == c.start && bins == c.bins0
    requires Labels(c.g, c.s, dist[..]) && LowRelaxed(c.g, dist[..], Floor(c))
    requires FrontierOk(dist[..], c.frontier) && BinsOk(c.delta, c.bin, dist[..], bins)
    requires UnrelaxedAreKnown(c.g, c.delta, dist[..], bins, c.frontier)
    modifies dist
    ensures Labels(c.g, c.s, dist[..]) && LowRelaxed(c.g, dist[..], Floor(c)) && BinsOk(c.delta, c.bin, dist[..], bins')
    ensures UnrelaxedAreKnown(c.g, c.delta, dist[..], bins', [])
    ensures Smaller(dist[..], c.start) || (dist[..] == c.start && bins' == bins)
  {
    hide *;
    var p := Progress(UpTo(|c.frontier|), {}, map[], map[], map[]);
    StartBucket(c, p);
    bins' := bins;
    while !Finished(p)
      invariant RelaxInvariant(c, dist[..], bins', p)
      decreases Infinites(dist[..]), Sum(dist[..]), |p.unopened|, |p.todo|, |p.oldRead|, |Stale(c.g, dist[..], p)|,
        |p.rereading|
    {
      NotFinished(p);
      if
      case p.unopened != {} || p.todo != {} || |p.oldRead| > 0 || |p.rereading| > 0 =>
        ghost var was := p;
        p := ReadStep(c, dist, bins', p);
        FewerIs(c.g, dist[..], was, p);
      case |p.trying| > 0 =>
        ghost var some := SomeKey(p.trying);
        var t :| t in p.trying;
        ghost var before, was := dist[..], p;
        bins', p := TrySwap(c, dist, bins', p, t);
        if Smaller(dist[..], before) {
          SmallerIs(dist[..], before);
        } else {
          FailedSwapShrinks(c.g, before, was, t);
        }
    }
    Parts(c, dist[..], bins', p);
    EndBucket(c, dist[..], bins', p);
    EndIsSmaller(c, dist[..], bins', p);
  }

  // ----- the loop over the buckets

  /** The first bin from `bin` on that is not empty. */
  method NextBin(bins: multiset<Entry>, bin: nat) returns (next: Option<nat>)
    ensures next.None? ==> forall x :: x in bins ==> x.bin < bin
    ensures next.Some? ==> next.value >= bin && exists x :: x in bins && x.bin == next.value
    ensures next.Some? ==> forall x :: x in bins && x.bin >= bin ==> x.bin >= next.value
  {
    next := None;
    var rest := bins;
    while rest != multiset{}
      invariant rest <= bins
      invariant next.None? ==> forall x :: x in bins ==> x in rest || x.bin < bin
      invariant next.Some? ==> next.value >= bin && exists x :: x in bins && x.bin == next.value
      invariant next.Some? ==> forall x :: x in bins && x.bin >= bin ==> x in rest || x.bin >= next.value
    {
      var x :| x in rest;
      if x.bin >= bin && (next.None? || x.bin < next.value) {
        next := Some(x.bin);
      }
      rest := rest - multiset{x};
    }
  }

  /** Copy a bin into the frontier, in any order, and empty it. */
  method TakeBin(bins: multiset<Entry>, bin: nat) returns (frontier: seq<nat>, rest: multiset<Entry>)
    ensures forall x: Entry :: rest[x] == if x.bin == bin then 0 else bins[x]
    ensures forall v: nat :: multiset(frontier)[v] == bins[Entry(bin, v)]
  {
    frontier, rest := [], bins;
    while exists x :: x in rest && x.bin == bin
      invariant rest <= bins
      invariant forall x: Entry :: x.bin != bin ==> rest[x] == bins[x]
      invariant forall v: nat :: multiset(frontier)[v] + rest[Entry(bin, v)] == bins[Entry(bin, v)]
      decreases |rest|
    {
      var x :| x in rest && x.bin == bin;
      ghost var was := frontier;
      frontier, rest := frontier + [x.v], rest - multiset{x};
      assert multiset(frontier) == multiset(was) + multiset{x.v};
    }
    forall x: Entry
      ensures rest[x] == if x.bin == bin then 0 else bins[x]
    {
      assert x.bin == bin ==> x !in rest;
    }
    forall v: nat
      ensures multiset(frontier)[v] == bins[Entry(bin, v)]
    {
      assert Entry(bin, v) !in rest;
    }
  }

  /** At the start of a round; with no current bin every edge is relaxed. */
  ghost predicate RoundInvariant(g: Graph, s: nat, delta: nat, dist: seq<Distance>, bins: multiset<Entry>,
      frontier: seq<nat>, curr: Option<nat>)
  {
    && Weighted(g) && delta > 0 && Labels(g, s, dist)
    && match curr
       case None => forall u: nat, e: nat :: InRow(g, u, e) ==> RelaxedEdge(g, dist, u, e)
       case Some(bin) =>
         && LowRelaxed(g, dist, delta * bin) && FrontierOk(dist, frontier) && BinsOk(delta, bin, dist, bins)
         && UnrelaxedAreKnown(g, delta, dist, bins, frontier)
  }

  lemma FirstRound(g: Graph, s: nat, delta: nat, dist: seq<Distance>)
    requires Weighted(g) && s < g.n && delta > 0 && |dist| == g.n
    requires forall v :: 0 <= v < g.n ==> dist[v] == if v == s then Finite(0) else Infinite
    ensures RoundInvariant(g, s, delta, dist, multiset{}, [s], Some(0))
  {
    ReachedAtStart(WeightedArcs(g), s);
  }

  lemma RoundContext(g: Graph, s: nat, delta: nat, dist: seq<Distance>, bins: multiset<Entry>, frontier: seq<nat>,
      bin: nat)
    requires RoundInvariant(g, s, delta, dist, bins, frontier, Some(bin))
    ensures var c := Context(g, s, delta, bin, dist, bins, frontier);
      && Good(c) && Labels(g, s, dist) && LowRelaxed(g, dist, Floor(c)) && |dist| == g.n
      && FrontierOk(dist, frontier) && BinsOk(delta, bin, dist, bins)
      && UnrelaxedAreKnown(g, delta, dist, bins, frontier)
  {
  }

  /** Nothing below the next bin is left to relax, since what is left waits in the bin of its distance. */
  lemma NextIsLowRelaxed(g: Graph, delta: nat, dist: seq<Distance>, bins: multiset<Entry>, bin: nat, next: nat)
    requires Weighted(g) && |dist| == g.n && delta > 0 && BinsOk(delta, bin, dist, bins)
    requires UnrelaxedAreKnown(g, delta, dist, bins, [])
    requires forall x :: x in bins && x.bin >= bin ==> x.bin >= next
    ensures LowRelaxed(g, dist, delta * next)
  {
    forall u: nat, e: nat | InRow(g, u, e) && !AtLeast(dist[u], delta * next)
      ensures RelaxedEdge(g, dist, u, e)
    {
      if Queued(delta, dist, bins, u) {
        var q := dist[u].value / delta;
        assert Entry(q, u) in bins && q >= next;
        MulMonotone(delta, next, q);
        DivisionFloor(dist[u].value, delta);
      }
    }
  }

  lemma DivisionFloor(x: nat, delta: nat)
    requires delta > 0
    ensures delta * (x / delta) <= x
  {
  }

  lemma NextRound(g: Graph, s: nat, delta: nat, dist: seq<Distance>, bins: multiset<Entry>, bin: nat, next: nat,
      frontier: seq<nat>, rest: multiset<Entry>)
    requires Weighted(g) && delta > 0 && Labels(g, s, dist) && BinsOk(delta, bin, dist, bins)
    requires UnrelaxedAreKnown(g, delta, dist, bins, [])
    requires next >= bin && forall x :: x in bins && x.bin >= bin ==> x.bin >= next
    requires forall x: Entry :: rest[x] == if x.bin == next then 0 else bins[x]
    requires forall v: nat :: multiset(frontier)[v] == bins[Entry(next, v)]
    ensures RoundInvariant(g, s, delta, dist, rest, frontier, Some(next))
  {
    NextIsLowRelaxed(g, delta, dist, bins, bin, next);
    forall i | 0 <= i < |frontier|
      ensures Entry(next, frontier[i]) in bins
    {
      assert frontier[i] in multiset(frontier);
    }
    forall x | x in rest
      ensures x in bins && x.bin >= next
    {
      assert bins[x] > 0;
    }
    forall u: nat, e: nat | InRow(g, u, e) && !RelaxedEdge(g, dist, u, e)
      ensures Queued(delta, dist, rest, u) || u in frontier
    {
      var x := Entry(dist[u].value / delta, u);
      assert Queued(delta, dist, bins, u);
      if x.bin == next {
        assert multiset(frontier)[u] > 0;
      } else {
        assert rest[x] > 0;
      }
    }
  }

  lemma LastRound(g: Graph, s: nat, delta: nat, dist: seq<Distance>, bins: multiset<Entry>, bin: nat,
      frontier: seq<nat>)
    requires Weighted(g) && delta > 0 && Labels(g, s, dist) && BinsOk(delta, bin, dist, bins)
    requires UnrelaxedAreKnown(g, delta, dist, bins, [])
    requires forall x :: x in bins ==> x.bin < bin
    ensures RoundInvariant(g, s, delta, dist, bins, frontier, None)
  {
  }

  lemma FewerEntries(bins: multiset<Entry>, rest: multiset<Entry>, next: nat)
    requires forall x: Entry :: rest[x] == if x.bin == next then 0 else bins[x]
    requires exists x :: x in bins && x.bin == next
    ensures |rest| < |bins|
  {
    var x :| x in bins && x.bin == next;
    assert rest <= bins - multiset{x};
    var others := bins - multiset{x} - rest;
    assert bins == rest + others + multiset{x};
  }

  lemma RoundEnd(g: Graph, s: nat, delta: nat, dist: seq<Distance>, bins: multiset<Entry>, frontier: seq<nat>)
    requires RoundInvariant(g, s, delta, dist, bins, frontier, None)
    ensures Exact(g, s, dist)
  {
    NothingLeftIsExact(g, s, dist);
  }

  /** Delta-stepping ends, and `dist` holds the weights of shortest walks, for any order of the parallel relaxations. */
  method Sssp(g: Graph, s: nat, delta: nat) returns (dist: array<Distance>)
    requires Weighted(g) && s < g.n && delta > 0
    ensures fresh(dist) && Exact(g, s, dist[..])
  {
    hide *;
    dist := new Distance[g.n](_ => Infinite);
    dist[s] := Finite(0);
    var bins, frontier, curr := multiset{}, [s], Some(0);
    FirstRound(g, s, delta, dist[..]);
    while curr.Some?
      invariant fresh(dist) && dist.Length == g.n
      invariant RoundInvariant(g, s, delta, dist[..], bins, frontier, curr)
      decreases Infinites(dist[..]), Sum(dist[..]), |bins|, curr.Some?
    {
      var bin := curr.value;
      RoundContext(g, s, delta, dist[..], bins, frontier, bin);
      var c := Context(g, s, delta, bin, dist[..], bins, frontier);
      bins := RelaxBucket(c, dist, bins);
      if Smaller(dist[..], c.start) {
        SmallerIs(dist[..], c.start);
      }
      curr := NextBin(bins, bin);
      if curr.Some? {
        ghost var full := bins;
        frontier, bins := TakeBin(bins, curr.value);
        NextRound(g, s, delta, dist[..], full, bin, curr.value, frontier, bins);
        FewerEntries(full, bins, curr.value);
      } else {
        LastRound(g, s, delta, dist[..], bins, bin, frontier);
      }
    }
    RoundEnd(g, s, delta, dist[..], bins, frontier);
  }
}
