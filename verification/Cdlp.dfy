/**
 Community detection by label propagation (CSR::do_cdlp).

 The vertices of an iteration run in any order, and so does the iteration over a histogram. The
 update `change |= ...` of the shared flag reads and writes it in two steps, and the steps of
 different chunks of vertices interleave. `Schedule` describes these runs; every run of the kernel
 is one.
 */
module Cdlp {
  import opened Csr
  import opened Ranges
  import opened Sequences
  import opened Votes

  type Labels = seq<nat>

  function LabelOf(labels: Labels): nat -> nat
  {
    (u: nat) => if u < |labels| then labels[u] else 0
  }

  /** The labels of the neighbours; in a directed graph one that is reachable both ways counts twice. */
  ghost function Ballot(g: Graph, labels: Labels, v: nat): multiset<nat>
    requires WellFormed(g) && v < g.n
  {
    multiset(Mapped(Out(g, v), LabelOf(labels))) +
      if g.directed then multiset(Mapped(In(g, v), LabelOf(labels))) else multiset{}
  }

  ghost function Elected(g: Graph, labels: Labels, v: nat): nat
    requires WellFormed(g) && v < g.n
  {
    Winner(Ballot(g, labels, v), INT64_MAX)
  }

  /** One synchronous step. */
  ghost function Step(g: Graph, labels: Labels): (r: Labels)
    requires WellFormed(g)
    ensures |r| == g.n && forall v: nat :: v < g.n ==> r[v] == Elected(g, labels, v)
  {
    seq(g.n, v requires 0 <= v < g.n => Elected(g, labels, v))
  }

  /** The labels after `k` synchronous steps. */
  ghost function Iterate(g: Graph, k: nat): (r: Labels)
    requires WellFormed(g)
    ensures |r| == g.n
  {
    if k == 0 then g.ids else Step(g, Iterate(g, k - 1))
  }

  /** Once an iteration changes nothing, no later one does. */
  lemma {:induction false} StableStays(g: Graph, k: nat, more: nat)
    requires WellFormed(g) && Iterate(g, k + 1) == Iterate(g, k) && k <= more
    ensures Iterate(g, more) == Iterate(g, k)
  {
    hide *;
    if k < more {
      StableStays(g, k, more - 1);
      IterateOnce(g, more - 1);
      IterateOnce(g, k);
    }
  }

  lemma IterateOnce(g: Graph, k: nat)
    requires WellFormed(g)
    ensures Iterate(g, k + 1) == Step(g, Iterate(g, k))
  {
    hide WellFormed, Step;
  }

  // ----- one vertex

  method CountRow(row: seq<nat>, edges: seq<nat>, lo: nat, hi: nat, labels: array<nat>, start: Histogram,
      ghost votes: multiset<nat>)
    returns (histogram: Histogram)
    requires lo <= hi <= |edges| && row == edges[lo..hi] && forall i :: lo <= i < hi ==> edges[i] < labels.Length
    requires Counts(start, votes) && NoEmptyBars(start)
    ensures Counts(histogram, votes + multiset(Mapped(row, LabelOf(labels[..])))) && NoEmptyBars(histogram)
  {
    histogram := start;
    ghost var f := LabelOf(labels[..]);
    assert votes + multiset(Mapped(row[..0], f)) == votes;
    for i := lo to hi
      invariant Counts(histogram, votes + multiset(Mapped(row[..i - lo], f))) && NoEmptyBars(histogram)
    {
      var u := edges[i];
      assert row[i - lo] == u && f(u) == labels[u];
      OneVoteMore(row, i - lo, f, votes);
      IncrementCounts(histogram, votes + multiset(Mapped(row[..i - lo], f)), labels[u]);
      histogram := Increment(histogram, labels[u]);
    }
    assert row[..|row|] == row;
  }

  lemma OneVoteMore(row: seq<nat>, k: nat, f: nat -> nat, votes: multiset<nat>)
    requires k < |row|
    ensures votes + multiset(Mapped(row[..k + 1], f)) == votes + multiset(Mapped(row[..k], f)) + multiset{f(row[k])}
  {
    assert row[..k + 1] == row[..k] + [row[k]];
    MappedAppend(row[..k], [row[k]], f);
    assert Mapped([row[k]], f) == [f(row[k])];
  }

  /** `label_max`: the bars are visited in any order. */
  method LabelMax(histogram: Histogram, ghost votes: multiset<nat>) returns (elected: nat)
    requires Counts(histogram, votes) && NoEmptyBars(histogram)
    ensures elected == Winner(votes, INT64_MAX)
  {
    elected := INT64_MAX;
    var count := 0;
    var left := histogram.Keys;
    while left != {}
      invariant left <= histogram.Keys
      invariant if left == histogram.Keys then elected == INT64_MAX && count == 0
                else BestOf(histogram, histogram.Keys - left, elected) && count == histogram[elected]
    {
      var l :| l in left;
      if histogram[l] > count || (histogram[l] == count && l < elected) {
        elected, count := l, histogram[l];
      }
      left := left - {l};
    }
    BestIsWinner(histogram, votes, elected);
  }

  lemma BestIsWinner(histogram: Histogram, votes: multiset<nat>, elected: nat)
    requires Counts(histogram, votes) && NoEmptyBars(histogram)
    requires if histogram.Keys == {} then elected == INT64_MAX else BestOf(histogram, histogram.Keys, elected)
    ensures elected == Winner(votes, INT64_MAX)
  {
    if histogram.Keys == {} {
      assert votes == multiset{};
    } else {
      BestWins(histogram, votes, elected);
      WinnerIsUnique(votes, elected, Winner(votes, INT64_MAX));
    }
  }

  method Elect(g: Graph, labels: array<nat>, v: nat) returns (elected: nat)
    requires WellFormed(g) && labels.Length == g.n && v < g.n
    ensures elected == Elected(g, labels[..], v)
  {
    hide Counts, NoEmptyBars, Winner, Mapped, LabelOf;
    RowInRange(g, v);
    ghost var votes: multiset<nat> := multiset{};
    NoVotes();
    var histogram := CountRow(Out(g, v), g.outE, Lo(g.outV, v), Hi(g.outV, v), labels, map[], votes);
    votes := votes + multiset(Mapped(Out(g, v), LabelOf(labels[..])));
    if g.directed {
      histogram := CountRow(In(g, v), g.inE, Lo(g.inV, v), Hi(g.inV, v), labels, histogram, votes);
      votes := votes + multiset(Mapped(In(g, v), LabelOf(labels[..])));
    }
    assert votes == Ballot(g, labels[..], v);
    elected := LabelMax(histogram, votes);
  }

  lemma NoVotes()
    ensures Counts(map[], multiset{}) && NoEmptyBars(map[])
  {
  }

  lemma RowInRange(g: Graph, v: nat)
    requires WellFormed(g) && v < g.n
    ensures Lo(g.outV, v) <= Hi(g.outV, v) <= |g.outE| && forall i :: 0 <= i < |g.outE| ==> g.outE[i] < g.n
    ensures Lo(g.inV, v) <= Hi(g.inV, v) <= |g.inE| && forall i :: 0 <= i < |g.inE| ==> g.inE[i] < g.n
  {
  }

  // ----- the steps of a run

  /** The values that were computed from a read of the flag and are not written back yet. */
  type Pending = map<nat, bool>

  // The state of a run; `left` and `pending` belong to the parallel loop of the current iteration.
  datatype Kernel = Kernel(
    labels: Labels,     // labels0
    next: Labels,       // labels1
    iteration: nat,
    change: bool,
    busy: bool,         // inside the parallel loop
    left: set<nat>,     // vertices that no thread has run yet
    pending: Pending)

  function Idle(labels: Labels, next: Labels, iteration: nat, change: bool): Kernel
  {
    Kernel(labels, next, iteration, change, false, {}, map[])
  }

  ghost predicate Starts(g: Graph, s: Kernel)
  {
    s == Idle(g.ids, s.next, 0, true) && |s.next| == g.n
  }

  predicate Continues(max: nat, s: Kernel)
  {
    s.iteration < max && s.change
  }

  predicate Finished(max: nat, s: Kernel)
  {
    !s.busy && !Continues(max, s)
  }

  ghost predicate Enters(g: Graph, max: nat, a: Kernel, b: Kernel)
  {
    !a.busy && Continues(max, a) && b == a.(change := false, busy := true, left := UpTo(g.n), pending := map[])
  }

  // The loop has `schedule(dynamic, 64)`: a thread takes that many consecutive vertices and runs them in order.
  const CDLP_CHUNK: nat := 64

  predicate SameChunk(u: nat, v: nat)
  {
    u / CDLP_CHUNK == v / CDLP_CHUNK
  }

  /** The thread that has the chunk of `v` is done with the vertices before it. */
  predicate Ready(left: set<nat>, pending: Pending, v: nat)
  {
    && (forall u :: u in left && u < v ==> !SameChunk(u, v))
    && forall u :: u in pending && u < v ==> !SameChunk(u, v)
  }

  /** A thread computes the label of `v` and reads the flag. */
  ghost predicate Computes(g: Graph, a: Kernel, v: nat, b: Kernel)
    requires WellFormed(g)
  {
    && a.busy && v in a.left && Ready(a.left, a.pending, v) && v < g.n && v < |a.labels| && v < |a.next|
    && var elected := Elected(g, a.labels, v);
       b == a.(next := a.next[v := elected], left := a.left - {v},
               pending := a.pending[v := a.change || a.labels[v] != elected])
  }

  /** The thread of `v` writes the flag. */
  ghost predicate Stores(a: Kernel, v: nat, b: Kernel)
  {
    a.busy && v in a.pending && b == a.(change := a.pending[v], pending := a.pending - {v})
  }

  ghost predicate Leaves(a: Kernel, b: Kernel)
  {
    a.busy && a.left == {} && a.pending == map[] && b == Idle(a.next, a.labels, a.iteration + 1, a.change)
  }

  ghost predicate Next(g: Graph, max: nat, a: Kernel, b: Kernel)
    requires WellFormed(g)
  {
    Enters(g, max, a, b) || Leaves(a, b) || exists v :: Computes(g, a, v, b) || Stores(a, v, b)
  }

  /** A schedule of the threads, from the start of the kernel. */
  ghost predicate Schedule(g: Graph, max: nat, run: seq<Kernel>)
    requires WellFormed(g)
  {
    && run != [] && Starts(g, run[0])
    && forall i :: 0 <= i < |run| - 1 ==> Next(g, max, run[i], run[i + 1])
  }

  function Last(run: seq<Kernel>): Kernel
    requires run != []
  {
    run[|run| - 1]
  }

  /** A schedule that has led to `s`. */
  ghost predicate Reached(g: Graph, max: nat, run: seq<Kernel>, s: Kernel)
    requires WellFormed(g)
  {
    Schedule(g, max, run) && Last(run) == s
  }

  /** A schedule up to the return of the kernel. */
  ghost predicate Ends(g: Graph, max: nat, run: seq<Kernel>)
    requires WellFormed(g)
  {
    Schedule(g, max, run) && Finished(max, Last(run))
  }

  /** What the kernel returns. */
  function Returned(run: seq<Kernel>): Labels
  {
    if run == [] then [] else Last(run).labels
  }

  lemma Extend(g: Graph, max: nat, run: seq<Kernel>, a: Kernel, b: Kernel)
    requires WellFormed(g) && Reached(g, max, run, a) && Next(g, max, a, b)
    ensures Reached(g, max, run + [b], b)
  {
    hide WellFormed, Next, Starts;
    var longer := run + [b];
    forall i | 0 <= i < |longer| - 1
      ensures Next(g, max, longer[i], longer[i + 1])
    {
      if i < |run| - 1 {
        assert longer[i] == run[i] && longer[i + 1] == run[i + 1];
      }
    }
  }

  lemma StartIsReached(g: Graph, max: nat, s: Kernel)
    requires WellFormed(g) && Starts(g, s)
    ensures Reached(g, max, [s], s)
  {
    hide WellFormed, Next, Starts;
  }

  lemma EnterStep(g: Graph, max: nat, a: Kernel)
    requires WellFormed(g) && !a.busy && Continues(max, a)
    ensures Next(g, max, a, a.(change := false, busy := true, left := UpTo(g.n), pending := map[]))
  {
    hide WellFormed;
  }

  lemma ComputeStep(g: Graph, max: nat, a: Kernel, v: nat)
    requires WellFormed(g) && a.busy && v in a.left && Ready(a.left, a.pending, v)
    requires v < g.n && v < |a.labels| && v < |a.next|
    ensures var elected := Elected(g, a.labels, v);
      Next(g, max, a, a.(next := a.next[v := elected], left := a.left - {v},
                         pending := a.pending[v := a.change || a.labels[v] != elected]))
  {
    hide WellFormed, Elected;
    var elected := Elected(g, a.labels, v);
    var b := a.(next := a.next[v := elected], left := a.left - {v},
      pending := a.pending[v := a.change || a.labels[v] != elected]);
    assert Computes(g, a, v, b);
  }

  lemma StoreStep(g: Graph, max: nat, a: Kernel, v: nat)
    requires WellFormed(g) && a.busy && v in a.pending
    ensures Next(g, max, a, a.(change := a.pending[v], pending := a.pending - {v}))
  {
    hide WellFormed, Elected;
    var b := a.(change := a.pending[v], pending := a.pending - {v});
    assert Stores(a, v, b);
  }

  lemma LeaveStep(g: Graph, max: nat, a: Kernel)
    requires WellFormed(g) && a.busy && a.left == {} && a.pending == map[]
    ensures Next(g, max, a, Idle(a.next, a.labels, a.iteration + 1, a.change))
  {
    hide WellFormed;
  }

  // ----- the kernel

  /** A raised flag, and a value about to raise it, come from a vertex whose label differs. */
  ghost predicate FlagSound(before: Labels, after: Labels, left: set<nat>, change: bool, pending: Pending)
    requires |before| == |after|
  {
    && (change || (exists v :: v in pending && pending[v]) ==>
          exists u: nat :: u < |before| && u !in left && before[u] != after[u])
    && forall v :: v in pending ==> v < |before| && v !in left
  }

  lemma ComputeKeeps(before: Labels, mid: Labels, after: Labels, left: set<nat>, change: bool, pending: Pending, v: nat)
    requires |before| == |mid| == |after| && v < |before| && v in left && after == mid[v := after[v]]
    requires FlagSound(before, mid, left, change, pending)
    ensures FlagSound(before, after, left - {v}, change, pending[v := change || before[v] != after[v]])
  {
    if change || (exists w :: w in pending && pending[w]) {
      var u: nat :| u < |before| && u !in left && before[u] != mid[u];
      assert u !in left - {v} && before[u] != after[u];
    } else if before[v] != after[v] {
      assert v !in left - {v};
    }
  }

  lemma StoreKeeps(before: Labels, after: Labels, left: set<nat>, change: bool, pending: Pending, v: nat)
    requires |before| == |after| && v in pending && FlagSound(before, after, left, change, pending)
    ensures FlagSound(before, after, left, pending[v], pending - {v})
  {
  }

  /**
   The parallel loop of an iteration, in any schedule. The label of every vertex is computed from the old labels, so
   the new labels are a synchronous step; the flag is never raised for nothing, but it can be lost.
   */
  method Pass(g: Graph, labels0: array<nat>, labels1: array<nat>, ghost max: nat, ghost k: nat, ghost run: seq<Kernel>)
    returns (change: bool, ghost run': seq<Kernel>)
    requires WellFormed(g) && labels0.Length == g.n && labels1.Length == g.n && labels0 != labels1 && k < max
    requires Reached(g, max, run, Idle(labels0[..], labels1[..], k, true))
    modifies labels1
    ensures labels1[..] == Step(g, labels0[..])
    ensures change ==> labels1[..] != labels0[..]
    ensures Reached(g, max, run', Idle(labels1[..], labels0[..], k + 1, change))
  {
    hide *;
    ghost var before := labels0[..];
    change := false;
    var left, pending: Pending := UpTo(g.n), map[];
    run' := BeginPass(g, max, run, before, labels1[..], k);
    while left != {} || |pending| > 0
      invariant left <= UpTo(g.n)
      invariant forall u: nat :: u < g.n && u !in left ==> labels1[u] == Elected(g, before, u)
      invariant FlagSound(before, labels1[..], left, change, pending)
      invariant Reached(g, max, run', Kernel(before, labels1[..], k, change, true, left, pending))
      decreases |left|, |pending|
    {
      SomeStep(left, pending);
      if
      case v: nat :| v in left && Ready(left, pending, v) =>
        var elected := Elect(g, labels0, v);
        ghost var after := labels1[..][v := elected];
        ComputeKeeps(before, labels1[..], after, left, change, pending, v);
        ComputeStep(g, max, Kernel(before, labels1[..], k, change, true, left, pending), v);
        ghost var reached := Kernel(before, after, k, change, true, left - {v},
          pending[v := change || before[v] != elected]);
        Extend(g, max, run', Kernel(before, labels1[..], k, change, true, left, pending), reached);
        run' := run' + [reached];
        labels1[v] := elected;
        assert labels1[..] == after && |left - {v}| < |left|;
        left, pending := left - {v}, pending[v := change || labels0[v] != elected];
      case |pending| > 0 =>
        ghost var some := SomeKey(pending);
        var v :| v in pending;
        StoreKeeps(before, labels1[..], left, change, pending, v);
        run' := StoreFlag(g, max, run', Kernel(before, labels1[..], k, change, true, left, pending), v);
        RemoveKey(pending, v);
        change, pending := pending[v], pending - {v};
    }
    FlagAtEnd(before, labels1[..], change, pending);
    run' := EndPass(g, max, run', Kernel(before, labels1[..], k, change, true, left, pending));
  }

  /** Unless the loop is over, some thread can go on. */
  lemma SomeStep(left: set<nat>, pending: Pending)
    requires left != {} || |pending| > 0
    ensures |pending| > 0 || exists v: nat :: v in left && Ready(left, pending, v)
  {
    if |pending| == 0 {
      assert pending == map[];
      var v := Least(left);
      assert Ready(left, pending, v);
    }
  }

  lemma {:induction false} Least(s: set<nat>) returns (v: nat)
    requires s != {}
    ensures v in s && forall u: nat :: u in s ==> v <= u
    decreases |s|
  {
    v :| v in s;
    var rest := s - {v};
    assert forall u: nat :: u in s ==> u == v || u in rest;
    if rest != {} {
      var w := Least(rest);
      v := if v < w then v else w;
    }
  }

  lemma BeginPass(g: Graph, max: nat, run: seq<Kernel>, before: Labels, next: Labels, k: nat)
    returns (run': seq<Kernel>)
    requires WellFormed(g) && k < max && |before| == |next| == g.n && Reached(g, max, run, Idle(before, next, k, true))
    ensures Reached(g, max, run', Kernel(before, next, k, false, true, UpTo(g.n), map[]))
    ensures FlagSound(before, next, UpTo(g.n), false, map[])
  {
    hide WellFormed, Reached, Next;
    EnterStep(g, max, Idle(before, next, k, true));
    Extend(g, max, run, Idle(before, next, k, true), Kernel(before, next, k, false, true, UpTo(g.n), map[]));
    run' := run + [Kernel(before, next, k, false, true, UpTo(g.n), map[])];
  }

  lemma StoreFlag(g: Graph, max: nat, run: seq<Kernel>, a: Kernel, v: nat) returns (run': seq<Kernel>)
    requires WellFormed(g) && Reached(g, max, run, a) && a.busy && v in a.pending
    ensures Reached(g, max, run', a.(change := a.pending[v], pending := a.pending - {v}))
  {
    hide *;
    StoreStep(g, max, a, v);
    Extend(g, max, run, a, a.(change := a.pending[v], pending := a.pending - {v}));
    run' := run + [a.(change := a.pending[v], pending := a.pending - {v})];
  }

  lemma EndPass(g: Graph, max: nat, run: seq<Kernel>, a: Kernel) returns (run': seq<Kernel>)
    requires WellFormed(g) && Reached(g, max, run, a) && a.busy && a.left == {} && |a.pending| == 0
    ensures Reached(g, max, run', Idle(a.next, a.labels, a.iteration + 1, a.change))
  {
    hide *;
    assert a.pending == map[];
    LeaveStep(g, max, a);
    Extend(g, max, run, a, Idle(a.next, a.labels, a.iteration + 1, a.change));
    run' := run + [Idle(a.next, a.labels, a.iteration + 1, a.change)];
  }

  lemma SomeKey(pending: Pending) returns (v: nat)
    requires |pending| > 0
    ensures v in pending
  {
    assert |pending| == |pending.Keys|;
    v :| v in pending.Keys;
  }

  lemma RemoveKey(pending: Pending, v: nat)
    requires v in pending
    ensures |pending - {v}| == |pending| - 1
  {
    assert (pending - {v}).Keys == pending.Keys - {v};
    assert |pending - {v}| == |(pending - {v}).Keys| && |pending| == |pending.Keys|;
  }

  lemma FlagAtEnd(before: Labels, after: Labels, change: bool, pending: Pending)
    requires |before| == |after| && FlagSound(before, after, {}, change, pending)
    ensures change ==> after != before
  {
  }

  /** CSR::do_cdlp: what it returns is what some schedule of the threads ends with. */
  method Cdlp(g: Graph, maxIterations: nat) returns (labels: array<nat>, ghost run: seq<Kernel>)
    requires WellFormed(g)
    ensures fresh(labels) && Ends(g, maxIterations, run) && labels[..] == Returned(run)
    ensures exists k: nat :: k <= maxIterations && labels[..] == Iterate(g, k)
  {
    hide *;
    IdsLength(g);
    labels := new nat[g.n](i requires 0 <= i < g.n => g.ids[i]);
    var next := new nat[g.n](_ => 0);
    assert labels[..] == g.ids;
    var change, k := true, 0;
    run := Begin(g, maxIterations, next[..]);
    while k < maxIterations && change
      invariant fresh(labels) && fresh(next) && labels != next && labels.Length == g.n && next.Length == g.n
      invariant k <= maxIterations && labels[..] == Iterate(g, k)
      invariant Reached(g, maxIterations, run, Idle(labels[..], next[..], k, change))
    {
      IterateOnce(g, k);
      change, run := Pass(g, labels, next, maxIterations, k, run);
      labels, next := next, labels;
      k := k + 1;
    }
    End(g, maxIterations, run, labels[..], next[..], k, change);
  }

  lemma Begin(g: Graph, max: nat, next: Labels) returns (run: seq<Kernel>)
    requires WellFormed(g) && |next| == g.n
    ensures Reached(g, max, run, Idle(g.ids, next, 0, true))
  {
    hide WellFormed;
    run := [Idle(g.ids, next, 0, true)];
    StartIsReached(g, max, run[0]);
  }

  lemma End(g: Graph, max: nat, run: seq<Kernel>, labels: Labels, next: Labels, k: nat, change: bool)
    requires WellFormed(g) && Reached(g, max, run, Idle(labels, next, k, change)) && (k >= max || !change)
    ensures Ends(g, max, run) && Returned(run) == labels
  {
    hide WellFormed, Next, Starts;
  }

  lemma IdsLength(g: Graph)
    requires WellFormed(g)
    ensures |g.ids| == g.n && Iterate(g, 0) == g.ids
  {
  }
}
