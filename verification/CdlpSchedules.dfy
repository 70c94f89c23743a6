/**
 When the racy flag of the label propagation does harm. A thread that reads the flag before another one raises
 it, and writes it back afterwards, lowers it again, so the loop may stop too early. The threads run chunks of
 consecutive vertices in order; there are as many threads as chunks.
 */
module CdlpSchedules {
  import opened Csr
  import opened Ranges
  import opened Votes
  import opened Sequences
  import opened Cdlp

  // ----- which vertices keep their label, by chunks

  ghost predicate Keeps(g: Graph, labels: Labels, v: nat)
    requires WellFormed(g) && |labels| == g.n
  {
    v < g.n && labels[v] == Elected(g, labels, v)
  }

  predicate IsFirst(v: nat)
  {
    forall u: nat :: u < v ==> !SameChunk(u, v)
  }

  predicate IsLast(n: nat, v: nat)
  {
    v < n && forall u: nat :: v < u < n ==> !SameChunk(u, v)
  }

  ghost predicate SomeStartKeeps(g: Graph, labels: Labels)
    requires WellFormed(g) && |labels| == g.n
  {
    exists v :: Keeps(g, labels, v) && IsFirst(v)
  }

  ghost predicate SomeEndKeeps(g: Graph, labels: Labels)
    requires WellFormed(g) && |labels| == g.n
  {
    exists v :: Keeps(g, labels, v) && IsLast(g.n, v)
  }

  ghost predicate TwoChunksKeep(g: Graph, labels: Labels)
    requires WellFormed(g) && |labels| == g.n
  {
    exists u, v :: Keeps(g, labels, u) && Keeps(g, labels, v) && !SameChunk(u, v)
  }

  ghost predicate ChunkKeeps(g: Graph, labels: Labels, v: nat)
    requires WellFormed(g) && |labels| == g.n
  {
    v < g.n && forall u: nat :: u < g.n && SameChunk(u, v) ==> Keeps(g, labels, u)
  }

  /**
   In an iteration from these labels the flag can be lost: a whole chunk keeps its labels, or vertices of two chunks do,
   among them the first of some chunk and the last of some chunk.
   */
  ghost predicate CanLose(g: Graph, labels: Labels)
    requires WellFormed(g) && |labels| == g.n
  {
    || (exists v :: ChunkKeeps(g, labels, v))
    || (SomeStartKeeps(g, labels) && SomeEndKeeps(g, labels) && TwoChunksKeep(g, labels))
  }

  lemma {:induction false} LastOfChunk(n: nat, v: nat) returns (u: nat)
    requires v < n
    ensures v <= u && SameChunk(u, v) && IsLast(n, u)
    decreases n - v
  {
    if v + 1 < n && SameChunk(v + 1, v) {
      u := LastOfChunk(n, v + 1);
    } else {
      u := v;
    }
  }

  // ----- what every schedule keeps

  /** The vertex has been run and its write of the flag is done. */
  predicate Over(s: Kernel, v: nat)
  {
    v !in s.left && v !in s.pending
  }

  /** Each thread runs its chunk in order, and what it will write is false only if its vertex keeps its label. */
  ghost predicate ChunksOk(g: Graph, s: Kernel)
    requires WellFormed(g) && |s.labels| == |s.next| == g.n
  {
    && (forall v: nat :: v < g.n && v !in s.left ==> s.next[v] == Elected(g, s.labels, v))
    && (forall v :: v in s.left || v in s.pending ==> v < g.n)
    && (forall v :: v in s.pending ==> v !in s.left && (s.pending[v] || Keeps(g, s.labels, v)))
    && (forall u: nat, v: nat :: u < v < g.n && SameChunk(u, v) && !Over(s, u) ==> v in s.left)
  }

  /** If every chunk starts with a vertex that changes its label, nothing false is ever read. */
  ghost predicate StartOk(g: Graph, s: Kernel)
    requires WellFormed(g) && |s.labels| == g.n
  {
    !SomeStartKeeps(g, s.labels) ==>
      && (forall v :: v in s.pending ==> s.pending[v])
      && (s.change || forall v: nat :: v < g.n ==> !Over(s, v))
  }

  /** If every chunk ends with one, a chunk that is not finished will still raise the flag. */
  ghost predicate EndOk(g: Graph, s: Kernel)
    requires WellFormed(g) && |s.labels| == g.n
  {
    !SomeEndKeeps(g, s.labels) && g.n > 0 ==> s.change || exists v :: IsLast(g.n, v) && !Over(s, v)
  }

  /** A vertex that changes its label, in the only chunk in which any vertex keeps it. */
  ghost predicate Dominates(g: Graph, labels: Labels, d: nat)
    requires WellFormed(g) && |labels| == g.n
  {
    d < g.n && !Keeps(g, labels, d) && forall u :: Keeps(g, labels, u) ==> SameChunk(u, d)
  }

  /** Once it is over, nobody can lower the flag. */
  ghost predicate OnlyChunkOk(g: Graph, s: Kernel)
    requires WellFormed(g) && |s.labels| == g.n
  {
    forall d :: Dominates(g, s.labels, d) && Over(s, d) ==> s.change && forall v :: v in s.pending ==> s.pending[v]
  }

  ghost predicate LoopOk(g: Graph, s: Kernel)
    requires WellFormed(g) && |s.labels| == |s.next| == g.n
  {
    ChunksOk(g, s) && StartOk(g, s) && EndOk(g, s) && OnlyChunkOk(g, s)
  }

  ghost predicate RunOk(g: Graph, max: nat, s: Kernel)
    requires WellFormed(g)
  {
    && |s.labels| == |s.next| == g.n
    && s.iteration <= max && s.labels == Iterate(g, s.iteration)
    && if s.busy then s.iteration < max && LoopOk(g, s)
       else s.change || (s.iteration > 0 && (g.n == 0 || CanLose(g, Iterate(g, s.iteration - 1))))
  }

  lemma EntersOk(g: Graph, max: nat, a: Kernel, b: Kernel)
    requires WellFormed(g) && |a.labels| == |a.next| == g.n && Enters(g, max, a, b)
    ensures LoopOk(g, b)
  {
    hide WellFormed, Elected, SomeStartKeeps, SomeEndKeeps, Keeps;
    if g.n > 0 {
      var v := LastOfChunk(g.n, 0);
      assert IsLast(g.n, v) && !Over(b, v);
    }
    hide IsLast;
  }

  lemma ComputesKeepsChunks(g: Graph, a: Kernel, v: nat, b: Kernel)
    requires WellFormed(g) && |a.labels| == |a.next| == g.n && ChunksOk(g, a) && Computes(g, a, v, b)
    ensures ChunksOk(g, b)
  {
    hide WellFormed, Elected, SameChunk;
  }

  lemma ComputesKeepsOver(g: Graph, a: Kernel, v: nat, b: Kernel)
    requires WellFormed(g) && |a.labels| == g.n && Computes(g, a, v, b) && EndOk(g, a) && OnlyChunkOk(g, a)
    ensures EndOk(g, b) && OnlyChunkOk(g, b)
  {
    assert b.change == a.change && b.labels == a.labels;
    assert forall u :: Over(b, u) <==> Over(a, u);
    hide WellFormed, Elected, SomeEndKeeps, Dominates, Keeps, IsLast;
  }

  lemma ComputesKeepsStart(g: Graph, a: Kernel, v: nat, b: Kernel)
    requires WellFormed(g) && |a.labels| == g.n && Computes(g, a, v, b) && StartOk(g, a)
    ensures StartOk(g, b)
  {
    assert forall u :: Over(b, u) <==> Over(a, u);
    assert b.change == a.change && b.labels == a.labels;
    if !SomeStartKeeps(g, a.labels) {
      if !IsFirst(v) {
        var u: nat :| u < v && SameChunk(u, v);
        assert Over(a, u);
      } else {
        assert !Keeps(g, a.labels, v);
      }
    }
    hide WellFormed, Elected, SomeStartKeeps, Keeps, SameChunk, IsFirst;
  }

  lemma StoresKeepsChunks(g: Graph, a: Kernel, v: nat, b: Kernel)
    requires WellFormed(g) && |a.labels| == |a.next| == g.n && ChunksOk(g, a) && Stores(a, v, b)
    ensures ChunksOk(g, b)
  {
    hide WellFormed, Elected, SameChunk;
  }

  lemma StoresKeepsStart(g: Graph, a: Kernel, v: nat, b: Kernel)
    requires WellFormed(g) && |a.labels| == |a.next| == g.n && StartOk(g, a) && Stores(a, v, b)
    ensures StartOk(g, b)
  {
    hide WellFormed, SomeStartKeeps;
  }

  lemma StoresKeepsEnd(g: Graph, a: Kernel, v: nat, b: Kernel)
    requires WellFormed(g) && |a.labels| == |a.next| == g.n && ChunksOk(g, a) && Stores(a, v, b)
    ensures EndOk(g, b)
  {
    hide WellFormed, Elected, SameChunk;
    if !b.change && !SomeEndKeeps(g, a.labels) {
      assert Keeps(g, a.labels, v);
      var u := LastOfChunk(g.n, v);
      LastIsLeft(g, a, v, u);
      hide *;
      StillLeft(a, v, b, u);
      EndIntro(g, b, u);
    }
  }

  lemma LastIsLeft(g: Graph, a: Kernel, v: nat, u: nat)
    requires WellFormed(g) && |a.labels| == |a.next| == g.n && ChunksOk(g, a) && v in a.pending
    requires !SomeEndKeeps(g, a.labels) && Keeps(g, a.labels, v) && v <= u && SameChunk(u, v) && IsLast(g.n, u)
    ensures u in a.left
  {
    hide WellFormed, Elected;
    assert u != v && !Over(a, v) && SameChunk(v, u);
  }

  lemma StillLeft(a: Kernel, v: nat, b: Kernel, u: nat)
    requires Stores(a, v, b) && u in a.left
    ensures !Over(b, u)
  {
  }

  lemma EndIntro(g: Graph, s: Kernel, u: nat)
    requires WellFormed(g) && |s.labels| == g.n && IsLast(g.n, u) && !Over(s, u)
    ensures EndOk(g, s)
  {
    hide WellFormed, SomeEndKeeps, IsLast;
  }

  lemma StoresKeepsOnly(g: Graph, a: Kernel, v: nat, b: Kernel)
    requires WellFormed(g) && |a.labels| == |a.next| == g.n && ChunksOk(g, a) && OnlyChunkOk(g, a) && Stores(a, v, b)
    ensures OnlyChunkOk(g, b)
  {
    hide WellFormed, Elected;
    forall d | Dominates(g, b.labels, d) && Over(b, d)
      ensures b.change && forall u :: u in b.pending ==> b.pending[u]
    {
      if d == v {
        forall u | u in b.pending ensures b.pending[u] {
          assert !Over(a, u) && !Over(a, v);
        }
      } else {
        assert Over(a, d);
      }
    }
  }

  /** If the flag cannot be lost, it is raised at the end. */
  lemma LoopEnds(g: Graph, s: Kernel)
    requires WellFormed(g) && |s.labels| == |s.next| == g.n && LoopOk(g, s) && s.left == {} && s.pending == map[]
    ensures s.next == Step(g, s.labels)
    ensures s.change || g.n == 0 || CanLose(g, s.labels)
  {
    hide WellFormed, Elected;
    assert forall v :: Over(s, v);
    if g.n > 0 && !CanLose(g, s.labels) {
      if SomeStartKeeps(g, s.labels) && SomeEndKeeps(g, s.labels) {
        var d := SomeDominates(g, s.labels);
      } else {
        assert Over(s, 0);
      }
    }
  }

  lemma SomeDominates(g: Graph, labels: Labels) returns (d: nat)
    requires WellFormed(g) && |labels| == g.n > 0 && !TwoChunksKeep(g, labels) && !exists v :: ChunkKeeps(g, labels, v)
    ensures Dominates(g, labels, d)
  {
    hide WellFormed, Elected, SameChunk;
    if k :| Keeps(g, labels, k) {
      assert !ChunkKeeps(g, labels, k);
      d :| d < g.n && SameChunk(d, k) && !Keeps(g, labels, d);
      forall u | Keeps(g, labels, u) ensures SameChunk(u, d) {
        assert SameChunk(u, k);
        SameChunkTransitive(u, k, d);
      }
    } else {
      d := 0;
    }
  }

  lemma SameChunkTransitive(u: nat, k: nat, d: nat)
    requires SameChunk(u, k) && SameChunk(d, k)
    ensures SameChunk(u, d)
  {
  }

  lemma LeavesKeeps(g: Graph, max: nat, a: Kernel, b: Kernel)
    requires WellFormed(g) && RunOk(g, max, a) && Leaves(a, b)
    ensures RunOk(g, max, b)
  {
    hide WellFormed, Iterate, Step, LoopOk, CanLose;
    IterateOnce(g, a.iteration);
    LoopEnds(g, a);
  }

  lemma ComputesKeeps(g: Graph, a: Kernel, v: nat, b: Kernel)
    requires WellFormed(g) && |a.labels| == |a.next| == g.n && LoopOk(g, a) && Computes(g, a, v, b)
    ensures |b.labels| == |b.next| == g.n && LoopOk(g, b)
  {
    hide WellFormed, Elected, ChunksOk, StartOk, EndOk, OnlyChunkOk;
    ComputesKeepsChunks(g, a, v, b);
    ComputesKeepsStart(g, a, v, b);
    ComputesKeepsOver(g, a, v, b);
  }

  lemma StoresKeeps(g: Graph, a: Kernel, v: nat, b: Kernel)
    requires WellFormed(g) && |a.labels| == |a.next| == g.n && LoopOk(g, a) && Stores(a, v, b)
    ensures |b.labels| == |b.next| == g.n && LoopOk(g, b)
  {
    hide WellFormed, Elected, ChunksOk, StartOk, EndOk, OnlyChunkOk;
    StoresKeepsChunks(g, a, v, b);
    StoresKeepsStart(g, a, v, b);
    StoresKeepsEnd(g, a, v, b);
    StoresKeepsOnly(g, a, v, b);
  }

  lemma NextKeeps(g: Graph, max: nat, a: Kernel, b: Kernel)
    requires WellFormed(g) && RunOk(g, max, a) && Next(g, max, a, b)
    ensures RunOk(g, max, b)
  {
    hide WellFormed, Elected, Iterate, CanLose, LoopOk;
    if Enters(g, max, a, b) {
      EntersOk(g, max, a, b);
    } else if Leaves(a, b) {
      LeavesKeeps(g, max, a, b);
    } else if v :| Computes(g, a, v, b) {
      ComputesKeeps(g, a, v, b);
    } else {
      var v :| Stores(a, v, b);
      StoresKeeps(g, a, v, b);
    }
  }

  lemma {:induction false} ScheduleKeeps(g: Graph, max: nat, run: seq<Kernel>)
    requires WellFormed(g) && Schedule(g, max, run)
    ensures RunOk(g, max, Last(run))
  {
    hide WellFormed, Next;
    if |run| == 1 {
      IdsLength(g);
    } else {
      var front := run[..|run| - 1];
      assert Next(g, max, run[|run| - 2], run[|run| - 2 + 1]);
      hide RunOk;
      ScheduleKeeps(g, max, front);
      NextKeeps(g, max, Last(front), Last(run));
    }
  }

  // ----- schedules that go on, and some that do not

  ghost predicate Differs(g: Graph, labels: Labels, some: set<nat>)
    requires WellFormed(g) && |labels| == g.n
  {
    exists v :: v in some && v < g.n && !Keeps(g, labels, v)
  }

  /** Inside the loop, with the labels of the vertices that were run. */
  function Loop(labels: Labels, next: Labels, k: nat, change: bool, left: set<nat>, pending: Pending): Kernel
  {
    Kernel(labels, next, k, change, true, left, pending)
  }

  ghost predicate NextOk(g: Graph, labels: Labels, next: Labels, left: set<nat>)
    requires WellFormed(g)
  {
    && |labels| == |next| == g.n && left <= UpTo(g.n)
    && forall v: nat :: v < g.n && v !in left ==> next[v] == Elected(g, labels, v)
  }

  /** These vertices can run now: they have no predecessor in their chunks that is still to come, but themselves. */
  ghost predicate Runnable(left: set<nat>, pending: Pending, some: set<nat>)
  {
    && some <= left
    && (forall v, u :: v in some && u in left && u < v && SameChunk(u, v) ==> u in some)
    && forall v, u :: v in some && u in pending ==> !SameChunk(u, v)
  }

  lemma EnterPass(g: Graph, max: nat, run: seq<Kernel>, labels: Labels, next: Labels, k: nat)
    returns (run': seq<Kernel>)
    requires WellFormed(g) && Reached(g, max, run, Idle(labels, next, k, true)) && k < max && |labels| == |next| == g.n
    ensures Reached(g, max, run', Loop(labels, next, k, false, UpTo(g.n), map[])) && NextOk(g, labels, next, UpTo(g.n))
  {
    hide WellFormed, Reached, Next;
    EnterStep(g, max, Idle(labels, next, k, true));
    Cdlp.Extend(g, max, run, Idle(labels, next, k, true), Loop(labels, next, k, false, UpTo(g.n), map[]));
    run' := run + [Loop(labels, next, k, false, UpTo(g.n), map[])];
  }

  lemma Read(g: Graph, max: nat, run: seq<Kernel>, labels: Labels, next: Labels, k: nat, change: bool, left: set<nat>,
      pending: Pending, v: nat)
    returns (run': seq<Kernel>, next': Labels)
    requires WellFormed(g) && Reached(g, max, run, Loop(labels, next, k, change, left, pending))
    requires NextOk(g, labels, next, left) && v in left && Ready(left, pending, v)
    ensures NextOk(g, labels, next', left - {v})
    ensures Reached(g, max, run',
                    Loop(labels, next', k, change, left - {v}, pending[v := change || !Keeps(g, labels, v)]))
  {
    hide WellFormed, Reached, Elected, Next, Ready;
    var a := Loop(labels, next, k, change, left, pending);
    assert v < g.n;
    ComputeStep(g, max, a, v);
    next' := next[v := Elected(g, labels, v)];
    var b := Loop(labels, next', k, change, left - {v}, pending[v := change || !Keeps(g, labels, v)]);
    Cdlp.Extend(g, max, run, a, b);
    run' := run + [b];
  }

  lemma Write(g: Graph, max: nat, run: seq<Kernel>, labels: Labels, next: Labels, k: nat, change: bool, left: set<nat>,
      pending: Pending, v: nat)
    returns (run': seq<Kernel>)
    requires WellFormed(g) && Reached(g, max, run, Loop(labels, next, k, change, left, pending)) && v in pending
    ensures Reached(g, max, run', Loop(labels, next, k, pending[v], left, pending - {v}))
  {
    hide WellFormed, Reached, Next;
    run' := StoreFlag(g, max, run, Loop(labels, next, k, change, left, pending), v);
  }

  lemma LeastIsReady(left: set<nat>, pending: Pending, some: set<nat>, v: nat)
    requires Runnable(left, pending, some) && v in some && forall u: nat :: u in some ==> v <= u
    ensures v in left && Ready(left, pending, v) && v !in pending
    ensures Runnable(left - {v}, pending, some - {v})
  {
    assert v in pending ==> !SameChunk(v, v);
  }

  /** The vertices in `some` run one after the other, each writing the flag at once. */
  lemma {:induction false} RunSome(g: Graph, max: nat, run: seq<Kernel>, labels: Labels, next: Labels, k: nat,
      change: bool, left: set<nat>, pending: Pending, some: set<nat>)
    returns (run': seq<Kernel>, next': Labels)
    requires WellFormed(g) && Reached(g, max, run, Loop(labels, next, k, change, left, pending))
    requires NextOk(g, labels, next, left) && Runnable(left, pending, some)
    ensures NextOk(g, labels, next', left - some)
    ensures Reached(g, max, run',
                    Loop(labels, next', k, change || Differs(g, labels, some), left - some, pending))
    decreases |some|
  {
    hide WellFormed, Reached, NextOk, Runnable, Ready, Keeps;
    SizesOf(g, labels, next, left);
    if some == {} {
      assert left - some == left;
      run', next' := run, next;
    } else {
      var v := Least(some);
      LeastIsReady(left, pending, some, v);
      run', next' := Read(g, max, run, labels, next, k, change, left, pending, v);
      var after := change || !Keeps(g, labels, v);
      run' := Write(g, max, run', labels, next', k, change, left - {v}, pending[v := after], v);
      assert pending[v := after] - {v} == pending;
      run', next' := RunSome(g, max, run', labels, next', k, after, left - {v}, pending, some - {v});
      assert left - {v} - (some - {v}) == left - some;
      OneOrOthers(g, labels, some, v);
    }
  }

  lemma SizesOf(g: Graph, labels: Labels, next: Labels, left: set<nat>)
    requires WellFormed(g) && NextOk(g, labels, next, left)
    ensures |labels| == |next| == g.n && forall v :: v in left ==> v < g.n
  {
    hide WellFormed, Elected;
  }

  lemma OneOrOthers(g: Graph, labels: Labels, some: set<nat>, v: nat)
    requires WellFormed(g) && |labels| == g.n && v in some && v < g.n
    ensures Differs(g, labels, some) <==> !Keeps(g, labels, v) || Differs(g, labels, some - {v})
  {
    hide WellFormed, Keeps;
  }

  lemma NextIsStep(g: Graph, labels: Labels, next: Labels)
    requires WellFormed(g) && NextOk(g, labels, next, {})
    ensures |labels| == g.n && next == Step(g, labels)
  {
    hide WellFormed, Elected;
  }

  lemma Leave(g: Graph, max: nat, run: seq<Kernel>, labels: Labels, next: Labels, k: nat, change: bool)
    returns (run': seq<Kernel>)
    requires WellFormed(g) && Reached(g, max, run, Loop(labels, next, k, change, {}, map[]))
    requires NextOk(g, labels, next, {})
    ensures Reached(g, max, run', Idle(Step(g, labels), labels, k + 1, change))
  {
    hide WellFormed, Reached, NextOk, Step, Elected;
    NextIsStep(g, labels, next);
    run' := EndPass(g, max, run, Loop(labels, next, k, change, {}, map[]));
  }

  lemma StepDiffers(g: Graph, labels: Labels)
    requires WellFormed(g) && |labels| == g.n && Step(g, labels) != labels
    ensures Differs(g, labels, UpTo(g.n))
  {
    hide WellFormed, Elected;
    var v: nat :| v < g.n && Step(g, labels)[v] != labels[v];
    assert v in UpTo(g.n) && !Keeps(g, labels, v);
  }

  /** An iteration that runs its vertices in turn notices a change. */
  lemma PassGoesOn(g: Graph, max: nat, run: seq<Kernel>, labels: Labels, next: Labels, k: nat)
    returns (run': seq<Kernel>)
    requires WellFormed(g) && |labels| == |next| == g.n && Reached(g, max, run, Idle(labels, next, k, true))
    requires k < max && Step(g, labels) != labels
    ensures Reached(g, max, run', Idle(Step(g, labels), labels, k + 1, true))
  {
    hide *;
    run' := EnterPass(g, max, run, labels, next, k);
    AllRunnable(g.n);
    var next';
    run', next' := RunSome(g, max, run', labels, next, k, false, UpTo(g.n), map[], UpTo(g.n));
    StepDiffers(g, labels);
    assert UpTo(g.n) - UpTo(g.n) == {};
    run' := Leave(g, max, run', labels, next', k, true);
  }

  lemma AllRunnable(n: nat)
    ensures Runnable(UpTo(n), map[], UpTo(n))
  {
  }

  // ----- how the flag is lost

  function ChunkOf(n: nat, v: nat): set<nat>
  {
    set u | u in UpTo(n) && SameChunk(u, v)
  }

  /** `v`, which keeps its label, reads the lowered flag, is overtaken by `some`, and lowers the flag again. */
  lemma Overtake(g: Graph, max: nat, run: seq<Kernel>, labels: Labels, next: Labels, k: nat, left: set<nat>, v: nat,
      some: set<nat>, rest: set<nat>)
    returns (run': seq<Kernel>, next': Labels)
    requires WellFormed(g) && Reached(g, max, run, Loop(labels, next, k, false, left, map[]))
    requires NextOk(g, labels, next, left) && v in left && Ready(left, map[], v) && Keeps(g, labels, v)
    requires Runnable(left - {v}, map[v := false], some) && rest == left - {v} - some
    ensures Reached(g, max, run', Loop(labels, next', k, false, rest, map[])) && NextOk(g, labels, next', rest)
  {
    SizesOf(g, labels, next, left);
    hide *;
    run', next' := Read(g, max, run, labels, next, k, false, left, map[], v);
    assert map[][v := false] == map[v := false] && map[v := false] - {v} == map[];
    run', next' := RunSome(g, max, run', labels, next', k, false, left - {v}, map[v := false], some);
    run' := Write(g, max, run', labels, next', k, Differs(g, labels, some), rest, map[v := false], v);
  }

  /** A chunk that keeps its labels: its last vertex is overtaken by all other chunks. */
  lemma WholeChunk(g: Graph, max: nat, run: seq<Kernel>, labels: Labels, next: Labels, k: nat, v: nat)
    returns (run': seq<Kernel>)
    requires WellFormed(g) && |labels| == |next| == g.n && ChunkKeeps(g, labels, v)
    requires Reached(g, max, run, Loop(labels, next, k, false, UpTo(g.n), map[])) && NextOk(g, labels, next, UpTo(g.n))
    ensures Reached(g, max, run', Idle(Step(g, labels), labels, k + 1, false))
  {
    hide *;
    ChunkVertex(g, labels, v);
    var l := LastOfChunk(g.n, v);
    var all, before, others := UpTo(g.n), ChunkOf(g.n, v) - {l}, UpTo(g.n) - ChunkOf(g.n, v);
    WholeChunkSets(g, labels, v, l);
    var next';
    run', next' := RunSome(g, max, run, labels, next, k, false, all, map[], before);
    assert others - others == {};
    run', next' := Overtake(g, max, run', labels, next', k, all - before, l, others, {});
    run' := Leave(g, max, run', labels, next', k, false);
  }

  lemma ChunkVertex(g: Graph, labels: Labels, v: nat)
    requires WellFormed(g) && |labels| == g.n && ChunkKeeps(g, labels, v)
    ensures v < g.n
  {
  }

  lemma WholeChunkSets(g: Graph, labels: Labels, v: nat, l: nat)
    requires WellFormed(g) && |labels| == g.n && ChunkKeeps(g, labels, v) && SameChunk(l, v) && IsLast(g.n, l)
    ensures var all, before, others := UpTo(g.n), ChunkOf(g.n, v) - {l}, UpTo(g.n) - ChunkOf(g.n, v);
      && Runnable(all, map[], before) && !Differs(g, labels, before)
      && l in all - before && Ready(all - before, map[], l) && Keeps(g, labels, l)
      && all - before - {l} == others && Runnable(others, map[l := false], others)
  {
    hide WellFormed, Elected;
    var all, before := UpTo(g.n), ChunkOf(g.n, v) - {l};
    assert Keeps(g, labels, l);
    forall u | u in before ensures Keeps(g, labels, u) {}
    forall w, u | w in before && u in all && u < w && SameChunk(u, w) ensures u in before {
      assert !SameChunk(w, l) || w < l;
    }
    hide Keeps;
  }

  /** The other chunks up to `e` overtake the first vertex `b` of a chunk, and the rest of that chunk overtakes `e`. */
  lemma FirstAndLast(g: Graph, max: nat, run: seq<Kernel>, labels: Labels, next: Labels, k: nat, b: nat, e: nat)
    returns (run': seq<Kernel>)
    requires WellFormed(g) && |labels| == |next| == g.n && Keeps(g, labels, b) && IsFirst(b)
    requires Keeps(g, labels, e) && IsLast(g.n, e) && !SameChunk(b, e)
    requires Reached(g, max, run, Loop(labels, next, k, false, UpTo(g.n), map[])) && NextOk(g, labels, next, UpTo(g.n))
    ensures Reached(g, max, run', Idle(Step(g, labels), labels, k + 1, false))
  {
    hide *;
    KeepsInRange(g, labels, b);
    var all, rest := UpTo(g.n), ChunkOf(g.n, b) - {b};
    FirstAndLastSets(g.n, b, e);
    var next';
    run', next' := Overtake(g, max, run, labels, next, k, all, b, all - ChunkOf(g.n, b) - {e}, rest + {e});
    assert rest - rest == {};
    run', next' := Overtake(g, max, run', labels, next', k, rest + {e}, e, rest, {});
    run' := Leave(g, max, run', labels, next', k, false);
  }

  lemma KeepsInRange(g: Graph, labels: Labels, v: nat)
    requires WellFormed(g) && |labels| == g.n && Keeps(g, labels, v)
    ensures v < g.n
  {
  }

  lemma FirstAndLastSets(n: nat, b: nat, e: nat)
    requires b < n && IsFirst(b) && IsLast(n, e) && !SameChunk(b, e)
    ensures var all, rest, others := UpTo(n), ChunkOf(n, b) - {b}, UpTo(n) - ChunkOf(n, b) - {e};
      && b in all && Ready(all, map[], b)
      && Runnable(all - {b}, map[b := false], others) && all - {b} - others == rest + {e}
      && Ready(rest + {e}, map[], e) && rest + {e} - {e} == rest
      && Runnable(rest, map[e := false], rest)
  {
    var all, rest, others := UpTo(n), ChunkOf(n, b) - {b}, UpTo(n) - ChunkOf(n, b) - {e};
    assert b in ChunkOf(n, b) && e in all && e !in ChunkOf(n, b);
    NothingAfterLast(n, e);
    forall v, u | v in others && u in all - {b} && u < v && SameChunk(u, v) ensures u in others {}
  }

  lemma NothingAfterLast(n: nat, e: nat)
    requires IsLast(n, e)
    ensures forall v: nat :: e < v < n ==> !SameChunk(e, v)
  {
    forall v: nat | e < v < n ensures !SameChunk(e, v) { assert !SameChunk(v, e); }
  }

  /** Two ends of one chunk and a vertex `c` of another one overtake each other in turn. */
  lemma BothEnds(g: Graph, max: nat, run: seq<Kernel>, labels: Labels, next: Labels, k: nat, b: nat, e: nat, c: nat)
    returns (run': seq<Kernel>)
    requires WellFormed(g) && |labels| == |next| == g.n && Keeps(g, labels, b) && IsFirst(b)
    requires Keeps(g, labels, e) && IsLast(g.n, e) && SameChunk(b, e) && b != e
    requires Keeps(g, labels, c) && !SameChunk(c, b)
    requires Reached(g, max, run, Loop(labels, next, k, false, UpTo(g.n), map[])) && NextOk(g, labels, next, UpTo(g.n))
    ensures Reached(g, max, run', Idle(Step(g, labels), labels, k + 1, false))
  {
    KeepsInRange(g, labels, b);
    KeepsInRange(g, labels, c);
    assert Ends3(g.n, b, e, c);
    hide *;
    var all, middle, after := UpTo(g.n), ChunkOf(g.n, b) - {b, e}, After(g.n, c);
    var others := all - ChunkOf(g.n, b) - after - {c};
    BothEndsSets(g.n, b, e, c);
    var next';
    run', next' := Overtake(g, max, run, labels, next, k, all, b, others, middle + {e} + after + {c});
    run', next' := Overtake(g, max, run', labels, next', k, middle + {e} + after + {c}, c, middle, {e} + after);
    assert after - after == {};
    run', next' := Overtake(g, max, run', labels, next', k, {e} + after, e, after, {});
    run' := Leave(g, max, run', labels, next', k, false);
  }

  /** The vertices of a chunk after `c`. */
  function After(n: nat, c: nat): set<nat>
  {
    set u | u in UpTo(n) && SameChunk(u, c) && u > c
  }

  ghost predicate Ends3(n: nat, b: nat, e: nat, c: nat)
  {
    b < n && c < n && IsFirst(b) && IsLast(n, e) && SameChunk(b, e) && b != e && !SameChunk(c, b)
  }

  lemma BothEndsSets(n: nat, b: nat, e: nat, c: nat)
    requires Ends3(n, b, e, c)
    ensures var all, middle, after := UpTo(n), ChunkOf(n, b) - {b, e}, After(n, c);
      var others := all - ChunkOf(n, b) - after - {c};
      && b in all && Ready(all, map[], b)
      && Runnable(all - {b}, map[b := false], others) && all - {b} - others == middle + {e} + after + {c}
      && Ready(middle + {e} + after + {c}, map[], c) && middle + {e} + after + {c} - {c} == middle + {e} + after
      && Runnable(middle + {e} + after, map[c := false], middle) && middle + {e} + after - middle == {e} + after
      && Ready({e} + after, map[], e) && {e} + after - {e} == after && Runnable(after, map[e := false], after)
  {
    hide *;
    OthersRun(n, b, e, c);
    MiddleRuns(n, b, e, c);
    AfterRuns(n, b, e, c);
  }

  lemma OthersRun(n: nat, b: nat, e: nat, c: nat)
    requires Ends3(n, b, e, c)
    ensures var all, middle, after := UpTo(n), ChunkOf(n, b) - {b, e}, After(n, c);
      var others := all - ChunkOf(n, b) - after - {c};
      && b in all && Ready(all, map[], b)
      && Runnable(all - {b}, map[b := false], others) && all - {b} - others == middle + {e} + after + {c}
  {
    assert b in UpTo(n) && Ready(UpTo(n), map[], b);
    hide *;
    OthersRunnable(n, b, c);
    OthersRest(n, b, e, c);
  }

  lemma OthersRunnable(n: nat, b: nat, c: nat)
    requires b < n
    ensures Runnable(UpTo(n) - {b}, map[b := false], UpTo(n) - ChunkOf(n, b) - After(n, c) - {c})
  {
    hide ChunkOf, After, SameChunk;
    var all, others := UpTo(n), UpTo(n) - ChunkOf(n, b) - After(n, c) - {c};
    forall v, u | v in others && u in all - {b} && u < v && SameChunk(u, v) ensures u in others {
      OthersClosed(n, b, c, v, u);
    }
    forall v | v in others ensures !SameChunk(b, v) && v != b { NotInChunk(n, b, v); }
  }

  lemma NotInChunk(n: nat, b: nat, v: nat)
    requires b < n && v < n && v !in ChunkOf(n, b)
    ensures !SameChunk(b, v) && v != b
  {
  }

  lemma OthersClosed(n: nat, b: nat, c: nat, v: nat, u: nat)
    requires v < n && u < v && SameChunk(u, v) && v !in ChunkOf(n, b) && v !in After(n, c) && v != c
    ensures u !in ChunkOf(n, b) && u !in After(n, c) && u != c
  {
  }

  lemma OthersRest(n: nat, b: nat, e: nat, c: nat)
    requires Ends3(n, b, e, c)
    ensures var all, middle, after := UpTo(n), ChunkOf(n, b) - {b, e}, After(n, c);
      all - {b} - (all - ChunkOf(n, b) - after - {c}) == middle + {e} + after + {c}
  {
    var all, chunk, after := UpTo(n), ChunkOf(n, b), After(n, c);
    assert b in chunk && e in chunk && b !in after && b != c;
    assert chunk <= all && after <= all && c in all;
    assert after !! chunk && c !in chunk && c !in after;
    hide *;
    RestOf(all, chunk, after, b, e, c);
  }

  lemma RestOf(all: set<nat>, chunk: set<nat>, after: set<nat>, b: nat, e: nat, c: nat)
    requires chunk <= all && after <= all && c in all && b in chunk && e in chunk && b != e
    requires after !! chunk && c !in chunk && c !in after
    ensures all - {b} - (all - chunk - after - {c}) == chunk - {b, e} + {e} + after + {c}
  {
  }

  lemma MiddleRuns(n: nat, b: nat, e: nat, c: nat)
    requires Ends3(n, b, e, c)
    ensures var middle, after := ChunkOf(n, b) - {b, e}, After(n, c);
      && Ready(middle + {e} + after + {c}, map[], c) && middle + {e} + after + {c} - {c} == middle + {e} + after
      && Runnable(middle + {e} + after, map[c := false], middle) && middle + {e} + after - middle == {e} + after
  {
    var middle, after := ChunkOf(n, b) - {b, e}, After(n, c);
    forall u | u in middle + {e} + after && u < c ensures !SameChunk(u, c) { MiddleApart(n, b, e, c, u); }
    forall v, u | v in middle && u in middle + {e} + after && u < v && SameChunk(u, v) ensures u in middle {
      MiddleClosed(n, b, e, c, v, u);
    }
    forall v | v in middle ensures !SameChunk(c, v) && v !in after && v != c { MiddleApart(n, b, e, c, v); }
    assert c !in middle + {e} && c !in after && e !in after;
    hide ChunkOf, After, SameChunk, Ends3;
  }

  lemma MiddleApart(n: nat, b: nat, e: nat, c: nat, u: nat)
    requires Ends3(n, b, e, c)
    ensures u in ChunkOf(n, b) ==> !SameChunk(u, c) && !SameChunk(c, u) && u !in After(n, c)
    ensures u in After(n, c) ==> u > c
  {
  }

  lemma MiddleClosed(n: nat, b: nat, e: nat, c: nat, v: nat, u: nat)
    requires Ends3(n, b, e, c) && v in ChunkOf(n, b) && u < v && SameChunk(u, v)
    ensures u !in After(n, c) && u != e
  {
    NothingAfterLast(n, e);
  }

  lemma AfterRuns(n: nat, b: nat, e: nat, c: nat)
    requires Ends3(n, b, e, c)
    ensures var after := After(n, c);
      Ready({e} + after, map[], e) && {e} + after - {e} == after && Runnable(after, map[e := false], after)
  {
    var after := After(n, c);
    assert forall u :: u in after ==> !SameChunk(u, e) && !SameChunk(e, u);
    assert e !in after by { assert SameChunk(e, e); }
  }

  lemma PassStops(g: Graph, max: nat, run: seq<Kernel>, labels: Labels, next: Labels, k: nat)
    returns (run': seq<Kernel>)
    requires WellFormed(g) && |labels| == |next| == g.n && Reached(g, max, run, Idle(labels, next, k, true))
    requires k < max && CanLose(g, labels)
    ensures Reached(g, max, run', Idle(Step(g, labels), labels, k + 1, false))
  {
    hide WellFormed, Reached, NextOk, Keeps, ChunkKeeps, SameChunk, IsFirst, IsLast, Elected, Step;
    run' := EnterPass(g, max, run, labels, next, k);
    if v :| ChunkKeeps(g, labels, v) {
      run' := WholeChunk(g, max, run', labels, next, k, v);
    } else {
      var b :| Keeps(g, labels, b) && IsFirst(b);
      var e :| Keeps(g, labels, e) && IsLast(g.n, e);
      if !SameChunk(b, e) {
        run' := FirstAndLast(g, max, run', labels, next, k, b, e);
      } else {
        var u, v :| Keeps(g, labels, u) && Keeps(g, labels, v) && !SameChunk(u, v);
        var c := if SameChunk(u, b) then v else u;
        if SameChunk(u, b) {
          OtherChunk(u, v, b);
        }
        OneVertexChunk(g, labels, b);
        run' := BothEnds(g, max, run', labels, next, k, b, e, c);
      }
    }
  }

  lemma OtherChunk(u: nat, v: nat, b: nat)
    requires !SameChunk(u, v) && SameChunk(u, b)
    ensures !SameChunk(v, b)
  {
  }

  lemma OneVertexChunk(g: Graph, labels: Labels, b: nat)
    requires WellFormed(g) && |labels| == g.n && Keeps(g, labels, b) && IsFirst(b) && !ChunkKeeps(g, labels, b)
    ensures !IsLast(g.n, b)
  {
    hide WellFormed, Elected;
    var u: nat :| u < g.n && SameChunk(u, b) && !Keeps(g, labels, u);
    assert u != b;
  }

  /** As long as labels change, some schedule goes on. */
  lemma {:induction false} SomeScheduleGoesOn(g: Graph, max: nat, k: nat) returns (run: seq<Kernel>, next: Labels)
    requires WellFormed(g) && k <= max && forall j: nat :: j < k ==> Iterate(g, j + 1) != Iterate(g, j)
    ensures |next| == g.n && Reached(g, max, run, Idle(Iterate(g, k), next, k, true))
  {
    IdsLength(g);
    hide WellFormed, Reached, Iterate, Elected, Step;
    if k == 0 {
      next := g.ids;
      run := Begin(g, max, next);
    } else {
      run, next := SomeScheduleGoesOn(g, max, k - 1);
      IterateOnce(g, k - 1);
      assert Iterate(g, k - 1 + 1) != Iterate(g, k - 1);
      run := PassGoesOn(g, max, run, Iterate(g, k - 1), next, k - 1);
      next := Iterate(g, k - 1);
    }
  }

  /** A schedule that returns the labels after iteration `k`, in which the flag can be lost. */
  lemma ScheduleThatStops(g: Graph, max: nat, k: nat) returns (run: seq<Kernel>)
    requires WellFormed(g) && k < max && (forall j: nat :: j < k ==> Iterate(g, j + 1) != Iterate(g, j))
    requires CanLose(g, Iterate(g, k))
    ensures Ends(g, max, run) && Returned(run) == Iterate(g, k + 1)
  {
    var next;
    run, next := SomeScheduleGoesOn(g, max, k);
    IterateOnce(g, k);
    hide WellFormed, Iterate, Elected, Step, Schedule, CanLose;
    run := PassStops(g, max, run, Iterate(g, k), next, k);
    End(g, max, run, Iterate(g, k + 1), Iterate(g, k), k + 1, false);
  }

  // ----- the exact condition

  /** Wherever the loop could be left too early its labels are final, or the flag cannot be lost. */
  ghost predicate Harmless(g: Graph, max: nat)
    requires WellFormed(g)
  {
    forall k: nat :: k + 1 < max ==> Iterate(g, k + 1) == Iterate(g, max) || !CanLose(g, Iterate(g, k))
  }

  ghost predicate Exact(g: Graph, max: nat, run: seq<Kernel>)
    requires WellFormed(g)
  {
    Ends(g, max, run) ==> Returned(run) == Iterate(g, max)
  }

  lemma ReturnedIs(g: Graph, max: nat, run: seq<Kernel>) returns (k: nat)
    requires WellFormed(g) && Ends(g, max, run)
    ensures k <= max && Returned(run) == Iterate(g, k)
    ensures k < max ==> k > 0 && (g.n == 0 || CanLose(g, Iterate(g, k - 1)))
  {
    ScheduleKeeps(g, max, run);
    hide WellFormed, Iterate, Schedule, CanLose, LoopOk;
    k := Last(run).iteration;
  }

  lemma HarmlessIsExact(g: Graph, max: nat, run: seq<Kernel>)
    requires WellFormed(g) && Harmless(g, max) && Ends(g, max, run)
    ensures Returned(run) == Iterate(g, max)
  {
    hide *;
    var k := ReturnedIs(g, max, run);
    if k < max {
      HarmlessStop(g, max, k - 1);
    }
  }

  lemma HarmlessStop(g: Graph, max: nat, k: nat)
    requires WellFormed(g) && Harmless(g, max) && k + 1 < max && (g.n == 0 || CanLose(g, Iterate(g, k)))
    ensures Iterate(g, k + 1) == Iterate(g, max)
  {
    hide WellFormed, Iterate, CanLose;
    if g.n == 0 {
      assert |Iterate(g, k + 1)| == 0 && |Iterate(g, max)| == 0;
    }
  }

  lemma NotYetStable(g: Graph, max: nat, k: nat)
    requires WellFormed(g) && k + 1 < max && Iterate(g, k + 1) != Iterate(g, max)
    ensures forall j: nat :: j < k ==> Iterate(g, j + 1) != Iterate(g, j)
  {
    hide WellFormed, Iterate;
    forall j: nat | j < k
      ensures Iterate(g, j + 1) != Iterate(g, j)
    {
      if Iterate(g, j + 1) == Iterate(g, j) {
        StableStays(g, j, max);
        StableStays(g, j, k + 1);
      }
    }
  }

  lemma HarmShows(g: Graph, max: nat, k: nat) returns (run: seq<Kernel>)
    requires WellFormed(g) && k + 1 < max && Iterate(g, k + 1) != Iterate(g, max) && CanLose(g, Iterate(g, k))
    ensures !Exact(g, max, run)
  {
    hide *;
    NotYetStable(g, max, k);
    run := ScheduleThatStops(g, max, k);
    NotExact(g, max, k + 1, run);
  }

  lemma NotExact(g: Graph, max: nat, k: nat, run: seq<Kernel>)
    requires WellFormed(g) && Ends(g, max, run) && Returned(run) == Iterate(g, k) && Iterate(g, k) != Iterate(g, max)
    ensures !Exact(g, max, run)
  {
    hide WellFormed, Iterate, Ends, Returned;
  }

  /**
   Every schedule returns the labels after `max` synchronous steps if and only if, for each earlier iteration, its
   labels are already the final ones or the flag cannot be lost in it.
   */
  lemma EveryScheduleIsExactIff(g: Graph, max: nat)
    requires WellFormed(g)
    ensures (forall run :: Exact(g, max, run)) <==> Harmless(g, max)
  {
    hide WellFormed, Iterate, Ends, Returned, CanLose;
    if Harmless(g, max) {
      forall run ensures Exact(g, max, run) {
        if Ends(g, max, run) {
          HarmlessIsExact(g, max, run);
        }
      }
    } else {
      var k: nat :| k + 1 < max && Iterate(g, k + 1) != Iterate(g, max) && CanLose(g, Iterate(g, k));
      var run := HarmShows(g, max, k);
    }
  }

  // ----- what a caller can check

  lemma KeepsIs(g: Graph, k: nat, v: nat)
    requires WellFormed(g) && v < g.n
    ensures Keeps(g, Iterate(g, k), v) <==> Iterate(g, k)[v] == Iterate(g, k + 1)[v]
  {
    IterateOnce(g, k);
    hide WellFormed, Elected, Iterate;
  }

  /** On a graph that fits in one chunk every schedule is exact. */
  lemma OneChunkIsExact(g: Graph, max: nat, run: seq<Kernel>)
    requires WellFormed(g) && g.n <= 64 && Ends(g, max, run)
    ensures Returned(run) == Iterate(g, max)
  {
    forall k: nat | k + 1 < max
      ensures Iterate(g, k + 1) == Iterate(g, max) || !CanLose(g, Iterate(g, k))
    {
      OneChunkLosesNothing(g, max, k);
    }
    hide WellFormed, Iterate, Ends, Returned, CanLose;
    HarmlessIsExact(g, max, run);
  }

  lemma OneChunkLosesNothing(g: Graph, max: nat, k: nat)
    requires WellFormed(g) && g.n <= 64 && k + 1 < max
    ensures Iterate(g, k + 1) == Iterate(g, max) || !CanLose(g, Iterate(g, k))
  {
    var labels := Iterate(g, k);
    hide WellFormed, Elected, Iterate;
    forall u: nat, v: nat | u < g.n && v < g.n ensures SameChunk(u, v) {}
    if v :| ChunkKeeps(g, labels, v) {
      forall u: nat | u < g.n ensures labels[u] == Iterate(g, k + 1)[u] {
        assert SameChunk(u, v) && Keeps(g, labels, u);
        KeepsIs(g, k, u);
      }
      assert Iterate(g, k + 1) == Iterate(g, k);
      StableStays(g, k, max);
    }
  }

  ghost predicate KeepsNone(g: Graph, k: nat)
    requires WellFormed(g)
  {
    forall v: nat :: v < g.n ==> Iterate(g, k)[v] != Iterate(g, k + 1)[v]
  }

  /** So it is if all vertices change their labels in every iteration that does not lead to the final ones. */
  lemma AllChangeIsExact(g: Graph, max: nat, run: seq<Kernel>)
    requires WellFormed(g) && Ends(g, max, run)
    requires forall k: nat :: k + 1 < max ==> Iterate(g, k + 1) == Iterate(g, max) || KeepsNone(g, k)
    ensures Returned(run) == Iterate(g, max)
  {
    hide WellFormed, Iterate, Ends, Returned, CanLose, KeepsNone;
    forall k: nat | k + 1 < max
      ensures Iterate(g, k + 1) == Iterate(g, max) || !CanLose(g, Iterate(g, k))
    {
      if KeepsNone(g, k) {
        NoneKeptNothingLost(g, k);
      }
    }
    HarmlessIsExact(g, max, run);
  }

  lemma NoneKeptNothingLost(g: Graph, k: nat)
    requires WellFormed(g) && KeepsNone(g, k)
    ensures !CanLose(g, Iterate(g, k))
  {
    forall v: nat | v < g.n ensures !Keeps(g, Iterate(g, k), v) { KeepsIs(g, k, v); }
    hide WellFormed, Iterate, Elected;
    forall v: nat ensures !ChunkKeeps(g, Iterate(g, k), v) {
      assert v < g.n ==> SameChunk(v, v) && !Keeps(g, Iterate(g, k), v);
    }
  }

  /** If the labels after iteration `k` are not final and a whole chunk keeps its labels in it, a run stops there. */
  lemma WholeChunkStops(g: Graph, max: nat, k: nat, v: nat) returns (run: seq<Kernel>)
    requires WellFormed(g) && k + 1 < max && Iterate(g, k + 1) != Iterate(g, max) && v < g.n
    requires forall u: nat :: u < g.n && SameChunk(u, v) ==> Iterate(g, k)[u] == Iterate(g, k + 1)[u]
    ensures Ends(g, max, run) && Returned(run) == Iterate(g, k + 1) != Iterate(g, max)
  {
    forall u: nat | u < g.n && SameChunk(u, v) ensures Keeps(g, Iterate(g, k), u) { KeepsIs(g, k, u); }
    hide WellFormed, Iterate, Keeps, Ends, Returned, SameChunk;
    assert ChunkKeeps(g, Iterate(g, k), v);
    NotYetStable(g, max, k);
    run := ScheduleThatStops(g, max, k);
  }

  // ----- updates of the flag that do not overlap

  ghost predicate Changed(before: Labels, after: Labels, left: set<nat>)
    requires |before| == |after|
  {
    exists v: nat :: v < |before| && v !in left && before[v] != after[v]
  }

  /** The flag, or the one value that is about to be written to it, tells whether a label has changed so far. */
  ghost predicate FlagComplete(s: Kernel)
    requires |s.labels| == |s.next|
  {
    && (forall v :: v in s.pending ==>
          v !in s.left && v < |s.labels| && (s.pending[v] <==> Changed(s.labels, s.next, s.left)))
    && (s.pending == map[] ==> (s.change <==> Changed(s.labels, s.next, s.left)))
  }

  ghost predicate SerialOk(g: Graph, s: Kernel)
    requires WellFormed(g) && |s.labels| == |s.next|
  {
    if s.busy then FlagComplete(s)
    else s.change || (s.iteration > 0 && Iterate(g, s.iteration) == Iterate(g, s.iteration - 1))
  }

  lemma NothingElse(pending: Pending, v: nat, x: bool)
    requires v !in pending && |pending[v := x]| <= 1
    ensures pending == map[]
  {
    assert pending[v := x].Keys == pending.Keys + {v};
    assert |pending[v := x]| == |pending[v := x].Keys| && |pending| == |pending.Keys|;
  }

  lemma SerialComputes(g: Graph, a: Kernel, v: nat, b: Kernel)
    requires WellFormed(g) && |a.labels| == |a.next| == g.n && a.busy && FlagComplete(a)
    requires Computes(g, a, v, b) && |b.pending| <= 1
    ensures FlagComplete(b)
  {
    hide WellFormed, Elected;
    NothingElse(a.pending, v, a.change || a.labels[v] != b.next[v]);
    assert b.pending == map[v := a.change || a.labels[v] != b.next[v]];
    if u: nat :| u < |a.labels| && u !in a.left && a.labels[u] != a.next[u] {
      assert u !in b.left && b.labels[u] != b.next[u];
    }
  }

  lemma SerialStores(a: Kernel, v: nat, b: Kernel)
    requires |a.labels| == |a.next| && a.busy && FlagComplete(a) && Stores(a, v, b) && |a.pending| <= 1
    ensures FlagComplete(b)
  {
    hide Changed;
    assert {v} <= a.pending.Keys && |a.pending.Keys| == |a.pending|;
    SubsetSize({v}, a.pending.Keys);
    assert b.pending == map[];
  }

  lemma SerialLeaves(g: Graph, max: nat, a: Kernel, b: Kernel)
    requires WellFormed(g) && RunOk(g, max, a) && SerialOk(g, a) && Leaves(a, b)
    ensures |b.labels| == |b.next| && SerialOk(g, b)
  {
    hide WellFormed, Iterate, Step, Elected, CanLose, LoopOk;
    IterateOnce(g, a.iteration);
    LoopEnds(g, a);
    if !a.change {
      assert a.next == a.labels;
    }
  }

  lemma SerialNext(g: Graph, max: nat, a: Kernel, b: Kernel)
    requires WellFormed(g) && RunOk(g, max, a) && SerialOk(g, a) && Next(g, max, a, b) && |a.pending| <= 1
    requires |b.pending| <= 1
    ensures |b.labels| == |b.next| && SerialOk(g, b)
  {
    hide WellFormed, Iterate, Elected, LoopOk, FlagComplete;
    if Enters(g, max, a, b) {
      SerialEnters(g, max, a, b);
    } else if Leaves(a, b) {
      SerialLeaves(g, max, a, b);
    } else if v :| Computes(g, a, v, b) {
      SerialComputes(g, a, v, b);
    } else {
      var v :| Stores(a, v, b);
      SerialStores(a, v, b);
    }
  }

  lemma SerialEnters(g: Graph, max: nat, a: Kernel, b: Kernel)
    requires |a.labels| == |a.next| == g.n && Enters(g, max, a, b)
    ensures FlagComplete(b)
  {
  }

  lemma {:induction false} SerialKeeps(g: Graph, max: nat, run: seq<Kernel>)
    requires WellFormed(g) && Schedule(g, max, run) && forall i :: 0 <= i < |run| ==> |run[i].pending| <= 1
    ensures RunOk(g, max, Last(run)) && SerialOk(g, Last(run))
  {
    ScheduleKeeps(g, max, run);
    hide WellFormed, Next, Iterate, LoopOk, FlagComplete;
    if |run| > 1 {
      var front := run[..|run| - 1];
      assert Next(g, max, run[|run| - 2], run[|run| - 2 + 1]);
      SerialKeeps(g, max, front);
      SerialNext(g, max, Last(front), Last(run));
    }
  }

  /**
   If no two updates of the flag overlap, the kernel returns the labels after `max` synchronous steps, on every graph.
   */
  lemma SerialUpdatesAreExact(g: Graph, max: nat, run: seq<Kernel>)
    requires WellFormed(g) && Ends(g, max, run) && forall i :: 0 <= i < |run| ==> |run[i].pending| <= 1
    ensures Returned(run) == Iterate(g, max)
  {
    hide *;
    var k := SerialReturn(g, max, run);
    if k < max {
      StableStays(g, k - 1, max);
    }
  }

  lemma SerialReturn(g: Graph, max: nat, run: seq<Kernel>) returns (k: nat)
    requires WellFormed(g) && Ends(g, max, run) && forall i :: 0 <= i < |run| ==> |run[i].pending| <= 1
    ensures k <= max && Returned(run) == Iterate(g, k)
    ensures k < max ==> k > 0 && Iterate(g, k) == Iterate(g, k - 1)
  {
    hide WellFormed, Iterate, Next, Starts, RunOk, SerialOk;
    SerialKeeps(g, max, run);
    k := Last(run).iteration;
    SerialStop(g, max, Last(run));
  }

  lemma SerialStop(g: Graph, max: nat, s: Kernel)
    requires WellFormed(g) && RunOk(g, max, s) && SerialOk(g, s) && Finished(max, s)
    ensures s.iteration <= max && s.labels == Iterate(g, s.iteration)
    ensures s.iteration < max ==> s.iteration > 0 && Iterate(g, s.iteration) == Iterate(g, s.iteration - 1)
  {
    hide WellFormed, Iterate, LoopOk, FlagComplete;
  }
}
