/**
 Direction-optimizing breadth first search (CSR::do_bfs).

 A parallel loop picks its iterations in any order. In the top-down step the read of
 `distances[dst]` and the compare-and-swap are two steps, and the steps of different
 edges interleave in any way.
 */
module Bfs {
  import opened Walks
  import opened Csr
  import opened SlidingQueues
  import opened Ranges
  import opened Sequences

  // ----- what the labels mean

  /** The distance that a final entry of `distances` stands for: negative means not visited. */
  ghost function AsDistance(entry: int): Distance
  {
    if entry < 0 then Infinite else Finite(entry)
  }

  ghost function Labelling(dist: seq<int>): nat -> Distance
  {
    (v: nat) => if v < |dist| then AsDistance(dist[v]) else Infinite
  }

  ghost predicate Exact(g: Graph, root: nat, dist: seq<int>)
    requires WellFormed(g)
  {
    |dist| == g.n && forall v: nat :: v < g.n ==> IsShortest(UnitArcs(g), root, v, AsDistance(dist[v]))
  }

  ghost predicate HasParentAt(g: Graph, dist: seq<int>, v: nat, k: int)
    requires WellFormed(g) && |dist| == g.n
  {
    exists u :: 0 <= u < g.n && dist[u] == k && v in Out(g, u)
  }

  /** One level of the search: exactly the unvisited vertices next to level `d - 1` get distance `d`. */
  ghost predicate NextLevel(g: Graph, before: seq<int>, after: seq<int>, d: int)
    requires WellFormed(g)
  {
    && |before| == g.n && |after| == g.n
    && forall v: nat :: v < g.n ==>
      after[v] == if before[v] < 0 && HasParentAt(g, before, v, d - 1) then d else before[v]
  }

  /** All levels below `d` are final, and only level `d - 1` may still have unvisited neighbours. */
  ghost predicate Levels(g: Graph, root: nat, dist: seq<int>, d: int)
    requires WellFormed(g)
  {
    && |dist| == g.n && root < g.n && 1 <= d
    && dist[root] == 0
    && (forall v: nat :: v < g.n && dist[v] >= 0 ==> dist[v] < d && ReachedAt(UnitArcs(g), root, v, dist[v]))
    && (forall u: nat, v: nat :: u < g.n && v < g.n && 0 <= dist[u] < d - 1 && v in Out(g, u) ==>
      0 <= dist[v] <= dist[u] + 1)
  }

  ghost function Unvisited(dist: seq<int>): set<nat>
  {
    set v: nat | v < |dist| && dist[v] < 0
  }

  lemma Advance(g: Graph, root: nat, before: seq<int>, after: seq<int>, d: int)
    requires WellFormed(g) && Levels(g, root, before, d) && NextLevel(g, before, after, d)
    ensures Levels(g, root, after, d + 1)
  {
    forall v: nat | v < g.n && after[v] >= 0
      ensures after[v] < d + 1 && ReachedAt(UnitArcs(g), root, v, after[v])
    {
      if before[v] < 0 {
        var u :| 0 <= u < g.n && before[u] == d - 1 && v in Out(g, u);
        UnitArcsAre(g, Arc(u, v, 1));
        Extend(UnitArcs(g), root, u, d - 1, v, 1);
      }
    }
    forall u: nat, v: nat | u < g.n && v < g.n && 0 <= after[u] < d && v in Out(g, u)
      ensures 0 <= after[v] <= after[u] + 1
    {
      assert before[u] == after[u];
      if before[v] < 0 {
        assert HasParentAt(g, before, v, d - 1);
      }
    }
  }

  lemma NextLevelShrinks(g: Graph, before: seq<int>, after: seq<int>, d: int, woken: set<nat>)
    requires WellFormed(g) && NextLevel(g, before, after, d) && d >= 0
    requires forall v: nat :: v in woken <==> v < g.n && before[v] < 0 && after[v] >= 0
    ensures Unvisited(after) == Unvisited(before) - woken && woken <= Unvisited(before)
    ensures |Unvisited(after)| + |woken| == |Unvisited(before)|
  {
    assert Unvisited(after) == Unvisited(before) - woken;
    assert Unvisited(before) == Unvisited(after) + woken;
  }

  /** A search whose last level is empty has found every hop distance. */
  lemma LastLevelEmpty(g: Graph, root: nat, dist: seq<int>, d: int)
    requires WellFormed(g) && Levels(g, root, dist, d)
    requires forall v: nat :: v < g.n ==> dist[v] != d - 1
    ensures Exact(g, root, dist)
  {
    var labels := Labelling(dist);
    forall a | a in UnitArcs(g) && labels(a.src).Finite?
      ensures AtMost(labels(a.dst), labels(a.src).value + a.weight)
    {
      UnitArcsAre(g, a);
      assert dist[a.src] < d - 1;
    }
    forall v: nat | v < g.n
      ensures IsShortest(UnitArcs(g), root, v, AsDistance(dist[v]))
    {
      RelaxedIsShortest(UnitArcs(g), root, v, labels);
    }
  }

  // ----- initial distances

  /** `distances` starts as minus the out degree, or -1 for a vertex without out-edges. */
  function InitialDistance(g: Graph, v: nat): int
    requires WellFormed(g) && v < g.n
  {
    if OutDegree(g, v) != 0 then -(OutDegree(g, v) as int) else -1
  }

  method InitDistances(g: Graph) returns (distances: array<int>)
    requires WellFormed(g)
    ensures fresh(distances) && distances.Length == g.n
    ensures forall v: nat :: v < g.n ==> distances[v] == InitialDistance(g, v) && distances[v] < 0
  {
    distances := new int[g.n];
    var todo := UpTo(g.n);
    while todo != {}
      invariant forall v :: v in todo ==> v < g.n
      invariant forall v: nat :: v < g.n && v !in todo ==> distances[v] == InitialDistance(g, v)
    {
      var n: nat :| n in todo;
      todo := todo - {n};
      var outDegree := OutDegree(g, n);
      distances[n] := if outDegree != 0 then -(outDegree as int) else -1;
    }
  }

  // ----- the bottom-up step

  ghost predicate HasParentIn(g: Graph, v: nat, front: set<nat>)
    requires WellFormed(g) && v < g.n
  {
    exists u :: u in In(g, v) && u in front
  }

  method BottomUpStep(g: Graph, distances: array<int>, distance: int, front: set<nat>)
    returns (awakeCount: nat, next: set<nat>)
    requires WellFormed(g) && distances.Length == g.n && distance >= 0
    modifies distances
    ensures forall v: nat :: v < g.n ==>
      distances[v] == if old(distances[v]) < 0 && HasParentIn(g, v, front) then distance else old(distances[v])
    ensures forall v: nat :: v in next <==> v < g.n && old(distances[v]) < 0 && distances[v] >= 0
    ensures awakeCount == |next|
  {
    awakeCount, next := 0, {};
    var todo := UpTo(g.n);
    while todo != {}
      invariant forall u :: u in todo ==> u < g.n && distances[u] == old(distances[u])
      invariant forall v: nat :: v < g.n && v !in todo ==>
        distances[v] == if old(distances[v]) < 0 && HasParentIn(g, v, front) then distance else old(distances[v])
      invariant forall v: nat :: v in next <==> v < g.n && old(distances[v]) < 0 && distances[v] >= 0
      invariant awakeCount == |next|
    {
      var u: nat :| u in todo;
      todo := todo - {u};
      if distances[u] < 0 {
        var found := FindParent(g, u, front);
        if found {
          distances[u] := distance;
          awakeCount := awakeCount + 1;
          next := next + {u};
        }
      }
    }
  }

  /** The scan of the incoming edges of `u`, which stops at the first vertex of the front. */
  method FindParent(g: Graph, u: nat, front: set<nat>) returns (found: bool)
    requires WellFormed(g) && u < g.n
    ensures found <==> HasParentIn(g, u, front)
  {
    var lo, i, end := Lo(g.inV, u), Lo(g.inV, u), Hi(g.inV, u);
    assert forall k :: lo <= k < end ==> In(g, u)[k - lo] == g.inE[k];
    while i < end && g.inE[i] !in front
      invariant lo <= i <= end
      invariant forall k :: lo <= k < i ==> g.inE[k] !in front
    {
      i := i + 1;
    }
    found := i < end;
    if found {
      assert g.inE[i] == In(g, u)[i - lo];
    }
  }

  /**
   The bottom-up step with a bitmap that also holds stale bits computes the next level,
   because the out-neighbours of a stale vertex are all visited.
   */
  lemma BottomUpIsNextLevel(g: Graph, before: seq<int>, after: seq<int>, d: int, front: set<nat>)
    requires WellFormed(g) && Mirrored(g) && |before| == g.n && |after| == g.n
    requires forall v: nat :: v < g.n ==> after[v] == if before[v] < 0 && HasParentIn(g, v, front) then d else before[v]
    requires forall u: nat :: u < g.n && before[u] == d - 1 ==> u in front
    requires StaleBitsAreHarmless(g, before, d, front)
    ensures NextLevel(g, before, after, d)
  {
    forall v: nat | v < g.n && before[v] < 0
      ensures HasParentIn(g, v, front) <==> HasParentAt(g, before, v, d - 1)
    {
      forall u: nat | u < g.n ensures v in Out(g, u) <==> u in In(g, v) { OutIffIn(g, u, v); }
      if HasParentIn(g, v, front) {
        var u :| u in In(g, v) && u in front;
        assert v in Out(g, u);
        assert before[u] == d - 1;
      }
      if HasParentAt(g, before, v, d - 1) {
        var u :| 0 <= u < g.n && before[u] == d - 1 && v in Out(g, u);
        assert u in In(g, v) && u in front;
      }
    }
  }

  ghost predicate StaleBitsAreHarmless(g: Graph, dist: seq<int>, d: int, front: set<nat>)
    requires WellFormed(g) && |dist| == g.n
  {
    forall u, v :: u in front && u < g.n && dist[u] != d - 1 && v in Out(g, u) ==> dist[v] >= 0
  }

  // ----- the top-down step

  ghost predicate HasParentInWindow(g: Graph, v: nat, window: seq<int>)
    requires WellFormed(g)
  {
    exists k :: 0 <= k < |window| && 0 <= window[k] < g.n && v in Out(g, window[k])
  }

  /** The edge slots of the vertices in the window. */
  function Slots(g: Graph, window: seq<int>): set<nat>
    requires WellFormed(g)
    requires forall k :: 0 <= k < |window| ==> 0 <= window[k] < g.n
  {
    if window == [] then {}
    else
      var u := window[|window| - 1];
      Slots(g, window[..|window| - 1]) + Between(Lo(g.outV, u), Hi(g.outV, u))
  }

  /** Slot `i` is an out-edge of `u`. */
  predicate InRow(g: Graph, u: int, i: nat)
    requires WellFormed(g)
  {
    0 <= u < g.n && Lo(g.outV, u) <= i < Hi(g.outV, u)
  }

  lemma {:induction false} SlotsAre(g: Graph, window: seq<int>, i: nat)
    requires WellFormed(g)
    requires forall k :: 0 <= k < |window| ==> 0 <= window[k] < g.n
    ensures i in Slots(g, window) <==> exists k :: 0 <= k < |window| && InRow(g, window[k], i)
  {
    if window != [] {
      var last := |window| - 1;
      SlotsUnfold(g, window, i);
      hide *;
      SlotsAre(g, window[..last], i);
      if k :| 0 <= k < last && InRow(g, window[..last][k], i) {
        assert InRow(g, window[k], i);
      }
      if k :| 0 <= k < |window| && InRow(g, window[k], i) {
        assert k < last ==> InRow(g, window[..last][k], i);
      }
    }
  }

  lemma SlotsUnfold(g: Graph, window: seq<int>, i: nat)
    requires WellFormed(g) && window != []
    requires forall k :: 0 <= k < |window| ==> 0 <= window[k] < g.n
    ensures i in Slots(g, window) <==> i in Slots(g, window[..|window| - 1]) || InRow(g, window[|window| - 1], i)
  {
  }

  lemma InRowIsOut(g: Graph, u: nat, i: nat)
    requires WellFormed(g) && InRow(g, u, i)
    ensures i < |g.outE| && g.outE[i] in Out(g, u)
  {
    assert g.outE[i] == Out(g, u)[i - Lo(g.outV, u)];
  }

  lemma OutIsInRow(g: Graph, u: nat, v: nat) returns (i: nat)
    requires WellFormed(g) && u < g.n && v in Out(g, u)
    ensures InRow(g, u, i) && i < |g.outE| && g.outE[i] == v
  {
    var j :| 0 <= j < |Out(g, u)| && Out(g, u)[j] == v;
    i := Lo(g.outV, u) + j;
  }

  lemma SlotsAreOutEdges(g: Graph, window: seq<int>)
    requires WellFormed(g)
    requires forall k :: 0 <= k < |window| ==> 0 <= window[k] < g.n
    ensures forall i :: i in Slots(g, window) ==> i < |g.outE| && HasParentInWindow(g, g.outE[i], window)
  {
    forall i | i in Slots(g, window)
      ensures i < |g.outE| && HasParentInWindow(g, g.outE[i], window)
    {
      SlotsAre(g, window, i);
      var k :| 0 <= k < |window| && InRow(g, window[k], i);
      InRowIsOut(g, window[k], i);
    }
  }

  lemma ParentHasSlot(g: Graph, window: seq<int>, v: nat) returns (i: nat)
    requires WellFormed(g)
    requires forall k :: 0 <= k < |window| ==> 0 <= window[k] < g.n
    requires HasParentInWindow(g, v, window)
    ensures i in Slots(g, window) && i < |g.outE| && g.outE[i] == v
  {
    var k :| 0 <= k < |window| && 0 <= window[k] < g.n && v in Out(g, window[k]);
    i := OutIsInRow(g, window[k], v);
    SlotsAre(g, window, i);
  }

  /** The degrees stored in the entries that became visited, which is what `scout_count` adds up. */
  ghost function ScoutSum(before: seq<int>, after: seq<int>, k: nat): int
    requires |before| == |after| && k <= |before|
  {
    if k == 0 then 0
    else ScoutSum(before, after, k - 1) + if before[k - 1] < 0 && after[k - 1] >= 0 then -before[k - 1] else 0
  }

  lemma {:induction false} ScoutSumStep(before: seq<int>, after: seq<int>, v: nat, d: int, k: nat)
    requires |before| == |after| && v < |after| && k <= |before| && d >= 0
    requires before[v] == after[v] < 0
    ensures ScoutSum(before, after[v := d], k) == ScoutSum(before, after, k) + if v < k then -before[v] else 0
  {
    if k > 0 {
      ScoutSumStep(before, after, v, d, k - 1);
    }
  }

  lemma {:induction false} ScoutSumSame(dist: seq<int>, k: nat)
    requires k <= |dist|
    ensures ScoutSum(dist, dist, k) == 0
  {
    if k > 0 {
      ScoutSumSame(dist, k - 1);
    }
  }

  /** What every interleaving of the reads and compare-and-swaps keeps; `now` are the current distances. */
  ghost predicate TopDownInvariant(g: Graph, slots: set<nat>, before: seq<int>, now: seq<int>, d: int,
                                   todo: set<nat>, seen: map<nat, int>, woken: set<nat>, scout: int)
    requires WellFormed(g)
  {
    && |before| == g.n && |now| == g.n && d >= 0
    && (forall i :: i in slots ==> i < |g.outE|)
    && todo <= slots && seen.Keys <= slots && todo !! seen.Keys
    && (forall v: nat :: v < g.n ==> now[v] == if v in woken then d else before[v])
    && (forall v :: v in woken ==> v < g.n && before[v] < 0 && exists i :: i in slots && g.outE[i] == v)
    && (forall i :: i in slots && i !in todo && i !in seen ==> now[g.outE[i]] >= 0)
    && (forall i :: i in seen && now[g.outE[i]] < 0 ==> seen[i] == now[g.outE[i]])
    && scout == ScoutSum(before, now, g.n)
  }

  lemma TopDownBegins(g: Graph, slots: set<nat>, before: seq<int>, d: int)
    requires WellFormed(g) && |before| == g.n && d >= 0 && forall i :: i in slots ==> i < |g.outE|
    ensures TopDownInvariant(g, slots, before, before, d, slots, map[], {}, 0)
  {
    ScoutSumSame(before, g.n);
  }

  lemma SlotTarget(g: Graph, slots: set<nat>, before: seq<int>, now: seq<int>, d: int,
                   todo: set<nat>, seen: map<nat, int>, woken: set<nat>, scout: int, i: nat)
    requires WellFormed(g) && TopDownInvariant(g, slots, before, now, d, todo, seen, woken, scout) && i in todo
    ensures i < |g.outE| && g.outE[i] < g.n == |now|
  {
    hide ScoutSum;
  }

  lemma ReadShrinks(todo: set<nat>, seen: map<nat, int>, i: nat, entry: int)
    requires i in todo
    ensures 2 * |todo - {i}| + |seen[i := entry]| < 2 * |todo| + |seen|
  {
    assert seen[i := entry].Keys == seen.Keys + {i};
    assert |seen[i := entry]| == |seen[i := entry].Keys| && |seen| == |seen.Keys|;
  }

  lemma SwapShrinks(seen: map<nat, int>, i: nat)
    requires i in seen
    ensures |seen - {i}| < |seen|
  {
    assert (seen - {i}).Keys == seen.Keys - {i};
    assert |seen - {i}| == |(seen - {i}).Keys| && |seen| == |seen.Keys|;
  }

  lemma ReadKeeps(g: Graph, slots: set<nat>, before: seq<int>, now: seq<int>, d: int,
                  todo: set<nat>, seen: map<nat, int>, woken: set<nat>, scout: int, i: nat)
    requires WellFormed(g) && TopDownInvariant(g, slots, before, now, d, todo, seen, woken, scout) && i in todo
    ensures TopDownInvariant(g, slots, before, now, d, todo - {i}, seen[i := now[g.outE[i]]], woken, scout)
  {
  }

  lemma CompareAndSwapKeeps(g: Graph, slots: set<nat>, before: seq<int>, now: seq<int>, d: int,
                            todo: set<nat>, seen: map<nat, int>, woken: set<nat>, scout: int, i: nat)
    requires WellFormed(g) && TopDownInvariant(g, slots, before, now, d, todo, seen, woken, scout) && i in seen
    ensures var dst := g.outE[i];
      if seen[i] < 0 && now[dst] == seen[i]
      then TopDownInvariant(g, slots, before, now[dst := d], d, todo, seen - {i}, woken + {dst}, scout - seen[i])
      else TopDownInvariant(g, slots, before, now, d, todo, seen - {i}, woken, scout)
  {
    var dst := g.outE[i];
    if seen[i] < 0 && now[dst] == seen[i] {
      assert dst !in woken;
      ScoutSumStep(before, now, dst, d, g.n);
      forall v | v in woken + {dst}
        ensures exists j :: j in slots && g.outE[j] == v
      {
        if v == dst { assert i in slots && g.outE[i] == v; }
      }
    }
  }

  method TopDownStep(g: Graph, distances: array<int>, distance: int, queue: SlidingQueue)
    returns (scoutCount: int, ghost woken: set<nat>)
    requires WellFormed(g) && distances.Length == g.n && distance >= 0
    requires queue.Valid() && queue.shared != distances && queue.shared.Length == g.n
    requires Distinct(queue.Pushed())
    requires forall x :: x in queue.Pushed() ==> 0 <= x < g.n && distances[x] >= 0
    modifies distances, queue`sharedIn, queue.shared
    ensures forall v: nat :: v < g.n ==>
      distances[v] == if old(distances[v]) < 0 && HasParentInWindow(g, v, old(queue.Window()))
        then distance else old(distances[v])
    ensures forall v: nat :: v in woken <==> v < g.n && old(distances[v]) < 0 && distances[v] >= 0
    ensures queue.Valid() && queue.outStart == old(queue.outStart) && queue.outEnd == old(queue.outEnd)
    ensures Appended(old(queue.Pushed()), queue.Pushed(), woken)
    ensures scoutCount == ScoutSum(old(distances[..]), distances[..], g.n)
  {
    ghost var before := distances[..];
    var window := queue.Window();
    forall k | 0 <= k < |window| ensures 0 <= window[k] < g.n { assert window[k] in queue.Pushed(); }
    var slots := Slots(g, window);
    SlotsAreOutEdges(g, window);
    var local;
    scoutCount, local := RelaxSlots(g, distances, distance, slots);
    woken := local;
    TopDownDone(g, window, before, distances[..], distance, local, scoutCount);
    Flush(g, queue, local);
  }

  /** The parallel loop over the edges of the window: reads and swaps of all edges, interleaved at will. */
  method RelaxSlots(g: Graph, distances: array<int>, distance: int, slots: set<nat>)
    returns (scoutCount: int, woken: set<nat>)
    requires WellFormed(g) && distances.Length == g.n && distance >= 0
    requires forall i :: i in slots ==> i < |g.outE|
    modifies distances
    ensures TopDownInvariant(g, slots, old(distances[..]), distances[..], distance, {}, map[], woken, scoutCount)
  {
    ghost var before := distances[..];
    var todo := slots;
    var seen: map<nat, int> := map[];
    scoutCount, woken := 0, {};
    TopDownBegins(g, slots, before, distance);
    hide *;
    while todo != {} || seen != map[]
      invariant distances.Length == g.n
      invariant TopDownInvariant(g, slots, before, distances[..], distance, todo, seen, woken, scoutCount)
      decreases 2 * |todo| + |seen|
    {
      if
      case todo != {} =>
        var i: nat :| i in todo;
        SlotTarget(g, slots, before, distances[..], distance, todo, seen, woken, scoutCount, i);
        ReadKeeps(g, slots, before, distances[..], distance, todo, seen, woken, scoutCount, i);
        ReadShrinks(todo, seen, i, distances[g.outE[i]]);
        todo, seen := todo - {i}, seen[i := distances[g.outE[i]]];
      case seen != map[] =>
        var i: nat :| i in seen;
        woken, scoutCount := SwapSlot(g, distances, distance, slots, before, todo, seen, woken, scoutCount, i);
        SwapShrinks(seen, i);
        seen := seen - {i};
    }
  }

  /** The compare-and-swap for slot `i`, with the value it read earlier. */
  method SwapSlot(g: Graph, distances: array<int>, distance: int, ghost slots: set<nat>, ghost before: seq<int>,
                  ghost todo: set<nat>, seen: map<nat, int>, woken: set<nat>, scoutCount: int, i: nat)
    returns (woken': set<nat>, scoutCount': int)
    requires WellFormed(g) && i in seen
    requires TopDownInvariant(g, slots, before, distances[..], distance, todo, seen, woken, scoutCount)
    modifies distances
    ensures TopDownInvariant(g, slots, before, distances[..], distance, todo, seen - {i}, woken', scoutCount')
  {
    var dst, currVal := g.outE[i], seen[i];
    ghost var now := distances[..];
    CompareAndSwapKeeps(g, slots, before, now, distance, todo, seen, woken, scoutCount, i);
    woken', scoutCount' := woken, scoutCount;
    if currVal < 0 && distances[dst] == currVal {
      distances[dst] := distance;
      woken' := woken + {dst};
      scoutCount' := scoutCount - currVal;
      assert distances[..] == now[dst := distance];
    }
  }

  lemma TopDownDone(g: Graph, window: seq<int>, before: seq<int>, now: seq<int>, d: int, woken: set<nat>, scout: int)
    requires WellFormed(g)
    requires forall k :: 0 <= k < |window| ==> 0 <= window[k] < g.n
    requires TopDownInvariant(g, Slots(g, window), before, now, d, {}, map[], woken, scout)
    ensures forall v: nat :: v < g.n ==>
      now[v] == if before[v] < 0 && HasParentInWindow(g, v, window) then d else before[v]
    ensures forall v: nat :: v in woken <==> v < g.n && before[v] < 0 && now[v] >= 0
  {
    SlotsAreOutEdges(g, window);
    forall v: nat | v < g.n
      ensures now[v] == if before[v] < 0 && HasParentInWindow(g, v, window) then d else before[v]
    {
      if HasParentInWindow(g, v, window) {
        var i := ParentHasSlot(g, window, v);
      }
    }
  }

  // ----- filling the queue

  /** `after` is `before` followed by the vertices of `items`, each once, in some order. */
  ghost predicate Appended(before: seq<int>, after: seq<int>, items: set<nat>)
  {
    && before <= after
    && Distinct(after)
    && forall x :: x in after[|before|..] <==> x in items
  }

  lemma {:induction false} DistinctFits(s: seq<int>, free: set<nat>, n: nat)
    requires Distinct(s)
    requires forall x :: x in s ==> 0 <= x < n && x !in free
    requires forall x :: x in free ==> x < n
    ensures |s| + |free| <= n
  {
    if s == [] {
      SubsetSize(free, UpTo(n));
    } else {
      var x := s[|s| - 1];
      var t := s[..|s| - 1];
      assert x in s && forall y :: y in t ==> y in s && y != x;
      DistinctFits(t, free + {x}, n);
    }
  }

  lemma PushOne(start: seq<int>, all: seq<int>, items: set<nat>, todo: set<nat>, v: nat)
    requires todo <= items && v in todo && Appended(start, all, items - todo) && v !in all
    ensures Appended(start, all + [v], items - (todo - {v}))
  {
    assert (all + [v])[|start|..] == all[|start|..] + [v];
  }

  /** Empty the thread-local buffers into the shared queue, in any order; there is always room. */
  method Flush(g: Graph, queue: SlidingQueue, items: set<nat>)
    requires queue.Valid() && queue.shared.Length == g.n
    requires Distinct(queue.Pushed())
    requires forall x :: x in queue.Pushed() ==> 0 <= x < g.n && x !in items
    requires forall x :: x in items ==> x < g.n
    modifies queue`sharedIn, queue.shared
    ensures queue.Valid() && Appended(old(queue.Pushed()), queue.Pushed(), items)
  {
    var todo := items;
    ghost var start := queue.Pushed();
    while todo != {}
      invariant queue.Valid() && todo <= items && Appended(start, queue.Pushed(), items - todo)
      invariant forall x :: x in queue.Pushed() ==> 0 <= x < g.n && x !in todo
    {
      ghost var all := queue.Pushed();
      var v: nat :| v in todo;
      DistinctFits(all, todo, g.n);
      PushOne(start, all, items, todo, v);
      todo := todo - {v};
      queue.PushBack(v);
    }
  }

  // ----- the whole search

  /** Division that truncates toward zero, for a positive divisor. */
  function TruncatedDivision(a: int, b: int): int
    requires b > 0
  {
    if a >= 0 then a / b else -((-a) / b)
  }

  method QueueToBitmap(window: seq<int>, bm: set<nat>) returns (r: set<nat>)
    requires forall k :: 0 <= k < |window| ==> window[k] >= 0
    ensures forall x: nat :: x in r <==> x in bm || x in window
  {
    r := bm;
    var todo := UpTo(|window|);
    while todo != {}
      invariant forall k :: k in todo ==> k < |window|
      invariant forall x: nat :: x in r <==> x in bm || exists k :: 0 <= k < |window| && k !in todo && window[k] == x
    {
      var k: nat :| k in todo;
      ghost var before, was := r, todo;
      todo := todo - {k};
      r := r + {window[k]};
      forall x: nat
        ensures x in r <==> x in bm || exists j :: 0 <= j < |window| && j !in todo && window[j] == x
      {
        if j :| 0 <= j < |window| && j !in was && window[j] == x {
          assert x in before && j !in todo;
        }
        if x == window[k] {
          assert k !in todo && window[k] == x;
        }
      }
    }
  }

  /** The state between two rounds: the window is exactly the last level, and nothing was pushed twice. */
  ghost predicate Round(g: Graph, root: nat, dist: seq<int>, d: int, queue: SlidingQueue, front: set<nat>)
    requires WellFormed(g)
    reads queue, queue.shared
  {
    && Levels(g, root, dist, d)
    && queue.Valid() && queue.shared.Length == g.n && queue.outEnd == queue.sharedIn
    && Distinct(queue.Pushed())
    && (forall x :: x in queue.Pushed() ==> 0 <= x < g.n && dist[x] >= 0)
    && IsLevel(dist, d - 1, queue.Window())
    && (forall x :: x in front ==> x < g.n)
    && StaleBitsAreHarmless(g, dist, d, front)
  }

  ghost predicate IsLevel(dist: seq<int>, k: int, window: seq<int>)
  {
    forall x: nat :: x in window <==> x < |dist| && dist[x] == k
  }

  /** `Out(window)` is what the top-down step looks at, `dist == d - 1` is what `NextLevel` says. */
  lemma WindowIsLevel(g: Graph, dist: seq<int>, d: int, window: seq<int>, v: nat)
    requires WellFormed(g) && |dist| == g.n && IsLevel(dist, d - 1, window)
    requires forall x :: x in window ==> 0 <= x < g.n
    ensures HasParentInWindow(g, v, window) <==> HasParentAt(g, dist, v, d - 1)
  {
    if HasParentInWindow(g, v, window) {
      var k :| 0 <= k < |window| && 0 <= window[k] < g.n && v in Out(g, window[k]);
      assert window[k] in window;
    }
    if HasParentAt(g, dist, v, d - 1) {
      var u :| 0 <= u < g.n && dist[u] == d - 1 && v in Out(g, u);
      assert u in window;
      var k :| 0 <= k < |window| && window[k] == u;
    }
  }

  /** One top-down round: the window moves to the next level. */
  method TopDownRound(g: Graph, ghost root: nat, distances: array<int>, distance: int, queue: SlidingQueue,
      ghost front: set<nat>)
    returns (scoutCount: int, ghost woken: set<nat>)
    requires WellFormed(g) && Round(g, root, distances[..], distance, queue, front) && queue.shared != distances
    modifies distances, queue, queue.shared
    ensures Round(g, root, distances[..], distance + 1, queue, front)
    ensures |Unvisited(distances[..])| + |woken| == |Unvisited(old(distances[..]))|
    ensures |woken| == |queue.Window()|
  {
    ghost var before := distances[..];
    ghost var pushed := queue.Pushed();
    ghost var window := queue.Window();
    assert forall x :: x in window ==> x in pushed;
    scoutCount, woken := TopDownStep(g, distances, distance, queue);
    TopDownIsNextLevel(g, before, distances[..], distance, window);
    TopDownRoundKeeps(g, root, before, distances[..], distance, pushed, queue.Pushed(), woken, front);
    queue.SlideWindow();
    assert queue.Window() == queue.Pushed()[|pushed|..];
  }

  lemma TopDownIsNextLevel(g: Graph, before: seq<int>, after: seq<int>, d: int, window: seq<int>)
    requires WellFormed(g) && |before| == g.n && |after| == g.n && IsLevel(before, d - 1, window)
    requires forall x :: x in window ==> 0 <= x < g.n
    requires forall v: nat :: v < g.n ==>
      after[v] == if before[v] < 0 && HasParentInWindow(g, v, window) then d else before[v]
    ensures NextLevel(g, before, after, d)
  {
    forall v: nat | v < g.n
      ensures HasParentInWindow(g, v, window) <==> HasParentAt(g, before, v, d - 1)
    {
      WindowIsLevel(g, before, d, window, v);
    }
  }

  lemma TopDownRoundKeeps(g: Graph, root: nat, before: seq<int>, after: seq<int>, d: int,
                          pushed: seq<int>, pushed': seq<int>, woken: set<nat>, front: set<nat>)
    requires WellFormed(g) && Levels(g, root, before, d) && NextLevel(g, before, after, d)
    requires forall v: nat :: v in woken <==> v < g.n && before[v] < 0 && after[v] >= 0
    requires Appended(pushed, pushed', woken)
    requires forall x :: x in pushed ==> 0 <= x < g.n && before[x] >= 0
    requires StaleBitsAreHarmless(g, before, d, front)
    ensures Levels(g, root, after, d + 1)
    ensures IsLevel(after, d, pushed'[|pushed|..])
    ensures forall x :: x in pushed' ==> 0 <= x < g.n && after[x] >= 0
    ensures StaleBitsAreHarmless(g, after, d + 1, front)
    ensures |Unvisited(after)| + |woken| == |Unvisited(before)|
    ensures |woken| == |pushed'[|pushed|..]|
  {
    Advance(g, root, before, after, d);
    NextLevelShrinks(g, before, after, d, woken);
    WindowAfter(g, before, after, d, pushed, pushed', woken);
    StaleAfterTopDown(g, root, before, after, d, front);
    AppendedSize(pushed, pushed', woken);
  }

  lemma WindowAfter(g: Graph, before: seq<int>, after: seq<int>, d: int, pushed: seq<int>, pushed': seq<int>,
      woken: set<nat>)
    requires WellFormed(g) && NextLevel(g, before, after, d) && d >= 0
    requires forall v: nat :: v < g.n && before[v] >= 0 ==> before[v] < d
    requires forall v: nat :: v in woken <==> v < g.n && before[v] < 0 && after[v] >= 0
    requires Appended(pushed, pushed', woken)
    requires forall x :: x in pushed ==> 0 <= x < g.n && before[x] >= 0
    ensures IsLevel(after, d, pushed'[|pushed|..])
    ensures forall x :: x in pushed' ==> 0 <= x < g.n && after[x] >= 0
  {
    forall x | x in pushed'
      ensures 0 <= x < g.n && after[x] >= 0
    {
      assert x in pushed || x in pushed'[|pushed|..];
    }
  }

  /** After a top-down round the old front level has no unvisited neighbours, so its bits may stay set. */
  lemma StaleAfterTopDown(g: Graph, root: nat, before: seq<int>, after: seq<int>, d: int, front: set<nat>)
    requires WellFormed(g) && Levels(g, root, before, d) && NextLevel(g, before, after, d)
    requires StaleBitsAreHarmless(g, before, d, front)
    ensures StaleBitsAreHarmless(g, after, d + 1, front)
  {
    forall u, v | u in front && u < g.n && after[u] != d && v in Out(g, u)
      ensures after[v] >= 0
    {
      assert after[u] == before[u];
      if before[u] == d - 1 && before[v] < 0 {
        assert HasParentAt(g, before, v, d - 1);
      }
    }
  }

  /**
   The state inside a bottom-up phase: `front` is exactly the last level, nothing of which was pushed, except in its
   first round.
   */
  ghost predicate BottomUpRound(g: Graph, root: nat, dist: seq<int>, d: int, front: set<nat>)
    requires WellFormed(g)
  {
    && Levels(g, root, dist, d)
    && (forall x :: x in front ==> x < g.n)
    && (forall u: nat :: u < g.n && dist[u] == d - 1 ==> u in front)
    && StaleBitsAreHarmless(g, dist, d, front)
  }

  lemma BottomUpKeeps(g: Graph, root: nat, before: seq<int>, after: seq<int>, d: int, front: set<nat>, next: set<nat>)
    requires WellFormed(g) && Mirrored(g) && BottomUpRound(g, root, before, d, front) && |after| == g.n
    requires forall v: nat :: v < g.n ==> after[v] == if before[v] < 0 && HasParentIn(g, v, front) then d else before[v]
    requires forall v: nat :: v in next <==> v < g.n && before[v] < 0 && after[v] >= 0
    ensures BottomUpRound(g, root, after, d + 1, next)
    ensures forall v: nat :: v in next <==> v < g.n && after[v] == d
    ensures |Unvisited(after)| + |next| == |Unvisited(before)|
  {
    BottomUpIsNextLevel(g, before, after, d, front);
    Advance(g, root, before, after, d);
    NextLevelShrinks(g, before, after, d, next);
  }

  method BottomUpOnce(g: Graph, ghost root: nat, distances: array<int>, distance: int, front: set<nat>)
    returns (awakeCount: nat, next: set<nat>)
    requires WellFormed(g) && Mirrored(g) && distances.Length == g.n
    requires BottomUpRound(g, root, distances[..], distance, front)
    modifies distances
    ensures BottomUpRound(g, root, distances[..], distance + 1, next)
    ensures IsLevelSet(distances[..], distance, next) && Extends(old(distances[..]), distances[..])
    ensures |Unvisited(distances[..])| + |next| == |Unvisited(old(distances[..]))| && awakeCount == |next|
  {
    ghost var before := distances[..];
    awakeCount, next := BottomUpStep(g, distances, distance, front);
    BottomUpKeeps(g, root, before, distances[..], distance, front, next);
  }

  ghost predicate IsLevelSet(dist: seq<int>, k: int, level: set<nat>)
  {
    forall v: nat :: v in level <==> v < |dist| && dist[v] == k
  }

  /** Visited vertices keep their distance. */
  ghost predicate Extends(before: seq<int>, after: seq<int>)
  {
    |before| == |after| && forall v :: 0 <= v < |before| && before[v] >= 0 ==> after[v] == before[v]
  }

  lemma ExtendsSelf(dist: seq<int>)
    ensures Extends(dist, dist)
  {
  }

  lemma ExtendsTransitive(a: seq<int>, b: seq<int>, c: seq<int>)
    requires Extends(a, b) && Extends(b, c)
    ensures Extends(a, c)
  {
  }

  /**
   The do-while loop of bottom-up rounds. It ends, because a round that is followed by another one visits a new vertex.
   */
  method BottomUpPhase(g: Graph, ghost root: nat, distances: array<int>, distance: int, front: set<nat>,
      windowSize: nat, beta: int)
    returns (distance': int, front': set<nat>)
    requires WellFormed(g) && Mirrored(g) && distances.Length == g.n
    requires BottomUpRound(g, root, distances[..], distance, front) && windowSize > 0 && beta > 0
    modifies distances
    ensures BottomUpRound(g, root, distances[..], distance', front') && distance' > distance
    ensures IsLevelSet(distances[..], distance' - 1, front') && Extends(old(distances[..]), distances[..])
    ensures |Unvisited(distances[..])| + |front'| <= |Unvisited(old(distances[..]))|
  {
    hide *;
    ghost var first := distances[..];
    ExtendsSelf(first);
    var oldAwakeCount, awakeCount := windowSize, 0;
    awakeCount, front' := BottomUpOnce(g, root, distances, distance, front);
    distance' := distance + 1;
    while awakeCount >= oldAwakeCount || awakeCount > g.n / beta
      invariant BottomUpRound(g, root, distances[..], distance', front') && distance' > distance
      invariant IsLevelSet(distances[..], distance' - 1, front') && Extends(first, distances[..])
      invariant |Unvisited(distances[..])| + |front'| <= |Unvisited(first)|
      invariant oldAwakeCount > 0 && awakeCount == |front'|
      decreases |Unvisited(distances[..])|, awakeCount
    {
      oldAwakeCount := awakeCount;
      ghost var before := distances[..];
      awakeCount, front' := BottomUpOnce(g, root, distances, distance', front');
      ExtendsTransitive(first, before, distances[..]);
      distance' := distance' + 1;
    }
  }

  /** One whole bottom-up phase, from the queue to the bitmaps and back. */
  method BottomUp(g: Graph, ghost root: nat, distances: array<int>, distance: int, queue: SlidingQueue,
      front: set<nat>, beta: int)
    returns (distance': int, front': set<nat>)
    requires WellFormed(g) && Mirrored(g) && Round(g, root, distances[..], distance, queue, front)
    requires queue.shared != distances
    requires |queue.Window()| > 0 && beta > 0
    modifies distances, queue, queue.shared
    ensures Round(g, root, distances[..], distance', queue, front')
    ensures |Unvisited(distances[..])| + |queue.Window()| <= |Unvisited(old(distances[..]))|
  {
    hide *;
    ghost var before := distances[..];
    OpenRound(g, root, before, distance, queue, front);
    ghost var pushed := queue.Pushed();
    var window := queue.Window();
    front' := QueueToBitmap(window, front);
    FrontHoldsLevel(g, root, before, distance, window, front, front');
    var windowSize := |window|;
    queue.SlideWindow();
    distance', front' := BottomUpPhase(g, root, distances, distance, front', windowSize, beta);
    PushedAreOld(before, distances[..], pushed, distance' - 1, front');
    BitmapToQueue(g, queue, front');
    BackToQueue(g, before, distances[..], distance', pushed, queue.Pushed(), front');
    CloseRound(g, root, distances[..], distance', queue, front');
  }

  lemma OpenRound(g: Graph, root: nat, dist: seq<int>, d: int, queue: SlidingQueue, front: set<nat>)
    requires WellFormed(g) && Round(g, root, dist, d, queue, front)
    ensures |dist| == g.n && queue.Valid() && queue.shared.Length == g.n && queue.outEnd == queue.sharedIn
    ensures Distinct(queue.Pushed())
    ensures forall x :: x in queue.Pushed() ==> 0 <= x < g.n && 0 <= dist[x] < d
    ensures Levels(g, root, dist, d) && IsLevel(dist, d - 1, queue.Window())
    ensures (forall x :: x in front ==> x < g.n) && StaleBitsAreHarmless(g, dist, d, front)
    ensures forall k :: 0 <= k < |queue.Window()| ==> 0 <= queue.Window()[k] < g.n
  {
    assert forall k :: 0 <= k < |queue.Window()| ==> queue.Window()[k] in queue.Pushed();
  }

  lemma FrontHoldsLevel(g: Graph, root: nat, dist: seq<int>, d: int, window: seq<int>, front: set<nat>,
      front': set<nat>)
    requires WellFormed(g) && Levels(g, root, dist, d) && IsLevel(dist, d - 1, window)
    requires (forall x :: x in front ==> x < g.n) && StaleBitsAreHarmless(g, dist, d, front)
    requires forall x: nat :: x in front' <==> x in front || x in window
    ensures BottomUpRound(g, root, dist, d, front')
  {
  }

  lemma CloseRound(g: Graph, root: nat, dist: seq<int>, d: int, queue: SlidingQueue, front: set<nat>)
    requires WellFormed(g) && BottomUpRound(g, root, dist, d, front)
    requires queue.Valid() && queue.shared.Length == g.n && queue.outEnd == queue.sharedIn
    requires Distinct(queue.Pushed())
    requires forall x :: x in queue.Pushed() ==> 0 <= x < g.n && dist[x] >= 0
    requires IsLevel(dist, d - 1, queue.Window())
    ensures Round(g, root, dist, d, queue, front)
  {
  }

  lemma PushedAreOld(before: seq<int>, after: seq<int>, pushed: seq<int>, k: int, front: set<nat>)
    requires Extends(before, after) && IsLevelSet(after, k, front)
    requires forall x :: x in pushed ==> 0 <= x < |before| && 0 <= before[x] < k
    ensures forall x :: x in pushed ==> x !in front
    ensures forall x :: x in front ==> x < |before|
  {
  }

  lemma BackToQueue(g: Graph, before: seq<int>, after: seq<int>, d: int, pushed: seq<int>, pushed': seq<int>,
      front: set<nat>)
    requires WellFormed(g) && |after| == g.n && d >= 1
    requires Extends(before, after) && IsLevelSet(after, d - 1, front) && Appended(pushed, pushed', front)
    requires forall x :: x in pushed ==> 0 <= x < g.n && before[x] >= 0
    ensures IsLevel(after, d - 1, pushed'[|pushed|..])
    ensures forall x :: x in pushed' ==> 0 <= x < g.n && after[x] >= 0
    ensures |front| == |pushed'[|pushed|..]|
    ensures StaleBitsAreHarmless(g, after, d, front)
  {
    forall x | x in pushed'
      ensures 0 <= x < g.n && after[x] >= 0
    {
      assert x in pushed || x in pushed'[|pushed|..];
    }
    AppendedSize(pushed, pushed', front);
  }

  /** Push every vertex whose bit is set, and slide the window over them. */
  method BitmapToQueue(g: Graph, queue: SlidingQueue, bm: set<nat>)
    requires queue.Valid() && queue.shared.Length == g.n && queue.outEnd == queue.sharedIn
    requires Distinct(queue.Pushed())
    requires forall x :: x in queue.Pushed() ==> 0 <= x < g.n && x !in bm
    requires forall x :: x in bm ==> x < g.n
    modifies queue, queue.shared
    ensures queue.Valid() && Distinct(queue.Pushed()) && Appended(old(queue.Pushed()), queue.Pushed(), bm)
    ensures queue.outEnd == queue.sharedIn
    ensures queue.Window() == queue.Pushed()[|old(queue.Pushed())|..]
  {
    var local: set<nat> := {};
    for n := 0 to g.n
      invariant forall x: nat :: x in local <==> x in bm && x < n
      invariant queue.Valid() && queue.Pushed() == old(queue.Pushed()) && queue.outEnd == old(queue.outEnd)
    {
      if n in bm {
        local := local + {n};
      }
    }
    assert local == bm;
    Flush(g, queue, local);
    queue.SlideWindow();
  }

  lemma AppendedSize(before: seq<int>, after: seq<int>, items: set<nat>)
    requires Appended(before, after, items)
    ensures |after| - |before| == |items|
  {
    var tail := after[|before|..];
    assert forall i :: 0 <= i < |tail| ==> tail[i] == after[|before| + i];
    DistinctSize(tail, items);
  }

  /**
   CSR::do_bfs. For every graph whose in-arrays mirror its out-arrays, every root and every positive
   alpha and beta, the entries end up as the hop distances from the root.
   */
  method Bfs(g: Graph, root: nat, alpha: int, beta: int) returns (distances: array<int>)
    requires WellFormed(g) && Mirrored(g) && root < g.n && alpha > 0 && beta > 0
    ensures fresh(distances) && Exact(g, root, distances[..])
  {
    var queue;
    distances, queue := FirstRound(g, root);
    var front: set<nat> := {};
    var edgesToCheck: int := NumEdges(g);
    var scoutCount: int := OutDegree(g, root);
    var distance := 1;
    hide *;
    while |queue.Window()| > 0
      invariant fresh(distances) && fresh(queue) && fresh(queue.shared) && queue.shared != distances
      invariant queue.Valid() && Round(g, root, distances[..], distance, queue, front)
      decreases |Unvisited(distances[..])|, |queue.Window()|
    {
      OpenRound(g, root, distances[..], distance, queue, front);
      if scoutCount > TruncatedDivision(edgesToCheck, alpha) {
        distance, front := BottomUp(g, root, distances, distance, queue, front, beta);
        scoutCount := 1;
      } else {
        edgesToCheck := edgesToCheck - scoutCount;
        ghost var woken;
        scoutCount, woken := TopDownRound(g, root, distances, distance, queue, front);
        distance := distance + 1;
      }
      OpenRound(g, root, distances[..], distance, queue, front);
    }
    OpenRound(g, root, distances[..], distance, queue, front);
    NoLevelLeft(distances[..], distance - 1, queue.Window());
    LastLevelEmpty(g, root, distances[..], distance);
  }

  /** The root alone, at distance 0. */
  method FirstRound(g: Graph, root: nat) returns (distances: array<int>, queue: SlidingQueue)
    requires WellFormed(g) && root < g.n
    ensures fresh(distances) && fresh(queue) && fresh(queue.shared) && queue.shared != distances
    ensures Round(g, root, distances[..], 1, queue, {})
  {
    distances := InitDistances(g);
    distances[root] := 0;
    queue := new SlidingQueue(g.n);
    queue.PushBack(root);
    queue.SlideWindow();
    assert queue.Pushed() == [root];
    assert queue.Window() == [root];
    ReachedAtStart(UnitArcs(g), root);
  }

  lemma NoLevelLeft(dist: seq<int>, k: int, window: seq<int>)
    requires IsLevel(dist, k, window) && |window| == 0
    ensures forall v: nat :: v < |dist| ==> dist[v] != k
  {
    forall v: nat | v < |dist| ensures dist[v] != k { assert v !in window; }
  }
}
