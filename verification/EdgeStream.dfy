/** WeightedEdgeStream: a list of edges in compact arrays, and its permutations. */
module EdgeStreams {
  import opened Csr
  import opened ByteArrays
  import opened Ranges

  const WORD_LIMIT: nat := 0x1_0000_0000_0000_0000    // values of uint64_t lie below

  datatype Edge = Edge(source: nat, destination: nat, weight: int)

  // ----- permutations and what storage makes of an edge

  ghost predicate Permutation(p: seq<nat>, n: nat)
  {
    |p| == n && (forall i :: 0 <= i < n ==> p[i] < n) && forall i, j :: 0 <= i < j < n ==> p[i] != p[j]
  }

  function Stored(e: Edge, k: nat): Edge
  {
    Edge(Truncated(e.source, k), Truncated(e.destination, k), e.weight)
  }

  /** The edges in the order of `p`, as they come back from elements of `k` bytes. */
  function Rearranged(edges: seq<Edge>, p: seq<nat>, k: nat): (r: seq<Edge>)
    requires |p| == |edges| && forall i :: 0 <= i < |p| ==> p[i] < |edges|
    ensures |r| == |edges| && forall i :: 0 <= i < |p| ==> r[i] == Stored(edges[p[i]], k)
  {
    seq(|p|, i requires 0 <= i < |p| => Stored(edges[p[i]], k))
  }

  /** `m_max_vertex_id` is the largest endpoint. */
  ghost predicate IsMax(edges: seq<Edge>, m: nat)
  {
    && (forall i :: 0 <= i < |edges| ==> edges[i].source <= m && edges[i].destination <= m)
    && (if edges == [] then m == 0
      else exists i :: 0 <= i < |edges| && (edges[i].source == m || edges[i].destination == m))
  }

  predicate Accepted(m: nat)
  {
    0 < BytesPerElement(m) <= WORD
  }

  /** Exactly what the caller must know of the largest vertex for its edges to survive. */
  predicate Storable(m: nat)
  {
    m > 1 && !PowerOf256(m)
  }

  function Picked<T>(s: seq<T>, p: seq<nat>): (r: seq<T>)
    requires |p| == |s| && forall i :: 0 <= i < |p| ==> p[i] < |s|
    ensures |r| == |s| && forall i :: 0 <= i < |p| ==> r[i] == s[p[i]]
  {
    seq(|p|, i requires 0 <= i < |p| => s[p[i]])
  }

  lemma {:induction false} PickAll<T>(s: seq<T>, p: seq<nat>)
    requires Permutation(p, |s|)
    ensures multiset(Picked(s, p)) == multiset(s)
  {
    var picked := Picked(s, p);
    if s == [] {
      assert picked == [];
    } else {
      var n := |s|;
      var k := Find(p, n, n - 1);
      var shorter := Moved(p, k);
      var front, last := s[..n - 1], s[n - 1];
      PickAll(front, shorter);
      assert picked[..k] + picked[k + 1..] == Picked(front, shorter);
      assert picked == picked[..k] + [last] + picked[k + 1..];
      assert s == front + [last];
      assert multiset(picked) == multiset(picked[..k] + picked[k + 1..]) + multiset{last};
    }
  }

  function Moved(p: seq<nat>, k: nat): seq<nat>
    requires k < |p|
  {
    p[..k] + p[k + 1..]
  }

  /** A permutation takes every value. */
  lemma Find(p: seq<nat>, n: nat, x: nat) returns (k: nat)
    requires Permutation(p, n) && x < n
    ensures k < n && p[k] == x
  {
    Surjective(p, n);
    assert x in p;
    var i :| 0 <= i < |p| && p[i] == x;
    k := i;
  }

  lemma Surjective(p: seq<nat>, n: nat)
    requires Permutation(p, n)
    ensures forall x: nat :: x < n ==> x in p
  {
    var image := set i | 0 <= i < n :: p[i];
    ImageSize(p, n);
    SubsetSize(image, UpTo(n));
    forall x: nat | x < n ensures x in p { assert x in image; }
  }

  lemma {:induction false} ImageSize(p: seq<nat>, k: nat)
    requires k <= |p| && forall i, j :: 0 <= i < j < |p| ==> p[i] != p[j]
    ensures |set i | 0 <= i < k :: p[i]| == k
  {
    if k > 0 {
      ImageSize(p, k - 1);
      assert (set i | 0 <= i < k :: p[i]) == (set i | 0 <= i < k - 1 :: p[i]) + {p[k - 1]};
    }
  }

  lemma StoredIsKept(e: Edge, m: nat)
    requires Storable(m) && e.source <= m && e.destination <= m
    ensures Stored(e, BytesPerElement(m)) == e
  {
    FitsItselfIff(m);
    FitsIsKept(e.source, BytesPerElement(m));
    FitsIsKept(e.destination, BytesPerElement(m));
  }

  /** With a storable largest vertex the arrays hold the same edges in another order. */
  lemma RearrangedIsPermuted(edges: seq<Edge>, p: seq<nat>, m: nat)
    requires Permutation(p, |edges|) && IsMax(edges, m) && Storable(m)
    ensures multiset(Rearranged(edges, p, BytesPerElement(m))) == multiset(edges)
    ensures forall i :: 0 <= i < |edges| ==> Rearranged(edges, p, BytesPerElement(m))[i] == edges[p[i]]
  {
    var r := Rearranged(edges, p, BytesPerElement(m));
    forall i | 0 <= i < |edges| ensures r[i] == edges[p[i]] {
      StoredIsKept(edges[p[i]], m);
    }
    assert r == Picked(edges, p);
    PickAll(edges, p);
  }

  lemma OneByteFor256()
    ensures BytesPerElement(256) == 1
  {
    assert CeilLog2(256) == 8;
  }

  /** The vertex 256 gets one byte and turns into 0. */
  lemma VertexTurnsIntoZero(w: int)
    ensures var edges := [Edge(256, 1, w)];
      IsMax(edges, 256) && Rearranged(edges, [0], BytesPerElement(256)) == [Edge(0, 1, w)]
  {
    OneByteFor256();
    hide BytesPerElement;
    assert Pow256(1) == 256 && Truncated(256, 1) == 0 && Truncated(1, 1) == 1;
    var edges := [Edge(256, 1, w)];
    assert Stored(edges[0], 1) == Edge(0, 1, w);
    assert edges[0].source == 256;
  }

  /** A largest vertex that is a power of 256 loses its own edges. */
  lemma PowerIsLost(edges: seq<Edge>, p: seq<nat>, m: nat)
    requires Permutation(p, |edges|) && edges != [] && IsMax(edges, m) && m > 1 && PowerOf256(m)
    ensures multiset(Rearranged(edges, p, BytesPerElement(m))) != multiset(edges)
  {
    var k := BytesPerElement(m);
    var r := Rearranged(edges, p, k);
    var i :| 0 <= i < |edges| && (edges[i].source == m || edges[i].destination == m);
    forall j | 0 <= j < |r| ensures r[j].source < m && r[j].destination < m {
      FitsIsKept(edges[p[j]].source, k);
      FitsIsKept(edges[p[j]].destination, k);
    }
    assert edges[i] !in multiset(r) && edges[i] in multiset(edges);
  }

  // ----- the tasks of a permutation

  // The items from `at` on, up to `end`, that a task still has to move.
  datatype Task = Task(at: nat, end: nat)

  ghost predicate Tiles(tasks: seq<Task>, n: nat)
  {
    && (forall t :: 0 <= t < |tasks| ==> tasks[t].at <= tasks[t].end <= n)
    && (if tasks == [] then n == 0 else tasks[0].at == 0 && tasks[|tasks| - 1].end == n)
    && forall t :: 0 <= t < |tasks| - 1 ==> tasks[t].end == tasks[t + 1].at
  }

  predicate Covers(tasks: seq<Task>, t: nat, i: nat)
  {
    t < |tasks| && tasks[t].at <= i < tasks[t].end
  }

  /** Some task still covers item `i`. */
  ghost predicate Pending(tasks: seq<Task>, i: nat)
  {
    exists t: nat :: Covers(tasks, t, i)
  }

  lemma {:induction false} TilesInOrder(tasks: seq<Task>, n: nat, t: nat, u: nat)
    requires Tiles(tasks, n) && t < u < |tasks|
    ensures tasks[t].end <= tasks[u].at
    decreases u
  {
    if t + 1 < u {
      TilesInOrder(tasks, n, t, u - 1);
    }
    assert tasks[u - 1].end == tasks[u].at;
  }

  /** The ranges of the tasks tile `[0, n)`: every item is in exactly one of them. */
  lemma TilesExactly(tasks: seq<Task>, n: nat, i: nat)
    requires Tiles(tasks, n) && i < n
    ensures exists t: nat :: Covers(tasks, t, i)
    ensures forall t: nat, u: nat :: Covers(tasks, t, i) && Covers(tasks, u, i) ==> t == u
  {
    var t := LastStart(tasks, n, i, |tasks| - 1);
    forall t: nat, u: nat | t < u && Covers(tasks, t, i) && Covers(tasks, u, i) ensures false {
      TilesInOrder(tasks, n, t, u);
    }
  }

  lemma {:induction false} LastStart(tasks: seq<Task>, n: nat, i: nat, from: nat) returns (t: nat)
    requires Tiles(tasks, n) && from < |tasks| && i < tasks[from].end
    ensures Covers(tasks, t, i)
    decreases from
  {
    if tasks[from].at <= i {
      t := from;
    } else {
      assert tasks[from - 1].end == tasks[from].at;
      t := LastStart(tasks, n, i, from - 1);
    }
  }

  function Max(a: nat, b: nat): nat
  {
    if a < b then b else a
  }

  function Min(a: nat, b: nat): nat
  {
    if a < b then a else b
  }

  /** Where task `i` starts: the first `odd` tasks have one item more. */
  function Boundary(i: nat, items: nat, odd: nat): nat
  {
    i * items + Min(i, odd)
  }

  lemma NextBoundary(i: nat, items: nat, odd: nat)
    ensures Boundary(i + 1, items, odd) == Boundary(i, items, odd) + items + if i < odd then 1 else 0
  {
    assert (i + 1) * items == i * items + items;
  }

  lemma LastBoundary(n: nat, k: nat)
    requires k > 0
    ensures Boundary(0, n / k, n % k) == 0 && Boundary(k, n / k, n % k) == n
  {
  }

  /** The split of `do_permute_edges` for `n > 0` edges. */
  method MakeTasks(n: nat, hardwareConcurrency: nat) returns (tasks: seq<Task>)
    requires n > 0
    ensures Tiles(tasks, n)
  {
    var numTasks := Min(n, Max(4, hardwareConcurrency * 8));
    var itemsPerTask, oddTasks := n / numTasks, n % numTasks;
    LastBoundary(n, numTasks);
    assert numTasks > 0;
    hide Boundary, Min, Max;
    var start := 0;
    tasks := [];
    for i := 0 to numTasks
      invariant |tasks| == i && start == Boundary(i, itemsPerTask, oddTasks)
      invariant i > 0 ==> tasks[0].at == 0 && tasks[i - 1].end == start
      invariant forall t :: 0 <= t < i ==> tasks[t].at <= tasks[t].end <= start
      invariant forall t :: 0 <= t < i - 1 ==> tasks[t].end == tasks[t + 1].at
    {
      NextBoundary(i, itemsPerTask, oddTasks);
      var length := itemsPerTask + if i < oddTasks then 1 else 0;
      tasks := tasks + [Task(start, start + length)];
      start := start + length;
    }
  }

  function Remaining(tasks: seq<Task>): nat
  {
    if tasks == [] then 0
    else
      var last := tasks[|tasks| - 1];
      Remaining(tasks[..|tasks| - 1]) + if last.at < last.end then last.end - last.at else 0
  }

  lemma {:induction false} NoneRemaining(tasks: seq<Task>)
    requires Remaining(tasks) == 0
    ensures forall t: nat, i: nat :: !Covers(tasks, t, i)
  {
    if tasks != [] {
      var front, last := tasks[..|tasks| - 1], tasks[|tasks| - 1];
      assert tasks == front + [last];
      NoneRemaining(front);
      forall t: nat, i: nat ensures !Covers(tasks, t, i) {
        assert !Covers(front, t, i);
      }
    }
  }

  lemma {:induction false} SomeRemaining(tasks: seq<Task>) returns (t: nat)
    requires Remaining(tasks) > 0
    ensures t < |tasks| && tasks[t].at < tasks[t].end
  {
    var last := |tasks| - 1;
    if tasks[last].at < tasks[last].end {
      t := last;
    } else {
      t := SomeRemaining(tasks[..last]);
    }
  }

  /** The task after it moved one item. */
  function Stepped(tasks: seq<Task>, t: nat): seq<Task>
    requires t < |tasks|
  {
    tasks[t := Task(tasks[t].at + 1, tasks[t].end)]
  }

  lemma {:induction false} SteppedRemaining(tasks: seq<Task>, t: nat)
    requires t < |tasks| && tasks[t].at < tasks[t].end
    ensures Remaining(Stepped(tasks, t)) == Remaining(tasks) - 1
  {
    var last := |tasks| - 1;
    if t == last {
      assert Stepped(tasks, t)[..last] == tasks[..last];
    } else {
      SteppedRemaining(tasks[..last], t);
      assert Stepped(tasks, t)[..last] == Stepped(tasks[..last], t);
    }
  }

  /** Only the item that was moved leaves the tasks. */
  lemma SteppedCovers(tasks: seq<Task>, t: nat, u: nat, i: nat)
    requires t < |tasks| && Covers(tasks, u, i) && i != tasks[t].at
    ensures Covers(Stepped(tasks, t), u, i)
  {
  }

  // ----- moving the items

  /** Every item that no task still covers is in place. */
  ghost predicate Placed(olds: seq<nat>, p: seq<nat>, k: nat, tasks: seq<Task>, news: seq<nat>)
  {
    && |p| == |news| && (forall i :: 0 <= i < |p| ==> p[i] < |olds|)
    && forall i: nat :: i < |news| ==> news[i] == Truncated(olds[p[i]], k) || Pending(tasks, i)
  }

  ghost predicate PlacedWeights(olds: seq<int>, p: seq<nat>, tasks: seq<Task>, news: seq<int>)
  {
    && |p| == |news| && (forall i :: 0 <= i < |p| ==> p[i] < |olds|)
    && forall i: nat :: i < |news| ==> news[i] == olds[p[i]] || Pending(tasks, i)
  }

  lemma PlaceOne(olds: seq<nat>, p: seq<nat>, k: nat, tasks: seq<Task>, news: seq<nat>, t: nat)
    requires Placed(olds, p, k, tasks, news) && t < |tasks| && tasks[t].at < |news|
    ensures p[tasks[t].at] < |olds|
    ensures Placed(olds, p, k, Stepped(tasks, t), news[tasks[t].at := Truncated(olds[p[tasks[t].at]], k)])
  {
    var at := tasks[t].at;
    forall i: nat | i < |news| && i != at && news[i] != Truncated(olds[p[i]], k)
      ensures Pending(Stepped(tasks, t), i)
    {
      var u: nat :| Covers(tasks, u, i);
      SteppedCovers(tasks, t, u, i);
    }
  }

  lemma PlaceOneWeight(olds: seq<int>, p: seq<nat>, tasks: seq<Task>, news: seq<int>, t: nat)
    requires PlacedWeights(olds, p, tasks, news) && t < |tasks| && tasks[t].at < |news|
    ensures p[tasks[t].at] < |olds|
    ensures PlacedWeights(olds, p, Stepped(tasks, t), news[tasks[t].at := olds[p[tasks[t].at]]])
  {
    var at := tasks[t].at;
    forall i: nat | i < |news| && i != at && news[i] != olds[p[i]]
      ensures Pending(Stepped(tasks, t), i)
    {
      var u: nat :| Covers(tasks, u, i);
      SteppedCovers(tasks, t, u, i);
    }
  }

  lemma NothingPlaced(olds: seq<nat>, p: seq<nat>, k: nat, tasks: seq<Task>, news: seq<nat>, weights: seq<int>,
      newWeights: seq<int>)
    requires |p| == |news| == |newWeights| && Tiles(tasks, |p|) && forall i :: 0 <= i < |p| ==>
      p[i] < |olds| && p[i] < |weights|
    ensures Placed(olds, p, k, tasks, news) && PlacedWeights(weights, p, tasks, newWeights)
  {
    forall i: nat | i < |p| ensures Pending(tasks, i) { TilesExactly(tasks, |p|, i); }
  }

  ghost predicate Inside(tasks: seq<Task>, n: nat)
  {
    forall t :: 0 <= t < |tasks| ==> tasks[t].end <= n
  }

  // ----- the stream

  ghost function Zip(sources: seq<nat>, destinations: seq<nat>, weights: seq<int>, n: nat): (edges: seq<Edge>)
    requires n <= |sources| && n <= |destinations| && n == |weights|
    ensures |edges| == n && forall i :: 0 <= i < n ==> edges[i] == Edge(sources[i], destinations[i], weights[i])
  {
    seq(n, i requires 0 <= i < n => Edge(sources[i], destinations[i], weights[i]))
  }

  lemma AllPlaced(sources: seq<nat>, destinations: seq<nat>, weights: seq<int>, p: seq<nat>, k: nat, tasks: seq<Task>,
      newSources: seq<nat>, newDestinations: seq<nat>, newWeights: seq<int>)
    requires |p| == |weights| <= |sources| && |p| <= |destinations| && (forall i :: 0 <= i < |p| ==> p[i] < |p|)
    requires |newSources| == |newDestinations| == |newWeights| == |p| && Remaining(tasks) == 0
    requires Placed(sources, p, k, tasks, newSources) && Placed(destinations, p, k, tasks, newDestinations)
    requires PlacedWeights(weights, p, tasks, newWeights)
    ensures Zip(newSources, newDestinations, newWeights, |p|) ==
      Rearranged(Zip(sources, destinations, weights, |p|), p, k)
  {
    NoneRemaining(tasks);
  }

  /** The old arrays, the new ones, and nothing shared between them. */
  ghost predicate Separate(sources: CByteArray, destinations: CByteArray, newSources: CByteArray,
      newDestinations: CByteArray, n: nat, k: nat)
    reads sources, destinations, newSources, newDestinations
  {
    && sources.Valid() && destinations.Valid() && newSources.Valid() && newDestinations.Valid()
    && newSources.bytesPerElement == newDestinations.bytesPerElement == k
    && newSources.capacity == newDestinations.capacity == n
    && n <= sources.capacity && n <= destinations.capacity
    && newSources.data != newDestinations.data && newSources.data != sources.data
    && newSources.data != destinations.data
    && newDestinations.data != sources.data && newDestinations.data != destinations.data
  }

  /** The tasks run in any order, one item at a time. */
  method MoveItems(sources: CByteArray, destinations: CByteArray, weights: seq<int>, p: seq<nat>, split: seq<Task>,
      newSources: CByteArray, newDestinations: CByteArray)
    returns (newWeights: seq<int>)
    requires |p| == |weights| && (forall i :: 0 <= i < |p| ==> p[i] < |p|) && Tiles(split, |p|)
    requires Separate(sources, destinations, newSources, newDestinations, |p|, newSources.bytesPerElement)
    modifies newSources.data, newDestinations.data
    ensures |newWeights| == |p|
    ensures Zip(newSources.Contents(), newDestinations.Contents(), newWeights, |p|)
         == Rearranged(old(Zip(sources.Contents(), destinations.Contents(), weights, |p|)), p,
           newSources.bytesPerElement)
  {
    ghost var olds, oldd, k := sources.Contents(), destinations.Contents(), newSources.bytesPerElement;
    newWeights := seq(|p|, _ => 0);
    var tasks := split;
    NothingPlaced(olds, p, k, tasks, newSources.Contents(), weights, newWeights);
    NothingPlaced(oldd, p, k, tasks, newDestinations.Contents(), weights, newWeights);
    assert Inside(tasks, |p|);
    hide Placed, PlacedWeights, Tiles, Inside, Remaining, Stepped;
    while Remaining(tasks) > 0
      invariant |newWeights| == |p| && Inside(tasks, |p|)
      invariant sources.Contents() == olds && destinations.Contents() == oldd
      invariant Placed(olds, p, k, tasks, newSources.Contents())
      invariant Placed(oldd, p, k, tasks, newDestinations.Contents())
      invariant PlacedWeights(weights, p, tasks, newWeights)
      decreases Remaining(tasks)
    {
      var t := AnyTask(tasks, |p|);
      var i := tasks[t].at;
      PlaceOne(olds, p, k, tasks, newSources.Contents(), t);
      PlaceOne(oldd, p, k, tasks, newDestinations.Contents(), t);
      PlaceOneWeight(weights, p, tasks, newWeights, t);
      SteppedRemaining(tasks, t);
      SteppedInside(tasks, t, |p|);
      var source := sources.GetValueAt(p[i]);
      newSources.SetValueAt(i, source);
      var destination := destinations.GetValueAt(p[i]);
      newDestinations.SetValueAt(i, destination);
      newWeights := newWeights[i := weights[p[i]]];
      tasks := Stepped(tasks, t);
    }
    AllPlaced(olds, oldd, weights, p, k, tasks, newSources.Contents(), newDestinations.Contents(), newWeights);
  }

  method AnyTask(tasks: seq<Task>, n: nat) returns (t: nat)
    requires Remaining(tasks) > 0 && Inside(tasks, n)
    ensures t < |tasks| && tasks[t].at < tasks[t].end <= n
  {
    ghost var some := SomeRemaining(tasks);
    t :| t < |tasks| && tasks[t].at < tasks[t].end;
  }

  lemma SteppedInside(tasks: seq<Task>, t: nat, n: nat)
    requires Inside(tasks, n) && t < |tasks|
    ensures Inside(Stepped(tasks, t), n)
  {
  }

  lemma WordIs()
    ensures Pow256(8) == WORD_LIMIT
  {
    assert Pow256(1) == 0x100 && Pow256(2) == 0x1_0000;
    assert Pow256(3) == 0x100_0000;
    assert Pow256(4) == 0x1_0000_0000;
    assert Pow256(5) == 0x100_0000_0000;
    assert Pow256(6) == 0x1_0000_0000_0000;
    assert Pow256(7) == 0x100_0000_0000_0000;
  }

  /** A vertex is a 64-bit integer, so only 0 and 1 as the largest vertex are refused. */
  lemma AcceptedIff(m: nat)
    requires m < WORD_LIMIT
    ensures Accepted(m) <==> m > 1
  {
    if m >= 1 {
      BytesPerElementIs(m);
      WordIs();
      if BytesPerElement(m) - 1 > 8 {
        Pow256Monotone(8, BytesPerElement(m) - 1);
      }
    }
  }

  /** A value of 64 bits survives in 8 bytes. */
  lemma WordIsKept(value: nat)
    requires value < WORD_LIMIT
    ensures Truncated(value, 8) == value
  {
    WordIs();
    FitsIsKept(value, 8);
  }

  ghost predicate Words(edges: seq<Edge>)
  {
    forall i :: 0 <= i < |edges| ==> edges[i].source < WORD_LIMIT && edges[i].destination < WORD_LIMIT
  }

  /** A copy with twice the capacity. */
  method Doubled(before: CByteArray) returns (grown: CByteArray)
    requires before.Valid() && before.bytesPerElement == 8 && forall i :: 0 <= i < before.capacity ==>
      before.Contents()[i] < WORD_LIMIT
    ensures fresh(grown) && fresh(grown.data) && grown.Valid() && grown.bytesPerElement == 8
    ensures grown.capacity == before.capacity * 2
    ensures grown.Contents()[..before.capacity] == before.Contents()
  {
    grown := new CByteArray(8, before.capacity * 2);
    for i := 0 to before.capacity
      invariant fresh(grown.data) && grown.Valid() && grown.bytesPerElement == 8
      invariant grown.capacity == before.capacity * 2
      invariant grown.Contents()[..i] == before.Contents()[..i]
    {
      var value := before.GetValueAt(i);
      WordIsKept(value);
      grown.SetValueAt(i, value);
    }
  }

  class WeightedEdgeStream {
    var sources: CByteArray
    var destinations: CByteArray
    var weights: seq<int>
    var numEdges: nat
    var maxVertexId: nat

    ghost predicate Valid()
      reads this, sources, destinations
    {
      && sources.Valid() && destinations.Valid() && sources != destinations && sources.data != destinations.data
      && maxVertexId < WORD_LIMIT && |weights| == numEdges && numEdges <= sources.capacity
      && numEdges <= destinations.capacity
    }

    ghost function Edges(): (edges: seq<Edge>)
      reads this, sources, destinations, sources.data, destinations.data
      requires Valid()
      ensures |edges| == numEdges
    {
      Zip(sources.Contents(), destinations.Contents(), weights, numEdges)
    }

    /** The edge at a position; an index out of bounds is an invalid argument. */
    method Get(index: nat) returns (edge: Option<Edge>)
      requires Valid()
      ensures edge == if index < numEdges then Some(Edges()[index]) else None
    {
      if index >= numEdges {
        return None;
      }
      var source := sources.GetValueAt(index);
      var destination := destinations.GetValueAt(index);
      edge := Some(Edge(source, destination, weights[index]));
    }

    /**
     Rewrite the three arrays in the order of `p`, by tasks that run in parallel. The new arrays have elements of the
     size computed for the largest vertex, which must be acceptable to their constructor.
     */
    method DoPermuteEdges(p: seq<nat>, hardwareConcurrency: nat) returns (ok: bool)
      requires Valid() && numEdges > 0 && |p| == numEdges && forall i :: 0 <= i < |p| ==> p[i] < numEdges
      modifies this
      ensures Valid() && numEdges == old(numEdges) && maxVertexId == old(maxVertexId)
      ensures ok <==> Accepted(maxVertexId)
      ensures if ok then Edges() == Rearranged(old(Edges()), p, BytesPerElement(maxVertexId))
        else Edges() == old(Edges())
      ensures ok ==> fresh(sources) && fresh(destinations) && fresh(sources.data) && fresh(destinations.data)
    {
      var k := BytesPerElement(maxVertexId);
      var created := Create(k, numEdges);
      if created.None? {
        return false;
      }
      var newSources := created.value;
      created := Create(k, numEdges);
      var newDestinations := created.value;
      var tasks := MakeTasks(numEdges, hardwareConcurrency);
      var newWeights := MoveItems(sources, destinations, weights, p, tasks, newSources, newDestinations);
      sources, destinations, weights := newSources, newDestinations, newWeights;
      ok := true;
    }

    /**
     A random permutation `p`. Edges are lost exactly when the largest vertex is a power of 256; a stream whose
     largest vertex is 0 or 1 is refused and stays as it is.
     */
    method Permute(p: seq<nat>, hardwareConcurrency: nat) returns (ok: bool)
      requires Valid() && Permutation(p, numEdges) && IsMax(Edges(), maxVertexId)
      modifies this
      ensures Valid() && numEdges == old(numEdges) && maxVertexId == old(maxVertexId)
      ensures ok <==> numEdges == 0 || maxVertexId > 1
      ensures !ok ==> Edges() == old(Edges())
      ensures ok ==> (multiset(Edges()) == multiset(old(Edges())) <==> numEdges == 0 || !PowerOf256(maxVertexId))
      ensures ok && numEdges > 0 && !PowerOf256(maxVertexId) ==>
        IsMax(Edges(), maxVertexId) && forall i :: 0 <= i < numEdges ==> Edges()[i] == old(Edges())[p[i]]
    {
      if numEdges <= 0 {
        return true;
      }
      ghost var edges := Edges();
      ok := DoPermuteEdges(p, hardwareConcurrency);
      AcceptedIff(maxVertexId);
      if ok {
        if PowerOf256(maxVertexId) {
          PowerIsLost(edges, p, maxVertexId);
        } else {
          RearrangedIsPermuted(edges, p, maxVertexId);
          MaxPermuted(edges, p, Edges(), maxVertexId);
        }
      }
    }

    /**
     Sort by <source, destination> or by <destination, source>; `p` is the order that `common::sort` finds. The edges
     come out sorted and are the same as before, again only if the largest vertex survives.
     */
    method Sort(key: Order, p: seq<nat>, hardwareConcurrency: nat) returns (ok: bool)
      requires Valid() && IsMax(Edges(), maxVertexId) && Permutation(p, numEdges) && Sorts(key, Edges(), p)
      modifies this
      ensures Valid() && numEdges == old(numEdges) && maxVertexId == old(maxVertexId)
      ensures ok <==> numEdges == 0 || maxVertexId > 1
      ensures !ok ==> Edges() == old(Edges())
      ensures ok && (numEdges == 0 || !PowerOf256(maxVertexId)) ==>
        Sorted(key, Edges()) && multiset(Edges()) == multiset(old(Edges())) && IsMax(Edges(), maxVertexId)
    {
      ok := Permute(p, hardwareConcurrency);
    }

    /** The vertices that occur in the stream, in the order `order` of the hash map. */
    method GetVertexList(order: seq<nat>) returns (vertices: Option<CByteArray>)
      requires Valid() && Lists(order, Edges())
      ensures vertices.Some? <==> Accepted(maxVertexId)
      ensures vertices.Some? ==> fresh(vertices.value) && fresh(vertices.value.data) && vertices.value.Valid()
      ensures vertices.Some? ==> |vertices.value.Contents()| == |order|
      ensures vertices.Some? ==> forall i :: 0 <= i < |order| ==>
        vertices.value.Contents()[i] == Truncated(order[i], BytesPerElement(maxVertexId))
    {
      vertices := Create(BytesPerElement(maxVertexId), |order|);
      if vertices.Some? {
        var list := vertices.value;
        for i := 0 to |order|
          invariant fresh(list.data) && list.Valid() && list.capacity == |order|
          invariant list.bytesPerElement == BytesPerElement(maxVertexId)
          invariant forall j :: 0 <= j < i ==> list.Contents()[j] == Truncated(order[j], BytesPerElement(maxVertexId))
        {
          list.SetValueAt(i, order[i]);
        }
      }
    }

    /** Load the edges of a vector. */
    constructor FromVector(vector: seq<Edge>)
      requires Words(vector)
      ensures Valid() && Edges() == vector && IsMax(vector, maxVertexId)
    {
      var ss, ds, ws, m := CopyAll(vector);
      sources, destinations, weights, numEdges, maxVertexId := ss, ds, ws, |vector|, m;
    }

    /** Read edges one by one, with arrays that double their capacity when they are full. */
    constructor FromReader(input: seq<Edge>)
      requires Words(input)
      ensures Valid() && Edges() == input && IsMax(input, maxVertexId)
    {
      var ss, ds, ws, n, m := ReadAll(input);
      sources, destinations, weights, numEdges, maxVertexId := ss, ds, ws, n, m;
    }
  }

  datatype Order = BySource | ByDestination

  /** The comparators of the two sorts. */
  predicate Before(key: Order, a: Edge, b: Edge)
  {
    match key
    case BySource => a.source < b.source || (a.source == b.source && a.destination < b.destination)
    case ByDestination => a.destination < b.destination || (a.destination == b.destination && a.source < b.source)
  }

  ghost predicate Sorted(key: Order, edges: seq<Edge>)
  {
    forall i, j :: 0 <= i < j < |edges| ==> !Before(key, edges[j], edges[i])
  }

  ghost predicate Sorts(key: Order, edges: seq<Edge>, p: seq<nat>)
    requires Permutation(p, |edges|)
  {
    forall i, j :: 0 <= i < j < |p| ==> !Before(key, edges[p[j]], edges[p[i]])
  }

  ghost predicate EndOf(edges: seq<Edge>, x: nat)
  {
    exists i :: 0 <= i < |edges| && (edges[i].source == x || edges[i].destination == x)
  }

  /** Every endpoint once. */
  ghost predicate Lists(order: seq<nat>, edges: seq<Edge>)
  {
    && (forall i, j :: 0 <= i < j < |order| ==> order[i] != order[j])
    && forall x: nat :: x in order <==> EndOf(edges, x)
  }

  /** The vertex list is exact if the largest vertex survives; otherwise that vertex turns into 0. */
  lemma VertexListIff(order: seq<nat>, edges: seq<Edge>, m: nat)
    requires Lists(order, edges) && edges != [] && IsMax(edges, m) && m > 1
    ensures !PowerOf256(m) <==> forall i :: 0 <= i < |order| ==> Truncated(order[i], BytesPerElement(m)) == order[i]
  {
    var k := BytesPerElement(m);
    FitsItselfIff(m);
    FitsIsKept(m, k);
    assert EndOf(edges, m);
    forall i | 0 <= i < |order| && !PowerOf256(m)
      ensures Truncated(order[i], k) == order[i]
    {
      assert order[i] in order;
      FitsIsKept(order[i], k);
    }
    var j :| 0 <= j < |order| && order[j] == m;
  }

  lemma MaxPermuted(edges: seq<Edge>, p: seq<nat>, after: seq<Edge>, m: nat)
    requires IsMax(edges, m) && Permutation(p, |edges|) && |after| == |edges|
    requires forall i :: 0 <= i < |edges| ==> after[i] == edges[p[i]]
    ensures IsMax(after, m)
  {
    if edges != [] {
      var k: nat :| k < |edges| && (edges[k].source == m || edges[k].destination == m);
      var i := Find(p, |edges|, k);
      assert after[i] == edges[k];
    }
  }

  method CopyAll(vector: seq<Edge>)
    returns (sources: CByteArray, destinations: CByteArray, weights: seq<int>, maxVertexId: nat)
    requires Words(vector)
    ensures sources.Valid() && destinations.Valid() && sources != destinations && sources.data != destinations.data
    ensures sources.capacity == destinations.capacity == |vector| && |weights| == |vector|
    ensures Zip(sources.Contents(), destinations.Contents(), weights, |vector|) == vector
    ensures IsMax(vector, maxVertexId) && maxVertexId < WORD_LIMIT
  {
    sources := new CByteArray(8, |vector|);
    destinations := new CByteArray(8, |vector|);
    hide *;
    weights, maxVertexId := [], 0;
    NothingHeld(sources, destinations, vector);
    for i := 0 to |vector|
      invariant fresh(sources.data) && fresh(destinations.data)
      invariant Holds(sources, destinations, weights, vector, i)
      invariant sources.capacity == destinations.capacity == |vector|
      invariant IsMax(vector[..i], maxVertexId) && maxVertexId < WORD_LIMIT
    {
      SetEdge(sources, destinations, weights, vector, i);
      weights := weights + [vector[i].weight];
      maxVertexId := NextMax(vector, i, maxVertexId);
    }
    assert vector[..|vector|] == vector;
    AllHeld(sources, destinations, weights, vector);
  }

  method ReadAll(input: seq<Edge>)
    returns (sources: CByteArray, destinations: CByteArray, weights: seq<int>, numEdges: nat, maxVertexId: nat)
    requires Words(input)
    ensures sources.Valid() && destinations.Valid() && sources != destinations && sources.data != destinations.data
    ensures numEdges == |input| <= sources.capacity && numEdges <= destinations.capacity && |weights| == |input|
    ensures Zip(sources.Contents(), destinations.Contents(), weights, |input|) == input
    ensures IsMax(input, maxVertexId) && maxVertexId < WORD_LIMIT
  {
    sources := new CByteArray(8, 8);
    destinations := new CByteArray(8, 8);
    hide *;
    weights, numEdges, maxVertexId := [], 0, 0;
    NothingHeld(sources, destinations, input);
    while numEdges < |input|
      invariant fresh(sources) && fresh(destinations) && fresh(sources.data) && fresh(destinations.data)
      invariant numEdges <= |input| && Holds(sources, destinations, weights, input, numEdges)
      invariant sources.capacity == destinations.capacity && 0 < sources.capacity && numEdges <= sources.capacity
      invariant IsMax(input[..numEdges], maxVertexId) && maxVertexId < WORD_LIMIT
      decreases |input| - numEdges
    {
      if numEdges >= sources.capacity {
        sources, destinations := GrowBoth(sources, destinations, weights, input, numEdges);
      }
      SetEdge(sources, destinations, weights, input, numEdges);
      weights := weights + [input[numEdges].weight];
      maxVertexId := NextMax(input, numEdges, maxVertexId);
      numEdges := numEdges + 1;
    }
    assert input[..|input|] == input;
    AllHeld(sources, destinations, weights, input);
  }

  method NextMax(vector: seq<Edge>, i: nat, m: nat) returns (r: nat)
    requires i < |vector| && Words(vector) && IsMax(vector[..i], m) && m < WORD_LIMIT
    ensures IsMax(vector[..i + 1], r) && r < WORD_LIMIT
  {
    hide IsMax;
    r := Max(m, Max(vector[i].source, vector[i].destination));
    MaxOneMore(vector, i, m);
  }

  /** The first `i` edges are stored, at full width. */
  ghost predicate Holds(sources: CByteArray, destinations: CByteArray, weights: seq<int>, vector: seq<Edge>, i: nat)
    reads sources, destinations, sources.data, destinations.data
  {
    && sources.Valid() && destinations.Valid() && sources != destinations && sources.data != destinations.data
    && sources.bytesPerElement == destinations.bytesPerElement == 8
    && i <= |vector| && i <= sources.capacity && i <= destinations.capacity
    && |weights| == i && (forall j :: 0 <= j < i ==> weights[j] == vector[j].weight)
    && (forall j :: 0 <= j < i ==> sources.Contents()[j] == vector[j].source)
    && (forall j :: 0 <= j < i ==> destinations.Contents()[j] == vector[j].destination)
  }

  /** Replace both arrays by copies of twice the capacity. */
  method GrowBoth(sources: CByteArray, destinations: CByteArray, ghost weights: seq<int>, ghost vector: seq<Edge>,
      ghost i: nat)
    returns (newSources: CByteArray, newDestinations: CByteArray)
    requires Holds(sources, destinations, weights, vector, i) && Words(vector)
    requires i == sources.capacity == destinations.capacity
    ensures fresh(newSources) && fresh(newDestinations) && fresh(newSources.data) && fresh(newDestinations.data)
    ensures newSources.capacity == newDestinations.capacity == 2 * i
    ensures Holds(newSources, newDestinations, weights, vector, i)
  {
    hide *;
    HeldIs(sources, destinations, weights, vector, i);
    GrowKeeps(sources, destinations, weights, vector, i);
    newSources := Doubled(sources);
    newDestinations := Doubled(destinations);
    GrownHolds(sources, destinations, newSources, newDestinations, weights, vector, i);
  }

  lemma NothingHeld(sources: CByteArray, destinations: CByteArray, vector: seq<Edge>)
    requires sources.Valid() && destinations.Valid() && sources != destinations && sources.data != destinations.data
    requires sources.bytesPerElement == destinations.bytesPerElement == 8
    ensures Holds(sources, destinations, [], vector, 0) && IsMax(vector[..0], 0) && 0 < WORD_LIMIT
  {
  }

  lemma HeldIs(sources: CByteArray, destinations: CByteArray, weights: seq<int>, vector: seq<Edge>, i: nat)
    requires Holds(sources, destinations, weights, vector, i)
    ensures sources.Valid() && destinations.Valid() && sources.bytesPerElement == destinations.bytesPerElement == 8
  {
  }

  lemma AllHeld(sources: CByteArray, destinations: CByteArray, weights: seq<int>, vector: seq<Edge>)
    requires Holds(sources, destinations, weights, vector, |vector|)
    ensures sources.Valid() && destinations.Valid() && sources != destinations && sources.data != destinations.data
    ensures |vector| <= sources.capacity && |vector| <= destinations.capacity && |weights| == |vector|
    ensures Zip(sources.Contents(), destinations.Contents(), weights, |vector|) == vector
  {
  }

  /** Store the endpoints of one more edge. */
  method SetEdge(sources: CByteArray, destinations: CByteArray, ghost weights: seq<int>, vector: seq<Edge>, i: nat)
    requires Holds(sources, destinations, weights, vector, i) && Words(vector)
    requires i < |vector| && i < sources.capacity && i < destinations.capacity
    modifies sources.data, destinations.data
    ensures Holds(sources, destinations, weights + [vector[i].weight], vector, i + 1)
  {
    WordIsKept(vector[i].source);
    WordIsKept(vector[i].destination);
    sources.SetValueAt(i, vector[i].source);
    destinations.SetValueAt(i, vector[i].destination);
  }

  lemma GrowKeeps(sources: CByteArray, destinations: CByteArray, weights: seq<int>, vector: seq<Edge>, i: nat)
    requires Holds(sources, destinations, weights, vector, i) && Words(vector)
    requires i == sources.capacity == destinations.capacity
    ensures forall j :: 0 <= j < i ==> sources.Contents()[j] < WORD_LIMIT && destinations.Contents()[j] < WORD_LIMIT
  {
  }

  lemma GrownHolds(sources: CByteArray, destinations: CByteArray, newSources: CByteArray, newDestinations: CByteArray,
      weights: seq<int>, vector: seq<Edge>, i: nat)
    requires Holds(sources, destinations, weights, vector, i) && i == sources.capacity == destinations.capacity
    requires newSources.Valid() && newDestinations.Valid() && newSources != newDestinations
    requires newSources.data != newDestinations.data
    requires newSources.bytesPerElement == newDestinations.bytesPerElement == 8
    requires newSources.capacity == newDestinations.capacity == 2 * i
    requires newSources.Contents()[..i] == sources.Contents()
    requires newDestinations.Contents()[..i] == destinations.Contents()
    ensures Holds(newSources, newDestinations, weights, vector, i)
  {
    forall j | 0 <= j < i
      ensures newSources.Contents()[j] == vector[j].source && newDestinations.Contents()[j] == vector[j].destination
    {
      assert newSources.Contents()[..i][j] == sources.Contents()[j];
      assert newDestinations.Contents()[..i][j] == destinations.Contents()[j];
    }
  }

  lemma MaxOneMore(vector: seq<Edge>, i: nat, m: nat)
    requires i < |vector| && IsMax(vector[..i], m)
    ensures IsMax(vector[..i + 1], Max(m, Max(vector[i].source, vector[i].destination)))
  {
    var r := Max(m, Max(vector[i].source, vector[i].destination));
    if i > 0 && r == m {
      var k :| 0 <= k < i && (vector[..i][k].source == m || vector[..i][k].destination == m);
      assert vector[..i + 1][k].source == m || vector[..i + 1][k].destination == m;
    } else {
      assert vector[..i + 1][i].source == r || vector[..i + 1][i].destination == r;
    }
    var longer := vector[..i + 1];
    forall k | 0 <= k < |longer|
      ensures longer[k].source <= r && longer[k].destination <= r
    {
      if k < i {
        assert vector[..i][k].source <= m && vector[..i][k].destination <= m;
      }
    }
  }
}
