/**
 Which blocks of an undirected log the even partition may hand to several workers. It gives every ordered pair
 one owner, so the two directions of an edge can have two.
 */
module ReversedPairs {
  import opened GraphState
  import opened Filters
  import opened Replay
  import opened ClockPartition

  function OfPair(a: nat, b: nat): Update -> bool
  {
    (u: Update) => u.src == a && u.dst == b
  }

  function OfEdge(a: nat, b: nat): Update -> bool
  {
    (u: Update) => SameEdge(false, a, b, u)
  }

  function OwnedBy(owner: Update -> nat, w: nat): Update -> bool
  {
    (u: Update) => owner(u) == w
  }

  function NotOwnedBy(owner: Update -> nat, w: nat): Update -> bool
  {
    (u: Update) => owner(u) != w
  }

  function Last(s: seq<Update>): Update
    requires s != []
  {
    s[|s| - 1]
  }

  /** Two updates leave an edge in the same state: both remove it, or both give it the same weight. */
  predicate SameEffect(u: Update, v: Update)
  {
    (u.weight < 0 && v.weight < 0) || u.weight == v.weight
  }

  /** The two directions are not both used, or by one worker, or they end with the same effect. */
  ghost predicate OrderDoesNotMatter(owner: Update -> nat, block: seq<Update>, a: nat, b: nat)
  {
    var p, q := Filter(block, OfPair(a, b)), Filter(block, OfPair(b, a));
    p == [] || q == [] || owner(Update(a, b, 0)) == owner(Update(b, a, 0)) || SameEffect(Last(p), Last(q))
  }

  ghost predicate ReplaysSerially(owner: Update -> nat, block: seq<Update>, g: State, trace: seq<Update>)
  {
    Interleaves(owner, block, trace) ==> Serial(false, g, trace) == Serial(false, g, block)
  }

  // ----- the last update of an edge decides

  /** What the last update of an edge leaves behind. */
  ghost predicate Decides(edges: map<(nat, nat), int>, a: nat, b: nat, u: Update)
  {
    if u.weight >= 0 then (a, b) in edges && edges[(a, b)] == u.weight else (a, b) !in edges
  }

  lemma {:induction false} LastDecides(g: State, s: seq<Update>, a: nat, b: nat)
    requires a != b
    ensures var f := Filter(s, OfEdge(a, b));
      if f == [] then AgreeOn(Serial(false, g, s).edges, g.edges, (a, b))
        else Decides(Serial(false, g, s).edges, a, b, Last(f))
    decreases |s|
  {
    if s != [] {
      var front, u := s[..|s| - 1], s[|s| - 1];
      LastDecides(g, front, a, b);
      if !SameEdge(false, a, b, u) {
        ApplyAgrees(false, Serial(false, g, front), Serial(false, g, front), a, b, u);
      }
    }
  }

  /** The last update of an edge is the last one of its direction. */
  lemma {:induction false} LastOfItsDirection(s: seq<Update>, a: nat, b: nat)
    requires Filter(s, OfEdge(a, b)) != []
    ensures var u := Last(Filter(s, OfEdge(a, b)));
      && SameEdge(false, a, b, u)
      && Filter(s, OfPair(u.src, u.dst)) != [] && Last(Filter(s, OfPair(u.src, u.dst))) == u
    decreases |s|
  {
    var front, u := s[..|s| - 1], s[|s| - 1];
    if !SameEdge(false, a, b, u) {
      LastOfItsDirection(front, a, b);
    }
  }

  lemma {:induction false} FilterSame<T>(s: seq<T>, f: T -> bool, g: T -> bool)
    requires forall x :: x in s ==> (f(x) <==> g(x))
    ensures Filter(s, f) == Filter(s, g)
  {
    if s != [] {
      assert forall x :: x in s[..|s| - 1] ==> x in s;
      FilterSame(s[..|s| - 1], f, g);
      assert s[|s| - 1] in s;
    }
  }

  lemma {:induction false} FilterNone<T>(s: seq<T>, f: T -> bool)
    requires forall x :: x in s ==> !f(x)
    ensures Filter(s, f) == []
  {
    if s != [] {
      assert forall x :: x in s[..|s| - 1] ==> x in s;
      FilterNone(s[..|s| - 1], f);
      assert s[|s| - 1] in s;
    }
  }

  /** An interleaving keeps the order of the updates that one worker owns. */
  lemma OwnedOrder(owner: Update -> nat, block: seq<Update>, trace: seq<Update>, w: nat, keep: Update -> bool)
    requires Interleaves(owner, block, trace) && forall u :: keep(u) ==> owner(u) == w
    ensures Filter(trace, keep) == Filter(block, keep)
  {
    assert Share(owner, trace, w) == Share(owner, block, w);
    FilterOfFilter(trace, keep, u => owner(u) == w);
    FilterOfFilter(block, keep, u => owner(u) == w);
  }

  lemma DirectionOrder(owner: Update -> nat, block: seq<Update>, trace: seq<Update>, a: nat, b: nat)
    requires Sticky(true, owner) && Interleaves(owner, block, trace)
    ensures Filter(trace, OfPair(a, b)) == Filter(block, OfPair(a, b))
  {
    forall u | OfPair(a, b)(u) ensures owner(u) == owner(Update(a, b, 0)) {
      assert SameEdge(true, Update(a, b, 0).src, Update(a, b, 0).dst, u);
    }
    OwnedOrder(owner, block, trace, owner(Update(a, b, 0)), OfPair(a, b));
  }

  // ----- when the order does not matter

  lemma LoopAgrees(owner: Update -> nat, block: seq<Update>, g: State, trace: seq<Update>, a: nat)
    requires Sticky(true, owner) && Interleaves(owner, block, trace)
    ensures AgreeOn(Serial(false, g, trace).edges, Serial(false, g, block).edges, (a, a))
  {
    DirectionOrder(owner, block, trace, a, a);
    FilterSame(trace, OfPair(a, a), u => SameEdge(false, a, a, u));
    FilterSame(block, OfPair(a, a), u => SameEdge(false, a, a, u));
    OnlySameEdgeMatters(false, g, trace, a, a);
    OnlySameEdgeMatters(false, g, block, a, a);
  }

  lemma SameMembers(owner: Update -> nat, block: seq<Update>, trace: seq<Update>, keep: Update -> bool)
    requires Interleaves(owner, block, trace)
    ensures Filter(trace, keep) == [] <==> Filter(block, keep) == []
  {
    FilterMembers(trace, keep);
    FilterMembers(block, keep);
    forall u ensures u in trace <==> u in block { SameUpdates(owner, block, trace, u); }
    if Filter(trace, keep) != [] {
      assert Filter(trace, keep)[0] in Filter(block, keep);
    }
    if Filter(block, keep) != [] {
      assert Filter(block, keep)[0] in Filter(trace, keep);
    }
  }

  /** With one owner for both directions the updates of the edge keep their order. */
  lemma OneOwnerOrder(owner: Update -> nat, block: seq<Update>, trace: seq<Update>, a: nat, b: nat)
    requires Sticky(true, owner) && Interleaves(owner, block, trace) && owner(Update(a, b, 0)) == owner(Update(b, a, 0))
    ensures Filter(trace, OfEdge(a, b)) == Filter(block, OfEdge(a, b))
  {
    forall u | OfEdge(a, b)(u) ensures owner(u) == owner(Update(a, b, 0)) {
      assert SameEdge(true, Update(a, b, 0).src, Update(a, b, 0).dst, u) || SameEdge(true, Update(b, a, 0).src,
        Update(b, a, 0).dst, u);
    }
    OwnedOrder(owner, block, trace, owner(Update(a, b, 0)), OfEdge(a, b));
  }

  /** The last updates of an edge in the block and in the trace have the same effect. */
  lemma LastsAgree(owner: Update -> nat, block: seq<Update>, trace: seq<Update>, a: nat, b: nat)
    requires Sticky(true, owner) && Interleaves(owner, block, trace)
    requires OrderDoesNotMatter(owner, block, a, b) && OrderDoesNotMatter(owner, block, b, a)
    requires Filter(trace, OfEdge(a, b)) != [] && Filter(block, OfEdge(a, b)) != []
    ensures SameEffect(Last(Filter(trace, OfEdge(a, b))), Last(Filter(block, OfEdge(a, b))))
  {
    if owner(Update(a, b, 0)) == owner(Update(b, a, 0)) {
      OneOwnerOrder(owner, block, trace, a, b);
    } else {
      LastOfItsDirection(trace, a, b);
      LastOfItsDirection(block, a, b);
      DirectionOrder(owner, block, trace, a, b);
      DirectionOrder(owner, block, trace, b, a);
      hide Filter, OfEdge, OfPair;
    }
  }

  lemma EntryAgrees(owner: Update -> nat, block: seq<Update>, g: State, trace: seq<Update>, a: nat, b: nat)
    requires Sticky(true, owner) && Interleaves(owner, block, trace) && a != b
    requires OrderDoesNotMatter(owner, block, a, b) && OrderDoesNotMatter(owner, block, b, a)
    ensures AgreeOn(Serial(false, g, trace).edges, Serial(false, g, block).edges, (a, b))
  {
    hide Filter, OfEdge, Serial, Interleaves, Sticky, OrderDoesNotMatter;
    SameMembers(owner, block, trace, OfEdge(a, b));
    LastDecides(g, trace, a, b);
    LastDecides(g, block, a, b);
    if Filter(block, OfEdge(a, b)) != [] {
      LastsAgree(owner, block, trace, a, b);
    }
  }

  lemma OrderedIsSerial(owner: Update -> nat, block: seq<Update>, g: State, trace: seq<Update>)
    requires Sticky(true, owner) && Interleaves(owner, block, trace)
    requires forall a: nat, b: nat :: a != b ==> OrderDoesNotMatter(owner, block, a, b)
    ensures Serial(false, g, trace) == Serial(false, g, block)
  {
    hide Serial, Interleaves, Sticky, OrderDoesNotMatter;
    var s, t := Serial(false, g, trace), Serial(false, g, block);
    forall a: nat, b: nat
      ensures AgreeOn(s.edges, t.edges, (a, b))
    {
      if a == b {
        LoopAgrees(owner, block, g, trace, a);
      } else {
        EntryAgrees(owner, block, g, trace, a, b);
      }
    }
    assert s.edges == t.edges by {
      assert forall k :: k in s.edges ==> AgreeOn(s.edges, t.edges, (k.0, k.1));
      assert forall k :: k in t.edges ==> AgreeOn(s.edges, t.edges, (k.0, k.1));
    }
    VerticesAgree(false, owner, g, block, trace);
  }

  // ----- when it does

  /** All other workers run first. */
  function WorkerLast(owner: Update -> nat, block: seq<Update>, w: nat): seq<Update>
  {
    Filter(block, NotOwnedBy(owner, w)) + Filter(block, OwnedBy(owner, w))
  }

  lemma WorkerLastInterleaves(owner: Update -> nat, block: seq<Update>, w: nat)
    ensures Interleaves(owner, block, WorkerLast(owner, block, w))
  {
    var others, own := Filter(block, NotOwnedBy(owner, w)), Filter(block, OwnedBy(owner, w));
    FilterMembers(block, NotOwnedBy(owner, w));
    FilterMembers(block, OwnedBy(owner, w));
    forall x: nat
      ensures Share(owner, WorkerLast(owner, block, w), x) == Share(owner, block, x)
    {
      var keep := u => owner(u) == x;
      FilterConcat(others, own, keep);
      if x == w {
        FilterNone(others, keep);
        FilterOfFilter(block, keep, OwnedBy(owner, w));
      } else {
        FilterNone(own, keep);
        FilterOfFilter(block, keep, NotOwnedBy(owner, w));
      }
    }
  }

  /** Then its last update of the edge decides. */
  lemma WorkerDecides(owner: Update -> nat, block: seq<Update>, g: State, a: nat, b: nat)
    requires Sticky(true, owner) && a != b && owner(Update(a, b, 0)) != owner(Update(b, a, 0))
    requires Filter(block, OfPair(a, b)) != []
    ensures var trace := WorkerLast(owner, block, owner(Update(a, b, 0)));
      Decides(Serial(false, g, trace).edges, a, b, Last(Filter(block, OfPair(a, b))))
  {
    var w := owner(Update(a, b, 0));
    var own := Filter(block, OwnedBy(owner, w));
    var trace := WorkerLast(owner, block, w);
    FilterMembers(block, OwnedBy(owner, w));
    forall u | u in own
      ensures OfEdge(a, b)(u) <==> OfPair(a, b)(u)
    {
      if u.src == b && u.dst == a {
        assert SameEdge(true, Update(b, a, 0).src, Update(b, a, 0).dst, u);
      }
    }
    FilterSame(own, OfEdge(a, b), OfPair(a, b));
    forall u | OfPair(a, b)(u) ensures OwnedBy(owner, w)(u) {
      assert SameEdge(true, Update(a, b, 0).src, Update(a, b, 0).dst, u);
    }
    FilterOfFilter(block, OfPair(a, b), OwnedBy(owner, w));
    FilterConcat(Filter(block, NotOwnedBy(owner, w)), own, OfEdge(a, b));
    LastDecides(g, trace, a, b);
  }

  /** The two workers that own the directions of an edge can each have the last word. */
  lemma OrderMatters(owner: Update -> nat, block: seq<Update>, a: nat, b: nat) returns (g: State, trace: seq<Update>)
    requires Sticky(true, owner) && a != b && !OrderDoesNotMatter(owner, block, a, b)
    ensures !ReplaysSerially(owner, block, g, trace)
  {
    hide Filter, Serial, Interleaves, Sticky, WorkerLast, OfPair;
    g := State({}, map[]);
    var p, q := Filter(block, OfPair(a, b)), Filter(block, OfPair(b, a));
    var v, w := owner(Update(a, b, 0)), owner(Update(b, a, 0));
    WorkerLastInterleaves(owner, block, v);
    WorkerLastInterleaves(owner, block, w);
    WorkerDecides(owner, block, g, a, b);
    WorkerDecides(owner, block, g, b, a);
    var s, t := Serial(false, g, WorkerLast(owner, block, v)), Serial(false, g, WorkerLast(owner, block, w));
    MirroredEntry(owner, block, w, a, b);
    assert s.edges != t.edges;
    trace := if s != Serial(false, g, block) then WorkerLast(owner, block, v) else WorkerLast(owner, block, w);
  }

  /** Starting from the empty graph both directions of an edge agree. */
  lemma MirroredEntry(owner: Update -> nat, block: seq<Update>, w: nat, a: nat, b: nat)
    requires a != b
    ensures var edges := Serial(false, State({}, map[]), WorkerLast(owner, block, w)).edges;
      ((a, b) in edges <==> (b, a) in edges) && ((a, b) in edges ==> edges[(a, b)] == edges[(b, a)])
  {
    var g := State({}, map[]);
    SerialKeepsConsistent(false, g, WorkerLast(owner, block, w));
    hide Serial, WorkerLast;
  }

  // ----- the exact condition

  /**
   On an undirected graph all interleavings of a block replay it, from every start, if and only if for each edge that
   the block uses in both directions these have one owner, or their last updates have the same effect.
   */
  lemma SerializableIff(owner: Update -> nat, block: seq<Update>)
    requires Sticky(true, owner)
    ensures (forall g, trace :: ReplaysSerially(owner, block, g, trace)) <==>
      (forall a: nat, b: nat :: a != b ==> OrderDoesNotMatter(owner, block, a, b))
  {
    hide Sticky, OrderDoesNotMatter, Interleaves, Serial;
    if forall a: nat, b: nat :: a != b ==> OrderDoesNotMatter(owner, block, a, b) {
      forall g, trace ensures ReplaysSerially(owner, block, g, trace) {
        if Interleaves(owner, block, trace) {
          OrderedIsSerial(owner, block, g, trace);
        }
      }
    } else {
      var a: nat, b: nat :| a != b && !OrderDoesNotMatter(owner, block, a, b);
      var g, trace := OrderMatters(owner, block, a, b);
    }
  }

  /** The same for the owners that the clock assigns. */
  lemma UndirectedPartitionIff(block: seq<Update>, workers: nat)
    requires workers > 0
    ensures var owner := PairOwner(Partition(block, workers).0);
      (forall g, trace :: ReplaysSerially(owner, block, g, trace)) <==>
      (forall a: nat, b: nat :: a != b ==> OrderDoesNotMatter(owner, block, a, b))
  {
    PairOwnerIsSticky(Partition(block, workers).0);
    SerializableIff(PairOwner(Partition(block, workers).0), block);
  }

  ghost predicate NoReversedPairs(block: seq<Update>)
  {
    forall u, v :: u in block && v in block && u.src == v.dst && u.dst == v.src ==> u.src == u.dst
  }

  lemma OneDirection(block: seq<Update>, a: nat, b: nat)
    requires NoReversedPairs(block) && a != b
    ensures Filter(block, OfPair(a, b)) == [] || Filter(block, OfPair(b, a)) == []
  {
    if Filter(block, OfPair(a, b)) != [] {
      FilterMembers(block, OfPair(a, b));
      var u := Filter(block, OfPair(a, b))[0];
      assert u in block && u.src == a && u.dst == b;
      FilterNone(block, OfPair(b, a));
    }
  }

  /** A block that uses every edge in one direction only is safe to partition. */
  lemma NoReversedPairsIsSerializable(g: State, block: seq<Update>, workers: nat, trace: seq<Update>)
    requires workers > 0 && NoReversedPairs(block) && Interleaves(PairOwner(Partition(block, workers).0), block, trace)
    ensures Serial(false, g, trace) == Serial(false, g, block)
  {
    var owner := PairOwner(Partition(block, workers).0);
    forall a: nat, b: nat | a != b
      ensures OrderDoesNotMatter(owner, block, a, b)
    {
      OneDirection(block, a, b);
    }
    PairOwnerIsSticky(Partition(block, workers).0);
    OrderedIsSerial(owner, block, g, trace);
  }
}
