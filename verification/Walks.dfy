/**
 Walks over a finite set of weighted arcs, and the meaning of a shortest distance.

 The kernels for BFS, SSSP and WCC, in both graph stores, are specified against
 this one module: hop distances are shortest distances over arcs of weight 1, and
 weak components are walks over the symmetric closure of the arcs.
 */
module Walks {

  // An arc from `src` to `dst`.
  datatype Arc = Arc(src: nat, dst: nat, weight: nat)

  // A walk is read from its end: `Hop(w, u, c)` extends a walk `w` that ends in `u` by one arc of weight `c`.
  datatype Walk = Start | Hop(prefix: Walk, from: nat, cost: nat)

  // A distance that may be infinite.
  datatype Distance = Infinite | Finite(value: nat)

  ghost predicate Leads(arcs: set<Arc>, s: nat, t: nat, w: Walk)
    decreases w
  {
    match w
    case Start => s == t
    case Hop(prefix, from, cost) => Arc(from, t, cost) in arcs && Leads(arcs, s, from, prefix)
  }

  ghost function Cost(w: Walk): nat
  {
    match w
    case Start => 0
    case Hop(prefix, _, cost) => Cost(prefix) + cost
  }

  /** `t` can be reached from `s` by a walk of total cost `k`. */
  ghost predicate ReachedAt(arcs: set<Arc>, s: nat, t: nat, k: nat)
  {
    exists w :: Leads(arcs, s, t, w) && Cost(w) == k
  }

  ghost predicate Reachable(arcs: set<Arc>, s: nat, t: nat)
  {
    exists k: nat :: ReachedAt(arcs, s, t, k)
  }

  /** `d` is the length of a shortest walk from `s` to `t`, or infinite when there is none. */
  ghost predicate IsShortest(arcs: set<Arc>, s: nat, t: nat, d: Distance)
  {
    match d
    case Infinite => !Reachable(arcs, s, t)
    case Finite(k) => ReachedAt(arcs, s, t, k) && forall j: nat :: ReachedAt(arcs, s, t, j) ==> k <= j
  }

  lemma ShortestIsUnique(arcs: set<Arc>, s: nat, t: nat, d1: Distance, d2: Distance)
    requires IsShortest(arcs, s, t, d1) && IsShortest(arcs, s, t, d2)
    ensures d1 == d2
  {
    if d1.Finite? {
      assert Reachable(arcs, s, t);
    } else {
      assert d2.Infinite?;
    }
  }

  lemma Extend(arcs: set<Arc>, s: nat, u: nat, k: nat, t: nat, c: nat)
    requires ReachedAt(arcs, s, u, k) && Arc(u, t, c) in arcs
    ensures ReachedAt(arcs, s, t, k + c)
  {
    var w :| Leads(arcs, s, u, w) && Cost(w) == k;
    assert Leads(arcs, s, t, Hop(w, u, c));
    assert Cost(Hop(w, u, c)) == k + c;
  }

  lemma ReachedAtStart(arcs: set<Arc>, s: nat)
    ensures ReachedAt(arcs, s, s, 0)
  {
    assert Leads(arcs, s, s, Start) && Cost(Start) == 0;
  }

  ghost predicate AtMost(d: Distance, k: nat)
  {
    d.Finite? && d.value <= k
  }

  /** No arc can improve `dist` any more. */
  ghost predicate Relaxed(arcs: set<Arc>, dist: nat -> Distance)
  {
    forall a :: a in arcs && dist(a.src).Finite? ==> AtMost(dist(a.dst), dist(a.src).value + a.weight)
  }

  /** A relaxed labelling is below the cost of every walk. */
  lemma {:induction false} RelaxedIsLowerBound(arcs: set<Arc>, s: nat, t: nat, w: Walk, dist: nat -> Distance)
    requires Relaxed(arcs, dist) && AtMost(dist(s), 0) && Leads(arcs, s, t, w)
    ensures AtMost(dist(t), Cost(w))
    decreases w
  {
    match w {
      case Start =>
      case Hop(prefix, from, cost) =>
        RelaxedIsLowerBound(arcs, s, from, prefix, dist);
        var a := Arc(from, t, cost);
        assert a in arcs && dist(a.src).Finite?;
    }
  }

  /**
   The argument both BFS kernels, delta-stepping and Dijkstra end with: labels that are
   costs of walks and that no arc improves are exactly the shortest distances.
   */
  lemma RelaxedIsShortest(arcs: set<Arc>, s: nat, t: nat, dist: nat -> Distance)
    requires Relaxed(arcs, dist) && AtMost(dist(s), 0)
    requires dist(t).Finite? ==> ReachedAt(arcs, s, t, dist(t).value)
    ensures IsShortest(arcs, s, t, dist(t))
  {
    forall k: nat | ReachedAt(arcs, s, t, k)
      ensures AtMost(dist(t), k)
    {
      var w :| Leads(arcs, s, t, w) && Cost(w) == k;
      RelaxedIsLowerBound(arcs, s, t, w, dist);
    }
  }

  // ----- renaming vertices

  ghost predicate Injective(f: nat -> nat, vertices: set<nat>)
  {
    forall a, b :: a in vertices && b in vertices && f(a) == f(b) ==> a == b
  }

  ghost predicate ArcsOver(arcs: set<Arc>, vertices: set<nat>)
  {
    forall a :: a in arcs ==> a.src in vertices && a.dst in vertices
  }

  /** `renamed` is `arcs` with every vertex `v` called `f(v)`. */
  ghost predicate Renamed(arcs: set<Arc>, f: nat -> nat, renamed: set<Arc>)
  {
    && (forall a :: a in arcs ==> Arc(f(a.src), f(a.dst), a.weight) in renamed)
    && (forall b :: b in renamed ==> exists a :: a in arcs && b == Arc(f(a.src), f(a.dst), a.weight))
  }

  lemma {:induction false} RenameWalk(arcs: set<Arc>, f: nat -> nat, renamed: set<Arc>, s: nat, t: nat, w: Walk)
    returns (r: Walk)
    requires Renamed(arcs, f, renamed) && Leads(arcs, s, t, w)
    ensures Leads(renamed, f(s), f(t), r) && Cost(r) == Cost(w)
    decreases w
  {
    match w {
      case Start => r := Start;
      case Hop(prefix, from, cost) =>
        var p := RenameWalk(arcs, f, renamed, s, from, prefix);
        assert Arc(from, t, cost) in arcs;
        r := Hop(p, f(from), cost);
    }
  }

  lemma {:induction false} UnrenameWalk(arcs: set<Arc>, f: nat -> nat, renamed: set<Arc>, vertices: set<nat>, s: nat,
      t: nat, r: Walk)
    returns (w: Walk)
    requires Renamed(arcs, f, renamed) && ArcsOver(arcs, vertices) && Injective(f, vertices)
    requires s in vertices && t in vertices && Leads(renamed, f(s), f(t), r)
    ensures Leads(arcs, s, t, w) && Cost(r) == Cost(w)
    decreases r
  {
    match r {
      case Start => w := Start;
      case Hop(prefix, from, cost) =>
        var a :| a in arcs && Arc(from, f(t), cost) == Arc(f(a.src), f(a.dst), a.weight);
        var p := UnrenameWalk(arcs, f, renamed, vertices, s, a.src, prefix);
        assert a.dst == t;
        w := Hop(p, a.src, cost);
    }
  }

  lemma ReachedUnderRenaming(arcs: set<Arc>, f: nat -> nat, renamed: set<Arc>, vertices: set<nat>, s: nat, t: nat,
      k: nat)
    requires Renamed(arcs, f, renamed) && ArcsOver(arcs, vertices) && Injective(f, vertices)
    requires s in vertices && t in vertices
    ensures ReachedAt(arcs, s, t, k) <==> ReachedAt(renamed, f(s), f(t), k)
  {
    if ReachedAt(arcs, s, t, k) {
      var w :| Leads(arcs, s, t, w) && Cost(w) == k;
      var r := RenameWalk(arcs, f, renamed, s, t, w);
    }
    if ReachedAt(renamed, f(s), f(t), k) {
      var r :| Leads(renamed, f(s), f(t), r) && Cost(r) == k;
      var w := UnrenameWalk(arcs, f, renamed, vertices, s, t, r);
    }
  }

  /** Shortest distances do not depend on the names of the vertices. */
  lemma ShortestUnderRenaming(arcs: set<Arc>, f: nat -> nat, renamed: set<Arc>, vertices: set<nat>, s: nat, t: nat,
      d: Distance)
    requires Renamed(arcs, f, renamed) && ArcsOver(arcs, vertices) && Injective(f, vertices)
    requires s in vertices && t in vertices
    ensures IsShortest(arcs, s, t, d) <==> IsShortest(renamed, f(s), f(t), d)
  {
    forall k: nat
      ensures ReachedAt(arcs, s, t, k) <==> ReachedAt(renamed, f(s), f(t), k)
    {
      ReachedUnderRenaming(arcs, f, renamed, vertices, s, t, k);
    }
  }
}
