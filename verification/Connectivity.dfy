/** Weak connectivity: reachability over arcs taken in both directions. */
module Connectivity {
  import opened Walks

  ghost predicate Symmetric(arcs: set<Arc>)
  {
    forall a :: a in arcs ==> Arc(a.dst, a.src, a.weight) in arcs
  }

  ghost function BothWays(arcs: set<Arc>): (r: set<Arc>)
    ensures Symmetric(r)
  {
    arcs + set a | a in arcs :: Arc(a.dst, a.src, a.weight)
  }

  ghost predicate Connected(arcs: set<Arc>, x: nat, y: nat)
  {
    Reachable(BothWays(arcs), x, y)
  }

  lemma ConnectedSelf(arcs: set<Arc>, x: nat)
    ensures Connected(arcs, x, x)
  {
    ReachedAtStart(BothWays(arcs), x);
  }

  lemma ArcConnects(arcs: set<Arc>, a: Arc)
    requires a in arcs
    ensures Connected(arcs, a.src, a.dst) && Connected(arcs, a.dst, a.src)
  {
    var both := BothWays(arcs);
    ReachedAtStart(both, a.src);
    Extend(both, a.src, a.src, 0, a.dst, a.weight);
    ReachedAtStart(both, a.dst);
    assert Arc(a.dst, a.src, a.weight) in both;
    Extend(both, a.dst, a.dst, 0, a.src, a.weight);
  }

  lemma {:induction false} Join(arcs: set<Arc>, x: nat, y: nat, z: nat, v: Walk, w: Walk) returns (r: Walk)
    requires Leads(arcs, x, y, v) && Leads(arcs, y, z, w)
    ensures Leads(arcs, x, z, r)
    decreases w
  {
    match w {
      case Start => r := v;
      case Hop(prefix, from, cost) =>
        var p := Join(arcs, x, y, from, v, prefix);
        r := Hop(p, from, cost);
    }
  }

  lemma {:induction false} Reverse(arcs: set<Arc>, x: nat, y: nat, w: Walk) returns (r: Walk)
    requires Symmetric(arcs) && Leads(arcs, x, y, w)
    ensures Leads(arcs, y, x, r)
    decreases w
  {
    match w {
      case Start => r := Start;
      case Hop(prefix, from, cost) =>
        var back := Reverse(arcs, x, from, prefix);
        assert Arc(from, y, cost) in arcs;
        assert Leads(arcs, y, from, Hop(Start, y, cost));
        r := Join(arcs, y, from, x, Hop(Start, y, cost), back);
    }
  }

  lemma ConnectedTransitive(arcs: set<Arc>, x: nat, y: nat, z: nat)
    requires Connected(arcs, x, y) && Connected(arcs, y, z)
    ensures Connected(arcs, x, z)
  {
    var both := BothWays(arcs);
    var k: nat :| ReachedAt(both, x, y, k);
    var v :| Leads(both, x, y, v) && Cost(v) == k;
    var l: nat :| ReachedAt(both, y, z, l);
    var w :| Leads(both, y, z, w) && Cost(w) == l;
    var r := Join(both, x, y, z, v, w);
    assert ReachedAt(both, x, z, Cost(r));
  }

  lemma ConnectedSymmetric(arcs: set<Arc>, x: nat, y: nat)
    requires Connected(arcs, x, y)
    ensures Connected(arcs, y, x)
  {
    var both := BothWays(arcs);
    var k: nat :| ReachedAt(both, x, y, k);
    var v :| Leads(both, x, y, v) && Cost(v) == k;
    var r := Reverse(both, x, y, v);
    assert ReachedAt(both, y, x, Cost(r));
  }

  /** A labelling that is equal along every arc is equal on whole components. */
  lemma {:induction false} LabelsFollowWalk(arcs: set<Arc>, f: nat -> int, x: nat, y: nat, w: Walk)
    requires forall a :: a in arcs ==> f(a.src) == f(a.dst)
    requires Leads(BothWays(arcs), x, y, w)
    ensures f(x) == f(y)
    decreases w
  {
    match w {
      case Start =>
      case Hop(prefix, from, cost) =>
        LabelsFollowWalk(arcs, f, x, from, prefix);
        assert Arc(from, y, cost) in BothWays(arcs);
    }
  }

  lemma LabelsFollow(arcs: set<Arc>, f: nat -> int, x: nat, y: nat)
    requires forall a :: a in arcs ==> f(a.src) == f(a.dst)
    requires Connected(arcs, x, y)
    ensures f(x) == f(y)
  {
    var both := BothWays(arcs);
    var k: nat :| ReachedAt(both, x, y, k);
    var v :| Leads(both, x, y, v) && Cost(v) == k;
    LabelsFollowWalk(arcs, f, x, y, v);
  }

  /** `m` is the least vertex of the component of `x`. */
  ghost predicate IsLeast(arcs: set<Arc>, x: nat, m: nat)
  {
    Connected(arcs, x, m) && forall y: nat :: Connected(arcs, x, y) ==> m <= y
  }

  /** Least vertices identify components. */
  lemma LeastIdentifies(arcs: set<Arc>, x: nat, y: nat, m: nat, k: nat)
    requires IsLeast(arcs, x, m) && IsLeast(arcs, y, k)
    ensures m == k <==> Connected(arcs, x, y)
  {
    if m == k {
      ConnectedSymmetric(arcs, y, k);
      ConnectedTransitive(arcs, x, m, y);
    }
    if Connected(arcs, x, y) {
      ConnectedTransitive(arcs, x, y, k);
      ConnectedSymmetric(arcs, x, y);
      ConnectedTransitive(arcs, y, x, m);
    }
  }

  /** Connectivity does not depend on the names of the vertices. */
  lemma ConnectedUnderRenaming(arcs: set<Arc>, f: nat -> nat, renamed: set<Arc>, vertices: set<nat>, x: nat, y: nat)
    requires Renamed(arcs, f, renamed) && ArcsOver(arcs, vertices) && Injective(f, vertices)
    requires x in vertices && y in vertices
    ensures Connected(arcs, x, y) <==> Connected(renamed, f(x), f(y))
  {
    var a, b := BothWays(arcs), BothWays(renamed);
    forall e | e in b
      ensures exists d :: d in a && e == Arc(f(d.src), f(d.dst), d.weight)
    {
      var e' := if e in renamed then e else Arc(e.dst, e.src, e.weight);
      assert e' in renamed;
      var d :| d in arcs && e' == Arc(f(d.src), f(d.dst), d.weight);
      assert (if e in renamed then d else Arc(d.dst, d.src, d.weight)) in a;
    }
    assert Renamed(a, f, b);
    forall k: nat
      ensures ReachedAt(a, x, y, k) <==> ReachedAt(b, f(x), f(y), k)
    {
      ReachedUnderRenaming(a, f, b, vertices, x, y, k);
    }
  }

  lemma {:induction false} WalkStaysInside(arcs: set<Arc>, inside: set<nat>, x: nat, y: nat, w: Walk)
    requires (forall a :: a in arcs ==> (a.src in inside <==> a.dst in inside)) && x in inside && Leads(arcs, x, y, w)
    ensures y in inside
    decreases w
  {
    match w {
      case Start =>
      case Hop(prefix, from, cost) =>
        WalkStaysInside(arcs, inside, x, from, prefix);
        assert Arc(from, y, cost) in arcs;
    }
  }

  /** A component does not leave a set that no arc leaves or enters. */
  lemma StaysInside(arcs: set<Arc>, inside: set<nat>, x: nat, y: nat)
    requires (forall a :: a in arcs ==> (a.src in inside <==> a.dst in inside)) && x in inside && Connected(arcs, x, y)
    ensures y in inside
  {
    var k: nat :| ReachedAt(BothWays(arcs), x, y, k);
    var w :| Leads(BothWays(arcs), x, y, w) && Cost(w) == k;
    WalkStaysInside(BothWays(arcs), inside, x, y, w);
  }
}
