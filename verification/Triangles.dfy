/** Triangles of a simple undirected graph, and the local clustering coefficient. */
module Triangles {
  import opened Ranges

  // The neighbours of each vertex.
  type Adjacency = map<nat, set<nat>>

  datatype Pair = Pair(a: nat, b: nat)

  // A triangle with its vertices in descending order.
  datatype Triangle = Triangle(a: nat, b: nat, c: nat)

  ghost predicate Simple(adj: Adjacency)
  {
    forall u, v :: u in adj && v in adj[u] ==> u != v && v in adj && u in adj[v]
  }

  ghost predicate Adjacent(adj: Adjacency, u: nat, v: nat)
  {
    u in adj && v in adj[u]
  }

  /** Ordered pairs of neighbours of `v` that are adjacent themselves. */
  ghost function Pairs(adj: Adjacency, v: nat): set<Pair>
    requires v in adj
  {
    set a, b | a in adj[v] && b in adj[v] && Adjacent(adj, a, b) :: Pair(a, b)
  }

  function Score(numTriangles: nat, degree: nat): real
    requires degree >= 2
  {
    numTriangles as real / (degree * (degree - 1)) as real
  }

  /** The coefficient: the share of the ordered pairs of neighbours that are adjacent. */
  ghost function Coefficient(adj: Adjacency, v: nat): real
    requires v in adj
  {
    var d := |adj[v]|;
    if d < 2 then 0.0 else Score(|Pairs(adj, v)|, d)
  }

  lemma CoefficientIs(adj: Adjacency, v: nat)
    requires v in adj
    ensures Coefficient(adj, v) == if |adj[v]| < 2 then 0.0 else Score(|Pairs(adj, v)|, |adj[v]|)
  {
  }

  // ----- sizes

  /** Two sets with mutually inverse functions between them have the same size. */
  lemma {:induction false} Bijection<A, B>(s: set<A>, r: set<B>, f: A -> B, g: B -> A)
    requires forall a :: a in s ==> f(a) in r && g(f(a)) == a
    requires forall b :: b in r ==> g(b) in s && f(g(b)) == b
    ensures |s| == |r|
    decreases s
  {
    assert forall b :: b in r ==> g(b) in s;
    if s == {} {
      assert r == {};
    } else {
      var a :| a in s;
      forall x | x in s - {a} ensures f(x) in r - {f(a)} && g(f(x)) == x {
        assert f(x) == f(a) ==> x == g(f(a));
      }
      forall b | b in r - {f(a)} ensures g(b) in s - {a} && f(g(b)) == b {
      }
      Bijection(s - {a}, r - {f(a)}, f, g);
    }
  }

  ghost function OffDiagonal(s: set<nat>): set<Pair>
  {
    set a, b | a in s && b in s && a != b :: Pair(a, b)
  }

  ghost function PairsWith(x: nat, s: set<nat>): set<Pair>
  {
    set b | b in s :: Pair(x, b)
  }

  ghost function PairsTo(x: nat, s: set<nat>): set<Pair>
  {
    set a | a in s :: Pair(a, x)
  }

  lemma PairsWithSize(x: nat, s: set<nat>)
    ensures |PairsWith(x, s)| == |s| && |PairsTo(x, s)| == |s|
  {
    Bijection(s, PairsWith(x, s), b => Pair(x, b), (p: Pair) => p.b);
    Bijection(s, PairsTo(x, s), a => Pair(a, x), (p: Pair) => p.a);
  }

  lemma {:induction false} OffDiagonalSize(s: set<nat>)
    ensures |OffDiagonal(s)| == |s| * (|s| - 1)
    decreases s
  {
    if s != {} {
      var x :| x in s;
      var rest := s - {x};
      OffDiagonalSize(rest);
      hide *;
      PairsWithSize(x, rest);
      OffDiagonalSplits(s, x);
      Square(|s|);
    }
  }

  lemma OffDiagonalSplits(s: set<nat>, x: nat)
    requires x in s
    ensures |OffDiagonal(s)| == |OffDiagonal(s - {x})| + |PairsWith(x, s - {x})| + |PairsTo(x, s - {x})|
  {
    var rest := s - {x};
    assert OffDiagonal(s) == OffDiagonal(rest) + PairsWith(x, rest) + PairsTo(x, rest);
    assert PairsWith(x, rest) !! PairsTo(x, rest);
    assert OffDiagonal(rest) !! PairsWith(x, rest) + PairsTo(x, rest);
  }

  lemma Square(k: nat)
    requires k > 0
    ensures k * (k - 1) == (k - 1) * (k - 2) + 2 * (k - 1)
  {
  }

  /** No counter exceeds `degree * (degree - 1)`. */
  lemma PairsBound(adj: Adjacency, v: nat)
    requires Simple(adj) && v in adj
    ensures |Pairs(adj, v)| <= |adj[v]| * (|adj[v]| - 1)
    ensures |Pairs(adj, v)| > 0 ==> |adj[v]| >= 2
  {
    assert Pairs(adj, v) <= OffDiagonal(adj[v]);
    SubsetSize(Pairs(adj, v), OffDiagonal(adj[v]));
    OffDiagonalSize(adj[v]);
    if |adj[v]| < 2 {
      assert |adj[v]| == 0 || |adj[v]| == 1;
      assert |adj[v]| * (|adj[v]| - 1) == 0;
    }
  }

  /** Coefficients lie between 0 and 1. */
  lemma CoefficientInUnit(adj: Adjacency, v: nat)
    requires Simple(adj) && v in adj
    ensures 0.0 <= Coefficient(adj, v) <= 1.0
  {
    PairsBound(adj, v);
    var d := |adj[v]|;
    if d >= 2 {
      Quotient(|Pairs(adj, v)|, d * (d - 1));
    }
  }

  lemma Quotient(a: nat, b: nat)
    requires 0 < b && a <= b
    ensures 0.0 <= a as real / b as real <= 1.0
  {
  }

  // ----- counting the pairs

  /** The pairs whose first vertex is in `firsts`. */
  ghost function PairsFrom(adj: Adjacency, v: nat, firsts: set<nat>): set<Pair>
    requires v in adj
  {
    set p | p in Pairs(adj, v) && p.a in firsts
  }

  /** One more first vertex brings its neighbours that are also neighbours of `v`. */
  lemma PairsFromOneMore(adj: Adjacency, v: nat, firsts: set<nat>, u: nat)
    requires v in adj && u in adj && u in adj[v] && u !in firsts
    ensures |PairsFrom(adj, v, firsts + {u})| == |PairsFrom(adj, v, firsts)| + |adj[u] * adj[v]|
  {
    var shared := adj[u] * adj[v];
    PairsWithSize(u, shared);
    forall p
      ensures p in PairsFrom(adj, v, firsts + {u}) <==> p in PairsFrom(adj, v, firsts) || p in PairsWith(u, shared)
    {
      if p in PairsWith(u, shared) {
        assert p == Pair(u, p.b) && Adjacent(adj, u, p.b);
      }
    }
    assert PairsFrom(adj, v, firsts + {u}) == PairsFrom(adj, v, firsts) + PairsWith(u, shared);
    assert PairsFrom(adj, v, firsts) !! PairsWith(u, shared);
  }

  lemma PairsFromAll(adj: Adjacency, v: nat, firsts: set<nat>)
    requires v in adj && adj[v] <= firsts
    ensures PairsFrom(adj, v, firsts) == Pairs(adj, v)
  {
  }

  lemma PairsFromNone(adj: Adjacency, v: nat)
    requires v in adj
    ensures PairsFrom(adj, v, {}) == {}
  {
  }

  // ----- ordered pairs and triangles

  ghost predicate Closes(adj: Adjacency, a: nat, b: nat, c: nat)
  {
    a > b > c && Adjacent(adj, a, b) && Adjacent(adj, a, c) && Adjacent(adj, b, c)
  }

  /** All triangles, each once. */
  ghost function AllTriangles(adj: Adjacency): set<Triangle>
  {
    set a, b, c | a in adj && b in adj[a] && c in adj[a] && Closes(adj, a, b, c) :: Triangle(a, b, c)
  }

  ghost predicate Corner(t: Triangle, v: nat)
  {
    v == t.a || v == t.b || v == t.c
  }

  ghost function Through(triangles: set<Triangle>, v: nat): set<Triangle>
  {
    set t | t in triangles && Corner(t, v)
  }

  /** The triangle of `v` and an ordered pair. */
  ghost function ToTriangle(v: nat, p: Pair): Triangle
  {
    if v > p.a then Triangle(v, p.a, p.b) else if v > p.b then Triangle(p.a, v, p.b) else Triangle(p.a, p.b, v)
  }

  ghost function ToPair(v: nat, t: Triangle): Pair
  {
    if v == t.a then Pair(t.b, t.c) else if v == t.b then Pair(t.a, t.c) else Pair(t.a, t.b)
  }

  ghost function Descending(pairs: set<Pair>): set<Pair>
  {
    set p | p in pairs && p.a > p.b
  }

  ghost function Ascending(pairs: set<Pair>): set<Pair>
  {
    set p | p in pairs && p.a < p.b
  }

  lemma DescendingIsThrough(adj: Adjacency, v: nat)
    requires Simple(adj) && v in adj
    ensures |Descending(Pairs(adj, v))| == |Through(AllTriangles(adj), v)|
  {
    var s, r := Descending(Pairs(adj, v)), Through(AllTriangles(adj), v);
    var f, g := (p: Pair) => ToTriangle(v, p), (t: Triangle) => ToPair(v, t);
    forall p | p in s ensures f(p) in r && g(f(p)) == p {
      var t := f(p);
      assert Adjacent(adj, v, p.a) && Adjacent(adj, v, p.b) && Adjacent(adj, p.a, p.b);
      assert Closes(adj, t.a, t.b, t.c);
    }
    forall t | t in r ensures g(t) in s && f(g(t)) == t {
      assert Closes(adj, t.a, t.b, t.c);
      var p := g(t);
      assert p.a in adj[v] && p.b in adj[v] && Adjacent(adj, p.a, p.b);
    }
    Bijection(s, r, f, g);
  }

  /** Each triangle through `v` is counted by two ordered pairs. */
  lemma PairsAreTriangles(adj: Adjacency, v: nat)
    requires Simple(adj) && v in adj
    ensures |Pairs(adj, v)| == 2 * |Through(AllTriangles(adj), v)|
  {
    var pairs := Pairs(adj, v);
    DescendingIsThrough(adj, v);
    var swap := (p: Pair) => Pair(p.b, p.a);
    forall p | p in pairs ensures swap(p) in pairs && p.a != p.b {
      assert Adjacent(adj, p.b, p.a);
    }
    Bijection(Descending(pairs), Ascending(pairs), swap, swap);
    assert pairs == Descending(pairs) + Ascending(pairs);
  }

  lemma Undivide(a: real, b: real)
    requires b > 0.0
    ensures a / b * b == a
  {
  }

  /** The coefficient is twice the number of triangles through the vertex over the ordered pairs of its neighbours. */
  lemma CoefficientIsDensity(adj: Adjacency, v: nat)
    requires Simple(adj) && v in adj && |adj[v]| >= 2
    ensures Coefficient(adj, v) * (|adj[v]| * (|adj[v]| - 1)) as real == 2.0 * |Through(AllTriangles(adj), v)| as real
  {
    PairsAreTriangles(adj, v);
    var d := |adj[v]|;
    assert d * (d - 1) > 0;
    Undivide(|Pairs(adj, v)| as real, (d * (d - 1)) as real);
    hide Pairs, AllTriangles, Through, Simple;
  }

  ghost predicate NeighboursAreAdjacent(adj: Adjacency, v: nat)
    requires v in adj
  {
    forall a, b :: a in adj[v] && b in adj[v] && a != b ==> Adjacent(adj, a, b)
  }

  lemma AllPairsIff(adj: Adjacency, v: nat)
    requires Simple(adj) && v in adj
    ensures NeighboursAreAdjacent(adj, v) <==> |Pairs(adj, v)| == |adj[v]| * (|adj[v]| - 1)
  {
    var pairs, all := Pairs(adj, v), OffDiagonal(adj[v]);
    OffDiagonalSize(adj[v]);
    SubsetSize(pairs, all);
    if pairs == all {
      forall a, b | a in adj[v] && b in adj[v] && a != b ensures Adjacent(adj, a, b) {
        assert Pair(a, b) in all;
      }
    }
    if NeighboursAreAdjacent(adj, v) {
      assert all <= pairs;
      assert pairs == all;
    }
  }

  /** It is 1 exactly for a vertex, of degree at least two, whose neighbours are all adjacent. */
  lemma CoefficientIsOneIff(adj: Adjacency, v: nat)
    requires Simple(adj) && v in adj
    ensures Coefficient(adj, v) == 1.0 <==> |adj[v]| >= 2 && NeighboursAreAdjacent(adj, v)
  {
    var d := |adj[v]|;
    if d >= 2 {
      AllPairsIff(adj, v);
      assert d * (d - 1) > 0;
      Undivide(|Pairs(adj, v)| as real, (d * (d - 1)) as real);
      hide Pairs, Simple, NeighboursAreAdjacent;
      OneIff(|Pairs(adj, v)|, d * (d - 1));
    }
  }

  lemma OneIff(a: nat, b: nat)
    requires b > 0
    ensures a as real / b as real == 1.0 <==> a == b
  {
    Undivide(a as real, b as real);
  }

  // ----- renaming

  /** `other` is `adj` with every vertex `v` called `f(v)`, and `back` undoes it. */
  ghost predicate RenamedBy(adj: Adjacency, f: nat -> nat, back: nat -> nat, other: Adjacency)
  {
    && (forall v :: v in adj ==> f(v) in other && back(f(v)) == v)
    && (forall x :: x in other ==> back(x) in adj && f(back(x)) == x)
    && (forall u, v :: u in adj && v in adj ==> (v in adj[u] <==> f(v) in other[f(u)]))
  }

  lemma CoefficientRenamed(adj: Adjacency, f: nat -> nat, back: nat -> nat, other: Adjacency, v: nat)
    requires Simple(adj) && Simple(other) && RenamedBy(adj, f, back, other) && v in adj
    ensures f(v) in other && Coefficient(adj, v) == Coefficient(other, f(v))
  {
    Bijection(adj[v], other[f(v)], f, back);
    PairsRenamed(adj, f, back, other, v);
  }

  lemma PairsRenamed(adj: Adjacency, f: nat -> nat, back: nat -> nat, other: Adjacency, v: nat)
    requires Simple(adj) && Simple(other) && RenamedBy(adj, f, back, other) && v in adj
    ensures f(v) in other && |Pairs(adj, v)| == |Pairs(other, f(v))|
  {
    var there, home := (p: Pair) => Pair(f(p.a), f(p.b)), (p: Pair) => Pair(back(p.a), back(p.b));
    forall p | p in Pairs(adj, v) ensures there(p) in Pairs(other, f(v)) && home(there(p)) == p {
      assert p.a in adj && p.b in adj;
    }
    forall p | p in Pairs(other, f(v)) ensures home(p) in Pairs(adj, v) && there(home(p)) == p {
      assert p.a in other && p.b in other;
      assert back(p.a) in adj && back(p.b) in adj;
    }
    Bijection(Pairs(adj, v), Pairs(other, f(v)), there, home);
  }
}
