/** PageRank in the CSR store (CSR::do_pagerank), over exact reals. */
module PageRank {
  import opened Csr
  import opened Ranges
  import opened Sequences
  import opened Sums

  type Scores = seq<real>

  /** `x / n`; an empty graph has no vertex that uses it. */
  function Share(x: real, n: nat): real
  {
    if n == 0 then 0.0 else x / n as real
  }

  function Portion(score: real, degree: nat): real
    requires degree > 0
  {
    score / degree as real
  }

  /** What each out-neighbour receives from `u`. */
  function Contribution(g: Graph, x: Scores): nat -> real
    requires WellFormed(g) && |x| == g.n
  {
    (u: nat) => if u < g.n && OutDegree(g, u) > 0 then Portion(x[u], OutDegree(g, u)) else 0.0
  }

  /** What a sink gives to everybody. */
  function Leak(g: Graph, x: Scores): nat -> real
    requires WellFormed(g) && |x| == g.n
  {
    (u: nat) => if u < g.n && OutDegree(g, u) == 0 then x[u] else 0.0
  }

  function Dangling(g: Graph, x: Scores): real
    requires WellFormed(g) && |x| == g.n
  {
    Total(Indices(g.n), Leak(g, x))
  }

  function Pulled(g: Graph, x: Scores, v: nat): real
    requires WellFormed(g) && |x| == g.n && v < g.n
  {
    Total(In(g, v), Contribution(g, x))
  }

  function Score(g: Graph, damping: real, x: Scores, v: nat): real
    requires WellFormed(g) && |x| == g.n && v < g.n
  {
    Share(1.0 - damping, g.n) + damping * (Pulled(g, x, v) + Share(Dangling(g, x), g.n))
  }

  function Step(g: Graph, damping: real, x: Scores): (r: Scores)
    requires WellFormed(g) && |x| == g.n
    ensures |r| == g.n && forall v: nat :: v < g.n ==> r[v] == Score(g, damping, x, v)
  {
    seq(g.n, v requires 0 <= v < g.n => Score(g, damping, x, v))
  }

  /** The scores after `k` iterations. */
  function Iterate(g: Graph, damping: real, k: nat): (r: Scores)
    requires WellFormed(g)
    ensures |r| == g.n
  {
    if k == 0 then seq(g.n, v => Share(1.0, g.n)) else Step(g, damping, Iterate(g, damping, k - 1))
  }

  // ----- the mass of the scores

  function At(x: Scores): nat -> real
  {
    (v: nat) => if v < |x| then x[v] else 0.0
  }

  function Mass(x: Scores): real
  {
    Total(Indices(|x|), At(x))
  }

  /** What flows into `v` from `u`, once per edge. */
  function Flow(g: Graph, x: Scores, v: nat, u: nat): real
    requires WellFormed(g) && |x| == g.n
  {
    if u < g.n && v < g.n then Count(In(g, v), u) as real * Contribution(g, x)(u) else 0.0
  }

  function Into(g: Graph, x: Scores, v: nat): nat -> real
    requires WellFormed(g) && |x| == g.n
  {
    (u: nat) => Flow(g, x, v, u)
  }

  function OutOf(g: Graph, x: Scores, u: nat): nat -> real
    requires WellFormed(g) && |x| == g.n
  {
    (v: nat) => Flow(g, x, v, u)
  }

  function PulledBy(g: Graph, x: Scores): nat -> real
    requires WellFormed(g) && |x| == g.n
  {
    (v: nat) => if v < g.n then Pulled(g, x, v) else 0.0
  }

  lemma RowsInRange(g: Graph, u: nat)
    requires WellFormed(g) && u < g.n
    ensures forall v :: v in In(g, u) ==> v < g.n
    ensures forall v :: v in Out(g, u) ==> v < g.n
  {
  }

  lemma PulledIsInto(g: Graph, x: Scores, v: nat)
    requires WellFormed(g) && |x| == g.n && v < g.n
    ensures PulledBy(g, x)(v) == Total(Indices(g.n), Into(g, x, v))
  {
    PulledIs(g, x, v);
    RowsInRange(g, v);
    hide *;
    TotalByValue(g.n, In(g, v), Contribution(g, x));
    forall u | u in Indices(g.n)
      ensures ByValue(In(g, v), Contribution(g, x))(u) == Into(g, x, v)(u)
    {
      FlowByValue(g, x, v, u);
    }
    TotalSame(Indices(g.n), ByValue(In(g, v), Contribution(g, x)), Into(g, x, v));
  }

  lemma PulledIs(g: Graph, x: Scores, v: nat)
    requires WellFormed(g) && |x| == g.n && v < g.n
    ensures PulledBy(g, x)(v) == Total(In(g, v), Contribution(g, x))
  {
  }

  lemma FlowByValue(g: Graph, x: Scores, v: nat, u: nat)
    requires WellFormed(g) && |x| == g.n && v < g.n && u in Indices(g.n)
    ensures ByValue(In(g, v), Contribution(g, x))(u) == Into(g, x, v)(u)
  {
    hide WellFormed, Contribution, In, Count;
  }

  lemma PushedAlong(g: Graph, x: Scores, u: nat, v: nat)
    requires WellFormed(g) && Mirrored(g) && |x| == g.n && u < g.n && v < g.n
    ensures OutOf(g, x, u)(v) == Count(Out(g, u), v) as real * Contribution(g, x)(u)
  {
    assert multiset(Out(g, u))[v] == multiset(In(g, v))[u];
  }

  function Constant(c: real): nat -> real
  {
    (v: nat) => c
  }

  lemma PushedByValue(g: Graph, x: Scores, u: nat, v: nat)
    requires WellFormed(g) && Mirrored(g) && |x| == g.n && u < g.n && v in Indices(g.n)
    ensures ByValue(Out(g, u), Constant(Contribution(g, x)(u)))(v) == OutOf(g, x, u)(v)
  {
    PushedAlong(g, x, u, v);
    hide WellFormed, Contribution, Out, Count, Mirrored, OutOf;
  }

  lemma OutOfIsConstant(g: Graph, x: Scores, u: nat)
    requires WellFormed(g) && Mirrored(g) && |x| == g.n && u < g.n
    ensures Total(Indices(g.n), OutOf(g, x, u)) == Total(Out(g, u), Constant(Contribution(g, x)(u)))
  {
    RowsInRange(g, u);
    hide *;
    var counted := ByValue(Out(g, u), Constant(Contribution(g, x)(u)));
    TotalByValue(g.n, Out(g, u), Constant(Contribution(g, x)(u)));
    forall v | v in Indices(g.n)
      ensures counted(v) == OutOf(g, x, u)(v)
    {
      PushedByValue(g, x, u, v);
    }
    TotalSame(Indices(g.n), counted, OutOf(g, x, u));
  }

  /** By the transposed arrays, a vertex sends its contribution along each of its out-edges. */
  lemma OutOfIsPushed(g: Graph, x: Scores, u: nat)
    requires WellFormed(g) && Mirrored(g) && |x| == g.n && u < g.n
    ensures Total(Indices(g.n), OutOf(g, x, u)) == OutDegree(g, u) as real * Contribution(g, x)(u)
  {
    hide *;
    OutOfIsConstant(g, x, u);
    OutSize(g, u);
    TotalOfConstant(Out(g, u), OutDegree(g, u), Contribution(g, x)(u));
  }

  lemma OutSize(g: Graph, u: nat)
    requires WellFormed(g) && u < g.n
    ensures |Out(g, u)| == OutDegree(g, u)
  {
  }

  lemma TotalOfConstant(row: seq<nat>, k: nat, c: real)
    requires |row| == k
    ensures Total(row, Constant(c)) == k as real * c
  {
    TotalConstant(row, c, Constant(c));
  }

  lemma PushedIsScore(g: Graph, x: Scores, u: nat)
    requires WellFormed(g) && |x| == g.n && u < g.n
    ensures OutDegree(g, u) as real * Contribution(g, x)(u) + Leak(g, x)(u) == At(x)(u)
  {
    var k := OutDegree(g, u);
    hide WellFormed, OutDegree;
    if k > 0 {
      Undivide(x[u], k as real);
    }
  }

  lemma Undivide(a: real, b: real)
    requires b != 0.0
    ensures b * (a / b) == a
  {
  }

  function Inflows(g: Graph, x: Scores): nat -> real
    requires WellFormed(g) && |x| == g.n
  {
    (v: nat) => Total(Indices(g.n), Into(g, x, v))
  }

  function Outflows(g: Graph, x: Scores): nat -> real
    requires WellFormed(g) && |x| == g.n
  {
    (u: nat) => Total(Indices(g.n), OutOf(g, x, u))
  }

  /** Double counting: the flow grouped by its target and by its source. */
  lemma FlowTwice(g: Graph, x: Scores)
    requires WellFormed(g) && |x| == g.n
    ensures Total(Indices(g.n), Inflows(g, x)) == Total(Indices(g.n), Outflows(g, x))
  {
    hide WellFormed, Total, Indices, Into, OutOf, Flow;
    forall v: nat, u: nat
      ensures Into(g, x, v)(u) == OutOf(g, x, u)(v)
    {
      IntoIs(g, x, v);
      OutOfIs(g, x, u);
    }
    TotalSwapped(Indices(g.n), Indices(g.n), (v: nat) => Into(g, x, v), (u: nat) => OutOf(g, x, u), Inflows(g, x),
      Outflows(g, x));
  }

  lemma IntoIs(g: Graph, x: Scores, v: nat)
    requires WellFormed(g) && |x| == g.n
    ensures forall u :: Into(g, x, v)(u) == Flow(g, x, v, u)
  {
  }

  lemma OutOfIs(g: Graph, x: Scores, u: nat)
    requires WellFormed(g) && |x| == g.n
    ensures forall v :: OutOf(g, x, u)(v) == Flow(g, x, v, u)
  {
  }

  /** All that is pulled, and what leaks, is all there was. */
  lemma NothingIsLost(g: Graph, x: Scores)
    requires WellFormed(g) && Mirrored(g) && |x| == g.n
    ensures Total(Indices(g.n), PulledBy(g, x)) + Dangling(g, x) == Mass(x)
  {
    hide WellFormed, Contribution, In, Out, Total, OutDegree, Mirrored, OutOf, Into, Leak, PulledBy, At;
    var all := Indices(g.n);
    forall v | v in all ensures PulledBy(g, x)(v) == Inflows(g, x)(v) { PulledIsInto(g, x, v); }
    TotalSame(all, PulledBy(g, x), Inflows(g, x));
    FlowTwice(g, x);
    forall u | u in all
      ensures At(x)(u) == Outflows(g, x)(u) + Leak(g, x)(u)
    {
      OutOfIsPushed(g, x, u);
      PushedIsScore(g, x, u);
    }
    TotalPlus(all, Outflows(g, x), Leak(g, x), At(x));
  }

  lemma ScoreSplits(g: Graph, damping: real, x: Scores, v: nat)
    requires WellFormed(g) && |x| == g.n && v < g.n
    ensures At(Step(g, damping, x))(v) ==
      (Share(1.0 - damping, g.n) + damping * Share(Dangling(g, x), g.n)) + damping * PulledBy(g, x)(v)
  {
    hide WellFormed, Dangling, Pulled, Share;
    Distribute(damping, Pulled(g, x, v), Share(Dangling(g, x), g.n));
  }

  lemma MassOfStep(g: Graph, damping: real, x: Scores)
    requires WellFormed(g) && Mirrored(g) && |x| == g.n && g.n > 0
    ensures Mass(Step(g, damping, x)) == (1.0 - damping) + damping * Mass(x)
  {
    hide WellFormed, Mirrored, Dangling, Total, Step, PulledBy, At, Distinct;
    var all, y := Indices(g.n), Step(g, damping, x);
    var base, leak := Share(1.0 - damping, g.n), Share(Dangling(g, x), g.n);
    var constant, scaled := (v: nat) => base + damping * leak, (v: nat) => damping * PulledBy(g, x)(v);
    forall v | v in all
      ensures At(y)(v) == constant(v) + scaled(v)
    {
      ScoreSplits(g, damping, x, v);
    }
    TotalPlus(all, constant, scaled, At(y));
    TotalConstant(all, base + damping * leak, constant);
    TotalScaled(all, damping, PulledBy(g, x), scaled);
    NothingIsLost(g, x);
    Collect(g.n as real, damping, base, leak, Dangling(g, x), Total(all, PulledBy(g, x)), Mass(x));
  }

  lemma Collect(n: real, damping: real, base: real, leak: real, dangling: real, pulled: real, mass: real)
    requires n > 0.0 && base == (1.0 - damping) / n && leak == dangling / n && pulled + dangling == mass
    ensures n * (base + damping * leak) + damping * pulled == (1.0 - damping) + damping * mass
  {
    Undivide(1.0 - damping, n);
    Undivide(dangling, n);
    Distribute(n, base, damping * leak);
    assert n * (damping * leak) == damping * (n * leak);
    Distribute(damping, dangling, pulled);
  }

  /** After any number of iterations the scores sum to 1, sinks included, for every damping factor. */
  lemma {:induction false} MassIsOne(g: Graph, damping: real, k: nat)
    requires WellFormed(g) && Mirrored(g) && g.n > 0
    ensures Mass(Iterate(g, damping, k)) == 1.0
  {
    hide *;
    if k == 0 {
      FirstMass(g, damping);
    } else {
      MassIsOne(g, damping, k - 1);
      IterateIs(g, damping, k);
      StepKeepsOne(g, damping, Iterate(g, damping, k - 1));
    }
  }

  lemma StepKeepsOne(g: Graph, damping: real, x: Scores)
    requires WellFormed(g) && Mirrored(g) && |x| == g.n && g.n > 0 && Mass(x) == 1.0
    ensures Mass(Step(g, damping, x)) == 1.0
  {
    hide *;
    MassOfStep(g, damping, x);
    StayOne(damping, Mass(x));
  }

  lemma StayOne(damping: real, mass: real)
    requires mass == 1.0
    ensures (1.0 - damping) + damping * mass == 1.0
  {
  }

  lemma IterateIs(g: Graph, damping: real, k: nat)
    requires WellFormed(g) && k > 0
    ensures Iterate(g, damping, k) == Step(g, damping, Iterate(g, damping, k - 1))
  {
    hide WellFormed, Step;
  }

  lemma FirstMass(g: Graph, damping: real)
    requires WellFormed(g) && g.n > 0
    ensures Mass(Iterate(g, damping, 0)) == 1.0
  {
    hide WellFormed;
    var first := Iterate(g, damping, 0);
    TotalConstant(Indices(g.n), Share(1.0, g.n), At(first));
    Undivide(1.0, g.n as real);
  }

  /** With a damping factor between 0 and 1 the scores are a probability distribution. */
  lemma {:induction false} ScoresAreProbabilities(g: Graph, damping: real, k: nat, v: nat)
    requires WellFormed(g) && Mirrored(g) && 0.0 <= damping <= 1.0 && v < g.n
    ensures 0.0 <= Iterate(g, damping, k)[v] <= 1.0
    decreases k, 1
  {
    ScoresAreNonNegative(g, damping, k);
    MassIsOne(g, damping, k);
    var x := Iterate(g, damping, k);
    var others := (u: nat) => if u == v then 0.0 else At(x)(u);
    InIndices(g.n, v);
    TotalChanged(Indices(g.n), others, At(x), v);
    TotalNonNegative(Indices(g.n), others);
  }

  lemma {:induction false} ScoresAreNonNegative(g: Graph, damping: real, k: nat)
    requires WellFormed(g) && 0.0 <= damping <= 1.0
    ensures forall v :: 0 <= v < g.n ==> Iterate(g, damping, k)[v] >= 0.0
    decreases k, 0
  {
    if k > 0 {
      ScoresAreNonNegative(g, damping, k - 1);
      var x := Iterate(g, damping, k - 1);
      forall v: nat | v < g.n
        ensures Score(g, damping, x, v) >= 0.0
      {
        StepNonNegative(g, damping, x, v);
      }
    }
  }

  lemma StepNonNegative(g: Graph, damping: real, x: Scores, v: nat)
    requires WellFormed(g) && 0.0 <= damping <= 1.0 && |x| == g.n && v < g.n && forall u :: 0 <= u < g.n ==> x[u] >= 0.0
    ensures Score(g, damping, x, v) >= 0.0
  {
    PartsNonNegative(g, x, v);
    hide *;
    ShareNonNegative(1.0 - damping, g.n);
    ShareNonNegative(Dangling(g, x), g.n);
    ScoreIs(g, damping, x, v);
    ProductNonNegative(damping, Pulled(g, x, v) + Share(Dangling(g, x), g.n));
  }

  lemma PartsNonNegative(g: Graph, x: Scores, v: nat)
    requires WellFormed(g) && |x| == g.n && v < g.n && forall u :: 0 <= u < g.n ==> x[u] >= 0.0
    ensures Pulled(g, x, v) >= 0.0 && Dangling(g, x) >= 0.0
  {
    forall u: nat
      ensures Contribution(g, x)(u) >= 0.0 && Leak(g, x)(u) >= 0.0
    {
      ContributesNonNegative(g, x, u);
    }
    hide WellFormed, Contribution, Leak, In, Total;
    TotalNonNegative(In(g, v), Contribution(g, x));
    TotalNonNegative(Indices(g.n), Leak(g, x));
  }

  lemma ScoreIs(g: Graph, damping: real, x: Scores, v: nat)
    requires WellFormed(g) && |x| == g.n && v < g.n
    ensures Score(g, damping, x, v) ==
      Share(1.0 - damping, g.n) + damping * (Pulled(g, x, v) + Share(Dangling(g, x), g.n))
  {
  }

  lemma ContributesNonNegative(g: Graph, x: Scores, u: nat)
    requires WellFormed(g) && |x| == g.n && forall v :: 0 <= v < g.n ==> x[v] >= 0.0
    ensures Contribution(g, x)(u) >= 0.0 && Leak(g, x)(u) >= 0.0
  {
    hide WellFormed, OutDegree;
    if u < g.n && OutDegree(g, u) > 0 {
      QuotientNonNegative(x[u], OutDegree(g, u) as real);
    }
  }

  lemma QuotientNonNegative(a: real, b: real)
    requires a >= 0.0 && b > 0.0
    ensures a / b >= 0.0
  {
  }

  lemma ProductNonNegative(a: real, b: real)
    requires a >= 0.0 && b >= 0.0
    ensures a * b >= 0.0
  {
  }

  lemma ShareNonNegative(a: real, n: nat)
    requires a >= 0.0
    ensures Share(a, n) >= 0.0
  {
    if n > 0 {
      QuotientNonNegative(a, n as real);
    }
  }

  // ----- the kernel

  /** The sinks that were visited, for a loop with the vertices of `left` still to come. */
  function LeakWithout(g: Graph, x: Scores, left: set<nat>): nat -> real
    requires WellFormed(g) && |x| == g.n
  {
    (u: nat) => if u in left then 0.0 else Leak(g, x)(u)
  }

  lemma VisitSink(g: Graph, x: Scores, left: set<nat>, v: nat)
    requires WellFormed(g) && |x| == g.n && v < g.n && v in left
    ensures Total(Indices(g.n), LeakWithout(g, x, left - {v})) ==
      Total(Indices(g.n), LeakWithout(g, x, left)) + Leak(g, x)(v)
  {
    InIndices(g.n, v);
    TotalChanged(Indices(g.n), LeakWithout(g, x, left), LeakWithout(g, x, left - {v}), v);
  }

  /**
   First loop of an iteration, in any order: contributions of the vertices with out-edges, and the sum over the sinks.
   */
  method Contribute(g: Graph, scores: array<real>, contrib: array<real>) returns (dangling: real)
    requires WellFormed(g) && scores.Length == g.n && contrib.Length == g.n && scores != contrib
    requires forall u: nat :: u < g.n && OutDegree(g, u) == 0 ==> contrib[u] == 0.0
    modifies contrib
    ensures forall u: nat :: u < g.n ==> contrib[u] == Contribution(g, scores[..])(u)
    ensures dangling == Dangling(g, scores[..])
  {
    hide *;
    ghost var x := scores[..];
    dangling := 0.0;
    var left := UpTo(g.n);
    NoSinkVisited(g, x);
    forall u: nat | u < g.n && OutDegree(g, u) == 0 ensures Contribution(g, x)(u) == 0.0 { ContributionIs(g, x, u); }
    while left != {}
      invariant left <= UpTo(g.n) && scores[..] == x
      invariant forall u: nat :: u < g.n && (u !in left || OutDegree(g, u) == 0) ==> contrib[u] == Contribution(g, x)(u)
      invariant dangling == Total(Indices(g.n), LeakWithout(g, x, left))
    {
      var v :| v in left;
      dangling := ContributeOne(g, scores, contrib, left, v, dangling);
      left := left - {v};
    }
    AllSinksVisited(g, x);
  }

  /** One iteration of the loop. */
  method ContributeOne(g: Graph, scores: array<real>, contrib: array<real>, ghost left: set<nat>, v: nat, sum: real)
    returns (dangling: real)
    requires WellFormed(g) && scores.Length == g.n && contrib.Length == g.n && scores != contrib && v in left
    requires left <= UpTo(g.n)
    requires sum == Total(Indices(g.n), LeakWithout(g, scores[..], left))
    requires v < g.n && (OutDegree(g, v) == 0 ==> contrib[v] == Contribution(g, scores[..])(v))
    modifies contrib
    ensures dangling == Total(Indices(g.n), LeakWithout(g, scores[..], left - {v}))
    ensures contrib[..] == old(contrib[..])[v := Contribution(g, scores[..])(v)]
  {
    hide *;
    ghost var x := scores[..];
    VisitSink(g, x, left, v);
    ContributionIs(g, x, v);
    var degree := OutDegree(g, v);
    dangling := sum;
    if degree == 0 {
      dangling := dangling + scores[v];
    } else {
      contrib[v] := Portion(scores[v], degree);
    }
  }

  lemma ContributionIs(g: Graph, x: Scores, u: nat)
    requires WellFormed(g) && |x| == g.n && u < g.n
    ensures Contribution(g, x)(u) == if OutDegree(g, u) > 0 then Portion(x[u], OutDegree(g, u)) else 0.0
    ensures Leak(g, x)(u) == if OutDegree(g, u) == 0 then x[u] else 0.0
  {
  }

  lemma NoSinkVisited(g: Graph, x: Scores)
    requires WellFormed(g) && |x| == g.n
    ensures Total(Indices(g.n), LeakWithout(g, x, UpTo(g.n))) == 0.0
  {
    TotalConstant(Indices(g.n), 0.0, LeakWithout(g, x, UpTo(g.n)));
  }

  lemma AllSinksVisited(g: Graph, x: Scores)
    requires WellFormed(g) && |x| == g.n
    ensures Total(Indices(g.n), LeakWithout(g, x, {})) == Dangling(g, x)
  {
    TotalSame(Indices(g.n), LeakWithout(g, x, {}), Leak(g, x));
  }

  /** The sum over the in-edges of one vertex. */
  method IncomingTotal(g: Graph, contrib: array<real>, ghost x: Scores, v: nat) returns (total: real)
    requires WellFormed(g) && |x| == g.n && contrib.Length == g.n && v < g.n
    requires forall u: nat :: u < g.n ==> contrib[u] == Contribution(g, x)(u)
    ensures total == Pulled(g, x, v)
  {
    total := 0.0;
    ghost var row := In(g, v);
    RowIs(g, v);
    PulledHere(g, x, v);
    hide WellFormed, Rows, In, Row, Lo, Hi, Total, Contribution, Pulled;
    for i := Lo(g.inV, v) to Hi(g.inV, v)
      invariant total == Total(row[..i - Lo(g.inV, v)], Contribution(g, x))
    {
      TotalNext(row, i - Lo(g.inV, v), Contribution(g, x));
      total := total + contrib[g.inE[i]];
    }
    assert row[..|row|] == row;
  }

  lemma RowIs(g: Graph, v: nat)
    requires WellFormed(g) && v < g.n
    ensures |g.inV| == g.n && Lo(g.inV, v) <= Hi(g.inV, v) <= |g.inE|
    ensures |In(g, v)| == Hi(g.inV, v) - Lo(g.inV, v)
    ensures forall i :: Lo(g.inV, v) <= i < Hi(g.inV, v) ==> g.inE[i] == In(g, v)[i - Lo(g.inV, v)] && g.inE[i] < g.n
  {
  }

  lemma PulledHere(g: Graph, x: Scores, v: nat)
    requires WellFormed(g) && |x| == g.n && v < g.n
    ensures Pulled(g, x, v) == Total(In(g, v), Contribution(g, x)) == PulledBy(g, x)(v)
    ensures Total<nat>([], Contribution(g, x)) == 0.0
  {
  }

  lemma TotalNext(row: seq<nat>, k: nat, f: nat -> real)
    requires k < |row|
    ensures Total(row[..k + 1], f) == Total(row[..k], f) + f(row[k])
  {
    SplitLast(row[..k + 1], f);
    assert row[..k + 1][..k] == row[..k];
  }

  /**
   The second loop of an iteration, in any order: scores are overwritten, since contributions were computed before.
   */
  method Rescore(g: Graph, damping: real, scores: array<real>, contrib: array<real>, ghost x: Scores, dangling: real)
    requires WellFormed(g) && |x| == g.n && scores.Length == g.n && contrib.Length == g.n && scores != contrib
    requires forall u: nat :: u < g.n ==> contrib[u] == Contribution(g, x)(u)
    requires dangling == Share(Dangling(g, x), g.n)
    modifies scores
    ensures scores[..] == Step(g, damping, x)
  {
    hide *;
    var left := UpTo(g.n);
    while left != {}
      invariant left <= UpTo(g.n)
      invariant forall u: nat :: u < g.n ==> contrib[u] == Contribution(g, x)(u)
      invariant forall u: nat :: u < g.n && u !in left ==> scores[u] == Score(g, damping, x, u)
    {
      var v :| v in left;
      scores[v] := NewScore(g, damping, contrib, x, dangling, v);
      left := left - {v};
    }
    StepIs(g, damping, x, scores[..]);
  }

  lemma StepIs(g: Graph, damping: real, x: Scores, scores: Scores)
    requires WellFormed(g) && |x| == g.n && |scores| == g.n
    requires forall u: nat :: u < g.n ==> scores[u] == Score(g, damping, x, u)
    ensures scores == Step(g, damping, x)
  {
    hide WellFormed, Score;
  }

  method NewScore(g: Graph, damping: real, contrib: array<real>, ghost x: Scores, dangling: real, v: nat)
    returns (score: real)
    requires WellFormed(g) && |x| == g.n && contrib.Length == g.n && v < g.n
    requires forall u: nat :: u < g.n ==> contrib[u] == Contribution(g, x)(u)
    requires dangling == Share(Dangling(g, x), g.n)
    ensures score == Score(g, damping, x, v)
  {
    hide *;
    ScoreIs(g, damping, x, v);
    var incoming := IncomingTotal(g, contrib, x, v);
    score := Share(1.0 - damping, g.n) + damping * (incoming + dangling);
  }

  /** One iteration of the main loop. */
  method Pass(g: Graph, damping: real, scores: array<real>, contrib: array<real>)
    requires WellFormed(g) && scores.Length == g.n && contrib.Length == g.n && scores != contrib
    requires forall u: nat :: u < g.n && OutDegree(g, u) == 0 ==> contrib[u] == 0.0
    modifies scores, contrib
    ensures scores[..] == Step(g, damping, old(scores[..]))
    ensures forall u: nat :: u < g.n && OutDegree(g, u) == 0 ==> contrib[u] == 0.0
  {
    hide WellFormed, Dangling, Step, OutDegree;
    ghost var x := scores[..];
    var dangling := Contribute(g, scores, contrib);
    Rescore(g, damping, scores, contrib, x, Share(dangling, g.n));
  }

  /** CSR::do_pagerank */
  method Pagerank(g: Graph, iterations: nat, damping: real) returns (scores: array<real>)
    requires WellFormed(g)
    ensures fresh(scores) && scores[..] == Iterate(g, damping, iterations)
  {
    scores := new real[g.n](_ => Share(1.0, g.n));
    var contrib := new real[g.n](_ => 0.0);
    assert scores[..] == Iterate(g, damping, 0);
    for k := 0 to iterations
      invariant fresh(scores) && fresh(contrib) && scores != contrib && scores.Length == g.n && contrib.Length == g.n
      invariant scores[..] == Iterate(g, damping, k)
      invariant forall u: nat :: u < g.n && OutDegree(g, u) == 0 ==> contrib[u] == 0.0
    {
      Pass(g, damping, scores, contrib);
    }
  }
}
