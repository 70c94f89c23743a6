/**
 What PageRank means: the scores after `k` iterations are the chances of where a random surfer is after `k` moves. From
 a vertex without out-edges the surfer goes anywhere; otherwise it follows a random out-edge, or, with the probability
 that damping leaves, goes anywhere.
 */
module RandomSurfer {
  import opened Csr
  import opened Sums
  import opened PageRank

  /** The chance of a move from `u`, by its target. */
  function Moves(g: Graph, damping: real, u: nat): nat -> real
    requires WellFormed(g)
  {
    (v: nat) =>
      if u >= g.n || v >= g.n then 0.0
      else if Out(g, u) == [] then 1.0 / g.n as real
      else (1.0 - damping) / g.n as real + damping * (Count(Out(g, u), v) as real / |Out(g, u)| as real)
  }

  /** Being at some vertex and then moving to `v`. */
  function Arrivals(g: Graph, damping: real, chance: nat -> real, v: nat): nat -> real
    requires WellFormed(g)
  {
    (u: nat) => chance(u) * Moves(g, damping, u)(v)
  }

  /** The chance of being at a vertex after `k` moves from a start that is chosen at random. */
  function Chance(g: Graph, damping: real, k: nat): nat -> real
    requires WellFormed(g)
  {
    if k == 0 then (v: nat) => if v < g.n then 1.0 / g.n as real else 0.0
    else
      var before := Chance(g, damping, k - 1);
      (v: nat) => if v < g.n then Total(Indices(g.n), Arrivals(g, damping, before, v)) else 0.0
  }

  // ----- a move goes somewhere

  lemma MovesSplit(g: Graph, damping: real, u: nat, v: nat)
    requires WellFormed(g) && u < g.n && v < g.n && Out(g, u) != []
    ensures Moves(g, damping, u)(v) ==
      (1.0 - damping) / g.n as real + damping * ByValue(Out(g, u), Constant(1.0 / |Out(g, u)| as real))(v)
  {
    Quotient(Count(Out(g, u), v) as real, |Out(g, u)| as real);
    hide WellFormed, Out, Count;
  }

  lemma Quotient(a: real, b: real)
    requires b != 0.0
    ensures a / b == a * (1.0 / b)
  {
  }

  /** The chances of the moves from a vertex sum to 1. */
  lemma MovesSumToOne(g: Graph, damping: real, u: nat)
    requires WellFormed(g) && u < g.n
    ensures Total(Indices(g.n), Moves(g, damping, u)) == 1.0
  {
    var all, row := Indices(g.n), Out(g, u);
    if row == [] {
      TotalConstant(all, 1.0 / g.n as real, Moves(g, damping, u));
      Undivide(1.0, g.n as real);
    } else {
      RowsInRange(g, u);
      forall v | v in all
        ensures Moves(g, damping, u)(v) ==
          (1.0 - damping) / g.n as real + damping * ByValue(row, Constant(1.0 / |row| as real))(v)
      {
        MovesSplit(g, damping, u, v);
      }
      hide WellFormed, Moves, ByValue, Out;
      MovesTotal(g.n, damping, row, Moves(g, damping, u));
    }
  }

  lemma MovesTotal(n: nat, damping: real, row: seq<nat>, moves: nat -> real)
    requires n > 0 && row != [] && forall v :: v in row ==> v < n
    requires forall v :: v in Indices(n) ==>
      moves(v) == (1.0 - damping) / n as real + damping * ByValue(row, Constant(1.0 / |row| as real))(v)
    ensures Total(Indices(n), moves) == 1.0
  {
    hide *;
    var c, b := 1.0 / |row| as real, (1.0 - damping) / n as real;
    TotalByValue(n, row, Constant(c));
    TotalOfConstant(row, |row|, c);
    Undivide(1.0, |row| as real);
    Undivide(1.0 - damping, n as real);
    MovesAddUp(n, b, damping, ByValue(row, Constant(c)), moves);
  }

  lemma MovesAddUp(n: nat, b: real, damping: real, followed: nat -> real, moves: nat -> real)
    requires Total(Indices(n), followed) == 1.0 && n as real * b == 1.0 - damping
    requires forall v :: v in Indices(n) ==> moves(v) == b + damping * followed(v)
    ensures Total(Indices(n), moves) == 1.0
  {
    hide *;
    var all := Indices(n);
    var base, scaled := (v: nat) => b, (v: nat) => damping * followed(v);
    TotalConstant(all, b, base);
    TotalScaled(all, damping, followed, scaled);
    TotalPlus(all, base, scaled, moves);
  }

  // ----- an iteration is a move

  ghost predicate AreChances(x: Scores, chance: nat -> real)
  {
    forall u: nat :: u < |x| ==> chance(u) == x[u]
  }

  lemma AreChancesIntro(x: Scores, chance: nat -> real)
    requires forall u: nat :: u < |x| ==> chance(u) == x[u]
    ensures AreChances(x, chance)
  {
  }

  /** What arrives from a vertex with this score, in the terms of the kernel. */
  function Arriving(damping: real, n: nat, score: real, into: real, leak: real): real
    requires n > 0
  {
    (1.0 - damping) / n as real * score + damping * (into + 1.0 / n as real * leak)
  }

  lemma ArrivalSplits(g: Graph, damping: real, x: Scores, u: nat, v: nat)
    requires WellFormed(g) && Mirrored(g) && |x| == g.n && u < g.n && v < g.n
    ensures x[u] * Moves(g, damping, u)(v) == Arriving(damping, g.n, x[u], Into(g, x, v)(u), Leak(g, x)(u))
  {
    hide *;
    OutSize(g, u);
    IntoHere(g, x, u, v);
    ContributionIs(g, x, u);
    MovesAre(g, damping, u, v);
    ArrivalValue(x[u], damping, g.n, Count(Out(g, u), v) as real, |Out(g, u)|, Contribution(g, x)(u),
      Into(g, x, v)(u), Leak(g, x)(u), Moves(g, damping, u)(v));
  }

  lemma IntoHere(g: Graph, x: Scores, u: nat, v: nat)
    requires WellFormed(g) && Mirrored(g) && |x| == g.n && u < g.n && v < g.n
    ensures Into(g, x, v)(u) == Count(Out(g, u), v) as real * Contribution(g, x)(u)
  {
    hide *;
    PushedAlong(g, x, u, v);
    IntoIs(g, x, v);
    OutOfIs(g, x, u);
  }

  lemma ArrivalValue(x: real, damping: real, n: nat, count: real, k: nat, contribution: real, into: real, leak: real,
      moves: real)
    requires n > 0 && contribution == (if k > 0 then Portion(x, k) else 0.0) && into == count * contribution
    requires leak == if k == 0 then x else 0.0
    requires moves == if k == 0 then 1.0 / n as real
      else (1.0 - damping) / n as real + damping * (count / k as real)
    ensures x * moves == Arriving(damping, n, x, into, leak)
  {
    if k == 0 {
      Rest(x, damping, n as real);
    } else {
      Follow(x, damping, n as real, count, k as real);
    }
  }

  lemma MovesAre(g: Graph, damping: real, u: nat, v: nat)
    requires WellFormed(g) && u < g.n && v < g.n
    ensures Moves(g, damping, u)(v) ==
      if |Out(g, u)| == 0 then 1.0 / g.n as real
      else (1.0 - damping) / g.n as real + damping * (Count(Out(g, u), v) as real / |Out(g, u)| as real)
  {
  }

  lemma Rest(x: real, damping: real, n: real)
    requires n > 0.0
    ensures x * (1.0 / n) == (1.0 - damping) / n * x + damping * (0.0 + 1.0 / n * x)
  {
    var p := 1.0 / n;
    Quotient(1.0 - damping, n);
    assert (1.0 - damping) * p * x == p * x - damping * (p * x);
  }

  lemma Follow(x: real, damping: real, n: real, count: real, k: real)
    requires n > 0.0 && k > 0.0
    ensures x * ((1.0 - damping) / n + damping * (count / k)) ==
      (1.0 - damping) / n * x + damping * (count * (x / k) + 1.0 / n * 0.0)
  {
    var b, p := (1.0 - damping) / n, 1.0 / k;
    Quotient(count, k);
    Quotient(x, k);
    assert x * (count * p) == count * (x * p);
    Distribute(x, b, damping * (count * p));
    assert x * (damping * (count * p)) == damping * (x * (count * p));
  }

  lemma StepIsMove(g: Graph, damping: real, x: Scores, chance: nat -> real, v: nat)
    requires WellFormed(g) && Mirrored(g) && |x| == g.n && v < g.n && Mass(x) == 1.0
    requires AreChances(x, chance)
    ensures Step(g, damping, x)[v] == Total(Indices(g.n), Arrivals(g, damping, chance, v))
  {
    hide *;
    ArrivalsAre(g, damping, x, chance, v);
    MassIs(g, damping, x, v);
    PulledIsInto(g, x, v);
    PulledHere(g, x, v);
    ScoreIsArriving(g, damping, x, v);
    ArrivalsAddUp(Indices(g.n), g.n, damping, At(x), Into(g, x, v), Leak(g, x), Arrivals(g, damping, chance, v));
  }

  lemma MassIs(g: Graph, damping: real, x: Scores, v: nat)
    requires WellFormed(g) && |x| == g.n && v < g.n
    ensures Mass(x) == Total(Indices(g.n), At(x)) && Step(g, damping, x)[v] == Score(g, damping, x, v)
  {
    hide WellFormed, Score, Total, At;
  }

  lemma ArrivalsAre(g: Graph, damping: real, x: Scores, chance: nat -> real, v: nat)
    requires WellFormed(g) && Mirrored(g) && |x| == g.n && v < g.n
    requires AreChances(x, chance)
    ensures forall u :: u in Indices(g.n) ==>
      Arrivals(g, damping, chance, v)(u) ==
        Arriving(damping, g.n, At(x)(u), Into(g, x, v)(u), Leak(g, x)(u))
  {
    hide *;
    forall u | u in Indices(g.n)
      ensures Arrivals(g, damping, chance, v)(u) ==
        Arriving(damping, g.n, At(x)(u), Into(g, x, v)(u), Leak(g, x)(u))
    {
      ArrivalHere(g, damping, x, chance, u, v);
    }
  }

  lemma ArrivalHere(g: Graph, damping: real, x: Scores, chance: nat -> real, u: nat, v: nat)
    requires WellFormed(g) && Mirrored(g) && |x| == g.n && u in Indices(g.n) && v < g.n && AreChances(x, chance)
    ensures Arrivals(g, damping, chance, v)(u) ==
      Arriving(damping, g.n, At(x)(u), Into(g, x, v)(u), Leak(g, x)(u))
  {
    assert u < g.n && chance(u) == x[u];
    hide *;
    ArrivalSplits(g, damping, x, u, v);
    ArrivalIs(g, damping, x, chance, u, v);
  }

  lemma ArrivalIs(g: Graph, damping: real, x: Scores, chance: nat -> real, u: nat, v: nat)
    requires WellFormed(g) && |x| == g.n && u < g.n && chance(u) == x[u]
    ensures Arrivals(g, damping, chance, v)(u) == x[u] * Moves(g, damping, u)(v) && At(x)(u) == x[u]
  {
    hide Moves;
  }

  lemma ScoreIsArriving(g: Graph, damping: real, x: Scores, v: nat)
    requires WellFormed(g) && |x| == g.n && v < g.n
    ensures Score(g, damping, x, v) ==
      Arriving(damping, g.n, 1.0, Pulled(g, x, v), Total(Indices(g.n), Leak(g, x)))
  {
    Quotient(Dangling(g, x), g.n as real);
    hide Total, Leak, Pulled, WellFormed;
  }

  lemma ArrivalsAddUp(all: seq<nat>, n: nat, damping: real, scores: nat -> real, into: nat -> real, leak: nat -> real,
      arrivals: nat -> real)
    requires n > 0 && Total(all, scores) == 1.0
    requires forall u :: u in all ==> arrivals(u) == Arriving(damping, n, scores(u), into(u), leak(u))
    ensures Total(all, arrivals) == Arriving(damping, n, 1.0, Total(all, into), Total(all, leak))
  {
    var b, p := (1.0 - damping) / n as real, 1.0 / n as real;
    assert forall u :: u in all ==> arrivals(u) == b * scores(u) + damping * (into(u) + p * leak(u));
    hide *;
    SumsAddUp(all, b, p, damping, scores, into, leak, arrivals);
    ArrivingIs(damping, n, 1.0, Total(all, into), Total(all, leak));
  }

  lemma ArrivingIs(damping: real, n: nat, score: real, into: real, leak: real)
    requires n > 0
    ensures Arriving(damping, n, score, into, leak) ==
      (1.0 - damping) / n as real * score + damping * (into + 1.0 / n as real * leak)
  {
  }

  lemma SumsAddUp(all: seq<nat>, b: real, p: real, damping: real, scores: nat -> real, into: nat -> real,
      leak: nat -> real, arrivals: nat -> real)
    requires forall u :: u in all ==> arrivals(u) == b * scores(u) + damping * (into(u) + p * leak(u))
    ensures Total(all, arrivals) == b * Total(all, scores) + damping * (Total(all, into) + p * Total(all, leak))
  {
    hide *;
    var spread, leaked := (u: nat) => b * scores(u), (u: nat) => p * leak(u);
    var received := (u: nat) => into(u) + leaked(u);
    var damped := (u: nat) => damping * received(u);
    TotalScaled(all, b, scores, spread);
    TotalScaled(all, p, leak, leaked);
    TotalPlus(all, into, leaked, received);
    TotalScaled(all, damping, received, damped);
    TotalPlus(all, spread, damped, arrivals);
  }

  /** The score of a vertex is the chance of being there. */
  lemma {:induction false} ScoresAreChances(g: Graph, damping: real, k: nat, v: nat)
    requires WellFormed(g) && Mirrored(g) && v < g.n
    ensures Iterate(g, damping, k)[v] == Chance(g, damping, k)(v)
  {
    hide *;
    if k > 0 {
      var x, chance := Iterate(g, damping, k - 1), Chance(g, damping, k - 1);
      forall u: nat | u < g.n ensures chance(u) == x[u] { ScoresAreChances(g, damping, k - 1, u); }
      AreChancesIntro(x, chance);
      NextChance(g, damping, k, v);
    } else {
      FirstChance(g, damping, v);
    }
  }

  lemma FirstChance(g: Graph, damping: real, v: nat)
    requires WellFormed(g) && v < g.n
    ensures Iterate(g, damping, 0)[v] == Chance(g, damping, 0)(v)
  {
    hide WellFormed;
  }

  lemma NextChance(g: Graph, damping: real, k: nat, v: nat)
    requires WellFormed(g) && Mirrored(g) && v < g.n && k > 0
    requires AreChances(Iterate(g, damping, k - 1), Chance(g, damping, k - 1))
    ensures Iterate(g, damping, k)[v] == Chance(g, damping, k)(v)
  {
    hide *;
    MassIsOne(g, damping, k - 1);
    IterateIs(g, damping, k);
    ChanceIs(g, damping, k, v);
    StepIsMove(g, damping, Iterate(g, damping, k - 1), Chance(g, damping, k - 1), v);
  }

  lemma ChanceIs(g: Graph, damping: real, k: nat, v: nat)
    requires WellFormed(g) && v < g.n && k > 0
    ensures Chance(g, damping, k)(v) == Total(Indices(g.n), Arrivals(g, damping, Chance(g, damping, k - 1), v))
  {
    hide WellFormed, Arrivals, Total;
  }
}
