/**
 Weakly connected components by hooking and compressing (CSR::do_wcc).

 The parallel loops race on `comp` without atomics. Here every read and every write of `comp`
 is a step of its own, and the steps of all iterations interleave at will.
 */
module Wcc {
  import opened Walks
  import opened Connectivity
  import opened Csr
  import opened Ranges

  // An iteration of the inner loop: vertex `u` and the position of one of its edges.
  datatype Edge = Edge(u: nat, i: nat)

  function RowEdges(u: nat, lo: nat, hi: nat): (edges: set<Edge>)
    requires lo <= hi
    ensures forall e: Edge :: e in edges <==> e.u == u && lo <= e.i < hi
    decreases hi - lo
  {
    if lo == hi then {} else RowEdges(u, lo, hi - 1) + {Edge(u, hi - 1)}
  }

  /** The iterations for the vertices below `n`. */
  function EdgesBelow(g: Graph, n: nat): set<Edge>
    requires WellFormed(g) && n <= g.n
  {
    if n == 0 then {} else EdgesBelow(g, n - 1) + RowEdges(n - 1, Lo(g.outV, n - 1), Hi(g.outV, n - 1))
  }

  lemma {:induction false} EdgesBelowAre(g: Graph, n: nat, e: Edge)
    requires WellFormed(g) && n <= g.n
    ensures e in EdgesBelow(g, n) <==> e.u < n && IsEdge(g, e)
  {
    if n > 0 {
      EdgesBelowAre(g, n - 1, e);
    }
  }

  predicate IsEdge(g: Graph, e: Edge)
    requires WellFormed(g)
  {
    e.u < g.n && Lo(g.outV, e.u) <= e.i < Hi(g.outV, e.u) && e.i < |g.outE|
  }

  lemma EdgeIsArc(g: Graph, e: Edge)
    requires WellFormed(g) && IsEdge(g, e)
    ensures g.outE[e.i] < g.n && Arc(e.u, g.outE[e.i], 1) in UnitArcs(g)
  {
    assert g.outE[e.i] == Out(g, e.u)[e.i - Lo(g.outV, e.u)];
    UnitArcsAre(g, Arc(e.u, g.outE[e.i], 1));
  }

  lemma ArcIsEdge(g: Graph, a: Arc) returns (e: Edge)
    requires WellFormed(g) && a in UnitArcs(g)
    ensures IsEdge(g, e) && e.u == a.src && g.outE[e.i] == a.dst
  {
    UnitArcsAre(g, a);
    var i :| 0 <= i < |Out(g, a.src)| && Out(g, a.src)[i] == a.dst;
    e := Edge(a.src, Lo(g.outV, a.src) + i);
  }

  // ----- labels

  /** Labels never exceed the vertex and stay in its component. */
  ghost predicate Sound(g: Graph, comp: seq<nat>)
    requires WellFormed(g)
  {
    && |comp| == g.n
    && forall x: nat :: x < g.n ==> comp[x] <= x && Connected(UnitArcs(g), x, comp[x])
  }

  /** Every label is a root. */
  ghost predicate Stars(comp: seq<nat>)
  {
    forall x: nat :: x < |comp| ==> comp[x] < |comp| && comp[comp[x]] == comp[x]
  }

  ghost function Roots(comp: seq<nat>): set<nat>
  {
    set x: nat | x < |comp| && comp[x] == x
  }

  ghost predicate EqualAlongEdges(g: Graph, comp: seq<nat>)
    requires WellFormed(g) && |comp| == g.n
  {
    forall e :: IsEdge(g, e) ==> comp[e.u] == comp[g.outE[e.i]]
  }

  ghost predicate Components(g: Graph, comp: seq<nat>)
    requires WellFormed(g)
  {
    |comp| == g.n && forall x: nat :: x < g.n ==> IsLeast(UnitArcs(g), x, comp[x])
  }

  /** Sound labels that agree along every edge are the least vertices of the components. */
  lemma AgreementIsLeast(g: Graph, comp: seq<nat>)
    requires WellFormed(g) && Sound(g, comp) && EqualAlongEdges(g, comp)
    ensures Components(g, comp)
  {
    var arcs := UnitArcs(g);
    var f: nat -> int := (x: nat) => if x < |comp| then comp[x] else x;
    forall a | a in arcs
      ensures f(a.src) == f(a.dst)
    {
      var e := ArcIsEdge(g, a);
    }
    forall x: nat, y: nat | x < g.n && Connected(arcs, x, y)
      ensures comp[x] <= y
    {
      LabelsFollow(arcs, f, x, y);
    }
  }

  // ----- the hook pass

  // Where an iteration is: it has read one label, both labels, or has found a root to hook.
  datatype Progress = OneRead(compU: nat) | BothRead(compU: nat, compV: nat) | Hooking(high: nat, low: nat)

  function Max(a: nat, b: nat): nat { if a > b then a else b }
  function Min(a: nat, b: nat): nat { if a < b then a else b }

  ghost predicate ProgressOk(g: Graph, start: seq<nat>, comp: seq<nat>, change: bool, e: Edge, p: Progress)
    requires WellFormed(g) && |start| == g.n && |comp| == g.n && IsEdge(g, e)
  {
    var arcs, u, v := UnitArcs(g), e.u, g.outE[e.i];
    match p
    case OneRead(a) => a < g.n && Connected(arcs, u, a) && (!change ==> a == start[u])
    case BothRead(a, b) => a < g.n && b < g.n && Connected(arcs, u, a) && Connected(arcs, v, b)
                           && (!change ==> a == start[u] && b == start[v])
    case Hooking(high, low) => low < high < g.n && Connected(arcs, high, low) && change && start[high] == high
  }

  /** An iteration that is over and saw no change found equal labels, or a larger label that was no root. */
  ghost predicate Settled(start: seq<nat>, u: nat, v: nat)
    requires u < |start| && v < |start|
  {
    start[u] == start[v] || (Max(start[u], start[v]) < |start|
      && start[Max(start[u], start[v])] != Max(start[u], start[v]))
  }

  ghost predicate SomeoneHooks(busy: map<Edge, Progress>)
  {
    exists e :: e in busy && busy[e].Hooking?
  }

  ghost predicate BusyOk(g: Graph, start: seq<nat>, comp: seq<nat>, busy: map<Edge, Progress>, change: bool)
    requires WellFormed(g) && |start| == g.n && |comp| == g.n
  {
    forall e :: e in busy ==> IsEdge(g, e) && ProgressOk(g, start, comp, change, e, busy[e])
  }

  /** Without a change the finished iterations have settled their edges. */
  ghost predicate QuietOk(g: Graph, start: seq<nat>, todo: set<Edge>, busy: map<Edge, Progress>, change: bool)
    requires WellFormed(g) && |start| == g.n
  {
    !change ==> forall e :: IsEdge(g, e) && e !in todo && e !in busy ==> Settled(start, e.u, g.outE[e.i])
  }

  /** A change has removed a root, or is about to. */
  ghost predicate RootsOk(start: seq<nat>, comp: seq<nat>, busy: map<Edge, Progress>, change: bool)
  {
    && Roots(comp) <= Roots(start)
    && (!change ==> comp == start)
    && (change ==> Roots(comp) < Roots(start) || SomeoneHooks(busy))
  }

  ghost predicate EdgesOk(g: Graph, todo: set<Edge>, busy: map<Edge, Progress>)
    requires WellFormed(g)
  {
    (forall e :: e in todo ==> IsEdge(g, e)) && todo !! busy.Keys
  }

  ghost predicate HookInvariant(g: Graph, start: seq<nat>, comp: seq<nat>, todo: set<Edge>, busy: map<Edge, Progress>,
      change: bool)
    requires WellFormed(g)
  {
    && |start| == g.n && |comp| == g.n && Sound(g, comp)
    && EdgesOk(g, todo, busy) && BusyOk(g, start, comp, busy, change)
    && QuietOk(g, start, todo, busy, change) && RootsOk(start, comp, busy, change)
  }

  /** Only the iteration for `e` is elsewhere. */
  ghost predicate SameOthers(todo: set<Edge>, busy: map<Edge, Progress>, todo': set<Edge>, busy': map<Edge, Progress>,
      e: Edge)
  {
    && e !in todo' && (forall f :: f != e ==> (f in todo' <==> f in todo))
    && (forall f :: f != e ==> (f in busy' <==> f in busy))
    && (forall f :: f != e && f in busy ==> f in busy' && busy'[f] == busy[f])
  }

  lemma BusyMoves(g: Graph, start: seq<nat>, comp: seq<nat>, todo: set<Edge>, busy: map<Edge, Progress>, change: bool,
      todo': set<Edge>, busy': map<Edge, Progress>, change': bool, e: Edge)
    requires WellFormed(g) && |start| == g.n && |comp| == g.n && BusyOk(g, start, comp, busy, change)
    requires SameOthers(todo, busy, todo', busy', e) && (change ==> change')
    requires IsEdge(g, e) && (e in busy' ==> ProgressOk(g, start, comp, change', e, busy'[e]))
    ensures BusyOk(g, start, comp, busy', change')
  {
    forall f | f in busy'
      ensures IsEdge(g, f) && ProgressOk(g, start, comp, change', f, busy'[f])
    {
      if f != e {
        RaisedIsOk(g, start, comp, change, change', f, busy[f]);
      }
    }
  }

  /** Raising the flag asks less of an iteration. */
  lemma RaisedIsOk(g: Graph, start: seq<nat>, comp: seq<nat>, change: bool, change': bool, e: Edge, p: Progress)
    requires WellFormed(g) && |start| == g.n && |comp| == g.n && IsEdge(g, e)
    requires ProgressOk(g, start, comp, change, e, p) && (change ==> change')
    ensures ProgressOk(g, start, comp, change', e, p)
  {
    hide Connected, UnitArcs, WellFormed, IsEdge;
  }

  lemma QuietMoves(g: Graph, start: seq<nat>, todo: set<Edge>, busy: map<Edge, Progress>, change: bool,
      todo': set<Edge>, busy': map<Edge, Progress>, change': bool, e: Edge)
    requires WellFormed(g) && |start| == g.n && QuietOk(g, start, todo, busy, change)
    requires SameOthers(todo, busy, todo', busy', e) && (change ==> change')
    requires IsEdge(g, e) && (e !in busy' && !change' ==> Settled(start, e.u, g.outE[e.i]))
    ensures QuietOk(g, start, todo', busy', change')
  {
    hide Settled;
  }

  lemma EdgesMove(g: Graph, todo: set<Edge>, busy: map<Edge, Progress>, todo': set<Edge>, busy': map<Edge, Progress>,
      e: Edge)
    requires WellFormed(g) && EdgesOk(g, todo, busy) && SameOthers(todo, busy, todo', busy', e)
    ensures EdgesOk(g, todo', busy')
  {
    hide IsEdge, WellFormed;
  }

  lemma RootsMove(start: seq<nat>, comp: seq<nat>, busy: map<Edge, Progress>, change: bool, busy': map<Edge, Progress>,
      change': bool)
    requires RootsOk(start, comp, busy, change) && (change ==> change')
    requires change' ==> change || SomeoneHooks(busy')
    requires SomeoneHooks(busy) ==> SomeoneHooks(busy')
    ensures RootsOk(start, comp, busy', change')
  {
    hide Roots, SomeoneHooks;
  }

  /** An iteration goes on without a store. */
  lemma IterationMoves(g: Graph, start: seq<nat>, comp: seq<nat>, todo: set<Edge>, busy: map<Edge, Progress>,
      change: bool,
      todo': set<Edge>, busy': map<Edge, Progress>, change': bool, e: Edge)
    requires WellFormed(g) && HookInvariant(g, start, comp, todo, busy, change) && |start| == g.n && |comp| == g.n
    requires SameOthers(todo, busy, todo', busy', e) && (change ==> change')
    requires IsEdge(g, e) && (e in busy' ==> ProgressOk(g, start, comp, change', e, busy'[e]))
    requires e !in busy' && !change' ==> Settled(start, e.u, g.outE[e.i])
    requires change' ==> change || SomeoneHooks(busy')
    requires SomeoneHooks(busy) ==> SomeoneHooks(busy')
    ensures HookInvariant(g, start, comp, todo', busy', change')
  {
    hide BusyOk, QuietOk, EdgesOk, RootsOk, SameOthers, WellFormed, IsEdge, ProgressOk, Settled, SomeoneHooks, Sound;
    BusyMoves(g, start, comp, todo, busy, change, todo', busy', change', e);
    QuietMoves(g, start, todo, busy, change, todo', busy', change', e);
    EdgesMove(g, todo, busy, todo', busy', e);
    RootsMove(start, comp, busy, change, busy', change');
  }

  lemma HooksStay(busy: map<Edge, Progress>, busy': map<Edge, Progress>, e: Edge)
    requires (forall f :: f != e && f in busy ==> f in busy' && busy'[f] == busy[f])
    requires e in busy && busy[e].Hooking? ==> e in busy' && busy'[e].Hooking?
    ensures SomeoneHooks(busy) ==> SomeoneHooks(busy')
  {
    if f :| f in busy && busy[f].Hooking? {
      assert f in busy' && busy'[f].Hooking?;
    }
  }

  lemma ReplaceKeeps(g: Graph, start: seq<nat>, comp: seq<nat>, todo: set<Edge>, busy: map<Edge, Progress>,
      change: bool, e: Edge, p: Progress)
    requires WellFormed(g) && HookInvariant(g, start, comp, todo, busy, change) && |start| == g.n && |comp| == g.n
    requires e in todo || (e in busy && !busy[e].Hooking?)
    requires todo !! busy.Keys
    requires IsEdge(g, e) && ProgressOk(g, start, comp, change, e, p)
    ensures HookInvariant(g, start, comp, todo - {e}, busy[e := p], change)
  {
    hide HookInvariant, WellFormed, IsEdge, ProgressOk, SomeoneHooks;
    HooksStay(busy, busy[e := p], e);
    IterationMoves(g, start, comp, todo, busy, change, todo - {e}, busy[e := p], change, e);
  }

  lemma DropKeeps(g: Graph, start: seq<nat>, comp: seq<nat>, todo: set<Edge>, busy: map<Edge, Progress>, change: bool,
      e: Edge)
    requires WellFormed(g) && HookInvariant(g, start, comp, todo, busy, change) && |start| == g.n && |comp| == g.n
    requires e in busy && !busy[e].Hooking? && e !in todo
    requires IsEdge(g, e) && (!change ==> Settled(start, e.u, g.outE[e.i]))
    ensures HookInvariant(g, start, comp, todo, busy - {e}, change)
  {
    hide HookInvariant, WellFormed, IsEdge, ProgressOk, SomeoneHooks, Settled;
    HooksStay(busy, busy - {e}, e);
    IterationMoves(g, start, comp, todo, busy, change, todo, busy - {e}, change, e);
  }

  lemma FlagKeeps(g: Graph, start: seq<nat>, comp: seq<nat>, todo: set<Edge>, busy: map<Edge, Progress>, change: bool,
      e: Edge, p: Progress)
    requires WellFormed(g) && HookInvariant(g, start, comp, todo, busy, change) && |start| == g.n && |comp| == g.n
    requires e in busy && e !in todo
    requires IsEdge(g, e) && ProgressOk(g, start, comp, true, e, p) && p.Hooking?
    ensures HookInvariant(g, start, comp, todo, busy[e := p], true)
  {
    var busy' := busy[e := p];
    assert e in busy' && busy'[e].Hooking?;
    assert SomeoneHooks(busy');
    hide HookInvariant, WellFormed, IsEdge, ProgressOk, SomeoneHooks, Settled;
    IterationMoves(g, start, comp, todo, busy, change, todo, busy', true, e);
  }

  lemma EdgeVertices(g: Graph, e: Edge)
    requires WellFormed(g) && IsEdge(g, e)
    ensures e.u < g.n && g.outE[e.i] < g.n
  {
  }

  /** Reading the first label. */
  lemma StartKeeps(g: Graph, start: seq<nat>, comp: seq<nat>, todo: set<Edge>, busy: map<Edge, Progress>, change: bool,
      e: Edge)
    requires WellFormed(g) && HookInvariant(g, start, comp, todo, busy, change) && e in todo
    ensures HookInvariant(g, start, comp, todo - {e}, busy[e := OneRead(comp[e.u])], change)
  {
    EdgeVertices(g, e);
    assert ProgressOk(g, start, comp, change, e, OneRead(comp[e.u]));
    assert |start| == g.n && |comp| == g.n && todo !! busy.Keys;
    hide *;
    ReplaceKeeps(g, start, comp, todo, busy, change, e, OneRead(comp[e.u]));
  }

  /** Reading the second label. */
  lemma SecondReadKeeps(g: Graph, start: seq<nat>, comp: seq<nat>, todo: set<Edge>, busy: map<Edge, Progress>,
      change: bool, e: Edge)
    requires WellFormed(g) && HookInvariant(g, start, comp, todo, busy, change) && e in busy && busy[e].OneRead?
    ensures HookInvariant(g, start, comp, todo, busy[e := BothRead(busy[e].compU, comp[g.outE[e.i]])], change)
  {
    EdgeVertices(g, e);
    var p := BothRead(busy[e].compU, comp[g.outE[e.i]]);
    assert ProgressOk(g, start, comp, change, e, busy[e]);
    assert ProgressOk(g, start, comp, change, e, p);
    assert |start| == g.n && |comp| == g.n && todo !! busy.Keys;
    assert todo - {e} == todo;
    hide *;
    ReplaceKeeps(g, start, comp, todo, busy, change, e, p);
  }

  /** The test of the hooking condition fails: nothing to do for this edge. */
  lemma NoHookKeeps(g: Graph, start: seq<nat>, comp: seq<nat>, todo: set<Edge>, busy: map<Edge, Progress>,
      change: bool, e: Edge)
    requires WellFormed(g) && HookInvariant(g, start, comp, todo, busy, change) && e in busy && busy[e].BothRead?
    requires var (a, b) := (busy[e].compU, busy[e].compV);
      Max(a, b) < |comp| && (a == b || comp[Max(a, b)] != Max(a, b))
    ensures HookInvariant(g, start, comp, todo, busy - {e}, change)
  {
    EdgeVertices(g, e);
    assert ProgressOk(g, start, comp, change, e, busy[e]);
    assert !change ==> Settled(start, e.u, g.outE[e.i]);
    assert |start| == g.n && |comp| == g.n && e !in todo;
    hide *;
    DropKeeps(g, start, comp, todo, busy, change, e);
  }

  /** The labels of the two ends of an edge are connected to each other. */
  lemma LabelsConnect(g: Graph, e: Edge, a: nat, b: nat)
    requires WellFormed(g) && IsEdge(g, e)
    requires Connected(UnitArcs(g), e.u, a) && Connected(UnitArcs(g), g.outE[e.i], b)
    ensures Connected(UnitArcs(g), a, b) && Connected(UnitArcs(g), b, a)
  {
    var arcs, u, v := UnitArcs(g), e.u, g.outE[e.i];
    EdgeIsArc(g, e);
    hide *;
    ArcConnects(arcs, Arc(u, v, 1));
    ConnectedTransitive(arcs, u, v, b);
    ConnectedSymmetric(arcs, u, a);
    ConnectedTransitive(arcs, a, u, b);
    ConnectedSymmetric(arcs, a, b);
  }

  /** The test succeeds: the larger label is a root now, and the iteration is going to hook it. */
  lemma HookFoundKeeps(g: Graph, start: seq<nat>, comp: seq<nat>, todo: set<Edge>, busy: map<Edge, Progress>,
      change: bool, e: Edge)
    requires WellFormed(g) && HookInvariant(g, start, comp, todo, busy, change) && e in busy && busy[e].BothRead?
    requires var (a, b) := (busy[e].compU, busy[e].compV); Max(a, b) < |comp| && a != b && comp[Max(a, b)] == Max(a, b)
    ensures var (a, b) := (busy[e].compU, busy[e].compV);
      HookInvariant(g, start, comp, todo, busy[e := Hooking(Max(a, b), Min(a, b))], true)
  {
    var (a, b) := (busy[e].compU, busy[e].compV);
    var p := Hooking(Max(a, b), Min(a, b));
    assert ProgressOk(g, start, comp, change, e, busy[e]);
    assert Max(a, b) in Roots(comp) && Max(a, b) in Roots(start);
    LabelsConnect(g, e, a, b);
    assert ProgressOk(g, start, comp, true, e, p);
    assert |start| == g.n && |comp| == g.n && e !in todo;
    hide *;
    FlagKeeps(g, start, comp, todo, busy, change, e, p);
  }

  /** The write. It may overwrite a hook of another iteration, but the vertex is no root afterwards. */
  lemma HookKeeps(g: Graph, start: seq<nat>, comp: seq<nat>, todo: set<Edge>, busy: map<Edge, Progress>, change: bool,
      e: Edge)
    requires WellFormed(g) && HookInvariant(g, start, comp, todo, busy, change) && e in busy && busy[e].Hooking?
    ensures change && busy[e].low < busy[e].high < |comp|
    ensures HookInvariant(g, start, comp[busy[e].high := busy[e].low], todo, busy - {e}, change)
  {
    var high, low := busy[e].high, busy[e].low;
    HookWrites(g, start, comp, todo, busy, change, e);
    assert |start| == g.n && |comp| == g.n && EdgesOk(g, todo, busy) && BusyOk(g, start, comp, busy, true);
    assert QuietOk(g, start, todo, busy, true) && RootsOk(start, comp, busy, true);
    hide Connected, UnitArcs, Sound, Settled, Roots, WellFormed, IsEdge, ProgressOk, BusyOk, QuietOk, EdgesOk, RootsOk,
      SameOthers;
    HookBusy(g, start, comp, busy, e, high, low);
    HookRoots(start, comp, comp[high := low], busy, busy - {e}, high);
    EdgesMove(g, todo, busy, todo, busy - {e}, e);
    QuietMoves(g, start, todo, busy, true, todo, busy - {e}, true, e);
  }

  lemma HookWrites(g: Graph, start: seq<nat>, comp: seq<nat>, todo: set<Edge>, busy: map<Edge, Progress>, change: bool,
      e: Edge)
    requires WellFormed(g) && HookInvariant(g, start, comp, todo, busy, change) && e in busy && busy[e].Hooking?
    ensures change && busy[e].low < busy[e].high < g.n && IsEdge(g, e) && busy[e].high in Roots(start)
    ensures Sound(g, comp[busy[e].high := busy[e].low])
    ensures Roots(comp[busy[e].high := busy[e].low]) <= Roots(comp) - {busy[e].high}
    ensures SameOthers(todo, busy, todo, busy - {e}, e)
  {
    assert ProgressOk(g, start, comp, change, e, busy[e]);
    assert IsEdge(g, e) && Sound(g, comp) && e !in todo;
    hide Sound, Roots, QuietOk, RootsOk, BusyOk, Connected, EdgesOk, WellFormed, UnitArcs, IsEdge, SameOthers;
    HookSound(g, comp, busy[e].high, busy[e].low);
    RootAt(start, busy[e].high);
    OneFinishes(todo, busy, e);
  }

  lemma OneFinishes(todo: set<Edge>, busy: map<Edge, Progress>, e: Edge)
    requires e !in todo
    ensures SameOthers(todo, busy, todo, busy - {e}, e)
  {
  }

  lemma RootAt(comp: seq<nat>, x: nat)
    requires x < |comp| && comp[x] == x
    ensures x in Roots(comp)
  {
  }

  /** A store takes a root away, so the iteration that made it need not be remembered. */
  lemma HookRoots(start: seq<nat>, comp: seq<nat>, comp': seq<nat>, busy: map<Edge, Progress>, busy': map<Edge,
      Progress>, high: nat)
    requires RootsOk(start, comp, busy, true)
    requires high in Roots(start) && Roots(comp') <= Roots(comp) - {high}
    ensures RootsOk(start, comp', busy', true)
  {
    hide Roots, SomeoneHooks;
    assert high !in Roots(comp');
  }

  /** A store does not disturb what the other iterations have read. */
  lemma HookBusy(g: Graph, start: seq<nat>, comp: seq<nat>, busy: map<Edge, Progress>, e: Edge, high: nat, low: nat)
    requires WellFormed(g) && |start| == g.n && |comp| == g.n && BusyOk(g, start, comp, busy, true) && high < g.n
    ensures BusyOk(g, start, comp[high := low], busy - {e}, true)
  {
    hide Connected, UnitArcs, WellFormed, IsEdge;
  }

  lemma HookSound(g: Graph, comp: seq<nat>, high: nat, low: nat)
    requires WellFormed(g) && Sound(g, comp) && low < high < g.n && Connected(UnitArcs(g), high, low)
    ensures Sound(g, comp[high := low]) && Roots(comp[high := low]) <= Roots(comp) - {high}
  {
  }

  /** The parallel loop over the vertices and their edges, as interleaved reads and writes. */
  method HookPass(g: Graph, comp: array<nat>) returns (change: bool)
    requires WellFormed(g) && comp.Length == g.n && Sound(g, comp[..])
    modifies comp
    ensures Sound(g, comp[..])
    ensures if change then Roots(comp[..]) < Roots(old(comp[..])) else comp[..] == old(comp[..])
    ensures !change ==> forall e :: IsEdge(g, e) ==> Settled(old(comp[..]), e.u, g.outE[e.i])
  {
    ghost var start := comp[..];
    change := false;
    var todo := EdgesBelow(g, g.n);
    var busy: map<Edge, Progress> := map[];
    HookStarts(g, start, todo);
    hide *;
    while todo != {} || busy != map[]
      invariant HookInvariant(g, start, comp[..], todo, busy, change)
      decreases 4 * |todo| + Remaining(busy, busy.Keys)
    {
      if
      case todo != {} =>
        var e: Edge :| e in todo;
        HookIndices(g, start, comp[..], todo, busy, change, e);
        StartKeeps(g, start, comp[..], todo, busy, change, e);
        RemainingAdd(busy, e, OneRead(comp[e.u]));
        todo, busy := todo - {e}, busy[e := OneRead(comp[e.u])];
      case busy != map[] =>
        var e: Edge :| e in busy;
        busy, change := HookStep(g, comp, start, todo, busy, change, e);
    }
    HookEnds(g, start, comp[..], change);
  }

  lemma HookStarts(g: Graph, start: seq<nat>, todo: set<Edge>)
    requires WellFormed(g) && |start| == g.n && Sound(g, start) && todo == EdgesBelow(g, g.n)
    ensures HookInvariant(g, start, start, todo, map[], false)
  {
    forall e: Edge ensures e in todo <==> IsEdge(g, e) { EdgesBelowAre(g, g.n, e); }
    hide Sound, WellFormed, IsEdge, EdgesBelow;
  }

  lemma HookEnds(g: Graph, start: seq<nat>, comp: seq<nat>, change: bool)
    requires WellFormed(g) && HookInvariant(g, start, comp, {}, map[], change)
    ensures |start| == g.n && Sound(g, comp)
    ensures if change then Roots(comp) < Roots(start) else comp == start
    ensures !change ==> forall e :: IsEdge(g, e) ==> Settled(start, e.u, g.outE[e.i])
  {
    hide Sound, WellFormed, Roots, IsEdge, Settled;
  }

  /** The next read or write of one iteration. */
  method HookStep(g: Graph, comp: array<nat>, ghost start: seq<nat>, ghost todo: set<Edge>, busy: map<Edge, Progress>,
      change: bool, e: Edge)
    returns (busy': map<Edge, Progress>, change': bool)
    requires WellFormed(g) && HookInvariant(g, start, comp[..], todo, busy, change) && e in busy
    modifies comp
    ensures HookInvariant(g, start, comp[..], todo, busy', change')
    ensures Remaining(busy', busy'.Keys) < Remaining(busy, busy.Keys)
  {
    HookIndices(g, start, comp[..], todo, busy, change, e);
    busy', change' := busy, change;
    ghost var before := comp[..];
    hide *;
    match busy[e] {
      case OneRead(compU) =>
        SecondReadKeeps(g, start, before, todo, busy, change, e);
        busy' := busy[e := BothRead(compU, comp[g.outE[e.i]])];
        RemainingReplace(busy, e, BothRead(compU, comp[g.outE[e.i]]));
      case BothRead(compU, compV) =>
        var high, low := Max(compU, compV), Min(compU, compV);
        if compU != compV && high == comp[high] {
          HookFoundKeeps(g, start, before, todo, busy, change, e);
          change' := true;
          busy' := busy[e := Hooking(high, low)];
          RemainingReplace(busy, e, Hooking(high, low));
        } else {
          NoHookKeeps(g, start, before, todo, busy, change, e);
          busy' := busy - {e};
          RemainingDrop(busy, e);
        }
      case Hooking(high, low) =>
        HookKeeps(g, start, before, todo, busy, change, e);
        comp[high] := low;
        assert comp[..] == before[high := low];
        busy' := busy - {e};
        RemainingDrop(busy, e);
    }
  }

  lemma HookIndices(g: Graph, start: seq<nat>, comp: seq<nat>, todo: set<Edge>, busy: map<Edge, Progress>,
      change: bool, e: Edge)
    requires WellFormed(g) && HookInvariant(g, start, comp, todo, busy, change) && (e in todo || e in busy)
    ensures |comp| == g.n && e.u < g.n && e.i < |g.outE| && g.outE[e.i] < g.n && !(e in todo && e in busy)
    ensures e in busy && busy[e].BothRead? ==> Max(busy[e].compU, busy[e].compV) < g.n
    ensures e in busy && busy[e].Hooking? ==> busy[e].low < busy[e].high < g.n
  {
    if e in busy {
      assert ProgressOk(g, start, comp, change, e, busy[e]);
    }
  }

  // ----- the iterations end

  function StepsLeft(p: Progress): nat
  {
    match p case OneRead(_) => 3 case BothRead(_, _) => 2 case Hooking(_, _) => 1
  }

  /** The steps that the started iterations `es` still have to take. */
  ghost function Remaining(busy: map<Edge, Progress>, es: set<Edge>): nat
    requires es <= busy.Keys
  {
    if es == {} then 0 else var e :| e in es; StepsLeft(busy[e]) + Remaining(busy, es - {e})
  }

  /** The sum does not depend on the order in which it is taken. */
  lemma {:induction false} RemainingTake(busy: map<Edge, Progress>, es: set<Edge>, e: Edge)
    requires es <= busy.Keys && e in es
    ensures Remaining(busy, es) == StepsLeft(busy[e]) + Remaining(busy, es - {e})
    decreases |es|
  {
    var f :| f in es && Remaining(busy, es) == StepsLeft(busy[f]) + Remaining(busy, es - {f});
    if f != e {
      RemainingTake(busy, es - {f}, e);
      RemainingTake(busy, es - {e}, f);
      assert es - {f} - {e} == es - {e} - {f};
    }
  }

  lemma {:induction false} RemainingSame(a: map<Edge, Progress>, b: map<Edge, Progress>, es: set<Edge>)
    requires es <= a.Keys && es <= b.Keys && forall e :: e in es ==> a[e] == b[e]
    ensures Remaining(a, es) == Remaining(b, es)
    decreases |es|
  {
    if es != {} {
      var e :| e in es;
      RemainingTake(a, es, e);
      RemainingTake(b, es, e);
      RemainingSame(a, b, es - {e});
    }
  }

  lemma RemainingAdd(busy: map<Edge, Progress>, e: Edge, p: Progress)
    requires e !in busy
    ensures Remaining(busy[e := p], busy[e := p].Keys) == StepsLeft(p) + Remaining(busy, busy.Keys)
  {
    var busy' := busy[e := p];
    RemainingTake(busy', busy'.Keys, e);
    assert busy'.Keys - {e} == busy.Keys;
    RemainingSame(busy, busy', busy.Keys);
  }

  lemma RemainingDrop(busy: map<Edge, Progress>, e: Edge)
    requires e in busy
    ensures Remaining(busy - {e}, (busy - {e}).Keys) < Remaining(busy, busy.Keys)
  {
    RemainingTake(busy, busy.Keys, e);
    assert (busy - {e}).Keys == busy.Keys - {e};
    RemainingSame(busy, busy - {e}, busy.Keys - {e});
  }

  lemma RemainingReplace(busy: map<Edge, Progress>, e: Edge, p: Progress)
    requires e in busy && ((p.BothRead? && busy[e].OneRead?) || (p.Hooking? && busy[e].BothRead?))
    ensures Remaining(busy[e := p], busy[e := p].Keys) < Remaining(busy, busy.Keys)
  {
    var busy' := busy[e := p];
    RemainingTake(busy, busy.Keys, e);
    RemainingTake(busy', busy'.Keys, e);
    assert busy'.Keys == busy.Keys;
    RemainingSame(busy, busy', busy.Keys - {e});
  }

  // ----- the compress pass

  /** Where the iteration for `n` is; `writing[n]` is the label that it has read and is about to store. */
  ghost predicate VertexOk(g: Graph, comp: seq<nat>, active: set<nat>, jumping: set<nat>, writing: map<nat, nat>,
      n: nat)
    requires WellFormed(g) && Sound(g, comp) && n < g.n
  {
    if n in active then true
    else if n in jumping then comp[comp[n]] < comp[n] < n
    else if n in writing then writing[n] < comp[n] < n && Connected(UnitArcs(g), n, writing[n])
    else comp[comp[n]] == comp[n]
  }

  ghost predicate CompressInvariant(g: Graph, start: seq<nat>, comp: seq<nat>, active: set<nat>, jumping: set<nat>,
      writing: map<nat, nat>)
    requires WellFormed(g)
  {
    && |start| == g.n && Sound(g, comp) && Roots(comp) == Roots(start)
    && (forall n :: n in active || n in jumping || n in writing ==> n < g.n)
    && active !! jumping && active !! writing.Keys && jumping !! writing.Keys
    && (forall n: nat :: n < g.n ==> VertexOk(g, comp, active, jumping, writing, n))
    && (Stars(start) ==> comp == start && jumping == {} && writing == map[])
  }

  lemma CompressBegins(g: Graph, start: seq<nat>)
    requires WellFormed(g) && Sound(g, start)
    ensures CompressInvariant(g, start, start, UpTo(g.n), {}, map[])
  {
    hide Connected, UnitArcs, Roots, Stars;
  }

  lemma CompressIndices(g: Graph, start: seq<nat>, comp: seq<nat>, active: set<nat>, jumping: set<nat>,
      writing: map<nat, nat>, n: nat)
    requires WellFormed(g) && CompressInvariant(g, start, comp, active, jumping, writing)
    requires n in active || n in jumping || n in writing
    ensures |comp| == g.n && n < g.n && comp[n] < g.n && Sound(g, comp)
    ensures VertexOk(g, comp, active, jumping, writing, n)
    ensures n in jumping ==> n !in writing
  {
  }

  lemma CheckKeeps(g: Graph, start: seq<nat>, comp: seq<nat>, active: set<nat>, jumping: set<nat>, writing: map<nat,
      nat>, n: nat)
    requires WellFormed(g) && CompressInvariant(g, start, comp, active, jumping, writing) && n in active && n < |comp|
    requires comp[n] < |comp|
    ensures CompressInvariant(g, start, comp, active - {n}, if comp[n] != comp[comp[n]]
      then jumping + {n} else jumping, writing)
  {
    var jumping' := if comp[n] != comp[comp[n]] then jumping + {n} else jumping;
    assert Stars(start) ==> comp[n] == comp[comp[n]];
    forall m: nat | m < g.n
      ensures VertexOk(g, comp, active - {n}, jumping', writing, m)
    {
      assert VertexOk(g, comp, active, jumping, writing, m);
    }
    hide Connected, UnitArcs, Roots, WellFormed, Sound, VertexOk, Stars;
  }

  lemma JumpKeeps(g: Graph, start: seq<nat>, comp: seq<nat>, active: set<nat>, jumping: set<nat>, writing: map<nat,
      nat>, n: nat)
    requires WellFormed(g) && CompressInvariant(g, start, comp, active, jumping, writing) && n in jumping && n < |comp|
    requires comp[n] < |comp|
    ensures CompressInvariant(g, start, comp, active, jumping - {n}, writing[n := comp[comp[n]]])
  {
    var arcs := UnitArcs(g);
    assert VertexOk(g, comp, active, jumping, writing, n);
    assert Connected(arcs, n, comp[n]) && Connected(arcs, comp[n], comp[comp[n]]);
    ConnectedTransitive(arcs, n, comp[n], comp[comp[n]]);
    var jumping', writing' := jumping - {n}, writing[n := comp[comp[n]]];
    hide Connected, UnitArcs, Roots, WellFormed, Stars;
    forall m: nat | m < g.n
      ensures VertexOk(g, comp, active, jumping', writing', m)
    {
      assert VertexOk(g, comp, active, jumping, writing, m);
    }
    hide Sound, VertexOk;
  }

  /** Storing a label that was read earlier: roots stay roots, and the label shrinks. */
  lemma StoreKeeps(g: Graph, start: seq<nat>, comp: seq<nat>, active: set<nat>, jumping: set<nat>, writing: map<nat,
      nat>, n: nat)
    requires WellFormed(g) && CompressInvariant(g, start, comp, active, jumping, writing) && n in writing && n < |comp|
    ensures writing[n] < comp[n]
    ensures CompressInvariant(g, start, comp[n := writing[n]], active + {n}, jumping, writing - {n})
  {
    assert VertexOk(g, comp, active, jumping, writing, n);
    var comp' := comp[n := writing[n]];
    StoreSound(g, comp, n, writing[n]);
    hide Connected, UnitArcs, Roots, WellFormed, Stars;
    assert n !in active && n !in jumping;
    hide VertexOk;
    forall m: nat | m < g.n
      ensures VertexOk(g, comp', active + {n}, jumping, writing - {n}, m)
    {
      assert VertexOk(g, comp, active, jumping, writing, m);
      StoreVertex(g, comp, active, jumping, writing, n, m);
    }
    hide Sound;
  }

  /** What the store does to the iteration for `m`: labels only shrink, and a label that `m` reads stays a non-root. */
  lemma StoreVertex(g: Graph, comp: seq<nat>, active: set<nat>, jumping: set<nat>, writing: map<nat, nat>, n: nat,
      m: nat)
    requires WellFormed(g) && Sound(g, comp) && n < g.n && m < g.n && n !in active && n !in jumping && n in writing
    requires VertexOk(g, comp, active, jumping, writing, n) && VertexOk(g, comp, active, jumping, writing, m)
    ensures writing[n] < comp[n] && Sound(g, comp[n := writing[n]])
    ensures VertexOk(g, comp[n := writing[n]], active + {n}, jumping, writing - {n}, m)
  {
    StoreSound(g, comp, n, writing[n]);
    hide Connected, UnitArcs, Roots, WellFormed;
  }

  lemma StoreSound(g: Graph, comp: seq<nat>, n: nat, x: nat)
    requires WellFormed(g) && Sound(g, comp) && n < g.n && x < comp[n] < n && Connected(UnitArcs(g), n, x)
    ensures Sound(g, comp[n := x]) && Roots(comp[n := x]) == Roots(comp)
  {
  }

  function Total(s: seq<nat>): nat
  {
    if s == [] then 0 else Total(s[..|s| - 1]) + s[|s| - 1]
  }

  lemma {:induction false} TotalShrinks(s: seq<nat>, k: nat, x: nat)
    requires k < |s| && x < s[k]
    ensures Total(s[k := x]) < Total(s)
  {
    var last := |s| - 1;
    if k == last {
      assert s[k := x][..last] == s[..last];
    } else {
      assert s[k := x][..last] == s[..last][k := x];
      TotalShrinks(s[..last], k, x);
    }
  }

  /** The parallel pointer jumping: guards, reads and writes of all vertices, interleaved. */
  method CompressPass(g: Graph, comp: array<nat>)
    requires WellFormed(g) && comp.Length == g.n && Sound(g, comp[..])
    modifies comp
    ensures Sound(g, comp[..]) && Stars(comp[..]) && Roots(comp[..]) == Roots(old(comp[..]))
    ensures Stars(old(comp[..])) ==> comp[..] == old(comp[..])
  {
    ghost var start := comp[..];
    var active, jumping := UpTo(g.n), {};
    var writing: map<nat, nat> := map[];
    CompressBegins(g, start);
    hide *;
    while active != {} || jumping != {} || writing != map[]
      invariant CompressInvariant(g, start, comp[..], active, jumping, writing)
      decreases Total(comp[..]), 3 * |active| + 2 * |jumping| + |writing|
    {
      if
      case active != {} =>
        var n: nat :| n in active;
        CompressIndices(g, start, comp[..], active, jumping, writing, n);
        CheckKeeps(g, start, comp[..], active, jumping, writing, n);
        active := active - {n};
        if comp[n] != comp[comp[n]] {
          jumping := jumping + {n};
        }
      case jumping != {} =>
        var n: nat :| n in jumping;
        CompressIndices(g, start, comp[..], active, jumping, writing, n);
        JumpKeeps(g, start, comp[..], active, jumping, writing, n);
        jumping, writing := jumping - {n}, writing[n := comp[comp[n]]];
      case writing != map[] =>
        var n: nat :| n in writing;
        Store(g, comp, start, active, jumping, writing, n);
        active, writing := active + {n}, writing - {n};
    }
    Compressed(g, start, comp[..]);
  }

  method Store(g: Graph, comp: array<nat>, ghost start: seq<nat>, ghost active: set<nat>, ghost jumping: set<nat>,
      writing: map<nat, nat>, n: nat)
    requires WellFormed(g) && CompressInvariant(g, start, comp[..], active, jumping, writing) && n in writing
    modifies comp
    ensures CompressInvariant(g, start, comp[..], active + {n}, jumping, writing - {n})
    ensures Total(comp[..]) < Total(old(comp[..]))
  {
    ghost var before := comp[..];
    CompressIndices(g, start, before, active, jumping, writing, n);
    StoreKeeps(g, start, before, active, jumping, writing, n);
    hide *;
    TotalShrinks(before, n, writing[n]);
    comp[n] := writing[n];
    assert comp[..] == before[n := writing[n]];
  }

  lemma Compressed(g: Graph, start: seq<nat>, comp: seq<nat>)
    requires WellFormed(g) && CompressInvariant(g, start, comp, {}, {}, map[])
    ensures Sound(g, comp) && Stars(comp) && Roots(comp) == Roots(start) && (Stars(start) ==> comp == start)
  {
    forall n: nat | n < g.n ensures comp[comp[n]] == comp[n] { assert VertexOk(g, comp, {}, {}, map[], n); }
  }

  // ----- the whole kernel

  /** A pass without a change over labels that are all roots means the labels agree along every edge. */
  lemma QuietPassAgrees(g: Graph, comp: seq<nat>)
    requires WellFormed(g) && Sound(g, comp) && Stars(comp)
    requires forall e :: IsEdge(g, e) ==> Settled(comp, e.u, g.outE[e.i])
    ensures EqualAlongEdges(g, comp)
  {
  }

  lemma RootsBounded(g: Graph, a: seq<nat>, b: seq<nat>)
    requires Roots(a) < Roots(b)
    ensures |Roots(a)| < |Roots(b)|
  {
    SubsetSize(Roots(a), Roots(b));
  }

  /**
   CSR::do_wcc. For every graph and every interleaving of the racy reads and writes, the kernel
   terminates and labels each vertex with the least vertex of its weak component.
   */
  method Wcc(g: Graph) returns (comp: array<nat>)
    requires WellFormed(g)
    ensures fresh(comp) && Components(g, comp[..])
  {
    comp := InitComponents(g);
    var change := true;
    hide *;
    while change
      invariant fresh(comp) && comp.Length == g.n && Sound(g, comp[..]) && Stars(comp[..])
      invariant !change ==> EqualAlongEdges(g, comp[..])
      decreases change, |Roots(comp[..])|
    {
      ghost var before := comp[..];
      change := HookPass(g, comp);
      ghost var hooked := comp[..];
      CompressPass(g, comp);
      if change {
        RootsBounded(g, hooked, before);
      } else {
        QuietPassAgrees(g, before);
      }
    }
    AgreementIsLeast(g, comp[..]);
  }

  method InitComponents(g: Graph) returns (comp: array<nat>)
    requires WellFormed(g)
    ensures fresh(comp) && comp.Length == g.n && Sound(g, comp[..]) && Stars(comp[..])
  {
    comp := new nat[g.n];
    var todo := UpTo(g.n);
    while todo != {}
      invariant forall n :: n in todo ==> n < g.n
      invariant forall n: nat :: n < g.n && n !in todo ==> comp[n] == n
    {
      var n: nat :| n in todo;
      todo := todo - {n};
      comp[n] := n;
    }
    forall x: nat | x < g.n ensures Connected(UnitArcs(g), x, x) { ConnectedSelf(UnitArcs(g), x); }
  }
}
