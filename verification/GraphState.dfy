/**
 The abstract mutable graph: a set of vertices and a map from ordered pairs to weights.
 An undirected edge is present in both directions with the same weight.
 */
module GraphState {

  datatype State = State(vertices: set<nat>, edges: map<(nat, nat), int>)

  // An operation of the update interface.
  datatype Op =
    | NewVertex(v: nat)
    | Put(src: nat, dst: nat, weight: int)
    | Drop(src: nat, dst: nat)

  function PutEdge(directed: bool, edges: map<(nat, nat), int>, src: nat, dst: nat, weight: int): map<(nat, nat), int>
  {
    if directed then edges[(src, dst) := weight] else edges[(src, dst) := weight][(dst, src) := weight]
  }

  function DropEdge(directed: bool, edges: map<(nat, nat), int>, src: nat, dst: nat): map<(nat, nat), int>
  {
    edges - if directed then {(src, dst)} else {(src, dst), (dst, src)}
  }

  /** What each call does to the abstract graph. An edge insertion creates its endpoints (`add_edge_v2`). */
  function Apply(directed: bool, s: State, op: Op): State
  {
    match op
    case NewVertex(v) => s.(vertices := s.vertices + {v})
    case Put(src, dst, w) => if src == dst
      then s else State(s.vertices + {src, dst}, PutEdge(directed, s.edges, src, dst, w))
    case Drop(src, dst) => s.(edges := DropEdge(directed, s.edges, src, dst))
  }

  function Replay(directed: bool, s: State, ops: seq<Op>): State
    decreases |ops|
  {
    if ops == [] then s else Apply(directed, Replay(directed, s, ops[..|ops| - 1]), ops[|ops| - 1])
  }

  /** Endpoints are vertices, there are no self loops, and undirected edges are symmetric. */
  ghost predicate Consistent(directed: bool, s: State)
  {
    && (forall p :: p in s.edges ==> p.0 in s.vertices && p.1 in s.vertices && p.0 != p.1)
    && (!directed ==> forall a, b :: (a, b) in s.edges ==> (b, a) in s.edges && s.edges[(b, a)] == s.edges[(a, b)])
  }

  lemma ApplyKeepsConsistent(directed: bool, s: State, op: Op)
    requires Consistent(directed, s)
    ensures Consistent(directed, Apply(directed, s, op))
  {
  }

  /** An undirected insertion or removal does not depend on the order of the endpoints. */
  lemma SwapIsInvisible(s: State, a: nat, b: nat, w: int)
    ensures Apply(false, s, Put(a, b, w)) == Apply(false, s, Put(b, a, w))
    ensures Apply(false, s, Drop(a, b)) == Apply(false, s, Drop(b, a))
  {
    if a != b {
      assert PutEdge(false, s.edges, a, b, w) == PutEdge(false, s.edges, b, a, w);
      assert s.vertices + {a, b} == s.vertices + {b, a};
    }
    assert {(a, b), (b, a)} == {(b, a), (a, b)};
  }

  // ----- what a run leaves

  /** The call makes `v` a vertex. */
  predicate Creates(op: Op, v: nat)
  {
    op == NewVertex(v) || (op.Put? && op.src != op.dst && (v == op.src || v == op.dst))
  }

  /** The vertices after a run are the old ones and those that some call creates. */
  lemma {:induction false} VerticesOfRun(directed: bool, s: State, ops: seq<Op>, v: nat)
    ensures v in Replay(directed, s, ops).vertices <==>
      v in s.vertices || exists k :: 0 <= k < |ops| && Creates(ops[k], v)
    decreases |ops|
  {
    if ops != [] {
      var last := |ops| - 1;
      VerticesOfRun(directed, s, ops[..last], v);
      if k :| 0 <= k < |ops| && Creates(ops[k], v) {
        assert k < last ==> ops[..last][k] == ops[k];
      }
    }
  }

  /** The call inserts, updates or removes the edge from `a` to `b`. */
  predicate Writes(directed: bool, op: Op, a: nat, b: nat)
  {
    match op
    case NewVertex(_) => false
    case Put(src, dst, _) => src != dst && ((a, b) == (src, dst) || (!directed && (b, a) == (src, dst)))
    case Drop(src, dst) => (a, b) == (src, dst) || (!directed && (b, a) == (src, dst))
  }

  lemma {:induction false} UnwrittenEdge(directed: bool, s: State, ops: seq<Op>, a: nat, b: nat)
    requires forall k :: 0 <= k < |ops| ==> !Writes(directed, ops[k], a, b)
    ensures (a, b) in Replay(directed, s, ops).edges <==> (a, b) in s.edges
    ensures (a, b) in s.edges ==> Replay(directed, s, ops).edges[(a, b)] == s.edges[(a, b)]
    decreases |ops|
  {
    if ops != [] {
      UnwrittenEdge(directed, s, ops[..|ops| - 1], a, b);
    }
  }

  /** The last call about an edge decides whether it is there, and with which weight. */
  lemma {:induction false} LastWriteDecides(directed: bool, s: State, ops: seq<Op>, a: nat, b: nat, k: nat)
    requires k < |ops| && Writes(directed, ops[k], a, b)
    requires forall j :: k < j < |ops| ==> !Writes(directed, ops[j], a, b)
    ensures (a, b) in Replay(directed, s, ops).edges <==> ops[k].Put?
    ensures ops[k].Put? ==> Replay(directed, s, ops).edges[(a, b)] == ops[k].weight
    decreases |ops|
  {
    var last := |ops| - 1;
    if k < last {
      LastWriteDecides(directed, s, ops[..last], a, b, k);
    }
  }
}
