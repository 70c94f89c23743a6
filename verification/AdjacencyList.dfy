/**
 The baseline graph store (library/baseline/adjacency_list.cpp). Each public
 operation holds the latch of the store, so it is one method here.
 */
module AdjacencyLists {
  import opened GraphState
  import opened EdgeLists

  // What a call of the interface answers: a flag, or an INVALID_ARGUMENT exception.
  datatype Answer = Done(ok: bool) | InvalidArgument

  datatype Lookup = NotANumber | Weight(value: int)

  ghost predicate Isolated(nodes: NodeList, v: nat)
  {
    v in nodes && nodes[v].out == [] && nodes[v].inc == []
  }

  class AdjacencyList {
    const directed: bool
    var nodes: NodeList
    var numEdges: nat
    ghost var contents: State

    ghost predicate Valid()
      reads this
    {
      Represents(directed, nodes, numEdges, contents)
    }

    constructor (directed: bool)
      ensures Valid() && this.directed == directed && contents == State({}, map[])
    {
      this.directed := directed;
      nodes, numEdges, contents := map[], 0, State({}, map[]);
    }

    method GetWeight(source: nat, destination: nat) returns (r: Lookup)
      requires Valid()
      ensures r == if (source, destination) in contents.edges
        then Weight(contents.edges[(source, destination)]) else NotANumber
    {
      if source !in nodes {
        EndpointsExist(directed, nodes, numEdges, contents, source, destination);
        return NotANumber;
      }
      var list := nodes[source].out;
      var i := FindIf(list, destination);
      StoredIff(nodes, contents.edges, source, destination, i);
      if i == |list| {
        return NotANumber;
      }
      assert HasEdge(nodes, source, destination, list[i].1);
      return Weight(list[i].1);
    }

    method AddVertex0(v: nat) returns (inserted: bool)
      requires Valid()
      modifies this
      ensures Valid() && inserted == (v !in old(contents.vertices))
      ensures contents == Apply(directed, old(contents), NewVertex(v))
      ensures contents.vertices == old(contents.vertices) + {v} && contents.edges == old(contents.edges)
      ensures v in nodes && nodes.Keys == old(nodes.Keys) + {v}
    {
      inserted := v !in nodes;
      if inserted {
        AddNodeRefines(directed, nodes, numEdges, contents, v);
        nodes := nodes[v := EdgePair([], [])];
      }
      contents := Apply(directed, contents, NewVertex(v));
      assert !inserted ==> contents.vertices == old(contents.vertices);
    }

    /** Update the two lists of an edge whose endpoints exist. */
    method AddEdge0(src: nat, dst: nat, w: int) returns (ok: bool)
      requires Valid() && src in nodes && dst in nodes && src != dst
      modifies this
      ensures Valid() && ok && nodes.Keys == old(nodes.Keys)
      ensures contents == Apply(directed, old(contents), Put(src, dst, w))
    {
      var listOut := nodes[src].out;
      var i := FindIf(listOut, dst);
      FirstExists(BackList(directed, nodes, dst), src);
      ghost var j: nat :| IsFirst(BackList(directed, nodes, dst), src, j);
      InsertRefines(directed, nodes, numEdges, contents, src, dst, w, i, j);
      assert contents.vertices == nodes.Keys;
      ghost var before := nodes;
      ghost var result := InsertEdge(directed, nodes, src, dst, w, i, j);
      hide Represents, PutEdge;
      if i == |listOut| {
        listOut := listOut + [(dst, w)];
        numEdges := numEdges + 1;
      } else {
        listOut := listOut[i := (dst, w)];
      }
      assert listOut == Upsert(before[src].out, dst, w, i);
      nodes := nodes[src := nodes[src].(out := listOut)];

      var listIn := if directed then nodes[dst].inc else nodes[dst].out;
      assert listIn == BackList(directed, before, dst);
      var k := FindIf(listIn, src);
      FirstIsUnique(listIn, src, j, k);
      if k == |listIn| {
        listIn := listIn + [(src, w)];
      } else {
        listIn := listIn[k := (src, w)];
      }
      assert listIn == Upsert(BackList(directed, before, dst), src, w, j);
      hide Upsert, BackList;
      nodes := nodes[dst := if directed then nodes[dst].(inc := listIn) else nodes[dst].(out := listIn)];
      assert nodes == result;
      contents := contents.(edges := PutEdge(directed, contents.edges, src, dst, w));
      assert contents.vertices == old(contents.vertices) + {src, dst};
      return true;
    }

    /** `add_edge`: both endpoints must already be there. */
    method AddEdge(src: nat, dst: nat, w: int) returns (r: Answer)
      requires Valid()
      modifies this
      ensures Valid()
      ensures r == if src == dst
        then InvalidArgument else Done(src in old(contents.vertices) && dst in old(contents.vertices))
      ensures contents == if r == Done(true) then Apply(directed, old(contents), Put(src, dst, w)) else old(contents)
    {
      if src == dst {
        return InvalidArgument;
      }
      if src !in nodes {
        return Done(false);
      }
      if dst !in nodes {
        return Done(false);
      }
      var ok := AddEdge0(src, dst, w);
      return Done(ok);
    }

    /** `add_edge_v2`: missing endpoints are created first. */
    method AddEdgeV2(src: nat, dst: nat, w: int) returns (r: Answer)
      requires Valid()
      modifies this
      ensures Valid()
      ensures r == if src == dst then InvalidArgument else Done(true)
      ensures contents == Apply(directed, old(contents), Put(src, dst, w))
    {
      if src == dst {
        return InvalidArgument;
      }
      ghost var before := contents;
      var _ := AddVertex0(src);
      var _ := AddVertex0(dst);
      assert contents.edges == before.edges;
      var ok := AddEdge0(src, dst, w);
      assert contents.vertices == before.vertices + {src, dst};
      return Done(ok);
    }

    method RemoveEdge(src: nat, dst: nat) returns (removed: bool)
      requires Valid()
      modifies this
      ensures Valid()
      ensures removed <==> (src, dst) in old(contents.edges)
      ensures contents == Apply(directed, old(contents), Drop(src, dst))
    {
      EndpointsExist(directed, nodes, numEdges, contents, src, dst);
      if src !in nodes || dst !in nodes {
        AbsentRemoval(directed, nodes, numEdges, contents, src, dst);
        return false;
      }
      var listOut := nodes[src].out;
      var i := FindIf(listOut, dst);
      StoredIff(nodes, contents.edges, src, dst, i);
      if i == |listOut| {
        AbsentRemoval(directed, nodes, numEdges, contents, src, dst);
        return false;
      }
      EraseBoth(src, dst, i);
      return true;
    }

    /** Erase the edge that was found at `i`, and its mirror image. */
    method EraseBoth(src: nat, dst: nat, i: nat)
      requires Valid() && src in nodes && dst in nodes && src != dst
      requires IsFirst(nodes[src].out, dst, i) && i < |nodes[src].out|
      modifies this
      ensures Valid()
      ensures contents == Apply(directed, old(contents), Drop(src, dst))
    {
      FirstExists(BackList(directed, nodes, dst), src);
      ghost var j: nat :| IsFirst(BackList(directed, nodes, dst), src, j);
      MirrorFound(directed, nodes, src, dst, i, j);
      RemoveRefines(directed, nodes, numEdges, contents, src, dst, i, j);
      ghost var before := nodes;
      ghost var result := RemoveEdgeAt(directed, nodes, src, dst, i, j);
      hide Represents, HasEdge, HasBackEdge, NoDuplicates, DropEdge;
      nodes := nodes[src := nodes[src].(out := Erase(nodes[src].out, i))];
      numEdges := numEdges - 1;

      var listIn := if directed then nodes[dst].inc else nodes[dst].out;
      assert listIn == BackList(directed, before, dst);
      var k := FindIf(listIn, src);
      FirstIsUnique(listIn, src, j, k);
      listIn := Erase(listIn, k);
      hide Erase, BackList;
      nodes := nodes[dst := if directed then nodes[dst].(inc := listIn) else nodes[dst].(out := listIn)];
      assert nodes == result;
      contents := contents.(edges := DropEdge(directed, contents.edges, src, dst));
    }

    /**
     `delete_vertex0` erases the back edges from local copies of the lists and leaves the counter
     alone, so all it changes is that the entry of the vertex goes away.
     */
    method RemoveVertex(v: nat) returns (removed: bool)
      requires Valid()
      modifies this
      ensures removed <==> v in old(nodes)
      ensures nodes == old(nodes) - {v} && numEdges == old(numEdges)
      ensures Isolated(old(nodes), v) || v !in old(nodes) ==>
        Valid() && contents == State(old(contents.vertices) - {v}, old(contents.edges))
    {
      if v !in nodes {
        assert contents == State(contents.vertices - {v}, contents.edges);
        return false;
      }
      DropFromCopies(v, nodes[v].out, directed);
      if directed {
        DropFromCopies(v, nodes[v].inc, false);
      }
      if Isolated(nodes, v) {
        DropNodeRefines(directed, nodes, numEdges, contents, v);
      }
      nodes := nodes - {v};
      contents := State(contents.vertices - {v}, contents.edges);
      return true;
    }

    /** The loop over the edges of a vertex that is being removed; it works on copies. */
    method DropFromCopies(v: nat, edges: EdgeList, back: bool)
    {
      for k := 0 to |edges| {
        var u := edges[k].0;
        if u in nodes {
          var copy := if back then nodes[u].inc else nodes[u].out;
          var i := FindIf(copy, v);
          if i < |copy| {
            copy := Erase(copy, i);
          }
        }
      }
    }

    /** Any run of updates refines the replay of the same updates on the abstract graph. */
    method Run(ops: seq<Op>)
      requires Valid()
      modifies this
      ensures Valid() && contents == Replay(directed, old(contents), ops)
    {
      for k := 0 to |ops|
        invariant Valid() && contents == Replay(directed, old(contents), ops[..k])
      {
        assert ops[..k + 1][..k] == ops[..k];
        match ops[k] {
          case NewVertex(v) => var _ := AddVertex0(v);
          case Put(src, dst, w) => var _ := AddEdgeV2(src, dst, w);
          case Drop(src, dst) => var _ := RemoveEdge(src, dst);
        }
      }
      assert ops[..|ops|] == ops;
    }
  }

  lemma FirstExists(list: EdgeList, key: nat)
    ensures exists i: nat :: IsFirst(list, key, i)
  {
    if list == [] || list[0].0 == key {
      assert IsFirst(list, key, 0);
    } else {
      FirstExists(list[1..], key);
      var i: nat :| IsFirst(list[1..], key, i);
      assert forall j :: 0 < j < |list| ==> list[j] == list[1..][j - 1];
      assert IsFirst(list, key, i + 1);
    }
  }

  lemma FirstIsUnique(list: EdgeList, key: nat, i: nat, j: nat)
    requires IsFirst(list, key, i) && IsFirst(list, key, j)
    ensures i == j
  {
  }

  lemma AddNodeRefines(directed: bool, nodes: NodeList, numEdges: nat, g: State, v: nat)
    requires Represents(directed, nodes, numEdges, g) && v !in nodes
    ensures Represents(directed, nodes[v := EdgePair([], [])], numEdges, g.(vertices := g.vertices + {v}))
  {
    var r := nodes[v := EdgePair([], [])];
    assert forall s: nat, d: nat, w: int :: HasEdge(r, s, d, w) <==> HasEdge(nodes, s, d, w);
    assert forall s: nat, d: nat, w: int :: HasBackEdge(directed, r, d, s, w) <==>
      HasBackEdge(directed, nodes, d, s, w);
  }

  lemma EndpointsExist(directed: bool, nodes: NodeList, numEdges: nat, g: State, src: nat, dst: nat)
    requires Represents(directed, nodes, numEdges, g)
    ensures (src, dst) in g.edges ==> src in nodes && dst in nodes
  {
    RepresentedIsConsistent(directed, nodes, numEdges, g);
  }

  /** Removing an edge that is not there changes nothing. */
  lemma AbsentRemoval(directed: bool, nodes: NodeList, numEdges: nat, g: State, src: nat, dst: nat)
    requires Represents(directed, nodes, numEdges, g) && (src, dst) !in g.edges
    ensures Apply(directed, g, Drop(src, dst)) == g
  {
    RepresentedIsConsistent(directed, nodes, numEdges, g);
    assert !directed ==> (dst, src) !in g.edges;
    assert DropEdge(directed, g.edges, src, dst) == g.edges;
  }

  lemma DropNodeRefines(directed: bool, nodes: NodeList, numEdges: nat, g: State, v: nat)
    requires Represents(directed, nodes, numEdges, g) && Isolated(nodes, v)
    ensures Represents(directed, nodes - {v}, numEdges, State(g.vertices - {v}, g.edges))
  {
    var r := nodes - {v};
    assert forall s: nat, d: nat, w: int :: HasEdge(r, s, d, w) <==> HasEdge(nodes, s, d, w);
    assert forall s: nat, d: nat, w: int :: HasBackEdge(directed, r, d, s, w) <==>
      HasBackEdge(directed, nodes, d, s, w);
  }

  /**
   Deleting a vertex leaves a well-formed store exactly when the vertex is absent or isolated;
   otherwise a neighbour keeps an edge to a vertex that no longer exists.
   */
  lemma DeleteVertexIsSoundIff(directed: bool, nodes: NodeList, numEdges: nat, g: State, v: nat)
    requires Represents(directed, nodes, numEdges, g)
    ensures (exists g' :: Represents(directed, nodes - {v}, numEdges, g')) <==> v !in nodes || Isolated(nodes, v)
  {
    var r := nodes - {v};
    if v !in nodes {
      assert r == nodes;
    } else if Isolated(nodes, v) {
      DropNodeRefines(directed, nodes, numEdges, g, v);
    } else {
      forall g' ensures !Represents(directed, r, numEdges, g') {
        DanglingEdge(directed, nodes, v);
      }
    }
  }

  lemma DanglingEdge(directed: bool, nodes: NodeList, v: nat)
    requires Shape(directed, nodes) && v in nodes && !Isolated(nodes, v)
    ensures !Shape(directed, nodes - {v})
  {
    var r := nodes - {v};
    if nodes[v].out != [] {
      var (u, w) := nodes[v].out[0];
      assert HasEdge(nodes, v, u, w);
      assert HasBackEdge(directed, nodes, u, v, w);
      assert !HasEdge(nodes, v, v, w);
      assert HasBackEdge(directed, r, u, v, w) && !HasEdge(r, v, u, w);
    } else {
      var (u, w) := nodes[v].inc[0];
      assert HasBackEdge(directed, nodes, v, u, w);
      assert HasEdge(nodes, u, v, w);
      assert !HasEdge(nodes, v, v, w);
      assert HasEdge(r, u, v, w) && !HasBackEdge(directed, r, v, u, w);
    }
  }

  function OneEdge(): NodeList
  {
    map[1 := EdgePair([(2, 7)], []), 2 := EdgePair([(1, 7)], [])]
  }

  lemma OneEdgeHas(s: nat, d: nat, w: int)
    ensures HasEdge(OneEdge(), s, d, w) <==> w == 7 && ((s == 1 && d == 2) || (s == 2 && d == 1))
    ensures HasBackEdge(false, OneEdge(), d, s, w) <==> w == 7 && ((s == 1 && d == 2) || (s == 2 && d == 1))
  {
    assert (2, 7) in [(2, 7)] && (1, 7) in [(1, 7)];
  }

  lemma OneEdgeIsRepresented()
    ensures Represents(false, OneEdge(), 1, State({1, 2}, map[(1, 2) := 7, (2, 1) := 7]))
  {
    forall s: nat, d: nat, w: int
      ensures HasEdge(OneEdge(), s, d, w) <==> w == 7 && ((s == 1 && d == 2) || (s == 2 && d == 1))
      ensures HasBackEdge(false, OneEdge(), d, s, w) <==> w == 7 && ((s == 1 && d == 2) || (s == 2 && d == 1))
    {
      OneEdgeHas(s, d, w);
    }
    hide HasEdge, HasBackEdge;
  }

  /** Deleting vertex 1 of the edge {1, 2} leaves an edge of 2 whose other end does not exist. */
  lemma EdgeOfDeletedVertex()
    ensures Represents(false, OneEdge(), 1, State({1, 2}, map[(1, 2) := 7, (2, 1) := 7]))
    ensures HasEdge(OneEdge() - {1}, 2, 1, 7) && 1 !in OneEdge() - {1} && !Shape(false, OneEdge() - {1})
  {
    OneEdgeIsRepresented();
    OneEdgeHas(2, 1, 7);
    DanglingEdge(false, OneEdge(), 1);
    hide Shape;
  }
}
