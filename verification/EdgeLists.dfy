/**
 The edge lists of the adjacency list, as values: search, insert-or-update, erase,
 and the abstract graph that a node list stands for.
 */
module EdgeLists {
  import opened GraphState

  type EdgeList = seq<(nat, int)>

  datatype EdgePair = EdgePair(out: EdgeList, inc: EdgeList)

  type NodeList = map<nat, EdgePair>

  // ----- one list

  ghost predicate Has(list: EdgeList, key: nat)
  {
    exists i :: 0 <= i < |list| && list[i].0 == key
  }

  ghost predicate HasWith(list: EdgeList, key: nat, weight: int)
  {
    (key, weight) in list
  }

  /** No neighbour appears twice. */
  ghost predicate NoDuplicates(list: EdgeList)
  {
    forall i, j :: 0 <= i < j < |list| ==> list[i].0 != list[j].0
  }

  /** The position of the first edge to `key`, or the length of the list. */
  ghost predicate IsFirst(list: EdgeList, key: nat, i: nat)
  {
    && i <= |list|
    && (forall j :: 0 <= j < i ==> list[j].0 != key)
    && (i < |list| ==> list[i].0 == key)
  }

  method FindIf(list: EdgeList, key: nat) returns (i: nat)
    ensures IsFirst(list, key, i)
  {
    i := 0;
    while i < |list| && list[i].0 != key
      invariant i <= |list|
      invariant forall j :: 0 <= j < i ==> list[j].0 != key
    {
      i := i + 1;
    }
  }

  /** The list after an edge to `key` was updated in place at `i`, or appended. */
  function Upsert(list: EdgeList, key: nat, weight: int, i: nat): EdgeList
    requires i <= |list|
  {
    if i < |list| then list[i := (key, weight)] else list + [(key, weight)]
  }

  function Erase(list: EdgeList, i: nat): EdgeList
    requires i < |list|
  {
    list[..i] + list[i + 1..]
  }

  lemma UpsertIs(list: EdgeList, key: nat, weight: int, i: nat)
    requires NoDuplicates(list) && IsFirst(list, key, i)
    ensures NoDuplicates(Upsert(list, key, weight, i))
    ensures forall k: nat, w: int :: HasWith(Upsert(list, key, weight, i), k, w) <==>
      if k == key then w == weight else HasWith(list, k, w)
    ensures i < |list| <==> Has(list, key)
  {
    var r := Upsert(list, key, weight, i);
    assert r[i] == (key, weight);
    forall k: nat, w: int
      ensures HasWith(r, k, w) <==> if k == key then w == weight else HasWith(list, k, w)
    {
      if HasWith(r, k, w) {
        var j :| 0 <= j < |r| && r[j] == (k, w);
      }
      if k != key && HasWith(list, k, w) {
        var j :| 0 <= j < |list| && list[j] == (k, w);
        assert r[j] == (k, w);
      }
    }
  }

  lemma EraseIs(list: EdgeList, key: nat, i: nat)
    requires NoDuplicates(list) && IsFirst(list, key, i) && i < |list|
    ensures NoDuplicates(Erase(list, i))
    ensures forall k: nat, w: int :: HasWith(Erase(list, i), k, w) <==> k != key && HasWith(list, k, w)
  {
    var r := Erase(list, i);
    forall k: nat, w: int
      ensures HasWith(r, k, w) <==> k != key && HasWith(list, k, w)
    {
      if HasWith(r, k, w) {
        var j :| 0 <= j < |r| && r[j] == (k, w);
        assert list[if j < i then j else j + 1] == (k, w);
      }
      if k != key && HasWith(list, k, w) {
        var j :| 0 <= j < |list| && list[j] == (k, w);
        assert r[if j < i then j else j - 1] == (k, w);
      }
    }
  }

  // ----- the whole node list

  /** There is an edge from `s` to `d` of weight `w`. */
  ghost predicate HasEdge(nodes: NodeList, s: nat, d: nat, w: int)
  {
    s in nodes && HasWith(nodes[s].out, d, w)
  }

  ghost predicate HasBackEdge(directed: bool, nodes: NodeList, d: nat, s: nat, w: int)
  {
    d in nodes && HasWith(if directed then nodes[d].inc else nodes[d].out, s, w)
  }

  /** `edges` is the edge map that the out-lists store. */
  ghost predicate Stores(nodes: NodeList, edges: map<(nat, nat), int>)
  {
    && (forall s: nat, d: nat, w: int :: HasEdge(nodes, s, d, w) ==> (s, d) in edges && edges[(s, d)] == w)
    && (forall s: nat, d: nat :: (s, d) in edges ==> HasEdge(nodes, s, d, edges[(s, d)]))
  }

  /** Every list is free of duplicates and every edge is mirrored with the same weight. */
  ghost predicate Shape(directed: bool, nodes: NodeList)
  {
    && (forall v :: v in nodes ==> NoDuplicates(nodes[v].out) && NoDuplicates(nodes[v].inc))
    && (!directed ==> forall v :: v in nodes ==> nodes[v].inc == [])
    && (forall s: nat, d: nat, w: int :: HasEdge(nodes, s, d, w) <==> HasBackEdge(directed, nodes, d, s, w))
    && (forall s: nat, w: int :: !HasEdge(nodes, s, s, w))
  }

  /** The node list represents the abstract graph. */
  ghost predicate Represents(directed: bool, nodes: NodeList, numEdges: nat, g: State)
  {
    && Shape(directed, nodes)
    && g.vertices == nodes.Keys
    && Stores(nodes, g.edges)
    && |g.edges| == if directed then numEdges else 2 * numEdges
  }

  lemma RepresentedIsConsistent(directed: bool, nodes: NodeList, numEdges: nat, g: State)
    requires Represents(directed, nodes, numEdges, g)
    ensures Consistent(directed, g)
  {
    forall p | p in g.edges
      ensures p.0 in g.vertices && p.1 in g.vertices && p.0 != p.1
    {
      var (a, b) := p;
      assert HasEdge(nodes, a, b, g.edges[(a, b)]);
      assert HasBackEdge(directed, nodes, b, a, g.edges[(a, b)]);
    }
    if !directed {
      forall a, b | (a, b) in g.edges
        ensures (b, a) in g.edges && g.edges[(b, a)] == g.edges[(a, b)]
      {
        assert HasEdge(nodes, a, b, g.edges[(a, b)]);
        assert HasEdge(nodes, b, a, g.edges[(a, b)]);
      }
    }
  }

  // ----- insertion

  /** The two list updates of `add_edge0`, at positions found by two searches. */
  function InsertEdge(directed: bool, nodes: NodeList, src: nat, dst: nat, w: int, i: nat, j: nat): NodeList
    requires src in nodes && dst in nodes && src != dst
    requires i <= |nodes[src].out| && j <= |BackList(directed, nodes, dst)|
  {
    SetBackList(directed, nodes[src := nodes[src].(out := Upsert(nodes[src].out, dst, w, i))], dst,
                Upsert(BackList(directed, nodes, dst), src, w, j))
  }

  /** The list of `v` in which an edge into `v` is mirrored. */
  function BackList(directed: bool, nodes: NodeList, v: nat): EdgeList
    requires v in nodes
  {
    if directed then nodes[v].inc else nodes[v].out
  }

  function SetBackList(directed: bool, nodes: NodeList, v: nat, list: EdgeList): NodeList
    requires v in nodes
  {
    nodes[v := if directed then nodes[v].(inc := list) else nodes[v].(out := list)]
  }

  function RemoveEdgeAt(directed: bool, nodes: NodeList, src: nat, dst: nat, i: nat, j: nat): NodeList
    requires src in nodes && dst in nodes && src != dst
    requires i < |nodes[src].out| && j < |BackList(directed, nodes, dst)|
  {
    SetBackList(directed, nodes[src := nodes[src].(out := Erase(nodes[src].out, i))], dst,
                Erase(BackList(directed, nodes, dst), j))
  }

  lemma InsertKeepsShape(directed: bool, nodes: NodeList, src: nat, dst: nat, w: int, i: nat, j: nat)
    requires Shape(directed, nodes) && src in nodes && dst in nodes && src != dst
    requires IsFirst(nodes[src].out, dst, i) && IsFirst(BackList(directed, nodes, dst), src, j)
    ensures var r := InsertEdge(directed, nodes, src, dst, w, i, j);
      && r.Keys == nodes.Keys && Shape(directed, r)
      && forall s: nat, d: nat, x: int :: HasEdge(r, s, d, x) <==>
           if (s, d) == (src, dst) || (!directed && (s, d) == (dst, src)) then x == w else HasEdge(nodes, s, d, x)
  {
    UpsertIs(nodes[src].out, dst, w, i);
    UpsertIs(BackList(directed, nodes, dst), src, w, j);
    var r := InsertEdge(directed, nodes, src, dst, w, i, j);
    forall s: nat, d: nat, x: int
      ensures HasEdge(r, s, d, x) <==>
           if (s, d) == (src, dst) || (!directed && (s, d) == (dst, src)) then x == w else HasEdge(nodes, s, d, x)
      ensures HasBackEdge(directed, r, d, s, x) <==>
           if (s, d) == (src, dst) || (!directed && (s, d) == (dst, src))
             then x == w else HasBackEdge(directed, nodes, d, s, x)
    {
    }
  }

  lemma RemoveKeepsShape(directed: bool, nodes: NodeList, src: nat, dst: nat, i: nat, j: nat)
    requires Shape(directed, nodes) && src in nodes && dst in nodes && src != dst
    requires IsFirst(nodes[src].out, dst, i) && IsFirst(BackList(directed, nodes, dst), src, j)
    requires i < |nodes[src].out| && j < |BackList(directed, nodes, dst)|
    ensures var r := RemoveEdgeAt(directed, nodes, src, dst, i, j);
      && r.Keys == nodes.Keys && Shape(directed, r)
      && forall s: nat, d: nat, x: int :: HasEdge(r, s, d, x) <==>
           (s, d) != (src, dst) && (directed || (s, d) != (dst, src)) && HasEdge(nodes, s, d, x)
  {
    EraseIs(nodes[src].out, dst, i);
    EraseIs(BackList(directed, nodes, dst), src, j);
    var r := RemoveEdgeAt(directed, nodes, src, dst, i, j);
    forall s: nat, d: nat, x: int
      ensures HasEdge(r, s, d, x) <==>
           (s, d) != (src, dst) && (directed || (s, d) != (dst, src)) && HasEdge(nodes, s, d, x)
      ensures HasBackEdge(directed, r, d, s, x) <==>
           (s, d) != (src, dst) && (directed || (s, d) != (dst, src)) && HasBackEdge(directed, nodes, d, s, x)
    {
    }
  }

  /** The edge map after an insertion is stored by the list after the insertion. */
  lemma InsertStores(directed: bool, nodes: NodeList, r: NodeList, edges: map<(nat, nat), int>, src: nat, dst: nat,
      w: int)
    requires Stores(nodes, edges)
    requires forall s: nat, d: nat, x: int :: HasEdge(r, s, d, x) <==>
           if (s, d) == (src, dst) || (!directed && (s, d) == (dst, src)) then x == w else HasEdge(nodes, s, d, x)
    ensures Stores(r, PutEdge(directed, edges, src, dst, w))
  {
  }

  lemma RemoveStores(directed: bool, nodes: NodeList, r: NodeList, edges: map<(nat, nat), int>, src: nat, dst: nat)
    requires Stores(nodes, edges)
    requires forall s: nat, d: nat, x: int :: HasEdge(r, s, d, x) <==>
           (s, d) != (src, dst) && (directed || (s, d) != (dst, src)) && HasEdge(nodes, s, d, x)
    ensures Stores(r, DropEdge(directed, edges, src, dst))
  {
  }

  lemma StoredIff(nodes: NodeList, edges: map<(nat, nat), int>, src: nat, dst: nat, i: nat)
    requires Stores(nodes, edges) && src in nodes && IsFirst(nodes[src].out, dst, i)
    ensures (src, dst) in edges <==> i < |nodes[src].out|
  {
    if i < |nodes[src].out| {
      assert HasEdge(nodes, src, dst, nodes[src].out[i].1);
    }
    if (src, dst) in edges {
      assert HasEdge(nodes, src, dst, edges[(src, dst)]);
    }
  }

  lemma PutSize(directed: bool, edges: map<(nat, nat), int>, src: nat, dst: nat, w: int)
    requires src != dst && (!directed ==> ((src, dst) in edges <==> (dst, src) in edges))
    ensures |PutEdge(directed, edges, src, dst, w)| ==
      if (src, dst) in edges then |edges| else if directed then |edges| + 1 else |edges| + 2
  {
    InsertSize(edges, (src, dst), w);
    InsertSize(edges[(src, dst) := w], (dst, src), w);
  }

  lemma DropEdgeSize(directed: bool, edges: map<(nat, nat), int>, src: nat, dst: nat)
    requires src != dst && (src, dst) in edges && (!directed ==> (dst, src) in edges)
    ensures |DropEdge(directed, edges, src, dst)| == if directed then |edges| - 1 else |edges| - 2
  {
    var gone := if directed then {(src, dst)} else {(src, dst), (dst, src)};
    DropSize(edges, gone);
    assert (src, dst) != (dst, src);
    assert |gone| == if directed then 1 else 2;
  }

  lemma InsertSize<K, V>(m: map<K, V>, k: K, v: V)
    ensures |m[k := v]| == if k in m then |m| else |m| + 1
  {
    var r := m[k := v];
    assert r.Keys == m.Keys + {k};
    assert |r.Keys| == |r| && |m.Keys| == |m|;
  }

  lemma DropSize<K, V>(m: map<K, V>, ks: set<K>)
    requires ks <= m.Keys
    ensures |m - ks| == |m| - |ks|
  {
    var r := m - ks;
    assert r.Keys == m.Keys - ks;
    assert |r.Keys| == |r| && |m.Keys| == |m|;
  }

  /** A new edge is counted once, an updated one not at all. */
  lemma InsertRefines(directed: bool, nodes: NodeList, numEdges: nat, g: State, src: nat, dst: nat, w: int, i: nat,
      j: nat)
    requires Represents(directed, nodes, numEdges, g) && src in nodes && dst in nodes && src != dst
    requires IsFirst(nodes[src].out, dst, i) && IsFirst(BackList(directed, nodes, dst), src, j)
    ensures Represents(directed, InsertEdge(directed, nodes, src, dst, w, i, j),
                       if i == |nodes[src].out| then numEdges + 1 else numEdges,
                       g.(edges := PutEdge(directed, g.edges, src, dst, w)))
  {
    RepresentedIsConsistent(directed, nodes, numEdges, g);
    assert !directed ==> ((src, dst) in g.edges <==> (dst, src) in g.edges);
    assert Shape(directed, nodes) && Stores(nodes, g.edges);
    assert |g.edges| == if directed then numEdges else 2 * numEdges;
    assert g.vertices == nodes.Keys;
    var r := InsertEdge(directed, nodes, src, dst, w, i, j);
    var g' := g.(edges := PutEdge(directed, g.edges, src, dst, w));
    var n' := if i == |nodes[src].out| then numEdges + 1 else numEdges;
    assert Shape(directed, r) && Stores(r, g'.edges) && g'.vertices == r.Keys
        && |g'.edges| == if directed then n' else 2 * n' by {
      hide *;
      InsertKeepsShape(directed, nodes, src, dst, w, i, j);
      InsertStores(directed, nodes, r, g.edges, src, dst, w);
      StoredIff(nodes, g.edges, src, dst, i);
      FirstInRange(nodes[src].out, dst, i);
      PutSize(directed, g.edges, src, dst, w);
    }
  }

  lemma FirstInRange(list: EdgeList, key: nat, i: nat)
    requires IsFirst(list, key, i)
    ensures i <= |list|
  {
  }

  lemma RemoveRefines(directed: bool, nodes: NodeList, numEdges: nat, g: State, src: nat, dst: nat, i: nat, j: nat)
    requires Represents(directed, nodes, numEdges, g) && src in nodes && dst in nodes && src != dst
    requires IsFirst(nodes[src].out, dst, i) && IsFirst(BackList(directed, nodes, dst), src, j)
    requires i < |nodes[src].out| && j < |BackList(directed, nodes, dst)|
    ensures numEdges > 0
    ensures Represents(directed, RemoveEdgeAt(directed, nodes, src, dst, i, j), numEdges - 1,
                       g.(edges := DropEdge(directed, g.edges, src, dst)))
  {
    RepresentedIsConsistent(directed, nodes, numEdges, g);
    assert !directed ==> ((src, dst) in g.edges ==> (dst, src) in g.edges);
    assert Shape(directed, nodes) && Stores(nodes, g.edges);
    assert |g.edges| == if directed then numEdges else 2 * numEdges;
    assert g.vertices == nodes.Keys;
    var r := RemoveEdgeAt(directed, nodes, src, dst, i, j);
    var g' := g.(edges := DropEdge(directed, g.edges, src, dst));
    assert numEdges > 0 && Shape(directed, r) && Stores(r, g'.edges) && g'.vertices == r.Keys
        && |g'.edges| == if directed then numEdges - 1 else 2 * (numEdges - 1) by {
      hide *;
      StoredIff(nodes, g.edges, src, dst, i);
      RemoveKeepsShape(directed, nodes, src, dst, i, j);
      RemoveStores(directed, nodes, r, g.edges, src, dst);
      DropEdgeSize(directed, g.edges, src, dst);
    }
  }

  /** The mirror of an edge that is present is found. */
  lemma MirrorFound(directed: bool, nodes: NodeList, src: nat, dst: nat, i: nat, j: nat)
    requires Shape(directed, nodes) && src in nodes && dst in nodes
    requires IsFirst(nodes[src].out, dst, i) && i < |nodes[src].out| && IsFirst(BackList(directed, nodes, dst), src, j)
    ensures j < |BackList(directed, nodes, dst)| && src != dst
  {
    var w := nodes[src].out[i].1;
    assert HasEdge(nodes, src, dst, w);
    assert HasBackEdge(directed, nodes, dst, src, w);
  }
}
