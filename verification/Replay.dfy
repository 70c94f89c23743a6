/**
 Why the parallel replay of an update log is serializable. The workers share the log by a hash of
 `source + destination`; each keeps log order, and undirected edges may be sent with swapped endpoints.
 Whatever the interleaving, the graph is the one serial replay builds.
 */
module Replay {
  import opened GraphState
  import opened Filters

  // A record of the log: a negative weight removes the edge.
  datatype Update = Update(src: nat, dst: nat, weight: int)

  const UINT64: int := 0x1_0000_0000_0000_0000

  /** Two updates write the same entries of the edge map. */
  predicate SameEdge(directed: bool, a: nat, b: nat, u: Update)
  {
    (u.src == a && u.dst == b) || (!directed && u.src == b && u.dst == a)
  }

  /** Updates of one edge always have the same owner. */
  ghost predicate Sticky(directed: bool, owner: Update -> nat)
  {
    forall u: Update, v: Update :: SameEdge(directed, u.src, u.dst, v) ==> owner(u) == owner(v)
  }

  /** The worker that `main_load_edges` picks for an update; `hash` is std::hash. */
  function HashOwner(hash: nat -> nat, workers: nat): Update -> nat
    requires workers > 0
  {
    (u: Update) => hash((u.src + u.dst) % UINT64) % workers
  }

  /** The hash of the sum does not see the order of the endpoints. */
  lemma HashOwnerIsSticky(directed: bool, hash: nat -> nat, workers: nat)
    requires workers > 0
    ensures Sticky(directed, HashOwner(hash, workers))
  {
    forall u: Update, v: Update | SameEdge(directed, u.src, u.dst, v)
      ensures HashOwner(hash, workers)(u) == HashOwner(hash, workers)(v)
    {
      assert u.src + u.dst == v.src + v.dst;
    }
  }

  /** It is a worker, and the sum of the endpoints wraps around at 64 bits. */
  lemma HashOwnerIs(hash: nat -> nat, workers: nat, u: Update)
    requires workers > 0 && u.src < 0x1_0000_0000_0000_0000 && u.dst < 0x1_0000_0000_0000_0000
    ensures HashOwner(hash, workers)(u) < workers
    ensures var sum := u.src + u.dst;
      HashOwner(hash, workers)(u) ==
        hash(if sum < 0x1_0000_0000_0000_0000 then sum else sum - 0x1_0000_0000_0000_0000) % workers
  {
    var sum := u.src + u.dst;
    assert sum % 0x1_0000_0000_0000_0000 ==
      if sum < 0x1_0000_0000_0000_0000 then sum else sum - 0x1_0000_0000_0000_0000;
  }

  function AsOp(u: Update): Op
  {
    if u.weight >= 0 then Put(u.src, u.dst, u.weight) else Drop(u.src, u.dst)
  }

  function AsOps(s: seq<Update>): (ops: seq<Op>)
    ensures |ops| == |s| && forall k :: 0 <= k < |s| ==> ops[k] == AsOp(s[k])
  {
    seq(|s|, k requires 0 <= k < |s| => AsOp(s[k]))
  }

  function Swapped(u: Update): Update
  {
    Update(u.dst, u.src, u.weight)
  }

  /** Serial replay of a log. */
  function Serial(directed: bool, g: State, log: seq<Update>): State
    decreases |log|
  {
    if log == [] then g else Apply(directed, Serial(directed, g, log[..|log| - 1]), AsOp(log[|log| - 1]))
  }

  /** Replaying a log is running its calls, as the adjacency list does (`AdjacencyList.Run`). */
  lemma {:induction false} SerialIsReplay(directed: bool, g: State, log: seq<Update>)
    ensures Serial(directed, g, log) == GraphState.Replay(directed, g, AsOps(log))
    decreases |log|
  {
    if log != [] {
      SerialIsReplay(directed, g, log[..|log| - 1]);
      assert AsOps(log)[..|log| - 1] == AsOps(log[..|log| - 1]);
    }
  }

  /** No self loops, and every removal finds its edge when the log is replayed serially. */
  ghost predicate WellFormedLog(directed: bool, g: State, log: seq<Update>)
  {
    forall k :: 0 <= k < |log| ==>
      && log[k].src != log[k].dst
      && (log[k].weight < 0 ==> (log[k].src, log[k].dst) in Serial(directed, g, log[..k]).edges)
  }

  // ----- an entry of the edge map depends only on the updates of that edge

  ghost predicate AgreeOn<K(!new), V>(m1: map<K, V>, m2: map<K, V>, key: K)
  {
    (key in m1 <==> key in m2) && (key in m1 ==> m1[key] == m2[key])
  }

  lemma ApplyAgrees(directed: bool, s: State, t: State, a: nat, b: nat, u: Update)
    requires AgreeOn(s.edges, t.edges, (a, b))
    ensures AgreeOn(Apply(directed, s, AsOp(u)).edges, Apply(directed, t, AsOp(u)).edges, (a, b))
    ensures !SameEdge(directed, a, b, u) ==> AgreeOn(Apply(directed, s, AsOp(u)).edges, t.edges, (a, b))
  {
  }

  lemma {:induction false} OnlySameEdgeMatters(directed: bool, g: State, log: seq<Update>, a: nat, b: nat)
    ensures AgreeOn(Serial(directed, g, log).edges,
      Serial(directed, g, Filter(log, u => SameEdge(directed, a, b, u))).edges, (a, b))
    decreases |log|
  {
    if log != [] {
      var front, u := log[..|log| - 1], log[|log| - 1];
      var keep := u => SameEdge(directed, a, b, u);
      OnlySameEdgeMatters(directed, g, front, a, b);
      ApplyAgrees(directed, Serial(directed, g, front), Serial(directed, g, Filter(front, keep)), a, b, u);
      if keep(u) {
        assert (Filter(front, keep) + [u])[..|Filter(front, keep)|] == Filter(front, keep);
      }
    }
  }

  /** The vertices after a replay are the old ones and the endpoints of the insertions. */
  lemma {:induction false} SerialVertices(directed: bool, g: State, log: seq<Update>, v: nat)
    ensures v in Serial(directed, g, log).vertices <==>
      v in g.vertices || exists u :: u in log && u.weight >= 0 && u.src != u.dst && (v == u.src || v == u.dst)
    decreases |log|
  {
    if log != [] {
      var front, last := log[..|log| - 1], log[|log| - 1];
      SerialVertices(directed, g, front, v);
      assert log == front + [last];
      assert forall u :: u in log <==> u in front || u == last;
      if u :| u in front && u.weight >= 0 && u.src != u.dst && (v == u.src || v == u.dst) {
        assert u in log;
      }
      if v in Serial(directed, g, log).vertices && v !in Serial(directed, g, front).vertices {
        assert last in log;
      }
    }
  }

  /** The last update of an edge decides whether it is there, and with which weight. */
  lemma {:induction false} LastUpdateDecides(directed: bool, g: State, log: seq<Update>, a: nat, b: nat, k: nat)
    requires a != b && k < |log| && SameEdge(directed, a, b, log[k])
    requires forall j :: k < j < |log| ==> !SameEdge(directed, a, b, log[j])
    ensures (a, b) in Serial(directed, g, log).edges <==> log[k].weight >= 0
    ensures log[k].weight >= 0 ==> Serial(directed, g, log).edges[(a, b)] == log[k].weight
    decreases |log|
  {
    if k < |log| - 1 {
      LastUpdateDecides(directed, g, log[..|log| - 1], a, b, k);
    }
  }

  // ----- traces of the workers

  /** The updates of worker `w`, in order. */
  function Share(owner: Update -> nat, s: seq<Update>, w: nat): seq<Update>
  {
    Filter(s, u => owner(u) == w)
  }

  /** All that the first `k` workers get. */
  ghost function Together(owner: Update -> nat, s: seq<Update>, k: nat): multiset<Update>
  {
    if k == 0 then multiset{} else Together(owner, s, k - 1) + multiset(Share(owner, s, k - 1))
  }

  ghost function Lengths(owner: Update -> nat, s: seq<Update>, k: nat): nat
  {
    if k == 0 then 0 else Lengths(owner, s, k - 1) + |Share(owner, s, k - 1)|
  }

  lemma {:induction false} TogetherAppend(owner: Update -> nat, s: seq<Update>, u: Update, k: nat)
    ensures Together(owner, s + [u], k) == Together(owner, s, k) + if owner(u) < k then multiset{u} else multiset{}
    ensures Lengths(owner, s + [u], k) == Lengths(owner, s, k) + if owner(u) < k then 1 else 0
    decreases k
  {
    if k > 0 {
      TogetherAppend(owner, s, u, k - 1);
      ShareAppend(owner, s, u, k - 1);
      hide Share;
      AddOne(Together(owner, s, k - 1), Share(owner, s, k - 1), u);
    }
  }

  lemma AddOne(before: multiset<Update>, s: seq<Update>, u: Update)
    ensures before + multiset(s + [u]) == before + multiset(s) + multiset{u}
    ensures before + multiset{u} + multiset(s) == before + multiset(s) + multiset{u}
    ensures s + [] == s && before + multiset{} == before && before + multiset(s) + multiset{} == before + multiset(s)
  {
    assert multiset(s + [u]) == multiset(s) + multiset{u};
  }

  lemma ShareAppend(owner: Update -> nat, s: seq<Update>, u: Update, w: nat)
    ensures Share(owner, s + [u], w) == Share(owner, s, w) + if owner(u) == w then [u] else []
  {
    FilterAppend(s, u, v => owner(v) == w);
  }

  lemma {:induction false} NothingTogether(owner: Update -> nat, k: nat)
    ensures Together(owner, [], k) == multiset{} && Lengths(owner, [], k) == 0
  {
    if k > 0 {
      NothingTogether(owner, k - 1);
    }
  }

  /** The shares of the workers are all of the log, and no update is in two of them. */
  lemma {:induction false} SharesAreTheLog(owner: Update -> nat, s: seq<Update>, workers: nat)
    requires forall u :: u in s ==> owner(u) < workers
    ensures Together(owner, s, workers) == multiset(s) && Lengths(owner, s, workers) == |s|
  {
    if s == [] {
      NothingTogether(owner, workers);
    } else {
      var front, last := s[..|s| - 1], s[|s| - 1];
      assert s == front + [last] && last in s;
      SharesAreTheLog(owner, front, workers);
      TogetherAppend(owner, front, last, workers);
    }
  }

  /** With the hash every update of a block is loaded by exactly one of the workers. */
  lemma HashSharesAreTheBlock(hash: nat -> nat, workers: nat, block: seq<Update>)
    requires workers > 0
    ensures forall k, w: nat :: 0 <= k < |block| ==>
      (block[k] in Share(HashOwner(hash, workers), block, w) <==> w == HashOwner(hash, workers)(block[k]))
    ensures forall k :: 0 <= k < |block| ==> HashOwner(hash, workers)(block[k]) < workers
    ensures Together(HashOwner(hash, workers), block, workers) == multiset(block)
    ensures Lengths(HashOwner(hash, workers), block, workers) == |block|
  {
    var owner := HashOwner(hash, workers);
    forall k, w: nat | 0 <= k < |block| ensures block[k] in Share(owner, block, w) <==> w == owner(block[k]) {
      FilterMembers(block, u => owner(u) == w);
    }
    SharesAreTheLog(owner, block, workers);
  }

  /** `trace` runs the log so that every worker has executed exactly its share, in log order. */
  ghost predicate Interleaves(owner: Update -> nat, log: seq<Update>, trace: seq<Update>)
  {
    forall w: nat :: Share(owner, trace, w) == Share(owner, log, w)
  }

  /** Each worker has executed a prefix of its share. */
  ghost predicate PartOf(owner: Update -> nat, log: seq<Update>, trace: seq<Update>)
  {
    forall w: nat :: Share(owner, trace, w) <= Share(owner, log, w)
  }

  lemma SharesOfOneEdge(directed: bool, owner: Update -> nat, s: seq<Update>, e: Update)
    requires Sticky(directed, owner)
    ensures Filter(Share(owner, s, owner(e)), u => SameEdge(directed, e.src, e.dst, u)) ==
      Filter(s, u => SameEdge(directed, e.src, e.dst, u))
  {
    FilterOfFilter(s, u => SameEdge(directed, e.src, e.dst, u), u => owner(u) == owner(e));
  }

  lemma SameEdgeOrder(directed: bool, owner: Update -> nat, log: seq<Update>, trace: seq<Update>, a: nat, b: nat)
    requires Sticky(directed, owner) && Interleaves(owner, log, trace)
    ensures Filter(trace, u => SameEdge(directed, a, b, u)) == Filter(log, u => SameEdge(directed, a, b, u))
  {
    var e := Update(a, b, 0);
    SharesOfOneEdge(directed, owner, log, e);
    SharesOfOneEdge(directed, owner, trace, e);
  }

  lemma SameUpdates(owner: Update -> nat, log: seq<Update>, trace: seq<Update>, u: Update)
    requires Interleaves(owner, log, trace)
    ensures u in trace <==> u in log
  {
    FilterMembers(trace, v => owner(v) == owner(u));
    FilterMembers(log, v => owner(v) == owner(u));
    assert u in trace <==> u in Share(owner, trace, owner(u));
    assert u in log <==> u in Share(owner, log, owner(u));
  }

  lemma VerticesAgree(directed: bool, owner: Update -> nat, g: State, log: seq<Update>, trace: seq<Update>)
    requires Interleaves(owner, log, trace)
    ensures Serial(directed, g, trace).vertices == Serial(directed, g, log).vertices
  {
    var s, t := Serial(directed, g, trace), Serial(directed, g, log);
    forall v: nat
      ensures v in s.vertices <==> v in t.vertices
    {
      SerialVertices(directed, g, trace, v);
      SerialVertices(directed, g, log, v);
      forall u ensures u in trace <==> u in log { SameUpdates(owner, log, trace, u); }
    }
  }

  /** Every interleaving of the workers ends in the graph of the serial replay. */
  lemma ReplayIsSerializable(directed: bool, owner: Update -> nat, g: State, log: seq<Update>, trace: seq<Update>)
    requires Sticky(directed, owner) && Interleaves(owner, log, trace)
    ensures Serial(directed, g, trace) == Serial(directed, g, log)
  {
    var s, t := Serial(directed, g, trace), Serial(directed, g, log);
    forall a: nat, b: nat
      ensures AgreeOn(s.edges, t.edges, (a, b))
    {
      OnlySameEdgeMatters(directed, g, trace, a, b);
      OnlySameEdgeMatters(directed, g, log, a, b);
      SameEdgeOrder(directed, owner, log, trace, a, b);
    }
    assert s.edges == t.edges by {
      assert forall k :: k in s.edges ==> AgreeOn(s.edges, t.edges, (k.0, k.1));
      assert forall k :: k in t.edges ==> AgreeOn(s.edges, t.edges, (k.0, k.1));
    }
    VerticesAgree(directed, owner, g, log, trace);
  }

  /** A removal that is about to run finds its edge: `graph_remove_edge` never has to try twice. */
  lemma RemovalSucceedsAtOnce(directed: bool, owner: Update -> nat, g: State, log: seq<Update>, trace: seq<Update>,
      u: Update)
    requires Sticky(directed, owner) && WellFormedLog(directed, g, log)
    requires PartOf(owner, log, trace + [u])
    ensures u.src != u.dst
    ensures u.weight < 0 ==> (u.src, u.dst) in Serial(directed, g, trace).edges
  {
    var w := owner(u);
    var edge := v => SameEdge(directed, u.src, u.dst, v);
    FilterPrefixes(Share(owner, trace + [u], w), Share(owner, log, w), edge);
    SharesOfOneEdge(directed, owner, log, u);
    SharesOfOneEdge(directed, owner, trace + [u], u);
    FilterAppend(trace, u, edge);
    var k := FilteredPrefix(log, edge, Filter(trace, edge), u);
    OnlySameEdgeMatters(directed, g, trace, u.src, u.dst);
    OnlySameEdgeMatters(directed, g, log[..k], u.src, u.dst);
  }

  lemma {:induction false} SerialKeepsConsistent(directed: bool, g: State, log: seq<Update>)
    requires Consistent(directed, g)
    ensures Consistent(directed, Serial(directed, g, log))
    decreases |log|
  {
    if log != [] {
      SerialKeepsConsistent(directed, g, log[..|log| - 1]);
      ApplyKeepsConsistent(directed, Serial(directed, g, log[..|log| - 1]), AsOp(log[|log| - 1]));
    }
  }

  // ----- random swaps of the endpoints

  /** What is really sent: each update as it is, or with swapped endpoints if the graph is undirected. */
  ghost predicate SentFor(directed: bool, trace: seq<Update>, sent: seq<Update>)
  {
    && |sent| == |trace|
    && forall k :: 0 <= k < |trace| ==> sent[k] == trace[k] || (!directed && sent[k] == Swapped(trace[k]))
  }

  lemma {:induction false} SwapsAreInvisible(directed: bool, g: State, trace: seq<Update>, sent: seq<Update>)
    requires SentFor(directed, trace, sent)
    ensures Serial(directed, g, sent) == Serial(directed, g, trace)
    decreases |trace|
  {
    if trace != [] {
      var last := |trace| - 1;
      SwapsAreInvisible(directed, g, trace[..last], sent[..last]);
      var u := trace[last];
      SwapIsInvisible(Serial(directed, g, trace[..last]), u.src, u.dst, u.weight);
    }
  }
}
