/**
 The part of a worker that runs when a task reaches it: pick the worker's share of a
 block of the log (`main_load_edges`), and send what was picked (`main_execute_updates`).
 */
module UpdateWorker {
  import opened Filters
  import opened Ranges
  import opened Replay
  import opened GraphState

  const LAST_MAX_SZ: nat := 0x40_0000

  /**
   An entry of weight zero gets a random weight in (0, maxWeight]; `draw` is the generator's value in [0, maxWeight).
   */
  function Drawn(u: Update, draw: int, maxWeight: int): Update
  {
    if u.weight == 0 then u.(weight := if draw == 0 then maxWeight else draw) else u
  }

  /** The block with every random weight drawn. */
  function DrawnBlock(block: seq<Update>, draws: nat -> int, maxWeight: int): (r: seq<Update>)
    ensures |r| == |block| && forall k :: 0 <= k < |block| ==> r[k] == Drawn(block[k], draws(k), maxWeight)
  {
    seq(|block|, k requires 0 <= k < |block| => Drawn(block[k], draws(k), maxWeight))
  }

  /** Only weights of zero change, and they end up positive and at most `maxWeight`. */
  lemma DrawnIs(u: Update, draw: int, maxWeight: int)
    requires 0 <= draw < maxWeight
    ensures var r := Drawn(u, draw, maxWeight);
      && r.src == u.src && r.dst == u.dst && (u.weight != 0 ==> r.weight == u.weight)
      && (u.weight == 0 ==> 0 < r.weight <= maxWeight)
  {
  }

  lemma {:induction false} SameEdgesDrawn(directed: bool, g: State, block: seq<Update>, draws: nat -> int,
      maxWeight: int, k: nat)
    requires k <= |block| && forall j :: 0 <= draws(j) < maxWeight
    ensures Serial(directed, g, DrawnBlock(block, draws, maxWeight)[..k]).edges.Keys ==
      Serial(directed, g, block[..k]).edges.Keys
  {
    if k > 0 {
      var drawn := DrawnBlock(block, draws, maxWeight);
      SameEdgesDrawn(directed, g, block, draws, maxWeight, k - 1);
      DrawnIs(block[k - 1], draws(k - 1), maxWeight);
      assert drawn[..k][..k - 1] == drawn[..k - 1] && block[..k][..k - 1] == block[..k - 1];
    }
  }

  /** Drawing weights does not touch removals, so a log stays well-formed, or ill-formed. */
  lemma DrawnIsWellFormed(directed: bool, g: State, block: seq<Update>, draws: nat -> int, maxWeight: int)
    requires forall j :: 0 <= draws(j) < maxWeight
    ensures WellFormedLog(directed, g, DrawnBlock(block, draws, maxWeight)) <==> WellFormedLog(directed, g, block)
  {
    var drawn := DrawnBlock(block, draws, maxWeight);
    forall k | 0 <= k < |block|
      ensures drawn[k].src == block[k].src && drawn[k].dst == block[k].dst
      ensures drawn[k].weight < 0 <==> block[k].weight < 0
      ensures forall p :: p in Serial(directed, g, drawn[..k]).edges <==> p in Serial(directed, g, block[..k]).edges
    {
      DrawnIs(block[k], draws(k), maxWeight);
      SameEdgesDrawn(directed, g, block, draws, maxWeight, k);
    }
    hide Serial, DrawnBlock;
  }

  /** All that the workers load from a block is the block, each update with its drawn weight. */
  lemma WorkersLoadTheBlock(hash: nat -> nat, workers: nat, block: seq<Update>, draws: nat -> int, maxWeight: int)
    requires workers > 0
    ensures var drawn := DrawnBlock(block, draws, maxWeight);
      && Together(HashOwner(hash, workers), drawn, workers) == multiset(drawn)
      && Lengths(HashOwner(hash, workers), drawn, workers) == |block|
  {
    HashSharesAreTheBlock(hash, workers, DrawnBlock(block, draws, maxWeight));
  }

  function Flatten<T>(chunks: seq<seq<T>>): seq<T>
  {
    if chunks == [] then [] else Flatten(chunks[..|chunks| - 1]) + chunks[|chunks| - 1]
  }

  lemma FlattenPush<T>(chunks: seq<seq<T>>, c: seq<T>)
    ensures Flatten(chunks + [c]) == Flatten(chunks) + c
  {
    assert (chunks + [c])[..|chunks|] == chunks;
  }

  function Insertions(s: seq<Update>): nat
  {
    |Filter(s, (u: Update) => u.weight >= 0)|
  }

  function Deletions(s: seq<Update>): nat
  {
    |Filter(s, (u: Update) => u.weight < 0)|
  }

  /** Every update is counted once, as what the library is asked to do. */
  lemma {:induction false} CountersAddUp(s: seq<Update>)
    ensures Insertions(s) + Deletions(s) == |s|
    ensures Insertions(s) == |Filter(AsOps(s), (op: Op) => op.Put?)|
    decreases |s|
  {
    if s != [] {
      var front, last := s[..|s| - 1], s[|s| - 1];
      hide *;
      CountersAddUp(front);
      CountOneMore(front, last);
      PutsOneMore(front, last);
      assert s == front + [last];
    }
  }

  lemma CountOneMore(s: seq<Update>, u: Update)
    ensures Insertions(s + [u]) == Insertions(s) + if u.weight >= 0 then 1 else 0
    ensures Deletions(s + [u]) == Deletions(s) + if u.weight < 0 then 1 else 0
  {
    FilterAppend(s, u, (v: Update) => v.weight >= 0);
    FilterAppend(s, u, (v: Update) => v.weight < 0);
  }

  lemma PutsOneMore(s: seq<Update>, u: Update)
    ensures |Filter(AsOps(s + [u]), (op: Op) => op.Put?)| ==
      |Filter(AsOps(s), (op: Op) => op.Put?)| + if u.weight >= 0 then 1 else 0
  {
    assert AsOps(s + [u]) == AsOps(s) + [AsOp(u)];
    FilterAppend(AsOps(s), AsOp(u), (op: Op) => op.Put?);
  }

  class Aging2Worker {
    const id: nat                          // m_worker_id
    const workers: nat                     // m_num_threads
    const hash: nat -> nat
    var updates: seq<seq<Update>>          // m_updates
    var numInsertions: nat
    var numDeletions: nat

    constructor (id: nat, workers: nat, hash: nat -> nat)
      requires id < workers
      ensures this.id == id && this.workers == workers && this.hash == hash
      ensures updates == [] && numInsertions == 0 && numDeletions == 0
    {
      this.id, this.workers, this.hash := id, workers, hash;
      updates, numInsertions, numDeletions := [], 0, 0;
    }

    /** The updates still to be sent. */
    function Pending(): seq<Update>
      reads this
    {
      Flatten(updates)
    }

    ghost predicate ChunksBounded()
      reads this
    {
      forall k :: 0 <= k < |updates| ==> |updates[k]| <= LAST_MAX_SZ + 1
    }

    method Emplace(u: Update)
      requires updates != [] && ChunksBounded()
      modifies this`updates
      ensures updates != [] && ChunksBounded()
      ensures Pending() == old(Pending()) + [u]
    {
      var last := updates[|updates| - 1];
      var front := updates[..|updates| - 1];
      if |last| > LAST_MAX_SZ {
        FlattenPush(updates, [u]);
        updates := updates + [[u]];
      } else {
        assert updates == front + [last];
        FlattenPush(front, last);
        FlattenPush(front, last + [u]);
        updates := front + [last + [u]];
      }
    }

    /** The worker appends exactly its share of the block, in log order. */
    method MainLoadEdges(block: seq<Update>, draws: nat -> int, maxWeight: int)
      requires workers > 0 && ChunksBounded()
      requires forall k :: 0 <= draws(k) < maxWeight
      modifies this
      ensures ChunksBounded()
      ensures Pending() == old(Pending()) + Share(HashOwner(hash, workers), DrawnBlock(block, draws, maxWeight), id)
      ensures numInsertions ==
        old(numInsertions) + Insertions(Share(HashOwner(hash, workers), DrawnBlock(block, draws, maxWeight), id))
      ensures numDeletions ==
        old(numDeletions) + Deletions(Share(HashOwner(hash, workers), DrawnBlock(block, draws, maxWeight), id))
    {
      var owner := HashOwner(hash, workers);
      ghost var drawn := DrawnBlock(block, draws, maxWeight);
      ghost var before := Pending();
      if updates == [] {
        FlattenPush(updates, []);
        updates := updates + [[]];
      }
      assert drawn[..0] == [];
      for i := 0 to |block|
        invariant updates != [] && ChunksBounded()
        invariant Pending() == before + Share(owner, drawn[..i], id)
        invariant numInsertions == old(numInsertions) + Insertions(Share(owner, drawn[..i], id))
        invariant numDeletions == old(numDeletions) + Deletions(Share(owner, drawn[..i], id))
      {
        ShareStep(owner, drawn, id, i);
        LoadOne(block[i], draws(i), maxWeight);
      }
      assert drawn[..|block|] == drawn;
    }

    /** One entry of the block. */
    method LoadOne(u: Update, draw: int, maxWeight: int)
      requires workers > 0 && updates != [] && ChunksBounded() && 0 <= draw < maxWeight
      modifies this
      ensures updates != [] && ChunksBounded()
      ensures var r := Drawn(u, draw, maxWeight);
        var mine := HashOwner(hash, workers)(r) == id;
        && Pending() == old(Pending()) + (if mine then [r] else [])
        && numInsertions == old(numInsertions) + (if mine && r.weight >= 0 then 1 else 0)
        && numDeletions == old(numDeletions) + (if mine && r.weight < 0 then 1 else 0)
    {
      if hash((u.src + u.dst) % UINT64) % workers == id {
        if u.weight >= 0 {
          numInsertions := numInsertions + 1;
        } else {
          numDeletions := numDeletions + 1;
        }
        var weight := u.weight;
        if weight == 0 {
          weight := draw;
          if weight == 0 {
            weight := maxWeight;
          }
        }
        Emplace(Update(u.src, u.dst, weight));
      }
    }

    /**
     Everything that was loaded is sent once, in order, whatever the granularity of the progress
     reports, and the buffers are empty afterwards. `sent` lists the calls to the library.
     */
    method MainExecuteUpdates(granularity: nat, releaseMemory: bool) returns (sent: seq<Update>)
      requires granularity > 0
      modifies this`updates
      ensures sent == old(Pending()) && updates == []
    {
      ghost var all := updates;
      sent := [];
      var i, end := 0, |updates|;
      while i < end
        invariant i <= end == |all|
        invariant updates == if releaseMemory then all[i..] else all
        invariant sent == Flatten(all[..i])
      {
        var operations := updates[if releaseMemory then 0 else i];
        assert operations == all[i];
        assert all[..i + 1][..i] == all[..i];
        var chunk := SendChunks(operations, granularity);
        sent := sent + chunk;
        if releaseMemory {
          updates := updates[1..];
        }
        i := i + 1;
      }
      assert all[..end] == all;
      updates := [];
    }
  }

  lemma ShareStep(owner: Update -> nat, s: seq<Update>, w: nat, i: nat)
    requires i < |s|
    ensures Share(owner, s[..i + 1], w) == Share(owner, s[..i], w) + if owner(s[i]) == w then [s[i]] else []
    ensures Insertions(Share(owner, s[..i + 1], w)) == Insertions(Share(owner, s[..i], w)) + if owner(s[i]) == w
      && s[i].weight >= 0 then 1 else 0
    ensures Deletions(Share(owner, s[..i + 1], w)) == Deletions(Share(owner, s[..i], w)) + if owner(s[i]) == w
      && s[i].weight < 0 then 1 else 0
  {
    assert s[..i + 1] == s[..i] + [s[i]];
    FilterAppend(s[..i], s[i], u => owner(u) == w);
    FilterAppend(Share(owner, s[..i], w), s[i], (u: Update) => u.weight >= 0);
    FilterAppend(Share(owner, s[..i], w), s[i], (u: Update) => u.weight < 0);
  }

  /** The loop over chunks of at most `granularity` updates. */
  method SendChunks(operations: seq<Update>, granularity: nat) returns (sent: seq<Update>)
    requires granularity > 0
    ensures sent == operations
  {
    var numLoops := |operations| / granularity + if |operations| % granularity != 0 then 1 else 0;
    var start := 0;
    sent := [];
    for j := 0 to numLoops
      invariant start == if j < numLoops || numLoops * granularity <= |operations|
        then j * granularity else |operations|
      invariant start <= |operations|
      invariant sent == operations[..start]
    {
      ChunkBounds(|operations|, granularity, numLoops, j);
      var end := if start + granularity < |operations| then start + granularity else |operations|;
      sent := sent + operations[start..end];
      assert operations[..end] == operations[..start] + operations[start..end];
      start := end;
    }
    ChunksCover(|operations|, granularity, numLoops);
    assert operations[..start] == operations;
  }

  lemma ChunkBounds(size: nat, granularity: nat, numLoops: nat, j: nat)
    requires granularity > 0 && j < numLoops
    requires numLoops == size / granularity + if size % granularity != 0 then 1 else 0
    ensures (j + 1) * granularity == j * granularity + granularity
    ensures j + 1 < numLoops ==> (j + 1) * granularity <= size
    ensures j + 1 == numLoops ==> size <= (j + 1) * granularity
    ensures j * granularity <= size
  {
    var q := size / granularity;
    assert size == q * granularity + size % granularity;
    if j + 1 < numLoops {
      MulMonotone(granularity, j + 1, q);
    } else {
      assert j + 1 == numLoops;
      if size % granularity == 0 {
        assert j + 1 == q;
      } else {
        assert j == q;
      }
    }
  }

  lemma ChunksCover(size: nat, granularity: nat, numLoops: nat)
    requires granularity > 0
    requires numLoops == size / granularity + if size % granularity != 0 then 1 else 0
    ensures numLoops * granularity <= size ==> numLoops * granularity == size
  {
    var q := size / granularity;
    assert size == q * granularity + size % granularity;
  }
}
