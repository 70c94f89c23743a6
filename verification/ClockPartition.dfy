/**
 The even partition of a block of the log (`execute_synchronized_small_batch_even_partition`):
 a clock hand hands out a worker for every new ordered pair, and the pair keeps it.
 */
module ClockPartition {
  import opened GraphState
  import opened Filters
  import opened Replay

  datatype Clock = Clock(bits: seq<bool>, hand: nat)   // clock_even_distribution, offset

  ghost predicate ValidClock(c: Clock)
  {
    c.hand < |c.bits|
  }

  function Trues(bits: seq<bool>): nat
  {
    if bits == [] then 0 else Trues(bits[..|bits| - 1]) + if bits[|bits| - 1] then 1 else 0
  }

  lemma {:induction false} TruesAfterClear(bits: seq<bool>, k: nat)
    requires k < |bits| && bits[k]
    ensures Trues(bits[k := false]) == Trues(bits) - 1
  {
    var last := |bits| - 1;
    if k == last {
      assert bits[k := false][..last] == bits[..last];
    } else {
      assert bits[k := false][..last] == bits[..last][k := false];
      TruesAfterClear(bits[..last], k);
    }
  }

  lemma {:induction false} TruesBound(bits: seq<bool>)
    ensures Trues(bits) <= |bits|
  {
    if bits != [] {
      TruesBound(bits[..|bits| - 1]);
    }
  }

  datatype Found = Found(clock: Clock, owner: nat, probes: nat)

  /** Turn the hand until it meets a clear bit, clearing the set ones on the way. */
  function Turn(c: Clock): Found
    requires ValidClock(c)
    decreases Trues(c.bits)
  {
    var next := (c.hand + 1) % |c.bits|;
    if !c.bits[c.hand] then Found(Clock(c.bits[c.hand := true], next), c.hand, 1)
    else
      TruesAfterClear(c.bits, c.hand);
      var f := Turn(Clock(c.bits[c.hand := false], next));
      f.(probes := f.probes + 1)
  }

  /** The position `j` places ahead of the hand. */
  function Ahead(hand: nat, j: nat, n: nat): (r: nat)
    requires hand < n && j <= n
    ensures r < n
  {
    if hand + j < n then hand + j else hand + j - n
  }

  lemma AheadOfNext(hand: nat, j: nat, n: nat)
    requires hand < n && j < n
    ensures (hand + 1) % n < n && Ahead((hand + 1) % n, j, n) == Ahead(hand, j + 1, n)
  {
    NextHand(hand, n);
  }

  lemma NextHand(hand: nat, n: nat)
    requires hand < n
    ensures (hand + 1) % n == if hand + 1 == n then 0 else hand + 1
  {
  }

  /**
   From any bits the hand stops within one probe more than there are set bits, hence within
   `workers + 1` probes, at a worker whose bit was clear or, if none was, where it started.
   */
  lemma {:induction false} TurnStops(c: Clock)
    requires ValidClock(c)
    ensures ValidClock(Turn(c).clock) && |Turn(c).clock.bits| == |c.bits|
    ensures 1 <= Turn(c).probes <= Trues(c.bits) + 1 <= |c.bits| + 1
    ensures Turn(c).probes - 1 <= |c.bits| && Turn(c).owner < |c.bits|
    ensures Turn(c).owner == Ahead(c.hand, Turn(c).probes - 1, |c.bits|)
    ensures Turn(c).clock.bits[Turn(c).owner] && Turn(c).clock.hand == (Turn(c).owner + 1) % |c.bits|
    ensures !c.bits[Turn(c).owner] || Turn(c).probes > 1
    decreases Trues(c.bits)
  {
    TruesBound(c.bits);
    TurnStep(c);
    NextHand(c.hand, |c.bits|);
    assert Ahead(c.hand, 0, |c.bits|) == c.hand;
    hide Turn, Trues, Ahead;
    var d := Clock(c.bits[c.hand := !c.bits[c.hand]], (c.hand + 1) % |c.bits|);
    if c.bits[c.hand] {
      TurnStops(d);
      AheadOfNext(c.hand, Turn(d).probes - 1, |c.bits|);
    }
  }

  lemma TurnStep(c: Clock)
    requires c.hand < |c.bits|
    ensures ValidClock(c)
    ensures var next := (c.hand + 1) % |c.bits|;
      var d := Clock(c.bits[c.hand := !c.bits[c.hand]], next);
      && next < |c.bits| && ValidClock(d)
      && if c.bits[c.hand]
         then Turn(c) == Turn(d).(probes := Turn(d).probes + 1) && Trues(d.bits) < Trues(c.bits)
         else Turn(c) == Found(d, c.hand, 1)
  {
    if c.bits[c.hand] {
      TruesAfterClear(c.bits, c.hand);
    }
  }

  /** The bit `i` places ahead of the hand after a turn of some probes that ends at `owner`. */
  function BitAfter(c: Clock, owner: nat, probes: nat, i: nat): bool
    requires ValidClock(c) && i < |c.bits|
  {
    var q := Ahead(c.hand, i, |c.bits|);
    if q == owner then true else if i + 1 < probes then false else c.bits[q]
  }

  lemma ClearOnce(c: Clock, owner: nat, probes: nat, i: nat)
    requires ValidClock(c) && i < |c.bits| && c.bits[c.hand] && probes >= 1
    ensures (c.hand + 1) % |c.bits| < |c.bits|
    ensures var d, k := Clock(c.bits[c.hand := false], (c.hand + 1) % |c.bits|), if i == 0 then |c.bits| - 1 else i - 1;
      && Ahead(d.hand, k, |c.bits|) == Ahead(c.hand, i, |c.bits|)
      && ((k + 1 < probes ==> d.bits[Ahead(d.hand, k, |c.bits|)]) ==>
            && (i + 1 < probes + 1 ==> c.bits[Ahead(c.hand, i, |c.bits|)])
            && BitAfter(d, owner, probes, k) == BitAfter(c, owner, probes + 1, i))
  {
    NextHand(c.hand, |c.bits|);
  }

  /** The hand passes set bits only and clears them, sets the bit it stops at, and touches no other. */
  lemma {:induction false} TurnClears(c: Clock, i: nat)
    requires ValidClock(c) && i < |c.bits|
    ensures ValidClock(Turn(c).clock) && |Turn(c).clock.bits| == |c.bits| && 1 <= Turn(c).probes
    ensures i + 1 < Turn(c).probes ==> c.bits[Ahead(c.hand, i, |c.bits|)]
    ensures Turn(c).clock.bits[Ahead(c.hand, i, |c.bits|)] == BitAfter(c, Turn(c).owner, Turn(c).probes, i)
    decreases Trues(c.bits)
  {
    var n := |c.bits|;
    TurnStops(c);
    TurnStep(c);
    hide Turn, Trues;
    if c.bits[c.hand] {
      var d := Clock(c.bits[c.hand := false], (c.hand + 1) % n);
      TurnStops(d);
      TurnClears(d, if i == 0 then n - 1 else i - 1);
      hide BitAfter, Ahead;
      ClearOnce(c, Turn(d).owner, Turn(d).probes, i);
    }
  }

  /** From `c` the hand stops after some probes at `owner`: the first worker whose bit is clear once it is met. */
  ghost predicate StopsAt(c: Clock, owner: nat, probes: nat, after: Clock)
  {
    && ValidClock(c) && |after.bits| == |c.bits| && 1 <= probes <= |c.bits| + 1
    && owner == Ahead(c.hand, probes - 1, |c.bits|) && after.hand == (owner + 1) % |c.bits|
    && (probes <= |c.bits| ==> !c.bits[owner])
    && forall i: nat :: i < |c.bits| ==>
         && (i + 1 < probes ==> c.bits[Ahead(c.hand, i, |c.bits|)])
         && after.bits[Ahead(c.hand, i, |c.bits|)] == BitAfter(c, owner, probes, i)
  }

  lemma TurnIsStop(c: Clock)
    requires ValidClock(c)
    ensures StopsAt(c, Turn(c).owner, Turn(c).probes, Turn(c).clock)
  {
    TurnStops(c);
    TurnMeetsClear(c);
    hide Turn, Trues, Ahead, BitAfter;
    forall i: nat | i < |c.bits|
      ensures i + 1 < Turn(c).probes ==> c.bits[Ahead(c.hand, i, |c.bits|)]
      ensures Turn(c).clock.bits[Ahead(c.hand, i, |c.bits|)] == BitAfter(c, Turn(c).owner, Turn(c).probes, i)
    {
      TurnClears(c, i);
    }
  }

  lemma {:induction false} TurnMeetsClear(c: Clock)
    requires ValidClock(c)
    ensures 1 <= Turn(c).probes && Turn(c).owner < |c.bits|
    ensures Turn(c).probes <= |c.bits| ==> !c.bits[Turn(c).owner]
    decreases Trues(c.bits)
  {
    TurnStops(c);
    TurnStep(c);
    NextHand(c.hand, |c.bits|);
    hide Turn, Trues;
    if c.bits[c.hand] {
      var d := Clock(c.bits[c.hand := false], (c.hand + 1) % |c.bits|);
      TurnStops(d);
      TurnMeetsClear(d);
    }
  }

  /** After some probes the rest of the turn starts at `c`. */
  ghost predicate Towards(goal: Found, c: Clock, probes: nat)
  {
    ValidClock(c) && goal == Turn(c).(probes := Turn(c).probes + probes)
  }

  /** A set bit is cleared and the hand moves on. */
  lemma ProbeSet(goal: Found, c: Clock, probes: nat)
    requires Towards(goal, c, probes) && c.hand < |c.bits| && c.bits[c.hand]
    ensures var d := Clock(c.bits[c.hand := false], (c.hand + 1) % |c.bits|);
      Towards(goal, d, probes + 1) && Trues(d.bits) < Trues(c.bits)
  {
    TurnStep(c);
    hide Turn, Trues;
  }

  /** A clear bit ends the turn. */
  lemma ProbeClear(goal: Found, c: Clock, probes: nat)
    requires Towards(goal, c, probes) && c.hand < |c.bits| && !c.bits[c.hand]
    ensures goal == Found(Clock(c.bits[c.hand := true], (c.hand + 1) % |c.bits|), c.hand, probes + 1)
  {
    TurnStep(c);
    hide Turn, Trues;
  }

  lemma StartTowards(c: Clock)
    requires c.hand < |c.bits|
    ensures ValidClock(c) && Towards(Turn(c), c, 0)
  {
    hide Turn;
  }

  lemma NextInRange(offset: nat, n: nat)
    requires offset < n
    ensures (offset + 1) % n < n
  {
  }

  /** The inner loop `while(continue_clock)`. */
  method FindOwner(bits: array<bool>, offset: nat) returns (owner: nat, offset': nat, ghost probes: nat)
    requires offset < bits.Length
    modifies bits
    ensures Found(Clock(bits[..], offset'), owner, probes) == Turn(Clock(old(bits[..]), offset))
    ensures owner < bits.Length && offset' < bits.Length && 1 <= probes <= bits.Length + 1
  {
    hide *;
    StartTowards(Clock(bits[..], offset));
    TurnStops(Clock(bits[..], offset));
    ghost var goal := Turn(Clock(bits[..], offset));
    var continueClock := true;
    owner, offset', probes := 0, offset, 0;
    while continueClock
      invariant offset' < bits.Length
      invariant if continueClock then Towards(goal, Clock(bits[..], offset'), probes)
                else goal == Found(Clock(bits[..], offset'), owner, probes)
      decreases continueClock, Trues(bits[..])
    {
      ghost var before := bits[..];
      NextInRange(offset', bits.Length);
      if !bits[offset'] {
        ProbeClear(goal, Clock(before, offset'), probes);
        bits[offset'] := true;
        owner := offset';
        continueClock := false;
        assert bits[..] == before[offset' := true];
      } else {
        ProbeSet(goal, Clock(before, offset'), probes);
        bits[offset'] := false;
        assert bits[..] == before[offset' := false];
      }
      offset' := (offset' + 1) % bits.Length;
      probes := probes + 1;
    }
  }

  // ----- a whole block

  type Owners = map<(nat, nat), nat>   // edge_to_worker_map

  /** The worker of an update: the owner of its ordered pair. */
  function PairOwner(owners: Owners): Update -> nat
  {
    (u: Update) => if (u.src, u.dst) in owners then owners[(u.src, u.dst)] else 0
  }

  lemma PairOwnerIsSticky(owners: Owners)
    ensures Sticky(true, PairOwner(owners))
  {
  }

  lemma {:induction false} SharesAgree(o1: Update -> nat, o2: Update -> nat, s: seq<Update>, w: nat)
    requires forall u :: u in s ==> o1(u) == o2(u)
    ensures Share(o1, s, w) == Share(o2, s, w)
    decreases |s|
  {
    if s != [] {
      assert forall u :: u in s[..|s| - 1] ==> u in s;
      SharesAgree(o1, o2, s[..|s| - 1], w);
      assert s[|s| - 1] in s;
    }
  }

  /** The owners and the clock after a block. */
  function Partition(block: seq<Update>, workers: nat): (Owners, Clock)
    requires workers > 0
    ensures ValidClock(Partition(block, workers).1) && |Partition(block, workers).1.bits| == workers
    decreases |block|
  {
    if block == [] then (map[], Clock(seq(workers, _ => false), 0))
    else
      var (owners, clock) := Partition(block[..|block| - 1], workers);
      var u := block[|block| - 1];
      AssignOne(owners, clock, u)
  }

  function AssignOne(owners: Owners, clock: Clock, u: Update): (r: (Owners, Clock))
    requires ValidClock(clock)
    ensures ValidClock(r.1) && |r.1.bits| == |clock.bits|
  {
    var pair := (u.src, u.dst);
    if pair in owners then
      (owners, if owners[pair] < |clock.bits| then clock.(bits := clock.bits[owners[pair] := true]) else clock)
    else
      TurnStops(clock);
      (owners[pair := Turn(clock).owner], Turn(clock).clock)
  }

  ghost predicate OwnersInRange(owners: Owners, workers: nat)
  {
    forall p :: p in owners ==> owners[p] < workers
  }

  lemma PartitionLast(block: seq<Update>, workers: nat)
    requires workers > 0 && block != []
    ensures var (owners, clock) := Partition(block[..|block| - 1], workers);
      Partition(block, workers) == AssignOne(owners, clock, block[|block| - 1])
  {
    hide AssignOne;
  }

  lemma AssignKeeps(owners: Owners, clock: Clock, u: Update)
    requires ValidClock(clock) && OwnersInRange(owners, |clock.bits|)
    ensures OwnersInRange(AssignOne(owners, clock, u).0, |clock.bits|)
    ensures AssignOne(owners, clock, u).0.Keys == owners.Keys + {(u.src, u.dst)}
    ensures forall p :: p in owners ==> AssignOne(owners, clock, u).0[p] == owners[p]
  {
    TurnStops(clock);
    hide Turn;
  }

  /** Owners only grow, so an assignment is never revised, and exactly the pairs of the block have one. */
  lemma {:induction false} OwnersAreKept(block: seq<Update>, workers: nat, k: nat)
    requires workers > 0 && k <= |block|
    ensures var early, late := Partition(block[..k], workers).0, Partition(block, workers).0;
      && OwnersInRange(late, workers)
      && (forall p :: p in early ==> p in late && late[p] == early[p])
      && (forall p :: p in late <==> exists u :: u in block && p == (u.src, u.dst))
    decreases |block|
  {
    if block == [] {
      assert block[..k] == block;
    } else {
      var front, last := block[..|block| - 1], block[|block| - 1];
      OwnersAreKept(front, workers, if k < |block| then k else k - 1);
      PartitionLast(block, workers);
      AssignKeeps(Partition(front, workers).0, Partition(front, workers).1, last);
      hide *;
      assert block == front + [last];
      if k < |block| {
        assert front[..k] == block[..k];
      } else {
        assert block[..k] == block;
      }
      forall p
        ensures p in Partition(block, workers).0 <==> exists u :: u in block && p == (u.src, u.dst)
      {
        if p == (last.src, last.dst) { assert last in block; }
        if u :| u in front && p == (u.src, u.dst) { assert u in block; }
      }
    }
  }

  // ----- the clock along a block

  predicate SamePair(u: Update, v: Update)
  {
    u.src == v.src && u.dst == v.dst
  }

  lemma PairsOfBlock(block: seq<Update>, workers: nat, u: Update)
    requires workers > 0
    ensures (u.src, u.dst) in Partition(block, workers).0 <==> exists j :: 0 <= j < |block| && SamePair(block[j], u)
    ensures OwnersInRange(Partition(block, workers).0, workers)
  {
    OwnersAreKept(block, workers, |block|);
    hide Partition;
    if v :| v in block && (u.src, u.dst) == (v.src, v.dst) {
      var j :| 0 <= j < |block| && block[j] == v;
      assert SamePair(block[j], u);
    }
    if j :| 0 <= j < |block| && SamePair(block[j], u) {
      assert block[j] in block;
    }
  }

  lemma PartitionNext(block: seq<Update>, workers: nat, k: nat)
    requires workers > 0 && k < |block|
    ensures var (owners, clock) := Partition(block[..k], workers);
      ValidClock(clock) && Partition(block[..k + 1], workers) == AssignOne(owners, clock, block[k])
  {
    assert block[..k + 1][..k] == block[..k];
    PartitionLast(block[..k + 1], workers);
  }

  /** Whenever an update is handed out, the bit of its worker is set. */
  lemma OwnerIsMarked(block: seq<Update>, workers: nat, k: nat)
    requires workers > 0 && k < |block|
    ensures var (owners, clock) := Partition(block[..k + 1], workers);
      && |clock.bits| == workers && (block[k].src, block[k].dst) in owners
      && owners[(block[k].src, block[k].dst)] < workers && clock.bits[owners[(block[k].src, block[k].dst)]]
  {
    PartitionNext(block, workers, k);
    PairsOfBlock(block[..k], workers, block[k]);
    TurnStops(Partition(block[..k], workers).1);
    hide Partition, Turn;
  }

  /** An update of a pair that came before turns no hand and changes no other bit. */
  lemma KnownPairKeepsTheHand(block: seq<Update>, workers: nat, j: nat, k: nat)
    requires workers > 0 && j < k < |block| && SamePair(block[j], block[k])
    ensures var (owners, clock) := Partition(block[..k], workers);
      var (owners', clock') := Partition(block[..k + 1], workers);
      && owners' == owners && clock'.hand == clock.hand && |clock'.bits| == |clock.bits| == workers
      && forall w :: 0 <= w < workers ==>
           clock'.bits[w] == (clock.bits[w] || PairOwner(owners)(block[k]) == w)
  {
    PartitionNext(block, workers, k);
    PairsOfBlock(block[..k], workers, block[k]);
    assert SamePair(block[..k][j], block[k]);
    hide Partition, Turn;
  }

  /** A new pair goes to the worker where the hand stops, and the other pairs keep theirs. */
  lemma NewPairTurnsTheHand(block: seq<Update>, workers: nat, k: nat)
    requires workers > 0 && k < |block| && forall j :: 0 <= j < k ==> !SamePair(block[j], block[k])
    ensures var (owners, clock) := Partition(block[..k], workers);
      var (owners', clock') := Partition(block[..k + 1], workers);
      var pair := (block[k].src, block[k].dst);
      && pair in owners' && owners' == owners[pair := owners'[pair]]
      && exists probes :: StopsAt(clock, owners'[pair], probes, clock')
  {
    PartitionNext(block, workers, k);
    PairsOfBlock(block[..k], workers, block[k]);
    TurnIsStop(Partition(block[..k], workers).1);
    hide Partition, Turn, StopsAt;
  }

  lemma ShareAfterPick(before: Owners, after: Owners, block: seq<Update>, j: nat, w: nat)
    requires j < |block| && forall u :: u in block[..j] ==> PairOwner(before)(u) == PairOwner(after)(u)
    ensures Share(PairOwner(after), block[..j + 1], w) ==
      Share(PairOwner(before), block[..j], w) + if PairOwner(after)(block[j]) == w then [block[j]] else []
  {
    SharesAgree(PairOwner(before), PairOwner(after), block[..j], w);
    assert block[..j + 1] == block[..j] + [block[j]];
    FilterAppend(block[..j], block[j], v => PairOwner(after)(v) == w);
  }

  /** The worker for one update: its owner if the pair has one, else whatever the clock says. */
  method PickWorker(owners: Owners, bits: array<bool>, offset: nat, u: Update)
    returns (owner: nat, owners': Owners, offset': nat)
    requires offset < bits.Length && OwnersInRange(owners, bits.Length)
    modifies bits
    ensures owner < bits.Length && offset' < bits.Length
    ensures (owners', Clock(bits[..], offset')) == AssignOne(owners, Clock(old(bits[..]), offset), u)
    ensures owner == PairOwner(owners')(u)
    ensures forall p :: p in owners ==> p in owners' && owners'[p] == owners[p]
  {
    var pair := (u.src, u.dst);
    if pair !in owners {
      ghost var probes;
      owner, offset', probes := FindOwner(bits, offset);
      owners' := owners[pair := owner];
    } else {
      owner, offset', owners' := owners[pair], offset, owners;
      bits[owner] := true;
      assert bits[..] == old(bits[..])[owner := true];
    }
  }

  /**
   The loop of the master over one block. Worker `w` receives exactly the updates of the pairs it
   owns, in log order.
   */
  method PartitionBlock(block: seq<Update>, workers: nat) returns (owners: Owners, lists: seq<seq<Update>>)
    requires workers > 0
    ensures owners == Partition(block, workers).0 && |lists| == workers
    ensures forall w: nat :: w < workers ==> lists[w] == Share(PairOwner(owners), block, w)
  {
    var bits := new bool[workers](_ => false);
    var offset: nat := 0;
    owners, lists := map[], seq(workers, _ => []);
    assert bits[..] == seq(workers, _ => false);
    assert block[..0] == [];
    for j := 0 to |block|
      invariant |lists| == workers && offset < workers && bits.Length == workers && fresh(bits)
      invariant Partition(block[..j], workers) == (owners, Clock(bits[..], offset))
      invariant forall w: nat :: w < workers ==> lists[w] == Share(PairOwner(owners), block[..j], w)
    {
      var u := block[j];
      ghost var before := owners;
      assert block[..j + 1][..j] == block[..j];
      OwnersAreKept(block[..j], workers, j);
      var owner;
      owner, owners, offset := PickWorker(owners, bits, offset, u);
      lists := lists[owner := lists[owner] + [u]];
      forall w: nat | w < workers
        ensures lists[w] == Share(PairOwner(owners), block[..j + 1], w)
      {
        ShareAfterPick(before, owners, block, j, w);
      }
    }
    assert block[..|block|] == block;
  }

  /** On a directed graph the even partition is as good as the hash: every interleaving replays the block. */
  lemma EvenPartitionIsSerializable(g: State, block: seq<Update>, workers: nat, trace: seq<Update>)
    requires workers > 0 && Interleaves(PairOwner(Partition(block, workers).0), block, trace)
    ensures Serial(true, g, trace) == Serial(true, g, block)
  {
    PairOwnerIsSticky(Partition(block, workers).0);
    ReplayIsSerializable(true, PairOwner(Partition(block, workers).0), g, block, trace);
  }

  lemma FirstPair(u: Update)
    ensures Partition([u], 2) == (map[(u.src, u.dst) := 0], Clock([true, false], 1))
  {
    PartitionLast([u], 2);
    assert [u][..0] == [];
    var c := Partition([], 2).1;
    assert c == Clock([false, false], 0);
    TurnStep(c);
    assert c.bits[0 := true] == [true, false];
  }

  lemma SecondPair(a: Update, b: Update)
    requires (a.src, a.dst) != (b.src, b.dst)
    ensures Partition([a, b], 2).0 == map[(a.src, a.dst) := 0, (b.src, b.dst) := 1]
  {
    FirstPair(a);
    PartitionLast([a, b], 2);
    assert [a, b][..1] == [a];
    TurnStep(Clock([true, false], 1));
    hide Partition, Turn;
  }

  /** Two updates of different workers can run in either order. */
  lemma EitherOrder(owner: Update -> nat, a: Update, b: Update, w: nat)
    requires owner(a) != owner(b)
    ensures Share(owner, [b, a], w) == Share(owner, [a, b], w)
  {
    var keep := u => owner(u) == w;
    FilterAppend([], a, keep);
    FilterAppend([], b, keep);
    FilterAppend([a], b, keep);
    FilterAppend([b], a, keep);
    assert [] + [a] == [a] && [] + [b] == [b] && [a] + [b] == [a, b] && [b] + [a] == [b, a];
  }

  lemma LastPutWins(a: Update, b: Update)
    requires a.src == b.dst && a.dst == b.src && a.src != a.dst && a.weight > 0 && b.weight > 0
    ensures (a.src, a.dst) in Serial(false, State({}, map[]), [a, b]).edges
    ensures Serial(false, State({}, map[]), [a, b]).edges[(a.src, a.dst)] == b.weight
  {
    assert [a, b][..1] == [a] && [a][..0] == [];
  }

  /**
   On an undirected graph it is not: the two directions of one edge get different workers, and an
   interleaving of the two updates leaves the edge with the weight of the earlier one.
   */
  lemma ReversedPairsAreNotOrdered()
    ensures var block := [Update(1, 2, 5), Update(2, 1, 7)];
      var trace := [Update(2, 1, 7), Update(1, 2, 5)];
      && Interleaves(PairOwner(Partition(block, 2).0), block, trace)
      && Serial(false, State({}, map[]), trace) != Serial(false, State({}, map[]), block)
  {
    var a, b := Update(1, 2, 5), Update(2, 1, 7);
    SecondPair(a, b);
    var owner := PairOwner(Partition([a, b], 2).0);
    assert owner(a) == 0 && owner(b) == 1;
    LastPutWins(a, b);
    LastPutWins(b, a);
    LastPutIsMirrored(a, b);
    hide Partition, PairOwner, Serial, Share;
    forall w: nat
      ensures Share(owner, [b, a], w) == Share(owner, [a, b], w)
    {
      EitherOrder(owner, a, b, w);
    }
  }

  lemma LastPutIsMirrored(a: Update, b: Update)
    requires a.src == b.dst && a.dst == b.src && a.src != a.dst && a.weight > 0 && b.weight > 0
    ensures (b.src, b.dst) in Serial(false, State({}, map[]), [a, b]).edges
    ensures Serial(false, State({}, map[]), [a, b]).edges[(b.src, b.dst)] == b.weight
  {
    assert [a, b][..1] == [a] && [a][..0] == [];
  }
}
