/**
 The ring of batches between the thread that issues updates and the thread that applies them
 (experiment/details/async_batch.cpp), as a transition system.

 Every critical section is one step. A thread in `condvar.wait` is either asleep or woken; a
 woken thread takes the lock again and re-evaluates its predicate. `notify_all` is a step of its
 own wherever the code calls it outside the lock, so lost wake-ups would show.
 */
module AsyncBatches {
  import opened Replay

  // What the producer does after a flush.
  datatype After = ThenFill(u: Update) | ThenReturn(synchronise: bool) | ThenDestroy

  datatype ProducerPc =
    | CtorWait(asleep: bool)
    | Ready                                   // outside any call
    | Adding(u: Update)                       // add_edge or remove_edge was called
    | Filling(u: Update)                      // there is room in the current batch
    | FlushEnter(after: After)
    | FlushWait(after: After, asleep: bool)   // all batches are in use
    | FlushNotify(after: After)
    | SyncEnter(after: After)
    | SyncWait(after: After, asleep: bool)    // waiting for the consumer to catch up
    | Stopping
    | StopNotify
    | Joining
    | Gone                                    // destroyed

  datatype ConsumerPc =
    | Boot
    | BootNotify
    | WaitEnter
    | Waiting(asleep: bool)
    | Sending(k: nat)                         // entry `k` of the batch at `sendIndex` is next
    | Finish
    | LastNotify
    | Ended

  datatype State = State(
    sz: nat,                      // m_batches_sz
    cap: nat,                     // m_batch_sz
    slots: seq<seq<Update>>,      // m_batches
    entries: seq<nat>,            // m_batches_num_entries
    batchIndex: nat,
    batchPos: nat,
    sendIndex: nat,
    upto: int,                    // m_send_upto
    p: ProducerPc,
    c: ConsumerPc,
    calls: seq<Update>,           // the updates passed to add_edge and remove_edge so far
    delivered: seq<Update>)       // what the library received so far

  // ----- steps

  function WakeConsumer(s: State): State
  {
    if s.c.Waiting? then s.(c := Waiting(false)) else s
  }

  function WakeProducer(s: State): State
  {
    match s.p
    case CtorWait(_) => s.(p := CtorWait(false))
    case FlushWait(after, _) => s.(p := FlushWait(after, false))
    case SyncWait(after, _) => s.(p := SyncWait(after, false))
    case _ => s
  }

  predicate Synchronises(after: After)
  {
    after.ThenDestroy? || (after.ThenReturn? && after.synchronise)
  }

  function Resume(after: After): ProducerPc
  {
    match after
    case ThenFill(u) => Filling(u)
    case ThenReturn(_) => Ready
    case ThenDestroy => Stopping
  }

  /** Hand the current batch over, if it holds anything. */
  function Send(s: State): State
    requires s.batchIndex < |s.entries| && s.sz > 0
  {
    if s.batchPos > 0 then
      s.(entries := s.entries[s.batchIndex := s.batchPos], batchPos := 0,
         batchIndex := (s.batchIndex + 1) % s.sz, upto := s.upto + 1)
    else s
  }

  ghost predicate InBounds(s: State)
  {
    && s.sz >= 1 && s.cap >= 1
    && |s.slots| == s.sz && |s.entries| == s.sz
    && (forall i :: 0 <= i < s.sz ==> |s.slots[i]| == s.cap && s.entries[i] <= s.cap)
    && s.batchIndex < s.sz && s.sendIndex < s.sz && s.batchPos <= s.cap
    && (s.p.Filling? ==> s.batchPos < s.cap)
    && (s.c.Sending? ==> s.c.k <= s.entries[s.sendIndex])
  }

  predicate ProducerEnabled(s: State)
  {
    match s.p
    case Ready => false
    case CtorWait(asleep) => !asleep
    case FlushWait(_, asleep) => !asleep
    case SyncWait(_, asleep) => !asleep
    case Joining => s.c.Ended?
    case Gone => false
    case _ => true
  }

  function ProducerStep(s: State): State
    requires InBounds(s) && ProducerEnabled(s)
  {
    match s.p
    case CtorWait(_) => s.(p := if s.upto == 0 then Ready else CtorWait(true))
    case Adding(u) => s.(p := if s.batchPos == s.cap then FlushEnter(ThenFill(u)) else Filling(u))
    case Filling(u) =>
      s.(slots := s.slots[s.batchIndex := s.slots[s.batchIndex][s.batchPos := u]], batchPos := s.batchPos + 1,
        p := Ready)
    case FlushEnter(after) =>
      if s.upto >= s.sz - 1 then s.(p := FlushWait(after, true)) else Send(s).(p := FlushNotify(after))
    case FlushWait(after, _) =>
      if s.upto >= s.sz - 1 then s.(p := FlushWait(after, true)) else Send(s).(p := FlushNotify(after))
    case FlushNotify(after) => WakeConsumer(s).(p := if Synchronises(after) then SyncEnter(after) else Resume(after))
    case SyncEnter(after) => s.(p := if s.upto == 0 then Resume(after) else SyncWait(after, true))
    case SyncWait(after, _) => s.(p := if s.upto == 0 then Resume(after) else SyncWait(after, true))
    case Stopping => s.(upto := -1, p := StopNotify)
    case StopNotify => WakeConsumer(s).(p := Joining)
    case Joining => s.(p := Gone)
  }

  predicate ConsumerEnabled(s: State)
  {
    match s.c
    case Waiting(asleep) => !asleep
    case Ended => false
    case _ => true
  }

  /** The predicate of the consumer's wait is evaluated, and the next job taken if it holds. */
  function Take(s: State): State
  {
    if s.upto == 0 then s.(c := Waiting(true))
    else if s.upto == -1 then s.(upto := -2, c := LastNotify)
    else s.(c := Sending(0))
  }

  function ConsumerStep(s: State): State
    requires InBounds(s) && ConsumerEnabled(s)
  {
    match s.c
    case Boot => s.(upto := 0, c := BootNotify)
    case BootNotify => WakeProducer(s).(c := WaitEnter)
    case WaitEnter => Take(s)
    case Waiting(_) => Take(s)
    case Sending(k) =>
      if k < s.entries[s.sendIndex] then
        s.(delivered := s.delivered + [s.slots[s.sendIndex][k]], c := Sending(k + 1))
      else
        s.(sendIndex := (s.sendIndex + 1) % s.sz, c := Finish)
    case Finish => Take(WakeProducer(s.(upto := s.upto - 1)))
    case LastNotify => WakeProducer(s).(c := Ended)
  }

  // What the owner of the object may do when no call is in progress.
  datatype Call = Add(u: Update) | Flush(synchronise: bool) | Destroy

  function Invoke(s: State, call: Call): State
    requires s.p.Ready?
  {
    match call
    case Add(u) => s.(calls := s.calls + [u], p := Adding(u))
    case Flush(synchronise) => s.(p := FlushEnter(ThenReturn(synchronise)))
    case Destroy => s.(p := FlushEnter(ThenDestroy))
  }

  /** The constructor holds the lock until it waits for the new thread. */
  ghost predicate Init(s: State)
  {
    && InBounds(s)
    && s.batchIndex == 0 && s.batchPos == 0 && s.sendIndex == 0 && s.upto == 1
    && s.p == CtorWait(true) && s.c == Boot
    && s.calls == [] && s.delivered == []
  }

  /** One step of a thread; `spurious` allows a sleeping thread to wake without a notification. */
  ghost predicate ThreadStep(s: State, s': State)
    requires InBounds(s)
  {
    || (ProducerEnabled(s) && s' == ProducerStep(s))
    || (ConsumerEnabled(s) && s' == ConsumerStep(s))
  }

  ghost predicate Spurious(s: State, s': State)
  {
    s' == WakeProducer(s) || s' == WakeConsumer(s)
  }

  ghost predicate Next(s: State, s': State)
    requires InBounds(s)
  {
    || ThreadStep(s, s')
    || Spurious(s, s')
    || (s.p.Ready? && exists call :: s' == Invoke(s, call))
  }

  // ----- the ring

  function Following(i: nat, sz: nat): nat
    requires i < sz
  {
    if i + 1 == sz then 0 else i + 1
  }

  lemma FollowingIsMod(i: nat, sz: nat)
    requires i < sz
    ensures (i + 1) % sz == Following(i, sz)
  {
    if i + 1 < sz {
      RemainderIs(i + 1, sz, 0, i + 1);
    } else {
      RemainderIs(i + 1, sz, 1, 0);
    }
  }

  /** The slot `k` places after `i`. */
  function Slot(i: nat, k: nat, sz: nat): nat
    requires i < sz && k <= sz
  {
    if i + k < sz then i + k else i + k - sz
  }

  /** The number of handed-over batches whose slot the consumer may still read. */
  function Pending(s: State): int
  {
    if s.c.Boot? || s.upto < 0 then 0 else if s.c.Finish? then s.upto - 1 else s.upto
  }

  /** The contents of `count` batches, from slot `i` on. */
  function Queued(slots: seq<seq<Update>>, entries: seq<nat>, i: nat, count: nat): seq<Update>
    requires |slots| == |entries| && i < |slots| && forall j :: 0 <= j < |slots| ==> entries[j] <= |slots[j]|
    decreases count
  {
    if count == 0 then [] else slots[i][..entries[i]] + Queued(slots, entries, Following(i, |slots|), count - 1)
  }

  /** The call in progress has an update that is in no batch yet. */
  function InFlight(p: ProducerPc): seq<Update>
  {
    match p
    case Adding(u) => [u]
    case Filling(u) => [u]
    case FlushEnter(after) => if after.ThenFill? then [after.u] else []
    case FlushWait(after, _) => if after.ThenFill? then [after.u] else []
    case FlushNotify(after) => if after.ThenFill? then [after.u] else []
    case _ => []
  }

  function AlreadySent(c: ConsumerPc): nat
  {
    if c.Sending? then c.k else 0
  }

  ghost predicate Ring(s: State)
  {
    && InBounds(s)
    && 0 <= Pending(s) <= s.sz - 1
    && Slot(s.sendIndex, Pending(s), s.sz) == s.batchIndex
    && (s.c.Sending? ==> Pending(s) >= 1)
    && var queued := Queued(s.slots, s.entries, s.sendIndex, Pending(s));
       && AlreadySent(s.c) <= |queued|
       && s.calls == s.delivered + queued[AlreadySent(s.c)..] + s.slots[s.batchIndex][..s.batchPos] + InFlight(s.p)
  }

  // ----- control

  predicate Stopped(p: ProducerPc)
  {
    p.StopNotify? || p.Joining? || p.Gone?
  }

  ghost predicate Control(s: State)
  {
    && (s.c.Boot? <==> s.p.CtorWait? && s.upto == 1)
    && (s.p.CtorWait? ==> s.c.Boot? || s.upto == 0)
    && (Stopped(s.p) <==> s.upto < 0)
    && (s.upto < 0 ==> s.upto == -1 || s.upto == -2)
    && (s.upto == -2 <==> s.c.LastNotify? || s.c.Ended?)
    && (s.p.Gone? ==> s.c.Ended?)
    && (s.c.Sending? || s.c.Finish? ==> s.upto >= 1)
    // a flush with `synchronise` has emptied the batch that was being filled
    && (s.p.FlushNotify? || s.p.SyncEnter? || s.p.SyncWait? || s.p.Stopping? || Stopped(s.p) ==> s.batchPos == 0)
    && (s.p.SyncEnter? || s.p.SyncWait? ==> Synchronises(s.p.after))
    && (s.p.Stopping? ==> s.upto == 0 && Pending(s) == 0)
    // nobody sleeps through its wake-up
    && (s.p == CtorWait(true) && s.upto == 0 ==> s.c.BootNotify?)
    && (s.p.FlushWait? && s.p.asleep ==> s.upto >= s.sz - 1)
    && (s.p.SyncWait? && s.p.asleep ==> s.upto != 0)
    && (s.c == Waiting(true) && s.upto != 0 ==> s.p.FlushNotify? || s.p.StopNotify?)
  }

  ghost predicate Inv(s: State)
  {
    s.sz >= 2 && Ring(s) && Control(s)
  }

  // ----- queued batches

  lemma {:induction false} QueuedFrame(slots: seq<seq<Update>>, entries: seq<nat>, slots': seq<seq<Update>>,
      entries': seq<nat>,
                                       i: nat, count: nat, b: nat)
    requires |slots| == |entries| == |slots'| == |entries'| && i < |slots| && b < |slots| && count < |slots|
    requires forall j :: 0 <= j < |slots| ==> entries[j] <= |slots[j]| && entries'[j] <= |slots'[j]|
    requires forall j :: 0 <= j < |slots| && j != b ==> slots'[j] == slots[j] && entries'[j] == entries[j]
    requires forall k: nat :: k < count ==> Slot(i, k, |slots|) != b
    ensures Queued(slots', entries', i, count) == Queued(slots, entries, i, count)
    decreases count
  {
    if count > 0 {
      assert Slot(i, 0, |slots|) == i;
      forall k: nat | k < count - 1
        ensures Slot(Following(i, |slots|), k, |slots|) != b
      {
        assert Slot(Following(i, |slots|), k, |slots|) == Slot(i, k + 1, |slots|);
      }
      QueuedFrame(slots, entries, slots', entries', Following(i, |slots|), count - 1, b);
    }
  }

  lemma {:induction false} QueuedAppend(slots: seq<seq<Update>>, entries: seq<nat>, i: nat, count: nat)
    requires |slots| == |entries| && i < |slots| && count < |slots|
    requires forall j :: 0 <= j < |slots| ==> entries[j] <= |slots[j]|
    ensures var last := Slot(i, count, |slots|);
      Queued(slots, entries, i, count + 1) == Queued(slots, entries, i, count) + slots[last][..entries[last]]
    decreases count
  {
    if count > 0 {
      QueuedAppend(slots, entries, Following(i, |slots|), count - 1);
      assert Slot(Following(i, |slots|), count - 1, |slots|) == Slot(i, count, |slots|);
    }
  }

  /** The batch that is being filled is none of those the consumer may read. */
  lemma FillingIsPrivate(s: State)
    requires s.sz >= 2 && Ring(s)
    ensures forall k: nat :: k < Pending(s) ==> Slot(s.sendIndex, k, s.sz) != s.batchIndex
    ensures s.c.Sending? ==> s.sendIndex != s.batchIndex
  {
    if s.c.Sending? {
      assert Slot(s.sendIndex, 0, s.sz) == s.sendIndex;
    }
  }

  // ----- every step keeps the invariant

  lemma FillKeeps(s: State)
    requires Inv(s) && s.p.Filling?
    ensures Ring(ProducerStep(s))
  {
    var s' := ProducerStep(s);
    var b := s.batchIndex;
    FillingIsPrivate(s);
    QueuedFrame(s.slots, s.entries, s'.slots, s'.entries, s.sendIndex, Pending(s), b);
    assert s'.slots[b][..s'.batchPos] == s.slots[b][..s.batchPos] + [s.p.u];
  }

  /** The contents after `Send`: the batch being filled joins the end of the queue. */
  lemma SendQueues(s: State)
    requires s.sz >= 2 && Ring(s) && s.upto < s.sz - 1 && s.batchPos > 0 && Pending(s) < s.sz - 1
    ensures var s' := Send(s); var b := s.batchIndex;
      && InBounds(s'.(p := Ready)) && s'.batchIndex == Following(b, s.sz)
      && Queued(s'.slots, s'.entries, s.sendIndex, Pending(s) + 1)
         == Queued(s.slots, s.entries, s.sendIndex, Pending(s)) + s.slots[b][..s.batchPos]
  {
    var s', b := Send(s), s.batchIndex;
    FillingIsPrivate(s);
    FollowingIsMod(b, s.sz);
    QueuedFrame(s.slots, s.entries, s'.slots, s'.entries, s.sendIndex, Pending(s), b);
    QueuedAppend(s'.slots, s'.entries, s.sendIndex, Pending(s));
  }

  lemma SendKeeps(s: State, after: After)
    requires Inv(s) && (s.p == FlushEnter(after) || exists asleep :: s.p == FlushWait(after, asleep))
    requires s.upto < s.sz - 1
    ensures Ring(Send(s).(p := FlushNotify(after)))
  {
    var s' := Send(s).(p := FlushNotify(after));
    if s.batchPos > 0 {
      SendQueues(s);
      var queued, handed := Queued(s.slots, s.entries, s.sendIndex, Pending(s)), s.slots[s.batchIndex][..s.batchPos];
      assert Pending(s') == Pending(s) + 1 && AlreadySent(s'.c) == AlreadySent(s.c) && InFlight(s'.p) == InFlight(s.p);
      assert Slot(s.sendIndex, Pending(s'), s.sz) == s'.batchIndex;
      MoveToQueue(s.delivered, queued, handed, InFlight(s.p), AlreadySent(s.c));
      assert s'.slots[s'.batchIndex][..0] == [];
      RingIntro(s', Pending(s'), queued + handed);
    } else {
      SameRing(s, s');
    }
  }

  lemma MoveToQueue(sent: seq<Update>, queued: seq<Update>, handed: seq<Update>, flight: seq<Update>, k: nat)
    requires k <= |queued|
    ensures sent + queued[k..] + handed + flight == sent + (queued + handed)[k..] + [] + flight
  {
    assert (queued + handed)[k..] == queued[k..] + handed;
  }

  lemma RingIntro(s: State, count: nat, queued: seq<Update>)
    requires InBounds(s) && count == Pending(s) <= s.sz - 1
    requires Slot(s.sendIndex, count, s.sz) == s.batchIndex
    requires s.c.Sending? ==> count >= 1
    requires queued == Queued(s.slots, s.entries, s.sendIndex, count) && AlreadySent(s.c) <= |queued|
    requires s.calls == s.delivered + queued[AlreadySent(s.c)..] + s.slots[s.batchIndex][..s.batchPos] + InFlight(s.p)
    ensures Ring(s)
  {
  }

  /** Steps that only move the program counters keep the ring. */
  lemma SameRing(s: State, s': State)
    requires Ring(s)
    requires s' == s.(p := s'.p, c := s'.c, upto := s'.upto)
    requires s'.p.Filling? ==> s.batchPos < s.cap
    requires s'.c.Sending? ==> Pending(s') >= 1 && s'.c.k <= s.entries[s.sendIndex]
    requires Pending(s') == Pending(s) && AlreadySent(s'.c) == AlreadySent(s.c) && InFlight(s'.p) == InFlight(s.p)
    ensures Ring(s')
  {
  }

  lemma SendOneKeeps(s: State)
    requires Inv(s) && s.c.Sending? && s.c.k < s.entries[s.sendIndex]
    ensures Ring(ConsumerStep(s))
  {
    var k := s.c.k;
    var batch := s.slots[s.sendIndex][..s.entries[s.sendIndex]];
    var queued := Queued(s.slots, s.entries, s.sendIndex, Pending(s));
    var rest := Queued(s.slots, s.entries, Following(s.sendIndex, s.sz), Pending(s) - 1);
    assert queued == batch + rest;
    assert queued[k] == s.slots[s.sendIndex][k];
    assert queued[k..] == [queued[k]] + queued[k + 1..];
  }

  lemma SentAllKeeps(s: State)
    requires Inv(s) && s.c.Sending? && s.c.k >= s.entries[s.sendIndex]
    ensures Ring(ConsumerStep(s))
  {
    var batch := s.slots[s.sendIndex][..s.entries[s.sendIndex]];
    var queued := Queued(s.slots, s.entries, s.sendIndex, Pending(s));
    var rest := Queued(s.slots, s.entries, Following(s.sendIndex, s.sz), Pending(s) - 1);
    FollowingIsMod(s.sendIndex, s.sz);
    assert queued == batch + rest;
    assert queued[s.c.k..] == rest;
  }

  lemma SendingKeeps(s: State)
    requires Inv(s) && s.c.Sending?
    ensures Ring(ConsumerStep(s))
  {
    InBoundsOf(s);
    SendingInBounds(s);
    hide Ring, Control, Queued, Inv, ConsumerStep;
    if s.c.k < s.entries[s.sendIndex] {
      SendOneKeeps(s);
    } else {
      SentAllKeeps(s);
    }
  }

  lemma SendingInBounds(s: State)
    requires Inv(s) && s.c.Sending?
    ensures s.sendIndex < |s.entries|
  {
    hide Queued;
  }

  lemma ProducerKeepsRing(s: State)
    requires Inv(s) && ProducerEnabled(s)
    ensures Ring(ProducerStep(s))
  {
    if s.p.Filling? {
      FillKeeps(s);
    } else if (s.p.FlushEnter? || s.p.FlushWait?) && s.upto < s.sz - 1 {
      SendKeeps(s, s.p.after);
    } else {
      InBoundsOf(s);
      hide Ring, Queued, InBounds;
      SameRing(s, ProducerStep(s));
    }
  }

  lemma ConsumerKeepsRing(s: State)
    requires Inv(s) && ConsumerEnabled(s)
    ensures Ring(ConsumerStep(s))
  {
    if s.c.Sending? {
      SendingKeeps(s);
    } else {
      InBoundsOf(s);
      hide Ring, Queued, InBounds;
      SameRing(s, ConsumerStep(s));
    }
  }

  lemma InBoundsOf(s: State)
    requires Inv(s)
    ensures Ring(s) && InBounds(s) && s.sendIndex < |s.entries| && s.batchPos <= s.cap
    ensures s.c.Finish? ==> Pending(s) >= 0
  {
  }

  lemma ProducerKeepsControl(s: State)
    requires Inv(s) && ProducerEnabled(s)
    ensures Control(ProducerStep(s))
  {
  }

  lemma ConsumerKeepsControl(s: State)
    requires Inv(s) && ConsumerEnabled(s)
    ensures Control(ConsumerStep(s))
  {
  }

  lemma InvokeKeeps(s: State, call: Call)
    requires Inv(s) && s.p.Ready?
    ensures Inv(Invoke(s, call))
  {
  }

  lemma SpuriousKeeps(s: State, s': State)
    requires Inv(s) && Spurious(s, s')
    ensures Inv(s')
  {
    InBoundsOf(s);
    assert Control(s');
    hide Ring, Queued, InBounds, Control;
    SameRing(s, s');
  }

  lemma InitHolds(s: State)
    requires Init(s) && s.sz >= 2
    ensures Inv(s)
  {
    assert s.slots[0][..0] == [];
  }

  lemma NextKeeps(s: State, s': State)
    requires Inv(s) && Next(s, s')
    ensures Inv(s') && s'.sz == s.sz
  {
    SizeIsFixed(s, s');
    hide *;
    if ProducerEnabled(s) && s' == ProducerStep(s) {
      ProducerKeepsRing(s);
      ProducerKeepsControl(s);
      assert Inv(s') by { InvIs(s'); }
    } else if ConsumerEnabled(s) && s' == ConsumerStep(s) {
      ConsumerKeepsRing(s);
      ConsumerKeepsControl(s);
      assert Inv(s') by { InvIs(s'); }
    } else if Spurious(s, s') {
      SpuriousKeeps(s, s');
    } else {
      NextIs(s, s');
      var call :| s' == Invoke(s, call);
      InvokeKeeps(s, call);
    }
  }

  lemma InvIs(s: State)
    requires s.sz >= 2 && Ring(s) && Control(s)
    ensures Inv(s)
  {
  }

  lemma NextIs(s: State, s': State)
    requires InBounds(s) && Next(s, s')
    ensures (ProducerEnabled(s) && s' == ProducerStep(s)) || (ConsumerEnabled(s) && s' == ConsumerStep(s))
      || Spurious(s, s')
      || (s.p.Ready? && exists call :: s' == Invoke(s, call))
  {
  }

  lemma SizeIsFixed(s: State, s': State)
    requires Inv(s) && Next(s, s')
    ensures InBounds(s) && s.sz >= 2 && s'.sz == s.sz
  {
    InBoundsOf(s);
    hide Inv, Ring, Control, InBounds;
    NextIs(s, s');
  }

  // ----- runs

  ghost predicate Run(run: seq<State>)
  {
    && run != [] && Init(run[0])
    && forall i :: 0 <= i < |run| - 1 ==> InBounds(run[i]) && Next(run[i], run[i + 1])
  }

  lemma {:induction false} RunKeeps(run: seq<State>, i: nat)
    requires Run(run) && run[0].sz >= 2 && i < |run|
    ensures Inv(run[i]) && run[i].sz == run[0].sz
  {
    if i == 0 {
      InitHolds(run[0]);
    } else {
      RunKeeps(run, i - 1);
      NextKeeps(run[i - 1], run[i - 1 + 1]);
    }
  }

  /** In every run the library receives a prefix of the calls: nothing is lost, doubled or reordered. */
  lemma DeliveredIsPrefix(run: seq<State>, i: nat)
    requires Run(run) && run[0].sz >= 2 && i < |run|
    ensures run[i].delivered <= run[i].calls
  {
    RunKeeps(run, i);
  }

  /** A synchronising flush is about to return, or the destructor is past its flush. */
  predicate CaughtUp(s: State)
  {
    ((s.p.SyncEnter? || s.p.SyncWait?) && s.upto == 0) || s.p.Stopping? || Stopped(s.p)
  }

  /**
   When a synchronising flush is about to return, and from then on until the object is gone, everything was received.
   */
  lemma FlushDelivers(run: seq<State>, i: nat)
    requires Run(run) && run[0].sz >= 2 && i < |run|
    ensures var s := run[i];
      CaughtUp(s) ==> s.delivered == s.calls
  {
    RunKeeps(run, i);
    var s := run[i];
    if CaughtUp(s) {
      assert Pending(s) == 0;
      assert s.slots[s.batchIndex][..0] == [];
    }
  }

  /**
   The producer writes only slots the consumer may not read, and `m_send_index` trails `m_batch_index` by the pending
   batches.
   */
  lemma RaceFree(run: seq<State>, i: nat)
    requires Run(run) && run[0].sz >= 2 && i < |run|
    ensures var s := run[i];
      && InBounds(s) && 0 <= Pending(s) <= s.sz - 1
      && (s.sendIndex + Pending(s)) % s.sz == s.batchIndex
      && (forall k: nat :: k < Pending(s) ==> Slot(s.sendIndex, k, s.sz) != s.batchIndex)
      && (s.c.Sending? ==> s.sendIndex != s.batchIndex)
  {
    RunKeeps(run, i);
    var s := run[i];
    FillingIsPrivate(s);
    SlotIsMod(s.sendIndex, Pending(s), s.sz);
  }

  lemma SlotIsMod(i: nat, k: nat, sz: nat)
    requires i < sz && k < sz
    ensures (i + k) % sz == Slot(i, k, sz)
  {
    if i + k < sz {
      RemainderIs(i + k, sz, 0, i + k);
    } else {
      RemainderIs(i + k, sz, 1, i + k - sz);
    }
  }

  lemma RemainderIs(a: nat, n: nat, q: nat, r: nat)
    requires r < n && a == q * n + r && q <= 1
    ensures a % n == r
  {
  }

  /** While a call is in progress some thread can move: there is no deadlock and no lost wake-up. */
  lemma NeverStuck(run: seq<State>, i: nat)
    requires Run(run) && run[0].sz >= 2 && i < |run|
    ensures var s := run[i]; s.p.Ready? || s.p.Gone? || ProducerEnabled(s) || ConsumerEnabled(s)
  {
    RunKeeps(run, i);
  }

  // ----- every call returns

  function Stage(p: ProducerPc): nat
  {
    match p
    case CtorWait(_) => 12
    case Adding(_) => 11
    case FlushEnter(_) => 10
    case FlushWait(_, _) => 9
    case FlushNotify(_) => 8
    case SyncEnter(_) => 7
    case SyncWait(_, _) => 6
    case Filling(_) => 5
    case Stopping => 4
    case StopNotify => 3
    case Joining => 2
    case Ready => 1
    case Gone => 0
  }

  function ConsumerStage(c: ConsumerPc): nat
  {
    match c
    case Boot => 7
    case BootNotify => 6
    case WaitEnter => 5
    case Waiting(_) => 4
    case Sending(_) => 3
    case Finish => 2
    case LastNotify => 1
    case Ended => 0
  }

  function Unsent(s: State): nat
    requires InBounds(s)
  {
    if s.c.Sending? then s.entries[s.sendIndex] - s.c.k else 0
  }

  /** Woken threads still have to look at their predicate again. */
  function Wakeful(s: State): nat
  {
    (if (s.p.CtorWait? || s.p.FlushWait? || s.p.SyncWait?) && !s.p.asleep then 1 else 0)
    + (if s.c == Waiting(false) then 1 else 0)
  }

  function Outstanding(s: State): nat
  {
    if s.upto > 0 then s.upto else 0
  }

  /** Lexicographic comparison of what is left to do. */
  ghost predicate Less(s': State, s: State)
    requires InBounds(s) && InBounds(s')
  {
    Stage(s'.p) < Stage(s.p) || (Stage(s'.p) == Stage(s.p) &&
      (Outstanding(s') < Outstanding(s) || (Outstanding(s') == Outstanding(s) &&
        (ConsumerStage(s'.c) < ConsumerStage(s.c) || (ConsumerStage(s'.c) == ConsumerStage(s.c) &&
          (Unsent(s') < Unsent(s) || (Unsent(s') == Unsent(s) && Wakeful(s') < Wakeful(s))))))))
  }

  lemma ProducerStepLess(s: State)
    requires Inv(s) && ProducerEnabled(s) && InBounds(ProducerStep(s))
    ensures Less(ProducerStep(s), s)
  {
    hide Ring, Queued;
  }

  lemma ConsumerStepLess(s: State)
    requires Inv(s) && ConsumerEnabled(s) && InBounds(ConsumerStep(s))
    ensures Less(ConsumerStep(s), s)
  {
    hide Ring, Queued;
  }

  /** `schedule(i)` says which thread the scheduler would like to run at step `i`. */
  ghost predicate Follows(run: seq<State>, schedule: nat -> bool)
  {
    forall i :: 0 <= i < |run| - 1 ==>
      && InBounds(run[i])
      && if ProducerEnabled(run[i]) && (schedule(i) || !ConsumerEnabled(run[i])) then run[i + 1] == ProducerStep(run[i])
         else ConsumerEnabled(run[i]) && run[i + 1] == ConsumerStep(run[i])
  }

  /**
   Once a call is made it returns: under every schedule the two threads reach, after finitely many
   steps and without a spurious wake-up, a state where the producer is outside the call.
   */
  lemma {:induction false} CallsReturn(s: State, schedule: nat -> bool) returns (run: seq<State>)
    requires Inv(s)
    ensures run != [] && run[0] == s && Follows(run, schedule)
    ensures var t := run[|run| - 1]; Inv(t) && (t.p.Ready? || t.p.Gone?) && !ProducerEnabled(t) && !ConsumerEnabled(t)
    decreases Stage(s.p), Outstanding(s), ConsumerStage(s.c), Unsent(s), Wakeful(s)
  {
    hide Ring, Queued, Control, InBounds, Inv, ProducerStep, ConsumerStep, ProducerEnabled, ConsumerEnabled, Follows;
    InBoundsOf(s);
    if !ProducerEnabled(s) && !ConsumerEnabled(s) {
      run := [s];
      Resting(s, schedule);
    } else {
      var t := ScheduledStep(s, schedule(0));
      var later := (i: nat) => schedule(i + 1);
      var rest := CallsReturn(t, later);
      run := [s] + rest;
      FollowsCons(s, rest, schedule, later);
    }
  }

  lemma Resting(s: State, schedule: nat -> bool)
    requires Inv(s) && !ProducerEnabled(s) && !ConsumerEnabled(s)
    ensures (s.p.Ready? || s.p.Gone?) && Follows([s], schedule)
  {
  }

  lemma FollowsCons(s: State, rest: seq<State>, schedule: nat -> bool, later: nat -> bool)
    requires rest != [] && Follows(rest, later) && InBounds(s)
    requires forall i: nat :: later(i) == schedule(i + 1)
    requires if ProducerEnabled(s) && (schedule(0) || !ConsumerEnabled(s)) then rest[0] == ProducerStep(s)
      else ConsumerEnabled(s) && rest[0] == ConsumerStep(s)
    ensures Follows([s] + rest, schedule)
  {
    hide ProducerStep, ConsumerStep, ProducerEnabled, ConsumerEnabled, InBounds;
    var run := [s] + rest;
    forall i | 0 < i < |run| - 1
      ensures InBounds(run[i])
      ensures if ProducerEnabled(run[i]) && (schedule(i) || !ConsumerEnabled(run[i]))
        then run[i + 1] == ProducerStep(run[i])
         else ConsumerEnabled(run[i]) && run[i + 1] == ConsumerStep(run[i])
    {
      assert run[i] == rest[i - 1] && run[i + 1] == rest[i - 1 + 1] && later(i - 1) == schedule(i);
    }
  }

  lemma ScheduledStep(s: State, producerFirst: bool) returns (t: State)
    requires Inv(s) && InBounds(s) && (ProducerEnabled(s) || ConsumerEnabled(s))
    ensures Inv(t) && InBounds(t) && Less(t, s)
    ensures if ProducerEnabled(s) && (producerFirst || !ConsumerEnabled(s)) then t == ProducerStep(s)
      else ConsumerEnabled(s) && t == ConsumerStep(s)
  {
    hide *;
    InBoundsOf(s);
    if ProducerEnabled(s) && (producerFirst || !ConsumerEnabled(s)) {
      t := ProducerStep(s);
      ProducerKeepsRing(s);
      ProducerKeepsControl(s);
      KeepsSize(s, t);
      InvIs(t);
      InBoundsOf(t);
      ProducerStepLess(s);
    } else {
      t := ConsumerStep(s);
      ConsumerKeepsRing(s);
      ConsumerKeepsControl(s);
      KeepsSize(s, t);
      InvIs(t);
      InBoundsOf(t);
      ConsumerStepLess(s);
    }
  }

  lemma KeepsSize(s: State, t: State)
    requires Inv(s) && InBounds(s)
    requires (ProducerEnabled(s) && t == ProducerStep(s)) || (ConsumerEnabled(s) && t == ConsumerStep(s))
    ensures t.sz >= 2
  {
    hide Ring, Control, Queued;
  }

  // ----- with a single batch

  /** All that can happen when the constructor accepts one batch. */
  ghost predicate Single(s: State)
  {
    && InBounds(s) && s.sz == 1 && s.delivered == []
    && (if s.c.Boot? then s.upto == 1 && s.p.CtorWait? else s.upto == 0)
    && (s.c.Boot? || s.c.BootNotify? || s.c.WaitEnter? || s.c.Waiting?)
    && (s.p.CtorWait? || s.p.Ready? || s.p.Adding? || s.p.Filling? || s.p.FlushEnter? || s.p.FlushWait?)
  }

  lemma SingleProducerKeeps(s: State, s': State)
    requires Single(s) && ProducerEnabled(s) && s' == ProducerStep(s)
    ensures Single(s') && (s.p.FlushEnter? || s.p.FlushWait? ==> s'.p.FlushEnter? || s'.p.FlushWait?)
  {
  }

  lemma SingleConsumerKeeps(s: State, s': State)
    requires Single(s) && ConsumerEnabled(s) && s' == ConsumerStep(s)
    ensures Single(s') && (s.p.FlushEnter? || s.p.FlushWait? ==> s'.p.FlushEnter? || s'.p.FlushWait?)
  {
  }

  lemma SingleKeeps(s: State, s': State)
    requires Single(s) && Next(s, s')
    ensures Single(s') && (s.p.FlushEnter? || s.p.FlushWait? ==> s'.p.FlushEnter? || s'.p.FlushWait?)
  {
    assert InBounds(s);
    if ProducerEnabled(s) && s' == ProducerStep(s) {
      hide *;
      SingleProducerKeeps(s, s');
    } else if ConsumerEnabled(s) && s' == ConsumerStep(s) {
      hide *;
      SingleConsumerKeeps(s, s');
    } else if Spurious(s, s') {
      hide *;
      SingleSpurious(s, s');
    } else {
      hide ProducerStep, ConsumerStep, ProducerEnabled, ConsumerEnabled, Single, Invoke, Spurious;
      SingleInvoke(s, s');
    }
  }

  lemma SingleSpurious(s: State, s': State)
    requires Single(s) && Spurious(s, s')
    ensures Single(s') && (s.p.FlushEnter? || s.p.FlushWait? ==> s'.p.FlushEnter? || s'.p.FlushWait?)
  {
  }

  lemma SingleInvoke(s: State, s': State)
    requires Single(s) && s.p.Ready? && exists call :: s' == Invoke(s, call)
    ensures Single(s') && (s.p.FlushEnter? || s.p.FlushWait? ==> s'.p.FlushEnter? || s'.p.FlushWait?)
  {
  }

  /** With one batch no flush ever returns, not even that of the destructor, and the library never receives anything. */
  lemma {:induction false} OneBatchNeverFlushes(run: seq<State>, i: nat, j: nat)
    requires Run(run) && run[0].sz == 1 && i <= j < |run|
    ensures Single(run[j])
    ensures run[i].p.FlushEnter? || run[i].p.FlushWait? ==> run[j].p.FlushEnter? || run[j].p.FlushWait?
    decreases j
  {
    if j > 0 {
      OneBatchNeverFlushes(run, if i < j then i else j - 1, j - 1);
      SingleKeeps(run[j - 1], run[j - 1 + 1]);
    }
  }

  /** The shortest way into the deadlock: construct, then flush. */
  lemma OneBatchDeadlocks(first: State) returns (run: seq<State>)
    requires Init(first) && first.sz == 1
    ensures Run(run) && run[0] == first
    ensures var s := run[|run| - 1]; s.p.FlushWait? && !ProducerEnabled(s) && !ConsumerEnabled(s)
  {
    var s1 := ConsumerStep(first);
    var s2 := ConsumerStep(s1);
    var s3 := ConsumerStep(s2);
    var s4 := ProducerStep(s3);
    var s5 := Invoke(s4, Flush(true));
    var s6 := ProducerStep(s5);
    run := [first, s1, s2, s3, s4, s5, s6];
  }
}
