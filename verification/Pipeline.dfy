/**
 The update pipeline: one master, its workers, two buffers and the shared graph
 (execute_synchronized_small_batch, load_edges, execute_updates, wait), as a transition system.

 The master posts a task in the one-slot mailbox of each worker, fills the other buffer while
 the workers read the current one, waits, swaps the buffers and has the workers run what they
 picked. Critical sections and calls of the library are single steps; notifications outside a
 critical section are steps of their own, and waiting threads may wake without one.
 */
module Pipeline {
  import opened GraphState
  import opened Filters
  import opened Replay
  import opened UpdateWorker

  datatype Config = Config(
    workers: nat,
    owner: Update -> nat,
    directed: bool,
    log: seq<seq<Update>>,      // the blocks of the log; an empty block marks the end of the file
    start: GraphState.State)

  datatype Task = Idle | Load(buffer: nat, numEdges: nat) | Execute

  datatype WorkerPc = Waiting(asleep: bool) | Loading(i: nat) | Executing | Resetting

  datatype Worker = Worker(task: Task, pc: WorkerPc, list: seq<Update>, pos: nat)

  datatype MasterPc =
    | FirstLoad(k: nat)
    | Head                               // while(num_edges > 0)
    | PostLoad(w: nat)
    | NotifyLoad(w: nat)
    | NextLoad(k: nat)
    | AwaitLoad(w: nat, asleep: bool)
    | PostExec(w: nat)
    | NotifyExec(w: nat)
    | AwaitExec(w: nat, asleep: bool)
    | Done
    | Busy                               // the error "already busy" of set_task_async

  datatype State = State(
    m: MasterPc,
    ws: seq<Worker>,
    buffers: seq<seq<Update>>,
    cur: nat,
    numEdges: nat,
    graph: GraphState.State,
    round: nat,                          // blocks taken from the log and executed so far
    trace: seq<Update>)                  // the updates executed so far

  ghost predicate WellConfigured(c: Config)
  {
    && c.workers > 0
    && (forall u :: c.owner(u) < c.workers)
    && Sticky(c.directed, c.owner)
    && Consistent(c.directed, c.start)
    && (forall k :: 0 <= k < |c.log| ==> c.log[k] != [])
    && WellFormedLog(c.directed, c.start, Flatten(c.log))
  }

  /** The hash of the sum of the endpoints is an assignment that the pipeline can use. */
  lemma HashIsWellConfigured(hash: nat -> nat, workers: nat, directed: bool, log: seq<seq<Update>>,
      start: GraphState.State)
    requires workers > 0 && Consistent(directed, start) && forall k :: 0 <= k < |log| ==> log[k] != []
    requires WellFormedLog(directed, start, Flatten(log))
    ensures WellConfigured(Config(workers, HashOwner(hash, workers), directed, log, start))
  {
    HashOwnerIsSticky(directed, hash, workers);
    hide Sticky, Consistent, WellFormedLog, Flatten;
    forall u ensures HashOwner(hash, workers)(u) < workers {
      assert HashOwner(hash, workers)(u) == hash((u.src + u.dst) % UINT64) % workers;
    }
  }

  /** What the loader returns for block `k`. */
  function Block(c: Config, k: nat): seq<Update>
  {
    if k < |c.log| then c.log[k] else []
  }

  ghost predicate Init(c: Config, s: State)
  {
    && s.m == FirstLoad(0) && |s.ws| == c.workers
    && (forall w :: 0 <= w < c.workers ==> s.ws[w] == Worker(Idle, Waiting(true), [], 0))
    && |s.buffers| == 2 && s.buffers[0] == [] && s.cur == 0 && s.numEdges == 0
    && s.graph == c.start && s.round == 0 && s.trace == []
  }

  // ----- steps of the master

  function Wake(w: Worker): Worker
  {
    if w.pc.Waiting? then w.(pc := Waiting(false)) else w
  }

  /** The loader writes one more entry of block `k` into buffer `b`. */
  function Read(c: Config, s: State, b: nat, k: nat): State
    requires |s.buffers| == 2 && b < 2
    requires |s.buffers[b]| < |Block(c, k)|
  {
    s.(buffers := s.buffers[b := s.buffers[b] + [Block(c, k)[|s.buffers[b]|]]])
  }

  predicate InBounds(c: Config, s: State)
  {
    && |s.ws| == c.workers && |s.buffers| == 2 && s.cur < 2
  }

  predicate MasterEnabled(s: State)
  {
    match s.m
    case AwaitLoad(_, asleep) => !asleep
    case AwaitExec(_, asleep) => !asleep
    case Done => false
    case Busy => false
    case _ => true
  }

  function MasterStep(c: Config, s: State): State
    requires InBounds(c, s) && MasterEnabled(s)
  {
    match s.m
    case FirstLoad(k) =>
      if k < |Block(c, 0)| && |s.buffers[s.cur]| < |Block(c, 0)| then Read(c, s, s.cur, 0).(m := FirstLoad(k + 1))
      else s.(m := Head, numEdges := k)
    case Head =>
      s.(m := if s.numEdges > 0 then PostLoad(0) else Done)
    case PostLoad(w) =>
      if w >= c.workers then s.(m := NextLoad(0), buffers := s.buffers[1 - s.cur := []])
      else if s.ws[w].task != Idle then s.(m := Busy)
      else s.(ws := s.ws[w := s.ws[w].(task := Load(s.cur, s.numEdges))], m := NotifyLoad(w))
    case NotifyLoad(w) =>
      if w >= c.workers then s.(m := Busy) else s.(ws := s.ws[w := Wake(s.ws[w])], m := PostLoad(w + 1))
    case NextLoad(k) =>
      if k < |Block(c, s.round + 1)| && |s.buffers[1 - s.cur]| < |Block(c, s.round + 1)|
      then Read(c, s, 1 - s.cur, s.round + 1).(m := NextLoad(k + 1))
      else s.(m := AwaitLoad(0, false), numEdges := k)
    case AwaitLoad(w, _) =>
      if w >= c.workers then s.(m := PostExec(0), cur := 1 - s.cur)
      else s.(m := if s.ws[w].task == Idle then AwaitLoad(w + 1, false) else AwaitLoad(w, true))
    case PostExec(w) =>
      if w >= c.workers then s.(m := AwaitExec(0, false))
      else if s.ws[w].task != Idle then s.(m := Busy)
      else s.(ws := s.ws[w := s.ws[w].(task := Execute)], m := NotifyExec(w))
    case NotifyExec(w) =>
      if w >= c.workers then s.(m := Busy) else s.(ws := s.ws[w := Wake(s.ws[w])], m := PostExec(w + 1))
    case AwaitExec(w, _) =>
      if w >= c.workers then s.(m := Head, round := s.round + 1)
      else s.(m := if s.ws[w].task == Idle then AwaitExec(w + 1, false) else AwaitExec(w, true))
  }

  function WakeMaster(m: MasterPc, w: nat): MasterPc
  {
    match m
    case AwaitLoad(v, _) => if v == w then AwaitLoad(v, false) else m
    case AwaitExec(v, _) => if v == w then AwaitExec(v, false) else m
    case _ => m
  }

  // ----- steps of a worker

  predicate WorkerEnabled(s: State, w: nat)
    requires w < |s.ws|
  {
    s.ws[w].pc != Waiting(true)
  }

  /** What the library receives for an update: the endpoints may be swapped on an undirected graph. */
  function Sent(c: Config, u: Update, swap: bool): Update
  {
    if swap && !c.directed then Swapped(u) else u
  }

  /** The library call returns true: insertions always do, a removal if the edge is there. */
  predicate Accepted(g: GraphState.State, u: Update)
  {
    u.weight >= 0 || (u.src, u.dst) in g.edges
  }

  function WorkerStep(c: Config, s: State, w: nat, swap: bool): State
    requires InBounds(c, s) && w < |s.ws| && WorkerEnabled(s, w)
  {
    var me := s.ws[w];
    match me.pc
    case Waiting(_) =>
      var pc := match me.task case Idle => Waiting(true) case Load(_, _) => Loading(0) case Execute => Executing;
      s.(ws := s.ws[w := me.(pc := pc)])
    case Loading(i) =>
      if me.task.Load? && me.task.buffer < 2 && i < me.task.numEdges && i < |s.buffers[me.task.buffer]| then
        var u := s.buffers[me.task.buffer][i];
        s.(ws := s.ws[w := me.(list := if c.owner(u) == w then me.list + [u] else me.list, pc := Loading(i + 1))])
      else s.(ws := s.ws[w := me.(pc := Resetting)])
    case Executing =>
      if me.pos < |me.list| then
        var u := me.list[me.pos];
        var sent := Sent(c, u, swap);
        if Accepted(s.graph, sent) then
          s.(graph := Apply(c.directed, s.graph, AsOp(sent)), trace := s.trace + [u],
            ws := s.ws[w := me.(pos := me.pos + 1)])
        else s     // the removal failed and is tried again
      else s.(ws := s.ws[w := me.(pc := Resetting, list := [], pos := 0)])
    case Resetting =>
      s.(ws := s.ws[w := me.(task := Idle, pc := Waiting(true))], m := WakeMaster(s.m, w))
  }

  /** Wake-ups without a notification, and the tick of `wait_and_record`, which starts over from the first worker. */
  ghost predicate Spurious(s: State, s': State)
  {
    || (exists w: nat :: w < |s.ws| && s' == s.(ws := s.ws[w := Wake(s.ws[w])]))
    || (exists w: nat :: s' == s.(m := WakeMaster(s.m, w)))
    || (s.m.AwaitExec? && s' == s.(m := AwaitExec(0, false)))
  }

  ghost predicate Next(c: Config, s: State, s': State)
    requires InBounds(c, s)
  {
    || (MasterEnabled(s) && s' == MasterStep(c, s))
    || (exists w: nat, swap :: w < |s.ws| && WorkerEnabled(s, w) && s' == WorkerStep(c, s, w, swap))
    || Spurious(s, s')
  }

  // ----- the invariant

  // How far a worker is in the current round.
  datatype Phase = Fresh | InLoad | Loaded | InExec | Finished

  function PhaseOf(m: MasterPc, w: nat): Phase
  {
    match m
    case FirstLoad(_) => Fresh
    case Head => Fresh
    case PostLoad(k) => if w < k then InLoad else Fresh
    case NotifyLoad(k) => if w <= k then InLoad else Fresh
    case NextLoad(_) => InLoad
    case AwaitLoad(k, _) => if w < k then Loaded else InLoad
    case PostExec(k) => if w < k then InExec else Loaded
    case NotifyExec(k) => if w <= k then InExec else Loaded
    case AwaitExec(k, _) => if w < k then Finished else InExec
    case Done => Fresh
    case Busy => Fresh
  }

  function Before(c: Config, s: State): seq<Update>
  {
    if s.round <= |c.log| then Flatten(c.log[..s.round]) else []
  }

  /** The share of worker `w` in the current block. */
  function Mine(c: Config, s: State, w: nat): seq<Update>
  {
    Share(c.owner, Block(c, s.round), w)
  }

  ghost predicate AtRest(me: Worker, list: seq<Update>)
  {
    me.task == Idle && me.pc.Waiting? && me.list == list && me.pos == 0
  }

  ghost predicate LoadingFrom(c: Config, s: State, w: nat)
    requires InBounds(c, s) && w < c.workers
  {
    var me := s.ws[w];
    var block := Block(c, s.round);
    || AtRest(me, Mine(c, s, w))
    || (&& me.task == Load(s.cur, |block|) && me.pos == 0
        && match me.pc
           case Waiting(_) => me.list == []
           case Loading(i) => i <= |block| && me.list == Share(c.owner, block[..i], w)
           case Executing => false
           case Resetting => me.list == Mine(c, s, w))
  }

  ghost predicate ExecutingShare(c: Config, s: State, w: nat)
    requires InBounds(c, s) && w < c.workers
  {
    var me := s.ws[w];
    var done := Share(c.owner, s.trace, w);
    var before := Share(c.owner, Before(c, s), w);
    || (AtRest(me, []) && done == before + Mine(c, s, w))
    || (&& me.task == Execute
        && match me.pc
           case Waiting(_) => me.list == Mine(c, s, w) && me.pos == 0 && done == before
           case Loading(i) => false
           case Executing => me.list == Mine(c, s, w) && me.pos <= |me.list| && done == before + me.list[..me.pos]
           case Resetting => me.list == [] && me.pos == 0 && done == before + Mine(c, s, w))
  }

  ghost predicate WorkerOk(c: Config, s: State, w: nat)
    requires InBounds(c, s) && w < c.workers
  {
    var done := Share(c.owner, s.trace, w);
    var before := Share(c.owner, Before(c, s), w);
    match PhaseOf(s.m, w)
    case Fresh => AtRest(s.ws[w], []) && done == before
    case InLoad => LoadingFrom(c, s, w) && done == before
    case Loaded => AtRest(s.ws[w], Mine(c, s, w)) && done == before
    case InExec => ExecutingShare(c, s, w)
    case Finished => AtRest(s.ws[w], []) && done == before + Mine(c, s, w)
  }

  /**
   The buffers: the current one holds the current block until the swap, the other one the next block, as far as it is
   read.
   */
  ghost predicate BuffersOk(c: Config, s: State)
    requires InBounds(c, s)
  {
    var here, next := Block(c, s.round), Block(c, s.round + 1);
    match s.m
    case FirstLoad(k) => s.round == 0 && k <= |here| && s.buffers[s.cur] == here[..k]
    case Head => s.buffers[s.cur] == here && s.numEdges == |here|
    case PostLoad(w) => s.buffers[s.cur] == here && s.numEdges == |here| && here != [] && w <= c.workers
    case NotifyLoad(w) => s.buffers[s.cur] == here && s.numEdges == |here| && here != [] && w < c.workers
    case NextLoad(k) => s.buffers[s.cur] == here && here != [] && k <= |next| && s.buffers[1 - s.cur] == next[..k]
    case AwaitLoad(w, _) => s.buffers[s.cur] == here && here != [] && s.buffers[1 - s.cur] == next
      && s.numEdges == |next| && w <= c.workers
    case PostExec(w) => s.buffers[s.cur] == next && s.numEdges == |next| && here != [] && w <= c.workers
    case NotifyExec(w) => s.buffers[s.cur] == next && s.numEdges == |next| && here != [] && w < c.workers
    case AwaitExec(w, _) => s.buffers[s.cur] == next && s.numEdges == |next| && here != [] && w <= c.workers
    case Done => here == []
    case Busy => false
  }

  /** Nobody sleeps through a wake-up. */
  ghost predicate SleepOk(c: Config, s: State)
    requires InBounds(c, s)
  {
    && (forall w :: 0 <= w < c.workers && s.ws[w].pc == Waiting(true) && s.ws[w].task != Idle ==>
          s.m == NotifyLoad(w) || s.m == NotifyExec(w))
    && (s.m.AwaitLoad? && s.m.asleep ==> s.m.w < c.workers && s.ws[s.m.w].task != Idle)
    && (s.m.AwaitExec? && s.m.asleep ==> s.m.w < c.workers && s.ws[s.m.w].task != Idle)
  }

  ghost predicate Inv(c: Config, s: State)
  {
    && InBounds(c, s)
    && s.round <= |c.log|
    && BuffersOk(c, s)
    && (forall w: nat :: w < c.workers ==> WorkerOk(c, s, w))
    && SleepOk(c, s)
    && s.graph == Serial(c.directed, c.start, s.trace)
  }

  // ----- shares

  lemma {:induction false} NoShareBeyond(c: Config, s: seq<Update>, w: nat)
    requires (forall u :: c.owner(u) < c.workers) && w >= c.workers
    ensures Share(c.owner, s, w) == []
    decreases |s|
  {
    if s != [] {
      NoShareBeyond(c, s[..|s| - 1], w);
    }
  }

  lemma {:induction false} FlattenPrefix(log: seq<seq<Update>>, k: nat)
    requires k <= |log|
    ensures Flatten(log[..k]) <= Flatten(log)
    ensures k < |log| ==> Flatten(log[..k + 1]) == Flatten(log[..k]) + log[k] && Flatten(log[..k + 1]) <= Flatten(log)
    decreases |log|
  {
    if k < |log| {
      assert log[..k + 1][..k] == log[..k];
      if k + 1 < |log| {
        FlattenPrefix(log[..|log| - 1], k);
        assert log[..|log| - 1][..k] == log[..k] && log[..|log| - 1][..k + 1] == log[..k + 1];
      } else {
        assert log[..k + 1] == log;
      }
    } else {
      assert log[..k] == log;
    }
  }

  /** The share of a worker after the current block. */
  lemma ShareAfterBlock(c: Config, s: State, w: nat)
    requires s.round <= |c.log|
    ensures Share(c.owner, Before(c, s), w) + Mine(c, s, w) <= Share(c.owner, Flatten(c.log), w)
    ensures s.round < |c.log| ==>
      Share(c.owner, Flatten(c.log[..s.round + 1]), w) == Share(c.owner, Before(c, s), w) + Mine(c, s, w)
  {
    var keep := u => c.owner(u) == w;
    FlattenPrefix(c.log, s.round);
    if s.round < |c.log| {
      FilterConcat(Before(c, s), c.log[s.round], keep);
      FilterPrefixes(Flatten(c.log[..s.round + 1]), Flatten(c.log), keep);
    } else {
      FilterPrefixes(Before(c, s), Flatten(c.log), keep);
    }
  }

  lemma NextOfMine(c: Config, s: State, w: nat, k: nat)
    requires k < |Mine(c, s, w)|
    ensures c.owner(Mine(c, s, w)[k]) == w
  {
    FilterMembers(Block(c, s.round), u => c.owner(u) == w);
    assert Mine(c, s, w)[k] in Mine(c, s, w);
  }

  // ----- a removal never fails

  /** What every worker has executed is a prefix of its share of the whole log. */
  lemma ExecutedPrefix(c: Config, s: State, w: nat)
    requires Inv(c, s) && w < c.workers
    ensures Share(c.owner, s.trace, w) <= Share(c.owner, Before(c, s), w) + Mine(c, s, w)
  {
    assert WorkerOk(c, s, w);
  }

  /** A worker that is about to execute its next update continues its prefix of the log. */
  lemma AboutToExecute(c: Config, s: State, w: nat)
    requires Inv(c, s) && w < c.workers && s.ws[w].pc == Executing && s.ws[w].pos < |s.ws[w].list|
    ensures var u := s.ws[w].list[s.ws[w].pos];
      c.owner(u) == w && Share(c.owner, s.trace, w) + [u] <= Share(c.owner, Before(c, s), w) + Mine(c, s, w)
  {
    assert WorkerOk(c, s, w);
    NextOfMine(c, s, w, s.ws[w].pos);
    var mine := Mine(c, s, w);
    assert mine[..s.ws[w].pos] + [mine[s.ws[w].pos]] == mine[..s.ws[w].pos + 1];
  }

  lemma PartOfLog(c: Config, s: State, w: nat)
    requires WellConfigured(c) && Inv(c, s) && w < c.workers
    requires s.ws[w].pc == Executing && s.ws[w].pos < |s.ws[w].list|
    ensures PartOf(c.owner, Flatten(c.log), s.trace + [s.ws[w].list[s.ws[w].pos]])
  {
    var u := s.ws[w].list[s.ws[w].pos];
    AboutToExecute(c, s, w);
    assert forall x :: c.owner(x) < c.workers;
    RoundInLog(c, s);
    hide *;
    forall v: nat
      ensures Share(c.owner, s.trace + [u], v) <= Share(c.owner, Flatten(c.log), v)
    {
      ShareAppend(c, s.trace, u, v);
      ShareAfterBlock(c, s, v);
      if v >= c.workers {
        NoShareBeyond(c, s.trace, v);
      } else if v != w {
        ExecutedPrefix(c, s, v);
      }
    }
    PartOfIs(c.owner, Flatten(c.log), s.trace + [u]);
  }

  lemma PartOfIs(owner: Update -> nat, log: seq<Update>, trace: seq<Update>)
    requires forall v: nat :: Share(owner, trace, v) <= Share(owner, log, v)
    ensures PartOf(owner, log, trace)
  {
  }

  lemma RoundInLog(c: Config, s: State)
    requires Inv(c, s)
    ensures InBounds(c, s) && s.round <= |c.log| && s.graph == Serial(c.directed, c.start, s.trace)
  {
  }

  lemma ShareAppend(c: Config, trace: seq<Update>, u: Update, v: nat)
    ensures Share(c.owner, trace + [u], v) == Share(c.owner, trace, v) + if c.owner(u) == v then [u] else []
  {
    FilterAppend(trace, u, x => c.owner(x) == v);
  }

  lemma FirstTry(c: Config, s: State, w: nat, swap: bool)
    requires WellConfigured(c) && Inv(c, s) && w < c.workers
    requires s.ws[w].pc == Executing && s.ws[w].pos < |s.ws[w].list|
    ensures var u := s.ws[w].list[s.ws[w].pos]; u.src != u.dst && Accepted(s.graph, Sent(c, u, swap))
  {
    var u := s.ws[w].list[s.ws[w].pos];
    PartOfLog(c, s, w);
    RoundInLog(c, s);
    assert Sticky(c.directed, c.owner) && WellFormedLog(c.directed, c.start, Flatten(c.log)) && Consistent(c.directed,
      c.start);
    hide Inv, Serial, WellConfigured, Sticky, WellFormedLog, PartOf, Share;
    RemovalSucceedsAtOnce(c.directed, c.owner, c.start, Flatten(c.log), s.trace, u);
    SerialKeepsConsistent(c.directed, c.start, s.trace);
  }

  // ----- every step keeps the invariant

  /** A worker is not disturbed by steps of others. */
  lemma Undisturbed(c: Config, s: State, s': State, v: nat)
    requires InBounds(c, s) && InBounds(c, s') && v < c.workers && WorkerOk(c, s, v)
    requires s'.ws[v] == s.ws[v] && s'.round == s.round && s'.cur == s.cur && PhaseOf(s'.m, v) == PhaseOf(s.m, v)
    requires Share(c.owner, s'.trace, v) == Share(c.owner, s.trace, v)
    ensures WorkerOk(c, s', v)
  {
  }

  /** The call for the next update of a worker, swapped or not, does what the update says. */
  lemma ExecuteGraph(c: Config, s: State, u: Update, swap: bool)
    requires s.graph == Serial(c.directed, c.start, s.trace)
    ensures Apply(c.directed, s.graph, AsOp(Sent(c, u, swap))) == Serial(c.directed, c.start, s.trace + [u])
  {
    SwapIsInvisible(s.graph, u.src, u.dst, u.weight);
    SerialAppend(c, s.trace, u);
    hide Serial, Apply;
  }

  lemma ExecuteStep(c: Config, s: State, w: nat, swap: bool)
    requires InBounds(c, s) && w < |s.ws| && WorkerEnabled(s, w) && s.ws[w].pc == Executing
    requires s.ws[w].pos < |s.ws[w].list|
    requires Accepted(s.graph, Sent(c, s.ws[w].list[s.ws[w].pos], swap))
    ensures var me := s.ws[w];
      WorkerStep(c, s, w, swap) == s.(graph := Apply(c.directed, s.graph, AsOp(Sent(c, me.list[me.pos], swap))),
                                      trace := s.trace + [me.list[me.pos]], ws := s.ws[w := me.(pos := me.pos + 1)])
  {
    hide Apply, AsOp, Sent, Accepted;
  }

  /** A worker that executes is in the middle of its share. */
  lemma ExecutingIs(c: Config, s: State, w: nat)
    requires InBounds(c, s) && w < c.workers && WorkerOk(c, s, w) && s.ws[w].pc == Executing
    ensures PhaseOf(s.m, w) == InExec && s.ws[w].task == Execute && s.ws[w].list == Mine(c, s, w)
    ensures s.ws[w].pos <= |s.ws[w].list|
    ensures Share(c.owner, s.trace, w) == Share(c.owner, Before(c, s), w) + s.ws[w].list[..s.ws[w].pos]
  {
    hide Share, Mine, Before;
  }

  lemma ExecutedOneMore(c: Config, s: State, s': State, w: nat)
    requires InBounds(c, s) && InBounds(c, s') && w < c.workers && WorkerOk(c, s, w) && s.ws[w].pc == Executing
    requires s.ws[w].pos < |s.ws[w].list|
    requires s'.ws[w] == s.ws[w].(pos := s.ws[w].pos + 1) && s'.m == s.m && s'.round == s.round
    requires Share(c.owner, s'.trace, w) == Share(c.owner, s.trace, w) + [s.ws[w].list[s.ws[w].pos]]
    ensures WorkerOk(c, s', w)
  {
    ExecutingIs(c, s, w);
    var me := s.ws[w];
    assert me.list[..me.pos + 1] == me.list[..me.pos] + [me.list[me.pos]];
    assert Before(c, s') == Before(c, s) && Mine(c, s', w) == Mine(c, s, w);
    hide Share, Mine, Before;
  }

  lemma InvParts(c: Config, s: State, w: nat)
    requires Inv(c, s) && w < c.workers
    ensures InBounds(c, s) && |s.ws| == c.workers && WorkerOk(c, s, w)
    ensures s.graph == Serial(c.directed, c.start, s.trace)
  {
    hide WorkerOk, Serial, SleepOk, BuffersOk;
  }

  lemma ExecuteKeeps(c: Config, s: State, w: nat, swap: bool)
    requires WellConfigured(c) && Inv(c, s) && w < c.workers
    requires s.ws[w].pc == Executing && s.ws[w].pos < |s.ws[w].list|
    ensures var s' := WorkerStep(c, s, w, swap); var u := s.ws[w].list[s.ws[w].pos];
      && s'.ws == s.ws[w := s.ws[w].(pos := s.ws[w].pos + 1)] && s'.trace == s.trace + [u]
      && s'.m == s.m && s'.buffers == s.buffers && s'.cur == s.cur && s'.numEdges == s.numEdges && s'.round == s.round
      && s'.graph == Serial(c.directed, c.start, s'.trace)
      && (forall v: nat :: v < c.workers && v != w ==> Share(c.owner, s'.trace, v) == Share(c.owner, s.trace, v))
      && InBounds(c, s') && WorkerOk(c, s', w)
  {
    InvParts(c, s, w);
    assert WorkerEnabled(s, w);
    hide *;
    var me, s' := s.ws[w], WorkerStep(c, s, w, swap);
    var u := me.list[me.pos];
    FirstTry(c, s, w, swap);
    ExecuteStep(c, s, w, swap);
    ExecuteGraph(c, s, u, swap);
    ExecutingIs(c, s, w);
    NextOfMine(c, s, w, me.pos);
    forall v: nat ensures Share(c.owner, s'.trace, v) == Share(c.owner, s.trace, v) + if v == w then [u] else [] {
      ShareAppend(c, s.trace, u, v);
    }
    WorkerStepInBounds(c, s, w, swap);
    ExecutedOneMore(c, s, s', w);
  }

  lemma SerialAppend(c: Config, trace: seq<Update>, u: Update)
    ensures Serial(c.directed, c.start, trace + [u]) == Apply(c.directed, Serial(c.directed, c.start, trace), AsOp(u))
  {
    assert (trace + [u])[..|trace|] == trace;
    hide Apply, AsOp;
  }

  /** A worker that loads is in the middle of the current block. */
  lemma LoadingIs(c: Config, s: State, w: nat)
    requires Inv(c, s) && w < c.workers && s.ws[w].pc.Loading?
    ensures var me, block := s.ws[w], Block(c, s.round);
      && PhaseOf(s.m, w) == InLoad && me.task == Load(s.cur, |block|) && me.pos == 0 && me.pc.i <= |block|
      && me.list == Share(c.owner, block[..me.pc.i], w) && s.buffers[s.cur] == block && s.cur < 2
      && Share(c.owner, s.trace, w) == Share(c.owner, Before(c, s), w)
  {
    assert WorkerOk(c, s, w) && BuffersOk(c, s);
    hide Share, SleepOk, Serial, Before;
  }

  lemma LoadStep(c: Config, s: State, w: nat, swap: bool)
    requires Inv(c, s) && w < c.workers && s.ws[w].pc.Loading? && s.ws[w].pc.i < |Block(c, s.round)|
    ensures WorkerOk(c, WorkerStep(c, s, w, swap), w)
  {
    LoadingIs(c, s, w);
    var i, block := s.ws[w].pc.i, Block(c, s.round);
    FilterAppend(block[..i], block[i], u => c.owner(u) == w);
    assert block[..i + 1] == block[..i] + [block[i]];
    hide Inv, Before, Block;
  }

  lemma LoadEnds(c: Config, s: State, w: nat, swap: bool)
    requires Inv(c, s) && w < c.workers && s.ws[w].pc.Loading? && s.ws[w].pc.i >= |Block(c, s.round)|
    ensures WorkerOk(c, WorkerStep(c, s, w, swap), w)
  {
    LoadingIs(c, s, w);
    assert Block(c, s.round)[..s.ws[w].pc.i] == Block(c, s.round);
    hide Inv, Before, Block, Share;
  }

  lemma LoadOneKeeps(c: Config, s: State, w: nat, swap: bool)
    requires WellConfigured(c) && Inv(c, s) && w < c.workers && s.ws[w].pc.Loading?
    ensures InBounds(c, WorkerStep(c, s, w, swap)) && WorkerOk(c, WorkerStep(c, s, w, swap), w)
  {
    InvParts(c, s, w);
    assert WorkerEnabled(s, w);
    hide *;
    WorkerStepInBounds(c, s, w, swap);
    if s.ws[w].pc.i < |Block(c, s.round)| {
      LoadStep(c, s, w, swap);
    } else {
      LoadEnds(c, s, w, swap);
    }
  }

  lemma OwnStepKeeps(c: Config, s: State, w: nat, swap: bool)
    requires WellConfigured(c) && Inv(c, s) && w < c.workers && WorkerEnabled(s, w)
    requires !s.ws[w].pc.Loading? && !(s.ws[w].pc == Executing && s.ws[w].pos < |s.ws[w].list|)
    ensures WorkerOk(c, WorkerStep(c, s, w, swap), w)
  {
    assert WorkerOk(c, s, w);
    assert Block(c, s.round)[..0] == [];
    if s.ws[w].pc == Executing {
      assert s.ws[w].list[..s.ws[w].pos] == s.ws[w].list;
    }
  }

  /** A step of a worker that executes nothing touches only the worker, and may wake the master. */
  lemma QuietStepFrame(c: Config, s: State, w: nat, swap: bool, v: nat)
    requires InBounds(c, s) && w < c.workers && WorkerEnabled(s, w) && v < c.workers && v != w
    requires !(s.ws[w].pc == Executing && s.ws[w].pos < |s.ws[w].list|)
    ensures InBounds(c, WorkerStep(c, s, w, swap))
    ensures var s' := WorkerStep(c, s, w, swap);
      s'.ws[v] == s.ws[v] && s'.round == s.round && s'.cur == s.cur && PhaseOf(s'.m, v) == PhaseOf(s.m, v)
        && s'.trace == s.trace
  {
    WorkerStepInBounds(c, s, w, swap);
  }

  lemma WorkerStepOfAnother(c: Config, s: State, w: nat, swap: bool, v: nat)
    requires WellConfigured(c) && Inv(c, s) && w < c.workers && WorkerEnabled(s, w) && v < c.workers && v != w
    ensures InBounds(c, WorkerStep(c, s, w, swap)) && WorkerOk(c, WorkerStep(c, s, w, swap), v)
  {
    InvParts(c, s, v);
    hide *;
    if s.ws[w].pc == Executing && s.ws[w].pos < |s.ws[w].list| {
      ExecuteKeeps(c, s, w, swap);
    } else {
      QuietStepFrame(c, s, w, swap, v);
    }
    Undisturbed(c, s, WorkerStep(c, s, w, swap), v);
  }

  lemma WorkerStepOwn(c: Config, s: State, w: nat, swap: bool)
    requires WellConfigured(c) && Inv(c, s) && w < c.workers && WorkerEnabled(s, w)
    ensures WorkerOk(c, WorkerStep(c, s, w, swap), w)
    ensures WorkerStep(c, s, w, swap).graph == Serial(c.directed, c.start, WorkerStep(c, s, w, swap).trace)
  {
    if s.ws[w].pc == Executing && s.ws[w].pos < |s.ws[w].list| {
      ExecuteKeeps(c, s, w, swap);
    } else if s.ws[w].pc.Loading? {
      LoadOneKeeps(c, s, w, swap);
    } else {
      OwnStepKeeps(c, s, w, swap);
    }
  }

  lemma WorkerStepBuffers(c: Config, s: State, w: nat, swap: bool)
    requires Inv(c, s) && w < c.workers && WorkerEnabled(s, w)
    ensures InBounds(c, WorkerStep(c, s, w, swap)) && BuffersOk(c, WorkerStep(c, s, w, swap))
    ensures WorkerStep(c, s, w, swap).round <= |c.log|
  {
    WorkerStepInBounds(c, s, w, swap);
    assert BuffersOk(c, s) && s.round <= |c.log|;
    hide *;
    WorkerStepFrame(c, s, w, swap);
    BuffersKept(c, s, WorkerStep(c, s, w, swap), w);
  }

  /** A worker changes neither the buffers nor the position in the log, and wakes the master at most. */
  lemma WorkerStepFrame(c: Config, s: State, w: nat, swap: bool)
    requires InBounds(c, s) && w < c.workers && w < |s.ws| && WorkerEnabled(s, w)
    ensures var s' := WorkerStep(c, s, w, swap);
      && s'.buffers == s.buffers && s'.cur == s.cur && s'.numEdges == s.numEdges && s'.round == s.round
      && (s'.m == s.m || s'.m == WakeMaster(s.m, w))
  {
    hide Apply, AsOp, Sent, Accepted, WakeMaster;
  }

  lemma BuffersKept(c: Config, s: State, s': State, w: nat)
    requires InBounds(c, s) && InBounds(c, s') && BuffersOk(c, s)
    requires s'.buffers == s.buffers && s'.cur == s.cur && s'.numEdges == s.numEdges && s'.round == s.round
    requires s'.m == s.m || s'.m == WakeMaster(s.m, w)
    ensures BuffersOk(c, s')
  {
    hide Block;
  }

  lemma WorkerStepAwake(c: Config, s: State, w: nat, swap: bool)
    requires Inv(c, s) && w < c.workers && WorkerEnabled(s, w)
    ensures InBounds(c, WorkerStep(c, s, w, swap)) && SleepOk(c, WorkerStep(c, s, w, swap))
  {
    WorkerStepInBounds(c, s, w, swap);
    assert SleepOk(c, s);
    hide WorkerOk, Serial, Apply, Block, BuffersOk, AsOp, Sent;
  }

  lemma WorkerStepSleep(c: Config, s: State, w: nat, swap: bool)
    requires Inv(c, s) && w < c.workers && WorkerEnabled(s, w)
    ensures InBounds(c, WorkerStep(c, s, w, swap)) && SleepOk(c, WorkerStep(c, s, w, swap))
    ensures BuffersOk(c, WorkerStep(c, s, w, swap))
    ensures WorkerStep(c, s, w, swap).round <= |c.log|
  {
    assert w < |s.ws|;
    hide *;
    WorkerStepBuffers(c, s, w, swap);
    WorkerStepAwake(c, s, w, swap);
  }

  lemma WorkerKeeps(c: Config, s: State, w: nat, swap: bool)
    requires WellConfigured(c) && Inv(c, s) && w < c.workers && WorkerEnabled(s, w)
    ensures Inv(c, WorkerStep(c, s, w, swap))
  {
    hide *;
    RoundInLog(c, s);
    var s' := WorkerStep(c, s, w, swap);
    WorkerStepInBounds(c, s, w, swap);
    forall v: nat | v < c.workers
      ensures WorkerOk(c, s', v)
    {
      if v != w {
        WorkerStepOfAnother(c, s, w, swap, v);
      } else {
        WorkerStepOwn(c, s, w, swap);
      }
    }
    WorkerStepOwn(c, s, w, swap);
    WorkerStepSleep(c, s, w, swap);
    InvIntro(c, s');
  }

  lemma WorkerStepInBounds(c: Config, s: State, w: nat, swap: bool)
    requires InBounds(c, s) && w < c.workers && w < |s.ws| && WorkerEnabled(s, w)
    ensures InBounds(c, WorkerStep(c, s, w, swap))
  {
  }

  lemma InvIntro(c: Config, s: State)
    requires InBounds(c, s) && s.round <= |c.log| && BuffersOk(c, s) && SleepOk(c, s)
    requires forall w: nat :: w < c.workers ==> WorkerOk(c, s, w)
    requires s.graph == Serial(c.directed, c.start, s.trace)
    ensures Inv(c, s)
  {
  }

  lemma MasterStepInBounds(c: Config, s: State)
    requires Inv(c, s) && MasterEnabled(s)
    ensures var s' := MasterStep(c, s);
      InBounds(c, s') && s'.graph == s.graph && s'.trace == s.trace
  {
    hide WorkerOk, Serial, Block, SleepOk;
  }

  /** The master touches a worker only through its mailbox, and only when the worker is idle. */
  lemma MasterStepWorker(c: Config, s: State, w: nat)
    requires WellConfigured(c) && Inv(c, s) && MasterEnabled(s) && w < c.workers
    ensures InBounds(c, MasterStep(c, s)) && WorkerOk(c, MasterStep(c, s), w)
  {
    var s' := MasterStep(c, s);
    MasterStepInBounds(c, s);
    assert WorkerOk(c, s, w) && BuffersOk(c, s) && SleepOk(c, s);
    hide Inv, WellConfigured, Share, Serial;
    if s'.ws[w] == s.ws[w] && s'.round == s.round && s'.cur == s.cur && PhaseOf(s'.m, w) == PhaseOf(s.m, w) {
      assert s'.trace == s.trace;
      hide MasterStep, WorkerOk, BuffersOk, SleepOk;
      Undisturbed(c, s, s', w);
    } else if s.m.AwaitExec? && s.m.w >= c.workers {
      assert s.round < |c.log|;
      ShareAfterBlock(c, s, w);
    } else if s.m.PostLoad? || s.m.PostExec? {
      MailboxWorker(c, s, w);
    } else if s.m.NotifyLoad? || s.m.NotifyExec? {
      NotifiedWorker(c, s, w);
    } else {
      AwaitedWorker(c, s, w);
    }
  }

  lemma MailboxWorker(c: Config, s: State, w: nat)
    requires InBounds(c, s) && (s.m.PostLoad? || s.m.PostExec?) && w < c.workers && BuffersOk(c, s) && WorkerOk(c, s, w)
    requires s.m.w < c.workers ==> PhaseOf(s.m, s.m.w) in {Fresh, Loaded} && WorkerOk(c, s, s.m.w)
    ensures InBounds(c, MasterStep(c, s)) && WorkerOk(c, MasterStep(c, s), w)
  {
    hide Share;
  }

  lemma NotifiedWorker(c: Config, s: State, w: nat)
    requires InBounds(c, s) && (s.m.NotifyLoad? || s.m.NotifyExec?) && w < c.workers && BuffersOk(c, s)
    requires WorkerOk(c, s, w)
    ensures InBounds(c, MasterStep(c, s)) && WorkerOk(c, MasterStep(c, s), w)
  {
    hide Share;
  }

  lemma AwaitedLoadWorker(c: Config, s: State, w: nat)
    requires InBounds(c, s) && MasterEnabled(s) && w < c.workers && BuffersOk(c, s) && WorkerOk(c, s, w)
    requires s.m.AwaitLoad?
    ensures InBounds(c, MasterStep(c, s)) && WorkerOk(c, MasterStep(c, s), w)
  {
    hide Share;
  }

  lemma AwaitedExecWorker(c: Config, s: State, w: nat)
    requires InBounds(c, s) && MasterEnabled(s) && w < c.workers && BuffersOk(c, s) && WorkerOk(c, s, w)
    requires s.m.AwaitExec? && s.m.w < c.workers
    ensures InBounds(c, MasterStep(c, s)) && WorkerOk(c, MasterStep(c, s), w)
  {
    hide Share;
  }

  lemma ReadingWorker(c: Config, s: State, w: nat)
    requires InBounds(c, s) && MasterEnabled(s) && w < c.workers && BuffersOk(c, s) && WorkerOk(c, s, w)
    requires s.m.FirstLoad? || s.m.Head? || s.m.NextLoad?
    ensures InBounds(c, MasterStep(c, s)) && WorkerOk(c, MasterStep(c, s), w)
  {
    hide Share;
  }

  lemma AwaitedWorker(c: Config, s: State, w: nat)
    requires InBounds(c, s) && MasterEnabled(s) && w < c.workers && BuffersOk(c, s) && WorkerOk(c, s, w)
    requires !s.m.PostLoad? && !s.m.PostExec? && !s.m.NotifyLoad? && !s.m.NotifyExec?
    requires !(s.m.AwaitExec? && s.m.w >= c.workers)
    ensures InBounds(c, MasterStep(c, s)) && WorkerOk(c, MasterStep(c, s), w)
  {
    assert s.m != Done && s.m != Busy;
    hide *;
    if s.m.AwaitLoad? {
      AwaitedLoadWorker(c, s, w);
    } else if s.m.AwaitExec? {
      AwaitedExecWorker(c, s, w);
    } else {
      ReadingWorker(c, s, w);
    }
  }

  lemma MasterStepSleep(c: Config, s: State)
    requires Inv(c, s) && MasterEnabled(s)
    ensures InBounds(c, MasterStep(c, s)) && SleepOk(c, MasterStep(c, s))
  {
    MasterStepInBounds(c, s);
    assert BuffersOk(c, s) && SleepOk(c, s);
    hide Inv, WorkerOk, Serial, Block;
  }

  lemma MailboxIsFree(c: Config, s: State)
    requires Inv(c, s)
    ensures (s.m.PostLoad? || s.m.PostExec?) && s.m.w < c.workers ==> s.ws[s.m.w].task == Idle
  {
    if (s.m.PostLoad? || s.m.PostExec?) && s.m.w < c.workers {
      assert WorkerOk(c, s, s.m.w);
    }
  }

  lemma ReadingBuffers(c: Config, s: State)
    requires Inv(c, s) && MasterEnabled(s) && (s.m.FirstLoad? || s.m.NextLoad? || s.m.Head?)
    ensures InBounds(c, MasterStep(c, s)) && BuffersOk(c, MasterStep(c, s)) && MasterStep(c, s).round <= |c.log|
  {
    MasterStepInBounds(c, s);
    assert BuffersOk(c, s) && s.round <= |c.log|;
    hide Inv, WorkerOk, Serial, SleepOk;
  }

  lemma PostingBuffers(c: Config, s: State)
    requires Inv(c, s) && MasterEnabled(s) && (s.m.PostLoad? || s.m.NotifyLoad? || s.m.PostExec? || s.m.NotifyExec?)
    ensures InBounds(c, MasterStep(c, s)) && BuffersOk(c, MasterStep(c, s)) && MasterStep(c, s).round <= |c.log|
  {
    MasterStepInBounds(c, s);
    MailboxIsFree(c, s);
    assert BuffersOk(c, s) && s.round <= |c.log|;
    hide Inv, WorkerOk, Serial, SleepOk, Block;
  }

  lemma AwaitingBuffers(c: Config, s: State)
    requires Inv(c, s) && MasterEnabled(s) && (s.m.AwaitLoad? || s.m.AwaitExec?)
    ensures InBounds(c, MasterStep(c, s)) && BuffersOk(c, MasterStep(c, s)) && MasterStep(c, s).round <= |c.log|
  {
    MasterStepInBounds(c, s);
    assert BuffersOk(c, s) && s.round <= |c.log|;
    hide Inv, WorkerOk, Serial, SleepOk;
  }

  lemma MasterStepBuffers(c: Config, s: State)
    requires Inv(c, s) && MasterEnabled(s)
    ensures InBounds(c, MasterStep(c, s)) && BuffersOk(c, MasterStep(c, s)) && MasterStep(c, s).round <= |c.log|
  {
    MasterStepInBounds(c, s);
    NotBusy(c, s);
    hide *;
    if s.m.FirstLoad? || s.m.NextLoad? || s.m.Head? {
      ReadingBuffers(c, s);
    } else if s.m.AwaitLoad? || s.m.AwaitExec? {
      AwaitingBuffers(c, s);
    } else {
      PostingBuffers(c, s);
    }
  }

  lemma NotBusy(c: Config, s: State)
    requires Inv(c, s) && MasterEnabled(s)
    ensures s.m != Done && s.m != Busy
  {
    assert BuffersOk(c, s);
    hide WorkerOk, SleepOk, Serial;
  }

  lemma MasterStepRest(c: Config, s: State)
    requires WellConfigured(c) && Inv(c, s) && MasterEnabled(s)
    ensures var s' := MasterStep(c, s);
      && InBounds(c, s') && SleepOk(c, s') && BuffersOk(c, s') && s'.round <= |c.log|
      && s'.graph == s.graph && s'.trace == s.trace
  {
    hide *;
    MasterStepInBounds(c, s);
    MasterStepSleep(c, s);
    MasterStepBuffers(c, s);
  }

  lemma MasterKeeps(c: Config, s: State)
    requires WellConfigured(c) && Inv(c, s) && MasterEnabled(s)
    ensures Inv(c, MasterStep(c, s))
  {
    hide *;
    RoundInLog(c, s);
    var s' := MasterStep(c, s);
    MasterStepRest(c, s);
    forall w: nat | w < c.workers
      ensures WorkerOk(c, s', w)
    {
      MasterStepWorker(c, s, w);
    }
    InvIntro(c, s');
  }

  /** A worker that wakes for no reason is where it was. */
  lemma WokenWorker(c: Config, s: State, s': State, v: nat, w: nat)
    requires InBounds(c, s) && w < c.workers && WorkerOk(c, s, w) && v < |s.ws|
    requires s' == s.(ws := s.ws[v := Wake(s.ws[v])])
    ensures InBounds(c, s') && WorkerOk(c, s', w)
  {
    assert Before(c, s') == Before(c, s) && Mine(c, s', w) == Mine(c, s, w);
    hide Share, Block, Before, Mine;
  }

  lemma WokenMaster(c: Config, s: State, s': State, v: nat, w: nat)
    requires InBounds(c, s) && w < c.workers && WorkerOk(c, s, w) && s' == s.(m := WakeMaster(s.m, v))
    ensures InBounds(c, s') && WorkerOk(c, s', w)
  {
    assert PhaseOf(s'.m, w) == PhaseOf(s.m, w);
    hide WakeMaster, PhaseOf, WorkerOk;
    Undisturbed(c, s, s', w);
  }

  lemma TickedMaster(c: Config, s: State, s': State, w: nat)
    requires InBounds(c, s) && w < c.workers && WorkerOk(c, s, w) && s.m.AwaitExec?
    requires s' == s.(m := AwaitExec(0, false))
    ensures InBounds(c, s') && WorkerOk(c, s', w)
  {
    assert Before(c, s') == Before(c, s) && Mine(c, s', w) == Mine(c, s, w);
    assert AtRest(s.ws[w], []) ==> AtRest(s'.ws[w], []);
  }

  lemma SpuriousWorker(c: Config, s: State, s': State, w: nat)
    requires Inv(c, s) && Spurious(s, s') && w < c.workers
    ensures InBounds(c, s') && WorkerOk(c, s', w)
  {
    InvParts(c, s, w);
    hide Inv, InBounds, WorkerOk, Wake, WakeMaster;
    if v: nat :| v < |s.ws| && s' == s.(ws := s.ws[v := Wake(s.ws[v])]) {
      WokenWorker(c, s, s', v, w);
    } else if v: nat :| s' == s.(m := WakeMaster(s.m, v)) {
      WokenMaster(c, s, s', v, w);
    } else {
      TickedMaster(c, s, s', w);
    }
  }

  lemma SpuriousRest(c: Config, s: State, s': State)
    requires Inv(c, s) && Spurious(s, s')
    ensures InBounds(c, s') && SleepOk(c, s') && BuffersOk(c, s') && s'.round == s.round && s'.graph == s.graph
    ensures s'.trace == s.trace
  {
    assert BuffersOk(c, s) && SleepOk(c, s);
    hide WorkerOk, Serial, Share, Block;
  }

  lemma SpuriousKeeps(c: Config, s: State, s': State)
    requires Inv(c, s) && Spurious(s, s')
    ensures Inv(c, s')
  {
    hide *;
    RoundInLog(c, s);
    SpuriousRest(c, s, s');
    forall w: nat | w < c.workers
      ensures WorkerOk(c, s', w)
    {
      SpuriousWorker(c, s, s', w);
    }
    InvIntro(c, s');
  }

  lemma InitHolds(c: Config, s: State)
    requires WellConfigured(c) && Init(c, s)
    ensures Inv(c, s)
  {
    assert c.log[..0] == [];
    forall w: nat | w < c.workers
      ensures WorkerOk(c, s, w)
    {
      assert Share(c.owner, [], w) == [];
    }
  }

  lemma NextKeeps(c: Config, s: State, s': State)
    requires WellConfigured(c) && Inv(c, s) && Next(c, s, s')
    ensures Inv(c, s')
  {
    RoundInLog(c, s);
    if MasterEnabled(s) && s' == MasterStep(c, s) {
      hide *;
      MasterKeeps(c, s);
    } else if Spurious(s, s') {
      hide *;
      SpuriousKeeps(c, s, s');
    } else {
      var w: nat, swap :| w < |s.ws| && WorkerEnabled(s, w) && s' == WorkerStep(c, s, w, swap);
      hide Inv, WorkerStep, WellConfigured;
      WorkerKeeps(c, s, w, swap);
    }
  }

  // ----- runs

  ghost predicate Run(c: Config, run: seq<State>)
  {
    && run != [] && Init(c, run[0])
    && forall i :: 0 <= i < |run| - 1 ==> InBounds(c, run[i]) && Next(c, run[i], run[i + 1])
  }

  lemma {:induction false} RunKeeps(c: Config, run: seq<State>, i: nat)
    requires WellConfigured(c) && Run(c, run) && i < |run|
    ensures Inv(c, run[i])
  {
    hide *;
    RunStart(c, run);
    if i == 0 {
      InitHolds(c, run[0]);
    } else {
      RunKeeps(c, run, i - 1);
      RunStep(c, run, i - 1);
      NextKeeps(c, run[i - 1], run[i]);
    }
  }

  lemma RunStart(c: Config, run: seq<State>)
    requires Run(c, run)
    ensures run != [] && Init(c, run[0])
  {
    hide Init, Next, InBounds;
  }

  lemma RunStep(c: Config, run: seq<State>, i: nat)
    requires Run(c, run) && i + 1 < |run|
    ensures InBounds(c, run[i]) && Next(c, run[i], run[i + 1])
  {
    hide Init, Next, InBounds;
  }

  /**
   Whatever the interleaving of loader, master and workers and whatever endpoints are swapped, a
   finished replay leaves the graph that serial replay of the whole log builds.
   */
  lemma FinishedReplayIsSerial(c: Config, run: seq<State>, i: nat)
    requires WellConfigured(c) && Run(c, run) && i < |run| && run[i].m == Done
    ensures Interleaves(c.owner, Flatten(c.log), run[i].trace)
    ensures run[i].graph == Serial(c.directed, c.start, Flatten(c.log))
  {
    RunKeeps(c, run, i);
    var s := run[i];
    assert s.round == |c.log|;
    assert c.log[..|c.log|] == c.log;
    forall w: nat
      ensures Share(c.owner, s.trace, w) == Share(c.owner, Flatten(c.log), w)
    {
      if w < c.workers {
        assert WorkerOk(c, s, w);
      } else {
        NoShareBeyond(c, s.trace, w);
        NoShareBeyond(c, Flatten(c.log), w);
      }
    }
    ReplayIsSerializable(c.directed, c.owner, c.start, Flatten(c.log), s.trace);
  }

  /** In every run no forced removal fails, so nothing is ever tried a second time. */
  lemma RemovalsNeverRetry(c: Config, run: seq<State>, i: nat, w: nat, swap: bool)
    requires WellConfigured(c) && Run(c, run) && i < |run| && w < c.workers && |run[i].ws| == c.workers
    requires run[i].ws[w].pc == Executing && run[i].ws[w].pos < |run[i].ws[w].list|
    ensures var u := run[i].ws[w].list[run[i].ws[w].pos]; u.src != u.dst && Accepted(run[i].graph, Sent(c, u, swap))
  {
    RunKeeps(c, run, i);
    hide *;
    FirstTry(c, run[i], w, swap);
  }

  /** The mailbox is free whenever the master posts, and the loader never writes the buffer that a worker reads. */
  lemma BuffersAreRaceFree(c: Config, run: seq<State>, i: nat, w: nat)
    requires WellConfigured(c) && Run(c, run) && i < |run| && w < c.workers
    ensures var s := run[i];
      && InBounds(c, s) && s.m != Busy
      && ((s.m.PostLoad? || s.m.PostExec?) && s.m.w < c.workers ==> s.ws[s.m.w].task == Idle)
      && (s.ws[w].task.Load? ==>
        s.ws[w].task.buffer == s.cur && !s.m.FirstLoad? && s.buffers[s.cur] == Block(c, s.round))
  {
    RunKeeps(c, run, i);
    MailboxIsFree(c, run[i]);
    assert WorkerOk(c, run[i], w);
  }

  /** When `wait` has returned for a worker, the effect of its task is there, exactly once. */
  lemma WaitMeansDone(c: Config, run: seq<State>, i: nat, w: nat)
    requires WellConfigured(c) && Run(c, run) && i < |run| && w < c.workers
    ensures var s := run[i];
      && InBounds(c, s)
      && ((s.m.AwaitLoad? && w < s.m.w) || (s.m.PostExec? && w >= s.m.w) ==>
            s.ws[w].list == Share(c.owner, Block(c, s.round), w)
              && Share(c.owner, s.trace, w) == Share(c.owner, Before(c, s), w))
      && (s.m.AwaitExec? && w < s.m.w ==>
            s.ws[w].list == [] && Share(c.owner, s.trace, w) == Share(c.owner, Before(c, s), w) + Share(c.owner,
              Block(c, s.round), w))
  {
    RunKeeps(c, run, i);
    assert WorkerOk(c, run[i], w);
  }

  /** Until the replay is done some thread can move, without a spurious wake-up. */
  lemma NeverStuck(c: Config, run: seq<State>, i: nat)
    requires WellConfigured(c) && Run(c, run) && i < |run|
    ensures var s := run[i];
      InBounds(c, s) && (s.m == Done || MasterEnabled(s) || exists w: nat :: w < |s.ws| && WorkerEnabled(s, w))
  {
    RunKeeps(c, run, i);
    SomeoneMoves(c, run[i]);
  }

  lemma SomeoneMoves(c: Config, s: State)
    requires Inv(c, s)
    ensures s.m == Done || MasterEnabled(s) || exists w: nat :: w < |s.ws| && WorkerEnabled(s, w)
  {
    if s.m != Done && !MasterEnabled(s) {
      assert s.m.AwaitLoad? || s.m.AwaitExec?;
      assert s.ws[s.m.w].pc != Waiting(true);
      assert WorkerEnabled(s, s.m.w);
    }
  }
}
