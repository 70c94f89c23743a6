/** The update pipeline always finishes: every step of a thread decreases a well-founded measure. */
module PipelineProgress {
  import opened Replay
  import opened Pipeline

  function Stage(m: MasterPc): nat
  {
    match m
    case FirstLoad(_) => 9
    case Head => 8
    case PostLoad(_) => 7
    case NotifyLoad(_) => 7
    case NextLoad(_) => 6
    case AwaitLoad(_, _) => 5
    case PostExec(_) => 4
    case NotifyExec(_) => 4
    case AwaitExec(_, _) => 3
    case Done => 0
    case Busy => 0
  }

  function Minus(a: nat, b: nat): nat
  {
    if b <= a then a - b else 0
  }

  /** What is left of the current stage of the master. */
  function Left(c: Config, s: State): nat
  {
    match s.m
    case FirstLoad(k) => Minus(|Block(c, 0)|, k)
    case PostLoad(w) => 2 * Minus(c.workers, w) + 1
    case NotifyLoad(w) => 2 * Minus(c.workers, w)
    case NextLoad(k) => Minus(|Block(c, s.round + 1)|, k)
    case AwaitLoad(w, _) => Minus(c.workers, w)
    case PostExec(w) => 2 * Minus(c.workers, w) + 1
    case NotifyExec(w) => 2 * Minus(c.workers, w)
    case AwaitExec(w, _) => Minus(c.workers, w)
    case _ => 0
  }

  /** What is left of the task of a worker. */
  function Work(me: Worker): nat
  {
    match me.task
    case Idle => 0
    case Load(_, n) =>
      (match me.pc
       case Waiting(_) => n + 3
       case Loading(i) => Minus(n, i) + 2
       case _ => 1)
    case Execute =>
      match me.pc
      case Waiting(_) => |me.list| + 3
      case Executing => Minus(|me.list|, me.pos) + 2
      case _ => 1
  }

  function Awake(me: Worker): nat
  {
    if me.pc == Waiting(false) then 1 else 0
  }

  function TotalWork(ws: seq<Worker>): nat
  {
    if ws == [] then 0 else TotalWork(ws[..|ws| - 1]) + Work(ws[|ws| - 1])
  }

  function TotalAwake(ws: seq<Worker>): nat
  {
    if ws == [] then 0 else TotalAwake(ws[..|ws| - 1]) + Awake(ws[|ws| - 1])
  }

  function Wakeful(s: State): nat
  {
    TotalAwake(s.ws) + if (s.m.AwaitLoad? || s.m.AwaitExec?) && !s.m.asleep then 1 else 0
  }

  lemma {:induction false} UpdateTotals(ws: seq<Worker>, w: nat, me: Worker)
    requires w < |ws|
    ensures TotalWork(ws[w := me]) + Work(ws[w]) == TotalWork(ws) + Work(me)
    ensures TotalAwake(ws[w := me]) + Awake(ws[w]) == TotalAwake(ws) + Awake(me)
  {
    var last := |ws| - 1;
    if w == last {
      assert ws[w := me][..last] == ws[..last];
    } else {
      assert ws[w := me][..last] == ws[..last][w := me];
      UpdateTotals(ws[..last], w, me);
    }
  }

  function RoundsLeft(c: Config, s: State): nat
  {
    Minus(|c.log|, s.round)
  }

  ghost predicate Less(c: Config, s': State, s: State)
  {
    RoundsLeft(c, s') < RoundsLeft(c, s) || (RoundsLeft(c, s') == RoundsLeft(c, s) &&
      (Stage(s'.m) < Stage(s.m) || (Stage(s'.m) == Stage(s.m) &&
        (Left(c, s') < Left(c, s) || (Left(c, s') == Left(c, s) &&
          (TotalWork(s'.ws) < TotalWork(s.ws) || (TotalWork(s'.ws) == TotalWork(s.ws) && Wakeful(s') < Wakeful(s))))))))
  }

  lemma MasterStepLess(c: Config, s: State)
    requires WellConfigured(c) && Inv(c, s) && MasterEnabled(s)
    ensures Less(c, MasterStep(c, s), s)
  {
    MailboxIsFree(c, s);
    assert BuffersOk(c, s) && s.round <= |c.log|;
    hide Inv, WellConfigured, WorkerOk, SleepOk, TotalWork, TotalAwake;
  }

  lemma ExecutingShape(c: Config, s: State, w: nat, swap: bool)
    requires WellConfigured(c) && Inv(c, s) && w < c.workers && WorkerEnabled(s, w) && s.ws[w].pc.Executing?
    ensures var s' := WorkerStep(c, s, w, swap);
      && |s'.ws| == c.workers && s'.round == s.round && s'.ws == s.ws[w := s'.ws[w]]
      && Stage(s'.m) == Stage(s.m) && Left(c, s') == Left(c, s)
      && (Work(s'.ws[w]) < Work(s.ws[w]) ||
           (s'.m == s.m && Work(s'.ws[w]) == Work(s.ws[w]) && Awake(s'.ws[w]) < Awake(s.ws[w])))
  {
    assert WorkerOk(c, s, w);
    if s.ws[w].pos < |s.ws[w].list| {
      FirstTry(c, s, w, swap);
    }
    hide Inv, WellConfigured, Share, BuffersOk, SleepOk;
  }

  lemma OtherShape(c: Config, s: State, w: nat, swap: bool)
    requires WellConfigured(c) && Inv(c, s) && w < c.workers && WorkerEnabled(s, w) && !s.ws[w].pc.Executing?
    requires !s.ws[w].pc.Loading?
    ensures var s' := WorkerStep(c, s, w, swap);
      && |s'.ws| == c.workers && s'.round == s.round && s'.ws == s.ws[w := s'.ws[w]]
      && Stage(s'.m) == Stage(s.m) && Left(c, s') == Left(c, s)
      && (Work(s'.ws[w]) < Work(s.ws[w]) ||
           (s'.m == s.m && Work(s'.ws[w]) == Work(s.ws[w]) && Awake(s'.ws[w]) < Awake(s.ws[w])))
  {
    assert WorkerOk(c, s, w);
    hide Inv, WellConfigured, Share, BuffersOk, SleepOk;
  }

  lemma LoadingShape(c: Config, s: State, w: nat, swap: bool)
    requires WellConfigured(c) && Inv(c, s) && w < c.workers && WorkerEnabled(s, w) && s.ws[w].pc.Loading?
    ensures var s' := WorkerStep(c, s, w, swap);
      && |s'.ws| == c.workers && s'.round == s.round && s'.ws == s.ws[w := s'.ws[w]]
      && Stage(s'.m) == Stage(s.m) && Left(c, s') == Left(c, s)
      && (Work(s'.ws[w]) < Work(s.ws[w]) ||
           (s'.m == s.m && Work(s'.ws[w]) == Work(s.ws[w]) && Awake(s'.ws[w]) < Awake(s.ws[w])))
  {
    assert WorkerOk(c, s, w);
    assert BuffersOk(c, s);
    hide Inv, WellConfigured, Share, SleepOk;
  }

  lemma WorkerStepShape(c: Config, s: State, w: nat, swap: bool)
    requires WellConfigured(c) && Inv(c, s) && w < c.workers && WorkerEnabled(s, w)
    ensures var s' := WorkerStep(c, s, w, swap);
      && |s'.ws| == c.workers && s'.round == s.round && s'.ws == s.ws[w := s'.ws[w]]
      && Stage(s'.m) == Stage(s.m) && Left(c, s') == Left(c, s)
      && (Work(s'.ws[w]) < Work(s.ws[w]) ||
           (s'.m == s.m && Work(s'.ws[w]) == Work(s.ws[w]) && Awake(s'.ws[w]) < Awake(s.ws[w])))
  {
    assert w < |s.ws|;
    hide *;
    if s.ws[w].pc.Executing? {
      ExecutingShape(c, s, w, swap);
    } else if s.ws[w].pc.Loading? {
      LoadingShape(c, s, w, swap);
    } else {
      OtherShape(c, s, w, swap);
    }
  }

  lemma WorkerStepLess(c: Config, s: State, w: nat, swap: bool)
    requires WellConfigured(c) && Inv(c, s) && w < c.workers && WorkerEnabled(s, w)
    ensures Less(c, WorkerStep(c, s, w, swap), s)
  {
    var s' := WorkerStep(c, s, w, swap);
    WorkerStepShape(c, s, w, swap);
    UpdateTotals(s.ws, w, s'.ws[w]);
    hide Inv, WellConfigured, WorkerStep, TotalWork, TotalAwake, Work, Awake, Stage, Left;
  }

  // A scheduling decision: the master, or a worker with or without a swap of the endpoints.
  datatype Choice = RunMaster | RunWorker(w: nat, swap: bool)

  ghost predicate Enabled(c: Config, s: State, choice: Choice)
  {
    match choice
    case RunMaster => MasterEnabled(s)
    case RunWorker(w, _) => w < |s.ws| && w < c.workers && WorkerEnabled(s, w)
  }

  ghost function Take(c: Config, s: State, choice: Choice): State
    requires InBounds(c, s) && Enabled(c, s, choice)
  {
    match choice
    case RunMaster => MasterStep(c, s)
    case RunWorker(w, swap) => WorkerStep(c, s, w, swap)
  }

  /** `t` follows `s` by the wanted choice if that is enabled, else by some other one. */
  ghost predicate StepBy(c: Config, s: State, t: State, wanted: Choice)
  {
    && InBounds(c, s)
    && exists choice :: Enabled(c, s, choice) && t == Take(c, s, choice) && (Enabled(c, s, wanted) ==> choice == wanted)
  }

  ghost predicate Follows(c: Config, run: seq<State>, schedule: nat -> Choice)
  {
    forall i :: 0 <= i < |run| - 1 ==> StepBy(c, run[i], run[i + 1], schedule(i))
  }

  lemma OneStep(c: Config, s: State, wanted: Choice) returns (t: State)
    requires WellConfigured(c) && Inv(c, s) && s.m != Done
    ensures StepBy(c, s, t, wanted)
    ensures Inv(c, t) && Less(c, t, s)
  {
    RoundInLog(c, s);
    SomeoneMoves(c, s);
    var choice;
    if Enabled(c, s, wanted) {
      choice := wanted;
    } else if MasterEnabled(s) {
      choice := RunMaster;
    } else {
      var w: nat :| w < |s.ws| && WorkerEnabled(s, w);
      choice := RunWorker(w, false);
    }
    t := Take(c, s, choice);
    assert StepBy(c, s, t, wanted);
    hide Inv, WellConfigured, MasterStep, WorkerStep, Less;
    match choice {
      case RunMaster =>
        MasterKeeps(c, s);
        MasterStepLess(c, s);
      case RunWorker(w, swap) =>
        WorkerKeeps(c, s, w, swap);
        WorkerStepLess(c, s, w, swap);
    }
  }

  /** Under every schedule the replay is done after finitely many steps. */
  lemma {:induction false} EveryScheduleFinishes(c: Config, s: State, schedule: nat -> Choice) returns (run: seq<State>)
    requires WellConfigured(c) && Inv(c, s)
    ensures run != [] && run[0] == s && Follows(c, run, schedule)
    ensures Inv(c, run[|run| - 1]) && run[|run| - 1].m == Done
    decreases RoundsLeft(c, s), Stage(s.m), Left(c, s), TotalWork(s.ws), Wakeful(s)
  {
    hide Inv, WellConfigured, StepBy, Stage, Left, TotalWork, Wakeful, RoundsLeft;
    if s.m == Done {
      run := [s];
    } else {
      var t := OneStep(c, s, schedule(0));
      var rest := EveryScheduleFinishes(c, t, (i: nat) => schedule(i + 1));
      run := [s] + rest;
    }
  }
}
