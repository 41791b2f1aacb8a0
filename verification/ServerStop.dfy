/** The graceful stop of TcpServer: the base loop's FIFO of tasks, the three executors that requests leave for,
    and the stop chain stopInBaseLoop, tryFinishStop, finishStop, finalizeStop.

    A base step runs the task at the head of the queue, or, when the base thread itself calls runInLoop, runs a task
    inline ahead of everything queued: that is how the signal callback stops the server, and how connections are added
    and removed when there are no io threads. Workers and other threads step at any time, also while the base thread is
    blocked inside finishStop joining an executor. An executor's stop returns only when nothing waits and nothing runs,
    which is what module ThreadPools proves of it. */
module ServerStops {

  datatype ExecName = Redis | Message | DbRead

  datatype Exec = Exec(
    open: bool,                     // still accepts submissions
    joined: bool,                   // its stop has returned
    waiting: set<nat>,
    running: set<nat>,
    accepted: set<nat>,             // history: every job it ever accepted
    completed: set<nat>,            // history: jobs whose base-loop completion has run
    threw: set<nat>,                // history: jobs that ended without posting one, because they threw
    discarded: set<nat>)            // history: jobs dropped by Discard

  datatype Execs = Execs(redis: Exec, message: Exec, dbRead: Exec) {
    function Get(e: ExecName): Exec {
      match e
      case Redis => redis
      case Message => message
      case DbRead => dbRead
    }

    function Put(e: ExecName, x: Exec): Execs {
      match e
      case Redis => this.(redis := x)
      case Message => this.(message := x)
      case DbRead => this.(dbRead := x)
    }
  }

  datatype BaseTask =
    | Stop
    | Add(conn: nat)
    | Remove(conn: nat)
    | Request
    | Completion(exec: ExecName, job: nat)
    | Finalize

  /** The base thread is free, or blocked in finishStop until the named executor is joined. */
  datatype Base = Ready | Draining(exec: ExecName)

  datatype Server = Server(
    stopping: bool,
    finalStopQueued: bool,
    stopped: bool,
    connections: set<nat>,
    closing: set<nat>,              // connections whose io loop still has to run the forceClose of the stop
    tasks: seq<BaseTask>,
    base: Base,
    execs: Execs,
    finalizations: nat)             // history: how often finalizeStop took effect

  datatype Step =
    | Post(task: BaseTask)
    | RunHead
    | RunInline(task: BaseTask)
    | ForcedClose(conn: nat)
    | Submit(exec: ExecName, job: nat)
    | WorkerTake(exec: ExecName, job: nat)
    | WorkerDone(exec: ExecName, job: nat, throws: bool)
    | Joined

  function IdleExec(open: bool): Exec {
    Exec(open, false, {}, {}, {}, {}, {}, {})
  }

  /** An executor that is not configured behaves like one that never opens. */
  function Init(enabled: set<ExecName>): Server {
    Server(false, false, false, {}, {}, [], Ready,
           Execs(IdleExec(Redis in enabled), IdleExec(Message in enabled), IdleExec(DbRead in enabled)), 0)
  }

  /** The stop of an executor begins: no more submissions, and Discard (redis only) empties the queue. */
  function Close(x: Exec, name: ExecName): Exec {
    if name == Redis then x.(open := false, discarded := x.discarded + x.waiting, waiting := {})
    else x.(open := false)
  }

  function BeginDraining(s: Server, e: ExecName): Server {
    s.(base := Draining(e), execs := s.execs.Put(e, Close(s.execs.Get(e), e)))
  }

  function TryFinishStop(s: Server): Server {
    if !s.stopping || s.connections != {} || s.finalStopQueued then s
    else BeginDraining(s.(finalStopQueued := true), Redis)
  }

  /** A task that runInLoop takes; completions and the finalization only ever go through the queue. */
  predicate Runnable(task: BaseTask) {
    task.Stop? || task.Add? || task.Remove? || task.Request?
  }

  predicate Enabled(s: Server, step: Step) {
    match step
    case Post(task) => Runnable(task)
    case RunHead => s.base.Ready? && s.tasks != []
    case RunInline(task) => s.base.Ready? && Runnable(task)
    case ForcedClose(c) => c in s.closing
    // Handlers and completions run on the base thread and submit only while the server is not stopping.
    case Submit(e, j) => s.base.Ready? && !s.stopping && s.execs.Get(e).open && j !in s.execs.Get(e).accepted
    case WorkerTake(e, j) => j in s.execs.Get(e).waiting
    case WorkerDone(e, j, _) => j in s.execs.Get(e).running
    case Joined => s.base.Draining? && s.execs.Get(s.base.exec).waiting == {} && s.execs.Get(s.base.exec).running == {}
  }

  function RunTask(s: Server, task: BaseTask): Server {
    match task
    case Stop => if s.stopping then s else TryFinishStop(s.(stopping := true, closing := s.connections))
    case Add(c) => if s.stopping then s else s.(connections := s.connections + {c})
    case Remove(c) => TryFinishStop(s.(connections := s.connections - {c}))
    case Request => s
    case Completion(e, j) =>
      var x := s.execs.Get(e);
      s.(execs := s.execs.Put(e, x.(completed := x.completed + {j})))
    case Finalize => if s.stopped then s else s.(stopped := true, finalizations := s.finalizations + 1)
  }

  function AfterJoin(s: Server): Server
    requires s.base.Draining?
  {
    var e := s.base.exec;
    var s1 := s.(execs := s.execs.Put(e, s.execs.Get(e).(joined := true)));
    match e
    case Redis => BeginDraining(s1, Message)
    case Message => BeginDraining(s1, DbRead)
    case DbRead => s1.(base := Ready, tasks := s.tasks + [Finalize])
  }

  function Apply(s: Server, step: Step): Server
    requires Enabled(s, step)
  {
    match step
    case Post(task) => s.(tasks := s.tasks + [task])
    case RunHead => RunTask(s.(tasks := s.tasks[1..]), s.tasks[0])
    case RunInline(task) => RunTask(s, task)
    // A connection that closed by itself before has posted its removal already.
    case ForcedClose(c) =>
      var r := s.(closing := s.closing - {c});
      if c !in s.connections || Remove(c) in s.tasks then r else r.(tasks := s.tasks + [Remove(c)])
    case Submit(e, j) =>
      var x := s.execs.Get(e);
      s.(execs := s.execs.Put(e, x.(waiting := x.waiting + {j}, accepted := x.accepted + {j})))
    case WorkerTake(e, j) =>
      var x := s.execs.Get(e);
      s.(execs := s.execs.Put(e, x.(waiting := x.waiting - {j}, running := x.running + {j})))
    case WorkerDone(e, j, throws) =>
      var x := s.execs.Get(e).(running := s.execs.Get(e).running - {j});
      if throws then s.(execs := s.execs.Put(e, x.(threw := x.threw + {j})))
      else s.(execs := s.execs.Put(e, x), tasks := s.tasks + [Completion(e, j)])
    case Joined => AfterJoin(s)
  }

  // ---------------------------------------------------------------------------------------------
  // What every step keeps

  predicate AllJoined(x: Execs) {
    x.redis.joined && x.message.joined && x.dbRead.joined
  }

  /** How far the stop chain has come, and what that means for the executors. */
  ghost predicate ChainOk(s: Server) {
    && (s.finalStopQueued ==> s.stopping && s.connections == {})
    && (!s.finalStopQueued ==> s.base.Ready? && !s.stopped && Finalize !in s.tasks)
    && (s.base.Draining? ==> !s.stopped && Finalize !in s.tasks)
    && (s.base == Draining(Message) ==> s.execs.Get(Redis).joined)
    && (s.base == Draining(DbRead) ==> s.execs.Get(Redis).joined && s.execs.Get(Message).joined)
    && (s.base.Draining? ==> !s.execs.Get(s.base.exec).open)
    && (s.finalStopQueued && s.base.Ready? ==> AllJoined(s.execs))
    && s.finalizations == (if s.stopped then 1 else 0)
  }

  /** At most one finalization is queued, never after it took effect, and behind every completion. */
  ghost predicate QueueOk(s: Server) {
    && (forall k :: 0 <= k < |s.tasks| && s.tasks[k].Finalize? ==> !s.stopped)
    && (forall i, k :: 0 <= i < k < |s.tasks| ==> !(s.tasks[i].Finalize? && s.tasks[k].Finalize?))
    && (forall i, k :: 0 <= i < k < |s.tasks| ==> !(s.tasks[i].Finalize? && s.tasks[k].Completion?))
    && (s.stopped ==> forall i :: 0 <= i < |s.tasks| ==> !s.tasks[i].Completion?)
  }

  /** How many completions of a job wait in the base loop's queue. */
  function Posted(tasks: seq<BaseTask>, e: ExecName, j: nat): nat {
    multiset(tasks)[Completion(e, j)]
  }

  function One(b: bool): nat {
    if b then 1 else 0
  }

  /** In how many places a job is. */
  function Places(x: Exec, posted: nat, j: nat): nat {
    One(j in x.waiting) + One(j in x.running) + posted
    + One(j in x.completed) + One(j in x.threw) + One(j in x.discarded)
  }

  /** Every accepted job is in exactly one place and no other job is anywhere; a joined executor has none left. */
  ghost predicate JobsOk(x: Exec, e: ExecName, tasks: seq<BaseTask>) {
    && (x.joined ==> !x.open && x.waiting == {} && x.running == {})
    && (e != Redis ==> x.discarded == {})
    && (forall j :: Places(x, Posted(tasks, e, j), j) == One(j in x.accepted))
  }

  /** The chain starts as soon as it can, and does not stop halfway. */
  ghost predicate NotForgotten(s: Server) {
    && (s.stopping && s.connections == {} ==> s.finalStopQueued)
    && (s.finalStopQueued && s.base.Ready? && !s.stopped ==> Finalize in s.tasks)
    && (s.stopping ==> forall c :: c in s.connections ==> c in s.closing || Remove(c) in s.tasks)
  }

  ghost predicate Inv(s: Server) {
    ChainOk(s) && QueueOk(s) && NotForgotten(s) && forall e: ExecName :: JobsOk(s.execs.Get(e), e, s.tasks)
  }

  lemma RunHeadKeepsChain(s: Server)
    requires ChainOk(s) && QueueOk(s) && Enabled(s, RunHead)
    ensures ChainOk(Apply(s, RunHead))
  {
  }

  lemma StepKeepsChain(s: Server, step: Step)
    requires ChainOk(s) && QueueOk(s) && Enabled(s, step)
    ensures ChainOk(Apply(s, step))
  {
    if step.RunHead? {
      RunHeadKeepsChain(s);
    }
  }

  lemma RunHeadKeepsQueue(s: Server)
    requires QueueOk(s) && Enabled(s, RunHead)
    ensures QueueOk(Apply(s, RunHead))
  {
    var r := Apply(s, RunHead);
    assert r.tasks == s.tasks[1..];
    if s.tasks[0].Finalize? {
      forall i | 0 <= i < |r.tasks| ensures !r.tasks[i].Completion? && !r.tasks[i].Finalize? {
        assert s.tasks[i + 1] == r.tasks[i];
      }
    }
  }

  lemma JoinedKeepsQueue(s: Server)
    requires ChainOk(s) && QueueOk(s) && Enabled(s, Joined)
    ensures QueueOk(Apply(s, Joined))
  {
  }

  lemma WorkerDoneKeepsQueue(s: Server, e: ExecName, j: nat)
    requires ChainOk(s) && QueueOk(s) && JobsOk(s.execs.Get(e), e, s.tasks) && Enabled(s, WorkerDone(e, j, false))
    ensures QueueOk(Apply(s, WorkerDone(e, j, false)))
  {
  }

  lemma PostKeepsQueue(s: Server, r: Server, task: BaseTask)
    requires QueueOk(s) && Runnable(task) && r.stopped == s.stopped && r.tasks == s.tasks + [task]
    ensures QueueOk(r)
  {
  }

  lemma SameQueueKept(s: Server, r: Server)
    requires QueueOk(s) && r.tasks == s.tasks && r.stopped == s.stopped
    ensures QueueOk(r)
  {
  }

  lemma StepKeepsQueue(s: Server, step: Step)
    requires ChainOk(s) && QueueOk(s) && Enabled(s, step)
    requires step.WorkerDone? ==> JobsOk(s.execs.Get(step.exec), step.exec, s.tasks)
    ensures QueueOk(Apply(s, step))
  {
    var r := Apply(s, step);
    match step
    case RunHead => RunHeadKeepsQueue(s);
    case Joined => JoinedKeepsQueue(s);
    case WorkerDone(e, j, throws) => if throws { SameQueueKept(s, r); } else { WorkerDoneKeepsQueue(s, e, j); }
    case Post(task) => PostKeepsQueue(s, r, task);
    case ForcedClose(c) => if r.tasks == s.tasks { SameQueueKept(s, r); } else { PostKeepsQueue(s, r, Remove(c)); }
    case _ => SameQueueKept(s, r);
  }

  lemma PostedOneMore(tasks: seq<BaseTask>, task: BaseTask, e: ExecName, j: nat)
    ensures Posted(tasks + [task], e, j) == Posted(tasks, e, j) + One(task == Completion(e, j))
  {
  }

  lemma PostedOneLess(tasks: seq<BaseTask>, e: ExecName, j: nat)
    requires tasks != []
    ensures Posted(tasks, e, j) == Posted(tasks[1..], e, j) + One(tasks[0] == Completion(e, j))
  {
    assert tasks == [tasks[0]] + tasks[1..];
  }

  lemma MoreTasksKeepJobs(x: Exec, e: ExecName, tasks: seq<BaseTask>, task: BaseTask)
    requires JobsOk(x, e, tasks) && !(task.Completion? && task.exec == e)
    ensures JobsOk(x, e, tasks + [task])
  {
    forall j ensures Places(x, Posted(tasks + [task], e, j), j) == One(j in x.accepted) {
      PostedOneMore(tasks, task, e, j);
    }
  }

  /** A job that ends without throwing moves from the running ones to the queue. */
  lemma DoneKeepsJobs(x: Exec, e: ExecName, tasks: seq<BaseTask>, job: nat)
    requires JobsOk(x, e, tasks) && job in x.running
    ensures JobsOk(x.(running := x.running - {job}), e, tasks + [Completion(e, job)])
  {
    var y := x.(running := x.running - {job});
    forall j ensures Places(y, Posted(tasks + [Completion(e, job)], e, j), j) == One(j in y.accepted) {
      PostedOneMore(tasks, Completion(e, job), e, j);
    }
  }

  /** A completion that runs moves its job to the completed ones. */
  lemma HeadKeepsJobs(x: Exec, y: Exec, e: ExecName, tasks: seq<BaseTask>)
    requires JobsOk(x, e, tasks) && tasks != []
    requires match tasks[0]
             case Completion(e0, j) => y == if e0 == e then x.(completed := x.completed + {j}) else x
             case _ => y == x || (e == Redis && y == Close(x, e))
    ensures JobsOk(y, e, tasks[1..])
  {
    forall j ensures Places(y, Posted(tasks[1..], e, j), j) == One(j in y.accepted) {
      PostedOneLess(tasks, e, j);
      assert Places(x, Posted(tasks, e, j), j) == One(j in x.accepted);
    }
  }

  lemma RunTaskOnExec(s: Server, task: BaseTask, e: ExecName)
    ensures var x, y := s.execs.Get(e), RunTask(s, task).execs.Get(e);
            match task
            case Completion(e0, j) => y == if e0 == e then x.(completed := x.completed + {j}) else x
            case _ => y == x || (e == Redis && y == Close(x, e))
  {
  }

  lemma RunInlineKeepsJobs(s: Server, task: BaseTask, e: ExecName)
    requires JobsOk(s.execs.Get(e), e, s.tasks) && Enabled(s, RunInline(task))
    ensures var r := Apply(s, RunInline(task)); JobsOk(r.execs.Get(e), e, r.tasks)
  {
    RunTaskOnExec(s, task, e);
    CloseKeepsJobs(s.execs.Get(e), e, s.tasks);
  }

  lemma ForcedCloseKeepsJobs(s: Server, c: nat, e: ExecName)
    requires JobsOk(s.execs.Get(e), e, s.tasks) && Enabled(s, ForcedClose(c))
    ensures var r := Apply(s, ForcedClose(c)); JobsOk(r.execs.Get(e), e, r.tasks)
  {
    MoreTasksKeepJobs(s.execs.Get(e), e, s.tasks, Remove(c));
  }

  lemma RunHeadKeepsJobs(s: Server, e: ExecName)
    requires JobsOk(s.execs.Get(e), e, s.tasks) && Enabled(s, RunHead)
    ensures var r := Apply(s, RunHead); JobsOk(r.execs.Get(e), e, r.tasks)
  {
    var r := Apply(s, RunHead);
    RunTaskOnExec(s.(tasks := s.tasks[1..]), s.tasks[0], e);
    HeadKeepsJobs(s.execs.Get(e), r.execs.Get(e), e, s.tasks);
  }

  /** Submitting, taking and throwing move one job from one place to the next. */
  lemma MovedJobKeepsJobs(x: Exec, y: Exec, e: ExecName, tasks: seq<BaseTask>, job: nat)
    requires JobsOk(x, e, tasks) && (x.joined ==> job !in x.waiting && job !in x.running)
    requires || (x.open && job !in x.accepted
                 && y == x.(waiting := x.waiting + {job}, accepted := x.accepted + {job}))
             || (job in x.waiting && y == x.(waiting := x.waiting - {job}, running := x.running + {job}))
             || (job in x.running && y == x.(running := x.running - {job}, threw := x.threw + {job}))
    ensures JobsOk(y, e, tasks)
  {
    forall j ensures Places(y, Posted(tasks, e, j), j) == One(j in y.accepted) {
      assert Places(x, Posted(tasks, e, j), j) == One(j in x.accepted);
    }
  }

  lemma DoneStepKeepsJobs(s: Server, d: ExecName, job: nat, throws: bool, e: ExecName)
    requires JobsOk(s.execs.Get(e), e, s.tasks) && Enabled(s, WorkerDone(d, job, throws))
    ensures var r := Apply(s, WorkerDone(d, job, throws)); JobsOk(r.execs.Get(e), e, r.tasks)
  {
    var x, r := s.execs.Get(e), Apply(s, WorkerDone(d, job, throws));
    if throws {
      if d == e { MovedJobKeepsJobs(x, r.execs.Get(e), e, s.tasks, job); }
    } else if d == e {
      DoneKeepsJobs(x, e, s.tasks, job);
    } else {
      MoreTasksKeepJobs(x, e, s.tasks, Completion(d, job));
    }
  }

  lemma MoveStepKeepsJobs(s: Server, step: Step, e: ExecName)
    requires JobsOk(s.execs.Get(e), e, s.tasks) && Enabled(s, step) && (step.Submit? || step.WorkerTake?)
    ensures var r := Apply(s, step); JobsOk(r.execs.Get(e), e, r.tasks)
  {
    if step.exec == e {
      MovedJobKeepsJobs(s.execs.Get(e), Apply(s, step).execs.Get(e), e, s.tasks, step.job);
    }
  }

  lemma CloseKeepsJobs(x: Exec, e: ExecName, tasks: seq<BaseTask>)
    requires JobsOk(x, e, tasks)
    ensures JobsOk(Close(x, e), e, tasks)
  {
    forall j ensures Places(Close(x, e), Posted(tasks, e, j), j) == One(j in x.accepted) {
      assert Places(x, Posted(tasks, e, j), j) == One(j in x.accepted);
    }
  }

  lemma JoinedKeepsJobs(s: Server, e: ExecName)
    requires ChainOk(s) && JobsOk(s.execs.Get(e), e, s.tasks) && Enabled(s, Joined)
    ensures var r := Apply(s, Joined); JobsOk(r.execs.Get(e), e, r.tasks)
  {
    CloseKeepsJobs(s.execs.Get(e), e, s.tasks);
    MoreTasksKeepJobs(s.execs.Get(e), e, s.tasks, Finalize);
  }

  lemma StepKeepsJobs(s: Server, step: Step, e: ExecName)
    requires ChainOk(s) && JobsOk(s.execs.Get(e), e, s.tasks) && Enabled(s, step)
    ensures var r := Apply(s, step); JobsOk(r.execs.Get(e), e, r.tasks)
  {
    match step
    case RunHead => RunHeadKeepsJobs(s, e);
    case RunInline(task) => RunInlineKeepsJobs(s, task, e);
    case ForcedClose(c) => ForcedCloseKeepsJobs(s, c, e);
    case Joined => JoinedKeepsJobs(s, e);
    case Post(task) => MoreTasksKeepJobs(s.execs.Get(e), e, s.tasks, task);
    case WorkerDone(d, job, throws) => DoneStepKeepsJobs(s, d, job, throws, e);
    case _ => MoveStepKeepsJobs(s, step, e);
  }

  lemma RunHeadForgetsNothing(s: Server)
    requires ChainOk(s) && NotForgotten(s) && Enabled(s, RunHead)
    ensures NotForgotten(Apply(s, RunHead))
  {
    forall task | task in s.tasks && task != s.tasks[0] ensures task in s.tasks[1..] {
      assert s.tasks == [s.tasks[0]] + s.tasks[1..];
    }
  }

  lemma RunInlineForgetsNothing(s: Server, task: BaseTask)
    requires ChainOk(s) && NotForgotten(s) && Enabled(s, RunInline(task))
    ensures NotForgotten(Apply(s, RunInline(task)))
  {
  }

  lemma StepForgetsNothing(s: Server, step: Step)
    requires ChainOk(s) && NotForgotten(s) && Enabled(s, step)
    ensures NotForgotten(Apply(s, step))
  {
    match step
    case RunHead => RunHeadForgetsNothing(s);
    case RunInline(task) => RunInlineForgetsNothing(s, task);
    case _ =>
  }

  lemma StepKeepsInv(s: Server, step: Step)
    requires Inv(s) && Enabled(s, step)
    ensures Inv(Apply(s, step))
  {
    if step.WorkerDone? {
      assert JobsOk(s.execs.Get(step.exec), step.exec, s.tasks);
    }
    StepKeepsChain(s, step);
    StepKeepsQueue(s, step);
    StepForgetsNothing(s, step);
    var r := Apply(s, step);
    forall e: ExecName ensures JobsOk(r.execs.Get(e), e, r.tasks) {
      StepKeepsJobs(s, step, e);
    }
  }

  // ---------------------------------------------------------------------------------------------
  // Theorems about every run

  ghost predicate Next(s: Server, r: Server) {
    exists step :: Enabled(s, step) && Apply(s, step) == r
  }

  ghost predicate IsRun(states: seq<Server>) {
    |states| > 0 && forall i :: 0 <= i < |states| - 1 ==> Next(states[i], states[i + 1])
  }

  ghost predicate Reachable(s: Server, enabled: set<ExecName>) {
    exists states :: IsRun(states) && states[0] == Init(enabled) && states[|states| - 1] == s
  }

  lemma {:induction false} RunKeepsInv(states: seq<Server>, n: nat)
    requires IsRun(states) && Inv(states[0]) && n < |states|
    ensures Inv(states[n])
  {
    if n > 0 {
      RunKeepsInv(states, n - 1);
      assert Next(states[n - 1], states[n - 1 + 1]);
      var step :| Enabled(states[n - 1], step) && Apply(states[n - 1], step) == states[n];
      StepKeepsInv(states[n - 1], step);
    }
  }

  lemma ReachableIsGood(s: Server, enabled: set<ExecName>)
    requires Reachable(s, enabled)
    ensures Inv(s)
  {
    var states :| IsRun(states) && states[0] == Init(enabled) && states[|states| - 1] == s;
    RunKeepsInv(states, |states| - 1);
  }

  /** When finalizeStop takes effect, no connection is registered, every executor is joined, and the jobs that the
      message and the read executor ever accepted are exactly those whose base-loop completion has run and those that
      threw before they could post one. For the redis executor there are also those that Discard dropped. */
  lemma FinalizeComesLast(s: Server, enabled: set<ExecName>, e: ExecName)
    requires Reachable(s, enabled) && Enabled(s, RunHead) && s.tasks[0].Finalize?
    ensures !s.stopped && Apply(s, RunHead).stopped && s.connections == {}
    ensures var x := s.execs.Get(e);
            && x.joined && !x.open && x.waiting == {} && x.running == {}
            && x.accepted == x.completed + x.threw + x.discarded && x.completed !! x.threw !! x.discarded
            && (e != Redis ==> x.discarded == {})
  {
    ReachableIsGood(s, enabled);
    var x := s.execs.Get(e);
    assert JobsOk(x, e, s.tasks);
    forall j ensures One(j in x.completed) + One(j in x.threw) + One(j in x.discarded) == One(j in x.accepted) {
      assert Places(x, Posted(s.tasks, e, j), j) == One(j in x.accepted);
      assert Completion(e, j) !in s.tasks;
    }
  }

  /** It takes effect at most once, and from the moment the stop chain is through no connection is ever
      registered again. */
  lemma StopIsFinal(states: seq<Server>, enabled: set<ExecName>, i: nat, j: nat)
    requires IsRun(states) && states[0] == Init(enabled) && i <= j < |states|
    ensures states[j].finalizations <= 1
    ensures states[i].finalStopQueued ==> states[j].finalStopQueued && states[j].connections == {}
    ensures states[i].stopped ==> states[j].stopped && states[j].connections == {}
  {
    RunKeepsInv(states, j);
    RunKeepsInv(states, i);
    StopFlagsStay(states, i, j);
  }

  /** A stop that was asked for is never forgotten: once the last connection is gone the chain is joining an executor,
      or the finalization is queued, or it has taken effect. */
  lemma StopIsNotForgotten(s: Server, enabled: set<ExecName>)
    requires Reachable(s, enabled) && s.stopping && s.connections == {}
    ensures s.base.Draining? || Finalize in s.tasks || (s.stopped && s.finalizations == 1)
  {
    ReachableIsGood(s, enabled);
  }

  predicate FlagsStay(s: Server, r: Server) {
    (s.stopping ==> r.stopping) && (s.finalStopQueued ==> r.finalStopQueued) && (s.stopped ==> r.stopped)
  }

  lemma StopFlagsNext(s: Server, r: Server)
    requires Next(s, r)
    ensures FlagsStay(s, r)
  {
  }

  predicate FlagsStayAt(states: seq<Server>, k: nat)
    requires k + 1 < |states|
  {
    FlagsStay(states[k], states[k + 1])
  }

  lemma StopFlagsAt(states: seq<Server>, k: nat)
    requires IsRun(states) && k + 1 < |states|
    ensures FlagsStayAt(states, k)
  {
    StopFlagsNext(states[k], states[k + 1]);
  }

  lemma {:induction false} FlagsStayFrom(states: seq<Server>, i: nat, j: nat)
    requires forall k: nat :: k + 1 < |states| ==> FlagsStayAt(states, k)
    requires i <= j < |states|
    ensures FlagsStay(states[i], states[j])
    decreases j
  {
    if i < j {
      FlagsStayFrom(states, i, j - 1);
      assert FlagsStayAt(states, j - 1);
    }
  }

  lemma StopFlagsStay(states: seq<Server>, i: nat, j: nat)
    requires IsRun(states) && i <= j < |states|
    ensures FlagsStay(states[i], states[j])
  {
    forall k: nat | k + 1 < |states| ensures FlagsStayAt(states, k) {
      StopFlagsAt(states, k);
    }
    FlagsStayFrom(states, i, j);
  }

  // ---------------------------------------------------------------------------------------------
  // A stop that was asked for comes to its end

  /** A step of the base loop, a worker or an io loop that takes the stop further. */
  predicate Serving(step: Step) {
    step.RunHead? || step.ForcedClose? || step.WorkerTake? || step.WorkerDone? || step.Joined?
  }

  function ExecWork(x: Exec): nat {
    3 * |x.waiting| + 2 * |x.running|
  }

  /** How far the stop chain still has to go. */
  function ChainWork(s: Server): nat {
    match s.base
    case Draining(Redis) => 4
    case Draining(Message) => 3
    case Draining(DbRead) => 2
    case Ready => if s.finalStopQueued then 0 else 5
  }

  /** What there is left to do: removals to post, tasks to run, jobs to take and to end, executors to join. */
  function Work(s: Server): nat {
    2 * |s.closing| + |s.tasks| + ChainWork(s)
    + ExecWork(s.execs.redis) + ExecWork(s.execs.message) + ExecWork(s.execs.dbRead)
  }

  /** A stopping server that has not stopped always has such a step to take. */
  lemma StopIsNeverStuck(s: Server, enabled: set<ExecName>) returns (step: Step)
    requires Reachable(s, enabled) && s.stopping && !s.stopped
    ensures Serving(step) && Enabled(s, step)
  {
    ReachableIsGood(s, enabled);
    step := ServingStep(s);
  }

  lemma ServingStep(s: Server) returns (step: Step)
    requires NotForgotten(s) && s.stopping && !s.stopped
    ensures Serving(step) && Enabled(s, step)
  {
    if s.base.Draining? {
      var x := s.execs.Get(s.base.exec);
      if j :| j in x.waiting {
        step := WorkerTake(s.base.exec, j);
      } else if j :| j in x.running {
        step := WorkerDone(s.base.exec, j, false);
      } else {
        step := Joined;
      }
    } else if s.tasks != [] {
      step := RunHead;
    } else {
      var c :| c in s.connections;
      step := ForcedClose(c);
    }
  }

  lemma CloseWork(x: Exec, e: ExecName)
    ensures ExecWork(Close(x, e)) <= ExecWork(x)
  {
  }

  lemma RunTaskWork(s: Server, task: BaseTask)
    requires s.stopping && s.base.Ready?
    ensures Work(RunTask(s, task)) <= Work(s)
  {
    CloseWork(s.execs.redis, Redis);
    if task.Completion? {
      assert ExecWork(RunTask(s, task).execs.Get(task.exec)) == ExecWork(s.execs.Get(task.exec));
    }
  }

  lemma JobWork(x: Exec, j: nat)
    ensures j in x.waiting ==> ExecWork(x.(waiting := x.waiting - {j}, running := x.running + {j})) < ExecWork(x)
    ensures j in x.running ==> ExecWork(x.(running := x.running - {j})) + 1 < ExecWork(x)
  {
  }

  lemma PutWork(s: Server, e: ExecName, y: Exec)
    ensures Work(s.(execs := s.execs.Put(e, y))) + ExecWork(s.execs.Get(e)) == Work(s) + ExecWork(y)
  {
  }

  lemma TakeWorkFalls(s: Server, e: ExecName, j: nat)
    requires Enabled(s, WorkerTake(e, j))
    ensures Work(Apply(s, WorkerTake(e, j))) < Work(s)
  {
    var x := s.execs.Get(e);
    JobWork(x, j);
    PutWork(s, e, x.(waiting := x.waiting - {j}, running := x.running + {j}));
  }

  lemma DoneWorkFalls(s: Server, e: ExecName, j: nat, throws: bool)
    requires Enabled(s, WorkerDone(e, j, throws))
    ensures Work(Apply(s, WorkerDone(e, j, throws))) < Work(s)
  {
    var x := s.execs.Get(e).(running := s.execs.Get(e).running - {j});
    var y := if throws then x.(threw := x.threw + {j}) else x;
    JobWork(s.execs.Get(e), j);
    assert ExecWork(y) == ExecWork(x);
    PutWork(s, e, y);
  }

  lemma JoinWorkFalls(s: Server)
    requires Enabled(s, Joined) && s.finalStopQueued
    ensures Work(Apply(s, Joined)) < Work(s)
  {
    CloseWork(s.execs.message, Message);
    CloseWork(s.execs.dbRead, DbRead);
  }

  lemma HeadWorkFalls(s: Server)
    requires s.stopping && Enabled(s, RunHead)
    ensures Work(Apply(s, RunHead)) < Work(s)
  {
    RunTaskWork(s.(tasks := s.tasks[1..]), s.tasks[0]);
  }

  lemma ForcedCloseWorkFalls(s: Server, c: nat)
    requires Enabled(s, ForcedClose(c))
    ensures Work(Apply(s, ForcedClose(c))) < Work(s)
  {
    var r := Apply(s, ForcedClose(c));
    assert |r.closing| == |s.closing| - 1 && |r.tasks| <= |s.tasks| + 1;
    assert r.execs == s.execs && ChainWork(r) == ChainWork(s);
  }

  /** Each of those steps leaves less to do; an inline task adds nothing, and a post one task. */
  lemma WorkFalls(s: Server, step: Step)
    requires s.stopping && (s.base.Draining? ==> s.finalStopQueued) && Enabled(s, step)
    ensures Serving(step) ==> Work(Apply(s, step)) < Work(s)
    ensures step.RunInline? ==> Work(Apply(s, step)) <= Work(s)
    ensures step.Post? ==> Work(Apply(s, step)) == Work(s) + 1
  {
    match step
    case RunHead => HeadWorkFalls(s);
    case RunInline(task) => RunTaskWork(s, task);
    case ForcedClose(c) => ForcedCloseWorkFalls(s, c);
    case WorkerTake(e, j) => TakeWorkFalls(s, e, j);
    case WorkerDone(e, j, throws) => DoneWorkFalls(s, e, j, throws);
    case Joined => JoinWorkFalls(s);
    case _ =>
  }

  ghost predicate ServingNext(s: Server, r: Server) {
    exists step :: Serving(step) && Enabled(s, step) && Apply(s, step) == r
  }

  /** A run in which nothing new is asked for. */
  ghost predicate IsServingRun(states: seq<Server>) {
    |states| > 0 && forall i :: 0 <= i < |states| - 1 ==> ServingNext(states[i], states[i + 1])
  }

  lemma ServingStepFalls(s: Server, r: Server)
    requires Inv(s) && s.stopping && ServingNext(s, r)
    ensures Inv(r) && r.stopping && Work(r) < Work(s)
  {
    var step :| Serving(step) && Enabled(s, step) && Apply(s, step) == r;
    StepKeepsInv(s, step);
    WorkFalls(s, step);
    StopFlagsNext(s, r);
  }

  lemma {:induction false} ServingRunFalls(states: seq<Server>, n: nat)
    requires IsServingRun(states) && Inv(states[0]) && states[0].stopping && n < |states|
    ensures Inv(states[n]) && states[n].stopping && Work(states[n]) + n <= Work(states[0])
  {
    if n > 0 {
      ServingRunFalls(states, n - 1);
      assert ServingNext(states[n - 1], states[n - 1 + 1]);
      ServingStepFalls(states[n - 1], states[n]);
    }
  }

  /** From every reachable stopping state, however busy the executors and whatever is queued: a run in which nothing new
      is asked for takes no more steps than there is work, and it can go on unless the server has stopped. So every such
      run that goes as far as it can ends with the server stopped. */
  lemma StopComesToItsEnd(s: Server, enabled: set<ExecName>, states: seq<Server>)
    requires Reachable(s, enabled) && s.stopping && IsServingRun(states) && states[0] == s
    ensures |states| - 1 <= Work(s)
    ensures var last := states[|states| - 1];
            if last.stopped then last.finalizations == 1 && last.connections == {} else exists r :: ServingNext(last, r)
  {
    ReachableIsGood(s, enabled);
    var last := states[|states| - 1];
    ServingRunFalls(states, |states| - 1);
    if !last.stopped {
      var step := ServingStep(last);
      assert ServingNext(last, Apply(last, step));
    }
  }
}
