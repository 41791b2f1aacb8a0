/** What a caller of TcpServer::stop can count on, over every run of the steps of module ServerStops: a stop that was
    asked for takes effect, whether it runs inline or waits in the queue, and comes to its end; until then connections
    are registered and the configured executors take jobs, and none of those jobs is lost. */
module StopRequests {

  import opened ServerStops

  /** The server is stopping, and nothing that keeps it from finishing has been overlooked. */
  ghost predicate UnderWay(s: Server) {
    && s.stopping
    && (forall c :: c in s.connections ==> c in s.closing || Remove(c) in s.tasks)
    && (s.connections == {} ==> s.base.Draining? || Finalize in s.tasks || s.stopped)
  }

  predicate Ended(s: Server) {
    s.stopped && s.finalizations == 1 && s.connections == {}
  }

  lemma ReachableOn(s: Server, enabled: set<ExecName>, step: Step)
    requires Reachable(s, enabled) && Enabled(s, step)
    ensures Reachable(Apply(s, step), enabled)
  {
    var states :| IsRun(states) && states[0] == Init(enabled) && states[|states| - 1] == s;
    var r := Apply(s, step);
    var more := states + [r];
    assert Next(s, r);
    forall i | 0 <= i < |more| - 1 ensures Next(more[i], more[i + 1]) {
      assert i < |states| - 1 ==> Next(states[i], states[i + 1]);
    }
    assert IsRun(more) && more[0] == Init(enabled) && more[|more| - 1] == r;
  }

  lemma StoppingIsUnderWay(s: Server, enabled: set<ExecName>)
    requires Reachable(s, enabled) && s.stopping
    ensures UnderWay(s)
  {
    ReachableIsGood(s, enabled);
  }

  /** A stop that runs on the base thread takes effect at once. The connections are those registered before, and a
      server that was not stopping has asked each of them to close. */
  lemma InlineStopTakesEffect(s: Server, enabled: set<ExecName>)
    requires Reachable(s, enabled) && s.base.Ready?
    ensures var r := Apply(s, RunInline(Stop));
            && Reachable(r, enabled) && UnderWay(r) && r.connections == s.connections
            && (!s.stopping ==> r.closing == s.connections)
  {
    var r := Apply(s, RunInline(Stop));
    ReachableOn(s, enabled, RunInline(Stop));
    StoppingIsUnderWay(r, enabled);
  }

  // ---------------------------------------------------------------------------------------------
  // A stop in the queue

  predicate Asked(s: Server) {
    s.stopping || Stop in s.tasks
  }

  lemma HeadServesStop(s: Server)
    requires Asked(s) && Enabled(s, RunHead)
    ensures Asked(Apply(s, RunHead))
  {
    assert s.tasks == [s.tasks[0]] + s.tasks[1..];
  }

  lemma TasksStay(s: Server, step: Step)
    requires Enabled(s, step) && !step.RunHead?
    ensures s.tasks <= Apply(s, step).tasks
  {
  }

  lemma StepServesStop(s: Server, r: Server)
    requires Asked(s) && Next(s, r)
    ensures Asked(r)
  {
    var step :| Enabled(s, step) && Apply(s, step) == r;
    if step.RunHead? {
      HeadServesStop(s);
    } else {
      TasksStay(s, step);
      assert Stop in s.tasks ==> Stop in r.tasks;
      StopFlagsNext(s, r);
    }
  }

  ghost predicate AskedAt(states: seq<Server>, k: nat)
    requires k + 1 < |states|
  {
    Asked(states[k]) ==> Asked(states[k + 1])
  }

  lemma {:induction false} AskedFrom(states: seq<Server>, i: nat, j: nat)
    requires forall k: nat :: k + 1 < |states| ==> AskedAt(states, k)
    requires i <= j < |states| && Asked(states[i])
    ensures Asked(states[j])
    decreases j
  {
    if i < j {
      AskedFrom(states, i, j - 1);
      assert AskedAt(states, j - 1);
    }
  }

  lemma NextServesStop(states: seq<Server>, k: nat)
    requires IsRun(states) && k + 1 < |states|
    ensures AskedAt(states, k)
  {
    if Asked(states[k]) {
      StepServesStop(states[k], states[k + 1]);
    }
  }

  /** In every run, a stop that was posted is waiting in the queue until the server is stopping. */
  lemma QueuedStopIsKept(states: seq<Server>, i: nat, j: nat)
    requires IsRun(states) && i <= j < |states| && Stop in states[i].tasks
    ensures Stop in states[j].tasks || states[j].stopping
  {
    forall k: nat | k + 1 < |states| ensures AskedAt(states, k) {
      NextServesStop(states, k);
    }
    AskedFrom(states, i, j);
  }

  /** The base loop runs the tasks at its head, n of them or until the thread blocks. */
  function RunHeads(s: Server, n: nat): Server
    decreases n
  {
    if n == 0 || !Enabled(s, RunHead) then s else RunHeads(Apply(s, RunHead), n - 1)
  }

  lemma HeadBeforeStop(s: Server, k: nat)
    requires !s.stopping && s.base.Ready? && k < |s.tasks| && s.tasks[k].Stop?
    ensures var r := Apply(s, RunHead);
            r.stopping || (k > 0 && r.base.Ready? && r.tasks == s.tasks[1..] && r.tasks[k - 1].Stop?)
  {
  }

  /** A stop that waits at place k of the queue has taken effect when the base loop has run its way past it. */
  lemma {:induction false} QueuedStopTakesEffect(s: Server, enabled: set<ExecName>, k: nat)
    requires Reachable(s, enabled) && s.base.Ready? && k < |s.tasks| && s.tasks[k].Stop?
    ensures var r := RunHeads(s, k + 1); Reachable(r, enabled) && UnderWay(r)
    decreases k
  {
    var r := Apply(s, RunHead);
    ReachableOn(s, enabled, RunHead);
    if s.stopping || r.stopping {
      HeadsStayStopping(s, enabled, k + 1);
    } else {
      HeadBeforeStop(s, k);
      QueuedStopTakesEffect(r, enabled, k - 1);
    }
  }

  lemma {:induction false} HeadsStayStopping(s: Server, enabled: set<ExecName>, n: nat)
    requires Reachable(s, enabled)
    requires s.stopping || (n > 0 && Enabled(s, RunHead) && Apply(s, RunHead).stopping)
    ensures var r := RunHeads(s, n); Reachable(r, enabled) && UnderWay(r)
    decreases n
  {
    if n == 0 || !Enabled(s, RunHead) {
      StoppingIsUnderWay(s, enabled);
    } else {
      ReachableOn(s, enabled, RunHead);
      HeadsStayStopping(Apply(s, RunHead), enabled, n - 1);
    }
  }

  // ---------------------------------------------------------------------------------------------
  // To the end

  lemma ServingRunGoesOn(s: Server, step: Step, rest: seq<Server>) returns (states: seq<Server>)
    requires Serving(step) && Enabled(s, step) && IsServingRun(rest) && rest[0] == Apply(s, step)
    ensures IsServingRun(states) && states[0] == s && states[|states| - 1] == rest[|rest| - 1]
  {
    states := [s] + rest;
    assert ServingNext(s, rest[0]);
    forall i | 0 <= i < |states| - 1 ensures ServingNext(states[i], states[i + 1]) {
      assert i > 0 ==> states[i] == rest[i - 1] && ServingNext(rest[i - 1], rest[i - 1 + 1]);
    }
  }

  lemma AskedStep(s: Server) returns (step: Step)
    requires Inv(s) && Asked(s) && !s.stopped
    ensures Serving(step) && Enabled(s, step)
    ensures var r := Apply(s, step);
            && Inv(r) && Asked(r)
            && if s.stopping then r.stopping && Work(r) < Work(s) else r.stopping || |r.tasks| < |s.tasks|
  {
    if s.stopping {
      step := ServingStep(s);
      assert ServingNext(s, Apply(s, step));
      ServingStepFalls(s, Apply(s, step));
    } else {
      step := RunHead;
      StepKeepsInv(s, RunHead);
      HeadServesStop(s);
    }
  }

  lemma {:induction false} AskedEnds(s: Server) returns (states: seq<Server>)
    requires Inv(s) && Asked(s)
    ensures IsServingRun(states) && states[0] == s && Ended(states[|states| - 1])
    decreases if s.stopping then 0 else 1, if s.stopping then Work(s) else |s.tasks|
  {
    if s.stopped {
      states := [s];
    } else {
      var step := AskedStep(s);
      var rest := AskedEnds(Apply(s, step));
      states := ServingRunGoesOn(s, step, rest);
    }
  }

  /** From every reachable state in which a stop has begun or is queued, however busy the executors: a run in which
      nothing new is asked for ends with the server stopped, finalized once, and no connection left. */
  lemma QueuedStopEnds(s: Server, enabled: set<ExecName>) returns (states: seq<Server>)
    requires Reachable(s, enabled) && (Stop in s.tasks || s.stopping)
    ensures IsServingRun(states) && states[0] == s && Ended(states[|states| - 1])
  {
    ReachableIsGood(s, enabled);
    states := AskedEnds(s);
  }

  /** The same for a stop that runs on the base thread, from every reachable state in which the thread is free. */
  lemma InlineStopEnds(s: Server, enabled: set<ExecName>) returns (states: seq<Server>)
    requires Reachable(s, enabled) && s.base.Ready?
    ensures IsServingRun(states) && states[0] == Apply(s, RunInline(Stop)) && Ended(states[|states| - 1])
  {
    InlineStopTakesEffect(s, enabled);
    states := QueuedStopEnds(Apply(s, RunInline(Stop)), enabled);
  }

  // ---------------------------------------------------------------------------------------------
  // Until the stop

  /** Until the stop chain begins, exactly the configured executors are open. */
  ghost predicate OpenOk(s: Server, enabled: set<ExecName>) {
    !s.finalStopQueued ==> forall e: ExecName :: s.execs.Get(e).open <==> e in enabled
  }

  /** Once the stop chain has begun, nothing waits in the redis executor any more: it was discarded. */
  ghost predicate Discarded(s: Server) {
    s.finalStopQueued ==> !s.execs.redis.open && s.execs.redis.waiting == {}
  }

  lemma StepKeepsDiscarded(s: Server, step: Step)
    requires ChainOk(s) && Discarded(s) && Enabled(s, step)
    ensures Discarded(Apply(s, step))
  {
  }

  lemma StepKeepsOpen(s: Server, step: Step, enabled: set<ExecName>)
    requires ChainOk(s) && OpenOk(s, enabled) && Enabled(s, step)
    ensures OpenOk(Apply(s, step), enabled)
  {
  }

  lemma {:induction false} RunKeepsOpen(states: seq<Server>, enabled: set<ExecName>, n: nat)
    requires IsRun(states) && states[0] == Init(enabled) && n < |states|
    ensures Inv(states[n]) && OpenOk(states[n], enabled) && Discarded(states[n])
  {
    RunKeepsInv(states, n);
    if n > 0 {
      RunKeepsOpen(states, enabled, n - 1);
      assert Next(states[n - 1], states[n - 1 + 1]);
      var step :| Enabled(states[n - 1], step) && Apply(states[n - 1], step) == states[n];
      StepKeepsOpen(states[n - 1], step, enabled);
      StepKeepsDiscarded(states[n - 1], step);
    }
  }

  /** A server that is not stopping works: an added connection is registered beside the others, and a job that is new
      to a configured executor is taken. */
  lemma RunningServerServes(s: Server, enabled: set<ExecName>, c: nat, e: ExecName, j: nat)
    requires Reachable(s, enabled) && !s.stopping
    ensures s.base.Ready? && Apply(s, RunInline(Add(c))).connections == s.connections + {c}
    ensures Enabled(s, Submit(e, j)) <==> e in enabled && j !in s.execs.Get(e).accepted
    ensures Enabled(s, Submit(e, j)) ==>
              var r := Apply(s, Submit(e, j));
              !r.stopping && j in r.execs.Get(e).accepted && j in r.execs.Get(e).waiting
  {
    var states :| IsRun(states) && states[0] == Init(enabled) && states[|states| - 1] == s;
    RunKeepsOpen(states, enabled, |states| - 1);
  }

  /** The redis executor is stopped with Discard: from the beginning of the stop chain on, no job waits there. The other
      two are drained: nothing of theirs is ever discarded. */
  lemma OnlyRedisDiscards(s: Server, enabled: set<ExecName>)
    requires Reachable(s, enabled)
    ensures s.finalStopQueued ==> s.execs.redis.waiting == {}
    ensures s.execs.message.discarded == {} && s.execs.dbRead.discarded == {}
  {
    var states :| IsRun(states) && states[0] == Init(enabled) && states[|states| - 1] == s;
    RunKeepsOpen(states, enabled, |states| - 1);
    assert JobsOk(s.execs.Get(Message), Message, s.tasks) && JobsOk(s.execs.Get(DbRead), DbRead, s.tasks);
  }

  /** A server that is stopping takes no more jobs. */
  lemma StoppingAcceptsNothing(s: Server, step: Step, e: ExecName)
    requires s.stopping && Enabled(s, step)
    ensures Apply(s, step).stopping && Apply(s, step).execs.Get(e).accepted == s.execs.Get(e).accepted
  {
    match step
    case RunHead => RunTaskKeepsAccepted(s.(tasks := s.tasks[1..]), s.tasks[0], e);
    case RunInline(task) => RunTaskKeepsAccepted(s, task, e);
    case Joined => JoinKeepsAccepted(s, e);
    case _ =>
  }

  ghost predicate AcceptedStaysAt(states: seq<Server>, e: ExecName, k: nat)
    requires k + 1 < |states|
  {
    states[k].execs.Get(e).accepted <= states[k + 1].execs.Get(e).accepted
  }

  lemma RunTaskKeepsAccepted(s: Server, task: BaseTask, e: ExecName)
    ensures RunTask(s, task).execs.Get(e).accepted == s.execs.Get(e).accepted
  {
  }

  lemma JoinKeepsAccepted(s: Server, e: ExecName)
    requires s.base.Draining?
    ensures AfterJoin(s).execs.Get(e).accepted == s.execs.Get(e).accepted
  {
  }

  lemma StepKeepsAccepted(s: Server, step: Step, e: ExecName)
    requires Enabled(s, step)
    ensures s.execs.Get(e).accepted <= Apply(s, step).execs.Get(e).accepted
  {
    match step
    case RunHead => RunTaskKeepsAccepted(s.(tasks := s.tasks[1..]), s.tasks[0], e);
    case RunInline(task) => RunTaskKeepsAccepted(s, task, e);
    case Joined => JoinKeepsAccepted(s, e);
    case _ =>
  }

  lemma NextKeepsAccepted(states: seq<Server>, e: ExecName, k: nat)
    requires IsRun(states) && k + 1 < |states|
    ensures AcceptedStaysAt(states, e, k)
  {
    var s, r := states[k], states[k + 1];
    assert Next(s, r);
    var step :| Enabled(s, step) && Apply(s, step) == r;
    StepKeepsAccepted(s, step, e);
  }

  lemma {:induction false} AcceptedStays(states: seq<Server>, e: ExecName, i: nat, j: nat)
    requires forall k: nat :: k + 1 < |states| ==> AcceptedStaysAt(states, e, k)
    requires i <= j < |states|
    ensures states[i].execs.Get(e).accepted <= states[j].execs.Get(e).accepted
    decreases j
  {
    if i < j {
      AcceptedStays(states, e, i, j - 1);
      assert AcceptedStaysAt(states, e, j - 1);
    }
  }

  lemma RunKeepsAccepted(states: seq<Server>, e: ExecName, i: nat, j: nat)
    requires IsRun(states) && i <= j < |states|
    ensures states[i].execs.Get(e).accepted <= states[j].execs.Get(e).accepted
  {
    forall k: nat | k + 1 < |states| ensures AcceptedStaysAt(states, e, k) {
      NextKeepsAccepted(states, e, k);
    }
    AcceptedStays(states, e, i, j);
  }

  lemma SubmitAccepts(s: Server, e: ExecName, j: nat)
    requires Enabled(s, Submit(e, j))
    ensures j in Apply(s, Submit(e, j)).execs.Get(e).accepted
  {
  }

  lemma StoppedAccountsFor(s: Server, e: ExecName, j: nat)
    requires Inv(s) && s.stopped && j in s.execs.Get(e).accepted
    ensures var x := s.execs.Get(e); j in x.completed || j in x.threw || (e == Redis && j in x.discarded)
  {
    var x := s.execs.Get(e);
    assert JobsOk(x, e, s.tasks);
    assert Completion(e, j) !in s.tasks;
    assert Places(x, Posted(s.tasks, e, j), j) == 1;
  }

  /** A job that is submitted in a reachable state is accounted for whenever a run from there has stopped the server:
      its completion has run, or it threw before it could post one, or, in the redis executor only, it was discarded. */
  lemma SubmittedIsAccountedFor(s: Server, enabled: set<ExecName>, e: ExecName, j: nat, states: seq<Server>)
    requires Reachable(s, enabled) && Enabled(s, Submit(e, j))
    requires IsRun(states) && states[0] == Apply(s, Submit(e, j)) && states[|states| - 1].stopped
    ensures var x := states[|states| - 1].execs.Get(e);
            j in x.completed || j in x.threw || (e == Redis && j in x.discarded)
  {
    ReachableIsGood(s, enabled);
    StepKeepsInv(s, Submit(e, j));
    SubmitAccepts(s, e, j);
    AccountsAtTheEnd(states, e, j);
  }

  lemma AccountsAtTheEnd(states: seq<Server>, e: ExecName, j: nat)
    requires IsRun(states) && Inv(states[0]) && j in states[0].execs.Get(e).accepted
    requires states[|states| - 1].stopped
    ensures var x := states[|states| - 1].execs.Get(e);
            j in x.completed || j in x.threw || (e == Redis && j in x.discarded)
  {
    var last := |states| - 1;
    RunKeepsInv(states, last);
    RunKeepsAccepted(states, e, 0, last);
    StoppedAccountsFor(states[last], e, j);
  }

  // ---------------------------------------------------------------------------------------------
  // A job that returns completes

  /** The completion of the job waits in the queue, or has run. */
  predicate Posts(s: Server, e: ExecName, j: nat) {
    Completion(e, j) in s.tasks || j in s.execs.Get(e).completed
  }

  lemma RunTaskCompletes(s: Server, task: BaseTask, e: ExecName, j: nat)
    ensures j in s.execs.Get(e).completed || task == Completion(e, j) ==>
              j in RunTask(s, task).execs.Get(e).completed
  {
  }

  lemma JoinKeepsCompleted(s: Server, e: ExecName)
    requires s.base.Draining?
    ensures AfterJoin(s).execs.Get(e).completed == s.execs.Get(e).completed
  {
  }

  lemma StepKeepsPosts(s: Server, step: Step, e: ExecName, j: nat)
    requires Posts(s, e, j) && Enabled(s, step)
    ensures Posts(Apply(s, step), e, j)
  {
    match step
    case RunHead =>
      assert s.tasks == [s.tasks[0]] + s.tasks[1..];
      RunTaskCompletes(s.(tasks := s.tasks[1..]), s.tasks[0], e, j);
    case RunInline(task) =>
      RunTaskCompletes(s, task, e, j);
      TasksStay(s, step);
    case Joined =>
      JoinKeepsCompleted(s, e);
      TasksStay(s, step);
    case _ => TasksStay(s, step);
  }

  ghost predicate PostsAt(states: seq<Server>, e: ExecName, j: nat, k: nat)
    requires k + 1 < |states|
  {
    Posts(states[k], e, j) ==> Posts(states[k + 1], e, j)
  }

  lemma NextKeepsPosts(states: seq<Server>, e: ExecName, j: nat, k: nat)
    requires IsRun(states) && k + 1 < |states|
    ensures PostsAt(states, e, j, k)
  {
    var s, r := states[k], states[k + 1];
    assert Next(s, r);
    var step :| Enabled(s, step) && Apply(s, step) == r;
    if Posts(s, e, j) {
      StepKeepsPosts(s, step, e, j);
    }
  }

  lemma {:induction false} PostsFrom(states: seq<Server>, e: ExecName, j: nat, n: nat)
    requires forall k: nat :: k + 1 < |states| ==> PostsAt(states, e, j, k)
    requires n < |states| && Posts(states[0], e, j)
    ensures Posts(states[n], e, j)
  {
    if n > 0 {
      PostsFrom(states, e, j, n - 1);
      assert PostsAt(states, e, j, n - 1);
    }
  }

  lemma PostedIsCompleted(states: seq<Server>, e: ExecName, j: nat)
    requires IsRun(states) && Inv(states[0]) && Posts(states[0], e, j) && states[|states| - 1].stopped
    ensures j in states[|states| - 1].execs.Get(e).completed
  {
    var last := |states| - 1;
    forall k: nat | k + 1 < |states| ensures PostsAt(states, e, j, k) {
      NextKeepsPosts(states, e, j, k);
    }
    PostsFrom(states, e, j, last);
    RunKeepsInv(states, last);
    assert Completion(e, j) !in states[last].tasks;
  }

  /** A job that a worker ends without an exception has its completion run on the base loop before any run stops the
      server. */
  lemma ReturnedJobCompletes(s: Server, enabled: set<ExecName>, e: ExecName, j: nat, states: seq<Server>)
    requires Reachable(s, enabled) && Enabled(s, WorkerDone(e, j, false))
    requires IsRun(states) && states[0] == Apply(s, WorkerDone(e, j, false)) && states[|states| - 1].stopped
    ensures j in states[|states| - 1].execs.Get(e).completed
  {
    ReachableIsGood(s, enabled);
    StepKeepsInv(s, WorkerDone(e, j, false));
    ReturnPosts(s, e, j);
    PostedIsCompleted(states, e, j);
  }

  lemma ReturnPosts(s: Server, e: ExecName, j: nat)
    requires Enabled(s, WorkerDone(e, j, false))
    ensures Posts(Apply(s, WorkerDone(e, j, false)), e, j)
  {
  }
}
