/** ThreadPool as a step protocol: any number of threads call submit and stop while the workers run.

    submit is three atomic actions (the state check, the push under the queue's mutex, the counter), stop is
    three (taking over the stop, closing the queue, setting Stopped after the joins), and a worker takes,
    finishes or exits. Steps of all threads interleave freely; workers are interchangeable, so only their
    numbers are kept. */
module ThreadPools {

  import opened Collections
  import opened ThreadSafeQueues

  /** A submitted task with the key it was submitted under (a plain pool ignores the key). */
  datatype Task = Task(key: string, id: nat)

  datatype Phase = Running | Stopping | Stopped
  datatype Event = Began(task: Task) | Ended(task: Task, ok: bool)

  datatype Workers = Workers(idle: nat, busy: multiset<Task>, exited: nat) {
    function Total(): nat {
      idle + |busy| + exited
    }
  }

  datatype Counters = Counters(submitted: nat, completed: nat, failed: nat, rejectedFull: nat, rejectedStopped: nat)

  /** What the pool did with the tasks it accepted, in order. */
  datatype History = History(
    accepted: seq<Task>,            // in the order of their pushes
    begun: seq<Task>,               // in the order in which workers took them
    finished: multiset<Task>,
    discarded: seq<Task>,           // dropped by a closing with Discard
    log: seq<Event>,
    tally: Tally)

  /** How many tasks were offered to the queue, and which of the finished ones threw. */
  datatype Tally = Tally(offered: nat, threw: multiset<Task>)

  datatype Pool = Pool(
    queue: Queue<Task>,
    workers: Workers,
    phase: Phase,
    stopMode: Option<CloseMode>,    // the mode of the call that took over the stop
    checked: multiset<Task>,        // submit calls past the state check and before the push
    uncounted: nat,                 // submit calls past an accepted push and before the counter
    counters: Counters,
    hist: History)

  datatype Step =
    | CheckState(task: Task)
    | Push(task: Task)
    | Count
    | Take
    | Complete(task: Task, ok: bool)
    | Exit
    | StopTakeOver(mode: CloseMode)
    | StopClose
    | StopJoined

  /** The constructor refuses a thread count of zero. */
  function InitPool(threads: nat, capacity: nat): Pool
    requires threads > 0
  {
    Pool(Queue([], false, capacity), Workers(threads, multiset{}, 0), Running, None, multiset{}, 0,
         Counters(0, 0, 0, 0, 0), History([], [], multiset{}, [], [], Tally(0, multiset{})))
  }

  predicate AllExited(w: Workers) {
    w.idle == 0 && w.busy == multiset{}
  }

  predicate Enabled(p: Pool, step: Step) {
    match step
    case CheckState(task) => p.phase == Running
    case Push(task) => task in p.checked
    case Count => p.uncounted > 0
    case Take => p.workers.idle > 0 && p.queue.items != []
    case Complete(task, ok) => task in p.workers.busy
    case Exit => p.workers.idle > 0 && p.queue.items == [] && p.queue.closed
    case StopTakeOver(mode) => p.phase == Running
    case StopClose => p.phase == Stopping && p.stopMode.Some? && !p.queue.closed
    case StopJoined => p.phase == Stopping && p.queue.closed && AllExited(p.workers)
  }

  function Apply(p: Pool, step: Step): Pool
    requires Enabled(p, step)
  {
    var h := p.hist;
    match step
    case CheckState(task) => p.(checked := p.checked + multiset{task})
    case Push(task) =>
      var h1 := h.(tally := h.tally.(offered := h.tally.offered + 1));
      var p1 := p.(checked := p.checked - multiset{task}, queue := p.queue.Pushed(task), hist := h1);
      (match p.queue.PushOutcome()
       case Ok => p1.(hist := h1.(accepted := h.accepted + [task]), uncounted := p.uncounted + 1)
       case Full => p1.(counters := p.counters.(rejectedFull := p.counters.rejectedFull + 1))
       case Closed => p1.(counters := p.counters.(rejectedStopped := p.counters.rejectedStopped + 1)))
    case Count =>
      p.(uncounted := p.uncounted - 1, counters := p.counters.(submitted := p.counters.submitted + 1))
    case Take =>
      var task := p.queue.items[0];
      p.(queue := p.queue.Popped(),
      workers := p.workers.(idle := p.workers.idle - 1, busy := p.workers.busy + multiset{task}),
      hist := h.(begun := h.begun + [task], log := h.log + [Began(task)]))
    case Complete(task, ok) =>
      p.(workers := p.workers.(idle := p.workers.idle + 1, busy := p.workers.busy - multiset{task}),
      hist := h.(finished := h.finished + multiset{task}, log := h.log + [Ended(task, ok)],
                 tally := if ok then h.tally else h.tally.(threw := h.tally.threw + multiset{task})),
      counters := if ok then p.counters.(completed := p.counters.completed + 1)
                  else p.counters.(failed := p.counters.failed + 1))
    case Exit => p.(workers := p.workers.(idle := p.workers.idle - 1, exited := p.workers.exited + 1))
    case StopTakeOver(mode) => p.(phase := Stopping, stopMode := Some(mode))
    case StopClose =>
      p.(queue := p.queue.Close(p.stopMode.value),
      hist := h.(discarded := if p.stopMode.value == Discard then p.queue.items else []))
    case StopJoined => p.(phase := Stopped)
  }

  // ---------------------------------------------------------------------------------------------
  // What every step keeps

  /** Pushes and pops are accounted for in acceptance order. */
  ghost predicate OrderOk(p: Pool) {
    && p.hist.accepted == p.hist.begun + p.queue.items + p.hist.discarded
    && p.queue.Bounded()
    && (p.queue.closed ==> p.stopMode.Some?)
    && (!p.queue.closed ==> p.hist.discarded == [])
    && (p.queue.closed && p.stopMode == Some(Discard) ==> p.queue.items == [])
    && (p.stopMode == Some(Drain) ==> p.hist.discarded == [])
  }

  /** What has begun is finished or in the hands of a worker. */
  ghost predicate TasksOk(p: Pool) {
    multiset(p.hist.begun) == p.hist.finished + p.workers.busy
  }

  ghost predicate WorkersOk(p: Pool) {
    && p.workers.Total() > 0
    && (p.workers.exited > 0 ==> p.queue.closed && p.queue.items == [])
    && (p.stopMode.Some? <==> p.phase != Running)
    && (p.phase == Stopped ==> p.queue.closed && AllExited(p.workers))
  }

  ghost predicate CountersOk(p: Pool) {
    && p.counters.submitted + p.uncounted == |p.hist.accepted|
    && p.counters.completed + p.counters.failed == |p.hist.finished|
    && p.counters.failed == |p.hist.tally.threw|
    && p.hist.tally.offered == |p.hist.accepted| + p.counters.rejectedFull + p.counters.rejectedStopped
  }

  ghost predicate Inv(p: Pool) {
    OrderOk(p) && TasksOk(p) && WorkersOk(p) && CountersOk(p)
  }

  lemma PushKeepsOrder(p: Pool, task: Task)
    requires OrderOk(p) && Enabled(p, Push(task))
    ensures OrderOk(Apply(p, Push(task)))
  {
  }

  lemma StepKeepsOrder(p: Pool, step: Step)
    requires OrderOk(p) && WorkersOk(p) && Enabled(p, step)
    ensures OrderOk(Apply(p, step))
  {
    match step
    case Push(task) => PushKeepsOrder(p, task);
    case _ =>
  }

  lemma StepKeepsTasks(p: Pool, step: Step)
    requires TasksOk(p) && Enabled(p, step)
    ensures TasksOk(Apply(p, step))
  {
  }

  lemma PushKeepsWorkers(p: Pool, task: Task)
    requires WorkersOk(p) && Enabled(p, Push(task))
    ensures WorkersOk(Apply(p, Push(task))) && Apply(p, Push(task)).workers == p.workers
    ensures Apply(p, Push(task)).queue.capacity == p.queue.capacity
  {
  }

  lemma StepKeepsWorkers(p: Pool, step: Step)
    requires WorkersOk(p) && Enabled(p, step)
    ensures WorkersOk(Apply(p, step))
    ensures Apply(p, step).workers.Total() == p.workers.Total()
    ensures Apply(p, step).queue.capacity == p.queue.capacity
  {
    match step
    case Push(task) => PushKeepsWorkers(p, task);
    case _ =>
  }

  lemma StepKeepsCounters(p: Pool, step: Step)
    requires CountersOk(p) && Enabled(p, step)
    ensures CountersOk(Apply(p, step))
  {
  }

  lemma StepKeepsInv(p: Pool, step: Step)
    requires Inv(p) && Enabled(p, step)
    ensures Inv(Apply(p, step))
  {
    StepKeepsOrder(p, step);
    StepKeepsTasks(p, step);
    StepKeepsWorkers(p, step);
    StepKeepsCounters(p, step);
  }

  // ---------------------------------------------------------------------------------------------
  // Theorems about every run

  ghost predicate Next(p: Pool, r: Pool) {
    exists step :: Enabled(p, step) && Apply(p, step) == r
  }

  ghost predicate IsRun(states: seq<Pool>) {
    |states| > 0 && forall i :: 0 <= i < |states| - 1 ==> Next(states[i], states[i + 1])
  }

  ghost predicate Reachable(p: Pool, threads: nat, capacity: nat)
    requires threads > 0
  {
    exists states: seq<Pool> ::
      IsRun(states) && states[0] == InitPool(threads, capacity) && states[|states| - 1] == p
  }

  predicate SameShape(p: Pool, r: Pool) {
    p.queue.capacity == r.queue.capacity && p.workers.Total() == r.workers.Total()
  }

  lemma NextKeepsInv(p: Pool, r: Pool)
    requires Inv(p) && Next(p, r)
    ensures Inv(r) && SameShape(p, r)
  {
    var step :| Enabled(p, step) && Apply(p, step) == r;
    StepKeepsInv(p, step);
    StepKeepsWorkers(p, step);
  }

  lemma {:induction false} RunKeepsInv(states: seq<Pool>, n: nat)
    requires IsRun(states) && Inv(states[0]) && n < |states|
    ensures Inv(states[n]) && SameShape(states[0], states[n])
  {
    if n > 0 {
      RunKeepsInv(states, n - 1);
      assert Next(states[n - 1], states[n - 1 + 1]);
      NextKeepsInv(states[n - 1], states[n]);
    }
  }

  lemma ReachableIsGood(p: Pool, threads: nat, capacity: nat)
    requires threads > 0 && Reachable(p, threads, capacity)
    ensures Inv(p) && p.queue.capacity == capacity && p.workers.Total() == threads
  {
    var states: seq<Pool> :|
      IsRun(states) && states[0] == InitPool(threads, capacity) && states[|states| - 1] == p;
    RunKeepsInv(states, |states| - 1);
  }

  /** Under any race of submit and stop: the queue never exceeds its capacity, tasks begin in the order in
      which they were accepted, every accepted task is waiting, running, finished or discarded, and the counters
      tell the accepted from the two kinds of refused and the completed from the failed. */
  lemma AcceptedTasksAreAccountedFor(p: Pool, threads: nat, capacity: nat)
    requires threads > 0 && Reachable(p, threads, capacity)
    ensures capacity != 0 ==> |p.queue.items| <= capacity
    ensures p.hist.begun <= p.hist.accepted && |p.workers.busy| <= threads
    ensures multiset(p.hist.accepted) ==
            multiset(p.queue.items) + p.workers.busy + p.hist.finished + multiset(p.hist.discarded)
    ensures p.counters.submitted + p.uncounted == |p.hist.accepted|
    ensures p.hist.tally.offered == |p.hist.accepted| + p.counters.rejectedFull + p.counters.rejectedStopped
    ensures p.counters.failed == |p.hist.tally.threw| && p.counters.completed + p.counters.failed == |p.hist.finished|
  {
    ReachableIsGood(p, threads, capacity);
    assert p.hist.accepted == p.hist.begun + (p.queue.items + p.hist.discarded);
  }

  /** When a stop has returned: with Drain every accepted task has run exactly once, and with Discard the
      accepted tasks are the completed, the failed and the discarded ones. */
  lemma StoppedPoolHasServed(p: Pool, threads: nat, capacity: nat)
    requires threads > 0 && Reachable(p, threads, capacity) && p.phase == Stopped
    ensures p.queue.items == [] && AllExited(p.workers) && p.hist.accepted == p.hist.begun + p.hist.discarded
    ensures p.hist.finished == multiset(p.hist.begun)
    ensures |p.hist.accepted| == p.counters.completed + p.counters.failed + |p.hist.discarded|
    ensures p.stopMode == Some(Drain) ==>
              p.hist.discarded == [] && p.hist.begun == p.hist.accepted && p.hist.finished == multiset(p.hist.accepted)
  {
    ReachableIsGood(p, threads, capacity);
    StoppedHasServed(p);
  }

  lemma StoppedHasServed(p: Pool)
    requires Inv(p) && p.phase == Stopped
    ensures p.queue.items == [] && p.hist.accepted == p.hist.begun + p.hist.discarded
    ensures p.hist.finished == multiset(p.hist.begun)
    ensures |p.hist.accepted| == p.counters.completed + p.counters.failed + |p.hist.discarded|
  {
  }

  // ---------------------------------------------------------------------------------------------
  // What a submit call can count on

  /** A submit call of a running pool reaches the queue. It is accepted exactly when the queue is not closed meanwhile
      and has room, and the task is then the last of those that wait; otherwise it is counted as refused. */
  lemma SubmitIsAnswered(p: Pool, task: Task)
    requires p.phase == Running
    ensures Enabled(p, CheckState(task)) && Enabled(Apply(p, CheckState(task)), Push(task))
    ensures var r := Apply(Apply(p, CheckState(task)), Push(task));
            if p.queue.closed then
              r.hist.accepted == p.hist.accepted && r.counters.rejectedStopped == p.counters.rejectedStopped + 1
            else if p.queue.capacity != 0 && |p.queue.items| >= p.queue.capacity then
              r.hist.accepted == p.hist.accepted && r.counters.rejectedFull == p.counters.rejectedFull + 1
            else
              r.hist.accepted == p.hist.accepted + [task] && r.queue.items == p.queue.items + [task]
  {
  }

  /** What a pool whose queue is served still has to do. */
  function Backlog(p: Pool): nat {
    2 * |p.queue.items| + |p.workers.busy|
  }

  /** A worker can take the next task, or finish the one it has. */
  lemma WorkerStep(p: Pool) returns (step: Step)
    requires Inv(p) && Backlog(p) > 0
    ensures (step.Take? || step.Complete?) && Enabled(p, step) && Backlog(Apply(p, step)) < Backlog(p)
    ensures var r := Apply(p, step); r.hist.accepted == p.hist.accepted && r.hist.discarded == p.hist.discarded
  {
    if p.queue.items != [] && p.workers.idle > 0 {
      step := Take;
    } else {
      var task :| task in p.workers.busy;
      step := Complete(task, true);
    }
  }

  /** Some run leads from p to r. */
  ghost predicate Leads(p: Pool, r: Pool) {
    exists states: seq<Pool> :: IsRun(states) && states[0] == p && states[|states| - 1] == r
  }

  lemma LeadsAfter(p: Pool, step: Step, r: Pool)
    requires Enabled(p, step) && Leads(Apply(p, step), r)
    ensures Leads(p, r)
  {
    var rest: seq<Pool> :| IsRun(rest) && rest[0] == Apply(p, step) && rest[|rest| - 1] == r;
    var states := [p] + rest;
    assert Next(p, rest[0]);
    forall i | 0 <= i < |states| - 1 ensures Next(states[i], states[i + 1]) {
      assert i > 0 ==> states[i] == rest[i - 1] && Next(rest[i - 1], rest[i - 1 + 1]);
    }
    assert IsRun(states) && states[0] == p && states[|states| - 1] == r;
  }

  lemma LeadsNowhere(p: Pool)
    ensures Leads(p, p)
  {
    assert IsRun([p]) && [p][0] == p;
  }

  lemma {:induction false} ServeBacklog(p: Pool) returns (r: Pool)
    requires Inv(p)
    ensures Leads(p, r) && Inv(r) && Backlog(r) == 0
    ensures r.hist.accepted == p.hist.accepted && r.hist.discarded == p.hist.discarded
    decreases Backlog(p)
  {
    if Backlog(p) == 0 {
      r := p;
      LeadsNowhere(p);
    } else {
      var step := WorkerStep(p);
      StepKeepsInv(p, step);
      r := ServeBacklog(Apply(p, step));
      LeadsAfter(p, step, r);
    }
  }

  /** From every reachable state the workers alone can get to one in which every task accepted so far has run exactly
      once, except those that were discarded. */
  lemma AcceptedTasksAreServed(p: Pool, threads: nat, capacity: nat) returns (r: Pool)
    requires threads > 0 && Reachable(p, threads, capacity)
    ensures Leads(p, r) && r.queue.items == [] && r.workers.busy == multiset{}
    ensures r.hist.accepted == p.hist.accepted == r.hist.begun + p.hist.discarded
    ensures r.hist.finished == multiset(r.hist.begun)
  {
    ReachableIsGood(p, threads, capacity);
    r := ServeBacklog(p);
  }

  // ---------------------------------------------------------------------------------------------
  // A stop that has begun goes on

  /** A step of the stopping call or of a worker, as opposed to one of a submit call. */
  predicate Serving(step: Step) {
    step.Take? || step.Complete? || step.Exit? || step.StopClose? || step.StopJoined?
  }

  /** What a closed queue and its workers still have to do: take and complete what waits, complete what runs, exit. */
  function Work(p: Pool): nat {
    3 * |p.queue.items| + 2 * |p.workers.busy| + p.workers.idle + (if p.phase == Stopped then 0 else 1)
  }

  /** While a pool is stopping, the stopping call or a worker always has a step to take. */
  lemma StopIsNeverStuck(p: Pool, threads: nat, capacity: nat) returns (step: Step)
    requires threads > 0 && Reachable(p, threads, capacity) && p.phase == Stopping
    ensures Serving(step) && Enabled(p, step)
  {
    ReachableIsGood(p, threads, capacity);
    step := ServingStep(p);
  }

  lemma ServingStep(p: Pool) returns (step: Step)
    requires Inv(p) && p.phase == Stopping
    ensures Serving(step) && Enabled(p, step)
  {
    if !p.queue.closed {
      step := StopClose;
    } else if p.workers.busy != multiset{} {
      var task :| task in p.workers.busy;
      step := Complete(task, true);
    } else if p.queue.items != [] {
      step := Take;
    } else if p.workers.idle > 0 {
      step := Exit;
    } else {
      step := StopJoined;
    }
  }

  lemma WorkerStepRunsOut(p: Pool, step: Step)
    requires (step.Take? || step.Complete?) && Enabled(p, step)
    ensures Work(Apply(p, step)) < Work(p) && Apply(p, step).queue.closed == p.queue.closed
  {
  }

  /** Once the queue is closed, each such step leaves less to do and no submit call adds anything, so the stop ends. */
  lemma StopRunsOut(p: Pool, step: Step)
    requires p.phase == Stopping && p.queue.closed && Enabled(p, step)
    ensures Work(Apply(p, step)) <= Work(p) && Apply(p, step).queue.closed
    ensures Serving(step) ==> Work(Apply(p, step)) < Work(p)
  {
    if step.Take? || step.Complete? {
      WorkerStepRunsOut(p, step);
    }
  }

  lemma StopGetsOn(p: Pool) returns (step: Step)
    requires Inv(p) && p.phase == Stopping
    ensures Serving(step) && Enabled(p, step)
    ensures var r := Apply(p, step);
            && r.hist.accepted == p.hist.accepted && r.stopMode == p.stopMode && r.phase != Running
            && if p.queue.closed then r.queue.closed && Work(r) < Work(p) else r.queue.closed
  {
    if p.queue.closed {
      step := ServingStep(p);
      StopRunsOut(p, step);
    } else {
      step := StopClose;
    }
  }

  lemma {:induction false} StopEnds(p: Pool) returns (r: Pool)
    requires Inv(p) && p.phase != Running
    ensures Inv(r) && Leads(p, r) && r.phase == Stopped
    ensures r.hist.accepted == p.hist.accepted && r.stopMode == p.stopMode
    decreases if p.queue.closed then 0 else 1, Work(p)
  {
    if p.phase == Stopped {
      r := p;
      LeadsNowhere(p);
    } else {
      var step := StopGetsOn(p);
      StepKeepsInv(p, step);
      r := StopEnds(Apply(p, step));
      LeadsAfter(p, step, r);
    }
  }

  /** A stop call of a running pool takes effect at once, and from every reachable state of a stopping pool the steps of
      that call and of the workers lead to its return: with Drain every accepted task has then run exactly once. */
  lemma StopComesToItsEnd(p: Pool, threads: nat, capacity: nat, mode: CloseMode) returns (r: Pool)
    requires threads > 0 && Reachable(p, threads, capacity)
    ensures p.phase == Running ==>
              var q := Apply(p, StopTakeOver(mode)); q.phase == Stopping && q.stopMode == Some(mode)
    ensures p.phase != Running ==>
              && Leads(p, r) && r.phase == Stopped && r.stopMode == p.stopMode && r.hist.accepted == p.hist.accepted
              && r.hist.finished == multiset(r.hist.begun) && r.hist.accepted == r.hist.begun + r.hist.discarded
              && (r.stopMode == Some(Drain) ==> r.hist.begun == p.hist.accepted)
  {
    ReachableIsGood(p, threads, capacity);
    r := p;
    if p.phase != Running {
      r := StopEnds(p);
      StoppedHasServed(r);
    }
  }
}
