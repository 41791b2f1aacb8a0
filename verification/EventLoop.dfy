/** EventLoop's task queue: any thread queues, the loop thread swaps the whole queue out and runs it. */
module EventLoops {

  // ---------------------------------------------------------------------------------------------
  // Any interleaving of queueing threads with the loop thread

  /** The history fields order what was queued and what was run. */
  datatype State<T> = State(pending: seq<T>, functors: seq<T>, queued: seq<T>, ran: seq<T>)

  datatype Step<T> = Queue(task: T) | Swap | Call

  predicate Enabled<T>(s: State<T>, step: Step<T>) {
    match step
    case Queue(_) => true
    case Swap => s.functors == []
    case Call => s.functors != []
  }

  function Apply<T>(s: State<T>, step: Step<T>): State<T>
    requires Enabled(s, step)
  {
    match step
    case Queue(task) => s.(pending := s.pending + [task], queued := s.queued + [task])
    case Swap => s.(functors := s.pending, pending := [])
    case Call => s.(functors := s.functors[1..], ran := s.ran + [s.functors[0]])
  }

  ghost predicate Next<T(!new)>(s: State<T>, r: State<T>) {
    exists step :: Enabled(s, step) && Apply(s, step) == r
  }

  ghost predicate IsRun<T(!new)>(states: seq<State<T>>) {
    |states| > 0 && states[0] == State([], [], [], []) &&
    forall i :: 0 <= i < |states| - 1 ==> Next(states[i], states[i + 1])
  }

  lemma StepKeepsOrder<T>(s: State<T>, step: Step<T>)
    requires Enabled(s, step) && s.queued == s.ran + s.functors + s.pending
    ensures var r := Apply(s, step); r.queued == r.ran + r.functors + r.pending
  {
  }

  /** Tasks run in the order they were queued, each of them once: what ran is a prefix of what was queued, and the
      rest is still waiting, in order. */
  lemma {:induction false} TasksRunInOrder<T(!new)>(states: seq<State<T>>, n: nat)
    requires IsRun(states) && n < |states|
    ensures states[n].queued == states[n].ran + states[n].functors + states[n].pending
    ensures states[n].ran <= states[n].queued
  {
    if n > 0 {
      TasksRunInOrder(states, n - 1);
      assert Next(states[n - 1], states[n - 1 + 1]);
      var step :| Enabled(states[n - 1], step) && Apply(states[n - 1], step) == states[n];
      StepKeepsOrder(states[n - 1], step);
    }
  }

  ghost predicate Leads<T(!new)>(s: State<T>, r: State<T>) {
    exists states: seq<State<T>> ::
      && |states| > 0 && states[0] == s && states[|states| - 1] == r
      && forall i :: 0 <= i < |states| - 1 ==> Next(states[i], states[i + 1])
  }

  lemma LeadsAfter<T(!new)>(s: State<T>, step: Step<T>, r: State<T>)
    requires Enabled(s, step) && Leads(Apply(s, step), r)
    ensures Leads(s, r)
  {
    var rest: seq<State<T>> :|
      && |rest| > 0 && rest[0] == Apply(s, step) && rest[|rest| - 1] == r
      && forall i :: 0 <= i < |rest| - 1 ==> Next(rest[i], rest[i + 1]);
    var states := [s] + rest;
    assert Next(s, rest[0]);
    forall i | 0 <= i < |states| - 1 ensures Next(states[i], states[i + 1]) {
      assert i > 0 ==> states[i] == rest[i - 1] && Next(rest[i - 1], rest[i - 1 + 1]);
    }
    assert states[0] == s && states[|states| - 1] == r;
  }

  lemma LeadsNowhere<T(!new)>(s: State<T>)
    ensures Leads(s, s)
  {
    assert |[s]| > 0 && [s][0] == s;
  }

  /** What the loop thread does next: the tasks it swapped out come before those that wait. */
  function LoopStep<T>(s: State<T>): (step: Step<T>)
    requires s.functors != [] || s.pending != []
    ensures Enabled(s, step) && !step.Queue?
  {
    if s.functors != [] then Call else Swap
  }

  /** From every state the loop thread alone gets to one in which everything queued so far has run, in the order it
      was queued. */
  lemma {:induction false} EveryTaskRuns<T(!new)>(s: State<T>) returns (r: State<T>)
    requires s.queued == s.ran + s.functors + s.pending
    ensures Leads(s, r) && r.ran == r.queued == s.queued && r.functors == r.pending == []
    decreases |s.functors| + 2 * |s.pending|
  {
    if s.functors == [] && s.pending == [] {
      r := s;
      LeadsNowhere(s);
    } else {
      var step := LoopStep(s);
      StepKeepsOrder(s, step);
      r := EveryTaskRuns(Apply(s, step));
      LeadsAfter(s, step, r);
    }
  }

  /** A task queued at any moment of a run is the last to wait then, and the loop thread gets to it after all those
      before it. */
  lemma QueuedTaskRuns<T(!new)>(states: seq<State<T>>, n: nat, task: T) returns (r: State<T>)
    requires IsRun(states) && n < |states|
    ensures Leads(Apply(states[n], Queue(task)), r) && r.ran == states[n].queued + [task]
  {
    TasksRunInOrder(states, n);
    StepKeepsOrder(states[n], Queue(task));
    r := EveryTaskRuns(Apply(states[n], Queue(task)));
  }

  // ---------------------------------------------------------------------------------------------
  // The class, with tasks that queue further tasks while they run

  /** What a whole pass queues behind itself. */
  function Spawned<T>(tasks: seq<T>, spawns: T -> seq<T>): seq<T> {
    if tasks == [] then [] else Spawned(tasks[..|tasks| - 1], spawns) + spawns(tasks[|tasks| - 1])
  }

  /** Task by task in their order, each task's own in its order. */
  lemma {:induction false} SpawnedInOrder<T>(a: seq<T>, b: seq<T>, task: T, spawns: T -> seq<T>)
    ensures Spawned(a + b, spawns) == Spawned(a, spawns) + Spawned(b, spawns)
    ensures Spawned([task], spawns) == spawns(task) && Spawned([], spawns) == []
    decreases |b|
  {
    if b == [] {
      assert a + b == a;
    } else {
      var front, last := b[..|b| - 1], b[|b| - 1];
      SpawnedInOrder(a, front, task, spawns);
      assert (a + b)[..|a + b| - 1] == a + front;
    }
  }

  class EventLoop<T> {
    var pending: seq<T>
    var ran: seq<T>

    constructor ()
      ensures pending == [] && ran == []
    {
      pending, ran := [], [];
    }

    method QueueInLoop(task: T)
      modifies this
      ensures pending == old(pending) + [task] && ran == old(ran)
    {
      pending := pending + [task];
    }

    /** A task runs, whether it returns or throws, and queues what it queues. */
    method Call(task: T, spawns: T -> seq<T>)
      modifies this
      ensures ran == old(ran) + [task] && pending == old(pending) + spawns(task)
    {
      ran := ran + [task];
      var more := spawns(task);
      for i := 0 to |more|
        invariant pending == old(pending) + more[..i] && ran == old(ran) + [task]
      {
        QueueInLoop(more[i]);
      }
    }

    /** runInLoop on the loop thread calls at once, ahead of everything that is queued. */
    method RunInLoop(task: T, inLoopThread: bool, spawns: T -> seq<T>)
      modifies this
      ensures ran == if inLoopThread then old(ran) + [task] else old(ran)
      ensures pending == old(pending) + (if inLoopThread then spawns(task) else [task])
    {
      if inLoopThread {
        Call(task, spawns);
      } else {
        QueueInLoop(task);
      }
    }

    /** One pass runs exactly the tasks that were queued when it began, in order; what they queue waits for the next
        pass. */
    method DoPendingFunctors(spawns: T -> seq<T>)
      modifies this
      ensures ran == old(ran) + old(pending)
      ensures pending == Spawned(old(pending), spawns)
    {
      var functors := pending;
      pending := [];
      for i := 0 to |functors|
        invariant ran == old(ran) + functors[..i]
        invariant pending == Spawned(functors[..i], spawns)
      {
        assert functors[..i + 1][..i] == functors[..i];
        Call(functors[i], spawns);
      }
      assert functors[..|functors|] == functors;
    }
  }
}
