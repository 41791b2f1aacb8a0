/** KeyedSerialExecutor: one single-threaded pool per shard, tasks routed by the hash of their key, under any
    race of submit calls, workers and stop calls. */
module KeyedExecutors {

  import opened Collections
  import opened ThreadSafeQueues
  import opened ThreadPools

  /** The stop call that won the exchange of accepting_, and the shard it is stopping. */
  datatype StopCall = StopCall(mode: CloseMode, next: nat)

  /** A stop call that has returned, with what its exchange of accepting_ found. */
  datatype Return = Return(found: bool, mode: CloseMode)

  datatype Keyed = Keyed(
    shards: seq<Pool>,
    accepting: bool,
    entered: multiset<Task>,        // submit calls past the check of accepting_
    stop: Option<StopCall>,
    returned: seq<Return>)          // history: the stop calls that have returned, in order

  datatype KeyedStep =
    | Enter(task: Task)
    | Route(task: Task)
    | Inside(shard: nat, step: Step)
    | StopEnter(mode: CloseMode)
    | StopShard
    | StopAdvance
    | StopReturn

  function ShardOf(hash: string -> nat, key: string, n: nat): nat
    requires n > 0
  {
    hash(key) % n
  }

  /** The constructor refuses a shard count or a capacity of zero. */
  function InitKeyed(n: nat, capacity: nat): Keyed
    requires n > 0 && capacity > 0
  {
    Keyed(seq(n, _ => InitPool(1, capacity)), true, multiset{}, None, [])
  }

  /** Steps that a pool takes on its own, once tasks have been handed to it. */
  predicate Internal(step: Step) {
    !step.CheckState? && !step.StopTakeOver?
  }

  predicate KeyedEnabled(hash: string -> nat, k: Keyed, step: KeyedStep) {
    match step
    case Enter(task) => k.accepting
    case Route(task) => task in k.entered && k.shards != []
    case Inside(i, s) =>
      i < |k.shards| && Internal(s) && Enabled(k.shards[i], s)
    case StopEnter(mode) => true
    case StopShard => k.stop.Some? && k.stop.value.next < |k.shards| && k.shards[k.stop.value.next].phase == Running
    case StopAdvance => k.stop.Some? && k.stop.value.next < |k.shards| && k.shards[k.stop.value.next].phase == Stopped
    case StopReturn =>
      k.stop.Some? && k.stop.value.next == |k.shards| && Return(true, k.stop.value.mode) !in k.returned
  }

  function KeyedApply(hash: string -> nat, k: Keyed, step: KeyedStep): Keyed
    requires KeyedEnabled(hash, k, step)
  {
    match step
    case Enter(task) => k.(entered := k.entered + multiset{task})
    case Route(task) =>
      var i := ShardOf(hash, task.key, |k.shards|);
      var k1 := k.(entered := k.entered - multiset{task});
      if k.shards[i].phase != Running then k1
      else k1.(shards := k.shards[i := Apply(k.shards[i], CheckState(task))])
    case Inside(i, s) => k.(shards := k.shards[i := Apply(k.shards[i], s)])
    // A call whose exchange finds false returns at once.
    case StopEnter(mode) =>
      if k.accepting then k.(accepting := false, stop := Some(StopCall(mode, 0)))
      else k.(returned := k.returned + [Return(false, mode)])
    case StopShard =>
      var i := k.stop.value.next;
      k.(shards := k.shards[i := Apply(k.shards[i], StopTakeOver(k.stop.value.mode))])
    case StopAdvance => k.(stop := Some(k.stop.value.(next := k.stop.value.next + 1)))
    case StopReturn => k.(returned := k.returned + [Return(true, k.stop.value.mode)])
  }

  // ---------------------------------------------------------------------------------------------
  // One worker means serial execution

  /** The log is a serial execution of `begun`: each task ends before the next one begins. */
  ghost predicate Serial(log: seq<Event>, begun: seq<Task>) {
    && 2 * |begun| - 1 <= |log| <= 2 * |begun|
    && forall i :: 0 <= i < |begun| ==>
         && log[2 * i] == Began(begun[i])
         && (2 * i + 1 < |log| ==> log[2 * i + 1].Ended? && log[2 * i + 1].task == begun[i])
  }

  ghost predicate SerialOk(p: Pool) {
    var log, begun := p.hist.log, p.hist.begun;
    && p.workers.Total() == 1
    && Serial(log, begun)
    && (p.workers.busy == multiset{} ==> |log| == 2 * |begun|)
    && (p.workers.busy != multiset{} ==>
          begun != [] && |log| == 2 * |begun| - 1 && p.workers.busy == multiset{begun[|begun| - 1]})
  }

  lemma TakeKeepsSerial(p: Pool)
    requires SerialOk(p) && Enabled(p, Take)
    ensures SerialOk(Apply(p, Take))
  {
  }

  lemma CompleteKeepsSerial(p: Pool, task: Task, ok: bool)
    requires SerialOk(p) && Enabled(p, Complete(task, ok))
    ensures SerialOk(Apply(p, Complete(task, ok)))
  {
    assert p.workers.busy - multiset{task} == multiset{};
  }

  lemma StepKeepsSerial(p: Pool, step: Step)
    requires SerialOk(p) && Enabled(p, step)
    ensures SerialOk(Apply(p, step))
  {
    match step
    case Take => TakeKeepsSerial(p);
    case Complete(task, ok) => CompleteKeepsSerial(p, task, ok);
    case _ =>
      StepKeepsTotal(p, step);
      IdleKeepsSerial(p, Apply(p, step));
  }

  lemma IdleKeepsSerial(p: Pool, r: Pool)
    requires SerialOk(p) && r.hist.log == p.hist.log && r.hist.begun == p.hist.begun
    requires r.workers.busy == p.workers.busy && r.workers.Total() == p.workers.Total()
    ensures SerialOk(r)
  {
  }

  lemma StepKeepsTotal(p: Pool, step: Step)
    requires Enabled(p, step)
    ensures Apply(p, step).workers.Total() == p.workers.Total()
  {
  }

  // ---------------------------------------------------------------------------------------------
  // What every step keeps

  /** Only tasks whose key hashes to this shard are in it. */
  ghost predicate Routed(hash: string -> nat, p: Pool, i: nat, n: nat)
    requires n > 0
  {
    && (forall t :: t in p.checked ==> ShardOf(hash, t.key, n) == i)
    && (forall t :: t in p.hist.accepted ==> ShardOf(hash, t.key, n) == i)
  }

  ghost predicate ShardOk(hash: string -> nat, k: Keyed, i: nat)
    requires i < |k.shards|
  {
    Inv(k.shards[i]) && SerialOk(k.shards[i]) && Routed(hash, k.shards[i], i, |k.shards|)
  }

  /** Where the winning stop call is determines the phase of every shard. */
  ghost predicate StopOk(k: Keyed) {
    match k.stop
    case None => k.accepting && forall i :: 0 <= i < |k.shards| ==> k.shards[i].phase == Running
    case Some(c) =>
      && !k.accepting && c.next <= |k.shards|
      && (forall i :: 0 <= i < c.next ==> k.shards[i].phase == Stopped)
      && (forall i :: c.next < i < |k.shards| ==> k.shards[i].phase == Running)
      && (forall i :: 0 <= i < |k.shards| && k.shards[i].phase != Running ==> k.shards[i].stopMode == Some(c.mode))
  }

  ghost predicate KeyedInv(hash: string -> nat, k: Keyed) {
    k.shards != [] && (forall i :: 0 <= i < |k.shards| ==> ShardOk(hash, k, i)) && StopOk(k)
  }

  lemma PoolStepKeepsShard(hash: string -> nat, p: Pool, step: Step, i: nat, n: nat)
    requires n > 0 && Inv(p) && SerialOk(p) && Routed(hash, p, i, n)
    requires Enabled(p, step) && (step.CheckState? ==> ShardOf(hash, step.task.key, n) == i)
    ensures var r := Apply(p, step); Inv(r) && SerialOk(r) && Routed(hash, r, i, n)
  {
    StepKeepsInv(p, step);
    StepKeepsSerial(p, step);
    StepKeepsRouted(hash, p, step, i, n);
  }

  lemma StepKeepsRouted(hash: string -> nat, p: Pool, step: Step, i: nat, n: nat)
    requires n > 0 && Routed(hash, p, i, n)
    requires Enabled(p, step) && (step.CheckState? ==> ShardOf(hash, step.task.key, n) == i)
    ensures Routed(hash, Apply(p, step), i, n)
  {
  }

  /** A step of one shard keeps all shards. */
  lemma ShardStepKeepsShards(hash: string -> nat, k: Keyed, i: nat, step: Step)
    requires k.shards != [] && i < |k.shards| && forall j :: 0 <= j < |k.shards| ==> ShardOk(hash, k, j)
    requires Enabled(k.shards[i], step)
    requires step.CheckState? ==> ShardOf(hash, step.task.key, |k.shards|) == i
    ensures var r := k.(shards := k.shards[i := Apply(k.shards[i], step)]);
            forall j :: 0 <= j < |r.shards| ==> ShardOk(hash, r, j)
  {
    assert ShardOk(hash, k, i);
    PoolStepKeepsShard(hash, k.shards[i], step, i, |k.shards|);
    OneGoodShard(hash, k, i, Apply(k.shards[i], step));
  }

  lemma OneGoodShard(hash: string -> nat, k: Keyed, i: nat, p: Pool)
    requires k.shards != [] && i < |k.shards| && forall j :: 0 <= j < |k.shards| ==> ShardOk(hash, k, j)
    requires Inv(p) && SerialOk(p) && Routed(hash, p, i, |k.shards|)
    ensures var r := k.(shards := k.shards[i := p]);
            forall j :: 0 <= j < |r.shards| ==> ShardOk(hash, r, j)
  {
    var r := k.(shards := k.shards[i := p]);
    forall j | 0 <= j < |r.shards| ensures ShardOk(hash, r, j) {
      assert ShardOk(hash, k, j);
    }
  }

  lemma ShardStepKeepsStop(k: Keyed, i: nat, step: Step)
    requires i < |k.shards| && Inv(k.shards[i]) && Enabled(k.shards[i], step) && StopOk(k)
    requires step.StopTakeOver? ==> k.stop.Some? && i == k.stop.value.next && step.mode == k.stop.value.mode
    ensures StopOk(k.(shards := k.shards[i := Apply(k.shards[i], step)]))
  {
  }

  lemma ShardStepKeepsInv(hash: string -> nat, k: Keyed, i: nat, step: Step)
    requires KeyedInv(hash, k) && i < |k.shards| && Enabled(k.shards[i], step)
    requires step.CheckState? ==> ShardOf(hash, step.task.key, |k.shards|) == i
    requires step.StopTakeOver? ==> k.stop.Some? && i == k.stop.value.next && step.mode == k.stop.value.mode
    ensures KeyedInv(hash, k.(shards := k.shards[i := Apply(k.shards[i], step)]))
  {
    assert ShardOk(hash, k, i);
    ShardStepKeepsShards(hash, k, i, step);
    ShardStepKeepsStop(k, i, step);
  }

  lemma KeyedStepKeepsInv(hash: string -> nat, k: Keyed, step: KeyedStep)
    requires KeyedInv(hash, k) && KeyedEnabled(hash, k, step)
    ensures KeyedInv(hash, KeyedApply(hash, k, step))
  {
    match step {
      case Route(task) =>
        var i := ShardOf(hash, task.key, |k.shards|);
        var k1 := k.(entered := k.entered - multiset{task});
        SameShardsKeepInv(hash, k, k1);
        if k.shards[i].phase == Running {
          ShardStepKeepsInv(hash, k1, i, CheckState(task));
        }
      case Inside(i, s) => ShardStepKeepsInv(hash, k, i, s);
      case StopShard => ShardStepKeepsInv(hash, k, k.stop.value.next, StopTakeOver(k.stop.value.mode));
      case _ => SameShardsKeepInv(hash, k, KeyedApply(hash, k, step));
    }
  }

  lemma SameShardsKeepInv(hash: string -> nat, k: Keyed, r: Keyed)
    requires KeyedInv(hash, k) && r.shards == k.shards && StopOk(r)
    ensures KeyedInv(hash, r)
  {
    forall j | 0 <= j < |r.shards| ensures ShardOk(hash, r, j) {
      assert ShardOk(hash, k, j);
    }
  }

  // ---------------------------------------------------------------------------------------------
  // Theorems about every run

  ghost predicate KeyedNext(hash: string -> nat, k: Keyed, r: Keyed) {
    exists step :: KeyedEnabled(hash, k, step) && KeyedApply(hash, k, step) == r
  }

  ghost predicate IsKeyedRun(hash: string -> nat, states: seq<Keyed>) {
    |states| > 0 && forall i :: 0 <= i < |states| - 1 ==> KeyedNext(hash, states[i], states[i + 1])
  }

  ghost predicate KeyedReachable(hash: string -> nat, k: Keyed, n: nat, capacity: nat)
    requires n > 0 && capacity > 0
  {
    exists states: seq<Keyed> ::
      IsKeyedRun(hash, states) && states[0] == InitKeyed(n, capacity) && states[|states| - 1] == k
  }

  lemma {:induction false} KeyedRunKeepsInv(hash: string -> nat, states: seq<Keyed>, m: nat)
    requires IsKeyedRun(hash, states) && KeyedInv(hash, states[0]) && m < |states|
    ensures KeyedInv(hash, states[m]) && |states[m].shards| == |states[0].shards|
  {
    if m > 0 {
      KeyedRunKeepsInv(hash, states, m - 1);
      assert KeyedNext(hash, states[m - 1], states[m - 1 + 1]);
      var step :| KeyedEnabled(hash, states[m - 1], step) && KeyedApply(hash, states[m - 1], step) == states[m];
      KeyedStepKeepsInv(hash, states[m - 1], step);
    }
  }

  lemma InitKeyedIsGood(hash: string -> nat, n: nat, capacity: nat)
    requires n > 0 && capacity > 0
    ensures KeyedInv(hash, InitKeyed(n, capacity))
  {
  }

  lemma KeyedReachableIsGood(hash: string -> nat, k: Keyed, n: nat, capacity: nat)
    requires n > 0 && capacity > 0 && KeyedReachable(hash, k, n, capacity)
    ensures KeyedInv(hash, k) && |k.shards| == n
  {
    var states: seq<Keyed> :|
      IsKeyedRun(hash, states) && states[0] == InitKeyed(n, capacity) && states[|states| - 1] == k;
    InitKeyedIsGood(hash, n, capacity);
    KeyedRunKeepsInv(hash, states, |states| - 1);
  }

  /** Every accepted task is in the shard of its key and in no other. If two tasks of a key were accepted one
      after the other and the later one has begun, then the earlier one began and finished before that. */
  lemma SameKeyRunsInOrder(hash: string -> nat, k: Keyed, n: nat, capacity: nat, key: string, a: nat, b: nat)
    requires n > 0 && capacity > 0 && KeyedReachable(hash, k, n, capacity)
    requires ShardOf(hash, key, n) < |k.shards|
    requires var p := k.shards[ShardOf(hash, key, n)];
             a < b < |p.hist.accepted| && p.hist.accepted[a].key == p.hist.accepted[b].key == key && b < |p.hist.begun|
    ensures forall i, t :: 0 <= i < |k.shards| && t in k.shards[i].hist.accepted && t.key == key ==>
              i == ShardOf(hash, key, n)
    ensures var p := k.shards[ShardOf(hash, key, n)];
            && 2 * a + 1 < 2 * b < |p.hist.log|
            && p.hist.log[2 * a].Began? && p.hist.log[2 * a].task == p.hist.accepted[a]
            && p.hist.log[2 * a + 1].Ended? && p.hist.log[2 * a + 1].task == p.hist.accepted[a]
            && p.hist.log[2 * b].Began? && p.hist.log[2 * b].task == p.hist.accepted[b]
  {
    KeyedReachableIsGood(hash, k, n, capacity);
    var i := ShardOf(hash, key, n);
    assert ShardOk(hash, k, i);
    EarlierFinishesFirst(k.shards[i], a, b);
    forall j, t | 0 <= j < |k.shards| && t in k.shards[j].hist.accepted && t.key == key ensures j == i {
      assert ShardOk(hash, k, j);
    }
  }

  lemma EarlierFinishesFirst(p: Pool, a: nat, b: nat)
    requires OrderOk(p) && Serial(p.hist.log, p.hist.begun) && a < b < |p.hist.begun|
    ensures 2 * a + 1 < 2 * b < |p.hist.log| && b < |p.hist.accepted|
    ensures p.hist.log[2 * a].Began? && p.hist.log[2 * a].task == p.hist.accepted[a]
    ensures p.hist.log[2 * a + 1].Ended? && p.hist.log[2 * a + 1].task == p.hist.accepted[a]
    ensures p.hist.log[2 * b].Began? && p.hist.log[2 * b].task == p.hist.accepted[b]
  {
  }

  /** The tasks of one key, in order. */
  function OfKey(tasks: seq<Task>, key: string): (r: seq<Task>)
    ensures forall t :: t in r <==> t in tasks && t.key == key
  {
    if tasks == [] then []
    else
      var front, last := tasks[..|tasks| - 1], tasks[|tasks| - 1];
      if last.key == key then OfKey(front, key) + [last] else OfKey(front, key)
  }

  lemma {:induction false} OfKeyConcat(a: seq<Task>, b: seq<Task>, key: string)
    ensures OfKey(a + b, key) == OfKey(a, key) + OfKey(b, key)
    decreases |b|
  {
    if b == [] {
      assert a + b == a;
    } else {
      var front, last := b[..|b| - 1], b[|b| - 1];
      OfKeyConcat(a, front, key);
      assert (a + b)[..|a + b| - 1] == a + front && (a + b)[|a + b| - 1] == last;
    }
  }

  /** Seen through one key, its shard is a queue: of the tasks accepted under the key, in that order, first those that
      began, then those that wait, then those a Discard dropped. */
  lemma OneKeyIsOneQueue(hash: string -> nat, k: Keyed, n: nat, capacity: nat, key: string)
    requires n > 0 && capacity > 0 && KeyedReachable(hash, k, n, capacity)
    ensures ShardOf(hash, key, n) < |k.shards|
    ensures var p := k.shards[ShardOf(hash, key, n)];
            OfKey(p.hist.accepted, key)
            == OfKey(p.hist.begun, key) + (OfKey(p.queue.items, key) + OfKey(p.hist.discarded, key))
  {
    KeyedReachableIsGood(hash, k, n, capacity);
    assert ShardOk(hash, k, ShardOf(hash, key, n));
    OneKeyInPool(k.shards[ShardOf(hash, key, n)], key);
  }

  lemma OneKeyInPool(p: Pool, key: string)
    requires OrderOk(p)
    ensures OfKey(p.hist.accepted, key)
            == OfKey(p.hist.begun, key) + (OfKey(p.queue.items, key) + OfKey(p.hist.discarded, key))
  {
    assert p.hist.accepted == p.hist.begun + (p.queue.items + p.hist.discarded);
    OfKeyConcat(p.hist.begun, p.queue.items + p.hist.discarded, key);
    OfKeyConcat(p.queue.items, p.hist.discarded, key);
  }

  /** The shard has served as a stop in this mode promises: with Drain each accepted task ran exactly once, in
      acceptance order, and with Discard the rest was discarded. */
  ghost predicate ShardServed(p: Pool, mode: CloseMode) {
    && p.phase == Stopped && p.queue.items == []
    && Serial(p.hist.log, p.hist.begun) && |p.hist.log| == 2 * |p.hist.begun|
    && p.hist.accepted == p.hist.begun + p.hist.discarded
    && |p.hist.accepted| == p.counters.completed + p.counters.failed + |p.hist.discarded|
    && (mode == Drain ==> p.hist.begun == p.hist.accepted)
  }

  ghost predicate AllServed(k: Keyed, mode: CloseMode) {
    forall i :: 0 <= i < |k.shards| ==> ShardServed(k.shards[i], mode)
  }

  /** When the stop call that won the exchange is through its shards, every one of them has served. */
  lemma StopServesEveryShard(hash: string -> nat, k: Keyed, n: nat, capacity: nat)
    requires n > 0 && capacity > 0 && KeyedReachable(hash, k, n, capacity)
    requires k.stop.Some? && k.stop.value.next == n
    ensures |k.shards| == n && AllServed(k, k.stop.value.mode)
  {
    KeyedReachableIsGood(hash, k, n, capacity);
    forall i | 0 <= i < n ensures ShardServed(k.shards[i], k.stop.value.mode) {
      assert ShardOk(hash, k, i);
      StoppedShardHasServed(k.shards[i]);
    }
  }

  lemma StoppedShardHasServed(p: Pool)
    requires Inv(p) && SerialOk(p) && p.phase == Stopped
    ensures p.queue.items == [] && |p.hist.log| == 2 * |p.hist.begun|
    ensures p.hist.accepted == p.hist.begun + p.hist.discarded
    ensures |p.hist.accepted| == p.counters.completed + p.counters.failed + |p.hist.discarded|
    ensures p.stopMode == Some(Drain) ==> p.hist.begun == p.hist.accepted
  {
    StoppedHasServed(p);
  }

  /** A step of the winning stop call: it takes over its shard, that shard serves, or the call moves on. */
  ghost predicate TakesStopFurther(hash: string -> nat, k: Keyed, step: KeyedStep)
    requires k.stop.Some? && k.stop.value.next < |k.shards|
  {
    var c := k.stop.value;
    && KeyedEnabled(hash, k, step)
    && match step
       case StopShard => k.shards[c.next].phase == Running
       case Inside(i, s) => i == c.next && Serving(s)
       case StopAdvance => KeyedApply(hash, k, step).stop == Some(StopCall(c.mode, c.next + 1))
       case _ => false
  }

  lemma NextStopStep(hash: string -> nat, k: Keyed) returns (step: KeyedStep)
    requires k.stop.Some? && k.stop.value.next < |k.shards| && Inv(k.shards[k.stop.value.next])
    ensures TakesStopFurther(hash, k, step)
  {
    var i := k.stop.value.next;
    match k.shards[i].phase
    case Running => step := StopShard;
    case Stopping =>
      var s := ServingStep(k.shards[i]);
      step := Inside(i, s);
    case Stopped => step := StopAdvance;
  }

  /** The winning stop call always has a way on: it takes over the next shard, that shard serves, or the call moves on
      to the one after it. */
  lemma KeyedStopIsNeverStuck(hash: string -> nat, k: Keyed, n: nat, capacity: nat) returns (step: KeyedStep)
    requires n > 0 && capacity > 0 && KeyedReachable(hash, k, n, capacity)
    requires k.stop.Some? && k.stop.value.next < n
    ensures k.stop.value.next < |k.shards| && TakesStopFurther(hash, k, step)
  {
    KeyedReachableIsGood(hash, k, n, capacity);
    assert ShardOk(hash, k, k.stop.value.next);
    step := NextStopStep(hash, k);
  }

  lemma ReachOn(hash: string -> nat, k: Keyed, step: KeyedStep, r: Keyed, n: nat, capacity: nat)
    requires n > 0 && capacity > 0 && KeyedReachable(hash, k, n, capacity)
    requires KeyedEnabled(hash, k, step) && KeyedApply(hash, k, step) == r
    ensures KeyedReachable(hash, r, n, capacity)
  {
    var states: seq<Keyed> :|
      IsKeyedRun(hash, states) && states[0] == InitKeyed(n, capacity) && states[|states| - 1] == k;
    var more := states + [r];
    forall i | 0 <= i < |more| - 1 ensures KeyedNext(hash, more[i], more[i + 1]) {
      if i == |states| - 1 {
        assert KeyedNext(hash, k, r);
      }
    }
    assert IsKeyedRun(hash, more) && more[0] == InitKeyed(n, capacity) && more[|more| - 1] == r;
  }

  // ---------------------------------------------------------------------------------------------
  // What a stop call that returns can promise

  /** With this step a stop call in this mode returns, whose exchange found this value. */
  predicate Returns(k: Keyed, step: KeyedStep, found: bool, mode: CloseMode) {
    if found then step.StopReturn? && k.stop.Some? && k.stop.value.mode == mode
    else step == StopEnter(mode) && !k.accepting
  }

  /** The history holds exactly the returns. */
  lemma ReturnsIsRecorded(hash: string -> nat, k: Keyed, step: KeyedStep, found: bool, mode: CloseMode)
    requires KeyedEnabled(hash, k, step)
    ensures Returns(k, step, found, mode) <==>
            KeyedApply(hash, k, step).returned == k.returned + [Return(found, mode)]
  {
    assert k.returned != k.returned + [Return(found, mode)];
    if step.StopReturn? {
      assert (k.returned + [Return(true, k.stop.value.mode)])[|k.returned|] == Return(true, k.stop.value.mode);
    } else if step.StopEnter? && !k.accepting {
      assert (k.returned + [Return(false, step.mode)])[|k.returned|] == Return(false, step.mode);
    }
  }

  /** Whenever such a call returns, in any run, every shard has served as its mode says. */
  ghost predicate ReturnMeansServed(hash: string -> nat, n: nat, capacity: nat, found: bool, mode: CloseMode)
    requires n > 0 && capacity > 0
  {
    forall k, step ::
      KeyedReachable(hash, k, n, capacity) && KeyedEnabled(hash, k, step) && Returns(k, step, found, mode) ==>
      AllServed(KeyedApply(hash, k, step), mode)
  }

  function Shards(n: nat, capacity: nat, i: nat, p: Pool): seq<Pool>
    requires i < n
  {
    seq(n, j => if j == i then p else InitPool(1, capacity))
  }

  function CheckedPool(t: Task, capacity: nat): Pool {
    InitPool(1, capacity).(checked := multiset{t})
  }

  function WaitingPool(t: Task, capacity: nat): Pool {
    Pool(Queue([t], false, capacity), Workers(1, multiset{}, 0), Running, None, multiset{}, 1,
         Counters(0, 0, 0, 0, 0), History([t], [], multiset{}, [], [], Tally(1, multiset{})))
  }

  lemma OneTaskCanBeChecked(hash: string -> nat, n: nat, capacity: nat, t: Task)
    requires n > 0 && capacity > 0
    ensures var i := ShardOf(hash, t.key, n);
            KeyedReachable(hash, Keyed(Shards(n, capacity, i, CheckedPool(t, capacity)), true, multiset{}, None, []),
                           n, capacity)
  {
    var i, k0 := ShardOf(hash, t.key, n), InitKeyed(n, capacity);
    assert IsKeyedRun(hash, [k0]) && [k0][0] == k0;
    var k1 := k0.(entered := multiset{t});
    ReachOn(hash, k0, Enter(t), k1, n, capacity);
    assert Apply(InitPool(1, capacity), CheckState(t)) == CheckedPool(t, capacity);
    assert k0.shards[i := CheckedPool(t, capacity)] == Shards(n, capacity, i, CheckedPool(t, capacity));
    ReachOn(hash, k1, Route(t), KeyedApply(hash, k1, Route(t)), n, capacity);
  }

  lemma OneTaskCanWait(hash: string -> nat, n: nat, capacity: nat, t: Task)
    requires n > 0 && capacity > 0
    ensures var i := ShardOf(hash, t.key, n);
            KeyedReachable(hash, Keyed(Shards(n, capacity, i, WaitingPool(t, capacity)), true, multiset{}, None, []),
                           n, capacity)
  {
    OneTaskCanBeChecked(hash, n, capacity, t);
    var i := ShardOf(hash, t.key, n);
    var k := Keyed(Shards(n, capacity, i, CheckedPool(t, capacity)), true, multiset{}, None, []);
    assert Apply(CheckedPool(t, capacity), Push(t)) == WaitingPool(t, capacity);
    assert k.shards[i := WaitingPool(t, capacity)] == Shards(n, capacity, i, WaitingPool(t, capacity));
    ReachOn(hash, k, Inside(i, Push(t)), KeyedApply(hash, k, Inside(i, Push(t))), n, capacity);
  }

  /** A stop call that loses the exchange returns at once: for every executor, every task and all modes of the two calls
      there is a run in which the second call has returned and the accepted task has not even begun. */
  lemma LosingStopReturnsEarly(hash: string -> nat, n: nat, capacity: nat, t: Task, first: CloseMode,
                               second: CloseMode) returns (k: Keyed)
    requires n > 0 && capacity > 0
    ensures KeyedReachable(hash, k, n, capacity) && !k.accepting && k.stop == Some(StopCall(first, 0))
    ensures KeyedEnabled(hash, k, StopEnter(second)) && Returns(k, StopEnter(second), false, second)
    ensures var r := KeyedApply(hash, k, StopEnter(second));
            && |r.shards| == n && r.returned == [Return(false, second)]
            && var p := r.shards[ShardOf(hash, t.key, n)];
               p.hist.accepted == [t] && p.hist.begun == [] && p.hist.discarded == [] && !ShardServed(p, second)
  {
    OneTaskCanWait(hash, n, capacity, t);
    var k0 := Keyed(Shards(n, capacity, ShardOf(hash, t.key, n), WaitingPool(t, capacity)), true, multiset{}, None, []);
    k := k0.(accepting := false, stop := Some(StopCall(first, 0)));
    ReachOn(hash, k0, StopEnter(first), k, n, capacity);
  }

  /** That a stop call has returned guarantees that every shard has served exactly when its exchange found accepting_
      true. */
  lemma ReturnMeansServedExactly(hash: string -> nat, n: nat, capacity: nat, found: bool, mode: CloseMode)
    requires n > 0 && capacity > 0
    ensures ReturnMeansServed(hash, n, capacity, found, mode) <==> found
  {
    if found {
      forall k, step |
        KeyedReachable(hash, k, n, capacity) && KeyedEnabled(hash, k, step) && Returns(k, step, found, mode)
        ensures AllServed(KeyedApply(hash, k, step), mode)
      {
        KeyedReachableIsGood(hash, k, n, capacity);
        StopServesEveryShard(hash, k, n, capacity);
      }
    } else {
      var k := LosingStopReturnsEarly(hash, n, capacity, Task("", 0), Drain, mode);
      var r := KeyedApply(hash, k, StopEnter(mode));
      assert !ShardServed(r.shards[ShardOf(hash, "", n)], mode);
    }
  }
}
