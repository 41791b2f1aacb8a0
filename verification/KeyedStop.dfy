/** What a caller of KeyedSerialExecutor can count on, over every run of module KeyedExecutors: a submitted task is
    handed to the shard of its key, and the stop call that won comes to its end. */
module KeyedStops {

  import opened Collections
  import opened KeyedExecutors
  import opened ThreadPools
  import opened ThreadSafeQueues

  /** From k to r only this shard has changed. */
  ghost predicate OnlyShard(k: Keyed, r: Keyed, i: nat) {
    && i < |k.shards| == |r.shards| && (forall j :: 0 <= j < |k.shards| && j != i ==> r.shards[j] == k.shards[j])
    && r.accepting == k.accepting && r.entered == k.entered && r.stop == k.stop && r.returned == k.returned
  }

  /** The three steps of a submit call, one after the other. */
  ghost predicate Submitted(hash: string -> nat, k: Keyed, task: Task, i: nat, r: Keyed) {
    && KeyedEnabled(hash, k, Enter(task))
    && var k1 := KeyedApply(hash, k, Enter(task));
       && KeyedEnabled(hash, k1, Route(task))
       && var k2 := KeyedApply(hash, k1, Route(task));
          KeyedEnabled(hash, k2, Inside(i, Push(task))) && r == KeyedApply(hash, k2, Inside(i, Push(task)))
  }

  lemma SubmitSteps(hash: string -> nat, k: Keyed, task: Task, i: nat) returns (r: Keyed)
    requires k.accepting && k.shards != [] && i == ShardOf(hash, task.key, |k.shards|) && k.shards[i].phase == Running
    ensures Submitted(hash, k, task, i, r) && OnlyShard(k, r, i)
    ensures r.shards[i] == Apply(Apply(k.shards[i], CheckState(task)), Push(task))
  {
    var k1 := KeyedApply(hash, k, Enter(task));
    var k2 := KeyedApply(hash, k1, Route(task));
    assert k2.entered == k.entered;
    r := KeyedApply(hash, k2, Inside(i, Push(task)));
  }

  ghost predicate CapacityOk(k: Keyed, capacity: nat) {
    forall i :: 0 <= i < |k.shards| ==> k.shards[i].queue.capacity == capacity
  }

  lemma PoolKeepsCapacity(p: Pool, step: Step)
    requires Enabled(p, step)
    ensures Apply(p, step).queue.capacity == p.queue.capacity
  {
  }

  lemma StepKeepsCapacity(hash: string -> nat, k: Keyed, step: KeyedStep, capacity: nat)
    requires KeyedEnabled(hash, k, step) && CapacityOk(k, capacity)
    ensures CapacityOk(KeyedApply(hash, k, step), capacity)
  {
    match step
    case Inside(i, s) => PoolKeepsCapacity(k.shards[i], s);
    case _ =>
  }

  lemma {:induction false} RunKeepsCapacity(hash: string -> nat, states: seq<Keyed>, capacity: nat, m: nat)
    requires IsKeyedRun(hash, states) && CapacityOk(states[0], capacity) && m < |states|
    ensures CapacityOk(states[m], capacity)
  {
    if m > 0 {
      RunKeepsCapacity(hash, states, capacity, m - 1);
      assert KeyedNext(hash, states[m - 1], states[m - 1 + 1]);
      NextKeepsCapacity(hash, states[m - 1], states[m], capacity);
    }
  }

  lemma NextKeepsCapacity(hash: string -> nat, k: Keyed, r: Keyed, capacity: nat)
    requires KeyedNext(hash, k, r) && CapacityOk(k, capacity)
    ensures CapacityOk(r, capacity)
  {
    var step :| KeyedEnabled(hash, k, step) && KeyedApply(hash, k, step) == r;
    StepKeepsCapacity(hash, k, step, capacity);
  }

  lemma ShardIsReady(hash: string -> nat, k: Keyed, n: nat, capacity: nat, i: nat)
    requires n > 0 && capacity > 0 && KeyedReachable(hash, k, n, capacity) && k.accepting && i < n
    ensures |k.shards| == n && k.shards[i].phase == Running && !k.shards[i].queue.closed
    ensures k.shards[i].queue.capacity == capacity
  {
    var states: seq<Keyed> :|
      IsKeyedRun(hash, states) && states[0] == InitKeyed(n, capacity) && states[|states| - 1] == k;
    RunKeepsCapacity(hash, states, capacity, |states| - 1);
    KeyedReachableIsGood(hash, k, n, capacity);
    assert ShardOk(hash, k, i);
  }

  /** A submit call of an accepting executor reaches the shard that the key hashes to, and no other: the task is the
      last that waits there if there is room, and is refused as full if not. */
  lemma SubmitReachesItsShard(hash: string -> nat, k: Keyed, n: nat, capacity: nat, task: Task) returns (r: Keyed)
    requires n > 0 && capacity > 0 && KeyedReachable(hash, k, n, capacity) && k.accepting
    ensures var i := hash(task.key) % n;
            && Submitted(hash, k, task, i, r) && OnlyShard(k, r, i)
            && var p, q := k.shards[i], r.shards[i];
               if |p.queue.items| < capacity then
                 q.hist.accepted == p.hist.accepted + [task] && q.queue.items == p.queue.items + [task]
               else
                 q.hist.accepted == p.hist.accepted && q.counters.rejectedFull == p.counters.rejectedFull + 1
  {
    var i := ShardOf(hash, task.key, n);
    ShardIsReady(hash, k, n, capacity, i);
    r := SubmitSteps(hash, k, task, i);
    SubmitIsAnswered(k.shards[i], task);
  }

  // ---------------------------------------------------------------------------------------------
  // The winning stop call

  ghost predicate Leads(hash: string -> nat, k: Keyed, r: Keyed) {
    exists states: seq<Keyed> :: IsKeyedRun(hash, states) && states[0] == k && states[|states| - 1] == r
  }

  lemma LeadsNowhere(hash: string -> nat, k: Keyed)
    ensures Leads(hash, k, k)
  {
    assert IsKeyedRun(hash, [k]) && [k][0] == k;
  }

  lemma LeadsAfter(hash: string -> nat, k: Keyed, step: KeyedStep, r: Keyed)
    requires KeyedEnabled(hash, k, step) && Leads(hash, KeyedApply(hash, k, step), r)
    ensures Leads(hash, k, r)
  {
    var rest: seq<Keyed> :| IsKeyedRun(hash, rest) && rest[0] == KeyedApply(hash, k, step) && rest[|rest| - 1] == r;
    var states := [k] + rest;
    assert KeyedNext(hash, k, rest[0]);
    forall i | 0 <= i < |states| - 1 ensures KeyedNext(hash, states[i], states[i + 1]) {
      assert i > 0 ==> states[i] == rest[i - 1] && KeyedNext(hash, rest[i - 1], rest[i - 1 + 1]);
    }
    assert IsKeyedRun(hash, states) && states[0] == k && states[|states| - 1] == r;
  }

  /** How far the shard that the stop call is at has come. */
  function PhaseRank(p: Pool): nat {
    if p.phase == Running then 3 else if p.phase == Stopping && !p.queue.closed then 2
    else if p.phase == Stopping then 1 else 0
  }

  /** The step of the stop call or of its shard brings the stop further. */
  ghost predicate Nearer(k: Keyed, r: Keyed) {
    && k.stop.Some? && k.stop.value.next < |k.shards| == |r.shards| && r.stop.Some?
    && r.stop.value.mode == k.stop.value.mode
    && if r.stop.value.next == k.stop.value.next then
         var p, q := k.shards[k.stop.value.next], r.shards[k.stop.value.next];
         PhaseRank(q) < PhaseRank(p) || (PhaseRank(q) == PhaseRank(p) && Work(q) < Work(p))
       else
         r.stop.value.next == k.stop.value.next + 1
  }

  lemma StopStep(hash: string -> nat, k: Keyed) returns (step: KeyedStep)
    requires k.stop.Some? && k.stop.value.next < |k.shards| && Inv(k.shards[k.stop.value.next])
    ensures KeyedEnabled(hash, k, step) && Nearer(k, KeyedApply(hash, k, step))
  {
    var i := k.stop.value.next;
    match k.shards[i].phase
    case Running => step := StopShard;
    case Stopping =>
      var s := StopGetsOn(k.shards[i]);
      step := Inside(i, s);
    case Stopped => step := StopAdvance;
  }

  lemma {:induction false} StopEnds(hash: string -> nat, k: Keyed) returns (r: Keyed)
    requires KeyedInv(hash, k) && k.stop.Some?
    ensures KeyedInv(hash, r) && Leads(hash, k, r) && |r.shards| == |k.shards|
    ensures r.stop == Some(StopCall(k.stop.value.mode, |k.shards|))
    decreases |k.shards| - k.stop.value.next,
              if k.stop.value.next < |k.shards| then PhaseRank(k.shards[k.stop.value.next]) else 0,
              if k.stop.value.next < |k.shards| then Work(k.shards[k.stop.value.next]) else 0
  {
    if k.stop.value.next >= |k.shards| {
      r := k;
      LeadsNowhere(hash, k);
    } else {
      assert ShardOk(hash, k, k.stop.value.next);
      var step := StopStep(hash, k);
      KeyedStepKeepsInv(hash, k, step);
      r := StopEnds(hash, KeyedApply(hash, k, step));
      LeadsAfter(hash, k, step, r);
    }
  }

  /** From every reachable state in which a stop call has won, the steps of that call and of the shards lead it through
      all of them, and every shard has then served as the mode says. */
  lemma WinningStopComesToItsEnd(hash: string -> nat, k: Keyed, n: nat, capacity: nat) returns (r: Keyed)
    requires n > 0 && capacity > 0 && KeyedReachable(hash, k, n, capacity) && k.stop.Some?
    ensures Leads(hash, k, r) && r.stop == Some(StopCall(k.stop.value.mode, n)) && |r.shards| == n
    ensures AllServed(r, k.stop.value.mode)
  {
    KeyedReachableIsGood(hash, k, n, capacity);
    r := StopEnds(hash, k);
    forall i | 0 <= i < n ensures ShardServed(r.shards[i], k.stop.value.mode) {
      assert ShardOk(hash, r, i);
      StoppedShardHasServed(r.shards[i]);
    }
  }

  /** The first stop call wins and shuts the executor; its mode is the one that counts. */
  lemma FirstStopWins(hash: string -> nat, k: Keyed, mode: CloseMode)
    ensures k.accepting ==>
              var r := KeyedApply(hash, k, StopEnter(mode));
              !r.accepting && r.stop == Some(StopCall(mode, 0)) && r.shards == k.shards && r.returned == k.returned
    ensures !k.accepting ==> KeyedApply(hash, k, StopEnter(mode)).stop == k.stop
  {
  }
}
