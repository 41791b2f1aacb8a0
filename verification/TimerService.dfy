/** What a caller of TimerQueue can count on, over every run of the protocol of module Timers: a cancellation takes
    effect, an addition is remembered as it was asked for, and a timer that is not cancelled gets its callback. */
module TimerServices {

  import opened Collections
  import opened Repeaters
  import opened Timers

  // ---------------------------------------------------------------------------------------------
  // Additions and cancellations

  /** An addition is issued under a new number with exactly what was asked for, and starts and cancels nothing. */
  lemma AddTakesEffect(s: State, id: nat, request: Request, now: int)
    requires id !in s.issued
    ensures Enabled(s, RemoteAdd(id, request))
    ensures var r := Apply(s, RemoteAdd(id, request)); r.issued == s.issued[id := request] && r.log == s.log
    ensures InUserCode(s) && s.clock <= now ==>
              && Enabled(s, LocalAdd(id, request, now))
              && var r := Apply(s, LocalAdd(id, request, now));
                 r.issued == s.issued[id := request] && r.log == s.log && r.clock == now
  {
  }

  /** A cancellation that runs in the loop has run; one that is handed over waits to. */
  lemma CancelTakesEffect(s: State, id: nat, now: int)
    requires id in s.issued && s.clock <= now
    ensures InUserCode(s) ==>
              && Enabled(s, LocalCancel(id, now))
              && var r := Apply(s, LocalCancel(id, now)); r.log == s.log + [CancelRan(id)] && r.clock == now
    ensures var r := Apply(s, RemoteCancel(id)); r.cancelTasks == s.cancelTasks + multiset{id} && r.log == s.log
    ensures s.pass.None? && id in s.cancelTasks ==>
              && Enabled(s, RunCancel(id, now))
              && var r := Apply(s, RunCancel(id, now));
                 r.log == s.log + [CancelRan(id)] && r.cancelTasks == s.cancelTasks - multiset{id}
  {
  }

  /** The cancellation is waiting in the inbox, or has run. */
  ghost predicate CancelAsked(s: State, id: nat) {
    id in s.cancelTasks || Cancelled(s, id)
  }

  lemma RunCancelKeepsAsked(s: State, x: nat, now: int, id: nat)
    requires CancelAsked(s, id) && Enabled(s, RunCancel(x, now))
    ensures CancelAsked(Apply(s, RunCancel(x, now)), id)
  {
    var r := Apply(s, RunCancel(x, now));
    assert r.log == s.log + [CancelRan(x)] && r.cancelTasks == s.cancelTasks - multiset{x};
  }

  lemma TasksStay(s: State, step: Step)
    requires Enabled(s, step) && !step.RunCancel?
    ensures s.cancelTasks <= Apply(s, step).cancelTasks
  {
    if step.EndPass? {
      FinishLogs(s, step.now);
    }
  }

  lemma StepKeepsAsked(s: State, step: Step, id: nat)
    requires CancelAsked(s, id) && Enabled(s, step)
    ensures CancelAsked(Apply(s, step), id)
  {
    if step.RunCancel? {
      RunCancelKeepsAsked(s, step.id, step.now, id);
    } else {
      TasksStay(s, step);
      LogGrows(s, step);
    }
  }

  lemma FinishLogs(s: State, now: int)
    requires s.pass.Some?
    ensures Finish(s, now).log == s.log && Finish(s, now).issued == s.issued && Finish(s, now).clock == now
    ensures Finish(s, now).cancelTasks == s.cancelTasks
  {
  }

  /** No step takes anything out of the log. */
  lemma LogGrows(s: State, step: Step)
    requires Enabled(s, step)
    ensures s.log <= Apply(s, step).log
  {
    if step.EndPass? {
      FinishLogs(s, step.now);
    }
  }

  ghost predicate AskedAt(states: seq<State>, id: nat, k: nat)
    requires k + 1 < |states|
  {
    CancelAsked(states[k], id) ==> CancelAsked(states[k + 1], id)
  }

  lemma NextKeepsAsked(states: seq<State>, id: nat, k: nat)
    requires IsRun(states) && k + 1 < |states|
    ensures AskedAt(states, id, k)
  {
    var s, r := states[k], states[k + 1];
    assert Next(s, r);
    var step :| Enabled(s, step) && Apply(s, step) == r;
    if CancelAsked(s, id) {
      StepKeepsAsked(s, step, id);
    }
  }

  lemma {:induction false} AskedFrom(states: seq<State>, id: nat, i: nat, j: nat)
    requires forall k: nat :: k + 1 < |states| ==> AskedAt(states, id, k)
    requires i <= j < |states| && CancelAsked(states[i], id)
    ensures CancelAsked(states[j], id)
    decreases j
  {
    if i < j {
      AskedFrom(states, id, i, j - 1);
      assert AskedAt(states, id, j - 1);
    }
  }

  /** In every run, a cancellation that was handed over waits in the inbox until it has run. */
  lemma CancellationIsKept(states: seq<State>, id: nat, i: nat, j: nat)
    requires IsRun(states) && i <= j < |states| && id in states[i].cancelTasks
    ensures id in states[j].cancelTasks || Cancelled(states[j], id)
  {
    forall k: nat | k + 1 < |states| ensures AskedAt(states, id, k) {
      NextKeepsAsked(states, id, k);
    }
    AskedFrom(states, id, i, j);
  }

  // ---------------------------------------------------------------------------------------------
  // Every timer gets its callback

  /** The log of r goes on from that of s with starts of callbacks alone, and nothing was asked for in between. */
  ghost predicate LogGoesOn(s: State, r: State) {
    && s.log <= r.log && r.issued == s.issued && s.clock <= r.clock
    && forall k :: |s.log| <= k < |r.log| ==> r.log[k].Started?
  }

  ghost predicate Good(s: State) {
    Inv(s) && History(s)
  }

  /** From s a run leads to r in which nothing is cancelled and nothing is asked for. */
  ghost predicate Goes(s: State, r: State) {
    Leads(s, r) && Good(r) && LogGoesOn(s, r)
  }

  lemma GoesNowhere(s: State)
    requires Good(s)
    ensures Goes(s, s)
  {
    LeadsNowhere(s);
  }

  predicate OfTheLoop(step: Step) {
    !step.LocalCancel? && !step.RunCancel? && !step.LocalAdd? && !step.RemoteAdd?
  }

  lemma GoesOn(s: State, m: State, step: Step)
    requires Goes(s, m) && Enabled(m, step) && OfTheLoop(step)
    ensures Goes(s, Apply(m, step))
  {
    LeadsOn(s, m, step);
    StepKeepsInv(m, step);
    StepKeepsHistory(m, step);
    QuietStepLogs(m, step);
    LogsChain(s, m, Apply(m, step));
  }

  lemma QuietStepLogs(s: State, step: Step)
    requires Inv(s) && Enabled(s, step) && OfTheLoop(step)
    ensures LogGoesOn(s, Apply(s, step))
  {
    if step.EndPass? {
      FinishLogs(s, step.now);
    }
  }

  lemma LogsChain(s: State, m: State, r: State)
    requires LogGoesOn(s, m) && LogGoesOn(m, r)
    ensures LogGoesOn(s, r)
  {
    forall k | |s.log| <= k < |r.log| ensures r.log[k].Started? {
      assert k < |m.log| ==> r.log[k] == m.log[k];
    }
  }

  lemma GoesThrough(s: State, m: State, r: State)
    requires Goes(s, m) && Goes(m, r)
    ensures Goes(s, r)
  {
    LeadsThrough(s, m, r);
    LogsChain(s, m, r);
  }

  lemma StillNotCancelled(s: State, r: State, id: nat)
    requires LogGoesOn(s, r) && !Cancelled(s, id)
    ensures !Cancelled(r, id)
  {
    forall k | 0 <= k < |r.log| ensures r.log[k] != CancelRan(id) {
      assert k < |s.log| ==> r.log[k] == s.log[k];
    }
  }

  /** What a pass still has to do. */
  function PassWork(p: Pass): nat
    requires p.index <= |p.expired|
  {
    2 * (|p.expired| - p.index) + if p.running then 0 else 1
  }

  /** The pass is at the entry with number k, whose turn has not come, or the present callback still runs. */
  ghost predicate Before(s: State, p: Pass, k: nat) {
    && s.pass.Some? && s.pass.value.expired == p.expired && s.pass.value.now == p.now
    && k <= |p.expired| && if s.pass.value.running then s.pass.value.index < k else s.pass.value.index <= k
  }

  lemma TurnStep(s: State, k: nat) returns (step: Step)
    requires Inv(s) && s.pass.Some? && Before(s, s.pass.value, k)
    requires s.pass.value.running || s.pass.value.index < k
    ensures (step.NextCallback? || step.EndCallback?) && Enabled(s, step)
    ensures var r := Apply(s, step);
            && Before(r, s.pass.value, k) && r.pass.value.index <= |r.pass.value.expired|
            && PassWork(r.pass.value) < PassWork(s.pass.value)
  {
    step := if s.pass.value.running then EndCallback else NextCallback;
  }

  lemma {:induction false} RunToTurn(s: State, k: nat) returns (r: State)
    requires Good(s) && s.pass.Some? && Before(s, s.pass.value, k)
    ensures Goes(s, r) && Before(r, s.pass.value, k) && !r.pass.value.running && r.pass.value.index == k
    decreases PassWork(s.pass.value)
  {
    if s.pass.value.running || s.pass.value.index < k {
      var step := TurnStep(s, k);
      GoesNowhere(s);
      GoesOn(s, s, step);
      r := RunToTurn(Apply(s, step), k);
      GoesThrough(s, Apply(s, step), r);
    } else {
      r := s;
      GoesNowhere(s);
    }
  }

  lemma FinishPass(s: State) returns (r: State)
    requires Good(s)
    ensures Goes(s, r) && r.pass.None?
  {
    if s.pass.None? {
      r := s;
      GoesNowhere(s);
    } else {
      var m := RunToTurn(s, |s.pass.value.expired|);
      r := Apply(m, EndPass(m.clock));
      GoesOn(s, m, EndPass(m.clock));
    }
  }

  /** The timer is owned and has not been cancelled. */
  ghost predicate Live(s: State, id: nat) {
    id in s.owned && !s.owned[id].canceled && !Cancelled(s, id)
  }

  lemma FetchFromInbox(s: State, id: nat) returns (r: State)
    requires Good(s) && s.pass.None? && !Cancelled(s, id) && (id in s.addTasks || id in s.owned)
    ensures Goes(s, r) && r.pass.None? && Live(r, id)
  {
    GoesNowhere(s);
    if id in s.owned {
      r := s;
    } else {
      r := Apply(s, RunAdd(id, s.clock));
      GoesOn(s, s, RunAdd(id, s.clock));
      StillNotCancelled(s, r, id);
    }
  }

  /** Outside a pass, a timer that is owned has an entry, and the timerfd fires for it. */
  lemma TimerfdWakes(s: State, id: nat) returns (r: State)
    requires Good(s) && s.pass.None? && Live(s, id)
    ensures Goes(s, r) && r.pass.None? && r.alarm.Fired? && Live(r, id) && r.timers == s.timers && r.owned == s.owned
  {
    assert (s.owned[id].expiration, id) in s.timers;
    GoesNowhere(s);
    if s.alarm.Fired? {
      r := s;
    } else {
      var now := Max(s.clock, s.alarm.at);
      r := Apply(s, Fire(now));
      GoesOn(s, s, Fire(now));
    }
  }

  /** The timer is one of those that the present pass has yet to come to. */
  ghost predicate InPass(s: State, id: nat, k: nat) {
    && s.pass.Some? && !s.pass.value.running && s.pass.value.index <= k < |s.pass.value.expired|
    && s.pass.value.expired[k].1 == id
  }

  lemma BeginTakes(s: State, id: nat, now: int) returns (k: nat)
    requires Inv(s) && s.pass.None? && s.clock <= now && id in s.owned && s.owned[id].expiration <= now
    ensures InPass(Begin(s, now), id, k)
  {
    var e := (s.owned[id].expiration, id);
    assert e in s.timers;
    BeginKeepsInv(s, now);
    var es := Begin(s, now).pass.value.expired;
    assert e in es;
    k :| 0 <= k < |es| && es[k] == e;
  }

  lemma PassBegins(s: State, id: nat) returns (r: State, k: nat)
    requires Good(s) && s.pass.None? && s.alarm.Fired? && Live(s, id)
    ensures InPass(r, id, k) && Goes(s, r)
  {
    var now := Max(s.clock, s.owned[id].expiration);
    k := BeginTakes(s, id, now);
    r := Apply(s, BeginPass(now));
    GoesNowhere(s);
    GoesOn(s, s, BeginPass(now));
  }

  /** It is the timer's turn in the present pass. */
  predicate AtTurn(s: State, id: nat) {
    Enabled(s, NextCallback) && s.pass.value.expired[s.pass.value.index].1 == id
  }

  /** A callback of the timer has started between s and r. */
  ghost predicate StartedSince(s: State, r: State, id: nat) {
    exists k :: |s.log| <= k < |r.log| && IsStart(r.log[k], id)
  }

  lemma TurnStarts(s: State, id: nat) returns (r: State)
    requires Good(s) && AtTurn(s, id) && !Cancelled(s, id)
    ensures Goes(s, r) && StartedSince(s, r, id)
  {
    r := Apply(s, NextCallback);
    assert s.pass.value.expired[s.pass.value.index] in s.pass.value.expired;
    GoesNowhere(s);
    GoesOn(s, s, NextCallback);
    assert IsStart(r.log[|s.log|], id);
  }

  lemma WakesAndBegins(s: State, id: nat) returns (r: State, k: nat)
    requires Good(s) && s.pass.None? && Live(s, id)
    ensures InPass(r, id, k) && Goes(s, r)
  {
    var fired := TimerfdWakes(s, id);
    r, k := PassBegins(fired, id);
    GoesThrough(s, fired, r);
  }

  lemma TurnIsReached(s: State, id: nat, k: nat) returns (r: State)
    requires Good(s) && InPass(s, id, k)
    ensures AtTurn(r, id) && Goes(s, r)
  {
    r := RunToTurn(s, k);
    ReachedIsTurn(r, s.pass.value, id, k);
  }

  lemma ReachedIsTurn(r: State, p: Pass, id: nat, k: nat)
    requires Before(r, p, k) && !r.pass.value.running && r.pass.value.index == k
    requires k < |p.expired| && p.expired[k].1 == id
    ensures AtTurn(r, id)
  {
  }

  lemma TurnComes(s: State, id: nat) returns (r: State)
    requires Good(s) && s.pass.None? && Live(s, id)
    ensures AtTurn(r, id) && Goes(s, r)
  {
    var begun, k := WakesAndBegins(s, id);
    r := TurnIsReached(begun, id, k);
    GoesThrough(s, begun, r);
  }

  lemma StartedAfter(s: State, m: State, r: State, id: nat)
    requires |s.log| <= |m.log| && StartedSince(m, r, id)
    ensures StartedSince(s, r, id)
  {
  }

  lemma PassGetsThere(s: State, id: nat) returns (r: State)
    requires Good(s) && s.pass.None? && Live(s, id)
    ensures Goes(s, r) && StartedSince(s, r, id)
  {
    var turn := TurnComes(s, id);
    StillNotCancelled(s, turn, id);
    r := TurnStarts(turn, id);
    GoesThrough(s, turn, r);
    StartedAfter(s, turn, r, id);
  }

  lemma StartedBefore(s: State, m: State, id: nat)
    requires s.log <= m.log && !StartedSince(s, m, id)
    ensures WasStarted(m, id) ==> WasStarted(s, id)
  {
    if WasStarted(m, id) {
      var k :| 0 <= k < |m.log| && m.log[k].Started? && m.log[k].id == id;
      assert IsStart(m.log[k], id);
      assert s.log[k] == m.log[k];
    }
  }

  /** A callback of the timer is to come. */
  ghost predicate Awaits(s: State, id: nat) {
    id in s.issued && !Cancelled(s, id) && !(OneShot(s, id) && WasStarted(s, id))
  }

  lemma StillAwaits(s: State, m: State, id: nat)
    requires Awaits(s, id) && LogGoesOn(s, m) && !StartedSince(s, m, id)
    ensures Awaits(m, id)
  {
    StillNotCancelled(s, m, id);
    StartedBefore(s, m, id);
  }

  /** The callback after the present pass, when that pass did not start it. */
  lemma NextPassGetsThere(s: State, id: nat) returns (r: State)
    requires Good(s) && s.pass.None? && Awaits(s, id)
    ensures Goes(s, r) && StartedSince(s, r, id)
  {
    var live := FetchFromInbox(s, id);
    r := PassGetsThere(live, id);
    GoesThrough(s, live, r);
    StartedAfter(s, live, r, id);
  }

  lemma CallbackComes(s: State, id: nat) returns (r: State)
    requires Good(s) && Awaits(s, id)
    ensures Goes(s, r) && StartedSince(s, r, id)
  {
    var m := FinishPass(s);
    if StartedSince(s, m, id) {
      r := m;
    } else {
      StillAwaits(s, m, id);
      r := NextPassGetsThere(m, id);
      GoesThrough(s, m, r);
      StartedAfter(s, m, r, id);
    }
  }

  /** From every reachable state a timer that has a callback to come gets it, by steps of the loop and the kernel
      alone: a one-shot that has not started, and a repeater always, until it is cancelled. */
  lemma TimerGetsItsCallback(s: State, id: nat) returns (r: State)
    requires Reachable(s) && id in s.issued && !Cancelled(s, id) && !(OneShot(s, id) && WasStarted(s, id))
    ensures Reachable(r) && Leads(s, r) && s.log <= r.log
    ensures exists k :: |s.log| <= k < |r.log| && IsStart(r.log[k], id)
  {
    ReachableIsGood(s);
    r := CallbackComes(s, id);
    LeadsThrough(INIT, s, r);
  }
}
