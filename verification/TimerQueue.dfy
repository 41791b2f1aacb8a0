/** TimerQueue as the event loop uses it: an object updated in place by methods with the loops of the source.
    Its members live in one record. Every method is a step, or a whole run, of the timer protocol of module
    Timers, so that the theorems about runs hold of the object after every sequence of calls. */
module TimerQueues {

  import opened Collections
  import opened Timers

  /** What a callback does while it runs: additions and cancellations, each with its clock reading. */
  datatype Operation =
    | Add(request: Request, reading: int)
    | Cancel(id: nat, reading: int)

  ghost predicate Numbered(q: State, numCreated: nat) {
    forall id: nat :: id in q.issued <==> 0 < id <= numCreated
  }

  lemma CancelKeepsIssued(q: State, id: nat, now: int)
    ensures CancelInLoop(q, id, now).issued == q.issued
  {
  }

  lemma AddIsStep(q: State, numCreated: nat, request: Request, now: int)
    requires Reachable(q) && Numbered(q, numCreated) && InUserCode(q) && q.clock <= now
    ensures var id := numCreated + 1; var step := LocalAdd(id, request, now);
            && Enabled(q, step) && Reachable(Apply(q, step)) && Numbered(Apply(q, step), id)
            && Apply(q, step) == AddInLoop(q.(issued := q.issued[id := request]), id, FreshTimer(request), now)
  {
    ReachableStep(q, LocalAdd(numCreated + 1, request, now));
  }

  // ---------------------------------------------------------------------------------------------
  // What the clean-up leaves behind

  /** A repeater that nothing has cancelled. */
  predicate GoesOn(s: State, id: nat) {
    id in s.owned && id !in s.canceling && !s.owned[id].canceled && s.owned[id].interval > 0
  }

  /** Of the timers with these ids exactly the repeaters that nothing has cancelled are still owned, and they are
      entered for one interval after the given time. Every other timer and entry stays. */
  ghost predicate CleanedUp(s: State, r: State, ids: set<nat>, now: int) {
    && (forall id :: id in ids ==> (id in r.owned <==> GoesOn(s, id)))
    && (forall id :: id in ids && GoesOn(s, id) ==>
          r.owned[id] == s.owned[id].(expiration := now + s.owned[id].interval))
    && (forall id :: id !in ids ==> (id in r.owned <==> id in s.owned))
    && (forall id :: id !in ids && id in s.owned ==> r.owned[id] == s.owned[id])
    && (forall e :: e in r.timers <==>
          e in s.timers || (e.1 in ids && GoesOn(s, e.1) && e.0 == now + s.owned[e.1].interval))
    && r == s.(owned := r.owned, timers := r.timers)
  }

  lemma {:induction false} InsertAdds(ts: seq<Entry>, e: Entry, x: Entry)
    ensures x in Insert(ts, e) <==> x in ts || x == e
    decreases |ts|
  {
    if ts != [] {
      InsertAdds(ts[1..], e, x);
      assert ts == [ts[0]] + ts[1..];
    }
  }

  lemma OneCleanedUp(s: State, e: Entry, now: int)
    ensures CleanedUp(s, CleanOne(s, e, now), {e.1}, now)
  {
    if GoesOn(s, e.1) {
      var entry := (now + s.owned[e.1].interval, e.1);
      forall x ensures x in CleanOne(s, e, now).timers <==> x in s.timers || x == entry {
        InsertAdds(s.timers, entry, x);
      }
    }
  }

  lemma CleanedUpAfter(s: State, m: State, r: State, a: set<nat>, b: set<nat>, now: int)
    requires CleanedUp(s, m, a, now) && CleanedUp(m, r, b, now) && a !! b
    ensures CleanedUp(s, r, a + b, now)
  {
    forall id | id in b ensures GoesOn(m, id) <==> GoesOn(s, id) {
      assert id !in a;
    }
  }

  lemma {:induction false} CleanUpEffect(s: State, es: seq<Entry>, now: int)
    requires forall i, j :: 0 <= i < j < |es| ==> es[i].1 != es[j].1
    ensures CleanedUp(s, CleanUp(s, es, now), Ids(es), now)
    decreases |es|
  {
    if es != [] {
      OneCleanedUp(s, es[0], now);
      CleanUpEffect(CleanOne(s, es[0], now), es[1..], now);
      assert Ids(es) == {es[0].1} + Ids(es[1..]) by {
        assert es == [es[0]] + es[1..];
      }
      CleanedUpAfter(s, CleanOne(s, es[0], now), CleanUp(s, es, now), {es[0].1}, Ids(es[1..]), now);
    }
  }

  class TimerQueue {
    var q: State
    var numCreated: nat

    /** The state is one of the protocol's runs, so its theorems hold of it; the sequence numbers handed out are
        1..numCreated. */
    ghost predicate Valid()
      reads this
    {
      Reachable(q) && Numbered(q, numCreated)
    }

    constructor ()
      ensures Valid() && q == INIT
    {
      q, numCreated := INIT, 0;
      LeadsNowhere(INIT);
    }

    /** steady_clock::now() never runs backwards. */
    method Now(reading: int) returns (now: int)
      ensures now == Max(q.clock, reading)
    {
      now := if q.clock < reading then reading else q.clock;
    }

    static method ResetTimerfd(next: int, now: int) returns (armed: Alarm)
      ensures armed == Reset(next, now)
    {
      var delta := next - now;
      if delta < MILLISECOND {
        delta := MILLISECOND;
      }
      armed := Armed(now + delta, now);
    }

    method AddTimerInLoop(id: nat, timer: Timer, now: int)
      modifies this`q
      ensures q == AddInLoop(old(q), id, timer, now)
    {
      q := q.(pendingAdd := q.pendingAdd - {id}, addTasks := q.addTasks - {id}, clock := now);
      if id in q.pendingCancel {
        q := q.(pendingCancel := q.pendingCancel - {id});
        return;
      }
      var earliestChanged := q.timers == [] || timer.expiration < q.timers[0].0;
      q := q.(timers := Insert(q.timers, (timer.expiration, id)), owned := q.owned[id := timer]);
      if earliestChanged {
        var armed := ResetTimerfd(timer.expiration, now);
        q := q.(alarm := armed);
      }
    }

    method CancelTimerInLoop(id: nat, now: int)
      modifies this`q
      ensures q == CancelInLoop(old(q), id, now)
    {
      q := q.(clock := now, log := q.log + [CancelRan(id)]);
      if id in q.owned {
        if q.calling && id in q.active {
          q := q.(owned := q.owned[id := q.owned[id].(canceled := true)], canceling := q.canceling + {id});
        } else {
          var wasEarliest := q.timers != [] && q.timers[0].1 == id;
          q := q.(timers := Erase(q.timers, (q.owned[id].expiration, id)), owned := q.owned - {id});
          if wasEarliest {
            var armed := Disarmed;
            if q.timers != [] {
              armed := ResetTimerfd(q.timers[0].0, now);
            }
            q := q.(alarm := armed);
          }
        }
      } else if id in q.pendingAdd {
        q := q.(pendingCancel := q.pendingCancel + {id});
      }
    }

    /** addTimer called in the loop thread. */
    method AddTimer(request: Request, reading: int) returns (id: nat)
      requires Valid() && InUserCode(q)
      modifies this
      ensures Valid() && id == numCreated == old(numCreated) + 1
      ensures Enabled(old(q), LocalAdd(id, request, Max(old(q).clock, reading)))
      ensures q == Apply(old(q), LocalAdd(id, request, Max(old(q).clock, reading)))
    {
      var now := Now(reading);
      id := numCreated + 1;
      AddIsStep(q, numCreated, request, now);
      numCreated := id;
      q := q.(issued := q.issued[id := request]);
      AddTimerInLoop(id, FreshTimer(request), now);
    }

    /** addTimer called in another thread: the addition is announced and handed over. */
    method AddTimerFromOutside(request: Request) returns (id: nat)
      requires Valid()
      modifies this
      ensures Valid() && id == numCreated == old(numCreated) + 1
      ensures Enabled(old(q), RemoteAdd(id, request)) && q == Apply(old(q), RemoteAdd(id, request))
    {
      id := numCreated + 1;
      ReachableStep(q, RemoteAdd(id, request));
      numCreated := id;
      q := q.(issued := q.issued[id := request], pendingAdd := q.pendingAdd + {id},
      addTasks := q.addTasks[id := FreshTimer(request)]);
    }

    /** cancel called in the loop thread with an id that addTimer of this loop returned; any other is ignored. */
    method CancelTimer(id: nat, reading: int)
      requires Valid() && InUserCode(q)
      modifies this`q
      ensures Valid()
      ensures if 0 < id <= numCreated then
                && Enabled(old(q), LocalCancel(id, Max(old(q).clock, reading)))
                && q == Apply(old(q), LocalCancel(id, Max(old(q).clock, reading)))
              else
                q == old(q)
    {
      if 0 < id <= numCreated {
        var now := Now(reading);
        ReachableStep(q, LocalCancel(id, now));
        CancelTimerInLoop(id, now);
      }
    }

    /** cancel called in another thread: the cancellation is handed over. */
    method CancelTimerFromOutside(id: nat)
      requires Valid()
      modifies this`q
      ensures Valid()
      ensures if 0 < id <= numCreated then
                Enabled(old(q), RemoteCancel(id)) && q == Apply(old(q), RemoteCancel(id))
              else
                q == old(q)
    {
      if 0 < id <= numCreated {
        ReachableStep(q, RemoteCancel(id));
        q := q.(cancelTasks := q.cancelTasks + multiset{id});
      }
    }

    /** The loop runs an addition that was handed over. */
    method RunAddTask(id: nat, reading: int)
      requires Valid() && q.pass.None? && id in q.addTasks
      modifies this`q
      ensures var now := Max(old(q).clock, reading);
              Valid() && Enabled(old(q), RunAdd(id, now)) && q == Apply(old(q), RunAdd(id, now))
    {
      var now := Now(reading);
      ReachableStep(q, RunAdd(id, now));
      AddTimerInLoop(id, q.addTasks[id], now);
    }

    /** The loop runs a cancellation that was handed over. */
    method RunCancelTask(id: nat, reading: int)
      requires Valid() && q.pass.None? && id in q.cancelTasks
      modifies this`q
      ensures var now := Max(old(q).clock, reading);
              Valid() && Enabled(old(q), RunCancel(id, now)) && q == Apply(old(q), RunCancel(id, now))
    {
      var now := Now(reading);
      ReachableStep(q, RunCancel(id, now));
      q := q.(cancelTasks := q.cancelTasks - multiset{id});
      CancelKeepsIssued(q, id, now);
      CancelTimerInLoop(id, now);
    }

    /** The kernel: the timerfd becomes readable once its time has come. */
    method TimerfdFires(reading: int)
      requires Valid() && q.alarm.Armed? && q.alarm.at <= Max(q.clock, reading)
      modifies this`q
      ensures var now := Max(old(q).clock, reading);
              Valid() && Enabled(old(q), Fire(now)) && q == Apply(old(q), Fire(now))
    {
      var now := Now(reading);
      ReachableStep(q, Fire(now));
      q := q.(alarm := Fired, clock := now);
    }

    /** getExpired: cuts the due entries off the front. */
    method GetExpired(now: int) returns (expired: seq<Entry>)
      modifies this`q
      ensures var n := ExpiredCount(old(q).timers, now);
              expired == old(q).timers[..n] && q == old(q).(timers := old(q).timers[n..])
    {
      var n := 0;
      while n < |q.timers| && q.timers[n].0 <= now
        invariant n <= |q.timers| && ExpiredCount(q.timers, now) == n + ExpiredCount(q.timers[n..], now)
        invariant q == old(q)
      {
        n := n + 1;
      }
      expired := q.timers[..n];
      q := q.(timers := q.timers[n..]);
    }

    /** The callback of one timer, operation by operation. */
    method RunCallback(script: seq<Operation>)
      requires Valid() && q.pass.Some? && q.pass.value.running
      modifies this
      ensures Valid() && q.pass == old(q).pass && Leads(old(q), q)
    {
      LeadsNowhere(q);
      for k := 0 to |script|
        invariant Valid() && q.pass == old(q).pass && Leads(old(q), q)
      {
        ghost var before := q;
        match script[k] {
          case Add(request, reading) =>
            var id := AddTimer(request, reading);
            LeadsOn(old(q), before, LocalAdd(id, request, Max(before.clock, reading)));
          case Cancel(id, reading) =>
            CancelTimer(id, reading);
            if 0 < id <= numCreated {
              LeadsOn(old(q), before, LocalCancel(id, Max(before.clock, reading)));
            }
        }
      }
    }

    /** handleRead after a successful read of the timerfd. `script(id)` is what the callback of timer id does
        if it is started in this pass. The pass is a run of the protocol that begins with BeginPass and ends
        outside a pass. */
    method HandleRead(reading: int, script: nat -> seq<Operation>, lastReading: int)
      requires Valid() && q.pass.None? && q.alarm.Fired?
      modifies this
      ensures Valid() && q.pass.None?
      ensures Leads(Begin(old(q), Max(old(q).clock, reading)), q) && Leads(old(q), q)
    {
      var now := Now(reading);
      LeadsNowhere(q);
      LeadsOn(q, q, BeginPass(now));
      ReachableStep(q, BeginPass(now));
      var expired := BeginHandleRead(now);
      ghost var begun := q;
      ServeEntries(expired, now, script);
      ghost var served := q;
      EndHandleRead(expired, now, lastReading);
      LeadsOn(begun, served, EndPass(Max(served.clock, lastReading)));
      ReachableStep(served, EndPass(Max(served.clock, lastReading)));
      LeadsThrough(old(q), begun, q);
    }

    /** The callback loop. */
    method ServeEntries(expired: seq<Entry>, now: int, script: nat -> seq<Operation>)
      requires Valid() && q.pass == Some(Pass(now, expired, 0, false))
      modifies this
      ensures Valid() && q.pass == Some(Pass(now, expired, |expired|, false)) && Leads(old(q), q)
    {
      LeadsNowhere(q);
      for k := 0 to |expired|
        invariant Valid() && q.pass == Some(Pass(now, expired, k, false)) && Leads(old(q), q)
      {
        ghost var before := q;
        ServeEntry(expired[k], script(expired[k].1));
        LeadsThrough(old(q), before, q);
      }
    }

    /** The first part: take the due entries and mark the pass as running. */
    method BeginHandleRead(now: int) returns (expired: seq<Entry>)
      modifies this`q
      ensures q == Begin(old(q), now) && expired == q.pass.value.expired
    {
      expired := GetExpired(now);
      var marked := q.active;
      for k := 0 to |expired|
        invariant marked == q.active + Ids(expired[..k])
      {
        assert expired[..k + 1] == expired[..k] + [expired[k]];
        marked := marked + {expired[k].1};
      }
      assert expired[..|expired|] == expired;
      q := q.(active := marked, calling := true, canceling := {}, alarm := Disarmed, clock := now,
      pass := Some(Pass(now, expired, 0, false)), passes := q.passes + 1);
    }

    /** One turn of the callback loop. */
    method ServeEntry(e: Entry, script: seq<Operation>)
      requires Valid() && Enabled(q, NextCallback) && e == q.pass.value.expired[q.pass.value.index]
      modifies this
      ensures Valid() && Leads(old(q), q)
      ensures q.pass == Some(old(q).pass.value.(index := old(q).pass.value.index + 1))
    {
      LeadsNowhere(q);
      LeadsOn(q, q, NextCallback);
      ReachableStep(q, NextCallback);
      var p := q.pass.value;
      if e.1 in q.owned && !q.owned[e.1].canceled {
        q := q.(pass := Some(p.(running := true)), log := q.log + [Started(e.1, e.0, p.now, q.passes)]);
        FinishEntry(p, script, old(q));
      } else {
        q := q.(pass := Some(p.(index := p.index + 1)));
      }
    }

    /** The callback that was just started, and the step past it. */
    method FinishEntry(p: Pass, script: seq<Operation>, ghost start: State)
      requires Valid() && q.pass == Some(p.(running := true)) && Leads(start, q)
      modifies this
      ensures Valid() && Leads(start, q) && q.pass == Some(p.(index := p.index + 1, running := false))
    {
      RunCallback(script);
      LeadsThrough(start, old(q), q);
      LeadsOn(start, q, EndCallback);
      ReachableStep(q, EndCallback);
      q := q.(pass := Some(p.(index := p.index + 1, running := false)));
    }

    /** The clean-up loop: restart or destroy the timers of the pass. */
    method CleanUpExpired(expired: seq<Entry>, now: int)
      modifies this`q
      ensures q == CleanUp(old(q), expired, now)
      ensures (forall i, j :: 0 <= i < j < |expired| ==> expired[i].1 != expired[j].1) ==>
                CleanedUp(old(q), q, Ids(expired), now)
    {
      ghost var was := q;
      if forall i, j :: 0 <= i < j < |expired| ==> expired[i].1 != expired[j].1 {
        CleanUpEffect(was, expired, now);
      }
      for k := 0 to |expired|
        invariant CleanUp(q, expired[k..], now) == CleanUp(old(q), expired, now)
      {
        var e := expired[k];
        assert expired[k..][0] == e && expired[k..][1..] == expired[k + 1..];
        if e.1 in q.canceling {
          q := q.(owned := q.owned - {e.1});
        } else if e.1 in q.owned {
          if q.owned[e.1].canceled {
            q := q.(owned := q.owned - {e.1});
          } else if q.owned[e.1].Repeat() {
            var restarted := q.owned[e.1].Restarted(now);
            q := q.(owned := q.owned[e.1 := restarted], timers := Insert(q.timers, (restarted.expiration, e.1)));
          } else {
            q := q.(owned := q.owned - {e.1});
          }
        }
      }
    }

    /** The last part: clean up and program the timerfd. */
    method EndHandleRead(expired: seq<Entry>, now: int, lastReading: int)
      requires q.pass == Some(Pass(now, expired, |expired|, false))
      modifies this`q
      ensures q == Finish(old(q), Max(old(q).clock, lastReading))
    {
      var last := Now(lastReading);
      q := q.(calling := false);
      CleanUpExpired(expired, now);
      var armed := Disarmed;
      if q.timers != [] {
        armed := ResetTimerfd(q.timers[0].0, last);
      }
      q := q.(alarm := armed, active := {}, canceling := {}, pass := None, clock := last);
    }
  }
}
