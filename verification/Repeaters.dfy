/** What a repeating timer of module Timers can count on, in every run: its first callback is for the time it asked for,
    each further one for the interval after the one before it, and until it is cancelled it is waiting for the next. */
module Repeaters {

  import opened Collections
  import opened Timers

  predicate IsStart(e: Event, id: nat) {
    e.Started? && e.id == id
  }

  /** No callback of the timer starts among events i..j. */
  predicate NoStart(log: seq<Event>, id: nat, i: nat, j: nat)
    requires i <= j <= |log|
  {
    forall k :: i <= k < j ==> !IsStart(log[k], id)
  }

  /** What the next callback is due at: the time asked for, or the interval after the last one started. */
  function NextDue(log: seq<Event>, id: nat, r: Request): int {
    if log == [] then r.when
    else
      var last := log[|log| - 1];
      if IsStart(last, id) then last.at + r.interval else NextDue(log[..|log| - 1], id, r)
  }

  lemma NextDueAppends(log: seq<Event>, e: Event, id: nat, r: Request)
    ensures NextDue(log + [e], id, r) == if IsStart(e, id) then e.at + r.interval else NextDue(log, id, r)
  {
    assert (log + [e])[..|log|] == log;
  }

  lemma {:induction false} NextDueBetween(log: seq<Event>, id: nat, r: Request, i: nat, j: nat)
    requires i <= j <= |log| && NoStart(log, id, i, j)
    ensures NextDue(log[..j], id, r) == NextDue(log[..i], id, r)
    decreases j
  {
    if i < j {
      NextDueBetween(log, id, r, i, j - 1);
      assert log[..j][..j - 1] == log[..j - 1];
    }
  }

  /** Read off the log: before the first start it is the time asked for, after a start it is that start and the
      interval. */
  lemma NextDueIs(log: seq<Event>, id: nat, r: Request, j: nat)
    requires j <= |log|
    ensures NoStart(log, id, 0, j) ==> NextDue(log[..j], id, r) == r.when
    ensures forall i: nat :: i < j && IsStart(log[i], id) && NoStart(log, id, i + 1, j) ==>
              NextDue(log[..j], id, r) == log[i].at + r.interval
  {
    if NoStart(log, id, 0, j) {
      NextDueBetween(log, id, r, 0, j);
      assert log[..0] == [];
    }
    forall i: nat | i < j && IsStart(log[i], id) && NoStart(log, id, i + 1, j)
      ensures NextDue(log[..j], id, r) == log[i].at + r.interval
    {
      NextDueBetween(log, id, r, i + 1, j);
      assert log[..i + 1] == log[..i] + [log[i]];
      NextDueAppends(log[..i], log[i], id, r);
    }
  }

  // ---------------------------------------------------------------------------------------------
  // What every step keeps

  /** The timers that have had their turn in the present pass. */
  function Served(s: State): set<nat> {
    if s.pass.None? || Done(s.pass.value) > |s.pass.value.expired| then {}
    else Ids(s.pass.value.expired[..Done(s.pass.value)])
  }

  ghost predicate DueOk(s: State, id: nat) {
    id in s.owned && !s.owned[id].canceled && id in s.issued ==>
      if id in Served(s) then NextDue(s.log, id, s.issued[id]) == s.pass.value.now + s.issued[id].interval
      else s.owned[id].expiration == NextDue(s.log, id, s.issued[id])
  }

  ghost predicate StartOk(s: State, k: nat)
    requires k < |s.log|
  {
    var e := s.log[k];
    e.Started? && e.id in s.issued ==> e.due == NextDue(s.log[..k], e.id, s.issued[e.id])
  }

  ghost predicate PeriodOk(s: State) {
    && (forall id: nat :: DueOk(s, id))
    && (forall k: nat :: k < |s.log| ==> StartOk(s, k))
  }

  lemma NeverStartedIsFresh(s: State, id: nat, r: Request)
    requires forall k :: 0 <= k < |s.log| ==> !IsStart(s.log[k], id)
    ensures NextDue(s.log, id, r) == r.when
  {
    NextDueIs(s.log, id, r, |s.log|);
    assert s.log[..|s.log|] == s.log;
  }

  /** Steps that neither start a callback nor take a turn of the pass; what they add to the queue is fresh. */
  lemma QuietKeepsPeriod(s: State, r: State)
    requires PeriodOk(s) && r.log == s.log && Served(r) == Served(s)
    requires r.pass.Some? && Served(r) != {} ==> s.pass.Some? && r.pass.value.now == s.pass.value.now
    requires forall id :: id in s.issued ==> id in r.issued && r.issued[id] == s.issued[id]
    requires forall k :: 0 <= k < |s.log| && s.log[k].Started? ==> s.log[k].id in s.issued
    requires forall id :: id in r.owned && id in s.owned ==>
               r.owned[id].expiration == s.owned[id].expiration && (s.owned[id].canceled ==> r.owned[id].canceled)
    requires forall id :: id in r.owned ==> id in r.issued && (id in s.owned ==> id in s.issued)
    requires forall id :: id in r.owned && id !in s.owned ==>
               && id !in Served(s) && r.owned[id].expiration == r.issued[id].when
               && forall k :: 0 <= k < |s.log| ==> !IsStart(s.log[k], id)
    ensures PeriodOk(r)
  {
    forall id: nat ensures DueOk(r, id) {
      assert DueOk(s, id);
      if id in r.owned && id !in s.owned {
        NeverStartedIsFresh(s, id, r.issued[id]);
      }
    }
    forall k: nat | k < |r.log| ensures StartOk(r, k) {
      assert StartOk(s, k);
    }
  }

  /** Steps after which the queue owns no timer that it did not own before. */
  lemma FewerKeepPeriod(s: State, r: State)
    requires PeriodOk(s) && r.log == s.log && r.issued == s.issued && Served(r) == Served(s)
    requires Served(s) != {} ==> r.pass.Some? && s.pass.Some? && r.pass.value.now == s.pass.value.now
    requires forall id :: id in r.owned ==>
               && id in s.owned && r.owned[id].expiration == s.owned[id].expiration
               && (s.owned[id].canceled ==> r.owned[id].canceled)
    ensures PeriodOk(r)
  {
    forall id: nat ensures DueOk(r, id) {
      assert DueOk(s, id);
    }
    forall k: nat | k < |r.log| ensures StartOk(r, k) {
      assert StartOk(s, k);
    }
  }

  lemma LoggedCancelKeepsPeriod(s: State, id: nat)
    requires PeriodOk(s)
    ensures PeriodOk(s.(log := s.log + [CancelRan(id)]))
  {
    var r := s.(log := s.log + [CancelRan(id)]);
    forall x: nat ensures DueOk(r, x) {
      assert DueOk(s, x);
      if x in s.issued {
        NextDueAppends(s.log, CancelRan(id), x, s.issued[x]);
      }
    }
    forall k: nat | k < |r.log| ensures StartOk(r, k) {
      if k < |s.log| {
        assert StartOk(s, k) && r.log[..k] == s.log[..k];
      }
    }
  }

  lemma CancelKeepsPeriod(s: State, id: nat, now: int)
    requires PeriodOk(s)
    ensures PeriodOk(CancelInLoop(s, id, now))
  {
    LoggedCancelKeepsPeriod(s, id);
    FewerKeepPeriod(s.(log := s.log + [CancelRan(id)]), CancelInLoop(s, id, now));
  }

  lemma AddKeepsPeriod(s: State, id: nat, now: int)
    requires PeriodOk(s) && NeverEarly(s) && id in s.issued && id !in s.owned && id !in Served(s)
    requires s.owned.Keys <= s.issued.Keys
    requires forall k :: 0 <= k < |s.log| ==> !IsStart(s.log[k], id)
    ensures PeriodOk(AddInLoop(s, id, FreshTimer(s.issued[id]), now))
  {
    QuietKeepsPeriod(s, AddInLoop(s, id, FreshTimer(s.issued[id]), now));
  }

  lemma ServedIsOwned(s: State)
    requires PassOk(s)
    ensures Served(s) <= s.owned.Keys
  {
    if s.pass.Some? {
      var p := s.pass.value;
      assert forall e :: e in p.expired[..Done(p)] ==> e in p.expired;
    }
  }

  lemma RunAddKeepsPeriod(s: State, id: nat, now: int)
    requires PeriodOk(s) && Inv(s) && History(s) && Enabled(s, RunAdd(id, now))
    ensures PeriodOk(Apply(s, RunAdd(id, now)))
  {
    AddKeepsPeriod(s, id, now);
  }

  lemma IssueKeepsPeriod(s: State, id: nat, r: Request)
    requires PeriodOk(s) && NeverEarly(s) && id !in s.issued && s.owned.Keys <= s.issued.Keys
    ensures var m := s.(issued := s.issued[id := r]); PeriodOk(m) && NeverEarly(m)
  {
    QuietKeepsPeriod(s, s.(issued := s.issued[id := r]));
  }

  lemma LocalAddKeepsPeriod(s: State, id: nat, r: Request, now: int)
    requires PeriodOk(s) && Inv(s) && History(s) && Enabled(s, LocalAdd(id, r, now))
    ensures PeriodOk(Apply(s, LocalAdd(id, r, now)))
  {
    var m := s.(issued := s.issued[id := r]);
    IssueKeepsPeriod(s, id, r);
    ServedIsOwned(s);
    AddKeepsPeriod(m, id, now);
  }

  lemma RemoteAddKeepsPeriod(s: State, id: nat, r: Request)
    requires PeriodOk(s) && Inv(s) && History(s) && Enabled(s, RemoteAdd(id, r))
    ensures PeriodOk(Apply(s, RemoteAdd(id, r)))
  {
    QuietKeepsPeriod(s, Apply(s, RemoteAdd(id, r)));
  }

  lemma PassStepKeepsPeriod(s: State, step: Step)
    requires PeriodOk(s) && Enabled(s, step)
    requires step.BeginPass? || step.EndCallback? || step.RemoteCancel? || step.Fire?
    ensures PeriodOk(Apply(s, step))
  {
    if step.BeginPass? {
      assert Served(Apply(s, step)) == {} == Served(s);
    }
    FewerKeepPeriod(s, Apply(s, step));
  }

  /** The entry whose turn it is joins those that have had theirs. */
  lemma NextIsServed(s: State)
    requires Inv(s) && Enabled(s, NextCallback)
    ensures var p := s.pass.value; var e := p.expired[p.index];
            && e.1 !in Served(s) && Served(StartCallback(s)) == Served(s) + {e.1}
            && e.1 in s.owned && s.owned[e.1].expiration == e.0 && e.1 in s.issued
  {
    var p := s.pass.value;
    var e := p.expired[p.index];
    assert e in p.expired;
    assert p.expired[..p.index + 1] == p.expired[..p.index] + [e];
    forall x | x in p.expired[..p.index] ensures x.1 != e.1 {
      assert x in p.expired;
    }
  }

  lemma SkipKeepsPeriod(s: State)
    requires PeriodOk(s) && Inv(s) && Enabled(s, NextCallback)
    requires var p := s.pass.value; var id := p.expired[p.index].1; id in s.owned ==> s.owned[id].canceled
    ensures PeriodOk(StartCallback(s))
  {
    NextIsServed(s);
    var r := StartCallback(s);
    forall id: nat ensures DueOk(r, id) {
      assert DueOk(s, id);
    }
    forall k: nat | k < |r.log| ensures StartOk(r, k) {
      assert StartOk(s, k);
    }
  }

  lemma StartKeepsPeriod(s: State)
    requires PeriodOk(s) && Inv(s) && Enabled(s, NextCallback)
    requires var p := s.pass.value; var id := p.expired[p.index].1; id in s.owned && !s.owned[id].canceled
    ensures PeriodOk(StartCallback(s))
  {
    NextIsServed(s);
    var r, p := StartCallback(s), s.pass.value;
    var e := p.expired[p.index];
    var start := Started(e.1, e.0, p.now, s.passes);
    forall id: nat ensures DueOk(r, id) {
      assert DueOk(s, id);
      if id in s.issued {
        NextDueAppends(s.log, start, id, s.issued[id]);
      }
    }
    forall k: nat | k < |r.log| ensures StartOk(r, k) {
      if k < |s.log| {
        assert StartOk(s, k) && r.log[..k] == s.log[..k];
      } else {
        assert DueOk(s, e.1) && r.log[..k] == s.log;
      }
    }
  }

  // The clean-up at the end of a pass

  /** `c` has restarted those of `ids` that it kept, for one interval after `now`, and left the others alone. */
  ghost predicate RestartedFor(s: State, c: State, ids: set<nat>, now: int) {
    forall id :: id in c.owned ==>
      && id in s.owned && c.owned[id].interval == s.owned[id].interval
      && c.owned[id].expiration == if id in ids then now + s.owned[id].interval else s.owned[id].expiration
  }

  lemma CleanOneRestarts(s: State, e: Entry, now: int)
    ensures RestartedFor(s, CleanOne(s, e, now), {e.1}, now)
  {
  }

  lemma RestartedAfter(s: State, m: State, c: State, ids: set<nat>, more: set<nat>, now: int)
    requires RestartedFor(s, m, ids, now) && RestartedFor(m, c, more, now)
    ensures RestartedFor(s, c, ids + more, now)
  {
  }

  lemma {:induction false} CleanUpRestarts(s: State, es: seq<Entry>, now: int)
    ensures RestartedFor(s, CleanUp(s, es, now), Ids(es), now)
    decreases |es|
  {
    if es == [] {
      assert Ids(es) == {};
    } else {
      var m := CleanOne(s, es[0], now);
      CleanOneRestarts(s, es[0], now);
      CleanUpRestarts(m, es[1..], now);
      RestartedAfter(s, m, CleanUp(s, es, now), {es[0].1}, Ids(es[1..]), now);
      assert es == [es[0]] + es[1..];
      assert {es[0].1} + Ids(es[1..]) == Ids(es);
    }
  }

  lemma FinishKeepsPeriod(s: State, now: int)
    requires PeriodOk(s) && Inv(s) && Enabled(s, EndPass(now))
    ensures PeriodOk(Finish(s, now))
  {
    var p := s.pass.value;
    CleaningBegins(s);
    CleanUpKeepsRepeaters(s.(calling := false), p.expired, p.now);
    CleanUpRestarts(s.(calling := false), p.expired, p.now);
    assert p.expired[..|p.expired|] == p.expired;
    FinishedKeepsPeriod(s, Finish(s, now));
  }

  lemma FinishedKeepsPeriod(s: State, r: State)
    requires PeriodOk(s) && s.pass.Some? && r.pass.None? && r.log == s.log && r.issued == s.issued
    requires forall id :: id in s.owned ==> id in s.issued && s.owned[id].interval == s.issued[id].interval
    requires Served(s) == Ids(s.pass.value.expired) && KeptRepeaters(s, r, Ids(s.pass.value.expired))
    requires RestartedFor(s, r, Ids(s.pass.value.expired), s.pass.value.now)
    ensures PeriodOk(r)
  {
    forall id: nat ensures DueOk(r, id) {
      assert DueOk(s, id);
    }
    forall k: nat | k < |r.log| ensures StartOk(r, k) {
      assert StartOk(s, k);
    }
  }

  lemma StepKeepsPeriod(s: State, step: Step)
    requires PeriodOk(s) && Inv(s) && History(s) && Enabled(s, step)
    ensures PeriodOk(Apply(s, step))
  {
    match step
    case LocalAdd(id, r, now) => LocalAddKeepsPeriod(s, id, r, now);
    case RunAdd(id, now) => RunAddKeepsPeriod(s, id, now);
    case RemoteAdd(id, r) => RemoteAddKeepsPeriod(s, id, r);
    case LocalCancel(id, now) => CancelKeepsPeriod(s, id, now);
    case RunCancel(id, now) => RunCancelKeepsPeriod(s, id, now);
    case NextCallback => NextCallbackKeepsPeriod(s);
    case EndPass(now) => FinishKeepsPeriod(s, now);
    case _ => PassStepKeepsPeriod(s, step);
  }

  lemma RunCancelKeepsPeriod(s: State, id: nat, now: int)
    requires PeriodOk(s) && Enabled(s, RunCancel(id, now))
    ensures PeriodOk(Apply(s, RunCancel(id, now)))
  {
    var m := s.(cancelTasks := s.cancelTasks - multiset{id});
    FewerKeepPeriod(s, m);
    CancelKeepsPeriod(m, id, now);
  }

  lemma NextCallbackKeepsPeriod(s: State)
    requires PeriodOk(s) && Inv(s) && Enabled(s, NextCallback)
    ensures PeriodOk(StartCallback(s))
  {
    var id := s.pass.value.expired[s.pass.value.index].1;
    if id in s.owned && !s.owned[id].canceled {
      StartKeepsPeriod(s);
    } else {
      SkipKeepsPeriod(s);
    }
  }

  lemma {:induction false} RunKeepsPeriod(states: seq<State>, n: nat)
    requires IsRun(states) && Inv(states[0]) && History(states[0]) && PeriodOk(states[0]) && n < |states|
    ensures Inv(states[n]) && History(states[n]) && PeriodOk(states[n])
  {
    if n > 0 {
      RunKeepsPeriod(states, n - 1);
      NextKeepsPeriod(states[n - 1], states[n]);
    }
  }

  lemma NextKeepsPeriod(s: State, r: State)
    requires Inv(s) && History(s) && PeriodOk(s) && Next(s, r)
    ensures Inv(r) && History(r) && PeriodOk(r)
  {
    var step :| Enabled(s, step) && Apply(s, step) == r;
    StepKeepsInv(s, step);
    StepKeepsHistory(s, step);
    StepKeepsPeriod(s, step);
  }

  // ---------------------------------------------------------------------------------------------
  // Theorems about every run

  lemma ReachableKeepsPeriod(s: State)
    requires Reachable(s)
    ensures Inv(s) && History(s) && PeriodOk(s)
  {
    var states :| IsRun(states) && states[0] == INIT && states[|states| - 1] == s;
    LeadsNowhere(INIT);
    ReachableIsGood(INIT);
    RunKeepsPeriod(states, |states| - 1);
  }

  /** The first callback of a timer is for the time it asked for. Of two callbacks with none between them the second is
      due one interval after the moment the first one started. */
  lemma StartsFollowThePeriod(s: State, j: nat)
    requires Reachable(s) && j < |s.log| && s.log[j].Started?
    ensures var id, due := s.log[j].id, s.log[j].due;
            && id in s.issued
            && (NoStart(s.log, id, 0, j) ==> due == s.issued[id].when)
            && (forall i: nat :: i < j && IsStart(s.log[i], id) && NoStart(s.log, id, i + 1, j) ==>
                  due == s.log[i].at + s.issued[id].interval)
  {
    ReachableKeepsPeriod(s);
    assert StartOk(s, j);
    NextDueIs(s.log, s.log[j].id, s.issued[s.log[j].id], j);
  }

  /** A repeater that was not cancelled is always on its way to the next callback, which is due at the time asked for
      if there was none, and otherwise one interval after the last one started: it waits in the inbox, it is owned and
      entered under that time, or it was started in the present pass, at whose end it is entered. */
  lemma RepeaterIsWaiting(s: State, id: nat, due: int)
    requires Reachable(s) && id in s.issued && s.issued[id].interval > 0 && !Cancelled(s, id)
    requires if NoStart(s.log, id, 0, |s.log|) then due == s.issued[id].when
             else exists i: nat :: i < |s.log| && IsStart(s.log[i], id) && NoStart(s.log, id, i + 1, |s.log|)
                                   && due == s.log[i].at + s.issued[id].interval
    ensures || (id in s.addTasks && s.addTasks[id].expiration == due)
            || (id in s.owned && s.owned[id].expiration == due)
            || (id in s.owned && id in Served(s) && due == s.pass.value.now + s.issued[id].interval)
    ensures id in s.owned && id !in s.active ==> (due, id) in s.timers
  {
    ReachableKeepsPeriod(s);
    NextDueIs(s.log, id, s.issued[id], |s.log|);
    assert s.log[..|s.log|] == s.log;
    assert DueOk(s, id);
    ServedIsActive(s);
  }

  lemma ServedIsActive(s: State)
    requires PassOk(s)
    ensures Served(s) <= s.active
  {
    if s.pass.Some? {
      var p := s.pass.value;
      assert forall e :: e in p.expired[..Done(p)] ==> e in p.expired;
    }
  }

  lemma FinishEnters(s: State, id: nat, now: int)
    requires Inv(s) && Enabled(s, EndPass(now)) && id in s.owned && id in s.active
    requires !s.owned[id].canceled && s.owned[id].Repeat()
    ensures var r := Finish(s, now);
            id in r.owned && r.owned[id].expiration == s.pass.value.now + s.owned[id].interval
  {
    var p := s.pass.value;
    CleaningBegins(s);
    CleanUpKeepsRepeaters(s.(calling := false), p.expired, p.now);
    CleanUpRestarts(s.(calling := false), p.expired, p.now);
  }

  /** At the end of the pass a repeater that was started in it is entered for its next callback. */
  lemma ServedRepeaterIsEntered(s: State, id: nat, now: int)
    requires Reachable(s) && Enabled(s, EndPass(now)) && id in s.issued && s.issued[id].interval > 0
    requires !Cancelled(s, id) && id in Served(s)
    ensures (s.pass.value.now + s.issued[id].interval, id) in Apply(s, EndPass(now)).timers
  {
    ReachableIsGood(s);
    ServedIsOwned(s);
    ServedIsActive(s);
    FinishEnters(s, id, now);
    ReachableStep(s, EndPass(now));
    EntriesMirrorOwnedTimers(Apply(s, EndPass(now)));
  }
}
