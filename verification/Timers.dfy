/** The timer protocol of one event loop, as a state machine over its atomic steps.

    A loop owns an ordered set of (expiration, sequence) entries, a map of owned timers, four auxiliary
    sets and one timerfd. Callbacks run inside a pass over the expired entries and may add and cancel
    timers re-entrantly; other threads hand additions and cancellations over through the loop's inbox.
    Every step below is what one thread does without being interleaved with the loop thread. */
module Timers {

  import opened Collections

  /** One millisecond, in the nanoseconds that timerfd counts. */
  const MILLISECOND := 1_000_000
  const SECOND := 1_000_000_000

  datatype Timer = Timer(expiration: int, interval: int, canceled: bool) {
    predicate Repeat() {
      interval > 0
    }

    function Restarted(now: int): Timer {
      this.(expiration := now + interval)
    }
  }

  /** What the caller of addTimer asked for. */
  datatype Request = Request(when: int, interval: int)

  type Entry = (int, nat)

  /** The timerfd: `Armed(at, setAt)` was programmed at time setAt to become readable at time at. */
  datatype Alarm = Disarmed | Armed(at: int, setAt: int) | Fired

  datatype Event =
    | Started(id: nat, due: int, at: int, pass: nat)
    | CancelRan(id: nat)

  /** A pass of handleRead over the entries that had expired at time `now`. */
  datatype Pass = Pass(now: int, expired: seq<Entry>, index: nat, running: bool)

  datatype State = State(
    timers: seq<Entry>,             // timers_, in the order of the std::set
    owned: map<nat, Timer>,         // timersOwned_
    calling: bool,                  // callingExpiredTimers_
    active: set<nat>,               // activeExpiredTimers_
    canceling: set<nat>,            // cancelingTimers_
    pendingCancel: set<nat>,        // pendingCancel_
    pendingAdd: set<nat>,           // pendingAddSequences_
    alarm: Alarm,
    addTasks: map<nat, Timer>,      // addTimerInLoop tasks waiting in the loop's inbox
    cancelTasks: multiset<nat>,     // cancelInLoop tasks waiting in the loop's inbox
    pass: Option<Pass>,
    clock: int,                     // last reading of the steady clock
    issued: map<nat, Request>,      // history: every sequence number handed out
    passes: nat,                    // history: passes begun
    log: seq<Event>)                // history: callback starts and executed cancellations

  datatype Step =
    | LocalAdd(id: nat, request: Request, now: int)
    | LocalCancel(id: nat, now: int)
    | RemoteAdd(id: nat, request: Request)
    | RemoteCancel(id: nat)
    | RunAdd(id: nat, now: int)
    | RunCancel(id: nat, now: int)
    | Fire(now: int)
    | BeginPass(now: int)
    | NextCallback
    | EndCallback
    | EndPass(now: int)

  const INIT := State([], map[], false, {}, {}, {}, {}, Disarmed, map[], multiset{}, None, 0, map[], 0, [])

  // ---------------------------------------------------------------------------------------------
  // The ordered set of entries

  predicate Less(a: Entry, b: Entry) {
    a.0 < b.0 || (a.0 == b.0 && a.1 < b.1)
  }

  predicate Sorted(ts: seq<Entry>) {
    forall i, j :: 0 <= i < j < |ts| ==> Less(ts[i], ts[j])
  }

  function Insert(ts: seq<Entry>, e: Entry): seq<Entry> {
    if ts == [] then [e]
    else if e == ts[0] then ts
    else if Less(e, ts[0]) then [e] + ts
    else [ts[0]] + Insert(ts[1..], e)
  }

  function Erase(ts: seq<Entry>, e: Entry): seq<Entry> {
    if ts == [] then []
    else if e == ts[0] then ts[1..]
    else [ts[0]] + Erase(ts[1..], e)
  }

  /** The number of entries before upper_bound({now, UINT64_MAX}). */
  function ExpiredCount(ts: seq<Entry>, now: int): (n: nat)
    ensures n <= |ts|
    ensures forall i :: 0 <= i < n ==> ts[i].0 <= now
    ensures n < |ts| ==> now < ts[n].0
  {
    if ts == [] || now < ts[0].0 then 0 else 1 + ExpiredCount(ts[1..], now)
  }

  /** Insertion keeps the order and adds exactly the new entry. */
  lemma {:induction false} InsertIsOrderedAddition(ts: seq<Entry>, e: Entry)
    requires Sorted(ts)
    ensures Sorted(Insert(ts, e))
    ensures forall x :: x in Insert(ts, e) <==> x in ts || x == e
    ensures Insert(ts, e)[0] == if ts == [] || Less(e, ts[0]) then e else ts[0]
  {
    if ts == [] {
    } else if e == ts[0] {
    } else if Less(e, ts[0]) {
      forall x ensures x in Insert(ts, e) <==> x in ts || x == e {}
    } else {
      InsertIsOrderedAddition(ts[1..], e);
      var rest := Insert(ts[1..], e);
      assert ts == [ts[0]] + ts[1..];
      assert forall x :: x in ts <==> x == ts[0] || x in ts[1..];
      forall k | 0 <= k < |rest| ensures Less(ts[0], rest[k]) {
        assert rest[k] in rest;
      }
    }
  }

  /** Erasure keeps the order and takes out exactly the given entry. */
  lemma {:induction false} EraseIsOrderedRemoval(ts: seq<Entry>, e: Entry)
    requires Sorted(ts)
    ensures Sorted(Erase(ts, e))
    ensures forall x :: x in Erase(ts, e) <==> x in ts && x != e
    ensures ts != [] && e != ts[0] ==> Erase(ts, e) != [] && Erase(ts, e)[0] == ts[0]
  {
    if ts == [] {
    } else {
      assert ts == [ts[0]] + ts[1..];
      assert forall x :: x in ts <==> x == ts[0] || x in ts[1..];
      if e == ts[0] {
        assert forall x :: x in ts[1..] ==> Less(ts[0], x);
      } else {
        EraseIsOrderedRemoval(ts[1..], e);
        var rest := Erase(ts[1..], e);
        forall k | 0 <= k < |rest| ensures Less(ts[0], rest[k]) {
          assert rest[k] in rest;
        }
      }
    }
  }

  // ---------------------------------------------------------------------------------------------
  // The timerfd

  /** resetTimerfd: at least one millisecond ahead, because a zero value would disarm the timer. */
  function Reset(next: int, now: int): Alarm {
    Armed(now + Max(next - now, MILLISECOND), now)
  }

  /** The itimerspec handed to timerfd_settime is in range, is never the all-zero value that disarms,
      and denotes exactly the delay that Reset promises. */
  lemma ResetProgramsItsDelay(next: int, now: int, seconds: int, nanos: int)
    requires seconds == Max(next - now, MILLISECOND) / SECOND
    requires nanos == Max(next - now, MILLISECOND) % SECOND
    ensures 0 <= seconds && 0 <= nanos < SECOND && (seconds, nanos) != (0, 0)
    ensures Reset(next, now) == Armed(now + seconds * SECOND + nanos, now)
    ensures Reset(next, now).at == Max(next, now + MILLISECOND)
  {
  }

  // ---------------------------------------------------------------------------------------------
  // The functions of TimerQueue that run in the loop thread

  function AddInLoop(s: State, id: nat, t: Timer, now: int): State {
    var s1 := s.(pendingAdd := s.pendingAdd - {id}, addTasks := s.addTasks - {id}, clock := now);
    if id in s.pendingCancel then
      s1.(pendingCancel := s.pendingCancel - {id})
    else
      var earliestChanged := s.timers == [] || t.expiration < s.timers[0].0;
      s1.(timers := Insert(s.timers, (t.expiration, id)),
      owned := s.owned[id := t],
      alarm := if earliestChanged then Reset(t.expiration, now) else s.alarm)
  }

  function CancelInLoop(s: State, id: nat, now: int): State {
    var s1 := s.(clock := now, log := s.log + [CancelRan(id)]);
    if id in s.owned then
      if s.calling && id in s.active then
        s1.(owned := s.owned[id := s.owned[id].(canceled := true)], canceling := s.canceling + {id})
      else
        var wasEarliest := s.timers != [] && s.timers[0].1 == id;
        var ts := Erase(s.timers, (s.owned[id].expiration, id));
        s1.(timers := ts,
        owned := s.owned - {id},
        alarm := if !wasEarliest then s.alarm else if ts == [] then Disarmed else Reset(ts[0].0, now))
    else if id in s.pendingAdd then
      s1.(pendingCancel := s.pendingCancel + {id})
    else
      s1
  }

  function Ids(es: seq<Entry>): set<nat> {
    set e | e in es :: e.1
  }

  function Begin(s: State, now: int): State {
    var n := ExpiredCount(s.timers, now);
    s.(timers := s.timers[n..],
    active := s.active + Ids(s.timers[..n]),
    calling := true,
    canceling := {},
    alarm := Disarmed,
    pass := Some(Pass(now, s.timers[..n], 0, false)),
    clock := now,
    passes := s.passes + 1)
  }

  /** One iteration of the callback loop up to the call of the callback. */
  function StartCallback(s: State): State
    requires s.pass.Some? && s.pass.value.index < |s.pass.value.expired|
  {
    var p := s.pass.value;
    var e := p.expired[p.index];
    if e.1 !in s.owned || s.owned[e.1].canceled then
      s.(pass := Some(p.(index := p.index + 1)))
    else
      s.(pass := Some(p.(running := true)), log := s.log + [Started(e.1, e.0, p.now, s.passes)])
  }

  /** The callback of the entry whose turn it is has returned. */
  function Ended(s: State): State
    requires s.pass.Some?
  {
    s.(pass := Some(s.pass.value.(running := false, index := s.pass.value.index + 1)))
  }

  /** One iteration of the clean-up loop. */
  function CleanOne(s: State, e: Entry, now: int): State {
    if e.1 in s.canceling || (e.1 in s.owned && s.owned[e.1].canceled) then
      s.(owned := s.owned - {e.1})
    else if e.1 in s.owned then
      if s.owned[e.1].Repeat() then
        var t := s.owned[e.1].Restarted(now);
        s.(owned := s.owned[e.1 := t], timers := Insert(s.timers, (t.expiration, e.1)))
      else
        s.(owned := s.owned - {e.1})
    else
      s
  }

  function CleanUp(s: State, es: seq<Entry>, now: int): (r: State)
    ensures r == s.(owned := r.owned, timers := r.timers)
    decreases |es|
  {
    if es == [] then s else CleanUp(CleanOne(s, es[0], now), es[1..], now)
  }

  function Finish(s: State, now: int): State
    requires s.pass.Some?
  {
    var c := CleanUp(s.(calling := false), s.pass.value.expired, s.pass.value.now);
    c.(alarm := if c.timers == [] then Disarmed else Reset(c.timers[0].0, now),
    active := {},
    canceling := {},
    pass := None,
    clock := now)
  }

  // ---------------------------------------------------------------------------------------------
  // Steps and runs

  /** The loop thread executes caller code: a loop task, or the callback of a pass. */
  predicate InUserCode(s: State) {
    s.pass.None? || s.pass.value.running
  }

  function FreshTimer(r: Request): Timer {
    Timer(r.when, r.interval, false)
  }

  predicate Enabled(s: State, step: Step) {
    match step
    case LocalAdd(id, r, now) => InUserCode(s) && id !in s.issued && s.clock <= now
    case LocalCancel(id, now) => InUserCode(s) && id in s.issued && s.clock <= now
    case RemoteAdd(id, r) => id !in s.issued
    case RemoteCancel(id) => id in s.issued
    case RunAdd(id, now) => s.pass.None? && id in s.addTasks && s.clock <= now
    case RunCancel(id, now) => s.pass.None? && id in s.cancelTasks && s.clock <= now
    case Fire(now) => s.alarm.Armed? && s.alarm.at <= now && s.clock <= now
    case BeginPass(now) => s.pass.None? && s.alarm.Fired? && s.clock <= now
    case NextCallback => s.pass.Some? && !s.pass.value.running && s.pass.value.index < |s.pass.value.expired|
    case EndCallback => s.pass.Some? && s.pass.value.running
    case EndPass(now) =>
      s.pass.Some? && !s.pass.value.running && s.pass.value.index == |s.pass.value.expired| && s.clock <= now
  }

  function Apply(s: State, step: Step): State
    requires Enabled(s, step)
  {
    match step
    case LocalAdd(id, r, now) => AddInLoop(s.(issued := s.issued[id := r]), id, FreshTimer(r), now)
    case LocalCancel(id, now) => CancelInLoop(s, id, now)
    case RemoteAdd(id, r) =>
      s.(issued := s.issued[id := r], pendingAdd := s.pendingAdd + {id},
      addTasks := s.addTasks[id := FreshTimer(r)])
    case RemoteCancel(id) => s.(cancelTasks := s.cancelTasks + multiset{id})
    case RunAdd(id, now) => AddInLoop(s, id, s.addTasks[id], now)
    case RunCancel(id, now) => CancelInLoop(s.(cancelTasks := s.cancelTasks - multiset{id}), id, now)
    case Fire(now) => s.(alarm := Fired, clock := now)
    case BeginPass(now) => Begin(s, now)
    case NextCallback => StartCallback(s)
    case EndCallback => Ended(s)
    case EndPass(now) => Finish(s, now)
  }

  ghost predicate Next(s: State, r: State) {
    exists step :: Enabled(s, step) && Apply(s, step) == r
  }

  ghost predicate IsRun(states: seq<State>) {
    |states| > 0 && forall i :: 0 <= i < |states| - 1 ==> Next(states[i], states[i + 1])
  }

  /** Some run of the protocol leads from s to r. */
  ghost predicate Leads(s: State, r: State) {
    exists states :: IsRun(states) && states[0] == s && states[|states| - 1] == r
  }

  lemma LeadsNowhere(s: State)
    ensures Leads(s, s)
  {
    assert IsRun([s]) && [s][0] == s;
  }

  lemma LeadsThrough(s: State, m: State, r: State)
    requires Leads(s, m) && Leads(m, r)
    ensures Leads(s, r)
  {
    var first :| IsRun(first) && first[0] == s && first[|first| - 1] == m;
    var rest :| IsRun(rest) && rest[0] == m && rest[|rest| - 1] == r;
    var all := first + rest[1..];
    forall i | 0 <= i < |all| - 1 ensures Next(all[i], all[i + 1]) {
      if i >= |first| - 1 {
        assert all[i] == rest[i - (|first| - 1)] && all[i + 1] == rest[i - (|first| - 1) + 1];
      }
    }
    assert IsRun(all) && all[0] == s && all[|all| - 1] == r;
  }

  lemma LeadsOn(s: State, m: State, step: Step)
    requires Leads(s, m) && Enabled(m, step)
    ensures Leads(s, Apply(m, step))
  {
    var r := Apply(m, step);
    assert Next(m, r);
    assert IsRun([m, r]) && [m, r][0] == m && [m, r][1] == r;
    LeadsThrough(s, m, r);
  }

  // ---------------------------------------------------------------------------------------------
  // What every step keeps

  /** timers_ lists exactly the owned timers that are not `hidden`, each under its own expiration. */
  ghost predicate Listed(s: State, hidden: set<nat>) {
    && Sorted(s.timers)
    && (forall e :: e in s.timers ==>
          e.1 in s.owned && e.0 == s.owned[e.1].expiration && e.1 !in hidden)
    && (forall id :: id in s.owned && id !in hidden ==> (s.owned[id].expiration, id) in s.timers)
  }

  /** The entries of the current pass are owned, distinct and due. */
  ghost predicate PassOk(s: State) {
    if s.pass.None? then
      !s.calling && s.active == {} && s.canceling == {}
    else
      var p := s.pass.value;
      && s.calling && s.active == Ids(p.expired) && s.canceling <= s.active
      && Sorted(p.expired)
      && p.index <= |p.expired| && (p.running ==> p.index < |p.expired|)
      && p.now <= s.clock
      && (forall e :: e in p.expired ==>
            e.0 <= p.now && e.1 in s.owned && s.owned[e.1].expiration == e.0)
      && (forall id :: id in s.canceling ==> s.owned[id].canceled)
  }

  ghost predicate InboxOk(s: State) {
    && s.pendingAdd == s.addTasks.Keys
    && s.pendingCancel <= s.pendingAdd
    && s.addTasks.Keys !! s.owned.Keys
    && s.addTasks.Keys + s.owned.Keys <= s.issued.Keys
    && (forall id :: id in s.cancelTasks ==> id in s.issued)
    && (forall id :: id in s.addTasks ==> s.addTasks[id] == FreshTimer(s.issued[id]))
    && (forall id :: id in s.owned ==> s.owned[id].interval == s.issued[id].interval)
    && (forall id :: id in s.owned && !s.owned[id].Repeat() ==> s.owned[id].expiration == s.issued[id].when)
  }

  /** Outside a pass the timerfd has fired, or it is armed for the earliest entry, exactly when there is one. */
  ghost predicate AlarmOk(s: State) {
    s.pass.None? && !s.alarm.Fired? ==>
      if s.timers == [] then s.alarm.Disarmed?
      else s.alarm.Armed? && s.alarm.at == Max(s.timers[0].0, s.alarm.setAt + MILLISECOND)
  }

  ghost predicate Inv(s: State) {
    Listed(s, s.active) && PassOk(s) && InboxOk(s) && AlarmOk(s)
  }

  lemma AddKeepsListed(s: State, id: nat, t: Timer, now: int)
    requires Listed(s, s.active) && id !in s.owned && id !in s.active
    ensures var r := AddInLoop(s, id, t, now); Listed(r, r.active)
  {
    InsertIsOrderedAddition(s.timers, (t.expiration, id));
  }

  lemma AddKeepsAlarm(s: State, id: nat, t: Timer, now: int)
    requires Sorted(s.timers) && AlarmOk(s)
    ensures AlarmOk(AddInLoop(s, id, t, now))
  {
    InsertIsOrderedAddition(s.timers, (t.expiration, id));
  }

  lemma AddKeepsPass(s: State, id: nat, t: Timer, now: int)
    requires PassOk(s) && id !in s.owned && s.clock <= now
    ensures PassOk(AddInLoop(s, id, t, now))
  {
  }

  lemma AddKeepsInbox(s: State, id: nat, now: int)
    requires InboxOk(s) && id in s.issued && id !in s.owned && (id in s.pendingCancel ==> id in s.addTasks)
    ensures InboxOk(AddInLoop(s, id, FreshTimer(s.issued[id]), now))
  {
  }

  lemma AddKeepsInv(s: State, id: nat, now: int)
    requires Inv(s) && s.clock <= now
    requires id in s.issued && id !in s.owned && (id in s.pendingCancel ==> id in s.addTasks)
    ensures Inv(AddInLoop(s, id, FreshTimer(s.issued[id]), now))
  {
    AddKeepsListed(s, id, FreshTimer(s.issued[id]), now);
    AddKeepsAlarm(s, id, FreshTimer(s.issued[id]), now);
    AddKeepsPass(s, id, FreshTimer(s.issued[id]), now);
    AddKeepsInbox(s, id, now);
  }

  /** Cancelling any other owned timer takes it out of both containers. */
  lemma CancelQueuedKeepsInv(s: State, id: nat, now: int)
    requires Inv(s) && s.clock <= now
    requires id in s.owned && !(s.calling && id in s.active)
    ensures Inv(CancelInLoop(s, id, now))
  {
    CancelQueuedKeepsListed(s, id, now);
    CancelQueuedKeepsAlarm(s, id, now);
    CancelQueuedKeepsPass(s, id, now);
    assert InboxOk(CancelInLoop(s, id, now));
  }

  lemma CancelQueuedKeepsListed(s: State, id: nat, now: int)
    requires Listed(s, s.active)
    requires id in s.owned && !(s.calling && id in s.active) && (s.calling || s.active == {})
    ensures var r := CancelInLoop(s, id, now); Listed(r, r.active)
  {
    EraseIsOrderedRemoval(s.timers, (s.owned[id].expiration, id));
  }

  lemma CancelQueuedKeepsAlarm(s: State, id: nat, now: int)
    requires Sorted(s.timers) && AlarmOk(s)
    requires id in s.owned && (s.owned[id].expiration, id) in s.timers && !(s.calling && id in s.active)
    ensures AlarmOk(CancelInLoop(s, id, now))
  {
    var e := (s.owned[id].expiration, id);
    EraseIsOrderedRemoval(s.timers, e);
    if s.timers[0].1 != id {
      assert Erase(s.timers, e)[0] == s.timers[0];
    }
  }

  lemma CancelQueuedKeepsPass(s: State, id: nat, now: int)
    requires PassOk(s) && s.clock <= now
    requires id in s.owned && !(s.calling && id in s.active)
    ensures PassOk(CancelInLoop(s, id, now))
  {
  }

  lemma SameListsAreKept(s: State, r: State)
    requires Listed(s, s.active) && AlarmOk(s)
    requires r.timers == s.timers && r.owned == s.owned && r.active == s.active
    requires r.pass == s.pass && r.alarm == s.alarm
    ensures Listed(r, r.active) && AlarmOk(r)
  {
  }

  lemma SamePassIsKept(s: State, r: State)
    requires PassOk(s) && r.pass == s.pass && r.calling == s.calling && r.active == s.active
    requires r.canceling == s.canceling && r.owned == s.owned && s.clock <= r.clock
    ensures PassOk(r)
  {
  }

  lemma CancelUnknownKeepsInv(s: State, id: nat, now: int)
    requires Inv(s) && s.clock <= now && id !in s.owned
    ensures Inv(CancelInLoop(s, id, now))
  {
    var r := CancelInLoop(s, id, now);
    SameListsAreKept(s, r);
    SamePassIsKept(s, r);
    assert InboxOk(r);
  }

  lemma CancelKeepsInv(s: State, id: nat, now: int)
    requires Inv(s) && s.clock <= now
    ensures Inv(CancelInLoop(s, id, now))
  {
    if id !in s.owned {
      CancelUnknownKeepsInv(s, id, now);
    } else if s.calling && id in s.active {
    } else {
      CancelQueuedKeepsInv(s, id, now);
    }
  }

  /** getExpired splits the entries at `now`. */
  lemma SplitAtNow(ts: seq<Entry>, now: int)
    requires Sorted(ts)
    ensures var n := ExpiredCount(ts, now);
            && Sorted(ts[..n]) && Sorted(ts[n..])
            && (forall e :: e in ts[..n] <==> e in ts && e.0 <= now)
            && (forall e :: e in ts[n..] <==> e in ts && now < e.0)
  {
  }

  lemma BeginKeepsInv(s: State, now: int)
    requires Inv(s) && s.pass.None? && s.clock <= now
    ensures Inv(Begin(s, now))
    ensures forall e :: e in Begin(s, now).pass.value.expired <==> e in s.timers && e.0 <= now
  {
    SplitAtNow(s.timers, now);
    var r := Begin(s, now);
    var es := r.pass.value.expired;
    assert r.active == Ids(es);
    assert PassOk(r);
    forall id | id in r.owned && id !in r.active ensures (r.owned[id].expiration, id) in r.timers {
      var e := (s.owned[id].expiration, id);
      assert e in s.timers;
    }
    assert InboxOk(r);
  }

  /** Invariant of the clean-up loop: `es` are the entries still to be cleaned. */
  ghost predicate Cleaning(s: State, es: seq<Entry>, now: int) {
    && Listed(s, Ids(es))
    && Sorted(es)
    && (forall e :: e in es ==> e.0 <= now && e.1 in s.owned && s.owned[e.1].expiration == e.0)
    && (forall id :: id in s.canceling && id in s.owned ==> id in Ids(es) && s.owned[id].canceled)
  }

  lemma DistinctIds(s: State, es: seq<Entry>, now: int)
    requires Cleaning(s, es, now) && es != []
    ensures Ids(es[1..]) == Ids(es) - {es[0].1}
  {
  }

  lemma CleanOneKeepsDue(s: State, es: seq<Entry>, now: int)
    requires Cleaning(s, es, now) && es != []
    ensures var r := CleanOne(s, es[0], now);
            && (forall e :: e in es[1..] ==> e.0 <= now && e.1 in r.owned && r.owned[e.1].expiration == e.0)
            && (forall id :: id in r.canceling && id in r.owned ==> id in Ids(es[1..]) && r.owned[id].canceled)
  {
    DistinctIds(s, es, now);
    assert forall x :: x in es[1..] ==> x in es && x.1 in Ids(es[1..]);
  }

  lemma CleanOneKeepsCleaning(s: State, es: seq<Entry>, now: int)
    requires Cleaning(s, es, now) && es != []
    requires InboxOk(s)
    ensures Cleaning(CleanOne(s, es[0], now), es[1..], now)
    ensures InboxOk(CleanOne(s, es[0], now))
  {
    CleanOneKeepsListed(s, es, now);
    CleanOneKeepsInbox(s, es[0], now);
    CleanOneKeepsDue(s, es, now);
  }

  lemma CleanOneKeepsInbox(s: State, e: Entry, now: int)
    requires InboxOk(s)
    ensures InboxOk(CleanOne(s, e, now))
  {
  }

  lemma CleanOneKeepsListed(s: State, es: seq<Entry>, now: int)
    requires Cleaning(s, es, now) && es != []
    ensures Listed(CleanOne(s, es[0], now), Ids(es[1..]))
  {
    DistinctIds(s, es, now);
    var e := es[0];
    if e.1 !in s.canceling && !s.owned[e.1].canceled && s.owned[e.1].Repeat() {
      InsertIsOrderedAddition(s.timers, (s.owned[e.1].Restarted(now).expiration, e.1));
    }
  }

  lemma {:induction false} CleanUpKeeps(s: State, es: seq<Entry>, now: int)
    requires Cleaning(s, es, now) && InboxOk(s)
    ensures Listed(CleanUp(s, es, now), {}) && InboxOk(CleanUp(s, es, now))
    decreases |es|
  {
    if es == [] {
      assert Ids(es) == {};
    } else {
      CleanOneKeepsCleaning(s, es, now);
      CleanUpKeeps(CleanOne(s, es[0], now), es[1..], now);
    }
  }

  lemma CleaningBegins(s: State)
    requires Inv(s) && s.pass.Some?
    ensures var c := s.(calling := false); var p := s.pass.value; Cleaning(c, p.expired, p.now) && InboxOk(c)
  {
    var c := s.(calling := false);
    assert Listed(c, Ids(s.pass.value.expired));
  }

  lemma FinishArms(s: State, now: int)
    requires s.pass.Some?
    ensures AlarmOk(Finish(s, now))
  {
  }

  lemma FinishKeepsInv(s: State, now: int)
    requires Inv(s) && s.pass.Some? && s.clock <= now
    ensures Inv(Finish(s, now))
  {
    var p := s.pass.value;
    CleaningBegins(s);
    CleanUpKeeps(s.(calling := false), p.expired, p.now);
    FinishArms(s, now);
    assert PassOk(Finish(s, now));
  }

  lemma AuxiliaryUpdateKeepsInv(s: State, r: State)
    requires Inv(s)
    requires r == s.(issued := r.issued, cancelTasks := r.cancelTasks)
    requires s.issued.Keys <= r.issued.Keys && forall id :: id in s.issued ==> r.issued[id] == s.issued[id]
    requires r.cancelTasks <= s.cancelTasks
    ensures Inv(r)
  {
  }

  lemma CallbackStepsKeepInv(s: State, step: Step)
    requires Inv(s) && Enabled(s, step) && (step.NextCallback? || step.EndCallback?)
    ensures Inv(Apply(s, step))
  {
    var r := Apply(s, step);
    assert PassOk(r);
    assert InboxOk(r);
  }

  lemma RemoteAddKeepsInv(s: State, id: nat, request: Request)
    requires Inv(s) && Enabled(s, RemoteAdd(id, request))
    ensures Inv(Apply(s, RemoteAdd(id, request)))
  {
    var r := Apply(s, RemoteAdd(id, request));
    SameListsAreKept(s, r);
    SamePassIsKept(s, r);
    assert InboxOk(r);
  }

  lemma SignalKeepsInv(s: State, step: Step)
    requires Inv(s) && Enabled(s, step) && (step.RemoteCancel? || step.Fire?)
    ensures Inv(Apply(s, step))
  {
    var r := Apply(s, step);
    assert Listed(r, r.active) && AlarmOk(r);
    SamePassIsKept(s, r);
    assert InboxOk(r);
  }

  /** Every step keeps the containers, the pass, the inbox and the timerfd consistent. */
  lemma StepKeepsInv(s: State, step: Step)
    requires Inv(s) && Enabled(s, step)
    ensures Inv(Apply(s, step))
  {
    match step
    case LocalAdd(id, r, now) =>
      var s0 := s.(issued := s.issued[id := r]);
      AuxiliaryUpdateKeepsInv(s, s0);
      AddKeepsInv(s0, id, now);
    case RunAdd(id, now) => AddKeepsInv(s, id, now);
    case LocalCancel(id, now) => CancelKeepsInv(s, id, now);
    case RunCancel(id, now) =>
      var s0 := s.(cancelTasks := s.cancelTasks - multiset{id});
      AuxiliaryUpdateKeepsInv(s, s0);
      CancelKeepsInv(s0, id, now);
    case BeginPass(now) => BeginKeepsInv(s, now);
    case EndPass(now) => FinishKeepsInv(s, now);
    case RemoteAdd(id, r) => RemoteAddKeepsInv(s, id, r);
    case RemoteCancel(_) => SignalKeepsInv(s, step);
    case Fire(_) => SignalKeepsInv(s, step);
    case NextCallback => CallbackStepsKeepInv(s, step);
    case EndCallback => CallbackStepsKeepInv(s, step);
  }

  // ---------------------------------------------------------------------------------------------
  // What the history of every run shows

  ghost predicate Cancelled(s: State, id: nat) {
    CancelRan(id) in s.log
  }

  ghost predicate WasStarted(s: State, id: nat) {
    exists k :: 0 <= k < |s.log| && s.log[k].Started? && s.log[k].id == id
  }

  predicate OneShot(s: State, id: nat) {
    id in s.issued && s.issued[id].interval <= 0
  }

  /** The first `Done(p)` entries of a pass have had their turn. */
  function Done(p: Pass): nat {
    if p.running then p.index + 1 else p.index
  }

  /** No callback of a timer starts after its cancellation has run. */
  ghost predicate NoStartAfterCancel(log: seq<Event>) {
    forall i, j :: 0 <= i < j < |log| && log[i].CancelRan? && log[j].Started? ==> log[i].id != log[j].id
  }

  /** No callback starts before its time, and a one-shot starts for the time it was requested for. */
  ghost predicate NeverEarly(s: State) {
    forall k :: 0 <= k < |s.log| && s.log[k].Started? ==>
      && s.log[k].id in s.issued && s.log[k].due <= s.log[k].at && s.log[k].pass <= s.passes
      && (OneShot(s, s.log[k].id) ==> s.log[k].due == s.issued[s.log[k].id].when)
  }

  /** A one-shot starts at most once. */
  ghost predicate OneShotsOnce(s: State) {
    forall i, j :: 0 <= i < j < |s.log| && s.log[i].Started? && s.log[j].Started? && s.log[i].id == s.log[j].id
      ==> !OneShot(s, s.log[i].id)
  }

  /** The callbacks of one pass start in the order of (expiration, sequence). */
  ghost predicate PassesInOrder(log: seq<Event>) {
    forall i, j :: 0 <= i < j < |log| && log[i].Started? && log[j].Started? && log[i].pass == log[j].pass
      ==> Less((log[i].due, log[i].id), (log[j].due, log[j].id))
  }

  /** An executed cancellation is remembered until the timer is gone. */
  ghost predicate CancelOk(s: State) {
    && (forall id :: Cancelled(s, id) ==>
          && id in s.issued
          && (id in s.addTasks ==> id in s.pendingCancel)
          && (id in s.owned ==> id in s.active && s.owned[id].canceled))
    && (forall id :: id in s.pendingCancel ==> Cancelled(s, id))
    && (forall id :: id in s.owned && s.owned[id].canceled ==> Cancelled(s, id))
  }

  /** Where a timer that has started can still be. */
  ghost predicate StartedOk(s: State) {
    && (forall k :: 0 <= k < |s.log| && s.log[k].Started? ==>
          && s.log[k].id !in s.addTasks
          && (OneShot(s, s.log[k].id) && s.log[k].id in s.owned ==> s.log[k].id in s.active))
    && (s.pass.Some? ==>
          var p := s.pass.value;
          && p.now <= s.clock && Done(p) <= |p.expired|
          && (forall k :: 0 <= k < |s.log| && s.log[k].Started? && OneShot(s, s.log[k].id) && s.log[k].id in s.owned ==>
                (s.log[k].due, s.log[k].id) in p.expired[..Done(p)])
          && (forall k :: 0 <= k < |s.log| && s.log[k].Started? && s.log[k].pass == s.passes ==>
                (s.log[k].due, s.log[k].id) in p.expired[..Done(p)])
          && (forall e :: e in p.expired[..Done(p)] ==>
                Started(e.1, e.0, p.now, s.passes) in s.log || Cancelled(s, e.1)))
  }

  /** No request is lost: a timer that was not cancelled is still there, unless it is a one-shot that has started. */
  ghost predicate Conserved(s: State) {
    forall id :: id in s.issued && !Cancelled(s, id) && !(OneShot(s, id) && WasStarted(s, id)) ==>
      id in s.addTasks || id in s.owned
  }

  /** What the log alone promises. */
  ghost predicate LogClauses(s: State) {
    NoStartAfterCancel(s.log) && NeverEarly(s) && OneShotsOnce(s) && PassesInOrder(s.log)
  }

  ghost predicate History(s: State) {
    LogClauses(s) && CancelOk(s) && StartedOk(s) && Conserved(s)
  }

  // Steps that neither start nor cancel a timer

  lemma SameLog(s: State, r: State)
    requires r.log == s.log
    ensures forall id :: Cancelled(r, id) == Cancelled(s, id)
    ensures forall id :: WasStarted(r, id) == WasStarted(s, id)
  {
  }

  /** From s to r nothing starts, nothing is cancelled, and no timer is lost. */
  ghost predicate Quiet(s: State, r: State) {
    && r.log == s.log && r.pass == s.pass && r.passes == s.passes && r.active == s.active && s.clock <= r.clock
    && (forall id :: id in s.issued ==> id in r.issued && r.issued[id] == s.issued[id])
    && (forall id :: id in r.issued && id !in s.issued ==> id in r.addTasks || id in r.owned)
    && (forall id :: id in r.addTasks && id !in s.addTasks ==> id !in s.issued)
    && (forall id :: id in s.addTasks && id !in r.addTasks ==> id in r.owned || Cancelled(s, id))
    && (forall id :: id in s.owned ==> id in r.owned && r.owned[id] == s.owned[id])
    && (forall id :: id in r.owned && id !in s.owned ==>
          !r.owned[id].canceled && id !in s.pendingCancel && (id in s.addTasks || id !in s.issued))
    && r.pendingCancel <= s.pendingCancel
    && (forall id :: id in s.pendingCancel && id in r.addTasks ==> id in r.pendingCancel)
  }

  lemma QuietKeepsLogClauses(s: State, r: State)
    requires Quiet(s, r) && LogClauses(s)
    ensures LogClauses(r)
  {
    assert NeverEarly(r);
    assert OneShotsOnce(r);
  }

  lemma QuietKeepsStartedOk(s: State, r: State)
    requires Quiet(s, r) && StartedOk(s) && NeverEarly(s)
    ensures StartedOk(r)
  {
    SameLog(s, r);
  }

  lemma QuietConserves(s: State, r: State)
    requires Quiet(s, r) && Conserved(s)
    ensures Conserved(r)
  {
    SameLog(s, r);
  }

  lemma QuietKeepsHistory(s: State, r: State)
    requires Quiet(s, r) && History(s)
    ensures History(r)
  {
    QuietKeepsLogClauses(s, r);
    QuietKeepsStartedOk(s, r);
    QuietConserves(s, r);
    assert CancelOk(r);
  }

  lemma AddKeepsHistory(s: State, id: nat, now: int)
    requires InboxOk(s) && History(s) && id in s.addTasks && s.clock <= now
    ensures History(AddInLoop(s, id, s.addTasks[id], now))
  {
    QuietKeepsHistory(s, AddInLoop(s, id, s.addTasks[id], now));
  }

  lemma FreshAddKeepsHistory(s: State, id: nat, r: Request, now: int)
    requires InboxOk(s) && History(s) && id !in s.issued && s.clock <= now
    ensures History(AddInLoop(s.(issued := s.issued[id := r]), id, FreshTimer(r), now))
  {
    QuietKeepsHistory(s, AddInLoop(s.(issued := s.issued[id := r]), id, FreshTimer(r), now));
  }

  lemma HandOverKeepsHistory(s: State, step: Step)
    requires Inv(s) && History(s) && Enabled(s, step) && (step.RemoteAdd? || step.RemoteCancel? || step.Fire?)
    ensures History(Apply(s, step))
  {
    QuietKeepsHistory(s, Apply(s, step));
  }

  // Cancellation

  lemma LoggedCancel(s: State, r: State, id: nat)
    requires r.log == s.log + [CancelRan(id)]
    ensures forall x :: Cancelled(r, x) == (Cancelled(s, x) || x == id)
    ensures forall x :: WasStarted(r, x) == WasStarted(s, x)
  {
    forall x ensures WasStarted(r, x) == WasStarted(s, x) {
      if WasStarted(s, x) {
        var k :| 0 <= k < |s.log| && s.log[k].Started? && s.log[k].id == x;
        assert r.log[k] == s.log[k];
      }
    }
  }

  lemma LoggedCancelKeepsCancelOk(s: State, r: State, id: nat)
    requires CancelOk(s) && id in s.issued && r.log == s.log + [CancelRan(id)]
    requires r.issued == s.issued && r.addTasks == s.addTasks && r.active == s.active
    requires s.pendingCancel <= r.pendingCancel <= s.pendingCancel + {id}
    requires id in r.addTasks ==> id in r.pendingCancel
    requires forall x :: x in r.owned && x != id ==> x in s.owned && r.owned[x] == s.owned[x]
    requires id in r.owned ==> id in r.active && r.owned[id].canceled
    ensures CancelOk(r)
  {
    LoggedCancel(s, r, id);
  }

  lemma CancelKeepsCancelOk(s: State, id: nat, now: int)
    requires CancelOk(s) && id in s.issued && s.pendingAdd == s.addTasks.Keys && s.calling == s.pass.Some?
    requires s.pass.None? ==> s.active == {}
    requires s.addTasks.Keys !! s.owned.Keys
    ensures CancelOk(CancelInLoop(s, id, now))
  {
    LoggedCancelKeepsCancelOk(s, CancelInLoop(s, id, now), id);
  }

  lemma CancelKeepsStartedOk(s: State, id: nat, now: int)
    requires StartedOk(s) && s.clock <= now
    ensures StartedOk(CancelInLoop(s, id, now))
  {
    MoreCancelledKeepsStartedOk(s, CancelInLoop(s, id, now), id);
  }

  lemma MoreCancelledKeepsStartedOk(s: State, r: State, id: nat)
    requires StartedOk(s) && r.log == s.log + [CancelRan(id)] && s.clock <= r.clock
    requires r.pass == s.pass && r.passes == s.passes && r.issued == s.issued && r.addTasks == s.addTasks
    requires r.active == s.active && r.owned.Keys <= s.owned.Keys
    ensures StartedOk(r)
  {
  }

  lemma CancelKeepsHistory(s: State, id: nat, now: int)
    requires Inv(s) && History(s) && id in s.issued && s.clock <= now
    ensures History(CancelInLoop(s, id, now))
  {
    CancelKeepsLogClauses(s, id, now);
    CancelKeepsCancelOk(s, id, now);
    CancelKeepsStartedOk(s, id, now);
    CancelKeepsConserved(s, id, now);
  }

  lemma LoggedCancelKeepsLogClauses(s: State, r: State, id: nat)
    requires LogClauses(s) && r.log == s.log + [CancelRan(id)] && r.issued == s.issued && r.passes == s.passes
    ensures LogClauses(r)
  {
  }

  lemma CancelKeepsLogClauses(s: State, id: nat, now: int)
    requires LogClauses(s)
    ensures LogClauses(CancelInLoop(s, id, now))
  {
    LoggedCancelKeepsLogClauses(s, CancelInLoop(s, id, now), id);
  }

  lemma CancelKeepsConserved(s: State, id: nat, now: int)
    requires Conserved(s)
    ensures Conserved(CancelInLoop(s, id, now))
  {
    LoggedCancel(s, CancelInLoop(s, id, now), id);
  }

  // The steps of a pass

  lemma BeginKeepsStartedOk(s: State, now: int)
    requires StartedOk(s) && LogClauses(s) && s.pass.None? && s.active == {}
    ensures StartedOk(Begin(s, now))
  {
    assert Done(Begin(s, now).pass.value) == 0;
  }

  lemma BeginKeepsHistory(s: State, now: int)
    requires Inv(s) && History(s) && s.pass.None? && s.clock <= now
    ensures History(Begin(s, now))
  {
    var r := Begin(s, now);
    SameLog(s, r);
    assert CancelOk(r);
    BeginKeepsStartedOk(s, now);
  }

  lemma EndedKeepsStartedOk(s: State)
    requires StartedOk(s) && s.pass.Some? && s.pass.value.running
    ensures StartedOk(Ended(s))
  {
    assert Done(Ended(s).pass.value) == Done(s.pass.value);
  }

  lemma SamePlacesConserve(s: State, r: State)
    requires Conserved(s) && r.log == s.log && r.issued == s.issued && r.addTasks == s.addTasks && r.owned == s.owned
    ensures Conserved(r)
  {
    SameLog(s, r);
  }

  lemma EndedKeepsHistory(s: State)
    requires History(s) && s.pass.Some? && s.pass.value.running
    ensures History(Ended(s))
  {
    SamePlacesConserve(s, Ended(s));
    EndedKeepsStartedOk(s);
    assert CancelOk(Ended(s));
  }

  lemma SkipKeepsCancelOk(s: State)
    requires CancelOk(s) && Enabled(s, NextCallback)
    requires var p := s.pass.value; var id := p.expired[p.index].1; id in s.owned && s.owned[id].canceled
    ensures CancelOk(StartCallback(s))
  {
  }

  lemma SkipKeepsHistory(s: State)
    requires Inv(s) && History(s) && Enabled(s, NextCallback)
    requires var p := s.pass.value; var id := p.expired[p.index].1; id in s.owned && s.owned[id].canceled
    ensures History(StartCallback(s))
  {
    SamePlacesConserve(s, StartCallback(s));
    SkipKeepsCancelOk(s);
    SkipKeepsStartedOk(s);
  }

  lemma SkipKeepsStartedOk(s: State)
    requires PassOk(s) && StartedOk(s) && CancelOk(s) && Enabled(s, NextCallback)
    requires var p := s.pass.value; s.owned[p.expired[p.index].1].canceled
    ensures StartedOk(StartCallback(s))
  {
  }

  /** The entry whose turn it is has not been started in this pass, nor ever if it is a one-shot. */
  lemma NextIsFresh(s: State)
    requires Inv(s) && History(s) && Enabled(s, NextCallback)
    ensures var p := s.pass.value; var e := p.expired[p.index];
            && (forall k :: 0 <= k < |s.log| && s.log[k].Started? && s.log[k].pass == s.passes ==>
                  Less((s.log[k].due, s.log[k].id), e))
            && (OneShot(s, e.1) ==> !WasStarted(s, e.1))
  {
  }

  lemma LoggedStart(s: State, r: State, e: Event)
    requires r.log == s.log + [e] && e.Started?
    ensures forall x :: Cancelled(r, x) == Cancelled(s, x)
    ensures forall x :: WasStarted(r, x) == (WasStarted(s, x) || x == e.id)
  {
    forall x ensures WasStarted(r, x) == (WasStarted(s, x) || x == e.id) {
      if WasStarted(s, x) {
        var k :| 0 <= k < |s.log| && s.log[k].Started? && s.log[k].id == x;
        assert r.log[k] == s.log[k];
      }
      assert r.log[|s.log|] == e;
    }
  }

  lemma StartKeepsStartedOk(s: State)
    requires PassOk(s) && StartedOk(s) && Enabled(s, NextCallback)
    requires s.addTasks.Keys !! s.owned.Keys
    requires var p := s.pass.value; !s.owned[p.expired[p.index].1].canceled
    ensures StartedOk(StartCallback(s))
  {
  }

  lemma StartKeepsLogClauses(s: State)
    requires Inv(s) && History(s) && Enabled(s, NextCallback)
    requires var p := s.pass.value; !s.owned[p.expired[p.index].1].canceled
    ensures LogClauses(StartCallback(s))
  {
    var p := s.pass.value;
    assert p.expired[p.index] in p.expired;
    NextIsFresh(s);
    StartKeepsOneShots(s);
    StartKeepsEarlyAndOrder(s, p.expired[p.index]);
  }

  lemma StartKeepsEarlyAndOrder(s: State, e: Entry)
    requires LogClauses(s) && Enabled(s, NextCallback) && e == s.pass.value.expired[s.pass.value.index]
    requires e.1 in s.owned && !s.owned[e.1].canceled && !Cancelled(s, e.1) && e.1 in s.issued
    requires e.0 <= s.pass.value.now && (!s.owned[e.1].Repeat() ==> e.0 == s.issued[e.1].when)
    requires s.owned[e.1].interval == s.issued[e.1].interval
    requires forall k :: 0 <= k < |s.log| && s.log[k].Started? && s.log[k].pass == s.passes ==>
               Less((s.log[k].due, s.log[k].id), e)
    ensures var r := StartCallback(s); NoStartAfterCancel(r.log) && NeverEarly(r) && PassesInOrder(r.log)
  {
  }

  lemma StartKeepsOneShots(s: State)
    requires Enabled(s, NextCallback) && OneShotsOnce(s)
    requires var p := s.pass.value; var e := p.expired[p.index];
             e.1 in s.owned && !s.owned[e.1].canceled && (OneShot(s, e.1) ==> !WasStarted(s, e.1))
    ensures OneShotsOnce(StartCallback(s))
  {
  }

  lemma StartKeepsHistory(s: State)
    requires Inv(s) && History(s) && Enabled(s, NextCallback)
    requires var p := s.pass.value; !s.owned[p.expired[p.index].1].canceled
    ensures History(StartCallback(s))
  {
    var r := StartCallback(s);
    StartKeepsLogClauses(s);
    StartKeepsStartedOk(s);
    LoggedStart(s, r, r.log[|s.log|]);
    assert CancelOk(r);
  }

  /** `c` has kept, of the timers in `ids`, exactly the repeating ones that were not cancelled. */
  ghost predicate KeptRepeaters(s: State, c: State, ids: set<nat>) {
    && (forall id :: id in c.owned <==> id in s.owned && (id in ids ==> !s.owned[id].canceled && s.owned[id].Repeat()))
    && (forall id :: id in c.owned ==>
          c.owned[id].canceled == s.owned[id].canceled && c.owned[id].Repeat() == s.owned[id].Repeat())
  }

  lemma CleanOneKeepsRepeaters(s: State, es: seq<Entry>, now: int)
    requires Cleaning(s, es, now) && es != []
    ensures KeptRepeaters(s, CleanOne(s, es[0], now), {es[0].1})
  {
    assert es[0] in es;
  }

  lemma RepeatersAfter(s: State, m: State, c: State, ids: set<nat>, more: set<nat>)
    requires KeptRepeaters(s, m, ids) && KeptRepeaters(m, c, more)
    ensures KeptRepeaters(s, c, ids + more)
  {
  }

  /** The clean-up loop keeps exactly the repeating timers that were not cancelled. */
  lemma {:induction false} CleanUpKeepsRepeaters(s: State, es: seq<Entry>, now: int)
    requires Cleaning(s, es, now) && InboxOk(s)
    ensures KeptRepeaters(s, CleanUp(s, es, now), Ids(es))
    decreases |es|
  {
    if es == [] {
      assert Ids(es) == {};
    } else {
      var m := CleanOne(s, es[0], now);
      CleanOneKeepsRepeaters(s, es, now);
      CleanOneKeepsCleaning(s, es, now);
      CleanUpKeepsRepeaters(m, es[1..], now);
      RepeatersAfter(s, m, CleanUp(s, es, now), {es[0].1}, Ids(es[1..]));
      DistinctIds(s, es, now);
      assert es[0] in es;
      assert {es[0].1} + Ids(es[1..]) == Ids(es);
    }
  }

  lemma FinishKeepsHistory(s: State, now: int)
    requires Inv(s) && History(s) && Enabled(s, EndPass(now))
    ensures History(Finish(s, now))
  {
    var p := s.pass.value;
    CleaningBegins(s);
    CleanUpKeepsRepeaters(s.(calling := false), p.expired, p.now);
    assert p.expired[..|p.expired|] == p.expired;
    FinishedPassKeepsHistory(s, Finish(s, now));
  }

  /** From s to r the pass is over and of its timers the repeaters that were not cancelled are kept. */
  ghost predicate PassOver(s: State, r: State) {
    && s.pass.Some? && s.active == Ids(s.pass.value.expired)
    && Done(s.pass.value) == |s.pass.value.expired|
    && r.log == s.log && r.pass.None? && r.passes == s.passes && r.issued == s.issued
    && r.addTasks == s.addTasks && r.pendingCancel == s.pendingCancel
    && (forall id :: id in s.owned ==> id in s.issued && s.owned[id].interval == s.issued[id].interval)
    && KeptRepeaters(s, r, s.active)
  }

  lemma PassOverKeepsStartedOk(s: State, r: State)
    requires PassOver(s, r) && StartedOk(s)
    ensures StartedOk(r)
  {
    var es := s.pass.value.expired;
    assert es[..|es|] == es;
  }

  lemma PassOverConserves(s: State, r: State)
    requires PassOver(s, r) && StartedOk(s) && CancelOk(s) && Conserved(s)
    ensures Conserved(r)
  {
    SameLog(s, r);
    var es := s.pass.value.expired;
    assert es[..|es|] == es;
  }

  lemma FinishedPassKeepsHistory(s: State, r: State)
    requires PassOver(s, r) && History(s)
    ensures History(r)
  {
    SameLog(s, r);
    PassOverKeepsStartedOk(s, r);
    PassOverConserves(s, r);
    assert CancelOk(r);
    assert NeverEarly(r) && OneShotsOnce(r);
  }

  lemma RunCancelKeepsHistory(s: State, id: nat, now: int)
    requires Inv(s) && History(s) && Enabled(s, RunCancel(id, now))
    ensures History(Apply(s, RunCancel(id, now)))
  {
    var s0 := s.(cancelTasks := s.cancelTasks - multiset{id});
    AuxiliaryUpdateKeepsInv(s, s0);
    QuietKeepsHistory(s, s0);
    CancelKeepsHistory(s0, id, now);
  }

  lemma NextCallbackKeepsHistory(s: State)
    requires Inv(s) && History(s) && Enabled(s, NextCallback)
    ensures History(StartCallback(s))
  {
    var p := s.pass.value;
    assert p.expired[p.index] in p.expired;
    if s.owned[p.expired[p.index].1].canceled {
      SkipKeepsHistory(s);
    } else {
      StartKeepsHistory(s);
    }
  }

  /** Every step keeps the history clauses. */
  lemma StepKeepsHistory(s: State, step: Step)
    requires Inv(s) && History(s) && Enabled(s, step)
    ensures History(Apply(s, step))
  {
    match step
    case LocalAdd(id, r, now) => FreshAddKeepsHistory(s, id, r, now);
    case RunAdd(id, now) => AddKeepsHistory(s, id, now);
    case RemoteAdd(_, _) => HandOverKeepsHistory(s, step);
    case RemoteCancel(_) => HandOverKeepsHistory(s, step);
    case Fire(_) => HandOverKeepsHistory(s, step);
    case LocalCancel(id, now) => CancelKeepsHistory(s, id, now);
    case RunCancel(id, now) => RunCancelKeepsHistory(s, id, now);
    case BeginPass(now) => BeginKeepsHistory(s, now);
    case NextCallback => NextCallbackKeepsHistory(s);
    case EndCallback => EndedKeepsHistory(s);
    case EndPass(now) => FinishKeepsHistory(s, now);
  }

  lemma {:induction false} RunKeepsHistory(states: seq<State>, n: nat)
    requires IsRun(states) && Inv(states[0]) && History(states[0]) && n < |states|
    ensures Inv(states[n]) && History(states[n])
  {
    if n > 0 {
      RunKeepsHistory(states, n - 1);
      assert Next(states[n - 1], states[n - 1 + 1]);
      var step :| Enabled(states[n - 1], step) && Apply(states[n - 1], step) == states[n];
      StepKeepsInv(states[n - 1], step);
      StepKeepsHistory(states[n - 1], step);
    }
  }

  // ---------------------------------------------------------------------------------------------
  // Theorems about every run

  /** The states that the runs from the empty queue go through. */
  ghost predicate Reachable(s: State) {
    Leads(INIT, s)
  }

  lemma ReachableStep(s: State, step: Step)
    requires Reachable(s) && Enabled(s, step)
    ensures Reachable(Apply(s, step))
  {
    LeadsOn(INIT, s, step);
  }

  lemma ReachableIsGood(s: State)
    requires Reachable(s)
    ensures Inv(s) && History(s)
  {
    assert Ids([]) == {};
    assert Inv(INIT) && History(INIT);
    var states :| IsRun(states) && states[0] == INIT && states[|states| - 1] == s;
    RunKeepsHistory(states, |states| - 1);
  }

  /** Once the cancellation of a timer has run, its callback never starts again: not when it was queued,
      nor expired in the current pass, nor cancelling itself, nor still waiting in the inbox. */
  lemma CancelledNeverStartsAgain(s: State, i: nat, j: nat)
    requires Reachable(s) && i < j < |s.log|
    requires s.log[i].CancelRan? && s.log[j].Started?
    ensures s.log[i].id != s.log[j].id
  {
    ReachableIsGood(s);
  }

  /** While a callback runs, its timer is owned, so it is not destroyed; and a cancellation is only ever
      parked for an addition that is still in the inbox. */
  lemma RunningTimerIsOwned(s: State)
    requires Reachable(s)
    ensures && (s.pass.Some? && s.pass.value.running ==>
                  var p := s.pass.value;
                  p.index < |p.expired| && p.expired[p.index].1 in s.owned && p.expired[p.index].1 in s.active)
            && s.pendingCancel <= s.pendingAdd == s.addTasks.Keys
  {
    ReachableIsGood(s);
    if s.pass.Some? && s.pass.value.running {
      assert s.pass.value.expired[s.pass.value.index] in s.pass.value.expired;
    }
  }

  /** Outside a pass the ordered entries are exactly the (expiration, sequence) pairs of the owned timers, and unless
      the timerfd has fired it is armed exactly when there is an entry: for the time of the earliest one, or a
      millisecond after it was last programmed if that is later. */
  lemma EntriesMirrorOwnedTimers(s: State)
    requires Reachable(s) && s.pass.None?
    ensures && Sorted(s.timers)
            && (forall e :: e in s.timers <==> e.1 in s.owned && e.0 == s.owned[e.1].expiration)
            && (s.alarm.Fired?
                || if s.timers == [] then s.alarm.Disarmed?
                   else s.alarm.Armed? && s.alarm.at == Max(s.timers[0].0, s.alarm.setAt + MILLISECOND))
  {
    ReachableIsGood(s);
    MirrorOutsidePass(s);
  }

  lemma MirrorOutsidePass(s: State)
    requires Listed(s, s.active) && PassOk(s) && s.pass.None?
    ensures forall e :: e in s.timers <==> e.1 in s.owned && e.0 == s.owned[e.1].expiration
  {
  }

  /** A one-shot that was not cancelled has started exactly once, for its requested time and not before
      it, or it has not started and is still waiting: in the inbox, in the ordered entries, or among the
      entries of the current pass whose turn is still to come. */
  lemma OneShotsRunExactlyOnce(s: State, id: nat)
    requires Reachable(s) && OneShot(s, id) && !Cancelled(s, id)
    ensures if WasStarted(s, id) then
              && (exists k :: 0 <= k < |s.log| && s.log[k].Started? && s.log[k].id == id
                    && s.log[k].due == s.issued[id].when <= s.log[k].at)
              && (forall i, j :: 0 <= i < j < |s.log| ==>
                    !(s.log[i].Started? && s.log[i].id == id && s.log[j].Started? && s.log[j].id == id))
              && id !in s.addTasks && (s.pass.None? ==> id !in s.owned)
            else
              || id in s.addTasks
              || (s.issued[id].when, id) in s.timers
              || (s.pass.Some? && Done(s.pass.value) <= |s.pass.value.expired|
                  && (s.issued[id].when, id) in s.pass.value.expired[Done(s.pass.value)..])
  {
    ReachableIsGood(s);
    if WasStarted(s, id) {
      var k :| 0 <= k < |s.log| && s.log[k].Started? && s.log[k].id == id;
    } else {
      UnstartedIsWaiting(s, id);
    }
  }

  lemma UnstartedIsWaiting(s: State, id: nat)
    requires Listed(s, s.active) && PassOk(s) && InboxOk(s) && StartedOk(s) && Conserved(s)
    requires OneShot(s, id) && !Cancelled(s, id) && !WasStarted(s, id)
    ensures || id in s.addTasks
            || (s.issued[id].when, id) in s.timers
            || (s.pass.Some? && (s.issued[id].when, id) in s.pass.value.expired[Done(s.pass.value)..])
  {
  }

  /** When a pass ends, every timer that was due when it began has been started in it or cancelled, and
      the callbacks of one pass started in the order of (expiration, sequence). */
  lemma PassServesDueTimersInOrder(s: State, now: int)
    requires Reachable(s) && Enabled(s, EndPass(now))
    ensures var p := s.pass.value;
            && (forall e :: e in p.expired ==> Started(e.1, e.0, p.now, s.passes) in s.log || Cancelled(s, e.1))
            && PassesInOrder(s.log)
  {
    ReachableIsGood(s);
    var p := s.pass.value;
    assert p.expired[..Done(p)] == p.expired;
  }

  /** A pass takes exactly the entries that are due at its clock reading. */
  lemma PassTakesExactlyTheDue(s: State, now: int)
    requires Reachable(s) && Enabled(s, BeginPass(now))
    ensures var r := Begin(s, now);
            && (forall e :: e in r.pass.value.expired <==> e in s.timers && e.0 <= now)
            && (forall e :: e in r.timers <==> e in s.timers && now < e.0)
  {
    ReachableIsGood(s);
    SplitAtNow(s.timers, now);
  }
}
