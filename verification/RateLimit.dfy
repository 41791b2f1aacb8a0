/** The rate limiter: a Lua script over two Redis keys that expire. Time is Redis's own clock in milliseconds; a key
    exists while the clock is before its expiry. */
module RateLimits {

  datatype Rule = Rule(name: string, maxRequests: nat, windowMs: int, blockMs: int)

  const LOGIN_FAIL := Rule("login_fail", 5, 300000, 300000)
  const REGISTER := Rule("register", 10, 60000, 300000)
  const SEND_MESSAGE := Rule("send_message", 20, 1000, 3000)
  const SYNC := Rule("sync", 5, 1000, 3000)
  const HISTORY := Rule("history", 10, 1000, 3000)

  /** A rule that hit does not wave through. */
  predicate Effective(rule: Rule) {
    rule.maxRequests > 0 && rule.windowMs > 0
  }

  /** The counter and the block of one key under one rule; an end that is past means the Redis key is gone. */
  datatype Meter = Meter(count: nat, windowEnd: int, blockEnd: int)

  const FRESH := Meter(0, 0, 0)

  predicate Blocked(m: Meter, now: nat) {
    now < m.blockEnd
  }

  /** INCR, with the expiry that the first one sets. */
  function Counted(m: Meter, rule: Rule, now: nat): Meter {
    if now < m.windowEnd then m.(count := m.count + 1)
    else m.(count := 1, windowEnd := now + rule.windowMs)
  }

  /** The script: the new meter, and the count when admitted or minus the wait when refused. */
  function Hit(m: Meter, rule: Rule, now: nat): (Meter, int) {
    if Blocked(m, now) then (m, now - m.blockEnd)
    else
      var c := Counted(m, rule, now);
      if c.count <= rule.maxRequests then (c, c.count)
      else if rule.blockMs > 0 then (c.(blockEnd := now + rule.blockMs), -rule.blockMs)
      else (c, now - c.windowEnd)
  }

  predicate Admits(m: Meter, rule: Rule, now: nat) {
    Hit(m, rule, now).1 >= 0
  }

  // ---------------------------------------------------------------------------------------------
  // How many are admitted in a window

  /** The times admitted before the current counter window, and in it. */
  datatype Log = Log(prior: seq<nat>, current: seq<nat>)

  datatype State = State(meter: Meter, now: nat, log: Log)

  const INIT := State(FRESH, 0, Log([], []))

  function Admitted(s: State): seq<nat> {
    s.log.prior + s.log.current
  }

  function AfterHit(s: State, rule: Rule, now: nat): State {
    var (m, value) := Hit(s.meter, rule, now);
    var log := if value < 0 then s.log
               else if now < s.meter.windowEnd then s.log.(current := s.log.current + [now])
               else Log(s.log.prior + s.log.current, [now]);
    State(m, now, log)
  }

  function CountIn(times: seq<nat>, from: int, to: int): nat {
    if times == [] then 0
    else CountIn(times[..|times| - 1], from, to) + (if from <= times[|times| - 1] < to then 1 else 0)
  }

  lemma {:induction false} CountBounds(times: seq<nat>, from: int, to: int)
    ensures CountIn(times, from, to) <= |times|
    ensures (forall i :: 0 <= i < |times| ==> !(from <= times[i] < to)) ==> CountIn(times, from, to) == 0
    ensures (forall i :: 0 <= i < |times| ==> from <= times[i] < to) ==> CountIn(times, from, to) == |times|
    ensures times != [] && !(from <= times[0] < to) ==> CountIn(times, from, to) <= |times| - 1
    decreases |times|
  {
    if times != [] {
      CountBounds(times[..|times| - 1], from, to);
    }
  }

  lemma {:induction false} CountConcat(a: seq<nat>, b: seq<nat>, from: int, to: int)
    ensures CountIn(a + b, from, to) == CountIn(a, from, to) + CountIn(b, from, to)
    decreases |b|
  {
    if b == [] {
      assert a + b == a;
    } else {
      CountConcat(a, b[..|b| - 1], from, to);
      assert (a + b)[..|a + b| - 1] == a + b[..|b| - 1];
    }
  }

  lemma {:induction false} CountClips(times: seq<nat>, from: int, to: int, end: int)
    requires end <= to && forall i :: 0 <= i < |times| ==> times[i] < end
    ensures CountIn(times, from, to) == CountIn(times, from, end)
    decreases |times|
  {
    if times != [] {
      CountClips(times[..|times| - 1], from, to, end);
    }
  }

  function CountWindow(times: seq<nat>, from: int, rule: Rule): nat {
    CountIn(times, from, from + rule.windowMs)
  }

  /** When the current counter window began. */
  function Start(m: Meter, rule: Rule): int {
    m.windowEnd - rule.windowMs
  }

  /** The current window began with an admitted hit and holds at most the maximum; what was admitted before lies
      before it. */
  ghost predicate LogOk(s: State, rule: Rule) {
    && (s.meter.count == 0 ==> s.meter.windowEnd == 0 && s.log == Log([], []))
    && (s.meter.count > 0 ==> s.log.current != [] && s.log.current[0] == Start(s.meter, rule) <= s.now)
    && |s.log.current| == (if s.meter.count <= rule.maxRequests then s.meter.count else rule.maxRequests)
    && (forall i :: 0 <= i < |s.log.current| ==> Start(s.meter, rule) <= s.log.current[i] < s.meter.windowEnd)
    && (forall i :: 0 <= i < |s.log.prior| ==> s.log.prior[i] < Start(s.meter, rule))
  }

  /** Of the hits before the current window, fewer than the maximum lie within one window's length of its start. */
  ghost predicate PriorOk(s: State, rule: Rule) {
    && (forall from: int :: from > Start(s.meter, rule) - rule.windowMs ==>
          CountIn(s.log.prior, from, Start(s.meter, rule)) <= rule.maxRequests - 1)
    && (forall from: int :: CountWindow(s.log.prior, from, rule) <= 2 * rule.maxRequests - 1)
  }

  lemma HitKeepsLog(s: State, rule: Rule, now: nat)
    requires Effective(rule) && LogOk(s, rule) && s.now <= now
    ensures LogOk(AfterHit(s, rule, now), rule)
  {
    if Blocked(s.meter, now) {
      assert AfterHit(s, rule, now) == s.(now := now);
    } else if now < s.meter.windowEnd {
      SameWindowKeepsLog(s, rule, now);
    } else {
      NewWindowKeepsLog(s, rule, now);
    }
  }

  lemma SameWindowKeepsLog(s: State, rule: Rule, now: nat)
    requires Effective(rule) && LogOk(s, rule) && s.now <= now < s.meter.windowEnd && !Blocked(s.meter, now)
    ensures LogOk(AfterHit(s, rule, now), rule)
  {
    var r := AfterHit(s, rule, now);
    assert r.meter.count == s.meter.count + 1 && r.meter.windowEnd == s.meter.windowEnd;
    assert r.log.prior == s.log.prior;
  }

  lemma NewWindowKeepsLog(s: State, rule: Rule, now: nat)
    requires Effective(rule) && LogOk(s, rule) && s.now <= now && s.meter.windowEnd <= now && !Blocked(s.meter, now)
    ensures LogOk(AfterHit(s, rule, now), rule)
  {
    var r := AfterHit(s, rule, now);
    assert r.log == Log(s.log.prior + s.log.current, [now]) && Start(r.meter, rule) == now;
    forall i | 0 <= i < |r.log.prior| ensures r.log.prior[i] < now {
      assert i >= |s.log.prior| ==> r.log.prior[i] == s.log.current[i - |s.log.prior|];
    }
  }

  /** No interval of a window's length holds more than this many admitted hits. */
  lemma WindowBound(s: State, rule: Rule, from: int)
    requires Effective(rule) && LogOk(s, rule) && PriorOk(s, rule)
    ensures CountWindow(Admitted(s), from, rule) <= 2 * rule.maxRequests - 1
  {
    var start, to := Start(s.meter, rule), from + rule.windowMs;
    CountConcat(s.log.prior, s.log.current, from, to);
    CountBounds(s.log.prior, from, to);
    CountBounds(s.log.current, from, to);
    if from <= start < to {
      CountClips(s.log.prior, from, to, start);
    } else if start < from {
      assert CountIn(s.log.prior, from, to) == 0;
    } else {
      assert CountWindow(s.log.prior, from, rule) <= 2 * rule.maxRequests - 1;
    }
  }

  lemma NewWindowKeepsPrior(s: State, rule: Rule, now: nat)
    requires Effective(rule) && LogOk(s, rule) && PriorOk(s, rule) && s.now <= now && s.meter.windowEnd <= now
    ensures forall from: int :: from > now - rule.windowMs ==> CountIn(Admitted(s), from, now) <= rule.maxRequests - 1
  {
    forall from: int | from > now - rule.windowMs ensures CountIn(Admitted(s), from, now) <= rule.maxRequests - 1 {
      CountConcat(s.log.prior, s.log.current, from, now);
      CountBounds(s.log.prior, from, now);
      CountBounds(s.log.current, from, now);
    }
  }

  lemma HitKeepsPrior(s: State, rule: Rule, now: nat)
    requires Effective(rule) && LogOk(s, rule) && PriorOk(s, rule) && s.now <= now
    ensures PriorOk(AfterHit(s, rule, now), rule)
  {
    var r := AfterHit(s, rule, now);
    if r.log.prior != s.log.prior || r.meter.windowEnd != s.meter.windowEnd {
      NewWindowKeepsPrior(s, rule, now);
      assert r.log.prior == Admitted(s) && Start(r.meter, rule) == now;
      forall from: int ensures CountWindow(r.log.prior, from, rule) <= 2 * rule.maxRequests - 1 {
        WindowBound(s, rule, from);
      }
    }
  }

  /** A run of hits at times that never go back. */
  ghost predicate Next(s: State, rule: Rule, r: State) {
    exists now: nat :: s.now <= now && AfterHit(s, rule, now) == r
  }

  ghost predicate IsRun(states: seq<State>, rule: Rule) {
    |states| > 0 && states[0] == INIT && forall i :: 0 <= i < |states| - 1 ==> Next(states[i], rule, states[i + 1])
  }

  lemma {:induction false} RunKeepsLog(states: seq<State>, rule: Rule, n: nat)
    requires Effective(rule) && IsRun(states, rule) && n < |states|
    ensures LogOk(states[n], rule) && PriorOk(states[n], rule)
  {
    if n > 0 {
      RunKeepsLog(states, rule, n - 1);
      assert Next(states[n - 1], rule, states[n - 1 + 1]);
      var now: nat :| states[n - 1].now <= now && AfterHit(states[n - 1], rule, now) == states[n];
      HitKeepsLog(states[n - 1], rule, now);
      HitKeepsPrior(states[n - 1], rule, now);
    }
  }

  /** Every half-open interval of the window's length holds at most twice the maximum, less one, of admitted hits. */
  lemma AtMostTwiceLessOne(states: seq<State>, rule: Rule, n: nat, from: int)
    requires Effective(rule) && IsRun(states, rule) && n < |states|
    ensures CountIn(Admitted(states[n]), from, from + rule.windowMs) <= 2 * rule.maxRequests - 1
  {
    RunKeepsLog(states, rule, n);
    WindowBound(states[n], rule, from);
  }

  /** The count that an admitted hit reports is the number of hits that its window has admitted, itself included; so
      what is reported as remaining is what the window has left. */
  lemma CountIsTrue(states: seq<State>, rule: Rule, n: nat, now: nat)
    requires Effective(rule) && IsRun(states, rule) && n < |states| && states[n].now <= now
    requires Admits(states[n].meter, rule, now)
    ensures var (m, count) := Hit(states[n].meter, rule, now);
            && Start(m, rule) <= now < m.windowEnd && 1 <= count <= rule.maxRequests
            && count == CountIn(Admitted(states[n]) + [now], Start(m, rule), m.windowEnd)
  {
    RunKeepsLog(states, rule, n);
    CountAfterHit(states[n], rule, now);
  }

  lemma CountAfterHit(s: State, rule: Rule, now: nat)
    requires Effective(rule) && LogOk(s, rule) && s.now <= now && Admits(s.meter, rule, now)
    ensures var (m, count) := Hit(s.meter, rule, now);
            && Start(m, rule) <= now < m.windowEnd && 1 <= count <= rule.maxRequests
            && count == CountIn(Admitted(s) + [now], Start(m, rule), m.windowEnd)
  {
    HitKeepsLog(s, rule, now);
    AdmittedIsLogged(s, rule, now);
    WindowHoldsCurrent(AfterHit(s, rule, now), rule);
  }

  lemma AdmittedIsLogged(s: State, rule: Rule, now: nat)
    requires Effective(rule) && LogOk(s, rule) && s.now <= now && Admits(s.meter, rule, now)
    ensures var (m, count) := Hit(s.meter, rule, now); var r := AfterHit(s, rule, now);
            && r.meter == m && count == |r.log.current| <= rule.maxRequests && Admitted(r) == Admitted(s) + [now]
            && 1 <= count && Start(m, rule) <= now < m.windowEnd
  {
  }

  lemma WindowHoldsCurrent(s: State, rule: Rule)
    requires LogOk(s, rule)
    ensures CountIn(Admitted(s), Start(s.meter, rule), s.meter.windowEnd) == |s.log.current|
  {
    var from, to := Start(s.meter, rule), s.meter.windowEnd;
    CountConcat(s.log.prior, s.log.current, from, to);
    CountBounds(s.log.prior, from, to);
    CountBounds(s.log.current, from, to);
  }

  /** A hit that meets no block is refused only when the window it falls into has already admitted the maximum. */
  lemma RefusedOnlyWhenFull(states: seq<State>, rule: Rule, n: nat, now: nat)
    requires Effective(rule) && IsRun(states, rule) && n < |states| && states[n].now <= now
    requires !Blocked(states[n].meter, now) && !Admits(states[n].meter, rule, now)
    ensures var from := Start(states[n].meter, rule);
            from <= now < from + rule.windowMs
            && CountIn(Admitted(states[n]), from, from + rule.windowMs) == rule.maxRequests
  {
    RunKeepsLog(states, rule, n);
    WindowHoldsCurrent(states[n], rule);
  }

  // ---------------------------------------------------------------------------------------------
  // When the bound is met

  /** How many the run admits in the interval of the window's length that begins there. */
  function AdmittedFrom(states: seq<State>, from: int, rule: Rule): nat
    requires |states| > 0
  {
    CountWindow(Admitted(states[|states| - 1]), from, rule)
  }

  /** Some run admits twice the maximum less one in some such interval. */
  ghost predicate BoundIsMet(rule: Rule) {
    exists states, from :: IsRun(states, rule) && AdmittedFrom(states, from, rule) == 2 * rule.maxRequests - 1
  }

  function Repeat(now: nat, n: nat): seq<nat> {
    seq(n, _ => now)
  }

  lemma OneHit(states: seq<State>, rule: Rule, now: nat) returns (more: seq<State>)
    requires IsRun(states, rule) && states[|states| - 1].now <= now
    ensures IsRun(more, rule) && more[|more| - 1] == AfterHit(states[|states| - 1], rule, now)
  {
    var last := states[|states| - 1];
    var r := AfterHit(last, rule, now);
    assert Next(last, rule, r);
    more := states + [r];
    forall i | 0 <= i < |more| - 1 ensures Next(more[i], rule, more[i + 1]) {
      if i < |states| - 1 {
        assert Next(states[i], rule, states[i + 1]);
      }
    }
  }

  /** Some hits at one moment, as long as the window has room for them. */
  lemma {:induction false} HitsAtOnce(states: seq<State>, rule: Rule, now: nat, n: nat) returns (more: seq<State>)
    requires Effective(rule) && IsRun(states, rule)
    requires var s := states[|states| - 1];
             s.now <= now < s.meter.windowEnd && s.meter.blockEnd == 0 && s.meter.count + n <= rule.maxRequests
    ensures IsRun(more, rule)
    ensures var s, r := states[|states| - 1], more[|more| - 1];
            && r.meter == s.meter.(count := s.meter.count + n) && s.now <= r.now <= now
            && r.log == Log(s.log.prior, s.log.current + Repeat(now, n))
    decreases n
  {
    if n == 0 {
      more := states;
      assert states[|states| - 1].log.current + [] == states[|states| - 1].log.current;
    } else {
      var ms := HitsAtOnce(states, rule, now, n - 1);
      more := OneHit(ms, rule, now);
      assert Repeat(now, n) == Repeat(now, n - 1) + [now];
      var c := states[|states| - 1].log.current;
      assert (c + Repeat(now, n - 1)) + [now] == c + Repeat(now, n);
    }
  }

  /** One hit opens a window, the rest of its room is used up at its last moment, and the next window is filled at
      once. */
  lemma MeetBound(rule: Rule) returns (states: seq<State>)
    requires Effective(rule) && rule.windowMs >= 2
    ensures IsRun(states, rule)
    ensures var first, w, m := [0], rule.windowMs, rule.maxRequests;
            states[|states| - 1].log == Log(first + Repeat(w - 1, m - 1), [w] + Repeat(w, m - 1))
  {
    var w, m := rule.windowMs, rule.maxRequests;
    states := [INIT];
    assert IsRun(states, rule);
    states := OneHit(states, rule, 0);
    assert states[|states| - 1] == State(Meter(1, w, 0), 0, Log([], [0]));
    states := HitsAtOnce(states, rule, w - 1, m - 1);
    ghost var s := states[|states| - 1];
    states := OneHit(states, rule, w);
    assert [] + s.log.current == s.log.current;
    states := HitsAtOnce(states, rule, w, m - 1);
  }

  lemma {:induction false} CountRepeat(now: nat, n: nat, from: int, to: int)
    ensures CountIn(Repeat(now, n), from, to) == if from <= now < to then n else 0
    decreases n
  {
    if n > 0 {
      assert Repeat(now, n)[..n - 1] == Repeat(now, n - 1);
      CountRepeat(now, n - 1, from, to);
    }
  }

  lemma CountMet(w: nat, m: nat)
    requires w >= 2 && m >= 1
    ensures CountIn(([0] + Repeat(w - 1, m - 1)) + ([w] + Repeat(w, m - 1)), w - 1, w - 1 + w) == 2 * m - 1
  {
    CountConcat([0] + Repeat(w - 1, m - 1), [w] + Repeat(w, m - 1), w - 1, w - 1 + w);
    CountFirstAndRest(0, w - 1, m - 1, w - 1, w - 1 + w);
    CountFirstAndRest(w, w, m - 1, w - 1, w - 1 + w);
  }

  lemma CountFirstAndRest(first: nat, now: nat, n: nat, from: int, to: int)
    ensures CountIn([first] + Repeat(now, n), from, to) ==
            (if from <= first < to then 1 else 0) + (if from <= now < to then n else 0)
  {
    CountConcat([first], Repeat(now, n), from, to);
    CountRepeat(now, n, from, to);
    CountBounds([first], from, to);
  }

  /** With a window of one millisecond, every moment is its own window. */
  lemma {:induction false} OneMsAdmitsMax(states: seq<State>, rule: Rule, n: nat, from: int)
    requires Effective(rule) && rule.windowMs == 1 && IsRun(states, rule) && n < |states|
    ensures CountWindow(Admitted(states[n]), from, rule) <= rule.maxRequests
    ensures CountWindow(states[n].log.prior, from, rule) <= rule.maxRequests
  {
    if n > 0 {
      OneMsAdmitsMax(states, rule, n - 1, from);
      assert Next(states[n - 1], rule, states[n - 1 + 1]);
      RunKeepsLog(states, rule, n);
      OneMsAdmitsMaxNow(states[n], rule, from);
    }
  }

  lemma OneMsAdmitsMaxNow(s: State, rule: Rule, from: int)
    requires Effective(rule) && rule.windowMs == 1 && LogOk(s, rule)
    requires CountWindow(s.log.prior, from, rule) <= rule.maxRequests
    ensures CountWindow(Admitted(s), from, rule) <= rule.maxRequests
  {
    CountConcat(s.log.prior, s.log.current, from, from + 1);
    CountBounds(s.log.prior, from, from + 1);
    CountBounds(s.log.current, from, from + 1);
  }

  /** Twice the maximum less one is admitted in some run exactly when that is one, or the window is longer than a
      millisecond. */
  lemma BoundIsMetExactly(rule: Rule)
    requires Effective(rule)
    ensures BoundIsMet(rule) <==> rule.maxRequests == 1 || rule.windowMs >= 2
  {
    if rule.windowMs >= 2 {
      var states := MeetBound(rule);
      CountMet(rule.windowMs, rule.maxRequests);
      assert AdmittedFrom(states, rule.windowMs - 1, rule) == 2 * rule.maxRequests - 1;
    } else if rule.maxRequests == 1 {
      assert IsRun([INIT], rule);
      var states := OneHit([INIT], rule, 0);
      assert Admitted(states[|states| - 1]) == [0];
      CountBounds([0], 0, rule.windowMs);
      assert AdmittedFrom(states, 0, rule) == 1;
    } else {
      forall states, from | IsRun(states, rule)
        ensures AdmittedFrom(states, from, rule) < 2 * rule.maxRequests - 1
      {
        OneMsAdmitsMax(states, rule, |states| - 1, from);
      }
    }
  }

  // ---------------------------------------------------------------------------------------------
  // The wait that a refusal reports

  ghost predicate NextMeter(m: Meter, rule: Rule, now: nat, r: Meter) {
    Hit(m, rule, now).0 == r
  }

  /** Hits at given times, each meter the result of the one before. */
  ghost predicate IsMeterRun(meters: seq<Meter>, times: seq<nat>, rule: Rule) {
    && |meters| == |times| + 1
    && meters[0] == FRESH
    && (forall i, j :: 0 <= i < j < |times| ==> times[i] <= times[j])
    && (forall i :: 0 <= i < |times| ==> NextMeter(meters[i], rule, times[i], meters[i + 1]))
  }

  /** A block outlasts the counter that caused it. */
  ghost predicate BlockOk(m: Meter, rule: Rule, now: int) {
    && m.windowEnd <= now + rule.windowMs
    && (rule.blockMs <= 0 ==> m.blockEnd == 0)
    && (rule.windowMs <= rule.blockMs && now < m.blockEnd ==> m.windowEnd <= m.blockEnd)
  }

  lemma {:induction false} MetersKeepBlock(meters: seq<Meter>, times: seq<nat>, rule: Rule, n: nat)
    requires Effective(rule) && IsMeterRun(meters, times, rule) && n < |meters|
    ensures BlockOk(meters[n], rule, if n == 0 then 0 else times[n - 1])
  {
    if n > 0 {
      MetersKeepBlock(meters, times, rule, n - 1);
      assert NextMeter(meters[n - 1], rule, times[n - 1], meters[n - 1 + 1]);
      assert n >= 2 ==> times[n - 2] <= times[n - 1];
    }
  }

  /** Until the reported time every hit is refused, and each such refusal reports the same moment. */
  lemma RefusedUntil(m: Meter, rule: Rule, t: nat, u: nat)
    requires Effective(rule) && Hit(m, rule, t).1 < 0 && t <= u < t - Hit(m, rule, t).1
    ensures var (r, wait) := Hit(m, rule, t);
            Hit(r, rule, u).1 < 0 && u - Hit(r, rule, u).1 == t - wait
            && Hit(r, rule, u).0.blockEnd == r.blockEnd && Hit(r, rule, u).0.windowEnd == r.windowEnd
  {
  }

  /** At or after it, when the block is no shorter than the window or there is none, a hit is admitted. */
  lemma AdmittedAfter(m: Meter, rule: Rule, now: int, t: nat, u: nat)
    requires Effective(rule) && (rule.blockMs <= 0 || rule.windowMs <= rule.blockMs)
    requires BlockOk(m, rule, now) && now <= t && Hit(m, rule, t).1 < 0 && u >= t - Hit(m, rule, t).1
    ensures Admits(Hit(m, rule, t).0, rule, u)
  {
  }

  /** The meter after some run of hits up to t. */
  ghost predicate Reached(rule: Rule, m: Meter, t: nat) {
    exists meters, times: seq<nat> ::
      IsMeterRun(meters, times, rule) && meters[|meters| - 1] == m && (times == [] || times[|times| - 1] <= t)
  }

  /** The promise: after any run, a refusal's wait is enough. */
  ghost predicate WaitIsEnough(rule: Rule) {
    forall m, t: nat, u: nat ::
      Reached(rule, m, t) && Hit(m, rule, t).1 < 0 && u >= t - Hit(m, rule, t).1 ==> Admits(Hit(m, rule, t).0, rule, u)
  }

  /** It is kept exactly by the rules whose block, if any, is no shorter than their window. */
  lemma WaitIsEnoughExactly(rule: Rule)
    requires Effective(rule)
    ensures WaitIsEnough(rule) <==> rule.blockMs <= 0 || rule.windowMs <= rule.blockMs
  {
    if rule.blockMs <= 0 || rule.windowMs <= rule.blockMs {
      forall m, t: nat, u: nat | Reached(rule, m, t) && Hit(m, rule, t).1 < 0 && u >= t - Hit(m, rule, t).1
        ensures Admits(Hit(m, rule, t).0, rule, u)
      {
        var meters, times: seq<nat> :|
          IsMeterRun(meters, times, rule) && meters[|meters| - 1] == m && (times == [] || times[|times| - 1] <= t);
        MetersKeepBlock(meters, times, rule, |times|);
        AdmittedAfter(m, rule, if times == [] then 0 else times[|times| - 1], t, u);
      }
    } else {
      var meters, times := FillWindow(rule, rule.maxRequests);
      var m := meters[|meters| - 1];
      assert Reached(rule, m, 0);
      assert Hit(m, rule, 0).1 == -rule.blockMs;
      assert !Admits(Hit(m, rule, 0).0, rule, rule.blockMs);
    }
  }

  lemma {:induction false} FillWindow(rule: Rule, n: nat) returns (meters: seq<Meter>, times: seq<nat>)
    requires Effective(rule) && 1 <= n <= rule.maxRequests
    ensures IsMeterRun(meters, times, rule) && (forall i :: 0 <= i < |times| ==> times[i] == 0)
    ensures meters[|meters| - 1] == Meter(n, rule.windowMs, 0)
    decreases n
  {
    if n == 1 {
      meters, times := [FRESH, Meter(1, rule.windowMs, 0)], [0];
      assert NextMeter(FRESH, rule, 0, Meter(1, rule.windowMs, 0));
    } else {
      var ms, ts := FillWindow(rule, n - 1);
      meters, times := ms + [Meter(n, rule.windowMs, 0)], ts + [0];
      forall i | 0 <= i < |times| ensures NextMeter(meters[i], rule, times[i], meters[i + 1]) {
        if i < |ts| {
          assert NextMeter(ms[i], rule, ts[i], ms[i + 1]);
        }
      }
    }
  }

  lemma TheFiveRulesKeepIt()
    ensures WaitIsEnough(LOGIN_FAIL) && WaitIsEnough(REGISTER) && WaitIsEnough(SEND_MESSAGE)
    ensures WaitIsEnough(SYNC) && WaitIsEnough(HISTORY)
  {
    WaitIsEnoughExactly(LOGIN_FAIL);
    WaitIsEnoughExactly(REGISTER);
    WaitIsEnoughExactly(SEND_MESSAGE);
    WaitIsEnoughExactly(SYNC);
    WaitIsEnoughExactly(HISTORY);
  }
}
