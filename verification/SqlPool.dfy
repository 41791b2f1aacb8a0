/** SqlConnectionPool, the guards that hold its connections, and what a connection looks like when it comes back. The
    locked sections are steps; resetting a connection happens before the lock is taken, so a connection on its way
    back is neither held nor idle. */
module SqlPools {

  import opened Collections

  type ConnId = nat
  type GuardId = nat

  /** The flags of SqlConnection. */
  datatype Conn = Conn(connected: bool, inTransaction: bool, autoCommit: bool, broken: bool)

  /** What a call into the driver does. */
  datatype Driver = Works | ConnectionError | OtherError | ForeignException

  datatype Locked = Locked(started: bool, slots: seq<ConnId>, idle: seq<ConnId>)    // connections_ and idle_

  datatype Pool = Pool(
    locked: Locked,
    conns: map<ConnId, Conn>,
    held: map<GuardId, ConnId>,         // guards that own a connection
    returning: map<ConnId, bool>,       // reset done, and whether it is reusable
    lost: set<ConnId>,                  // history: slots whose connection neither came back nor was replaced
    failures: nat,                      // replaceFailures_
    strays: nat)                        // history: releases cut short by a foreign exception

  datatype Step =
    | Start(made: seq<ConnId>)
    | Stop
    | Acquire(guard: GuardId)
    | Move(guard: GuardId, to: GuardId)
    | Use(guard: GuardId, conn: Conn)   // whatever the holder does leaves any flags
    | Reset(guard: GuardId, driver: Driver)
    | Return(id: ConnId, spare: ConnId, connects: bool)

  const INIT := Pool(Locked(false, [], []), map[], map[], map[], {}, 0, 0)
  const NEW_CONN := Conn(true, false, true, false)

  // ---------------------------------------------------------------------------------------------
  // One connection

  function MarkBroken(c: Conn): Conn {
    c.(broken := true, connected := false)
  }

  /** rollback, and whether it succeeded; a foreign exception passes through it. */
  function RolledBack(c: Conn, driver: Driver): (Conn, bool) {
    if !c.connected || driver.ForeignException? then (c, false)
    else if driver.Works? then (c.(inTransaction := false, autoCommit := true), true)
    else (MarkBroken(c.(autoCommit := true)), false)
  }

  /** resetSessionStateSafe, and whether the connection is reusable; a foreign exception passes through it. */
  function ResetSafe(c: Conn, driver: Driver): (Conn, bool) {
    if driver.ForeignException? then (c, false)
    else if c.inTransaction then
      var (d, ok) := RolledBack(c, driver);
      if ok then (d, true) else (d.(broken := true), false)
    else if driver.Works? then (c, true)
    else if driver.ConnectionError? then (MarkBroken(c), false)
    else (c, false)
  }

  /** Whatever was done with a connection, it may be put back iff it was unbroken and the driver could end what it was
      in; and then it is outside any transaction. */
  lemma ReusableIsClean(c: Conn, driver: Driver)
    ensures var (d, ok) := ResetSafe(c, driver);
            && (ok && !d.broken ==> Clean(d))
            && (ok && !d.broken <==> driver.Works? && !c.broken && (c.inTransaction ==> c.connected))
  {
  }

  /** What the reset leaves of the connection: out of its transaction when that works, broken and disconnected when the
      connection is lost, broken when a transaction could not be ended, and otherwise untouched. */
  lemma ResetLeaves(c: Conn, driver: Driver)
    ensures var (d, ok) := ResetSafe(c, driver);
            && (ok ==> d == c.(inTransaction := false, autoCommit := c.inTransaction || c.autoCommit))
            && (driver.ConnectionError? ==> d.broken && !d.connected)
            && (!ok && c.inTransaction && !driver.ForeignException? ==>
                  d.broken && d.inTransaction && (c.connected ==> d.autoCommit && !d.connected))
            && (driver.ForeignException? || (driver.OtherError? && !c.inTransaction) ==> d == c)
  {
  }

  predicate Clean(c: Conn) {
    !c.broken && !c.inTransaction
  }

  // ---------------------------------------------------------------------------------------------
  // The steps

  predicate Enabled(p: Pool, step: Step) {
    match step
    case Start(made) => !p.locked.started && Distinct(made) && forall c :: c in made ==> c !in p.conns
    case Stop => true
    case Acquire(g) => p.locked.started && p.locked.idle != [] && g !in p.held
    case Move(g, to) => g in p.held && to !in p.held
    case Use(g, _) => g in p.held
    case Reset(g, _) => g in p.held && p.held[g] in p.conns
    case Return(c, made, _) => c in p.returning && made !in p.conns
  }

  function Opened(p: Pool, made: seq<ConnId>): Pool {
    p.(locked := Locked(true, made, made), conns := map c | c in p.conns.Keys + (set i | 0 <= i < |made| :: made[i]) ::
                                                       if c in p.conns then p.conns[c] else NEW_CONN)
  }

  /** SqlConnection::close on every connection of the pool, those that guards hold included. */
  function ClosedAll(conns: map<ConnId, Conn>, slots: seq<ConnId>): map<ConnId, Conn> {
    map c | c in conns :: if c in slots then conns[c].(connected := false) else conns[c]
  }

  function Replaced(slots: seq<ConnId>, c: ConnId, made: ConnId): seq<ConnId> {
    seq(|slots|, i requires 0 <= i < |slots| => if slots[i] == c then made else slots[i])
  }

  /** The locked end of release: back into the queue, replaced, or given up. */
  function Returned(p: Pool, c: ConnId, made: ConnId, connects: bool): Pool
    requires c in p.returning
  {
    var q := p.(returning := p.returning - {c});
    if p.returning[c] then
      if p.locked.started then q.(locked := q.locked.(idle := q.locked.idle + [c])) else q
    else if connects && p.locked.started && c in p.locked.slots then
      q.(locked := q.locked.(slots := Replaced(q.locked.slots, c, made), idle := q.locked.idle + [made]),
         conns := q.conns[made := NEW_CONN])
    else
      q.(failures := q.failures + 1, lost := if c in p.locked.slots then q.lost + {c} else q.lost)
  }

  function Apply(p: Pool, step: Step): Pool
    requires Enabled(p, step)
  {
    match step
    case Start(made) => Opened(p, made)
    case Stop => p.(locked := Locked(false, [], []), conns := ClosedAll(p.conns, p.locked.slots), lost := {})
    case Acquire(g) =>
      p.(locked := p.locked.(idle := p.locked.idle[1..]), held := p.held[g := p.locked.idle[0]])
    case Move(g, to) => p.(held := (p.held - {g})[to := p.held[g]])
    case Use(g, conn) => p.(conns := p.conns[p.held[g] := conn])
    case Reset(g, driver) =>
      var c := p.held[g];
      var q := p.(held := p.held - {g});
      if driver.ForeignException? then
        q.(strays := q.strays + 1, lost := if c in p.locked.slots then q.lost + {c} else q.lost)
      else
        var (d, ok) := ResetSafe(p.conns[c], driver);
        q.(conns := q.conns[c := d], returning := q.returning[c := ok && !d.broken])
    case Return(c, made, connects) => Returned(p, c, made, connects)
  }

  // ---------------------------------------------------------------------------------------------
  // What every step keeps

  /** Owned by a guard, or by a release in progress. */
  predicate Out(p: Pool, c: ConnId) {
    c in p.held.Values || c in p.returning
  }

  /** Every connection is known, no guard shares one, and none is in two places. */
  ghost predicate PlacesOk(p: Pool) {
    && (forall g, h :: g in p.held && h in p.held && p.held[g] == p.held[h] ==> g == h)
    && (forall g :: g in p.held ==> p.held[g] in p.conns && p.held[g] !in p.returning)
    && (forall c :: c in p.returning ==> c in p.conns)
    && Distinct(p.locked.idle) && Distinct(p.locked.slots)
    && (forall c :: c in p.locked.idle ==> c in p.conns && !Out(p, c) && c !in p.lost)
    && (forall c :: c in p.lost ==> c in p.conns && !Out(p, c))
  }

  /** While the pool runs, a slot's connection is idle, out or lost, and nothing else is. */
  ghost predicate SlotsOk(p: Pool) {
    && (!p.locked.started ==> p.locked == Locked(false, [], []) && p.lost == {})
    && (p.locked.started ==>
          forall c :: c in p.locked.slots <==> c in p.locked.idle || Out(p, c) || c in p.lost)
  }

  ghost predicate IdleClean(p: Pool) {
    && (forall c :: c in p.locked.idle ==> c in p.conns && Clean(p.conns[c]))
    && (forall c :: c in p.returning && p.returning[c] ==> c in p.conns && Clean(p.conns[c]))
  }

  ghost predicate Inv(p: Pool) {
    PlacesOk(p) && SlotsOk(p) && IdleClean(p) && |p.lost| <= p.failures + p.strays
  }

  /** A restart is clean when no guard and no release from before is still out. */
  predicate NoneOut(p: Pool) {
    p.held == map[] && p.returning == map[]
  }

  lemma AcquireKeepsInv(p: Pool, g: GuardId)
    requires Inv(p) && Enabled(p, Acquire(g))
    ensures Inv(Apply(p, Acquire(g)))
  {
    var r := Apply(p, Acquire(g));
    var c, rest := p.locked.idle[0], p.locked.idle[1..];
    assert p.locked.idle == [c] + rest;
    assert r.held[g] == c;
    forall d ensures Out(r, d) <==> Out(p, d) || d == c {
      HeldAfterAdd(p.held, g, c, d);
    }
  }

  lemma HeldAfterAdd(held: map<GuardId, ConnId>, g: GuardId, c: ConnId, d: ConnId)
    requires g !in held
    ensures d in held[g := c].Values <==> d in held.Values || d == c
  {
    var r := held[g := c];
    if d in held.Values {
      var h :| h in held && held[h] == d;
      assert r[h] == d;
    }
    assert r[g] == c;
  }

  lemma HeldAfterDrop(held: map<GuardId, ConnId>, g: GuardId, d: ConnId)
    requires g in held && forall h :: h in held && held[h] == held[g] ==> h == g
    ensures d in (held - {g}).Values <==> d in held.Values && d != held[g]
  {
    var r := held - {g};
    if d in held.Values && d != held[g] {
      var h :| h in held && held[h] == d;
      assert h in r && r[h] == d;
    }
  }

  lemma MoveKeepsInv(p: Pool, g: GuardId, to: GuardId)
    requires Inv(p) && Enabled(p, Move(g, to))
    ensures Inv(Apply(p, Move(g, to)))
    ensures var r := Apply(p, Move(g, to));
            && g !in r.held && to in r.held && r.held[to] == p.held[g] && r == p.(held := r.held)
            && forall h :: h !in {g, to} ==> (h in r.held <==> h in p.held) && (h in p.held ==> r.held[h] == p.held[h])
  {
    var r := Apply(p, Move(g, to));
    forall d ensures Out(r, d) <==> Out(p, d) {
      HeldAfterDrop(p.held, g, d);
      HeldAfterAdd(p.held - {g}, to, p.held[g], d);
      assert p.held[g] in p.held.Values;
    }
  }

  lemma UseKeepsInv(p: Pool, g: GuardId, conn: Conn)
    requires Inv(p) && Enabled(p, Use(g, conn))
    ensures Inv(Apply(p, Use(g, conn)))
  {
    var r := Apply(p, Use(g, conn));
    assert p.held[g] in p.held.Values;
    assert Out(p, p.held[g]);
    forall d ensures Out(r, d) <==> Out(p, d) {}
  }

  lemma ResetKeepsInv(p: Pool, g: GuardId, driver: Driver)
    requires Inv(p) && Enabled(p, Reset(g, driver))
    ensures Inv(Apply(p, Reset(g, driver)))
  {
    var r, c := Apply(p, Reset(g, driver)), p.held[g];
    assert c in p.held.Values;
    assert Out(p, c);
    ReusableIsClean(p.conns[c], driver);
    forall d ensures d in r.held.Values <==> d in p.held.Values && d != c {
      HeldAfterDrop(p.held, g, d);
    }
    forall d ensures Out(r, d) <==> Out(p, d) && (d != c || !driver.ForeignException?) {}
  }

  lemma ReplacedFacts(slots: seq<ConnId>, c: ConnId, made: ConnId)
    requires Distinct(slots) && made !in slots && c in slots
    ensures Distinct(Replaced(slots, c, made))
    ensures forall d :: d in Replaced(slots, c, made) <==> (d in slots && d != c) || d == made
  {
    var r := Replaced(slots, c, made);
    var k :| 0 <= k < |slots| && slots[k] == c;
    assert r[k] == made;
    forall d | d in slots && d != c ensures d in r {
      var i :| 0 <= i < |slots| && slots[i] == d;
      assert r[i] == d;
    }
  }

  lemma ReturnReusable(p: Pool, c: ConnId, made: ConnId, connects: bool)
    requires Inv(p) && Enabled(p, Return(c, made, connects)) && p.returning[c] && c !in p.held.Values
    requires SlotsKnown(p)
    ensures Inv(Returned(p, c, made, connects))
  {
    assert Out(p, c);
  }

  lemma ReturnReplaced(p: Pool, c: ConnId, made: ConnId)
    requires Inv(p) && Enabled(p, Return(c, made, true)) && !p.returning[c] && c !in p.held.Values
    requires p.locked.started && c in p.locked.slots && made !in p.locked.slots
    ensures Inv(Returned(p, c, made, true))
  {
    ReplacedFacts(p.locked.slots, c, made);
    assert Out(p, c);
    forall d | d in p.locked.idle ensures d != made && d != c {}
  }

  lemma ReturnGivenUp(p: Pool, c: ConnId, made: ConnId, connects: bool)
    requires Inv(p) && Enabled(p, Return(c, made, connects)) && !p.returning[c] && c !in p.held.Values
    requires !(connects && p.locked.started && c in p.locked.slots)
    ensures Inv(Returned(p, c, made, connects))
  {
    assert Out(p, c);
  }

  ghost predicate SlotsKnown(p: Pool) {
    forall c :: c in p.locked.slots ==> c in p.conns
  }

  lemma ReturnKeepsInv(p: Pool, c: ConnId, made: ConnId, connects: bool)
    requires Inv(p) && Enabled(p, Return(c, made, connects))
    ensures Inv(Returned(p, c, made, connects))
  {
    assert forall g :: g in p.held ==> p.held[g] != c;
    assert c !in p.held.Values;
    assert SlotsKnown(p);
    if p.returning[c] {
      ReturnReusable(p, c, made, connects);
    } else if connects && p.locked.started && c in p.locked.slots {
      ReturnReplaced(p, c, made);
    } else {
      ReturnGivenUp(p, c, made, connects);
    }
  }

  /** Starting keeps the pool sound exactly when nothing from an earlier start is still out. */
  lemma StartKeepsInv(p: Pool, made: seq<ConnId>)
    requires Inv(p) && Enabled(p, Start(made))
    ensures Inv(Opened(p, made)) <==> NoneOut(p)
  {
  }

  lemma StepKeepsInv(p: Pool, step: Step)
    requires Inv(p) && Enabled(p, step) && (step.Start? ==> NoneOut(p))
    ensures Inv(Apply(p, step))
  {
    match step
    case Start(made) => StartKeepsInv(p, made);
    case Stop =>
    case Acquire(g) => AcquireKeepsInv(p, g);
    case Move(g, to) => MoveKeepsInv(p, g, to);
    case Use(g, conn) => UseKeepsInv(p, g, conn);
    case Reset(g, driver) => ResetKeepsInv(p, g, driver);
    case Return(c, made, connects) => ReturnKeepsInv(p, c, made, connects);
  }

  /** The place of a connection in the slots. */
  predicate InPlaceOf(slots: seq<ConnId>, r: seq<ConnId>, c: ConnId, made: ConnId) {
    |r| == |slots| && forall i :: 0 <= i < |slots| ==> r[i] == if slots[i] == c then made else slots[i]
  }

  /** A guard that gives up its connection refills the running pool: with the connection itself when the driver could
      reset it, else with a new one in the same slot when that connects. Only when neither works is one connection
      fewer ready, and that is counted. */
  lemma ReleaseRefills(p: Pool, g: GuardId, driver: Driver, spare: ConnId, connects: bool)
    requires Inv(p) && p.locked.started && g in p.held && !driver.ForeignException? && spare !in p.conns
    ensures var c, q := p.held[g], Apply(p, Reset(g, driver));
            && Enabled(q, Return(c, spare, connects)) && c in p.locked.slots
            && var r := Apply(q, Return(c, spare, connects));
               && g !in r.held && c !in r.returning
               && if ResetWorks(p.conns[c], driver) then
                    && r.locked.idle == p.locked.idle + [c] && r.locked.slots == p.locked.slots && Clean(r.conns[c])
                    && r.failures == p.failures
                  else if connects then
                    && r.locked.idle == p.locked.idle + [spare] && InPlaceOf(p.locked.slots, r.locked.slots, c, spare)
                    && r.conns[spare] == NEW_CONN && r.failures == p.failures
                  else
                    && r.locked.idle == p.locked.idle && r.locked.slots == p.locked.slots && c in r.lost
                    && r.failures == p.failures + 1
  {
    var c := p.held[g];
    assert c in p.held.Values;
    assert Out(p, c);
  }

  /** The connection is unbroken and the driver can end what it is in. */
  predicate ResetWorks(c: Conn, driver: Driver) {
    !c.broken && driver.Works? && (c.inTransaction ==> c.connected)
  }

  // ---------------------------------------------------------------------------------------------
  // Every run whose restarts wait for the guards

  ghost predicate Next(p: Pool, r: Pool) {
    exists step :: Enabled(p, step) && (step.Start? ==> NoneOut(p)) && Apply(p, step) == r
  }

  ghost predicate IsRun(pools: seq<Pool>) {
    |pools| > 0 && pools[0] == INIT && forall i :: 0 <= i < |pools| - 1 ==> Next(pools[i], pools[i + 1])
  }

  lemma {:induction false} RunKeepsInv(pools: seq<Pool>, n: nat)
    requires IsRun(pools) && n < |pools|
    ensures Inv(pools[n])
  {
    if n > 0 {
      RunKeepsInv(pools, n - 1);
      assert Next(pools[n - 1], pools[n - 1 + 1]);
      var step :| Enabled(pools[n - 1], step) && (step.Start? ==> NoneOut(pools[n - 1]))
                  && Apply(pools[n - 1], step) == pools[n];
      StepKeepsInv(pools[n - 1], step);
    }
  }

  function Outs(p: Pool): set<ConnId> {
    p.held.Values + p.returning.Keys
  }

  function Members(s: seq<ConnId>): set<ConnId> {
    set i | 0 <= i < |s| :: s[i]
  }

  lemma {:induction false} MembersCount(s: seq<ConnId>)
    requires Distinct(s)
    ensures |Members(s)| == |s| && forall c :: c in Members(s) <==> c in s
    decreases |s|
  {
    if s != [] {
      var front, last := s[..|s| - 1], s[|s| - 1];
      MembersCount(front);
      assert forall c :: c in s <==> c in front || c == last;
      assert Members(s) == Members(front) + {last};
    }
  }

  /** While the pool runs, each of its connections is idle, out with exactly one owner, or lost, and the three add up;
      no more are lost than replacements failed or releases were cut short. */
  lemma ConnectionsAddUp(pools: seq<Pool>, n: nat)
    requires IsRun(pools) && n < |pools| && pools[n].locked.started
    ensures var p := pools[n];
            |p.locked.slots| == |p.locked.idle| + |Outs(p)| + |p.lost| && |p.lost| <= p.failures + p.strays
  {
    var p := pools[n];
    RunKeepsInv(pools, n);
    MembersCount(p.locked.slots);
    MembersCount(p.locked.idle);
    assert forall c :: c in Outs(p) <==> Out(p, c);
    AddUp(Members(p.locked.slots), Members(p.locked.idle), Outs(p), p.lost);
  }

  lemma AddUp(all: set<ConnId>, a: set<ConnId>, b: set<ConnId>, c: set<ConnId>)
    requires a !! b !! c && forall x :: x in all <==> x in a || x in b || x in c
    ensures |all| == |a| + |b| + |c|
  {
    assert all == a + b + c;
  }

  /** No connection has two guards or is idle while it is out, and what is idle is unbroken and outside any
      transaction. */
  lemma HandedOutOnce(pools: seq<Pool>, n: nat, c: ConnId)
    requires IsRun(pools) && n < |pools|
    ensures var p := pools[n];
            && (forall g, h :: g in p.held && h in p.held && p.held[g] == c && p.held[h] == c ==> g == h)
            && (c in p.locked.idle ==> !Out(p, c) && c in p.conns && Clean(p.conns[c]))
  {
    RunKeepsInv(pools, n);
  }

  /** Otherwise a guard from before the restart puts back a connection that is in no slot. */
  lemma RestartWithGuardOut(p: Pool, g: GuardId, made: seq<ConnId>, spare: ConnId)
    requires Inv(p) && !p.locked.started && g in p.held && Clean(p.conns[p.held[g]])
    requires Enabled(p, Start(made)) && spare !in Opened(p, made).conns
    ensures var q := Opened(p, made);
            Enabled(q, Reset(g, Works)) && Enabled(Apply(q, Reset(g, Works)), Return(p.held[g], spare, true))
    ensures var r := Apply(Apply(Opened(p, made), Reset(g, Works)), Return(p.held[g], spare, true));
            p.held[g] in r.locked.idle && p.held[g] !in r.locked.slots
  {
  }

  ghost predicate AnyNext(p: Pool, r: Pool) {
    exists step :: Enabled(p, step) && Apply(p, step) == r
  }

  /** A run whose restarts do not wait. */
  ghost predicate IsAnyRun(pools: seq<Pool>) {
    |pools| > 0 && pools[0] == INIT && forall i :: 0 <= i < |pools| - 1 ==> AnyNext(pools[i], pools[i + 1])
  }

  lemma Extend(pools: seq<Pool>, step: Step) returns (more: seq<Pool>)
    requires IsAnyRun(pools) && Enabled(pools[|pools| - 1], step)
    ensures IsAnyRun(more) && more[|more| - 1] == Apply(pools[|pools| - 1], step)
  {
    var p := pools[|pools| - 1];
    var r := Apply(p, step);
    assert AnyNext(p, r);
    more := pools + [r];
    forall i | 0 <= i < |more| - 1 ensures AnyNext(more[i], more[i + 1]) {
      if i < |pools| - 1 {
        assert AnyNext(pools[i], pools[i + 1]);
      }
    }
  }

  /** The pool is started, a guard takes a connection, and the pool is stopped under it. */
  lemma StopUnderGuard(made: seq<ConnId>, g: GuardId) returns (pools: seq<Pool>)
    requires made != [] && Distinct(made)
    ensures IsAnyRun(pools)
    ensures var p := pools[|pools| - 1];
            && Inv(p) && !p.locked.started && p.held == map[g := made[0]] && p.returning == map[]
            && (forall c :: c in p.conns <==> c in made) && p.conns[made[0]] == NEW_CONN.(connected := false)
  {
    pools := [INIT];
    pools := Extend(pools, Start(made));
    var p1 := pools[|pools| - 1];
    pools := Extend(pools, Acquire(g));
    AcquireKeepsInv(p1, g);
    var p2 := pools[|pools| - 1];
    assert p2.held == map[g := made[0]];
    pools := Extend(pools, Stop);
  }

  /** Such a state is reached from the start, for any two sets of connections: the holder's next query connects again,
      and the guard puts the first of the old connections back into the queue, in use and in no slot. */
  lemma RestartIsReached(made: seq<ConnId>, again: seq<ConnId>, g: GuardId, spare: ConnId) returns (pools: seq<Pool>)
    requires made != [] && Distinct(made) && Distinct(again)
    requires spare !in made && spare !in again && forall c :: c in again ==> c !in made
    ensures IsAnyRun(pools)
    ensures var r := pools[|pools| - 1];
            && r.locked.started && made[0] in r.locked.idle && made[0] !in r.locked.slots
            && made[0] in r.conns && r.conns[made[0]] == NEW_CONN
  {
    pools := StopUnderGuard(made, g);
    UseKeepsInv(pools[|pools| - 1], g, NEW_CONN);
    pools := Extend(pools, Use(g, NEW_CONN));
    var p := pools[|pools| - 1];
    RestartWithGuardOut(p, g, again, spare);
    pools := Extend(pools, Start(again));
    pools := Extend(pools, Reset(g, Works));
    pools := Extend(pools, Return(made[0], spare, true));
  }

  // ---------------------------------------------------------------------------------------------
  // The class

  class SqlConnectionPool {
    var p: Pool

    constructor ()
      ensures p == INIT
    {
      p := INIT;
    }

    /** Connects one connection after the other, and gives all of them up when one fails. */
    method StartPool(made: seq<ConnId>, connects: seq<bool>) returns (ok: bool)
      requires Distinct(made) && |connects| == |made| && forall c :: c in made ==> c !in p.conns
      requires !p.locked.started ==> p.locked == Locked(false, [], [])
      modifies this
      ensures ok <==> old(p).locked.started || forall i :: 0 <= i < |made| ==> connects[i]
      ensures p == if ok && !old(p).locked.started then Opened(old(p), made) else old(p)
      ensures ok && !old(p).locked.started ==> p.locked == Locked(true, made, made) && p.held == old(p).held
      ensures ok && !old(p).locked.started ==>
                forall c :: c in made && c !in old(p).conns ==> c in p.conns && p.conns[c] == NEW_CONN
      ensures forall c :: c in old(p).conns ==> c in p.conns && p.conns[c] == old(p).conns[c]
    {
      if p.locked.started {
        return true;
      }
      for i := 0 to |made|
        invariant forall j :: 0 <= j < i ==> connects[j]
        invariant p == old(p).(locked := Locked(false, made[..i], made[..i]))
      {
        if !connects[i] {
          p := p.(locked := Locked(false, [], []));
          return false;
        }
        p := p.(locked := p.locked.(idle := p.locked.idle + [made[i]], slots := p.locked.slots + [made[i]]));
      }
      p := Opened(p, p.locked.slots);
      ok := true;
      assert made[..|made|] == made;
    }

    method StopPool()
      modifies this
      ensures p == Apply(old(p), Stop)
      ensures p.locked == Locked(false, [], []) && p.held == old(p).held && p.conns.Keys == old(p).conns.Keys
      ensures forall c :: c in p.conns ==>
                p.conns[c] == if c in old(p).locked.slots then old(p).conns[c].(connected := false) else old(p).conns[c]
    {
      for i := 0 to |p.locked.slots|
        invariant p == old(p).(conns := ClosedAll(old(p).conns, old(p).locked.slots[..i]))
      {
        var c := p.locked.slots[i];
        assert old(p).locked.slots[..i + 1] == old(p).locked.slots[..i] + [c];
        if c in p.conns {
          p := p.(conns := p.conns[c := p.conns[c].(connected := false)]);
        }
      }
      assert old(p).locked.slots[..|old(p).locked.slots|] == old(p).locked.slots;
      p := p.(locked := p.locked.(idle := []));
      p := p.(locked := p.locked.(slots := []));
      p := p.(locked := p.locked.(started := false), lost := {});
    }

    /** A guard, with a connection unless the wait timed out or the pool is stopped. */
    method AcquireFor(g: GuardId, timedOut: bool) returns (c: Option<ConnId>)
      requires g !in p.held
      modifies this
      ensures c.Some? <==> !timedOut && p.locked.started && old(p).locked.idle != []
      ensures c.Some? ==> Enabled(old(p), Acquire(g)) && p == Apply(old(p), Acquire(g)) && p.held[g] == c.value
      ensures c.Some? ==>
                && c.value == old(p).locked.idle[0] && p.locked.idle == old(p).locked.idle[1..]
                && p.locked.slots == old(p).locked.slots && p.conns == old(p).conns
                && p.held == old(p).held[g := c.value]
      ensures c.None? ==> p == old(p)
    {
      if timedOut || !p.locked.started || p.locked.idle == [] {
        return None;
      }
      var first := p.locked.idle[0];
      p := p.(locked := p.locked.(idle := p.locked.idle[1..]), held := p.held[g := first]);
      c := Some(first);
    }

    /** The search of replaceConnection for the slot of the old connection. */
    method FindSlot(c: ConnId) returns (i: nat)
      ensures i <= |p.locked.slots| && (i < |p.locked.slots| <==> c in p.locked.slots)
      ensures i < |p.locked.slots| ==> p.locked.slots[i] == c
    {
      i := 0;
      while i < |p.locked.slots| && p.locked.slots[i] != c
        invariant i <= |p.locked.slots| && c !in p.locked.slots[..i]
      {
        i := i + 1;
      }
      assert p.locked.slots == p.locked.slots[..i] + p.locked.slots[i..];
    }

    /** The first half of release, outside the lock. A foreign exception ends the release here. */
    method ResetHeld(g: GuardId, driver: Driver)
      requires g in p.held && p.held[g] in p.conns
      modifies this
      ensures p == Apply(old(p), Reset(g, driver))
    {
      var c := p.held[g];
      p := p.(held := p.held - {g});
      if driver.ForeignException? {
        p := p.(strays := p.strays + 1, lost := if c in p.locked.slots then p.lost + {c} else p.lost);
        return;
      }
      var (d, ok) := ResetSafe(p.conns[c], driver);
      p := p.(conns := p.conns[c := d], returning := p.returning[c := ok && !d.broken]);
    }

    /** The second half: back into the queue, or replaced by a new connection in the same slot. */
    method ReturnConn(c: ConnId, spare: ConnId, connects: bool)
      requires c in p.returning && Distinct(p.locked.slots)
      modifies this
      ensures p == Returned(old(p), c, spare, connects)
    {
      var reusable := p.returning[c];
      p := p.(returning := p.returning - {c});
      if reusable {
        if p.locked.started {
          p := p.(locked := p.locked.(idle := p.locked.idle + [c]));
        }
        return;
      }
      var i := FindSlot(c);
      if connects && p.locked.started && i < |p.locked.slots| {
        p := p.(locked := p.locked.(slots := p.locked.slots[i := spare], idle := p.locked.idle + [spare]),
                conns := p.conns[spare := NEW_CONN]);
      } else {
        p := p.(failures := p.failures + 1, lost := if i < |p.locked.slots| then p.lost + {c} else p.lost);
      }
    }
  }

}
