/** What holds in every run of the steps of module ConnectionSteps, with any reuse of fds: when a request that comes
    back still resolves, what a connection can count on, and what the atomic removal is needed for. */
module Connections {

  import opened Collections
  import Sessions
  import opened ConnectionSteps

  ghost predicate Next(s: State, r: State) {
    exists step :: Enabled(s, step) && Apply(s, step) == r
  }

  ghost predicate IsRun(states: seq<State>) {
    |states| > 0 && forall i :: 0 <= i < |states| - 1 ==> Next(states[i], states[i + 1])
  }

  ghost predicate Reachable(s: State) {
    exists states: seq<State> :: IsRun(states) && states[0] == INIT && states[|states| - 1] == s
  }

  lemma {:induction false} RunKeepsInv(states: seq<State>, n: nat)
    requires IsRun(states) && Inv(states[0]) && n < |states|
    ensures Inv(states[n])
  {
    if n > 0 {
      RunKeepsInv(states, n - 1);
      assert Next(states[n - 1], states[n - 1 + 1]);
      var step :| Enabled(states[n - 1], step) && Apply(states[n - 1], step) == states[n];
      StepKeepsInv(states[n - 1], step);
    }
  }

  lemma ReachableIsGood(s: State)
    requires Reachable(s)
    ensures Inv(s)
  {
    var states: seq<State> :| IsRun(states) && states[0] == INIT && states[|states| - 1] == s;
    RunKeepsInv(states, |states| - 1);
  }

  /** A context that was ever issued resolves exactly while the connection that issued it is open, is still the one
      registered under its key, and the session there carries the same account. The session was made by that very
      connection, and an account that is not blank is bound to it. */
  lemma ResolvesOnlyForItsConnection(s: State, ctx: Context)
    requires Reachable(s) && ctx in s.issued
    ensures Resolves(s, ctx) <==>
      && ctx.key in s.net.registered && s.net.registered[ctx.key] == ctx.conn
      && ctx.conn in s.net.conns && s.net.conns[ctx.conn].connected
      && ctx.key in s.table.sessions && s.table.sessions[ctx.key].account == ctx.account
    ensures Resolves(s, ctx) ==> ctx.key in s.maker && s.maker[ctx.key] == ctx.conn
    ensures Resolves(s, ctx) && ctx.account != "" ==> Sessions.IsBound(s.table, ctx.key, ctx.account)
  {
    ReachableIsGood(s);
    assert ConnOk(s.net, ctx.conn);
    if Resolves(s, ctx) && ctx.account != "" {
      assert Sessions.IsAuthed(s.table, ctx.key, ctx.account);
    }
  }

  /** Sessions exist only under registered fds. */
  lemma SessionsAreRegistered(s: State)
    requires Reachable(s)
    ensures forall key :: key in s.table.sessions ==> key in s.net.registered
    ensures forall key :: key in s.table.connAccount ==> key in s.net.registered
  {
    ReachableIsGood(s);
    forall key | key in s.table.connAccount ensures key in s.table.sessions {
      assert Sessions.IsBound(s.table, key, s.table.connAccount[key]);
    }
  }

  /** A connection that is added overwrites nobody and finds no session under its fd. */
  lemma NewConnectionStartsClean(s: State, c: ConnId)
    requires Reachable(s) && Enabled(s, RunAdd(c))
    ensures var fd := Fd(s.net.conns[c]);
            fd !in s.net.registered && fd !in s.table.sessions && fd !in s.table.connAccount
  {
    ReachableIsGood(s);
    assert ConnOk(s.net, c);
    OnlyOwnFd(s.net, c);
    SessionsAreRegistered(s);
  }

  /** The registry never holds a socket that is closed, nor one socket twice. */
  lemma RegistryHoldsOpenSockets(s: State, fd: int)
    requires Reachable(s) && fd in s.net.registered
    ensures var c := s.net.registered[fd];
            c in s.net.conns && s.net.conns[c].open && s.net.conns[c].alive && Fd(s.net.conns[c]) == fd
  {
    ReachableIsGood(s);
    assert ConnOk(s.net, s.net.registered[fd]);
  }

  /** No socket is forgotten: an open fd that is not on its way to a connection belongs to exactly one. That one waits
      to be added, or is registered and, once closed, on its way to removal, or is on its way to destruction, or was
      never established and goes with its last holder. */
  lemma NoSocketIsForgotten(s: State, fd: int) returns (c: ConnId)
    requires Reachable(s) && fd in s.net.openFds && fd !in s.net.tasks.creating
    ensures OwnsFd(s.net, c, fd) && forall d :: OwnsFd(s.net, d, fd) ==> d == c
    ensures var k := s.net.conns[c];
            match k.stage
            case New => c in s.net.tasks.adding
            case Added =>
              fd in s.net.registered && s.net.registered[fd] == c && (k.connected || c in s.net.tasks.removing)
            case Rejected => k.connected || c in s.net.tasks.removing
            case Removed => c in s.net.tasks.destroying || !k.established
  {
    ReachableIsGood(s);
    c :| OwnsFd(s.net, c, fd);
    assert ConnOk(s.net, c);
    assert Leaving(s.net, c);
  }

  // ---------------------------------------------------------------------------------------------
  // What a connection can count on

  lemma ReachableStep(s: State, step: Step)
    requires Reachable(s) && Enabled(s, step)
    ensures Reachable(Apply(s, step))
  {
    var states: seq<State> :| IsRun(states) && states[0] == INIT && states[|states| - 1] == s;
    var more := states + [Apply(s, step)];
    forall i | 0 <= i < |more| - 1 ensures Next(more[i], more[i + 1]) {
      if i == |states| - 1 {
        assert Next(s, Apply(s, step));
      } else {
        assert Next(states[i], states[i + 1]);
      }
    }
    assert IsRun(more) && more[0] == INIT && more[|more| - 1] == Apply(s, step);
  }

  /** While the server is not stopping, a socket that is accepted gets, by the steps that are queued for it, to a
      registered connection whose messages are served. */
  lemma AcceptedIsServed(s: State, fd: int, c: ConnId) returns (r: State)
    requires Reachable(s) && !s.net.stopping && Enabled(s, Accept(fd)) && c !in s.net.conns
    ensures Reachable(r) && r.table == s.table && CanServe(r.net, c)
    ensures r.net.registered == s.net.registered[fd := c] && fd !in s.net.registered
  {
    ReachableIsGood(s);
    forall f | f in s.net.registered ensures f in s.net.openFds {
      assert ConnOk(s.net, s.net.registered[f]);
    }
    ReachableStep(s, Accept(fd));
    var s1 := Apply(s, Accept(fd));
    ReachableStep(s1, RunCreate(fd, c));
    var s2 := Apply(s1, RunCreate(fd, c));
    ReachableStep(s2, RunAdd(c));
    var s3 := Apply(s2, RunAdd(c));
    ReachableStep(s3, RunEstablish(c));
    r := Apply(s3, RunEstablish(c));
  }

  /** A registered connection that closes gets, by the steps that are queued for it, out of the registry, its socket
      closed and its session and binding gone; no other connection notices. */
  lemma ClosedIsGone(s: State, c: ConnId) returns (r: State)
    requires Reachable(s) && Enabled(s, Close(c)) && s.net.conns[c].stage == Added
    ensures Reachable(r)
    ensures var fd := s.net.conns[c].fd;
            && r.net.registered == s.net.registered - {fd} && r.net.openFds == s.net.openFds - {fd}
            && r.table == Sessions.Disconnected(s.table, fd) && fd !in r.table.sessions && fd !in r.table.connAccount
            && forall d :: d in s.net.conns && d != c ==> d in r.net.conns && r.net.conns[d] == s.net.conns[d]
  {
    ReachableIsGood(s);
    assert ConnOk(s.net, c);
    ReachableStep(s, Close(c));
    var s1 := Apply(s, Close(c));
    ReachableStep(s1, RunRemove(c));
    var s2 := Apply(s1, RunRemove(c));
    ReachableStep(s2, RunDestroy(c));
    r := Apply(s2, RunDestroy(c));
    Sessions.DisconnectKeepsConsistent(s.table, s.net.conns[c].fd);
  }

  /** A request resolves at the moment it is issued. */
  lemma IssuedResolvesAtOnce(s: State, c: ConnId)
    requires Reachable(s) && Enabled(s, Issue(c))
    ensures var r, fd := Apply(s, Issue(c)), s.net.conns[c].fd;
            fd in s.table.sessions && Context(c, fd, s.table.sessions[fd].account) in r.issued
            && Resolves(r, Context(c, fd, s.table.sessions[fd].account))
  {
    ReachableIsGood(s);
  }

  predicate NetShrinks(n: Net, r: Net) {
    && r.stopping && r.openFds <= n.openFds && r.conns.Keys == n.conns.Keys
    && r.registered.Keys <= n.registered.Keys
  }

  /** From one state to a later one, nothing was taken in. */
  predicate NothingTakenIn(s: State, r: State) {
    NetShrinks(s.net, r.net) && r.issued == s.issued
  }

  lemma StoppingLets(n: Net, c: ConnId)
    requires n.stopping && c in n.conns
    ensures NetShrinks(n, DestroyedConn(n, c)) && NetShrinks(n, DroppedConn(n, c))
  {
  }

  lemma StoppingStep(s: State, step: Step)
    requires Enabled(s, step) && s.net.stopping
    ensures NothingTakenIn(s, Apply(s, step))
  {
    match step
    case RunDestroy(c) => StoppingLets(s.net, c);
    case Drop(c) => StoppingLets(s.net, c);
    case _ =>
  }

  lemma StoppingNext(s: State, r: State)
    requires Next(s, r) && s.net.stopping
    ensures NothingTakenIn(s, r)
  {
    var step :| Enabled(s, step) && Apply(s, step) == r;
    StoppingStep(s, step);
  }

  predicate StoppedAt(states: seq<State>, k: nat)
    requires k + 1 < |states|
  {
    states[k].net.stopping ==> NothingTakenIn(states[k], states[k + 1])
  }

  lemma StoppingAt(states: seq<State>, k: nat)
    requires IsRun(states) && k + 1 < |states|
    ensures StoppedAt(states, k)
  {
    if states[k].net.stopping {
      StoppingNext(states[k], states[k + 1]);
    }
  }

  lemma {:induction false} StoppingFrom(states: seq<State>, i: nat, j: nat)
    requires forall k: nat :: k + 1 < |states| ==> StoppedAt(states, k)
    requires i <= j < |states| && states[i].net.stopping
    ensures NothingTakenIn(states[i], states[j])
    decreases j
  {
    if i < j {
      StoppingFrom(states, i, j - 1);
      assert StoppedAt(states, j - 1);
    }
  }

  /** Once the server is stopping it takes in nothing more: no socket, no connection, no registration, no request. */
  lemma StoppingTakesNothingIn(states: seq<State>, i: nat, j: nat)
    requires IsRun(states) && i <= j < |states| && states[i].net.stopping
    ensures NothingTakenIn(states[i], states[j])
  {
    forall k: nat | k + 1 < |states| ensures StoppedAt(states, k) {
      StoppingAt(states, k);
    }
    StoppingFrom(states, i, j);
  }

  // ---------------------------------------------------------------------------------------------
  // Without the atomic removal

  /** The destroy task overtakes onDisconnect, which then reads -1. */
  function RacedRemoval(s: State, c: ConnId): State
    requires c in s.net.conns
  {
    var n := DestroyedConn(RemovedConn(s.net, c), c);
    s.(net := n, table := Sessions.Disconnected(s.table, Fd(n.conns[c])), maker := s.maker - {Fd(n.conns[c])})
  }

  /** Then the session survives its connection: the subset property is kept exactly when there was none. */
  lemma RacedRemovalLeavesSession(s: State, c: ConnId)
    requires Reachable(s) && Enabled(s, RunRemove(c))
    ensures SessionsRegistered(RacedRemoval(s, c)) <==> s.net.conns[c].fd !in s.table.sessions
  {
    ReachableIsGood(s);
    assert ConnOk(s.net, c);
    RacedLeaves(s, c);
  }

  lemma RacedLeaves(s: State, c: ConnId)
    requires SessionsRegistered(s) && c in s.net.conns && s.net.conns[c].open && s.net.conns[c].fd >= 0
    requires -1 !in s.table.sessions
    ensures SessionsRegistered(RacedRemoval(s, c)) <==> s.net.conns[c].fd !in s.table.sessions
  {
    var r := RacedRemoval(s, c);
    assert r.table.sessions == s.table.sessions - {-1};
    assert r.net.registered == s.net.registered - {s.net.conns[c].fd};
  }

  /** A served connection without a session can log in and close, and is then on its way to removal with a session. */
  lemma LogInAndClose(s: State, c: ConnId, u: Sessions.User) returns (r: State)
    requires Reachable(s) && CanServe(s.net, c) && s.net.conns[c].open && s.net.conns[c].fd !in s.table.sessions
    requires s.net.conns[c].stage == Added
    ensures Reachable(r) && r.net == Closed(s.net, c) && Sessions.IsAuthed(r.table, s.net.conns[c].fd, u.account)
  {
    var login := Step.Serve(c, Sessions.LogIn(Some(u)));
    ReachableStep(s, login);
    var s1 := Apply(s, login);
    LoggedInIsAuthed(s.table, s.net.conns[c].fd, u);
    ReachableStep(s1, Close(c));
    r := Apply(s1, Close(c));
  }

  /** From every reachable state of a server that is not stopping, for every socket and every user, a session can stand
      under the fd of a connection whose removal is queued: accepted, logged in, closed. The race then breaks the
      property. */
  lemma RemovalMeetsSession(s: State, fd: int, c: ConnId, u: Sessions.User) returns (r: State)
    requires Reachable(s) && !s.net.stopping && Enabled(s, Accept(fd)) && c !in s.net.conns
    ensures Reachable(r) && !r.net.stopping && Enabled(r, RunRemove(c))
    ensures r.net.conns[c].fd == fd && r.net.conns[c].stage == Added && Sessions.IsAuthed(r.table, fd, u.account)
    ensures !SessionsRegistered(RacedRemoval(r, c))
  {
    SessionsAreRegistered(s);
    var s1 := AcceptedIsServed(s, fd, c);
    ReachableIsGood(s1);
    SocketOf(s1, fd, c);
    r := LogInAndClose(s1, c, u);
    RacedRemovalLeavesSession(r, c);
  }

  lemma SocketOf(s: State, fd: int, c: ConnId)
    requires Inv(s) && fd in s.net.registered && s.net.registered[fd] == c
    ensures c in s.net.conns && s.net.conns[c].fd == fd && s.net.conns[c].open
  {
    assert ConnOk(s.net, c);
  }

  lemma LoggedInIsAuthed(t: Sessions.Table, key: Sessions.Key, u: Sessions.User)
    requires key !in t.sessions
    ensures Sessions.IsAuthed(Sessions.Handled(t, key, Sessions.LogIn(Some(u))), key, u.account)
  {
  }

  /** The four steps that take an accepted socket to a served connection. */
  function Welcomed(s: State, fd: int, d: ConnId): State
    requires !s.net.stopping && fd >= 0 && fd !in s.net.openFds && fd !in s.net.registered && d !in s.net.conns
  {
    var s1 := Apply(s, Accept(fd));
    var s2 := Apply(s1, RunCreate(fd, d));
    var s3 := Apply(s2, RunAdd(d));
    Apply(s3, RunEstablish(d))
  }

  /** What the race leads to: after a raced removal, the next connection that gets the fd is served under the session of
      the one before, and a request of it goes out under that user's account. */
  lemma NextOwnerInheritsSession(s: State, c: ConnId, d: ConnId, account: Sessions.Account)
    requires Reachable(s) && !s.net.stopping && Enabled(s, RunRemove(c)) && d !in s.net.conns
    requires s.net.conns[c].stage == Added && Sessions.IsAuthed(s.table, s.net.conns[c].fd, account)
    ensures var q, fd := RacedRemoval(s, c), s.net.conns[c].fd;
            && !q.net.stopping && fd >= 0 && fd !in q.net.openFds && fd !in q.net.registered && d !in q.net.conns
            && var r := Welcomed(q, fd, d);
               && CanServe(r.net, d) && r.net.registered[fd] == d && Sessions.IsAuthed(r.table, fd, account)
               && Enabled(r, Issue(d)) && Context(d, fd, account) in Apply(r, Issue(d)).issued
  {
    ReachableIsGood(s);
    assert ConnOk(s.net, c);
    var q, fd := RacedRemoval(s, c), s.net.conns[c].fd;
    assert q.table.sessions == s.table.sessions - {-1};
    WelcomedIsServed(q, fd, d);
  }

  lemma WelcomedIsServed(q: State, fd: int, d: ConnId)
    requires !q.net.stopping && fd >= 0 && fd !in q.net.openFds && fd !in q.net.registered && d !in q.net.conns
    ensures var r := Welcomed(q, fd, d);
            && CanServe(r.net, d) && Fd(r.net.conns[d]) == fd && r.net.registered == q.net.registered[fd := d]
            && r.table == q.table && r.issued == q.issued
  {
  }
}
