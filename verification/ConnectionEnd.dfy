/** What becomes of the connections of module ConnectionSteps when the server stops: by the steps that are queued for
    them every connection is taken down, every socket closed and every session removed. */
module ConnectionEnds {

  import opened Collections
  import opened Connections
  import opened ConnectionSteps
  import Sessions

  /** Some run leads from s to r. */
  ghost predicate Leads(s: State, r: State) {
    exists states: seq<State> :: IsRun(states) && states[0] == s && states[|states| - 1] == r
  }

  lemma LeadsNowhere(s: State)
    ensures Leads(s, s)
  {
    assert IsRun([s]) && [s][0] == s;
  }

  lemma LeadsAfter(s: State, step: Step, r: State)
    requires Enabled(s, step) && Leads(Apply(s, step), r)
    ensures Leads(s, r)
  {
    var rest: seq<State> :| IsRun(rest) && rest[0] == Apply(s, step) && rest[|rest| - 1] == r;
    var states := [s] + rest;
    assert Next(s, rest[0]);
    forall i | 0 <= i < |states| - 1 ensures Next(states[i], states[i + 1]) {
      assert i > 0 ==> states[i] == rest[i - 1] && Next(rest[i - 1], rest[i - 1 + 1]);
    }
    assert IsRun(states) && states[0] == s && states[|states| - 1] == r;
  }

  lemma LeadsThrough(s: State, m: State, r: State)
    requires Leads(s, m) && Leads(m, r)
    ensures Leads(s, r)
  {
    var first: seq<State> :| IsRun(first) && first[0] == s && first[|first| - 1] == m;
    var rest: seq<State> :| IsRun(rest) && rest[0] == m && rest[|rest| - 1] == r;
    var all := first + rest[1..];
    forall i | 0 <= i < |all| - 1 ensures Next(all[i], all[i + 1]) {
      if i >= |first| - 1 {
        assert all[i] == rest[i - (|first| - 1)] && all[i + 1] == rest[i - (|first| - 1) + 1];
      }
    }
    assert IsRun(all) && all[0] == s && all[|all| - 1] == r;
  }

  // ---------------------------------------------------------------------------------------------
  // One connection

  /** How far a connection still is from its end. */
  function Rank(n: Net, c: ConnId): nat
    requires c in n.conns
  {
    (if c in n.tasks.adding then 32 else 0) + (if c in n.tasks.establishing then 16 else 0)
    + (if n.conns[c].connected then 8 else 0) + (if c in n.tasks.removing then 4 else 0)
    + (if c in n.tasks.destroying then 2 else 0) + (if n.conns[c].alive then 1 else 0)
  }

  /** The next step of a connection of a stopping server. */
  function NextStep(n: Net, c: ConnId): Step
    requires c in n.conns
  {
    if c in n.tasks.adding then RunAdd(c)
    else if c in n.tasks.establishing then RunEstablish(c)
    else if n.conns[c].connected then Close(c)
    else if c in n.tasks.removing then RunRemove(c)
    else if c in n.tasks.destroying then RunDestroy(c)
    else Drop(c)
  }

  lemma NextStepIsEnabled(s: State, c: ConnId)
    requires Inv(s) && c in s.net.conns && s.net.conns[c].alive
    ensures Enabled(s, NextStep(s.net, c))
  {
    assert ConnOk(s.net, c) && Leaving(s.net, c);
  }

  /** From n to r only this connection has changed, and nothing was taken in. */
  ghost predicate OnlyThis(n: Net, r: Net, c: ConnId) {
    && r.stopping && r.tasks.creating == n.tasks.creating && r.openFds <= n.openFds && r.conns.Keys == n.conns.Keys
    && forall d :: d in n.conns && d != c ==> r.conns[d] == n.conns[d]
  }

  ghost predicate GetsOn(n: Net, r: Net, c: ConnId) {
    c in n.conns && OnlyThis(n, r, c) && Rank(r, c) < Rank(n, c)
  }

  lemma AddGetsOn(n: Net, c: ConnId)
    requires n.stopping && c in n.conns && c in n.tasks.adding
    ensures GetsOn(n, AddedConn(n, c), c)
  {
  }

  lemma EstablishGetsOn(n: Net, c: ConnId)
    requires n.stopping && c in n.conns && c in n.tasks.establishing
    ensures GetsOn(n, Established(n, c), c)
  {
  }

  lemma CloseGetsOn(n: Net, c: ConnId)
    requires n.stopping && c in n.conns && n.conns[c].connected
    ensures GetsOn(n, Closed(n, c), c)
  {
  }

  lemma RemoveGetsOn(n: Net, c: ConnId)
    requires n.stopping && c in n.conns && c in n.tasks.removing
    ensures GetsOn(n, RemovedConn(n, c), c)
  {
  }

  lemma DestroyGetsOn(n: Net, c: ConnId)
    requires n.stopping && c in n.conns && c in n.tasks.destroying
    ensures GetsOn(n, DestroyedConn(n, c), c)
  {
  }

  lemma DropGetsOn(n: Net, c: ConnId)
    requires n.stopping && c in n.conns && n.conns[c].alive
    ensures GetsOn(n, DroppedConn(n, c), c)
  {
  }

  lemma NextStepGetsOn(s: State, c: ConnId)
    requires s.net.stopping && c in s.net.conns && Enabled(s, NextStep(s.net, c))
    ensures GetsOn(s.net, Apply(s, NextStep(s.net, c)).net, c)
  {
    match NextStep(s.net, c)
    case RunAdd(_) => AddGetsOn(s.net, c);
    case RunEstablish(_) => EstablishGetsOn(s.net, c);
    case Close(_) => CloseGetsOn(s.net, c);
    case RunRemove(_) => RemoveGetsOn(s.net, c);
    case RunDestroy(_) => DestroyGetsOn(s.net, c);
    case Drop(_) => DropGetsOn(s.net, c);
  }

  lemma OnlyThisAgain(n: Net, m: Net, r: Net, c: ConnId)
    requires OnlyThis(n, m, c) && OnlyThis(m, r, c)
    ensures OnlyThis(n, r, c)
  {
  }

  /** A connection of a stopping server comes to its end by its own steps. */
  lemma {:induction false} ConnectionEnds(s: State, c: ConnId) returns (r: State)
    requires Inv(s) && s.net.stopping && c in s.net.conns
    ensures Inv(r) && Leads(s, r) && OnlyThis(s.net, r.net, c) && !r.net.conns[c].alive
    decreases Rank(s.net, c)
  {
    if !s.net.conns[c].alive {
      r := s;
      LeadsNowhere(s);
    } else {
      var step := NextStep(s.net, c);
      NextStepIsEnabled(s, c);
      NextStepGetsOn(s, c);
      StepKeepsInv(s, step);
      var m := Apply(s, step);
      r := ConnectionEnds(m, c);
      LeadsAfter(s, step, r);
      OnlyThisAgain(s.net, m.net, r.net, c);
    }
  }

  // ---------------------------------------------------------------------------------------------
  // All of them

  function Alive(n: Net): set<ConnId> {
    set c | c in n.conns && n.conns[c].alive
  }

  lemma OneFewerAlive(n: Net, r: Net, c: ConnId)
    requires OnlyThis(n, r, c) && c in Alive(n) && !r.conns[c].alive
    ensures Alive(r) == Alive(n) - {c} && |Alive(r)| < |Alive(n)|
  {
    assert Alive(r) == Alive(n) - {c};
  }

  /** A number that no connection has. */
  lemma {:induction false} Unused(ids: set<ConnId>) returns (c: ConnId)
    ensures forall d :: d in ids ==> d < c
  {
    c := 0;
    if ids != {} {
      var d :| d in ids;
      var e := Unused(ids - {d});
      c := if d < e then e else d + 1;
      forall x | x in ids ensures x < c {
        assert x == d || x in ids - {d};
      }
    }
  }

  lemma OneOf<T>(items: set<T>) returns (item: T)
    requires items != {}
    ensures item in items
  {
    item :| item in items;
  }

  lemma CreatingEnds(s: State, fd: int) returns (r: State)
    requires Inv(s) && s.net.stopping && fd in s.net.tasks.creating
    ensures Inv(r) && Leads(s, r) && r.net.stopping && r.net.conns == s.net.conns
    ensures r.net.tasks.creating == s.net.tasks.creating - {fd} && r.net.openFds <= s.net.openFds
  {
    var c := Unused(s.net.conns.Keys);
    var step := RunCreate(fd, c);
    StepKeepsInv(s, step);
    r := Apply(s, step);
    LeadsNowhere(r);
    LeadsAfter(s, step, r);
  }

  lemma {:induction false} AllEnd(s: State) returns (r: State)
    requires Inv(s) && s.net.stopping
    ensures Inv(r) && Leads(s, r) && r.net.stopping && Alive(r.net) == {} && r.net.tasks.creating == {}
    decreases |s.net.tasks.creating|, |Alive(s.net)|
  {
    if s.net.tasks.creating != {} {
      var fd := OneOf(s.net.tasks.creating);
      var m := CreatingEnds(s, fd);
      r := AllEnd(m);
      LeadsThrough(s, m, r);
    } else if Alive(s.net) != {} {
      var c :| c in Alive(s.net);
      var m := ConnectionEnds(s, c);
      OneFewerAlive(s.net, m.net, c);
      r := AllEnd(m);
      LeadsThrough(s, m, r);
    } else {
      r := s;
      LeadsNowhere(s);
    }
  }

  /** Nothing is open, registered or logged in any more. */
  predicate Empty(s: State) {
    && s.net.openFds == {} && s.net.registered == map[] && s.table.sessions == map[] && s.table.connAccount == map[]
    && forall c :: c in s.net.conns ==> !s.net.conns[c].alive
  }

  /** The sockets of the connections that are alive. */
  function Sockets(n: Net): set<int> {
    set c | c in Alive(n) :: n.conns[c].fd
  }

  /** What is registered, open or logged in belongs to a connection that is alive. */
  lemma EverythingHasAnOwner(s: State)
    requires Inv(s)
    ensures s.net.registered.Keys <= Sockets(s.net) && s.net.openFds <= s.net.tasks.creating + Sockets(s.net)
    ensures s.table.sessions.Keys <= s.net.registered.Keys && s.table.connAccount.Keys <= s.table.sessions.Keys
  {
    forall fd | fd in s.net.registered ensures fd in Sockets(s.net) {
      assert ConnOk(s.net, s.net.registered[fd]);
      assert s.net.registered[fd] in Alive(s.net);
    }
    forall fd | fd in s.net.openFds && fd !in s.net.tasks.creating ensures fd in Sockets(s.net) {
      var c :| OwnsFd(s.net, c, fd);
      assert Leaving(s.net, c);
      assert c in Alive(s.net);
    }
    forall key | key in s.table.sessions ensures key in s.net.registered {
      assert SessionsRegistered(s);
    }
    forall key | key in s.table.connAccount ensures key in s.table.sessions {
      assert Sessions.IsBound(s.table, key, s.table.connAccount[key]);
    }
  }

  lemma NobodyLeft(s: State)
    requires Inv(s) && Alive(s.net) == {} && s.net.tasks.creating == {}
    ensures Empty(s)
  {
    EverythingHasAnOwner(s);
    assert Sockets(s.net) == {};
    assert forall c :: c in s.net.conns ==> c !in Alive(s.net);
    assert s.net.registered.Keys == {} && s.table.sessions.Keys == {} && s.table.connAccount.Keys == {};
  }

  /** A stop takes effect at once and changes nothing else. From every reachable state, whatever is queued, the steps
      that follow it can take the server to one that has no connection, no open socket and nobody logged in. */
  lemma StopEmptiesTheServer(s: State) returns (r: State)
    requires Reachable(s)
    ensures Apply(s, Stop) == s.(net := s.net.(stopping := true))
    ensures Enabled(Apply(s, Stop), Shutdown) && Apply(Apply(s, Stop), Shutdown).table == Sessions.EMPTY_TABLE
    ensures Leads(Apply(s, Stop), r) && Empty(r)
  {
    ReachableIsGood(s);
    StepKeepsInv(s, Stop);
    r := AllEnd(Apply(s, Stop));
    NobodyLeft(r);
  }
}
