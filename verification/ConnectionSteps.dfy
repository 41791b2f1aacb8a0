/** The life of a connection across the base loop and the io loops, the session kept under its fd, and the requests
    that leave for a worker and come back later. The key of a connection is its raw fd, which the kernel hands out
    again once it is closed.

    Tasks that are queued and not yet run are kept as unordered sets, so every interleaving of the loops is covered,
    also running a task inline. Two kinds of task need no queue at all: a message of the client may be served at any
    moment once the connection is established, and a request that was issued may be completed at any later moment,
    any number of times.

    Removing a connection is one step: onDisconnect reads the fd before the destroy task, queued earlier in the same
    function, can overwrite it. RacedRemoval in module Connections is what happens otherwise. */
module ConnectionSteps {

  import opened Collections
  import opened Sessions

  type ConnId = nat

  /** New until the base loop adds it; Rejected when the server is stopping by then. */
  datatype Stage = New | Added | Rejected | Removed

  datatype Conn = Conn(fd: int, open: bool, connected: bool, alive: bool, established: bool, stage: Stage)

  datatype Tasks = Tasks(
    creating: set<int>,             // accepted fds on their way to an io loop
    adding: set<ConnId>,
    establishing: set<ConnId>,
    removing: set<ConnId>,
    destroying: set<ConnId>)

  datatype Net = Net(
    stopping: bool,
    openFds: set<int>,              // the kernel's view
    conns: map<ConnId, Conn>,       // every connection object ever made
    tasks: Tasks,
    registered: map<int, ConnId>)   // connections_

  /** What a request takes along: a weak pointer, the key and the account it was issued under. */
  datatype Context = Context(conn: ConnId, key: int, account: Account)

  datatype State = State(
    net: Net,
    table: Table,
    maker: map<int, ConnId>,        // history: the connection whose message created the session
    issued: set<Context>)           // history: every request that ever left

  datatype Step =
    | Accept(fd: int)
    | RunCreate(fd: int, conn: ConnId)
    | RunAdd(conn: ConnId)
    | RunEstablish(conn: ConnId)
    | Serve(conn: ConnId, request: Request)
    | Issue(conn: ConnId)
    | Close(conn: ConnId)
    | RunRemove(conn: ConnId)
    | RunDestroy(conn: ConnId)
    | Drop(conn: ConnId)
    | Stop
    | Shutdown

  const NO_TASKS := Tasks({}, {}, {}, {}, {})
  const INIT := State(Net(false, {}, map[], NO_TASKS, map[]), EMPTY_TABLE, map[], {})

  // ---------------------------------------------------------------------------------------------
  // The steps

  function Fd(c: Conn): int {
    if c.open then c.fd else -1
  }

  function CloseFd(n: Net, c: ConnId): Net
    requires c in n.conns
  {
    if !n.conns[c].open then n
    else n.(conns := n.conns[c := n.conns[c].(open := false)], openFds := n.openFds - {n.conns[c].fd})
  }

  predicate Held(n: Net, c: ConnId) {
    || c in n.tasks.adding || c in n.tasks.establishing || c in n.tasks.removing || c in n.tasks.destroying
    || exists fd :: fd in n.registered && n.registered[fd] == c
  }

  /** The base loop hands a message of this connection to ImService. */
  predicate CanServe(n: Net, c: ConnId) {
    c in n.conns && n.conns[c].alive && n.conns[c].established && n.conns[c].connected && !n.stopping
  }

  predicate Enabled(s: State, step: Step) {
    var n := s.net;
    match step
    case Accept(fd) => fd >= 0 && fd !in n.openFds
    case RunCreate(fd, c) => fd in n.tasks.creating && c !in n.conns
    case RunAdd(c) => c in n.tasks.adding && c in n.conns
    case RunEstablish(c) => c in n.tasks.establishing && c in n.conns
    case Serve(c, _) => CanServe(n, c)
    case Issue(c) => CanServe(n, c) && Fd(n.conns[c]) in s.table.sessions
                     && s.table.sessions[Fd(n.conns[c])].state == Authed
    // A peer close, an error, a heartbeat timeout, an overload or a forced close.
    case Close(c) => c in n.conns && n.conns[c].alive && n.conns[c].connected && n.conns[c].stage in {Added, Rejected}
    case RunRemove(c) => c in n.tasks.removing && c in n.conns
    case RunDestroy(c) => c in n.tasks.destroying && c in n.conns
    case Drop(c) => c in n.conns && n.conns[c].alive && !Held(n, c)
    case Stop => true
    case Shutdown => n.stopping
  }

  function Accepted(n: Net, fd: int): Net {
    if n.stopping || fd in n.registered then n
    else n.(openFds := n.openFds + {fd}, tasks := n.tasks.(creating := n.tasks.creating + {fd}))
  }

  function Created(n: Net, fd: int, c: ConnId): Net {
    var n := n.(tasks := n.tasks.(creating := n.tasks.creating - {fd}));
    if n.stopping then n.(openFds := n.openFds - {fd})
    else n.(conns := n.conns[c := Conn(fd, true, true, true, false, New)],
            tasks := n.tasks.(adding := n.tasks.adding + {c}))
  }

  function AddedConn(n: Net, c: ConnId): Net
    requires c in n.conns
  {
    var n := n.(tasks := n.tasks.(adding := n.tasks.adding - {c}));
    if n.stopping then n.(conns := n.conns[c := n.conns[c].(stage := Rejected)])
    else n.(conns := n.conns[c := n.conns[c].(stage := Added)],
            registered := n.registered[Fd(n.conns[c]) := c],
            tasks := n.tasks.(establishing := n.tasks.establishing + {c}))
  }

  function Established(n: Net, c: ConnId): Net
    requires c in n.conns
  {
    n.(conns := n.conns[c := n.conns[c].(established := true)],
       tasks := n.tasks.(establishing := n.tasks.establishing - {c}))
  }

  function Closed(n: Net, c: ConnId): Net
    requires c in n.conns
  {
    n.(conns := n.conns[c := n.conns[c].(connected := false)],
       tasks := n.tasks.(removing := n.tasks.removing + {c}))
  }

  /** The network half of removeConnectionInBaseLoop. */
  function RemovedConn(n: Net, c: ConnId): Net
    requires c in n.conns
  {
    var fd := Fd(n.conns[c]);
    var destroying := if fd in n.registered then n.tasks.destroying + {c} else n.tasks.destroying;
    n.(conns := n.conns[c := n.conns[c].(stage := Removed)],
       registered := n.registered - {fd},
       tasks := n.tasks.(removing := n.tasks.removing - {c}, destroying := destroying))
  }

  function DestroyedConn(n: Net, c: ConnId): Net
    requires c in n.conns
  {
    CloseFd(n.(tasks := n.tasks.(destroying := n.tasks.destroying - {c})), c)
  }

  function DroppedConn(n: Net, c: ConnId): Net
    requires c in n.conns
  {
    CloseFd(n.(conns := n.conns[c := n.conns[c].(alive := false)]), c)
  }

  function ServedFrom(s: State, key: int, c: ConnId, request: Request): State {
    s.(table := Handled(s.table, key, request),
       maker := if key in s.table.sessions then s.maker else s.maker[key := c])
  }

  function Apply(s: State, step: Step): State
    requires Enabled(s, step)
  {
    var n := s.net;
    match step
    case Accept(fd) => s.(net := Accepted(n, fd))
    case RunCreate(fd, c) => s.(net := Created(n, fd, c))
    case RunAdd(c) => s.(net := AddedConn(n, c))
    case RunEstablish(c) => s.(net := Established(n, c))
    case Serve(c, request) => ServedFrom(s, Fd(n.conns[c]), c, request)
    case Issue(c) =>
      var key := Fd(n.conns[c]);
      s.(issued := s.issued + {Context(c, key, s.table.sessions[key].account)})
    case Close(c) => s.(net := Closed(n, c))
    case RunRemove(c) =>
      var key := Fd(n.conns[c]);
      s.(net := RemovedConn(n, c), table := Disconnected(s.table, key), maker := s.maker - {key})
    case RunDestroy(c) => s.(net := DestroyedConn(n, c))
    case Drop(c) => s.(net := DroppedConn(n, c))
    case Stop => s.(net := n.(stopping := true))
    case Shutdown => s.(table := EMPTY_TABLE, maker := map[])
  }

  /** resolvePendingSender and resolvePendingSession. */
  predicate Resolves(s: State, ctx: Context) {
    && ctx.conn in s.net.conns && s.net.conns[ctx.conn].alive && s.net.conns[ctx.conn].connected
    && ctx.key in s.table.sessions && s.table.sessions[ctx.key].account == ctx.account
  }

  // ---------------------------------------------------------------------------------------------
  // What every step keeps

  /** No two open sockets share an fd. */
  ghost predicate FdsOk(n: Net) {
    && (forall fd :: fd in n.tasks.creating ==> fd in n.openFds && fd >= 0)
    && (forall c :: c in n.conns && n.conns[c].open ==>
          n.conns[c].fd in n.openFds && n.conns[c].fd !in n.tasks.creating)
    && (forall c :: c in n.conns ==> n.conns[c].fd >= 0)
    && (forall c, d :: c in n.conns && d in n.conns && c != d && n.conns[c].open && n.conns[d].open ==>
          n.conns[c].fd != n.conns[d].fd)
  }

  predicate TasksKnown(n: Net) {
    n.tasks.adding + n.tasks.establishing + n.tasks.removing + n.tasks.destroying <= n.conns.Keys
  }

  /** Where a connection is in its life, seen from the tasks that hold it. */
  ghost predicate ConnOk(n: Net, c: ConnId)
    requires c in n.conns
  {
    var k := n.conns[c];
    && (c in n.tasks.adding <==> k.stage == New)
    && (k.stage == New ==> k.alive && k.open && k.connected)
    && (k.stage == Added ==> k.alive && k.open && k.fd in n.registered && n.registered[k.fd] == c)
    && (k.stage == Rejected && k.alive ==> k.open)
    && (k.stage == Removed ==> !k.connected)
    && (k.established || c in n.tasks.establishing ==> k.stage in {Added, Removed})
    && (c in n.tasks.removing ==> k.alive && k.open && !k.connected && k.stage in {Added, Rejected})
    && (c in n.tasks.destroying ==> k.stage == Removed)
  }

  ghost predicate RegistryOk(n: Net) {
    forall fd :: fd in n.registered ==>
      var c := n.registered[fd]; c in n.conns && n.conns[c].fd == fd && n.conns[c].stage == Added
  }

  ghost predicate NetOk(n: Net) {
    FdsOk(n) && TasksKnown(n) && RegistryOk(n) && forall c :: c in n.conns ==> ConnOk(n, c)
  }

  ghost predicate SessionsRegistered(s: State) {
    && (forall key :: key in s.table.sessions ==>
          key in s.net.registered && key in s.maker && s.maker[key] == s.net.registered[key])
    && (forall key :: key in s.maker ==> key in s.table.sessions)
  }

  ghost predicate AnonymousBlank(t: Table) {
    forall key :: key in t.sessions && t.sessions[key].state != Authed ==> t.sessions[key].account == ""
  }

  ghost predicate IssuedOk(s: State) {
    forall ctx :: ctx in s.issued ==>
      ctx.conn in s.net.conns && s.net.conns[ctx.conn].fd == ctx.key
      && s.net.conns[ctx.conn].stage in {Added, Removed}
  }

  ghost predicate Inv(s: State) {
    && NetOk(s.net)
    && SessionsRegistered(s) && AnonymousBlank(s.table) && Consistent(s.table)
    && IssuedOk(s)
    && NoneForgotten(s.net)
  }

  lemma CreateKeepsNet(n: Net, fd: int, c: ConnId)
    requires NetOk(n) && fd in n.tasks.creating && c !in n.conns
    ensures NetOk(Created(n, fd, c))
  {
    var r := Created(n, fd, c);
    forall d | d in r.conns ensures ConnOk(r, d) {
      if d in n.conns { assert ConnOk(n, d); }
    }
  }

  /** Nobody is registered under the fd of a connection that has not been added. */
  lemma OnlyOwnFd(n: Net, c: ConnId)
    requires NetOk(n) && c in n.conns && n.conns[c].open && n.conns[c].stage != Added
    ensures n.conns[c].fd !in n.registered
  {
  }

  /** A step that leaves the sockets alone leaves their owners alone. */
  lemma SameSocketKeepsFds(n: Net, r: Net, c: ConnId)
    requires FdsOk(n) && c in n.conns && c in r.conns && r.openFds == n.openFds
    requires r.tasks.creating == n.tasks.creating && r.conns == n.conns[c := r.conns[c]]
    requires r.conns[c].open == n.conns[c].open && r.conns[c].fd == n.conns[c].fd
    ensures FdsOk(r)
  {
  }

  lemma AddKeepsRegistry(n: Net, c: ConnId)
    requires RegistryOk(n) && c in n.conns && n.conns[c].open && n.conns[c].stage == New
    ensures RegistryOk(AddedConn(n, c))
  {
  }

  lemma AddKeepsNet(n: Net, c: ConnId)
    requires NetOk(n) && c in n.tasks.adding && c in n.conns
    ensures NetOk(AddedConn(n, c))
  {
    var r := AddedConn(n, c);
    assert ConnOk(n, c);
    OnlyOwnFd(n, c);
    SameSocketKeepsFds(n, r, c);
    AddKeepsRegistry(n, c);
    forall d | d in r.conns ensures ConnOk(r, d) {
      assert ConnOk(n, d);
    }
  }

  lemma EstablishKeepsNet(n: Net, c: ConnId)
    requires NetOk(n) && c in n.tasks.establishing && c in n.conns
    ensures NetOk(Established(n, c))
  {
    var r := Established(n, c);
    SameSocketKeepsFds(n, r, c);
    forall d | d in r.conns ensures ConnOk(r, d) {
      assert ConnOk(n, d);
    }
  }

  lemma CloseKeepsNet(n: Net, c: ConnId)
    requires NetOk(n) && c in n.conns && n.conns[c].alive && n.conns[c].connected
    requires n.conns[c].stage in {Added, Rejected}
    ensures NetOk(Closed(n, c))
  {
    var r := Closed(n, c);
    SameSocketKeepsFds(n, r, c);
    forall d | d in r.conns ensures ConnOk(r, d) {
      assert ConnOk(n, d);
    }
  }

  lemma RemoveKeepsNet(n: Net, c: ConnId)
    requires NetOk(n) && c in n.tasks.removing && c in n.conns
    ensures NetOk(RemovedConn(n, c)) && Fd(n.conns[c]) == n.conns[c].fd
  {
    var r := RemovedConn(n, c);
    assert ConnOk(n, c);
    SameSocketKeepsFds(n, r, c);
    forall d | d in r.conns ensures ConnOk(r, d) {
      assert ConnOk(n, d);
    }
    forall fd | fd in r.registered ensures r.registered[fd] != c {
      assert n.conns[n.registered[fd]].fd == fd;
    }
  }

  lemma CloseFdKeepsNet(n: Net, c: ConnId)
    requires NetOk(n) && c in n.conns && c !in n.tasks.removing
    requires n.conns[c].stage == Removed || (n.conns[c].stage == Rejected && !n.conns[c].alive)
    ensures NetOk(CloseFd(n, c))
  {
    var r := CloseFd(n, c);
    forall d | d in r.conns ensures ConnOk(r, d) {
      assert ConnOk(n, d);
    }
  }

  lemma DestroyKeepsNet(n: Net, c: ConnId)
    requires NetOk(n) && c in n.tasks.destroying && c in n.conns
    ensures NetOk(DestroyedConn(n, c))
  {
    CloseFdKeepsNet(n.(tasks := n.tasks.(destroying := n.tasks.destroying - {c})), c);
  }

  lemma DropTakenNet(n: Net, c: ConnId)
    requires NetOk(n) && c in n.conns && !Held(n, c)
    ensures NetOk(n.(conns := n.conns[c := n.conns[c].(alive := false)])) && n.conns[c].stage in {Rejected, Removed}
  {
    var m := n.(conns := n.conns[c := n.conns[c].(alive := false)]);
    assert ConnOk(n, c);
    SameSocketKeepsFds(n, m, c);
    forall d | d in m.conns ensures ConnOk(m, d) {
      assert ConnOk(n, d);
    }
  }

  lemma DropKeepsNet(n: Net, c: ConnId)
    requires NetOk(n) && c in n.conns && !Held(n, c)
    ensures NetOk(DroppedConn(n, c))
  {
    DropTakenNet(n, c);
    CloseFdKeepsNet(n.(conns := n.conns[c := n.conns[c].(alive := false)]), c);
  }

  lemma StepKeepsNet(s: State, step: Step)
    requires NetOk(s.net) && Enabled(s, step)
    ensures NetOk(Apply(s, step).net)
  {
    match step
    case RunCreate(fd, c) => CreateKeepsNet(s.net, fd, c);
    case RunAdd(c) => AddKeepsNet(s.net, c);
    case RunEstablish(c) => EstablishKeepsNet(s.net, c);
    case Close(c) => CloseKeepsNet(s.net, c);
    case RunRemove(c) => RemoveKeepsNet(s.net, c);
    case RunDestroy(c) => DestroyKeepsNet(s.net, c);
    case Drop(c) => DropKeepsNet(s.net, c);
    case Stop =>
      forall c | c in s.net.conns ensures ConnOk(s.net.(stopping := true), c) {
        assert ConnOk(s.net, c);
      }
    case _ =>
  }

  lemma HandledSessions(t: Table, key: Key, request: Request)
    requires AnonymousBlank(t)
    ensures AnonymousBlank(Handled(t, key, request))
    ensures Handled(t, key, request).sessions.Keys == t.sessions.Keys + {key}
  {
  }

  lemma ServeKeepsSessions(s: State, c: ConnId, request: Request)
    requires Inv(s) && Enabled(s, Step.Serve(c, request))
    ensures var r := Apply(s, Step.Serve(c, request)); SessionsRegistered(r) && AnonymousBlank(r.table)
  {
    HandledSessions(s.table, s.net.conns[c].fd, request);
  }

  lemma RemoveKeepsSessions(s: State, c: ConnId)
    requires Inv(s) && Enabled(s, RunRemove(c))
    ensures var r := Apply(s, RunRemove(c)); SessionsRegistered(r) && AnonymousBlank(r.table)
  {
    assert ConnOk(s.net, c);
  }

  lemma StepKeepsSessions(s: State, step: Step)
    requires Inv(s) && Enabled(s, step)
    ensures SessionsRegistered(Apply(s, step)) && AnonymousBlank(Apply(s, step).table)
  {
    match step
    case Serve(c, request) => ServeKeepsSessions(s, c, request);
    case RunRemove(c) => RemoveKeepsSessions(s, c);
    case _ =>
  }

  lemma StepKeepsConsistent(s: State, step: Step)
    requires Consistent(s.table) && Enabled(s, step)
    ensures Consistent(Apply(s, step).table)
  {
    match step
    case Serve(c, request) => HandledKeepsConsistent(s.table, Fd(s.net.conns[c]), request);
    case RunRemove(c) => DisconnectKeepsConsistent(s.table, Fd(s.net.conns[c]));
    case _ =>
  }

  /** Every connection keeps its fd, and none goes back to a stage before it was added. */
  ghost predicate ConnsGrow(n: Net, r: Net) {
    forall c :: c in n.conns ==>
      && c in r.conns && r.conns[c].fd == n.conns[c].fd
      && (n.conns[c].stage in {Added, Removed} ==> r.conns[c].stage in {Added, Removed})
  }

  lemma FdStepGrows(s: State, step: Step)
    requires (step.RunDestroy? || step.Drop?) && Enabled(s, step)
    ensures ConnsGrow(s.net, Apply(s, step).net)
  {
  }

  lemma NetStepGrows(s: State, step: Step)
    requires NetOk(s.net) && Enabled(s, step)
    ensures ConnsGrow(s.net, Apply(s, step).net)
  {
    match step
    case RunAdd(c) => assert ConnOk(s.net, c);
    case RunDestroy(_) => FdStepGrows(s, step);
    case Drop(_) => FdStepGrows(s, step);
    case _ =>
  }

  lemma StepKeepsIssued(s: State, step: Step)
    requires NetOk(s.net) && IssuedOk(s) && Enabled(s, step)
    ensures IssuedOk(Apply(s, step))
  {
    if !step.Issue? {
      NetStepGrows(s, step);
    }
  }

  // ---------------------------------------------------------------------------------------------
  // No socket is forgotten

  predicate OwnsFd(n: Net, c: ConnId, fd: int) {
    c in n.conns && n.conns[c].open && n.conns[c].fd == fd
  }

  /** Every open fd is on its way to a connection or owned by one. */
  ghost predicate FdsOwned(n: Net) {
    forall fd :: fd in n.openFds ==> fd in n.tasks.creating || exists c :: OwnsFd(n, c, fd)
  }

  /** A connection that was closed or removed has the task that takes it further. */
  predicate Leaving(n: Net, c: ConnId)
    requires c in n.conns
  {
    var k := n.conns[c];
    && (k.alive && !k.connected && k.stage in {Added, Rejected} ==> c in n.tasks.removing)
    && (k.stage == Removed && (k.established || c in n.tasks.establishing) && k.open ==> c in n.tasks.destroying)
    && (!k.alive ==> !k.open)
  }

  ghost predicate NoneForgotten(n: Net) {
    FdsOwned(n) && forall c :: c in n.conns ==> Leaving(n, c)
  }

  lemma OwnerStays(n: Net, r: Net, c: ConnId)
    requires FdsOwned(n) && c in n.conns && c in r.conns && r.openFds == n.openFds
    requires r.tasks.creating == n.tasks.creating && r.conns == n.conns[c := r.conns[c]]
    requires r.conns[c].open == n.conns[c].open && r.conns[c].fd == n.conns[c].fd
    ensures FdsOwned(r)
  {
    forall fd | fd in r.openFds && fd !in r.tasks.creating ensures exists d :: OwnsFd(r, d, fd) {
      var d :| OwnsFd(n, d, fd);
      assert OwnsFd(r, d, fd);
    }
  }

  lemma AcceptForgetsNone(n: Net, fd: int)
    requires NoneForgotten(n)
    ensures NoneForgotten(Accepted(n, fd))
  {
    var r := Accepted(n, fd);
    forall f | f in r.openFds && f !in r.tasks.creating ensures exists d :: OwnsFd(r, d, f) {
      var d :| OwnsFd(n, d, f);
      assert OwnsFd(r, d, f);
    }
  }

  lemma CreateForgetsNone(n: Net, fd: int, c: ConnId)
    requires NetOk(n) && NoneForgotten(n) && fd in n.tasks.creating && c !in n.conns
    ensures NoneForgotten(Created(n, fd, c))
  {
    var r := Created(n, fd, c);
    forall f | f in r.openFds && f !in r.tasks.creating ensures exists d :: OwnsFd(r, d, f) {
      if f == fd {
        assert OwnsFd(r, c, f);
      } else {
        var d :| OwnsFd(n, d, f);
        assert OwnsFd(r, d, f);
      }
    }
  }

  lemma CloseFdForgetsNone(n: Net, c: ConnId)
    requires NetOk(n) && FdsOwned(n) && c in n.conns
    requires forall d :: d in n.conns && d != c ==> Leaving(n, d)
    requires Leaving(CloseFd(n, c), c)
    ensures NoneForgotten(CloseFd(n, c))
  {
    var r := CloseFd(n, c);
    forall fd | fd in r.openFds && fd !in r.tasks.creating ensures exists d :: OwnsFd(r, d, fd) {
      var d :| OwnsFd(n, d, fd);
      assert OwnsFd(r, d, fd);
    }
    forall d | d in r.conns ensures Leaving(r, d) {
      assert d != c ==> Leaving(n, d);
    }
  }

  lemma AddForgetsNone(n: Net, c: ConnId)
    requires NetOk(n) && NoneForgotten(n) && c in n.tasks.adding && c in n.conns
    ensures NoneForgotten(AddedConn(n, c))
  {
    assert ConnOk(n, c);
    OwnerStays(n, AddedConn(n, c), c);
  }

  lemma EstablishForgetsNone(n: Net, c: ConnId)
    requires NoneForgotten(n) && c in n.tasks.establishing && c in n.conns
    ensures NoneForgotten(Established(n, c))
  {
    OwnerStays(n, Established(n, c), c);
  }

  lemma CloseForgetsNone(n: Net, c: ConnId)
    requires NoneForgotten(n) && c in n.conns
    ensures NoneForgotten(Closed(n, c))
  {
    OwnerStays(n, Closed(n, c), c);
  }

  lemma RemoveForgetsNone(n: Net, c: ConnId)
    requires NetOk(n) && NoneForgotten(n) && c in n.tasks.removing && c in n.conns
    ensures NoneForgotten(RemovedConn(n, c))
  {
    assert ConnOk(n, c);
    OwnerStays(n, RemovedConn(n, c), c);
  }

  lemma DestroyForgetsNone(n: Net, c: ConnId)
    requires NetOk(n) && NoneForgotten(n) && c in n.tasks.destroying && c in n.conns
    ensures NoneForgotten(DestroyedConn(n, c))
  {
    var m := n.(tasks := n.tasks.(destroying := n.tasks.destroying - {c}));
    OwnerStays(n, m, c);
    forall d | d in m.conns && d != c ensures Leaving(m, d) {
      assert Leaving(n, d);
    }
    CloseFdForgetsNone(m, c);
  }

  lemma DropForgetsNone(n: Net, c: ConnId)
    requires NetOk(n) && NoneForgotten(n) && c in n.conns && !Held(n, c)
    ensures NoneForgotten(DroppedConn(n, c))
  {
    var m := n.(conns := n.conns[c := n.conns[c].(alive := false)]);
    OwnerStays(n, m, c);
    DropTakenNet(n, c);
    forall d | d in m.conns && d != c ensures Leaving(m, d) {
      assert Leaving(n, d);
    }
    CloseFdForgetsNone(m, c);
  }

  lemma StepForgetsNone(s: State, step: Step)
    requires NetOk(s.net) && NoneForgotten(s.net) && Enabled(s, step)
    ensures NoneForgotten(Apply(s, step).net)
  {
    match step
    case Accept(fd) => AcceptForgetsNone(s.net, fd);
    case RunCreate(fd, c) => CreateForgetsNone(s.net, fd, c);
    case RunAdd(c) => AddForgetsNone(s.net, c);
    case RunEstablish(c) => EstablishForgetsNone(s.net, c);
    case Close(c) => CloseForgetsNone(s.net, c);
    case RunRemove(c) => RemoveForgetsNone(s.net, c);
    case RunDestroy(c) => DestroyForgetsNone(s.net, c);
    case Drop(c) => DropForgetsNone(s.net, c);
    case Stop => OwnersStay(s.net, s.net.(stopping := true));
    case _ =>
  }

  lemma OwnersStay(n: Net, r: Net)
    requires FdsOwned(n) && r.openFds == n.openFds && r.conns == n.conns && r.tasks == n.tasks
    ensures FdsOwned(r)
  {
    forall fd | fd in r.openFds && fd !in r.tasks.creating ensures exists d :: OwnsFd(r, d, fd) {
      var d :| OwnsFd(n, d, fd);
      assert OwnsFd(r, d, fd);
    }
  }

  lemma StepKeepsInv(s: State, step: Step)
    requires Inv(s) && Enabled(s, step)
    ensures Inv(Apply(s, step))
  {
    StepKeepsNet(s, step);
    StepKeepsSessions(s, step);
    StepKeepsConsistent(s, step);
    StepKeepsIssued(s, step);
    StepForgetsNone(s, step);
  }
}
