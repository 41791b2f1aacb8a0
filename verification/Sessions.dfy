/** SessionManager: the session of each connection key and the two maps that say who is online where, together
    with the ImService handlers that change them. The handlers run on the base thread, one at a time. */
module Sessions {

  import opened Collections

  type Key = int
  type Account = string

  datatype ConnState = Connected | Authed | Closing

  datatype Session = Session(state: ConnState, account: Account, name: string, userId: nat)

  datatype User = User(userId: nat, account: Account, name: string)

  datatype Table = Table(
    sessions: map<Key, Session>,
    accountConn: map<Account, set<Key>>,
    connAccount: map<Key, Account>)

  const EMPTY_TABLE := Table(map[], map[], map[])
  const FRESH_SESSION := Session(Connected, "", "", 0)

  // ---------------------------------------------------------------------------------------------
  // What each operation does to the table

  function SessionOf(t: Table, key: Key): Session {
    if key in t.sessions then t.sessions[key] else FRESH_SESSION
  }

  function GotOrCreated(t: Table, key: Key): Table {
    t.(sessions := t.sessions[key := SessionOf(t, key)])
  }

  function KeysOf(t: Table, a: Account): set<Key> {
    if a in t.accountConn then t.accountConn[a] else {}
  }

  function Bound(t: Table, key: Key, u: User): Table {
    Table(t.sessions[key := Session(Authed, u.account, u.name, u.userId)],
          t.accountConn[u.account := KeysOf(t, u.account) + {key}],
          t.connAccount[key := u.account])
  }

  function Unbound(t: Table, key: Key): Table {
    if key !in t.connAccount then t
    else
      var a := t.connAccount[key];
      var rest := KeysOf(t, a) - {key};
      t.(accountConn := if rest == {} then t.accountConn - {a} else t.accountConn[a := rest],
         connAccount := t.connAccount - {key})
  }

  function Erased(t: Table, key: Key): Table {
    t.(sessions := t.sessions - {key})
  }

  // ---------------------------------------------------------------------------------------------
  // The handlers. Each finds the session that onMessage got or created for the key.

  datatype Request =
    | LogIn(verdict: Option<User>)      // auth, password login or token login, with what the auth service answered
    | LogOut(revoked: bool)
    | Other

  /** An authenticated session is never bound again, whatever the request names. */
  function LoggedIn(t: Table, key: Key, verdict: Option<User>): Table {
    if SessionOf(t, key).state == Authed || verdict.None? then t else Bound(t, key, verdict.value)
  }

  function LoggedOut(t: Table, key: Key, revoked: bool): Table {
    var session := SessionOf(t, key);
    if !revoked || session.state != Authed then t
    else
      var u := Unbound(t, key);
      u.(sessions := u.sessions[key := session.(state := Connected, account := "", userId := 0)])
  }

  function Handled(t: Table, key: Key, request: Request): Table {
    var t := GotOrCreated(t, key);
    match request
    case LogIn(verdict) => LoggedIn(t, key, verdict)
    case LogOut(revoked) => LoggedOut(t, key, revoked)
    case Other => t
  }

  function Disconnected(t: Table, key: Key): Table {
    Erased(Unbound(t, key), key)
  }

  // ---------------------------------------------------------------------------------------------
  // Agreement of the three maps

  predicate IsBound(t: Table, key: Key, a: Account) {
    key in t.connAccount && t.connAccount[key] == a
  }

  predicate IsAuthed(t: Table, key: Key, a: Account) {
    key in t.sessions && t.sessions[key].state == Authed && t.sessions[key].account == a
  }

  ghost predicate IndexAgrees(t: Table) {
    && (forall k, a :: k in KeysOf(t, a) <==> IsBound(t, k, a))
    && (forall a :: a in t.accountConn ==> t.accountConn[a] != {})
  }

  ghost predicate SessionsAgree(t: Table) {
    forall k, a :: IsBound(t, k, a) <==> IsAuthed(t, k, a)
  }

  /** Key k is among account a's keys iff connAccount maps k to a iff session k is authenticated as a; no
      account keeps an empty set of keys. */
  ghost predicate Consistent(t: Table) {
    IndexAgrees(t) && SessionsAgree(t)
  }

  /** bindUser does not release the key's previous account, so it keeps the maps in agreement exactly when the
      key is free or already bound to the same account. */
  lemma BindKeepsConsistent(t: Table, key: Key, u: User)
    requires Consistent(t)
    ensures Consistent(Bound(t, key, u)) <==> key !in t.connAccount || t.connAccount[key] == u.account
  {
    var r := Bound(t, key, u);
    if key in t.connAccount && t.connAccount[key] != u.account {
      var before := t.connAccount[key];
      assert IsBound(t, key, before);
      assert key in KeysOf(r, before) && !IsBound(r, key, before);
    } else {
      forall k, a ensures k in KeysOf(r, a) <==> IsBound(r, k, a) {
        assert k in KeysOf(t, a) <==> IsBound(t, k, a);
        if k == key && IsBound(t, k, a) {
          assert a == u.account;
        }
      }
      forall k, a ensures IsBound(r, k, a) <==> IsAuthed(r, k, a) {
        assert IsBound(t, k, a) <==> IsAuthed(t, k, a);
      }
    }
  }

  lemma UnbindKeepsIndex(t: Table, key: Key)
    requires IndexAgrees(t)
    ensures IndexAgrees(Unbound(t, key))
    ensures forall k, a :: IsBound(Unbound(t, key), k, a) <==> IsBound(t, k, a) && k != key
  {
    var r := Unbound(t, key);
    forall k, a ensures k in KeysOf(r, a) <==> IsBound(r, k, a) {
      assert k in KeysOf(t, a) <==> IsBound(t, k, a);
      assert k in KeysOf(r, a) <==> k in KeysOf(t, a) && (k != key || !IsBound(t, key, a));
    }
  }

  /** Erasing a session alone keeps the agreement exactly when the key is not bound. */
  lemma EraseKeepsConsistent(t: Table, key: Key)
    requires Consistent(t)
    ensures Consistent(Erased(t, key)) <==> key !in t.connAccount
  {
    var r := Erased(t, key);
    forall k, a ensures KeysOf(r, a) == KeysOf(t, a) && (IsBound(r, k, a) <==> IsBound(t, k, a)) {}
    if key in t.connAccount {
      assert IsBound(r, key, t.connAccount[key]) && !IsAuthed(r, key, t.connAccount[key]);
    } else {
      forall k, a ensures IsBound(r, k, a) <==> IsAuthed(r, k, a) {
        assert IsBound(t, k, a) <==> IsAuthed(t, k, a);
      }
    }
  }

  lemma DisconnectKeepsConsistent(t: Table, key: Key)
    requires Consistent(t)
    ensures Consistent(Disconnected(t, key))
    ensures key !in Disconnected(t, key).sessions && key !in Disconnected(t, key).connAccount
  {
    var u, r := Unbound(t, key), Disconnected(t, key);
    UnbindKeepsIndex(t, key);
    assert u.sessions == t.sessions;
    forall k, a ensures k in KeysOf(r, a) <==> IsBound(r, k, a) {
      assert KeysOf(r, a) == KeysOf(u, a);
      assert k in KeysOf(u, a) <==> IsBound(u, k, a);
    }
    forall k, a ensures IsBound(r, k, a) <==> IsAuthed(r, k, a) {
      assert IsBound(u, k, a) <==> IsBound(t, k, a) && k != key;
      assert IsBound(t, k, a) <==> IsAuthed(t, k, a);
    }
  }

  lemma LogoutKeepsConsistent(t: Table, key: Key, revoked: bool)
    requires Consistent(t) && key in t.sessions
    ensures Consistent(LoggedOut(t, key, revoked))
  {
    var u, r := Unbound(t, key), LoggedOut(t, key, revoked);
    if revoked && t.sessions[key].state == Authed {
      UnbindKeepsIndex(t, key);
      forall k, a ensures k in KeysOf(r, a) <==> IsBound(r, k, a) {
        assert KeysOf(r, a) == KeysOf(u, a);
        assert k in KeysOf(u, a) <==> IsBound(u, k, a);
      }
      forall k, a ensures IsBound(r, k, a) <==> IsAuthed(r, k, a) {
        assert IsBound(u, k, a) <==> IsBound(t, k, a) && k != key;
        assert IsBound(t, k, a) <==> IsAuthed(t, k, a);
      }
    }
  }

  lemma CreateKeepsConsistent(t: Table, key: Key)
    requires Consistent(t)
    ensures Consistent(GotOrCreated(t, key))
  {
    var r := GotOrCreated(t, key);
    forall k, a ensures k in KeysOf(r, a) <==> IsBound(r, k, a) {
      assert k in KeysOf(t, a) <==> IsBound(t, k, a);
    }
    forall k, a ensures IsBound(r, k, a) <==> IsAuthed(r, k, a) {
      assert IsBound(t, k, a) <==> IsAuthed(t, k, a);
    }
  }

  lemma BoundIsAuthed(t: Table, key: Key)
    requires SessionsAgree(t)
    ensures key in t.connAccount ==> SessionOf(t, key).state == Authed
  {
    if key in t.connAccount {
      assert IsBound(t, key, t.connAccount[key]);
    }
  }

  /** Every request a handler can see keeps the agreement: the guards never bind an authenticated session. */
  lemma HandledKeepsConsistent(t: Table, key: Key, request: Request)
    requires Consistent(t)
    ensures Consistent(Handled(t, key, request))
  {
    var c := GotOrCreated(t, key);
    CreateKeepsConsistent(t, key);
    match request
    case LogIn(verdict) =>
      if verdict.Some? && SessionOf(c, key).state != Authed {
        BoundIsAuthed(c, key);
        BindKeepsConsistent(c, key, verdict.value);
      }
    case LogOut(revoked) => LogoutKeepsConsistent(c, key, revoked);
    case Other =>
  }

  // ---------------------------------------------------------------------------------------------
  // What each request means for who is online where

  /** Whoever is under another key, and the session there, stay as they were. */
  ghost predicate OthersStay(t: Table, r: Table, key: Key) {
    && (forall k :: k != key ==> (k in r.sessions <==> k in t.sessions))
    && (forall k :: k != key && k in t.sessions ==> r.sessions[k] == t.sessions[k])
    && (forall k, a :: k != key ==> (k in KeysOf(r, a) <==> k in KeysOf(t, a)))
    && (forall k, a :: k != key ==> (IsBound(r, k, a) <==> IsBound(t, k, a)))
  }

  /** Nobody is under the key. */
  ghost predicate Nobody(t: Table, key: Key) {
    forall a :: key !in KeysOf(t, a) && !IsBound(t, key, a) && !IsAuthed(t, key, a)
  }

  /** Exactly this account is under the key. */
  ghost predicate Only(t: Table, key: Key, account: Account) {
    forall a :: (key in KeysOf(t, a) <==> a == account) && (IsBound(t, key, a) <==> a == account)
                && (IsAuthed(t, key, a) <==> a == account)
  }

  /** The first message of a connection finds a fresh session, every later one the session as it was left; that is all
      that getting the session changes. */
  lemma SessionIsCreatedOnce(t: Table, key: Key)
    ensures var r := GotOrCreated(t, key);
            && key in r.sessions && OthersStay(t, r, key)
            && r.accountConn == t.accountConn && r.connAccount == t.connAccount
            && (if key in t.sessions then r.sessions[key] == t.sessions[key]
                else r.sessions[key].state == Connected && r.sessions[key].account == "" && r.sessions[key].userId == 0)
  {
  }

  lemma BindEffect(t: Table, key: Key, u: User)
    requires Consistent(t) && key !in t.connAccount
    ensures var r := Bound(t, key, u);
            && Only(r, key, u.account) && OthersStay(t, r, key) && key in r.sessions
            && r.sessions[key].userId == u.userId && r.sessions[key].name == u.name
  {
    var r := Bound(t, key, u);
    BindKeepsConsistent(t, key, u);
    forall a ensures (key in KeysOf(r, a) <==> a == u.account) && (IsBound(r, key, a) <==> a == u.account)
                     && (IsAuthed(r, key, a) <==> a == u.account) {
    }
  }

  lemma LoginEffect(t: Table, key: Key, verdict: Option<User>)
    requires Consistent(t)
    ensures var r := LoggedIn(t, key, verdict);
            if verdict.Some? && SessionOf(t, key).state != Authed then
              && Only(r, key, verdict.value.account) && OthersStay(t, r, key) && key in r.sessions
              && r.sessions[key].userId == verdict.value.userId && r.sessions[key].name == verdict.value.name
            else
              r == t
  {
    if verdict.Some? && SessionOf(t, key).state != Authed {
      BoundIsAuthed(t, key);
      BindEffect(t, key, verdict.value);
    }
  }

  /** A session that is not authenticated becomes the user's that the auth service vouched for; without a verdict, or
      when somebody is logged in, nothing changes. */
  lemma LoginLogsIn(t: Table, key: Key, verdict: Option<User>)
    requires Consistent(t)
    ensures var r := Handled(t, key, LogIn(verdict));
            if verdict.Some? && SessionOf(t, key).state != Authed then
              && Only(r, key, verdict.value.account) && OthersStay(t, r, key) && key in r.sessions
              && r.sessions[key].userId == verdict.value.userId && r.sessions[key].name == verdict.value.name
            else
              r == GotOrCreated(t, key)
  {
    CreateKeepsConsistent(t, key);
    SessionIsCreatedOnce(t, key);
    LoginEffect(GotOrCreated(t, key), key, verdict);
  }

  lemma UnbindEffect(t: Table, key: Key)
    requires IndexAgrees(t)
    ensures var r := Unbound(t, key);
            r.sessions == t.sessions && OthersStay(t, r, key) && forall a :: key !in KeysOf(r, a) && !IsBound(r, key, a)
  {
    var r := Unbound(t, key);
    UnbindKeepsIndex(t, key);
    forall k, a | k != key ensures k in KeysOf(r, a) <==> k in KeysOf(t, a) {
      assert IsBound(r, k, a) <==> IsBound(t, k, a);
    }
  }

  lemma LogoutEffect(t: Table, key: Key, revoked: bool)
    requires Consistent(t)
    ensures var r := LoggedOut(t, key, revoked);
            if revoked && SessionOf(t, key).state == Authed then
              && Nobody(r, key) && OthersStay(t, r, key) && key in r.sessions
              && r.sessions[key].state == Connected && r.sessions[key].account == "" && r.sessions[key].userId == 0
            else
              r == t
  {
    UnbindEffect(t, key);
    if key in t.sessions {
      LogoutKeepsConsistent(t, key, revoked);
    }
  }

  /** A logout that the auth service accepted leaves nobody under the key: its session is there, connected and blank.
      Otherwise, or when nobody is logged in, nothing changes. */
  lemma LogoutLogsOut(t: Table, key: Key, revoked: bool)
    requires Consistent(t)
    ensures var r := Handled(t, key, LogOut(revoked));
            if revoked && SessionOf(t, key).state == Authed then
              && Nobody(r, key) && OthersStay(t, r, key) && key in r.sessions
              && r.sessions[key].state == Connected && r.sessions[key].account == "" && r.sessions[key].userId == 0
            else
              r == GotOrCreated(t, key)
  {
    CreateKeepsConsistent(t, key);
    SessionIsCreatedOnce(t, key);
    LogoutEffect(GotOrCreated(t, key), key, revoked);
  }

  /** Whoever was under the key before: after a logout the next login is the new user's. */
  lemma LoginAfterLogout(t: Table, key: Key, u: User)
    requires Consistent(t)
    ensures var r := Handled(Handled(t, key, LogOut(true)), key, LogIn(Some(u)));
            Only(r, key, u.account) && OthersStay(t, r, key)
  {
    var m := Handled(t, key, LogOut(true));
    HandledKeepsConsistent(t, key, LogOut(true));
    LogoutLogsOut(t, key, true);
    SessionIsCreatedOnce(t, key);
    LoginLogsIn(m, key, Some(u));
  }

  /** A disconnect leaves nobody and no session under the key. */
  lemma DisconnectLeavesNobody(t: Table, key: Key)
    requires Consistent(t)
    ensures var r := Disconnected(t, key); Nobody(r, key) && OthersStay(t, r, key) && key !in r.sessions
  {
    UnbindEffect(t, key);
    forall a ensures KeysOf(Disconnected(t, key), a) == KeysOf(Unbound(t, key), a) {}
  }

  // ---------------------------------------------------------------------------------------------
  // Every run of requests and disconnects

  datatype Step = Serve(key: Key, request: Request) | Disconnect(key: Key)

  function Apply(t: Table, step: Step): Table {
    match step
    case Serve(key, request) => Handled(t, key, request)
    case Disconnect(key) => Disconnected(t, key)
  }

  ghost predicate Next(t: Table, r: Table) {
    exists step :: Apply(t, step) == r
  }

  ghost predicate IsRun(tables: seq<Table>) {
    |tables| > 0 && forall i :: 0 <= i < |tables| - 1 ==> Next(tables[i], tables[i + 1])
  }

  /** The three maps agree in every state of every run. */
  lemma {:induction false} RunsAreConsistent(tables: seq<Table>, n: nat)
    requires IsRun(tables) && tables[0] == EMPTY_TABLE && n < |tables|
    ensures Consistent(tables[n])
  {
    if n > 0 {
      RunsAreConsistent(tables, n - 1);
      assert Next(tables[n - 1], tables[n - 1 + 1]);
      var step :| Apply(tables[n - 1], step) == tables[n];
      match step
      case Serve(key, request) => HandledKeepsConsistent(tables[n - 1], key, request);
      case Disconnect(key) => DisconnectKeepsConsistent(tables[n - 1], key);
    }
  }

  function TableAfter(steps: seq<Step>): Table {
    if steps == [] then EMPTY_TABLE else Apply(TableAfter(steps[..|steps| - 1]), steps[|steps| - 1])
  }

  /** The reference: who is logged in under a key after these steps. The first login counts until a logout or the end of
      the connection. */
  function WhoIs(steps: seq<Step>, key: Key): Option<Account> {
    if steps == [] then None
    else
      var before := WhoIs(steps[..|steps| - 1], key);
      match steps[|steps| - 1]
      case Serve(k, LogIn(Some(u))) => if k == key && before.None? then Some(u.account) else before
      case Serve(k, LogOut(true)) => if k == key then None else before
      case Disconnect(k) => if k == key then None else before
      case _ => before
  }

  ghost predicate Online(t: Table, key: Key, who: Option<Account>) {
    forall a :: (IsBound(t, key, a) <==> who == Some(a)) && (key in KeysOf(t, a) <==> who == Some(a))
                && (IsAuthed(t, key, a) <==> who == Some(a))
  }

  lemma OnlineStays(t: Table, r: Table, at: Key, key: Key, who: Option<Account>)
    requires Online(t, key, who) && (key == at ==> r == GotOrCreated(t, key) && SessionsAgree(t))
    requires key != at ==> OthersStay(t, r, at)
    ensures Online(r, key, who)
  {
    forall a ensures (IsBound(r, key, a) <==> who == Some(a)) && (key in KeysOf(r, a) <==> who == Some(a))
                     && (IsAuthed(r, key, a) <==> who == Some(a)) {
      assert IsBound(t, key, a) <==> who == Some(a);
    }
  }

  lemma AuthedIsSomebody(t: Table, key: Key, who: Option<Account>)
    requires Online(t, key, who)
    ensures SessionOf(t, key).state == Authed <==> who.Some?
  {
    if SessionOf(t, key).state == Authed {
      assert IsAuthed(t, key, t.sessions[key].account);
    }
    if who.Some? {
      assert IsAuthed(t, key, who.value);
    }
  }

  lemma LoginKeepsOnline(t: Table, k: Key, verdict: Option<User>, key: Key, before: Option<Account>)
    requires Consistent(t) && Online(t, key, before)
    ensures Online(Handled(t, k, LogIn(verdict)), key,
                   if k == key && before.None? && verdict.Some? then Some(verdict.value.account) else before)
  {
    AuthedIsSomebody(t, key, before);
    LoginLogsIn(t, k, verdict);
    SessionIsCreatedOnce(t, k);
    if k != key || verdict.None? || before.Some? {
      OnlineStays(t, Handled(t, k, LogIn(verdict)), k, key, before);
    }
  }

  lemma LogoutKeepsOnline(t: Table, k: Key, revoked: bool, key: Key, before: Option<Account>)
    requires Consistent(t) && Online(t, key, before)
    ensures Online(Handled(t, k, LogOut(revoked)), key, if k == key && revoked then None else before)
  {
    AuthedIsSomebody(t, key, before);
    LogoutLogsOut(t, k, revoked);
    SessionIsCreatedOnce(t, k);
    if k != key || !revoked || before.None? {
      OnlineStays(t, Handled(t, k, LogOut(revoked)), k, key, before);
    }
  }

  lemma StepKeepsOnline(steps: seq<Step>, t: Table, key: Key)
    requires steps != [] && Consistent(t) && Online(t, key, WhoIs(steps[..|steps| - 1], key))
    ensures Online(Apply(t, steps[|steps| - 1]), key, WhoIs(steps, key))
  {
    var before := WhoIs(steps[..|steps| - 1], key);
    match steps[|steps| - 1]
    case Serve(k, LogIn(verdict)) => LoginKeepsOnline(t, k, verdict, key, before);
    case Serve(k, LogOut(revoked)) => LogoutKeepsOnline(t, k, revoked, key, before);
    case Serve(k, Other) =>
      SessionIsCreatedOnce(t, k);
      OnlineStays(t, GotOrCreated(t, k), k, key, before);
    case Disconnect(k) =>
      DisconnectLeavesNobody(t, k);
      if k != key { OnlineStays(t, Disconnected(t, k), k, key, before); }
  }

  /** After any series of requests and disconnects, in all three maps, a key is the account's that the history of the
      key says, and nobody's otherwise. */
  lemma {:induction false} OnlineIsWhatHappened(steps: seq<Step>, key: Key)
    ensures Consistent(TableAfter(steps)) && Online(TableAfter(steps), key, WhoIs(steps, key))
  {
    if steps != [] {
      var front, last := steps[..|steps| - 1], steps[|steps| - 1];
      OnlineIsWhatHappened(front, key);
      match last {
        case Serve(k, request) => HandledKeepsConsistent(TableAfter(front), k, request);
        case Disconnect(k) => DisconnectKeepsConsistent(TableAfter(front), k);
      }
      StepKeepsOnline(steps, TableAfter(front), key);
    }
  }

  // ---------------------------------------------------------------------------------------------
  // The class

  class SessionManager {
    var sessions: map<Key, Session>
    var accountConn: map<Account, set<Key>>
    var connAccount: map<Key, Account>

    function View(): Table
      reads this
    {
      Table(sessions, accountConn, connAccount)
    }

    constructor ()
      ensures View() == EMPTY_TABLE
    {
      sessions, accountConn, connAccount := map[], map[], map[];
    }

    method GetOrCreate(key: Key) returns (session: Session)
      modifies this
      ensures View() == GotOrCreated(old(View()), key) && session == View().sessions[key]
    {
      if key !in sessions {
        sessions := sessions[key := FRESH_SESSION];
      }
      session := sessions[key];
      assert View() == GotOrCreated(old(View()), key);
    }

    method BindUser(key: Key, u: User)
      modifies this
      ensures View() == Bound(old(View()), key, u)
    {
      var session := if key in sessions then sessions[key] else FRESH_SESSION;
      session := session.(userId := u.userId);
      session := session.(account := u.account);
      session := session.(name := u.name);
      session := session.(state := Authed);
      sessions := sessions[key := session];
      if u.account !in accountConn {
        accountConn := accountConn[u.account := {}];
      }
      accountConn := accountConn[u.account := accountConn[u.account] + {key}];
      connAccount := connAccount[key := u.account];
      assert View().accountConn == Bound(old(View()), key, u).accountConn;
    }

    method UnbindConn(key: Key)
      modifies this
      ensures View() == Unbound(old(View()), key)
    {
      if key !in connAccount {
        return;
      }
      var a := connAccount[key];
      if a !in accountConn {
        accountConn := accountConn[a := {}];
      }
      accountConn := accountConn[a := accountConn[a] - {key}];
      if accountConn[a] == {} {
        accountConn := accountConn - {a};
      }
      connAccount := connAccount - {key};
      assert View().accountConn == Unbound(old(View()), key).accountConn;
    }

    method Erase(key: Key)
      modifies this
      ensures View() == Erased(old(View()), key)
    {
      if key in sessions {
        sessions := sessions - {key};
      }
      assert View().sessions == Erased(old(View()), key).sessions;
    }

    /** Copies the account's key set into a vector, in whatever order the set is walked. */
    method ConnKeysByAccountId(a: Account) returns (keys: seq<Key>)
      ensures forall i, j :: 0 <= i < j < |keys| ==> keys[i] != keys[j]
      ensures forall k :: k in keys <==> k in KeysOf(View(), a)
    {
      keys := [];
      if a in accountConn {
        var left := accountConn[a];
        while left != {}
          invariant left <= accountConn[a]
          invariant forall k :: k in keys || k in left <==> k in accountConn[a]
          invariant forall k :: k in keys ==> k !in left
          invariant forall i, j :: 0 <= i < j < |keys| ==> keys[i] != keys[j]
          decreases left
        {
          var k := AnyOf(left);
          keys, left := keys + [k], left - {k};
        }
      }
    }

    /** handleAuth, handleLogin and handleTokenLogin: the guards in front of bindUser. */
    method HandleLogin(key: Key, verdict: Option<User>)
      modifies this
      ensures View() == LoggedIn(old(View()), key, verdict)
      ensures verdict.None? || SessionOf(old(View()), key).state == Authed ==> View() == old(View())
      ensures Consistent(old(View())) && verdict.Some? && SessionOf(old(View()), key).state != Authed ==>
                Only(View(), key, verdict.value.account) && OthersStay(old(View()), View(), key)
    {
      ghost var was := View();
      if Consistent(was) {
        LoginEffect(was, key, verdict);
      }
      if key in sessions && sessions[key].state == Authed {
        return;
      }
      if verdict.Some? {
        BindUser(key, verdict.value);
      }
    }

    method HandleLogout(key: Key, revoked: bool)
      modifies this
      ensures View() == LoggedOut(old(View()), key, revoked)
      ensures !revoked || SessionOf(old(View()), key).state != Authed ==> View() == old(View())
      ensures Consistent(old(View())) && revoked && SessionOf(old(View()), key).state == Authed ==>
                && Nobody(View(), key) && OthersStay(old(View()), View(), key) && key in sessions
                && sessions[key].state == Connected && sessions[key].account == "" && sessions[key].userId == 0
    {
      ghost var was := View();
      if Consistent(was) {
        LogoutEffect(was, key, revoked);
      }
      if revoked && key in sessions && sessions[key].state == Authed {
        UnbindConn(key);
        var session := sessions[key].(account := "");
        session := session.(state := Connected);
        session := session.(userId := 0);
        sessions := sessions[key := session];
      }
    }

    method OnMessage(key: Key, request: Request)
      modifies this
      ensures View() == Handled(old(View()), key, request)
      ensures Consistent(old(View())) ==> Consistent(View())
    {
      ghost var was := View();
      if Consistent(was) {
        HandledKeepsConsistent(was, key, request);
      }
      var session := GetOrCreate(key);
      match request
      case LogIn(verdict) => HandleLogin(key, verdict);
      case LogOut(revoked) => HandleLogout(key, revoked);
      case Other =>
    }

    method OnDisconnect(key: Key)
      modifies this
      ensures View() == Disconnected(old(View()), key)
      ensures Consistent(old(View())) ==>
                Nobody(View(), key) && OthersStay(old(View()), View(), key) && key !in sessions
    {
      ghost var was := View();
      if Consistent(was) {
        DisconnectLeavesNobody(was, key);
      }
      UnbindConn(key);
      Erase(key);
    }
  }
}
