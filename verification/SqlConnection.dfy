/** SqlConnection: the flags of one connection, the driver session behind it, and the statements cached on it. A
    session ends when the connection is closed or found broken; a reconnect begins another. */
module SqlConnections {

  import opened Collections
  import opened SqlPools
  import opened StatementCaches

  class SqlConnection {
    const cache: PreparedStatementCache
    var flags: Conn
    var session: nat
    ghost var requests: seq<string>

    /** Everything cached was prepared on the present session; a broken connection has nothing cached. */
    ghost predicate Valid()
      reads this, cache
    {
      && cache.Valid()
      && ListOk(cache.View(), cache.capacity, session, requests)
      && (flags.broken || !flags.connected ==> cache.View() == [])
    }

    constructor (cacheSize: nat)
      requires cacheSize > 0
      ensures Valid() && fresh(cache) && flags == Conn(false, false, true, false)
    {
      cache := new PreparedStatementCache(cacheSize);
      flags, session, requests := Conn(false, false, true, false), 0, [];
    }

    method ClearCache()
      requires cache.Valid()
      modifies this, cache
      ensures cache.Valid() && cache.View() == [] && requests == [] && flags == old(flags) && session == old(session)
    {
      cache.Clear();
      requests := [];
    }

    method MarkConnectionBroken()
      requires Valid()
      modifies this, cache
      ensures Valid() && flags == MarkBroken(old(flags)) && session == old(session)
    {
      flags := flags.(broken := true, connected := false);
      ClearCache();
    }

    /** Clears the cache before the old session is closed, so no statement survives into the next one. */
    method Reconnect(connects: bool) returns (ok: bool)
      requires Valid()
      modifies this, cache
      ensures Valid() && ok == connects && cache.View() == []
      ensures flags.connected == connects && flags.broken == !connects
      ensures flags.inTransaction == old(flags).inTransaction && session == old(session) + (if connects then 1 else 0)
    {
      ClearCache();
      flags := flags.(connected := false);
      if connects {
        session := session + 1;
        flags := flags.(connected := true, broken := false);
      } else {
        flags := flags.(broken := true);
      }
      ok := connects;
    }

    method EnsureConnected(connects: bool) returns (ok: bool)
      requires Valid()
      modifies this, cache
      ensures Valid() && (ok ==> flags.connected && !flags.broken) && flags.inTransaction == old(flags).inTransaction
      ensures old(flags).connected && !old(flags).broken ==> ok && session == old(session) && flags == old(flags)
    {
      if flags.connected && !flags.broken {
        return true;
      }
      ok := Reconnect(connects);
    }

    /** The statement from the cache, or a new one that the driver prepares on the current session. */
    method GetStatement(name: string, sql: string, prepares: Driver) returns (statement: Option<Statement>)
      requires Valid() && name != "" && flags.connected && !flags.broken
      modifies this, cache
      ensures Valid() && flags == old(flags) && session == old(session)
      ensures statement.Some? ==> statement.value == Statement(sql, session)
    {
      var prepared := if prepares.Works? then Some(Statement(sql, session)) else None;
      RequestKeepsList(cache.View(), cache.capacity, session, requests, name, sql, prepared);
      statement := cache.GetOrPrepare(name, sql, prepared);
      if statement.Some? {
        requests := requests + [name];
      }
    }

    /** queryPrepared and executePrepared by name: the statement that runs was prepared from exactly this text on the
        session that is now current. */
    method RunPrepared(name: string, sql: string, connects: bool, prepares: Driver, executes: Driver)
      returns (statement: Option<Statement>)
      requires Valid()
      modifies this, cache
      ensures Valid()
      ensures statement.Some? ==> statement.value == Statement(sql, session) && name != ""
      ensures |cache.View()| <= cache.capacity
    {
      if name == "" {
        return None;
      }
      var ok := EnsureConnected(connects);
      if !ok {
        return None;
      }
      statement := GetStatement(name, sql, prepares);
      if (statement.None? && prepares.ConnectionError?) || (statement.Some? && executes.ConnectionError?) {
        MarkConnectionBroken();
      }
    }

    method BeginTransaction(connects: bool, driver: Driver) returns (ok: bool)
      requires Valid()
      modifies this, cache
      ensures Valid() && (ok ==> flags.inTransaction && !old(flags).inTransaction && !flags.broken)
      ensures !ok ==> flags.inTransaction == old(flags).inTransaction
    {
      ok := EnsureConnected(connects);
      if !ok || flags.inTransaction {
        return false;
      }
      if driver.Works? {
        flags := flags.(inTransaction := true, autoCommit := false);
        return true;
      }
      if driver.ConnectionError? {
        MarkConnectionBroken();
      }
      ok := false;
    }

    /** A commit that the driver refuses leaves the connection broken, so it is never handed out again; a foreign
        exception passes through and leaves the transaction open. */
    method Commit(driver: Driver) returns (ok: bool)
      requires Valid()
      modifies this, cache
      ensures Valid()
      ensures ok <==> old(flags).connected && old(flags).inTransaction && driver.Works?
      ensures ok ==> !flags.inTransaction && flags.autoCommit
      ensures !ok && old(flags).connected && old(flags).inTransaction ==>
                if driver.ForeignException? then flags == old(flags) else flags.broken
    {
      if !flags.connected || !flags.inTransaction || driver.ForeignException? {
        return false;
      }
      if driver.Works? {
        flags := flags.(inTransaction := false, autoCommit := true);
        return true;
      }
      MarkConnectionBroken();
      ok := false;
    }

    method Rollback(driver: Driver) returns (ok: bool)
      requires Valid()
      modifies this, cache
      ensures Valid() && (flags, ok) == RolledBack(old(flags), driver)
    {
      if !flags.connected || driver.ForeignException? {
        return false;
      }
      if driver.Works? {
        flags := flags.(inTransaction := false, autoCommit := true);
        return true;
      }
      flags := flags.(autoCommit := true);
      MarkConnectionBroken();
      ok := false;
    }

    method ResetSessionStateSafe(driver: Driver) returns (ok: bool)
      requires Valid()
      modifies this, cache
      ensures Valid() && (flags, ok) == ResetSafe(old(flags), driver)
      ensures ok && !flags.broken ==> Clean(flags)
    {
      if driver.ForeignException? {
        return false;
      }
      if flags.inTransaction {
        ok := Rollback(driver);
        if !ok {
          flags := flags.(broken := true);
        }
        return;
      }
      if driver.ConnectionError? {
        MarkConnectionBroken();
      }
      ok := driver.Works?;
    }
  }
}
