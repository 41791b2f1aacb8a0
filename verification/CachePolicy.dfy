/** What PreparedStatementCache keeps: after any series of requests, the names used most recently, as many as there is
    room for, each with the text it was last requested with. */
module CachePolicies {

  import opened Collections
  import opened StatementCaches

  /** A statement name and the text it is to stand for. */
  datatype Ask = Ask(name: string, sql: string)

  // ---------------------------------------------------------------------------------------------
  // The reference: names in the order of their last use

  /** The list without the first occurrence of a name. */
  function Drop(names: seq<string>, name: string): seq<string> {
    if names == [] then []
    else if names[0] == name then names[1..]
    else [names[0]] + Drop(names[1..], name)
  }

  /** Every name asked for, once, latest use first. */
  function Recent(asks: seq<Ask>): seq<string> {
    if asks == [] then []
    else
      var name := asks[|asks| - 1].name;
      [name] + Drop(Recent(asks[..|asks| - 1]), name)
  }

  /** The text a name was last asked for with. */
  function TextOf(asks: seq<Ask>, name: string): string {
    if asks == [] then ""
    else
      var last := asks[|asks| - 1];
      if last.name == name then last.sql else TextOf(asks[..|asks| - 1], name)
  }

  function Take(names: seq<string>, n: nat): seq<string> {
    if |names| <= n then names else names[..n]
  }

  lemma {:induction false} DropAbsent(names: seq<string>, name: string)
    requires name !in names
    ensures Drop(names, name) == names
    decreases |names|
  {
    if names != [] {
      DropAbsent(names[1..], name);
      assert names == [names[0]] + names[1..];
    }
  }

  lemma {:induction false} DropAt(names: seq<string>, i: nat)
    requires i < |names| && names[i] !in names[..i]
    ensures Drop(names, names[i]) == names[..i] + names[i + 1..]
    decreases |names|
  {
    if i > 0 {
      assert names[1..][i - 1] == names[i] && names[1..][..i - 1] == names[..i][1..];
      DropAt(names[1..], i - 1);
      assert names[1..][i..] == names[i + 1..];
      assert names[0] in names[..i];
      assert [names[0]] + (names[..i][1..] + names[i + 1..]) == names[..i] + names[i + 1..];
    }
  }

  lemma FrontIsDistinct(names: seq<string>, i: nat)
    requires Distinct(names) && i < |names|
    ensures Distinct([names[i]] + (names[..i] + names[i + 1..]))
  {
  }

  lemma UseIsDistinct(names: seq<string>, name: string)
    requires Distinct(names)
    ensures Distinct([name] + Drop(names, name))
  {
    if name in names {
      var i :| 0 <= i < |names| && names[i] == name;
      DropAt(names, i);
      FrontIsDistinct(names, i);
    } else {
      DropAbsent(names, name);
    }
  }

  lemma {:induction false} RecentIsDistinct(asks: seq<Ask>)
    ensures Distinct(Recent(asks))
  {
    if asks != [] {
      RecentIsDistinct(asks[..|asks| - 1]);
      UseIsDistinct(Recent(asks[..|asks| - 1]), asks[|asks| - 1].name);
    }
  }

  /** Moving an element to the front and cutting off behind it can be done in either order. */
  lemma FrontThenCut(names: seq<string>, i: nat, n: nat)
    requires i < n <= |names|
    ensures ([names[i]] + (names[..i] + names[i + 1..]))[..n] == [names[i]] + (names[..n][..i] + names[..n][i + 1..])
  {
  }

  lemma TakeAfterUseKept(names: seq<string>, i: nat, n: nat)
    requires Distinct(names) && i < |names| && i < n
    ensures Take([names[i]] + Drop(names, names[i]), n) == [names[i]] + Drop(Take(names, n), names[i])
  {
    DropAt(names, i);
    if |names| > n {
      assert names[..n][i] == names[i] && names[..n][..i] == names[..i];
      DropAt(names[..n], i);
      FrontThenCut(names, i, n);
    }
  }

  lemma TakeHas(names: seq<string>, i: nat, n: nat)
    requires i < |names|
    ensures i < n ==> names[i] in Take(names, n)
  {
    if i < n {
      assert Take(names, n)[i] == names[i];
    }
  }

  lemma TakeAfterUseOther(names: seq<string>, name: string, n: nat)
    requires n > 0 && Distinct(names) && name !in Take(names, n)
    ensures Take([name] + Drop(names, name), n) == [name] + Take(Take(names, n), n - 1)
  {
    if name in names {
      var i :| 0 <= i < |names| && names[i] == name;
      TakeHas(names, i, n);
      DropAt(names, i);
    } else {
      DropAbsent(names, name);
    }
  }

  // ---------------------------------------------------------------------------------------------
  // The cache

  function Names(items: seq<Item>): (names: seq<string>)
    ensures |names| == |items| && forall i :: 0 <= i < |items| ==> names[i] == items[i].name
  {
    seq(|items|, i requires 0 <= i < |items| => items[i].name)
  }

  lemma NamesCut(items: seq<Item>, i: nat)
    requires i < |items|
    ensures Names(Cut(items, i)) == Names(items)[..i] + Names(items)[i + 1..]
  {
  }

  lemma FoundIsNamed(items: seq<Item>, name: string)
    ensures name in Names(items) <==> Find(items, name) < |items|
  {
    var i := Find(items, name);
    if i < |items| {
      assert Names(items)[i] == name;
    }
  }

  lemma NamesWithout(items: seq<Item>, name: string)
    requires DistinctNames(items)
    ensures Names(Without(items, name)) == Drop(Names(items), name)
    ensures name !in Names(items) ==> Without(items, name) == items && Lookup(items, name).None?
    ensures name in Names(items) ==> |Without(items, name)| == |items| - 1 && Lookup(items, name).Some?
    ensures forall item :: item in Without(items, name) <==> item in items && item.name != name
  {
    var i, names := Find(items, name), Names(items);
    FoundIsNamed(items, name);
    if i < |items| {
      NamesCut(items, i);
      DropAt(names, i);
      WithoutHas(items, i);
    } else {
      DropAbsent(names, name);
    }
  }

  lemma WithoutHas(items: seq<Item>, i: nat)
    requires DistinctNames(items) && i < |items|
    ensures forall item :: item in Cut(items, i) <==> item in items && item.name != items[i].name
  {
    var l := Cut(items, i);
    forall item | item in items && item.name != items[i].name ensures item in l {
      var k :| 0 <= k < |items| && items[k] == item;
      assert l[if k < i then k else k - 1] == item;
    }
    forall item | item in l ensures item in items && item.name != items[i].name {
      var k :| 0 <= k < |l| && l[k] == item;
      assert items[if k < i then k else k + 1] == item;
    }
  }

  /** A statement that is in the cache with the requested text is the one that is returned, whatever preparing it again
      would give, and nothing leaves the cache. */
  lemma HitIsReturned(items: seq<Item>, capacity: nat, item: Item, prepared: Option<Statement>)
    requires DistinctNames(items) && item in items
    ensures var (r, statement) := Requested(items, capacity, item.name, item.sql, prepared);
            statement == Some(item.statement) && |r| == |items| && forall x :: x in r <==> x in items
  {
    var i :| 0 <= i < |items| && items[i] == item;
    assert Find(items, item.name) == i;
    FrontHas(items, i);
  }

  lemma FrontHas(items: seq<Item>, i: nat)
    requires DistinctNames(items) && i < |items|
    ensures var r := [items[i]] + Cut(items, i); |r| == |items| && forall x :: x in r <==> x in items
  {
    var r := [items[i]] + Cut(items, i);
    WithoutHas(items, i);
    forall x ensures x in r <==> x in items {
      assert x in r <==> x == items[i] || x in Cut(items, i);
      SameNameIsSame(items, i, x);
    }
  }

  lemma SameNameIsSame(items: seq<Item>, i: nat, x: Item)
    requires DistinctNames(items) && i < |items|
    ensures x in items && x.name == items[i].name ==> x == items[i]
  {
  }

  /** A request whose statement cannot be prepared returns none and adds nothing. It costs the cache the entry under
      that name with another text; without one it costs a full cache the last entry. */
  lemma FailureCosts(items: seq<Item>, capacity: nat, name: string, sql: string)
    requires DistinctNames(items) && capacity > 0 && |items| <= capacity
    requires forall item :: item in items && item.name == name ==> item.sql != sql
    ensures var (r, statement) := Requested(items, capacity, name, sql, None);
            && statement.None?
            && (name in Names(items) ==> forall x :: x in r <==> x in items && x.name != name)
            && (name !in Names(items) ==> r == if |items| == capacity then items[..|items| - 1] else items)
  {
    NamesWithout(items, name);
    if name in Names(items) {
      assert Lookup(items, name).value in items;
    }
  }

  // ---------------------------------------------------------------------------------------------
  // Every series of requests

  /** The cache after these requests on one session, all of which could be prepared. */
  function Cached(asks: seq<Ask>, capacity: nat, session: nat): seq<Item> {
    if asks == [] then []
    else
      var last := asks[|asks| - 1];
      Requested(Cached(asks[..|asks| - 1], capacity, session), capacity, last.name, last.sql,
                Some(Statement(last.sql, session))).0
  }

  ghost predicate Texts(items: seq<Item>, asks: seq<Ask>, session: nat) {
    forall item :: item in items ==>
      item.sql == TextOf(asks, item.name) && item.statement == Statement(item.sql, session)
  }

  lemma NamesFront(item: Item, rest: seq<Item>)
    ensures Names([item] + rest) == [item.name] + Names(rest)
  {
  }

  lemma NamesEvicted(rest: seq<Item>, capacity: nat)
    requires capacity > 0 && |rest| <= capacity
    ensures Names(Evicted(rest, capacity)) == Take(Names(rest), capacity - 1)
  {
  }

  lemma RequestNames(items: seq<Item>, capacity: nat, ask: Ask, session: nat)
    requires capacity > 0 && DistinctNames(items) && |items| <= capacity
    ensures var r := Requested(items, capacity, ask.name, ask.sql, Some(Statement(ask.sql, session))).0;
            Names(r) == [ask.name] + if ask.name in Names(items) then Drop(Names(items), ask.name)
                                     else Take(Names(items), capacity - 1)
  {
    var found, rest := Lookup(items, ask.name), Without(items, ask.name);
    NamesWithout(items, ask.name);
    NamesEvicted(rest, capacity);
    NamesFront(Item(ask.name, ask.sql, Statement(ask.sql, session)), Evicted(rest, capacity));
    if found.Some? {
      NamesFront(found.value, rest);
    }
  }

  lemma RequestTexts(items: seq<Item>, capacity: nat, asks: seq<Ask>, session: nat)
    requires asks != [] && DistinctNames(items) && Texts(items, asks[..|asks| - 1], session)
    ensures var last := asks[|asks| - 1];
            Texts(Requested(items, capacity, last.name, last.sql, Some(Statement(last.sql, session))).0, asks, session)
  {
    var last := asks[|asks| - 1];
    var r := Requested(items, capacity, last.name, last.sql, Some(Statement(last.sql, session))).0;
    NamesWithout(items, last.name);
    forall item | item in r
      ensures item.sql == TextOf(asks, item.name) && item.statement == Statement(item.sql, session)
    {
      if item != r[0] {
        var rest := Without(items, last.name);
        assert item in rest;
      }
    }
  }

  /** After any series of requests the cache holds exactly the names used last, as many as it has room for and in the
      order of their last use, each with the text it was last asked for with, prepared on this session. */
  lemma {:induction false} CacheIsMostRecent(asks: seq<Ask>, capacity: nat, session: nat)
    requires capacity > 0
    ensures var items := Cached(asks, capacity, session);
            && Names(items) == Take(Recent(asks), capacity) && DistinctNames(items) && Texts(items, asks, session)
  {
    RecentIsDistinct(asks);
    if asks != [] {
      var front, last := asks[..|asks| - 1], asks[|asks| - 1];
      var before := Cached(front, capacity, session);
      CacheIsMostRecent(front, capacity, session);
      RecentIsDistinct(front);
      RequestNames(before, capacity, last, session);
      RequestTexts(before, capacity, asks, session);
      UsedLast(Recent(front), last.name, capacity);
      DistinctByName(Cached(asks, capacity, session), Recent(asks), capacity);
    }
  }

  lemma UsedLast(names: seq<string>, name: string, n: nat)
    requires n > 0 && Distinct(names)
    ensures Take([name] + Drop(names, name), n)
            == [name] + if name in Take(names, n) then Drop(Take(names, n), name) else Take(Take(names, n), n - 1)
  {
    if name in Take(names, n) {
      var i :| 0 <= i < |Take(names, n)| && Take(names, n)[i] == name;
      assert names[i] == name;
      TakeAfterUseKept(names, i, n);
    } else {
      TakeAfterUseOther(names, name, n);
    }
  }

  lemma DistinctByName(items: seq<Item>, names: seq<string>, n: nat)
    requires Names(items) == Take(names, n) && Distinct(names)
    ensures DistinctNames(items)
  {
    forall i, j | 0 <= i < j < |items| ensures items[i].name != items[j].name {
      assert Names(items)[i] == names[i] && Names(items)[j] == names[j];
    }
  }
}
