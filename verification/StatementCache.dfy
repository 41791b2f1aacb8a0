/** PreparedStatementCache: a recency list of names and a map of entries that point into it. */
module StatementCaches {

  import opened Collections

  /** A statement the driver prepared, with the text and the session it was prepared on. */
  datatype Statement = Statement(text: string, session: nat)

  datatype Item = Item(name: string, sql: string, statement: Statement)

  // ---------------------------------------------------------------------------------------------
  // The specification: a list of items, most recently used first

  predicate DistinctNames(items: seq<Item>) {
    forall i, j :: 0 <= i < j < |items| ==> items[i].name != items[j].name
  }

  predicate Holds(items: seq<Item>, name: string) {
    exists i :: 0 <= i < |items| && items[i].name == name
  }

  /** Where a name stands, or the length of the list. */
  function Find(items: seq<Item>, name: string): (i: nat)
    ensures i <= |items|
    ensures i < |items| ==> items[i].name == name
    ensures forall j :: 0 <= j < i ==> items[j].name != name
  {
    if items == [] then 0
    else
      var last := |items| - 1;
      var i := Find(items[..last], name);
      if i == last && items[last].name != name then |items| else i
  }

  /** The list without what stands at a place. */
  function Cut<T>(items: seq<T>, i: nat): seq<T>
    requires i <= |items|
  {
    if i == |items| then items else items[..i] + items[i + 1..]
  }

  lemma LastIsCutOff<T>(items: seq<T>)
    requires items != []
    ensures Cut(items, |items| - 1) == items[..|items| - 1]
  {
    assert items[|items|..] == [];
  }

  function Without(items: seq<Item>, name: string): seq<Item> {
    Cut(items, Find(items, name))
  }

  function Lookup(items: seq<Item>, name: string): Option<Item> {
    var i := Find(items, name);
    if i < |items| then Some(items[i]) else None
  }

  /** A name whose text matches is moved to the front. Otherwise an entry with another text goes, then, when the cache
      is still full, the last one; then the statement is prepared, which may fail, and put in front. */
  function Requested(items: seq<Item>, capacity: nat, name: string, sql: string, prepared: Option<Statement>):
    (seq<Item>, Option<Statement>)
  {
    var found := Lookup(items, name);
    var rest := Without(items, name);
    if found.Some? && found.value.sql == sql then ([found.value] + rest, Some(found.value.statement))
    else
      var room := Evicted(rest, capacity);
      if prepared.None? then (room, None) else ([Item(name, sql, prepared.value)] + room, prepared)
  }

  // ---------------------------------------------------------------------------------------------
  // Recency

  /** The last position at which a name was requested, or -1. */
  function LastUse(requests: seq<string>, name: string): int {
    if requests == [] then -1
    else if requests[|requests| - 1] == name then |requests| - 1
    else LastUse(requests[..|requests| - 1], name)
  }

  lemma {:induction false} LastUseBound(requests: seq<string>, name: string)
    ensures -1 <= LastUse(requests, name) < |requests|
    decreases |requests|
  {
    if requests != [] && requests[|requests| - 1] != name {
      LastUseBound(requests[..|requests| - 1], name);
    }
  }

  /** The list is ordered by last use, latest first. */
  ghost predicate ByRecency(items: seq<Item>, requests: seq<string>) {
    forall i, j :: 0 <= i < j < |items| ==>
      LastUse(requests, items[i].name) > LastUse(requests, items[j].name)
  }

  lemma OneMoreRequest(requests: seq<string>, name: string, other: string)
    ensures LastUse(requests + [name], name) == |requests|
    ensures other != name ==> LastUse(requests + [name], other) == LastUse(requests, other) < |requests|
  {
    assert (requests + [name])[..|requests|] == requests;
    LastUseBound(requests, other);
  }

  /** Putting a name in front, over a list without it, keeps the order. */
  lemma FrontIsLatest(rest: seq<Item>, item: Item, requests: seq<string>)
    requires ByRecency(rest, requests) && !Holds(rest, item.name)
    ensures ByRecency([item] + rest, requests + [item.name])
  {
    var items := [item] + rest;
    forall i, j | 0 <= i < j < |items|
      ensures LastUse(requests + [item.name], items[i].name) > LastUse(requests + [item.name], items[j].name)
    {
      OneMoreRequest(requests, item.name, items[i].name);
      OneMoreRequest(requests, item.name, items[j].name);
      assert items[j] == rest[j - 1];
    }
  }

  ghost predicate ListOk(items: seq<Item>, capacity: nat, session: nat, requests: seq<string>) {
    && DistinctNames(items) && |items| <= capacity
    && (forall i :: 0 <= i < |items| ==> items[i].statement == Statement(items[i].sql, session))
    && ByRecency(items, requests)
  }

  function Evicted(rest: seq<Item>, capacity: nat): seq<Item> {
    if |rest| >= capacity && rest != [] then rest[..|rest| - 1] else rest
  }

  lemma SubsetOnSession(items: seq<Item>, rest: seq<Item>, session: nat)
    requires forall item :: item in rest ==> item in items
    requires forall i :: 0 <= i < |items| ==> items[i].statement == Statement(items[i].sql, session)
    ensures forall i :: 0 <= i < |rest| ==> rest[i].statement == Statement(rest[i].sql, session)
  {
    forall i | 0 <= i < |rest| ensures rest[i].statement == Statement(rest[i].sql, session) {
      assert rest[i] in items;
    }
  }

  lemma RestIsOk(items: seq<Item>, capacity: nat, session: nat, requests: seq<string>, name: string)
    requires ListOk(items, capacity, session, requests)
    ensures ListOk(Without(items, name), capacity, session, requests) && !Holds(Without(items, name), name)
  {
  }

  lemma FrontIsOk(rest: seq<Item>, capacity: nat, session: nat, requests: seq<string>, item: Item)
    requires ListOk(rest, capacity, session, requests) && !Holds(rest, item.name) && |rest| < capacity
    requires item.statement == Statement(item.sql, session)
    ensures ListOk([item] + rest, capacity, session, requests + [item.name])
  {
    FrontIsLatest(rest, item, requests);
  }

  /** Every request keeps the list free of duplicates, within capacity, ordered by last use and on this session; what
      it returns was prepared from exactly the requested text on this session, and stands in front. */
  lemma RequestKeepsList(items: seq<Item>, capacity: nat, session: nat, requests: seq<string>, name: string,
                         sql: string, prepared: Option<Statement>)
    requires capacity > 0 && ListOk(items, capacity, session, requests)
    requires prepared.Some? ==> prepared.value == Statement(sql, session)
    ensures var (r, statement) := Requested(items, capacity, name, sql, prepared);
            if statement.None? then prepared.None? && ListOk(r, capacity, session, requests)
            else statement.value == Statement(sql, session) && ListOk(r, capacity, session, requests + [name])
                 && r != [] && r[0] == Item(name, sql, statement.value)
  {
    var rest, found := Without(items, name), Lookup(items, name);
    RestIsOk(items, capacity, session, requests, name);
    if found.Some? && found.value.sql == sql {
      SubsetOnSession(items, [found.value], session);
      assert [found.value][0] == found.value;
      FrontIsOk(rest, capacity, session, requests, found.value);
    } else if prepared.Some? {
      FrontIsOk(Evicted(rest, capacity), capacity, session, requests, Item(name, sql, prepared.value));
    }
  }

  /** Eviction takes nothing while there is room; from a full list it takes the one item whose last use is furthest
      back, and keeps all others. */
  lemma VictimIsLeastRecent(rest: seq<Item>, capacity: nat, requests: seq<string>, gone: Item, kept: Item)
    requires ByRecency(rest, requests) && DistinctNames(rest)
    requires gone in rest && gone !in Evicted(rest, capacity) && kept in rest && kept != gone
    ensures |rest| >= capacity && kept in Evicted(rest, capacity)
    ensures LastUse(requests, gone.name) < LastUse(requests, kept.name)
  {
    var last := |rest| - 1;
    assert gone == rest[last];
    var i :| 0 <= i < |rest| && rest[i] == kept;
    assert rest[..last][i] == kept;
  }

  // ---------------------------------------------------------------------------------------------
  // The class: a list of nodes, and entries that point at their node

  datatype Node = Node(id: nat, name: string)
  datatype Entry = Entry(sql: string, statement: Statement, node: nat)

  predicate Named(lru: seq<Node>, entries: map<string, Entry>) {
    forall i :: 0 <= i < |lru| ==> lru[i].name in entries
  }

  function ViewOf(lru: seq<Node>, entries: map<string, Entry>): seq<Item>
    requires Named(lru, entries)
  {
    seq(|lru|, i requires 0 <= i < |lru| =>
      Item(lru[i].name, entries[lru[i].name].sql, entries[lru[i].name].statement))
  }

  predicate HasName(lru: seq<Node>, name: string) {
    exists i :: 0 <= i < |lru| && lru[i].name == name
  }

  predicate DistinctNodes(lru: seq<Node>) {
    forall i, j :: 0 <= i < j < |lru| ==> lru[i].name != lru[j].name && lru[i].id != lru[j].id
  }

  /** Each entry points at its own node. */
  predicate Pointing(lru: seq<Node>, entries: map<string, Entry>) {
    forall i :: 0 <= i < |lru| ==> lru[i].name in entries && entries[lru[i].name].node == lru[i].id
  }

  /** The list is a permutation of the entries' names without duplicates, and each entry points at its own node. */
  ghost predicate Linked(lru: seq<Node>, entries: map<string, Entry>) {
    && Named(lru, entries) && Pointing(lru, entries) && DistinctNodes(lru)
    && (forall name :: name in entries ==> HasName(lru, name))
    && |entries| == |lru|
  }

  lemma CutNodes(lru: seq<Node>, i: nat)
    requires DistinctNodes(lru) && i < |lru|
    ensures DistinctNodes(Cut(lru, i))
    ensures forall node :: node in Cut(lru, i) ==> node in lru && node.name != lru[i].name && node.id != lru[i].id
    ensures forall name :: name != lru[i].name && HasName(lru, name) ==> HasName(Cut(lru, i), name)
  {
    var l := Cut(lru, i);
    forall k | 0 <= k < |l| ensures l[k] == (if k < i then lru[k] else lru[k + 1]) {
    }
    forall name | name != lru[i].name && HasName(lru, name) ensures HasName(l, name) {
      var k :| 0 <= k < |lru| && lru[k].name == name;
      assert l[if k < i then k else k - 1].name == name;
    }
  }

  lemma CutView(lru: seq<Node>, entries: map<string, Entry>, rest: map<string, Entry>, i: nat)
    requires Named(lru, entries) && i < |lru| && Named(Cut(lru, i), rest)
    requires forall name :: name in rest ==> name in entries && rest[name] == entries[name]
    ensures ViewOf(Cut(lru, i), rest) == Cut(ViewOf(lru, entries), i)
  {
  }

  lemma EraseKeepsLinks(lru: seq<Node>, entries: map<string, Entry>, i: nat)
    requires Linked(lru, entries) && i < |lru|
    ensures var l, e := Cut(lru, i), entries - {lru[i].name};
            Linked(l, e) && ViewOf(l, e) == Cut(ViewOf(lru, entries), i)
  {
    var l, e := Cut(lru, i), entries - {lru[i].name};
    CutNodes(lru, i);
    forall k | 0 <= k < |l| ensures l[k].name in e && e[l[k].name].node == l[k].id {
      assert l[k] in lru;
    }
    assert entries.Keys == e.Keys + {lru[i].name};
    CutView(lru, entries, e, i);
  }

  lemma EvictKeepsLinks(lru: seq<Node>, entries: map<string, Entry>)
    requires Linked(lru, entries) && lru != []
    ensures var last := |lru| - 1; var l, e := lru[..last], entries - {lru[last].name};
            Linked(l, e) && ViewOf(l, e) == ViewOf(lru, entries)[..last]
  {
    EraseKeepsLinks(lru, entries, |lru| - 1);
    LastIsCutOff(lru);
    LastIsCutOff(ViewOf(lru, entries));
  }

  lemma TouchKeepsLinks(lru: seq<Node>, entries: map<string, Entry>, i: nat)
    requires Linked(lru, entries) && i < |lru|
    ensures Linked([lru[i]] + Cut(lru, i), entries)
  {
    var c, l := Cut(lru, i), [lru[i]] + Cut(lru, i);
    CutNodes(lru, i);
    forall k | 0 <= k < |l| ensures l[k] in lru {
      assert k > 0 ==> l[k] == c[k - 1];
    }
    forall name | name in entries ensures HasName(l, name) {
      FrontHasNames(c, lru[i], name);
    }
  }

  lemma FrontHasNames(lru: seq<Node>, node: Node, name: string)
    requires name == node.name || HasName(lru, name)
    ensures HasName([node] + lru, name)
  {
    var l := [node] + lru;
    if name == node.name {
      assert l[0].name == name;
    } else {
      var k :| 0 <= k < |lru| && lru[k].name == name;
      assert l[k + 1].name == name;
    }
  }

  lemma FrontView(lru: seq<Node>, entries: map<string, Entry>, node: Node)
    requires Named(lru, entries) && node.name in entries
    ensures Named([node] + lru, entries)
    ensures ViewOf([node] + lru, entries)
            == [Item(node.name, entries[node.name].sql, entries[node.name].statement)] + ViewOf(lru, entries)
  {
  }

  lemma InsertKeepsLinks(lru: seq<Node>, entries: map<string, Entry>, node: Node, entry: Entry)
    requires Linked(lru, entries) && node.name !in entries && entry.node == node.id
    requires forall i :: 0 <= i < |lru| ==> lru[i].id != node.id
    ensures var l, e := [node] + lru, entries[node.name := entry];
            Linked(l, e)
            && ViewOf(l, e) == [Item(node.name, entry.sql, entry.statement)] + ViewOf(lru, entries)
  {
    var l, e := [node] + lru, entries[node.name := entry];
    forall k | 0 < k < |l| ensures l[k] == lru[k - 1] {}
    forall name | name in e ensures HasName(l, name) {
      FrontHasNames(lru, node, name);
    }
    FrontView(lru, e, node);
    assert ViewOf(lru, e) == ViewOf(lru, entries);
  }

  lemma FindIsPlace(lru: seq<Node>, entries: map<string, Entry>, i: nat)
    requires Linked(lru, entries) && i < |lru|
    ensures Find(ViewOf(lru, entries), lru[i].name) == i
  {
    var items := ViewOf(lru, entries);
    assert items[i].name == lru[i].name;
    var f := Find(items, lru[i].name);
    assert f < |items| ==> items[f].name == lru[f].name;
  }

  lemma RequestedMiss(items: seq<Item>, capacity: nat, name: string, sql: string, prepared: Option<Statement>)
    requires var found := Lookup(items, name); found.None? || found.value.sql != sql
    ensures Requested(items, capacity, name, sql, prepared) ==
            ((if prepared.Some? then [Item(name, sql, prepared.value)] else [])
             + Evicted(Without(items, name), capacity), prepared)
  {
    assert [] + Evicted(Without(items, name), capacity) == Evicted(Without(items, name), capacity);
  }

  class PreparedStatementCache {
    const capacity: nat
    var lru: seq<Node>
    var entries: map<string, Entry>
    var nextNode: nat

    ghost predicate Valid()
      reads this
    {
      Linked(lru, entries) && capacity > 0 && forall i :: 0 <= i < |lru| ==> lru[i].id < nextNode
    }

    ghost function View(): seq<Item>
      requires Valid()
      reads this
    {
      ViewOf(lru, entries)
    }

    constructor (capacity: nat)
      requires capacity > 0
      ensures Valid() && View() == [] && this.capacity == capacity
    {
      this.capacity, lru, entries, nextNode := capacity, [], map[], 0;
    }

    /** Where the node that an entry points at stands in the list. */
    method PlaceOf(name: string) returns (i: nat)
      requires Valid() && name in entries
      ensures i < |lru| && lru[i].name == name && lru[i].id == entries[name].node
      ensures Find(View(), name) == i
    {
      i := 0;
      assert HasName(lru, name);
      ghost var place :| 0 <= place < |lru| && lru[place].name == name;
      while lru[i].id != entries[name].node
        invariant i <= place
        decreases place - i
      {
        i := i + 1;
      }
      assert lru[i].id == lru[place].id;
      FindIsPlace(lru, entries, i);
    }

    method Erase(name: string)
      requires Valid() && name in entries
      modifies this
      ensures Valid() && View() == Without(old(View()), name) && name !in entries && nextNode == old(nextNode)
    {
      var i := PlaceOf(name);
      EraseKeepsLinks(lru, entries, i);
      lru, entries := Cut(lru, i), entries - {name};
    }

    method Touch(name: string)
      requires Valid() && name in entries
      modifies this
      ensures Valid() && entries == old(entries) && nextNode == old(nextNode)
      ensures Lookup(old(View()), name).Some?
      ensures View() == [Lookup(old(View()), name).value] + Without(old(View()), name)
    {
      var i := PlaceOf(name);
      TouchKeepsLinks(lru, entries, i);
      CutNodes(lru, i);
      CutView(lru, entries, entries, i);
      FrontView(Cut(lru, i), entries, lru[i]);
      lru := [lru[i]] + Cut(lru, i);
    }

    method EvictOne()
      requires Valid()
      modifies this
      ensures Valid() && nextNode == old(nextNode) && forall name :: name in entries ==> name in old(entries)
      ensures View() == if old(View()) == [] then [] else old(View())[..|old(View())| - 1]
    {
      if lru == [] {
        return;
      }
      var last := |lru| - 1;
      EvictKeepsLinks(lru, entries);
      lru, entries := lru[..last], entries - {lru[last].name};
    }

    /** Puts a fresh statement in front. */
    method PushFront(name: string, sql: string, statement: Statement)
      requires Valid() && name !in entries
      modifies this
      ensures Valid() && View() == [Item(name, sql, statement)] + old(View())
    {
      InsertKeepsLinks(lru, entries, Node(nextNode, name), Entry(sql, statement, nextNode));
      lru, entries := [Node(nextNode, name)] + lru, entries[name := Entry(sql, statement, nextNode)];
      nextNode := nextNode + 1;
    }

    /** An entry with another text goes before a new statement is prepared. */
    method EraseStale(name: string)
      requires Valid()
      modifies this
      ensures Valid() && name !in entries && View() == Without(old(View()), name)
      ensures var found := Lookup(old(View()), name);
              if name in old(entries) then found.Some? && found.value.sql == old(entries)[name].sql else found.None?
    {
      if name in entries {
        HitFound(lru, entries, name);
        Erase(name);
      }
    }

    /** The miss path: makes room, and prepares. */
    method Prepare(name: string, sql: string, prepared: Option<Statement>) returns (r: Option<Statement>)
      requires Valid() && name !in entries
      modifies this
      ensures Valid() && r == prepared
      ensures View() == (if prepared.Some? then [Item(name, sql, prepared.value)] else [])
                        + Evicted(old(View()), capacity)
    {
      if |entries| >= capacity {
        EvictOne();
      }
      if prepared.None? {
        return None;
      }
      PushFront(name, sql, prepared.value);
      r := prepared;
    }

    /** The whole of getOrPrepare is one request on the recency list. A blank name is refused. */
    method GetOrPrepare(name: string, sql: string, prepared: Option<Statement>) returns (r: Option<Statement>)
      requires Valid()
      modifies this
      ensures Valid()
      ensures name == "" ==> r.None? && View() == old(View())
      ensures name != "" ==> (View(), r) == Requested(old(View()), capacity, name, sql, prepared)
    {
      if name == "" {
        return None;
      }
      ghost var items := View();
      if name in entries && entries[name].sql == sql {
        HitFound(lru, entries, name);
        r := Some(entries[name].statement);
        Touch(name);
        assert (View(), r) == Requested(items, capacity, name, sql, prepared);
        return;
      }
      EraseStale(name);
      RequestedMiss(items, capacity, name, sql, prepared);
      r := Prepare(name, sql, prepared);
    }

    method Clear()
      requires Valid()
      modifies this
      ensures Valid() && View() == []
    {
      lru, entries := [], map[];
    }
  }

  lemma HitFound(lru: seq<Node>, entries: map<string, Entry>, name: string)
    requires Linked(lru, entries) && name in entries
    ensures Lookup(ViewOf(lru, entries), name) == Some(Item(name, entries[name].sql, entries[name].statement))
  {
    assert HasName(lru, name);
    var i :| 0 <= i < |lru| && lru[i].name == name;
    FindIsPlace(lru, entries, i);
  }
}
