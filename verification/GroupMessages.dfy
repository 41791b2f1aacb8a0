/** Group messages: the head of a group numbers its messages, a cursor per member remembers what was read, and the
    list query gets the unread count by subtraction. Ids are drawn on the base loop and each group is one queue of
    the message executor; every transaction happens whole or not at all. */
module GroupMessages {

  import opened Collections

  type Account = string
  type GroupId = string

  datatype Row = Row(id: nat, group: GroupId, number: nat)      // messages, in commit order
  datatype Head = Head(lastSeq: nat, lastMsg: nat)              // group_conversation_heads
  datatype Cursor = Cursor(readSeq: nat, readMsg: nat, joinedSeq: nat)
  datatype Slot = Slot(account: Account, group: GroupId)        // key of user_group_cursors

  datatype Db = Db(rows: seq<Row>, heads: map<GroupId, Head>, cursors: map<Slot, Cursor>, created: set<GroupId>)

  datatype Command = Command(id: nat, group: GroupId, sender: Account)

  // ---------------------------------------------------------------------------------------------
  // What the transactions do

  predicate CanSend(db: Db, c: Command) {
    && c.group in db.heads && Slot(c.sender, c.group) in db.cursors
    && forall i :: 0 <= i < |db.rows| ==> db.rows[i].id != c.id
  }

  function Sent(db: Db, c: Command): Db
    requires CanSend(db, c)
  {
    var n, slot := db.heads[c.group].lastSeq + 1, Slot(c.sender, c.group);
    db.(rows := db.rows + [Row(c.id, c.group, n)],
        heads := db.heads[c.group := Head(n, c.id)],
        cursors := db.cursors[slot := db.cursors[slot].(readSeq := Max(db.cursors[slot].readSeq, n), readMsg := c.id)])
  }

  predicate IsRow(rows: seq<Row>, group: GroupId, number: nat, id: nat) {
    exists i :: 0 <= i < |rows| && rows[i] == Row(id, group, number)
  }

  predicate IsNumber(rows: seq<Row>, group: GroupId, number: nat) {
    exists i :: 0 <= i < |rows| && rows[i].group == group && rows[i].number == number
  }

  predicate CanRead(db: Db, slot: Slot, id: nat, number: nat) {
    slot in db.cursors && IsRow(db.rows, slot.group, number, id)
  }

  function WasRead(db: Db, slot: Slot, id: nat, number: nat): Db
    requires CanRead(db, slot, id, number)
  {
    if number <= db.cursors[slot].readSeq then db
    else db.(cursors := db.cursors[slot := db.cursors[slot].(readSeq := number, readMsg := id)])
  }

  function Created(db: Db, group: GroupId, owner: Account): Db {
    db.(heads := db.heads[group := Head(0, 0)], cursors := db.cursors[Slot(owner, group) := Cursor(0, 0, 0)],
        created := db.created + {group})
  }

  /** A member who joins starts at the head: what was said before is not unread. */
  function Joined(db: Db, slot: Slot): Db
    requires slot.group in db.heads
  {
    var head := db.heads[slot.group];
    db.(cursors := db.cursors[slot := Cursor(head.lastSeq, head.lastMsg, head.lastSeq)])
  }

  function Removed(db: Db, slot: Slot): Db {
    db.(cursors := db.cursors - {slot})
  }

  /** The messages stay, and so does the group's own row, so its id is never given out again. */
  function Dissolved(db: Db, group: GroupId): Db {
    db.(heads := db.heads - {group},
        cursors := map slot | slot in db.cursors && slot.group != group :: db.cursors[slot])
  }

  /** The CASE expression of the list query, and the cast of its result. */
  function ListedUnread(head: Head, cursor: Cursor): nat {
    var read := Max(cursor.readSeq, cursor.joinedSeq);
    (if head.lastSeq > read then head.lastSeq - read else 0) % 0x1_0000_0000
  }

  // ---------------------------------------------------------------------------------------------
  // The reference and the invariant

  /** How many messages the group has above a number. */
  function CountAbove(rows: seq<Row>, group: GroupId, number: nat): nat {
    if rows == [] then 0
    else
      var row := rows[|rows| - 1];
      CountAbove(rows[..|rows| - 1], group, number) + (if row.group == group && row.number > number then 1 else 0)
  }

  /** Within a group, numbers and ids both increase in commit order. */
  ghost predicate Ordered(rows: seq<Row>) {
    forall i, j :: 0 <= i < j < |rows| && rows[i].group == rows[j].group ==>
      rows[i].number < rows[j].number && rows[i].id < rows[j].id
  }

  /** The numbers in use are exactly those from 1 to the head, and the head names the last message. */
  ghost predicate HeadOk(db: Db, group: GroupId)
    requires group in db.heads
  {
    var head := db.heads[group];
    && (forall i :: 0 <= i < |db.rows| && db.rows[i].group == group ==> 1 <= db.rows[i].number <= head.lastSeq)
    && (forall n :: 1 <= n <= head.lastSeq ==> IsNumber(db.rows, group, n))
    && (head == Head(0, 0) || IsRow(db.rows, group, head.lastSeq, head.lastMsg))
    && (forall n: nat :: CountAbove(db.rows, group, n) == if n < head.lastSeq then head.lastSeq - n else 0)
  }

  /** The cursor is not ahead of the head, and its message is the one with its number. */
  ghost predicate CursorOk(db: Db, slot: Slot)
    requires slot in db.cursors
  {
    var cursor := db.cursors[slot];
    && slot.group in db.heads
    && cursor.joinedSeq <= db.heads[slot.group].lastSeq && cursor.readSeq <= db.heads[slot.group].lastSeq
    && ((cursor.readSeq == 0 && cursor.readMsg == 0) || IsRow(db.rows, slot.group, cursor.readSeq, cursor.readMsg))
  }

  ghost predicate DbOk(db: Db) {
    && Ordered(db.rows)
    && (forall i :: 0 <= i < |db.rows| ==> db.rows[i].group in db.created)
    && (forall g :: g in db.heads ==> g in db.created && HeadOk(db, g))
    && (forall slot :: slot in db.cursors ==> CursorOk(db, slot))
  }

  /** The command's id is above everything committed in its group. */
  ghost predicate Newest(rows: seq<Row>, c: Command) {
    forall i :: 0 <= i < |rows| && rows[i].group == c.group ==> rows[i].id < c.id
  }

  lemma CountOneMore(rows: seq<Row>, row: Row, group: GroupId, number: nat)
    ensures CountAbove(rows + [row], group, number)
            == CountAbove(rows, group, number) + (if row.group == group && row.number > number then 1 else 0)
  {
  }

  lemma {:induction false} NoRowsNoCount(rows: seq<Row>, group: GroupId, number: nat)
    requires forall i :: 0 <= i < |rows| ==> rows[i].group != group
    ensures CountAbove(rows, group, number) == 0
    decreases |rows|
  {
    if rows != [] {
      NoRowsNoCount(rows[..|rows| - 1], group, number);
    }
  }

  lemma RowsStay(rows: seq<Row>, row: Row, group: GroupId, number: nat, id: nat)
    requires IsRow(rows, group, number, id)
    ensures IsRow(rows + [row], group, number, id)
  {
    var i :| 0 <= i < |rows| && rows[i] == Row(id, group, number);
    assert (rows + [row])[i] == rows[i];
  }

  lemma NumbersStay(rows: seq<Row>, row: Row, group: GroupId, number: nat)
    requires IsNumber(rows, group, number) || (row.group == group && row.number == number)
    ensures IsNumber(rows + [row], group, number)
  {
    if IsNumber(rows, group, number) {
      var i :| 0 <= i < |rows| && rows[i].group == group && rows[i].number == number;
      assert (rows + [row])[i] == rows[i];
    } else {
      assert (rows + [row])[|rows|] == row;
    }
  }

  lemma SendKeepsHead(db: Db, c: Command, g: GroupId)
    requires CanSend(db, c) && g in db.heads && HeadOk(db, g)
    ensures g in Sent(db, c).heads && HeadOk(Sent(db, c), g)
  {
    var r := Sent(db, c);
    var row := r.rows[|db.rows|];
    var last := r.heads[g].lastSeq;
    forall n: nat ensures CountAbove(r.rows, g, n) == if n < last then last - n else 0 {
      CountOneMore(db.rows, row, g, n);
    }
    forall n: nat | 1 <= n <= last ensures IsNumber(r.rows, g, n) {
      NumbersStay(db.rows, row, g, n);
    }
    if g == c.group {
      assert r.rows[|db.rows|] == Row(c.id, g, last);
    } else if db.heads[g] != Head(0, 0) {
      RowsStay(db.rows, row, g, last, db.heads[g].lastMsg);
    }
  }

  lemma SendKeepsCursor(db: Db, c: Command, slot: Slot)
    requires CanSend(db, c) && slot in db.cursors && CursorOk(db, slot)
    ensures slot in Sent(db, c).cursors && CursorOk(Sent(db, c), slot)
  {
    var r := Sent(db, c);
    if slot == Slot(c.sender, c.group) {
      assert r.rows[|db.rows|] == Row(c.id, c.group, r.cursors[slot].readSeq);
    } else if IsRow(db.rows, slot.group, db.cursors[slot].readSeq, db.cursors[slot].readMsg) {
      RowsStay(db.rows, r.rows[|db.rows|], slot.group, db.cursors[slot].readSeq, db.cursors[slot].readMsg);
    }
  }

  lemma SendKeepsOrder(db: Db, c: Command)
    requires CanSend(db, c) && Ordered(db.rows) && HeadOk(db, c.group) && Newest(db.rows, c)
    ensures Ordered(Sent(db, c).rows)
  {
  }

  lemma SendKeepsDb(db: Db, c: Command)
    requires DbOk(db) && CanSend(db, c) && Newest(db.rows, c)
    ensures DbOk(Sent(db, c))
  {
    var r := Sent(db, c);
    SendKeepsOrder(db, c);
    forall g | g in r.heads ensures HeadOk(r, g) {
      SendKeepsHead(db, c, g);
    }
    forall slot | slot in r.cursors ensures CursorOk(r, slot) {
      SendKeepsCursor(db, c, slot);
    }
    forall i | 0 <= i < |r.rows| ensures r.rows[i].group in r.created {
      assert i < |db.rows| ==> r.rows[i] == db.rows[i];
    }
  }

  /** Other changes leave the messages alone. */
  lemma HeadFrame(db: Db, r: Db, g: GroupId)
    requires g in db.heads && g in r.heads && HeadOk(db, g) && r.rows == db.rows && r.heads[g] == db.heads[g]
    ensures HeadOk(r, g)
  {
  }

  lemma CursorFrame(db: Db, r: Db, slot: Slot)
    requires slot in db.cursors && CursorOk(db, slot) && r.rows == db.rows
    requires slot in r.cursors && r.cursors[slot] == db.cursors[slot]
    requires slot.group in r.heads && r.heads[slot.group] == db.heads[slot.group]
    ensures CursorOk(r, slot)
  {
  }

  lemma ReadKeepsDb(db: Db, slot: Slot, id: nat, number: nat)
    requires DbOk(db) && CanRead(db, slot, id, number)
    ensures DbOk(WasRead(db, slot, id, number))
  {
    var r := WasRead(db, slot, id, number);
    forall g | g in r.heads ensures HeadOk(r, g) {
      HeadFrame(db, r, g);
    }
    forall s | s in r.cursors ensures CursorOk(r, s) {
      assert CursorOk(db, s);
      if s != slot {
        CursorFrame(db, r, s);
      } else {
        assert HeadOk(db, slot.group);
        assert IsRow(r.rows, slot.group, number, id);
      }
    }
  }

  lemma CreateKeepsDb(db: Db, group: GroupId, owner: Account)
    requires DbOk(db) && group !in db.created
    ensures DbOk(Created(db, group, owner))
  {
    var r := Created(db, group, owner);
    forall g | g in r.heads ensures HeadOk(r, g) {
      if g == group {
        forall n: nat ensures CountAbove(r.rows, g, n) == 0 {
          NoRowsNoCount(r.rows, g, n);
        }
      } else {
        HeadFrame(db, r, g);
      }
    }
    forall s | s in r.cursors ensures CursorOk(r, s) {
      if s in db.cursors {
        assert CursorOk(db, s);
        CursorFrame(db, r, s);
      }
    }
  }

  lemma JoinKeepsDb(db: Db, slot: Slot)
    requires DbOk(db) && slot.group in db.heads
    ensures DbOk(Joined(db, slot))
  {
    var r := Joined(db, slot);
    forall g | g in r.heads ensures HeadOk(r, g) {
      HeadFrame(db, r, g);
    }
    forall s | s in r.cursors ensures CursorOk(r, s) {
      if s == slot {
        assert HeadOk(r, slot.group);
      } else {
        assert CursorOk(db, s);
        CursorFrame(db, r, s);
      }
    }
  }

  lemma RemoveKeepsDb(db: Db, slot: Slot)
    requires DbOk(db)
    ensures DbOk(Removed(db, slot))
  {
    var r := Removed(db, slot);
    forall g | g in r.heads ensures HeadOk(r, g) {
      HeadFrame(db, r, g);
    }
    forall s | s in r.cursors ensures CursorOk(r, s) {
      assert CursorOk(db, s);
      CursorFrame(db, r, s);
    }
  }

  lemma DissolveKeepsDb(db: Db, group: GroupId)
    requires DbOk(db)
    ensures DbOk(Dissolved(db, group))
  {
    var r := Dissolved(db, group);
    forall g | g in r.heads ensures HeadOk(r, g) {
      HeadFrame(db, r, g);
    }
    forall s | s in r.cursors ensures CursorOk(r, s) {
      assert CursorOk(db, s);
      CursorFrame(db, r, s);
    }
  }

  /** The subtraction of the list query is the number of messages above what the member has read and above where they
      joined, as long as that number fits the 32-bit field it is cast to. */
  lemma ListedUnreadIsTrue(db: Db, slot: Slot)
    requires DbOk(db) && slot in db.cursors
    ensures slot.group in db.heads
    ensures var cursor := db.cursors[slot];
            var n := CountAbove(db.rows, slot.group, Max(cursor.readSeq, cursor.joinedSeq));
            var listed := ListedUnread(db.heads[slot.group], cursor);
            listed == n % 0x1_0000_0000 && (listed == n <==> n < 0x1_0000_0000)
  {
  }

  /** What was said before joining is not unread, and the cursor already names the last message. */
  lemma NewMemberHasNothingUnread(db: Db, slot: Slot)
    requires DbOk(db) && slot.group in db.heads
    ensures var r := Joined(db, slot);
            && slot in r.cursors && ListedUnread(r.heads[slot.group], r.cursors[slot]) == 0
            && CountAbove(r.rows, slot.group, r.cursors[slot].joinedSeq) == 0
            && (r.cursors[slot].readSeq > 0 ==>
                  IsRow(r.rows, slot.group, r.cursors[slot].readSeq, r.cursors[slot].readMsg))
            && OnlyCursor(db, r, slot) && r.cursors[slot].readMsg == db.heads[slot.group].lastMsg
  {
    assert HeadOk(db, slot.group);
  }

  /** What a member has not read and was there for. */
  function UnreadOf(db: Db, slot: Slot): nat
    requires slot in db.cursors
  {
    CountAbove(db.rows, slot.group, Max(db.cursors[slot].readSeq, db.cursors[slot].joinedSeq))
  }

  /** From db to r only this member's cursor has changed. */
  ghost predicate OnlyCursor(db: Db, r: Db, slot: Slot) {
    && r.rows == db.rows && r.heads == db.heads && r.created == db.created
    && forall k :: k != slot ==>
         (k in r.cursors <==> k in db.cursors) && (k in db.cursors ==> r.cursors[k] == db.cursors[k])
  }

  /** A message is numbered one above those its group has, and the head names it. Its sender has nothing unread and a
      cursor at it, every other member has one more unread, and other groups are as they were. */
  lemma SendDelivers(db: Db, c: Command)
    requires DbOk(db) && CanSend(db, c)
    ensures var r, n, mine := Sent(db, c), CountAbove(db.rows, c.group, 0) + 1, Slot(c.sender, c.group);
            && r.rows == db.rows + [Row(c.id, c.group, n)] && r.heads == db.heads[c.group := Head(n, c.id)]
            && r.cursors.Keys == db.cursors.Keys && UnreadOf(r, mine) == 0
            && r.cursors[mine].readSeq == n && r.cursors[mine].readMsg == c.id
            && r.cursors[mine].joinedSeq == db.cursors[mine].joinedSeq
            && (forall k :: k in db.cursors && k != mine ==> r.cursors[k] == db.cursors[k])
            && (forall k :: k in db.cursors && k != mine ==>
                  UnreadOf(r, k) == UnreadOf(db, k) + if k.group == c.group then 1 else 0)
  {
    HeadCounts(db, c.group);
    SentShape(db, c);
    SenderHasRead(db, c);
    forall k | k in db.cursors && k != Slot(c.sender, c.group)
      ensures UnreadOf(Sent(db, c), k) == UnreadOf(db, k) + if k.group == c.group then 1 else 0
    {
      OtherHasOneMore(db, c, k);
    }
  }

  lemma HeadCounts(db: Db, group: GroupId)
    requires DbOk(db) && group in db.heads
    ensures CountAbove(db.rows, group, 0) == db.heads[group].lastSeq
  {
    assert HeadOk(db, group);
  }

  lemma SentShape(db: Db, c: Command)
    requires CanSend(db, c)
    ensures var r, n, mine := Sent(db, c), db.heads[c.group].lastSeq + 1, Slot(c.sender, c.group);
            && r.rows == db.rows + [Row(c.id, c.group, n)] && r.heads == db.heads[c.group := Head(n, c.id)]
            && r.cursors.Keys == db.cursors.Keys
            && r.cursors[mine].readMsg == c.id && r.cursors[mine].joinedSeq == db.cursors[mine].joinedSeq
            && forall k :: k in db.cursors && k != mine ==> r.cursors[k] == db.cursors[k]
  {
  }

  lemma SenderHasRead(db: Db, c: Command)
    requires DbOk(db) && CanSend(db, c)
    ensures var r, mine := Sent(db, c), Slot(c.sender, c.group);
            r.cursors[mine].readSeq == r.heads[c.group].lastSeq && UnreadOf(r, mine) == 0
  {
    var mine := Slot(c.sender, c.group);
    assert CursorOk(db, mine);
    SendKeepsHead(db, c, c.group);
  }

  lemma OtherHasOneMore(db: Db, c: Command, k: Slot)
    requires DbOk(db) && CanSend(db, c) && k in db.cursors && k != Slot(c.sender, c.group)
    ensures UnreadOf(Sent(db, c), k) == UnreadOf(db, k) + if k.group == c.group then 1 else 0
  {
    assert CursorOk(db, k);
    var row := Row(c.id, c.group, db.heads[c.group].lastSeq + 1);
    CountOneMore(db.rows, row, k.group, Max(db.cursors[k].readSeq, db.cursors[k].joinedSeq));
  }

  /** A read moves the cursor to the message, or leaves it if it is there or beyond, and nothing else. */
  lemma ReadMovesCursor(db: Db, slot: Slot, id: nat, number: nat)
    requires CanRead(db, slot, id, number)
    ensures var r := WasRead(db, slot, id, number);
            && OnlyCursor(db, r, slot) && slot in r.cursors
            && r.cursors[slot].readSeq == Max(db.cursors[slot].readSeq, number)
            && r.cursors[slot].joinedSeq == db.cursors[slot].joinedSeq
            && (number > db.cursors[slot].readSeq ==> r.cursors[slot].readMsg == id)
            && (number <= db.cursors[slot].readSeq ==> r.cursors[slot].readMsg == db.cursors[slot].readMsg)
  {
  }

  /** A new group has no messages, and its owner is a member of it who can send. */
  lemma NewGroupIsEmpty(db: Db, group: GroupId, owner: Account, c: Command)
    requires DbOk(db) && group !in db.created && c.group == group && c.sender == owner
    requires forall i :: 0 <= i < |db.rows| ==> db.rows[i].id != c.id
    ensures var r := Created(db, group, owner);
            && r.rows == db.rows && group in r.created && CanSend(r, c) && Slot(owner, group) in r.cursors
            && UnreadOf(r, Slot(owner, group)) == 0 && Sent(r, c).rows == db.rows + [Row(c.id, group, 1)]
            && (forall g :: g in db.heads ==> g in r.heads && r.heads[g] == db.heads[g])
            && (forall k :: k in db.cursors ==> k in r.cursors && r.cursors[k] == db.cursors[k])
  {
    NoRowsNoCount(db.rows, group, 0);
    forall k | k in db.cursors ensures k.group != group {
      assert CursorOk(db, k);
    }
  }

  /** Whoever has left can neither send nor read, and in a dissolved group nobody can; its messages stay. */
  lemma LeavingShutsOut(db: Db, slot: Slot, c: Command, id: nat, number: nat)
    requires c.group == slot.group
    ensures c.sender == slot.account ==> !CanSend(Removed(db, slot), c)
    ensures !CanRead(Removed(db, slot), slot, id, number)
    ensures !CanSend(Dissolved(db, slot.group), c) && !CanRead(Dissolved(db, slot.group), slot, id, number)
    ensures Removed(db, slot).rows == db.rows && Dissolved(db, slot.group).rows == db.rows
    ensures forall other :: other in db.cursors && other != slot ==>
              other in Removed(db, slot).cursors && Removed(db, slot).cursors[other] == db.cursors[other]
    ensures Removed(db, slot).heads == db.heads && slot !in Removed(db, slot).cursors
    ensures slot.group !in Dissolved(db, slot.group).heads
    ensures forall k :: k in Dissolved(db, slot.group).cursors ==> k.group != slot.group
    ensures forall g :: g in db.heads && g != slot.group ==>
              g in Dissolved(db, slot.group).heads && Dissolved(db, slot.group).heads[g] == db.heads[g]
    ensures forall k :: k in db.cursors && k.group != slot.group ==>
              k in Dissolved(db, slot.group).cursors && Dissolved(db, slot.group).cursors[k] == db.cursors[k]
  {
  }

  // ---------------------------------------------------------------------------------------------
  // Every run

  datatype State = State(lastId: nat, queues: map<GroupId, seq<Command>>, db: Db)

  datatype Step =
    | Submit(command: Command)
    | Commit(group: GroupId, ok: bool)
    | Read(slot: Slot, id: nat, number: nat)
    | Create(group: GroupId, owner: Account)
    | Join(slot: Slot)
    | Remove(slot: Slot)
    | Dissolve(group: GroupId)

  const INIT := State(0, map[], Db([], map[], map[], {}))

  function Queue(s: State, group: GroupId): seq<Command> {
    if group in s.queues then s.queues[group] else []
  }

  predicate Enabled(s: State, step: Step) {
    match step
    case Submit(c) => c.id > s.lastId
    case Commit(group, ok) => Queue(s, group) != [] && (ok ==> CanSend(s.db, Queue(s, group)[0]))
    case Read(slot, id, number) => CanRead(s.db, slot, id, number)
    case Create(group, _) => group !in s.db.created
    case Join(slot) => slot.group in s.db.heads && slot !in s.db.cursors
    case Remove(_) => true
    case Dissolve(_) => true
  }

  function Apply(s: State, step: Step): State
    requires Enabled(s, step)
  {
    match step
    case Submit(c) => s.(lastId := c.id, queues := s.queues[c.group := Queue(s, c.group) + [c]])
    case Commit(group, ok) =>
      var q := Queue(s, group);
      s.(queues := s.queues[group := q[1..]], db := if ok then Sent(s.db, q[0]) else s.db)
    case Read(slot, id, number) => s.(db := WasRead(s.db, slot, id, number))
    case Create(group, owner) => s.(db := Created(s.db, group, owner))
    case Join(slot) => s.(db := Joined(s.db, slot))
    case Remove(slot) => s.(db := Removed(s.db, slot))
    case Dissolve(group) => s.(db := Dissolved(s.db, group))
  }

  /** What waits for a group is in id order and above everything committed there. */
  ghost predicate Waiting(q: seq<Command>, group: GroupId, lastId: nat, rows: seq<Row>) {
    && (forall i :: 0 <= i < |q| ==> q[i].group == group && q[i].id <= lastId && Newest(rows, q[i]))
    && (forall i, j :: 0 <= i < j < |q| ==> q[i].id < q[j].id)
  }

  ghost predicate QueueOk(s: State, group: GroupId) {
    Waiting(Queue(s, group), group, s.lastId, s.db.rows)
  }

  ghost predicate Inv(s: State) {
    && DbOk(s.db)
    && (forall i :: 0 <= i < |s.db.rows| ==> s.db.rows[i].id <= s.lastId)
    && (forall group :: QueueOk(s, group))
  }

  lemma SubmitKeepsQueue(s: State, c: Command, g: GroupId)
    requires Enabled(s, Submit(c)) && QueueOk(s, g)
    requires forall i :: 0 <= i < |s.db.rows| ==> s.db.rows[i].id <= s.lastId
    ensures QueueOk(Apply(s, Submit(c)), g)
  {
    assert Queue(Apply(s, Submit(c)), g) == if g == c.group then Queue(s, g) + [c] else Queue(s, g);
  }

  lemma CommitKeepsWaiting(q: seq<Command>, group: GroupId, lastId: nat, rows: seq<Row>, row: Row)
    requires Waiting(q, group, lastId, rows) && (row.group == group ==> forall i :: 0 <= i < |q| ==> row.id < q[i].id)
    ensures Waiting(q, group, lastId, rows + [row])
  {
    forall i | 0 <= i < |q| ensures Newest(rows + [row], q[i]) {
    }
  }

  lemma RestWaits(q: seq<Command>, group: GroupId, lastId: nat, rows: seq<Row>)
    requires Waiting(q, group, lastId, rows) && q != []
    ensures Waiting(q[1..], group, lastId, rows) && forall i :: 0 <= i < |q[1..]| ==> q[0].id < q[1..][i].id
  {
  }

  lemma CommitKeepsQueue(s: State, group: GroupId, ok: bool, g: GroupId)
    requires QueueOk(s, group) && QueueOk(s, g) && Enabled(s, Commit(group, ok))
    ensures QueueOk(Apply(s, Commit(group, ok)), g)
  {
    var r, q := Apply(s, Commit(group, ok)), Queue(s, group);
    RestWaits(q, group, s.lastId, s.db.rows);
    assert Queue(r, g) == if g == group then q[1..] else Queue(s, g);
    if ok {
      CommitKeepsWaiting(Queue(r, g), g, s.lastId, s.db.rows, r.db.rows[|s.db.rows|]);
    }
  }

  lemma StepKeepsQueues(s: State, step: Step)
    requires Inv(s) && Enabled(s, step)
    ensures forall g :: QueueOk(Apply(s, step), g)
  {
    forall g ensures QueueOk(Apply(s, step), g) {
      assert QueueOk(s, g);
      match step
      case Submit(c) => SubmitKeepsQueue(s, c, g);
      case Commit(group, ok) =>
        assert QueueOk(s, group);
        CommitKeepsQueue(s, group, ok, g);
      case _ =>
    }
  }

  lemma StepKeepsDb(s: State, step: Step)
    requires Inv(s) && Enabled(s, step)
    ensures DbOk(Apply(s, step).db)
  {
    match step
    case Submit(_) =>
    case Commit(group, ok) =>
      assert QueueOk(s, group);
      if ok {
        SendKeepsDb(s.db, Queue(s, group)[0]);
      }
    case Read(slot, id, number) => ReadKeepsDb(s.db, slot, id, number);
    case Create(group, owner) => CreateKeepsDb(s.db, group, owner);
    case Join(slot) => JoinKeepsDb(s.db, slot);
    case Remove(slot) => RemoveKeepsDb(s.db, slot);
    case Dissolve(group) => DissolveKeepsDb(s.db, group);
  }

  /** What a step other than a commit means for the tables. */
  ghost predicate Effect(db: Db, r: Db, step: Step) {
    match step
    case Submit(_) => r == db
    case Commit(_, _) => true
    case Read(slot, id, number) =>
      && OnlyCursor(db, r, slot) && slot in db.cursors && slot in r.cursors
      && r.cursors[slot].readSeq == Max(db.cursors[slot].readSeq, number)
    case Create(group, owner) =>
      && r.rows == db.rows && r.heads == db.heads[group := Head(0, 0)] && group in r.created
      && Slot(owner, group) in r.cursors && UnreadOf(r, Slot(owner, group)) == 0
    case Join(slot) => OnlyCursor(db, r, slot) && slot in r.cursors && UnreadOf(r, slot) == 0
    case Remove(slot) => OnlyCursor(db, r, slot) && slot !in r.cursors
    case Dissolve(group) =>
      && r.rows == db.rows && r.heads == db.heads - {group} && (forall k :: k in r.cursors ==> k.group != group)
      && forall k :: k in db.cursors && k.group != group ==> k in r.cursors && r.cursors[k] == db.cursors[k]
  }

  lemma CreateEffect(db: Db, group: GroupId, owner: Account)
    requires DbOk(db) && group !in db.created
    ensures Effect(db, Created(db, group, owner), Create(group, owner))
  {
    NoRowsNoCount(db.rows, group, 0);
  }

  lemma JoinEffect(db: Db, slot: Slot)
    requires DbOk(db) && slot.group in db.heads
    ensures Effect(db, Joined(db, slot), Join(slot))
  {
    NewMemberHasNothingUnread(db, slot);
  }

  lemma DissolveEffect(db: Db, group: GroupId)
    ensures Effect(db, Dissolved(db, group), Dissolve(group))
  {
  }

  lemma ReadEffect(db: Db, slot: Slot, id: nat, number: nat)
    requires CanRead(db, slot, id, number)
    ensures Effect(db, WasRead(db, slot, id, number), Read(slot, id, number))
  {
  }

  lemma RemoveEffect(db: Db, slot: Slot)
    ensures Effect(db, Removed(db, slot), Remove(slot))
  {
  }

  /** In every state of every run: a read moves the reader's cursor, a created group is empty and has its owner, a new
      member has nothing unread, and whoever was removed, or was in a dissolved group, is out. None of that touches a
      message, a queue or the last id. */
  lemma StepsTakeEffect(states: seq<State>, n: nat, step: Step)
    requires IsRun(states) && n < |states| && Enabled(states[n], step) && !step.Submit? && !step.Commit?
    ensures var s, r := states[n], Apply(states[n], step);
            r.lastId == s.lastId && r.queues == s.queues && Effect(s.db, r.db, step)
  {
    RunKeepsInv(states, n);
    StepEffect(states[n], step);
  }

  lemma StepEffect(s: State, step: Step)
    requires DbOk(s.db) && Enabled(s, step) && !step.Submit? && !step.Commit?
    ensures var r := Apply(s, step); r.lastId == s.lastId && r.queues == s.queues && Effect(s.db, r.db, step)
  {
    match step
    case Create(group, owner) => CreateEffect(s.db, group, owner);
    case Join(slot) => JoinEffect(s.db, slot);
    case Dissolve(group) => DissolveEffect(s.db, group);
    case Read(slot, id, number) => ReadEffect(s.db, slot, id, number);
    case Remove(slot) => RemoveEffect(s.db, slot);
  }

  lemma StepKeepsIds(s: State, step: Step)
    requires Inv(s) && Enabled(s, step)
    ensures var r := Apply(s, step); forall i :: 0 <= i < |r.db.rows| ==> r.db.rows[i].id <= r.lastId
  {
    match step
    case Commit(group, ok) => assert QueueOk(s, group);
    case _ =>
  }

  ghost predicate Next(s: State, r: State) {
    exists step :: Enabled(s, step) && Apply(s, step) == r
  }

  ghost predicate IsRun(states: seq<State>) {
    |states| > 0 && states[0] == INIT && forall i :: 0 <= i < |states| - 1 ==> Next(states[i], states[i + 1])
  }

  lemma {:induction false} RunKeepsInv(states: seq<State>, n: nat)
    requires IsRun(states) && n < |states|
    ensures Inv(states[n])
  {
    if n > 0 {
      RunKeepsInv(states, n - 1);
      assert Next(states[n - 1], states[n - 1 + 1]);
      var step :| Enabled(states[n - 1], step) && Apply(states[n - 1], step) == states[n];
      StepKeepsDb(states[n - 1], step);
      StepKeepsQueues(states[n - 1], step);
      StepKeepsIds(states[n - 1], step);
    }
  }

  /** In every state of every run the numbers of a live group are exactly 1 to its head, each used once, in the order
      of the ids. */
  lemma NumbersAreContiguous(states: seq<State>, n: nat, g: GroupId)
    requires IsRun(states) && n < |states| && g in states[n].db.heads
    ensures var db := states[n].db;
            && (forall k: nat :: IsNumber(db.rows, g, k) <==> 1 <= k <= db.heads[g].lastSeq)
            && (forall i, j :: 0 <= i < |db.rows| && 0 <= j < |db.rows| && db.rows[i].group == db.rows[j].group == g ==>
                  (db.rows[i].number < db.rows[j].number <==> db.rows[i].id < db.rows[j].id)
                  && (db.rows[i].number == db.rows[j].number ==> i == j))
  {
    RunKeepsInv(states, n);
    var db := states[n].db;
    assert HeadOk(db, g);
    forall i, j | 0 <= i < |db.rows| && 0 <= j < |db.rows| && db.rows[i].group == db.rows[j].group == g
      ensures (db.rows[i].number < db.rows[j].number <==> db.rows[i].id < db.rows[j].id)
              && (db.rows[i].number == db.rows[j].number ==> i == j)
    {
      assert i < j || j < i ==> Ordered(db.rows);
    }
  }

  /** Every cursor stays behind its head and names the message with its number; the list shows the true count. */
  lemma CursorsAreTrue(states: seq<State>, n: nat, slot: Slot)
    requires IsRun(states) && n < |states| && slot in states[n].db.cursors
    ensures CursorOk(states[n].db, slot)
    ensures var db := states[n].db;
            var cursor := db.cursors[slot];
            var unread := CountAbove(db.rows, slot.group, Max(cursor.readSeq, cursor.joinedSeq));
            unread < 0x1_0000_0000 ==> ListedUnread(db.heads[slot.group], cursor) == unread
  {
    RunKeepsInv(states, n);
    ListedUnreadIsTrue(states[n].db, slot);
  }

  /** How far back a cursor can be, also when its member leaves and joins again. */
  ghost predicate NotBehind(db: Db, slot: Slot, readSeq: nat) {
    && (slot in db.cursors ==> db.cursors[slot].readSeq >= readSeq)
    && (slot !in db.cursors && slot.group in db.heads ==> db.heads[slot.group].lastSeq >= readSeq)
    && slot.group in db.created
  }

  lemma NotBehindStep(s: State, step: Step, slot: Slot, readSeq: nat)
    requires Inv(s) && Enabled(s, step) && NotBehind(s.db, slot, readSeq)
    ensures NotBehind(Apply(s, step).db, slot, readSeq)
  {
    if slot in s.db.cursors {
      assert CursorOk(s.db, slot);
    }
    match step
    case Commit(group, ok) => if ok { NotBehindSent(s.db, Queue(s, group)[0], slot, readSeq); }
    case _ =>
  }

  lemma NotBehindSent(db: Db, c: Command, slot: Slot, readSeq: nat)
    requires CanSend(db, c) && NotBehind(db, slot, readSeq)
    ensures NotBehind(Sent(db, c), slot, readSeq)
  {
  }

  lemma NotBehindNext(states: seq<State>, k: nat, slot: Slot, readSeq: nat)
    requires IsRun(states) && k + 1 < |states| && NotBehind(states[k].db, slot, readSeq)
    ensures NotBehind(states[k + 1].db, slot, readSeq)
  {
    RunKeepsInv(states, k);
    var s, r := states[k], states[k + 1];
    assert Next(s, r);
    var step :| Enabled(s, step) && Apply(s, step) == r;
    NotBehindStep(s, step, slot, readSeq);
  }

  lemma {:induction false} NotBehindRun(states: seq<State>, i: nat, j: nat, slot: Slot, readSeq: nat)
    requires IsRun(states) && i <= j < |states| && NotBehind(states[i].db, slot, readSeq)
    ensures NotBehind(states[j].db, slot, readSeq)
    decreases j
  {
    if i < j {
      NotBehindRun(states, i, j - 1, slot, readSeq);
      NotBehindNext(states, j - 1, slot, readSeq);
    }
  }

  /** A member's read cursor never goes back, not even across leaving and joining again. */
  lemma CursorNeverGoesBack(states: seq<State>, i: nat, j: nat, slot: Slot)
    requires IsRun(states) && i <= j < |states| && slot in states[i].db.cursors && slot in states[j].db.cursors
    ensures states[i].db.cursors[slot].readSeq <= states[j].db.cursors[slot].readSeq
  {
    RunKeepsInv(states, i);
    assert CursorOk(states[i].db, slot);
    NotBehindRun(states, i, j, slot, states[i].db.cursors[slot].readSeq);
  }

  // ---------------------------------------------------------------------------------------------
  // What was submitted gets there

  /** The worker goes through the commands that wait for a group, n of them, and commits those it can. */
  function CommitAll(s: State, group: GroupId, n: nat): State
    decreases n
  {
    var q := Queue(s, group);
    if n == 0 || q == [] then s else CommitAll(Apply(s, Commit(group, CanSend(s.db, q[0]))), group, n - 1)
  }

  /** The last command of a queue, whose sender is a member of a live group, becomes its last message. */
  lemma {:induction false} LastIsCommitted(s: State, group: GroupId)
    requires var q := Queue(s, group);
             && q != [] && group in s.db.heads && Slot(q[|q| - 1].sender, group) in s.db.cursors
             && (forall i :: 0 <= i < |q| ==> q[i].group == group)
             && (forall i :: 0 <= i < |q| - 1 ==> q[i].id != q[|q| - 1].id)
             && (forall i :: 0 <= i < |s.db.rows| ==> s.db.rows[i].id != q[|q| - 1].id)
    ensures var q := Queue(s, group); var r, c := CommitAll(s, group, |q|), q[|q| - 1];
            && r.db.rows != [] && Queue(r, group) == [] && group in r.db.heads
            && r.db.rows[|r.db.rows| - 1] == Row(c.id, group, r.db.heads[group].lastSeq)
            && r.db.heads[group].lastMsg == c.id && r.db.heads[group].lastSeq > s.db.heads[group].lastSeq
    decreases |Queue(s, group)|
  {
    var q := Queue(s, group);
    var c, m := q[|q| - 1], Apply(s, Commit(group, CanSend(s.db, q[0])));
    assert Queue(m, group) == q[1..];
    if |q| > 1 {
      assert Queue(m, group)[|q| - 2] == c;
      LastIsCommitted(m, group);
    } else {
      assert CommitAll(m, group, 0) == m;
    }
  }

  /** A command that may be submitted is: it waits behind those before it, and when the worker has got through them it
      is the group's last message, provided that the group lives and its sender is a member. */
  lemma SubmittedIsCommitted(s: State, c: Command)
    requires Inv(s) && Enabled(s, Submit(c))
    ensures var r := Apply(s, Submit(c)); var q := Queue(r, c.group);
            && q == Queue(s, c.group) + [c] && (forall g :: g != c.group ==> Queue(r, g) == Queue(s, g))
            && r.lastId == c.id && r.db == s.db
            && (c.group in s.db.heads && Slot(c.sender, c.group) in s.db.cursors ==>
                  var t := CommitAll(r, c.group, |q|).db;
                  t.rows != [] && c.group in t.heads
                  && t.rows[|t.rows| - 1] == Row(c.id, c.group, t.heads[c.group].lastSeq))
  {
    var r := Apply(s, Submit(c));
    var q := Queue(r, c.group);
    assert QueueOk(s, c.group);
    assert q[|q| - 1] == c;
    if c.group in s.db.heads && Slot(c.sender, c.group) in s.db.cursors {
      LastIsCommitted(r, c.group);
    }
  }

  // ---------------------------------------------------------------------------------------------
  // The two transactions, statement by statement

  datatype Status = Ok | InvalidArgument | SqlError | NotFound | TargetNotInGroup | MessageNotFound

  /** The statements of a transaction; any of them, and the final COMMIT, can fail. */
  datatype Statement =
    | SelectHead | InsertMessage | UpdateHead | UpdateSenderCursor
    | SelectCursor | SelectMessage | UpdateCursor | CommitWork

  class GroupMessageStore {
    var db: Db

    constructor ()
      ensures db == INIT.db
    {
      db := INIT.db;
    }

    /** Numbers the message with the next number of its group, or leaves no trace. */
    method CommitMessage(c: Command, faults: set<Statement>) returns (status: Status, number: nat)
      modifies this
      ensures status == Ok ==> CanSend(old(db), c) && db == Sent(old(db), c) && number == db.heads[c.group].lastSeq
      ensures status == Ok ==>
                db.rows == old(db).rows + [Row(c.id, c.group, number)] && number == old(db).heads[c.group].lastSeq + 1
      ensures status != Ok ==> db == old(db)
      ensures status == InvalidArgument <==> c.id == 0 || c.group == "" || c.sender == ""
      ensures status in {Ok, InvalidArgument, SqlError, NotFound}
      ensures faults == {} ==> (status == Ok <==> c.id > 0 && c.group != "" && c.sender != "" && CanSend(old(db), c))
    {
      number := 0;
      if c.id == 0 || c.group == "" || c.sender == "" {
        return InvalidArgument, 0;
      }
      var tx, slot := db, Slot(c.sender, c.group);
      if SelectHead in faults { return SqlError, 0; }
      if c.group !in tx.heads { return NotFound, 0; }
      number := tx.heads[c.group].lastSeq + 1;
      if InsertMessage in faults || exists i :: 0 <= i < |tx.rows| && tx.rows[i].id == c.id {
        return SqlError, 0;
      }
      tx := tx.(rows := tx.rows + [Row(c.id, c.group, number)]);
      if UpdateHead in faults { return SqlError, 0; }
      tx := tx.(heads := tx.heads[c.group := Head(number, c.id)]);
      if UpdateSenderCursor in faults { return SqlError, 0; }
      if slot !in tx.cursors { return NotFound, 0; }
      var cursor := tx.cursors[slot];
      tx := tx.(cursors := tx.cursors[slot := cursor.(readSeq := Max(cursor.readSeq, number), readMsg := c.id)]);
      if CommitWork in faults { return SqlError, 0; }
      db := tx;
      status := Ok;
    }

    /** The group_seq of a message of the group. */
    method FindNumber(group: GroupId, id: nat) returns (number: Option<nat>)
      ensures number.Some? ==> IsRow(db.rows, group, number.value, id)
      ensures number.None? ==> forall n :: !IsRow(db.rows, group, n, id)
    {
      for i := 0 to |db.rows|
        invariant forall j :: 0 <= j < i ==> !(db.rows[j].group == group && db.rows[j].id == id)
      {
        if db.rows[i].group == group && db.rows[i].id == id {
          assert db.rows[i] == Row(id, group, db.rows[i].number);
          return Some(db.rows[i].number);
        }
      }
      number := None;
    }

    method CommitRead(slot: Slot, id: nat, faults: set<Statement>) returns (status: Status, number: nat)
      modifies this
      ensures status == Ok ==> CanRead(old(db), slot, id, number) && db == WasRead(old(db), slot, id, number)
      ensures status == Ok ==>
                OnlyCursor(old(db), db, slot) && db.cursors[slot].readSeq == Max(old(db).cursors[slot].readSeq, number)
      ensures status == InvalidArgument <==> slot.account == "" || slot.group == "" || id == 0
      ensures status in {Ok, InvalidArgument, SqlError, TargetNotInGroup, MessageNotFound}
      ensures status != Ok ==> db == old(db)
      ensures status == TargetNotInGroup ==> slot !in db.cursors
      ensures status == MessageNotFound ==> forall n :: !CanRead(db, slot, id, n)
      ensures faults == {} && status == SqlError ==> false
    {
      number := 0;
      if slot.account == "" || slot.group == "" || id == 0 {
        return InvalidArgument, 0;
      }
      if SelectCursor in faults { return SqlError, 0; }
      if slot !in db.cursors { return TargetNotInGroup, 0; }
      if SelectMessage in faults { return SqlError, 0; }
      var found := FindNumber(slot.group, id);
      if found.None? { return MessageNotFound, 0; }
      if found.value > db.cursors[slot].readSeq {
        if UpdateCursor in faults || CommitWork in faults { return SqlError, 0; }
        db := db.(cursors := db.cursors[slot := db.cursors[slot].(readSeq := found.value, readMsg := id)]);
      } else if CommitWork in faults {
        return SqlError, 0;
      }
      status, number := Ok, found.value;
    }
  }
}
