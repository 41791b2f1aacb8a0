/** Direct messages from the id to the tables: ids are drawn on the base loop, each conversation is one queue of the
    message executor, and a commit and a read are each one transaction that leaves no trace when it fails. */
module DirectMessages {

  import opened Collections
  import opened ConversationKeys

  datatype Message = Message(id: nat, key: string, sender: Account, receiver: Account)

  /** The row of conversations that an owner has for a direct chat. */
  datatype Slot = Slot(owner: Account, target: Account)
  datatype Row = Row(unread: nat, lastRead: nat)

  datatype Db = Db(messages: seq<Message>, rows: map<Slot, Row>)

  datatype Command = Command(id: nat, sender: Account, receiver: Account) {
    function Key(): string { ConversationKeys.Key(sender, receiver) }
  }

  datatype Status = Ok | InvalidArgument | SqlError | UserNotFound | NotFriends | MessageNotFound

  /** Generated account ids are not blank and hold no separator. */
  predicate Plain(a: Account) {
    a != "" && '#' !in a
  }

  // ---------------------------------------------------------------------------------------------
  // What the transactions do

  function Sent(db: Db, c: Command): Db {
    var senderSlot, receiverSlot := Slot(c.sender, c.receiver), Slot(c.receiver, c.sender);
    var rows := db.rows[senderSlot := Row(0, c.id)];
    var row := if receiverSlot in rows then rows[receiverSlot].(unread := rows[receiverSlot].unread + 1)
               else Row(1, 0);
    Db(db.messages + [Message(c.id, c.Key(), c.sender, c.receiver)], rows[receiverSlot := row])
  }

  /** COUNT(*) of the rows with this conversation key and receiver and an id in (lo, hi]. */
  function CountByKey(ms: seq<Message>, key: string, receiver: Account, lo: nat, hi: nat): nat {
    if ms == [] then 0
    else
      var m := ms[|ms| - 1];
      CountByKey(ms[..|ms| - 1], key, receiver, lo, hi)
      + (if m.key == key && m.receiver == receiver && lo < m.id <= hi then 1 else 0)
  }

  predicate HasMessage(ms: seq<Message>, key: string, id: nat) {
    exists i :: 0 <= i < |ms| && ms[i].key == key && ms[i].id == id
  }

  predicate CanRead(db: Db, slot: Slot, id: nat) {
    slot in db.rows && HasMessage(db.messages, Key(slot.owner, slot.target), id)
  }

  function WasRead(db: Db, slot: Slot, id: nat): Db
    requires CanRead(db, slot, id)
  {
    var row := db.rows[slot];
    if id <= row.lastRead then db
    else
      var n := CountByKey(db.messages, Key(slot.owner, slot.target), slot.owner, row.lastRead, id);
      db.(rows := db.rows[slot := Row(if row.unread > n then row.unread - n else 0, id)])
  }

  // ---------------------------------------------------------------------------------------------
  // The reference: messages from target to owner above an id

  function Unread(ms: seq<Message>, slot: Slot, after: nat): nat {
    if ms == [] then 0
    else
      var m := ms[|ms| - 1];
      Unread(ms[..|ms| - 1], slot, after)
      + (if m.sender == slot.target && m.receiver == slot.owner && m.id > after then 1 else 0)
  }

  predicate Between(m: Message, slot: Slot) {
    (m.sender == slot.target && m.receiver == slot.owner) || (m.sender == slot.owner && m.receiver == slot.target)
  }

  ghost predicate MessagesOk(ms: seq<Message>) {
    forall i :: 0 <= i < |ms| ==> Plain(ms[i].sender) && Plain(ms[i].receiver) && ms[i].id > 0
                                  && ms[i].key == Key(ms[i].sender, ms[i].receiver)
  }

  /** Every unread count is true, and whoever has no row has no messages either. */
  ghost predicate RowsOk(db: Db) {
    && (forall slot :: slot in db.rows ==> db.rows[slot].unread == Unread(db.messages, slot, db.rows[slot].lastRead))
    && (forall slot, i :: 0 <= i < |db.messages| && Between(db.messages[i], slot) ==> slot in db.rows)
    && (forall slot :: slot in db.rows ==> Plain(slot.owner) && Plain(slot.target))
  }

  /** The command's id is above everything committed in its conversation. */
  ghost predicate Newest(ms: seq<Message>, c: Command) {
    c.id > 0 && forall i :: 0 <= i < |ms| && ms[i].key == c.Key() ==> ms[i].id < c.id
  }

  lemma {:induction false} NoneUnread(ms: seq<Message>, slot: Slot, after: nat)
    requires forall i :: 0 <= i < |ms| && ms[i].sender == slot.target && ms[i].receiver == slot.owner ==>
               ms[i].id <= after
    ensures Unread(ms, slot, after) == 0
    decreases |ms|
  {
    if ms != [] {
      NoneUnread(ms[..|ms| - 1], slot, after);
    }
  }

  lemma SameConversation(m: Message, slot: Slot)
    requires Plain(m.sender) && Plain(m.receiver) && Plain(slot.owner) && Plain(slot.target)
    requires m.key == Key(m.sender, m.receiver)
    ensures m.key == Key(slot.owner, slot.target) <==> Between(m, slot)
    ensures m.key == Key(slot.owner, slot.target) && m.receiver == slot.owner <==>
            m.sender == slot.target && m.receiver == slot.owner
  {
    KeyNamesThePair(m.sender, m.receiver, slot.owner, slot.target);
  }

  /** What a read takes off the count is what lies between the two cursors. */
  lemma {:induction false} UnreadSplits(ms: seq<Message>, slot: Slot, lo: nat, hi: nat)
    requires MessagesOk(ms) && Plain(slot.owner) && Plain(slot.target) && lo <= hi
    ensures Unread(ms, slot, lo) == CountByKey(ms, Key(slot.owner, slot.target), slot.owner, lo, hi)
                                    + Unread(ms, slot, hi)
    decreases |ms|
  {
    if ms != [] {
      UnreadSplits(ms[..|ms| - 1], slot, lo, hi);
      SameConversation(ms[|ms| - 1], slot);
    }
  }

  /** From db to r only the row of the slot has changed. */
  ghost predicate OnlyRow(db: Db, r: Db, slot: Slot) {
    && r.messages == db.messages && r.rows.Keys == db.rows.Keys
    && forall k :: k in db.rows && k != slot ==> r.rows[k] == db.rows[k]
  }

  /** A read moves the cursor to the message, or leaves it if it is there or beyond; what stays unread are the messages
      to the owner above it. Nothing else changes, and every count is still true. */
  lemma ReadKeepsRows(db: Db, slot: Slot, id: nat)
    requires MessagesOk(db.messages) && RowsOk(db) && CanRead(db, slot, id)
    ensures RowsOk(WasRead(db, slot, id)) && OnlyRow(db, WasRead(db, slot, id), slot)
    ensures var cursor := Max(db.rows[slot].lastRead, id);
            WasRead(db, slot, id).rows[slot] == Row(Unread(db.messages, slot, cursor), cursor)
  {
    if id > db.rows[slot].lastRead {
      UnreadSplits(db.messages, slot, db.rows[slot].lastRead, id);
    }
  }

  lemma {:induction false} NothingBetween(ms: seq<Message>, key: string, receiver: Account, id: nat)
    ensures CountByKey(ms, key, receiver, id, id) == 0
    decreases |ms|
  {
    if ms != [] {
      NothingBetween(ms[..|ms| - 1], key, receiver, id);
    }
  }

  lemma ReadTakesOff(db: Db, slot: Slot, cursor: nat)
    requires slot in db.rows && db.rows[slot].lastRead <= cursor
    ensures MessagesOk(db.messages) && RowsOk(db) ==>
              db.rows[slot].unread == Unread(db.messages, slot, cursor)
                + CountByKey(db.messages, Key(slot.owner, slot.target), slot.owner, db.rows[slot].lastRead, cursor)
  {
    if MessagesOk(db.messages) && RowsOk(db) {
      UnreadSplits(db.messages, slot, db.rows[slot].lastRead, cursor);
    }
  }

  lemma SenderHasRead(ms: seq<Message>, c: Command)
    requires MessagesOk(ms) && Newest(ms, c) && Plain(c.sender) && Plain(c.receiver)
    ensures Unread(ms, Slot(c.sender, c.receiver), c.id) == 0
  {
    var slot := Slot(c.sender, c.receiver);
    forall i | 0 <= i < |ms| && ms[i].sender == slot.target && ms[i].receiver == slot.owner
      ensures ms[i].id <= c.id
    {
      SameConversation(ms[i], slot);
    }
    NoneUnread(ms, slot, c.id);
  }

  lemma ReceiverHasOneMore(db: Db, c: Command)
    requires MessagesOk(db.messages) && RowsOk(db) && Newest(db.messages, c) && Plain(c.sender) && Plain(c.receiver)
    requires c.sender != c.receiver && CursorsOk(db)
    ensures var slot := Slot(c.receiver, c.sender);
            if slot in db.rows then db.rows[slot].lastRead < c.id
            else Unread(db.messages, slot, 0) == 0
  {
    var slot := Slot(c.receiver, c.sender);
    if slot in db.rows {
      KeyIsSymmetric(c.sender, c.receiver);
    } else {
      NoneUnread(db.messages, slot, 0);
    }
  }

  /** A cursor stands at nothing or at a message of its conversation. */
  ghost predicate CursorsOk(db: Db) {
    forall slot :: slot in db.rows ==>
      db.rows[slot].lastRead == 0 || HasMessage(db.messages, Key(slot.owner, slot.target), db.rows[slot].lastRead)
  }

  lemma SendKeepsCounts(db: Db, c: Command)
    requires MessagesOk(db.messages) && RowsOk(db) && CursorsOk(db) && Newest(db.messages, c)
    requires Plain(c.sender) && Plain(c.receiver) && c.sender != c.receiver
    ensures var r := Sent(db, c);
            forall slot :: slot in r.rows ==> r.rows[slot].unread == Unread(r.messages, slot, r.rows[slot].lastRead)
  {
    var r, m := Sent(db, c), Message(c.id, c.Key(), c.sender, c.receiver);
    SenderHasRead(db.messages, c);
    ReceiverHasOneMore(db, c);
    forall slot | slot in r.rows ensures r.rows[slot].unread == Unread(r.messages, slot, r.rows[slot].lastRead) {
    }
  }

  lemma SendKeepsRowsForAll(db: Db, c: Command)
    requires RowsOk(db)
    ensures var r := Sent(db, c);
            forall slot, i :: 0 <= i < |r.messages| && Between(r.messages[i], slot) ==> slot in r.rows
  {
    var r := Sent(db, c);
    forall slot, i | 0 <= i < |r.messages| && Between(r.messages[i], slot) ensures slot in r.rows {
      if i < |db.messages| {
        assert r.messages[i] == db.messages[i];
      }
    }
  }

  /** A commit keeps every count true exactly when nobody writes to themselves. */
  lemma SendKeepsRows(db: Db, c: Command)
    requires MessagesOk(db.messages) && RowsOk(db) && CursorsOk(db) && Newest(db.messages, c)
    requires Plain(c.sender) && Plain(c.receiver)
    ensures RowsOk(Sent(db, c)) <==> c.sender != c.receiver
  {
    if c.sender == c.receiver {
      var r, mine := Sent(db, c), Slot(c.sender, c.receiver);
      SenderHasRead(db.messages, c);
      assert r.rows[mine] == Row(1, c.id);
    } else {
      SendKeepsCounts(db, c);
      SendKeepsRowsForAll(db, c);
    }
  }

  /** What a commit leaves behind: the message is the last of the table; the sender has nothing unread and a cursor at
      it; the receiver has one more unread and the cursor they had, or one unread and no cursor in a new conversation.
      No other row changes. */
  lemma SendDelivers(db: Db, c: Command)
    requires MessagesOk(db.messages) && RowsOk(db) && CursorsOk(db) && Newest(db.messages, c)
    requires Plain(c.sender) && Plain(c.receiver) && c.sender != c.receiver
    ensures var r, mine, theirs := Sent(db, c), Slot(c.sender, c.receiver), Slot(c.receiver, c.sender);
            && r.messages == db.messages + [Message(c.id, Key(c.sender, c.receiver), c.sender, c.receiver)]
            && r.rows.Keys == db.rows.Keys + {mine, theirs}
            && r.rows[mine].lastRead == c.id && r.rows[mine].unread == 0 == Unread(r.messages, mine, c.id)
            && r.rows[theirs].lastRead == (if theirs in db.rows then db.rows[theirs].lastRead else 0)
            && r.rows[theirs].unread == Unread(db.messages, theirs, r.rows[theirs].lastRead) + 1
            && forall k :: k in db.rows && k != mine && k != theirs ==> r.rows[k] == db.rows[k]
  {
    SendKeepsCounts(db, c);
    ReceiverHasOneMore(db, c);
  }

  lemma SendKeepsTables(db: Db, c: Command)
    requires MessagesOk(db.messages) && CursorsOk(db) && Plain(c.sender) && Plain(c.receiver) && c.id > 0
    ensures MessagesOk(Sent(db, c).messages) && CursorsOk(Sent(db, c))
  {
    var r := Sent(db, c);
    assert r.messages[|db.messages|] == Message(c.id, c.Key(), c.sender, c.receiver);
    forall key, id | HasMessage(db.messages, key, id) ensures HasMessage(r.messages, key, id) {
      var i :| 0 <= i < |db.messages| && db.messages[i].key == key && db.messages[i].id == id;
      assert r.messages[i] == db.messages[i];
    }
    assert HasMessage(r.messages, c.Key(), c.id);
  }

  // ---------------------------------------------------------------------------------------------
  // Every run of sends, reads and failures

  /** History: every command submitted, in order, and every one a worker finished, with whether it committed. */
  datatype Done = Done(command: Command, ok: bool)
  datatype Trace = Trace(submitted: seq<Command>, done: seq<Done>)

  datatype State = State(lastId: nat, queues: map<string, seq<Command>>, db: Db, trace: Trace)

  datatype Step =
    | Submit(command: Command)          // the id is drawn here, on the base loop
    | Commit(key: string, ok: bool)     // the worker takes the conversation's next command
    | Read(slot: Slot, id: nat)

  const INIT := State(0, map[], Db([], map[]), Trace([], []))

  function Queue(s: State, key: string): seq<Command> {
    if key in s.queues then s.queues[key] else []
  }

  /** Ids come from one generator, so they increase. Friends are plain accounts, never oneself. */
  predicate Enabled(s: State, step: Step) {
    match step
    case Submit(c) => c.id > s.lastId && Plain(c.sender) && Plain(c.receiver) && c.sender != c.receiver
    case Commit(key, _) => Queue(s, key) != []
    case Read(slot, id) => CanRead(s.db, slot, id)
  }

  function Apply(s: State, step: Step): State
    requires Enabled(s, step)
  {
    match step
    case Submit(c) =>
      s.(lastId := c.id, queues := s.queues[c.Key() := Queue(s, c.Key()) + [c]],
         trace := s.trace.(submitted := s.trace.submitted + [c]))
    case Commit(key, ok) =>
      var q := Queue(s, key);
      s.(queues := s.queues[key := q[1..]], db := if ok then Sent(s.db, q[0]) else s.db,
         trace := s.trace.(done := s.trace.done + [Done(q[0], ok)]))
    case Read(slot, id) => s.(db := WasRead(s.db, slot, id))
  }

  ghost predicate DbOk(s: State) {
    && MessagesOk(s.db.messages) && RowsOk(s.db) && CursorsOk(s.db)
    && forall i :: 0 <= i < |s.db.messages| ==> s.db.messages[i].id <= s.lastId
  }

  /** What waits for a conversation is in id order and above everything committed there. */
  ghost predicate Waiting(q: seq<Command>, key: string, lastId: nat, ms: seq<Message>) {
    && (forall i :: 0 <= i < |q| ==>
          Plain(q[i].sender) && Plain(q[i].receiver) && q[i].sender != q[i].receiver
          && q[i].Key() == key && q[i].id <= lastId && Newest(ms, q[i]))
    && (forall i, j :: 0 <= i < j < |q| ==> q[i].id < q[j].id)
  }

  ghost predicate QueueOk(s: State, key: string) {
    Waiting(Queue(s, key), key, s.lastId, s.db.messages)
  }

  ghost predicate Inv(s: State) {
    DbOk(s) && forall key :: QueueOk(s, key)
  }

  lemma SubmitKeepsInv(s: State, c: Command)
    requires Inv(s) && Enabled(s, Submit(c))
    ensures Inv(Apply(s, Submit(c)))
  {
    var r := Apply(s, Submit(c));
    forall key ensures QueueOk(r, key) {
      assert QueueOk(s, key);
    }
  }

  lemma CommitKeepsQueue(s: State, key: string, ok: bool, k: string)
    requires QueueOk(s, key) && QueueOk(s, k) && Enabled(s, Commit(key, ok))
    ensures QueueOk(Apply(s, Commit(key, ok)), k)
  {
    var r, q := Apply(s, Commit(key, ok)), Queue(s, key);
    assert Queue(r, k) == if k == key then q[1..] else Queue(s, k);
    if ok {
    }
  }

  lemma CommitKeepsInv(s: State, key: string, ok: bool)
    requires Inv(s) && Enabled(s, Commit(key, ok))
    ensures Inv(Apply(s, Commit(key, ok)))
  {
    assert QueueOk(s, key);
    forall k ensures QueueOk(Apply(s, Commit(key, ok)), k) {
      assert QueueOk(s, k);
      CommitKeepsQueue(s, key, ok, k);
    }
    if ok {
      SendKeepsRows(s.db, Queue(s, key)[0]);
      SendKeepsTables(s.db, Queue(s, key)[0]);
    }
  }

  lemma ReadKeepsInv(s: State, slot: Slot, id: nat)
    requires Inv(s) && Enabled(s, Read(slot, id))
    ensures Inv(Apply(s, Read(slot, id)))
  {
    var r := Apply(s, Read(slot, id));
    ReadKeepsRows(s.db, slot, id);
    forall key ensures QueueOk(r, key) {
      assert QueueOk(s, key);
    }
  }

  lemma StepKeepsInv(s: State, step: Step)
    requires Inv(s) && Enabled(s, step)
    ensures Inv(Apply(s, step))
  {
    match step
    case Submit(c) => SubmitKeepsInv(s, c);
    case Commit(key, ok) => CommitKeepsInv(s, key, ok);
    case Read(slot, id) => ReadKeepsInv(s, slot, id);
  }

  ghost predicate Next(s: State, r: State) {
    exists step :: Enabled(s, step) && Apply(s, step) == r
  }

  ghost predicate IsRun(states: seq<State>) {
    |states| > 0 && states[0] == INIT && forall i :: 0 <= i < |states| - 1 ==> Next(states[i], states[i + 1])
  }

  lemma {:induction false} RunKeepsInv(states: seq<State>, n: nat)
    requires IsRun(states) && n < |states|
    ensures Inv(states[n])
  {
    if n > 0 {
      RunKeepsInv(states, n - 1);
      assert Next(states[n - 1], states[n - 1 + 1]);
      var step :| Enabled(states[n - 1], step) && Apply(states[n - 1], step) == states[n];
      StepKeepsInv(states[n - 1], step);
    }
  }

  /** In every state of every run, an owner's unread count is the number of messages addressed to them, in that chat,
      above their cursor. */
  lemma UnreadCountIsTrue(states: seq<State>, n: nat, slot: Slot)
    requires IsRun(states) && n < |states| && slot in states[n].db.rows
    ensures var row := states[n].db.rows[slot]; row.unread == Unread(states[n].db.messages, slot, row.lastRead)
  {
    RunKeepsInv(states, n);
  }

  /** In every state of every run a read that is possible takes effect: the cursor is at the message or beyond, the
      count is of what lies above it, and no other row, no message and no queue changes. */
  lemma ReadTakesEffect(states: seq<State>, n: nat, slot: Slot, id: nat)
    requires IsRun(states) && n < |states| && Enabled(states[n], Read(slot, id))
    ensures var s, r := states[n], Apply(states[n], Read(slot, id));
            && OnlyRow(s.db, r.db, slot) && r.queues == s.queues && r.lastId == s.lastId
            && var cursor := Max(s.db.rows[slot].lastRead, id);
               r.db.rows[slot] == Row(Unread(s.db.messages, slot, cursor), cursor)
  {
    RunKeepsInv(states, n);
    ReadKeepsRows(states[n].db, slot, id);
  }

  lemma CursorStep(s: State, step: Step, slot: Slot)
    requires Inv(s) && Enabled(s, step) && slot in s.db.rows
    ensures slot in Apply(s, step).db.rows && s.db.rows[slot].lastRead <= Apply(s, step).db.rows[slot].lastRead
  {
    match step
    case Commit(key, ok) =>
      var c := Queue(s, key)[0];
      assert QueueOk(s, key);
      if slot == Slot(c.sender, c.receiver) && s.db.rows[slot].lastRead != 0 {
        assert HasMessage(s.db.messages, c.Key(), s.db.rows[slot].lastRead);
      }
    case _ =>
  }

  /** A read cursor never goes back. */
  lemma {:induction false} CursorNeverGoesBack(states: seq<State>, i: nat, j: nat, slot: Slot)
    requires IsRun(states) && i <= j < |states| && slot in states[i].db.rows
    ensures slot in states[j].db.rows && states[i].db.rows[slot].lastRead <= states[j].db.rows[slot].lastRead
    decreases j
  {
    if i < j {
      CursorNeverGoesBack(states, i, j - 1, slot);
      RunKeepsInv(states, j - 1);
      assert Next(states[j - 1], states[j - 1 + 1]);
      var step :| Enabled(states[j - 1], step) && Apply(states[j - 1], step) == states[j];
      CursorStep(states[j - 1], step, slot);
    }
  }

  // ---------------------------------------------------------------------------------------------
  // What was submitted, what is done, what waits

  function SubmittedTo(cs: seq<Command>, key: string): seq<Command> {
    if cs == [] then []
    else
      var front, last := cs[..|cs| - 1], cs[|cs| - 1];
      if last.Key() == key then SubmittedTo(front, key) + [last] else SubmittedTo(front, key)
  }

  function DoneFor(done: seq<Done>, key: string): seq<Command> {
    if done == [] then []
    else
      var front, last := done[..|done| - 1], done[|done| - 1].command;
      if last.Key() == key then DoneFor(front, key) + [last] else DoneFor(front, key)
  }

  function Committed(done: seq<Done>): seq<Message> {
    if done == [] then []
    else
      var front, last := done[..|done| - 1], done[|done| - 1];
      var c := last.command;
      if last.ok then Committed(front) + [Message(c.id, c.Key(), c.sender, c.receiver)] else Committed(front)
  }

  lemma TraceGrows(cs: seq<Command>, c: Command, done: seq<Done>, d: Done, key: string)
    ensures SubmittedTo(cs + [c], key) == SubmittedTo(cs, key) + (if c.Key() == key then [c] else [])
    ensures DoneFor(done + [d], key) == DoneFor(done, key) + (if d.command.Key() == key then [d.command] else [])
    ensures Committed(done + [d])
            == Committed(done)
               + (if d.ok then [Message(d.command.id, d.command.Key(), d.command.sender, d.command.receiver)] else [])
  {
    assert (cs + [c])[..|cs|] == cs && (done + [d])[..|done|] == done;
  }

  ghost predicate Traced(submitted: seq<Command>, done: seq<Done>, queue: seq<Command>, key: string) {
    SubmittedTo(submitted, key) == DoneFor(done, key) + queue
  }

  ghost predicate TraceOk(s: State, key: string) {
    Traced(s.trace.submitted, s.trace.done, Queue(s, key), key)
  }

  lemma SubmittedStaysTraced(submitted: seq<Command>, done: seq<Done>, queue: seq<Command>, c: Command, key: string)
    requires Traced(submitted, done, queue, key)
    ensures Traced(submitted + [c], done, if c.Key() == key then queue + [c] else queue, key)
  {
    TraceGrows(submitted, c, [], Done(c, true), key);
    var d := DoneFor(done, key);
    assert (d + queue) + [c] == d + (queue + [c]) && (d + queue) + [] == d + queue;
  }

  lemma TakenStaysTraced(submitted: seq<Command>, done: seq<Done>, queue: seq<Command>, d: Done, key: string)
    requires Traced(submitted, done, if d.command.Key() == key then [d.command] + queue else queue, key)
    ensures Traced(submitted, done + [d], queue, key)
  {
    TraceGrows([], d.command, done, d, key);
    var f := DoneFor(done, key);
    assert (f + [d.command]) + queue == f + ([d.command] + queue) && f + [] == f;
  }

  lemma CommitKeepsTrace(s: State, k: string, ok: bool, key: string)
    requires Enabled(s, Commit(k, ok)) && Queue(s, k)[0].Key() == k && TraceOk(s, key)
    ensures TraceOk(Apply(s, Commit(k, ok)), key)
  {
    var q := Queue(s, k);
    assert q == [q[0]] + q[1..];
    TakenStaysTraced(s.trace.submitted, s.trace.done, if k == key then q[1..] else Queue(s, key), Done(q[0], ok), key);
  }

  lemma StepKeepsTrace(s: State, step: Step, key: string)
    requires Enabled(s, step) && TraceOk(s, key) && s.db.messages == Committed(s.trace.done)
    requires step.Commit? ==> Queue(s, step.key)[0].Key() == step.key
    ensures TraceOk(Apply(s, step), key) && Apply(s, step).db.messages == Committed(Apply(s, step).trace.done)
  {
    match step
    case Submit(c) => SubmittedStaysTraced(s.trace.submitted, s.trace.done, Queue(s, key), c, key);
    case Commit(k, ok) =>
      CommitKeepsTrace(s, k, ok, key);
    case Read(_, _) =>
  }

  /** In every state of every run, the commands submitted to a conversation are those a worker has finished, followed
      by those still waiting, in order of submission; and the table holds exactly the finished ones that committed. */
  lemma {:induction false} TableIsWhatCommitted(states: seq<State>, n: nat, key: string)
    requires IsRun(states) && n < |states|
    ensures var s := states[n];
            SubmittedTo(s.trace.submitted, key) == DoneFor(s.trace.done, key) + Queue(s, key)
            && s.db.messages == Committed(s.trace.done)
  {
    if n > 0 {
      TableIsWhatCommitted(states, n - 1, key);
      RunKeepsInv(states, n - 1);
      assert Next(states[n - 1], states[n - 1 + 1]);
      var step :| Enabled(states[n - 1], step) && Apply(states[n - 1], step) == states[n];
      if step.Commit? {
        assert QueueOk(states[n - 1], step.key);
      }
      StepKeepsTrace(states[n - 1], step, key);
    }
  }

  // ---------------------------------------------------------------------------------------------
  // What was submitted gets there

  /** The worker goes through the commands that wait for a conversation, n of them, and all commit. */
  function CommitAll(s: State, key: string, n: nat): State
    decreases n
  {
    if n == 0 || Queue(s, key) == [] then s else CommitAll(Apply(s, Commit(key, true)), key, n - 1)
  }

  lemma {:induction false} QueueIsCommitted(s: State, key: string, n: nat)
    requires n <= |Queue(s, key)|
    ensures var r := CommitAll(s, key, n);
            && |r.db.messages| == |s.db.messages| + n && s.db.messages <= r.db.messages
            && forall i :: 0 <= i < n ==>
                 var c := Queue(s, key)[i];
                 r.db.messages[|s.db.messages| + i] == Message(c.id, c.Key(), c.sender, c.receiver)
    decreases n
  {
    if n > 0 {
      var m, q := Apply(s, Commit(key, true)), Queue(s, key);
      QueueIsCommitted(m, key, n - 1);
      var r := CommitAll(s, key, n);
      assert Queue(m, key) == q[1..];
      forall i | 0 <= i < n
        ensures r.db.messages[|s.db.messages| + i] == Message(q[i].id, q[i].Key(), q[i].sender, q[i].receiver)
      {
        if i > 0 {
          assert q[i] == Queue(m, key)[i - 1];
        } else {
          assert r.db.messages[|s.db.messages|] == m.db.messages[|s.db.messages|];
        }
      }
    }
  }

  /** A command that may be submitted is: it waits behind those before it, and when the worker has got through them it
      is the last message of the table. */
  lemma SubmittedIsCommitted(s: State, c: Command)
    requires Enabled(s, Submit(c))
    ensures var r := Apply(s, Submit(c)); var q := Queue(r, c.Key());
            && q == Queue(s, c.Key()) + [c] && (forall key :: key != c.Key() ==> Queue(r, key) == Queue(s, key))
            && r.lastId == c.id && r.db == s.db && r.trace.submitted == s.trace.submitted + [c]
            && var t := CommitAll(r, c.Key(), |q|).db.messages;
               t != [] && t[|t| - 1] == Message(c.id, c.Key(), c.sender, c.receiver)
  {
    var r := Apply(s, Submit(c));
    var q := Queue(r, c.Key());
    QueueIsCommitted(r, c.Key(), |q|);
    assert q[|q| - 1] == c;
    assert CommitAll(r, c.Key(), |q|).db.messages[|r.db.messages| + (|q| - 1)]
           == Message(c.id, c.Key(), c.sender, c.receiver);
  }

  // ---------------------------------------------------------------------------------------------
  // The two transactions, statement by statement

  /** The statements of a transaction; any of them, and the final COMMIT, can fail. */
  datatype Statement =
    | CheckReceiver | CheckFriend | InsertMessage | UpsertSender | UpsertReceiver | InsertPending
    | SelectRow | SelectMessage | CountNewlyRead | InsertReceipts | UpdateRow | CommitWork

  class DirectMessageStore {
    var db: Db
    var users: set<Account>
    var friends: set<Slot>          // owner has target as an active friend

    constructor (users: set<Account>, friends: set<Slot>)
      ensures db == Db([], map[]) && this.users == users && this.friends == friends
    {
      db, this.users, this.friends := Db([], map[]), users, friends;
    }

    /** All of the transaction or nothing of it. */
    method CommitMessage(c: Command, faults: set<Statement>) returns (status: Status)
      modifies this`db
      ensures db == if status == Ok then Sent(old(db), c) else old(db)
      ensures status == InvalidArgument <==> c.id == 0 || c.sender == "" || c.receiver == ""
      ensures status == Ok ==>
                c.id > 0 && c.sender != "" && c.receiver in users && Slot(c.sender, c.receiver) in friends
      ensures status == Ok ==> forall i :: 0 <= i < |old(db).messages| ==> old(db).messages[i].id != c.id
      ensures status !in {Ok, InvalidArgument, UserNotFound, NotFriends} ==> status == SqlError
      ensures status == NotFriends ==> Slot(c.sender, c.receiver) !in friends
      ensures status == UserNotFound ==> c.receiver !in users
      ensures faults == {} && status == SqlError ==> exists i :: 0 <= i < |db.messages| && db.messages[i].id == c.id
    {
      if c.id == 0 || c.sender == "" || c.receiver == "" {
        return InvalidArgument;
      }
      var tx := db;
      if CheckReceiver in faults { return SqlError; }
      if c.receiver !in users { return UserNotFound; }
      if CheckFriend in faults { return SqlError; }
      if Slot(c.sender, c.receiver) !in friends { return NotFriends; }
      if InsertMessage in faults || exists i :: 0 <= i < |tx.messages| && tx.messages[i].id == c.id {
        return SqlError;
      }
      tx := tx.(messages := tx.messages + [Message(c.id, c.Key(), c.sender, c.receiver)]);
      if UpsertSender in faults { return SqlError; }
      tx := tx.(rows := tx.rows[Slot(c.sender, c.receiver) := Row(0, c.id)]);
      if UpsertReceiver in faults { return SqlError; }
      var slot := Slot(c.receiver, c.sender);
      if slot in tx.rows {
        tx := tx.(rows := tx.rows[slot := tx.rows[slot].(unread := tx.rows[slot].unread + 1)]);
      } else {
        tx := tx.(rows := tx.rows[slot := Row(1, 0)]);
      }
      if InsertPending in faults || CommitWork in faults { return SqlError; }
      db := tx;
      status := Ok;
    }

    /** The result carries the cursor and the number of receipts written: in sound tables, what the read took off the
        unread messages. */
    method CommitRead(slot: Slot, id: nat, faults: set<Statement>) returns (status: Status, cursor: nat, newlyRead: nat)
      modifies this`db
      ensures status == Ok ==> CanRead(old(db), slot, id) && db == WasRead(old(db), slot, id)
      ensures status == Ok ==>
                && OnlyRow(old(db), db, slot)
                && db.rows[slot].lastRead == cursor == Max(old(db).rows[slot].lastRead, id)
                && newlyRead == CountByKey(db.messages, Key(slot.owner, slot.target), slot.owner,
                                           old(db).rows[slot].lastRead, cursor)
      ensures status == Ok && MessagesOk(old(db).messages) && RowsOk(old(db)) ==>
                && db.rows[slot].unread == Unread(db.messages, slot, cursor)
                && old(db).rows[slot].unread == db.rows[slot].unread + newlyRead
      ensures status != Ok ==> db == old(db)
      ensures status == InvalidArgument <==> slot.owner == "" || slot.target == "" || id == 0
      ensures faults == {} ==> (status == Ok <==> slot.owner != "" && slot.target != "" && id > 0
                                                  && CanRead(old(db), slot, id))
    {
      status, cursor, newlyRead := InvalidArgument, 0, 0;
      if slot.owner == "" || slot.target == "" || id == 0 {
        return;
      }
      status := SqlError;
      if SelectRow in faults { return; }
      if slot !in db.rows { status := MessageNotFound; return; }
      var key := Key(slot.owner, slot.target);
      if SelectMessage in faults { return; }
      if !HasMessage(db.messages, key, id) { status := MessageNotFound; return; }
      var row := db.rows[slot];
      cursor := if row.lastRead < id then id else row.lastRead;
      ReadTakesOff(db, slot, cursor);
      if cursor == row.lastRead {
        NothingBetween(db.messages, key, slot.owner, cursor);
        if CommitWork !in faults { status := Ok; }
        return;
      }
      if CountNewlyRead in faults { return; }
      newlyRead := CountByKey(db.messages, key, slot.owner, row.lastRead, cursor);
      if InsertReceipts in faults || UpdateRow in faults || CommitWork in faults { return; }
      db := db.(rows := db.rows[slot := Row(if row.unread > newlyRead then row.unread - newlyRead else 0, cursor)]);
      status := Ok;
    }
  }
}
