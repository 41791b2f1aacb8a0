/** TcpServer::sendBatchToConnKeys: one shared frame for many connections, reserved one by one and handed to the io
    loops in one batch per loop. */
module BatchSends {

  import BackPressure
  import opened Collections
  import opened Frames

  type Key = int
  type LoopId = nat

  datatype SendResult = Ok | NoSuchConnection | Closed | Overloaded | Failed

  datatype BatchResult = BatchResult(sent: nat, noSuch: nat, closed: nat, overloaded: nat, failed: nat) {
    function Add(r: SendResult): BatchResult {
      match r
      case Ok => this.(sent := sent + 1)
      case NoSuchConnection => this.(noSuch := noSuch + 1)
      case Closed => this.(closed := closed + 1)
      case Overloaded => this.(overloaded := overloaded + 1)
      case Failed => this.(failed := failed + 1)
    }

    function Dropped(): nat { noSuch + closed + overloaded + failed }

    function Total(): nat { sent + Dropped() }

    /** The one result to report for a batch of one key. */
    function SingleResult(): SendResult {
      if sent > 0 then Ok
      else if overloaded > 0 then Overloaded
      else if closed > 0 then Closed
      else if noSuch > 0 then NoSuchConnection
      else Failed
    }
  }

  const NOTHING := BatchResult(0, 0, 0, 0, 0)

  lemma AddCountsOne(b: BatchResult, r: SendResult)
    ensures b.Add(r).Total() == b.Total() + 1
    ensures NOTHING.Add(r).SingleResult() == r
  {
  }

  /** What tryReserveFrame sees and changes of a connection, run without interference. */
  datatype Peer = Peer(loop: LoopId, connected: bool, estimate: nat, queued: nat, drops: nat, overloaded: bool)

  function TryReserve(p: Peer, frameBytes: nat, hardLimit: nat): (Peer, SendResult) {
    if !p.connected then (p, Closed)
    else if p.estimate + p.queued + frameBytes > hardLimit then
      (p.(drops := p.drops + 1, overloaded := true), Overloaded)
    else (p.(queued := p.queued + frameBytes), Ok)
  }

  /** The connection as the back-pressure protocol sees it, when nothing is under way. */
  function AtRest(p: Peer): BackPressure.State {
    BackPressure.State(p.connected, p.estimate, p.estimate, p.queued, [p.queued], BackPressure.Idle, BackPressure.Free)
  }

  /** Reserving is the protocol's undisturbed call: possible for the same frames, and with the same effect. */
  lemma ReserveIsTheCall(p: Peer, frameBytes: nat, hardLimit: nat)
    ensures TryReserve(p, frameBytes, hardLimit).1 == Ok <==>
            BackPressure.CanCall(AtRest(p), hardLimit, BackPressure.Reserve(frameBytes))
    ensures TryReserve(p, frameBytes, hardLimit).1 == Ok ==>
            TryReserve(p, frameBytes, hardLimit).0.queued
            == BackPressure.Called(AtRest(p), hardLimit, BackPressure.Reserve(frameBytes)).queued
    ensures TryReserve(p, frameBytes, hardLimit).1 in {Ok, Closed, Overloaded}
    ensures TryReserve(p, frameBytes, hardLimit).1 == Closed <==> !p.connected
  {
  }

  /** A task on a loop that sends the reserved frame on each of the connections. */
  datatype Batch = Batch(loop: LoopId, conns: seq<Key>)

  function Sends(batches: seq<Batch>): multiset<Key> {
    if batches == [] then multiset{} else Sends(batches[..|batches| - 1]) + multiset(batches[|batches| - 1].conns)
  }

  ghost predicate OnTheirLoops(batches: seq<Batch>, peers: map<Key, Peer>) {
    forall b :: b in batches ==> forall k :: k in b.conns ==> k in peers && peers[k].loop == b.loop
  }

  predicate DistinctLoops(batches: seq<Batch>) {
    forall i, j :: 0 <= i < j < |batches| ==> batches[i].loop != batches[j].loop
  }

  /** Every reservation stands for one queued send, and nothing else about the peers changed but the overload
      marks. */
  ghost predicate Matched(before: map<Key, Peer>, after: map<Key, Peer>, sends: multiset<Key>, frameBytes: nat) {
    && after.Keys == before.Keys
    && (forall k :: k in sends ==> k in before)
    && (forall k :: k in before ==> Reserved(before[k], after[k], sends[k], frameBytes))
  }

  /** That many reservations, and otherwise only the overload marks changed. */
  predicate Reserved(p: Peer, r: Peer, n: nat, frameBytes: nat) {
    && r.queued == p.queued + frameBytes * n
    && r.loop == p.loop && r.estimate == p.estimate && r.connected == p.connected
  }

  function CountMissing(keys: seq<Key>, peers: map<Key, Peer>): nat {
    if keys == [] then 0
    else CountMissing(keys[..|keys| - 1], peers) + (if keys[|keys| - 1] in peers then 0 else 1)
  }

  function CountClosed(keys: seq<Key>, peers: map<Key, Peer>): nat {
    if keys == [] then 0
    else CountClosed(keys[..|keys| - 1], peers)
         + (if keys[|keys| - 1] in peers && !peers[keys[|keys| - 1]].connected then 1 else 0)
  }

  /** Every key is in exactly one count, and the missing and the closed ones are counted as such. */
  predicate Counted(peers: map<Key, Peer>, keys: seq<Key>, result: BatchResult) {
    && result.sent + result.overloaded + result.noSuch + result.closed == |keys| && result.failed == 0
    && result.noSuch == CountMissing(keys, peers) && result.closed == CountClosed(keys, peers)
  }

  lemma CountedNext(peers: map<Key, Peer>, keys: seq<Key>, key: Key, result: BatchResult, r: SendResult)
    requires Counted(peers, keys, result) && r != Failed
    requires r == NoSuchConnection <==> key !in peers
    requires r == Closed <==> key in peers && !peers[key].connected
    ensures Counted(peers, keys + [key], result.Add(r))
  {
  }

  /** batches[loop].push_back(key) */
  method PushBatch(batches: seq<Batch>, key: Key, peers: map<Key, Peer>) returns (r: seq<Batch>)
    requires DistinctLoops(batches) && OnTheirLoops(batches, peers) && key in peers
    ensures DistinctLoops(r) && OnTheirLoops(r, peers) && Sends(r) == Sends(batches) + multiset{key}
  {
    var loop := peers[key].loop;
    for i := 0 to |batches|
      invariant forall j :: 0 <= j < i ==> batches[j].loop != loop
    {
      if batches[i].loop == loop {
        var b := batches[i].(conns := batches[i].conns + [key]);
        r := batches[i := b];
        SendsReplaced(batches, i, key);
        return;
      }
    }
    r := batches + [Batch(loop, [key])];
    assert r[..|r| - 1] == batches;
  }

  lemma SendsLast(front: seq<Batch>, last: Batch)
    ensures Sends(front + [last]) == Sends(front) + multiset(last.conns)
  {
    assert (front + [last])[..|front|] == front;
  }

  lemma MovedOut(a: multiset<Key>, b: multiset<Key>, key: Key)
    ensures a + (b + multiset{key}) == (a + b) + multiset{key}
    ensures (a + multiset{key}) + b == (a + b) + multiset{key}
  {
  }

  lemma {:induction false} SendsReplaced(batches: seq<Batch>, i: nat, key: Key)
    requires i < |batches|
    ensures Sends(batches[i := batches[i].(conns := batches[i].conns + [key])]) == Sends(batches) + multiset{key}
  {
    var b := batches[i].(conns := batches[i].conns + [key]);
    var n := |batches| - 1;
    var front, last := batches[..n], batches[n];
    assert batches == front + [last];
    SendsLast(front, last);
    if i == n {
      assert batches[i := b] == front + [b];
      SendsLast(front, b);
      assert multiset(b.conns) == multiset(last.conns) + multiset{key};
      MovedOut(Sends(front), multiset(last.conns), key);
    } else {
      var changed := front[i := b];
      assert batches[i := b] == changed + [last];
      SendsReplaced(front, i, key);
      SendsLast(changed, last);
      MovedOut(Sends(front), multiset(last.conns), key);
    }
  }

  class TcpServer {
    const maxFrameLen: nat
    const hardLimit: nat
    var peers: map<Key, Peer>
    var posted: seq<Batch>          // queueInLoop calls, in order

    constructor (maxFrameLen: nat, hardLimit: nat, peers: map<Key, Peer>)
      ensures this.maxFrameLen == maxFrameLen && this.hardLimit == hardLimit
      ensures this.peers == peers && posted == []
    {
      this.maxFrameLen, this.hardLimit, this.peers, posted := maxFrameLen, hardLimit, peers, [];
    }

    /** One key: looks the connection up and tries to reserve. */
    method ReserveFor(key: Key, frameBytes: nat) returns (r: SendResult)
      modifies this`peers
      ensures key !in old(peers) ==> r == NoSuchConnection && peers == old(peers)
      ensures key in old(peers) ==>
                var (p, s) := TryReserve(old(peers)[key], frameBytes, hardLimit);
                r == s && peers == old(peers)[key := p]
    {
      if key !in peers {
        return NoSuchConnection;
      }
      var (p, s) := TryReserve(peers[key], frameBytes, hardLimit);
      peers, r := peers[key := p], s;
    }

    /** How far the reserving loop has come. */
    ghost predicate Reserving(start: map<Key, Peer>, seen: seq<Key>, result: BatchResult, batches: seq<Batch>,
                              frameBytes: nat)
      reads this
    {
      && Counted(start, seen, result) && result.sent == |Sends(batches)|
      && Matched(start, peers, Sends(batches), frameBytes)
      && DistinctLoops(batches) && OnTheirLoops(batches, peers)
    }

    /** One turn of the reserving loop. */
    method ReserveOne(key: Key, frameBytes: nat, result: BatchResult, batches: seq<Batch>, ghost start: map<Key, Peer>,
                      ghost seen: seq<Key>)
      returns (counted: BatchResult, more: seq<Batch>)
      requires Reserving(start, seen, result, batches, frameBytes)
      modifies this`peers
      ensures Reserving(start, seen + [key], counted, more, frameBytes)
    {
      ghost var before := peers;
      var r := ReserveFor(key, frameBytes);
      more := batches;
      if r == Ok {
        MatchedOneMore(start, before, peers, Sends(batches), frameBytes, key);
        more := PushBatch(batches, key, peers);
      } else {
        MatchedRefused(start, before, peers, Sends(batches), frameBytes, key);
      }
      CountedNext(start, seen, key, result, r);
      counted := result.Add(r);
    }

    /** The reserving loop: batches hold one entry for every success. */
    method ReserveAll(keys: seq<Key>, frameBytes: nat) returns (result: BatchResult, batches: seq<Batch>)
      modifies this`peers
      ensures Reserving(old(peers), keys, result, batches, frameBytes)
    {
      result, batches := NOTHING, [];
      for i := 0 to |keys|
        invariant Reserving(old(peers), keys[..i], result, batches, frameBytes)
      {
        assert keys[..i + 1] == keys[..i] + [keys[i]];
        result, batches := ReserveOne(keys[i], frameBytes, result, batches, old(peers), keys[..i]);
      }
      assert keys[..|keys|] == keys;
    }

    /** Every key is counted once; a frame that cannot be made fails them all and touches nothing; otherwise the
        number sent is the number of sends posted, and each reservation has exactly one of them, on the
        connection's own loop. */
    method SendBatchToConnKeys(keys: seq<Key>, payload: Option<Bytes>) returns (result: BatchResult)
      modifies this
      ensures result.Total() == |keys|
      ensures old(posted) <= posted
      ensures var sends, frame := Sends(posted[|old(posted)|..]), CreateFrame(payload, maxFrameLen);
              && result.sent == |sends|
              && (frame.None? ==> result.failed == |keys| && peers == old(peers) && posted == old(posted))
              && (frame.Some? ==>
                    && Matched(old(peers), peers, sends, |frame.value|)
                    && OnTheirLoops(posted[|old(posted)|..], peers)
                    && Counted(old(peers), keys, result))
    {
      var frame := CreateFrame(payload, maxFrameLen);
      if frame.None? {
        return NOTHING.(failed := |keys|);
      }
      ghost var before := posted;
      var batches: seq<Batch>;
      result, batches := ReserveAll(keys, |frame.value|);
      ghost var reserved := peers;
      for i := 0 to |batches|
        invariant posted == before + batches[..i] && peers == reserved
      {
        posted := posted + [batches[i]];
      }
      assert posted[|before|..] == batches;
    }
  }

  lemma MatchedRefused(before: map<Key, Peer>, mid: map<Key, Peer>, after: map<Key, Peer>, sends: multiset<Key>,
                       frameBytes: nat, key: Key)
    requires Matched(before, mid, sends, frameBytes)
    requires || after == mid
             || (key in mid && after == mid[key := mid[key].(drops := mid[key].drops + 1, overloaded := true)])
    ensures Matched(before, after, sends, frameBytes)
  {
  }

  lemma ReservedOnceMore(p: Peer, r: Peer, n: nat, frameBytes: nat)
    requires Reserved(p, r, n, frameBytes)
    ensures Reserved(p, r.(queued := r.queued + frameBytes), n + 1, frameBytes)
  {
  }

  lemma MatchedOneMore(before: map<Key, Peer>, mid: map<Key, Peer>, after: map<Key, Peer>, sends: multiset<Key>,
                       frameBytes: nat, key: Key)
    requires Matched(before, mid, sends, frameBytes) && key in mid
    requires after == mid[key := mid[key].(queued := mid[key].queued + frameBytes)]
    ensures Matched(before, after, sends + multiset{key}, frameBytes)
  {
    var more := sends + multiset{key};
    forall k | k in before ensures Reserved(before[k], after[k], more[k], frameBytes) {
      assert Reserved(before[k], mid[k], sends[k], frameBytes);
      if k == key {
        ReservedOnceMore(before[k], mid[k], sends[k], frameBytes);
      }
    }
  }
}
