/** TcpConnection on its io loop, the sending side: whole frames go into the output buffer, and the socket takes
    bytes out of it in pieces of any size. */
module TcpSenders {

  import opened Buffers
  import opened Collections
  import opened Frames

  datatype Limits = Limits(maxFrameLen: nat, hardLimit: nat, highWater: nat, lowWater: nat, maxDrops: nat)

  datatype Flow = Flow(
    connected: bool,
    hasChannel: bool,
    estimate: nat,                  // pendingBytesEstimate_
    queued: nat,                    // queuedFrameBytes_
    overloaded: bool,
    drops: nat,                     // overloadDropCount_
    dropped: nat,                   // droppedMessage_
    closeScheduled: bool)

  /** What one send can report. */
  datatype SendOutcome = Sent(n: nat) | Interrupted | WouldBlock | Broken

  /** The length as sendInLoop sees it: a 32-bit number. */
  function WireLength(msg: Bytes): nat {
    |msg| % TWO32
  }

  /** The 32-bit length field cuts a message short exactly when the message does not fit it. */
  lemma WholeWhenItFits(msg: Bytes)
    ensures msg[..WireLength(msg)] == msg <==> |msg| < TWO32
  {
    if |msg| < TWO32 {
      assert WireLength(msg) == |msg|;
    } else {
      assert |msg[..WireLength(msg)]| < TWO32;
    }
  }

  predicate Accepts(f: Flow, limits: Limits, pending: nat, msg: Bytes) {
    && f.connected && f.hasChannel && WireLength(msg) <= limits.maxFrameLen
    && pending + (4 + WireLength(msg)) % TWO32 <= limits.hardLimit
  }

  /** Unless the 32-bit sum of header and payload wraps, an accepted message leaves the buffer within the limit. */
  lemma AcceptedFits(f: Flow, limits: Limits, pending: nat, msg: Bytes)
    requires Accepts(f, limits, pending, msg)
    ensures WireLength(msg) < TWO32 - 4 ==> pending + 4 + WireLength(msg) <= limits.hardLimit
  {
  }

  /** Where neither length wraps, a message is accepted exactly when it is within both limits. */
  lemma TakesExactly(f: Flow, limits: Limits, pending: nat, msg: Bytes)
    ensures limits.maxFrameLen < TWO32 - 4 && |msg| < TWO32 ==>
              (Accepts(f, limits, pending, msg) <==>
               f.connected && f.hasChannel && |msg| <= limits.maxFrameLen && pending + 4 + |msg| <= limits.hardLimit)
  {
  }

  /** Counts a message refused for the hard limit; enough of them in a row close the connection. */
  function CountDrop(f: Flow, limits: Limits): Flow {
    f.(dropped := f.dropped + 1, drops := f.drops + 1,
       closeScheduled := f.closeScheduled || f.drops + 1 >= limits.maxDrops)
  }

  /** The flow after a message that was not accepted: only one refused for the hard limit is counted. */
  function Refused(f: Flow, limits: Limits, msg: Bytes): Flow {
    if f.connected && f.hasChannel && WireLength(msg) <= limits.maxFrameLen then CountDrop(f, limits) else f
  }

  /** releaseReservedFrame, with the branch that repairs an underflow. */
  function Release(f: Flow, frameBytes: nat): Flow {
    f.(queued := if f.queued < frameBytes then 0 else f.queued - frameBytes)
  }

  /** After a frame was appended: the estimate, the mark for too much pending, and the connection if writing cannot be
      switched on. */
  function Appended(f: Flow, limits: Limits, pending: nat, canWrite: bool): Flow {
    f.(estimate := pending, overloaded := f.overloaded || pending >= limits.highWater,
       connected := f.connected && canWrite)
  }

  /** The same for a reserved frame, whose reservation is released before the mark is considered. */
  function ReservedAppended(f: Flow, limits: Limits, pending: nat, frameBytes: nat, canWrite: bool): Flow {
    var r := Release(f.(estimate := pending), frameBytes);
    r.(overloaded := r.overloaded || pending + r.queued > limits.highWater,
       connected := r.connected && (canWrite || !r.hasChannel))
  }

  /** After bytes left: below the low mark an overloaded connection recovers and its drops are forgotten. */
  function Drained(f: Flow, limits: Limits, pending: nat): Flow {
    if f.overloaded && pending + f.queued < limits.lowWater then
      f.(estimate := pending, overloaded := false, drops := 0)
    else f.(estimate := pending)
  }

  // ---------------------------------------------------------------------------------------------
  // When refusals close the connection

  /** What happens to the counters: a refusal by sendInLoop or, marking the connection overloaded, by tryReserveFrame;
      bytes that leave; or anything that touches neither of the drop counters. */
  datatype FlowEvent = Refusal(reserving: bool) | Drain(pending: nat) | Other(flow: Flow)

  predicate Recovers(f: Flow, limits: Limits, e: FlowEvent) {
    e.Drain? && f.overloaded && e.pending + f.queued < limits.lowWater
  }

  function After(f: Flow, limits: Limits, e: FlowEvent): Flow {
    match e
    case Refusal(reserving) =>
      var r := CountDrop(f, limits);
      r.(overloaded := r.overloaded || reserving)
    case Drain(pending) => Drained(f, limits, pending)
    case Other(g) => g.(drops := f.drops, dropped := f.dropped, closeScheduled := f.closeScheduled)
  }

  /** The flow after the first k events. */
  function At(f: Flow, limits: Limits, events: seq<FlowEvent>, k: nat): Flow
    requires k <= |events|
  {
    if k == 0 then f else After(At(f, limits, events, k - 1), limits, events[k - 1])
  }

  function Refusals(events: seq<FlowEvent>, i: nat, j: nat): nat
    requires i <= j <= |events|
  {
    if i == j then 0 else Refusals(events, i, j - 1) + (if events[j - 1].Refusal? then 1 else 0)
  }

  /** The connection does not recover from i to j. */
  ghost predicate NoRecovery(f: Flow, limits: Limits, events: seq<FlowEvent>, i: nat, j: nat)
    requires i <= j <= |events|
  {
    forall k :: i <= k < j ==> !Recovers(At(f, limits, events, k), limits, events[k])
  }

  /** A stretch without recovery that ends with a refusal and holds as many as the maximum. */
  ghost predicate TooMany(f: Flow, limits: Limits, events: seq<FlowEvent>, i: nat, j: nat) {
    && i < j <= |events| && events[j - 1].Refusal? && NoRecovery(f, limits, events, i, j)
    && Refusals(events, i, j) >= limits.maxDrops
  }

  lemma {:induction false} DropsWithoutRecovery(f: Flow, limits: Limits, events: seq<FlowEvent>, i: nat, j: nat)
    requires i <= j <= |events| && NoRecovery(f, limits, events, i, j)
    ensures At(f, limits, events, j).drops == At(f, limits, events, i).drops + Refusals(events, i, j)
    decreases j
  {
    if i < j {
      DropsWithoutRecovery(f, limits, events, i, j - 1);
      assert !Recovers(At(f, limits, events, j - 1), limits, events[j - 1]);
    }
  }

  /** The count of drops is the number of refusals since the last recovery. */
  lemma {:induction false} DropsSinceRecovery(f: Flow, limits: Limits, events: seq<FlowEvent>, j: nat) returns (i: nat)
    requires j <= |events| && f.drops == 0
    ensures i <= j && NoRecovery(f, limits, events, i, j) && At(f, limits, events, j).drops == Refusals(events, i, j)
    ensures At(f, limits, events, i).drops == 0
    decreases j
  {
    if j == 0 || Recovers(At(f, limits, events, j - 1), limits, events[j - 1]) {
      i := j;
    } else {
      i := DropsSinceRecovery(f, limits, events, j - 1);
      DropsWithoutRecovery(f, limits, events, i, j);
    }
  }

  ghost predicate TooManyBy(f: Flow, limits: Limits, events: seq<FlowEvent>, j: nat) {
    exists i: nat :: TooMany(f, limits, events, i, j)
  }

  lemma MaximumIsTooMany(f: Flow, limits: Limits, events: seq<FlowEvent>, j: nat)
    requires 0 < j <= |events| && f.drops == 0 && events[j - 1].Refusal?
    requires At(f, limits, events, j).drops >= limits.maxDrops
    ensures TooManyBy(f, limits, events, j)
  {
    var i := DropsSinceRecovery(f, limits, events, j);
    StretchIsNotEmpty(f, limits, events, i, j);
    assert TooMany(f, limits, events, i, j);
  }

  lemma StretchIsNotEmpty(f: Flow, limits: Limits, events: seq<FlowEvent>, i: nat, j: nat)
    requires 0 < j <= |events| && i <= j && events[j - 1].Refusal? && At(f, limits, events, i).drops == 0
    ensures i < j
  {
    assert At(f, limits, events, j).drops == At(f, limits, events, j - 1).drops + 1;
  }

  lemma TooManyIsMaximum(f: Flow, limits: Limits, events: seq<FlowEvent>, j: nat)
    requires TooManyBy(f, limits, events, j)
    ensures At(f, limits, events, j).drops >= limits.maxDrops
  {
    var i: nat :| TooMany(f, limits, events, i, j);
    DropsWithoutRecovery(f, limits, events, i, j);
  }

  lemma RefusalReachesMaximum(f: Flow, limits: Limits, events: seq<FlowEvent>, j: nat)
    requires 0 < j <= |events| && f.drops == 0 && events[j - 1].Refusal?
    ensures At(f, limits, events, j).drops >= limits.maxDrops <==> TooManyBy(f, limits, events, j)
  {
    if TooManyBy(f, limits, events, j) {
      TooManyIsMaximum(f, limits, events, j);
    } else if At(f, limits, events, j).drops >= limits.maxDrops {
      MaximumIsTooMany(f, limits, events, j);
    }
  }

  lemma {:induction false} RefusalsAreCounted(f: Flow, limits: Limits, events: seq<FlowEvent>, n: nat)
    requires n <= |events|
    ensures At(f, limits, events, n).dropped == f.dropped + Refusals(events, 0, n)
    decreases n
  {
    if n > 0 {
      RefusalsAreCounted(f, limits, events, n - 1);
    }
  }

  ghost predicate TooManyUpTo(f: Flow, limits: Limits, events: seq<FlowEvent>, n: nat) {
    exists j: nat :: j <= n && TooManyBy(f, limits, events, j)
  }

  lemma TooManyUpToNext(f: Flow, limits: Limits, events: seq<FlowEvent>, n: nat)
    requires n > 0
    ensures TooManyUpTo(f, limits, events, n) <==>
            TooManyUpTo(f, limits, events, n - 1) || TooManyBy(f, limits, events, n)
  {
    if TooManyUpTo(f, limits, events, n) && !TooManyBy(f, limits, events, n) {
      var j: nat :| j <= n && TooManyBy(f, limits, events, j);
      assert j <= n - 1;
    }
  }

  /** One event schedules the close exactly when it is the last refusal of too many. */
  lemma ClosedByOne(f: Flow, limits: Limits, events: seq<FlowEvent>, n: nat)
    requires 0 < n <= |events| && f.drops == 0
    ensures At(f, limits, events, n).closeScheduled <==>
            At(f, limits, events, n - 1).closeScheduled || TooManyBy(f, limits, events, n)
  {
    if events[n - 1].Refusal? {
      RefusalReachesMaximum(f, limits, events, n);
    }
  }

  lemma {:induction false} ClosedByRefusals(f: Flow, limits: Limits, events: seq<FlowEvent>, n: nat)
    requires n <= |events| && f.drops == 0 && !f.closeScheduled
    ensures At(f, limits, events, n).closeScheduled <==> TooManyUpTo(f, limits, events, n)
    decreases n
  {
    if n > 0 {
      ClosedByRefusals(f, limits, events, n - 1);
      ClosedByOne(f, limits, events, n);
      TooManyUpToNext(f, limits, events, n);
    }
  }

  /** Over any series of refusals, flushes and other changes, every refusal is counted, and the connection is to be
      closed exactly when at some point the maximum of refusals came together without a recovery between them. */
  lemma RefusalsClose(f: Flow, limits: Limits, events: seq<FlowEvent>)
    requires f.drops == 0 && !f.closeScheduled
    ensures var r := At(f, limits, events, |events|);
            && r.dropped == f.dropped + Refusals(events, 0, |events|)
            && (r.closeScheduled <==> exists i: nat, j: nat :: TooMany(f, limits, events, i, j))
  {
    RefusalsAreCounted(f, limits, events, |events|);
    ClosedByRefusals(f, limits, events, |events|);
    assert forall i: nat, j: nat :: TooMany(f, limits, events, i, j) ==>
                                      j <= |events| && TooManyBy(f, limits, events, j);
  }

  /** How many of the pending bytes a series of send outcomes takes. */
  function Taken(results: seq<SendOutcome>, pending: nat): nat {
    if results == [] || pending == 0 || results[0].WouldBlock? || results[0].Broken? then 0
    else
      var n := if results[0].Sent? then Min(results[0].n, pending) else 0;
      n + Taken(results[1..], pending - n)
  }

  lemma TakenNext(results: seq<SendOutcome>, i: nat, pending: nat)
    requires i < |results| && pending > 0
    ensures var n := if results[i].Sent? then Min(results[i].n, pending) else 0;
            Taken(results[i..], pending) == if results[i].WouldBlock? || results[i].Broken? then 0
                                            else n + Taken(results[i + 1..], pending - n)
  {
  }

  /** What was sent, followed by what is buffered, is the encoding of the accepted payloads. */
  ghost predicate StreamOk(sent: Bytes, buffered: Bytes, accepted: seq<Bytes>) {
    Encodable(accepted) && sent + buffered == EncodeAll(accepted)
  }

  lemma StreamGrows(sent: Bytes, buffered: Bytes, accepted: seq<Bytes>, payload: Bytes)
    requires StreamOk(sent, buffered, accepted) && |payload| < TWO32
    ensures StreamOk(sent, (buffered + Header(|payload|)) + payload, accepted + [payload])
  {
    EncodeAllAppends(accepted, payload);
    assert sent + ((buffered + Header(|payload|)) + payload) == (sent + buffered) + Encode(payload);
  }

  lemma StreamFlows(sent: Bytes, buffered: Bytes, accepted: seq<Bytes>, n: nat)
    requires StreamOk(sent, buffered, accepted) && n <= |buffered|
    ensures StreamOk(sent + buffered[..n], buffered[n..], accepted)
  {
  }

  /** A peer with the same limit that parses what has been sent so far sees a prefix of the accepted payloads, and
      never a reason to close. */
  lemma PeerSeesPrefix(sent: Bytes, buffered: Bytes, accepted: seq<Bytes>, maxFrameLen: nat)
    requires maxFrameLen < TWO32 - 4 && Sendable(accepted, maxFrameLen) && StreamOk(sent, buffered, accepted)
    ensures var p := Parse(sent, maxFrameLen);
            !p.closed && |p.events| <= |accepted|
            && forall i :: 0 <= i < |p.events| ==> StandsFor(p.events[i], accepted[i])
  {
    ParseEncoded(accepted, maxFrameLen);
    ParseIsIncremental(sent, buffered, maxFrameLen);
    var p, all := Parse(sent, maxFrameLen), Parse(sent + buffered, maxFrameLen);
    assert p.events <= all.events;
  }

  class TcpConnection {
    const limits: Limits
    const output: Buffer
    var flow: Flow
    ghost var sent: Bytes           // what the socket has taken
    ghost var accepted: seq<Bytes>  // the payloads accepted, in order

    ghost predicate Valid()
      reads this, output, output.data
    {
      output.Valid() && StreamOk(sent, output.Contents(), accepted) && flow.estimate == output.Readable()
    }

    constructor (limits: Limits)
      ensures Valid() && fresh(output) && fresh(output.data) && this.limits == limits
      ensures sent == [] && accepted == [] && flow == Flow(true, false, 0, 0, false, 0, 0, false)
    {
      this.limits := limits;
      output := new Buffer();
      flow := Flow(true, false, 0, 0, false, 0, 0, false);
      sent, accepted := [], [];
    }

    /** There is a connection, the message is within the frame limit, and the buffer has room for it and its header. */
    ghost predicate Takes(msg: Bytes)
      reads this, output, output.data
    {
      && flow.connected && flow.hasChannel && |msg| <= limits.maxFrameLen
      && output.Valid() && output.Readable() + 4 + |msg| <= limits.hardLimit
    }

    /** Appends one frame; only the two sending methods call it. */
    method AppendFrame(payload: Bytes)
      requires Valid() && |payload| < TWO32
      modifies this, output, output.data
      ensures Valid() && (output.data == old(output.data) || fresh(output.data))
      ensures sent == old(sent) && accepted == old(accepted) + [payload]
      ensures output.Readable() == old(output.Readable()) + 4 + |payload|
      ensures flow == old(flow).(estimate := output.Readable())
    {
      StreamGrows(sent, output.Contents(), accepted, payload);
      output.AppendUInt32(|payload|);
      output.Append(payload);
      flow := flow.(estimate := output.Readable());
      accepted := accepted + [payload];
    }

    /** The checks of sendInLoop, and the count of a message refused for the hard limit. */
    method Admit(msg: Bytes) returns (ok: bool)
      requires Valid()
      modifies this`flow
      ensures Valid() && ok == Accepts(old(flow), limits, output.Readable(), msg)
      ensures flow == if ok then old(flow) else Refused(old(flow), limits, msg)
    {
      ok := false;
      if !flow.connected || !flow.hasChannel {
        return;
      }
      var len := |msg| % TWO32;
      if len > limits.maxFrameLen {
        return;
      }
      ok := output.Readable() + (4 + len) % TWO32 <= limits.hardLimit;
      if !ok {
        flow := CountDrop(flow, limits);
      }
    }

    /** The rest of sendInLoop for a message that was admitted: the frame, the mark and the write interest. */
    method AppendAccepted(payload: Bytes, canWrite: bool)
      requires Valid() && |payload| < TWO32
      modifies this, output, output.data
      ensures Valid() && (output.data == old(output.data) || fresh(output.data))
      ensures sent == old(sent) && accepted == old(accepted) + [payload]
      ensures output.Readable() == old(output.Readable()) + 4 + |payload|
      ensures flow == Appended(old(flow), limits, output.Readable(), canWrite)
    {
      AppendFrame(payload);
      if !flow.overloaded && flow.estimate >= limits.highWater {
        flow := flow.(overloaded := true);
      }
      if !canWrite {
        flow := flow.(connected := false);
      }
    }

    /** Takes the message or leaves the buffer alone. What it takes is the message whole exactly when its length fits 32
        bits, else only its first bytes. The buffer stays within the hard limit unless the 32-bit sum wraps. */
    method SendInLoop(msg: Bytes, canWrite: bool)
      requires Valid()
      modifies this, output, output.data
      ensures Valid() && (output.data == old(output.data) || fresh(output.data)) && sent == old(sent)
      ensures var ok := Accepts(old(flow), limits, old(output.Readable()), msg);
              && accepted == old(accepted) + (if ok then [msg[..WireLength(msg)]] else [])
              && flow == (if ok then Appended(old(flow), limits, output.Readable(), canWrite)
                          else Refused(old(flow), limits, msg))
              && output.Readable() == old(output.Readable()) + (if ok then 4 + WireLength(msg) else 0)
              && (ok && WireLength(msg) < TWO32 - 4 ==> output.Readable() <= limits.hardLimit)
      ensures msg[..WireLength(msg)] == msg <==> |msg| < TWO32
      ensures limits.maxFrameLen < TWO32 - 4 && |msg| < TWO32 ==>
                && (accepted == old(accepted) + [msg] <==> old(Takes(msg)))
                && (accepted == old(accepted) <==> !old(Takes(msg)))
      ensures flow.queued == old(flow).queued && flow.hasChannel == old(flow).hasChannel
      ensures accepted != old(accepted) ==>
                && (flow.overloaded <==> old(flow).overloaded || output.Readable() >= limits.highWater)
                && (flow.connected <==> canWrite)
      ensures accepted == old(accepted) ==>
                flow.overloaded == old(flow).overloaded && flow.connected == old(flow).connected
      ensures accepted == old(accepted) ==>
                if old(flow).connected && old(flow).hasChannel && WireLength(msg) <= limits.maxFrameLen
                then flow.drops == old(flow).drops + 1 && flow.dropped == old(flow).dropped + 1 else flow == old(flow)
    {
      TakesExactly(flow, limits, output.Readable(), msg);
      var ok := Admit(msg);
      if ok {
        AcceptedFits(flow, limits, output.Readable(), msg);
        AppendAccepted(msg[..|msg| % TWO32], canWrite);
      }
      WholeWhenItFits(msg);
    }

    /** A frame whose room was reserved is appended without another look at the limit, unless the connection was
        closed meanwhile; either way the reservation is released. */
    method SendReservedFrameInLoop(payload: Bytes, canWrite: bool)
      requires Valid() && |payload| < TWO32
      modifies this, output, output.data
      ensures Valid() && (output.data == old(output.data) || fresh(output.data)) && sent == old(sent)
      ensures accepted == old(accepted) + (if old(flow).connected then [payload] else [])
      ensures flow == if old(flow).connected
                      then ReservedAppended(old(flow), limits, output.Readable(), 4 + |payload|, canWrite)
                      else Release(old(flow), 4 + |payload|)
      ensures output.Readable() == old(output.Readable()) + (if old(flow).connected then 4 + |payload| else 0)
      ensures old(flow).queued >= 4 + |payload| ==> flow.queued == old(flow).queued - (4 + |payload|)
      ensures old(flow).queued < 4 + |payload| ==> flow.queued == 0
      ensures old(flow).connected ==>
                && (flow.overloaded <==> old(flow).overloaded || output.Readable() + flow.queued > limits.highWater)
                && (flow.connected <==> canWrite || !flow.hasChannel)
    {
      if !flow.connected {
        flow := Release(flow, 4 + |payload|);
        return;
      }
      AppendFrame(payload);
      flow := Release(flow, 4 + |payload|);
      if !flow.overloaded && flow.estimate + flow.queued > limits.highWater {
        flow := flow.(overloaded := true);
      }
      if flow.hasChannel && !canWrite {
        flow := flow.(connected := false);
      }
    }

    /** The socket took n bytes from the front of the buffer. */
    method BytesSent(n: nat)
      requires Valid() && n <= output.Readable()
      modifies this, output
      ensures Valid() && output.data == old(output.data) && accepted == old(accepted)
      ensures sent == old(sent) + old(output.Contents())[..n]
      ensures output.Readable() == old(output.Readable()) - n && flow == Drained(old(flow), limits, output.Readable())
      ensures var recovers := old(flow).overloaded && output.Readable() + flow.queued < limits.lowWater;
              && (flow.overloaded <==> old(flow).overloaded && !recovers)
              && flow.drops == (if recovers then 0 else old(flow).drops)
              && flow.queued == old(flow).queued && flow.connected == old(flow).connected
    {
      ghost var before := output.Contents();
      StreamFlows(sent, before, accepted, n);
      output.Retrieve(n);
      sent := sent + before[..n];
      flow := flow.(estimate := output.Readable());
      if flow.overloaded && flow.estimate + flow.queued < limits.lowWater {
        flow := flow.(overloaded := false, drops := 0);
      }
    }

    /** One turn of the loop of handleWrite that neither blocks nor fails. */
    method SendOnce(result: SendOutcome, canDisable: bool)
      requires Valid() && !result.WouldBlock? && !result.Broken?
      modifies this, output
      ensures Valid() && output.data == old(output.data) && accepted == old(accepted) && old(sent) <= sent
      ensures var n := if result.Sent? then Min(result.n, old(output.Readable())) else 0;
              |sent| == |old(sent)| + n && output.Readable() == old(output.Readable()) - n
      ensures canDisable ==> flow.connected == old(flow).connected
    {
      if result.Sent? {
        BytesSent(Min(result.n, output.Readable()));
      }
      if output.Readable() == 0 && !canDisable {
        flow := flow.(connected := false);
      }
    }

    /** handleWrite: sends until the buffer is empty or the socket would block or fails. The bytes that leave are
        the next ones of the stream, as many as the socket took. */
    method HandleWrite(results: seq<SendOutcome>, canDisable: bool)
      requires Valid()
      modifies this, output
      ensures Valid() && output.data == old(output.data) && accepted == old(accepted)
      ensures |sent| == |old(sent)| + Taken(results, old(output.Readable()))
      ensures old(sent) <= sent
      ensures Broken !in results && canDisable ==> flow.connected == old(flow).connected
    {
      var i := 0;
      ghost var pending := output.Readable();
      assert results[0..] == results;
      while i < |results| && output.Readable() > 0
        invariant i <= |results| && Valid() && output.data == old(output.data) && accepted == old(accepted)
        invariant old(sent) <= sent
        invariant Broken !in results && canDisable ==> flow.connected == old(flow).connected
        invariant |sent| + Taken(results[i..], output.Readable()) == |old(sent)| + Taken(results, pending)
        decreases |results| - i
      {
        TakenNext(results, i, output.Readable());
        if results[i].WouldBlock? {
          return;
        }
        if results[i].Broken? {
          flow := flow.(connected := false);
          return;
        }
        SendOnce(results[i], canDisable);
        i := i + 1;
      }
    }

    method HandleClose()
      requires Valid()
      modifies this
      ensures Valid() && !flow.connected && accepted == old(accepted) && sent == old(sent)
    {
      flow := flow.(connected := false);
    }
  }
}
