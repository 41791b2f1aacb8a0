/** TcpConnection on its io loop, the receiving side: reading from the socket and taking frames out of the input
    buffer. */
module TcpConnections {

  import opened Buffers
  import opened Collections
  import opened Frames

  /** What one readFd can report. */
  datatype ReadResult = Data(bytes: Bytes) | Interrupted | WouldBlock | Eof | Failed

  predicate EndsRead(r: ReadResult) {
    r.WouldBlock? || r.Eof? || r.Failed?
  }

  /** Everything the socket gives until it would block, ends or fails. */
  function Received(results: seq<ReadResult>): Bytes {
    if results == [] || EndsRead(results[0]) then []
    else (if results[0].Data? then results[0].bytes else []) + Received(results[1..])
  }

  predicate PeerGone(results: seq<ReadResult>) {
    results != [] && (results[0].Eof? || results[0].Failed? || (!results[0].WouldBlock? && PeerGone(results[1..])))
  }

  lemma PayloadTaken(b: Bytes, len: nat)
    requires |b| >= 4
    ensures var n := Min(len, |b| - 4); b[4..][..n] == b[4..4 + n] && b[4..][n..] == b[4 + n..]
  {
  }

  /** Takes the header off, and then as much of the payload as the buffer holds. */
  method TakePayload(input: Buffer, len: nat) returns (payload: Bytes)
    requires input.Valid() && input.Readable() >= 4
    modifies input
    ensures input.Valid() && input.data == old(input.data)
    ensures var b := old(input.Contents()); var n := Min(len, |b| - 4);
            payload == b[4..4 + n] && input.Contents() == b[4 + n..]
  {
    ghost var b := input.Contents();
    PayloadTaken(b, len);
    input.Retrieve(4);
    assert input.Readable() == |input.Contents()| == |b| - 4;
    payload := input.RetrieveAsString(len);
  }

  /** One turn of the inner loop of handleRead: takes the frame at the front out of the buffer, if it is there. */
  method TakeFrame(input: Buffer, maxFrameLen: nat) returns (scan: Scan)
    requires input.Valid()
    modifies input
    ensures input.Valid() && input.data == old(input.data)
    ensures scan == ScanFrame(old(input.Contents()), maxFrameLen)
    ensures input.Contents() == if scan.Found? then old(input.Contents())[scan.consumed..] else old(input.Contents())
  {
    if input.Readable() < 4 {
      return NeedMore;
    }
    var len := input.PeekLength();
    if len == 0 {
      input.Retrieve(4);
      return Found(Deliver([]), 4);
    }
    if len > maxFrameLen {
      return Oversize;
    }
    if input.Readable() < (4 + len) % TWO32 {
      return NeedMore;
    }
    var payload := TakePayload(input, len);
    scan := Found(EventOf(payload), 4 + |payload|);
  }

  /** The inner loop of handleRead: takes every complete frame out of the buffer. */
  method ParseBuffered(input: Buffer, maxFrameLen: nat) returns (events: seq<Event>, closed: bool)
    requires input.Valid()
    modifies input
    ensures input.Valid() && input.data == old(input.data)
    ensures Parsed(events, input.Contents(), closed) == Parse(old(input.Contents()), maxFrameLen)
  {
    events := [];
    ghost var start := input.Contents();
    var scan := TakeFrame(input, maxFrameLen);
    ghost var b := start;
    while scan.Found?
      invariant input.Valid() && input.data == old(input.data)
      invariant scan == ScanFrame(b, maxFrameLen)
      invariant input.Contents() == if scan.Found? then b[scan.consumed..] else b
      invariant Parse(start, maxFrameLen) == Before(events, Parse(b, maxFrameLen))
      decreases |b|
    {
      ParseFound(b, maxFrameLen);
      BeforeAppends(events, scan.event, Parse(b[scan.consumed..], maxFrameLen));
      events := events + [scan.event];
      b := input.Contents();
      scan := TakeFrame(input, maxFrameLen);
    }
    closed := scan.Oversize?;
  }

  lemma ParseFound(b: Bytes, maxFrameLen: nat)
    requires ScanFrame(b, maxFrameLen).Found?
    ensures var s := ScanFrame(b, maxFrameLen);
            Parse(b, maxFrameLen) == Before([s.event], Parse(b[s.consumed..], maxFrameLen))
  {
  }

  function Before(events: seq<Event>, p: Parsed): Parsed {
    p.(events := events + p.events)
  }

  lemma BeforeAppends(events: seq<Event>, event: Event, p: Parsed)
    ensures Before(events, Before([event], p)) == Before(events + [event], p)
  {
  }

  /** What parsing leaves over holds no complete frame. */
  lemma {:induction false} RestNeedsMore(b: Bytes, maxFrameLen: nat)
    ensures var p := Parse(b, maxFrameLen); !p.closed ==> ScanFrame(p.rest, maxFrameLen) == NeedMore
    decreases |b|
  {
    var s := ScanFrame(b, maxFrameLen);
    if s.Found? {
      RestNeedsMore(b[s.consumed..], maxFrameLen);
    }
  }

  /** One read of the outer loop and the parsing that follows it. */
  method Receive(input: Buffer, bytes: Bytes, maxFrameLen: nat) returns (events: seq<Event>, oversize: bool)
    requires input.Valid()
    modifies input, input.data
    ensures input.Valid() && (input.data == old(input.data) || fresh(input.data))
    ensures Parsed(events, input.Contents(), oversize) == Parse(old(input.Contents()) + bytes, maxFrameLen)
  {
    input.ReadFd(bytes);
    events, oversize := ParseBuffered(input, maxFrameLen);
  }

  lemma NextRead(results: seq<ReadResult>, i: nat, all: Bytes, whole: Bytes)
    requires i < |results| && !EndsRead(results[i]) && all + Received(results[i..]) == whole
    ensures (if results[i].Data? then all + results[i].bytes else all) + Received(results[i + 1..]) == whole
    ensures PeerGone(results[i..]) == PeerGone(results[i + 1..])
  {
    assert results[i..][1..] == results[i + 1..];
    if results[i].Data? {
      Associative(all, results[i].bytes, Received(results[i + 1..]));
    }
  }

  lemma LastRead(results: seq<ReadResult>, i: nat, all: Bytes, whole: Bytes)
    requires i <= |results| && (i < |results| ==> EndsRead(results[i])) && all + Received(results[i..]) == whole
    ensures all == whole && (PeerGone(results[i..]) <==> i < |results| && !results[i].WouldBlock?)
  {
  }

  lemma ReadParsed(all: Bytes, bytes: Bytes, events: seq<Event>, rest: Bytes, more: Parsed, maxFrameLen: nat)
    requires maxFrameLen < TWO32 - 4 && Parse(all, maxFrameLen) == Parsed(events, rest, false)
    requires more == Parse(rest + bytes, maxFrameLen)
    ensures Parse(all + bytes, maxFrameLen) == Parsed(events + more.events, more.rest, more.closed)
  {
    ParseIsIncremental(all, bytes, maxFrameLen);
  }

  lemma OversizeEnds(all: Bytes, more: Bytes, maxFrameLen: nat)
    requires maxFrameLen < TWO32 - 4 && Parse(all, maxFrameLen).closed
    ensures var p := Parse(all + more, maxFrameLen); p.closed && p.events == Parse(all, maxFrameLen).events
  {
    ParseIsIncremental(all, more, maxFrameLen);
  }

  /** The outer loop of handleRead: reads until the socket would block, parsing after every read. */
  method ReadAndParse(input: Buffer, results: seq<ReadResult>, maxFrameLen: nat)
    returns (events: seq<Event>, closed: bool)
    requires maxFrameLen < TWO32 - 4
    requires input.Valid() && ScanFrame(input.Contents(), maxFrameLen) == NeedMore
    modifies input, input.data
    ensures input.Valid() && (input.data == old(input.data) || fresh(input.data))
    ensures var all := Parse(old(input.Contents()) + Received(results), maxFrameLen);
            events == all.events && (closed <==> all.closed || PeerGone(results))
            && (!closed ==> input.Contents() == all.rest)
    ensures !closed ==> ScanFrame(input.Contents(), maxFrameLen) == NeedMore
  {
    events, closed := [], false;
    ghost var all := input.Contents();
    ghost var whole := all + Received(results);
    var i := 0;
    assert results[0..] == results;
    while i < |results| && !EndsRead(results[i])
      invariant i <= |results| && input.Valid() && (input.data == old(input.data) || fresh(input.data))
      invariant all + Received(results[i..]) == whole && PeerGone(results) == PeerGone(results[i..])
      invariant Parse(all, maxFrameLen) == Parsed(events, input.Contents(), false)
    {
      NextRead(results, i, all, whole);
      if results[i].Data? {
        ghost var rest := input.Contents();
        var more, oversize := Receive(input, results[i].bytes, maxFrameLen);
        ReadParsed(all, results[i].bytes, events, rest, Parsed(more, input.Contents(), oversize), maxFrameLen);
        all, events := all + results[i].bytes, events + more;
        if oversize {
          OversizeEnds(all, Received(results[i + 1..]), maxFrameLen);
          closed := true;
          return;
        }
      }
      i := i + 1;
    }
    LastRead(results, i, all, whole);
    closed := i < |results| && !results[i].WouldBlock?;
    RestNeedsMore(all, maxFrameLen);
  }

  /** handleRead: reads until the socket would block, parsing after every read. Whatever the sizes of the reads,
      the outcome is that of parsing, once, everything that was received. */
  method HandleRead(input: Buffer, results: seq<ReadResult>, maxFrameLen: nat)
    returns (events: seq<Event>, closed: bool)
    requires maxFrameLen < TWO32 - 4
    requires input.Valid() && ScanFrame(input.Contents(), maxFrameLen) == NeedMore
    modifies input, input.data
    ensures input.Valid() && (input.data == old(input.data) || fresh(input.data))
    ensures var all := Parse(old(input.Contents()) + Received(results), maxFrameLen);
            events == all.events && (closed <==> all.closed || PeerGone(results))
            && (!closed ==> input.Contents() == all.rest)
    ensures EventsOk(events, maxFrameLen)
    ensures !closed ==> Composes(events, input.Contents(), old(input.Contents()) + Received(results))
    ensures !closed ==> ScanFrame(input.Contents(), maxFrameLen) == NeedMore
  {
    ParseLosesNothing(input.Contents() + Received(results), maxFrameLen);
    events, closed := ReadAndParse(input, results, maxFrameLen);
  }
}
