/** The framed byte stream: a four-byte big-endian length, then the payload. */
module Frames {

  import opened Collections

  newtype byte = x: int | 0 <= x < 256
  type Bytes = seq<byte>

  const TWO32 := 0x1_0000_0000
  const PING: Bytes := [80, 73, 78, 71]
  const PONG: Bytes := [80, 79, 78, 71]

  /** The bytes of a text. */
  function Text(b: Bytes): (t: string)
    ensures |t| == |b| && forall i :: 0 <= i < |b| ==> t[i] == b[i] as char
  {
    seq(|b|, i requires 0 <= i < |b| => b[i] as char)
  }

  lemma ControlFramesAreNamed()
    ensures Text(PING) == "PING" && Text(PONG) == "PONG"
  {
  }

  /** htonl and its bytes in memory. */
  function Header(n: nat): (h: Bytes)
    requires n < TWO32
    ensures |h| == 4
  {
    [(n / 256 / 256 / 256) as byte, (n / 256 / 256 % 256) as byte, (n / 256 % 256) as byte, (n % 256) as byte]
  }

  function PeekUInt32(b: Bytes): (n: nat)
    requires |b| >= 4
    ensures n < TWO32
  {
    b[0] as int * 0x100_0000 + b[1] as int * 0x1_0000 + b[2] as int * 0x100 + b[3] as int
  }

  lemma HeaderRoundTrip(n: nat, rest: Bytes)
    requires n < TWO32
    ensures PeekUInt32(Header(n) + rest) == n
  {
  }

  /** A number in network byte order: the most significant byte comes first. */
  function BigEndian(b: Bytes): nat {
    if b == [] then 0 else BigEndian(b[..|b| - 1]) * 256 + b[|b| - 1] as int
  }

  /** Lengths are written and read in network byte order. */
  lemma LengthsAreBigEndian(n: nat, b: Bytes)
    requires n < TWO32 && |b| >= 4
    ensures BigEndian(Header(n)) == n && PeekUInt32(b) == BigEndian(b[..4])
  {
    FourBytes(Header(n));
    FourBytes(b[..4]);
  }

  lemma FourBytes(b: Bytes)
    requires |b| == 4
    ensures BigEndian(b) == ((b[0] as int * 256 + b[1] as int) * 256 + b[2] as int) * 256 + b[3] as int
  {
    assert BigEndian(b) == BigEndian(b[..3]) * 256 + b[3] as int;
    assert b[..3][..2] == b[..2];
    assert BigEndian(b[..3]) == BigEndian(b[..2]) * 256 + b[2] as int;
    assert b[..2][..1] == b[..1];
    assert BigEndian(b[..2]) == BigEndian(b[..1]) * 256 + b[1] as int;
    assert b[..1][..0] == [];
    assert BigEndian(b[..1]) == b[0] as int;
  }

  function Encode(payload: Bytes): Bytes
    requires |payload| < TWO32
  {
    Header(|payload|) + payload
  }

  /** OutboundFrame::create. A null payload is None. */
  function CreateFrame(payload: Option<Bytes>, maxFrameLen: nat): (frame: Option<Bytes>)
    ensures frame.Some? <==> payload.Some? && |payload.value| <= maxFrameLen && |payload.value| < TWO32
    ensures frame.Some? ==> |frame.value| == |payload.value| + 4 && PeekUInt32(frame.value) == |payload.value|
                            && frame.value[4..] == payload.value
  {
    if payload.None? || |payload.value| > maxFrameLen || |payload.value| >= TWO32 then None
    else
      HeaderRoundTrip(|payload.value|, payload.value);
      Some(Encode(payload.value))
  }

  // ---------------------------------------------------------------------------------------------
  // Parsing

  /** What one complete frame makes the connection do. */
  datatype Event = Deliver(payload: Bytes) | Ping | Pong

  datatype Scan = NeedMore | Oversize | Found(event: Event, consumed: nat)

  function EventOf(payload: Bytes): Event {
    if payload == PONG then Pong else if payload == PING then Ping else Deliver(payload)
  }

  /** One turn of the inner loop of handleRead. The comparison 4+len is 32-bit arithmetic. An empty frame is
      delivered without looking for a control frame; a frame that the wrapped comparison lets through too early is
      cut to the bytes that are there. */
  function ScanFrame(b: Bytes, maxFrameLen: nat): (s: Scan)
    ensures s.Found? ==> 4 <= s.consumed <= |b|
  {
    if |b| < 4 then NeedMore
    else
      var len := PeekUInt32(b);
      if len == 0 then Found(Deliver([]), 4)
      else if len > maxFrameLen then Oversize
      else if |b| < (4 + len) % TWO32 then NeedMore
      else
        var n := Min(len, |b| - 4);
        Found(EventOf(b[4..4 + n]), 4 + n)
  }

  /** The bytes that a frame brought. */
  function Carried(e: Event): Bytes {
    match e
    case Deliver(payload) => payload
    case Ping => PING
    case Pong => PONG
  }

  /** The event is what a frame with this payload stands for: a control frame exactly for the bytes of PING and PONG,
      and otherwise the whole payload. */
  predicate StandsFor(e: Event, payload: Bytes) {
    Carried(e) == payload && (e.Ping? <==> payload == PING) && (e.Pong? <==> payload == PONG)
  }

  /** What the bytes received so far amount to. */
  datatype Parsed = Parsed(events: seq<Event>, rest: Bytes, closed: bool)

  function Parse(b: Bytes, maxFrameLen: nat): Parsed
    decreases |b|
  {
    match ScanFrame(b, maxFrameLen)
    case NeedMore => Parsed([], b, false)
    case Oversize => Parsed([], b, true)
    case Found(event, consumed) =>
      var p := Parse(b[consumed..], maxFrameLen);
      p.(events := [event] + p.events)
  }

  /** One read of the socket, parsed as far as it goes; a closed connection reads no more. */
  function Feed(p: Parsed, chunk: Bytes, maxFrameLen: nat): Parsed {
    if p.closed then p
    else
      var q := Parse(p.rest + chunk, maxFrameLen);
      q.(events := p.events + q.events)
  }

  function FeedAll(chunks: seq<Bytes>, maxFrameLen: nat): Parsed {
    if chunks == [] then Parsed([], [], false)
    else Feed(FeedAll(chunks[..|chunks| - 1], maxFrameLen), chunks[|chunks| - 1], maxFrameLen)
  }

  function Concat(chunks: seq<Bytes>): Bytes {
    if chunks == [] then [] else Concat(chunks[..|chunks| - 1]) + chunks[|chunks| - 1]
  }

  /** A decision once taken is not changed by bytes that arrive later. */
  lemma ScanIsStable(b: Bytes, more: Bytes, maxFrameLen: nat)
    requires maxFrameLen < TWO32 - 4 && ScanFrame(b, maxFrameLen) != NeedMore
    ensures ScanFrame(b + more, maxFrameLen) == ScanFrame(b, maxFrameLen)
  {
    var len := PeekUInt32(b);
    assert PeekUInt32(b + more) == len;
    if 0 < len <= maxFrameLen {
      assert (4 + len) % TWO32 == 4 + len;
      assert (b + more)[4..4 + len] == b[4..4 + len];
    }
  }

  lemma {:induction false} ParseIsIncremental(b: Bytes, more: Bytes, maxFrameLen: nat)
    requires maxFrameLen < TWO32 - 4
    ensures var p, all := Parse(b, maxFrameLen), Parse(b + more, maxFrameLen);
            if p.closed then all.closed && all.events == p.events
            else all == Feed(p, more, maxFrameLen)
    decreases |b|
  {
    match ScanFrame(b, maxFrameLen)
    case NeedMore =>
      assert [] + Parse(b + more, maxFrameLen).events == Parse(b + more, maxFrameLen).events;
    case Oversize => ScanIsStable(b, more, maxFrameLen);
    case Found(event, consumed) =>
      ScanIsStable(b, more, maxFrameLen);
      var tail := b[consumed..];
      assert (b + more)[consumed..] == tail + more;
      ParseIsIncremental(tail, more, maxFrameLen);
      EventsAssociate(event, Parse(tail, maxFrameLen), more, maxFrameLen);
  }

  lemma EventsAssociate(event: Event, p: Parsed, more: Bytes, maxFrameLen: nat)
    ensures var q := Feed(p, more, maxFrameLen);
            Feed(p.(events := [event] + p.events), more, maxFrameLen) == q.(events := [event] + q.events)
  {
  }

  /** What is delivered, and whether the connection is closed for an oversize frame, does not depend on how the
      stream is cut into reads. */
  lemma {:induction false} ChunksDoNotMatter(chunks: seq<Bytes>, maxFrameLen: nat)
    requires maxFrameLen < TWO32 - 4
    ensures var p, all := FeedAll(chunks, maxFrameLen), Parse(Concat(chunks), maxFrameLen);
            p.events == all.events && p.closed == all.closed && (!p.closed ==> p.rest == all.rest)
  {
    if chunks != [] {
      var front, last := chunks[..|chunks| - 1], chunks[|chunks| - 1];
      ChunksDoNotMatter(front, maxFrameLen);
      ParseIsIncremental(Concat(front), last, maxFrameLen);
    }
  }

  lemma TwoChunks(first: Bytes, second: Bytes, maxFrameLen: nat)
    ensures Concat([first, second]) == first + second
    ensures FeedAll([first, second], maxFrameLen) == Feed(FeedAll([first], maxFrameLen), second, maxFrameLen)
  {
    var chunks, one: seq<Bytes> := [first, second], [first];
    assert chunks[..1] == one && one[..0] == [];
    assert Concat(one) == [] + first == first;
  }

  /** The header of a frame of 2^32 - 4 bytes. */
  const WRAPPING_HEADER: Bytes := [255, 255, 255, 252]

  lemma HeaderAloneIsTaken(maxFrameLen: nat)
    requires maxFrameLen >= TWO32 - 4
    ensures Parse(WRAPPING_HEADER, maxFrameLen) == Parsed([Deliver([])], [], false)
    ensures FeedAll([WRAPPING_HEADER], maxFrameLen).events == [Deliver([])]
  {
    var header := WRAPPING_HEADER;
    assert ScanFrame(header, maxFrameLen) == Found(Deliver([]), 4);
    assert header[4..] == [];
    assert Parse(header, maxFrameLen) == Parsed([Deliver([])], [], false);
    var chunks: seq<Bytes> := [header];
    assert chunks[..0] == [] && [] + header == header;
    assert FeedAll(chunks, maxFrameLen) == Feed(FeedAll([], maxFrameLen), header, maxFrameLen);
  }

  lemma HeaderTakesWhatIsThere(x: byte, maxFrameLen: nat)
    requires maxFrameLen >= TWO32 - 4
    ensures Parse(WRAPPING_HEADER + [x], maxFrameLen).events == [Deliver([x])]
  {
    var b := WRAPPING_HEADER + [x];
    assert b[4..5] == [x] && b[5..] == [];
    assert PeekUInt32(b) == TWO32 - 4;
    assert ScanFrame(b, maxFrameLen) == Found(EventOf([x]), 5);
  }

  /** With a larger limit the 32-bit sum wraps, and a header that arrives alone is taken for a complete frame. */
  lemma WrapMakesChunksMatter(maxFrameLen: nat)
    requires maxFrameLen >= TWO32 - 4
    ensures exists chunks :: FeedAll(chunks, maxFrameLen).events != Parse(Concat(chunks), maxFrameLen).events
  {
    var header, x: Bytes := WRAPPING_HEADER, [0];
    TwoChunks(header, x, maxFrameLen);
    HeaderAloneIsTaken(maxFrameLen);
    HeaderTakesWhatIsThere(0, maxFrameLen);
    assert Parse(header + x, maxFrameLen).events[0] == Deliver(x);
    var chunks := [header, x];
    assert FeedAll(chunks, maxFrameLen).events[0] == Deliver([]);
  }

  /** So the cut into reads never matters exactly when the limit leaves room for the header in 32 bits. */
  lemma ChunkIndependence(maxFrameLen: nat)
    ensures maxFrameLen < TWO32 - 4 <==>
            forall chunks :: FeedAll(chunks, maxFrameLen).events == Parse(Concat(chunks), maxFrameLen).events
                             && FeedAll(chunks, maxFrameLen).closed == Parse(Concat(chunks), maxFrameLen).closed
  {
    if maxFrameLen < TWO32 - 4 {
      forall chunks
        ensures FeedAll(chunks, maxFrameLen).events == Parse(Concat(chunks), maxFrameLen).events
                && FeedAll(chunks, maxFrameLen).closed == Parse(Concat(chunks), maxFrameLen).closed
      {
        ChunksDoNotMatter(chunks, maxFrameLen);
      }
    } else {
      WrapMakesChunksMatter(maxFrameLen);
    }
  }

  // ---------------------------------------------------------------------------------------------
  // Round trip

  predicate Sendable(payloads: seq<Bytes>, maxFrameLen: nat) {
    forall i :: 0 <= i < |payloads| ==> |payloads[i]| <= maxFrameLen && |payloads[i]| < TWO32 - 4
  }

  predicate Encodable(payloads: seq<Bytes>) {
    forall i :: 0 <= i < |payloads| ==> |payloads[i]| < TWO32
  }

  function EncodeAll(payloads: seq<Bytes>): Bytes
    requires Encodable(payloads)
  {
    if payloads == [] then [] else Encode(payloads[0]) + EncodeAll(payloads[1..])
  }

  lemma ScanEncoded(payload: Bytes, rest: Bytes, maxFrameLen: nat)
    requires |payload| <= maxFrameLen && |payload| < TWO32 - 4
    ensures ScanFrame(Encode(payload) + rest, maxFrameLen) == Found(EventOf(payload), 4 + |payload|)
  {
  }

  /** Parsing the concatenated encodings gives back exactly the payloads, each as the event that stands for it. */
  lemma {:induction false} ParseEncoded(payloads: seq<Bytes>, maxFrameLen: nat)
    requires Sendable(payloads, maxFrameLen)
    ensures Encodable(payloads)
    ensures var p := Parse(EncodeAll(payloads), maxFrameLen);
            !p.closed && p.rest == [] && |p.events| == |payloads|
            && forall i :: 0 <= i < |payloads| ==> StandsFor(p.events[i], payloads[i])
    decreases |payloads|
  {
    if payloads != [] {
      var first, rest := payloads[0], EncodeAll(payloads[1..]);
      ScanEncoded(first, rest, maxFrameLen);
      assert (Encode(first) + rest)[4 + |first|..] == rest;
      ParseEncoded(payloads[1..], maxFrameLen);
    }
  }

  /** A header above the limit closes the connection, after exactly the frames before it and whatever follows it. */
  lemma {:induction false} OversizeCloses(payloads: seq<Bytes>, n: nat, rest: Bytes, maxFrameLen: nat)
    requires Sendable(payloads, maxFrameLen) && maxFrameLen < n < TWO32
    ensures Encodable(payloads)
    ensures var p := Parse(EncodeAll(payloads) + (Header(n) + rest), maxFrameLen);
            p.closed && |p.events| == |payloads|
            && forall i :: 0 <= i < |payloads| ==> StandsFor(p.events[i], payloads[i])
    decreases |payloads|
  {
    var bad := Header(n) + rest;
    if payloads == [] {
      HeaderRoundTrip(n, rest);
      assert EncodeAll(payloads) + bad == bad;
    } else {
      var first, more := payloads[0], EncodeAll(payloads[1..]);
      Associative(Encode(first), more, bad);
      ScanEncoded(first, more + bad, maxFrameLen);
      assert (Encode(first) + (more + bad))[4 + |first|..] == more + bad;
      OversizeCloses(payloads[1..], n, rest, maxFrameLen);
    }
  }

  function CarriedAll(events: seq<Event>): (r: seq<Bytes>)
    ensures |r| == |events| && forall i :: 0 <= i < |r| ==> r[i] == Carried(events[i])
  {
    if events == [] then [] else [Carried(events[0])] + CarriedAll(events[1..])
  }

  /** No complete frame, and no header above the limit. */
  predicate Incomplete(b: Bytes, maxFrameLen: nat) {
    |b| < 4 || (PeekUInt32(b) <= maxFrameLen && |b| < 4 + PeekUInt32(b))
  }

  /** One scan takes off exactly the first frame, and finds none exactly when there is none. */
  lemma ScanTakesFirst(b: Bytes, maxFrameLen: nat)
    requires maxFrameLen < TWO32 - 4
    ensures match ScanFrame(b, maxFrameLen)
            case NeedMore => Incomplete(b, maxFrameLen)
            case Oversize => |b| >= 4 && PeekUInt32(b) > maxFrameLen
            case Found(e, n) =>
              |Carried(e)| <= maxFrameLen && b[..n] == Encode(Carried(e)) && StandsFor(e, Carried(e))
  {
    if |b| >= 4 && PeekUInt32(b) <= maxFrameLen && |b| >= 4 + PeekUInt32(b) {
      ScanComplete(b, maxFrameLen);
    }
  }

  lemma ScanComplete(b: Bytes, maxFrameLen: nat)
    requires maxFrameLen < TWO32 - 4 && |b| >= 4
    requires PeekUInt32(b) <= maxFrameLen && |b| >= 4 + PeekUInt32(b)
    ensures var s := ScanFrame(b, maxFrameLen);
            && s.Found? && s.consumed == 4 + |Carried(s.event)| && |Carried(s.event)| == PeekUInt32(b)
            && b[..s.consumed] == Encode(Carried(s.event)) && StandsFor(s.event, Carried(s.event))
  {
    var len := PeekUInt32(b);
    var payload := b[4..4 + len];
    assert ScanFrame(b, maxFrameLen) == Found(EventOf(payload), 4 + len);
    HeaderOf(b);
    assert b[..4 + len] == b[..4] + payload;
  }

  lemma HeaderOf(b: Bytes)
    requires |b| >= 4
    ensures Header(PeekUInt32(b)) == b[..4]
  {
    var n := PeekUInt32(b);
    assert n / 256 == (b[0] as int * 256 + b[1] as int) * 256 + b[2] as int;
    assert n / 256 / 256 == b[0] as int * 256 + b[1] as int;
  }

  /** The events are what their payloads stand for, within the limit. */
  ghost predicate EventsOk(events: seq<Event>, maxFrameLen: nat) {
    forall i :: 0 <= i < |events| ==>
      StandsFor(events[i], Carried(events[i])) && |Carried(events[i])| <= maxFrameLen
  }

  /** The payloads of the events, encoded again, followed by the rest, are the bytes. */
  ghost predicate Composes(events: seq<Event>, rest: Bytes, b: Bytes) {
    Encodable(CarriedAll(events)) && EncodeAll(CarriedAll(events)) + rest == b
  }

  /** Whatever the bytes: the payloads of the events, encoded again, followed by what is left over, are the bytes that
      were received. Each event is what its payload stands for and within the limit; what is left over holds no complete
      frame, and the connection is closed exactly for a header above the limit. */
  lemma {:induction false} ParseLosesNothing(b: Bytes, maxFrameLen: nat)
    requires maxFrameLen < TWO32 - 4
    ensures var p := Parse(b, maxFrameLen);
            && EventsOk(p.events, maxFrameLen) && Composes(p.events, p.rest, b)
            && (if p.closed then |p.rest| >= 4 && PeekUInt32(p.rest) > maxFrameLen else Incomplete(p.rest, maxFrameLen))
    decreases |b|
  {
    ScanTakesFirst(b, maxFrameLen);
    match ScanFrame(b, maxFrameLen)
    case NeedMore => assert [] + b == b;
    case Oversize => assert [] + b == b;
    case Found(e, n) =>
      ParseLosesNothing(b[n..], maxFrameLen);
      FirstAndRest(e, b, n, Parse(b[n..], maxFrameLen));
  }

  lemma FirstAndRest(e: Event, b: Bytes, n: nat, q: Parsed)
    requires n <= |b| && |Carried(e)| < TWO32 && b[..n] == Encode(Carried(e)) && Composes(q.events, q.rest, b[n..])
    ensures Composes([e] + q.events, q.rest, b)
  {
    var payloads := CarriedAll([e] + q.events);
    assert ([e] + q.events)[1..] == q.events;
    assert payloads[1..] == CarriedAll(q.events);
    assert b == b[..n] + b[n..];
    Associative(Encode(Carried(e)), EncodeAll(CarriedAll(q.events)), q.rest);
  }

  lemma Associative(a: Bytes, b: Bytes, c: Bytes)
    ensures a + (b + c) == (a + b) + c
  {
  }

  lemma {:induction false} EncodeAllAppends(payloads: seq<Bytes>, payload: Bytes)
    requires Encodable(payloads) && |payload| < TWO32
    ensures Encodable(payloads + [payload])
    ensures EncodeAll(payloads + [payload]) == EncodeAll(payloads) + Encode(payload)
    decreases |payloads|
  {
    var more := payloads + [payload];
    if payloads == [] {
      assert more[1..] == [];
      assert EncodeAll(more) == Encode(payload) + EncodeAll([]);
    } else {
      EncodeAllAppends(payloads[1..], payload);
      assert more[0] == payloads[0] && more[1..] == payloads[1..] + [payload];
      Associative(Encode(payloads[0]), EncodeAll(payloads[1..]), Encode(payload));
    }
  }
}
