/** The wire format of src/common/protocol.hpp and the frame parser of the transports. */
module Protocol {
  import opened Basics

  const HEADER_SIZE := 5
  const MAX_PAYLOAD := 65535

  // `enum class MsgType : uint8_t` holds any byte; these are the named ones.
  const AUTH_REQUEST: u8 := 0x01
  const AUTH_RESPONSE: u8 := 0x02
  const IP_PACKET: u8 := 0x03
  const KEEPALIVE: u8 := 0x04
  const DISCONNECT: u8 := 0x06
  const PING: u8 := 0x07
  const PONG: u8 := 0x08

  type Payload = p: Bytes | |p| <= MAX_PAYLOAD witness []

  datatype Header = Header(kind: u8, length: u32)

  /** What a packet callback receives. */
  datatype Message = Message(kind: u8, payload: Payload)

  // ---- Specification of the encoding ----

  function BigEndian(n: u32): (b: Bytes)
    ensures |b| == 4
  {
    [n / 0x100_0000, n / 0x1_0000 % 0x100, n / 0x100 % 0x100, n % 0x100]
  }

  function FromBigEndian(b: Bytes): u32
    requires |b| == 4
  {
    var (b0: int, b1: int, b2: int, b3: int) := (b[0], b[1], b[2], b[3]);
    b0 * 0x100_0000 + b1 * 0x1_0000 + b2 * 0x100 + b3
  }

  function HeaderBytes(h: Header): (b: Bytes)
    ensures |b| == HEADER_SIZE
  {
    [h.kind] + BigEndian(h.length)
  }

  function Encode(m: Message): Bytes {
    HeaderBytes(Header(m.kind, |m.payload|)) + m.payload
  }

  // ---- protocol.hpp ----

  /** Writes the header into the first five bytes of `buf`. */
  method SerializeHeader(buf: array<u8>, h: Header) returns (r: Result<nat>)
    modifies buf
    ensures r.Ok? <==> buf.Length >= 5
    ensures r.Ok? ==> r.value == 5
    ensures r.Ok? ==> buf[..] == HeaderBytes(h) + old(buf[HEADER_SIZE..])
    ensures r.Ok? ==> buf[0] == h.kind && buf[5..] == old(buf[5..])
    ensures r.Ok? ==> buf[1] as int * 0x100_0000 + buf[2] as int * 0x1_0000 + buf[3] as int * 0x100 + buf[4] == h.length
    ensures r.Throws? ==> buf[..] == old(buf[..])
  {
    if buf.Length < HEADER_SIZE {
      return Throws("Buffer too small for header");
    }
    BigEndianRoundTrip(h.length);
    buf[0] := h.kind;
    buf[1] := h.length / 0x100_0000 % 0x100;
    buf[2] := h.length / 0x1_0000 % 0x100;
    buf[3] := h.length / 0x100 % 0x100;
    buf[4] := h.length % 0x100;
    return Ok(HEADER_SIZE);
  }

  function DeserializeHeader(buf: Bytes): Option<Header> {
    if |buf| < HEADER_SIZE then None
    else
      var length := FromBigEndian(buf[1..5]);
      if length > MAX_PAYLOAD then None else Some(Header(buf[0], length))
  }

  /** `[kind][length, big-endian][payload]`, byte by byte. */
  predicate IsFrame(frame: Bytes, kind: u8, payload: Bytes) {
    && |frame| == 5 + |payload|
    && frame[0] == kind
    && frame[1] == frame[2] == 0 && 0x100 * frame[3] as int + frame[4] == |payload|
    && frame[5..] == payload
  }

  lemma EncodeIsFrame(m: Message)
    ensures IsFrame(Encode(m), m.kind, m.payload)
  {
  }

  /** Builds `[header][payload]`, refusing a payload that is too long. */
  method BuildPacket(kind: u8, payload: Bytes) returns (r: Result<Bytes>)
    ensures r.Ok? <==> |payload| <= 65535
    ensures r.Ok? ==> r.value == Encode(Message(kind, payload)) && IsFrame(r.value, kind, payload)
  {
    if |payload| > MAX_PAYLOAD {
      return Throws("Payload exceeds MAX_PAYLOAD");
    }
    var pkt := new u8[HEADER_SIZE + |payload|](_ => 0);
    var written := SerializeHeader(pkt, Header(kind, |payload|));
    forall i | 0 <= i < |payload| {
      pkt[HEADER_SIZE + i] := payload[i];
    }
    assert pkt[..] == pkt[..HEADER_SIZE] + pkt[HEADER_SIZE..];
    EncodeIsFrame(Message(kind, payload));
    return Ok(pkt[..]);
  }

  /** The frame parser each transport runs on its read buffer. */
  function Dispatch(buf: Bytes): Option<Message> {
    match DeserializeHeader(buf)
    case None => None
    case Some(h) =>
      if |buf| >= HEADER_SIZE + h.length
      then Some(Message(h.kind, buf[HEADER_SIZE..HEADER_SIZE + h.length]))
      else None
  }

  /** Raw bytes 16..19 of an IPv4 packet: its destination (section 3.1 of RFC 791). */
  function DestinationBytes(pkt: Bytes): Bytes
    requires |pkt| >= 20
  {
    pkt[16..20]
  }

  // ---- Properties ----

  lemma BigEndianRoundTrip(n: u32)
    ensures FromBigEndian(BigEndian(n)) == n
  {
    var h := n / 0x100;
    var k := h / 0x100;
    assert n / 0x1_0000 == k && n / 0x100_0000 == k / 0x100;
    assert n == h * 0x100 + n % 0x100 && h == k * 0x100 + h % 0x100 && k == k / 0x100 * 0x100 + k % 0x100;
  }

  lemma {:induction false} BigEndianInverse(b: Bytes)
    requires |b| == 4
    ensures BigEndian(FromBigEndian(b)) == b
  {
    var n: int := FromBigEndian(b);
    var (b0: int, b1: int, b2: int, b3: int) := (b[0], b[1], b[2], b[3]);
    assert n / 0x100_0000 == b0;
    assert n / 0x1_0000 == b0 * 0x100 + b1;
    assert n / 0x100 == b0 * 0x1_0000 + b1 * 0x100 + b2;
  }

  /** A header survives the wire exactly when its length is within bounds. */
  lemma HeaderRoundTrip(h: Header, rest: Bytes)
    ensures DeserializeHeader(HeaderBytes(h) + rest) == if h.length <= MAX_PAYLOAD then Some(h) else None
  {
    var buf := HeaderBytes(h) + rest;
    assert buf[1..5] == BigEndian(h.length);
    BigEndianRoundTrip(h.length);
  }

  lemma DispatchOfFrame(m: Message, rest: Bytes)
    ensures Dispatch(Encode(m) + rest) == Some(m)
  {
    var h := Header(m.kind, |m.payload|);
    var buf := Encode(m) + rest;
    assert buf == HeaderBytes(h) + (m.payload + rest);
    HeaderRoundTrip(h, m.payload + rest);
    assert buf[HEADER_SIZE..] == m.payload + rest;
    assert buf[HEADER_SIZE..HEADER_SIZE + |m.payload|] == buf[HEADER_SIZE..][..|m.payload|] == m.payload;
  }

  /** The parser accepts exactly the buffers that begin with a built packet, and
      returns that packet: trailing bytes are ignored, everything else is refused. */
  lemma DispatchIff(buf: Bytes, m: Message)
    ensures Dispatch(buf) == Some(m) <==> Encode(m) <= buf
  {
    if Encode(m) <= buf {
      assert buf == Encode(m) + buf[|Encode(m)|..];
      DispatchOfFrame(m, buf[|Encode(m)|..]);
    }
    if Dispatch(buf) == Some(m) {
      BigEndianInverse(buf[1..5]);
      var n := |m.payload|;
      assert HeaderBytes(Header(m.kind, n)) == buf[..5];
      assert Encode(m) == buf[..5] + buf[5..5 + n] == buf[..5 + n];
    }
  }

  lemma DispatchOfEncode(m: Message, trailing: Bytes)
    ensures Dispatch(Encode(m) + trailing) == Some(m)
    ensures Dispatch(Encode(m)) == Some(m)
  {
    DispatchIff(Encode(m) + trailing, m);
    DispatchIff(Encode(m), m);
  }

  /** Frames are prefix-free, so a byte stream of frames parses in one way only. */
  lemma FramesArePrefixFree(a: Message, x: Bytes, b: Message, y: Bytes)
    requires Encode(a) + x == Encode(b) + y
    ensures a == b && x == y
  {
    DispatchOfEncode(a, x);
    DispatchOfEncode(b, y);
    assert x == (Encode(a) + x)[|Encode(a)|..];
    assert y == (Encode(b) + y)[|Encode(b)|..];
  }

  // ---- Sequences of WebSocket messages ----

  /** What the packet callback sees of a sequence of messages: the well-formed ones. */
  function DispatchAll(frames: seq<Bytes>): seq<Message> {
    if frames == [] then []
    else
      var before := DispatchAll(frames[..|frames| - 1]);
      match Dispatch(frames[|frames| - 1])
      case None => before
      case Some(m) => before + [m]
  }

  /** The payloads of the IP packets among some messages. */
  function IpPayloads(ms: seq<Message>): seq<Payload> {
    if ms == [] then []
    else
      var before, last := IpPayloads(ms[..|ms| - 1]), ms[|ms| - 1];
      if last.kind == IP_PACKET then before + [last.payload] else before
  }

  lemma IpPayloadsAppend(ms: seq<Message>, m: Message)
    ensures IpPayloads(ms + [m]) == IpPayloads(ms) + (if m.kind == IP_PACKET then [m.payload] else [])
  {
    assert (ms + [m])[..|ms|] == ms;
  }

  function EncodeAll(ms: seq<Message>): (frames: seq<Bytes>)
    ensures |frames| == |ms|
    ensures forall i :: 0 <= i < |ms| ==> frames[i] == Encode(ms[i])
  {
    seq(|ms|, i requires 0 <= i < |ms| => Encode(ms[i]))
  }

  lemma {:induction false} DispatchAllConcat(a: seq<Bytes>, b: seq<Bytes>)
    ensures DispatchAll(a + b) == DispatchAll(a) + DispatchAll(b)
  {
    if b == [] {
      assert a + b == a;
    } else {
      var c := b[..|b| - 1];
      assert (a + b)[..|a + b| - 1] == a + c;
      DispatchAllConcat(a, c);
    }
  }

  /** Building then dispatching a sequence of messages is the identity. */
  lemma {:induction false} DispatchAllOfEncodeAll(ms: seq<Message>)
    ensures DispatchAll(EncodeAll(ms)) == ms
  {
    if ms != [] {
      var init, last := ms[..|ms| - 1], ms[|ms| - 1];
      assert EncodeAll(ms)[..|ms| - 1] == EncodeAll(init);
      DispatchAllOfEncodeAll(init);
      DispatchOfEncode(last, []);
      assert ms == init + [last];
    }
  }
}
