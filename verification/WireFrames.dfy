/** The binary frame envelope, as two modules of the source build it and take it apart. Names are byte strings. */
module WireFrames {
  import opened Varints
  import opened Wrappers

  datatype ParsedPacket =
    | Connect(nsp: Bytes)
    | Event(nsp: Bytes, event: Bytes, payload: Bytes)
    | Other

  /** Storing a length in a byte keeps its low eight bits. */
  function Length8(s: Bytes): Octet { |s| % 256 }

  // ---------------------------------------------------------------- native encoders

  function ConnectFrame(nsp: Bytes): Bytes {
    [0x04, 0x00] + [Length8(nsp)] + nsp + [0]
  }

  function JoinFrame(nsp: Bytes, room: Bytes): Bytes {
    [0x04, 0x82, 0, 0, 0, 0] + [Length8(nsp)] + nsp + [Length8(room)] + room
  }

  function EventFrame(nsp: Bytes, event: Bytes, payload: Bytes): Bytes {
    [0x04, 0x02] + [Length8(nsp)] + nsp + [Length8(event)] + event + payload
  }

  /** `TypedArray.set`: copy `s` into the array from `at` on. What has been written before it stays. */
  method PutBytes(out: array<Octet>, s: Bytes, at: nat)
    requires at + |s| <= out.Length
    modifies out
    ensures out[..at + |s|] == old(out[..at]) + s
  {
    for i := 0 to |s|
      invariant out[..at] == old(out[..at]) && out[at..at + i] == s[..i]
    {
      out[at + i] := s[i];
    }
    assert out[..at + |s|] == out[..at] + out[at..at + |s|];
  }

  /** A length byte and the name after it. */
  method PutName(out: array<Octet>, s: Bytes, at: nat)
    requires at + 1 + |s| <= out.Length
    modifies out
    ensures out[..at + 1 + |s|] == old(out[..at]) + [Length8(s)] + s
  {
    out[at] := Length8(s);
    assert out[..at + 1] == old(out[..at]) + [Length8(s)];
    PutBytes(out, s, at + 1);
  }

  method EncodeConnect(nsp: Bytes) returns (out: array<Octet>)
    ensures fresh(out) && out[..] == ConnectFrame(nsp)
  {
    out := new Octet[3 + |nsp| + 1](_ => 0);
    out[0], out[1] := 0x04, 0x00;
    assert out[..2] == [0x04, 0x00];
    PutName(out, nsp, 2);
    PutBytes(out, [0], 3 + |nsp|);
    assert out[..] == out[..out.Length];
  }

  method EncodeJoin(nsp: Bytes, room: Bytes) returns (out: array<Octet>)
    ensures fresh(out) && out[..] == JoinFrame(nsp, room)
  {
    out := new Octet[7 + |nsp| + 1 + |room|](_ => 0);
    out[0], out[1] := 0x04, 0x82;
    assert out[..6] == [0x04, 0x82, 0, 0, 0, 0];
    PutName(out, nsp, 6);
    PutName(out, room, 7 + |nsp|);
    assert out[..] == out[..out.Length];
  }

  method EncodeEvent(nsp: Bytes, event: Bytes, payload: Bytes) returns (out: array<Octet>)
    ensures fresh(out) && out[..] == EventFrame(nsp, event, payload)
  {
    out := new Octet[3 + |nsp| + 1 + |event| + |payload|](_ => 0);
    out[0], out[1] := 0x04, 0x02;
    assert out[..2] == [0x04, 0x02];
    PutNames(out, nsp, event, payload, 2);
  }

  /** Both names and the payload, up to the end of the array. */
  method PutNames(out: array<Octet>, nsp: Bytes, event: Bytes, payload: Bytes, at: nat)
    requires at + 2 + |nsp| + |event| + |payload| == out.Length
    modifies out
    ensures out[..] == old(out[..at]) + [Length8(nsp)] + nsp + [Length8(event)] + event + payload
  {
    PutName(out, nsp, at);
    PutName(out, event, at + 1 + |nsp|);
    PutBytes(out, payload, at + 2 + |nsp| + |event|);
    assert out[..] == out[..out.Length];
  }

  // ---------------------------------------------------------------- native parser

  /** Where the namespace length stands: after the type, and after four more bytes if the high bit announces an ack id. */
  function Header(kind: Octet): nat {
    if kind >= 128 then 6 else 2
  }

  function ParsePacket(buf: Bytes): ParsedPacket {
    if |buf| < 2 || buf[0] != 0x04 then Other
    else
      var at := Header(buf[1]);
      if at >= |buf| then Other
      else
        var nsEnd := at + 1 + buf[at];
        if nsEnd > |buf| then Other
        else
          var nsp := buf[at + 1..nsEnd];
          if buf[1] % 16 == 0 || nsEnd >= |buf| then Connect(nsp)
          else
            var evEnd := nsEnd + 1 + buf[nsEnd];
            if evEnd > |buf| then Other else Event(nsp, buf[nsEnd + 1..evEnd], buf[evEnd..])
  }

  // ---------------------------------------------------------------- the transport's decoder

  /** A byte, or nothing past the end or at an offset that is not a number. */
  function ByteAt(buf: Bytes, i: Option<nat>): Option<Octet> {
    if i.Some? && i.value < |buf| then Some(buf[i.value]) else None
  }

  function Plus(i: Option<nat>, n: Option<nat>): Option<nat> {
    if i.Some? && n.Some? then Some(i.value + n.value) else None
  }

  /** A length-prefixed name: a missing or zero length gives the empty string. */
  function NameAt(buf: Bytes, from: Option<nat>, len: Option<Octet>): Bytes {
    if from.Some? && len.Some? && len.value > 0 then Clip(buf, from.value, from.value + len.value) else []
  }

  datatype DecodedPacket = DecodedPacket(kind: Option<nat>, namespace: Bytes, event: Bytes, ackId: Option<nat>, payload: Bytes)

  function BigEndian(a: Octet, b: Octet, c: Octet, d: Octet): nat {
    ((a * 256 + b) * 256 + c) * 256 + d
  }

  /** Binary types are reported as their plain counterparts. */
  function PlainType(kind: nat): nat {
    if kind == 5 then 2 else if kind == 6 then 3 else kind
  }

  /** The part of the decoder after the ack id: both names and the payload. */
  function DecodeNames(buf: Bytes, kind: Option<nat>, ackId: Option<nat>, at: nat): DecodedPacket {
    var nsLen := ByteAt(buf, Some(at));
    var nsAt := Some(at + 1);
    var evLenAt := Plus(nsAt, nsLen);
    var evLen := ByteAt(buf, evLenAt);
    var evAt := Plus(evLenAt, Some(1));
    var payloadAt := Plus(evAt, evLen);
    DecodedPacket(
      kind, NameAt(buf, nsAt, nsLen), NameAt(buf, evAt, evLen), ackId,
      if payloadAt.Some? then Clip(buf, payloadAt.value, if payloadAt.value > |buf| then payloadAt.value else |buf|)
      else buf)
  }

  /** `None` is the range error of reading an ack id that is not there. */
  function DecodeBinaryPacket(buf: Bytes): Option<DecodedPacket> {
    var start := if |buf| > 0 && (buf[0] == 0x04 || buf[0] == 0x05) then 1 else 0;
    var kind := ByteAt(buf, Some(start));
    var plain := if kind.Some? then Some(PlainType(kind.value % 128)) else None;
    if kind.None? || kind.value < 128 then Some(DecodeNames(buf, plain, None, start + 1))
    else if start + 5 > |buf| then None
    else
      var ackId := BigEndian(buf[start + 1], buf[start + 2], buf[start + 3], buf[start + 4]);
      Some(DecodeNames(buf, plain, Some(ackId), start + 5))
  }

  // ---------------------------------------------------------------- the transport's encoder

  function BigEndianBytes(n: nat): Bytes {
    [n / 0x1000000 % 256, n / 0x10000 % 256, n / 0x100 % 256, n % 256]
  }

  function BinaryFrame(kind: Octet, namespace: Bytes, event: Bytes, ackId: Option<nat>, payload: Bytes): Bytes
    requires kind < 128
  {
    (if ackId.Some? then [0x04, kind + 128] + BigEndianBytes(ackId.value) else [0x04, kind])
    + [Length8(namespace)] + namespace + [Length8(event)] + event + payload
  }

  const CONNECT: Octet := 0
  const EVENT: Octet := 2

  const ACK_LIMIT := 0x1_0000_0000

  /** Nothing is the range error for an ack id that does not fit in four bytes. */
  method EncodeBinaryPacket(kind: Octet, namespace: Bytes, event: Bytes, ackId: Option<nat>, payload: Bytes)
    returns (sent: Option<array<Octet>>)
    requires kind < 128
    ensures sent.None? <==> ackId.Some? && ackId.value >= ACK_LIMIT
    ensures sent.Some? ==> fresh(sent.value) && sent.value[..] == BinaryFrame(kind, namespace, event, ackId, payload)
  {
    var off := if ackId.Some? then 6 else 2;
    var buf := new Octet[off + 2 + |namespace| + |event| + |payload|](_ => 0);
    buf[0], buf[1] := 0x04, if ackId.Some? then kind + 128 else kind;
    assert buf[..2] == [0x04, buf[1]];
    if ackId.Some? {
      if ackId.value >= ACK_LIMIT { return None; }
      PutBytes(buf, BigEndianBytes(ackId.value), 2);
    }
    PutNames(buf, namespace, event, payload, off);
    return Some(buf);
  }

  lemma {:induction false} AckIdRoundTrip(n: nat)
    requires n < ACK_LIMIT
    ensures var b := BigEndianBytes(n);
      BigEndian(b[0], b[1], b[2], b[3]) == n
    ensures var b := BigEndianBytes(n);
      n == b[0] as int * 0x1000000 + b[1] as int * 0x10000 + b[2] as int * 0x100 + b[3] as int
  {
    var c, b, a := n / 0x100, n / 0x10000, n / 0x1000000;
    assert c == 256 * b + c % 256;
    assert b == 256 * a + b % 256;
    assert a % 256 == a;
  }

  // ---------------------------------------------------------------- properties

  /** The transport writes byte for byte the native connect and join frames. */
  lemma {:induction false} EncodersAgree(nsp: Bytes, room: Bytes)
    ensures BinaryFrame(CONNECT, nsp, [], None, []) == ConnectFrame(nsp)
    ensures BinaryFrame(EVENT, nsp, room, Some(0), []) == JoinFrame(nsp, room)
  {}

  /** The layout every frame with a namespace and an event shares. */
  lemma {:induction false} Layout(buf: Bytes, head: Bytes, nsp: Bytes, event: Bytes, payload: Bytes)
    requires buf == head + [Length8(nsp)] + nsp + [Length8(event)] + event + payload
    requires |nsp| < 256 && |event| < 256
    ensures var at, nsEnd := |head|, |head| + 1 + |nsp|;
      var evEnd := nsEnd + 1 + |event|;
      && evEnd <= |buf| && buf[..at] == head && buf[at] == |nsp| && buf[at + 1..nsEnd] == nsp
      && buf[nsEnd] == |event| && buf[nsEnd + 1..evEnd] == event && buf[evEnd..] == payload
  {
    var a := head + [Length8(nsp)];
    var b := a + nsp;
    var c := b + [Length8(event)];
    var d := c + event;
    assert buf == d + payload;
    assert buf[..|d|] == d && d[..|c|] == c && c[..|b|] == b && b[..|a|] == a;
    assert d[|c|..] == event && b[|a|..] == nsp;
  }

  /** From the length byte of the namespace on, the layout is read back. */
  lemma {:induction false} NamesDecoded(buf: Bytes, head: Bytes, nsp: Bytes, event: Bytes, payload: Bytes,
                                        kind: Option<nat>, ackId: Option<nat>)
    requires buf == head + [Length8(nsp)] + nsp + [Length8(event)] + event + payload
    requires |nsp| < 256 && |event| < 256
    ensures DecodeNames(buf, kind, ackId, |head|) == DecodedPacket(kind, nsp, event, ackId, payload)
  {
    Layout(buf, head, nsp, event, payload);
  }

  lemma {:induction false} DecodedWithoutAck(buf: Bytes, kind: Octet, d: DecodedPacket)
    requires |buf| >= 2 && buf[0] == 0x04 && buf[1] == kind < 128
    requires DecodeNames(buf, Some(PlainType(kind)), None, 2) == d
    ensures DecodeBinaryPacket(buf) == Some(d)
  {}

  lemma {:induction false} DecodedWithAck(buf: Bytes, kind: Octet, ackId: nat, d: DecodedPacket)
    requires |buf| >= 6 && buf[0] == 0x04 && buf[1] == kind + 128
    requires BigEndian(buf[2], buf[3], buf[4], buf[5]) == ackId
    requires DecodeNames(buf, Some(PlainType(kind)), Some(ackId), 6) == d
    ensures DecodeBinaryPacket(buf) == Some(d)
  {}

  lemma {:induction false} PlainFrameDecoded(kind: Octet, nsp: Bytes, event: Bytes, payload: Bytes)
    requires kind < 128 && |nsp| < 256 && |event| < 256
    ensures DecodeBinaryPacket(BinaryFrame(kind, nsp, event, None, payload))
         == Some(DecodedPacket(Some(PlainType(kind)), nsp, event, None, payload))
  {
    var buf, head := BinaryFrame(kind, nsp, event, None, payload), [0x04, kind];
    NamesDecoded(buf, head, nsp, event, payload, Some(PlainType(kind)), None);
    DecodedWithoutAck(buf, kind, DecodedPacket(Some(PlainType(kind)), nsp, event, None, payload));
  }

  lemma {:induction false} AckFrameDecoded(kind: Octet, nsp: Bytes, event: Bytes, ackId: nat, payload: Bytes)
    requires kind < 128 && |nsp| < 256 && |event| < 256 && ackId < ACK_LIMIT
    ensures DecodeBinaryPacket(BinaryFrame(kind, nsp, event, Some(ackId), payload))
         == Some(DecodedPacket(Some(PlainType(kind)), nsp, event, Some(ackId), payload))
  {
    var buf, head := BinaryFrame(kind, nsp, event, Some(ackId), payload), [0x04, kind + 128] + BigEndianBytes(ackId);
    AckIdRoundTrip(ackId);
    NamesDecoded(buf, head, nsp, event, payload, Some(PlainType(kind)), Some(ackId));
    DecodedWithAck(buf, kind, ackId, DecodedPacket(Some(PlainType(kind)), nsp, event, Some(ackId), payload));
  }

  /** The transport reads back every packet it can write, ack id included, with binary types reported as plain ones. */
  lemma {:induction false} BinaryRoundTrip(kind: Octet, nsp: Bytes, event: Bytes, ackId: Option<nat>, payload: Bytes)
    requires kind < 128 && |nsp| < 256 && |event| < 256 && (ackId.Some? ==> ackId.value < ACK_LIMIT)
    ensures DecodeBinaryPacket(BinaryFrame(kind, nsp, event, ackId, payload))
         == Some(DecodedPacket(Some(PlainType(kind)), nsp, event, ackId, payload))
  {
    match ackId
    case None => PlainFrameDecoded(kind, nsp, event, payload);
    case Some(n) => AckFrameDecoded(kind, nsp, event, n, payload);
  }

  /** The part of a frame behind its marker byte. */
  function Unmarked(kind: Octet, nsp: Bytes, event: Bytes, ackId: Option<nat>, payload: Bytes): Bytes
    requires kind < 128
  {
    (if ackId.Some? then [kind + 128] + BigEndianBytes(ackId.value) else [kind])
    + [Length8(nsp)] + nsp + [Length8(event)] + event + payload
  }

  lemma {:induction false} PlainDecodedAt(prefix: Bytes, buf: Bytes, kind: Octet, d: DecodedPacket)
    requires |prefix| < |buf| && buf[|prefix|] == kind < 128
    requires (|prefix| == 1 && buf[0] == 0x05) || (prefix == [] && kind != 4 && kind != 5)
    requires DecodeNames(buf, Some(PlainType(kind)), None, |prefix| + 1) == d
    ensures DecodeBinaryPacket(buf) == Some(d)
  {}

  lemma {:induction false} AckDecodedAt(prefix: Bytes, buf: Bytes, kind: Octet, ackId: nat, d: DecodedPacket)
    requires |prefix| + 5 <= |buf| && buf[|prefix|] == kind + 128 && (prefix == [] || (|prefix| == 1 && buf[0] == 0x05))
    requires var at := |prefix| + 1; BigEndian(buf[at], buf[at + 1], buf[at + 2], buf[at + 3]) == ackId
    requires DecodeNames(buf, Some(PlainType(kind)), Some(ackId), |prefix| + 5) == d
    ensures DecodeBinaryPacket(buf) == Some(d)
  {
    assert (kind + 128) % 128 == kind;
    if prefix == [] { assert buf[0] >= 128; }
  }

  lemma {:induction false} UnmarkedPlain(prefix: Bytes, buf: Bytes, kind: Octet, nsp: Bytes, event: Bytes, payload: Bytes)
    requires kind < 128 && |nsp| < 256 && |event| < 256
    requires prefix == [0x05] || (prefix == [] && kind != 4 && kind != 5)
    requires buf == prefix + Unmarked(kind, nsp, event, None, payload)
    ensures DecodeBinaryPacket(buf) == Some(DecodedPacket(Some(PlainType(kind)), nsp, event, None, payload))
  {
    var head := prefix + [kind];
    assert buf == head + [Length8(nsp)] + nsp + [Length8(event)] + event + payload;
    NamesDecoded(buf, head, nsp, event, payload, Some(PlainType(kind)), None);
    PlainDecodedAt(prefix, buf, kind, DecodedPacket(Some(PlainType(kind)), nsp, event, None, payload));
  }

  lemma {:induction false} UnmarkedAck(prefix: Bytes, buf: Bytes, kind: Octet, nsp: Bytes, event: Bytes, ackId: nat, payload: Bytes)
    requires kind < 128 && |nsp| < 256 && |event| < 256 && ackId < ACK_LIMIT && (prefix == [0x05] || prefix == [])
    requires buf == prefix + Unmarked(kind, nsp, event, Some(ackId), payload)
    ensures DecodeBinaryPacket(buf) == Some(DecodedPacket(Some(PlainType(kind)), nsp, event, Some(ackId), payload))
  {
    var head := prefix + ([kind + 128] + BigEndianBytes(ackId));
    assert buf == head + [Length8(nsp)] + nsp + [Length8(event)] + event + payload;
    AckIdRoundTrip(ackId);
    NamesDecoded(buf, head, nsp, event, payload, Some(PlainType(kind)), Some(ackId));
    assert forall k :: 0 <= k < |head| ==> buf[k] == head[k];
    AckDecodedAt(prefix, buf, kind, ackId, DecodedPacket(Some(PlainType(kind)), nsp, event, Some(ackId), payload));
  }

  lemma {:induction false} UnmarkedDecoded(prefix: Bytes, kind: Octet, nsp: Bytes, event: Bytes, ackId: Option<nat>, payload: Bytes)
    requires kind < 128 && |nsp| < 256 && |event| < 256 && (ackId.Some? ==> ackId.value < ACK_LIMIT)
    requires prefix == [0x05] || (prefix == [] && (ackId.None? ==> kind != 4 && kind != 5))
    ensures DecodeBinaryPacket(prefix + Unmarked(kind, nsp, event, ackId, payload))
         == Some(DecodedPacket(Some(PlainType(kind)), nsp, event, ackId, payload))
  {
    match ackId
    case None => UnmarkedPlain(prefix, prefix + Unmarked(kind, nsp, event, ackId, payload), kind, nsp, event, payload);
    case Some(n) => UnmarkedAck(prefix, prefix + Unmarked(kind, nsp, event, ackId, payload), kind, nsp, event, n, payload);
  }

  lemma {:induction false} FrameIsMarked(kind: Octet, nsp: Bytes, event: Bytes, ackId: Option<nat>, payload: Bytes)
    requires kind < 128
    ensures BinaryFrame(kind, nsp, event, ackId, payload) == [0x04] + Unmarked(kind, nsp, event, ackId, payload)
  {}

  /** Either marker byte, and none where the type cannot be taken for one: the frame is read the same. */
  lemma {:induction false} MarkerIsStripped(kind: Octet, nsp: Bytes, event: Bytes, ackId: Option<nat>, payload: Bytes)
    requires kind < 128 && |nsp| < 256 && |event| < 256 && (ackId.Some? ==> ackId.value < ACK_LIMIT)
    ensures var rest := Unmarked(kind, nsp, event, ackId, payload);
      var d := DecodeBinaryPacket([0x04] + rest);
      && BinaryFrame(kind, nsp, event, ackId, payload) == [0x04] + rest
      && DecodeBinaryPacket([0x05] + rest) == d
      && (ackId.Some? || (kind != 4 && kind != 5) ==> DecodeBinaryPacket(rest) == d)
  {
    var rest := Unmarked(kind, nsp, event, ackId, payload);
    FrameIsMarked(kind, nsp, event, ackId, payload);
    BinaryRoundTrip(kind, nsp, event, ackId, payload);
    UnmarkedDecoded([0x05], kind, nsp, event, ackId, payload);
    if ackId.Some? || (kind != 4 && kind != 5) {
      UnmarkedDecoded([], kind, nsp, event, ackId, payload);
      assert [] + rest == rest;
    }
  }

  /** A binary event is read exactly as a plain event with the same contents and a binary acknowledgement as a plain one;
      every other type is read as it is. */
  lemma {:induction false} BinaryTypesReadAsPlain(kind: Octet, nsp: Bytes, event: Bytes, ackId: Option<nat>, payload: Bytes)
    requires kind < 128 && |nsp| < 256 && |event| < 256 && (ackId.Some? ==> ackId.value < ACK_LIMIT)
    ensures DecodeBinaryPacket(BinaryFrame(5, nsp, event, ackId, payload)) == DecodeBinaryPacket(BinaryFrame(2, nsp, event, ackId, payload))
    ensures DecodeBinaryPacket(BinaryFrame(6, nsp, event, ackId, payload)) == DecodeBinaryPacket(BinaryFrame(3, nsp, event, ackId, payload))
    ensures kind != 5 && kind != 6 ==>
      DecodeBinaryPacket(BinaryFrame(kind, nsp, event, ackId, payload)) == Some(DecodedPacket(Some(kind), nsp, event, ackId, payload))
  {
    BinaryRoundTrip(2, nsp, event, ackId, payload);
    BinaryRoundTrip(3, nsp, event, ackId, payload);
    BinaryRoundTrip(5, nsp, event, ackId, payload);
    BinaryRoundTrip(6, nsp, event, ackId, payload);
    BinaryRoundTrip(kind, nsp, event, ackId, payload);
  }

  lemma {:induction false} ParsedAt(buf: Bytes, at: nat)
    requires |buf| >= 2 && buf[0] == 0x04 && at == Header(buf[1]) && at < |buf|
    requires var nsEnd := at + 1 + buf[at]; nsEnd < |buf| && nsEnd + 1 + buf[nsEnd] <= |buf|
    ensures var nsEnd := at + 1 + buf[at];
      var evEnd := nsEnd + 1 + buf[nsEnd];
      ParsePacket(buf) == if buf[1] % 16 == 0 then Connect(buf[at + 1..nsEnd])
                          else Event(buf[at + 1..nsEnd], buf[nsEnd + 1..evEnd], buf[evEnd..])
  {}

  /** From the length byte of the namespace on, the native parser reads the layout back too. */
  lemma {:induction false} NamesParsed(buf: Bytes, head: Bytes, nsp: Bytes, event: Bytes, payload: Bytes)
    requires buf == head + [Length8(nsp)] + nsp + [Length8(event)] + event + payload
    requires |nsp| < 256 && |event| < 256
    requires |head| >= 2 && head[0] == 0x04 && |head| == Header(head[1])
    ensures ParsePacket(buf) == if head[1] % 16 == 0 then Connect(nsp) else Event(nsp, event, payload)
  {
    Layout(buf, head, nsp, event, payload);
    ParsedAt(buf, |head|);
  }

  /** Both decoders recover what `encodeEvent` and `encodeJoin` wrote, for all names of up to 255 bytes. */
  lemma {:induction false} EventRoundTrip(nsp: Bytes, event: Bytes, payload: Bytes)
    requires |nsp| < 256 && |event| < 256
    ensures ParsePacket(EventFrame(nsp, event, payload)) == Event(nsp, event, payload)
    ensures DecodeBinaryPacket(EventFrame(nsp, event, payload)) == Some(DecodedPacket(Some(2), nsp, event, None, payload))
  {
    EventParsed(EventFrame(nsp, event, payload), nsp, event, payload);
    EventFrameIsBinary(nsp, event, payload);
    PlainFrameDecoded(EVENT, nsp, event, payload);
  }

  lemma {:induction false} EventFrameIsBinary(nsp: Bytes, event: Bytes, payload: Bytes)
    ensures EventFrame(nsp, event, payload) == BinaryFrame(EVENT, nsp, event, None, payload)
  {}

  lemma {:induction false} EventParsed(buf: Bytes, nsp: Bytes, event: Bytes, payload: Bytes)
    requires |nsp| < 256 && |event| < 256 && buf == EventFrame(nsp, event, payload)
    ensures ParsePacket(buf) == Event(nsp, event, payload)
  {
    var head: Bytes := [0x04, 0x02];
    NamesParsed(buf, head, nsp, event, payload);
  }

  lemma {:induction false} JoinRoundTrip(nsp: Bytes, room: Bytes)
    requires |nsp| < 256 && |room| < 256
    ensures ParsePacket(JoinFrame(nsp, room)) == Event(nsp, room, [])
    ensures DecodeBinaryPacket(JoinFrame(nsp, room)) == Some(DecodedPacket(Some(2), nsp, room, Some(0), []))
  {
    JoinParsed(JoinFrame(nsp, room), nsp, room);
    EncodersAgree(nsp, room);
    AckFrameDecoded(EVENT, nsp, room, 0, []);
  }

  lemma {:induction false} JoinParsed(buf: Bytes, nsp: Bytes, room: Bytes)
    requires |nsp| < 256 && |room| < 256 && buf == JoinFrame(nsp, room)
    ensures ParsePacket(buf) == Event(nsp, room, [])
  {
    var head: Bytes := [0x04, 0x82, 0, 0, 0, 0];
    assert buf == head + [Length8(nsp)] + nsp + [Length8(room)] + room + [];
    NamesParsed(buf, head, nsp, room, []);
  }

  lemma {:induction false} ConnectRoundTrip(nsp: Bytes)
    requires |nsp| < 256
    ensures ParsePacket(ConnectFrame(nsp)) == Connect(nsp)
    ensures DecodeBinaryPacket(ConnectFrame(nsp)) == Some(DecodedPacket(Some(0), nsp, [], None, []))
  {
    var buf := ConnectFrame(nsp);
    assert buf == [0x04, 0x00] + [Length8(nsp)] + nsp + [Length8([])] + [] + [];
    NamesParsed(buf, [0x04, 0x00], nsp, [], []);
    EncodersAgree(nsp, []);
    PlainFrameDecoded(CONNECT, nsp, [], []);
  }

  /** Where the native parser finds names and payload, the transport finds the same. */
  lemma {:induction false} NamesAgree(buf: Bytes, at: nat, kind: Option<nat>, ackId: Option<nat>)
    requires at < |buf| && at + 1 + buf[at] <= |buf|
    ensures var d, nsEnd := DecodeNames(buf, kind, ackId, at), at + 1 + buf[at];
      && d.namespace == buf[at + 1..nsEnd]
      && (nsEnd < |buf| && nsEnd + 1 + buf[nsEnd] <= |buf| ==>
            d.event == buf[nsEnd + 1..nsEnd + 1 + buf[nsEnd]] && d.payload == buf[nsEnd + 1 + buf[nsEnd]..])
  {}

  /** Whatever the bytes: an event of one parser is the same event for the other decoder, and so is a connect's namespace. */
  lemma {:induction false} PacketsAgree(buf: Bytes)
    ensures match ParsePacket(buf)
      case Event(nsp, event, payload) =>
        var d := DecodeBinaryPacket(buf);
        d.Some? && d.value.namespace == nsp && d.value.event == event && d.value.payload == payload
      case Connect(nsp) => DecodeBinaryPacket(buf).Some? && DecodeBinaryPacket(buf).value.namespace == nsp
      case Other => true
  {
    if !ParsePacket(buf).Other? {
      var at, plain := Header(buf[1]), Some(PlainType(buf[1] % 128));
      if buf[1] < 128 {
        NamesAgree(buf, at, plain, None);
        assert DecodeBinaryPacket(buf) == Some(DecodeNames(buf, plain, None, at));
      } else {
        var ackId := Some(BigEndian(buf[2], buf[3], buf[4], buf[5]));
        NamesAgree(buf, at, plain, ackId);
        assert DecodeBinaryPacket(buf) == Some(DecodeNames(buf, plain, ackId, at));
      }
    }
  }

  /** An event survives exactly when the lengths of both names fit in one byte. */
  lemma {:induction false} EventSurvivesIff(nsp: Bytes, event: Bytes, payload: Bytes)
    ensures ParsePacket(EventFrame(nsp, event, payload)) == Event(nsp, event, payload)
      <==> |nsp| < 256 && |event| < 256
  {
    if |nsp| < 256 && |event| < 256 {
      EventRoundTrip(nsp, event, payload);
    } else {
      var buf := EventFrame(nsp, event, payload);
      assert buf[1] == 0x02 && buf[2] == Length8(nsp);
      if |nsp| < 256 { assert buf[3 + |nsp|] == Length8(event); }
    }
  }
}
