/** The nine packet types, their flag octets, and decoding and encoding as functions (src/mqtt.rs:244-889). */
module MqttPacket {
  import opened Prelude
  import opened MqttOctets

  datatype QoS = AtMostOnce | AtLeastOnce {
    function Bits(): Octet { if AtMostOnce? then 0 else 1 }
  }

  datatype CodecError =
    | MalformedLength
    | UnsupportedType(kind: Octet)
    | NotUtf8(field: string)
    | Truncated(packet: string, field: string)
    | UnsupportedQoS(qos: Octet)
    | TooLong(len: nat)

  datatype Will = Will(topic: Octets, payload: Octets, qos: QoS, retain: bool)

  datatype Connect = Connect(
    protocolLevel: Octet,
    clientId: Octets,
    username: Option<Octets>,
    password: Option<Octets>,
    keepalive: Word,
    cleanSession: bool,
    will: Option<Will>)

  datatype Publish = Publish(
    topic: Octets,
    qos: QoS,
    retain: bool,
    dup: bool,
    packetId: Option<Word>,
    payload: Octets)

  datatype Subscribe = Subscribe(packetId: Word, filters: seq<(Octets, Octet)>)

  datatype Packet =
    | Connecting(connect: Connect)
    | ConnAck(sessionPresent: bool, code: Octet)
    | Publishing(publish: Publish)
    | PubAck(packetId: Word)
    | Subscribing(subscribe: Subscribe)
    | SubAck(packetId: Word, granted: Octets)
    | PingReq
    | PingResp
    | Disconnect

  /** "MQTT" */
  const PROTOCOL_NAME: Octets := [0x4D, 0x51, 0x54, 0x54]

  // ------------------------------------------------------------------ flags

  const CLEAN_SESSION: Octet := 0x02
  const WILL: Octet := 0x04
  const WILL_QOS: Octet := 0x08
  const WILL_RETAIN: Octet := 0x20
  const PASSWORD: Octet := 0x40
  const USERNAME: Octet := 0x80
  const RETAIN: Octet := 0x01
  const PUBLISH_QOS: Octet := 0x02
  const DUP: Octet := 0x08

  /** `bits & mask != 0` for a mask of one bit. */
  predicate Has(bits: Octet, mask: Octet)
    requires mask > 0
  {
    bits / mask % 2 == 1
  }

  function QosOf(bits: Octet): Result<QoS, CodecError> {
    if bits == 0 then Success(AtMostOnce)
    else if bits == 1 then Success(AtLeastOnce)
    else Failure(UnsupportedQoS(bits))
  }

  /** `mask` where `on`, nothing otherwise. */
  function Flag(on: bool, mask: Octet): Octet { if on then mask else 0 }

  function ConnectFlags(c: Connect): Octet {
    Flag(c.username.Some?, USERNAME) + Flag(c.password.Some?, PASSWORD) + Flag(c.cleanSession, CLEAN_SESSION)
    + match c.will
      case None => 0
      case Some(w) => WILL + Flag(w.qos.AtLeastOnce?, WILL_QOS) + Flag(w.retain, WILL_RETAIN)
  }

  function PublishFlags(p: Publish): (bits: Octet)
    ensures bits < 0x10
  {
    Flag(p.qos.AtLeastOnce?, PUBLISH_QOS) + Flag(p.retain, RETAIN) + Flag(p.dup, DUP)
  }

  // ------------------------------------------------------------------ decoding

  /** A field read as part of a packet, or the error naming what the packet ended inside. */
  function Need<T>(r: Read<T>, packet: string, field: string): Result<(T, Octets), CodecError> {
    match r
    case Short => Failure(Truncated(packet, field))
    case Got(v, rest) => Success((v, rest))
  }

  function ReadText(s: Octets, field: string): Result<(Octets, Octets), CodecError> {
    var (raw, rest) :- Need(ReadField(s), "packet", field);
    if IsUtf8(raw) then Success((raw, rest)) else Failure(NotUtf8(field))
  }

  /** The protocol name is read and required to be text, and its value ignored. */
  function ReadName(s: Octets): Result<Octets, CodecError> {
    var (name, rest) :- Need(ReadField(s), "CONNECT", "protocol name");
    if IsUtf8(name) then Success(rest) else Failure(NotUtf8("protocol name"))
  }

  /** Will topic and message, then the QoS bits: two of them are refused only after both were read. */
  function ReadWill(s: Octets, flags: Octet): Result<(Option<Will>, Octets), CodecError> {
    if !Has(flags, WILL) then Success((None, s))
    else
      var (topic, s1) :- ReadText(s, "will topic");
      var (payload, s2) :- Need(ReadField(s1), "CONNECT", "will message");
      var qos :- QosOf(flags / WILL_QOS % 4);
      Success((Some(Will(topic, payload, qos, Has(flags, WILL_RETAIN))), s2))
  }

  function ReadUsername(s: Octets, flags: Octet): Result<(Option<Octets>, Octets), CodecError> {
    if !Has(flags, USERNAME) then Success((None, s))
    else
      var (name, rest) :- ReadText(s, "username");
      Success((Some(name), rest))
  }

  function ReadPassword(s: Octets, flags: Octet): Result<Option<Octets>, CodecError> {
    if !Has(flags, PASSWORD) then Success(None)
    else
      var (secret, _) :- Need(ReadField(s), "CONNECT", "password");
      Success(Some(secret))
  }

  /** Everything from the client identifier on: what the flags octet governs. */
  function ReadPayload(s: Octets, level: Octet, flags: Octet, keepalive: Word): Result<Connect, CodecError> {
    var (id, s1) :- ReadText(s, "client identifier");
    var (will, s2) :- ReadWill(s1, flags);
    var (username, s3) :- ReadUsername(s2, flags);
    var password :- ReadPassword(s3, flags);
    Success(Connect(level, id, username, password, keepalive, Has(flags, CLEAN_SESSION), will))
  }

  function ReadConnect(body: Octets): Result<Connect, CodecError> {
    var s1 :- ReadName(body);
    var (level, s2) :- Need(ReadOctet(s1), "CONNECT", "protocol level");
    var (flags, s3) :- Need(ReadOctet(s2), "CONNECT", "connect flags");
    var (keepalive, s4) :- Need(ReadWord(s3), "CONNECT", "keepalive");
    ReadPayload(s4, level, flags, keepalive)
  }

  function ReadPacketId(s: Octets, qos: QoS): Result<(Option<Word>, Octets), CodecError> {
    if qos.AtMostOnce? then Success((None, s))
    else
      var (id, rest) :- Need(ReadWord(s), "PUBLISH", "packet identifier");
      Success((Some(id), rest))
  }

  function ReadPublish(body: Octets, flags: Octet): Result<Publish, CodecError> {
    var qos :- QosOf(flags / PUBLISH_QOS % 4);
    var (topic, s1) :- ReadText(body, "topic");
    var (id, s2) :- ReadPacketId(s1, qos);
    Success(Publish(topic, qos, Has(flags, RETAIN), Has(flags, DUP), id, s2))
  }

  function ReadFilter(s: Octets): (r: Result<((Octets, Octet), Octets), CodecError>)
    ensures r.Success? ==> |r.value.1| < |s|
  {
    var (filter, s1) :- ReadText(s, "topic filter");
    var (qos, s2) :- Need(ReadOctet(s1), "SUBSCRIBE", "requested QoS");
    Success(((filter, qos), s2))
  }

  function ReadFilters(s: Octets): Result<seq<(Octets, Octet)>, CodecError>
    decreases |s|
  {
    if s == [] then Success([])
    else
      var (one, rest) :- ReadFilter(s);
      var more :- ReadFilters(rest);
      Success([one] + more)
  }

  function ReadSubscribe(body: Octets): Result<Subscribe, CodecError> {
    var (id, rest) :- Need(ReadWord(body), "SUBSCRIBE", "packet identifier");
    var filters :- ReadFilters(rest);
    Success(Subscribe(id, filters))
  }

  /** The per-type dispatch on a complete body. */
  function ReadBody(kind: Octet, flags: Octet, body: Octets): Result<Packet, CodecError> {
    match kind
    case 1 =>
      var c :- ReadConnect(body);
      Success(Connecting(c))
    case 2 =>
      if |body| < 2 then Failure(Truncated("CONNACK", "return code"))
      else Success(ConnAck(body[0] % 2 == 1, body[1]))
    case 3 =>
      var p :- ReadPublish(body, flags);
      Success(Publishing(p))
    case 4 =>
      var (id, _) :- Need(ReadWord(body), "PUBACK", "packet identifier");
      Success(PubAck(id))
    case 8 =>
      var s :- ReadSubscribe(body);
      Success(Subscribing(s))
    case 9 =>
      var (id, granted) :- Need(ReadWord(body), "SUBACK", "packet identifier");
      Success(SubAck(id, granted))
    case 12 => Success(PingReq)
    case 13 => Success(PingResp)
    case 14 => Success(Disconnect)
    case _ => Failure(UnsupportedType(kind))
  }

  /** What decoding the front of a buffer gives. */
  datatype Decoded = NeedMore | Bad(error: CodecError) | Good(packet: Packet, used: nat)

  /** What the fixed header makes of a buffer: not enough octets yet, a malformed length, or a whole body. */
  datatype Framing = Partial | Unframed | Framed(first: Octet, body: Octets, total: nat)

  function Frame(buf: Octets): Framing {
    if buf == [] then Partial
    else
      match ReadVarint(buf[1..], 4)
      case Incomplete => Partial
      case Overlong => Unframed
      case Complete(remaining, used) =>
        var total := 1 + used + remaining;
        if |buf| < total then Partial else Framed(buf[0], buf[1 + used..total], total)
  }

  function Decode(buf: Octets): Decoded {
    match Frame(buf)
    case Partial => NeedMore
    case Unframed => Bad(MalformedLength)
    case Framed(first, body, total) =>
      match ReadBody(first / 0x10, first % 0x10, body)
      case Failure(e) => Bad(e)
      case Success(p) => Good(p, total)
  }

  /** The server's input, where the three server-to-device types are a protocol error. */
  function DecodeFromDevice(buf: Octets): Decoded {
    match Decode(buf)
    case Good(ConnAck(_, _), _) => Bad(UnsupportedType(2))
    case Good(SubAck(_, _), _) => Bad(UnsupportedType(9))
    case Good(PingResp, _) => Bad(UnsupportedType(13))
    case other => other
  }

  // ------------------------------------------------------------------ encoding

  function OptionalField(v: Option<Octets>): Octets {
    match v
    case None => []
    case Some(o) => FieldOctets(o)
  }

  function WillOctets(will: Option<Will>): Octets {
    match will
    case None => []
    case Some(w) => FieldOctets(w.topic) + FieldOctets(w.payload)
  }

  function ConnectBody(c: Connect): Octets {
    FieldOctets(PROTOCOL_NAME) + ([c.protocolLevel] + ([ConnectFlags(c)] + (WordOctets(c.keepalive) +
    (FieldOctets(c.clientId) + (WillOctets(c.will) + (OptionalField(c.username) + OptionalField(c.password)))))))
  }

  function PacketIdOctets(p: Publish): Octets {
    if p.qos.AtMostOnce? then [] else WordOctets(if p.packetId.Some? then p.packetId.value else 1)
  }

  function PublishBody(p: Publish): Octets {
    FieldOctets(p.topic) + (PacketIdOctets(p) + p.payload)
  }

  function FilterOctets(filters: seq<(Octets, Octet)>): Octets {
    if filters == [] then []
    else FieldOctets(filters[0].0) + ([filters[0].1] + FilterOctets(filters[1..]))
  }

  function SubscribeBody(s: Subscribe): Octets {
    WordOctets(s.packetId) + FilterOctets(s.filters)
  }

  function FirstOctet(p: Packet): Octet {
    match p
    case Connecting(_) => 0x10
    case ConnAck(_, _) => 0x20
    case Publishing(publish) => 0x30 + PublishFlags(publish)
    case PubAck(_) => 0x40
    case Subscribing(_) => 0x82
    case SubAck(_, _) => 0x90
    case PingReq => 0xC0
    case PingResp => 0xD0
    case Disconnect => 0xE0
  }

  function Body(p: Packet): Octets {
    match p
    case Connecting(c) => ConnectBody(c)
    case ConnAck(sessionPresent, code) => [if sessionPresent then 1 else 0, code]
    case Publishing(publish) => PublishBody(publish)
    case PubAck(id) => WordOctets(id)
    case Subscribing(s) => SubscribeBody(s)
    case SubAck(id, granted) => WordOctets(id) + granted
    case PingReq => []
    case PingResp => []
    case Disconnect => []
  }

  function Encode(p: Packet): Result<Octets, CodecError> {
    var body := Body(p);
    if |body| > MAX_REMAINING_LEN then Failure(TooLong(|body|))
    else Success([FirstOctet(p)] + (VarintOctets(|body|) + body))
  }

  // ------------------------------------------------------------------ well-formed packets

  predicate ShortField(v: Octets) { |v| < 0x1_0000 }

  /** A string field: text, and short enough for its length prefix. */
  predicate TextField(v: Octets) { ShortField(v) && IsUtf8(v) }

  predicate WellFormedConnect(c: Connect) {
    && TextField(c.clientId)
    && (c.username.Some? ==> TextField(c.username.value))
    && (c.password.Some? ==> ShortField(c.password.value))
    && (c.will.Some? ==> TextField(c.will.value.topic) && ShortField(c.will.value.payload))
  }

  /** What a packet must satisfy to survive the wire: short fields, text where text is required, and a
    * packet identifier exactly at QoS 1. */
  predicate WellFormed(p: Packet) {
    match p
    case Connecting(c) => WellFormedConnect(c)
    case Publishing(publish) => TextField(publish.topic) && (publish.packetId.Some? <==> publish.qos.AtLeastOnce?)
    case Subscribing(s) => forall i :: 0 <= i < |s.filters| ==> TextField(s.filters[i].0)
    case _ => true
  }
}
