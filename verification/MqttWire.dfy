/** The octets on the wire, in numbers (src/mqtt.rs:270-407, 577-695, 784-889): where each bit and each field of a
  * packet is, read and written. */
module MqttWire {
  import opened Prelude
  import opened MqttOctets
  import opened MqttPacket
  import opened MqttCodec
  import opened MqttStream

  // ------------------------------------------------------------------ numbers and fields

  function Prefixed(v: Octets): Octets
    requires |v| < 0x1_0000
  {
    [|v| / 256, |v| % 256] + v
  }

  function Number(high: Octet, low: Octet): (n: Word) { high as int * 256 + low as int }

  lemma TwoOctetVarint(n: nat)
    requires 128 <= n < 16384
    ensures VarintOctets(n) == [n % 128 + 128, n / 128]
  {
    assert VarintOctets(n / 128) == [n / 128];
  }

  lemma ThreeOctetVarint(n: nat)
    requires 16384 <= n < 2097152
    ensures VarintOctets(n) == [n % 128 + 128, n / 128 % 128 + 128, n / 16384]
  {
    TwoOctetVarint(n / 128);
    assert n / 128 / 128 == n / 16384;
    assert VarintOctets(n) == [n % 128 + 128] + VarintOctets(n / 128);
  }

  lemma FourOctetVarint(n: nat)
    requires 2097152 <= n < 268435456
    ensures VarintOctets(n) == [n % 128 + 128, n / 128 % 128 + 128, n / 16384 % 128 + 128, n / 2097152]
  {
    ThreeOctetVarint(n / 128);
    assert n / 128 / 128 == n / 16384 && n / 128 / 16384 == n / 2097152;
    assert VarintOctets(n) == [n % 128 + 128] + VarintOctets(n / 128);
  }

  /** A remaining length takes one octet per seven bits, least significant first, with the top bit on all but the
    * last. */
  lemma VarintWire(n: nat)
    ensures n < 128 ==> VarintOctets(n) == [n]
    ensures 128 <= n < 16384 ==> VarintOctets(n) == [n % 128 + 128, n / 128]
    ensures 16384 <= n < 2097152 ==> VarintOctets(n) == [n % 128 + 128, n / 128 % 128 + 128, n / 16384]
    ensures 2097152 <= n < 268435456 ==>
              VarintOctets(n) == [n % 128 + 128, n / 128 % 128 + 128, n / 16384 % 128 + 128, n / 2097152]
  {
    assert n < 128 ==> VarintOctets(n) == [n];
    hide VarintOctets;
    if 128 <= n < 16384 {
      TwoOctetVarint(n);
    } else if 16384 <= n < 2097152 {
      ThreeOctetVarint(n);
    } else if 2097152 <= n < 268435456 {
      FourOctetVarint(n);
    }
  }

  /** Encoding fails exactly for a body of more than 268435455 octets, and names its length. */
  lemma EncodeFailsExactly(p: Packet)
    ensures if |Body(p)| > 268435455 then Encode(p) == Failure(TooLong(|Body(p)|)) else Encode(p).Success?
  {
    hide Body;
  }

  // ------------------------------------------------------------------ what a decoded CONNECT says of its octets

  /** Where the flags octet of a CONNECT body is: after the name, whose length is in front, and the level. */
  function FlagsAt(body: Octets): nat
    requires |body| >= 2
  {
    3 + Number(body[0], body[1])
  }

  /** The name's length is in the first two octets; after the name come the protocol level, the flags and the keep
    * alive, and each flag is one bit. */
  lemma ConnectBits(body: Octets)
    requires ReadConnect(body).Success?
    ensures |body| >= 2 && FlagsAt(body) + 2 < |body|
    ensures var (c, f) := (ReadConnect(body).value, body[FlagsAt(body)]);
            && c.protocolLevel == body[FlagsAt(body) - 1]
            && c.keepalive == Number(body[FlagsAt(body) + 1], body[FlagsAt(body) + 2])
            && (c.cleanSession <==> f / 2 % 2 == 1)
            && (c.will.Some? <==> f / 4 % 2 == 1)
            && (c.will.Some? ==> (c.will.value.qos.AtLeastOnce? <==> f / 8 % 4 == 1) && f / 8 % 4 < 2)
            && (c.will.Some? ==> (c.will.value.retain <==> f / 32 % 2 == 1))
            && (c.password.Some? <==> f / 64 % 2 == 1)
            && (c.username.Some? <==> f / 128 % 2 == 1)
  {
    ConnectHead(body);
    hide ReadConnect;
    var at := FlagsAt(body);
    PayloadBits(body[at + 3..], body[at - 1], body[at], Number(body[at + 1], body[at + 2]));
  }

  lemma ConnectHead(body: Octets)
    requires ReadConnect(body).Success?
    ensures |body| >= 2 && FlagsAt(body) + 2 < |body|
    ensures var at := FlagsAt(body);
            ReadConnect(body) ==
               ReadPayload(body[at + 3..], body[at - 1], body[at], Number(body[at + 1], body[at + 2]))
  {
    hide ReadPayload, IsUtf8;
    var n := Number(body[0], body[1]);
    assert ReadName(body) == Success(body[2..][n..]);
    assert body[2..][n..] == body[2 + n..];
    var s := body[2 + n..];
    assert s[1..][1..][2..] == body[FlagsAt(body) + 3..];
  }

  lemma PayloadBits(s: Octets, level: Octet, f: Octet, keepalive: Word)
    requires ReadPayload(s, level, f, keepalive).Success?
    ensures var c := ReadPayload(s, level, f, keepalive).value;
            && c.protocolLevel == level && c.keepalive == keepalive
            && (c.cleanSession <==> f / 2 % 2 == 1)
            && (c.will.Some? <==> f / 4 % 2 == 1)
            && (c.will.Some? ==> (c.will.value.qos.AtLeastOnce? <==> f / 8 % 4 == 1) && f / 8 % 4 < 2)
            && (c.will.Some? ==> (c.will.value.retain <==> f / 32 % 2 == 1))
            && (c.password.Some? <==> f / 64 % 2 == 1)
            && (c.username.Some? <==> f / 128 % 2 == 1)
  {
    hide ReadText, ReadField;
  }

  // ------------------------------------------------------------------ what a packet is written as

  function Bit(on: bool, value: Octet): Octet { if on then value else 0 }

  /** The type nibble of each packet, and the four bits beside it. */
  lemma FirstOctetIs(p: Packet)
    ensures match p
            case Connecting(_) => FirstOctet(p) == 16
            case ConnAck(_, _) => FirstOctet(p) == 32
            case Publishing(q) =>
              && FirstOctet(p) / 16 == 3
              && (q.retain <==> FirstOctet(p) % 2 == 1)
              && FirstOctet(p) / 2 % 4 == (if q.qos.AtMostOnce? then 0 else 1)
              && (q.dup <==> FirstOctet(p) / 8 % 2 == 1)
            case PubAck(_) => FirstOctet(p) == 64
            case Subscribing(_) => FirstOctet(p) == 130
            case SubAck(_, _) => FirstOctet(p) == 144
            case PingReq => FirstOctet(p) == 192
            case PingResp => FirstOctet(p) == 208
            case Disconnect => FirstOctet(p) == 224
  {}

  function ConnectFlagBits(c: Connect): Octet {
    Bit(c.cleanSession, 2) + Bit(c.will.Some?, 4)
    + Bit(c.will.Some? && c.will.value.qos.AtLeastOnce?, 8)
    + Bit(c.will.Some? && c.will.value.retain, 32)
    + Bit(c.password.Some?, 64) + Bit(c.username.Some?, 128)
  }

  function IfAny(v: Option<Octets>): Octets
    requires v.Some? ==> |v.value| < 0x1_0000
  {
    if v.Some? then Prefixed(v.value) else []
  }

  /** A CONNECT is "MQTT" with its length, the level, the flags, the keep alive, and then the client identifier and,
    * where there are such, the will's topic and message, the username and the password, each with its length. */
  lemma ConnectWire(c: Connect)
    requires WellFormedConnect(c)
    ensures var will := if c.will.Some? then Prefixed(c.will.value.topic) + Prefixed(c.will.value.payload) else [];
            ConnectBody(c) ==
            [0, 4, 0x4D, 0x51, 0x54, 0x54, c.protocolLevel, ConnectFlagBits(c), c.keepalive / 256, c.keepalive % 256]
            + Prefixed(c.clientId) + will + IfAny(c.username) + IfAny(c.password)
  {
    var head := FieldOctets(PROTOCOL_NAME) + [c.protocolLevel] + [ConnectFlags(c)] + WordOctets(c.keepalive);
    ConnectHeadWire(c);
    var id, will := FieldOctets(c.clientId), WillOctets(c.will);
    var user, secret := OptionalField(c.username), OptionalField(c.password);
    OptionalWire(c);
    hide FieldOctets, Prefixed, ConnectFlags, WordOctets, ConnectFlagBits, WillOctets, OptionalField, IfAny;
    assert ConnectBody(c) == head + (id + (will + (user + secret)));
  }

  lemma ConnectHeadWire(c: Connect)
    ensures FieldOctets(PROTOCOL_NAME) + [c.protocolLevel] + [ConnectFlags(c)] + WordOctets(c.keepalive) ==
            [0, 4, 0x4D, 0x51, 0x54, 0x54, c.protocolLevel, ConnectFlagBits(c), c.keepalive / 256, c.keepalive % 256]
  {
    assert ConnectFlags(c) == ConnectFlagBits(c);
    hide ConnectFlags, ConnectFlagBits;
  }

  lemma OptionalWire(c: Connect)
    requires WellFormedConnect(c)
    ensures FieldOctets(c.clientId) == Prefixed(c.clientId)
    ensures WillOctets(c.will) ==
            if c.will.Some? then Prefixed(c.will.value.topic) + Prefixed(c.will.value.payload) else []
    ensures OptionalField(c.username) == IfAny(c.username) && OptionalField(c.password) == IfAny(c.password)
  {
    hide IsUtf8;
  }

  lemma FieldIsPrefixed(v: Octets)
    requires |v| < 0x1_0000
    ensures FieldOctets(v) == Prefixed(v)
  {}

  /** Whatever it holds, it begins with the name and its length. */
  lemma ConnectBegins(c: Connect)
    ensures |ConnectBody(c)| > 6 && ConnectBody(c)[..6] == [0, 4, 0x4D, 0x51, 0x54, 0x54]
  {
    hide ConnectFlags, WillOctets, OptionalField;
  }

  /** A PUBLISH is its topic with its length, at QoS 1 the packet identifier, and the payload to the end. */
  lemma PublishWire(p: Publish)
    requires WellFormed(Publishing(p))
    ensures PublishBody(p) ==
            Prefixed(p.topic)
            + (if p.qos.AtLeastOnce? then [p.packetId.value / 256, p.packetId.value % 256] else []) + p.payload
  {
    FieldIsPrefixed(p.topic);
  }

  /** A SUBSCRIBE is its packet identifier and then each filter with its length and options. */
  lemma SubscribeWire(s: Subscribe)
    requires WellFormed(Subscribing(s))
    ensures SubscribeBody(s) == [s.packetId / 256, s.packetId % 256] + FilterOctets(s.filters)
    ensures s.filters == [] ==> FilterOctets(s.filters) == []
    ensures s.filters != [] ==>
              FilterOctets(s.filters) ==
              Prefixed(s.filters[0].0) + [s.filters[0].1] + FilterOctets(s.filters[1..])
  {
    if s.filters != [] {
      FieldIsPrefixed(s.filters[0].0);
    }
  }

  /** The short packets, whole. */
  lemma ShortPackets(sessionPresent: bool, code: Octet, id: Word, granted: Octets)
    requires |granted| < 126
    ensures Encode(ConnAck(sessionPresent, code)) == Success([0x20, 2, Bit(sessionPresent, 1), code])
    ensures Encode(PubAck(id)) == Success([0x40, 2, id / 256, id % 256])
    ensures Encode(SubAck(id, granted)) == Success([0x90, 2 + |granted|, id / 256, id % 256] + granted)
    ensures Encode(PingReq) == Success([0xC0, 0])
    ensures Encode(PingResp) == Success([0xD0, 0])
    ensures Encode(Disconnect) == Success([0xE0, 0])
  {
    VarintWire(0);
    VarintWire(2);
    VarintWire(2 + |granted|);
    hide VarintOctets;
    var sub := Body(SubAck(id, granted));
    assert Body(ConnAck(sessionPresent, code)) == [Bit(sessionPresent, 1), code];
    assert [0x20] + ([2] + [Bit(sessionPresent, 1), code]) == [0x20, 2, Bit(sessionPresent, 1), code];
    assert Body(PubAck(id)) == [id / 256, id % 256];
    assert [0x40] + ([2] + [id / 256, id % 256]) == [0x40, 2, id / 256, id % 256];
    assert |sub| == 2 + |granted|;
    assert [0x90] + ([2 + |granted|] + sub) == [0x90, 2 + |granted|, id / 256, id % 256] + granted;
    assert [0xC0] + ([0] + []) == [0xC0, 0];
    assert [0xD0] + ([0] + []) == [0xD0, 0];
    assert [0xE0] + ([0] + []) == [0xE0, 0];
  }

  // ------------------------------------------------------------------ which types there are

  function KindOf(p: Packet): nat {
    match p
    case Connecting(_) => 1
    case ConnAck(_, _) => 2
    case Publishing(_) => 3
    case PubAck(_) => 4
    case Subscribing(_) => 8
    case SubAck(_, _) => 9
    case PingReq => 12
    case PingResp => 13
    case Disconnect => 14
  }

  /** The nibble says the type; a nibble of any other type is refused by name. */
  lemma KindsExactly(kind: Octet, flags: Octet, body: Octets)
    ensures match ReadBody(kind, flags, body)
            case Success(p) => KindOf(p) == kind
            case Failure(UnsupportedType(k)) => k == kind && kind !in {1, 2, 3, 4, 8, 9, 12, 13, 14}
            case Failure(_) => kind in {1, 2, 3, 4, 8, 9}
  {
    hide ReadConnect, ReadPublish, ReadSubscribe;
    if kind == 1 {
      ConnectErrors(body);
    } else if kind == 3 {
      PublishErrors(body, flags);
    } else if kind == 8 {
      SubscribeErrors(body);
    }
  }

  lemma ConnectErrors(body: Octets)
    ensures ReadConnect(body).Failure? ==> !ReadConnect(body).error.UnsupportedType?
  {
    hide IsUtf8;
  }

  lemma PublishErrors(body: Octets, flags: Octet)
    ensures ReadPublish(body, flags).Failure? ==> !ReadPublish(body, flags).error.UnsupportedType?
  {
    hide IsUtf8;
  }

  lemma {:induction false} FiltersErrors(s: Octets)
    ensures ReadFilters(s).Failure? ==> !ReadFilters(s).error.UnsupportedType?
    decreases |s|
  {
    if s != [] && ReadFilter(s).Success? {
      FiltersErrors(ReadFilter(s).value.1);
    }
  }

  lemma SubscribeErrors(body: Octets)
    ensures ReadSubscribe(body).Failure? ==> !ReadSubscribe(body).error.UnsupportedType?
  {
    if |body| >= 2 {
      FiltersErrors(body[2..]);
    }
  }

  /** Two QoS bits of two or three are refused, and named. */
  lemma HighQosIsRefused(body: Octets, flags: Octet)
    requires flags / 2 % 4 >= 2
    ensures ReadPublish(body, flags).Failure?
  {
    hide IsUtf8;
  }

  // ------------------------------------------------------------------ the device's side

  /** From the device, a well-formed packet is delivered whole, whatever follows it, unless it is one of the three that
    * only a server sends: a CONNACK, a SUBACK or a PINGRESP is refused by its type. */
  lemma FromDeviceExactly(p: Packet, rest: Octets)
    requires WellFormed(p) && Encode(p).Success?
    ensures DecodeFor(Device, Encode(p).value + rest) ==
            match p
            case ConnAck(_, _) => Bad(UnsupportedType(2))
            case SubAck(_, _) => Bad(UnsupportedType(9))
            case PingResp => Bad(UnsupportedType(13))
            case _ => Good(p, |Encode(p).value|)
    ensures DecodeFor(AnyPeer, Encode(p).value + rest) == Good(p, |Encode(p).value|)
  {
    RoundTrip(p, rest);
    hide Encode, Decode, WellFormed;
  }

  /** A server's three types are all that the device's side refuses over the other. */
  lemma DeviceRefusesOnly(buf: Octets)
    ensures DecodeFor(Device, buf) ==
            var d := DecodeFor(AnyPeer, buf);
            if d.Good? && (d.packet.ConnAck? || d.packet.SubAck? || d.packet.PingResp?)
            then Bad(UnsupportedType(KindOf(d.packet))) else d
  {
    hide Decode;
  }
}
