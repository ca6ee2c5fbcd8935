/** The codec as the program runs it: a reader walking a body, a writer growing a buffer
  * (src/mqtt.rs:577-889). Each method computes what its specification function says. */
module MqttMethods {
  import opened Prelude
  import opened MqttOctets
  import opened MqttPacket

  method TextOf(reader: Reader, field: string) returns (r: Result<Octets, CodecError>)
    requires reader.Valid()
    modifies reader
    ensures reader.Valid()
    ensures match ReadText(old(reader.Rest()), field)
            case Failure(e) => r == Failure(e)
            case Success((v, rest)) => r == Success(v) && reader.Rest() == rest
  {
    var raw := reader.Field();
    if raw == None {
      return Failure(Truncated("packet", field));
    }
    r := if IsUtf8(raw.value) then Success(raw.value) else Failure(NotUtf8(field));
  }

  method WillOf(reader: Reader, flags: Octet) returns (r: Result<Option<Will>, CodecError>)
    requires reader.Valid()
    modifies reader
    ensures reader.Valid()
    ensures match ReadWill(old(reader.Rest()), flags)
            case Failure(e) => r == Failure(e)
            case Success((v, rest)) => r == Success(v) && reader.Rest() == rest
  {
    if !Has(flags, WILL) {
      return Success(None);
    }
    var topic := TextOf(reader, "will topic");
    if topic.Failure? {
      return Failure(topic.error);
    }
    var payload := reader.Field();
    if payload == None {
      return Failure(Truncated("CONNECT", "will message"));
    }
    var qos := QosOf(flags / WILL_QOS % 4);
    if qos.Failure? {
      return Failure(qos.error);
    }
    r := Success(Some(Will(topic.value, payload.value, qos.value, Has(flags, WILL_RETAIN))));
  }

  method DecodePayload(reader: Reader, level: Octet, flags: Octet, keepalive: Word)
    returns (r: Result<Connect, CodecError>)
    requires reader.Valid()
    modifies reader
    ensures reader.Valid() && r == ReadPayload(old(reader.Rest()), level, flags, keepalive)
  {
    var id := TextOf(reader, "client identifier");
    if id.Failure? {
      return Failure(id.error);
    }
    var will := WillOf(reader, flags);
    if will.Failure? {
      return Failure(will.error);
    }
    var username := None;
    if Has(flags, USERNAME) {
      var name := TextOf(reader, "username");
      if name.Failure? {
        return Failure(name.error);
      }
      username := Some(name.value);
    }
    var password := None;
    if Has(flags, PASSWORD) {
      password := reader.Field();
      if password == None {
        return Failure(Truncated("CONNECT", "password"));
      }
    }
    r := Success(Connect(level, id.value, username, password, keepalive, Has(flags, CLEAN_SESSION), will.value));
  }

  method DecodeConnect(body: Octets) returns (r: Result<Connect, CodecError>)
    ensures r == ReadConnect(body)
  {
    var reader := new Reader(body);
    var name := reader.Field();
    if name == None {
      return Failure(Truncated("CONNECT", "protocol name"));
    }
    if !IsUtf8(name.value) {
      return Failure(NotUtf8("protocol name"));
    }
    var level := reader.U8();
    if level == None {
      return Failure(Truncated("CONNECT", "protocol level"));
    }
    var flags := reader.U8();
    if flags == None {
      return Failure(Truncated("CONNECT", "connect flags"));
    }
    var keepalive := reader.U16();
    if keepalive == None {
      return Failure(Truncated("CONNECT", "keepalive"));
    }
    r := DecodePayload(reader, level.value, flags.value, keepalive.value);
  }

  method DecodePublish(body: Octets, flags: Octet) returns (r: Result<Publish, CodecError>)
    ensures r == ReadPublish(body, flags)
  {
    var qos := QosOf(flags / PUBLISH_QOS % 4);
    if qos.Failure? {
      return Failure(qos.error);
    }
    var reader := new Reader(body);
    var topic := TextOf(reader, "topic");
    if topic.Failure? {
      return Failure(topic.error);
    }
    var id := None;
    if qos.value != AtMostOnce {
      id := reader.U16();
      if id == None {
        return Failure(Truncated("PUBLISH", "packet identifier"));
      }
    }
    r := Success(Publish(topic.value, qos.value, Has(flags, RETAIN), Has(flags, DUP), id, reader.Rest()));
  }

  /** The SUBSCRIBE loop: filters until the body is used up, or the first error. */
  method DecodeSubscribe(body: Octets) returns (r: Result<Subscribe, CodecError>)
    ensures r == ReadSubscribe(body)
  {
    var reader := new Reader(body);
    var id := reader.U16();
    if id == None {
      return Failure(Truncated("SUBSCRIBE", "packet identifier"));
    }
    ghost var start := reader.Rest();
    var filters: seq<(Octets, Octet)> := [];
    PrependNothing(ReadFilters(start));
    while reader.Remaining() > 0
      invariant reader.Valid() && fresh(reader)
      invariant ReadFilters(start) == Prepend(filters, ReadFilters(reader.Rest()))
      decreases reader.Remaining()
    {
      ghost var before := reader.Rest();
      var filter := TextOf(reader, "topic filter");
      if filter.Failure? {
        return Failure(filter.error);
      }
      var qos := reader.U8();
      if qos == None {
        return Failure(Truncated("SUBSCRIBE", "requested QoS"));
      }
      assert ReadFilter(before).value == ((filter.value, qos.value), reader.Rest());
      assert ReadFilters(before) == Prepend([(filter.value, qos.value)], ReadFilters(reader.Rest()));
      PrependTwice(filters, [(filter.value, qos.value)], ReadFilters(reader.Rest()));
      filters := filters + [(filter.value, qos.value)];
    }
    assert filters + [] == filters;
    r := Success(Subscribe(id.value, filters));
  }

  function Prepend<T>(front: seq<T>, r: Result<seq<T>, CodecError>): Result<seq<T>, CodecError> {
    match r
    case Success(back) => Success(front + back)
    case Failure(e) => Failure(e)
  }

  lemma PrependNothing<T>(r: Result<seq<T>, CodecError>)
    ensures Prepend([], r) == r
  {
    if r.Success? {
      assert [] + r.value == r.value;
    }
  }

  lemma PrependTwice<T>(a: seq<T>, b: seq<T>, r: Result<seq<T>, CodecError>)
    ensures Prepend(a, Prepend(b, r)) == Prepend(a + b, r)
  {
    if r.Success? {
      assert a + (b + r.value) == (a + b) + r.value;
    }
  }

  method DecodePacket(buf: Octets) returns (r: Decoded)
    ensures r == Decode(buf)
  {
    hide ReadBody, ReadVarint;
    var header := new Reader(buf);
    var first := header.U8();
    if first == None {
      return NeedMore;
    }
    var remaining := header.Varint();
    match remaining {
      case Incomplete => return NeedMore;
      case Overlong => return Bad(MalformedLength);
      case Complete(length, used) =>
        var total := header.pos + length;
        if |buf| < total {
          return NeedMore;
        }
        var packet := DecodeBody(first.value / 0x10, first.value % 0x10, buf[header.pos..total]);
        assert Frame(buf) == Framed(first.value, buf[header.pos..total], total);
        r := if packet.Success? then Good(packet.value, total) else Bad(packet.error);
    }
  }

  method DecodeBody(kind: Octet, flags: Octet, body: Octets) returns (r: Result<Packet, CodecError>)
    ensures r == ReadBody(kind, flags, body)
  {
    if kind == 1 {
      var c := DecodeConnect(body);
      r := if c.Success? then Success(Connecting(c.value)) else Failure(c.error);
    } else if kind == 3 {
      var p := DecodePublish(body, flags);
      r := if p.Success? then Success(Publishing(p.value)) else Failure(p.error);
    } else if kind == 8 {
      var s := DecodeSubscribe(body);
      r := if s.Success? then Success(Subscribing(s.value)) else Failure(s.error);
    } else if kind == 2 {
      var sessionPresent := |body| > 0 && body[0] % 2 == 1;
      r := if |body| < 2 then Failure(Truncated("CONNACK", "return code"))
           else Success(ConnAck(sessionPresent, body[1]));
    } else if kind == 4 {
      var id := DecodePacketId(body, "PUBACK");
      r := if id.Success? then Success(PubAck(id.value)) else Failure(id.error);
    } else if kind == 9 {
      var id := DecodePacketId(body, "SUBACK");
      r := if id.Success? then Success(SubAck(id.value, body[2..])) else Failure(id.error);
    } else if kind == 12 || kind == 13 || kind == 14 {
      r := Success(if kind == 12 then PingReq else if kind == 13 then PingResp else Disconnect);
    } else {
      r := Failure(UnsupportedType(kind));
    }
  }

  method DecodePacketId(body: Octets, packet: string) returns (r: Result<Word, CodecError>)
    ensures r == if ReadWord(body).Got? then Success(ReadWord(body).value)
                 else Failure(Truncated(packet, "packet identifier"))
  {
    var reader := new Reader(body);
    var id := reader.U16();
    r := if id.Some? then Success(id.value) else Failure(Truncated(packet, "packet identifier"));
  }

  /** `ConnectFlags::of`: the bits are set one at a time. */
  method ConnectFlagsOf(c: Connect) returns (bits: Octet)
    ensures bits == ConnectFlags(c)
  {
    var b: nat := 0;
    if c.username.Some? {
      b := b + USERNAME;
    }
    if c.password.Some? {
      b := b + PASSWORD;
    }
    if c.cleanSession {
      b := b + CLEAN_SESSION;
    }
    if c.will.Some? {
      b := b + WILL + c.will.value.qos.Bits() * WILL_QOS;
      if c.will.value.retain {
        b := b + WILL_RETAIN;
      }
    }
    bits := b;
  }

  /** Appends each optional field that is present, in the order in which `ReadPayload` reads them. */
  method EncodePayload(writer: Writer, c: Connect)
    modifies writer
    ensures writer.buf ==
            old(writer.buf) + (WillOctets(c.will) + (OptionalField(c.username) + OptionalField(c.password)))
  {
    if c.will.Some? {
      writer.Field(c.will.value.topic);
      writer.Field(c.will.value.payload);
    }
    assert writer.buf == old(writer.buf) + WillOctets(c.will);
    if c.username.Some? {
      writer.Field(c.username.value);
    }
    assert writer.buf == old(writer.buf) + WillOctets(c.will) + OptionalField(c.username);
    if c.password.Some? {
      writer.Field(c.password.value);
    }
    assert writer.buf ==
           old(writer.buf) + WillOctets(c.will) + OptionalField(c.username) + OptionalField(c.password);
  }

  lemma Regroup(a: Octets, b: Octets, c: Octets)
    ensures (a + b) + c == a + (b + c)
  {}

  method EncodeConnect(c: Connect) returns (body: Octets)
    ensures body == ConnectBody(c)
  {
    var flags := ConnectFlagsOf(c);
    ghost var s4 := WillOctets(c.will) + (OptionalField(c.username) + OptionalField(c.password));
    ghost var s3 := FieldOctets(c.clientId) + s4;
    ghost var s2 := WordOctets(c.keepalive) + s3;
    ghost var s1 := [flags] + s2;
    var name := PROTOCOL_NAME;
    var writer := new Writer();
    writer.Field(name);
    Regroup(writer.buf, [c.protocolLevel], s1);
    writer.U8(c.protocolLevel);
    Regroup(writer.buf, [flags], s2);
    writer.U8(flags);
    Regroup(writer.buf, WordOctets(c.keepalive), s3);
    writer.U16(c.keepalive);
    Regroup(writer.buf, FieldOctets(c.clientId), s4);
    writer.Field(c.clientId);
    EncodePayload(writer, c);
    body := writer.buf;
    assert body == FieldOctets(name) + ([c.protocolLevel] + s1);
  }

  method EncodePublish(p: Publish) returns (body: Octets)
    ensures body == PublishBody(p)
  {
    var writer := new Writer();
    writer.Field(p.topic);
    if p.qos != AtMostOnce {
      writer.U16(if p.packetId.Some? then p.packetId.value else 1);
    }
    writer.Raw(p.payload);
    body := writer.buf;
  }

  method EncodeSubscribe(s: Subscribe) returns (body: Octets)
    ensures body == SubscribeBody(s)
  {
    var writer := new Writer();
    writer.U16(s.packetId);
    for i := 0 to |s.filters|
      invariant fresh(writer)
      invariant writer.buf + FilterOctets(s.filters[i..]) == SubscribeBody(s)
    {
      assert s.filters[i..][1..] == s.filters[i + 1..];
      writer.Field(s.filters[i].0);
      writer.U8(s.filters[i].1);
    }
    assert s.filters[|s.filters|..] == [];
    body := writer.buf;
  }

  method EncodeAcknowledgement(id: Word, granted: Octets) returns (body: Octets)
    ensures body == WordOctets(id) + granted
  {
    var writer := new Writer();
    writer.U16(id);
    writer.Raw(granted);
    body := writer.buf;
  }

  method EncodeBody(p: Packet) returns (body: Octets)
    ensures body == Body(p)
  {
    hide ConnectBody, PublishBody, SubscribeBody, WordOctets;
    match p {
      case Connecting(c) => body := EncodeConnect(c);
      case Publishing(publish) => body := EncodePublish(publish);
      case Subscribing(s) => body := EncodeSubscribe(s);
      case ConnAck(sessionPresent, code) => body := [if sessionPresent then 1 else 0, code];
      case PubAck(id) =>
        body := EncodeAcknowledgement(id, []);
        assert body == WordOctets(id);
      case SubAck(id, granted) => body := EncodeAcknowledgement(id, granted);
      case _ => body := [];
    }
  }

  method EncodePacket(p: Packet) returns (r: Result<Octets, CodecError>)
    ensures r == Encode(p)
  {
    hide Body, VarintOctets;
    var body := EncodeBody(p);
    if |body| > MAX_REMAINING_LEN {
      return Failure(TooLong(|body|));
    }
    var out := new Writer();
    out.U8(FirstOctet(p));
    out.Varint(|body|);
    out.Raw(body);
    assert out.buf == [FirstOctet(p)] + (VarintOctets(|body|) + body);
    r := Success(out.buf);
  }
}
