/** What the codec promises: round trips with any tail, stability under appending, and a normal form for
  * everything the decoder accepts. */
module MqttCodec {
  import opened Prelude
  import opened MqttOctets
  import opened MqttPacket

  // ------------------------------------------------------------------ encode, then decode

  /** The flags octet says what the fields say. */
  lemma ConnectFlagsRoundTrip(c: Connect)
    ensures var f := ConnectFlags(c);
            && Has(f, USERNAME) == c.username.Some?
            && Has(f, PASSWORD) == c.password.Some?
            && Has(f, CLEAN_SESSION) == c.cleanSession
            && Has(f, WILL) == c.will.Some?
            && (c.will.Some? ==>
                  && Has(f, WILL_RETAIN) == c.will.value.retain
                  && QosOf(f / WILL_QOS % 4) == Success(c.will.value.qos))
  {}

  lemma TextRoundTrip(v: Octets, rest: Octets, field: string)
    requires TextField(v)
    ensures ReadText(FieldOctets(v) + rest, field) == Success((v, rest))
  {
    FieldRoundTrip(v, rest);
  }

  lemma WillRoundTrip(c: Connect, rest: Octets)
    requires WellFormedConnect(c)
    ensures ReadWill(WillOctets(c.will) + rest, ConnectFlags(c)) == Success((c.will, rest))
  {
    ConnectFlagsRoundTrip(c);
    match c.will
    case None => assert [] + rest == rest;
    case Some(w) =>
      assert WillOctets(c.will) + rest == FieldOctets(w.topic) + (FieldOctets(w.payload) + rest);
      TextRoundTrip(w.topic, FieldOctets(w.payload) + rest, "will topic");
      FieldRoundTrip(w.payload, rest);
  }

  lemma UsernameRoundTrip(c: Connect, rest: Octets)
    requires WellFormedConnect(c)
    ensures ReadUsername(OptionalField(c.username) + rest, ConnectFlags(c)) == Success((c.username, rest))
  {
    ConnectFlagsRoundTrip(c);
    match c.username
    case None => assert [] + rest == rest;
    case Some(name) => TextRoundTrip(name, rest, "username");
  }

  lemma PasswordRoundTrip(c: Connect)
    requires WellFormedConnect(c)
    ensures ReadPassword(OptionalField(c.password), ConnectFlags(c)) == Success(c.password)
  {
    ConnectFlagsRoundTrip(c);
    if c.password.Some? {
      FieldRoundTrip(c.password.value, []);
      assert FieldOctets(c.password.value) + [] == FieldOctets(c.password.value);
    }
  }

  lemma ConnectRoundTrip(c: Connect)
    requires WellFormedConnect(c)
    ensures ReadConnect(ConnectBody(c)) == Success(c)
  {
    var s6 := OptionalField(c.password);
    var s5 := OptionalField(c.username) + s6;
    var s4 := WillOctets(c.will) + s5;
    var s3 := FieldOctets(c.clientId) + s4;
    var s2 := WordOctets(c.keepalive) + s3;
    var s1 := [ConnectFlags(c)] + s2;
    var s0 := [c.protocolLevel] + s1;
    assert ReadName(FieldOctets(PROTOCOL_NAME) + s0) == Success(s0) by {
      FieldRoundTrip(PROTOCOL_NAME, s0);
      NameIsText();
    }
    assert ReadOctet(s0) == Got(c.protocolLevel, s1);
    assert ReadOctet(s1) == Got(ConnectFlags(c), s2);
    WordRoundTrip(c.keepalive, s3);
    PayloadRoundTrip(c);
  }

  lemma PayloadRoundTrip(c: Connect)
    requires WellFormedConnect(c)
    ensures ReadPayload(
              FieldOctets(c.clientId) + (WillOctets(c.will) + (OptionalField(c.username) + OptionalField(c.password))),
              c.protocolLevel, ConnectFlags(c), c.keepalive) == Success(c)
  {
    var s6 := OptionalField(c.password);
    var s5 := OptionalField(c.username) + s6;
    var s4 := WillOctets(c.will) + s5;
    TextRoundTrip(c.clientId, s4, "client identifier");
    WillRoundTrip(c, s5);
    UsernameRoundTrip(c, s6);
    PasswordRoundTrip(c);
    ConnectFlagsRoundTrip(c);
  }

  lemma NameIsText()
    ensures IsUtf8(PROTOCOL_NAME)
  {
    assert PROTOCOL_NAME[1..] == [0x51, 0x54, 0x54];
    assert PROTOCOL_NAME[1..][1..] == [0x54, 0x54];
    assert PROTOCOL_NAME[1..][1..][1..] == [0x54];
    assert PROTOCOL_NAME[1..][1..][1..][1..] == [];
  }

  lemma PublishRoundTrip(p: Publish)
    requires WellFormed(Publishing(p))
    ensures ReadPublish(PublishBody(p), PublishFlags(p)) == Success(p)
  {
    assert QosOf(PublishFlags(p) / PUBLISH_QOS % 4) == Success(p.qos);
    assert Has(PublishFlags(p), RETAIN) == p.retain && Has(PublishFlags(p), DUP) == p.dup;
    hide PublishFlags, Has, IsUtf8;
    TextRoundTrip(p.topic, PacketIdOctets(p) + p.payload, "topic");
    if p.qos.AtMostOnce? {
      assert [] + p.payload == p.payload;
    } else {
      WordRoundTrip(p.packetId.value, p.payload);
    }
  }

  lemma FilterRoundTrip(f: (Octets, Octet), rest: Octets)
    requires TextField(f.0)
    ensures FieldOctets(f.0) + ([f.1] + rest) != []
    ensures ReadFilter(FieldOctets(f.0) + ([f.1] + rest)) == Success((f, rest))
  {
    TextRoundTrip(f.0, [f.1] + rest, "topic filter");
    assert ReadOctet([f.1] + rest) == Got(f.1, rest);
  }

  lemma {:induction false} FiltersRoundTrip(filters: seq<(Octets, Octet)>)
    requires forall i :: 0 <= i < |filters| ==> TextField(filters[i].0)
    ensures ReadFilters(FilterOctets(filters)) == Success(filters)
  {
    if filters != [] {
      assert TextField(filters[0].0);
      hide ReadFilters, FieldOctets, TextField;
      FiltersRoundTrip(filters[1..]);
      OneMoreFilter(filters[0], FilterOctets(filters[1..]), filters[1..]);
      assert filters == [filters[0]] + filters[1..];
    }
  }

  lemma OneMoreFilter(f: (Octets, Octet), rest: Octets, more: seq<(Octets, Octet)>)
    requires TextField(f.0) && ReadFilters(rest) == Success(more)
    ensures ReadFilters(FieldOctets(f.0) + ([f.1] + rest)) == Success([f] + more)
  {
    FilterRoundTrip(f, rest);
    hide ReadFilter, FieldOctets, TextField;
  }

  lemma BodyRoundTrip(p: Packet)
    requires WellFormed(p)
    ensures ReadBody(FirstOctet(p) / 0x10, FirstOctet(p) % 0x10, Body(p)) == Success(p)
  {
    hide ReadConnect, ConnectBody, ReadPublish, PublishBody, ReadFilters, FilterOctets, WellFormedConnect, IsUtf8;
    match p
    case Connecting(c) => ConnectRoundTrip(c);
    case Publishing(publish) => PublishRoundTrip(publish);
    case PubAck(id) =>
      WordRoundTrip(id, []);
      assert WordOctets(id) + [] == WordOctets(id);
    case Subscribing(s) =>
      WordRoundTrip(s.packetId, FilterOctets(s.filters));
      FiltersRoundTrip(s.filters);
    case SubAck(id, granted) => WordRoundTrip(id, granted);
    case _ =>
  }

  /** How an encoded packet, with anything after it, is framed. */
  lemma FrameRoundTrip(first: Octet, body: Octets, rest: Octets)
    requires |body| <= MAX_REMAINING_LEN
    ensures var wire := [first] + (VarintOctets(|body|) + body);
            Frame(wire + rest) == Framed(first, body, |wire|)
  {
    var length := VarintOctets(|body|);
    var buf := [first] + (length + body) + rest;
    assert buf[1..] == length + (body + rest);
    CapacityOfFour();
    VarintRoundTrip(|body|, 4, body + rest);
    assert buf[1 + |length|..1 + |length| + |body|] == body;
  }

  lemma CapacityOfFour()
    ensures Capacity(4) == MAX_REMAINING_LEN + 1
  {
    CapacityGrows(0);
    CapacityGrows(1);
    CapacityGrows(2);
    CapacityGrows(3);
  }

  lemma CapacityGrows(k: nat)
    ensures Capacity(0) == 1 && Capacity(k + 1) == 128 * Capacity(k)
  {}

  /** A well-formed packet survives the wire, whatever follows it. */
  lemma RoundTrip(p: Packet, rest: Octets)
    requires WellFormed(p) && Encode(p).Success?
    ensures Decode(Encode(p).value + rest) == Good(p, |Encode(p).value|)
  {
    BodyRoundTrip(p);
    FrameRoundTrip(FirstOctet(p), Body(p), rest);
  }

  // ------------------------------------------------------------------ decode on arbitrary octets

  lemma FrameConsumes(buf: Octets)
    requires Frame(buf).Framed?
    ensures var f := Frame(buf);
            2 <= f.total <= |buf| && |f.body| <= MAX_REMAINING_LEN && |f.body| + 2 <= f.total <= |f.body| + 5
  {
    VarintBounded(buf[1..], 4);
    CapacityOfFour();
  }

  lemma FrameStable(buf: Octets, more: Octets)
    requires Frame(buf) != Partial
    ensures Frame(buf + more) == Frame(buf)
  {
    VarintStable(buf[1..], more, 4);
    assert (buf + more)[1..] == buf[1..] + more;
    match ReadVarint(buf[1..], 4)
    case Complete(remaining, used) =>
      assert (buf + more)[1 + used..1 + used + remaining] == buf[1 + used..1 + used + remaining];
    case _ =>
  }

  /** Cut anywhere inside its total, a frame is partial. */
  lemma FrameCut(buf: Octets, k: nat)
    requires Frame(buf).Framed? && k < Frame(buf).total
    ensures k <= |buf| && Frame(buf[..k]) == Partial
  {
    FrameConsumes(buf);
    if k > 0 {
      var used := ReadVarint(buf[1..], 4).used;
      var cut := buf[1..][..k - 1];
      assert buf[..k][1..] == cut;
      if k - 1 < used {
        VarintCut(buf[1..], k - 1, 4);
      } else {
        VarintNotShort(buf[1..], k - 1, 4);
        VarintStable(cut, buf[k..], 4);
        assert buf[1..] == cut + buf[k..];
      }
    }
  }

  /** A success consumes at least the fixed header and no more than the buffer holds. */
  lemma DecodeConsumes(buf: Octets)
    requires Decode(buf).Good?
    ensures 2 <= Decode(buf).used <= |buf|
  {
    FrameConsumes(buf);
  }

  /** Appending octets changes neither a packet nor an error. */
  lemma DecodeStable(buf: Octets, more: Octets)
    requires Decode(buf) != NeedMore
    ensures Decode(buf + more) == Decode(buf)
  {
    FrameStable(buf, more);
  }

  /** Cut anywhere inside a packet, the buffer asks for more. */
  lemma DecodeCut(buf: Octets, k: nat)
    requires Decode(buf).Good? && k < Decode(buf).used
    ensures k <= |buf| && Decode(buf[..k]) == NeedMore
  {
    FrameCut(buf, k);
  }

  lemma {:induction false} VarintNotShort(s: Octets, k: nat, left: nat)
    requires ReadVarint(s, left).Complete? && ReadVarint(s, left).used <= k <= |s|
    ensures ReadVarint(s[..k], left) != Incomplete
  {
    if s[0] >= 0x80 {
      VarintNotShort(s[1..], k - 1, left - 1);
      assert s[..k][1..] == s[1..][..k - 1];
    }
  }

  // ------------------------------------------------------------------ decode, then encode

  lemma TextRewrites(s: Octets, field: string)
    requires ReadText(s, field).Success?
    ensures var (v, rest) := ReadText(s, field).value; TextField(v) && s == FieldOctets(v) + rest
  {
    FieldRewrites(s);
  }

  lemma WordRewrites(s: Octets)
    requires ReadWord(s).Got?
    ensures s == WordOctets(ReadWord(s).value) + ReadWord(s).rest
  {
    assert WordOctets(ReadWord(s).value) == [s[0], s[1]];
  }

  lemma PublishFlagsRewrite(p: Publish, flags: Octet)
    requires flags < 0x10 && QosOf(flags / PUBLISH_QOS % 4) == Success(p.qos)
    requires p.retain == Has(flags, RETAIN) && p.dup == Has(flags, DUP)
    ensures PublishFlags(p) == flags
  {}

  /** A PUBLISH body and its flags are restored exactly. */
  lemma PublishRewrites(body: Octets, flags: Octet)
    requires flags < 0x10 && ReadPublish(body, flags).Success?
    ensures var p := ReadPublish(body, flags).value;
            WellFormed(Publishing(p)) && PublishBody(p) == body && PublishFlags(p) == flags
  {
    var p := ReadPublish(body, flags).value;
    PublishFlagsRewrite(p, flags);
    TextRewrites(body, "topic");
    var rest := ReadText(body, "topic").value.1;
    PacketIdRewrites(rest, p);
  }

  lemma PacketIdRewrites(s: Octets, p: Publish)
    requires ReadPacketId(s, p.qos) == Success((p.packetId, p.payload))
    ensures PacketIdOctets(p) + p.payload == s
    ensures p.packetId.Some? <==> p.qos.AtLeastOnce?
  {
    if p.qos.AtLeastOnce? {
      WordRewrites(s);
    }
  }

  lemma {:induction false} FiltersRewrite(s: Octets)
    requires ReadFilters(s).Success?
    ensures FilterOctets(ReadFilters(s).value) == s
    ensures forall i :: 0 <= i < |ReadFilters(s).value| ==> TextField(ReadFilters(s).value[i].0)
    decreases |s|
  {
    if s != [] {
      FilterRewrites(s);
      hide ReadFilter, FieldOctets, TextField;
      var (filter, rest) := ReadFilter(s).value;
      FiltersRewrite(rest);
      var more := ReadFilters(rest).value;
      assert ReadFilters(s).value == [filter] + more;
      assert ([filter] + more)[1..] == more;
    }
  }

  lemma FilterRewrites(s: Octets)
    requires ReadFilter(s).Success?
    ensures var (f, rest) := ReadFilter(s).value; TextField(f.0) && s == FieldOctets(f.0) + ([f.1] + rest)
  {
    FilterParts(s);
    var (v, s1) := ReadText(s, "topic filter").value;
    TextRewrites(s, "topic filter");
    hide ReadText, TextField, FieldOctets, ReadFilter;
    assert [s1[0]] + s1[1..] == s1;
  }

  lemma FilterParts(s: Octets)
    requires ReadFilter(s).Success?
    ensures ReadText(s, "topic filter").Success?
    ensures var (v, s1) := ReadText(s, "topic filter").value;
            s1 != [] && ReadFilter(s) == Success(((v, s1[0]), s1[1..]))
  {
    hide ReadText;
  }

  lemma FieldShort(s: Octets)
    ensures ReadField(s).Got? ==> ShortField(ReadField(s).value)
  {
    if ReadField(s).Got? {
      FieldRewrites(s);
    }
  }

  lemma TextsAreText(s: Octets, field: string)
    ensures ReadText(s, field).Success? ==> TextField(ReadText(s, field).value.0)
  {
    FieldShort(s);
  }

  lemma WillWellFormed(s: Octets, flags: Octet)
    ensures var r := ReadWill(s, flags);
            r.Success? && r.value.0.Some? ==> TextField(r.value.0.value.topic) && ShortField(r.value.0.value.payload)
  {
    hide ReadField, IsUtf8;
    if ReadWill(s, flags).Success? && Has(flags, WILL) {
      TextsAreText(s, "will topic");
      FieldShort(ReadText(s, "will topic").value.1);
    }
  }

  /** Whatever a CONNECT payload held, what was read from it is well-formed. */
  lemma PayloadWellFormed(s: Octets, level: Octet, flags: Octet, keepalive: Word)
    requires ReadPayload(s, level, flags, keepalive).Success?
    ensures WellFormedConnect(ReadPayload(s, level, flags, keepalive).value)
  {
    hide ReadText, ReadWill, ReadField, TextField, ShortField, Has;
    TextsAreText(s, "client identifier");
    var s1 := ReadText(s, "client identifier").value.1;
    WillWellFormed(s1, flags);
    var s2 := ReadWill(s1, flags).value.1;
    TextsAreText(s2, "username");
    FieldShort(ReadUsername(s2, flags).value.1);
  }

  lemma ConnectWellFormed(body: Octets)
    requires ReadConnect(body).Success?
    ensures WellFormedConnect(ReadConnect(body).value)
  {
    hide ReadPayload, WellFormedConnect;
    var s1 := ReadName(body).value;
    var s4 := ReadWord(s1[2..]).rest;
    PayloadWellFormed(s4, s1[0], s1[1], ReadWord(s1[2..]).value);
    assert s1[1..][1..] == s1[2..];
  }

  lemma ConnectBodyBounded(c: Connect)
    requires WellFormedConnect(c)
    ensures |ConnectBody(c)| <= MAX_REMAINING_LEN
  {}

  /** Every body the decoder accepts re-encodes: exactly, except that a CONNECT loses a foreign protocol name
    * and four types lose trailing octets or ignored bits. */
  lemma BodyNormalises(kind: Octet, flags: Octet, body: Octets)
    requires kind < 0x10 && flags < 0x10 && ReadBody(kind, flags, body).Success?
    ensures var p := ReadBody(kind, flags, body).value;
            && WellFormed(p)
            && FirstOctet(p) / 0x10 == kind
            && (|Body(p)| <= |body| || |Body(p)| <= MAX_REMAINING_LEN)
            && (kind in {3, 8, 9} ==> Body(p) == body)
            && (kind == 3 ==> FirstOctet(p) % 0x10 == flags)
  {
    match kind
    case 1 =>
      ConnectWellFormed(body);
      ConnectBodyBounded(ReadConnect(body).value);
    case 3 => PublishRewrites(body, flags);
    case 8 =>
      WordRewrites(body);
      FiltersRewrite(body[2..]);
    case 9 => WordRewrites(body);
    case _ =>
  }

  /** Whatever octets a packet was decoded from, it is well-formed, it encodes, and that encoding decodes to it
    * again: overlong varints, trailing octets and foreign protocol names all have one normal form. */
  lemma NormalForm(buf: Octets, rest: Octets)
    requires Decode(buf).Good?
    ensures var p := Decode(buf).packet;
            && WellFormed(p)
            && Encode(p).Success?
            && Decode(Encode(p).value + rest) == Good(p, |Encode(p).value|)
  {
    FrameConsumes(buf);
    var f := Frame(buf);
    BodyNormalises(f.first / 0x10, f.first % 0x10, f.body);
    RoundTrip(Decode(buf).packet, rest);
  }

  /** The round trip holds exactly for the well-formed packets. */
  lemma RoundTripExactly(p: Packet, rest: Octets)
    requires Encode(p).Success?
    ensures Decode(Encode(p).value + rest) == Good(p, |Encode(p).value|) <==> WellFormed(p)
  {
    if WellFormed(p) {
      RoundTrip(p, rest);
    } else if Decode(Encode(p).value + rest) == Good(p, |Encode(p).value|) {
      NormalForm(Encode(p).value + rest, []);
    }
  }
}
