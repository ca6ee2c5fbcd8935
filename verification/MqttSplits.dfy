/** Which streams every split into reads delivers alike (src/mqtt.rs:1094-1117), and one that none of this holds
  * for. */
module MqttSplits {
  import opened Prelude
  import opened MqttOctets
  import opened MqttPacket
  import opened MqttCodec
  import opened MqttStream

  /** At every packet boundary, either the limit leaves room to decide the packet, or the stream ends with the very
    * octet that goes over it. */
  predicate Uniform(side: Side, limit: nat, s: Octets)
    decreases |s|
  {
    if !Decided(side, limit, s) then |s| == limit + 1
    else
      match DecodeFor(side, s)
      case Good(_, used) => DecodeForConsumes(side, s); Uniform(side, limit, s[used..])
      case _ => true
  }

  /** The stream in one piece, with its end where the limit puts it. */
  function Limited(side: Side, limit: nat, s: Octets): Transcript
    decreases |s|
  {
    if !Decided(side, limit, s) then Transcript([], TooLarge(limit + 1))
    else
      match DecodeFor(side, s)
      case Good(p, used) => DecodeForConsumes(side, s); Cons(p, Limited(side, limit, s[used..]))
      case Bad(e) => Transcript([], CodecFailed(e))
      case NeedMore => Transcript([], Closed)
  }

  /** Nothing decides a packet that more octets leave undecided. */
  lemma UndecidedBefore(side: Side, s: Octets, more: Octets)
    requires DecodeFor(side, s + more) == NeedMore
    ensures DecodeFor(side, s) == NeedMore
  {
    hide DecodeFor;
    if DecodeFor(side, s) != NeedMore {
      DecodeForStable(side, s, more);
    }
  }

  lemma {:induction false} NextIsTooLarge(side: Side, limit: nat, f: Framer)
    requires |f.Pending()| == limit + 1 && DecodeFor(side, f.Pending()) == NeedMore
    ensures Next(side, limit, f, Patient(f)).0 == TooLarge(limit + 1)
    decreases |f.arrivals|
  {
    hide DecodeFor;
    UndecidedBefore(side, f.buf, Joined(f.arrivals));
    if |f.buf| <= limit {
      assert f.arrivals == [] ==> f.Pending() == f.buf;
      JoinedHead(f);
      NextIsTooLarge(side, limit, Framer(f.buf + f.arrivals[0], f.arrivals[1..]));
    }
  }

  lemma {:induction false} SessionIsLimited(side: Side, limit: nat, f: Framer)
    requires Uniform(side, limit, f.Pending())
    ensures Session(side, limit, f) == Limited(side, limit, f.Pending())
    decreases |f.Pending()|
  {
    hide DecodeFor;
    if !Decided(side, limit, f.Pending()) {
      assert f.Pending()[..limit + 1] == f.Pending();
      NextIsTooLarge(side, limit, f);
    } else {
      NextIsDecode(side, limit, f);
      NextConserves(side, limit, f, Patient(f));
      var (outcome, g) := Next(side, limit, f, Patient(f));
      if outcome.Delivered? {
        SessionIsLimited(side, limit, g);
      }
    }
  }

  // ------------------------------------------------------------------ two splits that differ

  lemma {:induction false} SinglyJoin(a: Octets, c: Octets)
    ensures Singly(a + c) == Singly(a) + Singly(c)
  {
    if a == [] {
      assert a + c == c;
    } else {
      assert (a + c)[1..] == a[1..] + c;
      SinglyJoin(a[1..], c);
    }
  }

  lemma {:induction false} JoinedJoin(a: seq<Octets>, c: seq<Octets>)
    ensures Joined(a + c) == Joined(a) + Joined(c)
  {
    if a == [] {
      assert a + c == c;
    } else {
      assert (a + c)[1..] == a[1..] + c;
      JoinedJoin(a[1..], c);
    }
  }

  /** Octets that decide nothing until the last of them are read one by one into the buffer. */
  lemma {:induction false} ReadsSingly(side: Side, limit: nat, buf: Octets, t: Octets, rest: seq<Octets>)
    requires t != [] ==> |buf| + |t| <= limit + 1 && DecodeFor(side, buf + t[..|t| - 1]) == NeedMore
    ensures Session(side, limit, Framer(buf, Singly(t) + rest)) == Session(side, limit, Framer(buf + t, rest))
    decreases |t|
  {
    hide DecodeFor, Session;
    if t == [] {
      assert buf + t == buf && Singly(t) + rest == rest;
    } else {
      UndecidedBefore(side, buf, t[..|t| - 1]);
      assert Singly(t) == [[t[0]]] + Singly(t[1..]);
      hide Singly;
      var f := Framer(buf, Singly(t) + rest);
      SessionReads(side, limit, f);
      assert f.arrivals[0] == [t[0]] && f.arrivals[1..] == Singly(t[1..]) + rest;
      if |t| > 1 {
        assert buf + t[..|t| - 1] == (buf + [t[0]]) + t[1..][..|t| - 2];
      }
      ReadsSingly(side, limit, buf + [t[0]], t[1..], rest);
      assert (buf + [t[0]]) + t[1..] == buf + t;
    }
  }

  lemma DeliversBuffered(side: Side, limit: nat, buf: Octets, rest: seq<Octets>)
    requires DecodeFor(side, buf).Good? && DecodeFor(side, buf).used == |buf|
    ensures Session(side, limit, Framer(buf, rest)) ==
            Cons(DecodeFor(side, buf).packet, Session(side, limit, Framer([], rest)))
  {
    hide DecodeFor;
    assert buf[|buf|..] == [];
  }

  lemma DecodeForCut(side: Side, s: Octets)
    requires DecodeFor(side, s).Good?
    ensures 2 <= DecodeFor(side, s).used <= |s|
    ensures var used := DecodeFor(side, s).used;
            DecodeFor(side, s[..used]) == DecodeFor(side, s) && DecodeFor(side, s[..used - 1]) == NeedMore
  {
    hide Decode;
    DecodeForConsumes(side, s);
    var used := DecodeFor(side, s).used;
    DecodeCut(s, used - 1);
    PacketInFull(s, used);
  }

  lemma FrameInFull(s: Octets)
    requires Frame(s).Framed?
    ensures var total := Frame(s).total; total <= |s| && Frame(s[..total]) == Frame(s)
  {
    var total := Frame(s).total;
    var length := s[1..][..total - 1];
    assert s[..total][1..] == length && length + s[1..][total - 1..] == s[1..];
    VarintNotShort(s[1..], total - 1, 4);
    VarintStable(length, s[1..][total - 1..], 4);
    hide ReadVarint;
    var used := ReadVarint(s[1..], 4).used;
    assert s[..total][1 + used..total] == s[1 + used..total];
  }

  /** A packet is decided by its own octets. */
  lemma PacketInFull(s: Octets, used: nat)
    requires Decode(s).Good? && Decode(s).used == used && used <= |s|
    ensures Decode(s[..used]) == Decode(s)
  {
    hide Frame, ReadBody;
    FrameInFull(s);
  }

  /** A packet decided within the limit is at most one octet over it. */
  lemma GoodWithin(side: Side, limit: nat, s: Octets)
    requires Decided(side, limit, s) && DecodeFor(side, s).Good?
    ensures DecodeFor(side, s).used <= limit + 1
  {
    hide DecodeFor;
    DecodeForConsumes(side, s);
    if |s| > limit {
      assert s[..limit + 1] + s[limit + 1..] == s;
      DecodeForStable(side, s[..limit + 1], s[limit + 1..]);
      DecodeForConsumes(side, s[..limit + 1]);
    }
  }

  /** A packet read one octet at a time is delivered as soon as it is whole, and leaves an empty buffer. */
  lemma DeliversSingly(side: Side, limit: nat, s: Octets, rest: seq<Octets>)
    requires Decided(side, limit, s) && DecodeFor(side, s).Good?
    ensures var used := DecodeFor(side, s).used;
            && used <= |s|
            && Session(side, limit, Framer([], Singly(s[..used]) + rest)) ==
               Cons(DecodeFor(side, s).packet, Session(side, limit, Framer([], rest)))
  {
    DecodeForCut(side, s);
    var used := DecodeFor(side, s).used;
    hide DecodeFor, Session;
    GoodWithin(side, limit, s);
    hide Decided, Singly;
    assert [] + s[..used][..used - 1] == s[..used - 1] && [] + s[..used] == s[..used];
    ReadsSingly(side, limit, [], s[..used], rest);
    DeliversBuffered(side, limit, s[..used], rest);
  }

  /** The split that reads one octet at a time until a packet is about to go over the limit, and then two. */
  function Twice(side: Side, limit: nat, s: Octets): seq<Octets>
    requires !Uniform(side, limit, s)
    decreases |s|
  {
    if !Decided(side, limit, s) then
      Singly(s[..limit]) + ([s[limit..if |s| > limit + 1 then limit + 2 else |s|]]
                            + Singly(s[if |s| > limit + 1 then limit + 2 else |s|..]))
    else
      DecodeForConsumes(side, s);
      var used := DecodeFor(side, s).used;
      Singly(s[..used]) + Twice(side, limit, s[used..])
  }

  lemma PairJoins(a: Octets, pair: Octets, c: Octets)
    requires 1 <= |pair| <= CHUNK
    ensures var split := Singly(a) + ([pair] + Singly(c)); Joined(split) == a + pair + c && Transport(split)
  {
    SinglyJoins(a);
    SinglyJoins(c);
    JoinedJoin(Singly(a), [pair] + Singly(c));
    assert ([pair] + Singly(c))[1..] == Singly(c);
    hide Singly;
    assert a + (pair + c) == a + pair + c;
  }

  lemma {:induction false} TwiceJoins(side: Side, limit: nat, s: Octets)
    requires !Uniform(side, limit, s)
    ensures Joined(Twice(side, limit, s)) == s && Transport(Twice(side, limit, s))
    decreases |s|
  {
    hide DecodeFor, Joined, Singly;
    if !Decided(side, limit, s) {
      PairJoins(s[..limit], s[limit..limit + 2], s[limit + 2..]);
      assert s[..limit] + s[limit..limit + 2] + s[limit + 2..] == s;
    } else {
      DecodeForConsumes(side, s);
      var used := DecodeFor(side, s).used;
      SinglyJoins(s[..used]);
      TwiceJoins(side, limit, s[used..]);
      JoinedJoin(Singly(s[..used]), Twice(side, limit, s[used..]));
      assert s[..used] + s[used..] == s;
    }
  }

  lemma ConsDiffers(p: Packet, a: Transcript, b: Transcript)
    requires a != b
    ensures Cons(p, a) != Cons(p, b)
  {
    assert Cons(p, a).packets[1..] == a.packets && Cons(p, b).packets[1..] == b.packets;
  }

  lemma {:induction false} TwiceDiffers(side: Side, limit: nat, s: Octets)
    requires !Uniform(side, limit, s)
    ensures Session(side, limit, Framer([], Twice(side, limit, s))) != Session(side, limit, Framer([], Singly(s)))
    decreases |s|
  {
    hide DecodeFor, Session;
    if !Decided(side, limit, s) {
      OverTheLimit(side, limit, s);
    } else {
      DecodeForConsumes(side, s);
      var used := DecodeFor(side, s).used;
      DeliversSingly(side, limit, s, Twice(side, limit, s[used..]));
      DeliversSingly(side, limit, s, Singly(s[used..]));
      SinglyJoin(s[..used], s[used..]);
      assert s[..used] + s[used..] == s;
      TwiceDiffers(side, limit, s[used..]);
      ConsDiffers(DecodeFor(side, s).packet, Session(side, limit, Framer([], Twice(side, limit, s[used..]))),
                  Session(side, limit, Framer([], Singly(s[used..]))));
    }
  }

  /** With at least two octets over the limit, the size error comes at one octet over it or not at all. */
  lemma OverTheLimit(side: Side, limit: nat, s: Octets)
    requires !Decided(side, limit, s) && |s| > limit + 1
    ensures Session(side, limit, Framer([], Singly(s))) == Transcript([], TooLarge(limit + 1))
    ensures Session(side, limit, Framer([], Twice(side, limit, s))) != Transcript([], TooLarge(limit + 1))
  {
    hide DecodeFor, Session;
    var head, pair, rest := s[..limit], s[limit..limit + 2], s[limit + 2..];
    assert [] + s[..limit + 1] == s[..limit + 1] && [] + head == head;
    assert head + s[limit..limit + 1] == s[..limit + 1];
    UndecidedBefore(side, head, s[limit..limit + 1]);
    assert [] + s[..limit + 1][..limit] == head;
    ReadsSingly(side, limit, [], s[..limit + 1], Singly(s[limit + 1..]));
    SinglyJoin(s[..limit + 1], s[limit + 1..]);
    assert s[..limit + 1] + s[limit + 1..] == s;
    GivesUp(side, limit, s[..limit + 1], Singly(s[limit + 1..]));
    if limit > 0 {
      assert head == head[..limit - 1] + head[limit - 1..];
      UndecidedBefore(side, head[..limit - 1], head[limit - 1..]);
      assert [] + head[..limit - 1] == head[..limit - 1];
    }
    ReadsSingly(side, limit, [], head, [pair] + Singly(rest));
    SessionReads(side, limit, Framer(head, [pair] + Singly(rest)));
    assert ([pair] + Singly(rest))[1..] == Singly(rest);
    TwoOver(side, limit, head + pair, Singly(rest));
  }

  lemma GivesUp(side: Side, limit: nat, buf: Octets, rest: seq<Octets>)
    requires DecodeFor(side, buf) == NeedMore && |buf| > limit
    ensures Session(side, limit, Framer(buf, rest)) == Transcript([], TooLarge(|buf|))
  {
    hide DecodeFor;
  }

  lemma TwoOver(side: Side, limit: nat, buf: Octets, rest: seq<Octets>)
    requires |buf| == limit + 2
    ensures Session(side, limit, Framer(buf, rest)) != Transcript([], TooLarge(limit + 1))
  {
    hide DecodeFor;
  }

  /** All splits of a stream into reads are delivered alike exactly when, at every packet boundary, the limit leaves
    * room to decide the packet or the stream ends with the octet that goes over it. */
  lemma SplitsAgreeExactly(side: Side, limit: nat, s: Octets)
    ensures (forall a, b :: Transport(a) && Transport(b) && Joined(a) == s && Joined(b) == s ==>
              Session(side, limit, Framer([], a)) == Session(side, limit, Framer([], b)))
            <==> Uniform(side, limit, s)
  {
    hide Session, DecodeFor, Decided, Uniform, Transport, Joined;
    if Uniform(side, limit, s) {
      forall a | Joined(a) == s
        ensures Session(side, limit, Framer([], a)) == Limited(side, limit, s)
      {
        assert Framer([], a).Pending() == s;
        SessionIsLimited(side, limit, Framer([], a));
      }
    } else {
      SinglyJoins(s);
      TwiceJoins(side, limit, s);
      TwiceDiffers(side, limit, s);
    }
  }

  // ------------------------------------------------------------------ one stream whose splits differ

  /** A packet of two octets over the limit is delivered when it comes in one read, and refused when it comes octet
    * by octet. */
  lemma TwoOverTheLimit(p: Packet, limit: nat)
    requires WellFormed(p) && Encode(p).Success? && |Encode(p).value| == limit + 2 <= CHUNK
    ensures var s := Encode(p).value;
            && Session(AnyPeer, limit, Framer([], [s])) == Transcript([p], Closed)
            && Session(AnyPeer, limit, Framer([], Singly(s))) == Transcript([], TooLarge(limit + 1))
  {
    hide Encode, Session;
    var s := Encode(p).value;
    RoundTrip(p, []);
    assert s + [] == s;
    DecodeCut(s, limit + 1);
    OverTheLimit(AnyPeer, limit, s);
    InOneRead(AnyPeer, limit, s);
  }

  lemma InOneRead(side: Side, limit: nat, s: Octets)
    requires DecodeFor(side, s).Good? && DecodeFor(side, s).used == |s|
    ensures Session(side, limit, Framer([], [s])) == Transcript([DecodeFor(side, s).packet], Closed)
  {
    assert DecodeFor(side, []) == NeedMore;
    SessionReads(side, limit, Framer([], [s]));
    assert [] + s == s;
    DeliversBuffered(side, limit, s, []);
  }

  /** A PUBLISH of 18 octets under a limit of 16. */
  const Eighteen := Publishing(Publish([0x61], AtMostOnce, false, false, None, seq(13, _ => 0)))

  lemma EighteenUnderSixteen()
    ensures Encode(Eighteen).Success?
    ensures var s := Encode(Eighteen).value;
            && Session(AnyPeer, 16, Framer([], [s])) == Transcript([Eighteen], Closed)
            && Session(AnyPeer, 16, Framer([], Singly(s))) == Transcript([], TooLarge(17))
  {
    assert VarintOctets(16) == [16];
    assert |PublishBody(Eighteen.publish)| == 16;
    hide Session;
    TwoOverTheLimit(Eighteen, 16);
  }
}
