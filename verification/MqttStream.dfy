/** Framing a stream into packets (src/mqtt.rs:1038-1153): where the reads fall does not matter, an abandoned
  * call loses nothing, and the buffer stays within its limit plus one read. */
module MqttStream {
  import opened Prelude
  import opened MqttOctets
  import opened MqttPacket
  import opened MqttCodec
  import opened MqttMethods

  /** The size of the chunk one read fills at most. */
  const CHUNK: nat := 4096

  /** Which of the two entry points is called: the general one, or the one for the device's own input. */
  datatype Side = AnyPeer | Device

  function DecodeFor(side: Side, buf: Octets): Decoded {
    match side
    case AnyPeer => Decode(buf)
    case Device => DecodeFromDevice(buf)
  }

  lemma DecodeForStable(side: Side, buf: Octets, more: Octets)
    requires DecodeFor(side, buf) != NeedMore
    ensures DecodeFor(side, buf + more) == DecodeFor(side, buf)
  {
    DecodeStable(buf, more);
  }

  lemma DecodeForConsumes(side: Side, buf: Octets)
    requires DecodeFor(side, buf).Good?
    ensures 2 <= DecodeFor(side, buf).used <= |buf|
  {
    DecodeConsumes(buf);
  }

  /** What one call of `next_packet` ends in. `Abandoned` and `ReadFailed` are the two ways to end at a read that
    * brought nothing: the caller dropped the call, or the transport failed. */
  datatype Outcome =
    | Delivered(packet: Packet)
    | Closed
    | CodecFailed(error: CodecError)
    | TooLarge(len: nat)
    | Abandoned
    | ReadFailed

  /** The framer's buffer and the reads its transport will still answer with. */
  datatype Framer = Framer(buf: Octets, arrivals: seq<Octets>) {
    /** Every octet not yet handed out, wherever it currently is. */
    function Pending(): Octets { buf + Joined(arrivals) }
  }

  function Joined(arrivals: seq<Octets>): Octets {
    if arrivals == [] then [] else arrivals[0] + Joined(arrivals[1..])
  }

  /** A transport answers with at least one octet and no more than was asked for, until it closes. */
  predicate Transport(arrivals: seq<Octets>) {
    forall i :: 0 <= i < |arrivals| ==> 1 <= |arrivals[i]| <= CHUNK
  }

  /** One call that is willing to wait for `patience` reads. */
  function Next(side: Side, limit: nat, f: Framer, patience: nat): (Outcome, Framer)
    decreases |f.arrivals|
  {
    match DecodeFor(side, f.buf)
    case Good(p, used) => DecodeForConsumes(side, f.buf); (Delivered(p), f.(buf := f.buf[used..]))
    case Bad(e) => (CodecFailed(e), f)
    case NeedMore =>
      if |f.buf| > limit then (TooLarge(|f.buf|), f)
      else if patience == 0 then (Abandoned, f)
      else if f.arrivals == [] then (Closed, f)
      else Next(side, limit, Framer(f.buf + f.arrivals[0], f.arrivals[1..]), patience - 1)
  }

  /** A call that waits as long as it takes. */
  function Patient(f: Framer): nat { |f.arrivals| + 1 }

  /** The framer over a transport, with the loop of `next_packet`. */
  class PacketStream {
    const limit: nat
    var buf: Octets
    var incoming: seq<Octets>

    constructor (limit: nat, incoming: seq<Octets>)
      ensures this.limit == limit && State() == Framer([], incoming)
    {
      this.limit := limit;
      buf, this.incoming := [], incoming;
    }

    function State(): Framer
      reads this
    {
      Framer(buf, incoming)
    }

    /** `patience` is how many reads bring something before one brings nothing, and `fails` says why that one
      * does. Either way the call ends as a dropped one does. */
    method NextPacket(side: Side, patience: nat, fails: bool) returns (outcome: Outcome)
      modifies this
      ensures var (ended, f) := Next(side, limit, old(State()), patience);
              outcome == (if ended.Abandoned? && fails then ReadFailed else ended) && State() == f
    {
      var waited := 0;
      while true
        invariant waited <= patience
        invariant Next(side, limit, State(), patience - waited) == Next(side, limit, old(State()), patience)
        decreases |incoming|
      {
        var decoded := DecodePacket(buf);
        if side == Device {
          decoded := match decoded
            case Good(ConnAck(_, _), _) => Bad(UnsupportedType(2))
            case Good(SubAck(_, _), _) => Bad(UnsupportedType(9))
            case Good(PingResp, _) => Bad(UnsupportedType(13))
            case other => other;
        }
        assert decoded == DecodeFor(side, buf);
        if decoded.Good? {
          DecodeForConsumes(side, buf);
          buf := buf[decoded.used..];
          return Delivered(decoded.packet);
        }
        if decoded.Bad? {
          return CodecFailed(decoded.error);
        }
        if |buf| > limit {
          return TooLarge(|buf|);
        }
        if waited == patience {
          return if fails then ReadFailed else Abandoned;
        }
        if incoming == [] {
          return Closed;
        }
        buf, incoming, waited := buf + incoming[0], incoming[1..], waited + 1;
      }
    }
  }

  // ------------------------------------------------------------------ whole sessions

  /** The packets a connection delivered and how it ended. */
  datatype Transcript = Transcript(packets: seq<Packet>, end: Outcome)

  function Cons(p: Packet, t: Transcript): Transcript { Transcript([p] + t.packets, t.end) }

  /** Calling `next_packet` until it stops delivering. */
  function Session(side: Side, limit: nat, f: Framer): Transcript
    decreases |f.Pending()|
  {
    match Next(side, limit, f, Patient(f))
    case (Delivered(p), rest) => NextConserves(side, limit, f, Patient(f)); Cons(p, Session(side, limit, rest))
    case (end, _) => Transcript([], end)
  }

  /** The same octets decoded in one piece: no reads, no limit. */
  function Reference(side: Side, s: Octets): Transcript
    decreases |s|
  {
    match DecodeFor(side, s)
    case Good(p, used) => DecodeForConsumes(side, s); Cons(p, Reference(side, s[used..]))
    case Bad(e) => Transcript([], CodecFailed(e))
    case NeedMore => Transcript([], Closed)
  }

  lemma JoinedHead(f: Framer)
    requires f.arrivals != []
    ensures Framer(f.buf + f.arrivals[0], f.arrivals[1..]).Pending() == f.Pending()
  {
    assert f.buf + f.arrivals[0] + Joined(f.arrivals[1..]) == f.buf + (f.arrivals[0] + Joined(f.arrivals[1..]));
  }

  /** Nothing but a delivered packet takes octets away, and a delivered packet takes exactly its own. */
  lemma {:induction false} NextConserves(side: Side, limit: nat, f: Framer, patience: nat)
    ensures var (outcome, g) := Next(side, limit, f, patience);
            if outcome.Delivered? then
              exists used :: 2 <= used <= |f.Pending()| && g.Pending() == f.Pending()[used..]
                             && DecodeFor(side, f.Pending()) == Good(outcome.packet, used)
            else g.Pending() == f.Pending()
    decreases |f.arrivals|
  {
    match DecodeFor(side, f.buf)
    case Good(p, used) =>
      DecodeForConsumes(side, f.buf);
      DecodeForStable(side, f.buf, Joined(f.arrivals));
      assert f.buf[used..] + Joined(f.arrivals) == f.Pending()[used..];
    case Bad(_) =>
    case NeedMore =>
      if |f.buf| <= limit && patience > 0 && f.arrivals != [] {
        JoinedHead(f);
        NextConserves(side, limit, Framer(f.buf + f.arrivals[0], f.arrivals[1..]), patience - 1);
      }
  }

  /** Abandoning a call loses no octets, and the next call goes on as if nothing had happened. */
  lemma {:induction false} AbandonLosesNothing(side: Side, limit: nat, f: Framer, patience: nat)
    requires Next(side, limit, f, patience).0 == Abandoned
    ensures var g := Next(side, limit, f, patience).1;
            g.Pending() == f.Pending() && Next(side, limit, g, Patient(g)) == Next(side, limit, f, Patient(f))
    decreases |f.arrivals|
  {
    hide DecodeFor;
    if patience > 0 {
      JoinedHead(f);
      AbandonLosesNothing(side, limit, Framer(f.buf + f.arrivals[0], f.arrivals[1..]), patience - 1);
    }
  }

  /** A whole schedule of calls, each abandoned after the number of reads given for it. */
  function Scheduled(side: Side, limit: nat, f: Framer, patience: seq<nat>): (seq<Packet>, Framer)
    decreases |patience|
  {
    if patience == [] then ([], f)
    else
      match Next(side, limit, f, patience[0])
      case (Delivered(p), g) =>
        var (more, h) := Scheduled(side, limit, g, patience[1..]);
        ([p] + more, h)
      case (Abandoned, g) => Scheduled(side, limit, g, patience[1..])
      case (_, g) => ([], g)
  }

  /** However calls are abandoned, what was delivered followed by what is still to come is the whole session. */
  lemma {:induction false} ScheduleInvisible(side: Side, limit: nat, f: Framer, patience: seq<nat>)
    ensures var (got, g) := Scheduled(side, limit, f, patience);
            var whole, rest := Session(side, limit, f), Session(side, limit, g);
            whole.packets == got + rest.packets && whole.end == rest.end
    decreases |patience|
  {
    if patience != [] {
      match Next(side, limit, f, patience[0])
      case (Delivered(p), g) =>
        MorePatience(side, limit, f, patience[0], Patient(f));
        ScheduleInvisible(side, limit, g, patience[1..]);
      case (Abandoned, g) =>
        AbandonLosesNothing(side, limit, f, patience[0]);
        ScheduleInvisible(side, limit, g, patience[1..]);
      case (_, g) =>
        MorePatience(side, limit, f, patience[0], Patient(f));
        EndRepeats(side, limit, f, patience[0]);
    }
  }

  /** A call that was not abandoned would have ended the same way with any other patience that is not less
    * than the reads there are. */
  lemma {:induction false} MorePatience(side: Side, limit: nat, f: Framer, patience: nat, more: nat)
    requires Next(side, limit, f, patience).0 != Abandoned && more > |f.arrivals|
    ensures Next(side, limit, f, more) == Next(side, limit, f, patience)
    decreases |f.arrivals|
  {
    hide DecodeFor;
    if DecodeFor(side, f.buf) == NeedMore && |f.buf| <= limit && f.arrivals != [] {
      MorePatience(side, limit, Framer(f.buf + f.arrivals[0], f.arrivals[1..]), patience - 1, more - 1);
    }
  }

  /** Asking again after the end gives the same end. */
  lemma {:induction false} EndRepeats(side: Side, limit: nat, f: Framer, patience: nat)
    requires var end := Next(side, limit, f, patience).0; !end.Delivered? && !end.Abandoned?
    ensures var (end, g) := Next(side, limit, f, patience); Next(side, limit, g, Patient(g)) == (end, g)
    decreases |f.arrivals|
  {
    hide DecodeFor;
    if DecodeFor(side, f.buf) == NeedMore && |f.buf| <= limit && f.arrivals != [] {
      EndRepeats(side, limit, Framer(f.buf + f.arrivals[0], f.arrivals[1..]), patience - 1);
    }
  }

  // ------------------------------------------------------------------ chunking does not matter

  /** The first `limit + 1` octets decide the leading packet, or there are not that many. */
  predicate Decided(side: Side, limit: nat, s: Octets) {
    |s| <= limit || DecodeFor(side, s[..limit + 1]) != NeedMore
  }

  /** `Decided` at every packet boundary. */
  predicate Fits(side: Side, limit: nat, s: Octets)
    decreases |s|
  {
    Decided(side, limit, s) &&
    match DecodeFor(side, s)
    case Good(_, used) => DecodeForConsumes(side, s); Fits(side, limit, s[used..])
    case _ => true
  }

  /** When the leading packet is decided within the limit, one call does what decoding everything at once
    * would do. */
  lemma {:induction false} NextIsDecode(side: Side, limit: nat, f: Framer)
    requires Decided(side, limit, f.Pending())
    ensures var (outcome, g) := Next(side, limit, f, Patient(f));
            match DecodeFor(side, f.Pending())
            case Good(p, used) =>
              && used <= |f.Pending()|
              && outcome == Delivered(p) && g.Pending() == f.Pending()[used..]
            case Bad(e) => outcome == CodecFailed(e)
            case NeedMore => outcome == Closed
    decreases |f.arrivals|
  {
    hide DecodeFor;
    match DecodeFor(side, f.buf)
    case Good(p, used) =>
      DecodeForConsumes(side, f.buf);
      DecodeForStable(side, f.buf, Joined(f.arrivals));
      assert f.buf[used..] + Joined(f.arrivals) == f.Pending()[used..];
    case Bad(_) => DecodeForStable(side, f.buf, Joined(f.arrivals));
    case NeedMore =>
      if |f.buf| > limit {
        assert f.Pending()[..limit + 1] + f.buf[limit + 1..] == f.buf;
        DecodeForStable(side, f.Pending()[..limit + 1], f.buf[limit + 1..]);
      } else if f.arrivals != [] {
        JoinedHead(f);
        NextIsDecode(side, limit, Framer(f.buf + f.arrivals[0], f.arrivals[1..]));
      } else {
        assert f.Pending() == f.buf;
      }
  }

  lemma {:induction false} SessionIsReference(side: Side, limit: nat, f: Framer)
    requires Fits(side, limit, f.Pending())
    ensures Session(side, limit, f) == Reference(side, f.Pending())
    decreases |f.Pending()|
  {
    NextIsDecode(side, limit, f);
    NextConserves(side, limit, f, Patient(f));
    var (outcome, g) := Next(side, limit, f, Patient(f));
    if outcome.Delivered? {
      SessionIsReference(side, limit, g);
    }
  }

  /** The slowest transport: one octet at a time. */
  function Singly(s: Octets): seq<Octets> {
    if s == [] then [] else [[s[0]]] + Singly(s[1..])
  }

  lemma {:induction false} SinglyJoins(s: Octets)
    ensures Joined(Singly(s)) == s && Transport(Singly(s))
  {
    if s != [] {
      SinglyJoins(s[1..]);
      assert Singly(s)[1..] == Singly(s[1..]);
    }
  }

  /** A read that is waited for belongs to the same session. */
  lemma SessionReads(side: Side, limit: nat, f: Framer)
    requires DecodeFor(side, f.buf) == NeedMore && |f.buf| <= limit && f.arrivals != []
    ensures Session(side, limit, f) == Session(side, limit, Framer(f.buf + f.arrivals[0], f.arrivals[1..]))
  {
    NextReads(side, limit, f);
    hide Next, DecodeFor;
  }

  lemma NextReads(side: Side, limit: nat, f: Framer)
    requires DecodeFor(side, f.buf) == NeedMore && |f.buf| <= limit && f.arrivals != []
    ensures var g := Framer(f.buf + f.arrivals[0], f.arrivals[1..]);
            Next(side, limit, f, Patient(f)) == Next(side, limit, g, Patient(g))
  {
    hide DecodeFor;
  }

  /** A packet decided in the buffer is decided by the first `limit + 1` octets of whatever follows. */
  lemma DecidedInBuffer(side: Side, limit: nat, buf: Octets, t: Octets)
    requires |buf| <= limit + 1 && DecodeFor(side, buf) != NeedMore
    ensures Decided(side, limit, buf + t)
  {
    hide DecodeFor;
    var s := buf + t;
    if |s| > limit {
      assert s[..limit + 1] == buf + s[|buf|..limit + 1];
      DecodeForStable(side, buf, s[|buf|..limit + 1]);
    }
  }

  /** Read one octet at a time, a stream that does not fit ends in `TooLarge`. */
  lemma {:induction false} SinglyTooLarge(side: Side, limit: nat, buf: Octets, t: Octets)
    requires |buf| <= limit + 1 && !Fits(side, limit, buf + t)
    ensures Session(side, limit, Framer(buf, Singly(t))).end.TooLarge?
    decreases |buf| + |t|, |t|
  {
    hide DecodeFor, Decided, Joined;
    var f, s := Framer(buf, Singly(t)), buf + t;
    if DecodeFor(side, buf) != NeedMore {
      DecodeForStable(side, buf, t);
      DecidedInBuffer(side, limit, buf, t);
      var used := DecodeFor(side, buf).used;
      DecodeForConsumes(side, buf);
      assert s[used..] == buf[used..] + t;
      SinglyTooLarge(side, limit, buf[used..], t);
    } else if |buf| <= limit {
      ShortFits(side, limit, buf);
      assert t == [] ==> s == buf;
      assert buf + [t[0]] + t[1..] == s;
      SinglyTooLarge(side, limit, buf + [t[0]], t[1..]);
      assert Singly(t)[1..] == Singly(t[1..]);
      SessionReads(side, limit, f);
    }
  }

  lemma ShortFits(side: Side, limit: nat, s: Octets)
    requires |s| <= limit && DecodeFor(side, s) == NeedMore
    ensures Fits(side, limit, s)
  {}

  lemma {:induction false} ReferenceNeverTooLarge(side: Side, s: Octets)
    ensures !Reference(side, s).end.TooLarge?
    decreases |s|
  {
    if DecodeFor(side, s).Good? {
      DecodeForConsumes(side, s);
      ReferenceNeverTooLarge(side, s[DecodeFor(side, s).used..]);
    }
  }

  /** Where the reads fall does not matter exactly when the stream fits: every split of it is delivered as if
    * it had arrived in one piece. */
  lemma ChunkingInvisibleExactly(side: Side, limit: nat, s: Octets)
    ensures (forall arrivals :: Transport(arrivals) && Joined(arrivals) == s ==>
              Session(side, limit, Framer([], arrivals)) == Reference(side, s))
            <==> Fits(side, limit, s)
  {
    if Fits(side, limit, s) {
      forall arrivals | Transport(arrivals) && Joined(arrivals) == s
        ensures Session(side, limit, Framer([], arrivals)) == Reference(side, s)
      {
        assert Framer([], arrivals).Pending() == s;
        SessionIsReference(side, limit, Framer([], arrivals));
      }
    } else {
      SinglyJoins(s);
      assert [] + s == s;
      SinglyTooLarge(side, limit, [], s);
      ReferenceNeverTooLarge(side, s);
    }
  }

  /** How many octets the fixed header says its packet has, once the header is there. */
  function Announced(s: Octets): Option<nat> {
    if s == [] then None
    else
      match ReadVarint(s[1..], 4)
      case Complete(remaining, used) => Some(1 + used + remaining)
      case _ => None
  }

  /** No packet announces more than `limit + 1` octets and then sends more than `limit` of them. */
  predicate Polite(side: Side, limit: nat, s: Octets)
    decreases |s|
  {
    (|s| > limit && Announced(s).Some? ==> Announced(s).value <= limit + 1) &&
    match DecodeFor(side, s)
    case Good(_, used) => DecodeForConsumes(side, s); Polite(side, limit, s[used..])
    case _ => true
  }

  /** With room for a fixed header, fitting is a matter of the announced lengths alone; in particular every
    * stream of packets of at most `limit` octets fits. */
  lemma {:induction false} FitsByAnnouncement(side: Side, limit: nat, s: Octets)
    requires limit >= 4
    ensures Fits(side, limit, s) <==> Polite(side, limit, s)
    decreases |s|
  {
    if |s| > limit {
      var head := s[..limit + 1];
      HeaderDecided(head);
      assert s == head + s[limit + 1..];
      assert s[1..] == head[1..] + s[limit + 1..];
      VarintStable(head[1..], s[limit + 1..], 4);
      assert DecodeFor(side, head) == NeedMore <==> Announced(s).Some? && Announced(s).value > limit + 1;
    }
    if DecodeFor(side, s).Good? {
      DecodeForConsumes(side, s);
      FitsByAnnouncement(side, limit, s[DecodeFor(side, s).used..]);
    }
  }

  lemma HeaderDecided(s: Octets)
    requires |s| >= 5
    ensures ReadVarint(s[1..], 4) != Incomplete
  {
    LongVarintDecided(s[1..], 4);
  }

  lemma {:induction false} LongVarintDecided(s: Octets, left: nat)
    requires |s| >= left
    ensures ReadVarint(s, left) != Incomplete
  {
    if left > 0 {
      LongVarintDecided(s[1..], left - 1);
    }
  }

  // ------------------------------------------------------------------ bounds

  /** The buffer never exceeds the limit by more than one read, and neither does a delivered packet. */
  lemma {:induction false} BufferBounded(side: Side, limit: nat, f: Framer, patience: nat)
    requires Transport(f.arrivals) && |f.buf| <= limit + 4096
    ensures var (outcome, g) := Next(side, limit, f, patience);
            && Transport(g.arrivals) && |g.buf| <= limit + 4096
            && (outcome.Delivered? ==> |f.Pending()| - |g.Pending()| <= limit + 4096)
            && (outcome.TooLarge? ==> limit < outcome.len <= limit + 4096)
    decreases |f.arrivals|
  {
    match DecodeFor(side, f.buf)
    case Good(_, used) => DecodeForConsumes(side, f.buf);
    case Bad(_) =>
    case NeedMore =>
      if |f.buf| <= limit && patience > 0 && f.arrivals != [] {
        JoinedHead(f);
        BufferBounded(side, limit, Framer(f.buf + f.arrivals[0], f.arrivals[1..]), patience - 1);
      }
  }
}
