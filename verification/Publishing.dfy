/** What a link offers the publishing queue, and what the broker retains of it
  * (src/homeassistant/publisher.rs:602-719, src/homeassistant/broker.rs:293-305). */
module Publishing {
  import opened Prelude
  import opened Entities
  import opened StatePayload

  /** What a discovery message says about the device; two reports that say the same make the same block. */
  type DeviceBlock = string

  /** One device's topics; different devices share none. */
  datatype Topic =
    | DiscoveryTopic(place: Place)
    | AvailabilityTopic
    | StatusTopic
    | GateTopic(key: string)
    | SettingsTopic
    | ConfigTopic
    | FieldTopic(source: Source, key: string)

  datatype Content = Description(entity: Entity, block: DeviceBlock) | Online(up: bool) | Fields(payload: Object)

  /** A retained message, whose absent content is an empty payload, or a frame's state, which is not retained. */
  datatype Publication = Retained(topic: Topic, content: Option<Content>) | State(payload: Object)

  type Broker = map<Topic, Content>

  function Receive(b: Broker, p: Publication): Broker {
    match p
    case State(_) => b
    case Retained(t, None) => b - {t}
    case Retained(t, Some(c)) => b[t := c]
  }

  /** What the broker retains after being offered some publications, of which the queue took some. */
  function Deliver(b: Broker, ps: seq<Publication>, taken: nat -> bool): Broker {
    if ps == [] then b
    else
      var n := |ps| - 1;
      var before := Deliver(b, ps[..n], taken);
      if taken(n) then Receive(before, ps[n]) else before
  }

  /** A queue that takes everything. */
  ghost predicate Accepts(taken: nat -> bool) { forall n: nat :: taken(n) }

  predicate On(p: Publication, t: Topic) { p.Retained? && p.topic == t }

  /** The last publication on a topic that the queue took, if any. */
  function Latest(ps: seq<Publication>, taken: nat -> bool, t: Topic): Option<Option<Content>> {
    if ps == [] then None
    else
      var n := |ps| - 1;
      if taken(n) && On(ps[n], t) then Some(ps[n].content) else Latest(ps[..n], taken, t)
  }

  /** The broker holds, topic by topic, the last thing it was told. */
  lemma {:induction false} DeliveredAt(b: Broker, ps: seq<Publication>, taken: nat -> bool, t: Topic)
    ensures Lookup(Deliver(b, ps, taken), t) ==
            match Latest(ps, taken, t) { case None => Lookup(b, t) case Some(content) => content }
  {
    if ps != [] {
      DeliveredAt(b, ps[..|ps| - 1], taken, t);
    }
  }

  /** Publications in two parts. */
  lemma {:induction false} LatestJoin(a: seq<Publication>, c: seq<Publication>, taken: nat -> bool, t: Topic)
    requires Accepts(taken)
    ensures Latest(a + c, taken, t) == if Latest(c, taken, t).Some? then Latest(c, taken, t) else Latest(a, taken, t)
  {
    if c == [] {
      assert a + c == a;
    } else {
      var n := |c| - 1;
      LatestJoin(a, c[..n], taken, t);
      assert (a + c)[..|a| + n] == a + c[..n];
    }
  }

  /** Where everything said about a topic says the same, it matters only whether any of it was taken. */
  lemma {:induction false} LatestUniform(ps: seq<Publication>, taken: nat -> bool, t: Topic, content: Option<Content>)
    requires forall i :: 0 <= i < |ps| && On(ps[i], t) ==> ps[i].content == content
    ensures Latest(ps, taken, t) ==
            if exists i :: 0 <= i < |ps| && taken(i) && On(ps[i], t) then Some(content) else None
  {
    if ps != [] {
      var n := |ps| - 1;
      LatestUniform(ps[..n], taken, t, content);
      if i :| 0 <= i < |ps| && taken(i) && On(ps[i], t) && i < n {
        assert On(ps[..n][i], t);
      }
    }
  }

  lemma {:induction false} LatestNone(ps: seq<Publication>, taken: nat -> bool, t: Topic)
    requires forall p :: p in ps ==> !On(p, t)
    ensures Latest(ps, taken, t) == None
  {
    if ps != [] {
      LatestNone(ps[..|ps| - 1], taken, t);
    }
  }
}
