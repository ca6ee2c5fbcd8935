/** What is recorded of gated entities over whole runs, and when the broker holds the same
  * (src/homeassistant/publisher.rs:508-565, 858-922). */
module GateRuns {
  import opened Prelude
  import opened Entities
  import opened Frames
  import opened StatePayload
  import opened Publishing
  import opened Gates
  import opened Discovery
  import opened DeviceLink
  import opened LinkRuns
  import Resting

  // ------------------------------------------------------------------ what an event asks

  /** The entities whose gates an event asks about, if it asks. */
  function InForce(driver: Driver, w: World, event: Event): seq<Entity>
    requires Wellformed(driver)
  {
    match event
    case Connected(generation) => if generation == 0 then [] else EntitiesOf(Wished(w.options, w.session), driver)
    case FrameSeen(_) =>
      if w.session.view == None || w.link.publishedFor == None then []
      else EntitiesOf(Wished(w.options, w.session), driver)
    case SettingsSeen =>
      if w.link.publishedFor == None || w.link.announced == None then []
      else EntitiesOf(w.link.announced.value.catalogue, driver)
    case _ => []
  }

  /** The answers an event gets about a key: what its gate makes of each value the session has, in order. */
  function Asks(driver: Driver, w: World, event: Event, key: string): seq<bool>
    requires Wellformed(driver)
  {
    Answers(GateOf(InForce(driver, w, event), key), Facts(w.session.settings, w.session.view))
  }

  /** The link as it asks, where an event makes it ask. */
  function Asking(driver: Driver, w: World, event: Event, now: nat): Option<LinkState>
    requires Wellformed(driver)
  {
    match event
    case Connected(generation) =>
      if generation == 0 then None
      else
        var l := w.link.(announced := None, publishedFor := Some(generation));
        Some(Announcing(driver, w.options, l, w.session).link)
    case FrameSeen(stamp) =>
      if w.session.view == None then None
      else
        var l := w.link.(arrived := Some(now), lastUpdate := Some(stamp));
        Some(Stating(Announcing(driver, w.options, l, w.session).link.(present := true), w.session.view.value, now).0)
    case SettingsSeen => Some(w.link)
    case _ => None
  }

  lemma OtherTopics(l: LinkState, s: Session, key: string)
    ensures Heard(SettingsMoving(l, s).rest, key) == Heard(Gating(l, s).1, key)
    ensures SettingsMoving(l, s).link == Gating(l, s).0
  {
    hide Gating, UnsharedSays, SettingsObject;
    var a, b, c := SettingsSays(l, s), UnsharedSays(l, s.settings), Gating(l, s).1;
    forall p | p in a + b
      ensures !On(p, GateTopic(key))
    {
      UnsharedExactly(l, s.settings, p);
    }
    HeardNothing(a + b, key);
    HeardJoin(a + b, c, key);
    assert [] + Heard(c, key) == Heard(c, key);
  }

  lemma StateIsNoGate(l: LinkState, view: View, now: nat, ps: seq<Publication>, key: string)
    ensures var state := Stating(l, view, now).1;
            Heard(ps + state, key) == Heard(ps, key) && Heard(state + ps, key) == Heard(ps, key)
    ensures Stating(l, view, now).0.gates == l.gates
  {
    hide TelemetryObject, Resting.Observed;
    var state := Stating(l, view, now).1;
    HeardNothing(state, key);
    HeardJoin(ps, state, key);
    HeardJoin(state, ps, key);
    assert Heard(ps, key) + [] == Heard(ps, key) && [] + Heard(ps, key) == Heard(ps, key);
  }

  lemma ConfigIsNoGate(l: LinkState, s: Session, key: string)
    ensures Heard(ConfigSays(l, s), key) == []
  {
    hide ConfigObject;
    forall p | p in ConfigSays(l, s)
      ensures !On(p, GateTopic(key))
    {}
    HeardNothing(ConfigSays(l, s), key);
  }

  lemma AnnouncingKeepsGates(driver: Driver, o: Options, l: LinkState, s: Session)
    requires Wellformed(driver)
    ensures Announcing(driver, o, l, s).link.gates == l.gates
  {
    hide Pass, EntitiesOf, IndexOf, FieldsOf, Describes;
  }

  /** Asking is all that an event does about gates. */
  lemma AskingIsAll(driver: Driver, w: World, event: Event, now: nat, key: string)
    requires Wellformed(driver) && !event.Started?
    ensures var out := Reaction(driver, w, event, now);
            match Asking(driver, w, event, now)
            case None => out.link.gates == w.link.gates && Heard(out.rest, key) == []
            case Some(l) =>
              && l.gates == w.link.gates
              && out.link.gates == Gating(l, w.session).0.gates
              && Heard(out.rest, key) == Heard(Gating(l, w.session).1, key)
  {
    forall l: LinkState
      ensures Announcing(driver, w.options, l, w.session).link.gates == l.gates
    {
      AnnouncingKeepsGates(driver, w.options, l, w.session);
    }
    hide Announcing, Gating, SettingsMoving, Stating, Heard, ConfigObject, PresenceSays;
    match event
    case Connected(generation) =>
      if generation > 0 {
        var a := Asking(driver, w, event, now).value;
        var m := SettingsMoving(a, w.session);
        OtherTopics(a, w.session, key);
        if Fresh(w.options, m.link, now) && w.session.view.Some? {
          StateIsNoGate(m.link, w.session.view.value, now, m.rest, key);
        } else {
          assert m.rest + [] == m.rest;
        }
      } else {
        HeardNothing([], key);
      }
    case FrameSeen(stamp) =>
      if w.session.view.Some? {
        var t := Asking(driver, w, event, now).value;
        var l := w.link.(arrived := Some(now), lastUpdate := Some(stamp));
        var p := Announcing(driver, w.options, l, w.session).link.(present := true);
        StateIsNoGate(p, w.session.view.value, now, Gating(t, w.session).1, key);
      } else {
        HeardNothing([], key);
      }
    case SettingsSeen => OtherTopics(w.link, w.session, key);
    case IdentitySeen => ConfigIsNoGate(Announcing(driver, w.options, w.link, w.session).link, w.session, key);
    case _ => HeardNothing([], key);
  }

  /** The entities asked about are those in force. */
  lemma AskingInForce(driver: Driver, w: World, event: Event, now: nat)
    requires Wellformed(driver) && Faithful(driver, w.link)
    ensures match Asking(driver, w, event, now)
            case None => InForce(driver, w, event) == []
            case Some(l) =>
              if l.publishedFor == None || l.announced == None then InForce(driver, w, event) == []
              else InForce(driver, w, event) == l.announced.value.entities
  {
    hide EntitiesOf, IndexOf, FieldsOf, Announcing, TelemetryObject, Resting.Observed;
    match event
    case Connected(generation) =>
      AnnouncingFaithful(driver, w.options, w.link.(announced := None, publishedFor := Some(generation)), w.session);
    case FrameSeen(stamp) =>
      var l := w.link.(arrived := Some(now), lastUpdate := Some(stamp));
      AnnouncingFaithful(driver, w.options, l, w.session);
      if l.publishedFor == None {
        UnreachedAnnouncesNothing(driver, w.options, l, w.session);
      }
    case _ =>
  }

  lemma UnreachedAnnouncesNothing(driver: Driver, o: Options, l: LinkState, s: Session)
    requires Wellformed(driver) && l.publishedFor == None
    ensures Announcing(driver, o, l, s).link == l
  {}

  /** What an event records about a key is the last of the answers it gets, and what it publishes is those that are
    * news. */
  lemma AskedExactly(driver: Driver, w: World, event: Event, now: nat, key: string)
    requires Wellformed(driver) && NamedApart(driver) && Faithful(driver, w.link) && !event.Started?
    ensures var (out, was) := (Reaction(driver, w, event, now), Lookup(w.link.gates, key));
            var answers := Asks(driver, w, event, key);
            && Lookup(out.link.gates, key) == LastOf(was, answers)
            && Heard(out.rest, key) == News(was, answers)
  {
    var facts := Facts(w.session.settings, w.session.view);
    hide Reaction, Asking, Heard, Tell, Says, Facts, DistinctKeys, NamedApart, InForce, Answers;
    AskingIsAll(driver, w, event, now, key);
    AskingInForce(driver, w, event, now);
    InForceDistinct(driver, w, event);
    UngatedAnswersNothing(facts);
    var l := Asking(driver, w, event, now);
    if l.Some? {
      HeardNothing([], key);
      PassAnswers(InForce(driver, w, event), facts, w.link.gates, key);
    }
  }

  lemma InForceDistinct(driver: Driver, w: World, event: Event)
    requires Wellformed(driver) && NamedApart(driver)
    ensures DistinctKeys(InForce(driver, w, event))
  {
    hide EntitiesOf, NamedApart;
    KeysDistinct(Wished(w.options, w.session), driver);
    if w.link.announced.Some? {
      KeysDistinct(w.link.announced.value.catalogue, driver);
    }
  }

  // ------------------------------------------------------------------ one event and the broker

  /** The broker's answer about a gated entity is the recorded one, if there is one. */
  predicate Mirrored(w: World, key: string) {
    key in w.link.gates ==> Lookup(w.broker, GateTopic(key)) == Some(Online(w.link.gates[key]))
  }

  predicate Lost(event: Event, t: Topic) { event.Forgot? && t in event.lost }

  /** After any event the broker mirrors a gate's record exactly when nothing was ever answered, or an answer of this
    * event is news, or it mirrored it before and has not forgotten it now. A connection is no exception: answered as
    * before, it says nothing, and an answer the broker forgot stays forgotten. */
  lemma GateMirroredExactly(driver: Driver, w: World, h: Happening, key: string)
    requires Wellformed(driver) && NamedApart(driver) && Faithful(driver, w.link) && Accepts(h.taken)
    ensures var was, answers := Lookup(w.link.gates, key), Asks(driver, w, h.event, key);
            Mirrored(After(driver, w, h), key) <==>
            || h.event.Started?
            || (was == None && answers == [])
            || News(was, answers) != []
            || (Mirrored(w, key) && !Lost(h.event, GateTopic(key)))
  {
    hide Reaction, After, Deliver, Latest, Heard, Asks, NamedApart;
    AfterIs(driver, w, h);
    var out := Reaction(driver, w, h.event, h.now);
    if h.event.Started? {
      StartedEmpty(driver, w, h);
    } else {
      ReactionKinds(driver, w, h.event, h.now);
      AskedExactly(driver, w, h.event, h.now, key);
      Delivered(driver, w, h, GateTopic(key));
      LatestPublished(out.rest, h.taken, key);
      NewsIsNews(Lookup(w.link.gates, key), Asks(driver, w, h.event, key));
    }
  }

  lemma StartedEmpty(driver: Driver, w: World, h: Happening)
    requires Wellformed(driver) && h.event.Started?
    ensures Reaction(driver, w, h.event, h.now).link.gates == map[]
  {}

  // ------------------------------------------------------------------ every run

  /** Every answer about a key that the link serving now has got, in order. */
  function Answered(driver: Driver, w: World, trace: seq<Happening>, key: string): seq<bool>
    requires Wellformed(driver)
  {
    if trace == [] then []
    else
      var before, event := trace[..|trace| - 1], trace[|trace| - 1].event;
      if event.Started? then []
      else Answered(driver, w, before, key) + Asks(driver, Run(driver, w, before), event, key)
  }

  lemma LastOfJoin(a: seq<bool>, c: seq<bool>)
    ensures LastOf(LastOf(None, a), c) == LastOf(None, a + c)
  {}

  /** Over every run, whatever the queue refuses and the broker forgets, a gate's record is the last answer the link
    * got about it: its own gate on the last value that decides it. */
  lemma {:induction false} RecordIsLastAnswer(driver: Driver, w: World, trace: seq<Happening>, key: string)
    requires Wellformed(driver) && NamedApart(driver) && w.link == Unlinked
    ensures Lookup(Run(driver, w, trace).link.gates, key) == LastOf(None, Answered(driver, w, trace, key))
  {
    if trace != [] {
      var n := |trace| - 1;
      var before, h := Run(driver, w, trace[..n]), trace[n];
      hide Reaction, After, NamedApart, Asks, Faithful;
      RecordIsLastAnswer(driver, w, trace[..n], key);
      AfterIs(driver, before, h);
      if h.event.Started? {
        StartedEmpty(driver, before, h);
      } else {
        UnlinkedFaithful(driver);
        RunFaithful(driver, w, trace[..n]);
        AskedExactly(driver, before, h.event, h.now, key);
        LastOfJoin(Answered(driver, w, trace[..n], key), Asks(driver, before, h.event, key));
      }
    }
  }

  lemma UnlinkedFaithful(driver: Driver)
    requires Wellformed(driver)
    ensures Faithful(driver, Unlinked)
  {}

  /** How many events ago, counted from the start, a run last had news of a key. */
  function LastNews(driver: Driver, w: World, trace: seq<Happening>, key: string): (n: nat)
    requires Wellformed(driver)
    ensures n <= |trace|
  {
    if trace == [] then 0
    else
      var before, event := trace[..|trace| - 1], trace[|trace| - 1].event;
      var was := LastOf(None, Answered(driver, w, before, key));
      if News(was, Asks(driver, Run(driver, w, before), event, key)) != [] then |trace|
      else LastNews(driver, w, before, key)
  }

  /** And when the broker last forgot its topic. */
  function LastLoss(trace: seq<Happening>, key: string): (n: nat)
    ensures n <= |trace|
  {
    if trace == [] then 0
    else if Lost(trace[|trace| - 1].event, GateTopic(key)) then |trace|
    else LastLoss(trace[..|trace| - 1], key)
  }

  /** Over every run in which the queue takes everything, the broker mirrors a gate's record exactly when the link has
    * had no answer, or its last news came after the broker last forgot the topic. */
  lemma {:induction false} RunMirroredExactly(driver: Driver, w: World, trace: seq<Happening>, key: string)
    requires Wellformed(driver) && NamedApart(driver) && w.link == Unlinked
    requires forall h :: h in trace ==> Accepts(h.taken)
    ensures Mirrored(Run(driver, w, trace), key) <==>
            Answered(driver, w, trace, key) == [] || LastLoss(trace, key) <= LastNews(driver, w, trace, key)
  {
    if trace != [] {
      var n := |trace| - 1;
      var before, h := Run(driver, w, trace[..n]), trace[n];
      assert trace[n] in trace && forall h :: h in trace[..n] ==> h in trace;
      hide Reaction, After, NamedApart, Asks, Faithful, Mirrored, News;
      UnlinkedFaithful(driver);
      RunMirroredExactly(driver, w, trace[..n], key);
      var asked, asks := Answered(driver, w, trace[..n], key), Asks(driver, before, h.event, key);
      var loss, news := LastLoss(trace[..n], key), LastNews(driver, w, trace[..n], key);
      assert Answered(driver, w, trace, key) == if h.event.Started? then [] else asked + asks;
      assert LastLoss(trace, key) == if Lost(h.event, GateTopic(key)) then n + 1 else loss;
      assert LastNews(driver, w, trace, key) == if News(LastOf(None, asked), asks) != [] then n + 1 else news;
      hide Answered, LastLoss, LastNews;
      assert Run(driver, w, trace) == After(driver, before, h);
      hide Run;
      RunFaithful(driver, w, trace[..n]);
      RecordIsLastAnswer(driver, w, trace[..n], key);
      GateMirroredExactly(driver, before, h, key);
      LossAsksNothing(driver, before, h.event, key);
      LossOrNews(asked, asks);
    }
  }

  /** News comes with the first answer, and only with an answer. */
  lemma LossOrNews(asked: seq<bool>, asks: seq<bool>)
    ensures asked + asks == [] <==> asked == [] && asks == []
    ensures LastOf(None, asked) == None <==> asked == []
    ensures asks == [] ==> News(LastOf(None, asked), asks) == []
    ensures asked == [] && asks != [] ==> News(LastOf(None, asked), asks) != []
  {
    NewsIsNews(LastOf(None, asked), asks);
  }

  lemma LossAsksNothing(driver: Driver, w: World, event: Event, key: string)
    requires Wellformed(driver)
    ensures event.Forgot? || event.Started? ==> Asks(driver, w, event, key) == []
  {
    UngatedAnswersNothing(Facts(w.session.settings, w.session.view));
  }

  // ------------------------------------------------------------------ a run on which the broker is not told again

  /** What a connection or a frame asks depends only on the session and the options. */
  lemma SameQuestion(driver: Driver, w: World, v: World, stamp: string, key: string)
    requires Wellformed(driver) && v.options == w.options && v.session == w.session
    ensures Asks(driver, v, Connected(2), key) == Asks(driver, w, Connected(1), key)
    ensures v.session.view.Some? && v.link.publishedFor.Some? ==>
              Asks(driver, v, FrameSeen(stamp), key) == Asks(driver, w, Connected(1), key)
  {
    hide EntitiesOf, Answers, GateOf, Facts;
  }

  /** A gate is answered on a connection, and answered alike by a frame; the broker forgets its topic; and the next
    * connection, answered alike again, does not tell it. */
  lemma ForgottenStaysForgotten(driver: Driver, w: World, stamp: string, taken: nat -> bool, key: string, open: bool)
    requires Wellformed(driver) && NamedApart(driver) && w.link == Unlinked && w.session.view.Some? && Accepts(taken)
    requires Asks(driver, w, Connected(1), key) == [open]
    ensures var t := GateTopic(key);
            var one := After(driver, w, Happening(Connected(1), w.now, taken));
            var two := After(driver, one, Happening(FrameSeen(stamp), w.now, taken));
            var three := After(driver, two, Happening(Forgot({t}), w.now, taken));
            var four := After(driver, three, Happening(Connected(2), w.now, taken));
            Mirrored(two, key) && !Mirrored(four, key) && Lookup(four.link.gates, key) == Some(open)
  {
    var h1, h2 := Happening(Connected(1), w.now, taken), Happening(FrameSeen(stamp), w.now, taken);
    var h3, h4 := Happening(Forgot({GateTopic(key)}), w.now, taken), Happening(Connected(2), w.now, taken);
    var one := After(driver, w, h1);
    var two := After(driver, one, h2);
    var three := After(driver, two, h3);
    OneAnswer(open);
    UnlinkedFaithful(driver);
    hide After, Reaction, Asks, NamedApart, Faithful, News, Mirrored, Answers;
    Recorded(driver, w, h1, key);
    Connects(driver, w, h1);
    SameQuestion(driver, w, one, stamp, key);
    Recorded(driver, one, h2, key);
    SameQuestion(driver, w, two, stamp, key);
    LossAsksNothing(driver, two, h3.event, key);
    Recorded(driver, two, h3, key);
    SameQuestion(driver, w, three, stamp, key);
    Recorded(driver, three, h4, key);
    assert Lookup(one.link.gates, key) == Lookup(two.link.gates, key) == Lookup(three.link.gates, key) == Some(open);
  }

  lemma OneAnswer(open: bool)
    ensures News(None, [open]) != [] && News(Some(open), [open]) == []
    ensures forall was: Option<bool> ::
              LastOf(was, [open]) == Some(open) && LastOf(was, []) == was && News(was, []) == []
  {
    assert [open][..0] == [];
    assert News(None, [open]) == [open];
  }

  /** What an event leaves of the options, the session, the record and the broker's copy of it. */
  lemma Recorded(driver: Driver, w: World, h: Happening, key: string)
    requires Wellformed(driver) && NamedApart(driver) && Faithful(driver, w.link) && Accepts(h.taken)
    requires !h.event.Started? && !h.event.SessionMoved?
    ensures var after, answers := After(driver, w, h), Asks(driver, w, h.event, key);
            && after.options == w.options && after.session == w.session && Faithful(driver, after.link)
            && Lookup(after.link.gates, key) == LastOf(Lookup(w.link.gates, key), answers)
            && (Mirrored(after, key) <==>
                  || (Lookup(w.link.gates, key) == None && answers == [])
                  || News(Lookup(w.link.gates, key), answers) != []
                  || (Mirrored(w, key) && !Lost(h.event, GateTopic(key))))
  {
    hide Reaction, Asks, NamedApart, Faithful, News, Mirrored;
    AfterIs(driver, w, h);
    AskedExactly(driver, w, h.event, h.now, key);
    GateMirroredExactly(driver, w, h, key);
    RunFaithful(driver, w, [h]);
    assert [h][..0] == [] && Run(driver, w, []) == w && Run(driver, w, [h]) == After(driver, w, h);
  }

  lemma Connects(driver: Driver, w: World, h: Happening)
    requires Wellformed(driver) && h.event.Connected? && h.event.generation > 0
    ensures After(driver, w, h).link.publishedFor.Some?
  {
    hide Reaction, After, Announcing;
    AfterIs(driver, w, h);
    AnnouncementOf(driver, w, h);
    AnnouncingPublishes(driver, w.options, Going(w, h), w.session);
  }

  /** A bridge that may write, whose device says that a meter is connected. */
  const Metered := World(
    Options(0, Everyone, 1), Unlinked,
    Session("", None, None, [], Some([FrameReading(METER_CONNECTED, 1, "1", Some(1), Some(1.0))])), map[], false, 0)

  lemma MeteredAnswers()
    ensures var facts := Facts(Metered.session.settings, Metered.session.view);
            Answers(Some(ReadingIsSet(METER_CONNECTED)), facts) == [true]
  {
    var facts := Facts(Metered.session.settings, Metered.session.view);
    assert facts == [OfReading(METER_CONNECTED, 1)];
    assert facts[..0] == [];
    assert Answers(Some(ReadingIsSet(METER_CONNECTED)), []) == [];
  }

  lemma WithdrawButton()
    ensures |Actions()| == 4
    ensures var e := Actions()[2];
            e in Actions() && e.key == WITHDRAW_METER_READING && e.gate == Some(ReadingIsSet(METER_CONNECTED))
  {}

  lemma WithdrawGate(driver: Driver, c: Catalogue)
    requires Wellformed(driver) && NamedApart(driver) && c.permitted.writes
    ensures GateOf(EntitiesOf(c, driver), WITHDRAW_METER_READING) == Some(ReadingIsSet(METER_CONNECTED))
  {
    hide EntitiesOf, NamedApart, Actions, Always, Names, Settings, ForReading, Published, SettingEntity, GateOf;
    WithdrawButton();
    InCatalogue(c, driver, Actions()[2]);
    KeysDistinct(c, driver);
    GateOfIs(EntitiesOf(c, driver), WITHDRAW_METER_READING);
  }

  lemma MeteredAsks()
    ensures Asks(Small, Metered, Connected(1), WITHDRAW_METER_READING) == [true]
  {
    hide EntitiesOf, NamedApart, Facts, GateOf, Answers;
    SmallFits();
    MeteredAnswers();
    WithdrawGate(Small, Wished(Metered.options, Metered.session));
  }

  /** There is such a run: connected, a frame, the withdraw button's gate forgotten, connected again. */
  lemma GateNotToldAgain()
    ensures Wellformed(Small)
    ensures var h := (event: Event) => Happening(event, 0, Soon);
            var two := After(Small, After(Small, Metered, h(Connected(1))), h(FrameSeen("")));
            var three := After(Small, two, h(Forgot({GateTopic(WITHDRAW_METER_READING)})));
            var four := After(Small, three, h(Connected(2)));
            Mirrored(two, WITHDRAW_METER_READING) && !Mirrored(four, WITHDRAW_METER_READING)
  {
    SmallFits();
    MeteredAsks();
    hide After, Asks, NamedApart, Mirrored;
    ForgottenStaysForgotten(Small, Metered, "", Soon, WITHDRAW_METER_READING, true);
  }
}
