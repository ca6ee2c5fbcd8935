/** Whole runs of a device's links against one broker: what the broker shows, when the device is called absent
  * (src/homeassistant/publisher.rs:434-719). */
module LinkRuns {
  import opened Prelude
  import opened Entities
  import opened EntityFacts
  import opened Frames
  import opened StatePayload
  import opened Publishing
  import opened Gates
  import opened Discovery
  import opened DeviceLink
  import Resting

  /** What can happen to a link and its broker. A start is a new link for the device, of this process or a later
    * one, perhaps configured otherwise; a connection is the link handling that the broker was reached for the
    * so-manieth time; and a broker that is being replaced or restarted may forget some of what it retained, of
    * which the link learns nothing until it handles the next connection. */
  datatype Event =
    | Started(options: Options)
    | SessionMoved(session: Session)
    | Connected(generation: nat)
    | FrameSeen(stamp: string)
    | SettingsSeen
    | IdentitySeen
    | TimedOut
    | Forgot(lost: set<Topic>)

  /** An event, when it was handled, and which of the publications it made the queue took. */
  datatype Happening = Happening(event: Event, now: nat, taken: nat -> bool)

  /** `behind` says that the broker has forgotten something since the last connection the link handled. */
  datatype World = World(
    options: Options, link: LinkState, session: Session, broker: Broker, behind: bool, now: nat)

  function Reaction(driver: Driver, w: World, event: Event, now: nat): Outcome
    requires Wellformed(driver)
  {
    match event
    case Started(_) => Outcome(Unlinked, [], [], [])
    case SessionMoved(_) => Outcome(w.link, [], [], [])
    case Connected(generation) => Republishing(driver, w.options, w.link, w.session, generation, now)
    case FrameSeen(stamp) => FrameArriving(driver, w.options, w.link, w.session, now, stamp)
    case SettingsSeen => SettingsMoving(w.link, w.session)
    case IdentitySeen => Identifying(driver, w.options, w.link, w.session)
    case TimedOut => Quieting(w.link, w.session)
    case Forgot(_) => Outcome(w.link, [], [], [])
  }

  function Losing(b: Broker, event: Event): Broker {
    if event.Forgot? then b - event.lost else b
  }

  predicate BehindAfter(behind: bool, event: Event) {
    event.Forgot? || (behind && !(event.Connected? && event.generation > 0))
  }

  function After(driver: Driver, w: World, h: Happening): World
    requires Wellformed(driver)
  {
    var out := Reaction(driver, w, h.event, h.now);
    World(
      if h.event.Started? then h.event.options else w.options,
      out.link,
      if h.event.SessionMoved? then h.event.session else w.session,
      Deliver(Losing(w.broker, h.event), out.Said(), h.taken),
      BehindAfter(w.behind, h.event),
      h.now)
  }

  function Run(driver: Driver, w: World, trace: seq<Happening>): World
    requires Wellformed(driver)
  {
    if trace == [] then w else After(driver, Run(driver, w, trace[..|trace| - 1]), trace[|trace| - 1])
  }

  /** Time does not go back, and the timer goes off only when armed and due. */
  predicate LegalStep(w: World, h: Happening) {
    && w.now <= h.now
    && (h.event.TimedOut? ==> match Deadline(w.options, w.link) { case Some(at) => at <= h.now case None => false })
  }

  predicate Legal(driver: Driver, w: World, trace: seq<Happening>)
    requires Wellformed(driver)
  {
    trace != [] ==>
      var before := trace[..|trace| - 1];
      Legal(driver, w, before) && LegalStep(Run(driver, w, before), trace[|trace| - 1])
  }

  // ------------------------------------------------------------------ discovery over every run

  /** The queue took everything, and the device never reports more battery packs than `most`. */
  ghost predicate Faultless(trace: seq<Happening>, most: nat) {
    forall h :: h in trace ==> Accepts(h.taken) && (h.event.SessionMoved? ==> Packs(h.event.session.view) <= most)
  }

  /** The broker holds nothing the driver does not know of, and exactly what was announced once something was. */
  ghost predicate Agreed(driver: Driver, announced: Option<Announcement>, b: Broker, most: nat)
    requires Wellformed(driver)
  {
    && Within(b, driver, None)
    && match announced
       case None => true
       case Some(a) =>
         && a.catalogue.packs <= most
         && a.entities == EntitiesOf(a.catalogue, driver)
         && Shows(b, a.entities, a.block)
  }

  /** What a link and its broker agree on between events, unless the broker has forgotten something since. */
  ghost predicate Reconciled(driver: Driver, w: World, most: nat)
    requires Wellformed(driver)
  {
    && (w.link.publishedFor.Some? <==> w.link.announced.Some?)
    && (!w.behind ==> Agreed(driver, w.link.announced, w.broker, most))
  }

  /** The broker's discovery topics are exactly the current catalogue's, under the current device block. */
  ghost predicate Current(driver: Driver, w: World)
    requires Wellformed(driver)
  {
    Shows(w.broker, EntitiesOf(Wished(w.options, w.session), driver), w.session.block)
  }

  /** Whether an event makes the link announce what has changed. */
  predicate Announces(w: World, event: Event) {
    match event
    case Connected(generation) => generation > 0
    case FrameSeen(_) => w.session.view.Some? && w.link.publishedFor.Some?
    case IdentitySeen => w.link.publishedFor.Some?
    case _ => false
  }

  lemma PassKinds(driver: Driver, announced: Option<Announcement>, es: seq<Entity>, block: DeviceBlock)
    requires Wellformed(driver)
    ensures forall p :: p in Pass(driver, announced, es, block) ==> p.Retained? && p.topic.DiscoveryTopic?
  {
    forall p | p in Pass(driver, announced, es, block)
      ensures p.Retained? && p.topic.DiscoveryTopic?
    {
      var i :| 0 <= i < |Pass(driver, announced, es, block)| && Pass(driver, announced, es, block)[i] == p;
      PassIsDiscovery(driver, announced, es, block, i);
    }
  }

  predicate OnlyDiscovery(ps: seq<Publication>) { forall p :: p in ps ==> p.Retained? && p.topic.DiscoveryTopic? }

  predicate OfPresence(t: Topic) { t.AvailabilityTopic? || t.StatusTopic? || (t.FieldTopic? && t.source == FromStatus) }

  predicate OnlyPresence(ps: seq<Publication>) {
    forall p :: p in ps ==> p.Retained? && OfPresence(p.topic)
  }

  predicate OnlyRest(ps: seq<Publication>) {
    GatesAnswer(ps) && forall p :: p in ps && p.Retained? ==> !p.topic.DiscoveryTopic? && !OfPresence(p.topic)
  }

  /** The part of what an event says that a topic belongs to. */
  function PartOf(out: Outcome, t: Topic): seq<Publication> {
    if t.DiscoveryTopic? then out.discovery else if OfPresence(t) then out.presence else out.rest
  }

  lemma AnnouncingKinds(driver: Driver, o: Options, l: LinkState, s: Session)
    requires Wellformed(driver)
    ensures OnlyDiscovery(Announcing(driver, o, l, s).discovery)
  {
    hide Pass, EntitiesOf, IndexOf;
    PassKinds(driver, l.announced, EntitiesOf(Wished(o, s), driver), s.block);
  }

  lemma GatingKinds(l: LinkState, s: Session)
    ensures OnlyRest(Gating(l, s).1)
  {
    hide Tell, Says, Facts;
    if l.announced.Some? {
      TellsGates(l.gates, Says(l.announced.value.entities, Facts(s.settings, s.view)));
    }
  }

  lemma SettingsKinds(l: LinkState, s: Session)
    ensures OnlyRest(SettingsMoving(l, s).rest)
  {
    hide Gating, UnsharedSays, SettingsObject;
    GatingKinds(l, s);
    forall p | p in UnsharedSays(l, s.settings)
      ensures p.Retained? && p.topic.FieldTopic? && p.topic.source == FromSettings
    {
      UnsharedExactly(l, s.settings, p);
    }
  }

  lemma StatingKinds(l: LinkState, view: View, now: nat)
    ensures OnlyRest(Stating(l, view, now).1)
  {
    hide TelemetryObject, Resting.Observed;
  }

  lemma OnlyRestJoin(a: seq<Publication>, c: seq<Publication>)
    requires OnlyRest(a) && OnlyRest(c)
    ensures OnlyRest(a + c)
  {}

  /** Each part of what an event says is on topics of its own. */
  lemma ReactionKinds(driver: Driver, w: World, event: Event, now: nat)
    requires Wellformed(driver)
    ensures var out := Reaction(driver, w, event, now);
            OnlyDiscovery(out.discovery) && OnlyPresence(out.presence) && OnlyRest(out.rest)
  {
    forall l: LinkState
      ensures OnlyPresence(PresenceSays(l, w.session))
    {}
    hide Announcing, PresenceSays, SettingsMoving, Gating, Stating, OnlyRest, Fresh, ConfigObject;
    assert OnlyRest([]) by {
      NothingIsRest();
    }
    match event
    case Connected(generation) =>
      if generation > 0 {
        ConnectedKinds(driver, w, generation, now);
      }
    case FrameSeen(stamp) =>
      if w.session.view.Some? {
        FrameKinds(driver, w, now, stamp);
      }
    case SettingsSeen => SettingsKinds(w.link, w.session);
    case IdentitySeen =>
      AnnouncingKinds(driver, w.options, w.link, w.session);
      ConfigKinds(Announcing(driver, w.options, w.link, w.session).link, w.session);
    case _ =>
  }

  lemma NothingIsRest()
    ensures OnlyRest([])
  {}

  lemma ConfigKinds(l: LinkState, s: Session)
    ensures OnlyRest(ConfigSays(l, s))
  {
    hide ConfigObject;
  }

  lemma ConnectedKinds(driver: Driver, w: World, generation: nat, now: nat)
    requires Wellformed(driver) && generation > 0
    ensures var out := Republishing(driver, w.options, w.link, w.session, generation, now);
            OnlyDiscovery(out.discovery) && OnlyRest(out.rest)
  {
    hide Announcing, PresenceSays, SettingsMoving, Stating, OnlyRest, Fresh;
    var l := w.link.(announced := None, publishedFor := Some(generation));
    var a := Announcing(driver, w.options, l, w.session).link;
    AnnouncingKinds(driver, w.options, l, w.session);
    SettingsKinds(a, w.session);
    var m := SettingsMoving(a, w.session);
    if Fresh(w.options, m.link, now) && w.session.view.Some? {
      StatingKinds(m.link, w.session.view.value, now);
      OnlyRestJoin(m.rest, Stating(m.link, w.session.view.value, now).1);
    } else {
      assert m.rest + [] == m.rest;
    }
  }

  lemma FrameKinds(driver: Driver, w: World, now: nat, stamp: string)
    requires Wellformed(driver) && w.session.view.Some?
    ensures var out := FrameArriving(driver, w.options, w.link, w.session, now, stamp);
            OnlyDiscovery(out.discovery) && OnlyRest(out.rest)
  {
    hide Announcing, PresenceSays, Gating, Stating, OnlyRest;
    var l := w.link.(arrived := Some(now), lastUpdate := Some(stamp));
    AnnouncingKinds(driver, w.options, l, w.session);
    var p := Announcing(driver, w.options, l, w.session).link.(present := true);
    var (t, state) := Stating(p, w.session.view.value, now);
    StatingKinds(p, w.session.view.value, now);
    GatingKinds(t, w.session);
    OnlyRestJoin(state, Gating(t, w.session).1);
  }

  /** On its own topics, each part is delivered as if it were all that was said. */
  lemma PartsApart(out: Outcome, taken: nat -> bool, t: Topic)
    requires OnlyDiscovery(out.discovery) && OnlyPresence(out.presence) && OnlyRest(out.rest) && Accepts(taken)
    ensures Latest(out.Said(), taken, t) == Latest(PartOf(out, t), taken, t)
  {
    hide Latest;
    LatestJoin(out.discovery + out.presence, out.rest, taken, t);
    LatestJoin(out.discovery, out.presence, taken, t);
    if !t.DiscoveryTopic? {
      LatestNone(out.discovery, taken, t);
    }
    if !OfPresence(t) {
      LatestNone(out.presence, taken, t);
    }
    if t.DiscoveryTopic? || OfPresence(t) {
      LatestNone(out.rest, taken, t);
    }
  }

  /** What an event leaves on a topic, in terms of the part it belongs to. */
  lemma Delivered(driver: Driver, w: World, h: Happening, t: Topic)
    requires Wellformed(driver) && Accepts(h.taken)
    ensures var part := PartOf(Reaction(driver, w, h.event, h.now), t);
            Lookup(After(driver, w, h).broker, t) ==
            match Latest(part, h.taken, t) { case None => Lookup(Losing(w.broker, h.event), t) case Some(c) => c }
  {
    hide Reaction, Deliver, Latest, Losing, PartOf;
    var out := Reaction(driver, w, h.event, h.now);
    ReactionKinds(driver, w, h.event, h.now);
    PartsApart(out, h.taken, t);
    DeliveredAt(Losing(w.broker, h.event), out.Said(), h.taken, t);
  }

  /** Whether the first announcement for a connection sweeps everything any configuration could have left: every
    * entity's topic is one of `everything`'s or a retired one. */
  ghost predicate Sweeps(driver: Driver, most: nat)
    requires Wellformed(driver)
  {
    forall c: Catalogue, e :: c.packs <= most && e in EntitiesOf(c, driver) ==>
      PlaceOf(e) in Places(Everything(driver)) || PlaceOf(e) in Retired
  }

  lemma ShownIsWithin(driver: Driver, b: Broker, c: Catalogue, block: DeviceBlock, most: nat)
    requires Wellformed(driver) && Sweeps(driver, most) && c.packs <= most && Shows(b, EntitiesOf(c, driver), block)
    ensures Within(b, driver, None)
  {
    hide EntitiesOf, Everything, Wanted;
    var es := EntitiesOf(c, driver);
    forall p: Place | DiscoveryTopic(p) in b
      ensures Kept(Everything(driver), p) || p in Retired
    {
      WantedIs(es, block, p);
      assert Lookup(b, DiscoveryTopic(p)) == Wanted(es, block, p);
      var i :| 0 <= i < |es| && PlaceOf(es[i]) == p;
      assert es[i] in es && (p in Places(Everything(driver)) || p in Retired);
    }
  }

  lemma ShownIsPrevious(driver: Driver, b: Broker, a: Announcement)
    requires Wellformed(driver) && Shows(b, a.entities, a.block)
    ensures Within(b, driver, Some(a))
  {
    hide Wanted;
    forall p: Place | DiscoveryTopic(p) in b
      ensures Kept(a.entities, p)
    {
      WantedIs(a.entities, a.block, p);
      assert Lookup(b, DiscoveryTopic(p)) == Wanted(a.entities, a.block, p);
    }
  }

  /** A link's announcement, made to a broker it agrees with, leaves the broker showing exactly the catalogue. */
  lemma AnnouncingShows(driver: Driver, o: Options, l: LinkState, s: Session, b: Broker, taken: nat -> bool, most: nat)
    requires Wellformed(driver) && NamedApart(driver)
    requires Accepts(taken) && l.publishedFor.Some? && Packs(s.view) <= most && Agreed(driver, l.announced, b, most)
    ensures var out := Announcing(driver, o, l, s);
            var after := Deliver(b, out.discovery, taken);
            && out.link.announced.Some? && out.link.publishedFor.Some?
            && Shows(after, EntitiesOf(Wished(o, s), driver), s.block)
            && (Sweeps(driver, most) ==> Agreed(driver, out.link.announced, after, most))
  {
    hide EntitiesOf, Pass, Shows, Within, NamedApart, IndexOf, Sweeps, Packs;
    var c := Wished(o, s);
    if !Describes(l.announced, s.block, c) {
      if l.announced.Some? {
        ShownIsPrevious(driver, b, l.announced.value);
      }
      KeysDistinct(c, driver);
      var after := Deliver(b, Pass(driver, l.announced, EntitiesOf(c, driver), s.block), taken);
      PassShowsExactly(driver, b, l.announced, EntitiesOf(c, driver), s.block, taken);
      AcceptedIsSpared(b, Pass(driver, l.announced, EntitiesOf(c, driver), s.block), taken);
      hide AllSpared;
      assert Shows(after, EntitiesOf(c, driver), s.block);
      if Sweeps(driver, most) {
        ShownIsWithin(driver, after, c, s.block, most);
      }
    }
  }

  /** On discovery topics, only the announcement counts. */
  lemma OnlyTheAnnouncement(driver: Driver, w: World, h: Happening, announced: Option<Announcement>, most: nat)
    requires Wellformed(driver) && Accepts(h.taken)
    ensures var b := Deliver(Losing(w.broker, h.event), Reaction(driver, w, h.event, h.now).discovery, h.taken);
            && (Agreed(driver, announced, b, most) ==> Agreed(driver, announced, After(driver, w, h).broker, most))
            && (forall es, block :: Shows(b, es, block) ==> Shows(After(driver, w, h).broker, es, block))
  {
    hide Reaction, Deliver, Losing, After, Wanted, Kept, EntitiesOf, Everything;
    var ps := Reaction(driver, w, h.event, h.now).discovery;
    var b := Deliver(Losing(w.broker, h.event), ps, h.taken);
    var after := After(driver, w, h).broker;
    forall p: Place
      ensures Lookup(after, DiscoveryTopic(p)) == Lookup(b, DiscoveryTopic(p))
    {
      Delivered(driver, w, h, DiscoveryTopic(p));
      DeliveredAt(Losing(w.broker, h.event), ps, h.taken, DiscoveryTopic(p));
    }
    assert forall p: Place :: DiscoveryTopic(p) in after <==> Lookup(after, DiscoveryTopic(p)).Some?;
    assert forall p: Place :: DiscoveryTopic(p) in b <==> Lookup(b, DiscoveryTopic(p)).Some?;
  }

  /** What a link goes into an announcement with, if the event makes it announce. */
  function Going(w: World, h: Happening): LinkState {
    match h.event
    case Connected(generation) => w.link.(announced := None, publishedFor := Some(generation))
    case FrameSeen(stamp) => w.link.(arrived := Some(h.now), lastUpdate := Some(stamp))
    case _ => w.link
  }

  lemma AnnouncementOf(driver: Driver, w: World, h: Happening)
    requires Wellformed(driver)
    ensures var out := Reaction(driver, w, h.event, h.now);
            if Announces(w, h.event) then
              var a := Announcing(driver, w.options, Going(w, h), w.session);
              && Going(w, h).publishedFor.Some?
              && out.discovery == a.discovery && out.link.announced == a.link.announced
              && out.link.publishedFor == a.link.publishedFor && out.link.fields == a.link.fields
            else
              && out.discovery == []
              && if h.event.Started? then out.link == Unlinked
                 else out.link.announced == w.link.announced && out.link.publishedFor == w.link.publishedFor
                      && out.link.fields == w.link.fields
  {
    hide Pass, EntitiesOf, IndexOf, Tell, Says, Describes;
  }

  lemma AfterIs(driver: Driver, w: World, h: Happening)
    requires Wellformed(driver)
    ensures var (after, out) := (After(driver, w, h), Reaction(driver, w, h.event, h.now));
            && after.link == out.link
            && after.options == (if h.event.Started? then h.event.options else w.options)
            && after.session == (if h.event.SessionMoved? then h.event.session else w.session)
            && after.broker == Deliver(Losing(w.broker, h.event), out.Said(), h.taken)
            && after.behind == BehindAfter(w.behind, h.event)
            && after.now == h.now
  {}

  lemma StepReconciled(driver: Driver, w: World, h: Happening, most: nat)
    requires Wellformed(driver) && NamedApart(driver)
    requires Within(w.broker, driver, None) && Packs(w.session.view) <= most
    requires Reconciled(driver, w, most) && Accepts(h.taken)
    ensures Sweeps(driver, most) ==> Reconciled(driver, After(driver, w, h), most)
    ensures Announces(w, h.event) && !After(driver, w, h).behind ==> Current(driver, After(driver, w, h))
  {
    hide Reaction, After, NamedApart, Sweeps, Announcing, Packs, Within, Shows, EntitiesOf, Describes;
    AfterIs(driver, w, h);
    AnnouncementOf(driver, w, h);
    if Announces(w, h.event) {
      AnnouncingPublishes(driver, w.options, Going(w, h), w.session);
    }
    if !BehindAfter(w.behind, h.event) {
      assert Agreed(driver, if Announces(w, h.event) then Going(w, h).announced else w.link.announced, w.broker, most);
      hide Agreed;
      StepAgrees(driver, w, h, most);
    }
  }

  lemma AnnouncingPublishes(driver: Driver, o: Options, l: LinkState, s: Session)
    requires Wellformed(driver) && l.publishedFor.Some?
    ensures var out := Announcing(driver, o, l, s); out.link.announced.Some? && out.link.publishedFor.Some?
  {
    hide EntitiesOf, Pass, IndexOf;
  }

  lemma StepAgrees(driver: Driver, w: World, h: Happening, most: nat)
    requires Wellformed(driver) && NamedApart(driver) && Packs(w.session.view) <= most
    requires Within(w.broker, driver, None) && Accepts(h.taken) && !h.event.Forgot?
    requires Agreed(driver, if Announces(w, h.event) then Going(w, h).announced else w.link.announced, w.broker, most)
    ensures var after := After(driver, w, h);
            Sweeps(driver, most) ==> Agreed(driver, after.link.announced, after.broker, most)
    ensures Announces(w, h.event) ==> Current(driver, After(driver, w, h))
  {
    assert h.event.Started? ==> Agreed(driver, None, w.broker, most);
    hide Reaction, After, Agreed, NamedApart, Sweeps, Announcing, Packs, Within;
    AfterIs(driver, w, h);
    AnnouncementOf(driver, w, h);
    OnlyTheAnnouncement(driver, w, h, Reaction(driver, w, h.event, h.now).link.announced, most);
    if Announces(w, h.event) {
      AnnouncingShows(driver, w.options, Going(w, h), w.session, w.broker, h.taken, most);
    } else {
      assert Deliver(w.broker, [], h.taken) == w.broker;
    }
  }

  /** What the link remembers of its announcement is the catalogue it announced, its index and its fields. */
  predicate Faithful(driver: Driver, l: LinkState)
    requires Wellformed(driver)
  {
    match l.announced
    case None => true
    case Some(a) =>
      && a.entities == EntitiesOf(a.catalogue, driver)
      && a.indexed == IndexOf(a.entities)
      && l.fields == FieldsOf(a.entities)
  }

  lemma AnnouncingFaithful(driver: Driver, o: Options, l: LinkState, s: Session)
    requires Wellformed(driver) && Faithful(driver, l)
    ensures var a := Announcing(driver, o, l, s).link;
            && Faithful(driver, a)
            && (l.publishedFor.Some? ==>
                  a.announced.Some? && a.announced.value.entities == EntitiesOf(Wished(o, s), driver)
                  && a.publishedFor.Some?)
  {
    hide EntitiesOf, Pass, IndexOf, FieldsOf;
  }

  /** Whatever happens to the queue and the broker. */
  lemma {:induction false} RunFaithful(driver: Driver, w: World, trace: seq<Happening>)
    requires Wellformed(driver) && Faithful(driver, w.link)
    ensures Faithful(driver, Run(driver, w, trace).link)
  {
    if trace != [] {
      var n := |trace| - 1;
      var before, h := Run(driver, w, trace[..n]), trace[n];
      hide Reaction, After, Announcing, EntitiesOf, IndexOf, FieldsOf;
      RunFaithful(driver, w, trace[..n]);
      AfterIs(driver, before, h);
      AnnouncementOf(driver, before, h);
      if Announces(before, h.event) {
        AnnouncingFaithful(driver, before.options, Going(before, h), before.session);
      }
    }
  }

  // ------------------------------------------------------------------ nothing unforeseen

  /** A topic the first announcement for a connection knows of. */
  predicate Foreseen(driver: Driver, p: Place)
    requires Wellformed(driver)
  {
    Kept(Everything(driver), p) || p in Retired
  }

  /** Nothing is announced but what is foreseen. */
  predicate Foresees(driver: Driver, ps: seq<Publication>)
    requires Wellformed(driver)
  {
    forall q :: q in ps && q.Retained? && q.topic.DiscoveryTopic? && q.content.Some? ==> Foreseen(driver, q.topic.place)
  }

  /** However much of it the queue takes. */
  lemma {:induction false} DeliveredForeseen(driver: Driver, b: Broker, ps: seq<Publication>, taken: nat -> bool)
    requires Wellformed(driver) && Within(b, driver, None) && Foresees(driver, ps)
    ensures Within(Deliver(b, ps, taken), driver, None)
  {
    hide Everything, Kept;
    if ps != [] {
      DeliveredForeseen(driver, b, ps[..|ps| - 1], taken);
      assert ps[|ps| - 1] in ps;
    }
  }

  lemma AnnouncedIsEntity(driver: Driver, announced: Option<Announcement>, es: seq<Entity>, block: DeviceBlock,
                          q: Publication)
    requires Wellformed(driver) && q in Pass(driver, announced, es, block) && q.Retained? && q.content.Some?
    ensures exists e :: e in es && q.topic == DiscoveryTopic(PlaceOf(e))
  {
    var gone := Withdrawn(driver, announced, es);
    hide Withdrawn;
    var i :| 0 <= i < |gone| + |es| && Pass(driver, announced, es, block)[i] == q;
    assert es[i - |gone|] in es;
  }

  lemma AnnouncingForesees(driver: Driver, announced: Option<Announcement>, c: Catalogue, block: DeviceBlock, most: nat)
    requires Wellformed(driver) && Sweeps(driver, most) && c.packs <= most
    ensures Foresees(driver, Pass(driver, announced, EntitiesOf(c, driver), block))
  {
    var es := EntitiesOf(c, driver);
    hide EntitiesOf, Everything, Pass;
    forall q | q in Pass(driver, announced, es, block) && q.Retained? && q.topic.DiscoveryTopic? && q.content.Some?
      ensures Foreseen(driver, q.topic.place)
    {
      AnnouncedIsEntity(driver, announced, es, block, q);
      var e :| e in es && q.topic == DiscoveryTopic(PlaceOf(e));
      assert PlaceOf(e) in Places(Everything(driver)) || PlaceOf(e) in Retired;
    }
  }

  lemma ReactionForesees(driver: Driver, w: World, h: Happening, most: nat)
    requires Wellformed(driver) && Sweeps(driver, most) && Packs(w.session.view) <= most
    ensures Foresees(driver, Reaction(driver, w, h.event, h.now).Said())
  {
    hide EntitiesOf, Everything, Pass, Kept, Sweeps, Packs, Reaction;
    ReactionKinds(driver, w, h.event, h.now);
    AnnouncementOf(driver, w, h);
    AnnouncingForesees(driver, Going(w, h).announced, Wished(w.options, w.session), w.session.block, most);
  }

  /** Over every run, whatever the queue refuses and the broker loses, the broker holds no discovery topic the
    * next connection would not sweep. */
  lemma {:induction false} RunForeseen(driver: Driver, w: World, trace: seq<Happening>, most: nat)
    requires Wellformed(driver) && Sweeps(driver, most) && Within(w.broker, driver, None)
    requires Packs(w.session.view) <= most
    requires forall h :: h in trace && h.event.SessionMoved? ==> Packs(h.event.session.view) <= most
    ensures Within(Run(driver, w, trace).broker, driver, None) && Packs(Run(driver, w, trace).session.view) <= most
  {
    if trace != [] {
      var n := |trace| - 1;
      assert trace[n] in trace && forall h :: h in trace[..n] ==> h in trace;
      hide After, Sweeps, Packs, Everything, Kept, Reaction, Foresees;
      RunForeseen(driver, w, trace[..n], most);
      var before, h := Run(driver, w, trace[..n]), trace[n];
      AfterIs(driver, before, h);
      ReactionForesees(driver, before, h, most);
      var said := Reaction(driver, before, h.event, h.now).Said();
      DeliveredForeseen(driver, Losing(before.broker, h.event), said, h.taken);
    }
  }

  /** Over every run of any number of links, configurations, connections and losses, as long as the queue takes
    * everything: each event that announces leaves the broker's discovery topics exactly the current catalogue's,
    * each with the current device block, unless the broker has forgotten something of which the link has yet to
    * learn. */
  lemma {:induction false} RunReconciled(driver: Driver, w: World, trace: seq<Happening>, most: nat)
    requires Wellformed(driver) && NamedApart(driver) && Sweeps(driver, most)
    requires Within(w.broker, driver, None) && Packs(w.session.view) <= most
    requires Reconciled(driver, w, most) && Faultless(trace, most)
    ensures Reconciled(driver, Run(driver, w, trace), most)
    ensures trace != [] && !Run(driver, w, trace).behind ==>
              var n := |trace| - 1;
              Announces(Run(driver, w, trace[..n]), trace[n].event) ==> Current(driver, Run(driver, w, trace))
  {
    if trace != [] {
      hide Reconciled, Current, NamedApart, Sweeps, After, Announces, Within, Packs;
      var n := |trace| - 1;
      assert trace[n] in trace && forall h :: h in trace[..n] ==> h in trace;
      RunReconciled(driver, w, trace[..n], most);
      RunForeseen(driver, w, trace[..n], most);
      StepReconciled(driver, Run(driver, w, trace[..n]), trace[n], most);
    }
  }

  /** A frame says how many packs there are by its first reading of that name; without one there is one. */
  lemma PacksExactly(view: View, i: nat)
    ensures Packs(None) == 1
    ensures (forall r :: r in view ==> r.name != "battery_pack_count") ==> Packs(Some(view)) == 1
    ensures i < |view| && view[i].name == "battery_pack_count"
              && (forall j :: 0 <= j < i ==> view[j].name != "battery_pack_count") ==>
              Packs(Some(view)) == if view[i].whole.Some? then view[i].whole.value else 1
  {
    if forall r :: r in view ==> r.name != "battery_pack_count" {
      NotNamed(view, "battery_pack_count");
    }
    if i < |view| && view[i].name == "battery_pack_count"
       && forall j :: 0 <= j < i ==> view[j].name != "battery_pack_count" {
      NamedIsFirst(view, "battery_pack_count", i);
    }
  }

  /** A broker that shows the current catalogue has no topic of a pack beyond those the device has, but for what an
    * exposed setting is named. */
  lemma NoAbsentPack(driver: Driver, w: World, p: Place)
    requires Wellformed(driver) && Current(driver, w) && DiscoveryTopic(p) in w.broker
    requires forall s :: s in Settings(driver, w.options.slots) ==> s.name != p.1
    ensures BatteryPack(p.1).Some? ==> BatteryPack(p.1).value <= Packs(w.session.view)
  {
    var c := Wished(w.options, w.session);
    var es := EntitiesOf(c, driver);
    hide EntitiesOf, BatteryPack, Packs, Settings, Wanted;
    assert Lookup(w.broker, DiscoveryTopic(p)) == Wanted(es, w.session.block, p);
    WantedIs(es, w.session.block, p);
    var i :| 0 <= i < |es| && PlaceOf(es[i]) == p;
    NoFurtherPack(c, driver, es[i]);
  }

  /** So over every run as above: when a frame that counts the packs has been announced for, the broker has no discovery
    * topic of a pack beyond that count. */
  lemma RunHasNoAbsentPack(driver: Driver, w: World, trace: seq<Happening>, most: nat, p: Place)
    requires Wellformed(driver) && NamedApart(driver) && Sweeps(driver, most)
    requires Within(w.broker, driver, None) && Packs(w.session.view) <= most
    requires Reconciled(driver, w, most) && Faultless(trace, most) && trace != []
    requires Announces(Run(driver, w, trace[..|trace| - 1]), trace[|trace| - 1].event)
    requires !Run(driver, w, trace).behind && DiscoveryTopic(p) in Run(driver, w, trace).broker
    requires forall s :: s in Settings(driver, Run(driver, w, trace).options.slots) ==> s.name != p.1
    ensures BatteryPack(p.1).Some? ==> BatteryPack(p.1).value <= Packs(Run(driver, w, trace).session.view)
  {
    hide Run, NamedApart, Sweeps, Within, Packs, Reconciled, Announces, Current, BatteryPack, Settings, Faultless;
    RunReconciled(driver, w, trace, most);
    NoAbsentPack(driver, Run(driver, w, trace), p);
  }

  // ------------------------------------------------------------------ exactly when it does

  /** A first link, and a broker that holds nothing. */
  predicate Clean(w: World) { w.link == Unlinked && w.broker == map[] && !w.behind }

  /** Every event of every run, however configured, that announces leaves the broker showing exactly what it
    * should. */
  ghost predicate AlwaysReconciles(driver: Driver, most: nat)
    requires Wellformed(driver)
  {
    forall w: World, trace: seq<Happening>, h: Happening
      | Clean(w) && Packs(w.session.view) <= most && Legal(driver, w, trace) && Faultless(trace, most)
        && LegalStep(Run(driver, w, trace), h) && Faultless([h], most) && Announces(Run(driver, w, trace), h.event)
        && !After(driver, Run(driver, w, trace), h).behind
      :: Current(driver, After(driver, Run(driver, w, trace), h))
  }

  /** The widest configuration of a device that has reported nothing has no topic that `everything` lacks. */
  lemma WidestWithin(driver: Driver, p: Place)
    requires Wellformed(driver) && Kept(EntitiesOf(Catalogue(driver.slots, Everyone, 1), driver), p)
    ensures p in Places(Everything(driver))
  {
    var c := Catalogue(driver.slots, Everyone, 1);
    var es := EntitiesOf(c, driver);
    var i :| 0 <= i < |es| && PlaceOf(es[i]) == p;
    var e := es[i];
    hide Everything, Places;
    InCatalogue(c, driver, e);
    InCatalogue(Widest(driver), driver, e);
    assert forall m :: m in driver.measurements && Published(c, Names(Settings(driver, c.slots)), m) ==>
        Published(Widest(driver), Names(Settings(driver, c.slots)), m);
    assert forall s :: SettingEntity(c, driver, s) == SettingEntity(Widest(driver), driver, s);
    hide EntitiesOf, SettingEntity, Settings, Published, ForReading;
    WidestHas(driver, e);
  }

  /** A new connection's first announcement says nothing about a topic that is in neither the catalogue nor
    * what it sweeps. */
  lemma Unmentioned(driver: Driver, w: World, h: Happening, p: Place)
    requires Wellformed(driver) && NamedApart(driver) && Accepts(h.taken)
    requires h.event.Connected? && h.event.generation > 0
    requires p !in Places(Everything(driver)) && p !in Retired
    requires !Kept(EntitiesOf(Wished(w.options, w.session), driver), p)
    ensures Lookup(After(driver, w, h).broker, DiscoveryTopic(p)) == Lookup(w.broker, DiscoveryTopic(p))
  {
    assert !Kept(Everything(driver), p);
    hide Reaction, After, EntitiesOf, Everything, Latest, Pass, Places, Kept, NamedApart;
    var es := EntitiesOf(Wished(w.options, w.session), driver);
    var ps := Pass(driver, None, es, w.session.block);
    AnnouncementOf(driver, w, h);
    Delivered(driver, w, h, DiscoveryTopic(p));
    PassCovers(driver, None, es, w.session.block, p);
    forall q | q in ps
      ensures !On(q, DiscoveryTopic(p))
    {
      var i :| 0 <= i < |ps| && ps[i] == q;
    }
    LatestNone(ps, h.taken, DiscoveryTopic(p));
  }

  lemma CleanIsReconciled(driver: Driver, w: World, most: nat)
    requires Wellformed(driver) && Clean(w)
    ensures Reconciled(driver, w, most) && Within(w.broker, driver, None)
  {
    hide Everything;
  }

  lemma ThreeSteps(driver: Driver, w: World, a: Happening, b: Happening, c: Happening)
    requires Wellformed(driver)
    requires LegalStep(w, a) && LegalStep(After(driver, w, a), b) && LegalStep(After(driver, After(driver, w, a), b), c)
    ensures Legal(driver, w, [a, b, c])
    ensures Run(driver, w, [a, b, c]) == After(driver, After(driver, After(driver, w, a), b), c)
  {
    hide After, LegalStep;
    assert [a, b, c][..2] == [a, b] && [a, b][..1] == [a] && [a][..0] == [];
    assert Run(driver, w, []) == w && Legal(driver, w, []);
    assert Run(driver, w, [a]) == After(driver, w, a) && Legal(driver, w, [a]);
    assert Run(driver, w, [a, b]) == After(driver, After(driver, w, a), b) && Legal(driver, w, [a, b]);
  }

  lemma CurrentShows(driver: Driver, w: World, e: Entity)
    requires Wellformed(driver) && Current(driver, w) && e in EntitiesOf(Wished(w.options, w.session), driver)
    ensures Lookup(w.broker, DiscoveryTopic(PlaceOf(e))).Some?
  {
    hide EntitiesOf, Wished, Wanted;
    var es := EntitiesOf(Wished(w.options, w.session), driver);
    var i :| 0 <= i < |es| && es[i] == e;
    WantedIs(es, w.session.block, PlaceOf(e));
  }

  lemma FirstShown(driver: Driver, w: World, h: Happening, most: nat, e: Entity)
    requires Wellformed(driver) && NamedApart(driver) && Clean(w) && Packs(w.session.view) <= most
    requires LegalStep(w, h) && Faultless([h], most) && h.event.Connected? && h.event.generation > 0
    requires e in EntitiesOf(Wished(w.options, w.session), driver)
    ensures Lookup(After(driver, w, h).broker, DiscoveryTopic(PlaceOf(e))).Some?
  {
    assert h in [h];
    CleanIsReconciled(driver, w, most);
    assert Announces(w, h.event);
    hide After, EntitiesOf, LegalStep, NamedApart, Packs, Reconciled, Wished, Faultless, Announces, Everything;
    hide Reaction, Current, Clean, Within;
    StepReconciled(driver, w, h, most);
    AfterIs(driver, w, h);
    CurrentShows(driver, After(driver, w, h), e);
  }

  /** A first run, which announces a catalogue; then a later one of the widest configuration, whose device has
    * reported nothing yet. */
  const Soon: nat -> bool := (n: nat) => true
  const FirstConnects := Happening(Connected(1), 0, Soon)
  const SessionEmpties := Happening(SessionMoved(Session("", None, None, [], None)), 0, Soon)

  function FirstWorld(c: Catalogue): World {
    World(Options(c.slots, c.permitted, 0), Unlinked,
          Session("", None, None, [], Some([FrameReading("battery_pack_count", 0, "", Some(c.packs), None)])),
          map[], false, 0)
  }

  function SecondStarts(driver: Driver): Happening {
    Happening(Started(Options(driver.slots, Everyone, 0)), 0, Soon)
  }

  lemma LaterRun(driver: Driver, w: World)
    requires Wellformed(driver) && w.now == 0
    ensures var started := After(driver, w, SecondStarts(driver));
            var ready := After(driver, started, SessionEmpties);
            && LegalStep(w, SecondStarts(driver))
            && LegalStep(started, SessionEmpties) && LegalStep(ready, FirstConnects)
            && ready.broker == w.broker && ready.link == Unlinked
            && Wished(ready.options, ready.session) == Catalogue(driver.slots, Everyone, 1)
            && Announces(ready, FirstConnects.event)
  {}

  lemma OneBadRun(driver: Driver, most: nat, w: World, trace: seq<Happening>, h: Happening)
    requires Wellformed(driver) && Clean(w) && Packs(w.session.view) <= most && Legal(driver, w, trace)
    requires Faultless(trace, most) && Faultless([h], most)
    requires LegalStep(Run(driver, w, trace), h) && Announces(Run(driver, w, trace), h.event)
    requires !After(driver, Run(driver, w, trace), h).behind
    requires !Current(driver, After(driver, Run(driver, w, trace), h))
    ensures !AlwaysReconciles(driver, most)
  {
    hide Legal, Run, After, LegalStep, Faultless, Current, Packs, Announces;
  }

  lemma FirstConnectsWell(driver: Driver, c: Catalogue, most: nat)
    requires Wellformed(driver) && c.packs <= most && 1 <= most
    ensures var w := FirstWorld(c);
            && Clean(w) && Wished(w.options, w.session) == c && Packs(w.session.view) == c.packs
            && LegalStep(w, FirstConnects) && After(driver, w, FirstConnects).now == 0
            && Faultless([FirstConnects], most)
            && Faultless([FirstConnects, SecondStarts(driver), SessionEmpties], most)
  {
    hide Reaction, Deliver;
  }

  /** Where an entity's topic is in nobody's sweep, a later run configured without it leaves it behind: announced
    * once, it is never withdrawn. */
  lemma LeftBehind(driver: Driver, most: nat, c: Catalogue, e: Entity)
    requires Wellformed(driver) && NamedApart(driver) && c.packs <= most && 1 <= most && e in EntitiesOf(c, driver)
    requires PlaceOf(e) !in Places(Everything(driver)) && PlaceOf(e) !in Retired
    ensures !AlwaysReconciles(driver, most)
  {
    hide EntitiesOf, Everything, After, LegalStep, NamedApart, Wished, Packs, Kept, Places, Announces, Run, Legal;
    hide Faultless, FirstWorld, Clean, SecondStarts, AlwaysReconciles, Current;
    var w, trace := FirstWorld(c), [FirstConnects, SecondStarts(driver), SessionEmpties];
    FirstConnectsWell(driver, c, most);
    FirstShown(driver, w, FirstConnects, most, e);
    LaterRun(driver, After(driver, w, FirstConnects));
    ThreeSteps(driver, w, FirstConnects, SecondStarts(driver), SessionEmpties);
    NeverWithdrawn(driver, Run(driver, w, trace), PlaceOf(e));
    AfterIs(driver, Run(driver, w, trace), FirstConnects);
    OneBadRun(driver, most, w, trace, FirstConnects);
  }

  lemma NeverWithdrawn(driver: Driver, w: World, p: Place)
    requires Wellformed(driver) && NamedApart(driver) && w.link == Unlinked
    requires Wished(w.options, w.session) == Catalogue(driver.slots, Everyone, 1)
    requires p !in Places(Everything(driver)) && p !in Retired && Lookup(w.broker, DiscoveryTopic(p)).Some?
    ensures !Current(driver, After(driver, w, FirstConnects))
  {
    hide EntitiesOf, Everything, After, NamedApart, Wished, Places;
    var es := EntitiesOf(Wished(w.options, w.session), driver);
    if Kept(es, p) {
      WidestWithin(driver, p);
    }
    AfterIs(driver, w, FirstConnects);
    Unmentioned(driver, w, FirstConnects, p);
    WantedIs(es, w.session.block, p);
  }

  lemma SweptReconciles(driver: Driver, most: nat, w: World, trace: seq<Happening>, h: Happening)
    requires Wellformed(driver) && NamedApart(driver) && Sweeps(driver, most)
    requires Clean(w) && Packs(w.session.view) <= most && Faultless(trace, most) && Faultless([h], most)
    requires Announces(Run(driver, w, trace), h.event) && !After(driver, Run(driver, w, trace), h).behind
    ensures Current(driver, After(driver, Run(driver, w, trace), h))
  {
    assert h in [h];
    hide Run, After, NamedApart, Sweeps, Packs, Announces, Current, Reconciled, Within;
    CleanIsReconciled(driver, w, most);
    RunReconciled(driver, w, trace, most);
    RunForeseen(driver, w, trace, most);
    StepReconciled(driver, Run(driver, w, trace), h, most);
  }

  /** Discovery reconciles on every run exactly when the first announcement's sweep covers every configuration. */
  lemma AlwaysReconcilesExactly(driver: Driver, most: nat)
    requires Wellformed(driver) && NamedApart(driver) && 1 <= most
    ensures AlwaysReconciles(driver, most) <==> Sweeps(driver, most)
  {
    hide EntitiesOf, Everything, NamedApart, Places, Legal, LegalStep, Faultless, Current, After, Announces, Packs;
    if Sweeps(driver, most) {
      forall w: World, trace: seq<Happening>, h: Happening
        | Clean(w) && Packs(w.session.view) <= most && Legal(driver, w, trace) && Faultless(trace, most)
          && LegalStep(Run(driver, w, trace), h) && Faultless([h], most) && Announces(Run(driver, w, trace), h.event)
          && !After(driver, Run(driver, w, trace), h).behind
        ensures Current(driver, After(driver, Run(driver, w, trace), h))
      {
        SweptReconciles(driver, most, w, trace, h);
      }
    } else {
      var c: Catalogue, e :| c.packs <= most && e in EntitiesOf(c, driver)
        && PlaceOf(e) !in Places(Everything(driver)) && PlaceOf(e) !in Retired;
      LeftBehind(driver, most, c, e);
    }
  }
}
