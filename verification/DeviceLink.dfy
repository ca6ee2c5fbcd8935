/** One device's link: a specification of each thing it publishes, and the object that does
  * (src/homeassistant/publisher.rs:334-939). */
module DeviceLink {
  import opened Prelude
  import opened Entities
  import opened Frames
  import opened StatePayload
  import opened Publishing
  import opened Gates
  import opened Discovery
  import Resting

  /** What the session keeps current: what its identity report says of the device, its named entries, the firmware
    * version the driver makes of report and frame, the settings read back, and the last frame. */
  datatype Session = Session(
    block: DeviceBlock,
    config: Option<seq<ConfigEntry>>,
    firmware: Option<string>,
    settings: seq<Stored>,
    view: Option<View>)

  datatype Options = Options(slots: nat, permitted: Permitted, offlineAfter: nat)

  datatype LinkState = LinkState(
    publishedFor: Option<nat>,
    announced: Option<Announcement>,
    arrived: Option<nat>,
    lastUpdate: Option<string>,
    present: bool,
    fields: set<string>,
    gates: Record,
    rest: Resting.Watch)

  const Unlinked: LinkState := LinkState(None, None, None, None, false, {}, map[], Resting.Watch(None, None))

  /** The link after something happened, and what it offered the queue meanwhile. */
  datatype Outcome = Outcome(
    link: LinkState,
    discovery: seq<Publication>,
    presence: seq<Publication>,
    rest: seq<Publication>)
  {
    function Said(): seq<Publication> { discovery + presence + rest }
  }

  /** How many battery packs the catalogue has entities for: as many as the frame says, or one. */
  function Packs(view: Option<View>): nat {
    if view == None then 1
    else match Whole(view.value, "battery_pack_count") { case Some(n) => n case None => 1 }
  }

  function Wished(o: Options, s: Session): Catalogue {
    Catalogue(o.slots, o.permitted, Packs(s.view))
  }

  predicate Describes(a: Option<Announcement>, block: DeviceBlock, c: Catalogue) {
    a.Some? && a.value.block == block && a.value.catalogue == c
  }

  /** The index kept with an announcement is the announced catalogue's. */
  predicate WellIndexed(a: Option<Announcement>) {
    a.Some? ==> a.value.indexed == IndexOf(a.value.entities)
  }

  function Announcing(driver: Driver, o: Options, l: LinkState, s: Session): Outcome
    requires Wellformed(driver)
  {
    var c := Wished(o, s);
    if l.publishedFor == None || Describes(l.announced, s.block, c) then Outcome(l, [], [], [])
    else
      var es := EntitiesOf(c, driver);
      Outcome(
        l.(announced := Some(Announcement(s.block, c, es, IndexOf(es))), fields := FieldsOf(es)),
        Pass(driver, l.announced, es, s.block), [], [])
  }

  const LAST_UPDATE := FieldTopic(FromStatus, "last_update")
  const FIRMWARE_VERSION := FieldTopic(FromStatus, "firmware_version")

  function OneField(key: string, text: string): Option<Content> { Some(Fields(map[key := Rendered(text)])) }

  function StampSays(l: LinkState): seq<Publication> {
    if l.lastUpdate == None then [] else [Retained(LAST_UPDATE, OneField("last_update", l.lastUpdate.value))]
  }

  function FirmwareSays(s: Session): seq<Publication> {
    if s.firmware == None then [] else [Retained(FIRMWARE_VERSION, OneField("firmware_version", s.firmware.value))]
  }

  function PresenceSays(l: LinkState, s: Session): seq<Publication> {
    if l.publishedFor == None then []
    else
      [Retained(AvailabilityTopic, Some(Online(l.present))), Retained(StatusTopic, Some(Online(l.present)))]
      + StampSays(l) + FirmwareSays(s)
  }

  function ObjectSays(l: LinkState, t: Topic, payload: Object): seq<Publication> {
    if l.publishedFor == None || payload == map[] then [] else [Retained(t, Some(Fields(payload)))]
  }

  function SettingsSays(l: LinkState, s: Session): seq<Publication> {
    ObjectSays(l, SettingsTopic, SettingsObject(s.settings, l.fields))
  }

  function ConfigSays(l: LinkState, s: Session): seq<Publication> {
    if s.config == None then [] else ObjectSays(l, ConfigTopic, ConfigObject(s.config.value, l.fields))
  }

  /** A setting that cannot share the object, on a topic of its own. */
  function AloneSays(l: LinkState, x: Stored): seq<Publication> {
    if l.announced == None || x.name !in l.announced.value.indexed.unshared then []
    else ObjectSays(l, FieldTopic(FromSettings, x.name), SettingsObject([x], l.fields))
  }

  function UnsharedSays(l: LinkState, stored: seq<Stored>): seq<Publication> {
    if stored == [] then [] else UnsharedSays(l, stored[..|stored| - 1]) + AloneSays(l, stored[|stored| - 1])
  }

  function Gating(l: LinkState, s: Session): (LinkState, seq<Publication>) {
    if l.publishedFor == None || l.announced == None then (l, [])
    else
      var (g, ps) := Tell(l.gates, Says(l.announced.value.entities, Facts(s.settings, s.view)));
      (l.(gates := g), ps)
  }

  /** One frame's state, which the resting tracker sees whether or not it is published. */
  function Stating(l: LinkState, view: View, now: nat): (LinkState, seq<Publication>) {
    var rest := Resting.Observed(l.rest, Resting.Call(now, view));
    var payload := TelemetryObject(view, l.fields, rest.sample);
    (l.(rest := rest), if l.publishedFor == None || payload == map[] then [] else [State(payload)])
  }

  /** Whether the last frame arrived less than the limit ago. */
  predicate Fresh(o: Options, l: LinkState, now: nat) {
    l.arrived.Some? && (if now < l.arrived.value then 0 else now - l.arrived.value) < o.offlineAfter
  }

  function SettingsMoving(l: LinkState, s: Session): Outcome {
    var (g, ps) := Gating(l, s);
    Outcome(g, [], [], SettingsSays(l, s) + UnsharedSays(l, s.settings) + ps)
  }

  function Republishing(driver: Driver, o: Options, l: LinkState, s: Session, generation: nat, now: nat): Outcome
    requires Wellformed(driver)
  {
    if generation == 0 then Outcome(l, [], [], [])
    else
      var a := Announcing(driver, o, l.(announced := None, publishedFor := Some(generation)), s);
      var m := SettingsMoving(a.link, s);
      var (t, ps) := if Fresh(o, m.link, now) && s.view.Some? then Stating(m.link, s.view.value, now) else (m.link, []);
      Outcome(t, a.discovery, PresenceSays(a.link, s), m.rest + ps)
  }

  function FrameArriving(driver: Driver, o: Options, l: LinkState, s: Session, now: nat, stamp: string): Outcome
    requires Wellformed(driver)
  {
    if s.view == None then Outcome(l, [], [], [])
    else
      var a := Announcing(driver, o, l.(arrived := Some(now), lastUpdate := Some(stamp)), s);
      var p := a.link.(present := true);
      var (t, state) := Stating(p, s.view.value, now);
      var (g, ps) := Gating(t, s);
      Outcome(g, a.discovery, PresenceSays(p, s), state + ps)
  }

  function Identifying(driver: Driver, o: Options, l: LinkState, s: Session): Outcome
    requires Wellformed(driver)
  {
    var a := Announcing(driver, o, l, s);
    Outcome(a.link, a.discovery, [], ConfigSays(a.link, s))
  }

  /** When the link's timer goes off next. */
  function Deadline(o: Options, l: LinkState): Option<nat> {
    if l.present && l.arrived.Some? then Some(l.arrived.value + o.offlineAfter) else None
  }

  function Quieting(l: LinkState, s: Session): Outcome {
    if !l.present then Outcome(l, [], [], [])
    else
      var q := l.(present := false);
      Outcome(q, [], PresenceSays(q, s), [])
  }

  /** A setting's own topic says what the device answered for that setting, and nothing before it has answered. */
  lemma {:induction false} UnsharedExactly(l: LinkState, stored: seq<Stored>, p: Publication)
    ensures p in UnsharedSays(l, stored) <==>
            && l.publishedFor.Some? && l.announced.Some?
            && exists x :: x in stored && x.name in l.announced.value.indexed.unshared && x.name in l.fields
                           && p == Retained(FieldTopic(FromSettings, x.name), OneField(x.name, x.text))
  {
    if stored != [] {
      var x := stored[|stored| - 1];
      UnsharedExactly(l, stored[..|stored| - 1], p);
      assert forall y :: y in stored <==> y in stored[..|stored| - 1] || y == x;
      assert [x][..0] == [];
      assert SettingsObject([x], l.fields) == if x.name in l.fields then map[x.name := Rendered(x.text)] else map[];
      assert x.name in l.fields ==> x.name in SettingsObject([x], l.fields);
    }
  }

  class Link {
    const driver: Driver
    const options: Options
    var publishedFor: Option<nat>
    var announced: Option<Announcement>
    var arrived: Option<nat>
    var lastUpdate: Option<string>
    var present: bool
    var fields: set<string>
    var gates: Record
    const rest: Resting.RestWatch
    /** Everything offered to the publishing queue, whether or not it took it. */
    var offered: seq<Publication>

    constructor (driver: Driver, options: Options)
      ensures Value() == Unlinked && offered == [] && this.driver == driver && this.options == options && fresh(rest)
    {
      this.driver := driver;
      this.options := options;
      publishedFor := None;
      announced := None;
      arrived := None;
      lastUpdate := None;
      present := false;
      fields := {};
      gates := map[];
      rest := new Resting.RestWatch();
      offered := [];
    }

    ghost function Value(): LinkState
      reads this, rest
    {
      LinkState(publishedFor, announced, arrived, lastUpdate, present, fields, gates, rest.Value())
    }

    /** Nothing is offered before there is a broker to publish to. */
    method Publish(p: Publication)
      modifies this`offered
      ensures offered == old(offered) + if publishedFor == None then [] else [p]
    {
      if publishedFor == None {
        return;
      }
      offered := offered + [p];
    }

    /** Forget what was announced, and withdraw what is no longer in the catalogue. */
    method Withdraw(keeping: seq<Entity>) returns (n: nat)
      requires Wellformed(driver)
      modifies this`announced, this`offered
      ensures announced == None
      ensures offered == old(offered) +
                if publishedFor == None then [] else Withdrawals(Withdrawn(driver, old(announced), keeping))
      ensures n == |Withdrawn(driver, old(announced), keeping)|
    {
      hide Everything, Swept, Gone;
      var first := announced == None;
      var previous := if first then Everything(driver) else announced.value.entities;
      announced := None;
      var gone := Retractions(previous, keeping, if first then Retired else []);
      ghost var before := offered;
      for i := 0 to |gone|
        invariant announced == None && offered == before + if publishedFor == None then [] else Withdrawals(gone)[..i]
      {
        Publish(Retained(DiscoveryTopic(gone[i]), None));
      }
      n := |gone|;
    }

    /** Nothing is said if nothing there is to describe has changed; otherwise the whole pass is, withdrawals first. */
    method Announce(session: Session)
      requires Wellformed(driver)
      modifies this`announced, this`fields, this`offered
      ensures var out := Announcing(driver, options, old(Value()), session);
              Value() == out.link && offered == old(offered) + out.discovery
      ensures old(WellIndexed(announced)) ==> WellIndexed(announced)
    {
      hide EntitiesOf, Everything, Withdrawn, Withdrawals, IndexOf, Wished, FieldsOf;
      if publishedFor == None {
        return;
      }
      var catalogue := Wished(options, session);
      if Describes(announced, session.block, catalogue) {
        return;
      }
      var entities := EntitiesOf(catalogue, driver);
      var n := Withdraw(entities);
      ghost var before, says := offered, Announcements(entities, session.block);
      assert says[..|entities|] == says;
      assert Pass(driver, old(announced), entities, session.block) ==
             Withdrawals(Withdrawn(driver, old(announced), entities)) + says;
      hide Pass;
      for i := 0 to |entities|
        invariant announced == None && offered == before + says[..i]
      {
        assert says[i] == Retained(DiscoveryTopic(PlaceOf(entities[i])), Some(Description(entities[i], session.block)));
        Publish(Retained(DiscoveryTopic(PlaceOf(entities[i])), Some(Description(entities[i], session.block))));
      }
      var indexed := BuildIndex(entities);
      fields := FieldsOf(entities);
      announced := Some(Announcement(session.block, catalogue, entities, indexed));
      assert offered == old(offered) + Pass(driver, old(announced), entities, session.block);
    }

    method PublishPresence(session: Session)
      modifies this`offered
      ensures offered == old(offered) + PresenceSays(Value(), session)
    {
      Publish(Retained(AvailabilityTopic, Some(Online(present))));
      Publish(Retained(StatusTopic, Some(Online(present))));
      if lastUpdate.Some? {
        Publish(Retained(LAST_UPDATE, OneField("last_update", lastUpdate.value)));
      }
      if session.firmware.Some? {
        Publish(Retained(FIRMWARE_VERSION, OneField("firmware_version", session.firmware.value)));
      }
    }

    method PublishConfig(session: Session)
      modifies this`offered
      ensures offered == old(offered) + ConfigSays(Value(), session)
    {
      if session.config == None {
        return;
      }
      var payload := ConfigObject(session.config.value, fields);
      if payload != map[] {
        Publish(Retained(ConfigTopic, Some(Fields(payload))));
      }
    }

    method PublishSettings(session: Session)
      modifies this`offered
      ensures offered == old(offered) + SettingsSays(Value(), session)
    {
      var payload := SettingsObject(session.settings, fields);
      if payload != map[] {
        Publish(Retained(SettingsTopic, Some(Fields(payload))));
      }
    }

    /** Each setting that has a topic of its own and an answer, in the order the cache has them. */
    method PublishUnshared(session: Session)
      modifies this`offered
      ensures offered == old(offered) + UnsharedSays(Value(), session.settings)
    {
      if publishedFor == None || announced == None {
        NothingUnshared(Value(), session.settings);
        return;
      }
      ghost var l := Value();
      var unshared := announced.value.indexed.unshared;
      for n := 0 to |session.settings|
        invariant offered == old(offered) + UnsharedSays(l, session.settings[..n])
      {
        var x := session.settings[n];
        assert session.settings[..n + 1][..n] == session.settings[..n];
        if x.name in unshared {
          var payload := SettingsObject([x], fields);
          if payload != map[] {
            offered := offered + [Retained(FieldTopic(FromSettings, x.name), Some(Fields(payload)))];
          }
        }
      }
      assert session.settings[..|session.settings|] == session.settings;
    }

    /** Record and publish one answer, if it is news. */
    method Say(key: string, open: bool)
      modifies this`gates, this`offered
      ensures gates == Saying(old(gates), (key, open)).0 && offered == old(offered) + Saying(old(gates), (key, open)).1
    {
      if Lookup(gates, key) == Some(open) {
        return;
      }
      gates := gates[key := open];
      offered := offered + [Retained(GateTopic(key), Some(Online(open)))];
    }

    /** The walk over settings and then readings tells what asking each entity in turn would tell. */
    method PublishGates(session: Session)
      requires WellIndexed(announced)
      modifies this`gates, this`offered
      ensures var (l, ps) := Gating(old(Value()), session);
              Value() == l && offered == old(offered) + ps
    {
      hide IndexOf, Says, FactSays, Tell, Saying;
      if publishedFor == None || announced == None {
        return;
      }
      ghost var es, g, o := announced.value.entities, gates, offered;
      ghost var facts := Facts(session.settings, session.view);
      var indexed := announced.value.indexed;
      TellingNothing(es, facts, g, o);
      for n := 0 to |session.settings|
        invariant Telling(g, o, Says(es, facts[..n]), gates, offered)
      {
        var s := session.settings[n];
        SaysNext(es, facts, n);
        if s.name in indexed.bySetting {
          var dependents := indexed.bySetting[s.name];
          for m := 0 to |dependents|
            invariant Telling(g, o, Says(es, facts[..n]) + Dependents(indexed, facts[n])[..m], gates, offered)
          {
            TellingNext(g, o, Says(es, facts[..n]), Dependents(indexed, facts[n]), m, gates, offered);
            Say(dependents[m].0, s.raw !in dependents[m].1);
          }
        }
      }
      if session.view.Some? {
        for n := 0 to |session.view.value|
          invariant Telling(g, o, Says(es, facts[..|session.settings| + n]), gates, offered)
        {
          var r := session.view.value[n];
          SaysNext(es, facts, |session.settings| + n);
          if r.name in indexed.byReading {
            var dependents := indexed.byReading[r.name];
            for m := 0 to |dependents|
              invariant Telling(g, o, Says(es, facts[..|session.settings| + n])
                                      + Dependents(indexed, facts[|session.settings| + n])[..m], gates, offered)
            {
              TellingNext(g, o, Says(es, facts[..|session.settings| + n]),
                          Dependents(indexed, facts[|session.settings| + n]), m, gates, offered);
              Say(dependents[m], r.raw != 0);
            }
          }
        }
      }
      assert facts[..|facts|] == facts;
    }

    /** The settings object, the settings with topics of their own, and the gates, in that order. */
    method SettingsChanged(session: Session)
      requires WellIndexed(announced)
      modifies this`gates, this`offered
      ensures var out := SettingsMoving(old(Value()), session);
              Value() == out.link && offered == old(offered) + out.rest
    {
      hide Gating, WellIndexed, SettingsSays, UnsharedSays;
      PublishSettings(session);
      PublishUnshared(session);
      PublishGates(session);
    }

    method IsFresh(now: nat) returns (recent: bool)
      ensures recent == Fresh(options, Value(), now)
    {
      recent := arrived.Some? && (if now < arrived.value then 0 else now - arrived.value) < options.offlineAfter;
    }

    method PublishTelemetry(view: View, now: nat)
      modifies this`offered, rest
      ensures var (l, ps) := Stating(old(Value()), view, now);
              Value() == l && offered == old(offered) + ps
    {
      hide Resting.Observed, TelemetryObject;
      var resting := rest.Observe(Resting.Call(now, view));
      var payload := TelemetryObject(view, fields, resting);
      if payload != map[] {
        Publish(State(payload));
      }
    }

    /** What a new connection is told: discovery from the start, then presence, then settings and gates, then state if
      * the last frame is recent. Gates are told only their news. */
    method Republish(generation: nat, session: Session, now: nat)
      requires Wellformed(driver)
      modifies this`publishedFor, this`announced, this`fields, this`gates, this`offered, rest
      ensures var out := Republishing(driver, options, old(Value()), session, generation, now);
              Value() == out.link && offered == old(offered) + out.Said()
    {
      hide Announcing, SettingsMoving, Stating, PresenceSays, IndexOf, Fresh;
      if generation == 0 {
        return;
      }
      ghost var l := Value().(announced := None, publishedFor := Some(generation));
      ghost var a := Announcing(driver, options, l, session);
      announced := None;
      publishedFor := Some(generation);
      Announce(session);
      assert Value() == a.link;
      PublishPresence(session);
      assert offered == old(offered) + (a.discovery + PresenceSays(a.link, session));
      ghost var m := SettingsMoving(a.link, session);
      ghost var before := offered;
      SettingsChanged(session);
      assert Value() == m.link && offered == before + m.rest;
      var recent := IsFresh(now);
      if recent && session.view.Some? {
        PublishTelemetry(session.view.value, now);
      }
    }

    /** What a frame does, in order: it is stamped, announced for, reported present, published, and asked about
      * gates. */
    method TelemetryArrived(session: Session, now: nat, stamp: string)
      requires Wellformed(driver)
      requires WellIndexed(announced)
      modifies this`announced, this`fields, this`arrived, this`lastUpdate, this`present, this`gates, this`offered, rest
      ensures var out := FrameArriving(driver, options, old(Value()), session, now, stamp);
              Value() == out.link && offered == old(offered) + out.Said()
    {
      hide Announcing, Gating, Stating, PresenceSays, WellIndexed;
      if session.view == None {
        return;
      }
      ghost var a := Announcing(driver, options, Value().(arrived := Some(now), lastUpdate := Some(stamp)), session);
      arrived := Some(now);
      lastUpdate := Some(stamp);
      Announce(session);
      assert Value() == a.link;
      if !present {
        present := true;
      }
      ghost var p := a.link.(present := true);
      assert Value() == p;
      PublishPresence(session);
      ghost var t := Stating(p, session.view.value, now);
      PublishTelemetry(session.view.value, now);
      assert Value() == t.0;
      PublishGates(session);
    }

    /** A new identity report: the device page is brought up to date, and what is configured published. */
    method IdentityChanged(session: Session)
      requires Wellformed(driver)
      modifies this`announced, this`fields, this`offered
      ensures var out := Identifying(driver, options, old(Value()), session);
              Value() == out.link && offered == old(offered) + out.Said()
    {
      hide Announcing, ConfigSays;
      Announce(session);
      PublishConfig(session);
    }

    method QuietAt() returns (deadline: Option<nat>)
      ensures deadline == Deadline(options, Value())
    {
      deadline := if present && arrived.Some? then Some(arrived.value + options.offlineAfter) else None;
    }

    /** A device that was present is reported absent; one that was not is left alone. */
    method WentQuiet(session: Session)
      modifies this`present, this`offered
      ensures var out := Quieting(old(Value()), session);
              Value() == out.link && offered == old(offered) + out.Said()
    {
      hide PresenceSays;
      if !present {
        return;
      }
      present := false;
      PublishPresence(session);
    }
  }

  lemma {:induction false} NothingUnshared(l: LinkState, stored: seq<Stored>)
    requires l.publishedFor == None || l.announced == None
    ensures UnsharedSays(l, stored) == []
  {
    if stored != [] {
      NothingUnshared(l, stored[..|stored| - 1]);
    }
  }

  /** What has been recorded and offered after being told some answers. */
  ghost predicate Telling(g: Record, o: seq<Publication>, says: seq<Say>, gates: Record, offered: seq<Publication>) {
    gates == Tell(g, says).0 && offered == o + Tell(g, says).1
  }

  lemma TellingNothing(es: seq<Entity>, facts: seq<Fact>, g: Record, o: seq<Publication>)
    ensures Telling(g, o, Says(es, facts[..0]), g, o)
  {}

  /** One more answer of the value being asked about. */
  lemma TellingNext(g: Record, o: seq<Publication>, says: seq<Say>, dependents: seq<Say>, m: nat, gates: Record,
                    offered: seq<Publication>)
    requires m < |dependents| && Telling(g, o, says + dependents[..m], gates, offered)
    ensures var (h, ps) := Saying(gates, dependents[m]);
            Telling(g, o, says + dependents[..m + 1], h, offered + ps)
  {
    assert (says + dependents[..m + 1])[..|says| + m] == says + dependents[..m];
    var (h, ps) := Saying(gates, dependents[m]);
    var told := Tell(g, says + dependents[..m]).1;
    assert (o + told) + ps == o + (told + ps);
  }

  /** One more value: the index lists what it decides, and lists nothing for a value that decides nothing. */
  lemma SaysNext(es: seq<Entity>, facts: seq<Fact>, n: nat)
    requires n < |facts|
    ensures var dependents := Dependents(IndexOf(es), facts[n]);
            && Says(es, facts[..n + 1]) == Says(es, facts[..n]) + dependents
            && dependents[..0] == [] && dependents[..|dependents|] == dependents
            && Says(es, facts[..n]) + [] == Says(es, facts[..n])
  {
    assert facts[..n + 1][..n] == facts[..n];
    IndexAgrees(es, facts[n]);
  }
}
