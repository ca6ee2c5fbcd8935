/** What each event of a link publishes, message by message (src/homeassistant/publisher.rs:508-597, 736-856). */
module LinkSays {
  import opened Prelude
  import opened Entities
  import opened Frames
  import opened StatePayload
  import opened Publishing
  import opened Gates
  import opened Discovery
  import opened DeviceLink
  import opened LinkRuns
  import Resting

  /** The fields an announcement reads are its entities' keys. */
  lemma FieldsExactly(es: seq<Entity>, key: string)
    ensures key in FieldsOf(es) <==> exists e :: e in es && e.key == key
  {}

  function Field(key: string, text: string): Content { Fields(map[key := Rendered(text)]) }

  /** Presence is said on two topics, and the last frame's stamp and the firmware version on one each, where there are
    * such; and none of it before there is a broker. */
  lemma PresenceExactly(l: LinkState, s: Session, p: Publication)
    ensures p in PresenceSays(l, s) <==>
            && l.publishedFor.Some?
            && (|| p == Retained(AvailabilityTopic, Some(Online(l.present)))
                || p == Retained(StatusTopic, Some(Online(l.present)))
                || (l.lastUpdate.Some? &&
                    p == Retained(FieldTopic(FromStatus, "last_update"),
                                  Some(Field("last_update", l.lastUpdate.value))))
                || (s.firmware.Some? &&
                    p == Retained(FieldTopic(FromStatus, "firmware_version"),
                                  Some(Field("firmware_version", s.firmware.value)))))
  {}

  /** An object is said on its topic exactly if there is anything in it and a broker to say it to. */
  lemma ObjectExactly(l: LinkState, t: Topic, payload: Object, p: Publication)
    ensures p in ObjectSays(l, t, payload) <==>
            l.publishedFor.Some? && payload != map[] && p == Retained(t, Some(Fields(payload)))
  {}

  /** Settings go to their object's topic as far as an announced entity reads them, and the configuration to its own. */
  lemma SettingsAndConfig(l: LinkState, s: Session, p: Publication)
    ensures p in SettingsSays(l, s) <==>
            && l.publishedFor.Some? && SettingsObject(s.settings, l.fields) != map[]
            && p == Retained(SettingsTopic, Some(Fields(SettingsObject(s.settings, l.fields))))
    ensures p in ConfigSays(l, s) <==>
            && l.publishedFor.Some? && s.config.Some? && ConfigObject(s.config.value, l.fields) != map[]
            && p == Retained(ConfigTopic, Some(Fields(ConfigObject(s.config.value, l.fields))))
  {
    hide SettingsObject, ConfigObject;
  }

  lemma Carried(l: LinkState, s: Session)
    ensures var g := Gating(l, s).0;
            g.(gates := l.gates) == l
  {
    hide Tell, Says, Facts;
  }

  lemma AnnouncingCarries(driver: Driver, o: Options, l: LinkState, s: Session)
    requires Wellformed(driver)
    ensures var a := Announcing(driver, o, l, s).link;
            a.(announced := l.announced, fields := l.fields) == l
  {
    hide Pass, EntitiesOf, IndexOf, FieldsOf, Describes;
  }

  /** A frame that finds a broker stamps the link, makes it present, and is published: availability, the stamp, the
    * firmware version if there is one, and its object of what the announced entities read, unless that is empty. */
  lemma FrameSays(driver: Driver, o: Options, l: LinkState, s: Session, now: nat, stamp: string)
    requires Wellformed(driver) && s.view.Some? && l.publishedFor.Some?
    ensures var out := FrameArriving(driver, o, l, s, now, stamp);
            var payload := TelemetryObject(s.view.value, out.link.fields, out.link.rest.sample);
            && out.link.arrived == Some(now) && out.link.lastUpdate == Some(stamp) && out.link.present
            && out.link.rest == Resting.Observed(l.rest, Resting.Call(now, s.view.value))
            && Retained(AvailabilityTopic, Some(Online(true))) in out.presence
            && Retained(StatusTopic, Some(Online(true))) in out.presence
            && Retained(FieldTopic(FromStatus, "last_update"), Some(Field("last_update", stamp))) in out.presence
            && (s.firmware.Some? ==>
                  Retained(FieldTopic(FromStatus, "firmware_version"),
                           Some(Field("firmware_version", s.firmware.value))) in out.presence)
            && (payload != map[] ==> State(payload) in out.rest)
  {
    var m := l.(arrived := Some(now), lastUpdate := Some(stamp));
    AnnouncingCarries(driver, o, m, s);
    var p := Announcing(driver, o, m, s).link.(present := true);
    var t := Stating(p, s.view.value, now).0;
    Carried(t, s);
    PresenceExactly(p, s, Retained(AvailabilityTopic, Some(Online(true))));
    PresenceExactly(p, s, Retained(StatusTopic, Some(Online(true))));
    PresenceExactly(p, s, Retained(FieldTopic(FromStatus, "last_update"), Some(Field("last_update", stamp))));
    if s.firmware.Some? {
      PresenceExactly(p, s, Retained(FieldTopic(FromStatus, "firmware_version"),
                                     Some(Field("firmware_version", s.firmware.value))));
    }
    hide Announcing, Gating, TelemetryObject, PresenceSays, Resting.Observed;
  }

  /** One that finds none is seen by the link and its tracker all the same, and says nothing. */
  lemma UnheardFrame(driver: Driver, o: Options, l: LinkState, s: Session, now: nat, stamp: string)
    requires Wellformed(driver) && s.view.Some? && l.publishedFor == None
    ensures var out := FrameArriving(driver, o, l, s, now, stamp);
            && out.Said() == []
            && out.link == l.(arrived := Some(now), lastUpdate := Some(stamp), present := true,
                              rest := Resting.Observed(l.rest, Resting.Call(now, s.view.value)))
  {
    hide TelemetryObject, Resting.Observed, EntitiesOf;
  }

  /** A new connection is told presence as it is, the settings, and the last frame again if it arrived less than the
    * limit ago. */
  lemma ConnectionSays(driver: Driver, o: Options, l: LinkState, s: Session, generation: nat, now: nat)
    requires Wellformed(driver) && generation > 0 && (l.arrived.Some? ==> l.arrived.value <= now)
    ensures var out := Republishing(driver, o, l, s, generation, now);
            var settings := SettingsObject(s.settings, out.link.fields);
            && out.link.publishedFor == Some(generation) && out.link.present == l.present
            && Retained(AvailabilityTopic, Some(Online(l.present))) in out.presence
            && (settings != map[] ==> Retained(SettingsTopic, Some(Fields(settings))) in out.rest)
            && (s.view.Some? && l.arrived.Some? && now - l.arrived.value < o.offlineAfter ==>
                  var payload := TelemetryObject(s.view.value, out.link.fields, out.link.rest.sample);
                  payload != map[] ==> State(payload) in out.rest)
  {
    var m := l.(announced := None, publishedFor := Some(generation));
    AnnouncingCarries(driver, o, m, s);
    var a := Announcing(driver, o, m, s).link;
    Carried(a, s);
    SettingsAndConfig(a, s, Retained(SettingsTopic, Some(Fields(SettingsObject(s.settings, a.fields)))));
    PresenceExactly(a, s, Retained(AvailabilityTopic, Some(Online(l.present))));
    hide Announcing, Gating, TelemetryObject, PresenceSays, SettingsSays, SettingsObject, UnsharedSays;
    hide Resting.Observed;
  }

  /** A settings change is told on the settings' topic. */
  lemma SettingsChangeSays(l: LinkState, s: Session)
    requires l.publishedFor.Some? && SettingsObject(s.settings, l.fields) != map[]
    ensures Retained(SettingsTopic, Some(Fields(SettingsObject(s.settings, l.fields)))) in SettingsMoving(l, s).rest
  {
    SettingsAndConfig(l, s, Retained(SettingsTopic, Some(Fields(SettingsObject(s.settings, l.fields)))));
    hide Gating, SettingsSays, SettingsObject, UnsharedSays;
  }

  /** A new identity report is told on the configuration's. */
  lemma IdentitySays(driver: Driver, o: Options, l: LinkState, s: Session)
    requires Wellformed(driver) && l.publishedFor.Some? && s.config.Some?
    ensures var out := Identifying(driver, o, l, s);
            var config := ConfigObject(s.config.value, out.link.fields);
            config != map[] ==> Retained(ConfigTopic, Some(Fields(config))) in out.rest
  {
    AnnouncingCarries(driver, o, l, s);
    var a := Announcing(driver, o, l, s).link;
    SettingsAndConfig(a, s, Retained(ConfigTopic, Some(Fields(ConfigObject(s.config.value, a.fields)))));
    hide Announcing, ConfigObject, ConfigSays;
  }

  /** A device that was present and falls silent is told absent; nothing else about the link changes. */
  lemma SilenceSays(l: LinkState, s: Session)
    requires l.present && l.publishedFor.Some?
    ensures var out := Quieting(l, s);
            && out.link == l.(present := false)
            && Retained(AvailabilityTopic, Some(Online(false))) in out.presence
            && Retained(StatusTopic, Some(Online(false))) in out.presence
  {
    PresenceExactly(l.(present := false), s, Retained(AvailabilityTopic, Some(Online(false))));
    PresenceExactly(l.(present := false), s, Retained(StatusTopic, Some(Online(false))));
    hide PresenceSays;
  }
}
