/** What the broker says of a device over whole runs, and when the watchdog speaks
  * (src/homeassistant/publisher.rs:508-602, 735-760). */
module Presence {
  import opened Prelude
  import opened Entities
  import opened Frames
  import opened StatePayload
  import opened Publishing
  import opened Gates
  import opened Discovery
  import opened DeviceLink
  import opened LinkRuns
  import Resting

  // ------------------------------------------------------------------ availability

  /** Once the link has a broker, the broker's two availability answers are the link's own, and its time stamp, if
    * there is one, is the last frame's; unless the broker has forgotten something of which the link has yet to
    * learn. */
  predicate PresenceShown(w: World) {
    w.link.publishedFor.Some? && !w.behind ==>
      && Lookup(w.broker, AvailabilityTopic) == Some(Online(w.link.present))
      && Lookup(w.broker, StatusTopic) == Some(Online(w.link.present))
      && (w.link.lastUpdate.Some? ==> Lookup(w.broker, LAST_UPDATE) == OneField("last_update", w.link.lastUpdate.value))
  }

  /** What presence is a matter of. */
  predicate SamePresence(l: LinkState, m: LinkState) {
    l.present == m.present && l.publishedFor == m.publishedFor && l.lastUpdate == m.lastUpdate
  }

  lemma SettingsKeepPresence(l: LinkState, s: Session)
    ensures SamePresence(SettingsMoving(l, s).link, l) && SamePresence(Gating(l, s).0, l)
  {
    hide Tell, Says, UnsharedSays, SettingsSays;
  }

  /** Every event either says so where presence may have moved or may have been lost, or moves neither. */
  lemma PresenceSaid(driver: Driver, w: World, event: Event, now: nat)
    requires Wellformed(driver)
    ensures var out := Reaction(driver, w, event, now);
            || out.presence == PresenceSays(out.link, w.session)
            || (out.presence == [] && SamePresence(out.link, w.link) && !(event.Connected? && event.generation > 0))
  {
    forall l: LinkState
      ensures SamePresence(SettingsMoving(l, w.session).link, l) && SamePresence(Gating(l, w.session).0, l)
    {
      SettingsKeepPresence(l, w.session);
    }
    forall l: LinkState
      ensures SamePresence(Announcing(driver, w.options, l, w.session).link, l)
    {
      hide Pass, EntitiesOf, IndexOf, FieldsOf, Describes;
    }
    hide Announcing, SettingsMoving, Gating, TelemetryObject, Fresh, ConfigSays, FirmwareSays;
  }

  lemma PresenceLatest(l: LinkState, s: Session, taken: nat -> bool)
    requires Accepts(taken) && l.publishedFor.Some?
    ensures Latest(PresenceSays(l, s), taken, AvailabilityTopic) == Some(Some(Online(l.present)))
    ensures Latest(PresenceSays(l, s), taken, StatusTopic) == Some(Some(Online(l.present)))
    ensures l.lastUpdate.Some? ==>
              Latest(PresenceSays(l, s), taken, LAST_UPDATE) == Some(OneField("last_update", l.lastUpdate.value))
  {
    var ps := PresenceSays(l, s);
    FirmwareIsNoStamp();
    assert taken(0) && taken(1) && taken(2);
    assert On(ps[0], AvailabilityTopic) && On(ps[1], StatusTopic);
    assert l.lastUpdate.Some? ==> On(ps[2], LAST_UPDATE);
    hide Latest, OneField;
    LatestUniform(ps, taken, AvailabilityTopic, Some(Online(l.present)));
    LatestUniform(ps, taken, StatusTopic, Some(Online(l.present)));
    if l.lastUpdate.Some? {
      LatestUniform(ps, taken, LAST_UPDATE, OneField("last_update", l.lastUpdate.value));
    }
  }

  lemma FirmwareIsNoStamp()
    ensures LAST_UPDATE != FIRMWARE_VERSION
  {
    assert "last_update"[0] != "firmware_version"[0];
  }

  lemma StepPresenceShown(driver: Driver, w: World, h: Happening)
    requires Wellformed(driver) && PresenceShown(w) && Accepts(h.taken)
    ensures PresenceShown(After(driver, w, h))
  {
    hide Reaction, After, Deliver, PresenceSays, OneField;
    AfterIs(driver, w, h);
    PresenceSaid(driver, w, h.event, h.now);
    Delivered(driver, w, h, AvailabilityTopic);
    Delivered(driver, w, h, StatusTopic);
    Delivered(driver, w, h, LAST_UPDATE);
    var out := Reaction(driver, w, h.event, h.now);
    if out.presence == PresenceSays(out.link, w.session) && out.link.publishedFor.Some? {
      PresenceLatest(out.link, w.session, h.taken);
    }
  }

  /** Over every run in which the queue takes everything, whatever is forgotten between connections: once the broker
    * is reached, it says what the link says. */
  lemma {:induction false} RunPresenceShown(driver: Driver, w: World, trace: seq<Happening>)
    requires Wellformed(driver) && PresenceShown(w)
    requires forall h :: h in trace ==> Accepts(h.taken)
    ensures PresenceShown(Run(driver, w, trace))
  {
    if trace != [] {
      hide PresenceShown, After;
      var n := |trace| - 1;
      assert trace[n] in trace && forall h :: h in trace[..n] ==> h in trace;
      RunPresenceShown(driver, w, trace[..n]);
      StepPresenceShown(driver, Run(driver, w, trace[..n]), trace[n]);
    }
  }

  // ------------------------------------------------------------------ the watchdog

  /** When the last frame of the link serving now was handled. */
  function LastFrame(driver: Driver, w: World, trace: seq<Happening>): Option<nat>
    requires Wellformed(driver)
  {
    if trace == [] then None
    else
      var before, h := trace[..|trace| - 1], trace[|trace| - 1];
      if h.event.Started? then None
      else if IsFrame(Run(driver, w, before), h) then Some(h.now)
      else LastFrame(driver, w, before)
  }

  /** Whether an event is a frame's arrival. */
  predicate IsFrame(w: World, h: Happening) { h.event.FrameSeen? && w.session.view.Some? }

  /** The link reports the device until it has been quiet too long. */
  predicate Watching(w: World, last: Option<nat>) {
    && w.link.arrived == last
    && (w.link.present ==> last.Some?)
    && (last.Some? ==> last.value <= w.now)
    && (last.Some? && !w.link.present ==> last.value + w.options.offlineAfter <= w.now)
  }

  lemma SettingsKeepTime(l: LinkState, s: Session)
    ensures SettingsMoving(l, s).link.arrived == l.arrived && SettingsMoving(l, s).link.present == l.present
    ensures Gating(l, s).0.arrived == l.arrived && Gating(l, s).0.present == l.present
  {
    hide Tell, Says, UnsharedSays, SettingsSays;
  }

  lemma PresenceMoves(driver: Driver, w: World, h: Happening)
    requires Wellformed(driver)
    ensures var l := Reaction(driver, w, h.event, h.now).link;
            if h.event.Started? then l == Unlinked
            else if IsFrame(w, h) then l.arrived == Some(h.now) && l.present
            else l.arrived == w.link.arrived && l.present == (w.link.present && !h.event.TimedOut?)
  {
    forall l: LinkState
      ensures var m := SettingsMoving(l, w.session).link; m.arrived == l.arrived && m.present == l.present
      ensures Gating(l, w.session).0.arrived == l.arrived && Gating(l, w.session).0.present == l.present
    {
      SettingsKeepTime(l, w.session);
    }
    forall l: LinkState
      ensures var a := Announcing(driver, w.options, l, w.session).link;
              a.arrived == l.arrived && a.present == l.present
    {
      hide Pass, EntitiesOf, IndexOf, FieldsOf, Describes;
    }
    hide Announcing, SettingsMoving, Gating, TelemetryObject, Fresh, ConfigSays, PresenceSays;
  }

  lemma {:induction false} RunWatching(driver: Driver, w: World, trace: seq<Happening>)
    requires Wellformed(driver) && w.link == Unlinked && Legal(driver, w, trace)
    ensures Watching(Run(driver, w, trace), LastFrame(driver, w, trace))
  {
    if trace != [] {
      var n := |trace| - 1;
      var before := Run(driver, w, trace[..n]);
      RunWatching(driver, w, trace[..n]);
      hide Reaction, Deliver, After;
      AfterIs(driver, before, trace[n]);
      PresenceMoves(driver, before, trace[n]);
    }
  }

  /** The timer is armed exactly while the device is reported present, for the moment it will have been quiet
    * too long; so it never goes off twice for one silence. */
  lemma ArmedExactlyWhilePresent(driver: Driver, w: World, trace: seq<Happening>)
    requires Wellformed(driver) && w.link == Unlinked && Legal(driver, w, trace)
    ensures var (now, last) := (Run(driver, w, trace), LastFrame(driver, w, trace));
            && (now.link.present ==> last.Some?)
            && Deadline(now.options, now.link) ==
               if now.link.present then Some(last.value + now.options.offlineAfter) else None
  {
    hide Run, LastFrame, Legal;
    RunWatching(driver, w, trace);
  }

  predicate TurnsAbsent(driver: Driver, w: World, h: Happening)
    requires Wellformed(driver)
  {
    w.link.present && !After(driver, w, h).link.present && !h.event.Started?
  }

  /** One link reports its device absent exactly when the timer goes off, and then the device has been quiet for
    * at least as long as was asked for. */
  lemma AbsentOnlyWhenQuiet(driver: Driver, w: World, trace: seq<Happening>, h: Happening)
    requires Wellformed(driver) && w.link == Unlinked && Legal(driver, w, trace) && LegalStep(Run(driver, w, trace), h)
    ensures TurnsAbsent(driver, Run(driver, w, trace), h) <==> h.event.TimedOut?
    ensures h.event.TimedOut? ==>
              && LastFrame(driver, w, trace).Some?
              && LastFrame(driver, w, trace).value + Run(driver, w, trace).options.offlineAfter <= h.now
  {
    hide Run, LastFrame, Legal, After, Reaction;
    RunWatching(driver, w, trace);
    AfterIs(driver, Run(driver, w, trace), h);
    PresenceMoves(driver, Run(driver, w, trace), h);
  }

  lemma AbsentStep(driver: Driver, w: World, trace: seq<Happening>, j: nat)
    requires Wellformed(driver) && j < |trace| && !Run(driver, w, trace[..j]).link.present
    requires !IsFrame(Run(driver, w, trace[..j]), trace[j])
    ensures !Run(driver, w, trace[..j + 1]).link.present
  {
    var before := Run(driver, w, trace[..j]);
    assert trace[..j + 1][..j] == trace[..j];
    assert Run(driver, w, trace[..j + 1]) == After(driver, before, trace[j]);
    hide Reaction, After, Run, IsFrame;
    AfterIs(driver, before, trace[j]);
    PresenceMoves(driver, before, trace[j]);
  }

  lemma {:induction false} StaysAbsent(driver: Driver, w: World, trace: seq<Happening>, i: nat, j: nat)
    requires Wellformed(driver) && i <= j <= |trace| && !Run(driver, w, trace[..i]).link.present
    requires forall k :: i <= k < j ==> !IsFrame(Run(driver, w, trace[..k]), trace[k])
    ensures !Run(driver, w, trace[..j]).link.present
  {
    hide Run, IsFrame;
    if i < j {
      StaysAbsent(driver, w, trace, i, j - 1);
      AbsentStep(driver, w, trace, j - 1);
    }
  }

  /** Between two reports of absence there is a frame, so one silence is reported once. */
  lemma OneAbsencePerSilence(driver: Driver, w: World, trace: seq<Happening>, i: nat, j: nat)
    requires Wellformed(driver) && i < j < |trace|
    requires TurnsAbsent(driver, Run(driver, w, trace[..i]), trace[i])
    requires TurnsAbsent(driver, Run(driver, w, trace[..j]), trace[j])
    ensures exists k :: i < k < j && IsFrame(Run(driver, w, trace[..k]), trace[k])
  {
    assert trace[..i + 1][..i] == trace[..i];
    hide After, IsFrame;
    assert !Run(driver, w, trace[..i + 1]).link.present;
    if forall k :: i < k < j ==> !IsFrame(Run(driver, w, trace[..k]), trace[k]) {
      StaysAbsent(driver, w, trace, i + 1, j);
    }
  }

  /** State is published only on a frame's arrival, or on a connection while the last frame is younger than the
    * limit; so never for a device that is reported absent. It is the session's current frame, as far as the announced
    * entities read it. */
  lemma StateOnlyWhilePresent(driver: Driver, w: World, trace: seq<Happening>, h: Happening, state: Object)
    requires Wellformed(driver) && w.link == Unlinked && Legal(driver, w, trace) && LegalStep(Run(driver, w, trace), h)
    requires State(state) in Reaction(driver, Run(driver, w, trace), h.event, h.now).Said()
    ensures var was, after := Run(driver, w, trace), After(driver, Run(driver, w, trace), h);
            && was.session.view.Some?
            && state == TelemetryObject(was.session.view.value, after.link.fields, after.link.rest.sample)
            && (IsFrame(was, h) ||
                (h.event.Connected? && was.link.present && LastFrame(driver, w, trace).Some?
                 && h.now < LastFrame(driver, w, trace).value + was.options.offlineAfter))
            && after.link.present
  {
    hide Run, LastFrame, Legal, After, Reaction, TelemetryObject;
    var was := Run(driver, w, trace);
    RunWatching(driver, w, trace);
    AfterIs(driver, was, h);
    PresenceMoves(driver, was, h);
    StateSaid(driver, was, h, state);
  }

  lemma NoStateInGates(l: LinkState, s: Session, state: Object)
    ensures State(state) !in SettingsMoving(l, s).rest && State(state) !in Gating(l, s).1
  {
    hide Tell, Says, UnsharedSays, SettingsObject, Facts;
    if l.announced.Some? {
      TellsGates(l.gates, Says(l.announced.value.entities, Facts(s.settings, s.view)));
    }
    UnsharedExactly(l, s.settings, State(state));
  }

  lemma GatingKeepsState(l: LinkState, s: Session)
    ensures var g := Gating(l, s).0; g.fields == l.fields && g.rest == l.rest && g.arrived == l.arrived
  {
    hide Tell, Says, Facts;
  }

  lemma ConnectedState(driver: Driver, w: World, generation: nat, now: nat, state: Object)
    requires Wellformed(driver) && generation > 0
    requires State(state) in Republishing(driver, w.options, w.link, w.session, generation, now).rest
    ensures w.session.view.Some? && Fresh(w.options, w.link, now)
    ensures var l := Republishing(driver, w.options, w.link, w.session, generation, now).link;
            state == TelemetryObject(w.session.view.value, l.fields, l.rest.sample)
  {
    var l := w.link.(announced := None, publishedFor := Some(generation));
    var a := Announcing(driver, w.options, l, w.session).link;
    assert a.arrived == w.link.arrived by {
      hide Pass, EntitiesOf, IndexOf, FieldsOf, Describes;
    }
    NoStateInGates(a, w.session, state);
    GatingKeepsState(a, w.session);
    hide Announcing, Gating, TelemetryObject, PresenceSays, SettingsSays, UnsharedSays;
  }

  lemma FrameState(driver: Driver, w: World, now: nat, stamp: string, state: Object)
    requires Wellformed(driver) && w.session.view.Some?
    requires State(state) in FrameArriving(driver, w.options, w.link, w.session, now, stamp).rest
    ensures var l := FrameArriving(driver, w.options, w.link, w.session, now, stamp).link;
            state == TelemetryObject(w.session.view.value, l.fields, l.rest.sample)
  {
    hide Announcing, Gating, TelemetryObject, PresenceSays;
    var l := w.link.(arrived := Some(now), lastUpdate := Some(stamp));
    var p := Announcing(driver, w.options, l, w.session).link.(present := true);
    var t := Stating(p, w.session.view.value, now).0;
    NoStateInGates(t, w.session, state);
    GatingKeepsState(t, w.session);
  }

  lemma StateSaid(driver: Driver, w: World, h: Happening, state: Object)
    requires Wellformed(driver) && State(state) in Reaction(driver, w, h.event, h.now).Said()
    ensures w.session.view.Some?
    ensures var l := Reaction(driver, w, h.event, h.now).link;
            state == TelemetryObject(w.session.view.value, l.fields, l.rest.sample)
    ensures IsFrame(w, h) || (h.event.Connected? && Fresh(w.options, w.link, h.now))
  {
    ReactionKinds(driver, w, h.event, h.now);
    assert State(state) in Reaction(driver, w, h.event, h.now).rest;
    match h.event
    case Connected(generation) =>
      hide Republishing, Fresh, TelemetryObject;
      if generation == 0 {
        NothingSaid(driver, w, h.now);
      } else {
        ConnectedState(driver, w, generation, h.now, state);
      }
    case FrameSeen(stamp) =>
      if w.session.view.Some? {
        hide FrameArriving, TelemetryObject;
        FrameState(driver, w, h.now, stamp, state);
      }
    case SettingsSeen => NoStateInGates(w.link, w.session, state);
    case _ =>
      hide Announcing, ConfigObject, PresenceSays;
  }

  lemma NothingSaid(driver: Driver, w: World, now: nat)
    requires Wellformed(driver)
    ensures Republishing(driver, w.options, w.link, w.session, 0, now).rest == []
  {}
}
