/** Which Home Assistant entity each register becomes, and which of them one device gets
  * (src/homeassistant/entity.rs:217-1004, src/homeassistant/command.rs:34-64). */
module Entities {
  import opened Prelude

  // ------------------------------------------------------------------ what a driver says

  /** A setting's control, with what bounds its values. */
  datatype Control =
    | SwitchControl
    | NumberControl(min: nat, max: nat)
    | ChoiceControl(labels: seq<string>)
    | TimeControl
    | WeekdaysControl
    | TextControl

  datatype Setting = Setting(
    name: string,
    register: nat,
    control: Control,
    accepted: set<nat>,
    supersededBy: Option<(string, seq<nat>)>)

  datatype Measurement = Measurement(name: string, control: Control, unknown: bool, gatedBy: Option<string>)

  /** A writable configuration field; `action` is the value that triggers it, where it is a thing to do. */
  datatype ConfigField = ConfigField(name: string, register: nat, action: Option<string>, destructive: bool)

  /** A product family: how many schedule slots it has, the settings with some of them exposed, what it
    * reports, and what of its own configuration may be written. */
  datatype Driver = Driver(
    slots: nat,
    exposed: seq<seq<Setting>>,
    measurements: seq<Measurement>,
    writableConfig: seq<ConfigField>)

  /** One list of settings for every number of slots; asking for more slots than there are is clamped. */
  predicate Wellformed(driver: Driver) {
    |driver.exposed| == driver.slots + 1
  }

  function Settings(driver: Driver, slots: nat): seq<Setting>
    requires Wellformed(driver)
  {
    driver.exposed[if slots < driver.slots then slots else driver.slots]
  }

  // ------------------------------------------------------------------ entities

  datatype Component = Sensor | BinarySensor | Number | Switch | Select | Text | Button

  datatype Source = FromTelemetry | FromSettings | FromStatus | FromConfig

  datatype Gate =
    | SettingIsNot(setting: string, values: seq<nat>)
    | ReadingIsSet(reading: string)

  /** The component-specific part, as far as it says what an entity accepts. */
  datatype Shape =
    | Reading
    | Flags
    | Signal
    | Numeric
    | Toggle
    | Choice(labels: seq<string>)
    | TimeOfDay
    | Weekdays
    | Action

  datatype Entity = Entity(key: string, component: Component, shape: Shape, source: Option<Source>, gate: Option<Gate>)

  /** Whether an entity accepts commands. */
  predicate IsWritable(e: Entity) {
    e.shape.Numeric? || e.shape.Toggle? || e.shape.Choice? || e.shape.TimeOfDay? || e.shape.Weekdays? || e.shape.Action?
  }

  /** A writable entity becomes a plain sensor of the same key; any other stays as it is. */
  function IntoReadOnly(e: Entity): Entity {
    if IsWritable(e) then e.(component := Sensor, shape := Reading) else e
  }

  const METER_CONNECTED := "meter_connected"
  const OFF_GRID_ACTIVE := "off_grid_mode_active"
  const METER_READING := "supplied_meter_reading"
  const WITHDRAW_METER_READING := "withdraw_meter_reading"
  const PAIR_LORA_ACCESSORY := "pair_lora_accessory"
  const RESTART := "restart"
  const POWER_PLUS := "power_plus"
  const BATTERY_PACKS: nat := 4

  function ForSetting(s: Setting): Entity {
    var gate := match s.supersededBy
      case None => None
      case Some((setting, values)) => Some(SettingIsNot(setting, values));
    match s.control
    case NumberControl(_, _) => Entity(s.name, Number, Numeric, Some(FromSettings), gate)
    case SwitchControl => Entity(s.name, Switch, Toggle, Some(FromSettings), gate)
    case TimeControl => Entity(s.name, Text, TimeOfDay, Some(FromSettings), gate)
    case TextControl => Entity(s.name, Text, TimeOfDay, Some(FromSettings), gate)
    case WeekdaysControl => Entity(s.name, Text, Weekdays, Some(FromSettings), gate)
    case ChoiceControl(labels) => Entity(s.name, Select, Choice(labels), Some(FromSettings), gate)
  }

  predicate IsVersionPart(name: string) { name == "inverter_mppt_version" || name == "pd_bms_version" }

  predicate IsSignal(name: string) { name == METER_CONNECTED || name == OFF_GRID_ACTIVE }

  predicate IsFlags(name: string) { |name| >= 7 && name[|name| - 7..] == "_faults" }

  /** Measurements that are unknown, parts of a version or text become no entity; of the others the name decides the
    * kind. */
  function ForReading(m: Measurement): Option<Entity> {
    if m.unknown || IsVersionPart(m.name) || m.control.TextControl? then None
    else
      var gate := match m.gatedBy
        case None => None
        case Some(reading) => Some(ReadingIsSet(reading));
      Some(Entity(
        m.name,
        if IsSignal(m.name) then BinarySensor else Sensor,
        if IsFlags(m.name) then Flags else if IsSignal(m.name) then Signal else Reading,
        Some(FromTelemetry),
        gate))
  }

  /** How many leading digits a text has. */
  function DigitRun(s: string): (n: nat)
    ensures n <= |s|
  {
    if s == [] || !('0' <= s[0] <= '9') then 0 else 1 + DigitRun(s[1..])
  }

  function Decimal(digits: string): nat {
    if digits == [] then 0
    else Decimal(digits[..|digits| - 1]) * 10 +
         (var c := digits[|digits| - 1]; if '0' <= c <= '9' then c as int - '0' as int else 0)
  }

  /** The battery pack a key describes, if it describes one that fits sixteen bits. */
  function BatteryPack(key: string): Option<nat> {
    if |key| < 7 || key[..7] != "battery" then None
    else
      var digits := key[7..][..DigitRun(key[7..])];
      if digits == [] || Decimal(digits) >= 0x1_0000 then None else Some(Decimal(digits))
  }

  // ------------------------------------------------------------------ catalogues

  datatype Permitted = Permitted(writes: bool, powerPlus: bool)

  /** Writing has to be permitted at all, and for power plus on its own as well. */
  predicate Allows(p: Permitted, name: string) {
    p.writes && (p.powerPlus || name != POWER_PLUS)
  }

  const Everyone: Permitted := Permitted(true, true)

  datatype Catalogue = Catalogue(slots: nat, permitted: Permitted, packs: nat)

  predicate Includes(c: Catalogue, key: string) {
    match BatteryPack(key)
    case None => true
    case Some(pack) => pack <= c.packs
  }

  function Names(settings: seq<Setting>): set<string> { set s | s in settings :: s.name }

  function Reported(driver: Driver): set<string> { set m | m in driver.measurements :: m.name }

  /** One setting's entity: read from telemetry where telemetry carries it, and only a reading where it may not
    * be written. */
  function SettingEntity(c: Catalogue, driver: Driver, s: Setting): Entity {
    var e := ForSetting(s);
    var sourced := if s.name in Reported(driver) then e.(source := Some(FromTelemetry)) else e;
    if Allows(c.permitted, s.name) then sourced else IntoReadOnly(sourced)
  }

  function SettingEntities(c: Catalogue, driver: Driver, settings: seq<Setting>): (r: seq<Entity>)
    ensures |r| == |settings|
    ensures forall i :: 0 <= i < |r| ==> r[i] == SettingEntity(c, driver, settings[i])
  {
    seq(|settings|, i requires 0 <= i < |settings| => SettingEntity(c, driver, settings[i]))
  }

  /** Whether a measurement becomes an entity of its own. */
  predicate Published(c: Catalogue, claimed: set<string>, m: Measurement) {
    ForReading(m).Some? && Includes(c, m.name) && m.name !in claimed
  }

  function ReadingEntities(c: Catalogue, claimed: set<string>, ms: seq<Measurement>): seq<Entity> {
    if ms == [] then []
    else
      (if Published(c, claimed, ms[0]) then [ForReading(ms[0]).value] else [])
      + ReadingEntities(c, claimed, ms[1..])
  }

  /** What every catalogue has besides the registers. */
  function Always(): seq<Entity> {
    [
      Entity("connected", BinarySensor, Signal, Some(FromStatus), None),
      Entity("last_update", Sensor, Reading, Some(FromStatus), None),
      Entity("bridge_version", Sensor, Reading, Some(FromStatus), None),
      Entity("wifi_signal", Sensor, Reading, Some(FromConfig), None),
      Entity("data_interval", Sensor, Reading, Some(FromConfig), None),
      Entity("serial_number", Sensor, Reading, Some(FromConfig), None),
      Entity("firmware_version", Sensor, Reading, Some(FromStatus), None),
      Entity("accessory_list", Sensor, Reading, Some(FromConfig), None),
      Entity("accessory_list_rf", Sensor, Reading, Some(FromConfig), None),
      Entity("battery_cell_spread", Sensor, Reading, Some(FromTelemetry), None),
      Entity("battery_resting_cell_voltage", Sensor, Reading, Some(FromTelemetry), None),
      Entity("battery_soc_credible", BinarySensor, Signal, Some(FromTelemetry), None)
    ]
  }

  /** What only a bridge that may write offers. */
  function Actions(): seq<Entity> {
    [
      Entity(RESTART, Button, Action, Some(FromConfig), None),
      Entity(METER_READING, Number, Numeric, None, None),
      Entity(WITHDRAW_METER_READING, Button, Action, None, Some(ReadingIsSet(METER_CONNECTED))),
      Entity(PAIR_LORA_ACCESSORY, Button, Action, None, None)
    ]
  }

  /** Every entity a device should have, in a stable order. */
  function EntitiesOf(c: Catalogue, driver: Driver): seq<Entity>
    requires Wellformed(driver)
  {
    var settings := Settings(driver, c.slots);
    ReadingEntities(c, Names(settings), driver.measurements)
    + SettingEntities(c, driver, settings)
    + Always()
    + if c.permitted.writes then Actions() else []
  }

  function Widest(driver: Driver): Catalogue {
    Catalogue(driver.slots, Everyone, BATTERY_PACKS)
  }

  /** Every entity any configuration could produce: everything writable, and everything refused. */
  function Everything(driver: Driver): seq<Entity>
    requires Wellformed(driver)
  {
    EntitiesOf(Widest(driver), driver)
    + EntitiesOf(Widest(driver).(permitted := Permitted(false, true)), driver)
  }

  /** Which discovery topic an entity is announced on. */
  type Place = (Component, string)

  function PlaceOf(e: Entity): Place { (e.component, e.key) }

  function Places(es: seq<Entity>): set<Place> { set e | e in es :: PlaceOf(e) }

  /** Entities once published and no longer. */
  const Retired: seq<Place> := [(Sensor, "sw_version_part_1"), (Sensor, "sw_version_part_2")]

  // ------------------------------------------------------------------ who is in a catalogue

  lemma {:induction false} InReadings(c: Catalogue, claimed: set<string>, ms: seq<Measurement>, e: Entity)
    ensures e in ReadingEntities(c, claimed, ms) <==>
            exists m :: m in ms && Published(c, claimed, m) && ForReading(m) == Some(e)
  {
    if ms != [] {
      hide Published, ForReading;
      InReadings(c, claimed, ms[1..], e);
      assert forall m :: m in ms <==> m == ms[0] || m in ms[1..];
    }
  }

  lemma InSettings(c: Catalogue, driver: Driver, settings: seq<Setting>, e: Entity)
    ensures e in SettingEntities(c, driver, settings) <==> exists s :: s in settings && SettingEntity(c, driver, s) == e
  {
    hide SettingEntity;
    var es := SettingEntities(c, driver, settings);
    if e in es {
      var i :| 0 <= i < |es| && es[i] == e;
      assert settings[i] in settings;
    }
    if s :| s in settings && SettingEntity(c, driver, s) == e {
      var i :| 0 <= i < |settings| && settings[i] == s;
      assert es[i] == e;
    }
  }

  /** The four ways into a catalogue. */
  lemma InCatalogue(c: Catalogue, driver: Driver, e: Entity)
    requires Wellformed(driver)
    ensures var settings := Settings(driver, c.slots);
            e in EntitiesOf(c, driver) <==>
            || (exists m :: m in driver.measurements && Published(c, Names(settings), m) && ForReading(m) == Some(e))
            || (exists s :: s in settings && SettingEntity(c, driver, s) == e)
            || e in Always()
            || (c.permitted.writes && e in Actions())
  {
    hide ReadingEntities, SettingEntities, SettingEntity, ForReading, Published, Names, Always, Actions;
    var settings := Settings(driver, c.slots);
    InReadings(c, Names(settings), driver.measurements, e);
    InSettings(c, driver, settings, e);
  }

  // ------------------------------------------------------------------ `everything` covers every configuration

  /** Exposing more slots only adds settings. */
  ghost predicate Monotone(driver: Driver)
    requires Wellformed(driver)
  {
    forall n: nat, s :: n <= driver.slots && s in Settings(driver, n) ==> s in Settings(driver, driver.slots)
  }

  /** Every entity of every configuration of at most so many packs is one of `everything`'s, as far as its topic
    * goes. */
  ghost predicate Covers(driver: Driver, most: nat)
    requires Wellformed(driver)
  {
    forall c: Catalogue, e :: c.packs <= most && e in EntitiesOf(c, driver) ==> PlaceOf(e) in Places(Everything(driver))
  }

  /** Whether `everything` has a place for a published reading: a plain sensor's if its name is also a setting's,
    * and otherwise its own if it describes no battery pack or one of the first four. */
  predicate Anticipated(driver: Driver, m: Measurement)
    requires Wellformed(driver) && ForReading(m).Some?
  {
    if m.name in Names(Settings(driver, driver.slots)) then ForReading(m).value.component == Sensor
    else Includes(Widest(driver), m.name)
  }

  ghost predicate AllAnticipated(driver: Driver, most: nat)
    requires Wellformed(driver)
  {
    forall c: Catalogue, m | c.packs <= most && m in driver.measurements
      && Published(c, Names(Settings(driver, c.slots)), m)
      :: Anticipated(driver, m)
  }

  lemma WidestHas(driver: Driver, e: Entity)
    requires Wellformed(driver) && e in EntitiesOf(Widest(driver), driver)
    ensures PlaceOf(e) in Places(Everything(driver))
  {
    hide EntitiesOf, Always, Actions;
  }

  lemma RefusedHas(driver: Driver, e: Entity)
    requires Wellformed(driver) && e in EntitiesOf(Widest(driver).(permitted := Permitted(false, true)), driver)
    ensures PlaceOf(e) in Places(Everything(driver))
  {
    hide EntitiesOf;
  }

  /** A setting is published as its own component where it may be written and as a sensor where it may not. */
  lemma SettingPlace(c: Catalogue, driver: Driver, s: Setting)
    ensures var e := SettingEntity(c, driver, s);
            && e.key == s.name
            && e.component == (if Allows(c.permitted, s.name) then ForSetting(s).component else Sensor)
            && (IsWritable(e) <==> Allows(c.permitted, s.name))
            && !e.component.BinarySensor?
  {
    hide Reported, Allows;
  }

  lemma SettingCovered(c: Catalogue, driver: Driver, s: Setting)
    requires Wellformed(driver) && Monotone(driver) && s in Settings(driver, c.slots)
    ensures PlaceOf(SettingEntity(c, driver, s)) in Places(Everything(driver))
  {
    var widest := Widest(driver);
    var refused := widest.(permitted := Permitted(false, true));
    assert s in Settings(driver, driver.slots);
    hide SettingEntity, Settings, Everything, Places;
    var v, r := SettingEntity(widest, driver, s), SettingEntity(refused, driver, s);
    SettingPlace(c, driver, s);
    SettingPlace(widest, driver, s);
    SettingPlace(refused, driver, s);
    InCatalogue(widest, driver, v);
    InCatalogue(refused, driver, r);
    WidestHas(driver, v);
    RefusedHas(driver, r);
  }

  /** The one reading-shaped gap: a reading that the widest catalogue publishes only as a setting. */
  lemma ReadingCovered(c: Catalogue, driver: Driver, m: Measurement)
    requires Wellformed(driver)
    requires m in driver.measurements && Published(c, Names(Settings(driver, c.slots)), m) && Anticipated(driver, m)
    ensures PlaceOf(ForReading(m).value) in Places(Everything(driver))
  {
    var widest := Widest(driver);
    var e := ForReading(m).value;
    if m.name in Names(Settings(driver, driver.slots)) {
      var s :| s in Settings(driver, driver.slots) && s.name == m.name;
      var refused := widest.(permitted := Permitted(false, true));
      var r := SettingEntity(refused, driver, s);
      hide SettingEntity, Everything, Places;
      SettingPlace(refused, driver, s);
      InCatalogue(refused, driver, r);
      RefusedHas(driver, r);
    } else {
      assert Published(widest, Names(Settings(driver, driver.slots)), m);
      hide Everything, Places, ForReading, Published;
      InCatalogue(widest, driver, e);
      WidestHas(driver, e);
    }
  }

  lemma CoveredWhenAnticipated(driver: Driver, most: nat, c: Catalogue, e: Entity)
    requires Wellformed(driver) && Monotone(driver) && AllAnticipated(driver, most)
    requires c.packs <= most && e in EntitiesOf(c, driver)
    ensures PlaceOf(e) in Places(Everything(driver))
  {
    InCatalogue(c, driver, e);
    var settings := Settings(driver, c.slots);
    hide EntitiesOf, Everything, Places, SettingEntity, Published, ForReading, Monotone, Names, Always, Actions;
    if m :| m in driver.measurements && Published(c, Names(settings), m) && ForReading(m) == Some(e) {
      ReadingCovered(c, driver, m);
    } else if s :| s in settings && SettingEntity(c, driver, s) == e {
      SettingCovered(c, driver, s);
    } else {
      InCatalogue(Widest(driver), driver, e);
      WidestHas(driver, e);
    }
  }

  /** Some text that does not begin with "battery" and a digit. */
  predicate Packless(key: string) {
    key == "" || key[0] != 'b' || (|key| > 1 && key[1] != 'a') || (|key| > 7 && key[7] == '_')
  }

  lemma PacklessIsNone(key: string)
    requires Packless(key)
    ensures BatteryPack(key) == None
  {
    if |key| >= 7 && key[..7] == "battery" {
      assert key[..7][0] == key[0] && key[..7][1] == key[1];
      assert |key| > 7 ==> key[7..][0] == key[7];
    }
  }

  lemma AlwaysPackless(e: Entity)
    requires e in Always()
    ensures Packless(e.key)
  {
    hide Packless;
    forall i | 0 <= i < |Always()|
      ensures Packless(Always()[i].key)
    {
      PacklessAt(i);
    }
  }

  lemma PacklessAt(i: nat)
    requires i < |Always()|
    ensures Packless(Always()[i].key)
  {}

  lemma ActionsPackless(e: Entity)
    requires e in Actions()
    ensures Packless(e.key)
  {}

  lemma FixedIsNoPack(e: Entity)
    requires e in Always() || e in Actions()
    ensures BatteryPack(e.key) == None
  {
    hide Always, Actions, BatteryPack, Packless;
    if e in Always() {
      AlwaysPackless(e);
    } else {
      ActionsPackless(e);
    }
    PacklessIsNone(e.key);
  }

  /** A reading nobody anticipated is in neither half of `everything`. */
  lemma UnanticipatedMissing(driver: Driver, m: Measurement)
    requires Wellformed(driver) && m in driver.measurements && ForReading(m).Some? && !Anticipated(driver, m)
    ensures PlaceOf(ForReading(m).value) !in Places(Everything(driver))
  {
    var p := PlaceOf(ForReading(m).value);
    assert p == (if IsSignal(m.name) then BinarySensor else Sensor, m.name);
    assert p.1 in Names(Settings(driver, driver.slots)) ==> p.0 == BinarySensor && IsSignal(p.1);
    assert p.1 !in Names(Settings(driver, driver.slots)) ==> !Includes(Widest(driver), p.1);
    hide EntitiesOf, ForReading, Anticipated, Names, Settings;
    forall e | e in Everything(driver)
      ensures PlaceOf(e) != p
    {
      var c := if e in EntitiesOf(Widest(driver), driver) then Widest(driver)
               else Widest(driver).(permitted := Permitted(false, true));
      if p.1 in Names(Settings(driver, driver.slots)) {
        NoSuchSignal(c, driver, e, p);
      } else {
        NoSuchPack(c, driver, e, p);
      }
    }
  }

  lemma NoSuchSignal(c: Catalogue, driver: Driver, e: Entity, p: Place)
    requires Wellformed(driver) && c.slots == driver.slots && e in EntitiesOf(c, driver)
    requires p.0 == BinarySensor && IsSignal(p.1) && p.1 in Names(Settings(driver, driver.slots))
    ensures PlaceOf(e) != p
  {
    InCatalogue(c, driver, e);
    var settings := Settings(driver, c.slots);
    hide EntitiesOf, Names, SettingEntity, Settings;
    if s :| s in settings && SettingEntity(c, driver, s) == e {
      SettingPlace(c, driver, s);
    }
  }

  lemma NoSuchPack(c: Catalogue, driver: Driver, e: Entity, p: Place)
    requires Wellformed(driver) && c.slots == driver.slots && c.packs == BATTERY_PACKS && e in EntitiesOf(c, driver)
    requires p.1 !in Names(Settings(driver, driver.slots)) && !Includes(Widest(driver), p.1)
    ensures PlaceOf(e) != p
  {
    var settings := Settings(driver, c.slots);
    assert settings == Settings(driver, driver.slots);
    assert forall s :: s in settings ==> s.name in Names(settings);
    hide EntitiesOf, Names, SettingEntity, BatteryPack, Settings, Always, Actions;
    InCatalogue(c, driver, e);
    if s :| s in settings && SettingEntity(c, driver, s) == e {
      SettingPlace(c, driver, s);
    } else if e in Always() || e in Actions() {
      FixedIsNoPack(e);
    }
  }

  /** `everything` covers every configuration exactly when it anticipates every reading any of them publishes. */
  lemma EverythingCoversExactly(driver: Driver, most: nat)
    requires Wellformed(driver) && Monotone(driver)
    ensures Covers(driver, most) <==> AllAnticipated(driver, most)
  {
    hide EntitiesOf, Everything, Places, Monotone, ForReading, Names, Settings, Anticipated, Includes;
    if AllAnticipated(driver, most) {
      forall c: Catalogue, e | c.packs <= most && e in EntitiesOf(c, driver)
        ensures PlaceOf(e) in Places(Everything(driver))
      {
        CoveredWhenAnticipated(driver, most, c, e);
      }
    } else {
      var c: Catalogue, m :| c.packs <= most && m in driver.measurements
        && Published(c, Names(Settings(driver, c.slots)), m) && !Anticipated(driver, m);
      var e := ForReading(m).value;
      InCatalogue(c, driver, e);
      UnanticipatedMissing(driver, m);
    }
  }

  /** For up to four packs, all there is to anticipate is a reading that only some numbers of slots give a
    * setting of its name: it must be published as a plain sensor. */
  lemma FourPacksAnticipated(driver: Driver)
    requires Wellformed(driver)
    requires forall m ::
               m in driver.measurements && ForReading(m).Some? && m.name in Names(Settings(driver, driver.slots)) ==>
               ForReading(m).value.component == Sensor
    ensures AllAnticipated(driver, BATTERY_PACKS)
  {
    hide ForReading, Names, Settings, BatteryPack;
  }

  // ------------------------------------------------------------------ keys are distinct

  predicate DistinctKeys(es: seq<Entity>) {
    forall i, j :: 0 <= i < j < |es| ==> es[i].key != es[j].key
  }

  /** The keys no register may use. */
  function FixedKeys(): set<string> { set e | e in Always() + Actions() :: e.key }

  /** Registers are named apart from each other and from the fixed entities. */
  ghost predicate NamedApart(driver: Driver)
    requires Wellformed(driver)
  {
    && (forall i, j :: 0 <= i < j < |driver.measurements| ==>
          driver.measurements[i].name != driver.measurements[j].name)
    && (forall n: nat, i, j :: 0 <= i < j < |Settings(driver, n)| ==>
          Settings(driver, n)[i].name != Settings(driver, n)[j].name)
    && Reported(driver) !! FixedKeys()
    && (forall n: nat :: Names(Settings(driver, n)) !! FixedKeys())
  }

  lemma DistinctJoin(a: seq<Entity>, b: seq<Entity>)
    requires DistinctKeys(a) && DistinctKeys(b)
    requires forall x, y :: x in a && y in b ==> x.key != y.key
    ensures DistinctKeys(a + b)
  {
    forall i, j | 0 <= i < j < |a + b|
      ensures (a + b)[i].key != (a + b)[j].key
    {
      if i < |a| <= j {
        assert a[i] in a && b[j - |a|] in b;
      }
    }
  }

  lemma {:induction false} ReadingsDistinct(c: Catalogue, claimed: set<string>, ms: seq<Measurement>)
    requires forall i, j :: 0 <= i < j < |ms| ==> ms[i].name != ms[j].name
    ensures DistinctKeys(ReadingEntities(c, claimed, ms))
    ensures forall e :: e in ReadingEntities(c, claimed, ms) ==>
              e.key !in claimed && exists i :: 0 <= i < |ms| && ms[i].name == e.key
  {
    if ms != [] {
      ReadingsDistinct(c, claimed, ms[1..]);
      var rest := ReadingEntities(c, claimed, ms[1..]);
      forall e | e in rest
        ensures e.key != ms[0].name && exists i :: 0 <= i < |ms| && ms[i].name == e.key
      {
        var i :| 0 <= i < |ms[1..]| && ms[1..][i].name == e.key;
        assert ms[i + 1].name == e.key;
      }
      if Published(c, claimed, ms[0]) {
        assert ms[0].name == ForReading(ms[0]).value.key;
        hide Published, ForReading;
        DistinctJoin([ForReading(ms[0]).value], rest);
      }
    }
  }

  lemma SettingsDistinct(c: Catalogue, driver: Driver, settings: seq<Setting>)
    requires forall i, j :: 0 <= i < j < |settings| ==> settings[i].name != settings[j].name
    ensures DistinctKeys(SettingEntities(c, driver, settings))
    ensures forall e :: e in SettingEntities(c, driver, settings) ==> e.key in Names(settings)
  {
    hide SettingEntity;
    forall i | 0 <= i < |settings|
      ensures SettingEntities(c, driver, settings)[i].key == settings[i].name && settings[i] in settings
    {
      SettingPlace(c, driver, settings[i]);
    }
  }

  /** How long each fixed key is and how it begins. */
  function Marks(): seq<(nat, char)> {
    [(9, 'c'), (11, 'l'), (14, 'b'), (11, 'w'), (13, 'd'), (13, 's'), (16, 'f'), (14, 'a'), (17, 'a'), (19, 'b'),
     (28, 'b'), (20, 'b')]
  }

  lemma AlwaysMarked(i: nat)
    requires i < |Always()|
    ensures |Always()| == |Marks()|
    ensures var (key, mark) := (Always()[i].key, Marks()[i]); |key| == mark.0 && mark.0 > 0 && key[0] == mark.1
  {}

  lemma MarksDistinct()
    ensures forall i, j :: 0 <= i < j < |Marks()| ==> Marks()[i] != Marks()[j]
  {}

  lemma AlwaysDistinct()
    ensures DistinctKeys(Always())
  {
    hide Always, Marks;
    MarksDistinct();
    forall i, j | 0 <= i < j < |Always()|
      ensures Always()[i].key != Always()[j].key
    {
      AlwaysMarked(i);
      AlwaysMarked(j);
    }
  }

  lemma ActionsDistinct()
    ensures DistinctKeys(Actions())
  {}

  /** Lengths tell the two lists apart, but for one pair whose first letters do. */
  lemma AlwaysLengths(e: Entity)
    requires e in Always()
    ensures |e.key| != 7 && |e.key| != 22 && (|e.key| == 19 ==> e.key[0] == 'b')
  {}

  lemma ActionsLengths(a: Entity)
    requires a in Actions()
    ensures |a.key| == 7 || |a.key| == 22 || (|a.key| == 19 && a.key[0] == 'p')
  {}

  lemma ActionsApart(a: Entity)
    requires a in Actions()
    ensures forall e :: e in Always() ==> e.key != a.key
  {
    hide Always, Actions;
    ActionsLengths(a);
    forall e | e in Always()
      ensures e.key != a.key
    {
      AlwaysLengths(e);
    }
  }

  lemma FixedDistinct(writes: bool)
    ensures DistinctKeys(Always() + if writes then Actions() else [])
    ensures forall e :: e in Always() + (if writes then Actions() else []) ==> e.key in FixedKeys()
  {
    hide Always, Actions;
    AlwaysDistinct();
    assert forall e :: e in Always() + (if writes then Actions() else []) ==> e in Always() + Actions();
    if writes {
      ActionsDistinct();
      forall e, a | e in Always() && a in Actions()
        ensures e.key != a.key
      {
        ActionsApart(a);
      }
      DistinctJoin(Always(), Actions());
    } else {
      assert Always() + [] == Always();
    }
  }

  /** No catalogue has a key twice, so no entity is dropped by Home Assistant for a duplicate. */
  lemma KeysDistinct(c: Catalogue, driver: Driver)
    requires Wellformed(driver) && NamedApart(driver)
    ensures DistinctKeys(EntitiesOf(c, driver))
  {
    hide ReadingEntities, SettingEntities, FixedKeys, Names, DistinctKeys, Settings, Always, Actions;
    var settings := Settings(driver, c.slots);
    var a := ReadingEntities(c, Names(settings), driver.measurements);
    var b := SettingEntities(c, driver, settings);
    var f := Always() + if c.permitted.writes then Actions() else [];
    ReadingsDistinct(c, Names(settings), driver.measurements);
    SettingsDistinct(c, driver, settings);
    FixedDistinct(c.permitted.writes);
    forall x | x in a
      ensures x.key in Reported(driver) && x.key !in Names(settings)
    {
      var i :| 0 <= i < |driver.measurements| && driver.measurements[i].name == x.key;
      assert driver.measurements[i] in driver.measurements;
    }
    assert Names(settings) !! FixedKeys() && Reported(driver) !! FixedKeys();
    assert EntitiesOf(c, driver) == (a + b) + f;
    hide Reported, EntitiesOf;
    DistinctJoin(a, b);
    DistinctJoin(a + b, f);
  }

  // ------------------------------------------------------------------ a driver that meets all this

  const ChargeLimit := Setting("charge_limit", 3, NumberControl(10, 100), {}, None)

  /** One slot, which exposes one setting; one reading that is always published and one of a second pack. */
  const Small: Driver := Driver(
    1,
    [[], [ChargeLimit]],
    [Measurement("pv_power", NumberControl(0, 0), false, None),
     Measurement("battery2_soc", NumberControl(0, 0), false, None)],
    [])

  lemma AlwaysKeyLengths(e: Entity)
    requires e in Always()
    ensures |e.key| != 8 && |e.key| != 12 && |e.key| != 15
  {}

  lemma FixedKeyLengths()
    ensures forall key :: key in FixedKeys() ==> |key| != 8 && |key| != 12 && |key| != 15
  {
    hide Always, Actions;
    forall key | key in FixedKeys()
      ensures |key| != 8 && |key| != 12 && |key| != 15
    {
      var e :| e in Always() + Actions() && e.key == key;
      if e in Actions() {
        ActionsLengths(e);
      } else {
        AlwaysKeyLengths(e);
      }
    }
  }

  lemma SmallNames()
    ensures forall name :: name in Reported(Small) ==> |name| == 8 || |name| == 12
    ensures forall n: nat :: Settings(Small, n) == [] || Settings(Small, n) == [ChargeLimit]
    ensures forall n: nat, name :: name in Names(Settings(Small, n)) ==> |name| == 12
  {
    assert |ChargeLimit.name| == 12;
  }

  /** What is asked of drivers can be had all at once. */
  lemma SmallFits()
    ensures Wellformed(Small) && Monotone(Small) && NamedApart(Small)
  {
    hide FixedKeys;
    FixedKeyLengths();
    SmallNames();
    assert |Small.measurements[0].name| == 8 && |Small.measurements[1].name| == 12;
    hide Reported, Names;
  }

  // ------------------------------------------------------------------ drivers that `everything` does not cover

  const MeterSetting := Setting(METER_CONNECTED, 9, SwitchControl, {}, None)

  /** A condition that is a setting as well, once a slot is exposed. */
  const Claiming: Driver :=
    Driver(1, [[], [MeterSetting]], [Measurement(METER_CONNECTED, SwitchControl, false, None)], [])

  /** A fifth battery pack. */
  const FivePacks: Driver := Driver(0, [[]], [Measurement("battery5_soc", NumberControl(0, 0), false, None)], [])

  lemma ClaimingFits()
    ensures Wellformed(Claiming) && Monotone(Claiming) && NamedApart(Claiming)
  {
    hide FixedKeys;
    FixedKeyLengths();
    assert |METER_CONNECTED| == 15;
    assert forall n: nat, s :: s in Settings(Claiming, n) ==> s == MeterSetting;
  }

  lemma FivePacksFits()
    ensures Wellformed(FivePacks) && Monotone(FivePacks) && NamedApart(FivePacks)
  {
    hide FixedKeys;
    FixedKeyLengths();
    assert forall n: nat :: Settings(FivePacks, n) == [];
    assert forall name :: name in Reported(FivePacks) ==> |name| == 12;
  }

  lemma MissingUncovers(driver: Driver, c: Catalogue, m: Measurement)
    requires Wellformed(driver) && m in driver.measurements && Published(c, Names(Settings(driver, c.slots)), m)
    requires !Anticipated(driver, m)
    ensures !Covers(driver, c.packs)
  {
    hide EntitiesOf, Everything, Places, ForReading, Names, Settings, Anticipated, Includes;
    InCatalogue(c, driver, ForReading(m).value);
    UnanticipatedMissing(driver, m);
  }

  /** Without the slot, the condition is a binary sensor, of which `everything` knows nothing. */
  lemma ClaimingUncovered()
    ensures Wellformed(Claiming) && !Covers(Claiming, 1)
  {
    var m := Claiming.measurements[0];
    assert m in Claiming.measurements;
    assert MeterSetting in Settings(Claiming, 1) && METER_CONNECTED in Names(Settings(Claiming, 1));
    assert Settings(Claiming, 0) == [];
    assert METER_CONNECTED[0] == 'm';
    assert BatteryPack(METER_CONNECTED) == None by {
      PacklessIsNone(METER_CONNECTED);
    }
    assert ForReading(m).Some? && ForReading(m).value.component == BinarySensor by {
      MeterIsSignal(m);
    }
    hide ForReading, Settings, Names, BatteryPack;
    MissingUncovers(Claiming, Catalogue(0, Everyone, 1), m);
  }

  lemma MeterIsSignal(m: Measurement)
    requires m == Measurement(METER_CONNECTED, SwitchControl, false, None)
    ensures ForReading(m).Some? && ForReading(m).value.component == BinarySensor
  {
    assert |METER_CONNECTED| == 15 && |"inverter_mppt_version"| == 21 && |"pd_bms_version"| == 14;
  }

  lemma FifthPack()
    ensures BatteryPack("battery5_soc") == Some(5)
  {
    var key := "battery5_soc";
    assert key[..7] == "battery" && key[7..] == "5_soc";
    assert DigitRun("5_soc") == 1 by {
      assert "5_soc"[1..] == "_soc";
    }
    assert "5_soc"[..1] == "5" && "5"[..0] == "";
    assert Decimal("5") == 5;
  }

  /** A device that reports five packs has an entity that no sweep mentions. */
  lemma FivePacksUncovered()
    ensures Wellformed(FivePacks) && !Covers(FivePacks, 5)
  {
    var m := FivePacks.measurements[0];
    assert m in FivePacks.measurements;
    FifthPack();
    assert forall n: nat :: Names(Settings(FivePacks, n)) == {};
    assert ForReading(m).Some? by {
      assert |m.name| == 12 && |"inverter_mppt_version"| == 21 && |"pd_bms_version"| == 14;
    }
    hide ForReading, Settings, Names, BatteryPack;
    MissingUncovers(FivePacks, Catalogue(0, Everyone, 5), m);
  }
}
