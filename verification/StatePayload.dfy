/** The objects the state topics carry (src/homeassistant/state.rs:25-160). */
module StatePayload {
  import opened Prelude
  import opened Entities
  import opened Frames
  import Resting

  const CELL_SPREAD := "battery_cell_spread"
  const RESTING_VOLTAGE := "battery_resting_cell_voltage"
  const SOC_CREDIBLE := "battery_soc_credible"

  /** A field's value: rendered text, a number this program computed, or a verdict. */
  datatype Datum = Rendered(text: string) | Computed(value: int) | Verdict(credible: bool)

  type Object = map<string, Datum>

  /** A setting the device has answered for. */
  datatype Stored = Stored(name: string, raw: nat, text: string)

  /** An entry of the identity report, which may have no name, and what a state may say of it, if anything. */
  datatype ConfigEntry = ConfigEntry(name: Option<string>, text: Option<string>)

  function FieldsOf(es: seq<Entity>): set<string> { set e | e in es :: e.key }

  function ReadingFields(view: View, fields: set<string>): Object {
    if view == [] then map[]
    else
      var r := view[|view| - 1];
      var before := ReadingFields(view[..|view| - 1], fields);
      if r.name in fields then before[r.name := Rendered(r.text)] else before
  }

  /** The difference between the highest and the lowest cell, where a frame carries both. */
  function Spread(view: View): Option<int> {
    var high, low := Raw(view, "battery_cell_voltage_max"), Raw(view, "battery_cell_voltage_min");
    if high.Some? && low.Some? then Some(high.value - low.value) else None
  }

  function With(o: Object, fields: set<string>, key: string, d: Option<Datum>): Object {
    if d.Some? && key in fields then o[key := d.value] else o
  }

  function SpreadDatum(view: View): Option<Datum> {
    match Spread(view) { case None => None case Some(v) => Some(Computed(v)) }
  }

  function VoltageDatum(resting: Option<Resting.Sample>): Option<Datum> {
    match resting { case None => None case Some(s) => Some(Computed(s.millivolts)) }
  }

  function VerdictDatum(resting: Option<Resting.Sample>): Option<Datum> {
    match resting
    case Some(Sample(_, Some(credible))) => Some(Verdict(credible))
    case _ => None
  }

  /** One frame's object. */
  function TelemetryObject(view: View, fields: set<string>, resting: Option<Resting.Sample>): Object {
    var readings := ReadingFields(view, fields);
    var spread := With(readings, fields, CELL_SPREAD, SpreadDatum(view));
    var voltage := With(spread, fields, RESTING_VOLTAGE, VoltageDatum(resting));
    With(voltage, fields, SOC_CREDIBLE, VerdictDatum(resting))
  }

  function SettingsObject(stored: seq<Stored>, fields: set<string>): Object {
    if stored == [] then map[]
    else
      var s := stored[|stored| - 1];
      var before := SettingsObject(stored[..|stored| - 1], fields);
      if s.name in fields then before[s.name := Rendered(s.text)] else before
  }

  function ConfigObject(entries: seq<ConfigEntry>, fields: set<string>): Object {
    if entries == [] then map[]
    else
      var e := entries[|entries| - 1];
      var before := ConfigObject(entries[..|entries| - 1], fields);
      if e.name.Some? && e.name.value in fields && e.text.Some? then before[e.name.value := Rendered(e.text.value)]
      else before
  }

  lemma {:induction false} ReadingFieldsExactly(view: View, fields: set<string>, key: string)
    ensures key in ReadingFields(view, fields) <==> key in fields && exists r :: r in view && r.name == key
  {
    if view != [] {
      ReadingFieldsExactly(view[..|view| - 1], fields, key);
      assert forall r :: r in view <==> r in view[..|view| - 1] || r == view[|view| - 1];
    }
  }

  /** A frame's object carries exactly the fields that an entity reads and that the frame, or the battery's rest, has
    * something to say about: no field nothing reads, and none that was not measured. */
  lemma TelemetryExactly(view: View, fields: set<string>, resting: Option<Resting.Sample>, key: string)
    ensures key in TelemetryObject(view, fields, resting) <==>
            && key in fields
            && (|| (exists r :: r in view && r.name == key)
                || (key == CELL_SPREAD && Spread(view).Some?)
                || (key == RESTING_VOLTAGE && resting.Some?)
                || (key == SOC_CREDIBLE && resting.Some? && resting.value.credible.Some?))
  {
    hide ReadingFields, Spread;
    ReadingFieldsExactly(view, fields, key);
  }

  /** The settings object carries exactly the fields that an entity reads and the device has answered for. */
  lemma {:induction false} SettingsExactly(stored: seq<Stored>, fields: set<string>, key: string)
    ensures key in SettingsObject(stored, fields) <==> key in fields && exists s :: s in stored && s.name == key
  {
    if stored != [] {
      SettingsExactly(stored[..|stored| - 1], fields, key);
      assert forall s :: s in stored <==> s in stored[..|stored| - 1] || s == stored[|stored| - 1];
    }
  }

  // ------------------------------------------------------------------ the values

  /** Index `i` has the last reading of its name. */
  predicate LastReading(view: View, i: nat, key: string) {
    i < |view| && view[i].name == key && forall j :: i < j < |view| ==> view[j].name != key
  }

  lemma {:induction false} ReadingValue(view: View, fields: set<string>, key: string)
    requires key in ReadingFields(view, fields)
    ensures exists i: nat :: LastReading(view, i, key) && ReadingFields(view, fields)[key] == Rendered(view[i].text)
  {
    var n := |view| - 1;
    ReadingFieldsExactly(view, fields, key);
    if view[n].name == key {
      assert LastReading(view, n, key);
    } else {
      ReadingValue(view[..n], fields, key);
      var i: nat :| LastReading(view[..n], i, key)
                    && ReadingFields(view[..n], fields)[key] == Rendered(view[..n][i].text);
      assert LastReading(view, i, key) by {
        assert forall j :: i < j < n ==> view[j] == view[..n][j];
      }
      assert view[..n][i] == view[i] && ReadingFields(view, fields)[key] == ReadingFields(view[..n], fields)[key];
    }
  }

  /** What a frame's object says of each field it carries: the verdict and the voltage of the last rest, the difference
    * of the two extreme cells' raw voltages, and of any other field the text of its last reading. */
  lemma TelemetryValues(view: View, fields: set<string>, resting: Option<Resting.Sample>, key: string)
    requires key in TelemetryObject(view, fields, resting)
    ensures var high, low := Raw(view, "battery_cell_voltage_max"), Raw(view, "battery_cell_voltage_min");
            var said := TelemetryObject(view, fields, resting)[key];
            if key == "battery_soc_credible" && resting.Some? && resting.value.credible.Some?
            then said == Verdict(resting.value.credible.value)
            else if key == "battery_resting_cell_voltage" && resting.Some?
            then said == Computed(resting.value.millivolts)
            else if key == "battery_cell_spread" && high.Some? && low.Some?
            then said == Computed(high.value as int - low.value as int)
            else exists i: nat :: LastReading(view, i, key) && said == Rendered(view[i].text)
  {
    hide ReadingFields, LastReading, Raw;
    ComputedKeysApart();
    ReadingFieldsExactly(view, fields, key);
    if key in ReadingFields(view, fields) {
      ReadingValue(view, fields, key);
    }
  }

  lemma ComputedKeysApart()
    ensures CELL_SPREAD == "battery_cell_spread" && RESTING_VOLTAGE == "battery_resting_cell_voltage"
    ensures SOC_CREDIBLE == "battery_soc_credible"
    ensures CELL_SPREAD != RESTING_VOLTAGE && CELL_SPREAD != SOC_CREDIBLE && RESTING_VOLTAGE != SOC_CREDIBLE
  {
    assert |CELL_SPREAD| == 19 && |RESTING_VOLTAGE| == 28 && |SOC_CREDIBLE| == 20;
  }

  predicate LastStored(stored: seq<Stored>, i: nat, key: string) {
    i < |stored| && stored[i].name == key && forall j :: i < j < |stored| ==> stored[j].name != key
  }

  /** The settings object says of each field the text of the last answer for it. */
  lemma {:induction false} SettingsValues(stored: seq<Stored>, fields: set<string>, key: string)
    requires key in SettingsObject(stored, fields)
    ensures exists i: nat ::
              LastStored(stored, i, key) && SettingsObject(stored, fields)[key] == Rendered(stored[i].text)
  {
    var n := |stored| - 1;
    SettingsExactly(stored, fields, key);
    if stored[n].name == key {
      assert LastStored(stored, n, key);
    } else {
      SettingsValues(stored[..n], fields, key);
      var i: nat :| LastStored(stored[..n], i, key)
                    && SettingsObject(stored[..n], fields)[key] == Rendered(stored[..n][i].text);
      assert LastStored(stored, i, key) by {
        assert forall j :: i < j < n ==> stored[j] == stored[..n][j];
      }
      assert stored[..n][i] == stored[i];
      assert SettingsObject(stored, fields)[key] == SettingsObject(stored[..n], fields)[key];
    }
  }

  /** Entry `i` is the last of its name that has anything to say. */
  predicate LastEntry(entries: seq<ConfigEntry>, i: nat, key: string) {
    && i < |entries| && entries[i].name == Some(key) && entries[i].text.Some?
    && forall j :: i < j < |entries| ==> entries[j].name != Some(key) || entries[j].text == None
  }

  /** The configuration object carries exactly the fields an entity reads that a named entry says something of. */
  lemma {:induction false} ConfigExactly(entries: seq<ConfigEntry>, fields: set<string>, key: string)
    ensures key in ConfigObject(entries, fields) <==>
            key in fields && exists e :: e in entries && e.name == Some(key) && e.text.Some?
  {
    if entries != [] {
      ConfigExactly(entries[..|entries| - 1], fields, key);
      assert forall e :: e in entries <==> e in entries[..|entries| - 1] || e == entries[|entries| - 1];
    }
  }

  /** And of each what the last such entry says. */
  lemma {:induction false} ConfigValues(entries: seq<ConfigEntry>, fields: set<string>, key: string)
    requires key in ConfigObject(entries, fields)
    ensures exists i: nat ::
              LastEntry(entries, i, key) && ConfigObject(entries, fields)[key] == Rendered(entries[i].text.value)
  {
    var n := |entries| - 1;
    ConfigExactly(entries, fields, key);
    if entries[n].name == Some(key) && entries[n].text.Some? {
      assert LastEntry(entries, n, key);
    } else {
      ConfigValues(entries[..n], fields, key);
      var i: nat :| LastEntry(entries[..n], i, key)
                    && ConfigObject(entries[..n], fields)[key] == Rendered(entries[..n][i].text.value);
      assert LastEntry(entries, i, key) by {
        assert forall j :: i < j < n ==> entries[j] == entries[..n][j];
      }
      assert entries[..n][i] == entries[i];
      assert ConfigObject(entries, fields)[key] == ConfigObject(entries[..n], fields)[key];
    }
  }
}
