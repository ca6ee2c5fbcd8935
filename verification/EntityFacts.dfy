/** What each register becomes, and which packs a catalogue has, in so many words
  * (src/homeassistant/entity.rs:296-387, 791-822, 847-1004, src/homeassistant/command.rs:56-60). */
module EntityFacts {
  import opened Prelude
  import opened Entities

  // ------------------------------------------------------------------ one setting, one reading

  /** Each control has its component and shape, and an entity made of a setting waits for the setting that may
    * supersede it. */
  lemma ControlsExactly(s: Setting)
    ensures var e := ForSetting(s);
            && e.key == s.name && e.source == Some(FromSettings)
            && (s.control.NumberControl? ==> e.component == Number && e.shape == Numeric)
            && (s.control.SwitchControl? ==> e.component == Switch && e.shape == Toggle)
            && (s.control.ChoiceControl? ==> e.component == Select && e.shape == Choice(s.control.labels))
            && (s.control.TimeControl? || s.control.TextControl? ==> e.component == Text && e.shape == TimeOfDay)
            && (s.control.WeekdaysControl? ==> e.component == Text && e.shape == Weekdays)
            && (s.supersededBy == None ==> e.gate == None)
            && (s.supersededBy.Some? ==>
                  e.gate == Some(SettingIsNot(s.supersededBy.value.0, s.supersededBy.value.1)))
  {}

  /** A setting's entity in a catalogue: as above where it may be written, a plain sensor where not; read from
    * telemetry where the device reports a measurement of its name. */
  lemma SettingExactly(c: Catalogue, driver: Driver, s: Setting)
    ensures var (e, full) := (SettingEntity(c, driver, s), ForSetting(s));
            && e.key == s.name && e.gate == full.gate
            && e.source == Some(if exists m :: m in driver.measurements && m.name == s.name then FromTelemetry
                                else FromSettings)
            && if c.permitted.writes && (c.permitted.powerPlus || s.name != "power_plus")
               then e.component == full.component && e.shape == full.shape
               else e.component == Sensor && e.shape == Reading
  {
    assert s.name in Reported(driver) <==> exists m :: m in driver.measurements && m.name == s.name;
    assert POWER_PLUS == "power_plus";
    hide Reported;
  }

  /** Whether a name says that a reading is a condition. */
  predicate NamesCondition(name: string) { name == "meter_connected" || name == "off_grid_mode_active" }

  /** A measurement becomes an entity unless it is unknown, one of the two version parts, or text; it is a condition by
    * one of two names, a list of faults by the end of its name, and otherwise a reading. */
  lemma ReadingExactly(m: Measurement)
    ensures ForReading(m) == None <==>
            m.unknown || m.name == "inverter_mppt_version" || m.name == "pd_bms_version" || m.control.TextControl?
    ensures ForReading(m).Some? ==>
              var e := ForReading(m).value;
              && e.key == m.name && e.source == Some(FromTelemetry)
              && e.component == (if NamesCondition(m.name) then BinarySensor else Sensor)
              && (e.shape == Flags <==> exists stem :: m.name == stem + "_faults")
              && (e.shape == Signal <==> NamesCondition(m.name))
              && (e.shape == Reading <==> e.shape != Flags && e.shape != Signal)
              && e.gate == if m.gatedBy == None then None else Some(ReadingIsSet(m.gatedBy.value))
  {
    FaultsByEnding(m.name);
    ConditionsEndOtherwise(m.name);
    hide IsFlags;
  }

  lemma FaultsByEnding(name: string)
    ensures IsFlags(name) <==> exists stem :: name == stem + "_faults"
  {
    if IsFlags(name) {
      assert name == name[..|name| - 7] + "_faults";
    }
    if stem :| name == stem + "_faults" {
      assert name[|name| - 7..] == "_faults";
    }
  }

  lemma ConditionsEndOtherwise(name: string)
    ensures NamesCondition(name) ==> !IsFlags(name)
    ensures NamesCondition(name) <==> IsSignal(name)
  {
    assert "meter_connected"[14] == 'd' && "off_grid_mode_active"[19] == 'e';
    assert |"meter_connected"| == 15 && |"off_grid_mode_active"| == 20;
    if IsFlags(name) {
      assert name[|name| - 7..][6] == 's';
    }
  }

  /** Which shapes take commands. */
  lemma WritableExactly(e: Entity)
    ensures IsWritable(e) <==> !(e.shape.Reading? || e.shape.Flags? || e.shape.Signal?)
    ensures IsWritable(e) ==> IntoReadOnly(e) == Entity(e.key, Sensor, Reading, e.source, e.gate)
    ensures !IsWritable(e) ==> IntoReadOnly(e) == e
  {}

  lemma AllowsExactly(p: Permitted, name: string)
    ensures Allows(p, name) <==> p.writes && (name == "power_plus" ==> p.powerPlus)
  {}

  // ------------------------------------------------------------------ what does not come from registers

  /** The entities every device has. */
  lemma AlwaysExactly(e: Entity)
    ensures e in Always() <==>
            || e == Entity("connected", BinarySensor, Signal, Some(FromStatus), None)
            || e == Entity("last_update", Sensor, Reading, Some(FromStatus), None)
            || e == Entity("bridge_version", Sensor, Reading, Some(FromStatus), None)
            || e == Entity("wifi_signal", Sensor, Reading, Some(FromConfig), None)
            || e == Entity("data_interval", Sensor, Reading, Some(FromConfig), None)
            || e == Entity("serial_number", Sensor, Reading, Some(FromConfig), None)
            || e == Entity("firmware_version", Sensor, Reading, Some(FromStatus), None)
            || e == Entity("accessory_list", Sensor, Reading, Some(FromConfig), None)
            || e == Entity("accessory_list_rf", Sensor, Reading, Some(FromConfig), None)
            || e == Entity("battery_cell_spread", Sensor, Reading, Some(FromTelemetry), None)
            || e == Entity("battery_resting_cell_voltage", Sensor, Reading, Some(FromTelemetry), None)
            || e == Entity("battery_soc_credible", BinarySensor, Signal, Some(FromTelemetry), None)
  {}

  /** The controls a bridge that writes has besides. */
  lemma ActionsExactly(e: Entity)
    ensures e in Actions() <==>
            || e == Entity("restart", Button, Action, Some(FromConfig), None)
            || e == Entity("supplied_meter_reading", Number, Numeric, None, None)
            || e == Entity("withdraw_meter_reading", Button, Action, None, Some(ReadingIsSet("meter_connected")))
            || e == Entity("pair_lora_accessory", Button, Action, None, None)
  {}

  lemma RetiredExactly(p: Place)
    ensures p in Retired <==> p == (Sensor, "sw_version_part_1") || p == (Sensor, "sw_version_part_2")
  {}

  /** However many slots are asked for, no more than there are can be exposed. */
  lemma SlotsClamp(driver: Driver, slots: nat)
    requires Wellformed(driver)
    ensures slots <= driver.slots ==> Settings(driver, slots) == driver.exposed[slots]
    ensures slots >= driver.slots ==> Settings(driver, slots) == driver.exposed[driver.slots]
  {}

  // ------------------------------------------------------------------ which pack a name means

  predicate IsDigit(c: char) { '0' <= c <= '9' }

  predicate Digits(s: string) { forall i :: 0 <= i < |s| ==> IsDigit(s[i]) }

  /** What digits are worth after those that are worth so much. */
  function Worth(digits: string, sofar: nat): nat
    requires Digits(digits)
  {
    if digits == "" then sofar else Worth(digits[1..], 10 * sofar + (digits[0] as int - '0' as int))
  }

  lemma {:induction false} WorthAtEnd(digits: string, sofar: nat)
    requires digits != "" && Digits(digits)
    ensures var n := |digits| - 1;
            Worth(digits, sofar) == 10 * Worth(digits[..n], sofar) + (digits[n] as int - '0' as int)
  {
    var n := |digits| - 1;
    if n > 0 {
      WorthAtEnd(digits[1..], 10 * sofar + (digits[0] as int - '0' as int));
      assert digits[1..][..n - 1] == digits[..n][1..];
    }
  }

  lemma {:induction false} DecimalIsWorth(digits: string)
    requires Digits(digits)
    ensures Decimal(digits) == Worth(digits, 0)
  {
    if digits != "" {
      DecimalIsWorth(digits[..|digits| - 1]);
      WorthAtEnd(digits, 0);
    }
  }

  lemma {:induction false} RunOfDigits(digits: string, rest: string)
    requires forall i :: 0 <= i < |digits| ==> IsDigit(digits[i])
    requires rest != [] ==> !IsDigit(rest[0])
    ensures DigitRun(digits + rest) == |digits|
  {
    if digits == [] {
      assert digits + rest == rest;
    } else {
      assert (digits + rest)[1..] == digits[1..] + rest;
      RunOfDigits(digits[1..], rest);
    }
  }

  /** A name that starts with "battery" and some digits means the pack they count to, whatever comes after them, if that
    * is a number of sixteen bits, and otherwise none. */
  lemma PackIsNumbered(digits: string, rest: string)
    requires digits != "" && Digits(digits) && (rest != "" ==> !IsDigit(rest[0]))
    ensures BatteryPack("battery" + digits + rest) ==
            if Worth(digits, 0) < 65536 then Some(Worth(digits, 0)) else None
  {
    var key := "battery" + digits + rest;
    DecimalIsWorth(digits);
    RunOfDigits(digits, rest);
    hide Decimal, DigitRun;
    assert |"battery"| == 7;
    assert key[..7] == "battery" && key[7..] == digits + rest && (digits + rest)[..|digits|] == digits;
  }

  /** Every other name means none. */
  lemma UnnumberedIsNoPack(key: string)
    requires |key| < 8 || key[..7] != "battery" || !IsDigit(key[7])
    ensures BatteryPack(key) == None
  {
    if |key| >= 8 {
      assert key[7..][0] == key[7];
    }
  }

  // ------------------------------------------------------------------ which packs a catalogue has

  /** A reading that no exposed setting claims is in the catalogue exactly if it means no pack or one the device has. */
  lemma ReadingIsInExactly(c: Catalogue, driver: Driver, m: Measurement)
    requires Wellformed(driver) && m in driver.measurements && ForReading(m).Some?
    requires forall s :: s in Settings(driver, c.slots) ==> s.name != m.name
    ensures ForReading(m).value in EntitiesOf(c, driver) <==>
            match BatteryPack(m.name) { case None => true case Some(pack) => pack <= c.packs }
  {
    var e := ForReading(m).value;
    assert e.key == m.name;
    assert m.name !in Names(Settings(driver, c.slots));
    InCatalogue(c, driver, e);
    if e in EntitiesOf(c, driver) {
      NoFurtherPack(c, driver, e);
    } else {
      hide EntitiesOf, ForReading, Names, Settings, BatteryPack, Always, Actions, SettingEntity;
      assert !Published(c, Names(Settings(driver, c.slots)), m);
    }
  }

  /** No catalogue has an entity of a pack beyond those the device has, but for what a setting is named. */
  lemma NoFurtherPack(c: Catalogue, driver: Driver, e: Entity)
    requires Wellformed(driver) && e in EntitiesOf(c, driver)
    requires forall s :: s in Settings(driver, c.slots) ==> s.name != e.key
    ensures BatteryPack(e.key).Some? ==> BatteryPack(e.key).value <= c.packs
  {
    hide EntitiesOf, BatteryPack, Settings, Always, Actions, SettingEntity, Names;
    InCatalogue(c, driver, e);
    if e in Always() || e in Actions() {
      FixedIsNoPack(e);
    } else if s :| s in Settings(driver, c.slots) && SettingEntity(c, driver, s) == e {
      SettingPlace(c, driver, s);
    }
  }

  /** The sweep looks as far as the fourth pack, at both forms of every setting, and at the actions. */
  lemma EverythingIs(driver: Driver, e: Entity)
    requires Wellformed(driver)
    ensures e in Everything(driver) <==>
            || e in EntitiesOf(Catalogue(driver.slots, Permitted(true, true), 4), driver)
            || e in EntitiesOf(Catalogue(driver.slots, Permitted(false, true), 4), driver)
  {
    hide EntitiesOf;
  }
}
