/** What a command payload may change (src/homeassistant/command.rs:66-397): the allowlist, and its agreement
  * with the controls a catalogue offers. */
module Commands {
  import opened Prelude
  import opened Entities

  /** A JSON value, as far as a command looks at one: its integers are those that fit 64 bits. */
  datatype Json = Null | Bool(flag: bool) | Integer(n: int) | Fraction | Str(text: string) | Nested

  datatype CommandError =
    | Malformed
    | Empty
    | Unknown(key: string)
    | Refused(key: string)
    | WrongShape(key: string)
    | OutOfDomain(key: string, value: nat)

  datatype Delivery = Confirmed | FireAndForget

  datatype Command =
    | Set(register: nat, value: nat)
    | WriteConfig(register: nat, text: string)
    | MeterReading(watts: int, valid: bool)
    | PairLoraAccessory

  datatype Change = Change(key: string, register: Option<nat>, command: Command, delivery: Delivery)

  /** How a control reads text; what it makes of times and weekdays is the shape's business. */
  type Parser = (Control, string) -> Option<nat>

  /** What a control makes of a JSON value: a switch takes flags, a number takes sixteen bits, and anything takes the
    * text it can parse. */
  function RawValue(s: Setting, value: Json, parse: Parser): Option<nat> {
    match value
    case Bool(flag) => if s.control.SwitchControl? then Some(if flag then 1 else 0) else None
    case Str(text) => parse(s.control, text)
    case Integer(n) =>
      if s.control.SwitchControl? then (if 0 <= n <= 1 then Some(n) else None)
      else if s.control.NumberControl? then (if 0 <= n < 0x1_0000 then Some(n) else None)
      else None
    case _ => None
  }

  /** The first writable configuration field that is an action of this name. */
  function ActionNamed(fields: seq<ConfigField>, key: string): (r: Option<ConfigField>)
    ensures r.Some? ==> r.value in fields && r.value.name == key && r.value.action.Some?
  {
    if fields == [] then None
    else if fields[0].action.Some? && fields[0].name == key then Some(fields[0])
    else ActionNamed(fields[1..], key)
  }

  function FirstNamed(settings: seq<Setting>, key: string): (r: Option<Setting>)
    ensures r.Some? ==> r.value in settings && r.value.name == key
  {
    if settings == [] then None
    else if settings[0].name == key then Some(settings[0])
    else FirstNamed(settings[1..], key)
  }

  /** A setting by name, whatever number of slots is exposed. */
  function SettingNamed(driver: Driver, key: string): Option<Setting>
    requires Wellformed(driver)
  {
    FirstNamed(Settings(driver, driver.slots), key)
  }

  function ActionChange(f: ConfigField, key: string, p: Permitted): Result<Change, CommandError>
    requires f.action.Some?
  {
    if f.destructive || !Allows(p, key) then Failure(Refused(key))
    else Success(Change(key, Some(f.register), WriteConfig(f.register, f.action.value), FireAndForget))
  }

  function MeterChange(key: string, value: Json, p: Permitted): Result<Change, CommandError> {
    if !Allows(p, key) then Failure(Refused(key))
    else if key == WITHDRAW_METER_READING then Success(Change(key, None, MeterReading(0, false), FireAndForget))
    else
      match value
      case Integer(n) =>
        if -0x8000_0000 <= n < 0x8000_0000 then Success(Change(key, None, MeterReading(n, true), FireAndForget))
        else Failure(WrongShape(key))
      case _ => Failure(WrongShape(key))
  }

  function SettingChange(s: Setting, key: string, value: Json, p: Permitted, parse: Parser):
    Result<Change, CommandError>
  {
    if !Allows(p, key) then Failure(Refused(key))
    else
      match RawValue(s, value, parse)
      case None => Failure(WrongShape(key))
      case Some(raw) =>
        if raw !in s.accepted then Failure(OutOfDomain(key, raw))
        else Success(Change(key, Some(s.register), Set(s.register, raw), Confirmed))
  }

  /** A name is an action's, a meter's, the pairing button's or a setting's, in that order, and none other is known. */
  function One(key: string, value: Json, p: Permitted, driver: Driver, parse: Parser): Result<Change, CommandError>
    requires Wellformed(driver)
  {
    var action := ActionNamed(driver.writableConfig, key);
    if action.Some? then ActionChange(action.value, key, p)
    else if key == METER_READING || key == WITHDRAW_METER_READING then MeterChange(key, value, p)
    else if key == PAIR_LORA_ACCESSORY then
      if Allows(p, key) then Success(Change(key, None, PairLoraAccessory, FireAndForget)) else Failure(Refused(key))
    else
      var setting := SettingNamed(driver, key);
      if setting == None then Failure(Unknown(key)) else SettingChange(setting.value, key, value, p, parse)
  }

  /** The fields in order, up to the first that cannot be honoured. */
  function Each(fields: seq<(string, Json)>, p: Permitted, driver: Driver, parse: Parser):
    Result<seq<Change>, CommandError>
    requires Wellformed(driver)
  {
    if fields == [] then Success([])
    else
      var (key, value) := fields[0];
      var first :- One(key, value, p, driver, parse);
      var rest :- Each(fields[1..], p, driver, parse);
      Success([first] + rest)
  }

  /** A payload that is a JSON object has its fields, any other has none. */
  function FromPayload(payload: Option<seq<(string, Json)>>, p: Permitted, driver: Driver, parse: Parser):
    Result<seq<Change>, CommandError>
    requires Wellformed(driver)
  {
    match payload
    case None => Failure(Malformed)
    case Some(fields) => if fields == [] then Failure(Empty) else Each(fields, p, driver, parse)
  }

  // ------------------------------------------------------------------ offered and honoured

  /** Neither an unknown name nor a refused one. */
  predicate Honoured(r: Result<Change, CommandError>) {
    r.Success? || (!r.error.Unknown? && !r.error.Refused?)
  }

  /** Whether the driver backs a control of this name: an action of that name must not be a destructive one, and
    * the restart button needs an action (or a setting) to press. */
  predicate Backed(driver: Driver, key: string)
    requires Wellformed(driver)
  {
    match ActionNamed(driver.writableConfig, key)
    case Some(f) => !f.destructive
    case None => key == RESTART ==> SettingNamed(driver, key).Some?
  }

  lemma {:induction false} NamedIsFound(settings: seq<Setting>, s: Setting)
    requires s in settings
    ensures FirstNamed(settings, s.name).Some?
  {
    if settings[0].name != s.name {
      NamedIsFound(settings[1..], s);
    }
  }

  /** What a writable entity is: a setting that may be written, or an action of a bridge that writes. */
  lemma WritableEntity(c: Catalogue, driver: Driver, e: Entity)
    requires Wellformed(driver) && Monotone(driver) && e in EntitiesOf(c, driver) && IsWritable(e)
    ensures Allows(c.permitted, e.key)
    ensures SettingNamed(driver, e.key).Some? || e in Actions()
  {
    var settings := Settings(driver, c.slots);
    assert |POWER_PLUS| == 10;
    assert forall s :: s in settings ==> s in Settings(driver, driver.slots);
    hide EntitiesOf, SettingEntity, Names, Always, Actions, IsWritable, ForReading, Published, Settings, Monotone;
    InCatalogue(c, driver, e);
    if s :| s in settings && SettingEntity(c, driver, s) == e {
      SettingPlace(c, driver, s);
      NamedIsFound(Settings(driver, driver.slots), s);
    } else if c.permitted.writes && e in Actions() {
      ActionsLengths(e);
    } else {
      NoneWritable(driver, e);
    }
  }

  lemma ActionKeys(e: Entity)
    requires e in Actions()
    ensures || e.key == RESTART || e.key == METER_READING
            || e.key == WITHDRAW_METER_READING || e.key == PAIR_LORA_ACCESSORY
    ensures e.key != RESTART ==> |e.key| > |RESTART|
  {}

  lemma MeterIsHonoured(key: string, value: Json, p: Permitted)
    requires Allows(p, key)
    ensures Honoured(MeterChange(key, value, p))
  {
    hide Allows;
  }

  /** Every control a catalogue offers is honoured under the permissions it was offered with, exactly when the
    * driver backs it. */
  lemma OfferedIsHonouredExactly(c: Catalogue, driver: Driver, e: Entity, value: Json, parse: Parser)
    requires Wellformed(driver) && Monotone(driver) && e in EntitiesOf(c, driver) && IsWritable(e)
    ensures Honoured(One(e.key, value, c.permitted, driver, parse)) <==> Backed(driver, e.key)
  {
    hide EntitiesOf, Allows, RawValue, Settings, Monotone, IsWritable, Always, Actions, SettingNamed, MeterChange;
    WritableEntity(c, driver, e);
    MeterIsHonoured(e.key, value, c.permitted);
    if e in Actions() {
      ActionKeys(e);
    }
  }

  /** A driver without a restart action has its restart button offered and unknown. */
  lemma SmallRestartUnbacked(value: Json, parse: Parser)
    ensures Wellformed(Small) && !Backed(Small, RESTART)
    ensures var c := Catalogue(0, Everyone, 1);
            && (exists e :: e in EntitiesOf(c, Small) && IsWritable(e) && e.key == RESTART)
            && One(RESTART, value, c.permitted, Small, parse) == Failure(Unknown(RESTART))
  {
    var c, e := Catalogue(0, Everyone, 1), Actions()[0];
    assert e in Actions() && IsWritable(e) && e.key == RESTART;
    assert |RESTART| == 7 && |METER_READING| == 22 && |WITHDRAW_METER_READING| == 22 && |PAIR_LORA_ACCESSORY| == 19;
    assert Settings(Small, Small.slots) == [ChargeLimit] && |ChargeLimit.name| == 12;
    assert [ChargeLimit][1..] == [];
    hide EntitiesOf, Settings, Always, Actions;
    InCatalogue(c, Small, e);
  }

  /** Whether any control at all has this name. */
  predicate Known(driver: Driver, key: string)
    requires Wellformed(driver)
  {
    || ActionNamed(driver.writableConfig, key).Some?
    || key == METER_READING || key == WITHDRAW_METER_READING || key == PAIR_LORA_ACCESSORY
    || SettingNamed(driver, key).Some?
  }

  /** What the permissions withdraw is always refused, whatever value comes with it: a retained or hand-published
    * command gets no further than a name nobody knows. */
  lemma WithdrawnIsRefused(key: string, value: Json, p: Permitted, driver: Driver, parse: Parser)
    requires Wellformed(driver) && !Allows(p, key)
    ensures One(key, value, p, driver, parse) == Failure(if Known(driver, key) then Refused(key) else Unknown(key))
  {
    hide Allows, Settings, RawValue;
  }

  /** Whatever is accepted was permitted, is no destructive action, and is within its register's domain. */
  lemma AcceptedIsAllowed(key: string, value: Json, p: Permitted, driver: Driver, parse: Parser)
    requires Wellformed(driver) && One(key, value, p, driver, parse).Success?
    ensures Allows(p, key)
    ensures var c := One(key, value, p, driver, parse).value;
            && c.key == key
            && match c.command
               case Set(register, raw) =>
                 exists s :: s in Settings(driver, driver.slots) && s.name == key && s.register == register
                             && raw in s.accepted
               case WriteConfig(register, text) =>
                 exists f :: f in driver.writableConfig && f.name == key && f.register == register
                             && f.action == Some(text) && !f.destructive
               case MeterReading(watts, valid) =>
                 if key == WITHDRAW_METER_READING then watts == 0 && !valid else valid && value == Integer(watts)
               case PairLoraAccessory => key == PAIR_LORA_ACCESSORY
  {
    hide Settings;
  }

  /** A key that is one of the driver's settings' names is none of the fixed ones. */
  lemma NotFixed(driver: Driver, s: Setting)
    requires Wellformed(driver) && NamedApart(driver) && s in Settings(driver, driver.slots)
    ensures forall e :: e in Actions() ==> e.key != s.name
  {
    hide Settings;
    assert s.name in Names(Settings(driver, driver.slots));
    assert Names(Settings(driver, driver.slots)) !! FixedKeys();
    hide NamedApart, Names, Always, Actions;
    forall e | e in Actions()
      ensures e.key != s.name
    {
      assert e in Always() + Actions() && e.key in FixedKeys();
    }
  }

  lemma NotFixedKeys(driver: Driver, s: Setting)
    requires Wellformed(driver) && NamedApart(driver) && s in Settings(driver, driver.slots)
    ensures s.name != METER_READING && s.name != WITHDRAW_METER_READING && s.name != PAIR_LORA_ACCESSORY
  {
    hide Settings, NamedApart;
    NotFixed(driver, s);
    assert Actions()[1] in Actions() && Actions()[2] in Actions() && Actions()[3] in Actions();
  }

  /** A setting that is not exposed is offered by no control, and is honoured all the same. */
  lemma UnexposedIsHonoured(c: Catalogue, driver: Driver, s: Setting, value: Json, parse: Parser)
    requires Wellformed(driver) && NamedApart(driver) && s in Settings(driver, driver.slots)
    requires s.name !in Names(Settings(driver, c.slots)) && Allows(c.permitted, s.name)
    requires ActionNamed(driver.writableConfig, s.name) == None
    ensures forall e :: e in EntitiesOf(c, driver) && e.key == s.name ==> !IsWritable(e)
    ensures Honoured(One(s.name, value, c.permitted, driver, parse))
  {
    hide Settings, NamedApart, EntitiesOf, Names, Allows, IsWritable, One, Honoured;
    FoundIsHonoured(c.permitted, driver, s, value, parse);
    forall e | e in EntitiesOf(c, driver) && e.key == s.name
      ensures !IsWritable(e)
    {
      NotExposed(c, driver, s, e);
    }
  }

  lemma FoundIsHonoured(p: Permitted, driver: Driver, s: Setting, value: Json, parse: Parser)
    requires Wellformed(driver) && NamedApart(driver) && s in Settings(driver, driver.slots)
    requires Allows(p, s.name) && ActionNamed(driver.writableConfig, s.name) == None
    ensures Honoured(One(s.name, value, p, driver, parse))
  {
    hide Settings, NamedApart, RawValue, Allows;
    NamedIsFound(Settings(driver, driver.slots), s);
    NotFixedKeys(driver, s);
  }

  /** What may be written came from a setting or is an action. */
  lemma NoneWritable(driver: Driver, e: Entity)
    requires e in Always() || exists m :: m in driver.measurements && ForReading(m) == Some(e)
    ensures !IsWritable(e)
  {}

  lemma NotExposed(c: Catalogue, driver: Driver, s: Setting, e: Entity)
    requires Wellformed(driver) && NamedApart(driver) && s in Settings(driver, driver.slots)
    requires s.name !in Names(Settings(driver, c.slots)) && e in EntitiesOf(c, driver) && e.key == s.name
    ensures !IsWritable(e)
  {
    assert forall t :: t in Settings(driver, c.slots) ==> t.name != s.name;
    hide EntitiesOf, SettingEntity, NamedApart, Settings, Names, IsWritable, ForReading, Published, Always, Actions;
    InCatalogue(c, driver, e);
    NotFixed(driver, s);
    forall t | t in Settings(driver, c.slots)
      ensures SettingEntity(c, driver, t) != e
    {
      SettingPlace(c, driver, t);
    }
    NoneWritable(driver, e);
  }

  // ------------------------------------------------------------------ exactly what a field changes

  /** What a value means for a control: an integer itself, on a switch or a number; a flag one or nought, on a switch;
    * a text what it parses to, on any. */
  predicate Means(control: Control, value: Json, raw: nat, parse: Parser) {
    match value
    case Integer(n) => n == raw && raw < 65536 && (control.NumberControl? || (control.SwitchControl? && raw <= 1))
    case Bool(flag) => control.SwitchControl? && raw <= 1 && (flag <==> raw == 1)
    case Str(text) => parse(control, text) == Some(raw)
    case _ => false
  }

  lemma RawExactly(s: Setting, value: Json, parse: Parser, raw: nat)
    ensures RawValue(s, value, parse) == Some(raw) <==> Means(s.control, value, raw, parse)
    ensures RawValue(s, value, parse) == None ==> !Means(s.control, value, raw, parse)
  {}

  /** Setting `i` is the first of its name. */
  predicate FirstSetting(settings: seq<Setting>, i: nat, key: string) {
    i < |settings| && settings[i].name == key && forall j :: 0 <= j < i ==> settings[j].name != key
  }

  lemma {:induction false} FirstNamedIs(settings: seq<Setting>, i: nat, key: string)
    requires FirstSetting(settings, i, key)
    ensures FirstNamed(settings, key) == Some(settings[i])
  {
    if i > 0 {
      FirstNamedIs(settings[1..], i - 1, key);
    }
  }

  /** Whether a name means something other than a setting. */
  predicate Reserved(driver: Driver, key: string) {
    || key == "supplied_meter_reading" || key == "withdraw_meter_reading" || key == "pair_lora_accessory"
    || exists f :: f in driver.writableConfig && f.action.Some? && f.name == key
  }

  lemma {:induction false} NoAction(fields: seq<ConfigField>, key: string)
    requires forall f :: f in fields && f.action.Some? ==> f.name != key
    ensures ActionNamed(fields, key) == None
  {
    if fields != [] {
      assert fields[0] in fields;
      NoAction(fields[1..], key);
    }
  }

  /** A field that names a setting, the first of its name, changes it exactly to what its value means for the control,
    * if the permissions let it and the register takes it, and is confirmed; otherwise it is refused, is of the wrong
    * shape, or is out of the register's domain. */
  lemma SettingExactly(key: string, value: Json, p: Permitted, driver: Driver, parse: Parser, i: nat, raw: nat)
    requires Wellformed(driver) && FirstSetting(driver.exposed[driver.slots], i, key) && !Reserved(driver, key)
    ensures var (s, r) := (driver.exposed[driver.slots][i], One(key, value, p, driver, parse));
            && (r == Success(Change(key, Some(s.register), Set(s.register, raw), Confirmed)) <==>
                  p.writes && (key == "power_plus" ==> p.powerPlus)
                  && Means(s.control, value, raw, parse) && raw in s.accepted)
            && (r == Failure(OutOfDomain(key, raw)) <==>
                  p.writes && (key == "power_plus" ==> p.powerPlus)
                  && Means(s.control, value, raw, parse) && raw !in s.accepted)
            && (r == Failure(Refused(key)) <==> !(p.writes && (key == "power_plus" ==> p.powerPlus)))
            && match r
               case Success(Change(_, _, Set(_, other), _)) => Means(s.control, value, other, parse)
               case Success(_) => false
               case Failure(OutOfDomain(_, other)) => Means(s.control, value, other, parse)
               case Failure(WrongShape(k)) => k == key && !Means(s.control, value, raw, parse)
               case Failure(Refused(k)) => k == key
               case _ => false
  {
    var s := driver.exposed[driver.slots][i];
    FirstNamedIs(driver.exposed[driver.slots], i, key);
    NoAction(driver.writableConfig, key);
    assert SettingNamed(driver, key) == Some(s);
    assert One(key, value, p, driver, parse) == SettingChange(s, key, value, p, parse);
    hide One, Reserved, FirstSetting;
    RawExactly(s, value, parse, raw);
    if RawValue(s, value, parse).Some? {
      RawExactly(s, value, parse, RawValue(s, value, parse).value);
    }
    assert POWER_PLUS == "power_plus";
    hide RawValue, Means;
  }

  /** The first writable field of a name that is an action. */
  predicate FirstAction(fields: seq<ConfigField>, i: nat, key: string) {
    && i < |fields| && fields[i].action.Some? && fields[i].name == key
    && forall j :: 0 <= j < i ==> fields[j].action == None || fields[j].name != key
  }

  lemma {:induction false} ActionNamedIs(fields: seq<ConfigField>, i: nat, key: string)
    requires FirstAction(fields, i, key)
    ensures ActionNamed(fields, key) == Some(fields[i])
  {
    if i > 0 {
      ActionNamedIs(fields[1..], i - 1, key);
    }
  }

  /** A field that names an action, the first of its name, writes the text that triggers it to its register, unless it
    * is destructive or not permitted; and is sent without waiting for an answer. */
  lemma ActionExactly(key: string, value: Json, p: Permitted, driver: Driver, parse: Parser, i: nat)
    requires Wellformed(driver) && FirstAction(driver.writableConfig, i, key)
    ensures var f := driver.writableConfig[i];
            One(key, value, p, driver, parse) ==
            if !f.destructive && p.writes && (key == "power_plus" ==> p.powerPlus)
            then Success(Change(key, Some(f.register), WriteConfig(f.register, f.action.value), FireAndForget))
            else Failure(Refused(key))
  {
    ActionNamedIs(driver.writableConfig, i, key);
    hide ActionNamed, FirstAction;
  }

  lemma SpecialKeys()
    ensures METER_READING == "supplied_meter_reading" && WITHDRAW_METER_READING == "withdraw_meter_reading"
    ensures PAIR_LORA_ACCESSORY == "pair_lora_accessory"
    ensures METER_READING != WITHDRAW_METER_READING && METER_READING != POWER_PLUS
    ensures WITHDRAW_METER_READING != POWER_PLUS && PAIR_LORA_ACCESSORY != POWER_PLUS
    ensures PAIR_LORA_ACCESSORY != METER_READING && PAIR_LORA_ACCESSORY != WITHDRAW_METER_READING
  {
    assert METER_READING[0] != WITHDRAW_METER_READING[0];
    assert |POWER_PLUS| == 10 && |METER_READING| == 22 && |WITHDRAW_METER_READING| == 22 && |PAIR_LORA_ACCESSORY| == 19;
  }

  /** A supplied meter reading is a signed number of 32 bits; withdrawing it is a reading of nought that is not valid;
    * and pairing takes no value. */
  lemma SpecialExactly(value: Json, p: Permitted, driver: Driver, parse: Parser)
    requires Wellformed(driver)
    requires forall f :: f in driver.writableConfig && f.action.Some? ==>
               f.name !in {"supplied_meter_reading", "withdraw_meter_reading", "pair_lora_accessory"}
    ensures One("supplied_meter_reading", value, p, driver, parse) ==
            if !p.writes then Failure(Refused("supplied_meter_reading"))
            else if value.Integer? && -2147483648 <= value.n <= 2147483647 then
              Success(Change("supplied_meter_reading", None, MeterReading(value.n, true), FireAndForget))
            else Failure(WrongShape("supplied_meter_reading"))
    ensures One("withdraw_meter_reading", value, p, driver, parse) ==
            if !p.writes then Failure(Refused("withdraw_meter_reading"))
            else Success(Change("withdraw_meter_reading", None, MeterReading(0, false), FireAndForget))
    ensures One("pair_lora_accessory", value, p, driver, parse) ==
            if !p.writes then Failure(Refused("pair_lora_accessory"))
            else Success(Change("pair_lora_accessory", None, PairLoraAccessory, FireAndForget))
  {
    NoAction(driver.writableConfig, "supplied_meter_reading");
    NoAction(driver.writableConfig, "withdraw_meter_reading");
    NoAction(driver.writableConfig, "pair_lora_accessory");
    SpecialKeys();
    hide ActionNamed, SettingNamed;
  }

  /** Any other name is unknown. */
  lemma UnknownExactly(key: string, value: Json, p: Permitted, driver: Driver, parse: Parser)
    requires Wellformed(driver) && !Reserved(driver, key)
    requires forall s :: s in driver.exposed[driver.slots] ==> s.name != key
    ensures One(key, value, p, driver, parse) == Failure(Unknown(key))
  {
    NoAction(driver.writableConfig, key);
    assert SettingNamed(driver, key) == None;
    hide ActionNamed, SettingNamed;
  }

  // ------------------------------------------------------------------ all or nothing

  /** The first field that cannot be honoured fails with this error. */
  ghost predicate StopsAt(fields: seq<(string, Json)>, p: Permitted, driver: Driver, parse: Parser, error: CommandError)
    requires Wellformed(driver)
  {
    exists i :: 0 <= i < |fields|
      && One(fields[i].0, fields[i].1, p, driver, parse) == Failure(error)
      && forall j :: 0 <= j < i ==> One(fields[j].0, fields[j].1, p, driver, parse).Success?
  }

  /** What is not an object is malformed, and an object with no fields is empty; any other payload yields one change
    * per field, in order, or the error of its first field that cannot be honoured, and nothing in between. */
  lemma AllOrNothing(payload: Option<seq<(string, Json)>>, p: Permitted, driver: Driver, parse: Parser)
    requires Wellformed(driver)
    ensures match FromPayload(payload, p, driver, parse)
            case Success(changes) =>
              && payload.Some? && payload.value != [] && |changes| == |payload.value|
              && forall i :: 0 <= i < |changes| ==>
                   One(payload.value[i].0, payload.value[i].1, p, driver, parse) == Success(changes[i])
            case Failure(error) =>
              || (payload == None && error == Malformed)
              || (payload == Some([]) && error == Empty)
              || (payload.Some? && StopsAt(payload.value, p, driver, parse, error))
    ensures payload == None || payload == Some([]) ==> FromPayload(payload, p, driver, parse).Failure?
  {
    hide One, Each;
    if payload.Some? {
      EachOrNone(payload.value, p, driver, parse);
    }
  }

  lemma {:induction false} EachOrNone(fields: seq<(string, Json)>, p: Permitted, driver: Driver, parse: Parser)
    requires Wellformed(driver)
    ensures match Each(fields, p, driver, parse)
            case Success(changes) =>
              && |changes| == |fields|
              && forall i :: 0 <= i < |fields| ==>
                   One(fields[i].0, fields[i].1, p, driver, parse) == Success(changes[i])
            case Failure(error) =>
              StopsAt(fields, p, driver, parse, error)
  {
    hide One;
    if fields != [] {
      EachOrNone(fields[1..], p, driver, parse);
      var first, rest := One(fields[0].0, fields[0].1, p, driver, parse), Each(fields[1..], p, driver, parse);
      if first.Success? && rest.Failure? {
        var i :| 0 <= i < |fields[1..]|
          && One(fields[1..][i].0, fields[1..][i].1, p, driver, parse) == Failure(rest.error)
          && forall j :: 0 <= j < i ==> One(fields[1..][j].0, fields[1..][j].1, p, driver, parse).Success?;
        assert fields[i + 1] == fields[1..][i];
        forall j | 0 <= j < i + 1
          ensures One(fields[j].0, fields[j].1, p, driver, parse).Success?
        {
          if j > 0 {
            assert fields[j] == fields[1..][j - 1];
          }
        }
      }
    }
  }
}
