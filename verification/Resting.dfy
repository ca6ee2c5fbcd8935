/** The resting-voltage tracker, and the history it stands for (src/homeassistant/rest.rs:36-157). */
module Resting {
  import opened Prelude
  import opened Frames

  /** Five minutes, in milliseconds. */
  const SETTLE: nat := 300_000
  /** The most power, charging or discharging, that still counts as idle. */
  const IDLE_WATTS: real := 5.0
  /** Resting cell voltages, in millivolts. */
  const LOW_KNEE: nat := 3200
  const HIGH_PLATEAU: nat := 3250
  /** States of charge, in percent. */
  const CLAIMS_EMPTY: real := 10.0
  const CLAIMS_FULL: real := 50.0

  datatype Sample = Sample(millivolts: nat, credible: Option<bool>)

  /** A claim of empty stands or falls with the low knee; another falls at the knee if it claims half, and stands on the
  * plateau; between the two there is no verdict. */
  function Credible(millivolts: nat, soc: real): Option<bool> {
    if soc <= CLAIMS_EMPTY then Some(millivolts <= LOW_KNEE)
    else if soc >= CLAIMS_FULL && millivolts <= LOW_KNEE then Some(false)
    else if millivolts >= HIGH_PLATEAU then Some(true)
    else None
  }

  function Rank(verdict: Option<bool>): int {
    match verdict case Some(false) => 0 case None => 1 case Some(true) => 2
  }

  /** A higher voltage never speaks for a claim of empty, and never against any other claim. */
  lemma HigherVoltageNeverContradicts(low: nat, high: nat, soc: real)
    requires low <= high
    ensures if soc <= CLAIMS_EMPTY then Rank(Credible(high, soc)) <= Rank(Credible(low, soc))
            else Rank(Credible(low, soc)) <= Rank(Credible(high, soc))
  {}

  // ------------------------------------------------------------------ the online tracker

  datatype Watch = Watch(since: Option<nat>, sample: Option<Sample>)

  /** One telemetry frame, and when it was observed. */
  datatype Call = Call(now: nat, readings: View)

  /** A frame that says the battery is doing nothing; one that does not say counts as doing something. */
  predicate Idle(c: Call) {
    match Named(c.readings, "battery_charge_power")
    case Some(FrameReading(_, _, _, _, Some(watts))) => -IDLE_WATTS <= watts <= IDLE_WATTS
    case _ => false
  }

  function Taken(c: Call): Option<Sample> {
    match (Raw(c.readings, "battery_cell_voltage_min"), Raw(c.readings, "battery_soc_total"))
    case (Some(low), Some(soc)) => Some(Sample(low, Credible(low, soc as real)))
    case _ => None
  }

  function Since(from: nat, now: nat): nat { if now < from then 0 else now - from }

  function Observed(w: Watch, c: Call): Watch {
    if !Idle(c) then w.(since := None)
    else
      var from := if w.since.Some? then w.since.value else c.now;
      Watch(Some(from), if Taken(c).Some? && Since(from, c.now) >= SETTLE then Taken(c) else w.sample)
  }

  function ObservedAll(calls: seq<Call>): Watch {
    if calls == [] then Watch(None, None) else Observed(ObservedAll(calls[..|calls| - 1]), calls[|calls| - 1])
  }

  class RestWatch {
    var since: Option<nat>
    var sample: Option<Sample>

    constructor ()
      ensures Value() == ObservedAll([])
    {
      since := None;
      sample := None;
    }

    ghost function Value(): Watch
      reads this
    {
      Watch(since, sample)
    }

    /** Observe one telemetry frame. */
    method Observe(c: Call) returns (current: Option<Sample>)
      modifies this
      ensures Value() == Observed(old(Value()), c)
      ensures current == sample
    {
      var power := Named(c.readings, "battery_charge_power");
      if power.Some? && power.value.number.Some?
         && -IDLE_WATTS <= power.value.number.value <= IDLE_WATTS {
        if since == None {
          since := Some(c.now);
        }
        var low, soc := Raw(c.readings, "battery_cell_voltage_min"), Raw(c.readings, "battery_soc_total");
        if low.Some? && soc.Some? && Since(since.value, c.now) >= SETTLE {
          sample := Some(Sample(low.value, Credible(low.value, soc.value as real)));
        }
      } else {
        since := None;
      }
      current := sample;
    }
  }

  // ------------------------------------------------------------------ the history it stands for

  /** Time does not go back. */
  predicate InOrder(calls: seq<Call>) {
    forall i, j :: 0 <= i < j < |calls| ==> calls[i].now <= calls[j].now
  }

  /** Between two calls, inclusive, the battery was never seen doing anything. */
  predicate Unbroken(calls: seq<Call>, j: nat, i: nat) {
    j <= i < |calls| && forall k :: j <= k <= i ==> Idle(calls[k])
  }

  /** A call that carried both readings and ended an unbroken idle run of at least five minutes. */
  predicate Settled(calls: seq<Call>, i: nat) {
    && i < |calls|
    && Taken(calls[i]).Some?
    && exists j: nat :: j <= i && Unbroken(calls, j, i) && calls[i].now - calls[j].now >= SETTLE
  }

  /** The unbroken idle run that reaches to the present began with this call. */
  predicate Began(calls: seq<Call>, j: nat, at: nat) {
    j < |calls| && Unbroken(calls, j, |calls| - 1) && calls[j].now == at && (j > 0 ==> !Idle(calls[j - 1]))
  }

  /** The clock runs from the first call of the unbroken idle run that reaches to the present. */
  ghost predicate ClockRight(calls: seq<Call>, since: Option<nat>) {
    match since
    case None => calls != [] ==> !Idle(calls[|calls| - 1])
    case Some(at) => exists j: nat :: Began(calls, j, at)
  }

  /** The sample is that of the latest settled call, and is absent exactly when there is none. */
  ghost predicate SampleRight(calls: seq<Call>, sample: Option<Sample>) {
    match sample
    case None => forall i: nat :: i < |calls| ==> !Settled(calls, i)
    case Some(_) =>
      exists i: nat :: i < |calls| && Settled(calls, i) && Taken(calls[i]) == sample
                       && forall k: nat :: i < k < |calls| ==> !Settled(calls, k)
  }

  /** Later calls do not change whether an earlier one was settled. */
  lemma SettledBefore(calls: seq<Call>, i: nat)
    requires calls != [] && i < |calls| - 1
    ensures Settled(calls, i) <==> Settled(calls[..|calls| - 1], i)
  {
    var before := calls[..|calls| - 1];
    forall j: nat | j <= i
      ensures Unbroken(calls, j, i) <==> Unbroken(before, j, i)
    {
      assert forall k :: j <= k <= i ==> calls[k] == before[k];
    }
  }

  lemma ClockStep(calls: seq<Call>, since: Option<nat>)
    requires calls != [] && ClockRight(calls[..|calls| - 1], since)
    ensures ClockRight(calls, Observed(Watch(since, None), calls[|calls| - 1]).since)
  {
    hide Idle, Taken;
    var n := |calls| - 1;
    var before := calls[..n];
    if Idle(calls[n]) {
      if since == None {
        assert Began(calls, n, calls[n].now);
      } else {
        var j: nat :| Began(before, j, since.value);
        StillUnbroken(calls, j);
        assert Began(calls, j, since.value);
      }
    }
  }

  lemma StillUnbroken(calls: seq<Call>, j: nat)
    requires |calls| > 1 && j < |calls| - 1 && Idle(calls[|calls| - 1])
    requires Unbroken(calls[..|calls| - 1], j, |calls| - 2)
    ensures Unbroken(calls, j, |calls| - 1) && calls[j] == calls[..|calls| - 1][j]
  {
    hide Idle;
    assert forall k :: j <= k < |calls| - 1 ==> calls[k] == calls[..|calls| - 1][k];
  }

  /** Where the clock is right, a call is settled exactly when the clock says five minutes. */
  lemma SettledByClock(calls: seq<Call>, at: nat)
    requires calls != [] && InOrder(calls) && ClockRight(calls, Some(at))
    ensures Settled(calls, |calls| - 1) <==>
            Taken(calls[|calls| - 1]).Some? && Since(at, calls[|calls| - 1].now) >= SETTLE
  {
    var n := |calls| - 1;
    hide Idle, Taken;
    var j: nat :| Began(calls, j, at);
    if i: nat :| i <= n && Unbroken(calls, i, n) && calls[n].now - calls[i].now >= SETTLE {
      assert j <= i;
    }
  }

  lemma NotIdleNotSettled(calls: seq<Call>)
    requires calls != [] && !Idle(calls[|calls| - 1])
    ensures !Settled(calls, |calls| - 1)
  {}

  lemma SampleStep(calls: seq<Call>, sample: Option<Sample>)
    requires calls != [] && SampleRight(calls[..|calls| - 1], sample)
    ensures SampleRight(calls, if Settled(calls, |calls| - 1) then Taken(calls[|calls| - 1]) else sample)
  {
    hide Settled, Taken;
    var n := |calls| - 1;
    var before := calls[..n];
    forall i: nat | i < n
      ensures Settled(calls, i) <==> Settled(before, i)
    {
      SettledBefore(calls, i);
    }
    if Settled(calls, n) {
      SettledTakes(calls);
    } else if sample.Some? {
      var i: nat :| i < n && Settled(before, i) && Taken(before[i]) == sample
                    && forall k: nat :: i < k < n ==> !Settled(before, k);
      assert Settled(calls, i) && Taken(calls[i]) == sample;
      assert forall k: nat :: i < k < n ==> !Settled(calls, k);
    }
  }

  lemma SettledTakes(calls: seq<Call>)
    requires calls != [] && Settled(calls, |calls| - 1)
    ensures Taken(calls[|calls| - 1]).Some?
  {}

  /** The tracker, which keeps two values, always gives what the whole history would. */
  lemma {:induction false} SampleIsHistory(calls: seq<Call>)
    requires InOrder(calls)
    ensures ClockRight(calls, ObservedAll(calls).since) && SampleRight(calls, ObservedAll(calls).sample)
  {
    if calls != [] {
      var n := |calls| - 1;
      var before, c := ObservedAll(calls[..n]), calls[n];
      SampleIsHistory(calls[..n]);
      var after := Observed(before, c);
      assert after.since == Observed(Watch(before.since, None), c).since;
      assert after.since.Some? <==> Idle(c);
      hide ClockRight, SampleRight, Settled, Idle, Taken;
      ClockStep(calls, before.since);
      SampleStep(calls, before.sample);
      if after.since.Some? {
        SettledByClock(calls, after.since.value);
      } else {
        NotIdleNotSettled(calls);
      }
    }
  }

  // ------------------------------------------------------------------ in watts, millivolts, percent and minutes

  /** Reading `i` is the first of its name. */
  predicate FirstReading(view: View, i: nat, name: string) {
    i < |view| && view[i].name == name && forall j :: 0 <= j < i ==> view[j].name != name
  }

  /** A frame is idle exactly if its first battery power reading is a number of at most five watts either way. */
  lemma IdleExactly(c: Call, i: nat)
    ensures (forall r :: r in c.readings ==> r.name != "battery_charge_power") ==> !Idle(c)
    ensures FirstReading(c.readings, i, "battery_charge_power") ==>
              (Idle(c) <==> c.readings[i].number.Some? && -5.0 <= c.readings[i].number.value <= 5.0)
  {
    if forall r :: r in c.readings ==> r.name != "battery_charge_power" {
      NotNamed(c.readings, "battery_charge_power");
    }
    if FirstReading(c.readings, i, "battery_charge_power") {
      NamedIsFirst(c.readings, "battery_charge_power", i);
    }
  }

  /** A sample is the lowest cell's raw voltage and the verdict on the raw state of charge, and takes both. */
  lemma TakenExactly(c: Call, i: nat, j: nat)
    ensures (forall r :: r in c.readings ==> r.name != "battery_cell_voltage_min") ==> Taken(c) == None
    ensures (forall r :: r in c.readings ==> r.name != "battery_soc_total") ==> Taken(c) == None
    ensures FirstReading(c.readings, i, "battery_cell_voltage_min") &&
            FirstReading(c.readings, j, "battery_soc_total") ==>
              var (low, soc, taken) := (c.readings[i].raw, c.readings[j].raw, Taken(c));
              && taken.Some? && taken.value.millivolts == low
              && taken.value.credible == Credible(low, soc as real)
  {
    if forall r :: r in c.readings ==> r.name != "battery_cell_voltage_min" {
      NotNamed(c.readings, "battery_cell_voltage_min");
    }
    if forall r :: r in c.readings ==> r.name != "battery_soc_total" {
      NotNamed(c.readings, "battery_soc_total");
    }
    if FirstReading(c.readings, i, "battery_cell_voltage_min") {
      NamedIsFirst(c.readings, "battery_cell_voltage_min", i);
    }
    if FirstReading(c.readings, j, "battery_soc_total") {
      NamedIsFirst(c.readings, "battery_soc_total", j);
    }
  }

  /** When a charge is incredible: one that claims ten percent or less above 3200 mV, or fifty or more at or below it.
    * When it is credible: ten or less at or below that, or more than ten from 3250 mV on. Otherwise there is no
    * verdict. */
  lemma CredibleExactly(millivolts: nat, soc: real)
    ensures Credible(millivolts, soc) == Some(false) <==>
            (soc <= 10.0 && millivolts > 3200) || (soc >= 50.0 && millivolts <= 3200)
    ensures Credible(millivolts, soc) == Some(true) <==>
            (soc <= 10.0 && millivolts <= 3200) || (soc > 10.0 && millivolts >= 3250)
  {}

  /** A call is settled exactly if it has both readings and ends an unbroken idle run of three hundred thousand
    * milliseconds or more. */
  lemma SettledExactly(calls: seq<Call>, i: nat)
    ensures Settled(calls, i) <==>
            && i < |calls| && Taken(calls[i]).Some?
            && exists j: nat :: j <= i && calls[i].now - calls[j].now >= 300000 && Unbroken(calls, j, i)
  {
    if Settled(calls, i) {
      var j: nat :| j <= i && Unbroken(calls, j, i) && calls[i].now - calls[j].now >= SETTLE;
    }
  }
}
