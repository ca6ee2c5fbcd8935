/** Which session serves which device (src/control.rs:840-1040): sessions register under a serial, displace
  * each other, and stale registrations drop later, in any interleaving of the calls' atomic sections. */
module Registry {
  import opened Prelude

  type Serial = string
  type SessionId = nat

  /** The counter refuses to go past this, so it is never issued. */
  const LAST_SESSION: nat := 0xFFFF_FFFF_FFFF_FFFF

  type Devices = map<Serial, SessionId>

  /** One atomic section of a call, named by the place its first section has in the run. `Register` and `Drop`
    * each start a call; a register call then signals the session it displaced, if any, and every call ends
    * by taking a snapshot and sending it. */
  datatype Step =
    | Register(device: Serial)
    | Drop(registration: nat)
    | Signal(call: nat)
    | Snapshot(call: nat)
    | Send(call: nat)

  /** What a call still has to do. */
  datatype Phase = Signalling(displaced: SessionId) | Snapshotting | Sending(snapshot: Devices)

  datatype Registration = Registration(device: Serial, session: Option<SessionId>)

  datatype State = State(
    devices: Devices,
    nextSession: nat,
    registrations: map<nat, Registration>,
    dropped: set<nat>,
    calls: map<nat, Phase>,
    signals: multiset<SessionId>,
    watched: Devices)

  const Empty: State := State(map[], 0, map[], {}, map[], multiset{}, map[])

  /** Step `n` of a run. */
  function Advance(s: State, n: nat, step: Step): State {
    match step
    case Register(d) =>
      if s.nextSession < LAST_SESSION then
        s.(devices := s.devices[d := s.nextSession],
           nextSession := s.nextSession + 1,
           registrations := s.registrations[n := Registration(d, Some(s.nextSession))],
           calls := s.calls[n := if d in s.devices then Signalling(s.devices[d]) else Snapshotting])
      else
        s.(registrations := s.registrations[n := Registration(d, None)], calls := s.calls[n := Snapshotting])
    case Drop(r) =>
      if r !in s.registrations then s
      else
        var own := s.registrations[r];
        s.(devices := if Current(s, own) then s.devices - {own.device} else s.devices,
           dropped := s.dropped + {r},
           calls := s.calls[n := Snapshotting])
    case Signal(c) =>
      if c in s.calls && s.calls[c].Signalling? then
        s.(signals := s.signals + multiset{s.calls[c].displaced}, calls := s.calls[c := Snapshotting])
      else s
    case Snapshot(c) =>
      if c in s.calls && s.calls[c].Snapshotting? then s.(calls := s.calls[c := Sending(s.devices)]) else s
    case Send(c) =>
      if c in s.calls && s.calls[c].Sending? then
        s.(watched := s.calls[c].snapshot, calls := s.calls - {c})
      else s
  }

  /** Whether a registration still owns its device's entry. */
  predicate Current(s: State, own: Registration) {
    own.session.Some? && own.device in s.devices && s.devices[own.device] == own.session.value
  }

  /** A registration can be dropped once, and only after the call that made it has returned. */
  predicate Enabled(s: State, step: Step) {
    match step
    case Register(_) => true
    case Drop(r) => r in s.registrations && r !in s.dropped && r !in s.calls
    case Signal(c) => c in s.calls && s.calls[c].Signalling?
    case Snapshot(c) => c in s.calls && s.calls[c].Snapshotting?
    case Send(c) => c in s.calls && s.calls[c].Sending?
  }

  function Run(trace: seq<Step>, n: nat): State
    requires n <= |trace|
  {
    if n == 0 then Empty else Advance(Run(trace, n - 1), n - 1, trace[n - 1])
  }

  /** Any interleaving the program can take. */
  ghost predicate Legal(trace: seq<Step>) {
    forall n :: 0 <= n < |trace| ==> Enabled(Run(trace, n), trace[n])
  }

  lemma LegalStep(trace: seq<Step>, n: nat)
    requires Legal(trace) && n < |trace|
    ensures Enabled(Run(trace, n), trace[n])
  {}

  // ------------------------------------------------------------------ the history, without the state

  /** How many registrations a history holds: each but the refused ones takes the next number. */
  function Registrations(trace: seq<Step>, n: nat): nat
    requires n <= |trace|
  {
    if n == 0 then 0 else Registrations(trace, n - 1) + if trace[n - 1].Register? then 1 else 0
  }

  /** The session a registration got, or none once the numbers are used up. */
  function SessionOf(trace: seq<Step>, r: nat): Option<SessionId>
    requires r < |trace|
  {
    if Registrations(trace, r) < LAST_SESSION then Some(Registrations(trace, r)) else None
  }

  /** The device's most recent successful registration. */
  function Latest(trace: seq<Step>, n: nat, d: Serial): (r: Option<nat>)
    requires n <= |trace|
    ensures r.Some? ==> r.value < n
  {
    if n == 0 then None
    else if trace[n - 1] == Register(d) && SessionOf(trace, n - 1).Some? then Some(n - 1)
    else Latest(trace, n - 1, d)
  }

  ghost predicate WasDropped(trace: seq<Step>, n: nat, r: nat)
    requires n <= |trace|
  {
    exists i :: 0 <= i < n && trace[i] == Drop(r)
  }

  /** What the history says is registered: the most recent successful registration, unless it was dropped. */
  ghost function Serving(trace: seq<Step>, n: nat, d: Serial): Option<SessionId>
    requires n <= |trace|
  {
    var r := Latest(trace, n, d);
    if r.Some? && !WasDropped(trace, n, r.value) then SessionOf(trace, r.value) else None
  }

  /** Registration `c` found session `k` serving its device. */
  ghost predicate Displaces(trace: seq<Step>, c: nat, k: SessionId)
    requires c < |trace|
  {
    trace[c].Register? && SessionOf(trace, c).Some? && Serving(trace, c, trace[c].device) == Some(k)
  }

  // ------------------------------------------------------------------ the state records the history

  /** The registrations made so far, and the sessions they got. */
  ghost predicate Recorded(trace: seq<Step>, n: nat, registrations: map<nat, Registration>)
    requires n <= |trace|
  {
    && (forall r: nat :: r in registrations <==> r < n && trace[r].Register?)
    && (forall r: nat :: r < n && trace[r].Register? ==>
          registrations[r] == Registration(trace[r].device, SessionOf(trace, r)))
  }

  /** The bookkeeping half: counters, registrations and calls are what the history says. */
  ghost predicate Booked(trace: seq<Step>, n: nat, s: State)
    requires n <= |trace|
  {
    && s.nextSession == (if Registrations(trace, n) < LAST_SESSION then Registrations(trace, n) else LAST_SESSION)
    && Recorded(trace, n, s.registrations)
    && forall c: nat :: c in s.calls ==> c < n
  }

  lemma RecordedStep(trace: seq<Step>, n: nat, before: map<nat, Registration>, after: map<nat, Registration>)
    requires n < |trace| && Recorded(trace, n, before)
    requires after == if trace[n].Register?
      then before[n := Registration(trace[n].device, SessionOf(trace, n))] else before
    ensures Recorded(trace, n + 1, after)
  {
    hide SessionOf;
  }

  lemma BookedStep(trace: seq<Step>, n: nat, s: State)
    requires n < |trace| && Booked(trace, n, s)
    ensures Booked(trace, n + 1, Advance(s, n, trace[n]))
  {
    hide Recorded;
    RecordedStep(trace, n, s.registrations, Advance(s, n, trace[n]).registrations);
  }

  lemma {:induction false} RunBooked(trace: seq<Step>, n: nat)
    requires n <= |trace|
    ensures Booked(trace, n, Run(trace, n))
  {
    hide Advance;
    if n > 0 {
      RunBooked(trace, n - 1);
      BookedStep(trace, n - 1, Run(trace, n - 1));
    }
  }

  lemma {:induction false} RegistrationsGrow(trace: seq<Step>, m: nat, n: nat)
    requires m <= n <= |trace|
    ensures Registrations(trace, m) <= Registrations(trace, n)
    ensures m < n && trace[m].Register? ==> Registrations(trace, m) < Registrations(trace, n)
  {
    if m < n {
      RegistrationsGrow(trace, m, n - 1);
    }
  }

  /** No two registrations ever share an id, and every id issued is below the counter. */
  lemma IdsNeverReused(trace: seq<Step>, q: nat, r: nat)
    requires q < r < |trace| && trace[q].Register? && trace[r].Register?
    requires SessionOf(trace, q).Some? && SessionOf(trace, r).Some?
    ensures SessionOf(trace, q).value < SessionOf(trace, r).value < Run(trace, |trace|).nextSession
  {
    RegistrationsGrow(trace, q, r);
    RegistrationsGrow(trace, r, |trace|);
    hide Run;
    RunBooked(trace, |trace|);
  }

  /** Registrations are numbered from nought, and there are 2^64 - 1 numbers; after that a registration gets none. */
  lemma IssuedExactly(trace: seq<Step>, r: nat)
    requires r < |trace|
    ensures SessionOf(trace, r) ==
            if Registrations(trace, r) < 18446744073709551615 then Some(Registrations(trace, r)) else None
  {}

  lemma {:induction false} LatestIsRegistration(trace: seq<Step>, n: nat, d: Serial)
    requires n <= |trace|
    ensures var r := Latest(trace, n, d); r.Some? ==> trace[r.value] == Register(d) && SessionOf(trace, r.value).Some?
  {
    if n > 0 {
      LatestIsRegistration(trace, n - 1, d);
    }
  }

  lemma WasDroppedStep(trace: seq<Step>, n: nat, r: nat)
    requires n < |trace|
    ensures WasDropped(trace, n + 1, r) <==> WasDropped(trace, n, r) || trace[n] == Drop(r)
  {
    assert trace[n] == Drop(r) ==> 0 <= n < n + 1 && trace[n] == Drop(r);
  }

  lemma {:induction false} DropsComeLater(trace: seq<Step>, n: nat, r: nat)
    requires Legal(trace) && n <= |trace| && n <= r
    ensures !WasDropped(trace, n, r)
  {
    if i :| 0 <= i < n && trace[i] == Drop(r) {
      assert Enabled(Run(trace, i), trace[i]);
      hide Run;
      RunBooked(trace, i);
    }
  }

  /** How one step changes what the history says is serving a device. */
  lemma ServingStep(trace: seq<Step>, n: nat, d: Serial)
    requires Legal(trace) && n < |trace|
    ensures Serving(trace, n + 1, d) ==
            if trace[n] == Register(d) && SessionOf(trace, n).Some? then SessionOf(trace, n)
            else if Latest(trace, n, d).Some? && trace[n] == Drop(Latest(trace, n, d).value) then None
            else Serving(trace, n, d)
  {
    hide WasDropped, Legal;
    DropsComeLater(trace, n, n);
    WasDroppedStep(trace, n, n);
    var r := Latest(trace, n, d);
    if r.Some? {
      WasDroppedStep(trace, n, r.value);
    }
  }

  /** The registration that serves a device has an id no other registration of it has. */
  lemma OwnerIsLatest(trace: seq<Step>, n: nat, r: nat)
    requires n <= |trace| && r < n && trace[r].Register?
    requires Serving(trace, n, trace[r].device).Some? && Serving(trace, n, trace[r].device) == SessionOf(trace, r)
    ensures Latest(trace, n, trace[r].device) == Some(r)
  {
    var d := trace[r].device;
    var l := Latest(trace, n, d).value;
    LatestIsRegistration(trace, n, d);
    if l < r {
      RegistrationsGrow(trace, l, r);
    } else if r < l {
      RegistrationsGrow(trace, r, l);
    }
  }

  /** Under every interleaving of registers and drops, a device has an entry exactly when its most recent
    * successful registration has not been dropped, and the entry is that registration's. */
  lemma {:induction false} RegistryIsHistory(trace: seq<Step>, n: nat, d: Serial)
    requires Legal(trace) && n <= |trace|
    ensures Lookup(Run(trace, n).devices, d) == Serving(trace, n, d)
  {
    hide Legal;
    if n > 0 {
      LegalStep(trace, n - 1);
      hide Serving, Run, Booked, Lookup;
      RegistryIsHistory(trace, n - 1, d);
      ServingStep(trace, n - 1, d);
      RunBooked(trace, n - 1);
      EntryStep(trace, n - 1, d);
    }
  }

  /** One step of the same: the section that runs changes the entry as the history changes. */
  lemma EntryStep(trace: seq<Step>, n: nat, d: Serial)
    requires n < |trace| && Booked(trace, n, Run(trace, n)) && Enabled(Run(trace, n), trace[n])
    requires Lookup(Run(trace, n).devices, d) == Serving(trace, n, d)
    ensures Lookup(Run(trace, n + 1).devices, d) ==
            if trace[n] == Register(d) && SessionOf(trace, n).Some? then SessionOf(trace, n)
            else if Latest(trace, n, d).Some? && trace[n] == Drop(Latest(trace, n, d).value) then None
            else Serving(trace, n, d)
  {
    var s := Run(trace, n);
    assert Run(trace, n + 1) == Advance(s, n, trace[n]);
    if trace[n].Drop? {
      var r := trace[n].registration;
      LatestIsRegistration(trace, n, d);
      if Current(s, s.registrations[r]) && trace[r].device == d {
        OwnerIsLatest(trace, n, r);
      }
    }
  }

  // ------------------------------------------------------------------ displaced sessions are told to stop

  lemma {:induction false} LatestAtLeast(trace: seq<Step>, c: nat, n: nat)
    requires c < n <= |trace| && trace[c].Register? && SessionOf(trace, c).Some?
    ensures Latest(trace, n, trace[c].device).Some? && Latest(trace, n, trace[c].device).value >= c
  {
    if c < n - 1 {
      LatestAtLeast(trace, c, n - 1);
    }
  }

  /** Two registrations with the same id are one registration. */
  lemma IdsDistinguish(trace: seq<Step>, q: nat, r: nat)
    requires q < |trace| && r < |trace| && trace[q].Register? && trace[r].Register?
    requires SessionOf(trace, q).Some? && SessionOf(trace, q) == SessionOf(trace, r)
    ensures q == r
  {
    if q < r {
      RegistrationsGrow(trace, q, r);
    } else if r < q {
      RegistrationsGrow(trace, r, q);
    }
  }

  /** A displaced session never serves again. */
  lemma DisplacedIsPast(trace: seq<Step>, c: nat, k: SessionId, n: nat, d: Serial)
    requires c < n <= |trace| && Displaces(trace, c, k)
    ensures Serving(trace, n, d) != Some(k)
  {
    if Serving(trace, n, d) == Some(k) {
      var d', r, r' := trace[c].device, Latest(trace, n, d).value, Latest(trace, c, trace[c].device).value;
      LatestIsRegistration(trace, n, d);
      LatestIsRegistration(trace, c, d');
      hide SessionOf;
      IdsDistinguish(trace, r, r');
      LatestAtLeast(trace, c, n);
    }
  }

  lemma DisplacedOnce(trace: seq<Step>, b: nat, c: nat, k: SessionId)
    requires b < |trace| && c < |trace| && Displaces(trace, b, k) && Displaces(trace, c, k)
    ensures b == c
  {
    if b < c {
      DisplacedIsPast(trace, b, k, c, trace[c].device);
    } else if c < b {
      DisplacedIsPast(trace, c, k, b, trace[b].device);
    }
  }

  lemma DisplacesOne(trace: seq<Step>, c: nat, k: SessionId)
    requires c < |trace| && Displaces(trace, c, k)
    ensures forall j :: Displaces(trace, c, j) ==> j == k
  {
    hide Serving;
  }

  /** The register calls that have displaced a session and not told it yet. */
  function Untold(s: State): map<nat, SessionId> {
    map c | c in s.calls && s.calls[c].Signalling? :: s.calls[c].displaced
  }

  /** Calls about to signal have displaced someone, and everyone displaced is signalled once or about to be. */
  ghost predicate Notified(trace: seq<Step>, n: nat, untold: map<nat, SessionId>, signals: multiset<SessionId>)
    requires n <= |trace|
  {
    && (forall c :: c in untold ==> c < n && Displaces(trace, c, untold[c]) && signals[untold[c]] == 0)
    && (forall k :: signals[k] <= 1)
    && (forall k :: signals[k] == 1 ==> exists c: nat :: c < n && Displaces(trace, c, k) && c !in untold)
    && (forall c: nat, k :: c < n && Displaces(trace, c, k) ==> c in untold || signals[k] == 1)
  }

  lemma QuietStep(trace: seq<Step>, n: nat, untold: map<nat, SessionId>, signals: multiset<SessionId>)
    requires n < |trace| && Notified(trace, n, untold, signals)
    requires forall k :: !Displaces(trace, n, k)
    ensures Notified(trace, n + 1, untold, signals)
  {
    hide Displaces;
    forall k | signals[k] == 1
      ensures exists c: nat :: c < n + 1 && Displaces(trace, c, k) && c !in untold
    {
      var c: nat :| c < n && Displaces(trace, c, k) && c !in untold;
    }
  }

  lemma ToldStep(trace: seq<Step>, n: nat, untold: map<nat, SessionId>, signals: multiset<SessionId>, c: nat)
    requires n <= |trace| && Notified(trace, n, untold, signals) && c in untold
    ensures Notified(trace, n, untold - {c}, signals + multiset{untold[c]})
  {
    hide Displaces;
    var k := untold[c];
    DisplacesOne(trace, c, k);
    var after := signals + multiset{k};
    assert after == signals[k := 1];
    forall b | b in untold && b != c
      ensures untold[b] != k
    {
      if untold[b] == k {
        DisplacedOnce(trace, b, c, k);
      }
    }
    forall j | after[j] == 1
      ensures exists b: nat :: b < n && Displaces(trace, b, j) && b !in untold - {c}
    {
      if j == k {
        assert Displaces(trace, c, k);
      } else {
        var b: nat :| b < n && Displaces(trace, b, j) && b !in untold;
      }
    }
  }

  lemma DisplacingStep(trace: seq<Step>, n: nat, untold: map<nat, SessionId>, signals: multiset<SessionId>,
    k: SessionId)
    requires n < |trace| && Notified(trace, n, untold, signals) && Displaces(trace, n, k) && n !in untold
    ensures Notified(trace, n + 1, untold[n := k], signals)
  {
    hide Displaces;
    DisplacesOne(trace, n, k);
    if signals[k] == 1 {
      var c: nat :| c < n && Displaces(trace, c, k) && c !in untold;
      DisplacedOnce(trace, c, n, k);
    }
    forall j | signals[j] == 1
      ensures exists c: nat :: c < n + 1 && Displaces(trace, c, j) && c !in untold[n := k]
    {
      var c: nat :| c < n && Displaces(trace, c, j) && c !in untold;
    }
  }

  /** What a step does to the calls that have someone to tell. */
  lemma UntoldStep(s: State, n: nat, step: Step)
    requires Enabled(s, step) && n !in s.calls
    ensures var s' := Advance(s, n, step);
            match step
            case Signal(c) =>
              && c in Untold(s) && Untold(s') == Untold(s) - {c}
              && s'.signals == s.signals + multiset{Untold(s)[c]}
            case Register(d) =>
              && s'.signals == s.signals
              && Untold(s') == (if s.nextSession < LAST_SESSION && d in s.devices
                                then Untold(s)[n := s.devices[d]] else Untold(s))
            case _ => Untold(s') == Untold(s) && s'.signals == s.signals
  {}

  /** Whom a registration displaces is who was registered. */
  lemma DisplacesExactly(trace: seq<Step>, n: nat, k: SessionId)
    requires Legal(trace) && n < |trace|
    ensures var s := Run(trace, n);
            Displaces(trace, n, k) <==>
            trace[n].Register? && s.nextSession < LAST_SESSION && Lookup(s.devices, trace[n].device) == Some(k)
  {
    hide Legal, Run, Serving;
    if trace[n].Register? {
      RegistryIsHistory(trace, n, trace[n].device);
      RunBooked(trace, n);
    }
  }

  lemma {:induction false} RunNotified(trace: seq<Step>, n: nat)
    requires Legal(trace) && n <= |trace|
    ensures Notified(trace, n, Untold(Run(trace, n)), Run(trace, n).signals)
  {
    hide Legal, Displaces, Advance, Enabled, Untold;
    if n == 0 {
      NobodyUntold();
    } else {
      RunNotified(trace, n - 1);
      NotifiedStep(trace, n - 1);
    }
  }

  lemma NobodyUntold()
    ensures Untold(Empty) == map[]
  {}

  lemma NotifiedStep(trace: seq<Step>, n: nat)
    requires Legal(trace) && n < |trace| && Notified(trace, n, Untold(Run(trace, n)), Run(trace, n).signals)
    ensures Notified(trace, n + 1, Untold(Run(trace, n + 1)), Run(trace, n + 1).signals)
  {
    var s, step := Run(trace, n), trace[n];
    assert Run(trace, n + 1) == Advance(s, n, step);
    LegalStep(trace, n);
    RunBooked(trace, n);
    hide Legal, Run, Displaces, Advance, Enabled, Untold, Recorded, Notified;
    UntoldStep(s, n, step);
    if step.Register? && s.nextSession < LAST_SESSION && step.device in s.devices {
      DisplacesExactly(trace, n, s.devices[step.device]);
      assert n !in Untold(s) by { UntoldAreCalls(s, n); }
      DisplacingStep(trace, n, Untold(s), s.signals, s.devices[step.device]);
    } else {
      forall k
        ensures !Displaces(trace, n, k)
      {
        DisplacesExactly(trace, n, k);
      }
      QuietStep(trace, n, Untold(s), s.signals);
      if step.Signal? {
        ToldStep(trace, n + 1, Untold(s), s.signals, step.call);
      }
    }
  }

  lemma UntoldAreCalls(s: State, c: nat)
    requires c !in s.calls
    ensures c !in Untold(s)
  {}

  /** Each displaced session is told to stop exactly once, as soon as the call that displaced it has got that
    * far, and nobody else ever is; in particular a session serving a device is not. */
  lemma StoppedExactlyOnce(trace: seq<Step>, n: nat, k: SessionId)
    requires Legal(trace) && n <= |trace|
    ensures var s := Run(trace, n);
            && s.signals[k] ==
               (if exists c: nat :: c < n && Displaces(trace, c, k) && c !in Untold(s) then 1 else 0)
            && (k in s.devices.Values ==> s.signals[k] == 0)
  {
    hide Run, Legal, Displaces, Serving, Untold;
    RunNotified(trace, n);
    var s := Run(trace, n);
    if c: nat :| c < n && Displaces(trace, c, k) && c !in Untold(s) {
      assert s.signals[k] == 1;
    }
    if k in s.devices.Values && s.signals[k] == 1 {
      var d :| d in s.devices && s.devices[d] == k;
      RegistryIsHistory(trace, n, d);
      var c: nat :| c < n && Displaces(trace, c, k) && c !in Untold(s);
      DisplacedIsPast(trace, c, k, n, d);
    }
  }

  // ------------------------------------------------------------------ the watched set

  /** No call is under way. */
  predicate Quiet(s: State) { s.calls == map[] }

  /** Two calls whose snapshots are sent in the other order: everything has finished, one device more is
    * registered than is watched, and no further announcement is due. */
  const Overtaken: seq<Step> :=
    [Register("a"), Snapshot(0), Register("b"), Snapshot(2), Send(2), Send(0)]

  lemma WatchCanGoStale()
    ensures Legal(Overtaken) && Quiet(Run(Overtaken, |Overtaken|))
    ensures Run(Overtaken, |Overtaken|).devices == map["a" := 0, "b" := 1]
    ensures Run(Overtaken, |Overtaken|).watched == map["a" := 0]
  {
    var t := Overtaken;
    var s1 := Advance(Run(t, 0), 0, t[0]);
    var s2 := Advance(s1, 1, t[1]);
    var s3 := Advance(s2, 2, t[2]);
    var s4 := Advance(s3, 3, t[3]);
    var s5 := Advance(s4, 4, t[4]);
    var s6 := Advance(s5, 5, t[5]);
    RunOfSix(t);
    assert s4.calls == map[0 := Sending(map["a" := 0]), 2 := Sending(map["a" := 0, "b" := 1])];
    assert s5.calls == map[0 := Sending(map["a" := 0])];
    assert s6.calls == map[];
    hide Run, Advance;
    forall n | 0 <= n < |t|
      ensures Enabled(Run(t, n), t[n])
    {
      assert n == 0 || n == 1 || n == 2 || n == 3 || n == 4 || n == 5;
    }
  }

  lemma RunOfSix(t: seq<Step>)
    requires |t| == 6
    ensures Run(t, 0) == Empty
    ensures Run(t, 1) == Advance(Run(t, 0), 0, t[0]) && Run(t, 2) == Advance(Run(t, 1), 1, t[1])
    ensures Run(t, 3) == Advance(Run(t, 2), 2, t[2]) && Run(t, 4) == Advance(Run(t, 3), 3, t[3])
    ensures Run(t, 5) == Advance(Run(t, 4), 4, t[4]) && Run(t, 6) == Advance(Run(t, 5), 5, t[5])
  {
    hide Advance;
  }

  /** How many steps into the run a call took its snapshot. */
  function TakenBy(trace: seq<Step>, n: nat, c: nat): (r: nat)
    requires n <= |trace|
    ensures r <= n
  {
    if n == 0 then 0 else if trace[n - 1] == Snapshot(c) then n else TakenBy(trace, n - 1, c)
  }

  /** How many steps into the run the snapshot that was sent last was taken. */
  function LastSent(trace: seq<Step>, n: nat): (r: nat)
    requires n <= |trace|
    ensures r <= n
  {
    if n == 0 then 0
    else if trace[n - 1].Send? then TakenBy(trace, n - 1, trace[n - 1].call)
    else LastSent(trace, n - 1)
  }

  /** The registry as it was after so many steps. */
  function At(trace: seq<Step>, n: nat): Devices
    requires n <= |trace|
  {
    Run(trace, n).devices
  }

  /** Every snapshot, sent or not, is the registry as it was when the steps say it was taken. */
  ghost predicate SnapshotsTrue(trace: seq<Step>, n: nat, s: State)
    requires n <= |trace|
  {
    && s.watched == At(trace, LastSent(trace, n))
    && forall c :: c in s.calls && s.calls[c].Sending? ==> s.calls[c].snapshot == At(trace, TakenBy(trace, n, c))
  }

  lemma SnapshotsStep(trace: seq<Step>, n: nat, s: State)
    requires n < |trace| && SnapshotsTrue(trace, n, s) && Enabled(s, trace[n])
    requires trace[n].Snapshot? ==> At(trace, n + 1) == s.devices
    ensures SnapshotsTrue(trace, n + 1, Advance(s, n, trace[n]))
  {
    hide At;
  }

  lemma AtNext(trace: seq<Step>, n: nat)
    requires n < |trace|
    ensures Run(trace, n + 1) == Advance(Run(trace, n), n, trace[n])
    ensures At(trace, n + 1) == Run(trace, n + 1).devices
    ensures trace[n].Snapshot? ==> At(trace, n + 1) == Run(trace, n).devices
  {}

  lemma NoSnapshots(trace: seq<Step>)
    ensures SnapshotsTrue(trace, 0, Run(trace, 0))
  {}

  lemma {:induction false} RunSnapshots(trace: seq<Step>, n: nat)
    requires Legal(trace) && n <= |trace|
    ensures SnapshotsTrue(trace, n, Run(trace, n))
  {
    hide Legal, Run, Advance, SnapshotsTrue, Enabled, At;
    if n == 0 {
      NoSnapshots(trace);
    } else {
      LegalStep(trace, n - 1);
      AtNext(trace, n - 1);
      RunSnapshots(trace, n - 1);
      SnapshotsStep(trace, n - 1, Run(trace, n - 1));
    }
  }

  /** At every point of every run the watched set is the registry exactly when every device is served now by the
    * session that served it when the snapshot sent last was taken. */
  lemma WatchedExactly(trace: seq<Step>, n: nat)
    requires Legal(trace) && n <= |trace|
    ensures Run(trace, n).watched == Run(trace, n).devices <==>
            forall d :: Serving(trace, LastSent(trace, n), d) == Serving(trace, n, d)
  {
    var last := LastSent(trace, n);
    RunSnapshots(trace, n);
    hide Legal, Run, Serving;
    forall d
      ensures Lookup(Run(trace, last).devices, d) == Serving(trace, last, d)
      ensures Lookup(Run(trace, n).devices, d) == Serving(trace, n, d)
    {
      RegistryIsHistory(trace, last, d);
      RegistryIsHistory(trace, n, d);
    }
    SameDevices(Run(trace, last).devices, Run(trace, n).devices);
  }

  lemma SameDevices(a: Devices, b: Devices)
    ensures a == b <==> forall d :: Lookup(a, d) == Lookup(b, d)
  {
    if forall d :: Lookup(a, d) == Lookup(b, d) {
      assert forall d :: d in a <==> Lookup(a, d).Some?;
      assert forall d :: d in b <==> Lookup(b, d).Some?;
      assert forall d :: d in a ==> Lookup(a, d) == Lookup(b, d) && a[d] == b[d];
    }
  }

  /** Each snapshot is sent before anything else happens, as if `announce` were one section. */
  predicate AtOnce(trace: seq<Step>) {
    forall i :: 0 <= i < |trace| && trace[i].Snapshot? ==> i + 1 < |trace| && trace[i + 1] == Send(trace[i].call)
  }

  /** Only the call that has just taken its snapshot has one to send, and unless some call has yet to take one,
    * what was or is to be sent last is the registry. */
  ghost predicate Prompt(s: State, last: Option<Step>) {
    && (forall c: nat :: c in s.calls && s.calls[c].Sending? ==>
          last == Some(Snapshot(c)) && s.calls[c].snapshot == s.devices)
    && ((exists c: nat :: c in s.calls && !s.calls[c].Sending?) || s.watched == s.devices
        || (last.Some? && last.value.Snapshot?))
  }

  lemma PromptStep(s: State, n: nat, last: Option<Step>, step: Step)
    requires Prompt(s, last) && Enabled(s, step)
    requires last.Some? && last.value.Snapshot? ==> step == Send(last.value.call)
    ensures Prompt(Advance(s, n, step), Some(step))
  {
    var after := Advance(s, n, step);
    match step
    case Register(_) => assert n in after.calls && !after.calls[n].Sending?;
    case Drop(_) => assert n in after.calls && !after.calls[n].Sending?;
    case Signal(c) => assert c in after.calls && !after.calls[c].Sending?;
    case Snapshot(_) =>
    case Send(_) =>
  }

  lemma NothingPrompts(trace: seq<Step>)
    ensures Prompt(Run(trace, 0), None)
  {}

  lemma SentNext(trace: seq<Step>, i: nat)
    requires AtOnce(trace) && i + 1 < |trace|
    ensures trace[i].Snapshot? ==> trace[i + 1] == Send(trace[i].call)
  {}

  lemma {:induction false} RunPrompt(trace: seq<Step>, n: nat)
    requires Legal(trace) && AtOnce(trace) && n <= |trace|
    ensures Prompt(Run(trace, n), if n == 0 then None else Some(trace[n - 1]))
  {
    hide Legal, Run, Advance, Prompt, Enabled, AtOnce;
    if n == 0 {
      NothingPrompts(trace);
    } else {
      LegalStep(trace, n - 1);
      if n > 1 {
        SentNext(trace, n - 2);
      }
      UnfoldRun(trace, n - 1);
      RunPrompt(trace, n - 1);
      PromptStep(Run(trace, n - 1), n - 1, if n == 1 then None else Some(trace[n - 2]), trace[n - 1]);
    }
  }

  /** Were every snapshot sent at once, the watched set would be the registry whenever no call is under way. */
  lemma WatchedWhenAtOnce(trace: seq<Step>)
    requires Legal(trace) && AtOnce(trace) && Quiet(Run(trace, |trace|))
    ensures Run(trace, |trace|).watched == Run(trace, |trace|).devices
  {
    hide Legal, Run;
    RunPrompt(trace, |trace|);
  }

  // ------------------------------------------------------------------ the registry object

  lemma {:induction false} RunPrefix(trace: seq<Step>, more: seq<Step>, n: nat)
    requires n <= |trace|
    ensures Run(trace + more, n) == Run(trace, n)
  {
    hide Advance;
    if n > 0 {
      RunPrefix(trace, more, n - 1);
      assert (trace + more)[n - 1] == trace[n - 1];
    }
  }

  lemma OneMore(trace: seq<Step>, step: Step)
    requires Legal(trace) && Enabled(Run(trace, |trace|), step)
    ensures Legal(trace + [step])
    ensures Run(trace + [step], |trace| + 1) == Advance(Run(trace, |trace|), |trace|, step)
  {
    hide Run, Advance, Enabled;
    RunPrefix(trace, [step], |trace|);
    UnfoldRun(trace + [step], |trace|);
    forall n | 0 <= n < |trace + [step]|
      ensures Enabled(Run(trace + [step], n), (trace + [step])[n])
    {
      if n < |trace| {
        RunPrefix(trace, [step], n);
        LegalStep(trace, n);
      }
    }
  }

  lemma UnfoldRun(trace: seq<Step>, n: nat)
    requires n < |trace|
    ensures Run(trace, n + 1) == Advance(Run(trace, n), n, trace[n])
  {
    hide Advance;
  }

  /** The counter is what the history would issue next. */
  lemma NextIsSessionOf(trace: seq<Step>, device: Serial)
    ensures var s := Run(trace, |trace|);
            SessionOf(trace + [Register(device)], |trace|) ==
            if s.nextSession < LAST_SESSION then Some(s.nextSession) else None
  {
    hide Run, Recorded;
    RunBooked(trace, |trace|);
    RegistrationsPrefix(trace, [Register(device)], |trace|);
  }

  lemma {:induction false} RegistrationsPrefix(trace: seq<Step>, more: seq<Step>, n: nat)
    requires n <= |trace|
    ensures Registrations(trace + more, n) == Registrations(trace, n)
  {
    if n > 0 {
      RegistrationsPrefix(trace, more, n - 1);
    }
  }

  lemma NoCallYet(trace: seq<Step>)
    ensures |trace| !in Run(trace, |trace|).calls
  {
    hide Run, Recorded;
    RunBooked(trace, |trace|);
  }

  /** The registry: its map and counter under the lock, the value its watchers see, and the stop signals it has
    * fired. The ghost run is every atomic section any caller has executed, in the order they got the lock;
    * what a caller still has to do lives in that caller. */
  class SessionRegistry {
    var devices: Devices
    var nextSession: nat
    var watched: Devices
    var stopped: multiset<SessionId>
    ghost var run: seq<Step>

    ghost function Recorded(): State
      reads this
    {
      Run(run, |run|)
    }

    ghost predicate Valid()
      reads this
    {
      && Legal(run)
      && devices == Recorded().devices && nextSession == Recorded().nextSession
      && watched == Recorded().watched && stopped == Recorded().signals
    }

    constructor ()
      ensures Valid() && run == []
    {
      devices, nextSession, watched, stopped, run := map[], 0, map[], multiset{}, [];
    }

    /** The locked section of `register`. */
    method Enter(device: Serial) returns (session: Option<SessionId>, displaced: Option<SessionId>)
      requires Valid()
      modifies this
      ensures Valid() && run == old(run) + [Register(device)]
      ensures session == SessionOf(run, |old(run)|)
      ensures session == if old(nextSession) < LAST_SESSION then Some(old(nextSession)) else None
      ensures devices == if session.Some? then old(devices)[device := session.value] else old(devices)
      ensures Recorded().calls ==
              old(Recorded().calls)[|old(run)| := if displaced.Some? then Signalling(displaced.value) else Snapshotting]
    {
      hide Run, Legal, SessionOf;
      OneMore(run, Register(device));
      NextIsSessionOf(run, device);
      run := run + [Register(device)];
      session, displaced := None, None;
      if nextSession < LAST_SESSION {
        session := Some(nextSession);
        nextSession := nextSession + 1;
        displaced := Lookup(devices, device);
        devices := devices[device := session.value];
      }
    }

    /** `displaced.stop.notify_one()`, outside the lock. */
    method Stop(ghost call: nat, displaced: SessionId)
      requires Valid() && call in Recorded().calls && Recorded().calls[call] == Signalling(displaced)
      modifies this
      ensures Valid() && run == old(run) + [Signal(call)]
      ensures Recorded().calls == old(Recorded().calls)[call := Snapshotting]
      ensures devices == old(devices)
    {
      hide Run, Legal;
      OneMore(run, Signal(call));
      run := run + [Signal(call)];
      stopped := stopped + multiset{displaced};
    }

    /** The first half of `announce`: the registered devices, under the lock. */
    method Registered(ghost call: nat) returns (snapshot: Devices)
      requires Valid() && call in Recorded().calls && Recorded().calls[call] == Snapshotting
      modifies this`run
      ensures Valid() && run == old(run) + [Snapshot(call)] && snapshot == devices
      ensures Recorded().calls == old(Recorded().calls)[call := Sending(snapshot)]
    {
      hide Run, Legal;
      OneMore(run, Snapshot(call));
      run := run + [Snapshot(call)];
      snapshot := devices;
    }

    /** The second half: the snapshot replaces what is watched, which only wakes anyone if it differs. */
    method Publish(ghost call: nat, snapshot: Devices) returns (woken: bool)
      requires Valid() && call in Recorded().calls && Recorded().calls[call].Sending?
      requires Recorded().calls[call].snapshot == snapshot
      modifies this
      ensures Valid() && run == old(run) + [Send(call)]
      ensures watched == snapshot && (woken <==> snapshot != old(watched))
      ensures Recorded().calls == old(Recorded().calls) - {call}
      ensures devices == old(devices)
    {
      hide Run, Legal;
      OneMore(run, Send(call));
      run := run + [Send(call)];
      woken := watched != snapshot;
      if woken {
        watched := snapshot;
      }
    }

    /** The locked section of a registration's drop. */
    method Leave(ghost registration: nat, device: Serial, session: Option<SessionId>)
      requires Valid() && Enabled(Recorded(), Drop(registration))
      requires Recorded().registrations[registration] == Registration(device, session)
      modifies this
      ensures Valid() && run == old(run) + [Drop(registration)]
      ensures Recorded().calls == old(Recorded().calls)[|old(run)| := Snapshotting]
    {
      hide Run, Legal;
      OneMore(run, Drop(registration));
      run := run + [Drop(registration)];
      if session.Some? && device in devices && devices[device] == session.value {
        devices := devices - {device};
      }
    }

    /** A whole `register` that nothing interrupts: the newcomer serves the device and is being watched. */
    method RegisterAlone(device: Serial) returns (session: Option<SessionId>)
      requires Valid()
      modifies this
      ensures Valid() && Recorded().calls == old(Recorded().calls)
      ensures session == if old(nextSession) < LAST_SESSION then Some(old(nextSession)) else None
      ensures devices == if session.Some? then old(devices)[device := session.value] else old(devices)
      ensures watched == devices
    {
      ghost var call := |run|;
      NoCallYet(run);
      hide Run, Legal, SessionOf;
      var displaced;
      session, displaced := Enter(device);
      if displaced.Some? {
        Stop(call, displaced.value);
      }
      var snapshot := Registered(call);
      var _ := Publish(call, snapshot);
    }
  }
}
