/** One link per device (src/homeassistant/publisher.rs:119-304): the publisher keeps a link running for the
  * session serving each device, and hears from links whose session ended. */
module Links {
  import opened Prelude
  import opened Registry

  type TaskId = nat

  /** The recorded link of a device, by its task and its session. */
  datatype Linked = Linked(session: SessionId, task: TaskId)

  /** What the publisher itself says about a device. */
  datatype Saying = Offline(device: Serial) | Disconnected(device: Serial)

  /** The publisher and what surrounds it: the registry it asks, which sessions still take requests, the
    * connected set it watches, the link tasks that are neither finished nor aborted, and the farewells on
    * their way, each with the link it came from, which the message itself does not say. `todo` is what is left of
    * the snapshot being walked, and `asked` what the registry said of the device being looked at. `linkedUpTo` is
    * the newest session each device was ever linked to. */
  datatype World = World(
    devices: Devices,
    nextSession: SessionId,
    open: set<SessionId>,
    connected: seq<Serial>,
    linked: map<Serial, Linked>,
    running: map<TaskId, (Serial, SessionId)>,
    nextTask: TaskId,
    farewells: seq<(Serial, SessionId, TaskId)>,
    said: seq<Saying>,
    todo: seq<Serial>,
    asked: Option<(Serial, SessionId)>,
    linkedUpTo: map<Serial, SessionId>)

  const Start: World := World(map[], 0, {}, [], map[], map[], 0, [], [], [], None, map[])

  // ------------------------------------------------------------------ the publisher's two actions

  /** Whether `link_devices` starts a link for `d`, having been told that this session serves it: it is not linked
    * to that session already, and the session still takes requests. */
  predicate Wanted(w: World, d: Serial, session: SessionId) {
    !(d in w.linked && w.linked[d].session == session) && session in w.open
  }

  function LinkTo(w: World, d: Serial, session: SessionId): World {
    if !Wanted(w, d, session) then w
    else
      var kept := if d in w.linked then w.running - {w.linked[d].task} else w.running;
      w.(linked := w.linked[d := Linked(session, w.nextTask)],
         running := kept[w.nextTask := (d, session)],
         nextTask := w.nextTask + 1,
         linkedUpTo := w.linkedUpTo[d := session])
  }

  /** One device, if nothing happens between asking the registry and acting on the answer. */
  function LinkOne(w: World, d: Serial): World {
    if d in w.devices then LinkTo(w, d, w.devices[d]) else w
  }

  function LinkAll(w: World, ds: seq<Serial>): World
    decreases |ds|
  {
    if ds == [] then w else LinkAll(LinkOne(w, ds[0]), ds[1..])
  }

  function Linking(w: World): World { LinkAll(w, w.connected) }

  /** The device is recorded under another session than this. */
  predicate Replaced(w: World, d: Serial, session: SessionId) {
    d in w.linked && w.linked[d].session != session
  }

  function Heard(w: World, d: Serial, session: SessionId): World {
    if Replaced(w, d, session) then w
    else Linking(w.(linked := w.linked - {d}, said := w.said + [Offline(d), Disconnected(d)]))
  }

  // ------------------------------------------------------------------ every run

  /** What can happen: sessions register, leave and stop taking requests, the watched set moves, a link finishes and
    * says so, and the publisher, when it is doing neither, is woken or hears the next farewell. It then walks the
    * connected set, asking the registry about each device and acting on the answer, while all of the former goes
    * on. */
  datatype Event =
    | Registers(device: Serial)
    | Leaves(device: Serial)
    | Closes(session: SessionId)
    | Watches(connected: seq<Serial>)
    | Finishes(task: TaskId)
    | Woken
    | Hears
    | Asks
    | Links

  function After(w: World, e: Event): World {
    match e
    case Registers(d) =>
      w.(devices := w.devices[d := w.nextSession], nextSession := w.nextSession + 1, open := w.open + {w.nextSession})
    case Leaves(d) => w.(devices := w.devices - {d})
    case Closes(session) => w.(open := w.open - {session})
    case Watches(connected) => w.(connected := connected)
    case Finishes(t) =>
      if t !in w.running then w
      else w.(running := w.running - {t}, farewells := w.farewells + [(w.running[t].0, w.running[t].1, t)])
    case Woken => if Busy(w) then w else w.(todo := w.connected)
    case Hears =>
      if Busy(w) || w.farewells == [] then w
      else Hearing(w.(farewells := w.farewells[1..]), w.farewells[0].0, w.farewells[0].1)
    case Asks =>
      if w.todo == [] || w.asked.Some? then w
      else
        var d := w.todo[0];
        w.(todo := w.todo[1..], asked := if d in w.devices then Some((d, w.devices[d])) else None)
    case Links =>
      if w.asked == None then w else LinkTo(w, w.asked.value.0, w.asked.value.1).(asked := None)
  }

  /** Whether the publisher is walking the connected set. */
  predicate Busy(w: World) { w.todo != [] || w.asked.Some? }

  /** A farewell's part before the walk. */
  function Hearing(w: World, d: Serial, session: SessionId): World {
    if Replaced(w, d, session) then w
    else w.(linked := w.linked - {d}, said := w.said + [Offline(d), Disconnected(d)], todo := w.connected)
  }

  function Run(events: seq<Event>): World {
    if events == [] then Start else After(Run(events[..|events| - 1]), events[|events| - 1])
  }

  type Tasks = map<TaskId, (Serial, SessionId)>
  type Record = map<Serial, Linked>
  type Message = (Serial, SessionId, TaskId)

  /** At most one unaborted link per device, and it is the recorded one. */
  ghost predicate OneLinkPerDevice(running: Tasks, linked: Record) {
    forall t :: t in running ==> running[t].0 in linked && linked[running[t].0] == Linked(running[t].1, t)
  }

  /** Session ids only grow, and a device is linked to the newest it was ever linked to. */
  ghost predicate Rising(devices: Devices, next: SessionId, linked: Record, upTo: map<Serial, SessionId>) {
    && (forall d :: d in devices ==> devices[d] < next)
    && (forall d :: d in linked ==> d in upTo && upTo[d] == linked[d].session)
    && (forall d :: d in upTo ==> upTo[d] < next)
    && (forall d :: d in upTo && d in devices ==> upTo[d] <= devices[d])
  }

  /** Tasks are told apart by their number. */
  ghost predicate Numbered(running: Tasks, linked: Record, next: TaskId) {
    && (forall t :: t in running ==> t < next)
    && (forall d :: d in linked ==> linked[d].task < next)
    && (forall d, e :: d in linked && e in linked && linked[d].task == linked[e].task ==> d == e)
  }

  /** A farewell comes from a finished link: the recorded one, or one for an older session. */
  ghost predicate Honest(running: Tasks, linked: Record, upTo: map<Serial, SessionId>, next: TaskId, f: Message) {
    && f.2 !in running && f.2 < next
    && (|| (f.0 in linked && linked[f.0] == Linked(f.1, f.2))
        || (f.0 in upTo && f.1 < upTo[f.0] && forall d :: d in linked ==> linked[d].task != f.2))
  }

  ghost predicate AllHonest(running: Tasks, linked: Record, upTo: map<Serial, SessionId>, next: TaskId,
    farewells: seq<Message>)
  {
    forall k :: 0 <= k < |farewells| ==> Honest(running, linked, upTo, next, farewells[k])
  }

  ghost predicate Single(farewells: seq<Message>) {
    forall j, k :: 0 <= j < k < |farewells| ==> farewells[j].2 != farewells[k].2
  }

  ghost predicate Said(farewells: seq<Message>, t: TaskId) {
    exists k :: 0 <= k < |farewells| && farewells[k].2 == t
  }

  /** A recorded link that is no longer running has said so. */
  ghost predicate NoneLost(running: Tasks, linked: Record, farewells: seq<Message>) {
    forall d :: d in linked ==> linked[d].task in running || Said(farewells, linked[d].task)
  }

  /** What the registry said last is not older than what the device is linked to, nor newer than what serves it. */
  ghost predicate AskedWell(w: World) {
    match w.asked
    case None => true
    case Some((d, session)) =>
      && session < w.nextSession
      && (d in w.devices ==> session <= w.devices[d])
      && (d in w.linkedUpTo ==> w.linkedUpTo[d] <= session)
  }

  ghost predicate Sound(w: World) {
    && AskedWell(w)
    && OneLinkPerDevice(w.running, w.linked)
    && Rising(w.devices, w.nextSession, w.linked, w.linkedUpTo)
    && Numbered(w.running, w.linked, w.nextTask)
    && AllHonest(w.running, w.linked, w.linkedUpTo, w.nextTask, w.farewells)
    && Single(w.farewells)
    && NoneLost(w.running, w.linked, w.farewells)
  }

  /** A new link takes the place of the recorded one, if there was one. */
  lemma RelinkedOnce(running: Tasks, linked: Record, next: TaskId, d: Serial, session: SessionId)
    requires OneLinkPerDevice(running, linked) && Numbered(running, linked, next)
    ensures var kept := if d in linked then running - {linked[d].task} else running;
            OneLinkPerDevice(kept[next := (d, session)], linked[d := Linked(session, next)])
  {}

  lemma RelinkedNumbered(running: Tasks, linked: Record, next: TaskId, d: Serial, session: SessionId)
    requires Numbered(running, linked, next)
    ensures var kept := if d in linked then running - {linked[d].task} else running;
            Numbered(kept[next := (d, session)], linked[d := Linked(session, next)], next + 1)
  {}

  lemma RelinkedNoneLost(running: Tasks, linked: Record, next: TaskId, d: Serial, session: SessionId,
    farewells: seq<Message>)
    requires Numbered(running, linked, next) && NoneLost(running, linked, farewells)
    ensures var kept := if d in linked then running - {linked[d].task} else running;
            NoneLost(kept[next := (d, session)], linked[d := Linked(session, next)], farewells)
  {
    hide Said;
  }

  /** Farewells already on their way are all for older sessions than the new link's. */
  lemma RelinkedHonest(w: World, f: Message)
    requires Sound(w) && w.asked.Some? && Wanted(w, w.asked.value.0, w.asked.value.1)
    requires Honest(w.running, w.linked, w.linkedUpTo, w.nextTask, f)
    ensures var v := LinkTo(w, w.asked.value.0, w.asked.value.1);
            Honest(v.running, v.linked, v.linkedUpTo, v.nextTask, f)
  {
    hide Single, AllHonest, NoneLost, OneLinkPerDevice;
  }

  lemma LinkToSound(w: World)
    requires Sound(w) && w.asked.Some?
    ensures Sound(LinkTo(w, w.asked.value.0, w.asked.value.1).(asked := None))
  {
    var (d, session) := w.asked.value;
    if Wanted(w, d, session) {
      var v := LinkTo(w, d, session);
      assert Rising(v.devices, v.nextSession, v.linked, v.linkedUpTo);
      RelinkedOnce(w.running, w.linked, w.nextTask, d, session);
      RelinkedNumbered(w.running, w.linked, w.nextTask, d, session);
      RelinkedNoneLost(w.running, w.linked, w.nextTask, d, session, w.farewells);
      hide OneLinkPerDevice, Numbered, NoneLost, Single, Rising, Honest;
      forall k | 0 <= k < |v.farewells|
        ensures Honest(v.running, v.linked, v.linkedUpTo, v.nextTask, v.farewells[k])
      {
        RelinkedHonest(w, w.farewells[k]);
      }
    }
  }

  lemma SaidElsewhere(farewells: seq<Message>, t: TaskId)
    requires farewells != [] && Said(farewells, t) && farewells[0].2 != t
    ensures Said(farewells[1..], t)
  {
    var k :| 0 <= k < |farewells| && farewells[k].2 == t;
    assert farewells[1..][k - 1].2 == t;
  }

  /** A replaced session's farewell can be thrown away. */
  lemma IgnoredSound(w: World, f: Message)
    requires Sound(w) && w.farewells != [] && w.farewells[0] == f && Replaced(w, f.0, f.1)
    ensures Sound(w.(farewells := w.farewells[1..]))
  {
    assert Honest(w.running, w.linked, w.linkedUpTo, w.nextTask, f);
    hide OneLinkPerDevice, Rising, Numbered, Honest, Said;
    forall d | d in w.linked && w.linked[d].task !in w.running
      ensures Said(w.farewells[1..], w.linked[d].task)
    {
      SaidElsewhere(w.farewells, w.linked[d].task);
    }
  }

  lemma ForgottenHonest(w: World, f: Message)
    requires Sound(w) && w.farewells != [] && w.farewells[0] == f && !Replaced(w, f.0, f.1)
    ensures AllHonest(w.running, w.linked - {f.0}, w.linkedUpTo, w.nextTask, w.farewells[1..])
  {
    hide NoneLost, Rising, OneLinkPerDevice, AskedWell;
    var rest := w.farewells[1..];
    forall k | 0 <= k < |rest|
      ensures Honest(w.running, w.linked - {f.0}, w.linkedUpTo, w.nextTask, rest[k])
    {
      assert rest[k] == w.farewells[k + 1];
      assert Honest(w.running, w.linked, w.linkedUpTo, w.nextTask, rest[k]);
    }
  }

  /** Any other farewell is the recorded link's, which can be forgotten. */
  lemma ForgottenSound(w: World, f: Message, said: seq<Saying>)
    requires Sound(w) && w.farewells != [] && w.farewells[0] == f && !Replaced(w, f.0, f.1)
    ensures Sound(w.(farewells := w.farewells[1..], linked := w.linked - {f.0}, said := said, todo := w.connected))
  {
    var linked, rest := w.linked - {f.0}, w.farewells[1..];
    assert Honest(w.running, w.linked, w.linkedUpTo, w.nextTask, f);
    assert OneLinkPerDevice(w.running, linked);
    hide OneLinkPerDevice, Honest, Said;
    ForgottenHonest(w, f);
    forall d | d in linked && linked[d].task !in w.running
      ensures Said(rest, linked[d].task)
    {
      if f.0 in w.linked {
        assert f.0 != d;
      }
      SaidElsewhere(w.farewells, linked[d].task);
    }
  }

  lemma FinishedSound(w: World, t: TaskId)
    requires Sound(w) && t in w.running
    ensures Sound(After(w, Finishes(t)))
  {
    var f := (w.running[t].0, w.running[t].1, t);
    var running, farewells := w.running - {t}, w.farewells + [f];
    assert OneLinkPerDevice(running, w.linked) && Numbered(running, w.linked, w.nextTask);
    assert Honest(running, w.linked, w.linkedUpTo, w.nextTask, f);
    forall k | 0 <= k < |w.farewells|
      ensures Honest(running, w.linked, w.linkedUpTo, w.nextTask, w.farewells[k]) && w.farewells[k].2 != t
    {
      assert Honest(w.running, w.linked, w.linkedUpTo, w.nextTask, w.farewells[k]);
    }
    hide OneLinkPerDevice, Honest, Rising, Numbered;
    assert farewells[|w.farewells|].2 == t;
    forall u | Said(w.farewells, u)
      ensures Said(farewells, u)
    {
      var k :| 0 <= k < |w.farewells| && w.farewells[k].2 == u;
      assert farewells[k].2 == u;
    }
    hide Said;
  }

  lemma HeardSound(w: World)
    requires Sound(w)
    ensures Sound(After(w, Hears))
  {
    hide Sound;
    if !Busy(w) && w.farewells != [] {
      var f, v := w.farewells[0], w.(farewells := w.farewells[1..]);
      if Replaced(v, f.0, f.1) {
        IgnoredSound(w, f);
      } else {
        ForgottenSound(w, f, v.said + [Offline(f.0), Disconnected(f.0)]);
      }
    }
  }

  lemma AfterSound(w: World, e: Event)
    requires Sound(w)
    ensures Sound(After(w, e))
  {
    hide OneLinkPerDevice, Numbered, AllHonest, Single, NoneLost;
    match e
    case Hears =>
      hide Sound, After;
      HeardSound(w);
    case Links =>
      if w.asked.Some? {
        hide Sound;
        LinkToSound(w);
      }
    case Finishes(t) =>
      if t in w.running {
        hide Sound, After;
        FinishedSound(w, t);
      }
    case _ =>
  }

  /** In every reachable state, the middle of a walk included, at most one unaborted link exists per device and it is
    * the recorded one; every recorded link that finished has its farewell on the way, so none is left dead
    * unnoticed. */
  lemma {:induction false} RunSound(events: seq<Event>)
    ensures Sound(Run(events))
  {
    if events != [] {
      hide Sound, After;
      RunSound(events[..|events| - 1]);
      AfterSound(Run(events[..|events| - 1]), events[|events| - 1]);
    }
  }

  // ------------------------------------------------------------------ what each action achieves

  function Recorded(w: World, d: Serial): Option<Linked> {
    if d in w.linked then Some(w.linked[d]) else None
  }

  /** Whether a device is registered, to a session that takes requests and that it is not linked to. */
  predicate Needs(w: World, d: Serial) { d in w.devices && Wanted(w, d, w.devices[d]) }

  /** The registry moves on between being asked and the answer being acted on, but whatever it does the device ends
    * up linked to the session it named, if that one still takes requests; and no other device's link changes. */
  lemma LinksWhatWasAsked(events: seq<Event>, d: Serial)
    requires Run(events).asked.Some?
    ensures var (w, v) := (Run(events), After(Run(events), Links));
            var (asked, session) := w.asked.value;
            && v.asked == None
            && (d != asked ==> Recorded(v, d) == Recorded(w, d))
            && (session in w.open ==> asked in v.linked && v.linked[asked].session == session)
            && (session !in w.open ==> Recorded(v, asked) == Recorded(w, asked))
            && (asked in w.devices ==> session <= w.devices[asked])
  {
    hide Run;
    RunSound(events);
  }

  /** What linking some devices does: exactly those that wanted it get a new link, to the session serving them
    * now, and nothing else about the links changes. */
  lemma {:induction false} LinkAllExactly(w: World, ds: seq<Serial>, d: Serial)
    ensures var v := LinkAll(w, ds);
            && v.devices == w.devices && v.open == w.open && v.said == w.said
            && (d in ds && Needs(w, d) ==> d in v.linked && v.linked[d].session == w.devices[d])
            && (!(d in ds && Needs(w, d)) ==> Recorded(v, d) == Recorded(w, d))
    decreases |ds|
  {
    if ds != [] {
      LinkAllExactly(LinkOne(w, ds[0]), ds[1..], d);
      assert d in ds <==> d == ds[0] || d in ds[1..];
    }
  }

  /** The walk that nothing interrupts. */
  function Walk(w: World): World
    requires w.asked == None
    decreases |w.todo|
  {
    if w.todo == [] then w else Walk(After(After(w, Asks), Links))
  }

  lemma {:induction false} LinkAllAside(w: World, ds: seq<Serial>, todo: seq<Serial>)
    ensures LinkAll(w.(todo := todo), ds) == LinkAll(w, ds).(todo := todo)
    decreases |ds|
  {
    if ds != [] {
      assert LinkOne(w.(todo := todo), ds[0]) == LinkOne(w, ds[0]).(todo := todo);
      LinkAllAside(LinkOne(w, ds[0]), ds[1..], todo);
    }
  }

  /** Uninterrupted, the walk is `link_devices` in one go. */
  lemma {:induction false} WalkIsLinkAll(w: World)
    requires w.asked == None
    ensures Walk(w) == LinkAll(w, w.todo).(todo := [])
    decreases |w.todo|
  {
    if w.todo != [] {
      var v := After(After(w, Asks), Links);
      assert v == LinkOne(w, w.todo[0]).(todo := w.todo[1..]);
      WalkIsLinkAll(v);
      LinkAllAside(LinkOne(w, w.todo[0]), w.todo[1..], w.todo[1..]);
    }
  }

  /** While it walks, or has an answer to act on, the publisher is not woken and hears nothing; with an answer to act on
    * it does not ask, and without one there is nothing to act on. */
  lemma OneThingAtATime(w: World)
    ensures w.todo != [] || w.asked.Some? ==> After(w, Woken) == w && After(w, Hears) == w
    ensures w.asked.Some? ==> After(w, Asks) == w
    ensures w.asked == None ==> After(w, Links) == w
  {}

  /** Woken while idle, the publisher walks the connected set; hearing a farewell, it forgets the device first unless
    * the farewell is a replaced session's. */
  lemma WalksExactly(w: World)
    requires w.asked == None
    ensures w.todo == [] ==> After(w, Woken).asked == None && Walk(After(w, Woken)) == Linking(w).(todo := [])
    ensures w.todo == [] && w.farewells != [] ==>
              var (f, v) := (w.farewells[0], w.(farewells := w.farewells[1..]));
              After(w, Hears).asked == None && Walk(After(w, Hears)) == Heard(v, f.0, f.1)
  {
    if w.todo == [] {
      WalkIsLinkAll(After(w, Woken));
      LinkAllAside(w, w.connected, w.connected);
      LinkAllAside(w, w.connected, []);
      if w.farewells != [] {
        var (f, v) := (w.farewells[0], w.(farewells := w.farewells[1..]));
        if !Replaced(v, f.0, f.1) {
          var u := v.(linked := v.linked - {f.0}, said := v.said + [Offline(f.0), Disconnected(f.0)]);
          WalkIsLinkAll(After(w, Hears));
          LinkAllAside(u, u.connected, u.connected);
          LinkAllAside(u, u.connected, []);
        }
      }
    }
  }

  /** What happens around the publisher: a registration takes the next id, whose request channel is open; leaving and
    * closing take one away; and a link that ends says whose it was, last in line. */
  lemma AroundExactly(w: World, d: Serial, session: SessionId, t: TaskId, connected: seq<Serial>)
    ensures var v := After(w, Registers(d));
            && v.devices == w.devices[d := w.nextSession] && v.nextSession == w.nextSession + 1
            && v.open == w.open + {w.nextSession}
    ensures After(w, Leaves(d)).devices == w.devices - {d}
    ensures After(w, Closes(session)).open == w.open - {session}
    ensures After(w, Watches(connected)).connected == connected
    ensures t in w.running ==>
              var v := After(w, Finishes(t));
              v.running == w.running - {t} && v.farewells == w.farewells + [(w.running[t].0, w.running[t].1, t)]
  {}

  /** After `link_devices` every connected device that is registered with an open request channel is linked to
    * the session serving it now. */
  lemma ConnectedAreLinked(w: World, d: Serial)
    requires d in w.connected && d in w.devices && w.devices[d] in w.open
    ensures var v := Linking(w); d in v.linked && v.linked[d].session == w.devices[d]
  {
    LinkAllExactly(w, w.connected, d);
  }

  /** A farewell from a replaced session changes no link and publishes nothing; any other reports the device
    * gone, and gives it a new link if it has meanwhile reconnected. */
  lemma FarewellExactly(w: World, d: Serial, session: SessionId)
    ensures var v := Heard(w, d, session);
            if d in w.linked && w.linked[d].session != session then v == w
            else
              && v.said == w.said + [Offline(d), Disconnected(d)]
              && (d in v.linked <==> d in w.connected && d in w.devices && w.devices[d] in w.open)
              && (d in v.linked ==> v.linked[d].session == w.devices[d])
  {
    var forgotten := w.(linked := w.linked - {d}, said := w.said + [Offline(d), Disconnected(d)]);
    LinkAllExactly(forgotten, w.connected, d);
  }

  /** In a reachable state a farewell that is not ignored is about a link that has finished, so a running link is
    * never forgotten. */
  lemma HeardIsFinished(events: seq<Event>)
    requires Run(events).farewells != []
    ensures var w := Run(events);
            var f := w.farewells[0];
            !Replaced(w, f.0, f.1) ==> forall t :: t in w.running ==> w.running[t].0 != f.0
  {
    hide Run;
    RunSound(events);
    var w := Run(events);
    assert Honest(w.running, w.linked, w.linkedUpTo, w.nextTask, w.farewells[0]);
  }

  // ------------------------------------------------------------------ the publisher object

  /** The publisher over its world; `tasks` are the spawned links that are neither finished nor aborted. */
  class Publisher {
    var devices: Devices
    var open: set<SessionId>
    var connected: seq<Serial>
    var linked: map<Serial, Linked>
    var tasks: map<TaskId, (Serial, SessionId)>
    var nextTask: TaskId
    var said: seq<Saying>

    /** What the publisher's methods touch, as a world with nothing on its way. */
    ghost function State(upTo: map<Serial, SessionId>): World
      reads this
    {
      World(devices, 0, open, connected, linked, tasks, nextTask, [], said, [], None, upTo)
    }

    constructor ()
      ensures State(map[]) == Start
    {
      devices, open, connected, linked, tasks, nextTask, said := map[], {}, [], map[], map[], 0, [];
    }

    /** `LinkAll`, in place; `upTo` follows along. */
    method LinkDevices(ghost upTo: map<Serial, SessionId>) returns (ghost upTo': map<Serial, SessionId>)
      modifies this
      ensures State(upTo') == LinkAll(old(State(upTo)), old(connected))
    {
      upTo' := upTo;
      ghost var w := State(upTo);
      for i := 0 to |connected|
        invariant connected == old(connected)
        invariant LinkAll(State(upTo'), connected[i..]) == LinkAll(w, connected)
      {
        var d := connected[i];
        ghost var before := State(upTo');
        assert connected[i..][0] == d && connected[i..][1..] == connected[i + 1..];
        if d in devices {
          var session := devices[d];
          if !(d in linked && linked[d].session == session) {
            if session in open {
              var task := nextTask;
              if d in linked {
                tasks := tasks - {linked[d].task};
              }
              tasks := tasks[task := (d, session)];
              linked := linked[d := Linked(session, task)];
              nextTask := nextTask + 1;
              upTo' := upTo'[d := session];
            }
          }
        }
        assert State(upTo') == LinkOne(before, d);
      }
      assert connected[|connected|..] == [];
    }

    /** A device's session ended. */
    method SessionEnded(device: Serial, session: SessionId, ghost upTo: map<Serial, SessionId>)
      returns (ghost upTo': map<Serial, SessionId>)
      modifies this
      ensures State(upTo') == Heard(old(State(upTo)), device, session)
    {
      if device in linked && linked[device].session != session {
        return upTo;
      }
      linked := linked - {device};
      said := said + [Offline(device), Disconnected(device)];
      upTo' := LinkDevices(upTo);
    }
  }
}
