/** Telling the cloud's answers from our own (src/driver/arbiter.rs): the outstanding cloud commands, what an
  * answer claims, and the policy that uses the result. */
module Relay {
  import opened Prelude

  /** How long a command stays claimable, in milliseconds. */
  const COMMAND_TTL: nat := 15_000

  /** The one configuration register that pairing needs. */
  const ACCESSORY_LIST: nat := 122

  datatype Intent =
    | Telemetry
    | SettingsSnapshot
    | Identity
    | WriteSettings(start: nat, end: nat)
    | WriteConfig(register: nat)
    | ReadRequest(register: nat)
    | ReadResponse(register: nat)
    | WriteAck(start: nat, end: nat)
    | Unrecognised

  /** The registers from `first` to `last`. */
  datatype Span = Span(first: nat, last: nat) {
    predicate Nonempty() { first <= last }
    predicate Covers(other: Span) { first <= other.first && other.last <= last }
    predicate Has(register: nat) { first <= register <= last }
  }

  /** What a relayed command will be answered for, if it draws an answer at all. */
  function Commanded(intent: Intent): Option<Span> {
    match intent
    case WriteSettings(start, end) => Some(Span(start, end))
    case ReadRequest(register) => Some(Span(register, register))
    case _ => None
  }

  /** What an answer answers for. Its kind is not kept: a read response can consume a write. */
  function Answered(intent: Intent): Option<Span> {
    match intent
    case WriteAck(start, end) => Some(Span(start, end))
    case ReadResponse(register) => Some(Span(register, register))
    case _ => None
  }

  datatype Originator = Cloud | Unknown

  datatype Command = Command(span: Span, at: nat)

  /** `now.saturating_duration_since(at) < COMMAND_TTL` */
  predicate Live(at: nat, now: nat) { now < at + COMMAND_TTL }

  /** The queue without what is too old to be answered. */
  function Fresh(queue: seq<Command>, now: nat): seq<Command> {
    if queue == [] then []
    else (if Live(queue[0].at, now) then [queue[0]] else []) + Fresh(queue[1..], now)
  }

  /** Where the oldest command covering `span` is. */
  function Position(queue: seq<Command>, span: Span): (r: Option<nat>)
    ensures r.Some? ==> r.value < |queue|
  {
    if queue == [] then None
    else if queue[0].span.Covers(span) then Some(0)
    else match Position(queue[1..], span)
         case None => None
         case Some(k) => Some(k + 1)
  }

  // ------------------------------------------------------------------ whole runs

  /** One frame passing the relay: a command on its way to the device, or something the device said. */
  datatype Event = Sent(intent: Intent, at: nat) | Heard(intent: Intent, at: nat)

  predicate IsCommand(e: Event) { e.Sent? && Commanded(e.intent).Some? }
  predicate IsAnswer(e: Event) { e.Heard? && Answered(e.intent).Some? }

  function CommandOf(e: Event): Command
    requires IsCommand(e)
  {
    Command(Commanded(e.intent).value, e.at)
  }

  /** An outstanding command and its place in the run. */
  datatype Entry = Entry(id: nat, command: Command)

  /** The book kept about the first events of a run: what is still outstanding in queue order, which answer
    * claimed which command, and what expired unclaimed. */
  datatype Book = Book(queue: seq<Entry>, claims: map<nat, nat>, expired: set<nat>)

  function Strip(queue: seq<Entry>): (r: seq<Command>)
    ensures |r| == |queue|
  {
    if queue == [] then [] else [queue[0].command] + Strip(queue[1..])
  }

  /** `Fresh`, on entries. */
  function Kept(queue: seq<Entry>, now: nat): seq<Entry> {
    if queue == [] then []
    else (if Live(queue[0].command.at, now) then [queue[0]] else []) + Kept(queue[1..], now)
  }

  function Gone(queue: seq<Entry>, now: nat): set<nat> {
    set e | e in queue && !Live(e.command.at, now) :: e.id
  }

  function Without<T>(queue: seq<T>, k: nat): seq<T>
    requires k < |queue|
  {
    queue[..k] + queue[k + 1..]
  }

  /** What an answer does to the book once expired commands are gone. */
  function Claimed(b: Book, n: nat, span: Span): Book {
    match Position(Strip(b.queue), span)
    case None => b
    case Some(k) => b.(queue := Without(b.queue, k), claims := b.claims[n := b.queue[k].id])
  }

  function Expired(b: Book, now: nat): Book {
    b.(queue := Kept(b.queue, now), expired := b.expired + Gone(b.queue, now))
  }

  /** What event `n` does to the book of the events before it. */
  function Advance(e: Event, n: nat, b: Book): Book {
    if IsCommand(e) then
      var kept := Expired(b, e.at);
      kept.(queue := kept.queue + [Entry(n, CommandOf(e))])
    else if IsAnswer(e) then Claimed(Expired(b, e.at), n, Answered(e.intent).value)
    else b
  }

  /** The book after the first `n` events. */
  function Run(trace: seq<Event>, n: nat): Book
    requires n <= |trace|
  {
    if n == 0 then Book([], map[], {}) else Advance(trace[n - 1], n - 1, Run(trace, n - 1))
  }

  lemma {:induction false} RunPrefix(trace: seq<Event>, more: seq<Event>, n: nat)
    requires n <= |trace|
    ensures Run(trace + more, n) == Run(trace, n)
  {
    hide Advance;
    if n > 0 {
      RunPrefix(trace, more, n - 1);
      assert (trace + more)[n - 1] == trace[n - 1];
    }
  }

  lemma {:induction false} StripAt(queue: seq<Entry>, k: nat)
    requires k < |queue|
    ensures Strip(queue)[k] == queue[k].command
  {
    if k > 0 {
      StripAt(queue[1..], k - 1);
    }
  }

  lemma {:induction false} StripJoin(a: seq<Entry>, b: seq<Entry>)
    ensures Strip(a + b) == Strip(a) + Strip(b)
  {
    if a == [] {
      assert a + b == b;
    } else {
      StripJoin(a[1..], b);
      assert (a + b)[1..] == a[1..] + b && (a + b)[0] == a[0];
      assert Strip(a + b) == [a[0].command] + Strip(a[1..] + b) && Strip(a) == [a[0].command] + Strip(a[1..]);
      hide Strip;
    }
  }

  lemma StripWithout(queue: seq<Entry>, k: nat)
    requires k < |queue|
    ensures Strip(Without(queue, k)) == Without(Strip(queue), k)
  {
    hide Strip;
    StripJoin(queue[..k], queue[k + 1..]);
    StripJoin(queue[..k], queue[k..]);
    StripJoin(queue[..k + 1], queue[k + 1..]);
    assert queue == queue[..k] + queue[k..] == queue[..k + 1] + queue[k + 1..];
  }

  lemma {:induction false} KeptIsFresh(queue: seq<Entry>, now: nat)
    ensures Strip(Kept(queue, now)) == Fresh(Strip(queue), now)
  {
    if queue != [] {
      var head := if Live(queue[0].command.at, now) then [queue[0]] else [];
      KeptIsFresh(queue[1..], now);
      StripJoin(head, Kept(queue[1..], now));
      assert Strip(queue)[1..] == Strip(queue[1..]);
    }
  }

  /** The commands outstanding after a whole run, oldest first. */
  function Outstanding(trace: seq<Event>): seq<Command> {
    Strip(Run(trace, |trace|).queue)
  }

  /** Who the relay says caused event `n`. */
  function OriginatorOf(trace: seq<Event>, n: nat): Originator
    requires n < |trace|
  {
    if n in Run(trace, n + 1).claims then Cloud else Unknown
  }

  lemma OneMore(trace: seq<Event>, e: Event)
    ensures Run(trace + [e], |trace + [e]|) == Advance(e, |trace|, Run(trace, |trace|))
  {
    hide Advance;
    RunPrefix(trace, [e], |trace|);
  }

  lemma OneMoreSent(trace: seq<Event>, intent: Intent, now: nat)
    ensures Outstanding(trace + [Sent(intent, now)]) ==
            match Commanded(intent) {
              case None => Outstanding(trace)
              case Some(span) => Fresh(Outstanding(trace), now) + [Command(span, now)]
            }
  {
    hide Run, Kept, Fresh, Gone;
    var e, queue := Sent(intent, now), Run(trace, |trace|).queue;
    OneMore(trace, e);
    KeptIsFresh(queue, now);
    if IsCommand(e) {
      StripJoin(Kept(queue, now), [Entry(|trace|, CommandOf(e))]);
      assert Strip([Entry(|trace|, CommandOf(e))]) == [CommandOf(e)];
    }
  }

  /** What an answer leaves outstanding and who it is attributed to, on the queue as the relay holds it. */
  function Remaining(queue: seq<Command>, span: Span): seq<Command> {
    match Position(queue, span)
    case None => queue
    case Some(k) => Without(queue, k)
  }

  lemma OneMoreHeard(trace: seq<Event>, intent: Intent, now: nat)
    ensures Outstanding(trace + [Heard(intent, now)]) ==
            match Answered(intent) {
              case None => Outstanding(trace)
              case Some(span) => Remaining(Fresh(Outstanding(trace), now), span)
            }
    ensures OriginatorOf(trace + [Heard(intent, now)], |trace|) ==
            match Answered(intent) {
              case None => Unknown
              case Some(span) => if Position(Fresh(Outstanding(trace), now), span).Some? then Cloud else Unknown
            }
  {
    hide Run, Kept, Fresh, Gone, Strip, Without, Position;
    var e, b := Heard(intent, now), Run(trace, |trace|);
    OneMore(trace, e);
    KeptIsFresh(b.queue, now);
    Unheard(trace, |trace|);
    if IsAnswer(e) {
      var found := Position(Strip(Kept(b.queue, now)), Answered(intent).value);
      if found.Some? {
        StripWithout(Kept(b.queue, now), found.value);
      }
    }
  }

  /** The outstanding queue, beside a ghost trace of everything the relay has seen. */
  class CloudCommands {
    var outstanding: seq<Command>
    ghost var trace: seq<Event>

    /** The queue holds exactly the commands the book says are outstanding, oldest first. */
    ghost predicate Valid()
      reads this
    {
      outstanding == Outstanding(trace)
    }

    constructor ()
      ensures Valid() && trace == []
    {
      outstanding, trace := [], [];
    }

    /** The queue holds what the run so far leaves outstanding, this command included. */
    method Remember(intent: Intent, now: nat)
      requires Valid()
      modifies this
      ensures Valid() && trace == old(trace) + [Sent(intent, now)]
    {
      hide Outstanding, Fresh;
      OneMoreSent(trace, intent, now);
      trace := trace + [Sent(intent, now)];
      var span := Commanded(intent);
      if span == None {
        return;
      }
      Expire(now);
      outstanding := outstanding + [Command(span.value, now)];
    }

    /** Attribute an answer, consuming the oldest command it answers. */
    method Claim(intent: Intent, now: nat) returns (who: Originator)
      requires Valid()
      modifies this
      ensures Valid() && trace == old(trace) + [Heard(intent, now)]
      ensures who == OriginatorOf(trace, |old(trace)|)
    {
      hide Outstanding, Fresh, Position, OriginatorOf;
      OneMoreHeard(trace, intent, now);
      trace := trace + [Heard(intent, now)];
      var span := Answered(intent);
      if span == None {
        return Unknown;
      }
      Expire(now);
      var found := Position(outstanding, span.value);
      if found == None {
        return Unknown;
      }
      outstanding := Without(outstanding, found.value);
      who := Cloud;
    }

    /** What is left is every command still live, and those in the order they were in. */
    method Expire(now: nat)
      modifies this`outstanding
      ensures forall c :: c in outstanding <==> c in old(outstanding) && now - c.at < 15000
      ensures outstanding == Fresh(old(outstanding), now)
    {
      var kept: seq<Command> := [];
      for i := 0 to |outstanding|
        invariant kept + Fresh(outstanding[i..], now) == Fresh(outstanding, now)
      {
        assert outstanding[i..][1..] == outstanding[i + 1..];
        if Live(outstanding[i].at, now) {
          kept := kept + [outstanding[i]];
        }
      }
      assert outstanding[|outstanding|..] == [];
      FreshExactly(outstanding, now);
      outstanding := kept;
    }
  }

  lemma {:induction false} FreshExactly(queue: seq<Command>, now: nat)
    ensures forall c :: c in Fresh(queue, now) <==> c in queue && now - c.at < 15000
  {
    if queue != [] {
      FreshExactly(queue[1..], now);
      assert forall c :: c in queue <==> c == queue[0] || c in queue[1..];
    }
  }

  // ------------------------------------------------------------------ attribution is a matching

  /** `answer` may be given to `command`: it is a later answer it covers, heard in time. */
  predicate Suits(trace: seq<Event>, answer: nat, command: nat) {
    && command < answer < |trace|
    && IsCommand(trace[command])
    && IsAnswer(trace[answer])
    && Commanded(trace[command].intent).value.Covers(Answered(trace[answer].intent).value)
    && Live(trace[command].at, trace[answer].at)
  }

  /** A one-to-one assignment of some of the first `n` events' answers to commands they suit. */
  ghost predicate Matching(trace: seq<Event>, n: nat, m: map<nat, nat>) {
    && (forall a :: a in m ==> a < n && Suits(trace, a, m[a]))
    && (forall a, b :: a in m && b in m && m[a] == m[b] ==> a == b)
  }

  /** The commands among the first `n` events. */
  function Remembered(trace: seq<Event>, n: nat): set<nat>
    requires n <= |trace|
  {
    set i | 0 <= i < n && IsCommand(trace[i])
  }

  function Ids(queue: seq<Entry>): set<nat> { set e | e in queue :: e.id }

  predicate Ascending(queue: seq<Entry>) {
    forall j, k :: 0 <= j < k < |queue| ==> queue[j].id < queue[k].id
  }

  /** The queue lists commands of the run, in the order they were sent. */
  predicate Listed(trace: seq<Event>, n: nat, queue: seq<Entry>)
    requires n <= |trace|
  {
    && Ascending(queue)
    && forall e :: e in queue ==> e.id < n && IsCommand(trace[e.id]) && e.command == CommandOf(trace[e.id])
  }

  /** Every remembered command is outstanding, claimed or expired, and only one of the three. */
  ghost predicate Accounted(trace: seq<Event>, n: nat, b: Book)
    requires n <= |trace|
  {
    && Remembered(trace, n) == Ids(b.queue) + b.claims.Values + b.expired
    && Ids(b.queue) !! b.claims.Values !! b.expired
  }

  /** What holds of the book at every point of every run. */
  ghost predicate Sound(trace: seq<Event>, n: nat, b: Book)
    requires n <= |trace|
  {
    Listed(trace, n, b.queue) && Accounted(trace, n, b) && Matching(trace, n, b.claims)
  }

  lemma {:induction false} KeptExactly(queue: seq<Entry>, now: nat)
    ensures forall e :: e in Kept(queue, now) <==> e in queue && Live(e.command.at, now)
  {
    if queue != [] {
      KeptExactly(queue[1..], now);
    }
  }

  lemma {:induction false} KeptAscends(queue: seq<Entry>, now: nat)
    requires Ascending(queue)
    ensures Ascending(Kept(queue, now))
  {
    if queue != [] {
      KeptAscends(queue[1..], now);
      var rest := Kept(queue[1..], now);
      KeptExactly(queue[1..], now);
      forall k | 0 <= k < |rest|
        ensures queue[0].id < rest[k].id
      {
        assert rest[k] in queue[1..];
      }
    }
  }

  lemma {:induction false} PositionCovers(queue: seq<Command>, span: Span)
    ensures match Position(queue, span)
            case None => forall k :: 0 <= k < |queue| ==> !queue[k].span.Covers(span)
            case Some(p) => queue[p].span.Covers(span) && forall k :: 0 <= k < p ==> !queue[k].span.Covers(span)
  {
    if queue != [] && !queue[0].span.Covers(span) {
      PositionCovers(queue[1..], span);
      assert forall k :: 0 < k < |queue| ==> queue[k] == queue[1..][k - 1];
    }
  }

  /** The same, on entries. */
  lemma OldestCovers(queue: seq<Entry>, span: Span)
    ensures match Position(Strip(queue), span)
            case None => forall k :: 0 <= k < |queue| ==> !queue[k].command.span.Covers(span)
            case Some(p) =>
              && queue[p].command.span.Covers(span)
              && forall k :: 0 <= k < p ==> !queue[k].command.span.Covers(span)
  {
    hide Strip, Position;
    PositionCovers(Strip(queue), span);
    forall k | 0 <= k < |queue|
      ensures Strip(queue)[k] == queue[k].command
    {
      StripAt(queue, k);
    }
  }

  lemma RemoveAt(queue: seq<Entry>, k: nat)
    requires Ascending(queue) && k < |queue|
    ensures Ascending(Without(queue, k))
    ensures Ids(Without(queue, k)) == Ids(queue) - {queue[k].id}
    ensures forall e :: e in Without(queue, k) ==> e in queue
  {
    var rest := Without(queue, k);
    forall i | i in Ids(queue) - {queue[k].id}
      ensures i in Ids(rest)
    {
      var j :| 0 <= j < |queue| && queue[j].id == i;
      assert queue[j] == if j < k then rest[j] else rest[j - 1];
    }
  }

  /** Expiring moves commands from the queue to the expired, and loses none. */
  lemma ExpiredSound(trace: seq<Event>, n: nat, b: Book, now: nat)
    requires n <= |trace| && Sound(trace, n, b)
    ensures Sound(trace, n, Expired(b, now))
  {
    hide Kept, Remembered, Matching, Ascending;
    KeptAscends(b.queue, now);
    KeptExactly(b.queue, now);
    IdsUnique(b.queue);
    assert Ids(b.queue) == Ids(Kept(b.queue, now)) + Gone(b.queue, now);
  }

  lemma IdsUnique(queue: seq<Entry>)
    requires Ascending(queue)
    ensures forall e, f :: e in queue && f in queue && e.id == f.id ==> e == f
  {
    forall e, f | e in queue && f in queue && e.id == f.id
      ensures e == f
    {
      var j :| 0 <= j < |queue| && queue[j] == e;
      var k :| 0 <= k < |queue| && queue[k] == f;
      assert j == k;
    }
  }

  lemma SentSound(trace: seq<Event>, n: nat, b: Book)
    requires n < |trace| && Sound(trace, n, b) && IsCommand(trace[n])
    ensures Sound(trace, n + 1, b.(queue := b.queue + [Entry(n, CommandOf(trace[n]))]))
  {
    hide Matching;
    var e := Entry(n, CommandOf(trace[n]));
    assert Remembered(trace, n + 1) == Remembered(trace, n) + {n};
    assert Ids(b.queue + [e]) == Ids(b.queue) + {n} by {
      assert e in b.queue + [e];
    }
    assert Listed(trace, n + 1, b.queue + [e]);
    assert forall i :: i in Remembered(trace, n) ==> i < n;
    MatchingGrows(trace, n, b.claims);
  }

  lemma MatchingGrows(trace: seq<Event>, n: nat, m: map<nat, nat>)
    requires Matching(trace, n, m)
    ensures Matching(trace, n + 1, m) && n !in m
  {}

  lemma InsertedValues(m: map<nat, nat>, a: nat, c: nat)
    requires a !in m
    ensures m[a := c].Values == m.Values + {c}
  {
    forall v | v in m.Values
      ensures v in m[a := c].Values
    {
      var b :| b in m && m[b] == v;
      assert m[a := c][b] == v;
    }
    assert m[a := c][a] == c;
  }

  lemma ClaimSound(trace: seq<Event>, n: nat, b: Book, span: Span)
    requires n < |trace| && Sound(trace, n, b) && IsAnswer(trace[n]) && Answered(trace[n].intent) == Some(span)
    requires forall e :: e in b.queue ==> Live(e.command.at, trace[n].at)
    ensures Sound(trace, n + 1, Claimed(b, n, span))
  {
    assert Remembered(trace, n + 1) == Remembered(trace, n);
    MatchingGrows(trace, n, b.claims);
    match Position(Strip(b.queue), span)
    case None =>
    case Some(k) =>
      hide Strip, Position, Suits, Matching, Remembered;
      OldestCovers(b.queue, span);
      var e := b.queue[k];
      assert e in b.queue && e.id in Ids(b.queue);
      RemoveAt(b.queue, k);
      InsertedValues(b.claims, n, e.id);
      ClaimMatches(trace, n, b.claims, e);
  }

  lemma ClaimMatches(trace: seq<Event>, n: nat, m: map<nat, nat>, e: Entry)
    requires n < |trace| && Matching(trace, n, m) && IsAnswer(trace[n]) && e.id < n && IsCommand(trace[e.id])
    requires e.command == CommandOf(trace[e.id]) && Live(e.command.at, trace[n].at)
    requires e.command.span.Covers(Answered(trace[n].intent).value) && e.id !in m.Values
    ensures Matching(trace, n + 1, m[n := e.id])
  {
    assert Suits(trace, n, e.id);
    hide Suits;
    assert forall a :: a in m ==> m[a] in m.Values;
  }

  lemma AdvanceSound(trace: seq<Event>, n: nat, b: Book)
    requires n < |trace| && Sound(trace, n, b)
    ensures Sound(trace, n + 1, Advance(trace[n], n, b))
  {
    var e := trace[n];
    ExpiredSound(trace, n, b, e.at);
    if IsCommand(e) {
      hide Sound, Expired;
      SentSound(trace, n, Expired(b, e.at));
    } else if IsAnswer(e) {
      KeptExactly(b.queue, e.at);
      assert forall f :: f in Expired(b, e.at).queue ==> Live(f.command.at, e.at);
      hide Sound, Expired;
      ClaimSound(trace, n, Expired(b, e.at), Answered(e.intent).value);
    } else {
      assert Remembered(trace, n + 1) == Remembered(trace, n);
      MatchingGrows(trace, n, b.claims);
    }
  }

  lemma EmptySound(trace: seq<Event>)
    ensures Sound(trace, 0, Book([], map[], {}))
  {}

  /** At every point of every run each remembered command is outstanding, claimed or expired and only one of
    * the three, and the claims are one-to-one with earlier commands that cover them and are under 15 s old. */
  lemma {:induction false} RunSound(trace: seq<Event>, n: nat)
    requires n <= |trace|
    ensures Sound(trace, n, Run(trace, n))
  {
    hide Sound, Advance;
    if n == 0 {
      EmptySound(trace);
    } else {
      RunSound(trace, n - 1);
      AdvanceSound(trace, n - 1, Run(trace, n - 1));
    }
  }

  /** No claim has been made yet by an answer still to be heard. */
  lemma Unheard(trace: seq<Event>, n: nat)
    requires n <= |trace|
    ensures n !in Run(trace, n).claims
  {
    hide Run, Accounted, Listed;
    RunSound(trace, n);
  }

  lemma {:induction false} ValuesCount(m: map<nat, nat>)
    requires forall a, b :: a in m && b in m && m[a] == m[b] ==> a == b
    ensures |m.Values| == |m|
    decreases |m|
  {
    if m.Keys != {} {
      var a :| a in m;
      var rest := m - {a};
      assert m.Keys == rest.Keys + {a};
      ValuesCount(rest);
      assert m.Values == rest.Values + {m[a]};
    }
  }

  lemma HeadIsNew(queue: seq<Entry>)
    requires Ascending(queue) && queue != []
    ensures Ids(queue) == Ids(queue[1..]) + {queue[0].id} && queue[0].id !in Ids(queue[1..])
  {
    assert forall e :: e in queue <==> e == queue[0] || e in queue[1..];
  }

  lemma {:induction false} IdsCount(queue: seq<Entry>)
    requires Ascending(queue)
    ensures |Ids(queue)| == |queue|
  {
    if queue != [] {
      IdsCount(queue[1..]);
      HeadIsNew(queue);
      hide Ids, Ascending;
    }
  }

  /** The same conservation as counts: remembered = claimed + expired + outstanding. */
  lemma CommandsConserved(trace: seq<Event>, n: nat)
    requires n <= |trace|
    ensures var b := Run(trace, n); |Remembered(trace, n)| == |b.claims| + |b.expired| + |b.queue|
  {
    hide Run, Remembered;
    var b := Run(trace, n);
    RunSound(trace, n);
    ValuesCount(b.claims);
    IdsCount(b.queue);
  }

  // ------------------------------------------------------------------ time order

  predicate Monotone(trace: seq<Event>) {
    forall i, j :: 0 <= i < j < |trace| ==> trace[i].at <= trace[j].at
  }

  predicate InOrder(queue: seq<Entry>) {
    forall j, k :: 0 <= j < k < |queue| ==> queue[j].command.at <= queue[k].command.at
  }

  /** With times that never decrease the queue is in time order. */
  lemma QueueInOrder(trace: seq<Event>, n: nat)
    requires Monotone(trace) && n <= |trace|
    ensures InOrder(Run(trace, n).queue)
  {
    hide Run, Accounted, Matching;
    RunSound(trace, n);
    var queue := Run(trace, n).queue;
    forall j, k | 0 <= j < k < |queue|
      ensures queue[j].command.at <= queue[k].command.at
    {
      assert queue[j] in queue && queue[k] in queue;
    }
  }

  /** How many commands at the front of the queue are too old. */
  function Stale(queue: seq<Entry>, now: nat): (k: nat)
    ensures k <= |queue|
  {
    if queue == [] || Live(queue[0].command.at, now) then 0 else 1 + Stale(queue[1..], now)
  }

  /** On a queue in time order, expiring drops exactly the stale prefix. */
  lemma {:induction false} ExpiryDropsPrefix(queue: seq<Entry>, now: nat)
    requires InOrder(queue)
    ensures Kept(queue, now) == queue[Stale(queue, now)..]
  {
    if queue != [] {
      InOrderTail(queue);
      if Live(queue[0].command.at, now) {
        AllKept(queue, now);
      } else {
        ExpiryDropsPrefix(queue[1..], now);
      }
    }
  }

  /** A queue whose oldest command is live keeps every command. */
  lemma {:induction false} AllKept(queue: seq<Entry>, now: nat)
    requires InOrder(queue) && (queue != [] ==> Live(queue[0].command.at, now))
    ensures Kept(queue, now) == queue
  {
    if queue != [] {
      InOrderTail(queue);
      AllKept(queue[1..], now);
    }
  }

  lemma InOrderTail(queue: seq<Entry>)
    requires InOrder(queue) && queue != []
    ensures InOrder(queue[1..])
    ensures |queue| > 1 ==> queue[0].command.at <= queue[1..][0].command.at
  {}

  /** What expires is old by then, and is only older later. */
  lemma ExpiredStep(trace: seq<Event>, n: nat, b: Book, now: nat)
    requires n < |trace| && Listed(trace, n, b.queue) && trace[n].at <= now
    requires forall i :: i in b.expired ==> i < |trace| && !Live(trace[i].at, now)
    ensures forall i :: i in Advance(trace[n], n, b).expired ==> i < |trace| && !Live(trace[i].at, now)
  {
    hide Kept, Position, Without;
  }

  lemma {:induction false} ExpiredAreOld(trace: seq<Event>, n: nat, now: nat)
    requires Monotone(trace) && n <= |trace| && (n > 0 ==> trace[n - 1].at <= now)
    ensures forall i :: i in Run(trace, n).expired ==> i < |trace| && !Live(trace[i].at, now)
  {
    hide Advance, Listed;
    if n > 0 {
      assert n > 1 ==> trace[n - 2].at <= trace[n - 1].at;
      ExpiredAreOld(trace, n - 1, now);
      RunSound(trace, n - 1);
      ExpiredStep(trace, n - 1, Run(trace, n - 1), now);
    }
  }

  /** What an answer heard next can claim: every command sent, unclaimed, and under 15 s old. */
  lemma OutstandingExactly(trace: seq<Event>, n: nat, i: nat)
    requires Monotone(trace) && n < |trace|
    ensures i in Ids(Kept(Run(trace, n).queue, trace[n].at)) <==>
            && i < n && IsCommand(trace[i])
            && i !in Run(trace, n).claims.Values
            && Live(trace[i].at, trace[n].at)
  {
    assert n > 0 ==> trace[n - 1].at <= trace[n].at;
    ExpiredAreOld(trace, n, trace[n].at);
    hide Run, Kept, Matching, Monotone;
    RunSound(trace, n);
    var b := Run(trace, n);
    KeptExactly(b.queue, trace[n].at);
    assert i in Remembered(trace, n) <==> i in Ids(b.queue) || i in b.claims.Values || i in b.expired;
  }

  // ------------------------------------------------------------------ what one answer claims

  /** A command answer `n` could be attributed to: it suits, and no earlier answer claimed it. */
  predicate Waiting(trace: seq<Event>, n: nat, c: nat)
    requires n < |trace|
  {
    Suits(trace, n, c) && c !in Run(trace, n).claims.Values
  }

  lemma WaitingIsQueued(trace: seq<Event>, n: nat, c: nat)
    requires Monotone(trace) && n < |trace| && IsAnswer(trace[n])
    ensures Waiting(trace, n, c) <==>
            exists e :: e in Kept(Run(trace, n).queue, trace[n].at) && e.id == c
                        && e.command.span.Covers(Answered(trace[n].intent).value)
  {
    OutstandingExactly(trace, n, c);
    hide Run, Kept, Monotone, Accounted, Matching, Suits;
    RunSound(trace, n);
    KeptExactly(Run(trace, n).queue, trace[n].at);
  }

  /** An answer claims the oldest command waiting for one, and nothing exactly when none is. */
  lemma ClaimsOldest(trace: seq<Event>, n: nat)
    requires Monotone(trace) && n < |trace|
    ensures var before, claims := Run(trace, n).claims, Run(trace, n + 1).claims;
            && n !in before
            && claims == (if n in claims then before[n := claims[n]] else before)
            && (n in claims ==> Waiting(trace, n, claims[n]))
            && (forall c :: Waiting(trace, n, c) ==> n in claims && claims[n] <= c)
  {
    Unheard(trace, n);
    if IsAnswer(trace[n]) {
      hide Run, Waiting, Monotone;
      AnswerClaimsOldest(trace, n);
    }
  }

  lemma AnswerClaimsOldest(trace: seq<Event>, n: nat)
    requires Monotone(trace) && n < |trace| && IsAnswer(trace[n]) && n !in Run(trace, n).claims
    ensures var before, claims := Run(trace, n).claims, Run(trace, n + 1).claims;
            && claims == (if n in claims then before[n := claims[n]] else before)
            && (n in claims ==> Waiting(trace, n, claims[n]))
            && (forall c :: Waiting(trace, n, c) ==> n in claims && claims[n] <= c)
  {
    var b, span := Run(trace, n), Answered(trace[n].intent).value;
    var kept := Kept(b.queue, trace[n].at);
    assert Run(trace, n + 1) == Claimed(Expired(b, trace[n].at), n, span);
    KeptInIdOrder(trace, n, trace[n].at);
    OldestCovers(kept, span);
    hide Run, Kept, Strip, Position, Without, Waiting, Suits, Monotone;
    var found := Position(Strip(kept), span);
    if found.Some? {
      assert kept[found.value] in kept;
      WaitingIsQueued(trace, n, kept[found.value].id);
    }
    forall c | Waiting(trace, n, c)
      ensures n in Run(trace, n + 1).claims && Run(trace, n + 1).claims[n] <= c
    {
      WaitingIsQueued(trace, n, c);
      var j :| 0 <= j < |kept| && kept[j].id == c && kept[j].command.span.Covers(span);
    }
  }

  lemma KeptInIdOrder(trace: seq<Event>, n: nat, now: nat)
    requires n <= |trace|
    ensures Ascending(Kept(Run(trace, n).queue, now))
  {
    hide Run, Accounted, Matching, Kept;
    RunSound(trace, n);
    KeptAscends(Run(trace, n).queue, now);
  }

  // ------------------------------------------------------------------ oldest-first is optimal

  /** Every span in the run is a real range. */
  predicate RealSpans(trace: seq<Event>) {
    forall i :: 0 <= i < |trace| ==>
      && (IsCommand(trace[i]) ==> Commanded(trace[i].intent).value.Nonempty())
      && (IsAnswer(trace[i]) ==> Answered(trace[i].intent).value.Nonempty())
  }

  predicate Uses(trace: seq<Event>, spans: set<Span>) {
    forall i :: 0 <= i < |trace| && IsCommand(trace[i]) ==> Commanded(trace[i].intent).value in spans
  }

  /** No two different spans share a register. One register per command is the simplest case. */
  ghost predicate Separate(spans: set<Span>) {
    forall s, t, r: nat :: s in spans && t in spans && s.Has(r) && t.Has(r) ==> s == t
  }

  /** `m` attributes the first `k` events as the relay does. */
  ghost predicate Agrees(trace: seq<Event>, m: map<nat, nat>, k: nat)
    requires k <= |trace|
  {
    var claims := Run(trace, k).claims;
    forall a :: a < k ==> (a in m <==> a in claims) && (a in m ==> m[a] == claims[a])
  }

  /** What the relay does at event `k`, against any matching that agreed with it before. */
  lemma OldestFirst(trace: seq<Event>, m: map<nat, nat>, k: nat)
    requires Monotone(trace) && k < |trace| && Matching(trace, |trace|, m) && Agrees(trace, m, k)
    ensures var claims := Run(trace, k + 1).claims;
            && (forall a :: a < k ==> (a in m <==> a in claims) && (a in m ==> m[a] == claims[a]))
            && (k in m ==> k in claims && claims[k] <= m[k])
            && (k in claims ==> Suits(trace, k, claims[k]) && forall a :: a in m && a < k ==> m[a] != claims[k])
  {
    hide Run, Suits, Monotone;
    ClaimsOldest(trace, k);
    var before, claims := Run(trace, k).claims, Run(trace, k + 1).claims;
    if k in m {
      forall a | a in before
        ensures before[a] != m[k]
      {
        EarlierClaims(trace, k, a);
        assert a in m && m[a] == before[a];
      }
      assert Waiting(trace, k, m[k]);
    }
    forall a | a in m && a < k && k in claims
      ensures m[a] != claims[k]
    {
      assert a in before && before[a] in before.Values;
    }
  }

  lemma EarlierClaims(trace: seq<Event>, k: nat, a: nat)
    requires k <= |trace| && a in Run(trace, k).claims
    ensures a < k
  {
    hide Run, Accounted, Listed;
    RunSound(trace, k);
  }

  /** One step of the exchange argument: a matching that agrees before `k` can be changed to agree at `k`
    * too without becoming smaller. */
  lemma Exchange(trace: seq<Event>, spans: set<Span>, m: map<nat, nat>, k: nat) returns (m': map<nat, nat>)
    requires Monotone(trace) && RealSpans(trace) && Uses(trace, spans) && Separate(spans)
    requires k < |trace| && Matching(trace, |trace|, m) && Agrees(trace, m, k)
    ensures Matching(trace, |trace|, m') && Agrees(trace, m', k + 1) && |m'| >= |m|
  {
    hide Run, Suits, Matching, RealSpans, Uses, Separate, Monotone;
    OldestFirst(trace, m, k);
    hide Commanded, Answered, Live;
    var claims := Run(trace, k + 1).claims;
    if k !in claims {
      return m;
    }
    var c := claims[k];
    if a :| a in m && a != k && m[a] == c {
      m' := Swap(trace, spans, m, k, c, a);
    } else {
      Assign(trace, m, k, c);
      m' := m[k := c];
    }
    AgreesNext(trace, m, m', k);
  }

  lemma AgreesNext(trace: seq<Event>, m: map<nat, nat>, m': map<nat, nat>, k: nat)
    requires k < |trace|
    requires var claims := Run(trace, k + 1).claims;
             && (forall a :: a < k ==> (a in m <==> a in claims) && (a in m ==> m[a] == claims[a]))
             && k in claims && k in m' && m'[k] == claims[k]
    requires forall a :: a < k ==> (a in m' <==> a in m) && (a in m ==> m'[a] == m[a])
    ensures Agrees(trace, m', k + 1)
  {
    hide Run;
    var claims := Run(trace, k + 1).claims;
    forall a | a < k + 1
      ensures (a in m' <==> a in claims) && (a in m' ==> m'[a] == claims[a])
    {
      if a < k {
        assert (a in m' <==> a in m) && (a in m <==> a in claims);
      }
    }
  }

  /** Where the oldest command suits, so does any later one with the same span. */
  lemma LaterSuits(trace: seq<Event>, spans: set<Span>, k: nat, c: nat, d: nat, a: nat)
    requires Monotone(trace) && RealSpans(trace) && Uses(trace, spans) && Separate(spans)
    requires Suits(trace, k, c) && Suits(trace, k, d) && c <= d && Suits(trace, a, c) && k < a
    ensures Suits(trace, a, d)
  {
    SameSpan(trace, spans, k, c, d);
    assert trace[c].at <= trace[d].at;
  }

  /** Giving an answer a command no other answer has keeps a matching one. */
  lemma Assign(trace: seq<Event>, m: map<nat, nat>, k: nat, c: nat)
    requires Matching(trace, |trace|, m) && Suits(trace, k, c)
    requires forall b :: b in m && b != k ==> m[b] != c
    ensures Matching(trace, |trace|, m[k := c])
    ensures |m[k := c]| == |m| + if k in m then 0 else 1
  {
    assert k < |trace|;
    hide Suits;
    CountAssigned(m, k, c);
  }

  lemma CountAssigned(m: map<nat, nat>, k: nat, c: nat)
    ensures |m[k := c]| == |m| + if k in m then 0 else 1
  {
    assert m[k := c].Keys == m.Keys + {k};
    KeysCount(m);
    KeysCount(m[k := c]);
  }

  lemma Unassign(trace: seq<Event>, m: map<nat, nat>, k: nat)
    requires Matching(trace, |trace|, m)
    ensures Matching(trace, |trace|, m - {k})
    ensures |m - {k}| == |m| - if k in m then 1 else 0
  {
    hide Suits;
    assert (m - {k}).Keys == m.Keys - {k};
    KeysCount(m);
    KeysCount(m - {k});
  }

  /** The exchange itself: `k` takes the oldest command `c` from the later answer `a`, which takes what `k`
    * had, if it had anything. */
  lemma Swap(trace: seq<Event>, spans: set<Span>, m: map<nat, nat>, k: nat, c: nat, a: nat)
    returns (m': map<nat, nat>)
    requires Monotone(trace) && RealSpans(trace) && Uses(trace, spans) && Separate(spans)
    requires Matching(trace, |trace|, m) && Suits(trace, k, c) && a in m && m[a] == c && k < a
    requires k in m ==> c <= m[k]
    ensures Matching(trace, |trace|, m') && |m'| == |m|
    ensures k in m' && m'[k] == c && forall b :: b < k ==> (b in m' <==> b in m) && (b in m ==> m'[b] == m[b])
  {
    hide Suits, Monotone, RealSpans, Uses, Separate;
    var m1 := m - {k};
    Unassign(trace, m, k);
    var m2: map<nat, nat>;
    if k in m {
      LaterSuits(trace, spans, k, c, m[k], a);
      Assign(trace, m1, a, m[k]);
      m2 := m1[a := m[k]];
    } else {
      Unassign(trace, m1, a);
      m2 := m1 - {a};
    }
    Assign(trace, m2, k, c);
    m' := m2[k := c];
  }

  lemma KeysCount(m: map<nat, nat>)
    ensures |m| == |m.Keys|
  {}

  /** Two commands that both cover one answer have the same span. */
  lemma SameSpan(trace: seq<Event>, spans: set<Span>, k: nat, c: nat, d: nat)
    requires RealSpans(trace) && Uses(trace, spans) && Separate(spans)
    requires Suits(trace, k, c) && Suits(trace, k, d)
    ensures Commanded(trace[c].intent) == Commanded(trace[d].intent)
  {
    var r := Answered(trace[k].intent).value.first;
    assert Commanded(trace[c].intent).value.Has(r) && Commanded(trace[d].intent).value.Has(r);
  }

  lemma AgreesThroughout(trace: seq<Event>, m: map<nat, nat>)
    requires Matching(trace, |trace|, m) && Agrees(trace, m, |trace|)
    ensures m == Run(trace, |trace|).claims
  {
    hide Run;
    RunSound(trace, |trace|);
  }

  lemma {:induction false} ExchangeAll(trace: seq<Event>, spans: set<Span>, m: map<nat, nat>, k: nat)
    requires Monotone(trace) && RealSpans(trace) && Uses(trace, spans) && Separate(spans)
    requires k <= |trace| && Matching(trace, |trace|, m) && Agrees(trace, m, k)
    ensures |m| <= |Run(trace, |trace|).claims|
    decreases |trace| - k
  {
    hide *;
    if k == |trace| {
      AgreesThroughout(trace, m);
    } else {
      var m' := Exchange(trace, spans, m, k);
      ExchangeAll(trace, spans, m', k + 1);
    }
  }

  /** Oldest-first attributes as many answers as any assignment could. */
  lemma OldestFirstOptimal(trace: seq<Event>, spans: set<Span>, m: map<nat, nat>)
    requires Monotone(trace) && RealSpans(trace) && Uses(trace, spans) && Separate(spans)
    requires Matching(trace, |trace|, m)
    ensures |m| <= |Run(trace, |trace|).claims|
  {
    ExchangeAll(trace, spans, m, 0);
  }

  /** Two spans that share a register but differ: the run on which the older one is wasted. */
  function Wasting(wide: Span, other: Span, shared: nat, only: nat): seq<Event> {
    [Sent(WriteSettings(wide.first, wide.last), 0), Sent(WriteSettings(other.first, other.last), 0),
     Heard(ReadResponse(shared), 0), Heard(ReadResponse(only), 0)]
  }

  lemma OldestFirstWastes(wide: Span, other: Span, shared: nat, only: nat)
    requires wide.Has(shared) && other.Has(shared) && wide.Has(only) && !other.Has(only)
    ensures |Run(Wasting(wide, other, shared, only), 4).claims| == 1
  {
    var t := Wasting(wide, other, shared, only);
    hide Run, Advance;
    RunOfFour(t);
    var e0, e1 := Entry(0, Command(wide, 0)), Entry(1, Command(other, 0));
    StartWasting(t, e0, e1);
    WideIsClaimed(t[2], e0, e1);
    OtherIsNot(t[3], e1, map[2 := 0]);
  }

  lemma WideIsClaimed(e: Event, e0: Entry, e1: Entry)
    requires IsAnswer(e) && e.at == 0 && e0.id == 0 && e0.command.at == 0 && e1.command.at == 0
    requires e0.command.span.Covers(Answered(e.intent).value)
    ensures Advance(e, 2, Book([e0, e1], map[], {})) == Book([e1], map[2 := 0], {})
  {
    NothingExpires(Book([e0, e1], map[], {}));
    assert Strip([e0, e1])[0] == e0.command;
    assert Without([e0, e1], 0) == [e1];
  }

  lemma OtherIsNot(e: Event, e1: Entry, claims: map<nat, nat>)
    requires IsAnswer(e) && e.at == 0 && e1.command.at == 0
    requires !e1.command.span.Covers(Answered(e.intent).value)
    ensures Advance(e, 3, Book([e1], claims, {})) == Book([e1], claims, {})
  {
    NothingExpires(Book([e1], claims, {}));
    assert Strip([e1]) == [e1.command];
    assert Position([e1.command], Answered(e.intent).value) == None;
  }

  lemma StartWasting(t: seq<Event>, e0: Entry, e1: Entry)
    requires |t| == 4 && IsCommand(t[0]) && IsCommand(t[1]) && t[0].at == t[1].at == 0
    requires e0 == Entry(0, CommandOf(t[0])) && e1 == Entry(1, CommandOf(t[1]))
    ensures Advance(t[1], 1, Advance(t[0], 0, Book([], map[], {}))) == Book([e0, e1], map[], {})
  {
    NothingExpires(Book([], map[], {}));
    NothingExpires(Book([e0], map[], {}));
    assert [] + [e0] == [e0] && [e0] + [e1] == [e0, e1];
  }

  /** While no time passes nothing expires. */
  lemma NothingExpires(b: Book)
    requires forall k :: 0 <= k < |b.queue| ==> b.queue[k].command.at == 0
    ensures Expired(b, 0) == b
  {
    AllKept(b.queue, 0);
    assert Gone(b.queue, 0) == {};
  }

  lemma RunOfFour(t: seq<Event>)
    requires |t| == 4
    ensures Run(t, 4) == Advance(t[3], 3, Advance(t[2], 2, Advance(t[1], 1, Advance(t[0], 0, Book([], map[], {})))))
  {
    hide Advance;
    assert Run(t, 0) == Book([], map[], {});
    assert Run(t, 1) == Advance(t[0], 0, Run(t, 0));
    assert Run(t, 2) == Advance(t[1], 1, Run(t, 1));
    assert Run(t, 3) == Advance(t[2], 2, Run(t, 2));
  }

  /** A run over `spans` with a matching of its answers to its commands. */
  ghost predicate Assignment(trace: seq<Event>, spans: set<Span>, m: map<nat, nat>) {
    Monotone(trace) && RealSpans(trace) && Uses(trace, spans) && Matching(trace, |trace|, m)
  }

  lemma WastingAssignment(wide: Span, other: Span, shared: nat, only: nat, spans: set<Span>)
    requires wide in spans && other in spans && wide.Has(shared) && other.Has(shared) && wide.Has(only)
    ensures Assignment(Wasting(wide, other, shared, only), spans, map[2 := 1, 3 := 0])
    ensures |map[2 := 1, 3 := 0]| == 2
  {}

  /** Two spans that overlap but differ: one of them has a register the other lacks. */
  lemma Overlap(s: Span, t: Span, r: nat) returns (wide: Span, other: Span, only: nat)
    requires s.Has(r) && t.Has(r) && s != t
    ensures {wide, other} == {s, t} && wide.Has(r) && other.Has(r) && wide.Has(only) && !other.Has(only)
  {
    if !t.Has(s.first) {
      return s, t, s.first;
    } else if !t.Has(s.last) {
      return s, t, s.last;
    } else if !s.Has(t.first) {
      return t, s, t.first;
    } else {
      return t, s, t.last;
    }
  }

  /** Oldest-first is optimal on every run over a set of spans exactly when no two of them overlap. */
  lemma OptimalExactlyWhenSeparate(spans: set<Span>)
    ensures (forall trace, m | Assignment(trace, spans, m) :: |m| <= |Run(trace, |trace|).claims|)
            <==> Separate(spans)
  {
    hide Run, Matching, Uses, RealSpans, Monotone;
    if Separate(spans) {
      forall trace, m | Assignment(trace, spans, m)
        ensures |m| <= |Run(trace, |trace|).claims|
      {
        OldestFirstOptimal(trace, spans, m);
      }
    } else {
      var s, t, r: nat :| s in spans && t in spans && s.Has(r) && t.Has(r) && s != t;
      var wide, other, only := Overlap(s, t, r);
      assert wide in {s, t} && other in {s, t};
      OldestFirstWastes(wide, other, r, only);
      WastingAssignment(wide, other, r, only, spans);
    }
  }

  // ------------------------------------------------------------------ policy

  datatype Direction = ToDevice | ToCloud
  datatype Mode = Full | Controls | Observer
  datatype Answers = All | CloudOnly
  datatype Refusal = ObserverMode | ConfigWrite | UnrecognisedFrame | NotCloudOriginated
  datatype Decision = Allow | Refuse(refusal: Refusal)
  datatype Policy = Policy(mode: Mode, answers: Answers, cloudMayPairAccessories: bool)

  function ToDeviceDecision(p: Policy, intent: Intent): Decision {
    match p.mode
    case Full => Allow
    case Observer => Refuse(ObserverMode)
    case Controls =>
      match intent
      case WriteSettings(_, _) => Allow
      case ReadRequest(_) => Allow
      case WriteConfig(register) =>
        if p.cloudMayPairAccessories && register == ACCESSORY_LIST then Allow else Refuse(ConfigWrite)
      case _ => Refuse(UnrecognisedFrame)
  }

  function ToCloudDecision(p: Policy, intent: Intent, who: Originator): Decision {
    match p.answers
    case All => Allow
    case CloudOnly => if Answered(intent).Some? && who == Unknown then Refuse(NotCloudOriginated) else Allow
  }

  function Evaluate(p: Policy, direction: Direction, intent: Intent, who: Originator): Decision {
    match direction
    case ToDevice => ToDeviceDecision(p, intent)
    case ToCloud => ToCloudDecision(p, intent, who)
  }

  function Authority(m: Mode): nat { match m case Observer => 0 case Controls => 1 case Full => 2 }

  /** The modes are ordered by authority: what one carries, every mode with more carries too; and opening the
    * accessory list opens that one register of that one mode. */
  lemma ModesNest(p: Policy, q: Policy, direction: Direction, intent: Intent, who: Originator)
    requires p.answers == q.answers
    ensures var (one, other) := (Evaluate(p, direction, intent, who), Evaluate(q, direction, intent, who));
            var samePairing := p.cloudMayPairAccessories == q.cloudMayPairAccessories;
            && (Authority(p.mode) <= Authority(q.mode) && samePairing && one == Allow ==> other == Allow)
            && (p.mode == q.mode && !samePairing ==>
                  (one != other <==>
                    p.mode == Controls && direction == ToDevice && intent == WriteConfig(ACCESSORY_LIST)))
  {}

  // ------------------------------------------------------------------ in the frames' own terms

  /** Which answer answers which command: a write is acknowledged, and a read answered, within the registers the
    * command was for; a config write and everything else is answered by nothing. */
  predicate AnsweredBy(command: Intent, answer: Intent) {
    match (command, answer)
    case (WriteSettings(s, e), WriteAck(a, b)) => s <= a && b <= e
    case (WriteSettings(s, e), ReadResponse(r)) => s <= r <= e
    case (ReadRequest(r), ReadResponse(q)) => r == q
    case (ReadRequest(r), WriteAck(a, b)) => r <= a && b <= r
    case _ => false
  }

  /** Frame `n` answers the command of the earlier frame `c`, less than fifteen seconds later. */
  predicate Timely(trace: seq<Event>, n: nat, c: nat) {
    && c < n < |trace|
    && trace[c].Sent? && trace[n].Heard?
    && AnsweredBy(trace[c].intent, trace[n].intent)
    && trace[n].at - trace[c].at < 15000
  }

  /** The first command from `c` on that frame `n` answers in time and no earlier frame was given. */
  ghost function FirstFree(trace: seq<Event>, n: nat, c: nat): (r: Option<nat>)
    requires c <= n
    ensures r.Some? ==> c <= r.value < n && Timely(trace, n, r.value) && Free(trace, n, r.value)
    ensures forall d :: c <= d < n && Timely(trace, n, d) && Free(trace, n, d) ==> r.Some? && r.value <= d
    decreases n, 1, n - c
  {
    if c == n then None
    else if Timely(trace, n, c) && Free(trace, n, c) then Some(c)
    else FirstFree(trace, n, c + 1)
  }

  ghost predicate Free(trace: seq<Event>, n: nat, c: nat)
    decreases n, 0, 0
  {
    forall m: nat :: m < n ==> Claimant(trace, m) != Some(c)
  }

  /** The command a frame is attributed to, told from the frames alone. */
  ghost function Claimant(trace: seq<Event>, n: nat): Option<nat>
    decreases n, 2, 0
  {
    FirstFree(trace, n, 0)
  }

  lemma SuitsIsTimely(trace: seq<Event>, n: nat, c: nat)
    ensures Suits(trace, n, c) <==> Timely(trace, n, c)
  {}

  ghost predicate ClaimsTold(trace: seq<Event>, n: nat, claims: map<nat, nat>) {
    forall m: nat :: Lookup(claims, m) == if m < n then Claimant(trace, m) else None
  }

  /** Over every run whose times do not decrease, the relay attributes each frame to the command that the frames
    * say: the oldest one sent less than fifteen seconds before that it answers and that no frame was given. */
  lemma {:induction false} AttributedExactly(trace: seq<Event>, n: nat)
    requires Monotone(trace) && n <= |trace|
    ensures ClaimsTold(trace, n, Run(trace, n).claims)
  {
    if n == 0 {
      NothingClaimed(trace);
    } else {
      hide Run, Monotone, Claimant;
      AttributedExactly(trace, n - 1);
      ClaimantNext(trace, n - 1);
    }
  }

  lemma NothingClaimed(trace: seq<Event>)
    ensures Run(trace, 0).claims == map[]
  {}

  lemma WaitingIsFree(trace: seq<Event>, n: nat, c: nat)
    requires n < |trace| && ClaimsTold(trace, n, Run(trace, n).claims)
    ensures Waiting(trace, n, c) <==> Timely(trace, n, c) && Free(trace, n, c)
  {
    var claims := Run(trace, n).claims;
    SuitsIsTimely(trace, n, c);
    hide Run, Suits, Timely, Claimant;
    if c in claims.Values {
      var m :| m in claims && claims[m] == c;
      assert Lookup(claims, m) == Some(c) && Claimant(trace, m) == Some(c);
    }
    if m: nat :| m < n && Claimant(trace, m) == Some(c) {
      assert Lookup(claims, m) == Some(c);
    }
  }

  lemma ClaimantIs(trace: seq<Event>, n: nat)
    requires Monotone(trace) && n < |trace| && ClaimsTold(trace, n, Run(trace, n).claims)
    ensures Lookup(Run(trace, n + 1).claims, n) == Claimant(trace, n)
  {
    var claims := Run(trace, n + 1).claims;
    var c := FirstFree(trace, n, 0);
    assert c == Claimant(trace, n);
    hide Monotone, Run, Timely, Free, Waiting, Claimant, FirstFree;
    ClaimsOldest(trace, n);
    if n in claims {
      WaitingIsFree(trace, n, claims[n]);
      TimelyBefore(trace, n, claims[n]);
    }
    if c.Some? {
      WaitingIsFree(trace, n, c.value);
    }
  }

  lemma ToldNext(trace: seq<Event>, n: nat, before: map<nat, nat>, claims: map<nat, nat>)
    requires ClaimsTold(trace, n, before) && Lookup(claims, n) == Claimant(trace, n)
    requires claims == if n in claims then before[n := claims[n]] else before
    ensures ClaimsTold(trace, n + 1, claims)
  {
    hide Claimant;
    forall m: nat
      ensures Lookup(claims, m) == if m < n + 1 then Claimant(trace, m) else None
    {
      assert Lookup(before, m) == if m < n then Claimant(trace, m) else None;
    }
  }

  lemma ClaimantNext(trace: seq<Event>, n: nat)
    requires Monotone(trace) && n < |trace| && ClaimsTold(trace, n, Run(trace, n).claims)
    ensures ClaimsTold(trace, n + 1, Run(trace, n + 1).claims)
  {
    hide Monotone, Run, Claimant, Waiting, ClaimsTold;
    ClaimantIs(trace, n);
    ClaimsOldest(trace, n);
    ToldNext(trace, n, Run(trace, n).claims, Run(trace, n + 1).claims);
  }

  lemma TimelyBefore(trace: seq<Event>, n: nat, c: nat)
    requires Timely(trace, n, c)
    ensures c < n
  {}

  /** What the relay carries up: everything that answers no command; under `All`, everything; and otherwise an answer
    * exactly when the frames attribute it to a command of the cloud's. */
  lemma ForwardedExactly(p: Policy, trace: seq<Event>, n: nat)
    requires Monotone(trace) && n < |trace| && trace[n].Heard?
    ensures Evaluate(p, ToCloud, trace[n].intent, OriginatorOf(trace, n)) ==
            if p.answers.All? || !(trace[n].intent.ReadResponse? || trace[n].intent.WriteAck?)
               || Claimant(trace, n).Some?
            then Allow else Refuse(NotCloudOriginated)
  {
    hide Run, Monotone, Claimant;
    AttributedExactly(trace, n + 1);
    assert Lookup(Run(trace, n + 1).claims, n) == Claimant(trace, n);
  }

  /** What the relay carries down: everything in full mode, nothing from an observer, and otherwise settings writes,
    * reads, and a write of register 122 if pairing is open. */
  lemma CarriedDownExactly(p: Policy, intent: Intent, who: Originator)
    ensures Evaluate(p, ToDevice, intent, who) ==
            if p.mode.Full? then Allow
            else if p.mode.Observer? then Refuse(ObserverMode)
            else if intent.WriteSettings? || intent.ReadRequest? then Allow
            else if !intent.WriteConfig? then Refuse(UnrecognisedFrame)
            else if intent.register == 122 && p.cloudMayPairAccessories then Allow
            else Refuse(ConfigWrite)
  {}

  /** A cloud's read and its answer in the same second: the answer is the cloud's. */
  lemma ReadIsAnswered(p: Policy)
    ensures var t := [Sent(ReadRequest(5), 0), Heard(ReadResponse(5), 600)];
            Claimant(t, 1) == Some(0) && Evaluate(p, ToCloud, t[1].intent, OriginatorOf(t, 1)) == Allow
  {
    var t := [Sent(ReadRequest(5), 0), Heard(ReadResponse(5), 600)];
    assert Timely(t, 1, 0);
    assert Claimant(t, 0) == None;
    assert Free(t, 1, 0);
    ForwardedExactly(p, t, 1);
  }
}
