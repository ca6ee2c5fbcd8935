/** Which controls and readings currently have an honest value (src/homeassistant/publisher.rs:373-420, 858-922). */
module Gates {
  import opened Prelude
  import opened Entities
  import opened Frames
  import opened StatePayload
  import opened Publishing

  /** A value that arrived, and where: the two kinds of gate listen to different ones. */
  datatype Fact = OfSetting(name: string, raw: nat) | OfReading(name: string, raw: nat)

  type Say = (string, bool)

  /** What one value makes of one gate, or nothing if it does not decide it. */
  function Decides(gate: Option<Gate>, f: Fact): Option<bool> {
    match gate
    case Some(SettingIsNot(name, values)) =>
      if f.OfSetting? && f.name == name then Some(f.raw !in values) else None
    case Some(ReadingIsSet(name)) =>
      if f.OfReading? && f.name == name then Some(f.raw != 0) else None
    case None => None
  }

  function SaysOf(e: Entity, f: Fact): seq<Say> {
    match Decides(e.gate, f)
    case None => []
    case Some(open) => [(e.key, open)]
  }

  /** What one value decides, entity by entity. */
  function FactSays(es: seq<Entity>, f: Fact): seq<Say> {
    if es == [] then [] else FactSays(es[..|es| - 1], f) + SaysOf(es[|es| - 1], f)
  }

  /** What the values that arrived decide, in the order they arrived. */
  function Says(es: seq<Entity>, facts: seq<Fact>): seq<Say> {
    if facts == [] then [] else Says(es, facts[..|facts| - 1]) + FactSays(es, facts[|facts| - 1])
  }

  function Facts(settings: seq<Stored>, view: Option<View>): seq<Fact> {
    seq(|settings|, i requires 0 <= i < |settings| => OfSetting(settings[i].name, settings[i].raw))
    + if view == None then [] else
        seq(|view.value|, i requires 0 <= i < |view.value| => OfReading(view.value[i].name, view.value[i].raw))
  }

  // ------------------------------------------------------------------ the index

  /** Whether a field is at times absent from its object, and so has a topic of its own. */
  predicate PublishedAlone(e: Entity) {
    e.shape.TimeOfDay? || e.shape.Weekdays? || e.key == "last_update" || e.key == "firmware_version"
  }

  predicate Unshared(e: Entity) { e.source == Some(FromSettings) && PublishedAlone(e) }

  /** The settings with topics of their own; for each setting, the keys it gates and the values that close them; and
    * for each reading, the keys it gates. */
  datatype Indexed = Indexed(
    unshared: set<string>,
    bySetting: map<string, seq<(string, seq<nat>)>>,
    byReading: map<string, seq<string>>)

  function Pushed<T>(m: map<string, seq<T>>, k: string, v: T): map<string, seq<T>> {
    m[k := (if k in m then m[k] else []) + [v]]
  }

  function Indexing(was: Indexed, e: Entity): Indexed {
    var ix := if Unshared(e) then was.(unshared := was.unshared + {e.key}) else was;
    match e.gate
    case Some(SettingIsNot(name, values)) => ix.(bySetting := Pushed(ix.bySetting, name, (e.key, values)))
    case Some(ReadingIsSet(name)) => ix.(byReading := Pushed(ix.byReading, name, e.key))
    case None => ix
  }

  function IndexOf(es: seq<Entity>): Indexed {
    if es == [] then Indexed({}, map[], map[]) else Indexing(IndexOf(es[..|es| - 1]), es[|es| - 1])
  }

  method BuildIndex(es: seq<Entity>) returns (ix: Indexed)
    ensures ix == IndexOf(es)
  {
    ix := Indexed({}, map[], map[]);
    for n := 0 to |es|
      invariant ix == IndexOf(es[..n])
    {
      assert es[..n + 1][..n] == es[..n];
      if Unshared(es[n]) {
        ix := ix.(unshared := ix.unshared + {es[n].key});
      }
      match es[n].gate
      case Some(SettingIsNot(name, values)) =>
        var sofar := if name in ix.bySetting then ix.bySetting[name] else [];
        ix := ix.(bySetting := ix.bySetting[name := sofar + [(es[n].key, values)]]);
      case Some(ReadingIsSet(name)) =>
        var sofar := if name in ix.byReading then ix.byReading[name] else [];
        ix := ix.(byReading := ix.byReading[name := sofar + [es[n].key]]);
      case None =>
    }
    assert es[..|es|] == es;
  }

  /** What the index says a value decides. */
  function Dependents(ix: Indexed, f: Fact): seq<Say> {
    match f
    case OfSetting(name, raw) =>
      if name !in ix.bySetting then []
      else
        var found := ix.bySetting[name];
        seq(|found|, i requires 0 <= i < |found| => (found[i].0, raw !in found[i].1))
    case OfReading(name, raw) =>
      if name !in ix.byReading then []
      else
        var found := ix.byReading[name];
        seq(|found|, i requires 0 <= i < |found| => (found[i], raw != 0))
  }

  lemma IndexingAdds(ix: Indexed, e: Entity, f: Fact)
    ensures Dependents(Indexing(ix, e), f) == Dependents(ix, f) + SaysOf(e, f)
  {
    hide Unshared;
    if Decides(e.gate, f) == None {
      assert Dependents(Indexing(ix, e), f) == Dependents(ix, f);
    } else {
      var was, now := Dependents(ix, f), Dependents(Indexing(ix, e), f);
      assert |now| == |was| + 1 && now[|was|] == (e.key, Decides(e.gate, f).value);
      assert forall i :: 0 <= i < |was| ==> now[i] == was[i];
    }
  }

  lemma {:induction false} UnsharedAgrees(es: seq<Entity>, key: string)
    ensures key in IndexOf(es).unshared <==> exists e :: e in es && Unshared(e) && e.key == key
  {
    if es != [] {
      hide Unshared;
      UnsharedAgrees(es[..|es| - 1], key);
      assert forall e :: e in es <==> e in es[..|es| - 1] || e == es[|es| - 1];
    }
  }

  /** Looking a value up in the index is asking every entity about it. */
  lemma {:induction false} IndexAgrees(es: seq<Entity>, f: Fact)
    ensures Dependents(IndexOf(es), f) == FactSays(es, f)
  {
    if es != [] {
      IndexAgrees(es[..|es| - 1], f);
      IndexingAdds(IndexOf(es[..|es| - 1]), es[|es| - 1], f);
    }
  }

  // ------------------------------------------------------------------ saying only what changed

  type Record = map<string, bool>

  function Saying(gates: Record, say: Say): (Record, seq<Publication>) {
    if Lookup(gates, say.0) == Some(say.1) then (gates, [])
    else (gates[say.0 := say.1], [Retained(GateTopic(say.0), Some(Online(say.1)))])
  }

  /** What is recorded, and what is published, after being told some answers in order. */
  function Tell(gates: Record, says: seq<Say>): (Record, seq<Publication>) {
    if says == [] then (gates, [])
    else
      var (g, ps) := Tell(gates, says[..|says| - 1]);
      var (h, qs) := Saying(g, says[|says| - 1]);
      (h, ps + qs)
  }

  /** The answers about one key. */
  function About(says: seq<Say>, key: string): seq<bool> {
    if says == [] then []
    else
      var say := says[|says| - 1];
      About(says[..|says| - 1], key) + if say.0 == key then [say.1] else []
  }

  lemma {:induction false} AboutJoin(a: seq<Say>, c: seq<Say>, key: string)
    ensures About(a + c, key) == About(a, key) + About(c, key)
  {
    if c == [] {
      assert a + c == a;
    } else {
      assert (a + c)[..|a| + |c| - 1] == a + c[..|c| - 1];
      AboutJoin(a, c[..|c| - 1], key);
    }
  }

  /** What asking one gate about every value that arrived, one after the other, would answer. */
  function Answers(gate: Option<Gate>, facts: seq<Fact>): seq<bool> {
    if facts == [] then []
    else
      Answers(gate, facts[..|facts| - 1])
      + match Decides(gate, facts[|facts| - 1]) { case None => [] case Some(open) => [open] }
  }

  function LastOf(before: Option<bool>, answers: seq<bool>): Option<bool> {
    if answers == [] then before else Some(answers[|answers| - 1])
  }

  lemma {:induction false} NothingSaid(es: seq<Entity>, f: Fact, key: string)
    requires forall e :: e in es && e.gate.Some? ==> e.key != key
    ensures About(FactSays(es, f), key) == []
  {
    if es != [] {
      var n := |es| - 1;
      NothingSaid(es[..n], f, key);
      AboutJoin(FactSays(es[..n], f), SaysOf(es[n], f), key);
    }
  }

  lemma AboutOne(e: Entity, f: Fact, key: string)
    ensures About(SaysOf(e, f), key) ==
            if e.key == key && Decides(e.gate, f).Some? then [Decides(e.gate, f).value] else []
  {
    hide Decides;
    if Decides(e.gate, f).Some? {
      assert SaysOf(e, f)[..0] == [];
    }
  }

  lemma {:induction false} SaidOf(es: seq<Entity>, f: Fact, i: nat)
    requires DistinctKeys(es) && i < |es|
    ensures About(FactSays(es, f), es[i].key) ==
            match Decides(es[i].gate, f) { case None => [] case Some(open) => [open] }
  {
    var n, key := |es| - 1, es[i].key;
    assert FactSays(es, f) == FactSays(es[..n], f) + SaysOf(es[n], f);
    assert i < n ==> es[n].key != key;
    assert i == n ==> forall e :: e in es[..n] ==> e.key != key;
    assert DistinctKeys(es[..n]);
    hide DistinctKeys, Decides, SaysOf, FactSays, About;
    AboutJoin(FactSays(es[..n], f), SaysOf(es[n], f), key);
    AboutOne(es[n], f, key);
    if i < n {
      SaidOf(es[..n], f, i);
    } else {
      NothingSaid(es[..n], f, key);
    }
  }

  /** Walking the values inside out asks each entity's gate the same questions in the same order. */
  lemma {:induction false} SaysAre(es: seq<Entity>, facts: seq<Fact>, i: nat)
    requires DistinctKeys(es) && i < |es|
    ensures About(Says(es, facts), es[i].key) == Answers(es[i].gate, facts)
  {
    if facts != [] {
      var n := |facts| - 1;
      hide DistinctKeys, Decides, About;
      SaysAre(es, facts[..n], i);
      SaidOf(es, facts[n], i);
      AboutJoin(Says(es, facts[..n]), FactSays(es, facts[n]), es[i].key);
    }
  }

  lemma {:induction false} SaysNothing(es: seq<Entity>, facts: seq<Fact>, key: string)
    requires forall e :: e in es && e.gate.Some? ==> e.key != key
    ensures About(Says(es, facts), key) == []
  {
    if facts != [] {
      var n := |facts| - 1;
      SaysNothing(es, facts[..n], key);
      NothingSaid(es, facts[n], key);
      AboutJoin(Says(es, facts[..n]), FactSays(es, facts[n]), key);
    }
  }

  /** The raw value of the last setting of a name. */
  function RawStored(settings: seq<Stored>, name: string): Option<nat> {
    if settings == [] then None
    else if settings[|settings| - 1].name == name then Some(settings[|settings| - 1].raw)
    else RawStored(settings[..|settings| - 1], name)
  }

  function RawRead(view: View, name: string): Option<nat> {
    if view == [] then None
    else if view[|view| - 1].name == name then Some(view[|view| - 1].raw)
    else RawRead(view[..|view| - 1], name)
  }

  lemma {:induction false} AnswersJoin(gate: Option<Gate>, a: seq<Fact>, c: seq<Fact>)
    ensures Answers(gate, a + c) == Answers(gate, a) + Answers(gate, c)
  {
    hide Decides;
    if c == [] {
      assert a + c == a;
    } else {
      assert (a + c)[..|a| + |c| - 1] == a + c[..|c| - 1];
      AnswersJoin(gate, a, c[..|c| - 1]);
    }
  }

  /** Whether a gate is open, told from the last answer for its setting or the last register of its reading. */
  function OpenNow(gate: Gate, settings: seq<Stored>, view: View): Option<bool> {
    match gate
    case SettingIsNot(name, values) =>
      if RawStored(settings, name) == None then None else Some(RawStored(settings, name).value !in values)
    case ReadingIsSet(name) =>
      if RawRead(view, name) == None then None else Some(RawRead(view, name).value != 0)
  }

  lemma {:induction false} StoredAnswers(gate: Gate, settings: seq<Stored>)
    ensures LastOf(None, Answers(Some(gate), Facts(settings, None))) == OpenNow(gate, settings, [])
  {
    if settings != [] {
      var n := |settings| - 1;
      StoredAnswers(gate, settings[..n]);
      assert Facts(settings, None)[..n] == Facts(settings[..n], None);
    }
  }

  lemma {:induction false} ReadAnswers(gate: Gate, view: View)
    ensures LastOf(None, Answers(Some(gate), Facts([], Some(view)))) == OpenNow(gate, [], view)
  {
    if view != [] {
      var n := |view| - 1;
      ReadAnswers(gate, view[..n]);
      assert Facts([], Some(view))[..n] == Facts([], Some(view[..n]));
    }
  }

  /** A gate on a setting is open exactly while the last answer for that setting is none of the values that close it; a
    * gate on a reading, exactly while that reading's last register is not nought; and neither is anything before. */
  lemma OpenExactly(gate: Gate, settings: seq<Stored>, view: Option<View>)
    ensures LastOf(None, Answers(Some(gate), Facts(settings, view))) ==
            OpenNow(gate, settings, if view == None then [] else view.value)
  {
    var read := if view == None then [] else view.value;
    assert Facts(settings, view) == Facts(settings, None) + Facts([], Some(read));
    AnswersJoin(Some(gate), Facts(settings, None), Facts([], Some(read)));
    StoredAnswers(gate, settings);
    ReadAnswers(gate, read);
  }

  /** Which settings have a topic of their own. */
  lemma UnsharedIs(e: Entity)
    ensures Unshared(e) <==>
            e.source == Some(FromSettings) &&
            (e.shape == TimeOfDay || e.shape == Weekdays || e.key == "last_update" || e.key == "firmware_version")
  {}

  // ------------------------------------------------------------------ what is recorded and published

  /** The answers published about one key. */
  function Heard(ps: seq<Publication>, key: string): seq<bool> {
    if ps == [] then []
    else
      var p := ps[|ps| - 1];
      Heard(ps[..|ps| - 1], key)
      + match p
        case Retained(GateTopic(k), Some(Online(open))) => if k == key then [open] else []
        case _ => []
  }

  /** Some answers without those that repeat the one before them. */
  function News(before: Option<bool>, answers: seq<bool>): seq<bool> {
    if answers == [] then []
    else
      var n := |answers| - 1;
      News(before, answers[..n]) + if LastOf(before, answers[..n]) == Some(answers[n]) then [] else [answers[n]]
  }

  /** For every key, the record ends at the last answer, and what is published is what was news. */
  lemma {:induction false} Told(gates: Record, says: seq<Say>, key: string)
    ensures var (g, ps) := Tell(gates, says);
            && Lookup(g, key) == LastOf(Lookup(gates, key), About(says, key))
            && Heard(ps, key) == News(Lookup(gates, key), About(says, key))
  {
    if says != [] {
      var before, say := says[..|says| - 1], says[|says| - 1];
      assert Tell(gates, says).0 == Saying(Tell(gates, before).0, say).0;
      assert Tell(gates, says).1 == Tell(gates, before).1 + Saying(Tell(gates, before).0, say).1;
      Told(gates, before, key);
      var (g, ps) := Tell(gates, before);
      SayingSays(g, ps, say, key);
      var asked := About(before, key);
      hide Saying, Tell, Lookup, Published;
      if say.0 == key {
        assert (asked + [say.1])[..|asked|] == asked;
      } else {
        assert asked + [] == asked;
      }
    }
  }

  lemma SayingSays(g: Record, ps: seq<Publication>, say: Say, key: string)
    ensures var (h, qs) := Saying(g, say);
            && Heard(ps + qs, key) ==
               Heard(ps, key) + (if say.0 == key && Lookup(g, key) != Some(say.1) then [say.1] else [])
            && Lookup(h, key) == if say.0 == key then Some(say.1) else Lookup(g, key)
  {
    var (h, qs) := Saying(g, say);
    if qs == [] {
      assert ps + qs == ps;
    } else {
      assert (ps + qs)[..|ps|] == ps;
    }
  }

  /** News never repeats itself, and ends where the answers do. */
  lemma {:induction false} NewsIsNews(before: Option<bool>, answers: seq<bool>)
    ensures var news := News(before, answers);
            && (news != [] ==> before != Some(news[0]))
            && (forall i :: 0 < i < |news| ==> news[i] != news[i - 1])
            && LastOf(before, news) == LastOf(before, answers)
  {
    if answers != [] {
      NewsIsNews(before, answers[..|answers| - 1]);
    }
  }

  /** A pass leaves each entity's record at what its own gate makes of the last value that decides it, and
    * publishes exactly the answers that changed it; an undecided entity keeps its record and is not mentioned. */
  lemma PassIsAsking(es: seq<Entity>, facts: seq<Fact>, gates: Record, e: Entity)
    requires DistinctKeys(es) && e in es
    ensures var (g, ps) := Tell(gates, Says(es, facts));
            && Lookup(g, e.key) == LastOf(Lookup(gates, e.key), Answers(e.gate, facts))
            && Heard(ps, e.key) == News(Lookup(gates, e.key), Answers(e.gate, facts))
  {
    hide DistinctKeys, Says, Tell, About;
    var i :| 0 <= i < |es| && es[i] == e;
    SaysAre(es, facts, i);
    Told(gates, Says(es, facts), e.key);
  }

  /** The gate of the entity of a key, if there is one and it has one. */
  function GateOf(es: seq<Entity>, key: string): Option<Gate> {
    if es == [] then None else if es[0].key == key then es[0].gate else GateOf(es[1..], key)
  }

  lemma {:induction false} GateOfIs(es: seq<Entity>, key: string)
    requires DistinctKeys(es)
    ensures forall e :: e in es && e.key == key ==> GateOf(es, key) == e.gate
    ensures GateOf(es, key).Some? ==> exists e :: e in es && e.key == key && e.gate == GateOf(es, key)
  {
    if es != [] {
      GateOfIs(es[1..], key);
    }
  }

  lemma {:induction false} UngatedAnswersNothing(facts: seq<Fact>)
    ensures Answers(None, facts) == []
  {
    if facts != [] {
      UngatedAnswersNothing(facts[..|facts| - 1]);
    }
  }

  /** The same for any key, whether or not the catalogue has an entity of that key, or a gate on it. */
  lemma PassAnswers(es: seq<Entity>, facts: seq<Fact>, gates: Record, key: string)
    requires DistinctKeys(es)
    ensures var (g, ps) := Tell(gates, Says(es, facts));
            && Lookup(g, key) == LastOf(Lookup(gates, key), Answers(GateOf(es, key), facts))
            && Heard(ps, key) == News(Lookup(gates, key), Answers(GateOf(es, key), facts))
  {
    hide Says, Tell, Answers, Heard;
    GateOfIs(es, key);
    if GateOf(es, key).Some? {
      hide DistinctKeys;
      var e :| e in es && e.key == key && e.gate == GateOf(es, key);
      PassIsAsking(es, facts, gates, e);
    } else {
      UngatedAnswersNothing(facts);
      OthersUntouched(es, facts, gates, key);
    }
  }

  /** Nothing but the catalogue's gated entities is recorded or mentioned. */
  lemma OthersUntouched(es: seq<Entity>, facts: seq<Fact>, gates: Record, key: string)
    requires forall e :: e in es && e.gate.Some? ==> e.key != key
    ensures var (g, ps) := Tell(gates, Says(es, facts));
            Lookup(g, key) == Lookup(gates, key) && Heard(ps, key) == []
  {
    hide Says, Tell, About;
    SaysNothing(es, facts, key);
    Told(gates, Says(es, facts), key);
  }

  /** Where the device names each value once, an entity gets one message if its answer is news, and none if it
    * is not or if nothing has decided it. */
  lemma OneValueOneMessage(es: seq<Entity>, facts: seq<Fact>, gates: Record, e: Entity, k: nat)
    requires DistinctKeys(es) && e in es && k < |facts|
    requires forall i :: 0 <= i < |facts| && i != k ==> Decides(e.gate, facts[i]) == None
    ensures var (g, ps) := Tell(gates, Says(es, facts));
            match Decides(e.gate, facts[k])
            case None => Heard(ps, e.key) == [] && Lookup(g, e.key) == Lookup(gates, e.key)
            case Some(open) =>
              && Lookup(g, e.key) == Some(open)
              && Heard(ps, e.key) == if Lookup(gates, e.key) == Some(open) then [] else [open]
  {
    hide DistinctKeys, Says, Tell, Decides;
    PassIsAsking(es, facts, gates, e);
    AnsweredOnce(e.gate, facts, k);
    if Decides(e.gate, facts[k]).Some? {
      assert [Decides(e.gate, facts[k]).value][..0] == [];
    }
  }

  lemma {:induction false} AnsweredOnce(gate: Option<Gate>, facts: seq<Fact>, k: nat)
    requires forall i :: 0 <= i < |facts| && i != k ==> Decides(gate, facts[i]) == None
    ensures Answers(gate, facts) ==
            if k < |facts| && Decides(gate, facts[k]).Some? then [Decides(gate, facts[k]).value] else []
  {
    hide Decides;
    if facts != [] {
      AnsweredOnce(gate, facts[..|facts| - 1], k);
    }
  }

  lemma {:induction false} HeardNothing(ps: seq<Publication>, key: string)
    requires forall p :: p in ps ==> !On(p, GateTopic(key))
    ensures Heard(ps, key) == []
  {
    if ps != [] {
      assert !On(ps[|ps| - 1], GateTopic(key));
      HeardNothing(ps[..|ps| - 1], key);
    }
  }

  lemma {:induction false} HeardJoin(a: seq<Publication>, c: seq<Publication>, key: string)
    ensures Heard(a + c, key) == Heard(a, key) + Heard(c, key)
  {
    if c == [] {
      assert a + c == a;
    } else {
      var n := |c| - 1;
      HeardJoin(a, c[..n], key);
      assert (a + c)[..|a| + n] == a + c[..n];
    }
  }

  /** What is said on gate topics is an answer. */
  predicate GatesAnswer(ps: seq<Publication>) {
    forall p :: p in ps && p.Retained? && p.topic.GateTopic? ==> p.content.Some? && p.content.value.Online?
  }

  lemma {:induction false} TellsGates(gates: Record, says: seq<Say>)
    ensures GatesAnswer(Tell(gates, says).1)
    ensures forall p :: p in Tell(gates, says).1 ==> p.Retained? && p.topic.GateTopic?
  {
    if says != [] {
      TellsGates(gates, says[..|says| - 1]);
    }
  }

  /** What the broker ends up holding about a key, when the queue takes everything. */
  lemma {:induction false} LatestPublished(ps: seq<Publication>, taken: nat -> bool, key: string)
    requires GatesAnswer(ps) && Accepts(taken)
    ensures Latest(ps, taken, GateTopic(key)) ==
            match LastOf(None, Heard(ps, key)) { case None => None case Some(open) => Some(Some(Online(open))) }
  {
    if ps != [] {
      assert ps[|ps| - 1] in ps;
      LatestPublished(ps[..|ps| - 1], taken, key);
    }
  }
}
