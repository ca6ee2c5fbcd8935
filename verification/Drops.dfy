/** What a full publishing queue costs, and what a new connection makes good
  * (src/homeassistant/publisher.rs:508-526, 609-666, src/homeassistant/broker.rs:293-305). */
module Drops {
  import opened Prelude
  import opened Entities
  import opened Publishing
  import opened Gates
  import opened Discovery
  import opened DeviceLink
  import opened LinkRuns

  /** What comes after the announcement does not touch its topics, whatever is taken of it. */
  lemma {:induction false} SuffixApart(b: Broker, a: seq<Publication>, c: seq<Publication>, taken: nat -> bool,
                                       p: Place)
    requires forall q :: q in c ==> !On(q, DiscoveryTopic(p))
    ensures Lookup(Deliver(b, a + c, taken), DiscoveryTopic(p)) == Lookup(Deliver(b, a, taken), DiscoveryTopic(p))
  {
    if c == [] {
      assert a + c == a;
    } else {
      var n := |c| - 1;
      SuffixApart(b, a, c[..n], taken, p);
      assert (a + c)[..|a| + n] == a + c[..n];
      assert c[n] in c;
    }
  }

  lemma ShowsAfter(driver: Driver, w: World, h: Happening, es: seq<Entity>, block: DeviceBlock)
    requires Wellformed(driver)
    ensures var told := Deliver(Losing(w.broker, h.event), Reaction(driver, w, h.event, h.now).discovery, h.taken);
            Shows(After(driver, w, h).broker, es, block) <==> Shows(told, es, block)
  {
    hide Reaction, After, Deliver, Wanted;
    var out := Reaction(driver, w, h.event, h.now);
    AfterIs(driver, w, h);
    ReactionKinds(driver, w, h.event, h.now);
    assert out.Said() == out.discovery + (out.presence + out.rest);
    forall p: Place
      ensures Lookup(After(driver, w, h).broker, DiscoveryTopic(p)) ==
              Lookup(Deliver(Losing(w.broker, h.event), out.discovery, h.taken), DiscoveryTopic(p))
    {
      SuffixApart(Losing(w.broker, h.event), out.discovery, out.presence + out.rest, h.taken, p);
    }
  }

  /** After any run at all, a new connection leaves the broker showing exactly the current catalogue, exactly when
    * every discovery message the queue then refuses is one the broker can spare. */
  lemma ConnectionMakesGoodExactly(driver: Driver, w: World, h: Happening)
    requires Wellformed(driver) && NamedApart(driver) && Within(w.broker, driver, None)
    requires h.event.Connected? && h.event.generation > 0
    ensures var ps := Reaction(driver, w, h.event, h.now).discovery;
            Current(driver, After(driver, w, h)) <==>
            AllSpared(w.broker, ps, h.taken)
  {
    var c := Wished(w.options, w.session);
    hide Reaction, After, Deliver, EntitiesOf, Pass, Shows, Within, NamedApart, IndexOf, AllSpared;
    AnnouncementOf(driver, w, h);
    AfterIs(driver, w, h);
    KeysDistinct(c, driver);
    PassShowsExactly(driver, w.broker, None, EntitiesOf(c, driver), w.session.block, h.taken);
    ShowsAfter(driver, w, h, EntitiesOf(c, driver), w.session.block);
  }

  /** Until a connection or a change of what there is to describe, what a pass failed to say stays unsaid: the
    * link takes it for announced, and announcing again says nothing. */
  lemma UnsaidStaysUnsaid(driver: Driver, w: World, h: Happening)
    requires Wellformed(driver) && Describes(w.link.announced, w.session.block, Wished(w.options, w.session))
    requires !h.event.Connected? && !h.event.Started? && !h.event.SessionMoved? && !h.event.Forgot?
    ensures Reaction(driver, w, h.event, h.now).discovery == []
    ensures Current(driver, After(driver, w, h)) <==> Current(driver, w)
  {
    hide Reaction, After, EntitiesOf, Pass, Shows, IndexOf;
    AnnouncementOf(driver, w, h);
    AfterIs(driver, w, h);
    ShowsAfter(driver, w, h, EntitiesOf(Wished(w.options, w.session), driver), w.session.block);
    assert Deliver(w.broker, [], h.taken) == w.broker;
  }

  // ------------------------------------------------------------------ a run on which one message is refused

  lemma WithdrawnApart(driver: Driver, es: seq<Entity>, p: Place)
    requires Wellformed(driver) && Kept(es, p)
    ensures forall q :: q in Withdrawals(Withdrawn(driver, None, es)) ==> !On(q, DiscoveryTopic(p))
  {
    SweptExactly(Everything(driver), es, Retired, p);
    hide Swept, Gone, Everything, Kept;
  }

  lemma DescribedOnce(es: seq<Entity>, block: DeviceBlock)
    requires DistinctKeys(es) && es != []
    ensures var (ps, n) := (Announcements(es, block), |es| - 1);
            && |ps| == n + 1 && ps[n] == Retained(DiscoveryTopic(PlaceOf(es[n])), Some(Description(es[n], block)))
            && forall j: nat :: j < n ==> !On(ps[j], ps[n].topic)
  {
    var n := |es| - 1;
    forall j: nat | j < n
      ensures es[j].key != es[n].key
    {}
  }

  /** The last message of a pass is a description, and the only one on its topic. */
  lemma LastDescription(driver: Driver, es: seq<Entity>, block: DeviceBlock)
    requires Wellformed(driver) && DistinctKeys(es) && es != []
    ensures var ps := Pass(driver, None, es, block);
            && ps != [] && ps[|ps| - 1].Retained? && ps[|ps| - 1].content.Some?
            && forall j: nat :: j < |ps| - 1 ==> !On(ps[j], ps[|ps| - 1].topic)
  {
    var a, c := Withdrawals(Withdrawn(driver, None, es)), Announcements(es, block);
    hide Withdrawn, Withdrawals, Announcements, DistinctKeys, On;
    assert Kept(es, PlaceOf(es[|es| - 1]));
    hide Kept;
    WithdrawnApart(driver, es, PlaceOf(es[|es| - 1]));
    DescribedOnce(es, block);
    OnlyTheLast(a, c, DiscoveryTopic(PlaceOf(es[|es| - 1])));
  }

  lemma OnlyTheLast(a: seq<Publication>, c: seq<Publication>, t: Topic)
    requires c != [] && (forall q :: q in a ==> !On(q, t)) && forall j: nat :: j < |c| - 1 ==> !On(c[j], t)
    ensures forall j: nat :: j < |a + c| - 1 ==> !On((a + c)[j], t)
  {
    hide On;
    forall j: nat | j < |a + c| - 1
      ensures !On((a + c)[j], t)
    {
      if j < |a| {
        assert a[j] in a;
      }
    }
  }

  lemma NeverEmpty(c: Catalogue, driver: Driver)
    requires Wellformed(driver)
    ensures EntitiesOf(c, driver) != []
  {
    AlwaysSome();
  }

  lemma AlwaysSome()
    ensures Always() != []
  {}

  /** A queue that refuses one message of those an event offers it. */
  function AllBut(n: nat): nat -> bool { (k: nat) => k != n }

  /** What a first connection offers of discovery. */
  function FirstPass(driver: Driver, w: World): seq<Publication>
    requires Wellformed(driver)
  {
    Pass(driver, None, EntitiesOf(Wished(w.options, w.session), driver), w.session.block)
  }

  /** A first connection, of which the queue refuses only the last message of discovery. */
  function Refusing(driver: Driver, w: World): Happening
    requires Wellformed(driver) && FirstPass(driver, w) != []
  {
    Happening(Connected(1), w.now, AllBut(|FirstPass(driver, w)| - 1))
  }

  lemma NotSpared(b: Broker, ps: seq<Publication>)
    requires ps != [] && ps[|ps| - 1].Retained? && ps[|ps| - 1].content.Some? && b == map[]
    requires forall j: nat :: j < |ps| - 1 ==> !On(ps[j], ps[|ps| - 1].topic)
    ensures !AllSpared(b, ps, AllBut(|ps| - 1))
  {
    assert !Spared(b, ps, AllBut(|ps| - 1), |ps| - 1);
  }

  lemma LastRefused(driver: Driver, w: World)
    requires Wellformed(driver) && NamedApart(driver) && Clean(w)
    ensures FirstPass(driver, w) != [] && !Current(driver, After(driver, w, Refusing(driver, w)))
  {
    FirstPassNotSpared(driver, w);
    hide *;
    var h := Refusing(driver, w);
    RefusingIs(driver, w);
    FirstPassIs(driver, w, h.now);
    ConnectionMakesGoodExactly(driver, w, h);
  }

  lemma FirstPassNotSpared(driver: Driver, w: World)
    requires Wellformed(driver) && NamedApart(driver)
    ensures var ps := FirstPass(driver, w); ps != [] && !AllSpared(map[], ps, AllBut(|ps| - 1))
  {
    hide FirstPass, NamedApart, On, AllSpared, AllBut;
    FirstPassEnds(driver, w);
    NotSpared(map[], FirstPass(driver, w));
  }

  lemma RefusingIs(driver: Driver, w: World)
    requires Wellformed(driver) && FirstPass(driver, w) != [] && Clean(w)
    ensures Refusing(driver, w) == Happening(Connected(1), w.now, AllBut(|FirstPass(driver, w)| - 1))
    ensures w.broker == map[] && Within(w.broker, driver, None)
  {
    hide FirstPass, AllBut, Everything;
  }

  lemma FirstPassEnds(driver: Driver, w: World)
    requires Wellformed(driver) && NamedApart(driver)
    ensures var ps := FirstPass(driver, w);
            && ps != [] && ps[|ps| - 1].Retained? && ps[|ps| - 1].content.Some?
            && forall j: nat :: j < |ps| - 1 ==> !On(ps[j], ps[|ps| - 1].topic)
  {
    var c := Wished(w.options, w.session);
    hide EntitiesOf, Pass, NamedApart, DistinctKeys, On;
    NeverEmpty(c, driver);
    KeysDistinct(c, driver);
    LastDescription(driver, EntitiesOf(c, driver), w.session.block);
  }

  lemma FirstPassIs(driver: Driver, w: World, now: nat)
    requires Wellformed(driver)
    ensures Reaction(driver, w, Connected(1), now).discovery == FirstPass(driver, w)
  {
    hide EntitiesOf, Pass, Reaction;
    AnnouncementOf(driver, w, Happening(Connected(1), now, Soon));
  }

  /** That first connection leaves the broker short of one description; a new identity report that changes nothing does
    * not help; the next connection does. */
  lemma OneRefused(driver: Driver, w: World, most: nat)
    requires Wellformed(driver) && NamedApart(driver) && Sweeps(driver, most)
    requires Clean(w) && Packs(w.session.view) <= most
    ensures FirstPass(driver, w) != []
    ensures var one := After(driver, w, Refusing(driver, w));
            var two := After(driver, one, Happening(IdentitySeen, w.now, Soon));
            var three := After(driver, two, Happening(Connected(2), w.now, Soon));
            !Current(driver, one) && !Current(driver, two) && Current(driver, three)
  {
    hide After, Reaction, NamedApart, Sweeps, Packs, Current, Describes, Wished, AllBut, FirstPass, EntitiesOf;
    LastRefused(driver, w);
    var h1, h2 := Refusing(driver, w), Happening(IdentitySeen, w.now, Soon);
    var one := After(driver, w, h1);
    FirstDescribes(driver, w, h1);
    UnsaidStaysUnsaid(driver, one, h2);
    CleanIsReconciled(driver, w, most);
    hide Within, Clean;
    TwoSteps(driver, w, h1, h2, most);
    MadeGood(driver, After(driver, one, h2), Happening(Connected(2), w.now, Soon));
  }

  lemma MadeGood(driver: Driver, w: World, h: Happening)
    requires Wellformed(driver) && NamedApart(driver) && Within(w.broker, driver, None)
    requires h.event.Connected? && h.event.generation > 0 && Accepts(h.taken)
    ensures Current(driver, After(driver, w, h))
  {
    hide *;
    ConnectionMakesGoodExactly(driver, w, h);
    AcceptedIsSpared(w.broker, Reaction(driver, w, h.event, h.now).discovery, h.taken);
  }

  lemma FirstDescribes(driver: Driver, w: World, h: Happening)
    requires Wellformed(driver) && h.event.Connected? && h.event.generation > 0
    ensures var after := After(driver, w, h);
            Describes(after.link.announced, after.session.block, Wished(after.options, after.session))
  {
    hide After, Reaction, EntitiesOf, Pass, IndexOf;
    AfterIs(driver, w, h);
    AnnouncementOf(driver, w, h);
  }

  lemma TwoSteps(driver: Driver, w: World, a: Happening, b: Happening, most: nat)
    requires Wellformed(driver) && Sweeps(driver, most)
    requires Within(w.broker, driver, None) && Packs(w.session.view) <= most
    requires !a.event.SessionMoved? && !b.event.SessionMoved?
    ensures Within(After(driver, After(driver, w, a), b).broker, driver, None)
  {
    hide After, Sweeps, Within, Packs;
    RunForeseen(driver, w, [a, b], most);
    assert [a, b][..1] == [a] && [a][..0] == [];
    assert Run(driver, w, []) == w && Run(driver, w, [a]) == After(driver, w, a);
  }
}
