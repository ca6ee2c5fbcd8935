/** Keeping a broker's retained discovery topics equal to a catalogue (src/homeassistant/publisher.rs:604-719). */
module Discovery {
  import opened Prelude
  import opened Entities
  import opened Publishing
  import opened Gates

  /** A catalogue and the device block it was announced under. */
  datatype Announcement = Announcement(
    block: DeviceBlock,
    catalogue: Catalogue,
    entities: seq<Entity>,
    indexed: Indexed)

  predicate Kept(keeping: seq<Entity>, p: Place) {
    exists i :: 0 <= i < |keeping| && PlaceOf(keeping[i]) == p
  }

  // ------------------------------------------------------------------ what is withdrawn

  function Gone(previous: seq<Entity>, keeping: seq<Entity>): seq<Place> {
    if previous == [] then []
    else
      var p := PlaceOf(previous[|previous| - 1]);
      Gone(previous[..|previous| - 1], keeping) + if Kept(keeping, p) then [] else [p]
  }

  function Swept(gone: seq<Place>, keeping: seq<Entity>, retired: seq<Place>): seq<Place> {
    if retired == [] then gone
    else
      var sofar, p := Swept(gone, keeping, retired[..|retired| - 1]), retired[|retired| - 1];
      if Kept(keeping, p) || p in sofar then sofar else sofar + [p]
  }

  /** What was announced or is retired, and is not kept. */
  method Retractions(previous: seq<Entity>, keeping: seq<Entity>, retired: seq<Place>) returns (gone: seq<Place>)
    ensures gone == Swept(Gone(previous, keeping), keeping, retired)
    ensures forall p :: p in gone <==> (Kept(previous, p) || p in retired) && !Kept(keeping, p)
  {
    gone := [];
    for n := 0 to |previous|
      invariant gone == Gone(previous[..n], keeping)
    {
      assert previous[..n + 1][..n] == previous[..n];
      if !Kept(keeping, PlaceOf(previous[n])) {
        gone := gone + [PlaceOf(previous[n])];
      }
    }
    assert previous[..|previous|] == previous;
    for n := 0 to |retired|
      invariant gone == Swept(Gone(previous, keeping), keeping, retired[..n])
    {
      assert retired[..n + 1][..n] == retired[..n];
      if !Kept(keeping, retired[n]) && retired[n] !in gone {
        gone := gone + [retired[n]];
      }
    }
    assert retired[..|retired|] == retired;
    forall p
      ensures p in gone <==> (Kept(previous, p) || p in retired) && !Kept(keeping, p)
    {
      SweptExactly(previous, keeping, retired, p);
    }
  }

  lemma {:induction false} GoneExactly(previous: seq<Entity>, keeping: seq<Entity>, p: Place)
    ensures p in Gone(previous, keeping) <==> Kept(previous, p) && !Kept(keeping, p)
  {
    if previous != [] {
      var n := |previous| - 1;
      hide Kept;
      GoneExactly(previous[..n], keeping, p);
      KeptButLast(previous, p);
    }
  }

  lemma KeptButLast(es: seq<Entity>, p: Place)
    requires es != []
    ensures Kept(es, p) <==> Kept(es[..|es| - 1], p) || PlaceOf(es[|es| - 1]) == p
  {
    var n := |es| - 1;
    var front := es[..n];
    if Kept(es, p) && PlaceOf(es[n]) != p {
      var i :| 0 <= i < |es| && PlaceOf(es[i]) == p;
      assert PlaceOf(front[i]) == p;
    }
    if Kept(front, p) {
      var i :| 0 <= i < n && PlaceOf(front[i]) == p;
      assert PlaceOf(es[i]) == p;
    }
    if PlaceOf(es[n]) == p {
      assert Kept(es, p);
    }
  }

  /** What is withdrawn is what was announced or is retired, and is not announced now. */
  lemma {:induction false} SweptExactly(previous: seq<Entity>, keeping: seq<Entity>, retired: seq<Place>, p: Place)
    ensures p in Swept(Gone(previous, keeping), keeping, retired) <==>
            (Kept(previous, p) || p in retired) && !Kept(keeping, p)
  {
    if retired == [] {
      GoneExactly(previous, keeping, p);
    } else {
      SweptExactly(previous, keeping, retired[..|retired| - 1], p);
      assert p in retired <==> p in retired[..|retired| - 1] || p == retired[|retired| - 1];
    }
  }

  // ------------------------------------------------------------------ one pass

  /** What the first announcement for a connection reconciles against, and what a later one does. */
  function Previous(driver: Driver, announced: Option<Announcement>): seq<Entity>
    requires Wellformed(driver)
  {
    if announced == None then Everything(driver) else announced.value.entities
  }

  function Ancient(announced: Option<Announcement>): seq<Place> {
    if announced == None then Retired else []
  }

  function Withdrawn(driver: Driver, announced: Option<Announcement>, es: seq<Entity>): seq<Place>
    requires Wellformed(driver)
  {
    Swept(Gone(Previous(driver, announced), es), es, Ancient(announced))
  }

  function Withdrawals(gone: seq<Place>): seq<Publication> {
    seq(|gone|, i requires 0 <= i < |gone| => Retained(DiscoveryTopic(gone[i]), None))
  }

  function Announcements(es: seq<Entity>, block: DeviceBlock): seq<Publication> {
    seq(|es|, i requires 0 <= i < |es| => Retained(DiscoveryTopic(PlaceOf(es[i])), Some(Description(es[i], block))))
  }

  function Pass(driver: Driver, announced: Option<Announcement>, es: seq<Entity>, block: DeviceBlock): seq<Publication>
    requires Wellformed(driver)
  {
    Withdrawals(Withdrawn(driver, announced, es)) + Announcements(es, block)
  }

  /** What the broker should hold on a discovery topic while some entities are announced. */
  function Wanted(es: seq<Entity>, block: DeviceBlock, p: Place): Option<Content> {
    if es == [] then None
    else if PlaceOf(es[0]) == p then Some(Description(es[0], block))
    else Wanted(es[1..], block, p)
  }

  /** The broker holds exactly these entities' descriptions on its discovery topics. */
  ghost predicate Shows(b: Broker, es: seq<Entity>, block: DeviceBlock) {
    forall p: Place :: Lookup(b, DiscoveryTopic(p)) == Wanted(es, block, p)
  }

  lemma {:induction false} WantedIs(es: seq<Entity>, block: DeviceBlock, p: Place)
    ensures Wanted(es, block, p).Some? <==> Kept(es, p)
    ensures Wanted(es, block, p).Some? ==>
              (exists i :: 0 <= i < |es| && PlaceOf(es[i]) == p
                           && Wanted(es, block, p) == Some(Description(es[i], block)))
  {
    if es != [] {
      WantedIs(es[1..], block, p);
      if PlaceOf(es[0]) != p {
        if i :| 0 <= i < |es| && PlaceOf(es[i]) == p {
          assert PlaceOf(es[1..][i - 1]) == p;
        }
        var w := Wanted(es[1..], block, p);
        if i :| 0 <= i < |es[1..]| && PlaceOf(es[1..][i]) == p && w == Some(Description(es[1..][i], block)) {
          assert es[i + 1] == es[1..][i];
        }
      }
    }
  }

  /** `Shows` names each announced entity's description, and nothing else. */
  lemma ShowsExactly(b: Broker, es: seq<Entity>, block: DeviceBlock)
    requires DistinctKeys(es)
    ensures Shows(b, es, block) <==>
            && (forall e :: e in es ==> Lookup(b, DiscoveryTopic(PlaceOf(e))) == Some(Description(e, block)))
            && (forall p: Place :: DiscoveryTopic(p) in b ==> Kept(es, p))
  {
    forall e | e in es
      ensures Wanted(es, block, PlaceOf(e)) == Some(Description(e, block))
    {
      var i :| 0 <= i < |es| && es[i] == e;
      WantedIs(es, block, PlaceOf(e));
    }
    forall p: Place
      ensures Wanted(es, block, p).Some? <==> Kept(es, p)
    {
      WantedIs(es, block, p);
    }
  }

  /** Everything a pass says about a topic is what the broker should hold there; so no topic is both withdrawn
    * and announced. */
  lemma PassSays(driver: Driver, announced: Option<Announcement>, es: seq<Entity>, block: DeviceBlock, p: Place)
    requires Wellformed(driver) && DistinctKeys(es)
    ensures var ps := Pass(driver, announced, es, block);
            forall i :: 0 <= i < |ps| && On(ps[i], DiscoveryTopic(p)) ==> ps[i].content == Wanted(es, block, p)
  {
    var gone := Withdrawn(driver, announced, es);
    var ps := Pass(driver, announced, es, block);
    SweptExactly(Previous(driver, announced), es, Ancient(announced), p);
    WantedIs(es, block, p);
    hide Swept, Gone, Wanted, Everything;
    forall i | 0 <= i < |ps| && On(ps[i], DiscoveryTopic(p))
      ensures ps[i].content == Wanted(es, block, p)
    {
      if i < |gone| {
        assert gone[i] == p && p in gone;
      } else {
        var e := es[i - |gone|];
        assert PlaceOf(e) == p && Kept(es, p);
        var j :| 0 <= j < |es| && PlaceOf(es[j]) == p && Wanted(es, block, p) == Some(Description(es[j], block));
        assert es[j].key == e.key;
      }
    }
  }

  /** A pass speaks of exactly what is wanted and what might be left over. */
  lemma PassCovers(driver: Driver, announced: Option<Announcement>, es: seq<Entity>, block: DeviceBlock, p: Place)
    requires Wellformed(driver)
    ensures var ps := Pass(driver, announced, es, block);
            (exists i :: 0 <= i < |ps| && On(ps[i], DiscoveryTopic(p))) <==>
            Kept(es, p) || Kept(Previous(driver, announced), p) || p in Ancient(announced)
  {
    var gone := Withdrawn(driver, announced, es);
    var ps := Pass(driver, announced, es, block);
    SweptExactly(Previous(driver, announced), es, Ancient(announced), p);
    assert |ps| == |gone| + |es|;
    assert forall i :: 0 <= i < |gone| ==> ps[i] == Retained(DiscoveryTopic(gone[i]), None);
    assert forall i :: 0 <= i < |es| ==>
        ps[|gone| + i] == Retained(DiscoveryTopic(PlaceOf(es[i])), Some(Description(es[i], block)));
    hide Swept, Gone, Everything, Withdrawn, Pass, Withdrawals, Announcements, Previous, Ancient;
    if i :| 0 <= i < |ps| && On(ps[i], DiscoveryTopic(p)) {
      if i < |gone| {
        assert gone[i] == p;
      } else {
        assert PlaceOf(es[i - |gone|]) == p;
      }
    }
    if p in gone {
      var i :| 0 <= i < |gone| && gone[i] == p;
      assert On(ps[i], DiscoveryTopic(p));
    } else if Kept(es, p) {
      var i :| 0 <= i < |es| && PlaceOf(es[i]) == p;
      assert On(ps[|gone| + i], DiscoveryTopic(p));
    }
  }

  /** What a pass can put right: whatever the broker holds is something the pass knows of. */
  ghost predicate Within(b: Broker, driver: Driver, announced: Option<Announcement>)
    requires Wellformed(driver)
  {
    forall p: Place :: DiscoveryTopic(p) in b ==> Kept(Previous(driver, announced), p) || p in Ancient(announced)
  }

  /** Whether leaving out what the queue refused makes no difference to one topic. */
  predicate Spared(b: Broker, ps: seq<Publication>, taken: nat -> bool, i: nat)
    requires i < |ps|
  {
    match ps[i]
    case State(_) => true
    case Retained(t, content) =>
      taken(i) || Lookup(b, t) == content || exists j: nat :: j < |ps| && taken(j) && On(ps[j], t)
  }

  ghost predicate AllSpared(b: Broker, ps: seq<Publication>, taken: nat -> bool) {
    forall i: nat :: i < |ps| ==> Spared(b, ps, taken, i)
  }

  lemma AcceptedIsSpared(b: Broker, ps: seq<Publication>, taken: nat -> bool)
    requires Accepts(taken)
    ensures AllSpared(b, ps, taken)
  {}

  /** After a pass the broker holds exactly the catalogue, exactly when every message the queue refused was one
    * the broker did not need. */
  lemma PassShowsExactly(driver: Driver, b: Broker, announced: Option<Announcement>, es: seq<Entity>,
                         block: DeviceBlock, taken: nat -> bool)
    requires Wellformed(driver) && DistinctKeys(es) && Within(b, driver, announced)
    ensures var ps := Pass(driver, announced, es, block);
            Shows(Deliver(b, ps, taken), es, block) <==> AllSpared(b, ps, taken)
  {
    var ps := Pass(driver, announced, es, block);
    var after := Deliver(b, ps, taken);
    hide Pass, Deliver, Wanted, Kept, Previous, DistinctKeys;
    forall p: Place
      ensures Lookup(after, DiscoveryTopic(p)) ==
              if exists i :: 0 <= i < |ps| && taken(i) && On(ps[i], DiscoveryTopic(p)) then Wanted(es, block, p)
              else Lookup(b, DiscoveryTopic(p))
    {
      PassDelivers(driver, b, announced, es, block, taken, p);
    }
    if Shows(after, es, block) {
      forall i: nat | i < |ps|
        ensures Spared(b, ps, taken, i)
      {
        PassIsDiscovery(driver, announced, es, block, i);
        var p := ps[i].topic.place;
        PassSays(driver, announced, es, block, p);
        assert On(ps[i], DiscoveryTopic(p));
      }
    }
    if AllSpared(b, ps, taken) {
      forall p: Place
        ensures Lookup(after, DiscoveryTopic(p)) == Wanted(es, block, p)
      {
        PassCovers(driver, announced, es, block, p);
        PassSays(driver, announced, es, block, p);
        WantedIs(es, block, p);
        if i :| 0 <= i < |ps| && On(ps[i], DiscoveryTopic(p)) {
          assert Spared(b, ps, taken, i);
        }
      }
    }
  }

  lemma PassIsDiscovery(driver: Driver, announced: Option<Announcement>, es: seq<Entity>, block: DeviceBlock, i: nat)
    requires Wellformed(driver) && i < |Pass(driver, announced, es, block)|
    ensures var p := Pass(driver, announced, es, block)[i]; p.Retained? && p.topic.DiscoveryTopic?
  {
    hide Withdrawn;
  }

  lemma PassDelivers(driver: Driver, b: Broker, announced: Option<Announcement>, es: seq<Entity>, block: DeviceBlock,
                     taken: nat -> bool, p: Place)
    requires Wellformed(driver) && DistinctKeys(es)
    ensures var ps := Pass(driver, announced, es, block);
            Lookup(Deliver(b, ps, taken), DiscoveryTopic(p)) ==
            if exists i :: 0 <= i < |ps| && taken(i) && On(ps[i], DiscoveryTopic(p)) then Wanted(es, block, p)
            else Lookup(b, DiscoveryTopic(p))
  {
    var ps := Pass(driver, announced, es, block);
    PassSays(driver, announced, es, block, p);
    LatestUniform(ps, taken, DiscoveryTopic(p), Wanted(es, block, p));
    DeliveredAt(b, ps, taken, DiscoveryTopic(p));
  }
}
