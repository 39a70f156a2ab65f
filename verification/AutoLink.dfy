/** The matcher and the link store together: what the recorder does with a flight it has just inserted. */
module AutoLink {
  import opened Wrappers
  import opened LinkModel
  import opened LinkRuns
  import opened LegMatcher
  import opened LinkStore

  ghost predicate IsActiveTrip(db: Db, t: Option<int>) {
    && (t.Some? ==> t.value in db.trips && db.trips[t.value].isActive)
    && (t.None? ==> forall u :: u in db.trips ==> !db.trips[u].isActive)
  }

  ghost predicate Describes(db: Db, c: Candidate) {
    && c.legId in db.legs
    && var leg := db.legs[c.legId];
    && leg.tripId == Some(c.tripId)
    && c.status == leg.status && c.departure == leg.departure && c.departureIsAirport == leg.departureIsAirport
    && (c.linkedFlight.Some? ==> Holds(db, c.linkedFlight.value, c.legId))
    && (c.linkedFlight.None? ==> !Held(db, c.legId))
  }

  /** What the candidate query returns: every leg of the active trip once, whatever its status, in trip order. */
  ghost predicate IsCandidateList(db: Db, active: Option<int>, cs: seq<Candidate>) {
    && IsActiveTrip(db, active)
    && (forall c :: c in cs ==> Describes(db, c) && active == Some(c.tripId))
    && (forall l :: l in db.legs && db.legs[l].tripId.Some? && db.legs[l].tripId == active
          ==> exists c :: c in cs && c.legId == l)
    && (forall i, j :: 0 <= i < j < |cs| ==>
          cs[i].legId in db.legs && cs[j].legId in db.legs && db.legs[cs[i].legId].seqNo < db.legs[cs[j].legId].seqNo)
  }

  function Takeoff(at: Position, active: Option<int>, cs: seq<Candidate>): MatchInput {
    MatchInput(at, active, None, cs, None)
  }

  /** A matched leg is planned, free and in the active trip, so linking it cannot be refused. */
  lemma MatchedCanBeLinked(db: Db, f: int, at: Position, active: Option<int>, cs: seq<Candidate>, dist: Distance)
    requires Consistent(db) && f in db.flights && db.flights[f].legId.None?
    requires IsCandidateList(db, active, cs)
    requires MatchPlannedLeg(Takeoff(at, active, cs), dist).reason.Matched?
    ensures
      var l := MatchPlannedLeg(Takeoff(at, active, cs), dist).legId.GetOr(0);
      var after := Link(db, f, l, Auto);
      && LinkAllowed(db, f, l) && !Held(db, l)
      && Consistent(after)
      && Holds(after, f, l) && after.legs == db.legs && db.legs[l].status.Planned?
      && after.flights[f].tripId == active
      && Home(after.flights[f]) == db.flights[f].tripId
  {
    MatchedIffOneUsable(Takeoff(at, active, cs), dist);
    var l := MatchPlannedLeg(Takeoff(at, active, cs), dist).legId.GetOr(0);
    LinkKeeps(db, f, l, Auto);
  }

  /**
   * No leg is linked automatically to two flights unless the first one let go
   * of it in between: some operation of the run found it still holding the leg
   * and was one of those that release it.
   */
  lemma NeverLinkedTwice(db: Db, f: int, g: int, l: int, ops: seq<Op>,
                         at: Position, active: Option<int>, cs: seq<Candidate>, dist: Distance)
    requires Consistent(db) && LinkAllowed(db, f, l)
    requires
      var end := Run(Link(db, f, l, Auto), ops, dist);
      && g in end.flights && end.flights[g].legId.None?
      && IsCandidateList(end, active, cs)
    requires MatchPlannedLeg(Takeoff(at, active, cs), dist).legId == Some(l)
    ensures Holds(Link(Run(Link(db, f, l, Auto), ops, dist), g, l, Auto), g, l)
    ensures exists i: nat :: ReleasedAt(Link(db, f, l, Auto), ops, i, f, l, dist)
  {
    var linked := Link(db, f, l, Auto);
    var end := Run(linked, ops, dist);
    LinkKeeps(db, f, l, Auto);
    RunKeeps(linked, ops, dist);
    MatchedIffOneUsable(Takeoff(at, active, cs), dist);
    MatchedCanBeLinked(end, g, at, active, cs, dist);
    SomeOperationReleased(linked, ops, f, l, dist);
  }

  /** Match, then link. The refusals the store knows cannot occur after a match. */
  method AutoLinkPlannedLeg(store: Store, f: int, at: Position, active: Option<int>, cs: seq<Candidate>)
    returns (r: MatchResult)
    requires Consistent(store.Tables())
    requires f in store.flights && store.flights[f].legId.None?
    requires IsCandidateList(store.Tables(), active, cs)
    modifies store`flights, store`legs
    ensures r == MatchPlannedLeg(Takeoff(at, active, cs), store.dist)
    ensures !r.reason.Matched? ==> store.Tables() == old(store.Tables())
    ensures r.reason.Matched? ==>
      && store.Tables() == Link(old(store.Tables()), f, r.legId.GetOr(0), Auto)
      && Holds(store.Tables(), f, r.legId.GetOr(0))
      && store.flights[f].tripId == active
    ensures Consistent(store.Tables())
  {
    r := MatchPlannedLeg(Takeoff(at, active, cs), store.dist);
    if r.reason.Matched? && r.legId.Some? {
      MatchedCanBeLinked(store.Tables(), f, at, active, cs, store.dist);
      var outcome := store.LinkFlightToPlannedLeg(f, r.legId.value, Auto);
      assert outcome.Ok?;
    } else {
      MatchedIffOneUsable(Takeoff(at, active, cs), store.dist);
    }
  }

  // ---------------------------------------------------------------- an instance

  const HERE := Position(1.0, 1.0)

  /** An active trip of one planned leg, and a flight just inserted where it departs. */
  const READY := Db(
    map[1 := Flight(0, None, None, None, None, None, None, None, None)],
    map[1 := Leg(Some(1), 1, Planned, None, HERE, true, HERE)],
    map[1 := Trip("trip", true)], 2, 2, 2)

  const ONLY := [Candidate(1, 1, Planned, None, HERE, true)]

  function Anywhere(a: Position, b: Position): real {
    0.0
  }

  lemma ReadyIsConsistent()
    ensures Consistent(READY) && IsCandidateList(READY, Some(1), ONLY)
  {
    assert !Held(READY, 1);
    assert Describes(READY, ONLY[0]);
  }

  lemma AMatchHappens()
    ensures Consistent(READY) && IsCandidateList(READY, Some(1), ONLY)
    ensures MatchPlannedLeg(Takeoff(HERE, Some(1), ONLY), Anywhere).reason.Matched?
  {
    var input := Takeoff(HERE, Some(1), ONLY);
    ReadyIsConsistent();
    assert ONLY[..0] == [];
    assert UsableCount(input, ONLY, Anywhere) == 1;
    MatchedIffOneUsable(input, Anywhere);
  }
}
