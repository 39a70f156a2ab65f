/**
 * What each operation of the link store does to the rows, column by column:
 * which row it writes, what stands in it afterwards, and that no other row
 * changes.
 */
module LinkEffects {
  import opened Wrappers
  import opened LinkModel
  import opened LinkRuns

  /** Rows outside `ids` are neither changed, added nor removed. */
  ghost predicate SameExcept<T>(before: map<int, T>, after: map<int, T>, ids: set<int>) {
    && (forall i :: i in before && i !in ids ==> i in after && after[i] == before[i])
    && (forall i :: i in after && i !in ids ==> i in before)
  }

  ghost predicate SameFlights(db: Db, after: Db) {
    after.flights == db.flights && after.nextFlight == db.nextFlight
  }

  ghost predicate SameLegs(db: Db, after: Db) {
    after.legs == db.legs && after.nextLeg == db.nextLeg
  }

  ghost predicate SameTrips(db: Db, after: Db) {
    after.trips == db.trips && after.nextTrip == db.nextTrip
  }

  /** Planned again, its deviation gone, and every other column as it was. */
  predicate IsReopened(leg: Leg, after: Leg) {
    after == Leg(leg.tripId, leg.seqNo, Planned, None, leg.departure, leg.departureIsAirport, leg.destination)
  }

  /** The leg this flight held is planned again, and no other leg changes. */
  ghost predicate HeldLegReopened(db: Db, f: int, after: Db)
    requires f in db.flights
  {
    match db.flights[f].legId
    case None => SameLegs(db, after)
    case Some(l) =>
      && SameExcept(db.legs, after.legs, {l}) && after.nextLeg == db.nextLeg
      && l in db.legs && l in after.legs && IsReopened(db.legs[l], after.legs[l])
  }

  /** The recorded facts of a flight, its trip and link apart. */
  predicate SameRecord(row: Flight, after: Flight) {
    && after.startTime == row.startTime && after.endTime == row.endTime && after.durationSec == row.durationSec
    && after.arrivalLat == row.arrivalLat && after.arrivalLon == row.arrivalLon
  }

  predicate IsUnlinked(row: Flight) {
    row.legId.None? && row.linkSource.None? && row.prevTripId.None?
  }

  // ---------------------------------------------------------------- trips

  lemma CreateTripEffect(db: Db, name: string)
    requires Consistent(db)
    ensures
      var t, after := db.nextTrip, CreateTrip(db, name);
      && t !in db.trips && after.trips.Keys == db.trips.Keys + {t} && after.nextTrip == t + 1
      && after.trips[t] == Trip(name, false) && SameExcept(db.trips, after.trips, {t})
      && SameFlights(db, after) && SameLegs(db, after)
  {}

  /** Exactly the named trip is active afterwards, or none; a trip that does not exist changes nothing. */
  lemma SetActiveTripEffect(db: Db, t: Option<int>)
    ensures
      var after := SetActiveTrip(db, t);
      && SameFlights(db, after) && SameLegs(db, after)
      && after.trips.Keys == db.trips.Keys && after.nextTrip == db.nextTrip
      && (forall u :: u in db.trips ==> after.trips[u].name == db.trips[u].name)
      && (t.None? || t.value in db.trips ==> forall u :: u in db.trips ==> (after.trips[u].isActive <==> t == Some(u)))
      && (t.Some? && t.value !in db.trips ==> after == db)
  {}

  /** The trip and its legs are gone, and every flight one of them held is back home. */
  lemma DeleteTripEffect(db: Db, t: int)
    requires Consistent(db)
    ensures
      var after := DeleteTrip(db, t);
      && after.trips.Keys == db.trips.Keys - {t} && SameExcept(db.trips, after.trips, {t})
      && (forall l :: l in after.legs <==> l in db.legs && db.legs[l].tripId != Some(t))
      && (forall l :: l in after.legs ==> after.legs[l] == db.legs[l])
      && after.flights.Keys == db.flights.Keys
      && (forall f :: f in db.flights ==>
            var row, now := db.flights[f], after.flights[f];
            if row.legId.Some? && db.legs[row.legId.value].tripId == Some(t)
            then SameRecord(row, now) && IsUnlinked(now) && now.tripId == row.prevTripId
            else now == row)
  {
    assert forall f :: f in db.flights ==> FlightOk(db, f);
  }

  // ---------------------------------------------------------------- legs

  /** A planned leg, its number one past every number of its pool and past the last of them. */
  lemma CreateLegEffect(db: Db, trip: Option<int>, plan: Plan)
    requires Consistent(db) && (trip.Some? ==> trip.value in db.trips)
    ensures
      var l, after := db.nextLeg, CreateLeg(db, trip, plan);
      && l !in db.legs && after.legs.Keys == db.legs.Keys + {l} && after.nextLeg == l + 1
      && SameExcept(db.legs, after.legs, {l})
      && after.legs[l] ==
         Leg(trip, after.legs[l].seqNo, Planned, None, plan.departure, plan.departureIsAirport, plan.destination)
      && (forall m :: m in db.legs && db.legs[m].tripId == trip ==> db.legs[m].seqNo < after.legs[l].seqNo)
      && (after.legs[l].seqNo == 1 ||
          exists m :: m in db.legs && db.legs[m].tripId == trip && db.legs[m].seqNo == after.legs[l].seqNo - 1)
      && SameFlights(db, after) && SameTrips(db, after)
  {
    var pool := Pool(db.legs, trip);
    assert db.nextLeg in db.legs ==> LegOk(db, db.nextLeg);
    MaxSeqBounds(db.legs, pool);
    MaxSeqAttained(db.legs, pool);
    assert forall m :: m in db.legs && db.legs[m].tripId == trip ==> m in pool;
  }

  /** A plan for a trip that does not exist is refused. */
  lemma CreateLegRefused(db: Db, trip: Option<int>, plan: Plan)
    ensures trip.Some? && trip.value !in db.trips ==> CreateLeg(db, trip, plan) == db
  {}

  lemma DeleteLegEffect(db: Db, l: int)
    requires Consistent(db)
    ensures
      var after := DeleteLeg(db, l);
      && after.legs.Keys == db.legs.Keys - {l} && SameExcept(db.legs, after.legs, {l})
      && after.flights.Keys == db.flights.Keys && SameTrips(db, after)
      && (forall f :: f in db.flights ==>
            var row, now := db.flights[f], after.flights[f];
            if row.legId == Some(l)
            then SameRecord(row, now) && IsUnlinked(now) && now.tripId == row.prevTripId
            else now == row)
  {
    assert forall f :: f in db.flights ==> FlightOk(db, f);
  }

  /** A leg nobody holds is skipped or planned as asked, with no deviation; a held one stays as it is. */
  lemma SetLegStatusEffect(db: Db, l: int, skipped: bool)
    requires l in db.legs
    ensures
      var after := SetLegStatus(db, l, skipped);
      && SameFlights(db, after) && SameTrips(db, after)
      && after.legs.Keys == db.legs.Keys && after.nextLeg == db.nextLeg && SameExcept(db.legs, after.legs, {l})
      && ((forall f :: !Holds(db, f, l)) ==>
            after.legs[l] == db.legs[l].(status := after.legs[l].status, deviation := None)
            && (if skipped then after.legs[l].status.Skipped? else after.legs[l].status.Planned?))
      && ((exists f :: Holds(db, f, l)) ==> after == db)
  {}

  // ---------------------------------------------------------------- flights

  lemma InsertFlightEffect(db: Db, startTime: int)
    requires Consistent(db)
    ensures
      var f, after := db.nextFlight, InsertFlight(db, startTime);
      && f !in db.flights && after.flights.Keys == db.flights.Keys + {f} && after.nextFlight == f + 1
      && SameExcept(db.flights, after.flights, {f}) && SameLegs(db, after) && SameTrips(db, after)
      && IsUnlinked(after.flights[f]) && after.flights[f].tripId.None?
      && after.flights[f].startTime == startTime && after.flights[f].endTime.None? && after.flights[f].durationSec.None?
  {
    assert db.nextFlight in db.flights ==> FlightOk(db, db.nextFlight);
  }

  lemma DeleteFlightEffect(db: Db, f: int)
    requires Consistent(db) && f in db.flights
    ensures
      var after := DeleteFlight(db, f);
      && after.flights.Keys == db.flights.Keys - {f} && SameExcept(db.flights, after.flights, {f})
      && after.nextFlight == db.nextFlight && SameTrips(db, after) && HeldLegReopened(db, f, after)
  {
    assert FlightOk(db, f);
  }

  /** A flight's own seconds: stored, or from its start to its end, rounded and never negative. */
  lemma OwnDuration(row: Flight)
    ensures
      var own := OwnDurationSec(row);
      && (row.durationSec.Some? ==> own == row.durationSec.value)
      && (row.durationSec.None? && row.endTime.None? ==> own == 0)
      && (row.durationSec.None? && row.endTime.Some? ==>
            var ms := row.endTime.value - row.startTime;
            if ms < 0 then own == 0 else own * 1000 - 500 <= ms < own * 1000 + 500)
  {}

  /** The merged row runs from the earlier start to the later flight's end and counts both flights' own seconds. */
  lemma CombineEffect(db: Db, a: int, b: int, fallbackEnd: int)
    requires Consistent(db) && a in db.flights && b in db.flights && a != b
    requires db.flights[a].startTime <= db.flights[b].startTime
    ensures
      var id, after := db.nextFlight, Combine(db, a, b, fallbackEnd);
      && after.flights.Keys == db.flights.Keys - {a, b} + {id} && after.nextFlight == id + 1
      && SameExcept(db.flights, after.flights, {a, b, id}) && SameTrips(db, after)
      && after.flights[id].startTime == db.flights[a].startTime
      && after.flights[id].endTime == Some(db.flights[b].endTime.GetOr(fallbackEnd))
      && after.flights[id].durationSec == Some(OwnDurationSec(db.flights[a]) + OwnDurationSec(db.flights[b]))
      && after.flights[id].arrivalLat == db.flights[b].arrivalLat
      && after.flights[id].arrivalLon == db.flights[b].arrivalLon
      && IsUnlinked(after.flights[id]) && after.flights[id].tripId.None?
      && (db.flights[a].startTime < db.flights[b].startTime ==> Combine(db, b, a, fallbackEnd) == after)
  {
    assert FlightOk(db, a) && FlightOk(db, b);
    assert db.nextFlight in db.flights ==> FlightOk(db, db.nextFlight);
  }

  // ---------------------------------------------------------------- the link

  /** A free leg: the flight holds it by this source, sits in its trip, and remembers the trip it was in before. */
  lemma LinkEffect(db: Db, f: int, l: int, source: LinkSource)
    requires Consistent(db) && f in db.flights && l in db.legs && forall g :: !Holds(db, g, l)
    ensures
      var row, after := db.flights[f], Link(db, f, l, source);
      && f in after.flights && SameExcept(db.flights, after.flights, {f}) && after.nextFlight == db.nextFlight
      && SameRecord(row, after.flights[f])
      && after.flights[f].legId == Some(l) && after.flights[f].linkSource == Some(source)
      && after.flights[f].tripId == db.legs[l].tripId
      && after.flights[f].prevTripId == (if row.legId.Some? then row.prevTripId else row.tripId)
      && SameTrips(db, after) && HeldLegReopened(db, f, after)
  {
    assert FlightOk(db, f);
    assert !Holds(db, f, l);
  }

  /** A leg another flight holds, a leg or flight that does not exist, and the flight's own leg change nothing. */
  lemma LinkRefused(db: Db, f: int, l: int, source: LinkSource)
    requires f !in db.flights || l !in db.legs || exists g :: Holds(db, g, l)
    ensures Link(db, f, l, source) == db
  {}

  /** The flight is back in the trip it remembered, with no link, and its leg is planned again. */
  lemma UnlinkEffect(db: Db, f: int)
    requires Consistent(db) && f in db.flights
    ensures
      var row, after := db.flights[f], Unlink(db, f);
      && f in after.flights && SameExcept(db.flights, after.flights, {f}) && after.nextFlight == db.nextFlight
      && SameRecord(row, after.flights[f]) && IsUnlinked(after.flights[f])
      && after.flights[f].tripId == (if row.legId.Some? then row.prevTripId else row.tripId)
      && SameTrips(db, after) && HeldLegReopened(db, f, after)
  {
    assert FlightOk(db, f);
  }

  lemma ClearLinkEffect(db: Db, f: int)
    requires Consistent(db) && f in db.flights
    ensures
      var row, after := db.flights[f], ClearLink(db, f);
      && f in after.flights && SameExcept(db.flights, after.flights, {f}) && after.nextFlight == db.nextFlight
      && SameRecord(row, after.flights[f]) && IsUnlinked(after.flights[f]) && after.flights[f].tripId == row.tripId
      && SameTrips(db, after) && HeldLegReopened(db, f, after)
  {
    assert FlightOk(db, f);
  }

  /** The flight is in the trip; it keeps its link exactly when its leg is in that trip, and else the leg is free. */
  lemma AssignTripEffect(db: Db, f: int, t: int)
    requires Consistent(db) && f in db.flights
    ensures
      var row, after := db.flights[f], AssignTrip(db, f, t);
      && f in after.flights && SameExcept(db.flights, after.flights, {f}) && after.nextFlight == db.nextFlight
      && SameRecord(row, after.flights[f]) && after.flights[f].tripId == Some(t) && SameTrips(db, after)
      && if row.legId.Some? && db.legs[row.legId.value].tripId == Some(t)
         then after.flights[f] == row && SameLegs(db, after)
         else IsUnlinked(after.flights[f]) && HeldLegReopened(db, f, after)
  {
    assert FlightOk(db, f);
  }

  lemma RemoveFromTripEffect(db: Db, f: int)
    requires Consistent(db) && f in db.flights
    ensures
      var row, after := db.flights[f], RemoveFromTrip(db, f);
      && f in after.flights && SameExcept(db.flights, after.flights, {f}) && after.nextFlight == db.nextFlight
      && SameRecord(row, after.flights[f]) && IsUnlinked(after.flights[f]) && after.flights[f].tripId.None?
      && SameTrips(db, after) && HeldLegReopened(db, f, after)
  {
    assert FlightOk(db, f);
  }

  // ---------------------------------------------------------------- closing

  /** The row of a flight that came down, its link untouched. */
  predicate CameDown(row: Flight, after: Flight, endTime: int, at: Position, durationSec: int) {
    after == Flight(row.startTime, Some(endTime), Some(durationSec), Some(at.lat), Some(at.lon),
                    row.tripId, row.legId, row.linkSource, row.prevTripId)
  }

  lemma CloseFlightEffect(db: Db, f: int, endTime: int, at: Position, durationSec: int)
    requires f in db.flights
    ensures
      var after := CloseFlight(db, f, endTime, at, durationSec);
      && f in after.flights && CameDown(db.flights[f], after.flights[f], endTime, at, durationSec)
      && SameExcept(db.flights, after.flights, {f}) && after.nextFlight == db.nextFlight
      && SameLegs(db, after) && SameTrips(db, after)
  {}

  /**
   * The leg a landing flight holds is flown when the flight came down within
   * ten nautical miles of the leg's destination and diverted when it did not,
   * with the distance to the tenth on both; no other leg changes.
   */
  lemma LandingDecidesTheLeg(db: Db, f: int, l: int, endTime: int, at: Position, durationSec: int, dist: Distance)
    requires Consistent(db) && Holds(db, f, l)
    ensures
      var after := EndFlight(db, f, endTime, at, durationSec, dist);
      && l in db.legs && after.legs.Keys == db.legs.Keys && after.nextLeg == db.nextLeg
      && SameExcept(db.legs, after.legs, {l})
      && var leg, nm := db.legs[l], dist(at, db.legs[l].destination);
      && (nm <= 10.0 ==> after.legs[l].status == Flown) && (nm > 10.0 ==> after.legs[l].status == Diverted)
      && after.legs[l] == leg.(status := after.legs[l].status, deviation := Some(RoundTenth(nm)))
      && f in after.flights && CameDown(db.flights[f], after.flights[f], endTime, at, durationSec)
      && SameExcept(db.flights, after.flights, {f}) && after.nextFlight == db.nextFlight && SameTrips(db, after)
  {
    assert FlightOk(db, f);
  }

  /** A flight that holds no leg lands without touching one. */
  lemma LandingWithoutALeg(db: Db, f: int, endTime: int, at: Position, durationSec: int, dist: Distance)
    requires f in db.flights && db.flights[f].legId.None?
    ensures SameLegs(db, EndFlight(db, f, endTime, at, durationSec, dist))
  {}

  /**
   * Marked by hand, the planned leg of an ended hand-linked flight is flown,
   * with how far from its destination the flight came down, if that is known;
   * reopened, a flown one is planned.
   */
  lemma HandCloseEffect(db: Db, f: int, l: int, request: HandRequest, dist: Distance)
    requires Consistent(db) && Holds(db, f, l)
    requires db.flights[f].linkSource == Some(Manual) && db.flights[f].endTime.Some?
    ensures
      var row, leg, after := db.flights[f], db.legs[l], HandClose(db, f, request, dist);
      && SameFlights(db, after) && SameTrips(db, after) && after.nextLeg == db.nextLeg
      && after.legs.Keys == db.legs.Keys && SameExcept(db.legs, after.legs, {l})
      && (request.MarkFlown? && leg.status.Planned? ==>
            after.legs[l] == leg.(status := Flown, deviation :=
              if row.arrivalLat.Some? && row.arrivalLon.Some?
              then Some(RoundTenth(dist(Position(row.arrivalLat.value, row.arrivalLon.value), leg.destination)))
              else None))
      && (request.Reopen? && leg.status.Flown? ==> IsReopened(leg, after.legs[l]))
      && (!(request.MarkFlown? && leg.status.Planned?) && !(request.Reopen? && leg.status.Flown?) ==> after == db)
  {
    assert FlightOk(db, f);
  }
}
