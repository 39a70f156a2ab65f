/**
 * The three tables of the planned-leg feature as values, what a consistent
 * database is, and what each operation means for the database as a whole.
 * The class LinkStore performs these operations row by row and is verified
 * against the functions of this module.
 */
module LinkModel {
  import opened Wrappers

  datatype LinkSource = Auto | Manual

  datatype LegStatus = Planned | Flown | Diverted | Skipped

  datatype Flight = Flight(
    startTime: int,
    endTime: Option<int>,
    durationSec: Option<int>,
    arrivalLat: Option<real>,
    arrivalLon: Option<real>,
    tripId: Option<int>,
    legId: Option<int>,
    linkSource: Option<LinkSource>,
    prevTripId: Option<int>)

  datatype Leg = Leg(
    tripId: Option<int>,
    seqNo: int,
    status: LegStatus,
    deviation: Option<real>,
    departure: Position,
    departureIsAirport: bool,
    destination: Position)

  datatype Trip = Trip(name: string, isActive: bool)

  /** The tables, with the next AUTOINCREMENT id of each. */
  datatype Db = Db(
    flights: map<int, Flight>,
    legs: map<int, Leg>,
    trips: map<int, Trip>,
    nextFlight: int,
    nextLeg: int,
    nextTrip: int)

  const EMPTY := Db(map[], map[], map[], 1, 1, 1)

  /** Inside this many nautical miles of its destination a leg is flown, outside it is diverted. */
  const ARRIVAL_RADIUS_NM := 10.0

  // ---------------------------------------------------------------- consistency

  ghost predicate Holds(db: Db, f: int, l: int) {
    f in db.flights && db.flights[f].legId == Some(l)
  }

  ghost predicate Held(db: Db, l: int) {
    exists f :: Holds(db, f, l)
  }

  predicate IsClosed(leg: Leg) {
    leg.status.Flown? || leg.status.Diverted?
  }

  predicate LinkColumns(row: Flight) {
    && (row.linkSource.Some? <==> row.legId.Some?)
    && (row.legId.None? ==> row.prevTripId.None?)
  }

  /**
   * A linked flight sits in its leg's trip; a closed leg is held only by an
   * ended flight; an auto-linked flown leg has a deviation.
   */
  ghost predicate FlightOk(db: Db, f: int)
    requires f in db.flights
  {
    var row := db.flights[f];
    && f < db.nextFlight
    && LinkColumns(row)
    && (row.legId.Some? ==>
          && row.legId.value in db.legs
          && var leg := db.legs[row.legId.value];
          && row.tripId == leg.tripId
          && (IsClosed(leg) ==> row.endTime.Some?)
          && (leg.status.Flown? && row.linkSource == Some(Auto) ==> leg.deviation.Some?))
  }

  /**
   * A leg's trip exists; a closed leg is held; a deviation only on a closed
   * leg, and always on a diverted one.
   */
  ghost predicate LegOk(db: Db, l: int)
    requires l in db.legs
  {
    var leg := db.legs[l];
    && l < db.nextLeg
    && leg.seqNo >= 1
    && (leg.tripId.Some? ==> leg.tripId.value in db.trips)
    && (leg.deviation.Some? ==> IsClosed(leg))
    && (leg.status.Diverted? ==> leg.deviation.Some?)
    && (IsClosed(leg) ==> Held(db, l))
  }

  ghost predicate RowsOk(db: Db) {
    && (forall f :: f in db.flights ==> FlightOk(db, f))
    && (forall l :: l in db.legs ==> LegOk(db, l))
    && (forall t :: t in db.trips ==> t < db.nextTrip)
  }

  ghost predicate OneHolder(db: Db) {
    forall f, g ::
      (f in db.flights && g in db.flights && db.flights[f].legId.Some? && db.flights[f].legId == db.flights[g].legId)
      ==> f == g
  }

  ghost predicate OneActiveTrip(db: Db) {
    forall t, u :: t in db.trips && u in db.trips && db.trips[t].isActive && db.trips[u].isActive ==> t == u
  }

  /** Within one trip, and within the loose pool, no two legs share a number. */
  ghost predicate SeqsDistinct(db: Db) {
    forall l, m ::
      (l in db.legs && m in db.legs && l != m && db.legs[l].tripId == db.legs[m].tripId)
      ==> db.legs[l].seqNo != db.legs[m].seqNo
  }

  ghost predicate Consistent(db: Db) {
    RowsOk(db) && OneHolder(db) && OneActiveTrip(db) && SeqsDistinct(db)
  }

  // ---------------------------------------------------------------- rows

  /** The flight row once its link is gone and it sits in `trip`. */
  function Detached(row: Flight, trip: Option<int>): Flight {
    row.(tripId := trip, legId := None, linkSource := None, prevTripId := None)
  }

  function Reopened(leg: Leg): Leg {
    leg.(status := Planned, deviation := None)
  }

  /** The trip a flight belongs to once no link moves it elsewhere. */
  function Home(row: Flight): Option<int> {
    if row.legId.Some? then row.prevTripId else row.tripId
  }

  function SentHome(flights: map<int, Flight>, linked: set<int>): map<int, Flight> {
    map f | f in flights :: if f in linked then Detached(flights[f], flights[f].prevTripId) else flights[f]
  }

  // ---------------------------------------------------------------- trips and flights

  ghost function CreateTrip(db: Db, name: string): Db {
    db.(trips := db.trips[db.nextTrip := Trip(name, false)], nextTrip := db.nextTrip + 1)
  }

  ghost function SetActiveTrip(db: Db, t: Option<int>): Db {
    if t.Some? && t.value !in db.trips then db
    else db.(trips := map u | u in db.trips :: db.trips[u].(isActive := t == Some(u)))
  }

  ghost function InsertFlight(db: Db, startTime: int): Db {
    db.(flights := db.flights[db.nextFlight := Flight(startTime, None, None, None, None, None, None, None, None)],
        nextFlight := db.nextFlight + 1)
  }

  /** Math.max(0, Math.round(ms / 1000)), for rows without a stored duration. */
  function OwnDurationSec(row: Flight): int {
    if row.durationSec.Some? then row.durationSec.value
    else if row.endTime.None? then 0
    else Max(0, (row.endTime.value - row.startTime + 500) / 1000)
  }

  // ---------------------------------------------------------------- planned legs

  /** COALESCE(MAX(seq), 0) over the given legs. */
  ghost function MaxSeq(legs: map<int, Leg>, ids: set<int>): int
    requires ids <= legs.Keys
  {
    if exists l :: l in ids then
      var l :| l in ids;
      Max(legs[l].seqNo, MaxSeq(legs, ids - {l}))
    else 0
  }

  function Pool(legs: map<int, Leg>, trip: Option<int>): set<int> {
    set l | l in legs && legs[l].tripId == trip
  }

  datatype Plan = Plan(departure: Position, departureIsAirport: bool, destination: Position)

  /** A plan for a trip that does not exist violates the foreign key and changes nothing. */
  ghost function CreateLeg(db: Db, trip: Option<int>, plan: Plan): Db {
    if trip.Some? && trip.value !in db.trips then db
    else
      var seqNo := MaxSeq(db.legs, Pool(db.legs, trip)) + 1;
      db.(legs := db.legs[db.nextLeg :=
            Leg(trip, seqNo, Planned, None, plan.departure, plan.departureIsAirport, plan.destination)],
          nextLeg := db.nextLeg + 1)
  }

  /** Deleting a leg detaches its flight and sends it home. */
  ghost function DeleteLeg(db: Db, l: int): Db {
    db.(legs := db.legs - {l},
        flights := map f | f in db.flights ::
          var row := db.flights[f];
          if l in db.legs && row.legId == Some(l) then Detached(row, row.prevTripId) else row)
  }

  /** Deleting a trip deletes its legs; every flight one of them held goes home. */
  ghost function DeleteTrip(db: Db, t: int): Db {
    db.(trips := db.trips - {t},
        legs := map l | l in db.legs && db.legs[l].tripId != Some(t) :: db.legs[l],
        flights := map f | f in db.flights ::
          var row := db.flights[f];
          if row.legId.Some? && row.legId.value in db.legs && db.legs[row.legId.value].tripId == Some(t)
          then Detached(row, row.prevTripId) else row)
  }

  /** The order endpoint's guard: the ids are this trip's legs, each exactly once. */
  ghost predicate ListsTrip(db: Db, t: int, ids: seq<int>) {
    && (forall i, j :: 0 <= i < j < |ids| ==> ids[i] != ids[j])
    && (set l | l in ids) == Pool(db.legs, Some(t))
  }

  ghost function IndexOf(ids: seq<int>, l: int): (i: nat)
    requires l in ids
    ensures i < |ids| && ids[i] == l
  {
    var i :| 0 <= i < |ids| && ids[i] == l; i
  }

  /** The statements of a reordering: each listed leg of the trip gets its place, whatever the list. */
  function Renumbered(legs: map<int, Leg>, t: int, ids: seq<int>): map<int, Leg> {
    if ids == [] then legs
    else
      var before, l := Renumbered(legs, t, ids[..|ids| - 1]), ids[|ids| - 1];
      if l in before && before[l].tripId == Some(t) then before[l := before[l].(seqNo := |ids|)] else before
  }

  ghost predicate IsLastPlace(ids: seq<int>, l: int, i: nat) {
    i < |ids| && ids[i] == l && forall j :: i < j < |ids| ==> ids[j] != l
  }

  /** Each listed leg of the trip has the last place it is listed at, and no other leg is touched. */
  ghost predicate HasLastPlaces(legs: map<int, Leg>, t: int, ids: seq<int>, after: map<int, Leg>) {
    && after.Keys == legs.Keys
    && (forall l :: l in legs && (l !in ids || legs[l].tripId != Some(t)) ==> after[l] == legs[l])
    && (forall l, i: nat :: l in legs && legs[l].tripId == Some(t) && IsLastPlace(ids, l, i) ==>
          after[l] == legs[l].(seqNo := i + 1))
  }

  /** The endpoint: a list that passes its guard renumbers the trip from 1. */
  ghost function Reorder(db: Db, t: int, ids: seq<int>): Db {
    if !ListsTrip(db, t, ids) then db
    else db.(legs := map l | l in db.legs ::
               if l in ids then db.legs[l].(seqNo := IndexOf(ids, l) + 1) else db.legs[l])
  }

  /** Refused while a flight holds the leg. */
  ghost function SetLegStatus(db: Db, l: int, skipped: bool): Db {
    if l !in db.legs || Held(db, l) then db
    else db.(legs := db.legs[l := db.legs[l].(status := if skipped then Skipped else Planned, deviation := None)])
  }

  // ---------------------------------------------------------------- the link

  ghost predicate LinkAllowed(db: Db, f: int, l: int) {
    && f in db.flights
    && (db.flights[f].legId == Some(l) || (l in db.legs && !Held(db, l)))
  }

  ghost function ReopenHeldLeg(db: Db, f: int): map<int, Leg>
    requires f in db.flights
  {
    var held := db.flights[f].legId;
    if held.Some? && held.value in db.legs
    then db.legs[held.value := Reopened(db.legs[held.value])] else db.legs
  }

  /** A refused link, and a link to the leg already held, change nothing. */
  ghost function Link(db: Db, f: int, l: int, source: LinkSource): Db {
    if !LinkAllowed(db, f, l) || db.flights[f].legId == Some(l) then db
    else
      var row := db.flights[f];
      db.(legs := ReopenHeldLeg(db, f),
          flights := db.flights[f := row.(tripId := db.legs[l].tripId, legId := Some(l),
                                          linkSource := Some(source), prevTripId := Home(row))])
  }

  ghost function Unlink(db: Db, f: int): Db {
    if f !in db.flights || db.flights[f].legId.None? then db
    else db.(legs := ReopenHeldLeg(db, f),
             flights := db.flights[f := Detached(db.flights[f], db.flights[f].prevTripId)])
  }

  /** Unlink without the trip going back. */
  ghost function ClearLink(db: Db, f: int): Db {
    if f !in db.flights || db.flights[f].legId.None? then db
    else db.(legs := ReopenHeldLeg(db, f),
             flights := db.flights[f := Detached(db.flights[f], db.flights[f].tripId)])
  }

  ghost function LegOf(db: Db, f: int): Option<Leg>
    requires f in db.flights
  {
    var l := db.flights[f].legId;
    if l.Some? && l.value in db.legs then Some(db.legs[l.value]) else None
  }

  /** A flight whose leg already sits in `t` keeps its link; any other link is dropped. */
  ghost function AssignTrip(db: Db, f: int, t: int): Db {
    if f !in db.flights then db
    else
      var leg := LegOf(db, f);
      var base := if leg.Some? && leg.value.tripId != Some(t) then ClearLink(db, f) else db;
      base.(flights := base.flights[f := base.flights[f].(tripId := Some(t))])
  }

  ghost function RemoveFromTrip(db: Db, f: int): Db {
    if f !in db.flights then db
    else
      var cleared := ClearLink(db, f);
      cleared.(flights := cleared.flights[f := cleared.flights[f].(tripId := None)])
  }

  ghost function DeleteFlight(db: Db, f: int): Db {
    if f !in db.flights then db
    else db.(legs := ReopenHeldLeg(db, f), flights := db.flights - {f})
  }

  /** The merged row: the span and arrival of both, the sum of their own durations, no trip, no link. */
  function Merged(first: Flight, second: Flight, fallbackEnd: int): Flight {
    Flight(first.startTime, Some(second.endTime.GetOr(fallbackEnd)),
           Some(OwnDurationSec(first) + OwnDurationSec(second)),
           second.arrivalLat, second.arrivalLon, None, None, None, None)
  }

  ghost function AddFlight(db: Db, row: Flight): Db {
    db.(flights := db.flights[db.nextFlight := row], nextFlight := db.nextFlight + 1)
  }

  /** `fallbackEnd` stands for the last point's time when the later flight has no end. */
  ghost function Combine(db: Db, a: int, b: int, fallbackEnd: int): Db {
    if a !in db.flights || b !in db.flights then db
    else
      var first := if db.flights[a].startTime <= db.flights[b].startTime then a else b;
      var second := if first == a then b else a;
      AddFlight(DeleteFlight(DeleteFlight(db, first), second),
                Merged(db.flights[first], db.flights[second], fallbackEnd))
  }

  // ---------------------------------------------------------------- closing a leg

  ghost function CloseFlight(db: Db, f: int, endTime: int, at: Position, durationSec: int): Db {
    if f !in db.flights then db
    else db.(flights := db.flights[f := db.flights[f].(endTime := Some(endTime), durationSec := Some(durationSec),
                                                       arrivalLat := Some(at.lat), arrivalLon := Some(at.lon))])
  }

  /** The leg the flight holds is judged by where the flight came down. */
  ghost function RecordArrival(db: Db, f: int, at: Position, dist: Distance): Db {
    if f !in db.flights || db.flights[f].legId.None? || db.flights[f].legId.value !in db.legs then db
    else
      var l := db.flights[f].legId.value;
      var nm := dist(at, db.legs[l].destination);
      db.(legs := db.legs[l := db.legs[l].(status := if nm <= ARRIVAL_RADIUS_NM then Flown else Diverted,
                                           deviation := Some(RoundTenth(nm)))])
  }

  /** Closing the flight, then recording its arrival on the leg it holds. */
  ghost function EndFlight(db: Db, f: int, endTime: int, at: Position, durationSec: int, dist: Distance): Db {
    RecordArrival(CloseFlight(db, f, endTime, at, durationSec), f, at, dist)
  }

  datatype HandRequest = MarkFlown | Reopen

  datatype HandDecision =
    | Allowed(status: LegStatus, deviation: Option<real>)
    | NotLinked | LinkNotManual | FlightNotEnded | LegNotPlanned | LegNotFlown

  function HandCloseDeviation(flight: Flight, leg: Leg, dist: Distance): Option<real> {
    if flight.arrivalLat.None? || flight.arrivalLon.None? then None
    else Some(RoundTenth(dist(Position(flight.arrivalLat.value, flight.arrivalLon.value), leg.destination)))
  }

  /** The gate for closing a hand-linked leg by hand; the first refusal wins. */
  function DecideHandClose(request: HandRequest, flight: Flight, leg: Option<Leg>, dist: Distance): HandDecision {
    if flight.legId.None? || leg.None? then NotLinked
    else if flight.linkSource != Some(Manual) then LinkNotManual
    else if flight.endTime.None? then FlightNotEnded
    else if request.MarkFlown? && !leg.value.status.Planned? then LegNotPlanned
    else if request.Reopen? && !leg.value.status.Flown? then LegNotFlown
    else if request.Reopen? then Allowed(Planned, None)
    else Allowed(Flown, HandCloseDeviation(flight, leg.value, dist))
  }

  /** The endpoint: the gate, then the write it decided. */
  ghost function HandClose(db: Db, f: int, request: HandRequest, dist: Distance): Db {
    if f !in db.flights then db
    else
      match DecideHandClose(request, db.flights[f], LegOf(db, f), dist)
      case Allowed(status, deviation) =>
        var l := db.flights[f].legId.value;
        db.(legs := db.legs[l := db.legs[l].(status := status, deviation := deviation)])
      case _ => db
  }
}
