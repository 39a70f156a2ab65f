/**
 * The transactions over flights, planned legs and trips, statement by
 * statement: foreign-key actions are explicit, and a throw restores the tables
 * as they were when the transaction began. Every method is verified against
 * the meaning LinkModel gives it.
 */
module LinkStore {
  import opened Wrappers
  import opened LinkModel
  import opened LinkRuns

  datatype StoreError =
    | FlightNotFound(flight: int)
    | LegNotFound(leg: int)
    | LegTaken(leg: int, holder: int)
    | LegHasLinkedFlight(leg: int, holder: int)
    | ForeignKeyViolation
    | HandCloseConflict(leg: int)

  datatype Outcome<+T> = Ok(value: T) | Threw(error: StoreError)

  class Store {
    var flights: map<int, Flight>
    var legs: map<int, Leg>
    var trips: map<int, Trip>
    var nextFlight: int
    var nextLeg: int
    var nextTrip: int
    const dist: Distance

    ghost function Tables(): Db
      reads this
    {
      Db(flights, legs, trips, nextFlight, nextLeg, nextTrip)
    }

    constructor (dist: Distance)
      ensures Tables() == EMPTY && Consistent(Tables())
      ensures this.dist == dist
    {
      flights, legs, trips := map[], map[], map[];
      nextFlight, nextLeg, nextTrip := 1, 1, 1;
      this.dist := dist;
    }

    /** The flight that holds a leg, if one does. */
    method HolderOf(l: int) returns (holder: Option<int>)
      ensures holder.Some? ==> Holds(Tables(), holder.value, l)
      ensures holder.None? ==> !Held(Tables(), l)
    {
      var rest := flights.Keys;
      while exists k :: k in rest
        invariant rest <= flights.Keys
        invariant forall f :: f in flights && f !in rest ==> flights[f].legId != Some(l)
        decreases |rest|
      {
        var f :| f in rest;
        if flights[f].legId == Some(l) {
          return Some(f);
        }
        rest := rest - {f};
      }
      return None;
    }

    // -------------------------------------------------------------- trips and flights

    method CreateTrip(name: string) returns (id: int)
      requires Consistent(Tables())
      modifies this
      ensures Tables() == LinkModel.CreateTrip(old(Tables()), name) && id == old(nextTrip)
      ensures Consistent(Tables())
    {
      CreateTripKeeps(Tables(), name);
      id := nextTrip;
      trips := trips[id := Trip(name, false)];
      nextTrip := nextTrip + 1;
    }

    /** Clear first, then set: at most one trip is active at every point in between. */
    method SetActiveTrip(t: Option<int>)
      requires Consistent(Tables())
      modifies this
      ensures Tables() == LinkModel.SetActiveTrip(old(Tables()), t)
      ensures Consistent(Tables())
    {
      SetActiveTripKeeps(Tables(), t);
      if t.Some? && t.value !in trips {
        return;
      }
      trips := map u | u in trips :: if trips[u].isActive then trips[u].(isActive := false) else trips[u];
      assert OneActiveTrip(Tables());
      if t.Some? {
        trips := trips[t.value := trips[t.value].(isActive := true)];
      }
      assert trips == LinkModel.SetActiveTrip(old(Tables()), t).trips;
    }

    method InsertFlight(startTime: int) returns (id: int)
      requires Consistent(Tables())
      modifies this
      ensures Tables() == LinkModel.InsertFlight(old(Tables()), startTime) && id == old(nextFlight)
      ensures Consistent(Tables())
    {
      InsertFlightKeeps(Tables(), startTime);
      id := nextFlight;
      flights := flights[id := Flight(startTime, None, None, None, None, None, None, None, None)];
      nextFlight := nextFlight + 1;
    }

    // -------------------------------------------------------------- planned legs

    /** The highest number in a trip or in the loose pool, zero when it is empty. */
    method HighestSeq(trip: Option<int>) returns (highest: int)
      requires RowsOk(Tables())
      ensures highest == MaxSeq(legs, Pool(legs, trip))
    {
      var pool := Pool(legs, trip);
      var rest := pool;
      highest := 0;
      while exists k :: k in rest
        invariant rest <= pool
        invariant forall l :: l in pool - rest ==> legs[l].seqNo <= highest
        invariant highest == 0 || exists l :: l in pool && legs[l].seqNo == highest
        invariant highest >= 0
        decreases |rest|
      {
        var l :| l in rest;
        if legs[l].seqNo > highest {
          highest := legs[l].seqNo;
        }
        rest := rest - {l};
      }
      MaxSeqBounds(legs, pool);
      MaxSeqAttained(legs, pool);
      assert pool - rest == pool;
    }

    /** Numbered one past the highest of its pool; the legs of no trip are a pool of their own. */
    method CreatePlannedLeg(trip: Option<int>, plan: Plan) returns (r: Outcome<int>)
      requires Consistent(Tables())
      modifies this
      ensures Tables() == CreateLeg(old(Tables()), trip, plan)
      ensures Consistent(Tables())
      ensures r == if trip.Some? && trip.value !in trips then Threw(ForeignKeyViolation) else Ok(old(nextLeg))
    {
      CreateLegKeeps(Tables(), trip, plan);
      var highest := HighestSeq(trip);
      if trip.Some? && trip.value !in trips {
        return Threw(ForeignKeyViolation);
      }
      r := Ok(nextLeg);
      legs := legs[nextLeg := Leg(trip, highest + 1, Planned, None, plan.departure, plan.departureIsAirport,
                                  plan.destination)];
      nextLeg := nextLeg + 1;
    }

    /** Deletes legs; the foreign key sets their flights' planned leg to null and touches nothing else. */
    method DeleteLegRows(doomed: set<int>)
      modifies this`legs, this`flights
      ensures legs == old(legs) - doomed
      ensures flights == map f | f in old(flights) ::
        if old(flights)[f].legId.Some? && old(flights)[f].legId.value in doomed
        then old(flights)[f].(legId := None) else old(flights)[f]
    {
      legs := legs - doomed;
      flights := map f | f in flights ::
        if flights[f].legId.Some? && flights[f].legId.value in doomed then flights[f].(legId := None) else flights[f];
    }

    /** The SET NULL action leaves the other link columns behind; they are cleared by hand. */
    method DeletePlannedLeg(l: int) returns (deleted: bool)
      requires Consistent(Tables())
      modifies this
      ensures Tables() == DeleteLeg(old(Tables()), l) && deleted == (l in old(legs))
      ensures Consistent(Tables())
    {
      DeleteLegKeeps(Tables(), l);
      var linked := HolderOf(l);
      var prev := if linked.Some? then flights[linked.value].prevTripId else None;
      deleted := l in legs;
      if !deleted {
        assert flights == DeleteLeg(Tables(), l).flights;
        return;
      }
      DeleteLegRows({l});
      if linked.Some? {
        var f := linked.value;
        flights := flights[f := flights[f].(tripId := prev, linkSource := None, prevTripId := None)];
      }
      forall f | f in flights
        ensures flights[f] == DeleteLeg(old(Tables()), l).flights[f]
      {
        assert old(flights)[f].legId == Some(l) ==> Holds(old(Tables()), f, l);
      }
      assert flights == DeleteLeg(old(Tables()), l).flights;
    }

    /** The restoring UPDATE, for each of the flights read beforehand. */
    method SendHome(linked: set<int>)
      requires linked <= flights.Keys
      modifies this`flights
      ensures flights == SentHome(old(flights), linked)
    {
      var rest := linked;
      while exists k :: k in rest
        invariant rest <= linked
        invariant flights == SentHome(old(flights), linked - rest)
        decreases |rest|
      {
        var f :| f in rest;
        flights := flights[f := flights[f].(tripId := flights[f].prevTripId, legId := None, linkSource := None,
                                            prevTripId := None)];
        rest := rest - {f};
      }
      assert linked - rest == linked;
    }

    /** Flights held by the trip's legs are sent home before the cascade makes them unfindable. */
    method DeleteTrip(t: int) returns (deleted: bool)
      requires Consistent(Tables())
      modifies this
      ensures Tables() == LinkModel.DeleteTrip(old(Tables()), t) && deleted == (t in old(trips))
      ensures Consistent(Tables())
    {
      DeleteTripKeeps(Tables(), t);
      DeleteTripStepwise(Tables(), t);
      var linked := LinkedInto(Db(flights, legs, trips, nextFlight, nextLeg, nextTrip), t);
      SendHome(linked);
      deleted := t in trips;
      trips := trips - {t};
      ghost var home := flights;
      assert forall f :: f in flights && flights[f].legId.Some? ==> flights[f].legId.value !in Pool(legs, Some(t));
      DeleteLegRows(Pool(legs, Some(t)));
      assert flights == home;
      assert flights == LinkModel.DeleteTrip(old(Tables()), t).flights;
    }

    /** One statement per listed id; a leg of another trip is passed over. */
    method ReorderPlannedLegs(t: int, ids: seq<int>)
      modifies this`legs
      ensures legs == Renumbered(old(legs), t, ids)
      ensures HasLastPlaces(old(legs), t, ids, legs)
    {
      RenumberedAt(legs, t, ids);
      for i := 0 to |ids|
        invariant legs == Renumbered(old(legs), t, ids[..i])
      {
        assert ids[..i + 1][..i] == ids[..i];
        if ids[i] in legs && legs[ids[i]].tripId == Some(t) {
          legs := legs[ids[i] := legs[ids[i]].(seqNo := i + 1)];
        }
      }
      assert ids[..|ids|] == ids;
    }

    /** The order endpoint: a list that is not this trip's legs, each once, is turned away. */
    method PutTripOrder(t: int, ids: seq<int>) returns (ok: bool)
      requires Consistent(Tables())
      modifies this`legs
      ensures Tables() == Reorder(old(Tables()), t, ids)
      ensures Consistent(Tables())
      ensures ok <==> t in trips && ListsTrip(old(Tables()), t, ids)
    {
      ReorderKeeps(Tables(), t, ids);
      ListsTripIsMultiset(Tables(), t, ids);
      ok := t in trips && multiset(ids) == multiset(Pool(legs, Some(t)));
      if ok {
        RenumberedIsReorder(Tables(), t, ids);
        ReorderPlannedLegs(t, ids);
      } else if ListsTrip(Tables(), t, ids) {
        NoTripNoLegs(Tables(), t, ids);
      }
    }

    method SetPlannedLegStatus(l: int, skipped: bool) returns (r: Outcome<bool>)
      requires Consistent(Tables())
      modifies this
      ensures Tables() == SetLegStatus(old(Tables()), l, skipped)
      ensures Consistent(Tables())
      ensures r.Threw? <==> (l in legs && Held(old(Tables()), l))
      ensures r.Threw? ==> r.error.LegHasLinkedFlight? && Holds(Tables(), r.error.holder, l)
      ensures r.Ok? ==> r.value == (l in legs)
    {
      SetLegStatusKeeps(Tables(), l, skipped);
      if l !in legs {
        return Ok(false);
      }
      var holder := HolderOf(l);
      if holder.Some? {
        return Threw(LegHasLinkedFlight(l, holder.value));
      }
      legs := legs[l := legs[l].(status := if skipped then Skipped else Planned, deviation := None)];
      return Ok(true);
    }

    // -------------------------------------------------------------- the link

    method UnlinkFlightFromPlannedLeg(f: int) returns (unlinked: bool)
      requires Consistent(Tables())
      modifies this`flights, this`legs
      ensures Tables() == Unlink(old(Tables()), f)
      ensures Consistent(Tables())
      ensures unlinked == (f in old(flights) && old(flights)[f].legId.Some?)
    {
      UnlinkKeeps(Tables(), f);
      if f !in flights || flights[f].legId.None? {
        return false;
      }
      var l := flights[f].legId.value;
      legs := legs[l := legs[l].(status := Planned, deviation := None)];
      flights := flights[f := flights[f].(tripId := flights[f].prevTripId, legId := None, linkSource := None,
                                          prevTripId := None)];
      return true;
    }

    /** For callers about to overwrite the trip or delete the row: the trip stays. */
    method ClearPlannedLegLink(f: int)
      requires Consistent(Tables())
      modifies this`flights, this`legs
      ensures Tables() == ClearLink(old(Tables()), f)
      ensures Consistent(Tables())
    {
      ClearLinkKeeps(Tables(), f);
      if f !in flights || flights[f].legId.None? {
        return;
      }
      var l := flights[f].legId.value;
      legs := legs[l := legs[l].(status := Planned, deviation := None)];
      flights := flights[f := flights[f].(legId := None, linkSource := None, prevTripId := None)];
    }

    /** A throw after the inner unlink rolls that unlink back too. */
    method LinkFlightToPlannedLeg(f: int, l: int, source: LinkSource) returns (r: Outcome<()>)
      requires Consistent(Tables())
      modifies this`flights, this`legs
      ensures Tables() == Link(old(Tables()), f, l, source)
      ensures Consistent(Tables())
      ensures r.Ok? <==> LinkAllowed(old(Tables()), f, l)
      ensures r.Threw? ==> Tables() == old(Tables())
      ensures r.Threw? ==>
        match r.error
        case FlightNotFound(g) => g == f && f !in flights
        case LegTaken(leg, holder) => leg == l && holder != f && Holds(Tables(), holder, l)
        case LegNotFound(leg) => leg == l && f in flights && l !in legs
        case _ => false
    {
      LinkKeeps(Tables(), f, l, source);
      if f !in flights {
        return Threw(FlightNotFound(f));
      }
      if flights[f].legId == Some(l) {
        return Ok(());
      }
      var flights0, legs0 := flights, legs;
      if flights[f].legId.Some? {
        var _ := UnlinkFlightFromPlannedLeg(f);
      }
      var holder := HolderOf(l);
      if holder.Some? {
        assert Holds(old(Tables()), holder.value, l);
        flights, legs := flights0, legs0;
        return Threw(LegTaken(l, holder.value));
      }
      assert !Held(old(Tables()), l) by {
        if Held(old(Tables()), l) {
          var g :| Holds(old(Tables()), g, l);
          assert Holds(Tables(), g, l);
        }
      }
      if l !in legs {
        flights, legs := flights0, legs0;
        return Threw(LegNotFound(l));
      }
      var trip := flights[f].tripId;
      flights := flights[f := flights[f].(prevTripId := trip, tripId := legs[l].tripId, legId := Some(l),
                                          linkSource := Some(source))];
      return Ok(());
    }

    method AssignFlightToTrip(f: int, t: int) returns (changed: bool)
      requires Consistent(Tables())
      modifies this
      ensures Tables() == AssignTrip(old(Tables()), f, t) && changed == (f in old(flights))
      ensures Consistent(Tables())
    {
      AssignTripKeeps(Tables(), f, t);
      if f in flights && flights[f].legId.Some? && legs[flights[f].legId.value].tripId != Some(t) {
        ClearPlannedLegLink(f);
      }
      changed := f in flights;
      if changed {
        flights := flights[f := flights[f].(tripId := Some(t))];
      }
    }

    method RemoveFlightFromTrip(f: int) returns (changed: bool)
      requires Consistent(Tables())
      modifies this
      ensures Tables() == RemoveFromTrip(old(Tables()), f) && changed == (f in old(flights))
      ensures Consistent(Tables())
    {
      RemoveFromTripKeeps(Tables(), f);
      ClearPlannedLegLink(f);
      changed := f in flights;
      if changed {
        flights := flights[f := flights[f].(tripId := None)];
      }
    }

    method DeleteFlight(f: int) returns (deleted: bool)
      requires Consistent(Tables())
      modifies this`flights, this`legs
      ensures Tables() == LinkModel.DeleteFlight(old(Tables()), f) && deleted == (f in old(flights))
      ensures Consistent(Tables())
    {
      DeleteFlightKeeps(Tables(), f);
      ClearPlannedLegLink(f);
      deleted := f in flights;
      flights := flights - {f};
      assert flights == LinkModel.DeleteFlight(old(Tables()), f).flights;
    }

    method DropRows(a: int, b: int)
      requires Consistent(Tables())
      modifies this`flights, this`legs
      ensures legs == ClearLink(ClearLink(old(Tables()), a), b).legs
      ensures flights == ClearLink(ClearLink(old(Tables()), a), b).flights - {a} - {b}
    {
      ClearPlannedLegLink(a);
      ClearPlannedLegLink(b);
      flights := flights - {a} - {b};
    }

    /** The merged row goes in first; then both links are cleared and both rows deleted. */
    method CombineFlights(a: int, b: int, fallbackEnd: int) returns (id: Option<int>)
      requires Consistent(Tables())
      modifies this
      ensures Tables() == Combine(old(Tables()), a, b, fallbackEnd)
      ensures Consistent(Tables())
      ensures id == if a in old(flights) && b in old(flights) then Some(old(nextFlight)) else None
    {
      CombineKeeps(Tables(), a, b, fallbackEnd);
      if a !in flights || b !in flights {
        return None;
      }
      var first, second := a, b;
      if flights[b].startTime < flights[a].startTime {
        first, second := b, a;
      }
      var row := Merged(flights[first], flights[second], fallbackEnd);
      id := Some(nextFlight);
      AddFlightKeeps(Tables(), row);
      MergeStepwise(Tables(), first, second, row);
      flights := flights[nextFlight := row];
      nextFlight := nextFlight + 1;
      assert Tables() == AddFlight(old(Tables()), row);
      DropRows(first, second);
      assert Tables() == Combine(old(Tables()), a, b, fallbackEnd);
    }

    // -------------------------------------------------------------- closing a leg

    method CloseFlight(f: int, endTime: int, at: Position, durationSec: int)
      modifies this`flights
      ensures flights == if f !in old(flights) then old(flights)
        else old(flights)[f := old(flights)[f].(endTime := Some(endTime), durationSec := Some(durationSec),
                                                arrivalLat := Some(at.lat), arrivalLon := Some(at.lon))]
    {
      if f in flights {
        flights := flights[f := flights[f].(endTime := Some(endTime), durationSec := Some(durationSec),
                                            arrivalLat := Some(at.lat), arrivalLon := Some(at.lon))];
      }
    }

    method RecordPlannedLegArrival(l: int, status: LegStatus, deviation: real)
      modifies this`legs
      ensures legs == if l !in old(legs) then old(legs)
        else old(legs)[l := old(legs)[l].(status := status, deviation := Some(deviation))]
    {
      if l in legs {
        legs := legs[l := legs[l].(status := status, deviation := Some(deviation))];
      }
    }

    /** The recorder's way out of a flight: the row is closed, then its leg is judged by where it landed. */
    method EndFlight(f: int, endTime: int, at: Position, durationSec: int)
      requires Consistent(Tables())
      modifies this
      ensures Tables() == LinkModel.EndFlight(old(Tables()), f, endTime, at, durationSec, dist)
      ensures Consistent(Tables())
    {
      EndFlightKeeps(Tables(), f, endTime, at, durationSec, dist);
      CloseFlight(f, endTime, at, durationSec);
      if f in flights && flights[f].legId.Some? {
        var l := flights[f].legId.value;
        var nm := dist(at, legs[l].destination);
        RecordPlannedLegArrival(l, if nm <= ARRIVAL_RADIUS_NM then Flown else Diverted, RoundTenth(nm));
      }
    }

    /** Re-asserts linked, manual and ended, and leaves the transition rule to the gate. */
    method SetPlannedLegHandOutcome(l: int, status: LegStatus, deviation: Option<real>) returns (r: Outcome<bool>)
      modifies this`legs
      ensures r.Ok? ==> (r.value <==> l in old(legs))
      ensures l !in old(legs) ==> r.Ok?
      ensures r.Ok? && l in old(legs) ==>
          legs == old(legs)[l := old(legs)[l].(status := status, deviation := deviation)]
      ensures r.Threw? || l !in old(legs) ==> legs == old(legs)
      ensures OneHolder(old(Tables())) && l in old(legs) ==>
        (r.Ok? <==>
           exists f :: Holds(old(Tables()), f, l) && flights[f].linkSource == Some(Manual) && flights[f].endTime.Some?)
    {
      if l !in legs {
        return Ok(false);
      }
      var holder := HolderOf(l);
      if holder.None? {
        return Threw(HandCloseConflict(l));
      }
      assert Holds(Tables(), holder.value, l);
      if flights[holder.value].linkSource != Some(Manual) || flights[holder.value].endTime.None? {
        return Threw(HandCloseConflict(l));
      }
      legs := legs[l := legs[l].(status := status, deviation := deviation)];
      return Ok(true);
    }

    /** The endpoint: whatever the gate allows, the writer accepts. */
    method HandClose(f: int, request: HandRequest) returns (decision: HandDecision)
      requires Consistent(Tables()) && f in flights
      modifies this`legs
      ensures Consistent(Tables())
      ensures decision == DecideHandClose(request, old(flights)[f], LegOf(old(Tables()), f), dist)
      ensures Tables() == LinkModel.HandClose(old(Tables()), f, request, dist)
    {
      HandCloseKeeps(Tables(), f, request, dist);
      HandGateIsExact(Tables(), f, request, dist);
      var held := flights[f].legId;
      var leg := if held.Some? then Some(legs[held.value]) else None;
      decision := DecideHandClose(request, flights[f], leg, dist);
      if decision.Allowed? {
        assert Holds(Tables(), f, held.value);
        var r := SetPlannedLegHandOutcome(held.value, decision.status, decision.deviation);
        assert r.Ok? && r.value;
      }
    }
  }
}
