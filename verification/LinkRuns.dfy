/** What every operation of the link store keeps, and what whole runs of them keep. */
module LinkRuns {
  import opened Wrappers
  import opened LinkModel

  datatype Op =
    | CreateTripOp(name: string)
    | SetActiveTripOp(active: Option<int>)
    | InsertFlightOp(startTime: int)
    | CreateLegOp(pool: Option<int>, plan: Plan)
    | DeleteLegOp(l: int)
    | DeleteTripOp(t: int)
    | ReorderOp(t: int, ids: seq<int>)
    | SetLegStatusOp(l: int, skipped: bool)
    | LinkOp(f: int, l: int, source: LinkSource)
    | UnlinkOp(f: int)
    | AssignTripOp(f: int, t: int)
    | RemoveFromTripOp(f: int)
    | DeleteFlightOp(f: int)
    | CombineOp(f: int, g: int, fallbackEnd: int)
    | CloseFlightOp(f: int, endTime: int, at: Position, durationSec: int)
    | EndFlightOp(f: int, endTime: int, at: Position, durationSec: int)
    | HandCloseOp(f: int, request: HandRequest)

  ghost function Step(db: Db, op: Op, dist: Distance): Db {
    match op
    case CreateTripOp(name) => CreateTrip(db, name)
    case SetActiveTripOp(active) => SetActiveTrip(db, active)
    case InsertFlightOp(startTime) => InsertFlight(db, startTime)
    case CreateLegOp(pool, plan) => CreateLeg(db, pool, plan)
    case DeleteLegOp(l) => DeleteLeg(db, l)
    case DeleteTripOp(t) => DeleteTrip(db, t)
    case ReorderOp(t, ids) => Reorder(db, t, ids)
    case SetLegStatusOp(l, skipped) => SetLegStatus(db, l, skipped)
    case LinkOp(f, l, source) => Link(db, f, l, source)
    case UnlinkOp(f) => Unlink(db, f)
    case AssignTripOp(f, t) => AssignTrip(db, f, t)
    case RemoveFromTripOp(f) => RemoveFromTrip(db, f)
    case DeleteFlightOp(f) => DeleteFlight(db, f)
    case CombineOp(f, g, fallbackEnd) => Combine(db, f, g, fallbackEnd)
    case CloseFlightOp(f, endTime, at, durationSec) => CloseFlight(db, f, endTime, at, durationSec)
    case EndFlightOp(f, endTime, at, durationSec) => EndFlight(db, f, endTime, at, durationSec, dist)
    case HandCloseOp(f, request) => HandClose(db, f, request, dist)
  }

  ghost function Run(db: Db, ops: seq<Op>, dist: Distance): Db
    decreases |ops|
  {
    if ops == [] then db else Run(Step(db, ops[0], dist), ops[1..], dist)
  }

  predicate Stays(db: Db, l: int) {
    l in db.legs && IsClosed(db.legs[l])
  }

  /** A closed leg stays held as long as its holder keeps its link. */
  lemma HeldCarriesOver(db: Db, db': Db)
    requires forall f ::
      (f in db.flights && db.flights[f].legId.Some?)
      ==> (f in db'.flights && db'.flights[f].legId == db.flights[f].legId) || !Stays(db', db.flights[f].legId.value)
    ensures forall l :: Held(db, l) && Stays(db', l) ==> Held(db', l)
  {
    forall l | Held(db, l) && Stays(db', l)
      ensures Held(db', l)
    {
      var f :| Holds(db, f, l);
      assert Holds(db', f, l);
    }
  }

  lemma CreateTripKeeps(db: Db, name: string)
    requires Consistent(db)
    ensures Consistent(CreateTrip(db, name))
  {
    HeldCarriesOver(db, CreateTrip(db, name));
  }

  lemma SetActiveTripKeeps(db: Db, t: Option<int>)
    requires Consistent(db)
    ensures Consistent(SetActiveTrip(db, t))
  {
    HeldCarriesOver(db, SetActiveTrip(db, t));
  }

  lemma InsertFlightKeeps(db: Db, startTime: int)
    requires Consistent(db)
    ensures Consistent(InsertFlight(db, startTime))
  {
    HeldCarriesOver(db, InsertFlight(db, startTime));
  }

  lemma MaxSeqBounds(legs: map<int, Leg>, ids: set<int>)
    requires ids <= legs.Keys
    ensures forall l :: l in ids ==> legs[l].seqNo <= MaxSeq(legs, ids)
    decreases ids
  {
    if exists l :: l in ids {
      var l :| l in ids && MaxSeq(legs, ids) == Max(legs[l].seqNo, MaxSeq(legs, ids - {l}));
      MaxSeqBounds(legs, ids - {l});
    } else {
      assert ids == {};
    }
  }

  lemma MaxSeqAttained(legs: map<int, Leg>, ids: set<int>)
    requires ids <= legs.Keys
    ensures MaxSeq(legs, ids) >= 0
    ensures MaxSeq(legs, ids) == 0 || exists l :: l in ids && legs[l].seqNo == MaxSeq(legs, ids)
    decreases ids
  {
    if exists l :: l in ids {
      var l :| l in ids && MaxSeq(legs, ids) == Max(legs[l].seqNo, MaxSeq(legs, ids - {l}));
      MaxSeqAttained(legs, ids - {l});
    } else {
      assert ids == {};
    }
  }

  /** An unlinked flight may sit in any trip. */
  lemma MoveKeeps(db: Db, f: int, trip: Option<int>)
    requires Consistent(db) && f in db.flights && db.flights[f].legId.None?
    ensures Consistent(db.(flights := db.flights[f := db.flights[f].(tripId := trip)]))
  {
    HeldCarriesOver(db, db.(flights := db.flights[f := db.flights[f].(tripId := trip)]));
  }

  lemma AddFlightKeeps(db: Db, row: Flight)
    requires Consistent(db) && row.legId.None? && LinkColumns(row)
    ensures Consistent(AddFlight(db, row))
  {
    HeldCarriesOver(db, AddFlight(db, row));
  }

  lemma DeleteFlightKeeps(db: Db, f: int)
    requires Consistent(db)
    ensures Consistent(DeleteFlight(db, f))
  {
    HeldCarriesOver(db, DeleteFlight(db, f));
  }

  lemma TwoDeletesKeep(db: Db, a: int, b: int)
    requires Consistent(db)
    ensures Consistent(DeleteFlight(DeleteFlight(db, a), b))
  {
    DeleteFlightKeeps(db, a);
    DeleteFlightKeeps(DeleteFlight(db, a), b);
  }

  lemma CreateLegKeeps(db: Db, t: Option<int>, plan: Plan)
    requires Consistent(db)
    ensures Consistent(CreateLeg(db, t, plan))
  {
    MaxSeqBounds(db.legs, Pool(db.legs, t));
    HeldCarriesOver(db, CreateLeg(db, t, plan));
  }

  lemma DeleteLegKeeps(db: Db, l: int)
    requires Consistent(db)
    ensures Consistent(DeleteLeg(db, l))
  {
    HeldCarriesOver(db, DeleteLeg(db, l));
  }

  lemma DeleteTripKeeps(db: Db, t: int)
    requires Consistent(db)
    ensures Consistent(DeleteTrip(db, t))
  {
    var db' := DeleteTrip(db, t);
    HeldCarriesOver(db, db');
  }

  lemma {:induction false} SomeLastPlace(ids: seq<int>, l: int)
    requires l in ids
    ensures exists i: nat :: IsLastPlace(ids, l, i)
  {
    var n := |ids| - 1;
    if ids[n] == l {
      assert IsLastPlace(ids, l, n);
    } else {
      SomeLastPlace(ids[..n], l);
      var i: nat :| IsLastPlace(ids[..n], l, i);
      assert IsLastPlace(ids, l, i);
    }
  }

  lemma OnlyNumbersChange(legs: map<int, Leg>, t: int, ids: seq<int>, after: map<int, Leg>, l: int)
    requires HasLastPlaces(legs, t, ids, after) && l in legs
    ensures after[l] == legs[l].(seqNo := after[l].seqNo)
  {
    if l in ids && legs[l].tripId == Some(t) {
      SomeLastPlace(ids, l);
    }
  }

  /** Whatever the list, the last statement that names a leg decides its number. */
  lemma {:induction false} RenumberedAt(legs: map<int, Leg>, t: int, ids: seq<int>)
    ensures HasLastPlaces(legs, t, ids, Renumbered(legs, t, ids))
  {
    if ids == [] {
    } else {
      var n := |ids| - 1;
      var before, after := Renumbered(legs, t, ids[..n]), Renumbered(legs, t, ids);
      RenumberedAt(legs, t, ids[..n]);
      forall l | l in legs && (l !in ids || legs[l].tripId != Some(t))
        ensures after[l] == legs[l]
      {
        assert l in ids[..n] ==> l in ids;
        assert before[l] == legs[l];
      }
      forall l, i: nat | l in legs && legs[l].tripId == Some(t) && IsLastPlace(ids, l, i)
        ensures after[l] == legs[l].(seqNo := i + 1)
      {
        if ids[n] == l {
          assert i == n;
          OnlyNumbersChange(legs, t, ids[..n], before, l);
        } else {
          assert IsLastPlace(ids[..n], l, i);
        }
      }
    }
  }

  lemma TwiceCountsTwo(ids: seq<int>, i: nat, j: nat)
    requires i < j < |ids|
    ensures ids[i] == ids[j] ==> multiset(ids)[ids[j]] >= 2
  {
    var before, after := ids[..j], ids[j + 1..];
    assert ids == before + [ids[j]] + after;
    assert before[i] in multiset(before);
  }

  lemma {:induction false} CountsOnce(ids: seq<int>, l: int)
    requires forall i, j :: 0 <= i < j < |ids| ==> ids[i] != ids[j]
    ensures multiset(ids)[l] == if l in ids then 1 else 0
  {
    if ids == [] {
    } else {
      CountsOnce(ids[..|ids| - 1], l);
      assert ids == ids[..|ids| - 1] + [ids[|ids| - 1]];
    }
  }

  lemma ReorderKeeps(db: Db, t: int, ids: seq<int>)
    requires Consistent(db)
    ensures Consistent(Reorder(db, t, ids))
  {
    var db' := Reorder(db, t, ids);
    HeldCarriesOver(db, db');
    if ListsTrip(db, t, ids) {
      forall l, m | l in db'.legs && m in db'.legs && l != m && db'.legs[l].tripId == db'.legs[m].tripId
        ensures db'.legs[l].seqNo != db'.legs[m].seqNo
      {
        assert l in ids <==> l in Pool(db.legs, Some(t));
        assert m in ids <==> m in Pool(db.legs, Some(t));
      }
    }
  }

  /** On a list that passes the guard, the statements do what the endpoint promises. */
  lemma RenumberedIsReorder(db: Db, t: int, ids: seq<int>)
    requires ListsTrip(db, t, ids)
    ensures Renumbered(db.legs, t, ids) == Reorder(db, t, ids).legs
  {
    RenumberedAt(db.legs, t, ids);
    forall l | l in db.legs
      ensures Renumbered(db.legs, t, ids)[l] == Reorder(db, t, ids).legs[l]
    {
      assert l in ids <==> l in Pool(db.legs, Some(t));
      assert l in ids ==> IsLastPlace(ids, l, IndexOf(ids, l));
    }
  }

  lemma NoTripNoLegs(db: Db, t: int, ids: seq<int>)
    requires Consistent(db) && t !in db.trips && ListsTrip(db, t, ids)
    ensures Reorder(db, t, ids) == db
  {
    forall l | l in db.legs
      ensures db.legs[l].tripId != Some(t)
    {
      assert LegOk(db, l);
    }
    assert Pool(db.legs, Some(t)) == {};
    assert forall l :: l in ids ==> l in Pool(db.legs, Some(t));
    assert Reorder(db, t, ids).legs == db.legs;
  }

  /** Exactly the lists that hold each leg of the trip once, in any order. */
  lemma ListsTripIsMultiset(db: Db, t: int, ids: seq<int>)
    ensures ListsTrip(db, t, ids) <==> multiset(ids) == multiset(Pool(db.legs, Some(t)))
  {
    var pool := Pool(db.legs, Some(t));
    if multiset(ids) == multiset(pool) {
      forall i, j | 0 <= i < j < |ids|
        ensures ids[i] != ids[j]
      {
        TwiceCountsTwo(ids, i, j);
        assert multiset(pool)[ids[j]] <= 1;
      }
      forall l
        ensures l in ids <==> l in pool
      {
        assert l in multiset(ids) <==> l in multiset(pool);
      }
    }
    if ListsTrip(db, t, ids) {
      forall l
        ensures multiset(ids)[l] == multiset(pool)[l]
      {
        CountsOnce(ids, l);
        assert l in ids <==> l in (set m | m in ids);
      }
    }
  }

  lemma SetLegStatusKeeps(db: Db, l: int, skipped: bool)
    requires Consistent(db)
    ensures Consistent(SetLegStatus(db, l, skipped))
  {
    HeldCarriesOver(db, SetLegStatus(db, l, skipped));
  }

  lemma FirstLinkKeeps(db: Db, f: int, l: int, source: LinkSource)
    requires Consistent(db) && LinkAllowed(db, f, l) && db.flights[f].legId.None?
    ensures Consistent(Link(db, f, l, source))
  {
    HeldCarriesOver(db, Link(db, f, l, source));
    forall g | g in db.flights
      ensures db.flights[g].legId != Some(l)
    {
      assert !Holds(db, g, l);
    }
  }

  /** Re-targeting is a full unlink followed by a full link. */
  lemma RetargetIsUnlinkThenLink(db: Db, f: int, l: int, source: LinkSource)
    requires Consistent(db) && LinkAllowed(db, f, l) && db.flights[f].legId != Some(l)
    ensures LinkAllowed(Unlink(db, f), f, l)
    ensures Link(db, f, l, source) == Link(Unlink(db, f), f, l, source)
  {
    var mid := Unlink(db, f);
    forall g | Holds(mid, g, l)
      ensures Holds(db, g, l)
    {}
    assert Link(db, f, l, source).flights == Link(mid, f, l, source).flights;
  }

  lemma UnlinkKeeps(db: Db, f: int)
    requires Consistent(db)
    ensures Consistent(Unlink(db, f))
  {
    HeldCarriesOver(db, Unlink(db, f));
  }

  lemma LinkKeeps(db: Db, f: int, l: int, source: LinkSource)
    requires Consistent(db)
    ensures Consistent(Link(db, f, l, source))
  {
    if LinkAllowed(db, f, l) && db.flights[f].legId != Some(l) {
      UnlinkKeeps(db, f);
      RetargetIsUnlinkThenLink(db, f, l, source);
      FirstLinkKeeps(Unlink(db, f), f, l, source);
    }
  }

  lemma ClearLinkKeeps(db: Db, f: int)
    requires Consistent(db)
    ensures Consistent(ClearLink(db, f))
  {
    HeldCarriesOver(db, ClearLink(db, f));
  }

  lemma AssignTripKeeps(db: Db, f: int, t: int)
    requires Consistent(db)
    ensures Consistent(AssignTrip(db, f, t))
  {
    ClearLinkKeeps(db, f);
    if f in db.flights {
      MoveKeeps(ClearLink(db, f), f, Some(t));
      var leg := LegOf(db, f);
      if leg.Some? && leg.value.tripId == Some(t) {
        assert AssignTrip(db, f, t) == db.(flights := db.flights[f := db.flights[f]]);
        assert db.flights[f := db.flights[f]] == db.flights;
      }
    }
  }

  lemma RemoveFromTripKeeps(db: Db, f: int)
    requires Consistent(db)
    ensures Consistent(RemoveFromTrip(db, f))
  {
    ClearLinkKeeps(db, f);
    if f in db.flights {
      MoveKeeps(ClearLink(db, f), f, None);
    }
  }

  lemma CombineKeeps(db: Db, a: int, b: int, e: int)
    requires Consistent(db)
    ensures Consistent(Combine(db, a, b, e))
  {
    if a in db.flights && b in db.flights {
      var first := if db.flights[a].startTime <= db.flights[b].startTime then a else b;
      var second := if first == a then b else a;
      TwoDeletesKeep(db, first, second);
      AddFlightKeeps(DeleteFlight(DeleteFlight(db, first), second), Merged(db.flights[first], db.flights[second], e));
    } else {
      assert Combine(db, a, b, e) == db;
    }
  }

  /** Clearing a link reopens the leg that deleting the row would have reopened. */
  lemma ClearThenDelete(db: Db, f: int)
    requires f in db.flights
    ensures ClearLink(db, f).legs == DeleteFlight(db, f).legs
    ensures ClearLink(db, f).flights - {f} == DeleteFlight(db, f).flights
  {
    assert ClearLink(db, f).flights - {f} == db.flights - {f};
  }

  lemma AddThenDelete(db: Db, row: Flight, f: int)
    requires f in db.flights && f != db.nextFlight
    ensures DeleteFlight(AddFlight(db, row), f) == AddFlight(DeleteFlight(db, f), row)
  {
    assert DeleteFlight(AddFlight(db, row), f).flights == AddFlight(DeleteFlight(db, f), row).flights;
  }

  /** What a cleared link does not touch. */
  lemma ClearSkips(db: Db, f: int, g: int)
    requires f in db.flights && g in db.flights && f != g
    ensures ClearLink(db, f).flights[g] == db.flights[g]
    ensures ReopenHeldLeg(ClearLink(db, f), g) == ReopenHeldLeg(DeleteFlight(db, f), g)
  {}

  /** Insert the merged row, clear both links, delete both rows: the order the transaction takes. */
  lemma MergeStepwise(db: Db, a: int, b: int, row: Flight)
    requires Consistent(db) && a in db.flights && b in db.flights && row.legId.None?
    ensures
      var wider := AddFlight(db, row);
      var cleared := ClearLink(ClearLink(wider, a), b);
      var without := DeleteFlight(DeleteFlight(db, a), b);
      && cleared.legs == without.legs
      && cleared.flights - {a} - {b} == without.flights[db.nextFlight := row]
  {
    var wider := AddFlight(db, row);
    assert FlightOk(db, a) && FlightOk(db, b);
    ClearThenDelete(wider, a);
    AddThenDelete(db, row, a);
    if a != b {
      ClearThenDelete(ClearLink(wider, a), b);
      AddThenDelete(DeleteFlight(db, a), row, b);
      ClearSkips(wider, a, b);
    }
  }

  /** The flights a trip's legs hold, read before the cascade removes those legs. */
  function LinkedInto(db: Db, t: int): set<int> {
    set f | f in db.flights && db.flights[f].legId.Some?
      && db.flights[f].legId.value in db.legs && db.legs[db.flights[f].legId.value].tripId == Some(t)
  }

  /** Sending those flights home leaves the cascade nothing to set to NULL. */
  lemma DeleteTripStepwise(db: Db, t: int)
    requires Consistent(db)
    ensures
      var flights := SentHome(db.flights, LinkedInto(db, t));
      && flights == DeleteTrip(db, t).flights
      && db.legs - Pool(db.legs, Some(t)) == DeleteTrip(db, t).legs
      && forall f :: f in flights && flights[f].legId.Some? ==> flights[f].legId.value !in Pool(db.legs, Some(t))
  {}

  /** A recorder that dies right here leaves an ended flight on a planned leg, which is consistent. */
  lemma CloseFlightKeeps(db: Db, f: int, e: int, at: Position, d: int)
    requires Consistent(db)
    ensures Consistent(CloseFlight(db, f, e, at, d))
  {
    HeldCarriesOver(db, CloseFlight(db, f, e, at, d));
  }

  lemma RecordArrivalKeeps(db: Db, f: int, at: Position, dist: Distance)
    requires Consistent(db) && (f in db.flights ==> db.flights[f].endTime.Some?)
    ensures Consistent(RecordArrival(db, f, at, dist))
  {
    var db' := RecordArrival(db, f, at, dist);
    forall l | l in db'.legs && IsClosed(db'.legs[l])
      ensures Held(db', l)
    {
      var g := if Holds(db, f, l) then f else (var g :| Holds(db, g, l); g);
      assert Holds(db', g, l);
    }
  }

  lemma EndFlightKeeps(db: Db, f: int, e: int, at: Position, d: int, dist: Distance)
    requires Consistent(db)
    ensures Consistent(EndFlight(db, f, e, at, d, dist))
  {
    CloseFlightKeeps(db, f, e, at, d);
    RecordArrivalKeeps(CloseFlight(db, f, e, at, d), f, at, dist);
  }

  lemma HandCloseKeeps(db: Db, f: int, request: HandRequest, dist: Distance)
    requires Consistent(db)
    ensures Consistent(HandClose(db, f, request, dist))
  {
    var db' := HandClose(db, f, request, dist);
    forall l | l in db'.legs && IsClosed(db'.legs[l])
      ensures Held(db', l)
    {
      var g := if Holds(db, f, l) then f else (var g :| Holds(db, g, l); g);
      assert Holds(db', g, l);
    }
  }

  lemma StepKeeps(db: Db, op: Op, dist: Distance)
    requires Consistent(db)
    ensures Consistent(Step(db, op, dist))
  {
    match op
    case CreateTripOp(name) => CreateTripKeeps(db, name);
    case SetActiveTripOp(active) => SetActiveTripKeeps(db, active);
    case InsertFlightOp(startTime) => InsertFlightKeeps(db, startTime);
    case CreateLegOp(pool, plan) => CreateLegKeeps(db, pool, plan);
    case DeleteLegOp(l) => DeleteLegKeeps(db, l);
    case DeleteTripOp(t) => DeleteTripKeeps(db, t);
    case ReorderOp(t, ids) => ReorderKeeps(db, t, ids);
    case SetLegStatusOp(l, skipped) => SetLegStatusKeeps(db, l, skipped);
    case LinkOp(f, l, source) => LinkKeeps(db, f, l, source);
    case UnlinkOp(f) => UnlinkKeeps(db, f);
    case AssignTripOp(f, t) => AssignTripKeeps(db, f, t);
    case RemoveFromTripOp(f) => RemoveFromTripKeeps(db, f);
    case DeleteFlightOp(f) => DeleteFlightKeeps(db, f);
    case CombineOp(f, g, e) => CombineKeeps(db, f, g, e);
    case CloseFlightOp(f, e, at, d) => CloseFlightKeeps(db, f, e, at, d);
    case EndFlightOp(f, e, at, d) => EndFlightKeeps(db, f, e, at, d, dist);
    case HandCloseOp(f, request) => HandCloseKeeps(db, f, request, dist);
  }

  /** Every database reachable from a consistent one, the empty one included, is consistent. */
  lemma {:induction false} RunKeeps(db: Db, ops: seq<Op>, dist: Distance)
    requires Consistent(db)
    ensures Consistent(EMPTY)
    ensures Consistent(Run(db, ops, dist))
    decreases |ops|
  {
    if ops == [] {
    } else {
      StepKeeps(db, ops[0], dist);
      RunKeeps(Step(db, ops[0], dist), ops[1..], dist);
    }
  }

  // ---------------------------------------------------------------- a flight's home trip

  /** The operations in which the user overrules where flight `f` belongs, or ends its row. */
  predicate MovesHome(op: Op, f: int) {
    match op
    case AssignTripOp(g, _) => g == f
    case RemoveFromTripOp(g) => g == f
    case DeleteFlightOp(g) => g == f
    case CombineOp(g, h, _) => g == f || h == f
    case _ => false
  }

  lemma StepKeepsHome(db: Db, op: Op, f: int, dist: Distance)
    requires Consistent(db) && f in db.flights && !MovesHome(op, f)
    ensures f in Step(db, op, dist).flights
    ensures Home(Step(db, op, dist).flights[f]) == Home(db.flights[f])
  {}

  /**
   * Whatever links, re-targets, closes, reopens, deletes or reorders in
   * between, a flight's home trip never moves, so dropping its link at the end
   * puts it back there, by whichever of the three routes the link is dropped.
   */
  lemma {:induction false} RunKeepsHome(db: Db, ops: seq<Op>, f: int, dist: Distance)
    requires Consistent(db) && f in db.flights
    requires forall i :: 0 <= i < |ops| ==> !MovesHome(ops[i], f)
    ensures
      var end := Run(db, ops, dist);
      && Consistent(end)
      && f in end.flights
      && Unlink(end, f).flights[f].tripId == Home(db.flights[f])
      && (end.flights[f].legId.Some? ==>
            var l := end.flights[f].legId.value;
            && DeleteLeg(end, l).flights[f].tripId == Home(db.flights[f])
            && (end.legs[l].tripId.Some? ==>
                  DeleteTrip(end, end.legs[l].tripId.value).flights[f].tripId == Home(db.flights[f])))
    decreases |ops|
  {
    if ops == [] {
    } else {
      StepKeeps(db, ops[0], dist);
      StepKeepsHome(db, ops[0], f, dist);
      RunKeepsHome(Step(db, ops[0], dist), ops[1..], f, dist);
    }
  }

  // ---------------------------------------------------------------- link calls on one flight

  /** A sequence of link calls for one flight, refused ones included. */
  ghost function LinkAll(db: Db, f: int, calls: seq<(int, LinkSource)>): Db
    decreases |calls|
  {
    if calls == [] then db else LinkAll(Link(db, f, calls[0].0, calls[0].1), f, calls[1..])
  }

  /** The legs the flight held after some call of the sequence. */
  ghost function Touched(db: Db, f: int, calls: seq<(int, LinkSource)>): set<int>
    decreases |calls|
  {
    if calls == [] then {}
    else
      var next := Link(db, f, calls[0].0, calls[0].1);
      (if f in next.flights && next.flights[f].legId.Some? then {next.flights[f].legId.value} else {})
      + Touched(next, f, calls[1..])
  }

  ghost function ReopenAll(db: Db, ls: set<int>): Db {
    db.(legs := map l | l in db.legs :: if l in ls then Reopened(db.legs[l]) else db.legs[l])
  }

  lemma LinkThenUnlink(db: Db, f: int, l: int, source: LinkSource)
    requires Consistent(db) && f in db.flights
    ensures
      var next := Link(db, f, l, source);
      && f in next.flights
      && Unlink(next, f) == ReopenAll(Unlink(db, f),
           if next.flights[f].legId.Some? then {next.flights[f].legId.value} else {})
  {
    var next := Link(db, f, l, source);
    var back := ReopenAll(Unlink(db, f), if next.flights[f].legId.Some? then {next.flights[f].legId.value} else {});
    if next != db {
      RetargetIsUnlinkThenLink(db, f, l, source);
      assert next.legs == Unlink(db, f).legs;
    }
    forall k | k in back.legs
      ensures Unlink(next, f).legs[k] == back.legs[k]
    {}
    assert Unlink(next, f).legs == back.legs;
    assert Unlink(next, f).flights == back.flights;
  }

  lemma {:induction false} LinkCallsThenUnlink(db: Db, f: int, calls: seq<(int, LinkSource)>)
    requires Consistent(db) && f in db.flights
    ensures Unlink(LinkAll(db, f, calls), f) == ReopenAll(Unlink(db, f), Touched(db, f, calls))
    decreases |calls|
  {
    if calls == [] {
      assert ReopenAll(Unlink(db, f), {}).legs == Unlink(db, f).legs;
    } else {
      var next := Link(db, f, calls[0].0, calls[0].1);
      LinkKeeps(db, f, calls[0].0, calls[0].1);
      LinkThenUnlink(db, f, calls[0].0, calls[0].1);
      LinkCallsThenUnlink(next, f, calls[1..]);
      assert ReopenAll(Unlink(next, f), Touched(next, f, calls[1..])).legs
          == ReopenAll(Unlink(db, f), Touched(db, f, calls)).legs;
    }
  }

  lemma {:induction false} TouchedAreFree(db: Db, f: int, calls: seq<(int, LinkSource)>)
    requires Consistent(db) && f in db.flights
    ensures forall l, g :: l in Touched(db, f, calls) && Holds(db, g, l) ==> g == f
    ensures Touched(db, f, calls) <= db.legs.Keys
    decreases |calls|
  {
    if calls == [] {
    } else {
      var next := Link(db, f, calls[0].0, calls[0].1);
      LinkKeeps(db, f, calls[0].0, calls[0].1);
      TouchedAreFree(next, f, calls[1..]);
      forall l, g | l in Touched(db, f, calls) && Holds(db, g, l)
        ensures g == f
      {
        if g != f {
          assert Holds(next, g, l);
        }
      }
    }
  }

  /**
   * A flight that starts out unlinked, any sequence of link calls (first links,
   * re-targets, repeats, refusals), then an unlink: the flights table is
   * exactly what it was, and the only legs that differ are the ones the flight
   * held on the way, each planned again with no deviation.
   */
  lemma LinkCallsAreUndone(db: Db, f: int, calls: seq<(int, LinkSource)>)
    requires Consistent(db) && f in db.flights && db.flights[f].legId.None?
    ensures Unlink(LinkAll(db, f, calls), f) == ReopenAll(db, Touched(db, f, calls))
    ensures forall l :: l in Touched(db, f, calls) ==> l in db.legs && !Held(db, l)
  {
    LinkCallsThenUnlink(db, f, calls);
    TouchedAreFree(db, f, calls);
  }

  lemma LegDeletionUnlinksFirst(db: Db, f: int, l: int)
    requires Consistent(db) && Holds(db, f, l)
    ensures DeleteLeg(db, l) == DeleteLeg(Unlink(db, f), l)
  {
    assert DeleteLeg(db, l).flights == DeleteLeg(Unlink(db, f), l).flights;
    assert DeleteLeg(db, l).legs == DeleteLeg(Unlink(db, f), l).legs;
  }

  lemma TripDeletionSparesFlight(db: Db, f: int, l: int, t: int)
    requires Consistent(db) && Holds(db, f, l) && db.legs[l].tripId == Some(t)
    ensures DeleteTrip(db, t).flights == DeleteTrip(Unlink(db, f), t).flights
  {
    forall g | g in db.flights
      ensures DeleteTrip(db, t).flights[g] == DeleteTrip(Unlink(db, f), t).flights[g]
    {
      assert g != f ==> Unlink(db, f).flights[g] == db.flights[g];
    }
  }

  lemma TripDeletionUnlinksFirst(db: Db, f: int, l: int, t: int)
    requires Consistent(db) && Holds(db, f, l) && db.legs[l].tripId == Some(t)
    ensures DeleteTrip(db, t) == DeleteTrip(Unlink(db, f), t)
  {
    TripDeletionSparesFlight(db, f, l, t);
    assert DeleteTrip(db, t).legs == DeleteTrip(Unlink(db, f), t).legs;
  }

  /** Deleting the held leg, or its trip, drops the link exactly as an unlink would have. */
  lemma DeletionUnlinksFirst(db: Db, f: int, l: int)
    requires Consistent(db) && Holds(db, f, l)
    ensures DeleteLeg(db, l) == DeleteLeg(Unlink(db, f), l)
    ensures db.legs[l].tripId.Some? ==>
      DeleteTrip(db, db.legs[l].tripId.value) == DeleteTrip(Unlink(db, f), db.legs[l].tripId.value)
  {
    LegDeletionUnlinksFirst(db, f, l);
    if db.legs[l].tripId.Some? {
      TripDeletionUnlinksFirst(db, f, l, db.legs[l].tripId.value);
    }
  }

  lemma {:induction false} LinkAllKeeps(db: Db, f: int, calls: seq<(int, LinkSource)>)
    requires Consistent(db)
    ensures Consistent(LinkAll(db, f, calls))
    decreases |calls|
  {
    if calls == [] {
    } else {
      LinkKeeps(db, f, calls[0].0, calls[0].1);
      LinkAllKeeps(Link(db, f, calls[0].0, calls[0].1), f, calls[1..]);
    }
  }

  /**
   * The same when the sequence ends with the deletion of the leg then held, or
   * of that leg's trip: what is left is the original database with the touched
   * legs reopened and that leg, or trip, deleted from it.
   */
  lemma LinkCallsThenDeletion(db: Db, f: int, calls: seq<(int, LinkSource)>, l: int)
    requires Consistent(db) && f in db.flights && db.flights[f].legId.None?
    requires Holds(LinkAll(db, f, calls), f, l)
    ensures
      var linked, undone := LinkAll(db, f, calls), ReopenAll(db, Touched(db, f, calls));
      && l in linked.legs && DeleteLeg(linked, l) == DeleteLeg(undone, l)
      && (linked.legs[l].tripId.Some? ==>
            DeleteTrip(linked, linked.legs[l].tripId.value) == DeleteTrip(undone, linked.legs[l].tripId.value))
  {
    LinkAllKeeps(db, f, calls);
    LinkCallsAreUndone(db, f, calls);
    DeletionUnlinksFirst(LinkAll(db, f, calls), f, l);
  }

  // ---------------------------------------------------------------- letting go of a leg

  /**
   * The operations by which flight `f` lets go of leg `l`: unlink, re-target, a
   * change of trip, or the end of a row.
   */
  ghost predicate Releases(db: Db, op: Op, f: int, l: int)
    requires l in db.legs
  {
    match op
    case UnlinkOp(g) => g == f
    case LinkOp(g, m, _) => g == f && m != l && LinkAllowed(db, f, m)
    case AssignTripOp(g, t) => g == f && db.legs[l].tripId != Some(t)
    case RemoveFromTripOp(g) => g == f
    case DeleteFlightOp(g) => g == f
    case CombineOp(g, h, _) => (g == f || h == f) && g in db.flights && h in db.flights
    case DeleteLegOp(m) => m == l
    case DeleteTripOp(t) => db.legs[l].tripId == Some(t)
    case _ => false
  }

  /** Those, and no others. */
  lemma ReleasedExactlyBy(db: Db, op: Op, f: int, l: int, dist: Distance)
    requires Consistent(db) && Holds(db, f, l)
    ensures !Holds(Step(db, op, dist), f, l) <==> Releases(db, op, f, l)
  {}

  /** `ops[i]` is the operation at which the flight lets go. */
  ghost predicate ReleasedAt(db: Db, ops: seq<Op>, i: nat, f: int, l: int, dist: Distance) {
    && i < |ops|
    && var before := Run(db, ops[..i], dist);
       Consistent(before) && Holds(before, f, l) && Releases(before, ops[i], f, l)
  }

  /** A flight that no longer holds its leg at the end of a run let go of it at some operation of the run. */
  lemma {:induction false} SomeOperationReleased(db: Db, ops: seq<Op>, f: int, l: int, dist: Distance)
    requires Consistent(db) && Holds(db, f, l) && !Holds(Run(db, ops, dist), f, l)
    ensures exists i: nat :: ReleasedAt(db, ops, i, f, l, dist)
    decreases |ops|
  {
    if ops == [] {
    } else {
      var next := Step(db, ops[0], dist);
      StepKeeps(db, ops[0], dist);
      ReleasedExactlyBy(db, ops[0], f, l, dist);
      if Holds(next, f, l) {
        SomeOperationReleased(next, ops[1..], f, l, dist);
        var i: nat :| ReleasedAt(next, ops[1..], i, f, l, dist);
        assert ops[..i + 1][0] == ops[0] && ops[..i + 1][1..] == ops[1..][..i];
        assert ReleasedAt(db, ops, i + 1, f, l, dist);
      } else {
        assert ReleasedAt(db, ops, 0, f, l, dist);
      }
    }
  }

  /** Whenever a second flight may be linked to a leg, the first has let go of it in between. */
  lemma NoLegTwiceWithoutRelease(db: Db, ops: seq<Op>, f: int, g: int, l: int, dist: Distance)
    requires Consistent(db) && Holds(db, f, l) && f != g
    requires LinkAllowed(Run(db, ops, dist), g, l)
    ensures exists i: nat :: ReleasedAt(db, ops, i, f, l, dist)
  {
    RunKeeps(db, ops, dist);
    SomeOperationReleased(db, ops, f, l, dist);
  }

  // ---------------------------------------------------------------- closing by hand

  /** Exactly which requests the gate lets through; it never answers diverted. */
  lemma HandGateIsExact(db: Db, f: int, request: HandRequest, dist: Distance)
    requires Consistent(db) && f in db.flights
    ensures
      var decision := DecideHandClose(request, db.flights[f], LegOf(db, f), dist);
      && (decision.Allowed? <==>
            exists l :: Holds(db, f, l) && db.flights[f].linkSource == Some(Manual) && db.flights[f].endTime.Some?
              && db.legs[l].status == (if request.MarkFlown? then Planned else Flown))
      && (decision.Allowed? ==> decision.status == (if request.MarkFlown? then Flown else Planned))
      && (decision.Allowed? && request.Reopen? ==> decision.deviation.None?)
  {
    if db.flights[f].legId.Some? {
      assert Holds(db, f, db.flights[f].legId.value);
    }
  }

  /** Marking a leg flown by hand and reopening it leaves no trace. */
  lemma HandCloseRoundTrip(db: Db, f: int, dist: Distance)
    requires Consistent(db) && f in db.flights
    requires DecideHandClose(MarkFlown, db.flights[f], LegOf(db, f), dist).Allowed?
    ensures HandClose(HandClose(db, f, MarkFlown, dist), f, Reopen, dist) == db
  {
    var l := db.flights[f].legId.value;
    assert db.legs[l].deviation.None?;
    var again := HandClose(HandClose(db, f, MarkFlown, dist), f, Reopen, dist);
    assert again.legs == db.legs;
  }
}
