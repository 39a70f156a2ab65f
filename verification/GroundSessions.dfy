/** The pre-flight record: at most one session is ever open. */
module GroundSessions {
  import opened Wrappers

  datatype Source = Auto | Manual

  datatype EndReason = FlightStarted | SimExit | CrashEnd | SlewEnd | Superseded | Corrected | ManualEnd

  datatype Ending = Ending(at: int, reason: EndReason, flight: Option<int>)

  datatype Session = Session(
    source: Source,
    airportIcao: Option<string>,
    airportName: Option<string>,
    lat: Option<real>,
    lon: Option<real>,
    parking: Option<string>,
    parkingSource: Option<Source>,
    legId: Option<int>,
    legSource: Option<Source>,
    aircraft: Option<string>,
    startedAt: int,
    ended: Option<Ending>)

  datatype Table = Table(rows: map<int, Session>, next: int)

  ghost predicate IsOpen(t: Table, id: int) {
    id in t.rows && t.rows[id].ended.None?
  }

  ghost predicate Valid(t: Table) {
    && (forall id :: id in t.rows ==> id < t.next)
    && (forall i, j :: IsOpen(t, i) && IsOpen(t, j) ==> i == j)
  }

  ghost predicate SomeOpen(t: Table) {
    exists id :: IsOpen(t, id)
  }

  ghost function OpenId(t: Table): (id: int)
    requires SomeOpen(t)
    ensures IsOpen(t, id)
  {
    var id :| IsOpen(t, id); id
  }

  // ---------------------------------------------------------------- what each write means

  ghost function Insert(t: Table, row: Session): Table {
    Table(t.rows[t.next := row], t.next + 1)
  }

  ghost function CloseOpen(t: Table, at: int, reason: EndReason, flight: Option<int>): Table {
    if !SomeOpen(t) then t
    else t.(rows := t.rows[OpenId(t) := t.rows[OpenId(t)].(ended := Some(Ending(at, reason, flight)))])
  }

  function Fill<T>(current: Option<T>, value: Option<T>): Option<T> {
    if current.Some? then current else value
  }

  /** Only the blank columns; never the source, never a column that holds a value. */
  function Filled(row: Session, patch: Session): Session {
    row.(airportIcao := Fill(row.airportIcao, patch.airportIcao),
         airportName := Fill(row.airportName, patch.airportName),
         lat := Fill(row.lat, patch.lat),
         lon := Fill(row.lon, patch.lon),
         parking := Fill(row.parking, patch.parking),
         parkingSource := Fill(row.parkingSource, patch.parkingSource),
         legId := Fill(row.legId, patch.legId),
         legSource := Fill(row.legSource, patch.legSource),
         aircraft := Fill(row.aircraft, patch.aircraft))
  }

  datatype Airport = Airport(icao: string, name: string)

  /** The row detection would insert. */
  function Detected(airport: Option<Airport>, at: Position, stand: Option<string>, leg: Option<int>, aircraft: string,
                    now: int): Session {
    Session(Auto,
            if airport.Some? then Some(airport.value.icao) else None,
            if airport.Some? then Some(airport.value.name) else None,
            Some(at.lat), Some(at.lon), stand, if stand.Some? then Some(Auto) else None,
            leg, if leg.Some? then Some(Auto) else None, Some(aircraft), now, None)
  }

  /** The patch for a session already open: no airport at all when the detected one disagrees. */
  function Agreeing(row: Session, detected: Session): Session {
    if row.airportIcao.None? || detected.airportIcao.None? || row.airportIcao == detected.airportIcao then detected
    else detected.(airportIcao := None, airportName := None)
  }

  /** Entering the ground state: adopt the open session, or insert one. */
  ghost function Enter(t: Table, detected: Session): Table {
    if SomeOpen(t) then
      var row := t.rows[OpenId(t)];
      t.(rows := t.rows[OpenId(t) := Filled(row, Agreeing(row, detected))])
    else Insert(t, detected)
  }

  datatype ManualEntry = ManualEntry(
    icao: string, parkingGiven: bool, parking: Option<string>, legGiven: bool, leg: Option<int>,
    aircraft: Option<string>)

  function ByHand(e: ManualEntry, now: int): Session {
    Session(Manual, Some(e.icao), None, None, None, e.parking, if e.parking.Some? then Some(Manual) else None,
            e.leg, if e.leg.Some? then Some(Manual) else None, e.aircraft, now, None)
  }

  /** The operator's word on an automatic session at the same airport: only the fields supplied change. */
  function Refined(row: Session, e: ManualEntry): Session {
    var parked := if e.parkingGiven then row.(parking := e.parking, parkingSource := Some(Manual)) else row;
    if e.legGiven && e.leg.Some? then parked.(legId := e.leg, legSource := Some(Manual)) else parked
  }

  /** An automatic session at the very airport the operator names. */
  ghost predicate RefinesOpen(t: Table, e: ManualEntry) {
    SomeOpen(t) && t.rows[OpenId(t)].source.Auto? && t.rows[OpenId(t)].airportIcao == Some(e.icao)
  }

  ghost function EnterByHand(t: Table, e: ManualEntry, now: int): Table {
    if !SomeOpen(t) then Insert(t, ByHand(e, now))
    else
      var row := t.rows[OpenId(t)];
      if RefinesOpen(t, e) then t.(rows := t.rows[OpenId(t) := Refined(row, e)])
      else Insert(CloseOpen(t, now, if row.source.Manual? then Superseded else Corrected, None), ByHand(e, now))
  }

  // ---------------------------------------------------------------- foreign keys

  function Without(id: Option<int>, deleted: set<int>): Option<int> {
    if id.Some? && id.value in deleted then None else id
  }

  /** The row once these flights and legs are deleted: SET NULL on either reference, and nothing else. */
  function Unreferenced(row: Session, flights: set<int>, legs: set<int>): Session {
    row.(legId := Without(row.legId, legs),
         ended := match row.ended
           case None => None
           case Some(e) => Some(e.(flight := Without(e.flight, flights))))
  }

  function AllUnreferenced(t: Table, flights: set<int>, legs: set<int>): Table {
    t.(rows := map id | id in t.rows :: Unreferenced(t.rows[id], flights, legs))
  }

  /** Deleting flights and legs ends no session and opens none. */
  lemma UnreferencedKeeps(t: Table, flights: set<int>, legs: set<int>)
    requires Valid(t)
    ensures
      var after := AllUnreferenced(t, flights, legs);
      && Valid(after)
      && (SomeOpen(after) <==> SomeOpen(t))
      && (SomeOpen(t) ==> SomeOpen(after) && OpenId(after) == OpenId(t))
  {
    var after := AllUnreferenced(t, flights, legs);
    assert forall id :: IsOpen(after, id) <==> IsOpen(t, id);
    if SomeOpen(t) {
      assert IsOpen(after, OpenId(t));
    }
  }

  // ---------------------------------------------------------------- the transactions

  lemma InsertKeeps(t: Table, row: Session)
    requires Valid(t) && !SomeOpen(t) && row.ended.None?
    ensures Valid(Insert(t, row)) && IsOpen(Insert(t, row), t.next)
  {
    forall i | IsOpen(Insert(t, row), i)
      ensures i == t.next
    {
      assert !IsOpen(t, i);
    }
  }

  /** Changing an open row without ending it leaves every session as open as it was. */
  lemma RewriteKeeps(t: Table, row: Session)
    requires Valid(t) && SomeOpen(t) && row.ended.None?
    ensures
      var after := t.(rows := t.rows[OpenId(t) := row]);
      Valid(after) && IsOpen(after, OpenId(t))
  {
    var after := t.(rows := t.rows[OpenId(t) := row]);
    forall i | IsOpen(after, i)
      ensures i == OpenId(t)
    {
      assert i != OpenId(t) ==> IsOpen(t, i);
    }
  }

  lemma CloseOpenKeeps(t: Table, at: int, reason: EndReason, flight: Option<int>)
    requires Valid(t)
    ensures Valid(CloseOpen(t, at, reason, flight)) && !SomeOpen(CloseOpen(t, at, reason, flight))
  {
    forall i | IsOpen(CloseOpen(t, at, reason, flight), i)
      ensures IsOpen(t, i) && SomeOpen(t) && i != OpenId(t)
    {}
  }

  lemma EnterKeeps(t: Table, detected: Session)
    requires Valid(t) && detected.ended.None?
    ensures Valid(Enter(t, detected)) && SomeOpen(Enter(t, detected))
  {
    if SomeOpen(t) {
      RewriteKeeps(t, Filled(t.rows[OpenId(t)], Agreeing(t.rows[OpenId(t)], detected)));
    } else {
      InsertKeeps(t, detected);
    }
  }

  lemma EnterByHandKeeps(t: Table, e: ManualEntry, now: int)
    requires Valid(t)
    ensures Valid(EnterByHand(t, e, now)) && SomeOpen(EnterByHand(t, e, now))
  {
    if RefinesOpen(t, e) {
      RewriteKeeps(t, Refined(t.rows[OpenId(t)], e));
    } else if SomeOpen(t) {
      var reason := if t.rows[OpenId(t)].source.Manual? then Superseded else Corrected;
      CloseOpenKeeps(t, now, reason, None);
      InsertKeeps(CloseOpen(t, now, reason, None), ByHand(e, now));
    } else {
      InsertKeeps(t, ByHand(e, now));
    }
  }

  class GroundSessionStore {
    var table: Table

    constructor ()
      ensures table == Table(map[], 1) && Valid(table)
    {
      table := Table(map[], 1);
    }

    method GetOpen() returns (id: Option<int>)
      ensures id.Some? ==> IsOpen(table, id.value)
      ensures id.None? ==> !SomeOpen(table)
    {
      var rest := table.rows.Keys;
      while exists k :: k in rest
        invariant rest <= table.rows.Keys
        invariant forall i :: i in table.rows && i !in rest ==> table.rows[i].ended.Some?
        decreases |rest|
      {
        var i :| i in rest;
        if table.rows[i].ended.None? {
          return Some(i);
        }
        rest := rest - {i};
      }
      return None;
    }

    /** The strict path: refused while a session is open. */
    method InsertGroundSession(row: Session) returns (id: Option<int>)
      requires Valid(table) && row.ended.None?
      modifies this
      ensures Valid(table)
      ensures id.None? <==> SomeOpen(old(table))
      ensures table == if SomeOpen(old(table)) then old(table) else Insert(old(table), row)
    {
      var open := GetOpen();
      if open.Some? {
        return None;
      }
      InsertKeeps(table, row);
      id := Some(table.next);
      table := Table(table.rows[table.next := row], table.next + 1);
    }

    method CloseOpenGroundSession(now: int, reason: EndReason, flight: Option<int>) returns (closed: bool)
      requires Valid(table)
      modifies this
      ensures table == CloseOpen(old(table), now, reason, flight)
      ensures Valid(table) && !SomeOpen(table)
      ensures closed == SomeOpen(old(table))
    {
      var open := GetOpen();
      CloseOpenKeeps(table, now, reason, flight);
      if open.None? {
        return false;
      }
      var row := table.rows[open.value];
      table := table.(rows := table.rows[open.value := row.(ended := Some(Ending(now, reason, flight)))]);
      return true;
    }

    method FillOpenGroundSessionGaps(patch: Session)
      requires Valid(table)
      modifies this
      ensures table == if !SomeOpen(old(table)) then old(table)
        else
          var id := OpenId(old(table));
          old(table).(rows := old(table).rows[id := Filled(old(table).rows[id], patch)])
      ensures Valid(table)
    {
      var open := GetOpen();
      if open.None? {
        return;
      }
      var row := table.rows[open.value];
      RewriteKeeps(table, Filled(row, patch));
      if row.airportIcao.None? { row := row.(airportIcao := patch.airportIcao); }
      if row.airportName.None? { row := row.(airportName := patch.airportName); }
      if row.lat.None? { row := row.(lat := patch.lat); }
      if row.lon.None? { row := row.(lon := patch.lon); }
      if row.parking.None? { row := row.(parking := patch.parking); }
      if row.parkingSource.None? { row := row.(parkingSource := patch.parkingSource); }
      if row.legId.None? { row := row.(legId := patch.legId); }
      if row.legSource.None? { row := row.(legSource := patch.legSource); }
      if row.aircraft.None? { row := row.(aircraft := patch.aircraft); }
      table := table.(rows := table.rows[open.value := row]);
    }

    /** Adoption never gives a row a code and a name of two different airports. */
    method EnterGround(detected: Session)
      requires Valid(table) && detected.ended.None?
      modifies this
      ensures table == Enter(old(table), detected)
      ensures Valid(table) && SomeOpen(table)
    {
      EnterKeeps(table, detected);
      var open := GetOpen();
      if open.Some? {
        FillOpenGroundSessionGaps(Agreeing(table.rows[open.value], detected));
      } else {
        var _ := InsertGroundSession(detected);
      }
    }

    method InsertManualGroundSession(e: ManualEntry, now: int) returns (created: bool)
      requires Valid(table)
      modifies this
      ensures table == EnterByHand(old(table), e, now)
      ensures Valid(table) && SomeOpen(table)
      ensures !created <==> RefinesOpen(old(table), e)
    {
      EnterByHandKeeps(table, e, now);
      var open := GetOpen();
      if open.Some? && table.rows[open.value].source.Auto? && table.rows[open.value].airportIcao == Some(e.icao) {
        var row := table.rows[open.value];
        if e.parkingGiven {
          row := row.(parking := e.parking, parkingSource := Some(Manual));
        }
        if e.legGiven && e.leg.Some? {
          row := row.(legId := e.leg, legSource := Some(Manual));
        }
        table := table.(rows := table.rows[open.value := row]);
        return false;
      }
      if open.Some? {
        var reason := if table.rows[open.value].source.Manual? then Superseded else Corrected;
        var _ := CloseOpenGroundSession(now, reason, None);
      }
      var _ := InsertGroundSession(ByHand(e, now));
      return true;
    }
  }

  // ---------------------------------------------------------------- what the writes promise

  /** Filling twice is filling once, and nothing already known is ever lost. */
  lemma FillingIsIdempotent(row: Session, patch: Session, other: Session)
    ensures Filled(Filled(row, patch), patch) == Filled(row, patch)
    ensures Filled(row, patch).source == row.source && Filled(row, patch).ended == row.ended
    ensures row.airportIcao.Some? ==> Filled(row, patch).airportIcao == row.airportIcao
    ensures row.parking.Some? ==> Filled(row, patch).parking == row.parking
    ensures row.legId.Some? ==> Filled(row, patch).legId == row.legId
  {}

  /** A name is only ever added next to the code of the same airport. */
  lemma NameMatchesCode(row: Session, airport: Option<Airport>, at: Position, stand: Option<string>, leg: Option<int>,
                        aircraft: string, now: int)
    requires row.airportName.None?
    ensures
      var after := Filled(row, Agreeing(row, Detected(airport, at, stand, leg, aircraft, now)));
      && (after.airportName.Some? ==> airport.Some?)
      && (airport.Some? && after.airportName.Some? ==>
            after.airportIcao == Some(airport.value.icao) && after.airportName == Some(airport.value.name))
  {}

  // ---------------------------------------------------------------- the operator's entries

  /** A session the operator typed in: only what was typed, marked as typed. */
  predicate Typed(row: Session, e: ManualEntry, now: int) {
    && row.source.Manual? && row.startedAt == now && row.ended.None? && row.aircraft == e.aircraft
    && row.airportIcao == Some(e.icao) && row.airportName.None? && row.lat.None? && row.lon.None?
    && row.parking == e.parking && row.parkingSource == (if e.parking.None? then None else Some(Manual))
    && row.legId == e.leg && row.legSource == (if e.leg.None? then None else Some(Manual))
  }

  /** No session changes but these, and none is removed. */
  ghost predicate OthersStay(t: Table, after: Table, ids: set<int>) {
    forall id :: id in t.rows && id !in ids ==> id in after.rows && after.rows[id] == t.rows[id]
  }

  /** With nothing open, the entry is the open session. */
  lemma EntryOpens(t: Table, e: ManualEntry, now: int)
    requires Valid(t) && !SomeOpen(t)
    ensures
      var after := EnterByHand(t, e, now);
      && after.rows.Keys == t.rows.Keys + {t.next} && after.next == t.next + 1
      && Typed(after.rows[t.next], e, now) && OthersStay(t, after, {t.next})
  {}

  /** An automatic session at the airport named keeps its source and takes the stand and the leg that were given. */
  lemma EntryRefines(t: Table, e: ManualEntry, now: int, id: int)
    requires Valid(t) && IsOpen(t, id) && t.rows[id].source.Auto? && t.rows[id].airportIcao == Some(e.icao)
    ensures
      var row, after := t.rows[id], EnterByHand(t, e, now);
      && after.rows.Keys == t.rows.Keys && after.next == t.next && OthersStay(t, after, {id})
      && var now' := after.rows[id];
      && now' == row.(parking := now'.parking, parkingSource := now'.parkingSource,
                      legId := now'.legId, legSource := now'.legSource)
      && (if e.parkingGiven then now'.parking == e.parking && now'.parkingSource == Some(Manual)
          else now'.parking == row.parking && now'.parkingSource == row.parkingSource)
      && (if e.legGiven && e.leg.Some? then now'.legId == e.leg && now'.legSource == Some(Manual)
          else now'.legId == row.legId && now'.legSource == row.legSource)
  {}

  /** Any other open session ends, superseded if typed and corrected if detected, and the entry replaces it. */
  lemma EntryReplaces(t: Table, e: ManualEntry, now: int, id: int)
    requires Valid(t) && IsOpen(t, id) && (t.rows[id].source.Manual? || t.rows[id].airportIcao != Some(e.icao))
    ensures
      var row, after := t.rows[id], EnterByHand(t, e, now);
      && after.rows.Keys == t.rows.Keys + {t.next} && after.next == t.next + 1 && OthersStay(t, after, {id, t.next})
      && Typed(after.rows[t.next], e, now)
      && after.rows[id] ==
         row.(ended := Some(Ending(now, if row.source.Manual? then Superseded else Corrected, None)))
  {}
}
