/**
 * What is done behind the recorder's back: legs deleted under a live session,
 * flights deleted or merged, and databases written by somebody else.
 */
module RecorderEdits {
  import opened Wrappers
  import opened Track
  import opened AcarsKeys
  import opened RecorderModel
  import opened RecorderRuns
  import FM = FlightMerge
  import GS = GroundSessions

  // ---------------------------------------------------------------- any database will do

  /** What the schema enforces, and a clock that has not been turned back on a flight in progress. */
  ghost predicate SchemaOk(db: Stored, now: int) {
    && db.points.Keys == db.flights.Keys
    && (forall f :: f in db.flights ==> f < db.nextFlight)
    && (forall f :: IsOpenFlight(db, f) ==> InTime(db.flights[f], db.points[f], now))
    && PlansOk(db) && GS.Valid(db.sessions) && OncePerKey(db.messages)
  }

  /** The runs may start on any database: whatever it holds counts as other people's flights. */
  lemma EveryDatabaseQualifies(db: Stored, now: int, cfg: Config)
    requires SchemaOk(db, now)
    ensures StoredOk(db, db.flights.Keys, now, cfg.dist)
    ensures MessagesOk(Boot(db, db.flights.Keys, db.flights.Keys, now))
  {}

  // ---------------------------------------------------------------- a leg deleted under the live session

  /**
   * Deleting legs leaves the live session as it was, and so equal to the open row
   * exactly when it names none of them.
   */
  lemma DeletedLegStaysLive(r: Recorder, links: map<int, int>, legs: map<int, PlannedLeg>, cfg: Config)
    requires Inv(r, cfg) && PlansFit(r.db, links, legs)
    requires r.m.live.Some? && r.m.live == OpenSession(r.db.sessions)
    ensures
      var after := ChangePlans(r, links, legs);
      && after.m.live == r.m.live
      && (after.m.live == OpenSession(after.db.sessions) <==> !NamesOne(r.m.live, r.db.legs.Keys - legs.Keys))
  {
    PlanChangeKeeps(r, links, legs, cfg);
  }

  const AT_GATE := Frame(NOWHERE, 0.0, 0.0, 0.0, true, 1, "C172", Some(true), Some(0))

  const LEG_SEVEN := World(None, Some(7), None, true, true)

  /** Parked frames in a row, one every second, for as long as they lead nowhere. */
  function Waiting(r: Recorder, streak: int): Recorder {
    r.(m := r.m.(lastFrame := Some(AT_GATE), bootChecked := true, airborneStreak := 0, groundStreak := streak),
       clock := streak * 1000)
  }

  lemma ParkedFrame(r: Recorder, k: int, cfg: Config)
    requires r.m.state.IDLE? && r.db.flights == map[] && r.m.groundStreak == k && r.clock == k * 1000
    ensures
      var counted := Waiting(r, k + 1);
      Step(r, 1000, Telemetry(AT_GATE, LEG_SEVEN), cfg) ==
        if k + 1 >= GROUND_DEBOUNCE_FRAMES then EnterGround(counted, AT_GATE, LEG_SEVEN) else counted
  {
    var seen := Seen(Later(r, 1000), AT_GATE);
    assert forall f :: !IsOpenFlight(seen.db, f);
    assert CheckAirborne(seen, AT_GATE, LEG_SEVEN, cfg) == Counted(Booted(seen), 0);
  }

  lemma RunOne(r: Recorder, dt: nat, e: Event, rest: seq<(nat, Event)>, cfg: Config)
    ensures Run(r, [(dt, e)] + rest, cfg) == Run(Step(r, dt, e, cfg), rest, cfg)
  {
    assert ([(dt, e)] + rest)[1..] == rest;
  }

  function Parked(n: nat): seq<(nat, Event)> {
    if n == 0 then [] else [(1000, Telemetry(AT_GATE, LEG_SEVEN))] + Parked(n - 1)
  }

  lemma {:induction false} StaysParked(r: Recorder, k: int, n: nat, cfg: Config)
    requires r.m.state.IDLE? && r.db.flights == map[] && k + n == GROUND_DEBOUNCE_FRAMES && n > 0
    requires r.m.groundStreak == k && r.clock == k * 1000
    ensures Run(r, Parked(n), cfg) == EnterGround(Waiting(r, GROUND_DEBOUNCE_FRAMES), AT_GATE, LEG_SEVEN)
    decreases n
  {
    ParkedFrame(r, k, cfg);
    RunOne(r, 1000, Telemetry(AT_GATE, LEG_SEVEN), Parked(n - 1), cfg);
    if n == 1 {
    } else {
      StaysParked(Waiting(r, k + 1), k + 1, n - 1, cfg);
      assert Waiting(Waiting(r, k + 1), GROUND_DEBOUNCE_FRAMES) == Waiting(r, GROUND_DEBOUNCE_FRAMES);
    }
  }

  const ONE_LEG := Stored(map[], map[], 1, GS.Table(map[], 1), [], map[], map[7 := PlannedLeg(NOWHERE, None)])

  /** Five seconds at the stand of leg 7. */
  lemma ParkedAtSeven(cfg: Config)
    ensures
      var parked := Run(Boot(ONE_LEG, {}, {}, 0), Parked(5), cfg);
      && Inv(parked, cfg) && parked.m.state.GROUND? && parked.m.current.None? && parked.db.legs == ONE_LEG.legs
      && parked.m.live.Some? && parked.m.live == OpenSession(parked.db.sessions)
      && parked.m.live.value.legId == Some(7)
  {
    var start := Boot(ONE_LEG, {}, {}, 0);
    RunKeeps(start, Parked(5), cfg);
    StaysParked(start, 0, 5, cfg);
    var t := GS.Enter(ONE_LEG.sessions, GS.Detected(None, NOWHERE, None, Some(7), "C172", 5000));
    assert forall id :: !GS.IsOpen(ONE_LEG.sessions, id);
    assert GS.IsOpen(t, 1);
  }

  /** It happens: leg 7 is then deleted. The row names no leg, the status still names leg 7. */
  lemma StatusNamesADeletedLeg(cfg: Config)
    ensures
      var parked := Run(Boot(ONE_LEG, {}, {}, 0), Parked(5), cfg);
      var after := ChangePlans(parked, map[], map[]);
      && after.m.state.GROUND? && after.m.live.Some? && after.m.live.value.legId == Some(7)
      && OpenSession(after.db.sessions) == Some(after.m.live.value.(legId := None))
  {
    ParkedAtSeven(cfg);
    var parked := Run(Boot(ONE_LEG, {}, {}, 0), Parked(5), cfg);
    var none: map<int, PlannedLeg> := map[];
    assert 7 in ONE_LEG.legs && 7 !in none;
    PlanChangeKeeps(parked, map[], none, cfg);
  }

  // ---------------------------------------------------------------- what a merged flight tells

  lemma SummaryDescribes(s: Summary, row: FlightRow, points: seq<Point>, dist: Distance)
    requires Summarises(s, points, dist) && row.summary == Some(s)
    ensures FM.Describes(ColumnsOf(row), points, FM.ROUNDING_NM, dist)
  {
    FM.RoundTenthIsNear(PathLength(points, dist));
  }

  /** The merged row survives the deletion of its halves. */
  lemma CombinationStores(r: Recorder, a: int, b: int, first: int, second: int, cfg: Config)
    requires Inv(r, cfg) && MayCombine(r, a, b)
    requires (first, second) == if r.db.flights[a].startTime <= r.db.flights[b].startTime then (a, b) else (b, a)
    ensures
      var after, id := CombineFlights(r, a, b, cfg.dist), r.db.nextFlight;
      && after.db.flights == r.db.flights
           [id := MergedRow(r.db.flights[first], r.db.flights[second],
                            r.db.points[first], r.db.points[second], cfg.dist)]
           - {a, b}
      && id in after.db.flights && id in after.db.points
      && after.db.points[id] == FM.ByTime(FM.Merged(r.db.points[first], r.db.points[second]))
  {
    WithMergedStored(r, first, second, cfg);
  }

  /**
   * Two flights of the recorder's own merge into one row whose maxima and
   * number of points are right, and whose distance is that of the two tracks
   * flown as one within three roundings.
   */
  lemma MergedRowTells(r: Recorder, a: int, b: int, first: int, second: int, cfg: Config)
    requires Inv(r, cfg) && MayCombine(r, a, b)
    requires (first, second) == if r.db.flights[a].startTime <= r.db.flights[b].startTime then (a, b) else (b, a)
    requires r.db.flights[a].summary.Some? && r.db.flights[b].summary.Some? && a !in r.h.others && b !in r.h.others
    ensures
      var after, id := CombineFlights(r, a, b, cfg.dist), r.db.nextFlight;
      && id in after.db.flights && after.db.flights[id].summary.Some? && id in after.db.points
      && var row, joined := after.db.flights[id], r.db.points[first] + r.db.points[second];
      && FM.Describes(ColumnsOf(row), joined, 3.0 * FM.ROUNDING_NM, cfg.dist)
      && row.summary.value.pointCount == |after.db.points[id]|
      && row.startTime == r.db.flights[first].startTime
      && row.summary.value.endTime == r.db.flights[second].summary.value.endTime
      && row.summary.value.durationSec ==
         r.db.flights[a].summary.value.durationSec + r.db.flights[b].summary.value.durationSec
  {
    var before, after := r.db.points[first], r.db.points[second];
    CombinationStores(r, a, b, first, second, cfg);
    assert RowOk(r.db, r.h.others, a, r.clock, cfg.dist) && RowOk(r.db, r.h.others, b, r.clock, cfg.dist);
    SummaryDescribes(r.db.flights[first].summary.value, r.db.flights[first], before, cfg.dist);
    SummaryDescribes(r.db.flights[second].summary.value, r.db.flights[second], after, cfg.dist);
    FM.MergedColumnsDescribe(ColumnsOf(r.db.flights[first]), ColumnsOf(r.db.flights[second]), before, after,
                             FM.ROUNDING_NM, FM.ROUNDING_NM, cfg.dist);
    FM.ByTimeSorts(FM.Merged(before, after));
    assert |FM.ByTime(FM.Merged(before, after))| == |multiset(FM.ByTime(FM.Merged(before, after)))|;
  }

  /** An open flight counts no seconds, and when the later one is open the row ends with its last point, nowhere. */
  lemma MergedRowSpans(first: FlightRow, second: FlightRow, before: seq<Point>, after: seq<Point>, dist: Distance)
    requires after != []
    ensures
      var row := MergedRow(first, second, before, after, dist);
      && row.startTime == first.startTime && row.departure == first.departure && row.summary.Some?
      && var s := row.summary.value;
      && (first.summary.None? && second.summary.None? ==>
            && s.durationSec == 0
            && s.distanceNm == RoundTenth(if before == [] then 0.0 else dist(Last(before).at, after[0].at)))
      && (first.summary.Some? && second.summary.None? ==> s.durationSec == first.summary.value.durationSec)
      && (first.summary.None? && second.summary.Some? ==> s.durationSec == second.summary.value.durationSec)
      && (second.summary.None? ==> s.endTime == Last(after).ts && s.arrival.None?)
      && (second.summary.Some? ==>
            s.endTime == second.summary.value.endTime && s.arrival == second.summary.value.arrival)
  {}

  // ---------------------------------------------------------------- what a deletion leaves

  /** The legs these flights held have no outcome any more; every other leg is as it was. */
  ghost predicate LegsFreed(db: Stored, after: Stored, flights: set<int>) {
    && after.legs.Keys == db.legs.Keys
    && forall l :: l in db.legs ==>
         after.legs[l] ==
           if exists f :: f in flights && f in db.links && db.links[f] == l
           then PlannedLeg(db.legs[l].destination, None) else db.legs[l]
  }

  /** The messages about these flights are gone, and no others. */
  ghost predicate MessagesDropped(db: Stored, after: Stored, flights: set<int>) {
    forall m :: m in after.messages <==> m in db.messages && FlightsOf(m.key) !! flights
  }

  /** Sessions forget these flights and nothing else. */
  ghost predicate SessionsForget(t: GS.Table, after: GS.Table, flights: set<int>) {
    && after.next == t.next && after.rows.Keys == t.rows.Keys
    && forall id :: id in t.rows ==>
         var row := t.rows[id];
         after.rows[id] ==
           if row.ended.Some? && row.ended.value.flight.Some? && row.ended.value.flight.value in flights
           then row.(ended := Some(row.ended.value.(flight := None))) else row
  }

  lemma CascadeTells(r: Recorder, flights: set<int>)
    ensures MessagesDropped(r.db, Cascaded(r, flights, {}).db, flights)
    ensures SessionsForget(r.db.sessions, Cascaded(r, flights, {}).db.sessions, flights)
  {
    RemainingAre(r.db.messages, flights, {});
  }

  /** A deleted flight takes along its points, link and messages, frees its leg, and is forgotten by its session. */
  lemma DeletionTells(r: Recorder, f: int)
    requires f in r.db.flights && r.m.current != Some(f)
    ensures
      var after := DeleteFlight(r, f).db;
      && after.flights == r.db.flights - {f} && after.points == r.db.points - {f} && after.links == r.db.links - {f}
      && after.nextFlight == r.db.nextFlight
      && LegsFreed(r.db, after, {f}) && MessagesDropped(r.db, after, {f})
      && SessionsForget(r.db.sessions, after.sessions, {f})
  {
    CascadeTells(r.(db := Dropped(r.db, f)), {f});
  }

  /** Any two different flights with points combine, unless one is being recorded; else nothing changes. */
  lemma WhoMayCombine(r: Recorder, a: int, b: int, dist: Distance)
    requires r.db.points.Keys == r.db.flights.Keys
    ensures MayCombine(r, a, b) <==>
      && a != b && a in r.db.flights && b in r.db.flights && r.db.points[a] != [] && r.db.points[b] != []
      && r.m.current !in {Some(a), Some(b)}
    ensures !MayCombine(r, a, b) ==> CombineFlights(r, a, b, dist) == r
  {}

  lemma DroppedTwice(db: Stored, a: int, b: int)
    requires PlansFit(db, db.links, db.legs)
    ensures
      var after := Dropped(Dropped(db, a), b);
      && after.flights == db.flights - {a, b} && after.points == db.points - {a, b} && after.links == db.links - {a, b}
      && LegsFreed(db, after, {a, b}) && after == db.(flights := after.flights, points := after.points,
                                                      links := after.links, legs := after.legs)
  {}

  lemma CombinationFlights(r: Recorder, a: int, b: int, dist: Distance)
    requires MayCombine(r, a, b) && r.db.nextFlight !in r.db.flights
    ensures
      var after, id := CombineFlights(r, a, b, dist).db, r.db.nextFlight;
      && after.flights.Keys == r.db.flights.Keys - {a, b} + {id} && after.nextFlight == id + 1
      && (forall f :: f in r.db.flights && f != a && f != b ==> after.flights[f] == r.db.flights[f])
  {}

  lemma CombinationPoints(r: Recorder, a: int, b: int, dist: Distance)
    requires MayCombine(r, a, b) && r.db.nextFlight !in r.db.points
    ensures
      var after, id := CombineFlights(r, a, b, dist).db, r.db.nextFlight;
      && after.points.Keys == r.db.points.Keys - {a, b} + {id} && after.links == r.db.links - {a, b}
      && (forall f :: f in r.db.points && f != a && f != b ==> after.points[f] == r.db.points[f])
  {}

  lemma CombinationFrees(r: Recorder, a: int, b: int, dist: Distance)
    requires MayCombine(r, a, b) && PlansFit(r.db, r.db.links, r.db.legs)
    ensures
      var after := CombineFlights(r, a, b, dist).db;
      && LegsFreed(r.db, after, {a, b}) && MessagesDropped(r.db, after, {a, b})
      && SessionsForget(r.db.sessions, after.sessions, {a, b})
  {
    var inOrder := r.db.flights[a].startTime <= r.db.flights[b].startTime;
    var merged := WithMerged(r, if inOrder then a else b, if inOrder then b else a, dist);
    CascadeTells(merged.(db := Dropped(Dropped(merged.db, a), b)), {a, b});
    DroppedTwice(r.db, a, b);
    assert CombineFlights(r, a, b, dist).db.legs == Dropped(Dropped(r.db, a), b).legs;
  }

  /** Two combined flights leave the new row and go like deleted ones. */
  lemma CombinationTells(r: Recorder, a: int, b: int, cfg: Config)
    requires Inv(r, cfg) && MayCombine(r, a, b)
    ensures
      var after, id := CombineFlights(r, a, b, cfg.dist).db, r.db.nextFlight;
      && after.flights.Keys == r.db.flights.Keys - {a, b} + {id}
      && after.points.Keys == r.db.points.Keys - {a, b} + {id}
      && after.links == r.db.links - {a, b} && after.nextFlight == id + 1
      && (forall f :: f in r.db.flights && f != a && f != b ==>
            after.flights[f] == r.db.flights[f] && after.points[f] == r.db.points[f])
      && LegsFreed(r.db, after, {a, b}) && MessagesDropped(r.db, after, {a, b})
      && SessionsForget(r.db.sessions, after.sessions, {a, b})
  {
    NextIsFree(r, cfg);
    CombinationFlights(r, a, b, cfg.dist);
    CombinationPoints(r, a, b, cfg.dist);
    CombinationFrees(r, a, b, cfg.dist);
  }

  /** Links and legs are as the operator left them; a message goes when its leg does, and the live leg follows. */
  lemma PlanChangeTells(r: Recorder, links: map<int, int>, legs: map<int, PlannedLeg>)
    requires PlansFit(r.db, links, legs)
    ensures
      var after, gone := ChangePlans(r, links, legs), r.db.legs.Keys - legs.Keys;
      && after.db.links == links && after.db.legs == legs
      && after.db.flights == r.db.flights && after.db.points == r.db.points
      && (forall m :: m in after.db.messages <==>
            m in r.db.messages && !(m.leg.Some? && m.leg.value in r.db.legs && m.leg.value !in legs))
      && after.m == r.m.(cache := after.m.cache)
      && after.m.cache == (if r.m.current.None? then r.m.cache
                           else if r.m.current.value in links then Some(links[r.m.current.value]) else None)
  {
    RemainingAre(r.db.messages, {}, r.db.legs.Keys - legs.Keys);
  }
}
