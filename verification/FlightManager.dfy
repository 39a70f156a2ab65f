/**
 * The flight recorder, field by field. Each handler is verified against the
 * state machine of RecorderModel, and keeps its invariant.
 */
module FlightManager {
  import opened Wrappers
  import opened Track
  import opened AcarsKeys
  import opened RecorderModel
  import opened RecorderRuns
  import GS = GroundSessions

  /** The tables the recorder writes, one method per statement. */
  class Tables {
    var flights: map<int, FlightRow>
    var points: map<int, seq<Point>>
    var nextFlight: int
    var messages: seq<Message>
    var links: map<int, int>
    var legs: map<int, PlannedLeg>

    constructor (flights: map<int, FlightRow>, points: map<int, seq<Point>>, nextFlight: int, messages: seq<Message>,
                 links: map<int, int>, legs: map<int, PlannedLeg>)
      ensures this.flights == flights && this.points == points && this.nextFlight == nextFlight
      ensures this.messages == messages && this.links == links && this.legs == legs
    {
      this.flights, this.points, this.nextFlight, this.messages := flights, points, nextFlight, messages;
      this.links, this.legs := links, legs;
    }

    method InsertFlight(now: int, frame: Frame) returns (id: int)
      modifies this`flights, this`points, this`nextFlight
      ensures id == old(nextFlight) && nextFlight == id + 1
      ensures flights == old(flights)[id := FlightRow(now, frame.at, None)]
      ensures points == old(points)[id := []]
    {
      id := nextFlight;
      flights := flights[id := FlightRow(now, frame.at, None)];
      points := points[id := []];
      nextFlight := nextFlight + 1;
    }

    method InsertPoint(f: int, p: Point)
      modifies this`points
      ensures points == old(points)[f := (if f in old(points) then old(points)[f] else []) + [p]]
    {
      points := points[f := (if f in points then points[f] else []) + [p]];
    }

    /** Inserts the message unless its dedup key is taken. */
    method InsertMessageOnce(m: Message) returns (inserted: bool)
      modifies this`messages
      ensures inserted <==> !Taken(old(messages), m.key)
      ensures messages == if inserted then old(messages) + [m] else old(messages)
    {
      inserted := !Taken(messages, m.key);
      if inserted {
        messages := messages + [m];
      }
    }

    /** Refused when the leg is gone or another flight holds it. */
    method LinkFlight(f: int, leg: int) returns (linked: bool)
      modifies this`links
      ensures linked <==> leg in legs && leg !in old(links).Values
      ensures links == if linked then old(links)[f := leg] else old(links)
    {
      linked := leg in legs && leg !in links.Values;
      if linked {
        links := links[f := leg];
      }
    }

    method RecordArrival(leg: int, arrival: Arrival)
      requires leg in legs
      modifies this`legs
      ensures legs == old(legs)[leg := old(legs)[leg].(arrival := Some(arrival))]
    {
      legs := legs[leg := legs[leg].(arrival := Some(arrival))];
    }

    method CloseFlight(f: int, summary: Summary)
      requires f in flights
      modifies this`flights
      ensures flights == old(flights)[f := old(flights)[f].(summary := Some(summary))]
    {
      flights := flights[f := flights[f].(summary := Some(summary))];
    }

    /** Open rows, the most recently started first, then the highest id; the first of them. */
    method GetOpenFlight() returns (f: Option<int>)
      ensures f.Some? ==> f.value in flights && flights[f.value].summary.None?
      ensures f.Some? ==> forall g :: g in flights && flights[g].summary.None? ==> !Newer(g, f.value)
      ensures f.None? ==> forall g :: g in flights ==> flights[g].summary.Some?
    {
      var rest := flights.Keys;
      f := None;
      while exists k :: k in rest
        invariant rest <= flights.Keys
        invariant f.Some? ==> f.value in flights && flights[f.value].summary.None?
        invariant f.Some? ==> forall g :: g in flights && flights[g].summary.None? && g !in rest ==> !Newer(g, f.value)
        invariant f.None? ==> forall g :: g in flights && flights[g].summary.None? ==> g in rest
        decreases |rest|
      {
        var g :| g in rest;
        if flights[g].summary.None? && (f.None? || Newer(g, f.value)) {
          f := Some(g);
        }
        rest := rest - {g};
      }
    }

    predicate Newer(g: int, f: int)
      requires f in flights && g in flights
      reads this`flights
    {
      flights[g].startTime > flights[f].startTime || (flights[g].startTime == flights[f].startTime && g > f)
    }
  }

  class Manager {
    const db: Tables
    const ground: GS.GroundSessionStore

    var state: FlightState
    var currentFlightId: Option<int>
    var plannedLegCache: Option<int>
    var airborneStreak: int
    var landedStreak: int
    var groundStreak: int
    var groundAnchor: Option<Position>
    var onEventFiled: bool
    var lastPositionReportWindow: int
    var isPaused: bool
    var interrupted: bool
    var openFlightCheckedAtBoot: bool
    var totals: Totals
    var appState: AppState
    var lastFrame: Option<Frame>
    var groundSessionCache: Option<GS.Session>

    const config: Config
    var now: int
    ghost var history: History

    ghost function Database(): Stored
      reads db, ground
    {
      Stored(db.flights, db.points, db.nextFlight, ground.table, db.messages, db.links, db.legs)
    }

    ghost function Machine(): Machine
      reads this
    {
      RecorderModel.Machine(
        state, currentFlightId, plannedLegCache, airborneStreak, landedStreak, groundStreak, groundAnchor,
        onEventFiled, lastPositionReportWindow, isPaused, interrupted, openFlightCheckedAtBoot, totals, appState,
        lastFrame, groundSessionCache)
    }

    ghost function State(): Recorder
      reads this, db, ground
    {
      Recorder(Database(), Machine(), history, now)
    }

    /** What the takeoff's statements rely on. */
    ghost predicate Fit()
      reads db, ground
    {
      db.points.Keys == db.flights.Keys && db.nextFlight !in db.links && GS.Valid(ground.table)
    }

    /** A process starting on a database. */
    constructor (db: Tables, ground: GS.GroundSessionStore, config: Config, now: int,
                 ghost torn: set<int>, ghost others: set<int>)
      ensures this.db == db && this.ground == ground && this.config == config
      ensures State() == Boot(Database(), torn, others, now)
    {
      this.db, this.ground, this.config, this.now := db, ground, config, now;
      state, currentFlightId, plannedLegCache := IDLE, None, None;
      airborneStreak, landedStreak, groundStreak, groundAnchor := 0, 0, 0, None;
      onEventFiled, lastPositionReportWindow, isPaused := false, 0, false;
      interrupted, openFlightCheckedAtBoot := false, false;
      totals, appState, lastFrame, groundSessionCache := NO_TOTALS, AppState(IDLE, None), None, None;
      history := History([], [], torn, others, false);
    }

    // -------------------------------------------------------------- messages

    /** A failing insert is caught and logged. */
    method FileAcarsMessageOnce(key: Key, filed: bool)
      modifies db`messages, this`history
      ensures State() == File(old(State()), key, filed)
    {
      if filed {
        var _ := db.InsertMessageOnce(Message(key, plannedLegCache));
      } else {
        history := history.(torn := history.torn + FlightsOf(key));
      }
    }

    method MaybeFilePositionReport(filed: bool)
      modifies db`messages, this`history, this`lastPositionReportWindow
      ensures State() == RecorderModel.MaybeFilePositionReport(old(State()), config, filed)
    {
      if currentFlightId.None? || config.reportIntervalMs <= 0 || plannedLegCache.None? {
        return;
      }
      var windowIndex := (now - totals.flightStart) / config.reportIntervalMs;
      if windowIndex < 1 || windowIndex <= lastPositionReportWindow {
        return;
      }
      lastPositionReportWindow := windowIndex;
      history := history.(windows := history.windows + [windowIndex]);
      FileAcarsMessageOnce(PositionReport(currentFlightId.value, windowIndex), filed);
    }

    // -------------------------------------------------------------- recording

    method ExtendTotals(frame: Frame)
      modifies this`totals
      ensures totals == Extended(old(totals), interrupted, frame, now, config.dist)
    {
      var t := totals;
      if t.pointCount > 0 {
        t := t.(distanceNm := t.distanceNm + config.dist(t.lastPoint, frame.at));
        var gap := now - t.lastPointTime;
        if !interrupted && gap <= MAX_COUNTED_GAP_MS {
          t := t.(activeMs := t.activeMs + gap);
        }
      }
      if frame.altitudeFt > t.maxAltitudeFt {
        t := t.(maxAltitudeFt := frame.altitudeFt);
      }
      if frame.airspeedKnots > t.maxAirspeedKts {
        t := t.(maxAirspeedKts := frame.airspeedKnots);
      }
      totals := t.(lastPoint := frame.at, lastPointTime := now, pointCount := t.pointCount + 1);
    }

    method InsertPoint(f: int, frame: Frame)
      requires currentFlightId == Some(f)
      modifies db`points, this`history, this`totals, this`interrupted
      ensures State() == Write(old(State()), frame, config)
    {
      ExtendTotals(frame);
      db.InsertPoint(f, Recorded(frame, now));
      interrupted := false;
      history := history.(log := history.log + [Fix(now)]);
      assert Machine() == old(Machine()).(totals := totals, interrupted := false);
    }

    method WritePoint(frame: Frame, filed: bool)
      modifies db`points, db`messages, this`history, this`totals, this`interrupted, this`lastPositionReportWindow
      ensures State() == RecorderModel.WritePoint(old(State()), frame, config, filed)
    {
      if currentFlightId.Some? {
        InsertPoint(currentFlightId.value, frame);
        MaybeFilePositionReport(filed);
      }
    }

    // -------------------------------------------------------------- takeoff

    method AutoLinkPlannedLeg(id: int, matched: Option<int>)
      modifies db`links, this`plannedLegCache
      ensures Database() == LinkRow(old(State()), id, matched).db
      ensures plannedLegCache == if Database() == old(Database()) then old(plannedLegCache) else matched
    {
      if matched.Some? {
        var linked := db.LinkFlight(id, matched.value);
        if linked {
          plannedLegCache := matched;
          assert db.links[id] == matched.value;
        }
      }
    }

    /** The row, the closed ground session and the link, each surviving whatever comes after. */
    method WriteTakeoff(frame: Frame, w: World) returns (id: int)
      requires Fit()
      modifies db, ground, this`plannedLegCache
      ensures id == old(db.nextFlight)
      ensures Database() == TakeoffWrites(old(State()), frame, w, 3).db
      ensures plannedLegCache == LinkOf(Database(), id)
    {
      id := db.InsertFlight(now, frame);
      var _ := ground.CloseOpenGroundSession(now, GS.FlightStarted, Some(id));
      plannedLegCache := None;
      AutoLinkPlannedLeg(id, w.matched);
    }

    /** What a flight starts counting from, at a takeoff and after a restart alike. */
    method ResetCounters()
      modifies this`airborneStreak, this`landedStreak, this`groundStreak
      modifies this`onEventFiled, this`lastPositionReportWindow
      ensures Machine() == old(Machine()).(airborneStreak := 0, landedStreak := 0, groundStreak := 0,
                                                       onFiled := false, lastWindow := 0)
    {
      airborneStreak, landedStreak, groundStreak := 0, 0, 0;
      onEventFiled := false;
      lastPositionReportWindow := 0;
    }

    method TrackFlight(id: int)
      modifies this`currentFlightId, this`state, this`appState
      ensures Machine() == old(Machine()).(current := Some(id), state := FLYING, app := AppState(FLYING, Some(id)))
    {
      currentFlightId := Some(id);
      state := FLYING;
      appState := AppState(FLYING, Some(id));
    }

    method BeginRecording(id: int, frame: Frame)
      requires plannedLegCache == LinkOf(Database(), id)
      modifies this
      ensures State() == Takeoff(old(State()), id, frame)
    {
      TrackFlight(id);
      ResetCounters();
      groundAnchor, groundSessionCache := None, None;
      totals := Totals(0.0, frame.altitudeFt, frame.airspeedKnots, 0, frame.at, now, now, 0);
      interrupted := false;
      history := history.(log := [], windows := []);
    }

    method StartFlight(frame: Frame, w: World)
      requires Fit()
      modifies this, db, ground
      ensures State() == RecorderModel.StartFlight(old(State()), frame, w, config)
    {
      var id := WriteTakeoff(frame, w);
      BeginRecording(id, frame);
      FileAcarsMessageOnce(Oooi(id, OUT), w.filed);
      FileAcarsMessageOnce(Oooi(id, OFF), w.filed);
      WritePoint(frame, w.filed);
    }

    // -------------------------------------------------------------- the leg being flown

    /** After a route wrote the links or the legs: the cache follows the row of the flight in progress. */
    method RefreshPlannedLegForFlight(flightId: int)
      modifies this`plannedLegCache
      ensures State() == if currentFlightId == Some(flightId) then RefreshPlannedLeg(old(State())) else old(State())
    {
      if currentFlightId == Some(flightId) {
        plannedLegCache := if flightId in db.links then Some(db.links[flightId]) else None;
      }
    }

    // -------------------------------------------------------------- resuming

    /** The running totals, rebuilt from the stored points. */
    method Rebuild(track: seq<Point>) returns (distance: real, altitude: real, airspeed: real, active: int)
      requires track != []
      ensures distance == PathLength(track, config.dist)
      ensures altitude == MaxAltitude(track) && airspeed == MaxAirspeed(track)
      ensures active == ReseededMs(Times(track))
    {
      distance, active := 0.0, 0;
      altitude, airspeed := track[0].altitude, track[0].airspeed;
      assert track[..1] == [track[0]];
      for i := 1 to |track|
        invariant distance == PathLength(track[..i], config.dist)
        invariant altitude == MaxAltitude(track[..i]) && airspeed == MaxAirspeed(track[..i])
        invariant active == ReseededMs(Times(track[..i]))
      {
        assert Init(track[..i + 1]) == track[..i] && Last(track[..i + 1]) == track[i];
        assert Init(Times(track[..i + 1])) == Times(track[..i]);
        if track[i].altitude > altitude {
          altitude := track[i].altitude;
        }
        if track[i].airspeed > airspeed {
          airspeed := track[i].airspeed;
        }
        distance := distance + config.dist(track[i - 1].at, track[i].at);
        var gap := track[i].ts - track[i - 1].ts;
        if 0 < gap <= MAX_COUNTED_GAP_MS {
          active := active + gap;
        }
      }
      assert track[..|track|] == track;
    }

    method RebuildTotals(row: FlightRow, track: seq<Point>, frame: Frame) returns (t: Totals)
      ensures t == Rebuilt(row, track, frame, now, config.dist)
    {
      if track == [] {
        t := Totals(0.0, frame.altitudeFt, frame.airspeedKnots, 0, row.departure, now, row.startTime, 0);
      } else {
        var distance, altitude, airspeed, active := Rebuild(track);
        t := Totals(distance, altitude, airspeed, |track|, track[|track| - 1].at, now, row.startTime, active);
      }
    }

    method Reload(f: int, frame: Frame)
      requires f in db.flights && f in db.points
      modifies this
      ensures State() == Reloaded(old(State()), f, frame, config)
    {
      var t := RebuildTotals(db.flights[f], db.points[f], frame);
      totals := t;
      interrupted := true;
      TrackFlight(f);
      ResetCounters();
      RefreshPlannedLegForFlight(f);
      history := history.(log := StoredLog(Times(db.points[f])) + [Break], windows := [],
                          others := history.others - {f});
    }

    method ResumeFlight(f: int, frame: Frame, filed: bool)
      requires f in db.flights && f in db.points
      modifies this, db
      ensures State() == RecorderModel.ResumeFlight(old(State()), f, frame, config, filed)
    {
      Reload(f, frame);
      WritePoint(frame, filed);
    }

    // -------------------------------------------------------------- landing

    method CloseFlight(frame: Frame)
      modifies db`flights, this`totals
      ensures State() == CloseRow(old(State()), frame)
    {
      if currentFlightId.None? || currentFlightId.value !in db.flights {
        return;
      }
      var f := currentFlightId.value;
      var tailMs := now - totals.lastPointTime;
      if !interrupted && tailMs <= MAX_COUNTED_GAP_MS {
        totals := totals.(activeMs := totals.activeMs + tailMs);
      }
      var durationSec := (totals.activeMs + 500) / 1000;
      db.CloseFlight(f, Summary(
        now, Some(frame.at), durationSec, RoundTenth(totals.distanceNm), RoundReal(totals.maxAltitudeFt),
        RoundReal(totals.maxAirspeedKts), totals.pointCount));
    }

    /** The link is read from the row, which the operator may have changed in the air. */
    method RecordArrivalOnPlannedLeg(frame: Frame)
      modifies db`legs
      ensures State() == RecorderModel.RecordArrival(old(State()), frame, config.dist)
    {
      if currentFlightId.Some? && currentFlightId.value in db.links && db.links[currentFlightId.value] in db.legs {
        var leg := db.links[currentFlightId.value];
        var nm := config.dist(frame.at, db.legs[leg].destination);
        db.RecordArrival(leg, Arrival(nm <= ARRIVAL_RADIUS_NM, RoundTenth(nm)));
      }
    }

    method FileTouchdownOn(filed: bool)
      modifies db`messages, this`history, this`onEventFiled
      ensures State() == FileOn(old(State()), filed)
    {
      if currentFlightId.Some? && !onEventFiled {
        onEventFiled := true;
        FileAcarsMessageOnce(Oooi(currentFlightId.value, ON), filed);
      }
    }

    method EndFlight(frame: Frame, filed: bool)
      modifies this, db
      ensures State() == RecorderModel.EndFlight(old(State()), frame, config, filed)
    {
      if currentFlightId.None? {
        return;
      }
      CloseFlight(frame);
      RecordArrivalOnPlannedLeg(frame);
      FileTouchdownOn(filed);
      FileAcarsMessageOnce(Oooi(currentFlightId.value, IN), filed);
      StopRecording();
    }

    method DropFlight()
      modifies this`currentFlightId, this`plannedLegCache, this`state, this`appState
      ensures Machine() == old(Machine()).(current := None, cache := None, state := IDLE, app := AppState(IDLE, None))
    {
      currentFlightId := None;
      plannedLegCache := None;
      state := IDLE;
      appState := AppState(IDLE, None);
    }

    method StopRecording()
      modifies this`currentFlightId, this`plannedLegCache, this`state, this`appState
      modifies this`airborneStreak, this`landedStreak
      ensures State() == Landed(old(State()))
    {
      DropFlight();
      airborneStreak, landedStreak := 0, 0;
    }

    // -------------------------------------------------------------- on the ground

    method ResetGroundTracking()
      modifies this`state, this`appState, this`groundAnchor, this`groundStreak, this`groundSessionCache
      ensures State() == ToIdle(old(State()))
    {
      groundAnchor := None;
      groundSessionCache := None;
      groundStreak := 0;
      state := IDLE;
      appState := appState.(flightState := IDLE);
    }

    method TrackGround(at: Position, live: Option<GS.Session>)
      modifies this`state, this`appState, this`groundAnchor, this`groundStreak, this`groundSessionCache
      ensures Machine() == OnGround(old(Machine()), at, live)
    {
      groundAnchor := Some(at);
      groundSessionCache := live;
      groundStreak := 0;
      state := GROUND;
      appState := appState.(flightState := GROUND);
    }

    method EnterGround(frame: Frame, w: World)
      requires GS.Valid(ground.table)
      modifies this, db, ground
      ensures State() == RecorderModel.EnterGround(old(State()), frame, w)
    {
      if !w.enters {
        groundStreak := 0;
        return;
      }
      ground.EnterGround(GS.Detected(w.airport, frame.at, w.stand, w.matched, frame.aircraft, now));
      var open := ground.GetOpen();
      TrackGround(frame.at, Some(ground.table.rows[open.value]));
      history := history.(stale := false);
    }

    method CloseGroundSessionAndReturnToIdle(reason: GS.EndReason)
      requires GS.Valid(ground.table)
      modifies this, db, ground
      ensures State() == LeaveGround(old(State()), reason)
    {
      var _ := ground.CloseOpenGroundSession(now, reason, None);
      ResetGroundTracking();
    }

    method CloseAutoGroundSessionAndReturnToIdle(reason: GS.EndReason)
      requires GS.Valid(ground.table)
      modifies this, db, ground
      ensures State() == LeaveAutoGround(old(State()), reason)
    {
      var open := ground.GetOpen();
      if open.Some? && ground.table.rows[open.value].source.Auto? {
        var _ := ground.CloseOpenGroundSession(now, reason, None);
      }
      ResetGroundTracking();
    }

    // -------------------------------------------------------------- the handlers

    method SetAirborneStreak(streak: int)
      modifies this`airborneStreak
      ensures airborneStreak == streak
      ensures State() == Counted(old(State()), streak)
    {
      airborneStreak := streak;
    }

    method CountAirborne(frame: Frame, w: World)
      requires Fit()
      modifies this, db, ground
      ensures State() == Debounce(old(State()), frame, w, config)
    {
      ghost var before := State();
      ghost var counted := Counted(before, NextStreak(before, frame));
      SetAirborneStreak(if IsAirborneFrame(frame) then airborneStreak + 1 else 0);
      assert State() == counted;
      if airborneStreak >= AIRBORNE_DEBOUNCE_FRAMES {
        StartFlight(frame, w);
        assert State() == RecorderModel.StartFlight(counted, frame, w, config);
        DebounceStarts(before, frame, w, config);
      }
    }

    /** The open-flight lookup, once per process, then three airborne frames in a row. */
    method CheckAirborneDebounce(frame: Frame, w: World)
      requires Fit()
      modifies this, db, ground
      ensures State() == CheckAirborne(old(State()), frame, w, config)
    {
      if !openFlightCheckedAtBoot {
        openFlightCheckedAtBoot := true;
        var open := db.GetOpenFlight();
        if open.Some? {
          ResumeFlight(open.value, frame, w.filed);
          return;
        }
      }
      assert State() == Booted(old(State()));
      CountAirborne(frame, w);
    }

    method OnFrameIdle(frame: Frame, w: World)
      requires Inv(State(), config) && state.IDLE? && lastFrame.Some?
      modifies this, db, ground
      ensures State() == FrameIdle(old(State()), frame, w, config)
    {
      CheckAirborneKeeps(State(), frame, w, config);
      NextIsFree(State(), config);
      CheckAirborneDebounce(frame, w);
      if state.IDLE? {
        groundStreak := if IsParkedFrame(frame) then groundStreak + 1 else 0;
        if groundStreak >= GROUND_DEBOUNCE_FRAMES {
          EnterGround(frame, w);
        }
      }
    }

    method OnFrameGround(frame: Frame, w: World)
      requires Inv(State(), config)
      modifies this, db, ground
      ensures State() == FrameGround(old(State()), frame, w, config)
    {
      if frame.simRunning == 3 {
        CloseGroundSessionAndReturnToIdle(GS.SlewEnd);
      } else if groundAnchor.Some? && HasLeftAnchor(groundAnchor.value, frame.at, config.dist) {
        CloseGroundSessionAndReturnToIdle(GS.Superseded);
      } else {
        NextIsFree(State(), config);
        CheckAirborneDebounce(frame, w);
      }
    }

    /** Ten slow frames on the ground in a row end the flight. */
    method CheckLanded(frame: Frame, filed: bool)
      modifies this, db
      ensures State() == Settle(old(State()), frame, config, filed)
    {
      if frame.onGround && frame.groundSpeedKnots < 5.0 {
        landedStreak := landedStreak + 1;
        assert State() == WithStreak(old(State()), landedStreak);
        if landedStreak >= LANDED_DEBOUNCE_FRAMES {
          EndFlight(frame, filed);
        }
      } else {
        landedStreak := 0;
      }
    }

    method OnFrameFlying(frame: Frame, w: World)
      modifies this, db
      ensures State() == FrameFlying(old(State()), frame, w, config)
    {
      if frame.simRunning == 3 || isPaused {
        interrupted := true;
        history := history.(log := history.log + [Break]);
        return;
      }
      if now - totals.lastPointTime >= RECORD_INTERVAL_MS {
        WritePoint(frame, w.filed);
      }
      if frame.onGround && !onEventFiled {
        FileTouchdownOn(w.filed);
      }
      CheckLanded(frame, w.filed);
    }

    method OnFrame(frame: Frame, w: World)
      requires Inv(State(), config)
      modifies this, db, ground
      ensures State() == RecorderModel.OnFrame(old(State()), frame, w, config)
      ensures Inv(State(), config)
    {
      OnFrameKeeps(State(), frame, w, config);
      SeenKeeps(State(), frame, config);
      lastFrame := Some(frame);
      assert State() == Seen(old(State()), frame);
      if frame.simRunning == 0 {
        if state.FLYING? {
          EndFlight(frame, w.filed);
        } else if state.GROUND? {
          CloseGroundSessionAndReturnToIdle(GS.SimExit);
        }
        return;
      }
      match state {
        case IDLE => OnFrameIdle(frame, w);
        case GROUND => OnFrameGround(frame, w);
        case FLYING => OnFrameFlying(frame, w);
      }
    }

    /** A crash and a lost connection: only an automatic session is closed. */
    method OnLoss(reason: GS.EndReason, filed: bool)
      requires Inv(State(), config)
      modifies this, db, ground
      ensures State() == RecorderModel.OnLoss(old(State()), reason, config, filed)
      ensures Inv(State(), config)
    {
      OnLossKeeps(State(), reason, filed, config);
      if state.FLYING? && lastFrame.Some? {
        EndFlight(lastFrame.value, filed);
      } else if state.GROUND? {
        CloseAutoGroundSessionAndReturnToIdle(reason);
      }
    }

    method SetPaused(paused: bool)
      requires Inv(State(), config)
      modifies this
      ensures State() == RecorderModel.SetPaused(old(State()), paused)
      ensures Inv(State(), config)
    {
      SetPausedKeeps(State(), paused, config);
      if paused {
        interrupted := true;
        history := history.(log := history.log + [Break]);
      }
      isPaused := paused;
    }

    /** After a route wrote the session table. */
    method RefreshGroundSession()
      requires GS.Valid(ground.table)
      modifies this
      ensures State() == RecorderModel.RefreshGroundSession(old(State()))
    {
      var open := ground.GetOpen();
      if open.Some? {
        groundSessionCache := Some(ground.table.rows[open.value]);
        history := history.(stale := false);
      } else if state.GROUND? {
        ResetGroundTracking();
      } else {
        groundSessionCache := None;
        history := history.(stale := false);
      }
    }
  }
}
