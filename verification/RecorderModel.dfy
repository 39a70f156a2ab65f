/**
 * The flight recorder as a state machine: what each telemetry frame, pause,
 * crash, disconnect and restart does to the recorder and to its database.
 * The class FlightManager performs the same steps on its fields.
 */
module RecorderModel {
  import opened Wrappers
  import opened Track
  import opened AcarsKeys
  import GS = GroundSessions
  import FM = FlightMerge

  const RECORD_INTERVAL_MS := 5000
  const AIRBORNE_DEBOUNCE_FRAMES := 3
  const LANDED_DEBOUNCE_FRAMES := 10
  const GROUND_DEBOUNCE_FRAMES := 5
  const GROUND_SPEED_MAX_KTS := 1.0
  const GROUND_REANCHOR_NM := 10.0

  datatype FlightState = IDLE | GROUND | FLYING

  datatype Frame = Frame(
    at: Position,
    altitudeFt: real,
    airspeedKnots: real,
    groundSpeedKnots: real,
    onGround: bool,
    simRunning: int,
    aircraft: string,
    parkingBrake: Option<bool>,
    enginesRunning: Option<int>)

  /**
   * What the world answers while one event is handled; `filed` says whether
   * message inserts succeed, `enters` whether a ground session can be written.
   */
  datatype World = World(airport: Option<GS.Airport>, matched: Option<int>, stand: Option<string>, filed: bool,
                         enters: bool)

  datatype Summary = Summary(
    endTime: int, arrival: Option<Position>, durationSec: int, distanceNm: real,
    maxAltitudeFt: int, maxAirspeedKts: int, pointCount: nat)

  /** A flights row; it is open until it has a summary. */
  datatype FlightRow = FlightRow(startTime: int, departure: Position, summary: Option<Summary>)

  /** How a leg's flight came down: within ten nautical miles of the destination, and how far off. */
  datatype Arrival = Arrival(flown: bool, deviationNm: real)

  datatype PlannedLeg = PlannedLeg(destination: Position, arrival: Option<Arrival>)

  const ARRIVAL_RADIUS_NM := 10.0

  /** A stored message belongs to the flight in its key, and to the leg the flight had when it was filed. */
  datatype Message = Message(key: Key, leg: Option<int>)

  datatype Stored = Stored(
    flights: map<int, FlightRow>,
    points: map<int, seq<Point>>,
    nextFlight: int,
    sessions: GS.Table,
    messages: seq<Message>,  // unique by the text of the key
    links: map<int, int>,
    legs: map<int, PlannedLeg>)

  /** The accumulated stats of the current flight. */
  datatype Totals = Totals(
    distanceNm: real,
    maxAltitudeFt: real,
    maxAirspeedKts: real,
    pointCount: nat,
    lastPoint: Position,
    lastPointTime: int,
    flightStart: int,
    activeMs: int)

  /** What the rest of the program sees. */
  datatype AppState = AppState(flightState: FlightState, flightId: Option<int>)

  datatype Machine = Machine(
    state: FlightState,
    current: Option<int>,
    cache: Option<int>,
    airborneStreak: int,
    landedStreak: int,
    groundStreak: int,
    anchor: Option<Position>,
    onFiled: bool,
    lastWindow: int,
    paused: bool,
    interrupted: bool,
    bootChecked: bool,
    totals: Totals,
    app: AppState,
    lastFrame: Option<Frame>,
    live: Option<GS.Session>)

  const NOWHERE := Position(0.0, 0.0)

  const NO_TOTALS := Totals(0.0, 0.0, 0.0, 0, NOWHERE, 0, 0, 0)

  const FRESH := Machine(IDLE, None, None, 0, 0, 0, None, false, 0, false, false, false, NO_TOTALS,
                         AppState(IDLE, None), None, None)

  /**
   * Not in the program. `log` and `windows` are of the flight this process
   * records: what it saw of it, and the report windows it has used. `torn` are
   * the flights a message was never filed for, or lost with its leg. `others`
   * are the flights the recorder does not answer for: merged ones, and those
   * it found in the database and has not resumed. `stale` says that the leg the
   * live session names was deleted after the session was last read.
   */
  datatype History = History(log: seq<Entry>, windows: seq<int>, torn: set<int>, others: set<int>, stale: bool)

  datatype Recorder = Recorder(db: Stored, m: Machine, h: History, clock: int)

  datatype Config = Config(dist: Distance, reportIntervalMs: int)

  // ---------------------------------------------------------------- parked, and leaving the stand

  predicate IsParkedFrame(frame: Frame) {
    && frame.simRunning != 0 && frame.simRunning != 3
    && frame.onGround
    && frame.groundSpeedKnots < GROUND_SPEED_MAX_KTS
    && (frame.enginesRunning == Some(0) || frame.parkingBrake == Some(true))
  }

  predicate IsAirborneFrame(frame: Frame) {
    frame.simRunning != 3 && !frame.onGround && frame.airspeedKnots > 30.0
  }

  predicate HasLeftAnchor(anchor: Position, at: Position, dist: Distance) {
    dist(anchor, at) > GROUND_REANCHOR_NM
  }

  // ---------------------------------------------------------------- messages

  /** The flight a message is about, if it is about one. */
  function FlightsOf(k: Key): set<int> {
    match k
    case Oooi(flight, _) => {flight}
    case PositionReport(flight, _) => {flight}
    case Comm(flight, _, _) => {flight}
    case _ => {}
  }

  /** Is there a row under this message's dedup key? */
  predicate Taken(messages: seq<Message>, key: Key) {
    exists m :: m in messages && KeyText(m.key) == KeyText(key)
  }

  /** Insert-or-ignore on the dedup key; a failing insert is swallowed. */
  function File(r: Recorder, key: Key, filed: bool): Recorder {
    if !filed then r.(h := r.h.(torn := r.h.torn + FlightsOf(key)))
    else if Taken(r.db.messages, key) then r
    else r.(db := r.db.(messages := r.db.messages + [Message(key, r.m.cache)]))
  }

  /** A machine that has opened this report window, before the report is filed. */
  function Opened(r: Recorder, window: int): Recorder {
    r.(m := r.m.(lastWindow := window), h := r.h.(windows := r.h.windows + [window]))
  }

  function MaybeFilePositionReport(r: Recorder, cfg: Config, filed: bool): Recorder {
    if r.m.current.None? || cfg.reportIntervalMs <= 0 || r.m.cache.None? then r
    else
      var window := (r.clock - r.m.totals.flightStart) / cfg.reportIntervalMs;
      if window < 1 || window <= r.m.lastWindow then r
      else File(Opened(r, window), PositionReport(r.m.current.value, window), filed)
  }

  // ---------------------------------------------------------------- recording

  function PointsOf(r: Recorder): seq<Point> {
    if r.m.current.Some? && r.m.current.value in r.db.points then r.db.points[r.m.current.value] else []
  }

  function Recorded(frame: Frame, now: int): Point {
    Point(now, frame.at, frame.altitudeFt, frame.airspeedKnots)
  }

  /** From the second point on, distance is added, and the gap too unless it was broken or too long. */
  function Extended(t: Totals, interrupted: bool, frame: Frame, now: int, dist: Distance): Totals {
    var gap := now - t.lastPointTime;
    Totals(
      if t.pointCount > 0 then t.distanceNm + dist(t.lastPoint, frame.at) else t.distanceNm,
      MaxReal(t.maxAltitudeFt, frame.altitudeFt),
      MaxReal(t.maxAirspeedKts, frame.airspeedKnots),
      t.pointCount + 1, frame.at, now, t.flightStart,
      if t.pointCount > 0 && !interrupted && gap <= MAX_COUNTED_GAP_MS then t.activeMs + gap else t.activeMs)
  }

  /** The point and the running totals, before any position report. */
  function Write(r: Recorder, frame: Frame, cfg: Config): Recorder
    requires r.m.current.Some?
  {
    var f := r.m.current.value;
    Recorder(
      r.db.(points := r.db.points[f := PointsOf(r) + [Recorded(frame, r.clock)]]),
      r.m.(totals := Extended(r.m.totals, r.m.interrupted, frame, r.clock, cfg.dist), interrupted := false),
      r.h.(log := r.h.log + [Fix(r.clock)]),
      r.clock)
  }

  function WritePoint(r: Recorder, frame: Frame, cfg: Config, filed: bool): Recorder {
    if r.m.current.None? then r else MaybeFilePositionReport(Write(r, frame, cfg), cfg, filed)
  }

  // ---------------------------------------------------------------- takeoff, in the order of its writes

  function InsertRow(r: Recorder, frame: Frame): Recorder {
    var f := r.db.nextFlight;
    r.(db := r.db.(flights := r.db.flights[f := FlightRow(r.clock, frame.at, None)],
                   points := r.db.points[f := []], nextFlight := f + 1))
  }

  ghost function CloseGround(r: Recorder, reason: GS.EndReason, flight: Option<int>): Recorder {
    r.(db := r.db.(sessions := GS.CloseOpen(r.db.sessions, r.clock, reason, flight)))
  }

  /** The matcher's leg, unless it is gone or taken by now. */
  function LinkRow(r: Recorder, f: int, matched: Option<int>): Recorder {
    if matched.Some? && matched.value in r.db.legs && matched.value !in r.db.links.Values
    then r.(db := r.db.(links := r.db.links[f := matched.value]))
    else r
  }

  function LinkOf(db: Stored, f: int): Option<int> {
    if f in db.links then Some(db.links[f]) else None
  }

  /** The machine as it begins to record flight `f`, nothing recorded yet. */
  function Takeoff(r: Recorder, f: int, frame: Frame): Recorder {
    r.(m := r.m.(
         state := FLYING, current := Some(f), app := AppState(FLYING, Some(f)),
         cache := LinkOf(r.db, f), anchor := None, live := None,
         airborneStreak := 0, landedStreak := 0, groundStreak := 0,
         totals := Totals(0.0, frame.altitudeFt, frame.airspeedKnots, 0, frame.at, r.clock, r.clock, 0),
         interrupted := false, onFiled := false, lastWindow := 0),
       h := r.h.(log := [], windows := []))
  }

  /** The takeoff's writes, in order, cut off after `writes` of them. */
  ghost function TakeoffWrites(r: Recorder, frame: Frame, w: World, writes: nat): Recorder {
    var f := r.db.nextFlight;
    var inserted := InsertRow(r, frame);
    var left := if writes < 2 then inserted else CloseGround(inserted, GS.FlightStarted, Some(f));
    if writes < 3 then left else LinkRow(left, f, w.matched)
  }

  ghost function TakenOff(r: Recorder, frame: Frame, w: World): Recorder {
    var f := r.db.nextFlight;
    var begun := Takeoff(TakeoffWrites(r, frame, w, 3), f, frame);
    File(File(begun, Oooi(f, OUT), w.filed), Oooi(f, OFF), w.filed)
  }

  ghost function StartFlight(r: Recorder, frame: Frame, w: World, cfg: Config): Recorder {
    WritePoint(TakenOff(r, frame, w), frame, cfg, w.filed)
  }

  // ---------------------------------------------------------------- resuming after a restart

  ghost predicate IsOpenFlight(db: Stored, f: int) {
    f in db.flights && db.flights[f].summary.None?
  }

  /** Most recently started first, then the highest id. */
  ghost predicate IsLatestOpen(db: Stored, f: int) {
    && IsOpenFlight(db, f)
    && forall g :: IsOpenFlight(db, g) ==>
         || db.flights[g].startTime < db.flights[f].startTime
         || (db.flights[g].startTime == db.flights[f].startTime && g <= f)
  }

  function Rebuilt(row: FlightRow, points: seq<Point>, frame: Frame, now: int, dist: Distance): Totals {
    if points == [] then
      Totals(0.0, frame.altitudeFt, frame.airspeedKnots, 0, row.departure, now, row.startTime, 0)
    else
      Totals(PathLength(points, dist), MaxAltitude(points), MaxAirspeed(points), |points|, Last(points).at, now,
             row.startTime, ReseededMs(Times(points)))
  }

  /** Everything is rebuilt from the stored points; the outage counts as an interruption. */
  function Reloaded(r: Recorder, f: int, frame: Frame, cfg: Config): Recorder
    requires f in r.db.flights && f in r.db.points
  {
    var points := r.db.points[f];
    r.(m := r.m.(
         state := FLYING, current := Some(f), app := AppState(FLYING, Some(f)),
         cache := LinkOf(r.db, f),
         airborneStreak := 0, landedStreak := 0, groundStreak := 0,
         totals := Rebuilt(r.db.flights[f], points, frame, r.clock, cfg.dist),
         interrupted := true, onFiled := false, lastWindow := 0),
       h := r.h.(log := StoredLog(Times(points)) + [Break], windows := [], others := r.h.others - {f}))
  }

  function ResumeFlight(r: Recorder, f: int, frame: Frame, cfg: Config, filed: bool): Recorder
    requires f in r.db.flights && f in r.db.points
  {
    WritePoint(Reloaded(r, f, frame, cfg), frame, cfg, filed)
  }

  // ---------------------------------------------------------------- landing

  /** With the tail between the last point and the end, when nothing broke it. */
  function FinalActiveMs(m: Machine, now: int): int {
    var tail := now - m.totals.lastPointTime;
    if !m.interrupted && tail <= MAX_COUNTED_GAP_MS then m.totals.activeMs + tail else m.totals.activeMs
  }

  function Closing(m: Machine, frame: Frame, now: int): Summary {
    Summary(now, Some(frame.at), (FinalActiveMs(m, now) + 500) / 1000, RoundTenth(m.totals.distanceNm),
            RoundReal(m.totals.maxAltitudeFt), RoundReal(m.totals.maxAirspeedKts), m.totals.pointCount)
  }

  function CloseRow(r: Recorder, frame: Frame): Recorder {
    if r.m.current.None? || r.m.current.value !in r.db.flights then r
    else
      var f := r.m.current.value;
      r.(db := r.db.(flights := r.db.flights[f := r.db.flights[f].(summary := Some(Closing(r.m, frame, r.clock)))]),
         m := r.m.(totals := r.m.totals.(activeMs := FinalActiveMs(r.m, r.clock))))
  }

  function Landed(r: Recorder): Recorder {
    r.(m := r.m.(state := IDLE, current := None, cache := None, app := AppState(IDLE, None),
                 airborneStreak := 0, landedStreak := 0))
  }

  function FileOn(r: Recorder, filed: bool): Recorder {
    if r.m.current.None? || r.m.onFiled then r
    else File(r.(m := r.m.(onFiled := true)), Oooi(r.m.current.value, ON), filed)
  }

  function Arrived(leg: PlannedLeg, at: Position, dist: Distance): PlannedLeg {
    var nm := dist(at, leg.destination);
    leg.(arrival := Some(Arrival(nm <= ARRIVAL_RADIUS_NM, RoundTenth(nm))))
  }

  /** The leg of the flight's row, whoever linked it, is judged by where the flight came down. */
  function RecordArrival(r: Recorder, frame: Frame, dist: Distance): Recorder {
    if r.m.current.None? || r.m.current.value !in r.db.links || r.db.links[r.m.current.value] !in r.db.legs then r
    else
      var l := r.db.links[r.m.current.value];
      r.(db := r.db.(legs := r.db.legs[l := Arrived(r.db.legs[l], frame.at, dist)]))
  }

  /** ON if it is still due, then IN. */
  function TellLanding(r: Recorder, filed: bool): Recorder {
    if r.m.current.None? then r else File(FileOn(r, filed), Oooi(r.m.current.value, IN), filed)
  }

  function EndFlight(r: Recorder, frame: Frame, cfg: Config, filed: bool): Recorder {
    if r.m.current.None? then r
    else Landed(TellLanding(RecordArrival(CloseRow(r, frame), frame, cfg.dist), filed))
  }

  // ---------------------------------------------------------------- on the ground

  function ToIdle(r: Recorder): Recorder {
    r.(m := r.m.(state := IDLE, app := AppState(IDLE, r.m.app.flightId), anchor := None, groundStreak := 0,
                 live := None))
  }

  /** The row the live status is built from. */
  ghost function OpenSession(t: GS.Table): Option<GS.Session> {
    if GS.SomeOpen(t) then Some(t.rows[GS.OpenId(t)]) else None
  }

  function OnGround(m: Machine, at: Position, live: Option<GS.Session>): Machine {
    m.(state := GROUND, app := AppState(GROUND, m.app.flightId), anchor := Some(at), groundStreak := 0, live := live)
  }

  /** A failure is logged, and the aircraft must be seen parked all over again. */
  ghost function EnterGround(r: Recorder, frame: Frame, w: World): Recorder {
    if !w.enters then r.(m := r.m.(groundStreak := 0))
    else
      var sessions := GS.Enter(r.db.sessions,
                               GS.Detected(w.airport, frame.at, w.stand, w.matched, frame.aircraft, r.clock));
      r.(db := r.db.(sessions := sessions), m := OnGround(r.m, frame.at, OpenSession(sessions)),
         h := r.h.(stale := false))
  }

  ghost function LeaveGround(r: Recorder, reason: GS.EndReason): Recorder {
    ToIdle(CloseGround(r, reason, None))
  }

  /** A session the operator entered by hand is left open. */
  ghost function LeaveAutoGround(r: Recorder, reason: GS.EndReason): Recorder {
    var t := r.db.sessions;
    if GS.SomeOpen(t) && t.rows[GS.OpenId(t)].source.Auto? then LeaveGround(r, reason) else ToIdle(r)
  }

  // ---------------------------------------------------------------- the handlers

  function Booted(r: Recorder): Recorder {
    r.(m := r.m.(bootChecked := true))
  }

  function Counted(r: Recorder, streak: int): Recorder {
    r.(m := r.m.(airborneStreak := streak))
  }

  /** The airborne frames in a row, counting this one. */
  function NextStreak(r: Recorder, frame: Frame): int {
    if IsAirborneFrame(frame) then r.m.airborneStreak + 1 else 0
  }

  /** Three airborne frames in a row start a flight. */
  ghost function Debounce(r: Recorder, frame: Frame, w: World, cfg: Config): Recorder {
    var counted := Counted(r, NextStreak(r, frame));
    if NextStreak(r, frame) < AIRBORNE_DEBOUNCE_FRAMES then counted else StartFlight(counted, frame, w, cfg)
  }

  ghost function CheckAirborne(r: Recorder, frame: Frame, w: World, cfg: Config): Recorder {
    var booted := Booted(r);
    if !r.m.bootChecked && exists f :: IsLatestOpen(r.db, f) && f in r.db.points then
      var f :| IsLatestOpen(r.db, f) && f in r.db.points;
      ResumeFlight(booted, f, frame, cfg, w.filed)
    else Debounce(booted, frame, w, cfg)
  }

  ghost function FrameIdle(r: Recorder, frame: Frame, w: World, cfg: Config): Recorder {
    var next := CheckAirborne(r, frame, w, cfg);
    if !next.m.state.IDLE? then next
    else
      var streak := if IsParkedFrame(frame) then r.m.groundStreak + 1 else 0;
      var counted := next.(m := next.m.(groundStreak := streak));
      if streak >= GROUND_DEBOUNCE_FRAMES then EnterGround(counted, frame, w) else counted
  }

  ghost function FrameGround(r: Recorder, frame: Frame, w: World, cfg: Config): Recorder {
    if frame.simRunning == 3 then LeaveGround(r, GS.SlewEnd)
    else if r.m.anchor.Some? && HasLeftAnchor(r.m.anchor.value, frame.at, cfg.dist) then LeaveGround(r, GS.Superseded)
    else CheckAirborne(r, frame, w, cfg)
  }

  function Interrupt(r: Recorder): Recorder {
    r.(m := r.m.(interrupted := true), h := r.h.(log := r.h.log + [Break]))
  }

  function WithStreak(r: Recorder, streak: int): Recorder {
    r.(m := r.m.(landedStreak := streak))
  }

  /** Ten slow frames on the ground in a row end the flight. */
  function Settle(r: Recorder, frame: Frame, cfg: Config, filed: bool): Recorder {
    if frame.onGround && frame.groundSpeedKnots < 5.0 then
      var counted := WithStreak(r, r.m.landedStreak + 1);
      if r.m.landedStreak + 1 >= LANDED_DEBOUNCE_FRAMES then EndFlight(counted, frame, cfg, filed) else counted
    else WithStreak(r, 0)
  }

  function RecordIfDue(r: Recorder, frame: Frame, cfg: Config, filed: bool): Recorder {
    if r.clock - r.m.totals.lastPointTime < RECORD_INTERVAL_MS then r else WritePoint(r, frame, cfg, filed)
  }

  function FrameFlying(r: Recorder, frame: Frame, w: World, cfg: Config): Recorder {
    if frame.simRunning == 3 || r.m.paused then Interrupt(r)
    else
      var recorded := RecordIfDue(r, frame, cfg, w.filed);
      var touched := if frame.onGround then FileOn(recorded, w.filed) else recorded;
      Settle(touched, frame, cfg, w.filed)
  }

  function Seen(r: Recorder, frame: Frame): Recorder {
    r.(m := r.m.(lastFrame := Some(frame)))
  }

  ghost function OnFrame(r: Recorder, frame: Frame, w: World, cfg: Config): Recorder {
    var seen := Seen(r, frame);
    if frame.simRunning == 0 then
      match r.m.state
      case FLYING => EndFlight(seen, frame, cfg, w.filed)
      case GROUND => LeaveGround(seen, GS.SimExit)
      case IDLE => seen
    else
      match r.m.state
      case IDLE => FrameIdle(seen, frame, w, cfg)
      case GROUND => FrameGround(seen, frame, w, cfg)
      case FLYING => FrameFlying(seen, frame, w, cfg)
  }

  ghost function OnLoss(r: Recorder, reason: GS.EndReason, cfg: Config, filed: bool): Recorder {
    if r.m.state.FLYING? && r.m.lastFrame.Some? then EndFlight(r, r.m.lastFrame.value, cfg, filed)
    else if r.m.state.GROUND? then LeaveAutoGround(r, reason)
    else r
  }

  function SetPaused(r: Recorder, paused: bool): Recorder {
    var noted := if paused then Interrupt(r) else r;
    noted.(m := noted.m.(paused := paused))
  }

  /** A route handler changed the sessions; the machine catches up. */
  ghost function RefreshGroundSession(r: Recorder): Recorder {
    if !GS.SomeOpen(r.db.sessions) && r.m.state.GROUND? then ToIdle(r)
    else r.(m := r.m.(live := OpenSession(r.db.sessions)), h := r.h.(stale := false))
  }

  /** A route handler changed legs or links; the machine catches up on its own flight. */
  function RefreshPlannedLeg(r: Recorder): Recorder {
    if r.m.current.None? then r else r.(m := r.m.(cache := LinkOf(r.db, r.m.current.value)))
  }

  // ---------------------------------------------------------------- deletions, and what they take along

  predicate Lost(m: Message, flights: set<int>, legs: set<int>) {
    FlightsOf(m.key) * flights != {} || (m.leg.Some? && m.leg.value in legs)
  }

  /** The messages left when these flights and legs are deleted, theirs going with them. */
  function Remaining(messages: seq<Message>, flights: set<int>, legs: set<int>): seq<Message> {
    if messages == [] then []
    else
      var before := Remaining(Init(messages), flights, legs);
      if Lost(Last(messages), flights, legs) then before else before + [Last(messages)]
  }

  function TornBy(messages: seq<Message>, flights: set<int>, legs: set<int>): set<int> {
    if messages == [] then {}
    else
      var before := TornBy(Init(messages), flights, legs);
      if Lost(Last(messages), flights, legs) then before + FlightsOf(Last(messages).key) else before
  }

  /** Does the live session name one of these legs? */
  predicate NamesOne(live: Option<GS.Session>, legs: set<int>) {
    live.Some? && live.value.legId.Some? && live.value.legId.value in legs
  }

  /** What the foreign keys do when flights and legs are deleted. The live session is not told. */
  function Cascaded(r: Recorder, flights: set<int>, legs: set<int>): Recorder {
    r.(db := r.db.(messages := Remaining(r.db.messages, flights, legs),
                   sessions := GS.AllUnreferenced(r.db.sessions, flights, legs)),
       h := r.h.(torn := r.h.torn + TornBy(r.db.messages, flights, legs),
                 stale := r.h.stale || NamesOne(r.m.live, legs)))
  }

  /** The row and its points go, and the leg it held is planned again. */
  function Dropped(db: Stored, f: int): Stored {
    db.(flights := db.flights - {f}, points := db.points - {f}, links := db.links - {f},
        legs := if f in db.links && db.links[f] in db.legs
                then db.legs[db.links[f] := db.legs[db.links[f]].(arrival := None)]
                else db.legs)
  }

  /** Deleting the flight being recorded is not modelled. */
  function DeleteFlight(r: Recorder, f: int): Recorder {
    if f !in r.db.flights || r.m.current == Some(f) then r
    else RefreshPlannedLeg(Cascaded(r.(db := Dropped(r.db, f)), {f}, {}))
  }

  /** The columns a merge reads of a row; an open row has none yet. */
  function ColumnsOf(row: FlightRow): FM.Columns {
    match row.summary
    case None => FM.Columns(None, None, None)
    case Some(s) => FM.Columns(Some(s.distanceNm), Some(s.maxAltitudeFt), Some(s.maxAirspeedKts))
  }

  function OwnDurationSec(row: FlightRow): int {
    if row.summary.Some? then row.summary.value.durationSec else 0
  }

  /** One row over both flights, `first` having started first. */
  function MergedRow(first: FlightRow, second: FlightRow, before: seq<Point>, after: seq<Point>,
                     dist: Distance): FlightRow
    requires after != []
  {
    var columns := FM.MergedColumns(ColumnsOf(first), ColumnsOf(second), before, after, dist);
    var end := if second.summary.Some? then second.summary.value.endTime else Last(after).ts;
    FlightRow(first.startTime, first.departure, Some(Summary(
      end, if second.summary.Some? then second.summary.value.arrival else None,
      OwnDurationSec(first) + OwnDurationSec(second), columns.distanceNm.value,
      columns.maxAltitudeFt.value, columns.maxAirspeedKts.value, |FM.Merged(before, after)|)))
  }

  /** Two flights with points, neither of them being recorded. */
  predicate MayCombine(r: Recorder, a: int, b: int) {
    && a != b && {a, b} <= r.db.flights.Keys && {a, b} <= r.db.points.Keys
    && r.db.points[a] != [] && r.db.points[b] != []
    && r.m.current != Some(a) && r.m.current != Some(b)
  }

  function WithMerged(r: Recorder, first: int, second: int, dist: Distance): Recorder
    requires {first, second} <= r.db.flights.Keys && {first, second} <= r.db.points.Keys && r.db.points[second] != []
  {
    var id, before, after := r.db.nextFlight, r.db.points[first], r.db.points[second];
    var row := MergedRow(r.db.flights[first], r.db.flights[second], before, after, dist);
    r.(db := r.db.(flights := r.db.flights[id := row],
                   points := r.db.points[id := FM.ByTime(FM.Merged(before, after))], nextFlight := id + 1),
       h := r.h.(torn := r.h.torn + {id}, others := r.h.others + {id}))
  }

  /** The merged row is inserted, then both rows are deleted. */
  function CombineFlights(r: Recorder, a: int, b: int, dist: Distance): Recorder {
    if !MayCombine(r, a, b) then r
    else
      var inOrder := r.db.flights[a].startTime <= r.db.flights[b].startTime;
      var merged := WithMerged(r, if inOrder then a else b, if inOrder then b else a, dist);
      Cascaded(merged.(db := Dropped(Dropped(merged.db, a), b)), {a, b}, {})
  }

  // ---------------------------------------------------------------- events

  datatype Event =
    | Telemetry(frame: Frame, world: World)
    | Pause(paused: bool)
    | SimCrash(filed: bool)
    | Disconnect(filed: bool)
    | Restart
    | DeathAtTakeoff(frame: Frame, world: World, writes: nat)
    | DeathAtLanding
    | OperatorEntry(entry: GS.ManualEntry)
    | OperatorClose
    | PlanChange(links: map<int, int>, legs: map<int, PlannedLeg>)
    | FlightDeletion(flight: int)
    | Combination(first: int, second: int)

  ghost predicate PlansFit(db: Stored, links: map<int, int>, legs: map<int, PlannedLeg>) {
    && links.Keys <= db.flights.Keys
    && links.Values <= legs.Keys
    && forall f, g :: f in links && g in links && links[f] == links[g] ==> f == g
  }

  ghost predicate WouldTakeOff(r: Recorder, frame: Frame, cfg: Config) {
    && frame.simRunning != 0 && IsAirborneFrame(frame) && r.m.bootChecked
    && r.m.airborneStreak + 1 >= AIRBORNE_DEBOUNCE_FRAMES
    && (r.m.state.IDLE?
        || (r.m.state.GROUND? && r.m.anchor.Some? && !HasLeftAnchor(r.m.anchor.value, frame.at, cfg.dist)))
  }

  ghost function Restarted(r: Recorder): Recorder {
    r.(m := FRESH, h := r.h.(log := [], windows := []))
  }

  /** The process dies between two of a takeoff's writes. */
  ghost function DieAtTakeoff(r: Recorder, frame: Frame, w: World, writes: nat, cfg: Config): Recorder {
    if !WouldTakeOff(r, frame, cfg) then r
    else
      var cut := TakeoffWrites(r, frame, w, writes);
      Restarted(cut.(h := cut.h.(torn := cut.h.torn + {r.db.nextFlight})))
  }

  /** The process dies after closing the row, before the leg is judged and before any message. */
  ghost function DieAtLanding(r: Recorder): Recorder {
    if !r.m.state.FLYING? || r.m.lastFrame.None? || r.m.current.None? then r
    else
      var cut := CloseRow(r, r.m.lastFrame.value);
      Restarted(cut.(h := cut.h.(torn := cut.h.torn + {r.m.current.value})))
  }

  ghost function WithSessions(r: Recorder, t: GS.Table): Recorder {
    RefreshGroundSession(r.(db := r.db.(sessions := t)))
  }

  /** Operators and imports leave other links and legs; a leg that is gone takes its references along. */
  ghost function ChangePlans(r: Recorder, links: map<int, int>, legs: map<int, PlannedLeg>): Recorder {
    if !PlansFit(r.db, links, legs) then r
    else
      var cascaded := Cascaded(r, {}, r.db.legs.Keys - legs.Keys);
      RefreshPlannedLeg(cascaded.(db := cascaded.db.(links := links, legs := legs)))
  }

  ghost function Handle(r: Recorder, e: Event, cfg: Config): Recorder {
    match e
    case Telemetry(frame, w) => OnFrame(r, frame, w, cfg)
    case Pause(paused) => SetPaused(r, paused)
    case SimCrash(filed) => OnLoss(r, GS.CrashEnd, cfg, filed)
    case Disconnect(filed) => OnLoss(r, GS.SimExit, cfg, filed)
    case Restart => Restarted(r)
    case DeathAtTakeoff(frame, w, writes) => DieAtTakeoff(r, frame, w, writes, cfg)
    case DeathAtLanding => DieAtLanding(r)
    case OperatorEntry(entry) => WithSessions(r, GS.EnterByHand(r.db.sessions, entry, r.clock))
    case OperatorClose => WithSessions(r, GS.CloseOpen(r.db.sessions, r.clock, GS.ManualEnd, None))
    case PlanChange(links, legs) => ChangePlans(r, links, legs)
    case FlightDeletion(f) => DeleteFlight(r, f)
    case Combination(a, b) => CombineFlights(r, a, b, cfg.dist)
  }

  function Later(r: Recorder, dt: nat): Recorder {
    r.(clock := r.clock + dt)
  }

  /** One event, `dt` milliseconds after the one before it. */
  ghost function Step(r: Recorder, dt: nat, e: Event, cfg: Config): Recorder {
    Handle(Later(r, dt), e, cfg)
  }

  ghost function Run(r: Recorder, events: seq<(nat, Event)>, cfg: Config): Recorder
    decreases |events|
  {
    if events == [] then r else Run(Step(r, events[0].0, events[0].1, cfg), events[1..], cfg)
  }
}
