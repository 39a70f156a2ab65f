/**
 * What becomes of the events: which frames a flight stores, what time it
 * counts, when it begins and ends, what its row and its messages say, and when
 * a ground session opens and closes. Everything is told from the frames and
 * the clock, in numbers, and not through the handlers.
 */
module RecorderFlights {
  import opened Wrappers
  import opened Track
  import opened AcarsKeys
  import opened RecorderModel
  import opened RecorderRuns
  import GS = GroundSessions

  // ---------------------------------------------------------------- the frames

  predicate Aloft(frame: Frame) {
    frame.simRunning != 3 && !frame.onGround && frame.airspeedKnots > 30.0
  }

  predicate Slow(frame: Frame) {
    frame.onGround && frame.groundSpeedKnots < 5.0
  }

  predicate Parked(frame: Frame) {
    && frame.simRunning != 0 && frame.simRunning != 3 && frame.onGround && frame.groundSpeedKnots < 1.0
    && (frame.enginesRunning == Some(0) || frame.parkingBrake == Some(true))
  }

  /** A frame that is neither of a simulator that stopped, nor slewed, nor seen while paused. */
  predicate Counts(frame: Frame, paused: bool) {
    frame.simRunning != 0 && frame.simRunning != 3 && !paused
  }

  // ---------------------------------------------------------------- the tale of a flight

  /** The time, the time of the last stored point, and whether the simulator is paused. */
  datatype Watch = Watch(now: int, last: int, paused: bool)

  predicate Stores(t: Watch, dt: nat, e: Event) {
    e.Telemetry? && Counts(e.frame, t.paused) && t.now + dt - t.last >= 5000
  }

  /** A pause, a slewed frame, and a frame while paused: the time around them was not flown. */
  predicate Disowns(t: Watch, e: Event) {
    (e.Pause? && e.paused) || (e.Telemetry? && e.frame.simRunning != 0 && (e.frame.simRunning == 3 || t.paused))
  }

  function Next(t: Watch, dt: nat, e: Event): Watch {
    Watch(t.now + dt, if Stores(t, dt, e) then t.now + dt else t.last, if e.Pause? then e.paused else t.paused)
  }

  function Added(t: Watch, dt: nat, e: Event): seq<Point> {
    if Stores(t, dt, e) then [Point(t.now + dt, e.frame.at, e.frame.altitudeFt, e.frame.airspeedKnots)] else []
  }

  function Logged(t: Watch, dt: nat, e: Event): seq<Entry> {
    if Stores(t, dt, e) then [Fix(t.now + dt)] else if Disowns(t, e) then [Break] else []
  }

  function AllAdded(t: Watch, events: seq<(nat, Event)>): seq<Point>
    decreases |events|
  {
    if events == [] then []
    else Added(t, events[0].0, events[0].1) + AllAdded(Next(t, events[0].0, events[0].1), events[1..])
  }

  function AllLogged(t: Watch, events: seq<(nat, Event)>): seq<Entry>
    decreases |events|
  {
    if events == [] then []
    else Logged(t, events[0].0, events[0].1) + AllLogged(Next(t, events[0].0, events[0].1), events[1..])
  }

  function WatchOf(r: Recorder): Watch {
    Watch(r.clock, r.m.totals.lastPointTime, r.m.paused)
  }

  // ---------------------------------------------------------------- one frame in the air

  /** The track and the log stay as they are, and so does the machine's part in them while it flies. */
  ghost predicate SameTale(r: Recorder, after: Recorder) {
    && after.db.points == r.db.points && after.h.log == r.h.log && after.clock == r.clock
    && (after.m.state.FLYING? ==>
          after.m.current == r.m.current && after.m.paused == r.m.paused && after.m.totals == r.m.totals)
  }

  lemma FileOnSameTale(r: Recorder, filed: bool)
    ensures SameTale(r, FileOn(r, filed)) && FileOn(r, filed).db.flights == r.db.flights
    ensures FileOn(r, filed).m == r.m.(onFiled := FileOn(r, filed).m.onFiled)
  {}

  lemma TellLandingSameTale(r: Recorder, filed: bool)
    ensures
      var told := TellLanding(r, filed);
      && told.db == r.db.(messages := told.db.messages) && told.h.log == r.h.log && told.clock == r.clock
      && told.m == r.m.(onFiled := told.m.onFiled)
  {
    FileOnSameTale(r, filed);
  }

  /** What the row of a flight says once it is over. */
  function Finished(at: Position, now: int, log: seq<Entry>, points: seq<Point>, dist: Distance): Summary
    requires points != []
  {
    Summary(now, Some(at), (UnbrokenMs(log + [Fix(now)]) + 500) / 1000, RoundTenth(PathLength(points, dist)),
            RoundReal(MaxAltitude(points)), RoundReal(MaxAirspeed(points)), |points|)
  }

  lemma ClosingIsFinished(r: Recorder, frame: Frame, cfg: Config)
    requires Inv(r, cfg) && r.m.state.FLYING?
    ensures Closing(r.m, frame, r.clock) == Finished(frame.at, r.clock, r.h.log, PointsOf(r), cfg.dist)
  {
    var log := r.h.log + [Fix(r.clock)];
    assert Init(log) == r.h.log && Last(log) == Fix(r.clock);
    assert Last(Fixes(r.h.log)) == Last(Times(PointsOf(r))) == Last(PointsOf(r)).ts;
  }

  /** The row of a flight that ends, however it ends. */
  lemma EndFlightFinishes(r: Recorder, frame: Frame, cfg: Config, filed: bool)
    requires Inv(r, cfg) && r.m.state.FLYING?
    ensures
      var f, after := r.m.current.value, EndFlight(r, frame, cfg, filed);
      && after.db.flights ==
         r.db.flights[f := r.db.flights[f].(summary :=
           Some(Finished(frame.at, r.clock, r.h.log, PointsOf(r), cfg.dist)))]
      && SameTale(r, after) && after.m.state.IDLE?
  {
    ClosingIsFinished(r, frame, cfg);
    TellLandingSameTale(RecordArrival(CloseRow(r, frame), frame, cfg.dist), filed);
  }

  lemma WrittenTale(r: Recorder, frame: Frame, cfg: Config, filed: bool)
    requires Inv(r, cfg) && r.m.state.FLYING?
    ensures
      var after := WritePoint(r, frame, cfg, filed);
      && after.db.points ==
         r.db.points[r.m.current.value :=
           PointsOf(r) + [Point(r.clock, frame.at, frame.altitudeFt, frame.airspeedKnots)]]
      && after.h.log == r.h.log + [Fix(r.clock)] && after.clock == r.clock && after.db.flights == r.db.flights
      && after.m.current == r.m.current && WatchOf(after) == Watch(r.clock, r.clock, r.m.paused)
  {
    WritePointKeeps(r, frame, cfg, filed);
  }

  /** After a flight nothing is left of it in the machine: the next one takes three airborne frames again. */
  lemma LandingLeavesNothing(r: Recorder, frame: Frame, cfg: Config, filed: bool)
    requires r.m.current.Some?
    ensures
      var after := EndFlight(r, frame, cfg, filed);
      && after.m.current == after.m.cache == None && after.m.app == AppState(IDLE, None)
      && after.m.airborneStreak == after.m.landedStreak == 0
  {}

  lemma RecordedTale(r: Recorder, frame: Frame, w: World, cfg: Config)
    requires Inv(r, cfg) && r.m.state.FLYING? && Counts(frame, r.m.paused)
    ensures
      var t, e := WatchOf(r), Telemetry(frame, w);
      var after := RecordIfDue(r, frame, cfg, w.filed);
      && Inv(after, cfg) && after.m.state.FLYING? && after.m.current == r.m.current
      && after.m.landedStreak == r.m.landedStreak && after.clock == r.clock && after.db.flights == r.db.flights
      && after.db.points == r.db.points[r.m.current.value := PointsOf(r) + Added(t, 0, e)]
      && after.h.log == r.h.log + Logged(t, 0, e) && WatchOf(after) == Next(t, 0, e)
  {
    if r.clock - r.m.totals.lastPointTime >= 5000 {
      RecordKeeps(r, frame, cfg, w.filed);
      WrittenTale(r, frame, cfg, w.filed);
    } else {
      assert PointsOf(r) + [] == PointsOf(r) && r.h.log + [] == r.h.log;
    }
  }

  lemma SettledTale(r: Recorder, frame: Frame, cfg: Config, filed: bool)
    requires Inv(r, cfg) && r.m.state.FLYING?
    ensures
      var f, after := r.m.current.value, Settle(r, frame, cfg, filed);
      var ends := Slow(frame) && r.m.landedStreak == 9;
      && SameTale(r, after)
      && (after.m.state.FLYING? <==> !ends)
      && (!ends ==> after.m.landedStreak == if Slow(frame) then r.m.landedStreak + 1 else 0)
      && after.db.flights ==
         if ends
         then r.db.flights[f := r.db.flights[f].(summary :=
                Some(Finished(frame.at, r.clock, r.h.log, PointsOf(r), cfg.dist)))]
         else r.db.flights
  {
    EndFlightFinishes(r, frame, cfg, filed);
    EndIgnoresStreak(r, r.m.landedStreak + 1, frame, cfg, filed);
  }

  /** Does this event end the flight? */
  predicate Ends(r: Recorder, e: Event) {
    match e
    case Telemetry(frame, _) =>
      frame.simRunning == 0 || (Counts(frame, r.m.paused) && Slow(frame) && r.m.landedStreak == 9)
    case SimCrash(_) => true
    case Disconnect(_) => true
    case DeathAtLanding => true
    case _ => false
  }

  /** Where it ends: at the frame, or at the last one seen. */
  function Where(r: Recorder, e: Event): Position {
    if e.Telemetry? then e.frame.at else if r.m.lastFrame.Some? then r.m.lastFrame.value.at else NOWHERE
  }

  /** The flight's row after the event. */
  function RowAfter(r: Recorder, row: FlightRow, t: Watch, dt: nat, e: Event, dist: Distance): FlightRow
    requires PointsOf(r) != []
  {
    if Ends(r, e)
    then row.(summary := Some(Finished(Where(r, e), t.now + dt, r.h.log + Logged(t, dt, e),
                                       PointsOf(r) + Added(t, dt, e), dist)))
    else row
  }

  /** An event, and the flight under way: its points, its log and its row afterwards. */
  ghost predicate IsTold(r: Recorder, dt: nat, e: Event, after: Recorder, dist: Distance)
    requires r.m.current.Some? && r.m.current.value in r.db.flights && PointsOf(r) != []
  {
    var f, t := r.m.current.value, WatchOf(r);
    && f in after.db.points && after.db.points[f] == PointsOf(r) + Added(t, dt, e)
    && f in after.db.flights && after.db.flights[f] == RowAfter(r, r.db.flights[f], t, dt, e, dist)
    && (after.m.state.FLYING? <==> !Ends(r, e) && !e.Restart?)
    && (after.m.state.FLYING? ==>
          && after.m.current == Some(f) && after.h.log == r.h.log + Logged(t, dt, e) && WatchOf(after) == Next(t, dt, e)
          && after.m.landedStreak ==
             if e.Telemetry? && Counts(e.frame, r.m.paused)
             then if Slow(e.frame) then r.m.landedStreak + 1 else 0
             else r.m.landedStreak)
  }

  lemma StoppedIsTold(r: Recorder, frame: Frame, w: World, cfg: Config)
    requires Inv(r, cfg) && r.m.state.FLYING? && frame.simRunning == 0
    ensures IsTold(r, 0, Telemetry(frame, w), OnFrame(r, frame, w, cfg), cfg.dist)
  {
    SeenKeeps(r, frame, cfg);
    EndFlightFinishes(Seen(r, frame), frame, cfg, w.filed);
    assert PointsOf(r) + [] == PointsOf(r) && r.h.log + [] == r.h.log;
  }

  lemma DisownedIsTold(r: Recorder, frame: Frame, w: World, cfg: Config)
    requires Inv(r, cfg) && r.m.state.FLYING? && frame.simRunning != 0 && !Counts(frame, r.m.paused)
    ensures IsTold(r, 0, Telemetry(frame, w), OnFrame(r, frame, w, cfg), cfg.dist)
  {
    assert PointsOf(r) + [] == PointsOf(r);
  }

  /** The machine once a frame is recorded and a touchdown told, the landing not yet looked at. */
  function Touched(r: Recorder, frame: Frame, w: World, cfg: Config): Recorder {
    var recorded := RecordIfDue(Seen(r, frame), frame, cfg, w.filed);
    if frame.onGround then FileOn(recorded, w.filed) else recorded
  }

  lemma TouchedTale(r: Recorder, frame: Frame, w: World, cfg: Config)
    requires Inv(r, cfg) && r.m.state.FLYING? && Counts(frame, r.m.paused)
    ensures
      var t, e, after := WatchOf(r), Telemetry(frame, w), Touched(r, frame, w, cfg);
      && Inv(after, cfg) && after.m.state.FLYING? && after.m.current == r.m.current
      && after.m.landedStreak == r.m.landedStreak && after.clock == r.clock && after.db.flights == r.db.flights
      && after.db.points == r.db.points[r.m.current.value := PointsOf(r) + Added(t, 0, e)]
      && after.h.log == r.h.log + Logged(t, 0, e) && WatchOf(after) == Next(t, 0, e)
  {
    SeenKeeps(r, frame, cfg);
    RecordedTale(Seen(r, frame), frame, w, cfg);
    var recorded := RecordIfDue(Seen(r, frame), frame, cfg, w.filed);
    FileOnSameTale(recorded, w.filed);
    FileOnKeeps(recorded, cfg, w.filed);
  }

  lemma CountedIsTold(r: Recorder, frame: Frame, w: World, cfg: Config)
    requires Inv(r, cfg) && r.m.state.FLYING? && Counts(frame, r.m.paused)
    ensures IsTold(r, 0, Telemetry(frame, w), OnFrame(r, frame, w, cfg), cfg.dist)
  {
    TouchedTale(r, frame, w, cfg);
    SettledTale(Touched(r, frame, w, cfg), frame, cfg, w.filed);
    assert OnFrame(r, frame, w, cfg) == Settle(Touched(r, frame, w, cfg), frame, cfg, w.filed);
  }

  lemma FrameIsTold(r: Recorder, frame: Frame, w: World, cfg: Config)
    requires Inv(r, cfg) && r.m.state.FLYING?
    ensures IsTold(r, 0, Telemetry(frame, w), OnFrame(r, frame, w, cfg), cfg.dist)
  {
    if frame.simRunning == 0 {
      StoppedIsTold(r, frame, w, cfg);
    } else if Counts(frame, r.m.paused) {
      CountedIsTold(r, frame, w, cfg);
    } else {
      DisownedIsTold(r, frame, w, cfg);
    }
  }

  lemma LossIsTold(r: Recorder, e: Event, cfg: Config)
    requires Inv(r, cfg) && r.m.state.FLYING? && (e.SimCrash? || e.Disconnect?)
    ensures IsTold(r, 0, e, Handle(r, e, cfg), cfg.dist)
  {
    var frame := r.m.lastFrame.value;
    EndFlightFinishes(r, frame, cfg, e.filed);
    assert Handle(r, e, cfg) == EndFlight(r, frame, cfg, e.filed);
    assert PointsOf(r) + [] == PointsOf(r) && r.h.log + [] == r.h.log;
  }

  lemma DeathIsTold(r: Recorder, cfg: Config)
    requires Inv(r, cfg) && r.m.state.FLYING?
    ensures IsTold(r, 0, DeathAtLanding, Handle(r, DeathAtLanding, cfg), cfg.dist)
  {
    ClosingIsFinished(r, r.m.lastFrame.value, cfg);
    assert PointsOf(r) + [] == PointsOf(r) && r.h.log + [] == r.h.log;
  }

  /** The rest of the machine may change, the flight under way does not. */
  lemma UntouchedIsTold(r: Recorder, e: Event, after: Recorder, cfg: Config)
    requires Inv(r, cfg) && r.m.state.FLYING? && Logged(WatchOf(r), 0, e) == [] && !Ends(r, e) && !e.Telemetry?
    requires !e.Pause? && !e.Restart?
    requires
      var f := r.m.current.value;
      && f in after.db.points && after.db.points[f] == r.db.points[f]
      && f in after.db.flights && after.db.flights[f] == r.db.flights[f]
      && after.h.log == r.h.log && after.clock == r.clock
      && after.m == r.m.(cache := after.m.cache, live := after.m.live)
    ensures IsTold(r, 0, e, after, cfg.dist)
  {
    assert PointsOf(r) + [] == PointsOf(r) && r.h.log + [] == r.h.log;
  }

  /** An operator's edit leaves the flight under way alone, and so does a death at a takeoff that is none. */
  lemma EditIsTold(r: Recorder, e: Event, cfg: Config)
    requires Inv(r, cfg) && r.m.state.FLYING? && (e.PlanChange? || e.FlightDeletion? || e.DeathAtTakeoff?)
    ensures IsTold(r, 0, e, Handle(r, e, cfg), cfg.dist)
  {
    UntouchedIsTold(r, e, Handle(r, e, cfg), cfg);
  }

  /** A combination leaves alone every flight but the two and the new one. */
  lemma CombinationSpares(r: Recorder, a: int, b: int, f: int, dist: Distance)
    requires f in r.db.flights && f in r.db.points && r.m.current == Some(f) && f != r.db.nextFlight
    ensures
      var after := CombineFlights(r, a, b, dist);
      && f in after.db.flights && after.db.flights[f] == r.db.flights[f]
      && f in after.db.points && after.db.points[f] == r.db.points[f]
      && after.m == r.m && after.h.log == r.h.log && after.clock == r.clock
  {}

  lemma CombinationIsTold(r: Recorder, a: int, b: int, cfg: Config)
    requires Inv(r, cfg) && r.m.state.FLYING?
    ensures IsTold(r, 0, Combination(a, b), Handle(r, Combination(a, b), cfg), cfg.dist)
  {
    var f := r.m.current.value;
    assert RowOk(r.db, r.h.others, f, r.clock, cfg.dist);
    CombinationSpares(r, a, b, f, cfg.dist);
    UntouchedIsTold(r, Combination(a, b), CombineFlights(r, a, b, cfg.dist), cfg);
  }

  lemma SessionEditIsTold(r: Recorder, e: Event, cfg: Config)
    requires Inv(r, cfg) && r.m.state.FLYING? && (e.OperatorEntry? || e.OperatorClose?)
    ensures IsTold(r, 0, e, Handle(r, e, cfg), cfg.dist)
  {
    UntouchedIsTold(r, e, Handle(r, e, cfg), cfg);
  }

  lemma PauseIsTold(r: Recorder, paused: bool, cfg: Config)
    requires Inv(r, cfg) && r.m.state.FLYING?
    ensures IsTold(r, 0, Pause(paused), Handle(r, Pause(paused), cfg), cfg.dist)
  {
    assert PointsOf(r) + [] == PointsOf(r) && r.h.log + [] == r.h.log;
  }

  lemma LaterIsTold(r: Recorder, dt: nat, e: Event, after: Recorder, cfg: Config)
    requires Inv(r, cfg) && r.m.state.FLYING? && IsTold(Later(r, dt), 0, e, after, cfg.dist)
    ensures IsTold(r, dt, e, after, cfg.dist)
  {
    var t, u := WatchOf(r), WatchOf(Later(r, dt));
    assert Added(u, 0, e) == Added(t, dt, e) && Logged(u, 0, e) == Logged(t, dt, e) && Next(u, 0, e) == Next(t, dt, e);
  }

  /** What any event makes of the flight under way: nothing but its frames, its pauses and its end counts. */
  lemma StepIsTold(r: Recorder, dt: nat, e: Event, cfg: Config)
    requires Inv(r, cfg) && r.m.state.FLYING?
    ensures IsTold(r, dt, e, Step(r, dt, e, cfg), cfg.dist)
  {
    var later := Later(r, dt);
    TimePasses(r, dt, cfg);
    match e {
      case Telemetry(frame, w) => FrameIsTold(later, frame, w, cfg);
      case Pause(paused) => PauseIsTold(later, paused, cfg);
      case SimCrash(_) => LossIsTold(later, e, cfg);
      case Disconnect(_) => LossIsTold(later, e, cfg);
      case Restart => assert PointsOf(r) + [] == PointsOf(r);
      case DeathAtTakeoff(_, _, _) => EditIsTold(later, e, cfg);
      case DeathAtLanding => DeathIsTold(later, cfg);
      case OperatorEntry(_) => SessionEditIsTold(later, e, cfg);
      case OperatorClose => SessionEditIsTold(later, e, cfg);
      case PlanChange(_, _) => EditIsTold(later, e, cfg);
      case FlightDeletion(_) => EditIsTold(later, e, cfg);
      case Combination(a, b) => CombinationIsTold(later, a, b, cfg);
    }
    LaterIsTold(r, dt, e, Step(r, dt, e, cfg), cfg);
  }

  /** A frame is stored, as it is, exactly when the last stored point is five seconds old or older. */
  lemma WhichFramesAreStored(r: Recorder, frame: Frame, w: World, cfg: Config)
    requires Inv(r, cfg) && r.m.state.FLYING? && !r.m.paused && frame.simRunning != 0 && frame.simRunning != 3
    ensures
      var f, after := r.m.current.value, OnFrame(r, frame, w, cfg);
      && f in after.db.points
      && after.db.points[f] == PointsOf(r) +
           if r.clock - Last(PointsOf(r)).ts >= 5000
           then [Point(r.clock, frame.at, frame.altitudeFt, frame.airspeedKnots)] else []
  {
    FrameIsTold(r, frame, w, cfg);
  }

  /** The seconds of a flight that ends: its unbroken gaps up to now, in milliseconds, rounded. */
  lemma HowLongAFlightTook(r: Recorder, frame: Frame, cfg: Config, filed: bool)
    requires Inv(r, cfg) && r.m.state.FLYING?
    ensures
      var f, after := r.m.current.value, EndFlight(r, frame, cfg, filed);
      && f in after.db.flights && after.db.flights[f].summary.Some?
      && after.db.flights[f].summary.value.durationSec == (UnbrokenMs(r.h.log + [Fix(r.clock)]) + 500) / 1000
  {
    EndFlightFinishes(r, frame, cfg, filed);
  }

  // ---------------------------------------------------------------- a whole flight

  /** The flight goes on through all of these events. */
  ghost predicate StaysUp(r: Recorder, events: seq<(nat, Event)>, cfg: Config)
    decreases |events|
  {
    r.m.state.FLYING? && (events == [] || StaysUp(Step(r, events[0].0, events[0].1, cfg), events[1..], cfg))
  }

  lemma ActiveIsLogged(r: Recorder, cfg: Config)
    requires Inv(r, cfg) && r.m.state.FLYING?
    ensures r.m.totals.activeMs == UnbrokenMs(r.h.log)
  {}

  lemma GoesOn(r: Recorder, dt: nat, e: Event, cfg: Config)
    requires Inv(r, cfg) && r.m.state.FLYING? && Step(r, dt, e, cfg).m.state.FLYING?
    ensures
      var next, t := Step(r, dt, e, cfg), WatchOf(r);
      && Inv(next, cfg) && next.m.current == r.m.current && WatchOf(next) == Next(t, dt, e)
      && PointsOf(next) == PointsOf(r) + Added(t, dt, e)
      && next.h.log == r.h.log + Logged(t, dt, e)
  {
    StepKeeps(r, dt, e, cfg);
    StepIsTold(r, dt, e, cfg);
  }

  lemma Regroup<T>(a: seq<T>, b: seq<T>, c: seq<T>)
    ensures (a + b) + c == a + (b + c)
  {}

  lemma {:induction false} AllTold(r: Recorder, events: seq<(nat, Event)>, cfg: Config)
    requires Inv(r, cfg) && StaysUp(r, events, cfg)
    ensures
      var end := Run(r, events, cfg);
      && Inv(end, cfg) && end.m.state.FLYING? && end.m.current == r.m.current
      && PointsOf(end) == PointsOf(r) + AllAdded(WatchOf(r), events)
      && end.h.log == r.h.log + AllLogged(WatchOf(r), events)
    decreases |events|
  {
    if events == [] {
      assert PointsOf(r) + [] == PointsOf(r) && r.h.log + [] == r.h.log;
    } else {
      var dt, e, t := events[0].0, events[0].1, WatchOf(r);
      var u := Next(t, dt, e);
      GoesOn(r, dt, e, cfg);
      AllTold(Step(r, dt, e, cfg), events[1..], cfg);
      Regroup(PointsOf(r), Added(t, dt, e), AllAdded(u, events[1..]));
      Regroup(r.h.log, Logged(t, dt, e), AllLogged(u, events[1..]));
    }
  }

  /** As long as a flight goes on, its stored points and its active time are those its events tell. */
  lemma FlightIsTold(r: Recorder, events: seq<(nat, Event)>, cfg: Config)
    requires Inv(r, cfg) && StaysUp(r, events, cfg)
    ensures
      var end := Run(r, events, cfg);
      && end.m.state.FLYING? && end.m.current == r.m.current
      && PointsOf(end) == PointsOf(r) + AllAdded(WatchOf(r), events)
      && end.m.totals.activeMs == UnbrokenMs(r.h.log + AllLogged(WatchOf(r), events))
  {
    AllTold(r, events, cfg);
    ActiveIsLogged(Run(r, events, cfg), cfg);
  }

  /** A pause disowns the time it falls in, frames or none: no gap across it is counted, however short. */
  lemma PauseIsNotFlown(r: Recorder, a: nat, b: nat, c: nat, frame: Frame, w: World, cfg: Config)
    requires Inv(r, cfg) && r.m.state.FLYING?
    requires Counts(frame, false) && !Slow(frame)
    ensures
      var end := Step(Step(Step(r, a, Pause(true), cfg), b, Pause(false), cfg), c, Telemetry(frame, w), cfg);
      end.m.state.FLYING? && end.m.totals.activeMs == r.m.totals.activeMs
  {
    var paused := Step(r, a, Pause(true), cfg);
    var running := Step(paused, b, Pause(false), cfg);
    StepKeeps(r, a, Pause(true), cfg);
    StepKeeps(paused, b, Pause(false), cfg);
    StepKeeps(running, c, Telemetry(frame, w), cfg);
    StepIsTold(r, a, Pause(true), cfg);
    StepIsTold(paused, b, Pause(false), cfg);
    StepIsTold(running, c, Telemetry(frame, w), cfg);
    var end := Step(running, c, Telemetry(frame, w), cfg);
    var log := r.h.log + [Break];
    assert Init(log) == r.h.log && Last(log) == Break;
    assert running.h.log == log;
    if end.h.log != log {
      assert Init(end.h.log) == log && Last(end.h.log).Fix?;
    }
  }

  // ---------------------------------------------------------------- taking off

  /** Has the process looked for a flight to resume, or is there none? */
  ghost predicate NothingToResume(r: Recorder) {
    r.m.bootChecked || forall f :: !IsOpenFlight(r.db, f)
  }

  /** A frame that neither ends a ground session nor finds the simulator stopped. */
  predicate StaysPut(r: Recorder, frame: Frame, cfg: Config) {
    && frame.simRunning != 0
    && (r.m.state.GROUND? ==>
          frame.simRunning != 3 && (r.m.anchor.Some? ==> cfg.dist(r.m.anchor.value, frame.at) <= 10.0))
  }

  lemma AirborneCheck(r: Recorder, frame: Frame, w: World, cfg: Config)
    requires Inv(r, cfg) && !r.m.state.FLYING? && NothingToResume(r)
    ensures
      CheckAirborne(r, frame, w, cfg) ==
        if Aloft(frame) && r.m.airborneStreak == 2
        then StartFlight(Counted(Booted(r), 3), frame, w, cfg)
        else Counted(Booted(r), if Aloft(frame) then r.m.airborneStreak + 1 else 0)
  {
    assert !r.m.bootChecked ==> forall f :: !IsLatestOpen(r.db, f);
  }

  lemma ReadyToStart(r: Recorder, cfg: Config)
    requires Inv(r, cfg) && !r.m.state.FLYING? && NothingToResume(r) && r.m.lastFrame.Some?
    ensures
      var q := Counted(Booted(r), 3);
      && StoredOk(q.db, q.h.others, q.clock, cfg.dist) && MessagesOk(q)
      && q.m.bootChecked && q.m.lastFrame.Some? && OnlyOthersOpen(q)
  {}

  lemma GroundFrame(r: Recorder, frame: Frame, w: World, cfg: Config)
    requires r.m.state.GROUND? && StaysPut(r, frame, cfg)
    ensures OnFrame(r, frame, w, cfg) == CheckAirborne(Seen(r, frame), frame, w, cfg)
  {}

  /** What comes after the airborne check of an idle machine does not touch the count. */
  lemma IdleFrame(r: Recorder, frame: Frame, w: World, cfg: Config)
    requires r.m.state.IDLE? && frame.simRunning != 0
    ensures
      var next, after := CheckAirborne(Seen(r, frame), frame, w, cfg), OnFrame(r, frame, w, cfg);
      && (!next.m.state.IDLE? ==> after == next)
      && (next.m.state.IDLE? ==>
            && !after.m.state.FLYING? && after.m.airborneStreak == next.m.airborneStreak
            && after.m.bootChecked == next.m.bootChecked)
  {}

  /** A flight begins with the third airborne frame in a row; any other frame starts the count again. */
  lemma AirborneFramesCount(r: Recorder, frame: Frame, w: World, cfg: Config)
    requires Inv(r, cfg) && !r.m.state.FLYING? && NothingToResume(r) && StaysPut(r, frame, cfg)
    ensures
      var after := OnFrame(r, frame, w, cfg);
      && (after.m.state.FLYING? <==> Aloft(frame) && r.m.airborneStreak == 2)
      && after.m.bootChecked
      && (!after.m.state.FLYING? ==> after.m.airborneStreak == if Aloft(frame) then r.m.airborneStreak + 1 else 0)
      && (after.m.state.FLYING? ==> after == StartFlight(Counted(Booted(Seen(r, frame)), 3), frame, w, cfg))
  {
    var seen := Seen(r, frame);
    SeenKeeps(r, frame, cfg);
    AirborneCheck(seen, frame, w, cfg);
    if Aloft(frame) && r.m.airborneStreak == 2 {
      ReadyToStart(seen, cfg);
      StartFlightKeeps(Counted(Booted(seen), 3), frame, w, cfg);
    }
    if r.m.state.IDLE? {
      IdleFrame(r, frame, w, cfg);
    } else {
      GroundFrame(r, frame, w, cfg);
    }
  }

  /** The leg a takeoff gets: the matched one, if it exists and no flight has it. */
  function Given(r: Recorder, w: World): Option<int> {
    if w.matched.Some? && w.matched.value in r.db.legs && w.matched.value !in r.db.links.Values then w.matched else None
  }

  /** The open session, if there is one, ends now for this reason; no other session changes. */
  ghost predicate SessionEnds(t: GS.Table, after: GS.Table, at: int, reason: GS.EndReason, flight: Option<int>) {
    && after.next == t.next && after.rows.Keys == t.rows.Keys
    && forall id :: id in t.rows ==>
         after.rows[id] ==
           if t.rows[id].ended.None? then t.rows[id].(ended := Some(GS.Ending(at, reason, flight))) else t.rows[id]
  }

  lemma ClosingEnds(t: GS.Table, at: int, reason: GS.EndReason, flight: Option<int>)
    requires GS.Valid(t)
    ensures SessionEnds(t, GS.CloseOpen(t, at, reason, flight), at, reason, flight)
  {
    assert forall id :: GS.IsOpen(t, id) ==> GS.SomeOpen(t) && id == GS.OpenId(t);
    assert forall id :: id in t.rows && t.rows[id].ended.None? ==> GS.IsOpen(t, id);
  }

  /** Filing says this message, when the insert succeeds, and nothing else. */
  lemma FiledAre(r: Recorder, key: Key, filed: bool)
    ensures
      var after := File(r, key, filed);
      forall k :: Said(after.db.messages, k) <==> Said(r.db.messages, k) || (filed && k == key)
  {
    TakenMeansSaid(r.db.messages, key);
    var after := File(r, key, filed);
    if filed && !Taken(r.db.messages, key) {
      assert Message(key, r.m.cache) in after.db.messages;
      assert forall m :: m in after.db.messages <==> m in r.db.messages || m == Message(key, r.m.cache);
    }
  }

  /** In the first window there is no report. */
  lemma NoReportYet(r: Recorder, frame: Frame, w: World, cfg: Config)
    requires r.m.current.Some? && r.m.totals.flightStart == r.clock
    ensures WritePoint(r, frame, cfg, w.filed) == Write(r, frame, cfg)
  {}

  /** The only messages a takeoff files are its OUT and its OFF. */
  lemma TakeoffSpeaks(r: Recorder, frame: Frame, w: World, cfg: Config)
    ensures
      var f, after := r.db.nextFlight, StartFlight(r, frame, w, cfg);
      forall k :: Said(after.db.messages, k) <==>
        Said(r.db.messages, k) || (w.filed && k in {Oooi(f, OUT), Oooi(f, OFF)})
  {
    var f, begun := r.db.nextFlight, Takeoff(TakeoffWrites(r, frame, w, 3), r.db.nextFlight, frame);
    NoReportYet(TakenOff(r, frame, w), frame, w, cfg);
    FiledAre(begun, Oooi(f, OUT), w.filed);
    FiledAre(File(begun, Oooi(f, OUT), w.filed), Oooi(f, OFF), w.filed);
  }

  /**
   * A flight begins where and when the frame is, with that frame as its first
   * point and no time counted, on the given leg, and it ends the ground session.
   */
  lemma TakeoffTells(r: Recorder, frame: Frame, w: World, cfg: Config)
    requires StoredOk(r.db, r.h.others, r.clock, cfg.dist) && OncePerKey(r.db.messages)
    ensures
      var f, after := r.db.nextFlight, StartFlight(r, frame, w, cfg);
      && f !in r.db.flights && after.db.flights == r.db.flights[f := FlightRow(r.clock, frame.at, None)]
      && after.db.points == r.db.points[f := [Point(r.clock, frame.at, frame.altitudeFt, frame.airspeedKnots)]]
      && after.db.nextFlight == f + 1 && after.db.legs == r.db.legs
      && after.db.links == (if Given(r, w).Some? then r.db.links[f := Given(r, w).value] else r.db.links)
      && after.m.current == Some(f) && after.m.cache == Given(r, w) && after.m.totals.activeMs == 0
      && after.h.log == [Fix(r.clock)] && WatchOf(after) == Watch(r.clock, r.clock, r.m.paused)
      && after.m.landedStreak == after.m.airborneStreak == after.m.lastWindow == 0 && !after.m.onFiled
      && SessionEnds(r.db.sessions, after.db.sessions, r.clock, GS.FlightStarted, Some(f))
  {
    var f, begun := r.db.nextFlight, Takeoff(TakeoffWrites(r, frame, w, 3), r.db.nextFlight, frame);
    var ready := TakenOff(r, frame, w);
    TakeoffRows(r, frame, w, 3, cfg);
    ClosingEnds(r.db.sessions, r.clock, GS.FlightStarted, Some(f));
    TellTakeoffFacts(begun, f, w.filed);
    NoReportYet(ready, frame, w, cfg);
    assert PointsOf(ready) == [] && [] + [Recorded(frame, r.clock)] == [Recorded(frame, r.clock)];
    assert r.db.points[f := []][f := [Recorded(frame, r.clock)]] == r.db.points[f := [Recorded(frame, r.clock)]];
    assert begun.h.log + [Fix(r.clock)] == [Fix(r.clock)];
  }

  /** A flight that has just begun: one point, one entry in the log, a row without a summary. */
  ghost predicate HasBegun(up: Recorder, f: int, start: int, frame: Frame, paused: bool) {
    && up.m.state.FLYING? && up.m.current == Some(f)
    && PointsOf(up) == [Point(start, frame.at, frame.altitudeFt, frame.airspeedKnots)]
    && up.h.log == [Fix(start)] && WatchOf(up) == Watch(start, start, paused)
    && f in up.db.flights && up.db.flights[f] == FlightRow(start, frame.at, None)
  }

  lemma StartHasBegun(r: Recorder, frame: Frame, w: World, cfg: Config)
    requires StoredOk(r.db, r.h.others, r.clock, cfg.dist) && MessagesOk(r)
    requires r.m.bootChecked && r.m.lastFrame.Some? && OnlyOthersOpen(r)
    ensures
      var up := StartFlight(r, frame, w, cfg);
      Inv(up, cfg) && HasBegun(up, r.db.nextFlight, r.clock, frame, r.m.paused)
  {
    StartFlightKeeps(r, frame, w, cfg);
    TakeoffTells(r, frame, w, cfg);
  }

  lemma FrameStarts(r: Recorder, frame: Frame, w: World, cfg: Config)
    requires Inv(r, cfg) && !r.m.state.FLYING? && NothingToResume(r) && StaysPut(r, frame, cfg)
    requires Aloft(frame) && r.m.airborneStreak == 2
    ensures
      var up := OnFrame(r, frame, w, cfg);
      Inv(up, cfg) && HasBegun(up, r.db.nextFlight, r.clock, frame, r.m.paused)
  {
    var ready := Counted(Booted(Seen(r, frame)), 3);
    AirborneFramesCount(r, frame, w, cfg);
    SeenKeeps(r, frame, cfg);
    ReadyToStart(Seen(r, frame), cfg);
    StartHasBegun(ready, frame, w, cfg);
    assert OnFrame(r, frame, w, cfg) == StartFlight(ready, frame, w, cfg);
  }

  /** What the event that ends a flight leaves of it. */
  lemma EndIsTold(r: Recorder, dt: nat, e: Event, cfg: Config)
    requires Inv(r, cfg) && r.m.state.FLYING? && Ends(r, e)
    ensures
      var f, t, after := r.m.current.value, WatchOf(r), Step(r, dt, e, cfg);
      var points, log := PointsOf(r) + Added(t, dt, e), r.h.log + Logged(t, dt, e);
      && f in after.db.points && after.db.points[f] == points
      && f in after.db.flights
      && after.db.flights[f] ==
         r.db.flights[f].(summary := Some(Finished(Where(r, e), t.now + dt, log, points, cfg.dist)))
  {
    StepIsTold(r, dt, e, cfg);
  }

  /** A flight that goes on has the start and the departure it had. */
  lemma {:induction false} RowStays(r: Recorder, events: seq<(nat, Event)>, cfg: Config)
    requires Inv(r, cfg) && StaysUp(r, events, cfg)
    ensures
      var f, end := r.m.current.value, Run(r, events, cfg);
      f in end.db.flights && end.db.flights[f] == r.db.flights[f]
    decreases |events|
  {
    if events == [] {
    } else {
      StepIsTold(r, events[0].0, events[0].1, cfg);
      GoesOn(r, events[0].0, events[0].1, cfg);
      RowStays(Step(r, events[0].0, events[0].1, cfg), events[1..], cfg);
    }
  }

  /** After this last event, the flight's points and its row are what its track, its log and the event tell. */
  ghost predicate EndIs(end: Recorder, f: int, start: int, at: Position, track: seq<Point>, log: seq<Entry>, dt: nat,
                        e: Event, cfg: Config)
  {
    var u, after := WatchOf(end), Step(end, dt, e, cfg);
    var points := track + Added(u, dt, e);
    && f in after.db.points && after.db.points[f] == points && points != []
    && f in after.db.flights
    && after.db.flights[f] ==
       FlightRow(start, at, Some(Finished(Where(end, e), u.now + dt, log + Logged(u, dt, e), points, cfg.dist)))
  }

  lemma EndTells(end: Recorder, f: int, start: int, at: Position, dt: nat, e: Event, cfg: Config)
    requires Inv(end, cfg) && end.m.state.FLYING? && end.m.current == Some(f) && Ends(end, e)
    requires f in end.db.flights && end.db.flights[f] == FlightRow(start, at, None)
    ensures EndIs(end, f, start, at, PointsOf(end), end.h.log, dt, e, cfg)
  {
    EndIsTold(end, dt, e, cfg);
  }

  lemma BegunGoesOn(up: Recorder, f: int, start: int, frame: Frame, paused: bool, events: seq<(nat, Event)>,
                    cfg: Config)
    requires Inv(up, cfg) && HasBegun(up, f, start, frame, paused) && StaysUp(up, events, cfg)
    ensures
      var t, end := Watch(start, start, paused), Run(up, events, cfg);
      && Inv(end, cfg) && end.m.state.FLYING? && end.m.current == Some(f)
      && PointsOf(end) == [Point(start, frame.at, frame.altitudeFt, frame.airspeedKnots)] + AllAdded(t, events)
      && end.h.log == [Fix(start)] + AllLogged(t, events)
      && f in end.db.flights && end.db.flights[f] == FlightRow(start, frame.at, None)
  {
    AllTold(up, events, cfg);
    RowStays(up, events, cfg);
  }

  lemma BegunToEnd(up: Recorder, f: int, start: int, frame: Frame, paused: bool, events: seq<(nat, Event)>,
                   dt: nat, e: Event, cfg: Config)
    requires Inv(up, cfg) && HasBegun(up, f, start, frame, paused) && StaysUp(up, events, cfg)
    requires Ends(Run(up, events, cfg), e)
    ensures
      var t := Watch(start, start, paused);
      EndIs(Run(up, events, cfg), f, start, frame.at,
            [Point(start, frame.at, frame.altitudeFt, frame.airspeedKnots)] + AllAdded(t, events),
            [Fix(start)] + AllLogged(t, events), dt, e, cfg)
  {
    BegunGoesOn(up, f, start, frame, paused, events, cfg);
    EndTells(Run(up, events, cfg), f, start, frame.at, dt, e, cfg);
  }

  /**
   * A flight from its first frame to its end, whatever else happens: its row
   * and its points are those of the takeoff frame, of the frames five seconds
   * and more apart, and of the event that ends it.
   */
  lemma WholeFlight(r: Recorder, frame: Frame, w: World, events: seq<(nat, Event)>, dt: nat, e: Event, cfg: Config)
    requires Inv(r, cfg) && !r.m.state.FLYING? && NothingToResume(r) && StaysPut(r, frame, cfg)
    requires Aloft(frame) && r.m.airborneStreak == 2
    requires StaysUp(OnFrame(r, frame, w, cfg), events, cfg)
    requires Ends(Run(OnFrame(r, frame, w, cfg), events, cfg), e)
    ensures
      var t := Watch(r.clock, r.clock, r.m.paused);
      EndIs(Run(OnFrame(r, frame, w, cfg), events, cfg), r.db.nextFlight, r.clock, frame.at,
            [Point(r.clock, frame.at, frame.altitudeFt, frame.airspeedKnots)] + AllAdded(t, events),
            [Fix(r.clock)] + AllLogged(t, events), dt, e, cfg)
  {
    FrameStarts(r, frame, w, cfg);
    BegunToEnd(OnFrame(r, frame, w, cfg), r.db.nextFlight, r.clock, frame, r.m.paused, events, dt, e, cfg);
  }

  // ---------------------------------------------------------------- on the ground

  /** The fifth parked frame in a row puts the machine on the ground; any other frame starts the count again. */
  lemma ParkedFramesCount(r: Recorder, frame: Frame, w: World, cfg: Config)
    requires Inv(r, cfg) && r.m.state.IDLE? && NothingToResume(r) && frame.simRunning != 0
    requires !(Aloft(frame) && r.m.airborneStreak == 2)
    ensures
      var after := OnFrame(r, frame, w, cfg);
      && (after.m.state.GROUND? <==> Parked(frame) && r.m.groundStreak == 4 && w.enters)
      && after.m.groundStreak == (if Parked(frame) && r.m.groundStreak < 4 then r.m.groundStreak + 1 else 0)
      && (after.m.state.GROUND? ==>
            && after.m.anchor == Some(frame.at)
            && after.db == r.db.(sessions := GS.Enter(r.db.sessions,
                 GS.Detected(w.airport, frame.at, w.stand, w.matched, frame.aircraft, r.clock))))
      && (!after.m.state.GROUND? ==> after.db == r.db)
  {
    SeenKeeps(r, frame, cfg);
    AirborneCheck(Seen(r, frame), frame, w, cfg);
  }

  /** With none open, the session opened is an automatic one that says what was detected and when. */
  lemma DetectedSession(t: GS.Table, w: World, frame: Frame, now: int)
    requires !GS.SomeOpen(t)
    ensures
      var after := GS.Enter(t, GS.Detected(w.airport, frame.at, w.stand, w.matched, frame.aircraft, now));
      && after.next == t.next + 1 && after.rows.Keys == t.rows.Keys + {t.next}
      && (forall id :: id in t.rows && id != t.next ==> after.rows[id] == t.rows[id])
      && var row := after.rows[t.next];
      && row.source.Auto? && row.startedAt == now && row.ended.None? && row.aircraft == Some(frame.aircraft)
      && row.lat == Some(frame.at.lat) && row.lon == Some(frame.at.lon)
      && (if w.airport.Some?
          then row.airportIcao == Some(w.airport.value.icao) && row.airportName == Some(w.airport.value.name)
          else row.airportIcao == row.airportName == None)
      && row.parking == w.stand && row.parkingSource == (if w.stand.Some? then Some(GS.Auto) else None)
      && row.legId == w.matched && row.legSource == (if w.matched.Some? then Some(GS.Auto) else None)
  {}

  /** Is the open session the operator's own? */
  ghost predicate ByOperator(t: GS.Table) {
    exists id :: GS.IsOpen(t, id) && t.rows[id].source.Manual?
  }

  /** The reason for which this event ends the ground session, if it ends it. */
  ghost function EndsGround(r: Recorder, e: Event, cfg: Config): Option<GS.EndReason> {
    match e
    case Telemetry(frame, _) =>
      if frame.simRunning == 0 then Some(GS.SimExit)
      else if frame.simRunning == 3 then Some(GS.SlewEnd)
      else if r.m.anchor.Some? && cfg.dist(r.m.anchor.value, frame.at) > 10.0 then Some(GS.Superseded)
      else None
    case SimCrash(_) => if ByOperator(r.db.sessions) then None else Some(GS.CrashEnd)
    case Disconnect(_) => if ByOperator(r.db.sessions) then None else Some(GS.SimExit)
    case _ => None
  }

  lemma FrameEndsGround(r: Recorder, frame: Frame, w: World, cfg: Config)
    requires Inv(r, cfg) && r.m.state.GROUND? && EndsGround(r, Telemetry(frame, w), cfg).Some?
    ensures
      OnFrame(r, frame, w, cfg) == LeaveGround(Seen(r, frame), EndsGround(r, Telemetry(frame, w), cfg).value)
  {}

  lemma LossEndsGround(r: Recorder, reason: GS.EndReason, filed: bool, cfg: Config)
    requires Inv(r, cfg) && r.m.state.GROUND?
    ensures OnLoss(r, reason, cfg, filed) == if ByOperator(r.db.sessions) then ToIdle(r) else LeaveGround(r, reason)
  {}

  /**
   * A stopped simulator, a slew and a jump of more than ten miles end the
   * session, whoever entered it; a crash and a lost connection end it unless
   * the operator did. All of them leave the machine idle.
   */
  lemma GroundEnds(r: Recorder, e: Event, cfg: Config)
    requires Inv(r, cfg) && r.m.state.GROUND?
    requires EndsGround(r, e, cfg).Some? || e.SimCrash? || e.Disconnect?
    ensures
      var after, reason := Handle(r, e, cfg), EndsGround(r, e, cfg);
      && after.m.state.IDLE? && after.m.anchor.None? && after.m.live.None? && after.m.groundStreak == 0
      && after.db == r.db.(sessions := after.db.sessions)
      && (reason.Some? ==> SessionEnds(r.db.sessions, after.db.sessions, r.clock, reason.value, None))
      && (reason.None? ==> after.db.sessions == r.db.sessions)
  {
    var reason := EndsGround(r, e, cfg);
    if reason.Some? {
      ClosingEnds(r.db.sessions, r.clock, reason.value, None);
    }
    match e
    case Telemetry(frame, w) => FrameEndsGround(r, frame, w, cfg);
    case SimCrash(filed) => LossEndsGround(r, GS.CrashEnd, filed, cfg);
    case Disconnect(filed) => LossEndsGround(r, GS.SimExit, filed, cfg);
  }

  // ---------------------------------------------------------------- what a flight says

  /** These messages are said and no others besides the old ones, and the new ones are filed under the live leg. */
  ghost predicate Speaks(r: Recorder, after: Recorder, said: set<Key>) {
    && (forall k :: Said(after.db.messages, k) <==> Said(r.db.messages, k) || k in said)
    && (forall m :: m in after.db.messages && m !in r.db.messages ==> m.leg == r.m.cache)
  }

  lemma FileSpeaks(r: Recorder, key: Key, filed: bool)
    ensures Speaks(r, File(r, key, filed), if filed then {key} else {})
    ensures File(r, key, filed).m == r.m
  {
    FiledAre(r, key, filed);
  }

  lemma SpeaksTwice(r: Recorder, between: Recorder, after: Recorder, a: set<Key>, b: set<Key>)
    requires Speaks(r, between, a) && Speaks(between, after, b) && between.m.cache == r.m.cache
    ensures Speaks(r, after, a + b)
  {}

  /** The report window the clock is in. */
  function Window(r: Recorder, cfg: Config): int
    requires cfg.reportIntervalMs > 0
  {
    (r.clock - r.m.totals.flightStart) / cfg.reportIntervalMs
  }

  /** A linked flight reports once in every window after the first. */
  predicate Reports(r: Recorder, cfg: Config) {
    && r.m.cache.Some? && cfg.reportIntervalMs > 0
    && Window(r, cfg) >= 1 && Window(r, cfg) > r.m.lastWindow
  }

  lemma ReportSpeaks(r: Recorder, cfg: Config, filed: bool)
    requires r.m.current.Some?
    ensures
      var f, after := r.m.current.value, MaybeFilePositionReport(r, cfg, filed);
      && Speaks(r, after, if filed && Reports(r, cfg) then {PositionReport(f, Window(r, cfg))} else {})
      && after.m == r.m.(lastWindow := if Reports(r, cfg) then Window(r, cfg) else r.m.lastWindow)
      && after.h.windows == r.h.windows + (if Reports(r, cfg) then [Window(r, cfg)] else [])
  {
    if Reports(r, cfg) {
      FileSpeaks(Opened(r, Window(r, cfg)), PositionReport(r.m.current.value, Window(r, cfg)), filed);
      assert MaybeFilePositionReport(r, cfg, filed) ==
             File(Opened(r, Window(r, cfg)), PositionReport(r.m.current.value, Window(r, cfg)), filed);
    } else {
      assert MaybeFilePositionReport(r, cfg, filed) == r;
    }
  }

  lemma WritePointSpeaks(r: Recorder, frame: Frame, cfg: Config, filed: bool)
    requires r.m.current.Some?
    ensures
      var f, after := r.m.current.value, WritePoint(r, frame, cfg, filed);
      && Speaks(r, after, if filed && Reports(r, cfg) then {PositionReport(f, Window(r, cfg))} else {})
      && after.m.lastWindow == (if Reports(r, cfg) then Window(r, cfg) else r.m.lastWindow)
      && after.m.cache == r.m.cache && after.m.current == r.m.current && after.m.onFiled == r.m.onFiled
  {
    ReportSpeaks(Write(r, frame, cfg), cfg, filed);
  }

  lemma FileOnSpeaks(r: Recorder, filed: bool)
    requires r.m.current.Some?
    ensures
      var after := FileOn(r, filed);
      && Speaks(r, after, if filed && !r.m.onFiled then {Oooi(r.m.current.value, ON)} else {})
      && after.m == r.m.(onFiled := true)
  {
    FileSpeaks(r.(m := r.m.(onFiled := true)), Oooi(r.m.current.value, ON), filed);
  }

  /** The messages, if inserts succeed. */
  function If(filed: bool, said: set<Key>): set<Key> {
    if filed then said else {}
  }

  /** ON, unless it was filed before. */
  function OnSaid(r: Recorder): set<Key>
    requires r.m.current.Some?
  {
    if r.m.onFiled then {} else {Oooi(r.m.current.value, ON)}
  }

  function InSaid(r: Recorder): set<Key>
    requires r.m.current.Some?
  {
    {Oooi(r.m.current.value, IN)}
  }

  const NO_WORLD := World(None, None, None, false, false)

  /** A report, if the frame is stored in a new window. */
  function ReportSaid(r: Recorder, frame: Frame, cfg: Config): set<Key>
    requires r.m.current.Some?
  {
    if Stores(WatchOf(r), 0, Telemetry(frame, NO_WORLD)) && Reports(r, cfg)
    then {PositionReport(r.m.current.value, Window(r, cfg))} else {}
  }

  lemma TellLandingSpeaks(r: Recorder, filed: bool)
    requires r.m.current.Some?
    ensures Speaks(r, TellLanding(r, filed), If(filed, OnSaid(r)) + If(filed, InSaid(r)))
  {
    var on := FileOn(r, filed);
    FileOnSpeaks(r, filed);
    FileSpeaks(on, Oooi(r.m.current.value, IN), filed);
    SpeaksTwice(r, on, TellLanding(r, filed), If(filed, OnSaid(r)), If(filed, InSaid(r)));
  }

  /** A flight that ends says IN, and ON unless the touchdown did. */
  lemma EndFlightSpeaks(r: Recorder, frame: Frame, cfg: Config, filed: bool)
    requires r.m.current.Some?
    ensures Speaks(r, EndFlight(r, frame, cfg, filed), If(filed, OnSaid(r)) + If(filed, InSaid(r)))
  {
    TellLandingSpeaks(RecordArrival(CloseRow(r, frame), frame, cfg.dist), filed);
  }

  lemma RecordSpeaks(r: Recorder, frame: Frame, w: World, cfg: Config)
    requires r.m.current.Some? && Counts(frame, r.m.paused)
    ensures
      var after := RecordIfDue(r, frame, cfg, w.filed);
      && Speaks(r, after, If(w.filed, ReportSaid(r, frame, cfg)))
      && after.m.cache == r.m.cache && after.m.current == r.m.current && after.m.onFiled == r.m.onFiled
      && after.m.lastWindow == (if ReportSaid(r, frame, cfg) != {} then Window(r, cfg) else r.m.lastWindow)
  {
    WritePointSpeaks(r, frame, cfg, w.filed);
  }

  lemma TouchedSpeaks(r: Recorder, frame: Frame, w: World, cfg: Config)
    requires r.m.current.Some? && Counts(frame, r.m.paused)
    ensures
      var after := Touched(r, frame, w, cfg);
      && Speaks(r, after, If(w.filed, ReportSaid(r, frame, cfg)) + If(w.filed && frame.onGround, OnSaid(r)))
      && after.m.cache == r.m.cache && after.m.current == r.m.current
      && after.m.onFiled == (r.m.onFiled || frame.onGround)
  {
    var seen := Seen(r, frame);
    var recorded := RecordIfDue(seen, frame, cfg, w.filed);
    RecordSpeaks(seen, frame, w, cfg);
    assert ReportSaid(seen, frame, cfg) == ReportSaid(r, frame, cfg);
    if frame.onGround {
      FileOnSpeaks(recorded, w.filed);
      SpeaksTwice(seen, recorded, FileOn(recorded, w.filed), If(w.filed, ReportSaid(r, frame, cfg)),
                  If(w.filed, OnSaid(r)));
    }
  }

  lemma TouchedWindow(r: Recorder, frame: Frame, w: World, cfg: Config)
    requires r.m.current.Some? && Counts(frame, r.m.paused)
    ensures
      Touched(r, frame, w, cfg).m.lastWindow ==
        if ReportSaid(r, frame, cfg) != {} then Window(r, cfg) else r.m.lastWindow
  {
    var recorded := RecordIfDue(Seen(r, frame), frame, cfg, w.filed);
    RecordSpeaks(Seen(r, frame), frame, w, cfg);
    if frame.onGround {
      FileOnSpeaks(recorded, w.filed);
    }
  }

  /** What a frame in flight has to say. */
  function Sayings(r: Recorder, frame: Frame, cfg: Config): set<Key>
    requires r.m.current.Some?
  {
    if frame.simRunning == 0 then OnSaid(r) + InSaid(r)
    else if !Counts(frame, r.m.paused) then {}
    else
      ReportSaid(r, frame, cfg)
      + (if frame.onGround then OnSaid(r) else {})
      + (if Slow(frame) && r.m.landedStreak == 9 then InSaid(r) else {})
  }

  lemma SettleSpeaks(r: Recorder, frame: Frame, cfg: Config, filed: bool)
    requires r.m.current.Some?
    ensures
      var after := Settle(r, frame, cfg, filed);
      && Speaks(r, after,
                if Slow(frame) && r.m.landedStreak >= 9 then If(filed, OnSaid(r)) + If(filed, InSaid(r)) else {})
      && (after.m.current.Some? ==> after.m.onFiled == r.m.onFiled && after.m.lastWindow == r.m.lastWindow)
  {
    EndFlightSpeaks(r, frame, cfg, filed);
    EndIgnoresStreak(r, r.m.landedStreak + 1, frame, cfg, filed);
  }

  lemma SameSpeech(r: Recorder, after: Recorder, a: set<Key>, b: set<Key>)
    requires Speaks(r, after, a) && a == b
    ensures Speaks(r, after, b)
  {}

  lemma CountedSpeaks(r: Recorder, frame: Frame, w: World, cfg: Config)
    requires r.m.current.Some? && r.m.landedStreak <= 9 && Counts(frame, r.m.paused)
    ensures
      var touched := Touched(r, frame, w, cfg);
      touched.m.landedStreak == r.m.landedStreak ==>
        Speaks(r, Settle(touched, frame, cfg, w.filed), If(w.filed, Sayings(r, frame, cfg)))
  {
    var touched := Touched(r, frame, w, cfg);
    var after := Settle(touched, frame, cfg, w.filed);
    var a := If(w.filed, ReportSaid(r, frame, cfg)) + If(w.filed && frame.onGround, OnSaid(r));
    TouchedSpeaks(r, frame, w, cfg);
    if touched.m.landedStreak == r.m.landedStreak {
      SettleSpeaks(touched, frame, cfg, w.filed);
      if Slow(frame) && r.m.landedStreak == 9 {
        var b := If(w.filed, OnSaid(touched)) + If(w.filed, InSaid(touched));
        SpeaksTwice(r, touched, after, a, b);
        SameSpeech(r, after, a + b, If(w.filed, Sayings(r, frame, cfg)));
      } else {
        SpeaksTwice(r, touched, after, a, {});
        SameSpeech(r, after, a + {}, If(w.filed, Sayings(r, frame, cfg)));
      }
    }
  }

  /** A frame in flight says what it has to say, if its inserts succeed, and nothing else. */
  lemma FrameSpeaks(r: Recorder, frame: Frame, w: World, cfg: Config)
    requires Inv(r, cfg) && r.m.state.FLYING?
    ensures Speaks(r, OnFrame(r, frame, w, cfg), If(w.filed, Sayings(r, frame, cfg)))
  {
    if frame.simRunning == 0 {
      EndFlightSpeaks(Seen(r, frame), frame, cfg, w.filed);
      SameSpeech(r, OnFrame(r, frame, w, cfg), If(w.filed, OnSaid(r)) + If(w.filed, InSaid(r)),
                 If(w.filed, Sayings(r, frame, cfg)));
    } else if Counts(frame, r.m.paused) {
      TouchedTale(r, frame, w, cfg);
      CountedSpeaks(r, frame, w, cfg);
      assert OnFrame(r, frame, w, cfg) == Settle(Touched(r, frame, w, cfg), frame, cfg, w.filed);
    }
  }

  /** ON is due until the first frame on the ground, and a window is used up by the first frame stored in it. */
  lemma WhatIsStillDue(r: Recorder, frame: Frame, w: World, cfg: Config)
    requires Inv(r, cfg) && r.m.state.FLYING? && OnFrame(r, frame, w, cfg).m.state.FLYING?
    ensures
      var after := OnFrame(r, frame, w, cfg);
      && after.m.onFiled == (r.m.onFiled || (Counts(frame, r.m.paused) && frame.onGround))
      && after.m.lastWindow ==
         if Counts(frame, r.m.paused) && ReportSaid(r, frame, cfg) != {} then Window(r, cfg) else r.m.lastWindow
  {
    if frame.simRunning == 0 {
      EndFlightKeeps(Seen(r, frame), frame, cfg, w.filed);
    } else if Counts(frame, r.m.paused) {
      var touched := Touched(r, frame, w, cfg);
      TouchedSpeaks(r, frame, w, cfg);
      TouchedWindow(r, frame, w, cfg);
      TouchedTale(r, frame, w, cfg);
      SettleSpeaks(touched, frame, cfg, w.filed);
      assert OnFrame(r, frame, w, cfg) == Settle(touched, frame, cfg, w.filed);
      StepIsTold(r, 0, Telemetry(frame, w), cfg);
    }
  }

  // ---------------------------------------------------------------- taking a flight up again

  lemma ResumedRest(r: Recorder, frame: Frame, cfg: Config, filed: bool)
    requires r.m.current.Some?
    ensures
      var after, written := WritePoint(r, frame, cfg, filed), Write(r, frame, cfg);
      && after.db == written.db.(messages := after.db.messages)
      && after.m == written.m.(lastWindow := after.m.lastWindow)
  {}

  /**
   * A new process takes the latest open flight up with its first frame: that
   * frame is one more point, the row, the plans and the sessions stay, ON is due
   * again, and the only message is the report of a window not yet the first.
   */
  lemma ResumeTells(r: Recorder, f: int, frame: Frame, cfg: Config, filed: bool)
    requires f in r.db.flights && f in r.db.points
    ensures
      var after := ResumeFlight(r, f, frame, cfg, filed);
      var ms := r.clock - r.db.flights[f].startTime;
      var reports := cfg.reportIntervalMs > 0 && f in r.db.links && ms / cfg.reportIntervalMs >= 1;
      && after.m.state.FLYING? && after.m.current == Some(f)
      && after.m.cache == (if f in r.db.links then Some(r.db.links[f]) else None)
      && after.db.flights == r.db.flights && after.db.links == r.db.links && after.db.legs == r.db.legs
      && after.db.sessions == r.db.sessions && after.db.nextFlight == r.db.nextFlight
      && after.db.points == r.db.points[f := r.db.points[f] +
           [Point(r.clock, frame.at, frame.altitudeFt, frame.airspeedKnots)]]
      && WatchOf(after) == Watch(r.clock, r.clock, r.m.paused)
      && !after.m.onFiled && after.m.landedStreak == 0
      && after.m.lastWindow == (if reports then ms / cfg.reportIntervalMs else 0)
      && (forall k :: Said(after.db.messages, k) <==>
            Said(r.db.messages, k) || (filed && reports && k == PositionReport(f, ms / cfg.reportIntervalMs)))
  {
    var loaded := Reloaded(r, f, frame, cfg);
    WritePointSpeaks(loaded, frame, cfg, filed);
    ResumedRest(loaded, frame, cfg, filed);
  }
}
