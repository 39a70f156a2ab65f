/** What holds of the recorder and its database after every event of every run. */
module RecorderRuns {
  import opened Wrappers
  import opened Track
  import opened AcarsKeys
  import opened RecorderModel
  import opened RecorderAccounts
  import GS = GroundSessions

  // ---------------------------------------------------------------- the invariant

  /** A closed row tells what its stored points tell. */
  ghost predicate Summarises(s: Summary, points: seq<Point>, dist: Distance) {
    && points != []
    && s.pointCount == |points|
    && s.distanceNm == RoundTenth(PathLength(points, dist))
    && s.maxAltitudeFt == RoundReal(MaxAltitude(points))
    && s.maxAirspeedKts == RoundReal(MaxAirspeed(points))
    && Last(points).ts <= s.endTime
    && 0 <= s.durationSec
    && s.durationSec * 1000 <= s.endTime - points[0].ts + 500
  }

  /** The points of a flight, read oldest first, lie between its start and now. */
  ghost predicate InTime(row: FlightRow, points: seq<Point>, now: int) {
    && row.startTime <= now
    && Ordered(Times(points))
    && (points != [] ==> row.startTime <= points[0].ts && Last(points).ts <= now)
  }

  /** Of a flight that is closed and not the recorder's own, only the id counts. */
  ghost predicate RowOk(db: Stored, others: set<int>, f: int, now: int, dist: Distance)
    requires f in db.flights && f in db.points
  {
    var row, points := db.flights[f], db.points[f];
    && f < db.nextFlight
    && (row.summary.None? || f !in others ==> InTime(row, points, now))
    && (row.summary.Some? && f !in others ==> Summarises(row.summary.value, points, dist))
  }

  /** Any number of flights may be open, but a flight of the recorder's own is the one it would resume. */
  ghost predicate OwnIsLatest(db: Stored, others: set<int>) {
    forall f :: IsOpenFlight(db, f) && f !in others ==> IsLatestOpen(db, f)
  }

  ghost predicate OnlyOthersOpen(r: Recorder) {
    forall f :: IsOpenFlight(r.db, f) ==> f in r.h.others
  }

  /** No two messages have the same key. */
  ghost predicate OncePerKey(messages: seq<Message>) {
    forall i, j :: 0 <= i < j < |messages| ==> messages[i].key != messages[j].key
  }

  predicate Said(messages: seq<Message>, key: Key) {
    exists m :: m in messages && m.key == key
  }

  ghost predicate PlansOk(db: Stored) {
    PlansFit(db, db.links, db.legs)
  }

  ghost predicate StoredOk(db: Stored, others: set<int>, now: int, dist: Distance) {
    && db.points.Keys == db.flights.Keys
    && (forall f :: f in db.flights ==> RowOk(db, others, f, now, dist))
    && (forall f :: f in others ==> f < db.nextFlight)
    && OwnIsLatest(db, others)
    && PlansOk(db)
    && GS.Valid(db.sessions)
  }

  /** The running totals agree with the stored points. */
  ghost predicate TotalsOk(m: Machine, points: seq<Point>, dist: Distance) {
    && m.totals.pointCount == |points|
    && m.totals.distanceNm == PathLength(points, dist)
    && (points != [] ==>
          && m.totals.maxAltitudeFt == MaxAltitude(points)
          && m.totals.maxAirspeedKts == MaxAirspeed(points)
          && m.totals.lastPoint == Last(points).at
          && (m.interrupted || m.totals.lastPointTime == Last(points).ts))
  }

  /** The counted time is that of the unbroken gaps of the log, and the log is that of the stored points. */
  ghost predicate LogOk(m: Machine, log: seq<Entry>, points: seq<Point>) {
    && Fixes(log) == Times(points)
    && m.interrupted == Broken(log)
    && m.totals.activeMs == UnbrokenMs(log)
  }

  ghost predicate WindowsOk(m: Machine, windows: seq<int>) {
    && (forall i, j :: 0 <= i < j < |windows| ==> windows[i] < windows[j])
    && (forall i :: 0 <= i < |windows| ==> 1 <= windows[i] <= m.lastWindow)
    && m.lastWindow >= 0
  }

  ghost predicate FlyingOk(r: Recorder, cfg: Config) {
    && r.m.current.Some?
    && IsOpenFlight(r.db, r.m.current.value) && r.m.current.value !in r.h.others
    && r.m.bootChecked
    && r.m.lastFrame.Some?
    && r.m.cache == LinkOf(r.db, r.m.current.value)
    && r.m.totals.flightStart == r.db.flights[r.m.current.value].startTime
    && TotalsOk(r.m, PointsOf(r), cfg.dist)
    && LogOk(r.m, r.h.log, PointsOf(r))
    && WindowsOk(r.m, r.h.windows)
  }

  /** What the status shows of a ground session is the open row, but for a leg deleted in the meantime. */
  ghost predicate LiveOk(r: Recorder) {
    r.m.live.Some? ==>
      && GS.SomeOpen(r.db.sessions)
      && (r.h.stale ==> r.m.live.value.legId.Some?)
      && OpenSession(r.db.sessions) ==
         Some(if r.h.stale then r.m.live.value.(legId := None) else r.m.live.value)
  }

  ghost predicate MachineOk(r: Recorder, cfg: Config) {
    && r.m.app.flightState == r.m.state && r.m.app.flightId == r.m.current
    && (r.m.anchor.Some? <==> r.m.state.GROUND?)
    && (r.m.state.GROUND? ==> r.m.live.Some?)
    && LiveOk(r)
    && (!r.m.bootChecked ==> r.m.state.IDLE?)
    && 0 <= r.m.airborneStreak < AIRBORNE_DEBOUNCE_FRAMES
    && 0 <= r.m.landedStreak < LANDED_DEBOUNCE_FRAMES
    && 0 <= r.m.groundStreak < GROUND_DEBOUNCE_FRAMES
    && (r.m.state.FLYING? ==>
          FlyingOk(r, cfg) && PointsOf(r) != [] && r.m.totals.lastPointTime == Last(PointsOf(r)).ts)
    && (!r.m.state.FLYING? ==> r.m.current.None?)
    && (!r.m.state.FLYING? && r.m.bootChecked ==> OnlyOthersOpen(r))
  }

  predicate OnIsDue(r: Recorder) {
    r.m.state.FLYING? && r.m.onFiled && r.m.current.Some? && r.m.current.value !in r.h.torn
  }

  /** Message keys never repeat; an untorn flight has said OUT and OFF, and once closed also ON and IN. */
  ghost predicate MessagesOk(r: Recorder) {
    && OncePerKey(r.db.messages)
    && (forall f :: f in r.db.flights && f !in r.h.torn ==>
          Said(r.db.messages, Oooi(f, OUT)) && Said(r.db.messages, Oooi(f, OFF)))
    && (forall f :: f in r.db.flights && f !in r.h.torn && r.db.flights[f].summary.Some? ==>
          Said(r.db.messages, Oooi(f, ON)) && Said(r.db.messages, Oooi(f, IN)))
    && (OnIsDue(r) ==> Said(r.db.messages, Oooi(r.m.current.value, ON)))
  }

  ghost predicate Inv(r: Recorder, cfg: Config) {
    StoredOk(r.db, r.h.others, r.clock, cfg.dist) && MachineOk(r, cfg) && MessagesOk(r)
  }

  // ---------------------------------------------------------------- one point

  lemma TimesAppend(points: seq<Point>, p: Point)
    ensures Times(points + [p]) == Times(points) + [p.ts]
    ensures Init(points + [p]) == points && Last(points + [p]) == p
  {}

  /** The recording machine, ready for `frame`: a machine without points yet has its maxima from that frame. */
  ghost predicate Ready(r: Recorder, frame: Frame, cfg: Config) {
    && StoredOk(r.db, r.h.others, r.clock, cfg.dist)
    && FlyingOk(r, cfg)
    && (PointsOf(r) == [] ==>
        r.m.totals.maxAltitudeFt == frame.altitudeFt && r.m.totals.maxAirspeedKts == frame.airspeedKnots)
  }

  lemma WriteTotals(r: Recorder, frame: Frame, cfg: Config)
    requires Ready(r, frame, cfg)
    ensures
      var after := Write(r, frame, cfg);
      && PointsOf(after) == PointsOf(r) + [Recorded(frame, r.clock)]
      && TotalsOk(after.m, PointsOf(after), cfg.dist)
  {
    TimesAppend(PointsOf(r), Recorded(frame, r.clock));
  }

  lemma WriteLog(r: Recorder, frame: Frame, cfg: Config)
    requires Ready(r, frame, cfg)
    ensures
      var after := Write(r, frame, cfg);
      LogOk(after.m, after.h.log, PointsOf(after))
  {
    var after, points := Write(r, frame, cfg), PointsOf(r);
    TimesAppend(points, Recorded(frame, r.clock));
    assert Init(after.h.log) == r.h.log && Last(after.h.log) == Fix(r.clock);
    if points != [] {
      assert Last(Times(points)) == Last(points).ts;
    }
  }

  lemma OrderedAppend(ts: seq<int>, t: int)
    requires Ordered(ts) && (ts != [] ==> Last(ts) <= t)
    ensures Ordered(ts + [t])
  {}

  /** With the same rows and points, only the plans and the sessions have to be looked at again. */
  lemma SameRowsKeep(db: Stored, after: Stored, others: set<int>, now: int, dist: Distance)
    requires StoredOk(db, others, now, dist)
    requires after.flights == db.flights && after.points == db.points && after.nextFlight == db.nextFlight
    requires PlansOk(after) && GS.Valid(after.sessions)
    ensures StoredOk(after, others, now, dist)
    ensures forall f :: IsOpenFlight(after, f) <==> IsOpenFlight(db, f)
  {
    forall f | f in after.flights
      ensures RowOk(after, others, f, now, dist)
    {
      assert RowOk(db, others, f, now, dist);
    }
    forall f | IsOpenFlight(after, f) && f !in others
      ensures IsLatestOpen(after, f)
    {
      assert IsLatestOpen(db, f);
      assert forall g :: IsOpenFlight(after, g) ==> IsOpenFlight(db, g);
    }
  }

  lemma WriteStored(r: Recorder, frame: Frame, cfg: Config)
    requires Ready(r, frame, cfg)
    ensures StoredOk(Write(r, frame, cfg).db, Write(r, frame, cfg).h.others, r.clock, cfg.dist)
  {
    var after, f := Write(r, frame, cfg), r.m.current.value;
    TimesAppend(PointsOf(r), Recorded(frame, r.clock));
    assert RowOk(r.db, r.h.others, f, r.clock, cfg.dist);
    assert PointsOf(r) != [] ==> Last(Times(PointsOf(r))) == Last(PointsOf(r)).ts;
    OrderedAppend(Times(PointsOf(r)), r.clock);
    forall g | g in after.db.flights
      ensures RowOk(after.db, after.h.others, g, r.clock, cfg.dist)
    {
      assert RowOk(r.db, r.h.others, g, r.clock, cfg.dist);
    }
    forall g | IsOpenFlight(after.db, g) && g !in r.h.others
      ensures IsLatestOpen(after.db, g)
    {
      assert IsLatestOpen(r.db, g);
      assert forall h :: IsOpenFlight(after.db, h) ==> IsOpenFlight(r.db, h);
    }
  }

  lemma WriteKeeps(r: Recorder, frame: Frame, cfg: Config)
    requires Ready(r, frame, cfg)
    ensures
      var after := Write(r, frame, cfg);
      && StoredOk(after.db, after.h.others, r.clock, cfg.dist)
      && FlyingOk(after, cfg)
      && PointsOf(after) != []
  {
    WriteTotals(r, frame, cfg);
    WriteLog(r, frame, cfg);
    WriteStored(r, frame, cfg);
  }

  // ---------------------------------------------------------------- filing

  /** The dedup key is taken exactly when this very message has been stored. */
  lemma TakenMeansSaid(messages: seq<Message>, key: Key)
    ensures Taken(messages, key) <==> Said(messages, key)
  {
    if m :| m in messages && KeyText(m.key) == KeyText(key) {
      KeysAreInjective(m.key, key);
    }
  }

  ghost predicate AllKept(before: seq<Message>, after: seq<Message>) {
    forall m :: m in before ==> m in after
  }

  /** Filing a message changes messages and torn flights only, and the message is there unless its flight is torn. */
  lemma FileFacts(r: Recorder, key: Key, filed: bool)
    requires OncePerKey(r.db.messages)
    ensures
      var after := File(r, key, filed);
      && after == r.(db := r.db.(messages := after.db.messages), h := r.h.(torn := after.h.torn))
      && OncePerKey(after.db.messages)
      && AllKept(r.db.messages, after.db.messages)
      && r.h.torn <= after.h.torn
      && (Said(after.db.messages, key) || FlightsOf(key) <= after.h.torn)
  {
    TakenMeansSaid(r.db.messages, key);
    var after := File(r, key, filed);
    if filed && !Taken(r.db.messages, key) {
      assert Message(key, r.m.cache) in after.db.messages;
      assert forall m :: m in r.db.messages ==> m.key != key;
    }
  }

  /** Nothing but messages, torn flights and used windows differs. */
  ghost predicate SameButMessages(r: Recorder, after: Recorder) {
    && after == r.(db := r.db.(messages := after.db.messages),
                   m := r.m.(lastWindow := after.m.lastWindow, onFiled := after.m.onFiled),
                   h := r.h.(torn := after.h.torn, windows := after.h.windows))
    && (OncePerKey(r.db.messages) ==> OncePerKey(after.db.messages))
    && AllKept(r.db.messages, after.db.messages)
    && r.h.torn <= after.h.torn
  }

  lemma WindowOpens(m: Machine, windows: seq<int>, window: int)
    requires WindowsOk(m, windows) && 1 <= window && m.lastWindow < window
    ensures WindowsOk(m.(lastWindow := window), windows + [window])
  {}

  lemma OpenedReportKeeps(r: Recorder, f: int, window: int, filed: bool)
    requires OncePerKey(r.db.messages)
    ensures
      var after := File(Opened(r, window), PositionReport(f, window), filed);
      && SameButMessages(r, after) && after.m == Opened(r, window).m && after.h.windows == Opened(r, window).h.windows
  {
    FileFacts(Opened(r, window), PositionReport(f, window), filed);
  }

  lemma NothingSaid(r: Recorder)
    ensures SameButMessages(r, r)
  {}

  lemma ReportsAtMostOne(r: Recorder, cfg: Config, filed: bool)
    ensures
      var after := MaybeFilePositionReport(r, cfg, filed);
      || after == r
      || exists window :: 1 <= window && r.m.lastWindow < window && r.m.current.Some?
           && after == File(Opened(r, window), PositionReport(r.m.current.value, window), filed)
  {}

  lemma ReportKeeps(r: Recorder, cfg: Config, filed: bool)
    requires WindowsOk(r.m, r.h.windows) && OncePerKey(r.db.messages)
    ensures
      var after := MaybeFilePositionReport(r, cfg, filed);
      && SameButMessages(r, after) && after.m.onFiled == r.m.onFiled
      && WindowsOk(after.m, after.h.windows)
  {
    var after := MaybeFilePositionReport(r, cfg, filed);
    ReportsAtMostOne(r, cfg, filed);
    if after == r {
      NothingSaid(r);
    } else {
      var window :| 1 <= window && r.m.lastWindow < window && r.m.current.Some?
        && after == File(Opened(r, window), PositionReport(r.m.current.value, window), filed);
      WindowOpens(r.m, r.h.windows, window);
      OpenedReportKeeps(r, r.m.current.value, window, filed);
    }
  }

  lemma SameButMessagesKeeps(r: Recorder, after: Recorder, cfg: Config)
    requires SameButMessages(r, after)
    ensures StoredOk(r.db, r.h.others, r.clock, cfg.dist) ==> StoredOk(after.db, after.h.others, after.clock, cfg.dist)
    ensures FlyingOk(r, cfg) && WindowsOk(after.m, after.h.windows) ==> FlyingOk(after, cfg)
    ensures PointsOf(after) == PointsOf(r)
  {
    if StoredOk(r.db, r.h.others, r.clock, cfg.dist) {
      SameRowsKeep(r.db, after.db, r.h.others, r.clock, cfg.dist);
    }
  }

  lemma WritePointKeeps(r: Recorder, frame: Frame, cfg: Config, filed: bool)
    requires Ready(r, frame, cfg) && OncePerKey(r.db.messages)
    ensures
      var after := WritePoint(r, frame, cfg, filed);
      && StoredOk(after.db, after.h.others, r.clock, cfg.dist)
      && FlyingOk(after, cfg)
      && PointsOf(after) == PointsOf(r) + [Recorded(frame, r.clock)]
      && SameButMessages(Write(r, frame, cfg), after) && after.m.onFiled == r.m.onFiled
  {
    WriteKeeps(r, frame, cfg);
    WriteTotals(r, frame, cfg);
    var written := Write(r, frame, cfg);
    ReportKeeps(written, cfg, filed);
    SameButMessagesKeeps(written, MaybeFilePositionReport(written, cfg, filed), cfg);
  }

  /** A position report leaves rows, points and totals alone. */
  lemma WritePointTotals(r: Recorder, frame: Frame, cfg: Config, filed: bool)
    requires r.m.current.Some?
    ensures
      var after, written := WritePoint(r, frame, cfg, filed), Write(r, frame, cfg);
      && after.m.totals == written.m.totals && after.m.cache == r.m.cache && after.m.current == r.m.current
      && after.db.points == written.db.points && after.db.flights == r.db.flights
  {}

  // ---------------------------------------------------------------- in the air

  lemma RecordKeeps(r: Recorder, frame: Frame, cfg: Config, filed: bool)
    requires Inv(r, cfg) && r.m.state.FLYING?
    ensures
      var after := WritePoint(r, frame, cfg, filed);
      Inv(after, cfg) && after.m.state.FLYING? && after.m.landedStreak == r.m.landedStreak
  {
    WritePointKeeps(r, frame, cfg, filed);
  }

  /** A machine whose windows and ON flag moved, and nothing else of it. */
  lemma SameButMessagesMachine(r: Recorder, after: Recorder, cfg: Config)
    requires SameButMessages(r, after) && MachineOk(r, cfg) && WindowsOk(after.m, after.h.windows)
    ensures MachineOk(after, cfg)
  {
    SameButMessagesKeeps(r, after, cfg);
    assert forall f :: IsOpenFlight(after.db, f) ==> IsOpenFlight(r.db, f);
  }

  lemma FileOnSays(r: Recorder, filed: bool)
    requires MessagesOk(r) && r.m.current.Some? && r.m.state.FLYING?
    ensures
      var after := FileOn(r, filed);
      && MessagesOk(after) && after.m.onFiled
      && SameButMessages(r, after) && after.m.lastWindow == r.m.lastWindow && after.h.windows == r.h.windows
  {
    FileFacts(r.(m := r.m.(onFiled := true)), Oooi(r.m.current.value, ON), filed);
  }

  lemma FileOnKeeps(r: Recorder, cfg: Config, filed: bool)
    requires Inv(r, cfg) && r.m.state.FLYING?
    ensures
      var after := FileOn(r, filed);
      && Inv(after, cfg) && after.m.onFiled
      && SameButMessages(r, after) && after.m.lastWindow == r.m.lastWindow && after.h.windows == r.h.windows
  {
    FileOnSays(r, filed);
    SameButMessagesKeeps(r, FileOn(r, filed), cfg);
    SameButMessagesMachine(r, FileOn(r, filed), cfg);
  }

  lemma ClosingSummarises(r: Recorder, frame: Frame, cfg: Config)
    requires Inv(r, cfg) && r.m.state.FLYING?
    ensures Summarises(Closing(r.m, frame, r.clock), PointsOf(r), cfg.dist)
  {
    var points := PointsOf(r);
    assert RowOk(r.db, r.h.others, r.m.current.value, r.clock, cfg.dist);
    ReseededBounds(Times(points));
    UnbrokenBounds(r.h.log);
    assert Times(points)[0] == points[0].ts && Last(Times(points)) == Last(points).ts;
  }

  lemma ClosedLeavesOthers(r: Recorder, frame: Frame, cfg: Config)
    requires StoredOk(r.db, r.h.others, r.clock, cfg.dist) && FlyingOk(r, cfg)
    ensures OnlyOthersOpen(CloseRow(r, frame))
  {
    var after, f := CloseRow(r, frame), r.m.current.value;
    assert IsLatestOpen(r.db, f);
    forall g | IsOpenFlight(after.db, g)
      ensures g in r.h.others
    {
      assert IsOpenFlight(r.db, g);
      assert g !in r.h.others ==> IsLatestOpen(r.db, g);
    }
  }

  lemma CloseRowKeeps(r: Recorder, frame: Frame, cfg: Config)
    requires Inv(r, cfg) && r.m.state.FLYING?
    ensures
      var after := CloseRow(r, frame);
      && StoredOk(after.db, r.h.others, r.clock, cfg.dist)
      && OnlyOthersOpen(after)
  {
    var after := CloseRow(r, frame);
    ClosedLeavesOthers(r, frame, cfg);
    ClosingSummarises(r, frame, cfg);
    forall g | g in after.db.flights
      ensures RowOk(after.db, r.h.others, g, r.clock, cfg.dist)
    {
      assert RowOk(r.db, r.h.others, g, r.clock, cfg.dist);
    }
  }

  /** Judging the leg changes nothing but that leg. */
  lemma ArrivalKeeps(r: Recorder, frame: Frame, cfg: Config)
    requires StoredOk(r.db, r.h.others, r.clock, cfg.dist)
    ensures
      var after := RecordArrival(r, frame, cfg.dist);
      && after == r.(db := r.db.(legs := after.db.legs))
      && StoredOk(after.db, after.h.others, r.clock, cfg.dist)
  {
    SameRowsKeep(r.db, RecordArrival(r, frame, cfg.dist).db, r.h.others, r.clock, cfg.dist);
  }

  /** What the ending flight says: ON, now or before, and IN. */
  lemma TellLandingFacts(r: Recorder, filed: bool)
    requires r.m.current.Some? && OncePerKey(r.db.messages)
    requires r.m.onFiled ==> Said(r.db.messages, Oooi(r.m.current.value, ON)) || r.m.current.value in r.h.torn
    ensures
      var f, told := r.m.current.value, TellLanding(r, filed);
      && SameButMessages(r, told) && told.m.lastWindow == r.m.lastWindow && told.h.windows == r.h.windows
      && (f in told.h.torn || (Said(told.db.messages, Oooi(f, ON)) && Said(told.db.messages, Oooi(f, IN))))
  {
    var f, on := r.m.current.value, FileOn(r, filed);
    if !r.m.onFiled {
      FileFacts(r.(m := r.m.(onFiled := true)), Oooi(f, ON), filed);
    }
    FileFacts(on, Oooi(f, IN), filed);
  }

  /** The machine at rest after a landing that left nothing open and nothing unsaid. */
  lemma LandedKeeps(r: Recorder, cfg: Config)
    requires StoredOk(r.db, r.h.others, r.clock, cfg.dist) && MessagesOk(r.(m := FRESH))
    requires r.m.bootChecked && r.m.anchor.None? && 0 <= r.m.groundStreak < GROUND_DEBOUNCE_FRAMES
    requires LiveOk(r) && OnlyOthersOpen(r)
    ensures Inv(Landed(r), cfg)
  {}

  lemma LandingMessages(r: Recorder, told: Recorder, f: int)
    requires MessagesOk(r) && f in r.db.flights
    requires told.db.flights.Keys == r.db.flights.Keys && OncePerKey(told.db.messages)
    requires forall g :: g in r.db.flights && g != f ==> told.db.flights[g] == r.db.flights[g]
    requires AllKept(r.db.messages, told.db.messages)
    requires r.h.torn <= told.h.torn
    requires f in told.h.torn || (Said(told.db.messages, Oooi(f, ON)) && Said(told.db.messages, Oooi(f, IN)))
    ensures MessagesOk(told.(m := FRESH))
  {}

  /** Judging the leg and telling the landing of a closed flight. */
  lemma ClosedIsTold(r: Recorder, frame: Frame, cfg: Config, filed: bool)
    requires StoredOk(r.db, r.h.others, r.clock, cfg.dist) && OnlyOthersOpen(r) && LiveOk(r)
    requires r.m.current.Some? && OncePerKey(r.db.messages)
    requires r.m.onFiled ==> Said(r.db.messages, Oooi(r.m.current.value, ON)) || r.m.current.value in r.h.torn
    ensures
      var f, told := r.m.current.value, TellLanding(RecordArrival(r, frame, cfg.dist), filed);
      && StoredOk(told.db, told.h.others, told.clock, cfg.dist) && OnlyOthersOpen(told) && LiveOk(told)
      && told.m.(lastWindow := r.m.lastWindow, onFiled := r.m.onFiled) == r.m
      && told.db.flights == r.db.flights && OncePerKey(told.db.messages) && AllKept(r.db.messages, told.db.messages)
      && r.h.torn <= told.h.torn
      && (f in told.h.torn || (Said(told.db.messages, Oooi(f, ON)) && Said(told.db.messages, Oooi(f, IN))))
  {
    var judged := RecordArrival(r, frame, cfg.dist);
    ArrivalKeeps(r, frame, cfg);
    TellLandingFacts(judged, filed);
    SameButMessagesKeeps(judged, TellLanding(judged, filed), cfg);
    assert forall g :: IsOpenFlight(judged.db, g) ==> IsOpenFlight(r.db, g);
  }

  lemma EndFlightKeeps(r: Recorder, frame: Frame, cfg: Config, filed: bool)
    requires Inv(r, cfg) && r.m.state.FLYING?
    ensures Inv(EndFlight(r, frame, cfg, filed), cfg)
    ensures EndFlight(r, frame, cfg, filed).m.state.IDLE?
  {
    var f, closed := r.m.current.value, CloseRow(r, frame);
    CloseRowKeeps(r, frame, cfg);
    ClosedIsTold(closed, frame, cfg, filed);
    var told := TellLanding(RecordArrival(closed, frame, cfg.dist), filed);
    LandingMessages(r, told, f);
    LandedKeeps(told, cfg);
  }

  /** A linked flight that ends leaves its leg judged by where it came down, and every other leg as it was. */
  lemma LandingJudgesTheLeg(r: Recorder, frame: Frame, cfg: Config, filed: bool, l: int)
    requires Inv(r, cfg) && r.m.state.FLYING? && l in r.db.legs
    ensures l in EndFlight(r, frame, cfg, filed).db.legs
    ensures
      var leg, after := r.db.legs[l], EndFlight(r, frame, cfg, filed).db.legs[l];
      var nm := cfg.dist(frame.at, leg.destination);
      && after.destination == leg.destination
      && (r.m.cache == Some(l) ==>
            && after.arrival.Some? && (after.arrival.value.flown <==> nm <= 10.0)
            && after.arrival.value.deviationNm == RoundTenth(nm))
      && (r.m.cache != Some(l) ==> after == leg)
  {
    var judged := RecordArrival(CloseRow(r, frame), frame, cfg.dist);
    TellLandingFacts(judged, filed);
  }

  lemma FileIgnoresStreak(r: Recorder, k: int, key: Key, filed: bool)
    ensures File(WithStreak(r, k), key, filed) == WithStreak(File(r, key, filed), k)
  {}

  lemma FileOnIgnoresStreak(r: Recorder, k: int, filed: bool)
    ensures FileOn(WithStreak(r, k), filed) == WithStreak(FileOn(r, filed), k)
  {
    if r.m.current.Some? && !r.m.onFiled {
      FileIgnoresStreak(r.(m := r.m.(onFiled := true)), k, Oooi(r.m.current.value, ON), filed);
    }
  }

  lemma TellIgnoresStreak(r: Recorder, k: int, filed: bool)
    ensures TellLanding(WithStreak(r, k), filed) == WithStreak(TellLanding(r, filed), k)
  {
    FileOnIgnoresStreak(r, k, filed);
    if r.m.current.Some? {
      FileIgnoresStreak(FileOn(r, filed), k, Oooi(r.m.current.value, IN), filed);
    }
  }

  lemma EndIgnoresStreak(r: Recorder, k: int, frame: Frame, cfg: Config, filed: bool)
    requires r.m.current.Some?
    ensures EndFlight(WithStreak(r, k), frame, cfg, filed) == EndFlight(r, frame, cfg, filed)
  {
    var judged := RecordArrival(CloseRow(r, frame), frame, cfg.dist);
    assert RecordArrival(CloseRow(WithStreak(r, k), frame), frame, cfg.dist) == WithStreak(judged, k);
    TellIgnoresStreak(judged, k, filed);
  }

  lemma InterruptKeeps(r: Recorder, cfg: Config)
    requires Inv(r, cfg)
    ensures Inv(Interrupt(r), cfg)
  {
    assert Init(r.h.log + [Break]) == r.h.log;
    assert Fixes(r.h.log + [Break]) == Fixes(r.h.log);
  }

  lemma StreakKeeps(r: Recorder, k: int, cfg: Config)
    requires Inv(r, cfg) && 0 <= k < LANDED_DEBOUNCE_FRAMES
    ensures Inv(WithStreak(r, k), cfg)
  {}

  lemma SettleKeeps(r: Recorder, frame: Frame, cfg: Config, filed: bool)
    requires Inv(r, cfg) && r.m.state.FLYING?
    ensures Inv(Settle(r, frame, cfg, filed), cfg)
  {
    if frame.onGround && frame.groundSpeedKnots < 5.0 {
      if r.m.landedStreak + 1 >= LANDED_DEBOUNCE_FRAMES {
        EndFlightKeeps(r, frame, cfg, filed);
        EndIgnoresStreak(r, r.m.landedStreak + 1, frame, cfg, filed);
      } else {
        StreakKeeps(r, r.m.landedStreak + 1, cfg);
      }
    } else {
      StreakKeeps(r, 0, cfg);
    }
  }

  lemma FrameFlyingKeeps(r: Recorder, frame: Frame, w: World, cfg: Config)
    requires Inv(r, cfg) && r.m.state.FLYING?
    ensures Inv(FrameFlying(r, frame, w, cfg), cfg)
  {
    if frame.simRunning == 3 || r.m.paused {
      InterruptKeeps(r, cfg);
    } else {
      var recorded := RecordIfDue(r, frame, cfg, w.filed);
      RecordKeeps(r, frame, cfg, w.filed);
      FileOnKeeps(recorded, cfg, w.filed);
      SettleKeeps(if frame.onGround then FileOn(recorded, w.filed) else recorded, frame, cfg, w.filed);
    }
  }

  // ---------------------------------------------------------------- taking off

  /** The new row is open, has no points and no link yet, and no other row changes. */
  lemma TakeoffRows(r: Recorder, frame: Frame, w: World, writes: nat, cfg: Config)
    requires StoredOk(r.db, r.h.others, r.clock, cfg.dist)
    ensures
      var after, f := TakeoffWrites(r, frame, w, writes), r.db.nextFlight;
      && after == r.(db := after.db)
      && after.db.messages == r.db.messages && after.db.nextFlight == f + 1
      && f !in r.db.flights && f !in r.db.links
      && after.db.flights == r.db.flights[f := FlightRow(r.clock, frame.at, None)]
      && after.db.points == r.db.points[f := []]
      && PlansOk(after.db)
  {
    var f := r.db.nextFlight;
    assert f in r.db.flights ==> RowOk(r.db, r.h.others, f, r.clock, cfg.dist);
    assert r.db.links.Keys <= r.db.flights.Keys;
  }

  lemma NextIsFree(r: Recorder, cfg: Config)
    requires StoredOk(r.db, r.h.others, r.clock, cfg.dist)
    ensures r.db.points.Keys == r.db.flights.Keys && r.db.nextFlight !in r.db.links && GS.Valid(r.db.sessions)
    ensures r.db.nextFlight !in r.db.flights
  {
    assert r.db.nextFlight in r.db.flights ==> RowOk(r.db, r.h.others, r.db.nextFlight, r.clock, cfg.dist);
  }

  lemma TakeoffSessions(r: Recorder, frame: Frame, w: World, writes: nat)
    requires GS.Valid(r.db.sessions)
    ensures GS.Valid(TakeoffWrites(r, frame, w, writes).db.sessions)
    ensures writes >= 2 ==> !GS.SomeOpen(TakeoffWrites(r, frame, w, writes).db.sessions)
  {
    GS.CloseOpenKeeps(r.db.sessions, r.clock, GS.FlightStarted, Some(r.db.nextFlight));
  }

  /** The database as takeoff leaves it, and what a death in the middle leaves behind: a flight without points. */
  lemma TakeoffWritesKeep(r: Recorder, frame: Frame, w: World, writes: nat, cfg: Config)
    requires StoredOk(r.db, r.h.others, r.clock, cfg.dist)
    requires OnlyOthersOpen(r)
    ensures
      var after := TakeoffWrites(r, frame, w, writes);
      && StoredOk(after.db, after.h.others, r.clock, cfg.dist)
      && IsLatestOpen(after.db, r.db.nextFlight) && r.db.nextFlight !in r.h.others
      && (forall f :: IsOpenFlight(after.db, f) ==> f == r.db.nextFlight || f in r.h.others)
      && after.db.points[r.db.nextFlight] == []
  {
    var after, f := TakeoffWrites(r, frame, w, writes), r.db.nextFlight;
    TakeoffRows(r, frame, w, writes, cfg);
    TakeoffSessions(r, frame, w, writes);
    forall g | g in after.db.flights
      ensures RowOk(after.db, after.h.others, g, r.clock, cfg.dist)
    {
      assert g != f ==> RowOk(r.db, r.h.others, g, r.clock, cfg.dist);
    }
    forall g | IsOpenFlight(after.db, g) && g != f
      ensures g in r.h.others && r.db.flights[g].startTime <= r.clock && g < f
    {
      assert IsOpenFlight(r.db, g);
      assert RowOk(r.db, r.h.others, g, r.clock, cfg.dist);
    }
  }

  lemma BegunIsReady(r: Recorder, frame: Frame, w: World, cfg: Config)
    requires StoredOk(r.db, r.h.others, r.clock, cfg.dist)
    requires r.m.bootChecked && r.m.lastFrame.Some? && OnlyOthersOpen(r)
    ensures Ready(Takeoff(TakeoffWrites(r, frame, w, 3), r.db.nextFlight, frame), frame, cfg)
  {
    TakeoffWritesKeep(r, frame, w, 3, cfg);
    TakeoffRows(r, frame, w, 3, cfg);
  }

  /** OUT and OFF, one after the other. */
  function TellTakeoff(r: Recorder, f: int, filed: bool): Recorder {
    File(File(r, Oooi(f, OUT), filed), Oooi(f, OFF), filed)
  }

  lemma TellTakeoffFacts(r: Recorder, f: int, filed: bool)
    requires OncePerKey(r.db.messages)
    ensures
      var told := TellTakeoff(r, f, filed);
      && SameButMessages(r, told) && told.m == r.m && told.h.windows == r.h.windows
      && (f in told.h.torn || (Said(told.db.messages, Oooi(f, OUT)) && Said(told.db.messages, Oooi(f, OFF))))
  {
    FileFacts(r, Oooi(f, OUT), filed);
    FileFacts(File(r, Oooi(f, OUT), filed), Oooi(f, OFF), filed);
  }

  /** A flight that has just begun has nothing to say but OUT and OFF. */
  lemma TakeoffSays(r: Recorder, told: Recorder, f: int)
    requires MessagesOk(r) && OncePerKey(told.db.messages) && AllKept(r.db.messages, told.db.messages)
    requires forall g :: g in told.db.flights && g != f ==> g in r.db.flights && told.db.flights[g] == r.db.flights[g]
    requires f in told.db.flights ==> told.db.flights[f].summary.None?
    requires r.h.torn <= told.h.torn && told.m.current == Some(f) && !told.m.onFiled
    requires f in told.h.torn || (Said(told.db.messages, Oooi(f, OUT)) && Said(told.db.messages, Oooi(f, OFF)))
    ensures MessagesOk(told)
  {}

  lemma TakenOffIsReady(r: Recorder, frame: Frame, w: World, cfg: Config)
    requires StoredOk(r.db, r.h.others, r.clock, cfg.dist) && MessagesOk(r)
    requires r.m.bootChecked && r.m.lastFrame.Some? && OnlyOthersOpen(r)
    ensures
      var after, f := TakenOff(r, frame, w), r.db.nextFlight;
      && Ready(after, frame, cfg) && MessagesOk(after)
      && after.m == Takeoff(TakeoffWrites(r, frame, w, 3), f, frame).m && after.clock == r.clock
      && !GS.SomeOpen(after.db.sessions)
  {
    var f := r.db.nextFlight;
    var begun := Takeoff(TakeoffWrites(r, frame, w, 3), f, frame);
    TakeoffRows(r, frame, w, 3, cfg);
    TakeoffSessions(r, frame, w, 3);
    BegunIsReady(r, frame, w, cfg);
    TellTakeoffFacts(begun, f, w.filed);
    SameButMessagesKeeps(begun, TellTakeoff(begun, f, w.filed), cfg);
    TakeoffSays(r, TellTakeoff(begun, f, w.filed), f);
  }

  /** A machine on a flight with points, all its parts in order. */
  ghost predicate UnderWay(r: Recorder) {
    && r.m.state.FLYING? && r.m.app == AppState(FLYING, r.m.current) && r.m.anchor.None? && LiveOk(r)
    && r.m.airborneStreak == r.m.landedStreak == r.m.groundStreak == 0
  }

  lemma UnderWayKeeps(r: Recorder, cfg: Config)
    requires UnderWay(r) && StoredOk(r.db, r.h.others, r.clock, cfg.dist) && FlyingOk(r, cfg)
    requires PointsOf(r) != [] && r.m.totals.lastPointTime == Last(PointsOf(r)).ts && MessagesOk(r)
    ensures Inv(r, cfg)
  {}

  /** With the same flights and no message fewer, what was said stays said. */
  lemma SaidStaysSaid(r: Recorder, after: Recorder)
    requires MessagesOk(r) && OncePerKey(after.db.messages)
    requires AllKept(r.db.messages, after.db.messages)
    requires after.db.flights == r.db.flights && r.h.torn <= after.h.torn
    requires after.m.state == r.m.state && after.m.current == r.m.current && after.m.onFiled == r.m.onFiled
    ensures MessagesOk(after)
  {}

  lemma WritePointSays(r: Recorder, frame: Frame, cfg: Config, filed: bool)
    requires Ready(r, frame, cfg) && MessagesOk(r)
    ensures MessagesOk(WritePoint(r, frame, cfg, filed))
  {
    var written := Write(r, frame, cfg);
    SaidStaysSaid(r, written);
    WriteKeeps(r, frame, cfg);
    ReportKeeps(written, cfg, filed);
    SaidStaysSaid(written, WritePoint(r, frame, cfg, filed));
  }

  lemma FirstPointKeeps(r: Recorder, frame: Frame, cfg: Config, filed: bool)
    requires Ready(r, frame, cfg) && MessagesOk(r) && UnderWay(r)
    ensures
      var after := WritePoint(r, frame, cfg, filed);
      && Inv(after, cfg) && after.m.state.FLYING? && after.m.current == r.m.current
      && PointsOf(after) == PointsOf(r) + [Recorded(frame, r.clock)]
      && after.db.sessions == r.db.sessions
  {
    WritePointKeeps(r, frame, cfg, filed);
    WritePointSays(r, frame, cfg, filed);
    WritePointTotals(r, frame, cfg, filed);
    UnderWayKeeps(WritePoint(r, frame, cfg, filed), cfg);
  }

  lemma StartFlightKeeps(r: Recorder, frame: Frame, w: World, cfg: Config)
    requires StoredOk(r.db, r.h.others, r.clock, cfg.dist) && MessagesOk(r)
    requires r.m.bootChecked && r.m.lastFrame.Some? && OnlyOthersOpen(r)
    ensures
      var after := StartFlight(r, frame, w, cfg);
      && Inv(after, cfg)
      && after.m.state.FLYING? && after.m.current == Some(r.db.nextFlight)
      && !GS.SomeOpen(after.db.sessions)
  {
    TakenOffIsReady(r, frame, w, cfg);
    FirstPointKeeps(TakenOff(r, frame, w), frame, cfg, w.filed);
  }

  /** The flight that is resumed becomes the recorder's own, whoever left it open. */
  lemma ResumedIsOwn(db: Stored, f: int, others: set<int>, now: int, dist: Distance)
    requires StoredOk(db, others, now, dist) && IsLatestOpen(db, f)
    ensures StoredOk(db, others - {f}, now, dist)
  {
    forall g | g in db.flights
      ensures RowOk(db, others - {f}, g, now, dist)
    {
      assert RowOk(db, others, g, now, dist);
    }
  }

  lemma ReloadedIsReady(r: Recorder, f: int, frame: Frame, cfg: Config)
    requires StoredOk(r.db, r.h.others, r.clock, cfg.dist) && r.m.bootChecked && r.m.lastFrame.Some?
    requires IsLatestOpen(r.db, f)
    ensures Ready(Reloaded(r, f, frame, cfg), frame, cfg)
  {
    var loaded, times := Reloaded(r, f, frame, cfg), Times(r.db.points[f]);
    ResumedIsOwn(r.db, f, r.h.others, r.clock, cfg.dist);
    assert RowOk(r.db, r.h.others, f, r.clock, cfg.dist);
    StoredLogFacts(times);
    assert Init(StoredLog(times) + [Break]) == StoredLog(times);
    assert Fixes(loaded.h.log) == times;
  }

  lemma ResumeFlightKeeps(r: Recorder, f: int, frame: Frame, cfg: Config, filed: bool)
    requires StoredOk(r.db, r.h.others, r.clock, cfg.dist) && MessagesOk(r)
    requires r.m.bootChecked && r.m.lastFrame.Some? && IsLatestOpen(r.db, f) && r.m.anchor.None? && LiveOk(r)
    ensures
      var after := ResumeFlight(r, f, frame, cfg, filed);
      && Inv(after, cfg)
      && after.m.state.FLYING? && after.m.current == Some(f)
      && PointsOf(after) == r.db.points[f] + [Recorded(frame, r.clock)]
  {
    var loaded := Reloaded(r, f, frame, cfg);
    ReloadedIsReady(r, f, frame, cfg);
    assert MessagesOk(loaded);
    FirstPointKeeps(loaded, frame, cfg, filed);
  }

  // ---------------------------------------------------------------- the other handlers

  lemma ToIdleKeeps(r: Recorder, cfg: Config)
    requires Inv(r, cfg) && r.m.state.GROUND?
    ensures Inv(ToIdle(r), cfg)
  {}

  /** The sessions may change under the machine as long as its live session follows, or is dropped off the ground. */
  lemma SessionsKeep(r: Recorder, t: GS.Table, live: Option<GS.Session>, cfg: Config)
    requires Inv(r, cfg) && GS.Valid(t)
    requires live == OpenSession(t) || live.None?
    requires r.m.state.GROUND? ==> live.Some?
    ensures Inv(r.(db := r.db.(sessions := t), m := r.m.(live := live),
                   h := r.h.(stale := if live.Some? then false else r.h.stale)), cfg)
  {
    SameRowsKeep(r.db, r.db.(sessions := t), r.h.others, r.clock, cfg.dist);
  }

  lemma LeaveGroundKeeps(r: Recorder, reason: GS.EndReason, cfg: Config)
    requires Inv(r, cfg) && r.m.state.GROUND?
    ensures Inv(LeaveGround(r, reason), cfg) && !GS.SomeOpen(LeaveGround(r, reason).db.sessions)
  {
    GS.CloseOpenKeeps(r.db.sessions, r.clock, reason, None);
    ToIdleKeeps(r, cfg);
    SessionsKeep(ToIdle(r), GS.CloseOpen(r.db.sessions, r.clock, reason, None), None, cfg);
  }

  lemma EnterGroundKeeps(r: Recorder, frame: Frame, w: World, cfg: Config)
    requires Inv(r.(m := r.m.(groundStreak := 0)), cfg) && r.m.state.IDLE? && r.m.bootChecked
    ensures Inv(EnterGround(r, frame, w), cfg)
  {
    var detected := GS.Detected(w.airport, frame.at, w.stand, w.matched, frame.aircraft, r.clock);
    var sessions := GS.Enter(r.db.sessions, detected);
    GS.EnterKeeps(r.db.sessions, detected);
    SessionsKeep(r.(m := r.m.(groundStreak := 0)), sessions, OpenSession(sessions), cfg);
  }

  /** Open too, and not to be preferred to `f`. */
  ghost predicate YieldsTo(db: Stored, g: int, f: int)
    requires f in db.flights
  {
    && IsOpenFlight(db, g)
    && (|| db.flights[g].startTime < db.flights[f].startTime
        || (db.flights[g].startTime == db.flights[f].startTime && g <= f))
  }

  lemma {:induction false} LatestAmong(db: Stored, f: int, rest: set<int>) returns (latest: int)
    requires IsOpenFlight(db, f) && forall g :: g in rest ==> IsOpenFlight(db, g)
    ensures IsOpenFlight(db, latest) && YieldsTo(db, f, latest)
    ensures forall g :: g in rest ==> YieldsTo(db, g, latest)
    decreases |rest|
  {
    if exists g :: g in rest {
      var g :| g in rest;
      latest := LatestAmong(db, if YieldsTo(db, g, f) then f else g, rest - {g});
    } else {
      latest := f;
    }
  }

  lemma SomeLatest(db: Stored, f: int)
    requires IsOpenFlight(db, f)
    ensures exists g :: IsLatestOpen(db, g)
  {
    var latest := LatestAmong(db, f, set g | g in db.flights && IsOpenFlight(db, g));
    assert forall g :: IsOpenFlight(db, g) ==> YieldsTo(db, g, latest);
    assert IsLatestOpen(db, latest);
  }

  lemma NoLatestNoOpen(r: Recorder, cfg: Config)
    requires Inv(r, cfg) && !r.m.state.FLYING?
    requires r.m.bootChecked || !exists f :: IsLatestOpen(r.db, f) && f in r.db.points
    ensures OnlyOthersOpen(r)
  {
    if f :| IsOpenFlight(r.db, f) && !r.m.bootChecked {
      SomeLatest(r.db, f);
      assert false;
    }
  }

  lemma BootedKeeps(r: Recorder, cfg: Config)
    requires Inv(r, cfg) && !r.m.state.FLYING? && OnlyOthersOpen(r)
    ensures Inv(Booted(r), cfg)
  {}

  lemma CountedKeeps(r: Recorder, streak: int, cfg: Config)
    requires Inv(r, cfg) && 0 <= streak < AIRBORNE_DEBOUNCE_FRAMES
    ensures Inv(Counted(r, streak), cfg)
  {}

  /** What the airborne debounce leaves: a new flight, or the same machine with its frames counted. */
  ghost predicate Debounced(r: Recorder, after: Recorder, cfg: Config) {
    && Inv(after, cfg) && after.m.bootChecked
    && (after.m.state.FLYING? || after == Counted(r, after.m.airborneStreak))
  }

  lemma RotationKeeps(r: Recorder, streak: int, frame: Frame, w: World, cfg: Config)
    requires Inv(r, cfg) && r.m.bootChecked && !r.m.state.FLYING? && r.m.lastFrame.Some?
    ensures Debounced(r, StartFlight(Counted(r, streak), frame, w, cfg), cfg)
  {
    assert MessagesOk(Counted(r, streak));
    StartFlightKeeps(Counted(r, streak), frame, w, cfg);
  }

  lemma CountingKeeps(r: Recorder, streak: int, cfg: Config)
    requires Inv(r, cfg) && r.m.bootChecked && 0 <= streak < AIRBORNE_DEBOUNCE_FRAMES
    ensures Debounced(r, Counted(r, streak), cfg)
  {
    CountedKeeps(r, streak, cfg);
  }

  lemma StreakIsCounted(r: Recorder, frame: Frame, cfg: Config)
    requires MachineOk(r, cfg)
    ensures NextStreak(r, frame) >= 0
  {}

  lemma DebounceStarts(r: Recorder, frame: Frame, w: World, cfg: Config)
    requires NextStreak(r, frame) >= AIRBORNE_DEBOUNCE_FRAMES
    ensures Debounce(r, frame, w, cfg) == StartFlight(Counted(r, NextStreak(r, frame)), frame, w, cfg)
  {}

  lemma DebounceKeeps(r: Recorder, frame: Frame, w: World, cfg: Config)
    requires Inv(r, cfg) && r.m.bootChecked && !r.m.state.FLYING? && r.m.lastFrame.Some?
    ensures Debounced(r, Debounce(r, frame, w, cfg), cfg)
  {
    var streak := NextStreak(r, frame);
    if streak < AIRBORNE_DEBOUNCE_FRAMES {
      StreakIsCounted(r, frame, cfg);
      CountingKeeps(r, streak, cfg);
    } else {
      RotationKeeps(r, streak, frame, w, cfg);
      DebounceStarts(r, frame, w, cfg);
    }
  }

  lemma BootResumeKeeps(r: Recorder, frame: Frame, w: World, cfg: Config)
    requires Inv(r, cfg) && r.m.lastFrame.Some? && !r.m.bootChecked
    requires exists f :: IsLatestOpen(r.db, f) && f in r.db.points
    ensures
      var after := CheckAirborne(r, frame, w, cfg);
      Inv(after, cfg) && after.m.bootChecked && after.m.state.FLYING?
  {
    var f :| IsLatestOpen(r.db, f) && f in r.db.points
      && CheckAirborne(r, frame, w, cfg) == ResumeFlight(Booted(r), f, frame, cfg, w.filed);
    ResumeFlightKeeps(Booted(r), f, frame, cfg, w.filed);
  }

  lemma CheckAirborneKeeps(r: Recorder, frame: Frame, w: World, cfg: Config)
    requires Inv(r, cfg) && !r.m.state.FLYING? && r.m.lastFrame.Some?
    ensures Debounced(Booted(r), CheckAirborne(r, frame, w, cfg), cfg)
  {
    if !r.m.bootChecked && exists f :: IsLatestOpen(r.db, f) && f in r.db.points {
      BootResumeKeeps(r, frame, w, cfg);
    } else {
      NoLatestNoOpen(r, cfg);
      BootedKeeps(r, cfg);
      DebounceKeeps(Booted(r), frame, w, cfg);
      assert CheckAirborne(r, frame, w, cfg) == Debounce(Booted(r), frame, w, cfg);
    }
  }

  lemma GroundStreakKeeps(r: Recorder, k: int, cfg: Config)
    requires Inv(r, cfg) && 0 <= k < GROUND_DEBOUNCE_FRAMES
    ensures Inv(r.(m := r.m.(groundStreak := k)), cfg)
  {}

  lemma ParkedKeeps(r: Recorder, k: int, frame: Frame, w: World, cfg: Config)
    requires Inv(r, cfg) && r.m.state.IDLE? && r.m.bootChecked && k >= 0
    ensures
      var counted := r.(m := r.m.(groundStreak := k));
      Inv(if k >= GROUND_DEBOUNCE_FRAMES then EnterGround(counted, frame, w) else counted, cfg)
  {
    if k >= GROUND_DEBOUNCE_FRAMES {
      GroundStreakKeeps(r, 0, cfg);
      EnterGroundKeeps(r.(m := r.m.(groundStreak := k)), frame, w, cfg);
    } else {
      GroundStreakKeeps(r, k, cfg);
    }
  }

  lemma FrameIdleKeeps(r: Recorder, frame: Frame, w: World, cfg: Config)
    requires Inv(r, cfg) && r.m.state.IDLE? && r.m.lastFrame.Some?
    ensures Inv(FrameIdle(r, frame, w, cfg), cfg)
  {
    CheckAirborneKeeps(r, frame, w, cfg);
    var next := CheckAirborne(r, frame, w, cfg);
    if next.m.state.IDLE? {
      ParkedKeeps(next, if IsParkedFrame(frame) then r.m.groundStreak + 1 else 0, frame, w, cfg);
    }
  }

  lemma SeenKeeps(r: Recorder, frame: Frame, cfg: Config)
    requires Inv(r, cfg)
    ensures Inv(Seen(r, frame), cfg)
  {}

  lemma OnFrameKeeps(r: Recorder, frame: Frame, w: World, cfg: Config)
    requires Inv(r, cfg)
    ensures Inv(OnFrame(r, frame, w, cfg), cfg)
  {
    var seen := Seen(r, frame);
    SeenKeeps(r, frame, cfg);
    if frame.simRunning == 0 {
      if r.m.state.FLYING? {
        EndFlightKeeps(seen, frame, cfg, w.filed);
      } else if r.m.state.GROUND? {
        LeaveGroundKeeps(seen, GS.SimExit, cfg);
      }
    } else if r.m.state.IDLE? {
      FrameIdleKeeps(seen, frame, w, cfg);
    } else if r.m.state.GROUND? {
      LeaveGroundKeeps(seen, GS.SlewEnd, cfg);
      LeaveGroundKeeps(seen, GS.Superseded, cfg);
      CheckAirborneKeeps(seen, frame, w, cfg);
    } else {
      FrameFlyingKeeps(seen, frame, w, cfg);
    }
  }

  lemma OnLossKeeps(r: Recorder, reason: GS.EndReason, filed: bool, cfg: Config)
    requires Inv(r, cfg)
    ensures Inv(OnLoss(r, reason, cfg, filed), cfg)
  {
    if r.m.state.FLYING? {
      EndFlightKeeps(r, r.m.lastFrame.value, cfg, filed);
    } else if r.m.state.GROUND? {
      LeaveGroundKeeps(r, reason, cfg);
      ToIdleKeeps(r, cfg);
    }
  }

  lemma SetPausedKeeps(r: Recorder, paused: bool, cfg: Config)
    requires Inv(r, cfg)
    ensures Inv(SetPaused(r, paused), cfg)
  {
    InterruptKeeps(r, cfg);
  }

  lemma RestartKeeps(r: Recorder, cfg: Config)
    requires StoredOk(r.db, r.h.others, r.clock, cfg.dist) && MessagesOk(Restarted(r))
    ensures Inv(Restarted(r), cfg)
  {}

  lemma DieAtTakeoffKeeps(r: Recorder, frame: Frame, w: World, writes: nat, cfg: Config)
    requires Inv(r, cfg)
    ensures Inv(DieAtTakeoff(r, frame, w, writes, cfg), cfg)
  {
    if WouldTakeOff(r, frame, cfg) {
      TakeoffWritesKeep(r, frame, w, writes, cfg);
      TakeoffRows(r, frame, w, writes, cfg);
      var cut := TakeoffWrites(r, frame, w, writes);
      RestartKeeps(cut.(h := cut.h.(torn := cut.h.torn + {r.db.nextFlight})), cfg);
    }
  }

  lemma DieAtLandingKeeps(r: Recorder, cfg: Config)
    requires Inv(r, cfg)
    ensures Inv(DieAtLanding(r), cfg)
  {
    if r.m.state.FLYING? {
      CloseRowKeeps(r, r.m.lastFrame.value, cfg);
      var cut := CloseRow(r, r.m.lastFrame.value);
      RestartKeeps(cut.(h := cut.h.(torn := cut.h.torn + {r.m.current.value})), cfg);
    }
  }

  /** Sessions written behind the machine's back, then the refresh. */
  lemma RefreshKeeps(r: Recorder, t: GS.Table, cfg: Config)
    requires Inv(r, cfg) && GS.Valid(t)
    ensures Inv(WithSessions(r, t), cfg)
  {
    var wrote := r.(db := r.db.(sessions := t));
    if r.m.state.GROUND? && !GS.SomeOpen(t) {
      ToIdleKeeps(r, cfg);
      SessionsKeep(ToIdle(r), t, None, cfg);
      assert RefreshGroundSession(wrote) == ToIdle(r).(db := ToIdle(r).db.(sessions := t));
    } else {
      SessionsKeep(r, t, OpenSession(t), cfg);
    }
  }

  lemma {:induction false} RemainingAre(messages: seq<Message>, flights: set<int>, legs: set<int>)
    ensures forall m :: m in Remaining(messages, flights, legs) <==> m in messages && !Lost(m, flights, legs)
    ensures forall m :: m in messages && Lost(m, flights, legs) ==> FlightsOf(m.key) <= TornBy(messages, flights, legs)
  {
    if messages == [] {
    } else {
      RemainingAre(Init(messages), flights, legs);
      assert messages == Init(messages) + [Last(messages)];
    }
  }

  lemma {:induction false} RemainingOncePerKey(messages: seq<Message>, flights: set<int>, legs: set<int>)
    requires OncePerKey(messages)
    ensures OncePerKey(Remaining(messages, flights, legs))
  {
    if messages == [] {
    } else {
      RemainingOncePerKey(Init(messages), flights, legs);
      RemainingAre(Init(messages), flights, legs);
      assert forall m :: m in Init(messages) ==> m.key != Last(messages).key;
    }
  }

  /** A message is gone exactly when it was about a deleted flight or filed under a deleted leg. */
  lemma CascadeSays(r: Recorder, flights: set<int>, legs: set<int>)
    requires MessagesOk(r)
    ensures MessagesOk(Cascaded(r, flights, legs))
  {
    var after := Cascaded(r, flights, legs);
    RemainingAre(r.db.messages, flights, legs);
    RemainingOncePerKey(r.db.messages, flights, legs);
    forall f, e | Said(r.db.messages, Oooi(f, e)) && f !in after.h.torn
      ensures Said(after.db.messages, Oooi(f, e))
    {
      var m :| m in r.db.messages && m.key == Oooi(f, e);
    }
  }

  /** The sessions lose their references, and the live session is stale exactly when the leg it names goes. */
  lemma CascadeLive(r: Recorder, flights: set<int>, legs: set<int>)
    requires LiveOk(r) && GS.Valid(r.db.sessions)
    ensures LiveOk(Cascaded(r, flights, legs)) && GS.Valid(Cascaded(r, flights, legs).db.sessions)
  {
    GS.UnreferencedKeeps(r.db.sessions, flights, legs);
  }

  lemma CascadeKeeps(r: Recorder, flights: set<int>, legs: set<int>, cfg: Config)
    requires Inv(r, cfg)
    ensures Inv(Cascaded(r, flights, legs), cfg)
  {
    var after := Cascaded(r, flights, legs);
    CascadeSays(r, flights, legs);
    CascadeLive(r, flights, legs);
    SameRowsKeep(r.db, after.db, r.h.others, r.clock, cfg.dist);
  }

  lemma PlansKeep(r: Recorder, links: map<int, int>, legs: map<int, PlannedLeg>, cfg: Config)
    requires Inv(r, cfg) && PlansFit(r.db, links, legs)
    ensures Inv(RefreshPlannedLeg(r.(db := r.db.(links := links, legs := legs))), cfg)
  {
    var after := RefreshPlannedLeg(r.(db := r.db.(links := links, legs := legs)));
    SameRowsKeep(r.db, after.db, r.h.others, r.clock, cfg.dist);
  }

  lemma PlanChangeKeeps(r: Recorder, links: map<int, int>, legs: map<int, PlannedLeg>, cfg: Config)
    requires Inv(r, cfg)
    ensures Inv(ChangePlans(r, links, legs), cfg)
  {
    if PlansFit(r.db, links, legs) {
      CascadeKeeps(r, {}, r.db.legs.Keys - legs.Keys, cfg);
      PlansKeep(Cascaded(r, {}, r.db.legs.Keys - legs.Keys), links, legs, cfg);
    }
  }

  /** A flight other than the one being recorded may go. */
  lemma DroppedKeeps(r: Recorder, f: int, cfg: Config)
    requires Inv(r, cfg) && f in r.db.flights && r.m.current != Some(f)
    ensures Inv(r.(db := Dropped(r.db, f)), cfg)
  {
    var after := r.(db := Dropped(r.db, f));
    forall g | g in after.db.flights
      ensures RowOk(after.db, r.h.others, g, r.clock, cfg.dist)
    {
      assert RowOk(r.db, r.h.others, g, r.clock, cfg.dist);
    }
    forall g | IsOpenFlight(after.db, g)
      ensures IsOpenFlight(r.db, g)
      ensures g !in r.h.others ==> IsLatestOpen(after.db, g)
    {
      assert IsOpenFlight(r.db, g);
      assert g !in r.h.others ==> IsLatestOpen(r.db, g);
      assert forall h :: IsOpenFlight(after.db, h) ==> IsOpenFlight(r.db, h);
    }
  }

  lemma DeleteFlightKeeps(r: Recorder, f: int, cfg: Config)
    requires Inv(r, cfg)
    ensures Inv(DeleteFlight(r, f), cfg)
  {
    if f in r.db.flights && r.m.current != Some(f) {
      var dropped := r.(db := Dropped(r.db, f));
      DroppedKeeps(r, f, cfg);
      CascadeKeeps(dropped, {f}, {}, cfg);
      var cascaded := Cascaded(dropped, {f}, {});
      assert RefreshPlannedLeg(cascaded) == cascaded;
    }
  }

  /** The merged row is closed, and the recorder answers neither for it nor for its messages. */
  lemma WithMergedStored(r: Recorder, first: int, second: int, cfg: Config)
    requires StoredOk(r.db, r.h.others, r.clock, cfg.dist)
    requires {first, second} <= r.db.flights.Keys && r.db.points[second] != []
    ensures
      var after := WithMerged(r, first, second, cfg.dist);
      && StoredOk(after.db, after.h.others, r.clock, cfg.dist)
      && (forall g :: IsOpenFlight(after.db, g) <==> IsOpenFlight(r.db, g))
      && r.db.nextFlight !in r.db.flights
  {
    var after, id := WithMerged(r, first, second, cfg.dist), r.db.nextFlight;
    assert id in r.db.flights ==> RowOk(r.db, r.h.others, id, r.clock, cfg.dist);
    forall g | g in after.db.flights
      ensures RowOk(after.db, after.h.others, g, r.clock, cfg.dist)
    {
      assert g != id ==> RowOk(r.db, r.h.others, g, r.clock, cfg.dist);
    }
    forall g | IsOpenFlight(after.db, g)
      ensures IsOpenFlight(r.db, g)
      ensures g !in after.h.others ==> IsLatestOpen(after.db, g)
    {
      assert IsOpenFlight(r.db, g);
      assert g !in r.h.others ==> IsLatestOpen(r.db, g);
      assert forall h :: IsOpenFlight(after.db, h) ==> IsOpenFlight(r.db, h);
    }
  }

  lemma WithMergedKeeps(r: Recorder, first: int, second: int, cfg: Config)
    requires Inv(r, cfg) && {first, second} <= r.db.flights.Keys && r.db.points[second] != []
    ensures Inv(WithMerged(r, first, second, cfg.dist), cfg)
  {
    var after := WithMerged(r, first, second, cfg.dist);
    WithMergedStored(r, first, second, cfg);
    assert r.m.current.Some? ==> PointsOf(after) == PointsOf(r);
  }

  lemma CombineKeeps(r: Recorder, a: int, b: int, cfg: Config)
    requires Inv(r, cfg)
    ensures Inv(CombineFlights(r, a, b, cfg.dist), cfg)
  {
    if MayCombine(r, a, b) {
      var inOrder := r.db.flights[a].startTime <= r.db.flights[b].startTime;
      var first, second := if inOrder then a else b, if inOrder then b else a;
      var merged := WithMerged(r, first, second, cfg.dist);
      WithMergedKeeps(r, first, second, cfg);
      DroppedKeeps(merged, a, cfg);
      var without := merged.(db := Dropped(merged.db, a));
      DroppedKeeps(without, b, cfg);
      CascadeKeeps(without.(db := Dropped(without.db, b)), {a, b}, {}, cfg);
    }
  }

  lemma TimePasses(r: Recorder, dt: nat, cfg: Config)
    requires Inv(r, cfg)
    ensures Inv(Later(r, dt), cfg)
  {
    forall f | f in r.db.flights
      ensures RowOk(r.db, r.h.others, f, r.clock + dt, cfg.dist)
    {
      assert RowOk(r.db, r.h.others, f, r.clock, cfg.dist);
    }
  }

  lemma OperatorEntryKeeps(r: Recorder, entry: GS.ManualEntry, cfg: Config)
    requires Inv(r, cfg)
    ensures Inv(WithSessions(r, GS.EnterByHand(r.db.sessions, entry, r.clock)), cfg)
  {
    GS.EnterByHandKeeps(r.db.sessions, entry, r.clock);
    RefreshKeeps(r, GS.EnterByHand(r.db.sessions, entry, r.clock), cfg);
  }

  lemma OperatorCloseKeeps(r: Recorder, cfg: Config)
    requires Inv(r, cfg)
    ensures Inv(WithSessions(r, GS.CloseOpen(r.db.sessions, r.clock, GS.ManualEnd, None)), cfg)
  {
    GS.CloseOpenKeeps(r.db.sessions, r.clock, GS.ManualEnd, None);
    RefreshKeeps(r, GS.CloseOpen(r.db.sessions, r.clock, GS.ManualEnd, None), cfg);
  }

  /** Does the event come from the simulator, or from the process itself? */
  predicate IsSignal(e: Event) {
    e.Telemetry? || e.Pause? || e.SimCrash? || e.Disconnect? || e.Restart? || e.DeathAtTakeoff? || e.DeathAtLanding?
  }

  lemma SignalKeeps(r: Recorder, e: Event, cfg: Config)
    requires Inv(r, cfg) && IsSignal(e)
    ensures Inv(Handle(r, e, cfg), cfg)
  {
    match e
    case Telemetry(frame, w) => OnFrameKeeps(r, frame, w, cfg);
    case Pause(paused) => SetPausedKeeps(r, paused, cfg);
    case SimCrash(filed) => OnLossKeeps(r, GS.CrashEnd, filed, cfg);
    case Disconnect(filed) => OnLossKeeps(r, GS.SimExit, filed, cfg);
    case Restart => RestartKeeps(r, cfg);
    case DeathAtTakeoff(frame, w, writes) => DieAtTakeoffKeeps(r, frame, w, writes, cfg);
    case DeathAtLanding => DieAtLandingKeeps(r, cfg);
  }

  lemma EditKeeps(r: Recorder, e: Event, cfg: Config)
    requires Inv(r, cfg) && !IsSignal(e)
    ensures Inv(Handle(r, e, cfg), cfg)
  {
    match e
    case OperatorEntry(entry) => OperatorEntryKeeps(r, entry, cfg);
    case OperatorClose => OperatorCloseKeeps(r, cfg);
    case PlanChange(links, legs) => PlanChangeKeeps(r, links, legs, cfg);
    case FlightDeletion(f) => DeleteFlightKeeps(r, f, cfg);
    case Combination(a, b) => CombineKeeps(r, a, b, cfg);
  }

  lemma StepKeeps(r: Recorder, dt: nat, e: Event, cfg: Config)
    requires Inv(r, cfg)
    ensures Inv(Step(r, dt, e, cfg), cfg)
  {
    TimePasses(r, dt, cfg);
    if IsSignal(e) {
      SignalKeeps(Later(r, dt), e, cfg);
    } else {
      EditKeeps(Later(r, dt), e, cfg);
    }
  }

  // ---------------------------------------------------------------- whole runs

  /** A process starting on a database. */
  function Boot(db: Stored, torn: set<int>, others: set<int>, clock: int): Recorder {
    Recorder(db, FRESH, History([], [], torn, others, false), clock)
  }

  /** Over every run of frames, pauses, crashes, disconnects, deaths and restarts, the invariant holds throughout. */
  lemma {:induction false} RunKeeps(r: Recorder, events: seq<(nat, Event)>, cfg: Config)
    requires Inv(r, cfg)
    ensures Inv(Run(r, events, cfg), cfg)
    decreases |events|
  {
    if events == [] {
    } else {
      StepKeeps(r, events[0].0, events[0].1, cfg);
      RunKeeps(Step(r, events[0].0, events[0].1, cfg), events[1..], cfg);
    }
  }

  /** No event opens a flight the recorder does not answer for, nor disowns an open one. */
  lemma StepOpensOwn(r: Recorder, dt: nat, e: Event, cfg: Config, f: int)
    requires Inv(r, cfg)
    requires IsOpenFlight(Step(r, dt, e, cfg).db, f) && f in Step(r, dt, e, cfg).h.others
    ensures IsOpenFlight(r.db, f) && f in r.h.others
  {
    StepAccounts(r, dt, e, cfg);
    assert f in r.db.flights ==> RowOk(r.db, r.h.others, f, r.clock, cfg.dist);
  }

  lemma {:induction false} RunOpensOwn(r: Recorder, events: seq<(nat, Event)>, cfg: Config, f: int)
    requires Inv(r, cfg)
    requires IsOpenFlight(Run(r, events, cfg).db, f) && f in Run(r, events, cfg).h.others
    ensures IsOpenFlight(r.db, f) && f in r.h.others
    decreases |events|
  {
    if events == [] {
    } else {
      var next := Step(r, events[0].0, events[0].1, cfg);
      StepKeeps(r, events[0].0, events[0].1, cfg);
      RunOpensOwn(next, events[1..], cfg, f);
      StepOpensOwn(r, events[0].0, events[0].1, cfg, f);
    }
  }

  /**
   * What that says of a run: open rows, state, totals, summaries, messages,
   * sessions, live session, cache, windows. `others` and `torn` may be any
   * flights of the database, all of them included.
   */
  lemma RunsAreSound(db: Stored, torn: set<int>, others: set<int>, clock: int, events: seq<(nat, Event)>, cfg: Config)
    requires StoredOk(db, others, clock, cfg.dist) && MessagesOk(Boot(db, torn, others, clock))
    ensures
      var r := Run(Boot(db, torn, others, clock), events, cfg);
      && (forall f, g :: IsOpenFlight(r.db, f) && IsOpenFlight(r.db, g) && f !in r.h.others && g !in r.h.others ==>
          f == g)
      && (forall f :: IsOpenFlight(r.db, f) && f in r.h.others ==> IsOpenFlight(db, f) && f in others)
      && (r.m.state.FLYING? <==> r.m.current.Some?)
      && (r.m.state.FLYING? ==>
            && IsLatestOpen(r.db, r.m.current.value) && r.m.current.value !in r.h.others
            && PointsOf(r) != [] && TotalsOk(r.m, PointsOf(r), cfg.dist))
      && (r.m.bootChecked && !r.m.state.FLYING? ==> OnlyOthersOpen(r))
      && (r.m.app.flightState == r.m.state && r.m.app.flightId == r.m.current)
      && (r.m.anchor.Some? <==> r.m.state.GROUND?)
      && (r.m.state.GROUND? ==> GS.SomeOpen(r.db.sessions) && r.m.live.Some?)
      && (r.m.live.Some? ==> (r.m.live == OpenSession(r.db.sessions) <==> !r.h.stale))
      && (r.m.live.Some? && r.h.stale ==> OpenSession(r.db.sessions) == Some(r.m.live.value.(legId := None)))
      && (forall i, j :: GS.IsOpen(r.db.sessions, i) && GS.IsOpen(r.db.sessions, j) ==> i == j)
      && (forall f :: f in r.db.flights && r.db.flights[f].summary.Some? && f !in r.h.others
            ==> f in r.db.points && Summarises(r.db.flights[f].summary.value, r.db.points[f], cfg.dist))
      && OncePerKey(r.db.messages)
      && (r.m.state.FLYING? ==> r.m.cache == LinkOf(r.db, r.m.current.value))
      && (r.m.state.FLYING? ==> forall i, j :: 0 <= i < j < |r.h.windows| ==> r.h.windows[i] < r.h.windows[j])
  {
    var start := Boot(db, torn, others, clock);
    assert Inv(start, cfg);
    RunKeeps(start, events, cfg);
    var r := Run(start, events, cfg);
    forall f | f in r.db.flights && r.db.flights[f].summary.Some? && f !in r.h.others
      ensures f in r.db.points && Summarises(r.db.flights[f].summary.value, r.db.points[f], cfg.dist)
    {
      assert RowOk(r.db, r.h.others, f, r.clock, cfg.dist);
    }
    forall f | IsOpenFlight(r.db, f) && f in r.h.others
      ensures IsOpenFlight(db, f) && f in others
    {
      RunOpensOwn(start, events, cfg, f);
    }
  }

  /**
   * A run that starts with no flight open, whatever else is in the database,
   * never has more than one open: the one being recorded, or, until a new
   * process has checked, the one its predecessor was recording.
   */
  lemma AtMostOneIsOpen(db: Stored, torn: set<int>, others: set<int>, clock: int, events: seq<(nat, Event)>,
                        cfg: Config)
    requires StoredOk(db, others, clock, cfg.dist) && MessagesOk(Boot(db, torn, others, clock))
    requires forall f :: !IsOpenFlight(db, f)
    ensures
      var r := Run(Boot(db, torn, others, clock), events, cfg);
      && (forall f, g :: IsOpenFlight(r.db, f) && IsOpenFlight(r.db, g) ==> f == g)
      && (r.m.state.FLYING? ==> forall f :: IsOpenFlight(r.db, f) <==> r.m.current == Some(f))
      && (r.m.bootChecked && !r.m.state.FLYING? ==> forall f :: !IsOpenFlight(r.db, f))
  {
    RunsAreSound(db, torn, others, clock, events, cfg);
  }

  /** The event at this place of the run tears the flight. */
  ghost predicate TornAt(r: Recorder, events: seq<(nat, Event)>, i: nat, cfg: Config, f: int) {
    i < |events| && Tears(Run(r, events[..i], cfg), events[i].0, events[i].1, cfg, f)
  }

  /** A flight is torn at the end of a run only if some event of the run tore it. */
  lemma {:induction false} SomeEventTore(r: Recorder, events: seq<(nat, Event)>, cfg: Config, f: int)
    requires f in Run(r, events, cfg).h.torn && f !in r.h.torn
    ensures exists i: nat :: TornAt(r, events, i, cfg, f)
    decreases |events|
  {
    if events == [] {
    } else {
      var next := Step(r, events[0].0, events[0].1, cfg);
      StepAccounts(r, events[0].0, events[0].1, cfg);
      if f in next.h.torn {
        assert events[..0] == [];
        assert TornAt(r, events, 0, cfg, f);
      } else {
        SomeEventTore(next, events[1..], cfg, f);
        var i: nat :| TornAt(next, events[1..], i, cfg, f);
        assert events[..i + 1][0] == events[0] && events[..i + 1][1..] == events[1..][..i];
        assert TornAt(r, events, i + 1, cfg, f);
      }
    }
  }

  /** The rows of one key in the messages table. */
  function Rows(messages: seq<Message>, k: Key): nat {
    if messages == [] then 0 else Rows(Init(messages), k) + if Last(messages).key == k then 1 else 0
  }

  lemma {:induction false} DistinctMeansOnce(messages: seq<Message>, k: Key)
    requires OncePerKey(messages)
    ensures Rows(messages, k) == if Said(messages, k) then 1 else 0
  {
    if messages == [] {
    } else {
      var init, last := Init(messages), Last(messages);
      DistinctMeansOnce(init, k);
      assert messages == init + [last];
      assert forall m :: m in init ==> m.key != last.key;
      assert last.key == k ==> last in messages;
    }
  }

  /**
   * Across restarts no OOOI event and no report window of a flight is filed
   * twice, and a closed flight none of whose inserts failed has exactly one
   * each of OUT, OFF, ON and IN.
   */
  lemma FiledOnce(r: Recorder, f: int, cfg: Config)
    requires Inv(r, cfg)
    ensures forall i, j :: 0 <= i < j < |r.db.messages| ==>
        KeyText(r.db.messages[i].key) != KeyText(r.db.messages[j].key)
    ensures forall e :: Rows(r.db.messages, Oooi(f, e)) <= 1
    ensures forall window :: Rows(r.db.messages, PositionReport(f, window)) <= 1
    ensures f in r.db.flights && r.db.flights[f].summary.Some? && f !in r.h.torn
      ==> forall e :: Rows(r.db.messages, Oooi(f, e)) == 1
  {
    forall i, j | 0 <= i < j < |r.db.messages|
      ensures KeyText(r.db.messages[i].key) != KeyText(r.db.messages[j].key)
    {
      KeysAreInjective(r.db.messages[i].key, r.db.messages[j].key);
    }
    forall k
      ensures Rows(r.db.messages, k) == if Said(r.db.messages, k) then 1 else 0
    {
      DistinctMeansOnce(r.db.messages, k);
    }
    forall e | f in r.db.flights && r.db.flights[f].summary.Some? && f !in r.h.torn
      ensures Said(r.db.messages, Oooi(f, e))
    {
      match e
      case OUT =>
      case OFF =>
      case ON =>
      case IN =>
    }
  }

  /** A closed flight that no event of the run tore, and that was not torn before, has all four OOOI rows, once each. */
  lemma UntornMeansFiled(db: Stored, torn: set<int>, others: set<int>, clock: int, events: seq<(nat, Event)>,
                         cfg: Config, f: int)
    requires StoredOk(db, others, clock, cfg.dist) && MessagesOk(Boot(db, torn, others, clock))
    requires
      var r := Run(Boot(db, torn, others, clock), events, cfg);
      f in r.db.flights && r.db.flights[f].summary.Some?
    requires f !in torn && forall i: nat :: !TornAt(Boot(db, torn, others, clock), events, i, cfg, f)
    ensures forall e :: Rows(Run(Boot(db, torn, others, clock), events, cfg).db.messages, Oooi(f, e)) == 1
  {
    var start := Boot(db, torn, others, clock);
    var r := Run(start, events, cfg);
    RunKeeps(start, events, cfg);
    if f in r.h.torn {
      SomeEventTore(start, events, cfg, f);
    }
    FiledOnce(r, f, cfg);
  }

  /**
   * While flying: never more than the stored gaps of at most a minute, and those
   * never more than the time in the air.
   */
  lemma ActiveTimeBounds(r: Recorder, cfg: Config)
    requires Inv(r, cfg) && r.m.state.FLYING?
    ensures r.m.totals.activeMs == UnbrokenMs(r.h.log)
    ensures 0 <= r.m.totals.activeMs <= ReseededMs(Times(PointsOf(r))) <= Last(PointsOf(r)).ts - PointsOf(r)[0].ts
    ensures FinalActiveMs(r.m, r.clock) <= r.clock - PointsOf(r)[0].ts
  {
    var points := PointsOf(r);
    assert RowOk(r.db, r.h.others, r.m.current.value, r.clock, cfg.dist);
    ReseededBounds(Times(points));
    UnbrokenBounds(r.h.log);
    assert Times(points)[0] == points[0].ts && Last(Times(points)) == Last(points).ts;
  }

  /** Rebuilt and kept totals that agree go on agreeing, whatever the clocks. */
  predicate SameTrack(t: Totals, u: Totals) {
    && t.distanceNm == u.distanceNm && t.pointCount == u.pointCount && t.lastPoint == u.lastPoint
    && t.maxAltitudeFt == u.maxAltitudeFt && t.maxAirspeedKts == u.maxAirspeedKts
  }

  lemma SameTrackExtends(t: Totals, u: Totals, frame: Frame, now: int, dist: Distance)
    requires SameTrack(t, u)
    ensures SameTrack(Extended(t, true, frame, now, dist), Extended(u, true, frame, now, dist))
    ensures Extended(t, true, frame, now, dist).activeMs == t.activeMs
  {}

  /** What a dead process had counted, its successor rebuilds. */
  lemma RebuiltIsSameTrack(r: Recorder, frame: Frame, cfg: Config)
    requires Inv(r, cfg) && r.m.state.FLYING?
    ensures
      var f := r.m.current.value;
      SameTrack(Rebuilt(r.db.flights[f], PointsOf(r), frame, r.clock, cfg.dist), r.m.totals)
  {}

  /** The first frame a new process sees in flight takes the open flight up again. */
  lemma FirstFrameResumes(r: Recorder, frame: Frame, w: World, cfg: Config)
    requires Inv(r, cfg) && r.m.state.FLYING? && frame.simRunning != 0
    ensures
      var resumed := ResumeFlight(Booted(Seen(Restarted(r), frame)), r.m.current.value, frame, cfg, w.filed);
      && resumed.m.state.FLYING?
      && OnFrame(Restarted(r), frame, w, cfg) == resumed
  {
    var f, seen := r.m.current.value, Seen(Restarted(r), frame);
    RestartKeeps(r, cfg);
    assert IsLatestOpen(r.db, f);
    assert forall g :: IsLatestOpen(seen.db, g) ==> g == f;
    assert CheckAirborne(seen, frame, w, cfg) == ResumeFlight(Booted(seen), f, frame, cfg, w.filed);
    ResumeFlightKeeps(Booted(seen), f, frame, cfg, w.filed);
  }

  /**
   * A process that dies in flight and comes back records, on its first frame,
   * what the old process would have recorded after an interruption: the same
   * flight, track, distance, maxima and position. Its counted time is every
   * stored gap of at most a minute.
   */
  lemma RestartLosesOnlyTime(r: Recorder, frame: Frame, w: World, cfg: Config)
    requires Inv(r, cfg) && r.m.state.FLYING? && frame.simRunning != 0
    ensures
      var kept := Write(Interrupt(r), frame, cfg);
      var back := OnFrame(Restarted(r), frame, w, cfg);
      && back.m.state.FLYING? && back.m.current == r.m.current
      && back.db.points == kept.db.points && back.db.flights == kept.db.flights
      && SameTrack(back.m.totals, kept.m.totals)
      && back.m.totals.activeMs == ReseededMs(Times(PointsOf(r))) >= kept.m.totals.activeMs
      && back.m.cache == kept.m.cache
  {
    var f, booted := r.m.current.value, Booted(Seen(Restarted(r), frame));
    var loaded := Reloaded(booted, f, frame, cfg);
    FirstFrameResumes(r, frame, w, cfg);
    ReloadedIsReady(booted, f, frame, cfg);
    WritePointTotals(loaded, frame, cfg, w.filed);
    RebuiltIsSameTrack(r, frame, cfg);
    SameTrackExtends(loaded.m.totals, r.m.totals, frame, r.clock, cfg.dist);
    SameTrackExtends(r.m.totals, r.m.totals, frame, r.clock, cfg.dist);
    ActiveTimeBounds(r, cfg);
  }

  /**
   * On a resume the way from the last known place, the departure when there is
   * no point yet, is added exactly when there are points or there is no way.
   */
  lemma DepartureIsNeverMeasured(r: Recorder, f: int, frame: Frame, cfg: Config, filed: bool)
    requires f in r.db.flights && f in r.db.points
    ensures
      var rebuilt := Rebuilt(r.db.flights[f], r.db.points[f], frame, r.clock, cfg.dist);
      var back, way := ResumeFlight(r, f, frame, cfg, filed), cfg.dist(rebuilt.lastPoint, frame.at);
      && (r.db.points[f] == [] ==> rebuilt.lastPoint == r.db.flights[f].departure)
      && (back.m.totals.distanceNm == rebuilt.distanceNm + way <==> r.db.points[f] != [] || way == 0.0)
      && back.m.totals.lastPoint == frame.at && back.m.totals.pointCount == |r.db.points[f]| + 1
  {
    WritePointTotals(Reloaded(r, f, frame, cfg), frame, cfg, filed);
  }

  lemma TakesOff(r: Recorder, frame: Frame, w: World, cfg: Config)
    requires StoredOk(r.db, r.h.others, r.clock, cfg.dist) && MessagesOk(r)
    requires r.m.bootChecked && r.m.lastFrame.Some? && OnlyOthersOpen(r)
    ensures
      var after := StartFlight(r, frame, w, cfg);
      after.m.state.FLYING? && after.m.current == Some(r.db.nextFlight) && !GS.SomeOpen(after.db.sessions)
  {
    StartFlightKeeps(r, frame, w, cfg);
  }

  /** The machine about to take off, its third airborne frame counted. */
  function Rotating(r: Recorder, frame: Frame): Recorder {
    Counted(Seen(r, frame), r.m.airborneStreak + 1)
  }

  lemma RotatingIsReady(r: Recorder, frame: Frame, cfg: Config)
    requires Inv(r, cfg) && WouldTakeOff(r, frame, cfg)
    ensures
      var rotating := Rotating(r, frame);
      && StoredOk(rotating.db, rotating.h.others, rotating.clock, cfg.dist) && MessagesOk(rotating)
      && rotating.m.bootChecked && rotating.m.lastFrame.Some? && OnlyOthersOpen(rotating)
  {}

  lemma ThirdFrameTakesOff(r: Recorder, frame: Frame, w: World, cfg: Config)
    requires Inv(r, cfg) && WouldTakeOff(r, frame, cfg)
    ensures OnFrame(r, frame, w, cfg) == StartFlight(Rotating(r, frame), frame, w, cfg)
  {
    RotatingIsReady(r, frame, cfg);
    TakesOff(Rotating(r, frame), frame, w, cfg);
    assert Booted(Seen(r, frame)) == Seen(r, frame);
    assert CheckAirborne(Seen(r, frame), frame, w, cfg) == StartFlight(Rotating(r, frame), frame, w, cfg);
  }

  /** A takeoff leaves no ground session open. */
  lemma TakeoffClosesGround(r: Recorder, frame: Frame, w: World, cfg: Config)
    requires Inv(r, cfg) && WouldTakeOff(r, frame, cfg)
    ensures
      var after := OnFrame(r, frame, w, cfg);
      && after.m.state.FLYING? && after.m.current == Some(r.db.nextFlight)
      && !GS.SomeOpen(after.db.sessions)
  {
    RotatingIsReady(r, frame, cfg);
    ThirdFrameTakesOff(r, frame, w, cfg);
    TakesOff(Rotating(r, frame), frame, w, cfg);
  }
}
