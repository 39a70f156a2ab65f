/**
 * What one event can do to the recorder's history and to the open flights:
 * which flight it opens, disowns or tears, and when it makes the live session
 * stale. None of this needs the invariant.
 */
module RecorderAccounts {
  import opened Wrappers
  import opened Track
  import opened AcarsKeys
  import opened RecorderModel
  import GS = GroundSessions

  // ---------------------------------------------------------------- the handlers

  /**
   * A handler disowns no flight, opens none but a new one, and tears none but
   * the one it records, before or after, and that only when inserts fail.
   */
  ghost predicate Accounted(r: Recorder, after: Recorder, filed: bool) {
    && after.h.others <= r.h.others
    && (after.h.stale ==> r.h.stale)
    && (forall f :: IsOpenFlight(after.db, f) ==> IsOpenFlight(r.db, f) || f == r.db.nextFlight)
    && (forall f :: f in after.h.torn && f !in r.h.torn ==>
          !filed && (r.m.current == Some(f) || after.m.current == Some(f)))
  }

  /** One handler after another, while the flight stays the same and no new one begins. */
  lemma ThenAccounted(r: Recorder, between: Recorder, after: Recorder, filed: bool)
    requires Accounted(r, between, filed) && Accounted(between, after, filed)
    requires between.m.current == r.m.current && between.db.nextFlight == r.db.nextFlight
    ensures Accounted(r, after, filed)
  {}

  lemma FileAccounts(r: Recorder, key: Key, filed: bool)
    ensures
      var after := File(r, key, filed);
      && after == r.(db := r.db.(messages := after.db.messages), h := r.h.(torn := after.h.torn))
      && after.h.torn == if filed then r.h.torn else r.h.torn + FlightsOf(key)
  {}

  lemma WritePointAccounts(r: Recorder, frame: Frame, cfg: Config, filed: bool)
    ensures
      var after := WritePoint(r, frame, cfg, filed);
      && Accounted(r, after, filed)
      && after.m.current == r.m.current && after.db.nextFlight == r.db.nextFlight && after.db.flights == r.db.flights
  {}

  lemma FileOnAccounts(r: Recorder, filed: bool)
    ensures
      var after := FileOn(r, filed);
      && Accounted(r, after, filed)
      && after.m.current == r.m.current && after.db.nextFlight == r.db.nextFlight
  {}

  lemma LandingAccounts(r: Recorder, filed: bool)
    ensures Accounted(r, TellLanding(r, filed), filed)
    ensures TellLanding(r, filed).m.current == r.m.current
  {
    FileOnAccounts(r, filed);
    if r.m.current.Some? {
      FileAccounts(FileOn(r, filed), Oooi(r.m.current.value, IN), filed);
    }
  }

  lemma EndFlightAccounts(r: Recorder, frame: Frame, cfg: Config, filed: bool)
    ensures Accounted(r, EndFlight(r, frame, cfg, filed), filed)
    ensures EndFlight(r, frame, cfg, filed).m.current == None
  {
    if r.m.current.Some? {
      var judged := RecordArrival(CloseRow(r, frame), frame, cfg.dist);
      LandingAccounts(judged, filed);
      assert forall f :: IsOpenFlight(judged.db, f) ==> IsOpenFlight(r.db, f);
    }
  }

  lemma StartFlightAccounts(r: Recorder, frame: Frame, w: World, cfg: Config)
    ensures Accounted(r, StartFlight(r, frame, w, cfg), w.filed)
  {
    var f := r.db.nextFlight;
    var begun := Takeoff(TakeoffWrites(r, frame, w, 3), f, frame);
    FileAccounts(begun, Oooi(f, OUT), w.filed);
    FileAccounts(File(begun, Oooi(f, OUT), w.filed), Oooi(f, OFF), w.filed);
    WritePointAccounts(TakenOff(r, frame, w), frame, cfg, w.filed);
  }

  lemma ResumeFlightAccounts(r: Recorder, f: int, frame: Frame, cfg: Config, filed: bool)
    requires f in r.db.flights && f in r.db.points
    ensures Accounted(r, ResumeFlight(r, f, frame, cfg, filed), filed)
  {
    WritePointAccounts(Reloaded(r, f, frame, cfg), frame, cfg, filed);
  }

  lemma CheckAirborneAccounts(r: Recorder, frame: Frame, w: World, cfg: Config)
    ensures Accounted(r, CheckAirborne(r, frame, w, cfg), w.filed)
  {
    var booted := Booted(r);
    StartFlightAccounts(Counted(booted, NextStreak(booted, frame)), frame, w, cfg);
    forall f | f in r.db.flights && f in r.db.points
      ensures Accounted(r, ResumeFlight(booted, f, frame, cfg, w.filed), w.filed)
    {
      ResumeFlightAccounts(booted, f, frame, cfg, w.filed);
    }
  }

  lemma SettleAccounts(r: Recorder, frame: Frame, cfg: Config, filed: bool)
    ensures Accounted(r, Settle(r, frame, cfg, filed), filed)
  {
    var counted := WithStreak(r, r.m.landedStreak + 1);
    if frame.onGround && frame.groundSpeedKnots < 5.0 && r.m.landedStreak + 1 >= LANDED_DEBOUNCE_FRAMES {
      assert Settle(r, frame, cfg, filed) == EndFlight(counted, frame, cfg, filed);
      EndFlightAccounts(counted, frame, cfg, filed);
    }
  }

  lemma FrameFlyingAccounts(r: Recorder, frame: Frame, w: World, cfg: Config)
    ensures Accounted(r, FrameFlying(r, frame, w, cfg), w.filed)
  {
    if frame.simRunning != 3 && !r.m.paused {
      var recorded := RecordIfDue(r, frame, cfg, w.filed);
      var touched := if frame.onGround then FileOn(recorded, w.filed) else recorded;
      WritePointAccounts(r, frame, cfg, w.filed);
      FileOnAccounts(recorded, w.filed);
      ThenAccounted(r, recorded, touched, w.filed);
      SettleAccounts(touched, frame, cfg, w.filed);
      ThenAccounted(r, touched, Settle(touched, frame, cfg, w.filed), w.filed);
    }
  }

  lemma OnGroundAccounts(r: Recorder, frame: Frame, w: World, cfg: Config)
    ensures Accounted(r, FrameIdle(r, frame, w, cfg), w.filed)
    ensures Accounted(r, FrameGround(r, frame, w, cfg), w.filed)
  {
    CheckAirborneAccounts(r, frame, w, cfg);
  }

  lemma OnFrameAccounts(r: Recorder, frame: Frame, w: World, cfg: Config)
    ensures Accounted(r, OnFrame(r, frame, w, cfg), w.filed)
  {
    var seen := Seen(r, frame);
    if r.m.state.FLYING? {
      if frame.simRunning == 0 {
        EndFlightAccounts(seen, frame, cfg, w.filed);
      } else {
        FrameFlyingAccounts(seen, frame, w, cfg);
      }
    } else if frame.simRunning != 0 {
      OnGroundAccounts(seen, frame, w, cfg);
    }
  }

  lemma OnLossAccounts(r: Recorder, reason: GS.EndReason, cfg: Config, filed: bool)
    ensures
      var after := OnLoss(r, reason, cfg, filed);
      && Accounted(r, after, filed)
      && (after.m.current == r.m.current || after.m.current == None)
  {
    if r.m.state.FLYING? && r.m.lastFrame.Some? {
      EndFlightAccounts(r, r.m.lastFrame.value, cfg, filed);
      assert OnLoss(r, reason, cfg, filed) == EndFlight(r, r.m.lastFrame.value, cfg, filed);
    }
  }

  // ---------------------------------------------------------------- deletions

  lemma {:induction false} TornByAre(messages: seq<Message>, flights: set<int>, legs: set<int>, f: int)
    ensures f in TornBy(messages, flights, legs) <==>
      exists m :: m in messages && Lost(m, flights, legs) && f in FlightsOf(m.key)
  {
    if messages == [] {
    } else {
      TornByAre(Init(messages), flights, legs, f);
      assert messages == Init(messages) + [Last(messages)];
    }
  }

  /** A message is about one flight at most, so deleting flights tears no other. */
  lemma DeletedTearOnlyThemselves(messages: seq<Message>, flights: set<int>)
    ensures TornBy(messages, flights, {}) <= flights
  {
    forall f | f in TornBy(messages, flights, {})
      ensures f in flights
    {
      TornByAre(messages, flights, {}, f);
      var m :| m in messages && Lost(m, flights, {}) && f in FlightsOf(m.key);
      var g :| g in FlightsOf(m.key) * flights;
      assert g == f;
    }
  }

  // ---------------------------------------------------------------- one event

  /**
   * The ways a flight can be left without one of its messages: a failing insert
   * while it is recorded, a death in its takeoff or landing, the deletion of a
   * leg one of its messages was filed under, and its own deletion, merging or
   * making by a merge.
   */
  ghost predicate Tears(r: Recorder, dt: nat, e: Event, cfg: Config, f: int) {
    match e
    case Telemetry(_, w) => !w.filed && (r.m.current == Some(f) || Step(r, dt, e, cfg).m.current == Some(f))
    case SimCrash(filed) => !filed && r.m.current == Some(f)
    case Disconnect(filed) => !filed && r.m.current == Some(f)
    case DeathAtTakeoff(frame, _, _) => WouldTakeOff(r, frame, cfg) && f == r.db.nextFlight
    case DeathAtLanding => r.m.current == Some(f)
    case PlanChange(links, legs) =>
      && PlansFit(r.db, links, legs)
      && exists m :: m in r.db.messages && Lost(m, {}, r.db.legs.Keys - legs.Keys) && f in FlightsOf(m.key)
    case FlightDeletion(g) => f == g
    case Combination(a, b) => f in {a, b, r.db.nextFlight}
    case _ => false
  }

  lemma EditAccounts(r: Recorder, e: Event, cfg: Config)
    requires e.PlanChange? || e.FlightDeletion? || e.Combination?
    ensures
      var after := Handle(r, e, cfg);
      && (forall f :: f in after.h.others && f !in r.h.others ==> e.Combination? && f == r.db.nextFlight)
      && (after.h.stale && !r.h.stale ==> e.PlanChange? && NamesOne(r.m.live, r.db.legs.Keys - e.legs.Keys))
      && (forall f :: IsOpenFlight(after.db, f) ==> IsOpenFlight(r.db, f))
      && (forall f :: f in after.h.torn && f !in r.h.torn ==> Tears(r, 0, e, cfg, f))
  {
    match e
    case PlanChange(links, legs) =>
      forall f | f in TornBy(r.db.messages, {}, r.db.legs.Keys - legs.Keys)
        ensures exists m :: m in r.db.messages && Lost(m, {}, r.db.legs.Keys - legs.Keys) && f in FlightsOf(m.key)
      {
        TornByAre(r.db.messages, {}, r.db.legs.Keys - legs.Keys, f);
      }
    case FlightDeletion(f) => DeletedTearOnlyThemselves(r.db.messages, {f});
    case Combination(a, b) => DeletedTearOnlyThemselves(r.db.messages, {a, b});
  }

  /**
   * The recorder disowns a flight only when it was merged into being, the live
   * session goes stale only when the leg it names is deleted, the only flight
   * an event can open is a new one, and flights are torn in the ways listed.
   */
  lemma StepAccounts(r: Recorder, dt: nat, e: Event, cfg: Config)
    ensures
      var after := Step(r, dt, e, cfg);
      && (forall f :: f in after.h.others && f !in r.h.others ==> e.Combination? && f == r.db.nextFlight)
      && (after.h.stale && !r.h.stale ==> e.PlanChange? && NamesOne(r.m.live, r.db.legs.Keys - e.legs.Keys))
      && (forall f :: IsOpenFlight(after.db, f) && !IsOpenFlight(r.db, f) ==> f == r.db.nextFlight && !e.Combination?)
      && (forall f :: f in after.h.torn && f !in r.h.torn ==> Tears(r, dt, e, cfg, f))
  {
    var later := Later(r, dt);
    match e
    case Telemetry(frame, w) => OnFrameAccounts(later, frame, w, cfg);
    case SimCrash(filed) => OnLossAccounts(later, GS.CrashEnd, cfg, filed);
    case Disconnect(filed) => OnLossAccounts(later, GS.SimExit, cfg, filed);
    case PlanChange(_, _) => EditAccounts(later, e, cfg);
    case FlightDeletion(_) => EditAccounts(later, e, cfg);
    case Combination(_, _) => EditAccounts(later, e, cfg);
    case _ =>
  }
}
