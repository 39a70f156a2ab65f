/**
 * What a poll asks for and what it leaves out, told from the plans, the
 * replica's rows and the clock: whatever a leg or a request names and the
 * replica cannot answer is in the answer, nothing else is but the fixes of
 * broken airways, and time and space run out exactly when they should.
 */
module DemandPromises {
  import opened Wrappers
  import opened DemandModel
  import opened DemandAnswer

  // ---------------------------------------------------------------- what need not be asked

  /** The replica has a row for this facility that will do. */
  predicate Usable(t: Contents, kind: Kind, ident: string, region: string) {
    match kind
    case A => ident in t.detailedAirports
    case W => FixId(ident, region) in t.routedWaypoints
    case _ => FacilityId(kind, ident, region) in t.detailedNavaids
  }

  /** It has one, or knows that the simulator has none. */
  predicate Settled(t: Contents, kind: Kind, ident: string, region: string) {
    Usable(t, kind, ident, region) || FacilityId(kind, ident, region) in t.absent
  }

  /** A want is held when it is settled in the region it names, or in some region when it names none. */
  lemma HeldExactlyWhen(t: Contents, w: Want)
    ensures Holds(t, w) <==>
      if w.kind.A? || w.region.None?
      then exists region :: Settled(t, w.kind, w.ident, region)
      else Settled(t, w.kind, w.ident, w.region.value)
  {
    if w.kind.A? || w.region.None? {
      assert forall f ::
        (f in t.absent && f.kind == w.kind && f.ident == w.ident) ==> Settled(t, w.kind, w.ident, f.region);
      assert forall f :: f in t.routedWaypoints && w.kind.W? && f.ident == w.ident ==> Settled(t, W, w.ident, f.region);
      assert forall f ::
        (f in t.detailedNavaids && f.kind == w.kind && f.ident == w.ident && (w.kind.V? || w.kind.N?))
        ==> Settled(t, w.kind, w.ident, f.region);
      assert w.kind.A? && w.ident in t.detailedAirports ==> Settled(t, A, w.ident, "");
    }
  }

  /** The sidecar has not parked it, and there is no replica or the replica does not hold it. */
  ghost predicate IsOpen(f: Filter, w: Want) {
    && (f.skip.Some? && w.kind.A? ==> w.ident !in f.skip.value.airports)
    && (f.skip.Some? && !w.kind.A? ==> w.ident !in f.skip.value.waypoints)
    && (f.replica.Some? ==> !Holds(f.replica.value, w))
  }

  lemma AcceptsOpen(f: Filter, w: Want)
    ensures Accepts(f, w) <==> IsOpen(f, w)
  {}

  // ---------------------------------------------------------------- what plans and requests name

  /** Trimmed and upper-cased; an empty region is none. */
  predicate IsRegion(l: Lookups, named: Option<string>, region: Option<string>) {
    region == if named.None? || l.norm(named.value) == "" then None else Some(l.norm(named.value))
  }

  predicate IsAirport(l: Lookups, ident: string, w: Want) {
    w.kind.A? && w.ident == l.norm(ident) && w.region.None?
  }

  predicate IsFix(l: Lookups, ident: string, named: Option<string>, w: Want) {
    w.ident == l.norm(ident) && IsRegion(l, named, w.region)
  }

  /** A waypoint of a plan names the facility of its type; any other type names none. */
  predicate WaypointNames(l: Lookups, wp: PlannedWaypoint, w: Want) {
    var typeName := l.norm(wp.typeName);
    || (typeName == "AIRPORT" && IsAirport(l, wp.ident, w))
    || (typeName == "WAYPOINT" && w.kind.W? && IsFix(l, wp.ident, wp.region, w))
    || (typeName == "VOR" && w.kind.V? && IsFix(l, wp.ident, wp.region, w))
    || (typeName == "NDB" && w.kind.N? && IsFix(l, wp.ident, wp.region, w))
  }

  ghost predicate LegNames(l: Lookups, leg: Leg, w: Want) {
    || (leg.departureIsAirport && IsAirport(l, leg.departure, w))
    || (leg.destinationIsAirport && IsAirport(l, leg.destination, w))
    || (exists ident :: ident in leg.alternates && IsAirport(l, ident, w))
    || (exists wp :: wp in leg.waypoints && WaypointNames(l, wp, w))
  }

  predicate RequestNames(l: Lookups, r: Request, w: Want) {
    if r.isAirport then IsAirport(l, r.ident, w) else w.kind.W? && IsFix(l, r.ident, r.region, w)
  }

  lemma WaypointNamed(l: Lookups, wp: PlannedWaypoint, w: Want)
    ensures WaypointWant(l, wp) == Some(w) <==> WaypointNames(l, wp, w)
  {}

  lemma {:induction false} WaypointsNamed(l: Lookups, ws: seq<PlannedWaypoint>, w: Want)
    ensures w in WaypointWants(l, ws) <==> exists wp :: wp in ws && WaypointNames(l, wp, w)
    decreases |ws|
  {
    if ws == [] {
    } else {
      var last := ws[|ws| - 1];
      WaypointsNamed(l, ws[..|ws| - 1], w);
      WaypointNamed(l, last, w);
      assert ws == ws[..|ws| - 1] + [last];
    }
  }

  lemma AlternatesNamed(l: Lookups, idents: seq<string>, w: Want)
    ensures w in AlternateWants(l, idents) <==> exists ident :: ident in idents && IsAirport(l, ident, w)
  {
    forall ident | ident in idents && IsAirport(l, ident, w)
      ensures w in AlternateWants(l, idents)
    {
      var i :| 0 <= i < |idents| && idents[i] == ident;
      assert AlternateWants(l, idents)[i] == w;
    }
    if w in AlternateWants(l, idents) {
      var i :| 0 <= i < |idents| && AlternateWants(l, idents)[i] == w;
      assert idents[i] in idents && IsAirport(l, idents[i], w);
    }
  }

  /** A leg wants exactly the airports and fixes it names. */
  lemma LegWantsWhatItNames(l: Lookups, leg: Leg, w: Want)
    ensures w in LegWants(l, leg) <==> LegNames(l, leg, w)
  {
    WaypointsNamed(l, leg.waypoints, w);
    AlternatesNamed(l, leg.alternates, w);
  }

  lemma RequestWantsWhatItNames(l: Lookups, r: Request, w: Want)
    ensures w == WantOfRequest(l, r) <==> RequestNames(l, r, w)
  {}

  /** A request goes when it is not parked and the replica holds what it names. */
  lemma AnsweredExactlyWhen(l: Lookups, f: Filter, r: Request, w: Want)
    requires RequestNames(l, r, w)
    ensures Answered(l, f, r) <==>
      && (f.skip.Some? ==> w.ident !in (if r.isAirport then f.skip.value.airports else f.skip.value.waypoints))
      && f.replica.Some? && Holds(f.replica.value, w)
  {
    RequestWantsWhatItNames(l, r, w);
  }

  // ---------------------------------------------------------------- keys

  function Tail(w: Want): string {
    w.ident + "|" + w.region.GetOr("")
  }

  lemma StartsWithBar(a: string, b: string)
    requires '|' !in a
    ensures (a + "|" + b)[0] == '|' <==> a == ""
  {
    if a != "" {
      assert (a + "|" + b)[0] == a[0];
    }
  }

  lemma {:induction false} BarSplits(a: string, b: string, c: string, d: string)
    requires '|' !in a && '|' !in c && a + "|" + b == c + "|" + d
    ensures a == c && b == d
    decreases |a|
  {
    StartsWithBar(a, b);
    StartsWithBar(c, d);
    if a == "" {
      assert b == ("|" + b)[1..] == ("|" + d)[1..] == d;
    } else {
      assert a[1..] + "|" + b == (a + "|" + b)[1..] == (c + "|" + d)[1..] == c[1..] + "|" + d;
      assert a[0] == (a + "|" + b)[0] == (c + "|" + d)[0] == c[0];
      BarSplits(a[1..], b, c[1..], d);
    }
  }

  /** Wants with one key are of one kind, and the same want when no ident has a bar and no region is empty. */
  lemma KeysTell(v: Want, w: Want)
    requires Key(v) == Key(w)
    ensures v.kind == w.kind
    ensures '|' !in v.ident && '|' !in w.ident && v.region != Some("") && w.region != Some("") ==> v == w
  {
    assert Key(v) == KindName(v.kind) + "|" + Tail(v) && Key(w) == KindName(w.kind) + "|" + Tail(w);
    BarSplits(KindName(v.kind), Tail(v), KindName(w.kind), Tail(w));
    if '|' !in v.ident && '|' !in w.ident {
      BarSplits(v.ident, v.region.GetOr(""), w.ident, w.region.GetOr(""));
    }
  }

  // ---------------------------------------------------------------- nothing is missing

  ghost predicate Named(p: Poll, w: Want) {
    || (exists r :: r in p.requests && RequestNames(p.lookups, r, w))
    || (exists leg :: leg in p.legs && LegNames(p.lookups, leg, w))
  }

  /**
   * When the answer says there is no more, every airport and fix that a request
   * or a scanned leg names, and that is neither parked nor held, is in it.
   */
  lemma WhatIsNamedIsAnswered(p: Poll, offset: nat, w: Want)
    requires !AnswerOf(Gathered(p, offset).c).more
    requires Named(p, w) && IsOpen(p.filter, w)
    ensures exists v :: v in AnswerOf(Gathered(p, offset).c).wants && Key(v) == Key(w) && v.kind == w.kind
  {
    forall r | r in p.requests
      ensures RequestNames(p.lookups, r, w) ==> w == WantOfRequest(p.lookups, r)
    {
      RequestWantsWhatItNames(p.lookups, r, w);
    }
    forall leg | leg in p.legs
      ensures LegNames(p.lookups, leg, w) ==> w in LegWants(p.lookups, leg)
    {
      LegWantsWhatItNames(p.lookups, leg, w);
    }
    AcceptsOpen(p.filter, w);
    NothingIsMissing(p, offset, w);
    var v :| v in AnswerOf(Gathered(p, offset).c).wants && Key(v) == Key(w);
    KeysTell(v, w);
  }

  /** There is more exactly when over fifty were collected, and the answer is the first fifty of them. */
  lemma MoreExactlyWhen(c: Collected)
    ensures
      var all, a := c.primary + c.gaps + c.navaids, AnswerOf(c);
      && (a.more <==> |all| > 50) && |a.wants| == (if |all| > 50 then 50 else |all|) && a.wants == all[..|a.wants|]
  {}

  // ---------------------------------------------------------------- which pairs are looked at

  /** The last planned position before this waypoint, or the departure. */
  function Anchor(leg: Leg, i: nat): Position
    requires i <= |leg.waypoints|
  {
    if i == 0 then leg.departureAt
    else if ValidCoordinate(leg.waypoints[i - 1].at) then leg.waypoints[i - 1].at
    else Anchor(leg, i - 1)
  }

  function EndAt(l: Lookups, t: Contents, leg: Leg, i: nat): Option<End>
    requires i < |leg.waypoints|
  {
    l.resolve(t, leg.waypoints[i], Anchor(leg, i))
  }

  ghost predicate SomePosition(leg: Leg, i: nat)
    requires i <= |leg.waypoints|
  {
    exists j :: 0 <= j < i && ValidCoordinate(leg.waypoints[j].at)
  }

  /** Waypoint `i` and the one before it stand for two different fixes, and the plan flies an airway there. */
  ghost predicate IsPair(l: Lookups, t: Contents, leg: Leg, i: nat, pair: Pair) {
    && 0 < i < |leg.waypoints|
    && var wp, from, found := leg.waypoints[i], EndAt(l, t, leg, i - 1), EndAt(l, t, leg, i);
    && from.Some? && found.Some? && from.value.key != found.value.key
    && l.attempted(leg, wp, leg.waypoints[i - 1].typeName == "AIRPORT", SomePosition(leg, i))
    && pair == Pair(wp.airway.GetOr(""), from.value, found.value)
  }

  ghost function CursorAt(l: Lookups, t: Contents, leg: Leg, i: nat): Cursor
    requires i <= |leg.waypoints|
  {
    Cursor(Anchor(leg, i), if i == 0 then None else EndAt(l, t, leg, i - 1),
           i > 0 && leg.waypoints[i - 1].typeName == "AIRPORT", SomePosition(leg, i))
  }

  lemma CursorMoves(l: Lookups, t: Contents, leg: Leg, i: nat)
    requires i < |leg.waypoints|
    ensures Advance(l, t, CursorAt(l, t, leg, i), leg.waypoints[i]) == CursorAt(l, t, leg, i + 1)
  {}

  lemma {:induction false} PairsFromHere(l: Lookups, t: Contents, leg: Leg, i: nat, pair: Pair)
    requires i <= |leg.waypoints|
    ensures pair in PairsFrom(l, t, leg, CursorAt(l, t, leg, i), leg.waypoints[i..]) <==>
      exists k: nat :: i <= k && IsPair(l, t, leg, k, pair)
    decreases |leg.waypoints| - i
  {
    if i == |leg.waypoints| {
    } else {
      CursorMoves(l, t, leg, i);
      PairsFromHere(l, t, leg, i + 1, pair);
      var here := PairAt(l, t, leg, CursorAt(l, t, leg, i), leg.waypoints[i]);
      assert here == Some(pair) <==> IsPair(l, t, leg, i, pair);
      assert leg.waypoints[i..][1..] == leg.waypoints[i + 1..];
    }
  }

  /** The pairs of a leg are those of neighbouring waypoints, each end resolved near the last position before it. */
  lemma PairsExactly(l: Lookups, t: Contents, leg: Leg, pair: Pair)
    ensures pair in Pairs(l, t, leg) <==> exists k: nat :: IsPair(l, t, leg, k, pair)
  {
    assert Start(leg) == CursorAt(l, t, leg, 0);
    assert leg.waypoints[0..] == leg.waypoints;
    PairsFromHere(l, t, leg, 0, pair);
  }

  /** A usable position: on the globe, and not the point where both coordinates are zero. */
  lemma UsablePosition(p: Position)
    ensures ValidCoordinate(p) <==>
      !(p.lat < -90.0 || p.lat > 90.0 || p.lon < -180.0 || p.lon > 180.0) && p != Position(0.0, 0.0)
  {}

  // ---------------------------------------------------------------- the time of a pass

  /** How many questions about the time this leg asked. */
  lemma {:induction false} LegAsksInTime(x: Ctx, c: Collected, pairs: seq<Pair>, asked: nat, looked: nat)
    ensures
      var g := GapWants(x, c, pairs, asked, looked);
      && g.pairs >= looked && g.asked == asked + (g.pairs - looked) + (if g.outcome.Budget? then 1 else 0)
      && (g.outcome.Budget? ==> g.asked > 1 && x.clock(g.asked - 1) - x.clock(0) > 100)
      && (forall k :: asked <= k < asked + (g.pairs - looked) && k > 0 ==> x.clock(k) - x.clock(0) <= 100)
    decreases |pairs|
  {
    if pairs == [] {
    } else if OutOfTime(x.clock, asked) || Enough(LookAt(x, c, pairs[0])) {
    } else {
      LegAsksInTime(x, LookAt(x, c, pairs[0]), pairs[1..], asked + 1, looked + 1);
    }
  }

  /**
   * A pass is cut by the time exactly when some question after its first finds
   * more than a tenth of a second gone: no pair is looked at after that, and
   * none is left out before it.
   */
  lemma {:induction false} PassAsksInTime(x: Ctx, c: Collected, turns: seq<Turn>, asked: nat, offset: nat)
    returns (end: nat)
    ensures end >= asked
    ensures forall k :: asked <= k < end && k > 0 ==> x.clock(k) - x.clock(0) <= 100
    ensures GapPass(x, c, turns, asked, offset).outcome.Budget? ==> end > 0 && x.clock(end) - x.clock(0) > 100
    decreases |turns|
  {
    end := asked;
    if turns == [] || Enough(c) {
    } else {
      var leg := GapWants(x, c, turns[0].pairs, asked, 0);
      LegAsksInTime(x, c, turns[0].pairs, asked, 0);
      end := asked + leg.pairs;
      if leg.outcome.Done? {
        end := PassAsksInTime(x, leg.c, turns[1..], leg.asked, offset);
      }
    }
  }

  /** A leg counts as examined only when it has a pair. */
  lemma {:induction false} ExaminedHavePairs(x: Ctx, c: Collected, turns: seq<Turn>, asked: nat, offset: nat, i: int)
    requires i in GapPass(x, c, turns, asked, offset).examined
    ensures exists n :: 0 <= n < |turns| && turns[n].index == i && turns[n].pairs != []
    decreases |turns|
  {
    if turns == [] || Enough(c) {
    } else {
      var leg := GapWants(x, c, turns[0].pairs, asked, 0);
      LegAsksInTime(x, c, turns[0].pairs, asked, 0);
      if leg.pairs > 0 && turns[0].index == i {
        assert turns[0].pairs != [];
      } else {
        ExaminedHavePairs(x, leg.c, turns[1..], leg.asked, offset, i);
        var n :| 0 <= n < |turns[1..]| && turns[1..][n].index == i && turns[1..][n].pairs != [];
        assert turns[n + 1].index == i;
      }
    }
  }

  // ---------------------------------------------------------------- the nearest fixes

  /** Of the fixes a frontier could ask for, those it does ask for are nearest the far end, the smaller key first. */
  lemma NearestFirst(open: seq<OpenNode>, x: OpenNode, y: OpenNode)
    requires Chosen(open, x) && y in open && !Chosen(open, y)
    ensures x.dist <= y.dist && (x.dist == y.dist ==> !TextBefore(y.node.key, x.node.key))
  {
    if Precedes(y, x) {
      ChosenAreNearest(open, x, y);
    }
  }
}
