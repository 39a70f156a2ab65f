/**
 * Progress along the planned route of the flight in the air: the table of
 * distances to the destination, and the answer to "what is next, and how far".
 */
module RouteProgress {
  import opened Wrappers

  /** Distance from a position to the great circle through a segment, left uninterpreted. */
  type CrossTrack = (Position, Position, Position) -> real

  datatype Waypoint = Waypoint(ident: string, at: Position)

  datatype Status = Status(nextIdent: string, nextIndex: int, remainingNm: real)

  function RouteLength(route: seq<Waypoint>, dist: Distance): real {
    if |route| < 2 then 0.0
    else dist(route[0].at, route[1].at) + RouteLength(route[1..], dist)
  }

  // ---------------------------------------------------------------- the table

  ghost predicate IsTable(table: seq<real>, waypoints: seq<Waypoint>, dist: Distance) {
    && |table| == |waypoints|
    && forall i :: 0 <= i < |waypoints| ==> table[i] == RouteLength(waypoints[i..], dist)
  }

  /** Filled from the destination backwards. */
  method BuildRemaining(waypoints: seq<Waypoint>, dist: Distance) returns (remainingFrom: array<real>)
    ensures fresh(remainingFrom) && remainingFrom.Length == |waypoints|
    ensures IsTable(remainingFrom[..], waypoints, dist)
  {
    remainingFrom := new real[|waypoints|](_ => 0.0);
    if |waypoints| < 2 {
      return;
    }
    for i := |waypoints| - 1 downto 0
      invariant forall k :: i <= k < |waypoints| ==> remainingFrom[k] == RouteLength(waypoints[k..], dist)
    {
      assert waypoints[i..][1..] == waypoints[i + 1..];
      remainingFrom[i] := remainingFrom[i + 1] + dist(waypoints[i].at, waypoints[i + 1].at);
    }
  }

  /** Flown plus remaining is the whole route, at every waypoint. */
  lemma {:induction false} FlownPlusRemaining(route: seq<Waypoint>, i: nat, dist: Distance)
    requires i < |route|
    ensures RouteLength(route[..i + 1], dist) + RouteLength(route[i..], dist) == RouteLength(route, dist)
  {
    if i == 0 {
      assert route[0..] == route;
    } else {
      FlownPlusRemaining(route[1..], i - 1, dist);
      assert route[..i + 1][1..] == route[1..][..i];
      assert route[i..] == route[1..][i - 1..];
    }
  }

  /** A route is never shorter than the way straight to its end. */
  lemma {:induction false} NeverShorterThanDirect(route: seq<Waypoint>, dist: Distance)
    requires IsMetric(dist) && route != []
    ensures RouteLength(route, dist) >= dist(route[0].at, route[|route| - 1].at)
  {
    if |route| < 2 {
    } else {
      NeverShorterThanDirect(route[1..], dist);
      var a, b, c := route[0].at, route[1].at, route[|route| - 1].at;
      assert dist(a, c) <= dist(a, b) + dist(b, c);
    }
  }

  /** So the live status never promises less than the way straight to the destination. */
  lemma RemainingIsEnough(waypoints: seq<Waypoint>, next: nat, at: Position, dist: Distance)
    requires IsMetric(dist) && next < |waypoints|
    ensures
      dist(at, waypoints[next].at) + RouteLength(waypoints[next..], dist) >= dist(at, waypoints[|waypoints| - 1].at)
  {
    NeverShorterThanDirect(waypoints[next..], dist);
    var b, c := waypoints[next].at, waypoints[|waypoints| - 1].at;
    assert dist(at, c) <= dist(at, b) + dist(b, c);
  }

  // ---------------------------------------------------------------- the live status

  /** How far `at` is off the segment that starts at waypoint `i`. */
  function OffSegment(waypoints: seq<Waypoint>, i: int, at: Position, xt: CrossTrack): real
    requires 0 <= i < |waypoints| - 1
  {
    xt(at, waypoints[i].at, waypoints[i + 1].at)
  }

  /** The first of the segments nearest to `at`, counted by its start. */
  ghost predicate IsNearestSegment(waypoints: seq<Waypoint>, segment: int, at: Position, xt: CrossTrack) {
    && 0 <= segment < |waypoints| - 1
    && (forall i :: 0 <= i < |waypoints| - 1 ==>
        OffSegment(waypoints, segment, at, xt) <= OffSegment(waypoints, i, at, xt))
    && (forall i :: 0 <= i < segment ==> OffSegment(waypoints, segment, at, xt) < OffSegment(waypoints, i, at, xt))
  }

  /**
   * None stands for the TypeError of reading past a route of fewer than two
   * waypoints; both plan parsers refuse such a route. The distance is the one
   * before rounding to a tenth.
   */
  method GetPlannedLegStatus(waypoints: seq<Waypoint>, remainingFrom: array<real>, at: Position, dist: Distance,
                             xt: CrossTrack)
    returns (status: Option<Status>)
    requires IsTable(remainingFrom[..], waypoints, dist)
    ensures status.None? <==> |waypoints| < 2
    ensures status.Some? ==>
      var next := status.value.nextIndex;
      && IsNearestSegment(waypoints, next - 1, at, xt)
      && status.value.nextIdent == waypoints[next].ident
      && status.value.remainingNm == dist(at, waypoints[next].at) + RouteLength(waypoints[next..], dist)
  {
    if |waypoints| < 2 {
      return None;
    }
    var bestSegment := 0;
    var best: Option<real> := None;
    for i := 0 to |waypoints| - 1
      invariant 0 <= bestSegment < |waypoints| - 1
      invariant i == 0 <==> best.None?
      invariant i > 0 ==> bestSegment < i && best.value == OffSegment(waypoints, bestSegment, at, xt)
      invariant i > 0 ==> forall k :: 0 <= k < i ==> best.value <= OffSegment(waypoints, k, at, xt)
      invariant i > 0 ==> forall k :: 0 <= k < bestSegment ==> best.value < OffSegment(waypoints, k, at, xt)
    {
      var d := OffSegment(waypoints, i, at, xt);
      if best.None? || d < best.value {
        best, bestSegment := Some(d), i;
      }
    }
    assert IsNearestSegment(waypoints, bestSegment, at, xt);
    var next := bestSegment + 1;
    assert remainingFrom[..][next] == RouteLength(waypoints[next..], dist);
    var remaining := dist(at, waypoints[next].at) + remainingFrom[next];
    status := Some(Status(waypoints[next].ident, next, remaining));
  }
}
