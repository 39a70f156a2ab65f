/**
 * The track of two combined flights: both tracks, with eight straight-line
 * points drawn across the gap between them.
 */
module FlightMerge {
  import opened Wrappers
  import opened Track

  const FILLER_COUNT := 8

  /** Timestamps that stand still or run backwards are spread over one second instead. */
  function GapMs(p: Point, q: Point): int {
    if q.ts > p.ts then q.ts - p.ts else 1000
  }

  function Between(a: real, b: real, i: nat): real {
    a + (i as real / (FILLER_COUNT + 1) as real) * (b - a)
  }

  /** The `i`-th ninth of the way; nothing is known of its speed, and milliseconds are whole. */
  function Filler(p: Point, q: Point, i: nat): Point {
    Point(
      p.ts + i * GapMs(p, q) / (FILLER_COUNT + 1),
      Position(Between(p.at.lat, q.at.lat, i), Between(p.at.lon, q.at.lon, i)),
      Between(p.altitude, q.altitude, i),
      0.0)
  }

  function Fillers(p: Point, q: Point): seq<Point> {
    seq(FILLER_COUNT, i requires 0 <= i < FILLER_COUNT => Filler(p, q, i + 1))
  }

  lemma Ninths(a: real, b: real, i: nat)
    ensures 9.0 * (Between(a, b, i) - a) == i as real * (b - a)
  {
    var t := i as real / 9.0;
    assert 9.0 * t == i as real;
    assert 9.0 * (t * (b - a)) == (9.0 * t) * (b - a);
  }

  /** Eight points at every ninth of the way, in place, height and time, each standing still. */
  lemma FillersAreEven(p: Point, q: Point, i: nat)
    requires i < 8
    ensures |Fillers(p, q)| == 8
    ensures
      var f, n := Fillers(p, q)[i], (i + 1) as real;
      && 9.0 * (f.at.lat - p.at.lat) == n * (q.at.lat - p.at.lat)
      && 9.0 * (f.at.lon - p.at.lon) == n * (q.at.lon - p.at.lon)
      && 9.0 * (f.altitude - p.altitude) == n * (q.altitude - p.altitude)
      && f.airspeed == 0.0
      && var ms := if q.ts > p.ts then q.ts - p.ts else 1000;
      && 9 * (f.ts - p.ts) <= (i + 1) * ms < 9 * (f.ts - p.ts + 1)
  {
    Ninths(p.at.lat, q.at.lat, i + 1);
    Ninths(p.at.lon, q.at.lon, i + 1);
    Ninths(p.altitude, q.altitude, i + 1);
  }

  function Merged(first: seq<Point>, second: seq<Point>): seq<Point> {
    if first == [] || second == [] then first + second
    else first + Fillers(Last(first), second[0]) + second
  }

  method MergeTracks(first: seq<Point>, second: seq<Point>) returns (points: seq<Point>)
    ensures points == Merged(first, second)
  {
    var fillers: seq<Point> := [];
    if |first| > 0 && |second| > 0 {
      var p, q := first[|first| - 1], second[0];
      for i := 1 to FILLER_COUNT + 1
        invariant fillers == Fillers(p, q)[..i - 1]
      {
        fillers := fillers + [Filler(p, q, i)];
      }
      assert fillers == Fillers(p, q);
    }
    points := first + fillers + second;
  }

  // ---------------------------------------------------------------- reading the track back

  /** `p` after every point that is not later. */
  function Placed(points: seq<Point>, p: Point): seq<Point> {
    if points == [] || Last(points).ts <= p.ts then points + [p] else Placed(Init(points), p) + [Last(points)]
  }

  /** The track as it is read back, oldest first. */
  function ByTime(points: seq<Point>): seq<Point> {
    if points == [] then [] else Placed(ByTime(Init(points)), Last(points))
  }

  lemma OrderedAppend(points: seq<Point>, p: Point)
    requires Ordered(Times(points)) && (points != [] ==> Last(points).ts <= p.ts)
    ensures Ordered(Times(points + [p]))
  {
    var ts := Times(points);
    assert Times(points + [p]) == ts + [p.ts];
    assert forall i :: 0 <= i < |ts| - 1 ==> ts[i] <= ts[|ts| - 1];
  }

  lemma OrderedInit(points: seq<Point>)
    requires Ordered(Times(points)) && points != []
    ensures Ordered(Times(Init(points)))
    ensures |points| >= 2 ==> Last(Init(points)).ts <= Last(points).ts
  {
    var ts := Times(points);
    assert Times(Init(points)) == ts[..|ts| - 1];
    assert |points| >= 2 ==> ts[|ts| - 2] <= ts[|ts| - 1];
  }

  lemma {:induction false} OrderedReadsTheSame(points: seq<Point>)
    requires Ordered(Times(points))
    ensures ByTime(points) == points
  {
    if points == [] {
    } else {
      OrderedInit(points);
      OrderedReadsTheSame(Init(points));
      assert points == Init(points) + [Last(points)];
    }
  }

  lemma {:induction false} PlacedIsOrdered(points: seq<Point>, p: Point)
    requires Ordered(Times(points))
    ensures Ordered(Times(Placed(points, p)))
    ensures points != [] && p.ts < Last(points).ts ==> Last(Placed(points, p)) == Last(points)
    ensures points == [] || Last(points).ts <= p.ts ==> Last(Placed(points, p)) == p
  {
    if points == [] {
    } else if Last(points).ts <= p.ts {
      OrderedAppend(points, p);
    } else {
      OrderedInit(points);
      PlacedIsOrdered(Init(points), p);
      OrderedAppend(Placed(Init(points), p), Last(points));
    }
  }

  lemma {:induction false} PlacedAddsOne(points: seq<Point>, p: Point)
    ensures multiset(Placed(points, p)) == multiset(points) + multiset{p}
  {
    if points == [] || Last(points).ts <= p.ts {
    } else {
      PlacedAddsOne(Init(points), p);
      assert points == Init(points) + [Last(points)];
    }
  }

  lemma {:induction false} ByTimeIsOrdered(points: seq<Point>)
    ensures Ordered(Times(ByTime(points)))
  {
    if points == [] {
    } else {
      ByTimeIsOrdered(Init(points));
      PlacedIsOrdered(ByTime(Init(points)), Last(points));
    }
  }

  lemma {:induction false} ByTimeKeepsPoints(points: seq<Point>)
    ensures multiset(ByTime(points)) == multiset(points)
  {
    if points == [] {
    } else {
      ByTimeKeepsPoints(Init(points));
      PlacedAddsOne(ByTime(Init(points)), Last(points));
      assert points == Init(points) + [Last(points)];
    }
  }

  /** Reading in order of time loses no point and makes up none, and changes a track exactly when it is out of order. */
  lemma ByTimeSorts(points: seq<Point>)
    ensures Ordered(Times(ByTime(points)))
    ensures multiset(ByTime(points)) == multiset(points)
    ensures ByTime(points) == points <==> Ordered(Times(points))
  {
    ByTimeIsOrdered(points);
    ByTimeKeepsPoints(points);
    if Ordered(Times(points)) {
      OrderedReadsTheSame(points);
    }
  }

  // ---------------------------------------------------------------- the merged row

  /** The summary columns the two rows contribute, each of which may be missing. */
  datatype Columns = Columns(distanceNm: Option<real>, maxAltitudeFt: Option<int>, maxAirspeedKts: Option<int>)

  /** The way across the gap. */
  function GapNm(first: seq<Point>, second: seq<Point>, dist: Distance): real {
    if first == [] || second == [] then 0.0 else dist(Last(first).at, second[0].at)
  }

  function MergedColumns(a: Columns, b: Columns, first: seq<Point>, second: seq<Point>, dist: Distance): Columns {
    Columns(
      Some(RoundTenth(a.distanceNm.GetOr(0.0) + GapNm(first, second, dist) + b.distanceNm.GetOr(0.0))),
      Some(Max(a.maxAltitudeFt.GetOr(0), b.maxAltitudeFt.GetOr(0))),
      Some(Max(a.maxAirspeedKts.GetOr(0), b.maxAirspeedKts.GetOr(0))))
  }

  /** A missing column counts as zero. */
  lemma MissingCountsNothing(a: Columns, b: Columns, first: seq<Point>, second: seq<Point>, dist: Distance)
    ensures
      var m, gap := MergedColumns(a, b, first, second, dist), GapNm(first, second, dist);
      && (a.distanceNm.None? && b.distanceNm.None? ==> m.distanceNm == Some(RoundTenth(gap)))
      && (a.distanceNm.None? && b.distanceNm.Some? ==> m.distanceNm == Some(RoundTenth(gap + b.distanceNm.value)))
      && (a.distanceNm.Some? && b.distanceNm.None? ==> m.distanceNm == Some(RoundTenth(a.distanceNm.value + gap)))
      && (a.maxAltitudeFt.None? && b.maxAltitudeFt.None? ==> m.maxAltitudeFt == Some(0))
      && (a.maxAltitudeFt.None? && b.maxAltitudeFt.Some? ==> m.maxAltitudeFt == Some(Max(0, b.maxAltitudeFt.value)))
      && (a.maxAltitudeFt.Some? && b.maxAltitudeFt.None? ==> m.maxAltitudeFt == Some(Max(a.maxAltitudeFt.value, 0)))
      && (a.maxAirspeedKts.None? && b.maxAirspeedKts.None? ==> m.maxAirspeedKts == Some(0))
      && (a.maxAirspeedKts.None? && b.maxAirspeedKts.Some? ==> m.maxAirspeedKts == Some(Max(0, b.maxAirspeedKts.value)))
      && (a.maxAirspeedKts.Some? && b.maxAirspeedKts.None? ==> m.maxAirspeedKts == Some(Max(a.maxAirspeedKts.value, 0)))
  {}

  /** The columns tell the length of the track to within `slack`, and its maxima to the nearest whole number. */
  predicate Describes(c: Columns, points: seq<Point>, slack: real, dist: Distance) {
    && points != []
    && c.distanceNm.Some? && -slack <= c.distanceNm.value - PathLength(points, dist) <= slack
    && c.maxAltitudeFt == Some(RoundReal(MaxAltitude(points)))
    && c.maxAirspeedKts == Some(RoundReal(MaxAirspeed(points)))
  }

  /** How far a tenth of a mile, rounded, may be off. */
  const ROUNDING_NM := 0.05

  // ---------------------------------------------------------------- what the merge keeps

  lemma {:induction false} PathLengthJoins(first: seq<Point>, second: seq<Point>, dist: Distance)
    ensures PathLength(first + second, dist) ==
            PathLength(first, dist) + GapNm(first, second, dist) + PathLength(second, dist)
  {
    if second == [] {
      assert first + second == first;
    } else if first == [] {
      assert first + second == second;
    } else {
      var joined := first + second;
      assert Init(joined) == first + Init(second) && Last(joined) == Last(second);
      PathLengthJoins(first, Init(second), dist);
      if |second| == 1 {
        assert Init(second) == [];
      } else {
        assert Last(Init(joined)) == Last(Init(second));
      }
    }
  }

  lemma {:induction false} MaximaJoin(first: seq<Point>, second: seq<Point>)
    requires first != [] && second != []
    ensures MaxAltitude(first + second) == MaxReal(MaxAltitude(first), MaxAltitude(second))
    ensures MaxAirspeed(first + second) == MaxReal(MaxAirspeed(first), MaxAirspeed(second))
  {
    var joined := first + second;
    assert Last(joined) == Last(second);
    if |second| == 1 {
      assert Init(joined) == first;
    } else {
      assert Init(joined) == first + Init(second);
      MaximaJoin(first, Init(second));
    }
  }

  lemma RoundTenthIsNear(x: real)
    ensures -ROUNDING_NM <= RoundTenth(x) - x <= ROUNDING_NM
  {
    var scaled := x * 10.0 + 0.5;
    assert scaled - 1.0 <= scaled.Floor as real <= scaled;
  }

  lemma RoundRealGrows(x: real, y: real)
    ensures RoundReal(MaxReal(x, y)) == Max(RoundReal(x), RoundReal(y))
  {}

  /**
   * Columns that told of two tracks within `s` and `t` miles add up to columns
   * that tell of the two flown as one within `s + t` and one more rounding.
   */
  lemma MergedColumnsDescribe(a: Columns, b: Columns, first: seq<Point>, second: seq<Point>, s: real, t: real,
                              dist: Distance)
    requires Describes(a, first, s, dist) && Describes(b, second, t, dist)
    ensures Describes(MergedColumns(a, b, first, second, dist), first + second, s + t + ROUNDING_NM, dist)
  {
    PathLengthJoins(first, second, dist);
    RoundTenthIsNear(a.distanceNm.value + GapNm(first, second, dist) + b.distanceNm.value);
    MaximaJoin(first, second);
    RoundRealGrows(MaxAltitude(first), MaxAltitude(second));
    RoundRealGrows(MaxAirspeed(first), MaxAirspeed(second));
  }

  lemma {:induction false} NeverShorterThanDirect(points: seq<Point>, dist: Distance)
    requires IsMetric(dist) && points != []
    ensures PathLength(points, dist) >= dist(points[0].at, Last(points).at)
  {
    if |points| == 1 {
    } else {
      NeverShorterThanDirect(Init(points), dist);
      var a, b, c := points[0].at, Last(Init(points)).at, Last(points).at;
      assert dist(a, c) <= dist(a, b) + dist(b, c);
    }
  }

  /** The drawn points never make the merged track shorter than the two flown as one. */
  lemma FillersOnlyLengthen(first: seq<Point>, second: seq<Point>, dist: Distance)
    requires IsMetric(dist)
    ensures PathLength(Merged(first, second), dist) >= PathLength(first + second, dist)
  {
    PathLengthJoins(first, second, dist);
    if first != [] && second != [] {
      var fillers := Fillers(Last(first), second[0]);
      PathLengthJoins(first + fillers, second, dist);
      PathLengthJoins(first, fillers, dist);
      NeverShorterThanDirect(fillers, dist);
      var a, b, c, d := Last(first).at, fillers[0].at, Last(fillers).at, second[0].at;
      assert Last(first + fillers) == Last(fillers);
      assert dist(a, d) <= dist(a, b) + dist(b, d) && dist(b, d) <= dist(b, c) + dist(c, d);
    }
  }

  /** So the merged track falls short of what the merged row says by no more than the rounding of its parts. */
  lemma FillersNeverShorten(a: Columns, b: Columns, first: seq<Point>, second: seq<Point>, s: real, t: real,
                            dist: Distance)
    requires IsMetric(dist) && Describes(a, first, s, dist) && Describes(b, second, t, dist)
    ensures
      var row := MergedColumns(a, b, first, second, dist);
      PathLength(Merged(first, second), dist) >= row.distanceNm.value - (s + t + ROUNDING_NM)
  {
    MergedColumnsDescribe(a, b, first, second, s, t, dist);
    FillersOnlyLengthen(first, second, dist);
  }

  function AlongLatitude(a: Position, b: Position): real {
    if a.lat <= b.lat then b.lat - a.lat else a.lat - b.lat
  }

  lemma {:induction false} StandingStill(points: seq<Point>, at: Position)
    requires forall p :: p in points ==> p.at == at
    ensures PathLength(points, AlongLatitude) == 0.0
  {
    if |points| < 2 {
    } else {
      StandingStill(Init(points), at);
    }
  }

  /** And it does fall short: two tracks of 1.06 miles, each stored as 1.1, merge into 2.12 miles stored as 2.2. */
  lemma MergedRowOverstates()
    ensures
      var a, b := Point(0, Position(0.0, 0.0), 0.0, 0.0), Point(1, Position(1.06, 0.0), 0.0, 0.0);
      var c, d := Point(2, Position(1.06, 0.0), 0.0, 0.0), Point(3, Position(2.12, 0.0), 0.0, 0.0);
      var row := Columns(Some(1.1), Some(0), Some(0));
      && Describes(row, [a, b], ROUNDING_NM, AlongLatitude) && Describes(row, [c, d], ROUNDING_NM, AlongLatitude)
      && MergedColumns(row, row, [a, b], [c, d], AlongLatitude).distanceNm == Some(2.2)
      && PathLength(Merged([a, b], [c, d]), AlongLatitude) == 2.12
  {
    var a, b := Point(0, Position(0.0, 0.0), 0.0, 0.0), Point(1, Position(1.06, 0.0), 0.0, 0.0);
    var c, d := Point(2, Position(1.06, 0.0), 0.0, 0.0), Point(3, Position(2.12, 0.0), 0.0, 0.0);
    var first, fillers, second := [a, b], Fillers(b, c), [c, d];
    assert Init(first) == [a] && Init(second) == [c];
    StandingStill(fillers, b.at);
    PathLengthJoins(first, fillers, AlongLatitude);
    PathLengthJoins(first + fillers, second, AlongLatitude);
    assert Last(first + fillers) == Last(fillers);
  }

  lemma NinthsGrow(gap: nat, i: nat, j: nat)
    requires i <= j <= FILLER_COUNT
    ensures 0 <= i * gap / (FILLER_COUNT + 1) <= j * gap / (FILLER_COUNT + 1) <= gap
  {
    assert j * gap == i * gap + (j - i) * gap;
    assert 9 * gap == j * gap + (9 - j) * gap;
  }

  lemma FillerTimes(p: Point, q: Point, i: nat, j: nat)
    requires 1 <= i <= j <= FILLER_COUNT
    ensures p.ts <= Filler(p, q, i).ts <= Filler(p, q, j).ts
    ensures p.ts < q.ts ==> Filler(p, q, j).ts <= q.ts
    ensures q.ts <= p.ts ==> q.ts < Filler(p, q, FILLER_COUNT).ts
  {
    NinthsGrow(GapMs(p, q), i, j);
  }

  /** When time stands still or runs backwards, all eight lie inside the one second, less than a second apart. */
  lemma SpreadOverOneSecond(p: Point, q: Point, i: nat, j: nat)
    requires q.ts <= p.ts && 1 <= i < j <= FILLER_COUNT
    ensures p.ts < Filler(p, q, i).ts < Filler(p, q, j).ts < p.ts + 1000
  {}

  lemma InOrder(first: seq<Point>, second: seq<Point>, i: nat, j: nat)
    requires first != [] && second != [] && Ordered(Times(first)) && Ordered(Times(second))
    requires Last(first).ts < second[0].ts && i < j < |Merged(first, second)|
    ensures Merged(first, second)[i].ts <= Merged(first, second)[j].ts
  {
    var p, q, n := Last(first), second[0], |first|;
    assert i < n ==> Times(first)[i] <= Times(first)[n - 1];
    assert i < n && j < n ==> Times(first)[i] <= Times(first)[j];
    assert j >= n + FILLER_COUNT ==> Times(second)[0] <= Times(second)[j - n - FILLER_COUNT];
    assert i >= n + FILLER_COUNT ==> Times(second)[i - n - FILLER_COUNT] <= Times(second)[j - n - FILLER_COUNT];
    if n <= j < n + FILLER_COUNT {
      var k := j - n + 1;
      FillerTimes(p, q, if i >= n then i - n + 1 else k, k);
    } else if n <= i < n + FILLER_COUNT {
      FillerTimes(p, q, i - n + 1, FILLER_COUNT);
    }
  }

  /** Two tracks in order merge into one in order exactly when the second begins after the first has ended. */
  lemma MergedInOrderExactlyWhen(first: seq<Point>, second: seq<Point>)
    requires first != [] && second != [] && Ordered(Times(first)) && Ordered(Times(second))
    ensures Ordered(Times(Merged(first, second))) <==> Last(first).ts < second[0].ts
  {
    var p, q, n := Last(first), second[0], |first|;
    var merged := Merged(first, second);
    assert merged[n + FILLER_COUNT - 1] == Filler(p, q, FILLER_COUNT) && merged[n + FILLER_COUNT] == q;
    FillerTimes(p, q, FILLER_COUNT, FILLER_COUNT);
    if Ordered(Times(merged)) {
      assert Times(merged)[n + FILLER_COUNT - 1] <= Times(merged)[n + FILLER_COUNT];
    }
    if p.ts < q.ts {
      forall i, j | 0 <= i < j < |merged|
        ensures Times(merged)[i] <= Times(merged)[j]
      {
        InOrder(first, second, i, j);
      }
    }
  }

  /** So it is exactly then that the merged track is read back as it was written. */
  lemma ReadBackExactlyWhen(first: seq<Point>, second: seq<Point>)
    requires first != [] && second != [] && Ordered(Times(first)) && Ordered(Times(second))
    ensures ByTime(Merged(first, second)) == Merged(first, second) <==> Last(first).ts < second[0].ts
  {
    ByTimeSorts(Merged(first, second));
    MergedInOrderExactlyWhen(first, second);
  }
}
