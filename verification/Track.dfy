/** A flight's recorded points, and what the recorder's running totals must equal. */
module Track {
  import opened Wrappers

  datatype Point = Point(ts: int, at: Position, altitude: real, airspeed: real)

  /** A longer gap between two points means recording had stopped. */
  const MAX_COUNTED_GAP_MS := 60000

  function Last<T>(s: seq<T>): T
    requires s != []
  {
    s[|s| - 1]
  }

  function Init<T>(s: seq<T>): seq<T>
    requires s != []
  {
    s[..|s| - 1]
  }

  function PathLength(points: seq<Point>, dist: Distance): real {
    if |points| < 2 then 0.0
    else PathLength(Init(points), dist) + dist(Last(Init(points)).at, Last(points).at)
  }

  function MaxReal(a: real, b: real): real {
    if b > a then b else a
  }

  function MaxAltitude(points: seq<Point>): real
    requires points != []
  {
    if |points| == 1 then points[0].altitude else MaxReal(MaxAltitude(Init(points)), Last(points).altitude)
  }

  function MaxAirspeed(points: seq<Point>): real
    requires points != []
  {
    if |points| == 1 then points[0].airspeed else MaxReal(MaxAirspeed(Init(points)), Last(points).airspeed)
  }

  function Times(points: seq<Point>): seq<int> {
    seq(|points|, i requires 0 <= i < |points| => points[i].ts)
  }

  ghost predicate Ordered(ts: seq<int>) {
    forall i, j :: 0 <= i < j < |ts| ==> ts[i] <= ts[j]
  }

  /** No timestamp is earlier than the one before it. */
  ghost predicate NeverBack(ts: seq<int>) {
    forall i :: 0 <= i < |ts| - 1 ==> ts[i] <= ts[i + 1]
  }

  /** One point has gone nowhere, two the way between them, and each further point adds the way to it. */
  lemma PathOfPoints(points: seq<Point>, p: Point, q: Point, dist: Distance)
    ensures PathLength([p], dist) == 0.0 && PathLength([p, q], dist) == dist(p.at, q.at)
    ensures PathLength(points + [p, q], dist) == PathLength(points + [p], dist) + dist(p.at, q.at)
  {
    assert Init([p, q]) == [p];
    assert Init(points + [p, q]) == points + [p];
  }

  /** The maxima are those of some point, and no point is above them. */
  lemma {:induction false} MaximaAre(points: seq<Point>)
    requires points != []
    ensures forall p :: p in points ==> p.altitude <= MaxAltitude(points) && p.airspeed <= MaxAirspeed(points)
    ensures exists p :: p in points && p.altitude == MaxAltitude(points)
    ensures exists p :: p in points && p.airspeed == MaxAirspeed(points)
  {
    if |points| == 1 {
      assert points[0] in points;
    } else {
      MaximaAre(Init(points));
      assert points == Init(points) + [Last(points)];
      assert Last(points) in points;
    }
  }

  // ---------------------------------------------------------------- summing the gaps

  /** The resuming recorder's rule: gaps above zero and of at most a minute. */
  function ReseededMs(ts: seq<int>): int {
    if |ts| < 2 then 0
    else
      var gap := Last(ts) - Last(Init(ts));
      ReseededMs(Init(ts)) + if 0 < gap <= MAX_COUNTED_GAP_MS then gap else 0
  }

  /** The backfill script's rule: gaps of at most a minute, whatever their sign. */
  function BackfilledMs(ts: seq<int>): int {
    if |ts| < 2 then 0
    else
      var gap := Last(ts) - Last(Init(ts));
      BackfilledMs(Init(ts)) + if gap <= MAX_COUNTED_GAP_MS then gap else 0
  }

  lemma {:induction false} BackfillNeverMore(ts: seq<int>)
    ensures BackfilledMs(ts) <= ReseededMs(ts)
  {
    if |ts| < 2 {
    } else {
      BackfillNeverMore(Init(ts));
    }
  }

  /** The two sums agree exactly when no timestamp steps back, as on rows read in timestamp order. */
  lemma {:induction false} SumsAgreeIffForward(ts: seq<int>)
    ensures BackfilledMs(ts) == ReseededMs(ts) <==> NeverBack(ts)
  {
    if |ts| < 2 {
    } else {
      SumsAgreeIffForward(Init(ts));
      BackfillNeverMore(Init(ts));
      assert NeverBack(ts) <==> NeverBack(Init(ts)) && Last(Init(ts)) <= Last(ts) by {
        var n := |ts| - 2;
        assert NeverBack(ts) ==> ts[n] <= ts[n + 1];
        assert forall i :: 0 <= i < n ==> Init(ts)[i] == ts[i];
      }
    }
  }

  method BackfillActiveMs(ts: seq<int>) returns (activeMs: int)
    ensures activeMs == BackfilledMs(ts)
    ensures Ordered(ts) ==> activeMs == ReseededMs(ts)
  {
    activeMs := 0;
    for i := 1 to Max(1, |ts|)
      invariant activeMs == BackfilledMs(ts[..if i <= |ts| then i else 0])
    {
      assert Init(ts[..i + 1]) == ts[..i];
      var gap := ts[i] - ts[i - 1];
      if gap <= MAX_COUNTED_GAP_MS {
        activeMs := activeMs + gap;
      }
    }
    assert |ts| >= 1 ==> ts[..|ts|] == ts;
    if Ordered(ts) {
      SumsAgreeIffForward(ts);
    }
  }

  lemma {:induction false} ReseededBounds(ts: seq<int>)
    requires Ordered(ts) && ts != []
    ensures 0 <= ReseededMs(ts) <= Last(ts) - ts[0]
  {
    if |ts| < 2 {
    } else {
      ReseededBounds(Init(ts));
    }
  }

  // ---------------------------------------------------------------- the recorder's log

  /** What one process saw of a flight: points written, and reasons to disown the time around them. */
  datatype Entry = Fix(ts: int) | Break

  function Fixes(log: seq<Entry>): seq<int> {
    if log == [] then []
    else Fixes(Init(log)) + match Last(log) case Fix(ts) => [ts] case Break => []
  }

  /** Has anything broken the recording since the last point? */
  predicate Broken(log: seq<Entry>) {
    log != [] && Last(log).Break?
  }

  /** The gaps of at most a minute with no break inside them. */
  function UnbrokenMs(log: seq<Entry>): int {
    if log == [] then 0
    else match Last(log)
      case Break => UnbrokenMs(Init(log))
      case Fix(ts) =>
        var before := Fixes(Init(log));
        UnbrokenMs(Init(log))
        + if before != [] && !Broken(Init(log)) && ts - Last(before) <= MAX_COUNTED_GAP_MS then ts - Last(before) else 0
  }

  lemma {:induction false} UnbrokenBounds(log: seq<Entry>)
    requires Ordered(Fixes(log))
    ensures 0 <= UnbrokenMs(log) <= ReseededMs(Fixes(log))
  {
    if log == [] {
    } else {
      var before := Fixes(Init(log));
      if Last(log).Break? {
        assert Fixes(log) == before;
        UnbrokenBounds(Init(log));
      } else {
        assert Fixes(log) == before + [Last(log).ts];
        assert Init(Fixes(log)) == before;
        assert forall i :: 0 <= i < |before| ==> before[i] == Fixes(log)[i];
        UnbrokenBounds(Init(log));
        assert before != [] ==> Fixes(log)[|before| - 1] <= Fixes(log)[|before|];
        assert Last(Fixes(log)) == Last(log).ts;
        var ts := Last(log).ts;
        assert UnbrokenMs(log) == UnbrokenMs(Init(log))
          + if before != [] && !Broken(Init(log)) && ts - Last(before) <= MAX_COUNTED_GAP_MS
            then ts - Last(before)
            else 0;
      }
    }
  }

  /** The log a resuming process starts from: every stored point, then the outage. */
  function StoredLog(ts: seq<int>): seq<Entry> {
    seq(|ts|, i requires 0 <= i < |ts| => Fix(ts[i]))
  }

  lemma {:induction false} StoredLogFacts(ts: seq<int>)
    ensures Fixes(StoredLog(ts)) == ts && !Broken(StoredLog(ts))
    ensures Ordered(ts) ==> UnbrokenMs(StoredLog(ts)) == ReseededMs(ts)
  {
    if ts == [] {
    } else {
      StoredLogFacts(Init(ts));
      assert Init(StoredLog(ts)) == StoredLog(Init(ts));
      assert Init(ts) + [Last(ts)] == ts;
    }
  }
}
