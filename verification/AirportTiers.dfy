/**
 * Which airports a viewport shows: two classifications that must agree, a tier
 * chosen by zoom and density, and exact counts.
 */
module AirportTiers {
  import opened Wrappers

  const LARGE := 1
  const MEDIUM := 2
  const SMALL := 3
  const UNKNOWN := 4
  const OTHER := 5

  const LAST_CLASSIFIED := 3
  const LAST := 5
  const VIEWPORT_BUDGET := 500
  const AIRPORTS_ZOOM_MIN := 6.0

  /** A nav_airport row with the lengths of its runways; a length may be unknown. */
  datatype Airport = Airport(ident: string, hasDetail: bool, runways: seq<Option<real>>)

  /** The loaded classes by ident, and the upper-casing they were loaded with. */
  datatype Classes = Classes(byIdent: map<string, int>, upper: string -> string)

  ghost predicate Loaded(c: Classes) {
    && c.byIdent != map[]
    && (forall s :: c.upper(c.upper(s)) == c.upper(s))
    && (forall ident :: ident in c.byIdent ==>
        ident == c.upper(ident) && c.byIdent[ident] in {LARGE, MEDIUM, SMALL, OTHER})
  }

  /** Idents in upper case, later entries winning. */
  function ByIdent(entries: seq<(string, int)>, upper: string -> string): map<string, int> {
    if entries == [] then map[]
    else ByIdent(entries[..|entries| - 1], upper)[upper(entries[|entries| - 1].0) := entries[|entries| - 1].1]
  }

  method SetAirportTiers(entries: seq<(string, int)>, upper: string -> string) returns (c: Classes)
    ensures c == Classes(ByIdent(entries, upper), upper)
  {
    var next: map<string, int> := map[];
    for n := 0 to |entries|
      invariant next == ByIdent(entries[..n], upper)
    {
      assert entries[..n + 1][..n] == entries[..n];
      next := next[upper(entries[n].0) := entries[n].1];
    }
    assert entries[..|entries|] == entries;
    c := Classes(next, upper);
  }

  lemma {:induction false} EntriesLoad(entries: seq<(string, int)>, upper: string -> string)
    requires entries != [] && forall s :: upper(upper(s)) == upper(s)
    requires forall e :: e in entries ==> e.1 in {LARGE, MEDIUM, SMALL, OTHER}
    ensures Loaded(Classes(ByIdent(entries, upper), upper))
  {
    var last := entries[|entries| - 1];
    assert upper(last.0) in ByIdent(entries, upper);
    if |entries| <= 1 {
    } else {
      EntriesLoad(entries[..|entries| - 1], upper);
    }
  }

  // ---------------------------------------------------------------- the two classifications

  /** MAX(length_m): unknown lengths are passed over, and no row gives NULL. */
  function MaxLength(runways: seq<Option<real>>): Option<real> {
    if runways == [] then None
    else
      var before, last := MaxLength(runways[..|runways| - 1]), runways[|runways| - 1];
      if last.None? then before
      else if before.Some? && before.value >= last.value then before
      else last
  }

  /** The tier expression of the query. */
  function SqlTier(c: Classes, a: Airport): int {
    var longest := if a.hasDetail then MaxLength(a.runways) else None;
    if longest.Some? then (if longest.value >= 2500.0 then LARGE else if longest.value >= 1200.0 then MEDIUM else SMALL)
    else if a.ident in c.byIdent then c.byIdent[a.ident]
    else UNKNOWN
  }

  /** ORDER BY length_m DESC LIMIT 1 over the runways of known length. */
  ghost predicate IsLongest(runways: seq<Option<real>>, length: Option<real>) {
    && (length.Some? ==> length in runways && forall r :: r in runways && r.Some? ==> r.value <= length.value)
    && (length.None? ==> forall r :: r in runways ==> r.None?)
  }

  function TierFromMetres(m: real): int {
    if m >= 2500.0 then LARGE else if m >= 1200.0 then MEDIUM else SMALL
  }

  /** The tier shown on a feature row; None before any classes are loaded. */
  function AirportTierOf(c: Classes, ident: string, longest: Option<real>): Option<int> {
    if longest.Some? then Some(TierFromMetres(longest.value))
    else if c.byIdent == map[] then None
    else if c.upper(ident) in c.byIdent then Some(c.byIdent[c.upper(ident)])
    else Some(UNKNOWN)
  }

  lemma {:induction false} MaxIsLongest(runways: seq<Option<real>>, length: Option<real>)
    ensures IsLongest(runways, MaxLength(runways))
    ensures IsLongest(runways, length) ==> length == MaxLength(runways)
  {
    if runways == [] {
    } else {
      var before, last := runways[..|runways| - 1], runways[|runways| - 1];
      MaxIsLongest(before, None);
      assert forall r :: r in runways <==> r in before || r == last;
    }
  }

  /**
   * Filter and feature row tell the same tier, except for an ident the classes
   * know only in upper case: the query compares it as it stands.
   */
  lemma ClassifiedAlike(c: Classes, a: Airport, longest: Option<real>)
    requires Loaded(c) && (if a.hasDetail then IsLongest(a.runways, longest) else longest == None)
    ensures AirportTierOf(c, a.ident, longest) == Some(SqlTier(c, a)) <==>
      (longest.Some? || a.ident == c.upper(a.ident) || c.upper(a.ident) !in c.byIdent)
  {
    MaxIsLongest(a.runways, longest);
  }

  /** A replica ident in lower case: filtered as unknown, shown as large. */
  lemma LowerCaseIdentDiffers()
    ensures
      var c := Classes(map["KJFK" := LARGE], s => if s == "kjfk" then "KJFK" else s);
      var a := Airport("kjfk", false, []);
      Loaded(c) && SqlTier(c, a) == UNKNOWN && AirportTierOf(c, a.ident, None) == Some(LARGE)
  {
    var byIdent := map["KJFK" := LARGE];
    assert "KJFK" in byIdent;
    assert "KJFK"[0] != "kjfk"[0];
  }

  // ---------------------------------------------------------------- the ladder

  function ZoomMin(tier: int): real {
    match tier
    case 1 => 6.0
    case 2 => 7.0
    case 3 => 8.0
    case _ => 9.0
  }

  /** The highest tier the zoom alone admits, none being zero. */
  ghost predicate IsFloor(zoom: real, floor: int) {
    && 0 <= floor <= LAST
    && (floor > 0 ==> ZoomMin(floor) <= zoom)
    && forall t :: 1 <= t <= LAST && ZoomMin(t) <= zoom ==> t <= floor
  }

  /** Large airports from zoom 6, medium ones from 7, small ones from 8, and all the others from 9. */
  lemma FloorOf(zoom: real, floor: int)
    ensures IsFloor(zoom, floor) <==>
      floor == if zoom < 6.0 then 0 else if zoom < 7.0 then 1 else if zoom < 8.0 then 2 else if zoom < 9.0 then 3 else 5
  {
    assert ZoomMin(1) == 6.0 && ZoomMin(2) == 7.0 && ZoomMin(3) == 8.0 && ZoomMin(4) == ZoomMin(5) == 9.0;
  }

  method AirportTierFloor(zoom: real) returns (floor: int)
    ensures IsFloor(zoom, floor)
  {
    floor := 0;
    for t := 1 to LAST + 1
      invariant 0 <= floor < t
      invariant floor > 0 ==> ZoomMin(floor) <= zoom
      invariant forall u :: 1 <= u < t && ZoomMin(u) <= zoom ==> u <= floor
    {
      if ZoomMin(t) <= zoom {
        floor := Max(floor, t);
      }
    }
  }

  function Count(byCode: map<int, nat>, t: int): nat {
    if t in byCode then byCode[t] else 0
  }

  function Through(byCode: map<int, nat>, t: nat): nat {
    if t == 0 then 0 else Through(byCode, t - 1) + Count(byCode, t)
  }

  /** The last classified tier up to which everything still fits the budget, none being zero. */
  ghost predicate IsGreatestFit(byCode: map<int, nat>, fit: int) {
    && 0 <= fit <= LAST_CLASSIFIED
    && (fit > 0 ==> Through(byCode, fit) <= VIEWPORT_BUDGET)
    && forall t :: fit < t <= LAST_CLASSIFIED ==> Through(byCode, t) > VIEWPORT_BUDGET
  }

  lemma {:induction false} ThroughGrows(byCode: map<int, nat>, t: nat, u: nat)
    requires t <= u
    ensures Through(byCode, t) <= Through(byCode, u)
  {
    if t == u {
    } else {
      ThroughGrows(byCode, t, u - 1);
    }
  }

  /** The larger of the zoom's floor and the greatest fit. */
  ghost predicate IsChoice(byCode: map<int, nat>, zoom: real, chosen: int) {
    exists floor, fit :: IsFloor(zoom, floor) && IsGreatestFit(byCode, fit) && chosen == Max(floor, fit)
  }

  method ChooseAirportTier(byCode: map<int, nat>, zoom: real) returns (chosen: int)
    ensures IsChoice(byCode, zoom, chosen)
    ensures (chosen > 0 && ZoomMin(chosen) > zoom) ==> Through(byCode, chosen) <= VIEWPORT_BUDGET
  {
    var floor := AirportTierFloor(zoom);
    chosen := floor;
    var cum := 0;
    ghost var fit := 0;
    for t := 1 to LAST_CLASSIFIED + 1
      invariant cum == Through(byCode, t - 1)
      invariant 0 <= fit < t && chosen == Max(floor, fit)
      invariant fit > 0 ==> Through(byCode, fit) <= VIEWPORT_BUDGET
      invariant forall u :: fit < u < t ==> Through(byCode, u) > VIEWPORT_BUDGET
    {
      cum := cum + Count(byCode, t);
      if cum <= VIEWPORT_BUDGET {
        fit := t;
        if t > chosen {
          chosen := t;
        }
      }
    }
    assert IsFloor(zoom, floor) && IsGreatestFit(byCode, fit);
  }

  /** There is one choice, and zooming in never takes a tier away. */
  lemma ChoiceIsMonotone(byCode: map<int, nat>, zoom: real, closer: real, chosen: int, other: int)
    requires zoom <= closer && IsChoice(byCode, zoom, chosen) && IsChoice(byCode, closer, other)
    ensures chosen <= other
    ensures zoom == closer ==> chosen == other
  {
    var floor, fit :| IsFloor(zoom, floor) && IsGreatestFit(byCode, fit) && chosen == Max(floor, fit);
    var floor', fit' :| IsFloor(closer, floor') && IsGreatestFit(byCode, fit') && other == Max(floor', fit');
    assert fit == fit';
    assert floor <= floor';
  }

  lemma ChoiceIsOne(byCode: map<int, nat>, zoom: real, chosen: int, other: int)
    requires IsChoice(byCode, zoom, chosen)
    ensures IsChoice(byCode, zoom, other) ==> other == chosen
  {
    if IsChoice(byCode, zoom, other) {
      ChoiceIsMonotone(byCode, zoom, zoom, chosen, other);
    }
  }

  // ---------------------------------------------------------------- the query

  function CountAt(c: Classes, rows: seq<Airport>, t: int): nat {
    if rows == [] then 0
    else CountAt(c, rows[..|rows| - 1], t) + if SqlTier(c, rows[|rows| - 1]) == t then 1 else 0
  }

  function Admitted(c: Classes, rows: seq<Airport>, chosen: int): seq<Airport> {
    if rows == [] then []
    else
      Admitted(c, rows[..|rows| - 1], chosen)
      + if SqlTier(c, rows[|rows| - 1]) <= chosen then [rows[|rows| - 1]] else []
  }

  /** GROUP BY tier: a tier without rows has no entry. */
  function HistogramOf(c: Classes, rows: seq<Airport>): map<int, nat> {
    if rows == [] then map[]
    else
      var before, tier := HistogramOf(c, rows[..|rows| - 1]), SqlTier(c, rows[|rows| - 1]);
      before[tier := Count(before, tier) + 1]
  }

  method Histogram(c: Classes, rows: seq<Airport>) returns (byCode: map<int, nat>)
    ensures byCode == HistogramOf(c, rows)
  {
    byCode := map[];
    for n := 0 to |rows|
      invariant byCode == HistogramOf(c, rows[..n])
    {
      assert rows[..n + 1][..n] == rows[..n];
      var tier := SqlTier(c, rows[n]);
      byCode := byCode[tier := Count(byCode, tier) + 1];
    }
    assert rows[..|rows|] == rows;
  }

  lemma {:induction false} HistogramCounts(c: Classes, rows: seq<Airport>, t: int)
    ensures Count(HistogramOf(c, rows), t) == CountAt(c, rows, t)
  {
    if rows == [] {
    } else {
      HistogramCounts(c, rows[..|rows| - 1], t);
    }
  }

  lemma {:induction false} NoneBelowOne(c: Classes, rows: seq<Airport>)
    requires Loaded(c)
    ensures Admitted(c, rows, 0) == []
  {
    if rows == [] {
    } else {
      NoneBelowOne(c, rows[..|rows| - 1]);
    }
  }

  lemma {:induction false} OneMoreTier(c: Classes, rows: seq<Airport>, t: int)
    ensures |Admitted(c, rows, t)| == |Admitted(c, rows, t - 1)| + CountAt(c, rows, t)
  {
    if rows == [] {
    } else {
      OneMoreTier(c, rows[..|rows| - 1], t);
    }
  }

  /** The filter admits as many rows as the histogram counts up to the tier. */
  lemma {:induction false} AdmittedCount(c: Classes, rows: seq<Airport>, chosen: nat)
    requires Loaded(c)
    ensures |Admitted(c, rows, chosen)| == Through(HistogramOf(c, rows), chosen)
    decreases chosen
  {
    if chosen == 0 {
      NoneBelowOne(c, rows);
    } else {
      AdmittedCount(c, rows, chosen - 1);
      OneMoreTier(c, rows, chosen);
      HistogramCounts(c, rows, chosen);
    }
  }

  lemma {:induction false} AllWithinLast(c: Classes, rows: seq<Airport>)
    requires Loaded(c)
    ensures Admitted(c, rows, LAST) == rows
  {
    if rows == [] {
    } else {
      AllWithinLast(c, rows[..|rows| - 1]);
      assert rows == rows[..|rows| - 1] + [rows[|rows| - 1]];
    }
  }

  lemma ThroughStep(byCode: map<int, nat>, t: nat)
    requires t > 0
    ensures Through(byCode, t) == Through(byCode, t - 1) + Count(byCode, t)
  {}

  lemma FiveTiers(byCode: map<int, nat>)
    ensures Through(byCode, LAST) ==
      Count(byCode, 1) + Count(byCode, 2) + Count(byCode, 3) + Count(byCode, 4) + Count(byCode, 5)
  {
    ThroughStep(byCode, 1);
    ThroughStep(byCode, 2);
    ThroughStep(byCode, 3);
    ThroughStep(byCode, 4);
    ThroughStep(byCode, 5);
  }

  /** What the histogram counts past the tier is what the filter hides. */
  lemma HiddenAreTheRest(c: Classes, rows: seq<Airport>, chosen: nat)
    requires Loaded(c)
    ensures
      var h := HistogramOf(c, rows);
      && |Admitted(c, rows, chosen)| == Through(h, chosen)
      && |rows| == Count(h, 1) + Count(h, 2) + Count(h, 3) + Count(h, 4) + Count(h, 5)
  {
    FiveTiers(HistogramOf(c, rows));
    AdmittedCount(c, rows, LAST);
    AllWithinLast(c, rows);
    AdmittedCount(c, rows, chosen);
  }

  datatype Thinning = NoThinning | ByTier(through: int, hidden: int, nextZoom: real)

  /** When the zoom alone admits every tier, density has no say. */
  lemma FullFloorIsTheChoice(byCode: map<int, nat>, zoom: real)
    requires IsFloor(zoom, LAST)
    ensures IsChoice(byCode, zoom, LAST)
  {
    var fit :=
      if Through(byCode, 3) <= VIEWPORT_BUDGET then 3
      else if Through(byCode, 2) <= VIEWPORT_BUDGET then 2
      else if Through(byCode, 1) <= VIEWPORT_BUDGET then 1
      else 0;
    assert IsGreatestFit(byCode, fit);
    assert Max(LAST, fit) == LAST;
  }

  /** What a thinned viewport must say, given the tier chosen for it. */
  ghost predicate ThinnedTo(c: Classes, rows: seq<Airport>, zoom: real, thinning: Thinning) {
    && thinning.ByTier?
    && IsChoice(HistogramOf(c, rows), zoom, thinning.through)
    && 1 <= thinning.through < LAST
    && thinning.nextZoom == ZoomMin(thinning.through + 1)
    && |Admitted(c, rows, thinning.through)| + thinning.hidden == |rows|
    && (ZoomMin(thinning.through) > zoom ==> |Admitted(c, rows, thinning.through)| <= VIEWPORT_BUDGET)
  }

  /** The tier decision of the query: no histogram is taken when the zoom admits everything. */
  method ChooseThinning(c: Classes, rows: seq<Airport>, zoom: real) returns (thinning: Thinning)
    requires Loaded(c) && zoom >= AIRPORTS_ZOOM_MIN
    ensures thinning.NoThinning? <==> IsChoice(HistogramOf(c, rows), zoom, LAST)
    ensures thinning.ByTier? ==> ThinnedTo(c, rows, zoom, thinning)
  {
    var floor := AirportTierFloor(zoom);
    if floor == LAST {
      FullFloorIsTheChoice(HistogramOf(c, rows), zoom);
      return NoThinning;
    }
    assert ZoomMin(LARGE) <= zoom;
    var byCode := Histogram(c, rows);
    var chosen := ChooseAirportTier(byCode, zoom);
    if chosen == LAST {
      return NoThinning;
    }
    ChoiceIsOne(byCode, zoom, chosen, LAST);
    var through: nat := 0;
    for t := 1 to chosen + 1
      invariant through == Through(byCode, t - 1)
    {
      through := through + Count(byCode, t);
    }
    var total := Count(byCode, 1) + Count(byCode, 2) + Count(byCode, 3) + Count(byCode, 4) + Count(byCode, 5);
    HiddenAreTheRest(c, rows, chosen);
    thinning := ByTier(chosen, total - through, ZoomMin(chosen + 1));
  }

  /** `rows` are the airports of the box in ident order. */
  method QueryAirports(c: Classes, rows: seq<Airport>, zoom: real, limit: nat)
    returns (shown: seq<Airport>, truncated: bool, thinning: Thinning)
    requires c.byIdent != map[] ==> Loaded(c)
    ensures zoom < AIRPORTS_ZOOM_MIN ==> shown == [] && !truncated && thinning.NoThinning?
    ensures zoom >= AIRPORTS_ZOOM_MIN ==>
      var admitted := if thinning.ByTier? then Admitted(c, rows, thinning.through) else rows;
      && (truncated <==> |admitted| > limit)
      && shown == (if truncated then admitted[..limit] else admitted)
    ensures zoom >= AIRPORTS_ZOOM_MIN ==>
      (thinning.NoThinning? <==> c.byIdent == map[] || IsChoice(HistogramOf(c, rows), zoom, LAST))
    ensures zoom >= AIRPORTS_ZOOM_MIN && thinning.ByTier? ==> ThinnedTo(c, rows, zoom, thinning)
  {
    shown, truncated, thinning := [], false, NoThinning;
    if zoom < AIRPORTS_ZOOM_MIN {
      return;
    }
    var found := rows;
    if c.byIdent != map[] {
      thinning := ChooseThinning(c, rows, zoom);
      if thinning.ByTier? {
        found := Admitted(c, rows, thinning.through);
      }
    }
    truncated := |found| > limit;
    shown := if truncated then found[..limit] else found;
  }
}
