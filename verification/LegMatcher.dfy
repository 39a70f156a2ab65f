/** Chooses the planned leg a flight that has just started belongs to, or refuses with a reason. */
module LegMatcher {
  import opened Wrappers
  import opened LinkModel

  datatype Candidate = Candidate(
    legId: int,
    tripId: int,
    status: LegStatus,
    linkedFlight: Option<int>,
    departure: Position,
    departureIsAirport: bool)

  datatype Reason =
    | Matched | NoActiveTrip | NoPlannedLegs | NoLegInRadius | Ambiguous
    | LegAlreadyFlown | LegAlreadyLinked | LegSkipped | SnippetNoDepartureAirport
    | FlightAlreadyLinked

  datatype MatchInput = MatchInput(
    at: Position,
    activeTrip: Option<int>,
    alreadyLinkedTo: Option<int>,
    candidates: seq<Candidate>,
    radiusNm: Option<real>)

  datatype MatchResult = MatchResult(
    legId: Option<int>,
    tripId: Option<int>,
    reason: Reason,
    distanceNm: Option<real>,
    nearby: seq<int>)

  const DEPARTURE_RADIUS_NM := 10.0

  /** The obstacle a leg presents; the order of the checks is the order of precedence. */
  function RefusalFor(c: Candidate): Option<Reason> {
    if c.status.Flown? || c.status.Diverted? then Some(LegAlreadyFlown)
    else if c.status.Skipped? then Some(LegSkipped)
    else if c.linkedFlight.Some? then Some(LegAlreadyLinked)
    else if !c.departureIsAirport then Some(SnippetNoDepartureAirport)
    else None
  }

  /** What stands against a leg, told by its columns. */
  lemma ObstacleIs(c: Candidate)
    ensures RefusalFor(c) == Some(LegAlreadyFlown) <==> c.status in {Flown, Diverted}
    ensures RefusalFor(c) == Some(LegSkipped) <==> c.status == Skipped
    ensures RefusalFor(c) == Some(LegAlreadyLinked) <==> c.status == Planned && c.linkedFlight != None
    ensures RefusalFor(c) == Some(SnippetNoDepartureAirport) <==>
      c.status == Planned && c.linkedFlight == None && !c.departureIsAirport
    ensures RefusalFor(c) == None <==> c.status == Planned && c.linkedFlight == None && c.departureIsAirport
  {}

  // ---------------------------------------------------------------- list helpers

  function Filter(xs: seq<Candidate>, keep: Candidate -> bool): seq<Candidate> {
    if xs == [] then []
    else Filter(xs[..|xs| - 1], keep) + (if keep(xs[|xs| - 1]) then [xs[|xs| - 1]] else [])
  }

  lemma {:induction false} FilterMembers(xs: seq<Candidate>, keep: Candidate -> bool)
    ensures forall y :: y in Filter(xs, keep) <==> y in xs && keep(y)
  {
    if xs == [] {
    } else {
      FilterMembers(xs[..|xs| - 1], keep);
      assert xs == xs[..|xs| - 1] + [xs[|xs| - 1]];
    }
  }

  function Ids(cs: seq<Candidate>): seq<int> {
    if cs == [] then [] else Ids(cs[..|cs| - 1]) + [cs[|cs| - 1].legId]
  }

  predicate Sorted(s: seq<int>) {
    forall i, j :: 0 <= i < j < |s| ==> s[i] <= s[j]
  }

  function Insert(x: int, s: seq<int>): seq<int> {
    if s == [] || x <= s[0] then [x] + s else [s[0]] + Insert(x, s[1..])
  }

  lemma {:induction false} InsertElements(x: int, s: seq<int>)
    ensures multiset(Insert(x, s)) == multiset(s) + multiset{x}
  {
    if s == [] || x <= s[0] {
    } else {
      InsertElements(x, s[1..]);
      assert s == [s[0]] + s[1..];
    }
  }

  lemma ConsSorted(x: int, s: seq<int>)
    requires Sorted(s) && forall y :: y in s ==> x <= y
    ensures Sorted([x] + s)
  {
    assert forall i :: 0 <= i < |s| ==> s[i] in s;
  }

  lemma InsertedAfterFirst(x: int, s: seq<int>, y: int)
    requires Sorted(s) && s != [] && s[0] < x && y in Insert(x, s[1..])
    ensures s[0] <= y
  {
    InsertElements(x, s[1..]);
    assert y in multiset(Insert(x, s[1..]));
    assert y == x || y in s[1..];
  }

  lemma {:induction false} InsertSorts(x: int, s: seq<int>)
    requires Sorted(s)
    ensures Sorted(Insert(x, s))
  {
    if s == [] || x <= s[0] {
    } else {
      InsertSorts(x, s[1..]);
      forall y | y in Insert(x, s[1..])
        ensures s[0] <= y
      {
        InsertedAfterFirst(x, s, y);
      }
      ConsSorted(s[0], Insert(x, s[1..]));
    }
  }

  function Ascending(s: seq<int>): seq<int> {
    if s == [] then [] else Insert(s[|s| - 1], Ascending(s[..|s| - 1]))
  }

  lemma {:induction false} AscendingFacts(s: seq<int>)
    ensures Sorted(Ascending(s)) && multiset(Ascending(s)) == multiset(s)
  {
    if s == [] {
    } else {
      assert s == s[..|s| - 1] + [s[|s| - 1]];
      AscendingFacts(s[..|s| - 1]);
      InsertElements(s[|s| - 1], Ascending(s[..|s| - 1]));
      InsertSorts(s[|s| - 1], Ascending(s[..|s| - 1]));
    }
  }

  /** Nearest by score; the first listed wins an exact tie. */
  function NearestOf(cs: seq<Candidate>, score: Candidate -> real): Candidate
    requires cs != []
  {
    if |cs| == 1 then cs[0]
    else
      var last, best := cs[|cs| - 1], NearestOf(cs[..|cs| - 1], score);
      if score(last) < score(best) then last else best
  }

  lemma {:induction false} NearestFacts(cs: seq<Candidate>, score: Candidate -> real)
    requires cs != []
    ensures NearestOf(cs, score) in cs
    ensures forall c :: c in cs ==> score(NearestOf(cs, score)) <= score(c)
  {
    if |cs| == 1 {
    } else {
      NearestFacts(cs[..|cs| - 1], score);
      assert cs == cs[..|cs| - 1] + [cs[|cs| - 1]];
    }
  }

  method Nearest(cs: seq<Candidate>, score: Candidate -> real) returns (best: Candidate)
    requires cs != []
    ensures best == NearestOf(cs, score)
    ensures best in cs && forall c :: c in cs ==> score(best) <= score(c)
  {
    best := cs[0];
    for i := 0 to |cs|
      invariant i == 0 ==> best == cs[0]
      invariant i > 0 ==> best == NearestOf(cs[..i], score)
    {
      assert cs[..i + 1][..i] == cs[..i];
      if score(cs[i]) < score(best) {
        best := cs[i];
      }
    }
    assert cs[..|cs|] == cs;
    NearestFacts(cs, score);
  }

  // ---------------------------------------------------------------- the matcher

  function Score(input: MatchInput, dist: Distance): Candidate -> real {
    (c: Candidate) => dist(input.at, c.departure)
  }

  function InTrip(input: MatchInput): Candidate -> bool {
    (c: Candidate) => Some(c.tripId) == input.activeTrip
  }

  function WithinRadius(input: MatchInput, dist: Distance): Candidate -> bool {
    (c: Candidate) => dist(input.at, c.departure) <= input.radiusNm.GetOr(DEPARTURE_RADIUS_NM)
  }

  function Unrefused(): Candidate -> bool {
    (c: Candidate) => RefusalFor(c).None?
  }

  function Pool(input: MatchInput): seq<Candidate> {
    Filter(input.candidates, InTrip(input))
  }

  function Near(input: MatchInput, dist: Distance): seq<Candidate> {
    Filter(Pool(input), WithinRadius(input, dist))
  }

  function Eligible(input: MatchInput, dist: Distance): seq<Candidate> {
    Filter(Near(input, dist), Unrefused())
  }

  function Refusal(reason: Reason): MatchResult {
    MatchResult(None, None, reason, None, [])
  }

  /** The verdict once some leg is in radius: a blocked nearest leg, several choices, or the one leg. */
  function Answer(near: seq<Candidate>, eligible: seq<Candidate>, score: Candidate -> real): MatchResult
    requires near != []
  {
    if eligible == [] then
      var blocker := NearestOf(near, score);
      MatchResult(None, None, RefusalFor(blocker).GetOr(Matched), Some(score(blocker)), Ascending(Ids(near)))
    else if |eligible| >= 2 then
      MatchResult(None, None, Ambiguous, Some(score(NearestOf(eligible, score))), Ascending(Ids(eligible)))
    else
      MatchResult(Some(eligible[0].legId), Some(eligible[0].tripId), Matched, Some(score(eligible[0])),
                  Ascending(Ids(near)))
  }

  function MatchPlannedLeg(input: MatchInput, dist: Distance): MatchResult {
    if input.alreadyLinkedTo.Some? then Refusal(FlightAlreadyLinked)
    else if input.activeTrip.None? then Refusal(NoActiveTrip)
    else
      var pool := Pool(input);
      var score := Score(input, dist);
      if pool == [] then Refusal(NoPlannedLegs)
      else
        var near := Near(input, dist);
        if near == [] then Refusal(NoLegInRadius).(distanceNm := Some(score(NearestOf(pool, score))))
        else Answer(near, Eligible(input, dist), score)
  }

  // ---------------------------------------------------------------- what a match means

  predicate InRadius(input: MatchInput, c: Candidate, dist: Distance) {
    && input.activeTrip == Some(c.tripId)
    && dist(input.at, c.departure) <= input.radiusNm.GetOr(DEPARTURE_RADIUS_NM)
  }

  /** A leg of the active trip, within the radius, with nothing against it. */
  predicate Usable(input: MatchInput, c: Candidate, dist: Distance) {
    && InRadius(input, c, dist)
    && c.status.Planned? && c.linkedFlight.None? && c.departureIsAirport
  }

  predicate Names(r: MatchResult, input: MatchInput, c: Candidate, dist: Distance) {
    r.legId == Some(c.legId) && r.tripId == input.activeTrip && r.distanceNm == Some(dist(input.at, c.departure))
  }

  /** In radius; for an ambiguous answer, usable as well. */
  predicate Listed(r: MatchResult, input: MatchInput, c: Candidate, dist: Distance) {
    InRadius(input, c, dist) && (r.reason.Ambiguous? ==> Usable(input, c, dist))
  }

  /** The number of list positions holding a usable leg. */
  function UsableCount(input: MatchInput, cs: seq<Candidate>, dist: Distance): nat {
    if cs == [] then 0
    else UsableCount(input, cs[..|cs| - 1], dist) + if Usable(input, cs[|cs| - 1], dist) then 1 else 0
  }

  function UsableBy(input: MatchInput, dist: Distance): Candidate -> bool {
    (c: Candidate) => Usable(input, c, dist)
  }

  lemma FilterAppend(xs: seq<Candidate>, x: Candidate, keep: Candidate -> bool)
    ensures Filter(xs + [x], keep) == Filter(xs, keep) + (if keep(x) then [x] else [])
  {
    assert (xs + [x])[..|xs|] == xs;
  }

  lemma {:induction false} FilterTwice(xs: seq<Candidate>, p: Candidate -> bool, q: Candidate -> bool,
                                       both: Candidate -> bool)
    requires forall c :: both(c) <==> p(c) && q(c)
    ensures Filter(Filter(xs, p), q) == Filter(xs, both)
  {
    if xs == [] {
    } else {
      FilterTwice(xs[..|xs| - 1], p, q, both);
      FilterAppend(Filter(xs[..|xs| - 1], p), xs[|xs| - 1], q);
      if !p(xs[|xs| - 1]) {
        assert Filter(xs, p) == Filter(xs[..|xs| - 1], p);
      }
    }
  }

  lemma {:induction false} CountUsable(input: MatchInput, cs: seq<Candidate>, dist: Distance)
    ensures |Filter(cs, UsableBy(input, dist))| == UsableCount(input, cs, dist)
  {
    if cs == [] {
    } else {
      CountUsable(input, cs[..|cs| - 1], dist);
    }
  }

  lemma EligibleAreUsable(input: MatchInput, dist: Distance)
    ensures |Eligible(input, dist)| == UsableCount(input, input.candidates, dist)
  {
    var near := (c: Candidate) => InRadius(input, c, dist);
    FilterTwice(input.candidates, InTrip(input), WithinRadius(input, dist), near);
    FilterTwice(input.candidates, near, Unrefused(), UsableBy(input, dist));
    CountUsable(input, input.candidates, dist);
  }

  lemma AnswerMatched(near: seq<Candidate>, eligible: seq<Candidate>, score: Candidate -> real)
    requires near != [] && eligible == Filter(near, Unrefused())
    ensures Answer(near, eligible, score).reason.Matched? <==> |eligible| == 1
  {
    FilterMembers(near, Unrefused());
    if eligible == [] {
      NearestFacts(near, score);
      assert NearestOf(near, score) !in eligible;
    }
  }

  lemma NearMembers(input: MatchInput, dist: Distance)
    ensures forall c :: c in Near(input, dist) <==> c in input.candidates && InRadius(input, c, dist)
    ensures forall c :: c in Eligible(input, dist) <==> c in input.candidates && Usable(input, c, dist)
  {
    FilterMembers(input.candidates, InTrip(input));
    FilterMembers(Pool(input), WithinRadius(input, dist));
    FilterMembers(Near(input, dist), Unrefused());
  }

  /**
   * A match is exactly: an unlinked flight, an active trip, and one usable leg in
   * the whole list; it names that leg.
   */
  lemma MatchedIffOneUsable(input: MatchInput, dist: Distance)
    ensures
      var r := MatchPlannedLeg(input, dist);
      && (r.reason.Matched? <==>
            input.alreadyLinkedTo.None? && input.activeTrip.Some? && UsableCount(input, input.candidates, dist) == 1)
      && (r.reason.Matched? ==> exists c :: c in input.candidates && Usable(input, c, dist) && Names(r, input, c, dist))
      && (!r.reason.Matched? ==> r.legId.None? && r.tripId.None?)
  {
    EligibleAreUsable(input, dist);
    NearMembers(input, dist);
    var near, eligible := Near(input, dist), Eligible(input, dist);
    if input.alreadyLinkedTo.None? && input.activeTrip.Some? {
      if near != [] {
        AnswerMatched(near, eligible, Score(input, dist));
      }
      if |eligible| == 1 {
        assert Usable(input, eligible[0], dist);
        assert near != [] by { assert eligible[0] in near; }
      }
    }
  }

  /** The distance reported is the least among these legs of the list. */
  ghost predicate ReportsLeast(r: MatchResult, input: MatchInput, dist: Distance, among: Candidate -> bool) {
    && r.distanceNm.Some?
    && (exists c :: c in input.candidates && among(c) && dist(input.at, c.departure) == r.distanceNm.value)
    && (forall c :: c in input.candidates && among(c) ==> r.distanceNm.value <= dist(input.at, c.departure))
  }

  lemma LeastIsReported(r: MatchResult, input: MatchInput, dist: Distance, among: Candidate -> bool, cs: seq<Candidate>)
    requires cs != [] && forall c :: c in cs <==> c in input.candidates && among(c)
    requires r.distanceNm == Some(Score(input, dist)(NearestOf(cs, Score(input, dist))))
    ensures ReportsLeast(r, input, dist, among)
  {
    NearestFacts(cs, Score(input, dist));
    assert NearestOf(cs, Score(input, dist)) in cs;
  }

  function InActiveTrip(input: MatchInput): Candidate -> bool {
    (c: Candidate) => input.activeTrip == Some(c.tripId)
  }

  function InRadiusBy(input: MatchInput, dist: Distance): Candidate -> bool {
    (c: Candidate) => InRadius(input, c, dist)
  }

  /** Which refusal a takeoff gets, and which distance is reported with it. */
  lemma WhyRefused(input: MatchInput, dist: Distance)
    ensures
      var r, cs := MatchPlannedLeg(input, dist), input.candidates;
      if input.alreadyLinkedTo.Some? then r == Refusal(FlightAlreadyLinked)
      else if input.activeTrip.None? then r == Refusal(NoActiveTrip)
      else if forall c :: c in cs ==> input.activeTrip != Some(c.tripId) then r == Refusal(NoPlannedLegs)
      else if forall c :: c in cs ==> !InRadius(input, c, dist) then
        r == Refusal(NoLegInRadius).(distanceNm := r.distanceNm) && ReportsLeast(r, input, dist, InActiveTrip(input))
      else if UsableCount(input, cs, dist) >= 2 then
        r.reason.Ambiguous? && ReportsLeast(r, input, dist, UsableBy(input, dist))
      else if UsableCount(input, cs, dist) == 1 then r.reason.Matched?
      else
        && ReportsLeast(r, input, dist, InRadiusBy(input, dist))
        && exists c :: c in cs && InRadius(input, c, dist) && r.distanceNm == Some(dist(input.at, c.departure))
             && RefusalFor(c) == Some(r.reason)
  {
    var r, score := MatchPlannedLeg(input, dist), Score(input, dist);
    FilterMembers(input.candidates, InTrip(input));
    NearMembers(input, dist);
    EligibleAreUsable(input, dist);
    if input.alreadyLinkedTo.None? && input.activeTrip.Some? && Pool(input) != [] {
      assert Pool(input)[0] in Pool(input);
      var near, eligible := Near(input, dist), Eligible(input, dist);
      if near == [] {
        LeastIsReported(r, input, dist, InActiveTrip(input), Pool(input));
      } else {
        assert near[0] in near;
        if |eligible| >= 2 {
          LeastIsReported(r, input, dist, UsableBy(input, dist), eligible);
        } else if eligible == [] {
          var blocker := NearestOf(near, score);
          NearestFacts(near, score);
          assert RefusalFor(blocker).Some? by {
            assert RefusalFor(blocker).None? ==> blocker in eligible by {
              FilterMembers(near, Unrefused());
            }
          }
          LeastIsReported(r, input, dist, InRadiusBy(input, dist), near);
        }
      }
    }
  }

  ghost predicate IsListed(r: MatchResult, input: MatchInput, id: int, dist: Distance) {
    exists c :: c in input.candidates && c.legId == id && Listed(r, input, c, dist)
  }

  ghost predicate HasId(cs: seq<Candidate>, id: int) {
    exists c :: c in cs && c.legId == id
  }

  /** The list the answer is drawn from. */
  function NearbyLegs(input: MatchInput, dist: Distance): seq<Candidate> {
    if MatchPlannedLeg(input, dist).reason.Ambiguous? then Eligible(input, dist) else Near(input, dist)
  }

  lemma ObstacleIsNotAmbiguity(c: Candidate)
    ensures RefusalFor(c).GetOr(Matched) != Ambiguous
  {}

  lemma AnswerLists(near: seq<Candidate>, eligible: seq<Candidate>, score: Candidate -> real)
    requires near != []
    ensures
      var r := Answer(near, eligible, score);
      && (r.reason.Ambiguous? <==> |eligible| >= 2)
      && r.nearby == Ascending(Ids(if |eligible| >= 2 then eligible else near))
  {
    if eligible == [] {
      ObstacleIsNotAmbiguity(NearestOf(near, score));
    } else if |eligible| >= 2 {
      assert Answer(near, eligible, score).nearby == Ascending(Ids(eligible));
    } else {
      assert Answer(near, eligible, score).nearby == Ascending(Ids(near));
    }
  }

  lemma NearbyIsAscending(input: MatchInput, dist: Distance)
    requires input.alreadyLinkedTo.None? && input.activeTrip.Some?
    ensures MatchPlannedLeg(input, dist).nearby == Ascending(Ids(NearbyLegs(input, dist)))
  {
    var near, eligible, score := Near(input, dist), Eligible(input, dist), Score(input, dist);
    if near == [] {
      assert Ascending(Ids(near)) == [];
    } else {
      assert Pool(input) != [];
      assert MatchPlannedLeg(input, dist) == Answer(near, eligible, score);
      AnswerLists(near, eligible, score);
    }
  }

  lemma ListedAreNearby(input: MatchInput, dist: Distance, id: int)
    ensures HasId(NearbyLegs(input, dist), id) <==> IsListed(MatchPlannedLeg(input, dist), input, id, dist)
  {
    NearMembers(input, dist);
  }

  lemma AscendingHas(s: seq<int>, id: int)
    ensures id in Ascending(s) <==> id in s
  {
    AscendingFacts(s);
    assert id in multiset(Ascending(s)) <==> id in multiset(s);
  }

  lemma {:induction false} IdsHave(cs: seq<Candidate>, id: int)
    ensures id in Ids(cs) <==> HasId(cs, id)
  {
    if cs == [] {
    } else {
      IdsHave(cs[..|cs| - 1], id);
      assert cs == cs[..|cs| - 1] + [cs[|cs| - 1]];
    }
  }

  lemma NearbyHas(input: MatchInput, dist: Distance, id: int)
    requires input.alreadyLinkedTo.None? && input.activeTrip.Some?
    ensures
      var r := MatchPlannedLeg(input, dist);
      id in r.nearby <==> IsListed(r, input, id, dist)
  {
    NearbyIsAscending(input, dist);
    AscendingHas(Ids(NearbyLegs(input, dist)), id);
    IdsHave(NearbyLegs(input, dist), id);
    ListedAreNearby(input, dist, id);
  }

  /** nearbyLegIds lists, in ascending order, the legs in radius, or the eligible ones when several are. */
  lemma NearbyIsExact(input: MatchInput, dist: Distance)
    ensures
      var r := MatchPlannedLeg(input, dist);
      && Sorted(r.nearby)
      && (r.nearby != [] || r.reason.Matched? ==> input.alreadyLinkedTo.None? && input.activeTrip.Some?)
      && (input.alreadyLinkedTo.None? && input.activeTrip.Some? ==>
            forall id :: id in r.nearby <==> IsListed(r, input, id, dist))
  {
    if input.alreadyLinkedTo.None? && input.activeTrip.Some? {
      NearbyIsAscending(input, dist);
      AscendingFacts(Ids(NearbyLegs(input, dist)));
      forall id
        ensures id in MatchPlannedLeg(input, dist).nearby <==> IsListed(MatchPlannedLeg(input, dist), input, id, dist)
      {
        NearbyHas(input, dist, id);
      }
    }
  }

  // ---------------------------------------------------------------- the order of the candidates

  lemma {:induction false} FilterCounts(xs: seq<Candidate>, keep: Candidate -> bool, c: Candidate)
    ensures multiset(Filter(xs, keep))[c] == if keep(c) then multiset(xs)[c] else 0
  {
    if xs == [] {
    } else {
      FilterCounts(xs[..|xs| - 1], keep, c);
      assert xs == xs[..|xs| - 1] + [xs[|xs| - 1]];
    }
  }

  lemma FilterPermutes(xs: seq<Candidate>, ys: seq<Candidate>, keep: Candidate -> bool)
    requires multiset(xs) == multiset(ys)
    ensures multiset(Filter(xs, keep)) == multiset(Filter(ys, keep))
  {
    forall c
      ensures multiset(Filter(xs, keep))[c] == multiset(Filter(ys, keep))[c]
    {
      FilterCounts(xs, keep, c);
      FilterCounts(ys, keep, c);
    }
  }

  lemma {:induction false} IdsConcat(xs: seq<Candidate>, ys: seq<Candidate>)
    ensures Ids(xs + ys) == Ids(xs) + Ids(ys)
    decreases |ys|
  {
    if ys == [] {
      assert xs + ys == xs;
    } else {
      assert (xs + ys)[..|xs + ys| - 1] == xs + ys[..|ys| - 1];
      IdsConcat(xs, ys[..|ys| - 1]);
    }
  }

  lemma IdsAround(a: seq<Candidate>, c: Candidate, b: seq<Candidate>)
    ensures multiset(Ids(a + [c] + b)) == multiset(Ids(a + b)) + multiset{c.legId}
  {
    IdsConcat(a + [c], b);
    IdsConcat(a, b);
    IdsConcat(a, [c]);
    assert Ids([c]) == [c.legId];
    calc {
      multiset(Ids(a + [c] + b));
      multiset(Ids(a) + [c.legId] + Ids(b));
      multiset(Ids(a)) + multiset{c.legId} + multiset(Ids(b));
      multiset(Ids(a)) + multiset(Ids(b)) + multiset{c.legId};
      { assert multiset(Ids(a) + Ids(b)) == multiset(Ids(a)) + multiset(Ids(b)); }
      multiset(Ids(a + b)) + multiset{c.legId};
    }
  }

  lemma RemoveOne(init: seq<Candidate>, last: Candidate, a: seq<Candidate>, b: seq<Candidate>)
    requires multiset(init + [last]) == multiset(a + [last] + b)
    ensures multiset(init) == multiset(a + b)
  {
    assert multiset(init + [last]) == multiset(init) + multiset{last};
    assert multiset(a + [last] + b) == multiset(a + b) + multiset{last};
    assert multiset(init) == multiset(init + [last]) - multiset{last};
    assert multiset(a + b) == multiset(a + [last] + b) - multiset{last};
  }

  lemma Around(ys: seq<Candidate>, c: Candidate) returns (a: seq<Candidate>, b: seq<Candidate>)
    requires c in multiset(ys)
    ensures ys == a + [c] + b
  {
    var i :| 0 <= i < |ys| && ys[i] == c;
    a, b := ys[..i], ys[i + 1..];
  }

  lemma {:induction false} IdsPermute(xs: seq<Candidate>, ys: seq<Candidate>)
    requires multiset(xs) == multiset(ys)
    ensures multiset(Ids(xs)) == multiset(Ids(ys))
    decreases |xs|
  {
    if xs == [] {
      assert |ys| == |multiset(ys)| == 0;
    } else {
      var init, last := xs[..|xs| - 1], xs[|xs| - 1];
      assert xs == init + [last];
      var a, b := Around(ys, last);
      RemoveOne(init, last, a, b);
      IdsPermute(init, a + b);
      IdsAround(a, last, b);
    }
  }

  lemma FirstIsLeast(s: seq<int>, x: int)
    requires Sorted(s) && x in multiset(s)
    ensures s != [] && s[0] <= x
  {
    var i :| 0 <= i < |s| && s[i] == x;
  }

  lemma SameFirst(s: seq<int>, t: seq<int>)
    requires Sorted(s) && Sorted(t) && multiset(s) == multiset(t) && s != []
    ensures t != [] && s[0] == t[0]
  {
    assert s[0] in multiset(s);
    FirstIsLeast(t, s[0]);
    assert t[0] in multiset(t);
    FirstIsLeast(s, t[0]);
  }

  lemma WithoutFirst(s: seq<int>)
    requires s != []
    ensures multiset(s[1..]) == multiset(s) - multiset{s[0]}
    ensures Sorted(s) ==> Sorted(s[1..])
  {
    assert s == [s[0]] + s[1..];
  }

  lemma {:induction false} SortedIsUnique(s: seq<int>, t: seq<int>)
    requires Sorted(s) && Sorted(t) && multiset(s) == multiset(t)
    ensures s == t
    decreases |s|
  {
    if s == [] {
      assert |t| == |multiset(t)| == 0;
    } else {
      SameFirst(s, t);
      WithoutFirst(s);
      WithoutFirst(t);
      SortedIsUnique(s[1..], t[1..]);
      assert s == [s[0]] + s[1..] && t == [t[0]] + t[1..];
    }
  }

  lemma AscendingIdsPermute(xs: seq<Candidate>, ys: seq<Candidate>)
    requires multiset(xs) == multiset(ys)
    ensures Ascending(Ids(xs)) == Ascending(Ids(ys))
  {
    IdsPermute(xs, ys);
    AscendingFacts(Ids(xs));
    AscendingFacts(Ids(ys));
    SortedIsUnique(Ascending(Ids(xs)), Ascending(Ids(ys)));
  }

  ghost predicate TiedPair(input: MatchInput, c: Candidate, d: Candidate, dist: Distance) {
    var near := Near(input, dist);
    && c in near && d in near
    && RefusalFor(c) != RefusalFor(d)
    && dist(input.at, c.departure) == dist(input.at, d.departure)
    && forall e :: e in near ==> dist(input.at, c.departure) <= dist(input.at, e.departure)
  }

  /**
   * The one thing the order can decide: when every leg in radius is blocked,
   * two of them are exactly as near as each other, and their obstacles differ.
   */
  ghost predicate TiedDifferently(input: MatchInput, dist: Distance) {
    && input.alreadyLinkedTo.None? && input.activeTrip.Some?
    && Eligible(input, dist) == []
    && exists c, d :: TiedPair(input, c, d, dist)
  }

  lemma {:induction false} FilterSame(xs: seq<Candidate>, p: Candidate -> bool, q: Candidate -> bool)
    requires forall c :: p(c) == q(c)
    ensures Filter(xs, p) == Filter(xs, q)
  {
    if xs == [] {
    } else {
      FilterSame(xs[..|xs| - 1], p, q);
    }
  }

  lemma InputsPermute(a: MatchInput, b: MatchInput, dist: Distance)
    requires b == a.(candidates := b.candidates) && multiset(a.candidates) == multiset(b.candidates)
    ensures multiset(Pool(a)) == multiset(Pool(b))
    ensures multiset(Near(a, dist)) == multiset(Near(b, dist))
    ensures multiset(Eligible(a, dist)) == multiset(Eligible(b, dist))
  {
    FilterSame(b.candidates, InTrip(a), InTrip(b));
    FilterPermutes(a.candidates, b.candidates, InTrip(a));
    FilterSame(Pool(b), WithinRadius(a, dist), WithinRadius(b, dist));
    FilterPermutes(Pool(a), Pool(b), WithinRadius(a, dist));
    FilterPermutes(Near(a, dist), Near(b, dist), Unrefused());
  }

  /** The two takeoff positions are one and the same. */
  lemma SameScore(a: MatchInput, b: MatchInput, dist: Distance)
    requires a.at == b.at
    ensures Score(a, dist) == Score(b, dist)
  {}

  lemma SameLength(xs: seq<Candidate>, ys: seq<Candidate>)
    requires multiset(xs) == multiset(ys)
    ensures |xs| == |ys|
    ensures |xs| == 1 ==> xs == ys
  {
    assert |xs| == |multiset(xs)| == |multiset(ys)| == |ys|;
    if |xs| == 1 {
      assert xs[0] in multiset(ys);
    }
  }

  lemma ScoresPermute(xs: seq<Candidate>, ys: seq<Candidate>, score: Candidate -> real)
    requires xs != [] && ys != [] && multiset(xs) == multiset(ys)
    ensures score(NearestOf(xs, score)) == score(NearestOf(ys, score))
  {
    var p, q := NearestOf(xs, score), NearestOf(ys, score);
    NearestFacts(xs, score);
    NearestFacts(ys, score);
    assert p in multiset(xs) && q in multiset(ys);
    assert score(p) <= score(q) && score(q) <= score(p);
  }

  lemma AnswerPermutes(near: seq<Candidate>, near': seq<Candidate>, eligible: seq<Candidate>, eligible': seq<Candidate>,
                       score: Candidate -> real)
    requires near != [] && near' != [] && multiset(near) == multiset(near') && multiset(eligible) == multiset(eligible')
    ensures Answer(near', eligible', score)
         == Answer(near, eligible, score).(reason := Answer(near', eligible', score).reason)
    ensures Answer(near', eligible', score).reason == Answer(near, eligible, score).reason
      || (eligible == [] && eligible' == [])
  {
    AscendingIdsPermute(near, near');
    AscendingIdsPermute(eligible, eligible');
    SameLength(eligible, eligible');
    ScoresPermute(near, near', score);
    if eligible != [] {
      ScoresPermute(eligible, eligible', score);
    }
  }

  lemma BlockersPermute(a: MatchInput, near': seq<Candidate>, dist: Distance)
    requires a.alreadyLinkedTo.None? && a.activeTrip.Some? && !TiedDifferently(a, dist) && Eligible(a, dist) == []
    requires Near(a, dist) != [] && near' != [] && multiset(Near(a, dist)) == multiset(near')
    ensures RefusalFor(NearestOf(Near(a, dist), Score(a, dist))) == RefusalFor(NearestOf(near', Score(a, dist)))
  {
    var p, q := NearestOf(Near(a, dist), Score(a, dist)), NearestOf(near', Score(a, dist));
    NearestFacts(Near(a, dist), Score(a, dist));
    NearestFacts(near', Score(a, dist));
    assert p in multiset(near') && q in multiset(Near(a, dist));
    ScoresPermute(Near(a, dist), near', Score(a, dist));
    assert !TiedPair(a, p, q, dist);
  }

  /** With a leg in radius, the verdict is the answer about the legs in radius. */
  lemma MatchIsAnswer(input: MatchInput, dist: Distance)
    requires input.alreadyLinkedTo.None? && input.activeTrip.Some? && Near(input, dist) != []
    ensures MatchPlannedLeg(input, dist) == Answer(Near(input, dist), Eligible(input, dist), Score(input, dist))
  {
    assert Pool(input) != [];
  }

  lemma NearOrderIsIrrelevant(a: MatchInput, b: MatchInput, dist: Distance)
    requires b == a.(candidates := b.candidates) && multiset(a.candidates) == multiset(b.candidates)
    requires a.alreadyLinkedTo.None? && a.activeTrip.Some? && Near(a, dist) != []
    ensures MatchPlannedLeg(b, dist) == MatchPlannedLeg(a, dist).(reason := MatchPlannedLeg(b, dist).reason)
    ensures !TiedDifferently(a, dist) ==> MatchPlannedLeg(b, dist) == MatchPlannedLeg(a, dist)
  {
    InputsPermute(a, b, dist);
    SameScore(a, b, dist);
    SameLength(Near(a, dist), Near(b, dist));
    MatchIsAnswer(a, dist);
    MatchIsAnswer(b, dist);
    AnswerPermutes(Near(a, dist), Near(b, dist), Eligible(a, dist), Eligible(b, dist), Score(a, dist));
    if Eligible(a, dist) == [] && !TiedDifferently(a, dist) {
      BlockersPermute(a, Near(b, dist), dist);
    }
  }

  lemma FarOrderIsIrrelevant(a: MatchInput, b: MatchInput, dist: Distance)
    requires b == a.(candidates := b.candidates) && multiset(a.candidates) == multiset(b.candidates)
    requires a.alreadyLinkedTo.None? && a.activeTrip.Some? && Near(a, dist) == []
    ensures MatchPlannedLeg(b, dist) == MatchPlannedLeg(a, dist)
  {
    InputsPermute(a, b, dist);
    SameScore(a, b, dist);
    SameLength(Near(a, dist), Near(b, dist));
    SameLength(Pool(a), Pool(b));
    if Pool(a) != [] {
      ScoresPermute(Pool(a), Pool(b), Score(a, dist));
    }
  }

  /** Listing the candidates in another order changes nothing but the obstacle named on such a tie. */
  lemma OrderIsIrrelevant(a: MatchInput, b: MatchInput, dist: Distance)
    requires b == a.(candidates := b.candidates) && multiset(a.candidates) == multiset(b.candidates)
    ensures MatchPlannedLeg(b, dist) == MatchPlannedLeg(a, dist).(reason := MatchPlannedLeg(b, dist).reason)
    ensures !TiedDifferently(a, dist) ==> MatchPlannedLeg(b, dist) == MatchPlannedLeg(a, dist)
  {
    if a.alreadyLinkedTo.None? && a.activeTrip.Some? {
      if Near(a, dist) == [] {
        FarOrderIsIrrelevant(a, b, dist);
      } else {
        NearOrderIsIrrelevant(a, b, dist);
      }
    }
  }

  /** The same question with its candidates listed in another order. */
  ghost predicate Reordered(a: MatchInput, b: MatchInput) {
    b == a.(candidates := b.candidates) && multiset(a.candidates) == multiset(b.candidates)
  }

  ghost function ToFront(cs: seq<Candidate>, c: Candidate): (r: seq<Candidate>)
    requires c in cs
    ensures r != [] && r[0] == c && multiset(r) == multiset(cs)
  {
    var i :| 0 <= i < |cs| && cs[i] == c;
    assert cs == cs[..i] + [c] + cs[i + 1..];
    [c] + cs[..i] + cs[i + 1..]
  }

  lemma {:induction false} FilterKeepsFirst(xs: seq<Candidate>, keep: Candidate -> bool)
    requires xs != [] && keep(xs[0])
    ensures Filter(xs, keep) != [] && Filter(xs, keep)[0] == xs[0]
  {
    if |xs| <= 1 {
    } else {
      FilterKeepsFirst(xs[..|xs| - 1], keep);
    }
  }

  lemma {:induction false} FirstOfNearestWins(cs: seq<Candidate>, score: Candidate -> real)
    requires cs != [] && forall c :: c in cs ==> score(cs[0]) <= score(c)
    ensures NearestOf(cs, score) == cs[0]
  {
    if |cs| <= 1 {
    } else {
      FirstOfNearestWins(cs[..|cs| - 1], score);
    }
  }

  /** The nearest blocked leg, listed first, is the one whose obstacle is named. */
  lemma FrontBlocks(a: MatchInput, b: MatchInput, c: Candidate, dist: Distance)
    requires a.alreadyLinkedTo.None? && a.activeTrip.Some? && Eligible(a, dist) == []
    requires b == a.(candidates := b.candidates) && multiset(a.candidates) == multiset(b.candidates)
    requires b.candidates != [] && b.candidates[0] == c && c in Near(a, dist)
    requires forall e :: e in Near(a, dist) ==> dist(a.at, c.departure) <= dist(a.at, e.departure)
    ensures Some(MatchPlannedLeg(b, dist).reason) == RefusalFor(c)
  {
    NearMembers(a, dist);
    InputsPermute(a, b, dist);
    SameLength(Eligible(a, dist), Eligible(b, dist));
    FilterKeepsFirst(b.candidates, InTrip(b));
    FilterKeepsFirst(Pool(b), WithinRadius(b, dist));
    var near := Near(b, dist);
    forall e | e in near
      ensures Score(b, dist)(c) <= Score(b, dist)(e)
    {
      assert e in multiset(Near(a, dist));
    }
    FirstOfNearestWins(near, Score(b, dist));
    assert RefusalFor(c).Some? by {
      FilterMembers(Near(a, dist), Unrefused());
      assert c !in Eligible(a, dist);
    }
  }

  /** Some reordering changes the answer exactly when there is such a tie. */
  lemma OrderMattersIffTied(a: MatchInput, dist: Distance)
    ensures TiedDifferently(a, dist) <==>
        exists b :: Reordered(a, b) && MatchPlannedLeg(b, dist) != MatchPlannedLeg(a, dist)
  {
    if TiedDifferently(a, dist) {
      var c, d :| TiedPair(a, c, d, dist);
      NearMembers(a, dist);
      var first := a.(candidates := ToFront(a.candidates, c));
      var other := a.(candidates := ToFront(a.candidates, d));
      FrontBlocks(a, first, c, dist);
      FrontBlocks(a, other, d, dist);
      assert Reordered(a, first) && Reordered(a, other);
    } else {
      forall b | Reordered(a, b)
        ensures MatchPlannedLeg(b, dist) == MatchPlannedLeg(a, dist)
      {
        OrderIsIrrelevant(a, b, dist);
      }
    }
  }
}
