/**
 * Early exits, the cap and the shared collector do not change the answer: it is
 * what collecting everything and then taking fifty gives.
 */
module DemandRefinement {
  import opened Wrappers
  import opened DemandModel

  // ---------------------------------------------------------------- the naive form

  function OfferAll(f: Filter, c: Collected, wants: seq<Want>, inGapPass: bool): Collected
    decreases |wants|
  {
    if wants == [] then c else OfferAll(f, Offer(f, c, wants[0], inGapPass), wants[1..], inGapPass)
  }

  function AllLegs(l: Lookups, f: Filter, c: Collected, legs: seq<Leg>): Collected
    decreases |legs|
  {
    if legs == [] then c else AllLegs(l, f, OfferAll(f, c, LegWants(l, legs[0]), false), legs[1..])
  }

  function WholeLook(x: Ctx, c: Collected, p: Pair): Collected {
    if Connected(x, p) then c
    else
      var near := OfferAll(x.filter, c, NearSide(x, c, p), true);
      OfferAll(x.filter, near, FarSide(x, near, p), true)
  }

  function AllPairs(x: Ctx, c: Collected, pairs: seq<Pair>): Collected
    decreases |pairs|
  {
    if pairs == [] then c else AllPairs(x, WholeLook(x, c, pairs[0]), pairs[1..])
  }

  function AllGaps(x: Ctx, c: Collected, turns: seq<Turn>): Collected
    decreases |turns|
  {
    if turns == [] then c else AllGaps(x, AllPairs(x, c, turns[0].pairs), turns[1..])
  }

  /** Every request, every leg, every pair of every leg, and only then the first fifty. */
  function Naive(p: Poll, offset: nat): Answer {
    var c := AllLegs(p.lookups, p.filter, FromRequests(p.lookups, p.filter, NOTHING, p.requests), p.legs);
    if p.filter.replica.None? then AnswerOf(c)
    else
      var x := Ctx(p.lookups, p.filter.replica.value, p.filter, p.clock);
      AnswerOf(AllGaps(x, c, Turns(x.lookups, x.t, p.legs, offset)))
  }

  // ---------------------------------------------------------------- only the tail grows

  function Head(c: Collected): seq<Want> {
    c.primary + c.gaps
  }

  /** A collector that stopped early, and one that went on. */
  ghost predicate Agree(stopped: Collected, whole: Collected) {
    stopped == whole || (Enough(stopped) && Head(stopped) <= Head(whole))
  }

  lemma AgreeingAnswers(stopped: Collected, whole: Collected)
    requires Agree(stopped, whole)
    ensures AnswerOf(stopped) == AnswerOf(whole)
  {
    if stopped != whole {
      assert Listed(stopped)[..CAP] == Head(stopped)[..CAP];
      assert Listed(whole)[..CAP] == Head(whole)[..CAP];
    }
  }

  ghost predicate NoAirports(wants: seq<Want>) {
    forall w :: w in wants ==> !w.kind.A?
  }

  /** Before the gap pass there are no gap fixes, and during it nothing joins the primary group. */
  ghost predicate TailOnly(c: Collected, wants: seq<Want>, inGapPass: bool) {
    if inGapPass then NoAirports(wants) else c.gaps == []
  }

  lemma OfferGrows(f: Filter, c: Collected, want: Want, inGapPass: bool)
    requires TailOnly(c, [want], inGapPass)
    ensures
      var d := Offer(f, c, want, inGapPass);
      Head(c) <= Head(d) && (!inGapPass ==> d.gaps == [])
  {
    assert inGapPass ==> want in [want];
  }

  lemma {:induction false} OfferAllGrows(f: Filter, c: Collected, wants: seq<Want>, inGapPass: bool)
    requires TailOnly(c, wants, inGapPass)
    ensures
      var d := OfferAll(f, c, wants, inGapPass);
      Head(c) <= Head(d) && (!inGapPass ==> d.gaps == [])
    decreases |wants|
  {
    if wants == [] {
    } else {
      OfferGrows(f, c, wants[0], inGapPass);
      OfferAllGrows(f, Offer(f, c, wants[0], inGapPass), wants[1..], inGapPass);
    }
  }

  lemma {:induction false} OfferAgrees(f: Filter, c: Collected, wants: seq<Want>, inGapPass: bool)
    requires TailOnly(c, wants, inGapPass) && !Enough(c)
    ensures Agree(OfferUntilEnough(f, c, wants, inGapPass), OfferAll(f, c, wants, inGapPass))
    ensures !inGapPass ==> OfferUntilEnough(f, c, wants, inGapPass).gaps == []
    decreases |wants|
  {
    if wants == [] {
    } else {
      var next := Offer(f, c, wants[0], inGapPass);
      OfferGrows(f, c, wants[0], inGapPass);
      if Enough(next) {
        OfferAllGrows(f, next, wants[1..], inGapPass);
      } else {
        OfferAgrees(f, next, wants[1..], inGapPass);
      }
    }
  }

  // ---------------------------------------------------------------- the requests and the legs

  lemma {:induction false} RequestsLeaveNoGaps(l: Lookups, f: Filter, c: Collected, requests: seq<Request>)
    requires c.gaps == []
    ensures FromRequests(l, f, c, requests).gaps == []
    decreases |requests|
  {
    if requests == [] {
    } else {
      RequestsLeaveNoGaps(l, f, Offer(f, c, WantOfRequest(l, requests[0]), false), requests[1..]);
    }
  }

  lemma {:induction false} AllLegsGrows(l: Lookups, f: Filter, c: Collected, legs: seq<Leg>)
    requires c.gaps == []
    ensures
      var d := AllLegs(l, f, c, legs);
      Head(c) <= Head(d) && d.gaps == []
    decreases |legs|
  {
    if legs == [] {
    } else {
      OfferAllGrows(f, c, LegWants(l, legs[0]), false);
      AllLegsGrows(l, f, OfferAll(f, c, LegWants(l, legs[0]), false), legs[1..]);
    }
  }

  lemma {:induction false} LegsAgree(l: Lookups, f: Filter, c: Collected, legs: seq<Leg>)
    requires c.gaps == []
    ensures Agree(FromLegs(l, f, c, legs), AllLegs(l, f, c, legs))
    ensures FromLegs(l, f, c, legs).gaps == []
    decreases |legs|
  {
    AllLegsGrows(l, f, c, legs);
    if legs == [] || Enough(c) {
    } else {
      var wants := LegWants(l, legs[0]);
      var stopped, whole := OfferUntilEnough(f, c, wants, false), OfferAll(f, c, wants, false);
      OfferAgrees(f, c, wants, false);
      LegsAgree(l, f, stopped, legs[1..]);
      OfferAllGrows(f, c, wants, false);
      AllLegsGrows(l, f, whole, legs[1..]);
    }
  }

  // ---------------------------------------------------------------- the gap pass

  lemma {:induction false} OpenKinds(l: Lookups, t: Contents, regions: map<string, set<string>>, reach: seq<Node>,
                                     far: Position)
    ensures forall x :: x in OpenNodes(l, t, regions, reach, far) ==> !x.kind.A?
    decreases |reach|
  {
    if reach == [] {
    } else {
      OpenKinds(l, t, regions, reach[..|reach| - 1], far);
    }
  }

  lemma {:induction false} InsertKeepsElements(sorted: seq<OpenNode>, x: OpenNode)
    ensures multiset(Insert(sorted, x)) == multiset(sorted) + multiset{x}
    decreases |sorted|
  {
    if sorted == [] || !Precedes(x, sorted[|sorted| - 1]) {
    } else {
      var before := sorted[..|sorted| - 1];
      InsertKeepsElements(before, x);
      assert sorted == before + [sorted[|sorted| - 1]];
    }
  }

  lemma {:induction false} SortKeepsElements(open: seq<OpenNode>)
    ensures multiset(Sort(open)) == multiset(open)
    decreases |open|
  {
    if open == [] {
    } else {
      SortKeepsElements(open[..|open| - 1]);
      InsertKeepsElements(Sort(open[..|open| - 1]), open[|open| - 1]);
      assert open == open[..|open| - 1] + [open[|open| - 1]];
    }
  }

  lemma SortKeepsMembers(open: seq<OpenNode>)
    ensures forall x :: x in Sort(open) ==> x in open
  {
    SortKeepsElements(open);
    forall x | x in Sort(open)
      ensures x in open
    {
      assert x in multiset(Sort(open));
    }
  }

  lemma NearestKeepKinds(l: Lookups, open: seq<OpenNode>)
    requires forall x :: x in open ==> !x.kind.A?
    ensures NoAirports(NearestWants(l, open))
  {
    SortKeepsMembers(open);
  }

  lemma FrontierHasNoAirports(l: Lookups, t: Contents, regions: map<string, set<string>>, reach: seq<Node>,
                              far: Position)
    ensures NoAirports(Frontier(l, t, regions, reach, far))
  {
    OpenKinds(l, t, regions, reach, far);
    NearestKeepKinds(l, OpenNodes(l, t, regions, reach, far));
  }

  lemma SidesHaveNoAirports(x: Ctx, c: Collected, p: Pair)
    ensures NoAirports(NearSide(x, c, p)) && NoAirports(FarSide(x, c, p))
  {
    var l := x.lookups;
    FrontierHasNoAirports(l, x.t, c.regions, l.walk(x.t, p.airway, p.from.key, Some(p.to.key)).nodes, p.to.at);
    FrontierHasNoAirports(l, x.t, c.regions, l.walk(x.t, p.airway, p.to.key, None).nodes, p.from.at);
  }

  lemma LookGrows(x: Ctx, c: Collected, p: Pair)
    ensures Head(c) <= Head(WholeLook(x, c, p))
  {
    var near := OfferAll(x.filter, c, NearSide(x, c, p), true);
    SidesHaveNoAirports(x, c, p);
    SidesHaveNoAirports(x, near, p);
    OfferAllGrows(x.filter, c, NearSide(x, c, p), true);
    OfferAllGrows(x.filter, near, FarSide(x, near, p), true);
  }

  lemma LookAgrees(x: Ctx, c: Collected, p: Pair)
    requires !Enough(c)
    ensures Agree(LookAt(x, c, p), WholeLook(x, c, p))
  {
    var near := OfferAll(x.filter, c, NearSide(x, c, p), true);
    SidesHaveNoAirports(x, c, p);
    SidesHaveNoAirports(x, near, p);
    OfferAgrees(x.filter, c, NearSide(x, c, p), true);
    OfferAllGrows(x.filter, near, FarSide(x, near, p), true);
    if !Enough(near) {
      OfferAgrees(x.filter, near, FarSide(x, near, p), true);
    }
  }

  lemma {:induction false} AllPairsGrows(x: Ctx, c: Collected, pairs: seq<Pair>)
    ensures Head(c) <= Head(AllPairs(x, c, pairs))
    decreases |pairs|
  {
    if pairs == [] {
    } else {
      LookGrows(x, c, pairs[0]);
      AllPairsGrows(x, WholeLook(x, c, pairs[0]), pairs[1..]);
    }
  }

  lemma {:induction false} AllGapsGrows(x: Ctx, c: Collected, turns: seq<Turn>)
    ensures Head(c) <= Head(AllGaps(x, c, turns))
    decreases |turns|
  {
    if turns == [] {
    } else {
      AllPairsGrows(x, c, turns[0].pairs);
      AllGapsGrows(x, AllPairs(x, c, turns[0].pairs), turns[1..]);
    }
  }

  lemma {:induction false} PairsAgree(x: Ctx, c: Collected, pairs: seq<Pair>, asked: nat, looked: nat)
    requires !Enough(c) && !GapWants(x, c, pairs, asked, looked).outcome.Budget?
    ensures
      var leg := GapWants(x, c, pairs, asked, looked);
      && (leg.outcome.Capped? <==> Enough(leg.c))
      && Agree(leg.c, AllPairs(x, c, pairs))
    decreases |pairs|
  {
    if pairs == [] {
    } else {
      var next, whole := LookAt(x, c, pairs[0]), WholeLook(x, c, pairs[0]);
      LookAgrees(x, c, pairs[0]);
      AllPairsGrows(x, whole, pairs[1..]);
      if !Enough(next) {
        PairsAgree(x, next, pairs[1..], asked + 1, looked + 1);
      }
    }
  }

  lemma {:induction false} PassAgrees(x: Ctx, c: Collected, turns: seq<Turn>, asked: nat, offset: nat)
    requires !GapPass(x, c, turns, asked, offset).outcome.Budget?
    ensures Agree(GapPass(x, c, turns, asked, offset).c, AllGaps(x, c, turns))
    decreases |turns|
  {
    AllGapsGrows(x, c, turns);
    if turns == [] || Enough(c) {
    } else {
      var pairs := turns[0].pairs;
      var leg, whole := GapWants(x, c, pairs, asked, 0), AllPairs(x, c, pairs);
      assert !leg.outcome.Budget?;
      PairsAgree(x, c, pairs, asked, 0);
      if leg.outcome.Done? {
        PassAgrees(x, leg.c, turns[1..], leg.asked, offset);
      } else {
        AllGapsGrows(x, whole, turns[1..]);
        assert Head(leg.c) <= Head(whole) <= Head(AllGaps(x, whole, turns[1..]));
      }
    }
  }

  /** Unless the gap pass was cut short by its budget, stopping early never shows in the answer. */
  lemma SameAsNaive(p: Poll, offset: nat)
    requires !Gathered(p, offset).outcome.Budget?
    ensures AnswerOf(Gathered(p, offset).c) == Naive(p, offset)
  {
    var start := FromRequests(p.lookups, p.filter, NOTHING, p.requests);
    RequestsLeaveNoGaps(p.lookups, p.filter, NOTHING, p.requests);
    LegsAgree(p.lookups, p.filter, start, p.legs);
    var stopped, whole := BeforeGaps(p), AllLegs(p.lookups, p.filter, start, p.legs);
    if p.filter.replica.None? {
      AgreeingAnswers(stopped, whole);
    } else {
      var x := Ctx(p.lookups, p.filter.replica.value, p.filter, p.clock);
      var turns := Turns(x.lookups, x.t, p.legs, offset);
      AllGapsGrows(x, whole, turns);
      if !Enough(stopped) {
        PassAgrees(x, stopped, turns, 0, offset);
      }
      AgreeingAnswers(Gathered(p, offset).c, AllGaps(x, whole, turns));
    }
  }

  // ---------------------------------------------------------------- the budget

  ghost predicate NeverLate(clock: nat -> int) {
    forall asked: nat :: !OutOfTime(clock, asked)
  }

  lemma {:induction false} PairsInTime(x: Ctx, c: Collected, pairs: seq<Pair>, asked: nat, looked: nat)
    requires NeverLate(x.clock)
    ensures !GapWants(x, c, pairs, asked, looked).outcome.Budget?
    decreases |pairs|
  {
    if pairs == [] {
    } else {
      assert !OutOfTime(x.clock, asked);
      PairsInTime(x, LookAt(x, c, pairs[0]), pairs[1..], asked + 1, looked + 1);
    }
  }

  lemma {:induction false} PassInTime(x: Ctx, c: Collected, turns: seq<Turn>, asked: nat, offset: nat)
    requires NeverLate(x.clock)
    ensures !GapPass(x, c, turns, asked, offset).outcome.Budget?
    decreases |turns|
  {
    if turns == [] || Enough(c) {
    } else {
      var leg := GapWants(x, c, turns[0].pairs, asked, 0);
      PairsInTime(x, c, turns[0].pairs, asked, 0);
      PassInTime(x, leg.c, turns[1..], leg.asked, offset);
    }
  }

  /** A clock that never shows more than the allowance cuts no pass. */
  lemma InTimeSameAsNaive(p: Poll, offset: nat)
    requires NeverLate(p.clock)
    ensures AnswerOf(Gathered(p, offset).c) == Naive(p, offset)
  {
    if p.filter.replica.Some? {
      var x := Ctx(p.lookups, p.filter.replica.value, p.filter, p.clock);
      PassInTime(x, BeforeGaps(p), Turns(x.lookups, x.t, p.legs, offset), 0, offset);
    }
    SameAsNaive(p, offset);
  }
}
