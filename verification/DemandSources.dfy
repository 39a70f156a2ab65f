/** Where the wants of an answer come from: requests, scanned legs, and the fixes of airways that break off. */
module DemandSources {
  import opened Wrappers
  import opened DemandModel
  import opened DemandAnswer
  import opened DemandPromises

  /** The regions remembered under an ident are those of the navaids wanted under it. */
  ghost predicate RegionsAreWanted(c: Collected) {
    forall ident, region :: region in RegionsOf(c, ident) <==>
      exists w :: w in c.navaids && w.ident == ident && w.region.GetOr("") == region
  }

  /** Everything collected comes from this source. */
  ghost predicate ComesFrom(c: Collected, source: iset<Want>) {
    && (forall w :: w in Listed(c) ==> w in source)
    && RegionsAreWanted(c)
  }

  lemma CollectRegions(c: Collected, want: Want, intoGaps: bool)
    requires RegionsAreWanted(c) && (intoGaps ==> want.kind.W?)
    ensures RegionsAreWanted(Collect(c, want, intoGaps))
  {
    var after := Collect(c, want, intoGaps);
    var adds := Key(want) !in c.seen && (want.kind.V? || want.kind.N?);
    assert forall w :: w in after.navaids <==> w in c.navaids || (adds && w == want);
    forall ident, region
      ensures region in RegionsOf(after, ident) <==>
        exists w :: w in after.navaids && w.ident == ident && w.region.GetOr("") == region
    {
      assert region in RegionsOf(after, ident) <==>
        region in RegionsOf(c, ident) || (adds && want.ident == ident && want.region.GetOr("") == region);
    }
  }

  lemma OfferComesFrom(f: Filter, c: Collected, want: Want, inGapPass: bool, source: iset<Want>)
    requires ComesFrom(c, source) && want in source
    ensures ComesFrom(Offer(f, c, want, inGapPass), source)
  {
    CollectRegions(c, want, inGapPass && want.kind.W?);
    var after := Offer(f, c, want, inGapPass);
    assert forall w :: w in Listed(after) ==> w in Listed(c) || w == want;
  }

  lemma {:induction false} OfferingComesFrom(f: Filter, c: Collected, wants: seq<Want>, inGapPass: bool,
                                             source: iset<Want>)
    requires ComesFrom(c, source) && forall w :: w in wants ==> w in source
    ensures ComesFrom(OfferUntilEnough(f, c, wants, inGapPass), source)
    decreases |wants|
  {
    if wants == [] {
    } else {
      OfferComesFrom(f, c, wants[0], inGapPass, source);
      OfferingComesFrom(f, Offer(f, c, wants[0], inGapPass), wants[1..], inGapPass, source);
    }
  }

  lemma {:induction false} RequestsComeFrom(l: Lookups, f: Filter, c: Collected, requests: seq<Request>,
                                            source: iset<Want>)
    requires ComesFrom(c, source) && forall r :: r in requests ==> WantOfRequest(l, r) in source
    ensures ComesFrom(FromRequests(l, f, c, requests), source)
    decreases |requests|
  {
    if requests == [] {
    } else {
      OfferComesFrom(f, c, WantOfRequest(l, requests[0]), false, source);
      RequestsComeFrom(l, f, Offer(f, c, WantOfRequest(l, requests[0]), false), requests[1..], source);
    }
  }

  lemma {:induction false} LegsComeFrom(l: Lookups, f: Filter, c: Collected, legs: seq<Leg>, source: iset<Want>)
    requires ComesFrom(c, source) && forall leg, w :: leg in legs && w in LegWants(l, leg) ==> w in source
    ensures ComesFrom(FromLegs(l, f, c, legs), source)
    decreases |legs|
  {
    if legs == [] || Enough(c) {
    } else {
      OfferingComesFrom(f, c, LegWants(l, legs[0]), false, source);
      LegsComeFrom(l, f, OfferUntilEnough(f, c, LegWants(l, legs[0]), false), legs[1..], source);
    }
  }

  // ---------------------------------------------------------------- the gap pass

  ghost predicate IsOneOf(l: Lookups, reach: seq<Node>, w: Want) {
    exists node :: node in reach && w.ident == node.ident && IsRegion(l, Some(node.region), w.region)
  }

  /** A fix reached from one end of a pair that the replica's legs do not join. */
  ghost predicate OnBrokenAirway(l: Lookups, t: Contents, p: Pair, w: Want) {
    var there := l.walk(t, p.airway, p.from.key, Some(p.to.key));
    && !there.reached && !w.kind.A?
    && (IsOneOf(l, there.nodes, w) || IsOneOf(l, l.walk(t, p.airway, p.to.key, None).nodes, w))
  }

  lemma NodeWantNames(l: Lookups, x: OpenNode)
    ensures
      var w := NodeWant(l, x);
      w.kind == x.kind && w.ident == x.node.ident && IsRegion(l, Some(x.node.region), w.region)
  {}

  lemma FrontierComesFrom(l: Lookups, t: Contents, regions: map<string, set<string>>, reach: seq<Node>, far: Position,
                          w: Want)
    requires w in Frontier(l, t, regions, reach, far)
    ensures !w.kind.A? && IsOneOf(l, reach, w)
  {
    var open := OpenNodes(l, t, regions, reach, far);
    FrontierIsTheChosen(l, open, w);
    var x :| x in open && NodeWant(l, x) == w;
    OpenNodesNeedFetching(l, t, regions, reach, far, x);
    NodeWantNames(l, x);
    assert x.node in reach;
  }

  lemma LookComesFrom(x: Ctx, c: Collected, p: Pair, source: iset<Want>)
    requires ComesFrom(c, source) && forall w :: OnBrokenAirway(x.lookups, x.t, p, w) ==> w in source
    ensures ComesFrom(LookAt(x, c, p), source)
  {
    if !Connected(x, p) {
      var l := x.lookups;
      var near := OfferUntilEnough(x.filter, c, NearSide(x, c, p), true);
      forall w | w in NearSide(x, c, p)
        ensures w in source
      {
        FrontierComesFrom(l, x.t, c.regions, l.walk(x.t, p.airway, p.from.key, Some(p.to.key)).nodes, p.to.at, w);
      }
      OfferingComesFrom(x.filter, c, NearSide(x, c, p), true, source);
      forall w | w in FarSide(x, near, p)
        ensures w in source
      {
        FrontierComesFrom(l, x.t, near.regions, l.walk(x.t, p.airway, p.to.key, None).nodes, p.from.at, w);
      }
      OfferingComesFrom(x.filter, near, FarSide(x, near, p), true, source);
    }
  }

  lemma {:induction false} GapWantsComeFrom(x: Ctx, c: Collected, pairs: seq<Pair>, asked: nat, looked: nat,
                                            source: iset<Want>)
    requires ComesFrom(c, source)
    requires forall p, w :: p in pairs && OnBrokenAirway(x.lookups, x.t, p, w) ==> w in source
    ensures ComesFrom(GapWants(x, c, pairs, asked, looked).c, source)
    decreases |pairs|
  {
    if pairs == [] {
    } else {
      LookComesFrom(x, c, pairs[0], source);
      GapWantsComeFrom(x, LookAt(x, c, pairs[0]), pairs[1..], asked + 1, looked + 1, source);
    }
  }

  lemma {:induction false} GapPassComesFrom(x: Ctx, c: Collected, turns: seq<Turn>, asked: nat, offset: nat,
                                            source: iset<Want>)
    requires ComesFrom(c, source)
    requires forall turn, p, w ::
      turn in turns && p in turn.pairs && OnBrokenAirway(x.lookups, x.t, p, w) ==> w in source
    ensures ComesFrom(GapPass(x, c, turns, asked, offset).c, source)
    decreases |turns|
  {
    if turns == [] || Enough(c) {
    } else {
      var leg := GapWants(x, c, turns[0].pairs, asked, 0);
      assert turns[0] in turns;
      GapWantsComeFrom(x, c, turns[0].pairs, asked, 0, source);
      GapPassComesFrom(x, leg.c, turns[1..], leg.asked, offset, source);
    }
  }

  // ---------------------------------------------------------------- one poll

  /** A fix of an airway that some scanned leg flies between two neighbouring waypoints, and that breaks off. */
  ghost predicate IsGapFix(p: Poll, w: Want) {
    && p.filter.replica.Some?
    && exists leg, pair :: leg in p.legs && pair in Pairs(p.lookups, p.filter.replica.value, leg)
         && OnBrokenAirway(p.lookups, p.filter.replica.value, pair, w)
  }

  ghost function Sources(p: Poll): iset<Want> {
    iset w | Named(p, w) || IsGapFix(p, w)
  }

  lemma GatheredComesFrom(p: Poll, offset: nat)
    ensures ComesFrom(Gathered(p, offset).c, Sources(p))
  {
    var l, source := p.lookups, Sources(p);
    forall r | r in p.requests
      ensures WantOfRequest(l, r) in source
    {
      RequestWantsWhatItNames(l, r, WantOfRequest(l, r));
    }
    forall leg, w | leg in p.legs && w in LegWants(l, leg)
      ensures w in source
    {
      LegWantsWhatItNames(l, leg, w);
    }
    RequestsComeFrom(l, p.filter, NOTHING, p.requests, source);
    LegsComeFrom(l, p.filter, FromRequests(l, p.filter, NOTHING, p.requests), p.legs, source);
    if p.filter.replica.Some? {
      var x := Ctx(l, p.filter.replica.value, p.filter, p.clock);
      var turns := Turns(l, p.filter.replica.value, p.legs, offset);
      forall turn, pair, w | turn in turns && pair in turn.pairs && OnBrokenAirway(l, x.t, pair, w)
        ensures w in source
      {
        assert p.legs[turn.index] in p.legs;
      }
      GapPassComesFrom(x, BeforeGaps(p), turns, 0, offset, source);
    }
  }

  /**
   * Whatever is in the answer was named by a request or a scanned leg, or is a
   * fix of a broken airway between two waypoints of one; and it is open.
   */
  lemma NothingElseIsAsked(p: Poll, offset: nat, w: Want)
    requires w in AnswerOf(Gathered(p, offset).c).wants
    ensures (Named(p, w) || IsGapFix(p, w)) && IsOpen(p.filter, w)
  {
    GatheredComesFrom(p, offset);
    GatheredIsSound(p, offset);
    AcceptsOpen(p.filter, w);
    assert w in Listed(Gathered(p, offset).c);
  }

  /** A navaid counts as wanted for a fix when it has the same ident and the same region, or names no region. */
  lemma WantedNavaidsExactly(p: Poll, offset: nat, ident: string, region: string)
    ensures
      var c := Gathered(p, offset).c;
      NavaidWanted(c.regions, ident, region) <==>
        exists w :: w in c.navaids && w.ident == ident && (w.region.GetOr("") == "" || w.region.GetOr("") == region)
  {
    var c := Gathered(p, offset).c;
    GatheredComesFrom(p, offset);
    assert NavaidWanted(c.regions, ident, region) <==> "" in RegionsOf(c, ident) || region in RegionsOf(c, ident);
  }
}
