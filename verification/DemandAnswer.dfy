/** What a demand answer may and must hold. */
module DemandAnswer {
  import opened Wrappers
  import opened DemandModel
  import opened DemandRefinement

  // ---------------------------------------------------------------- no repeats

  ghost predicate NoRepeats(wants: seq<Want>) {
    forall i, j :: 0 <= i < j < |wants| ==> Key(wants[i]) != Key(wants[j])
  }

  ghost predicate AllAccepted(f: Filter, wants: seq<Want>) {
    forall w :: w in wants ==> Accepts(f, w)
  }

  ghost predicate KeysSeen(c: Collected) {
    && (forall w :: w in Listed(c) ==> Key(w) in c.seen)
    && (forall k :: k in c.seen ==> exists w :: w in Listed(c) && Key(w) == k)
  }

  /** What the collector keeps, early exits or not. */
  ghost predicate Sound(f: Filter, c: Collected) {
    NoRepeats(Listed(c)) && AllAccepted(f, Listed(c)) && KeysSeen(c)
  }

  lemma InsertedOnce(before: seq<Want>, want: Want, after: seq<Want>)
    requires NoRepeats(before + after)
    requires forall w :: w in before + after ==> Key(w) != Key(want)
    ensures NoRepeats(before + [want] + after)
  {
    var whole, without := before + [want] + after, before + after;
    forall i, j | 0 <= i < j < |whole|
      ensures Key(whole[i]) != Key(whole[j])
    {
      var m := |before|;
      assert i != m ==> whole[i] == without[if i < m then i else i - 1];
      assert j != m ==> whole[j] == without[if j < m then j else j - 1];
      assert i != m ==> whole[i] in without;
      assert j != m ==> whole[j] in without;
    }
  }

  /** What stays ahead of a newly collected want in the list. */
  function Ahead(c: Collected, want: Want, intoGaps: bool): seq<Want> {
    if intoGaps then c.primary + c.gaps
    else if want.kind.V? || want.kind.N? then Listed(c)
    else c.primary
  }

  lemma CollectInserts(c: Collected, want: Want, intoGaps: bool) returns (after: seq<Want>)
    requires Key(want) !in c.seen && (intoGaps ==> want.kind.W?)
    ensures Listed(c) == Ahead(c, want, intoGaps) + after
    ensures Listed(Collect(c, want, intoGaps)) == Ahead(c, want, intoGaps) + [want] + after
  {
    after := if intoGaps then c.navaids else if want.kind.V? || want.kind.N? then [] else c.gaps + c.navaids;
  }

  lemma InsertedIsSeen(c: Collected, d: Collected, before: seq<Want>, want: Want, after: seq<Want>)
    requires KeysSeen(c) && Listed(c) == before + after
    requires Listed(d) == before + [want] + after && d.seen == c.seen + {Key(want)}
    ensures KeysSeen(d)
  {
    assert want in Listed(d);
    assert forall w :: w in Listed(c) ==> w in Listed(d);
    assert forall w :: w in Listed(d) ==> w == want || w in Listed(c);
  }

  lemma CollectKeeps(f: Filter, c: Collected, want: Want, intoGaps: bool)
    requires Sound(f, c) && Accepts(f, want) && (intoGaps ==> want.kind.W?)
    ensures Sound(f, Collect(c, want, intoGaps))
  {
    if Key(want) !in c.seen {
      var d, before := Collect(c, want, intoGaps), Ahead(c, want, intoGaps);
      var after := CollectInserts(c, want, intoGaps);
      InsertedOnce(before, want, after);
      InsertedIsSeen(c, d, before, want, after);
      forall w | w in Listed(d)
        ensures Accepts(f, w)
      {
        assert w == want || w in Listed(c);
      }
    }
  }

  lemma OfferKeeps(f: Filter, c: Collected, want: Want, inGapPass: bool)
    requires Sound(f, c)
    ensures Sound(f, Offer(f, c, want, inGapPass))
  {
    if Accepts(f, want) {
      CollectKeeps(f, c, want, inGapPass && want.kind.W?);
    }
  }

  lemma {:induction false} OfferUntilEnoughKeeps(f: Filter, c: Collected, wants: seq<Want>, inGapPass: bool)
    requires Sound(f, c)
    ensures Sound(f, OfferUntilEnough(f, c, wants, inGapPass))
    decreases |wants|
  {
    if wants == [] {
    } else {
      OfferKeeps(f, c, wants[0], inGapPass);
      OfferUntilEnoughKeeps(f, Offer(f, c, wants[0], inGapPass), wants[1..], inGapPass);
    }
  }

  lemma {:induction false} RequestsKeep(l: Lookups, f: Filter, c: Collected, requests: seq<Request>)
    requires Sound(f, c)
    ensures Sound(f, FromRequests(l, f, c, requests))
    decreases |requests|
  {
    if requests == [] {
    } else {
      OfferKeeps(f, c, WantOfRequest(l, requests[0]), false);
      RequestsKeep(l, f, Offer(f, c, WantOfRequest(l, requests[0]), false), requests[1..]);
    }
  }

  lemma {:induction false} LegsKeep(l: Lookups, f: Filter, c: Collected, legs: seq<Leg>)
    requires Sound(f, c)
    ensures Sound(f, FromLegs(l, f, c, legs))
    decreases |legs|
  {
    if legs == [] {
    } else {
      OfferUntilEnoughKeeps(f, c, LegWants(l, legs[0]), false);
      LegsKeep(l, f, OfferUntilEnough(f, c, LegWants(l, legs[0]), false), legs[1..]);
    }
  }

  lemma LookKeeps(x: Ctx, c: Collected, p: Pair)
    requires Sound(x.filter, c)
    ensures Sound(x.filter, LookAt(x, c, p))
  {
    var near := OfferUntilEnough(x.filter, c, NearSide(x, c, p), true);
    OfferUntilEnoughKeeps(x.filter, c, NearSide(x, c, p), true);
    OfferUntilEnoughKeeps(x.filter, near, FarSide(x, near, p), true);
  }

  lemma {:induction false} GapWantsKeeps(x: Ctx, c: Collected, pairs: seq<Pair>, asked: nat, looked: nat)
    requires Sound(x.filter, c)
    ensures Sound(x.filter, GapWants(x, c, pairs, asked, looked).c)
    decreases |pairs|
  {
    if pairs == [] {
    } else {
      LookKeeps(x, c, pairs[0]);
      GapWantsKeeps(x, LookAt(x, c, pairs[0]), pairs[1..], asked + 1, looked + 1);
    }
  }

  lemma {:induction false} GapPassKeeps(x: Ctx, c: Collected, turns: seq<Turn>, asked: nat, offset: nat)
    requires Sound(x.filter, c)
    ensures Sound(x.filter, GapPass(x, c, turns, asked, offset).c)
    decreases |turns|
  {
    if turns == [] || Enough(c) {
    } else {
      var pairs := turns[0].pairs;
      var leg := GapWants(x, c, pairs, asked, 0);
      GapWantsKeeps(x, c, pairs, asked, 0);
      GapPassKeeps(x, leg.c, turns[1..], leg.asked, offset);
    }
  }

  lemma GatheredIsSound(p: Poll, offset: nat)
    ensures Sound(p.filter, BeforeGaps(p)) && Sound(p.filter, Gathered(p, offset).c)
  {
    RequestsKeep(p.lookups, p.filter, NOTHING, p.requests);
    LegsKeep(p.lookups, p.filter, FromRequests(p.lookups, p.filter, NOTHING, p.requests), p.legs);
    if p.filter.replica.Some? {
      var x := Ctx(p.lookups, p.filter.replica.value, p.filter, p.clock);
      GapPassKeeps(x, BeforeGaps(p), Turns(x.lookups, x.t, p.legs, offset), 0, offset);
    }
  }

  /** Whatever the clock does: at most fifty wants, none twice, none parked by the sidecar, none already held. */
  lemma AnswerIsSound(p: Poll, offset: nat)
    ensures
      var a := AnswerOf(Gathered(p, offset).c);
      && |a.wants| <= CAP && (a.more ==> |a.wants| == CAP)
      && NoRepeats(a.wants)
      && (forall w :: w in a.wants ==> !Skipped(p.filter, w) && !Held(p.filter, w))
  {
    GatheredIsSound(p, offset);
    var c := Gathered(p, offset).c;
    forall w | w in AnswerOf(c).wants
      ensures Accepts(p.filter, w)
    {
      assert w in Listed(c);
    }
  }

  // ---------------------------------------------------------------- nothing missing

  lemma {:induction false} OfferingLosesNothing(f: Filter, c: Collected, wants: seq<Want>, inGapPass: bool)
    ensures c.seen <= OfferUntilEnough(f, c, wants, inGapPass).seen
    ensures !Enough(OfferUntilEnough(f, c, wants, inGapPass)) ==>
      forall w :: w in wants && Accepts(f, w) ==> Key(w) in OfferUntilEnough(f, c, wants, inGapPass).seen
    decreases |wants|
  {
    if wants == [] {
    } else {
      var next := Offer(f, c, wants[0], inGapPass);
      OfferingLosesNothing(f, next, wants[1..], inGapPass);
      assert wants == [wants[0]] + wants[1..];
    }
  }

  lemma {:induction false} LegsLoseNothing(l: Lookups, f: Filter, c: Collected, legs: seq<Leg>)
    ensures c.seen <= FromLegs(l, f, c, legs).seen
    ensures !Enough(FromLegs(l, f, c, legs)) ==>
      forall leg, w :: leg in legs && w in LegWants(l, leg) && Accepts(f, w) ==> Key(w) in FromLegs(l, f, c, legs).seen
    decreases |legs|
  {
    if legs == [] || Enough(c) {
    } else {
      var next := OfferUntilEnough(f, c, LegWants(l, legs[0]), false);
      OfferingLosesNothing(f, c, LegWants(l, legs[0]), false);
      LegsLoseNothing(l, f, next, legs[1..]);
      assert legs == [legs[0]] + legs[1..];
    }
  }

  lemma LookLosesNothing(x: Ctx, c: Collected, p: Pair)
    ensures c.seen <= LookAt(x, c, p).seen
  {
    var near := OfferUntilEnough(x.filter, c, NearSide(x, c, p), true);
    OfferingLosesNothing(x.filter, c, NearSide(x, c, p), true);
    OfferingLosesNothing(x.filter, near, FarSide(x, near, p), true);
  }

  lemma {:induction false} GapWantsLoseNothing(x: Ctx, c: Collected, pairs: seq<Pair>, asked: nat, looked: nat)
    ensures c.seen <= GapWants(x, c, pairs, asked, looked).c.seen
    decreases |pairs|
  {
    if pairs == [] {
    } else {
      LookLosesNothing(x, c, pairs[0]);
      GapWantsLoseNothing(x, LookAt(x, c, pairs[0]), pairs[1..], asked + 1, looked + 1);
    }
  }

  lemma {:induction false} GapPassLosesNothing(x: Ctx, c: Collected, turns: seq<Turn>, asked: nat, offset: nat)
    ensures c.seen <= GapPass(x, c, turns, asked, offset).c.seen
    decreases |turns|
  {
    if turns == [] || Enough(c) {
    } else {
      var pairs := turns[0].pairs;
      var leg := GapWants(x, c, pairs, asked, 0);
      GapWantsLoseNothing(x, c, pairs, asked, 0);
      GapPassLosesNothing(x, leg.c, turns[1..], leg.asked, offset);
    }
  }

  lemma {:induction false} RequestsLoseNothing(l: Lookups, f: Filter, c: Collected, requests: seq<Request>)
    ensures c.seen <= FromRequests(l, f, c, requests).seen
    ensures forall r :: r in requests && Accepts(f, WantOfRequest(l, r)) ==>
      Key(WantOfRequest(l, r)) in FromRequests(l, f, c, requests).seen
    decreases |requests|
  {
    if requests == [] {
    } else {
      RequestsLoseNothing(l, f, Offer(f, c, WantOfRequest(l, requests[0]), false), requests[1..]);
      assert requests == [requests[0]] + requests[1..];
    }
  }

  /** A request of this poll, or a want of a scanned leg. */
  ghost predicate AskedFor(p: Poll, w: Want) {
    || (exists r :: r in p.requests && w == WantOfRequest(p.lookups, r))
    || (exists leg :: leg in p.legs && w in LegWants(p.lookups, leg))
  }

  ghost predicate Mentions(wants: seq<Want>, w: Want) {
    exists v :: v in wants && Key(v) == Key(w)
  }

  /** When the answer says there is no more, everything asked for and not yet held is in it. */
  lemma NothingIsMissing(p: Poll, offset: nat, w: Want)
    requires !AnswerOf(Gathered(p, offset).c).more
    requires AskedFor(p, w) && Accepts(p.filter, w)
    ensures Mentions(AnswerOf(Gathered(p, offset).c).wants, w)
  {
    var start := FromRequests(p.lookups, p.filter, NOTHING, p.requests);
    assert !Enough(BeforeGaps(p));
    RequestsLoseNothing(p.lookups, p.filter, NOTHING, p.requests);
    LegsLoseNothing(p.lookups, p.filter, start, p.legs);
    assert Key(w) in BeforeGaps(p).seen;
    if p.filter.replica.Some? {
      var x := Ctx(p.lookups, p.filter.replica.value, p.filter, p.clock);
      GapPassLosesNothing(x, BeforeGaps(p), Turns(x.lookups, x.t, p.legs, offset), 0, offset);
    }
    GatheredIsSound(p, offset);
  }

  /** The scan looks at the active trip's legs and then the planned ones, the first two hundred of them. */
  lemma ScanIsBounded(active: seq<Leg>, planned: seq<Leg>)
    ensures
      var all := active + planned;
      ScanLegs(active, planned) == if |all| <= LEG_SCAN then all else all[..LEG_SCAN]
  {}

  // ---------------------------------------------------------------- which nodes are open

  /** Under its own region, the node's facility has not been read and is not known to be missing. */
  predicate Unanswered(l: Lookups, t: Contents, x: OpenNode) {
    var region := NodeRegion(l, x.node);
    match x.kind
    case A => false
    case W =>
      && !WaypointAnswered(t, x.node.ident, region)
      && FacilityId(V, x.node.ident, region) !in t.navaids && FacilityId(N, x.node.ident, region) !in t.navaids
    case _ =>
      && FacilityId(x.kind, x.node.ident, region) in t.navaids && !NavaidAnswered(t, x.kind, x.node.ident, region)
  }

  /** Open nodes lie on the walk, and each still has something to fetch. */
  lemma {:induction false} OpenNodesNeedFetching(l: Lookups, t: Contents, regions: map<string, set<string>>,
                                                 reach: seq<Node>, far: Position, x: OpenNode)
    requires x in OpenNodes(l, t, regions, reach, far)
    ensures x.node in reach && Unanswered(l, t, x)
    decreases |reach|
  {
    if reach == [] || x !in OpenNodes(l, t, regions, reach[..|reach| - 1], far) {
    } else {
      OpenNodesNeedFetching(l, t, regions, reach[..|reach| - 1], far, x);
    }
  }

  /** No two open nodes are the same fix. */
  lemma {:induction false} OpenNodesAreDistinct(l: Lookups, t: Contents, regions: map<string, set<string>>,
                                                reach: seq<Node>, far: Position)
    ensures
      var open := OpenNodes(l, t, regions, reach, far);
      forall i, j :: 0 <= i < j < |open| ==> NodeId(l, open[i].node) != NodeId(l, open[j].node)
    decreases |reach|
  {
    if reach == [] {
    } else {
      var before := reach[..|reach| - 1];
      var open := OpenNodes(l, t, regions, before, far);
      OpenNodesAreDistinct(l, t, regions, before, far);
      forall i | 0 <= i < |open|
        ensures NodeId(l, open[i].node) in NodeIds(l, before)
      {
        OpenNodesNeedFetching(l, t, regions, before, far, open[i]);
      }
    }
  }

  // ---------------------------------------------------------------- the two nearest

  ghost predicate InOrder(xs: seq<OpenNode>) {
    forall i, j :: 0 <= i < j < |xs| ==> !Precedes(xs[j], xs[i])
  }

  lemma {:induction false} TextOrder(a: string, b: string, c: string)
    ensures !(TextBefore(a, b) && TextBefore(b, a))
    ensures !TextBefore(b, a) && !TextBefore(c, b) ==> !TextBefore(c, a)
    decreases |a| + |b| + |c|
  {
    if a == "" || b == "" {
    } else {
      TextOrder(a[1..], b[1..], if c == "" then "" else c[1..]);
    }
  }

  lemma PrecedesOrder(a: OpenNode, b: OpenNode, c: OpenNode)
    ensures !(Precedes(a, b) && Precedes(b, a))
    ensures !Precedes(b, a) && !Precedes(c, b) ==> !Precedes(c, a)
  {
    TextOrder(a.node.key, b.node.key, c.node.key);
  }

  lemma {:induction false} InsertSorts(sorted: seq<OpenNode>, x: OpenNode)
    requires InOrder(sorted)
    ensures InOrder(Insert(sorted, x))
    decreases |sorted|
  {
    if sorted == [] {
    } else {
      var before, last := sorted[..|sorted| - 1], sorted[|sorted| - 1];
      if Precedes(x, last) {
        InsertSorts(before, x);
        InsertKeepsElements(before, x);
        forall y | y in Insert(before, x)
          ensures !Precedes(last, y)
        {
          assert y in multiset(Insert(before, x));
          assert y == x || y in before;
          PrecedesOrder(x, last, x);
        }
      } else {
        forall i | 0 <= i < |sorted|
          ensures !Precedes(x, sorted[i])
        {
          PrecedesOrder(sorted[i], last, x);
        }
      }
    }
  }

  lemma {:induction false} SortSorts(open: seq<OpenNode>)
    ensures InOrder(Sort(open))
    decreases |open|
  {
    if open == [] {
    } else {
      SortSorts(open[..|open| - 1]);
      InsertSorts(Sort(open[..|open| - 1]), open[|open| - 1]);
    }
  }

  /** Is `x` among the two open nodes a frontier asks for? */
  ghost predicate Chosen(open: seq<OpenNode>, x: OpenNode) {
    exists i :: 0 <= i < GAP_NODES_PER_SIDE && i < |Sort(open)| && Sort(open)[i] == x
  }

  /** A strictly nearer node is never left out for a farther one. */
  lemma ChosenAreNearest(open: seq<OpenNode>, x: OpenNode, y: OpenNode)
    requires Chosen(open, x) && y in open && Precedes(y, x)
    ensures Chosen(open, y)
  {
    var sorted := Sort(open);
    SortKeepsElements(open);
    SortSorts(open);
    assert y in multiset(sorted);
    var i :| 0 <= i < GAP_NODES_PER_SIDE && i < |sorted| && sorted[i] == x;
    var j :| 0 <= j < |sorted| && sorted[j] == y;
    PrecedesOrder(y, x, y);
    assert j > i ==> !Precedes(sorted[j], sorted[i]);
  }

  lemma FrontierSize(l: Lookups, open: seq<OpenNode>)
    ensures |Sort(open)| == |open|
    ensures |NearestWants(l, open)| == if |open| <= GAP_NODES_PER_SIDE then |open| else GAP_NODES_PER_SIDE
  {
    SortKeepsElements(open);
    assert |multiset(Sort(open))| == |multiset(open)|;
  }

  lemma WantedAreChosen(l: Lookups, open: seq<OpenNode>, i: nat)
    requires i < |NearestWants(l, open)|
    ensures i < |Sort(open)| && NearestWants(l, open)[i] == NodeWant(l, Sort(open)[i])
    ensures Sort(open)[i] in open && Chosen(open, Sort(open)[i])
  {
    FrontierSize(l, open);
    SortKeepsElements(open);
    assert Sort(open)[i] in multiset(Sort(open));
  }

  lemma ChosenAreWanted(l: Lookups, open: seq<OpenNode>, x: OpenNode)
    requires Chosen(open, x)
    ensures NodeWant(l, x) in NearestWants(l, open)
  {
    var i :| 0 <= i < GAP_NODES_PER_SIDE && i < |Sort(open)| && Sort(open)[i] == x;
    FrontierSize(l, open);
    assert NearestWants(l, open)[i] == NodeWant(l, x);
  }

  /** A frontier asks for exactly the chosen nodes: all of them when there are two or fewer, else two. */
  lemma FrontierIsTheChosen(l: Lookups, open: seq<OpenNode>, w: Want)
    ensures
      var wants := NearestWants(l, open);
      && |wants| == (if |open| <= GAP_NODES_PER_SIDE then |open| else GAP_NODES_PER_SIDE)
      && (w in wants <==> exists x :: x in open && Chosen(open, x) && NodeWant(l, x) == w)
  {
    var wants := NearestWants(l, open);
    FrontierSize(l, open);
    if w in wants {
      var i :| 0 <= i < |wants| && wants[i] == w;
      WantedAreChosen(l, open, i);
    }
    if x :| x in open && Chosen(open, x) && NodeWant(l, x) == w {
      ChosenAreWanted(l, open, x);
    }
  }
}
