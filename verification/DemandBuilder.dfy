/**
 * The demand builder itself: collectors it pushes onto, airway walks and key
 * lookups remembered while the replica does not change, and early exits.
 * Each poll is verified against DemandModel, where every lookup is direct.
 */
module DemandBuilder {
  import opened Wrappers
  import opened DemandModel
  import opened DemandRefinement

  /** The wants of one response as they are pushed. */
  class Collector {
    var primary: seq<Want>
    var gaps: seq<Want>
    var navaids: seq<Want>
    var seen: set<string>
    var regions: map<string, set<string>>

    constructor ()
      ensures Value() == NOTHING
    {
      primary, gaps, navaids, seen, regions := [], [], [], {}, map[];
    }

    ghost function Value(): Collected
      reads this
    {
      Collected(primary, gaps, navaids, seen, regions)
    }

    predicate Full()
      reads this
    {
      |primary| > CAP
    }

    predicate Room()
      reads this
    {
      |primary| + |gaps| <= CAP
    }

    method Collect(want: Want, intoGaps: bool)
      modifies this
      ensures Value() == DemandModel.Collect(old(Value()), want, intoGaps)
    {
      var key := Key(want);
      if key in seen {
        return;
      }
      seen := seen + {key};
      if want.kind.V? || want.kind.N? {
        var under := if want.ident in regions then regions[want.ident] else {};
        regions := regions[want.ident := under + {want.region.GetOr("")}];
      }
      if intoGaps {
        gaps := gaps + [want];
      } else if want.kind.V? || want.kind.N? {
        navaids := navaids + [want];
      } else {
        primary := primary + [want];
      }
    }

    /** The requests come first, and are not held to the cap. */
    method Ask(f: Filter, want: Want)
      modifies this
      ensures Value() == Offer(f, old(Value()), want, false)
    {
      if !Skipped(f, want) && !Held(f, want) {
        Collect(want, false);
      }
    }

    /** One leg's wants, until the primary group overflows the cap. */
    method AskAll(f: Filter, wants: seq<Want>)
      requires !Full() && gaps == []
      modifies this
      ensures Value() == OfferUntilEnough(f, old(Value()), wants, false) && gaps == []
    {
      for i := 0 to |wants|
        invariant !Full() && gaps == []
        invariant OfferUntilEnough(f, old(Value()), wants, false) == OfferUntilEnough(f, Value(), wants[i..], false)
      {
        assert wants[i..][1..] == wants[i + 1..];
        Ask(f, wants[i]);
        if Full() {
          return;
        }
      }
    }

    /** The gap pass's emit; false once nothing more can be accepted. */
    method Emit(f: Filter, want: Want) returns (more: bool)
      modifies this
      ensures Value() == Offer(f, old(Value()), want, true)
      ensures more <==> !Enough(Value())
    {
      if !Skipped(f, want) && !Held(f, want) {
        Collect(want, want.kind.W?);
      }
      more := Room();
    }

    method EmitAll(f: Filter, wants: seq<Want>) returns (capped: bool)
      requires !Enough(Value())
      modifies this
      ensures Value() == OfferUntilEnough(f, old(Value()), wants, true)
      ensures capped <==> Enough(Value())
    {
      for i := 0 to |wants|
        invariant !Enough(Value())
        invariant OfferUntilEnough(f, old(Value()), wants, true) == OfferUntilEnough(f, Value(), wants[i..], true)
      {
        assert wants[i..][1..] == wants[i + 1..];
        var more := Emit(f, wants[i]);
        if !more {
          return true;
        }
      }
      return false;
    }

    /** The nodes of a walk worth asking for, nearest to the far end first. */
    method Frontier(l: Lookups, t: Contents, reach: seq<Node>, far: Position) returns (wants: seq<Want>)
      ensures wants == DemandModel.Frontier(l, t, regions, reach, far)
    {
      var looked: set<string> := {};
      var open: seq<OpenNode> := [];
      for i := 0 to |reach|
        invariant looked == NodeIds(l, reach[..i])
        invariant open == OpenNodes(l, t, regions, reach[..i], far)
      {
        assert reach[..i + 1][..i] == reach[..i] && reach[..i + 1] == reach[..i] + [reach[i]];
        var node := reach[i];
        var id := NodeId(l, node);
        if id !in looked {
          var kind := KindToAsk(l, t, regions, node);
          if kind.Some? {
            open := open + [OpenNode(node, kind.value, l.dist(far, node.at))];
          }
        }
        looked := looked + {id};
      }
      assert reach[..|reach|] == reach;
      wants := NearestWants(l, open);
    }
  }

  // ---------------------------------------------------------------- what is remembered

  /** When two replicas show the same stamp they hold the same rows. */
  datatype Stamp = Stamp(handle: int, generation: int, updatedAt: int, snapshotId: string, rev: int)

  datatype Meta = Meta(snapshotId: string, rev: int, updatedAt: int)

  /** An open replica file: its handle, its header row if any, the count of header writes, and its rows. */
  datatype Replica = Replica(handle: int, meta: Option<Meta>, generation: int, contents: Contents)

  function StampOf(r: Replica): Stamp {
    match r.meta
    case Some(m) => Stamp(r.handle, r.generation, m.updatedAt, m.snapshotId, m.rev)
    case None => Stamp(r.handle, r.generation, -1, "", -1)
  }

  /** A walk without a target is remembered under the empty target. */
  datatype WalkKey = WalkKey(airway: string, from: string, target: string)

  /** What a lookup depends on when the plan gives a usable position; no region is the empty region. */
  datatype PlaceKey = PlaceKey(typeName: string, ident: string, region: string, at: Position)

  function PlaceOf(wp: PlannedWaypoint): PlaceKey {
    PlaceKey(wp.typeName, wp.ident, wp.region.GetOr(""), wp.at)
  }

  /**
   * What makes it right to remember: an empty target is no target, and a
   * positioned waypoint resolves by its place alone.
   */
  ghost predicate Memoisable(l: Lookups) {
    && (forall t, airway, from :: l.walk(t, airway, from, Some("")) == l.walk(t, airway, from, None))
    && (forall t, wp, other, near, near' ::
          (PlaceOf(wp) == PlaceOf(other) && ValidCoordinate(wp.at)) ==>
            l.resolve(t, wp, near) == l.resolve(t, other, near'))
  }

  datatype Response = Response(airports: seq<string>, waypoints: seq<Want>, cap: int, more: bool, generatedAt: int)

  function AirportsOf(wants: seq<Want>): seq<string> {
    if wants == [] then []
    else AirportsOf(wants[..|wants| - 1]) + if wants[|wants| - 1].kind.A? then [wants[|wants| - 1].ident] else []
  }

  function WaypointsOf(wants: seq<Want>): seq<Want> {
    if wants == [] then []
    else WaypointsOf(wants[..|wants| - 1]) + if wants[|wants| - 1].kind.A? then [] else [wants[|wants| - 1]]
  }

  function ResponseOf(a: Answer, now: int): Response {
    Response(AirportsOf(a.wants), WaypointsOf(a.wants), CAP, a.more, now)
  }

  function FilterOf(nav: Option<Replica>, skip: Option<Skip>): Filter {
    Filter(skip, if nav.None? then None else Some(nav.value.contents))
  }

  /** The requests that have not expired, oldest first. */
  function Live(requests: seq<Request>, now: int): seq<Request> {
    if requests == [] then []
    else
      Live(requests[..|requests| - 1], now)
      + if requests[|requests| - 1].expiresAt > now then [requests[|requests| - 1]] else []
  }

  /** The requests the replica cannot answer yet, and those the sidecar has parked. */
  function Unanswered(l: Lookups, f: Filter, requests: seq<Request>): seq<Request> {
    if requests == [] then []
    else
      var last := requests[|requests| - 1];
      Unanswered(l, f, requests[..|requests| - 1]) + if Answered(l, f, last) then [] else [last]
  }

  /** What is left of a pass once the legs it looked at are forgotten. */
  function Rest(p: Pass): (Collected, nat) {
    (p.c, p.next)
  }

  lemma TurnOf(x: Ctx, legs: seq<Leg>, offset: nat, n: nat)
    requires n < |legs|
    ensures
      var index := (First(offset, |legs|) + n) % |legs|;
      Turns(x.lookups, x.t, legs, offset)[n] == Turn(index, Pairs(x.lookups, x.t, legs[index]))
  {}

  /** One leg of the rotation, and then either the end of the pass or the next leg. */
  lemma OneTurn(x: Ctx, c: Collected, turns: seq<Turn>, asked: nat, offset: nat)
    requires turns != [] && !Enough(c)
    ensures
      var leg, rest := DemandModel.GapWants(x, c, turns[0].pairs, asked, 0), Rest(GapPass(x, c, turns, asked, offset));
      match leg.outcome
      case Capped => rest == (leg.c, offset)
      case Budget => rest == (leg.c, if leg.pairs > 0 then turns[0].index + 1 else turns[0].index)
      case Done => rest == Rest(GapPass(x, leg.c, turns[1..], leg.asked, offset))
  {}

  class Builder {
    /** The request table, oldest first. */
    var requests: seq<Request>

    var stamp: Option<Stamp>
    var offset: nat
    var resolved: map<PlaceKey, Option<End>>
    var walks: map<WalkKey, Walk>

    const lookups: Lookups
    /** The rows behind every stamp. */
    ghost const rowsAt: Stamp -> Contents

    constructor (requests: seq<Request>, lookups: Lookups, ghost rowsAt: Stamp -> Contents)
      requires Memoisable(lookups)
      ensures Valid() && offset == 0
      ensures this.requests == requests && this.lookups == lookups && this.rowsAt == rowsAt
    {
      this.requests, this.lookups, this.rowsAt := requests, lookups, rowsAt;
      stamp, offset, resolved, walks := None, 0, map[], map[];
    }

    /** Everything remembered is what looking it up again would give. */
    ghost predicate Remembers(t: Contents)
      reads this
    {
      && (forall k :: k in walks ==> walks[k] == lookups.walk(t, k.airway, k.from, Some(k.target)))
      && (forall k, wp, near ::
            (k in resolved && PlaceOf(wp) == k && ValidCoordinate(wp.at)) ==>
              resolved[k] == lookups.resolve(t, wp, near))
    }

    ghost predicate Valid()
      reads this
    {
      && Memoisable(lookups)
      && (stamp.None? ==> walks == map[] && resolved == map[])
      && (stamp.Some? ==> Remembers(rowsAt(stamp.value)))
    }

    /** Drops everything when the replica changed, and a map that has grown too large; the offset stays. */
    method CurrentGapState(nav: Replica)
      requires Valid() && rowsAt(StampOf(nav)) == nav.contents
      modifies this`stamp, this`walks, this`resolved
      ensures Valid() && stamp == Some(StampOf(nav))
    {
      if stamp != Some(StampOf(nav)) {
        stamp, walks, resolved := Some(StampOf(nav)), map[], map[];
      }
      if |resolved| > GAP_MEMO_MAX {
        resolved := map[];
      }
      if |walks| > GAP_MEMO_MAX {
        walks := map[];
      }
    }

    method WalkOnce(t: Contents, airway: string, from: string, target: Option<string>) returns (walk: Walk)
      requires Memoisable(lookups) && Remembers(t)
      modifies this`walks
      ensures Remembers(t) && walk == lookups.walk(t, airway, from, target)
    {
      var key := WalkKey(airway, from, target.GetOr(""));
      if key !in walks {
        walks := walks[key := lookups.walk(t, airway, from, target)];
      }
      walk := walks[key];
    }

    method ResolveOnce(t: Contents, wp: PlannedWaypoint, near: Position) returns (end: Option<End>)
      requires Memoisable(lookups) && Remembers(t)
      modifies this`resolved
      ensures Remembers(t) && end == lookups.resolve(t, wp, near)
    {
      if !ValidCoordinate(wp.at) {
        return lookups.resolve(t, wp, near);
      }
      var key := PlaceOf(wp);
      if key !in resolved {
        resolved := resolved[key := lookups.resolve(t, wp, near)];
      }
      end := resolved[key];
    }

    /** The two sides of one pair; the far one only when the walk did not reach it. */
    method LookAtPair(x: Ctx, p: Pair, c: Collector) returns (capped: bool)
      requires Memoisable(lookups) && Remembers(x.t) && x.lookups == lookups
      requires !Enough(c.Value())
      modifies this`walks, c
      ensures Remembers(x.t)
      ensures c.Value() == LookAt(x, old(c.Value()), p)
      ensures capped <==> Enough(c.Value())
    {
      var fromA := WalkOnce(x.t, p.airway, p.from.key, Some(p.to.key));
      if fromA.reached {
        return false;
      }
      var near := c.Frontier(lookups, x.t, fromA.nodes, p.to.at);
      capped := c.EmitAll(x.filter, near);
      if !capped {
        var fromB := WalkOnce(x.t, p.airway, p.to.key, None);
        var far := c.Frontier(lookups, x.t, fromB.nodes, p.from.at);
        capped := c.EmitAll(x.filter, far);
      }
    }

    method GapWants(x: Ctx, leg: Leg, c: Collector, askedBefore: nat) returns (asked: nat, pairs: nat, outcome: Outcome)
      requires Memoisable(lookups) && Remembers(x.t) && x.lookups == lookups
      requires !Enough(c.Value())
      modifies this`walks, this`resolved, c
      ensures Remembers(x.t)
      ensures LegPass(c.Value(), asked, pairs, outcome)
          == DemandModel.GapWants(x, old(c.Value()), Pairs(lookups, x.t, leg), askedBefore, 0)
      ensures outcome.Done? ==> !Enough(c.Value())
    {
      asked, pairs := askedBefore, 0;
      var at := Start(leg);
      for i := 0 to |leg.waypoints|
        invariant Remembers(x.t) && !Enough(c.Value())
        invariant DemandModel.GapWants(x, old(c.Value()), Pairs(lookups, x.t, leg), askedBefore, 0)
          == DemandModel.GapWants(x, c.Value(), PairsFrom(lookups, x.t, leg, at, leg.waypoints[i..]), asked, pairs)
      {
        var wp := leg.waypoints[i];
        assert leg.waypoints[i..][1..] == leg.waypoints[i + 1..];
        ghost var rest := PairsFrom(lookups, x.t, leg, Advance(lookups, x.t, at, wp), leg.waypoints[i + 1..]);
        var found := ResolveOnce(x.t, wp, at.near);
        if at.prev.Some? && found.Some? && at.prev.value.key != found.value.key
           && lookups.attempted(leg, wp, at.prevIsAirport, at.hasPrevious) {
          var pair := Pair(wp.airway.GetOr(""), at.prev.value, found.value);
          assert ([pair] + rest)[1..] == rest;
          asked := asked + 1;
          if OutOfTime(x.clock, asked - 1) {
            return asked, pairs, Budget;
          }
          pairs := pairs + 1;
          var capped := LookAtPair(x, pair, c);
          if capped {
            return asked, pairs, Capped;
          }
        } else {
          assert [] + rest == rest;
        }
        at := Cursor(if ValidCoordinate(wp.at) then wp.at else at.near, found, wp.typeName == "AIRPORT",
                     at.hasPrevious || ValidCoordinate(wp.at));
      }
      outcome := Done;
    }

    /** One leg of the rotation; `next` is where the next poll starts, when the pass ends here. */
    method TakeTurn(x: Ctx, index: nat, leg: Leg, c: Collector, askedBefore: nat, ghost turns: seq<Turn>)
      returns (asked: nat, next: Option<nat>)
      requires Memoisable(lookups) && Remembers(x.t) && x.lookups == lookups
      requires turns != [] && turns[0] == Turn(index, Pairs(lookups, x.t, leg))
      requires !Enough(c.Value())
      modifies this`walks, this`resolved, c
      ensures Remembers(x.t)
      ensures next.None? ==> !Enough(c.Value())
      ensures Rest(DemandModel.GapPass(x, old(c.Value()), turns, askedBefore, offset))
        == if next.None? then Rest(DemandModel.GapPass(x, c.Value(), turns[1..], asked, offset))
          else (c.Value(), next.value)
    {
      OneTurn(x, c.Value(), turns, askedBefore, offset);
      var pairs, outcome;
      asked, pairs, outcome := GapWants(x, leg, c, askedBefore);
      match outcome
      case Capped => next := Some(offset);
      case Budget => next := Some(if pairs > 0 then index + 1 else index);
      case Done => next := None;
    }

    /** The rotation over the legs, and where the next one starts. */
    method GapPass(x: Ctx, legs: seq<Leg>, c: Collector)
      requires Memoisable(lookups) && Remembers(x.t) && x.lookups == lookups
      requires !Enough(c.Value())
      modifies this`walks, this`resolved, this`offset, c
      ensures Remembers(x.t)
      ensures (c.Value(), offset) == Rest(FullPass(x, old(c.Value()), legs, old(offset)))
    {
      ghost var left := Turns(lookups, x.t, legs, offset);
      ghost var whole := Rest(DemandModel.GapPass(x, c.Value(), left, 0, offset));
      var first := if |legs| == 0 then 0 else offset % |legs|;
      var asked: nat := 0;
      for n := 0 to |legs|
        invariant left == Turns(lookups, x.t, legs, offset)[n..]
        invariant Remembers(x.t) && !Enough(c.Value()) && offset == old(offset)
        invariant whole == Rest(DemandModel.GapPass(x, c.Value(), left, asked, offset))
      {
        TurnOf(x, legs, offset, n);
        var index := (first + n) % |legs|;
        var next;
        asked, next := TakeTurn(x, index, legs[index], c, asked, left);
        if next.Some? {
          offset := next.value;
          return;
        }
        left := left[1..];
      }
      offset := 0;
    }

    ghost predicate Fits(nav: Option<Replica>)
      reads this
    {
      nav.Some? ==> rowsAt(StampOf(nav.value)) == nav.value.contents
    }

    /** The poll these inputs make. */
    function PollOf(active: seq<Leg>, planned: seq<Leg>, nav: Option<Replica>, skip: Option<Skip>, clock: nat -> int,
                    now: int): Poll
      reads this
    {
      Poll(lookups, FilterOf(nav, skip), Live(requests, now), ScanLegs(active, planned), clock)
    }

    /**
     * Requests, legs, gaps. The answer is the model's for this poll and this
     * offset, and so the naive one unless the budget cut the gap pass short.
     */
    method BuildDemand(active: seq<Leg>, planned: seq<Leg>, nav: Option<Replica>, skip: Option<Skip>,
                       clock: nat -> int, now: int)
      returns (response: Response)
      requires Valid() && Fits(nav)
      modifies this
      ensures Valid()
      ensures
        var p := old(PollOf(active, planned, nav, skip, clock, now));
        && response == ResponseOf(AnswerOf(Gathered(p, old(offset)).c), now)
        && requests == Unanswered(lookups, p.filter, p.requests)
        && offset == Gathered(p, old(offset)).next
      ensures
        var p := old(PollOf(active, planned, nav, skip, clock, now));
        !Gathered(p, old(offset)).outcome.Budget? ==> response == ResponseOf(Naive(p, old(offset)), now)
    {
      ghost var p, start := PollOf(active, planned, nav, skip, clock, now), offset;
      Prune(now);
      var f := FilterOf(nav, skip);
      var c := Gather(ScanLegs(active, planned), nav, f, clock);
      response := Respond(c, now);
      if !Gathered(p, start).outcome.Budget? {
        SameAsNaive(p, start);
      }
    }

    method Gather(legs: seq<Leg>, nav: Option<Replica>, f: Filter, clock: nat -> int) returns (c: Collector)
      requires Valid() && Fits(nav)
      requires f.replica == if nav.None? then None else Some(nav.value.contents)
      modifies this
      ensures Valid() && fresh(c)
      ensures requests == Unanswered(lookups, f, old(requests))
      ensures
        var pass := Gathered(Poll(lookups, f, old(requests), legs, clock), old(offset));
        c.Value() == pass.c && offset == pass.next
    {
      ghost var p := Poll(lookups, f, requests, legs, clock);
      c := new Collector();
      TakeRequests(f, c);
      TakeLegs(f, legs, c);
      TakeGaps(p, nav, f, clock, legs, c);
    }

    method TakeGaps(ghost p: Poll, nav: Option<Replica>, f: Filter, clock: nat -> int, legs: seq<Leg>, c: Collector)
      requires Valid() && Fits(nav)
      requires p.lookups == lookups && p.filter == f && p.legs == legs && p.clock == clock
      requires f.replica == if nav.None? then None else Some(nav.value.contents)
      requires c.Value() == BeforeGaps(p) && c.gaps == []
      modifies this`stamp, this`walks, this`resolved, this`offset, c
      ensures Valid()
      ensures c.Value() == Gathered(p, old(offset)).c && offset == Gathered(p, old(offset)).next
    {
      if nav.Some? && !c.Full() {
        CurrentGapState(nav.value);
        GapPass(Ctx(lookups, nav.value.contents, f, clock), legs, c);
      }
    }

    method Prune(now: int)
      modifies this`requests
      ensures requests == Live(old(requests), now)
    {
      var kept := [];
      for i := 0 to |requests|
        invariant requests == old(requests)
        invariant kept == Live(requests[..i], now)
      {
        assert requests[..i + 1][..i] == requests[..i];
        if requests[i].expiresAt > now {
          kept := kept + [requests[i]];
        }
      }
      assert requests[..|requests|] == requests;
      requests := kept;
    }

    method TakeRequests(f: Filter, c: Collector)
      requires c.Value() == NOTHING
      modifies this`requests, c
      ensures requests == Unanswered(lookups, f, old(requests))
      ensures c.Value() == FromRequests(lookups, f, NOTHING, old(requests)) && c.gaps == []
    {
      var kept := [];
      for i := 0 to |requests|
        invariant requests == old(requests) && c.gaps == []
        invariant kept == Unanswered(lookups, f, requests[..i])
        invariant FromRequests(lookups, f, NOTHING, requests) == FromRequests(lookups, f, c.Value(), requests[i..])
      {
        assert requests[..i + 1][..i] == requests[..i] && requests[i..][1..] == requests[i + 1..];
        var want := WantOfRequest(lookups, requests[i]);
        if Skipped(f, want) || !Held(f, want) {
          kept := kept + [requests[i]];
        }
        c.Ask(f, want);
      }
      assert requests[..|requests|] == requests;
      requests := kept;
    }

    method TakeLegs(f: Filter, legs: seq<Leg>, c: Collector)
      requires c.gaps == []
      modifies c
      ensures c.Value() == FromLegs(lookups, f, old(c.Value()), legs) && c.gaps == []
    {
      for i := 0 to |legs|
        invariant c.gaps == []
        invariant FromLegs(lookups, f, old(c.Value()), legs) == FromLegs(lookups, f, c.Value(), legs[i..])
      {
        if c.Full() {
          return;
        }
        assert legs[i..][1..] == legs[i + 1..];
        c.AskAll(f, LegWants(lookups, legs[i]));
      }
    }

    method Respond(c: Collector, now: int) returns (response: Response)
      ensures response == ResponseOf(AnswerOf(c.Value()), now)
    {
      var ordered := c.primary + c.gaps + c.navaids;
      var sent := if |ordered| <= CAP then ordered else ordered[..CAP];
      var airports: seq<string>, waypoints: seq<Want> := [], [];
      for i := 0 to |sent|
        invariant airports == AirportsOf(sent[..i]) && waypoints == WaypointsOf(sent[..i])
      {
        assert sent[..i + 1][..i] == sent[..i];
        if sent[i].kind.A? {
          airports := airports + [sent[i].ident];
        } else {
          waypoints := waypoints + [sent[i]];
        }
      }
      assert sent[..|sent|] == sent;
      response := Response(airports, waypoints, CAP, |ordered| > CAP, now);
    }
  }
}
