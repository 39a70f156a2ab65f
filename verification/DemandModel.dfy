/**
 * What the sidecar should fetch next, as functions of the plans and the
 * replica: the wants of the legs, the airway gaps, the collector with its cap,
 * and the rotating gap pass with its time budget. DemandBuilder performs the
 * same steps with loops and memo maps.
 */
module DemandModel {
  import opened Wrappers

  const LEG_SCAN := 200
  const CAP := 50
  const GAP_NODES_PER_SIDE := 2
  const GAP_PASS_BUDGET_MS := 100
  const GAP_MEMO_MAX := 5000

  /** Airport, waypoint, VOR, NDB. */
  datatype Kind = A | W | V | N

  datatype Want = Want(kind: Kind, ident: string, region: Option<string>)

  datatype PlannedWaypoint = PlannedWaypoint(ident: string, region: Option<string>, typeName: string,
                                             airway: Option<string>, at: Position)

  /** A planned leg with its waypoints and alternates in order. */
  datatype Leg = Leg(
    departure: string, departureIsAirport: bool, departureAt: Position,
    destination: string, destinationIsAirport: bool,
    procedures: seq<Option<string>>,
    waypoints: seq<PlannedWaypoint>, alternates: seq<string>)

  datatype Request = Request(id: int, isAirport: bool, ident: string, region: Option<string>, expiresAt: int)

  datatype FixId = FixId(ident: string, region: string)

  datatype FacilityId = FacilityId(kind: Kind, ident: string, region: string)

  /** The replica's rows, as far as they decide a want; `others` stands for every other row. */
  datatype Contents = Contents(
    detailedAirports: set<string>,
    routedWaypoints: set<FixId>,
    navaids: set<FacilityId>,
    detailedNavaids: set<FacilityId>,
    absent: set<FacilityId>,
    others: int)

  /** A fix reached on an airway. */
  datatype Node = Node(key: string, ident: string, region: string, at: Position)

  datatype Walk = Walk(nodes: seq<Node>, reached: bool)

  datatype End = End(key: string, at: Position)

  /** Trimming and upper-casing, and the route lookups of another module, all left uninterpreted. */
  datatype Lookups = Lookups(
    norm: string -> string,
    walk: (Contents, string, string, Option<string>) -> Walk,
    resolve: (Contents, PlannedWaypoint, Position) -> Option<End>,
    attempted: (Leg, PlannedWaypoint, bool, bool) -> bool,
    dist: Distance)

  datatype Skip = Skip(airports: set<string>, waypoints: set<string>)

  // ---------------------------------------------------------------- what is held

  predicate AbsentInRegion(t: Contents, kind: Kind, ident: string, region: string) {
    FacilityId(kind, ident, region) in t.absent
  }

  predicate AbsentAny(t: Contents, kind: Kind, ident: string) {
    exists f :: f in t.absent && f.kind == kind && f.ident == ident
  }

  predicate WaypointAnswered(t: Contents, ident: string, region: string) {
    FixId(ident, region) in t.routedWaypoints || AbsentInRegion(t, W, ident, region)
  }

  predicate NavaidAnswered(t: Contents, kind: Kind, ident: string, region: string) {
    FacilityId(kind, ident, region) in t.detailedNavaids || AbsentInRegion(t, kind, ident, region)
  }

  predicate Holds(t: Contents, want: Want) {
    match want.kind
    case A => want.ident in t.detailedAirports || AbsentAny(t, A, want.ident)
    case W =>
      if want.region.None? then (exists f :: f in t.routedWaypoints && f.ident == want.ident)
        || AbsentAny(t, W, want.ident)
      else WaypointAnswered(t, want.ident, want.region.value)
    case _ =>
      if want.region.None? then
        (exists f :: f in t.detailedNavaids && f.kind == want.kind && f.ident == want.ident)
          || AbsentAny(t, want.kind, want.ident)
      else NavaidAnswered(t, want.kind, want.ident, want.region.value)
  }

  /** What this poll may ask for. With no replica everything is wanted. */
  datatype Filter = Filter(skip: Option<Skip>, replica: Option<Contents>)

  predicate Skipped(f: Filter, want: Want) {
    f.skip.Some? && want.ident in if want.kind.A? then f.skip.value.airports else f.skip.value.waypoints
  }

  predicate Held(f: Filter, want: Want) {
    f.replica.Some? && Holds(f.replica.value, want)
  }

  predicate Accepts(f: Filter, want: Want) {
    !Skipped(f, want) && !Held(f, want)
  }

  // ---------------------------------------------------------------- what the plans want

  function NormRegion(l: Lookups, region: Option<string>): Option<string> {
    var r := if region.None? then "" else l.norm(region.value);
    if r == "" then None else Some(r)
  }

  function AirportWant(l: Lookups, ident: string): Want {
    Want(A, l.norm(ident), None)
  }

  /** A USER waypoint, and any unknown type, names no facility. */
  function WaypointWant(l: Lookups, w: PlannedWaypoint): Option<Want> {
    var typeName := l.norm(w.typeName);
    if typeName == "AIRPORT" then Some(AirportWant(l, w.ident))
    else if typeName == "WAYPOINT" then Some(Want(W, l.norm(w.ident), NormRegion(l, w.region)))
    else if typeName == "VOR" then Some(Want(V, l.norm(w.ident), NormRegion(l, w.region)))
    else if typeName == "NDB" then Some(Want(N, l.norm(w.ident), NormRegion(l, w.region)))
    else None
  }

  function WaypointWants(l: Lookups, ws: seq<PlannedWaypoint>): seq<Want> {
    if ws == [] then []
    else
      var want := WaypointWant(l, ws[|ws| - 1]);
      WaypointWants(l, ws[..|ws| - 1]) + if want.Some? then [want.value] else []
  }

  function AlternateWants(l: Lookups, idents: seq<string>): seq<Want> {
    seq(|idents|, i requires 0 <= i < |idents| => AirportWant(l, idents[i]))
  }

  function LegWants(l: Lookups, leg: Leg): seq<Want> {
    (if leg.departureIsAirport then [AirportWant(l, leg.departure)] else [])
    + WaypointWants(l, leg.waypoints)
    + (if leg.destinationIsAirport then [AirportWant(l, leg.destination)] else [])
    + AlternateWants(l, leg.alternates)
  }

  function WantOfRequest(l: Lookups, r: Request): Want {
    if r.isAirport then AirportWant(l, r.ident) else Want(W, l.norm(r.ident), NormRegion(l, r.region))
  }

  /** The active trip's legs, then the planned ones, `LEG_SCAN` in all. */
  function ScanLegs(active: seq<Leg>, planned: seq<Leg>): seq<Leg> {
    var some := if |active| <= LEG_SCAN then active else active[..LEG_SCAN];
    var room := LEG_SCAN - |some|;
    some + if |planned| <= room then planned else planned[..room]
  }

  // ---------------------------------------------------------------- the collector

  datatype Collected = Collected(
    primary: seq<Want>, gaps: seq<Want>, navaids: seq<Want>, seen: set<string>, regions: map<string, set<string>>)

  const NOTHING := Collected([], [], [], {}, map[])

  function KindName(k: Kind): string {
    match k case A => "A" case W => "W" case V => "V" case N => "N"
  }

  function Key(want: Want): string {
    KindName(want.kind) + "|" + want.ident + "|" + want.region.GetOr("")
  }

  function RegionsOf(c: Collected, ident: string): set<string> {
    if ident in c.regions then c.regions[ident] else {}
  }

  function Collect(c: Collected, want: Want, intoGaps: bool): Collected {
    if Key(want) in c.seen then c
    else
      var isNavaid := want.kind.V? || want.kind.N?;
      Collected(
        if !intoGaps && !isNavaid then c.primary + [want] else c.primary,
        if intoGaps then c.gaps + [want] else c.gaps,
        if !intoGaps && isNavaid then c.navaids + [want] else c.navaids,
        c.seen + {Key(want)},
        if isNavaid then c.regions[want.ident := RegionsOf(c, want.ident) + {want.region.GetOr("")}] else c.regions)
  }

  /** In the gap pass a waypoint goes to the gaps, and a navaid still joins the navaids. */
  function Offer(f: Filter, c: Collected, want: Want, inGapPass: bool): Collected {
    if Accepts(f, want) then Collect(c, want, inGapPass && want.kind.W?) else c
  }

  /** Fixes and airports first, then the gap fixes, then every VOR and NDB. */
  function Listed(c: Collected): seq<Want> {
    c.primary + c.gaps + c.navaids
  }

  /** Nothing further can reach the answer. */
  predicate Enough(c: Collected) {
    |c.primary| + |c.gaps| > CAP
  }

  function OfferUntilEnough(f: Filter, c: Collected, wants: seq<Want>, inGapPass: bool): Collected
    decreases |wants|
  {
    if wants == [] then c
    else
      var next := Offer(f, c, wants[0], inGapPass);
      if Enough(next) then next else OfferUntilEnough(f, next, wants[1..], inGapPass)
  }

  // ---------------------------------------------------------------- the requests and the legs

  function FromRequests(l: Lookups, f: Filter, c: Collected, requests: seq<Request>): Collected
    decreases |requests|
  {
    if requests == [] then c
    else FromRequests(l, f, Offer(f, c, WantOfRequest(l, requests[0]), false), requests[1..])
  }

  /** A request goes once the replica can answer it, unless the sidecar has parked it. */
  predicate Answered(l: Lookups, f: Filter, r: Request) {
    !Skipped(f, WantOfRequest(l, r)) && Held(f, WantOfRequest(l, r))
  }

  function FromLegs(l: Lookups, f: Filter, c: Collected, legs: seq<Leg>): Collected
    decreases |legs|
  {
    if legs == [] || Enough(c) then c
    else FromLegs(l, f, OfferUntilEnough(f, c, LegWants(l, legs[0]), false), legs[1..])
  }

  // ---------------------------------------------------------------- airway gaps

  datatype Pair = Pair(airway: string, from: End, to: End)

  predicate ValidCoordinate(p: Position) {
    && -90.0 <= p.lat <= 90.0 && -180.0 <= p.lon <= 180.0
    && !(p.lat == 0.0 && p.lon == 0.0)
  }

  /** Where the walk along a leg's waypoints has got to. */
  datatype Cursor = Cursor(near: Position, prev: Option<End>, prevIsAirport: bool, hasPrevious: bool)

  function Start(leg: Leg): Cursor {
    Cursor(leg.departureAt, None, false, false)
  }

  /** The pair this waypoint closes, if its two ends resolve to different fixes joined by an airway. */
  function PairAt(l: Lookups, t: Contents, leg: Leg, at: Cursor, wp: PlannedWaypoint): Option<Pair> {
    var found := l.resolve(t, wp, at.near);
    if at.prev.Some? && found.Some? && at.prev.value.key != found.value.key
       && l.attempted(leg, wp, at.prevIsAirport, at.hasPrevious)
    then Some(Pair(wp.airway.GetOr(""), at.prev.value, found.value))
    else None
  }

  function Advance(l: Lookups, t: Contents, at: Cursor, wp: PlannedWaypoint): Cursor {
    Cursor(
      if ValidCoordinate(wp.at) then wp.at else at.near,
      l.resolve(t, wp, at.near),
      wp.typeName == "AIRPORT",
      at.hasPrevious || ValidCoordinate(wp.at))
  }

  function PairsFrom(l: Lookups, t: Contents, leg: Leg, at: Cursor, wps: seq<PlannedWaypoint>): seq<Pair>
    decreases |wps|
  {
    if wps == [] then []
    else
      var pair := PairAt(l, t, leg, at, wps[0]);
      (if pair.Some? then [pair.value] else []) + PairsFrom(l, t, leg, Advance(l, t, at, wps[0]), wps[1..])
  }

  function Pairs(l: Lookups, t: Contents, leg: Leg): seq<Pair> {
    PairsFrom(l, t, leg, Start(leg), leg.waypoints)
  }

  // ---------------------------------------------------------------- the frontier of a walk

  datatype OpenNode = OpenNode(node: Node, kind: Kind, dist: real)

  predicate NavaidWanted(regions: map<string, set<string>>, ident: string, region: string) {
    ident in regions && ("" in regions[ident] || region in regions[ident])
  }

  function NodeRegion(l: Lookups, node: Node): string {
    NormRegion(l, Some(node.region)).GetOr("")
  }

  function NodeId(l: Lookups, node: Node): string {
    node.ident + "|" + NodeRegion(l, node)
  }

  /** As what a node is asked for, if at all; an NDB goes before a VOR. */
  function KindToAsk(l: Lookups, t: Contents, regions: map<string, set<string>>, node: Node): Option<Kind> {
    var ident, region := node.ident, NodeRegion(l, node);
    var isNdb, isVor := FacilityId(N, ident, region) in t.navaids, FacilityId(V, ident, region) in t.navaids;
    if isNdb && !NavaidAnswered(t, N, ident, region) then Some(N)
    else if isVor && !NavaidAnswered(t, V, ident, region) then Some(V)
    else if isNdb || isVor || WaypointAnswered(t, ident, region) || NavaidWanted(regions, ident, region) then None
    else Some(W)
  }

  function NodeIds(l: Lookups, reach: seq<Node>): set<string> {
    set node | node in reach :: NodeId(l, node)
  }

  /** The nodes to ask for, each ident and region looked at once. */
  function OpenNodes(l: Lookups, t: Contents, regions: map<string, set<string>>, reach: seq<Node>,
                     far: Position): seq<OpenNode> {
    if reach == [] then []
    else
      var before, node := reach[..|reach| - 1], reach[|reach| - 1];
      var kind := KindToAsk(l, t, regions, node);
      OpenNodes(l, t, regions, before, far)
      + if kind.Some? && NodeId(l, node) !in NodeIds(l, before)
        then [OpenNode(node, kind.value, l.dist(far, node.at))]
        else []
  }

  predicate TextBefore(a: string, b: string) {
    if b == "" then false
    else if a == "" then true
    else a[0] < b[0] || (a[0] == b[0] && TextBefore(a[1..], b[1..]))
  }

  /** Nearest to the far end first, then by key. */
  predicate Precedes(a: OpenNode, b: OpenNode) {
    a.dist < b.dist || (a.dist == b.dist && TextBefore(a.node.key, b.node.key))
  }

  /** Into a sorted list, after every element that does not come later. */
  function Insert(sorted: seq<OpenNode>, x: OpenNode): seq<OpenNode> {
    if sorted == [] || !Precedes(x, sorted[|sorted| - 1]) then sorted + [x]
    else Insert(sorted[..|sorted| - 1], x) + [sorted[|sorted| - 1]]
  }

  /** The stable sort. */
  function Sort(open: seq<OpenNode>): seq<OpenNode> {
    if open == [] then [] else Insert(Sort(open[..|open| - 1]), open[|open| - 1])
  }

  function NodeWant(l: Lookups, x: OpenNode): Want {
    Want(x.kind, x.node.ident, NormRegion(l, Some(x.node.region)))
  }

  function NodeWants(l: Lookups, xs: seq<OpenNode>): seq<Want> {
    seq(|xs|, i requires 0 <= i < |xs| => NodeWant(l, xs[i]))
  }

  function NearestWants(l: Lookups, open: seq<OpenNode>): seq<Want> {
    var sorted := Sort(open);
    NodeWants(l, if |sorted| <= GAP_NODES_PER_SIDE then sorted else sorted[..GAP_NODES_PER_SIDE])
  }

  function Frontier(l: Lookups, t: Contents, regions: map<string, set<string>>, reach: seq<Node>,
                    far: Position): seq<Want> {
    NearestWants(l, OpenNodes(l, t, regions, reach, far))
  }

  // ---------------------------------------------------------------- the gap pass

  datatype Ctx = Ctx(lookups: Lookups, t: Contents, filter: Filter, clock: nat -> int)

  /** The first pair of a pass is free; question `asked` reads the clock once. */
  predicate OutOfTime(clock: nat -> int, asked: nat) {
    asked > 0 && clock(asked) - clock(0) > GAP_PASS_BUDGET_MS
  }

  function NearSide(x: Ctx, c: Collected, p: Pair): seq<Want> {
    Frontier(x.lookups, x.t, c.regions, x.lookups.walk(x.t, p.airway, p.from.key, Some(p.to.key)).nodes, p.to.at)
  }

  function FarSide(x: Ctx, c: Collected, p: Pair): seq<Want> {
    Frontier(x.lookups, x.t, c.regions, x.lookups.walk(x.t, p.airway, p.to.key, None).nodes, p.from.at)
  }

  predicate Connected(x: Ctx, p: Pair) {
    x.lookups.walk(x.t, p.airway, p.from.key, Some(p.to.key)).reached
  }

  function LookAt(x: Ctx, c: Collected, p: Pair): Collected {
    if Connected(x, p) then c
    else
      var near := OfferUntilEnough(x.filter, c, NearSide(x, c, p), true);
      if Enough(near) then near else OfferUntilEnough(x.filter, near, FarSide(x, near, p), true)
  }

  datatype Outcome = Done | Capped | Budget

  datatype LegPass = LegPass(c: Collected, asked: nat, pairs: nat, outcome: Outcome)

  /** One leg's pairs, until there is enough or no time. */
  function GapWants(x: Ctx, c: Collected, pairs: seq<Pair>, asked: nat, looked: nat): LegPass
    decreases |pairs|
  {
    if pairs == [] then LegPass(c, asked, looked, Done)
    else if OutOfTime(x.clock, asked) then LegPass(c, asked + 1, looked, Budget)
    else
      var next := LookAt(x, c, pairs[0]);
      if Enough(next) then LegPass(next, asked + 1, looked + 1, Capped)
      else GapWants(x, next, pairs[1..], asked + 1, looked + 1)
  }

  /** What a pass found, where the next one starts, why it ended, and the legs of which it looked at a pair. */
  datatype Pass = Pass(c: Collected, next: nat, outcome: Outcome, examined: set<int>)

  /** A leg of the rotation: its place in the scan, and its pairs. */
  datatype Turn = Turn(index: nat, pairs: seq<Pair>)

  function First(offset: nat, n: nat): nat {
    if n == 0 then 0 else offset % n
  }

  /** The legs from the offset on, then those before it. */
  function Turns(l: Lookups, t: Contents, legs: seq<Leg>, offset: nat): seq<Turn> {
    seq(|legs|, n requires 0 <= n < |legs| =>
      var index := (First(offset, |legs|) + n) % |legs|;
      Turn(index, Pairs(l, t, legs[index])))
  }

  function GapPass(x: Ctx, c: Collected, turns: seq<Turn>, asked: nat, offset: nat): Pass
    decreases |turns|
  {
    if turns == [] then Pass(c, 0, Done, {})
    else if Enough(c) then Pass(c, offset, Capped, {})
    else
      var index, leg := turns[0].index, GapWants(x, c, turns[0].pairs, asked, 0);
      var looked := if leg.pairs > 0 then {index} else {};
      match leg.outcome
      case Capped => Pass(leg.c, offset, Capped, looked)
      case Budget => Pass(leg.c, if leg.pairs > 0 then index + 1 else index, Budget, looked)
      case Done =>
        var rest := GapPass(x, leg.c, turns[1..], leg.asked, offset);
        rest.(examined := rest.examined + looked)
  }

  function FullPass(x: Ctx, c: Collected, legs: seq<Leg>, offset: nat): Pass {
    GapPass(x, c, Turns(x.lookups, x.t, legs, offset), 0, offset)
  }

  // ---------------------------------------------------------------- one poll

  /** The inputs of one poll. */
  datatype Poll = Poll(lookups: Lookups, filter: Filter, requests: seq<Request>, legs: seq<Leg>, clock: nat -> int)

  function BeforeGaps(p: Poll): Collected {
    FromLegs(p.lookups, p.filter, FromRequests(p.lookups, p.filter, NOTHING, p.requests), p.legs)
  }

  /** Without a replica, or with nothing left to add, there is no gap pass and the offset stays. */
  function Gathered(p: Poll, offset: nat): Pass {
    var c := BeforeGaps(p);
    if p.filter.replica.None? || Enough(c) then Pass(c, offset, Capped, {})
    else FullPass(Ctx(p.lookups, p.filter.replica.value, p.filter, p.clock), c, p.legs, offset)
  }

  datatype Answer = Answer(wants: seq<Want>, more: bool)

  function AnswerOf(c: Collected): Answer {
    var listed := Listed(c);
    if |listed| <= CAP then Answer(listed, false) else Answer(listed[..CAP], true)
  }
}
