/** Orders one import batch by matching each leg's destination to the next leg's departure. */
module BatchChain {

  datatype Endpoint = Endpoint(ident: string, isAirport: bool)
  datatype ParsedPlan = ParsedPlan(departure: Endpoint, destination: Endpoint)

  datatype Reason = Chained | SingleLeg | SnippetInBatch | NoUniqueHead | AmbiguousSuccessor | BrokenChain

  datatype ChainOrder = ChainOrder(order: seq<nat>, resolved: bool, reason: Reason)

  /** Trimming and upper-casing, left uninterpreted. */
  type Key = string -> string

  function Dep(plans: seq<ParsedPlan>, key: Key, i: nat): string
    requires i < |plans|
  {
    key(plans[i].departure.ident)
  }

  function Dst(plans: seq<ParsedPlan>, key: Key, i: nat): string
    requires i < |plans|
  {
    key(plans[i].destination.ident)
  }

  function Identity(n: nat): seq<nat> {
    seq(n, i requires 0 <= i < n => i)
  }

  predicate AllAirports(plans: seq<ParsedPlan>) {
    forall p :: p in plans ==> p.departure.isAirport && p.destination.isAirport
  }

  /** A leg no other leg of the batch, itself included, arrives at. */
  predicate IsHead(plans: seq<ParsedPlan>, key: Key, i: nat) {
    i < |plans| && forall j: nat :: j < |plans| ==> Dst(plans, key, j) != Dep(plans, key, i)
  }

  predicate Follows(plans: seq<ParsedPlan>, key: Key, i: nat, j: nat) {
    i < |plans| && j < |plans| && Dep(plans, key, j) == Dst(plans, key, i)
  }

  function Members(order: seq<nat>): set<nat> {
    set i | i in order
  }

  predicate Distinct(order: seq<nat>) {
    forall a, b :: 0 <= a < b < |order| ==> order[a] != order[b]
  }

  /** Some of the legs, none twice, each flown from where the one before it arrived. */
  predicate IsChain(plans: seq<ParsedPlan>, key: Key, order: seq<nat>) {
    && (forall i :: i in order ==> i < |plans|)
    && Distinct(order)
    && forall k :: 0 <= k < |order| - 1 ==> Follows(plans, key, order[k], order[k + 1])
  }

  /** A chain through the whole batch. */
  predicate IsRoute(plans: seq<ParsedPlan>, key: Key, order: seq<nat>) {
    |order| == |plans| && IsChain(plans, key, order)
  }

  /** The unused legs that depart from where `current` arrives, in batch order. */
  function Successors(plans: seq<ParsedPlan>, key: Key, used: set<nat>, current: nat, from: nat): seq<nat>
    requires current < |plans| && from <= |plans|
    decreases |plans| - from
  {
    if from == |plans| then []
    else (if from !in used && Follows(plans, key, current, from) then [from] else [])
         + Successors(plans, key, used, current, from + 1)
  }

  lemma SuccessorsExact(plans: seq<ParsedPlan>, key: Key, used: set<nat>, current: nat, from: nat)
    requires current < |plans| && from <= |plans|
    ensures forall i ::
      i in Successors(plans, key, used, current, from) <==> from <= i && i !in used && Follows(plans, key, current, i)
    ensures Distinct(Successors(plans, key, used, current, from))
    decreases |plans| - from
  {
    if from == |plans| {
    } else {
      SuccessorsExact(plans, key, used, current, from + 1);
      var rest := Successors(plans, key, used, current, from + 1);
      assert from !in rest;
    }
  }

  function Heads(plans: seq<ParsedPlan>, key: Key, from: nat): seq<nat>
    requires from <= |plans|
    decreases |plans| - from
  {
    if from == |plans| then []
    else (if IsHead(plans, key, from) then [from] else []) + Heads(plans, key, from + 1)
  }

  lemma HeadsExact(plans: seq<ParsedPlan>, key: Key, from: nat)
    requires from <= |plans|
    ensures forall i :: i in Heads(plans, key, from) <==> from <= i && IsHead(plans, key, i)
    ensures Distinct(Heads(plans, key, from))
    decreases |plans| - from
  {
    if from == |plans| {
    } else {
      HeadsExact(plans, key, from + 1);
      var rest := Heads(plans, key, from + 1);
      assert from !in rest;
    }
  }

  // ---------------------------------------------------------------- the algorithm

  /** The walk as a function of the legs taken so far. */
  ghost function Walk(plans: seq<ParsedPlan>, key: Key, order: seq<nat>): ChainOrder
    requires order != [] && |order| <= |plans| && forall i :: i in order ==> i < |plans|
    decreases |plans| - |order|
  {
    if |order| == |plans| then ChainOrder(order, true, Chained)
    else
      assert order[|order| - 1] in order;
      var next := Successors(plans, key, Members(order), order[|order| - 1], 0);
      if |next| == 0 then ChainOrder(Identity(|plans|), false, BrokenChain)
      else if |next| > 1 then ChainOrder(Identity(|plans|), false, AmbiguousSuccessor)
      else
        SuccessorsExact(plans, key, Members(order), order[|order| - 1], 0);
        assert next[0] in next;
        Walk(plans, key, order + [next[0]])
  }

  ghost function ChainOf(plans: seq<ParsedPlan>, key: Key): ChainOrder {
    var identity := Identity(|plans|);
    if |plans| < 2 then ChainOrder(identity, true, SingleLeg)
    else if !AllAirports(plans) then ChainOrder(identity, false, SnippetInBatch)
    else
      var heads := Heads(plans, key, 0);
      if |heads| != 1 then ChainOrder(identity, false, NoUniqueHead)
      else
        HeadsExact(plans, key, 0);
        assert heads[0] in heads;
        Walk(plans, key, heads)
  }

  // ---------------------------------------------------------------- why an answer is right

  lemma {:induction false} SetSize(order: seq<nat>)
    requires Distinct(order)
    ensures |Members(order)| == |order|
  {
    if order == [] {
    } else {
      var init, last := order[..|order| - 1], order[|order| - 1];
      SetSize(init);
      assert Members(order) == Members(init) + {last};
    }
  }

  lemma SubsetSize(a: set<nat>, b: set<nat>)
    requires a < b
    ensures |a| < |b|
  {
    assert b == a + (b - a);
  }

  /** Distinct indices below n, n of them, reach every index. */
  lemma Covers(order: seq<nat>, n: nat, x: nat)
    requires Distinct(order) && |order| == n && x < n && forall i :: i in order ==> i < n
    ensures x in order
  {
    SetSize(order);
    SetSize(Identity(n));
    assert Identity(n)[x] == x;
    forall i | i in order
      ensures i in Members(Identity(n))
    {
      assert Identity(n)[i] == i;
    }
    if x !in order {
      assert x in Members(Identity(n)) && x !in Members(order);
      SubsetSize(Members(order), Members(Identity(n)));
    }
  }

  /** A full route can only begin at a head, if there is one. */
  lemma RouteStartsAtHead(plans: seq<ParsedPlan>, key: Key, order: seq<nat>, h: nat)
    requires IsRoute(plans, key, order) && IsHead(plans, key, h)
    ensures order != [] && order[0] == h
  {
    forall j | 0 < j < |order|
      ensures !IsHead(plans, key, order[j])
    {
      assert Follows(plans, key, order[j - 1], order[j - 1 + 1]);
    }
    Covers(order, |plans|, h);
  }

  /** Every route agrees with the forced prefix so far, so it takes the forced next leg too. */
  lemma PrefixExtends(plans: seq<ParsedPlan>, key: Key, prefix: seq<nat>, used: set<nat>, route: seq<nat>)
    requires IsRoute(plans, key, route) && prefix != [] && |prefix| < |plans| && prefix == route[..|prefix|]
    requires used == Members(prefix)
    ensures prefix[|prefix| - 1] < |plans|
    ensures route[|prefix|] in Successors(plans, key, used, prefix[|prefix| - 1], 0)
  {
    var n := |prefix|;
    assert Follows(plans, key, route[n - 1], route[n - 1 + 1]);
    SuccessorsExact(plans, key, used, prefix[n - 1], 0);
  }

  /** Every route there is begins with these legs. */
  ghost predicate AllRoutesStart(plans: seq<ParsedPlan>, key: Key, prefix: seq<nat>) {
    forall route :: IsRoute(plans, key, route) ==> |prefix| <= |route| && prefix == route[..|prefix|]
  }

  lemma TwoHeadsNoRoute(plans: seq<ParsedPlan>, key: Key, g: nat, h: nat)
    requires g != h && IsHead(plans, key, g) && IsHead(plans, key, h)
    ensures !exists route :: IsRoute(plans, key, route)
  {
    forall route | IsRoute(plans, key, route)
      ensures false
    {
      RouteStartsAtHead(plans, key, route, g);
      RouteStartsAtHead(plans, key, route, h);
    }
  }

  lemma Extend(route: seq<nat>, order: seq<nat>, next: nat)
    requires |order| < |route| && order == route[..|order|] && route[|order|] == next
    ensures order + [next] == route[..|order| + 1]
  {}

  lemma ChainGrows(plans: seq<ParsedPlan>, key: Key, order: seq<nat>, next: nat)
    requires order != [] && IsChain(plans, key, order) && next !in order
        && Follows(plans, key, order[|order| - 1], next)
    ensures IsChain(plans, key, order + [next])
  {
    var longer := order + [next];
    forall k | 0 <= k < |longer| - 1
      ensures Follows(plans, key, longer[k], longer[k + 1])
    {
      if k < |order| - 1 {
        assert Follows(plans, key, order[k], order[k + 1]);
      }
    }
  }

  lemma Grows(plans: seq<ParsedPlan>, key: Key, order: seq<nat>, next: nat)
    requires order != [] && |order| < |plans| && IsChain(plans, key, order) && AllRoutesStart(plans, key, order)
    requires order[|order| - 1] < |plans| && Successors(plans, key, Members(order), order[|order| - 1], 0) == [next]
    ensures IsChain(plans, key, order + [next])
    ensures AllRoutesStart(plans, key, order + [next])
  {
    SuccessorsExact(plans, key, Members(order), order[|order| - 1], 0);
    assert next in [next];
    ChainGrows(plans, key, order, next);
    forall route | IsRoute(plans, key, route)
      ensures |order + [next]| <= |route| && order + [next] == route[..|order + [next]|]
    {
      PrefixExtends(plans, key, order, Members(order), route);
      Extend(route, order, next);
    }
  }

  /** No two legs of the batch leave from the same place. */
  ghost predicate DistinctDepartures(plans: seq<ParsedPlan>, key: Key) {
    forall i, j :: 0 <= i < j < |plans| ==> Dep(plans, key, i) != Dep(plans, key, j)
  }

  /**
   * Chained means a route through the whole batch, and the only one. A broken
   * chain, or two or more heads, means no route exists. An ambiguous successor
   * means two legs leave from the same place. Whatever is not resolved leaves
   * the batch in upload order.
   */
  ghost predicate Verdict(plans: seq<ParsedPlan>, key: Key, r: ChainOrder) {
    && (r.resolved <==> r.reason.Chained? || r.reason.SingleLeg?)
    && (!r.reason.Chained? ==> r.order == Identity(|plans|))
    && match r.reason
       case SingleLeg => |plans| < 2
       case SnippetInBatch => |plans| >= 2 && !AllAirports(plans)
       case NoUniqueHead =>
         && (forall h :: Heads(plans, key, 0) != [h])
         && (|Heads(plans, key, 0)| >= 2 ==> !exists route :: IsRoute(plans, key, route))
       case BrokenChain => !exists route :: IsRoute(plans, key, route)
       case AmbiguousSuccessor => !DistinctDepartures(plans, key)
       case Chained => forall route :: IsRoute(plans, key, route) <==> route == r.order
  }

  lemma FullChainIsOnly(plans: seq<ParsedPlan>, key: Key, order: seq<nat>)
    requires |order| == |plans| && IsChain(plans, key, order) && AllRoutesStart(plans, key, order)
    ensures forall route :: IsRoute(plans, key, route) <==> route == order
  {
    forall route | IsRoute(plans, key, route)
      ensures route == order
    {
      assert route[..|order|] == route;
    }
  }

  lemma StuckMeansNoRoute(plans: seq<ParsedPlan>, key: Key, order: seq<nat>)
    requires order != [] && |order| < |plans| && AllRoutesStart(plans, key, order)
    requires order[|order| - 1] < |plans| && Successors(plans, key, Members(order), order[|order| - 1], 0) == []
    ensures !exists route :: IsRoute(plans, key, route)
  {
    if route :| IsRoute(plans, key, route) {
      PrefixExtends(plans, key, order, Members(order), route);
    }
  }

  lemma Forks(plans: seq<ParsedPlan>, key: Key, order: seq<nat>)
    requires order != [] && order[|order| - 1] < |plans|
    requires |Successors(plans, key, Members(order), order[|order| - 1], 0)| > 1
    ensures !DistinctDepartures(plans, key)
  {
    var last := order[|order| - 1];
    SuccessorsExact(plans, key, Members(order), last, 0);
    var next := Successors(plans, key, Members(order), last, 0);
    assert next[0] in next && next[1] in next;
    var i, j := if next[0] < next[1] then next[0] else next[1], if next[0] < next[1] then next[1] else next[0];
    assert i < j && Dep(plans, key, i) == Dep(plans, key, j);
  }

  lemma {:induction false} WalkIsRight(plans: seq<ParsedPlan>, key: Key, order: seq<nat>)
    requires order != [] && |order| <= |plans| && IsChain(plans, key, order) && AllRoutesStart(plans, key, order)
    ensures Verdict(plans, key, Walk(plans, key, order))
    decreases |plans| - |order|
  {
    if |order| == |plans| {
      FullChainIsOnly(plans, key, order);
    } else {
      assert order[|order| - 1] in order;
      var next := Successors(plans, key, Members(order), order[|order| - 1], 0);
      if |next| == 0 {
        StuckMeansNoRoute(plans, key, order);
      } else if |next| > 1 {
        Forks(plans, key, order);
      } else {
        assert next == [next[0]];
        Grows(plans, key, order, next[0]);
        assert order + next == order + [next[0]];
        SuccessorsExact(plans, key, Members(order), order[|order| - 1], 0);
        assert next[0] in next;
        WalkIsRight(plans, key, order + [next[0]]);
      }
    }
  }

  lemma ChainOfIsRight(plans: seq<ParsedPlan>, key: Key)
    ensures Verdict(plans, key, ChainOf(plans, key))
  {
    if |plans| >= 2 && AllAirports(plans) {
      var heads := Heads(plans, key, 0);
      HeadsExact(plans, key, 0);
      if |heads| >= 2 {
        assert heads[0] in heads && heads[1] in heads;
        TwoHeadsNoRoute(plans, key, heads[0], heads[1]);
      } else if |heads| == 1 {
        assert heads[0] in heads;
        forall route | IsRoute(plans, key, route)
          ensures |route| >= 1 && heads == route[..1]
        {
          RouteStartsAtHead(plans, key, route, heads[0]);
        }
        WalkIsRight(plans, key, heads);
      }
    }
  }

  // ---------------------------------------------------------------- which batches are chained

  ghost predicate HasRoute(plans: seq<ParsedPlan>, key: Key) {
    exists route :: IsRoute(plans, key, route)
  }

  ghost predicate HasHead(plans: seq<ParsedPlan>, key: Key) {
    exists h :: IsHead(plans, key, h)
  }

  /** No other leg of the batch leaves from where `i` leaves. */
  ghost predicate LeavesAlone(plans: seq<ParsedPlan>, key: Key, i: nat) {
    i < |plans| && forall j: nat :: j < |plans| && j != i ==> Dep(plans, key, j) != Dep(plans, key, i)
  }

  /** A walk that reaches the end has met every leg as the only way on. */
  lemma {:induction false} ChainedWalkLeavesAlone(plans: seq<ParsedPlan>, key: Key, order: seq<nat>)
    requires order != [] && |order| <= |plans| && IsChain(plans, key, order)
    requires forall i :: i in order ==> LeavesAlone(plans, key, i)
    requires Walk(plans, key, order).reason.Chained?
    ensures DistinctDepartures(plans, key)
    decreases |plans| - |order|
  {
    if |order| == |plans| {
      forall i, j | 0 <= i < j < |plans|
        ensures Dep(plans, key, i) != Dep(plans, key, j)
      {
        Covers(order, |plans|, i);
      }
    } else {
      var last := order[|order| - 1];
      assert last in order;
      SuccessorsExact(plans, key, Members(order), last, 0);
      var next := Successors(plans, key, Members(order), last, 0);
      var n := next[0];
      assert n in next && next == [n];
      forall j: nat | j < |plans| && j != n
        ensures Dep(plans, key, j) != Dep(plans, key, n)
      {
        assert j in next <==> j !in order && Follows(plans, key, last, j);
        assert j in order ==> LeavesAlone(plans, key, j);
      }
      ChainGrows(plans, key, order, n);
      ChainedWalkLeavesAlone(plans, key, order + [n]);
    }
  }

  lemma OnlyHeadLeavesAlone(plans: seq<ParsedPlan>, key: Key, h: nat)
    requires Heads(plans, key, 0) == [h]
    ensures LeavesAlone(plans, key, h)
  {
    HeadsExact(plans, key, 0);
    assert h in [h];
    forall j: nat | j < |plans| && j != h
      ensures Dep(plans, key, j) != Dep(plans, key, h)
    {
      assert j !in [h];
    }
  }

  /**
   * A batch of two or more flights between airports is chained exactly when it
   * has a route, begins somewhere no flight arrives, and never leaves one place
   * twice.
   */
  lemma ChainedExactlyWhen(plans: seq<ParsedPlan>, key: Key)
    requires |plans| >= 2 && AllAirports(plans)
    ensures ChainOf(plans, key).reason.Chained? <==>
      HasRoute(plans, key) && HasHead(plans, key) && DistinctDepartures(plans, key)
  {
    var r, heads := ChainOf(plans, key), Heads(plans, key, 0);
    ChainOfIsRight(plans, key);
    HeadsExact(plans, key, 0);
    if r.reason.Chained? {
      assert IsRoute(plans, key, r.order);
      assert heads == [heads[0]] && heads[0] in heads;
      OnlyHeadLeavesAlone(plans, key, heads[0]);
      ChainedWalkLeavesAlone(plans, key, heads);
    }
    if HasRoute(plans, key) && HasHead(plans, key) && DistinctDepartures(plans, key) {
      var h :| IsHead(plans, key, h);
      assert h in heads;
      assert |heads| == 1 ==> heads == [heads[0]];
    }
  }

  /**
   * So of the batches that have a route, those with no head are refused as such,
   * and those with a head and a place left twice as ambiguous.
   */
  lemma RoutedBatch(plans: seq<ParsedPlan>, key: Key)
    requires |plans| >= 2 && AllAirports(plans) && HasRoute(plans, key)
    ensures ChainOf(plans, key).reason ==
      if !HasHead(plans, key) then NoUniqueHead
      else if DistinctDepartures(plans, key) then Chained
      else AmbiguousSuccessor
  {
    var heads := Heads(plans, key, 0);
    ChainOfIsRight(plans, key);
    ChainedExactlyWhen(plans, key);
    HeadsExact(plans, key, 0);
    assert forall h :: IsHead(plans, key, h) ==> h in heads;
    assert heads != [] ==> heads[0] in heads;
    assert |heads| == 1 ==> heads == [heads[0]];
  }

  method ChainOrderForBatch(plans: seq<ParsedPlan>, key: Key) returns (r: ChainOrder)
    ensures r == ChainOf(plans, key)
    ensures Verdict(plans, key, r)
  {
    ChainOfIsRight(plans, key);
    var identity := Identity(|plans|);
    if |plans| < 2 {
      return ChainOrder(identity, true, SingleLeg);
    }
    if !AllAirports(plans) {
      return ChainOrder(identity, false, SnippetInBatch);
    }
    var heads := Heads(plans, key, 0);
    if |heads| != 1 {
      return ChainOrder(identity, false, NoUniqueHead);
    }
    HeadsExact(plans, key, 0);
    assert heads[0] in heads;
    var order: seq<nat>, used: set<nat>, current: nat := heads, {heads[0]}, heads[0];
    while |used| != |plans|
      invariant order != [] && order[|order| - 1] == current
      invariant used == Members(order) && |order| == |used| <= |plans|
      invariant forall i :: i in order ==> i < |plans|
      invariant ChainOf(plans, key) == Walk(plans, key, order)
      decreases |plans| - |used|
    {
      assert current in order;
      var next := Successors(plans, key, used, current, 0);
      SuccessorsExact(plans, key, used, current, 0);
      if |next| == 0 {
        return ChainOrder(identity, false, BrokenChain);
      }
      if |next| > 1 {
        return ChainOrder(identity, false, AmbiguousSuccessor);
      }
      assert next[0] in next;
      assert Members(order + next) == used + {next[0]};
      assert next == [next[0]];
      current := next[0];
      used := used + {current};
      order := order + [current];
    }
    return ChainOrder(order, true, Chained);
  }

  // ---------------------------------------------------------------- upload order

  /** `upload` lists the same batch in another order: its i-th plan is plan perm[i]. */
  ghost predicate SameBatch(plans: seq<ParsedPlan>, upload: seq<ParsedPlan>, perm: seq<nat>) {
    && |perm| == |upload| == |plans|
    && Distinct(perm)
    && forall i :: 0 <= i < |perm| ==> perm[i] < |plans| && upload[i] == plans[perm[i]]
  }

  function Through(perm: seq<nat>, order: seq<nat>): seq<nat>
    requires forall i :: i in order ==> i < |perm|
  {
    seq(|order|, k requires 0 <= k < |order| => assert order[k] in order; perm[order[k]])
  }

  /** Two lists without repeats that correspond under the renumbering are equally long. */
  lemma SameSize(perm: seq<nat>, xs: seq<nat>, ys: seq<nat>)
    requires Distinct(perm) && Distinct(xs) && Distinct(ys)
    requires forall i :: i in xs ==> i < |perm|
    requires forall j :: j in ys ==> j in perm
    requires forall i :: 0 <= i < |perm| ==> (i in xs <==> perm[i] in ys)
    ensures |xs| == |ys| && (|xs| == 1 ==> ys == Through(perm, xs))
  {
    var zs := Through(perm, xs);
    forall a, b | 0 <= a < b < |zs|
      ensures zs[a] != zs[b]
    {
      assert xs[a] in xs && xs[b] in xs;
    }
    forall j
      ensures j in Members(zs) <==> j in Members(ys)
    {
      if j in zs {
        var k :| 0 <= k < |zs| && zs[k] == j;
        assert xs[k] in xs;
      }
      if j in ys {
        var i :| 0 <= i < |perm| && perm[i] == j;
        var k :| 0 <= k < |xs| && xs[k] == i;
        assert zs[k] == j;
      }
    }
    assert Members(zs) == Members(ys);
    SetSize(zs);
    SetSize(ys);
    if |xs| == 1 {
      assert zs[0] in Members(ys);
    }
  }

  lemma PermIsOnto(plans: seq<ParsedPlan>, upload: seq<ParsedPlan>, perm: seq<nat>)
    requires SameBatch(plans, upload, perm)
    ensures forall j: nat :: j < |plans| ==> j in perm
  {
    forall j: nat | j < |plans|
      ensures j in perm
    {
      Covers(perm, |plans|, j);
    }
  }

  lemma HeadsCorrespond(plans: seq<ParsedPlan>, upload: seq<ParsedPlan>, perm: seq<nat>, key: Key)
    requires SameBatch(plans, upload, perm)
    ensures |Heads(upload, key, 0)| == |Heads(plans, key, 0)|
    ensures |Heads(plans, key, 0)| == 1 ==>
      (forall i :: i in Heads(upload, key, 0) ==> i < |perm|)
        && Heads(plans, key, 0) == Through(perm, Heads(upload, key, 0))
  {
    PermIsOnto(plans, upload, perm);
    HeadsExact(plans, key, 0);
    HeadsExact(upload, key, 0);
    forall i: nat | i < |perm|
      ensures i in Heads(upload, key, 0) <==> perm[i] in Heads(plans, key, 0)
    {
      if IsHead(upload, key, i) {
        forall j: nat | j < |plans|
          ensures Dst(plans, key, j) != Dep(plans, key, perm[i])
        {
          assert j in perm;
          var k :| 0 <= k < |perm| && perm[k] == j;
          assert Dst(upload, key, k) != Dep(upload, key, i);
        }
      }
      if IsHead(plans, key, perm[i]) {
        forall j: nat | j < |upload|
          ensures Dst(upload, key, j) != Dep(upload, key, i)
        {
          assert Dst(plans, key, perm[j]) != Dep(plans, key, perm[i]);
        }
      }
    }
    SameSize(perm, Heads(upload, key, 0), Heads(plans, key, 0));
  }

  lemma UsedCorrespond(perm: seq<nat>, order: seq<nat>, i: nat)
    requires Distinct(perm) && i < |perm| && forall j :: j in order ==> j < |perm|
    ensures i in order <==> perm[i] in Through(perm, order)
  {
    var moved := Through(perm, order);
    if i in order {
      var k :| 0 <= k < |order| && order[k] == i;
      assert moved[k] == perm[i];
    }
    if perm[i] in moved {
      var k :| 0 <= k < |moved| && moved[k] == perm[i];
      assert order[k] in order;
    }
  }

  lemma ThroughFits(plans: seq<ParsedPlan>, upload: seq<ParsedPlan>, perm: seq<nat>, order: seq<nat>)
    requires SameBatch(plans, upload, perm) && forall i :: i in order ==> i < |perm|
    ensures |Through(perm, order)| == |order| && forall i :: i in Through(perm, order) ==> i < |plans|
  {
    var moved := Through(perm, order);
    forall i | i in moved
      ensures i < |plans|
    {
      var k :| 0 <= k < |moved| && moved[k] == i;
      assert order[k] in order;
    }
  }

  lemma SuccessorsCorrespond(plans: seq<ParsedPlan>, upload: seq<ParsedPlan>, perm: seq<nat>, key: Key,
                             order: seq<nat>, last: nat)
    requires SameBatch(plans, upload, perm) && last < |perm|
    requires forall i :: i in order ==> i < |perm|
    ensures
      var next' := Successors(upload, key, Members(order), last, 0);
      var next := Successors(plans, key, Members(Through(perm, order)), perm[last], 0);
      && |next'| == |next|
      && (|next'| == 1 ==> next'[0] < |perm| && next == [perm[next'[0]]])
  {
    var moved := Through(perm, order);
    var next' := Successors(upload, key, Members(order), last, 0);
    var next := Successors(plans, key, Members(moved), perm[last], 0);
    SuccessorsExact(upload, key, Members(order), last, 0);
    SuccessorsExact(plans, key, Members(moved), perm[last], 0);
    PermIsOnto(plans, upload, perm);
    forall i | 0 <= i < |perm|
      ensures i in next' <==> perm[i] in next
    {
      UsedCorrespond(perm, order, i);
    }
    SameSize(perm, next', next);
    assert |next'| == 1 ==> next'[0] in next';
  }

  lemma {:induction false} WalkCorresponds(plans: seq<ParsedPlan>, upload: seq<ParsedPlan>, perm: seq<nat>, key: Key,
                                           order: seq<nat>)
    requires SameBatch(plans, upload, perm)
    requires order != [] && |order| <= |plans| && forall i :: i in order ==> i < |perm|
    ensures forall i :: i in Through(perm, order) ==> i < |plans|
    ensures
      var w, w' := Walk(plans, key, Through(perm, order)), Walk(upload, key, order);
      && w.reason == w'.reason
      && (w.reason.Chained? ==> (forall i :: i in w'.order ==> i < |perm|) && w.order == Through(perm, w'.order))
    decreases |plans| - |order|
  {
    ThroughFits(plans, upload, perm, order);
    if |order| == |plans| {
    } else {
      var last := order[|order| - 1];
      assert last in order;
      var next' := Successors(upload, key, Members(order), last, 0);
      SuccessorsCorrespond(plans, upload, perm, key, order, last);
      if |next'| == 1 {
        assert Through(perm, order + [next'[0]]) == Through(perm, order) + [perm[next'[0]]];
        WalkCorresponds(plans, upload, perm, key, order + [next'[0]]);
      }
    }
  }

  /**
   * The verdict does not depend on the order of upload, and a resolved chain
   * flies the same plans in the same order however they were uploaded.
   */
  lemma UploadOrderIsIrrelevant(plans: seq<ParsedPlan>, upload: seq<ParsedPlan>, perm: seq<nat>, key: Key)
    requires SameBatch(plans, upload, perm)
    ensures
      var r, r' := ChainOf(plans, key), ChainOf(upload, key);
      && r.reason == r'.reason
      && (r.reason.Chained? ==> |r.order| == |r'.order| && forall k :: 0 <= k < |r.order| ==>
            r.order[k] < |plans| && r'.order[k] < |upload| && plans[r.order[k]] == upload[r'.order[k]])
  {
    PermIsOnto(plans, upload, perm);
    HeadsCorrespond(plans, upload, perm, key);
    assert AllAirports(plans) <==> AllAirports(upload) by {
      forall p | p in plans
        ensures p in upload
      {
        var j :| 0 <= j < |plans| && plans[j] == p;
        assert j in perm;
        var i :| 0 <= i < |perm| && perm[i] == j;
        assert upload[i] == p;
      }
    }
    var heads := Heads(upload, key, 0);
    if |plans| >= 2 && |heads| == 1 {
      HeadsExact(upload, key, 0);
      WalkCorresponds(plans, upload, perm, key, heads);
      var r' := ChainOf(upload, key);
      forall k | r'.reason.Chained? && 0 <= k < |r'.order|
        ensures r'.order[k] < |perm|
      {
        assert r'.order[k] in r'.order;
      }
    }
  }

  function Flight(x: string, y: string): ParsedPlan {
    ParsedPlan(Endpoint(x, true), Endpoint(y, true))
  }

  /** A to B, B to C, C to B, B to D: from B both C and D are open, but D is a dead end. */
  const DEAD_END := [Flight("A", "B"), Flight("B", "C"), Flight("C", "B"), Flight("B", "D")]

  function Verbatim(s: string): string {
    s
  }

  lemma DeadEndIdents()
    ensures
      var plans, key: Key := DEAD_END, Verbatim;
      && (forall i, j :: Follows(plans, key, i, j) <==> (i, j) in {(0, 1), (0, 3), (1, 2), (2, 1), (2, 3)})
      && (forall i :: IsHead(plans, key, i) <==> i == 0)
  {
    var plans, key: Key := DEAD_END, Verbatim;
    assert Dst(plans, key, 0) == "B" && Dst(plans, key, 1) == "C";
    assert Dst(plans, key, 2) == "B" && Dst(plans, key, 3) == "D";
    assert Dep(plans, key, 0) == "A" && Dep(plans, key, 1) == "B";
    assert Dep(plans, key, 2) == "C" && Dep(plans, key, 3) == "B";
    assert "A"[0] == 'A' && "B"[0] == 'B' && "C"[0] == 'C' && "D"[0] == 'D';
    assert Follows(plans, key, 0, 1) && Follows(plans, key, 1, 2) && Follows(plans, key, 2, 3);
  }

  lemma DeadEndRoute()
    ensures forall route :: IsRoute(DEAD_END, Verbatim, route) <==> route == [0, 1, 2, 3]
  {
    var plans, key: Key := DEAD_END, Verbatim;
    DeadEndIdents();
    forall route | IsRoute(plans, key, route)
      ensures route == [0, 1, 2, 3]
    {
      RouteStartsAtHead(plans, key, route, 0);
      assert Follows(plans, key, route[0], route[0 + 1]);
      assert Follows(plans, key, route[1], route[1 + 1]);
      assert Follows(plans, key, route[2], route[2 + 1]);
    }
  }

  lemma TwoMembers(xs: seq<nat>, x: nat, y: nat)
    requires x in xs && y in xs && x != y
    ensures |xs| > 1
  {}

  lemma OnlyMember(xs: seq<nat>, x: nat)
    requires Distinct(xs) && x in xs && forall y :: y in xs ==> y == x
    ensures xs == [x]
  {
    SetSize(xs);
    assert Members(xs) == {x};
    assert xs[0] in xs;
  }

  lemma DeadEndHeads()
    ensures Heads(DEAD_END, Verbatim, 0) == [0]
  {
    DeadEndIdents();
    HeadsExact(DEAD_END, Verbatim, 0);
    OnlyMember(Heads(DEAD_END, Verbatim, 0), 0);
  }

  lemma DeadEndFork()
    ensures |Successors(DEAD_END, Verbatim, Members([0]), 0, 0)| > 1
  {
    DeadEndIdents();
    SuccessorsExact(DEAD_END, Verbatim, Members([0]), 0, 0);
    TwoMembers(Successors(DEAD_END, Verbatim, Members([0]), 0, 0), 1, 3);
  }

  /** So an ambiguous successor does not mean that several routes exist. */
  lemma AmbiguityWithOneRoute()
    ensures ChainOf(DEAD_END, Verbatim).reason.AmbiguousSuccessor?
    ensures forall route :: IsRoute(DEAD_END, Verbatim, route) <==> route == [0, 1, 2, 3]
  {
    DeadEndRoute();
    DeadEndHeads();
    DeadEndFork();
    assert Walk(DEAD_END, Verbatim, [0]).reason.AmbiguousSuccessor?;
  }
}
